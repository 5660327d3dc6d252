/** The elements of each measurement series: every index drawn is accounted for, although it is drawn
    before the series' mutex is taken. */
module ResultsSeriesInv {
  import opened Options
  import opened Artifacts
  import opened ResultCalculator
  import opened ResultsMachine
  import opened ResultsLocks
  import Steps = ResultsStepInv

  /** A call of AddElement that has drawn index n and not yet written it. */
  predicate Draws(pc: Pc, k: Id, n: nat) {
    pc.InSeries? && pc.series == k &&
    ((pc.mp.ElementLock? && pc.mp.index == n) || (pc.mp.ElementCheckStep? && pc.mp.index == n) ||
     (pc.mp.ElementWrite? && pc.mp.index == n))
  }

  predicate IsElement(a: Artifact, step: Id, k: Id, n: nat, ty: int) {
    a.StepArtifact? && a.step == step && a.body.SeriesElement? && a.body.series == k && a.body.index == n &&
    a.body.valueType == ty
  }

  /** What became of index n: a thread still carries it, it is in the log, or it is the total count. */
  predicate FateOk(m: SeriesState, k: Id, n: nat, log: seq<Artifact>, threads: seq<Pc>)
    requires n < |m.fate|
  {
    match m.fate[n]
    case HeldBy(u) => u < |threads| && Draws(threads[u], k, n)
    case LoggedAt(p) =>
      && m.startPos.Some? && m.startPos.value < p < |log|
      && m.typeIndex >= 0 && IsElement(log[p], m.step, k, n, m.typeIndex)
      && (m.total.Some? ==> n < m.total.value)
      && (m.endPos.Some? ==> p < m.endPos.value)
    case Total => m.total == Some(n)
  }

  /** What a series' fields say about the log. */
  ghost predicate FieldsOk(m: SeriesState, k: Id, log: seq<Artifact>, threads: seq<Pc>) {
    && m.typeIndex >= -1
    && m.count == |m.fate|
    && (m.ready <==> m.startPos.Some?)
    && (m.startPos.Some? ==>
          && m.startPos.value < |log| && log[m.startPos.value].StepArtifact?
          && log[m.startPos.value].step == m.step && log[m.startPos.value].body.SeriesStart?
          && log[m.startPos.value].body.series == k
          && (log[m.startPos.value].body.validatorType >= 0 ==>
                m.typeIndex == log[m.startPos.value].body.validatorType))
    && (m.ended <==> m.total.Some?)
    && (m.total.Some? ==> m.total.value < |m.fate| && m.fate[m.total.value] == Total)
    && (m.endPos.Some? ==>
          && m.ended && m.startPos.Some? && m.startPos.value < m.endPos.value < |log|
          && log[m.endPos.value] == StepArtifact(m.step, SeriesEnd(k, m.total.value)))
    && (m.ended && m.endPos == None ==>
          m.lock.Some? && m.lock.value < |threads| && threads[m.lock.value] == InSeries(k, SeriesEndWrite(m.total.value)))
  }

  ghost predicate SeriesOk(m: SeriesState, k: Id, log: seq<Artifact>, threads: seq<Pc>) {
    FieldsOk(m, k, log, threads) && forall n | 0 <= n < |m.fate| :: FateOk(m, k, n, log, threads)
  }

  /** What a thread inside a call on series k may rely on. */
  predicate PcOk(m: SeriesState, t: Tid, p: SeriesPc) {
    match p
    case CheckStepActive(ty, _, _) => Building(m, t) && m.typeIndex == -1 && ty >= -1
    case ValidateStart(ty, _, _) => Building(m, t) && m.typeIndex == -1 && ty >= -1
    case EmitSeriesStart(ty, _) => Building(m, t) && (ty >= 0 ==> m.typeIndex == ty)
    case ElementType(_, _) => m.ready
    case ElementDraw(ty, _) => m.ready && m.typeIndex == ty
    case ElementLock(ty, n, _) => m.ready && m.typeIndex == ty && n < |m.fate| && m.fate[n] == HeldBy(t)
    case ElementCheckStep(ty, n, _) => m.ready && m.typeIndex == ty && n < |m.fate| && m.fate[n] == HeldBy(t)
    case ElementWrite(ty, n, _) => m.ready && m.typeIndex == ty && n < |m.fate| && m.fate[n] == HeldBy(t)
    case SeriesEndLock => m.ready
    case SeriesEndCheckStep => m.ready && !m.ended
    case SeriesEndDraw => m.ready && !m.ended
    case SeriesEndWrite(n) => m.ready && m.ended && m.endPos == None && m.total == Some(n)
  }

  predicate Building(m: SeriesState, t: Tid) { m.builder == t && !m.ready && !m.ended && m.fate == [] }

  /** Where the series artifact at position p may stand. */
  predicate EntryOk(m: SeriesState, body: StepBody, p: nat) {
    && (body.SeriesStart? ==> m.startPos == Some(p))
    && (body.SeriesEnd? ==> m.endPos == Some(p))
    && (body.SeriesElement? ==> body.index < |m.fate| && m.fate[body.index] == LoggedAt(p))
  }

  predicate LogOk(series: seq<SeriesState>, a: Artifact, p: nat) {
    a.StepArtifact? && a.body.OfSeries() ==>
      a.body.series < |series| && a.step == series[a.body.series].step && EntryOk(series[a.body.series], a.body, p)
  }

  predicate ThreadOk(series: seq<SeriesState>, t: Tid, pc: Pc) {
    && (pc.InSeries? ==> pc.series < |series| && PcOk(series[pc.series], t, pc.mp))
    && (pc.NewSeries? ==> pc.validatorType >= -1)
  }

  ghost predicate SeriesInv(s: State) {
    && (forall k | 0 <= k < |s.series| :: SeriesOk(s.series[k], k, s.log, s.threads))
    && (forall t | 0 <= t < |s.threads| :: ThreadOk(s.series, t, s.threads[t]))
    && (forall p | 0 <= p < |s.log| :: LogOk(s.series, s.log[p], p))
  }

  // ---- One section of a call on series k ----

  lemma SectionFields(m: SeriesState, k: Id, p: SeriesPc, t: Tid, pos: nat, ended: bool,
                      log: seq<Artifact>, threads: seq<Pc>)
    requires FieldsOk(m, k, log, threads) && PcOk(m, t, p) && pos == |log|
    requires t < |threads| && threads[t] == InSeries(k, p)
    requires HoldsSeries(threads[t], k) <==> m.lock == Some(t)
    requires p.ElementLock? || p.SeriesEndLock? ==> m.lock == None
    ensures var e := SeriesSection(m, k, p, t, pos, ended);
            e.Proceed? ==>
              FieldsOk(e.after, k, if e.emit.Some? then log + [e.emit.value] else log, threads[t := e.pc])
  {
  }

  lemma SectionFate(m: SeriesState, k: Id, p: SeriesPc, t: Tid, pos: nat, ended: bool,
                    log: seq<Artifact>, threads: seq<Pc>, n: nat)
    requires FieldsOk(m, k, log, threads) && PcOk(m, t, p) && pos == |log|
    requires t < |threads| && threads[t] == InSeries(k, p)
    requires n < |m.fate| ==> FateOk(m, k, n, log, threads)
    ensures var e := SeriesSection(m, k, p, t, pos, ended);
            e.Proceed? && n < |e.after.fate| ==>
              FateOk(e.after, k, n, if e.emit.Some? then log + [e.emit.value] else log, threads[t := e.pc])
  {
  }

  lemma SectionObject(m: SeriesState, k: Id, p: SeriesPc, t: Tid, pos: nat, ended: bool,
                      log: seq<Artifact>, threads: seq<Pc>)
    requires SeriesOk(m, k, log, threads) && PcOk(m, t, p) && pos == |log|
    requires t < |threads| && threads[t] == InSeries(k, p)
    requires HoldsSeries(threads[t], k) <==> m.lock == Some(t)
    requires p.ElementLock? || p.SeriesEndLock? ==> m.lock == None
    ensures var e := SeriesSection(m, k, p, t, pos, ended);
            e.Proceed? ==>
              SeriesOk(e.after, k, if e.emit.Some? then log + [e.emit.value] else log, threads[t := e.pc])
  {
    SectionFields(m, k, p, t, pos, ended, log, threads);
    var e := SeriesSection(m, k, p, t, pos, ended);
    if e.Proceed? {
      var log', threads' := if e.emit.Some? then log + [e.emit.value] else log, threads[t := e.pc];
      forall n | 0 <= n < |e.after.fate| ensures FateOk(e.after, k, n, log', threads') {
        SectionFate(m, k, p, t, pos, ended, log, threads, n);
      }
    }
  }

  lemma SectionThread(m: SeriesState, k: Id, p: SeriesPc, t: Tid, pos: nat, ended: bool)
    requires PcOk(m, t, p) && (m.endPos.Some? ==> m.ended) && (m.ended <==> m.total.Some?) && m.count == |m.fate|
    ensures var e := SeriesSection(m, k, p, t, pos, ended);
            e.Proceed? ==> (e.pc == Idle || (e.pc.InSeries? && e.pc.series == k && PcOk(e.after, t, e.pc.mp))) &&
                           e.after.step == m.step
  {
  }

  lemma SectionOthers(m: SeriesState, k: Id, p: SeriesPc, t: Tid, pos: nat, ended: bool, u: Tid, q: SeriesPc)
    requires PcOk(m, t, p) && PcOk(m, u, q) && u != t && m.typeIndex >= -1
    requires HoldsSeries(InSeries(k, q), k) <==> m.lock == Some(u)
    requires HoldsSeries(InSeries(k, p), k) <==> m.lock == Some(t)
    ensures var e := SeriesSection(m, k, p, t, pos, ended); e.Proceed? ==> PcOk(e.after, u, q)
  {
  }

  lemma SectionEntry(m: SeriesState, k: Id, p: SeriesPc, t: Tid, pos: nat, ended: bool)
    requires PcOk(m, t, p)
    ensures var e := SeriesSection(m, k, p, t, pos, ended);
            e.Proceed? && e.emit.Some? ==>
              e.emit.value.StepArtifact? && e.emit.value.body.OfSeries() && e.emit.value.body.series == k &&
              e.emit.value.step == m.step && EntryOk(e.after, e.emit.value.body, pos)
  {
  }

  lemma SectionOldEntries(m: SeriesState, k: Id, p: SeriesPc, t: Tid, pos: nat, ended: bool,
                          log: seq<Artifact>, threads: seq<Pc>, body: StepBody, q: nat)
    requires SeriesOk(m, k, log, threads) && PcOk(m, t, p) && pos == |log|
    requires EntryOk(m, body, q) && q < pos
    ensures var e := SeriesSection(m, k, p, t, pos, ended); e.Proceed? ==> EntryOk(e.after, body, q)
  {
  }

  // ---- From one object to the whole state ----

  /** A series keeps what it says when the log grows and a thread outside it moves. */
  lemma SeriesOkStable(m: SeriesState, k: Id, log: seq<Artifact>, log': seq<Artifact>, threads: seq<Pc>, t: Tid, pc: Pc)
    requires SeriesOk(m, k, log, threads) && t < |threads|
    requires log <= log'
    requires !(threads[t].InSeries? && threads[t].series == k)
    ensures SeriesOk(m, k, log', threads[t := pc])
  {
    assert forall p | 0 <= p < |log| :: log'[p] == log[p];
    var threads' := threads[t := pc];
    forall n | 0 <= n < |m.fate|
      ensures FateOk(m, k, n, log', threads')
    {
      assert FateOk(m, k, n, log, threads);
    }
  }

  lemma SeriesInvCommit(s: State, t: Tid, k: Id, e: Effect<SeriesState>)
    requires SeriesInv(s) && t < |s.threads| && k < |s.series| && e.Proceed? && !Refused(s, e)
    requires s.threads[t].InSeries? && s.threads[t].series == k && e.after.step == s.series[k].step
    requires SeriesOk(e.after, k, if e.emit.Some? then s.log + [e.emit.value] else s.log, s.threads[t := e.pc])
    requires e.pc == Idle || (e.pc.InSeries? && e.pc.series == k && PcOk(e.after, t, e.pc.mp))
    requires e.emit.Some? ==>
               e.emit.value.StepArtifact? && e.emit.value.body.OfSeries() && e.emit.value.body.series == k &&
               e.emit.value.step == e.after.step && EntryOk(e.after, e.emit.value.body, |s.log|)
    requires forall u | 0 <= u < |s.threads| && u != t && s.threads[u].InSeries? && s.threads[u].series == k ::
               PcOk(e.after, u, s.threads[u].mp)
    requires forall q | 0 <= q < |s.log| && s.log[q].StepArtifact? && s.log[q].body.OfSeries() &&
                        s.log[q].body.series == k ::
               EntryOk(e.after, s.log[q].body, q)
    ensures SeriesInv(DoSeries(s, t, k, e))
  {
    var s' := DoSeries(s, t, k, e);
    forall j | 0 <= j < |s'.series|
      ensures SeriesOk(s'.series[j], j, s'.log, s'.threads)
    {
      if j != k { SeriesOkStable(s.series[j], j, s.log, s'.log, s.threads, t, e.pc); }
    }
    forall u | 0 <= u < |s'.threads|
      ensures ThreadOk(s'.series, u, s'.threads[u])
    {
      assert ThreadOk(s.series, u, s.threads[u]);
    }
    forall q | 0 <= q < |s'.log|
      ensures LogOk(s'.series, s'.log[q], q)
    {
      if q < |s.log| { assert LogOk(s.series, s.log[q], q); }
    }
  }

  lemma SeriesInvObject(s: State, t: Tid, k: Id, p: SeriesPc)
    requires LockInv(s) && SeriesInv(s) && CanStep(s, t) && s.threads[t] == InSeries(k, p)
    ensures var e := SeriesEffect(s, t, k, p);
            e.Proceed? ==>
              && SeriesOk(e.after, k, if e.emit.Some? then s.log + [e.emit.value] else s.log, s.threads[t := e.pc])
              && (e.pc == Idle || (e.pc.InSeries? && e.pc.series == k && PcOk(e.after, t, e.pc.mp)))
              && (e.emit.Some? ==>
                    e.emit.value.StepArtifact? && e.emit.value.body.OfSeries() && e.emit.value.body.series == k &&
                    e.emit.value.step == e.after.step && EntryOk(e.after, e.emit.value.body, |s.log|))
              && e.after.step == s.series[k].step
  {
    var m, ended := s.series[k], s.steps[s.series[k].step].ended;
    assert ThreadOk(s.series, t, s.threads[t]);
    assert SeriesOk(m, k, s.log, s.threads);
    assert HoldsSeries(s.threads[t], k) <==> m.lock == Some(t);
    SectionObject(m, k, p, t, |s.log|, ended, s.log, s.threads);
    SectionThread(m, k, p, t, |s.log|, ended);
    SectionEntry(m, k, p, t, |s.log|, ended);
  }

  lemma SeriesInvOthers(s: State, t: Tid, k: Id, p: SeriesPc, u: Tid)
    requires LockInv(s) && SeriesInv(s) && CanStep(s, t) && s.threads[t] == InSeries(k, p)
    requires u < |s.threads| && u != t && s.threads[u].InSeries? && s.threads[u].series == k
    ensures var e := SeriesEffect(s, t, k, p); e.Proceed? ==> PcOk(e.after, u, s.threads[u].mp)
  {
    assert ThreadOk(s.series, t, s.threads[t]) && ThreadOk(s.series, u, s.threads[u]);
    assert SeriesOk(s.series[k], k, s.log, s.threads);
    assert HoldsSeries(s.threads[t], k) <==> s.series[k].lock == Some(t);
    assert HoldsSeries(s.threads[u], k) <==> s.series[k].lock == Some(u);
    SectionOthers(s.series[k], k, p, t, |s.log|, s.steps[s.series[k].step].ended, u, s.threads[u].mp);
  }

  lemma SeriesInvEntries(s: State, t: Tid, k: Id, p: SeriesPc, q: nat)
    requires SeriesInv(s) && CanStep(s, t) && s.threads[t] == InSeries(k, p)
    requires q < |s.log| && s.log[q].StepArtifact? && s.log[q].body.OfSeries() && s.log[q].body.series == k
    ensures var e := SeriesEffect(s, t, k, p); e.Proceed? ==> EntryOk(e.after, s.log[q].body, q)
  {
    assert ThreadOk(s.series, t, s.threads[t]) && LogOk(s.series, s.log[q], q);
    SectionOldEntries(s.series[k], k, p, t, |s.log|, s.steps[s.series[k].step].ended, s.log, s.threads,
                      s.log[q].body, q);
  }

  lemma SeriesInvSeries(s: State, t: Tid, k: Id, p: SeriesPc)
    requires LockInv(s) && SeriesInv(s) && CanStep(s, t) && s.threads[t] == InSeries(k, p)
    ensures SeriesInv(DoSeries(s, t, k, SeriesEffect(s, t, k, p)))
  {
    var e := SeriesEffect(s, t, k, p);
    if e.Proceed? && !Refused(s, e) {
      SeriesInvObject(s, t, k, p);
      forall u | 0 <= u < |s.threads| && u != t && s.threads[u].InSeries? && s.threads[u].series == k
        ensures PcOk(e.after, u, s.threads[u].mp)
      {
        SeriesInvOthers(s, t, k, p, u);
      }
      forall q | 0 <= q < |s.log| && s.log[q].StepArtifact? && s.log[q].body.OfSeries() && s.log[q].body.series == k
        ensures EntryOk(e.after, s.log[q].body, q)
      {
        SeriesInvEntries(s, t, k, p, q);
      }
      SeriesInvCommit(s, t, k, e);
    }
  }

  // ---- Calls that do not touch a series' fields ----

  /** s' differs from s in thread t, outside every series, and by at most one artifact of another kind. */
  ghost predicate OutsideSeries(s: State, s': State, t: Tid) {
    && t < |s.threads| == |s'.threads| && s'.threads == s.threads[t := s'.threads[t]]
    && !s.threads[t].InSeries?
    && ThreadOk(s.series, t, s'.threads[t])
    && s'.series == s.series
    && (s'.log == s.log ||
        (|s'.log| == |s.log| + 1 && s'.log[..|s.log|] == s.log &&
         !(s'.log[|s.log|].StepArtifact? && s'.log[|s.log|].body.OfSeries())))
  }

  lemma OutsideSeriesKeeps(s: State, s': State, t: Tid)
    requires SeriesInv(s) && OutsideSeries(s, s', t)
    ensures SeriesInv(s')
  {
    assert s.log <= s'.log;
    forall j | 0 <= j < |s'.series|
      ensures SeriesOk(s'.series[j], j, s'.log, s'.threads)
    {
      SeriesOkStable(s.series[j], j, s.log, s'.log, s.threads, t, s'.threads[t]);
    }
    forall u | 0 <= u < |s'.threads|
      ensures ThreadOk(s'.series, u, s'.threads[u])
    {
      assert ThreadOk(s.series, u, s.threads[u]);
    }
    forall q | 0 <= q < |s'.log|
      ensures LogOk(s'.series, s'.log[q], q)
    {
      if q < |s.log| { assert s'.log[q] == s.log[q] && LogOk(s.series, s.log[q], q); }
    }
  }

  lemma SeriesInvRun(s: State, t: Tid, p: RunPc)
    requires SeriesInv(s) && CanStep(s, t) && s.threads[t] == InRun(p)
    ensures SeriesInv(DoRun(s, t, RunEffect(s, t, p)))
  {
    var e := RunEffect(s, t, p);
    Steps.RunEmitsNoStep(s.run, p, t, |s.log|, s.verdict);
    if e.Proceed? && !Refused(s, e) { OutsideSeriesKeeps(s, DoRun(s, t, e), t); }
  }

  lemma StepEmitsNoSeries(st: StepState, i: Id, p: StepPc, t: Tid, pos: nat, started: bool)
    requires Steps.PcOk(st, t, p)
    ensures var e := StepSection(st, i, p, t, pos, started);
            e.Proceed? ==>
              && (e.emit.Some? ==> e.emit.value.StepArtifact? && !e.emit.value.body.OfSeries())
              && (e.pc == Idle || e.pc.InStep?)
  {
  }

  lemma SeriesInvStep(s: State, t: Tid, i: Id, p: StepPc)
    requires Steps.StepInv(s) && SeriesInv(s) && CanStep(s, t) && s.threads[t] == InStep(i, p)
    ensures SeriesInv(DoStep(s, t, i, StepEffect(s, t, i, p)))
  {
    var e := StepEffect(s, t, i, p);
    assert Steps.ThreadOk(s.steps, t, s.threads[t]);
    StepEmitsNoSeries(s.steps[i], i, p, t, |s.log|, s.run.started);
    if e.Proceed? && !Refused(s, e) { OutsideSeriesKeeps(s, DoStep(s, t, i, e), t); }
  }

  lemma SeriesInvDrawStep(s: State, t: Tid, name: string)
    requires SeriesInv(s) && CanStep(s, t) && s.threads[t] == NewStep(name)
    ensures SeriesInv(DrawStep(s, t, name))
  {
    OutsideSeriesKeeps(s, DrawStep(s, t, name), t);
  }

  lemma SeriesInvDrawSeries(s: State, t: Tid, i: Id, ty: int, data: string, valid: bool)
    requires SeriesInv(s) && CanStep(s, t) && s.threads[t] == NewSeries(i, ty, data, valid)
    ensures SeriesInv(DrawSeries(s, t, i, ty, data, valid))
  {
    var s' := DrawSeries(s, t, i, ty, data, valid);
    assert ThreadOk(s.series, t, s.threads[t]);
    forall j | 0 <= j < |s'.series|
      ensures SeriesOk(s'.series[j], j, s'.log, s'.threads)
    {
      if j < |s.series| { SeriesOkStable(s.series[j], j, s.log, s'.log, s.threads, t, s'.threads[t]); }
    }
    forall u | 0 <= u < |s'.threads|
      ensures ThreadOk(s'.series, u, s'.threads[u])
    {
      assert ThreadOk(s.series, u, s.threads[u]);
    }
    forall q | 0 <= q < |s'.log|
      ensures LogOk(s'.series, s'.log[q], q)
    {
      assert LogOk(s.series, s.log[q], q);
    }
  }

  lemma SeriesInvBegin(s: State, t: Tid, pc: Pc)
    requires SeriesInv(s) && Allowed(s, Begin(t, pc))
    ensures SeriesInv(Apply(s, Begin(t, pc)))
  {
    OutsideSeriesKeeps(s, Apply(s, Begin(t, pc)), t);
  }

  lemma SeriesInvLog(s: State, text: string)
    requires SeriesInv(s)
    ensures SeriesInv(s.(log := s.log + [RunLog(text)]))
  {
    var s' := s.(log := s.log + [RunLog(text)]);
    forall j | 0 <= j < |s'.series|
      ensures SeriesOk(s'.series[j], j, s'.log, s'.threads)
    {
      assert SeriesOk(s.series[j], j, s.log, s.threads);
      forall n | 0 <= n < |s.series[j].fate|
        ensures FateOk(s.series[j], j, n, s'.log, s'.threads)
      {
        assert FateOk(s.series[j], j, n, s.log, s.threads);
      }
    }
    forall q | 0 <= q < |s'.log|
      ensures LogOk(s'.series, s'.log[q], q)
    {
      if q < |s.log| { assert LogOk(s.series, s.log[q], q); }
    }
  }

  lemma SeriesInvApply(s: State, a: Action)
    requires LockInv(s) && Steps.StepInv(s) && SeriesInv(s) && Allowed(s, a)
    ensures SeriesInv(Apply(s, a))
  {
    match a
    case Begin(t, pc) => SeriesInvBegin(s, t, pc);
    case Take(t) =>
      match s.threads[t] {
        case InRun(p) => SeriesInvRun(s, t, p);
        case InStep(i, p) => SeriesInvStep(s, t, i, p);
        case InSeries(k, p) => SeriesInvSeries(s, t, k, p);
        case NewStep(name) => SeriesInvDrawStep(s, t, name);
        case NewSeries(i, ty, data, valid) => SeriesInvDrawSeries(s, t, i, ty, data, valid);
        case Idle =>
      }
    case AbslLog(text) => SeriesInvLog(s, text);
    case _ =>
  }
}
