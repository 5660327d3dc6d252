/** The bracketing of each step's artifacts, and the agreement of its end status with its errors. */
module ResultsStepInv {
  import opened Options
  import opened Artifacts
  import opened ResultCalculator
  import opened ResultsMachine
  import opened ResultsLocks

  /** What a step's fields say about the log. */
  ghost predicate StepOk(st: StepState, i: Id, log: seq<Artifact>, threads: seq<Pc>) {
    && (st.ready <==> st.startPos.Some?)
    && (st.startPos.Some? ==>
          st.startPos.value < |log| && log[st.startPos.value].StepArtifact? &&
          log[st.startPos.value].step == i && log[st.startPos.value].body.StepStart?)
    && (st.endPos.Some? ==>
          && st.ended && st.startPos.Some? && st.startPos.value < st.endPos.value < |log|
          && log[st.endPos.value].StepArtifact? && log[st.endPos.value].step == i
          && log[st.endPos.value].body.StepEnd?
          && log[st.endPos.value].body.status != Unknown
          && (st.error.Met? ==> log[st.endPos.value].body.status == Error)
          && (log[st.endPos.value].body.status == Error ==> st.error != Never))
    && (st.ended ==> st.ready)
    && (st.ended && st.endPos == None ==>
          st.status != Unknown && st.lock.Some? && st.lock.value < |threads| &&
          threads[st.lock.value] == InStep(i, StepEndWrite))
    && (st.status == Error <==> st.error != Never)
    && (st.error.Met? ==> st.error.pos < |log| && log[st.error.pos].StepArtifact? && log[st.error.pos].step == i &&
                          log[st.error.pos].body.ErrorBody?)
    && (st.error.OwedBy? ==> st.error.t < |threads| && OwesError(threads[st.error.t], i))
  }

  /** A call of AddError between setting the status and writing the artifact. */
  predicate OwesError(pc: Pc, i: Id) {
    pc.InStep? && pc.step == i &&
    (pc.sp.NotifyErr? || (pc.sp.AddLock? && pc.sp.body.ErrorBody?) || (pc.sp.AddWrite? && pc.sp.body.ErrorBody?))
  }

  /** What a thread inside a call on step i may rely on. */
  predicate PcOk(st: StepState, t: Tid, p: StepPc) {
    match p
    case CheckStarted(_) => st.builder == t && !st.ready && !st.ended
    case EmitStepStart(_) => st.builder == t && !st.ready && !st.ended
    case Add(body, _) => st.ready && body.Guarded()
    case NotifyFail(body) => st.ready && body.FailDiagnosis()
    case SetError(body) => st.ready && body.ErrorBody?
    case NotifyErr(body) => st.ready && body.ErrorBody? && st.status == Error
    case AddLock(body) => st.ready && body.Guarded() && (body.ErrorBody? ==> st.status == Error)
    case AddWrite(body) => st.ready && body.Guarded() && (body.ErrorBody? ==> st.status == Error) && !st.ended
    case SetSkip => st.ready
    case StepEndLock => st.ready
    case StepEndWrite => st.ready && st.ended && st.endPos == None && st.status != Unknown
  }

  /** Where the artifact of step i at position p may stand. */
  predicate EntryOk(st: StepState, body: StepBody, p: nat) {
    && (body.StepStart? ==> st.startPos == Some(p))
    && (body.StepEnd? ==> st.endPos == Some(p))
    && (!body.StepStart? ==> st.startPos.Some? && st.startPos.value < p)
    && (body.Guarded() && st.endPos.Some? ==> p < st.endPos.value)
    && (body.ErrorBody? ==> st.error.Met?)
  }

  predicate LogOk(steps: seq<StepState>, a: Artifact, p: nat) {
    a.StepArtifact? ==> a.step < |steps| && EntryOk(steps[a.step], a.body, p)
  }

  predicate ThreadOk(steps: seq<StepState>, t: Tid, pc: Pc) {
    pc.InStep? ==> pc.step < |steps| && PcOk(steps[pc.step], t, pc.sp)
  }

  ghost predicate StepInv(s: State) {
    && (forall i | 0 <= i < |s.steps| :: StepOk(s.steps[i], i, s.log, s.threads))
    && (forall t | 0 <= t < |s.threads| :: ThreadOk(s.steps, t, s.threads[t]))
    && (forall p | 0 <= p < |s.log| :: LogOk(s.steps, s.log[p], p))
    && (forall k | 0 <= k < |s.series| :: s.series[k].step < |s.steps| && s.steps[s.series[k].step].ready)
    && (forall t | 0 <= t < |s.threads| && s.threads[t].NewSeries? ::
          s.threads[t].step < |s.steps| && s.steps[s.threads[t].step].ready)
  }

  // ---- One section of a call on step i ----

  lemma SectionObject(st: StepState, i: Id, p: StepPc, t: Tid, pos: nat, started: bool,
                      log: seq<Artifact>, threads: seq<Pc>)
    requires StepOk(st, i, log, threads) && PcOk(st, t, p) && pos == |log|
    requires t < |threads| && threads[t] == InStep(i, p)
    requires HoldsStep(threads[t], i) <==> st.lock == Some(t)
    requires p.SetError? || p.AddLock? || p.SetSkip? || p.StepEndLock? ==> st.lock == None
    ensures var e := StepSection(st, i, p, t, pos, started);
            e.Proceed? ==>
              StepOk(e.after, i, if e.emit.Some? then log + [e.emit.value] else log, threads[t := e.pc])
  {
  }

  lemma SectionThread(st: StepState, i: Id, p: StepPc, t: Tid, pos: nat, started: bool)
    requires PcOk(st, t, p)
    requires st.endPos.Some? ==> st.ended
    requires p.SetError? || p.AddLock? || p.SetSkip? || p.StepEndLock? ==> st.lock == None
    ensures var e := StepSection(st, i, p, t, pos, started);
            e.Proceed? ==>
              && (e.pc == Idle || (e.pc.InStep? && e.pc.step == i && PcOk(e.after, t, e.pc.sp)))
              && (e.emit.Some? ==> e.emit.value.StepArtifact? && e.emit.value.step == i)
              && (st.ready ==> e.after.ready)
  {
  }

  lemma SectionOthers(st: StepState, i: Id, p: StepPc, t: Tid, pos: nat, started: bool, u: Tid, q: StepPc)
    requires PcOk(st, t, p) && PcOk(st, u, q) && u != t
    requires HoldsStep(InStep(i, q), i) <==> st.lock == Some(u)
    requires HoldsStep(InStep(i, p), i) <==> st.lock == Some(t)
    requires p.SetError? || p.AddLock? || p.SetSkip? || p.StepEndLock? ==> st.lock == None
    ensures var e := StepSection(st, i, p, t, pos, started); e.Proceed? ==> PcOk(e.after, u, q)
  {
  }

  lemma SectionEntry(st: StepState, i: Id, p: StepPc, t: Tid, pos: nat, started: bool,
                     log: seq<Artifact>, threads: seq<Pc>)
    requires StepOk(st, i, log, threads) && PcOk(st, t, p) && pos == |log|
    ensures var e := StepSection(st, i, p, t, pos, started);
            e.Proceed? && e.emit.Some? ==>
              e.emit.value.StepArtifact? && e.emit.value.step == i && EntryOk(e.after, e.emit.value.body, pos)
  {
  }

  lemma SectionOldEntries(st: StepState, i: Id, p: StepPc, t: Tid, pos: nat, started: bool,
                          log: seq<Artifact>, threads: seq<Pc>, body: StepBody, q: nat)
    requires StepOk(st, i, log, threads) && PcOk(st, t, p) && pos == |log|
    requires EntryOk(st, body, q) && q < pos
    ensures var e := StepSection(st, i, p, t, pos, started); e.Proceed? ==> EntryOk(e.after, body, q)
  {
  }

  // ---- From one object to the whole state ----

  /** A step keeps what it says when the log grows and threads outside it, or not owing it anything, move. */
  lemma StepOkStable(st: StepState, i: Id, log: seq<Artifact>, log': seq<Artifact>, threads: seq<Pc>, t: Tid, pc: Pc)
    requires StepOk(st, i, log, threads) && t < |threads|
    requires log <= log'
    requires !(threads[t].InStep? && threads[t].step == i)
    ensures StepOk(st, i, log', threads[t := pc])
  {
    assert forall p | 0 <= p < |log| :: log'[p] == log[p];
  }

  lemma StepInvCommit(s: State, t: Tid, i: Id, e: Effect<StepState>)
    requires StepInv(s) && t < |s.threads| && i < |s.steps| && e.Proceed? && !Refused(s, e)
    requires s.threads[t].InStep? && s.threads[t].step == i
    requires StepOk(e.after, i, if e.emit.Some? then s.log + [e.emit.value] else s.log, s.threads[t := e.pc])
    requires e.pc == Idle || (e.pc.InStep? && e.pc.step == i && PcOk(e.after, t, e.pc.sp))
    requires e.emit.Some? ==> e.emit.value.StepArtifact? && e.emit.value.step == i &&
                              EntryOk(e.after, e.emit.value.body, |s.log|)
    requires s.steps[i].ready ==> e.after.ready
    requires forall u | 0 <= u < |s.threads| && u != t && s.threads[u].InStep? && s.threads[u].step == i ::
               PcOk(e.after, u, s.threads[u].sp)
    requires forall q | 0 <= q < |s.log| && s.log[q].StepArtifact? && s.log[q].step == i ::
               EntryOk(e.after, s.log[q].body, q)
    ensures StepInv(DoStep(s, t, i, e))
  {
    var s' := DoStep(s, t, i, e);
    forall j | 0 <= j < |s'.steps|
      ensures StepOk(s'.steps[j], j, s'.log, s'.threads)
    {
      if j != i { StepOkStable(s.steps[j], j, s.log, s'.log, s.threads, t, e.pc); }
    }
    forall u | 0 <= u < |s'.threads|
      ensures ThreadOk(s'.steps, u, s'.threads[u])
    {
      assert ThreadOk(s.steps, u, s.threads[u]);
    }
    forall q | 0 <= q < |s'.log|
      ensures LogOk(s'.steps, s'.log[q], q)
    {
      if q < |s.log| { assert LogOk(s.steps, s.log[q], q); }
    }
  }

  lemma StepInvObject(s: State, t: Tid, i: Id, p: StepPc)
    requires LockInv(s) && StepInv(s) && CanStep(s, t) && s.threads[t] == InStep(i, p)
    ensures var e := StepEffect(s, t, i, p);
            e.Proceed? ==>
              && StepOk(e.after, i, if e.emit.Some? then s.log + [e.emit.value] else s.log, s.threads[t := e.pc])
              && (e.pc == Idle || (e.pc.InStep? && e.pc.step == i && PcOk(e.after, t, e.pc.sp)))
              && (e.emit.Some? ==> e.emit.value.StepArtifact? && e.emit.value.step == i &&
                                   EntryOk(e.after, e.emit.value.body, |s.log|))
              && (s.steps[i].ready ==> e.after.ready)
  {
    var st := s.steps[i];
    assert ThreadOk(s.steps, t, s.threads[t]);
    assert HoldsStep(s.threads[t], i) <==> st.lock == Some(t);
    SectionObject(st, i, p, t, |s.log|, s.run.started, s.log, s.threads);
    SectionThread(st, i, p, t, |s.log|, s.run.started);
    SectionEntry(st, i, p, t, |s.log|, s.run.started, s.log, s.threads);
  }

  lemma StepInvOthers(s: State, t: Tid, i: Id, p: StepPc, u: Tid)
    requires LockInv(s) && StepInv(s) && CanStep(s, t) && s.threads[t] == InStep(i, p)
    requires u < |s.threads| && u != t && s.threads[u].InStep? && s.threads[u].step == i
    ensures var e := StepEffect(s, t, i, p); e.Proceed? ==> PcOk(e.after, u, s.threads[u].sp)
  {
    assert ThreadOk(s.steps, t, s.threads[t]) && ThreadOk(s.steps, u, s.threads[u]);
    assert HoldsStep(s.threads[t], i) <==> s.steps[i].lock == Some(t);
    assert HoldsStep(s.threads[u], i) <==> s.steps[i].lock == Some(u);
    SectionOthers(s.steps[i], i, p, t, |s.log|, s.run.started, u, s.threads[u].sp);
  }

  lemma StepInvEntries(s: State, t: Tid, i: Id, p: StepPc, q: nat)
    requires StepInv(s) && CanStep(s, t) && s.threads[t] == InStep(i, p)
    requires q < |s.log| && s.log[q].StepArtifact? && s.log[q].step == i
    ensures var e := StepEffect(s, t, i, p); e.Proceed? ==> EntryOk(e.after, s.log[q].body, q)
  {
    assert ThreadOk(s.steps, t, s.threads[t]) && LogOk(s.steps, s.log[q], q);
    SectionOldEntries(s.steps[i], i, p, t, |s.log|, s.run.started, s.log, s.threads, s.log[q].body, q);
  }

  lemma StepInvStep(s: State, t: Tid, i: Id, p: StepPc)
    requires LockInv(s) && StepInv(s) && CanStep(s, t) && s.threads[t] == InStep(i, p)
    ensures StepInv(DoStep(s, t, i, StepEffect(s, t, i, p)))
  {
    var e := StepEffect(s, t, i, p);
    if e.Proceed? && !Refused(s, e) {
      StepInvObject(s, t, i, p);
      forall u | 0 <= u < |s.threads| && u != t && s.threads[u].InStep? && s.threads[u].step == i
        ensures PcOk(e.after, u, s.threads[u].sp)
      {
        StepInvOthers(s, t, i, p, u);
      }
      forall q | 0 <= q < |s.log| && s.log[q].StepArtifact? && s.log[q].step == i
        ensures EntryOk(e.after, s.log[q].body, q)
      {
        StepInvEntries(s, t, i, p, q);
      }
      StepInvCommit(s, t, i, e);
    }
  }

  // ---- Calls that do not touch a step's fields ----

  /** s' differs from s in thread t, outside every step, and by at most one new artifact. */
  ghost predicate OutsideSteps(s: State, s': State, t: Tid) {
    && t < |s.threads| == |s'.threads| && s'.threads == s.threads[t := s'.threads[t]]
    && !s.threads[t].InStep?
    && (s'.threads[t].InStep? ==> ThreadOk(s.steps, t, s'.threads[t]))
    && (s'.threads[t].NewSeries? ==> s'.threads[t].step < |s.steps| && s.steps[s'.threads[t].step].ready)
    && s'.steps == s.steps
    && (s'.log == s.log ||
        (|s'.log| == |s.log| + 1 && s'.log[..|s.log|] == s.log && LogOk(s.steps, s'.log[|s.log|], |s.log|)))
    && (forall k | 0 <= k < |s'.series| :: s'.series[k].step < |s.steps| && s.steps[s'.series[k].step].ready)
  }

  lemma OutsideStepsKeeps(s: State, s': State, t: Tid)
    requires StepInv(s) && OutsideSteps(s, s', t)
    ensures StepInv(s')
  {
    assert s.log <= s'.log;
    forall j | 0 <= j < |s'.steps|
      ensures StepOk(s'.steps[j], j, s'.log, s'.threads)
    {
      StepOkStable(s.steps[j], j, s.log, s'.log, s.threads, t, s'.threads[t]);
    }
    forall u | 0 <= u < |s'.threads|
      ensures ThreadOk(s'.steps, u, s'.threads[u])
    {
      assert ThreadOk(s.steps, u, s.threads[u]);
    }
    forall q | 0 <= q < |s'.log|
      ensures LogOk(s'.steps, s'.log[q], q)
    {
      if q < |s.log| { assert s'.log[q] == s.log[q] && LogOk(s.steps, s.log[q], q); }
    }
  }

  lemma RunEmitsNoStep(r: RunState, p: RunPc, t: Tid, pos: nat, verdict: Calc)
    ensures var e := RunSection(r, p, t, pos, verdict);
            e.Proceed? ==> (e.emit.Some? ==> !e.emit.value.StepArtifact?) && (e.pc == Idle || e.pc.InRun?)
  {
  }

  lemma StepInvRun(s: State, t: Tid, p: RunPc)
    requires StepInv(s) && CanStep(s, t) && s.threads[t] == InRun(p)
    ensures StepInv(DoRun(s, t, RunEffect(s, t, p)))
  {
    var e := RunEffect(s, t, p);
    RunEmitsNoStep(s.run, p, t, |s.log|, s.verdict);
    if e.Proceed? && !Refused(s, e) { OutsideStepsKeeps(s, DoRun(s, t, e), t); }
  }

  /** A series only writes artifacts of its own kind, under the id of its step. */
  lemma SeriesEmits(m: SeriesState, k: Id, p: SeriesPc, t: Tid, pos: nat, ended: bool)
    ensures var e := SeriesSection(m, k, p, t, pos, ended);
            e.Proceed? ==>
              && (e.emit.Some? ==> e.emit.value.StepArtifact? && e.emit.value.step == m.step &&
                                   e.emit.value.body.OfSeries() && e.emit.value.body.series == k)
              && (e.pc == Idle || (e.pc.InSeries? && e.pc.series == k)) && e.after.step == m.step && e.event == None
  {
  }

  lemma StepInvSeriesCommit(s: State, t: Tid, k: Id, e: Effect<SeriesState>)
    requires StepInv(s) && t < |s.threads| && k < |s.series| && e.Proceed? && !Refused(s, e)
    requires s.threads[t].InSeries? && (e.pc == Idle || e.pc.InSeries?) && e.after.step == s.series[k].step
    requires e.emit.Some? ==>
               e.emit.value.StepArtifact? && e.emit.value.step == s.series[k].step && e.emit.value.body.OfSeries()
    ensures StepInv(DoSeries(s, t, k, e))
  {
    var i := s.series[k].step;
    assert StepOk(s.steps[i], i, s.log, s.threads);
    assert e.emit.Some? ==> LogOk(s.steps, e.emit.value, |s.log|);
    OutsideStepsKeeps(s, DoSeries(s, t, k, e), t);
  }

  lemma StepInvSeries(s: State, t: Tid, k: Id, p: SeriesPc)
    requires StepInv(s) && CanStep(s, t) && s.threads[t] == InSeries(k, p)
    ensures StepInv(DoSeries(s, t, k, SeriesEffect(s, t, k, p)))
  {
    var e := SeriesEffect(s, t, k, p);
    SeriesEmits(s.series[k], k, p, t, |s.log|, s.steps[s.series[k].step].ended);
    if e.Proceed? && !Refused(s, e) { StepInvSeriesCommit(s, t, k, e); }
  }

  lemma StepInvDrawSeries(s: State, t: Tid, i: Id, ty: int, data: string, valid: bool)
    requires StepInv(s) && CanStep(s, t) && s.threads[t] == NewSeries(i, ty, data, valid)
    ensures StepInv(DrawSeries(s, t, i, ty, data, valid))
  {
    OutsideStepsKeeps(s, DrawSeries(s, t, i, ty, data, valid), t);
  }

  lemma StepInvDrawStep(s: State, t: Tid, name: string)
    requires StepInv(s) && CanStep(s, t) && s.threads[t] == NewStep(name)
    ensures StepInv(DrawStep(s, t, name))
  {
    var s' := DrawStep(s, t, name);
    forall j | 0 <= j < |s'.steps|
      ensures StepOk(s'.steps[j], j, s'.log, s'.threads)
    {
      if j < |s.steps| { StepOkStable(s.steps[j], j, s.log, s'.log, s.threads, t, s'.threads[t]); }
    }
    forall u | 0 <= u < |s'.threads|
      ensures ThreadOk(s'.steps, u, s'.threads[u])
    {
      assert ThreadOk(s.steps, u, s.threads[u]);
    }
    forall q | 0 <= q < |s'.log|
      ensures LogOk(s'.steps, s'.log[q], q)
    {
      assert LogOk(s.steps, s.log[q], q);
    }
  }

  lemma StepInvBegin(s: State, t: Tid, pc: Pc)
    requires StepInv(s) && Allowed(s, Begin(t, pc))
    ensures StepInv(Apply(s, Begin(t, pc)))
  {
    OutsideStepsKeeps(s, Apply(s, Begin(t, pc)), t);
  }

  lemma StepInvLog(s: State, text: string)
    requires StepInv(s)
    ensures StepInv(s.(log := s.log + [RunLog(text)]))
  {
    var s' := s.(log := s.log + [RunLog(text)]);
    forall j | 0 <= j < |s'.steps|
      ensures StepOk(s'.steps[j], j, s'.log, s'.threads)
    {
      assert StepOk(s.steps[j], j, s.log, s.threads);
    }
    forall q | 0 <= q < |s'.log|
      ensures LogOk(s'.steps, s'.log[q], q)
    {
      if q < |s.log| { assert LogOk(s.steps, s.log[q], q); }
    }
  }

  lemma StepInvApply(s: State, a: Action)
    requires LockInv(s) && StepInv(s) && Allowed(s, a)
    ensures StepInv(Apply(s, a))
  {
    match a
    case Begin(t, pc) => StepInvBegin(s, t, pc);
    case Take(t) =>
      match s.threads[t] {
        case InRun(p) => StepInvRun(s, t, p);
        case InStep(i, p) => StepInvStep(s, t, i, p);
        case InSeries(k, p) => StepInvSeries(s, t, k, p);
        case NewStep(name) => StepInvDrawStep(s, t, name);
        case NewSeries(i, ty, data, valid) => StepInvDrawSeries(s, t, i, ty, data, valid);
        case Idle =>
      }
    case AbslLog(text) => StepInvLog(s, text);
    case _ =>
  }
}
