/** Calls that nothing interrupts: what a whole call does when its thread runs alone. */
module ResultsCalls {
  import opened Options
  import opened Artifacts
  import opened ResultCalculator
  import opened ResultsMachine
  import opened ResultsTheorems
  import opened CallOutcomes

  /** Thread t alone takes the system from s to s'. */
  ghost predicate Ran(s: State, s': State, t: Tid) {
    exists actions: seq<Action> :: Exec(s, actions) == Some(s') && forall a | a in actions :: a == Take(t)
  }

  lemma RanNothing(s: State, t: Tid)
    ensures Ran(s, s, t)
  {
    assert Exec(s, []) == Some(s);
  }

  lemma RanStep(s: State, s': State, t: Tid)
    requires Ran(s, s', t) && CanStep(s', t)
    ensures Ran(s, Step(s', t), t)
  {
    var actions: seq<Action> :| Exec(s, actions) == Some(s') && forall a | a in actions :: a == Take(t);
    ExecExtend(s, actions, Take(t));
    assert forall a | a in actions + [Take(t)] :: a == Take(t);
  }

  /** s' but for thread t, the log and the verdict, and for the objects. */
  ghost predicate Resumed(s: State, s': State, t: Tid, log: seq<Artifact>, verdict: Calc) {
    && t < |s.threads| && |s'.threads| == |s.threads| && s'.log == log && s'.verdict == verdict
    && forall u | 0 <= u < |s.threads| && u != t :: s'.threads[u] == s.threads[u]
  }

  function Emitted<O>(e: Effect<O>): seq<Artifact>
    requires e.Proceed?
  {
    if e.emit.Some? then [e.emit.value] else []
  }

  /** The call of thread t has returned, or the program has halted. */
  ghost predicate Returned(s0: State, s': State, t: Tid) {
    Ran(s0, s', t) && t < |s'.threads| && (s'.halted || s'.threads[t] == Idle)
  }

  /** The call that thread t made in s is over in s'. */
  ghost predicate Over(s: State, s': State, t: Tid, pc: Pc) {
    Allowed(s, Begin(t, pc)) && Returned(Apply(s, Begin(t, pc)), s', t)
  }

  /** The log, the program and the verdict after a call. */
  ghost predicate Shows<O>(s: State, s': State, o: Outcome<O>) {
    && s'.log == s.log + o.wrote && s'.halted == !o.Alive()
    && (o.completes ==> s'.verdict == o.verdict)
  }

  // ---- Calls on a series ----

  /** s, but for thread t, the log and series k, which is m. */
  ghost predicate InSeriesCall(s: State, s': State, t: Tid, k: Id, m: SeriesState, log: seq<Artifact>) {
    && Resumed(s, s', t, log, s.verdict) && s'.run == s.run && s'.steps == s.steps
    && k < |s.series| && s'.series == s.series[k := m]
  }

  predicate LocksSeries(p: SeriesPc) { p.ValidateStart? || p.ElementType? || p.ElementLock? || p.SeriesEndLock? }

  lemma SeriesMove(s0: State, s: State, s1: State, t: Tid, k: Id, p: SeriesPc, m: SeriesState) returns (s2: State)
    requires InSeriesCall(s, s1, t, k, m, s.log) && !s1.halted && s1.threads[t] == InSeries(k, p) && Ran(s0, s1, t)
    requires m.step < |s.steps| && s.steps[m.step].lock == None && (LocksSeries(p) ==> m.lock == None)
    ensures Ran(s0, s2, t)
    ensures var e := SeriesSection(m, k, p, t, |s.log|, s.steps[m.step].ended);
            && (e.Abort? ==> s2 == Halt(s1))
            && (e.Proceed? ==>
                  InSeriesCall(s, s2, t, k, e.after, s.log + Emitted(e)) && s2.threads[t] == e.pc && !s2.halted)
  {
    var e := SeriesSection(m, k, p, t, |s.log|, s.steps[m.step].ended);
    assert CanStep(s1, t);
    RanStep(s0, s1, t);
    s2 := Step(s1, t);
    assert SeriesEffect(s1, t, k, p) == e;
    assert s2 == DoSeries(s1, t, k, e);
  }

  /** A section that writes nothing. */
  lemma SeriesQuietly(s0: State, s: State, s1: State, t: Tid, k: Id, p: SeriesPc, m: SeriesState,
                      m': SeriesState, pc: Pc) returns (s2: State)
    requires InSeriesCall(s, s1, t, k, m, s.log) && !s1.halted && s1.threads[t] == InSeries(k, p) && Ran(s0, s1, t)
    requires m.step < |s.steps| && s.steps[m.step].lock == None && (LocksSeries(p) ==> m.lock == None)
    requires SeriesSection(m, k, p, t, |s.log|, s.steps[m.step].ended) == Quietly(m', pc)
    ensures Ran(s0, s2, t) && !s2.halted && InSeriesCall(s, s2, t, k, m', s.log) && s2.threads[t] == pc
  {
    s2 := SeriesMove(s0, s, s1, t, k, p, m);
    assert s.log + [] == s.log;
  }

  /** Series k, whose mutex is free, is as the outcome says, and no other object has changed. */
  ghost predicate SeriesShows(s: State, s': State, t: Tid, k: Id, o: Outcome<SeriesFields>) {
    && Shows(s, s', o)
    && (o.completes ==>
          k < |s'.series| && InSeriesCall(s, s', t, k, s'.series[k], s'.log) &&
          FieldsOfSeries(s'.series[k]) == o.after && s'.series[k].lock == None)
  }

  lemma AddElementAlone(s: State, t: Tid, k: Id, ty: nat, data: string) returns (s': State)
    requires Allowed(s, Begin(t, InSeries(k, ElementType(ty, data)))) && s.series[k].lock == None
    requires s.series[k].step < |s.steps| && s.steps[s.series[k].step].lock == None
    ensures Over(s, s', t, InSeries(k, ElementType(ty, data)))
    ensures var m := s.series[k];
            SeriesShows(s, s', t, k, AddElement(FieldsOfSeries(m), s.steps[m.step].ended, m.step, k, ty, data, s.verdict))
  {
    var m := s.series[k];
    var s0 := Apply(s, Begin(t, InSeries(k, ElementType(ty, data))));
    RanNothing(s0, t);
    assert s.series[k := m] == s.series;
    s' := ElementDrawn(s0, s, s0, t, k, ty, data, m);
    if m.typeIndex == -1 || m.typeIndex == ty {
      s' := ElementWritten(s0, s, s', t, k, ty, m.count, data, WithElement(m, t, ty));
    }
  }

  function WithElement(m: SeriesState, t: Tid, ty: nat): SeriesState {
    m.(typeIndex := ty, count := m.count + 1, fate := m.fate + [HeldBy(t)])
  }

  lemma ElementDrawn(s0: State, s: State, s1: State, t: Tid, k: Id, ty: nat, data: string, m: SeriesState)
    returns (s': State)
    requires InSeriesCall(s, s1, t, k, m, s.log) && !s1.halted && Ran(s0, s1, t)
    requires s1.threads[t] == InSeries(k, ElementType(ty, data))
    requires m.step < |s.steps| && s.steps[m.step].lock == None && m.lock == None
    ensures Ran(s0, s', t) && t < |s'.threads|
    ensures if m.typeIndex == -1 || m.typeIndex == ty then
              !s'.halted && s'.threads[t] == InSeries(k, ElementLock(ty, m.count, data)) &&
              InSeriesCall(s, s', t, k, WithElement(m, t, ty), s.log)
            else s'.halted && s'.log == s.log
  {
    if m.typeIndex == -1 || m.typeIndex == ty {
      var m' := m.(typeIndex := ty);
      s' := SeriesQuietly(s0, s, s1, t, k, ElementType(ty, data), m, m', InSeries(k, ElementDraw(ty, data)));
      s' := SeriesQuietly(s0, s, s', t, k, ElementDraw(ty, data), m', WithElement(m, t, ty),
                          InSeries(k, ElementLock(ty, m.count, data)));
    } else {
      s' := SeriesMove(s0, s, s1, t, k, ElementType(ty, data), m);
    }
  }

  lemma ElementWritten(s0: State, s: State, s1: State, t: Tid, k: Id, ty: nat, index: nat, data: string, m: SeriesState)
    returns (s': State)
    requires InSeriesCall(s, s1, t, k, m, s.log) && !s1.halted && Ran(s0, s1, t)
    requires s1.threads[t] == InSeries(k, ElementLock(ty, index, data))
    requires m.step < |s.steps| && s.steps[m.step].lock == None && m.lock == None
    ensures Ran(s0, s', t) && t < |s'.threads|
    ensures if !s.steps[m.step].ended && !m.ended then
              !s'.halted && s'.threads[t] == Idle && |s'.series| == |s.series| &&
              InSeriesCall(s, s', t, k, s'.series[k], s.log + [StepArtifact(m.step, SeriesElement(k, index, ty, data))]) &&
              s'.series[k].typeIndex == m.typeIndex && s'.series[k].count == m.count && !s'.series[k].ended &&
              s'.series[k].lock == None
            else s'.halted && s'.log == s.log
  {
    var m' := m.(lock := Some(t));
    s' := SeriesQuietly(s0, s, s1, t, k, ElementLock(ty, index, data), m, m',
                        InSeries(k, ElementCheckStep(ty, index, data)));
    if s.steps[m.step].ended {
      s' := SeriesMove(s0, s, s', t, k, ElementCheckStep(ty, index, data), m');
    } else {
      s' := SeriesQuietly(s0, s, s', t, k, ElementCheckStep(ty, index, data), m', m',
                          InSeries(k, ElementWrite(ty, index, data)));
      s' := SeriesMove(s0, s, s', t, k, ElementWrite(ty, index, data), m');
    }
  }

  lemma EndSeriesAlone(s: State, t: Tid, k: Id) returns (s': State)
    requires Allowed(s, Begin(t, InSeries(k, SeriesEndLock))) && s.series[k].lock == None
    requires s.series[k].step < |s.steps| && s.steps[s.series[k].step].lock == None
    ensures Over(s, s', t, InSeries(k, SeriesEndLock))
    ensures SeriesShows(s, s', t, k, EndSeries(FieldsOfSeries(s.series[k]), s.series[k].step, k, s.verdict))
  {
    var m := s.series[k];
    var s0 := Apply(s, Begin(t, InSeries(k, SeriesEndLock)));
    RanNothing(s0, t);
    assert s.series[k := m] == s.series && s.log + [] == s.log;
    s' := SeriesMove(s0, s, s0, t, k, SeriesEndLock, m);
    if !m.ended { s' := SeriesEnds(s0, s, s', t, k, m.(lock := Some(t))); }
  }

  lemma SeriesEnds(s0: State, s: State, s1: State, t: Tid, k: Id, m: SeriesState) returns (s': State)
    requires InSeriesCall(s, s1, t, k, m, s.log) && !s1.halted && Ran(s0, s1, t)
    requires s1.threads[t] == InSeries(k, SeriesEndCheckStep)
    requires m.step < |s.steps| && s.steps[m.step].lock == None
    ensures Ran(s0, s', t) && !s'.halted && t < |s'.threads| && s'.threads[t] == Idle && |s'.series| == |s.series|
    ensures InSeriesCall(s, s', t, k, s'.series[k], s.log + [StepArtifact(m.step, SeriesEnd(k, m.count))])
    ensures s'.series[k].ended && s'.series[k].typeIndex == m.typeIndex && s'.series[k].count == m.count + 1 &&
            s'.series[k].lock == None
  {
    s' := SeriesEndDrawn(s0, s, s1, t, k, m);
    var m' := m.(ended := true, count := m.count + 1, fate := m.fate + [Total], total := Some(m.count));
    s' := SeriesMove(s0, s, s', t, k, SeriesEndWrite(m.count), m');
  }

  lemma SeriesEndDrawn(s0: State, s: State, s1: State, t: Tid, k: Id, m: SeriesState) returns (s': State)
    requires InSeriesCall(s, s1, t, k, m, s.log) && !s1.halted && Ran(s0, s1, t)
    requires s1.threads[t] == InSeries(k, SeriesEndCheckStep)
    requires m.step < |s.steps| && s.steps[m.step].lock == None
    ensures Ran(s0, s', t) && !s'.halted && t < |s'.threads| && s'.threads[t] == InSeries(k, SeriesEndWrite(m.count))
    ensures var m' := m.(ended := true, count := m.count + 1, fate := m.fate + [Total], total := Some(m.count));
            InSeriesCall(s, s', t, k, m', s.log)
  {
    s' := SeriesQuietly(s0, s, s1, t, k, SeriesEndCheckStep, m, m, InSeries(k, SeriesEndDraw));
    var m' := m.(ended := true, count := m.count + 1, fate := m.fate + [Total], total := Some(m.count));
    s' := SeriesQuietly(s0, s, s', t, k, SeriesEndDraw, m, m', InSeries(k, SeriesEndWrite(m.count)));
  }

  // ---- Calls on a step ----

  /** s, but for thread t, the log, the verdict and step i, which is st. */
  ghost predicate InStepCall(s: State, s': State, t: Tid, i: Id, st: StepState, log: seq<Artifact>, verdict: Calc) {
    && Resumed(s, s', t, log, verdict) && s'.run == s.run && s'.series == s.series
    && i < |s.steps| && s'.steps == s.steps[i := st]
  }

  function Told<O>(verdict: Calc, e: Effect<O>): Option<Calc>
    requires e.Proceed?
  {
    if e.event.Some? then Notify(verdict, e.event.value) else Some(verdict)
  }

  lemma StepMove(s0: State, s: State, s1: State, t: Tid, i: Id, p: StepPc, st: StepState,
                 log: seq<Artifact>, verdict: Calc) returns (s2: State)
    requires InStepCall(s, s1, t, i, st, log, verdict) && !s1.halted && s1.threads[t] == InStep(i, p) && Ran(s0, s1, t)
    requires p.SetError? || p.AddLock? || p.SetSkip? || p.StepEndLock? ==> st.lock == None
    requires p.CheckStarted? ==> s.run.lock == None
    ensures Ran(s0, s2, t)
    ensures var e := StepSection(st, i, p, t, |log|, s.run.started);
            && (e.Abort? || Told(verdict, e) == None ==> s2 == Halt(s1))
            && (e.Proceed? && Told(verdict, e).Some? ==>
                  InStepCall(s, s2, t, i, e.after, log + Emitted(e), Told(verdict, e).value) &&
                  s2.threads[t] == e.pc && s2.halted == e.fatal)
  {
    var e := StepSection(st, i, p, t, |log|, s.run.started);
    assert CanStep(s1, t);
    RanStep(s0, s1, t);
    s2 := Step(s1, t);
    assert StepEffect(s1, t, i, p) == e;
    assert s2 == DoStep(s1, t, i, e);
  }

  /** Step i, whose mutex is free, is as the outcome says, and no other object has changed. */
  ghost predicate StepShows(s: State, s': State, t: Tid, i: Id, o: Outcome<StepFields>) {
    && Shows(s, s', o)
    && (o.completes ==>
          i < |s'.steps| && InStepCall(s, s', t, i, s'.steps[i], s'.log, o.verdict) &&
          FieldsOfStep(s'.steps[i]) == o.after && s'.steps[i].lock == None)
  }

  /** Validation, the reaction to a failure or an error, and the guarded write, in this order. */
  lemma AddAlone(s: State, t: Tid, i: Id, body: StepBody, valid: bool) returns (s': State)
    requires Allowed(s, Begin(t, InStep(i, Add(body, valid)))) && s.steps[i].lock == None
    ensures Over(s, s', t, InStep(i, Add(body, valid)))
    ensures StepShows(s, s', t, i, AddToStep(FieldsOfStep(s.steps[i]), i, body, valid, s.verdict))
  {
    var st := s.steps[i];
    var s0 := Apply(s, Begin(t, InStep(i, Add(body, valid))));
    RanNothing(s0, t);
    assert s.steps[i := st] == s.steps && s.log + [] == s.log;
    s' := StepMove(s0, s, s0, t, i, Add(body, valid), st, s.log, s.verdict);
    if valid {
      if body.FailDiagnosis() {
        s' := FailureAdded(s0, s, s', t, i, body, st);
      } else if body.ErrorBody? {
        s' := ErrorAdded(s0, s, s', t, i, body, st);
      } else {
        s' := GuardedWrite(s0, s, s', t, i, body, st, s.verdict);
      }
    }
  }

  predicate HasFields(st: StepState, status: TestStatus, ended: bool) {
    st.status == status && st.ended == ended && st.lock == None
  }

  /** CheckEndedAndEmitArtifact. */
  lemma GuardedWrite(s0: State, s: State, s1: State, t: Tid, i: Id, body: StepBody, st: StepState, verdict: Calc)
    returns (s': State)
    requires InStepCall(s, s1, t, i, st, s.log, verdict) && !s1.halted && Ran(s0, s1, t) && st.lock == None
    requires s1.threads[t] == InStep(i, AddLock(body))
    ensures Ran(s0, s', t) && t < |s'.threads|
    ensures if !st.ended then
              s'.halted == (body.Log? && body.fatal) && s'.threads[t] == Idle && |s'.steps| == |s.steps| &&
              InStepCall(s, s', t, i, s'.steps[i], s.log + [StepArtifact(i, body)], verdict) &&
              HasFields(s'.steps[i], st.status, false)
            else s'.halted && s'.log == s.log
  {
    assert s.log + [] == s.log;
    s' := StepMove(s0, s, s1, t, i, AddLock(body), st, s.log, verdict);
    if !st.ended { s' := StepMove(s0, s, s', t, i, AddWrite(body), st.(lock := Some(t)), s.log, verdict); }
  }

  lemma FailureAdded(s0: State, s: State, s1: State, t: Tid, i: Id, body: StepBody, st: StepState)
    returns (s': State)
    requires InStepCall(s, s1, t, i, st, s.log, s.verdict) && !s1.halted && Ran(s0, s1, t) && st.lock == None
    requires body.FailDiagnosis() && s1.threads[t] == InStep(i, NotifyFail(body))
    ensures Ran(s0, s', t) && t < |s'.threads|
    ensures if Notify(s.verdict, FailSeen).Some? && !st.ended then
              !s'.halted && s'.threads[t] == Idle && |s'.steps| == |s.steps| &&
              InStepCall(s, s', t, i, s'.steps[i], s.log + [StepArtifact(i, body)], Notify(s.verdict, FailSeen).value) &&
              HasFields(s'.steps[i], st.status, false)
            else s'.halted && s'.log == s.log
  {
    assert s.log + [] == s.log;
    s' := StepMove(s0, s, s1, t, i, NotifyFail(body), st, s.log, s.verdict);
    if Notify(s.verdict, FailSeen).Some? {
      s' := GuardedWrite(s0, s, s', t, i, body, st, Notify(s.verdict, FailSeen).value);
    }
  }

  lemma ErrorAdded(s0: State, s: State, s1: State, t: Tid, i: Id, body: StepBody, st: StepState)
    returns (s': State)
    requires InStepCall(s, s1, t, i, st, s.log, s.verdict) && !s1.halted && Ran(s0, s1, t) && st.lock == None
    requires body.ErrorBody? && s1.threads[t] == InStep(i, SetError(body))
    ensures Ran(s0, s', t) && t < |s'.threads|
    ensures if Notify(s.verdict, ErrorSeen).Some? && !st.ended then
              !s'.halted && s'.threads[t] == Idle && |s'.steps| == |s.steps| &&
              InStepCall(s, s', t, i, s'.steps[i], s.log + [StepArtifact(i, body)], Notify(s.verdict, ErrorSeen).value) &&
              HasFields(s'.steps[i], Error, false)
            else s'.halted && s'.log == s.log
  {
    assert s.log + [] == s.log;
    s' := StepMove(s0, s, s1, t, i, SetError(body), st, s.log, s.verdict);
    var st' := st.(status := Error, error := Owe(st.error, t));
    s' := StepMove(s0, s, s', t, i, NotifyErr(body), st', s.log, s.verdict);
    if Notify(s.verdict, ErrorSeen).Some? {
      s' := GuardedWrite(s0, s, s', t, i, body, st', Notify(s.verdict, ErrorSeen).value);
    }
  }

  lemma EndStepAlone(s: State, t: Tid, i: Id) returns (s': State)
    requires Allowed(s, Begin(t, InStep(i, StepEndLock))) && s.steps[i].lock == None
    ensures Over(s, s', t, InStep(i, StepEndLock))
    ensures StepShows(s, s', t, i, EndStep(FieldsOfStep(s.steps[i]), i, s.verdict))
  {
    var st := s.steps[i];
    var s0 := Apply(s, Begin(t, InStep(i, StepEndLock)));
    RanNothing(s0, t);
    assert s.steps[i := st] == s.steps;
    s' := EndsStep(s0, s, s0, t, i, st);
  }

  lemma SkipStepAlone(s: State, t: Tid, i: Id) returns (s': State)
    requires Allowed(s, Begin(t, InStep(i, SetSkip))) && s.steps[i].lock == None
    ensures Over(s, s', t, InStep(i, SetSkip))
    ensures StepShows(s, s', t, i, SkipStep(FieldsOfStep(s.steps[i]), i, s.verdict))
  {
    var st := s.steps[i];
    var s0 := Apply(s, Begin(t, InStep(i, SetSkip)));
    RanNothing(s0, t);
    assert s.steps[i := st] == s.steps && s.log + [] == s.log;
    s' := StepMove(s0, s, s0, t, i, SetSkip, st, s.log, s.verdict);
    s' := EndsStep(s0, s, s', t, i, st.(status := SkipStatus(st.status)));
  }

  /** Step i, which was st, has been ended with a status that was given to it before. */
  ghost predicate StepEnded(s: State, s': State, t: Tid, i: Id, st: StepState, status: TestStatus) {
    && i < |s'.steps|
    && InStepCall(s, s', t, i, s'.steps[i],
                  if st.ended then s.log else s.log + [StepArtifact(i, StepEnd(EndStatus(status)))], s.verdict)
    && HasFields(s'.steps[i], if st.ended then status else EndStatus(status), true)
  }

  lemma EndsStep(s0: State, s: State, s1: State, t: Tid, i: Id, st: StepState) returns (s': State)
    requires InStepCall(s, s1, t, i, st, s.log, s.verdict) && !s1.halted && Ran(s0, s1, t) && st.lock == None
    requires s1.threads[t] == InStep(i, StepEndLock)
    ensures Ran(s0, s', t) && !s'.halted && t < |s'.threads| && s'.threads[t] == Idle
    ensures StepEnded(s, s', t, i, st, st.status)
  {
    assert s.log + [] == s.log;
    s' := StepMove(s0, s, s1, t, i, StepEndLock, st, s.log, s.verdict);
    if !st.ended {
      var st' := st.(ended := true, status := EndStatus(st.status), lock := Some(t));
      s' := StepMove(s0, s, s', t, i, StepEndWrite, st', s.log, s.verdict);
    }
  }

  // ---- Constructors of steps and series ----

  /** The step, whose id was drawn first, is ready, and no other object has changed. */
  lemma NewStepAlone(s: State, t: Tid, name: string) returns (s': State)
    requires Allowed(s, Begin(t, NewStep(name))) && s.run.lock == None
    ensures Over(s, s', t, NewStep(name))
    ensures var i, o := |s.steps|, NewStepOf(s.run.started, |s.steps|, name, s.verdict);
            && Shows(s, s', o)
            && (o.completes ==>
                  Resumed(s, s', t, s'.log, o.verdict) && s'.run == s.run && s'.series == s.series &&
                  |s'.steps| == i + 1 && s'.steps[..i] == s.steps && s'.steps[i].ready &&
                  FieldsOfStep(s'.steps[i]) == o.after && s'.steps[i].lock == None)
  {
    var i := |s.steps|;
    var s0 := Apply(s, Begin(t, NewStep(name)));
    RanNothing(s0, t);
    RanStep(s0, s0, t);
    var drawn := Step(s0, t);
    var st := drawn.steps[i];
    assert drawn.steps[i := st] == drawn.steps && s.log + [] == s.log;
    s' := StepMove(s0, drawn, drawn, t, i, CheckStarted(name), st, s.log, s.verdict);
    if s.run.started { s' := StepMove(s0, drawn, s', t, i, EmitStepStart(name), st, s.log, s.verdict); }
  }

  lemma NewSeriesAlone(s: State, t: Tid, i: Id, ty: int, data: string, valid: bool) returns (s': State)
    requires Allowed(s, Begin(t, NewSeries(i, ty, data, valid))) && s.steps[i].lock == None
    ensures Over(s, s', t, NewSeries(i, ty, data, valid))
    ensures var k, o := |s.series|, NewSeriesOf(s.steps[i].ended, i, |s.series|, ty, data, valid, s.verdict);
            && Shows(s, s', o)
            && (o.completes ==>
                  Resumed(s, s', t, s'.log, o.verdict) && s'.run == s.run && s'.steps == s.steps &&
                  |s'.series| == k + 1 && s'.series[..k] == s.series && s'.series[k].ready && s'.series[k].step == i &&
                  FieldsOfSeries(s'.series[k]) == o.after && s'.series[k].lock == None)
  {
    var k := |s.series|;
    var s0 := Apply(s, Begin(t, NewSeries(i, ty, data, valid)));
    RanNothing(s0, t);
    RanStep(s0, s0, t);
    var drawn := Step(s0, t);
    var m := drawn.series[k];
    assert drawn.series[k := m] == drawn.series && s.log + [] == s.log;
    s' := NewSeriesMoves(s0, drawn, t, k, ty, data, valid, m);
  }

  /** The constructor of a series, from the moment its id is drawn. */
  lemma NewSeriesMoves(s0: State, s: State, t: Tid, k: Id, ty: int, data: string, valid: bool, m: SeriesState)
    returns (s': State)
    requires InSeriesCall(s, s, t, k, m, s.log) && !s.halted && Ran(s0, s, t) && ty >= -1
    requires s.threads[t] == InSeries(k, CheckStepActive(ty, data, valid)) && m.lock == None && m.typeIndex == -1
    requires m.step < |s.steps| && s.steps[m.step].lock == None
    ensures Ran(s0, s', t)
    ensures if s.steps[m.step].ended || !valid then s'.halted && s'.log == s.log && t < |s'.threads|
            else
              var a := StepArtifact(m.step, SeriesStart(k, ty, data));
              InSeriesCall(s, s', t, k, m.(typeIndex := ty, ready := true, startPos := Some(|s.log|)), s.log + [a]) &&
              !s'.halted && s'.threads[t] == Idle
  {
    if s.steps[m.step].ended {
      s' := SeriesMove(s0, s, s, t, k, CheckStepActive(ty, data, valid), m);
    } else {
      s' := SeriesQuietly(s0, s, s, t, k, CheckStepActive(ty, data, valid), m, m,
                          InSeries(k, ValidateStart(ty, data, valid)));
      if valid {
        var m' := m.(typeIndex := ty);
        s' := SeriesQuietly(s0, s, s', t, k, ValidateStart(ty, data, valid), m, m', InSeries(k, EmitSeriesStart(ty, data)));
        s' := SeriesMove(s0, s, s', t, k, EmitSeriesStart(ty, data), m');
      } else {
        s' := SeriesMove(s0, s, s', t, k, ValidateStart(ty, data, valid), m);
      }
    }
  }

  // ---- Calls on the run ----

  /** s, but for thread t, the log, the verdict and the run, which is r. */
  ghost predicate InRunCall(s: State, s': State, t: Tid, r: RunState, log: seq<Artifact>, verdict: Calc) {
    && Resumed(s, s', t, log, verdict) && s'.run == r && s'.series == s.series && s'.steps == s.steps
  }

  lemma RunMove(s0: State, s: State, s1: State, t: Tid, p: RunPc, r: RunState, log: seq<Artifact>, verdict: Calc)
    returns (s2: State)
    requires InRunCall(s, s1, t, r, log, verdict) && !s1.halted && s1.threads[t] == InRun(p) && Ran(s0, s1, t)
    requires p.PreErrorLock? || p.PreLogLock? || p.StartLock? || p.EndLock? ==> r.lock == None
    ensures Ran(s0, s2, t)
    ensures var e := RunSection(r, p, t, |log|, verdict);
            && (e.Abort? || Told(verdict, e) == None ==> s2 == Halt(s1))
            && (e.Proceed? && Told(verdict, e).Some? ==>
                  InRunCall(s, s2, t, e.after, log + Emitted(e), Told(verdict, e).value) &&
                  s2.threads[t] == e.pc && s2.halted == e.fatal)
  {
    var e := RunSection(r, p, t, |log|, verdict);
    assert CanStep(s1, t);
    RanStep(s0, s1, t);
    s2 := Step(s1, t);
    assert RunEffect(s1, t, p) == e;
    assert s2 == DoRun(s1, t, e);
  }

  /** A section that ends no program, by its effect. */
  lemma RunProceeds(s0: State, s: State, s1: State, t: Tid, p: RunPc, r: RunState, log: seq<Artifact>, verdict: Calc,
                    e: Effect<RunState>) returns (s2: State)
    requires InRunCall(s, s1, t, r, log, verdict) && !s1.halted && s1.threads[t] == InRun(p) && Ran(s0, s1, t)
    requires p.PreErrorLock? || p.PreLogLock? || p.StartLock? || p.EndLock? ==> r.lock == None
    requires e == RunSection(r, p, t, |log|, verdict) && e.Proceed? && !e.fatal && Told(verdict, e).Some?
    ensures InRunCall(s, s2, t, e.after, if e.emit.Some? then log + [e.emit.value] else log, Told(verdict, e).value)
    ensures Ran(s0, s2, t) && !s2.halted && s2.threads[t] == e.pc
  {
    s2 := RunMove(s0, s, s1, t, p, r, log, verdict);
    assert log + [] == log;
  }

  /** The run, whose mutex is free, is as the outcome says, and no step and no series has changed. */
  ghost predicate RunShows(s: State, s': State, t: Tid, o: Outcome<RunFields>) {
    && Shows(s, s', o)
    && (o.completes ==>
          InRunCall(s, s', t, s'.run, s'.log, o.verdict) && FieldsOfRun(s'.run) == o.after && s'.run.lock == None)
  }

  /** A call on the run begins. */
  lemma RunBegins(s: State, t: Tid, p: RunPc) returns (s0: State)
    requires Allowed(s, Begin(t, InRun(p)))
    ensures s0 == Apply(s, Begin(t, InRun(p))) && Ran(s0, s0, t) && !s0.halted && !s.halted
    ensures InRunCall(s, s0, t, s0.run, s.log, s.verdict) && s0.threads[t] == InRun(p)
    ensures FieldsOfRun(s0.run) == FieldsOfRun(s.run) && s0.run.lock == s.run.lock
  {
    s0 := Apply(s, Begin(t, InRun(p)));
    RanNothing(s0, t);
  }

  lemma NewRunAlone(s: State, t: Tid, logToResults: bool, valid: bool) returns (s': State)
    requires Allowed(s, Begin(t, InRun(Guard(logToResults, valid)))) && s.run.lock == None
    ensures Over(s, s', t, InRun(Guard(logToResults, valid)))
    ensures RunShows(s, s', t, NewRun(FieldsOfRun(s.run), logToResults, valid, s.verdict))
  {
    var s0 := RunBegins(s, t, Guard(logToResults, valid));
    s' := NewRunMoves(s0, s, s0, t, logToResults, valid, s0.run);
  }

  lemma NewRunMoves(s0: State, s: State, s1: State, t: Tid, logToResults: bool, valid: bool, r: RunState)
    returns (s': State)
    requires InRunCall(s, s1, t, r, s.log, s.verdict) && r.lock == None && !s1.halted && Ran(s0, s1, t)
    requires s1.threads[t] == InRun(Guard(logToResults, valid))
    ensures Returned(s0, s', t) && RunShows(s, s', t, NewRun(FieldsOfRun(r), logToResults, valid, s.verdict))
  {
    assert s.log + [] == s.log;
    s' := RunMove(s0, s, s1, t, Guard(logToResults, valid), r, s.log, s.verdict);
    if !r.initialized {
      var r' := r.(initialized := true, phase := Building, actor := t);
      s' := SchemaMoves(s0, s, s', t, logToResults, valid, r');
    }
  }

  lemma SchemaMoves(s0: State, s: State, s1: State, t: Tid, logToResults: bool, valid: bool, r: RunState)
    returns (s': State)
    requires InRunCall(s, s1, t, r, s.log, s.verdict) && r.lock == None && !s1.halted && Ran(s0, s1, t)
    requires s1.threads[t] == InRun(RegisterSink(logToResults, valid))
    ensures Returned(s0, s', t)
    ensures RunShows(s, s', t, if !valid then Dies(FieldsOfRun(r), s.verdict, []) else
                               Completes(FieldsOfRun(r).(sink := logToResults), s.verdict,
                                         [Schema(MAJOR_SCHEMA_VERSION, MINOR_SCHEMA_VERSION)]))
  {
    assert s.log + [] == s.log;
    s' := RunMove(s0, s, s1, t, RegisterSink(logToResults, valid), r, s.log, s.verdict);
    s' := RunMove(s0, s, s', t, EmitSchema(valid), r.(sink := logToResults), s.log, s.verdict);
  }

  lemma PreStartErrorAlone(s: State, t: Tid, text: string, valid: bool) returns (s': State)
    requires Allowed(s, Begin(t, InRun(PreErrorLock(text, valid)))) && s.run.lock == None
    ensures Over(s, s', t, InRun(PreErrorLock(text, valid)))
    ensures RunShows(s, s', t, PreStartError(FieldsOfRun(s.run), text, valid, s.verdict))
  {
    var s0 := RunBegins(s, t, PreErrorLock(text, valid));
    assert s.log + [] == s.log && s0.run == s.run;
    s' := RunMove(s0, s, s0, t, PreErrorLock(text, valid), s.run, s.log, s.verdict);
    if !s.run.started && valid { s' := PreStartErrorWritten(s0, s, s', t, text); }
  }

  lemma PreStartErrorWritten(s0: State, s: State, s1: State, t: Tid, text: string) returns (s': State)
    requires s.run.lock == None && InRunCall(s, s1, t, s.run.(lock := Some(t)), s.log, s.verdict) && !s1.halted
    requires Ran(s0, s1, t) && s1.threads[t] == InRun(PreErrorWrite(text))
    ensures Ran(s0, s', t) && t < |s'.threads| && s'.log == s.log + [RunError(text)] && s'.halted == s.verdict.finalized
    ensures !s'.halted ==> s'.threads[t] == Idle
    ensures !s'.halted ==> InRunCall(s, s', t, s.run, s.log + [RunError(text)], Notify(s.verdict, ErrorSeen).value)
  {
    var r := s.run.(lock := Some(t));
    s' := RunMove(s0, s, s1, t, PreErrorWrite(text), r, s.log, s.verdict);
    assert s.log + [RunError(text)] + [] == s.log + [RunError(text)];
    s' := RunMove(s0, s, s', t, PreErrorNotify, r, s.log + [RunError(text)], s.verdict);
    assert r.(lock := None) == s.run;
  }

  lemma PreStartLogAlone(s: State, t: Tid, text: string, valid: bool, fatal: bool) returns (s': State)
    requires Allowed(s, Begin(t, InRun(PreLogLock(text, valid, fatal)))) && s.run.lock == None
    ensures Over(s, s', t, InRun(PreLogLock(text, valid, fatal)))
    ensures RunShows(s, s', t, PreStartLog(FieldsOfRun(s.run), text, valid, fatal, s.verdict))
  {
    var s0 := RunBegins(s, t, PreLogLock(text, valid, fatal));
    s' := PreStartLogMoves(s0, s, s0, t, text, valid, fatal, s0.run);
  }

  lemma PreStartLogMoves(s0: State, s: State, s1: State, t: Tid, text: string, valid: bool, fatal: bool, r: RunState)
    returns (s': State)
    requires InRunCall(s, s1, t, r, s.log, s.verdict) && r.lock == None && !s1.halted && Ran(s0, s1, t)
    requires s1.threads[t] == InRun(PreLogLock(text, valid, fatal))
    ensures Returned(s0, s', t) && RunShows(s, s', t, PreStartLog(FieldsOfRun(r), text, valid, fatal, s.verdict))
  {
    if r.started || !valid {
      s' := RunMove(s0, s, s1, t, PreLogLock(text, valid, fatal), r, s.log, s.verdict);
    } else {
      var r' := r.(lock := Some(t));
      s' := RunProceeds(s0, s, s1, t, PreLogLock(text, valid, fatal), r, s.log, s.verdict,
                        Quietly(r', InRun(PreLogWrite(text, fatal))));
      s' := RunMove(s0, s, s', t, PreLogWrite(text, fatal), r', s.log, s.verdict);
    }
  }

  lemma SkipRunAlone(s: State, t: Tid) returns (s': State)
    requires Allowed(s, Begin(t, InRun(SkipNotify))) && s.run.lock == None
    ensures Over(s, s', t, InRun(SkipNotify))
    ensures RunShows(s, s', t, SkipWholeRun(FieldsOfRun(s.run), s.verdict))
  {
    var s0 := Apply(s, Begin(t, InRun(SkipNotify)));
    RanNothing(s0, t);
    assert s.log + [] == s.log;
    s' := RunMove(s0, s, s0, t, SkipNotify, s.run, s.log, s.verdict);
  }

  /** The run owns the DutInfo it is given. */
  lemma StartAlone(s: State, t: Tid, dut: Option<nat>) returns (s': State)
    requires Allowed(s, Begin(t, InRun(StartLock(dut)))) && s.run.lock == None
    ensures Over(s, s', t, InRun(StartLock(dut)))
    ensures RunShows(s, s', t, Start(FieldsOfRun(s.run), dut.Some?, s.verdict))
    ensures !s'.halted ==> s'.run.dut == dut
  {
    var s0 := RunBegins(s, t, StartLock(dut));
    s' := StartMoves(s0, s, s0, t, dut, s0.run);
  }

  lemma StartMoves(s0: State, s: State, s1: State, t: Tid, dut: Option<nat>, r: RunState) returns (s': State)
    requires InRunCall(s, s1, t, r, s.log, s.verdict) && r.lock == None && !s1.halted && Ran(s0, s1, t)
    requires s1.threads[t] == InRun(StartLock(dut))
    ensures Returned(s0, s', t) && RunShows(s, s', t, Start(FieldsOfRun(r), dut.Some?, s.verdict))
    ensures !s'.halted ==> s'.run.dut == dut
  {
    assert s.log + [] == s.log;
    s' := RunMove(s0, s, s1, t, StartLock(dut), r, s.log, s.verdict);
    if dut.Some? { s' := RunStarts(s0, s, s', t, dut.value, r.(lock := Some(t))); }
  }

  lemma RunStarts(s0: State, s: State, s1: State, t: Tid, d: nat, r: RunState) returns (s': State)
    requires InRunCall(s, s1, t, r, s.log, s.verdict) && !s1.halted && Ran(s0, s1, t)
    requires s1.threads[t] == InRun(StartNotify(d))
    ensures Returned(s0, s', t) && RunShows(s, s', t, Start(FieldsOfRun(r), true, s.verdict))
    ensures !s'.halted ==> s'.run.dut == Some(d)
  {
    if s.verdict.finalized {
      s' := RunMove(s0, s, s1, t, StartNotify(d), r, s.log, s.verdict);
    } else {
      s' := RunProceeds(s0, s, s1, t, StartNotify(d), r, s.log, s.verdict, Telling(r, InRun(StartWrite(d)), StartRun));
      var r' := AdoptDut(r, d).(started := true, lock := None, startPos := Some(|s.log|));
      s' := RunProceeds(s0, s, s', t, StartWrite(d), r, s.log, Notify(s.verdict, StartRun).value,
                        Writing(r', Idle, RunStart(true)));
    }
  }

  lemma EndRunAlone(s: State, t: Tid) returns (s': State)
    requires Allowed(s, Begin(t, InRun(EndLock))) && s.run.lock == None
    ensures Over(s, s', t, InRun(EndLock))
    ensures RunShows(s, s', t, EndRun(FieldsOfRun(s.run), s.verdict))
  {
    var s0 := RunBegins(s, t, EndLock);
    s' := EndMoves(s0, s, s0, t, s0.run);
  }

  lemma EndMoves(s0: State, s: State, s1: State, t: Tid, r: RunState) returns (s': State)
    requires InRunCall(s, s1, t, r, s.log, s.verdict) && r.lock == None && !s1.halted && Ran(s0, s1, t)
    requires s1.threads[t] == InRun(EndLock)
    ensures Returned(s0, s', t) && RunShows(s, s', t, EndRun(FieldsOfRun(r), s.verdict))
  {
    assert s.log + [] == s.log;
    s' := RunMove(s0, s, s1, t, EndLock, r, s.log, s.verdict);
    if r.started {
      s' := RunEnds(s0, s, s', t, r.(lock := Some(t)), s.log);
    } else {
      s' := EndStarts(s0, s, s', t, r.(lock := Some(t)));
    }
  }

  /** A run that was never started is given a start before it ends. */
  lemma EndStarts(s0: State, s: State, s1: State, t: Tid, r: RunState) returns (s': State)
    requires InRunCall(s, s1, t, r, s.log, s.verdict) && !r.started && !s1.halted && Ran(s0, s1, t)
    requires s1.threads[t] == InRun(EndStart)
    ensures Returned(s0, s', t) && RunShows(s, s', t, EndRun(FieldsOfRun(r), s.verdict))
  {
    s' := RunMove(s0, s, s1, t, EndStart, r, s.log, s.verdict);
    s' := RunEnds(s0, s, s', t, r.(startPos := Some(|s.log|)), s.log + [RunStart(r.dut.Some?)]);
  }

  lemma RunEnds(s0: State, s: State, s1: State, t: Tid, r: RunState, log: seq<Artifact>) returns (s': State)
    requires InRunCall(s, s1, t, r, log, s.verdict) && !s1.halted && Ran(s0, s1, t)
    requires s1.threads[t] == InRun(EndFinalize)
    ensures Ran(s0, s', t) && t < |s'.threads|
    ensures if s.verdict.finalized then s'.halted && s'.log == log
            else
              !s'.halted && s'.threads[t] == Idle && RunGone(s'.run, r) &&
              var c := Notify(s.verdict, Finalized).value;
              InRunCall(s, s', t, s'.run, log + [RunEnd(c.status, c.result)], c)
  {
    assert log + [] == log;
    s' := RunMove(s0, s, s1, t, EndFinalize, r, log, s.verdict);
    if !s.verdict.finalized { s' := RunEndWritten(s0, s, s', t, r, log, Notify(s.verdict, Finalized).value); }
  }

  /** The destructor, which had r, has returned. */
  predicate RunGone(r': RunState, r: RunState) {
    !r'.initialized && !r'.sink && r'.dut == None && r'.started == r.started && r'.lock == None
  }

  lemma RunEndWritten(s0: State, s: State, s1: State, t: Tid, r: RunState, log: seq<Artifact>, c: Calc)
    returns (s': State)
    requires InRunCall(s, s1, t, r, log, c) && !s1.halted && Ran(s0, s1, t) && s1.threads[t] == InRun(EndWrite)
    ensures Ran(s0, s', t) && t < |s'.threads| && !s'.halted && s'.threads[t] == Idle && RunGone(s'.run, r)
    ensures InRunCall(s, s', t, s'.run, log + [RunEnd(c.status, c.result)], c)
  {
    var r', end := r.(lock := None, endPos := Some(|log|)), RunEnd(c.status, c.result);
    s' := RunProceeds(s0, s, s1, t, EndWrite, r, log, c, Writing(r', InRun(EndCleanup), end));
    s' := RunCleanedUp(s0, s, s', t, r', log + [end], c);
  }

  lemma RunCleanedUp(s0: State, s: State, s1: State, t: Tid, r: RunState, log: seq<Artifact>, c: Calc)
    returns (s': State)
    requires InRunCall(s, s1, t, r, log, c) && !s1.halted && Ran(s0, s1, t) && s1.threads[t] == InRun(EndCleanup)
    requires r.lock == None
    ensures Ran(s0, s', t) && t < |s'.threads| && !s'.halted && s'.threads[t] == Idle && RunGone(s'.run, r)
    ensures InRunCall(s, s', t, s'.run, log, c)
  {
    var gone := FreeDut(r).(sink := false, initialized := false, phase := Done);
    s' := RunProceeds(s0, s, s1, t, EndCleanup, r, log, c, Quietly(gone, Idle));
  }
}
