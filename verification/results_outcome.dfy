/** The verdict of a run against its log, and two promises that hold only under a condition. */
module ResultsOutcome {
  import opened Options
  import opened Artifacts
  import opened ResultCalculator
  import opened ResultsMachine
  import opened ResultsTheorems
  import Locks = ResultsLocks
  import Runs = ResultsRunInv
  import Steps = ResultsStepInv
  import Series = ResultsSeriesInv
  import Verdicts = ResultsVerdictInv

  ghost predicate SomeError(log: seq<Artifact>) {
    exists p :: 0 <= p < |log| && (log[p].RunError? || (log[p].StepArtifact? && log[p].body.ErrorBody?))
  }

  ghost predicate SomeFailure(log: seq<Artifact>) {
    exists p :: 0 <= p < |log| && log[p].StepArtifact? && log[p].body.Diagnosis? && log[p].body.fail
  }

  // ---- The verdict ----

  lemma LastIsFinal(events: seq<Event>)
    requires Finalized in events && forall i | 0 <= i < |events| - 1 :: events[i] != Finalized
    ensures events == events[..|events| - 1] + [Finalized] && Finalized !in events[..|events| - 1]
  {
    var n := |events| - 1;
    assert events == events[..n] + [events[n]];
    assert forall i | 0 <= i < n :: events[..n][i] == events[i];
  }

  lemma HistoryEndsFinal(events: seq<Event>)
    requires Fold(events).Some? && Fold(events).value.finalized
    ensures |events| > 0 && events == events[..|events| - 1] + [Finalized] && Finalized !in events[..|events| - 1]
  {
    AcceptedHistories(events);
    LastIsFinal(events);
  }

  /** When a run is over, all other threads being idle, the notifications and the log agree. */
  lemma DoneAgrees(n: nat, s: State)
    requires Reachable(n, s) && s.run.phase == Done
    ensures FailSeen in s.events <==> SomeFailure(s.log)
    ensures ErrorSeen in s.events <==> SomeError(s.log)
    ensures StartRun in s.events <==> s.run.started
    ensures Fold(s.events) == Some(s.verdict) && s.verdict.finalized
  {
    InvReachable(n, s);
    forall t | 0 <= t < |s.threads| ensures s.threads[t] == Idle {
      assert Runs.ThreadOk(s.run, t, s.threads[t]);
    }
    if s.failure.Met? { assert s.log[s.failure.pos].IsFailDiagnosis(); }
    if s.error.Met? { assert s.log[s.error.pos].IsError(); }
  }

  lemma EndCarriesVerdict(n: nat, s: State, end: nat)
    requires Reachable(n, s) && s.run.phase == Done && end < |s.log| && s.log[end].RunEnd?
    ensures Fold(s.events).Some? && Fold(s.events).value.finalized && |s.events| > 0
    ensures s.log[end] == RunEnd(Verdict(s.events[..|s.events| - 1]).0, Verdict(s.events[..|s.events| - 1]).1)
  {
    InvReachable(n, s);
    assert Runs.EntryOk(s.run, s.log[end], end);
    HistoryEndsFinal(s.events);
    FinalVerdict(s.events[..|s.events| - 1]);
  }

  /** The verdict in terms of which events were notified. */
  lemma VerdictOfEvents(events: seq<Event>)
    ensures var (status, result) := Verdict(events);
            && (status == Complete <==> StartRun in events && ErrorSeen !in events && SkipRun !in events)
            && (status == Complete ==> result == if FailSeen in events then Fail else Pass)
            && (ErrorSeen in events ==> status == Error || status == Skip)
            && (result != NotApplicable <==> status == Complete)
            && (status == Error ==> ErrorSeen in events)
            && (ErrorSeen !in events && SkipRun !in events && StartRun !in events ==> status == Skip)
  {
    FirstStopIsEarliest(events);
  }

  /** The artifact that ends a run tells its log and its history: it is Complete exactly when the run was
      started, no error is in the log and no skip was asked for, and then the result is Fail exactly when
      a fail diagnosis is in the log; any error makes it Error or Skip; a result is given exactly with
      Complete; Error means an error is in the log. */
  lemma VerdictTellsLog(n: nat, s: State, end: nat)
    requires Reachable(n, s) && s.run.phase == Done && end < |s.log| && s.log[end].RunEnd?
    ensures var a := s.log[end];
            && (a.runStatus == Complete <==> s.run.started && !SomeError(s.log) && SkipRun !in s.events)
            && (a.runStatus == Complete ==> a.result == if SomeFailure(s.log) then Fail else Pass)
            && (SomeError(s.log) ==> a.runStatus == Error || a.runStatus == Skip)
            && (a.result != NotApplicable <==> a.runStatus == Complete)
            && (a.runStatus == Error ==> SomeError(s.log))
            && (!SomeError(s.log) && SkipRun !in s.events && !s.run.started ==> a.runStatus == Skip)
  {
    DoneAgrees(n, s);
    EndCarriesVerdict(n, s, end);
    var before := s.events[..|s.events| - 1];
    VerdictOfEvents(before);
    assert forall e :: e != Finalized ==> (e in s.events <==> e in before) by { HistoryEndsFinal(s.events); }
  }

  // ---- The schema version ----

  /** Somebody logs through Abseil while the constructor of the run is at work: after the sink is registered,
      since it takes no entries before that, and before the schema version is written. */
  predicate LoggedInConstructor(s: State, actions: seq<Action>)
    decreases |actions|
  {
    actions != [] && Allowed(s, actions[0]) &&
    (LogsInConstructor(s, actions[0]) || LoggedInConstructor(Apply(s, actions[0]), actions[1..]))
  }

  predicate LogsInConstructor(s: State, a: Action) { a.AbslLog? && s.run.phase == Building }

  predicate Unbuilt(s: State) { s.run.phase == NotBuilt || s.run.phase == Building }

  /** Until the schema version is written, the log holds exactly what came from the sink. */
  predicate SchemaPlaced(s: State, logged: bool) {
    if Unbuilt(s) then s.log != [] <==> logged
    else s.log != [] && (s.log[0].Schema? <==> !logged)
  }

  /** Only the constructor's last section leaves the unbuilt phases, and it writes the schema version. */
  lemma SchemaSection(r: RunState, p: RunPc, t: Tid, pos: nat, verdict: Calc)
    requires Runs.MarksOk(r) && Runs.PhaseOk(r, t, InRun(p))
    ensures var e := RunSection(r, p, t, pos, verdict);
            e.Proceed? ==>
              if p.Guard? || p.RegisterSink? then
                e.after.phase == Building && e.emit == None && (r.phase == NotBuilt || r.phase == Building)
              else
                && e.after.phase != NotBuilt && e.after.phase != Building
                && (p.EmitSchema? <==> r.phase == Building)
                && (p.EmitSchema? ==> e.emit.Some? && e.emit.value.Schema?) && r.phase != NotBuilt
  {
  }

  lemma SchemaPlacedRun(s: State, t: Tid, p: RunPc, logged: bool)
    requires Runs.RunInv(s) && CanStep(s, t) && s.threads[t] == InRun(p) && SchemaPlaced(s, logged)
    ensures SchemaPlaced(DoRun(s, t, RunEffect(s, t, p)), logged)
  {
    assert Runs.ThreadOk(s.run, t, s.threads[t]);
    forall q | 0 <= q < |s.log| && Unbuilt(s) ensures s.log[q].RunLog? { assert Runs.EntryOk(s.run, s.log[q], q); }
    SchemaSection(s.run, p, t, |s.log|, s.verdict);
    SchemaPlacedEffect(s, t, p, RunEffect(s, t, p), logged);
  }

  lemma SchemaPlacedEffect(s: State, t: Tid, p: RunPc, e: Effect<RunState>, logged: bool)
    requires t < |s.threads| && SchemaPlaced(s, logged)
    requires e.Proceed? ==>
               if p.Guard? || p.RegisterSink? then e.after.phase == Building && e.emit == None && Unbuilt(s)
               else
                 && e.after.phase != NotBuilt && e.after.phase != Building
                 && (p.EmitSchema? <==> s.run.phase == Building)
                 && (p.EmitSchema? ==> e.emit.Some? && e.emit.value.Schema?) && s.run.phase != NotBuilt
    requires Unbuilt(s) ==> forall q | 0 <= q < |s.log| :: s.log[q].RunLog?
    ensures SchemaPlaced(DoRun(s, t, e), logged)
  {
  }

  lemma SchemaPlacedTake(s: State, t: Tid, logged: bool)
    requires Runs.RunInv(s) && CanStep(s, t) && SchemaPlaced(s, logged)
    ensures SchemaPlaced(Step(s, t), logged)
  {
    assert Runs.ThreadOk(s.run, t, s.threads[t]);
    match s.threads[t]
    case InRun(p) => SchemaPlacedRun(s, t, p, logged);
    case InStep(i, p) => assert !Unbuilt(s) ==> DoStep(s, t, i, StepEffect(s, t, i, p)).run == s.run;
    case _ =>
  }

  lemma SchemaPlacedApply(s: State, a: Action, logged: bool)
    requires Runs.RunInv(s) && Allowed(s, a) && SchemaPlaced(s, logged)
    ensures SchemaPlaced(Apply(s, a), logged || LogsInConstructor(s, a))
  {
    if a.Take? { SchemaPlacedTake(s, a.t, logged); }
  }

  lemma {:induction false} SchemaPlacedExec(s: State, actions: seq<Action>, logged: bool)
    requires Inv(s) && Exec(s, actions).Some? && SchemaPlaced(s, logged)
    ensures SchemaPlaced(Exec(s, actions).value, logged || LoggedInConstructor(s, actions))
    decreases |actions|
  {
    if actions != [] {
      InvApply(s, actions[0]);
      SchemaPlacedApply(s, actions[0], logged);
      SchemaPlacedExec(Apply(s, actions[0]), actions[1..], logged || LogsInConstructor(s, actions[0]));
    }
  }

  /** On every schedule: once the schema version is written, only sink logs precede it, and it is the first
      artifact exactly when nobody logged through Abseil while the constructor was at work. */
  lemma SchemaFirst(n: nat, actions: seq<Action>)
    requires Exec(Init(n), actions).Some? && Exec(Init(n), actions).value.run.schemaPos.Some?
    ensures var s := Exec(Init(n), actions).value;
            && s.log != [] && (s.log[0].Schema? <==> !LoggedInConstructor(Init(n), actions))
            && SchemaAt(s.log, s.run.schemaPos.value)
  {
    InvInit(n);
    InvExec(Init(n), actions);
    SchemaPlacedExec(Init(n), actions, false);
    SinkLogsBeforeSchema(Exec(Init(n), actions).value);
  }

  /** The schema version stands at position p, behind nothing but sink logs. */
  ghost predicate SchemaAt(log: seq<Artifact>, p: nat) {
    p < |log| && log[p].Schema? && forall q | 0 <= q < p :: log[q].RunLog?
  }

  lemma SinkLogsBeforeSchema(s: State)
    requires Runs.RunInv(s) && s.run.schemaPos.Some?
    ensures SchemaAt(s.log, s.run.schemaPos.value) && !Unbuilt(s)
  {
    forall q | 0 <= q < s.run.schemaPos.value ensures s.log[q].RunLog? { assert Runs.EntryOk(s.run, s.log[q], q); }
  }

  /** The call asks for a run that registers its log sink. */
  predicate AsksForSink(a: Action) { a.Begin? && a.pc.InRun? && a.pc.run.Guard? && a.pc.run.logToResults }

  /** No sink is registered, and none is about to be. */
  ghost predicate NoSink(s: State) {
    !s.run.sink &&
    forall t | 0 <= t < |s.threads| && s.threads[t].InRun? ::
      (s.threads[t].run.Guard? || s.threads[t].run.RegisterSink? ==> !s.threads[t].run.logToResults)
  }

  lemma NoSinkRun(s: State, t: Tid, p: RunPc)
    requires NoSink(s) && CanStep(s, t) && s.threads[t] == InRun(p)
    ensures NoSink(DoRun(s, t, RunEffect(s, t, p)))
  {
    var e := RunEffect(s, t, p);
    assert e.Proceed? ==>
             !e.after.sink && (e.pc.InRun? && e.pc.run.RegisterSink? ==> !e.pc.run.logToResults) &&
             !(e.pc.InRun? && e.pc.run.Guard?);
  }

  lemma NoSinkApply(s: State, a: Action)
    requires NoSink(s) && Allowed(s, a) && !AsksForSink(a)
    ensures NoSink(Apply(s, a)) && !a.AbslLog?
  {
    if a.Take? {
      match s.threads[a.t] {
        case InRun(p) => NoSinkRun(s, a.t, p);
        case InStep(i, p) => StepsNeedNoSink(s, a.t, i, p);
        case InSeries(k, p) => SeriesNeedNoSink(s, a.t, k, p);
        case _ =>
      }
    }
  }

  lemma StepsNeedNoSink(s: State, t: Tid, i: Id, p: StepPc)
    requires NoSink(s) && CanStep(s, t) && s.threads[t] == InStep(i, p)
    ensures NoSink(DoStep(s, t, i, StepEffect(s, t, i, p)))
  {
    var e := StepEffect(s, t, i, p);
    assert e.Proceed? ==> !e.pc.InRun?;
  }

  lemma SeriesNeedNoSink(s: State, t: Tid, k: Id, p: SeriesPc)
    requires NoSink(s) && CanStep(s, t) && s.threads[t] == InSeries(k, p)
    ensures NoSink(DoSeries(s, t, k, SeriesEffect(s, t, k, p)))
  {
    var e := SeriesEffect(s, t, k, p);
    assert e.Proceed? ==> !e.pc.InRun?;
  }

  /** Without the sink nobody can log in the constructor, so the schema version is first. */
  lemma {:induction false} WithoutSink(s: State, actions: seq<Action>)
    requires NoSink(s) && forall a | a in actions :: !AsksForSink(a)
    ensures !LoggedInConstructor(s, actions)
    decreases |actions|
  {
    if actions != [] && Allowed(s, actions[0]) {
      NoSinkApply(s, actions[0]);
      WithoutSink(Apply(s, actions[0]), actions[1..]);
    }
  }

  lemma ASinkIsRegistering(n: nat, logToResults: bool) returns (s: State)
    requires n > 0
    ensures Reachable(n, s) && !s.halted && s.log == [] && s.verdict == InitialCalc && s.steps == [] && s.series == []
    ensures s.run == InitialRun.(initialized := true, phase := Building)
    ensures s.threads == Init(n).threads[0 := InRun(RegisterSink(logToResults, true))]
  {
    var s0 := Init(n);
    assert Exec(s0, []) == Some(s0);
    var s1 := Apply(s0, Begin(0, InRun(Guard(logToResults, true))));
    ReachableStep(n, s0, Begin(0, InRun(Guard(logToResults, true))));
    s := Apply(s1, Take(0));
    ReachableStep(n, s1, Take(0));
  }

  lemma AnEarlyLog() returns (s: State)
    ensures Reachable(1, s) && !s.halted && s.run.phase == Building && s.log == [RunLog("early")]
    ensures s.threads == [InRun(EmitSchema(true))]
  {
    var s2 := ASinkIsRegistering(1, true);
    var s3 := Apply(s2, Take(0));
    ReachableStep(1, s2, Take(0));
    s := Apply(s3, AbslLog("early"));
    ReachableStep(1, s3, AbslLog("early"));
  }

  /** The sink is live before the schema version is written: a log entry can come first. */
  lemma SchemaCanBeSecond() returns (s: State)
    ensures Reachable(1, s) && !s.halted && |s.log| == 2 && s.log[0].RunLog? && s.log[1].Schema?
  {
    var s4 := AnEarlyLog();
    s := Apply(s4, Take(0));
    ReachableStep(1, s4, Take(0));
  }

  // ---- Elements and the end of their step ----

  /** Thread t has checked that the step is active and is about to write an element of series k, while
      thread u is about to end that step. */
  ghost predicate Race(s: State, t: Tid, u: Tid, k: Id) {
    && !s.halted && t < |s.threads| && u < |s.threads| && k < |s.series| && s.series[k].step < |s.steps|
    && AboutToWrite(s, s.threads[t], k)
    && s.threads[u] == InStep(s.series[k].step, StepEndLock)
    && !s.steps[s.series[k].step].ended && s.steps[s.series[k].step].lock == None
  }

  predicate AboutToWrite(s: State, pc: Pc, k: Id) {
    k < |s.series| && pc.InSeries? && pc.series == k && pc.mp.ElementWrite? && !s.series[k].ended
  }

  ghost predicate RaceFree(s: State) { forall t, u, k :: !Race(s, t, u, k) }

  /** A schedule that passes through no race. */
  ghost predicate Disciplined(s: State, actions: seq<Action>)
    decreases |actions|
  {
    RaceFree(s) && (actions == [] || (Allowed(s, actions[0]) && Disciplined(Apply(s, actions[0]), actions[1..])))
  }

  /** `end` is the end of the step to which the element belongs. */
  predicate Late(end: Artifact, element: Artifact) {
    element.StepArtifact? && element.body.SeriesElement? && end.StepArtifact? && end.step == element.step &&
    end.body.StepEnd?
  }

  /** An element follows the end of its step. */
  ghost predicate HasLate(log: seq<Artifact>) { exists q, p :: 0 <= q < p < |log| && Late(log[q], log[p]) }

  /** Every element in the log precedes its step's end, and no element that can still be written is late. */
  ghost predicate ElementsInTime(s: State) {
    && (forall p, q | 0 <= p < |s.log| && 0 <= q < |s.log| && Late(s.log[q], s.log[p]) :: p < q)
    && (forall t: nat, k: nat | t < |s.threads| && AboutToWrite(s, s.threads[t], k) && s.series[k].step < |s.steps| ::
          !s.steps[s.series[k].step].ended)
  }

  lemma InTimeStep(s: State, t: Tid, i: Id, e: Effect<StepState>)
    requires ElementsInTime(s) && t < |s.threads| && i < |s.steps| && e.Proceed? && !Refused(s, e)
    requires e.pc == Idle || e.pc.InStep?
    requires e.emit.Some? ==> !e.emit.value.StepArtifact? || !e.emit.value.body.SeriesElement?
    requires e.after.ended && !s.steps[i].ended ==>
               forall u: nat, k: nat | u < |s.threads| && AboutToWrite(s, s.threads[u], k) :: s.series[k].step != i
    ensures ElementsInTime(DoStep(s, t, i, e))
  {
  }

  lemma InTimeSeries(s: State, t: Tid, k: Id, e: Effect<SeriesState>)
    requires Steps.StepInv(s) && ElementsInTime(s) && t < |s.threads| && k < |s.series| && e.Proceed? && !Refused(s, e)
    requires e.after.step == s.series[k].step && (e.pc == Idle || (e.pc.InSeries? && e.pc.series == k))
    requires s.series[k].ended ==> e.after.ended
    requires e.pc != Idle && e.pc.mp.ElementWrite? ==> !s.steps[s.series[k].step].ended
    requires e.emit.Some? && e.emit.value.StepArtifact? && e.emit.value.body.SeriesElement? ==>
               e.emit.value.step == s.series[k].step && !s.steps[s.series[k].step].ended
    requires e.emit.Some? && e.emit.value.StepArtifact? ==> !e.emit.value.body.StepEnd?
    ensures ElementsInTime(DoSeries(s, t, k, e))
  {
    var i := s.series[k].step;
    assert Steps.StepOk(s.steps[i], i, s.log, s.threads);
    forall q | 0 <= q < |s.log| && s.log[q].StepArtifact? && s.log[q].step == i && s.log[q].body.StepEnd?
      ensures s.steps[i].ended
    {
      assert Steps.LogOk(s.steps, s.log[q], q);
    }
  }

  lemma InTimeStepSection(s: State, t: Tid, i: Id, p: StepPc)
    requires Locks.LockInv(s) && Steps.StepInv(s) && RaceFree(s) && ElementsInTime(s)
    requires CanStep(s, t) && s.threads[t] == InStep(i, p)
    ensures ElementsInTime(DoStep(s, t, i, StepEffect(s, t, i, p)))
  {
    var e := StepEffect(s, t, i, p);
    assert Steps.ThreadOk(s.steps, t, s.threads[t]);
    Series.StepEmitsNoSeries(s.steps[i], i, p, t, |s.log|, s.run.started);
    if e.Proceed? && !Refused(s, e) {
      if e.after.ended && !s.steps[i].ended {
        forall u: nat, k: nat | u < |s.threads| && AboutToWrite(s, s.threads[u], k) ensures s.series[k].step != i {
          assert !Race(s, u, t, k) && s.series[k].step < |s.steps|;
        }
      }
      InTimeStep(s, t, i, e);
    }
  }

  lemma SeriesSectionInTime(m: SeriesState, k: Id, p: SeriesPc, t: Tid, pos: nat, ended: bool)
    requires p.ElementWrite? && !m.ended ==> !ended
    ensures var e := SeriesSection(m, k, p, t, pos, ended);
            e.Proceed? ==>
              && (m.ended ==> e.after.ended)
              && (e.pc != Idle ==> e.pc.InSeries? && (e.pc.mp.ElementWrite? ==> !ended))
              && (e.emit.Some? && e.emit.value.StepArtifact? && e.emit.value.body.SeriesElement? ==> !ended)
  {
  }

  lemma InTimeSeriesSection(s: State, t: Tid, k: Id, p: SeriesPc)
    requires Steps.StepInv(s) && ElementsInTime(s) && CanStep(s, t) && s.threads[t] == InSeries(k, p)
    ensures ElementsInTime(DoSeries(s, t, k, SeriesEffect(s, t, k, p)))
  {
    var e := SeriesEffect(s, t, k, p);
    Steps.SeriesEmits(s.series[k], k, p, t, |s.log|, s.steps[s.series[k].step].ended);
    SeriesSectionInTime(s.series[k], k, p, t, |s.log|, s.steps[s.series[k].step].ended);
    if e.Proceed? && !Refused(s, e) { InTimeSeries(s, t, k, e); }
  }

  /** Everything outside steps and series: new threads of control, and artifacts that are no elements. */
  lemma InTimeElsewhere(s: State, s': State)
    requires ElementsInTime(s)
    requires |s'.threads| == |s.threads| && |s'.steps| >= |s.steps| && |s'.series| >= |s.series|
    requires forall u | 0 <= u < |s.threads| ::
               s'.threads[u] == s.threads[u] || !s'.threads[u].InSeries? || !s'.threads[u].mp.ElementWrite?
    requires s'.log == s.log ||
             (|s'.log| == |s.log| + 1 && s'.log[..|s.log|] == s.log && !s'.log[|s.log|].StepArtifact?)
    requires forall k | 0 <= k < |s.series| :: s'.series[k] == s.series[k]
    requires forall i | 0 <= i < |s.steps| :: s'.steps[i] == s.steps[i]
    requires forall t | 0 <= t < |s.threads| :: InRange(s, s.threads[t])
    ensures ElementsInTime(s')
  {
    assert forall p | 0 <= p < |s.log| :: s'.log[p] == s'.log[..|s.log|][p];
    forall t | 0 <= t < |s'.threads| && s'.threads[t].InSeries? && s'.threads[t].mp.ElementWrite?
      ensures s'.threads[t] == s.threads[t] && InRange(s, s.threads[t])
    {
    }
  }

  lemma InTimeRunSection(s: State, t: Tid, p: RunPc)
    requires Locks.LockInv(s) && ElementsInTime(s) && CanStep(s, t) && s.threads[t] == InRun(p)
    ensures ElementsInTime(DoRun(s, t, RunEffect(s, t, p)))
  {
    var e := RunEffect(s, t, p);
    Steps.RunEmitsNoStep(s.run, p, t, |s.log|, s.verdict);
    if e.Proceed? && !Refused(s, e) { InTimeElsewhere(s, DoRun(s, t, e)); }
  }

  lemma InTimeDraw(s: State, t: Tid)
    requires Locks.LockInv(s) && ElementsInTime(s) && CanStep(s, t) && (s.threads[t].NewStep? || s.threads[t].NewSeries?)
    ensures ElementsInTime(Step(s, t))
  {
    InTimeElsewhere(s, Step(s, t));
  }

  lemma InTimeTake(s: State, t: Tid)
    requires Locks.LockInv(s) && Steps.StepInv(s) && RaceFree(s) && ElementsInTime(s) && CanStep(s, t)
    ensures ElementsInTime(Step(s, t))
  {
    match s.threads[t]
    case InRun(p) => InTimeRunSection(s, t, p);
    case InStep(i, p) => InTimeStepSection(s, t, i, p);
    case InSeries(k, p) => InTimeSeriesSection(s, t, k, p);
    case NewStep(_) => InTimeDraw(s, t);
    case NewSeries(_, _, _, _) => InTimeDraw(s, t);
    case Idle =>
  }

  lemma InTimeApply(s: State, a: Action)
    requires Locks.LockInv(s) && Steps.StepInv(s) && RaceFree(s) && ElementsInTime(s) && Allowed(s, a)
    ensures ElementsInTime(Apply(s, a))
  {
    if a.Take? { InTimeTake(s, a.t); } else { InTimeElsewhere(s, Apply(s, a)); }
  }

  lemma {:induction false} InTimeExec(s: State, actions: seq<Action>)
    requires Inv(s) && ElementsInTime(s) && Disciplined(s, actions)
    ensures Exec(s, actions).Some? && ElementsInTime(Exec(s, actions).value)
    decreases |actions|
  {
    if actions != [] {
      InvApply(s, actions[0]);
      InTimeApply(s, actions[0]);
      InTimeExec(Apply(s, actions[0]), actions[1..]);
    }
  }

  /** On a schedule that passes through no race, no element follows the end of its step. */
  lemma DisciplinedElementsInTime(n: nat, actions: seq<Action>)
    requires Disciplined(Init(n), actions)
    ensures Exec(Init(n), actions).Some? && !HasLate(Exec(Init(n), actions).value.log)
  {
    InvInit(n);
    InTimeExec(Init(n), actions);
  }

  lemma RaceEndWins(s: State, t: Tid, u: Tid, k: Id) returns (s': State)
    requires Locks.LockInv(s) && Race(s, t, u, k)
    ensures Exec(s, [Take(u), Take(u)]) == Some(s')
    ensures !s'.halted && t < |s'.threads| && s'.threads[t] == s.threads[t] && s'.series == s.series
    ensures |s'.log| == |s.log| + 1 && s.series[k].step < |s'.steps|
    ensures s'.log[|s.log|].StepArtifact? && s'.log[|s.log|].step == s.series[k].step && s'.log[|s.log|].body.StepEnd?
  {
    var s1 := Apply(s, Take(u));
    s' := Apply(s1, Take(u));
    ExecExtend(s, [], Take(u));
    ExecExtend(s, [Take(u)], Take(u));
    assert [] + [Take(u)] == [Take(u)] && [Take(u)] + [Take(u)] == [Take(u), Take(u)];
  }

  /** From every race, the schedule in which the step's end comes first writes the element behind it, and no
      CHECK fails. */
  lemma OverlapMakesLate(s: State, t: Tid, u: Tid, k: Id) returns (s': State)
    requires Locks.LockInv(s) && Race(s, t, u, k)
    ensures Exec(s, [Take(u), Take(u), Take(t)]) == Some(s') && !s'.halted && HasLate(s'.log)
  {
    var s1 := RaceEndWins(s, t, u, k);
    s' := Apply(s1, Take(t));
    ExecExtend(s, [Take(u), Take(u)], Take(t));
    assert [Take(u), Take(u)] + [Take(t)] == [Take(u), Take(u), Take(t)];
    assert Late(s'.log[|s.log|], s'.log[|s.log| + 1]);
  }

  lemma {:induction false} ExecConcat(s: State, a: seq<Action>, b: seq<Action>)
    requires Exec(s, a).Some?
    ensures Exec(s, a + b) == Exec(Exec(s, a).value, b)
    decreases |a|
  {
    if a == [] {
      assert a + b == b;
    } else {
      ExecConcat(Apply(s, a[0]), a[1..], b);
      assert (a + b)[1..] == a[1..] + b;
    }
  }

  /** Some schedule leads from s to an element behind its step's end. */
  ghost predicate CanBecomeLate(s: State) {
    exists more :: Exec(s, more).Some? && HasLate(Exec(s, more).value.log)
  }

  ghost predicate CanRace(s: State) {
    exists more, t, u, k :: Exec(s, more).Some? && Race(Exec(s, more).value, t, u, k)
  }

  lemma {:induction false} UndisciplinedRaces(s: State, actions: seq<Action>)
    requires Exec(s, actions).Some? && !Disciplined(s, actions)
    ensures CanRace(s)
    decreases |actions|
  {
    if !RaceFree(s) {
      var t, u, k :| Race(s, t, u, k);
      assert Exec(s, []) == Some(s);
    } else {
      UndisciplinedRaces(Apply(s, actions[0]), actions[1..]);
      var more, t, u, k :| Exec(Apply(s, actions[0]), more).Some? && Race(Exec(Apply(s, actions[0]), more).value, t, u, k);
      assert ([actions[0]] + more)[1..] == more;
      assert Exec(s, [actions[0]] + more) == Exec(Apply(s, actions[0]), more);
    }
  }

  lemma RacesBecomeLate(s: State)
    requires Inv(s) && CanRace(s)
    ensures CanBecomeLate(s)
  {
    var more, t, u, k :| Exec(s, more).Some? && Race(Exec(s, more).value, t, u, k);
    InvExec(s, more);
    LateAfter(s, more, Exec(s, more).value, t, u, k);
  }

  lemma {:induction false} LateAfter(s: State, more: seq<Action>, s1: State, t: Tid, u: Tid, k: Id)
    requires Exec(s, more) == Some(s1) && Locks.LockInv(s1) && Race(s1, t, u, k)
    ensures CanBecomeLate(s)
  {
    var end := [Take(u), Take(u), Take(t)];
    var s' := OverlapMakesLate(s1, t, u, k);
    ExecConcat(s, more, end);
    assert Exec(s, more + end).Some? && HasLate(Exec(s, more + end).value.log);
  }

  /** The exact condition: as long as every element is in time, some schedule writes one behind the end of its
      step if and only if some schedule passes through a race. */
  lemma LateExactlyThroughRaces(n: nat, s: State)
    requires Reachable(n, s) && ElementsInTime(s)
    ensures CanBecomeLate(s) <==> CanRace(s)
  {
    InvReachable(n, s);
    if CanBecomeLate(s) {
      var more :| Exec(s, more).Some? && HasLate(Exec(s, more).value.log);
      if Disciplined(s, more) { InTimeExec(s, more); } else { UndisciplinedRaces(s, more); }
    }
    if CanRace(s) { RacesBecomeLate(s); }
  }

  // ---- What a caller can do about it ----

  /** A call of AddElement on a series of step i, or of End or Skip on step i, is in progress. */
  predicate Adding(s: State, pc: Pc, i: Id) {
    pc.InSeries? && pc.series < |s.series| && s.series[pc.series].step == i &&
    (pc.mp.ElementType? || pc.mp.ElementDraw? || pc.mp.ElementLock? || pc.mp.ElementCheckStep? || pc.mp.ElementWrite?)
  }

  predicate EndingStep(pc: Pc, i: Id) {
    pc.InStep? && pc.step == i && (pc.sp.SetSkip? || pc.sp.StepEndLock? || pc.sp.StepEndWrite?)
  }

  /** No call that ends a step overlaps a call that adds an element to one of its series. */
  ghost predicate NoOverlap(s: State) {
    forall t, u, i | 0 <= t < |s.threads| && 0 <= u < |s.threads| && 0 <= i < |s.steps| ::
      !(Adding(s, s.threads[t], i) && EndingStep(s.threads[u], i))
  }

  ghost predicate NeverOverlapping(s: State, actions: seq<Action>)
    decreases |actions|
  {
    NoOverlap(s) && (actions == [] || (Allowed(s, actions[0]) && NeverOverlapping(Apply(s, actions[0]), actions[1..])))
  }

  lemma RaceOverlaps(s: State, t: nat, u: nat, k: nat)
    ensures Race(s, t, u, k) ==> !NoOverlap(s)
  {
    if Race(s, t, u, k) {
      var i := s.series[k].step;
      assert Adding(s, s.threads[t], i) && EndingStep(s.threads[u], i);
    }
  }

  /** Keeping the two kinds of call apart is enough. */
  lemma {:induction false} NeverOverlappingIsDisciplined(s: State, actions: seq<Action>)
    requires NeverOverlapping(s, actions)
    ensures Disciplined(s, actions)
    decreases |actions|
  {
    forall t: nat, u: nat, k: nat ensures !Race(s, t, u, k) { RaceOverlaps(s, t, u, k); }
    if actions != [] { NeverOverlappingIsDisciplined(Apply(s, actions[0]), actions[1..]); }
  }

  // ---- Such a state is reached: one run, one step, one series, two threads ----

  ghost predicate Resting(s: State) {
    !s.halted && s.run.phase == Live && s.run.lock == None && s.threads == [Idle, Idle]
  }

  lemma ARunIsBuilt() returns (s: State)
    ensures Reachable(2, s) && !s.halted && s.threads == [InRun(EmitSchema(true)), Idle] && s.verdict == InitialCalc
    ensures s.run == InitialRun.(initialized := true, phase := Building) && s.steps == [] && s.series == []
  {
    var s2 := ASinkIsRegistering(2, false);
    s := Apply(s2, Take(0));
    ReachableStep(2, s2, Take(0));
  }

  lemma ARunIsLive() returns (s: State)
    ensures Reachable(2, s) && Resting(s) && s.steps == [] && s.series == [] && s.run.owners == [] &&
            !s.run.dutSingleton && s.verdict == InitialCalc && !s.run.started
  {
    var s3 := ARunIsBuilt();
    s := Apply(s3, Take(0));
    ReachableStep(2, s3, Take(0));
  }

  lemma ADutIsRegistering() returns (s: State)
    ensures Reachable(2, s) && !s.halted && s.run.phase == Live && s.run.lock == None && s.steps == [] && s.series == []
    ensures s.threads == [InRun(StartLock(Some(0))), Idle] && !s.verdict.finalized
  {
    var s0 := ARunIsLive();
    var s1 := Apply(s0, NewDut(true));
    ReachableStep(2, s0, NewDut(true));
    s := Apply(s1, Begin(0, InRun(StartLock(Some(0)))));
    ReachableStep(2, s1, Begin(0, InRun(StartLock(Some(0)))));
  }

  lemma AStartIsLocked() returns (s: State)
    ensures Reachable(2, s) && !s.halted && s.run.phase == Live && s.steps == [] && s.series == []
    ensures s.threads == [InRun(StartNotify(0)), Idle] && !s.verdict.finalized
  {
    var s1 := ADutIsRegistering();
    s := Apply(s1, Take(0));
    ReachableStep(2, s1, Take(0));
  }

  lemma AStartIsNotified() returns (s: State)
    ensures Reachable(2, s) && !s.halted && s.run.phase == Live && s.steps == [] && s.series == []
    ensures s.threads == [InRun(StartWrite(0)), Idle]
  {
    var s2 := AStartIsLocked();
    s := Apply(s2, Take(0));
    ReachableStep(2, s2, Take(0));
  }

  lemma ARunIsStarted() returns (s: State)
    ensures Reachable(2, s) && Resting(s) && s.steps == [] && s.series == [] && s.run.started
  {
    var s3 := AStartIsNotified();
    s := Apply(s3, Take(0));
    ReachableStep(2, s3, Take(0));
  }

  ghost predicate OneStep(s: State) {
    s.run.started && |s.steps| == 1 && s.steps[0].ready && !s.steps[0].ended && s.steps[0].lock == None
  }

  lemma AStepIsDrawn() returns (s: State)
    ensures Reachable(2, s) && !s.halted && s.run.phase == Live && s.run.lock == None && s.run.started && s.series == []
    ensures |s.steps| == 1 && !s.steps[0].ended && s.steps[0].lock == None
    ensures s.threads == [InStep(0, CheckStarted("step")), Idle]
  {
    var s0 := ARunIsStarted();
    var s1 := Apply(s0, Begin(0, NewStep("step")));
    ReachableStep(2, s0, Begin(0, NewStep("step")));
    s := Apply(s1, Take(0));
    ReachableStep(2, s1, Take(0));
  }

  lemma AStepIsActive() returns (s: State)
    ensures Reachable(2, s) && Resting(s) && s.series == [] && OneStep(s)
  {
    var s2 := AStepIsDrawn();
    var s3 := Apply(s2, Take(0));
    ReachableStep(2, s2, Take(0));
    s := Apply(s3, Take(0));
    ReachableStep(2, s3, Take(0));
  }

  ghost predicate OneSeries(s: State) {
    |s.series| == 1 && s.series[0].step == 0 && s.series[0].ready && !s.series[0].ended &&
    s.series[0].lock == None && s.series[0].typeIndex == -1
  }

  /** Thread 0 is in the constructor of the only series, and thread 1 is idle. */
  ghost predicate SeriesBegun(s: State, p: SeriesPc) {
    && !s.halted && s.run.phase == Live && s.run.lock == None && OneStep(s)
    && |s.series| == 1 && s.series[0].step == 0 && !s.series[0].ended && s.series[0].lock == None
    && s.series[0].typeIndex == -1 && s.threads == [InSeries(0, p), Idle]
  }

  lemma ASeriesIsDrawn() returns (s: State)
    ensures Reachable(2, s) && SeriesBegun(s, CheckStepActive(-1, "series", true))
  {
    var s0 := AStepIsActive();
    var s1 := Apply(s0, Begin(0, NewSeries(0, -1, "series", true)));
    ReachableStep(2, s0, Begin(0, NewSeries(0, -1, "series", true)));
    s := Apply(s1, Take(0));
    ReachableStep(2, s1, Take(0));
  }

  lemma ASeriesIsChecked() returns (s: State)
    ensures Reachable(2, s) && SeriesBegun(s, ValidateStart(-1, "series", true))
  {
    var s2 := ASeriesIsDrawn();
    s := Apply(s2, Take(0));
    ReachableStep(2, s2, Take(0));
  }

  lemma ASeriesIsActive() returns (s: State)
    ensures Reachable(2, s) && Resting(s) && OneStep(s) && OneSeries(s)
  {
    var s1 := ASeriesIsChecked();
    var s2 := Apply(s1, Take(0));
    ReachableStep(2, s1, Take(0));
    s := Apply(s2, Take(0));
    ReachableStep(2, s2, Take(0));
  }

  /** Thread 0 is in a call of AddElement on the only series, and thread 1 is idle. */
  ghost predicate ElementBegun(s: State) {
    && !s.halted && s.run.phase == Live && OneStep(s)
    && |s.series| == 1 && s.series[0].step == 0 && !s.series[0].ended && s.series[0].lock == None
    && |s.threads| == 2 && s.threads[1] == Idle && s.threads[0].InSeries? && s.threads[0].series == 0
  }

  lemma AnElementHasItsType() returns (s: State)
    ensures Reachable(2, s) && ElementBegun(s) && s.threads[0].mp.ElementDraw?
  {
    var s0 := ASeriesIsActive();
    var s1 := Apply(s0, Begin(0, InSeries(0, ElementType(1, "value"))));
    ReachableStep(2, s0, Begin(0, InSeries(0, ElementType(1, "value"))));
    s := Apply(s1, Take(0));
    ReachableStep(2, s1, Take(0));
  }

  lemma AnElementIsDrawn() returns (s: State)
    ensures Reachable(2, s) && ElementBegun(s) && s.threads[0].mp.ElementLock?
  {
    var s2 := AnElementHasItsType();
    s := Apply(s2, Take(0));
    ReachableStep(2, s2, Take(0));
  }

  lemma AnElementIsChecked() returns (s: State)
    ensures Reachable(2, s) && !s.halted && s.run.phase == Live && OneStep(s)
    ensures |s.series| == 1 && s.series[0].step == 0 && !s.series[0].ended
    ensures |s.threads| == 2 && s.threads[1] == Idle && s.threads[0].InSeries? && s.threads[0].series == 0 &&
            s.threads[0].mp.ElementWrite?
  {
    var s3 := AnElementIsDrawn();
    var s4 := Apply(s3, Take(0));
    ReachableStep(2, s3, Take(0));
    s := Apply(s4, Take(0));
    ReachableStep(2, s4, Take(0));
  }

  lemma RaceIsReachable() returns (s: State)
    ensures Reachable(2, s) && Race(s, 0, 1, 0)
  {
    var s5 := AnElementIsChecked();
    s := Apply(s5, Begin(1, InStep(0, StepEndLock)));
    ReachableStep(2, s5, Begin(1, InStep(0, StepEndLock)));
  }
}
