/** The agreement between the calculator's history of notifications and the artifacts in the log. */
module ResultsVerdictInv {
  import opened Options
  import opened Artifacts
  import opened ResultCalculator
  import opened ResultsMachine
  import opened ResultsLocks
  import Runs = ResultsRunInv
  import Steps = ResultsStepInv

  /** A call of AddDiagnosis(fail) that has notified the calculator and not yet written. */
  predicate OwesFailure(pc: Pc) {
    pc.InStep? && ((pc.sp.AddLock? && pc.sp.body.FailDiagnosis()) || (pc.sp.AddWrite? && pc.sp.body.FailDiagnosis()))
  }

  /** A call of AddError that has notified the calculator and not yet written. */
  predicate OwesError(pc: Pc) {
    pc.InStep? && ((pc.sp.AddLock? && pc.sp.body.ErrorBody?) || (pc.sp.AddWrite? && pc.sp.body.ErrorBody?))
  }

  /** A failure was notified exactly when a fail diagnosis is in the log or on its way. */
  ghost predicate FailureOk(s: State) {
    && (FailSeen in s.events <==> s.failure != Never)
    && (s.failure.OwedBy? ==> s.failure.t < |s.threads| && OwesFailure(s.threads[s.failure.t]))
    && (s.failure.Met? ==> s.failure.pos < |s.log| && s.log[s.failure.pos].IsFailDiagnosis())
    && (forall p | 0 <= p < |s.log| :: s.log[p].IsFailDiagnosis() ==> s.failure.Met?)
    && (forall t | 0 <= t < |s.threads| :: OwesFailure(s.threads[t]) ==> FailSeen in s.events)
  }

  /** An error was notified exactly when one is in the log or on its way, except for the moment between
      the artifact of AddPreStartError and its notification. */
  ghost predicate ErrorOk(s: State) {
    && (ErrorSeen in s.events ==> s.error != Never)
    && (s.error.OwedBy? ==> s.error.t < |s.threads| && OwesError(s.threads[s.error.t]))
    && (s.error.Met? ==> s.error.pos < |s.log| && s.log[s.error.pos].IsError())
    && (forall p | 0 <= p < |s.log| :: s.log[p].IsError() ==> s.error.Met?)
    && (forall t | 0 <= t < |s.threads| :: OwesError(s.threads[t]) ==> ErrorSeen in s.events)
    && (forall t | 0 <= t < |s.threads| :: s.threads[t] == InRun(PreErrorNotify) ==> s.error.Met?)
    && (s.error != Never && ErrorSeen !in s.events ==>
          s.run.lock.Some? && s.run.lock.value < |s.threads| && s.threads[s.run.lock.value] == InRun(PreErrorNotify))
  }

  /** The calculator is the fold of its history, and is final exactly from the run's Finalize on. */
  ghost predicate FinalOk(s: State) { FoldOk(s.events, s.verdict) && FinalPhase(s) }

  ghost predicate FoldOk(events: seq<Event>, verdict: Calc) {
    Fold(events) == Some(verdict) && (Finalized in events <==> verdict.finalized)
  }

  lemma FoldOkExtend(events: seq<Event>, verdict: Calc, e: Event)
    requires FoldOk(events, verdict) && Notify(verdict, e).Some?
    ensures FoldOk(events + [e], Notify(verdict, e).value)
    ensures !verdict.finalized && (Notify(verdict, e).value.finalized <==> e == Finalized)
  {
    FoldExtend(events, e);
  }

  ghost predicate FinalPhase(s: State) {
    && (s.verdict.finalized ==>
          s.run.phase == Done ||
          (s.run.phase == Ending && s.run.actor < |s.threads| &&
           (s.threads[s.run.actor] == InRun(EndWrite) || s.threads[s.run.actor] == InRun(EndCleanup))))
    && (forall t | 0 <= t < |s.threads| && (s.threads[t] == InRun(EndWrite) || s.threads[t] == InRun(EndCleanup)) ::
          s.verdict.finalized)
    && (s.run.phase == Done ==> s.verdict.finalized)
    && (s.run.endPos.Some? ==> s.run.endPos.value < |s.log| &&
                               s.log[s.run.endPos.value] == RunEnd(s.verdict.status, s.verdict.result) &&
                               s.verdict.finalized)
  }

  /** The calculator has been told of the start exactly when the run has started, except inside
      StartAndRegisterDutInfo. */
  ghost predicate StartOk(s: State) {
    && (s.run.started ==> StartRun in s.events)
    && (forall t | 0 <= t < |s.threads| && s.threads[t].InRun? && s.threads[t].run.StartWrite? :: StartRun in s.events)
    && (StartRun in s.events && !s.run.started ==>
          s.run.lock.Some? && s.run.lock.value < |s.threads| && s.threads[s.run.lock.value].InRun? &&
          s.threads[s.run.lock.value].run.StartWrite?)
  }

  ghost predicate VerdictInv(s: State) { FailureOk(s) && ErrorOk(s) && FinalOk(s) && StartOk(s) }

  // ---- Sections of a step ----

  /** What a section of a step may write or notify, and what it then owes. */
  lemma StepDebts(st: StepState, i: Id, p: StepPc, t: Tid, pos: nat, started: bool)
    requires Steps.PcOk(st, t, p)
    ensures var e := StepSection(st, i, p, t, pos, started);
            e.Proceed? ==>
              && (e.pc == Idle || e.pc.InStep?)
              && (e.event.Some? ==> e.emit == None && (e.event.value == FailSeen || e.event.value == ErrorSeen))
              && (OwesFailure(e.pc) <==> e.event == Some(FailSeen) || (OwesFailure(InStep(i, p)) && e.emit == None))
              && (OwesError(e.pc) <==> e.event == Some(ErrorSeen) || (OwesError(InStep(i, p)) && e.emit == None))
              && (e.emit.Some? ==>
                    && (e.emit.value.IsFailDiagnosis() <==> OwesFailure(InStep(i, p)))
                    && (e.emit.value.IsError() <==> OwesError(InStep(i, p)))
                    && !e.emit.value.RunEnd?)
  {
  }

  lemma FailureOkStep(s: State, t: Tid, i: Id, e: Effect<StepState>)
    requires FailureOk(s) && t < |s.threads| && i < |s.steps| && e.Proceed? && !Refused(s, e)
    requires e.event.Some? ==> e.emit == None
    requires OwesFailure(e.pc) <==> e.event == Some(FailSeen) || (OwesFailure(s.threads[t]) && e.emit == None)
    requires e.emit.Some? ==> (e.emit.value.IsFailDiagnosis() <==> OwesFailure(s.threads[t]))
    ensures FailureOk(DoStep(s, t, i, e))
  {
  }

  lemma ErrorOkStep(s: State, t: Tid, i: Id, e: Effect<StepState>)
    requires ErrorOk(s) && t < |s.threads| && i < |s.steps| && e.Proceed? && !Refused(s, e)
    requires s.threads[t].InStep? && (e.pc == Idle || e.pc.InStep?)
    requires e.event.Some? ==> e.emit == None
    requires OwesError(e.pc) <==> e.event == Some(ErrorSeen) || (OwesError(s.threads[t]) && e.emit == None)
    requires e.emit.Some? ==> (e.emit.value.IsError() <==> OwesError(s.threads[t]))
    ensures ErrorOk(DoStep(s, t, i, e))
  {
  }

  lemma HistoryOkStep(s: State, t: Tid, i: Id, e: Effect<StepState>)
    requires FinalOk(s) && StartOk(s) && t < |s.threads| && i < |s.steps| && e.Proceed? && !Refused(s, e)
    requires s.threads[t].InStep? && (e.pc == Idle || e.pc.InStep?) && s.run.phase == Live
    requires e.event.Some? ==> e.event.value == FailSeen || e.event.value == ErrorSeen
    ensures FinalOk(DoStep(s, t, i, e)) && StartOk(DoStep(s, t, i, e))
  {
    if e.event.Some? { FoldOkExtend(s.events, s.verdict, e.event.value); }
  }

  lemma VerdictInvStep(s: State, t: Tid, i: Id, p: StepPc)
    requires Runs.RunInv(s) && Steps.StepInv(s) && VerdictInv(s) && CanStep(s, t) && s.threads[t] == InStep(i, p)
    ensures VerdictInv(DoStep(s, t, i, StepEffect(s, t, i, p)))
  {
    assert Runs.ThreadOk(s.run, t, s.threads[t]);
    assert Steps.ThreadOk(s.steps, t, s.threads[t]);
    StepDebts(s.steps[i], i, p, t, |s.log|, s.run.started);
    var e := StepEffect(s, t, i, p);
    if e.Proceed? && !Refused(s, e) {
      FailureOkStep(s, t, i, e);
      ErrorOkStep(s, t, i, e);
      HistoryOkStep(s, t, i, e);
    }
  }

  // ---- Sections of the run ----

  lemma FailureOkRun(s: State, t: Tid, e: Effect<RunState>)
    requires FailureOk(s) && t < |s.threads| && e.Proceed? && !Refused(s, e)
    requires s.threads[t].InRun? && (e.pc == Idle || e.pc.InRun?)
    requires e.event != Some(FailSeen)
    requires e.emit.Some? ==> !e.emit.value.StepArtifact?
    ensures FailureOk(DoRun(s, t, e))
  {
  }

  lemma RunErrors(r: RunState, p: RunPc, t: Tid, pos: nat, verdict: Calc)
    ensures var e := RunSection(r, p, t, pos, verdict);
            e.Proceed? ==>
              && (e.pc == Idle || e.pc.InRun?)
              && e.event != Some(FailSeen)
              && (e.event.Some? ==> e.emit == None)
              && (e.event == Some(ErrorSeen) <==> p.PreErrorNotify?)
              && (e.emit.Some? ==> (e.emit.value.IsError() <==> p.PreErrorWrite?) && !e.emit.value.StepArtifact?)
              && (e.pc == InRun(PreErrorNotify) <==> p.PreErrorWrite?)
              && (p.PreErrorWrite? ==> e.emit.Some? && e.after == r)
  {
  }

  lemma ErrorOkRun(s: State, t: Tid, e: Effect<RunState>)
    requires LockInv(s) && ErrorOk(s) && t < |s.threads| && e.Proceed? && !Refused(s, e)
    requires s.threads[t].InRun? && (e.pc == Idle || e.pc.InRun?)
    requires e.event.Some? ==> e.emit == None
    requires e.event == Some(ErrorSeen) <==> s.threads[t].run.PreErrorNotify?
    requires e.emit.Some? ==> (e.emit.value.IsError() <==> s.threads[t].run.PreErrorWrite?)
    requires e.pc == InRun(PreErrorNotify) <==> s.threads[t].run.PreErrorWrite?
    requires s.threads[t].run.PreErrorWrite? ==> e.emit.Some? && e.after == s.run
    requires Moves(s.run.lock, e.after.lock, t, HoldsRun(s.threads[t]), HoldsRun(e.pc))
    ensures ErrorOk(DoRun(s, t, e))
  {
    assert HoldsRun(s.threads[t]) <==> s.run.lock == Some(t);
  }

  /** Which sections of the run touch the calculator's history, the phase and the end mark. */
  predicate HistoryEffect(r: RunState, p: RunPc, t: Tid, pos: nat, verdict: Calc, e: Effect<RunState>)
    requires e.Proceed?
  {
    && (e.event == Some(Finalized) <==> p.EndFinalize?)
    && (e.event == Some(StartRun) <==> p.StartNotify?)
    && (e.pc == InRun(EndWrite) <==> p.EndFinalize?) && (e.pc == InRun(EndCleanup) <==> p.EndWrite?)
    && (e.after.phase == Done <==> p.EndCleanup?)
    && (p.EndFinalize? || p.EndWrite? ==> e.after.phase == Ending && e.after.actor == t)
    && (p.EndWrite? || p.EndCleanup? ==> e.event == None)
    && (e.after.endPos == r.endPos || (p.EndWrite? && e.after.endPos == Some(pos) &&
                                       e.emit == Some(RunEnd(verdict.status, verdict.result))))
    && (e.pc.InRun? && e.pc.run.StartWrite? <==> p.StartNotify?)
    && (e.after.started <==> r.started || p.StartWrite?)
    && (e.after.phase == r.phase || p.Guard? || p.EmitSchema? || p.EndCleanup?)
  }

  lemma RunHistory(r: RunState, p: RunPc, t: Tid, pos: nat, verdict: Calc)
    requires Runs.MarksOk(r) && Runs.PhaseOk(r, t, InRun(p)) && Runs.RunPcOk(r, InRun(p))
    ensures var e := RunSection(r, p, t, pos, verdict);
            e.Proceed? ==> HistoryEffect(r, p, t, pos, verdict, e)
  {
  }

  lemma FinalPhaseRun(s: State, t: Tid, p: RunPc, e: Effect<RunState>)
    requires FinalPhase(s) && t < |s.threads| && e.Proceed? && !Refused(s, e)
    requires s.threads[t] == InRun(p) && HistoryEffect(s.run, p, t, |s.log|, s.verdict, e)
    requires Runs.PhaseOk(s.run, t, InRun(p))
    ensures FinalPhase(DoRun(s, t, e))
  {
  }

  lemma StartOkRun(s: State, t: Tid, p: RunPc, e: Effect<RunState>)
    requires StartOk(s) && t < |s.threads| && e.Proceed? && !Refused(s, e)
    requires s.threads[t] == InRun(p) && HistoryEffect(s.run, p, t, |s.log|, s.verdict, e)
    requires Moves(s.run.lock, e.after.lock, t, HoldsRun(InRun(p)), HoldsRun(e.pc))
    requires HoldsRun(InRun(p)) <==> s.run.lock == Some(t)
    ensures StartOk(DoRun(s, t, e))
  {
  }

  lemma DebtsOkRun(s: State, t: Tid, p: RunPc)
    requires LockInv(s) && FailureOk(s) && ErrorOk(s) && CanStep(s, t) && s.threads[t] == InRun(p)
    ensures var e := RunEffect(s, t, p);
            e.Proceed? && !Refused(s, e) ==> FailureOk(DoRun(s, t, e)) && ErrorOk(DoRun(s, t, e))
  {
    var e := RunEffect(s, t, p);
    RunErrors(s.run, p, t, |s.log|, s.verdict);
    RunLockMoves(s.run, p, t, |s.log|, s.verdict);
    if e.Proceed? && !Refused(s, e) {
      FailureOkRun(s, t, e);
      ErrorOkRun(s, t, e);
    }
  }

  lemma FinalOkRun(s: State, t: Tid, p: RunPc, e: Effect<RunState>)
    requires FinalOk(s) && t < |s.threads| && e.Proceed? && !Refused(s, e)
    requires s.threads[t] == InRun(p) && HistoryEffect(s.run, p, t, |s.log|, s.verdict, e)
    requires Runs.PhaseOk(s.run, t, InRun(p))
    ensures FinalOk(DoRun(s, t, e))
  {
    FinalPhaseRun(s, t, p, e);
    if e.event.Some? { FoldOkExtend(s.events, s.verdict, e.event.value); }
  }

  lemma HistoryOkRun(s: State, t: Tid, p: RunPc, e: Effect<RunState>)
    requires LockInv(s) && Runs.RunInv(s) && FinalOk(s) && StartOk(s) && CanStep(s, t) && s.threads[t] == InRun(p)
    requires e == RunEffect(s, t, p) && e.Proceed? && !Refused(s, e)
    ensures FinalOk(DoRun(s, t, e)) && StartOk(DoRun(s, t, e))
  {
    assert Runs.ThreadOk(s.run, t, s.threads[t]);
    assert HistoryEffect(s.run, p, t, |s.log|, s.verdict, e) by { RunHistory(s.run, p, t, |s.log|, s.verdict); }
    FinalOkRun(s, t, p, e);
    assert HoldsRun(s.threads[t]) <==> s.run.lock == Some(t);
    RunLockMoves(s.run, p, t, |s.log|, s.verdict);
    StartOkRun(s, t, p, e);
  }

  lemma VerdictInvRun(s: State, t: Tid, p: RunPc)
    requires LockInv(s) && Runs.RunInv(s) && VerdictInv(s) && CanStep(s, t) && s.threads[t] == InRun(p)
    ensures VerdictInv(DoRun(s, t, RunEffect(s, t, p)))
  {
    var e := RunEffect(s, t, p);
    if e.Proceed? && !Refused(s, e) {
      DebtsOkRun(s, t, p);
      HistoryOkRun(s, t, p, e);
    }
  }

  // ---- Everything else ----

  /** s' differs from s in thread t, which owes nothing before or after, and by a neutral artifact. */
  ghost predicate Neutral(s: State, s': State, t: Tid) {
    && t < |s.threads| == |s'.threads| && s'.threads == s.threads[t := s'.threads[t]]
    && Innocent(s.threads[t]) && Innocent(s'.threads[t])
    && s'.verdict == s.verdict && s'.events == s.events && s'.failure == s.failure && s'.error == s.error
    && (s'.log == s.log ||
        (|s'.log| == |s.log| + 1 && s'.log[..|s.log|] == s.log && !s'.log[|s.log|].IsError() &&
         !s'.log[|s.log|].IsFailDiagnosis()))
    && s'.run.started == s.run.started && s'.run.endPos == s.run.endPos && s'.run.lock == s.run.lock
    && ((s'.run.phase == s.run.phase && s'.run.actor == s.run.actor) ||
        (s.run.phase == Live && s'.run.phase == Ending && !s.verdict.finalized))
  }

  predicate Innocent(pc: Pc) {
    !OwesFailure(pc) && !OwesError(pc) && !HoldsRun(pc) && pc != InRun(EndCleanup)
  }

  lemma NeutralKeeps(s: State, s': State, t: Tid)
    requires VerdictInv(s) && Neutral(s, s', t)
    ensures VerdictInv(s')
  {
    assert forall p | 0 <= p < |s.log| :: s'.log[p] == s'.log[..|s.log|][p] == s.log[p];
    assert FailureOk(s');
    assert ErrorOk(s');
    assert FinalOk(s') && StartOk(s');
  }

  lemma VerdictInvSeriesCommit(s: State, t: Tid, k: Id, e: Effect<SeriesState>)
    requires VerdictInv(s) && t < |s.threads| && k < |s.series| && e.Proceed?
    requires s.threads[t].InSeries? && (e.pc == Idle || e.pc.InSeries?) && e.event == None
    requires e.emit.Some? ==> e.emit.value.StepArtifact? && e.emit.value.body.OfSeries()
    ensures VerdictInv(DoSeries(s, t, k, e))
  {
    NeutralKeeps(s, DoSeries(s, t, k, e), t);
  }

  lemma VerdictInvSeries(s: State, t: Tid, k: Id, p: SeriesPc)
    requires VerdictInv(s) && CanStep(s, t) && s.threads[t] == InSeries(k, p)
    ensures VerdictInv(DoSeries(s, t, k, SeriesEffect(s, t, k, p)))
  {
    var e := SeriesEffect(s, t, k, p);
    Steps.SeriesEmits(s.series[k], k, p, t, |s.log|, s.steps[s.series[k].step].ended);
    if e.Proceed? { VerdictInvSeriesCommit(s, t, k, e); }
  }

  lemma VerdictInvBegin(s: State, t: Tid, pc: Pc)
    requires Runs.RunInv(s) && VerdictInv(s) && Allowed(s, Begin(t, pc))
    ensures VerdictInv(Apply(s, Begin(t, pc)))
  {
    NeutralKeeps(s, Apply(s, Begin(t, pc)), t);
  }

  lemma VerdictInvDraw(s: State, t: Tid)
    requires VerdictInv(s) && CanStep(s, t) && (s.threads[t].NewStep? || s.threads[t].NewSeries?)
    ensures VerdictInv(Step(s, t))
  {
    NeutralKeeps(s, Step(s, t), t);
  }

  lemma VerdictInvLog(s: State, text: string)
    requires VerdictInv(s)
    ensures VerdictInv(s.(log := s.log + [RunLog(text)]))
  {
    var s' := s.(log := s.log + [RunLog(text)]);
    assert FailureOk(s');
    assert ErrorOk(s');
    assert FinalOk(s') && StartOk(s');
  }

  lemma VerdictInvTake(s: State, t: Tid)
    requires LockInv(s) && Runs.RunInv(s) && Steps.StepInv(s) && VerdictInv(s) && CanStep(s, t)
    ensures VerdictInv(Step(s, t))
  {
    match s.threads[t]
    case InRun(p) => VerdictInvRun(s, t, p);
    case InStep(i, p) => VerdictInvStep(s, t, i, p);
    case InSeries(k, p) => VerdictInvSeries(s, t, k, p);
    case NewStep(_) => VerdictInvDraw(s, t);
    case NewSeries(_, _, _, _) => VerdictInvDraw(s, t);
    case Idle =>
  }

  /** The same in everything that the invariant speaks of. */
  predicate SameHistory(s: State, s': State) {
    && s'.log == s.log && s'.events == s.events && s'.verdict == s.verdict && s'.failure == s.failure
    && s'.error == s.error && s'.threads == s.threads && s'.run.started == s.run.started && s'.run.lock == s.run.lock
    && s'.run.phase == s.run.phase && s'.run.actor == s.run.actor && s'.run.endPos == s.run.endPos
  }

  lemma SameHistoryKeeps(s: State, s': State)
    requires VerdictInv(s) && SameHistory(s, s')
    ensures VerdictInv(s')
  {
    assert FailureOk(s');
    assert ErrorOk(s');
    assert FinalOk(s') && StartOk(s');
  }

  /** What happens to DutInfo objects outside the run is nothing to the verdict. */
  lemma VerdictInvDut(s: State, a: Action)
    requires VerdictInv(s) && Allowed(s, a) && (a.NewDut? || a.DropDut?)
    ensures VerdictInv(Apply(s, a))
  {
    SameHistoryKeeps(s, Apply(s, a));
  }

  lemma VerdictInvApply(s: State, a: Action)
    requires LockInv(s) && Runs.RunInv(s) && Steps.StepInv(s) && VerdictInv(s) && Allowed(s, a)
    ensures VerdictInv(Apply(s, a))
  {
    match a
    case Begin(t, pc) => VerdictInvBegin(s, t, pc);
    case Take(t) => VerdictInvTake(s, t);
    case AbslLog(text) => VerdictInvLog(s, text);
    case _ => VerdictInvDut(s, a);
  }
}
