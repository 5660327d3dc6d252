/** Nothing that a caller hands to the results library is lost, altered or written twice, on any schedule. */
module ResultsKept {
  import opened Options
  import opened Artifacts
  import opened ResultCalculator
  import opened ResultsMachine
  import opened ResultsTheorems
  import Steps = ResultsStepInv

  /** What a call asks to be written. */
  datatype Request =
    | SinkOrRunLog(text: string)
    | PreStartError(text: string)
    | StepNamed(name: string)
    | Body(step: Id, body: StepBody)
    | SeriesBegun(validatorType: int, data: string)
    | Element(series: Id, valueType: int, value: string)

  /** The request of a call that has not been written yet. */
  function Pending(pc: Pc): Option<Request> {
    match pc
    case InRun(PreErrorLock(text, _)) => Some(PreStartError(text))
    case InRun(PreErrorWrite(text)) => Some(PreStartError(text))
    case InRun(PreLogLock(text, _, _)) => Some(SinkOrRunLog(text))
    case InRun(PreLogWrite(text, _)) => Some(SinkOrRunLog(text))
    case NewStep(name) => Some(StepNamed(name))
    case InStep(_, CheckStarted(name)) => Some(StepNamed(name))
    case InStep(_, EmitStepStart(name)) => Some(StepNamed(name))
    case InStep(i, Add(body, _)) => Some(Body(i, body))
    case InStep(i, NotifyFail(body)) => Some(Body(i, body))
    case InStep(i, SetError(body)) => Some(Body(i, body))
    case InStep(i, NotifyErr(body)) => Some(Body(i, body))
    case InStep(i, AddLock(body)) => Some(Body(i, body))
    case InStep(i, AddWrite(body)) => Some(Body(i, body))
    case NewSeries(_, ty, data, _) => Some(SeriesBegun(ty, data))
    case InSeries(_, CheckStepActive(ty, data, _)) => Some(SeriesBegun(ty, data))
    case InSeries(_, ValidateStart(ty, data, _)) => Some(SeriesBegun(ty, data))
    case InSeries(_, EmitSeriesStart(ty, data)) => Some(SeriesBegun(ty, data))
    case InSeries(k, ElementType(ty, data)) => Some(Element(k, ty, data))
    case InSeries(k, ElementDraw(ty, data)) => Some(Element(k, ty, data))
    case InSeries(k, ElementLock(ty, _, data)) => Some(Element(k, ty, data))
    case InSeries(k, ElementCheckStep(ty, _, data)) => Some(Element(k, ty, data))
    case InSeries(k, ElementWrite(ty, _, data)) => Some(Element(k, ty, data))
    case _ => None
  }

  /** The request that an artifact answers; the schema version and the starts and ends that the library writes of
      itself answer none. */
  function Answered(a: Artifact): Option<Request> {
    match a
    case RunLog(text) => Some(SinkOrRunLog(text))
    case RunError(text) => Some(PreStartError(text))
    case StepArtifact(_, StepStart(name)) => Some(StepNamed(name))
    case StepArtifact(_, SeriesStart(_, ty, data)) => Some(SeriesBegun(ty, data))
    case StepArtifact(_, SeriesElement(k, _, ty, data)) => Some(Element(k, ty, data))
    case StepArtifact(i, body) => if body.Guarded() then Some(Body(i, body)) else None
    case _ => None
  }

  function Requested(a: Action): Option<Request> {
    match a
    case Begin(_, pc) => Pending(pc)
    case AbslLog(text) => Some(SinkOrRunLog(text))
    case _ => None
  }

  function One(r: Option<Request>, q: Request): nat { if r == Some(q) then 1 else 0 }

  // ---- How often a request is in the log, in progress, and in the schedule ----

  function InLog(log: seq<Artifact>, q: Request): nat {
    if log == [] then 0 else InLog(log[..|log| - 1], q) + One(Answered(log[|log| - 1]), q)
  }

  function InProgress(threads: seq<Pc>, q: Request): nat {
    if threads == [] then 0 else InProgress(threads[..|threads| - 1], q) + One(Pending(threads[|threads| - 1]), q)
  }

  function Asked(actions: seq<Action>, q: Request): nat {
    if actions == [] then 0 else One(Requested(actions[0]), q) + Asked(actions[1..], q)
  }

  lemma {:induction false} InLogAppend(log: seq<Artifact>, a: Artifact, q: Request)
    ensures InLog(log + [a], q) == InLog(log, q) + One(Answered(a), q)
  {
    assert (log + [a])[..|log|] == log;
  }

  lemma {:induction false} InProgressUpdate(threads: seq<Pc>, t: nat, pc: Pc, q: Request)
    requires t < |threads|
    ensures InProgress(threads[t := pc], q) + One(Pending(threads[t]), q) ==
            InProgress(threads, q) + One(Pending(pc), q)
  {
    var n := |threads| - 1;
    if t < n {
      InProgressUpdate(threads[..n], t, pc, q);
      assert threads[t := pc][..n] == threads[..n][t := pc];
    } else {
      assert threads[t := pc][..n] == threads[..n];
    }
  }

  lemma {:induction false} NothingInProgress(threads: seq<Pc>, q: Request)
    requires forall t | 0 <= t < |threads| :: threads[t] == Idle
    ensures InProgress(threads, q) == 0
  {
    if threads != [] { NothingInProgress(threads[..|threads| - 1], q); }
  }

  // ---- Every section carries its request on, or writes it ----

  predicate Passes(pc: Pc, pc': Pc, emit: Option<Artifact>) {
    if emit == None then Pending(pc') == Pending(pc)
    else Pending(pc') == None && Answered(emit.value) == Pending(pc)
  }

  lemma {:induction false} RunPasses(r: RunState, p: RunPc, t: Tid, pos: nat, verdict: Calc)
    ensures var e := RunSection(r, p, t, pos, verdict); e.Proceed? ==> Passes(InRun(p), e.pc, e.emit)
  {
  }

  lemma {:induction false} StepPasses(st: StepState, i: Id, p: StepPc, t: Tid, pos: nat, started: bool)
    requires (p.AddLock? || p.AddWrite?) ==> p.body.Guarded()
    ensures var e := StepSection(st, i, p, t, pos, started); e.Proceed? ==> Passes(InStep(i, p), e.pc, e.emit)
  {
  }

  lemma {:induction false} SeriesPasses(m: SeriesState, k: Id, p: SeriesPc, t: Tid, pos: nat, ended: bool)
    ensures var e := SeriesSection(m, k, p, t, pos, ended); e.Proceed? ==> Passes(InSeries(k, p), e.pc, e.emit)
  {
  }

  /** What is in the log or in progress. */
  function Held(s: State, q: Request): nat { InLog(s.log, q) + InProgress(s.threads, q) }

  lemma {:induction false} Carried(s: State, s': State, t: Tid, pc: Pc, emit: Option<Artifact>, q: Request)
    requires t < |s.threads| && s'.threads == s.threads[t := pc] && Passes(s.threads[t], pc, emit)
    requires s'.log == if emit.Some? then s.log + [emit.value] else s.log
    ensures Held(s', q) == Held(s, q)
  {
    InProgressUpdate(s.threads, t, pc, q);
    if emit.Some? { InLogAppend(s.log, emit.value, q); }
  }

  /** A failed CHECK leaves everything where it is. */
  lemma {:induction false} HaltHolds(s: State, q: Request)
    ensures Held(Halt(s), q) == Held(s, q)
  {
  }

  lemma {:induction false} RunHolds(s: State, t: Tid, p: RunPc, q: Request)
    requires CanStep(s, t) && s.threads[t] == InRun(p)
    ensures Held(DoRun(s, t, RunEffect(s, t, p)), q) == Held(s, q)
  {
    var e := RunEffect(s, t, p);
    RunPasses(s.run, p, t, |s.log|, s.verdict);
    if e.Proceed? && !Refused(s, e) { Carried(s, DoRun(s, t, e), t, e.pc, e.emit, q); }
  }

  lemma {:induction false} StepHolds(s: State, t: Tid, i: Id, p: StepPc, q: Request)
    requires Steps.StepInv(s) && CanStep(s, t) && s.threads[t] == InStep(i, p)
    ensures Held(DoStep(s, t, i, StepEffect(s, t, i, p)), q) == Held(s, q)
  {
    var e := StepEffect(s, t, i, p);
    assert Steps.ThreadOk(s.steps, t, s.threads[t]);
    StepPasses(s.steps[i], i, p, t, |s.log|, s.run.started);
    if e.Proceed? && !Refused(s, e) { Carried(s, DoStep(s, t, i, e), t, e.pc, e.emit, q); }
  }

  lemma {:induction false} SeriesHolds(s: State, t: Tid, k: Id, p: SeriesPc, q: Request)
    requires CanStep(s, t) && s.threads[t] == InSeries(k, p)
    ensures Held(DoSeries(s, t, k, SeriesEffect(s, t, k, p)), q) == Held(s, q)
  {
    var e := SeriesEffect(s, t, k, p);
    SeriesPasses(s.series[k], k, p, t, |s.log|, s.steps[s.series[k].step].ended);
    if e.Proceed? && !Refused(s, e) { Carried(s, DoSeries(s, t, k, e), t, e.pc, e.emit, q); }
  }

  lemma {:induction false} TakeHolds(s: State, t: Tid, q: Request)
    requires Steps.StepInv(s) && CanStep(s, t)
    ensures Held(Step(s, t), q) == Held(s, q)
  {
    match s.threads[t]
    case InRun(p) => RunHolds(s, t, p, q);
    case InStep(i, p) => StepHolds(s, t, i, p, q);
    case InSeries(k, p) => SeriesHolds(s, t, k, p, q);
    case NewStep(name) => Carried(s, Step(s, t), t, InStep(|s.steps|, CheckStarted(name)), None, q);
    case NewSeries(i, ty, data, valid) =>
      Carried(s, Step(s, t), t, InSeries(|s.series|, CheckStepActive(ty, data, valid)), None, q);
    case Idle =>
  }

  lemma {:induction false} BeginHolds(s: State, t: Tid, pc: Pc, q: Request)
    requires Allowed(s, Begin(t, pc))
    ensures Held(Apply(s, Begin(t, pc)), q) == Held(s, q) + One(Pending(pc), q)
  {
    InProgressUpdate(s.threads, t, pc, q);
    assert Pending(Idle) == None;
  }

  /** Abseil logging and the DutInfo objects of callers. */
  lemma {:induction false} EnvironmentHolds(s: State, a: Action, q: Request)
    requires Allowed(s, a) && !a.Begin? && !a.Take?
    ensures Held(Apply(s, a), q) == Held(s, q) + One(Requested(a), q)
  {
    var s' := Apply(s, a);
    assert s'.threads == s.threads;
    if a.AbslLog? {
      InLogAppend(s.log, RunLog(a.text), q);
    } else {
      assert s'.log == s.log;
    }
  }

  lemma {:induction false} ApplyHolds(s: State, a: Action, q: Request)
    requires Steps.StepInv(s) && Allowed(s, a)
    ensures Held(Apply(s, a), q) == Held(s, q) + One(Requested(a), q)
  {
    if a.Begin? { BeginHolds(s, a.t, a.pc, q); } else if a.Take? { TakeHolds(s, a.t, q); } else { EnvironmentHolds(s, a, q); }
  }

  lemma {:induction false} ExecHolds(s: State, actions: seq<Action>, q: Request)
    requires Inv(s) && Exec(s, actions).Some?
    ensures Held(Exec(s, actions).value, q) == Held(s, q) + Asked(actions, q)
    decreases |actions|
  {
    if actions != [] {
      InvApply(s, actions[0]);
      ApplyHolds(s, actions[0], q);
      ExecHolds(Apply(s, actions[0]), actions[1..], q);
    }
  }

  /** On every schedule and at every moment, what has been asked for is in the log as often as it was asked for, but
      for the calls still in progress (or in which a CHECK failed); once all threads are idle, exactly as often. */
  lemma {:induction false} EveryRequestIsKept(n: nat, actions: seq<Action>, q: Request)
    requires Exec(Init(n), actions).Some?
    ensures var s := Exec(Init(n), actions).value;
            && InLog(s.log, q) + InProgress(s.threads, q) == Asked(actions, q)
            && ((forall t | 0 <= t < |s.threads| :: s.threads[t] == Idle) ==> InLog(s.log, q) == Asked(actions, q))
  {
    var s := Exec(Init(n), actions).value;
    InvInit(n);
    ExecHolds(Init(n), actions, q);
    NothingInProgress(Init(n).threads, q);
    if forall t | 0 <= t < |s.threads| :: s.threads[t] == Idle { NothingInProgress(s.threads, q); }
  }
}
