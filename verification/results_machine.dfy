/** The results library as a transition system: any number of threads call one TestRun and any number
    of TestSteps and MeasurementSeries, and every critical section is one atomic step. The mutexes of
    the run, of each step and of each series have an owner, because calls hold them across other
    critical sections; the counters, the calculator, the writer and the singleton guards are only
    ever locked for one section, so that section is the step. A failed CHECK halts the program. */
module ResultsMachine {
  import opened Options
  import opened Artifacts
  import opened ResultCalculator

  type Tid = nat

  // ---- Program counters: the next critical section of the call a thread is in ----

  datatype RunPc =
    | Guard(logToResults: bool, valid: bool)
    | RegisterSink(logToResults: bool, valid: bool)
    | EmitSchema(valid: bool)
    | PreErrorLock(text: string, valid: bool)
    | PreErrorWrite(text: string)
    | PreErrorNotify
    | PreLogLock(text: string, valid: bool, fatal: bool)
    | PreLogWrite(text: string, fatal: bool)
    | StartLock(dut: Option<nat>)
    | StartNotify(owned: nat)
    | StartWrite(owned: nat)
    | SkipNotify
    | EndLock
    | EndStart
    | EndFinalize
    | EndWrite
    | EndCleanup

  datatype StepPc =
    | CheckStarted(name: string)
    | EmitStepStart(name: string)
    | Add(body: StepBody, valid: bool)
    | NotifyFail(body: StepBody)
    | SetError(body: StepBody)
    | NotifyErr(body: StepBody)
    | AddLock(body: StepBody)
    | AddWrite(body: StepBody)
    | SetSkip
    | StepEndLock
    | StepEndWrite

  datatype SeriesPc =
    | CheckStepActive(validatorType: int, data: string, valid: bool)
    | ValidateStart(validatorType: int, data: string, valid: bool)
    | EmitSeriesStart(validatorType: int, data: string)
    | ElementType(valueType: nat, data: string)
    | ElementDraw(valueType: nat, data: string)
    | ElementLock(valueType: nat, index: nat, data: string)
    | ElementCheckStep(valueType: nat, index: nat, data: string)
    | ElementWrite(valueType: nat, index: nat, data: string)
    | SeriesEndLock
    | SeriesEndCheckStep
    | SeriesEndDraw
    | SeriesEndWrite(total: nat)

  datatype Pc =
    | Idle
    | InRun(run: RunPc)
    | NewStep(name: string)
    | InStep(step: Id, sp: StepPc)
    | NewSeries(step: Id, validatorType: int, data: string, valid: bool)
    | InSeries(series: Id, mp: SeriesPc)

  // ---- State. Fields under "history" record what happened and are never read by a step. ----

  /** Where an obligation to log something stands: not yet incurred, owed by a thread, or met. */
  datatype Debt = Never | OwedBy(t: Tid) | Met(pos: nat)

  /** What became of a value drawn from a series' element counter. */
  datatype Fate = HeldBy(t: Tid) | LoggedAt(pos: nat) | Total

  datatype StepState = StepState(
    ready: bool,
    ended: bool,
    status: TestStatus,
    lock: Option<Tid>,
    // history
    builder: Tid,
    startPos: Option<nat>,
    endPos: Option<nat>,
    error: Debt)

  datatype SeriesState = SeriesState(
    step: Id,
    ready: bool,
    ended: bool,
    typeIndex: int,
    count: nat,
    lock: Option<Tid>,
    // history
    builder: Tid,
    startPos: Option<nat>,
    endPos: Option<nat>,
    fate: seq<Fate>,
    total: Option<nat>)

  datatype Phase = NotBuilt | Building | Live | Ending | Done

  /** Who owns a DutInfo object: the caller, a StartAndRegisterDutInfo in progress, the run, or nobody. */
  datatype DutOwner = ByCaller | InCall(t: Tid) | ByRun | Gone

  /** The TestRun object together with the two process-wide singleton guards. */
  datatype RunState = RunState(
    initialized: bool,
    sink: bool,
    started: bool,
    dut: Option<nat>,
    lock: Option<Tid>,
    owners: seq<DutOwner>,
    dutSingleton: bool,
    // history
    phase: Phase,
    actor: Tid,
    schemaPos: Option<nat>,
    startPos: Option<nat>,
    endPos: Option<nat>,
    liveDut: Option<nat>)

  datatype State = State(
    log: seq<Artifact>,
    verdict: Calc,
    run: RunState,
    steps: seq<StepState>,
    series: seq<SeriesState>,
    threads: seq<Pc>,
    halted: bool,
    // history
    events: seq<Event>,
    failure: Debt,
    error: Debt)

  const InitialRun := RunState(false, false, false, None, None, [], false, NotBuilt, 0, None, None, None, None)

  function Init(threads: nat): State {
    State([], InitialCalc, InitialRun, [], [], seq(threads, _ => Idle), false, [], Never, Never)
  }

  /** What one critical section does: end the program on a failed CHECK, or replace the object it works
      on, move to the next section, and possibly write an artifact or notify the calculator. `fatal`
      ends the program after that. */
  datatype Effect<O> =
    | Abort
    | Proceed(after: O, pc: Pc, emit: Option<Artifact>, event: Option<Event>, fatal: bool)

  function Quietly<O>(o: O, pc: Pc): Effect<O> { Proceed(o, pc, None, None, false) }

  function Writing<O>(o: O, pc: Pc, a: Artifact): Effect<O> { Proceed(o, pc, Some(a), None, false) }

  function Telling<O>(o: O, pc: Pc, e: Event): Effect<O> { Proceed(o, pc, None, Some(e), false) }

  // ---- TestRun (test_run.cc) and DutInfo (dut_info.cc) ----

  /** Destroys the DutInfo a unique_ptr owns, if it owns one. */
  function FreeDut(r: RunState): RunState {
    if r.dut == None then r
    else r.(owners := if r.dut.value < |r.owners| then r.owners[r.dut.value := Gone] else r.owners,
            dutSingleton := false, liveDut := None, dut := None)
  }

  /** dut_info_ = std::move(dut_info): what was there is destroyed. */
  function AdoptDut(r: RunState, d: nat): RunState {
    var f := FreeDut(r);
    f.(owners := if d < |f.owners| then f.owners[d := ByRun] else f.owners, dut := Some(d))
  }

  /** One section of a call on the run; `pos` is the sequence number the next artifact gets. */
  function RunSection(r: RunState, p: RunPc, t: Tid, pos: nat, verdict: Calc): Effect<RunState> {
    match p
    case Guard(logToResults, valid) =>
      if r.initialized then Abort
      else Quietly(r.(initialized := true, phase := Building, actor := t), InRun(RegisterSink(logToResults, valid)))
    case RegisterSink(logToResults, valid) =>
      Quietly(r.(sink := logToResults), InRun(EmitSchema(valid)))
    case EmitSchema(valid) =>
      if !valid then Abort
      else Writing(r.(phase := Live, schemaPos := Some(pos)), Idle,
                   Schema(MAJOR_SCHEMA_VERSION, MINOR_SCHEMA_VERSION))
    case PreErrorLock(text, valid) =>
      if r.started || !valid then Abort else Quietly(r.(lock := Some(t)), InRun(PreErrorWrite(text)))
    case PreErrorWrite(text) =>
      Writing(r, InRun(PreErrorNotify), RunError(text))
    case PreErrorNotify =>
      Telling(r.(lock := None), Idle, ErrorSeen)
    case PreLogLock(text, valid, fatal) =>
      if r.started || !valid then Abort else Quietly(r.(lock := Some(t)), InRun(PreLogWrite(text, fatal)))
    case PreLogWrite(text, fatal) =>
      Proceed(r.(lock := None), Idle, Some(RunLog(text)), None, fatal)
    case StartLock(dut) =>
      if dut == None then Abort else Quietly(r.(lock := Some(t)), InRun(StartNotify(dut.value)))
    case StartNotify(owned) =>
      Telling(r, InRun(StartWrite(owned)), StartRun)
    case StartWrite(owned) =>
      Writing(AdoptDut(r, owned).(started := true, lock := None, startPos := Some(pos)), Idle, RunStart(true))
    case SkipNotify =>
      Telling(r, Idle, SkipRun)
    case EndLock =>
      Quietly(r.(lock := Some(t)), InRun(if r.started then EndFinalize else EndStart))
    case EndStart =>
      Writing(r.(startPos := Some(pos)), InRun(EndFinalize), RunStart(r.dut.Some?))
    case EndFinalize =>
      Telling(r, InRun(EndWrite), Finalized)
    case EndWrite =>
      Writing(r.(lock := None, endPos := Some(pos)), InRun(EndCleanup), RunEnd(verdict.status, verdict.result))
    case EndCleanup =>
      // The log sink and the guard go, and with the members the DutInfo the run owns.
      Quietly(FreeDut(r).(sink := false, initialized := false, phase := Done), Idle)
  }

  // ---- TestStep (test_step.cc) ----

  function EndStatus(status: TestStatus): TestStatus { if status == Unknown then Complete else status }

  function SkipStatus(status: TestStatus): TestStatus { if status == Unknown then Skip else status }

  /** The section that AddX runs first, after its argument is validated. */
  function AfterValidation(body: StepBody): StepPc {
    if body.FailDiagnosis() then NotifyFail(body)
    else if body.ErrorBody? then SetError(body)
    else AddLock(body)
  }

  function Owe(d: Debt, t: Tid): Debt { if d == Never then OwedBy(t) else d }

  /** One section of a call on step i. */
  function StepSection(st: StepState, i: Id, p: StepPc, t: Tid, pos: nat, runStarted: bool): Effect<StepState> {
    match p
    case CheckStarted(name) =>
      if !runStarted then Abort else Quietly(st, InStep(i, EmitStepStart(name)))
    case EmitStepStart(name) =>
      if name == "" then Abort
      else Writing(st.(ready := true, startPos := Some(pos)), Idle, StepArtifact(i, StepStart(name)))
    case Add(body, valid) =>
      if !valid then Abort else Quietly(st, InStep(i, AfterValidation(body)))
    case NotifyFail(body) =>
      Telling(st, InStep(i, AddLock(body)), FailSeen)
    case SetError(body) =>
      Quietly(st.(status := Error, error := Owe(st.error, t)), InStep(i, NotifyErr(body)))
    case NotifyErr(body) =>
      Telling(st, InStep(i, AddLock(body)), ErrorSeen)
    case AddLock(body) =>
      if st.ended then Abort else Quietly(st.(lock := Some(t)), InStep(i, AddWrite(body)))
    case AddWrite(body) =>
      Proceed(st.(lock := None, error := if body.ErrorBody? then Met(pos) else st.error),
              Idle, Some(StepArtifact(i, body)), None, body.Log? && body.fatal)
    case SetSkip =>
      Quietly(st.(status := SkipStatus(st.status)), InStep(i, StepEndLock))
    case StepEndLock =>
      if st.ended then Quietly(st, Idle)
      else Quietly(st.(ended := true, status := EndStatus(st.status), lock := Some(t)), InStep(i, StepEndWrite))
    case StepEndWrite =>
      Writing(st.(lock := None, endPos := Some(pos)), Idle, StepArtifact(i, StepEnd(st.status)))
  }

  // ---- MeasurementSeries (measurement_series.cc) ----

  /** One section of a call on series k; `stepEnded` is what TestStep::Ended returns there. */
  function SeriesSection(m: SeriesState, k: Id, p: SeriesPc, t: Tid, pos: nat, stepEnded: bool): Effect<SeriesState> {
    match p
    case CheckStepActive(ty, data, valid) =>
      if stepEnded then Abort else Quietly(m, InSeries(k, ValidateStart(ty, data, valid)))
    case ValidateStart(ty, data, valid) =>
      if !valid then Abort
      else Quietly(m.(typeIndex := if ty >= 0 then ty else m.typeIndex), InSeries(k, EmitSeriesStart(ty, data)))
    case EmitSeriesStart(ty, data) =>
      Writing(m.(ready := true, startPos := Some(pos)), Idle, StepArtifact(m.step, SeriesStart(k, ty, data)))
    case ElementType(ty, data) =>
      if m.typeIndex != -1 && m.typeIndex != ty then Abort
      else Quietly(m.(typeIndex := ty), InSeries(k, ElementDraw(ty, data)))
    case ElementDraw(ty, data) =>
      Quietly(m.(count := m.count + 1, fate := m.fate + [HeldBy(t)]), InSeries(k, ElementLock(ty, m.count, data)))
    case ElementLock(ty, index, data) =>
      Quietly(m.(lock := Some(t)), InSeries(k, ElementCheckStep(ty, index, data)))
    case ElementCheckStep(ty, index, data) =>
      if stepEnded then Abort else Quietly(m, InSeries(k, ElementWrite(ty, index, data)))
    case ElementWrite(ty, index, data) =>
      if m.ended then Abort
      else Writing(m.(lock := None, fate := if index < |m.fate| then m.fate[index := LoggedAt(pos)] else m.fate),
                   Idle, StepArtifact(m.step, SeriesElement(k, index, ty, data)))
    case SeriesEndLock =>
      if m.ended then Quietly(m, Idle) else Quietly(m.(lock := Some(t)), InSeries(k, SeriesEndCheckStep))
    case SeriesEndCheckStep =>
      // A step that has ended only draws a message on std::cerr.
      Quietly(m, InSeries(k, SeriesEndDraw))
    case SeriesEndDraw =>
      Quietly(m.(ended := true, count := m.count + 1, fate := m.fate + [Total], total := Some(m.count)),
              InSeries(k, SeriesEndWrite(m.count)))
    case SeriesEndWrite(total) =>
      Writing(m.(lock := None, endPos := Some(pos)), Idle, StepArtifact(m.step, SeriesEnd(k, total)))
  }

  // ---- Carrying out a section ----

  function Halt(s: State): State { s.(halted := true) }

  /** The calculator refuses events once the verdict is final. */
  predicate Refused(s: State, e: Effect) { e.Proceed? && e.event.Some? && Notify(s.verdict, e.event.value) == None }

  function Pay(d: Debt, met: bool, pos: nat): Debt { if met then Met(pos) else d }

  /** The log, the verdict and the thread after an effect. ArtifactWriter::Write appends under the
      writer's mutex, so the position in the log is the sequence number. */
  function Commit<O>(s: State, t: Tid, e: Effect<O>): State
    requires t < |s.threads| && e.Proceed? && !Refused(s, e)
  {
    var pos := |s.log|;
    s.(log := if e.emit.Some? then s.log + [e.emit.value] else s.log,
       verdict := if e.event.Some? then Notify(s.verdict, e.event.value).value else s.verdict,
       threads := s.threads[t := e.pc],
       halted := e.fatal,
       events := if e.event.Some? then s.events + [e.event.value] else s.events,
       failure := if e.event == Some(FailSeen) then Owe(s.failure, t)
                  else Pay(s.failure, e.emit.Some? && e.emit.value.IsFailDiagnosis(), pos),
       error := if e.event == Some(ErrorSeen) then Owe(s.error, t)
                else Pay(s.error, e.emit.Some? && e.emit.value.IsError(), pos))
  }

  // ---- One step of a thread ----

  /** Every object a program counter names exists. */
  predicate InRange(s: State, pc: Pc) {
    match pc
    case InStep(i, _) => i < |s.steps|
    case NewSeries(i, _, _, _) => i < |s.steps|
    case InSeries(k, _) => k < |s.series| && s.series[k].step < |s.steps|
    case _ => true
  }

  /** The mutexes the next section of thread t has to acquire are free. */
  predicate Unblocked(s: State, t: Tid)
    requires t < |s.threads| && InRange(s, s.threads[t])
  {
    match s.threads[t]
    case InRun(p) =>
      p.PreErrorLock? || p.PreLogLock? || p.StartLock? || p.EndLock? ==> s.run.lock == None
    case InStep(i, p) =>
      && (p.CheckStarted? ==> s.run.lock == None)
      && (p.SetError? || p.AddLock? || p.SetSkip? || p.StepEndLock? ==> s.steps[i].lock == None)
    case InSeries(k, p) =>
      && (p.CheckStepActive? || p.ElementCheckStep? || p.SeriesEndCheckStep? ==>
            s.steps[s.series[k].step].lock == None)
      && (p.ValidateStart? || p.ElementType? || p.ElementLock? || p.SeriesEndLock? ==> s.series[k].lock == None)
    case _ => true
  }

  predicate CanStep(s: State, t: Tid) {
    !s.halted && t < |s.threads| && s.threads[t] != Idle && InRange(s, s.threads[t]) && Unblocked(s, t)
  }

  function RunEffect(s: State, t: Tid, p: RunPc): Effect<RunState> {
    RunSection(s.run, p, t, |s.log|, s.verdict)
  }

  function StepEffect(s: State, t: Tid, i: Id, p: StepPc): Effect<StepState>
    requires i < |s.steps|
  {
    StepSection(s.steps[i], i, p, t, |s.log|, s.run.started)
  }

  function SeriesEffect(s: State, t: Tid, k: Id, p: SeriesPc): Effect<SeriesState>
    requires k < |s.series| && s.series[k].step < |s.steps|
  {
    SeriesSection(s.series[k], k, p, t, |s.log|, s.steps[s.series[k].step].ended)
  }

  function DoRun(s: State, t: Tid, e: Effect<RunState>): State
    requires t < |s.threads|
  {
    if e.Abort? || Refused(s, e) then Halt(s) else Commit(s, t, e).(run := e.after)
  }

  function DoStep(s: State, t: Tid, i: Id, e: Effect<StepState>): State
    requires t < |s.threads| && i < |s.steps|
  {
    if e.Abort? || Refused(s, e) then Halt(s) else Commit(s, t, e).(steps := s.steps[i := e.after])
  }

  function DoSeries(s: State, t: Tid, k: Id, e: Effect<SeriesState>): State
    requires t < |s.threads| && k < |s.series|
  {
    if e.Abort? || Refused(s, e) then Halt(s) else Commit(s, t, e).(series := s.series[k := e.after])
  }

  /** GetNextStepId in the constructor of a step. */
  function DrawStep(s: State, t: Tid, name: string): State
    requires t < |s.threads|
  {
    s.(steps := s.steps + [StepState(false, false, Unknown, None, t, None, None, Never)],
       threads := s.threads[t := InStep(|s.steps|, CheckStarted(name))])
  }

  /** GetNextMeasurementSeriesId in the constructor of a series of step i. */
  function DrawSeries(s: State, t: Tid, i: Id, ty: int, data: string, valid: bool): State
    requires t < |s.threads|
  {
    s.(series := s.series + [SeriesState(i, false, false, -1, 0, None, t, None, None, [], None)],
       threads := s.threads[t := InSeries(|s.series|, CheckStepActive(ty, data, valid))])
  }

  function Step(s: State, t: Tid): State
    requires CanStep(s, t)
  {
    match s.threads[t]
    case Idle => s
    case InRun(p) => DoRun(s, t, RunEffect(s, t, p))
    case NewStep(name) => DrawStep(s, t, name)
    case InStep(i, p) => DoStep(s, t, i, StepEffect(s, t, i, p))
    case NewSeries(i, ty, data, valid) => DrawSeries(s, t, i, ty, data, valid)
    case InSeries(k, p) => DoSeries(s, t, k, SeriesEffect(s, t, k, p))
  }

  // ---- What the environment may do ----

  datatype Action =
    | Begin(t: Tid, pc: Pc)          // an idle thread calls the library
    | Take(t: Tid)                   // a thread runs its next critical section
    | AbslLog(text: string)          // some thread logs through Abseil while the sink is registered
    | NewDut(named: bool)            // DutInfo constructor
    | DropDut(d: nat)                // DutInfo destructor, by the caller that still owns it

  /** The calls of the public interface, and when its contract allows them: a run is used between its
      constructor and its destructor, the destructor does not race with other calls, and a step or a
      series is used once its constructor has returned. */
  predicate CallAllowed(s: State, t: Tid, pc: Pc) {
    match pc
    case InRun(Guard(_, _)) => s.run.phase == NotBuilt || s.run.phase == Building || s.run.phase == Live
    case InRun(PreErrorLock(_, _)) => s.run.phase == Live
    case InRun(PreLogLock(_, _, _)) => s.run.phase == Live
    case InRun(StartLock(dut)) =>
      s.run.phase == Live && (dut.Some? ==> dut.value < |s.run.owners| && s.run.owners[dut.value] == ByCaller)
    case InRun(SkipNotify) => s.run.phase == Live
    case InRun(EndLock) => s.run.phase == Live && forall u | 0 <= u < |s.threads| :: s.threads[u] == Idle
    case NewStep(_) => s.run.phase == Live
    case InStep(i, Add(body, _)) => s.run.phase == Live && i < |s.steps| && s.steps[i].ready && body.Guarded()
    case InStep(i, SetSkip) => s.run.phase == Live && i < |s.steps| && s.steps[i].ready
    case InStep(i, StepEndLock) => s.run.phase == Live && i < |s.steps| && s.steps[i].ready
    case NewSeries(i, ty, _, _) => s.run.phase == Live && i < |s.steps| && s.steps[i].ready && ty >= -1
    case InSeries(k, ElementType(_, _)) => s.run.phase == Live && k < |s.series| && s.series[k].ready
    case InSeries(k, SeriesEndLock) => s.run.phase == Live && k < |s.series| && s.series[k].ready
    case _ => false
  }

  predicate Allowed(s: State, a: Action) {
    !s.halted &&
    match a
    case Begin(t, pc) => t < |s.threads| && s.threads[t] == Idle && CallAllowed(s, t, pc)
    case Take(t) => CanStep(s, t)
    case AbslLog(_) => s.run.sink
    case NewDut(_) => true
    case DropDut(d) => d < |s.run.owners| && s.run.owners[d] == ByCaller
  }

  /** What a call does to the run before its first section: the destructor opens the end of the
      lifetime, and a DutInfo passed by value leaves its caller. */
  function Enter(r: RunState, t: Tid, pc: Pc): RunState {
    if pc == InRun(EndLock) then r.(phase := Ending, actor := t)
    else if pc.InRun? && pc.run.StartLock? && pc.run.dut.Some? && pc.run.dut.value < |r.owners|
    then r.(owners := r.owners[pc.run.dut.value := InCall(t)])
    else r
  }

  function Apply(s: State, a: Action): State
    requires Allowed(s, a)
  {
    match a
    case Begin(t, pc) => s.(threads := s.threads[t := pc], run := Enter(s.run, t, pc))
    case Take(t) => Step(s, t)
    case AbslLog(text) => s.(log := s.log + [RunLog(text)])
    case NewDut(named) =>
      if !named || s.run.dutSingleton then Halt(s)
      else s.(run := s.run.(owners := s.run.owners + [ByCaller], dutSingleton := true, liveDut := Some(|s.run.owners|)))
    case DropDut(d) =>
      s.(run := s.run.(owners := s.run.owners[d := Gone], dutSingleton := false, liveDut := None))
  }

  /** The state after a whole run of the system, or None when some action was not allowed. */
  function Exec(s: State, actions: seq<Action>): Option<State>
    decreases |actions|
  {
    if actions == [] then Some(s)
    else if Allowed(s, actions[0]) then Exec(Apply(s, actions[0]), actions[1..])
    else None
  }

  /** s is reached by some schedule of n threads. */
  ghost predicate Reachable(n: nat, s: State) {
    exists actions :: Exec(Init(n), actions) == Some(s)
  }
}
