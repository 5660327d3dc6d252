/** What each call of the results library amounts to when nothing interrupts it. ResultsCalls proves that the
    transition system takes these outcomes, ResultsObjects that the objects do. */
module CallOutcomes {
  import opened Options
  import opened Artifacts
  import opened ResultCalculator
  import opened ResultsMachine

  /** A call that does not complete has failed a CHECK; a fatal one ends the program once it has completed. The
      object and the verdict are those of a completed call. */
  datatype Outcome<O> = Outcome(completes: bool, fatal: bool, wrote: seq<Artifact>, after: O, verdict: Calc) {
    predicate Alive() { completes && !fatal }
  }

  function Completes<O>(after: O, verdict: Calc, wrote: seq<Artifact>): Outcome<O> {
    Outcome(true, false, wrote, after, verdict)
  }

  function Dies<O>(after: O, verdict: Calc, wrote: seq<Artifact>): Outcome<O> {
    Outcome(false, false, wrote, after, verdict)
  }

  // ---- The fields that calls read and write ----

  datatype RunFields = RunFields(initialized: bool, sink: bool, started: bool, hasDut: bool)

  datatype StepFields = StepFields(status: TestStatus, ended: bool)

  datatype SeriesFields = SeriesFields(typeIndex: int, count: nat, ended: bool)

  function FieldsOfRun(r: RunState): RunFields { RunFields(r.initialized, r.sink, r.started, r.dut.Some?) }

  function FieldsOfStep(st: StepState): StepFields { StepFields(st.status, st.ended) }

  function FieldsOfSeries(m: SeriesState): SeriesFields { SeriesFields(m.typeIndex, m.count, m.ended) }

  // ---- TestRun ----

  /** The constructor: the guard, the log sink, validation, and the schema version. */
  function NewRun(r: RunFields, logToResults: bool, valid: bool, c: Calc): Outcome<RunFields> {
    if r.initialized || !valid then Dies(r, c, [])
    else Completes(r.(initialized := true, sink := logToResults), c, [Schema(2, 0)])
  }

  /** Refused once the run is started; the error is written before it is notified. */
  function PreStartError(r: RunFields, text: string, valid: bool, c: Calc): Outcome<RunFields> {
    if r.started || !valid then Dies(r, c, [])
    else if c.finalized then Dies(r, c, [RunError(text)])
    else Completes(r, Notify(c, ErrorSeen).value, [RunError(text)])
  }

  function PreStartLog(r: RunFields, text: string, valid: bool, fatal: bool, c: Calc): Outcome<RunFields> {
    if r.started || !valid then Dies(r, c, []) else Outcome(true, fatal, [RunLog(text)], r, c)
  }

  /** Does not ask whether the run is started. */
  function Start(r: RunFields, given: bool, c: Calc): Outcome<RunFields> {
    if !given || c.finalized then Dies(r, c, [])
    else Completes(r.(started := true, hasDut := true), Notify(c, StartRun).value, [RunStart(true)])
  }

  function SkipWholeRun(r: RunFields, c: Calc): Outcome<RunFields> {
    if c.finalized then Dies(r, c, []) else Completes(r, Notify(c, SkipRun).value, [])
  }

  /** The destructor: a run that was never started is given a start first; then the verdict is final, the end
      carries it, and the sink and the guard are free again. */
  function EndRun(r: RunFields, c: Calc): Outcome<RunFields> {
    var start := if r.started then [] else [RunStart(r.hasDut)];
    if c.finalized then Dies(r, c, start) else
    var verdict := Notify(c, Finalized).value;
    Completes(RunFields(false, false, r.started, false), verdict, start + [RunEnd(verdict.status, verdict.result)])
  }

  // ---- TestStep ----

  function NewStepOf(started: bool, i: Id, name: string, c: Calc): Outcome<StepFields> {
    var fields := StepFields(Unknown, false);
    if !started || name == "" then Dies(fields, c, []) else Completes(fields, c, [StepArtifact(i, StepStart(name))])
  }

  /** The calculator's answer to an artifact that a step adds. */
  function Judged(verdict: Calc, body: StepBody): Option<Calc> {
    if body.Diagnosis? && body.fail then Notify(verdict, FailSeen)
    else if body.ErrorBody? then Notify(verdict, ErrorSeen)
    else Some(verdict)
  }

  /** AddMeasurement, AddDiagnosis, AddError, AddFile, AddLog and AddExtension. */
  function AddToStep(st: StepFields, i: Id, body: StepBody, valid: bool, c: Calc): Outcome<StepFields> {
    if !valid || Judged(c, body) == None || st.ended then Dies(st, c, [])
    else Outcome(true, body.Log? && body.fatal, [StepArtifact(i, body)],
                 if body.ErrorBody? then st.(status := Error) else st, Judged(c, body).value)
  }

  /** The status is written once; a step that has none is complete. */
  function EndStep(st: StepFields, i: Id, c: Calc): Outcome<StepFields> {
    if st.ended then Completes(st, c, []) else
    var status := if st.status == Unknown then Complete else st.status;
    Completes(StepFields(status, true), c, [StepArtifact(i, StepEnd(status))])
  }

  /** A step that has no status yet becomes skipped before it ends. */
  function SkipStep(st: StepFields, i: Id, c: Calc): Outcome<StepFields> {
    EndStep(if st.status == Unknown then st.(status := Skip) else st, i, c)
  }

  // ---- MeasurementSeries ----

  /** The type is -1 when there are no validators. */
  function NewSeriesOf(stepEnded: bool, i: Id, k: Id, ty: int, data: string, valid: bool, c: Calc):
    Outcome<SeriesFields>
  {
    var fields := SeriesFields(ty, 0, false);
    if stepEnded || !valid then Dies(fields, c, [])
    else Completes(fields, c, [StepArtifact(i, SeriesStart(k, ty, data))])
  }

  /** The CHECKs decide, the next index is used, and the type is fixed from then on. */
  function AddElement(m: SeriesFields, stepEnded: bool, i: Id, k: Id, ty: nat, data: string, c: Calc):
    Outcome<SeriesFields>
  {
    if (m.typeIndex != -1 && m.typeIndex != ty) || stepEnded || m.ended then Dies(m, c, [])
    else Completes(SeriesFields(ty, m.count + 1, false), c, [StepArtifact(i, SeriesElement(k, m.count, ty, data))])
  }

  /** The count of elements is drawn and written once, whether or not the step has ended. */
  function EndSeries(m: SeriesFields, i: Id, k: Id, c: Calc): Outcome<SeriesFields> {
    if m.ended then Completes(m, c, [])
    else Completes(SeriesFields(m.typeIndex, m.count + 1, true), c, [StepArtifact(i, SeriesEnd(k, m.count))])
  }
}
