/** The objects of the results library as one thread uses them. Each method has the outcome (CallOutcomes) that
    ResultsCalls proves of the same call in the transition system. A false or null result means that the program
    is gone, by a failed CHECK or after a fatal log. */
module ResultsObjects {
  import opened Options
  import opened Artifacts
  import opened ResultCalculator
  import opened ResultsMachine
  import opened CallOutcomes
  import opened ArtifactWriters

  /** The log, to which the ArtifactWriter of the run appends. */
  class OutputLog {
    var entries: seq<Artifact>

    constructor ()
      ensures entries == []
    {
      entries := [];
    }

    method Write(a: Artifact)
      modifies this
      ensures entries == old(entries) + [a]
    {
      entries := entries + [a];
    }
  }

  /** The process-wide guards and sink registry. */
  class Process {
    var runActive: bool
    var dutActive: bool
    /** Whether the log sink of the active run is registered with Abseil. */
    var sink: bool
  }

  /** DutInfo (dut_info.cc); the fields of an info that are only copied are one text. */
  class DutInfo {
    var hardwareInfos: seq<(string, nat)>
    var softwareInfos: seq<(string, nat)>
    var platformInfos: seq<string>
    const hardwareIds: IntIncrementer
    const softwareIds: IntIncrementer

    /** The ids of the infos are 0, 1, 2, .. in the order of registration. */
    predicate Valid()
      reads this, hardwareIds, softwareIds
    {
      && hardwareIds != softwareIds
      && hardwareIds.count == |hardwareInfos| && (forall k | 0 <= k < |hardwareInfos| :: hardwareInfos[k].1 == k)
      && softwareIds.count == |softwareInfos| && (forall k | 0 <= k < |softwareInfos| :: softwareInfos[k].1 == k)
    }

    constructor ()
      ensures Valid() && hardwareInfos == [] && softwareInfos == [] && platformInfos == []
      ensures fresh(hardwareIds) && fresh(softwareIds)
    {
      hardwareInfos, softwareInfos, platformInfos := [], [], [];
      hardwareIds := new IntIncrementer();
      softwareIds := new IntIncrementer();
    }

    /** The public constructor: at most one object at a time in the process. */
    static method Create(process: Process, name: string, id: string) returns (dut: DutInfo?)
      modifies process`dutActive
      ensures dut == null <==> name == "" || id == "" || old(process.dutActive)
      ensures dut != null ==> fresh(dut) && dut.Valid() && dut.hardwareInfos == [] && process.dutActive
    {
      if name == "" || id == "" { return null; }
      if process.dutActive { return null; }
      process.dutActive := true;
      dut := new DutInfo();
    }

    method Destroy(process: Process)
      modifies process`dutActive
      ensures !process.dutActive
    {
      process.dutActive := false;
    }

    method AddHardwareInfo(name: string) returns (reference: Option<nat>)
      requires Valid()
      modifies this, hardwareIds
      ensures Valid() && softwareInfos == old(softwareInfos) && platformInfos == old(platformInfos)
      ensures reference == None <==> name == ""
      ensures reference.Some? ==> hardwareInfos == old(hardwareInfos) + [(name, reference.value)]
      ensures reference.Some? ==> forall k | 0 <= k < |old(hardwareInfos)| :: old(hardwareInfos)[k].1 != reference.value
    {
      if name == "" { return None; }
      var id := hardwareIds.Next();
      hardwareInfos := hardwareInfos + [(name, id)];
      return Some(id);
    }

    method AddSoftwareInfo(name: string) returns (reference: Option<nat>)
      requires Valid()
      modifies this, softwareIds
      ensures Valid() && hardwareInfos == old(hardwareInfos) && platformInfos == old(platformInfos)
      ensures reference == None <==> name == ""
      ensures reference.Some? ==> softwareInfos == old(softwareInfos) + [(name, reference.value)]
      ensures reference.Some? ==> forall k | 0 <= k < |old(softwareInfos)| :: old(softwareInfos)[k].1 != reference.value
    {
      if name == "" { return None; }
      var id := softwareIds.Next();
      softwareInfos := softwareInfos + [(name, id)];
      return Some(id);
    }
  }

  /** TestRun (test_run.cc, test_run.h). */
  class TestRun {
    const process: Process
    const log: OutputLog
    const calculator: TestResultCalculator
    const stepIds: IntIncrementer
    const seriesIds: IntIncrementer
    var started: bool
    var dut: DutInfo?

    constructor (process: Process)
      ensures this.process == process && fresh(log) && fresh(calculator) && fresh(stepIds) && fresh(seriesIds)
      ensures log.entries == [] && calculator.State() == InitialCalc && stepIds.count == 0 && seriesIds.count == 0
      ensures !started && dut == null && stepIds != seriesIds
    {
      this.process := process;
      log := new OutputLog();
      calculator := new TestResultCalculator();
      stepIds := new IntIncrementer();
      seriesIds := new IntIncrementer();
      started, dut := false, null;
    }

    function Fields(): RunFields
      reads this, process
    {
      RunFields(process.runActive, process.sink, started, dut != null)
    }

    /** The public constructor: the guard, the log sink, validation, and the schema version. */
    static method Create(process: Process, logToResults: bool, valid: bool) returns (run: TestRun?)
      modifies process`runActive, process`sink
      ensures var before := RunFields(old(process.runActive), old(process.sink), false, false);
              var o := NewRun(before, logToResults, valid, InitialCalc);
              && (run != null <==> o.Alive())
              && (run != null ==>
                    && fresh(run) && run.process == process && run.Fields() == o.after
                    && run.log.entries == o.wrote && run.calculator.State() == o.verdict)
      ensures run != null <==> !old(process.runActive) && valid
      ensures run != null ==> run.log.entries == [Schema(2, 0)] && process.runActive && process.sink == logToResults
    {
      if process.runActive { return null; }
      process.runActive := true;
      process.sink := logToResults;
      if !valid { return null; }
      run := new TestRun(process);
      run.log.Write(Schema(MAJOR_SCHEMA_VERSION, MINOR_SCHEMA_VERSION));
    }

    method AddPreStartError(text: string, valid: bool) returns (ok: bool)
      modifies log, calculator
      ensures var o := PreStartError(old(Fields()), text, valid, old(calculator.State()));
              && ok == o.Alive() && log.entries == old(log.entries) + o.wrote
              && (o.completes ==> Fields() == o.after && calculator.State() == o.verdict)
      ensures ok <==> !started && valid && !old(calculator.finalized)
      ensures log.entries == old(log.entries) + if !started && valid then [RunError(text)] else []
    {
      if started { return false; }
      if !valid { return false; }
      log.Write(RunError(text));
      ok := calculator.NotifyError();
    }

    /** A fatal log ends the program after it is written. */
    method AddPreStartLog(text: string, fatal: bool, valid: bool) returns (ok: bool)
      modifies log
      ensures var o := PreStartLog(old(Fields()), text, valid, fatal, calculator.State());
              && ok == o.Alive() && log.entries == old(log.entries) + o.wrote
              && (o.completes ==> Fields() == o.after && calculator.State() == o.verdict)
      ensures ok <==> !started && valid && !fatal
      ensures log.entries == old(log.entries) + if !started && valid then [RunLog(text)] else []
    {
      if started { return false; }
      if !valid { return false; }
      log.Write(RunLog(text));
      return !fatal;
    }

    /** A DutInfo that the run already owned is destroyed. */
    method StartAndRegisterDutInfo(dutInfo: DutInfo?) returns (ok: bool)
      modifies this, log, calculator, process`dutActive
      ensures var o := Start(old(Fields()), dutInfo != null, old(calculator.State()));
              && ok == o.Alive() && log.entries == old(log.entries) + o.wrote
              && (o.completes ==> Fields() == o.after && calculator.State() == o.verdict && dut == dutInfo)
      ensures process.dutActive == (old(process.dutActive) && !(ok && old(dut) != null))
      ensures ok <==> dutInfo != null && !old(calculator.finalized)
      ensures log.entries == old(log.entries) + if ok then [RunStart(true)] else []
      ensures ok ==> started && calculator.runStarted
    {
      if dutInfo == null { return false; }
      ok := calculator.NotifyStartRun();
      if !ok { return; }
      started := true;
      if dut != null { dut.Destroy(process); }
      dut := dutInfo;
      EmitStart();
    }

    method EmitStart()
      modifies log
      ensures log.entries == old(log.entries) + [RunStart(dut != null)]
    {
      log.Write(RunStart(dut != null));
    }

    method Skip() returns (ok: bool)
      modifies calculator
      ensures var o := SkipWholeRun(old(Fields()), old(calculator.State()));
              && ok == o.Alive() && o.wrote == []
              && (o.completes ==> Fields() == o.after && calculator.State() == o.verdict)
      ensures ok <==> !old(calculator.finalized)
      ensures ok && old(calculator.status) == Unknown ==> calculator.status == TestStatus.Skip
    {
      ok := calculator.NotifySkip();
    }

    /** The flag is read again; unless it was cleared in between, no sink stays behind. */
    method Destroy(logToResults: bool) returns (ok: bool)
      modifies this, log, calculator, process
      ensures var o := EndRun(old(Fields()), old(calculator.State()));
              && ok == o.Alive() && log.entries == old(log.entries) + o.wrote
              && (o.completes ==>
                    && Fields() == o.after.(sink := old(process.sink) && !logToResults)
                    && calculator.State() == o.verdict && dut == null)
      ensures ok ==> process.dutActive == (old(process.dutActive) && old(dut) == null)
      ensures ok <==> !old(calculator.finalized)
      ensures ok ==> !process.runActive && calculator.finalized &&
                     log.entries == old(log.entries) + (if started then [] else [RunStart(old(dut) != null)])
                                    + [RunEnd(calculator.status, calculator.result)]
    {
      if !started { EmitStart(); }
      ok := calculator.Finalize();
      if !ok { return; }
      log.Write(RunEnd(calculator.status, calculator.result));
      if logToResults { process.sink := false; }
      process.runActive := false;
      if dut != null { dut.Destroy(process); }
      dut := null;
    }
  }

  /** TestStep (test_step.cc). */
  class TestStep {
    const run: TestRun
    const id: nat
    var status: TestStatus
    var ended: bool

    constructor (run: TestRun, id: nat)
      ensures this.run == run && this.id == id && status == Unknown && !ended
    {
      this.run, this.id := run, id;
      status, ended := Unknown, false;
    }

    function Fields(): StepFields
      reads this
    {
      StepFields(status, ended)
    }

    /** The public constructor: the id is drawn before anything is checked. */
    static method Create(run: TestRun, name: string) returns (step: TestStep?)
      modifies run.stepIds, run.log
      ensures run.stepIds.count == old(run.stepIds.count) + 1
      ensures var o := NewStepOf(run.started, old(run.stepIds.count), name, run.calculator.State());
              && (step != null <==> o.Alive()) && run.log.entries == old(run.log.entries) + o.wrote
              && (step != null ==>
                    fresh(step) && step.run == run && step.id == old(run.stepIds.count) && step.Fields() == o.after)
      ensures step != null <==> run.started && name != ""
      ensures step != null ==> step.status == Unknown && !step.ended
      ensures run.log.entries ==
              old(run.log.entries) + if step == null then [] else [StepArtifact(step.id, StepStart(name))]
    {
      var id := run.stepIds.Next();
      if !run.started { return null; }
      if name == "" { return null; }
      step := new TestStep(run, id);
      run.log.Write(StepArtifact(id, StepStart(name)));
    }

    /** The artifact goes to the verdict first; one that does needs a verdict that is not final. */
    predicate Tells(body: StepBody) { body.ErrorBody? || (body.Diagnosis? && body.fail) }

    /** AddMeasurement, AddDiagnosis, AddError, AddFile, AddLog and AddExtension. */
    method Add(body: StepBody, valid: bool) returns (ok: bool)
      requires body.Guarded()
      modifies this, run.log, run.calculator
      ensures var o := AddToStep(old(Fields()), id, body, valid, old(run.calculator.State()));
              && ok == o.Alive() && run.log.entries == old(run.log.entries) + o.wrote
              && (o.completes ==> Fields() == o.after && run.calculator.State() == o.verdict)
      ensures var written := valid && !old(ended) && !(Tells(body) && old(run.calculator.finalized));
              && ok == (written && !(body.Log? && body.fatal))
              && run.log.entries == old(run.log.entries) + if written then [StepArtifact(id, body)] else []
      ensures ok ==> ended == old(ended) && status == if body.ErrorBody? then Error else old(status)
    {
      if !valid { return false; }
      if body.Diagnosis? && body.fail {
        ok := run.calculator.NotifyFailureDiagnosis();
        if !ok { return; }
      }
      if body.ErrorBody? {
        status := Error;
        ok := run.calculator.NotifyError();
        if !ok { return; }
      }
      if ended { return false; }
      run.log.Write(StepArtifact(id, body));
      ok := !(body.Log? && body.fatal);
    }

    method End()
      modifies this, run.log
      ensures var o := EndStep(old(Fields()), id, run.calculator.State());
              o.Alive() && Fields() == o.after && run.log.entries == old(run.log.entries) + o.wrote
      ensures ended && (old(ended) ==> status == old(status) && run.log.entries == old(run.log.entries))
      ensures !old(ended) && old(status) == Unknown ==>
                status == Complete && run.log.entries == old(run.log.entries) + [StepArtifact(id, StepEnd(Complete))]
      ensures !old(ended) && old(status) != Unknown ==>
                status == old(status) && run.log.entries == old(run.log.entries) + [StepArtifact(id, StepEnd(status))]
    {
      if ended { return; }
      ended := true;
      if status == Unknown { status := Complete; }
      run.log.Write(StepArtifact(id, StepEnd(status)));
    }

    method Skip()
      modifies this, run.log
      ensures var o := SkipStep(old(Fields()), id, run.calculator.State());
              o.Alive() && Fields() == o.after && run.log.entries == old(run.log.entries) + o.wrote
      ensures ended && (old(ended) ==> run.log.entries == old(run.log.entries))
      ensures !old(ended) && old(status) == Unknown ==>
                run.log.entries == old(run.log.entries) + [StepArtifact(id, StepEnd(TestStatus.Skip))]
      ensures !old(ended) && old(status) != Unknown ==>
                run.log.entries == old(run.log.entries) + [StepArtifact(id, StepEnd(old(status)))]
    {
      if status == Unknown { status := TestStatus.Skip; }
      End();
    }
  }

  /** MeasurementSeries (measurement_series.cc). */
  class MeasurementSeries {
    const step: TestStep
    const id: nat
    const elementCount: IntIncrementer
    var ended: bool
    var typeIndex: int

    constructor (step: TestStep, id: nat)
      ensures this.step == step && this.id == id && fresh(elementCount) && elementCount.count == 0
      ensures !ended && typeIndex == -1
    {
      this.step, this.id := step, id;
      elementCount := new IntIncrementer();
      ended, typeIndex := false, -1;
    }

    function Fields(): SeriesFields
      reads this, elementCount
    {
      SeriesFields(typeIndex, elementCount.count, ended)
    }

    /** The public constructor; validatorType is -1 when there are no validators. */
    static method Create(step: TestStep, validatorType: int, data: string, valid: bool)
      returns (series: MeasurementSeries?)
      requires validatorType >= -1
      modifies step.run.seriesIds, step.run.log
      ensures step.run.seriesIds.count == old(step.run.seriesIds.count) + 1
      ensures var k := old(step.run.seriesIds.count);
              var o := NewSeriesOf(step.ended, step.id, k, validatorType, data, valid, step.run.calculator.State());
              && (series != null <==> o.Alive()) && step.run.log.entries == old(step.run.log.entries) + o.wrote
              && (series != null ==>
                    && fresh(series) && fresh(series.elementCount) && series.step == step && series.id == k
                    && series.Fields() == o.after)
      ensures series != null <==> !step.ended && valid
      ensures series != null ==>
                series.typeIndex == validatorType && !series.ended && series.elementCount.count == 0 &&
                step.run.log.entries == old(step.run.log.entries)
                                        + [StepArtifact(step.id, SeriesStart(series.id, validatorType, data))]
    {
      var id := step.run.seriesIds.Next();
      if step.ended { return null; }
      if !valid { return null; }
      series := new MeasurementSeries(step, id);
      if validatorType >= 0 { var ok := series.SetAndCheckSeriesType(validatorType); }
      step.run.log.Write(StepArtifact(step.id, SeriesStart(id, validatorType, data)));
    }

    method SetAndCheckSeriesType(type_: int) returns (ok: bool)
      modifies this`typeIndex
      ensures ok <==> old(typeIndex) == -1 || old(typeIndex) == type_
      ensures ok ==> typeIndex == type_
    {
      if typeIndex == -1 { typeIndex := type_; }
      return typeIndex == type_;
    }

    /** The index is drawn before the checks under the mutex. */
    method AddElement(type_: nat, data: string) returns (ok: bool)
      modifies this`typeIndex, elementCount, step.run.log
      ensures var o := CallOutcomes.AddElement(old(Fields()), step.ended, step.id, id, type_, data,
                                               step.run.calculator.State());
              && ok == o.Alive() && step.run.log.entries == old(step.run.log.entries) + o.wrote
              && (o.completes ==> Fields() == o.after)
      ensures ok <==> (old(typeIndex) == -1 || old(typeIndex) == type_) && !step.ended && !ended
      ensures ok ==>
                typeIndex == type_ && elementCount.count == old(elementCount.count) + 1 &&
                step.run.log.entries ==
                old(step.run.log.entries)
                + [StepArtifact(step.id, SeriesElement(id, old(elementCount.count), type_, data))]
      ensures !ok ==> step.run.log.entries == old(step.run.log.entries)
    {
      ok := SetAndCheckSeriesType(type_);
      if !ok { return; }
      var index := elementCount.Next();
      if step.ended { return false; }
      if ended { return false; }
      step.run.log.Write(StepArtifact(step.id, SeriesElement(id, index, type_, data)));
    }

    /** A step that has ended only draws a message. */
    method End()
      modifies this`ended, elementCount, step.run.log
      ensures var o := EndSeries(old(Fields()), step.id, id, step.run.calculator.State());
              o.Alive() && Fields() == o.after && step.run.log.entries == old(step.run.log.entries) + o.wrote
      ensures ended
      ensures step.run.log.entries ==
              old(step.run.log.entries)
              + if old(ended) then [] else [StepArtifact(step.id, SeriesEnd(id, old(elementCount.count)))]
    {
      if ended { return; }
      ended := true;
      var total := elementCount.Next();
      step.run.log.Write(StepArtifact(step.id, SeriesEnd(id, total)));
    }
  }
}
