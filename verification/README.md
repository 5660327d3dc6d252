# Verification of the OCP diagnostics results library and hardware interface

This project models the parts of the repository in which state, interleaving or string processing decide the
outcome, and proves what they promise.

**The results library** (`ocpdiag/core/results`). `ResultsMachine` is a transition system for any number of threads
that call one `TestRun` and any number of `TestStep` and `MeasurementSeries` objects. Every critical section of the
source is one atomic step; the mutexes of the run, of the steps and of the series have owners because calls hold
them across other critical sections; a failed `CHECK` halts the program. The theorems hold in every reachable state:
`ResultsTheorems` (no deadlock, indices of a series, bracketing of the log, one start and one end) and
`ResultsOutcome` (the verdict against the log, the schema version, elements after the end of their step). They rest
on five inductive invariants (`ResultsLocks`, `ResultsRunInv`, `ResultsStepInv`, `ResultsSeriesInv`,
`ResultsVerdictInv`). `ResultsStatus` and `ResultsKept` speak of whole schedules: with which status a step ends, and
that what the calls asked for is what the log holds. Some of these need obligations that are in flight: an index that was drawn before the mutex
of its series was taken is held by its thread until it is logged.

`ResultsObjects` holds the same objects as classes, for one thread. `CallOutcomes` says what each call amounts to;
`ResultsCalls` proves that of a call which nothing interrupts in the transition system, and the methods of the
classes state the same outcome, and beside it what becomes of each field and of the log. `ResultCalculator` is the verdict
state machine and the class around it. `ArtifactWriters` is a second transition system one level below: the writer's
mutex, the background flush thread and the destructor. Its result that positions in the file are sequence numbers
is what lets `ResultsMachine` treat a write as one append, and no payload is lost or made up on the way. `OutputReceivers` is the consumer: it distributes a log
into a nested model through two id maps. `SeriesCounts` counts the entries that are needed and made, which shows that
its condition is exact, and `ResultsReceived` joins producer and consumer.

**The hardware interface** (`ocpdiag/core/hwinterface`). `RangeLists` (cpulists), `Numbering`, `CpuCanonical`,
`SocketBuckets`, `CpuTopologies`, `CpuCounts` and `CpuFiles` (topology normalisation, its counts, and the files of
the host behind them), `NodeOverrides`, `FlagOverrides`, `ConfigLoading` and `BackendSelector` (configuration),
`HwInfo` (device paths and identifiers), `OverrideFlag` (the `--mhi_config` flag) and `RasErrors` (`ras-mc-ctl`
reports). Loops and objects are methods and classes with invariants; each is proved
against a function or a predicate about which the properties are then proved.

**The data model** (`ocpdiag/core/results/data_model`): `DataModel`, validation and the conversions in both
directions.

`Options`, `FiniteSets`, `Text`, `Artifacts` and `EntityConfig` hold shared definitions.

## Where the code and its documentation differ

The model follows the code.

- A comment in Finalize says that an error status takes the highest priority. The code keeps whichever of skip and
  error is notified first (`ResultCalculator.FinalVerdict`).
- The log sink is registered before the schema version is written, so an entry logged meanwhile precedes it
  (`ResultsOutcome.SchemaFirst`, `ResultsOutcome.SchemaCanBeSecond`).
- Applying the multi-node overrides again can change more when an override has no address, which the flag parser
  never produces (`NodeOverrides.ApplyingTwice`, `FlagOverrides.FlagIsAddressed`).
- A series that ends after its step only draws a message; its end is written all the same.
- `AddElement` asks whether the step has ended and writes later without the step's mutex. An element can come to
  follow the end of its step exactly where a schedule can let an `End` in between the two
  (`ResultsOutcome.DisciplinedElementsInTime`, `ResultsOutcome.LateExactlyThroughRaces`).
- `ResetModel` of the receiver forgets the model but not the id maps (`OutputReceivers.RebuildAfterReset`).
- `fake` can be parsed as a backend but is printed as `unknown`; authentication, cache policy and query overrides are
  not printed at all (`OverrideFlag.BackendRoundTrip`, `OverrideFlag.ListRoundTrip`).
- The loop over a range whose upper end is INT_MAX increments past it (`RangeLists.ParseRangeList`).
- `ValidateStructOrDie` for a series start reads the first value of its first validator before checking that there is
  one (`DataModel.EmptyFirstValidator`).

## Model

| member | source | states |
|---|---|---|
| ResultsTheorems.NoDeadlock | ocpdiag/core/results/measurement_series.cc:50-103 | In every reachable state of a live program with an unfinished call, some thread can run its next critical section: the lock order series, step, run never closes a cycle. |
| ResultsTheorems.IndicesDistinct | ocpdiag/core/results/measurement_series.cc:50-69 | In every interleaving no two elements of a series share an index, and a series has at most one start and one end artifact. |
| ResultsTheorems.IndicesComplete | ocpdiag/core/results/measurement_series.cc:50-103 | Once all calls on a series have returned, the indices in the log are exactly 0 to n-1 for the n elements logged, and a series end carries n, although indices are drawn outside the mutex. |
| ResultsTheorems.ElementsTyped | ocpdiag/core/results/measurement_series.cc:32-39 | All elements of a series have one value type, that of its validators if there are any, stand between its start and its end, and carry its step's id. |
| ResultsTheorems.LogBracketed | ocpdiag/core/results/test_step.cc:22-37 | Every reachable log is well bracketed: steps follow the run's start, each step starts once and first, ends at most once and adds no guarded artifact afterwards, no run error follows the run's start, only sink logs stand outside. |
| ResultsTheorems.StepEndTellsErrors | ocpdiag/core/results/test_step.cc:55-66 | A step that was ended and whose calls have returned has exactly one end artifact, whose status is Error exactly when the step logged an error. |
| ResultsStatus.StepEndStatus | ocpdiag/core/results/test_step.cc:104-135 | On every schedule, the end of a step that was ended and whose calls have returned says Error if the step logged an error, otherwise Skip if a call of Skip reached the step before it was ended, and otherwise Complete. |
| ResultsKept.EveryRequestIsKept | ocpdiag/core/results/test_step.cc:39-102 | On every schedule each request (a step with its name, an artifact of a step, a series start, an element, an error or log of the run) is in the log or still on its way exactly as often as it was asked for, and only in the log once all calls have returned. |
| ResultsTheorems.OneStartOneEnd | ocpdiag/core/results/test_run.cc:115-135 | A whole lifetime of a run writes exactly one start and one end, started or not, and nothing but sink logs after the end. |
| ResultsTheorems.SecondStartImpossible | ocpdiag/core/results/data_model/dut_info.cc:30-39 | While a run is started no caller owns a DutInfo, so a second StartAndRegisterDutInfo with one is impossible although nothing tests for it. |
| ResultsOutcome.DoneAgrees | ocpdiag/core/results/test_step.cc:46-66 | When a run is over, failures, errors and the start were notified exactly when the log holds a fail diagnosis, an error, and the run was started, whatever the interleaving of notification and write. |
| ResultsOutcome.EndCarriesVerdict | ocpdiag/core/results/test_run.cc:130-157 | The artifact that ends a run carries the verdict that the history of notifications before Finalize deserves. |
| ResultsOutcome.VerdictTellsLog | ocpdiag/core/results/test_result_calculator.cc:26-72 | The run's end is Complete exactly when the run was started, the log has no error and no skip was asked for; then Fail exactly when a fail diagnosis is logged; a result is given exactly with Complete; any error means Error or Skip. |
| ResultsOutcome.SchemaFirst | ocpdiag/core/results/test_run.cc:60-83 | On every schedule only sink logs precede the schema version once it is written, and it is the first artifact exactly when nobody logged through Abseil between the registration of the sink and the end of the constructor. |
| ResultsOutcome.WithoutSink | ocpdiag/core/results/test_run.cc:73-76 | On schedules in which no run is asked to register its log sink, nobody can log in the constructor, which is the condition of SchemaFirst. |
| ResultsOutcome.SchemaCanBeSecond | ocpdiag/core/results/test_run.cc:60-63 | A reachable log that begins with a sink log and continues with the schema version. |
| ResultsOutcome.DisciplinedElementsInTime | ocpdiag/core/results/measurement_series.cc:64-68 | On every schedule that passes through no race (one thread past the check and about to write an element, another about to end the same active step), no element follows its step's end. |
| ResultsOutcome.OverlapMakesLate | ocpdiag/core/results/measurement_series.cc:64-68 | From every race, letting the end of the step go first writes the element behind it without a failed CHECK. |
| ResultsOutcome.LateExactlyThroughRaces | ocpdiag/core/results/measurement_series.cc:64-68 | From every reachable state whose elements are in time, some schedule writes one behind its step's end if and only if some schedule passes through a race. |
| ResultsOutcome.NeverOverlappingIsDisciplined | ocpdiag/core/results/measurement_series.cc:50-69 | A schedule on which no AddElement overlaps an End or Skip of its step passes through no race. |
| ResultsOutcome.RaceIsReachable | ocpdiag/core/results/measurement_series.cc:64-68 | Two threads, one step and one series reach a race. |
| ResultsLocks.SomeThreadRuns | ocpdiag/core/results/test_step.cc:97-128 | From the lock invariant alone: if a thread of a live program is in a call, some thread can run its next critical section. |
| ResultsCalls.AddElementAlone | ocpdiag/core/results/measurement_series.cc:50-69 | In the transition system an uninterrupted AddElement fails a CHECK exactly when the type differs or the step or the series has ended; otherwise it writes the next index, and no other object changes. |
| ResultsCalls.EndSeriesAlone | ocpdiag/core/results/measurement_series.cc:79-103 | An uninterrupted End writes the number of elements once, whether or not the step has ended. |
| ResultsCalls.NewSeriesAlone | ocpdiag/core/results/measurement_series.cc:26-48 | An uninterrupted constructor of a series fails exactly on an ended step or an invalid start; otherwise the series has the next id and the type of its validators, and its start is logged. |
| ResultsCalls.NewStepAlone | ocpdiag/core/results/test_step.cc:22-37 | An uninterrupted constructor of a step fails exactly before the run is started or without a name; otherwise the step has the next id and its start is logged. |
| ResultsCalls.AddAlone | ocpdiag/core/results/test_step.cc:39-102 | An uninterrupted AddX halts exactly when its argument is invalid, the verdict is final for a failure or an error, or the step has ended (and after a fatal log); otherwise one artifact, one notification and, for an error, the status. |
| ResultsCalls.EndStepAlone | ocpdiag/core/results/test_step.cc:122-135 | An uninterrupted End writes the status once, Complete if none was set; the outcome names the status itself and not the function of the transition system. |
| ResultsCalls.SkipStepAlone | ocpdiag/core/results/test_step.cc:104-110 | An uninterrupted Skip ends the step as skipped unless it had a status. |
| ResultsCalls.NewRunAlone | ocpdiag/core/results/test_run.cc:48-83 | An uninterrupted constructor of the run fails exactly when a run is active or its start is invalid; otherwise guard and sink are set and the schema version is logged. |
| ResultsCalls.PreStartErrorAlone | ocpdiag/core/results/test_run.cc:85-95 | An uninterrupted AddPreStartError is refused on a started run; otherwise the error is logged and then notified, which fails once the verdict is final. |
| ResultsCalls.PreStartLogAlone | ocpdiag/core/results/test_run.cc:97-113 | An uninterrupted AddPreStartLog is refused on a started run; otherwise the log is written, and a fatal one then ends the program. |
| ResultsCalls.SkipRunAlone | ocpdiag/core/results/test_run.h:65-65 | An uninterrupted Skip notifies the calculator and writes nothing. |
| ResultsCalls.StartAlone | ocpdiag/core/results/test_run.cc:115-122 | An uninterrupted start makes the run own the DutInfo, notifies the calculator and writes the run's start. |
| ResultsCalls.EndRunAlone | ocpdiag/core/results/test_run.cc:124-157 | An uninterrupted destructor writes a start if there was none, then the end with the final verdict, and frees the sink, the guard and the DutInfo; a second Finalize would fail. |
| ResultsObjects.DutInfo.Create | ocpdiag/core/results/data_model/dut_info.cc:30-39 | Succeeds exactly with a name and an id and when no other DutInfo exists in the process. |
| ResultsObjects.DutInfo.AddHardwareInfo | ocpdiag/core/results/data_model/dut_info.cc:41-48 | Appends the info under an id that none of the registered ones has; ids are 0, 1, 2, .. in order. |
| ResultsObjects.TestRun.Create | ocpdiag/core/results/test_run.cc:48-83 | The object has the outcome that ResultsCalls proves of the same call: it exists exactly when no run was active and its start is valid, and then guard and sink are set and the log holds schema version 2.0 alone. |
| ResultsObjects.TestRun.AddPreStartError | ocpdiag/core/results/test_run.cc:85-95 | The object has the outcome that ResultsCalls proves of the same call: the error is logged exactly on an unstarted run with a valid error, and the call succeeds exactly if then the verdict is not final. |
| ResultsObjects.TestRun.AddPreStartLog | ocpdiag/core/results/test_run.cc:97-113 | The object has the outcome that ResultsCalls proves of the same call: the log is written exactly on an unstarted run with a valid log, also when it is fatal and the program ends. |
| ResultsObjects.TestRun.StartAndRegisterDutInfo | ocpdiag/core/results/test_run.cc:115-122 | The object has the outcome that ResultsCalls proves of the same call: it succeeds exactly with a DutInfo and before the verdict is final, logs the start, and a DutInfo that the run owned before is destroyed. |
| ResultsObjects.TestRun.Skip | ocpdiag/core/results/test_run.h:65-65 | The object has the outcome that ResultsCalls proves of the same call: it fails exactly when the verdict is final, and sets the status if there was none. |
| ResultsObjects.TestRun.Destroy | ocpdiag/core/results/test_run.cc:124-167 | The object has the outcome that ResultsCalls proves of the same call: a start if there was none, the end with the final status and result, guard and DutInfo released; the sink is deregistered if the flag, read again, still says so. |
| ResultsObjects.TestStep.Create | ocpdiag/core/results/test_step.cc:22-37 | The object has the outcome that ResultsCalls proves of the same call: it exists exactly on a started run and with a name; the id is drawn even when the constructor fails. |
| ResultsObjects.TestStep.Add | ocpdiag/core/results/test_step.cc:39-102 | The object has the outcome that ResultsCalls proves of the same call, for all six AddX methods: the artifact is written exactly when it is valid, the step has not ended and the verdict takes what it is told; a fatal log then ends the program, and only an error sets the status. |
| ResultsObjects.TestStep.End | ocpdiag/core/results/test_step.cc:122-135 | The object has the outcome that ResultsCalls proves of the same call: a step without status ends as Complete, another with its status, and one that has ended stays as it is. |
| ResultsObjects.TestStep.Skip | ocpdiag/core/results/test_step.cc:104-110 | The object has the outcome that ResultsCalls proves of the same call: a step without status ends as Skip, another with its status, and one that has ended writes nothing. |
| ResultsObjects.MeasurementSeries.Create | ocpdiag/core/results/measurement_series.cc:26-48 | The object has the outcome that ResultsCalls proves of the same call: it exists exactly on an active step with a valid start, with the type of its validators; the id is drawn even when the constructor fails. |
| ResultsObjects.MeasurementSeries.AddElement | ocpdiag/core/results/measurement_series.cc:50-69 | The object has the outcome that ResultsCalls proves of the same call: it succeeds exactly when the type fits and neither step nor series has ended, and then writes the value under the next index. |
| ResultsObjects.MeasurementSeries.End | ocpdiag/core/results/measurement_series.cc:79-103 | The object has the outcome that ResultsCalls proves of the same call: the end with the number of elements is written once. |
| ResultCalculator.FoldBeforeFinalize | ocpdiag/core/results/test_result_calculator.cc:26-55 | The calculator's fields after any history without Finalize, in terms of which events occur and which of skip and error came first. |
| ResultCalculator.FinalVerdict | ocpdiag/core/results/test_result_calculator.cc:57-72 | The verdict after Finalize: the first of skip and error decides, an unstarted run is Skip unless an error came first, otherwise Complete with Fail exactly when a failure was notified. |
| ResultCalculator.FirstStopIsEarliest | ocpdiag/core/results/test_result_calculator.cc:32-48 | The deciding event is the earliest skip or error of the history. |
| ResultCalculator.AcceptedHistories | ocpdiag/core/results/test_result_calculator.cc:57-77 | A history passes the finalized check exactly when nothing follows Finalize. |
| ResultCalculator.TestResultCalculator.NotifyStartRun | ocpdiag/core/results/test_result_calculator.cc:26-30 | One critical section against the state machine. |
| ResultCalculator.TestResultCalculator.NotifySkip | ocpdiag/core/results/test_result_calculator.cc:32-39 | One critical section against the state machine. |
| ResultCalculator.TestResultCalculator.NotifyError | ocpdiag/core/results/test_result_calculator.cc:41-48 | One critical section against the state machine. |
| ResultCalculator.TestResultCalculator.NotifyFailureDiagnosis | ocpdiag/core/results/test_result_calculator.cc:50-55 | One critical section against the state machine. |
| ResultCalculator.TestResultCalculator.Finalize | ocpdiag/core/results/test_result_calculator.cc:57-72 | One critical section against the state machine. |
| ArtifactWriters.NumbersIncrease | ocpdiag/core/results/artifact_writer.cc:105-150 | Whatever write fails, file and stream each hold strictly increasing sequence numbers of artifacts that were numbered. |
| ArtifactWriters.PositionsAreNumbers | ocpdiag/core/results/artifact_writer.cc:105-150 | Without failures the record at position i of file and of stream has number i at every moment, and both hold one record for each number whenever the mutex is free. |
| ArtifactWriters.WritesAreKept | ocpdiag/core/results/artifact_writer.cc:105-150 | On every schedule and for every payload: file and stream never hold it more often than it was given to Write, and once all writers have returned it has been numbered exactly as often, and without a failed write it is in the file and in the stream exactly as often. |
| ArtifactWriters.CleanShutdown | ocpdiag/core/results/artifact_writer.cc:61-77 | The flush thread never flushes a closed file, and the destructor has joined it exactly when it was spawned. |
| ArtifactWriters.JoinReturns | ocpdiag/core/results/artifact_writer.cc:66-77 | While the destructor waits for the flush thread, that thread can run, and each of its steps brings it closer to its exit. |
| ArtifactWriters.NoDeadlock | ocpdiag/core/results/artifact_writer.cc:152-160 | No reachable state with unfinished work is stuck: the destructor joins only after releasing the mutex the flush thread needs. |
| ArtifactWriters.ArtifactWriter.Write | ocpdiag/core/results/artifact_writer.cc:105-111 | One call numbers the artifact with the next number and appends it, with its payload, to the file and to the stream if there is one and the write succeeds; nothing else changes but the note of a loss. |
| ArtifactWriters.ArtifactWriter.WriteToFile | ocpdiag/core/results/artifact_writer.cc:113-122 | Appends to the file, if there is one and the write succeeds. |
| ArtifactWriters.ArtifactWriter.WriteToStream | ocpdiag/core/results/artifact_writer.cc:124-150 | Appends to the stream, if there is one and the write succeeds. |
| ArtifactWriters.IntIncrementer.Next | ocpdiag/core/results/int_incrementer.h:22-25 | Returns the count and increments it. |
| OutputReceivers.FirstBuild | ocpdiag/core/results/output_receiver.cc:58-179 | A first build indexes nothing out of bounds and gives the model defined by order-preserving filters of the log if and only if each series id of the log occurs under one step id. |
| SeriesCounts.ExpectedTotal | ocpdiag/core/results/output_receiver.cc:169-179 | The expected model has one series entry for each pair of a step and a series of it. |
| OutputReceivers.RebuildAfterReset | ocpdiag/core/results/output_receiver.h:56-56 | After a reset the id maps remain, so building the same log again stays in bounds exactly when it holds no step artifact. |
| OutputReceivers.NothingLost | ocpdiag/core/results/output_receiver.cc:64-155 | The sizes of all list buckets together with the artifacts that fill single fields account for the whole log. |
| OutputReceivers.ReceiveTracks | ocpdiag/core/results/output_receiver.cc:64-179 | Handling one more artifact keeps model and id maps equal to what the filters of the longer log say. |
| OutputReceivers.OutputReceiver.GetTestStepIdx | ocpdiag/core/results/output_receiver.cc:157-167 | Finds or appends a step model for an id. |
| OutputReceivers.OutputReceiver.GetMeasurementSeriesIdx | ocpdiag/core/results/output_receiver.cc:169-179 | Finds or appends a series model for an id in a step. |
| OutputReceivers.OutputReceiver.BuildModel | ocpdiag/core/results/output_receiver.cc:58-62 | The loop is the fold of the handler over the log; on a fresh receiver it gives the expected model exactly under that condition. |
| OutputReceivers.OutputReceiver.ResetModel | ocpdiag/core/results/output_receiver.h:56-56 | Forgets the model and keeps the id maps. |
| OutputModels.StepIdsDistinct | ocpdiag/core/results/output_receiver.cc:157-167 | The expected steps are the step ids of the log, each once. |
| OutputModels.RunFieldsOfKinds | ocpdiag/core/results/output_receiver.cc:64-100 | The expected schema version, start and end of the run are the last ones logged, and its logs and errors are those of the run in log order. |
| OutputModels.ListsOfKinds | ocpdiag/core/results/output_receiver.cc:101-155 | Every list of the expected model of a step holds exactly the artifacts of one kind of that step, in log order. |
| OutputModels.EndsAndSeriesOfKinds | ocpdiag/core/results/output_receiver.cc:101-155 | The start and the end of a step's expected model are the last ones logged, and that of a series holds the last start and end and all elements with the id of that series. |
| ResultsReceived.EveryLogIsReceived | ocpdiag/core/results/output_receiver.cc:58-179 | Every log that the results library can write meets the receiver's condition and is reproduced by it. |
| RangeLists.ParseRangeList | ocpdiag/core/hwinterface/backends/lib/utils.cc:30-63 | Accepts exactly lists of well-formed, ascending pieces, returns the concatenation of their ranges, rejects all others, and tells both from the lists on which the loop increments past INT_MAX. |
| RangeLists.AppendRange | ocpdiag/core/hwinterface/backends/lib/utils.cc:52-54 | The inner loop appends the range, or passes INT_MAX exactly when that is its upper end. |
| RangeLists.AcceptedListsIncrease | ocpdiag/core/hwinterface/backends/lib/utils.cc:30-63 | Returned lists are non-empty, strictly increasing and non-negative. |
| Text.AtoiIsExact | ocpdiag/core/hwinterface/backends/lib/utils.cc:42-50 | The numbers between the separators are exactly the 32-bit integers with blanks around them, at most one sign, and at least one digit. |
| RangeLists.ParsePrinted | ocpdiag/core/hwinterface/backends/lib/utils.cc:30-63 | Any ascending list of ranges, each written in either form that fits it, is read back, unless one written with a dash ends at INT_MAX: exactly then the loop overflows. |
| RangeLists.CommaJoinedRoundTrip | ocpdiag/core/hwinterface/backends/lib/utils.cc:40-46 | Every strictly increasing list is read back from its comma-joined rendering. |
| RangeLists.CompressedRoundTrip | ocpdiag/core/hwinterface/backends/lib/utils.cc:47-56 | Every strictly increasing list is read back from its range-compressed rendering exactly when it does not end in a run up to INT_MAX. |
| Numbering.NumbersAreCanonical | ocpdiag/core/hwinterface/backends/host/cpu.cc:146-167 | Numbering by first appearance gives equal results exactly for lists with the same pattern of equal ids. |
| Numbering.NumbersAreDense | ocpdiag/core/hwinterface/backends/host/cpu.cc:146-167 | The numbers are 0, 1, 2, .. in order of appearance, one for each different id. |
| CpuTopologies.CpuTopology.NormalizeTopology | ocpdiag/core/hwinterface/backends/host/cpu.cc:146-167 | The in-place pass, which rewrites each node while the socket map is still growing, leaves the canonical form of the whole topology. |
| CpuTopologies.ScanNode | ocpdiag/core/hwinterface/backends/host/cpu.cc:151-164 | The scan of a node leaves in both maps the number of every id seen so far. |
| CpuTopologies.CpuNumaNode.NormalizeNumaNode | ocpdiag/core/hwinterface/backends/host/cpu.cc:113-119 | Rewrites every unit of the node in place by the two maps. |
| CpuCanonical.CanonicalIsDense | ocpdiag/core/hwinterface/backends/host/cpu.cc:146-167 | Socket ids become 0 to S-1 in order of appearance over all nodes, core ids become dense in each node. |
| CpuCanonical.CanonicalKeepsSharing | ocpdiag/core/hwinterface/backends/host/cpu.cc:74-78 | Two units share a socket, and two units of a node share a core, afterwards exactly when they did before. |
| CpuCanonical.CanonicalDecidesSameness | ocpdiag/core/hwinterface/backends/host/cpu.cc:146-167 | Two topologies have the same canonical form exactly when they differ only by a renaming of raw ids. |
| CpuCanonical.CanonicalIdempotent | ocpdiag/core/hwinterface/backends/host/cpu.cc:146-167 | Normalising twice is normalising once. |
| CpuCanonical.RelabellingDoesNotMatter | ocpdiag/core/hwinterface/backends/host/cpu.cc:146-167 | Injective renaming of raw ids, differently in every node for cores, does not change the result. |
| CpuTopologies.CpuTopology.Gather | ocpdiag/core/hwinterface/backends/host/cpu.cc:169-198 | The first call reads, normalises and buckets the host's CPUs, up to the first unreadable file; later calls change nothing. |
| CpuTopologies.CpuNumaNode.Gather | ocpdiag/core/hwinterface/backends/host/cpu.cc:121-144 | The same for a node. |
| CpuTopologies.GatherLpu | ocpdiag/core/hwinterface/backends/host/cpu.cc:84-111 | The files of a unit are read in order, up to the first that cannot be. |
| CpuFiles.TopologyFromFiles | ocpdiag/core/hwinterface/backends/host/cpu.cc:84-144 | What is read of any host: for each listed node, its listed CPUs in order, every unit with the numbers in its own package, die and core files and its position among its siblings; complete exactly when every file can be read, and otherwise up to a file that cannot. |
| CpuFiles.BucketsArePackages | ocpdiag/core/hwinterface/backends/host/cpu.cc:169-198 | After gathering, a CPU is in some bucket exactly when a node lists it, and two CPUs share a bucket exactly when their package files hold the same number. |
| CpuFiles.GatheredUnit | ocpdiag/core/hwinterface/backends/host/cpu.cc:121-144 | After gathering and normalising, unit k of node i still has the CPU that the node's file lists at k, the die of its file, and its first position in its sibling list. |
| CpuTopologies.CpuTopology.PhysicalCoresCount | ocpdiag/core/hwinterface/backends/host/cpu.h:113-118 | The accumulated counters equal the number of units that are first among their siblings. |
| CpuTopologies.CpuTopology.LogicalCoresCount | ocpdiag/core/hwinterface/backends/host/cpu.h:120-125 | The accumulated sizes equal the number of gathered units. |
| CpuTopologies.CpuTopology.LogicalCoresMaxPerSocket | ocpdiag/core/hwinterface/backends/host/cpu.h:127-133 | The largest bucket, 0 when there is none. |
| CpuCounts.CountsConserve | ocpdiag/core/hwinterface/backends/host/cpu.h:120-135 | Sockets are counted by their different raw package ids, bucket sizes add up to the logical count, and sockets times the largest bucket cover it. |
| CpuCounts.GatheredPhysicalCores | ocpdiag/core/hwinterface/backends/host/cpu.cc:95-133 | If the sibling lists partition the gathered CPUs, the physical core count is the number of sibling groups. |
| CpuCounts.GatheredCounts | ocpdiag/core/hwinterface/backends/host/cpu.h:113-137 | Of a gathered topology, on the files of the host: the sockets are the different numbers in the package files of the listed CPUs, the logical cores the listed CPUs, which the sockets at the largest occupancy cover, and the physical cores, never more, the CPUs that are first in their sibling list; if the sibling lists agree, these are the different lists. |
| NodeOverrides.EntityConfigurations.ApplyNodeOverride | ocpdiag/core/hwinterface/client/node_client.cc:173-203 | One override changes every match in place, or adds one configuration when there is none. |
| NodeOverrides.EntityConfigurations.ApplyMultiNodeOverrides | ocpdiag/core/hwinterface/client/node_client.cc:212-223 | The list is applied in order. |
| NodeOverrides.EntityConfigurations.ApplySingleNodeOverride | ocpdiag/core/hwinterface/client/node_client.cc:102-161 | The flags for a single node change the first configuration, which is added if there is none, as one override would: the backend is the flag's, else the configuration's, else HOST. |
| NodeOverrides.LastWriteWins | ocpdiag/core/hwinterface/client/node_client.cc:48-100 | For any list the result is every configuration, and a blank one for each override that finds none, with each field taken from the last matching override that sets it, for a new one from its creator on. |
| NodeOverrides.LastSettingIsLast | ocpdiag/core/hwinterface/client/node_client.cc:203-207 | The deciding override matches, sets the field, and no later one does. |
| NodeOverrides.KeysUnchanged | ocpdiag/core/hwinterface/client/node_client.cc:173-201 | Addresses never change, the count grows by the number of different keys of the overrides that find nothing, which with addresses are exactly the unseen keys, and a configuration no override is about is untouched. |
| NodeOverrides.CreatorsFindNothing | ocpdiag/core/hwinterface/client/node_client.cc:185-200 | An override that creates a configuration has a key that no original configuration and no earlier override has. |
| NodeOverrides.UnseenKeysCreate | ocpdiag/core/hwinterface/client/node_client.cc:185-200 | Only unseen keys create; every unseen key with an address does, and one without may instead find a configuration created for the other kind. |
| NodeOverrides.ApplyingTwice | ocpdiag/core/hwinterface/client/node_client.cc:212-223 | For any list, applying it twice is applying it once if and only if no in-band configuration that it adds has missed an option set by an earlier Redfish override without an address and reset by no later one. |
| NodeOverrides.EmptyAddressLeaks | ocpdiag/core/hwinterface/client/node_client.cc:178-183 | A list, to be had only by setting the flag from code, for which applying twice differs. |
| FlagOverrides.FlagIsAddressed | ocpdiag/core/hwinterface/service_flags.cc:248-296 | Every override that parsing any flag value appends has an address, also when parsing stops at an error. |
| FlagOverrides.FlagAppliedTwice | ocpdiag/core/hwinterface/client/node_client.cc:212-223 | So for every command line applying the overrides twice is applying them once, and one configuration is added for each unseen key. |
| ConfigLoading.LoadConfigs | ocpdiag/core/hwinterface/client/node_client.cc:227-258 | File, then multi-node overrides. Without those, several configurations are loaded as they are, and one or none becomes one in which the backend is the flag's, else the configured one, else HOST, and every other field is decided by its flag or as read: Redfish options only for Redfish, the address of the host only for other backends. |
| ConfigLoading.OneIsLoaded | ocpdiag/core/hwinterface/client/node_client.cc:260-270 | LoadConfig succeeds exactly when the file can be read and, without multi-node overrides, holds at most one configuration, and with them, its configurations and those the overrides create are one together. |
| ConfigLoading.SingleNodeTwice | ocpdiag/core/hwinterface/client/node_client.cc:102-161 | Applying the flags for a single node twice is applying them once. |
| BackendSelector.NodeClient.Create | ocpdiag/core/hwinterface/client/node_client.cc:272-322 | Uses the given or the loaded configuration; succeeds exactly when there is one, every backend type it names has a builder that succeeds and the host adapter can be made, and then holds exactly those backends. |
| BackendSelector.NodeClient.CreateClients | ocpdiag/core/hwinterface/client/node_client.cc:324-337 | One client for each loaded configuration, in order, exactly when all can be created. |
| BackendSelector.NodeClient.SelectBackend | ocpdiag/core/hwinterface/client/node_client.cc:353-361 | Never fails on a created client, returns what the lookup gives, and changes no method's lookup. |
| BackendSelector.SelectionIsLookup | ocpdiag/core/hwinterface/client/node_client.cc:353-361 | Every sequence of calls agrees with the pure lookup on the untouched configuration. |
| BackendSelector.CreatedClientSelects | ocpdiag/core/hwinterface/client/node_client.cc:281-307 | After Create, any call of any sequence returns what the builder of the configured type made, or the default's. |
| BackendSelector.OrderDoesNotMatter | ocpdiag/core/hwinterface/client/node_client.cc:353-361 | Two calls for one method get the same backend wherever they stand in whatever sequences. |
| HwInfo.UpdateIdToLocal | ocpdiag/core/hwinterface/backends/lib/hw_info.cc:48-71 | Among the whole id, the cut at the first colon and the cuts at slashes before it, the longest that is a key is replaced by its value and the rest is kept; without one, or without a map, the id is returned as it is. The loop terminates. |
| HwInfo.NextFoundSkipsNothing | ocpdiag/core/hwinterface/backends/lib/hw_info.cc:65-68 | The next prefix is shorter, is one of these cuts, and no cut lies between. |
| HwInfo.UpdateIdToGlobal | ocpdiag/core/hwinterface/backends/lib/hw_info.cc:73-81 | Replaces exactly the keys of the map. |
| HwInfo.GetReverseIdMap | ocpdiag/core/hwinterface/backends/lib/hw_info.cc:30-46 | Holds for every value of a "/phys" key one such key, and nothing else. |
| HwInfo.GlobalThenLocal | ocpdiag/core/hwinterface/backends/lib/hw_info.cc:30-81 | Going to the global id and back by a reverse map, in whatever order that was filled, returns to a device path exactly when its global id is not empty and no other path has it. |
| HwInfo.PopulateId | ocpdiag/core/hwinterface/backends/lib/hw_info.cc:83-95 | The result has the global device path, every other field as given, and an id that joins its fields in their order. |
| HwInfo.FieldsJoined | ocpdiag/core/hwinterface/backends/lib/hw_info.cc:87-94 | Which fields an id joins, in which order, with a percent sign between two. |
| HwInfo.IdentifierRoundTrip | ocpdiag/core/hwinterface/backends/lib/hw_info.cc:83-115 | A populated identifier is read back from its id exactly when none of its fields holds a percent sign. |
| HwInfo.AcceptsFiveFields | ocpdiag/core/hwinterface/backends/lib/hw_info.cc:97-105 | Exactly the ids of five fields are accepted, although the split is limited. |
| HwInfo.AcceptedIsRejoined | ocpdiag/core/hwinterface/backends/lib/hw_info.cc:97-115 | An accepted id is the join of its fields. |
| OverrideFlag.GreedyIsFirst | ocpdiag/core/hwinterface/service_flags.cc:249-251 | The computed split of an override is the one a greedy matcher of the pattern finds, and it exists whenever any split does. |
| OverrideFlag.OverrideRoundTrip | ocpdiag/core/hwinterface/service_flags.cc:235-276 | One printed override is parsed back exactly when its backend has its own name, authentication, cache and queries are default, the port is a non-negative int, and the address is not empty, has no newline and no "://" with text behind it. |
| OverrideFlag.AuthIsRead | ocpdiag/core/hwinterface/service_flags.cc:248-276 | An override written with text behind its port that cannot be taken for a port is read with the authentication method that the text spells in any letter case, and is an error if it spells none. |
| OverrideFlag.AuthNames | ocpdiag/core/hwinterface/service_flags.cc:146-169 | Exactly "basic", "tls" and "default", in any letter case, and nothing at all are methods. |
| OverrideFlag.ListRoundTrip | ocpdiag/core/hwinterface/service_flags.cc:235-296 | A printed list is parsed back exactly when every override is and no address holds a comma. |
| OverrideFlag.UnparseFlag | ocpdiag/core/hwinterface/service_flags.cc:235-246 | Prints the overrides in order, separated by commas. |
| OverrideFlag.ParseFlag | ocpdiag/core/hwinterface/service_flags.cc:278-296 | Appends the overrides up to the first bad piece to the given vector, and succeeds exactly when there is none. |
| OverrideFlag.BackendRoundTrip | ocpdiag/core/hwinterface/service_flags.cc:173-212 | A backend type survives printing and parsing exactly when it has a name of its own; FAKE does not. The names are the ones documented for the flag. |
| RasErrors.RasDaemonErrors.ParseMcRecord | ocpdiag/core/hwinterface/backends/host/error.cc:58-102 | A line is accepted exactly when it is empty or matches with one of the four types; a Corrected, Uncorrected or Fatal one appends one error that is correctable exactly for Corrected, fatal exactly for Fatal, and has the time, count, label and line of the record. |
| RasErrors.RasDaemonErrors.ParseErrorReport | ocpdiag/core/hwinterface/backends/host/error.cc:122-142 | Accepts exactly the "No Memory errors." title with a further line, or the events title, records, an empty line and a further line; then there is one error for each record line that is not Info, in order, with what that line says. |
| RasErrors.GetErrors | ocpdiag/core/hwinterface/backends/host/host_backend.cc:175-223 | Rejects an empty window first; otherwise, if memory errors are asked for, an accepted report is answered with one entry for each record line that is not Info, lies in the window and has a known label, in order and with what that line says. |
| RasErrors.WindowsPartition | ocpdiag/core/hwinterface/backends/host/host_backend.cc:191-202 | Adjacent windows together report every error of the whole window exactly once. |
| RasErrors.OrderedWindowsConcatenate | ocpdiag/core/hwinterface/backends/host/host_backend.cc:191-202 | For a report in time order they report it in the same order, one after the other. |
| RasErrors.NothingInvented | ocpdiag/core/hwinterface/backends/host/host_backend.cc:191-202 | Exactly the errors in the window with a known label are reported. |
| RasErrors.WindowEdges | ocpdiag/core/hwinterface/backends/host/host_backend.cc:191-202 | An error at the start of the window is not reported, one at its end is. |
| RasErrors.ReportedIdentifier | ocpdiag/core/hwinterface/backends/host/host_backend.cc:211-214 | The identifier of a reported error can be unmarshalled exactly when its label holds no percent sign. |
| DataModel.MeasurementRoundTrip | ocpdiag/core/results/data_model/struct_to_proto.cc:139-153 | For any measurement with JSON metadata all fields come back, the metadata in canonical form, exactly when every validator has a value. |
| DataModel.SeriesStartRoundTrip | ocpdiag/core/results/data_model/struct_to_proto.cc:109-124 | The same for a series start. |
| DataModel.DiagnosisIsFixed | ocpdiag/core/results/data_model/struct_to_proto.cc:155-165 | The output for a diagnosis passes validation exactly when the diagnosis does, comes back unchanged, and equals it exactly when it names a hardware info. |
| DataModel.ValidatorRoundTrip | ocpdiag/core/results/data_model/proto_to_struct.cc:151-166 | A validator comes back exactly when it has a value, from the single form and from the list form; without one the second conversion dies. |
| DataModel.CheckValidator | ocpdiag/core/results/data_model/struct_validators.cc:19-66 | A validator passes exactly when it has a type and values of one kind: one value to be equal to, one number to be compared with, texts to match, texts or numbers for a set. |
| DataModel.CheckMeasurement | ocpdiag/core/results/data_model/struct_validators.cc:105-119 | A measurement passes exactly when it is named, a subcomponent is too, and every validator passes and holds values of the measured kind. |
| DataModel.SeriesStartRules | ocpdiag/core/results/data_model/struct_validators.cc:88-103 | A series start passes exactly when it is named, a subcomponent is too, every validator passes, and all of them hold values of one kind. |
| DataModel.AcceptedSurvives | ocpdiag/core/results/data_model/struct_validators.cc:88-119 | What validation accepts has a value in every validator and one value type throughout. |
| DataModel.EmptyFirstValidator | ocpdiag/core/results/data_model/struct_validators.cc:90-98 | Validating a series start reads past the end exactly when its name and subcomponent pass and its first validator has no value. |
| DataModel.OutputIsFixed | ocpdiag/core/results/data_model/proto_to_struct.cc:168-186 | The output for an accepted measurement is accepted itself and, sent through both conversions once more, comes back unchanged. |
| DataModel.BuildProtoValidator | ocpdiag/core/results/data_model/struct_to_proto.cc:42-57 | One value is stored as itself, several as a list of themselves in order, and none leaves the field unset; the loop builds this. |
| DataModel.BuildValidator | ocpdiag/core/results/data_model/proto_to_struct.cc:151-166 | The loop collects the values, and stops where a value cannot be converted. |

## Left out

- Riegeli files, JSON text, protocol buffer encoding, Abseil logging internals and wall-clock time: file and stream are sequences, JSON is a pair of functions, timestamps of artifacts are part of their opaque text.
- The 32-bit wrap of sequence numbers, ids and counters, and of the topology counts: they are unbounded here.
- Identifiers of steps, series and infos are the counter values; their decimal rendering is injective (`Text.DecimalInjective`).
- Flush calls of the results machine: they take the writer's mutex for one section and change nothing that a log shows; flushing is modelled in `ArtifactWriters`.
- The log sink's own entry for a fatal message, which is written while the program ends.
- A second run in the same process after the first has ended; use of an object during or after its destruction; calls that race with the run's destructor.
- ArtifactWriters.ArtifactWriter.Write: is the sequential form; concurrent writers, the flush thread and the destructor are in the transition system beside it.
- CpuTopologies.CpuTopology.Gather: a logical unit is a value in its node's list, as it is in the source's vector, so the cache of a single `CpuLpu` is not modelled.
- CpuTopologies.ScanNode: is the inner loop of the pass as a method of its own.
- DataModel.CheckMeasurement: the loop over the validators is a method of its own (`DataModel.CheckValidators`), as are the loops of `HwInfo.UpdateIdToLocal` (`HwInfo.ReplaceLongest`) and of `RasErrors.RasDaemonErrors.ParseErrorReport` (`RasErrors.RasDaemonErrors.ParseLines`).
- HwInfo.PopulateId: returns the changed identifier instead of writing through a reference.
- Reading files and running commands: `Host`, the report text and the record pattern of `ras-mc-ctl` are arbitrary functions or values.
- Fields of a configuration that no override touches; how the flags for a single node are parsed from text.
- Error messages.
- SSH and local host adapters, SMBIOS decoding, storage, CPU signature and frequency, the forwarding methods of the node client, matchers, fakes and mocks, and the enumerations, headers and converters that copy fields one to one.
