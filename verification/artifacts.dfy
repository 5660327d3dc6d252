/** The artifacts of the output log (output_model.h, schema version 2.0), with the fields that no
    operation inspects folded into one opaque text. Identifiers are the values drawn from the
    run's counters; their decimal rendering is injective (see `Text.DecimalRoundTrip`). */
module Artifacts {

  type Id = nat

  datatype TestStatus = Unknown | Complete | Error | Skip

  datatype TestResult = NotApplicable | Pass | Fail

  /** The alternatives of a test step artifact. `validatorType` is -1 when a series start has no
      validator; `valueType` is the index of the element's variant alternative. */
  datatype StepBody =
    | StepStart(name: string)
    | StepEnd(status: TestStatus)
    | Measurement(data: string)
    | SeriesStart(series: Id, validatorType: int, data: string)
    | SeriesEnd(series: Id, totalCount: nat)
    | SeriesElement(series: Id, index: nat, valueType: int, data: string)
    | Diagnosis(fail: bool, data: string)
    | ErrorBody(data: string)
    | File(data: string)
    | Log(fatal: bool, data: string)
    | Extension(data: string)
  {
    /** True of the artifacts that TestStep sends through CheckEndedAndEmitArtifact. */
    predicate Guarded() {
      Measurement? || Diagnosis? || ErrorBody? || File? || Log? || Extension?
    }

    predicate OfSeries() {
      SeriesStart? || SeriesEnd? || SeriesElement?
    }

    predicate FailDiagnosis() {
      Diagnosis? && fail
    }
  }

  datatype Artifact =
    | Schema(major: int, minor: int)
    | RunStart(hasDut: bool)
    | RunEnd(runStatus: TestStatus, result: TestResult)
    | RunLog(text: string)
    | RunError(text: string)
    | StepArtifact(step: Id, body: StepBody)
  {
    predicate IsError() {
      RunError? || (StepArtifact? && body.ErrorBody?)
    }

    predicate IsFailDiagnosis() {
      StepArtifact? && body.FailDiagnosis()
    }
  }

  const MAJOR_SCHEMA_VERSION := 2
  const MINOR_SCHEMA_VERSION := 0
}
