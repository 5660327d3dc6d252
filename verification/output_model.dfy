/** The structured output model, described directly on the log: which artifacts belong in which place. */
module OutputModels {
  import opened Options
  import opened Artifacts

  // ---- Order-preserving filters of a log ----

  /** The places of a step's model into which an artifact body can go. */
  datatype Place =
    | Start
    | End
    | Logs
    | Errors
    | Files
    | Extensions
    | Measurements
    | Diagnoses
    | SeriesStartOf(series: Id)
    | SeriesEndOf(series: Id)
    | ElementsOf(series: Id)

  function PlaceOf(body: StepBody): Place {
    match body
    case StepStart(_) => Start
    case StepEnd(_) => End
    case Measurement(_) => Measurements
    case SeriesStart(k, _, _) => SeriesStartOf(k)
    case SeriesEnd(k, _) => SeriesEndOf(k)
    case SeriesElement(k, _, _, _) => ElementsOf(k)
    case Diagnosis(_, _) => Diagnoses
    case ErrorBody(_) => Errors
    case File(_) => Files
    case Log(_, _) => Logs
    case Extension(_) => Extensions
  }

  predicate Belongs(a: Artifact, i: Id, place: Place) {
    a.StepArtifact? && a.step == i && PlaceOf(a.body) == place
  }

  function Front(log: seq<Artifact>): seq<Artifact>
    requires log != []
  {
    log[..|log| - 1]
  }

  function Last(log: seq<Artifact>): Artifact
    requires log != []
  {
    log[|log| - 1]
  }

  /** The bodies of step i that belong in a place, in log order. */
  function Bodies(log: seq<Artifact>, i: Id, place: Place): seq<StepBody> {
    if log == [] then []
    else if Belongs(Last(log), i, place) then Bodies(Front(log), i, place) + [Last(log).body]
    else Bodies(Front(log), i, place)
  }

  /** The last of them, for the places that hold one value. */
  function Latest(log: seq<Artifact>, i: Id, place: Place): Option<StepBody> {
    var bodies := Bodies(log, i, place);
    if bodies == [] then None else Some(bodies[|bodies| - 1])
  }

  /** The texts of the run's logs, or of its errors, in log order. */
  function RunTexts(log: seq<Artifact>, errors: bool): seq<string> {
    if log == [] then []
    else if (if errors then Last(log).RunError? else Last(log).RunLog?) then
      RunTexts(Front(log), errors) + [Last(log).text]
    else RunTexts(Front(log), errors)
  }

  datatype RunPlace = SchemaPlace | RunStartPlace | RunEndPlace

  predicate AtRunPlace(a: Artifact, place: RunPlace) {
    match place
    case SchemaPlace => a.Schema?
    case RunStartPlace => a.RunStart?
    case RunEndPlace => a.RunEnd?
  }

  function LatestRun(log: seq<Artifact>, place: RunPlace): Option<Artifact> {
    if log == [] then None
    else if AtRunPlace(Last(log), place) then Some(Last(log))
    else LatestRun(Front(log), place)
  }

  /** The ids of the steps in order of first occurrence. */
  function StepIds(log: seq<Artifact>): seq<Id> {
    if log == [] then []
    else
      var ids := StepIds(Front(log));
      if Last(log).StepArtifact? && Last(log).step !in ids then ids + [Last(log).step] else ids
  }

  /** The ids of the series of step i in order of first occurrence. */
  function SeriesIds(log: seq<Artifact>, i: Id): seq<Id> {
    if log == [] then []
    else
      var ids := SeriesIds(Front(log), i);
      var a := Last(log);
      if a.StepArtifact? && a.step == i && a.body.OfSeries() && a.body.series !in ids then ids + [a.body.series] else ids
  }

  // ---- The model ----

  datatype SeriesModel = SeriesModel(start: Option<StepBody>, end: Option<StepBody>, elements: seq<StepBody>)

  datatype StepModel = StepModel(
    id: Id,
    start: Option<StepBody>,
    end: Option<StepBody>,
    logs: seq<StepBody>,
    errors: seq<StepBody>,
    files: seq<StepBody>,
    extensions: seq<StepBody>,
    series: seq<SeriesModel>,
    measurements: seq<StepBody>,
    diagnoses: seq<StepBody>)

  datatype OutputModel = OutputModel(
    schema: Option<Artifact>,
    runStart: Option<Artifact>,
    runEnd: Option<Artifact>,
    preStartLogs: seq<string>,
    preStartErrors: seq<string>,
    steps: seq<StepModel>)

  const EmptySeries := SeriesModel(None, None, [])

  function EmptyStep(i: Id): StepModel { StepModel(i, None, None, [], [], [], [], [], [], []) }

  const EmptyModel := OutputModel(None, None, None, [], [], [])

  function ExpectedSeries(log: seq<Artifact>, i: Id, k: Id): SeriesModel {
    SeriesModel(Latest(log, i, SeriesStartOf(k)), Latest(log, i, SeriesEndOf(k)), Bodies(log, i, ElementsOf(k)))
  }

  function ExpectedSeriesList(log: seq<Artifact>, i: Id): seq<SeriesModel> {
    var ids := SeriesIds(log, i);
    seq(|ids|, j requires 0 <= j < |ids| => ExpectedSeries(log, i, ids[j]))
  }

  function ExpectedStep(log: seq<Artifact>, i: Id): StepModel {
    StepModel(i, Latest(log, i, Start), Latest(log, i, End), Bodies(log, i, Logs), Bodies(log, i, Errors),
              Bodies(log, i, Files), Bodies(log, i, Extensions), ExpectedSeriesList(log, i),
              Bodies(log, i, Measurements), Bodies(log, i, Diagnoses))
  }

  /** What a receiver must hold after reading a log: steps and series in first-occurrence order, and in
      every place the artifacts that belong there, in log order. */
  function Expected(log: seq<Artifact>): OutputModel {
    var ids := StepIds(log);
    OutputModel(LatestRun(log, SchemaPlace), LatestRun(log, RunStartPlace), LatestRun(log, RunEndPlace),
                RunTexts(log, false), RunTexts(log, true),
                seq(|ids|, j requires 0 <= j < |ids| => ExpectedStep(log, ids[j])))
  }

  predicate SeriesArtifact(a: Artifact) { a.StepArtifact? && a.body.OfSeries() }

  /** Each series id occurs under one step id. */
  ghost predicate OneStepPerSeries(log: seq<Artifact>) {
    forall p, q | 0 <= p < |log| && 0 <= q < |log| && SeriesArtifact(log[p]) && SeriesArtifact(log[q]) &&
                  log[p].body.series == log[q].body.series :: log[p].step == log[q].step
  }

  // ---- What the fields hold ----

  /** The bodies of step i of one kind, in log order. */
  ghost function Select(log: seq<Artifact>, i: Id, kind: StepBody -> bool): seq<StepBody> {
    if log == [] then []
    else
      var last := log[|log| - 1];
      Select(log[..|log| - 1], i, kind) + if last.StepArtifact? && last.step == i && kind(last.body) then [last.body] else []
  }

  lemma {:induction false} PlaceIsKind(log: seq<Artifact>, i: Id, place: Place, kind: StepBody -> bool)
    requires forall body :: PlaceOf(body) == place <==> kind(body)
    ensures Bodies(log, i, place) == Select(log, i, kind)
  {
    if log != [] {
      PlaceIsKind(Front(log), i, place, kind);
    }
  }

  /** The list fields of a step's model hold the bodies of one kind each. */
  lemma ListsOfKinds(log: seq<Artifact>, i: Id)
    ensures var st := ExpectedStep(log, i);
            && st.logs == Select(log, i, (b: StepBody) => b.Log?) && st.errors == Select(log, i, (b: StepBody) => b.ErrorBody?)
            && st.files == Select(log, i, (b: StepBody) => b.File?) && st.extensions == Select(log, i, (b: StepBody) => b.Extension?)
            && st.measurements == Select(log, i, (b: StepBody) => b.Measurement?)
            && st.diagnoses == Select(log, i, (b: StepBody) => b.Diagnosis?)
  {
    PlaceIsKind(log, i, Logs, (b: StepBody) => b.Log?);
    PlaceIsKind(log, i, Errors, (b: StepBody) => b.ErrorBody?);
    PlaceIsKind(log, i, Files, (b: StepBody) => b.File?);
    PlaceIsKind(log, i, Extensions, (b: StepBody) => b.Extension?);
    PlaceIsKind(log, i, Measurements, (b: StepBody) => b.Measurement?);
    PlaceIsKind(log, i, Diagnoses, (b: StepBody) => b.Diagnosis?);
  }

  /** The last body, for a field that holds one value. */
  function LastOf(bodies: seq<StepBody>): Option<StepBody> {
    if bodies == [] then None else Some(bodies[|bodies| - 1])
  }

  /** The start and end of a step's model are the last of the step, and a series' model holds the last start, the last
      end and all the elements of that series. */
  lemma EndsAndSeriesOfKinds(log: seq<Artifact>, i: Id, k: Id)
    ensures var st, m := ExpectedStep(log, i), ExpectedSeries(log, i, k);
            && st.start == LastOf(Select(log, i, (b: StepBody) => b.StepStart?))
            && st.end == LastOf(Select(log, i, (b: StepBody) => b.StepEnd?))
            && m.start == LastOf(Select(log, i, (b: StepBody) => b.SeriesStart? && b.series == k))
            && m.end == LastOf(Select(log, i, (b: StepBody) => b.SeriesEnd? && b.series == k))
            && m.elements == Select(log, i, (b: StepBody) => b.SeriesElement? && b.series == k)
  {
    PlaceIsKind(log, i, Start, (b: StepBody) => b.StepStart?);
    PlaceIsKind(log, i, End, (b: StepBody) => b.StepEnd?);
    PlaceIsKind(log, i, SeriesStartOf(k), (b: StepBody) => b.SeriesStart? && b.series == k);
    PlaceIsKind(log, i, SeriesEndOf(k), (b: StepBody) => b.SeriesEnd? && b.series == k);
    PlaceIsKind(log, i, ElementsOf(k), (b: StepBody) => b.SeriesElement? && b.series == k);
  }

  /** The artifacts of one kind, in log order. */
  ghost function SelectRun(log: seq<Artifact>, kind: Artifact -> bool): seq<Artifact> {
    if log == [] then []
    else SelectRun(log[..|log| - 1], kind) + if kind(log[|log| - 1]) then [log[|log| - 1]] else []
  }

  /** The last artifact of a kind. */
  ghost predicate IsLatest(log: seq<Artifact>, kind: Artifact -> bool, a: Option<Artifact>) {
    var all := SelectRun(log, kind);
    if all == [] then a == None else a == Some(all[|all| - 1])
  }

  /** The texts of artifacts of the run, one by one. */
  ghost predicate TextsOf(artifacts: seq<Artifact>, texts: seq<string>) {
    |artifacts| == |texts| &&
    forall k | 0 <= k < |texts| :: (artifacts[k].RunLog? || artifacts[k].RunError?) && artifacts[k].text == texts[k]
  }

  lemma {:induction false} LatestIsKind(log: seq<Artifact>, place: RunPlace, kind: Artifact -> bool)
    requires forall a :: AtRunPlace(a, place) <==> kind(a)
    ensures IsLatest(log, kind, LatestRun(log, place))
  {
    if log != [] { LatestIsKind(Front(log), place, kind); }
  }

  lemma {:induction false} TextsAreKind(log: seq<Artifact>, errors: bool, kind: Artifact -> bool)
    requires forall a :: kind(a) <==> if errors then a.RunError? else a.RunLog?
    ensures TextsOf(SelectRun(log, kind), RunTexts(log, errors))
  {
    if log != [] { TextsAreKind(Front(log), errors, kind); }
  }

  /** The fields of the run hold the last artifact or the texts of one kind each. */
  lemma RunFieldsOfKinds(log: seq<Artifact>)
    ensures var model := Expected(log);
            && IsLatest(log, (a: Artifact) => a.Schema?, model.schema)
            && IsLatest(log, (a: Artifact) => a.RunStart?, model.runStart)
            && IsLatest(log, (a: Artifact) => a.RunEnd?, model.runEnd)
            && TextsOf(SelectRun(log, (a: Artifact) => a.RunLog?), model.preStartLogs)
            && TextsOf(SelectRun(log, (a: Artifact) => a.RunError?), model.preStartErrors)
  {
    LatestIsKind(log, SchemaPlace, (a: Artifact) => a.Schema?);
    LatestIsKind(log, RunStartPlace, (a: Artifact) => a.RunStart?);
    LatestIsKind(log, RunEndPlace, (a: Artifact) => a.RunEnd?);
    TextsAreKind(log, false, (a: Artifact) => a.RunLog?);
    TextsAreKind(log, true, (a: Artifact) => a.RunError?);
  }

  // ---- Facts about the id lists ----

  lemma {:induction false} StepIdsDistinct(log: seq<Artifact>)
    ensures forall x, y | 0 <= x < y < |StepIds(log)| :: StepIds(log)[x] != StepIds(log)[y]
    ensures forall i :: i in StepIds(log) <==> exists p :: 0 <= p < |log| && log[p].StepArtifact? && log[p].step == i
  {
    if log != [] {
      StepIdsDistinct(Front(log));
      assert log == Front(log) + [Last(log)];
      forall i
        ensures i in StepIds(log) <==> exists p :: 0 <= p < |log| && log[p].StepArtifact? && log[p].step == i
      {
        if p :| 0 <= p < |log| && log[p].StepArtifact? && log[p].step == i {
          if p < |log| - 1 { assert Front(log)[p].step == i; }
        }
        if i in StepIds(Front(log)) {
          var p :| 0 <= p < |Front(log)| && Front(log)[p].StepArtifact? && Front(log)[p].step == i;
          assert log[p].step == i;
        }
      }
    }
  }

  lemma {:induction false} SeriesIdsDistinct(log: seq<Artifact>, i: Id)
    ensures forall x, y | 0 <= x < y < |SeriesIds(log, i)| :: SeriesIds(log, i)[x] != SeriesIds(log, i)[y]
    ensures forall k | k in SeriesIds(log, i) ::
              exists p :: 0 <= p < |log| && SeriesArtifact(log[p]) && log[p].step == i && log[p].body.series == k
  {
    if log != [] {
      SeriesIdsDistinct(Front(log), i);
      assert log == Front(log) + [Last(log)];
      forall k | k in SeriesIds(log, i)
        ensures exists p :: 0 <= p < |log| && SeriesArtifact(log[p]) && log[p].step == i && log[p].body.series == k
      {
        if k in SeriesIds(Front(log), i) {
          var p :| 0 <= p < |Front(log)| && SeriesArtifact(Front(log)[p]) && Front(log)[p].step == i &&
                   Front(log)[p].body.series == k;
          assert log[p] == Front(log)[p];
        } else {
          assert log[|log| - 1].body.series == k;
        }
      }
    }
  }

  lemma {:induction false} SeriesIdListed(log: seq<Artifact>, p: nat)
    requires p < |log| && SeriesArtifact(log[p])
    ensures log[p].body.series in SeriesIds(log, log[p].step)
  {
    if p < |log| - 1 {
      assert Front(log)[p] == log[p];
      SeriesIdListed(Front(log), p);
    }
  }

  /** A step that has not occurred yet has nothing anywhere. */
  lemma {:induction false} UnseenStep(log: seq<Artifact>, i: Id)
    requires i !in StepIds(log)
    ensures forall place :: Bodies(log, i, place) == []
    ensures SeriesIds(log, i) == []
  {
    if log != [] { UnseenStep(Front(log), i); }
  }

  lemma {:induction false} UnseenSeries(log: seq<Artifact>, i: Id, k: Id)
    requires k !in SeriesIds(log, i)
    ensures Bodies(log, i, SeriesStartOf(k)) == [] && Bodies(log, i, SeriesEndOf(k)) == []
    ensures Bodies(log, i, ElementsOf(k)) == []
  {
    if log != [] { UnseenSeries(Front(log), i, k); }
  }

  // ---- How the expected model grows with the log ----

  lemma {:induction false} BodiesExtend(log: seq<Artifact>, a: Artifact, i: Id, place: Place)
    ensures Bodies(log + [a], i, place) ==
            if Belongs(a, i, place) then Bodies(log, i, place) + [a.body] else Bodies(log, i, place)
    ensures Latest(log + [a], i, place) == if Belongs(a, i, place) then Some(a.body) else Latest(log, i, place)
  {
    assert Front(log + [a]) == log && Last(log + [a]) == a;
    var before, after := Bodies(log, i, place), Bodies(log + [a], i, place);
    assert Belongs(a, i, place) ==> after[|after| - 1] == a.body;
  }

  lemma IdsExtend(log: seq<Artifact>, a: Artifact, i: Id)
    ensures StepIds(log + [a]) ==
            if a.StepArtifact? && a.step !in StepIds(log) then StepIds(log) + [a.step] else StepIds(log)
    ensures SeriesIds(log + [a], i) ==
            if SeriesArtifact(a) && a.step == i && a.body.series !in SeriesIds(log, i)
            then SeriesIds(log, i) + [a.body.series] else SeriesIds(log, i)
  {
    assert Front(log + [a]) == log;
  }

  lemma RunPlacesExtend(log: seq<Artifact>, a: Artifact)
    ensures forall place :: LatestRun(log + [a], place) == if AtRunPlace(a, place) then Some(a) else LatestRun(log, place)
    ensures RunTexts(log + [a], false) == if a.RunLog? then RunTexts(log, false) + [a.text] else RunTexts(log, false)
    ensures RunTexts(log + [a], true) == if a.RunError? then RunTexts(log, true) + [a.text] else RunTexts(log, true)
  {
    assert Front(log + [a]) == log;
  }

  lemma SameSeries(a: seq<Artifact>, b: seq<Artifact>, i: Id, k: Id)
    requires forall place :: Bodies(a, i, place) == Bodies(b, i, place)
    ensures ExpectedSeries(a, i, k) == ExpectedSeries(b, i, k)
  {
    assert Bodies(a, i, SeriesStartOf(k)) == Bodies(b, i, SeriesStartOf(k));
    assert Bodies(a, i, SeriesEndOf(k)) == Bodies(b, i, SeriesEndOf(k));
    assert Bodies(a, i, ElementsOf(k)) == Bodies(b, i, ElementsOf(k));
  }

  /** The models of two logs are the same where ids and places hold the same. */
  lemma SameStepModel(a: seq<Artifact>, b: seq<Artifact>, i: Id)
    requires forall place :: Bodies(a, i, place) == Bodies(b, i, place)
    requires SeriesIds(a, i) == SeriesIds(b, i)
    ensures ExpectedStep(a, i) == ExpectedStep(b, i)
  {
    assert ExpectedSeriesList(a, i) == ExpectedSeriesList(b, i) by {
      forall k ensures ExpectedSeries(a, i, k) == ExpectedSeries(b, i, k) { SameSeries(a, b, i, k); }
    }
    assert Bodies(a, i, Start) == Bodies(b, i, Start) && Bodies(a, i, End) == Bodies(b, i, End);
  }

  /** Artifacts of other steps leave a step's model alone. */
  lemma OtherStep(log: seq<Artifact>, a: Artifact, i: Id)
    requires !a.StepArtifact? || a.step != i
    ensures ExpectedStep(log + [a], i) == ExpectedStep(log, i)
  {
    IdsExtend(log, a, i);
    forall place ensures Bodies(log + [a], i, place) == Bodies(log, i, place) { BodiesExtend(log, a, i, place); }
    SameStepModel(log + [a], log, i);
  }
}
