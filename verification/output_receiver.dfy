/** OutputReceiver (output_receiver.cc): demultiplexing the log through two hash maps. */
module OutputReceivers {
  import opened Options
  import opened Artifacts
  import opened OutputModels
  import opened SeriesCounts

  /** The receiver's fields once model_ has a value. */
  datatype Receiver = Receiver(model: OutputModel, stepIdx: map<Id, nat>, seriesIdx: map<Id, nat>)

  const Fresh := Receiver(EmptyModel, map[], map[])

  /** Registers a step id, appending an empty step model when it is new. */
  function WithStep(r: Receiver, i: Id): Receiver {
    if i in r.stepIdx then r
    else r.(stepIdx := r.stepIdx[i := |r.model.steps|], model := r.model.(steps := r.model.steps + [EmptyStep(i)]))
  }

  /** Registers a series id under the step at index idx. */
  function WithSeries(r: Receiver, k: Id, idx: nat): Receiver
    requires idx < |r.model.steps|
  {
    if k in r.seriesIdx then r
    else
      var st := r.model.steps[idx];
      r.(seriesIdx := r.seriesIdx[k := |st.series|],
         model := r.model.(steps := r.model.steps[idx := st.(series := st.series + [EmptySeries])]))
  }

  /** Adds a body that is no series artifact. */
  function AddBody(st: StepModel, body: StepBody): StepModel
    requires !body.OfSeries()
  {
    match body
    case StepStart(_) => st.(start := Some(body))
    case StepEnd(_) => st.(end := Some(body))
    case Measurement(_) => st.(measurements := st.measurements + [body])
    case Diagnosis(_, _) => st.(diagnoses := st.diagnoses + [body])
    case ErrorBody(_) => st.(errors := st.errors + [body])
    case File(_) => st.(files := st.files + [body])
    case Log(_, _) => st.(logs := st.logs + [body])
    case Extension(_) => st.(extensions := st.extensions + [body])
  }

  function AddToSeries(m: SeriesModel, body: StepBody): SeriesModel
    requires body.OfSeries()
  {
    match body
    case SeriesStart(_, _, _) => m.(start := Some(body))
    case SeriesEnd(_, _) => m.(end := Some(body))
    case SeriesElement(_, _, _, _) => m.(elements := m.elements + [body])
  }

  function PutStepModel(r: Receiver, idx: nat, st: StepModel): Receiver
    requires idx < |r.model.steps|
  {
    r.(model := r.model.(steps := r.model.steps[idx := st]))
  }

  /** Handling one artifact; None when a vector is indexed out of bounds. */
  function Receive(r: Receiver, a: Artifact): Option<Receiver> {
    match a
    case Schema(_, _) => Some(r.(model := r.model.(schema := Some(a))))
    case RunStart(_) => Some(r.(model := r.model.(runStart := Some(a))))
    case RunEnd(_, _) => Some(r.(model := r.model.(runEnd := Some(a))))
    case RunLog(text) => Some(r.(model := r.model.(preStartLogs := r.model.preStartLogs + [text])))
    case RunError(text) => Some(r.(model := r.model.(preStartErrors := r.model.preStartErrors + [text])))
    case StepArtifact(i, body) =>
      var r1 := WithStep(r, i);
      var idx := r1.stepIdx[i];
      if idx >= |r1.model.steps| then None
      else if !body.OfSeries() then Some(PutStepModel(r1, idx, AddBody(r1.model.steps[idx], body)))
      else
        var r2 := WithSeries(r1, body.series, idx);
        var st := r2.model.steps[idx];
        var sidx := r2.seriesIdx[body.series];
        if sidx >= |st.series| then None
        else Some(PutStepModel(r2, idx, st.(series := st.series[sidx := AddToSeries(st.series[sidx], body)])))
  }

  // ---- A receiver in step with a log ----

  /** The step map gives each id its place, and knows no other id. */
  ghost predicate StepsIndexed(stepIdx: map<Id, nat>, log: seq<Artifact>) {
    && (forall i :: i in stepIdx <==> i in StepIds(log))
    && (forall j | 0 <= j < |StepIds(log)| :: StepIds(log)[j] in stepIdx && stepIdx[StepIds(log)[j]] == j)
  }

  /** The same of both maps: a series has its place in the list of its step. */
  ghost predicate Indexed(r: Receiver, log: seq<Artifact>) {
    && StepsIndexed(r.stepIdx, log)
    && (forall i, j | 0 <= j < |SeriesIds(log, i)| ::
          SeriesIds(log, i)[j] in r.seriesIdx && r.seriesIdx[SeriesIds(log, i)[j]] == j)
    && (forall k | k in r.seriesIdx :: exists p :: 0 <= p < |log| && SeriesArtifact(log[p]) && log[p].body.series == k)
  }

  ghost predicate Tracks(r: Receiver, log: seq<Artifact>) { r.model == Expected(log) && Indexed(r, log) }

  lemma FreshTracks()
    ensures Tracks(Fresh, [])
  {
    assert Expected([]) == EmptyModel;
  }

  // ---- What one more artifact adds to the expected model of its step ----

  lemma SeriesListKept(log: seq<Artifact>, a: Artifact)
    requires a.StepArtifact? && !a.body.OfSeries()
    ensures ExpectedSeriesList(log + [a], a.step) == ExpectedSeriesList(log, a.step)
  {
    IdsExtend(log, a, a.step);
    forall k ensures ExpectedSeries(log + [a], a.step, k) == ExpectedSeries(log, a.step, k) {
      BodiesExtend(log, a, a.step, SeriesStartOf(k));
      BodiesExtend(log, a, a.step, SeriesEndOf(k));
      BodiesExtend(log, a, a.step, ElementsOf(k));
    }
  }

  lemma BodyGrows(log: seq<Artifact>, a: Artifact)
    requires a.StepArtifact? && !a.body.OfSeries()
    ensures ExpectedStep(log + [a], a.step) == AddBody(ExpectedStep(log, a.step), a.body)
  {
    SeriesListKept(log, a);
    BodiesExtend(log, a, a.step, Start);
    BodiesExtend(log, a, a.step, End);
    BodiesExtend(log, a, a.step, Logs);
    BodiesExtend(log, a, a.step, Errors);
    BodiesExtend(log, a, a.step, Files);
    BodiesExtend(log, a, a.step, Extensions);
    BodiesExtend(log, a, a.step, Measurements);
    BodiesExtend(log, a, a.step, Diagnoses);
  }

  lemma OneSeriesGrows(log: seq<Artifact>, a: Artifact, k: Id)
    requires SeriesArtifact(a)
    ensures ExpectedSeries(log + [a], a.step, k) ==
            if k == a.body.series then AddToSeries(ExpectedSeries(log, a.step, k), a.body)
            else ExpectedSeries(log, a.step, k)
  {
    BodiesExtend(log, a, a.step, SeriesStartOf(k));
    BodiesExtend(log, a, a.step, SeriesEndOf(k));
    BodiesExtend(log, a, a.step, ElementsOf(k));
  }

  /** The list of series of a step after registering k, if it is new there. */
  function Registered(log: seq<Artifact>, i: Id, k: Id): seq<SeriesModel> {
    if k in SeriesIds(log, i) then ExpectedSeriesList(log, i) else ExpectedSeriesList(log, i) + [EmptySeries]
  }

  /** One entry of the list of series. */
  lemma SeriesEntryGrows(log: seq<Artifact>, a: Artifact, sidx: nat, j: nat)
    requires SeriesArtifact(a)
    requires sidx < |SeriesIds(log + [a], a.step)| && SeriesIds(log + [a], a.step)[sidx] == a.body.series
    requires j < |SeriesIds(log + [a], a.step)|
    ensures |Registered(log, a.step, a.body.series)| == |SeriesIds(log + [a], a.step)|
    ensures var before := Registered(log, a.step, a.body.series)[j];
            ExpectedSeries(log + [a], a.step, SeriesIds(log + [a], a.step)[j]) ==
            if j == sidx then AddToSeries(before, a.body) else before
  {
    var i, k := a.step, a.body.series;
    var ids := SeriesIds(log + [a], i);
    IdsExtend(log, a, i);
    SeriesIdsDistinct(log + [a], i);
    if k !in SeriesIds(log, i) { UnseenSeries(log, i, k); }
    OneSeriesGrows(log, a, ids[j]);
    assert j != sidx ==> ids[j] != ids[sidx];
  }

  lemma SeriesListGrows(log: seq<Artifact>, a: Artifact, sidx: nat)
    requires SeriesArtifact(a)
    requires sidx < |SeriesIds(log + [a], a.step)| && SeriesIds(log + [a], a.step)[sidx] == a.body.series
    ensures var list := Registered(log, a.step, a.body.series);
            sidx < |list| &&
            ExpectedSeriesList(log + [a], a.step) == list[sidx := AddToSeries(list[sidx], a.body)]
  {
    SeriesEntryGrows(log, a, sidx, sidx);
    var list, ids := Registered(log, a.step, a.body.series), SeriesIds(log + [a], a.step);
    forall j | 0 <= j < |ids|
      ensures ExpectedSeriesList(log + [a], a.step)[j] == list[sidx := AddToSeries(list[sidx], a.body)][j]
    {
      SeriesEntryGrows(log, a, sidx, j);
    }
  }

  /** A series artifact changes nothing but the list of series. */
  lemma OtherPlaces(log: seq<Artifact>, a: Artifact, before: StepModel, after: StepModel)
    requires SeriesArtifact(a) && before == ExpectedStep(log, a.step) && after == ExpectedStep(log + [a], a.step)
    ensures after == before.(series := after.series)
  {
    forall place
      ensures place == Start || place == End || place == Logs || place == Errors || place == Files ||
              place == Extensions || place == Measurements || place == Diagnoses ==>
                Bodies(log + [a], a.step, place) == Bodies(log, a.step, place) &&
                Latest(log + [a], a.step, place) == Latest(log, a.step, place)
    {
      BodiesExtend(log, a, a.step, place);
    }
  }

  lemma SeriesGrows(log: seq<Artifact>, a: Artifact, sidx: nat)
    requires SeriesArtifact(a)
    requires sidx < |SeriesIds(log + [a], a.step)| && SeriesIds(log + [a], a.step)[sidx] == a.body.series
    ensures var list := Registered(log, a.step, a.body.series);
            sidx < |list| &&
            ExpectedStep(log + [a], a.step) ==
            ExpectedStep(log, a.step).(series := list[sidx := AddToSeries(list[sidx], a.body)])
  {
    SeriesListGrows(log, a, sidx);
    OtherPlaces(log, a, ExpectedStep(log, a.step), ExpectedStep(log + [a], a.step));
  }

  // ---- Registering ids ----

  lemma {:induction false} StepModelsRegistered(r: Receiver, log: seq<Artifact>, a: Artifact)
    requires Tracks(r, log) && a.StepArtifact?
    ensures var ids := StepIds(log + [a]); var steps := WithStep(r, a.step).model.steps;
            |steps| == |ids| && forall j | 0 <= j < |ids| :: steps[j] == ExpectedStep(log, ids[j])
  {
    IdsExtend(log, a, a.step);
    if a.step !in StepIds(log) {
      UnseenStep(log, a.step);
      assert ExpectedSeriesList(log, a.step) == [];
      assert ExpectedStep(log, a.step) == EmptyStep(a.step);
    }
  }

  lemma StepRegistered(r: Receiver, log: seq<Artifact>, a: Artifact)
    requires Tracks(r, log) && a.StepArtifact?
    ensures StepsIndexed(WithStep(r, a.step).stepIdx, log + [a])
  {
    IdsExtend(log, a, a.step);
    assert |r.model.steps| == |StepIds(log)|;
  }

  /** Under the hypothesis, a series that is new to its step is new to the receiver. */
  lemma NewSeriesIsNew(r: Receiver, log: seq<Artifact>, a: Artifact)
    requires Indexed(r, log) && SeriesArtifact(a) && OneStepPerSeries(log + [a])
    ensures a.body.series in r.seriesIdx <==> a.body.series in SeriesIds(log, a.step)
  {
    var k := a.body.series;
    if k in r.seriesIdx {
      var p :| 0 <= p < |log| && SeriesArtifact(log[p]) && log[p].body.series == k;
      assert (log + [a])[p] == log[p] && (log + [a])[|log|] == a;
      assert log[p].step == a.step;
      SeriesIdListed(log, p);
    }
  }

  // ---- One artifact ----

  lemma StepsAfter(log: seq<Artifact>, a: Artifact, steps: seq<StepModel>, idx: nat, st: StepModel)
    requires a.StepArtifact?
    requires var ids := StepIds(log + [a]);
             |steps| == |ids| && (forall j | 0 <= j < |ids| :: steps[j] == ExpectedStep(log, ids[j])) &&
             idx < |ids| && ids[idx] == a.step
    requires st == ExpectedStep(log + [a], a.step)
    ensures Expected(log + [a]) == Expected(log).(steps := steps[idx := st])
  {
    var ids, after := StepIds(log + [a]), steps[idx := st];
    StepIdsDistinct(log + [a]);
    assert Front(log + [a]) == log;
    forall j | 0 <= j < |ids|
      ensures after[j] == ExpectedStep(log + [a], ids[j])
    {
      if j != idx { OtherStep(log, a, ids[j]); }
    }
    assert Expected(log + [a]).steps == after;
  }

  /** The series map after one more artifact: unless the series is new, it stays as it is. */
  ghost predicate SeriesRegistered(before: map<Id, nat>, log: seq<Artifact>, a: Artifact, after: map<Id, nat>) {
    && (after == before ||
        (SeriesArtifact(a) && a.body.series !in before && after == before[a.body.series := |SeriesIds(log, a.step)|]))
    && (SeriesArtifact(a) && a.body.series !in SeriesIds(log, a.step) ==> after != before)
  }

  lemma IndexedSeries(r: Receiver, log: seq<Artifact>, a: Artifact, after: map<Id, nat>, i: Id, j: nat)
    requires Indexed(r, log) && SeriesRegistered(r.seriesIdx, log, a, after) && j < |SeriesIds(log + [a], i)|
    ensures SeriesIds(log + [a], i)[j] in after && after[SeriesIds(log + [a], i)[j]] == j
  {
    IdsExtend(log, a, i);
    if j < |SeriesIds(log, i)| { assert SeriesIds(log, i)[j] in r.seriesIdx; }
  }

  lemma IndexedKnown(r: Receiver, log: seq<Artifact>, a: Artifact, after: map<Id, nat>, k: Id)
    requires Indexed(r, log) && SeriesRegistered(r.seriesIdx, log, a, after) && k in after
    ensures exists p :: 0 <= p < |log + [a]| && SeriesArtifact((log + [a])[p]) && (log + [a])[p].body.series == k
  {
    if k in r.seriesIdx {
      var p :| 0 <= p < |log| && SeriesArtifact(log[p]) && log[p].body.series == k;
      assert (log + [a])[p] == log[p];
    } else {
      assert (log + [a])[|log|] == a;
    }
  }

  lemma IndexedExtend(r: Receiver, log: seq<Artifact>, a: Artifact, r': Receiver)
    requires Indexed(r, log) && StepsIndexed(r'.stepIdx, log + [a])
    requires SeriesRegistered(r.seriesIdx, log, a, r'.seriesIdx)
    ensures Indexed(r', log + [a])
  {
    forall i, j: nat | j < |SeriesIds(log + [a], i)|
      ensures SeriesIds(log + [a], i)[j] in r'.seriesIdx && r'.seriesIdx[SeriesIds(log + [a], i)[j]] == j
    {
      IndexedSeries(r, log, a, r'.seriesIdx, i, j);
    }
    forall k | k in r'.seriesIdx
      ensures exists p :: 0 <= p < |log + [a]| && SeriesArtifact((log + [a])[p]) && (log + [a])[p].body.series == k
    {
      IndexedKnown(r, log, a, r'.seriesIdx, k);
    }
  }

  /** Handling any other step artifact, as one update of one step. */
  lemma ReceiveBodyShape(r: Receiver, a: Artifact, r1: Receiver, idx: nat)
    requires a.StepArtifact? && !a.body.OfSeries() && r1 == WithStep(r, a.step)
    requires idx == r1.stepIdx[a.step] && idx < |r1.model.steps|
    ensures var st := AddBody(r1.model.steps[idx], a.body);
            Receive(r, a) == Some(r1.(model := r1.model.(steps := r1.model.steps[idx := st])))
  {
  }

  lemma ReceiveBodyModel(r: Receiver, log: seq<Artifact>, a: Artifact)
    requires Tracks(r, log) && a.StepArtifact? && !a.body.OfSeries()
    ensures var r1 := WithStep(r, a.step);
            Receive(r, a).Some? && Receive(r, a).value == r1.(model := Expected(log + [a]))
  {
    StepSlot(r, log, a);
    var r1 := WithStep(r, a.step);
    var idx := r1.stepIdx[a.step];
    ReceiveBodyShape(r, a, r1, idx);
    BodyGrows(log, a);
    StepsAfter(log, a, r1.model.steps, idx, AddBody(r1.model.steps[idx], a.body));
  }

  lemma ReceiveBody(r: Receiver, log: seq<Artifact>, a: Artifact)
    requires Tracks(r, log) && a.StepArtifact? && !a.body.OfSeries()
    ensures Receive(r, a).Some? && Tracks(Receive(r, a).value, log + [a])
  {
    ReceiveBodyModel(r, log, a);
    BodyTracked(r, log, a, Receive(r, a).value);
  }

  lemma BodyTracked(r: Receiver, log: seq<Artifact>, a: Artifact, r': Receiver)
    requires Tracks(r, log) && a.StepArtifact? && !a.body.OfSeries()
    requires r' == WithStep(r, a.step).(model := Expected(log + [a]))
    ensures Tracks(r', log + [a])
  {
    StepRegistered(r, log, a);
    IndexedExtend(r, log, a, r');
  }

  /** The slots in which a series artifact is handled. */
  lemma StepSlot(r: Receiver, log: seq<Artifact>, a: Artifact)
    requires Tracks(r, log) && a.StepArtifact?
    ensures var r1 := WithStep(r, a.step); var ids := StepIds(log + [a]); var idx := r1.stepIdx[a.step];
            && idx < |r1.model.steps| == |ids| && ids[idx] == a.step
            && (forall j | 0 <= j < |ids| :: r1.model.steps[j] == ExpectedStep(log, ids[j]))
  {
    StepRegistered(r, log, a);
    StepModelsRegistered(r, log, a);
    IdsExtend(log, a, a.step);
    var ids := StepIds(log + [a]);
    var j :| 0 <= j < |ids| && ids[j] == a.step;
  }

  lemma SeriesSlot(r: Receiver, log: seq<Artifact>, a: Artifact)
    requires Tracks(r, log) && SeriesArtifact(a) && OneStepPerSeries(log + [a])
    ensures a.body.series in r.seriesIdx <==> a.body.series in SeriesIds(log, a.step)
    ensures var sids := SeriesIds(log + [a], a.step);
            var sidx := if a.body.series in r.seriesIdx then r.seriesIdx[a.body.series] else |SeriesIds(log, a.step)|;
            sidx < |sids| && sids[sidx] == a.body.series
  {
    NewSeriesIsNew(r, log, a);
    IdsExtend(log, a, a.step);
    var k, sids := a.body.series, SeriesIds(log, a.step);
    if k in sids {
      var x :| 0 <= x < |sids| && sids[x] == k;
    }
  }

  /** Handling a series artifact, as one update of one step's list of series. */
  lemma ReceiveSeriesShape(r: Receiver, a: Artifact, list: seq<SeriesModel>, idx: nat, sidx: nat)
    requires SeriesArtifact(a)
    requires idx == WithStep(r, a.step).stepIdx[a.step] && idx < |WithStep(r, a.step).model.steps|
    requires var series := WithStep(r, a.step).model.steps[idx].series;
             list == (if a.body.series in r.seriesIdx then series else series + [EmptySeries]) &&
             sidx == (if a.body.series in r.seriesIdx then r.seriesIdx[a.body.series] else |series|) && sidx < |list|
    ensures var r1 := WithStep(r, a.step);
            var st := r1.model.steps[idx].(series := list[sidx := AddToSeries(list[sidx], a.body)]);
            Receive(r, a) == Some(Receiver(
              r1.model.(steps := r1.model.steps[idx := st]), r1.stepIdx,
              if a.body.series in r.seriesIdx then r.seriesIdx else r.seriesIdx[a.body.series := sidx]))
  {
    var r1 := WithStep(r, a.step);
    var r2 := WithSeries(r1, a.body.series, idx);
    var st := r1.model.steps[idx].(series := list[sidx := AddToSeries(list[sidx], a.body)]);
    assert r2.model.steps[idx := st] == r1.model.steps[idx := st];
  }

  lemma ReceiveSeries(r: Receiver, log: seq<Artifact>, a: Artifact)
    requires Tracks(r, log) && SeriesArtifact(a) && OneStepPerSeries(log + [a])
    ensures Receive(r, a).Some? && Tracks(Receive(r, a).value, log + [a])
  {
    StepSlot(r, log, a);
    SeriesSlot(r, log, a);
    StepRegistered(r, log, a);
    var i, k := a.step, a.body.series;
    var r1 := WithStep(r, i);
    var idx := r1.stepIdx[i];
    var sidx := if k in r.seriesIdx then r.seriesIdx[k] else |SeriesIds(log, i)|;
    var list := Registered(log, i, k);
    SeriesGrows(log, a, sidx);
    ReceiveSeriesShape(r, a, list, idx, sidx);
    var st := r1.model.steps[idx].(series := list[sidx := AddToSeries(list[sidx], a.body)]);
    StepsAfter(log, a, r1.model.steps, idx, st);
    ReceiveSeriesTracks(r, log, a, Receive(r, a).value);
  }

  lemma ReceiveSeriesTracks(r: Receiver, log: seq<Artifact>, a: Artifact, r': Receiver)
    requires Tracks(r, log) && SeriesArtifact(a) && OneStepPerSeries(log + [a])
    requires r'.stepIdx == WithStep(r, a.step).stepIdx
    requires r'.seriesIdx == if a.body.series in r.seriesIdx then r.seriesIdx
                             else r.seriesIdx[a.body.series := |SeriesIds(log, a.step)|]
    requires r'.model == Expected(log + [a])
    ensures Tracks(r', log + [a])
  {
    StepRegistered(r, log, a);
    SeriesSlot(r, log, a);
    IndexedExtend(r, log, a, r');
  }

  lemma RunArtifactKeepsSteps(log: seq<Artifact>, a: Artifact)
    requires !a.StepArtifact?
    ensures StepIds(log + [a]) == StepIds(log) && Expected(log + [a]).steps == Expected(log).steps
  {
    IdsExtend(log, a, 0);
    var ids := StepIds(log);
    forall j | 0 <= j < |ids| ensures ExpectedStep(log + [a], ids[j]) == ExpectedStep(log, ids[j]) {
      OtherStep(log, a, ids[j]);
    }
    assert Expected(log + [a]).steps == Expected(log).steps;
  }

  lemma ReceiveRunModel(r: Receiver, log: seq<Artifact>, a: Artifact)
    requires r.model == Expected(log) && !a.StepArtifact?
    ensures Receive(r, a) == Some(r.(model := Expected(log + [a])))
  {
    assert Expected(log + [a]).steps == Expected(log).steps by { RunArtifactKeepsSteps(log, a); }
    RunPlacesExtend(log, a);
    assert AtRunPlace(a, SchemaPlace) <==> a.Schema?;
    assert AtRunPlace(a, RunStartPlace) <==> a.RunStart?;
    assert AtRunPlace(a, RunEndPlace) <==> a.RunEnd?;
  }

  lemma ReceiveRun(r: Receiver, log: seq<Artifact>, a: Artifact)
    requires Tracks(r, log) && !a.StepArtifact?
    ensures Receive(r, a).Some? && Tracks(Receive(r, a).value, log + [a])
  {
    ReceiveRunModel(r, log, a);
    RunArtifactKeepsSteps(log, a);
    IndexedExtend(r, log, a, r.(model := Expected(log + [a])));
  }

  /** A receiver in step with a log stays in step when it reads one more artifact. */
  lemma ReceiveTracks(r: Receiver, log: seq<Artifact>, a: Artifact)
    requires Tracks(r, log) && OneStepPerSeries(log + [a])
    ensures Receive(r, a).Some? && Tracks(Receive(r, a).value, log + [a])
  {
    if !a.StepArtifact? {
      ReceiveRun(r, log, a);
    } else if a.body.OfSeries() {
      ReceiveSeries(r, log, a);
    } else {
      ReceiveBody(r, log, a);
    }
  }

  // ---- A whole log ----

  /** Reading a log artifact by artifact; None when a vector is indexed out of bounds. */
  function ReadAll(r: Receiver, log: seq<Artifact>): Option<Receiver> {
    if log == [] then Some(r) else
    match ReadAll(r, Front(log))
    case None => None
    case Some(r') => Receive(r', Last(log))
  }

  /** A first build, of any log whose series ids each occur under one step id, stays in bounds and files
      every artifact where it belongs. */
  lemma {:induction false} FirstBuildTracks(log: seq<Artifact>)
    requires OneStepPerSeries(log)
    ensures ReadAll(Fresh, log).Some? && Tracks(ReadAll(Fresh, log).value, log)
  {
    if log == [] {
      FreshTracks();
    } else {
      FirstBuildTracks(Front(log));
      assert Front(log) + [Last(log)] == log;
      ReceiveTracks(ReadAll(Fresh, Front(log)).value, Front(log), Last(log));
    }
  }

  // ---- No other log is filed as expected: a series id gets one entry, however many steps use it ----

  predicate Counted(r: Receiver, log: seq<Artifact>) {
    r.seriesIdx.Keys == SeriesOf(log) && SeriesTotal(r.model.steps) == |SeriesOf(log)|
  }

  lemma WithStepCounted(r: Receiver, i: Id)
    ensures WithStep(r, i).seriesIdx == r.seriesIdx
    ensures SeriesTotal(WithStep(r, i).model.steps) == SeriesTotal(r.model.steps)
  {
    SeriesTotalAppend(r.model.steps, EmptyStep(i));
  }

  lemma WithSeriesCounted(r: Receiver, k: Id, idx: nat)
    requires idx < |r.model.steps| && SeriesTotal(r.model.steps) == |r.seriesIdx.Keys|
    ensures WithSeries(r, k, idx).seriesIdx.Keys == r.seriesIdx.Keys + {k}
    ensures SeriesTotal(WithSeries(r, k, idx).model.steps) == |WithSeries(r, k, idx).seriesIdx.Keys|
  {
    var st := r.model.steps[idx];
    SeriesTotalUpdate(r.model.steps, idx, st.(series := st.series + [EmptySeries]));
  }

  lemma BodyCounted(r: Receiver, a: Artifact)
    requires a.StepArtifact? && !a.body.OfSeries() && Receive(r, a).Some?
    ensures Receive(r, a).value.seriesIdx == r.seriesIdx
    ensures SeriesTotal(Receive(r, a).value.model.steps) == SeriesTotal(r.model.steps)
  {
    var r1 := WithStep(r, a.step);
    var idx := r1.stepIdx[a.step];
    WithStepCounted(r, a.step);
    SeriesTotalUpdate(r1.model.steps, idx, AddBody(r1.model.steps[idx], a.body));
  }

  lemma FiledCounted(r: Receiver, a: Artifact, r1: Receiver, idx: nat, r2: Receiver)
    requires SeriesArtifact(a) && Receive(r, a).Some?
    requires r1 == WithStep(r, a.step) && idx == r1.stepIdx[a.step] && r2 == WithSeries(r1, a.body.series, idx)
    ensures Receive(r, a).value.seriesIdx == r2.seriesIdx
    ensures SeriesTotal(Receive(r, a).value.model.steps) == SeriesTotal(r2.model.steps)
  {
    var st, sidx := r2.model.steps[idx], r2.seriesIdx[a.body.series];
    SeriesTotalUpdate(r2.model.steps, idx, st.(series := st.series[sidx := AddToSeries(st.series[sidx], a.body)]));
  }

  lemma SeriesCounted(r: Receiver, a: Artifact)
    requires SeriesArtifact(a) && Receive(r, a).Some? && SeriesTotal(r.model.steps) == |r.seriesIdx.Keys|
    ensures Receive(r, a).value.seriesIdx.Keys == r.seriesIdx.Keys + {a.body.series}
    ensures SeriesTotal(Receive(r, a).value.model.steps) == |Receive(r, a).value.seriesIdx.Keys|
  {
    var r1 := WithStep(r, a.step);
    var idx := r1.stepIdx[a.step];
    FiledCounted(r, a, r1, idx, WithSeries(r1, a.body.series, idx));
    WithStepCounted(r, a.step);
    WithSeriesCounted(r1, a.body.series, idx);
  }

  lemma ReceiveCounted(r: Receiver, log: seq<Artifact>, a: Artifact)
    requires Counted(r, log) && Receive(r, a).Some?
    ensures Counted(Receive(r, a).value, log + [a])
  {
    SeriesOfExtend(log, a);
    if SeriesArtifact(a) {
      SeriesCounted(r, a);
    } else if a.StepArtifact? {
      BodyCounted(r, a);
    }
  }

  lemma {:induction false} ReadAllCounted(log: seq<Artifact>)
    requires ReadAll(Fresh, log).Some?
    ensures Counted(ReadAll(Fresh, log).value, log)
  {
    if log != [] {
      ReadAllCounted(Front(log));
      assert Front(log) + [Last(log)] == log;
      ReceiveCounted(ReadAll(Fresh, Front(log)).value, Front(log), Last(log));
    }
  }

  /** A first build stays in bounds and files every artifact where it belongs exactly when each series id of the
      log occurs under one step id. */
  lemma FirstBuild(log: seq<Artifact>)
    ensures ReadAll(Fresh, log).Some? && ReadAll(Fresh, log).value.model == Expected(log) <==> OneStepPerSeries(log)
  {
    if OneStepPerSeries(log) {
      FirstBuildTracks(log);
    } else if ReadAll(Fresh, log).Some? {
      ReadAllCounted(log);
      ExpectedTotal(log);
      SharedSeries(log);
    }
  }

  predicate HasStepArtifact(log: seq<Artifact>) { exists p :: 0 <= p < |log| && log[p].StepArtifact? }

  /** A receiver whose maps survived a reset: step ids are known, step models are gone. */
  ghost predicate Stale(r: Receiver, log: seq<Artifact>) {
    r.model.steps == [] && forall p | 0 <= p < |log| && log[p].StepArtifact? :: log[p].step in r.stepIdx
  }

  lemma ReceiveKeepsIds(r: Receiver, a: Artifact, i: Id)
    requires Receive(r, a).Some? && (i in r.stepIdx || (a.StepArtifact? && a.step == i))
    ensures i in Receive(r, a).value.stepIdx
  {
  }

  lemma {:induction false} IdsKept(r: Receiver, log: seq<Artifact>, p: nat)
    requires ReadAll(r, log).Some? && p < |log| && log[p].StepArtifact?
    ensures log[p].step in ReadAll(r, log).value.stepIdx
  {
    if p < |log| - 1 {
      assert Front(log)[p] == log[p];
      IdsKept(r, Front(log), p);
    }
    ReceiveKeepsIds(ReadAll(r, Front(log)).value, Last(log), log[p].step);
  }

  lemma {:induction false} StaleBuild(r: Receiver, log: seq<Artifact>)
    requires Stale(r, log)
    ensures ReadAll(r, log).Some? <==> !HasStepArtifact(log)
    ensures ReadAll(r, log).Some? ==>
              ReadAll(r, log).value.stepIdx == r.stepIdx && ReadAll(r, log).value.model.steps == []
  {
    if log != [] {
      forall p | 0 <= p < |Front(log)| && Front(log)[p].StepArtifact? ensures Front(log)[p].step in r.stepIdx {
        assert log[p] == Front(log)[p];
      }
      StaleBuild(r, Front(log));
      if HasStepArtifact(Front(log)) {
        var p :| 0 <= p < |Front(log)| && Front(log)[p].StepArtifact?;
        assert log[p].StepArtifact?;
      } else if Last(log).StepArtifact? {
        assert log[|log| - 1].StepArtifact?;
      } else {
        forall p | 0 <= p < |log| ensures !log[p].StepArtifact? {
          if p < |log| - 1 { assert Front(log)[p] == log[p]; }
        }
      }
    }
  }

  /** ResetModel keeps the maps: rebuilding the same log stays in bounds exactly when the log holds no
      artifact of any step. */
  lemma RebuildAfterReset(log: seq<Artifact>)
    requires ReadAll(Fresh, log).Some?
    ensures ReadAll(ReadAll(Fresh, log).value.(model := EmptyModel), log).Some? <==> !HasStepArtifact(log)
  {
    var r := ReadAll(Fresh, log).value.(model := EmptyModel);
    forall p | 0 <= p < |log| && log[p].StepArtifact? ensures log[p].step in r.stepIdx { IdsKept(Fresh, log, p); }
    StaleBuild(r, log);
  }

  // ---- Nothing is lost ----

  function ElementTotal(series: seq<SeriesModel>): nat {
    if series == [] then 0 else ElementTotal(series[..|series| - 1]) + |series[|series| - 1].elements|
  }

  function StepTotal(st: StepModel): nat {
    |st.logs| + |st.errors| + |st.files| + |st.extensions| + |st.measurements| + |st.diagnoses| + ElementTotal(st.series)
  }

  function StepsTotal(steps: seq<StepModel>): nat {
    if steps == [] then 0 else StepsTotal(steps[..|steps| - 1]) + StepTotal(steps[|steps| - 1])
  }

  /** The artifacts held in the lists of a model. */
  function Listed(m: OutputModel): nat { |m.preStartLogs| + |m.preStartErrors| + StepsTotal(m.steps) }

  predicate Single(a: Artifact) {
    a.Schema? || a.RunStart? || a.RunEnd? ||
    (a.StepArtifact? && (a.body.StepStart? || a.body.StepEnd? || a.body.SeriesStart? || a.body.SeriesEnd?))
  }

  /** The starts, ends and schema versions of a log, which go to places that hold one value. */
  function Singles(log: seq<Artifact>): nat {
    if log == [] then 0 else Singles(Front(log)) + if Single(Last(log)) then 1 else 0
  }

  lemma {:induction false} ElementTotalUpdate(series: seq<SeriesModel>, j: nat, m: SeriesModel)
    requires j < |series|
    ensures ElementTotal(series[j := m]) + |series[j].elements| == ElementTotal(series) + |m.elements|
  {
    var n := |series| - 1;
    if j < n {
      ElementTotalUpdate(series[..n], j, m);
      assert series[j := m][..n] == series[..n][j := m];
    } else {
      assert series[j := m][..n] == series[..n];
    }
  }

  lemma {:induction false} StepsTotalUpdate(steps: seq<StepModel>, j: nat, st: StepModel)
    requires j < |steps|
    ensures StepsTotal(steps[j := st]) + StepTotal(steps[j]) == StepsTotal(steps) + StepTotal(st)
  {
    var n := |steps| - 1;
    if j < n {
      StepsTotalUpdate(steps[..n], j, st);
      assert steps[j := st][..n] == steps[..n][j := st];
    } else {
      assert steps[j := st][..n] == steps[..n];
    }
  }

  /** The models of the steps known after artifact a, as they were before it. */
  function Before(log: seq<Artifact>, a: Artifact): seq<StepModel> {
    var ids := StepIds(log + [a]);
    seq(|ids|, j requires 0 <= j < |ids| => ExpectedStep(log, ids[j]))
  }

  lemma UnseenTotal(log: seq<Artifact>, i: Id)
    requires i !in StepIds(log)
    ensures StepTotal(ExpectedStep(log, i)) == 0
  {
    UnseenStep(log, i);
    assert ExpectedSeriesList(log, i) == [];
  }

  lemma StepsTotalAppend(steps: seq<StepModel>, st: StepModel)
    ensures StepsTotal(steps + [st]) == StepsTotal(steps) + StepTotal(st)
  {
    assert (steps + [st])[..|steps|] == steps;
  }

  lemma BeforeTotal(log: seq<Artifact>, a: Artifact)
    requires a.StepArtifact?
    ensures StepsTotal(Before(log, a)) == StepsTotal(Expected(log).steps)
  {
    IdsExtend(log, a, a.step);
    var before, steps := Before(log, a), Expected(log).steps;
    if a.step in StepIds(log) {
      assert before == steps;
    } else {
      UnseenTotal(log, a.step);
      assert before == steps + [ExpectedStep(log, a.step)];
      StepsTotalAppend(steps, ExpectedStep(log, a.step));
    }
  }

  lemma BodyCountsOne(st: StepModel, body: StepBody, i: Id)
    requires !body.OfSeries()
    ensures StepTotal(AddBody(st, body)) == StepTotal(st) + if Single(StepArtifact(i, body)) then 0 else 1
  {
  }

  lemma RegisteredTotal(log: seq<Artifact>, i: Id, k: Id)
    ensures ElementTotal(Registered(log, i, k)) == ElementTotal(ExpectedSeriesList(log, i))
  {
    var list := Registered(log, i, k);
    if k !in SeriesIds(log, i) { assert list[..|list| - 1] == ExpectedSeriesList(log, i); }
  }

  lemma {:induction false} ListCountsOne(st: StepModel, list: seq<SeriesModel>, sidx: nat, a: Artifact)
    requires SeriesArtifact(a) && sidx < |list| && ElementTotal(list) == ElementTotal(st.series)
    ensures StepTotal(st.(series := list[sidx := AddToSeries(list[sidx], a.body)])) ==
            StepTotal(st) + if Single(a) then 0 else 1
  {
    ElementTotalUpdate(list, sidx, AddToSeries(list[sidx], a.body));
  }

  lemma SeriesCountsOne(log: seq<Artifact>, a: Artifact)
    requires SeriesArtifact(a)
    ensures StepTotal(ExpectedStep(log + [a], a.step)) ==
            StepTotal(ExpectedStep(log, a.step)) + if Single(a) then 0 else 1
  {
    IdsExtend(log, a, a.step);
    var sids := SeriesIds(log + [a], a.step);
    var sidx :| 0 <= sidx < |sids| && sids[sidx] == a.body.series;
    SeriesGrows(log, a, sidx);
    RegisteredTotal(log, a.step, a.body.series);
    ListCountsOne(ExpectedStep(log, a.step), Registered(log, a.step, a.body.series), sidx, a);
  }

  lemma StepGrowsByOne(log: seq<Artifact>, a: Artifact)
    requires a.StepArtifact?
    ensures StepTotal(ExpectedStep(log + [a], a.step)) ==
            StepTotal(ExpectedStep(log, a.step)) + if Single(a) then 0 else 1
  {
    if a.body.OfSeries() {
      SeriesCountsOne(log, a);
    } else {
      BodyGrows(log, a);
      BodyCountsOne(ExpectedStep(log, a.step), a.body, a.step);
    }
  }

  lemma StepPlace(log: seq<Artifact>, a: Artifact) returns (idx: nat)
    requires a.StepArtifact?
    ensures idx < |StepIds(log + [a])| && StepIds(log + [a])[idx] == a.step
  {
    IdsExtend(log, a, a.step);
    var ids := StepIds(log + [a]);
    idx :| 0 <= idx < |ids| && ids[idx] == a.step;
  }

  lemma StepsTotalGrows(log: seq<Artifact>, a: Artifact, steps: seq<StepModel>, idx: nat)
    requires a.StepArtifact? && steps == Before(log, a)
    requires idx < |StepIds(log + [a])| && StepIds(log + [a])[idx] == a.step
    ensures StepsTotal(Expected(log + [a]).steps) == StepsTotal(steps) + if Single(a) then 0 else 1
  {
    var st := ExpectedStep(log + [a], a.step);
    assert steps[idx] == ExpectedStep(log, a.step);
    assert StepTotal(st) == StepTotal(steps[idx]) + (if Single(a) then 0 else 1) by { StepGrowsByOne(log, a); }
    assert Expected(log + [a]).steps == steps[idx := st] by { StepsAfter(log, a, steps, idx, st); }
    StepsTotalUpdate(steps, idx, st);
  }

  lemma StepArtifactCounted(log: seq<Artifact>, a: Artifact)
    requires a.StepArtifact?
    ensures Listed(Expected(log + [a])) == Listed(Expected(log)) + if Single(a) then 0 else 1
  {
    BeforeTotal(log, a);
    var idx := StepPlace(log, a);
    StepsTotalGrows(log, a, Before(log, a), idx);
    assert Front(log + [a]) == log;
  }

  lemma RunArtifactCounted(log: seq<Artifact>, a: Artifact)
    requires !a.StepArtifact?
    ensures Listed(Expected(log + [a])) == Listed(Expected(log)) + if Single(a) then 0 else 1
  {
    assert Front(log + [a]) == log;
    IdsExtend(log, a, 0);
    var ids := StepIds(log);
    forall j | 0 <= j < |ids|
      ensures ExpectedStep(log + [a], ids[j]) == ExpectedStep(log, ids[j])
    {
      OtherStep(log, a, ids[j]);
    }
    assert Expected(log + [a]).steps == Expected(log).steps;
  }

  /** The lists of the model, with the starts, ends and schema versions, account for the whole log. */
  lemma {:induction false} NothingLost(log: seq<Artifact>)
    ensures Listed(Expected(log)) + Singles(log) == |log|
  {
    if log != [] {
      NothingLost(Front(log));
      assert log == Front(log) + [Last(log)];
      if Last(log).StepArtifact? {
        StepArtifactCounted(Front(log), Last(log));
      } else {
        RunArtifactCounted(Front(log), Last(log));
      }
    }
  }

  /** Reading one more artifact. */
  lemma ReadNext(r: Receiver, log: seq<Artifact>, n: nat, r': Receiver)
    requires n < |log| && ReadAll(r, log[..n]) == Some(r')
    ensures ReadAll(r, log[..n + 1]) == Receive(r', log[n])
    ensures Receive(r', log[n]) == None ==> ReadAll(r, log) == None
  {
    assert Front(log[..n + 1]) == log[..n];
    if Receive(r', log[n]) == None { NoneIsFinal(r, log, n + 1); }
  }

  // ---- The object ----

  class OutputReceiver {
    var model: Option<OutputModel>
    var stepIdx: map<Id, nat>
    var seriesIdx: map<Id, nat>

    function State(): Receiver
      reads this
      requires model.Some?
    {
      Receiver(model.value, stepIdx, seriesIdx)
    }

    constructor ()
      ensures model == None && stepIdx == map[] && seriesIdx == map[]
    {
      model, stepIdx, seriesIdx := None, map[], map[];
    }

    method GetTestStepIdx(i: Id) returns (idx: nat)
      requires model.Some?
      modifies this
      ensures model.Some? && State() == WithStep(old(State()), i) && idx == stepIdx[i]
    {
      if i in stepIdx { return stepIdx[i]; }
      idx := |model.value.steps|;
      stepIdx := stepIdx[i := idx];
      model := Some(model.value.(steps := model.value.steps + [EmptyStep(i)]));
    }

    method GetMeasurementSeriesIdx(k: Id, step: nat) returns (idx: nat)
      requires model.Some? && step < |model.value.steps|
      modifies this
      ensures model.Some? && State() == WithSeries(old(State()), k, step) && idx == seriesIdx[k]
    {
      if k in seriesIdx { return seriesIdx[k]; }
      var st := model.value.steps[step];
      idx := |st.series|;
      seriesIdx := seriesIdx[k := idx];
      model := Some(model.value.(steps := model.value.steps[step := st.(series := st.series + [EmptySeries])]));
    }

    /** A false result is an index out of bounds. */
    method HandleTestStepArtifact(a: Artifact) returns (ok: bool)
      requires model.Some? && a.StepArtifact?
      modifies this
      ensures model.Some? && ok == Receive(old(State()), a).Some?
      ensures ok ==> State() == Receive(old(State()), a).value
    {
      var idx := GetTestStepIdx(a.step);
      if idx >= |model.value.steps| { return false; }
      if !a.body.OfSeries() {
        var st := model.value.steps[idx];
        model := Some(model.value.(steps := model.value.steps[idx := AddBody(st, a.body)]));
        return true;
      }
      var sidx := GetMeasurementSeriesIdx(a.body.series, idx);
      var st := model.value.steps[idx];
      if sidx >= |st.series| { return false; }
      var m := AddToSeries(st.series[sidx], a.body);
      model := Some(model.value.(steps := model.value.steps[idx := st.(series := st.series[sidx := m])]));
      return true;
    }

    method HandleOutputArtifact(a: Artifact) returns (ok: bool)
      requires model.Some?
      modifies this
      ensures model.Some? && ok == Receive(old(State()), a).Some?
      ensures ok ==> State() == Receive(old(State()), a).value
    {
      ok := true;
      match a
      case Schema(_, _) => model := Some(model.value.(schema := Some(a)));
      case RunStart(_) => model := Some(model.value.(runStart := Some(a)));
      case RunEnd(_, _) => model := Some(model.value.(runEnd := Some(a)));
      case RunLog(text) => model := Some(model.value.(preStartLogs := model.value.preStartLogs + [text]));
      case RunError(text) => model := Some(model.value.(preStartErrors := model.value.preStartErrors + [text]));
      case StepArtifact(_, _) => ok := HandleTestStepArtifact(a);
    }

    method BuildModel(log: seq<Artifact>) returns (ok: bool)
      modifies this
      ensures ok == ReadAll(Receiver(EmptyModel, old(stepIdx), old(seriesIdx)), log).Some?
      ensures model.Some?
      ensures ok ==> State() == ReadAll(Receiver(EmptyModel, old(stepIdx), old(seriesIdx)), log).value
      ensures old(stepIdx) == map[] && old(seriesIdx) == map[] ==>
                (ok && model.value == Expected(log) <==> OneStepPerSeries(log))
    {
      model := Some(EmptyModel);
      ghost var r := State();
      if stepIdx == map[] && seriesIdx == map[] { FirstBuild(log); }
      var n := 0;
      while n < |log|
        invariant 0 <= n <= |log| && model.Some?
        invariant ReadAll(r, log[..n]) == Some(State())
      {
        ReadNext(r, log, n, State());
        var handled := HandleOutputArtifact(log[n]);
        if !handled { return false; }
        n := n + 1;
      }
      assert log[..n] == log;
      return true;
    }

    /** The model is cached, so a later call does not look at the log again. */
    method GetOutputModel(log: seq<Artifact>) returns (ok: bool)
      modifies this
      ensures old(model).Some? ==> ok && model == old(model)
      ensures old(model) == None && old(stepIdx) == map[] && old(seriesIdx) == map[] ==>
                (ok && model == Some(Expected(log)) <==> OneStepPerSeries(log))
    {
      ok := true;
      if model == None { ok := BuildModel(log); }
    }

    method ResetModel()
      modifies this
      ensures model == None && stepIdx == old(stepIdx) && seriesIdx == old(seriesIdx)
    {
      model := None;
    }
  }

  lemma {:induction false} NoneIsFinal(r: Receiver, log: seq<Artifact>, n: nat)
    requires n <= |log| && ReadAll(r, log[..n]) == None
    ensures ReadAll(r, log) == None
    decreases |log|
  {
    if n == |log| {
      assert log[..n] == log;
    } else {
      assert Front(log)[..n] == log[..n];
      NoneIsFinal(r, Front(log), n);
    }
  }
}
