/** How many series entries a log calls for, and how many a receiver can make. */
module SeriesCounts {
  import opened Artifacts
  import opened OutputModels

  function SeriesTotal(steps: seq<StepModel>): nat {
    if steps == [] then 0 else SeriesTotal(steps[..|steps| - 1]) + |steps[|steps| - 1].series|
  }

  /** The series ids of a log. */
  function SeriesOf(log: seq<Artifact>): set<Id> {
    set p | 0 <= p < |log| && SeriesArtifact(log[p]) :: log[p].body.series
  }

  /** Each with the id of a step under which it occurs. */
  function Pairs(log: seq<Artifact>): set<(Id, Id)> {
    set p | 0 <= p < |log| && SeriesArtifact(log[p]) :: (log[p].step, log[p].body.series)
  }

  lemma SeriesOfExtend(log: seq<Artifact>, a: Artifact)
    ensures SeriesOf(log + [a]) == SeriesOf(log) + if SeriesArtifact(a) then {a.body.series} else {}
  {
    var all := log + [a];
    assert forall p | 0 <= p < |log| :: all[p] == log[p];
    assert all[|log|] == a;
    forall k ensures k in SeriesOf(all) <==> k in SeriesOf(log) || (SeriesArtifact(a) && k == a.body.series) {
      if k in SeriesOf(log) {
        var p :| 0 <= p < |log| && SeriesArtifact(log[p]) && log[p].body.series == k;
        assert SeriesArtifact(all[p]);
      }
    }
  }

  lemma {:induction false} SeriesTotalUpdate(steps: seq<StepModel>, j: nat, st: StepModel)
    requires j < |steps|
    ensures SeriesTotal(steps[j := st]) + |steps[j].series| == SeriesTotal(steps) + |st.series|
  {
    var n := |steps| - 1;
    if j < n {
      SeriesTotalUpdate(steps[..n], j, st);
      assert steps[j := st][..n] == steps[..n][j := st];
    } else {
      assert steps[j := st][..n] == steps[..n];
    }
  }

  lemma SeriesTotalAppend(steps: seq<StepModel>, st: StepModel)
    ensures SeriesTotal(steps + [st]) == SeriesTotal(steps) + |st.series|
  {
    assert (steps + [st])[..|steps|] == steps;
  }

  // ---- The model has one entry for each pair ----

  function PairsUnder(i: Id, ids: seq<Id>): set<(Id, Id)> { set k | k in ids :: (i, k) }

  lemma {:induction false} PairsUnderSize(i: Id, ids: seq<Id>)
    requires forall x, y | 0 <= x < y < |ids| :: ids[x] != ids[y]
    ensures |PairsUnder(i, ids)| == |ids|
  {
    if ids == [] {
      assert PairsUnder(i, ids) == {};
    } else {
      var front, k := ids[..|ids| - 1], ids[|ids| - 1];
      PairsUnderSize(i, front);
      assert PairsUnder(i, ids) == PairsUnder(i, front) + {(i, k)};
    }
  }

  /** The pairs of the first steps. */
  function PairsOfSteps(log: seq<Artifact>, steps: seq<Id>): set<(Id, Id)> {
    if steps == [] then {} else
    PairsOfSteps(log, steps[..|steps| - 1]) + PairsUnder(steps[|steps| - 1], SeriesIds(log, steps[|steps| - 1]))
  }

  lemma {:induction false} PairsOfStepsHold(log: seq<Artifact>, steps: seq<Id>, pair: (Id, Id))
    ensures pair in PairsOfSteps(log, steps) <==> pair.0 in steps && pair.1 in SeriesIds(log, pair.0)
  {
    if steps != [] {
      PairsOfStepsHold(log, steps[..|steps| - 1], pair);
      assert steps == steps[..|steps| - 1] + [steps[|steps| - 1]];
    }
  }

  lemma {:induction false} StepsHaveTheirPairs(log: seq<Artifact>, steps: seq<Id>, models: seq<StepModel>)
    requires forall x, y | 0 <= x < y < |steps| :: steps[x] != steps[y]
    requires |models| == |steps| && forall j | 0 <= j < |steps| :: |models[j].series| == |SeriesIds(log, steps[j])|
    ensures SeriesTotal(models) == |PairsOfSteps(log, steps)|
  {
    if steps != [] {
      var n := |steps| - 1;
      StepsHaveTheirPairs(log, steps[..n], models[..n]);
      SeriesIdsDistinct(log, steps[n]);
      PairsUnderSize(steps[n], SeriesIds(log, steps[n]));
      var before, new_ := PairsOfSteps(log, steps[..n]), PairsUnder(steps[n], SeriesIds(log, steps[n]));
      forall pair | pair in new_ ensures pair !in before { PairsOfStepsHold(log, steps[..n], pair); }
      assert before !! new_;
    }
  }

  lemma PairListed(log: seq<Artifact>, pair: (Id, Id))
    ensures pair in Pairs(log) <==> pair.0 in StepIds(log) && pair.1 in SeriesIds(log, pair.0)
  {
    StepIdsDistinct(log);
    SeriesIdsDistinct(log, pair.0);
    if pair in Pairs(log) {
      var p :| 0 <= p < |log| && SeriesArtifact(log[p]) && (log[p].step, log[p].body.series) == pair;
      SeriesIdListed(log, p);
    }
  }

  /** The expected model has as many series entries as there are pairs of a step and a series of it. */
  lemma ExpectedTotal(log: seq<Artifact>)
    ensures SeriesTotal(Expected(log).steps) == |Pairs(log)|
  {
    var ids := StepIds(log);
    StepIdsDistinct(log);
    StepsHaveTheirPairs(log, ids, Expected(log).steps);
    forall pair ensures pair in Pairs(log) <==> pair in PairsOfSteps(log, ids) {
      PairListed(log, pair);
      PairsOfStepsHold(log, ids, pair);
    }
    assert Pairs(log) == PairsOfSteps(log, ids);
  }

  // ---- A shared series id makes more pairs than ids ----

  lemma {:induction false} SecondsFit(pairs: set<(Id, Id)>, ids: set<Id>)
    requires ids == set pair | pair in pairs :: pair.1
    ensures |ids| <= |pairs|
    decreases |pairs|
  {
    if pairs == {} {
      assert ids == {};
    } else {
      var pair :| pair in pairs;
      var rest := pairs - {pair};
      SecondsFit(rest, set q | q in rest :: q.1);
      assert ids == (set q | q in rest :: q.1) + {pair.1};
    }
  }

  lemma SharedSeries(log: seq<Artifact>)
    requires !OneStepPerSeries(log)
    ensures |SeriesOf(log)| < |Pairs(log)|
  {
    var p, q :| 0 <= p < |log| && 0 <= q < |log| && SeriesArtifact(log[p]) && SeriesArtifact(log[q]) &&
                log[p].body.series == log[q].body.series && log[p].step != log[q].step;
    var first, second := (log[p].step, log[p].body.series), (log[q].step, log[q].body.series);
    var rest := Pairs(log) - {first};
    assert first in Pairs(log) && second in rest;
    forall k ensures k in SeriesOf(log) <==> k in set pair | pair in rest :: pair.1 {
      if k in SeriesOf(log) {
        var x :| 0 <= x < |log| && SeriesArtifact(log[x]) && log[x].body.series == k;
        assert (log[x].step, k) in Pairs(log);
        assert k == second.1 || (log[x].step, k) in rest;
      }
    }
    SecondsFit(rest, SeriesOf(log));
  }
}
