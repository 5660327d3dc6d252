/** The producer meets the condition of its consumer. */
module ResultsReceived {
  import opened Artifacts
  import opened OutputModels
  import opened OutputReceivers
  import opened ResultsMachine
  import Theorems = ResultsTheorems
  import Series = ResultsSeriesInv

  /** In every log the library can write, each series id occurs under one step id, so a first build of a
      fresh receiver reproduces the log: steps and series in first-occurrence order, every artifact in
      its place. */
  lemma EveryLogIsReceived(n: nat, s: State)
    requires Reachable(n, s)
    ensures OneStepPerSeries(s.log)
    ensures ReadAll(Fresh, s.log).Some? && ReadAll(Fresh, s.log).value.model == Expected(s.log)
  {
    Theorems.InvReachable(n, s);
    forall p, q | 0 <= p < |s.log| && 0 <= q < |s.log| && SeriesArtifact(s.log[p]) && SeriesArtifact(s.log[q]) &&
                  s.log[p].body.series == s.log[q].body.series
      ensures s.log[p].step == s.log[q].step
    {
      assert Series.LogOk(s.series, s.log[p], p) && Series.LogOk(s.series, s.log[q], q);
    }
    FirstBuild(s.log);
  }
}
