/** What holds in every reachable state of the results system, for any number of threads and every
    interleaving of their critical sections. */
module ResultsTheorems {
  import opened Options
  import opened Artifacts
  import opened ResultCalculator
  import opened FiniteSets
  import opened ResultsMachine
  import Locks = ResultsLocks
  import Runs = ResultsRunInv
  import Steps = ResultsStepInv
  import Series = ResultsSeriesInv
  import Verdicts = ResultsVerdictInv

  // ---- Every reachable state satisfies the invariants ----

  ghost predicate Inv(s: State) {
    Locks.LockInv(s) && Runs.RunInv(s) && Steps.StepInv(s) && Series.SeriesInv(s) && Verdicts.VerdictInv(s)
  }

  lemma InvApply(s: State, a: Action)
    requires Inv(s) && Allowed(s, a)
    ensures Inv(Apply(s, a))
  {
    Locks.LockInvApply(s, a);
    Runs.RunInvApply(s, a);
    Steps.StepInvApply(s, a);
    Series.SeriesInvApply(s, a);
    Verdicts.VerdictInvApply(s, a);
  }

  lemma {:induction false} InvExec(s: State, actions: seq<Action>)
    requires Inv(s) && Exec(s, actions).Some?
    ensures Inv(Exec(s, actions).value)
    decreases |actions|
  {
    if actions != [] {
      InvApply(s, actions[0]);
      InvExec(Apply(s, actions[0]), actions[1..]);
    }
  }

  lemma InvInit(n: nat)
    ensures Inv(Init(n))
  {
  }

  lemma InvReachable(n: nat, s: State)
    requires Reachable(n, s)
    ensures Inv(s)
  {
    var actions :| Exec(Init(n), actions) == Some(s);
    InvInit(n);
    InvExec(Init(n), actions);
  }

  lemma {:induction false} ExecExtend(s: State, actions: seq<Action>, a: Action)
    requires Exec(s, actions).Some? && Allowed(Exec(s, actions).value, a)
    ensures Exec(s, actions + [a]) == Some(Apply(Exec(s, actions).value, a))
    decreases |actions|
  {
    if actions == [] {
      assert Exec(Apply(s, a), []) == Some(Apply(s, a));
      assert actions + [a] == [a];
    } else {
      ExecExtend(Apply(s, actions[0]), actions[1..], a);
      assert (actions + [a])[1..] == actions[1..] + [a];
    }
  }

  lemma ReachableStep(n: nat, s: State, a: Action)
    requires Reachable(n, s) && Allowed(s, a)
    ensures Reachable(n, Apply(s, a))
  {
    var actions :| Exec(Init(n), actions) == Some(s);
    ExecExtend(Init(n), actions, a);
  }

  // ---- Progress ----

  /** No reachable state of a program that is still alive is stuck: if some call is unfinished, some
      thread can run its next critical section. */
  lemma NoDeadlock(n: nat, s: State, t: Tid)
    requires Reachable(n, s) && !s.halted && t < |s.threads| && s.threads[t] != Idle
    ensures exists u :: CanStep(s, u)
  {
    InvReachable(n, s);
    Locks.SomeThreadRuns(s, t);
  }

  // ---- The elements of a series ----

  predicate ElementOf(a: Artifact, k: Id) {
    a.StepArtifact? && a.body.SeriesElement? && a.body.series == k
  }

  predicate EndOf(a: Artifact, k: Id) { a.StepArtifact? && a.body.SeriesEnd? && a.body.series == k }

  predicate StartOf(a: Artifact, k: Id) { a.StepArtifact? && a.body.SeriesStart? && a.body.series == k }

  /** No call on series k is in progress. */
  ghost predicate QuietSeries(s: State, k: Id) {
    forall t | 0 <= t < |s.threads| :: !(s.threads[t].InSeries? && s.threads[t].series == k)
  }

  /** In any interleaving, two elements of a series never share an index, and at most one end is written. */
  lemma IndicesDistinct(n: nat, s: State, k: Id, p: nat, q: nat)
    requires Reachable(n, s) && p < q < |s.log|
    ensures ElementOf(s.log[p], k) && ElementOf(s.log[q], k) ==> s.log[p].body.index != s.log[q].body.index
    ensures !(EndOf(s.log[p], k) && EndOf(s.log[q], k)) && !(StartOf(s.log[p], k) && StartOf(s.log[q], k))
  {
    InvReachable(n, s);
    assert Series.LogOk(s.series, s.log[p], p) && Series.LogOk(s.series, s.log[q], q);
  }

  /** The positions at which a log holds elements of series k, and the indices found there. */
  function Positions(log: seq<Artifact>, k: Id): set<nat> {
    set p: nat | p < |log| && ElementOf(log[p], k)
  }

  function Indices(log: seq<Artifact>, k: Id): set<nat> {
    set p: nat | p in Positions(log, k) :: log[p].body.index
  }

  /** How many indices of series k have been given to elements. */
  function Drawn(s: State, k: Id): nat
    requires k < |s.series|
  {
    if s.series[k].total.Some? then s.series[k].total.value else s.series[k].count
  }

  lemma QuietIndexLogged(s: State, k: Id, i: nat)
    requires Inv(s) && k < |s.series| && QuietSeries(s, k) && i < Drawn(s, k)
    ensures i in Indices(s.log, k)
  {
    var m := s.series[k];
    assert Series.SeriesOk(m, k, s.log, s.threads);
    assert Series.FateOk(m, k, i, s.log, s.threads);
    assert m.fate[i].LoggedAt?;
    assert m.fate[i].pos in Positions(s.log, k);
  }

  lemma LoggedIndexDrawn(s: State, k: Id, p: nat)
    requires Inv(s) && k < |s.series| && p in Positions(s.log, k)
    ensures s.log[p].body.index < Drawn(s, k)
  {
    assert Series.SeriesOk(s.series[k], k, s.log, s.threads);
    assert Series.LogOk(s.series, s.log[p], p);
    assert Series.FateOk(s.series[k], k, s.log[p].body.index, s.log, s.threads);
  }

  lemma EndCountsDrawn(s: State, k: Id)
    requires Inv(s) && k < |s.series| && QuietSeries(s, k)
    ensures forall p | 0 <= p < |s.log| && EndOf(s.log[p], k) :: s.log[p].body.totalCount == Drawn(s, k)
    ensures s.series[k].ended ==> exists p :: 0 <= p < |s.log| && EndOf(s.log[p], k)
  {
    var m := s.series[k];
    assert Series.SeriesOk(m, k, s.log, s.threads);
    forall p | 0 <= p < |s.log| && EndOf(s.log[p], k)
      ensures s.log[p].body.totalCount == Drawn(s, k)
    {
      assert Series.LogOk(s.series, s.log[p], p);
    }
    if m.ended { assert EndOf(s.log[m.endPos.value], k); }
  }

  /** Once all calls on a series have returned in a live program, the n elements in the log carry exactly
      the indices 0 .. n-1, and n is the total count of the end artifact, which is there if the series
      has been ended. */
  lemma IndicesComplete(n: nat, s: State, k: Id)
    requires Reachable(n, s) && k < |s.series| && QuietSeries(s, k)
    ensures Indices(s.log, k) == Below(|Positions(s.log, k)|)
    ensures forall p | 0 <= p < |s.log| && EndOf(s.log[p], k) :: s.log[p].body.totalCount == |Positions(s.log, k)|
    ensures s.series[k].ended ==> exists p :: 0 <= p < |s.log| && EndOf(s.log[p], k)
  {
    InvReachable(n, s);
    EndCountsDrawn(s, k);
    assert Indices(s.log, k) == Below(Drawn(s, k)) by {
      forall i: nat | i < Drawn(s, k) ensures i in Indices(s.log, k) { QuietIndexLogged(s, k, i); }
      forall p | p in Positions(s.log, k) ensures s.log[p].body.index < Drawn(s, k) { LoggedIndexDrawn(s, k, p); }
    }
    IndicesCountPositions(n, s, k);
  }

  lemma IndicesCountPositions(n: nat, s: State, k: Id)
    requires Reachable(n, s)
    ensures |Indices(s.log, k)| == |Positions(s.log, k)|
  {
    var f := (p: nat) requires p in Positions(s.log, k) => s.log[p].body.index;
    forall p, q | p in Positions(s.log, k) && q in Positions(s.log, k) && f(p) == f(q)
      ensures p == q
    {
      if p < q { IndicesDistinct(n, s, k, p, q); } else if q < p { IndicesDistinct(n, s, k, q, p); }
    }
    InjectiveImageSize(Positions(s.log, k), f, Indices(s.log, k));
  }

  /** All elements of a series have one value type, that of its validators if it has any, and every
      element stands between the start and the end of the series, under the id of its step. */
  lemma ElementsTyped(n: nat, s: State, k: Id, p: nat, q: nat)
    requires Reachable(n, s) && p < |s.log| && q < |s.log| && ElementOf(s.log[p], k)
    ensures ElementOf(s.log[q], k) ==> s.log[q].body.valueType == s.log[p].body.valueType
    ensures StartOf(s.log[q], k) ==>
              q < p && (s.log[q].body.validatorType >= 0 ==> s.log[q].body.validatorType == s.log[p].body.valueType)
    ensures EndOf(s.log[q], k) ==> p < q && s.log[p].body.index < s.log[q].body.totalCount
    ensures ElementOf(s.log[q], k) || StartOf(s.log[q], k) || EndOf(s.log[q], k) ==> s.log[q].step == s.log[p].step
  {
    InvReachable(n, s);
    assert Series.LogOk(s.series, s.log[p], p) && Series.LogOk(s.series, s.log[q], q);
    var m := s.series[k];
    assert Series.SeriesOk(m, k, s.log, s.threads);
    assert Series.FateOk(m, k, s.log[p].body.index, s.log, s.threads);
    if ElementOf(s.log[q], k) { assert Series.FateOk(m, k, s.log[q].body.index, s.log, s.threads); }
  }

  // ---- Bracketing, stated on the log alone ----

  predicate OfStep(a: Artifact, i: Id) { a.StepArtifact? && a.step == i }

  /** How the artifacts at two positions p < q of a log may relate. */
  predicate Ordered(a: Artifact, b: Artifact) {
    && !(a.Schema? && b.Schema?) && !(a.RunStart? && b.RunStart?) && !(a.RunEnd? && b.RunEnd?)
    && (b.Schema? ==> a.RunLog?)                                     // only sink logs precede the schema version
    && (a.RunEnd? ==> b.RunLog?)                                     // only sink logs follow the run's end
    && (b.RunStart? ==> !a.StepArtifact?)                            // steps follow the run's start
    && (a.RunStart? ==> !b.RunError?)                                // errors of the run precede it
    && (a.StepArtifact? && b.StepArtifact? && a.step == b.step ==>
          && !b.body.StepStart?                                      // a step's start is its first artifact, once
          && !(a.body.StepEnd? && b.body.StepEnd?)                   // it ends once
          && !(a.body.StepEnd? && b.body.Guarded()))                 // after which it adds nothing
  }

  ghost predicate Bracketed(log: seq<Artifact>) {
    && (forall p, q | 0 <= p < q < |log| :: Ordered(log[p], log[q]))
    && (forall q | 0 <= q < |log| && log[q].StepArtifact? ::
          && (exists p :: 0 <= p < q && log[p].RunStart?)
          && (log[q].body.StepStart? || exists p :: 0 <= p < q && OfStep(log[p], log[q].step) && log[p].body.StepStart?))
  }

  lemma LogBracketed(n: nat, s: State)
    requires Reachable(n, s)
    ensures Bracketed(s.log)
  {
    InvReachable(n, s);
    forall p, q | 0 <= p < q < |s.log|
      ensures Ordered(s.log[p], s.log[q])
    {
      assert Runs.EntryOk(s.run, s.log[p], p) && Runs.EntryOk(s.run, s.log[q], q);
      assert Steps.LogOk(s.steps, s.log[p], p) && Steps.LogOk(s.steps, s.log[q], q);
    }
    forall q | 0 <= q < |s.log| && s.log[q].StepArtifact?
      ensures exists p :: 0 <= p < q && s.log[p].RunStart?
      ensures s.log[q].body.StepStart? ||
              exists p :: 0 <= p < q && OfStep(s.log[p], s.log[q].step) && s.log[p].body.StepStart?
    {
      assert Runs.EntryOk(s.run, s.log[q], q) && Steps.LogOk(s.steps, s.log[q], q);
      assert s.log[s.run.startPos.value].RunStart?;
      var st := s.steps[s.log[q].step];
      assert Steps.StepOk(st, s.log[q].step, s.log, s.threads);
      if !s.log[q].body.StepStart? { assert OfStep(s.log[st.startPos.value], s.log[q].step); }
    }
  }

  /** No call on step i is in progress. */
  ghost predicate QuietStep(s: State, i: Id) {
    forall t | 0 <= t < |s.threads| :: !(s.threads[t].InStep? && s.threads[t].step == i)
  }

  /** Once all calls on a step have returned in a live program: a step that was ended (by End, by Skip or
      by its destructor) has exactly one end artifact, its status is final, and it is Error exactly when
      the step logged an error. */
  lemma StepEndTellsErrors(n: nat, s: State, i: Id) returns (q: nat)
    requires Reachable(n, s) && i < |s.steps| && QuietStep(s, i) && s.steps[i].ended
    ensures q < |s.log| && OfStep(s.log[q], i) && s.log[q].body.StepEnd? && s.log[q].body.status != Unknown
    ensures s.log[q].body.status == Error <==>
              exists p :: 0 <= p < |s.log| && OfStep(s.log[p], i) && s.log[p].body.ErrorBody?
    ensures forall p | 0 <= p < |s.log| && OfStep(s.log[p], i) && s.log[p].body.StepEnd? :: p == q
  {
    InvReachable(n, s);
    var st := s.steps[i];
    assert Steps.StepOk(st, i, s.log, s.threads);
    q := st.endPos.value;
    if s.log[q].body.status == Error {
      assert OfStep(s.log[st.error.pos], i);
    }
    forall p | 0 <= p < |s.log| && OfStep(s.log[p], i)
      ensures s.log[p].body.StepEnd? ==> p == q
      ensures s.log[p].body.ErrorBody? ==> s.log[q].body.status == Error
    {
      assert Steps.LogOk(s.steps, s.log[p], p);
    }
  }

  // ---- The life of the run ----

  /** A whole lifetime writes exactly one start and exactly one end, in that order, whether or not the
      run was ever started, and nothing but sink logs stands outside schema version and end. */
  lemma OneStartOneEnd(n: nat, s: State) returns (start: nat, end: nat)
    requires Reachable(n, s) && s.run.phase == Done
    ensures start < end < |s.log| && s.log[start].RunStart? && s.log[end].RunEnd?
    ensures forall p | 0 <= p < |s.log| :: (s.log[p].RunStart? <==> p == start) && (s.log[p].RunEnd? <==> p == end)
    ensures forall p | 0 <= p < |s.log| && p > end :: s.log[p].RunLog?
    ensures s.log[start].hasDut <==> s.run.started
  {
    InvReachable(n, s);
    start, end := s.run.startPos.value, s.run.endPos.value;
    forall p | 0 <= p < |s.log|
      ensures (s.log[p].RunStart? <==> p == start) && (s.log[p].RunEnd? <==> p == end)
      ensures p > end ==> s.log[p].RunLog?
    {
      assert Runs.EntryOk(s.run, s.log[p], p);
    }
  }

  /** A second StartAndRegisterDutInfo cannot happen, although nothing tests for it: it would need a
      second DutInfo, and the run owns the only one there can be. */
  lemma SecondStartImpossible(n: nat, s: State, t: Tid)
    requires Reachable(n, s) && s.run.phase == Live && s.run.started
    requires t < |s.threads|
    ensures Runs.Carried(s.threads[t]) == None
    ensures forall d | 0 <= d < |s.run.owners| :: !Allowed(s, Begin(t, InRun(StartLock(Some(d)))))
  {
    InvReachable(n, s);
    assert Runs.ThreadOk(s.run, t, s.threads[t]);
    if Runs.Carried(s.threads[t]).Some? { Runs.StartIsFirst(s.run, t, s.threads[t]); }
    assert s.run.owners[s.run.dut.value] == ByRun;
    assert s.run.owners[s.run.dut.value] != Gone;
    forall d | 0 <= d < |s.run.owners|
      ensures s.run.owners[d] != ByCaller
    {
      assert s.run.owners[d] != Gone <==> s.run.liveDut == Some(d);
    }
  }
}
