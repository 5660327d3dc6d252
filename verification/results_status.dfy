/** The status with which a step ends, told from its log and its schedule alone. */
module ResultsStatus {
  import opened Options
  import opened Artifacts
  import opened ResultCalculator
  import opened ResultsMachine
  import opened ResultsTheorems
  import Steps = ResultsStepInv

  /** A call of Skip reaches step i while it is still active. */
  predicate Skips(s: State, a: Action, i: Id) {
    a.Take? && a.t < |s.threads| && s.threads[a.t] == InStep(i, SetSkip) && i < |s.steps| && !s.steps[i].ended
  }

  /** That happens somewhere in the schedule. */
  predicate SkippedInTime(s: State, actions: seq<Action>, i: Id)
    decreases |actions|
  {
    actions != [] && Allowed(s, actions[0]) &&
    (Skips(s, actions[0], i) || SkippedInTime(Apply(s, actions[0]), actions[1..], i))
  }

  ghost predicate LogsError(log: seq<Artifact>, i: Id) {
    exists p :: 0 <= p < |log| && OfStep(log[p], i) && log[p].body.ErrorBody?
  }

  // ---- What the fields of a step remember of it ----

  /** A step that has seen no error. */
  predicate Remembers(st: StepState, log: seq<Artifact>, skipped: bool) {
    && (st.status != Error ==>
          if st.ended then st.status == (if skipped then Skip else Complete)
          else st.status == (if skipped then Skip else Unknown))
    && (st.endPos.Some? && st.endPos.value < |log| && log[st.endPos.value].StepArtifact? &&
        log[st.endPos.value].body.StepEnd? && log[st.endPos.value].body.status != Error ==>
          log[st.endPos.value].body.status == if skipped then Skip else Complete)
  }

  ghost predicate StatusOk(s: State, i: Id, skipped: bool) {
    if i < |s.steps| then Remembers(s.steps[i], s.log, skipped) else !skipped
  }

  lemma {:induction false} SectionRemembers(st: StepState, i: Id, p: StepPc, t: Tid, started: bool,
                                            log: seq<Artifact>, skipped: bool)
    requires Remembers(st, log, skipped) && Steps.PcOk(st, t, p)
    requires st.endPos.Some? ==> st.ended && st.endPos.value < |log|
    ensures var e := StepSection(st, i, p, t, |log|, started);
            e.Proceed? ==>
              Remembers(e.after, if e.emit.Some? then log + [e.emit.value] else log,
                        skipped || (p.SetSkip? && !st.ended))
  {
  }

  /** Everything that leaves the step alone and only adds to the log. */
  lemma {:induction false} OthersRemember(s: State, s': State, i: Id, skipped: bool)
    requires Steps.StepInv(s) && StatusOk(s, i, skipped)
    requires |s'.steps| >= |s.steps| && (i < |s.steps| ==> s'.steps[i] == s.steps[i]) && s.log <= s'.log
    requires |s.steps| <= i < |s'.steps| ==> s'.steps[i].status == Unknown && !s'.steps[i].ended && s'.steps[i].endPos == None
    ensures StatusOk(s', i, skipped)
  {
    if i < |s.steps| { assert Steps.StepOk(s.steps[i], i, s.log, s.threads); }
  }

  lemma {:induction false} StepRemembers(s: State, t: Tid, j: Id, p: StepPc, i: Id, skipped: bool)
    requires Steps.StepInv(s) && StatusOk(s, i, skipped) && CanStep(s, t) && s.threads[t] == InStep(j, p)
    ensures StatusOk(DoStep(s, t, j, StepEffect(s, t, j, p)), i, skipped || Skips(s, Take(t), i))
  {
    var e := StepEffect(s, t, j, p);
    if j == i {
      assert Steps.StepOk(s.steps[i], i, s.log, s.threads) && Steps.ThreadOk(s.steps, t, s.threads[t]);
      SectionRemembers(s.steps[i], i, p, t, s.run.started, s.log, skipped);
    } else {
      OthersRemember(s, DoStep(s, t, j, e), i, skipped);
    }
  }

  lemma {:induction false} TakeRemembers(s: State, t: Tid, i: Id, skipped: bool)
    requires Steps.StepInv(s) && StatusOk(s, i, skipped) && CanStep(s, t)
    ensures StatusOk(Step(s, t), i, skipped || Skips(s, Take(t), i))
  {
    if s.threads[t].InStep? {
      StepRemembers(s, t, s.threads[t].step, s.threads[t].sp, i, skipped);
    } else {
      OthersRemember(s, Step(s, t), i, skipped);
    }
  }

  lemma {:induction false} ApplyRemembers(s: State, a: Action, i: Id, skipped: bool)
    requires Steps.StepInv(s) && StatusOk(s, i, skipped) && Allowed(s, a)
    ensures StatusOk(Apply(s, a), i, skipped || Skips(s, a, i))
  {
    if a.Take? { TakeRemembers(s, a.t, i, skipped); } else { OthersRemember(s, Apply(s, a), i, skipped); }
  }

  lemma {:induction false} ExecRemembers(s: State, actions: seq<Action>, i: Id, skipped: bool)
    requires Inv(s) && StatusOk(s, i, skipped) && Exec(s, actions).Some?
    ensures StatusOk(Exec(s, actions).value, i, skipped || SkippedInTime(s, actions, i))
    decreases |actions|
  {
    if actions != [] {
      InvApply(s, actions[0]);
      ApplyRemembers(s, actions[0], i, skipped);
      ExecRemembers(Apply(s, actions[0]), actions[1..], i, skipped || Skips(s, actions[0], i));
    }
  }

  /** On every schedule, the end of a step whose calls have returned says Error exactly when the step logged an
      error; otherwise Skip exactly when a call of Skip reached the step before it was ended; otherwise Complete. */
  lemma {:induction false} StepEndStatus(n: nat, actions: seq<Action>, i: Id) returns (q: nat)
    requires Exec(Init(n), actions).Some?
    requires var s := Exec(Init(n), actions).value; i < |s.steps| && QuietStep(s, i) && s.steps[i].ended
    ensures var s := Exec(Init(n), actions).value;
            && q < |s.log| && OfStep(s.log[q], i) && s.log[q].body.StepEnd?
            && s.log[q].body.status == (if LogsError(s.log, i) then Error
                                        else if SkippedInTime(Init(n), actions, i) then Skip
                                        else Complete)
  {
    var s := Exec(Init(n), actions).value;
    assert Reachable(n, s);
    q := StepEndTellsErrors(n, s, i);
    InvInit(n);
    ExecRemembers(Init(n), actions, i, false);
    InvReachable(n, s);
    assert Steps.StepOk(s.steps[i], i, s.log, s.threads);
    EndIsMarked(s, i, q);
  }

  lemma {:induction false} EndIsMarked(s: State, i: Id, q: nat)
    requires Steps.StepInv(s) && q < |s.log| && OfStep(s.log[q], i) && s.log[q].body.StepEnd?
    ensures i < |s.steps| && s.steps[i].endPos == Some(q)
  {
    assert Steps.LogOk(s.steps, s.log[q], q);
  }
}
