/** Mutual exclusion and progress: what every reachable state of the results system says about its
    mutexes, and that no reachable state is stuck. */
module ResultsLocks {
  import opened Options
  import opened Artifacts
  import opened ResultCalculator
  import opened ResultsMachine

  predicate HoldsRun(pc: Pc) {
    pc.InRun? && (pc.run.PreErrorWrite? || pc.run.PreErrorNotify? || pc.run.PreLogWrite? || pc.run.StartNotify? ||
                  pc.run.StartWrite? || pc.run.EndStart? || pc.run.EndFinalize? || pc.run.EndWrite?)
  }

  predicate HoldsStep(pc: Pc, i: Id) {
    pc.InStep? && pc.step == i && (pc.sp.AddWrite? || pc.sp.StepEndWrite?)
  }

  predicate HoldsSeries(pc: Pc, k: Id) {
    pc.InSeries? && pc.series == k &&
    (pc.mp.ElementCheckStep? || pc.mp.ElementWrite? || pc.mp.SeriesEndCheckStep? || pc.mp.SeriesEndDraw? ||
     pc.mp.SeriesEndWrite?)
  }

  predicate OwnerOk(s: State, lock: Option<Tid>) { lock.Some? ==> lock.value < |s.threads| }

  /** Each mutex is owned by exactly the thread whose program counter lies inside its section. */
  ghost predicate LockInv(s: State) {
    && (forall t | 0 <= t < |s.threads| :: InRange(s, s.threads[t]))
    && (forall k | 0 <= k < |s.series| :: s.series[k].step < |s.steps|)
    && OwnerOk(s, s.run.lock)
    && (forall i | 0 <= i < |s.steps| :: OwnerOk(s, s.steps[i].lock))
    && (forall k | 0 <= k < |s.series| :: OwnerOk(s, s.series[k].lock))
    && (forall t | 0 <= t < |s.threads| :: HoldsRun(s.threads[t]) <==> s.run.lock == Some(t))
    && (forall t, i | 0 <= t < |s.threads| && 0 <= i < |s.steps| ::
          HoldsStep(s.threads[t], i) <==> s.steps[i].lock == Some(t))
    && (forall t, k | 0 <= t < |s.threads| && 0 <= k < |s.series| ::
          HoldsSeries(s.threads[t], k) <==> s.series[k].lock == Some(t))
  }

  /** How thread t's step may move one mutex: keep it, take it when free, or give it back. */
  predicate Moves(before: Option<Tid>, after: Option<Tid>, t: Tid, held: bool, holds: bool) {
    || (held == holds && after == before)
    || (!held && holds && before == None && after == Some(t))
    || (held && !holds && after == None)
  }

  /** s' differs from s, as far as mutexes go, by thread t alone moving its own. */
  ghost predicate LockStep(s: State, s': State, t: Tid) {
    && t < |s.threads| == |s'.threads|
    && s'.threads == s.threads[t := s'.threads[t]]
    && InRange(s', s'.threads[t])
    && |s.steps| <= |s'.steps| && |s.series| <= |s'.series|
    && Moves(s.run.lock, s'.run.lock, t, HoldsRun(s.threads[t]), HoldsRun(s'.threads[t]))
    && (forall i | 0 <= i < |s'.steps| ::
          if i < |s.steps|
          then Moves(s.steps[i].lock, s'.steps[i].lock, t, HoldsStep(s.threads[t], i), HoldsStep(s'.threads[t], i))
          else s'.steps[i].lock == None && !HoldsStep(s'.threads[t], i))
    && (forall k | 0 <= k < |s'.series| ::
          && s'.series[k].step < |s'.steps|
          && if k < |s.series|
             then s'.series[k].step == s.series[k].step &&
                  Moves(s.series[k].lock, s'.series[k].lock, t,
                        HoldsSeries(s.threads[t], k), HoldsSeries(s'.threads[t], k))
             else s'.series[k].lock == None && !HoldsSeries(s'.threads[t], k))
  }

  lemma LockStepKeeps(s: State, s': State, t: Tid)
    requires LockInv(s) && LockStep(s, s', t)
    ensures LockInv(s')
  {
    forall u | 0 <= u < |s'.threads|
      ensures InRange(s', s'.threads[u]) && (HoldsRun(s'.threads[u]) <==> s'.run.lock == Some(u))
    {
      assert u != t ==> s'.threads[u] == s.threads[u] && InRange(s, s.threads[u]);
      assert HoldsRun(s.threads[u]) <==> s.run.lock == Some(u);
      assert HoldsRun(s.threads[t]) <==> s.run.lock == Some(t);
    }
    StepLocksKept(s, s', t);
    SeriesLocksKept(s, s', t);
  }

  lemma StepLocksKept(s: State, s': State, t: Tid)
    requires LockInv(s) && LockStep(s, s', t)
    ensures forall i | 0 <= i < |s'.steps| :: OwnerOk(s', s'.steps[i].lock)
    ensures forall u, i | 0 <= u < |s'.threads| && 0 <= i < |s'.steps| ::
              HoldsStep(s'.threads[u], i) <==> s'.steps[i].lock == Some(u)
  {
    forall u, i | 0 <= u < |s'.threads| && 0 <= i < |s'.steps|
      ensures HoldsStep(s'.threads[u], i) <==> s'.steps[i].lock == Some(u)
    {
      if i < |s.steps| {
        assert HoldsStep(s.threads[u], i) <==> s.steps[i].lock == Some(u);
        assert HoldsStep(s.threads[t], i) <==> s.steps[i].lock == Some(t);
      } else if u != t {
        assert s'.threads[u] == s.threads[u] && InRange(s, s.threads[u]);
      }
    }
  }

  lemma SeriesLocksKept(s: State, s': State, t: Tid)
    requires LockInv(s) && LockStep(s, s', t)
    ensures forall k | 0 <= k < |s'.series| :: OwnerOk(s', s'.series[k].lock)
    ensures forall u, k | 0 <= u < |s'.threads| && 0 <= k < |s'.series| ::
              HoldsSeries(s'.threads[u], k) <==> s'.series[k].lock == Some(u)
  {
    forall u, k | 0 <= u < |s'.threads| && 0 <= k < |s'.series|
      ensures HoldsSeries(s'.threads[u], k) <==> s'.series[k].lock == Some(u)
    {
      if k < |s.series| {
        assert HoldsSeries(s.threads[u], k) <==> s.series[k].lock == Some(u);
        assert HoldsSeries(s.threads[t], k) <==> s.series[k].lock == Some(t);
      } else if u != t {
        assert s'.threads[u] == s.threads[u] && InRange(s, s.threads[u]);
      }
    }
  }

  lemma RunLockMoves(r: RunState, p: RunPc, t: Tid, pos: nat, verdict: Calc)
    requires HoldsRun(InRun(p)) <==> r.lock == Some(t)
    requires p.PreErrorLock? || p.PreLogLock? || p.StartLock? || p.EndLock? ==> r.lock == None
    ensures var e := RunSection(r, p, t, pos, verdict);
            e.Proceed? ==> Moves(r.lock, e.after.lock, t, HoldsRun(InRun(p)), HoldsRun(e.pc)) &&
                           (e.pc == Idle || e.pc.InRun?)
  {
  }

  lemma StepLockMoves(st: StepState, i: Id, p: StepPc, t: Tid, pos: nat, started: bool)
    requires p.SetError? || p.AddLock? || p.SetSkip? || p.StepEndLock? ==> st.lock == None
    ensures var e := StepSection(st, i, p, t, pos, started);
            e.Proceed? ==> Moves(st.lock, e.after.lock, t, HoldsStep(InStep(i, p), i), HoldsStep(e.pc, i)) &&
                           (e.pc == Idle || (e.pc.InStep? && e.pc.step == i))
  {
  }

  lemma SeriesLockMoves(m: SeriesState, k: Id, p: SeriesPc, t: Tid, pos: nat, ended: bool)
    requires p.ValidateStart? || p.ElementType? || p.ElementLock? || p.SeriesEndLock? ==> m.lock == None
    ensures var e := SeriesSection(m, k, p, t, pos, ended);
            e.Proceed? ==> Moves(m.lock, e.after.lock, t, HoldsSeries(InSeries(k, p), k), HoldsSeries(e.pc, k)) &&
                           (e.pc == Idle || (e.pc.InSeries? && e.pc.series == k)) && e.after.step == m.step
  {
  }

  lemma LockInvRun(s: State, t: Tid, e: Effect<RunState>)
    requires LockInv(s) && t < |s.threads| && e.Proceed? && !Refused(s, e) && s.threads[t].InRun?
    requires Moves(s.run.lock, e.after.lock, t, HoldsRun(s.threads[t]), HoldsRun(e.pc)) && (e.pc == Idle || e.pc.InRun?)
    ensures LockInv(DoRun(s, t, e))
  {
    LockStepKeeps(s, DoRun(s, t, e), t);
  }

  lemma LockInvStep(s: State, t: Tid, i: Id, e: Effect<StepState>)
    requires LockInv(s) && t < |s.threads| && i < |s.steps| && e.Proceed? && !Refused(s, e)
    requires s.threads[t].InStep? && s.threads[t].step == i
    requires Moves(s.steps[i].lock, e.after.lock, t, HoldsStep(s.threads[t], i), HoldsStep(e.pc, i))
    requires e.pc == Idle || (e.pc.InStep? && e.pc.step == i)
    ensures LockInv(DoStep(s, t, i, e))
  {
    LockStepKeeps(s, DoStep(s, t, i, e), t);
  }

  lemma LockInvSeries(s: State, t: Tid, k: Id, e: Effect<SeriesState>)
    requires LockInv(s) && t < |s.threads| && k < |s.series| && e.Proceed? && !Refused(s, e)
    requires s.threads[t].InSeries? && s.threads[t].series == k && e.after.step == s.series[k].step
    requires Moves(s.series[k].lock, e.after.lock, t, HoldsSeries(s.threads[t], k), HoldsSeries(e.pc, k))
    requires e.pc == Idle || (e.pc.InSeries? && e.pc.series == k)
    ensures LockInv(DoSeries(s, t, k, e))
  {
    LockStepKeeps(s, DoSeries(s, t, k, e), t);
  }

  lemma LockInvTakeRun(s: State, t: Tid, p: RunPc)
    requires LockInv(s) && CanStep(s, t) && s.threads[t] == InRun(p)
    ensures LockInv(DoRun(s, t, RunEffect(s, t, p)))
  {
    RunLockMoves(s.run, p, t, |s.log|, s.verdict);
    var e := RunEffect(s, t, p);
    if e.Proceed? && !Refused(s, e) { LockInvRun(s, t, e); }
  }

  lemma LockInvTakeStep(s: State, t: Tid, i: Id, p: StepPc)
    requires LockInv(s) && CanStep(s, t) && s.threads[t] == InStep(i, p)
    ensures LockInv(DoStep(s, t, i, StepEffect(s, t, i, p)))
  {
    StepLockMoves(s.steps[i], i, p, t, |s.log|, s.run.started);
    var e := StepEffect(s, t, i, p);
    if e.Proceed? && !Refused(s, e) { LockInvStep(s, t, i, e); }
  }

  lemma LockInvTakeSeries(s: State, t: Tid, k: Id, p: SeriesPc)
    requires LockInv(s) && CanStep(s, t) && s.threads[t] == InSeries(k, p)
    ensures LockInv(DoSeries(s, t, k, SeriesEffect(s, t, k, p)))
  {
    SeriesLockMoves(s.series[k], k, p, t, |s.log|, s.steps[s.series[k].step].ended);
    var e := SeriesEffect(s, t, k, p);
    if e.Proceed? && !Refused(s, e) { LockInvSeries(s, t, k, e); }
  }

  lemma LockInvTake(s: State, t: Tid)
    requires LockInv(s) && CanStep(s, t)
    ensures LockInv(Step(s, t))
  {
    match s.threads[t]
    case InRun(p) => LockInvTakeRun(s, t, p);
    case InStep(i, p) => LockInvTakeStep(s, t, i, p);
    case InSeries(k, p) => LockInvTakeSeries(s, t, k, p);
    case NewStep(name) => LockStepKeeps(s, DrawStep(s, t, name), t);
    case NewSeries(i, ty, data, valid) => LockStepKeeps(s, DrawSeries(s, t, i, ty, data, valid), t);
    case Idle =>
  }

  lemma LockInvEnvironment(s: State, a: Action)
    requires LockInv(s) && Allowed(s, a) && !a.Begin? && !a.Take?
    ensures LockInv(Apply(s, a))
  {
    var s' := Apply(s, a);
    assert s'.threads == s.threads && s'.steps == s.steps && s'.series == s.series && s'.run.lock == s.run.lock;
  }

  lemma LockInvApply(s: State, a: Action)
    requires LockInv(s) && Allowed(s, a)
    ensures LockInv(Apply(s, a))
  {
    match a
    case Begin(t, pc) => LockStepKeeps(s, Apply(s, a), t);
    case Take(t) => LockInvTake(s, t);
    case _ => LockInvEnvironment(s, a);
  }

  /** A thread inside the section of a step's mutex never waits. */
  lemma StepOwnerRuns(s: State, i: Id)
    requires LockInv(s) && !s.halted && i < |s.steps| && s.steps[i].lock.Some?
    ensures CanStep(s, s.steps[i].lock.value)
  {
    assert HoldsStep(s.threads[s.steps[i].lock.value], i);
  }

  lemma RunOwnerRuns(s: State)
    requires LockInv(s) && !s.halted && s.run.lock.Some?
    ensures CanStep(s, s.run.lock.value)
  {
    assert HoldsRun(s.threads[s.run.lock.value]);
  }

  /** A thread inside the section of a series' mutex waits at most for that series' step. */
  lemma SeriesOwnerRuns(s: State, k: Id)
    requires LockInv(s) && !s.halted && k < |s.series| && s.series[k].lock.Some?
    ensures CanStep(s, s.series[k].lock.value) || exists u :: CanStep(s, u)
  {
    assert HoldsSeries(s.threads[s.series[k].lock.value], k);
    if s.steps[s.series[k].step].lock.Some? {
      StepOwnerRuns(s, s.series[k].step);
    }
  }

  lemma SomeThreadRuns(s: State, t: Tid)
    requires LockInv(s) && !s.halted && t < |s.threads| && s.threads[t] != Idle
    ensures exists u :: CanStep(s, u)
  {
    if !CanStep(s, t) {
      match s.threads[t]
      case InRun(_) => RunOwnerRuns(s);
      case InStep(i, p) =>
        if p.CheckStarted? { RunOwnerRuns(s); } else { StepOwnerRuns(s, i); }
      case InSeries(k, p) =>
        if s.series[k].lock.Some? { SeriesOwnerRuns(s, k); } else { StepOwnerRuns(s, s.series[k].step); }
    }
  }
}
