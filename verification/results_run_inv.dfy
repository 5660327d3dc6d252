/** The life of the run: its phases, the DutInfo singleton, and the run-level artifacts. */
module ResultsRunInv {
  import opened Options
  import opened Artifacts
  import opened ResultCalculator
  import opened ResultsMachine
  import opened ResultsLocks

  /** Which calls can be in progress in which phase of the run. */
  predicate PhaseOk(r: RunState, t: Tid, pc: Pc) {
    match r.phase
    case NotBuilt => pc == Idle || (pc.InRun? && pc.run.Guard?)
    case Building =>
      if t == r.actor then pc.InRun? && (pc.run.RegisterSink? || pc.run.EmitSchema?)
      else pc == Idle || (pc.InRun? && pc.run.Guard?)
    case Live =>
      pc.InRun? ==> !(pc.run.RegisterSink? || pc.run.EmitSchema? || pc.run.EndLock? || pc.run.EndStart? ||
                      pc.run.EndFinalize? || pc.run.EndWrite? || pc.run.EndCleanup?)
    case Ending =>
      if t == r.actor
      then pc.InRun? && (pc.run.EndLock? || pc.run.EndStart? || pc.run.EndFinalize? || pc.run.EndWrite? ||
                         pc.run.EndCleanup?)
      else pc == Idle
    case Done => pc == Idle
  }

  /** At most one DutInfo exists, the singleton flag says whether one does, and the run owns it exactly
      from its start to its destruction. */
  ghost predicate DutInv(r: RunState) {
    && (r.dutSingleton <==> r.liveDut.Some?)
    && (r.liveDut.Some? ==> r.liveDut.value < |r.owners|)
    && (forall d | 0 <= d < |r.owners| :: r.owners[d] != Gone <==> r.liveDut == Some(d))
    && (r.dut.Some? ==> r.dut.value < |r.owners|)
    && (forall d | 0 <= d < |r.owners| :: r.owners[d] == ByRun <==> r.dut == Some(d))
    && (r.phase != Done ==> (r.started <==> r.dut.Some?))
  }

  /** The DutInfo that a call of StartAndRegisterDutInfo carries. */
  function Carried(pc: Pc): Option<nat> {
    if !pc.InRun? then None else
    match pc.run
    case StartLock(dut) => dut
    case StartNotify(d) => Some(d)
    case StartWrite(d) => Some(d)
    case _ => None
  }

  ghost predicate CarryOk(r: RunState, t: Tid, pc: Pc) {
    && (Carried(pc).Some? ==> Carried(pc).value < |r.owners| && r.owners[Carried(pc).value] == InCall(t))
  }

  /** What the destructor and the start have done so far. */
  predicate RunPcOk(r: RunState, pc: Pc) {
    pc.InRun? ==>
      && (pc.run.PreErrorWrite? || pc.run.PreErrorNotify? || pc.run.PreLogWrite? ==> !r.started)
      && (pc.run.EndLock? ==> (r.startPos.Some? <==> r.started) && r.endPos == None)
      && (pc.run.EndStart? ==> !r.started && r.startPos == None && r.endPos == None)
      && (pc.run.EndFinalize? ==> r.startPos.Some? && r.endPos == None)
      && (pc.run.EndWrite? ==> r.startPos.Some? && r.endPos == None)
      && (pc.run.EndCleanup? ==> r.startPos.Some? && r.endPos.Some?)
  }

  predicate MarksOk(r: RunState) {
    && (r.initialized <==> (r.phase == Building || r.phase == Live || r.phase == Ending))
    && (r.sink ==> r.initialized)
    && ((r.phase == NotBuilt || r.phase == Building) ==>
          r.schemaPos == None && r.startPos == None && !r.started && r.lock == None)
    && ((r.phase == Live || r.phase == Ending || r.phase == Done) ==> r.schemaPos.Some?)
    && (r.phase == Live ==> (r.startPos.Some? <==> r.started))
    && (r.started ==> r.startPos.Some?)
    && ((r.phase == NotBuilt || r.phase == Building || r.phase == Live) ==> r.endPos == None)
    && (r.phase == Done ==> r.startPos.Some? && r.endPos.Some?)
    && (r.schemaPos.Some? && r.startPos.Some? ==> r.schemaPos.value < r.startPos.value)
    && (r.endPos.Some? ==> r.startPos.Some? && r.startPos.value < r.endPos.value)
  }

  /** Each mark points at its artifact. */
  predicate PositionsOk(r: RunState, log: seq<Artifact>) {
    && (r.schemaPos.Some? ==> r.schemaPos.value < |log| && log[r.schemaPos.value].Schema?)
    && (r.startPos.Some? ==> r.startPos.value < |log| && log[r.startPos.value] == RunStart(r.started))
    && (r.endPos.Some? ==> r.endPos.value < |log| && log[r.endPos.value].RunEnd?)
  }

  /** Where the artifact at position p may stand: there is one schema version, one start and one end;
      only Abseil log entries precede the schema version or follow the end; errors of the run precede
      its start; what belongs to a step follows it. */
  predicate EntryOk(r: RunState, a: Artifact, p: nat) {
    && (a.Schema? ==> r.schemaPos == Some(p))
    && (a.RunStart? ==> r.startPos == Some(p))
    && (a.RunEnd? ==> r.endPos == Some(p))
    && (!a.RunLog? && !a.Schema? ==> r.schemaPos.Some? && r.schemaPos.value < p)
    && (!a.RunLog? && !a.RunEnd? && r.endPos.Some? ==> p < r.endPos.value)
    && (a.RunError? && r.startPos.Some? ==> p < r.startPos.value)
    && (a.StepArtifact? ==> r.startPos.Some? && r.startPos.value < p)
  }

  /** The sections that run only once the run has been started. */
  predicate NeedsStart(pc: Pc) {
    (pc.InStep? && !pc.sp.CheckStarted?) || pc.NewSeries? || pc.InSeries?
  }

  ghost predicate ThreadOk(r: RunState, t: Tid, pc: Pc) {
    PhaseOk(r, t, pc) && CarryOk(r, t, pc) && RunPcOk(r, pc) && (NeedsStart(pc) ==> r.started)
  }

  ghost predicate RunInv(s: State) {
    && MarksOk(s.run)
    && DutInv(s.run)
    && PositionsOk(s.run, s.log)
    && ((s.run.phase == Building || s.run.phase == Ending) ==> s.run.actor < |s.threads|)
    && (forall i | 0 <= i < |s.steps| :: s.steps[i].ready ==> s.run.started)
    && (forall k | 0 <= k < |s.series| :: s.series[k].ready ==> s.run.started)
    && (forall p | 0 <= p < |s.log| :: EntryOk(s.run, s.log[p], p))
    && (forall t | 0 <= t < |s.threads| :: ThreadOk(s.run, t, s.threads[t]))
  }

  // ---- One section of a call on the run ----

  lemma StartIsFirst(r: RunState, t: Tid, pc: Pc)
    requires MarksOk(r) && DutInv(r) && ThreadOk(r, t, pc) && Carried(pc).Some?
    ensures r.phase == Live ==> !r.started
  {
    var d := Carried(pc).value;
    assert r.owners[d] != Gone <==> r.liveDut == Some(d);
    if r.dut.Some? {
      assert r.owners[r.dut.value] == ByRun;
    }
  }

  lemma FreeDutKeeps(r: RunState)
    requires DutInv(r)
    ensures var f := FreeDut(r);
            f.dut == None && |f.owners| == |r.owners| && (f.dutSingleton <==> f.liveDut.Some?) &&
            (f.liveDut.Some? ==> f.liveDut.value < |f.owners|) &&
            (forall d | 0 <= d < |f.owners| :: f.owners[d] != ByRun && (f.owners[d] != Gone <==> f.liveDut == Some(d)))
  {
    if r.dut.Some? {
      assert r.owners[r.dut.value] == ByRun;
      assert r.owners[r.dut.value] != Gone <==> r.liveDut == Some(r.dut.value);
    }
  }

  /** Only the sections that adopt or free a DutInfo touch what is known of the owners. */
  lemma {:induction false} OtherSectionsKeepOwners(r: RunState, p: RunPc, t: Tid, pos: nat, verdict: Calc)
    requires !p.StartWrite? && !p.EndCleanup? && PhaseOk(r, t, InRun(p))
    ensures var e := RunSection(r, p, t, pos, verdict);
            e.Proceed? ==> e.after.owners == r.owners && e.after.dut == r.dut && e.after.dutSingleton == r.dutSingleton &&
                           e.after.liveDut == r.liveDut && e.after.started == r.started &&
                           (e.after.phase != Done ==> r.phase != Done)
  {
  }

  lemma {:induction false} StartKeepsDut(r: RunState, d: nat, t: Tid)
    requires MarksOk(r) && DutInv(r) && ThreadOk(r, t, InRun(StartWrite(d)))
    ensures DutInv(AdoptDut(r, d).(started := true))
  {
    StartIsFirst(r, t, InRun(StartWrite(d)));
    assert r.owners[d] != Gone <==> r.liveDut == Some(d);
  }

  lemma {:induction false} RunSectionDut(r: RunState, p: RunPc, t: Tid, pos: nat, verdict: Calc)
    requires MarksOk(r) && DutInv(r) && ThreadOk(r, t, InRun(p))
    ensures var e := RunSection(r, p, t, pos, verdict); e.Proceed? ==> DutInv(e.after)
  {
    if p.StartWrite? {
      StartKeepsDut(r, p.owned, t);
    } else if p.EndCleanup? {
      FreeDutKeeps(r);
    } else {
      OtherSectionsKeepOwners(r, p, t, pos, verdict);
    }
  }

  /** What is known of the run where thread t runs section p. */
  predicate MayRun(r: RunState, p: RunPc, t: Tid) {
    PhaseOk(r, t, InRun(p)) && RunPcOk(r, InRun(p)) && (p.StartWrite? ==> !r.started)
  }

  lemma StartsOnce(r: RunState, p: RunPc, t: Tid)
    requires MarksOk(r) && DutInv(r) && ThreadOk(r, t, InRun(p))
    ensures MayRun(r, p, t)
  {
    if p.StartWrite? { StartIsFirst(r, t, InRun(p)); }
  }

  lemma RunSectionMarks(r: RunState, p: RunPc, t: Tid, pos: nat, verdict: Calc, log: seq<Artifact>)
    requires MarksOk(r) && MayRun(r, p, t) && PositionsOk(r, log) && pos == |log|
    ensures var e := RunSection(r, p, t, pos, verdict); e.Proceed? ==> MarksOk(e.after)
  {
  }

  lemma RunSectionPositions(r: RunState, p: RunPc, t: Tid, pos: nat, verdict: Calc, log: seq<Artifact>)
    requires MarksOk(r) && MayRun(r, p, t) && PositionsOk(r, log) && pos == |log|
    requires r.phase != Done ==> (r.started <==> r.dut.Some?)
    ensures var e := RunSection(r, p, t, pos, verdict);
            e.Proceed? ==> PositionsOk(e.after, if e.emit.Some? then log + [e.emit.value] else log)
  {
  }

  lemma RunSectionEntry(r: RunState, p: RunPc, t: Tid, pos: nat, verdict: Calc, log: seq<Artifact>)
    requires MarksOk(r) && MayRun(r, p, t) && PositionsOk(r, log) && pos == |log|
    ensures var e := RunSection(r, p, t, pos, verdict);
            e.Proceed? ==> (e.emit.Some? ==> EntryOk(e.after, e.emit.value, pos))
  {
  }

  lemma RunSectionActor(r: RunState, p: RunPc, t: Tid, pos: nat, verdict: Calc)
    ensures var e := RunSection(r, p, t, pos, verdict);
            e.Proceed? ==>
              && (e.after.phase == Building || e.after.phase == Ending ==>
                    e.after.actor == t || (e.after.actor == r.actor && e.after.phase == r.phase))
              && (r.started ==> e.after.started)
  {
  }

  lemma RunSectionPhase(r: RunState, p: RunPc, t: Tid, pos: nat, verdict: Calc)
    requires MarksOk(r) && PhaseOk(r, t, InRun(p)) && RunPcOk(r, InRun(p))
    ensures var e := RunSection(r, p, t, pos, verdict);
            e.Proceed? ==> PhaseOk(e.after, t, e.pc) && !NeedsStart(e.pc)
  {
  }

  lemma RunSectionNext(r: RunState, p: RunPc, t: Tid, pos: nat, verdict: Calc)
    requires MarksOk(r) && PhaseOk(r, t, InRun(p)) && RunPcOk(r, InRun(p))
    ensures var e := RunSection(r, p, t, pos, verdict); e.Proceed? ==> RunPcOk(e.after, e.pc)
  {
  }

  lemma RunSectionCarries(r: RunState, p: RunPc, t: Tid, pos: nat, verdict: Calc)
    requires CarryOk(r, t, InRun(p))
    ensures var e := RunSection(r, p, t, pos, verdict); e.Proceed? ==> CarryOk(e.after, t, e.pc)
  {
  }

  lemma RunSectionOthers(r: RunState, p: RunPc, t: Tid, pos: nat, verdict: Calc, u: Tid, pc: Pc)
    requires MarksOk(r) && DutInv(r) && ThreadOk(r, t, InRun(p)) && ThreadOk(r, u, pc) && u != t
    requires HoldsRun(pc) ==> r.lock == Some(u)
    requires HoldsRun(InRun(p)) ==> r.lock == Some(t)
    ensures var e := RunSection(r, p, t, pos, verdict); e.Proceed? ==> ThreadOk(e.after, u, pc)
  {
    if p.StartWrite? {
      StartIsFirst(r, t, InRun(p));
    }
  }

  lemma RunSectionEntries(r: RunState, p: RunPc, t: Tid, pos: nat, verdict: Calc, a: Artifact, q: nat)
    requires MarksOk(r) && DutInv(r) && ThreadOk(r, t, InRun(p)) && EntryOk(r, a, q) && q < pos
    ensures var e := RunSection(r, p, t, pos, verdict); e.Proceed? ==> EntryOk(e.after, a, q)
  {
    if p.StartWrite? {
      StartIsFirst(r, t, InRun(p));
    }
  }

  lemma RunInvCommit(s: State, t: Tid, e: Effect<RunState>)
    requires RunInv(s) && t < |s.threads| && e.Proceed? && !Refused(s, e)
    requires MarksOk(e.after) && DutInv(e.after)
    requires PositionsOk(e.after, if e.emit.Some? then s.log + [e.emit.value] else s.log)
    requires e.emit.Some? ==> EntryOk(e.after, e.emit.value, |s.log|)
    requires forall q | 0 <= q < |s.log| :: EntryOk(e.after, s.log[q], q)
    requires ThreadOk(e.after, t, e.pc)
    requires forall u | 0 <= u < |s.threads| && u != t :: ThreadOk(e.after, u, s.threads[u])
    requires e.after.phase == Building || e.after.phase == Ending ==> e.after.actor < |s.threads|
    requires s.run.started ==> e.after.started
    ensures RunInv(DoRun(s, t, e))
  {
  }

  lemma RunInvOthers(s: State, t: Tid, p: RunPc, u: Tid)
    requires LockInv(s) && RunInv(s) && CanStep(s, t) && s.threads[t] == InRun(p) && u < |s.threads| && u != t
    ensures var e := RunEffect(s, t, p); e.Proceed? ==> ThreadOk(e.after, u, s.threads[u])
  {
    assert ThreadOk(s.run, t, InRun(p)) && ThreadOk(s.run, u, s.threads[u]);
    assert HoldsRun(s.threads[u]) <==> s.run.lock == Some(u);
    assert HoldsRun(s.threads[t]) <==> s.run.lock == Some(t);
    RunSectionOthers(s.run, p, t, |s.log|, s.verdict, u, s.threads[u]);
  }

  lemma RunInvEntries(s: State, t: Tid, p: RunPc, q: nat)
    requires RunInv(s) && CanStep(s, t) && s.threads[t] == InRun(p) && q < |s.log|
    ensures var e := RunEffect(s, t, p); e.Proceed? ==> EntryOk(e.after, s.log[q], q)
  {
    assert ThreadOk(s.run, t, InRun(p));
    RunSectionEntries(s.run, p, t, |s.log|, s.verdict, s.log[q], q);
  }

  lemma RunInvObject(s: State, t: Tid, p: RunPc)
    requires RunInv(s) && CanStep(s, t) && s.threads[t] == InRun(p)
    ensures var e := RunEffect(s, t, p);
            e.Proceed? ==>
              && MarksOk(e.after) && DutInv(e.after) && ThreadOk(e.after, t, e.pc)
              && PositionsOk(e.after, if e.emit.Some? then s.log + [e.emit.value] else s.log)
              && (e.emit.Some? ==> EntryOk(e.after, e.emit.value, |s.log|))
              && ((e.after.phase == Building || e.after.phase == Ending) ==> e.after.actor < |s.threads|)
              && (s.run.started ==> e.after.started)
  {
    var e := RunEffect(s, t, p);
    assert ThreadOk(s.run, t, InRun(p));
    StartsOnce(s.run, p, t);
    RunSectionActor(s.run, p, t, |s.log|, s.verdict);
    if e.Proceed? {
      assert DutInv(e.after) by { RunSectionDut(s.run, p, t, |s.log|, s.verdict); }
      assert MarksOk(e.after) by { RunSectionMarks(s.run, p, t, |s.log|, s.verdict, s.log); }
      RunSectionPositions(s.run, p, t, |s.log|, s.verdict, s.log);
      RunSectionEntry(s.run, p, t, |s.log|, s.verdict, s.log);
      assert ThreadOk(e.after, t, e.pc) by {
        RunSectionPhase(s.run, p, t, |s.log|, s.verdict);
        RunSectionNext(s.run, p, t, |s.log|, s.verdict);
        RunSectionCarries(s.run, p, t, |s.log|, s.verdict);
      }
    }
  }

  lemma RunInvRun(s: State, t: Tid, p: RunPc)
    requires LockInv(s) && RunInv(s) && CanStep(s, t) && s.threads[t] == InRun(p)
    ensures RunInv(DoRun(s, t, RunEffect(s, t, p)))
  {
    RunInvObject(s, t, p);
    forall u | 0 <= u < |s.threads| && u != t { RunInvOthers(s, t, p, u); }
    forall q | 0 <= q < |s.log| { RunInvEntries(s, t, p, q); }
    var e := RunEffect(s, t, p);
    if e.Proceed? && !Refused(s, e) { RunInvCommit(s, t, e); }
  }

  // ---- Everything else leaves the run alone ----

  /** s' adds at most a step's artifact to the log, and moves thread t outside the run. */
  ghost predicate OutsideRun(s: State, s': State, t: Tid) {
    && t < |s.threads| == |s'.threads| && s'.threads == s.threads[t := s'.threads[t]]
    && !s.threads[t].InRun? && !s'.threads[t].InRun? && s.threads[t] != Idle
    && (NeedsStart(s'.threads[t]) ==> s.run.started)
    && s'.run == s.run
    && (s'.log == s.log ||
        (|s'.log| == |s.log| + 1 && s'.log[..|s.log|] == s.log && s'.log[|s.log|].StepArtifact? && s.run.started))
    && (forall i | 0 <= i < |s'.steps| :: s'.steps[i].ready ==> s.run.started)
    && (forall k | 0 <= k < |s'.series| :: s'.series[k].ready ==> s.run.started)
  }

  lemma OutsideRunKeeps(s: State, s': State, t: Tid)
    requires RunInv(s) && OutsideRun(s, s', t)
    ensures RunInv(s')
  {
    assert ThreadOk(s.run, t, s.threads[t]);
    assert forall p | 0 <= p < |s.log| :: s'.log[p] == s'.log[..|s.log|][p];
    forall p | 0 <= p < |s'.log|
      ensures EntryOk(s'.run, s'.log[p], p)
    {
      if p < |s.log| { assert EntryOk(s.run, s.log[p], p); }
    }
    forall u | 0 <= u < |s'.threads|
      ensures ThreadOk(s'.run, u, s'.threads[u])
    {
      assert ThreadOk(s.run, u, s.threads[u]);
    }
  }

  lemma StepSectionStarted(st: StepState, i: Id, p: StepPc, t: Tid, pos: nat, started: bool)
    requires NeedsStart(InStep(i, p)) ==> started
    requires st.ready ==> started
    ensures var e := StepSection(st, i, p, t, pos, started);
            e.Proceed? ==>
              && (NeedsStart(e.pc) || e.after.ready || e.emit.Some? ==> started)
              && (e.emit.Some? ==> e.emit.value.StepArtifact?)
              && (e.pc == Idle || e.pc.InStep?)
  {
  }

  lemma SeriesSectionEmits(m: SeriesState, k: Id, p: SeriesPc, t: Tid, pos: nat, ended: bool)
    ensures var e := SeriesSection(m, k, p, t, pos, ended);
            e.Proceed? ==> (e.emit.Some? ==> e.emit.value.StepArtifact?) && (e.pc == Idle || e.pc.InSeries?)
  {
  }

  lemma RunInvStep(s: State, t: Tid, i: Id, p: StepPc)
    requires RunInv(s) && CanStep(s, t) && s.threads[t] == InStep(i, p)
    ensures RunInv(DoStep(s, t, i, StepEffect(s, t, i, p)))
  {
    var e := StepEffect(s, t, i, p);
    assert ThreadOk(s.run, t, s.threads[t]);
    StepSectionStarted(s.steps[i], i, p, t, |s.log|, s.run.started);
    if e.Proceed? && !Refused(s, e) { OutsideRunKeeps(s, DoStep(s, t, i, e), t); }
  }

  lemma RunInvSeries(s: State, t: Tid, k: Id, p: SeriesPc)
    requires RunInv(s) && CanStep(s, t) && s.threads[t] == InSeries(k, p)
    ensures RunInv(DoSeries(s, t, k, SeriesEffect(s, t, k, p)))
  {
    var e := SeriesEffect(s, t, k, p);
    assert ThreadOk(s.run, t, s.threads[t]);
    SeriesSectionEmits(s.series[k], k, p, t, |s.log|, s.steps[s.series[k].step].ended);
    if e.Proceed? && !Refused(s, e) { OutsideRunKeeps(s, DoSeries(s, t, k, e), t); }
  }

  lemma RunInvDraw(s: State, t: Tid)
    requires RunInv(s) && CanStep(s, t) && (s.threads[t].NewStep? || s.threads[t].NewSeries?)
    ensures RunInv(Step(s, t))
  {
    assert ThreadOk(s.run, t, s.threads[t]);
    OutsideRunKeeps(s, Step(s, t), t);
  }

  // ---- Calls and the environment ----

  lemma EnterKeeps(s: State, t: Tid, pc: Pc, u: Tid)
    requires RunInv(s) && Allowed(s, Begin(t, pc)) && u < |s.threads|
    ensures ThreadOk(Enter(s.run, t, pc), u, if u == t then pc else s.threads[u])
  {
    assert ThreadOk(s.run, u, s.threads[u]);
    assert ThreadOk(s.run, t, s.threads[t]);
  }

  lemma EnterDut(r: RunState, t: Tid, pc: Pc)
    requires DutInv(r)
    requires pc.InRun? && pc.run.StartLock? && pc.run.dut.Some? ==>
               pc.run.dut.value < |r.owners| && r.owners[pc.run.dut.value] == ByCaller
    requires pc == InRun(EndLock) ==> r.phase == Live
    ensures DutInv(Enter(r, t, pc))
  {
  }

  lemma EnterMarks(s: State, t: Tid, pc: Pc)
    requires RunInv(s) && Allowed(s, Begin(t, pc))
    ensures var r := Enter(s.run, t, pc);
            && MarksOk(r) && DutInv(r) && PositionsOk(r, s.log) && (r.started <==> s.run.started)
            && (r.phase == Building || r.phase == Ending ==> r.actor < |s.threads|)
  {
    EnterDut(s.run, t, pc);
  }

  lemma RunInvBegin(s: State, t: Tid, pc: Pc)
    requires RunInv(s) && Allowed(s, Begin(t, pc))
    ensures RunInv(Apply(s, Begin(t, pc)))
  {
    EnterMarks(s, t, pc);
    var r := Enter(s.run, t, pc);
    forall u | 0 <= u < |s.threads|
      ensures ThreadOk(r, u, if u == t then pc else s.threads[u])
    {
      EnterKeeps(s, t, pc, u);
    }
    forall p | 0 <= p < |s.log|
      ensures EntryOk(r, s.log[p], p)
    {
      assert EntryOk(s.run, s.log[p], p);
    }
  }

  lemma RunInvLog(s: State, text: string)
    requires RunInv(s) && s.run.sink
    ensures RunInv(s.(log := s.log + [RunLog(text)]))
  {
  }

  lemma RunInvDut(s: State, r: RunState)
    requires RunInv(s) && DutInv(r)
    requires r == s.run.(owners := r.owners, dutSingleton := r.dutSingleton, liveDut := r.liveDut)
    requires |r.owners| >= |s.run.owners|
    requires forall d | 0 <= d < |s.run.owners| :: r.owners[d] == s.run.owners[d] || s.run.owners[d] == ByCaller
    ensures RunInv(s.(run := r))
  {
    forall u | 0 <= u < |s.threads|
      ensures ThreadOk(r, u, s.threads[u])
    {
      assert ThreadOk(s.run, u, s.threads[u]);
    }
    forall p | 0 <= p < |s.log|
      ensures EntryOk(r, s.log[p], p)
    {
      assert EntryOk(s.run, s.log[p], p);
    }
  }

  lemma DutDropped(r: RunState, d: nat)
    requires DutInv(r) && d < |r.owners| && r.owners[d] == ByCaller
    ensures DutInv(r.(owners := r.owners[d := Gone], dutSingleton := false, liveDut := None))
  {
    assert r.owners[d] != Gone <==> r.liveDut == Some(d);
  }

  lemma DutCreated(r: RunState)
    requires DutInv(r) && !r.dutSingleton
    ensures DutInv(r.(owners := r.owners + [ByCaller], dutSingleton := true, liveDut := Some(|r.owners|)))
  {
  }

  lemma RunInvOther(s: State, a: Action)
    requires RunInv(s) && Allowed(s, a) && !a.Begin? && !a.Take?
    ensures RunInv(Apply(s, a))
  {
    match a
    case AbslLog(text) => RunInvLog(s, text);
    case NewDut(named) =>
      if named && !s.run.dutSingleton {
        DutCreated(s.run);
        RunInvDut(s, Apply(s, a).run);
      }
    case DropDut(d) =>
      DutDropped(s.run, d);
      RunInvDut(s, Apply(s, a).run);
  }

  lemma RunInvApply(s: State, a: Action)
    requires LockInv(s) && RunInv(s) && Allowed(s, a)
    ensures RunInv(Apply(s, a))
  {
    match a
    case Begin(t, pc) => RunInvBegin(s, t, pc);
    case Take(t) =>
      match s.threads[t] {
        case InRun(p) => RunInvRun(s, t, p);
        case InStep(i, p) => RunInvStep(s, t, i, p);
        case InSeries(k, p) => RunInvSeries(s, t, k, p);
        case NewStep(_) => RunInvDraw(s, t);
        case NewSeries(_, _, _, _) => RunInvDraw(s, t);
        case Idle =>
      }
    case _ => RunInvOther(s, a);
  }
}
