/** The verdict state machine of a test run (test_result_calculator.cc). */
module ResultCalculator {
  import opened Options
  import opened Artifacts

  datatype Event = StartRun | SkipRun | ErrorSeen | FailSeen | Finalized

  /** The guarded fields of TestResultCalculator. */
  datatype Calc = Calc(finalized: bool, runStarted: bool, result: TestResult, status: TestStatus)

  const InitialCalc := Calc(false, false, NotApplicable, Unknown)

  /** One critical section; None when CheckFinalized fails. */
  function Notify(c: Calc, e: Event): Option<Calc> {
    if c.finalized then None else
    match e
    case StartRun => Some(c.(runStarted := true))
    case SkipRun => Some(if c.status == Unknown then c.(result := NotApplicable, status := Skip) else c)
    case ErrorSeen => Some(if c.status == Unknown then c.(result := NotApplicable, status := Error) else c)
    case FailSeen =>
      Some(if c.result == NotApplicable && c.status == Unknown then c.(result := Fail) else c)
    case Finalized =>
      var f := c.(finalized := true);
      Some(if c.runStarted then
             if c.status != Unknown then f
             else f.(status := Complete, result := if c.result == NotApplicable then Pass else c.result)
           else if c.status != Error then f.(status := Skip, result := NotApplicable)
           else f)
  }

  /** The calculator after a whole history of critical sections. */
  function Fold(events: seq<Event>): Option<Calc> {
    if events == [] then Some(InitialCalc) else
    match Fold(events[..|events| - 1])
    case None => None
    case Some(c) => Notify(c, events[|events| - 1])
  }

  lemma FoldExtend(events: seq<Event>, e: Event)
    ensures Fold(events + [e]) == match Fold(events) case None => None case Some(c) => Notify(c, e)
  {
    assert (events + [e])[..|events|] == events;
  }

  /** The earliest skip or error of a history: the one that decides. */
  function FirstStop(events: seq<Event>): Option<Event> {
    if events == [] then None
    else if events[0] == SkipRun || events[0] == ErrorSeen then Some(events[0])
    else FirstStop(events[1..])
  }

  lemma FirstStopExtend(events: seq<Event>, e: Event)
    ensures FirstStop(events + [e]) ==
            if FirstStop(events).Some? then FirstStop(events)
            else if e == SkipRun || e == ErrorSeen then Some(e) else None
  {
    if events == [] {
      assert events + [e] == [e];
    } else {
      assert (events + [e])[1..] == events[1..] + [e];
    }
  }

  lemma {:induction false} FirstStopIsEarliest(events: seq<Event>)
    ensures FirstStop(events) == None <==> SkipRun !in events && ErrorSeen !in events
    ensures forall e :: FirstStop(events) == Some(e) ==>
              exists i :: 0 <= i < |events| && events[i] == e && (e == SkipRun || e == ErrorSeen) &&
                          SkipRun !in events[..i] && ErrorSeen !in events[..i]
  {
    if events != [] {
      FirstStopIsEarliest(events[1..]);
      assert events == [events[0]] + events[1..];
      forall e | FirstStop(events) == Some(e)
        ensures exists i :: 0 <= i < |events| && events[i] == e && (e == SkipRun || e == ErrorSeen) &&
                            SkipRun !in events[..i] && ErrorSeen !in events[..i]
      {
        if e == events[0] && (e == SkipRun || e == ErrorSeen) {
          assert events[..0] == [];
        } else {
          var j :| 0 <= j < |events[1..]| && events[1..][j] == e &&
                   SkipRun !in events[1..][..j] && ErrorSeen !in events[1..][..j];
          assert events[..j + 1] == [events[0]] + events[1..][..j];
          assert events[j + 1] == e;
        }
      }
    }
  }

  /** The verdict a history deserves, stated on the history alone. */
  function Verdict(events: seq<Event>): (TestStatus, TestResult) {
    if FirstStop(events) == Some(ErrorSeen) then (Error, NotApplicable)
    else if FirstStop(events) == Some(SkipRun) || StartRun !in events then (Skip, NotApplicable)
    else (Complete, if FailSeen in events then Fail else Pass)
  }

  /** What the calculator holds before Finalize, in terms of its history. */
  lemma {:induction false} FoldBeforeFinalize(events: seq<Event>)
    requires Finalized !in events
    ensures Fold(events) == Some(Calc(
      false,
      StartRun in events,
      if FirstStop(events) == None && FailSeen in events then Fail else NotApplicable,
      match FirstStop(events) case None => Unknown case Some(e) => if e == SkipRun then Skip else Error))
  {
    if events != [] {
      var before, e := events[..|events| - 1], events[|events| - 1];
      assert events == before + [e];
      FoldBeforeFinalize(before);
      FoldExtend(before, e);
      FirstStopExtend(before, e);
      FirstStopIsEarliest(before);
    }
  }

  /** The first of skip and error wins; a run that never started is Skip unless an error came first;
      a verdict of Complete carries Fail exactly when a failure was notified. */
  lemma FinalVerdict(events: seq<Event>)
    requires Finalized !in events
    ensures var c := Fold(events + [Finalized]);
            c.Some? && c.value.finalized && (c.value.status, c.value.result) == Verdict(events)
  {
    FoldBeforeFinalize(events);
    FoldExtend(events, Finalized);
    FirstStopIsEarliest(events);
  }

  /** The history is accepted exactly when nothing follows Finalize. */
  lemma {:induction false} AcceptedHistories(events: seq<Event>)
    ensures Fold(events).Some? <==> forall i :: 0 <= i < |events| - 1 ==> events[i] != Finalized
    ensures Fold(events).Some? ==> (Fold(events).value.finalized <==> Finalized in events)
  {
    if events != [] {
      var before, e := events[..|events| - 1], events[|events| - 1];
      assert events == before + [e];
      AcceptedHistories(before);
      assert Finalized in before <==> exists i :: 0 <= i < |events| - 1 && events[i] == Finalized;
    }
  }

  /** The object itself. Every method is one critical section; a false result is a failed CHECK,
      after which the program is gone and the fields are as they were. */
  class TestResultCalculator {
    var finalized: bool
    var runStarted: bool
    var result: TestResult
    var status: TestStatus

    function State(): Calc
      reads this
    {
      Calc(finalized, runStarted, result, status)
    }

    constructor ()
      ensures State() == InitialCalc
    {
      finalized, runStarted, result, status := false, false, NotApplicable, Unknown;
    }

    method NotifyStartRun() returns (ok: bool)
      modifies this
      ensures ok == Notify(old(State()), StartRun).Some?
      ensures State() == if ok then Notify(old(State()), StartRun).value else old(State())
    {
      if finalized { return false; }
      runStarted := true;
      return true;
    }

    method NotifySkip() returns (ok: bool)
      modifies this
      ensures ok == Notify(old(State()), SkipRun).Some?
      ensures State() == if ok then Notify(old(State()), SkipRun).value else old(State())
    {
      if finalized { return false; }
      if status == Unknown {
        result := NotApplicable;
        status := Skip;
      }
      return true;
    }

    method NotifyError() returns (ok: bool)
      modifies this
      ensures ok == Notify(old(State()), ErrorSeen).Some?
      ensures State() == if ok then Notify(old(State()), ErrorSeen).value else old(State())
    {
      if finalized { return false; }
      if status == Unknown {
        result := NotApplicable;
        status := Error;
      }
      return true;
    }

    method NotifyFailureDiagnosis() returns (ok: bool)
      modifies this
      ensures ok == Notify(old(State()), FailSeen).Some?
      ensures State() == if ok then Notify(old(State()), FailSeen).value else old(State())
    {
      if finalized { return false; }
      if result == NotApplicable && status == Unknown {
        result := Fail;
      }
      return true;
    }

    method Finalize() returns (ok: bool)
      modifies this
      ensures ok == Notify(old(State()), Finalized).Some?
      ensures State() == if ok then Notify(old(State()), Finalized).value else old(State())
    {
      if finalized { return false; }
      finalized := true;
      if runStarted {
        if status == Unknown {
          status := Complete;
          if result == NotApplicable { result := Pass; }
        }
      } else if status != Error {
        status := Skip;
        result := NotApplicable;
      }
      return true;
    }
  }
}
