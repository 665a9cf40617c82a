/**
 * The worker of brws.py: `AutomationWorker.run` logs in, opens the agenda,
 * asks for the Excel export of the chosen dates and waits for the download;
 * the first exception ends the `try` body, is reported by the error signal,
 * and the browser is closed when the driver was created.
 */
module BrwsWorker {
  import opened Wrappers
  import opened AutomationSteps

  const FinishedMessage: string := "Automation complete! Check your 'downloads' folder."

  /** After the last step: the pause for the download, its log line, 100% and the finished signal. */
  function Closing(): seq<Event>
  {
    [Settle(SettleSeconds), Progress("5. Download pause complete."), Percent(100), Finished(FinishedMessage)]
  }

  /** The `finally` clause: the browser is closed exactly when the driver was created. */
  function Teardown(created: bool): seq<Event>
  {
    if created then [Progress("Closing browser..."), Browser(Quit)] else []
  }

  /** What the run emits after the steps: the closing of a successful run, or the `except` clause. */
  function Ending(o: Outcomes): seq<Event>
  {
    var k := FirstFailure(o);
    if k == |Steps| then Closing() else ErrorReport(Steps[k])
  }

  /** The events of a run whose steps produced `pre`: its error or success report, then the teardown. */
  function Completed(pre: seq<Event>, o: Outcomes): seq<Event>
  {
    pre + Ending(o) + Teardown(0 < FirstFailure(o))
  }

  /** Everything a run emits and does, given which steps raise: it ends in exactly one of the finished and error signals. */
  function Trace(w: Worker, o: Outcomes): (ev: seq<Event>)
    ensures Count(ev, IsFinished) + Count(ev, IsFailed) == 1
  {
    var pre := Prelude(Brws, ScriptOf(Brws, w), o);
    PreludeCounts(Brws, w, o);
    OneOutcomeOf(pre, o);
    Completed(Prelude(Brws, ScriptOf(Brws, w), o), o)
  }

  /** `run`: the statement blocks of the `try` body in order, then its `except` and `finally` clauses. */
  method Run(w: Worker, o: Outcomes) returns (events: seq<Event>)
    ensures events == Trace(w, o)
  {
    var failed, driverCreated;
    events, failed, driverCreated := TryBody(ScriptOf(Brws, w), o, Opening(Brws));
    match failed {
      case None => events := events + Closing();
      case Some(s) => events := events + ErrorReport(s);
    }
    if driverCreated {
      events := events + Teardown(true);
    }
  }

  // ---------------------------------------------------------------------
  // The parts after the steps
  // ---------------------------------------------------------------------

  /** A pause, a log line, 100% and a finished signal report 100 and finish, and nothing else countable. */
  lemma PauseAndFinish(pause: int, note: string, message: string)
    ensures var c := [Settle(pause), Progress(note), Percent(100), Finished(message)];
      && Percents(c) == [100] && Attempted(c) == []
      && Count(c, IsFinished) == 1 && Count(c, IsFailed) == 0 && Count(c, IsQuit) == 0
      && forall e :: e in c ==> !e.Browser?
  {
    var a, b := [Settle(pause), Progress(note)], [Percent(100), Finished(message)];
    assert [Settle(pause), Progress(note), Percent(100), Finished(message)] == a + b;
    PercentsFree(a);
    AttemptFree(a);
    AttemptFree(b);
    CountAbsent(a, IsFinished);
    CountAbsent(a + b, IsFailed);
    CountAbsent(a + b, IsQuit);
    assert b == [Percent(100)] + [Finished(message)];
    PercentsAppend([Percent(100)], [Finished(message)]);
    CountAppend([Percent(100)], [Finished(message)], IsFinished);
    PercentsAppend(a, b);
    CountAppend(a, b, IsFinished);
    AttemptedAppend(a, b);
  }

  /** The events after a successful last step report 100 and finish, and nothing else countable. */
  lemma ClosingFacts()
    ensures Percents(Closing()) == [100] && Attempted(Closing()) == []
    ensures Count(Closing(), IsFinished) == 1 && Count(Closing(), IsFailed) == 0 && Count(Closing(), IsQuit) == 0
    ensures forall e :: e in Closing() ==> !e.Browser?
  {
    PauseAndFinish(SettleSeconds, "5. Download pause complete.", FinishedMessage);
  }

  /** The `finally` clause quits the browser once when the driver exists, and reports nothing. */
  lemma TeardownFacts(created: bool)
    ensures Percents(Teardown(created)) == [] && Attempted(Teardown(created)) == []
    ensures Count(Teardown(created), IsQuit) == (if created then 1 else 0)
    ensures Count(Teardown(created), IsFailed) == 0 && Count(Teardown(created), IsFinished) == 0
    ensures forall e :: e in Teardown(created) ==> e.Progress? || e == Browser(Quit)
  {
    var d := Teardown(created);
    PercentsFree(d);
    AttemptFree(d);
    CountAbsent(d, IsFailed);
    CountAbsent(d, IsFinished);
    if created {
      assert d == [d[0]] + [d[1]];
      CountAppend([d[0]], [d[1]], IsQuit);
    }
  }

  /** The driver is created exactly when Chrome starts, that is, when StartDriver does not raise. */
  lemma DriverCreated(o: Outcomes)
    ensures 0 < FirstFailure(o) <==> StartDriver !in o.failing
  {
    assert Steps[0] == StartDriver;
  }

  // ---------------------------------------------------------------------
  // Properties of a run, from properties of its prelude
  // ---------------------------------------------------------------------

  lemma PercentsOf(pre: seq<Event>, o: Outcomes)
    ensures Percents(Completed(pre, o)) == Percents(pre) + [if FirstFailure(o) == |Steps| then 100 else 0]
  {
    var k := FirstFailure(o);
    if k == |Steps| { ClosingFacts(); } else { ErrorReportFacts(Steps[k]); }
    TeardownFacts(0 < k);
    PercentsConcat(pre, Ending(o), Teardown(0 < k));
  }

  lemma SuccessPercentsOf(pre: seq<Event>, o: Outcomes)
    requires o.failing == {}
    requires Percents(pre) == Checkpoints[..1 + Passed(FirstFailure(o))]
    ensures Percents(Completed(pre, o)) == Checkpoints
  {
    PercentsOf(pre, o);
    AllStepsSucceed(o);
    PassedAll();
    assert Checkpoints[..7] + [100] == Checkpoints;
  }

  lemma AttemptsOf(pre: seq<Event>, o: Outcomes)
    ensures Attempted(Completed(pre, o)) == Attempted(pre)
  {
    var k := FirstFailure(o);
    if k == |Steps| { ClosingFacts(); } else { ErrorReportFacts(Steps[k]); }
    TeardownFacts(0 < k);
    AttemptedConcat(pre, Ending(o), Teardown(0 < k));
  }

  lemma SuccessAttemptsOf(pre: seq<Event>, o: Outcomes)
    requires o.failing == {}
    requires var k := FirstFailure(o); Attempted(pre) == Steps[..if k < |Steps| then k + 1 else k]
    ensures Attempted(Completed(pre, o)) == Steps
  {
    AttemptsOf(pre, o);
    AllStepsSucceed(o);
    assert Steps[..|Steps|] == Steps;
  }

  lemma SuccessFinishesOf(pre: seq<Event>, o: Outcomes)
    requires o.failing == {}
    requires Count(pre, IsFinished) == 0 && Count(pre, IsFailed) == 0
    ensures Count(Completed(pre, o), IsFinished) == 1 && Count(Completed(pre, o), IsFailed) == 0
  {
    AllStepsSucceed(o);
    ClosingFacts();
    TeardownFacts(true);
    CountConcat(pre, Closing(), Teardown(true), IsFinished);
    CountConcat(pre, Closing(), Teardown(true), IsFailed);
  }

  lemma SuccessEndingOf(pre: seq<Event>, o: Outcomes)
    requires o.failing == {}
    ensures var ev := Completed(pre, o);
      && |ev| >= 3 && ev[|ev| - 3] == Finished(FinishedMessage)
      && ev[|ev| - 2] == Progress("Closing browser...") && ev[|ev| - 1] == Browser(Quit)
  {
    AllStepsSucceed(o);
    var ev := pre + Closing() + Teardown(true);
    assert Completed(pre, o) == ev;
  }

  lemma FailurePercentsOf(pre: seq<Event>, o: Outcomes)
    requires o.failing != {}
    requires Passed(FirstFailure(o)) <= 6
    requires Percents(pre) == Checkpoints[..1 + Passed(FirstFailure(o))]
    ensures Percents(Completed(pre, o)) == Checkpoints[..1 + Passed(FirstFailure(o))] + [0]
  {
    PercentsOf(pre, o);
    AllStepsSucceed(o);
  }

  lemma FailureAttemptsOf(pre: seq<Event>, o: Outcomes)
    requires o.failing != {}
    requires var k := FirstFailure(o); Attempted(pre) == Steps[..if k < |Steps| then k + 1 else k]
    ensures FirstFailure(o) < |Steps|
    ensures Attempted(Completed(pre, o)) == Steps[..FirstFailure(o) + 1]
  {
    AttemptsOf(pre, o);
    AllStepsSucceed(o);
  }

  lemma FailureSignalsOf(pre: seq<Event>, o: Outcomes)
    requires o.failing != {}
    requires Count(pre, IsFinished) == 0 && Count(pre, IsFailed) == 0
    ensures Count(Completed(pre, o), IsFinished) == 0 && Count(Completed(pre, o), IsFailed) == 1
  {
    var k := FirstFailure(o);
    AllStepsSucceed(o);
    ErrorReportFacts(Steps[k]);
    TeardownFacts(0 < k);
    CountConcat(pre, ErrorReport(Steps[k]), Teardown(0 < k), IsFinished);
    CountConcat(pre, ErrorReport(Steps[k]), Teardown(0 < k), IsFailed);
  }

  lemma OneOutcomeOf(pre: seq<Event>, o: Outcomes)
    requires Count(pre, IsFinished) == 0 && Count(pre, IsFailed) == 0
    ensures Count(Completed(pre, o), IsFinished) + Count(Completed(pre, o), IsFailed) == 1
  {
    if o.failing == {} { SuccessFinishesOf(pre, o); } else { FailureSignalsOf(pre, o); }
  }

  lemma FailureReportedOf(pre: seq<Event>, o: Outcomes)
    requires o.failing != {}
    requires forall e :: e in pre ==> Ordinary(e)
    ensures FirstFailure(o) < |Steps|
    ensures var k, ev := FirstFailure(o), Completed(pre, o);
      var i := |ev| - |Teardown(0 < k)| - 2;
      && 0 <= i && ev[i] == Failed(StepFailed(Steps[k])) && ev[i + 1] == Percent(0)
      && forall j :: 0 <= j < i ==> Ordinary(ev[j])
  {
    var k := FirstFailure(o);
    AllStepsSucceed(o);
    var tail, down := ErrorReport(Steps[k]), Teardown(0 < k);
    var ev := pre + tail + down;
    assert Completed(pre, o) == ev;
    assert |ev| - |down| - 2 == |pre|;
    assert forall j :: 0 <= j < |pre| ==> ev[j] == pre[j] && pre[j] in pre;
    assert ev[|pre|] == tail[0] && ev[|pre| + 1] == tail[1];
  }

  lemma QuitOf(pre: seq<Event>, o: Outcomes)
    requires Count(pre, IsQuit) == 0
    ensures Count(Completed(pre, o), IsQuit) == if StartDriver in o.failing then 0 else 1
  {
    var k := FirstFailure(o);
    DriverCreated(o);
    if k == |Steps| { ClosingFacts(); } else { ErrorReportFacts(Steps[k]); }
    TeardownFacts(0 < k);
    CountConcat(pre, Ending(o), Teardown(0 < k), IsQuit);
  }

  lemma WaitsAndInputsOf(pre: seq<Event>, w: Worker, o: Outcomes)
    requires WaitsBounded(pre) && TypedVerbatim(w, pre)
    ensures WaitsBounded(Completed(pre, o)) && TypedVerbatim(w, Completed(pre, o))
  {
    var k := FirstFailure(o);
    if k == |Steps| { ClosingFacts(); } else { ErrorReportFacts(Steps[k]); }
    TeardownFacts(0 < k);
    QuitOnly(w, Ending(o));
    QuitOnly(w, Teardown(0 < k));
    OrdinaryAppend(w, pre, Ending(o));
    OrdinaryAppend(w, pre + Ending(o), Teardown(0 < k));
  }

  lemma AdjacentOf(pre: seq<Event>, o: Outcomes, a: Event, b: Event)
    requires Adjacent(pre, a, b)
    ensures Adjacent(Completed(pre, o), a, b)
  {
    AdjacentWithin([], pre, Ending(o) + Teardown(0 < FirstFailure(o)), a, b);
    assert Completed(pre, o) == [] + pre + (Ending(o) + Teardown(0 < FirstFailure(o)));
  }

  // ---------------------------------------------------------------------
  // Properties of a run
  // ---------------------------------------------------------------------

  /** When no step raises, the progress bar goes through every checkpoint in order. */
  lemma SuccessPercents(w: Worker, o: Outcomes)
    requires o.failing == {}
    ensures Percents(Trace(w, o)) == Checkpoints
  {
    var pre := Prelude(Brws, ScriptOf(Brws, w), o);
    PreludePercents(Brws, w, o);
    SuccessPercentsOf(pre, o);
    assert Trace(w, o) == Completed(pre, o);
  }

  /** When no step raises, every step is attempted, in order. */
  lemma SuccessAttempts(w: Worker, o: Outcomes)
    requires o.failing == {}
    ensures Attempted(Trace(w, o)) == Steps
  {
    var pre := Prelude(Brws, ScriptOf(Brws, w), o);
    PreludeAttempts(Brws, w, o);
    SuccessAttemptsOf(pre, o);
    assert Trace(w, o) == Completed(pre, o);
  }

  /** When no step raises, the run finishes once and reports no error. */
  lemma SuccessFinishes(w: Worker, o: Outcomes)
    requires o.failing == {}
    ensures Count(Trace(w, o), IsFinished) == 1 && Count(Trace(w, o), IsFailed) == 0
  {
    var pre := Prelude(Brws, ScriptOf(Brws, w), o);
    PreludeCounts(Brws, w, o);
    SuccessFinishesOf(pre, o);
    assert Trace(w, o) == Completed(pre, o);
  }

  /** When no step raises, the finished signal is followed only by the closing of the browser. */
  lemma SuccessEnding(w: Worker, o: Outcomes)
    requires o.failing == {}
    ensures var ev := Trace(w, o);
      && |ev| >= 3 && ev[|ev| - 3] == Finished(FinishedMessage)
      && ev[|ev| - 2] == Progress("Closing browser...") && ev[|ev| - 1] == Browser(Quit)
  {
    var pre := Prelude(Brws, ScriptOf(Brws, w), o);
    SuccessEndingOf(pre, o);
    assert Trace(w, o) == Completed(pre, o);
  }

  /** When a step raises, the checkpoints of the steps before it are reported, then the reset to 0. */
  lemma FailurePercents(w: Worker, o: Outcomes)
    requires o.failing != {}
    ensures Passed(FirstFailure(o)) <= 6
    ensures Percents(Trace(w, o)) == Checkpoints[..1 + Passed(FirstFailure(o))] + [0]
  {
    var pre := Prelude(Brws, ScriptOf(Brws, w), o);
    PreludePercents(Brws, w, o);
    FailurePercentsOf(pre, o);
    assert Trace(w, o) == Completed(pre, o);
  }

  /** When a step raises, exactly the steps up to and including the first failing one are attempted. */
  lemma FailureAttempts(w: Worker, o: Outcomes)
    requires o.failing != {}
    ensures FirstFailure(o) < |Steps|
    ensures Attempted(Trace(w, o)) == Steps[..FirstFailure(o) + 1]
  {
    var pre := Prelude(Brws, ScriptOf(Brws, w), o);
    PreludeAttempts(Brws, w, o);
    FailureAttemptsOf(pre, o);
    assert Trace(w, o) == Completed(pre, o);
  }

  /** When a step raises, the run signals one error and never finishes. */
  lemma FailureSignals(w: Worker, o: Outcomes)
    requires o.failing != {}
    ensures Count(Trace(w, o), IsFinished) == 0 && Count(Trace(w, o), IsFailed) == 1
  {
    var pre := Prelude(Brws, ScriptOf(Brws, w), o);
    PreludeCounts(Brws, w, o);
    FailureSignalsOf(pre, o);
    assert Trace(w, o) == Completed(pre, o);
  }

  /**
   * When a step raises, the error signal names the first failing step and is
   * followed by the reset to 0, and nothing before it ends the run.
   */
  lemma FailureReported(w: Worker, o: Outcomes)
    requires o.failing != {}
    ensures FirstFailure(o) < |Steps|
    ensures var k, ev := FirstFailure(o), Trace(w, o);
      var i := |ev| - |Teardown(0 < k)| - 2;
      && 0 <= i && ev[i] == Failed(StepFailed(Steps[k])) && ev[i + 1] == Percent(0)
      && forall j :: 0 <= j < i ==> Ordinary(ev[j])
  {
    var pre := Prelude(Brws, ScriptOf(Brws, w), o);
    PreludeOrdinary(Brws, w, o);
    FailureReportedOf(pre, o);
    assert Trace(w, o) == Completed(pre, o);
  }

  /** The browser is closed once when the driver was created, and never otherwise. */
  lemma QuitIffDriverCreated(w: Worker, o: Outcomes)
    ensures Count(Trace(w, o), IsQuit) == if StartDriver in o.failing then 0 else 1
  {
    var pre := Prelude(Brws, ScriptOf(Brws, w), o);
    PreludeCounts(Brws, w, o);
    QuitOf(pre, o);
    assert Trace(w, o) == Completed(pre, o);
  }

  /** Every wait is bounded by WAIT_TIMEOUT, and every field receives the worker's input for it unchanged. */
  lemma WaitsAndInputs(w: Worker, o: Outcomes)
    ensures WaitsBounded(Trace(w, o))
    ensures TypedVerbatim(w, Trace(w, o))
  {
    var pre := Prelude(Brws, ScriptOf(Brws, w), o);
    PreludeOrdinary(Brws, w, o);
    WaitsAndInputsOf(pre, w, o);
    assert Trace(w, o) == Completed(pre, o);
  }

  /** Once a date step has succeeded, its field was cleared and then given the worker's date. */
  lemma DatesEntered(w: Worker, o: Outcomes)
    ensures Index(FillDal) < FirstFailure(o) ==> Adjacent(Trace(w, o), Cleared(FillDal), Typed(w, FillDal))
    ensures Index(FillAl) < FirstFailure(o) ==> Adjacent(Trace(w, o), Cleared(FillAl), Typed(w, FillAl))
  {
    var pre := Prelude(Brws, ScriptOf(Brws, w), o);
    assert Trace(w, o) == Completed(pre, o);
    if Index(FillDal) < FirstFailure(o) {
      PreludeDates(Brws, w, o, FillDal);
      AdjacentOf(pre, o, Cleared(FillDal), Typed(w, FillDal));
    }
    if Index(FillAl) < FirstFailure(o) {
      PreludeDates(Brws, w, o, FillAl);
      AdjacentOf(pre, o, Cleared(FillAl), Typed(w, FillAl));
    }
  }
}
