/**
 * The worker of brtr.py: the same browser steps as brws.py, with a download
 * folder emptied beforehand, and after the pause the newest download renamed
 * to data.xls and converted to output.json. The handler of a failed
 * conversion raises itself, so such a run ends with the error signal.
 */
module BrtrWorker {
  import opened Wrappers
  import opened SpreadsheetTransform
  import opened AutomationSteps
  import opened DownloadResolver

  const FinishedMessage: string := "Automation complete! Check your downloads folder."

  /**
   * What the run does not decide itself: the files the environment keeps, what
   * the browser saves, where the rename block raises, and whether output.json
   * can be written.
   */
  datatype Environment = Environment(
    cleanupListing: seq<string>,   // the order os.listdir gives before the cleanup
    undeletable: set<string>,      // the files os.remove raises on
    downloads: Folder,             // what the browser saves into the folder during the export
    listing: seq<string>,          // the order os.listdir gives after the pause
    fault: Fault,
    output: Sink)                  // how the folder meets the write of output.json

  /** The folder after the pause of a run whose steps all succeeded. */
  function Downloaded(folder: Folder, env: Environment): Folder
  {
    Cleaned(folder, env.undeletable) + env.downloads
  }

  /** The outcome of the rename block. */
  function Resolved(folder: Folder, env: Environment): Resolution
    requires Lists(env.listing, Downloaded(folder, env))
  {
    Resolve(Downloaded(folder, env), env.listing, env.fault)
  }

  /** What the conversion reads as data.xls: nothing when there is no such file. */
  function DataFile(folder: Folder): Option<XmlFile>
  {
    if DataXls in folder then Some(folder[DataXls].content) else None
  }

  /** What the conversion of data.xls gives: the records, or the error that aborts it. */
  type Conv = Result<seq<Record>, ConvError>

  /** The conversion of data.xls after the rename block, with the write of output.json. */
  function Conversion(folder: Folder, env: Environment): (c: Conv)
    requires Lists(env.listing, Downloaded(folder, env))
    ensures c.Success? ==> DataXls in Resolved(folder, env).folder && env.output == Writable
    ensures DataXls !in Resolved(folder, env).folder ==> c == Failure(FileNotFound)
  {
    TransformErrors(DataFile(Resolved(folder, env).folder));
    ConvertAndWrite(DataFile(Resolved(folder, env).folder), env.output)
  }

  /** The handler of the rename block logs the error. */
  function RenameLog(r: Resolution): seq<Event>
  {
    if r.renameError then [Progress("Rename error: ")] else []
  }

  /**
   * The conversion block: on success its log line, 100 and the finished signal;
   * on failure the handler logs the error, then raises, because it calls what
   * the progress signal's emit returns; the outer handler then reports the error and 0.
   */
  function ConversionLog(c: Conv, latestBound: bool): seq<Event>
  {
    if c.Success? then [Progress("JSON conversion finished."), Percent(100), Finished(FinishedMessage)]
    else [Progress("JSON error: "), Failed(JsonHandlerRaised(latestBound)), Percent(0)]
  }

  /** What a run whose steps all succeeded emits after them: the pause, the rename block, the conversion block. */
  function Handling(r: Resolution, c: Conv): seq<Event>
  {
    [Settle(SettleSeconds)] + RenameLog(r) + ConversionLog(c, r.latest.Some?)
  }

  /** The `finally` clause: the browser is closed exactly when the driver was created. */
  function Teardown(created: bool): seq<Event>
  {
    if created then [Browser(Quit)] else []
  }

  /** What the run emits after the steps, given the outcomes of the rename and conversion blocks. */
  function Ending(o: Outcomes, r: Resolution, c: Conv): seq<Event>
  {
    var k := FirstFailure(o);
    if k == |Steps| then Handling(r, c) else ErrorReport(Steps[k])
  }

  /** The events of a run whose steps produced `pre`. */
  function Completed(pre: seq<Event>, o: Outcomes, r: Resolution, c: Conv): seq<Event>
  {
    pre + Ending(o, r, c) + Teardown(0 < FirstFailure(o))
  }

  /** Everything a run emits and does: it ends in exactly one of the finished and error signals. */
  function Trace(w: Worker, o: Outcomes, folder: Folder, env: Environment): (ev: seq<Event>)
    requires Lists(env.listing, Downloaded(folder, env))
    ensures Count(ev, IsFinished) + Count(ev, IsFailed) == 1
  {
    PreludeCounts(Brtr, w, o);
    SignalsOf(Prelude(Brtr, ScriptOf(Brtr, w), o), o, Resolved(folder, env), Conversion(folder, env));
    Completed(Prelude(Brtr, ScriptOf(Brtr, w), o), o, Resolved(folder, env), Conversion(folder, env))
  }

  /** The download folder after a run: cleaned, and when the steps succeeded, the downloads added and the rename block applied. */
  function FinalFolder(o: Outcomes, folder: Folder, env: Environment): Folder
    requires Lists(env.listing, Downloaded(folder, env))
  {
    if FirstFailure(o) == |Steps| then Resolved(folder, env).folder else Cleaned(folder, env.undeletable)
  }

  /** What output.json receives: the records of a successful conversion. */
  function Written(o: Outcomes, folder: Folder, env: Environment): Option<seq<Record>>
    requires Lists(env.listing, Downloaded(folder, env))
  {
    if FirstFailure(o) == |Steps| && Conversion(folder, env).Success? then Some(Conversion(folder, env).value) else None
  }

  /** The statements after the last step: the pause, the rename block and the conversion block. */
  method HandleDownload(folder: Folder, env: Environment, cleaned: Folder)
    returns (events: seq<Event>, folder': Folder, written: Option<seq<Record>>)
    requires Lists(env.listing, Downloaded(folder, env))
    requires cleaned == Cleaned(folder, env.undeletable)
    ensures events == Handling(Resolved(folder, env), Conversion(folder, env))
    ensures folder' == Resolved(folder, env).folder
    ensures written == if Conversion(folder, env).Success? then Some(Conversion(folder, env).value) else None
  {
    events := [Settle(SettleSeconds)];
    folder' := cleaned + env.downloads;
    var r := Resolve(folder', env.listing, env.fault);
    folder' := r.folder;
    events := events + RenameLog(r);
    var converted := Convert(DataFile(folder'));
    if converted.Success? && env.output != Writable {
      converted := Failure(if env.output == MissingDirectory then OutputNotFound else WriteFailed);
    }
    written := if converted.Success? then Some(converted.value) else None;
    events := events + ConversionLog(converted, r.latest.Some?);
  }

  /** `run`: the cleanup, the statement blocks of the `try` body, then its `except` and `finally` clauses. */
  method Run(w: Worker, o: Outcomes, folder: Folder, env: Environment)
    returns (events: seq<Event>, folder': Folder, written: Option<seq<Record>>)
    requires Lists(env.cleanupListing, folder)
    requires Lists(env.listing, Downloaded(folder, env))
    ensures events == Trace(w, o, folder, env)
    ensures folder' == FinalFolder(o, folder, env)
    ensures written == Written(o, folder, env)
  {
    folder' := Cleanup(folder, env.cleanupListing, env.undeletable);
    var failed, driverCreated;
    events, failed, driverCreated := TryBody(ScriptOf(Brtr, w), o, Opening(Brtr));
    written := None;
    match failed {
      case Some(s) =>
        events := events + ErrorReport(s);
      case None =>
        var handled;
        handled, folder', written := HandleDownload(folder, env, folder');
        events := events + handled;
    }
    if driverCreated {
      events := events + Teardown(true);
    }
  }

  // ---------------------------------------------------------------------
  // The parts after the steps
  // ---------------------------------------------------------------------

  /** The conversion block reports 100 and finishes on success, and otherwise reports the error and 0. */
  lemma ConversionLogFacts(c: Conv, latestBound: bool)
    ensures var log := ConversionLog(c, latestBound);
      && |log| == 3
      && (c.Success? ==> log[1] == Percent(100) && log[2] == Finished(FinishedMessage))
      && (c.Failure? ==> log[0] == Progress("JSON error: ") && log[1] == Failed(JsonHandlerRaised(latestBound)) && log[2] == Percent(0))
      && Percents(log) == [if c.Success? then 100 else 0]
      && Attempted(log) == []
      && Count(log, IsFinished) == (if c.Success? then 1 else 0)
      && Count(log, IsFailed) == (if c.Success? then 0 else 1)
      && Count(log, IsQuit) == 0
      && forall e :: e in log ==> !e.Browser?
  {
    var log := ConversionLog(c, latestBound);
    assert log == [log[0]] + [log[1]] + [log[2]];
    AttemptFree(log);
    CountAbsent(log, IsQuit);
    PercentsAppend([log[0]] + [log[1]], [log[2]]);
    PercentsAppend([log[0]], [log[1]]);
    CountAppend([log[0]] + [log[1]], [log[2]], IsFinished);
    CountAppend([log[0]], [log[1]], IsFinished);
    CountAppend([log[0]] + [log[1]], [log[2]], IsFailed);
    CountAppend([log[0]], [log[1]], IsFailed);
  }

  /** The pause and the rename block report nothing countable. */
  lemma RenameFacts(r: Resolution)
    ensures var h := [Settle(SettleSeconds)] + RenameLog(r);
      && Percents(h) == [] && Attempted(h) == []
      && Count(h, IsFinished) == 0 && Count(h, IsFailed) == 0 && Count(h, IsQuit) == 0
      && forall e :: e in h ==> !e.Browser?
  {
    var h := [Settle(SettleSeconds)] + RenameLog(r);
    PercentsFree(h);
    AttemptFree(h);
    CountAbsent(h, IsFinished);
    CountAbsent(h, IsFailed);
    CountAbsent(h, IsQuit);
  }

  /** After successful steps the run reports 100 and finishes when the conversion succeeds, and otherwise reports the error and 0. */
  lemma HandlingFacts(r: Resolution, c: Conv)
    ensures var ok := c.Success?;
      && Percents(Handling(r, c)) == [if ok then 100 else 0]
      && Attempted(Handling(r, c)) == []
      && Count(Handling(r, c), IsFinished) == (if ok then 1 else 0)
      && Count(Handling(r, c), IsFailed) == (if ok then 0 else 1)
      && Count(Handling(r, c), IsQuit) == 0
      && forall e :: e in Handling(r, c) ==> !e.Browser?
  {
    var h := [Settle(SettleSeconds)] + RenameLog(r);
    var log := ConversionLog(c, r.latest.Some?);
    RenameFacts(r);
    ConversionLogFacts(c, r.latest.Some?);
    PercentsAppend(h, log);
    AttemptedAppend(h, log);
    CountAppend(h, log, IsFinished);
    CountAppend(h, log, IsFailed);
    CountAppend(h, log, IsQuit);
  }

  /** The `finally` clause quits the browser once when the driver exists, and does nothing else. */
  lemma TeardownFacts(created: bool)
    ensures Percents(Teardown(created)) == [] && Attempted(Teardown(created)) == []
    ensures Count(Teardown(created), IsQuit) == (if created then 1 else 0)
    ensures Count(Teardown(created), IsFailed) == 0 && Count(Teardown(created), IsFinished) == 0
    ensures forall e :: e in Teardown(created) ==> e == Browser(Quit)
  {
    var d := Teardown(created);
    PercentsFree(d);
    AttemptFree(d);
    CountAbsent(d, IsFailed);
    CountAbsent(d, IsFinished);
    if created {
      assert d == [] + [d[0]];
      CountAppend([], [d[0]], IsQuit);
    }
  }

  /** Whatever happens after the steps attempts no step and does not touch the browser. */
  lemma EndingFacts(o: Outcomes, r: Resolution, c: Conv)
    ensures Attempted(Ending(o, r, c)) == [] && Count(Ending(o, r, c), IsQuit) == 0
    ensures forall e :: e in Ending(o, r, c) ==> !e.Browser?
  {
    var k := FirstFailure(o);
    if k == |Steps| { HandlingFacts(r, c); } else { ErrorReportFacts(Steps[k]); }
  }

  // ---------------------------------------------------------------------
  // Properties of a run, from properties of its prelude
  // ---------------------------------------------------------------------

  lemma PercentsOf(pre: seq<Event>, o: Outcomes, r: Resolution, c: Conv)
    requires Passed(FirstFailure(o)) <= 6
    requires Percents(pre) == Checkpoints[..1 + Passed(FirstFailure(o))]
    ensures var k := FirstFailure(o);
      Percents(Completed(pre, o, r, c)) == Checkpoints[..1 + Passed(k)] + [if k == |Steps| && c.Success? then 100 else 0]
  {
    var k := FirstFailure(o);
    if k == |Steps| { HandlingFacts(r, c); } else { ErrorReportFacts(Steps[k]); }
    TeardownFacts(0 < k);
    PercentsConcat(pre, Ending(o, r, c), Teardown(0 < k));
  }

  lemma SuccessPercentsOf(pre: seq<Event>, o: Outcomes, r: Resolution, c: Conv)
    requires o.failing == {} && c.Success?
    requires Percents(pre) == Checkpoints[..1 + Passed(FirstFailure(o))]
    ensures Percents(Completed(pre, o, r, c)) == Checkpoints
  {
    AllStepsSucceed(o);
    PassedAll();
    HandlingFacts(r, c);
    TeardownFacts(true);
    PercentsConcat(pre, Ending(o, r, c), Teardown(true));
    assert Checkpoints[..7] + [100] == Checkpoints;
  }

  lemma AttemptsOf(pre: seq<Event>, o: Outcomes, r: Resolution, c: Conv)
    ensures Attempted(Completed(pre, o, r, c)) == Attempted(pre)
  {
    var k := FirstFailure(o);
    EndingFacts(o, r, c);
    TeardownFacts(0 < k);
    AttemptedConcat(pre, Ending(o, r, c), Teardown(0 < k));
  }

  lemma QuitOf(pre: seq<Event>, o: Outcomes, r: Resolution, c: Conv)
    requires Count(pre, IsQuit) == 0
    ensures Count(Completed(pre, o, r, c), IsQuit) == if StartDriver in o.failing then 0 else 1
  {
    var k := FirstFailure(o);
    assert Steps[0] == StartDriver;
    EndingFacts(o, r, c);
    TeardownFacts(0 < k);
    CountConcat(pre, Ending(o, r, c), Teardown(0 < k), IsQuit);
  }

  lemma SignalsOf(pre: seq<Event>, o: Outcomes, r: Resolution, c: Conv)
    requires Count(pre, IsFinished) == 0 && Count(pre, IsFailed) == 0
    ensures var ok := o.failing == {} && c.Success?;
      && Count(Completed(pre, o, r, c), IsFinished) == (if ok then 1 else 0)
      && Count(Completed(pre, o, r, c), IsFailed) == (if ok then 0 else 1)
  {
    var k := FirstFailure(o);
    AllStepsSucceed(o);
    if k == |Steps| { HandlingFacts(r, c); } else { ErrorReportFacts(Steps[k]); }
    TeardownFacts(0 < k);
    CountConcat(pre, Ending(o, r, c), Teardown(0 < k), IsFinished);
    CountConcat(pre, Ending(o, r, c), Teardown(0 < k), IsFailed);
  }

  lemma ConversionErrorOf(pre: seq<Event>, o: Outcomes, r: Resolution, c: Conv)
    requires o.failing == {} && c.Failure?
    ensures |Completed(pre, o, r, c)| >= 4
    ensures Completed(pre, o, r, c)[|Completed(pre, o, r, c)| - 4..] ==
      [Progress("JSON error: "), Failed(JsonHandlerRaised(r.latest.Some?)), Percent(0), Browser(Quit)]
  {
    AllStepsSucceed(o);
    var log := ConversionLog(c, r.latest.Some?);
    var ev := pre + ([Settle(SettleSeconds)] + RenameLog(r) + log) + [Browser(Quit)];
    assert Completed(pre, o, r, c) == ev;
    assert ev[|ev| - 4..] == log + [Browser(Quit)];
  }

  lemma RenameLoggedOf(pre: seq<Event>, o: Outcomes, r: Resolution, c: Conv)
    requires o.failing == {} && r.renameError
    ensures Completed(pre, o, r, c) ==
      pre + [Settle(SettleSeconds), Progress("Rename error: ")] + ConversionLog(c, r.latest.Some?) + [Browser(Quit)]
  {
    AllStepsSucceed(o);
    assert Completed(pre, o, r, c) == pre + Handling(r, c) + [Browser(Quit)];
  }

  lemma SuccessEndingOf(pre: seq<Event>, o: Outcomes, r: Resolution, c: Conv)
    requires o.failing == {} && c.Success?
    ensures var ev := Completed(pre, o, r, c);
      && |ev| >= 4 && ev[|ev| - 4] == Progress("JSON conversion finished.")
      && ev[|ev| - 3] == Percent(100) && ev[|ev| - 2] == Finished(FinishedMessage) && ev[|ev| - 1] == Browser(Quit)
  {
    AllStepsSucceed(o);
    var ev := pre + Handling(r, c) + [Browser(Quit)];
    assert Completed(pre, o, r, c) == ev;
  }

  lemma FailureReportedOf(pre: seq<Event>, o: Outcomes, r: Resolution, c: Conv)
    requires o.failing != {}
    requires forall e :: e in pre ==> Ordinary(e)
    ensures FirstFailure(o) < |Steps|
    ensures var k, ev := FirstFailure(o), Completed(pre, o, r, c);
      var i := |ev| - |Teardown(0 < k)| - 2;
      && 0 <= i && ev[i] == Failed(StepFailed(Steps[k])) && ev[i + 1] == Percent(0)
      && forall j :: 0 <= j < i ==> Ordinary(ev[j])
  {
    var k := FirstFailure(o);
    AllStepsSucceed(o);
    var tail, down := ErrorReport(Steps[k]), Teardown(0 < k);
    var ev := pre + tail + down;
    assert Completed(pre, o, r, c) == ev;
    assert |ev| - |down| - 2 == |pre|;
    assert forall j :: 0 <= j < |pre| ==> ev[j] == pre[j] && pre[j] in pre;
    assert ev[|pre|] == tail[0] && ev[|pre| + 1] == tail[1];
  }

  lemma WaitsAndInputsOf(pre: seq<Event>, w: Worker, o: Outcomes, r: Resolution, c: Conv)
    requires WaitsBounded(pre) && TypedVerbatim(w, pre)
    ensures WaitsBounded(Completed(pre, o, r, c)) && TypedVerbatim(w, Completed(pre, o, r, c))
  {
    var k := FirstFailure(o);
    EndingFacts(o, r, c);
    TeardownFacts(0 < k);
    QuitOnly(w, Ending(o, r, c));
    QuitOnly(w, Teardown(0 < k));
    OrdinaryAppend(w, pre, Ending(o, r, c));
    OrdinaryAppend(w, pre + Ending(o, r, c), Teardown(0 < k));
  }

  // ---------------------------------------------------------------------
  // Properties of a run
  // ---------------------------------------------------------------------

  /**
   * The progress bar goes through the checkpoints of the steps that succeed;
   * it ends at 100 when every step and the conversion succeed, and at 0 otherwise.
   */
  lemma RunPercents(w: Worker, o: Outcomes, folder: Folder, env: Environment)
    requires Lists(env.listing, Downloaded(folder, env))
    ensures Passed(FirstFailure(o)) <= 6
    ensures var k := FirstFailure(o);
      Percents(Trace(w, o, folder, env)) ==
        Checkpoints[..1 + Passed(k)] + [if k == |Steps| && Conversion(folder, env).Success? then 100 else 0]
  {
    var pre, r, c := Prelude(Brtr, ScriptOf(Brtr, w), o), Resolved(folder, env), Conversion(folder, env);
    PreludePercents(Brtr, w, o);
    PercentsOf(pre, o, r, c);
    assert Trace(w, o, folder, env) == Completed(pre, o, r, c);
  }

  /** Hence a run whose steps and conversion succeed reports every checkpoint, in order. */
  lemma SuccessPercents(w: Worker, o: Outcomes, folder: Folder, env: Environment)
    requires Lists(env.listing, Downloaded(folder, env))
    requires o.failing == {} && Conversion(folder, env).Success?
    ensures Percents(Trace(w, o, folder, env)) == Checkpoints
  {
    var pre, r, c := Prelude(Brtr, ScriptOf(Brtr, w), o), Resolved(folder, env), Conversion(folder, env);
    PreludePercents(Brtr, w, o);
    SuccessPercentsOf(pre, o, r, c);
    assert Trace(w, o, folder, env) == Completed(pre, o, r, c);
  }

  /** The steps attempted are all of them when none raises, and otherwise those up to and including the first that raises. */
  lemma RunAttempts(w: Worker, o: Outcomes, folder: Folder, env: Environment)
    requires Lists(env.listing, Downloaded(folder, env))
    ensures var k := FirstFailure(o);
      Attempted(Trace(w, o, folder, env)) == Steps[..if k < |Steps| then k + 1 else k]
  {
    var pre, r, c := Prelude(Brtr, ScriptOf(Brtr, w), o), Resolved(folder, env), Conversion(folder, env);
    PreludeAttempts(Brtr, w, o);
    AttemptsOf(pre, o, r, c);
    assert Trace(w, o, folder, env) == Completed(pre, o, r, c);
  }

  /** The run finishes exactly when every step and the conversion succeed, and signals one error otherwise. */
  lemma FinishesIffConverted(w: Worker, o: Outcomes, folder: Folder, env: Environment)
    requires Lists(env.listing, Downloaded(folder, env))
    ensures var ok := o.failing == {} && Conversion(folder, env).Success?;
      && Count(Trace(w, o, folder, env), IsFinished) == (if ok then 1 else 0)
      && Count(Trace(w, o, folder, env), IsFailed) == (if ok then 0 else 1)
  {
    var pre, r, c := Prelude(Brtr, ScriptOf(Brtr, w), o), Resolved(folder, env), Conversion(folder, env);
    PreludeCounts(Brtr, w, o);
    SignalsOf(pre, o, r, c);
    assert Trace(w, o, folder, env) == Completed(pre, o, r, c);
  }

  /**
   * A failed conversion after successful steps is logged, and then the error
   * signal blames the handler itself, depending on whether `latest` was
   * assigned; the reset to 0 and the browser's closing follow.
   */
  lemma ConversionErrorReported(w: Worker, o: Outcomes, folder: Folder, env: Environment)
    requires Lists(env.listing, Downloaded(folder, env))
    requires o.failing == {} && Conversion(folder, env).Failure?
    ensures |Trace(w, o, folder, env)| >= 4
    ensures Trace(w, o, folder, env)[|Trace(w, o, folder, env)| - 4..] ==
      [Progress("JSON error: "), Failed(JsonHandlerRaised(Resolved(folder, env).latest.Some?)), Percent(0), Browser(Quit)]
  {
    var pre, r, c := Prelude(Brtr, ScriptOf(Brtr, w), o), Resolved(folder, env), Conversion(folder, env);
    ConversionErrorOf(pre, o, r, c);
    assert Trace(w, o, folder, env) == Completed(pre, o, r, c);
  }

  /**
   * When every step and the conversion succeed, the run ends with the
   * conversion's log line, 100, the finished signal and the browser's closing.
   */
  lemma SuccessEnding(w: Worker, o: Outcomes, folder: Folder, env: Environment)
    requires Lists(env.listing, Downloaded(folder, env))
    requires o.failing == {} && Conversion(folder, env).Success?
    ensures var ev := Trace(w, o, folder, env);
      && |ev| >= 4 && ev[|ev| - 4] == Progress("JSON conversion finished.")
      && ev[|ev| - 3] == Percent(100) && ev[|ev| - 2] == Finished(FinishedMessage) && ev[|ev| - 1] == Browser(Quit)
  {
    var pre, r, c := Prelude(Brtr, ScriptOf(Brtr, w), o), Resolved(folder, env), Conversion(folder, env);
    SuccessEndingOf(pre, o, r, c);
    assert Trace(w, o, folder, env) == Completed(pre, o, r, c);
  }

  /**
   * When a step raises, the error signal names the first failing step and is
   * followed by the reset to 0, then only the teardown; nothing before it ends
   * the run or closes the browser.
   */
  lemma FailureReported(w: Worker, o: Outcomes, folder: Folder, env: Environment)
    requires Lists(env.listing, Downloaded(folder, env))
    requires o.failing != {}
    ensures FirstFailure(o) < |Steps|
    ensures var k, ev := FirstFailure(o), Trace(w, o, folder, env);
      var i := |ev| - |Teardown(0 < k)| - 2;
      && 0 <= i && ev[i] == Failed(StepFailed(Steps[k])) && ev[i + 1] == Percent(0)
      && forall j :: 0 <= j < i ==> Ordinary(ev[j])
  {
    var pre, r, c := Prelude(Brtr, ScriptOf(Brtr, w), o), Resolved(folder, env), Conversion(folder, env);
    PreludeOrdinary(Brtr, w, o);
    FailureReportedOf(pre, o, r, c);
    assert Trace(w, o, folder, env) == Completed(pre, o, r, c);
  }

  /**
   * A rename error is logged right after the pause, and the run goes on to the
   * conversion, which reads whatever data.xls there is.
   */
  lemma RenameErrorLogged(w: Worker, o: Outcomes, folder: Folder, env: Environment)
    requires Lists(env.listing, Downloaded(folder, env))
    requires o.failing == {} && Resolved(folder, env).renameError
    ensures Trace(w, o, folder, env) ==
      Prelude(Brtr, ScriptOf(Brtr, w), o) + [Settle(SettleSeconds), Progress("Rename error: ")] +
      ConversionLog(Conversion(folder, env), Resolved(folder, env).latest.Some?) + [Browser(Quit)]
  {
    var pre, r, c := Prelude(Brtr, ScriptOf(Brtr, w), o), Resolved(folder, env), Conversion(folder, env);
    RenameLoggedOf(pre, o, r, c);
    assert Trace(w, o, folder, env) == Completed(pre, o, r, c);
  }

  /** The browser is closed once when the driver was created, and never otherwise. */
  lemma QuitIffDriverCreated(w: Worker, o: Outcomes, folder: Folder, env: Environment)
    requires Lists(env.listing, Downloaded(folder, env))
    ensures Count(Trace(w, o, folder, env), IsQuit) == if StartDriver in o.failing then 0 else 1
  {
    var pre, r, c := Prelude(Brtr, ScriptOf(Brtr, w), o), Resolved(folder, env), Conversion(folder, env);
    PreludeCounts(Brtr, w, o);
    QuitOf(pre, o, r, c);
    assert Trace(w, o, folder, env) == Completed(pre, o, r, c);
  }

  /** Every wait is bounded by WAIT_TIMEOUT, and every field receives the worker's input for it unchanged. */
  lemma WaitsAndInputs(w: Worker, o: Outcomes, folder: Folder, env: Environment)
    requires Lists(env.listing, Downloaded(folder, env))
    ensures WaitsBounded(Trace(w, o, folder, env))
    ensures TypedVerbatim(w, Trace(w, o, folder, env))
  {
    var pre, r, c := Prelude(Brtr, ScriptOf(Brtr, w), o), Resolved(folder, env), Conversion(folder, env);
    PreludeOrdinary(Brtr, w, o);
    WaitsAndInputsOf(pre, w, o, r, c);
    assert Trace(w, o, folder, env) == Completed(pre, o, r, c);
  }

  /**
   * When the steps succeed and the rename block completes on a non-empty
   * folder, the file converted is the newest one after the pause.
   */
  lemma NewestConverted(o: Outcomes, folder: Folder, env: Environment)
    requires Lists(env.listing, Downloaded(folder, env))
    requires o.failing == {} && Downloaded(folder, env) != map[] && env.fault == NoFault
    ensures var d := Downloaded(folder, env);
      && |env.listing| > 0
      && DataFile(FinalFolder(o, folder, env)) == Some(d[env.listing[Newest(env.listing, d)]].content)
      && Written(o, folder, env) == (var c := ConvertAndWrite(Some(d[env.listing[Newest(env.listing, d)]].content), env.output);
           if c.Success? then Some(c.value) else None)
  {
    AllStepsSucceed(o);
    var d := Downloaded(folder, env);
    RenamedToData(d, env.listing, env.fault);
    LatestIsNewest(d, env.listing, env.fault);
  }

  /**
   * With every old file removable and a single file downloaded, that file is
   * what ends up in data.xls and what the conversion reads.
   */
  lemma FreshDownloadConverted(o: Outcomes, folder: Folder, env: Environment, name: string, e: Entry)
    requires Lists(env.listing, Downloaded(folder, env))
    requires o.failing == {} && env.fault == NoFault
    requires forall n :: n in folder ==> n !in env.undeletable
    requires env.downloads == map[name := e]
    ensures FinalFolder(o, folder, env) == map[DataXls := e]
    ensures Written(o, folder, env) == (var c := ConvertAndWrite(Some(e.content), env.output); if c.Success? then Some(c.value) else None)
  {
    AllStepsSucceed(o);
    CleanupEmpties(folder, env.undeletable);
    assert Downloaded(folder, env) == map[name := e];
    SingleDownload(name, e, env.listing);
  }

  /** When a step raises, nothing is downloaded or renamed, and nothing is written. */
  lemma StepFailureKeepsCleaned(o: Outcomes, folder: Folder, env: Environment)
    requires Lists(env.listing, Downloaded(folder, env))
    requires o.failing != {}
    ensures FinalFolder(o, folder, env).Keys == folder.Keys * env.undeletable
    ensures Written(o, folder, env) == None
  {
    AllStepsSucceed(o);
  }

  /** With nothing in the folder after the pause, `latest` is never assigned and the conversion finds no data.xls. */
  lemma EmptyFolderUnbound(o: Outcomes, folder: Folder, env: Environment)
    requires Lists(env.listing, Downloaded(folder, env))
    requires o.failing == {} && Downloaded(folder, env) == map[]
    ensures !Resolved(folder, env).latest.Some? && Conversion(folder, env) == Failure(FileNotFound)
  {
    LatestBound(Downloaded(folder, env), env.listing, env.fault);
    UnrenamedUnchanged(Downloaded(folder, env), env.listing, env.fault);
    TransformErrors(None);
  }
}
