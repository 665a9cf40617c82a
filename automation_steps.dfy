/**
 * The browser steps shared by the two workers (`AutomationWorker.run` in
 * brws.py and in brtr.py): the fixed order of the steps, what each one asks of
 * the browser, and the signals it emits. The browser itself is abstract: an
 * `Outcomes` value says which steps raise. A step fails at its wait (or at the
 * start of Chrome, or at the page load); the actions after a successful wait
 * are taken to succeed.
 */
module AutomationSteps {
  import opened Wrappers

  const TargetUrl: string := "https://web.spaggiari.eu/home/app/default/login.php?custcode="
  /** The bound, in seconds, of every explicit wait. */
  const WaitTimeout: int := 10
  const PopupConfirmButtonSelector: string := "//button[text()='Conferma']"
  /** The download directory; the working directory it is joined to is not modelled. */
  const DownloadDir: string := "downloads"
  const ChromeArguments: seq<string> := ["--headless", "--ignore-ssl-errors", "--ignore-certificate-errors"]
  /** The pause after the confirmation click that lets the download finish. */
  const SettleSeconds: int := 5
  /** The progress percentages a successful run reports, in order. */
  const Checkpoints: seq<int> := [10, 20, 40, 55, 70, 85, 90, 100]

  /** The inputs a worker is created with. */
  datatype Worker = Worker(username: string, password: string, startDate: string, endDate: string)

  /** The fallible blocks of the worker's `try` body, named after what they do. */
  datatype Step =
    | StartDriver    // webdriver.Chrome(options=...)
    | OpenTarget     // driver.get(TARGET_URL)
    | FillLogin      // the "login" field
    | FillPassword   // the "password" field
    | ClickAccedi    // button.accedi
    | ClickAgenda    // the "Agenda" link
    | ClickExport    // the "Esportazione Excel" image
    | FillDal        // the "dal" date field
    | FillAl         // the "al" date field
    | ClickConferma  // the "Conferma" button

  /** The order in which the steps run. */
  const Steps: seq<Step> :=
    [StartDriver, OpenTarget, FillLogin, FillPassword, ClickAccedi,
     ClickAgenda, ClickExport, FillDal, FillAl, ClickConferma]

  function Index(s: Step): (i: nat)
    ensures i < |Steps| && Steps[i] == s
  {
    match s
    case StartDriver => 0
    case OpenTarget => 1
    case FillLogin => 2
    case FillPassword => 3
    case ClickAccedi => 4
    case ClickAgenda => 5
    case ClickExport => 6
    case FillDal => 7
    case FillAl => 8
    case ClickConferma => 9
  }

  datatype Locator = ById(id: string) | ByCss(selector: string) | ByLinkText(linkText: string) | ByXPath(path: string)

  /** The expected condition a wait polls for. */
  datatype Condition = Present | Visible | Clickable

  /** An operation on the browser session, as the trace records it. */
  datatype BrowserOp =
    | Launch(arguments: seq<string>, downloadDir: string)
    | Get(url: string)
    | Await(locator: Locator, condition: Condition, timeout: int)
    | SendKeys(locator: Locator, text: string)
    | Clear(locator: Locator)
    | Click(locator: Locator)
    | Quit

  /** What the error signal reports: the step that raised, or the JSON error handler that raised itself. */
  datatype Cause = StepFailed(step: Step) | JsonHandlerRaised(latestBound: bool)

  /** One observable effect of a run: a signal of the worker or an operation on the browser. */
  datatype Event =
    | Progress(text: string)   // signals.progress: a line of the execution log
    | Percent(value: int)      // signals.step_progress
    | Settle(seconds: int)     // time.sleep
    | Finished(text: string)   // signals.finished
    | Failed(cause: Cause)     // signals.error
    | Browser(op: BrowserOp)

  /** The two copies of the worker differ only in their log lines. */
  datatype Variant = Brws | Brtr

  /** The browser's behaviour in one run: the steps that raise when reached. */
  datatype Outcomes = Outcomes(failing: set<Step>)

  /** The steps that wait for an element: all but the start of Chrome and the page load. */
  predicate Waits(s: Step)
  {
    s != StartDriver && s != OpenTarget
  }

  /** The element a waiting step looks for, and the condition it waits for. */
  function Target(s: Step): (Locator, Condition)
    requires Waits(s)
  {
    match s
    case FillLogin => (ById("login"), Present)
    case FillPassword => (ById("password"), Present)
    case ClickAccedi => (ByCss("button.accedi"), Clickable)
    case ClickAgenda => (ByLinkText("Agenda"), Clickable)
    case ClickExport => (ByXPath("//img[@alt='Esportazione Excel']"), Clickable)
    case FillDal => (ById("dal"), Visible)
    case FillAl => (ById("al"), Visible)
    case ClickConferma => (ByXPath(PopupConfirmButtonSelector), Clickable)
  }

  /** The fallible operation of a step. */
  function Attempt(s: Step): BrowserOp
  {
    match s
    case StartDriver => Launch(ChromeArguments, DownloadDir)
    case OpenTarget => Get(TargetUrl)
    case _ => Await(Target(s).0, Target(s).1, WaitTimeout)
  }

  /** The step whose fallible operation `op` is, if any. */
  function StepOf(op: BrowserOp): Option<Step>
  {
    match op
    case Launch(_, _) => if op == Attempt(StartDriver) then Some(StartDriver) else None
    case Get(_) => if op == Attempt(OpenTarget) then Some(OpenTarget) else None
    case Await(_, _, _) =>
      if op == Attempt(FillLogin) then Some(FillLogin)
      else if op == Attempt(FillPassword) then Some(FillPassword)
      else if op == Attempt(ClickAccedi) then Some(ClickAccedi)
      else if op == Attempt(ClickAgenda) then Some(ClickAgenda)
      else if op == Attempt(ClickExport) then Some(ClickExport)
      else if op == Attempt(FillDal) then Some(FillDal)
      else if op == Attempt(FillAl) then Some(FillAl)
      else if op == Attempt(ClickConferma) then Some(ClickConferma)
      else None
    case _ => None
  }

  /** The progress percentage a step reports once it has completed, if it reports one. */
  function Checkpoint(s: Step): Option<int>
  {
    match s
    case OpenTarget => Some(20)
    case ClickAccedi => Some(40)
    case ClickAgenda => Some(55)
    case ClickExport => Some(70)
    case FillAl => Some(85)
    case ClickConferma => Some(90)
    case _ => None
  }

  /** The text a field receives, keyed by the field's locator. */
  function FieldText(w: Worker, field: Locator): Option<string>
  {
    if field == ById("login") then Some(w.username)
    else if field == ById("password") then Some(w.password)
    else if field == ById("dal") then Some(w.startDate)
    else if field == ById("al") then Some(w.endDate)
    else None
  }

  // ---------------------------------------------------------------------
  // The events of each step
  // ---------------------------------------------------------------------

  /** The signals of the `try` body before the Chrome driver is created. */
  function Opening(v: Variant): seq<Event>
  {
    Log(["Starting Selenium web driver..."]) + [Percent(10)] + Log(Note(v, "Downloads will be saved to: " + DownloadDir))
  }

  /** The `except` clause, the same in both workers: the error signal naming the step that raised, then the progress bar reset. */
  function ErrorReport(s: Step): seq<Event>
  {
    [Failed(StepFailed(s)), Percent(0)]
  }

  /** The `except` clause reports 0 and the error once, and nothing else countable. */
  lemma ErrorReportFacts(s: Step)
    ensures Percents(ErrorReport(s)) == [0] && Attempted(ErrorReport(s)) == []
    ensures Count(ErrorReport(s), IsFailed) == 1 && Count(ErrorReport(s), IsFinished) == 0 && Count(ErrorReport(s), IsQuit) == 0
    ensures forall e :: e in ErrorReport(s) ==> !e.Browser?
  {
    var r := ErrorReport(s);
    assert r == [r[0]] + [r[1]];
    PercentsAppend([r[0]], [r[1]]);
    AttemptFree(r);
    CountAppend([r[0]], [r[1]], IsFailed);
    CountAbsent(r, IsFinished);
    CountAbsent(r, IsQuit);
  }

  /** Log lines as progress signals. */
  function Log(lines: seq<string>): (ev: seq<Event>)
    ensures |ev| == |lines| && forall i :: 0 <= i < |ev| ==> ev[i] == Progress(lines[i])
  {
    seq(|lines|, i requires 0 <= i < |lines| => Progress(lines[i]))
  }

  /** Browser operations as trace events. */
  function Ops(ops: seq<BrowserOp>): (ev: seq<Event>)
    ensures |ev| == |ops| && forall i :: 0 <= i < |ev| ==> ev[i] == Browser(ops[i])
  {
    seq(|ops|, i requires 0 <= i < |ops| => Browser(ops[i]))
  }

  /** The log lines only the brws.py copy emits. */
  function Note(v: Variant, line: string): seq<string>
  {
    if v == Brws then [line] else []
  }

  /** The log lines of a step before its fallible operation. */
  function Before(v: Variant, s: Step): seq<string>
  {
    match s
    case OpenTarget => Note(v, "Opening URL: " + TargetUrl)
    case FillLogin => [if v == Brws then "1. Performing login sequence..." else "1. Performing login..."]
    case ClickAgenda => ["2. Navigating to Agenda..."]
    case ClickExport => [if v == Brws then "3. Configuring Excel Export..." else "3. Configuring Export..."]
    case ClickConferma => Note(v, "   -> Clicking final confirmation button...")
    case _ => []
  }

  /** What a step does with the element it waited for. */
  function Actions(w: Worker, s: Step): seq<BrowserOp>
  {
    match s
    case StartDriver => []
    case OpenTarget => []
    case FillLogin => [SendKeys(Target(s).0, w.username)]
    case FillPassword => [SendKeys(Target(s).0, w.password)]
    case ClickAccedi => [Click(Target(s).0)]
    case ClickAgenda => [Click(Target(s).0)]
    case ClickExport => [Click(Target(s).0)]
    case FillDal => [Clear(Target(s).0), SendKeys(Target(s).0, w.startDate)]
    case FillAl => [Clear(Target(s).0), SendKeys(Target(s).0, w.endDate)]
    case ClickConferma => [Click(Target(s).0)]
  }

  /** The log lines of a step after its actions. */
  function Logged(v: Variant, w: Worker, s: Step): seq<string>
  {
    match s
    case FillLogin => Note(v, "   -> Username/Codice Personale entered.")
    case FillPassword => Note(v, "   -> Password entered.")
    case ClickAccedi => Note(v, "   -> Clicked Login. Waiting for dashboard...")
    case ClickAgenda => Note(v, "   -> Clicked Agenda link.")
    case ClickExport => Note(v, "   -> Export button clicked. Waiting for modal...")
    case FillDal => Note(v, "   -> Set start date ('dal') to: " + w.startDate)
    case FillAl => Note(v, "   -> Set end date ('al') to: " + w.endDate)
    case ClickConferma => [if v == Brws then "4. Download Triggered." else "4. Download triggered."]
    case _ => []
  }

  /** The step_progress signal that closes a step, if it has one. */
  function Mark(s: Step): seq<Event>
  {
    if Checkpoint(s).Some? then [Percent(Checkpoint(s).value)] else []
  }

  /** What a step does and emits after its fallible operation succeeded. */
  function After(v: Variant, w: Worker, s: Step): seq<Event>
  {
    Ops(Actions(w, s)) + Log(Logged(v, w, s)) + Mark(s)
  }

  /** The events of a step that is reached: up to its fallible operation, and the rest when that succeeds. */
  function StepTrace(v: Variant, w: Worker, s: Step, ok: bool): seq<Event>
  {
    Log(Before(v, s)) + [Browser(Attempt(s))] + (if ok then After(v, w, s) else [])
  }
  // ---------------------------------------------------------------------
  // The first failure and the events of the steps
  // ---------------------------------------------------------------------

  /** The index of the first failing step at or after `i`, or `|Steps|` when none fails. */
  function FailureFrom(o: Outcomes, i: nat): (k: nat)
    requires i <= |Steps|
    ensures i <= k <= |Steps|
    ensures forall j :: i <= j < k ==> Steps[j] !in o.failing
    ensures k < |Steps| ==> Steps[k] in o.failing
    decreases |Steps| - i
  {
    if i == |Steps| || Steps[i] in o.failing then i else FailureFrom(o, i + 1)
  }

  /** The index of the step whose exception ends the `try` body, or `|Steps|` when every step succeeds. */
  function FirstFailure(o: Outcomes): (k: nat)
    ensures k <= |Steps|
    ensures forall j :: 0 <= j < k ==> Steps[j] !in o.failing
    ensures k < |Steps| ==> Steps[k] in o.failing
  {
    FailureFrom(o, 0)
  }

  /** Every step runs to completion exactly when no step fails. */
  lemma AllStepsSucceed(o: Outcomes)
    ensures FirstFailure(o) == |Steps| <==> o.failing == {}
  {
    if o.failing != {} {
      var s :| s in o.failing;
      assert FirstFailure(o) <= Index(s) < |Steps|;
    }
  }

  /** What each step emits when it is reached, by whether it succeeds: a worker's script. */
  type Script = (Step, bool) -> seq<Event>

  /** The script of a copy of the worker. */
  function ScriptOf(v: Variant, w: Worker): Script
  {
    (s: Step, ok: bool) => StepTrace(v, w, s, ok)
  }

  /** The events of the first `n` steps, all of them successful. */
  function Done(t: Script, n: nat): seq<Event>
    requires n <= |Steps|
  {
    if n == 0 then [] else Done(t, n - 1) + t(Steps[n - 1], true)
  }

  /** The events of the step that raised, or none. */
  function Failing(t: Script, k: nat): seq<Event>
  {
    if k < |Steps| then t(Steps[k], false) else []
  }

  /** The events of the steps that run: the successful ones and the one that raised, if any. */
  function Body(t: Script, o: Outcomes): seq<Event>
  {
    Done(t, FirstFailure(o)) + Failing(t, FirstFailure(o))
  }

  /**
   * The state of the `try` body just before the statement block of step `j`:
   * no exception yet and the first `j` steps done, or the exception of the
   * first failing step in flight with the body's events all emitted.
   */
  predicate Reached(t: Script, o: Outcomes, opening: seq<Event>, j: nat,
                    events: seq<Event>, failed: Option<Step>)
  {
    var k := FirstFailure(o);
    if j <= k then failed == None && events == opening + Done(t, j)
    else k < |Steps| && failed == Some(Steps[k]) && events == opening + Body(t, o)
  }

  /**
   * One statement block of the `try` body: skipped while an exception is in
   * flight; otherwise the step runs, and its failure raises.
   */
  method Perform(t: Script, o: Outcomes, s: Step, opening: seq<Event>,
                 events: seq<Event>, failed: Option<Step>)
    returns (events': seq<Event>, failed': Option<Step>)
    requires Reached(t, o, opening, Index(s), events, failed)
    ensures Reached(t, o, opening, Index(s) + 1, events', failed')
    ensures failed' == None <==> Index(s) < FirstFailure(o)
  {
    ghost var j, k := Index(s), FirstFailure(o);
    if failed.Some? {
      return events, failed;
    }
    if s in o.failing {
      assert j == k;
      events', failed' := events + t(s, false), Some(s);
    } else {
      assert j < k;
      events', failed' := events + t(s, true), None;
      assert Done(t, j + 1) == Done(t, j) + t(Steps[j], true);
    }
  }

  /** The outcome of the `try` body's statement blocks: the events so far, the step that raised, if any, and whether the driver exists. */
  predicate Ran(t: Script, o: Outcomes, opening: seq<Event>, events: seq<Event>, failed: Option<Step>, driverCreated: bool)
  {
    var k := FirstFailure(o);
    && events == opening + Body(t, o)
    && (failed == None <==> k == |Steps|)
    && (failed.Some? ==> k < |Steps| && failed.value == Steps[k])
    && (driverCreated <==> 0 < k)
  }

  /** The login block of the `try` body: username, password, and the login button. */
  method Login(t: Script, o: Outcomes, opening: seq<Event>, events: seq<Event>, failed: Option<Step>)
    returns (events': seq<Event>, failed': Option<Step>)
    requires Reached(t, o, opening, Index(FillLogin), events, failed)
    ensures Reached(t, o, opening, Index(ClickAccedi) + 1, events', failed')
  {
    events', failed' := Perform(t, o, FillLogin, opening, events, failed);
    events', failed' := Perform(t, o, FillPassword, opening, events', failed');
    events', failed' := Perform(t, o, ClickAccedi, opening, events', failed');
  }

  /** The blocks of the `try` body from the agenda link to the confirmation button. */
  method Export(t: Script, o: Outcomes, opening: seq<Event>, events: seq<Event>, failed: Option<Step>)
    returns (events': seq<Event>, failed': Option<Step>)
    requires Reached(t, o, opening, Index(ClickAgenda), events, failed)
    ensures Reached(t, o, opening, Index(ClickConferma) + 1, events', failed')
  {
    events', failed' := Perform(t, o, ClickAgenda, opening, events, failed);
    events', failed' := Perform(t, o, ClickExport, opening, events', failed');
    events', failed' := Perform(t, o, FillDal, opening, events', failed');
    events', failed' := Perform(t, o, FillAl, opening, events', failed');
    events', failed' := Perform(t, o, ClickConferma, opening, events', failed');
  }

  /** The statement blocks of the `try` body, in order, after its `opening` signals. */
  method TryBody(t: Script, o: Outcomes, opening: seq<Event>)
    returns (events: seq<Event>, failed: Option<Step>, driverCreated: bool)
    ensures Ran(t, o, opening, events, failed, driverCreated)
  {
    events, failed := opening, None;
    assert events == opening + Done(t, 0);
    events, failed := Perform(t, o, StartDriver, opening, events, failed);
    driverCreated := failed.None?;
    events, failed := Perform(t, o, OpenTarget, opening, events, failed);
    events, failed := Login(t, o, opening, events, failed);
    events, failed := Export(t, o, opening, events, failed);
  }

  // ---------------------------------------------------------------------
  // Views of a trace
  // ---------------------------------------------------------------------

  /** The values of the step_progress signals, in order. */
  function Percents(ev: seq<Event>): seq<int>
  {
    if ev == [] then [] else (if ev[0].Percent? then [ev[0].value] else []) + Percents(ev[1..])
  }

  lemma {:induction false} PercentsAppend(a: seq<Event>, b: seq<Event>)
    ensures Percents(a + b) == Percents(a) + Percents(b)
  {
    if a != [] {
      assert (a + b)[1..] == a[1..] + b;
      PercentsAppend(a[1..], b);
    } else {
      assert a + b == b;
    }
  }

  /** The steps whose fallible operation was attempted, in order. */
  function Attempted(ev: seq<Event>): seq<Step>
  {
    if ev == [] then []
    else (if ev[0].Browser? && StepOf(ev[0].op).Some? then [StepOf(ev[0].op).value] else []) + Attempted(ev[1..])
  }

  lemma {:induction false} AttemptedAppend(a: seq<Event>, b: seq<Event>)
    ensures Attempted(a + b) == Attempted(a) + Attempted(b)
  {
    if a != [] {
      assert (a + b)[1..] == a[1..] + b;
      AttemptedAppend(a[1..], b);
    } else {
      assert a + b == b;
    }
  }

  /** The number of events satisfying `p`. */
  function Count(ev: seq<Event>, p: Event -> bool): nat
  {
    if ev == [] then 0 else (if p(ev[0]) then 1 else 0) + Count(ev[1..], p)
  }

  lemma {:induction false} CountAppend(a: seq<Event>, b: seq<Event>, p: Event -> bool)
    ensures Count(a + b, p) == Count(a, p) + Count(b, p)
  {
    if a != [] {
      assert (a + b)[1..] == a[1..] + b;
      CountAppend(a[1..], b, p);
    } else {
      assert a + b == b;
    }
  }

  lemma {:induction false} CountAbsent(ev: seq<Event>, p: Event -> bool)
    requires forall e :: e in ev ==> !p(e)
    ensures Count(ev, p) == 0
  {
    if ev != [] {
      assert ev[0] in ev;
      assert forall e :: e in ev[1..] ==> e in ev;
      CountAbsent(ev[1..], p);
    }
  }

  predicate IsFailed(e: Event) { e.Failed? }
  predicate IsFinished(e: Event) { e.Finished? }
  predicate IsQuit(e: Event) { e == Browser(Quit) }

  /** An event that neither ends a run nor closes the browser. */
  predicate Ordinary(e: Event)
  {
    !IsFailed(e) && !IsFinished(e) && !IsQuit(e)
  }

  /** Every wait of the trace is bounded by WAIT_TIMEOUT. */
  predicate WaitsBounded(ev: seq<Event>)
  {
    forall e :: e in ev && e.Browser? && e.op.Await? ==> e.op.timeout == WaitTimeout
  }

  /** Every text typed into a field is the worker's input for that field, unchanged. */
  predicate TypedVerbatim(w: Worker, ev: seq<Event>)
  {
    forall e :: e in ev && e.Browser? && e.op.SendKeys? ==> FieldText(w, e.op.locator) == Some(e.op.text)
  }

  /** Bounded waits and verbatim typing hold of two traces together when they hold of each. */
  lemma OrdinaryAppend(w: Worker, a: seq<Event>, b: seq<Event>)
    requires WaitsBounded(a) && TypedVerbatim(w, a)
    requires WaitsBounded(b) && TypedVerbatim(w, b)
    ensures WaitsBounded(a + b) && TypedVerbatim(w, a + b)
  {
    assert forall e :: e in a + b ==> e in a || e in b;
  }

  /** A trace that touches the browser only to quit it waits for nothing and types nothing. */
  lemma QuitOnly(w: Worker, ev: seq<Event>)
    requires forall e :: e in ev ==> e == Browser(Quit) || !e.Browser?
    ensures WaitsBounded(ev) && TypedVerbatim(w, ev)
  {
  }

  // ---------------------------------------------------------------------
  // Facts about the steps
  // ---------------------------------------------------------------------

  lemma StepOfAttempt(s: Step)
    ensures StepOf(Attempt(s)) == Some(s)
  {
  }

  /** A trace segment without step_progress signals contributes no percentage. */
  lemma {:induction false} PercentsFree(ev: seq<Event>)
    requires forall e :: e in ev ==> !e.Percent?
    ensures Percents(ev) == []
  {
    if ev != [] {
      assert ev[0] in ev;
      assert forall e :: e in ev[1..] ==> e in ev;
      PercentsFree(ev[1..]);
    }
  }

  /** A trace segment without fallible operations contributes no attempted step. */
  lemma {:induction false} AttemptFree(ev: seq<Event>)
    requires forall e :: e in ev ==> !e.Browser? || StepOf(e.op).None?
    ensures Attempted(ev) == []
  {
    if ev != [] {
      assert ev[0] in ev;
      assert forall e :: e in ev[1..] ==> e in ev;
      AttemptFree(ev[1..]);
    }
  }

  /** A step acts on elements only by typing, clearing and clicking, and types the worker's input for the field. */
  lemma ActionsFacts(w: Worker, s: Step)
    ensures forall op :: op in Actions(w, s) ==> op.SendKeys? || op.Clear? || op.Click?
    ensures forall op :: op in Actions(w, s) && op.SendKeys? ==> FieldText(w, op.locator) == Some(op.text)
  {
  }

  /** Element actions, log lines and a checkpoint report only the checkpoint and attempt nothing fallible. */
  lemma TailCounts(ops: seq<BrowserOp>, lines: seq<string>, mark: seq<Event>)
    requires forall op :: op in ops ==> op.SendKeys? || op.Clear? || op.Click?
    requires forall e :: e in mark ==> e.Percent?
    ensures Percents(Ops(ops) + Log(lines) + mark) == Percents(mark)
    ensures Attempted(Ops(ops) + Log(lines) + mark) == []
  {
    var a, b := Ops(ops), Log(lines);
    assert forall e :: e in a ==> e.Browser? && e.op in ops;
    assert forall e :: e in b ==> e.Progress?;
    PercentsFree(a);
    PercentsFree(b);
    PercentsAppend(a, b);
    PercentsAppend(a + b, mark);
    AttemptFree(a + b + mark);
  }

  /** Element actions, log lines and a checkpoint neither wait nor end the run, and type only the worker's input. */
  lemma TailOrdinary(w: Worker, ops: seq<BrowserOp>, lines: seq<string>, mark: seq<Event>)
    requires forall op :: op in ops ==> op.SendKeys? || op.Clear? || op.Click?
    requires forall op :: op in ops && op.SendKeys? ==> FieldText(w, op.locator) == Some(op.text)
    requires forall e :: e in mark ==> e.Percent?
    ensures forall e :: e in Ops(ops) + Log(lines) + mark ==> Ordinary(e) && !(e.Browser? && e.op.Await?)
    ensures TypedVerbatim(w, Ops(ops) + Log(lines) + mark)
  {
    var a, b := Ops(ops), Log(lines);
    assert forall e :: e in a ==> e.Browser? && e.op in ops;
    assert forall e :: e in b ==> e.Progress?;
    assert forall e :: e in a + b + mark ==> e in a || e in b || e in mark;
  }

  /** The step_progress signal of a step is its checkpoint. */
  lemma MarkFacts(s: Step)
    ensures forall e :: e in Mark(s) ==> e.Percent?
    ensures Percents(Mark(s)) == if Checkpoint(s).Some? then [Checkpoint(s).value] else []
  {
  }

  /** After its fallible operation, a step reports at most its own checkpoint. */
  lemma AfterPercents(v: Variant, w: Worker, s: Step)
    ensures Percents(After(v, w, s)) == if Checkpoint(s).Some? then [Checkpoint(s).value] else []
  {
    ActionsFacts(w, s);
    MarkFacts(s);
    TailCounts(Actions(w, s), Logged(v, w, s), Mark(s));
  }

  /** After its fallible operation, a step attempts nothing fallible. */
  lemma AfterAttempts(v: Variant, w: Worker, s: Step)
    ensures Attempted(After(v, w, s)) == []
  {
    ActionsFacts(w, s);
    MarkFacts(s);
    TailCounts(Actions(w, s), Logged(v, w, s), Mark(s));
  }

  /** After its fallible operation, a step neither waits nor ends the run. */
  lemma AfterOrdinary(v: Variant, w: Worker, s: Step)
    ensures forall e :: e in After(v, w, s) ==> Ordinary(e) && !(e.Browser? && e.op.Await?)
  {
    ActionsFacts(w, s);
    MarkFacts(s);
    TailOrdinary(w, Actions(w, s), Logged(v, w, s), Mark(s));
  }

  /** After its fallible operation, a step types only the worker's input for each field. */
  lemma AfterTyped(v: Variant, w: Worker, s: Step)
    ensures TypedVerbatim(w, After(v, w, s))
  {
    ActionsFacts(w, s);
    MarkFacts(s);
    TailOrdinary(w, Actions(w, s), Logged(v, w, s), Mark(s));
  }

  /** Log lines and one operation before `after` add no percentage. */
  lemma SegmentPercents(lines: seq<string>, op: BrowserOp, after: seq<Event>)
    ensures Percents(Log(lines) + [Browser(op)] + after) == Percents(after)
  {
    var before := Log(lines);
    assert forall e :: e in before ==> e.Progress?;
    PercentsFree(before + [Browser(op)]);
    PercentsAppend(before + [Browser(op)], after);
  }

  /** Log lines and the fallible operation of a step before `after` add that step's attempt. */
  lemma SegmentAttempts(lines: seq<string>, op: BrowserOp, after: seq<Event>)
    requires StepOf(op).Some?
    ensures Attempted(Log(lines) + [Browser(op)] + after) == [StepOf(op).value] + Attempted(after)
  {
    var before := Log(lines);
    assert forall e :: e in before ==> e.Progress?;
    AttemptFree(before);
    AttemptedAppend(before, [Browser(op)]);
    AttemptedAppend(before + [Browser(op)], after);
  }

  /** A step emits at most its own checkpoint, and only once it has succeeded. */
  lemma StepTracePercents(v: Variant, w: Worker, s: Step, ok: bool)
    ensures Percents(StepTrace(v, w, s, ok)) == if ok && Checkpoint(s).Some? then [Checkpoint(s).value] else []
  {
    AfterPercents(v, w, s);
    SegmentPercents(Before(v, s), Attempt(s), if ok then After(v, w, s) else []);
  }

  /** A step attempts its own fallible operation once. */
  lemma StepTraceAttempts(v: Variant, w: Worker, s: Step, ok: bool)
    ensures Attempted(StepTrace(v, w, s, ok)) == [s]
  {
    AfterAttempts(v, w, s);
    StepOfAttempt(s);
    SegmentAttempts(Before(v, s), Attempt(s), if ok then After(v, w, s) else []);
  }

  /** The fallible operation of a step is a launch, a page load or a bounded wait. */
  lemma AttemptKind(s: Step)
    ensures Attempt(s).Launch? || Attempt(s).Get? || (Attempt(s).Await? && Attempt(s).timeout == WaitTimeout)
  {
  }

  /** Log lines, a fallible operation that neither types nor quits, and ordinary events after it are ordinary together. */
  lemma SegmentOrdinary(w: Worker, lines: seq<string>, op: BrowserOp, after: seq<Event>)
    requires op.Launch? || op.Get? || (op.Await? && op.timeout == WaitTimeout)
    requires forall e :: e in after ==> Ordinary(e) && !(e.Browser? && e.op.Await?)
    requires TypedVerbatim(w, after)
    ensures forall e :: e in Log(lines) + [Browser(op)] + after ==> Ordinary(e)
    ensures WaitsBounded(Log(lines) + [Browser(op)] + after)
    ensures TypedVerbatim(w, Log(lines) + [Browser(op)] + after)
  {
    var before := Log(lines);
    assert forall e :: e in before ==> e.Progress?;
    assert forall e :: e in before + [Browser(op)] + after ==> e in before || e == Browser(op) || e in after;
  }

  /** A step ends nothing, and each of its waits is bounded and each text it types is the worker's input. */
  lemma StepTraceOrdinary(v: Variant, w: Worker, s: Step, ok: bool)
    ensures forall e :: e in StepTrace(v, w, s, ok) ==> Ordinary(e)
    ensures WaitsBounded(StepTrace(v, w, s, ok))
    ensures TypedVerbatim(w, StepTrace(v, w, s, ok))
  {
    AttemptKind(s);
    if ok {
      AfterOrdinary(v, w, s);
      AfterTyped(v, w, s);
      SegmentOrdinary(w, Before(v, s), Attempt(s), After(v, w, s));
    } else {
      SegmentOrdinary(w, Before(v, s), Attempt(s), []);
    }
  }

  // ---------------------------------------------------------------------
  // Facts about the steps that run
  // ---------------------------------------------------------------------

  /** The number of the first `n` steps that report a checkpoint. */
  function Passed(n: nat): nat
    requires n <= |Steps|
  {
    if n == 0 then 0 else Passed(n - 1) + (if Checkpoint(Steps[n - 1]).Some? then 1 else 0)
  }

  /** The steps report their checkpoints in the order of `Checkpoints`, after the opening 10. */
  lemma CheckpointOrder(n: nat)
    requires 0 < n <= |Steps|
    ensures Passed(n - 1) <= 6
    ensures Checkpoint(Steps[n - 1]).Some? ==> Passed(n - 1) < 6 && Checkpoints[1 + Passed(n - 1)] == Checkpoint(Steps[n - 1]).value
  {
    assert Passed(0) == 0;
    assert Passed(1) == 0;
    assert Passed(2) == 1;
    assert Passed(3) == 1;
    assert Passed(4) == 1;
    assert Passed(5) == 2;
    assert Passed(6) == 3;
    assert Passed(7) == 4;
    assert Passed(8) == 4;
    assert Passed(9) == 5;
  }

  lemma PassedAll()
    ensures Passed(|Steps|) == 6
  {
    CheckpointOrder(|Steps|);
  }

  lemma PassedBound(n: nat)
    requires n <= |Steps|
    ensures Passed(n) <= 6
  {
    if n == |Steps| { PassedAll(); } else { CheckpointOrder(n + 1); }
  }

  /** The opening reports 10 and touches nothing in the browser. */
  lemma OpeningFacts(v: Variant)
    ensures Percents(Opening(v)) == [10]
    ensures Attempted(Opening(v)) == []
    ensures forall e :: e in Opening(v) ==> e.Progress? || e.Percent?
  {
    var a, b, c := Log(["Starting Selenium web driver..."]), [Percent(10)], Log(Note(v, "Downloads will be saved to: " + DownloadDir));
    assert forall e :: e in a ==> e.Progress?;
    assert forall e :: e in c ==> e.Progress?;
    PercentsFree(a);
    PercentsFree(c);
    PercentsAppend(a, b);
    PercentsAppend(a + b, c);
    AttemptFree(a + b + c);
  }

  /** Every step of script `t` emits at most its own checkpoint, and only once it has succeeded. */
  predicate ScriptPercents(t: Script)
  {
    forall s, ok :: Percents(t(s, ok)) == if ok && Checkpoint(s).Some? then [Checkpoint(s).value] else []
  }

  /** Every step of script `t` attempts its own fallible operation once. */
  predicate ScriptAttempts(t: Script)
  {
    forall s, ok :: Attempted(t(s, ok)) == [s]
  }

  /** No step of script `t` ends the run, and each waits boundedly and types the worker's input. */
  predicate ScriptOrdinary(t: Script, w: Worker)
  {
    forall s, ok :: (forall e :: e in t(s, ok) ==> Ordinary(e)) && WaitsBounded(t(s, ok)) && TypedVerbatim(w, t(s, ok))
  }

  lemma ScriptFacts(v: Variant, w: Worker)
    ensures ScriptPercents(ScriptOf(v, w))
    ensures ScriptAttempts(ScriptOf(v, w))
    ensures ScriptOrdinary(ScriptOf(v, w), w)
  {
    forall s, ok ensures Percents(ScriptOf(v, w)(s, ok)) == if ok && Checkpoint(s).Some? then [Checkpoint(s).value] else [] {
      StepTracePercents(v, w, s, ok);
    }
    forall s, ok ensures Attempted(ScriptOf(v, w)(s, ok)) == [s] {
      StepTraceAttempts(v, w, s, ok);
    }
    forall s, ok
      ensures (forall e :: e in ScriptOf(v, w)(s, ok) ==> Ordinary(e))
      ensures WaitsBounded(ScriptOf(v, w)(s, ok)) && TypedVerbatim(w, ScriptOf(v, w)(s, ok))
    {
      StepTraceOrdinary(v, w, s, ok);
    }
  }

  /** The checkpoints the first `n` steps report, in order. */
  function Marks(n: nat): seq<int>
    requires n <= |Steps|
  {
    if n == 0 then [] else Marks(n - 1) + if Checkpoint(Steps[n - 1]).Some? then [Checkpoint(Steps[n - 1]).value] else []
  }

  /** The successful steps so far report the marks so far. */
  lemma {:induction false} DoneMarks(t: Script, n: nat)
    requires ScriptPercents(t)
    requires n <= |Steps|
    ensures Percents(Done(t, n)) == Marks(n)
  {
    if n > 0 {
      DoneMarks(t, n - 1);
      PercentsAppend(Done(t, n - 1), t(Steps[n - 1], true));
    }
  }

  /** The marks of the first `n` steps are the checkpoints after the opening 10, one by one. */
  lemma {:induction false} MarksAt(n: nat)
    requires n <= |Steps|
    ensures Passed(n) <= 6 && |Marks(n)| == Passed(n)
    ensures forall i :: 0 <= i < Passed(n) ==> Marks(n)[i] == Checkpoints[i + 1]
  {
    PassedBound(n);
    if n > 0 {
      MarksAt(n - 1);
      CheckpointOrder(n);
    }
  }

  /** After the opening 10, the marks of the first `n` steps are a prefix of `Checkpoints`. */
  lemma MarksPrefix(n: nat)
    requires n <= |Steps|
    ensures Passed(n) <= 6
    ensures [10] + Marks(n) == Checkpoints[..1 + Passed(n)]
  {
    MarksAt(n);
    var reported, expected := [10] + Marks(n), Checkpoints[..1 + Passed(n)];
    assert |reported| == |expected|;
    forall i | 0 <= i < |reported|
      ensures reported[i] == expected[i]
    {
      if i > 0 {
        assert reported[i] == Marks(n)[i - 1];
      }
    }
  }

  /** The successful steps so far report the checkpoints so far, after the opening 10. */
  lemma DonePercents(t: Script, n: nat)
    requires ScriptPercents(t)
    requires n <= |Steps|
    ensures Passed(n) <= 6
    ensures [10] + Percents(Done(t, n)) == Checkpoints[..1 + Passed(n)]
  {
    DoneMarks(t, n);
    MarksPrefix(n);
  }

  lemma PrefixSnoc(xs: seq<Step>, n: nat)
    requires 0 < n <= |xs|
    ensures xs[..n] == xs[..n - 1] + [xs[n - 1]]
  {
  }

  /** The successful steps so far attempt exactly the steps so far, in order. */
  lemma {:induction false} DoneAttempts(t: Script, n: nat)
    requires ScriptAttempts(t)
    requires n <= |Steps|
    ensures Attempted(Done(t, n)) == Steps[..n]
  {
    if n > 0 {
      DoneAttempts(t, n - 1);
      AttemptedAppend(Done(t, n - 1), t(Steps[n - 1], true));
      PrefixSnoc(Steps, n);
    }
  }

  /** The successful steps so far end nothing, wait boundedly and type verbatim. */
  lemma {:induction false} DoneOrdinary(t: Script, w: Worker, n: nat)
    requires ScriptOrdinary(t, w)
    requires n <= |Steps|
    ensures forall e :: e in Done(t, n) ==> Ordinary(e)
    ensures WaitsBounded(Done(t, n)) && TypedVerbatim(w, Done(t, n))
  {
    if n > 0 {
      DoneOrdinary(t, w, n - 1);
      assert forall e :: e in Done(t, n) ==> e in Done(t, n - 1) || e in t(Steps[n - 1], true);
    }
  }

  /** `a` is immediately followed by `b` somewhere in `ev`. */
  predicate Adjacent(ev: seq<Event>, a: Event, b: Event)
  {
    exists i :: 0 <= i < |ev| - 1 && ev[i] == a && ev[i + 1] == b
  }

  lemma AdjacentWithin(p: seq<Event>, ev: seq<Event>, q: seq<Event>, a: Event, b: Event)
    requires Adjacent(ev, a, b)
    ensures Adjacent(p + ev + q, a, b)
  {
    var i :| 0 <= i < |ev| - 1 && ev[i] == a && ev[i + 1] == b;
    assert (p + ev + q)[|p| + i] == a && (p + ev + q)[|p| + i + 1] == b;
  }

  /** The clearing of a date field. */
  function Cleared(s: Step): Event
    requires s == FillDal || s == FillAl
  {
    Browser(Clear(Target(s).0))
  }

  /** The typing of the worker's date into a date field. */
  function Typed(w: Worker, s: Step): Event
    requires s == FillDal || s == FillAl
  {
    Browser(SendKeys(Target(s).0, if s == FillDal then w.startDate else w.endDate))
  }

  /** A successful date step clears its field and then types the worker's date into it. */
  lemma StepFillsField(v: Variant, w: Worker, s: Step)
    requires s == FillDal || s == FillAl
    ensures Adjacent(ScriptOf(v, w)(s, true), Cleared(s), Typed(w, s))
  {
    var ops := Ops(Actions(w, s));
    assert ops[0] == Cleared(s) && ops[1] == Typed(w, s);
    AdjacentWithin(Log(Before(v, s)) + [Browser(Attempt(s))], ops, Log(Logged(v, w, s)) + Mark(s), Cleared(s), Typed(w, s));
    assert StepTrace(v, w, s, true) == Log(Before(v, s)) + [Browser(Attempt(s))] + ops + (Log(Logged(v, w, s)) + Mark(s));
  }

  /** Once a date step has succeeded, its field was cleared and then given the worker's date. */
  lemma {:induction false} DoneFillsField(t: Script, w: Worker, s: Step, n: nat)
    requires s == FillDal || s == FillAl
    requires Adjacent(t(s, true), Cleared(s), Typed(w, s))
    requires Index(s) < n <= |Steps|
    ensures Adjacent(Done(t, n), Cleared(s), Typed(w, s))
  {
    if n == Index(s) + 1 {
      AdjacentWithin(Done(t, n - 1), t(s, true), [], Cleared(s), Typed(w, s));
      assert Done(t, n) == Done(t, n - 1) + t(s, true) + [];
    } else {
      DoneFillsField(t, w, s, n - 1);
      AdjacentWithin([], Done(t, n - 1), t(Steps[n - 1], true), Cleared(s), Typed(w, s));
      assert Done(t, n) == [] + Done(t, n - 1) + t(Steps[n - 1], true);
    }
  }

  /** When a date step is reached and succeeds, its field is cleared and then given the worker's date. */
  lemma BodyFillsField(t: Script, w: Worker, o: Outcomes, opening: seq<Event>, s: Step)
    requires s == FillDal || s == FillAl
    requires Adjacent(t(s, true), Cleared(s), Typed(w, s))
    requires Index(s) < FirstFailure(o)
    ensures Adjacent(opening + Body(t, o), Cleared(s), Typed(w, s))
  {
    var k := FirstFailure(o);
    var last := Failing(t, k);
    BodySplit(t, o, opening);
    DoneFillsField(t, w, s, k);
    AdjacentWithin(opening, Done(t, k), last, Cleared(s), Typed(w, s));
  }

  lemma PrefixPercents(t: Script, k: nat, opening: seq<Event>, last: seq<Event>)
    requires ScriptPercents(t)
    requires k <= |Steps|
    requires Percents(opening) == [10] && Percents(last) == []
    ensures Passed(k) <= 6
    ensures Percents(opening + Done(t, k) + last) == Checkpoints[..1 + Passed(k)]
  {
    DonePercents(t, k);
    PercentsAppend(opening, Done(t, k));
    PercentsAppend(opening + Done(t, k), last);
  }

  /** The opening and the steps that run report the checkpoints of the steps before the first failing one. */
  lemma BodyPercents(t: Script, o: Outcomes, opening: seq<Event>)
    requires ScriptPercents(t)
    requires Percents(opening) == [10]
    ensures Passed(FirstFailure(o)) <= 6
    ensures Percents(opening + Body(t, o)) == Checkpoints[..1 + Passed(FirstFailure(o))]
  {
    var k := FirstFailure(o);
    BodySplit(t, o, opening);
    FailedStepPercents(t, k);
    PrefixPercents(t, k, opening, Failing(t, k));
  }

  lemma BodySplit(t: Script, o: Outcomes, opening: seq<Event>)
    ensures opening + Body(t, o) == opening + Done(t, FirstFailure(o)) + Failing(t, FirstFailure(o))
  {
  }

  lemma FailedStepPercents(t: Script, k: nat)
    requires ScriptPercents(t)
    ensures Percents(Failing(t, k)) == []
  {
  }

  /** The steps that run are the steps up to and including the first failing one. */
  lemma BodyAttempts(t: Script, o: Outcomes, opening: seq<Event>)
    requires ScriptAttempts(t)
    requires Attempted(opening) == []
    ensures var k := FirstFailure(o);
      Attempted(opening + Body(t, o)) == Steps[..if k < |Steps| then k + 1 else k]
  {
    var k := FirstFailure(o);
    var done, last := Done(t, k), Failing(t, k);
    BodySplit(t, o, opening);
    DoneAttempts(t, k);
    if k < |Steps| {
      PrefixSnoc(Steps, k + 1);
    }
    AttemptedAppend(opening, done);
    AttemptedAppend(opening + done, last);
  }

  /** The opening and the steps that run end nothing, wait boundedly and type verbatim. */
  lemma BodyOrdinary(t: Script, w: Worker, o: Outcomes, opening: seq<Event>)
    requires ScriptOrdinary(t, w)
    requires forall e :: e in opening ==> e.Progress? || e.Percent?
    ensures forall e :: e in opening + Body(t, o) ==> Ordinary(e)
    ensures WaitsBounded(opening + Body(t, o)) && TypedVerbatim(w, opening + Body(t, o))
  {
    var k := FirstFailure(o);
    var done, last := Done(t, k), Failing(t, k);
    BodySplit(t, o, opening);
    DoneOrdinary(t, w, k);
    assert forall e :: e in opening + done + last ==> e in opening || e in done || e in last;
  }

  // ---------------------------------------------------------------------
  // The opening and the steps of a run of either copy
  // ---------------------------------------------------------------------

  /** The events of a run up to the end of the steps that ran. */
  function Prelude(v: Variant, t: Script, o: Outcomes): seq<Event>
  {
    Opening(v) + Body(t, o)
  }

  /** Up to the first failing step, the run reports 10 and then the checkpoints of the steps before it. */
  lemma PreludePercents(v: Variant, w: Worker, o: Outcomes)
    ensures Passed(FirstFailure(o)) <= 6
    ensures Percents(Prelude(v, ScriptOf(v, w), o)) == Checkpoints[..1 + Passed(FirstFailure(o))]
  {
    ScriptFacts(v, w);
    OpeningFacts(v);
    BodyPercents(ScriptOf(v, w), o, Opening(v));
  }

  /** Up to the first failing step, the run attempts the steps up to and including it. */
  lemma PreludeAttempts(v: Variant, w: Worker, o: Outcomes)
    ensures var k := FirstFailure(o);
      Attempted(Prelude(v, ScriptOf(v, w), o)) == Steps[..if k < |Steps| then k + 1 else k]
  {
    ScriptFacts(v, w);
    OpeningFacts(v);
    BodyAttempts(ScriptOf(v, w), o, Opening(v));
  }

  /** Up to the first failing step, nothing ends the run or closes the browser, every wait is bounded and every text typed is the worker's. */
  lemma PreludeOrdinary(v: Variant, w: Worker, o: Outcomes)
    ensures forall e :: e in Prelude(v, ScriptOf(v, w), o) ==> Ordinary(e)
    ensures WaitsBounded(Prelude(v, ScriptOf(v, w), o)) && TypedVerbatim(w, Prelude(v, ScriptOf(v, w), o))
  {
    ScriptFacts(v, w);
    OpeningFacts(v);
    BodyOrdinary(ScriptOf(v, w), w, o, Opening(v));
  }

  /** Hence the prelude holds no terminal signal and no quit. */
  lemma PreludeCounts(v: Variant, w: Worker, o: Outcomes)
    ensures Count(Prelude(v, ScriptOf(v, w), o), IsFinished) == 0
    ensures Count(Prelude(v, ScriptOf(v, w), o), IsFailed) == 0
    ensures Count(Prelude(v, ScriptOf(v, w), o), IsQuit) == 0
  {
    PreludeOrdinary(v, w, o);
    CountAbsent(Prelude(v, ScriptOf(v, w), o), IsFinished);
    CountAbsent(Prelude(v, ScriptOf(v, w), o), IsFailed);
    CountAbsent(Prelude(v, ScriptOf(v, w), o), IsQuit);
  }

  /** When a date step is reached and succeeds, its field is cleared and then given the worker's date. */
  lemma PreludeDates(v: Variant, w: Worker, o: Outcomes, s: Step)
    requires s == FillDal || s == FillAl
    requires Index(s) < FirstFailure(o)
    ensures Adjacent(Prelude(v, ScriptOf(v, w), o), Cleared(s), Typed(w, s))
  {
    StepFillsField(v, w, s);
    BodyFillsField(ScriptOf(v, w), w, o, Opening(v), s);
  }

  /** The views of a trace distribute over its three parts. */
  lemma PercentsConcat(pre: seq<Event>, tail: seq<Event>, down: seq<Event>)
    ensures Percents(pre + tail + down) == Percents(pre) + Percents(tail) + Percents(down)
  {
    PercentsAppend(pre, tail);
    PercentsAppend(pre + tail, down);
  }

  lemma AttemptedConcat(pre: seq<Event>, tail: seq<Event>, down: seq<Event>)
    ensures Attempted(pre + tail + down) == Attempted(pre) + Attempted(tail) + Attempted(down)
  {
    AttemptedAppend(pre, tail);
    AttemptedAppend(pre + tail, down);
  }

  lemma CountConcat(pre: seq<Event>, tail: seq<Event>, down: seq<Event>, p: Event -> bool)
    ensures Count(pre + tail + down, p) == Count(pre, p) + Count(tail, p) + Count(down, p)
  {
    CountAppend(pre, tail, p);
    CountAppend(pre + tail, down, p);
  }
}
