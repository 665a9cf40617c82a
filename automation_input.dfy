/**
 * The input check of `AutomationApp.start_automation`, the same in brws.py
 * and brtr.py: the username and the dates are stripped of surrounding
 * whitespace, the password is taken as typed, and the worker starts only
 * when none of the four is empty.
 */
module AutomationInput {
  import opened AutomationSteps

  /** The characters Python's `str.isspace` accepts, which `str.strip()` removes. */
  const Whitespace: set<char> := {
    '\t', '\n', '\U{000B}', '\U{000C}', '\r', '\U{001C}', '\U{001D}', '\U{001E}', '\U{001F}', ' ',
    '\U{0085}', '\U{00A0}', '\U{1680}',
    '\U{2000}', '\U{2001}', '\U{2002}', '\U{2003}', '\U{2004}', '\U{2005}', '\U{2006}',
    '\U{2007}', '\U{2008}', '\U{2009}', '\U{200A}',
    '\U{2028}', '\U{2029}', '\U{202F}', '\U{205F}', '\U{3000}'
  }

  /** Every character of `s` is in `ws`. */
  predicate Blank(s: string, ws: set<char>)
  {
    forall i :: 0 <= i < |s| ==> s[i] in ws
  }

  /** `s` without its leading characters from `ws`: the longest suffix not starting with one. */
  function TrimLeft(s: string, ws: set<char>): (r: string)
    ensures |r| <= |s| && r == s[|s| - |r|..]
    ensures Blank(s[..|s| - |r|], ws)
    ensures r == [] || r[0] !in ws
  {
    if s != [] && s[0] in ws then
      var r := TrimLeft(s[1..], ws);
      assert s[1..][..|s| - 1 - |r|] == s[1..|s| - |r|];
      r
    else s
  }

  /** `s` without its trailing characters from `ws`: the longest prefix not ending in one. */
  function TrimRight(s: string, ws: set<char>): (r: string)
    ensures |r| <= |s| && r == s[..|r|]
    ensures Blank(s[|r|..], ws)
    ensures r == [] || r[|r| - 1] !in ws
  {
    if s != [] && s[|s| - 1] in ws then
      var t := s[..|s| - 1];
      var r := TrimRight(t, ws);
      assert s[|r|..] == t[|r|..] + [s[|s| - 1]];
      assert forall i :: |r| <= i < |s| ==> s[i] == s[|r|..][i - |r|];
      r
    else s
  }

  /** Python's `s.strip()` when `ws` is the set of whitespace characters. */
  function Strip(s: string, ws: set<char>): (r: string)
    ensures |r| <= |s|
    ensures r == [] || (r[0] !in ws && r[|r| - 1] !in ws)
  {
    TrimRight(TrimLeft(s, ws), ws)
  }

  /** What strip keeps is a contiguous part of the input, with characters of `ws` only around it. */
  lemma StripSlice(s: string, ws: set<char>)
    ensures exists i, j :: 0 <= i <= j <= |s| && Strip(s, ws) == s[i..j] && Blank(s[..i], ws) && Blank(s[j..], ws)
  {
    var l := TrimLeft(s, ws);
    var r := TrimRight(l, ws);
    var i := |s| - |l|;
    var j := i + |r|;
    assert l == s[i..] && Blank(s[..i], ws);
    assert r == l[..|r|] && Blank(l[|r|..], ws);
    assert r == s[i..j];
    assert s[j..] == l[|r|..];
    assert Strip(s, ws) == s[i..j] && Blank(s[..i], ws) && Blank(s[j..], ws);
  }

  /** What strip keeps starts and ends with a character outside `ws`. */
  lemma StripEnds(s: string, ws: set<char>)
    ensures var r := Strip(s, ws); r == [] || (r[0] !in ws && r[|r| - 1] !in ws)
  {
    var l := TrimLeft(s, ws);
    var r := TrimRight(l, ws);
    if r != [] {
      assert r == l[..|r|];
      assert r[0] == l[0];
    }
  }

  /** Trimming the left end leaves nothing exactly when the input is all of `ws`. */
  lemma {:induction false} TrimLeftBlank(s: string, ws: set<char>)
    ensures TrimLeft(s, ws) == [] <==> Blank(s, ws)
    decreases |s|
  {
    if s != [] && s[0] in ws {
      var rest := s[1..];
      TrimLeftBlank(rest, ws);
      assert TrimLeft(s, ws) == TrimLeft(rest, ws);
      assert forall i :: 0 <= i < |rest| ==> rest[i] == s[i + 1];
      assert Blank(s, ws) <==> Blank(rest, ws);
    } else if s != [] {
      assert TrimLeft(s, ws) == s && !Blank(s, ws);
    }
  }

  /** Trimming the right end leaves nothing exactly when the input is all of `ws`. */
  lemma {:induction false} TrimRightBlank(s: string, ws: set<char>)
    ensures TrimRight(s, ws) == [] <==> Blank(s, ws)
    decreases |s|
  {
    if s != [] && s[|s| - 1] in ws {
      TrimRightBlank(s[..|s| - 1], ws);
      assert forall i :: 0 <= i < |s| - 1 ==> s[..|s| - 1][i] == s[i];
    } else if s != [] {
      assert s[|s| - 1] !in ws;
    }
  }

  /** strip gives the empty string exactly when the input is all of `ws`. */
  lemma StripEmptyIff(s: string, ws: set<char>)
    ensures Strip(s, ws) == [] <==> Blank(s, ws)
  {
    var l := TrimLeft(s, ws);
    TrimLeftBlank(s, ws);
    TrimRightBlank(l, ws);
    assert l != [] ==> l[0] !in ws;
  }

  /** Stripping twice is stripping once. */
  lemma StripIdempotent(s: string, ws: set<char>)
    ensures Strip(Strip(s, ws), ws) == Strip(s, ws)
  {
    StripEnds(s, ws);
  }

  /** The outcome of pressing the start button. */
  datatype Launch = Started(worker: Worker) | MissingInput(warning: string)

  /** The warning of the message box, which the two copies word differently. */
  function MissingInputWarning(v: Variant): string
  {
    if v == Brws then "Please fill in all fields (Username, Password, and Dates)." else "Fill all fields."
  }

  /** `start_automation`: the check of the four fields, and the worker it starts. */
  function StartAutomation(v: Variant, username: string, password: string, startDate: string, endDate: string): (r: Launch)
    ensures r.MissingInput? ==> r.warning == MissingInputWarning(v)
  {
    var user, start, end := Strip(username, Whitespace), Strip(startDate, Whitespace), Strip(endDate, Whitespace);
    if user == [] || password == [] || start == [] || end == [] then MissingInput(MissingInputWarning(v))
    else Started(Worker(user, password, start, end))
  }

  /** The run is refused exactly when the username or a date is all whitespace, or the password is empty. */
  lemma RefusedIff(v: Variant, username: string, password: string, startDate: string, endDate: string)
    ensures StartAutomation(v, username, password, startDate, endDate).MissingInput? <==>
      Blank(username, Whitespace) || password == [] || Blank(startDate, Whitespace) || Blank(endDate, Whitespace)
  {
    StripEmptyIff(username, Whitespace);
    StripEmptyIff(startDate, Whitespace);
    StripEmptyIff(endDate, Whitespace);
  }

  /** A started worker gets the stripped username and dates and the password exactly as typed. */
  lemma StartedWorker(v: Variant, username: string, password: string, startDate: string, endDate: string)
    requires StartAutomation(v, username, password, startDate, endDate).Started?
    ensures var w := StartAutomation(v, username, password, startDate, endDate).worker;
      && w.password == password
      && w.username == Strip(username, Whitespace) && w.startDate == Strip(startDate, Whitespace)
      && w.endDate == Strip(endDate, Whitespace)
      && w.username != [] && w.startDate != [] && w.endDate != []
      && Strip(w.username, Whitespace) == w.username && Strip(w.startDate, Whitespace) == w.startDate
      && Strip(w.endDate, Whitespace) == w.endDate
  {
    StripIdempotent(username, Whitespace);
    StripIdempotent(startDate, Whitespace);
    StripIdempotent(endDate, Whitespace);
  }

  /** A password of whitespace only is accepted, and passed on unchanged. */
  lemma BlankPasswordAccepted(v: Variant, username: string, password: string, startDate: string, endDate: string)
    requires !Blank(username, Whitespace) && !Blank(startDate, Whitespace) && !Blank(endDate, Whitespace)
    requires password != [] && Blank(password, Whitespace)
    ensures StartAutomation(v, username, password, startDate, endDate).Started?
    ensures StartAutomation(v, username, password, startDate, endDate).worker.password == password
  {
    RefusedIff(v, username, password, startDate, endDate);
  }
}
