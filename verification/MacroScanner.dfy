/** The character-level macro scanner of cmCMakePresetsGraph.cxx, as a machine over modes, for
    macro tables that are plain functions. Environment.dfy runs the same machine with an
    expander that changes state while it is asked. */
module MacroScanner {
  import opened Sequences

  /** What one macro, or a whole string, expands to. */
  datatype Expansion = Ok(text: string) | Ignore | Error

  /** The meaning of every macro, given its namespace and name. */
  type Macros = (string, string) -> Expansion

  datatype Mode = Default | InNamespace(ns: string) | InName(ns: string, name: string)

  datatype Scan = At(mode: Mode, result: string) | Stopped(failure: Expansion)

  const VALID_NAMESPACES: seq<string> := ["", "env", "penv", "vendor"]

  predicate IsValidNamespace(s: string) {
    s in VALID_NAMESPACES
  }

  predicate PrefixesValidNamespace(s: string) {
    exists i | 0 <= i < |VALID_NAMESPACES| :: s <= VALID_NAMESPACES[i]
  }

  /** The mode after reading one more character. */
  function NextMode(mode: Mode, c: char): Mode {
    match mode
    case Default => if c == '$' then InNamespace("") else Default
    case InNamespace(ns) =>
      if c == '{' then
        if IsValidNamespace(ns) then InName(ns, "") else Default
      else
        if PrefixesValidNamespace(ns + [c]) then InNamespace(ns + [c]) else Default
    case InName(ns, name) => if c == '}' then Default else InName(ns, name + [c])
  }

  /** The characters that are copied to the output by reading one more character. */
  function Copied(mode: Mode, c: char): string {
    match mode
    case Default => if c == '$' then "" else [c]
    case InNamespace(ns) => if NextMode(mode, c) == Default then "$" + ns + [c] else ""
    case InName(_, _) => ""
  }

  predicate IsCall(mode: Mode, c: char) {
    mode.InName? && c == '}'
  }

  function Step(m: Macros, p: Scan, c: char): Scan {
    if p.Stopped? then p
    else if IsCall(p.mode, c) then
      match m(p.mode.ns, p.mode.name)
      case Ok(text) => At(Default, p.result + text)
      case failure => Stopped(failure)
    else At(NextMode(p.mode, c), p.result + Copied(p.mode, c))
  }

  function Advance(m: Macros, p: Scan, s: string): Scan {
    if s == "" then p else Step(m, Advance(m, p, s[..|s| - 1]), s[|s| - 1])
  }

  const START: Scan := At(Default, "")

  /** What the scanner returns at the end of the string. */
  function Finish(p: Scan): Expansion {
    match p
    case Stopped(failure) => failure
    case At(Default, result) => Ok(result)
    case At(InNamespace(ns), result) => Ok(result + "$" + ns)
    case At(InName(_, _), _) => Error
  }

  function Expand(m: Macros, s: string): Expansion {
    Finish(Advance(m, START, s))
  }

  /** The mode the scanner is in after s, whatever the macros mean. */
  function ModeAfter(s: string): Mode {
    if s == "" then Default else NextMode(ModeAfter(s[..|s| - 1]), s[|s| - 1])
  }

  /** The macros, as (namespace, name), that a scan of s asks for when none of them fails. */
  function Calls(s: string): set<(string, string)> {
    if s == "" then {}
    else
      var mode := ModeAfter(s[..|s| - 1]);
      Calls(s[..|s| - 1]) + if IsCall(mode, s[|s| - 1]) then {(mode.ns, mode.name)} else {}
  }

  lemma {:induction false} AdvanceMode(m: Macros, s: string)
    ensures Advance(m, START, s).At? ==> Advance(m, START, s).mode == ModeAfter(s)
    ensures Advance(m, START, s).At? <==> forall call | call in Calls(s) :: m(call.0, call.1).Ok?
    ensures Advance(m, START, s).Stopped? ==> !Advance(m, START, s).failure.Ok?
  {
    if s != "" {
      var init := s[..|s| - 1];
      AdvanceMode(m, init);
      if IsCall(ModeAfter(init), s[|s| - 1]) {
        assert (ModeAfter(init).ns, ModeAfter(init).name) in Calls(s);
      }
      assert forall call | call in Calls(init) :: call in Calls(s);
    }
  }

  /** Expansion succeeds exactly when every macro asked for succeeds and the last macro is closed. */
  lemma ExpandOkIff(m: Macros, s: string)
    ensures Expand(m, s).Ok? <==>
            (forall call | call in Calls(s) :: m(call.0, call.1).Ok?) && !ModeAfter(s).InName?
  {
    AdvanceMode(m, s);
  }

  /** Expansion depends on a macro table only through the macros the string asks for. */
  lemma {:induction false} AdvanceFrame(m: Macros, m': Macros, s: string)
    requires forall call | call in Calls(s) :: m(call.0, call.1) == m'(call.0, call.1)
    ensures Advance(m, START, s) == Advance(m', START, s)
  {
    if s != "" {
      var init := s[..|s| - 1];
      assert forall call | call in Calls(init) :: call in Calls(s);
      AdvanceFrame(m, m', init);
      AdvanceMode(m, init);
      if IsCall(ModeAfter(init), s[|s| - 1]) {
        assert (ModeAfter(init).ns, ModeAfter(init).name) in Calls(s);
      }
    }
  }

  lemma {:induction false} AdvanceConcat(m: Macros, p: Scan, a: string, b: string)
    ensures Advance(m, p, a + b) == Advance(m, Advance(m, p, a), b)
  {
    if b == "" {
      assert a + b == a;
    } else {
      assert (a + b)[..|a + b| - 1] == a + b[..|b| - 1];
      AdvanceConcat(m, p, a, b[..|b| - 1]);
    }
  }

  function Prefixed(r: string, p: Scan): Scan {
    if p.At? then At(p.mode, r + p.result) else p
  }

  lemma StepPrefixed(m: Macros, r: string, p: Scan, c: char)
    ensures Step(m, Prefixed(r, p), c) == Prefixed(r, Step(m, p, c))
  {
    if p.At? && !IsCall(p.mode, c) {
      Associative(r, p.result, Copied(p.mode, c));
    } else if p.At? && m(p.mode.ns, p.mode.name).Ok? {
      Associative(r, p.result, m(p.mode.ns, p.mode.name).text);
    }
  }

  /** What has been written so far is only ever appended to. */
  lemma {:induction false} AdvancePrefixed(m: Macros, r: string, p: Scan, s: string)
    ensures Advance(m, Prefixed(r, p), s) == Prefixed(r, Advance(m, p, s))
  {
    if s != "" {
      AdvancePrefixed(m, r, p, s[..|s| - 1]);
      StepPrefixed(m, r, Advance(m, p, s[..|s| - 1]), s[|s| - 1]);
    }
  }

  /** Running one expansion after another: the first failure wins. */
  function Then(a: Expansion, b: Expansion): Expansion {
    match a
    case Ok(x) => if b.Ok? then Ok(x + b.text) else b
    case _ => a
  }

  lemma FinishPrefixed(r: string, p: Scan)
    requires p.Stopped? ==> !p.failure.Ok?
    ensures Finish(Prefixed(r, p)) == Then(Ok(r), Finish(p))
  {
    if p.At? && p.mode.InNamespace? {
      Associative(r, p.result, "$" + p.mode.ns);
      Associative(p.result, "$", p.mode.ns);
      Associative(r + p.result, "$", p.mode.ns);
    }
  }

  /** Expansion distributes over concatenation when the left part does not end inside a macro. */
  lemma ExpandConcat(m: Macros, a: string, b: string)
    requires ModeAfter(a) == Default
    ensures Expand(m, a + b) == Then(Expand(m, a), Expand(m, b))
  {
    AdvanceConcat(m, START, a, b);
    AdvanceMode(m, a);
    var p := Advance(m, START, a);
    if p.At? {
      ConcatAfterDefault(m, p.result, b);
    } else {
      StoppedStays(m, p, b);
    }
  }

  lemma ConcatAfterDefault(m: Macros, r: string, b: string)
    ensures Finish(Advance(m, At(Default, r), b)) == Then(Ok(r), Expand(m, b))
  {
    assert r + "" == r;
    AdvancePrefixed(m, r, START, b);
    AdvanceMode(m, b);
    FinishPrefixed(r, Advance(m, START, b));
  }

  /** A scan that stops was stopped by a macro it asked for. */
  lemma {:induction false} StoppedByCall(m: Macros, s: string)
    ensures Advance(m, START, s).Stopped? ==>
              exists call :: call in Calls(s) && m(call.0, call.1) == Advance(m, START, s).failure
  {
    if s != "" && Advance(m, START, s).Stopped? {
      var init := s[..|s| - 1];
      StoppedByCall(m, init);
      AdvanceMode(m, init);
      if Advance(m, START, init).Stopped? {
        var call :| call in Calls(init) && m(call.0, call.1) == Advance(m, START, init).failure;
        assert call in Calls(s);
      } else {
        var call := (ModeAfter(init).ns, ModeAfter(init).name);
        assert call in Calls(s);
      }
    }
  }

  /** The n-th character closes a macro that does not succeed, and every macro closed before does. */
  ghost predicate FailsAt(m: Macros, s: string, n: nat) {
    && n < |s| && IsCall(ModeAfter(s[..n]), s[n]) && !m(ModeAfter(s[..n]).ns, ModeAfter(s[..n]).name).Ok?
    && forall call | call in Calls(s[..n]) :: m(call.0, call.1).Ok?
  }

  /** The first macro that does not succeed decides the expansion of the whole string. */
  lemma FirstFailureDecides(m: Macros, s: string, n: nat)
    requires FailsAt(m, s, n)
    ensures Expand(m, s) == m(ModeAfter(s[..n]).ns, ModeAfter(s[..n]).name)
  {
    AdvanceMode(m, s[..n]);
    AdvanceSnoc(m, START, s[..n], s[n]);
    assert s == s[..n] + [s[n]] + s[n + 1..];
    AdvanceConcat(m, START, s[..n] + [s[n]], s[n + 1..]);
    StoppedStays(m, Advance(m, START, s[..n] + [s[n]]), s[n + 1..]);
  }

  lemma {:induction false} StoppedSomewhere(m: Macros, s: string) returns (n: nat)
    requires Advance(m, START, s).Stopped?
    ensures FailsAt(m, s, n)
  {
    var init := s[..|s| - 1];
    AdvanceMode(m, init);
    if Advance(m, START, init).Stopped? {
      n := StoppedSomewhere(m, init);
      assert init[..n] == s[..n];
    } else {
      n := |s| - 1;
    }
  }

  lemma {:induction false} StoppedStays(m: Macros, p: Scan, s: string)
    requires p.Stopped?
    ensures Advance(m, p, s) == p
  {
    if s != "" {
      StoppedStays(m, p, s[..|s| - 1]);
    }
  }

  /** The string with every dollar sign written as a macro. */
  function EscapeDollars(s: string): string {
    if s == "" then ""
    else EscapeDollars(s[..|s| - 1]) + Escaped(s[|s| - 1])
  }

  function Escaped(c: char): string {
    if c == '$' then "${dollar}" else [c]
  }

  lemma DollarMacro(m: Macros, r: string)
    requires m("", "dollar") == Ok("$")
    ensures Advance(m, At(Default, r), "${dollar}") == At(Default, r + "$")
  {
    PlainName(m, r, "dollar");
    DollarText();
    AdvanceSnoc(m, At(Default, r), "${" + "dollar", '}');
  }

  lemma DollarText()
    ensures "" + "dollar" == "dollar" && "${" + "dollar" + ['}'] == "${dollar}"
  {
  }

  lemma PlainName(m: Macros, r: string, name: string)
    requires '}' !in name
    ensures Advance(m, At(Default, r), "${" + name) == At(InName("", "" + name), r)
  {
    OpenPlainMacro(m, r);
    NameCharacters(m, At(InName("", ""), r), name);
    AdvanceConcat(m, At(Default, r), "${", name);
  }

  lemma OpenPlainMacro(m: Macros, r: string)
    ensures Advance(m, At(Default, r), "${") == At(InName("", ""), r)
  {
    assert "$" + "" == "$" && "$" + ['{'] == "${";
    OpenMacro(m, r, "");
  }

  /** A dollar sign, a namespace and a brace open a macro. */
  lemma OpenMacro(m: Macros, r: string, ns: string)
    requires IsValidNamespace(ns)
    ensures Advance(m, At(Default, r), "$" + ns + ['{']) == At(InName(ns, ""), r)
  {
    NamespaceCharacters(m, r, ns, |ns|);
    assert ns[..|ns|] == ns && r + "" == r;
    AdvanceSnoc(m, At(Default, r), "$" + ns, '{');
  }

  lemma {:induction false} NamespaceCharacters(m: Macros, r: string, ns: string, n: nat)
    requires IsValidNamespace(ns) && n <= |ns|
    ensures Advance(m, At(Default, r), "$" + ns[..n]) == At(InNamespace(ns[..n]), r)
  {
    if n == 0 {
      DollarSign(m, r, ns);
    } else {
      NamespaceCharacters(m, r, ns, n - 1);
      NamespacePrefix(ns, n);
      AdvanceSnoc(m, At(Default, r), "$" + ns[..n - 1], ns[n - 1]);
      NamespaceLetter(m, r, ns, n - 1);
    }
  }

  lemma DollarSign(m: Macros, r: string, ns: string)
    ensures Advance(m, At(Default, r), "$" + ns[..0]) == At(InNamespace(ns[..0]), r)
  {
    assert r + "" == r && "" + ['$'] == "$" + ns[..0] && ns[..0] == "";
    AdvanceSnoc(m, At(Default, r), "", '$');
  }

  lemma NamespacePrefix(ns: string, n: nat)
    requires 0 < n <= |ns|
    ensures "$" + ns[..n] == "$" + ns[..n - 1] + [ns[n - 1]] && ns[..n] == ns[..n - 1] + [ns[n - 1]]
  {
  }

  lemma NamespaceLetter(m: Macros, r: string, ns: string, i: nat)
    requires IsValidNamespace(ns) && i < |ns|
    ensures Step(m, At(InNamespace(ns[..i]), r), ns[i]) == At(InNamespace(ns[..i] + [ns[i]]), r)
  {
    var k :| 0 <= k < |VALID_NAMESPACES| && VALID_NAMESPACES[k] == ns;
    assert ns[i] != '{' && ns[..i] + [ns[i]] <= VALID_NAMESPACES[k];
    assert r + "" == r;
  }

  /** A macro as it is written. */
  function MacroText(ns: string, name: string): string {
    "$" + ns + ['{'] + name + ['}']
  }

  /** A macro that stands alone expands to what it means. */
  lemma WrittenMacro(m: Macros, ns: string, name: string)
    requires IsValidNamespace(ns) && '}' !in name
    ensures Expand(m, MacroText(ns, name)) == m(ns, name)
  {
    var opening := "$" + ns + ['{'];
    OpenMacro(m, "", ns);
    NameCharacters(m, At(InName(ns, ""), ""), name);
    AdvanceConcat(m, START, opening, name);
    AdvanceSnoc(m, START, opening + name, '}');
    assert "" + name == name;
  }

  lemma {:induction false} NameCharacters(m: Macros, p: Scan, s: string)
    requires p.At? && p.mode.InName? && '}' !in s
    ensures Advance(m, p, s) == At(InName(p.mode.ns, p.mode.name + s), p.result)
  {
    if s == "" {
      assert p.mode.name + s == p.mode.name;
    } else {
      NameCharacters(m, p, s[..|s| - 1]);
      assert p.mode.name + s == p.mode.name + s[..|s| - 1] + [s[|s| - 1]];
      assert p.result + "" == p.result;
    }
  }

  /** Writing every dollar sign as the dollar macro and expanding gives the string back. */
  lemma DollarRoundTrip(m: Macros, s: string)
    requires m("", "dollar") == Ok("$")
    ensures Expand(m, EscapeDollars(s)) == Ok(s)
  {
    DollarRoundTripScan(m, s);
  }

  lemma {:induction false} DollarRoundTripScan(m: Macros, s: string)
    requires m("", "dollar") == Ok("$")
    ensures Advance(m, START, EscapeDollars(s)) == At(Default, s)
  {
    if s != "" {
      SplitLast(s);
      DollarRoundTripScan(m, s[..|s| - 1]);
      EscapedCharacter(m, EscapeDollars(s[..|s| - 1]), s[..|s| - 1], s[|s| - 1]);
    }
  }

  lemma EscapedCharacter(m: Macros, before: string, init: string, c: char)
    requires m("", "dollar") == Ok("$") && Advance(m, START, before) == At(Default, init)
    ensures Advance(m, START, before + Escaped(c)) == At(Default, init + [c])
  {
    AdvanceConcat(m, START, before, Escaped(c));
    if c == '$' {
      DollarMacro(m, init);
    } else {
      assert [c][..0] == "" && Advance(m, At(Default, init), "") == At(Default, init);
    }
  }

  /** At position i there is a dollar sign, a valid namespace and an opening brace. */
  predicate OpensMacroAt(s: string, i: nat) {
    i < |s| && s[i] == '$' && exists k | 0 <= k < |VALID_NAMESPACES| :: VALID_NAMESPACES[k] + "{" <= s[i + 1..]
  }

  /** A macro is opened by a dollar sign, one of four namespaces and a brace, and by nothing else. */
  lemma FourOpenings(s: string, i: nat)
    requires i < |s|
    ensures OpensMacroAt(s, i) <==>
            s[i] == '$'
            && ("{" <= s[i + 1..] || "env{" <= s[i + 1..] || "penv{" <= s[i + 1..] || "vendor{" <= s[i + 1..])
  {
    assert VALID_NAMESPACES[0] + "{" == "{" && VALID_NAMESPACES[1] + "{" == "env{";
    assert VALID_NAMESPACES[2] + "{" == "penv{" && VALID_NAMESPACES[3] + "{" == "vendor{";
    assert |VALID_NAMESPACES| == 4;
  }

  /** A string that opens no macro is left as it is, whatever the macros mean. */
  lemma PlainTextUnchanged(m: Macros, s: string)
    requires forall i: nat :: !OpensMacroAt(s, i)
    ensures Expand(m, s) == Ok(s)
  {
    PlainTextScan(m, s, |s|);
    assert s[..|s|] == s;
  }

  /** The text that has been read but not written. */
  function Pending(mode: Mode): string {
    if mode.InNamespace? then "$" + mode.ns else ""
  }

  lemma {:induction false} PlainTextScan(m: Macros, s: string, n: nat)
    requires forall i: nat :: !OpensMacroAt(s, i)
    requires n <= |s|
    ensures Advance(m, START, s[..n]).At?
    ensures var p := Advance(m, START, s[..n]); !p.mode.InName? && p.result + Pending(p.mode) == s[..n]
  {
    if n > 0 {
      PlainTextScan(m, s, n - 1);
      assert s[..n][..n - 1] == s[..n - 1];
      assert s[..n] == s[..n - 1] + [s[n - 1]];
      var p := Advance(m, START, s[..n - 1]);
      if p.mode.InNamespace? && s[n - 1] == '{' && IsValidNamespace(p.mode.ns) {
        OpenedMacro(s, n - 1, p.result, p.mode.ns);
        assert false;
      }
      PlainTextStep(m, p, s[n - 1]);
    }
  }

  lemma PlainTextStep(m: Macros, p: Scan, c: char)
    requires p.At? && !p.mode.InName? && !NextMode(p.mode, c).InName?
    ensures Step(m, p, c).At? && Step(m, p, c).mode == NextMode(p.mode, c)
    ensures Step(m, p, c).result + Pending(Step(m, p, c).mode) == p.result + Pending(p.mode) + [c]
  {
    if p.mode.InNamespace? {
      var ns := p.mode.ns;
      assert p.result + ("$" + ns + [c]) == p.result + ("$" + ns) + [c];
      assert p.result + "" + ("$" + (ns + [c])) == p.result + ("$" + ns) + [c];
    } else if c == '$' {
      assert p.result + "" + ("$" + "") == p.result + "" + [c];
    }
  }

  lemma OpenedMacro(s: string, n: nat, result: string, ns: string)
    requires n < |s| && result + ("$" + ns) == s[..n] && s[n] == '{' && IsValidNamespace(ns)
    ensures OpensMacroAt(s, |result|)
  {
    var i := |result|;
    assert s[i] == s[..n][i] == ("$" + ns)[0];
    forall j | 0 <= j < |ns| ensures s[i + 1..][j] == ns[j] {
      assert s[i + 1..][j] == s[..n][i + 1 + j] == ("$" + ns)[1 + j];
    }
    assert ns + "{" <= s[i + 1..];
    var k :| 0 <= k < |VALID_NAMESPACES| && VALID_NAMESPACES[k] == ns;
  }

  lemma AdvanceSnoc(m: Macros, p: Scan, s: string, c: char)
    ensures Advance(m, p, s + [c]) == Step(m, Advance(m, p, s), c)
  {
    assert (s + [c])[..|s + [c]| - 1] == s;
  }

  /** A scan without calls copies everything: a macro's name, once begun, only ends with a call. */
  lemma {:induction false} PlainScan(m: Macros, s: string)
    requires Calls(s) == {} && !ModeAfter(s).InName?
    ensures var p := Advance(m, START, s);
            p.At? && p.mode == ModeAfter(s) && p.result + Pending(p.mode) == s
  {
    if s != "" {
      var init, c := s[..|s| - 1], s[|s| - 1];
      SplitLast(s);
      if !ModeAfter(init).InName? {
        PlainScan(m, init);
        PlainTextStep(m, Advance(m, START, init), c);
      }
    }
  }

  ghost predicate UnchangedBy(m: Macros, s: string) {
    Expand(m, s) == Ok(s)
  }

  /** Exactly the strings in which the scanner meets no macro are left as they are whatever the macros mean. */
  lemma PlainTextExactly(s: string)
    ensures (forall m: Macros :: UnchangedBy(m, s)) <==> Calls(s) == {} && !ModeAfter(s).InName?
  {
    if Calls(s) == {} && !ModeAfter(s).InName? {
      AllLeavePlain(s);
    } else {
      var failing := NotPlain(s);
    }
  }

  lemma AllLeavePlain(s: string)
    requires Calls(s) == {} && !ModeAfter(s).InName?
    ensures forall m: Macros :: UnchangedBy(m, s)
  {
    forall m: Macros ensures UnchangedBy(m, s) {
      LeavesPlain(m, s);
    }
  }

  lemma LeavesPlain(m: Macros, s: string)
    requires Calls(s) == {} && !ModeAfter(s).InName?
    ensures UnchangedBy(m, s)
  {
    PlainScan(m, s);
    FinishPlain(Advance(m, START, s), s);
  }

  lemma FinishPlain(p: Scan, s: string)
    requires p.At? && !p.mode.InName? && p.result + Pending(p.mode) == s
    ensures Finish(p) == Ok(s)
  {
    if p.mode.InNamespace? {
      Associative(p.result, "$", p.mode.ns);
    } else {
      assert p.result + "" == p.result;
    }
  }

  /** Macros that all fail do not leave a string alone that calls one of them or leaves one open. */
  lemma NotPlain(s: string) returns (failing: Macros)
    requires Calls(s) != {} || ModeAfter(s).InName?
    ensures !UnchangedBy(failing, s)
  {
    failing := AllFail;
    ExpandOkIff(failing, s);
    if call :| call in Calls(s) {
      assert failing(call.0, call.1) == Error;
    }
  }

  function AllFail(ns: string, name: string): Expansion {
    Error
  }

  /** A dollar sign right before a macro swallows the macro's own dollar sign: "$${x}" opens a macro at 1,
      yet both dollar signs are copied and only the rest is expanded. So the condition of
      PlainTextUnchanged is sufficient, not necessary; PlainTextExactly has the exact one. */
  lemma DoubleDollarHidesMacro(m: Macros, rest: string)
    requires |rest| > 0 && rest[0] == '{'
    ensures OpensMacroAt("$$" + rest, 1)
    ensures Expand(m, "$$" + rest) == Then(Ok("$$"), Expand(m, rest))
  {
    TwoDollars(m);
    AdvanceMode(m, "$$");
    ExpandConcat(m, "$$", rest);
    assert ("$$" + rest)[..2] == "$" + ("$" + "");
    OpenedMacro("$$" + rest, 2, "$", "");
  }

  lemma TwoDollars(m: Macros)
    ensures Advance(m, START, "$$") == At(Default, "$$")
  {
    AdvanceSnoc(m, START, "", '$');
    assert Step(m, START, '$') == At(InNamespace(""), "");
    AdvanceSnoc(m, START, "$", '$');
    assert "" + ['$'] == "$" && "$" + ['$'] == "$$";
    forall i | 0 <= i < |VALID_NAMESPACES| ensures !("$" <= VALID_NAMESPACES[i]) {
    }
    assert "" + ("$" + "" + ['$']) == "$$";
  }
}
