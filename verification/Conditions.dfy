/** The condition language of presets: evaluation as cmCMakePresetsGraph.cxx does it, with loops that
    stop early, against a left-to-right reading with three outcomes. */
module Conditions {
  import opened Options
  import opened ConditionTree
  import opened MacroScanner

  /** The regular expression library: which patterns compile, and what a compiled pattern finds. */
  datatype RegexLibrary = RegexLibrary(compiles: string -> bool, finds: (string, string) -> bool)

  /** An error, no answer (an ignored macro), or an answer. */
  datatype Outcome = Failed | Ignored | Known(answer: bool)

  function FromExpansion(e: Expansion): Outcome
    requires !e.Ok?
  {
    if e.Error? then Failed else Ignored
  }

  function Negate(o: Outcome): Outcome {
    if o.Known? then Known(!o.answer) else o
  }

  /** The first outcome that is not the neutral answer decides. */
  function Decide(outcomes: seq<Outcome>, stopValue: bool): Outcome {
    if outcomes == [] then Known(!stopValue)
    else if outcomes[0] == Known(!stopValue) then Decide(outcomes[1..], stopValue)
    else outcomes[0]
  }

  /** The three-outcome meaning of a condition. */
  function Value(m: Macros, re: RegexLibrary, c: Condition): Outcome
    decreases c, 1
  {
    match c
    case NullCondition => Known(true)
    case ConstCondition(value) => Known(value)
    case EqualsCondition(lhs, rhs) => EqualsValue(m, lhs, rhs)
    case InListCondition(str, list) =>
      if !Expand(m, str).Ok? then FromExpansion(Expand(m, str))
      else Decide(seq(|list|, i requires 0 <= i < |list| => EqualsValue(m, str, list[i])), true)
    case MatchesCondition(text, regex) =>
      if !Expand(m, text).Ok? then FromExpansion(Expand(m, text))
      else if !Expand(m, regex).Ok? then FromExpansion(Expand(m, regex))
      else if !re.compiles(Expand(m, regex).text) then Failed
      else Known(re.finds(Expand(m, regex).text, Expand(m, text).text))
    case AnyAllOfCondition(conditions, stopValue) => Decide(Values(m, re, conditions), stopValue)
    case NotCondition(sub) => Negate(Value(m, re, sub))
  }

  function EqualsValue(m: Macros, lhs: string, rhs: string): Outcome {
    if !Expand(m, lhs).Ok? then FromExpansion(Expand(m, lhs))
    else if !Expand(m, rhs).Ok? then FromExpansion(Expand(m, rhs))
    else Known(Expand(m, lhs).text == Expand(m, rhs).text)
  }

  function Values(m: Macros, re: RegexLibrary, cs: seq<Condition>): (outcomes: seq<Outcome>)
    ensures |outcomes| == |cs|
    ensures forall i | 0 <= i < |cs| :: outcomes[i] == Value(m, re, cs[i])
    decreases cs, 0
  {
    if cs == [] then [] else [Value(m, re, cs[0])] + Values(m, re, cs[1..])
  }

  /** What Evaluate leaves behind: its result and the optional it was given. */
  function OutcomeOf(ok: bool, out: Option<bool>): Outcome {
    if !ok then Failed else if out.None? then Ignored else Known(out.value)
  }

  /** Evaluate, called as the source calls it: with an empty optional. */
  method Evaluate(m: Macros, re: RegexLibrary, c: Condition) returns (ok: bool, out: Option<bool>)
    ensures OutcomeOf(ok, out) == Value(m, re, c)
    decreases c, 1
  {
    match c {
      case NullCondition =>
        return true, Some(true);
      case ConstCondition(value) =>
        return true, Some(value);
      case EqualsCondition(lhs, rhs) =>
        var l := Expand(m, lhs);
        if l.Error? { return false, None; }
        if l.Ignore? { return true, None; }
        var r := Expand(m, rhs);
        if r.Error? { return false, None; }
        if r.Ignore? { return true, None; }
        return true, Some(l.text == r.text);
      case InListCondition(str, list) =>
        ok, out := EvaluateInList(m, str, list);
      case MatchesCondition(text, regex) =>
        var t := Expand(m, text);
        if t.Error? { return false, None; }
        if t.Ignore? { return true, None; }
        var r := Expand(m, regex);
        if r.Error? { return false, None; }
        if r.Ignore? { return true, None; }
        if !re.compiles(r.text) { return false, None; }
        return true, Some(re.finds(r.text, t.text));
      case AnyAllOfCondition(conditions, stopValue) =>
        ok, out := EvaluateAnyAll(m, re, conditions, stopValue);
      case NotCondition(sub) =>
        ok, out := Evaluate(m, re, sub);
        if !ok { return false, None; }
        if out.Some? {
          out := Some(!out.value);
        }
    }
  }

  method EvaluateInList(m: Macros, str: string, list: seq<string>) returns (ok: bool, out: Option<bool>)
    ensures OutcomeOf(ok, out) ==
            if !Expand(m, str).Ok? then FromExpansion(Expand(m, str))
            else Decide(seq(|list|, i requires 0 <= i < |list| => EqualsValue(m, str, list[i])), true)
  {
    var s := Expand(m, str);
    if s.Error? { return false, None; }
    if s.Ignore? { return true, None; }
    ghost var outcomes := seq(|list|, i requires 0 <= i < |list| => EqualsValue(m, str, list[i]));
    for i := 0 to |list|
      invariant Decide(outcomes, true) == Decide(outcomes[i..], true)
    {
      assert outcomes[i..][0] == EqualsValue(m, str, list[i]) && outcomes[i..][1..] == outcomes[i + 1..];
      var item := Expand(m, list[i]);
      if item.Error? { return false, None; }
      if item.Ignore? { return true, None; }
      if s.text == item.text { return true, Some(true); }
    }
    return true, Some(false);
  }

  method EvaluateAnyAll(m: Macros, re: RegexLibrary, conditions: seq<Condition>, stopValue: bool)
    returns (ok: bool, out: Option<bool>)
    ensures OutcomeOf(ok, out) == Decide(Values(m, re, conditions), stopValue)
    decreases conditions, 0
  {
    ghost var outcomes := Values(m, re, conditions);
    for i := 0 to |conditions|
      invariant Decide(outcomes, stopValue) == Decide(outcomes[i..], stopValue)
    {
      assert outcomes[i..][0] == Value(m, re, conditions[i]) && outcomes[i..][1..] == outcomes[i + 1..];
      var okI, result := Evaluate(m, re, conditions[i]);
      if !okI { return false, None; }
      if result.None? { return true, None; }
      if result == Some(stopValue) { return true, result; }
    }
    return true, Some(!stopValue);
  }

  /** Decide, said by position: everything before the deciding place is neutral, nothing after it matters. */
  lemma {:induction false} DecideByPosition(outcomes: seq<Outcome>, stopValue: bool)
    ensures Decide(outcomes, stopValue) == Known(!stopValue) <==>
            forall i | 0 <= i < |outcomes| :: outcomes[i] == Known(!stopValue)
    ensures Decide(outcomes, stopValue) != Known(!stopValue) ==>
              exists i | 0 <= i < |outcomes| :: outcomes[i] == Decide(outcomes, stopValue)
                                                && forall j | 0 <= j < i :: outcomes[j] == Known(!stopValue)
  {
    if outcomes != [] && outcomes[0] == Known(!stopValue) {
      var rest := outcomes[1..];
      DecideByPosition(rest, stopValue);
      assert forall i | 0 < i < |outcomes| :: outcomes[i] == rest[i - 1];
      assert forall i | 0 <= i < |rest| :: rest[i] == outcomes[i + 1];
      if Decide(rest, stopValue) != Known(!stopValue) {
        var i :| 0 <= i < |rest| && rest[i] == Decide(rest, stopValue) && forall j | 0 <= j < i ::
          rest[j] == Known(!stopValue);
        assert outcomes[i + 1] == Decide(outcomes, stopValue);
        assert forall j | 0 <= j < i + 1 :: outcomes[j] == Known(!stopValue);
      }
    }
  }

  /** A null condition is true, and a constant is what it says. */
  lemma ConstantsHold(m: Macros, re: RegexLibrary, value: bool)
    ensures Value(m, re, NullCondition) == Known(true)
    ensures Value(m, re, ConstCondition(value)) == Known(value)
  {
  }

  /** equals compares what the two texts expand to. */
  lemma EqualsHolds(m: Macros, re: RegexLibrary, lhs: string, rhs: string, x: string, y: string)
    requires Expand(m, lhs) == Ok(x) && Expand(m, rhs) == Ok(y)
    ensures Value(m, re, EqualsCondition(lhs, rhs)) == Known(true) <==> x == y
    ensures Value(m, re, EqualsCondition(lhs, rhs)) == Known(false) <==> x != y
    ensures Value(m, re, EqualsCondition(lhs, lhs)) == Known(true)
    ensures Value(m, re, EqualsCondition(lhs, rhs)) == Value(m, re, EqualsCondition(rhs, lhs))
  {
  }

  /** inList finds what its string expands to among what the items expand to. */
  lemma InListHolds(m: Macros, re: RegexLibrary, str: string, list: seq<string>, x: string, items: seq<string>)
    requires Expand(m, str) == Ok(x) && |items| == |list|
    requires forall i | 0 <= i < |list| :: Expand(m, list[i]) == Ok(items[i])
    ensures Value(m, re, InListCondition(str, list)) == Known(x in items)
  {
    var outcomes := seq(|list|, i requires 0 <= i < |list| => EqualsValue(m, str, list[i]));
    forall i | 0 <= i < |list| ensures outcomes[i] == Known(x == items[i]) {
      EqualsHolds(m, re, str, list[i], x, items[i]);
    }
    DecideByPosition(outcomes, true);
    if x in items {
      var i :| 0 <= i < |items| && items[i] == x;
      assert outcomes[i] != Known(!true);
    } else {
      assert forall i | 0 <= i < |outcomes| :: outcomes[i] == Known(!true);
    }
  }

  /** inList fails at the first item that does not expand, unless it has found its string before. */
  lemma InListFails(m: Macros, re: RegexLibrary, str: string, list: seq<string>, x: string, k: nat)
    requires Expand(m, str) == Ok(x) && k < |list| && !Expand(m, list[k]).Ok?
    requires forall i | 0 <= i < k :: Expand(m, list[i]).Ok? && Expand(m, list[i]).text != x
    ensures Expand(m, list[k]) == Error ==> Value(m, re, InListCondition(str, list)) == Failed
    ensures Expand(m, list[k]) == Ignore ==> Value(m, re, InListCondition(str, list)) == Ignored
  {
    var outcomes := seq(|list|, i requires 0 <= i < |list| => EqualsValue(m, str, list[i]));
    FirstOutcome(outcomes, true, k);
  }

  lemma {:induction false} FirstOutcome(outcomes: seq<Outcome>, stopValue: bool, k: nat)
    requires k < |outcomes| && outcomes[k] != Known(!stopValue)
    requires forall i | 0 <= i < k :: outcomes[i] == Known(!stopValue)
    ensures Decide(outcomes, stopValue) == outcomes[k]
  {
    if k > 0 {
      FirstOutcome(outcomes[1..], stopValue, k - 1);
    }
  }

  /** matches asks the library about the expanded pattern and the expanded text, in these places; a pattern that does
      not compile is an error. */
  lemma MatchesHolds(m: Macros, re: RegexLibrary, text: string, regex: string, x: string, pattern: string)
    requires Expand(m, text) == Ok(x) && Expand(m, regex) == Ok(pattern)
    ensures re.compiles(pattern) ==> Value(m, re, MatchesCondition(text, regex)) == Known(re.finds(pattern, x))
    ensures !re.compiles(pattern) ==> Value(m, re, MatchesCondition(text, regex)) == Failed
  {
  }

  /** What a condition over two texts makes of a text that does not expand: the left or the searched text decides. */
  lemma TextsFail(m: Macros, re: RegexLibrary, lhs: string, rhs: string, list: seq<string>)
    ensures Expand(m, lhs) == Error ==>
              Value(m, re, EqualsCondition(lhs, rhs)) == Value(m, re, MatchesCondition(lhs, rhs)) ==
              Value(m, re, InListCondition(lhs, list)) == Failed
    ensures Expand(m, lhs) == Ignore ==>
              Value(m, re, EqualsCondition(lhs, rhs)) == Value(m, re, MatchesCondition(lhs, rhs)) ==
              Value(m, re, InListCondition(lhs, list)) == Ignored
    ensures Expand(m, lhs).Ok? && Expand(m, rhs) == Error ==>
              Value(m, re, EqualsCondition(lhs, rhs)) == Value(m, re, MatchesCondition(lhs, rhs)) == Failed
    ensures Expand(m, lhs).Ok? && Expand(m, rhs) == Ignore ==>
              Value(m, re, EqualsCondition(lhs, rhs)) == Value(m, re, MatchesCondition(lhs, rhs)) == Ignored
  {
  }

  /** not turns an answer round and nothing else. */
  lemma NotHolds(m: Macros, re: RegexLibrary, c: Condition)
    ensures Value(m, re, NotCondition(c)) == Known(true) <==> Value(m, re, c) == Known(false)
    ensures Value(m, re, NotCondition(c)) == Known(false) <==> Value(m, re, c) == Known(true)
    ensures Value(m, re, NotCondition(c)) == Failed <==> Value(m, re, c) == Failed
  {
  }

  /** When every part has an answer, anyOf is "some part is true" and allOf is "every part is true". */
  lemma AnswersAreBoolean(m: Macros, re: RegexLibrary, cs: seq<Condition>)
    requires forall i | 0 <= i < |cs| :: Value(m, re, cs[i]).Known?
    ensures Value(m, re, AnyAllOfCondition(cs, true)) ==
            Known(exists i | 0 <= i < |cs| :: Value(m, re, cs[i]) == Known(true))
    ensures Value(m, re, AnyAllOfCondition(cs, false)) ==
            Known(forall i | 0 <= i < |cs| :: Value(m, re, cs[i]) == Known(true))
  {
    var outcomes := Values(m, re, cs);
    DecideByPosition(outcomes, true);
    DecideByPosition(outcomes, false);
    assert forall i | 0 <= i < |cs| :: outcomes[i] == Value(m, re, cs[i]);
    if i :| 0 <= i < |cs| && Value(m, re, cs[i]) == Known(true) {
      assert outcomes[i] != Known(!true);
    }
    if i :| 0 <= i < |cs| && Value(m, re, cs[i]) != Known(true) {
      assert outcomes[i] != Known(!false);
    }
  }

  function Negations(cs: seq<Condition>): (ns: seq<Condition>)
    ensures |ns| == |cs| && forall i | 0 <= i < |cs| :: ns[i] == NotCondition(cs[i])
  {
    seq(|cs|, i requires 0 <= i < |cs| => NotCondition(cs[i]))
  }

  /** De Morgan, both ways round, errors and ignored macros included. */
  lemma DeMorgan(m: Macros, re: RegexLibrary, cs: seq<Condition>, stopValue: bool)
    ensures Value(m, re, NotCondition(AnyAllOfCondition(cs, stopValue))) ==
            Value(m, re, AnyAllOfCondition(Negations(cs), !stopValue))
  {
    DecideNegated(Values(m, re, cs), Values(m, re, Negations(cs)), stopValue);
  }

  lemma {:induction false} DecideNegated(a: seq<Outcome>, b: seq<Outcome>, stopValue: bool)
    requires |a| == |b| && forall i | 0 <= i < |a| :: b[i] == Negate(a[i])
    ensures Decide(b, !stopValue) == Negate(Decide(a, stopValue))
  {
    if a != [] {
      assert b[0] == Negate(a[0]);
      DecideNegated(a[1..], b[1..], stopValue);
    }
  }

  lemma DoubleNegation(m: Macros, re: RegexLibrary, c: Condition)
    ensures Value(m, re, NotCondition(NotCondition(c))) == Value(m, re, c)
  {
  }

  /** inList is anyOf over equals, except that it looks at its string even when the list is empty. */
  lemma InListIsAnyOfEquals(m: Macros, re: RegexLibrary, str: string, list: seq<string>)
    ensures var equals := seq(|list|, i requires 0 <= i < |list| => EqualsCondition(str, list[i]));
            Value(m, re, InListCondition(str, list)) ==
            if list == [] && !Expand(m, str).Ok? then FromExpansion(Expand(m, str))
            else Value(m, re, AnyAllOfCondition(equals, true))
  {
    var equals := seq(|list|, i requires 0 <= i < |list| => EqualsCondition(str, list[i]));
    var outcomes := seq(|list|, i requires 0 <= i < |list| => EqualsValue(m, str, list[i]));
    assert Values(m, re, equals) == outcomes;
    if list != [] && !Expand(m, str).Ok? {
      assert outcomes[0] == EqualsValue(m, str, list[0]);
    }
  }
}
