/** The parser itself (cmArgumentParser.cxx, cmArgumentParser.h): its loop reaches what ArgumentSegments and the
    outcome of each segment say. */
module ArgumentParser {
  import opened Options
  import opened ActionMaps
  import opened ArgumentSegments
  import opened Sequences

  // ---- The outcome of a segment ----

  /** How many values after a keyword its binding takes: up to and including the first that is answered No. */
  function TakenFrom(s: Segment, i: nat): (n: nat)
    requires i <= |s.rest|
    ensures n <= |s.rest|
    decreases |s.rest| - i
  {
    if i == |s.rest| then i
    else if s.binding.kind.Continues(s.at + i, s.rest[i]) then TakenFrom(s, i + 1)
    else i + 1
  }

  function Taken(s: Segment): (n: nat)
    ensures n <= |s.rest|
  {
    if s.binding.kind.TakesValues() then TakenFrom(s, 0) else 0
  }

  /** Every answer so far was Yes. */
  predicate Open(s: Segment) {
    s.binding.kind.TakesValues() && forall i | 0 <= i < |s.rest| :: s.binding.kind.Continues(s.at + i, s.rest[i])
  }

  function Given(s: Segment): seq<string> {
    s.rest[..Taken(s)]
  }

  function Left(s: Segment): seq<string> {
    s.rest[Taken(s)..]
  }

  /** What binding a keyword does at once. */
  function Opened(kind: Kind, v: Variable): Variable {
    match kind
    case Flag => v.(isSet := true)
    case ListOfLists => v.(lists := v.lists + [[]])
    case _ => v
  }

  /** What one call of the value function does. */
  function Stored(kind: Kind, v: Variable, arg: string): Variable {
    match kind
    case Flag => v
    case Text => v.(text := arg)
    case NonEmptyText => v.(text := arg)
    case MaybeText => v.(text := arg)
    case ListOfLists =>
      if v.lists == [] then v else v.(lists := v.lists[|v.lists| - 1 := v.lists[|v.lists| - 1] + [arg]])
    case _ => v.(list := v.list + [arg])
  }

  /** What one occurrence of a keyword leaves in its variable: a text holds the last value, a list gains the values, a
      list of lists gains one list. */
  function Absorbed(kind: Kind, v: Variable, given: seq<string>): Variable {
    match kind
    case Flag => v.(isSet := true)
    case ListOfLists => v.(lists := v.lists + [given])
    case MaybeEmptyList => v.(list := v.list + given)
    case NonEmptyList => v.(list := v.list + given)
    case Callback(_, _) => v.(list := v.list + given)
    case _ => if given == [] then v else v.(text := given[|given| - 1])
  }

  function AddError(errors: map<string, seq<Problem>>, keyword: string, p: Problem): map<string, seq<Problem>> {
    errors[keyword := (if keyword in errors then errors[keyword] else []) + [p]]
  }

  predicate IsEmptyError(kind: Kind, arg: string) {
    kind.NonEmptyText? && arg == []
  }

  predicate HasEmptyError(s: Segment) {
    exists i | 0 <= i < Taken(s) :: IsEmptyError(s.binding.kind, s.rest[i])
  }

  /** The outcome once a segment is read but not finished. */
  function Read(b: Setup, o: Outcome, s: Segment): Outcome {
    Outcome(o.parsedKeywords + [s.keyword],
            o.vars[s.binding.variable := Absorbed(s.binding.kind, Get(o.vars, s.binding.variable), Given(s))],
            if b.wantsErrors && HasEmptyError(s) then AddError(o.errors, s.keyword, EmptyString) else o.errors,
            o.missing,
            if b.wantsUnparsed then o.unparsed + Left(s) else o.unparsed,
            o.positional)
  }

  /** A keyword with too few values is an error, unless it is the empty string. */
  function Finish(b: Setup, o: Outcome, keyword: string, seen: nat, expected: nat): Outcome {
    if keyword != [] && seen < expected then
      o.(errors := if b.wantsErrors then AddError(o.errors, keyword, MissingValue) else o.errors,
         missing := o.missing + [keyword])
    else o
  }

  function Finished(b: Setup, o: Outcome, s: Segment): Outcome {
    Finish(b, o, s.keyword, Taken(s), s.binding.kind.Expected())
  }

  /** The outcome of the first n segments. */
  function OfSegments(b: Setup, o: Outcome, segments: seq<Segment>, n: nat): Outcome
    requires n <= |segments|
  {
    if n == 0 then o
    else Finished(b, Read(b, OfSegments(b, o, segments, n - 1), segments[n - 1]), segments[n - 1])
  }

  function Unbound(b: Setup, o: Outcome, arg: string): Outcome {
    if b.wantsUnparsed then o.(unparsed := o.unparsed + [arg]) else o
  }

  function ByPosition(b: Setup, o: Outcome, pos: nat, arg: string): Outcome {
    match Lookup(b.positions, pos)
    case Some(action) => o.(positional := o.positional + [(action, pos, arg)])
    case None => Unbound(b, o, arg)
  }

  /** The outcome of the first n arguments before any keyword. */
  function OfLeading(b: Setup, o: Outcome, leading: seq<string>, pos: nat, n: nat): Outcome
    requires n <= |leading|
  {
    if n == 0 then o else ByPosition(b, OfLeading(b, o, leading, pos, n - 1), pos + n - 1, leading[n - 1])
  }

  function Meaning(b: Setup, start: Outcome, split: Split, pos: nat): Outcome {
    OfSegments(b, OfLeading(b, start, split.leading, pos, |split.leading|), split.segments, |split.segments|)
  }

  // ---- The parser's state, and where it stands after some arguments ----

  datatype State = State(keyword: string, seen: nat, expected: nat, valueFunc: Option<Binding>, done: bool,
                         outcome: Outcome)

  /** After part of a segment; before is the outcome of the segments before it. */
  ghost predicate InSegment(b: Setup, before: Outcome, s: Segment, st: State) {
    st == State(s.keyword, Taken(s), s.binding.kind.Expected(), if Open(s) then Some(s.binding) else None, true,
                Read(b, before, s))
  }

  function BeforeLast(b: Setup, start: Outcome, pos: nat, split: Split): Outcome
    requires split.segments != []
  {
    OfSegments(b, OfLeading(b, start, split.leading, pos, |split.leading|), split.segments, |split.segments| - 1)
  }

  ghost predicate Stands(b: Setup, start: Outcome, pos: nat, split: Split, st: State) {
    if split.segments == [] then
      st == State([], 0, 0, None, false, OfLeading(b, start, split.leading, pos, |split.leading|))
    else
      InSegment(b, BeforeLast(b, start, pos, split), split.segments[|split.segments| - 1], st)
  }

  lemma {:induction false} OpenTakesAll(s: Segment, i: nat)
    requires i <= |s.rest| && forall j | i <= j < |s.rest| :: s.binding.kind.Continues(s.at + j, s.rest[j])
    ensures TakenFrom(s, i) == |s.rest|
    decreases |s.rest| - i
  {
    if i < |s.rest| {
      OpenTakesAll(s, i + 1);
    }
  }

  lemma {:induction false} StopsAt(s: Segment, i: nat, j: nat)
    requires i <= j < |s.rest| && !s.binding.kind.Continues(s.at + j, s.rest[j])
    requires forall k | i <= k < j :: s.binding.kind.Continues(s.at + k, s.rest[k])
    ensures TakenFrom(s, i) == j + 1
    decreases j - i
  {
    if i < j {
      StopsAt(s, i + 1, j);
    }
  }

  /** Taken is the longest prefix whose answers are all Yes, and the No that ends it. */
  lemma TakenIsLongestPrefix(s: Segment)
    ensures forall i | 0 <= i < Taken(s) - 1 :: s.binding.kind.Continues(s.at + i, s.rest[i])
    ensures s.binding.kind.TakesValues() && Taken(s) < |s.rest| ==>
              Taken(s) > 0 && !s.binding.kind.Continues(s.at + Taken(s) - 1, s.rest[Taken(s) - 1])
    ensures Open(s) ==> Taken(s) == |s.rest|
  {
    if Open(s) {
      OpenTakesAll(s, 0);
    } else if s.binding.kind.TakesValues() {
      var j := FirstNo(s, 0);
      StopsAt(s, 0, j);
    }
  }

  lemma FirstNo(s: Segment, i: nat) returns (j: nat)
    requires i <= |s.rest| && exists k | i <= k < |s.rest| :: !s.binding.kind.Continues(s.at + k, s.rest[k])
    ensures i <= j < |s.rest| && !s.binding.kind.Continues(s.at + j, s.rest[j])
    ensures forall k | i <= k < j :: s.binding.kind.Continues(s.at + k, s.rest[k])
    decreases |s.rest| - i
  {
    if !s.binding.kind.Continues(s.at + i, s.rest[i]) {
      j := i;
    } else {
      j := FirstNo(s, i + 1);
    }
  }

  /** A segment that is open takes one value more. */
  lemma OpenGrows(s: Segment, arg: string)
    requires Open(s)
    ensures var t := WithArgument(s, arg);
            && Taken(s) == |s.rest| && Taken(t) == |s.rest| + 1
            && (Open(t) <==> s.binding.kind.Continues(s.at + |s.rest|, arg))
  {
    var t := WithArgument(s, arg);
    OpenTakesAll(s, 0);
    if s.binding.kind.Continues(s.at + |s.rest|, arg) {
      OpenTakesAll(t, 0);
    } else {
      assert t.rest[|s.rest|] == arg;
      StopsAt(t, 0, |s.rest|);
    }
  }

  /** One that is not takes nothing more. */
  lemma ClosedStays(s: Segment, arg: string)
    requires !Open(s)
    ensures Taken(WithArgument(s, arg)) == Taken(s) && !Open(WithArgument(s, arg))
  {
    if s.binding.kind.TakesValues() {
      var j := FirstNo(s, 0);
      StopsAt(s, 0, j);
      assert WithArgument(s, arg).rest[j] == s.rest[j];
      StopsAt(WithArgument(s, arg), 0, j);
    }
  }

  lemma AbsorbedNothing(kind: Kind, v: Variable)
    ensures Absorbed(kind, v, []) == Opened(kind, v)
  {
    assert v.list + [] == v.list;
  }

  lemma AbsorbedMore(kind: Kind, v: Variable, given: seq<string>, arg: string)
    requires kind.TakesValues()
    ensures Absorbed(kind, v, given + [arg]) == Stored(kind, Absorbed(kind, v, given), arg)
  {
    assert v.list + (given + [arg]) == v.list + given + [arg];
    if kind.ListOfLists? {
      assert v.lists + [given + [arg]] == (v.lists + [given])[|v.lists| := given + [arg]];
    }
  }

  /** The outcome of storing a value. */
  function WithValue(b: Setup, o: Outcome, keyword: string, binding: Binding, arg: string): Outcome {
    o.(vars := o.vars[binding.variable := Stored(binding.kind, Get(o.vars, binding.variable), arg)],
       errors := if b.wantsErrors && IsEmptyError(binding.kind, arg) then AddError(o.errors, keyword, EmptyString)
                 else o.errors)
  }

  lemma ReadMore(b: Setup, o: Outcome, s: Segment, arg: string)
    requires Open(s)
    ensures Read(b, o, WithArgument(s, arg)) == WithValue(b, Read(b, o, s), s.keyword, s.binding, arg)
  {
    var t, v := WithArgument(s, arg), s.binding.variable;
    OpenGrows(s, arg);
    assert Given(s) == s.rest && Given(t) == s.rest + [arg] && Left(s) == [] && Left(t) == [];
    AbsorbedMore(s.binding.kind, Get(o.vars, v), s.rest, arg);
    EmptyErrorMore(s, arg);
    MapTwice(o.vars, v, Absorbed(s.binding.kind, Get(o.vars, v), s.rest),
             Absorbed(s.binding.kind, Get(o.vars, v), t.rest));
  }

  lemma MapTwice(vars: map<string, Variable>, name: string, x: Variable, y: Variable)
    ensures vars[name := x][name := y] == vars[name := y] && Get(vars[name := x], name) == x
  {
  }

  lemma TextOpenUntilGiven(s: Segment)
    requires s.binding.kind.NonEmptyText?
    ensures Open(s) ==> s.rest == []
  {
    if s.rest != [] {
      assert !s.binding.kind.Continues(s.at + 0, s.rest[0]);
    }
  }

  /** A NonEmptyText takes one value, so it is blamed for one empty string at most. */
  lemma EmptyErrorMore(s: Segment, arg: string)
    requires Open(s)
    ensures HasEmptyError(WithArgument(s, arg)) <==> HasEmptyError(s) || IsEmptyError(s.binding.kind, arg)
    ensures IsEmptyError(s.binding.kind, arg) ==> !HasEmptyError(s)
  {
    var t := WithArgument(s, arg);
    OpenGrows(s, arg);
    assert t.rest[|s.rest|] == arg;
    assert forall i | 0 <= i < |s.rest| :: t.rest[i] == s.rest[i];
    if s.binding.kind.NonEmptyText? {
      TextOpenUntilGiven(s);
    }
  }

  lemma ReadLeft(b: Setup, o: Outcome, s: Segment, arg: string)
    requires !Open(s)
    ensures Read(b, o, WithArgument(s, arg)) == Unbound(b, Read(b, o, s), arg)
  {
    var t := WithArgument(s, arg);
    ClosedStays(s, arg);
    assert Given(t) == Given(s);
    assert Left(t) == Left(s) + [arg];
    assert o.unparsed + Left(t) == o.unparsed + Left(s) + [arg];
    assert HasEmptyError(t) <==> HasEmptyError(s) by {
      assert forall i | 0 <= i < Taken(s) :: t.rest[i] == s.rest[i];
    }
  }

  /** The outcome of meeting a keyword: its action is called at once. */
  function WithKeyword(o: Outcome, keyword: string, binding: Binding): Outcome {
    o.(parsedKeywords := o.parsedKeywords + [keyword],
       vars := o.vars[binding.variable := Opened(binding.kind, Get(o.vars, binding.variable))])
  }

  lemma ReadNothing(b: Setup, o: Outcome, keyword: string, binding: Binding, at: nat)
    ensures var s := Segment(keyword, binding, at, []);
            && Read(b, o, s) == WithKeyword(o, keyword, binding)
            && Taken(s) == 0 && (Open(s) <==> binding.kind.TakesValues())
  {
    var s := Segment(keyword, binding, at, []);
    AbsorbedNothing(binding.kind, Get(o.vars, binding.variable));
    assert Given(s) == [] && o.unparsed + Left(s) == o.unparsed;
  }

  lemma {:induction false} SegmentsPrefix(b: Setup, o: Outcome, x: seq<Segment>, y: seq<Segment>, n: nat)
    requires n <= |x| && n <= |y| && forall i | 0 <= i < n :: x[i] == y[i]
    ensures OfSegments(b, o, x, n) == OfSegments(b, o, y, n)
  {
    if n > 0 {
      SegmentsPrefix(b, o, x, y, n - 1);
    }
  }

  lemma {:induction false} LeadingPrefix(b: Setup, o: Outcome, x: seq<string>, y: seq<string>, pos: nat, n: nat)
    requires n <= |x| && n <= |y| && forall i | 0 <= i < n :: x[i] == y[i]
    ensures OfLeading(b, o, x, pos, n) == OfLeading(b, o, y, pos, n)
  {
    if n > 0 {
      LeadingPrefix(b, o, x, y, pos, n - 1);
    }
  }

  /** Finishing the last keyword leaves what the split so far means. */
  lemma FinishStep(b: Setup, start: Outcome, pos: nat, split: Split, st: State)
    requires Stands(b, start, pos, split, st)
    ensures Finish(b, st.outcome, st.keyword, st.seen, st.expected) == Meaning(b, start, split, pos)
  {
  }

  /** The state after a keyword. */
  function KeywordState(keyword: string, binding: Binding, finished: Outcome): State {
    State(keyword, 0, binding.kind.Expected(), if binding.kind.TakesValues() then Some(binding) else None, true,
          WithKeyword(finished, keyword, binding))
  }

  /** The state after a value. */
  function ValueState(b: Setup, st: State, at: nat, arg: string): State
    requires st.valueFunc.Some?
  {
    st.(seen := st.seen + 1,
        valueFunc := if st.valueFunc.value.kind.Continues(at, arg) then st.valueFunc else None,
        outcome := WithValue(b, st.outcome, st.keyword, st.valueFunc.value, arg))
  }

  /** The state after an argument that is neither. */
  function OtherState(b: Setup, st: State, at: nat, arg: string): State {
    st.(outcome := if st.done then Unbound(b, st.outcome, arg) else ByPosition(b, st.outcome, at, arg))
  }

  /** The position the next argument has, read off the split. */
  ghost predicate EndsAt(split: Split, pos: nat, at: nat) {
    if split.segments == [] then at == pos + |split.leading|
    else at == split.segments[|split.segments| - 1].at + |split.segments[|split.segments| - 1].rest|
  }

  lemma KeywordInSegment(b: Setup, before: Outcome, keyword: string, binding: Binding, at: nat)
    ensures InSegment(b, before, Segment(keyword, binding, at, []), KeywordState(keyword, binding, before))
  {
    ReadNothing(b, before, keyword, binding, at);
  }

  /** A keyword begins a segment; those before it are finished. */
  lemma SegmentBegins(b: Setup, start: Outcome, pos: nat, split: Split, at: nat, arg: string, binding: Binding)
    returns (more: Split)
    requires Lookup(b.keywords, arg) == Some(binding)
    ensures more == AddArgument(b, split, at, arg) && |more.segments| == |split.segments| + 1
    ensures more.segments[|split.segments|] == Segment(arg, binding, at + 1, [])
    ensures BeforeLast(b, start, pos, more) == Meaning(b, start, split, pos)
  {
    more := AddArgument(b, split, at, arg);
    var o := OfLeading(b, start, split.leading, pos, |split.leading|);
    SegmentsPrefix(b, o, split.segments, more.segments, |split.segments|);
  }

  lemma KeywordStep(b: Setup, start: Outcome, pos: nat, split: Split, st: State, at: nat, arg: string, binding: Binding)
    requires Stands(b, start, pos, split, st) && Lookup(b.keywords, arg) == Some(binding)
    ensures Stands(b, start, pos, AddArgument(b, split, at, arg),
                   KeywordState(arg, binding, Finish(b, st.outcome, st.keyword, st.seen, st.expected)))
  {
    FinishStep(b, start, pos, split, st);
    var more := SegmentBegins(b, start, pos, split, at, arg, binding);
    KeywordInSegment(b, Meaning(b, start, split, pos), arg, binding, at + 1);
  }

  /** An argument that is no keyword goes to the last segment. */
  lemma LastSegmentGrows(b: Setup, split: Split, at: nat, arg: string) returns (more: Split, last: nat)
    requires split.segments != [] && Lookup(b.keywords, arg).None?
    ensures more == AddArgument(b, split, at, arg) && |more.segments| == |split.segments| == last + 1
    ensures more.segments[last] == WithArgument(split.segments[last], arg)
    ensures more.leading == split.leading && forall i | 0 <= i < last :: more.segments[i] == split.segments[i]
  {
    more, last := AddArgument(b, split, at, arg), |split.segments| - 1;
  }

  lemma SameSegment(b: Setup, start: Outcome, pos: nat, split: Split, at: nat, arg: string, st: State)
    requires split.segments != [] && Lookup(b.keywords, arg).None?
    requires InSegment(b, BeforeLast(b, start, pos, split), WithArgument(split.segments[|split.segments| - 1], arg), st)
    ensures Stands(b, start, pos, AddArgument(b, split, at, arg), st)
  {
    var more, last := LastSegmentGrows(b, split, at, arg);
    SegmentsPrefix(b, OfLeading(b, start, split.leading, pos, |split.leading|), split.segments, more.segments, last);
  }

  lemma ValueInSegment(b: Setup, before: Outcome, s: Segment, st: State, arg: string)
    requires InSegment(b, before, s, st) && st.valueFunc.Some?
    ensures InSegment(b, before, WithArgument(s, arg), ValueState(b, st, s.at + |s.rest|, arg))
  {
    OpenGrows(s, arg);
    ReadMore(b, before, s, arg);
  }

  lemma LeftInSegment(b: Setup, before: Outcome, s: Segment, st: State, arg: string)
    requires InSegment(b, before, s, st) && st.valueFunc.None?
    ensures InSegment(b, before, WithArgument(s, arg), st.(outcome := Unbound(b, st.outcome, arg)))
  {
    ClosedStays(s, arg);
    ReadLeft(b, before, s, arg);
  }

  lemma ValueStep(b: Setup, start: Outcome, pos: nat, split: Split, st: State, at: nat, arg: string)
    requires Stands(b, start, pos, split, st) && Lookup(b.keywords, arg).None? && st.valueFunc.Some?
    requires EndsAt(split, pos, at)
    ensures Stands(b, start, pos, AddArgument(b, split, at, arg), ValueState(b, st, at, arg))
  {
    ValueInSegment(b, BeforeLast(b, start, pos, split), split.segments[|split.segments| - 1], st, arg);
    SameSegment(b, start, pos, split, at, arg, ValueState(b, st, at, arg));
  }

  lemma OtherStep(b: Setup, start: Outcome, pos: nat, split: Split, st: State, at: nat, arg: string)
    requires Stands(b, start, pos, split, st) && Lookup(b.keywords, arg).None? && st.valueFunc.None?
    requires EndsAt(split, pos, at)
    ensures Stands(b, start, pos, AddArgument(b, split, at, arg), OtherState(b, st, at, arg))
  {
    if split.segments == [] {
      LeadingPrefix(b, start, split.leading, split.leading + [arg], pos, |split.leading|);
    } else {
      LeftInSegment(b, BeforeLast(b, start, pos, split), split.segments[|split.segments| - 1], st, arg);
      SameSegment(b, start, pos, split, at, arg, st.(outcome := Unbound(b, st.outcome, arg)));
    }
  }

  /** The state after any argument. */
  function NextState(b: Setup, st: State, at: nat, arg: string): State {
    match Lookup(b.keywords, arg)
    case Some(binding) => KeywordState(arg, binding, Finish(b, st.outcome, st.keyword, st.seen, st.expected))
    case None => if st.valueFunc.Some? then ValueState(b, st, at, arg) else OtherState(b, st, at, arg)
  }

  lemma NextStands(b: Setup, start: Outcome, pos: nat, split: Split, st: State, at: nat, arg: string)
    requires Stands(b, start, pos, split, st) && EndsAt(split, pos, at)
    ensures Stands(b, start, pos, AddArgument(b, split, at, arg), NextState(b, st, at, arg))
  {
    var found := Lookup(b.keywords, arg);
    if found.Some? {
      KeywordStep(b, start, pos, split, st, at, arg, found.value);
    } else if st.valueFunc.Some? {
      ValueStep(b, start, pos, split, st, at, arg);
    } else {
      OtherStep(b, start, pos, split, st, at, arg);
    }
  }

  lemma EndsAtStep(b: Setup, split: Split, pos: nat, at: nat, arg: string)
    requires EndsAt(split, pos, at)
    ensures EndsAt(AddArgument(b, split, at, arg), pos, at + 1)
  {
  }

  /** The state after the first i arguments. */
  ghost predicate AfterArguments(b: Setup, start: Outcome, args: seq<string>, pos: nat, i: nat, st: State)
    requires i <= |args|
  {
    var split := SplitUpTo(b, args, pos, i);
    Stands(b, start, pos, split, st) && EndsAt(split, pos, pos + i)
  }

  lemma Next(b: Setup, start: Outcome, args: seq<string>, pos: nat, i: nat, at: nat, split: Split, st: State)
    requires i < |args| && at == pos + i && split == AddArgument(b, SplitUpTo(b, args, pos, i), at, args[i])
    requires Stands(b, start, pos, split, st) && EndsAt(split, pos, at + 1)
    ensures AfterArguments(b, start, args, pos, i + 1, st)
  {
    assert SplitUpTo(b, args, pos, i + 1) == split;
  }

  class Instance {
    const keywords: ActionMap<string, Binding>
    const positions: ActionMap<nat, string>
    const wantsErrors: bool
    const wantsUnparsed: bool

    var outcome: Outcome
    var keyword: string
    var keywordValuesSeen: nat
    var keywordValuesExpected: nat
    var keywordValueFunc: Option<Binding>
    var doneWithPositional: bool

    ghost predicate Valid()
      reads this, keywords, positions
    {
      keywords.Valid() && positions.Valid()
    }

    ghost function TheSetup(): Setup
      reads keywords, positions
    {
      Setup(keywords.entries, positions.entries, wantsErrors, wantsUnparsed)
    }

    ghost function Now(): State
      reads this
    {
      State(keyword, keywordValuesSeen, keywordValuesExpected, keywordValueFunc, doneWithPositional, outcome)
    }

    constructor (keywords: ActionMap<string, Binding>, positions: ActionMap<nat, string>, wantsErrors: bool,
                 wantsUnparsed: bool, outcome: Outcome)
      requires keywords.Valid() && positions.Valid()
      ensures Valid() && Now() == State([], 0, 0, None, false, outcome)
      ensures TheSetup() == Setup(keywords.entries, positions.entries, wantsErrors, wantsUnparsed)
    {
      this.keywords, this.positions := keywords, positions;
      this.wantsErrors, this.wantsUnparsed := wantsErrors, wantsUnparsed;
      this.outcome, keyword := outcome, [];
      keywordValuesSeen, keywordValuesExpected, keywordValueFunc, doneWithPositional := 0, 0, None, false;
    }

    /** Reading all the arguments, the first of which has the given position. */
    method Parse(args: seq<string>, pos: nat)
      requires Valid() && Now() == State([], 0, 0, None, false, outcome)
      modifies this
      ensures outcome == Meaning(TheSetup(), old(outcome), SplitUpTo(TheSetup(), args, pos, |args|), pos)
    {
      ghost var b, start := TheSetup(), outcome;
      ConsumeAll(args, pos, b, start);
      FinishStep(b, start, pos, SplitUpTo(b, args, pos, |args|), Now());
      FinishKeyword();
    }

    /** The loop of Parse. */
    method ConsumeAll(args: seq<string>, pos: nat, ghost b: Setup, ghost start: Outcome)
      requires Valid() && b == TheSetup() && AfterArguments(b, start, args, pos, 0, Now())
      modifies this
      ensures AfterArguments(b, start, args, pos, |args|, Now())
    {
      for i := 0 to |args|
        invariant Valid() && b == TheSetup() && AfterArguments(b, start, args, pos, i, Now())
      {
        Consume(pos + i, args[i], b, args, pos, i, start);
      }
    }

    /** The argument at a position, the i-th of all. */
    method Consume(at: nat, arg: string, ghost b: Setup, ghost args: seq<string>, ghost pos: nat, ghost i: nat,
                   ghost start: Outcome)
      requires Valid() && b == TheSetup() && i < |args| && arg == args[i] && at == pos + i
      requires AfterArguments(b, start, args, pos, i, Now())
      modifies this
      ensures Valid() && b == TheSetup() && AfterArguments(b, start, args, pos, i + 1, Now())
    {
      ghost var split := SplitUpTo(b, args, pos, i);
      ghost var more := AddArgument(b, split, at, arg);
      NextStands(b, start, pos, split, Now(), at, arg);
      EndsAtStep(b, split, pos, at, arg);
      Dispatch(at, arg);
      Next(b, start, args, pos, i, at, more, Now());
    }

    /** The body of Consume. */
    method Dispatch(at: nat, arg: string)
      requires Valid()
      modifies this
      ensures Now() == NextState(TheSetup(), old(Now()), at, arg)
    {
      var found := keywords.Find(arg);
      if found.Some? {
        FinishKeyword();
        StartKeyword(arg, found.value);
        return;
      }
      if keywordValueFunc.Some? {
        GiveValue(at, arg);
        return;
      }
      TakeOther(at, arg);
    }

    method StartKeyword(name: string, binding: Binding)
      modifies this
      ensures Now() == KeywordState(name, binding, old(outcome))
    {
      keyword, keywordValuesSeen, doneWithPositional := name, 0, true;
      outcome := outcome.(parsedKeywords := outcome.parsedKeywords + [name]);
      Bind(binding);
    }

    /** A positional argument or an unparsed one. */
    method TakeOther(at: nat, arg: string)
      requires Valid()
      modifies this`outcome
      ensures Now() == OtherState(TheSetup(), old(Now()), at, arg)
    {
      if !doneWithPositional {
        var action := positions.Find(at);
        if action.Some? {
          outcome := outcome.(positional := outcome.positional + [(action.value, at, arg)]);
          return;
        }
      }
      if wantsUnparsed {
        outcome := outcome.(unparsed := outcome.unparsed + [arg]);
      }
    }

    /** The keyword's action. */
    method Bind(binding: Binding)
      modifies this
      ensures Now() == old(Now()).(expected := binding.kind.Expected(),
                                   valueFunc := if binding.kind.TakesValues() then Some(binding) else None,
                                   outcome := old(outcome).(vars := old(outcome).vars[binding.variable :=
                                     Opened(binding.kind, Get(old(outcome).vars, binding.variable))]))
    {
      var v := Get(outcome.vars, binding.variable);
      if binding.kind.Flag? {
        v := v.(isSet := true);
      } else if binding.kind.ListOfLists? {
        v := v.(lists := v.lists + [[]]);
      }
      outcome := outcome.(vars := outcome.vars[binding.variable := v]);
      keywordValueFunc := if binding.kind.Flag? then None else Some(binding);
      keywordValuesExpected := binding.kind.Expected();
    }

    method GiveValue(at: nat, arg: string)
      requires keywordValueFunc.Some?
      modifies this
      ensures Now() == ValueState(TheSetup(), old(Now()), at, arg)
    {
      var binding := keywordValueFunc.value;
      if binding.kind.NonEmptyText? && arg == [] && wantsErrors {
        AddKeywordError(keyword, EmptyString);
      }
      var v := Stored(binding.kind, Get(outcome.vars, binding.variable), arg);
      outcome := outcome.(vars := outcome.vars[binding.variable := v]);
      if !binding.kind.Continues(at, arg) {
        keywordValueFunc := None;
      }
      keywordValuesSeen := keywordValuesSeen + 1;
    }

    method AddKeywordError(name: string, p: Problem)
      modifies this`outcome
      ensures outcome == old(outcome).(errors := AddError(old(outcome).errors, name, p))
    {
      outcome := outcome.(errors := AddError(outcome.errors, name, p));
    }

    method FinishKeyword()
      modifies this`outcome
      ensures outcome == Finish(TheSetup(), old(outcome), keyword, keywordValuesSeen, keywordValuesExpected)
    {
      if keyword == [] {
        return;
      }
      if keywordValuesSeen < keywordValuesExpected {
        if wantsErrors {
          AddKeywordError(keyword, MissingValue);
        }
        outcome := outcome.(missing := outcome.missing + [keyword]);
      }
    }
  }

  // ---- What follows for the arguments as a whole ----

  /** Some part of each segment, one after the other. */
  function Flat(part: Segment -> seq<string>, segments: seq<Segment>, n: nat): seq<string>
    requires n <= |segments|
  {
    if n == 0 then [] else Flat(part, segments, n - 1) + part(segments[n - 1])
  }

  lemma FlatAppends(start: seq<string>, part: Segment -> seq<string>, segments: seq<Segment>, n: nat)
    requires 0 < n <= |segments|
    ensures start + Flat(part, segments, n) == start + Flat(part, segments, n - 1) + part(segments[n - 1])
  {
    Associative(start, Flat(part, segments, n - 1), part(segments[n - 1]));
  }

  function KeywordOf(s: Segment): seq<string> {
    [s.keyword]
  }

  function Whole(s: Segment): seq<string> {
    [s.keyword] + s.rest
  }

  lemma {:induction false} JoinedIsFlat(segments: seq<Segment>, n: nat)
    requires n <= |segments|
    ensures JoinedUpTo(segments, n) == Flat(Whole, segments, n)
  {
    if n > 0 {
      JoinedIsFlat(segments, n - 1);
      Associative(JoinedUpTo(segments, n - 1), [segments[n - 1].keyword], segments[n - 1].rest);
    }
  }

  function MissingOf(s: Segment): seq<string> {
    if s.keyword != [] && Taken(s) < s.binding.kind.Expected() then [s.keyword] else []
  }

  function Errors(errors: map<string, seq<Problem>>, name: string): seq<Problem> {
    if name in errors then errors[name] else []
  }

  /** What one occurrence of a keyword is blamed for. */
  function ProblemsOf(s: Segment): seq<Problem> {
    (if HasEmptyError(s) then [EmptyString] else []) + (if MissingOf(s) != [] then [MissingValue] else [])
  }

  /** What the occurrences of a keyword in the first n segments are blamed for, if the caller wants to know. */
  function Problems(b: Setup, segments: seq<Segment>, name: string, n: nat): seq<Problem>
    requires n <= |segments|
  {
    if n == 0 then [] else Problems(b, segments, name, n - 1) + ProblemsUnder(b, segments[n - 1], name)
  }

  function ProblemsUnder(b: Setup, s: Segment, name: string): seq<Problem> {
    if b.wantsErrors && s.keyword == name then ProblemsOf(s) else []
  }

  lemma ErrorsOfSegment(b: Setup, o: Outcome, s: Segment, name: string)
    ensures Errors(Finished(b, Read(b, o, s), s).errors, name) == Errors(o.errors, name) + ProblemsUnder(b, s, name)
  {
  }

  lemma ErrorsNext(b: Setup, o: Outcome, segments: seq<Segment>, name: string, n: nat)
    requires 0 < n <= |segments|
    ensures Errors(OfSegments(b, o, segments, n).errors, name) ==
            Errors(OfSegments(b, o, segments, n - 1).errors, name) + ProblemsUnder(b, segments[n - 1], name)
  {
    ErrorsOfSegment(b, OfSegments(b, o, segments, n - 1), segments[n - 1], name);
  }

  lemma ProblemsAppend(start: seq<Problem>, b: Setup, segments: seq<Segment>, name: string, n: nat)
    requires 0 < n <= |segments|
    ensures start + Problems(b, segments, name, n) ==
            start + Problems(b, segments, name, n - 1) + ProblemsUnder(b, segments[n - 1], name)
  {
    Associative(start, Problems(b, segments, name, n - 1), ProblemsUnder(b, segments[n - 1], name));
  }

  lemma {:induction false} ErrorsOfSegments(b: Setup, o: Outcome, segments: seq<Segment>, name: string, n: nat)
    requires n <= |segments|
    ensures Errors(OfSegments(b, o, segments, n).errors, name) ==
            Errors(o.errors, name) + Problems(b, segments, name, n)
  {
    if n == 0 {
      assert Errors(o.errors, name) + [] == Errors(o.errors, name);
    } else {
      ErrorsOfSegments(b, o, segments, name, n - 1);
      ErrorsNext(b, o, segments, name, n);
      ProblemsAppend(Errors(o.errors, name), b, segments, name, n);
    }
  }

  lemma {:induction false} ErrorsOfLeading(b: Setup, o: Outcome, leading: seq<string>, pos: nat, n: nat)
    requires n <= |leading|
    ensures OfLeading(b, o, leading, pos, n).errors == o.errors
  {
    if n > 0 {
      ErrorsOfLeading(b, o, leading, pos, n - 1);
    }
  }

  /** The errors recorded under a keyword: for each of its occurrences, in order, what that occurrence is blamed for;
      none if the caller wants no errors. */
  lemma ErrorsReported(b: Setup, start: Outcome, split: Split, pos: nat, name: string)
    ensures Errors(Meaning(b, start, split, pos).errors, name) ==
            Errors(start.errors, name) + Problems(b, split.segments, name, |split.segments|)
  {
    ErrorsOfLeading(b, start, split.leading, pos, |split.leading|);
    ErrorsOfSegments(b, OfLeading(b, start, split.leading, pos, |split.leading|), split.segments, name,
                     |split.segments|);
  }

  // ---- The positional and the unparsed arguments, in order ----

  /** The calls of positional actions for the first n arguments before any keyword. */
  function BoundLeading(b: Setup, leading: seq<string>, pos: nat, n: nat): seq<(string, nat, string)>
    requires n <= |leading|
  {
    if n == 0 then [] else BoundLeading(b, leading, pos, n - 1) + BoundAt(b, pos + n - 1, leading[n - 1])
  }

  /** Is there an action for the position? */
  predicate IsBound(b: Setup, pos: nat) {
    Lookup(b.positions, pos).Some?
  }

  function BoundAt(b: Setup, pos: nat, arg: string): seq<(string, nat, string)> {
    match Lookup(b.positions, pos)
    case Some(action) => [(action, pos, arg)]
    case None => []
  }

  /** Those of them that no positional action takes, if the caller wants to know. */
  function UnboundLeading(b: Setup, leading: seq<string>, pos: nat, n: nat): seq<string>
    requires n <= |leading|
  {
    if n == 0 then []
    else UnboundLeading(b, leading, pos, n - 1) + UnboundAt(b, pos + n - 1, leading[n - 1])
  }

  function UnboundAt(b: Setup, pos: nat, arg: string): seq<string> {
    if b.wantsUnparsed && !IsBound(b, pos) then [arg] else []
  }

  lemma {:induction false} PositionalOfLeading(b: Setup, o: Outcome, leading: seq<string>, pos: nat, n: nat)
    requires n <= |leading|
    ensures OfLeading(b, o, leading, pos, n).positional == o.positional + BoundLeading(b, leading, pos, n)
    ensures OfLeading(b, o, leading, pos, n).parsedKeywords == o.parsedKeywords
  {
    if n == 0 {
      assert o.positional + [] == o.positional;
    } else {
      PositionalOfLeading(b, o, leading, pos, n - 1);
      Associative(o.positional, BoundLeading(b, leading, pos, n - 1), BoundAt(b, pos + n - 1, leading[n - 1]));
    }
  }

  lemma {:induction false} UnparsedOfLeading(b: Setup, o: Outcome, leading: seq<string>, pos: nat, n: nat)
    requires n <= |leading|
    ensures OfLeading(b, o, leading, pos, n).unparsed == o.unparsed + UnboundLeading(b, leading, pos, n)
  {
    if n == 0 {
      assert o.unparsed + [] == o.unparsed;
    } else {
      UnparsedOfLeading(b, o, leading, pos, n - 1);
      Associative(o.unparsed, UnboundLeading(b, leading, pos, n - 1), UnboundAt(b, pos + n - 1, leading[n - 1]));
    }
  }

  /** Positional actions are called for exactly the bound positions before the first keyword, in order. */
  lemma PositionalReported(b: Setup, start: Outcome, split: Split, pos: nat)
    ensures Meaning(b, start, split, pos).positional ==
            start.positional + BoundLeading(b, split.leading, pos, |split.leading|)
  {
    PositionalOfLeading(b, start, split.leading, pos, |split.leading|);
    KeywordsOfSegments(b, OfLeading(b, start, split.leading, pos, |split.leading|), split.segments, |split.segments|);
  }

  /** What is left after the values of the first n keywords, if the caller wants to know. */
  function UnparsedUpTo(b: Setup, segments: seq<Segment>, n: nat): seq<string>
    requires n <= |segments|
  {
    if n == 0 then [] else UnparsedUpTo(b, segments, n - 1) + UnparsedOf(b, segments[n - 1])
  }

  function UnparsedOf(b: Setup, s: Segment): seq<string> {
    if b.wantsUnparsed then Left(s) else []
  }

  function UnparsedArguments(b: Setup, split: Split, pos: nat): seq<string> {
    UnboundLeading(b, split.leading, pos, |split.leading|) + UnparsedUpTo(b, split.segments, |split.segments|)
  }

  /** The unparsed arguments, in order: first the unbound ones before any keyword, then what each keyword has left. */
  lemma UnparsedReported(b: Setup, start: Outcome, split: Split, pos: nat)
    ensures Meaning(b, start, split, pos).unparsed == start.unparsed + UnparsedArguments(b, split, pos)
  {
    var o := OfLeading(b, start, split.leading, pos, |split.leading|);
    UnparsedOfLeading(b, start, split.leading, pos, |split.leading|);
    UnparsedOfSegments(b, o, split.segments, |split.segments|, Meaning(b, start, split, pos).unparsed,
                       UnparsedUpTo(b, split.segments, |split.segments|));
    Associative(start.unparsed, UnboundLeading(b, split.leading, pos, |split.leading|),
                UnparsedUpTo(b, split.segments, |split.segments|));
  }

  lemma {:induction false} KeywordsOfSegments(b: Setup, o: Outcome, segments: seq<Segment>, n: nat)
    requires n <= |segments|
    ensures OfSegments(b, o, segments, n).parsedKeywords == o.parsedKeywords + Flat(KeywordOf, segments, n)
    ensures OfSegments(b, o, segments, n).positional == o.positional
  {
    if n == 0 {
      assert o.parsedKeywords + [] == o.parsedKeywords;
    } else {
      KeywordsOfSegments(b, o, segments, n - 1);
      FlatAppends(o.parsedKeywords, KeywordOf, segments, n);
    }
  }

  lemma {:induction false} UnparsedOfSegments(b: Setup, o: Outcome, segments: seq<Segment>, n: nat, after: seq<string>,
                                              left: seq<string>)
    requires n <= |segments| && after == OfSegments(b, o, segments, n).unparsed && left == UnparsedUpTo(b, segments, n)
    ensures after == o.unparsed + left
  {
    if n == 0 {
      assert o.unparsed + [] == o.unparsed;
    } else {
      var before, leftBefore := OfSegments(b, o, segments, n - 1).unparsed, UnparsedUpTo(b, segments, n - 1);
      UnparsedOfSegments(b, o, segments, n - 1, before, leftBefore);
      UnparsedNext(b, o, segments, n);
      Appended(o.unparsed, leftBefore, UnparsedOf(b, segments[n - 1]), before, after, left);
    }
  }

  lemma UnparsedNext(b: Setup, o: Outcome, segments: seq<Segment>, n: nat)
    requires 0 < n <= |segments|
    ensures OfSegments(b, o, segments, n).unparsed ==
            OfSegments(b, o, segments, n - 1).unparsed + UnparsedOf(b, segments[n - 1])
  {
  }

  lemma {:induction false} UnparsedIsLeft(b: Setup, segments: seq<Segment>, n: nat)
    requires b.wantsUnparsed && n <= |segments|
    ensures UnparsedUpTo(b, segments, n) == Flat(Left, segments, n)
  {
    if n > 0 {
      UnparsedIsLeft(b, segments, n - 1);
    }
  }

  lemma {:induction false} MissingOfSegments(b: Setup, o: Outcome, segments: seq<Segment>, n: nat, after: seq<string>,
                                             reported: seq<string>)
    requires n <= |segments| && after == OfSegments(b, o, segments, n).missing
    requires reported == Flat(MissingOf, segments, n)
    ensures after == o.missing + reported
  {
    if n == 0 {
      assert o.missing + [] == o.missing;
    } else {
      var before, sofar := OfSegments(b, o, segments, n - 1).missing, Flat(MissingOf, segments, n - 1);
      MissingOfSegments(b, o, segments, n - 1, before, sofar);
      MissingNext(b, o, segments, n);
      Appended(o.missing, sofar, MissingOf(segments[n - 1]), before, after, reported);
    }
  }

  lemma MissingNext(b: Setup, o: Outcome, segments: seq<Segment>, n: nat)
    requires 0 < n <= |segments|
    ensures OfSegments(b, o, segments, n).missing ==
            OfSegments(b, o, segments, n - 1).missing + MissingOf(segments[n - 1])
  {
  }

  lemma {:induction false} MissingOfLeading(b: Setup, o: Outcome, leading: seq<string>, pos: nat, n: nat)
    requires n <= |leading|
    ensures OfLeading(b, o, leading, pos, n).missing == o.missing
  {
    if n > 0 {
      MissingOfLeading(b, o, leading, pos, n - 1);
    }
  }

  /** A missing value is reported for exactly the keyword occurrences with too few values, in order, and an empty
      keyword is never reported. */
  lemma MissingReported(b: Setup, start: Outcome, split: Split, pos: nat)
    ensures Meaning(b, start, split, pos).missing == start.missing + Flat(MissingOf, split.segments, |split.segments|)
  {
    MissingOfLeading(b, start, split.leading, pos, |split.leading|);
    MissingOfSegments(b, OfLeading(b, start, split.leading, pos, |split.leading|), split.segments, |split.segments|,
                      Meaning(b, start, split, pos).missing, Flat(MissingOf, split.segments, |split.segments|));
  }

  /** What a variable holds after the first n segments, if it held v before. */
  function Held(segments: seq<Segment>, variable: string, v: Variable, n: nat): Variable
    requires n <= |segments|
  {
    if n == 0 then v
    else
      var before := Held(segments, variable, v, n - 1);
      var s := segments[n - 1];
      if s.binding.variable == variable then Absorbed(s.binding.kind, before, Given(s)) else before
  }

  lemma {:induction false} VariableOfSegments(b: Setup, o: Outcome, segments: seq<Segment>, variable: string, n: nat)
    requires n <= |segments|
    ensures Get(OfSegments(b, o, segments, n).vars, variable) == Held(segments, variable, Get(o.vars, variable), n)
  {
    if n > 0 {
      VariableOfSegments(b, o, segments, variable, n - 1);
      VariableNext(b, o, segments, variable, n);
    }
  }

  lemma VariableNext(b: Setup, o: Outcome, segments: seq<Segment>, variable: string, n: nat)
    requires 0 < n <= |segments|
    ensures var s, before := segments[n - 1], Get(OfSegments(b, o, segments, n - 1).vars, variable);
            Get(OfSegments(b, o, segments, n).vars, variable) ==
            if s.binding.variable == variable then Absorbed(s.binding.kind, before, Given(s)) else before
  {
  }

  lemma {:induction false} VariablesOfLeading(b: Setup, o: Outcome, leading: seq<string>, pos: nat, n: nat)
    requires n <= |leading|
    ensures OfLeading(b, o, leading, pos, n).vars == o.vars
  {
    if n > 0 {
      VariablesOfLeading(b, o, leading, pos, n - 1);
    }
  }

  /** A variable holds what the occurrences of its keywords give it, one after the other, and nothing else. */
  lemma VariableReported(b: Setup, start: Outcome, split: Split, pos: nat, variable: string)
    ensures Get(Meaning(b, start, split, pos).vars, variable) ==
            Held(split.segments, variable, Get(start.vars, variable), |split.segments|)
  {
    VariablesOfLeading(b, start, split.leading, pos, |split.leading|);
    VariableOfSegments(b, OfLeading(b, start, split.leading, pos, |split.leading|), split.segments, variable,
                       |split.segments|);
  }

  /** A list that a single kind of keyword fills holds all their values in order. */
  lemma {:induction false} ListHoldsAll(segments: seq<Segment>, variable: string, v: Variable, n: nat)
    requires n <= |segments|
    requires forall i | 0 <= i < n && segments[i].binding.variable == variable ::
               segments[i].binding.kind.MaybeEmptyList? || segments[i].binding.kind.NonEmptyList?
    ensures Held(segments, variable, v, n).list == v.list + Flat(GivenTo(variable), segments, n)
  {
    if n > 0 {
      ListHoldsAll(segments, variable, v, n - 1);
      Associative(v.list, Flat(GivenTo(variable), segments, n - 1), GivenTo(variable)(segments[n - 1]));
    }
  }

  function GivenTo(variable: string): Segment -> seq<string> {
    (s: Segment) => if s.binding.variable == variable then Given(s) else []
  }

  function PositionalArguments(calls: seq<(string, nat, string)>): seq<string> {
    if calls == [] then [] else PositionalArguments(calls[..|calls| - 1]) + [calls[|calls| - 1].2]
  }

  function Count(args: seq<string>, x: string): nat {
    CountUpTo(args, |args|, x)
  }

  function CountUpTo(args: seq<string>, n: nat, x: string): nat
    requires n <= |args|
  {
    if n == 0 then 0 else CountUpTo(args, n - 1, x) + if args[n - 1] == x then 1 else 0
  }

  /** How often x was met as a keyword, left unparsed, or passed to a positional action. */
  function Uses(o: Outcome, x: string): nat {
    Count(o.parsedKeywords, x) + Count(o.unparsed, x) + Count(PositionalArguments(o.positional), x)
  }

  lemma {:induction false} CountPrefix(a: seq<string>, b: seq<string>, n: nat, x: string)
    requires n <= |a| && n <= |b| && forall i | 0 <= i < n :: a[i] == b[i]
    ensures CountUpTo(a, n, x) == CountUpTo(b, n, x)
  {
    if n > 0 {
      CountPrefix(a, b, n - 1, x);
    }
  }

  lemma {:induction false} CountAppended(a: seq<string>, b: seq<string>, n: nat, x: string)
    requires n <= |b|
    ensures CountUpTo(a + b, |a| + n, x) == Count(a, x) + CountUpTo(b, n, x)
  {
    if n == 0 {
      CountPrefix(a + b, a, |a|, x);
    } else {
      CountAppended(a, b, n - 1, x);
    }
  }

  lemma CountConcat(a: seq<string>, b: seq<string>, x: string)
    ensures Count(a + b, x) == Count(a, x) + Count(b, x)
  {
    CountAppended(a, b, |b|, x);
  }

  /** How often x is among the first n arguments and is bound, and how often it is unbound. */
  function BoundCount(b: Setup, leading: seq<string>, pos: nat, n: nat, x: string): nat
    requires n <= |leading|
  {
    if n == 0 then 0
    else BoundCount(b, leading, pos, n - 1, x)
         + if IsBound(b, pos + n - 1) && leading[n - 1] == x then 1 else 0
  }

  function UnboundCount(b: Setup, leading: seq<string>, pos: nat, n: nat, x: string): nat
    requires n <= |leading|
  {
    if n == 0 then 0
    else UnboundCount(b, leading, pos, n - 1, x)
         + if !IsBound(b, pos + n - 1) && leading[n - 1] == x then 1 else 0
  }

  /** An argument before any keyword is bound or unbound. */
  lemma {:induction false} LeadingCounts(b: Setup, leading: seq<string>, pos: nat, n: nat, x: string)
    requires n <= |leading|
    ensures CountUpTo(leading, n, x) == BoundCount(b, leading, pos, n, x) + UnboundCount(b, leading, pos, n, x)
  {
    if n > 0 {
      LeadingCounts(b, leading, pos, n - 1, x);
    }
  }

  lemma CountOne(arg: string, x: string)
    ensures Count([arg], x) == if arg == x then 1 else 0
  {
    assert CountUpTo([arg], 0, x) == 0;
  }

  lemma {:induction false} BoundIsCounted(b: Setup, leading: seq<string>, pos: nat, n: nat, x: string,
                                          calls: seq<(string, nat, string)>)
    requires n <= |leading| && calls == BoundLeading(b, leading, pos, n)
    ensures Count(PositionalArguments(calls), x) == BoundCount(b, leading, pos, n, x)
  {
    if n == 0 {
      assert PositionalArguments(calls) == [];
    } else {
      var before := BoundLeading(b, leading, pos, n - 1);
      BoundIsCounted(b, leading, pos, n - 1, x, before);
      CallsCount(before, BoundAt(b, pos + n - 1, leading[n - 1]), x);
      OneBound(b, pos + n - 1, leading[n - 1], x);
    }
  }

  lemma OneBound(b: Setup, pos: nat, arg: string, x: string)
    ensures Count(PositionalArguments(BoundAt(b, pos, arg)), x) ==
            if IsBound(b, pos) && arg == x then 1 else 0
  {
    CountOne(arg, x);
    if IsBound(b, pos) {
      var calls := BoundAt(b, pos, arg);
      assert PositionalArguments(calls) == [] + [arg] == [arg];
    }
  }

  lemma {:induction false} UnboundIsCounted(b: Setup, leading: seq<string>, pos: nat, n: nat, x: string,
                                            args: seq<string>)
    requires b.wantsUnparsed && n <= |leading| && args == UnboundLeading(b, leading, pos, n)
    ensures Count(args, x) == UnboundCount(b, leading, pos, n, x)
  {
    if n == 0 {
      assert args == [];
    } else {
      var before := UnboundLeading(b, leading, pos, n - 1);
      UnboundIsCounted(b, leading, pos, n - 1, x, before);
      CountConcat(before, UnboundAt(b, pos + n - 1, leading[n - 1]), x);
      CountOne(leading[n - 1], x);
    }
  }

  lemma {:induction false} CallsConcat(a: seq<(string, nat, string)>, b: seq<(string, nat, string)>)
    ensures PositionalArguments(a + b) == PositionalArguments(a) + PositionalArguments(b)
  {
    if b == [] {
      assert a + b == a;
    } else {
      CallsConcat(a, b[..|b| - 1]);
      assert (a + b)[..|a + b| - 1] == a + b[..|b| - 1];
    }
  }

  lemma CallsCount(a: seq<(string, nat, string)>, b: seq<(string, nat, string)>, x: string)
    ensures Count(PositionalArguments(a + b), x) == Count(PositionalArguments(a), x) + Count(PositionalArguments(b), x)
  {
    CallsConcat(a, b);
    CountConcat(PositionalArguments(a), PositionalArguments(b), x);
  }

  lemma LeadingUses(b: Setup, o: Outcome, leading: seq<string>, pos: nat, x: string)
    requires b.wantsUnparsed
    ensures Uses(OfLeading(b, o, leading, pos, |leading|), x) == Uses(o, x) + Count(leading, x)
  {
    PositionalOfLeading(b, o, leading, pos, |leading|);
    UnparsedOfLeading(b, o, leading, pos, |leading|);
    CallsCount(o.positional, BoundLeading(b, leading, pos, |leading|), x);
    CountConcat(o.unparsed, UnboundLeading(b, leading, pos, |leading|), x);
    BoundIsCounted(b, leading, pos, |leading|, x, BoundLeading(b, leading, pos, |leading|));
    UnboundIsCounted(b, leading, pos, |leading|, x, UnboundLeading(b, leading, pos, |leading|));
    LeadingCounts(b, leading, pos, |leading|, x);
  }

  lemma WholeParts(s: Segment, x: string)
    ensures Count(Whole(s), x) == Count(KeywordOf(s), x) + Count(Left(s), x) + Count(Given(s), x)
  {
    assert s.rest == Given(s) + Left(s);
    CountConcat(Given(s), Left(s), x);
    CountConcat([s.keyword], s.rest, x);
  }

  /** If the parts of each segment add up, so do the parts of all. */
  lemma {:induction false} PartsAddUp(whole: Segment -> seq<string>, f: Segment -> seq<string>,
                                      g: Segment -> seq<string>, h: Segment -> seq<string>,
                                      segments: seq<Segment>, n: nat, x: string)
    requires n <= |segments|
    requires forall s :: Count(whole(s), x) == Count(f(s), x) + Count(g(s), x) + Count(h(s), x)
    ensures Count(Flat(whole, segments, n), x) ==
            Count(Flat(f, segments, n), x) + Count(Flat(g, segments, n), x) + Count(Flat(h, segments, n), x)
  {
    if n > 0 {
      PartsAddUp(whole, f, g, h, segments, n - 1, x);
      FlatNext(whole, segments, n, x);
      FlatNext(f, segments, n, x);
      FlatNext(g, segments, n, x);
      FlatNext(h, segments, n, x);
    }
  }

  lemma FlatNext(part: Segment -> seq<string>, segments: seq<Segment>, n: nat, x: string)
    requires 0 < n <= |segments|
    ensures Count(Flat(part, segments, n), x) == Count(Flat(part, segments, n - 1), x) + Count(part(segments[n - 1]), x)
  {
    CountConcat(Flat(part, segments, n - 1), part(segments[n - 1]), x);
  }

  lemma SegmentsUses(b: Setup, o: Outcome, segments: seq<Segment>, x: string)
    requires b.wantsUnparsed
    ensures Uses(OfSegments(b, o, segments, |segments|), x) + Count(Flat(Given, segments, |segments|), x) ==
            Uses(o, x) + Count(JoinedUpTo(segments, |segments|), x)
  {
    KeywordsOfSegments(b, o, segments, |segments|);
    UnparsedOfSegments(b, o, segments, |segments|, OfSegments(b, o, segments, |segments|).unparsed,
                       UnparsedUpTo(b, segments, |segments|));
    JoinedIsFlat(segments, |segments|);
    UnparsedIsLeft(b, segments, |segments|);
    forall s ensures Count(Whole(s), x) == Count(KeywordOf(s), x) + Count(Left(s), x) + Count(Given(s), x) {
      WholeParts(s, x);
    }
    PartsAddUp(Whole, KeywordOf, Left, Given, segments, |segments|, x);
    CountConcat(o.parsedKeywords, Flat(KeywordOf, segments, |segments|), x);
    CountConcat(o.unparsed, Flat(Left, segments, |segments|), x);
  }

  /** No argument is lost or used twice: each occurrence is a keyword, a value of a keyword, a positional argument or
      left unparsed. */
  lemma EveryArgumentPlaced(b: Setup, start: Outcome, args: seq<string>, pos: nat, x: string)
    requires b.wantsUnparsed
    ensures var split := SplitUpTo(b, args, pos, |args|);
            Uses(Meaning(b, start, split, pos), x) + Count(Flat(Given, split.segments, |split.segments|), x) ==
            Uses(start, x) + Count(args, x)
  {
    var split := SplitUpTo(b, args, pos, |args|);
    SplitIsSplit(b, args, pos, |args|);
    assert args[..|args|] == args;
    LeadingUses(b, start, split.leading, pos, x);
    SegmentsUses(b, OfLeading(b, start, split.leading, pos, |split.leading|), split.segments, x);
    CountConcat(split.leading, JoinedUpTo(split.segments, |split.segments|), x);
  }
}
