/** What the library promises of each kind of variable (cmArgumentParserTypes.h and the Bind functions of
    cmArgumentParser.cxx), said of a keyword's segment without asking any value function. */
module ArgumentKinds {
  import opened Options
  import opened Sequences
  import opened ActionMaps
  import opened ArgumentSegments
  import opened ArgumentParser

  predicate IsText(kind: Kind) {
    kind.Text? || kind.NonEmptyText? || kind.MaybeText?
  }

  predicate IsList(kind: Kind) {
    kind.MaybeEmptyList? || kind.NonEmptyList? || kind.ListOfLists?
  }

  lemma {:induction false} TakenByKind(s: Segment)
    ensures s.binding.kind.Flag? ==> Taken(s) == 0
    ensures IsText(s.binding.kind) ==> Taken(s) == if s.rest == [] then 0 else 1
    ensures IsList(s.binding.kind) ==> Taken(s) == |s.rest|
  {
    if IsText(s.binding.kind) && s.rest != [] {
      StopsAt(s, 0, 0);
    } else if IsList(s.binding.kind) {
      OpenTakesAll(s, 0);
    }
  }

  lemma Slices(args: seq<string>)
    ensures args[..0] == [] && args[0..] == args && args[..|args|] == args && args[|args|..] == []
    ensures args != [] ==> args[..1] == [args[0]]
  {
  }

  /** A flag takes nothing, a text takes the first argument of its segment if there is one, and a list takes them
      all. */
  predicate SharedByKind(kind: Kind, rest: seq<string>, given: seq<string>, left: seq<string>) {
    && (kind.Flag? ==> given == [] && left == rest)
    && (IsText(kind) && rest == [] ==> given == [] && left == [])
    && (IsText(kind) && rest != [] ==> given == [rest[0]] && left == rest[1..])
    && (IsList(kind) ==> given == rest && left == [])
  }

  lemma GivenByKind(s: Segment)
    ensures SharedByKind(s.binding.kind, s.rest, Given(s), Left(s))
  {
    TakenByKind(s);
    Slices(s.rest);
  }

  /** A callback is given arguments for as long as it answers Yes, and the one at which it answers No. */
  lemma GivenToCallback(s: Segment, continues: (nat, string) -> bool, atLeast: nat)
    requires s.binding.kind == Callback(continues, atLeast)
    ensures Given(s) + Left(s) == s.rest
    ensures forall i | 0 <= i < |Given(s)| - 1 :: continues(s.at + i, s.rest[i])
    ensures Left(s) != [] ==>
              Given(s) != [] && !continues(s.at + |Given(s)| - 1, s.rest[|Given(s)| - 1])
  {
    TakenIsLongestPrefix(s);
    assert s.binding.kind.TakesValues();
    forall i | 0 <= i < |Given(s)| - 1 ensures continues(s.at + i, s.rest[i]) {
      assert s.binding.kind.Continues(s.at + i, s.rest[i]);
    }
  }

  predicate NeedsValue(kind: Kind) {
    kind.Text? || kind.NonEmptyText? || kind.NonEmptyList?
  }

  /** A keyword is reported as missing its value when it is not empty and a text or a non-empty list gets nothing, or a
      callback gets less than it expects; no other keyword ever is. */
  lemma MissingByKind(s: Segment)
    ensures MissingOf(s) == [] || MissingOf(s) == [s.keyword]
    ensures s.keyword == [] ==> MissingOf(s) == []
    ensures s.keyword != [] && NeedsValue(s.binding.kind) ==> (MissingOf(s) != [] <==> s.rest == [])
    ensures !NeedsValue(s.binding.kind) && !s.binding.kind.Callback? ==> MissingOf(s) == []
    ensures s.keyword != [] && s.binding.kind.Callback? ==>
              (MissingOf(s) != [] <==> |Given(s)| < s.binding.kind.atLeast)
  {
    GivenByKind(s);
  }

  /** The first argument after a keyword is the empty string, where that is not allowed. */
  predicate EmptyWhereForbidden(s: Segment) {
    s.binding.kind.NonEmptyText? && s.rest != [] && s.rest[0] == ""
  }

  /** What an occurrence is blamed for: an empty text where none is allowed, or a missing value, and never both. */
  lemma BlamedByKind(s: Segment)
    ensures EmptyWhereForbidden(s) ==> ProblemsOf(s) == [EmptyString]
    ensures MissingOf(s) != [] && !EmptyWhereForbidden(s) ==> ProblemsOf(s) == [MissingValue]
    ensures MissingOf(s) == [] && !EmptyWhereForbidden(s) ==> ProblemsOf(s) == []
    ensures MissingOf(s) != [] ==> !EmptyWhereForbidden(s)
  {
    GivenByKind(s);
    MissingByKind(s);
    if EmptyWhereForbidden(s) {
      assert IsEmptyError(s.binding.kind, s.rest[0]);
    }
  }

  /** What an occurrence of a keyword does to its variable, by the kind of the variable. */
  lemma StoredByKind(s: Segment, v: Variable)
    ensures var after := Absorbed(s.binding.kind, v, Given(s));
            && (s.binding.kind.Flag? ==> after == Variable(true, v.text, v.list, v.lists))
            && (IsText(s.binding.kind) && s.rest == [] ==> after == v)
            && (IsText(s.binding.kind) && s.rest != [] ==> after == Variable(v.isSet, s.rest[0], v.list, v.lists))
            && (s.binding.kind.MaybeEmptyList? || s.binding.kind.NonEmptyList? ==>
                  after == Variable(v.isSet, v.text, v.list + s.rest, v.lists))
            && (s.binding.kind.ListOfLists? ==> after == Variable(v.isSet, v.text, v.list, v.lists + [s.rest]))
  {
    GivenByKind(s);
  }

  function RestsOf(segments: seq<Segment>, variable: string, n: nat): seq<string>
    requires n <= |segments|
  {
    if n == 0 then []
    else
      RestsOf(segments, variable, n - 1)
      + if segments[n - 1].binding.variable == variable then segments[n - 1].rest else []
  }

  predicate OnlyLists(segments: seq<Segment>, variable: string) {
    forall i | 0 <= i < |segments| && segments[i].binding.variable == variable ::
      segments[i].binding.kind.MaybeEmptyList? || segments[i].binding.kind.NonEmptyList?
  }

  lemma {:induction false} HeldList(segments: seq<Segment>, variable: string, v: Variable, n: nat)
    requires n <= |segments| && OnlyLists(segments, variable)
    ensures Held(segments, variable, v, n).list == v.list + RestsOf(segments, variable, n)
  {
    if n == 0 {
      assert v.list + [] == v.list;
    } else {
      var before := Held(segments, variable, v, n - 1);
      HeldList(segments, variable, v, n - 1);
      StoredByKind(segments[n - 1], before);
      Associative(v.list, RestsOf(segments, variable, n - 1),
                  if segments[n - 1].binding.variable == variable then segments[n - 1].rest else []);
      assert before.list + [] == before.list;
    }
  }

  /** After a run, a list holds what it held before and then everything that follows its keywords, in order. */
  lemma ListHoldsEverything(b: Setup, start: Outcome, split: Split, pos: nat, variable: string)
    requires OnlyLists(split.segments, variable)
    ensures Get(Meaning(b, start, split, pos).vars, variable).list ==
            Get(start.vars, variable).list + RestsOf(split.segments, variable, |split.segments|)
  {
    VariableReported(b, start, split, pos, variable);
    HeldList(split.segments, variable, Get(start.vars, variable), |split.segments|);
  }

  predicate OnlyFlags(segments: seq<Segment>, variable: string) {
    forall i | 0 <= i < |segments| && segments[i].binding.variable == variable :: segments[i].binding.kind.Flag?
  }

  lemma {:induction false} HeldFlag(segments: seq<Segment>, variable: string, v: Variable, n: nat)
    requires n <= |segments| && OnlyFlags(segments, variable)
    ensures Held(segments, variable, v, n).isSet <==>
            v.isSet || exists i | 0 <= i < n :: segments[i].binding.variable == variable
  {
    if n > 0 {
      HeldFlag(segments, variable, v, n - 1);
      StoredByKind(segments[n - 1], Held(segments, variable, v, n - 1));
    }
  }

  /** After a run, a flag is set exactly when it was before or its keyword has been met. */
  lemma FlagIsSetIff(b: Setup, start: Outcome, split: Split, pos: nat, variable: string)
    requires OnlyFlags(split.segments, variable)
    ensures Get(Meaning(b, start, split, pos).vars, variable).isSet <==>
            Get(start.vars, variable).isSet
            || exists i | 0 <= i < |split.segments| :: split.segments[i].binding.variable == variable
  {
    VariableReported(b, start, split, pos, variable);
    HeldFlag(split.segments, variable, Get(start.vars, variable), |split.segments|);
  }

  predicate OnlyTexts(segments: seq<Segment>, variable: string) {
    forall i | 0 <= i < |segments| && segments[i].binding.variable == variable :: IsText(segments[i].binding.kind)
  }

  /** The i-th segment is the last of the first n that gives the variable a text. */
  predicate GivesLastText(segments: seq<Segment>, variable: string, n: nat, i: nat)
    requires i < n <= |segments|
  {
    && segments[i].binding.variable == variable && segments[i].rest != []
    && forall j | i < j < n && segments[j].binding.variable == variable :: segments[j].rest == []
  }

  lemma {:induction false} HeldText(segments: seq<Segment>, variable: string, v: Variable, n: nat, i: nat)
    requires i < n <= |segments| && OnlyTexts(segments, variable) && GivesLastText(segments, variable, n, i)
    ensures Held(segments, variable, v, n).text == segments[i].rest[0]
    decreases n
  {
    StoredByKind(segments[n - 1], Held(segments, variable, v, n - 1));
    if i < n - 1 {
      HeldText(segments, variable, v, n - 1, i);
    }
  }

  /** After a run, a text holds the first argument after the last of its keywords that is followed by any. */
  lemma TextHoldsLast(b: Setup, start: Outcome, split: Split, pos: nat, variable: string, i: nat)
    requires i < |split.segments| && OnlyTexts(split.segments, variable)
    requires GivesLastText(split.segments, variable, |split.segments|, i)
    ensures Get(Meaning(b, start, split, pos).vars, variable).text == split.segments[i].rest[0]
  {
    VariableReported(b, start, split, pos, variable);
    HeldText(split.segments, variable, Get(start.vars, variable), |split.segments|, i);
  }

  /** The keywords are reported in the order in which they are met. */
  lemma KeywordsReported(b: Setup, start: Outcome, split: Split, pos: nat)
    ensures var met := Meaning(b, start, split, pos).parsedKeywords;
            && |met| == |start.parsedKeywords| + |split.segments| && start.parsedKeywords <= met
            && forall i | 0 <= i < |split.segments| :: met[|start.parsedKeywords| + i] == split.segments[i].keyword
  {
    var o, n := OfLeading(b, start, split.leading, pos, |split.leading|), |split.segments|;
    PositionalOfLeading(b, start, split.leading, pos, |split.leading|);
    KeywordsOfSegments(b, o, split.segments, n);
    KeywordsByPosition(split.segments, n);
  }

  lemma {:induction false} KeywordsByPosition(segments: seq<Segment>, n: nat)
    requires n <= |segments|
    ensures |Flat(KeywordOf, segments, n)| == n
    ensures forall i | 0 <= i < n :: Flat(KeywordOf, segments, n)[i] == segments[i].keyword
  {
    if n > 0 {
      KeywordsByPosition(segments, n - 1);
    }
  }

  /** The calls of positional actions are one for each bound position before any keyword, with its own argument. */
  lemma {:induction false} BoundByPosition(b: Setup, leading: seq<string>, pos: nat, n: nat, action: string, p: nat,
                                           arg: string)
    requires n <= |leading|
    ensures (action, p, arg) in BoundLeading(b, leading, pos, n) <==>
            pos <= p < pos + n && leading[p - pos] == arg && Lookup(b.positions, p) == Some(action)
  {
    if n > 0 {
      BoundByPosition(b, leading, pos, n - 1, action, p, arg);
    }
  }

  /** Each occurrence of a keyword among the first n segments with what it is blamed for. */
  function Blamed(segments: seq<Segment>, name: string, n: nat): seq<Problem>
    requires n <= |segments|
  {
    if n == 0 then []
    else Blamed(segments, name, n - 1) + if segments[n - 1].keyword == name then ProblemsOf(segments[n - 1]) else []
  }

  lemma {:induction false} ProblemsIfWanted(b: Setup, segments: seq<Segment>, name: string, n: nat)
    requires n <= |segments|
    ensures Problems(b, segments, name, n) == if b.wantsErrors then Blamed(segments, name, n) else []
  {
    if n > 0 {
      ProblemsIfWanted(b, segments, name, n - 1);
    }
  }

  /** Errors are recorded for those who want them, and for no one else. */
  lemma ErrorsIfWanted(b: Setup, start: Outcome, split: Split, pos: nat, name: string)
    ensures var before, after := Errors(start.errors, name), Errors(Meaning(b, start, split, pos).errors, name);
            && (b.wantsErrors ==> after == before + Blamed(split.segments, name, |split.segments|))
            && (!b.wantsErrors ==> after == before)
  {
    ErrorsReported(b, start, split, pos, name);
    ProblemsIfWanted(b, split.segments, name, |split.segments|);
    assert Errors(start.errors, name) + [] == Errors(start.errors, name);
  }

  lemma {:induction false} NothingUnparsed(b: Setup, split: Split, pos: nat, n: nat)
    requires !b.wantsUnparsed && n <= |split.leading|
    ensures UnboundLeading(b, split.leading, pos, n) == []
  {
    if n == 0 {
    } else {
      NothingUnparsed(b, split, pos, n - 1);
      assert UnboundAt(b, pos + n - 1, split.leading[n - 1]) == [];
    }
  }

  lemma {:induction false} NothingLeft(b: Setup, segments: seq<Segment>, n: nat)
    requires !b.wantsUnparsed && n <= |segments|
    ensures UnparsedUpTo(b, segments, n) == []
  {
    if n == 0 {
    } else {
      NothingLeft(b, segments, n - 1);
      assert UnparsedOf(b, segments[n - 1]) == [];
    }
  }

  /** Unparsed arguments are kept for those who want them, and for no one else: then every argument before any keyword
      whose position has no action is one, and so is everything that keywords leave. */
  lemma UnparsedIfWanted(b: Setup, start: Outcome, split: Split, pos: nat)
    ensures !b.wantsUnparsed ==> Meaning(b, start, split, pos).unparsed == start.unparsed
    ensures b.wantsUnparsed ==>
              Meaning(b, start, split, pos).unparsed ==
              start.unparsed + UnboundLeading(b, split.leading, pos, |split.leading|)
              + Flat(Left, split.segments, |split.segments|)
  {
    UnparsedReported(b, start, split, pos);
    if b.wantsUnparsed {
      UnparsedIsLeft(b, split.segments, |split.segments|);
      Associative(start.unparsed, UnboundLeading(b, split.leading, pos, |split.leading|),
                  Flat(Left, split.segments, |split.segments|));
    } else {
      NothingUnparsed(b, split, pos, |split.leading|);
      NothingLeft(b, split.segments, |split.segments|);
      assert start.unparsed + ([] + []) == start.unparsed;
    }
  }
}
