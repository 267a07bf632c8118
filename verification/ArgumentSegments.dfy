/** What an argument parser promises: the arguments split at the keywords, and what becomes of each segment
    (cmArgumentParser.cxx and cmArgumentParser.h, said without the parser's state). */
module ArgumentSegments {
  import opened Options
  import opened ActionMaps

  /** What a keyword's variable is. A callback is asked whether it goes on at each position; one that keeps state is a
      function of the position in the run at hand. */
  datatype Kind =
    | Flag | Text | NonEmptyText | MaybeText | MaybeEmptyList | NonEmptyList | ListOfLists
    | Callback(continues: (nat, string) -> bool, atLeast: nat)
  {
    /** Is there a value function at all? */
    predicate TakesValues() { !Flag? }

    /** Does the value function answer Yes? */
    predicate Continues(pos: nat, arg: string) {
      if Callback? then continues(pos, arg) else MaybeEmptyList? || NonEmptyList? || ListOfLists?
    }

    /** The ExpectAtLeast of the binding. */
    function Expected(): nat {
      if Callback? then atLeast else if Text? || NonEmptyText? || NonEmptyList? then 1 else 0
    }
  }

  /** A keyword's action: the variable it binds, by name, and how. */
  datatype Binding = Binding(variable: string, kind: Kind)

  datatype Setup = Setup(keywords: seq<(string, Binding)>, positions: seq<(nat, string)>, wantsErrors: bool,
                         wantsUnparsed: bool)

  /** A variable, whatever its kind; each kind uses its own part. */
  datatype Variable = Variable(isSet: bool, text: string, list: seq<string>, lists: seq<seq<string>>)

  const FRESH := Variable(false, "", [], [])

  function Get(vars: map<string, Variable>, name: string): Variable {
    if name in vars then vars[name] else FRESH
  }

  datatype Problem = MissingValue | EmptyString

  /** Everything a run leaves behind: the calls made and the values stored. */
  datatype Outcome = Outcome(parsedKeywords: seq<string>, vars: map<string, Variable>,
                             errors: map<string, seq<Problem>>, missing: seq<string>,
                             unparsed: seq<string>, positional: seq<(string, nat, string)>)

  // ---- Splitting at keywords ----

  /** A keyword, the position after it, and the arguments up to the next keyword. */
  datatype Segment = Segment(keyword: string, binding: Binding, at: nat, rest: seq<string>)

  datatype Split = Split(leading: seq<string>, segments: seq<Segment>)

  predicate IsKeyword(b: Setup, arg: string) {
    Lookup(b.keywords, arg).Some?
  }

  function WithArgument(s: Segment, arg: string): Segment {
    s.(rest := s.rest + [arg])
  }

  function AddArgument(b: Setup, split: Split, pos: nat, arg: string): Split {
    match Lookup(b.keywords, arg)
    case Some(binding) => Split(split.leading, split.segments + [Segment(arg, binding, pos + 1, [])])
    case None =>
      if split.segments == [] then Split(split.leading + [arg], [])
      else
        var last := |split.segments| - 1;
        Split(split.leading, split.segments[last := WithArgument(split.segments[last], arg)])
  }

  /** The split of the first n arguments, the first of which has the given position. */
  function SplitUpTo(b: Setup, args: seq<string>, pos: nat, n: nat): Split
    requires n <= |args|
  {
    if n == 0 then Split([], []) else AddArgument(b, SplitUpTo(b, args, pos, n - 1), pos + n - 1, args[n - 1])
  }

  function Joined(split: Split): seq<string> {
    split.leading + JoinedUpTo(split.segments, |split.segments|)
  }

  function JoinedUpTo(segments: seq<Segment>, n: nat): seq<string>
    requires n <= |segments|
  {
    if n == 0 then [] else JoinedUpTo(segments, n - 1) + [segments[n - 1].keyword] + segments[n - 1].rest
  }

  predicate NoKeywords(b: Setup, args: seq<string>) {
    forall i | 0 <= i < |args| :: !IsKeyword(b, args[i])
  }

  ghost predicate GoodSegment(b: Setup, s: Segment) {
    Lookup(b.keywords, s.keyword) == Some(s.binding) && NoKeywords(b, s.rest)
  }

  ghost predicate GoodSegments(b: Setup, segments: seq<Segment>) {
    forall i {:trigger GoodSegment(b, segments[i])} | 0 <= i < |segments| :: GoodSegment(b, segments[i])
  }

  predicate Placed(segments: seq<Segment>, start: nat, i: nat)
    requires i < |segments|
  {
    segments[i].at == start + |JoinedUpTo(segments, i)| + 1
  }

  predicate AllPlaced(segments: seq<Segment>, start: nat) {
    forall i {:trigger Placed(segments, start, i)} | 0 <= i < |segments| :: Placed(segments, start, i)
  }

  /** The arguments cut before every keyword and nowhere else, with the right positions. */
  ghost predicate IsSplit(b: Setup, args: seq<string>, pos: nat, split: Split) {
    && Joined(split) == args
    && NoKeywords(b, split.leading)
    && GoodSegments(b, split.segments)
    && AllPlaced(split.segments, pos + |split.leading|)
  }

  lemma {:induction false} JoinedPrefix(a: seq<Segment>, b: seq<Segment>, n: nat)
    requires n <= |a| && n <= |b| && forall i | 0 <= i < n :: a[i] == b[i]
    ensures JoinedUpTo(a, n) == JoinedUpTo(b, n)
  {
    if n > 0 {
      JoinedPrefix(a, b, n - 1);
    }
  }

  /** What one more argument does to the arguments so far. */
  lemma JoinedAdd(b: Setup, split: Split, pos: nat, arg: string)
    ensures Joined(AddArgument(b, split, pos, arg)) == Joined(split) + [arg]
  {
    var s, m := AddArgument(b, split, pos, arg), |split.segments|;
    if IsKeyword(b, arg) {
      JoinedPrefix(split.segments, s.segments, m);
      JoinEnd(split.leading, JoinedUpTo(split.segments, m), [], arg);
    } else if m == 0 {
      JoinEnd(split.leading, [], [], arg);
    } else {
      JoinedPrefix(split.segments, s.segments, m - 1);
      var last := split.segments[m - 1];
      JoinEnd(split.leading, JoinedUpTo(split.segments, m - 1) + [last.keyword], last.rest, arg);
    }
  }

  lemma JoinEnd(a: seq<string>, b: seq<string>, c: seq<string>, x: string)
    ensures a + (b + c) + [x] == a + (b + (c + [x])) && a + b + [x] == a + (b + [x] + []) && a + [] == a
  {
  }

  lemma {:induction false} SplitIsSplit(b: Setup, args: seq<string>, pos: nat, n: nat)
    requires n <= |args|
    ensures IsSplit(b, args[..n], pos, SplitUpTo(b, args, pos, n))
  {
    if n > 0 {
      SplitIsSplit(b, args, pos, n - 1);
      assert args[..n] == args[..n - 1] + [args[n - 1]];
      AddIsSplit(b, args[..n - 1], pos, SplitUpTo(b, args, pos, n - 1), args[n - 1]);
    }
  }

  lemma AddIsSplit(b: Setup, args: seq<string>, pos: nat, split: Split, arg: string)
    requires IsSplit(b, args, pos, split)
    ensures IsSplit(b, args + [arg], pos, AddArgument(b, split, pos + |args|, arg))
  {
    JoinedAdd(b, split, pos + |args|, arg);
    SegmentsAdd(b, args, pos, split, arg);
  }

  lemma SegmentsAdd(b: Setup, args: seq<string>, pos: nat, split: Split, arg: string)
    requires IsSplit(b, args, pos, split)
    ensures var s := AddArgument(b, split, pos + |args|, arg);
            NoKeywords(b, s.leading) && GoodSegments(b, s.segments) && AllPlaced(s.segments, pos + |s.leading|)
  {
    var s, m := AddArgument(b, split, pos + |args|, arg), |split.segments|;
    forall i | 0 <= i < |s.segments| ensures GoodSegment(b, s.segments[i]) {
      if i < m {
        assert GoodSegment(b, split.segments[i]);
      }
    }
    var start := pos + |s.leading|;
    forall i | 0 <= i < |s.segments| ensures Placed(s.segments, start, i) {
      JoinedPrefix(split.segments, s.segments, i);
      if i < m {
        assert Placed(split.segments, pos + |split.leading|, i);
      }
    }
  }

  /** There is only one way to cut: a split is determined by the arguments. */
  lemma {:induction false} SplitUnique(b: Setup, args: seq<string>, pos: nat, x: Split, n: nat)
    requires IsSplit(b, args, pos, x) && n == |args|
    ensures x == SplitUpTo(b, args, pos, n)
    decreases n
  {
    if n == 0 {
      EmptySplit(x);
    } else {
      var y := DropLast(b, args, pos, x);
      SplitUnique(b, args[..n - 1], pos, y, n - 1);
      SplitPrefix(b, args, args[..n - 1], pos, n - 1);
    }
  }

  lemma {:induction false} JoinedLength(segments: seq<Segment>, n: nat)
    requires n <= |segments|
    ensures |JoinedUpTo(segments, n)| >= n
  {
    if n > 0 {
      JoinedLength(segments, n - 1);
    }
  }

  lemma EmptySplit(x: Split)
    requires Joined(x) == []
    ensures x == Split([], [])
  {
    JoinedLength(x.segments, |x.segments|);
  }

  lemma {:induction false} SplitPrefix(b: Setup, args: seq<string>, some: seq<string>, pos: nat, n: nat)
    requires n <= |some| <= |args| && forall i | 0 <= i < |some| :: some[i] == args[i]
    ensures SplitUpTo(b, args, pos, n) == SplitUpTo(b, some, pos, n)
  {
    if n > 0 {
      SplitPrefix(b, args, some, pos, n - 1);
    }
  }

  /** The split without its last argument. */
  lemma DropLast(b: Setup, args: seq<string>, pos: nat, x: Split) returns (y: Split)
    requires IsSplit(b, args, pos, x) && args != []
    ensures IsSplit(b, args[..|args| - 1], pos, y)
    ensures AddArgument(b, y, pos + |args| - 1, args[|args| - 1]) == x
  {
    var m := |x.segments|;
    if m == 0 {
      y := DropLeading(b, args, pos, x);
    } else if x.segments[m - 1].rest == [] {
      y := DropKeyword(b, args, pos, x);
    } else {
      y := DropRest(b, args, pos, x);
    }
  }

  lemma DropLeading(b: Setup, args: seq<string>, pos: nat, x: Split) returns (y: Split)
    requires IsSplit(b, args, pos, x) && args != [] && x.segments == []
    ensures IsSplit(b, args[..|args| - 1], pos, y)
    ensures AddArgument(b, y, pos + |args| - 1, args[|args| - 1]) == x
  {
    assert x.leading == args;
    y := Split(args[..|args| - 1], []);
    assert Joined(y) == args[..|args| - 1];
    assert y.leading + [args[|args| - 1]] == x.leading;
  }

  lemma DropKeyword(b: Setup, args: seq<string>, pos: nat, x: Split) returns (y: Split)
    requires IsSplit(b, args, pos, x) && x.segments != [] && x.segments[|x.segments| - 1].rest == []
    ensures args != [] && IsSplit(b, args[..|args| - 1], pos, y)
    ensures AddArgument(b, y, pos + |args| - 1, args[|args| - 1]) == x
  {
    var m := |x.segments|;
    var last := x.segments[m - 1];
    y := Split(x.leading, x.segments[..m - 1]);
    assert GoodSegment(b, last) && Placed(x.segments, pos + |x.leading|, m - 1);
    JoinedPrefix(x.segments, y.segments, m - 1);
    assert args == Joined(y) + [last.keyword];
    assert y.segments + [last] == x.segments;
    PrefixSegments(b, x.segments, y.segments, pos + |x.leading|);
  }

  lemma PrefixSegments(b: Setup, xs: seq<Segment>, ys: seq<Segment>, start: nat)
    requires GoodSegments(b, xs) && |ys| < |xs| && forall i | 0 <= i < |ys| :: ys[i] == xs[i]
    requires AllPlaced(xs, start)
    ensures GoodSegments(b, ys) && AllPlaced(ys, start)
  {
    forall i | 0 <= i < |ys| ensures GoodSegment(b, ys[i]) && Placed(ys, start, i) {
      assert GoodSegment(b, xs[i]) && Placed(xs, start, i);
      JoinedPrefix(xs, ys, i);
    }
  }

  lemma DropRest(b: Setup, args: seq<string>, pos: nat, x: Split) returns (y: Split)
    requires IsSplit(b, args, pos, x) && x.segments != [] && x.segments[|x.segments| - 1].rest != []
    ensures args != [] && IsSplit(b, args[..|args| - 1], pos, y)
    ensures AddArgument(b, y, pos + |args| - 1, args[|args| - 1]) == x
  {
    var m := |x.segments|;
    var last := x.segments[m - 1];
    var k := |last.rest| - 1;
    var shorter := last.(rest := last.rest[..k]);
    y := Split(x.leading, x.segments[m - 1 := shorter]);
    assert GoodSegment(b, last);
    assert last.rest == last.rest[..k] + [last.rest[k]];
    assert WithArgument(shorter, last.rest[k]) == last;
    assert x.segments == y.segments[m - 1 := last];
    assert !IsKeyword(b, last.rest[k]);
    assert AddArgument(b, y, pos + |args| - 1, last.rest[k]) == x;
    JoinedAdd(b, y, pos + |args| - 1, last.rest[k]);
    assert args == Joined(y) + [last.rest[k]];
    ShorterSegments(b, x.segments, shorter, pos + |x.leading|);
  }

  lemma ShorterSegments(b: Setup, xs: seq<Segment>, shorter: Segment, start: nat)
    requires xs != [] && GoodSegments(b, xs)
    requires shorter.keyword == xs[|xs| - 1].keyword && shorter.binding == xs[|xs| - 1].binding
    requires shorter.at == xs[|xs| - 1].at
    requires NoKeywords(b, shorter.rest)
    requires AllPlaced(xs, start)
    ensures var ys := xs[|xs| - 1 := shorter];
            GoodSegments(b, ys) && AllPlaced(ys, start)
  {
    var ys := xs[|xs| - 1 := shorter];
    forall i | 0 <= i < |ys| ensures GoodSegment(b, ys[i]) && Placed(ys, start, i) {
      assert GoodSegment(b, xs[i]) && Placed(xs, start, i);
      JoinedPrefix(xs, ys, i);
    }
  }
}
