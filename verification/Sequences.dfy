/** Facts about sequences that many modules need. */
module Sequences {

  predicate NoDuplicates<T(==)>(s: seq<T>) {
    forall i, j | 0 <= i < j < |s| :: s[i] != s[j]
  }

  lemma Associative<T>(a: seq<T>, b: seq<T>, c: seq<T>)
    ensures a + b + c == a + (b + c)
  {
  }

  lemma SplitLast<T>(s: seq<T>)
    requires s != []
    ensures s[..|s| - 1] + [s[|s| - 1]] == s
  {
  }

  /** One more part at the end of what was appended to start so far. */
  lemma Appended<T>(start: seq<T>, sofar: seq<T>, part: seq<T>, before: seq<T>, after: seq<T>, all: seq<T>)
    requires before == start + sofar && after == before + part && all == sofar + part
    ensures after == start + all
  {
  }
}
