/** The in-place range algorithms of cmAlgorithms.h. */
module RangeAlgorithms {

  // ---- cmRemoveIndices ----

  /** The range [first, last) with the part from middle on put first. */
  function Rotated<T>(s: seq<T>, first: nat, middle: nat, last: nat): seq<T>
    requires first <= middle <= last <= |s|
  {
    s[..first] + s[middle..last] + s[first..middle] + s[last..]
  }

  /** std::rotate followed by cmRotate's advance: the result is where the element that was first has gone. */
  method Rotate<T>(a: array<T>, first: nat, middle: nat, last: nat) returns (r: nat)
    requires first <= middle <= last <= a.Length
    modifies a
    ensures r == first + (last - middle)
    ensures a[..] == Rotated(old(a[..]), first, middle, last)
  {
    var was := a[..];
    var rotated := was[middle..last] + was[first..middle];
    forall i | first <= i < last {
      a[i] := rotated[i - first];
    }
    r := first + (last - middle);
    assert a[..] == was[..first] + rotated + was[last..];
  }

  /** Moves the first n elements of [i1, i2) to the end of that range; the result is where they begin. */
  method RemoveN<T>(a: array<T>, i1: nat, i2: nat, n: nat) returns (r: nat)
    requires i1 + n <= i2 <= a.Length
    modifies a
    ensures r == i2 - n
    ensures a[..] == Rotated(old(a[..]), i1, i1 + n, i2)
  {
    r := Rotate(a, i1, i1 + n, i2);
  }

  predicate StrictlyIncreasing(rem: seq<nat>) {
    forall i, j | 0 <= i < j < |rem| :: rem[i] < rem[j]
  }

  /** Strictly increasing positions of a range of length n. */
  predicate ValidIndices(rem: seq<nat>, n: nat) {
    StrictlyIncreasing(rem) && forall i | 0 <= i < |rem| :: rem[i] < n
  }

  /** The first n elements of s, except those at positions in rem, in order. */
  function Kept<T>(s: seq<T>, rem: seq<nat>, n: nat): seq<T>
    requires n <= |s|
  {
    if n == 0 then [] else Kept(s, rem, n - 1) + if n - 1 in rem then [] else [s[n - 1]]
  }

  /** The elements of s at the first k positions of rem, in order. */
  function Picked<T>(s: seq<T>, rem: seq<nat>, k: nat): seq<T>
    requires k <= |rem| && ValidIndices(rem, |s|)
  {
    if k == 0 then [] else Picked(s, rem, k - 1) + [s[rem[k - 1]]]
  }

  lemma {:induction false} PickedLength<T>(s: seq<T>, rem: seq<nat>, k: nat)
    requires k <= |rem| && ValidIndices(rem, |s|)
    ensures |Picked(s, rem, k)| == k && forall i | 0 <= i < k :: Picked(s, rem, k)[i] == s[rem[i]]
  {
    if k > 0 {
      PickedLength(s, rem, k - 1);
    }
  }

  lemma {:induction false} KeptGap<T>(s: seq<T>, rem: seq<nat>, lo: nat, hi: nat)
    requires lo <= hi <= |s| && forall p | lo <= p < hi :: p !in rem
    ensures Kept(s, rem, hi) == Kept(s, rem, lo) + s[lo..hi]
  {
    if lo < hi {
      KeptGap(s, rem, lo, hi - 1);
      assert s[lo..hi] == s[lo..hi - 1] + [s[hi - 1]];
    }
  }

  /** The state of the loop when the first count removals, all before upTo, are done: the kept elements, the removed
      elements, and then what has not been looked at. */
  ghost predicate Partitioned<T>(was: seq<T>, now: seq<T>, rem: seq<nat>, count: nat, upTo: nat)
    requires ValidIndices(rem, |was|)
  {
    && count <= |rem| && upTo <= |was|
    && |Kept(was, rem, upTo)| + count == upTo
    && now == Kept(was, rem, upTo) + Picked(was, rem, count) + was[upTo..]
  }

  /** One rotation over a gap without removals, which ends at position next. */
  lemma SkipGap<T>(was: seq<T>, now: seq<T>, rem: seq<nat>, count: nat, upTo: nat, next: nat)
    requires ValidIndices(rem, |was|) && Partitioned(was, now, rem, count, upTo) && upTo <= next <= |was|
    requires forall p | upTo <= p < next :: p !in rem
    ensures upTo - count >= 0 && |now| == |was|
    ensures Partitioned(was, Rotated(now, upTo - count, upTo, next), rem, count, next)
  {
    KeptGap(was, rem, upTo, next);
    PickedLength(was, rem, count);
    RotateParts(Kept(was, rem, upTo), Picked(was, rem, count), was, upTo, next);
  }

  lemma RotateParts<T>(kept: seq<T>, picked: seq<T>, was: seq<T>, upTo: nat, next: nat)
    requires |kept| + |picked| == upTo <= next <= |was|
    ensures Rotated(kept + picked + was[upTo..], |kept|, upTo, next) == kept + was[upTo..next] + picked + was[next..]
  {
    var now := kept + picked + was[upTo..];
    assert now[..|kept|] == kept;
    assert now[|kept|..upTo] == picked;
    assert now[upTo..next] == was[upTo..next];
    assert now[next..] == was[next..];
  }

  /** The element at the next removed position joins the removed ones. */
  lemma TakeNext<T>(was: seq<T>, now: seq<T>, rem: seq<nat>, count: nat)
    requires ValidIndices(rem, |was|) && count < |rem| && Partitioned(was, now, rem, count, rem[count])
    ensures Partitioned(was, now, rem, count + 1, rem[count] + 1)
  {
    var upTo := rem[count];
    assert was[upTo..] == [was[upTo]] + was[upTo + 1..];
  }

  /** One turn of the loop: a rotation up to the next removed element, which is then taken. */
  lemma Turn<T>(was: seq<T>, now: seq<T>, rem: seq<nat>, count: nat, writer: nat, pivot: nat) returns (next: seq<T>)
    requires ValidIndices(rem, |was|) && 1 <= count < |rem| && writer + count == rem[count - 1] + 1
    requires pivot == rem[count]
    requires Partitioned(was, now, rem, count, rem[count - 1] + 1)
    ensures |now| == |was| && writer + count <= pivot < |was|
    ensures next == Rotated(now, writer, writer + count, pivot)
    ensures Partitioned(was, next, rem, count + 1, pivot + 1)
  {
    SkipGap(was, now, rem, count, rem[count - 1] + 1, rem[count]);
    next := Rotated(now, writer, writer + count, pivot);
    TakeNext(was, next, rem, count);
  }

  lemma NothingRemoved<T>(was: seq<T>, rem: seq<nat>)
    requires rem == []
    ensures was == Kept(was, rem, |was|) + Picked(was, rem, 0) && |was| == |Kept(was, rem, |was|)|
  {
    KeptGap(was, rem, 0, |was|);
  }

  lemma FirstTurn<T>(was: seq<T>, rem: seq<nat>)
    requires ValidIndices(rem, |was|) && rem != []
    ensures Partitioned(was, was, rem, 1, rem[0] + 1)
  {
    KeptGap(was, rem, 0, rem[0]);
    assert was == was[..rem[0]] + was[rem[0]..];
    assert Kept(was, rem, rem[0]) + Picked(was, rem, 0) == was[..rem[0]];
    TakeNext(was, was, rem, 0);
  }

  lemma LastTurn<T>(was: seq<T>, now: seq<T>, rem: seq<nat>, count: nat, writer: nat, n: nat)
    requires ValidIndices(rem, |was|) && rem != [] && count == |rem| && n == |was|
    requires writer + count == rem[count - 1] + 1
    requires Partitioned(was, now, rem, count, rem[count - 1] + 1)
    ensures |now| == n && |Kept(was, rem, n)| == n - count
    ensures Rotated(now, writer, writer + count, n) == Kept(was, rem, n) + Picked(was, rem, count)
  {
    SkipGap(was, now, rem, count, rem[count - 1] + 1, n);
    assert was[n..] == [];
  }

  /** cmRemoveIndices: the kept elements in order, then the removed elements in order; the result is the boundary. */
  method RemoveIndices<T>(a: array<T>, rem: seq<nat>) returns (end: nat)
    requires ValidIndices(rem, a.Length)
    modifies a
    ensures a[..] == Kept(old(a[..]), rem, a.Length) + Picked(old(a[..]), rem, |rem|)
    ensures end == |Kept(old(a[..]), rem, a.Length)|
  {
    if rem == [] {
      NothingRemoved(a[..], rem);
      return a.Length;
    }
    end := RemoveFromFirst(a, rem);
  }

  /** The same, once there is something to remove. */
  method RemoveFromFirst<T>(a: array<T>, rem: seq<nat>) returns (end: nat)
    requires ValidIndices(rem, a.Length) && rem != []
    modifies a
    ensures a[..] == Kept(old(a[..]), rem, a.Length) + Picked(old(a[..]), rem, |rem|)
    ensures end == |Kept(old(a[..]), rem, a.Length)|
  {
    ghost var was := a[..];
    var writer := rem[0];
    var pivot := writer;
    var prevRem := rem[0];
    FirstTurn(was, rem);
    var count := 1;
    ghost var now := was;
    while writer != a.Length && count < |rem|
      invariant 1 <= count <= |rem| && pivot == prevRem == rem[count - 1] && writer + count == pivot + 1
      invariant now == a[..] && Partitioned(was, now, rem, count, pivot + 1)
    {
      pivot := pivot + (rem[count] - prevRem);
      prevRem := rem[count];
      now := Turn(was, now, rem, count, writer, pivot);
      writer := RemoveN(a, writer, pivot, count);
      count := count + 1;
    }
    LastTurn(was, now, rem, count, writer, a.Length);
    end := RemoveN(a, writer, a.Length, count);
  }

  /** Nothing is lost and nothing is made up. */
  lemma RemoveIndicesConserves<T>(s: seq<T>, rem: seq<nat>)
    requires ValidIndices(rem, |s|)
    ensures multiset(Kept(s, rem, |s|)) + multiset(Picked(s, rem, |rem|)) == multiset(s)
  {
    AllBefore(rem, |s|);
    ConservesUpTo(s, rem, |s|, |rem|, s);
  }

  /** The first k removals are the ones before position n. */
  predicate SplitAt(rem: seq<nat>, n: nat, k: nat) {
    && k <= |rem| && (k > 0 ==> n > 0)
    && (forall i | 0 <= i < k :: rem[i] < n) && forall i | k <= i < |rem| :: rem[i] >= n
  }

  lemma AllBefore(rem: seq<nat>, n: nat)
    requires ValidIndices(rem, n)
    ensures SplitAt(rem, n, |rem|)
  {
    assert |rem| > 0 ==> rem[0] < n;
  }

  /** One position less: either it is the last of these removals, or it is no removal at all. */
  lemma SplitBefore(rem: seq<nat>, n: nat, k: nat)
    requires StrictlyIncreasing(rem) && n > 0 && SplitAt(rem, n, k)
    ensures if n - 1 in rem then k > 0 && rem[k - 1] == n - 1 && SplitAt(rem, n - 1, k - 1) else SplitAt(rem, n - 1, k)
  {
    if n - 1 in rem {
      var i :| 0 <= i < |rem| && rem[i] == n - 1;
      Increasing(rem, i, k - 1);
    }
  }

  lemma Increasing(rem: seq<nat>, i: nat, j: nat)
    requires StrictlyIncreasing(rem) && i <= j < |rem|
    ensures i < j ==> rem[i] < rem[j]
  {
  }

  /** The first n elements, in all, are the kept ones and the k removed ones. */
  lemma {:induction false} ConservesUpTo<T>(s: seq<T>, rem: seq<nat>, n: nat, k: nat, all: seq<T>)
    requires ValidIndices(rem, |s|) && n <= |s| && SplitAt(rem, n, k) && all == s[..n]
    ensures multiset(Kept(s, rem, n)) + multiset(Picked(s, rem, k)) == multiset(all)
  {
    if n == 0 {
      assert all == [];
    } else {
      SplitBefore(rem, n, k);
      assert all == s[..n - 1] + [s[n - 1]];
      if n - 1 in rem {
        ConservesUpTo(s, rem, n - 1, k - 1, s[..n - 1]);
        NotKept(s, rem, n);
        OneMoreAfter(Kept(s, rem, n), Picked(s, rem, k - 1), s[..n - 1], s[n - 1], Picked(s, rem, k), all);
      } else {
        ConservesUpTo(s, rem, n - 1, k, s[..n - 1]);
        OneMore(Kept(s, rem, n - 1), Picked(s, rem, k), s[..n - 1], s[n - 1], Kept(s, rem, n), all);
      }
    }
  }

  lemma NotKept<T>(s: seq<T>, rem: seq<nat>, n: nat)
    requires 0 < n <= |s| && n - 1 in rem
    ensures Kept(s, rem, n) == Kept(s, rem, n - 1)
  {
    assert Kept(s, rem, n - 1) + [] == Kept(s, rem, n - 1);
  }

  lemma OneMore<T>(a: seq<T>, b: seq<T>, c: seq<T>, x: T, aMore: seq<T>, cMore: seq<T>)
    requires multiset(a) + multiset(b) == multiset(c) && aMore == a + [x] && cMore == c + [x]
    ensures multiset(aMore) + multiset(b) == multiset(cMore)
  {
  }

  lemma OneMoreAfter<T>(a: seq<T>, b: seq<T>, c: seq<T>, x: T, bMore: seq<T>, cMore: seq<T>)
    requires multiset(a) + multiset(b) == multiset(c) && bMore == b + [x] && cMore == c + [x]
    ensures multiset(a) + multiset(bMore) == multiset(cMore)
  {
  }

  /** The kept elements, said by position: a position is kept exactly when it is not in rem, and its element ends up as
      many places further left as there are removals before it. */
  lemma {:induction false} KeptPosition<T>(s: seq<T>, rem: seq<nat>, n: nat, p: nat, k: nat)
    requires ValidIndices(rem, |s|) && p < n <= |s| && p !in rem && SplitAt(rem, p, k)
    ensures k <= p && p - k < |Kept(s, rem, n)| && Kept(s, rem, n)[p - k] == s[p]
    decreases n
  {
    if p < n - 1 {
      KeptPosition(s, rem, n - 1, p, k);
    } else {
      KeptLength(s, rem, n - 1, k);
    }
  }

  lemma {:induction false} KeptLength<T>(s: seq<T>, rem: seq<nat>, n: nat, k: nat)
    requires ValidIndices(rem, |s|) && n <= |s| && SplitAt(rem, n, k)
    ensures k <= n && |Kept(s, rem, n)| == n - k
  {
    if n > 0 {
      SplitBefore(rem, n, k);
      KeptLength(s, rem, n - 1, if n - 1 in rem then k - 1 else k);
    }
  }

  // ---- cmRemoveDuplicates ----

  /** The first occurrence of every value among the first n elements, in order. */
  function FirstOccurrences<T(==)>(s: seq<T>, n: nat): seq<T>
    requires n <= |s|
  {
    if n == 0 then []
    else FirstOccurrences(s, n - 1) + if s[n - 1] in s[..n - 1] then [] else [s[n - 1]]
  }

  /** cmRemoveDuplicates. The set holds positions of the array that is being overwritten, compared by the value found
      there; it stays meaningful because a position in the set is never written again. What is left behind the
      result is unspecified, as elements have been moved away from there. */
  method RemoveDuplicates<T(==)>(a: array<T>) returns (result: nat)
    modifies a
    ensures result <= a.Length && a[..result] == FirstOccurrences(old(a[..]), a.Length)
  {
    ghost var was := a[..];
    var uniq: set<nat> := {};
    result := 0;
    var first := 0;
    while first != a.Length
      invariant result <= first <= a.Length
      invariant forall p: nat :: p in uniq <==> p < result
      invariant a[..result] == FirstOccurrences(was, first)
      invariant forall p | first <= p < a.Length :: a[p] == was[p]
    {
      OccurrencesAreElements(was, first, a[first]);
      if !exists p | p in uniq :: a[p] == a[first] {
        assert a[first] !in a[..result];
        if result != first {
          a[result] := a[first];
        }
        uniq := uniq + {result};
        result := result + 1;
      } else {
        assert a[first] in a[..result];
      }
      first := first + 1;
    }
  }

  /** The first occurrences are exactly the values that occur. */
  lemma {:induction false} OccurrencesAreElements<T>(s: seq<T>, n: nat, x: T)
    requires n <= |s|
    ensures x in FirstOccurrences(s, n) <==> x in s[..n]
  {
    if n > 0 {
      OccurrencesAreElements(s, n - 1, x);
      assert s[..n] == s[..n - 1] + [s[n - 1]];
    }
  }

  /** The order is that of first occurrence: the first occurrence of a value is listed right after the values that
      occurred before it. */
  lemma {:induction false} OccurrencesInOrder<T>(s: seq<T>, n: nat, p: nat)
    requires p < n <= |s| && s[p] !in s[..p]
    ensures FirstOccurrences(s, p) + [s[p]] <= FirstOccurrences(s, n)
    decreases n
  {
    if p < n - 1 {
      OccurrencesInOrder(s, n - 1, p);
      OccurrencesGrow(s, n);
    }
  }

  lemma OccurrencesGrow<T>(s: seq<T>, n: nat)
    requires 0 < n <= |s|
    ensures FirstOccurrences(s, n - 1) <= FirstOccurrences(s, n)
  {
  }

  lemma {:induction false} OccurrencesDiffer<T>(s: seq<T>, n: nat)
    requires n <= |s|
    ensures forall i, j | 0 <= i < j < |FirstOccurrences(s, n)| ::
            FirstOccurrences(s, n)[i] != FirstOccurrences(s, n)[j]
  {
    if n > 0 {
      OccurrencesDiffer(s, n - 1);
      OccurrencesAreElements(s, n - 1, s[n - 1]);
    }
  }
}
