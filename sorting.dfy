/**
 * The sort the build script relies on: `Array.prototype.sort` with a
 * comparator, which ECMAScript 2019 requires to be stable. `le(a, b)` holds
 * when the comparator does not put `a` after `b` (`cmp(a, b) <= 0`); the
 * stable result is the insertion sort below, which files each element after
 * every earlier one it does not precede.
 */
module Sorting {

  /** `le` is total and transitive: what a consistent comparator provides. */
  ghost predicate TotalPreorder<T(!new)>(le: (T, T) -> bool) {
    (forall a, b :: le(a, b) || le(b, a)) &&
    (forall a, b, c :: le(a, b) && le(b, c) ==> le(a, c))
  }

  /** Every element is `le` every later one. */
  ghost predicate SortedBy<T>(s: seq<T>, le: (T, T) -> bool) {
    forall i, j :: 0 <= i < j < |s| ==> le(s[i], s[j])
  }

  /**
   * Files `x` into `s` from the right: `x` moves left past the elements it
   * must precede and stops behind the first one it need not.
   */
  function Insert<T>(s: seq<T>, x: T, le: (T, T) -> bool): (r: seq<T>)
    ensures |r| == |s| + 1
  {
    if |s| == 0 then [x]
    else if le(s[|s| - 1], x) then s + [x]
    else Insert(s[..|s| - 1], x, le) + [s[|s| - 1]]
  }

  /** The stable sort: each element in turn is filed into the sorted prefix. */
  function InsertionSort<T>(s: seq<T>, le: (T, T) -> bool): (r: seq<T>)
    ensures |r| == |s|
  {
    if |s| == 0 then [] else Insert(InsertionSort(s[..|s| - 1], le), s[|s| - 1], le)
  }

  /** Filing adds exactly `x`. */
  lemma {:induction false} InsertPermutes<T>(s: seq<T>, x: T, le: (T, T) -> bool)
    ensures multiset(Insert(s, x, le)) == multiset(s) + multiset{x}
  {
    if |s| > 0 && !le(s[|s| - 1], x) {
      var init, last := s[..|s| - 1], s[|s| - 1];
      InsertPermutes(init, x, le);
      assert s == init + [last];
    }
  }

  /** The sort returns a permutation of its input. */
  lemma {:induction false} SortPermutes<T>(s: seq<T>, le: (T, T) -> bool)
    ensures multiset(InsertionSort(s, le)) == multiset(s)
  {
    if |s| > 0 {
      var init, last := s[..|s| - 1], s[|s| - 1];
      SortPermutes(init, le);
      InsertPermutes(InsertionSort(init, le), last, le);
      assert s == init + [last];
    }
  }

  /** Appending an element every earlier one is `le` keeps a sequence sorted. */
  lemma AppendSorted<T>(s: seq<T>, e: T, le: (T, T) -> bool)
    requires SortedBy(s, le)
    requires forall i :: 0 <= i < |s| ==> le(s[i], e)
    ensures SortedBy(s + [e], le)
  {
    var t := s + [e];
    forall i, j | 0 <= i < j < |t|
      ensures le(t[i], t[j])
    {
      if j < |s| {
        assert t[i] == s[i] && t[j] == s[j];
      } else {
        assert t[i] == s[i] && t[j] == e;
      }
    }
  }

  /** Filing into a sorted sequence keeps it sorted. */
  lemma {:induction false} InsertSorted<T(!new)>(s: seq<T>, x: T, le: (T, T) -> bool)
    requires TotalPreorder(le)
    requires SortedBy(s, le)
    ensures SortedBy(Insert(s, x, le), le)
  {
    if |s| == 0 {
    } else if le(s[|s| - 1], x) {
      var last := s[|s| - 1];
      forall i | 0 <= i < |s|
        ensures le(s[i], x)
      {
        if i < |s| - 1 {
          assert le(s[i], last);
        }
      }
      AppendSorted(s, x, le);
    } else {
      var init, last := s[..|s| - 1], s[|s| - 1];
      assert le(x, last);
      InsertSorted(init, x, le);
      InsertPermutes(init, x, le);
      var t := Insert(init, x, le);
      forall i | 0 <= i < |t|
        ensures le(t[i], last)
      {
        assert t[i] in multiset(t);
        if t[i] != x {
          assert t[i] in multiset(init);
          var k :| 0 <= k < |init| && init[k] == t[i];
          assert s[k] == init[k];
        }
      }
      AppendSorted(t, last, le);
    }
  }

  /** With a consistent comparator the sort's output is sorted. */
  lemma {:induction false} SortSorted<T(!new)>(s: seq<T>, le: (T, T) -> bool)
    requires TotalPreorder(le)
    ensures SortedBy(InsertionSort(s, le), le)
  {
    if |s| > 0 {
      SortSorted(s[..|s| - 1], le);
      InsertSorted(InsertionSort(s[..|s| - 1], le), s[|s| - 1], le);
    }
  }

  /** Moving `x` left past an element it must precede. */
  lemma InsertPast<T>(pre: seq<T>, e: T, x: T, le: (T, T) -> bool)
    requires !le(e, x)
    ensures Insert(pre + [e], x, le) == Insert(pre, x, le) + [e]
  {
    assert (pre + [e])[..|pre|] == pre;
  }

  /** `x` stops at the front or behind an element it need not precede. */
  lemma InsertStop<T>(s: seq<T>, x: T, le: (T, T) -> bool)
    requires |s| == 0 || le(s[|s| - 1], x)
    ensures Insert(s, x, le) == s + [x]
  {
  }

  /** Sorting one more element files it into the sorted prefix. */
  lemma SortSnoc<T>(s: seq<T>, i: nat, le: (T, T) -> bool)
    requires i < |s|
    ensures InsertionSort(s[..i + 1], le) == Insert(InsertionSort(s[..i], le), s[i], le)
  {
    assert s[..i + 1][..i] == s[..i];
  }

  /** One swap of the inner loop keeps its invariant, one place to the left. */
  lemma SwapKeeps<T>(b: seq<T>, c: seq<T>, j: nat, i: nat, x: T, sorted: seq<T>, le: (T, T) -> bool)
    requires 0 < j <= i < |b|
    requires b[j] == x && !le(b[j - 1], x)
    requires c == b[j - 1 := x][j := b[j - 1]]
    requires b[..j] + b[j + 1..i + 1] == sorted
    requires Insert(sorted, x, le) == Insert(b[..j], x, le) + b[j + 1..i + 1]
    ensures c[j - 1] == x
    ensures c[i + 1..] == b[i + 1..]
    ensures c[..j - 1] + c[j..i + 1] == sorted
    ensures Insert(sorted, x, le) == Insert(c[..j - 1], x, le) + c[j..i + 1]
  {
    var pre, e, post := b[..j - 1], b[j - 1], b[j + 1..i + 1];
    assert b[..j] == pre + [e];
    InsertPast(pre, e, x, le);
    assert c[..j - 1] == pre;
    assert c[j..i + 1] == [e] + post;
  }

  /**
   * One pass of the outer loop: `a[i]` is swapped leftwards while the
   * comparator puts its left neighbour after it, which files it into the
   * prefix `a[..i]`.
   */
  method FileInto<T>(a: array<T>, i: nat, le: (T, T) -> bool)
    requires i < a.Length
    modifies a
    ensures a[..i + 1] == Insert(old(a[..i]), old(a[i]), le)
    ensures a[i + 1..] == old(a[i + 1..])
  {
    ghost var sorted := a[..i];
    var x := a[i];
    var j := i;
    assert a[..j] + a[j + 1..i + 1] == sorted;
    while j > 0 && !le(a[j - 1], a[j])
      invariant 0 <= j <= i
      invariant a[j] == x
      invariant a[i + 1..] == old(a[i + 1..])
      invariant a[..j] + a[j + 1..i + 1] == sorted
      invariant Insert(sorted, x, le) == Insert(a[..j], x, le) + a[j + 1..i + 1]
    {
      ghost var b := a[..];
      a[j - 1], a[j] := a[j], a[j - 1];
      SwapKeeps(b, a[..], j, i, x, sorted, le);
      j := j - 1;
    }
    InsertStop(a[..j], x, le);
    assert a[..i + 1] == a[..j] + [x] + a[j + 1..i + 1];
  }

  /**
   * `array.sort(cmp)` on the caller's array: an insertion sort by adjacent
   * swaps that leaves in `a` exactly the stable order `InsertionSort`.
   */
  method SortInPlace<T>(a: array<T>, le: (T, T) -> bool)
    modifies a
    ensures a[..] == InsertionSort(old(a[..]), le)
  {
    var i := 0;
    while i < a.Length
      invariant 0 <= i <= a.Length
      invariant a[..i] == InsertionSort(old(a[..])[..i], le)
      invariant a[i..] == old(a[..])[i..]
    {
      FileInto(a, i, le);
      SortSnoc(old(a[..]), i, le);
      i := i + 1;
    }
    assert a[..] == a[..a.Length];
    assert old(a[..])[..a.Length] == old(a[..]);
  }
}
