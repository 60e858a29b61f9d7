/** `Array.prototype.sort` with a comparator, as the pages use it. The
    comparator `cmp(a, b)` of the source is abstracted to the relation
    `before(a, b)` meaning `cmp(a, b) <= 0`. The engine's sort is stable, so
    the model is a stable insertion sort: an element is placed in front of the
    first element it may precede. */
module Sorting {

  ghost predicate TotalPreorder<T(!new)>(before: (T, T) -> bool)
  {
    && (forall a, b :: before(a, b) || before(b, a))
    && (forall a, b, c :: before(a, b) && before(b, c) ==> before(a, c))
  }

  predicate SortedBy<T>(s: seq<T>, before: (T, T) -> bool)
  {
    forall i, j :: 0 <= i < j < |s| ==> before(s[i], s[j])
  }

  function Insert<T>(x: T, s: seq<T>, before: (T, T) -> bool): (r: seq<T>)
    ensures multiset(r) == multiset(s) + multiset{x}
  {
    if s == [] then [x]
    else if before(x, s[0]) then [x] + s
    else
      assert s == [s[0]] + s[1..];
      [s[0]] + Insert(x, s[1..], before)
  }

  function SortBy<T>(s: seq<T>, before: (T, T) -> bool): (r: seq<T>)
    ensures multiset(r) == multiset(s)
  {
    if s == [] then []
    else
      assert s == [s[0]] + s[1..];
      Insert(s[0], SortBy(s[1..], before), before)
  }

  lemma {:induction false} InsertSorted<T(!new)>(x: T, s: seq<T>, before: (T, T) -> bool)
    requires TotalPreorder(before)
    requires SortedBy(s, before)
    ensures SortedBy(Insert(x, s, before), before)
  {
    if s != [] && !before(x, s[0]) {
      var tail := Insert(x, s[1..], before);
      InsertSorted(x, s[1..], before);
      assert before(s[0], x);
      forall k | 0 <= k < |tail| ensures before(s[0], tail[k]) {
        assert tail[k] in multiset(tail);
        assert tail[k] == x || tail[k] in multiset(s[1..]);
        if tail[k] != x {
          var j :| 0 <= j < |s[1..]| && s[1..][j] == tail[k];
          assert s[j + 1] == tail[k];
        }
      }
      var r := [s[0]] + tail;
      forall i, j | 0 <= i < j < |r| ensures before(r[i], r[j]) {
        if i > 0 {
          assert r[i] == tail[i - 1] && r[j] == tail[j - 1];
        } else {
          assert r[j] == tail[j - 1];
        }
      }
    }
  }

  /** The sorted result is ordered by `before` and, by SortBy's own contract,
      a permutation of the input. */
  lemma {:induction false} SortBySorted<T(!new)>(s: seq<T>, before: (T, T) -> bool)
    requires TotalPreorder(before)
    ensures SortedBy(SortBy(s, before), before)
  {
    if s != [] {
      SortBySorted(s[1..], before);
      InsertSorted(s[0], SortBy(s[1..], before), before);
    }
  }

  /** `slice(0, n)`. */
  function Take<T>(s: seq<T>, n: nat): (r: seq<T>)
    ensures |r| == if |s| <= n then |s| else n
    ensures r == s[..|r|]
  {
    if |s| <= n then s else s[..n]
  }

  /** A prefix of a sorted sequence holds its least elements: whatever it
      leaves out comes after everything it keeps, and something is left out
      only when the prefix is full. */
  lemma TakeSortedKeepsLeast<T>(s: seq<T>, n: nat, before: (T, T) -> bool)
    requires SortedBy(s, before)
    ensures multiset(Take(s, n)) <= multiset(s)
    ensures forall x :: x in s && x !in Take(s, n) ==>
      |Take(s, n)| == n && forall k :: 0 <= k < |Take(s, n)| ==> before(Take(s, n)[k], x)
  {
    var r := Take(s, n);
    assert s == r + s[|r|..];
    assert multiset(s) == multiset(r) + multiset(s[|r|..]);
    forall x | x in s && x !in r
      ensures |r| == n && forall k :: 0 <= k < |r| ==> before(r[k], x)
    {
      var j :| 0 <= j < |s| && s[j] == x;
      forall k | 0 <= k < |r| ensures before(r[k], x) {
        assert r[k] == s[k];
      }
    }
  }
}
