/** Small shared vocabulary: optional values, the array `filter` and
    `reduce`-to-a-sum idioms the pages use, and keyed lookup with a default. */
module Common {

  datatype Option<+T> = None | Some(value: T)

  /** `xs.filter(keep)`: the elements that pass, in their original order. */
  function Filter<T>(s: seq<T>, keep: T -> bool): (r: seq<T>)
    ensures |r| <= |s|
    ensures forall i :: 0 <= i < |r| ==> r[i] in s && keep(r[i])
    ensures forall i :: 0 <= i < |s| && keep(s[i]) ==> s[i] in r
  {
    if s == [] then [] else (if keep(s[0]) then [s[0]] else []) + Filter(s[1..], keep)
  }

  /** Filtering distributes over concatenation; with FilterSingleton this pins
      the result down as the order-preserving subsequence of passing elements. */
  lemma {:induction false} FilterAppend<T>(a: seq<T>, b: seq<T>, keep: T -> bool)
    ensures Filter(a + b, keep) == Filter(a, keep) + Filter(b, keep)
  {
    if a == [] {
      assert a + b == b;
    } else {
      assert (a + b)[1..] == a[1..] + b;
      FilterAppend(a[1..], b, keep);
    }
  }

  lemma FilterSingleton<T>(x: T, keep: T -> bool)
    ensures Filter([x], keep) == if keep(x) then [x] else []
  {
    assert [x][1..] == [];
  }

  /** Nothing is dropped when every element passes. */
  lemma {:induction false} FilterAllPass<T>(s: seq<T>, keep: T -> bool)
    requires forall i :: 0 <= i < |s| ==> keep(s[i])
    ensures Filter(s, keep) == s
  {
    if s != [] {
      FilterAllPass(s[1..], keep);
    }
  }

  /** A filter and its complement split the input: every element lands in
      exactly one of the two results, with its multiplicity. */
  lemma {:induction false} FilterPartition<T>(s: seq<T>, keep: T -> bool)
    ensures multiset(Filter(s, keep)) + multiset(Filter(s, x => !keep(x))) == multiset(s)
  {
    if s != [] {
      FilterPartition(s[1..], keep);
      assert s == [s[0]] + s[1..];
    }
  }

  /** Two filters whose tests agree on every element keep the same elements. */
  lemma {:induction false} FilterSame<T>(s: seq<T>, keep: T -> bool, keep': T -> bool)
    requires forall x :: keep(x) == keep'(x)
    ensures Filter(s, keep) == Filter(s, keep')
  {
    if s != [] {
      FilterSame(s[1..], keep, keep');
    }
  }

  /** The elements of a sub-multiset are elements of the larger sequence. */
  lemma SubMultisetMembers<T>(a: seq<T>, b: seq<T>)
    requires multiset(a) <= multiset(b)
    ensures forall k :: 0 <= k < |a| ==> a[k] in b
  {
    forall k | 0 <= k < |a| ensures a[k] in b {
      assert a[k] in multiset(a);
    }
  }

  /** `m[k] ?? d`. */
  function GetOr<K, V>(m: map<K, V>, k: K, d: V): (r: V)
    ensures k in m ==> r == m[k]
    ensures k !in m ==> r == d
  {
    if k in m then m[k] else d
  }

  /** `xs.reduce((sum, x) => sum + f(x), 0)`, folded from the left. */
  function SumOf<T>(s: seq<T>, f: T -> int): int
  {
    if s == [] then 0 else SumOf(s[..|s| - 1], f) + f(s[|s| - 1])
  }

  lemma {:induction false} SumOfAppend<T>(a: seq<T>, b: seq<T>, f: T -> int)
    ensures SumOf(a + b, f) == SumOf(a, f) + SumOf(b, f)
    decreases |b|
  {
    if b == [] {
      assert a + b == a;
    } else {
      assert (a + b)[..|a + b| - 1] == a + b[..|b| - 1];
      SumOfAppend(a, b[..|b| - 1], f);
    }
  }

  lemma {:induction false} SumOfNonNegative<T>(s: seq<T>, f: T -> int)
    requires forall i :: 0 <= i < |s| ==> f(s[i]) >= 0
    ensures SumOf(s, f) >= 0
  {
    if s != [] {
      SumOfNonNegative(s[..|s| - 1], f);
    }
  }
}
