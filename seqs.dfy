/** Order-preserving selection from a sequence, as `Array.prototype.filter`
    does it, and the sub-sequence relation that describes its result. */
module Seqs {

  /** `a` can be obtained from `b` by deleting elements (order kept). */
  predicate IsSubsequence<T(==)>(a: seq<T>, b: seq<T>)
    decreases |b|
  {
    if a == [] then true
    else if b == [] then false
    else if a[0] == b[0] then IsSubsequence(a[1..], b[1..])
    else IsSubsequence(a, b[1..])
  }

  /** The elements of `s` for which `keep` holds, in their original order. */
  function Filter<T(==,!new)>(s: seq<T>, keep: T -> bool): (r: seq<T>)
    ensures |r| <= |s|
    ensures IsSubsequence(r, s)
    ensures forall x :: x in r <==> x in s && keep(x)
    decreases |s|
  {
    if s == [] then []
    else
      assert s == [s[0]] + s[1..];
      var rest := Filter(s[1..], keep);
      if keep(s[0]) then [s[0]] + rest else rest
  }

  /** Each kept value occurs in the result as often as in the input; a
      dropped value does not occur. */
  lemma {:induction false} FilterCounts<T(!new)>(s: seq<T>, keep: T -> bool, x: T)
    ensures multiset(Filter(s, keep))[x] == if keep(x) then multiset(s)[x] else 0
    decreases |s|
  {
    if s != [] {
      FilterCounts(s[1..], keep, x);
      assert s == [s[0]] + s[1..];
    }
  }

  /** Filtering with a condition every element meets returns the input. */
  lemma {:induction false} FilterKeepsAll<T(!new)>(s: seq<T>, keep: T -> bool)
    requires forall x :: x in s ==> keep(x)
    ensures Filter(s, keep) == s
    decreases |s|
  {
    if s != [] {
      FilterKeepsAll(s[1..], keep);
    }
  }

  /** Filtering twice is filtering once with the conjunction. */
  lemma {:induction false} FilterOfFilter<T(!new)>(s: seq<T>, first: T -> bool, second: T -> bool, both: T -> bool)
    requires forall x :: both(x) == (first(x) && second(x))
    ensures Filter(Filter(s, first), second) == Filter(s, both)
    decreases |s|
  {
    if s != [] {
      FilterOfFilter(s[1..], first, second, both);
    }
  }

  /** Sizes of the two halves of a partition add up. */
  lemma {:induction false} FilterPartitionSize<T(!new)>(s: seq<T>, keep: T -> bool, left: T -> bool, right: T -> bool)
    requires forall x :: left(x) == (keep(x) && !right(x))
    requires forall x :: right(x) ==> keep(x)
    ensures |Filter(s, left)| + |Filter(s, right)| == |Filter(s, keep)|
    decreases |s|
  {
    if s != [] {
      FilterPartitionSize(s[1..], keep, left, right);
    }
  }

  /** Filtering a sequence extended by one element extends the result by
      that element exactly when it is kept. */
  lemma {:induction false} FilterSnoc<T(!new)>(s: seq<T>, x: T, keep: T -> bool)
    ensures Filter(s + [x], keep) == Filter(s, keep) + (if keep(x) then [x] else [])
    decreases |s|
  {
    if s == [] {
      assert [x][1..] == [];
    } else {
      var t := s + [x];
      assert t[0] == s[0] && t[1..] == s[1..] + [x];
      FilterSnoc(s[1..], x, keep);
      assert Filter(t, keep) == (if keep(s[0]) then [s[0]] else []) + Filter(t[1..], keep);
      assert Filter(s, keep) == (if keep(s[0]) then [s[0]] else []) + Filter(s[1..], keep);
    }
  }

  /** The same step read from the end of a non-empty sequence. */
  lemma FilterDropLast<T(!new)>(s: seq<T>, keep: T -> bool)
    requires s != []
    ensures Filter(s, keep) == Filter(s[..|s| - 1], keep) + (if keep(s[|s| - 1]) then [s[|s| - 1]] else [])
  {
    var front, x := s[..|s| - 1], s[|s| - 1];
    calc {
      Filter(s, keep);
    == { assert s == front + [x]; }
      Filter(front + [x], keep);
    == { FilterSnoc(front, x, keep); }
      Filter(front, keep) + (if keep(x) then [x] else []);
    }
  }

  /** ... so one more element of a prefix adds one to the number kept
      exactly when it is kept. */
  lemma FilterPrefixLength<T(!new)>(s: seq<T>, i: nat, keep: T -> bool)
    requires i < |s|
    ensures |Filter(s[..i + 1], keep)| == |Filter(s[..i], keep)| + (if keep(s[i]) then 1 else 0)
  {
    assert s[..i + 1] == s[..i] + [s[i]];
    FilterSnoc(s[..i], s[i], keep);
  }

  /** Filtering keeps every element exactly when the result is as long as
      the input. */
  lemma {:induction false} AllKeptIffFullSize<T(!new)>(s: seq<T>, keep: T -> bool)
    ensures |Filter(s, keep)| == |s| <==> forall x :: x in s ==> keep(x)
    decreases |s|
  {
    if s != [] {
      AllKeptIffFullSize(s[1..], keep);
      assert s == [s[0]] + s[1..];
      assert forall x :: x in s <==> x == s[0] || x in s[1..];
    }
  }

  /** For the first `n` elements of `s` that satisfy `keep`, in order, the
      value `f` gives for the element and its position. */
  function MapWhere<T, U>(s: seq<T>, n: nat, keep: T -> bool, f: (T, nat) -> U): (r: seq<U>)
    requires n <= |s|
    ensures |r| <= n
    decreases n
  {
    if n == 0 then []
    else MapWhere(s, n - 1, keep, f) + (if keep(s[n - 1]) then [f(s[n - 1], n - 1)] else [])
  }

  /** Each result comes from a kept element at an earlier position. */
  lemma {:induction false} MapWhereSource<T, U>(s: seq<T>, n: nat, keep: T -> bool, f: (T, nat) -> U, k: nat)
    requires n <= |s| && k < |MapWhere(s, n, keep, f)|
    ensures exists j :: 0 <= j < n && keep(s[j]) && MapWhere(s, n, keep, f)[k] == f(s[j], j)
    decreases n
  {
    var prefix := MapWhere(s, n - 1, keep, f);
    if k < |prefix| {
      MapWhereSource(s, n - 1, keep, f, k);
      var j :| 0 <= j < n - 1 && keep(s[j]) && prefix[k] == f(s[j], j);
      assert MapWhere(s, n, keep, f)[k] == prefix[k];
    } else {
      assert MapWhere(s, n, keep, f)[k] == f(s[n - 1], n - 1);
    }
  }

  /** When every element is kept, the result is `f` applied at each position. */
  lemma {:induction false} MapWhereAllKept<T, U>(s: seq<T>, n: nat, keep: T -> bool, f: (T, nat) -> U)
    requires n <= |s|
    requires forall j :: 0 <= j < n ==> keep(s[j])
    ensures |MapWhere(s, n, keep, f)| == n
    ensures forall k :: 0 <= k < n ==> MapWhere(s, n, keep, f)[k] == f(s[k], k)
    decreases n
  {
    if n > 0 {
      MapWhereAllKept(s, n - 1, keep, f);
      var prefix := MapWhere(s, n - 1, keep, f);
      assert MapWhere(s, n, keep, f) == prefix + [f(s[n - 1], n - 1)];
    }
  }
}
