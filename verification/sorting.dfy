/** A stable comparison sort, the reference for `Array.prototype.sort` with a
    comparator (section 23.1.3.30 of ECMA-262 requires it to be stable since
    the 2019 edition). Comparators are arbitrary `(T, T) -> int` functions:
    a negative or zero result keeps the first argument first. The sort is a
    permutation of its input; on an asymmetric comparator its output is in
    order, and on a comparator whose "at most" relation is transitive it
    keeps the input order of the elements that compare equal
    (`SortByStable`). On an inconsistent comparator the engine's order is
    implementation-defined. */
module Sorting {

  /** Every adjacent pair is in order: what the sorters' `isSorted` loops check. */
  ghost predicate Sorted<T>(s: seq<T>, cmp: (T, T) -> int)
  {
    forall i :: 0 < i < |s| ==> cmp(s[i - 1], s[i]) <= 0
  }

  /** The comparator never claims both `a > b` and `b > a` for elements of `xs`. */
  ghost predicate AsymmetricOn<T(!new)>(cmp: (T, T) -> int, xs: seq<T>)
  {
    forall a, b :: a in xs && b in xs && cmp(a, b) > 0 ==> cmp(b, a) <= 0
  }

  /** The comparator never claims both `a > b` and `b > a` for any pair: the
      one property of `localeCompare` the proofs rely on. */
  ghost predicate Asymmetric<T(!new)>(cmp: (T, T) -> int)
  {
    forall a, b :: cmp(a, b) > 0 ==> cmp(b, a) <= 0
  }

  /** The comparator's "at most" relation is transitive, as it is for any
      total preorder such as `localeCompare`. */
  ghost predicate Transitive<T(!new)>(cmp: (T, T) -> int)
  {
    forall a, b, c :: cmp(a, b) <= 0 && cmp(b, c) <= 0 ==> cmp(a, c) <= 0
  }

  /** `a` and `b` compare equal: neither goes after the other. */
  ghost predicate Equivalent<T>(cmp: (T, T) -> int, a: T, b: T)
  {
    cmp(a, b) <= 0 && cmp(b, a) <= 0
  }

  /** The elements of `s` that compare equal to `e`, in the order of `s`. */
  ghost function ClassOf<T>(s: seq<T>, e: T, cmp: (T, T) -> int): seq<T>
  {
    if s == [] then []
    else ClassOf(s[..|s| - 1], e, cmp) + (if Equivalent(cmp, s[|s| - 1], e) then [s[|s| - 1]] else [])
  }

  /** Inserts `x` after every element of `s` that compares at most equal,
      scanning from the end: the step of a stable insertion sort. */
  function InsertSorted<T>(s: seq<T>, x: T, cmp: (T, T) -> int): (r: seq<T>)
    ensures |r| == |s| + 1
    ensures multiset(r) == multiset(s) + multiset{x}
    ensures r[|r| - 1] == x || (s != [] && r[|r| - 1] == s[|s| - 1])
    decreases |s|
  {
    if s == [] then [x]
    else if cmp(s[|s| - 1], x) <= 0 then s + [x]
    else
      assert s == s[..|s| - 1] + [s[|s| - 1]];
      InsertSorted(s[..|s| - 1], x, cmp) + [s[|s| - 1]]
  }

  /** `[...xs].sort(cmp)`: a new sequence, a permutation of the input. */
  function SortBy<T>(xs: seq<T>, cmp: (T, T) -> int): (r: seq<T>)
    ensures multiset(r) == multiset(xs)
    ensures |r| == |xs|
  {
    if xs == [] then []
    else
      assert xs == xs[..|xs| - 1] + [xs[|xs| - 1]];
      InsertSorted(SortBy(xs[..|xs| - 1], cmp), xs[|xs| - 1], cmp)
  }

  /** Inserting `x` puts it after every element of its class. */
  lemma {:induction false} InsertStable<T(!new)>(s: seq<T>, x: T, e: T, cmp: (T, T) -> int)
    requires Transitive(cmp)
    ensures ClassOf(InsertSorted(s, x, cmp), e, cmp)
            == ClassOf(s, e, cmp) + (if Equivalent(cmp, x, e) then [x] else [])
    decreases |s|
  {
    hide ClassOf, Transitive, Equivalent;
    if s == [] {
      assert InsertSorted(s, x, cmp) == s + [x];
      ClassOfSnoc(s, x, e, cmp);
    } else if cmp(s[|s| - 1], x) <= 0 {
      ClassOfSnoc(s, x, e, cmp);
    } else {
      var init := s[..|s| - 1];
      var last := s[|s| - 1];
      InsertStable(init, x, e, cmp);
      var r := InsertSorted(init, x, cmp);
      assert InsertSorted(s, x, cmp) == r + [last];
      ClassOfSnoc(r, last, e, cmp);
      assert s == init + [last];
      ClassOfSnoc(init, last, e, cmp);
      // `last` goes after `x`, so the two are not in one class.
      NotBothEquivalent(last, x, e, cmp);
    }
  }

  /** The class of a sequence grown by one element. */
  lemma ClassOfSnoc<T>(s: seq<T>, y: T, e: T, cmp: (T, T) -> int)
    ensures ClassOf(s + [y], e, cmp) == ClassOf(s, e, cmp) + (if Equivalent(cmp, y, e) then [y] else [])
  {
    assert (s + [y])[..|s|] == s;
  }

  /** Under a transitive comparator, two elements of one class are never
      out of order. */
  lemma NotBothEquivalent<T(!new)>(a: T, b: T, e: T, cmp: (T, T) -> int)
    requires Transitive(cmp) && cmp(a, b) > 0
    ensures !(Equivalent(cmp, a, e) && Equivalent(cmp, b, e))
  {
  }

  /** Stability: for every element `e`, the elements equal to `e` come out of
      the sort in the order they went in. */
  lemma {:induction false} SortByStable<T(!new)>(xs: seq<T>, e: T, cmp: (T, T) -> int)
    requires Transitive(cmp)
    ensures ClassOf(SortBy(xs, cmp), e, cmp) == ClassOf(xs, e, cmp)
  {
    if xs != [] {
      var init := xs[..|xs| - 1];
      SortByStable(init, e, cmp);
      InsertStable(SortBy(init, cmp), xs[|xs| - 1], e, cmp);
    }
  }

  /** Two elements the comparator puts the other way round are swapped. */
  lemma SortTwo<T>(a: T, b: T, cmp: (T, T) -> int)
    requires cmp(a, b) > 0
    ensures SortBy([a, b], cmp) == [b, a]
  {
    assert [a, b][..1] == [a] && [a][..0] == [];
  }

  lemma {:induction false} InsertKeepsSorted<T(!new)>(s: seq<T>, x: T, cmp: (T, T) -> int)
    requires Sorted(s, cmp)
    requires AsymmetricOn(cmp, s + [x])
    ensures Sorted(InsertSorted(s, x, cmp), cmp)
    decreases |s|
  {
    if s == [] {
    } else if cmp(s[|s| - 1], x) <= 0 {
      SortedAppend(s, x, cmp);
    } else {
      var init := s[..|s| - 1];
      var last := s[|s| - 1];
      assert forall a :: a in init + [x] ==> a in s + [x];
      assert last in s + [x] && x in s + [x];
      assert cmp(x, last) <= 0;
      assert init != [] ==> cmp(init[|init| - 1], last) <= 0;
      InsertKeepsSorted(init, x, cmp);
      var r := InsertSorted(init, x, cmp);
      assert InsertSorted(s, x, cmp) == r + [last];
      hide InsertSorted;
      SortedAppend(r, last, cmp);
    }
  }

  /** An element that follows the last one in order extends a sorted
      sequence. */
  lemma SortedAppend<T>(s: seq<T>, y: T, cmp: (T, T) -> int)
    requires Sorted(s, cmp) && (s != [] ==> cmp(s[|s| - 1], y) <= 0)
    ensures Sorted(s + [y], cmp)
  {
    var t := s + [y];
    forall i | 0 < i < |t| ensures cmp(t[i - 1], t[i]) <= 0 {
      if i < |s| {
        assert t[i - 1] == s[i - 1] && t[i] == s[i];
      }
    }
  }

  /** The output of the sort is ordered whenever the comparator is asymmetric
      on the elements. */
  lemma {:induction false} SortBySorted<T(!new)>(xs: seq<T>, cmp: (T, T) -> int)
    requires AsymmetricOn(cmp, xs)
    ensures Sorted(SortBy(xs, cmp), cmp)
  {
    if xs != [] {
      var init := xs[..|xs| - 1];
      assert forall a :: a in init ==> a in xs;
      SortBySorted(init, cmp);
      var s := SortBy(init, cmp);
      forall a | a in s + [xs[|xs| - 1]] ensures a in xs {
        if a in s { assert a in multiset(s); assert a in multiset(init); }
      }
      InsertKeepsSorted(s, xs[|xs| - 1], cmp);
    }
  }

  /** Stability at work: a sequence that is already ordered comes back
      unchanged (no comparator assumption is needed). */
  lemma {:induction false} SortedFixpoint<T>(xs: seq<T>, cmp: (T, T) -> int)
    requires Sorted(xs, cmp)
    ensures SortBy(xs, cmp) == xs
  {
    if xs != [] {
      var init := xs[..|xs| - 1];
      SortedFixpoint(init, cmp);
      assert init + [xs[|xs| - 1]] == xs;
    }
  }

  /** Sorting twice is sorting once. */
  lemma SortByIdempotent<T(!new)>(xs: seq<T>, cmp: (T, T) -> int)
    requires AsymmetricOn(cmp, xs)
    ensures SortBy(SortBy(xs, cmp), cmp) == SortBy(xs, cmp)
  {
    SortBySorted(xs, cmp);
    SortedFixpoint(SortBy(xs, cmp), cmp);
  }

  /** An order under one comparator is an order under another one that
      accepts every pair the first accepts. */
  lemma SortedTransfer<T(!new)>(s: seq<T>, c1: (T, T) -> int, c2: (T, T) -> int)
    requires Sorted(s, c1)
    requires forall a, b :: a in s && b in s && c1(a, b) <= 0 ==> c2(a, b) <= 0
    ensures Sorted(s, c2)
  {
    forall i | 0 < i < |s| ensures c2(s[i - 1], s[i]) <= 0 {
      assert s[i - 1] in s && s[i] in s;
    }
  }
}
