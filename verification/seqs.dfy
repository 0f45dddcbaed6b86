/** Sequence helpers shared by the validators and the client-side helpers:
    distinct values in first-seen order (what a JavaScript `Set` iterates),
    order-preserving filtering, and flattening. */
module Seqs {

  predicate Distinct<T(==)>(s: seq<T>)
  {
    forall i, j :: 0 <= i < j < |s| ==> s[i] != s[j]
  }

  /** `x` is one of the first `n` elements of `s`. */
  predicate Among<T(==)>(x: T, s: seq<T>, n: nat)
  {
    exists k :: 0 <= k < n && k < |s| && s[k] == x
  }

  lemma AmongStep<T>(x: T, s: seq<T>, n: nat)
    requires 0 < n <= |s|
    ensures Among(x, s, n) <==> Among(x, s, n - 1) || s[n - 1] == x
  {
    if s[n - 1] == x {
      assert 0 <= n - 1 < n && s[n - 1] == x;
    }
  }

  /** Among all the elements is membership. */
  lemma AmongAll<T>(x: T, s: seq<T>)
    ensures Among(x, s, |s|) <==> x in s
  {
  }

  /** In a sequence without repetitions, element `n - 1` is not among the
      elements before it. */
  lemma AmongDistinct<T>(s: seq<T>, n: nat)
    requires 0 < n <= |s| && Distinct(s)
    ensures !Among(s[n - 1], s, n - 1)
  {
  }

  /** `a` is an order-preserving sublist of `b` (matched greedily from the end). */
  predicate IsSubsequence<T(==)>(a: seq<T>, b: seq<T>)
    decreases |b|
  {
    if a == [] then true
    else if b == [] then false
    else if a[|a| - 1] == b[|b| - 1] then IsSubsequence(a[..|a| - 1], b[..|b| - 1])
    else IsSubsequence(a, b[..|b| - 1])
  }

  /** Every sequence is a sublist of itself. */
  lemma {:induction false} SubsequenceRefl<T>(xs: seq<T>)
    ensures IsSubsequence(xs, xs)
  {
    if xs != [] {
      SubsequenceRefl(xs[..|xs| - 1]);
    }
  }

  /** A sublist of a sublist is a sublist. */
  lemma {:induction false} SubsequenceTrans<T(!new)>(a: seq<T>, b: seq<T>, c: seq<T>)
    requires IsSubsequence(a, b) && IsSubsequence(b, c)
    ensures IsSubsequence(a, c)
    decreases |c|
  {
    if a != [] {
      var c' := c[..|c| - 1];
      assert b != [] && c != [];
      if b[|b| - 1] == c[|c| - 1] {
        var b' := b[..|b| - 1];
        if a[|a| - 1] == b[|b| - 1] {
          SubsequenceTrans(a[..|a| - 1], b', c');
        } else {
          SubsequenceTrans(a, b', c');
        }
      } else {
        SubsequenceTrans(a, b, c');
        if a[|a| - 1] == c[|c| - 1] {
          SubsequenceDropLast(a, c');
        }
      }
    }
  }

  /** The distinct values of `xs`, each at the position of its first
      occurrence: what `Array.from(new Set(xs))` returns. */
  function FirstSeen<T(==)>(xs: seq<T>): (r: seq<T>)
    ensures |r| <= |xs|
  {
    if xs == [] then []
    else
      var prev := FirstSeen(xs[..|xs| - 1]);
      if xs[|xs| - 1] in prev then prev else prev + [xs[|xs| - 1]]
  }

  /** The first-seen list holds every value of `xs`, each once. */
  lemma {:induction false} FirstSeenSpec<T>(xs: seq<T>)
    ensures forall x :: x in FirstSeen(xs) <==> x in xs
    ensures Distinct(FirstSeen(xs))
  {
    if xs != [] {
      var init := xs[..|xs| - 1];
      FirstSeenSpec(init);
      assert xs == init + [xs[|xs| - 1]];
    }
  }

  /** One more value: it is appended unless it has been seen. */
  lemma FirstSeenStep<T>(xs: seq<T>, x: T)
    ensures FirstSeen(xs + [x]) == if x in FirstSeen(xs) then FirstSeen(xs) else FirstSeen(xs) + [x]
  {
    assert (xs + [x])[..|xs|] == xs;
  }

  /** A sequence without repetitions holds each value at most once. */
  lemma {:induction false} DistinctCount<T>(s: seq<T>, x: T)
    requires Distinct(s)
    ensures multiset(s)[x] <= 1
  {
    if s != [] {
      var init := s[..|s| - 1];
      DistinctCount(init, x);
      assert s == init + [s[|s| - 1]];
      if x == s[|s| - 1] {
        assert x !in init;
      }
    }
  }

  /** Appending a new value keeps a sequence free of repetitions. */
  lemma DistinctSnoc<T>(s: seq<T>, x: T)
    requires Distinct(s) && x !in s
    ensures Distinct(s + [x])
  {
  }

  /** Appending elements other than `x` leaves the count of `x` alone. */
  lemma CountAppendAbsent<T>(a: seq<T>, b: seq<T>, x: T)
    requires x !in b
    ensures multiset(a + b)[x] == multiset(a)[x]
  {
  }

  /** Prepending elements other than `x` leaves the count of `x` alone. */
  lemma CountPrependAbsent<T>(a: seq<T>, b: seq<T>, x: T)
    requires x !in a
    ensures multiset(a + b)[x] == multiset(b)[x]
  {
  }

  /** Reordering keeps a sequence free of repetitions. */
  lemma DistinctPermutation<T>(a: seq<T>, b: seq<T>)
    requires multiset(a) == multiset(b) && Distinct(a)
    ensures Distinct(b)
  {
    forall i, j | 0 <= i < j < |b| ensures b[i] != b[j] {
      if b[i] == b[j] {
        var x := b[i];
        assert b == b[..i] + [x] + b[i + 1..j] + [x] + b[j + 1..];
        assert multiset(b)[x] >= 2;
        DistinctCount(a, x);
      }
    }
  }

  /** A sequence without repetitions is its own first-seen list. */
  lemma {:induction false} FirstSeenOfDistinct<T(!new)>(xs: seq<T>)
    requires Distinct(xs)
    ensures FirstSeen(xs) == xs
  {
    if xs != [] {
      FirstSeenOfDistinct(xs[..|xs| - 1]);
      assert xs[|xs| - 1] !in xs[..|xs| - 1];
    }
  }

  /** First-seen order: the distinct values keep the relative order in which
      they first appear. */
  lemma {:induction false} FirstSeenIsSubsequence<T(!new)>(xs: seq<T>)
    ensures IsSubsequence(FirstSeen(xs), xs)
  {
    if xs != [] {
      var init := xs[..|xs| - 1];
      FirstSeenIsSubsequence(init);
      var prev := FirstSeen(init);
      if xs[|xs| - 1] in prev {
        SubsequenceExtend(prev, init, xs[|xs| - 1]);
        assert init + [xs[|xs| - 1]] == xs;
      } else {
        assert (prev + [xs[|xs| - 1]])[..|prev|] == prev;
      }
    }
  }

  /** The position of the first occurrence of `x` in `xs`. */
  function FirstIndex<T(==)>(xs: seq<T>, x: T): (r: nat)
    requires x in xs
    ensures r < |xs| && xs[r] == x
    ensures forall k :: 0 <= k < r ==> xs[k] != x
  {
    var init := xs[..|xs| - 1];
    if x in init then FirstIndex(init, x) else |xs| - 1
  }

  /** First-seen order, stated outright: of two values of the first-seen
      list, the earlier one first occurs earlier in `xs`. */
  lemma {:induction false} FirstSeenOrder<T(!new)>(xs: seq<T>, i: nat, j: nat)
    requires i < j < |FirstSeen(xs)|
    ensures FirstSeen(xs)[i] in xs && FirstSeen(xs)[j] in xs
    ensures FirstIndex(xs, FirstSeen(xs)[i]) < FirstIndex(xs, FirstSeen(xs)[j])
  {
    var init := xs[..|xs| - 1];
    var last := xs[|xs| - 1];
    var prev := FirstSeen(init);
    FirstSeenSpec(init);
    FirstSeenSpec(xs);
    var r := FirstSeen(xs);
    assert r[i] in r && r[j] in r;
    if j < |prev| {
      assert r[i] == prev[i] && r[j] == prev[j];
      assert prev[i] in prev && prev[j] in prev;
      FirstSeenOrder(init, i, j);
    } else {
      assert last !in prev && r == prev + [last] && r[j] == last;
      assert r[i] == prev[i] && prev[i] in prev;
    }
  }

  /** Appending to the longer sequence keeps a sublist. */
  lemma {:induction false} SubsequenceExtend<T>(a: seq<T>, b: seq<T>, x: T)
    requires IsSubsequence(a, b)
    ensures IsSubsequence(a, b + [x])
    decreases |a| + |b|, 1
  {
    assert (b + [x])[..|b|] == b;
    if a != [] && a[|a| - 1] == x {
      SubsequenceDropLast(a, b);
    }
  }

  /** Dropping the last element of the shorter sequence keeps a sublist. */
  lemma {:induction false} SubsequenceDropLast<T>(a: seq<T>, b: seq<T>)
    requires a != [] && IsSubsequence(a, b)
    ensures IsSubsequence(a[..|a| - 1], b)
    decreases |a| + |b|, 0
  {
    var b' := b[..|b| - 1];
    assert b' + [b[|b| - 1]] == b;
    if a[|a| - 1] == b[|b| - 1] {
      SubsequenceExtend(a[..|a| - 1], b', b[|b| - 1]);
    } else {
      SubsequenceDropLast(a, b');
      SubsequenceExtend(a[..|a| - 1], b', b[|b| - 1]);
    }
  }

  /** `xs.filter(p)`. */
  function Filter<T(!new)>(xs: seq<T>, p: T -> bool): (r: seq<T>)
    ensures |r| <= |xs|
    ensures forall x :: x in r <==> x in xs && p(x)
  {
    if xs == [] then []
    else Filter(xs[..|xs| - 1], p) + (if p(xs[|xs| - 1]) then [xs[|xs| - 1]] else [])
  }

  /** Filtering a non-empty list filters its prefix, then its last element. */
  lemma FilterLast<T(!new)>(xs: seq<T>, p: T -> bool)
    requires xs != []
    ensures Filter(xs, p) == Filter(xs[..|xs| - 1], p) + (if p(xs[|xs| - 1]) then [xs[|xs| - 1]] else [])
  {
  }

  /** A filter result is an order-preserving sublist of its input. */
  lemma {:induction false} FilterIsSubsequence<T(!new)>(xs: seq<T>, p: T -> bool)
    ensures IsSubsequence(Filter(xs, p), xs)
  {
    if xs != [] {
      var init := xs[..|xs| - 1];
      var last := xs[|xs| - 1];
      FilterIsSubsequence(init, p);
      var a := Filter(init, p);
      if p(last) {
        assert (a + [last])[..|a|] == a;
      } else {
        assert Filter(xs, p) == a;
        if a != [] {
          assert a[|a| - 1] in a;
        }
      }
    }
  }

  /** Filtering keeps the multiplicity of every element that passes. */
  lemma {:induction false} FilterCount<T(!new)>(xs: seq<T>, p: T -> bool, x: T)
    ensures multiset(Filter(xs, p))[x] == if p(x) then multiset(xs)[x] else 0
  {
    if xs != [] {
      FilterCount(xs[..|xs| - 1], p, x);
      assert xs == xs[..|xs| - 1] + [xs[|xs| - 1]];
    }
  }

  function Flatten<T(!new)>(xss: seq<seq<T>>): (r: seq<T>)
    ensures forall x :: x in r <==> exists k :: 0 <= k < |xss| && x in xss[k]
  {
    if xss == [] then []
    else
      var r := Flatten(xss[..|xss| - 1]) + xss[|xss| - 1];
      assert forall x :: x in r <==> exists k :: 0 <= k < |xss| && x in xss[k] by {
        forall x ensures x in r <==> exists k :: 0 <= k < |xss| && x in xss[k] {
          if x in Flatten(xss[..|xss| - 1]) {
            var k :| 0 <= k < |xss| - 1 && x in xss[..|xss| - 1][k];
            assert x in xss[k];
          }
        }
      }
      r
  }
}
