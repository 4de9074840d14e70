/** Order-preserving filtering of sequences, shared by every list handler of the model. */
module Seqs {

  /** `a` is `b` with some elements left out and the rest kept in their order. */
  predicate IsSubsequence<T(==)>(a: seq<T>, b: seq<T>)
    decreases |b|
  {
    if |a| == 0 then true
    else if |b| == 0 then false
    else if a[0] == b[0] then IsSubsequence(a[1..], b[1..])
    else IsSubsequence(a, b[1..])
  }

  /** No element occurs twice. */
  ghost predicate Distinct<T(!new)>(s: seq<T>) {
    forall x :: multiset(s)[x] <= 1
  }

  /** The elements of `xs` that `keep` accepts, in their original order
      (JavaScript's `Array.prototype.filter`, a Python list comprehension with a guard). */
  function Filter<T(!new)>(xs: seq<T>, keep: T -> bool): (r: seq<T>)
    ensures |r| <= |xs|
    ensures forall i :: 0 <= i < |r| ==> keep(r[i])
  {
    if |xs| == 0 then []
    else
      var rest := Filter(xs[1..], keep);
      if keep(xs[0]) then
        assert ([xs[0]] + rest)[1..] == rest;
        [xs[0]] + rest
      else
        rest
  }

  /** An element survives filtering exactly when it occurs and is accepted. */
  lemma {:induction false} FilterMembers<T(!new)>(xs: seq<T>, keep: T -> bool)
    ensures forall x :: x in Filter(xs, keep) <==> x in xs && keep(x)
  {
    if |xs| > 0 {
      FilterMembers(xs[1..], keep);
      assert xs == [xs[0]] + xs[1..];
    }
  }

  /** Filtering keeps the surviving elements in their original order. */
  lemma {:induction false} FilterIsSubsequence<T(!new)>(xs: seq<T>, keep: T -> bool)
    ensures IsSubsequence(Filter(xs, keep), xs)
  {
    if |xs| > 0 {
      FilterIsSubsequence(xs[1..], keep);
      var rest := Filter(xs[1..], keep);
      if keep(xs[0]) {
        assert ([xs[0]] + rest)[1..] == rest;
      }
    }
  }

  /** Filtering keeps every accepted element as often as it occurs and drops
      every other one entirely. */
  lemma {:induction false} FilterMultiset<T(!new)>(xs: seq<T>, keep: T -> bool)
    ensures forall x :: multiset(Filter(xs, keep))[x] == if keep(x) then multiset(xs)[x] else 0
  {
    if |xs| > 0 {
      assert xs == [xs[0]] + xs[1..];
      FilterMultiset(xs[1..], keep);
    }
  }

  /** An accepted head stays at the front. */
  lemma FilterKeptHead<T(!new)>(x: T, xs: seq<T>, keep: T -> bool)
    requires keep(x)
    ensures Filter([x] + xs, keep) == [x] + Filter(xs, keep)
  {
    assert ([x] + xs)[1..] == xs;
  }

  /** A rejected head disappears. */
  lemma FilterDroppedHead<T(!new)>(x: T, xs: seq<T>, keep: T -> bool)
    requires !keep(x)
    ensures Filter([x] + xs, keep) == Filter(xs, keep)
  {
    assert ([x] + xs)[1..] == xs;
  }

  /** Filtering distributes over concatenation. */
  lemma {:induction false} FilterAppend<T(!new)>(a: seq<T>, b: seq<T>, keep: T -> bool)
    ensures Filter(a + b, keep) == Filter(a, keep) + Filter(b, keep)
  {
    if |a| == 0 {
      assert a + b == b;
    } else {
      assert (a + b)[1..] == a[1..] + b;
      FilterAppend(a[1..], b, keep);
    }
  }

  /** A filter that accepts every element is the identity. */
  lemma {:induction false} FilterKeepsAll<T(!new)>(xs: seq<T>, keep: T -> bool)
    requires forall i :: 0 <= i < |xs| ==> keep(xs[i])
    ensures Filter(xs, keep) == xs
  {
    if |xs| > 0 {
      FilterKeepsAll(xs[1..], keep);
    }
  }

  /** A filter that accepts no element leaves nothing. */
  lemma {:induction false} FilterDropsAll<T(!new)>(xs: seq<T>, keep: T -> bool)
    requires forall i :: 0 <= i < |xs| ==> !keep(xs[i])
    ensures Filter(xs, keep) == []
  {
    if |xs| > 0 {
      FilterDropsAll(xs[1..], keep);
    }
  }

  /** Filtering twice by the same test is filtering once. */
  lemma FilterIdempotent<T(!new)>(xs: seq<T>, keep: T -> bool)
    ensures Filter(Filter(xs, keep), keep) == Filter(xs, keep)
  {
    var r := Filter(xs, keep);
    forall i | 0 <= i < |r|
      ensures keep(r[i])
    {
      assert r[i] in r;
    }
    FilterKeepsAll(r, keep);
  }

  /** A subsequence takes no element more often than the sequence holds it. */
  lemma {:induction false} SubsequenceMultiset<T>(a: seq<T>, b: seq<T>)
    requires IsSubsequence(a, b)
    ensures multiset(a) <= multiset(b)
    decreases |b|
  {
    if |a| == 0 {
    } else if |b| == 0 {
    } else if a[0] == b[0] {
      SubsequenceMultiset(a[1..], b[1..]);
      assert a == [a[0]] + a[1..];
      assert b == [b[0]] + b[1..];
    } else {
      SubsequenceMultiset(a, b[1..]);
      assert b == [b[0]] + b[1..];
    }
  }

  /** The positions of `xs` whose element `keep` accepts. */
  ghost function Matches<T>(xs: seq<T>, keep: T -> bool): set<int> {
    set i | 0 <= i < |xs| && keep(xs[i])
  }

  /** `filter(...).length` counts the accepted positions. */
  lemma {:induction false} FilterLengthCountsMatches<T(!new)>(xs: seq<T>, keep: T -> bool)
    ensures |Filter(xs, keep)| == |Matches(xs, keep)|
    decreases |xs|
  {
    if |xs| > 0 {
      var init, last := xs[..|xs| - 1], xs[|xs| - 1];
      assert xs == init + [last];
      FilterLengthCountsMatches(init, keep);
      FilterAppend(init, [last], keep);
      assert [last][1..] == [];
      var n := |init|;
      if keep(last) {
        assert Matches(xs, keep) == Matches(init, keep) + {n};
        assert n !in Matches(init, keep);
      } else {
        assert Matches(xs, keep) == Matches(init, keep);
      }
    }
  }

  /** A relation that holds position by position between `xs[1..]` and `ys`,
      and between the heads, holds position by position once `y` is put in
      front of `ys`. */
  lemma PointwiseCons<A, B>(xs: seq<A>, y: B, ys: seq<B>, rel: (A, B) -> bool)
    requires 0 < |xs| && |ys| < |xs| && rel(xs[0], y)
    requires forall k :: 0 <= k < |ys| ==> rel(xs[1..][k], ys[k])
    ensures forall k :: 0 <= k < |ys| + 1 ==> rel(xs[k], ([y] + ys)[k])
  {
    var all := [y] + ys;
    forall k | 0 <= k < |ys| + 1
      ensures rel(xs[k], all[k])
    {
      if k > 0 {
        assert xs[1..][k - 1] == xs[k];
        assert all[k] == ys[k - 1];
      }
    }
  }

  /** A subsequence of `b` is one of `b` with an element added at the end. */
  lemma {:induction false} SubsequenceOfSnoc<T>(a: seq<T>, b: seq<T>, x: T)
    requires IsSubsequence(a, b)
    ensures IsSubsequence(a, b + [x])
    decreases |b|
  {
    if |a| > 0 {
      assert (b + [x])[1..] == b[1..] + [x];
      if a[0] == b[0] {
        SubsequenceOfSnoc(a[1..], b[1..], x);
      } else {
        SubsequenceOfSnoc(a, b[1..], x);
      }
    }
  }

  /** Adding the same element at the end of both keeps a subsequence one. */
  lemma {:induction false} SubsequenceSnocBoth<T>(a: seq<T>, b: seq<T>, x: T)
    requires IsSubsequence(a, b)
    ensures IsSubsequence(a + [x], b + [x])
    decreases |b|
  {
    if |b| > 0 {
      assert (b + [x])[1..] == b[1..] + [x];
      if |a| > 0 && a[0] == b[0] {
        assert (a + [x])[1..] == a[1..] + [x];
        SubsequenceSnocBoth(a[1..], b[1..], x);
      } else if |a| > 0 {
        SubsequenceSnocBoth(a, b[1..], x);
      } else {
        assert a + [x] == [x];
        if b[0] != x {
          SubsequenceSnocBoth(a, b[1..], x);
        }
      }
    } else {
      assert |a| == 0 && a + [x] == b + [x];
      assert (a + [x])[1..] == [];
    }
  }

  /** `xs` with every repeat of an earlier element left out, so each element
      appears once, at its first position. */
  function Dedup<T(==,!new)>(xs: seq<T>): (r: seq<T>)
    ensures forall x :: x in r <==> x in xs
    ensures forall i, j :: 0 <= i < j < |r| ==> r[i] != r[j]
    ensures |r| <= |xs|
    ensures IsSubsequence(r, xs)
    ensures forall i, j, k :: 0 <= i < j < |r| && 0 <= k < |xs| && xs[k] == r[j] ==> r[i] in xs[..k]
    decreases |xs|
  {
    if |xs| == 0 then []
    else
      var init, last := xs[..|xs| - 1], xs[|xs| - 1];
      assert xs == init + [last];
      var r := Dedup(init);
      if last in r then
        SubsequenceOfSnoc(r, init, last);
        r
      else
        SubsequenceSnocBoth(r, init, last);
        r + [last]
  }
}
