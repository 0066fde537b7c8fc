/** Generic sequence helpers: the order-preserving filter behind every
    `for p in list(...): if ...: delete(p)` loop, and sums of reals. */
module Seqs {

  /** The elements of `s` that `keep` accepts, in their original order. */
  function Filter<T>(s: seq<T>, keep: T -> bool): (r: seq<T>)
    ensures |r| <= |s|
    ensures forall i :: 0 <= i < |r| ==> r[i] in s && keep(r[i])
    ensures forall i :: 0 <= i < |s| && keep(s[i]) ==> s[i] in r
  {
    if |s| == 0 then []
    else if keep(s[0]) then [s[0]] + Filter(s[1..], keep)
    else Filter(s[1..], keep)
  }

  /** Filtering a concatenation filters each part in place: survivors keep
      their relative order. */
  lemma {:induction false} FilterAppend<T>(a: seq<T>, b: seq<T>, keep: T -> bool)
    ensures Filter(a + b, keep) == Filter(a, keep) + Filter(b, keep)
    decreases |a|
  {
    if |a| > 0 {
      assert (a + b)[1..] == a[1..] + b;
      FilterAppend(a[1..], b, keep);
    } else {
      assert a + b == b;
    }
  }

  /** Filtering keeps a sequence whose elements all pass as it is. */
  lemma {:induction false} FilterAll<T>(s: seq<T>, keep: T -> bool)
    requires forall i :: 0 <= i < |s| ==> keep(s[i])
    ensures Filter(s, keep) == s
    decreases |s|
  {
    if |s| > 0 {
      FilterAll(s[1..], keep);
      assert [s[0]] + s[1..] == s;
    }
  }

  /** A second filter with the same test removes nothing more. */
  lemma FilterIdempotent<T>(s: seq<T>, keep: T -> bool)
    ensures Filter(Filter(s, keep), keep) == Filter(s, keep)
  {
    var r := Filter(s, keep);
    assert forall i :: 0 <= i < |r| ==> r[i] in r;
    FilterAll(r, keep);
  }

  /** `f` picks the elements of `a` out of `b` at strictly increasing
      positions. */
  ghost predicate Embeds<T>(f: seq<nat>, a: seq<T>, b: seq<T>) {
    && |f| == |a|
    && (forall i :: 0 <= i < |f| ==> f[i] < |b| && a[i] == b[f[i]])
    && (forall i, j :: 0 <= i < j < |f| ==> f[i] < f[j])
  }

  /** `a` is `b` with some elements left out, the rest in their order. */
  ghost predicate Subsequence<T>(a: seq<T>, b: seq<T>) {
    exists f :: Embeds(f, a, b)
  }

  /** The positions from `from` on whose elements `keep` accepts. */
  function KeptPositions<T>(s: seq<T>, keep: T -> bool, from: nat): (f: seq<nat>)
    requires from <= |s|
    ensures forall i :: 0 <= i < |f| ==> from <= f[i] < |s|
    decreases |s| - from
  {
    if from == |s| then []
    else (if keep(s[from]) then [from] else []) + KeptPositions(s, keep, from + 1)
  }

  lemma {:induction false} FilterEmbedsFrom<T>(s: seq<T>, keep: T -> bool, from: nat)
    requires from <= |s|
    ensures Embeds(KeptPositions(s, keep, from), Filter(s[from..], keep), s)
    decreases |s| - from
  {
    if from < |s| {
      FilterEmbedsFrom(s, keep, from + 1);
      assert s[from..][1..] == s[from + 1..];
    }
  }

  /** What a filter keeps is an in-order subsequence of its input. */
  lemma FilterSubsequence<T>(s: seq<T>, keep: T -> bool)
    ensures Subsequence(Filter(s, keep), s)
  {
    FilterEmbedsFrom(s, keep, 0);
    assert s[0..] == s;
    assert Embeds(KeptPositions(s, keep, 0), Filter(s, keep), s);
  }

  /** Filtering keeps each accepted value as often as it occurs and drops
      every other value entirely. */
  lemma {:induction false} FilterMultiset<T>(s: seq<T>, keep: T -> bool)
    ensures forall x :: multiset(Filter(s, keep))[x] == if keep(x) then multiset(s)[x] else 0
    decreases |s|
  {
    if |s| > 0 {
      FilterMultiset(s[1..], keep);
      assert s == [s[0]] + s[1..];
    }
  }

  /** Filtering the first `n` elements and keeping the rest as they are:
      the rest ends the result; before it stand only accepted elements, in
      their order, each as often as among the first `n`. */
  lemma FilterPrefix<T>(s: seq<T>, n: nat, keep: T -> bool)
    requires n <= |s|
    ensures var head := Filter(s[..n], keep);
      var r := head + s[n..];
      var later := |s| - n;
      && |r| >= later
      && r[|r| - later..] == s[n..]
      && r[..|r| - later] == head
      && (forall k :: 0 <= k < |head| ==> keep(head[k]))
      && (forall x :: multiset(head)[x] == if keep(x) then multiset(s[..n])[x] else 0)
      && Subsequence(head, s[..n])
  {
    var head := Filter(s[..n], keep);
    var r := head + s[n..];
    assert r[..|head|] == head && r[|head|..] == s[n..];
    FilterMultiset(s[..n], keep);
    FilterSubsequence(s[..n], keep);
  }

  /** Filtering the first `n` elements and keeping the rest: a value
      survives as often as it occurs in the rest, plus as often as it occurs
      in the first `n` when the test accepts it. */
  lemma FilterPrefixCount<T>(s: seq<T>, n: nat, keep: T -> bool, x: T)
    requires n <= |s| && x in s
    ensures var r := Filter(s[..n], keep) + s[n..];
      && multiset(r)[x] == multiset(s[n..])[x] + (if keep(x) then multiset(s[..n])[x] else 0)
      && (x !in r <==> x !in s[n..] && !keep(x))
  {
    var head := Filter(s[..n], keep);
    var r := head + s[n..];
    FilterMultiset(s[..n], keep);
    assert multiset(r) == multiset(head) + multiset(s[n..]);
    assert x in r <==> x in multiset(r);
    assert x in s[n..] <==> x in multiset(s[n..]);
    if x !in s[n..] {
      assert s == s[..n] + s[n..];
      assert x in multiset(s[..n]);
    }
  }

  /** Python's `sum` over reals, left to right. */
  function Sum(s: seq<real>): real
  {
    if |s| == 0 then 0.0 else Sum(s[..|s| - 1]) + s[|s| - 1]
  }

  /** A sum of positive terms is positive. */
  lemma {:induction false} SumPositive(s: seq<real>)
    requires |s| > 0
    requires forall i :: 0 <= i < |s| ==> s[i] > 0.0
    ensures Sum(s) > 0.0
    decreases |s|
  {
    if |s| > 1 {
      SumPositive(s[..|s| - 1]);
    }
  }

  /** Scaling every term scales the sum. */
  lemma {:induction false} SumScale(s: seq<real>, k: real, t: seq<real>)
    requires |t| == |s|
    requires forall i :: 0 <= i < |s| ==> t[i] == s[i] * k
    ensures Sum(t) == Sum(s) * k
    decreases |s|
  {
    if |s| > 0 {
      SumScale(s[..|s| - 1], k, t[..|t| - 1]);
    }
  }
}
