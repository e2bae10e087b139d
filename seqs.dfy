/** Sequence helpers shared by the whole model: in-order filtering (a Python
    list comprehension with an `if`), `zip` with its truncation to the shorter
    operand, and the "in-order subsequence" relation used to state that a
    filter keeps the original order. */
module Seqs {

  /** The elements of `s` satisfying `p`, in their original order. */
  function Filter<T>(s: seq<T>, p: T -> bool): (r: seq<T>)
    ensures |r| <= |s|
  {
    if s == [] then [] else (if p(s[0]) then [s[0]] else []) + Filter(s[1..], p)
  }

  /** Python's `zip(a, b)`: pairs up to the length of the shorter operand. */
  function Zip<A, B>(a: seq<A>, b: seq<B>): (r: seq<(A, B)>)
    ensures |r| == Min(|a|, |b|)
    ensures forall i :: 0 <= i < |r| ==> r[i] == (a[i], b[i])
  {
    seq(Min(|a|, |b|), i requires 0 <= i < Min(|a|, |b|) => (a[i], b[i]))
  }

  function Min(x: int, y: int): int { if x <= y then x else y }

  function Firsts<A, B>(s: seq<(A, B)>): (r: seq<A>)
    ensures |r| == |s| && forall i :: 0 <= i < |s| ==> r[i] == s[i].0
  {
    seq(|s|, i requires 0 <= i < |s| => s[i].0)
  }

  function Seconds<A, B>(s: seq<(A, B)>): (r: seq<B>)
    ensures |r| == |s| && forall i :: 0 <= i < |s| ==> r[i] == s[i].1
  {
    seq(|s|, i requires 0 <= i < |s| => s[i].1)
  }

  /** No element occurs twice. */
  predicate Distinct<T(==)>(s: seq<T>) {
    forall i, j :: 0 <= i < j < |s| ==> s[i] != s[j]
  }

  /** Appending a new element keeps a sequence free of repetitions. */
  lemma DistinctSnoc<T>(s: seq<T>, x: T)
    requires Distinct(s)
    ensures x !in s ==> Distinct(s + [x])
  {
  }

  /** `idx` lists, in increasing order, the positions of `b` that make up `a`. */
  ghost predicate IsIndexing<T>(a: seq<T>, b: seq<T>, idx: seq<nat>) {
    && |idx| == |a|
    && (forall k :: 0 <= k < |idx| ==> idx[k] < |b| && a[k] == b[idx[k]])
    && (forall k, l :: 0 <= k < l < |idx| ==> idx[k] < idx[l])
  }

  /** `a` is `b` with some elements left out and the rest in the same order. */
  ghost predicate Subsequence<T>(a: seq<T>, b: seq<T>) {
    exists idx :: IsIndexing(a, b, idx)
  }

  lemma {:induction false} FilterMembership<T>(s: seq<T>, p: T -> bool)
    ensures forall x :: x in Filter(s, p) <==> x in s && p(x)
  {
    if s != [] {
      FilterMembership(s[1..], p);
      assert forall x :: x in s <==> x == s[0] || x in s[1..];
    }
  }

  /** Positions of the kept elements, as a witness that a filter keeps order. */
  lemma {:induction false} FilterIndexing<T>(s: seq<T>, p: T -> bool) returns (idx: seq<nat>)
    ensures IsIndexing(Filter(s, p), s, idx)
    ensures forall k :: 0 <= k < |idx| ==> p(s[idx[k]])
  {
    if s == [] {
      idx := [];
    } else {
      var rest := FilterIndexing(s[1..], p);
      var tail := Filter(s[1..], p);
      var shifted := Shift(rest);
      ShiftIndexing(tail, s, rest);
      if p(s[0]) {
        idx := [0] + shifted;
        assert Filter(s, p) == [s[0]] + tail;
        ConsIndexing(tail, s, shifted);
      } else {
        idx := shifted;
        assert Filter(s, p) == tail;
      }
    }
  }

  function Shift(idx: seq<nat>): (r: seq<nat>)
    ensures |r| == |idx| && forall k :: 0 <= k < |idx| ==> r[k] == idx[k] + 1
  {
    seq(|idx|, k requires 0 <= k < |idx| => idx[k] + 1)
  }

  lemma ShiftIndexing<T>(a: seq<T>, s: seq<T>, idx: seq<nat>)
    requires |s| > 0 && IsIndexing(a, s[1..], idx)
    ensures IsIndexing(a, s, Shift(idx))
  {
  }

  lemma ConsIndexing<T>(a: seq<T>, s: seq<T>, idx: seq<nat>)
    requires |s| > 0 && IsIndexing(a, s, idx)
    requires forall k :: 0 <= k < |idx| ==> idx[k] > 0
    ensures IsIndexing([s[0]] + a, s, [0] + idx)
  {
  }

  lemma FilterSubsequence<T>(s: seq<T>, p: T -> bool)
    ensures Subsequence(Filter(s, p), s)
  {
    var idx := FilterIndexing(s, p);
  }

  /** A filter that every element passes changes nothing. */
  lemma {:induction false} FilterKeepsAll<T>(s: seq<T>, p: T -> bool)
    requires forall i :: 0 <= i < |s| ==> p(s[i])
    ensures Filter(s, p) == s
  {
    if s != [] {
      FilterKeepsAll(s[1..], p);
    }
  }

  /** Filtering a concatenation filters each part. */
  lemma {:induction false} FilterAppend<T>(a: seq<T>, b: seq<T>, p: T -> bool)
    ensures Filter(a + b, p) == Filter(a, p) + Filter(b, p)
  {
    if a == [] {
      assert a + b == b;
    } else {
      assert (a + b)[0] == a[0];
      assert (a + b)[1..] == a[1..] + b;
      FilterAppend(a[1..], b, p);
      var h := if p(a[0]) then [a[0]] else [];
      assert Filter(a + b, p) == h + Filter(a[1..] + b, p);
      assert Filter(a, p) == h + Filter(a[1..], p);
      assert h + (Filter(a[1..], p) + Filter(b, p)) == (h + Filter(a[1..], p)) + Filter(b, p);
    }
  }

  /** Growing the host sequence keeps an indexing; the new last element may join it. */
  lemma SnocIndexing<T>(a: seq<T>, b: seq<T>, idx: seq<nat>, y: T)
    requires IsIndexing(a, b, idx)
    ensures IsIndexing(a, b + [y], idx)
    ensures IsIndexing(a + [y], b + [y], idx + [|b|])
  {
  }

  /** A subsequence of a zip projects onto subsequences of both operands. */
  lemma ZipIndexing<A, B>(x: seq<(A, B)>, a: seq<A>, b: seq<B>, idx: seq<nat>)
    requires IsIndexing(x, Zip(a, b), idx)
    ensures IsIndexing(Firsts(x), a, idx) && IsIndexing(Seconds(x), b, idx)
  {
  }

  /** Both tests at once. */
  function Both<T>(p: T -> bool, q: T -> bool): T -> bool {
    x => p(x) && q(x)
  }

  /** Two filters in a row are one filter by both tests. */
  lemma {:induction false} FilterFilter<T>(s: seq<T>, p: T -> bool, q: T -> bool)
    ensures Filter(Filter(s, p), q) == Filter(s, Both(p, q))
  {
    if s != [] {
      FilterFilter(s[1..], p, q);
      assert [s[0]][1..] == [];
      if p(s[0]) {
        assert Filter(s, p) == [s[0]] + Filter(s[1..], p);
        FilterAppend([s[0]], Filter(s[1..], p), q);
      } else {
        assert Filter(s, p) == Filter(s[1..], p);
      }
    }
  }
}
