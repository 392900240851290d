/** Small facts about sequences that several parts of the model share. */
module Seqs {

  /** Position of the first occurrence of `x` in `s`. */
  function FirstIndex<T(==)>(s: seq<T>, x: T): (i: nat)
    requires x in s
    ensures i < |s| && s[i] == x
    ensures forall j :: 0 <= j < i ==> s[j] != x
  {
    if s[0] == x then 0 else 1 + FirstIndex(s[1..], x)
  }

  /** Appending to a sequence does not move the first occurrence of an element already in it. */
  lemma FirstIndexAppend<T>(s: seq<T>, y: T, x: T)
    requires x in s
    ensures x in s + [y] && FirstIndex(s + [y], x) == FirstIndex(s, x)
  {
    var i := FirstIndex(s, x);
    var j := FirstIndex(s + [y], x);
    assert (s + [y])[i] == x;
    assert j <= i;
    assert s[j] == x;
  }

  /** An element appended to a sequence that lacks it first occurs at the end. */
  lemma FirstIndexNew<T>(s: seq<T>, x: T)
    requires x !in s
    ensures FirstIndex(s + [x], x) == |s|
  {
    var j := FirstIndex(s + [x], x);
    assert (s + [x])[|s|] == x;
  }

  /** Every element of `xs` occurs in `s`, and `xs` lists them in the order
      of their first occurrences in `s`. */
  predicate InFirstOccurrenceOrder<T(==)>(xs: seq<T>, s: seq<T>) {
    && (forall i :: 0 <= i < |xs| ==> xs[i] in s)
    && (forall p, q :: 0 <= p < q < |xs| ==> FirstIndex(s, xs[p]) < FirstIndex(s, xs[q]))
  }

  /** Seeing an element again does not disturb first-occurrence order. */
  lemma FirstOccurrenceAppendOld<T>(xs: seq<T>, s: seq<T>, y: T)
    requires InFirstOccurrenceOrder(xs, s) && y in s
    ensures InFirstOccurrenceOrder(xs, s + [y])
  {
    forall i | 0 <= i < |xs| ensures FirstIndex(s + [y], xs[i]) == FirstIndex(s, xs[i]) {
      FirstIndexAppend(s, y, xs[i]);
    }
  }

  /** An element seen for the first time comes after every element seen before. */
  lemma FirstOccurrenceAppendNew<T>(xs: seq<T>, s: seq<T>, y: T)
    requires InFirstOccurrenceOrder(xs, s) && y !in s
    ensures InFirstOccurrenceOrder(xs + [y], s + [y])
  {
    var ys := xs + [y];
    forall i | 0 <= i < |xs| ensures FirstIndex(s + [y], xs[i]) == FirstIndex(s, xs[i]) {
      FirstIndexAppend(s, y, xs[i]);
    }
    FirstIndexNew(s, y);
    forall p, q | 0 <= p < q < |ys| ensures FirstIndex(s + [y], ys[p]) < FirstIndex(s + [y], ys[q]) {
      assert ys[p] == xs[p];
      if q < |xs| {
        assert ys[q] == xs[q];
      }
    }
  }

  /** `a` is `b` with some elements left out, the rest kept in order. */
  predicate IsSubsequence<T(==)>(a: seq<T>, b: seq<T>)
    decreases |b|
  {
    if |a| == 0 then true
    else if |b| == 0 then false
    else if a[0] == b[0] then IsSubsequence(a[1..], b[1..])
    else IsSubsequence(a, b[1..])
  }

  /** The elements of `s` satisfying `p`, in their order in `s` (`s.filter(p)`). */
  function Filter<T(!new)>(s: seq<T>, p: T -> bool): (r: seq<T>)
    ensures |r| <= |s|
    ensures forall x :: x in r <==> x in s && p(x)
  {
    if |s| == 0 then []
    else
      assert s == [s[0]] + s[1..];
      if p(s[0]) then [s[0]] + Filter(s[1..], p) else Filter(s[1..], p)
  }

  /** Filtering keeps every copy of a kept element and no copy of another. */
  lemma {:induction false} FilterCount<T(!new)>(s: seq<T>, p: T -> bool, x: T)
    ensures multiset(Filter(s, p))[x] == if p(x) then multiset(s)[x] else 0
  {
    if |s| > 0 {
      FilterCount(s[1..], p, x);
      assert s == [s[0]] + s[1..];
    }
  }

  /** Filtering a longer sequence extends the filtered one by the new element when it is kept. */
  lemma {:induction false} FilterSnoc<T(!new)>(s: seq<T>, x: T, p: T -> bool)
    ensures Filter(s + [x], p) == Filter(s, p) + (if p(x) then [x] else [])
  {
    if |s| == 0 {
      assert [x][1..] == [];
    } else {
      assert (s + [x])[0] == s[0];
      assert (s + [x])[1..] == s[1..] + [x];
      FilterSnoc(s[1..], x, p);
    }
  }

  /** A filtered sequence is a subsequence of the original. */
  lemma {:induction false} FilterIsSubsequence<T(!new)>(s: seq<T>, p: T -> bool)
    ensures IsSubsequence(Filter(s, p), s)
  {
    if |s| > 0 {
      FilterIsSubsequence(s[1..], p);
      if !p(s[0]) {
        SubsequenceWeaken(Filter(s[1..], p), s);
      }
    }
  }

  /** Filtering by a weaker condition keeps everything a stronger one keeps, in order. */
  lemma {:induction false} FilterMonotone<T(!new)>(s: seq<T>, p: T -> bool, q: T -> bool)
    requires forall x :: x in s && p(x) ==> q(x)
    ensures IsSubsequence(Filter(s, p), Filter(s, q))
  {
    if |s| > 0 {
      FilterMonotone(s[1..], p, q);
      var a := Filter(s[1..], p);
      var b := Filter(s[1..], q);
      if p(s[0]) {
        assert Filter(s, p) == [s[0]] + a && Filter(s, q) == [s[0]] + b;
        assert ([s[0]] + a)[1..] == a;
      } else if q(s[0]) {
        assert Filter(s, q) == [s[0]] + b;
        SubsequenceOfCons(a, b, s[0]);
      }
    }
  }

  /** A subsequence of `b` is a subsequence of `[x] + b`. */
  lemma SubsequenceOfCons<T>(a: seq<T>, b: seq<T>, x: T)
    requires IsSubsequence(a, b)
    ensures IsSubsequence(a, [x] + b)
  {
    assert ([x] + b)[1..] == b;
    SubsequenceWeaken(a, [x] + b);
  }

  /** Putting an element in front of the larger sequence keeps a subsequence one. */
  lemma {:induction false} SubsequenceWeaken<T>(a: seq<T>, b: seq<T>)
    requires |b| > 0 && IsSubsequence(a, b[1..])
    ensures IsSubsequence(a, b)
    decreases |a| + |b|, 1
  {
    if |a| > 0 && a[0] == b[0] {
      SubsequenceDropFirst(a, b[1..]);
    }
  }

  /** Dropping the first element of a subsequence keeps it one. */
  lemma {:induction false} SubsequenceDropFirst<T>(a: seq<T>, b: seq<T>)
    requires |a| > 0 && IsSubsequence(a, b)
    ensures IsSubsequence(a[1..], b)
    decreases |a| + |b|, 0
  {
    if a[0] == b[0] {
      SubsequenceWeaken(a[1..], b);
    } else {
      SubsequenceDropFirst(a, b[1..]);
      SubsequenceWeaken(a[1..], b);
    }
  }
}
