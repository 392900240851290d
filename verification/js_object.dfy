/** A plain JavaScript object (`{}`) used as a dictionary from string keys,
    as `mostFrequent` and the chart grouping functions use one: properties
    are created by assignment, and `Object.entries` lists them in the order
    the language fixes for ordinary objects — keys that are array indices
    first, in ascending numeric order, then every other key in creation order. */
module JsObject {
  import opened Wrappers
  import opened Decimal
  import opened Seqs

  /** Own properties, in creation order. */
  type Props<V> = seq<(string, V)>

  function KeysOf<V>(o: Props<V>): (ks: seq<string>)
    ensures |ks| == |o|
    ensures forall i :: 0 <= i < |o| ==> ks[i] == o[i].0
  {
    seq(|o|, i requires 0 <= i < |o| => o[i].0)
  }

  predicate DistinctKeys<V>(o: Props<V>) {
    forall i, j :: 0 <= i < j < |o| ==> o[i].0 != o[j].0
  }

  /** Position of the first `k` in `ks`, or |ks| when `k` does not occur. */
  function Position(ks: seq<string>, k: string): (i: nat)
    ensures i <= |ks|
    ensures i < |ks| ==> ks[i] == k
    ensures forall j :: 0 <= j < i ==> ks[j] != k
    ensures i == |ks| <==> k !in ks
  {
    if k in ks then FirstIndex(ks, k) else |ks|
  }

  /** The first occurrence is the only position before which `k` does not occur. */
  lemma PositionUnique(ks: seq<string>, k: string, i: nat)
    requires i <= |ks| && (i < |ks| ==> ks[i] == k)
    requires forall j :: 0 <= j < i ==> ks[j] != k
    ensures Position(ks, k) == i
  {
  }

  /** `o[k]`, with None for `undefined`. */
  function Get<V>(o: Props<V>, k: string): (r: Option<V>)
    ensures r.None? <==> k !in KeysOf(o)
    ensures r.Some? ==> (k, r.value) in o
  {
    var i := Position(KeysOf(o), k);
    if i == |o| then None else Some(o[i].1)
  }

  /** In an object with distinct keys, reading a key gives the value stored with it. */
  lemma GetAt<V>(o: Props<V>, i: nat)
    requires DistinctKeys(o) && i < |o|
    ensures Get(o, o[i].0) == Some(o[i].1)
  {
    PositionUnique(KeysOf(o), o[i].0, i);
  }

  /** `o[k] = v`: an existing property keeps its position and a new one is created last. */
  function Set<V>(o: Props<V>, k: string, v: V): (r: Props<V>)
    ensures k in KeysOf(o) ==> KeysOf(r) == KeysOf(o)
    ensures k !in KeysOf(o) ==> r == o + [(k, v)]
    ensures Get(r, k) == Some(v)
  {
    var i := Position(KeysOf(o), k);
    if i == |o| then
      var r := o + [(k, v)];
      PositionUnique(KeysOf(r), k, i);
      r
    else
      var r := o[i := (k, v)];
      assert KeysOf(r) == KeysOf(o);
      r
  }

  /** Assigning one key leaves every other key's value as it was. */
  lemma GetSetOther<V>(o: Props<V>, k: string, v: V, k': string)
    requires k' != k
    ensures Get(Set(o, k, v), k') == Get(o, k')
  {
    var r := Set(o, k, v);
    var j := Position(KeysOf(o), k');
    if k in KeysOf(o) {
      assert KeysOf(r) == KeysOf(o);
      if j < |o| {
        assert r[j] == o[j];
      }
    } else {
      var jr := if j < |o| then j else |r|;
      PositionUnique(KeysOf(r), k', jr);
    }
  }

  /** Assignment never creates a second property with the same key. */
  lemma SetKeepsKeysDistinct<V>(o: Props<V>, k: string, v: V)
    requires DistinctKeys(o)
    ensures DistinctKeys(Set(o, k, v))
  {
    var r := Set(o, k, v);
    if k in KeysOf(o) {
      forall i, j | 0 <= i < j < |r| ensures r[i].0 != r[j].0 {
        assert KeysOf(r)[i] == KeysOf(o)[i] && KeysOf(r)[j] == KeysOf(o)[j];
      }
    }
  }

  /** The keys `arr` produces under `key`, in input order. */
  function KeyList<T>(arr: seq<T>, key: T -> string): (ks: seq<string>)
    ensures |ks| == |arr|
    ensures forall i :: 0 <= i < |arr| ==> ks[i] == key(arr[i])
  {
    seq(|arr|, i requires 0 <= i < |arr| => key(arr[i]))
  }

  /** The object `arr.forEach(x => { o[key(x)] = step(o[key(x)], x) })` builds,
      starting from `{}` — the shape of both `arr.reduce((acc, x) => ...)` in
      `mostFrequent` and the three grouping functions of the dashboard. */
  function Accumulate<T, V>(arr: seq<T>, key: T -> string, step: (Option<V>, T) -> V): Props<V>
  {
    if |arr| == 0 then []
    else
      var o := Accumulate(arr[..|arr| - 1], key, step);
      var x := arr[|arr| - 1];
      Set(o, key(x), step(Get(o, key(x)), x))
  }

  /** The keys of `o` are those of the list `ks`, once each, in the order they first occur there. */
  predicate KeysFollow<V>(o: Props<V>, ks: seq<string>) {
    && DistinctKeys(o)
    && (forall k :: k in KeysOf(o) ==> k in ks)
    && (forall k :: k in ks ==> k in KeysOf(o))
    && InFirstOccurrenceOrder(KeysOf(o), ks)
  }

  /** Assigning the next key of the list keeps the keys following the list. */
  lemma SetFollows<V>(o: Props<V>, ks: seq<string>, k: string, v: V)
    requires KeysFollow(o, ks)
    ensures KeysFollow(Set(o, k, v), ks + [k])
  {
    SetKeepsKeysDistinct(o, k, v);
    if k in ks {
      SetFollowsOld(o, ks, k, v);
    } else {
      SetFollowsNew(o, ks, k, v);
    }
  }

  lemma SetFollowsOld<V>(o: Props<V>, ks: seq<string>, k: string, v: V)
    requires KeysFollow(o, ks) && k in ks
    ensures var r := Set(o, k, v);
      && (forall x :: x in KeysOf(r) ==> x in ks + [k])
      && (forall x :: x in ks + [k] ==> x in KeysOf(r))
      && InFirstOccurrenceOrder(KeysOf(r), ks + [k])
  {
    assert KeysOf(Set(o, k, v)) == KeysOf(o);
    FirstOccurrenceAppendOld(KeysOf(o), ks, k);
  }

  lemma SetFollowsNew<V>(o: Props<V>, ks: seq<string>, k: string, v: V)
    requires KeysFollow(o, ks) && k !in ks
    ensures var r := Set(o, k, v);
      && (forall x :: x in KeysOf(r) ==> x in ks + [k])
      && (forall x :: x in ks + [k] ==> x in KeysOf(r))
      && InFirstOccurrenceOrder(KeysOf(r), ks + [k])
  {
    assert KeysOf(Set(o, k, v)) == KeysOf(o) + [k];
    FirstOccurrenceAppendNew(KeysOf(o), ks, k);
  }

  /** One more element assigns its key once more. */
  lemma AccumulateSnoc<T, V>(front: seq<T>, x: T, key: T -> string, step: (Option<V>, T) -> V)
    ensures var o := Accumulate(front, key, step);
      Accumulate(front + [x], key, step) == Set(o, key(x), step(Get(o, key(x)), x))
  {
    assert (front + [x])[..|front|] == front;
  }

  lemma KeyListSnoc<T>(front: seq<T>, x: T, key: T -> string)
    ensures KeyList(front + [x], key) == KeyList(front, key) + [key(x)]
  {
  }

  /** The accumulated object has one property per distinct key of the input,
      and its properties are in the order their keys first occur in the input. */
  lemma {:induction false} AccumulateKeys<T, V>(arr: seq<T>, key: T -> string, step: (Option<V>, T) -> V)
    ensures KeysFollow(Accumulate(arr, key, step), KeyList(arr, key))
  {
    if |arr| > 0 {
      var front, x := arr[..|arr| - 1], arr[|arr| - 1];
      assert arr == front + [x];
      AccumulateKeys(front, key, step);
      AccumulateSnoc(front, x, key, step);
      KeyListSnoc(front, x, key);
      var o := Accumulate(front, key, step);
      SetFollows(o, KeyList(front, key), key(x), step(Get(o, key(x)), x));
    }
  }

  /** The sum of `w` over the values of an object. */
  function Total<V>(o: Props<V>, w: V -> int): int {
    if |o| == 0 then 0 else w(o[0].1) + Total(o[1..], w)
  }

  lemma {:induction false} TotalConcat<V>(a: Props<V>, b: Props<V>, w: V -> int)
    ensures Total(a + b, w) == Total(a, w) + Total(b, w)
  {
    if |a| > 0 {
      assert (a + b)[0] == a[0] && (a + b)[1..] == a[1..] + b;
      TotalConcat(a[1..], b, w);
    } else {
      assert a + b == b;
    }
  }

  /** Taking one property out of an object takes its value out of the total. */
  lemma TotalRemove<V>(b: Props<V>, i: nat, w: V -> int)
    requires i < |b|
    ensures Total(b, w) == w(b[i].1) + Total(b[..i] + b[i + 1..], w)
  {
    assert b == b[..i] + b[i..];
    TotalConcat(b[..i], b[i..], w);
    assert b[i..][1..] == b[i + 1..];
    TotalConcat(b[..i], b[i + 1..], w);
  }

  /** Assigning a key replaces the share of its old value in a total by that
      of the new value. */
  lemma TotalSet<V>(o: Props<V>, k: string, v: V, w: V -> int)
    ensures Total(Set(o, k, v), w) == Total(o, w) + w(v) - match Get(o, k) case Some(u) => w(u) case None => 0
  {
    var i := Position(KeysOf(o), k);
    if i == |o| {
      TotalConcat(o, [(k, v)], w);
      assert [(k, v)][1..] == [];
    } else {
      var r := Set(o, k, v);
      assert r == o[i := (k, v)];
      TotalRemove(o, i, w);
      TotalRemove(r, i, w);
      assert r[..i] + r[i + 1..] == o[..i] + o[i + 1..];
    }
  }

  lemma MultisetRemove<T>(b: seq<T>, i: nat)
    requires i < |b|
    ensures multiset(b) == multiset(b[..i] + b[i + 1..]) + multiset{b[i]}
  {
    assert b == b[..i] + [b[i]] + b[i + 1..];
  }

  /** An element of the multiset of `b` sits at some position of `b`. */
  lemma PositionOf<T>(b: seq<T>, x: T) returns (i: nat)
    requires x in multiset(b)
    ensures i < |b| && b[i] == x
  {
    assert x in b;
    i :| 0 <= i < |b| && b[i] == x;
  }

  /** Taking the same element out of two permutations of each other leaves two permutations. */
  lemma RemoveFromBoth<T>(a: seq<T>, b: seq<T>, i: nat)
    requires multiset(a) == multiset(b) && |a| > 0 && i < |b| && b[i] == a[0]
    ensures multiset(a[1..]) == multiset(b[..i] + b[i + 1..])
  {
    var ma, mb := multiset(a[1..]), multiset(b[..i] + b[i + 1..]);
    MultisetRemove(b, i);
    MultisetRemove(a, 0);
    assert a[..0] + a[1..] == a[1..];
    assert ma + multiset{a[0]} == mb + multiset{a[0]};
    forall y ensures ma[y] == mb[y] {
      assert (ma + multiset{a[0]})[y] == (mb + multiset{a[0]})[y];
    }
  }

  /** Reordering the properties does not change a total over them. */
  lemma {:induction false} PermutationTotal<V>(a: Props<V>, b: Props<V>, w: V -> int)
    requires multiset(a) == multiset(b)
    ensures Total(a, w) == Total(b, w)
    decreases |a|
  {
    if |a| == 0 {
      assert |multiset(b)| == 0;
    } else {
      var i := PositionOf(b, a[0]);
      RemoveFromBoth(a, b, i);
      PermutationTotal(a[1..], b[..i] + b[i + 1..], w);
      TotalRemove(b, i, w);
    }
  }

  /** Two equal elements at different positions count twice. */
  lemma TwiceInMultiset<T>(s: seq<T>, i: nat, j: nat)
    requires i < j < |s| && s[i] == s[j]
    ensures multiset(s)[s[i]] >= 2
  {
    assert s == s[..j] + s[j..];
    assert s[i] in s[..j];
    assert s[j] == s[j..][0];
  }

  /** An element counted twice occurs at two different positions. */
  lemma TwoPositions<T>(s: seq<T>, x: T) returns (p: nat, q: nat)
    requires multiset(s)[x] >= 2
    ensures p < q < |s| && s[p] == x && s[q] == x
  {
    p := FirstIndex(s, x);
    assert s == s[..p] + [x] + s[p + 1..];
    assert x !in s[..p];
    assert multiset(s[p + 1..])[x] >= 1;
    var k :| 0 <= k < |s[p + 1..]| && s[p + 1..][k] == x;
    q := p + 1 + k;
  }

  /** In an object with distinct keys, a key identifies its property. */
  lemma SameKeySameProperty<V>(a: Props<V>, x: (string, V), y: (string, V))
    requires DistinctKeys(a) && x in a && y in a && x.0 == y.0
    ensures x == y
  {
    var p :| 0 <= p < |a| && a[p] == x;
    var q :| 0 <= q < |a| && a[q] == y;
  }

  /** Reordering the properties of an object keeps its keys distinct. */
  lemma PermutationDistinct<V>(a: Props<V>, b: Props<V>)
    requires multiset(a) == multiset(b) && DistinctKeys(a)
    ensures DistinctKeys(b)
  {
    forall i, j | 0 <= i < j < |b| ensures b[i].0 != b[j].0 {
      if b[i].0 == b[j].0 {
        assert b[i] in multiset(a) && b[j] in multiset(a);
        SameKeySameProperty(a, b[i], b[j]);
        TwiceInMultiset(b, i, j);
        var p, q := TwoPositions(a, b[i]);
      }
    }
  }

  /** A key is an array index: the canonical decimal form of an integer below 2^32 - 1. */
  predicate IsArrayIndex(k: string) {
    && 1 <= |k| && AllDigits(k) && (k[0] != '0' || |k| == 1)
    && DigitsValue(k) < 0xFFFF_FFFF
  }

  /** The numeric value of an array-index key (0 for other keys). */
  function IndexValue(k: string): nat {
    if AllDigits(k) then DigitsValue(k) else 0
  }

  /** The properties whose keys are array indices, in creation order. */
  function IndexProps<V>(o: Props<V>): (r: Props<V>)
    ensures forall i :: 0 <= i < |r| ==> IsArrayIndex(r[i].0)
  {
    if |o| == 0 then []
    else if IsArrayIndex(o[0].0) then [o[0]] + IndexProps(o[1..])
    else IndexProps(o[1..])
  }

  /** The properties whose keys are not array indices, in creation order. */
  function NamedProps<V>(o: Props<V>): (r: Props<V>)
    ensures forall i :: 0 <= i < |r| ==> !IsArrayIndex(r[i].0)
  {
    if |o| == 0 then []
    else if IsArrayIndex(o[0].0) then NamedProps(o[1..])
    else [o[0]] + NamedProps(o[1..])
  }

  lemma {:induction false} SplitProps<V>(o: Props<V>)
    ensures multiset(IndexProps(o)) + multiset(NamedProps(o)) == multiset(o)
  {
    if |o| > 0 {
      SplitProps(o[1..]);
      assert o == [o[0]] + o[1..];
    }
  }

  lemma {:induction false} NamedPropsConcat<V>(a: Props<V>, b: Props<V>)
    ensures NamedProps(a + b) == NamedProps(a) + NamedProps(b)
  {
    if |a| > 0 {
      assert (a + b)[0] == a[0] && (a + b)[1..] == a[1..] + b;
      NamedPropsConcat(a[1..], b);
    } else {
      assert a + b == b;
    }
  }

  lemma {:induction false} NamedPropsOfNamed<V>(o: Props<V>)
    requires forall i :: 0 <= i < |o| ==> !IsArrayIndex(o[i].0)
    ensures NamedProps(o) == o && IndexProps(o) == []
  {
    if |o| > 0 {
      NamedPropsOfNamed(o[1..]);
    }
  }

  lemma {:induction false} NamedPropsOfIndices<V>(o: Props<V>)
    requires forall i :: 0 <= i < |o| ==> IsArrayIndex(o[i].0)
    ensures NamedProps(o) == []
  {
    if |o| > 0 {
      NamedPropsOfIndices(o[1..]);
    }
  }

  predicate IndexAscending<V>(s: Props<V>) {
    forall i, j :: 0 <= i < j < |s| ==> IndexValue(s[i].0) <= IndexValue(s[j].0)
  }

  function InsertByIndex<V>(e: (string, V), s: Props<V>): (r: Props<V>)
    ensures multiset(r) == multiset{e} + multiset(s)
  {
    if |s| == 0 || IndexValue(e.0) <= IndexValue(s[0].0) then [e] + s
    else
      assert s == [s[0]] + s[1..];
      [s[0]] + InsertByIndex(e, s[1..])
  }

  lemma {:induction false} InsertKeepsAscending<V>(e: (string, V), s: Props<V>)
    requires IndexAscending(s)
    ensures IndexAscending(InsertByIndex(e, s))
  {
    if |s| > 0 && IndexValue(e.0) > IndexValue(s[0].0) {
      InsertKeepsAscending(e, s[1..]);
      var t := InsertByIndex(e, s[1..]);
      forall k | 0 <= k < |t| ensures IndexValue(s[0].0) <= IndexValue(t[k].0) {
        assert t[k] in multiset(t);
        if t[k] != e {
          assert t[k] in s[1..];
        }
      }
    }
  }

  /** Insertion sort by numeric key value. */
  function SortByIndex<V>(s: Props<V>): (r: Props<V>)
    ensures multiset(r) == multiset(s)
    ensures IndexAscending(r)
  {
    if |s| == 0 then []
    else
      assert s == [s[0]] + s[1..];
      InsertKeepsAscending(s[0], SortByIndex(s[1..]));
      InsertByIndex(s[0], SortByIndex(s[1..]))
  }

  /** `Object.entries(o)`: array-index keys in ascending numeric order, then
      the other keys in creation order. */
  function Entries<V>(o: Props<V>): Props<V>
  {
    SortByIndex(IndexProps(o)) + NamedProps(o)
  }

  /** `Object.entries` lists every property exactly once. */
  lemma EntriesPermutation<V>(o: Props<V>)
    ensures multiset(Entries(o)) == multiset(o)
    ensures |Entries(o)| == |o|
    ensures DistinctKeys(o) ==> DistinctKeys(Entries(o))
    ensures forall w: V -> int :: Total(Entries(o), w) == Total(o, w)
  {
    SplitProps(o);
    assert |multiset(Entries(o))| == |multiset(o)|;
    if DistinctKeys(o) {
      PermutationDistinct(o, Entries(o));
    }
    forall w: V -> int ensures Total(Entries(o), w) == Total(o, w) {
      PermutationTotal(Entries(o), o, w);
    }
  }

  /** Where no key is an array index, `Object.entries` is creation order. */
  lemma EntriesOfNamedKeys<V>(o: Props<V>)
    requires forall i :: 0 <= i < |o| ==> !IsArrayIndex(o[i].0)
    ensures Entries(o) == o
  {
    NamedPropsOfNamed(o);
  }

  /** Every property the numeric sort puts out has an array-index key. */
  lemma SortedIndexKeys<V>(o: Props<V>)
    ensures forall i :: 0 <= i < |SortByIndex(IndexProps(o))| ==> IsArrayIndex(SortByIndex(IndexProps(o))[i].0)
  {
    var s := SortByIndex(IndexProps(o));
    forall i | 0 <= i < |s| ensures IsArrayIndex(s[i].0) {
      assert s[i] in multiset(IndexProps(o));
    }
  }

  /** `Object.entries` puts array-index keys first, in ascending numeric order. */
  lemma EntriesOrder<V>(o: Props<V>)
    ensures var e := Entries(o);
      forall i, j :: 0 <= i < j < |e| && IsArrayIndex(e[j].0) ==>
        IsArrayIndex(e[i].0) && IndexValue(e[i].0) <= IndexValue(e[j].0)
  {
    var s := SortByIndex(IndexProps(o));
    var n := NamedProps(o);
    var e := s + n;
    SortedIndexKeys(o);
    forall i, j | 0 <= i < j < |e| && IsArrayIndex(e[j].0)
      ensures IsArrayIndex(e[i].0) && IndexValue(e[i].0) <= IndexValue(e[j].0)
    {
      assert j < |s|;
      assert e[i] == s[i] && e[j] == s[j];
    }
  }

  /** `Object.entries` keeps the other keys in creation order. */
  lemma EntriesNamedOrder<V>(o: Props<V>)
    ensures NamedProps(Entries(o)) == NamedProps(o)
  {
    var s := SortByIndex(IndexProps(o));
    var n := NamedProps(o);
    SortedIndexKeys(o);
    NamedPropsConcat(s, n);
    NamedPropsOfIndices(s);
    NamedPropsOfNamed(n);
    assert [] + n == n;
  }
}
