/** The grouping behind the dashboard's charts (`getByHour`,
    `getByDuration`, `getByTopic` in dashboard-app/src/components/Charts.jsx):
    the calls are bucketed under a label in a plain object, each bucket
    listing the callers in input order, and the buckets are read back with
    `Object.entries`. */
module Charts {
  import opened Wrappers
  import opened Seqs
  import opened JsText
  import opened Decimal
  import opened JsObject

  /** A call as the charts see it. `hour` is the hour of day of its start in
      local time, as `Date#getHours` gives it; `duration` is in minutes. */
  datatype ChartCall = ChartCall(caller: string, hour: int, duration: real, topic: string)

  /** One bar or slice: its label, how many calls it holds and their callers. */
  datatype Group = Group(name: string, count: nat, callers: seq<string>)

  /** `map[k] = map[k] || []; map[k].push(caller)`. */
  function AddCaller(previous: Option<seq<string>>, x: ChartCall): seq<string> {
    previous.GetOr([]) + [x.caller]
  }

  /** The object the grouping builds: one property per label, holding callers. */
  function Buckets(arr: seq<ChartCall>, keyOf: ChartCall -> string): Props<seq<string>> {
    Accumulate(arr, keyOf, AddCaller)
  }

  /** `.map(([label, callers]) => ({ label, count: callers.length, callers }))`. */
  function ToGroups(es: Props<seq<string>>): (gs: seq<Group>)
    ensures |gs| == |es|
    ensures forall i :: 0 <= i < |es| ==>
      gs[i].name == es[i].0 && gs[i].callers == es[i].1 && gs[i].count == |gs[i].callers|
  {
    if |es| == 0 then [] else [Group(es[0].0, |es[0].1|, es[0].1)] + ToGroups(es[1..])
  }

  /** The groups of `arr` under `keyOf`, in `Object.entries` order. */
  function GroupBy(arr: seq<ChartCall>, keyOf: ChartCall -> string): seq<Group> {
    ToGroups(Entries(Buckets(arr, keyOf)))
  }

  /** `h.toString().padStart(2, '0') + ':00'`. */
  function HourKey(h: int): string {
    PadStart(IntToString(h), 2, '0') + ":00"
  }

  /** `Math.floor(duration).toString() + ' min'`. */
  function DurationKey(d: real): string {
    IntToString(d.Floor) + " min"
  }

  function HourLabel(x: ChartCall): string {
    HourKey(x.hour)
  }

  function DurationLabel(x: ChartCall): string {
    DurationKey(x.duration)
  }

  function TopicLabel(x: ChartCall): string {
    x.topic
  }

  function ByHour(arr: seq<ChartCall>): (gs: seq<Group>)
    ensures SumCounts(gs) == |arr|
  {
    GroupTotal(arr, HourLabel);
    GroupBy(arr, HourLabel)
  }

  function ByDuration(arr: seq<ChartCall>): (gs: seq<Group>)
    ensures SumCounts(gs) == |arr|
  {
    GroupTotal(arr, DurationLabel);
    GroupBy(arr, DurationLabel)
  }

  function ByTopic(arr: seq<ChartCall>): (gs: seq<Group>)
    ensures SumCounts(gs) == |arr|
  {
    GroupTotal(arr, TopicLabel);
    GroupBy(arr, TopicLabel)
  }

  /** The callers of the calls labelled `k`, in input order. */
  function CallersOf(arr: seq<ChartCall>, keyOf: ChartCall -> string, k: string): seq<string> {
    if |arr| == 0 then []
    else
      var x := arr[|arr| - 1];
      CallersOf(arr[..|arr| - 1], keyOf, k) + (if keyOf(x) == k then [x.caller] else [])
  }

  lemma CallersOfSnoc(front: seq<ChartCall>, x: ChartCall, keyOf: ChartCall -> string, k: string)
    ensures CallersOf(front + [x], keyOf, k)
         == CallersOf(front, keyOf, k) + (if keyOf(x) == k then [x.caller] else [])
  {
    assert (front + [x])[..|front|] == front;
  }

  /** A label no call carries has no callers. */
  lemma {:induction false} CallersOfAbsent(arr: seq<ChartCall>, keyOf: ChartCall -> string, k: string)
    requires k !in KeyList(arr, keyOf)
    ensures CallersOf(arr, keyOf, k) == []
  {
    if |arr| > 0 {
      var front := arr[..|arr| - 1];
      assert k !in KeyList(front, keyOf) by {
        assert forall i :: 0 <= i < |front| ==> KeyList(front, keyOf)[i] == KeyList(arr, keyOf)[i];
      }
      CallersOfAbsent(front, keyOf, k);
      assert keyOf(arr[|arr| - 1]) == KeyList(arr, keyOf)[|arr| - 1];
    }
  }

  /** `o` holds, under `k`, the callers of the calls of `arr` labelled `k`,
      and nothing when no call is. */
  predicate BucketOf(o: Props<seq<string>>, arr: seq<ChartCall>, keyOf: ChartCall -> string, k: string) {
    Get(o, k) == if k in KeyList(arr, keyOf) then Some(CallersOf(arr, keyOf, k)) else None
  }

  /** The bucket a call goes to gains its caller. */
  lemma BucketStepSame(front: seq<ChartCall>, x: ChartCall, keyOf: ChartCall -> string)
    requires BucketOf(Buckets(front, keyOf), front, keyOf, keyOf(x))
    ensures BucketOf(Buckets(front + [x], keyOf), front + [x], keyOf, keyOf(x))
  {
    var k := keyOf(x);
    AccumulateSnoc(front, x, keyOf, AddCaller);
    KeyListSnoc(front, x, keyOf);
    CallersOfSnoc(front, x, keyOf, k);
    if k !in KeyList(front, keyOf) {
      CallersOfAbsent(front, keyOf, k);
    }
  }

  /** Every other bucket stays as it was. */
  lemma BucketStepOther(front: seq<ChartCall>, x: ChartCall, keyOf: ChartCall -> string, k: string)
    requires k != keyOf(x)
    requires BucketOf(Buckets(front, keyOf), front, keyOf, k)
    ensures BucketOf(Buckets(front + [x], keyOf), front + [x], keyOf, k)
  {
    var o, o' := Buckets(front, keyOf), Buckets(front + [x], keyOf);
    AccumulateSnoc(front, x, keyOf, AddCaller);
    GetSetOther(o, keyOf(x), AddCaller(Get(o, keyOf(x)), x), k);
    assert Get(o', k) == Get(o, k);
    KeyListSnoc(front, x, keyOf);
    assert k in KeyList(front + [x], keyOf) <==> k in KeyList(front, keyOf);
    CallersOfSnoc(front, x, keyOf, k);
    assert CallersOf(front + [x], keyOf, k) == CallersOf(front, keyOf, k);
  }

  /** The bucket of a label holds exactly the callers of the calls carrying
      that label, in input order, and only labels some call carries have one. */
  lemma {:induction false} BucketContents(arr: seq<ChartCall>, keyOf: ChartCall -> string, k: string)
    ensures Get(Buckets(arr, keyOf), k)
         == if k in KeyList(arr, keyOf) then Some(CallersOf(arr, keyOf, k)) else None
  {
    if |arr| > 0 {
      var front, x := arr[..|arr| - 1], arr[|arr| - 1];
      assert arr == front + [x];
      BucketContents(front, keyOf, k);
      if keyOf(x) == k {
        BucketStepSame(front, x, keyOf);
      } else {
        BucketStepOther(front, x, keyOf, k);
      }
    }
  }

  /** The number of calls in a bucket grows by one per call. */
  lemma {:induction false} BucketsTotal(arr: seq<ChartCall>, keyOf: ChartCall -> string)
    ensures Total(Buckets(arr, keyOf), Length) == |arr|
  {
    if |arr| > 0 {
      var front, x := arr[..|arr| - 1], arr[|arr| - 1];
      assert arr == front + [x];
      BucketsTotal(front, keyOf);
      AccumulateSnoc(front, x, keyOf, AddCaller);
      var o := Buckets(front, keyOf);
      TotalSet(o, keyOf(x), AddCaller(Get(o, keyOf(x)), x), Length);
    }
  }

  function Length(callers: seq<string>): int {
    |callers|
  }

  /** The sum of the counts of `gs`. */
  function SumCounts(gs: seq<Group>): int {
    if |gs| == 0 then 0 else gs[0].count + SumCounts(gs[1..])
  }

  lemma {:induction false} SumCountsOfGroups(es: Props<seq<string>>)
    ensures SumCounts(ToGroups(es)) == Total(es, Length)
  {
    if |es| > 0 {
      SumCountsOfGroups(es[1..]);
      assert ToGroups(es)[1..] == ToGroups(es[1..]);
    }
  }

  /** Every call is counted exactly once: the counts add up to the number of calls. */
  lemma GroupTotal(arr: seq<ChartCall>, keyOf: ChartCall -> string)
    ensures SumCounts(GroupBy(arr, keyOf)) == |arr|
  {
    var o := Buckets(arr, keyOf);
    SumCountsOfGroups(Entries(o));
    EntriesPermutation(o);
    BucketsTotal(arr, keyOf);
  }

  /** The groups have distinct labels; each is the label of some call and
      holds exactly the callers of the calls carrying it, in input order;
      and every call's label has a group. */
  lemma GroupPlacement(arr: seq<ChartCall>, keyOf: ChartCall -> string)
    ensures var gs := GroupBy(arr, keyOf);
      && (forall i, j :: 0 <= i < j < |gs| ==> gs[i].name != gs[j].name)
      && (forall i :: 0 <= i < |gs| ==>
            gs[i].name in KeyList(arr, keyOf) && gs[i].callers == CallersOf(arr, keyOf, gs[i].name))
      && (forall n :: 0 <= n < |arr| ==> exists i :: 0 <= i < |gs| && gs[i].name == keyOf(arr[n]))
  {
    var o := Buckets(arr, keyOf);
    var es := Entries(o);
    var gs := GroupBy(arr, keyOf);
    AccumulateKeys(arr, keyOf, AddCaller);
    EntriesPermutation(o);
    forall i, j | 0 <= i < j < |gs| ensures gs[i].name != gs[j].name {
      assert gs[i].name == es[i].0 && gs[j].name == es[j].0;
    }
    forall i | 0 <= i < |gs|
      ensures gs[i].name in KeyList(arr, keyOf) && gs[i].callers == CallersOf(arr, keyOf, gs[i].name)
    {
      var e := es[i];
      assert e in multiset(o);
      var p := PositionOf(o, e);
      assert KeysOf(o)[p] == e.0;
      GetAt(o, p);
      BucketContents(arr, keyOf, e.0);
    }
    forall n | 0 <= n < |arr| ensures exists i :: 0 <= i < |gs| && gs[i].name == keyOf(arr[n]) {
      var k := keyOf(arr[n]);
      assert KeyList(arr, keyOf)[n] == k;
      var p := Position(KeysOf(o), k);
      assert o[p] in multiset(es);
      var i := PositionOf(es, o[p]);
      assert gs[i].name == k;
    }
  }

  /** The groups come in the order their names first occur in `ks`:
      `Seqs.InFirstOccurrenceOrder` read through the groups' names, stated
      on the groups themselves so that the chart lemmas need no separate
      sequence of names. */
  predicate InFirstSeenOrder(gs: seq<Group>, ks: seq<string>) {
    forall i, j :: 0 <= i < j < |gs| ==>
      gs[i].name in ks && gs[j].name in ks && FirstIndex(ks, gs[i].name) < FirstIndex(ks, gs[j].name)
  }

  /** When no label is an array index, the groups come in the order their
      labels first occur among the calls. */
  lemma GroupOrder(arr: seq<ChartCall>, keyOf: ChartCall -> string)
    requires forall n :: 0 <= n < |arr| ==> !IsArrayIndex(keyOf(arr[n]))
    ensures InFirstSeenOrder(GroupBy(arr, keyOf), KeyList(arr, keyOf))
  {
    var o := Buckets(arr, keyOf);
    var ks := KeyList(arr, keyOf);
    AccumulateKeys(arr, keyOf, AddCaller);
    forall i | 0 <= i < |o| ensures !IsArrayIndex(o[i].0) {
      assert KeysOf(o)[i] in ks;
      var n :| 0 <= n < |ks| && ks[n] == o[i].0;
    }
    EntriesOfNamedKeys(o);
    var gs := GroupBy(arr, keyOf);
    forall i, j | 0 <= i < j < |gs|
      ensures gs[i].name in ks && gs[j].name in ks && FirstIndex(ks, gs[i].name) < FirstIndex(ks, gs[j].name)
    {
      assert gs[i].name == KeysOf(o)[i] && gs[j].name == KeysOf(o)[j];
    }
  }

  /** An hour label is never an array index: it holds a colon. */
  lemma HourKeyNamed(h: int)
    ensures !IsArrayIndex(HourKey(h))
  {
    var k := HourKey(h);
    assert k[|k| - 3] == ':';
  }

  /** A duration label is never an array index: it holds a space. */
  lemma DurationKeyNamed(d: real)
    ensures !IsArrayIndex(DurationKey(d))
  {
    var k := DurationKey(d);
    assert k[|k| - 4] == ' ';
  }

  /** The hour chart lists its hours in the order they first occur. */
  lemma ByHourOrder(arr: seq<ChartCall>)
    ensures InFirstSeenOrder(ByHour(arr), KeyList(arr, HourLabel))
  {
    HourLabelsNamed(arr);
    GroupOrder(arr, HourLabel);
  }

  lemma HourLabelsNamed(arr: seq<ChartCall>)
    ensures forall n :: 0 <= n < |arr| ==> !IsArrayIndex(HourLabel(arr[n]))
  {
    forall n | 0 <= n < |arr| ensures !IsArrayIndex(HourLabel(arr[n])) {
      HourKeyNamed(arr[n].hour);
    }
  }

  /** The duration chart lists its buckets in the order they first occur. */
  lemma ByDurationOrder(arr: seq<ChartCall>)
    ensures InFirstSeenOrder(ByDuration(arr), KeyList(arr, DurationLabel))
  {
    DurationLabelsNamed(arr);
    GroupOrder(arr, DurationLabel);
  }

  lemma DurationLabelsNamed(arr: seq<ChartCall>)
    ensures forall n :: 0 <= n < |arr| ==> !IsArrayIndex(DurationLabel(arr[n]))
  {
    forall n | 0 <= n < |arr| ensures !IsArrayIndex(DurationLabel(arr[n])) {
      DurationKeyNamed(arr[n].duration);
    }
  }

  /** Every hour of the day gets a five-character label "HH:00". */
  lemma HourKeyShape(h: int)
    requires 0 <= h < 24
    ensures |HourKey(h)| == 5 && HourKey(h)[2..] == ":00"
    ensures DigitsValue(HourKey(h)[..2]) == h
  {
    var s := IntToString(h);
    var k := HourKey(h);
    NatToStringRoundTrip(h);
    if |s| == 1 {
      assert k[..2] == "0" + s;
      LeadingZeroValue(s);
    } else {
      assert k[..2] == s;
    }
  }

  /** Different hours get different labels. */
  lemma HourKeyInjective(h1: int, h2: int)
    ensures HourKey(h1) == HourKey(h2) <==> h1 == h2
  {
    if HourKey(h1) == HourKey(h2) {
      var a, b := IntToString(h1), IntToString(h2);
      var pa, pb := PadStart(a, 2, '0'), PadStart(b, 2, '0');
      assert pa == HourKey(h1)[..|pa|] && pb == HourKey(h2)[..|pb|];
      assert pa == pb;
      PaddedNumerals(h1, h2);
      IntToStringInjective(h1, h2);
    }
  }

  /** Padding to two places keeps distinct numerals distinct. */
  lemma PaddedNumerals(h1: int, h2: int)
    requires PadStart(IntToString(h1), 2, '0') == PadStart(IntToString(h2), 2, '0')
    ensures IntToString(h1) == IntToString(h2)
  {
    var a, b := IntToString(h1), IntToString(h2);
    if |a| == 1 && |b| >= 2 {
      NumeralStart(h2);
      assert false;
    } else if |b| == 1 && |a| >= 2 {
      NumeralStart(h1);
      assert false;
    } else if |a| == 1 {
      assert a == PadStart(a, 2, '0')[1..];
    }
  }

  /** A numeral of two or more characters does not start with zero. */
  lemma NumeralStart(h: int)
    requires |IntToString(h)| >= 2
    ensures IntToString(h)[0] != '0'
  {
  }

  /** Two durations share a bucket exactly when they have the same whole
      number of minutes. */
  lemma DurationKeyEqual(d1: real, d2: real)
    ensures DurationKey(d1) == DurationKey(d2) <==> d1.Floor == d2.Floor
  {
    if DurationKey(d1) == DurationKey(d2) {
      var a, b := IntToString(d1.Floor), IntToString(d2.Floor);
      assert |a| == |b|;
      assert a == DurationKey(d1)[..|a|] && b == DurationKey(d2)[..|b|];
      IntToStringInjective(d1.Floor, d2.Floor);
    }
  }
}
