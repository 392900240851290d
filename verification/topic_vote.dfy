/** Topic labelling of a call (server/server.js): the classifier's label for
    one utterance (`getTopicFromGPT`) and the majority vote over all labels
    of a call (`mostFrequent`). */
module TopicVote {
  import opened Wrappers
  import opened Seqs
  import opened JsObject
  import JsText

  /** The label used when the classifier fails and when the vote has no winner. */
  const DefaultTopic := "Allgemeine Anfrage"

  /** The request sent to the classifier for one transcript. */
  datatype Prompt = ClassifierPrompt(transcript: string)

  /** The text of that request: the four categories to choose from, then the
      transcript in double quotes. */
  function PromptText(p: Prompt): string {
    "Ordne die Nachricht einer Kategorie zu (Support, Reklamation, Verkauf, Allgemeine Anfrage): \""
      + p.transcript + "\""
  }

  /** The prompt ends with the transcript, quoted, so distinct transcripts
      give distinct prompts. */
  lemma PromptQuotesTranscript(p: Prompt, q: Prompt)
    ensures var text := PromptText(p);
      && |text| >= |p.transcript| + 2
      && text[|text| - 1] == '"' && text[|text| - |p.transcript| - 2] == '"'
      && text[|text| - |p.transcript| - 1..|text| - 1] == p.transcript
    ensures PromptText(p) == PromptText(q) <==> p == q
  {
    var text := PromptText(p);
    assert text[|text| - |p.transcript| - 1..|text| - 1] == p.transcript;
    if PromptText(p) == PromptText(q) {
      var tq := PromptText(q);
      assert |p.transcript| == |q.transcript|;
      assert p.transcript == text[|text| - |p.transcript| - 1..|text| - 1];
      assert q.transcript == tq[|tq| - |q.transcript| - 1..|tq| - 1];
    }
  }

  /** `getTopicFromGPT` once the classifier has answered: the answer without
      surrounding white space, or the default label when the call failed. */
  function Classify(answer: Option<string>): (topic: string)
    ensures answer.None? ==> topic == DefaultTopic
    ensures answer.Some? ==> JsText.IsTrimmed(topic) && |topic| <= |answer.value|
  {
    match answer
    case None => DefaultTopic
    case Some(content) => JsText.Trim(content)
  }

  /** How often `x` occurs in `arr`. */
  function Count(arr: seq<string>, x: string): nat {
    multiset(arr)[x]
  }

  /** No label of `arr` occurs more often than `w`. */
  predicate IsMajority(arr: seq<string>, w: string) {
    forall i :: 0 <= i < |arr| ==> Count(arr, arr[i]) <= Count(arr, w)
  }

  function LabelKey(x: string): string {
    x
  }

  /** One step of `acc[x] = (acc[x] || 0) + 1`. */
  function Tally(previous: Option<int>, x: string): int {
    previous.GetOr(0) + 1
  }

  /** The object `arr.reduce((acc, x) => { acc[x] = (acc[x] || 0) + 1; return acc }, {})`. */
  function Tallies(arr: seq<string>): Props<int> {
    Accumulate(arr, LabelKey, Tally)
  }

  lemma LabelListIsInput(arr: seq<string>)
    ensures KeyList(arr, LabelKey) == arr
  {
  }

  /** Counting one more label. */
  lemma CountSnoc(front: seq<string>, x: string, k: string)
    ensures Count(front + [x], k) == Count(front, k) + (if k == x then 1 else 0)
  {
    assert multiset(front + [x]) == multiset(front) + multiset{x};
  }

  lemma TalliesSnoc(front: seq<string>, x: string)
    ensures Tallies(front + [x]) == Set(Tallies(front), x, Tally(Get(Tallies(front), x), x))
  {
    var arr := front + [x];
    assert arr[..|arr| - 1] == front;
  }

  /** What the tally object says about `k`: absent when `k` never occurs, its count otherwise. */
  predicate TallyOf(o: Props<int>, arr: seq<string>, k: string) {
    Get(o, k) == if Count(arr, k) == 0 then None else Some(Count(arr, k) as int)
  }

  /** The label just counted goes up by one. */
  lemma TallyStepSame(front: seq<string>, x: string)
    requires TallyOf(Tallies(front), front, x)
    ensures TallyOf(Tallies(front + [x]), front + [x], x)
  {
    TalliesSnoc(front, x);
    CountSnoc(front, x, x);
    var o := Tallies(front);
    var v := Tally(Get(o, x), x);
    assert v == Count(front, x) + 1 by {
      if Count(front, x) == 0 {
        assert Get(o, x) == None;
      } else {
        assert Get(o, x) == Some(Count(front, x) as int);
      }
    }
    assert Get(Set(o, x, v), x) == Some(v);
  }

  /** Every other label keeps its tally. */
  lemma TallyStepOther(front: seq<string>, x: string, k: string)
    requires k != x
    requires TallyOf(Tallies(front), front, k)
    ensures TallyOf(Tallies(front + [x]), front + [x], k)
  {
    TalliesSnoc(front, x);
    CountSnoc(front, x, k);
    GetSetOther(Tallies(front), x, Tally(Get(Tallies(front), x), x), k);
  }

  /** The tally object holds each label of the input once, with its number of occurrences. */
  lemma {:induction false} TalliesCount(arr: seq<string>, k: string)
    ensures Get(Tallies(arr), k) == if k in arr then Some(Count(arr, k) as int) else None
  {
    TalliesCountAux(arr, k);
  }

  lemma {:induction false} TalliesCountAux(arr: seq<string>, k: string)
    ensures TallyOf(Tallies(arr), arr, k)
  {
    if |arr| > 0 {
      var front := arr[..|arr| - 1];
      var x := arr[|arr| - 1];
      assert arr == front + [x];
      if k == x {
        TalliesCountAux(front, x);
        TallyStepSame(front, x);
      } else {
        TalliesCountAux(front, k);
        TallyStepOther(front, x, k);
      }
    }
  }

  /** Every property of the tally object is a label of the input with its count. */
  lemma TalliesAt(arr: seq<string>, p: nat)
    requires p < |Tallies(arr)|
    ensures Tallies(arr)[p].0 in arr
    ensures Tallies(arr)[p].1 == Count(arr, Tallies(arr)[p].0)
  {
    AccumulateKeys(arr, LabelKey, Tally);
    LabelListIsInput(arr);
    TalliesCount(arr, Tallies(arr)[p].0);
    GetAt(Tallies(arr), p);
    assert KeysOf(Tallies(arr))[p] == Tallies(arr)[p].0;
  }

  /** Index of the first entry with the largest count; the head of a stable
      descending sort. */
  function FirstMaxIndex(s: Props<int>): (i: nat)
    requires |s| > 0
    ensures i < |s|
    ensures forall k :: 0 <= k < |s| ==> s[k].1 <= s[i].1
    ensures forall k :: 0 <= k < i ==> s[k].1 < s[i].1
  {
    if |s| == 1 then 0
    else
      var j := 1 + FirstMaxIndex(s[1..]);
      if s[0].1 >= s[j].1 then 0 else j
  }

  predicate CountDescending(s: Props<int>) {
    forall i, j :: 0 <= i < j < |s| ==> s[i].1 >= s[j].1
  }

  /** Insert `e` before the first entry whose count does not exceed its own. */
  function InsertByCount(e: (string, int), s: Props<int>): (r: Props<int>)
    ensures multiset(r) == multiset{e} + multiset(s)
    ensures |r| == |s| + 1
    ensures r[0] == if |s| == 0 || s[0].1 <= e.1 then e else s[0]
  {
    if |s| == 0 || s[0].1 <= e.1 then [e] + s
    else
      assert s == [s[0]] + s[1..];
      [s[0]] + InsertByCount(e, s[1..])
  }

  lemma {:induction false} InsertByCountKeepsOrder(e: (string, int), s: Props<int>)
    requires CountDescending(s)
    ensures CountDescending(InsertByCount(e, s))
  {
    if |s| > 0 && s[0].1 > e.1 {
      InsertByCountKeepsOrder(e, s[1..]);
      var t := InsertByCount(e, s[1..]);
      forall k | 0 <= k < |t| ensures s[0].1 >= t[k].1 {
        assert t[k] in multiset(t);
        if t[k] != e {
          assert t[k] in s[1..];
        }
      }
    }
  }

  /** `entries.sort(([, a], [, b]) => b - a)`: a stable sort by descending count. */
  function SortByCountDesc(s: Props<int>): (r: Props<int>)
    ensures multiset(r) == multiset(s) && |r| == |s|
    ensures CountDescending(r)
  {
    if |s| == 0 then []
    else
      assert s == [s[0]] + s[1..];
      InsertByCountKeepsOrder(s[0], SortByCountDesc(s[1..]));
      InsertByCount(s[0], SortByCountDesc(s[1..]))
  }

  /** The head of the stable descending sort is the first entry with the largest count. */
  lemma {:induction false} SortHead(s: Props<int>)
    requires |s| > 0
    ensures SortByCountDesc(s)[0] == s[FirstMaxIndex(s)]
  {
    if |s| > 1 {
      SortHead(s[1..]);
    }
  }

  /** `mostFrequent(arr)`: the first key of the count-sorted entries of the
      tally object, or the default label when there is none or it is "". */
  function MostFrequent(arr: seq<string>): (topic: string)
    ensures topic == DefaultTopic || (topic in arr && topic != "")
  {
    var ranked := SortByCountDesc(Entries(Tallies(arr)));
    if |ranked| == 0 || ranked[0].0 == "" then DefaultTopic
    else
      EntriesPermutation(Tallies(arr));
      assert ranked[0] in multiset(Tallies(arr));
      var p :| 0 <= p < |Tallies(arr)| && Tallies(arr)[p] == ranked[0];
      TalliesAt(arr, p);
      ranked[0].0
  }

  /** Each label of the input has exactly one property, holding its count. */
  lemma LabelEntry(arr: seq<string>, x: string) returns (q: nat)
    requires x in arr
    ensures q < |Tallies(arr)| && Tallies(arr)[q] == (x, Count(arr, x) as int)
  {
    var o := Tallies(arr);
    AccumulateKeys(arr, LabelKey, Tally);
    LabelListIsInput(arr);
    assert x in KeysOf(o);
    q :| 0 <= q < |o| && KeysOf(o)[q] == x;
    TalliesAt(arr, q);
  }

  /** The same, among the entries in `Object.entries` order. */
  lemma LabelEntryListed(arr: seq<string>, x: string) returns (r: nat)
    requires x in arr
    ensures r < |Entries(Tallies(arr))| && Entries(Tallies(arr))[r] == (x, Count(arr, x) as int)
  {
    var o := Tallies(arr);
    var q := LabelEntry(arr, x);
    EntriesPermutation(o);
    assert o[q] in multiset(Entries(o));
    r :| 0 <= r < |Entries(o)| && Entries(o)[r] == o[q];
  }

  /** The head of the ranking is a label of the input with its count, and no
      label occurs more often. */
  lemma RankedHead(arr: seq<string>)
    requires |arr| > 0
    ensures |SortByCountDesc(Entries(Tallies(arr)))| > 0
    ensures var h := SortByCountDesc(Entries(Tallies(arr)))[0];
      h.0 in arr && h.1 == Count(arr, h.0) && IsMajority(arr, h.0)
  {
    var o := Tallies(arr);
    var es := Entries(o);
    var r0 := LabelEntryListed(arr, arr[0]);
    assert |es| > 0;
    SortHead(es);
    var h := es[FirstMaxIndex(es)];
    assert h in multiset(o) by {
      EntriesPermutation(o);
      assert h in multiset(es);
    }
    var p :| 0 <= p < |o| && o[p] == h;
    TalliesAt(arr, p);
    forall i | 0 <= i < |arr| ensures Count(arr, arr[i]) <= Count(arr, h.0) {
      var r := LabelEntryListed(arr, arr[i]);
    }
  }

  /** The vote read off the ranking of the tally entries. */
  lemma MostFrequentRanked(arr: seq<string>, ranked: Props<int>)
    requires ranked == SortByCountDesc(Entries(Tallies(arr)))
    ensures |ranked| == 0 ==> MostFrequent(arr) == DefaultTopic
    ensures |ranked| > 0 ==> MostFrequent(arr) == if ranked[0].0 == "" then DefaultTopic else ranked[0].0
  {
  }

  /** The vote's winner is a label no other label outnumbers; the default
      label comes out of a non-empty vote only when the winner was the
      default label itself or the empty string. */
  lemma MostFrequentIsMajority(arr: seq<string>)
    ensures arr == [] ==> MostFrequent(arr) == DefaultTopic
    ensures MostFrequent(arr) != DefaultTopic ==> IsMajority(arr, MostFrequent(arr))
    ensures arr != [] && MostFrequent(arr) == DefaultTopic ==>
      IsMajority(arr, DefaultTopic) || IsMajority(arr, "")
  {
    if |arr| > 0 {
      RankedHead(arr);
    } else {
      assert Tallies(arr) == [];
    }
  }

  /** Reference definition of the first-seen majority: the earliest position
      whose label no label outnumbers, every earlier label being strictly rarer. */
  function FirstMajorityIndex(arr: seq<string>): (j: nat)
    requires |arr| > 0
    ensures j < |arr|
    ensures IsMajority(arr, arr[j])
    ensures forall i :: 0 <= i < j ==> Count(arr, arr[i]) < Count(arr, arr[j])
  {
    ScanMajority(arr, 1, 0)
  }

  function ScanMajority(arr: seq<string>, i: nat, best: nat): (j: nat)
    requires best < i <= |arr|
    requires forall k :: 0 <= k < i ==> Count(arr, arr[k]) <= Count(arr, arr[best])
    requires forall k :: 0 <= k < best ==> Count(arr, arr[k]) < Count(arr, arr[best])
    ensures j < |arr|
    ensures forall k :: 0 <= k < |arr| ==> Count(arr, arr[k]) <= Count(arr, arr[j])
    ensures forall k :: 0 <= k < j ==> Count(arr, arr[k]) < Count(arr, arr[j])
    decreases |arr| - i
  {
    if i == |arr| then best
    else if Count(arr, arr[i]) > Count(arr, arr[best]) then ScanMajority(arr, i + 1, i)
    else ScanMajority(arr, i + 1, best)
  }

  /** Properties of the tally object follow the first occurrences of their labels. */
  lemma TalliesFirstSeen(arr: seq<string>, p: nat, q: nat)
    requires p < q < |Tallies(arr)|
    ensures Tallies(arr)[p].0 in arr && Tallies(arr)[q].0 in arr
    ensures FirstIndex(arr, Tallies(arr)[p].0) < FirstIndex(arr, Tallies(arr)[q].0)
  {
    AccumulateKeys(arr, LabelKey, Tally);
    LabelListIsInput(arr);
    var ks := KeysOf(Tallies(arr));
    assert ks[p] == Tallies(arr)[p].0 && ks[q] == Tallies(arr)[q].0;
  }

  /** With no integer-like label, `Object.entries` keeps the tally object as it is. */
  lemma NamedTallies(arr: seq<string>)
    requires forall i :: 0 <= i < |arr| ==> !IsArrayIndex(arr[i])
    ensures Entries(Tallies(arr)) == Tallies(arr)
  {
    var o := Tallies(arr);
    forall p | 0 <= p < |o| ensures !IsArrayIndex(o[p].0) {
      TalliesAt(arr, p);
    }
    EntriesOfNamedKeys(o);
  }

  /** The first property with the largest count belongs to the first-seen majority label. */
  lemma {:induction false} FirstMaxIsFirstSeen(arr: seq<string>)
    requires |arr| > 0
    ensures |Tallies(arr)| > 0
    ensures Tallies(arr)[FirstMaxIndex(Tallies(arr))].0 == arr[FirstMajorityIndex(arr)]
  {
    var o := Tallies(arr);
    var q0 := LabelEntry(arr, arr[0]);
    var m := FirstMaxIndex(o);
    var j := FirstMajorityIndex(arr);
    var a := arr[j];
    var p := LabelEntry(arr, a);
    TalliesAt(arr, m);
    var k := o[m].0;
    assert Count(arr, k) <= Count(arr, a) by {
      var fk := FirstIndex(arr, k);
    }
    assert Count(arr, k) == Count(arr, a);
    assert p >= m;
    assert FirstIndex(arr, a) <= j;
    if p > m {
      TalliesFirstSeen(arr, m, p);
      assert false;
    }
  }

  /** With no integer-like label, ties go to the label seen first: the vote
      returns the first-seen majority label (or the default label in its
      place when that label is ""). */
  lemma MostFrequentFirstSeen(arr: seq<string>)
    requires |arr| > 0
    requires forall i :: 0 <= i < |arr| ==> !IsArrayIndex(arr[i])
    ensures var w := arr[FirstMajorityIndex(arr)];
      MostFrequent(arr) == if w == "" then DefaultTopic else w
  {
    NamedTallies(arr);
    FirstMaxIsFirstSeen(arr);
    SortHead(Tallies(arr));
  }

  /** A call with a single turn is archived under that turn's label, unless it is "". */
  lemma MostFrequentSingle(x: string)
    ensures MostFrequent([x]) == if x == "" then DefaultTopic else x
  {
    MostFrequentIsMajority([x]);
    assert Count([x], x) == 1;
  }
}

/** Concrete votes. */
module TopicVoteExamples {
  import opened Wrappers
  import opened Decimal
  import opened JsObject
  import opened TopicVote

  lemma OneLabelTallies(a: string)
    ensures Tallies([a]) == [(a, 1)]
  {
    TalliesSnoc([], a);
    assert [] + [a] == [a];
    assert Tallies([]) == [];
    assert Get<int>([], a) == None;
    assert Tally(None, a) == 1;
  }

  lemma TwoLabelTallies(a: string, b: string)
    requires a != b
    ensures Tallies([a, b]) == [(a, 1), (b, 1)]
  {
    OneLabelTallies(a);
    TalliesSnoc([a], b);
    assert [a] + [b] == [a, b];
    var o := [(a, 1)];
    assert Get(o, b) == None;
    assert Tally(None, b) == 1;
    assert Set(o, b, 1) == o + [(b, 1)];
  }

  lemma TwoLabelEntries()
    ensures Entries([("Support", 1), ("7", 1)]) == [("7", 1), ("Support", 1)]
  {
    assert IsArrayIndex("7") by {
      assert DigitsValue("7") == 7;
    }
    assert !IsArrayIndex("Support");
    var o := [("Support", 1), ("7", 1)];
    assert IndexProps(o) == [("7", 1)];
    assert NamedProps(o) == [("Support", 1)];
  }

  /** A label that reads as an array index is listed first by `Object.entries`,
      so it wins a tie against a label seen before it. */
  lemma IndexLabelWinsTie()
    ensures MostFrequent(["Support", "7"]) == "7"
  {
    TwoLabelTallies("Support", "7");
    TwoLabelEntries();
    var es := [("7", 1), ("Support", 1)];
    assert es[1..] == [("Support", 1)];
    assert SortByCountDesc(es[1..]) == [("Support", 1)];
    var ranked := SortByCountDesc(es);
    assert ranked == InsertByCount(("7", 1), [("Support", 1)]);
    assert ranked[0] == ("7", 1);
    MostFrequentRanked(["Support", "7"], ranked);
  }

  /** Otherwise a tie goes to the label seen first. */
  lemma FirstSeenWinsTie()
    ensures MostFrequent(["Support", "Verkauf", "Verkauf", "Support"]) == "Support"
  {
    assert !IsArrayIndex("Support") && !IsArrayIndex("Verkauf");
    TieGoesToFirst("Support", "Verkauf");
  }

  lemma TieCounts(a: string, b: string)
    requires a != b
    ensures Count([a, b, b, a], a) == 2 && Count([a, b, b, a], b) == 2
  {
    assert multiset([a, b, b, a]) == multiset{a, a, b, b};
  }

  lemma TieGoesToFirst(a: string, b: string)
    requires a != b && a != ""
    requires !IsArrayIndex(a) && !IsArrayIndex(b)
    ensures MostFrequent([a, b, b, a]) == a
  {
    var arr := [a, b, b, a];
    TieCounts(a, b);
    var j := FirstMajorityIndex(arr);
    assert Count(arr, arr[0]) == Count(arr, arr[j]);
    assert j == 0;
    MostFrequentFirstSeen(arr);
  }
}
