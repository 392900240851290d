/** The archive of completed calls (`callRecords`, server/server.js) and
    the `/api/calls` query the dashboard reads it through. Instants are
    integer milliseconds since the epoch. */
module CallArchive {
  import opened Wrappers
  import opened Seqs
  import Decimal
  import JsText

  /** One completed call: `time` is when the call started, `duration` its
      length in whole minutes. */
  datatype CallRecord = CallRecord(id: string, caller: string, time: int, duration: int, topic: string)

  const MinuteMs := 60000
  const DayMs := 86400000

  /** `Math.round(elapsed / 60000)`: the nearest whole number of minutes,
      halves rounded up. */
  function RoundMinutes(elapsed: int): (minutes: int)
    ensures minutes * MinuteMs - MinuteMs / 2 <= elapsed < minutes * MinuteMs + MinuteMs / 2
  {
    (elapsed + MinuteMs / 2) / MinuteMs
  }

  /** Only one number of minutes lies within half a minute of `elapsed`. */
  lemma RoundMinutesUnique(elapsed: int, m: int)
    requires m * MinuteMs - MinuteMs / 2 <= elapsed < m * MinuteMs + MinuteMs / 2
    ensures RoundMinutes(elapsed) == m
  {
    var r := RoundMinutes(elapsed);
    assert r * MinuteMs < (m + 1) * MinuteMs;
    assert m * MinuteMs < (r + 1) * MinuteMs;
  }

  /** `parseInt(req.query.days) || 1`: a missing parameter reads as
      "undefined"; NaN and 0 both fall back to one day. */
  function Days(query: Option<string>): (days: int)
    ensures days != 0
  {
    match Decimal.ParseInt(query.GetOr("undefined"))
    case None => 1
    case Some(d) => if d == 0 then 1 else d
  }

  /** The furthest a JavaScript Date may lie from the epoch: 100,000,000
      days either way. A Date set beyond it holds NaN and is invalid. */
  const MaxTime := 8_640_000_000_000_000

  /** `cutoff.setDate(cutoff.getDate() - days + 1)`: the current time of day,
      `days - 1` days back; None when that instant is outside the range of a
      Date, which makes the Date invalid. */
  function Cutoff(now: int, days: int): (cutoff: Option<int>)
    ensures cutoff.Some? ==> -MaxTime <= cutoff.value <= MaxTime && cutoff.value + (days - 1) * DayMs == now
    ensures cutoff.None? ==> now - (days - 1) * DayMs < -MaxTime || MaxTime < now - (days - 1) * DayMs
  {
    var t := now - (days - 1) * DayMs;
    if -MaxTime <= t <= MaxTime then Some(t) else None
  }

  predicate StartsAtOrAfter(cutoff: int, c: CallRecord) {
    c.time >= cutoff
  }

  /** `callRecords.filter(r => new Date(r.time) >= cutoff)`. */
  function Recent(records: seq<CallRecord>, cutoff: int): (r: seq<CallRecord>)
    ensures IsSubsequence(r, records)
    ensures forall c :: c in r <==> c in records && c.time >= cutoff
    ensures forall c :: multiset(r)[c] == if c.time >= cutoff then multiset(records)[c] else 0
  {
    var keep := c => StartsAtOrAfter(cutoff, c);
    FilterIsSubsequence(records, keep);
    forall c ensures multiset(Filter(records, keep))[c] == if c.time >= cutoff then multiset(records)[c] else 0 {
      FilterCount(records, keep, c);
    }
    Filter(records, keep)
  }

  /** The records of the last `days` days at instant `now`. An invalid
      cutoff compares false with every record, so nothing is returned. */
  function Window(records: seq<CallRecord>, now: int, days: int): (r: seq<CallRecord>)
    ensures IsSubsequence(r, records)
    ensures Cutoff(now, days).None? ==> r == []
    ensures Cutoff(now, days).Some? ==>
      forall c :: c in r <==> c in records && c.time >= Cutoff(now, days).value
  {
    match Cutoff(now, days)
    case None => []
    case Some(cutoff) => Recent(records, cutoff)
  }

  /** The response of `GET /api/calls?days=...` at instant `now`. */
  function ApiCalls(records: seq<CallRecord>, query: Option<string>, now: int): (r: seq<CallRecord>)
    ensures IsSubsequence(r, records)
    ensures Cutoff(now, Days(query)).None? ==> r == []
    ensures Cutoff(now, Days(query)).Some? ==>
      forall c :: c in r <==> c in records && c.time >= Cutoff(now, Days(query)).value
  {
    Window(records, now, Days(query))
  }

  /** Asking for more days returns everything a shorter window returns, in
      the same order, as long as the longer window starts within the range
      of a Date. */
  lemma {:induction false} WindowMonotone(records: seq<CallRecord>, now: int, d1: int, d2: int)
    requires d1 <= d2
    requires Cutoff(now, d2).Some?
    ensures IsSubsequence(Window(records, now, d1), Window(records, now, d2))
  {
    var c2 := Cutoff(now, d2).value;
    if Cutoff(now, d1).Some? {
      var c1 := Cutoff(now, d1).value;
      assert (d1 - 1) * DayMs <= (d2 - 1) * DayMs;
      FilterMonotone(records, c => StartsAtOrAfter(c1, c), c => StartsAtOrAfter(c2, c));
    }
  }

  /** A lookback of more than 200,000,001 days either way from a valid
      instant leaves the range of a Date, so the answer is empty. */
  lemma FarLookbackIsEmpty(records: seq<CallRecord>, now: int, days: int)
    requires -MaxTime <= now <= MaxTime
    requires days > 200_000_001 || days < -200_000_000
    ensures Window(records, now, days) == []
  {
    if days > 200_000_001 {
      assert (days - 1) * DayMs > 2 * MaxTime;
    } else {
      assert (1 - days) * DayMs > 2 * MaxTime;
    }
  }

  /** A text that, past its leading white space, starts with neither a sign
      nor a digit is NaN and falls back to one day. */
  lemma DaysOfNonNumeric(s: string)
    requires var t := JsText.TrimStart(s);
      |t| == 0 || (t[0] != '-' && t[0] != '+' && !Decimal.IsDigit(t[0]))
    ensures Days(Some(s)) == 1
  {
    var t := JsText.TrimStart(s);
    if |t| > 0 {
      assert Decimal.DigitRun(t, 10) == 0;
    }
  }

  /** Without a `days` parameter the window is one day. */
  lemma DaysMissing()
    ensures Days(None) == 1
  {
    JsText.TrimStartOfUnpadded("undefined");
    DaysOfNonNumeric("undefined");
  }

  /** "0" days falls back to one day as well. */
  lemma DaysZero()
    ensures Days(Some("0")) == 1
  {
    Decimal.ParseIntRoundTrip(0);
    assert Decimal.IntToString(0) == "0";
  }

  /** Every other integer that a double holds exactly, written as
      `toString` writes it, is taken as it is. */
  lemma DaysOfNumeral(d: int)
    requires d != 0
    requires -Decimal.MaxExactInteger <= d <= Decimal.MaxExactInteger
    ensures Days(Some(Decimal.IntToString(d))) == d
  {
    Decimal.ParseIntRoundTrip(d);
  }

  /** Any numeral beyond the Date range, from a valid instant, yields no
      records. `parseInt` rounds numerals beyond 2^53 and reads ones beyond
      about 1.8e308 as Infinity, but each of these is still that far out, so
      the answer does not depend on how it is rounded. */
  lemma FarNumeralIsEmpty(records: seq<CallRecord>, d: int, now: int)
    requires -MaxTime <= now <= MaxTime
    requires d > 200_000_001 || d < -200_000_000
    ensures ApiCalls(records, Some(Decimal.IntToString(d)), now) == []
  {
    Decimal.ParseIntRoundTrip(d);
    FarLookbackIsEmpty(records, now, d);
  }
}
