/** `formatDuration` of dashboard-app/src/components/CallList.jsx: a
    duration in seconds written as minutes and seconds, "MM:SS". */
module CallList {
  import opened Wrappers
  import opened JsText
  import opened Decimal

  /** `sec % 60` as JavaScript computes it: the remainder of the division
      truncated toward zero, so it takes the sign of `sec`. */
  function SecondsPart(sec: int): (r: int)
    ensures -60 < r < 60
    ensures sec >= 0 ==> 0 <= r
    ensures sec <= 0 ==> r <= 0
    ensures (sec - r) % 60 == 0
  {
    if sec >= 0 then sec % 60 else -((-sec) % 60)
  }

  /** A number written with at least two places, zeros in front. */
  function TwoPlaces(i: int): string {
    PadStart(IntToString(i), 2, '0')
  }

  /** `Math.floor(sec / 60)` and `sec % 60`, each written with at least two
      places, joined by a colon. */
  function FormatDuration(sec: int): (text: string)
    ensures |text| >= 5
    ensures ':' in text
  {
    var mm, ss := TwoPlaces(sec / 60), TwoPlaces(SecondsPart(sec));
    assert (mm + ":" + ss)[|mm|] == ':';
    mm + ":" + ss
  }

  /** A non-negative number written with two places reads back as itself. */
  lemma TwoPlacesValue(n: nat)
    ensures var s := TwoPlaces(n);
      && |s| == (if n < 100 then 2 else |NatToString(n)|)
      && AllDigits(s) && DigitsValue(s) == n
      && ':' !in s
  {
    var d := NatToString(n);
    NatToStringRoundTrip(n);
    if |d| < 2 {
      assert TwoPlaces(n) == "0" + d;
      LeadingZeroValue(d);
    }
    assert AllDigits(TwoPlaces(n));
  }

  /** For a non-negative duration the text is the minutes, a colon, and
      exactly two digits of seconds below 60; it splits at its colon into
      two fields that read back as the minutes and the seconds, so
      `MM * 60 + SS` is the duration again. */
  lemma FormatDurationFields(sec: nat)
    ensures var text := FormatDuration(sec);
      var fields := Split(text, ':');
      && |fields| == 2
      && |fields[1]| == 2 && AllDigits(fields[1]) && DigitsValue(fields[1]) < 60
      && |fields[0]| >= 2 && AllDigits(fields[0])
      && DigitsValue(fields[0]) == sec / 60
      && DigitsValue(fields[0]) * 60 + DigitsValue(fields[1]) == sec
  {
    var mm, ss := TwoPlaces(sec / 60), TwoPlaces(sec % 60);
    TwoPlacesValue(sec / 60);
    TwoPlacesValue(sec % 60);
    assert FormatDuration(sec) == mm + [':'] + ss;
    SplitAtColon(mm, ss);
  }

  lemma SplitAtColon(mm: string, ss: string)
    requires ':' !in mm && ':' !in ss
    ensures Split(mm + [':'] + ss, ':') == [mm, ss]
  {
    SplitConcat(mm, ':', ss);
    SplitPlain(mm, ':');
    SplitPlain(ss, ':');
  }

  /** `parseInt` reads both fields back: minutes and seconds. */
  lemma FormatDurationParses(sec: nat)
    ensures var fields := Split(FormatDuration(sec), ':');
      |fields| == 2 &&
      ParseInt(fields[0]) == Some(sec / 60) && ParseInt(fields[1]) == Some(sec % 60)
  {
    FormatDurationFields(sec);
    ParseFields(Split(FormatDuration(sec), ':'), sec);
  }

  /** Two digit fields whose values make up `sec` parse as its minutes and seconds. */
  lemma ParseFields(fields: seq<string>, sec: nat)
    requires |fields| == 2 && 1 <= |fields[0]| && 1 <= |fields[1]|
    requires AllDigits(fields[0]) && AllDigits(fields[1])
    requires DigitsValue(fields[0]) == sec / 60 && DigitsValue(fields[0]) * 60 + DigitsValue(fields[1]) == sec
    ensures ParseInt(fields[0]) == Some(sec / 60) && ParseInt(fields[1]) == Some(sec % 60)
  {
    ParseIntOfDigits(fields[0]);
    ParseIntOfDigits(fields[1]);
    assert DigitsValue(fields[1]) == sec % 60;
  }

  /** The text is five characters long exactly when the duration is below
      100 minutes; `padStart` never truncates a longer minutes field. */
  lemma FormatDurationLength(sec: nat)
    ensures |FormatDuration(sec)| == 5 <==> sec < 6000
  {
    TwoPlacesValue(sec / 60);
    TwoPlacesValue(sec % 60);
  }
}
