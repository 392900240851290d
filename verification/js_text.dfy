/** The pieces of JavaScript's string library the system relies on, over
    `string` = `seq<char>`: `trim`, `padStart`, `join`, `split(/\s+/)` and a
    case-insensitive literal search as `/phrase/i.test` performs it. */
module JsText {

  /** WhiteSpace or LineTerminator in the sense of ECMAScript: exactly the
      characters `trim`, `parseInt` and the class `\s` treat as white space. */
  predicate IsWhitespace(c: char) {
    || c == '\t' || c == '\n' || c == '\U{B}' || c == '\U{C}' || c == '\r' || c == ' '
    || c == '\U{A0}' || c == '\U{1680}' || ('\U{2000}' <= c <= '\U{200A}')
    || c == '\U{2028}' || c == '\U{2029}' || c == '\U{202F}' || c == '\U{205F}'
    || c == '\U{3000}' || c == '\U{FEFF}'
  }

  predicate NoWhitespace(s: string) {
    forall i :: 0 <= i < |s| ==> !IsWhitespace(s[i])
  }

  /** A string with no white space at either end. */
  predicate IsTrimmed(s: string) {
    |s| == 0 || (!IsWhitespace(s[0]) && !IsWhitespace(s[|s| - 1]))
  }

  /** Index just past the run of white space that starts at `i`. */
  function SkipWhitespace(s: string, i: nat): (j: nat)
    requires i <= |s|
    ensures i <= j <= |s|
    ensures forall k :: i <= k < j ==> IsWhitespace(s[k])
    ensures j < |s| ==> !IsWhitespace(s[j])
    decreases |s| - i
  {
    if i == |s| || !IsWhitespace(s[i]) then i else SkipWhitespace(s, i + 1)
  }

  /** Index where the run of white space that ends at `j` starts, looking no
      further back than `lo`. */
  function SkipWhitespaceBack(s: string, lo: nat, j: nat): (e: nat)
    requires lo <= j <= |s|
    ensures lo <= e <= j
    ensures forall k :: e <= k < j ==> IsWhitespace(s[k])
    ensures e > lo ==> !IsWhitespace(s[e - 1])
  {
    if j == lo || !IsWhitespace(s[j - 1]) then j else SkipWhitespaceBack(s, lo, j - 1)
  }

  /** Number of white-space characters `s` starts with. */
  function LeadingWhitespace(s: string): (n: nat)
    ensures n <= |s|
    ensures forall i :: 0 <= i < n ==> IsWhitespace(s[i])
    ensures n < |s| ==> !IsWhitespace(s[n])
  {
    SkipWhitespace(s, 0)
  }

  /** `s.trimStart()`: the longest suffix of `s` that does not start with white space. */
  function TrimStart(s: string): (r: string)
    ensures |r| <= |s| && r == s[|s| - |r|..]
    ensures forall i :: 0 <= i < |s| - |r| ==> IsWhitespace(s[i])
    ensures |r| == 0 || !IsWhitespace(r[0])
  {
    s[LeadingWhitespace(s)..]
  }

  /** A string that does not start with white space is its own `trimStart`. */
  lemma TrimStartOfUnpadded(s: string)
    requires |s| == 0 || !IsWhitespace(s[0])
    ensures TrimStart(s) == s
  {
    assert LeadingWhitespace(s) == 0;
    assert s[0..] == s;
  }

  /** `s.trim()`: `s` without its leading and trailing white space; what
      remains is the slice of `s` just past its leading white space. */
  function Trim(s: string): (r: string)
    ensures IsTrimmed(r)
    ensures LeadingWhitespace(s) + |r| <= |s|
    ensures r == s[LeadingWhitespace(s)..LeadingWhitespace(s) + |r|]
    ensures forall i :: 0 <= i < LeadingWhitespace(s) ==> IsWhitespace(s[i])
    ensures forall i :: LeadingWhitespace(s) + |r| <= i < |s| ==> IsWhitespace(s[i])
  {
    var lo := LeadingWhitespace(s);
    s[lo..SkipWhitespaceBack(s, lo, |s|)]
  }

  /** Trimming is idempotent: the text spoken, archived and classified is
      never changed by trimming it again. */
  lemma TrimIdempotent(s: string)
    ensures Trim(Trim(s)) == Trim(s)
  {
  }

  /** `s.padStart(n, fill)` for a one-character fill string: `s` is never
      truncated, and is preceded by as many `fill` characters as it falls short of `n`. */
  function PadStart(s: string, n: nat, fill: char): (r: string)
    ensures |r| == if |s| >= n then |s| else n
    ensures r[|r| - |s|..] == s
    ensures forall i :: 0 <= i < |r| - |s| ==> r[i] == fill
  {
    if |s| >= n then s else seq(n - |s|, _ => fill) + s
  }

  /** `xs.join(sep)`, built left to right as the language defines it. */
  function Join(xs: seq<string>, sep: string): string
  {
    if |xs| == 0 then ""
    else if |xs| == 1 then xs[0]
    else Join(xs[..|xs| - 1], sep) + sep + xs[|xs| - 1]
  }

  /** Pieces read so far, after reading one more character `c`: a separator
      starts a new piece, anything else extends the last one. */
  function AddChar(pieces: seq<string>, c: char, sep: char): (r: seq<string>)
    requires |pieces| >= 1
    ensures |r| >= 1
  {
    if c == sep then pieces + [""]
    else pieces[..|pieces| - 1] + [pieces[|pieces| - 1] + [c]]
  }

  /** Reading a character only ever touches the last piece. */
  lemma AddCharConcat(p: seq<string>, q: seq<string>, c: char, sep: char)
    requires |q| >= 1
    ensures AddChar(p + q, c, sep) == p + AddChar(q, c, sep)
  {
    if c != sep {
      assert (p + q)[..|p + q| - 1] == p + q[..|q| - 1];
    }
  }

  /** `s.split(sep)` for a one-character separator: the pieces between the
      occurrences of `sep`, read left to right. */
  function Split(s: string, sep: char): (pieces: seq<string>)
    ensures |pieces| >= 1
  {
    if |s| == 0 then [""] else AddChar(Split(s[..|s| - 1], sep), s[|s| - 1], sep)
  }

  lemma SplitSnoc(s: string, sep: char, c: char)
    ensures Split(s + [c], sep) == AddChar(Split(s, sep), c, sep)
  {
    assert (s + [c])[..|s|] == s;
  }

  /** Splitting at a separator splits the two sides independently. */
  lemma {:induction false} SplitConcat(a: string, sep: char, b: string)
    ensures Split(a + [sep] + b, sep) == Split(a, sep) + Split(b, sep)
    decreases |b|
  {
    if |b| == 0 {
      assert a + [sep] + b == a + [sep];
      SplitSnoc(a, sep, sep);
    } else {
      var b', c := b[..|b| - 1], b[|b| - 1];
      SplitConcat(a, sep, b');
      assert b == b' + [c];
      assert a + [sep] + b == (a + [sep] + b') + [c];
      SplitSnoc(a + [sep] + b', sep, c);
      SplitSnoc(b', sep, c);
      AddCharConcat(Split(a, sep), Split(b', sep), c, sep);
    }
  }

  /** A string without the separator is one piece. */
  lemma {:induction false} SplitPlain(s: string, sep: char)
    requires sep !in s
    ensures Split(s, sep) == [s]
  {
    if |s| > 0 {
      SplitPlain(s[..|s| - 1], sep);
      assert s == s[..|s| - 1] + [s[|s| - 1]];
    }
  }

  /** Splitting a joined list at its separator recovers the list, provided no
      element contains the separator. */
  lemma {:induction false} SplitJoin(xs: seq<string>, sep: char)
    requires |xs| >= 1
    requires forall k :: 0 <= k < |xs| ==> sep !in xs[k]
    ensures Split(Join(xs, [sep]), sep) == xs
  {
    var last := xs[|xs| - 1];
    SplitPlain(last, sep);
    if |xs| > 1 {
      var front := xs[..|xs| - 1];
      assert forall k :: 0 <= k < |front| ==> front[k] == xs[k];
      SplitJoin(front, sep);
      assert Join(xs, [sep]) == Join(front, [sep]) + [sep] + last;
      SplitConcat(Join(front, [sep]), sep, last);
      assert xs == front + [last];
    }
  }

  /** Index of the first white-space character at or after `i` (|s| if none). */
  function NextWhitespace(s: string, i: nat): (j: nat)
    requires i <= |s|
    ensures i <= j <= |s|
    ensures forall k :: i <= k < j ==> !IsWhitespace(s[k])
    ensures j < |s| ==> IsWhitespace(s[j])
    decreases |s| - i
  {
    if i == |s| || IsWhitespace(s[i]) then i else NextWhitespace(s, i + 1)
  }

  /** `s.split(/\s+/)`: every maximal run of white space separates two
      pieces, so a leading or trailing run yields an empty piece and the empty
      string yields the single piece "". */
  function SplitWhitespace(s: string): (pieces: seq<string>)
    ensures |pieces| >= 1
    ensures forall k :: 0 <= k < |pieces| ==> NoWhitespace(pieces[k])
    ensures |pieces| == 1 <==> NoWhitespace(s)
    decreases |s|
  {
    var i := NextWhitespace(s, 0);
    if i == |s| then [s]
    else
      var j := SkipWhitespace(s, i);
      [s[..i]] + SplitWhitespace(s[j..])
  }

  /** The simple upper-case mapping of ASCII and Latin-1 letters, and of the
      Greek small mu, which shares its capital with the micro sign; every
      other character maps to itself. For a pattern of Latin-1 characters
      this decides the same matches as the canonicalisation a case-insensitive,
      non-Unicode regular expression applies. */
  function UpperCase(c: char): char {
    if 'a' <= c <= 'z' then (c as int - 32) as char
    else if '\U{E0}' <= c <= '\U{FE}' && c != '\U{F7}' then (c as int - 32) as char
    else if c == '\U{FF}' then '\U{178}'
    else if c == '\U{B5}' || c == '\U{3BC}' then '\U{39C}'
    else c
  }

  /** `pattern` occurs in `text` at offset `i`, letters compared without case. */
  predicate MatchesAt(text: string, pattern: string, i: nat) {
    && i + |pattern| <= |text|
    && forall k :: 0 <= k < |pattern| ==> UpperCase(text[i + k]) == UpperCase(pattern[k])
  }

  /** Search for a case-insensitive occurrence of `pattern` at offset `i` or later. */
  function SearchFrom(text: string, pattern: string, i: nat): (found: bool)
    requires i <= |text|
    ensures found <==> exists j :: i <= j <= |text| && MatchesAt(text, pattern, j)
    decreases |text| - i
  {
    if MatchesAt(text, pattern, i) then true
    else if i == |text| then false
    else SearchFrom(text, pattern, i + 1)
  }

  /** `/pattern/i.test(text)` for a pattern free of metacharacters. */
  function ContainsIgnoringCase(text: string, pattern: string): (found: bool)
    ensures found <==> exists j :: 0 <= j <= |text| && MatchesAt(text, pattern, j)
  {
    SearchFrom(text, pattern, 0)
  }
}
