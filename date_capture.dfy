/**
 * The two date patterns of the receipt parser and which raw date text it keeps
 * (the line/pattern loop at the end of `_parse_receipt_text`).
 */
module DateCapture {
  import opened Wrappers
  import opened Text
  import Scans

  datatype DatePattern =
      /** `(\d{1,2}[/-]\d{1,2}[/-]\d{2,4})` */
    | NumericDate
      /** `(\d{1,2}\s+(?:Jan|Feb|Mar|Apr|May|Jun|Jul|Aug|Sep|Oct|Nov|Dec)\s+\d{2,4})`, case-sensitive */
    | TextualDate

  const DatePatterns: seq<DatePattern> := [NumericDate, TextualDate]

  const MonthAbbreviations: seq<string> :=
    ["Jan", "Feb", "Mar", "Apr", "May", "Jun", "Jul", "Aug", "Sep", "Oct", "Nov", "Dec"]

  predicate IsDateSeparator(c: char) { c == '/' || c == '-' }

  /** One of the twelve month abbreviations, with its case, starts at w. */
  predicate MonthAt(s: string, w: nat)
    requires w + 3 <= |s|
  {
    s[w..w + 3] in MonthAbbreviations
  }

  /** Every character of t from a to b is a digit. */
  predicate DigitsIn(t: string, a: nat, b: nat)
    requires a <= b <= |t|
  {
    forall k :: a <= k < b ==> IsDigit(t[k])
  }

  /** Every character of t from a to b is whitespace. */
  predicate SpacesIn(t: string, a: nat, b: nat)
    requires a <= b <= |t|
  {
    forall k :: a <= k < b ==> IsSpace(t[k])
  }

  /**
   * t cut at i and j is `\d{1,2}`, a separator, `\d{1,2}`, a separator,
   * `\d{2,4}`.
   */
  predicate NumericSplit(t: string, i: nat, j: nat) {
    1 <= i <= 2 && i + 2 <= j <= i + 3 && j + 3 <= |t| <= j + 5
    && DigitsIn(t, 0, i) && IsDateSeparator(t[i]) && DigitsIn(t, i + 1, j)
    && IsDateSeparator(t[j]) && DigitsIn(t, j + 1, |t|)
  }

  /**
   * t cut at i, w and y is `\d{1,2}`, whitespace, a month abbreviation,
   * whitespace, `\d{2,4}`.
   */
  predicate TextualSplit(t: string, i: nat, w: nat, y: nat) {
    1 <= i <= 2 && i < w && w + 3 < y && y + 2 <= |t| <= y + 4
    && DigitsIn(t, 0, i) && SpacesIn(t, i, w) && MonthAt(t, w)
    && SpacesIn(t, w + 3, y) && DigitsIn(t, y, |t|)
  }

  /** t has the shape the date pattern describes. */
  ghost predicate DateText(pat: DatePattern, t: string) {
    match pat
    case NumericDate => exists i, j :: NumericSplit(t, i, j)
    case TextualDate => exists i, w, y :: TextualSplit(t, i, w, y)
  }

  /** A run of digits of s is a run of digits of a slice of s that contains it. */
  lemma DigitsShift(s: string, p: nat, e: nat, a: nat, b: nat)
    requires p <= e <= |s| && a <= b <= e - p && DigitsIn(s, p + a, p + b)
    ensures DigitsIn(s[p..e], a, b)
  {
    forall k | a <= k < b ensures IsDigit(s[p..e][k]) {
      assert s[p..e][k] == s[p + k];
    }
  }

  /** A run of whitespace of s is a run of whitespace of a slice of s that contains it. */
  lemma SpacesShift(s: string, p: nat, e: nat, a: nat, b: nat)
    requires p <= e <= |s| && a <= b <= e - p && SpacesIn(s, p + a, p + b)
    ensures SpacesIn(s[p..e], a, b)
  {
    forall k | a <= k < b ensures IsSpace(s[p..e][k]) {
      assert s[p..e][k] == s[p + k];
    }
  }

  /** Digit runs n1, n2, n3 with a separator after each of the first two form a numeric date from p. */
  lemma NumericSlice(s: string, p: nat, n1: nat, n2: nat, n3: nat)
    requires 1 <= n1 <= 2 && 1 <= n2 <= 2 && 2 <= n3 <= 4
    requires p + n1 + 2 + n2 + n3 <= |s|
    requires DigitsIn(s, p, p + n1) && IsDateSeparator(s[p + n1])
    requires DigitsIn(s, p + n1 + 1, p + n1 + 1 + n2) && IsDateSeparator(s[p + n1 + 1 + n2])
    requires DigitsIn(s, p + n1 + 2 + n2, p + n1 + 2 + n2 + n3)
    ensures DateText(NumericDate, s[p..p + n1 + 2 + n2 + n3])
  {
    var e := p + n1 + 2 + n2 + n3;
    var t := s[p..e];
    var j := n1 + 1 + n2;
    DigitsShift(s, p, e, 0, n1);
    DigitsShift(s, p, e, n1 + 1, j);
    DigitsShift(s, p, e, j + 1, |t|);
    assert t[n1] == s[p + n1] && t[j] == s[p + j];
    assert NumericSplit(t, n1, j);
  }

  /** A digit run, whitespace, a month, whitespace and a year run form a textual date from p. */
  lemma TextualSlice(s: string, p: nat, n1: nat, w: nat, y: nat, n3: nat)
    requires 1 <= n1 <= 2 && p + n1 < w && w + 3 < y && 2 <= n3 <= 4 && y + n3 <= |s|
    requires DigitsIn(s, p, p + n1) && SpacesIn(s, p + n1, w) && MonthAt(s, w)
    requires SpacesIn(s, w + 3, y) && DigitsIn(s, y, y + n3)
    ensures DateText(TextualDate, s[p..y + n3])
  {
    var e := y + n3;
    var t := s[p..e];
    DigitsShift(s, p, e, 0, n1);
    SpacesShift(s, p, e, n1, w - p);
    SliceOfSlice(s, p, e, w - p, w - p + 3);
    SpacesShift(s, p, e, w - p + 3, y - p);
    DigitsShift(s, p, e, y - p, |t|);
    assert TextualSplit(t, n1, w - p, y - p);
  }

  /**
   * End of the match of `pat` at p.  Each `\d{1,2}` is followed by a
   * non-digit, so it takes as many digits (up to two) as there are; the final
   * `\d{2,4}` ends the pattern and takes up to four.
   */
  function DateMatchAt(pat: DatePattern, s: string, p: nat): (e: Option<nat>)
    requires p <= |s|
    ensures e.Some? ==> p < e.value <= |s| && DateText(pat, s[p..e.value])
  {
    match pat
    case NumericDate =>
      if NumericMatchAt(s, p).Some? then NumericShape(s, p); NumericMatchAt(s, p) else None
    case TextualDate =>
      if TextualMatchAt(s, p).Some? then TextualShape(s, p); TextualMatchAt(s, p) else None
  }

  /** `\d{1,2}[/-]\d{1,2}[/-]\d{2,4}` at p. */
  function NumericMatchAt(s: string, p: nat): (e: Option<nat>)
    requires p <= |s|
    ensures e.Some? ==> p < e.value <= |s|
  {
    var n1 := DigitCount(s, p, 2);
    var q := p + n1;
    if n1 > 0 && q < |s| && IsDateSeparator(s[q]) then
      var n2 := DigitCount(s, q + 1, 2);
      var r := q + 1 + n2;
      if n2 > 0 && r < |s| && IsDateSeparator(s[r]) then
        var n3 := DigitCount(s, r + 1, 4);
        if n3 >= 2 then Some(r + 1 + n3) else None
      else None
    else None
  }

  /** What the numeric pattern matches has its shape. */
  lemma NumericShape(s: string, p: nat)
    requires p <= |s| && NumericMatchAt(s, p).Some?
    ensures DateText(NumericDate, s[p..NumericMatchAt(s, p).value])
  {
    var n1 := DigitCount(s, p, 2);
    assert n1 > 0 && p + n1 < |s| && IsDateSeparator(s[p + n1]);
    var n2 := DigitCount(s, p + n1 + 1, 2);
    assert n2 > 0 && p + n1 + 1 + n2 < |s| && IsDateSeparator(s[p + n1 + 1 + n2]);
    var n3 := DigitCount(s, p + n1 + 1 + n2 + 1, 4);
    assert n3 >= 2 && NumericMatchAt(s, p).value == p + n1 + 2 + n2 + n3;
    NumericSlice(s, p, n1, n2, n3);
  }

  /** `\d{1,2}\s+(?:Jan|...|Dec)\s+\d{2,4}` at p. */
  function TextualMatchAt(s: string, p: nat): (e: Option<nat>)
    requires p <= |s|
    ensures e.Some? ==> p < e.value <= |s|
  {
    var n1 := DigitCount(s, p, 2);
    var q := p + n1;
    var w := SkipSpaces(s, q);
    if n1 > 0 && w > q && w + 3 <= |s| && MonthAt(s, w) then
      var y := SkipSpaces(s, w + 3);
      var n3 := DigitCount(s, y, 4);
      if y > w + 3 && n3 >= 2 then Some(y + n3) else None
    else None
  }

  /** What the textual pattern matches has its shape. */
  lemma TextualShape(s: string, p: nat)
    requires p <= |s| && TextualMatchAt(s, p).Some?
    ensures DateText(TextualDate, s[p..TextualMatchAt(s, p).value])
  {
    var n1 := DigitCount(s, p, 2);
    var w := SkipSpaces(s, p + n1);
    assert n1 > 0 && w > p + n1 && w + 3 <= |s|;
    assert MonthAt(s, w);
    var y := SkipSpaces(s, w + 3);
    var n3 := DigitCount(s, y, 4);
    assert y > w + 3 && n3 >= 2;
    assert TextualMatchAt(s, p).value == y + n3;
    TextualSlice(s, p, n1, w, y, n3);
  }

  /** The pattern's match at each start position (none past the end). */
  function DateMatchesOf(pat: DatePattern, s: string): nat -> Option<nat> {
    (q: nat) => if q <= |s| then DateMatchAt(pat, s, q) else None
  }

  /**
   * Leftmost match at or after p, as `re.search` tries start positions: the
   * first position at which the pattern matches, and none when it matches at
   * no position.
   */
  function DateSearchFrom(pat: DatePattern, s: string, p: nat): (m: Option<(nat, nat)>)
    requires p <= |s|
    ensures m.Some? ==> p <= m.value.0 < m.value.1 <= |s| && DateMatchAt(pat, s, m.value.0) == Some(m.value.1)
                        && forall q :: p <= q < m.value.0 ==> DateMatchAt(pat, s, q).None?
    ensures m.None? ==> forall q :: p <= q <= |s| ==> DateMatchAt(pat, s, q).None?
  {
    assert forall q: nat :: q <= |s| ==> DateMatchesOf(pat, s)(q) == DateMatchAt(pat, s, q);
    match Scans.LeftmostFrom(DateMatchesOf(pat, s), p, |s|)
    case Some(q) => Some((q, DateMatchAt(pat, s, q).value))
    case None => None
  }

  /** `re.search(pattern, line).group(1)`, when the pattern matches: text of the pattern's shape. */
  function DateSearch(pat: DatePattern, line: string): (r: Option<string>)
    ensures r.Some? ==> DateText(pat, r.value)
    ensures r.None? <==> forall q :: 0 <= q <= |line| ==> DateMatchAt(pat, line, q).None?
  {
    match DateSearchFrom(pat, line, 0)
    case Some((a, b)) => Some(line[a..b])
    case None => None
  }

  /** Group 1 of the first pattern of pats that matches the line. */
  function FirstDateMatch(line: string, pats: seq<DatePattern>): (r: Option<string>)
    ensures r.Some? ==> exists k :: 0 <= k < |pats| && DateText(pats[k], r.value)
    decreases |pats|
  {
    if |pats| == 0 then None
    else
      var here := DateSearch(pats[0], line);
      if here.Some? then here else FirstDateMatch(line, pats[1..])
  }

  /** The date text a line yields: the numeric pattern is tried before the textual one. */
  function LineDate(line: string): (r: Option<string>)
    ensures r.Some? ==> DateText(NumericDate, r.value) || DateText(TextualDate, r.value)
  {
    FirstDateMatch(line, DatePatterns)
  }

  lemma LineDateOrder(line: string)
    ensures LineDate(line) == if DateSearch(NumericDate, line).Some? then DateSearch(NumericDate, line)
                              else DateSearch(TextualDate, line)
  {
    assert DatePatterns[1..][1..] == [];
  }

  /** `payment_date` after the loop has visited lines: each matching line overwrites it. */
  function LastDate(lines: seq<string>): (r: Option<string>)
    ensures r.Some? ==> DateText(NumericDate, r.value) || DateText(TextualDate, r.value)
  {
    Scans.LastPresentSpec(lines, LineDate);
    Scans.LastPresent(lines, LineDate)
  }

  /**
   * The captured date comes from the LAST line on which either pattern
   * matches (the `break` leaves only the pattern loop), and is absent exactly
   * when no line matches.
   */
  lemma LastDateSpec(lines: seq<string>)
    ensures LastDate(lines).None? <==> forall i :: 0 <= i < |lines| ==> LineDate(lines[i]).None?
    ensures LastDate(lines).Some? ==>
              exists i :: 0 <= i < |lines| && LineDate(lines[i]) == LastDate(lines)
                && forall j :: i < j < |lines| ==> LineDate(lines[j]).None?
  {
    Scans.LastPresentSpec(lines, LineDate);
  }

  /**
   * The month names are matched with their case: an upper-case month is not
   * a textual date.
   */
  lemma UpperCaseMonthNotMatched()
    ensures DateSearch(TextualDate, "05 NOV 2024").None?
  {
    forall q | 0 <= q <= 11 ensures DateMatchAt(TextualDate, "05 NOV 2024", q).None? {
      if q <= 1 {
        DayBeforeUpperMonth(q);
      } else if 7 <= q <= 10 {
        YearHasNoMonth(q);
      } else {
        NoDigitAt(q);
      }
    }
  }

  /** From the day, the next word is "NOV", which is not an abbreviation. */
  lemma DayBeforeUpperMonth(q: nat)
    requires q <= 1
    ensures TextualMatchAt("05 NOV 2024", q).None?
  {
    var s := "05 NOV 2024";
    assert DigitCount(s, q, 2) == 2 - q;
    assert SkipSpaces(s, 2) == 3;
    assert s[3..6] == "NOV" && "NOV" !in MonthAbbreviations;
  }

  /** From a digit of the year, no whitespace follows the digits. */
  lemma YearHasNoMonth(q: nat)
    requires 7 <= q <= 10
    ensures TextualMatchAt("05 NOV 2024", q).None?
  {
    var s := "05 NOV 2024";
    var n := if q == 10 then 1 else 2;
    assert DigitCount(s, q, 2) == n;
    assert SkipSpaces(s, q + n) == q + n;
  }

  /** Elsewhere the text does not start with a digit. */
  lemma NoDigitAt(q: nat)
    requires 2 <= q <= 6 || q == 11
    ensures TextualMatchAt("05 NOV 2024", q).None?
  {
    var s := "05 NOV 2024";
    assert q == |s| || !IsDigit(s[q]);
  }
}
