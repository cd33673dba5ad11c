/**
 * Keyword-anchored amount extraction (`extract_amount_from_lines`) and the
 * fixed total and subtotal pattern lists of the receipt parser.  Each pattern
 * is a hand-written leftmost-first matcher that returns the span of the
 * pattern's group 1, always a money-shaped token.
 */
module AmountPatterns {
  import opened Wrappers
  import opened Text
  import opened Money
  import Scans

  datatype Pattern =
      /** `(?i)KW\s*M\.?N\.?\s*\$?\s*[^\d]*?(\d+[.,]\d{2})` */
    | KeywordMN(keyword: string)
      /** `(?i)\$\s*(\d+[.,]\d{2})` */
    | Dollar
      /** `(?i)(\d+[.,]\d{2})\s*(?:$|pesos|MXN|m\.n\.|mn)` */
    | AmountUnit
      /** `(?i)KW\s*:\s*\$\s*(\d+[.,]\d{2})` */
    | KeywordColonDollar(keyword: string)
      /** `(?i)KW\s*\$\s*(\d+[.,]\d{2})` */
    | KeywordDollar(keyword: string)

  const TotalPatterns: seq<Pattern> :=
    [KeywordMN("TOTAL"), Dollar, AmountUnit, KeywordColonDollar("TOTAL"), KeywordDollar("TOTAL")]

  const SubtotalPatterns: seq<Pattern> :=
    [KeywordMN("SUBTOTAL"), Dollar, AmountUnit, KeywordColonDollar("SUBTOTAL"), KeywordDollar("SUBTOTAL")]

  /** Python's `$` without MULTILINE: the end of the text, or just before a final newline. */
  predicate EndAnchor(s: string, k: nat) {
    k == |s| || (k == |s| - 1 && s[k] == '\n')
  }

  /** `(?:$|pesos|MXN|m\.n\.|mn)` at u, case-insensitively. */
  predicate UnitAt(s: string, u: nat) {
    EndAnchor(s, u) || LiteralCIAt(s, u, "pesos") || LiteralCIAt(s, u, "mxn")
    || LiteralCIAt(s, u, "m.n.") || LiteralCIAt(s, u, "mn")
  }

  /** Group 1, `(\d+[.,]\d{2})`, starting at t. */
  function MoneyGroup(s: string, t: nat): (g: Option<(nat, nat)>)
    requires t <= |s|
    ensures g.Some? ==> g.value.0 == t && MoneyEnd(s, t) == Some(g.value.1)
  {
    match MoneyEnd(s, t)
    case Some(e) => Some((t, e))
    case None => None
  }

  /**
   * The span of group 1 when `pat` matches at position p.  Every `\s*` in
   * these patterns is followed by a non-space, so it takes the whole run of
   * whitespace; in KeywordMN the lazy `[^\d]*?` (and everything between `N`
   * and the amount) can only cover non-digits, so group 1 starts at the first
   * digit after `N`.
   */
  function MatchAt(pat: Pattern, s: string, p: nat): (g: Option<(nat, nat)>)
    requires p <= |s|
    ensures g.Some? ==> p <= g.value.0 <= |s| && MoneyEnd(s, g.value.0) == Some(g.value.1)
  {
    match pat
    case KeywordMN(kw) =>
      if LiteralCIAt(s, p, kw) then
        var m := SkipSpaces(s, p + |kw|);
        if m < |s| && LowerChar(s[m]) == 'm' then
          var n := if m + 1 < |s| && s[m + 1] == '.' then m + 2 else m + 1;
          if n < |s| && LowerChar(s[n]) == 'n' then MoneyGroup(s, NextDigit(s, n + 1)) else None
        else None
      else None
    case Dollar =>
      if p < |s| && s[p] == '$' then MoneyGroup(s, SkipSpaces(s, p + 1)) else None
    case AmountUnit =>
      var e := MoneyEnd(s, p);
      if e.Some? && UnitAt(s, SkipSpaces(s, e.value)) then Some((p, e.value)) else None
    case KeywordColonDollar(kw) =>
      if LiteralCIAt(s, p, kw) then
        var c := SkipSpaces(s, p + |kw|);
        if c < |s| && s[c] == ':' then
          var d := SkipSpaces(s, c + 1);
          if d < |s| && s[d] == '$' then MoneyGroup(s, SkipSpaces(s, d + 1)) else None
        else None
      else None
    case KeywordDollar(kw) =>
      if LiteralCIAt(s, p, kw) then
        var d := SkipSpaces(s, p + |kw|);
        if d < |s| && s[d] == '$' then MoneyGroup(s, SkipSpaces(s, d + 1)) else None
      else None
  }

  /** The pattern's match at each start position (none past the end). */
  function MatchesOf(pat: Pattern, s: string): nat -> Option<(nat, nat)> {
    (q: nat) => if q <= |s| then MatchAt(pat, s, q) else None
  }

  /** Leftmost match at or after p, as `re.search` tries start positions. */
  function SearchFrom(pat: Pattern, s: string, p: nat): (g: Option<(nat, nat)>)
    requires p <= |s|
    ensures g.Some? ==> p <= g.value.0 <= |s| && MoneyEnd(s, g.value.0) == Some(g.value.1)
  {
    match Scans.LeftmostFrom(MatchesOf(pat, s), p, |s|)
    case Some(q) => MatchAt(pat, s, q)
    case None => None
  }

  /** `re.search(pat, line).group(1)`, when the pattern matches. */
  function Search(pat: Pattern, line: string): (c: Option<string>)
    ensures c.Some? ==> IsMoneyShaped(c.value)
  {
    match SearchFrom(pat, line, 0)
    case Some((a, b)) => Some(line[a..b])
    case None => None
  }

  /**
   * The search's result is the match at the leftmost start position from p
   * at which the pattern matches: group 1 of the match `re.search` returns.
   */
  lemma SearchFromLeftmost(pat: Pattern, s: string, p: nat) returns (q: nat)
    requires p <= |s| && SearchFrom(pat, s, p).Some?
    ensures p <= q <= |s| && MatchAt(pat, s, q) == SearchFrom(pat, s, p)
    ensures forall q' :: p <= q' < q ==> MatchAt(pat, s, q').None?
  {
    q := Scans.LeftmostFrom(MatchesOf(pat, s), p, |s|).value;
    forall q' | p <= q' < q
      ensures MatchAt(pat, s, q').None?
    {
      assert MatchesOf(pat, s)(q').None?;
    }
  }

  /** A search that finds nothing means the pattern matches at no start position from p. */
  lemma SearchFromNone(pat: Pattern, s: string, p: nat)
    requires p <= |s| && SearchFrom(pat, s, p).None?
    ensures forall q :: p <= q <= |s| ==> MatchAt(pat, s, q).None?
  {
    forall q | p <= q <= |s|
      ensures MatchAt(pat, s, q).None?
    {
      assert MatchesOf(pat, s)(q).None?;
    }
  }

  /** A match at d is found by a search that starts at or before d. */
  lemma SearchReaches(pat: Pattern, s: string, p: nat, d: nat)
    requires p <= d <= |s| && MatchAt(pat, s, d).Some?
    ensures SearchFrom(pat, s, p).Some?
  {
    assert MatchesOf(pat, s)(d).Some?;
  }

  /** `re.search(pat, line)`'s group 1, as a function of the pattern. */
  function SearchIn(line: string): Pattern -> Option<string> {
    pat => Search(pat, line)
  }

  /** The first pattern, from index i on, that matches the line, with its group 1. */
  function FirstCaptureFrom(line: string, pats: seq<Pattern>, i: nat): (r: Option<(nat, string)>)
    requires i <= |pats|
    ensures r.Some? ==> i <= r.value.0 < |pats| && Search(pats[r.value.0], line) == Some(r.value.1)
                        && forall j :: i <= j < r.value.0 ==> Search(pats[j], line).None?
    ensures r.None? ==> forall j :: i <= j < |pats| ==> Search(pats[j], line).None?
  {
    var r := Scans.FirstIndexFrom(pats, SearchIn(line), i);
    assert forall j :: 0 <= j < |pats| ==> SearchIn(line)(pats[j]) == Search(pats[j], line);
    r
  }

  function FirstCapture(line: string, pats: seq<Pattern>): Option<(nat, string)> {
    FirstCaptureFrom(line, pats, 0)
  }

  /** The pattern loop's early return: the first pattern that matches decides the capture. */
  lemma FirstCaptureIs(line: string, pats: seq<Pattern>, j: nat)
    requires j < |pats| && Search(pats[j], line).Some?
    requires Scans.NoneBefore(pats, SearchIn(line), j)
    ensures FirstCapture(line, pats) == Some((j, Search(pats[j], line).value))
  {
    Scans.NoneBeforeAll(pats, SearchIn(line), j);
    Scans.FirstIndexIs(pats, SearchIn(line), j);
  }

  /** The pattern loop's exit: no pattern matched, so there is no capture. */
  lemma FirstCaptureNone(line: string, pats: seq<Pattern>)
    requires Scans.NoneBefore(pats, SearchIn(line), |pats|)
    ensures FirstCapture(line, pats).None?
  {
    Scans.NoneBeforeAll(pats, SearchIn(line), |pats|);
  }

  /** A line the loop accepts: it contains the word and some pattern matches it. */
  predicate Qualifies(line: string, word: string, pats: seq<Pattern>) {
    ContainsCI(line, word) && FirstCapture(line, pats).Some?
  }

  /** What one line gives `extract_amount_from_lines`: its capture, when it qualifies. */
  function LineAmount(line: string, word: string, pats: seq<Pattern>): (r: Option<string>)
    ensures r.Some? ==> IsMoneyShaped(r.value)
  {
    if Qualifies(line, word, pats) then Some(FirstCapture(line, pats).value.1) else None
  }

  function LineAmountWith(word: string, pats: seq<Pattern>): string -> Option<string> {
    line => LineAmount(line, word, pats)
  }

  /**
   * The meaning of `extract_amount_from_lines`: the first line that gives an
   * amount; what it gives is a money token.
   */
  function AnchoredAmount(lines: seq<string>, word: string, pats: seq<Pattern>): (r: Option<string>)
    ensures r.Some? ==> IsMoneyShaped(r.value)
  {
    Scans.FirstPresentSpec(lines, LineAmountWith(word, pats));
    Scans.FirstPresent(lines, LineAmountWith(word, pats))
  }

  /**
   * The anchored amount is group 1 of the first matching pattern, in list
   * order, on the earliest line that contains the word and is matched by some
   * pattern; a keyword line no pattern matches is skipped.  It is absent
   * exactly when no line qualifies.
   */
  lemma AnchoredAmountSpec(lines: seq<string>, word: string, pats: seq<Pattern>)
    ensures AnchoredAmount(lines, word, pats).None? <==> forall i :: 0 <= i < |lines| ==> !Qualifies(lines[i], word, pats)
    ensures AnchoredAmount(lines, word, pats).Some? ==>
              exists i :: 0 <= i < |lines| && Qualifies(lines[i], word, pats)
                && AnchoredAmount(lines, word, pats) == Some(FirstCapture(lines[i], pats).value.1)
                && forall j :: 0 <= j < i ==> !Qualifies(lines[j], word, pats)
  {
    var amountOf := LineAmountWith(word, pats);
    Scans.FirstPresentSpec(lines, amountOf);
    assert forall i :: 0 <= i < |lines| ==> (amountOf(lines[i]).None? <==> !Qualifies(lines[i], word, pats));
    if AnchoredAmount(lines, word, pats).Some? {
      var i := AnchoredLine(lines, word, pats);
    }
  }

  /** The line the anchored amount comes from: it qualifies, and no line before it does. */
  lemma AnchoredLine(lines: seq<string>, word: string, pats: seq<Pattern>) returns (i: nat)
    requires AnchoredAmount(lines, word, pats).Some?
    ensures i < |lines| && Qualifies(lines[i], word, pats)
    ensures AnchoredAmount(lines, word, pats) == Some(FirstCapture(lines[i], pats).value.1)
    ensures forall j :: 0 <= j < i ==> !Qualifies(lines[j], word, pats)
  {
    var amountOf := LineAmountWith(word, pats);
    Scans.FirstPresentSpec(lines, amountOf);
    i :| 0 <= i < |lines| && amountOf(lines[i]) == AnchoredAmount(lines, word, pats)
         && forall j :: 0 <= j < i ==> amountOf(lines[j]).None?;
    forall j | 0 <= j < i
      ensures !Qualifies(lines[j], word, pats)
    {
      assert amountOf(lines[j]).None?;
    }
  }

  /**
   * `extract_amount_from_lines(lines, word, patterns)`: the first line that
   * contains `word` (case-insensitively) and is matched by some pattern gives
   * group 1 of its first matching pattern.  The source tests the line with the
   * regular expression `(?i)` + `word`; the word is matched here as literal
   * text, which is the same for the only words it is called with, `total` and
   * `subtotal`, since they hold no regular-expression metacharacters.
   */
  method ExtractAmountFromLines(lines: seq<string>, word: string, patterns: seq<Pattern>) returns (r: Option<string>)
    ensures r == AnchoredAmount(lines, word, patterns)
    ensures r.Some? ==> IsMoneyShaped(r.value)
  {
    ghost var amountOf := LineAmountWith(word, patterns);
    for i := 0 to |lines|
      invariant AnchoredAmount(lines, word, patterns) == Scans.FirstPresent(lines[i..], amountOf)
    {
      ghost var rest := lines[i..];
      assert rest[0] == lines[i] && rest[1..] == lines[i + 1..];
      if ContainsCI(lines[i], word) {
        for j := 0 to |patterns|
          invariant Scans.NoneBefore(patterns, SearchIn(lines[i]), j)
        {
          var m := Search(patterns[j], lines[i]);
          if m.Some? {
            FirstCaptureIs(lines[i], patterns, j);
            assert Qualifies(rest[0], word, patterns);
            assert amountOf(rest[0]) == m;
            return m;
          }
        }
        FirstCaptureNone(lines[i], patterns);
      }
      assert !Qualifies(rest[0], word, patterns);
      assert amountOf(rest[0]).None?;
    }
    return None;
  }

  /**
   * Patterns 4 and 5 of either list never decide the result: any line they
   * match is already matched by pattern 2, `\$\s*(\d+[.,]\d{2})`, which is
   * tried first.
   */
  lemma DollarShadowsKeywordDollar(line: string, pat: Pattern)
    requires pat.KeywordColonDollar? || pat.KeywordDollar?
    requires Search(pat, line).Some?
    ensures Search(Dollar, line).Some?
  {
    assert SearchFrom(pat, line, 0).Some?;
    var p := LeftmostStart(pat, line, 0);
    var d := DollarInside(pat, line, p);
    SearchReaches(Dollar, line, 0, d);
  }

  /** Where the `\$` of a keyword-dollar match sits; pattern 2 matches there. */
  function DollarInside(pat: Pattern, s: string, p: nat): (d: nat)
    requires pat.KeywordColonDollar? || pat.KeywordDollar?
    requires p <= |s| && MatchAt(pat, s, p).Some?
    ensures d <= |s| && MatchAt(Dollar, s, d).Some?
  {
    if pat.KeywordColonDollar? then SkipSpaces(s, SkipSpaces(s, p + |pat.keyword|) + 1)
    else SkipSpaces(s, p + |pat.keyword|)
  }

  /** The start position of the leftmost match, when there is one. */
  function LeftmostStart(pat: Pattern, s: string, p: nat): (q: nat)
    requires p <= |s| && SearchFrom(pat, s, p).Some?
    ensures p <= q <= |s| && MatchAt(pat, s, q).Some?
  {
    var r := Scans.LeftmostFrom(MatchesOf(pat, s), p, |s|);
    assert MatchesOf(pat, s)(r.value) == MatchAt(pat, s, r.value);
    r.value
  }

  lemma TotalPatternsFourFiveNeverDecide(line: string)
    ensures FirstCapture(line, TotalPatterns).Some? ==> FirstCapture(line, TotalPatterns).value.0 <= 2
  {
    KeywordDollarShadowed(line, TotalPatterns, "TOTAL");
  }

  lemma SubtotalPatternsFourFiveNeverDecide(line: string)
    ensures FirstCapture(line, SubtotalPatterns).Some? ==> FirstCapture(line, SubtotalPatterns).value.0 <= 2
  {
    KeywordDollarShadowed(line, SubtotalPatterns, "SUBTOTAL");
  }

  /** In a list whose second pattern is `Dollar`, its fourth and fifth, keyword-dollar ones are never the first to match. */
  lemma KeywordDollarShadowed(line: string, pats: seq<Pattern>, kw: string)
    requires |pats| == 5 && pats[1] == Dollar && pats[3] == KeywordColonDollar(kw) && pats[4] == KeywordDollar(kw)
    ensures FirstCapture(line, pats).Some? ==> FirstCapture(line, pats).value.0 <= 2
  {
    var r := FirstCapture(line, pats);
    if r.Some? && r.value.0 > 2 {
      var k := r.value.0;
      assert k == 3 || k == 4;
      var pat := pats[k];
      assert pat.KeywordColonDollar? || pat.KeywordDollar?;
      assert Search(pat, line).Some?;
      assert Search(pats[1], line).None?;
      DollarShadowsKeywordDollar(line, pat);
    }
  }
}
