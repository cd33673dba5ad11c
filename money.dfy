/**
 * Money-shaped tokens and the "highest amount" fallback of the receipt parser
 * (`extract_highest_amount`).  Amounts are integer cents: every token the parser
 * converts has the shape digits, `.` or `,`, two digits, so "123,45" and
 * "123.45" are both 12345 and no floating point is needed.
 */
module Money {
  import opened Wrappers
  import opened Text
  import Scans

  type Cents = nat

  /** digits, then `.` or `,`, then exactly two digits. */
  predicate IsMoneyShaped(tok: string) {
    |tok| >= 4 && AllDigits(tok[..|tok| - 3]) && (tok[|tok| - 3] == '.' || tok[|tok| - 3] == ',')
    && AllDigits(tok[|tok| - 2..])
  }

  /**
   * End of `\d+[.,]\d{2}` matched at t.  The `\d+` always takes the whole run
   * of digits: giving one back would leave a digit where `[.,]` is needed.
   */
  function MoneyEnd(s: string, t: nat): (e: Option<nat>)
    requires t <= |s|
    ensures e.Some? ==> t + 4 <= e.value <= |s| && IsMoneyShaped(s[t..e.value])
  {
    if t < |s| && IsDigit(s[t]) then
      var j := DigitRunEnd(s, t);
      if j + 2 < |s| && (s[j] == '.' || s[j] == ',') && IsDigit(s[j + 1]) && IsDigit(s[j + 2]) then
        MoneyShapedSlice(s, t, j);
        Some(j + 3)
      else None
    else None
  }

  /** A digit run from t to j, a separator at j and two digits after it form a money token. */
  lemma MoneyShapedSlice(s: string, t: nat, j: nat)
    requires t < j && j + 2 < |s|
    requires forall k :: t <= k < j ==> IsDigit(s[k])
    requires (s[j] == '.' || s[j] == ',') && IsDigit(s[j + 1]) && IsDigit(s[j + 2])
    ensures IsMoneyShaped(s[t..j + 3])
  {
    var tok := s[t..j + 3];
    assert |tok| == j - t + 3;
    assert tok[..|tok| - 3] == s[t..j];
    assert tok[|tok| - 3] == s[j];
    assert tok[|tok| - 2..] == [s[j + 1], s[j + 2]];
  }

  /** `\b\d+[.,]\d{2}\b` at p: a money token with a word boundary on both sides. */
  function MoneyTokenAt(s: string, p: nat): (e: Option<nat>)
    requires p <= |s|
    ensures e.Some? ==> p + 4 <= e.value <= |s| && IsMoneyShaped(s[p..e.value])
    ensures e.Some? ==> (p == 0 || !IsWordChar(s[p - 1])) && (e.value == |s| || !IsWordChar(s[e.value]))
  {
    if p == 0 || !IsWordChar(s[p - 1]) then
      match MoneyEnd(s, p)
      case Some(e) => if e == |s| || !IsWordChar(s[e]) then Some(e) else None
      case None => None
    else None
  }

  /** The money token starting at each position (none past the end). */
  function TokensOf(s: string): nat -> Option<nat> {
    (q: nat) => if q <= |s| then MoneyTokenAt(s, q) else None
  }

  /**
   * Leftmost money token at or after p, as `re.search` finds it: the first
   * start position that holds a token, and none when no position does.
   */
  function FindMoneyFrom(s: string, p: nat): (r: Option<(nat, nat)>)
    requires p <= |s|
    ensures r.Some? ==> p <= r.value.0 <= |s| && MoneyTokenAt(s, r.value.0) == Some(r.value.1)
                        && forall q :: p <= q < r.value.0 ==> MoneyTokenAt(s, q).None?
    ensures r.None? ==> forall q :: p <= q <= |s| ==> MoneyTokenAt(s, q).None?
  {
    assert forall q: nat :: q <= |s| ==> TokensOf(s)(q) == MoneyTokenAt(s, q);
    match Scans.LeftmostFrom(TokensOf(s), p, |s|)
    case Some(q) => Some((q, MoneyTokenAt(s, q).value))
    case None => None
  }

  /**
   * `re.search(r'(?i)\b\d+[.,]\d{2}\b', line).group()`: the money token
   * that starts leftmost in the line, and None exactly when no position of
   * the line starts one.
   */
  function FirstMoney(line: string): (r: Option<string>)
    ensures r.Some? ==> IsMoneyShaped(r.value)
    ensures r.None? <==> forall q :: 0 <= q <= |line| ==> MoneyTokenAt(line, q).None?
    ensures r.Some? ==> exists a :: 0 <= a <= |line| && MoneyTokenAt(line, a).Some?
                          && r.value == line[a..MoneyTokenAt(line, a).value]
                          && forall q :: 0 <= q < a ==> MoneyTokenAt(line, q).None?
  {
    match FindMoneyFrom(line, 0)
    case Some((a, b)) => Some(line[a..b])
    case None => None
  }

  /**
   * `float(s)` read as cents.  Only the `digits.dd` shape is accepted: it is the
   * only shape the parser ever converts (see CaptureNeverFails).
   */
  function FloatCents(s: string): Option<Cents> {
    if |s| >= 4 && s[|s| - 3] == '.' && AllDigits(s[..|s| - 3]) && AllDigits(s[|s| - 2..])
    then Some(DecimalValue(s[..|s| - 3]) * 100 + DecimalValue(s[|s| - 2..]))
    else None
  }

  /** `float(tok.replace(',', '.'))`: the conversion applied to every captured amount. */
  function CaptureCents(tok: string): Option<Cents> {
    FloatCents(ReplaceChar(tok, ',', '.'))
  }

  /**
   * The conversion of a money-shaped capture never raises: the `except
   * ValueError` branches around it are dead, and comma and period give the
   * same value.
   */
  lemma CaptureNeverFails(tok: string)
    requires IsMoneyShaped(tok)
    ensures CaptureCents(tok) == Some(DecimalValue(tok[..|tok| - 3]) * 100 + DecimalValue(tok[|tok| - 2..]))
  {
    var r := ReplaceChar(tok, ',', '.');
    assert r[..|r| - 3] == tok[..|tok| - 3];
    assert r[|r| - 2..] == tok[|tok| - 2..];
  }

  /** The value the first money token of a line contributes, if any. */
  function LineValue(line: string): Option<Cents> {
    match FirstMoney(line)
    case Some(tok) => CaptureCents(tok)
    case None => None
  }

  lemma LineValueIffToken(line: string)
    ensures LineValue(line).Some? <==> FirstMoney(line).Some?
  {
    if FirstMoney(line).Some? { CaptureNeverFails(FirstMoney(line).value); }
  }

  function Max2(a: Option<Cents>, b: Option<Cents>): Option<Cents> {
    match (a, b)
    case (None, _) => b
    case (_, None) => a
    case (Some(x), Some(y)) => if y > x then b else a
  }

  /** Python's `max(amounts) if amounts else None`. */
  function MaxOf(amounts: seq<Cents>): (r: Option<Cents>)
    ensures r.None? <==> |amounts| == 0
    ensures r.Some? ==> r.value in amounts && forall x :: x in amounts ==> x <= r.value
  {
    if |amounts| == 0 then None
    else
      var m := MaxOf(amounts[..|amounts| - 1]);
      assert amounts == amounts[..|amounts| - 1] + [amounts[|amounts| - 1]];
      Max2(m, Some(amounts[|amounts| - 1]))
  }

  /** The largest value f gives an element of xs, if it gives any. */
  function MaxOver<S>(xs: seq<S>, f: S -> Option<Cents>): Option<Cents>
    decreases |xs|
  {
    if |xs| == 0 then None else Max2(MaxOver(xs[..|xs| - 1], f), f(xs[|xs| - 1]))
  }

  lemma {:induction false} MaxOverSpec<S>(xs: seq<S>, f: S -> Option<Cents>)
    ensures MaxOver(xs, f).None? <==> forall i :: 0 <= i < |xs| ==> f(xs[i]).None?
    ensures MaxOver(xs, f).Some? ==> exists i :: 0 <= i < |xs| && f(xs[i]) == MaxOver(xs, f)
    ensures forall i :: 0 <= i < |xs| && f(xs[i]).Some? ==>
              MaxOver(xs, f).Some? && f(xs[i]).value <= MaxOver(xs, f).value
    decreases |xs|
  {
    if |xs| > 0 {
      var n := |xs| - 1;
      var init := xs[..n];
      MaxOverSpec(init, f);
      assert forall i :: 0 <= i < n ==> init[i] == xs[i];
      var m := MaxOver(init, f);
      var v := f(xs[n]);
      if m.Some? && (v.None? || v.value <= m.value) {
        var i :| 0 <= i < n && f(init[i]) == m;
        assert f(xs[i]) == MaxOver(xs, f);
      } else if v.Some? {
        assert f(xs[n]) == MaxOver(xs, f);
      }
    }
  }

  /**
   * The highest first-token value over all lines: the meaning of
   * `extract_highest_amount` for a non-empty pattern list.
   */
  function HighestAmount(lines: seq<string>): Option<Cents> {
    MaxOver(lines, LineValue)
  }

  /**
   * The highest amount is absent exactly when no line has a money token;
   * otherwise it is the value of some line's first token and no line's first
   * token is larger.
   */
  lemma HighestAmountIsMax(lines: seq<string>)
    ensures HighestAmount(lines).None? <==> forall i :: 0 <= i < |lines| ==> FirstMoney(lines[i]).None?
    ensures HighestAmount(lines).Some? ==>
              exists i :: 0 <= i < |lines| && LineValue(lines[i]) == HighestAmount(lines)
    ensures forall i :: 0 <= i < |lines| && LineValue(lines[i]).Some? ==>
              HighestAmount(lines).Some? && LineValue(lines[i]).value <= HighestAmount(lines).value
  {
    MaxOverSpec(lines, LineValue);
    forall i | 0 <= i < |lines| ensures FirstMoney(lines[i]).None? <==> LineValue(lines[i]).None? {
      LineValueIffToken(lines[i]);
    }
  }

  function LineValues(line: string): seq<Cents> {
    match LineValue(line)
    case Some(v) => [v]
    case None => []
  }

  function Repeat(xs: seq<Cents>, k: nat): seq<Cents> {
    if k == 0 then [] else Repeat(xs, k - 1) + xs
  }

  /** The `amounts` list after the loop has visited lines, `k` patterns per line. */
  function Collected(lines: seq<string>, k: nat): seq<Cents>
    decreases |lines|
  {
    if |lines| == 0 then [] else Collected(lines[..|lines| - 1], k) + Repeat(LineValues(lines[|lines| - 1]), k)
  }

  lemma {:induction false} MaxOfConcat(a: seq<Cents>, b: seq<Cents>)
    ensures MaxOf(a + b) == Max2(MaxOf(a), MaxOf(b))
    decreases |b|
  {
    if |b| > 0 {
      var b' := b[..|b| - 1];
      assert (a + b)[..|a + b| - 1] == a + b';
      MaxOfConcat(a, b');
    } else {
      assert a + b == a;
    }
  }

  lemma {:induction false} MaxOfRepeat(xs: seq<Cents>, k: nat)
    requires |xs| <= 1
    ensures MaxOf(Repeat(xs, k)) == if k == 0 || |xs| == 0 then None else Some(xs[0])
  {
    if k > 0 {
      MaxOfRepeat(xs, k - 1);
      MaxOfConcat(Repeat(xs, k - 1), xs);
      if |xs| == 1 {
        assert xs[..0] == [];
        assert MaxOf(xs) == Some(xs[0]);
      } else {
        assert xs == [];
      }
    }
  }

  /**
   * The maximum of the collected list is the highest amount whenever the
   * pattern list is non-empty; an empty pattern list collects nothing.
   */
  lemma {:induction false} CollectedMax(lines: seq<string>, k: nat)
    ensures MaxOf(Collected(lines, k)) == if k == 0 then None else HighestAmount(lines)
    decreases |lines|
  {
    if |lines| > 0 {
      var init := lines[..|lines| - 1];
      var last := lines[|lines| - 1];
      CollectedMax(init, k);
      MaxOfConcat(Collected(init, k), Repeat(LineValues(last), k));
      MaxOfRepeat(LineValues(last), k);
    }
  }

  /**
   * `extract_highest_amount(lines, patterns)`: for every line and every
   * pattern (whose text is never used) the first money token of the line is
   * converted and appended; the result is the largest collected value.
   */
  method ExtractHighestAmount<P>(lines: seq<string>, patterns: seq<P>) returns (r: Option<Cents>)
    ensures r == if |patterns| == 0 then None else HighestAmount(lines)
  {
    var amounts: seq<Cents> := [];
    for i := 0 to |lines|
      invariant amounts == Collected(lines[..i], |patterns|)
    {
      ghost var done := amounts;
      ghost var values := LineValues(lines[i]);
      for j := 0 to |patterns|
        invariant amounts == done + Repeat(values, j)
      {
        ghost var before := Repeat(values, j);
        amounts := AppendLineAmount(amounts, lines[i]);
        AppendAssoc(done, before, values);
      }
      assert lines[..i + 1][..i] == lines[..i];
      assert Collected(lines[..i + 1], |patterns|) == done + Repeat(values, |patterns|);
    }
    assert lines[..|lines|] == lines;
    r := MaxOf(amounts);
    CollectedMax(lines, |patterns|);
  }

  /**
   * One pass of the inner loop: the first money token of the line, when
   * there is one and it converts, is appended to the amounts.
   */
  method AppendLineAmount(amounts: seq<Cents>, line: string) returns (r: seq<Cents>)
    ensures r == amounts + LineValues(line)
  {
    r := amounts;
    var m := FirstMoney(line);
    if m.Some? {
      var v := CaptureCents(m.value);
      if v.Some? {
        r := r + [v.value];
      }
    }
  }

  lemma AppendAssoc(a: seq<Cents>, b: seq<Cents>, c: seq<Cents>)
    ensures a + b + c == a + (b + c)
  {
  }
}
