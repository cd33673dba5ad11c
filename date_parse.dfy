/**
 * `datetime.strptime` for the four formats `parse_date` tries, and
 * `parse_date` itself on a string argument.
 *
 * `_strptime` turns a format into a regular expression (`%Y` is `\d\d\d\d`,
 * `%m` is `1[0-2]|0[1-9]|[1-9]`, `%d` is `3[01]|[12]\d|0[1-9]|[1-9]| [1-9]`,
 * other characters are literals matched case-insensitively), matches it at
 * the start of the text, rejects any unconverted text after the match and
 * then builds a `date`, which must exist in the proleptic Gregorian calendar
 * with a year from 1 to 9999.  In these formats every field is followed by a
 * literal separator or by the end, so backtracking into an alternation never
 * finds a second match: taking the first alternative that matches at each
 * field, as below, is the regular expression's own match.
 */
module DateParse {
  import opened Wrappers
  import opened Text

  datatype Date = Date(year: int, month: int, day: int)

  /** One element of a strptime format. */
  datatype Directive = Year | Month | Day | Lit(c: char)

  /** `%Y-%m-%d` */
  const IsoFormat: seq<Directive> := [Year, Lit('-'), Month, Lit('-'), Day]
  /** `%d/%m/%Y` */
  const DayMonthSlash: seq<Directive> := [Day, Lit('/'), Month, Lit('/'), Year]
  /** `%m/%d/%Y` */
  const MonthDaySlash: seq<Directive> := [Month, Lit('/'), Day, Lit('/'), Year]
  /** `%d-%m-%Y` */
  const DayMonthDash: seq<Directive> := [Day, Lit('-'), Month, Lit('-'), Year]

  /** The formats `parse_date` tries, in order. */
  const ParseDateFormats: seq<seq<Directive>> := [IsoFormat, DayMonthSlash, MonthDaySlash, DayMonthDash]

  predicate IsLeapYear(y: int) {
    y % 4 == 0 && (y % 100 != 0 || y % 400 == 0)
  }

  function DaysInMonth(y: int, m: int): int
    requires 1 <= m <= 12
  {
    if m == 2 then (if IsLeapYear(y) then 29 else 28)
    else if m == 4 || m == 6 || m == 9 || m == 11 then 30
    else 31
  }

  /** A date `datetime.date` accepts. */
  predicate ValidDate(d: Date) {
    1 <= d.year <= 9999 && 1 <= d.month <= 12 && 1 <= d.day <= DaysInMonth(d.year, d.month)
  }

  predicate IsNonZeroDigit(c: char) { '1' <= c <= '9' }

  /** `%d`: the first of `3[01]`, `[12]\d`, `0[1-9]`, `[1-9]`, ` [1-9]` that matches at i. */
  function DayField(s: string, i: nat): (r: Option<(int, nat)>)
    requires i <= |s|
    ensures r.Some? ==> i < r.value.1 <= |s| && 1 <= r.value.0 <= 31
  {
    if i + 1 < |s| && s[i] == '3' && (s[i + 1] == '0' || s[i + 1] == '1') then Some((30 + DigitValue(s[i + 1]), i + 2))
    else if i + 1 < |s| && (s[i] == '1' || s[i] == '2') && IsDigit(s[i + 1]) then
      Some((10 * DigitValue(s[i]) + DigitValue(s[i + 1]), i + 2))
    else if i + 1 < |s| && s[i] == '0' && IsNonZeroDigit(s[i + 1]) then Some((DigitValue(s[i + 1]), i + 2))
    else if i < |s| && IsNonZeroDigit(s[i]) then Some((DigitValue(s[i]), i + 1))
    else if i + 1 < |s| && s[i] == ' ' && IsNonZeroDigit(s[i + 1]) then Some((DigitValue(s[i + 1]), i + 2))
    else None
  }

  /** `%m`: the first of `1[0-2]`, `0[1-9]`, `[1-9]` that matches at i. */
  function MonthField(s: string, i: nat): (r: Option<(int, nat)>)
    requires i <= |s|
    ensures r.Some? ==> i < r.value.1 <= |s| && 1 <= r.value.0 <= 12
  {
    if i + 1 < |s| && s[i] == '1' && '0' <= s[i + 1] <= '2' then Some((10 + DigitValue(s[i + 1]), i + 2))
    else if i + 1 < |s| && s[i] == '0' && IsNonZeroDigit(s[i + 1]) then Some((DigitValue(s[i + 1]), i + 2))
    else if i < |s| && IsNonZeroDigit(s[i]) then Some((DigitValue(s[i]), i + 1))
    else None
  }

  /** `%Y`: exactly four digits. */
  function YearField(s: string, i: nat): (r: Option<(int, nat)>)
    requires i <= |s|
    ensures r.Some? ==> r.value.1 == i + 4 <= |s| && 0 <= r.value.0 <= 9999
  {
    if i + 4 <= |s| && IsDigit(s[i]) && IsDigit(s[i + 1]) && IsDigit(s[i + 2]) && IsDigit(s[i + 3]) then
      Some((1000 * DigitValue(s[i]) + 100 * DigitValue(s[i + 1]) + 10 * DigitValue(s[i + 2]) + DigitValue(s[i + 3]), i + 4))
    else None
  }

  /** The value and end position of one directive matched at i (a literal's value is unused). */
  function ParseDirective(s: string, i: nat, item: Directive): (r: Option<(int, nat)>)
    requires i <= |s|
    ensures r.Some? ==> i < r.value.1 <= |s|
  {
    match item
    case Year => YearField(s, i)
    case Month => MonthField(s, i)
    case Day => DayField(s, i)
    case Lit(c) => if i < |s| && LowerChar(s[i]) == LowerChar(c) then Some((0, i + 1)) else None
  }

  /** Matches the directives of fmt from position i on, recording each field's value in d. */
  function ParseItems(s: string, i: nat, fmt: seq<Directive>, d: Date): Option<(Date, nat)>
    requires i <= |s|
    decreases |fmt|
  {
    if |fmt| == 0 then Some((d, i))
    else
      match ParseDirective(s, i, fmt[0])
      case None => None
      case Some((v, j)) =>
        var d' := match fmt[0]
          case Year => d.(year := v)
          case Month => d.(month := v)
          case Day => d.(day := v)
          case Lit(_) => d;
        ParseItems(s, j, fmt[1..], d')
  }

  /**
   * `datetime.strptime(s, fmt).date()`, or None where it raises ValueError:
   * the format does not match, text is left over, or the date does not exist.
   * Fields the format lacks default to 1900-01-01.
   */
  function Strptime(s: string, fmt: seq<Directive>): (r: Option<Date>)
    ensures r.Some? ==> ValidDate(r.value)
  {
    match ParseItems(s, 0, fmt, Date(1900, 1, 1))
    case Some((d, e)) => if e == |s| && ValidDate(d) then Some(d) else None
    case None => None
  }

  /** The first format, in order, under which s parses. */
  function FirstParse(s: string, formats: seq<seq<Directive>>): (r: Option<Date>)
    ensures r.Some? ==> ValidDate(r.value)
    decreases |formats|
  {
    if |formats| == 0 then None
    else
      var here := Strptime(s, formats[0]);
      if here.Some? then here else FirstParse(s, formats[1..])
  }

  /**
   * `parse_date` on a string is the parse under the first of the four formats
   * that succeeds, and absent when none does.
   */
  lemma {:induction false} FirstParseSpec(s: string, formats: seq<seq<Directive>>)
    ensures FirstParse(s, formats).None? <==> forall k :: 0 <= k < |formats| ==> Strptime(s, formats[k]).None?
    ensures FirstParse(s, formats).Some? ==>
              exists k :: 0 <= k < |formats| && Strptime(s, formats[k]) == FirstParse(s, formats)
                && forall j :: 0 <= j < k ==> Strptime(s, formats[j]).None?
    decreases |formats|
  {
    if |formats| > 0 && Strptime(s, formats[0]).None? {
      var rest := formats[1..];
      FirstParseSpec(s, rest);
      assert forall k :: 1 <= k < |formats| ==> formats[k] == rest[k - 1];
      if FirstParse(s, rest).Some? {
        var k :| 0 <= k < |rest| && Strptime(s, rest[k]) == FirstParse(s, rest)
                 && forall j :: 0 <= j < k ==> Strptime(s, rest[j]).None?;
        assert Strptime(s, formats[k + 1]) == FirstParse(s, formats);
      }
    }
  }

  /**
   * `parse_date(date_input)` for a string: tries the four formats in order
   * and returns the first successful parse, or None.
   */
  method ParseDate(dateInput: string) returns (r: Option<Date>)
    ensures r == FirstParse(dateInput, ParseDateFormats)
    ensures r.Some? ==> ValidDate(r.value)
  {
    var formats := ParseDateFormats;
    for k := 0 to |formats|
      invariant FirstParse(dateInput, formats) == FirstParse(dateInput, formats[k..])
    {
      var d := Strptime(dateInput, formats[k]);
      if d.Some? {
        return d;
      }
      assert formats[k..][1..] == formats[k + 1..];
    }
    return None;
  }

  /** Zero-padded two-digit text of n. */
  function Pad2(n: nat): (r: string)
    requires n < 100
  {
    [DigitChar(n / 10), DigitChar(n % 10)]
  }

  /** Zero-padded four-digit text of n. */
  function Pad4(n: nat): (r: string)
    requires n < 10000
  {
    [DigitChar(n / 1000), DigitChar(n / 100 % 10), DigitChar(n / 10 % 10), DigitChar(n % 10)]
  }

  /** A valid date written year-month-day, zero-padded. */
  function IsoText(d: Date): string
    requires ValidDate(d)
  {
    Pad4(d.year) + "-" + Pad2(d.month) + "-" + Pad2(d.day)
  }

  /** A valid date written day, month, year with the given separator, zero-padded. */
  function DayFirstText(d: Date, sep: char): string
    requires ValidDate(d)
  {
    Pad2(d.day) + [sep] + Pad2(d.month) + [sep] + Pad4(d.year)
  }

  lemma DayFieldPad2(s: string, i: nat, n: nat)
    requires 1 <= n <= 31 && i + 2 <= |s| && s[i..i + 2] == Pad2(n)
    ensures DayField(s, i) == Some((n, i + 2))
  {
    assert s[i] == Pad2(n)[0] && s[i + 1] == Pad2(n)[1];
  }

  lemma MonthFieldPad2(s: string, i: nat, n: nat)
    requires 1 <= n <= 12 && i + 2 <= |s| && s[i..i + 2] == Pad2(n)
    ensures MonthField(s, i) == Some((n, i + 2))
  {
    assert s[i] == Pad2(n)[0] && s[i + 1] == Pad2(n)[1];
  }

  lemma YearFieldPad4(s: string, i: nat, n: nat)
    requires n <= 9999 && i + 4 <= |s| && s[i..i + 4] == Pad4(n)
    ensures YearField(s, i) == Some((n, i + 4))
  {
    assert s[i] == Pad4(n)[0] && s[i + 1] == Pad4(n)[1] && s[i + 2] == Pad4(n)[2] && s[i + 3] == Pad4(n)[3];
    FourDigits(n);
  }

  /** The four digits Pad4 writes denote n again. */
  lemma FourDigits(n: nat)
    requires n <= 9999
    ensures 1000 * (n / 1000) + 100 * (n / 100 % 10) + 10 * (n / 10 % 10) + n % 10 == n
  {
    var a, b, c, e := n / 1000, n / 100 % 10, n / 10 % 10, n % 10;
    assert n == 10 * (n / 10) + e;
    assert n / 10 == 10 * (n / 100) + c;
    assert n / 100 == 10 * a + b;
  }

  /** Every real date written year-month-day parses back to itself. */
  lemma IsoRoundTrip(d: Date)
    requires ValidDate(d)
    ensures Strptime(IsoText(d), IsoFormat) == Some(d)
  {
    var s := IsoText(d);
    assert |s| == 10;
    YearFieldPad4(s, 0, d.year);
    MonthFieldPad2(s, 5, d.month);
    DayFieldPad2(s, 8, d.day);
    assert ParseItems(s, 10, [], d) == Some((d, 10));
    assert ParseItems(s, 8, [Day], d.(day := 1)) == Some((d, 10));
    assert ParseItems(s, 5, [Month, Lit('-'), Day], Date(d.year, 1, 1)) == Some((d, 10));
    assert ParseItems(s, 0, IsoFormat, Date(1900, 1, 1)) == Some((d, 10));
  }

  /** Every real date written day/month/year parses back under `%d/%m/%Y`. */
  lemma DayMonthRoundTrip(d: Date, sep: char)
    requires ValidDate(d)
    ensures Strptime(DayFirstText(d, sep), [Day, Lit(sep), Month, Lit(sep), Year]) == Some(d)
  {
    var s := DayFirstText(d, sep);
    assert |s| == 10;
    DayFieldPad2(s, 0, d.day);
    MonthFieldPad2(s, 3, d.month);
    YearFieldPad4(s, 6, d.year);
    assert ParseItems(s, 10, [], d) == Some((d, 10));
    assert ParseItems(s, 6, [Year], d.(year := 1900)) == Some((d, 10));
    assert ParseItems(s, 3, [Month, Lit(sep), Year], Date(1900, 1, d.day)) == Some((d, 10));
    assert ParseItems(s, 0, [Day, Lit(sep), Month, Lit(sep), Year], Date(1900, 1, 1)) == Some((d, 10));
  }

  /** Text with a non-digit at index 2 never parses under a format that starts with `%Y`. */
  lemma NoYearFirst(s: string, fmt: seq<Directive>)
    requires |s| > 2 && !IsDigit(s[2]) && |fmt| > 0 && fmt[0] == Year
    ensures Strptime(s, fmt).None?
  {
  }

  /**
   * Ambiguous numeric dates resolve day-first: for every real date, its
   * day/month/year text is parsed as that date, never month-first.
   */
  lemma ParseDateDayFirst(d: Date)
    requires ValidDate(d)
    ensures FirstParse(DayFirstText(d, '/'), ParseDateFormats) == Some(d)
  {
    var s := DayFirstText(d, '/');
    NoYearFirst(s, IsoFormat);
    DayMonthRoundTrip(d, '/');
  }

  /** Two digits and a dash never parse under the two slash formats. */
  lemma NoSlashFormat(s: string)
    requires |s| > 2 && IsDigit(s[0]) && IsDigit(s[1]) && s[2] == '-'
    ensures Strptime(s, DayMonthSlash).None? && Strptime(s, MonthDaySlash).None?
  {
    var day := DayField(s, 0);
    assert day.Some? ==> day.value.1 == 1 || day.value.1 == 2;
    var month := MonthField(s, 0);
    assert month.Some? ==> month.value.1 == 1 || month.value.1 == 2;
  }

  /** Every real date written day-month-year with dashes is parsed by the fourth format. */
  lemma ParseDateDayFirstDash(d: Date)
    requires ValidDate(d)
    ensures FirstParse(DayFirstText(d, '-'), ParseDateFormats) == Some(d)
  {
    var s := DayFirstText(d, '-');
    NoYearFirst(s, IsoFormat);
    assert s[0] == Pad2(d.day)[0] && s[1] == Pad2(d.day)[1];
    NoSlashFormat(s);
    DayMonthRoundTrip(d, '-');
    var formats := ParseDateFormats;
    assert formats[1..][0] == DayMonthSlash && formats[2..][0] == MonthDaySlash && formats[3..][0] == DayMonthDash;
    assert formats[1..][1..] == formats[2..] && formats[2..][1..] == formats[3..];
    assert FirstParse(s, formats[3..]) == Some(d);
    assert FirstParse(s, formats[2..]) == Some(d);
    assert FirstParse(s, formats[1..]) == Some(d);
  }

  /** `parse_date`'s chain of four attempts, written out. */
  lemma FirstParseUnfold(s: string)
    ensures FirstParse(s, ParseDateFormats) ==
      if Strptime(s, IsoFormat).Some? then Strptime(s, IsoFormat)
      else if Strptime(s, DayMonthSlash).Some? then Strptime(s, DayMonthSlash)
      else if Strptime(s, MonthDaySlash).Some? then Strptime(s, MonthDaySlash)
      else Strptime(s, DayMonthDash)
  {
    var formats := ParseDateFormats;
    assert formats[1..][0] == DayMonthSlash && formats[2..][0] == MonthDaySlash && formats[3..][0] == DayMonthDash;
    assert formats[1..][1..] == formats[2..] && formats[2..][1..] == formats[3..] && formats[3..][1..] == [];
    assert FirstParse(s, formats[3..]) == Strptime(s, DayMonthDash);
    assert FirstParse(s, formats[2..]) ==
      if Strptime(s, MonthDaySlash).Some? then Strptime(s, MonthDaySlash) else FirstParse(s, formats[3..]);
    assert FirstParse(s, formats[1..]) ==
      if Strptime(s, DayMonthSlash).Some? then Strptime(s, DayMonthSlash) else FirstParse(s, formats[2..]);
  }

  /** A valid date written month/day/year, zero-padded. */
  function MonthFirstText(d: Date): string
    requires ValidDate(d)
  {
    Pad2(d.month) + "/" + Pad2(d.day) + "/" + Pad4(d.year)
  }

  /** Every real date written month/day/year parses back under `%m/%d/%Y`. */
  lemma MonthDayRoundTrip(d: Date)
    requires ValidDate(d)
    ensures Strptime(MonthFirstText(d), MonthDaySlash) == Some(d)
  {
    var s := MonthFirstText(d);
    assert |s| == 10;
    MonthFieldPad2(s, 0, d.month);
    DayFieldPad2(s, 3, d.day);
    YearFieldPad4(s, 6, d.year);
    assert ParseItems(s, 10, [], d) == Some((d, 10));
    assert ParseItems(s, 6, [Year], d.(year := 1900)) == Some((d, 10));
    assert ParseItems(s, 3, [Day, Lit('/'), Year], Date(1900, d.month, 1)) == Some((d, 10));
    assert ParseItems(s, 0, MonthDaySlash, Date(1900, 1, 1)) == Some((d, 10));
  }

  /**
   * A slashed date whose second number cannot be a month is read month-first:
   * for every real date with a day over twelve, its month/day/year text is
   * parsed as that date.
   */
  lemma ParseDateMonthFirst(d: Date)
    requires ValidDate(d) && d.day > 12
    ensures FirstParse(MonthFirstText(d), ParseDateFormats) == Some(d)
  {
    var s := MonthFirstText(d);
    assert |s| == 10 && s[0] == Pad2(d.month)[0];
    NoYearFirst(s, IsoFormat);
    DayOverTwelveNotMonth(d);
    MonthDayRoundTrip(d);
    FirstParseUnfold(s);
  }

  /** Read day first, a month/day/year text whose day is over twelve has no valid month. */
  lemma DayOverTwelveNotMonth(d: Date)
    requires ValidDate(d) && d.day > 12
    ensures Strptime(MonthFirstText(d), DayMonthSlash).None?
  {
    var s := MonthFirstText(d);
    assert s[3] == Pad2(d.day)[0] && s[4] == Pad2(d.day)[1];
    var month := MonthField(s, 3);
    assert month.Some? ==> month.value.1 == 4;
  }

  /** A date that does not exist is rejected, however the formats are tried. */
  lemma NonexistentDateExample()
    ensures FirstParse("2023-02-29", ParseDateFormats).None?
  {
    Feb29Iso();
    Feb29DayFirst();
    Feb29DayFirstDash();
    Feb29MonthFirst();
    FirstParseUnfold("2023-02-29");
  }

  /** "2023-02-29" reads as year, month and day, but 2023 is not a leap year. */
  lemma Feb29Iso()
    ensures Strptime("2023-02-29", IsoFormat).None?
  {
    var s := "2023-02-29";
    assert YearField(s, 0) == Some((2023, 4));
    assert MonthField(s, 5) == Some((2, 7));
    assert DayField(s, 8) == Some((29, 10));
    assert !IsLeapYear(2023);
  }

  /** Read day first, "2023-02-29" has day 20 and then a '2' where '/' is needed. */
  lemma Feb29DayFirst()
    ensures Strptime("2023-02-29", DayMonthSlash).None?
  {
    var s := "2023-02-29";
    assert DayField(s, 0) == Some((20, 2));
  }

  /** Read day first, "2023-02-29" has day 20 and then a '2' where '-' is needed. */
  lemma Feb29DayFirstDash()
    ensures Strptime("2023-02-29", DayMonthDash).None?
  {
    var s := "2023-02-29";
    assert DayField(s, 0) == Some((20, 2));
  }

  /** Read month first, "2023-02-29" has month 2 and then a '0' where '/' is needed. */
  lemma Feb29MonthFirst()
    ensures Strptime("2023-02-29", MonthDaySlash).None?
  {
    var s := "2023-02-29";
    assert MonthField(s, 0) == Some((2, 1));
  }

  /** A two-digit year is rejected, since `%Y` needs four digits here. */
  lemma TwoDigitYearExample()
    ensures FirstParse("05/11/24", ParseDateFormats).None?
  {
    ShortYearIso();
    ShortYearDayFirst();
    ShortYearMonthFirst();
    ShortYearDash();
    FirstParseUnfold("05/11/24");
  }

  /** "05/11/24" does not start with four digits. */
  lemma ShortYearIso()
    ensures Strptime("05/11/24", IsoFormat).None?
  {
    var s := "05/11/24";
    assert YearField(s, 0).None?;
  }

  /** "05/11/24" has a '/' where `%d-%m-%Y` needs '-'. */
  lemma ShortYearDash()
    ensures Strptime("05/11/24", DayMonthDash).None?
  {
    var s := "05/11/24";
    assert DayField(s, 0) == Some((5, 2));
  }

  /** Read day first, "05/11/24" has day 5 and month 11 but only two year digits. */
  lemma ShortYearDayFirst()
    ensures Strptime("05/11/24", DayMonthSlash).None?
  {
    var s := "05/11/24";
    assert DayField(s, 0) == Some((5, 2));
    assert MonthField(s, 3) == Some((11, 5));
    assert YearField(s, 6).None?;
  }

  /** Read month first, "05/11/24" has month 5 and day 11 but only two year digits. */
  lemma ShortYearMonthFirst()
    ensures Strptime("05/11/24", MonthDaySlash).None?
  {
    var s := "05/11/24";
    assert MonthField(s, 0) == Some((5, 2));
    assert DayField(s, 3) == Some((11, 5));
    assert YearField(s, 6).None?;
  }
}
