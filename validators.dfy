/**
 * The validation utilities: `validate_expense_data`, `validate_email`,
 * `validate_date_string` and `validate_image_file`.
 */
module Validators {
  import opened Wrappers
  import opened Text
  import opened PyValue
  import DateParse

  /** The `{'valid': ..., 'errors': [...]}` dict the validators return. */
  datatype ValidationResult = ValidationResult(valid: bool, errors: seq<string>)

  /* ---------------------------------------------------------------- */
  /* validate_expense_data                                             */
  /* ---------------------------------------------------------------- */

  const RequiredFields: seq<string> := ["payment_concept", "total"]
  const NumericFields: seq<string> := ["total", "subtotal", "tax"]

  const ConceptTypeMessage := "payment_concept must be a string"
  const ConceptShortMessage := "payment_concept must be at least 2 characters long"
  const ConceptLongMessage := "payment_concept cannot exceed 100 characters"
  const CategoryTypeMessage := "Category must be a string"
  const CategoryLongMessage := "Category cannot exceed 50 characters"
  const NoteTypeMessage := "note must be a string"
  const NoteLongMessage := "note cannot exceed 500 characters"

  function RequiredMessage(field: string): string { "Field '" + field + "' is required" }
  function NumberTypeMessage(field: string): string { "Field '" + field + "' must be a number" }
  function NegativeMessage(field: string): string { "Field '" + field + "' cannot be negative" }

  /** The field is present with a truthy value: `field in data and data[field]`. */
  predicate Given(data: Dict, field: string) {
    field in data && Truthy(data[field])
  }

  /** The errors of the required-field loop, over the given fields in order. */
  function RequiredErrors(data: Dict, fields: seq<string>): seq<string>
    decreases |fields|
  {
    if |fields| == 0 then []
    else
      var field := fields[|fields| - 1];
      RequiredErrors(data, fields[..|fields| - 1]) + (if !Given(data, field) then [RequiredMessage(field)] else [])
  }

  /** The errors the numeric check gives one field: at most one. */
  function NumericFieldErrors(data: Dict, field: string): (r: seq<string>)
    ensures |r| <= 1
  {
    if field in data && !data[field].NoneValue? then
      if !IsNumber(data[field]) then [NumberTypeMessage(field)]
      else if IsNegative(data[field]) then [NegativeMessage(field)]
      else []
    else []
  }

  /** The errors of the numeric loop, over the given fields in order. */
  function NumericErrors(data: Dict, fields: seq<string>): seq<string>
    decreases |fields|
  {
    if |fields| == 0 then []
    else NumericErrors(data, fields[..|fields| - 1]) + NumericFieldErrors(data, fields[|fields| - 1])
  }

  /** The errors of a given text field: not a string, or longer than max. */
  function TextFieldErrors(data: Dict, field: string, max: nat, typeMessage: string, longMessage: string): seq<string> {
    if Given(data, field) then
      if !data[field].StrValue? then [typeMessage]
      else if |data[field].s| > max then [longMessage]
      else []
    else []
  }

  /** The errors of a given payment concept: not a string, too short once stripped, or too long. */
  function ConceptErrors(data: Dict): seq<string> {
    if Given(data, "payment_concept") then
      var v := data["payment_concept"];
      if !v.StrValue? then [ConceptTypeMessage]
      else if |Strip(v.s)| < 2 then [ConceptShortMessage]
      else if |v.s| > 100 then [ConceptLongMessage]
      else []
    else []
  }

  /**
   * Every error `validate_expense_data` reports, in the order it reports
   * them: at most one per check, and a missing payment concept is not also
   * checked for its type or length, so never more than seven.
   */
  function ExpenseErrors(data: Dict): (r: seq<string>)
    ensures |r| <= 7
  {
    RequiredErrorsOfFields(data);
    NumericErrorsOfFields(data);
    RequiredErrors(data, RequiredFields)
    + ConceptErrors(data)
    + NumericErrors(data, NumericFields)
    + TextFieldErrors(data, "category", 50, CategoryTypeMessage, CategoryLongMessage)
    + TextFieldErrors(data, "note", 500, NoteTypeMessage, NoteLongMessage)
  }

  /** A present, non-None amount is a number that is not negative. */
  predicate AcceptableAmount(data: Dict, field: string) {
    field in data && !data[field].NoneValue? ==> IsNumber(data[field]) && !IsNegative(data[field])
  }

  /** A given text field is a string of at most max characters. */
  predicate AcceptableText(data: Dict, field: string, max: nat) {
    Given(data, field) ==> data[field].StrValue? && |data[field].s| <= max
  }

  /** A given payment concept is a string of 2 to 100 characters, at least 2 once stripped. */
  predicate AcceptableConcept(data: Dict) {
    Given(data, "payment_concept") ==>
      data["payment_concept"].StrValue?
      && 2 <= |Strip(data["payment_concept"].s)| && |data["payment_concept"].s| <= 100
  }

  /** The conditions an expense must meet, stated field by field. */
  predicate AcceptableExpense(data: Dict) {
    && Given(data, "payment_concept") && Given(data, "total")
    && AcceptableConcept(data)
    && (forall field :: field in NumericFields ==> AcceptableAmount(data, field))
    && AcceptableText(data, "category", 50)
    && AcceptableText(data, "note", 500)
  }

  /**
   * `validate_expense_data(data)`: checks the required fields, then the
   * payment concept, the three amounts, the category and the note,
   * collecting one message per failed check.
   */
  method ValidateExpenseData(data: Dict) returns (result: ValidationResult)
    ensures result.errors == ExpenseErrors(data)
    ensures result.valid <==> |result.errors| == 0
  {
    var errors: seq<string> := [];

    var requiredFields := RequiredFields;
    for i := 0 to |requiredFields|
      invariant errors == RequiredErrors(data, requiredFields[..i])
    {
      var field := requiredFields[i];
      if field !in data || !Truthy(data[field]) {
        errors := errors + [RequiredMessage(field)];
      }
      assert requiredFields[..i + 1][..i] == requiredFields[..i];
    }
    assert requiredFields[..|requiredFields|] == requiredFields;
    ghost var stage := errors;

    if "payment_concept" in data && Truthy(data["payment_concept"]) {
      var concept := data["payment_concept"];
      if !concept.StrValue? {
        errors := errors + [ConceptTypeMessage];
      } else if |Strip(concept.s)| < 2 {
        errors := errors + [ConceptShortMessage];
      } else if |concept.s| > 100 {
        errors := errors + [ConceptLongMessage];
      }
    }
    assert errors == stage + ConceptErrors(data);

    errors := CheckAmounts(data, errors);
    errors := CheckText(data, errors, "category", 50, CategoryTypeMessage, CategoryLongMessage);
    errors := CheckText(data, errors, "note", 500, NoteTypeMessage, NoteLongMessage);

    result := ValidationResult(|errors| == 0, errors);
  }

  /** The amounts loop of `validate_expense_data`. */
  method CheckAmounts(data: Dict, errors: seq<string>) returns (out: seq<string>)
    ensures out == errors + NumericErrors(data, NumericFields)
  {
    out := errors;
    var numericFields := NumericFields;
    for i := 0 to |numericFields|
      invariant out == errors + NumericErrors(data, numericFields[..i])
    {
      var field := numericFields[i];
      ghost var done := NumericErrors(data, numericFields[..i]);
      if field in data && !data[field].NoneValue? {
        var amount := data[field];
        if !IsNumber(amount) {
          out := out + [NumberTypeMessage(field)];
        } else if IsNegative(amount) {
          out := out + [NegativeMessage(field)];
        }
      }
      assert out == errors + (done + NumericFieldErrors(data, field));
      assert numericFields[..i + 1][..i] == numericFields[..i];
    }
    assert numericFields[..|numericFields|] == numericFields;
  }

  /** The category and note blocks of `validate_expense_data`, which differ only in their constants. */
  method CheckText(data: Dict, errors: seq<string>, field: string, max: nat, typeMessage: string, longMessage: string)
    returns (out: seq<string>)
    ensures out == errors + TextFieldErrors(data, field, max, typeMessage, longMessage)
  {
    out := errors;
    if field in data && Truthy(data[field]) {
      if !data[field].StrValue? {
        out := out + [typeMessage];
      } else if |data[field].s| > max {
        out := out + [longMessage];
      }
    }
  }

  /** The required-field errors are those of the concept, then of the total. */
  lemma RequiredErrorsOfFields(data: Dict)
    ensures RequiredErrors(data, RequiredFields) ==
              (if !Given(data, "payment_concept") then [RequiredMessage("payment_concept")] else [])
              + (if !Given(data, "total") then [RequiredMessage("total")] else [])
  {
    assert RequiredFields[..1] == ["payment_concept"];
    assert ["payment_concept"][..0] == [];
  }

  /** The numeric errors are those of the total, the subtotal and the tax, in that order. */
  lemma NumericErrorsOfFields(data: Dict)
    ensures NumericErrors(data, NumericFields) ==
              NumericFieldErrors(data, "total") + NumericFieldErrors(data, "subtotal") + NumericFieldErrors(data, "tax")
  {
    ghost var two := ["total", "subtotal"];
    assert NumericFields[..2] == two;
    assert two[..1] == ["total"];
    assert ["total"][..0] == [];
  }

  /** An amount draws no error exactly when it is acceptable. */
  lemma NumericFieldErrorsEmpty(data: Dict, field: string)
    ensures NumericFieldErrors(data, field) == [] <==> AcceptableAmount(data, field)
  {
  }

  /** An expense is reported valid exactly when it meets every field condition. */
  lemma ExpenseErrorsEmptyIffAcceptable(data: Dict)
    ensures ExpenseErrors(data) == [] <==> AcceptableExpense(data)
  {
    RequiredErrorsOfFields(data);
    assert RequiredErrors(data, RequiredFields) == [] <==> Given(data, "payment_concept") && Given(data, "total");
    NumericErrorsOfFields(data);
    NumericFieldErrorsEmpty(data, "total");
    NumericFieldErrorsEmpty(data, "subtotal");
    NumericFieldErrorsEmpty(data, "tax");
    assert forall field :: field in NumericFields <==> field == "total" || field == "subtotal" || field == "tax";
    assert NumericErrors(data, NumericFields) == [] <==> forall field :: field in NumericFields ==> AcceptableAmount(data, field);
    ConceptErrorsEmpty(data);
    TextFieldErrorsEmpty(data, "category", 50, CategoryTypeMessage, CategoryLongMessage);
    TextFieldErrorsEmpty(data, "note", 500, NoteTypeMessage, NoteLongMessage);
    EmptyConcat(RequiredErrors(data, RequiredFields), ConceptErrors(data), NumericErrors(data, NumericFields),
      TextFieldErrors(data, "category", 50, CategoryTypeMessage, CategoryLongMessage),
      TextFieldErrors(data, "note", 500, NoteTypeMessage, NoteLongMessage));
  }

  /** A payment concept draws no error exactly when it is acceptable. */
  lemma ConceptErrorsEmpty(data: Dict)
    ensures ConceptErrors(data) == [] <==> AcceptableConcept(data)
  {
  }

  /** A text field draws no error exactly when it is acceptable. */
  lemma TextFieldErrorsEmpty(data: Dict, field: string, max: nat, typeMessage: string, longMessage: string)
    ensures TextFieldErrors(data, field, max, typeMessage, longMessage) == [] <==> AcceptableText(data, field, max)
  {
  }

  lemma EmptyConcat(a: seq<string>, b: seq<string>, c: seq<string>, d: seq<string>, e: seq<string>)
    ensures a + b + c + d + e == [] <==> a == [] && b == [] && c == [] && d == [] && e == []
  {
    assert |a + b + c + d + e| == |a| + |b| + |c| + |d| + |e|;
  }

  /** A total of zero is reported as missing, like an absent one. */
  lemma ZeroTotalIsMissing(data: Dict)
    requires "total" in data && (data["total"] == IntValue(0) || data["total"] == FloatValue(0.0))
    ensures RequiredMessage("total") in ExpenseErrors(data)
  {
    RequiredErrorsOfFields(data);
  }

  /**
   * A given string concept draws at most one length error: "at least 2"
   * when it is shorter than two characters once stripped, otherwise
   * "cannot exceed 100" when it is longer than 100 characters.
   */
  lemma ConceptLengthErrors(data: Dict)
    requires Given(data, "payment_concept") && data["payment_concept"].StrValue?
    ensures var s := data["payment_concept"].s;
      && (ConceptShortMessage in ConceptErrors(data) <==> |Strip(s)| < 2)
      && (ConceptLongMessage in ConceptErrors(data) <==> |Strip(s)| >= 2 && |s| > 100)
      && |ConceptErrors(data)| <= 1
  {
    assert |ConceptShortMessage| != |ConceptLongMessage|;
  }

  /**
   * Each amount draws at most one error: none when absent or None, a type
   * error when it is not a number, a negative error when it is below zero.
   */
  lemma NumericFieldErrorsSpec(data: Dict, field: string)
    ensures NumberTypeMessage(field) in NumericFieldErrors(data, field) <==>
              field in data && !data[field].NoneValue? && !IsNumber(data[field])
    ensures NegativeMessage(field) in NumericFieldErrors(data, field) <==>
              field in data && IsNumber(data[field]) && IsNegative(data[field])
  {
    assert NumberTypeMessage(field) != NegativeMessage(field) by {
      assert NumberTypeMessage(field)[|field| + 9] == 'm';
      assert NegativeMessage(field)[|field| + 9] == 'c';
    }
  }

  /* ---------------------------------------------------------------- */
  /* validate_email                                                    */
  /* ---------------------------------------------------------------- */

  /** `[a-zA-Z0-9._%+-]` */
  predicate IsLocalChar(c: char) {
    IsAsciiLetter(c) || IsDigit(c) || c == '.' || c == '_' || c == '%' || c == '+' || c == '-'
  }

  /** `[a-zA-Z0-9.-]` */
  predicate IsDomainChar(c: char) {
    IsAsciiLetter(c) || IsDigit(c) || c == '.' || c == '-'
  }

  predicate AllLocal(s: string) { forall i :: 0 <= i < |s| ==> IsLocalChar(s[i]) }
  predicate AllDomain(s: string) { forall i :: 0 <= i < |s| ==> IsDomainChar(s[i]) }
  predicate AllLetters(s: string) { forall i :: 0 <= i < |s| ==> IsAsciiLetter(s[i]) }

  /**
   * t is, as a whole, `[a-zA-Z0-9._%+-]+@[a-zA-Z0-9.-]+\.[a-zA-Z]{2,}`:
   * some '@' at a and '.' at p split it into the three parts.
   */
  ghost predicate EmailPatternSplit(t: string, a: int, p: int) {
    0 < a && a + 1 < p && p + 3 <= |t| && t[a] == '@' && t[p] == '.'
    && AllLocal(t[..a]) && AllDomain(t[a + 1..p]) && AllLetters(t[p + 1..])
  }

  ghost predicate MatchesEmailPattern(t: string) {
    exists a, p :: EmailPatternSplit(t, a, p)
  }

  /**
   * The same shape, computed: one '@' after a non-empty local part, and a
   * domain whose last '.' has something before it and two or more letters
   * after it.
   */
  predicate EmailShape(t: string) {
    '@' in t &&
    var a := IndexOfChar(t, '@');
    var rest := t[a + 1..];
    a > 0 && AllLocal(t[..a]) && AllDomain(rest) && '.' in rest &&
    var p := LastIndexOfChar(rest, '.');
    p > 0 && |rest| - p - 1 >= 2 && AllLetters(rest[p + 1..])
  }

  /**
   * `validate_email(email)`: `re.match` anchored with `^` and `$`, where
   * `$` also matches just before a final newline.
   */
  function ValidateEmail(email: string): (r: bool)
    ensures r <==> MatchesEmailPattern(email)
                   || (|email| > 0 && email[|email| - 1] == '\n' && MatchesEmailPattern(email[..|email| - 1]))
  {
    EmailShapeIsPattern(email);
    if |email| > 0 then
      EmailShapeIsPattern(email[..|email| - 1]);
      EmailShape(email) || (email[|email| - 1] == '\n' && EmailShape(email[..|email| - 1]))
    else EmailShape(email)
  }

  /** A computed split is a split of the pattern. */
  lemma EmailShapeMatches(t: string)
    requires EmailShape(t)
    ensures MatchesEmailPattern(t)
  {
    var a := IndexOfChar(t, '@');
    var rest := t[a + 1..];
    var p := LastIndexOfChar(rest, '.');
    assert t[a + 1..a + 1 + p] == rest[..p];
    assert t[a + 1 + p + 1..] == rest[p + 1..];
    assert EmailPatternSplit(t, a, a + 1 + p);
  }

  /** Any split of the pattern is the computed one: the first '@' and the domain's last '.'. */
  lemma EmailPatternShape(t: string, a: int, p: int)
    requires EmailPatternSplit(t, a, p)
    ensures EmailShape(t)
  {
    EmailSplitAt(t, a, p);
    EmailSplitDomain(t, a, p);
    var rest := t[a + 1..];
    assert rest[p - a..] == t[p + 1..];
  }

  /** The '@' of a split is the first one. */
  lemma EmailSplitAt(t: string, a: int, p: int)
    requires EmailPatternSplit(t, a, p)
    ensures '@' in t && IndexOfChar(t, '@') == a
  {
    forall i | 0 <= i < a ensures t[i] != '@' {
      assert t[i] == t[..a][i];
    }
    IndexOfCharIs(t, '@', a);
  }

  /** After the '@' of a split come domain characters only, and the split's '.' is the last one. */
  lemma EmailSplitDomain(t: string, a: int, p: int)
    requires EmailPatternSplit(t, a, p)
    ensures AllDomain(t[a + 1..]) && LastIndexOfChar(t[a + 1..], '.') == p - a - 1
  {
    var rest := t[a + 1..];
    forall i | 0 <= i < |rest| ensures IsDomainChar(rest[i]) {
      if i < p - a - 1 { assert rest[i] == t[a + 1..p][i]; }
      else if i == p - a - 1 { assert rest[i] == t[p]; }
      else { assert rest[i] == t[p + 1..][i - (p - a)]; }
    }
    forall i | p - a - 1 < i < |rest| ensures rest[i] != '.' {
      assert rest[i] == t[p + 1..][i - (p - a)];
    }
    LastIndexOfCharIs(rest, '.', p - a - 1);
  }

  /** The computed shape is exactly the regular expression's full match. */
  lemma EmailShapeIsPattern(t: string)
    ensures EmailShape(t) <==> MatchesEmailPattern(t)
  {
    if EmailShape(t) {
      EmailShapeMatches(t);
    }
    if MatchesEmailPattern(t) {
      var a, p :| EmailPatternSplit(t, a, p);
      EmailPatternShape(t, a, p);
    }
  }

  /* ---------------------------------------------------------------- */
  /* validate_date_string                                              */
  /* ---------------------------------------------------------------- */

  /** `%d-m-%Y`, as written: a literal `m` where `%m` was meant. */
  const DayLiteralMYear: seq<DateParse.Directive> :=
    [DateParse.Day, DateParse.Lit('-'), DateParse.Lit('m'), DateParse.Lit('-'), DateParse.Year]

  /** The formats `validate_date_string` tries, as written. */
  const ValidatorFormats: seq<seq<DateParse.Directive>> :=
    [DateParse.IsoFormat, DateParse.DayMonthSlash, DateParse.MonthDaySlash, DayLiteralMYear]

  /** `validate_date_string(date_str)`: whether some format parses the string. */
  method ValidateDateString(dateStr: string) returns (ok: bool)
    ensures ok <==> exists k :: 0 <= k < |ValidatorFormats| && DateParse.Strptime(dateStr, ValidatorFormats[k]).Some?
  {
    var formats := ValidatorFormats;
    for k := 0 to |formats|
      invariant forall j :: 0 <= j < k ==> DateParse.Strptime(dateStr, formats[j]).None?
    {
      if DateParse.Strptime(dateStr, formats[k]).Some? {
        return true;
      }
    }
    return false;
  }

  /**
   * The check `validate_date_string` evidently intends: the four formats of
   * `parse_date`, with `%d-%m-%Y` last.
   */
  method ValidateDateStringIntended(dateStr: string) returns (ok: bool)
    ensures ok <==> DateParse.FirstParse(dateStr, DateParse.ParseDateFormats).Some?
  {
    DateParse.FirstParseSpec(dateStr, DateParse.ParseDateFormats);
    var formats := DateParse.ParseDateFormats;
    for k := 0 to |formats|
      invariant forall j :: 0 <= j < k ==> DateParse.Strptime(dateStr, formats[j]).None?
    {
      if DateParse.Strptime(dateStr, formats[k]).Some? {
        return true;
      }
    }
    return false;
  }

  /**
   * As written, no real date in the day-month-year dash form passes
   * `validate_date_string`, although `parse_date` reads every one of them.
   */
  lemma DashedDatesRejected(d: DateParse.Date)
    requires DateParse.ValidDate(d)
    ensures forall k :: 0 <= k < |ValidatorFormats| ==> DateParse.Strptime(DateParse.DayFirstText(d, '-'), ValidatorFormats[k]).None?
    ensures DateParse.FirstParse(DateParse.DayFirstText(d, '-'), DateParse.ParseDateFormats) == Some(d)
  {
    var s := DateParse.DayFirstText(d, '-');
    DateParse.NoYearFirst(s, DateParse.IsoFormat);
    assert s[0] == DateParse.Pad2(d.day)[0] && s[1] == DateParse.Pad2(d.day)[1];
    DateParse.NoSlashFormat(s);
    DashedNotLiteralMonth(d);
    assert forall k :: 0 <= k < |ValidatorFormats| ==>
      ValidatorFormats[k] in {DateParse.IsoFormat, DateParse.DayMonthSlash, DateParse.MonthDaySlash, DayLiteralMYear};
    DateParse.ParseDateDayFirstDash(d);
  }

  /** A dashed date has a digit, not the letter `m`, after its first '-'. */
  lemma DashedNotLiteralMonth(d: DateParse.Date)
    requires DateParse.ValidDate(d)
    ensures DateParse.Strptime(DateParse.DayFirstText(d, '-'), DayLiteralMYear).None?
  {
    var s := DateParse.DayFirstText(d, '-');
    assert s[3] == DateParse.Pad2(d.month)[0];
    DateParse.DayFieldPad2(s, 0, d.day);
  }

  /** The intended check accepts every real date in all four written forms. */
  lemma IntendedAcceptsDashedDates(d: DateParse.Date)
    requires DateParse.ValidDate(d)
    ensures DateParse.FirstParse(DateParse.DayFirstText(d, '-'), DateParse.ParseDateFormats).Some?
    ensures DateParse.FirstParse(DateParse.DayFirstText(d, '/'), DateParse.ParseDateFormats).Some?
    ensures DateParse.FirstParse(DateParse.IsoText(d), DateParse.ParseDateFormats).Some?
  {
    DateParse.ParseDateDayFirstDash(d);
    DateParse.ParseDateDayFirst(d);
    DateParse.IsoRoundTrip(d);
    DateParse.FirstParseUnfold(DateParse.IsoText(d));
  }

  /** As written, the ISO and the two slash forms of a real date still pass. */
  lemma ValidatorAcceptsIsoAndSlash(d: DateParse.Date)
    requires DateParse.ValidDate(d)
    ensures DateParse.Strptime(DateParse.IsoText(d), ValidatorFormats[0]) == Some(d)
    ensures DateParse.Strptime(DateParse.DayFirstText(d, '/'), ValidatorFormats[1]) == Some(d)
    ensures DateParse.Strptime(DateParse.MonthFirstText(d), ValidatorFormats[2]) == Some(d)
  {
    DateParse.IsoRoundTrip(d);
    DateParse.DayMonthRoundTrip(d, '/');
    DateParse.MonthDayRoundTrip(d);
  }

  /** The literal `m` is what the fourth format accepts, in either case. */
  lemma LiteralMonthAccepted()
    ensures DateParse.Strptime("05-m-2024", DayLiteralMYear) == Some(DateParse.Date(2024, 1, 5))
    ensures DateParse.Strptime("05-M-2024", DayLiteralMYear) == Some(DateParse.Date(2024, 1, 5))
  {
    LiteralLowerM();
    LiteralUpperM();
  }

  /** "05-m-2024" parses as 5 January 2024: the month is never set. */
  lemma LiteralLowerM()
    ensures DateParse.Strptime("05-m-2024", DayLiteralMYear) == Some(DateParse.Date(2024, 1, 5))
  {
    assert DateParse.DayField("05-m-2024", 0) == Some((5, 2));
    assert DateParse.YearField("05-m-2024", 5) == Some((2024, 9));
  }

  /** The literal matches case-insensitively, so "05-M-2024" parses too. */
  lemma LiteralUpperM()
    ensures DateParse.Strptime("05-M-2024", DayLiteralMYear) == Some(DateParse.Date(2024, 1, 5))
  {
    assert DateParse.DayField("05-M-2024", 0) == Some((5, 2));
    assert DateParse.YearField("05-M-2024", 5) == Some((2024, 9));
  }

  /* ---------------------------------------------------------------- */
  /* validate_image_file                                               */
  /* ---------------------------------------------------------------- */

  const AllowedExtensions: seq<string> := [".jpg", ".jpeg", ".png", ".bmp", ".tiff", ".webp"]
  const FilenameRequiredMessage := "Filename is required"
  const FileTypeMessage := "File type not allowed. Allowed types: .jpg, .jpeg, .png, .bmp, .tiff, .webp"

  /** `'.' + filename.rsplit('.', 1)[-1].lower() if '.' in filename else ''` */
  function FileExtension(filename: string): (r: string)
    ensures |r| > 0 <==> '.' in filename
    ensures |r| > 0 ==> r[0] == '.' && '.' !in r[1..]
  {
    if '.' in filename then "." + Lower(filename[LastIndexOfChar(filename, '.') + 1..]) else ""
  }

  /**
   * `validate_image_file(filename, max_size_mb)`: an empty name is refused
   * outright; otherwise the extension after the last '.', lowercased, must
   * be one of the six allowed.  `max_size_mb` is never consulted.
   */
  function ValidateImageFile(filename: string, maxSizeMb: int): (r: ValidationResult)
    ensures r.valid <==> |r.errors| == 0
    ensures |filename| == 0 ==> r == ValidationResult(false, [FilenameRequiredMessage])
    ensures |filename| > 0 && !r.valid ==> r.errors == [FileTypeMessage]
    ensures r.valid ==> '.' in filename
  {
    if |filename| == 0 then ValidationResult(false, [FilenameRequiredMessage])
    else
      var errors := if FileExtension(filename) !in AllowedExtensions then [FileTypeMessage] else [];
      ValidationResult(|errors| == 0, errors)
  }

  /** s ends with e, ignoring the case of ASCII letters in s. */
  predicate EndsWithCI(s: string, e: string) {
    |e| <= |s| && Lower(s[|s| - |e|..]) == e
  }

  /** The computed extension, lower-cased, is what the name ends with. */
  lemma ExtensionEndsName(s: string)
    requires '.' in s
    ensures EndsWithCI(s, FileExtension(s))
  {
    var p := LastIndexOfChar(s, '.');
    var tail := s[p + 1..];
    assert s[p..] == ['.'] + tail;
    LowerAppend(['.'], tail);
    assert Lower(['.']) == ['.'];
  }

  /** A name ending with '.' and no other '.' after it has that ending as its extension. */
  lemma EndingIsExtension(s: string, e: string)
    requires |e| > 0 && e[0] == '.' && '.' !in e[1..]
    requires EndsWithCI(s, e)
    ensures '.' in s && FileExtension(s) == e
  {
    var j := |s| - |e|;
    assert s[j..] == [s[j]] + s[j + 1..];
    LowerAppend([s[j]], s[j + 1..]);
    assert LowerChar(s[j]) == e[0];
    assert s[j] == '.';
    forall i | j < i < |s| ensures s[i] != '.' {
      assert LowerChar(s[i]) == Lower(s[j..])[i - j];
      assert e[i - j] == e[1..][i - j - 1];
    }
    LastIndexOfCharIs(s, '.', j);
    assert Lower(['.']) == ['.'];
  }

  /** An extension that is a '.' then no other '.' is the computed one exactly when the name ends with it. */
  lemma FileExtensionIsSuffix(s: string, e: string)
    requires |e| > 0 && e[0] == '.' && '.' !in e[1..]
    ensures FileExtension(s) == e <==> EndsWithCI(s, e)
  {
    if FileExtension(s) == e {
      ExtensionEndsName(s);
    }
    if EndsWithCI(s, e) {
      EndingIsExtension(s, e);
    }
  }

  /**
   * A file passes exactly when its name ends, in any letter case, with one
   * of the allowed extensions.
   */
  lemma ValidateImageFileSpec(filename: string, maxSizeMb: int)
    ensures ValidateImageFile(filename, maxSizeMb).valid <==>
              exists k :: 0 <= k < |AllowedExtensions| && EndsWithCI(filename, AllowedExtensions[k])
  {
    forall k | 0 <= k < |AllowedExtensions|
      ensures FileExtension(filename) == AllowedExtensions[k] <==> EndsWithCI(filename, AllowedExtensions[k])
    {
      var e := AllowedExtensions[k];
      assert forall i :: 1 <= i < |e| ==> IsAsciiLetter(e[i]);
      FileExtensionIsSuffix(filename, e);
    }
  }

  /** Upper-case and double extensions pass. */
  lemma ImageFileAccepted()
    ensures ValidateImageFile("a.JPG", 10).valid
    ensures ValidateImageFile("x.tar.png", 10).valid
  {
    ValidateImageFileSpec("a.JPG", 10);
    UpperJpg();
    ValidateImageFileSpec("x.tar.png", 10);
    DoublePng();
  }

  /** "a.JPG" ends, once lowercased, with ".jpg". */
  lemma UpperJpg()
    ensures EndsWithCI("a.JPG", AllowedExtensions[0])
  {
    var t := "a.JPG"[1..];
    assert t == ".JPG";
    var l := Lower(t);
    assert l[0] == '.' && l[1] == 'j' && l[2] == 'p' && l[3] == 'g';
    assert l == ".jpg";
  }

  /** "x.tar.png" ends with ".png". */
  lemma DoublePng()
    ensures EndsWithCI("x.tar.png", AllowedExtensions[2])
  {
    var t := "x.tar.png"[5..];
    assert t == ".png";
    var l := Lower(t);
    assert l[0] == '.' && l[1] == 'p' && l[2] == 'n' && l[3] == 'g';
    assert l == ".png";
  }

  /** A name without an extension, or with an empty one, is refused. */
  lemma ImageFileRefused()
    ensures !ValidateImageFile("noext", 10).valid
    ensures !ValidateImageFile("a.", 10).valid
  {
    assert '.' !in "noext";
    ValidateImageFileSpec("a.", 10);
  }
}
