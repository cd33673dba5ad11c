# Receipt parsing and validation core of the expense management app

This project is a Dafny model of the pure core of the expense management
backend. That core has four parts:

- **The receipt parser.** `OCRService._parse_receipt_text` turns the raw text
  that OCR produced from a receipt into a payment concept, a category, a total,
  a subtotal and a payment date.
- **The helpers the parser uses.** These are `extract_highest_amount`,
  `extract_amount_from_lines`, `match_store` and `fuzzy_store_matching`.
- **The other text utilities of the helpers module.** These are `parse_date`,
  `escape_markdown` and `mask_sensitive_data`.
- **The validators.** These are `validate_expense_data`, `validate_email`,
  `validate_date_string` and `validate_image_file`.

Each part is modelled in the source's own form. A loop in the source is a
method with a loop. The method is proved equal to a specification function
(`ExtractHighestAmount`, `ExtractAmountFromLines`, `MatchStore`, `ParseDate`,
`ParseReceiptText`, `ValidateExpenseData`, `ValidateDateString`,
`EscapeMarkdown`, `MaskSensitiveData`). The properties the application relies
on are then proved about those functions. Code that is a pure expression is a
function with a contract.

Modules:

- **`Wrappers`** holds `Option`.
- **`Text`** holds ASCII-level string operations:
  - `str.upper`, `str.lower` and `str.strip`;
  - `in` on strings and `split('\n')`;
  - lexicographic order.
- **`Scans`** holds "the first / last element for which a partial function
  gives a value", with its specifications.
- **`Money`** holds the amount token `\b\d+[.,]\d{2}\b`, its value in integer
  cents, and `extract_highest_amount`.
- **`AmountPatterns`** holds the five total and five subtotal regular
  expressions, as leftmost-first matchers, and `extract_amount_from_lines`.
- **`DateCapture`** holds the two date regular expressions of the receipt
  parser and its date loop.
- **`DateParse`** holds `datetime.strptime` for the directives `%Y`, `%m` and
  `%d`, the calendar check, and `parse_date` on strings.
- **`Stores`** holds the store dictionary and `match_store`, including
  `fuzzy_store_matching`'s use of `difflib.get_close_matches`.
- **`Receipt`** holds `_parse_receipt_text`.
- **`PyValue`** holds the Python values the validators inspect: their
  `isinstance` classes, truth value and sign.
- **`Validators`** holds the four validators.
- **`Markdown`** holds `escape_markdown`. **`Masking`** holds
  `mask_sensitive_data`.

Modelling choices:

- **Amounts.** An amount is a natural number of cents. Every amount the
  parser converts has the shape `digits [.,] two digits`, so `float()` always
  succeeds (`Money.CaptureNeverFails`). The `except ValueError` branches of
  the parser cannot be taken.
- **Regular expressions.** `\d` and `\w` are ASCII. `\s` and `strip()` use
  Python's whitespace set. Case-insensitive matching and `upper()`/`lower()`
  act on ASCII letters.
- **`strptime`.** `%d` reads the first alternative of
  `3[01]|[12]\d|0[1-9]|[1-9]| [1-9]` that matches. `%m` reads the first of
  `1[0-2]|0[1-9]|[1-9]`. `%Y` reads four digits. Literal characters match
  without regard to case. The whole string must be consumed, and the date must
  exist in the proleptic Gregorian calendar with year 1 to 9999.
- **The similarity ratio.** `difflib.SequenceMatcher(None, key, line).ratio()`
  is a parameter `similarity(key, line)`. `get_close_matches(n=1)` keeps
  the key with the highest score at or above 0.8. A tie goes to the key
  that is larger in code-point order, as `heapq.nlargest` on `(score, key)`
  pairs does.
- **The store catalog.** `StoreCategoryService.get_all_store_categories()` is
  a parameter: the sequence of `(store_name, category)` rows. The dict
  comprehensions become `Stores.DictFromPairs`. A key keeps the position of
  its first occurrence and the value of its last, as a Python dict does.

Four behaviours of the code a reader may not expect:

- **The payment date** comes from the last line that contains a date, not
  the first. The date loop's `break` only leaves the pattern loop.
- **`extract_amount_from_lines`** does not stop at the first line that
  contains the keyword. It moves on when none of the patterns matches on that
  line.
- **`extract_highest_amount`** takes only the first amount token of each line.
  It ignores the patterns it is given, except that an empty pattern list
  yields nothing.
- **The date pattern** `\d{2,4}` also accepts a three-digit year.

## Model

| member | source | states |
|---|---|---|
| Money.FirstMoney | app/utils/helpers.py:86 | `re.search` of `\b\d+[.,]\d{2}\b`: None exactly when no position of the line starts a word-bounded money token; otherwise the money-shaped token at the leftmost such position |
| Money.CaptureNeverFails | app/utils/helpers.py:88-91 | converting a money-shaped token never fails, and gives its integer part times 100 plus its two decimals |
| Money.LineValueIffToken | app/utils/helpers.py:86-89 | a line contributes an amount exactly when its search finds a token |
| Money.MaxOf | app/utils/helpers.py:92 | `max(amounts) if amounts else None`: None exactly for no amounts, else a member that bounds all of them |
| Money.HighestAmountIsMax | app/utils/helpers.py:81-92 | None exactly when no line has a token; otherwise the value of some line, and no line's value is larger |
| Money.CollectedMax | app/utils/helpers.py:83-92 | the amount list, in which each line's token is appended once per pattern, has the same maximum as the lines' values, and none when there are no patterns |
| Money.ExtractHighestAmount | app/utils/helpers.py:81-92 | the nested loop returns the highest amount over all lines, and None for an empty pattern list |
| AmountPatterns.MatchAt | app/services/ocr_service.py:69-75 | a pattern matching at a position captures a money token lying at or after it |
| AmountPatterns.Search | app/services/ocr_service.py:69-75 | a capture of any amount pattern is money-shaped |
| AmountPatterns.SearchFromLeftmost | app/utils/helpers.py:99-101 | a search's result is the match at the leftmost start position at which the pattern matches, so `group(1)` is that match's capture |
| AmountPatterns.SearchFromNone | app/utils/helpers.py:99-100 | a search that finds nothing means the pattern matches at no start position |
| AmountPatterns.SearchReaches | app/utils/helpers.py:99 | `re.search` finds a match whenever the pattern matches at some later start position |
| AmountPatterns.FirstCaptureFrom | app/utils/helpers.py:98-101 | the pattern that decides a line is the first that matches it, and every earlier one fails |
| AmountPatterns.AnchoredAmountSpec | app/utils/helpers.py:94-102 | None exactly when no line both contains the keyword, case-insensitively, and matches a pattern; otherwise the capture of the first pattern that matches on the first such line |
| AmountPatterns.AnchoredAmount | app/utils/helpers.py:94-102 | the anchored capture, when there is one, is money-shaped |
| AmountPatterns.ExtractAmountFromLines | app/utils/helpers.py:94-102 | the loops return exactly the anchored amount, and it is money-shaped |
| AmountPatterns.DollarShadowsKeywordDollar | app/services/ocr_service.py:69-75 | a line that matches `TOTAL: $` or `TOTAL $` also matches the plain `$` pattern |
| AmountPatterns.KeywordDollarShadowed | app/services/ocr_service.py:69-75 | with `$` second and the keyword-colon-dollar and keyword-dollar patterns fourth and fifth, a line's capture never comes from the fourth or fifth pattern |
| AmountPatterns.TotalPatternsFourFiveNeverDecide | app/services/ocr_service.py:69-75 | the fourth and fifth total patterns never decide a line's capture |
| AmountPatterns.SubtotalPatternsFourFiveNeverDecide | app/services/ocr_service.py:88-94 | the fourth and fifth subtotal patterns never decide a line's capture |
| DateCapture.DateMatchAt | app/services/ocr_service.py:104-107 | the text a date pattern matches at a position is 1–2 digits, `/` or `-`, 1–2 digits, `/` or `-`, 2–4 digits; or 1–2 digits, whitespace, one of the twelve English month abbreviations with its case, whitespace, 2–4 digits |
| DateCapture.DateSearchFrom | app/services/ocr_service.py:111 | the result is the leftmost start position at which the pattern matches, with that match's end; None exactly when it matches at no position |
| DateCapture.DateSearch | app/services/ocr_service.py:111-113 | `group(1)` is text of the pattern's shape, and None exactly when the pattern matches nowhere in the line |
| DateCapture.LineDate | app/services/ocr_service.py:110-114 | a line's date, when it has one, has the numeric or the textual shape |
| DateCapture.LastDate | app/services/ocr_service.py:109-114 | the kept date, when there is one, has the numeric or the textual shape |
| DateCapture.UpperCaseMonthNotMatched | app/services/ocr_service.py:106 | `"05 NOV 2024"` has no textual-date match, because the month names are case-sensitive |
| DateCapture.LineDateOrder | app/services/ocr_service.py:110-114 | a line's date is the numeric pattern's match when there is one, else the textual pattern's |
| DateCapture.LastDateSpec | app/services/ocr_service.py:109-114 | the payment date is None exactly when no line has a date; otherwise it is the date of the last line that has one |
| DateParse.DayField | app/utils/helpers.py:54 | `%d` consumes at least one character and reads a day from 1 to 31 |
| DateParse.MonthField | app/utils/helpers.py:54 | `%m` consumes at least one character and reads a month from 1 to 12 |
| DateParse.YearField | app/utils/helpers.py:54 | `%Y` consumes exactly four digits |
| DateParse.Strptime | app/utils/helpers.py:57 | any date `strptime` returns exists in the calendar |
| DateParse.FirstParse | app/utils/helpers.py:55-61 | a parse that the format loop returns is a real calendar date |
| DateParse.FirstParseSpec | app/utils/helpers.py:54-61 | the result is a real date; it is None exactly when every format fails; otherwise it is the first format's success |
| DateParse.ParseDate | app/utils/helpers.py:53-61 | the loop over the four formats returns the first successful parse, and it is a real date |
| DateParse.IsoRoundTrip | app/utils/helpers.py:54 | `%Y-%m-%d` reads back every date written as YYYY-MM-DD |
| DateParse.DayMonthRoundTrip | app/utils/helpers.py:54 | `%d/%m/%Y` and `%d-%m-%Y` read back every date written as DD/MM/YYYY or DD-MM-YYYY |
| DateParse.MonthDayRoundTrip | app/utils/helpers.py:54 | `%m/%d/%Y` reads back every date written as MM/DD/YYYY |
| DateParse.ParseDateDayFirst | app/utils/helpers.py:54-59 | `parse_date` of DD/MM/YYYY gives that date |
| DateParse.ParseDateDayFirstDash | app/utils/helpers.py:54-59 | `parse_date` of DD-MM-YYYY gives that date, through the fourth format |
| DateParse.ParseDateMonthFirst | app/utils/helpers.py:54-59 | `parse_date` of MM/DD/YYYY gives that date when the day is above 12 |
| DateParse.NonexistentDateExample | app/utils/helpers.py:54-61 | `"2023-02-29"` gives None |
| DateParse.TwoDigitYearExample | app/utils/helpers.py:54-61 | `"05/11/24"` gives None, because `%Y` needs four digits |
| Stores.DictSet | app/utils/helpers.py:114 | a dict insertion keeps keys unique and updates an existing key in place, or appends a new one |
| Stores.DictFromPairs | app/services/ocr_service.py:117 | a dict built from pairs has unique keys |
| Stores.DictFromPairsKeys | app/services/ocr_service.py:117 | the dict has exactly the keys of the pairs |
| Stores.DictFromPairsValues | app/services/ocr_service.py:117 | every entry of the dict is the last pair with its key |
| Stores.DictFromDistinctPairs | app/services/ocr_service.py:117 | pairs with distinct keys make a dict in the same order |
| Stores.StripKeys | app/utils/helpers.py:114 | each key is stripped and each value kept |
| Stores.ExactHitFrom | app/utils/helpers.py:117-119 | None exactly when no key occurs in the line; otherwise the first key, in dict order, that occurs |
| Stores.BestMatchFrom | app/utils/helpers.py:106 | None exactly when every key scores below 0.8; otherwise an entry scoring at least 0.8 that outranks every other key |
| Stores.FuzzyStoreMatching | app/utils/helpers.py:104-110 | None exactly when every key scores below 0.8 against the upper-cased line; otherwise a catalog entry, key and its value, scoring at least 0.8 and outranking every other key that does |
| Stores.LineHit | app/utils/helpers.py:116-123 | a line's hit is a catalog entry whose key occurs in the stripped, upper-cased line or scores at least 0.8 against it; no key occurring means no exact hit, and no key occurring or scoring means no hit |
| Stores.Leading | app/utils/helpers.py:115 | `lines[:5]` is a prefix of at most five lines, and exactly five when there are that many |
| Stores.MatchStore | app/utils/helpers.py:112-124 | the nested loops return exactly the store match |
| Stores.StoreMatchSpec | app/utils/helpers.py:112-124 | None exactly when none of the first five lines hits, exactly or fuzzily; otherwise the hit of the first line that does |
| Stores.StoreMatchLine | app/utils/helpers.py:115-123 | a match is the hit of one of the first five lines, and no earlier line hits |
| Stores.StoreMatchFromCatalog | app/utils/helpers.py:114-123 | a match is a stripped catalog key paired with a category that the catalog gives it |
| Stores.OnlyLeadingLines | app/utils/helpers.py:115 | lines after the fifth never change the match |
| Stores.ShadowedKey | app/utils/helpers.py:117-119 | a key that contains an earlier key is never the exact hit |
| Stores.SorianaExample | app/utils/helpers.py:117-119 | with the seed catalog's order, "SORIANA HIPER" is matched as SORIAN |
| Receipt.ConceptCandidate | app/services/ocr_service.py:128-130 | a fallback concept is the stripped line, and longer than two characters |
| Receipt.ParseReceipt | app/services/ocr_service.py:54-133 | a category comes only with a concept; a concept is never empty; a date has the numeric or the textual shape |
| Receipt.ParseReceiptText | app/services/ocr_service.py:54-133 | the parser's steps compute exactly the receipt of the split text |
| Receipt.ScanTotal | app/services/ocr_service.py:77-86 | the highest-amount step followed by the anchored step leaves the receipt's total |
| Receipt.ScanSubtotal | app/services/ocr_service.py:96-101 | the anchored step leaves the receipt's subtotal, converted to cents |
| Receipt.ScanPaymentDate | app/services/ocr_service.py:109-114 | the date loop leaves the date of the last line with a date |
| Receipt.ScanFallbackConcept | app/services/ocr_service.py:125-131 | the fallback loop leaves the first of the first five lines that is longer than two characters once stripped |
| Receipt.ScanConcept | app/services/ocr_service.py:116-131 | the store step and its fallback leave the receipt's concept and category for the store match of the lines |
| Receipt.AnchoredTotalWins | app/services/ocr_service.py:77-86 | when some line contains "total" and matches a pattern, the total is the capture of the first such line, whatever the highest amount is |
| Receipt.HighestTotalFallback | app/services/ocr_service.py:77-79 | otherwise the total is the highest amount: None exactly when no line has one, else some line's value and no smaller than any |
| Receipt.SubtotalAnchoredOnly | app/services/ocr_service.py:96-101 | the subtotal is None exactly when no line contains "subtotal" and matches a pattern; otherwise it is the first such line's capture |
| Receipt.StoreGivesConcept | app/services/ocr_service.py:116-122 | a store match makes the concept a stripped catalog name and the category its catalog category |
| Receipt.FallbackGivesConcept | app/services/ocr_service.py:123-131 | without a store match, the category is None and the concept is the first leading line longer than two characters once stripped, or None |
| Receipt.ParseJoinedLines | app/services/ocr_service.py:66 | parsing lines joined by newlines is parsing those lines |
| Receipt.EmptyText | app/services/ocr_service.py:56-66 | empty text gives a receipt with every field None, for any catalog, provided every non-empty name scores below 0.8 against the empty line (difflib's ratio is 0 there) |
| Validators.NumericFieldErrors | app/utils/validators.py:40-44 | one amount draws at most one error |
| Validators.ExpenseErrors | app/utils/validators.py:20-58 | an expense draws at most seven errors: one for the concept, two for the total (an empty string is both missing and not a number), one each for subtotal, tax, category and note |
| Validators.ValidateExpenseData | app/utils/validators.py:10-63 | the errors are exactly the expense's errors, in order, and valid means no errors |
| Validators.CheckAmounts | app/utils/validators.py:38-44 | the amounts loop appends the errors of total, subtotal and tax |
| Validators.CheckText | app/utils/validators.py:46-58 | the category and note blocks each append that field's error |
| Validators.RequiredErrorsOfFields | app/utils/validators.py:22-26 | the required-field errors are the concept's, then the total's |
| Validators.NumericErrorsOfFields | app/utils/validators.py:38-44 | the numeric errors are those of total, subtotal and tax, in that order |
| Validators.NumericFieldErrorsEmpty | app/utils/validators.py:40-44 | an amount draws no error exactly when it is absent, None, or a non-negative number |
| Validators.ExpenseErrorsEmptyIffAcceptable | app/utils/validators.py:10-63 | an expense has no errors exactly when it meets every field condition, stated field by field |
| Validators.ZeroTotalIsMissing | app/utils/validators.py:24-26 | a total of 0 is reported as required, like a missing one |
| Validators.ConceptLengthErrors | app/utils/validators.py:29-35 | a string concept draws "at least 2" exactly when it is shorter than 2 once stripped, "cannot exceed 100" exactly when it is not and is longer than 100, and never both |
| Validators.NumericFieldErrorsSpec | app/utils/validators.py:40-44 | "must be a number" exactly for a present non-None non-number; "cannot be negative" exactly for a negative number |
| Validators.ValidateEmail | app/utils/validators.py:66-69 | an address is accepted exactly when it matches the pattern, or is a match followed by one newline |
| Validators.EmailShapeIsPattern | app/utils/validators.py:68 | the computed check holds exactly when the text is local part, '@', domain, '.', two or more letters |
| Validators.ValidateDateString | app/utils/validators.py:72-83 | the result is whether some format of the written list parses the string |
| Validators.ValidateDateStringIntended | app/utils/validators.py:72-83 | the corrected check accepts exactly what `parse_date` parses |
| Validators.DashedDatesRejected | app/utils/validators.py:74 | no real date written DD-MM-YYYY passes the written check, though `parse_date` reads it |
| Validators.IntendedAcceptsDashedDates | app/utils/validators.py:74 | the corrected check accepts every real date written DD-MM-YYYY, DD/MM/YYYY or YYYY-MM-DD |
| Validators.ValidatorAcceptsIsoAndSlash | app/utils/validators.py:74-79 | the written check still reads the ISO and the two slash forms of a real date |
| Validators.LiteralMonthAccepted | app/utils/validators.py:74 | the fourth written format accepts "05-m-2024" and "05-M-2024" |
| Validators.ValidateImageFile | app/utils/validators.py:85-112 | an empty name gives only "Filename is required"; any other failure gives only the file-type message; valid means no errors, and a valid name has a '.' |
| Validators.FileExtension | app/utils/validators.py:104 | the extension is empty exactly when the name has no '.'; otherwise it starts with '.' and holds no other '.' |
| Validators.FileExtensionIsSuffix | app/utils/validators.py:104 | the computed extension is a given one exactly when the name ends with it, ignoring case |
| Validators.ValidateImageFileSpec | app/utils/validators.py:103-107 | a file passes exactly when its name ends, in any letter case, with an allowed extension |
| Validators.ImageFileAccepted | app/utils/validators.py:103-107 | "a.JPG" and "x.tar.png" pass |
| Validators.ImageFileRefused | app/utils/validators.py:103-107 | "noext" and "a." are refused |
| Markdown.Escaped | app/utils/helpers.py:159-162 | the escaped text is never shorter than the input |
| Markdown.EscapeChar | app/utils/helpers.py:161 | `replace` with an escaped character never shortens the text |
| Markdown.EscapeStep | app/utils/helpers.py:160-161 | escaping one more character over already-escaped text is the one-pass escape for one more character: the passes do not interfere |
| Markdown.EscapeMarkdown | app/utils/helpers.py:159-162 | the loop of replacements puts one backslash before each special character and changes nothing else |
| Markdown.EscapedLength | app/utils/helpers.py:159-162 | the escaped text is longer by the number of special characters |
| Markdown.UnescapeEscaped | app/utils/helpers.py:159-162 | removing the backslash before each escaped character restores the text |
| Markdown.EscapeMarkdownRoundTrip | app/utils/helpers.py:159-162 | the same two facts for the eighteen characters `escape_markdown` uses |
| Masking.Obscure | app/utils/helpers.py:208 | a long secret keeps its length and its first and last two characters, and every other character is '*' |
| Masking.IsSensitiveKey | app/utils/helpers.py:203-206 | a sensitive key has at least three characters, since the shortest marker is `'key'` |
| Masking.MaskValue | app/utils/helpers.py:205-210 | a non-sensitive value is kept; a sensitive string longer than four keeps its length and its first and last two characters with '*' between; any other sensitive value is `'***'` |
| Masking.Masked | app/utils/helpers.py:201-213 | the same keys; non-sensitive entries unchanged; a sensitive string longer than four becomes its obscured form, any other sensitive value `'***'` |
| Masking.MaskSensitiveData | app/utils/helpers.py:201-213 | the loop over the copy leaves exactly the masked dict |
| Masking.ShowsAtMostFour | app/utils/helpers.py:207-208 | a masked long secret shows at most four of its characters |
| Masking.ApiKeyRedundant | app/utils/helpers.py:203-206 | `'api_key'` in the list changes no verdict, because each key containing it contains `'key'` |
| Masking.CaseInsensitiveKeys | app/utils/helpers.py:206 | a key's sensitivity does not depend on its letter case |

## Left out

- **The OCR engine.** Image preprocessing, PaddleOCR and the API and
  database glue are left out, because they are I/O. The model starts from
  the OCR text.
- **The store catalog query.** It is a parameter. The seed catalog is
  ordered by `store_name` ascending, so SORIAN comes before SORIANA.
- **The similarity ratio.** `difflib`'s `SequenceMatcher.ratio` is a
  parameter. Its value is never computed.
- **Floats.** Totals and subtotals are exact cents. Floating-point rounding,
  NaN and infinity are not modelled; the validators' numbers are `real`.
- **Unicode.** `str.upper`, `str.lower`, `\d` and `\w` act on ASCII only.
  Python applies them to all of Unicode, so keys and filenames with
  non-ASCII letters are not modelled.
- **Non-string dates.** The `date` and `datetime` branches of `parse_date`
  are not modelled; only strings are.
- **Formats.** Directives other than `%Y`, `%m` and `%d` are not modelled,
  because no core format uses them.
- **Other helpers.** `clean_image`, `generate_secure_filename`,
  `format_currency`, `format_tax`, `delete_file`, `format_log_json`,
  `get_upload_path`, `calculate_tax_from_total`,
  `calculate_total_from_subtotal`, `clean_ocr_text`,
  `extract_phone_numbers`, `extract_emails` and `create_response` are
  outside this core.
- **Receipt.ParseReceiptText:** its total, subtotal, date and concept steps
  are separate methods, `ScanTotal`, `ScanSubtotal`, `ScanPaymentDate` and
  `ScanConcept`; the fallback-concept loop is `ScanFallbackConcept`. This
  keeps each proof small; the order of the steps is unchanged.
- **Validators.ValidateExpenseData:** its amounts loop and its category and
  note blocks are separate methods, `CheckAmounts` and `CheckText`, for the
  same reason.
- **AmountPatterns.ExtractAmountFromLines:** the keyword is matched as
  literal text, ignoring case, not compiled as a regular expression. This is
  the same for the only keywords the parser passes, `total` and `subtotal`,
  which hold no regular-expression metacharacters.
- **Validators.ValidateImageFile:** `max_size_mb` is accepted and, as in the
  source, never consulted.
- **Masking.MaskSensitiveData:** it visits the keys in an unspecified order,
  not Python's insertion order. Each key is updated once from its own value,
  so the order does not change the result.

## Findings

| source | as written | input that shows it | evidently intended | confidence | as-written member | corrected member |
|---|---|---|---|---|---|---|
| app/utils/validators.py:74 | the fourth format is `'%d-m-%Y'`, with a literal `m` | `"05-11-2024"` is rejected, while `parse_date` reads it as 5 November 2024; `"05-m-2024"` is accepted | `'%d-%m-%Y'`, the fourth format of `parse_date` | not executed | Validators.DashedDatesRejected | Validators.ValidateDateStringIntended |
