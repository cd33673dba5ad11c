/**
 * `OCRService._parse_receipt_text`: from the OCR text of a receipt to the
 * five fields the expense form is pre-filled with.  The store catalog that
 * `StoreCategoryService.get_all_store_categories()` reads from the database
 * is a parameter (its rows as (store name, category) pairs), and so is
 * difflib's similarity ratio.
 */
module Receipt {
  import opened Wrappers
  import opened Text
  import Scans
  import Money
  import AmountPatterns
  import DateCapture
  import Stores

  /** The dict `_parse_receipt_text` returns; None stands for a Python `None`. */
  datatype ExtractedReceipt = ExtractedReceipt(
    paymentConcept: Option<string>,
    category: Option<string>,
    total: Option<Money.Cents>,
    subtotal: Option<Money.Cents>,
    paymentDate: Option<string>)

  /** The stripped line, when it is longer than two characters: a fallback payment concept. */
  function ConceptCandidate(line: string): (r: Option<string>)
    ensures r.Some? ==> |r.value| > 2 && r.value == Strip(line)
  {
    var t := Strip(line);
    if |t| > 0 && |t| > 2 then Some(t) else None
  }

  /** The payment concept used when no store is recognised. */
  function FallbackConcept(lines: seq<string>): (r: Option<string>)
    ensures r.Some? ==> |r.value| > 2
  {
    Scans.FirstPresentSpec(Stores.Leading(lines), ConceptCandidate);
    Scans.FirstPresent(Stores.Leading(lines), ConceptCandidate)
  }

  /** A store match both of whose parts are non-empty, as `if store_keyword and category` demands. */
  predicate TruthyMatch(hit: Option<(string, string)>) {
    hit.Some? && |hit.value.0| > 0 && |hit.value.1| > 0
  }

  /** The amount a keyword-anchored capture gives, falling back to `otherwise`. */
  function AnchoredOr(capture: Option<string>, otherwise: Option<Money.Cents>): Option<Money.Cents> {
    if capture.Some? && Money.CaptureCents(capture.value).Some? then Money.CaptureCents(capture.value) else otherwise
  }

  /** `data['total']`: the keyword-anchored value, else the highest amount. */
  function TotalOf(lines: seq<string>): Option<Money.Cents> {
    AnchoredOr(AmountPatterns.AnchoredAmount(lines, "total", AmountPatterns.TotalPatterns), Money.HighestAmount(lines))
  }

  /** `data['subtotal']`: the keyword-anchored value only. */
  function SubtotalOf(lines: seq<string>): Option<Money.Cents> {
    AnchoredOr(AmountPatterns.AnchoredAmount(lines, "subtotal", AmountPatterns.SubtotalPatterns), None)
  }

  /**
   * `data['payment_concept']` and `data['category']` given the store match:
   * the match when both its parts are non-empty, else the fallback concept
   * and no category.
   */
  function ConceptFields(hit: Option<(string, string)>, lines: seq<string>): (Option<string>, Option<string>) {
    if TruthyMatch(hit) then (Some(hit.value.0), Some(hit.value.1)) else (FallbackConcept(lines), None)
  }

  /** The store match `_parse_receipt_text` computes from the catalog rows. */
  function ReceiptStore(lines: seq<string>, storeCategories: Stores.Catalog, similarity: (string, string) -> real)
    : Option<(string, string)>
  {
    Stores.StoreMatch(lines, Stores.DictFromPairs(storeCategories), similarity)
  }

  /** The fields extracted from the lines of a receipt. */
  function ReceiptFromLines(lines: seq<string>, storeCategories: Stores.Catalog, similarity: (string, string) -> real)
    : ExtractedReceipt
  {
    var (concept, category) := ConceptFields(ReceiptStore(lines, storeCategories, similarity), lines);
    ExtractedReceipt(concept, category, TotalOf(lines), SubtotalOf(lines), DateCapture.LastDate(lines))
  }

  /**
   * What `_parse_receipt_text(text)` returns: the fields extracted from
   * `text.split('\n')`.  A category only comes with a concept, a concept is
   * never empty, and a date has the shape of one of the two date patterns.
   */
  function ParseReceipt(text: string, storeCategories: Stores.Catalog, similarity: (string, string) -> real)
    : (r: ExtractedReceipt)
    ensures r.category.Some? ==> r.paymentConcept.Some? && |r.category.value| > 0
    ensures r.paymentConcept.Some? ==> |r.paymentConcept.value| > 0
    ensures r.paymentDate.Some? ==>
              DateCapture.DateText(DateCapture.NumericDate, r.paymentDate.value)
              || DateCapture.DateText(DateCapture.TextualDate, r.paymentDate.value)
  {
    ReceiptFromLines(Split(text, '\n'), storeCategories, similarity)
  }

  /**
   * `_parse_receipt_text(text)`: the highest amount is the provisional
   * total, a keyword-anchored total replaces it, the subtotal is anchored
   * only, the date comes from the last line that has one, and the store
   * match or else the first long enough leading line gives the concept.
   */
  method ParseReceiptText(text: string, storeCategories: Stores.Catalog, similarity: (string, string) -> real)
    returns (data: ExtractedReceipt)
    ensures data == ParseReceipt(text, storeCategories, similarity)
  {
    var lines := Split(text, '\n');
    var total := ScanTotal(lines);
    var subtotal := ScanSubtotal(lines);
    var paymentDate := ScanPaymentDate(lines);
    var paymentConcept, category := ScanConcept(lines, storeCategories, similarity);
    data := ExtractedReceipt(paymentConcept, category, total, subtotal, paymentDate);
  }

  /** The total block: the highest amount, replaced by a keyword-anchored one that converts. */
  method ScanTotal(lines: seq<string>) returns (total: Option<Money.Cents>)
    ensures total == TotalOf(lines)
  {
    total := None;
    var highestTotal := Money.ExtractHighestAmount(lines, AmountPatterns.TotalPatterns);
    if highestTotal.Some? {
      total := highestTotal;
    }
    var anchoredTotal := AmountPatterns.ExtractAmountFromLines(lines, "total", AmountPatterns.TotalPatterns);
    if anchoredTotal.Some? {
      var value := Money.CaptureCents(anchoredTotal.value);
      if value.Some? {
        total := value;
      }
    }
  }

  /** The subtotal block: a keyword-anchored amount that converts, else nothing. */
  method ScanSubtotal(lines: seq<string>) returns (subtotal: Option<Money.Cents>)
    ensures subtotal == SubtotalOf(lines)
  {
    subtotal := None;
    var anchoredSubtotal := AmountPatterns.ExtractAmountFromLines(lines, "subtotal", AmountPatterns.SubtotalPatterns);
    if anchoredSubtotal.Some? {
      var value := Money.CaptureCents(anchoredSubtotal.value);
      if value.Some? {
        subtotal := value;
      }
    }
  }

  /** The store block: a store match with both parts non-empty, else the fallback concept. */
  method ScanConcept(lines: seq<string>, storeCategories: Stores.Catalog, similarity: (string, string) -> real)
    returns (paymentConcept: Option<string>, category: Option<string>)
    ensures (paymentConcept, category) == ConceptFields(ReceiptStore(lines, storeCategories, similarity), lines)
  {
    paymentConcept, category := None, None;
    var storeCategoriesDict := Stores.DictFromPairs(storeCategories);
    var hit := Stores.MatchStore(lines, storeCategoriesDict, similarity);
    if hit.Some? && |hit.value.0| > 0 && |hit.value.1| > 0 {
      paymentConcept := Some(hit.value.0);
      category := Some(hit.value.1);
    } else if |lines| > 0 {
      paymentConcept := ScanFallbackConcept(lines);
    }
  }

  /**
   * The date loop of `_parse_receipt_text`: on every line the numeric
   * pattern, then the textual one, is searched, and a match overwrites the
   * date found so far.
   */
  method ScanPaymentDate(lines: seq<string>) returns (paymentDate: Option<string>)
    ensures paymentDate == DateCapture.LastDate(lines)
  {
    paymentDate := None;
    for i := 0 to |lines|
      invariant paymentDate == DateCapture.LastDate(lines[..i])
    {
      var m := ScanLineDate(lines[i]);
      if m.Some? {
        paymentDate := m;
      }
      assert lines[..i + 1][..i] == lines[..i];
      assert lines[..i + 1][i] == lines[i];
    }
    assert lines[..|lines|] == lines;
  }

  /** The pattern loop of one line: the first date pattern that matches gives the line's date. */
  method ScanLineDate(line: string) returns (m: Option<string>)
    ensures m == DateCapture.LineDate(line)
  {
    for j := 0 to |DateCapture.DatePatterns|
      invariant DateCapture.LineDate(line) == DateCapture.FirstDateMatch(line, DateCapture.DatePatterns[j..])
    {
      ghost var rest := DateCapture.DatePatterns[j..];
      assert rest[0] == DateCapture.DatePatterns[j] && rest[1..] == DateCapture.DatePatterns[j + 1..];
      var found := DateCapture.DateSearch(DateCapture.DatePatterns[j], line);
      if found.Some? {
        return found;
      }
    }
    m := None;
  }

  /** The fallback loop: the first of the first five lines, stripped, that is longer than two characters. */
  method ScanFallbackConcept(lines: seq<string>) returns (paymentConcept: Option<string>)
    ensures paymentConcept == FallbackConcept(lines)
  {
    var first := Stores.Leading(lines);
    for i := 0 to |first|
      invariant FallbackConcept(lines) == Scans.FirstPresent(first[i..], ConceptCandidate)
    {
      ghost var rest := first[i..];
      assert rest[0] == first[i] && rest[1..] == first[i + 1..];
      var line := Strip(first[i]);
      if |line| > 0 && |line| > 2 {
        assert ConceptCandidate(rest[0]) == Some(line);
        return Some(line);
      }
      assert ConceptCandidate(rest[0]).None?;
    }
    return None;
  }

  /** The value of the capture a line's first matching pattern gives. */
  function CaptureValue(line: string, pats: seq<AmountPatterns.Pattern>): Option<Money.Cents> {
    match AmountPatterns.FirstCapture(line, pats)
    case Some((_, c)) => Money.CaptureCents(c)
    case None => None
  }

  /**
   * The total is the value on the earliest line that contains "total" (in
   * any case) and is matched by a total pattern, whatever the other lines
   * hold.
   */
  lemma AnchoredTotalWins(lines: seq<string>, i: nat)
    requires i < |lines| && AmountPatterns.Qualifies(lines[i], "total", AmountPatterns.TotalPatterns)
    requires forall j :: 0 <= j < i ==> !AmountPatterns.Qualifies(lines[j], "total", AmountPatterns.TotalPatterns)
    ensures TotalOf(lines).Some? && TotalOf(lines) == CaptureValue(lines[i], AmountPatterns.TotalPatterns)
  {
    var pats := AmountPatterns.TotalPatterns;
    var anchored := AmountPatterns.AnchoredAmount(lines, "total", pats);
    AmountPatterns.AnchoredAmountSpec(lines, "total", pats);
    var i' :| 0 <= i' < |lines| && AmountPatterns.Qualifies(lines[i'], "total", pats)
              && anchored == Some(AmountPatterns.FirstCapture(lines[i'], pats).value.1)
              && forall j :: 0 <= j < i' ==> !AmountPatterns.Qualifies(lines[j], "total", pats);
    assert i' == i;
    Money.CaptureNeverFails(anchored.value);
  }

  /**
   * Without such a line the total is the highest first amount over all
   * lines: the value of some line's first amount and no smaller than any;
   * it is absent exactly when no line has an amount.
   */
  lemma HighestTotalFallback(lines: seq<string>)
    requires forall i :: 0 <= i < |lines| ==> !AmountPatterns.Qualifies(lines[i], "total", AmountPatterns.TotalPatterns)
    ensures TotalOf(lines).None? <==> forall i :: 0 <= i < |lines| ==> Money.LineValue(lines[i]).None?
    ensures TotalOf(lines).Some? ==> exists i :: 0 <= i < |lines| && Money.LineValue(lines[i]) == TotalOf(lines)
    ensures forall i :: 0 <= i < |lines| && Money.LineValue(lines[i]).Some? ==>
              TotalOf(lines).Some? && Money.LineValue(lines[i]).value <= TotalOf(lines).value
  {
    AmountPatterns.AnchoredAmountSpec(lines, "total", AmountPatterns.TotalPatterns);
    Money.HighestAmountIsMax(lines);
    forall i | 0 <= i < |lines| ensures Money.LineValue(lines[i]).None? <==> Money.FirstMoney(lines[i]).None? {
      Money.LineValueIffToken(lines[i]);
    }
  }

  /**
   * There is no fallback for the subtotal: it is present exactly when some
   * line contains "subtotal" and is matched by a subtotal pattern, and then
   * it is the value on the earliest such line.
   */
  lemma SubtotalAnchoredOnly(lines: seq<string>)
    ensures var subtotal, pats := SubtotalOf(lines), AmountPatterns.SubtotalPatterns;
      && (subtotal.None? <==> forall i :: 0 <= i < |lines| ==> !AmountPatterns.Qualifies(lines[i], "subtotal", pats))
      && (subtotal.Some? ==> exists i :: 0 <= i < |lines| && AmountPatterns.Qualifies(lines[i], "subtotal", pats)
                               && subtotal == CaptureValue(lines[i], pats)
                               && forall j :: 0 <= j < i ==> !AmountPatterns.Qualifies(lines[j], "subtotal", pats))
  {
    var anchored := AmountPatterns.AnchoredAmount(lines, "subtotal", AmountPatterns.SubtotalPatterns);
    AmountPatterns.AnchoredAmountSpec(lines, "subtotal", AmountPatterns.SubtotalPatterns);
    if anchored.Some? {
      Money.CaptureNeverFails(anchored.value);
    }
  }

  /** The position in the catalog of the item `match_store` returns. */
  lemma CatalogIndexOfMatch(lines: seq<string>, d: Stores.Catalog, similarity: (string, string) -> real) returns (k: nat)
    requires Stores.StoreMatch(lines, d, similarity).Some?
    ensures k < |d| && Stores.StoreMatch(lines, d, similarity).value == (Strip(d[k].0), d[k].1)
  {
    Stores.StoreMatchFromCatalog(lines, d, similarity);
    k :| 0 <= k < |d| && Stores.StoreMatch(lines, d, similarity).value == (Strip(d[k].0), d[k].1);
  }

  /**
   * A recognised store gives the payment concept and the category: the
   * concept is a catalog store name, stripped, not the text of the receipt,
   * and the category is the one that name has in the catalog.
   */
  lemma StoreGivesConcept(lines: seq<string>, storeCategories: Stores.Catalog, similarity: (string, string) -> real)
    requires TruthyMatch(ReceiptStore(lines, storeCategories, similarity))
    ensures var (concept, category) := ConceptFields(ReceiptStore(lines, storeCategories, similarity), lines);
      concept.Some? && category.Some?
      && exists i :: 0 <= i < |storeCategories| && concept.value == Strip(storeCategories[i].0)
                     && category.value == storeCategories[i].1
  {
    var d := Stores.DictFromPairs(storeCategories);
    var hit := Stores.StoreMatch(lines, d, similarity);
    var k := CatalogIndexOfMatch(lines, d, similarity);
    Stores.DictFromPairsValues(storeCategories);
    assert Stores.IsLastWithKey(storeCategories, d[k]);
    var j :| 0 <= j < |storeCategories| && storeCategories[j] == d[k];
    assert hit.value == (Strip(storeCategories[j].0), storeCategories[j].1);
  }

  /**
   * Without a recognised store the category stays absent and the concept is
   * the first of the first five lines whose stripped text is longer than two
   * characters, stripped; it is absent when there is no such line.
   */
  lemma FallbackGivesConcept(hit: Option<(string, string)>, lines: seq<string>)
    requires !TruthyMatch(hit)
    ensures var (concept, category) := ConceptFields(hit, lines);
      && category.None?
      && (concept.None? <==> forall i :: 0 <= i < |lines| && i < Stores.StoreLines ==> |Strip(lines[i])| <= 2)
      && (concept.Some? ==>
            exists i :: 0 <= i < |lines| && i < Stores.StoreLines && concept.value == Strip(lines[i])
              && |Strip(lines[i])| > 2 && forall j :: 0 <= j < i ==> |Strip(lines[j])| <= 2)
  {
    var first := Stores.Leading(lines);
    Scans.FirstPresentSpec(first, ConceptCandidate);
    assert forall i :: 0 <= i < |first| ==> first[i] == lines[i];
  }

  /**
   * `text.split('\n')` is where the lines come from: a receipt given as its
   * lines joined by newlines is parsed from exactly those lines.
   */
  lemma ParseJoinedLines(lines: seq<string>, storeCategories: Stores.Catalog, similarity: (string, string) -> real)
    requires |lines| >= 1 && forall i :: 0 <= i < |lines| ==> '\n' !in lines[i]
    ensures ParseReceipt(Join(lines, '\n'), storeCategories, similarity) == ReceiptFromLines(lines, storeCategories, similarity)
  {
    SplitJoin(lines, '\n');
  }

  /**
   * Empty OCR text yields no field at all, for any catalog, provided the
   * similarity of a non-empty name to the empty line is below the cutoff
   * (difflib's ratio is 0 there).
   */
  lemma EmptyText(storeCategories: Stores.Catalog, similarity: (string, string) -> real)
    requires forall k :: |k| > 0 ==> similarity(k, "") < Stores.Cutoff
    ensures ParseReceipt("", storeCategories, similarity) == ExtractedReceipt(None, None, None, None, None)
  {
    var lines := Split("", '\n');
    assert lines == [""];
    EmptyLineStore(storeCategories, similarity);
    EmptyLineConcept();
    assert ConceptFields(ReceiptStore(lines, storeCategories, similarity), lines) == (None, None);
    EmptyLineFields();
  }

  /** A single empty line matches no store with a non-empty name. */
  lemma EmptyLineStore(storeCategories: Stores.Catalog, similarity: (string, string) -> real)
    requires forall k :: |k| > 0 ==> similarity(k, "") < Stores.Cutoff
    ensures !TruthyMatch(ReceiptStore([""], storeCategories, similarity))
  {
    var catalog := Stores.DictFromPairs(storeCategories);
    if Stores.StoreMatch([""], catalog, similarity).Some? {
      var i := Stores.StoreMatchLine([""], catalog, similarity);
      EmptyLineHit(Stores.StrippedKeywords(catalog), similarity);
    }
  }

  /** A single empty line is too short to be the fallback concept. */
  lemma EmptyLineConcept()
    ensures FallbackConcept([""]).None?
  {
    assert Strip("") == "";
    assert Stores.Leading([""]) == [""];
    assert [""][1..] == [];
  }

  /** A single empty line has no amount, no anchored amount and no date. */
  lemma EmptyLineFields()
    ensures TotalOf([""]).None? && SubtotalOf([""]).None? && DateCapture.LastDate([""]).None?
  {
    var lines := [""];
    assert Money.FirstMoney("").None?;
    assert Money.HighestAmount(lines) == Money.Max2(Money.HighestAmount([]), Money.LineValue(""));
    assert !ContainsCI("", "total") && !ContainsCI("", "subtotal");
    assert AmountPatterns.AnchoredAmount(lines, "total", AmountPatterns.TotalPatterns).None?;
    assert AmountPatterns.AnchoredAmount(lines, "subtotal", AmountPatterns.SubtotalPatterns).None?;
    DateCapture.LineDateOrder("");
  }

  /** On an empty line only an empty name can be found, which is not a truthy match. */
  lemma EmptyLineHit(keywords: Stores.Catalog, similarity: (string, string) -> real)
    requires forall k :: |k| > 0 ==> similarity(k, "") < Stores.Cutoff
    ensures !TruthyMatch(Stores.LineHit("", keywords, similarity))
  {
    assert Strip(Upper("")) == "" && Upper("") == "";
    var exact := Stores.ExactHitFrom(keywords, "", 0);
    if exact.Some? {
      assert |exact.value.0| == 0;
    } else {
      assert Stores.FuzzyStoreMatching("", keywords, similarity).None?;
    }
  }
}
