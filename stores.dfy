/**
 * Store recognition on the first lines of a receipt: `fuzzy_store_matching`
 * and `match_store`.  The catalog is a dict from store name to category,
 * given as its (name, category) pairs in iteration order.  difflib's
 * `SequenceMatcher(None, name, line).ratio()` is the parameter `similarity`,
 * applied as `similarity(name, line)`.
 */
module Stores {
  import opened Wrappers
  import opened Text
  import Scans

  /** A dict from store name to category, as its items in iteration order. */
  type Catalog = seq<(string, string)>

  /** The `cutoff` of `fuzzy_store_matching`. */
  const Cutoff: real := 0.8

  /** How many leading lines `match_store` looks at. */
  const StoreLines: nat := 5

  predicate HasKey(d: Catalog, k: string) {
    exists i :: 0 <= i < |d| && d[i].0 == k
  }

  predicate UniqueKeys(d: Catalog) {
    forall i, j :: 0 <= i < j < |d| ==> d[i].0 != d[j].0
  }

  /** `d[k] = v`: overwrites the value in place when k is present, appends otherwise. */
  function DictSet(d: Catalog, k: string, v: string): (r: Catalog)
    requires UniqueKeys(d)
    ensures UniqueKeys(r)
    ensures |r| == if HasKey(d, k) then |d| else |d| + 1
    ensures forall i :: 0 <= i < |d| ==> r[i] == if d[i].0 == k then (k, v) else d[i]
    ensures |r| > |d| ==> r[|d|] == (k, v)
  {
    if HasKey(d, k) then seq(|d|, i requires 0 <= i < |d| => if d[i].0 == k then (k, v) else d[i])
    else d + [(k, v)]
  }

  /** `{k: v for k, v in pairs}`. */
  function DictFromPairs(pairs: Catalog): (r: Catalog)
    ensures UniqueKeys(r)
    decreases |pairs|
  {
    if |pairs| == 0 then []
    else
      var last := pairs[|pairs| - 1];
      DictSet(DictFromPairs(pairs[..|pairs| - 1]), last.0, last.1)
  }

  /** The dict has exactly the keys of the pairs. */
  lemma {:induction false} DictFromPairsKeys(pairs: Catalog)
    ensures forall k :: HasKey(DictFromPairs(pairs), k) <==> HasKey(pairs, k)
    decreases |pairs|
  {
    if |pairs| > 0 {
      var n := |pairs| - 1;
      var last := pairs[n];
      DictFromPairsKeys(pairs[..n]);
      DictSetKeys(DictFromPairs(pairs[..n]), last.0, last.1);
      SnocKeys(pairs);
    }
  }

  /** Setting a key adds it to the keys and keeps all others. */
  lemma DictSetKeys(d: Catalog, key: string, v: string)
    requires UniqueKeys(d)
    ensures forall k :: HasKey(DictSet(d, key, v), k) <==> HasKey(d, k) || k == key
  {
    var r := DictSet(d, key, v);
    forall k | HasKey(d, k) || k == key ensures HasKey(r, k) {
      if HasKey(d, k) {
        var i :| 0 <= i < |d| && d[i].0 == k;
        assert r[i].0 == k;
      } else {
        assert r[|d|].0 == k;
      }
    }
    forall k | HasKey(r, k) ensures HasKey(d, k) || k == key {
      var i :| 0 <= i < |r| && r[i].0 == k;
      if i < |d| && k != key {
        assert d[i].0 == k;
      }
    }
  }

  /** The keys of a non-empty list of pairs are those before the last pair, and the last one's. */
  lemma SnocKeys(pairs: Catalog)
    requires |pairs| > 0
    ensures forall k :: HasKey(pairs, k) <==> HasKey(pairs[..|pairs| - 1], k) || k == pairs[|pairs| - 1].0
  {
    var n := |pairs| - 1;
    var init := pairs[..n];
    forall k | HasKey(pairs, k) ensures HasKey(init, k) || k == pairs[n].0 {
      var j :| 0 <= j < |pairs| && pairs[j].0 == k;
      if j < n {
        assert init[j].0 == k;
      }
    }
    forall k | HasKey(init, k) ensures HasKey(pairs, k) {
      var j :| 0 <= j < |init| && init[j].0 == k;
      assert pairs[j].0 == k;
    }
    assert HasKey(pairs, pairs[n].0) by {
      assert pairs[n].0 == pairs[n].0;
    }
  }

  /** p is the last of the pairs with its key. */
  predicate IsLastWithKey(pairs: Catalog, p: (string, string)) {
    exists j :: 0 <= j < |pairs| && pairs[j] == p && forall j' :: j < j' < |pairs| ==> pairs[j'].0 != p.0
  }

  /** Each key of the dict maps to the value of the last pair with that key. */
  lemma {:induction false} DictFromPairsValues(pairs: Catalog)
    ensures forall i :: 0 <= i < |DictFromPairs(pairs)| ==> IsLastWithKey(pairs, DictFromPairs(pairs)[i])
    decreases |pairs|
  {
    if |pairs| > 0 {
      var n := |pairs| - 1;
      var init := pairs[..n];
      var last := pairs[n];
      var d := DictFromPairs(init);
      var r := DictFromPairs(pairs);
      DictFromPairsValues(init);
      assert r == DictSet(d, last.0, last.1);
      assert forall j' :: 0 <= j' < n ==> init[j'] == pairs[j'];
      forall i | 0 <= i < |r| ensures IsLastWithKey(pairs, r[i]) {
        if i < |d| && d[i].0 != last.0 {
          assert IsLastWithKey(init, d[i]);
          var j :| 0 <= j < |init| && init[j] == d[i]
                   && forall j' :: j < j' < |init| ==> init[j'].0 != d[i].0;
          assert pairs[j] == r[i];
          assert forall j' :: j < j' < |pairs| ==> pairs[j'].0 != pairs[j].0;
        } else if i < |d| {
          assert r[i] == last == pairs[n];
        } else {
          assert r[|d|] == last == pairs[n];
        }
      }
    }
  }

  /** A comprehension over pairs whose keys are already distinct changes nothing. */
  lemma {:induction false} DictFromDistinctPairs(pairs: Catalog)
    requires UniqueKeys(pairs)
    ensures DictFromPairs(pairs) == pairs
    decreases |pairs|
  {
    if |pairs| > 0 {
      var n := |pairs| - 1;
      var init := pairs[..n];
      DictFromDistinctPairs(init);
      assert !HasKey(init, pairs[n].0);
      assert DictFromPairs(pairs) == init + [pairs[n]];
    }
  }

  /** `{k.strip(): v for k, v in store_keywords.items()}` before it is collected into a dict. */
  function StripKeys(d: Catalog): (r: Catalog)
    ensures |r| == |d| && forall i :: 0 <= i < |d| ==> r[i] == (Strip(d[i].0), d[i].1)
  {
    seq(|d|, i requires 0 <= i < |d| => (Strip(d[i].0), d[i].1))
  }

  /** The first key of d[j..], in iteration order, that occurs in line. */
  function ExactHitFrom(d: Catalog, line: string, j: nat): (r: Option<(string, string)>)
    requires j <= |d|
    ensures r.None? <==> forall i :: j <= i < |d| ==> !Contains(line, d[i].0)
    ensures r.Some? ==> exists i :: j <= i < |d| && r.value == d[i] && Contains(line, d[i].0)
                          && forall i' :: j <= i' < i ==> !Contains(line, d[i'].0)
    decreases |d| - j
  {
    if j == |d| then None
    else if Contains(line, d[j].0) then Some(d[j])
    else ExactHitFrom(d, line, j + 1)
  }

  /**
   * The `(score, key)` order `heapq.nlargest` ranks candidates by: a higher
   * score, or the same score and a larger key.
   */
  predicate Outranks(sa: real, a: string, sb: real, b: string) {
    sa > sb || (sa == sb && LexLess(b, a))
  }

  /**
   * The best-ranked item of d[j..] whose key scores at least the cutoff
   * against word: `get_close_matches(word, keys, n=1, cutoff=0.8)`.
   */
  function BestMatchFrom(d: Catalog, word: string, similarity: (string, string) -> real, j: nat)
    : (r: Option<(string, string)>)
    requires j <= |d|
    ensures r.None? <==> forall i :: j <= i < |d| ==> similarity(d[i].0, word) < Cutoff
    ensures r.Some? ==> (exists i :: j <= i < |d| && d[i] == r.value) && similarity(r.value.0, word) >= Cutoff
    ensures r.Some? ==>
              forall i :: j <= i < |d| && similarity(d[i].0, word) >= Cutoff && d[i].0 != r.value.0 ==>
                Outranks(similarity(r.value.0, word), r.value.0, similarity(d[i].0, word), d[i].0)
    decreases |d| - j
  {
    if j == |d| then None
    else
      var rest := BestMatchFrom(d, word, similarity, j + 1);
      var score := similarity(d[j].0, word);
      if score < Cutoff then rest
      else if rest.None? then Some(d[j])
      else
        var best := rest.value;
        if Outranks(score, d[j].0, similarity(best.0, word), best.0) then
          OutranksTransitive(d, word, similarity, j, best);
          Some(d[j])
        else if d[j].0 != best.0 then
          OutranksTotal(score, d[j].0, similarity(best.0, word), best.0);
          rest
        else rest
  }

  /** A candidate that outranks the best of the rest outranks all of the rest. */
  lemma OutranksTransitive(d: Catalog, word: string, similarity: (string, string) -> real, j: nat, best: (string, string))
    requires j < |d|
    requires Outranks(similarity(d[j].0, word), d[j].0, similarity(best.0, word), best.0)
    requires forall i :: j < i < |d| && similarity(d[i].0, word) >= Cutoff && d[i].0 != best.0 ==>
               Outranks(similarity(best.0, word), best.0, similarity(d[i].0, word), d[i].0)
    ensures forall i :: j < i < |d| && similarity(d[i].0, word) >= Cutoff && d[i].0 != d[j].0 ==>
              Outranks(similarity(d[j].0, word), d[j].0, similarity(d[i].0, word), d[i].0)
  {
    forall i | j < i < |d| && similarity(d[i].0, word) >= Cutoff && d[i].0 != d[j].0
      ensures Outranks(similarity(d[j].0, word), d[j].0, similarity(d[i].0, word), d[i].0)
    {
      if d[i].0 != best.0 && similarity(d[j].0, word) == similarity(best.0, word)
         && similarity(best.0, word) == similarity(d[i].0, word) {
        LexLessTransitive(d[i].0, best.0, d[j].0);
      }
    }
  }

  /** Of two different keys, one outranks the other. */
  lemma OutranksTotal(sa: real, a: string, sb: real, b: string)
    requires a != b && !Outranks(sa, a, sb, b)
    ensures Outranks(sb, b, sa, a)
  {
    if sa == sb {
      LexLessTotal(a, b);
    }
  }

  /**
   * `fuzzy_store_matching(line, store_dict)`: a catalog item whose key scores
   * at least 0.8 against the uppercased line and outranks every other key
   * that does, together with that key's category; nothing exactly when no
   * key reaches 0.8.
   */
  function FuzzyStoreMatching(line: string, storeDict: Catalog, similarity: (string, string) -> real)
    : (r: Option<(string, string)>)
    ensures r.None? <==> forall i :: 0 <= i < |storeDict| ==> similarity(storeDict[i].0, Upper(line)) < Cutoff
    ensures r.Some? ==> (exists i :: 0 <= i < |storeDict| && storeDict[i] == r.value)
                        && similarity(r.value.0, Upper(line)) >= Cutoff
    ensures r.Some? ==>
              forall i :: 0 <= i < |storeDict| && similarity(storeDict[i].0, Upper(line)) >= Cutoff
                          && storeDict[i].0 != r.value.0 ==>
                Outranks(similarity(r.value.0, Upper(line)), r.value.0, similarity(storeDict[i].0, Upper(line)), storeDict[i].0)
  {
    BestMatchFrom(storeDict, Upper(line), similarity, 0)
  }

  /**
   * One pass of `match_store`'s loop: an item of the dict whose key occurs
   * in the stripped, uppercased line, or a fuzzy match with a non-empty key;
   * nothing only when no key occurs, and always when no key occurs and none
   * scores 0.8.
   */
  function LineHit(line: string, keywords: Catalog, similarity: (string, string) -> real): (r: Option<(string, string)>)
    ensures r.Some? ==> (exists i :: 0 <= i < |keywords| && keywords[i] == r.value)
    ensures r.Some? ==> Contains(Strip(Upper(line)), r.value.0)
                        || (|r.value.0| > 0 && similarity(r.value.0, Upper(Strip(Upper(line)))) >= Cutoff)
    ensures r.None? ==> forall i :: 0 <= i < |keywords| ==> !Contains(Strip(Upper(line)), keywords[i].0)
    ensures (forall i :: 0 <= i < |keywords| ==>
               !Contains(Strip(Upper(line)), keywords[i].0) && similarity(keywords[i].0, Upper(Strip(Upper(line)))) < Cutoff)
            ==> r.None?
  {
    var upperLine := Strip(Upper(line));
    var exact := ExactHitFrom(keywords, upperLine, 0);
    if exact.Some? then exact
    else
      var fuzzy := FuzzyStoreMatching(upperLine, keywords, similarity);
      if fuzzy.Some? && |fuzzy.value.0| > 0 then fuzzy else None
  }

  /** `LineHit` for a fixed keyword dict, as a function of the line. */
  function LineHitWith(keywords: Catalog, similarity: (string, string) -> real): string -> Option<(string, string)> {
    line => LineHit(line, keywords, similarity)
  }

  /** `lines[:5]` */
  function Leading(lines: seq<string>): (r: seq<string>)
    ensures |r| <= StoreLines && r <= lines
    ensures |lines| >= StoreLines ==> |r| == StoreLines
  {
    if |lines| <= StoreLines then lines else lines[..StoreLines]
  }

  /** The keyword dict `match_store` builds from its argument. */
  function StrippedKeywords(storeKeywords: Catalog): Catalog {
    DictFromPairs(StripKeys(storeKeywords))
  }

  /** What `match_store(lines, store_keywords)` returns, None standing for `(None, None)`. */
  function StoreMatch(lines: seq<string>, storeKeywords: Catalog, similarity: (string, string) -> real)
    : Option<(string, string)>
  {
    Scans.FirstPresent(Leading(lines), LineHitWith(StrippedKeywords(storeKeywords), similarity))
  }

  /**
   * `match_store`: for each of the first five lines, uppercased and
   * stripped, the first stripped key that occurs in it, else the fuzzy
   * match when its key is non-empty; the first line with either decides.
   */
  method MatchStore(lines: seq<string>, storeKeywords: Catalog, similarity: (string, string) -> real)
    returns (r: Option<(string, string)>)
    ensures r == StoreMatch(lines, storeKeywords, similarity)
  {
    var keywords := StrippedKeywords(storeKeywords);
    ghost var hitOf := LineHitWith(keywords, similarity);
    var first := Leading(lines);
    for i := 0 to |first|
      invariant Scans.FirstPresent(first, hitOf) == Scans.FirstPresent(first[i..], hitOf)
    {
      var upperLine := Strip(Upper(first[i]));
      for j := 0 to |keywords|
        invariant ExactHitFrom(keywords, upperLine, 0) == ExactHitFrom(keywords, upperLine, j)
      {
        if Contains(upperLine, keywords[j].0) {
          assert hitOf(first[i]) == Some(keywords[j]);
          return Some(keywords[j]);
        }
      }
      var fuzzy := FuzzyStoreMatching(upperLine, keywords, similarity);
      assert hitOf(first[i]) == if fuzzy.Some? && |fuzzy.value.0| > 0 then fuzzy else None;
      if fuzzy.Some? && |fuzzy.value.0| > 0 {
        return fuzzy;
      }
      assert first[i..][1..] == first[i + 1..];
    }
    return None;
  }

  /**
   * The match comes from the earliest of the first five lines that has a
   * hit of its own (exact or fuzzy): a fuzzy hit on one line beats an exact
   * hit on a later one; and there is none when no such line hits.
   */
  lemma StoreMatchSpec(lines: seq<string>, storeKeywords: Catalog, similarity: (string, string) -> real)
    ensures var keywords, r := StrippedKeywords(storeKeywords), StoreMatch(lines, storeKeywords, similarity);
      && (r.None? <==> forall i :: 0 <= i < |lines| && i < StoreLines ==> LineHit(lines[i], keywords, similarity).None?)
      && (r.Some? ==>
            exists i :: 0 <= i < |lines| && i < StoreLines && LineHit(lines[i], keywords, similarity) == r
              && forall i' :: 0 <= i' < i ==> LineHit(lines[i'], keywords, similarity).None?)
  {
    var keywords := StrippedKeywords(storeKeywords);
    var first := Leading(lines);
    var hitOf := LineHitWith(keywords, similarity);
    Scans.FirstPresentSpec(first, hitOf);
    forall i | 0 <= i < |first|
      ensures hitOf(first[i]) == LineHit(lines[i], keywords, similarity)
    {
      assert first[i] == lines[i];
    }
    assert |first| == if |lines| < StoreLines then |lines| else StoreLines;
    if StoreMatch(lines, storeKeywords, similarity).Some? {
      var i := StoreMatchLine(lines, storeKeywords, similarity);
    }
  }

  /** The line a match comes from: it hits, and no line before it does. */
  lemma StoreMatchLine(lines: seq<string>, storeKeywords: Catalog, similarity: (string, string) -> real) returns (i: nat)
    requires StoreMatch(lines, storeKeywords, similarity).Some?
    ensures i < |lines| && i < StoreLines
    ensures LineHit(lines[i], StrippedKeywords(storeKeywords), similarity) == StoreMatch(lines, storeKeywords, similarity)
    ensures forall j :: 0 <= j < i ==> LineHit(lines[j], StrippedKeywords(storeKeywords), similarity).None?
  {
    var keywords := StrippedKeywords(storeKeywords);
    var first := Leading(lines);
    var hitOf := LineHitWith(keywords, similarity);
    Scans.FirstPresentSpec(first, hitOf);
    i :| 0 <= i < |first| && hitOf(first[i]) == StoreMatch(lines, storeKeywords, similarity)
         && forall j :: 0 <= j < i ==> hitOf(first[j]).None?;
    assert first[i] == lines[i];
    forall j | 0 <= j < i
      ensures LineHit(lines[j], keywords, similarity).None?
    {
      assert first[j] == lines[j];
      assert hitOf(first[j]).None?;
    }
  }

  /** The position in the keyword dict of an item a line hits. */
  lemma LineHitIndex(line: string, keywords: Catalog, similarity: (string, string) -> real) returns (k: nat)
    requires LineHit(line, keywords, similarity).Some?
    ensures k < |keywords| && keywords[k] == LineHit(line, keywords, similarity).value
  {
    var upperLine := Strip(Upper(line));
    var exact := ExactHitFrom(keywords, upperLine, 0);
    if exact.Some? {
      k :| 0 <= k < |keywords| && exact.value == keywords[k];
    } else {
      var fuzzy := FuzzyStoreMatching(upperLine, keywords, similarity);
      k :| 0 <= k < |keywords| && keywords[k] == fuzzy.value;
    }
  }

  /**
   * What `match_store` returns is one of the catalog's items with its name
   * stripped: the category is the one that name was given.
   */
  lemma StoreMatchFromCatalog(lines: seq<string>, storeKeywords: Catalog, similarity: (string, string) -> real)
    ensures var r := StoreMatch(lines, storeKeywords, similarity);
      r.Some? ==> exists i :: 0 <= i < |storeKeywords| && r.value == (Strip(storeKeywords[i].0), storeKeywords[i].1)
  {
    var keywords := StrippedKeywords(storeKeywords);
    var r := StoreMatch(lines, storeKeywords, similarity);
    if r.Some? {
      var i := StoreMatchLine(lines, storeKeywords, similarity);
      var k := LineHitIndex(lines[i], keywords, similarity);
      DictFromPairsValues(StripKeys(storeKeywords));
      assert IsLastWithKey(StripKeys(storeKeywords), keywords[k]);
    }
  }

  /** Lines after the fifth never influence `match_store`. */
  lemma OnlyLeadingLines(lines: seq<string>, more: seq<string>, storeKeywords: Catalog, similarity: (string, string) -> real)
    requires |lines| >= StoreLines
    ensures StoreMatch(lines + more, storeKeywords, similarity) == StoreMatch(lines, storeKeywords, similarity)
  {
    assert Leading(lines + more) == (lines + more)[..StoreLines] == lines[..StoreLines] == Leading(lines);
  }

  /**
   * The first key that occurs wins, not the longest: a key that contains an
   * earlier key never comes out of the exact phase.
   */
  lemma ShadowedKey(d: Catalog, line: string, i: nat, j: nat)
    requires UniqueKeys(d)
    requires i < j < |d| && Contains(d[j].0, d[i].0)
    ensures ExactHitFrom(d, line, 0) != Some(d[j])
  {
    var r := ExactHitFrom(d, line, 0);
    if r.Some? {
      var k :| 0 <= k < |d| && r.value == d[k] && Contains(line, d[k].0)
               && forall k' :: 0 <= k' < k ==> !Contains(line, d[k'].0);
      if Contains(line, d[j].0) {
        ContainsTransitive(line, d[j].0, d[i].0);
      }
      assert k != j;
    }
  }

  /** With SORIAN listed before SORIANA, as the alphabetical catalog has them, a SORIANA line yields SORIAN. */
  lemma SorianaExample()
    ensures ExactHitFrom([("SORIAN", "supermercado"), ("SORIANA", "supermercado")], "SORIANA HIPER", 0)
              == Some(("SORIAN", "supermercado"))
  {
    assert Contains("SORIANA HIPER", "SORIAN");
  }
}
