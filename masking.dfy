/** `mask_sensitive_data`: hiding secret values in a dict before it is logged. */
module Masking {
  import opened Text
  import opened PyValue

  /** The substrings that make a key sensitive. */
  const SensitiveKeys: seq<string> := ["password", "token", "secret", "key", "api_key"]

  /**
   * Some sensitive substring occurs in the lower-cased key.  The shortest
   * is `'key'`, so no key of fewer than three characters is sensitive.
   */
  predicate IsSensitiveKey(key: string)
    ensures IsSensitiveKey(key) ==> |key| >= 3
  {
    exists i :: 0 <= i < |SensitiveKeys| && Contains(Lower(key), SensitiveKeys[i])
  }

  /** `value[:2] + '*' * (len(value) - 4) + value[-2:]` */
  function Obscure(value: string): (r: string)
    requires |value| > 4
    ensures |r| == |value|
    ensures r[..2] == value[..2] && r[|r| - 2..] == value[|value| - 2..]
    ensures forall i :: 2 <= i < |r| - 2 ==> r[i] == '*'
  {
    value[..2] + seq(|value| - 4, _ => '*') + value[|value| - 2..]
  }

  /**
   * The value the masked dict holds for a key: the value itself for a key
   * that is not sensitive; for a sensitive one, a long string obscured to
   * its first and last two characters, anything else `'***'`.
   */
  function MaskValue(key: string, value: Value): (r: Value)
    ensures !IsSensitiveKey(key) ==> r == value
    ensures IsSensitiveKey(key) && value.StrValue? && |value.s| > 4 ==>
              r.StrValue? && |r.s| == |value.s| && r.s[..2] == value.s[..2] && r.s[|r.s| - 2..] == value.s[|value.s| - 2..]
              && forall i :: 2 <= i < |r.s| - 2 ==> r.s[i] == '*'
    ensures IsSensitiveKey(key) && !(value.StrValue? && |value.s| > 4) ==> r == StrValue("***")
  {
    if IsSensitiveKey(key) then
      if value.StrValue? && |value.s| > 4 then StrValue(Obscure(value.s)) else StrValue("***")
    else value
  }

  /**
   * The whole masked dict: the same keys; non-sensitive entries unchanged;
   * sensitive ones replaced by the obscured secret when it is a string
   * longer than four characters, else by `'***'`.
   */
  function Masked(data: Dict): (r: Dict)
    ensures r.Keys == data.Keys
    ensures forall key :: key in data && !IsSensitiveKey(key) ==> r[key] == data[key]
    ensures forall key :: key in data && IsSensitiveKey(key) ==>
              if data[key].StrValue? && |data[key].s| > 4
              then r[key] == StrValue(Obscure(data[key].s))
              else r[key] == StrValue("***")
  {
    map key | key in data :: MaskValue(key, data[key])
  }

  /**
   * `mask_sensitive_data(data)`: a copy of the dict in which the value of
   * every sensitive key is masked.
   */
  method MaskSensitiveData(data: Dict) returns (masked: Dict)
    ensures masked == Masked(data)
  {
    masked := data;
    var pending := data.Keys;
    while pending != {}
      invariant pending <= data.Keys
      invariant masked.Keys == data.Keys
      invariant forall key :: key in data ==> masked[key] == if key in pending then data[key] else MaskValue(key, data[key])
      decreases |pending|
    {
      var key :| key in pending;
      var value := masked[key];
      if IsSensitiveKey(key) {
        if value.StrValue? && |value.s| > 4 {
          masked := masked[key := StrValue(value.s[..2] + seq(|value.s| - 4, _ => '*') + value.s[|value.s| - 2..])];
        } else {
          masked := masked[key := StrValue("***")];
        }
      }
      pending := pending - {key};
    }
  }

  /**
   * A long secret keeps only its first two and last two characters; every
   * other character is a '*'.
   */
  lemma ShowsAtMostFour(key: string, value: string)
    requires IsSensitiveKey(key) && |value| > 4
    ensures var m := MaskValue(key, StrValue(value)).s;
      |m| == |value| && |set i | 0 <= i < |m| && m[i] != '*'| <= 4
  {
    var m := MaskValue(key, StrValue(value)).s;
    var shown := set i | 0 <= i < |m| && m[i] != '*';
    var ends := {0, 1, |m| - 2, |m| - 1};
    forall i | i in shown ensures i in ends {
      assert 0 <= i < |m| && m[i] != '*';
    }
    SubsetCard(shown, ends);
  }

  lemma SubsetCard(a: set<int>, b: set<int>)
    requires a <= b && |b| <= 4
    ensures |a| <= 4
  {
    assert |a| <= |b| by {
      assert b == a + (b - a);
    }
  }

  /** `'api_key'` adds nothing: every key containing it contains `'key'`. */
  lemma ApiKeyRedundant(key: string)
    ensures IsSensitiveKey(key) <==> exists i :: 0 <= i < 4 && Contains(Lower(key), SensitiveKeys[i])
  {
    if Contains(Lower(key), "api_key") {
      assert "api_key"[4..] == "key";
      ContainsTransitive(Lower(key), "api_key", "key");
      assert Contains(Lower(key), SensitiveKeys[3]);
    }
  }

  /** Keys are matched whatever their letter case: `API_TOKEN` is as sensitive as `api_token`. */
  lemma CaseInsensitiveKeys(key: string)
    ensures IsSensitiveKey(key) <==> IsSensitiveKey(Lower(key))
  {
    assert Lower(Lower(key)) == Lower(key);
  }
}
