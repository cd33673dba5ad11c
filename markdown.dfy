/** `escape_markdown`: a backslash before every Markdown special character. */
module Markdown {
  import opened Text

  /** The characters `escape_markdown` escapes, in the order it escapes them. */
  const Specials: seq<char> :=
    ['*', '_', '[', ']', '(', ')', '~', '`', '>', '#', '+', '-', '=', '|', '{', '}', '.', '!']

  /** `s.replace(c, '\\' + c)` */
  function EscapeChar(s: string, c: char): (r: string)
    ensures |r| >= |s|
  {
    if |s| == 0 then []
    else (if s[0] == c then ['\\', c] else [s[0]]) + EscapeChar(s[1..], c)
  }

  /** One pass that puts a backslash before each character of s that is in cs. */
  function Escaped(s: string, cs: seq<char>): (r: string)
    ensures |r| >= |s|
  {
    if |s| == 0 then []
    else (if s[0] in cs then ['\\', s[0]] else [s[0]]) + Escaped(s[1..], cs)
  }

  /** Removes the backslash before each character in cs. */
  function Unescaped(t: string, cs: seq<char>): string
    decreases |t|
  {
    if |t| == 0 then []
    else if |t| >= 2 && t[0] == '\\' && t[1] in cs then [t[1]] + Unescaped(t[2..], cs)
    else [t[0]] + Unescaped(t[1..], cs)
  }

  /** How many characters of s are in cs. */
  function CountIn(s: string, cs: seq<char>): nat {
    if |s| == 0 then 0 else (if s[0] in cs then 1 else 0) + CountIn(s[1..], cs)
  }

  /**
   * Escaping one more character c, not the backslash and not escaped yet,
   * over text already escaped for cs, is escaping for cs + [c] in one pass:
   * the passes of `escape_markdown` do not interfere.
   */
  lemma {:induction false} EscapeStep(s: string, cs: seq<char>, c: char)
    requires c != '\\' && c !in cs
    ensures EscapeChar(Escaped(s, cs), c) == Escaped(s, cs + [c])
    decreases |s|
  {
    if |s| > 0 {
      var piece := if s[0] in cs then ['\\', s[0]] else [s[0]];
      EscapeCharConcat(piece, Escaped(s[1..], cs), c);
      EscapeStep(s[1..], cs, c);
      assert EscapeChar(piece, c) == if s[0] in cs + [c] then ['\\', s[0]] else [s[0]] by {
        if s[0] in cs {
          assert piece[1..] == [s[0]];
          assert piece[1..][1..] == [];
        } else {
          assert piece[1..] == [];
        }
      }
    }
  }

  /** `replace` distributes over concatenation. */
  lemma {:induction false} EscapeCharConcat(a: string, b: string, c: char)
    ensures EscapeChar(a + b, c) == EscapeChar(a, c) + EscapeChar(b, c)
    decreases |a|
  {
    if |a| == 0 {
      assert a + b == b;
    } else {
      assert (a + b)[1..] == a[1..] + b;
      EscapeCharConcat(a[1..], b, c);
      var piece := if a[0] == c then ['\\', c] else [a[0]];
      assert EscapeChar(a + b, c) == piece + (EscapeChar(a[1..], c) + EscapeChar(b, c));
    }
  }

  /**
   * `escape_markdown(text)`: replaces every special character c by a
   * backslash and c, one character at a time.
   */
  method EscapeMarkdown(text: string) returns (r: string)
    ensures r == Escaped(text, Specials)
  {
    r := text;
    EscapedNone(text);
    for i := 0 to |Specials|
      invariant r == Escaped(text, Specials[..i])
    {
      var c := Specials[i];
      SpecialsFresh(i);
      EscapeStep(text, Specials[..i], c);
      r := EscapeChar(r, c);
      assert Specials[..i] + [c] == Specials[..i + 1];
    }
    assert Specials[..|Specials|] == Specials;
  }

  /** No special character repeats an earlier one. */
  lemma SpecialsFresh(i: nat)
    requires i < |Specials|
    ensures Specials[i] !in Specials[..i]
  {
  }

  /** Escaping for no characters changes nothing. */
  lemma {:induction false} EscapedNone(s: string)
    ensures Escaped(s, []) == s
    decreases |s|
  {
    if |s| > 0 {
      EscapedNone(s[1..]);
    }
  }

  /** The escaped text grows by one backslash per special character. */
  lemma {:induction false} EscapedLength(s: string, cs: seq<char>)
    ensures |Escaped(s, cs)| == |s| + CountIn(s, cs)
    decreases |s|
  {
    if |s| > 0 {
      EscapedLength(s[1..], cs);
    }
  }

  /**
   * Escaping loses nothing: removing the backslash before each special
   * character gives back the text, backslashes of the text included.
   */
  lemma {:induction false} UnescapeEscaped(s: string, cs: seq<char>)
    requires '\\' !in cs
    ensures Unescaped(Escaped(s, cs), cs) == s
    decreases |s|
  {
    if |s| > 0 {
      var rest := Escaped(s[1..], cs);
      UnescapeEscaped(s[1..], cs);
      if s[0] in cs {
        var t := ['\\', s[0]] + rest;
        assert t[2..] == rest;
      } else {
        var t := [s[0]] + rest;
        assert t[1..] == rest;
        if s[0] == '\\' && |rest| > 0 {
          assert rest[0] !in cs by {
            if s[1..][0] in cs { assert rest[0] == '\\'; } else { assert rest[0] == s[1..][0]; }
          }
        }
      }
    }
  }

  /** `escape_markdown` is undone by removing the backslash before each special character. */
  lemma EscapeMarkdownRoundTrip(s: string)
    ensures Unescaped(Escaped(s, Specials), Specials) == s
    ensures |Escaped(s, Specials)| == |s| + CountIn(s, Specials)
  {
    assert '\\' !in Specials;
    UnescapeEscaped(s, Specials);
    EscapedLength(s, Specials);
  }
}
