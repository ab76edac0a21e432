/** The two JavaScript string operations the search handler relies on:
    `String.prototype.trim` (applied to the typed query) and
    `String.prototype.includes` (applied to a place's display name).
    Strings are sequences of Unicode scalar values; every character that
    `trim` removes lies in the Basic Multilingual Plane, and containment of
    well-formed strings is the same whether it is read over UTF-16 code units
    or over code points, so nothing is lost by not modelling UTF-16. */
module JsText {

  /** The code points ECMAScript's WhiteSpace and LineTerminator productions
      accept, i.e. exactly what `trim` strips: TAB, VT, FF, ZWNBSP, the
      Unicode space separators (category Zs), LF, CR, LS and PS. */
  predicate IsJsWhitespace(c: char) {
    || c == '\U{9}' || c == '\U{B}' || c == '\U{C}' || c == '\U{FEFF}'
    || c == '\U{20}' || c == '\U{A0}' || c == '\U{1680}'
    || ('\U{2000}' <= c <= '\U{200A}')
    || c == '\U{202F}' || c == '\U{205F}' || c == '\U{3000}'
    || c == '\U{A}' || c == '\U{D}' || c == '\U{2028}' || c == '\U{2029}'
  }

  predicate AllWhitespace(s: string) {
    forall k :: 0 <= k < |s| ==> IsJsWhitespace(s[k])
  }

  /** Drops leading whitespace (`TrimStartDropsWhitespace` says what it keeps). */
  function TrimStart(s: string): string
    decreases |s|
  {
    if s != [] && IsJsWhitespace(s[0]) then TrimStart(s[1..]) else s
  }

  /** Drops trailing whitespace (`TrimEndDropsWhitespace` says what it keeps). */
  function TrimEnd(s: string): string
    decreases |s|
  {
    if s != [] && IsJsWhitespace(s[|s| - 1]) then TrimEnd(s[..|s| - 1]) else s
  }

  /** `TrimStart` keeps the longest suffix of `s` that does not start with
      whitespace, and everything it drops is whitespace. */
  lemma {:induction false} TrimStartDropsWhitespace(s: string)
    ensures var r := TrimStart(s);
            && |r| <= |s| && r == s[|s| - |r|..]
            && AllWhitespace(s[..|s| - |r|])
            && (r == [] || !IsJsWhitespace(r[0]))
    decreases |s|
  {
    if s != [] && IsJsWhitespace(s[0]) {
      var tail := s[1..];
      TrimStartDropsWhitespace(tail);
      var r := TrimStart(tail);
      assert r == tail[|tail| - |r|..] == s[|s| - |r|..];
      var dropped := s[..|s| - |r|];
      forall k | 0 <= k < |dropped| ensures IsJsWhitespace(dropped[k]) {
        if k > 0 {
          assert dropped[k] == tail[..|tail| - |r|][k - 1];
        }
      }
    }
  }

  /** `TrimEnd` keeps the longest prefix of `s` that does not end with
      whitespace, and everything it drops is whitespace. */
  lemma {:induction false} TrimEndDropsWhitespace(s: string)
    ensures var r := TrimEnd(s);
            && |r| <= |s| && r == s[..|r|]
            && AllWhitespace(s[|r|..])
            && (r == [] || !IsJsWhitespace(r[|r| - 1]))
    decreases |s|
  {
    if s != [] && IsJsWhitespace(s[|s| - 1]) {
      var init := s[..|s| - 1];
      TrimEndDropsWhitespace(init);
      var r := TrimEnd(init);
      assert r == init[..|r|] == s[..|r|];
      var dropped := s[|r|..];
      forall k | 0 <= k < |dropped| ensures IsJsWhitespace(dropped[k]) {
        if k < |s| - 1 - |r| {
          assert dropped[k] == init[|r|..][k];
        }
      }
    }
  }

  /** `s` is whitespace, then `r` starting at offset `i`, then whitespace. */
  ghost predicate IsPaddedAt(r: string, s: string, i: int) {
    && 0 <= i <= |s| - |r| && s[i..i + |r|] == r
    && AllWhitespace(s[..i]) && AllWhitespace(s[i + |r|..])
  }

  /** `s` is `r` with whitespace-only text on either side. */
  ghost predicate IsPaddedBy(r: string, s: string) {
    exists i :: IsPaddedAt(r, s, i)
  }

  /** `String.prototype.trim`: strips whitespace from both ends. */
  function Trim(s: string): (r: string)
    ensures r == [] || (!IsJsWhitespace(r[0]) && !IsJsWhitespace(r[|r| - 1]))
  {
    TrimStartDropsWhitespace(s);
    TrimEndDropsWhitespace(TrimStart(s));
    TrimEnd(TrimStart(s))
  }

  /** What `trim` removes is whitespace and nothing else: the input is the
      trimmed text with whitespace on either side. */
  lemma TrimIsPadded(s: string)
    ensures IsPaddedBy(Trim(s), s)
  {
    TrimStartDropsWhitespace(s);
    TrimEndDropsWhitespace(TrimStart(s));
    var t := TrimStart(s);
    var r := TrimEnd(t);
    var i := |s| - |t|;
    assert t == s[i..];
    assert s[i..i + |r|] == t[..|r|];
    assert s[i + |r|..] == t[|r|..];
    assert IsPaddedAt(r, s, i);
  }

  /** A query is blank (JavaScript's `!query.trim()`) exactly when every one
      of its characters is whitespace; in particular the empty query is blank. */
  lemma {:induction false} TrimBlankIff(s: string)
    ensures Trim(s) == [] <==> AllWhitespace(s)
  {
    TrimStartDropsWhitespace(s);
    TrimEndDropsWhitespace(TrimStart(s));
    var t := TrimStart(s);
    if Trim(s) == [] {
      // TrimEnd(t) is empty, so t is all whitespace; t cannot start with
      // whitespace, so t is empty and s is the whitespace TrimStart dropped
      assert t[0..] == t;
      assert |t| == 0;
      assert s[..|s|] == s;
    }
    if Trim(s) != [] {
      // the first kept character is a character of s that is not whitespace
      assert Trim(s)[0] == t[0] == s[|s| - |t|];
    }
  }

  /** A query of full-width spaces (U+3000, what a CJK input method types for
      a space) is blank, however many of them there are. */
  lemma FullWidthSpacesAreBlank(n: nat)
    ensures Trim(seq(n, _ => '\U{3000}')) == []
  {
    TrimBlankIff(seq(n, _ => '\U{3000}'));
  }

  /** `needle` occurs in `hay` starting at offset `i`. */
  ghost predicate OccursAt(needle: string, hay: string, i: int) {
    0 <= i <= |hay| - |needle| && hay[i..i + |needle|] == needle
  }

  /** Substring in the mathematical sense: `needle` occurs at some offset of `hay`. */
  ghost predicate IsSubstring(needle: string, hay: string) {
    exists i :: OccursAt(needle, hay, i)
  }

  lemma SubstringNotAtStart(needle: string, hay: string)
    requires |needle| <= |hay| && hay[..|needle|] != needle
    ensures IsSubstring(needle, hay) <==> IsSubstring(needle, hay[1..])
  {
    if IsSubstring(needle, hay) {
      var i :| OccursAt(needle, hay, i);
      assert i != 0;
      assert hay[1..][i - 1..i - 1 + |needle|] == needle;
      assert OccursAt(needle, hay[1..], i - 1);
    }
    if IsSubstring(needle, hay[1..]) {
      var i :| OccursAt(needle, hay[1..], i);
      assert hay[i + 1..i + 1 + |needle|] == needle;
      assert OccursAt(needle, hay, i + 1);
    }
  }

  /** `hay.includes(needle)`: a left-to-right scan for `needle`, which holds
      exactly when `needle` is a substring of `hay` (the empty needle occurs
      in every string, as in JavaScript). */
  function Includes(hay: string, needle: string): (b: bool)
    ensures b <==> IsSubstring(needle, hay)
    decreases |hay|
  {
    if |needle| > |hay| then
      false
    else if hay[..|needle|] == needle then
      assert OccursAt(needle, hay, 0);
      true
    else
      SubstringNotAtStart(needle, hay);
      Includes(hay[1..], needle)
  }
}
