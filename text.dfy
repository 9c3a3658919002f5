/** The string primitives the views and dialogs rely on: ECMAScript `trim`,
    `toLowerCase` (ASCII letters only) and `includes`. */
module Text {

  /** ECMAScript WhiteSpace and LineTerminator code points, which `trim` removes:
      TAB, LF, VT, FF, CR, SPACE, NBSP, U+1680, U+2000-U+200A, LS, PS, U+202F,
      U+205F, U+3000 and the byte-order mark U+FEFF. */
  predicate IsWhitespace(c: char) {
    var n := c as int;
    (0x09 <= n <= 0x0D) || n == 0x20 || n == 0xA0 || n == 0x1680 ||
    (0x2000 <= n <= 0x200A) || n == 0x2028 || n == 0x2029 || n == 0x202F ||
    n == 0x205F || n == 0x3000 || n == 0xFEFF
  }

  /** Neither the first nor the last character of `s` is whitespace. */
  predicate NoOuterWhitespace(s: string) {
    s != [] ==> !IsWhitespace(s[0]) && !IsWhitespace(s[|s| - 1])
  }

  /** Every character of `s` at an index in `[lo, hi)` is whitespace. */
  predicate WhiteBetween(s: string, lo: int, hi: int) {
    forall i :: lo <= i < hi && 0 <= i < |s| ==> IsWhitespace(s[i])
  }

  predicate AllWhitespace(s: string) {
    WhiteBetween(s, 0, |s|)
  }

  /** `s` with its leading whitespace removed. */
  function TrimStart(s: string): (r: string)
    ensures |r| <= |s| && r == s[|s| - |r|..]
    ensures WhiteBetween(s, 0, |s| - |r|)
    ensures r != [] ==> !IsWhitespace(r[0])
  {
    if s != [] && IsWhitespace(s[0]) then
      var r := TrimStart(s[1..]);
      assert forall i :: 1 <= i < |s| ==> s[i] == s[1..][i - 1];
      r
    else
      s
  }

  /** `s` with its trailing whitespace removed. */
  function TrimEnd(s: string): (r: string)
    ensures r <= s
    ensures WhiteBetween(s, |r|, |s|)
    ensures r != [] ==> !IsWhitespace(r[|r| - 1])
  {
    if s != [] && IsWhitespace(s[|s| - 1]) then TrimEnd(s[..|s| - 1]) else s
  }

  /** `r` is `s` with `k` whitespace characters dropped at the front and only
      whitespace dropped at the back. */
  ghost predicate TrimmedAt(s: string, r: string, k: nat) {
    OccursAt(s, r, k) && WhiteBetween(s, 0, k) && WhiteBetween(s, k + |r|, |s|)
  }

  /** `s.trim()`: a contiguous part of `s` that neither starts nor ends with
      whitespace, obtained by dropping only whitespace; it is empty exactly when
      `s` is all whitespace. */
  function Trim(s: string): (r: string)
    ensures exists k: nat :: TrimmedAt(s, r, k)
    ensures NoOuterWhitespace(r)
    ensures r == [] <==> AllWhitespace(s)
  {
    TrimParts(s);
    TrimEnd(TrimStart(s))
  }

  lemma TrimParts(s: string)
    ensures exists k: nat :: TrimmedAt(s, TrimEnd(TrimStart(s)), k)
    ensures NoOuterWhitespace(TrimEnd(TrimStart(s)))
    ensures TrimEnd(TrimStart(s)) == [] <==> AllWhitespace(s)
  {
    var t := TrimStart(s);
    var r := TrimEnd(t);
    TrimWindow(s);
    TrimEmptyIffBlank(s);
    if r != [] {
      assert r[0] == t[0];
    }
  }

  /** The trimmed string sits at offset `|s| - |TrimStart(s)|` of `s`. */
  lemma TrimWindow(s: string)
    ensures TrimmedAt(s, TrimEnd(TrimStart(s)), |s| - |TrimStart(s)|)
  {
    var t := TrimStart(s);
    var r := TrimEnd(t);
    var k := |s| - |t|;
    assert t == s[k..];
    assert r == t[..|r|];
    assert OccursAt(s, r, k);
    forall i | k + |r| <= i < |s|
      ensures IsWhitespace(s[i])
    {
      assert s[i] == t[i - k];
    }
  }

  lemma TrimEmptyIffBlank(s: string)
    ensures TrimEnd(TrimStart(s)) == [] <==> AllWhitespace(s)
  {
    var t := TrimStart(s);
    var k := |s| - |t|;
    assert t == s[k..];
    if t != [] {
      assert t[0] == s[k];
    }
  }

  /** Trimming a trimmed string changes nothing. */
  lemma TrimIdempotent(s: string)
    ensures Trim(Trim(s)) == Trim(s)
  {
    var r := Trim(s);
    assert TrimStart(r) == r;
    assert TrimEnd(r) == r;
  }

  /** JavaScript truthiness of `s.trim()`: the string holds a character that is
      not whitespace. */
  predicate HasText(s: string)
    ensures HasText(s) <==> !AllWhitespace(s)
  {
    Trim(s) != ""
  }

  /** An ASCII capital letter. */
  predicate IsUpper(c: char) {
    'A' <= c <= 'Z'
  }

  function LowerChar(c: char): char {
    if IsUpper(c) then (c as int + 32) as char else c
  }

  /** `s.toLowerCase()`, restricted to the ASCII letters A-Z: every capital
      becomes its small letter (32 code points on), every other character is
      kept, and no capital is left. */
  function Lower(s: string): (r: string)
    ensures |r| == |s|
    ensures forall i :: 0 <= i < |s| ==> !IsUpper(r[i])
    ensures forall i :: 0 <= i < |s| ==> r[i] == s[i] || (IsUpper(s[i]) && r[i] as int == s[i] as int + 32)
  {
    seq(|s|, i requires 0 <= i < |s| => LowerChar(s[i]))
  }

  lemma LowerIdempotent(s: string)
    ensures Lower(Lower(s)) == Lower(s)
  {
  }

  /** Two characters that are equal, or a capital and its small letter. */
  predicate SameCharUpToCase(c: char, d: char) {
    c == d || (IsUpper(c) && d as int == c as int + 32) || (IsUpper(d) && c as int == d as int + 32)
  }

  /** `a` and `b` are the same string apart from the case of ASCII letters. */
  predicate SameUpToAsciiCase(a: string, b: string) {
    |a| == |b| && forall i :: 0 <= i < |a| ==> SameCharUpToCase(a[i], b[i])
  }

  /** Two strings lower to the same string exactly when they differ only in
      the case of ASCII letters. */
  lemma LowerEqualIffSameUpToCase(a: string, b: string)
    ensures Lower(a) == Lower(b) <==> SameUpToAsciiCase(a, b)
  {
    if SameUpToAsciiCase(a, b) {
      forall i | 0 <= i < |a|
        ensures Lower(a)[i] == Lower(b)[i]
      {
        assert SameCharUpToCase(a[i], b[i]);
      }
    }
    if Lower(a) == Lower(b) {
      forall i | 0 <= i < |a|
        ensures SameCharUpToCase(a[i], b[i])
      {
        assert Lower(a)[i] == Lower(b)[i];
      }
    }
  }

  /** `needle` occurs in `hay` starting at index `i`. */
  ghost predicate OccursAt(hay: string, needle: string, i: nat) {
    i + |needle| <= |hay| && hay[i..i + |needle|] == needle
  }

  /** `hay.includes(needle)`. */
  function Contains(hay: string, needle: string): (r: bool)
    ensures r <==> exists i: nat :: OccursAt(hay, needle, i)
    decreases |hay|
  {
    if needle <= hay then
      assert OccursAt(hay, needle, 0);
      true
    else if hay == [] then
      false
    else
      var r := Contains(hay[1..], needle);
      OccursShift(hay, needle);
      r
  }

  lemma OccursShift(hay: string, needle: string)
    requires hay != [] && !(needle <= hay)
    ensures (exists i: nat :: OccursAt(hay, needle, i)) <==> exists i: nat :: OccursAt(hay[1..], needle, i)
  {
    if i: nat :| OccursAt(hay, needle, i) {
      assert i != 0;
      assert hay[1..][i - 1..i - 1 + |needle|] == hay[i..i + |needle|];
      assert OccursAt(hay[1..], needle, i - 1);
    }
    if i: nat :| OccursAt(hay[1..], needle, i) {
      assert hay[1..][i..i + |needle|] == hay[i + 1..i + 1 + |needle|];
      assert OccursAt(hay, needle, i + 1);
    }
  }

  /** Every string includes the empty string. */
  lemma ContainsEmpty(hay: string)
    ensures Contains(hay, "")
  {
  }
}
