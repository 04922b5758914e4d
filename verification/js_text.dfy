/** The JavaScript string primitives the contact form relies on:
    `String.prototype.trim`, the regular-expression class `\s`, and
    `String.prototype.length`, which counts UTF-16 code units. A Dafny `char`
    is a Unicode scalar value, so a character outside the Basic Multilingual
    Plane counts as two code units. */
module JsText {

  /** The ECMAScript WhiteSpace and LineTerminator code points (section 12.2
      and 12.3 of ECMA-262): the set `trim` strips and `\s` matches. The
      space separators are those of Unicode category Zs. */
  predicate IsWhitespace(c: char) {
    || c == '\t' || c == '\n' || c == '\U{000B}' || c == '\U{000C}' || c == '\r'
    || c == ' ' || c == '\U{00A0}' || c == '\U{1680}'
    || ('\U{2000}' <= c <= '\U{200A}')
    || c == '\U{2028}' || c == '\U{2029}' || c == '\U{202F}' || c == '\U{205F}'
    || c == '\U{3000}' || c == '\U{FEFF}'
  }

  predicate AllWhitespace(s: string) {
    forall i :: 0 <= i < |s| ==> IsWhitespace(s[i])
  }

  predicate HasWhitespace(s: string) {
    exists i :: 0 <= i < |s| && IsWhitespace(s[i])
  }

  /** `r` is `s` with its leading and trailing whitespace removed: a
      contiguous piece of `s`, flanked in `s` only by whitespace, that neither
      starts nor ends with whitespace. */
  ghost predicate IsTrimOf(r: string, s: string) {
    && (r == [] || (!IsWhitespace(r[0]) && !IsWhitespace(r[|r| - 1])))
    && exists a :: TrimmedAt(r, s, a)
  }

  /** Number of whitespace characters at the start of `s`. */
  function LeadingWhitespace(s: string): (n: nat)
    ensures n <= |s|
    ensures AllWhitespace(s[..n])
    ensures n == |s| || !IsWhitespace(s[n])
  {
    if |s| == 0 || !IsWhitespace(s[0]) then 0 else 1 + LeadingWhitespace(s[1..])
  }

  /** Number of whitespace characters at the end of `s`. */
  function TrailingWhitespace(s: string): (n: nat)
    ensures n <= |s|
    ensures AllWhitespace(s[|s| - n..])
    ensures n == |s| || !IsWhitespace(s[|s| - n - 1])
  {
    if |s| == 0 || !IsWhitespace(s[|s| - 1]) then 0
    else 1 + TrailingWhitespace(s[..|s| - 1])
  }

  /** `String.prototype.trim`. */
  function Trim(s: string): (r: string)
    ensures |r| <= |s|
    ensures r == [] <==> AllWhitespace(s)
  {
    var a := LeadingWhitespace(s);
    var rest := s[a..];
    var t := TrailingWhitespace(rest);
    var r := rest[..|rest| - t];
    assert r == [] ==> AllWhitespace(s) by {
      if r == [] {
        assert s == s[..a] + rest;
      }
    }
    r
  }

  /** `Trim` removes exactly the leading and trailing whitespace. */
  lemma TrimIsTrimOf(s: string)
    ensures IsTrimOf(Trim(s), s)
  {
    var a := LeadingWhitespace(s);
    var rest := s[a..];
    var t := TrailingWhitespace(rest);
    var r := rest[..|rest| - t];
    assert r == Trim(s);
    assert r == s[a..a + |r|];
    assert s[a + |r|..] == rest[|rest| - t..];
    assert TrimmedAt(r, s, a);
  }

  /** `r` is the piece `s[a..a + |r|]`, flanked only by whitespace and
      without whitespace at its own ends. */
  ghost predicate TrimmedAt(r: string, s: string, a: int) {
    && 0 <= a <= |s| - |r| && r == s[a..a + |r|]
    && AllWhitespace(s[..a]) && AllWhitespace(s[a + |r|..])
  }

  /** Whatever `trim` is computed by, its result is determined by `s`. */
  lemma TrimOfIsUnique(r1: string, r2: string, s: string)
    requires IsTrimOf(r1, s) && IsTrimOf(r2, s)
    ensures r1 == r2
  {
    var a1 :| TrimmedAt(r1, s, a1);
    var a2 :| TrimmedAt(r2, s, a2);
    TrimmedAtIsUnique(r1, r2, s, a1, a2);
  }

  lemma TrimmedAtIsUnique(r1: string, r2: string, s: string, a1: int, a2: int)
    requires TrimmedAt(r1, s, a1) && TrimmedAt(r2, s, a2)
    requires r1 == [] || (!IsWhitespace(r1[0]) && !IsWhitespace(r1[|r1| - 1]))
    requires r2 == [] || (!IsWhitespace(r2[0]) && !IsWhitespace(r2[|r2| - 1]))
    ensures r1 == r2
  {
    WhitespaceAt(s, a1, a1 + |r1|);
    WhitespaceAt(s, a2, a2 + |r2|);
    if r1 != [] && r2 != [] {
      // The first and the last non-whitespace characters of s fix both ends.
      assert s[a1] == r1[0] && s[a2] == r2[0];
      assert s[a1 + |r1| - 1] == r1[|r1| - 1] && s[a2 + |r2| - 1] == r2[|r2| - 1];
      assert a1 == a2;
      assert |r1| == |r2|;
    }
  }

  /** Every character of `s` outside `s[a..e]` is whitespace. */
  lemma WhitespaceAt(s: string, a: nat, e: nat)
    requires a <= e <= |s|
    requires AllWhitespace(s[..a]) && AllWhitespace(s[e..])
    ensures forall i :: 0 <= i < a ==> IsWhitespace(s[i])
    ensures forall i :: e <= i < |s| ==> IsWhitespace(s[i])
  {
    forall i | 0 <= i < a ensures IsWhitespace(s[i]) {
      assert s[..a][i] == s[i];
    }
    forall i | e <= i < |s| ensures IsWhitespace(s[i]) {
      assert s[e..][i - e] == s[i];
    }
  }

  /** Trimming twice is trimming once. */
  lemma TrimIdempotent(s: string)
    ensures Trim(Trim(s)) == Trim(s)
  {
    var r := Trim(s);
    TrimIsTrimOf(s);
    TrimmedIsItsOwnTrim(r, s);
    TrimIsTrimOf(r);
    TrimOfIsUnique(Trim(r), r, r);
  }

  /** A trimmed string is its own trim. */
  lemma TrimmedIsItsOwnTrim(r: string, s: string)
    requires IsTrimOf(r, s)
    ensures IsTrimOf(r, r)
  {
    assert r == r[0..0 + |r|];
    assert r[..0] == [] && r[0 + |r|..] == [];
    assert TrimmedAt(r, r, 0);
  }

  /** Number of UTF-16 code units JavaScript uses for `c`. */
  function CodeUnits(c: char): nat {
    if c as int < 0x1_0000 then 1 else 2
  }

  /** `String.prototype.length`: the UTF-16 length of `s`. */
  function Utf16Length(s: string): (n: nat)
    ensures |s| <= n <= 2 * |s|
  {
    if |s| == 0 then 0 else CodeUnits(s[0]) + Utf16Length(s[1..])
  }

  /** Without characters outside the Basic Multilingual Plane, the UTF-16
      length is the number of characters. */
  lemma {:induction false} Utf16LengthOfBmp(s: string)
    requires forall i :: 0 <= i < |s| ==> s[i] as int < 0x1_0000
    ensures Utf16Length(s) == |s|
  {
    if |s| > 0 {
      Utf16LengthOfBmp(s[1..]);
    }
  }
}
