/** `isValidEmail`: a test of the address against the regular expression
    `^[^\s@]+@[^\s@]+\.[^\s@]+$`. */
module EmailCheck {
  import opened Wrappers
  import opened JsText

  /** A character the class `[^\s@]` accepts. */
  predicate IsAddressChar(c: char) {
    !IsWhitespace(c) && c != '@'
  }

  predicate AllAddressChars(s: string) {
    forall i :: 0 <= i < |s| ==> IsAddressChar(s[i])
  }

  /** Index of the first occurrence of `c` in `s`. */
  function IndexOf(s: string, c: char): (r: Option<nat>)
    ensures r.None? <==> c !in s
    ensures r.Some? ==> r.value < |s| && s[r.value] == c && c !in s[..r.value]
  {
    if |s| == 0 then None
    else if s[0] == c then Some(0)
    else match IndexOf(s[1..], c)
      case None => None
      case Some(i) =>
        assert s[..i + 1] == [s[0]] + s[1..][..i];
        Some(i + 1)
  }

  /** `d` has a `.` that is neither its first nor its last character. */
  predicate HasInnerDot(d: string) {
    exists k :: 0 < k < |d| - 1 && d[k] == '.'
  }

  /** The check itself: split at the first `@`; the part before it must be a
      non-empty run of `[^\s@]`, and the part after it a run of `[^\s@]`
      with an inner dot. */
  predicate IsValidEmail(s: string) {
    match IndexOf(s, '@')
    case None => false
    case Some(at) =>
      && at > 0
      && AllAddressChars(s[..at])
      && AllAddressChars(s[at + 1..])
      && HasInnerDot(s[at + 1..])
  }

  /** What the regular expression matches, read off its structure: `s` is
      `local @ host . tld`, each of the three parts one or more characters
      of `[^\s@]`. */
  ghost predicate MatchesEmailPattern(s: string) {
    exists at, dot :: SplitsAsEmail(s, at, dot)
  }

  ghost predicate SplitsAsEmail(s: string, at: int, dot: int) {
    && 0 < at && at + 1 < dot && dot + 1 < |s|
    && s[at] == '@' && s[dot] == '.'
    && AllAddressChars(s[..at])
    && AllAddressChars(s[at + 1..dot])
    && AllAddressChars(s[dot + 1..])
  }

  /** Number of occurrences of `c` in `s`. */
  function Occurrences(s: string, c: char): (n: nat)
    ensures n <= |s|
    ensures n == 0 <==> c !in s
  {
    if |s| == 0 then 0 else (if s[0] == c then 1 else 0) + Occurrences(s[1..], c)
  }

  /** The address described as a string predicate: no whitespace, exactly one
      `@`, something before it, and an inner dot after it. */
  ghost predicate WellFormedAddress(s: string) {
    && !HasWhitespace(s)
    && Occurrences(s, '@') == 1
    && exists at :: 0 < at < |s| && s[at] == '@' && HasInnerDot(s[at + 1..])
  }

  /** The check accepts exactly what the regular expression matches. */
  lemma IsValidEmailMatchesPattern(s: string)
    ensures IsValidEmail(s) <==> MatchesEmailPattern(s)
  {
    if IsValidEmail(s) {
      var at := IndexOf(s, '@').value;
      var d := s[at + 1..];
      var k :| 0 < k < |d| - 1 && d[k] == '.';
      var dot := at + 1 + k;
      assert s[at + 1..dot] == d[..k];
      assert s[dot + 1..] == d[k + 1..];
      assert SplitsAsEmail(s, at, dot);
    }
    if MatchesEmailPattern(s) {
      var at, dot :| SplitsAsEmail(s, at, dot);
      PatternImpliesCheck(s, at, dot);
    }
  }

  lemma PatternImpliesCheck(s: string, at: int, dot: int)
    requires SplitsAsEmail(s, at, dot)
    ensures IsValidEmail(s)
  {
    assert '@' !in s[..at] by {
      forall i | 0 <= i < at ensures s[..at][i] != '@' {
        assert IsAddressChar(s[..at][i]);
      }
    }
    var first := IndexOf(s, '@');
    assert first.Some?;
    assert first.value == at;
    var d := s[at + 1..];
    var k := dot - at - 1;
    assert d[k] == '.';
    assert d == s[at + 1..dot] + [s[dot]] + s[dot + 1..];
    forall i | 0 <= i < |d| ensures IsAddressChar(d[i]) {
      if i < k {
        assert d[i] == s[at + 1..dot][i];
      } else if i > k {
        assert d[i] == s[dot + 1..][i - k - 1];
      }
    }
  }

  /** The check accepts exactly the well-formed addresses. */
  lemma IsValidEmailCharacterised(s: string)
    ensures IsValidEmail(s) <==> WellFormedAddress(s)
  {
    if IsValidEmail(s) {
      CheckImpliesWellFormed(s);
    }
    if WellFormedAddress(s) {
      WellFormedImpliesCheck(s);
    }
  }

  lemma CheckImpliesWellFormed(s: string)
    requires IsValidEmail(s)
    ensures WellFormedAddress(s)
  {
    var at := IndexOf(s, '@').value;
    var d := s[at + 1..];
    SplitAt(s, at);
    assert '@' !in d by {
      forall i | 0 <= i < |d| ensures d[i] != '@' { assert IsAddressChar(d[i]); }
    }
    assert Occurrences(s, '@') == 1;
    forall i | 0 <= i < |s| ensures !IsWhitespace(s[i]) {
      if i < at { assert s[i] == s[..at][i]; }
      else if i > at { assert s[i] == d[i - at - 1]; }
    }
  }

  lemma WellFormedImpliesCheck(s: string)
    requires WellFormedAddress(s)
    ensures IsValidEmail(s)
  {
    var at :| 0 < at < |s| && s[at] == '@' && HasInnerDot(s[at + 1..]);
    var d := s[at + 1..];
    SplitAt(s, at);
    assert '@' !in s[..at] && '@' !in d;
    assert IndexOf(s, '@') == Some(at);
    forall i | 0 <= i < at ensures IsAddressChar(s[..at][i]) {
      assert s[..at][i] == s[i];
    }
    forall i | 0 <= i < |d| ensures IsAddressChar(d[i]) {
      assert d[i] == s[at + 1 + i];
    }
  }

  /** Counting across the `@` at index `at`. */
  lemma SplitAt(s: string, at: nat)
    requires at < |s| && s[at] == '@'
    ensures Occurrences(s, '@') == Occurrences(s[..at], '@') + 1 + Occurrences(s[at + 1..], '@')
  {
    var before, middle, after := s[..at], [s[at]], s[at + 1..];
    assert s == before + (middle + after);
    OccurrencesConcat(before, middle + after, '@');
    OccurrencesConcat(middle, after, '@');
    assert Occurrences(middle, '@') == 1 by {
      assert middle[1..] == [];
    }
  }

  lemma {:induction false} OccurrencesConcat(a: string, b: string, c: char)
    ensures Occurrences(a + b, c) == Occurrences(a, c) + Occurrences(b, c)
  {
    if |a| == 0 {
      assert a + b == b;
    } else {
      assert (a + b)[1..] == a[1..] + b;
      OccurrencesConcat(a[1..], b, c);
    }
  }
}
