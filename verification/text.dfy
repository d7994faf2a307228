/** Character classes and run lengths used by the date patterns.

    The regular expressions of the date handler use three character classes:
    `\d` (restricted here to the ASCII digits), the separator set `[-/.]`, and
    `\s` (Python's Unicode whitespace, written out below). */
module Text {

  /** `\d`, restricted to ASCII digits */
  predicate IsDigit(c: char) {
    '0' <= c <= '9'
  }

  /** the separator class `[-/.]` */
  predicate IsSeparator(c: char) {
    c == '-' || c == '/' || c == '.'
  }

  /** `\s` for a `str` pattern: exactly the characters for which Python's
      `str.isspace()` holds */
  predicate IsSpace(c: char) {
    || '\t' <= c <= '\r'
    || '\U{1C}' <= c <= '\U{1F}'
    || c == ' '
    || c == '\U{85}'
    || c == '\U{A0}'
    || c == '\U{1680}'
    || '\U{2000}' <= c <= '\U{200A}'
    || c == '\U{2028}'
    || c == '\U{2029}'
    || c == '\U{202F}'
    || c == '\U{205F}'
    || c == '\U{3000}'
  }

  predicate DigitAt(s: string, k: int) {
    0 <= k < |s| && IsDigit(s[k])
  }

  predicate SpaceAt(s: string, k: int) {
    0 <= k < |s| && IsSpace(s[k])
  }

  /** The `n` characters of `s` from position `i` on exist and are all digits. */
  predicate Digits(s: string, i: nat, n: nat)
    decreases n
  {
    i + n <= |s| && (n == 0 || (IsDigit(s[i]) && Digits(s, i + 1, n - 1)))
  }

  /** The `n` characters of `s` from position `i` on exist and are all whitespace. */
  predicate Spaces(s: string, i: nat, n: nat)
    decreases n
  {
    i + n <= |s| && (n == 0 || (IsSpace(s[i]) && Spaces(s, i + 1, n - 1)))
  }

  /** Each character of a digit run is a digit. */
  lemma {:induction false} DigitsAt(s: string, i: nat, n: nat, k: nat)
    requires Digits(s, i, n) && i <= k < i + n
    ensures DigitAt(s, k)
    decreases n
  {
    if k > i {
      DigitsAt(s, i + 1, n - 1, k);
    }
  }

  /** A stretch whose every character is a digit is a digit run. */
  lemma {:induction false} DigitsOf(s: string, i: nat, n: nat)
    requires i + n <= |s|
    requires forall k {:trigger DigitAt(s, k)} :: i <= k < i + n ==> DigitAt(s, k)
    ensures Digits(s, i, n)
    decreases n
  {
    if n > 0 {
      assert DigitAt(s, i);
      DigitsOf(s, i + 1, n - 1);
    }
  }

  /** A digit run is a digit run over any shorter length too. */
  lemma {:induction false} DigitsPrefix(s: string, i: nat, n: nat, m: nat)
    requires Digits(s, i, n) && m <= n
    ensures Digits(s, i, m)
    decreases m
  {
    if m > 0 {
      DigitsPrefix(s, i + 1, n - 1, m - 1);
    }
  }

  /** A stretch of `s` equal to a string of digits is a digit run. */
  lemma DigitsOfSlice(s: string, i: nat, t: string)
    requires i + |t| <= |s| && s[i..i + |t|] == t && AllDigits(t)
    ensures Digits(s, i, |t|)
  {
    forall k | i <= k < i + |t|
      ensures DigitAt(s, k)
    {
      assert s[k] == t[k - i];
    }
    DigitsOf(s, i, |t|);
  }

  /** Each character of a whitespace run is whitespace. */
  lemma {:induction false} SpacesAt(s: string, i: nat, n: nat, k: nat)
    requires Spaces(s, i, n) && i <= k < i + n
    ensures SpaceAt(s, k)
    decreases n
  {
    if k > i {
      SpacesAt(s, i + 1, n - 1, k);
    }
  }

  /** The length of the longest run of digits that starts at `i`. */
  function DigitRun(s: string, i: nat): (n: nat)
    requires i <= |s|
    ensures Digits(s, i, n)
    ensures !DigitAt(s, i + n)
    decreases |s| - i
  {
    if i < |s| && IsDigit(s[i]) then 1 + DigitRun(s, i + 1) else 0
  }

  /** The length of the longest run of whitespace that starts at `i`. */
  function SpaceRun(s: string, i: nat): (n: nat)
    requires i <= |s|
    ensures Spaces(s, i, n)
    ensures !SpaceAt(s, i + n)
    decreases |s| - i
  {
    if i < |s| && IsSpace(s[i]) then 1 + SpaceRun(s, i + 1) else 0
  }

  /** A run of `n` digits followed by a non-digit is the maximal run. */
  lemma {:induction false} DigitRunExact(s: string, i: nat, n: nat)
    requires Digits(s, i, n)
    requires !DigitAt(s, i + n)
    ensures DigitRun(s, i) == n
    decreases n
  {
    if n > 0 {
      DigitRunExact(s, i + 1, n - 1);
    }
  }

  /** A run of `n` whitespace characters followed by a non-space is the maximal run. */
  lemma {:induction false} SpaceRunExact(s: string, i: nat, n: nat)
    requires Spaces(s, i, n)
    requires !SpaceAt(s, i + n)
    ensures SpaceRun(s, i) == n
    decreases n
  {
    if n > 0 {
      SpaceRunExact(s, i + 1, n - 1);
    }
  }

  /** The whitespace run from `j` stops at or before any non-space character. */
  lemma {:induction false} SpaceRunStops(s: string, j: nat, i: nat)
    requires j <= i < |s| && !IsSpace(s[i])
    ensures SpaceRun(s, j) <= i - j
    decreases i - j
  {
    if j < i && IsSpace(s[j]) {
      SpaceRunStops(s, j + 1, i);
    }
  }

  /** A digit run found at `i`, as a string of its own. */
  lemma DigitsSlice(s: string, i: nat, n: nat)
    requires Digits(s, i, n)
    ensures AllDigits(s[i..i + n])
  {
    var t := s[i..i + n];
    forall k | 0 <= k < |t|
      ensures IsDigit(t[k])
    {
      DigitsAt(s, i, n, i + k);
      assert t[k] == s[i + k];
    }
  }

  predicate AllDigits(s: string) {
    forall k :: 0 <= k < |s| ==> IsDigit(s[k])
  }

  function Min(a: nat, b: nat): nat {
    if a <= b then a else b
  }
}
