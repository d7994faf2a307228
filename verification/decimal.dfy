/** Python's `int()` on a string of ASCII digits and the `:02d` format
    specification on a non-negative integer. */
module Decimal {
  import opened Text

  function DigitValue(c: char): (d: nat)
    requires IsDigit(c)
    ensures d < 10
  {
    c as int - '0' as int
  }

  function DigitChar(d: nat): (c: char)
    requires d < 10
    ensures IsDigit(c) && DigitValue(c) == d
  {
    ('0' as int + d) as char
  }

  /** `int(s)` for a non-empty string of ASCII digits (leading zeros allowed) */
  function Value(s: string): nat
    requires AllDigits(s)
    decreases |s|
  {
    if s == [] then 0 else 10 * Value(s[..|s| - 1]) + DigitValue(s[|s| - 1])
  }

  /** `str(n)`: the shortest decimal numeral of `n` */
  function ToDecimal(n: nat): (r: string)
    ensures 1 <= |r| && AllDigits(r)
    ensures Value(r) == n
    ensures |r| > 1 ==> r[0] != '0'
  {
    if n < 10 then
      [DigitChar(n)]
    else
      var front := ToDecimal(n / 10);
      var r := front + [DigitChar(n % 10)];
      assert r[..|r| - 1] == front;
      r
  }

  /** Leading zeros do not change the value. */
  lemma {:induction false} ValueLeadingZero(s: string)
    requires AllDigits(s)
    ensures AllDigits(['0'] + s) && Value(['0'] + s) == Value(s)
    decreases |s|
  {
    var t := ['0'] + s;
    if s != [] {
      assert t[..|t| - 1] == ['0'] + s[..|s| - 1];
      ValueLeadingZero(s[..|s| - 1]);
    }
  }

  /** `format(n, "02d")`: the decimal numeral of `n`, zero-padded on the left
      to at least two characters. */
  function Pad2(n: nat): (r: string)
    ensures AllDigits(r) && |r| >= 2
    ensures Value(r) == n
    ensures |r| > 2 ==> r[0] != '0'
  {
    var d := ToDecimal(n);
    if |d| < 2 then
      ValueLeadingZero(d);
      ['0'] + d
    else
      d
  }

  /** A two-digit numeral survives `int()` followed by `:02d` verbatim. */
  lemma Pad2KeepsTwoDigits(t: string)
    requires |t| == 2 && AllDigits(t)
    ensures Pad2(Value(t)) == t
  {
    var hi, lo := DigitValue(t[0]), DigitValue(t[1]);
    assert t[..1] == [t[0]];
    assert Value([t[0]]) == hi by {
      assert [t[0]][..0] == [];
    }
    var n := Value(t);
    assert n == 10 * hi + lo;
    if hi == 0 {
      assert ToDecimal(n) == [DigitChar(lo)];
      assert DigitChar(lo) == t[1];
      assert t[0] == '0';
    } else {
      assert n / 10 == hi && n % 10 == lo;
      assert ToDecimal(n) == [DigitChar(hi)] + [DigitChar(lo)];
      assert DigitChar(hi) == t[0] && DigitChar(lo) == t[1];
    }
  }

  /** A one-digit numeral gains exactly one leading zero. */
  lemma Pad2PadsOneDigit(t: string)
    requires |t| == 1 && AllDigits(t)
    ensures Pad2(Value(t)) == ['0'] + t
  {
    assert t[..0] == [];
    assert ToDecimal(Value(t)) == [DigitChar(DigitValue(t[0]))];
    assert DigitChar(DigitValue(t[0])) == t[0];
    assert [t[0]] == t;
  }

  /** `str(int(t))` is never longer than `t`. */
  lemma {:induction false} ToDecimalNotLonger(t: string)
    requires 1 <= |t| && AllDigits(t)
    ensures |ToDecimal(Value(t))| <= |t|
    decreases |t|
  {
    var u := t[..|t| - 1];
    var n := Value(t);
    if n >= 10 {
      assert n / 10 == Value(u);
      assert |u| >= 1;
      ToDecimalNotLonger(u);
    }
  }

  /** `f"{int(t):02d}"` is at most as long as `t`, or two characters. */
  lemma Pad2NotLonger(t: string)
    requires 1 <= |t| && AllDigits(t)
    ensures |Pad2(Value(t))| <= if |t| < 2 then 2 else |t|
  {
    ToDecimalNotLonger(t);
  }
}
