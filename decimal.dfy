/**
 * Decimal numerals as JavaScript prints and parses integers:
 * Number.prototype.toString on an integer, parseInt(s, 10), and the
 * 32-bit conversions that `x | 0` and `x >>> 0` perform.
 */
module Decimal {
  import opened Wrappers

  const TwoTo31: int := 0x8000_0000
  const TwoTo32: int := 0x1_0000_0000

  predicate IsDigit(c: char) {
    '0' <= c <= '9'
  }

  predicate AllDigits(s: string) {
    forall i :: 0 <= i < |s| ==> IsDigit(s[i])
  }

  function DigitValue(c: char): (d: nat)
    requires IsDigit(c)
    ensures d < 10
  {
    c as int - '0' as int
  }

  function DigitChar(d: nat): (c: char)
    requires d < 10
    ensures IsDigit(c) && DigitValue(c) == d
  {
    ('0' as int + d) as char
  }

  /** The value of a string of decimal digits, most significant digit first. */
  function DigitsValue(s: string): nat
    requires AllDigits(s)
  {
    if s == [] then 0 else DigitsValue(s[..|s| - 1]) * 10 + DigitValue(s[|s| - 1])
  }

  /** The decimal numeral JavaScript prints for a non-negative integer. */
  function NatToString(n: nat): (s: string)
    ensures |s| > 0 && AllDigits(s)
    ensures (s[0] == '0') == (n == 0)
    ensures n == 0 ==> s == "0"
  {
    if n < 10 then [DigitChar(n)] else NatToString(n / 10) + [DigitChar(n % 10)]
  }

  /** The decimal numeral JavaScript prints for an integer. */
  function IntToString(n: int): string {
    if n < 0 then "-" + NatToString(-n) else NatToString(n)
  }

  /** Printing and reading back a natural number gives it back. */
  lemma {:induction false} DigitsValueOfNatToString(n: nat)
    ensures DigitsValue(NatToString(n)) == n
  {
    if n >= 10 {
      var s := NatToString(n);
      assert s[..|s| - 1] == NatToString(n / 10);
      DigitsValueOfNatToString(n / 10);
    }
  }

  /** Distinct natural numbers print as distinct numerals. */
  lemma NatToStringInjective(m: nat, n: nat)
    requires NatToString(m) == NatToString(n)
    ensures m == n
  {
    DigitsValueOfNatToString(m);
    DigitsValueOfNatToString(n);
  }

  /**
   * The characters parseInt skips before a numeral: ECMAScript's WhiteSpace
   * (including every Unicode space separator) and LineTerminator.
   */
  predicate IsJsSpace(c: char) {
    c == '\t' || c == '\n' || c == '\U{000B}' || c == '\U{000C}' || c == '\r' || c == ' '
    || c == '\U{00A0}' || c == '\U{1680}' || ('\U{2000}' <= c <= '\U{200A}')
    || c == '\U{2028}' || c == '\U{2029}' || c == '\U{202F}' || c == '\U{205F}'
    || c == '\U{3000}' || c == '\U{FEFF}'
  }

  function TrimStart(s: string): (t: string)
    ensures |t| <= |s| && t == s[|s| - |t|..]
    ensures t != [] ==> !IsJsSpace(t[0])
    ensures s != [] && !IsJsSpace(s[0]) ==> t == s
  {
    if s != [] && IsJsSpace(s[0]) then TrimStart(s[1..]) else s
  }

  /** The longest prefix of s made of decimal digits. */
  function DigitPrefix(s: string): (d: string)
    ensures AllDigits(d) && d <= s
    ensures |d| < |s| ==> !IsDigit(s[|d|])
  {
    if s != [] && IsDigit(s[0]) then [s[0]] + DigitPrefix(s[1..]) else []
  }

  lemma {:induction false} DigitPrefixOfDigits(s: string)
    requires AllDigits(s)
    ensures DigitPrefix(s) == s
  {
    if s != [] {
      DigitPrefixOfDigits(s[1..]);
    }
  }

  /**
   * parseInt(s, 10): skip leading white space, read an optional sign and
   * then the longest run of decimal digits. None stands for NaN, the
   * result when no digit follows.
   */
  function ParseInt(s: string): (r: Option<int>)
    ensures r.None? <==> DigitPrefix(SignStripped(TrimStart(s))) == []
  {
    var t := TrimStart(s);
    var sign := if t != [] && t[0] == '-' then -1 else 1;
    var digits := DigitPrefix(SignStripped(t));
    if digits == [] then None else Some(sign * DigitsValue(digits))
  }

  function SignStripped(t: string): string {
    if t != [] && (t[0] == '-' || t[0] == '+') then t[1..] else t
  }

  /** parseInt reads back every integer that JavaScript prints. */
  lemma ParseIntOfIntString(n: int)
    ensures ParseInt(IntToString(n)) == Some(n)
  {
    var m: nat := if n < 0 then -n else n;
    DigitsValueOfNatToString(m);
    if n < 0 {
      ParseIntOfNegative(NatToString(m));
    } else {
      ParseIntOfDigits(NatToString(m));
    }
  }

  /** parseInt reads a minus sign and a numeral as the negated value. */
  lemma ParseIntOfNegative(digits: string)
    requires digits != [] && AllDigits(digits)
    ensures ParseInt("-" + digits) == Some(-(DigitsValue(digits) as int))
  {
    var printed := "-" + digits;
    assert printed[0] == '-' && printed[1..] == digits;
    assert TrimStart(printed) == printed;
    assert SignStripped(printed) == digits;
    DigitPrefixOfDigits(digits);
  }

  /** parseInt reads a plain numeral as the number its digits spell. */
  lemma ParseIntOfDigits(s: string)
    requires s != [] && AllDigits(s)
    ensures ParseInt(s) == Some(DigitsValue(s))
  {
    assert IsDigit(s[0]);
    assert TrimStart(s) == s;
    assert SignStripped(s) == s;
    DigitPrefixOfDigits(s);
  }

  function Pow10(n: nat): (p: nat)
    ensures p >= 1
  {
    if n == 0 then 1 else 10 * Pow10(n - 1)
  }

  lemma {:induction false} Pow10Add(a: nat, b: nat)
    ensures Pow10(a + b) == Pow10(a) * Pow10(b)
    decreases b
  {
    if b > 0 {
      Pow10Add(a, b - 1);
      assert Pow10(a + b) == 10 * Pow10(a + (b - 1));
      assert Pow10(b) == 10 * Pow10(b - 1);
    }
  }

  /** The digits of a followed by those of b: a's value shifted past b's digits, plus b's. */
  lemma {:induction false} DigitsValueAppend(a: string, b: string)
    requires AllDigits(a) && AllDigits(b)
    ensures AllDigits(a + b)
    ensures DigitsValue(a + b) == DigitsValue(a) * Pow10(|b|) + DigitsValue(b)
    decreases |b|
  {
    if b == [] {
      assert a + b == a;
    } else {
      var b' := b[..|b| - 1];
      assert (a + b)[..|a + b| - 1] == a + b';
      assert (a + b)[|a + b| - 1] == b[|b| - 1];
      DigitsValueAppend(a, b');
      assert Pow10(|b|) == 10 * Pow10(|b'|);
      assert DigitsValue(b) == DigitsValue(b') * 10 + DigitValue(b[|b| - 1]);
      ShiftDigit(DigitsValue(a + b), DigitsValue(a + b'), DigitsValue(a), Pow10(|b'|), Pow10(|b|),
                 DigitsValue(b'), DigitValue(b[|b| - 1]), DigitsValue(b));
    }
  }

  /** The arithmetic step of DigitsValueAppend, on plain numbers. */
  lemma ShiftDigit(total: int, prefix: int, x: int, p: int, p10: int, y: int, d: int, v: int)
    requires total == prefix * 10 + d && prefix == x * p + y
    requires p10 == 10 * p && v == y * 10 + d
    ensures total == x * p10 + v
  {
    calc {
      total;
      (x * p + y) * 10 + d;
      { assert (x * p) * 10 == x * (10 * p); }
      x * p10 + v;
    }
  }

  /** ToUint32, the conversion `x >>> 0` applies to an integer. */
  function ToUint32(x: int): (u: nat)
    ensures u < TwoTo32 && (x - u) % TwoTo32 == 0
  {
    x % TwoTo32
  }

  /** ToInt32, the conversion `x | 0` applies to an integer. */
  function ToInt32(x: int): (r: int)
    ensures -TwoTo31 <= r < TwoTo31
    ensures (x - r) % TwoTo32 == 0
    ensures 0 <= x < TwoTo31 ==> r == x
  {
    var u := ToUint32(x);
    if u >= TwoTo31 then u - TwoTo32 else u
  }

  lemma ToInt32OfUpperHalf(a: int)
    requires TwoTo31 <= a < TwoTo32
    ensures ToInt32(a) == a - TwoTo32
  {
  }

  /** ToInt32 only looks at the low 32 bits. */
  lemma ToInt32OfLowWord(x: int)
    ensures ToInt32(x % TwoTo32) == ToInt32(x)
  {
  }

  /** ToInt32 and ToUint32 agree modulo 2^32. */
  lemma ToUint32OfToInt32(x: int)
    ensures ToUint32(ToInt32(x)) == ToUint32(x)
  {
  }
}
