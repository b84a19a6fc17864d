/**
 * Character-counted text helpers: the padding of Rust's `{:>w}`, `{:<w}`
 * and `{:^w}` format specifiers, decimal rendering and parsing of integers
 * as `i32::from_str` and `u32::from_str` accept them, and ASCII lowercasing.
 */
module Text {

  import opened Wrappers

  function Spaces(n: nat): (r: string)
    ensures |r| == n
    ensures forall i :: 0 <= i < n ==> r[i] == ' '
  {
    seq(n, _ => ' ')
  }

  lemma SpacesAdd(a: nat, b: nat)
    ensures Spaces(a) + Spaces(b) == Spaces(a + b)
  {
  }

  /** The larger of two integers. */
  function Max(a: int, b: int): (m: int)
    ensures a <= m && b <= m && (m == a || m == b)
  {
    if a < b then b else a
  }

  /** `{:>w}`: right-aligned in a field of w characters; a longer text is kept whole. */
  function PadLeft(s: string, w: nat): (r: string)
    ensures |r| == Max(|s|, w)
    ensures s <= r[|r| - |s|..] && r[..|r| - |s|] == Spaces(|r| - |s|)
  {
    if |s| >= w then s else Spaces(w - |s|) + s
  }

  /** `{:<w}`: left-aligned in a field of w characters. */
  function PadRight(s: string, w: nat): (r: string)
    ensures |r| == Max(|s|, w)
    ensures s <= r && r[|s|..] == Spaces(|r| - |s|)
  {
    if |s| >= w then s else s + Spaces(w - |s|)
  }

  /**
   * `{:^w}`: centred in a field of w characters; when the padding is odd
   * the extra space goes on the right.
   */
  function Center(s: string, w: nat): (r: string)
    ensures |r| == Max(|s|, w)
    ensures var left := (|r| - |s|) / 2;
      r == Spaces(left) + s + Spaces(|r| - |s| - left)
      && left <= |r| - |s| - left <= left + 1
  {
    if |s| >= w then s
    else
      var pad := w - |s|;
      Spaces(pad / 2) + s + Spaces((pad + 1) / 2)
  }

  predicate IsDigit(c: char) {
    '0' <= c <= '9'
  }

  predicate AllDigits(s: string) {
    forall i :: 0 <= i < |s| ==> IsDigit(s[i])
  }

  function DigitChar(d: int): (c: char)
    requires 0 <= d <= 9
    ensures IsDigit(c) && c as int - '0' as int == d
  {
    ('0' as int + d) as char
  }

  function DigitValue(c: char): (d: int)
    requires IsDigit(c)
    ensures 0 <= d <= 9 && DigitChar(d) == c
  {
    c as int - '0' as int
  }

  /** The decimal digits of n, most significant first, without leading zeros. */
  function DecimalString(n: nat): (r: string)
    ensures |r| >= 1 && AllDigits(r)
    ensures |r| > 1 ==> r[0] != '0'
  {
    if n < 10 then [DigitChar(n)] else DecimalString(n / 10) + [DigitChar(n % 10)]
  }

  /** Decimal rendering of a signed integer, as Rust's `Display` for integers. */
  function IntString(v: int): (r: string)
    ensures |r| >= 1
  {
    if v < 0 then "-" + DecimalString(-v) else DecimalString(v)
  }

  /** The value of a string of decimal digits; leading zeros are allowed. */
  function DigitsValue(s: string): (v: nat)
    requires AllDigits(s)
  {
    if s == [] then 0 else DigitsValue(s[..|s| - 1]) * 10 + DigitValue(s[|s| - 1])
  }

  lemma {:induction false} DigitsValueOfDecimal(n: nat)
    ensures DigitsValue(DecimalString(n)) == n
  {
    if n >= 10 {
      var s := DecimalString(n);
      assert s[..|s| - 1] == DecimalString(n / 10);
      assert DigitValue(s[|s| - 1]) == n % 10;
      DigitsValueOfDecimal(n / 10);
    }
  }

  function Pow10(k: nat): (p: nat)
    ensures p >= 1
  {
    if k == 0 then 1 else 10 * Pow10(k - 1)
  }

  /** A number below 10^k has at most k digits. */
  lemma {:induction false} DecimalLength(n: nat, k: nat)
    requires k >= 1 && n < Pow10(k)
    ensures |DecimalString(n)| <= k
  {
    if n >= 10 {
      assert k >= 2;
      assert n / 10 < Pow10(k - 1);
      DecimalLength(n / 10, k - 1);
    }
  }

  const I32Min: int := -0x8000_0000
  const I32Max: int := 0x7FFF_FFFF
  const U32Max: int := 0xFFFF_FFFF

  /**
   * The integer `from_str` reads: an optional sign followed by one or more
   * decimal digits. A '-' is read only when the target type is signed.
   */
  function ReadInteger(s: string, signed: bool): (r: Option<int>)
    ensures r.Some? ==> |s| >= 1 && (IsDigit(s[0]) || s[0] == '+' || (signed && s[0] == '-'))
    ensures r.Some? && !signed ==> r.value >= 0
  {
    if |s| == 0 then None
    else if (s[0] == '+' || s[0] == '-') && |s| == 1 then None
    else
      var negative := signed && s[0] == '-';
      var digits := if s[0] == '+' || negative then s[1..] else s;
      if AllDigits(digits) then
        var magnitude: int := DigitsValue(digits);
        Some(if negative then -magnitude else magnitude)
      else None
  }

  /** `i32::from_str`: an integer in the range of i32, or no value. */
  function FromStrI32(s: string): (r: Option<int>)
    ensures r.Some? ==> I32Min <= r.value <= I32Max
  {
    match ReadInteger(s, true)
    case Some(v) => if I32Min <= v <= I32Max then Some(v) else None
    case None => None
  }

  /** `u32::from_str`: an integer in the range of u32, or no value. */
  function FromStrU32(s: string): (r: Option<int>)
    ensures r.Some? ==> 0 <= r.value <= U32Max
  {
    match ReadInteger(s, false)
    case Some(v) => if 0 <= v <= U32Max then Some(v) else None
    case None => None
  }

  /** A string starting with a character that is neither a digit nor a sign is never an integer. */
  lemma NotAnInteger(s: string, signed: bool)
    requires |s| >= 1 && !IsDigit(s[0]) && s[0] != '+' && s[0] != '-'
    ensures ReadInteger(s, signed) == None
  {
  }

  /** Printing an i32 and reading it back gives the same value. */
  lemma {:induction false} FromStrI32OfIntString(v: int)
    requires I32Min <= v <= I32Max
    ensures FromStrI32(IntString(v)) == Some(v)
  {
    if v < 0 {
      DigitsValueOfDecimal(-v);
      ReadNegative(DecimalString(-v));
    } else {
      DigitsValueOfDecimal(v);
      ReadDigits(DecimalString(v), true);
    }
  }

  /** Digits without a sign are read as their value, signed or not. */
  lemma ReadDigits(d: string, signed: bool)
    requires |d| >= 1 && AllDigits(d)
    ensures ReadInteger(d, signed) == Some(DigitsValue(d))
  {
    assert IsDigit(d[0]);
  }

  /** A '-' followed by digits is read as the negated value of the digits. */
  lemma ReadNegative(d: string)
    requires |d| >= 1 && AllDigits(d)
    ensures ReadInteger("-" + d, true) == Some(-(DigitsValue(d) as int))
  {
    assert ("-" + d)[1..] == d;
  }

  /** Printing a u32 and reading it back gives the same value. */
  lemma {:induction false} FromStrU32OfDecimal(n: nat)
    requires n <= U32Max
    ensures FromStrU32(DecimalString(n)) == Some(n)
  {
    DigitsValueOfDecimal(n);
    ReadDigits(DecimalString(n), false);
  }

  /** ASCII lowercasing: 'A'..'Z' become 'a'..'z', everything else is kept. */
  function LowerChar(c: char): (r: char)
    ensures 'A' <= c <= 'Z' ==> r as int == c as int + 32
    ensures !('A' <= c <= 'Z') ==> r == c
  {
    if 'A' <= c <= 'Z' then (c as int + 32) as char else c
  }

  function Lower(s: string): (r: string)
    ensures |r| == |s|
    ensures forall i :: 0 <= i < |s| ==> r[i] == LowerChar(s[i])
  {
    seq(|s|, i requires 0 <= i < |s| => LowerChar(s[i]))
  }

  lemma LowerIdempotent(s: string)
    ensures Lower(Lower(s)) == Lower(s)
  {
  }

  /** Lowercasing changes neither digits nor signs, so it never changes what `from_str` reads. */
  lemma {:induction false} ReadIntegerIgnoresCase(s: string, signed: bool)
    ensures ReadInteger(Lower(s), signed) == ReadInteger(s, signed)
  {
    var t := Lower(s);
    if |s| >= 1 {
      assert t[0] == '+' <==> s[0] == '+';
      assert t[0] == '-' <==> s[0] == '-';
      assert t[1..] == Lower(s[1..]);
      LowerKeepsDigits(s);
      LowerKeepsDigits(s[1..]);
    }
  }

  lemma {:induction false} LowerKeepsDigits(s: string)
    ensures AllDigits(Lower(s)) <==> AllDigits(s)
    ensures AllDigits(s) ==> Lower(s) == s
  {
    var t := Lower(s);
    if AllDigits(t) {
      forall i | 0 <= i < |s| ensures IsDigit(s[i]) {
        assert IsDigit(t[i]);
      }
    }
  }

  // ---------------------------------------------------------------------
  // Characters a padded text can hold

  lemma SpacesLack(n: nat, ch: char)
    requires ch != ' '
    ensures ch !in Spaces(n)
  {
  }

  /** Padding adds only spaces: a character other than a space is in the result only if it is in the text. */
  lemma PaddingLacks(s: string, w: nat, ch: char)
    requires ch != ' ' && ch !in s
    ensures ch !in PadLeft(s, w) && ch !in PadRight(s, w) && ch !in Center(s, w)
  {
    if |s| < w {
      SpacesLack(w - |s|, ch);
      SpacesLack((w - |s|) / 2, ch);
      SpacesLack((w - |s| + 1) / 2, ch);
    }
  }

  /** A rendered integer holds only digits and a minus sign. */
  lemma IntStringLacks(v: int, ch: char)
    requires !IsDigit(ch) && ch != '-'
    ensures ch !in IntString(v)
  {
  }

  /** A number below 10^7 is printed in at most 8 characters, its sign included. */
  lemma IntStringLength(v: int)
    requires -10000000 < v < 10000000
    ensures |IntString(v)| <= 8
  {
    DecimalLength(if v < 0 then -v else v, 7);
  }
}
