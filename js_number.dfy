/**
 * The JavaScript number operations the product-code generator relies on:
 * `Number.prototype.toString()` for integral values, `parseInt` with the
 * default radix, and `Math.max` over a non-empty list.
 */
module JsNumber {
  import opened Wrappers
  import opened JsString

  function DigitChar(d: nat): (c: char)
    requires d < 10
    ensures IsDigit(c)
  {
    ('0' as int + d) as char
  }

  function DigitValue(c: char): (d: nat)
    requires IsDigit(c)
    ensures d < 10 && DigitChar(d) == c
  {
    c as int - '0' as int
  }

  predicate AllDigits(s: string) {
    forall i :: 0 <= i < |s| ==> IsDigit(s[i])
  }

  function Pow10(k: nat): (p: nat)
    ensures p >= 1
  {
    if k == 0 then 1 else 10 * Pow10(k - 1)
  }

  /**
   * The value of a string of decimal digits, read most significant digit
   * first: `k` digits stay below `10^k`, and without a leading zero they
   * reach `10^(k-1)`.
   */
  function DigitsValue(s: string): (v: nat)
    requires AllDigits(s)
    ensures v < Pow10(|s|)
    ensures s != [] && s[0] != '0' ==> Pow10(|s| - 1) <= v
  {
    if s == [] then 0 else 10 * DigitsValue(s[..|s| - 1]) + DigitValue(s[|s| - 1])
  }

  /** The decimal rendering of a natural number, without leading zeros. */
  function NatToString(n: nat): (s: string)
    ensures |s| >= 1 && AllDigits(s)
    ensures s[0] == '0' <==> n == 0
  {
    if n < 10 then [DigitChar(n)] else NatToString(n / 10) + [DigitChar(n % 10)]
  }

  /** `n.toString()` for an integral number: an optional `-` followed by decimal digits. */
  function IntToString(n: int): (s: string)
    ensures |s| >= 1
    ensures s[0] == '-' <==> n < 0
    ensures IsDigit(s[0]) || s[0] == '-'
    ensures forall i :: 1 <= i < |s| ==> IsDigit(s[i])
  {
    if n < 0 then "-" + NatToString(-n) else NatToString(n)
  }

  /** The longest prefix of `s` made of decimal digits. */
  function LeadingDigits(s: string): (d: string)
    ensures d <= s && AllDigits(d)
    ensures |d| == |s| || !IsDigit(s[|d|])
  {
    if s != [] && IsDigit(s[0]) then [s[0]] + LeadingDigits(s[1..]) else []
  }

  /**
   * `parseInt(s)`: skips leading whitespace, reads an optional sign and then
   * the longest run of decimal digits; `None` where JavaScript yields `NaN`.
   */
  function ParseInt(s: string): (v: Option<int>)
    ensures v.Some? && v.value < 0 ==> TrimStart(s) != [] && TrimStart(s)[0] == '-'
    ensures v.Some? ==> exists i :: 0 <= i < |TrimStart(s)| && IsDigit(TrimStart(s)[i])
  {
    var t := TrimStart(s);
    var negative := t != [] && t[0] == '-';
    var rest := if t != [] && (t[0] == '-' || t[0] == '+') then t[1..] else t;
    var ds := LeadingDigits(rest);
    var v: int := if ds == [] then 0 else DigitsValue(ds);
    if ds == [] then None else if negative then Some(-v) else Some(v)
  }

  /** `Math.max(...s)` for a non-empty list. */
  function SeqMax(s: seq<int>): (m: int)
    requires |s| > 0
    ensures m in s
    ensures forall x :: x in s ==> x <= m
  {
    if |s| == 1 then s[0]
    else
      var m := SeqMax(s[1..]);
      assert s == [s[0]] + s[1..];
      if s[0] >= m then s[0] else m
  }

  lemma {:induction false} DigitsValueOfNatToString(n: nat)
    ensures DigitsValue(NatToString(n)) == n
  {
    var s := NatToString(n);
    if n >= 10 {
      DigitsValueOfNatToString(n / 10);
      assert s[..|s| - 1] == NatToString(n / 10);
    }
  }

  lemma TenTimesPlusDigit(a: nat, x: nat)
    requires x < 10
    ensures (10 * a + x) / 10 == a && (10 * a + x) % 10 == x
  {
  }

  /** Two digit strings of the same length with the same value are equal. */
  lemma {:induction false} DigitsValueInjective(s: string, t: string)
    requires |s| == |t| && AllDigits(s) && AllDigits(t)
    requires DigitsValue(s) == DigitsValue(t)
    ensures s == t
  {
    if s != [] {
      var a, b := s[..|s| - 1], t[..|t| - 1];
      var x, y := DigitValue(s[|s| - 1]), DigitValue(t[|t| - 1]);
      assert 10 * DigitsValue(a) + x == 10 * DigitsValue(b) + y;
      TenTimesPlusDigit(DigitsValue(a), x);
      TenTimesPlusDigit(DigitsValue(b), y);
      DigitsValueInjective(a, b);
      assert s[|s| - 1] == DigitChar(x) == DigitChar(y) == t[|t| - 1];
      assert s == a + [s[|s| - 1]] && t == b + [t[|t| - 1]];
    }
  }

  lemma {:induction false} LeadingDigitsOfDigits(s: string)
    requires AllDigits(s)
    ensures LeadingDigits(s) == s
  {
    if s != [] {
      LeadingDigitsOfDigits(s[1..]);
    }
  }

  /** Zeros added in front (as `padStart(n, '0')` adds them) do not change the value. */
  lemma {:induction false} DigitsValueOfZeroPadded(k: nat, s: string)
    requires AllDigits(s)
    ensures AllDigits(Repeat('0', k) + s)
    ensures DigitsValue(Repeat('0', k) + s) == DigitsValue(s)
  {
    var z := Repeat('0', k) + s;
    if s == [] {
      assert z == Repeat('0', k);
      if k > 0 {
        assert z[..|z| - 1] == Repeat('0', k - 1) + [];
        DigitsValueOfZeroPadded(k - 1, []);
      }
    } else {
      assert z[..|z| - 1] == Repeat('0', k) + s[..|s| - 1];
      DigitsValueOfZeroPadded(k, s[..|s| - 1]);
    }
  }

  /** `parseInt` reads back what `toString` wrote. */
  lemma ParseIntOfIntToString(n: int)
    ensures ParseInt(IntToString(n)) == Some(n)
  {
    var s := IntToString(n);
    assert !IsJsWhitespace(s[0]);
    assert TrimStart(s) == s;
    var m: nat := if n < 0 then -n else n;
    var rest := if n < 0 then s[1..] else s;
    assert rest == NatToString(m);
    LeadingDigitsOfDigits(rest);
    DigitsValueOfNatToString(m);
  }
}
