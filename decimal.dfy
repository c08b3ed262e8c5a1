/**
 * Decimal rendering of non-negative integers, as `Number.prototype.toString`
 * produces it, and the zero-filling `padStart(len, "0")` the log uses.
 */
module Decimal {

  function Pow10(k: nat): (p: nat)
    ensures p >= 1
    ensures k >= 1 ==> p >= 10
  {
    if k == 0 then 1 else 10 * Pow10(k - 1)
  }

  predicate IsDigit(c: char) {
    '0' <= c <= '9'
  }

  predicate AllDigits(s: string) {
    forall i :: 0 <= i < |s| ==> IsDigit(s[i])
  }

  function DigitChar(d: nat): (c: char)
    requires d < 10
    ensures IsDigit(c)
  {
    ('0' as int + d) as char
  }

  function DigitValue(c: char): (d: nat)
    requires IsDigit(c)
    ensures d < 10
  {
    c as int - '0' as int
  }

  /** The value a string of decimal digits denotes (most significant digit first). */
  function ValueOf(s: string): nat
    requires AllDigits(s)
  {
    if s == [] then 0 else 10 * ValueOf(s[..|s| - 1]) + DigitValue(s[|s| - 1])
  }

  /** `n.toString()` for a non-negative integer: its decimal digits, no leading zeros. */
  function ToDecimal(n: nat): (s: string)
    ensures 1 <= |s| && AllDigits(s)
    ensures s[0] == '0' <==> n == 0
    ensures |s| == 1 <==> n < 10
  {
    if n < 10 then [DigitChar(n)] else ToDecimal(n / 10) + [DigitChar(n % 10)]
  }

  /** Reading back the digits of `n` gives `n`. */
  lemma {:induction false} ValueOfToDecimal(n: nat)
    ensures ValueOf(ToDecimal(n)) == n
  {
    var s := ToDecimal(n);
    if n >= 10 {
      assert s[..|s| - 1] == ToDecimal(n / 10);
      ValueOfToDecimal(n / 10);
    }
  }

  /** `n` has at most `k` digits exactly when it is below 10^k. */
  lemma {:induction false} ToDecimalLength(n: nat, k: nat)
    requires k >= 1
    ensures |ToDecimal(n)| <= k <==> n < Pow10(k)
  {
    if n >= 10 && k >= 2 {
      ToDecimalLength(n / 10, k - 1);
      var p := Pow10(k - 1);
      assert n == 10 * (n / 10) + n % 10;
      assert n / 10 < p <==> n < 10 * p;
    }
  }

  function Zeros(k: nat): (z: string)
    ensures |z| == k && AllDigits(z)
    ensures forall i :: 0 <= i < k ==> z[i] == '0'
  {
    seq(k, _ => '0')
  }

  /** `s.padStart(len, "0")`: `s` itself when already `len` long, else zeros in front up to `len`. */
  function PadStart(s: string, len: nat): (r: string)
    ensures |r| == if len <= |s| then |s| else len
    ensures r[|r| - |s|..] == s
    ensures forall i :: 0 <= i < |r| - |s| ==> r[i] == '0'
  {
    if len <= |s| then s else Zeros(len - |s|) + s
  }

  /** `val.toString().padStart(len, "0")`, the `pad` helper of the alarm log. */
  function Pad(v: nat, len: nat): (r: string)
    ensures AllDigits(r)
    ensures |r| >= len
  {
    PadStart(ToDecimal(v), len)
  }

  lemma {:induction false} ValueOfZeros(k: nat)
    ensures ValueOf(Zeros(k)) == 0
  {
    if k > 0 {
      assert Zeros(k)[..k - 1] == Zeros(k - 1);
      ValueOfZeros(k - 1);
    }
  }

  /** Leading zeros do not change the value of a digit string. */
  lemma {:induction false} ValueOfLeadingZeros(k: nat, s: string)
    requires AllDigits(s)
    ensures AllDigits(Zeros(k) + s)
    ensures ValueOf(Zeros(k) + s) == ValueOf(s)
  {
    var t := Zeros(k) + s;
    if s == [] {
      assert t == Zeros(k);
      ValueOfZeros(k);
    } else {
      assert t[..|t| - 1] == Zeros(k) + s[..|s| - 1];
      ValueOfLeadingZeros(k, s[..|s| - 1]);
    }
  }

  /**
   * `pad(v, len)` is a digit string of length max(len, digits of v) that
   * still denotes `v`.
   */
  lemma PadDenotes(v: nat, len: nat)
    ensures AllDigits(Pad(v, len))
    ensures ValueOf(Pad(v, len)) == v
    ensures |Pad(v, len)| == if len <= |ToDecimal(v)| then |ToDecimal(v)| else len
  {
    var d := ToDecimal(v);
    ValueOfToDecimal(v);
    if len > |d| {
      ValueOfLeadingZeros(len - |d|, d);
    }
  }

  /** For `v < 10^len` (and `len >= 1`), `pad(v, len)` is exactly `len` digits. */
  lemma PadExactWidth(v: nat, len: nat)
    requires 1 <= len && v < Pow10(len)
    ensures |Pad(v, len)| == len
    ensures AllDigits(Pad(v, len)) && ValueOf(Pad(v, len)) == v
  {
    ToDecimalLength(v, len);
    PadDenotes(v, len);
  }
}
