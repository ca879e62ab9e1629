/** Decimal text: the digits of a natural number, the standard library's unsigned parser, and
    the value of a decimal fraction. */
module Decimal {
  import opened Prelude
  import opened JsonGrammar

  function DigitChar(d: nat): (c: char)
    requires d < 10
    ensures IsDigit(c) && DigitVal(c) == d
  {
    ('0' as int + d) as char
  }

  function DigitVal(c: char): (d: nat)
    requires IsDigit(c)
    ensures d < 10
  {
    c as int - '0' as int
  }

  /** `to_string` of an unsigned integer. */
  function DecText(n: nat): (s: string)
    ensures s != "" && IsDigits(s)
    ensures s[0] == '0' ==> n == 0 && s == "0"
  {
    if n < 10 then [DigitChar(n)] else DecText(n / 10) + [DigitChar(n % 10)]
  }

  function DecValue(s: string): nat
    requires IsDigits(s)
  {
    if s == "" then 0 else 10 * DecValue(s[..|s| - 1]) + DigitVal(s[|s| - 1])
  }

  /** `parse` of an unsigned integer type with largest value `max`: an optional plus sign and
      at least one digit. */
  function ParseUnsigned(s: string, max: nat): Option<nat> {
    var digits := if s != "" && s[0] == '+' then s[1..] else s;
    if digits == "" || !IsDigits(digits) then None
    else if DecValue(digits) > max then None
    else Some(DecValue(digits))
  }

  lemma {:induction false} DecRoundTrip(n: nat)
    ensures DecValue(DecText(n)) == n
  {
    if n >= 10 {
      DecRoundTrip(n / 10);
      assert DecText(n)[..|DecText(n)| - 1] == DecText(n / 10);
    }
  }

  /** Printing and parsing an unsigned integer are inverse exactly within its range. */
  lemma ParsePrinted(n: nat, max: nat)
    ensures ParseUnsigned(DecText(n), max) == if n <= max then Some(n) else None
  {
    DecRoundTrip(n);
    assert IsDigit(DecText(n)[0]);
  }

  function Pow10(k: nat): (p: nat)
    ensures p > 0
  {
    if k == 0 then 1 else 10 * Pow10(k - 1)
  }

  /** The value of `whole.fraction`. */
  function FractionValue(whole: string, fraction: string): real
    requires IsDigits(whole) && IsDigits(fraction)
  {
    DecValue(whole + fraction) as real / Pow10(|fraction|) as real
  }

  lemma DecValueSnoc(s: string, c: char)
    requires IsDigits(s) && IsDigit(c)
    ensures IsDigits(s + [c]) && DecValue(s + [c]) == 10 * DecValue(s) + DigitVal(c)
  {
    assert (s + [c])[..|s|] == s;
  }

  /** A trailing zero of the fraction carries no value. */
  lemma DropZero(whole: string, fraction: string)
    requires IsDigits(whole) && IsDigits(fraction)
    ensures FractionValue(whole, fraction + "0") == FractionValue(whole, fraction)
  {
    DecValueSnoc(whole + fraction, '0');
    assert whole + (fraction + "0") == whole + fraction + "0";
    var v, p := DecValue(whole + fraction) as real, Pow10(|fraction|) as real;
    assert |fraction + "0"| == |fraction| + 1;
    assert Pow10(|fraction| + 1) as real == 10.0 * p;
    Cancel(v, p);
  }

  lemma Cancel(v: real, p: real)
    requires p > 0.0
    ensures (10.0 * v) / (10.0 * p) == v / p
  {
    var q := v / p;
    assert v == q * p;
    assert 10.0 * v == q * (10.0 * p);
  }

  /** The last `k` digits of `n`, zero-padded. */
  function Pad(n: nat, k: nat): (s: string)
    ensures |s| == k && IsDigits(s)
  {
    if k == 0 then "" else Pad(n / 10, k - 1) + [DigitChar(n % 10)]
  }

  lemma PadStep(whole: string, n: nat, k: nat)
    requires IsDigits(whole) && k > 0
    ensures DecValue(whole + Pad(n, k)) == 10 * DecValue(whole + Pad(n / 10, k - 1)) + n % 10
  {
    hide DecValue;
    DecValueSnoc(whole + Pad(n / 10, k - 1), DigitChar(n % 10));
    assert whole + Pad(n, k) == whole + Pad(n / 10, k - 1) + [DigitChar(n % 10)];
  }

  lemma Shifted(w: nat, p: nat, n: nat)
    ensures 10 * (w * p + n / 10) + n % 10 == w * (10 * p) + n
  {}

  lemma {:induction false} PadValue(whole: string, n: nat, k: nat)
    requires IsDigits(whole) && n < Pow10(k)
    ensures DecValue(whole + Pad(n, k)) == DecValue(whole) * Pow10(k) + n
  {
    if k == 0 {
      assert whole + "" == whole;
    } else {
      hide DecValue, DigitChar;
      PadValue(whole, n / 10, k - 1);
      PadStep(whole, n, k);
      Shifted(DecValue(whole), Pow10(k - 1), n);
    }
  }

  /** `x` in millionths, rounded to nearest with ties to even. */
  function Millionths(x: real): (n: nat)
    requires x >= 0.0
  {
    var floor := (x * 1000000.0).Floor;
    var rest := x * 1000000.0 - floor as real;
    if rest < 0.5 || (rest == 0.5 && floor % 2 == 0) then floor else floor + 1
  }

  predicate IsMillionths(x: real) {
    (x * 1000000.0).Floor as real == x * 1000000.0
  }

  function TrimZeros(fraction: string): (t: string)
    ensures |t| <= |fraction|
    ensures IsDigits(fraction) ==> IsDigits(t)
  {
    if fraction != "" && fraction[|fraction| - 1] == '0' then TrimZeros(fraction[..|fraction| - 1]) else fraction
  }

  lemma {:induction false} TrimKeepsValue(whole: string, fraction: string)
    requires IsDigits(whole) && IsDigits(fraction)
    ensures FractionValue(whole, TrimZeros(fraction)) == FractionValue(whole, fraction)
  {
    if fraction != "" && fraction[|fraction| - 1] == '0' {
      var shorter := fraction[..|fraction| - 1];
      TrimKeepsValue(whole, shorter);
      DropZero(whole, shorter);
      assert fraction == shorter + "0";
    }
  }

  /** The two digit strings of a number of millionths, trimmed as the protocol prints them:
      no trailing zeros, but at least one fraction digit. */
  function WholeDigits(n: nat): (s: string)
    ensures s != "" && IsDigits(s) && (s[0] == '0' ==> |s| == 1)
  {
    DecText(n / 1000000)
  }

  function FractionDigits(n: nat): (s: string)
    ensures s != "" && IsDigits(s)
  {
    var t := TrimZeros(Pad(n % 1000000, 6));
    if t == "" then "0" else t
  }

  lemma PrintedMillionths(n: nat)
    ensures FractionValue(WholeDigits(n), FractionDigits(n)) == n as real / 1000000.0
  {
    var whole, padded := WholeDigits(n), Pad(n % 1000000, 6);
    assert Pow10(6) == 1000000 by {
      assert Pow10(2) == 100 && Pow10(4) == 10000;
    }
    DecRoundTrip(n / 1000000);
    PadValue(whole, n % 1000000, 6);
    TrimKeepsValue(whole, padded);
    if TrimZeros(padded) == "" {
      DropZero(whole, "");
      assert "" + "0" == "0";
    }
  }
}
