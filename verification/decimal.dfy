/** Decimal rendering of numbers, as JavaScript's `Number.prototype.toFixed(1)`
    produces it, on exact real arithmetic. */
module Decimal {

  function DigitChar(d: nat): (c: char)
    requires d < 10
    ensures '0' <= c <= '9'
  {
    ('0' as int + d) as char
  }

  function DigitValue(c: char): (d: nat)
    requires '0' <= c <= '9'
    ensures d < 10
  {
    c as int - '0' as int
  }

  /** A non-empty run of decimal digits. */
  predicate IsDigits(s: string) {
    |s| >= 1 && forall i :: 0 <= i < |s| ==> '0' <= s[i] <= '9'
  }

  /** The decimal numeral of `n`, without leading zeros. */
  function NatToDecimal(n: nat): (s: string)
    ensures IsDigits(s)
    ensures s[0] == '0' ==> s == "0"
  {
    if n < 10 then [DigitChar(n)] else NatToDecimal(n / 10) + [DigitChar(n % 10)]
  }

  /** The number a run of digits denotes. */
  function DecimalValue(s: string): nat
    requires forall i :: 0 <= i < |s| ==> '0' <= s[i] <= '9'
  {
    if |s| == 0 then 0 else DecimalValue(s[..|s| - 1]) * 10 + DigitValue(s[|s| - 1])
  }

  /** Reading back a rendered numeral gives the number rendered. */
  lemma {:induction false} DecimalRoundTrip(n: nat)
    ensures DecimalValue(NatToDecimal(n)) == n
  {
    var s := NatToDecimal(n);
    if n >= 10 {
      DecimalRoundTrip(n / 10);
      assert s[..|s| - 1] == NatToDecimal(n / 10);
    }
  }

  /** `x` rounded to the nearest tenth, counted in tenths; a tie goes to the
      larger value, as `toFixed` specifies. */
  function RoundTenths(x: real): (n: nat)
    requires x >= 0.0
    ensures x * 10.0 - 0.5 < n as real <= x * 10.0 + 0.5
  {
    (x * 10.0 + 0.5).Floor
  }

  /** The shape `toFixed(1)` produces: an optional minus sign, a non-empty
      run of digits without a leading zero (a lone `0` aside), a point and
      exactly one fractional digit. */
  predicate IsFixed1(s: string) {
    var u := if |s| > 0 && s[0] == '-' then s[1..] else s;
    && |u| >= 3
    && u[|u| - 2] == '.'
    && IsDigits(u[..|u| - 2])
    && (u[0] == '0' ==> u[..|u| - 2] == "0")
    && '0' <= u[|u| - 1] <= '9'
  }

  /** The number a string of shape `IsFixed1` denotes. */
  function Fixed1Value(s: string): real
    requires IsFixed1(s)
  {
    var neg := |s| > 0 && s[0] == '-';
    var u := if neg then s[1..] else s;
    var v := DecimalValue(u[..|u| - 2]) as real + DigitValue(u[|u| - 1]) as real / 10.0;
    if neg then -v else v
  }

  function UnsignedFixed1(x: real): (s: string)
    requires x >= 0.0
    ensures IsFixed1(s) && s[0] != '-'
  {
    var n := RoundTenths(x);
    NatToDecimal(n / 10) + "." + [DigitChar(n % 10)]
  }

  /** `x.toFixed(1)` for an `x` below 10^21 in magnitude. */
  function ToFixed1(x: real): (s: string)
    ensures IsFixed1(s)
    ensures (|s| > 0 && s[0] == '-') <==> x < 0.0
  {
    if x < 0.0 then "-" + UnsignedFixed1(-x) else UnsignedFixed1(x)
  }

  lemma UnsignedFixed1Value(x: real)
    requires x >= 0.0
    ensures Fixed1Value(UnsignedFixed1(x)) == RoundTenths(x) as real / 10.0
  {
    var n := RoundTenths(x);
    var s := UnsignedFixed1(x);
    assert s[..|s| - 2] == NatToDecimal(n / 10);
    DecimalRoundTrip(n / 10);
    assert (n / 10) as real + (n % 10) as real / 10.0 == n as real / 10.0;
  }

  /** A minus sign in front negates the value read back. */
  lemma NegatedValue(u: string)
    requires IsFixed1(u) && u[0] != '-'
    ensures IsFixed1("-" + u) && Fixed1Value("-" + u) == -Fixed1Value(u)
  {
    assert ("-" + u)[1..] == u;
  }

  /** The rendered string reads back as the nearest tenth to `x`: it is off
      by at most a twentieth, and a tie is resolved away from zero. */
  lemma ToFixed1Nearest(x: real)
    ensures var v := Fixed1Value(ToFixed1(x));
      && x - 0.05 <= v <= x + 0.05
      && (x >= 0.0 ==> x - 0.05 < v)
      && (x < 0.0 ==> v < x + 0.05)
  {
    if x < 0.0 {
      UnsignedFixed1Value(-x);
      NegatedValue(UnsignedFixed1(-x));
    } else {
      UnsignedFixed1Value(x);
    }
  }
}
