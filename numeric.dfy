/** The numeric conversions of Python that the gesture code relies on, on exact reals:
    `int(r)` on a float, which truncates toward zero, and `round(x, n)`, which rounds to
    `n` decimal places with ties going to the even neighbour. The binary representation of
    floats is not modelled: every value here is an exact real. */
module Numeric {

  function Abs(x: real): (r: real)
    ensures 0.0 <= r && (r == x || r == -x)
  {
    if x < 0.0 then -x else x
  }

  /** `int(r)`: the integer part of `r`, dropping the fraction toward zero. */
  function Trunc(r: real): (n: int)
    ensures 0.0 <= r ==> n as real <= r < n as real + 1.0
    ensures r < 0.0 ==> n as real - 1.0 < r <= n as real
  {
    if 0.0 <= r then r.Floor else -((-r).Floor)
  }

  function Pow10(d: nat): (p: nat)
    ensures 1 <= p
  {
    if d == 0 then 1 else 10 * Pow10(d - 1)
  }

  /** The integer nearest to `v`; a value exactly half-way between two integers goes to the
      even one. */
  function RoundHalfEven(v: real): (n: int)
    ensures n as real - 0.5 <= v <= n as real + 0.5
    ensures v == n as real - 0.5 || v == n as real + 0.5 ==> n % 2 == 0
  {
    var f := v.Floor;
    var frac := v - f as real;
    if frac < 0.5 then f
    else if frac > 0.5 then f + 1
    else if f % 2 == 0 then f
    else f + 1
  }

  /** The two properties in the contract of RoundHalfEven pin its result down: no other
      integer has both. */
  lemma RoundHalfEvenUnique(v: real, n: int)
    requires n as real - 0.5 <= v <= n as real + 0.5
    requires v == n as real - 0.5 || v == n as real + 0.5 ==> n % 2 == 0
    ensures n == RoundHalfEven(v)
  {
  }

  /** Rounding to the nearest integer never reverses the order of two values. */
  lemma RoundHalfEvenMonotone(v: real, w: real)
    requires v <= w
    ensures RoundHalfEven(v) <= RoundHalfEven(w)
  {
  }

  /** `x` measured in units of the last kept decimal place. */
  function InDecimalUnits(x: real, digits: nat): real
  {
    x * Pow10(digits) as real
  }

  /** `round(x, digits)`. The result has at most `digits` decimals: scaled by
      `10^digits` it is a whole number. */
  function Round(x: real, digits: nat): (r: real)
    ensures InDecimalUnits(r, digits) == RoundHalfEven(InDecimalUnits(x, digits)) as real
  {
    var n := RoundHalfEven(InDecimalUnits(x, digits)) as real;
    var p := Pow10(digits) as real;
    DivideMultiply(n, p);
    n / p
  }

  lemma DivideMultiply(n: real, p: real)
    requires p != 0.0
    ensures n / p * p == n
  {
  }

  /** Rounding moves a value by at most half a unit in the last kept decimal place. */
  lemma RoundError(x: real, digits: nat)
    ensures Abs(Round(x, digits) - x) <= 0.5 / Pow10(digits) as real
  {
    var p := Pow10(digits) as real;
    var v := InDecimalUnits(x, digits);
    var n := RoundHalfEven(v) as real;
    var r := Round(x, digits);
    assert r == n / p;
    assert x == v / p by {
      MultiplyDivide(x, p);
    }
    QuotientError(n, v, p);
  }

  lemma QuotientError(n: real, v: real, p: real)
    requires 1.0 <= p && -0.5 <= n - v <= 0.5
    ensures Abs(n / p - v / p) <= 0.5 / p
  {
    DivideDifference(n, v, p);
    DivideMonotone(n - v, 0.5, p);
    DivideMonotone(-0.5, n - v, p);
    assert -0.5 / p == -(0.5 / p);
  }

  lemma MultiplyDivide(x: real, p: real)
    requires p != 0.0
    ensures x * p / p == x
  {
  }

  lemma DivideDifference(a: real, b: real, p: real)
    requires p != 0.0
    ensures a / p - b / p == (a - b) / p
  {
  }

  lemma DivideMonotone(a: real, b: real, p: real)
    requires 0.0 < p && a <= b
    ensures a / p <= b / p
  {
    assert b / p - a / p == (b - a) / p;
  }

  /** Rounding to a fixed number of decimals is monotone. */
  lemma RoundMonotone(x: real, y: real, digits: nat)
    requires x <= y
    ensures Round(x, digits) <= Round(y, digits)
  {
    var p := Pow10(digits) as real;
    var v, w := InDecimalUnits(x, digits), InDecimalUnits(y, digits);
    assert v <= w;
    RoundHalfEvenMonotone(v, w);
    DivideMonotone(RoundHalfEven(v) as real, RoundHalfEven(w) as real, p);
  }

  /** A whole number is already rounded, whatever the number of decimals. */
  lemma RoundInteger(n: int, digits: nat)
    ensures Round(n as real, digits) == n as real
  {
    var p := Pow10(digits);
    assert InDecimalUnits(n as real, digits) == (n * p) as real;
    RoundHalfEvenUnique((n * p) as real, n * p);
    assert (n as real * p as real) / p as real == n as real;
  }
}
