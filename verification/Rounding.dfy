/** The three Decimal roundings the application uses, on exact reals. */
module Rounding {

  /** ROUND_CEILING to an integer. */
  function Ceiling(x: real): (c: int)
    ensures x <= c as real < x + 1.0
  {
    -((-x).Floor)
  }

  /** Decimal's default ROUND_HALF_EVEN to an integer, as `round(x, 0)` applies it. */
  function HalfEven(x: real): (n: int)
    ensures n as real - 0.5 <= x <= n as real + 0.5
    ensures x == n as real + 0.5 || x == n as real - 0.5 ==> n % 2 == 0
  {
    var f := x.Floor;
    var part := x - f as real;
    if part < 0.5 || (part == 0.5 && f % 2 == 0) then f else f + 1
  }

  /** ROUND_HALF_UP to an integer: ties move away from zero. */
  function HalfUp(x: real): (n: int)
    ensures n as real - 0.5 <= x <= n as real + 0.5
    ensures x >= 0.0 ==> x < n as real + 0.5
    ensures x < 0.0 ==> n as real - 0.5 < x
  {
    if x >= 0.0 then (x + 0.5).Floor else -((-x + 0.5).Floor)
  }

  /** Nearest-integer results at most one apart are told apart by the tie rule alone. */
  lemma HalfEvenMonotone(x: real, y: real)
    requires x <= y
    ensures HalfEven(x) <= HalfEven(y)
  {
    var m, n := HalfEven(x), HalfEven(y);
    assert m as real - 0.5 <= n as real + 0.5;
  }

  lemma HalfEvenOfInteger(n: int)
    ensures HalfEven(n as real) == n
  {
  }

  /** `_round2`: half-up to whole cents. */
  function Round2(x: real): real {
    HalfUp(x * 100.0) as real / 100.0
  }
}
