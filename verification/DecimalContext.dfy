/**
 Python's default Decimal context: every result is rounded half-even to a number of significant
 digits, 28 by default.  Exponents are unbounded here.
 */
module DecimalContext {
  import opened Wrappers
  import opened Rounding
  import opened Projection

  const PRECISION: nat := 28

  // ---------------------------------------------------------------- powers of ten

  function Pow10(e: int): (r: real)
    ensures r > 0.0
    decreases if e < 0 then -e else e
  {
    if e == 0 then 1.0 else if e > 0 then 10.0 * Pow10(e - 1) else Pow10(e + 1) / 10.0
  }

  function Ten(p: nat): (n: int)
    ensures n >= 1
  {
    if p == 0 then 1 else 10 * Ten(p - 1)
  }

  lemma Pow10Step(e: int)
    ensures Pow10(e + 1) == 10.0 * Pow10(e)
  {
  }

  lemma {:induction false} Pow10Ascends(a: int, b: int)
    requires a <= b
    ensures Pow10(a) <= Pow10(b)
    decreases b - a
  {
    if a < b {
      Pow10Ascends(a, b - 1);
      Pow10Step(b - 1);
    }
  }

  lemma TenTimes(t: real, u: real)
    ensures 10.0 * Times(t, u) == Times(10.0 * t, u)
  {
  }

  /** Scaling a power of ten by `p` places. */
  lemma {:induction false} Pow10Scaled(e: int, p: nat)
    ensures Pow10(e + p) == Times(Ten(p) as real, Pow10(e))
    decreases p
  {
    hide Pow10;
    if p > 0 {
      hide Times;
      Pow10Scaled(e, p - 1);
      Pow10Step(e + p - 1);
      TenTimes(Ten(p - 1) as real, Pow10(e));
    }
  }

  // ---------------------------------------------------------------- rounding to p digits

  /** Multiplying a small number by ten brings its inverse down. */
  lemma Inverse(x: real)
    requires 0.0 < x < 1.0
    ensures 1.0 / x > 1.0
    ensures 10.0 * x < 1.0 ==> 0 <= (1.0 / (10.0 * x)).Floor < (1.0 / x).Floor
  {
    var y, z := 1.0 / x, 1.0 / (10.0 * x);
    assert y * x == 1.0;
    assert y > 1.0 by {
      assert (y - 1.0) * x == 1.0 - x;
    }
    assert z == y / 10.0;
    if 10.0 * x < 1.0 {
      assert y > 10.0 by {
        assert (y - 10.0) * x == 1.0 - 10.0 * x;
      }
    }
  }

  /** The place of the leading digit. */
  function Exponent(x: real): (e: int)
    requires x > 0.0
    ensures Pow10(e) <= x < Pow10(e + 1)
    decreases x < 1.0, if x < 1.0 then (1.0 / x).Floor else x.Floor
  {
    if x >= 10.0 then
      var e := Exponent(x / 10.0);
      Pow10Step(e);
      Pow10Step(e + 1);
      e + 1
    else if x < 1.0 then
      Inverse(x);
      var e := Exponent(10.0 * x);
      Pow10Step(e - 1);
      Pow10Step(e);
      e - 1
    else 0
  }

  lemma ExponentUnique(x: real, e: int)
    requires x > 0.0 && Pow10(e) <= x < Pow10(e + 1)
    ensures Exponent(x) == e
  {
    var f := Exponent(x);
    if f < e {
      Pow10Ascends(f + 1, e);
    } else if e < f {
      Pow10Ascends(e + 1, f);
    }
  }

  /** The unit in the last of `p` places of a number whose leading digit is at `e`. */
  function Unit(p: nat, e: int): (u: real)
    ensures u > 0.0
  {
    Pow10(e + 1 - p)
  }

  function Over(x: real, u: real): real
    requires u > 0.0
  {
    x / u
  }

  /** How many units a positive number is rounded to. */
  function UnitsOf(p: nat, x: real): int
    requires x > 0.0
  {
    HalfEven(Over(x, Unit(p, Exponent(x))))
  }

  function RoundPositive(p: nat, x: real): real
    requires x > 0.0
  {
    Times(UnitsOf(p, x) as real, Unit(p, Exponent(x)))
  }

  function RoundTo(p: nat, x: real): real {
    if x == 0.0 then 0.0 else if x > 0.0 then RoundPositive(p, x) else -RoundPositive(p, -x)
  }

  /** The context as a rounding function for the projection engine. */
  function Context(p: nat): Rounder {
    (x: real) => RoundTo(p, x)
  }

  // ---------------------------------------------------------------- its laws

  lemma Scaled(x: real, u: real, k: real)
    requires u > 0.0
    ensures x < Times(k, u) <==> Over(x, u) < k
  {
    var q := Over(x, u);
    assert x == q * u;
    if q < k {
      assert (k - q) * u > 0.0;
    } else {
      assert (q - k) * u >= 0.0;
    }
  }

  lemma TimesOrder(a: real, b: real, u: real)
    requires u > 0.0 && a <= b
    ensures Times(a, u) <= Times(b, u)
  {
    assert (b - a) * u >= 0.0;
  }

  lemma OverOrder(a: real, b: real, u: real)
    requires u > 0.0 && a <= b
    ensures Over(a, u) <= Over(b, u)
  {
    Scaled(b, u, Over(a, u));
    assert Times(Over(a, u), u) == a;
  }

  lemma UnitScales(p: nat, e: int)
    requires p >= 1
    ensures Pow10(e + 1) == Times(Ten(p) as real, Unit(p, e))
    ensures Pow10(e) == Times(Ten(p - 1) as real, Unit(p, e))
  {
    hide Times, Ten, Pow10;
    Pow10Scaled(e + 1 - p, p);
    Pow10Scaled(e + 1 - p, p - 1);
  }

  /** The rounded number keeps its leading place, or is the power of ten just above. */
  lemma RoundedBounds(p: nat, x: real)
    requires p >= 1 && x > 0.0
    ensures Ten(p - 1) <= UnitsOf(p, x) <= Ten(p)
    ensures Pow10(Exponent(x)) <= RoundPositive(p, x) <= Pow10(Exponent(x) + 1)
  {
    hide HalfEven, Times, Over, Ten, Pow10, Exponent, Unit;
    var e := Exponent(x);
    var u := Unit(p, e);
    var n := UnitsOf(p, x);
    UnitScales(p, e);
    Scaled(x, u, Ten(p) as real);
    Scaled(x, u, Ten(p - 1) as real);
    HalfEvenMonotone(Over(x, u), Ten(p) as real);
    HalfEvenMonotone(Ten(p - 1) as real, Over(x, u));
    HalfEvenOfInteger(Ten(p));
    HalfEvenOfInteger(Ten(p - 1));
    TimesOrder(Ten(p - 1) as real, n as real, u);
    TimesOrder(n as real, Ten(p) as real, u);
  }

  lemma RoundPositiveOrdered(p: nat, x: real, y: real)
    requires p >= 1 && 0.0 < x <= y
    ensures RoundPositive(p, x) <= RoundPositive(p, y)
  {
    hide HalfEven, Times, Over, Ten, Pow10, Exponent, Unit;
    var e, f := Exponent(x), Exponent(y);
    if e == f {
      OverOrder(x, y, Unit(p, e));
      HalfEvenMonotone(Over(x, Unit(p, e)), Over(y, Unit(p, e)));
      TimesOrder(UnitsOf(p, x) as real, UnitsOf(p, y) as real, Unit(p, e));
    } else {
      RoundedBounds(p, x);
      RoundedBounds(p, y);
      if e < f {
        Pow10Ascends(e + 1, f);
      } else {
        Pow10Ascends(f + 1, e);
      }
    }
  }

  lemma WholeUnits(n: int, u: real)
    requires u > 0.0
    ensures HalfEven(Over(Times(n as real, u), u)) == n
  {
    hide HalfEven;
    assert Over(Times(n as real, u), u) == n as real;
    HalfEvenOfInteger(n);
  }

  lemma TimesOver(n: int, u: real)
    requires u > 0.0
    ensures Over(Times(n as real, u), u) == n as real
  {
  }

  /** A whole number of units with exactly `p` digits is left alone. */
  lemma RoundPositiveFixes(p: nat, n: int, e: int)
    requires p >= 1 && Ten(p - 1) <= n < Ten(p)
    ensures var x := Times(n as real, Unit(p, e)); x > 0.0 && RoundPositive(p, x) == x
  {
    hide HalfEven, Times, Over, Ten, Pow10, Exponent, Unit;
    var u := Unit(p, e);
    var x := Times(n as real, u);
    UnitScales(p, e);
    TimesOrder(Ten(p - 1) as real, n as real, u);
    Scaled(x, u, Ten(p) as real);
    TimesOver(n, u);
    ExponentUnique(x, e);
    WholeUnits(n, u);
  }

  /** The power of ten just above is the least number of `p` digits one place up. */
  lemma CarriedUnits(p: nat, e: int)
    requires p >= 1
    ensures Times(Ten(p) as real, Unit(p, e)) == Times(Ten(p - 1) as real, Unit(p, e + 1))
  {
    hide Times, Ten, Pow10, Unit;
    UnitScales(p, e);
    UnitScales(p, e + 1);
  }

  lemma TenGrows(p: nat)
    requires p >= 1
    ensures Ten(p - 1) < Ten(p)
  {
  }

  lemma RoundPositiveIdempotent(p: nat, x: real)
    requires p >= 1 && x > 0.0
    ensures RoundPositive(p, x) > 0.0
    ensures RoundPositive(p, RoundPositive(p, x)) == RoundPositive(p, x)
  {
    hide HalfEven, Times, Over, Ten, Pow10, Exponent, Unit, UnitsOf;
    var n, e := UnitsOf(p, x), Exponent(x);
    RoundedBounds(p, x);
    TenGrows(p);
    if n < Ten(p) {
      RoundPositiveFixes(p, n, e);
    } else {
      CarriedUnits(p, e);
      RoundPositiveFixes(p, Ten(p - 1), e + 1);
    }
  }

  lemma OneIsKept(p: nat)
    requires p >= 1
    ensures RoundPositive(p, 1.0) == 1.0
  {
    hide Times, Ten, Unit, RoundPositive;
    assert Pow10(0) == 1.0;
    UnitScales(p, 0);
    TenGrows(p);
    RoundPositiveFixes(p, Ten(p - 1), 0);
  }

  lemma RoundToOrdered(p: nat, x: real, y: real)
    requires p >= 1 && x <= y
    ensures RoundTo(p, x) <= RoundTo(p, y)
  {
    hide RoundPositive;
    if x > 0.0 {
      RoundPositiveOrdered(p, x, y);
    } else if y < 0.0 {
      RoundPositiveOrdered(p, -y, -x);
    }
    if y > 0.0 { RoundPositiveIdempotent(p, y); }
    if x < 0.0 { RoundPositiveIdempotent(p, -x); }
  }

  /**
   Rounding to any positive number of significant digits, Decimal's 28 among them, is monotone and
   idempotent and keeps zero and one: the ordering results hold for the arithmetic the code uses.
   */
  lemma DecimalIsARounder(p: nat)
    requires p >= 1
    ensures Monotone(Context(p)) && Idempotent(Context(p)) && FixesUnits(Context(p))
  {
    hide RoundPositive;
    forall x, y | AtMost(x, y)
      ensures Context(p)(x) <= Context(p)(y)
    {
      RoundToOrdered(p, x, y);
    }
    forall x
      ensures Context(p)(Context(p)(x)) == Context(p)(x)
    {
      if x > 0.0 { RoundPositiveIdempotent(p, x); }
      if x < 0.0 { RoundPositiveIdempotent(p, -x); }
    }
    OneIsKept(p);
  }

  /** A better scenario is never answered later in Decimal's own arithmetic. */
  lemma BetterScenarioNeverLaterInDecimal(s: Scenario, t: Scenario, outcome1: Outcome, outcome2: Outcome)
    requires InRange(s) && InRange(t)
    requires Current(s) <= Current(t) && Contribution(s) <= Contribution(t) && AnnualPct(s) <= AnnualPct(t)
    requires s.target.Some? && t.target.Some? && 0.0 < t.target.value <= s.target.value
    requires Answers(Context(PRECISION), s, outcome1) && Answers(Context(PRECISION), t, outcome2)
    ensures NoLater(outcome2.months, outcome1.months)
  {
    DecimalIsARounder(PRECISION);
    BetterScenarioNeverLater(Context(PRECISION), s, t, outcome1, outcome2);
  }

  // ---------------------------------------------------------------- how far rounding drifts

  /** Rounding a non-negative number moves it by at most a fraction `u` of itself. */
  ghost predicate WithinRelative(rd: Rounder, u: real) {
    forall x :: 0.0 <= x ==> Times(x, 1.0 - u) <= rd(x) <= Times(x, 1.0 + u)
  }

  /** `x` stands for the exact `y` after at most `k` roundings. */
  predicate Drift(x: real, y: real, u: real, k: nat) {
    Times(y, Power(1.0 - u, k)) <= x <= Times(y, Power(1.0 + u, k))
  }

  lemma {:induction false} PowerBounds(u: real, k: nat)
    requires 0.0 <= u <= 1.0
    ensures 0.0 <= Power(1.0 - u, k) <= 1.0 <= Power(1.0 + u, k)
    decreases k
  {
    if k > 0 {
      PowerBounds(u, k - 1);
      ProductMonotone(Power(1.0 - u, k - 1), 1.0, 1.0 - u, 1.0);
      ProductMonotone(0.0, Power(1.0 - u, k - 1), 1.0 - u, 1.0 - u);
      ProductMonotone(1.0, Power(1.0 + u, k - 1), 1.0, 1.0 + u);
    }
  }

  lemma TimesAssociates(x: real, y: real, z: real)
    ensures Times(Times(x, y), z) == Times(x, Times(y, z))
  {
  }

  lemma {:induction false} PowerAdds(w: real, j: nat, k: nat)
    ensures Power(w, j + k) == Times(Power(w, j), Power(w, k))
    decreases k
  {
    if k > 0 {
      PowerAdds(w, j, k - 1);
      TimesAssociates(Power(w, j), Power(w, k - 1), w);
    }
  }

  lemma NoDrift(x: real, u: real)
    ensures Drift(x, x, u, 0)
  {
  }

  lemma DriftNonNegative(x: real, y: real, u: real, k: nat)
    requires Drift(x, y, u, k) && 0.0 <= y && 0.0 <= u <= 1.0
    ensures 0.0 <= x
  {
    hide Power;
    PowerBounds(u, k);
    ProductMonotone(0.0, y, 0.0, Power(1.0 - u, k));
  }

  lemma TimesOrderNonNegative(a: real, b: real, u: real)
    requires u >= 0.0 && a <= b
    ensures Times(a, u) <= Times(b, u)
  {
    assert (b - a) * u >= 0.0;
  }

  lemma DriftRound(rd: Rounder, x: real, y: real, u: real, k: nat)
    requires WithinRelative(rd, u) && 0.0 <= u <= 1.0
    requires 0.0 <= y && Drift(x, y, u, k)
    ensures Drift(rd(x), y, u, k + 1)
  {
    hide Times;
    var a, b := 1.0 - u, 1.0 + u;
    DriftNonNegative(x, y, u, k);
    TimesOrderNonNegative(Times(y, Power(a, k)), x, a);
    TimesOrderNonNegative(x, Times(y, Power(b, k)), b);
    TimesAssociates(y, Power(a, k), a);
    TimesAssociates(y, Power(b, k), b);
  }

  lemma TimesSwaps(a: real, b: real, c: real, d: real)
    ensures Times(Times(a, b), Times(c, d)) == Times(Times(a, c), Times(b, d))
  {
  }

  lemma DriftTimes(x: real, y: real, v: real, w: real, u: real, j: nat, k: nat)
    requires 0.0 <= u <= 1.0 && 0.0 <= y && 0.0 <= w && Drift(x, y, u, j) && Drift(v, w, u, k)
    ensures Drift(Times(x, v), Times(y, w), u, j + k)
  {
    var a, b := 1.0 - u, 1.0 + u;
    DriftNonNegative(x, y, u, j);
    DriftNonNegative(v, w, u, k);
    PowerBounds(u, j);
    PowerBounds(u, k);
    ProductMonotone(0.0, y, 0.0, Power(a, j));
    ProductMonotone(0.0, w, 0.0, Power(a, k));
    hide Power;
    ProductMonotone(Times(y, Power(a, j)), x, Times(w, Power(a, k)), v);
    ProductMonotone(x, Times(y, Power(b, j)), v, Times(w, Power(b, k)));
    hide Times;
    TimesSwaps(y, Power(a, j), w, Power(a, k));
    TimesSwaps(y, Power(b, j), w, Power(b, k));
    PowerAdds(a, j, k);
    PowerAdds(b, j, k);
  }

  lemma TimesShrinks(c: real, a: real)
    requires 0.0 <= c
    ensures a <= 1.0 ==> Times(c, a) <= c
    ensures a >= 1.0 ==> Times(c, a) >= c
  {
    if a <= 1.0 {
      assert c * (1.0 - a) >= 0.0;
    } else {
      assert c * (a - 1.0) >= 0.0;
    }
  }

  lemma TimesAdds(x: real, y: real, w: real)
    ensures Times(x + y, w) == Times(x, w) + Times(y, w)
  {
  }

  lemma DriftAdd(x: real, y: real, c: real, u: real, k: nat)
    requires 0.0 <= u <= 1.0 && 0.0 <= c && Drift(x, y, u, k)
    ensures Drift(x + c, y + c, u, k)
  {
    hide Power, Times;
    PowerBounds(u, k);
    TimesShrinks(c, Power(1.0 - u, k));
    TimesShrinks(c, Power(1.0 + u, k));
    TimesAdds(y, c, Power(1.0 - u, k));
    TimesAdds(y, c, Power(1.0 + u, k));
  }

  lemma DriftTwelfth(x: real, y: real, u: real, k: nat)
    requires Drift(x, y, u, k)
    ensures Drift(x / 12.0, y / 12.0, u, k)
  {
    hide Power;
  }

  lemma RateDrift(rd: Rounder, annualPct: real, u: real)
    requires WithinRelative(rd, u) && 0.0 <= u <= 1.0 && 0.0 <= annualPct
    ensures Drift(rd(1.0 + MonthlyRate(rd, annualPct)), 1.0 + MonthlyRate(Exactly, annualPct), u, 3)
  {
    hide Drift, WithinRelative;
    var y := annualPct / 100.0;
    NoDrift(y, u);
    DriftRound(rd, y, y, u, 0);
    DriftTwelfth(rd(y), y, u, 1);
    DriftRound(rd, rd(y) / 12.0, y / 12.0, u, 1);
    DriftAdd(MonthlyRate(rd, annualPct), y / 12.0, 1.0, u, 2);
    DriftRound(rd, 1.0 + MonthlyRate(rd, annualPct), 1.0 + y / 12.0, u, 2);
  }

  lemma ExactNonNegative(current: real, c: real, p: real, n: nat)
    requires 0.0 <= current && 0.0 <= c && 0.0 <= p
    ensures 0.0 <= Balance(Exactly, current, c, p, n)
  {
    BalanceMonotone(Exactly, Exactly, current, current, c, c, p, p, n);
  }

  lemma ExactFactor(p: real)
    requires 0.0 <= p
    ensures 1.0 <= 1.0 + MonthlyRate(Exactly, p)
  {
  }

  lemma ProductNonNegative(x: real, y: real)
    requires 0.0 <= x && 0.0 <= y
    ensures 0.0 <= Times(x, y)
  {
  }

  /** Five roundings a month: the rounded balance is the exact one after `5 * n` of them. */
  lemma {:induction false} BalanceDrift(rd: Rounder, current: real, c: real, p: real, u: real, n: nat)
    requires WithinRelative(rd, u) && 0.0 <= u <= 1.0 && 0.0 <= current && 0.0 <= c && 0.0 <= p
    ensures Drift(Balance(rd, current, c, p, n), Balance(Exactly, current, c, p, n), u, 5 * n)
    decreases n
  {
    hide Drift, WithinRelative, MonthlyRate, Times;
    if n == 0 {
      NoDrift(current, u);
    } else {
      var x, y := Balance(rd, current, c, p, n - 1), Balance(Exactly, current, c, p, n - 1);
      var g, w := rd(1.0 + MonthlyRate(rd, p)), 1.0 + MonthlyRate(Exactly, p);
      BalanceDrift(rd, current, c, p, u, n - 1);
      RateDrift(rd, p, u);
      ExactNonNegative(current, c, p, n - 1);
      ExactFactor(p);
      DriftTimes(x, y, g, w, u, 5 * (n - 1), 3);
      ProductNonNegative(y, w);
      DriftRound(rd, Times(x, g), Times(y, w), u, 5 * (n - 1) + 3);
      DriftAdd(rd(Times(x, g)), Times(y, w), c, u, 5 * (n - 1) + 4);
      DriftRound(rd, rd(Times(x, g)) + c, Times(y, w) + c, u, 5 * (n - 1) + 4);
    }
  }

  // ---------------------------------------------------------------- in numbers

  lemma OneMoreDown(w: real, m: real, u: real)
    requires 0.0 <= u <= 1.0 && 0.0 <= m && 1.0 - m <= w
    ensures 1.0 - (m + u) <= Times(w, 1.0 - u)
  {
    TimesOrderNonNegative(1.0 - m, w, 1.0 - u);
    assert m * u >= 0.0;
  }

  lemma OneMoreUp(w: real, m: real, u: real)
    requires 0.0 <= u <= 1.0 && 0.0 <= m <= 1.0 && w <= 1.0 + m
    ensures Times(w, 1.0 + u) <= 1.0 + (m + 2.0 * u)
  {
    TimesOrderNonNegative(w, 1.0 + m, 1.0 + u);
    assert (1.0 - m) * u >= 0.0;
  }

  /** After `k` roundings at most the fraction `2 * k * u` is gained or lost. */
  lemma {:induction false} Bernoulli(u: real, k: nat)
    requires 0.0 <= u <= 1.0
    ensures Power(1.0 - u, k) >= 1.0 - Times(k as real, u)
    ensures 2.0 * Times(k as real, u) <= 1.0 ==> Power(1.0 + u, k) <= 1.0 + 2.0 * Times(k as real, u)
    decreases k
  {
    if k > 0 {
      var m := Times((k - 1) as real, u);
      Bernoulli(u, k - 1);
      ProductNonNegative((k - 1) as real, u);
      TimesAdds((k - 1) as real, 1.0, u);
      assert Times(k as real, u) == m + u;
      OneMoreDown(Power(1.0 - u, k - 1), m, u);
      if 2.0 * Times(k as real, u) <= 1.0 {
        OneMoreUp(Power(1.0 + u, k - 1), 2.0 * m, u);
      }
    }
  }

  /** Half a unit in the last place, relative to the smallest number of `p` digits. */
  function HalfUnit(p: nat): real
    requires p >= 1
  {
    0.5 / Ten(p - 1) as real
  }

  lemma HalfEvenNear(x: real)
    ensures x - 0.5 <= HalfEven(x) as real <= x + 0.5
  {
  }

  lemma OverTimes(x: real, u: real)
    requires u > 0.0
    ensures Times(Over(x, u), u) == x
    ensures Times(Over(x, u) - 0.5, u) == x - 0.5 * u
    ensures Times(Over(x, u) + 0.5, u) == x + 0.5 * u
  {
    assert Over(x, u) * u == x;
  }

  lemma HalfUnitOf(t: real, u: real, x: real)
    requires t >= 1.0 && u > 0.0 && Times(t, u) <= x
    ensures Times(x, 1.0 - 0.5 / t) <= x - 0.5 * u && x + 0.5 * u <= Times(x, 1.0 + 0.5 / t)
  {
    var h := 0.5 / t;
    assert h * t == 0.5 && h > 0.0;
    assert (x - t * u) * h >= 0.0;
    assert t * u * h == 0.5 * u;
  }

  lemma RoundPositiveNear(p: nat, x: real)
    requires p >= 1 && x > 0.0
    ensures Times(x, 1.0 - HalfUnit(p)) <= RoundPositive(p, x) <= Times(x, 1.0 + HalfUnit(p))
  {
    hide HalfEven, Ten, Pow10, Exponent, Unit;
    var e := Exponent(x);
    var u := Unit(p, e);
    var q := Over(x, u);
    UnitScales(p, e);
    HalfEvenNear(q);
    OverTimes(x, u);
    TimesOrder(q - 0.5, UnitsOf(p, x) as real, u);
    TimesOrder(UnitsOf(p, x) as real, q + 0.5, u);
    HalfUnitOf(Ten(p - 1) as real, u, x);
  }

  lemma ContextWithin(p: nat)
    requires p >= 1
    ensures WithinRelative(Context(p), HalfUnit(p))
  {
    forall x | 0.0 <= x
      ensures Times(x, 1.0 - HalfUnit(p)) <= Context(p)(x) <= Times(x, 1.0 + HalfUnit(p))
    {
      if x > 0.0 {
        RoundPositiveNear(p, x);
      }
    }
  }

  lemma {:induction false} TenAdds(a: nat, b: nat)
    ensures Ten(a + b) == Ten(a) * Ten(b)
    decreases b
  {
    if b > 0 {
      TenAdds(a, b - 1);
    }
  }

  lemma TenTo27()
    ensures Ten(27) == 1_000_000_000_000_000_000_000_000_000
  {
    assert Ten(3) == 10 * Ten(2) == 100 * Ten(1) == 1000;
    TenAdds(3, 3);
    TenAdds(6, 3);
    TenAdds(9, 9);
    TenAdds(18, 9);
  }

  const MAX_DRIFT: real := 3.0 / 1_000_000_000_000_000_000_000_000.0

  lemma TimesLeft(y: real, a: real, b: real)
    requires 0.0 <= y && a <= b
    ensures Times(y, a) <= Times(y, b)
  {
    assert y * (b - a) >= 0.0;
  }

  lemma SmallDrift(x: real, y: real, k: nat)
    requires 0.0 <= y && Drift(x, y, HalfUnit(PRECISION), k) && k <= 3000
    ensures Times(y, 1.0 - MAX_DRIFT) <= x <= Times(y, 1.0 + MAX_DRIFT)
  {
    var u := HalfUnit(PRECISION);
    TenTo27();
    assert u == 0.5 / 1_000_000_000_000_000_000_000_000_000.0;
    TimesOrderNonNegative(k as real, 3000.0, u);
    assert 2.0 * Times(3000.0, u) == MAX_DRIFT;
    Bernoulli(u, k);
    ProductNonNegative(k as real, u);
    hide Power, Times, HalfUnit;
    TimesLeft(y, 1.0 - MAX_DRIFT, Power(1.0 - u, k));
    TimesLeft(y, Power(1.0 + u, k), 1.0 + MAX_DRIFT);
  }

  lemma HalfUnitRange()
    ensures 0.0 <= HalfUnit(PRECISION) <= 1.0
  {
    TenTo27();
  }

  /**
   Throughout the search window the balance that Decimal computes is within 3 parts in 10^24 of the
   closed-form future value.
   */
  lemma DecimalTracksFutureValue(current: real, c: real, p: real, n: nat)
    requires 0.0 <= current && 0.0 <= c && 0.0 <= p && n <= MAX_MONTHS
    ensures var exact := FutureValue(current, c, p / 100.0 / 12.0, n);
      && 0.0 <= exact
      && Times(exact, 1.0 - MAX_DRIFT) <= Balance(Context(PRECISION), current, c, p, n) <= Times(exact, 1.0 + MAX_DRIFT)
  {
    hide Drift, Balance, Context, HalfUnit, Times, FutureValue;
    ContextWithin(PRECISION);
    HalfUnitRange();
    BalanceDrift(Context(PRECISION), current, c, p, HalfUnit(PRECISION), n);
    ExactNonNegative(current, c, p, n);
    LoopIsFutureValue(current, c, p, n);
    SmallDrift(Balance(Context(PRECISION), current, c, p, n), Balance(Exactly, current, c, p, n), 5 * n);
  }

  /** The exact balance after `m` months is not so close to the target that rounding could decide. */
  predicate Clear(current: real, c: real, p: real, target: real, m: nat) {
    var exact := FutureValue(current, c, p / 100.0 / 12.0, m);
    Times(exact, 1.0 + MAX_DRIFT) < target || target <= Times(exact, 1.0 - MAX_DRIFT)
  }

  ghost predicate ClearOfTarget(current: real, c: real, p: real, target: real) {
    forall m: nat :: 1 <= m <= MAX_MONTHS ==> Clear(current, c, p, target, m)
  }

  lemma SameSide(current: real, c: real, p: real, target: real, m: nat)
    requires 0.0 <= current && 0.0 <= c && 0.0 <= p && 1 <= m <= MAX_MONTHS
    requires ClearOfTarget(current, c, p, target)
    ensures Balance(Context(PRECISION), current, c, p, m) >= target <==> Balance(Exactly, current, c, p, m) >= target
  {
    var exact := FutureValue(current, c, p / 100.0 / 12.0, m);
    assert Clear(current, c, p, target, m);
    hide Balance, Context, Times, FutureValue;
    DecimalTracksFutureValue(current, c, p, m);
    LoopIsFutureValue(current, c, p, m);
    TimesShrinks(exact, 1.0 - MAX_DRIFT);
    TimesShrinks(exact, 1.0 + MAX_DRIFT);
  }

  lemma SameHits(d: nat -> real, x: nat -> real, target: real, maxMonths: int, answer: Option<nat>)
    requires forall m: nat :: 1 <= m <= maxMonths ==> (d(m) >= target <==> x(m) >= target)
    ensures FirstHitOn(d, target, maxMonths, answer) <==> FirstHitOn(x, target, maxMonths, answer)
  {
  }

  /** When no month is that close, the month that Decimal reports is the month of exact arithmetic. */
  lemma DecimalAnswerIsExact(current: real, c: real, p: real, target: real, answer: Option<nat>)
    requires 0.0 <= current && 0.0 <= c && 0.0 <= p && ClearOfTarget(current, c, p, target)
    ensures FirstHit(Context(PRECISION), current, c, p, target, MAX_MONTHS, answer) <==>
            FirstHit(Exactly, current, c, p, target, MAX_MONTHS, answer)
  {
    var d, x := Path(Context(PRECISION), current, c, p), Path(Exactly, current, c, p);
    forall m: nat | 1 <= m <= MAX_MONTHS
      ensures d(m) >= target <==> x(m) >= target
    {
      SameSide(current, c, p, target, m);
    }
    hide Path;
    SameHits(d, x, target, MAX_MONTHS, answer);
  }

  // ---------------------------------------------------------------- numbers that are kept

  lemma TimesStrict(a: real, b: real, u: real)
    requires u > 0.0 && a < b
    ensures Times(a, u) < Times(b, u)
  {
    assert (b - a) * u > 0.0;
  }

  /** A number below ten to the `k + p` has its last of `p` places at or below `k`. */
  lemma PlaceBelow(p: nat, x: real, k: int)
    requires x > 0.0 && x < Pow10(k + p)
    ensures Exponent(x) + 1 - p <= k
  {
    hide Pow10;
    if Exponent(x) >= k + p {
      Pow10Ascends(k + p, Exponent(x));
    }
  }

  lemma UnitBelow(p: nat, e: int, k: int)
    requires e + 1 - p <= k
    ensures Pow10(k) == Times(Ten(k - (e + 1 - p)) as real, Unit(p, e))
  {
    hide Pow10, Ten;
    Pow10Scaled(e + 1 - p, k - (e + 1 - p));
  }

  lemma TimesWhole(n: int, t: int, u: real)
    ensures Times(n as real, Times(t as real, u)) == Times((n * t) as real, u)
  {
    assert (n * t) as real == n as real * t as real;
  }

  lemma WholeKept(p: nat, x: real, m: int)
    requires p >= 1 && x > 0.0 && x == Times(m as real, Unit(p, Exponent(x)))
    ensures RoundTo(p, x) == x && RoundTo(p, -x) == -x
  {
    hide HalfEven, Times, Over, Exponent, Unit;
    WholeUnits(m, Unit(p, Exponent(x)));
  }

  /** A whole number of at most `p` digits, at any decimal place, is not rounded. */
  lemma KeepsDigits(p: nat, n: int, k: int)
    requires p >= 1 && 1 <= n < Ten(p)
    ensures var x := Times(n as real, Pow10(k)); x > 0.0 && RoundTo(p, x) == x && RoundTo(p, -x) == -x
  {
    var x := Times(n as real, Pow10(k));
    assert x > 0.0 by { TimesOrder(1.0, n as real, Pow10(k)); }
    var e := Exponent(x);
    hide HalfEven, Times, Over, Ten, Pow10, Exponent, Unit, RoundPositive, UnitsOf;
    Pow10Scaled(k, p);
    TimesStrict(n as real, Ten(p) as real, Pow10(k));
    PlaceBelow(p, x, k);
    var places := k - (e + 1 - p);
    UnitBelow(p, e, k);
    TimesWhole(n, Ten(places), Unit(p, e));
    WholeKept(p, x, n * Ten(places));
  }
}
