/**
 The projection engine: month-by-month compounding until a target is reached.

 Every Decimal operation is modelled as "compute exactly, then round" with a rounding
 function `rd` that is a parameter of the model, so the ordering results hold for every
 context precision and rounding mode that is monotone.  The identity gives exact arithmetic.
 */
module Projection {
  import opened Wrappers
  import Rounding

  const MAX_MONTHS: int := 600

  type Rounder = real -> real

  ghost predicate AtMost(x: real, y: real) { x <= y }

  ghost predicate Monotone(rd: Rounder) {
    forall x, y {:trigger AtMost(x, y)} :: AtMost(x, y) ==> rd(x) <= rd(y)
  }

  ghost predicate Idempotent(rd: Rounder) {
    forall x :: rd(rd(x)) == rd(x)
  }

  /** Zero and one are representable, so rounding leaves them alone. */
  ghost predicate FixesUnits(rd: Rounder) {
    rd(0.0) == 0.0 && rd(1.0) == 1.0
  }

  /** `lo` never rounds above `hi`. */
  ghost predicate Below(lo: Rounder, hi: Rounder) {
    forall x :: lo(x) <= hi(x)
  }

  function MonthlyRate(rd: Rounder, annualPct: real): real {
    rd(rd(annualPct / 100.0) / 12.0)
  }

  function Times(x: real, y: real): real { x * y }

  function NextBalance(rd: Rounder, balance: real, contribution: real, rate: real): real {
    rd(rd(Times(balance, rd(1.0 + rate))) + contribution)
  }

  /** The balance after `n` months. */
  function Balance(rd: Rounder, current: real, contribution: real, annualPct: real, n: nat): real {
    if n == 0 then current
    else NextBalance(rd, Balance(rd, current, contribution, annualPct, n - 1),
                     contribution, MonthlyRate(rd, annualPct))
  }

  /** The first month in 1..maxMonths whose balance is at or above the target, or none. */
  ghost predicate FirstHitOn(path: nat -> real, target: real, maxMonths: int, answer: Option<nat>) {
    match answer
    case None => forall m: nat :: 1 <= m <= maxMonths ==> path(m) < target
    case Some(hit) =>
      && 1 <= hit <= maxMonths
      && path(hit) >= target
      && forall m: nat :: 1 <= m < hit ==> path(m) < target
  }

  ghost function Path(rd: Rounder, current: real, contribution: real, annualPct: real): nat -> real {
    (n: nat) => Balance(rd, current, contribution, annualPct, n)
  }

  /** What the search promises. */
  ghost predicate FirstHit(rd: Rounder, current: real, contribution: real, annualPct: real,
                           target: real, maxMonths: int, answer: Option<nat>)
  {
    FirstHitOn(Path(rd, current, contribution, annualPct), target, maxMonths, answer)
  }

  method TimeToTarget(rd: Rounder, current: real, contribution: real, annualPct: real,
                      target: real, maxMonths: int)
    returns (months: Option<nat>)
    ensures FirstHit(rd, current, contribution, annualPct, target, maxMonths, months)
  {
    var rate := MonthlyRate(rd, annualPct);
    var balance := current;
    var month: nat := 1;
    while month <= maxMonths
      invariant month >= 1
      invariant balance == Balance(rd, current, contribution, annualPct, month - 1)
      invariant forall m: nat :: 1 <= m < month ==> Path(rd, current, contribution, annualPct)(m) < target
    {
      balance := NextBalance(rd, balance, contribution, rate);
      if balance >= target {
        return Some(month);
      }
      month := month + 1;
    }
    return None;
  }

  // ---------------------------------------------------------------- the scenario wrapper

  datatype Scenario = Scenario(current: Option<real>, contribution: Option<real>,
                               annualPct: Option<real>, target: Option<real>)

  datatype Outcome = Rejected | Projected(months: Option<nat>, requiresDisclaimer: bool)

  function Current(s: Scenario): real { GetOr(s.current, 0.0) }

  function Contribution(s: Scenario): real { GetOr(s.contribution, 0.0) }

  function AnnualPct(s: Scenario): real { GetOr(s.annualPct, 0.0) }

  /** The input ranges enforced when the scenario is parsed. */
  predicate InRange(s: Scenario) {
    0.0 <= Current(s) && 0.0 <= Contribution(s) && 0.0 <= AnnualPct(s) <= 50.0
  }

  ghost predicate Answers(rd: Rounder, s: Scenario, outcome: Outcome) {
    if s.target.None? || s.target.value <= 0.0 then
      outcome == Rejected
    else
      && outcome.Projected?
      && outcome.requiresDisclaimer == (AnnualPct(s) > 0.0)
      && if Current(s) >= s.target.value then
           outcome.months == Some(0)
         else
           FirstHit(rd, Current(s), Contribution(s), AnnualPct(s), s.target.value, MAX_MONTHS, outcome.months)
  }

  method RunScenario(rd: Rounder, s: Scenario) returns (outcome: Outcome)
    ensures Answers(rd, s, outcome)
  {
    var current, contribution, annualPct := Current(s), Contribution(s), AnnualPct(s);
    if s.target.None? || s.target.value <= 0.0 {
      return Rejected;
    }
    var months: Option<nat> := Some(0);
    if current < s.target.value {
      months := TimeToTarget(rd, current, contribution, annualPct, s.target.value, MAX_MONTHS);
    }
    return Projected(months, annualPct > 0.0);
  }

  // ---------------------------------------------------------------- ordering

  /** `a` is no later than `b`, with "never" counting as infinitely late. */
  predicate NoLater(a: Option<nat>, b: Option<nat>) {
    b.None? || (a.Some? && a.value <= b.value)
  }

  lemma ProductMonotone(a: real, b: real, x: real, y: real)
    requires a <= b && 0.0 <= b && 0.0 <= x <= y
    ensures Times(a, x) <= Times(b, y)
  {
    assert (b - a) * x >= 0.0;
    assert b * (y - x) >= 0.0;
  }

  /** Rounding keeps an ordering, also when the upper side uses the higher rounder. */
  lemma RoundOrdered(lo: Rounder, hi: Rounder, x: real, y: real)
    requires Monotone(hi) && Below(lo, hi) && AtMost(x, y)
    ensures lo(x) <= hi(y)
  {
    assert lo(x) <= hi(x);
  }

  lemma RateMonotone(lo: Rounder, hi: Rounder, p: real, q: real)
    requires Monotone(lo) && Monotone(hi) && Below(lo, hi) && FixesUnits(lo)
    requires 0.0 <= p <= q
    ensures 0.0 <= MonthlyRate(lo, p) <= MonthlyRate(hi, q)
    ensures 1.0 <= lo(1.0 + MonthlyRate(lo, p)) <= hi(1.0 + MonthlyRate(hi, q))
  {
    var a, b := lo(p / 100.0), hi(q / 100.0);
    assert AtMost(0.0, p / 100.0);
    RoundOrdered(lo, hi, p / 100.0, q / 100.0);
    var r, s := lo(a / 12.0), hi(b / 12.0);
    assert AtMost(0.0, a / 12.0);
    RoundOrdered(lo, hi, a / 12.0, b / 12.0);
    assert AtMost(1.0, 1.0 + r);
    RoundOrdered(lo, hi, 1.0 + r, 1.0 + s);
  }

  /** One month, given the two products it rounds. */
  lemma StepOrdered(lo: Rounder, hi: Rounder, x: real, y: real, c: real, d: real)
    requires Monotone(lo) && Monotone(hi) && Below(lo, hi) && FixesUnits(lo)
    requires 0.0 <= x <= y && 0.0 <= c <= d
    ensures 0.0 <= lo(lo(x) + c) <= hi(hi(y) + d)
  {
    assert AtMost(0.0, x);
    RoundOrdered(lo, hi, x, y);
    assert AtMost(0.0, lo(x) + c);
    RoundOrdered(lo, hi, lo(x) + c, hi(y) + d);
  }

  lemma MonthOrdered(lo: Rounder, hi: Rounder, a: real, b: real, c: real, d: real, r: real, s: real)
    requires Monotone(lo) && Monotone(hi) && Below(lo, hi) && FixesUnits(lo)
    requires 0.0 <= a <= b && 0.0 <= c <= d
    requires 0.0 <= lo(1.0 + r) <= hi(1.0 + s)
    ensures 0.0 <= NextBalance(lo, a, c, r) <= NextBalance(hi, b, d, s)
  {
    var f, g := lo(1.0 + r), hi(1.0 + s);
    ProductMonotone(a, b, f, g);
    ProductMonotone(0.0, a, f, f);
    StepOrdered(lo, hi, Times(a, f), Times(b, g), c, d);
  }

  /** Larger inputs and a rounder that never rounds lower give a larger balance every month. */
  lemma {:induction false} BalanceMonotone(lo: Rounder, hi: Rounder, current1: real, current2: real,
                                           c1: real, c2: real, p1: real, p2: real, n: nat)
    requires Monotone(lo) && Monotone(hi) && Below(lo, hi) && FixesUnits(lo)
    requires 0.0 <= current1 <= current2 && 0.0 <= c1 <= c2 && 0.0 <= p1 <= p2
    ensures 0.0 <= Balance(lo, current1, c1, p1, n) <= Balance(hi, current2, c2, p2, n)
  {
    if n > 0 {
      BalanceMonotone(lo, hi, current1, current2, c1, c2, p1, p2, n - 1);
      RateMonotone(lo, hi, p1, p2);
      MonthOrdered(lo, hi, Balance(lo, current1, c1, p1, n - 1), Balance(hi, current2, c2, p2, n - 1),
                   c1, c2, MonthlyRate(lo, p1), MonthlyRate(hi, p2));
    }
  }

  /**
   More balance, contribution or return, a lower target, more months to search, or a rounder
   that never rounds lower: none of them ever reports a later month.
   */
  lemma RaisingInputsNeverDelays(lo: Rounder, hi: Rounder, current1: real, current2: real,
                                 c1: real, c2: real, p1: real, p2: real,
                                 target1: real, target2: real, max1: int, max2: int,
                                 answer1: Option<nat>, answer2: Option<nat>)
    requires Monotone(lo) && Monotone(hi) && Below(lo, hi) && FixesUnits(lo)
    requires 0.0 <= current1 <= current2 && 0.0 <= c1 <= c2 && 0.0 <= p1 <= p2
    requires target2 <= target1 && max1 <= max2
    requires FirstHit(lo, current1, c1, p1, target1, max1, answer1)
    requires FirstHit(hi, current2, c2, p2, target2, max2, answer2)
    ensures NoLater(answer2, answer1)
  {
    if answer1.Some? {
      BalanceMonotone(lo, hi, current1, current2, c1, c2, p1, p2, answer1.value);
      assert Path(lo, current1, c1, p1)(answer1.value) >= target1;
      assert Path(hi, current2, c2, p2)(answer1.value) >= target2;
    }
  }

  /** The same at the endpoint's level, where "already there" is answered as month zero. */
  lemma BetterScenarioNeverLater(rd: Rounder, s: Scenario, t: Scenario, outcome1: Outcome, outcome2: Outcome)
    requires Monotone(rd) && FixesUnits(rd)
    requires InRange(s) && InRange(t)
    requires Current(s) <= Current(t) && Contribution(s) <= Contribution(t) && AnnualPct(s) <= AnnualPct(t)
    requires s.target.Some? && t.target.Some? && 0.0 < t.target.value <= s.target.value
    requires Answers(rd, s, outcome1) && Answers(rd, t, outcome2)
    ensures NoLater(outcome2.months, outcome1.months)
  {
    if Current(s) < s.target.value && Current(t) < t.target.value {
      RaisingInputsNeverDelays(rd, rd, Current(s), Current(t), Contribution(s), Contribution(t),
                               AnnualPct(s), AnnualPct(t), s.target.value, t.target.value,
                               MAX_MONTHS, MAX_MONTHS, outcome1.months, outcome2.months);
    }
  }

  // ---------------------------------------------------------------- once reached, never lost

  lemma BalanceIsRounded(rd: Rounder, current: real, c: real, p: real, n: nat)
    requires Idempotent(rd) && n >= 1
    ensures rd(Balance(rd, current, c, p, n)) == Balance(rd, current, c, p, n)
  {
  }

  lemma MonthNoLower(rd: Rounder, b: real, c: real, r: real)
    requires Monotone(rd) && rd(b) == b && 0.0 <= b && 0.0 <= c && 1.0 <= rd(1.0 + r)
    ensures b <= NextBalance(rd, b, c, r)
  {
    var f := rd(1.0 + r);
    ProductMonotone(b, b, 1.0, f);
    assert AtMost(b, Times(b, f));
    assert AtMost(b, rd(Times(b, f)) + c);
  }

  lemma NextMonthNoLower(rd: Rounder, current: real, c: real, p: real, n: nat)
    requires Monotone(rd) && Idempotent(rd) && FixesUnits(rd)
    requires 0.0 <= current && 0.0 <= c && 0.0 <= p && n >= 1
    ensures Balance(rd, current, c, p, n) <= Balance(rd, current, c, p, n + 1)
  {
    BalanceIsRounded(rd, current, c, p, n);
    BalanceMonotone(rd, rd, current, current, c, c, p, p, n);
    RateMonotone(rd, rd, p, p);
    MonthNoLower(rd, Balance(rd, current, c, p, n), c, MonthlyRate(rd, p));
  }

  /** From the reported month on, the balance never falls below the target again. */
  lemma {:induction false} StaysReached(rd: Rounder, current: real, c: real, p: real, target: real,
                                        maxMonths: int, hit: nat, later: nat)
    requires Monotone(rd) && Idempotent(rd) && FixesUnits(rd)
    requires 0.0 <= current && 0.0 <= c && 0.0 <= p
    requires FirstHit(rd, current, c, p, target, maxMonths, Some(hit)) && hit <= later
    ensures Balance(rd, current, c, p, later) >= target
    decreases later
  {
    if hit < later {
      StaysReached(rd, current, c, p, target, maxMonths, hit, later - 1);
      NextMonthNoLower(rd, current, c, p, later - 1);
    }
  }

  // ---------------------------------------------------------------- the search window

  /** A longer window never changes an answer that was found; the answer is unique. */
  lemma LongerSearchKeepsAnswer(path: nat -> real, target: real, maxMonths: int, longer: int,
                                hit: nat, answer: Option<nat>)
    requires FirstHitOn(path, target, maxMonths, Some(hit)) && maxMonths <= longer
    ensures FirstHitOn(path, target, longer, answer) <==> answer == Some(hit)
  {
    if FirstHitOn(path, target, longer, answer) {
      assert answer.Some? ==> !(hit < answer.value) && !(answer.value < hit);
    }
  }

  lemma {:induction false} BalanceFrom(rd: Rounder, current: real, c: real, p: real, k: nat, n: nat)
    ensures Balance(rd, Balance(rd, current, c, p, k), c, p, n) == Balance(rd, current, c, p, k + n)
  {
    if n > 0 {
      BalanceFrom(rd, current, c, p, k, n - 1);
    }
  }

  function Delayed(answer: Option<nat>, k: nat): Option<nat> {
    match answer
    case None => None
    case Some(m) => Some(m + k)
  }

  lemma ShiftedHit(path: nat -> real, rest: nat -> real, target: real, maxMonths: int, k: nat,
                   answer: Option<nat>)
    requires k <= maxMonths
    requires forall n: nat :: rest(n) == path(k + n)
    requires FirstHitOn(path, target, k, None)
    ensures FirstHitOn(rest, target, maxMonths - k, answer)
       <==> FirstHitOn(path, target, maxMonths, Delayed(answer, k))
  {
    if FirstHitOn(rest, target, maxMonths - k, answer) {
      forall m: nat | 1 <= m <= maxMonths && (answer.Some? ==> m < answer.value + k)
        ensures path(m) < target
      {
        if m > k {
          assert rest(m - k) < target;
        }
      }
    }
    if FirstHitOn(path, target, maxMonths, Delayed(answer, k)) {
      if answer.Some? && answer.value == 0 {
        assert false;
      }
      forall n: nat | 1 <= n <= maxMonths - k && (answer.Some? ==> n < answer.value)
        ensures rest(n) < target
      {
        assert path(n + k) < target;
      }
    }
  }

  /** A search with no hit in its first `k` months can be resumed from the balance it reached. */
  lemma SearchSplits(rd: Rounder, current: real, c: real, p: real, target: real,
                     maxMonths: int, k: nat, answer: Option<nat>)
    requires k <= maxMonths
    requires FirstHit(rd, current, c, p, target, k, None)
    ensures FirstHit(rd, Balance(rd, current, c, p, k), c, p, target, maxMonths - k, answer)
       <==> FirstHit(rd, current, c, p, target, maxMonths, Delayed(answer, k))
  {
    hide Balance, FirstHitOn;
    var rest := Path(rd, Balance(rd, current, c, p, k), c, p);
    forall n: nat
      ensures rest(n) == Path(rd, current, c, p)(k + n)
    {
      BalanceFrom(rd, current, c, p, k, n);
    }
    ShiftedHit(Path(rd, current, c, p), rest, target, maxMonths, k, answer);
  }

  // ---------------------------------------------------------------- exact arithmetic

  function Exactly(x: real): real { x }

  function Power(x: real, n: nat): real {
    if n == 0 then 1.0 else Times(Power(x, n - 1), x)
  }

  /** A balance and a level contribution once one unit has grown to `w` at rate `r`. */
  function Grown(current: real, c: real, r: real, w: real): real
    requires r != 0.0
  {
    current * w + c * (w - 1.0) / r
  }

  /** The textbook future value of a balance and a level contribution. */
  function FutureValue(current: real, c: real, r: real, n: nat): real {
    if r == 0.0 then current + Times(c, n as real)
    else Grown(current, c, r, Power(1.0 + r, n))
  }

  lemma GrownStep(current: real, c: real, r: real, w: real)
    requires r != 0.0
    ensures Grown(current, c, r, Times(w, 1.0 + r)) == Times(Grown(current, c, r, w), 1.0 + r) + c
  {
    var u := c * (w - 1.0) / r;
    assert u * r == c * (w - 1.0);
    var v := c * (w * (1.0 + r) - 1.0) / r;
    assert v * r == c * (w * (1.0 + r) - 1.0);
    assert (u * (1.0 + r) + c) * r == v * r by {
      calc {
        (u * (1.0 + r) + c) * r;
        (u * r) * (1.0 + r) + c * r;
        c * (w - 1.0) * (1.0 + r) + c * r;
        c * (w * (1.0 + r) - 1.0);
      }
    }
    assert u * (1.0 + r) + c == v;
  }

  lemma OneMore(c: real, n: nat)
    requires n > 0
    ensures Times(c, n as real) == Times(c, (n - 1) as real) + c
  {
    assert n as real == (n - 1) as real + 1.0;
  }

  lemma FutureValueStep(current: real, c: real, r: real, n: nat)
    requires n > 0
    ensures FutureValue(current, c, r, n) == Times(FutureValue(current, c, r, n - 1), 1.0 + r) + c
  {
    if r != 0.0 {
      GrownStep(current, c, r, Power(1.0 + r, n - 1));
    } else {
      OneMore(c, n);
    }
  }

  lemma ExactMonth(current: real, c: real, p: real, n: nat)
    requires n > 0
    ensures Balance(Exactly, current, c, p, n)
         == Times(Balance(Exactly, current, c, p, n - 1), 1.0 + p / 100.0 / 12.0) + c
  {
    assert MonthlyRate(Exactly, p) == p / 100.0 / 12.0;
  }

  /** In exact arithmetic the loop computes the closed form. */
  lemma {:induction false} LoopIsFutureValue(current: real, c: real, p: real, n: nat)
    ensures Balance(Exactly, current, c, p, n) == FutureValue(current, c, p / 100.0 / 12.0, n)
  {
    if n > 0 {
      LoopIsFutureValue(current, c, p, n - 1);
      ExactMonth(current, c, p, n);
      FutureValueStep(current, c, p / 100.0 / 12.0, n);
    }
  }

  lemma CoversShortfall(c: real, shortfall: real, n: real)
    requires c > 0.0
    ensures Times(c, n) >= shortfall <==> n >= shortfall / c
  {
    var gap := shortfall / c;
    assert gap * c == shortfall;
    var d := n - gap;
    assert c * n == shortfall + c * d;
    assert d >= 0.0 ==> c * d >= 0.0;
    assert d < 0.0 ==> c * d < 0.0;
  }

  /** At 0% a month's balance has reached the target exactly when enough contributions were made. */
  lemma ReachedAtZeroReturn(current: real, c: real, target: real, n: nat)
    requires c > 0.0
    ensures Balance(Exactly, current, c, 0.0, n) >= target
       <==> n >= Rounding.Ceiling((target - current) / c)
  {
    LoopIsFutureValue(current, c, 0.0, n);
    assert 0.0 / 100.0 / 12.0 == 0.0;
    CoversShortfall(c, target - current, n as real);
  }

  lemma IdleBalance(current: real, n: nat)
    ensures Balance(Exactly, current, 0.0, 0.0, n) == current
  {
    LoopIsFutureValue(current, 0.0, 0.0, n);
    assert 0.0 / 100.0 / 12.0 == 0.0;
  }

  lemma PositiveQuotient(x: real, c: real)
    requires x > 0.0 && c > 0.0
    ensures x / c > 0.0
  {
  }

  lemma ThresholdHit(path: nat -> real, target: real, maxMonths: int, needed: nat, answer: Option<nat>)
    requires needed >= 1 && forall n: nat :: path(n) >= target <==> n >= needed
    requires FirstHitOn(path, target, maxMonths, answer)
    ensures answer == if needed <= maxMonths then Some(needed) else None
  {
    if needed <= maxMonths {
      assert path(needed) >= target;
    }
  }

  /**
   At 0% the answer is the number of contributions that covers the shortfall, if that is in
   range; with nothing added a target above the balance is never reported.
   */
  lemma ZeroReturnAnswer(current: real, c: real, target: real, maxMonths: int, answer: Option<nat>)
    requires c >= 0.0 && current < target
    requires FirstHit(Exactly, current, c, 0.0, target, maxMonths, answer)
    ensures c == 0.0 ==> answer == None
    ensures c > 0.0 ==> var needed := Rounding.Ceiling((target - current) / c);
      needed >= 1 && answer == (if needed <= maxMonths then Some(needed as nat) else None)
  {
    var path := Path(Exactly, current, c, 0.0);
    if c == 0.0 {
      forall n: nat
        ensures path(n) == current
      {
        IdleBalance(current, n);
      }
    } else {
      var needed := Rounding.Ceiling((target - current) / c);
      PositiveQuotient(target - current, c);
      forall n: nat
        ensures path(n) >= target <==> n >= needed
      {
        ReachedAtZeroReturn(current, c, target, n);
      }
      ThresholdHit(path, target, maxMonths, needed, answer);
    }
  }

  // ---------------------------------------------------------------- the scenario, field by field

  /** A scenario is rejected iff its target is missing or not positive; it warns iff a positive return is given. */
  lemma ScenarioFlags(rd: Rounder, s: Scenario, outcome: Outcome)
    requires Answers(rd, s, outcome)
    ensures outcome.Rejected? <==> s.target.None? || s.target.value <= 0.0
    ensures outcome.Projected? ==> (outcome.requiresDisclaimer <==> s.annualPct.Some? && s.annualPct.value > 0.0)
  {
  }

  /** The balance of the scenario's own figures after `n` months, in closed form; a missing one is zero. */
  function ScenarioValue(s: Scenario, n: nat): real {
    FutureValue(if s.current.Some? then s.current.value else 0.0,
                if s.contribution.Some? then s.contribution.value else 0.0,
                (if s.annualPct.Some? then s.annualPct.value else 0.0) / 100.0 / 12.0, n)
  }

  lemma NoMonths(s: Scenario)
    ensures ScenarioValue(s, 0) == if s.current.Some? then s.current.value else 0.0
  {
    LoopIsFutureValue(Current(s), Contribution(s), AnnualPct(s), 0);
  }

  /**
   In exact arithmetic the reported month is 0 iff the current amount is enough, else the first of
   the 600 months whose closed-form value reaches the target, and none iff there is no such month.
   */
  lemma ScenarioMonth(s: Scenario, outcome: Outcome)
    requires Answers(Exactly, s, outcome) && outcome.Projected?
    ensures outcome.months == Some(0) <==> ScenarioValue(s, 0) >= s.target.value
    ensures outcome.months.Some? && outcome.months.value > 0 ==>
      && outcome.months.value <= 600
      && ScenarioValue(s, outcome.months.value) >= s.target.value
      && forall m: nat :: m < outcome.months.value ==> ScenarioValue(s, m) < s.target.value
    ensures outcome.months.None? ==> forall m: nat :: m <= 600 ==> ScenarioValue(s, m) < s.target.value
  {
    hide FutureValue, Balance;
    forall m: nat
      ensures ScenarioValue(s, m) == Path(Exactly, Current(s), Contribution(s), AnnualPct(s))(m)
    {
      LoopIsFutureValue(Current(s), Contribution(s), AnnualPct(s), m);
    }
    NoMonths(s);
  }

  /** Without a return, a contribution of `c` takes the ceiling of shortfall over `c`, if that is in range. */
  lemma ScenarioWithoutReturn(s: Scenario, outcome: Outcome, c: real)
    requires Answers(Exactly, s, outcome) && outcome.Projected?
    requires (s.annualPct.None? || s.annualPct == Some(0.0)) && s.contribution == Some(c) && c > 0.0
    ensures var current := if s.current.Some? then s.current.value else 0.0;
      current < s.target.value ==>
        var needed := Rounding.Ceiling((s.target.value - current) / c);
        needed >= 1 && outcome.months == if needed <= 600 then Some(needed as nat) else None
  {
    if Current(s) < s.target.value {
      ZeroReturnAnswer(Current(s), c, s.target.value, MAX_MONTHS, outcome.months);
    }
  }
}
