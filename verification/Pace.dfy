/**
 Net-worth pace: from the published net worth, through the tracker's goal line or growth rate and
 half-even rounding, to the pace alert.  Dates are day numbers.
 */
module Pace {
  import opened Wrappers
  import opened Rounding
  import opened Sums
  import opened WealthLadder
  import opened Consumers
  import opened Projection
  import opened DecimalContext

  const ALERT_THRESHOLD: int := -500

  datatype Goal = Goal(target: Option<real>, created: Option<int>, deadline: Option<int>)

  /** One stored net-worth snapshot, oldest first in the list the tracker reads. */
  datatype Snap = Snap(day: int, netWorth: Option<real>)

  datatype Pace = Pace(current: int, targetAtNow: int, delta: int, onPace: bool)

  function Days(from: int, to: int, least: int): int {
    if to - from > least then to - from else least
  }

  function StartOf(goal: Goal, today: int): int {
    GetOr(goal.created, today)
  }

  /** The straight line from the first net worth to the target at the deadline. */
  function GoalLine(first: real, target: real, start: int, deadline: int, today: int): real {
    var total := Days(start, deadline, 1);
    var elapsed := Days(start, today, 0);
    first + (target - first) * (elapsed as real / total as real)
  }

  function PaceFromGoal(current: real, first: real, target: real, start: int, deadline: int, today: int): Pace {
    var line := GoalLine(first, target, start, deadline, today);
    var delta := current - line;
    Pace(HalfEven(current), HalfEven(line), HalfEven(delta), delta >= 0.0)
  }

  function MonthlyRate(current: real, first: real, firstDay: int, today: int): real {
    (current - first) / (Days(firstDay, today, 1) as real) * 30.0
  }

  function PaceFromSnapshots(current: real, first: real, firstDay: int, today: int): Pace {
    var rate := MonthlyRate(current, first, firstDay, today);
    Pace(HalfEven(current), HalfEven(current + rate * 12.0), HalfEven(rate), rate > 0.0)
  }

  predicate UsableGoal(goal: Option<Goal>) {
    && goal.Some?
    && goal.value.target.Some? && goal.value.target.value != 0.0
    && goal.value.deadline.Some?
  }

  function FirstNetWorth(snaps: seq<Snap>): real {
    if snaps == [] then 0.0 else Amount(snaps[0].netWorth)
  }

  function ComputePace(current: real, goal: Option<Goal>, snaps: seq<Snap>, today: int): Option<Pace> {
    if UsableGoal(goal) then
      var g := goal.value;
      Some(PaceFromGoal(current, FirstNetWorth(snaps), g.target.value, StartOf(g, today), g.deadline.value, today))
    else if |snaps| >= 2 then
      Some(PaceFromSnapshots(current, FirstNetWorth(snaps), snaps[0].day, today))
    else None
  }

  predicate PaceAlert(pace: Option<Pace>) {
    pace.Some? && !pace.value.onPace && pace.value.delta < ALERT_THRESHOLD
  }

  /** The net worth the tracker reads: the published one, or zero where no position was computed. */
  function ContextNetWorth(vault: Option<Vault>): real {
    Round100(RetrievedWealth(if vault.Some? then Some(PositionOf(vault.value)) else None).netWorth)
  }

  // ---------------------------------------------------------------- the goal line

  lemma LineScales(gain: real, elapsed: int, total: int)
    requires total > 0
    ensures elapsed == 0 ==> gain * (elapsed as real / total as real) == 0.0
    ensures elapsed == total ==> gain * (elapsed as real / total as real) == gain
  {
    if elapsed == total {
      assert elapsed as real / total as real == 1.0;
    }
  }

  /** The line starts at the first net worth and, for a deadline after the start, ends at the target. */
  lemma GoalLineEnds(first: real, target: real, start: int, deadline: int)
    ensures GoalLine(first, target, start, deadline, start) == first
    ensures start < deadline ==> GoalLine(first, target, start, deadline, deadline) == target
  {
    LineScales(target - first, 0, Days(start, deadline, 1));
    if start < deadline {
      LineScales(target - first, deadline - start, Days(start, deadline, 1));
    }
  }

  lemma FractionGrows(e1: int, e2: int, total: int, gain: real)
    requires 0 <= e1 <= e2 && total > 0 && gain >= 0.0
    ensures gain * (e1 as real / total as real) <= gain * (e2 as real / total as real)
  {
    var t := total as real;
    var p, q := e1 as real / t, e2 as real / t;
    assert q - p == (e2 - e1) as real / t;
    assert q >= p;
    assert gain * q - gain * p == gain * (q - p);
  }

  lemma GoalLineRises(first: real, target: real, start: int, deadline: int, day1: int, day2: int)
    requires first <= target && day1 <= day2
    ensures GoalLine(first, target, start, deadline, day1) <= GoalLine(first, target, start, deadline, day2)
  {
    FractionGrows(Days(start, day1, 0), Days(start, day2, 0), Days(start, deadline, 1), target - first);
  }

  lemma BeforeStart(first: real, target: real, start: int, deadline: int, today: int)
    ensures today <= start ==> GoalLine(first, target, start, deadline, today) == first
  {
    LineScales(target - first, 0, Days(start, deadline, 1));
  }

  /**
   Towards a higher target the line runs between the first net worth and the target up to the
   deadline, and stays at or above the target afterwards.
   */
  lemma GoalLineWithinBounds(first: real, target: real, start: int, deadline: int, today: int)
    requires first <= target && start < deadline
    ensures first <= GoalLine(first, target, start, deadline, today)
    ensures today <= deadline ==> GoalLine(first, target, start, deadline, today) <= target
    ensures deadline <= today ==> target <= GoalLine(first, target, start, deadline, today)
  {
    GoalLineEnds(first, target, start, deadline);
    BeforeStart(first, target, start, deadline, today);
    hide GoalLine;
    if start <= today {
      GoalLineRises(first, target, start, deadline, start, today);
    }
    if today <= deadline {
      GoalLineRises(first, target, start, deadline, today, deadline);
    } else {
      GoalLineRises(first, target, start, deadline, deadline, today);
    }
  }

  // ---------------------------------------------------------------- when the alert fires

  lemma RoundedBelowThreshold(x: real)
    ensures HalfEven(x) < ALERT_THRESHOLD <==> x < -500.5
  {
  }

  /** With a usable goal, the alert fires iff the published net worth is over 500.50 below the line. */
  lemma GoalAlertExactly(current: real, goal: Option<Goal>, snaps: seq<Snap>, today: int)
    requires UsableGoal(goal)
    ensures var g := goal.value;
      var line := GoalLine(FirstNetWorth(snaps), g.target.value, StartOf(g, today), g.deadline.value, today);
      PaceAlert(ComputePace(current, goal, snaps, today)) <==> current < line - 500.5
  {
    hide GoalLine, HalfEven;
    var g := goal.value;
    var line := GoalLine(FirstNetWorth(snaps), g.target.value, StartOf(g, today), g.deadline.value, today);
    RoundedBelowThreshold(current - line);
  }

  /** Without one, it fires iff net worth fell by more than 500.50 a month since the first snapshot. */
  lemma SnapshotAlertExactly(current: real, goal: Option<Goal>, snaps: seq<Snap>, today: int)
    requires !UsableGoal(goal)
    ensures PaceAlert(ComputePace(current, goal, snaps, today)) <==>
            |snaps| >= 2 && MonthlyRate(current, FirstNetWorth(snaps), snaps[0].day, today) < -500.5
  {
    hide MonthlyRate, HalfEven;
    if |snaps| >= 2 {
      RoundedBelowThreshold(MonthlyRate(current, FirstNetWorth(snaps), snaps[0].day, today));
    }
  }

  /**
   End to end: true net worth 600.50 or more below the line always alerts, at most 500.50 below
   never does; rounding up to the next hundred hides at most 100 of the shortfall.
   */
  lemma ShortfallBounds(v: Vault, goal: Option<Goal>, snaps: seq<Snap>, today: int)
    requires UsableGoal(goal)
    ensures var g := goal.value;
      var line := GoalLine(FirstNetWorth(snaps), g.target.value, StartOf(g, today), g.deadline.value, today);
      var alert := PaceAlert(ComputePace(ContextNetWorth(Some(v)), goal, snaps, today));
      && (line - NetWorth(v) >= 600.5 ==> alert)
      && (line - NetWorth(v) <= 500.5 ==> !alert)
  {
    hide GoalLine, ComputePace, Round100, NetWorth, Ladder;
    GoalAlertExactly(ContextNetWorth(Some(v)), goal, snaps, today);
  }

  // ---------------------------------------------------------------- in the rows' own figures

  /** Whole days from one date to another, at least `least`. */
  function WholeDays(from: int, to: int, least: int): real {
    if to - from <= least then least as real else (to - from) as real
  }

  lemma GoalLineStraight(first: real, target: real, start: int, deadline: int, today: int)
    ensures Times(GoalLine(first, target, start, deadline, today), WholeDays(start, deadline, 1))
         == Times(first, WholeDays(start, deadline, 1)) + Times(target - first, WholeDays(start, today, 0))
  {
    var t, e := WholeDays(start, deadline, 1), WholeDays(start, today, 0);
    assert t == Days(start, deadline, 1) as real && e == Days(start, today, 0) as real;
    assert t > 0.0 && e / t * t == e;
    assert (first + (target - first) * (e / t)) * t == first * t + (target - first) * (e / t * t);
  }

  lemma ScaledLess(x: real, y: real, t: real)
    requires t > 0.0
    ensures x < y <==> Times(x, t) < Times(y, t)
  {
    assert Times(y, t) - Times(x, t) == (y - x) * t;
    assert y - x > 0.0 ==> (y - x) * t > 0.0;
    assert y - x <= 0.0 ==> (y - x) * t <= 0.0;
  }

  lemma TimesLess(x: real, y: real, t: real)
    ensures Times(x - y, t) == Times(x, t) - Times(y, t)
  {
  }

  function FirstFigure(snaps: seq<Snap>): real {
    if |snaps| == 0 || snaps[0].netWorth.None? then 0.0 else snaps[0].netWorth.value
  }

  /**
   The goal path over the rows' own figures: with `total` days from the goal's creation (or today)
   to its deadline and `elapsed` of them gone, the alert fires iff `total` times the published net
   worth is below `total` times the first snapshot plus `elapsed` times the way to go, by more than
   500.50 times `total`.
   */
  lemma GoalAlertInFigures(current: real, g: Goal, snaps: seq<Snap>, today: int)
    requires g.target.Some? && g.target.value != 0.0 && g.deadline.Some?
    ensures var start := if g.created.Some? then g.created.value else today;
      var total, elapsed := WholeDays(start, g.deadline.value, 1), WholeDays(start, today, 0);
      var first := FirstFigure(snaps);
      PaceAlert(ComputePace(current, Some(g), snaps, today)) <==>
      Times(current, total) < Times(first, total) + Times(g.target.value - first, elapsed) - Times(500.5, total)
  {
    var start, first := StartOf(g, today), FirstNetWorth(snaps);
    var line := GoalLine(first, g.target.value, start, g.deadline.value, today);
    var total := WholeDays(start, g.deadline.value, 1);
    assert first == FirstFigure(snaps) && total > 0.0 && UsableGoal(Some(g));
    GoalAlertExactly(current, Some(g), snaps, today);
    hide GoalLine, ComputePace, PaceAlert, WholeDays, Times, FirstNetWorth, FirstFigure;
    GoalLineStraight(first, g.target.value, start, g.deadline.value, today);
    ScaledLess(current, line - 500.5, total);
    TimesLess(line, 500.5, total);
  }

  lemma RateScales(current: real, first: real, firstDay: int, today: int)
    ensures Times(MonthlyRate(current, first, firstDay, today), WholeDays(firstDay, today, 1))
         == 30.0 * (current - first)
  {
    var t := WholeDays(firstDay, today, 1);
    assert t == Days(firstDay, today, 1) as real && t > 0.0;
    var q := (current - first) / t;
    assert q * t == current - first;
    assert q * 30.0 * t == 30.0 * (q * t);
  }

  /**
   Without a usable goal: iff there are two snapshots and thirty times the change since the first is
   below 500.50 for every day passed, of which at least one counts.
   */
  lemma SnapshotAlertInFigures(current: real, goal: Option<Goal>, snaps: seq<Snap>, today: int)
    requires goal.None? || goal.value.target.None? || goal.value.target.value == 0.0 || goal.value.deadline.None?
    ensures PaceAlert(ComputePace(current, goal, snaps, today)) <==>
            |snaps| >= 2
            && 30.0 * (current - FirstFigure(snaps)) < -Times(500.5, WholeDays(snaps[0].day, today, 1))
  {
    hide ComputePace;
    SnapshotAlertExactly(current, goal, snaps, today);
    if |snaps| >= 2 {
      RateScales(current, FirstNetWorth(snaps), snaps[0].day, today);
      ScaledLess(MonthlyRate(current, FirstNetWorth(snaps), snaps[0].day, today), -500.5,
                 WholeDays(snaps[0].day, today, 1));
    }
  }

  predicate RoundedTo(n: int, x: real) {
    n as real - 0.5 <= x <= n as real + 0.5
  }

  /** What the pace publishes on each path: each figure to the nearest dollar, and whether it is on pace. */
  lemma PaceFigures(current: real, goal: Option<Goal>, snaps: seq<Snap>, today: int)
    ensures ComputePace(current, goal, snaps, today).Some? ==>
      RoundedTo(ComputePace(current, goal, snaps, today).value.current, current)
    ensures UsableGoal(goal) ==>
      var p := ComputePace(current, goal, snaps, today);
      var line := GoalLine(FirstNetWorth(snaps), goal.value.target.value, StartOf(goal.value, today),
                           goal.value.deadline.value, today);
      p.Some? && RoundedTo(p.value.targetAtNow, line) && RoundedTo(p.value.delta, current - line)
      && (p.value.onPace <==> line <= current)
    ensures !UsableGoal(goal) && |snaps| >= 2 ==>
      var p := ComputePace(current, goal, snaps, today);
      var rate := MonthlyRate(current, FirstNetWorth(snaps), snaps[0].day, today);
      p.Some? && RoundedTo(p.value.targetAtNow, current + 12.0 * rate) && RoundedTo(p.value.delta, rate)
      && (p.value.onPace <==> rate > 0.0)
    ensures !UsableGoal(goal) && |snaps| < 2 ==> ComputePace(current, goal, snaps, today).None?
  {
    hide GoalLine, MonthlyRate;
    HalfEvenNear(current);
    if UsableGoal(goal) {
      var line := GoalLine(FirstNetWorth(snaps), goal.value.target.value, StartOf(goal.value, today),
                           goal.value.deadline.value, today);
      HalfEvenNear(line);
      HalfEvenNear(current - line);
    } else if |snaps| >= 2 {
      var rate := MonthlyRate(current, FirstNetWorth(snaps), snaps[0].day, today);
      HalfEvenNear(current + rate * 12.0);
      HalfEvenNear(rate);
    }
  }

  function OneAsset(worth: real): Vault {
    Vault([], [Asset(Some(worth))], [], [], [], [], [])
  }

  lemma OneAssetNetWorth(worth: real)
    ensures NetWorth(OneAsset(worth)) == worth
  {
    var v := OneAsset(worth);
    assert v.assets[..0] == [];
    assert SumBy(v.assets, AssetWorth) == worth;
  }

  function FlatGoal(line: real): Option<Goal> {
    Some(Goal(Some(line), None, Some(1)))
  }

  lemma FlatGoalLine(line: real, today: int)
    ensures var g := FlatGoal(line).value;
      GoalLine(FirstNetWorth([Snap(0, Some(line))]), g.target.value, StartOf(g, today), g.deadline.value, today) == line
  {
    GoalLineEnds(line, line, today, 1);
  }

  /** A vault standing `shortfall` below a flat goal line, with or without the alert. */
  ghost predicate Shows(v: Vault, line: real, shortfall: real, today: int, alert: bool) {
    && UsableGoal(FlatGoal(line))
    && line - NetWorth(v) == shortfall
    && PaceAlert(ComputePace(ContextNetWorth(Some(v)), FlatGoal(line), [Snap(0, Some(line))], today)) == alert
  }

  lemma ShowsExactly(worth: real, shortfall: real, today: int, alert: bool)
    requires worth >= 0.0 && shortfall > 0.0
    requires alert == (Round100(worth) < worth + shortfall - 500.5)
    ensures Shows(OneAsset(worth), worth + shortfall, shortfall, today, alert)
  {
    hide GoalLine, ComputePace, Round100, NetWorth, Ladder, StartOf;
    OneAssetNetWorth(worth);
    FlatGoalLine(worth + shortfall, today);
    GoalAlertExactly(ContextNetWorth(Some(OneAsset(worth))), FlatGoal(worth + shortfall),
                     [Snap(0, Some(worth + shortfall))], today);
  }

  lemma RoundedUp(x: real)
    requires 0.0 < x <= 100.0
    ensures Round100(0.0) == 0.0 && Round100(x) == 100.0
  {
    assert Ceiling(0.0 / 100.0) == 0 && Ceiling(x / 100.0) == 1;
  }

  /** The bounds are sharp: for every shortfall strictly between them both outcomes occur. */
  lemma BetweenBoundsEitherOutcome(shortfall: real, today: int) returns (loud: Vault, quiet: Vault, line: real)
    requires 500.5 < shortfall < 600.5
    ensures Shows(loud, shortfall, shortfall, today, true)
    ensures Shows(quiet, line, shortfall, today, false)
  {
    hide Shows, Round100, OneAsset;
    var above := if shortfall < 550.5 then 50.0 else (600.5 - shortfall) / 2.0;
    RoundedUp(above);
    ShowsExactly(0.0, shortfall, today, true);
    ShowsExactly(above, shortfall, today, false);
    loud, quiet, line := OneAsset(0.0), OneAsset(above), above + shortfall;
  }

  /** When no position could be computed the tracker sees zero, and alerts iff the line exceeds 500.50. */
  lemma FailureLooksLikeZero(goal: Option<Goal>, snaps: seq<Snap>, today: int)
    requires UsableGoal(goal)
    ensures var g := goal.value;
      var line := GoalLine(FirstNetWorth(snaps), g.target.value, StartOf(g, today), g.deadline.value, today);
      PaceAlert(ComputePace(ContextNetWorth(None), goal, snaps, today)) <==> line > 500.5
  {
    hide GoalLine, ComputePace;
    assert Ceiling(0.0 / 100.0) == 0;
    GoalAlertExactly(ContextNetWorth(None), goal, snaps, today);
  }

  // ---------------------------------------------------------------- with every operation rounded

  /** The goal path as Decimal computes it. */
  function RoundedLine(rd: Rounder, first: real, target: real, start: int, deadline: int, today: int): real {
    var fraction := rd(Days(start, today, 0) as real / Days(start, deadline, 1) as real);
    rd(first + rd(Times(rd(target - first), fraction)))
  }

  function RoundedPace(rd: Rounder, current: real, line: real): Pace {
    var delta := rd(current - line);
    Pace(HalfEven(current), HalfEven(line), HalfEven(delta), delta >= 0.0)
  }

  /**
   Against the line that Decimal computes, under any monotone rounding that keeps the two figures
   around the threshold: a shortfall of 601 always alerts, one of 500.50 never does.
   */
  lemma RoundedShortfallBounds(rd: Rounder, v: Vault, line: real)
    requires Monotone(rd) && rd(-500.5) == -500.5 && rd(-501.0) == -501.0
    ensures var alert := PaceAlert(Some(RoundedPace(rd, ContextNetWorth(Some(v)), line)));
      && (line - NetWorth(v) >= 601.0 ==> alert)
      && (line - NetWorth(v) <= 500.5 ==> !alert)
  {
    hide HalfEven, Round100, NetWorth, Ladder;
    var x := ContextNetWorth(Some(v)) - line;
    RoundedBelowThreshold(rd(x));
    assert AtMost(x, -501.0) ==> rd(x) <= -501.0;
    assert AtMost(-500.5, x) ==> -500.5 <= rd(x);
  }

  lemma DecimalKeepsThreshold()
    ensures RoundTo(PRECISION, -500.5) == -500.5 && RoundTo(PRECISION, -501.0) == -501.0
  {
    TenTo27();
    assert Ten(PRECISION) > 5010;
    assert Pow10(-1) == 0.1;
    KeepsDigits(PRECISION, 5005, -1);
    KeepsDigits(PRECISION, 5010, -1);
  }

  /** Those bounds in Decimal's 28 digits, with the line as it computes it. */
  lemma DecimalShortfallBounds(v: Vault, first: real, target: real, start: int, deadline: int, today: int)
    ensures var rd := Context(PRECISION);
      var line := RoundedLine(rd, first, target, start, deadline, today);
      var alert := PaceAlert(Some(RoundedPace(rd, ContextNetWorth(Some(v)), line)));
      && (line - NetWorth(v) >= 601.0 ==> alert)
      && (line - NetWorth(v) <= 500.5 ==> !alert)
  {
    hide RoundTo, RoundedLine, RoundedPace, NetWorth, Ladder;
    DecimalIsARounder(PRECISION);
    DecimalKeepsThreshold();
    RoundedShortfallBounds(Context(PRECISION), v,
                           RoundedLine(Context(PRECISION), first, target, start, deadline, today));
  }

  // ---------------------------------------------------------------- how far the computed line is off

  /** Rounding moves any number by at most a fraction `u` of its size. */
  ghost predicate RoundsWithin(rd: Rounder, u: real) {
    forall x :: Magnitude(rd(x) - x) <= Times(u, Magnitude(x))
  }

  lemma MagnitudeTimes(x: real, y: real)
    ensures Magnitude(Times(x, y)) == Times(Magnitude(x), Magnitude(y))
  {
    if x >= 0.0 && y >= 0.0 {
      assert x * y >= 0.0;
    } else if x < 0.0 && y < 0.0 {
      assert -x * -y > 0.0;
    } else if x >= 0.0 {
      assert x * -y >= 0.0;
    } else {
      assert -x * y >= 0.0;
    }
  }

  lemma SplitProduct(d: real, e: real, f: real, g: real)
    ensures Times(e, g) - Times(d, f) == Times(e, g - f) + Times(e - d, f)
  {
  }

  lemma CollectFactors(m: real, f: real, u: real)
    ensures Times(m + Times(u, m), Times(u, f)) + Times(Times(u, m), f) == Times(2.0 * u + u * u, Times(m, f))
  {
    var k := m * f;
    assert (u * m) * f == u * k;
    assert (m + u * m) * (u * f) == u * k + (u * u) * k;
  }

  /** Two factors that are each off by a fraction `u` give a product off by little more than twice that. */
  lemma ProductClose(d: real, e: real, f: real, g: real, u: real)
    requires 0.0 <= u && 0.0 <= f
    requires Magnitude(e - d) <= Times(u, Magnitude(d)) && Magnitude(g - f) <= Times(u, f)
    ensures Magnitude(Times(e, g) - Times(d, f)) <= Times(2.0 * u + u * u, Times(Magnitude(d), f))
  {
    hide Times;
    var m := Magnitude(d);
    SplitProduct(d, e, f, g);
    MagnitudeTimes(e, g - f);
    MagnitudeTimes(e - d, f);
    ProductNonNegative(u, m);
    ProductMonotone(Magnitude(e), m + Times(u, m), Magnitude(g - f), Times(u, f));
    TimesOrderNonNegative(Magnitude(e - d), Times(u, m), f);
    CollectFactors(m, f, u);
  }

  lemma SmallFactor(u: real, m: real)
    requires 0.0 <= u <= 0.25 && 0.0 <= m
    ensures Times(2.0 * u + u * u, m) <= Times(2.25 * u, m)
    ensures Times(u, m + Times(2.25 * u, m)) <= Times(1.75 * u, m)
    ensures Times(u, Times(4.0 * u, m)) <= Times(u, m)
  {
    assert u * u <= 0.25 * u;
    TimesOrderNonNegative(2.0 * u + u * u, 2.25 * u, m);
    assert Times(u, m + Times(2.25 * u, m)) == Times(u + 2.25 * (u * u), m);
    TimesOrderNonNegative(u + 2.25 * (u * u), 1.75 * u, m);
    assert Times(u, Times(4.0 * u, m)) == Times(4.0 * (u * u), m);
    TimesOrderNonNegative(4.0 * (u * u), u, m);
  }

  lemma RoundsAt(rd: Rounder, u: real, x: real)
    requires RoundsWithin(rd, u)
    ensures Magnitude(rd(x) - x) <= Times(u, Magnitude(x))
  {
    hide Times, Magnitude;
  }

  lemma FourParts(u: real, m: real)
    ensures Times(2.25 * u, m) + Times(1.75 * u, m) == Times(4.0 * u, m)
  {
  }

  /** Two estimates in a row: the rounding of `q`, which itself stands for `exact`. */
  lemma ThirdRounding(r: real, q: real, exact: real, m: real, u: real)
    requires 0.0 <= u <= 0.25 && 0.0 <= m && Magnitude(exact) == m
    requires Magnitude(r - q) <= Times(u, Magnitude(q))
    requires Magnitude(q - exact) <= Times(2.0 * u + u * u, m)
    ensures Magnitude(r - exact) <= Times(4.0 * u, m)
  {
    var near := Times(2.25 * u, m);
    SmallFactor(u, m);
    assert Magnitude(q) <= m + near;
    TimesLeft(u, Magnitude(q), m + near);
    FourParts(u, m);
  }

  /** The way gone, computed with three roundings. */
  lemma WayClose(rd: Rounder, d: real, f: real, u: real)
    requires RoundsWithin(rd, u) && 0.0 <= u <= 0.25 && 0.0 <= f
    ensures Magnitude(rd(Times(rd(d), rd(f))) - Times(d, f)) <= Times(4.0 * u, Times(Magnitude(d), f))
  {
    var q, m := Times(rd(d), rd(f)), Times(Magnitude(d), f);
    RoundsAt(rd, u, d);
    RoundsAt(rd, u, f);
    RoundsAt(rd, u, q);
    assert Magnitude(f) == f && Magnitude(d) >= 0.0;
    hide Times, RoundsWithin, Magnitude;
    MagnitudeTimes(d, f);
    ProductNonNegative(Magnitude(d), f);
    ProductClose(d, rd(d), f, rd(f), u);
    ThirdRounding(rd(q), q, Times(d, f), m, u);
  }

  lemma SixParts(u: real, a: real, m: real, near: real)
    requires near == Times(4.0 * u, m) && Times(u, near) <= Times(u, m)
    ensures Times(u, a + m + near) + near <= Times(u, a) + Times(6.0 * u, m)
  {
    assert Times(u, a + m + near) == Times(u, a) + Times(u, m) + Times(u, near);
    assert Times(6.0 * u, m) == 2.0 * Times(u, m) + near;
  }

  lemma LastRounding(r: real, first: real, way: real, exact: real, m: real, u: real)
    requires 0.0 <= u <= 0.25 && Magnitude(exact) == m && Magnitude(way - exact) <= Times(4.0 * u, m)
    requires Magnitude(r - (first + way)) <= Times(u, Magnitude(first + way))
    ensures Magnitude(r - (first + exact)) <= Times(u, Magnitude(first)) + Times(6.0 * u, m)
  {
    var near, size := Times(4.0 * u, m), Magnitude(first + way);
    SmallFactor(u, m);
    assert size <= Magnitude(first) + m + near;
    TimesLeft(u, size, Magnitude(first) + m + near);
    SixParts(u, Magnitude(first), m, near);
  }

  /** The last addition and its rounding. */
  lemma SumClose(rd: Rounder, first: real, way: real, exact: real, m: real, u: real)
    requires RoundsWithin(rd, u) && 0.0 <= u <= 0.25 && Magnitude(exact) == m
    requires Magnitude(way - exact) <= Times(4.0 * u, m)
    ensures Magnitude(rd(first + way) - (first + exact)) <= Times(u, Magnitude(first)) + Times(6.0 * u, m)
  {
    RoundsAt(rd, u, first + way);
    hide Times, RoundsWithin, Magnitude;
    LastRounding(rd(first + way), first, way, exact, m, u);
  }

  /**
   The line as computed is off from the exact one by at most a fraction `u` of the first net worth
   and `6 * u` of the way gone since.
   */
  lemma RoundedLineNear(rd: Rounder, first: real, target: real, start: int, deadline: int, today: int, u: real)
    requires RoundsWithin(rd, u) && 0.0 <= u <= 0.25
    ensures var gone := Times(Magnitude(target - first),
                              Days(start, today, 0) as real / Days(start, deadline, 1) as real);
      Magnitude(RoundedLine(rd, first, target, start, deadline, today)
                - GoalLine(first, target, start, deadline, today))
      <= Times(u, Magnitude(first)) + Times(6.0 * u, gone)
  {
    var d, f := target - first, Days(start, today, 0) as real / Days(start, deadline, 1) as real;
    assert GoalLine(first, target, start, deadline, today) == first + Times(d, f);
    assert 0.0 <= f && Magnitude(f) == f;
    assert RoundedLine(rd, first, target, start, deadline, today) == rd(first + rd(Times(rd(d), rd(f))));
    hide Times, RoundsWithin, Magnitude, Days, GoalLine, RoundedLine;
    MagnitudeTimes(d, f);
    WayClose(rd, d, f, u);
    SumClose(rd, first, rd(Times(rd(d), rd(f))), Times(d, f), Times(Magnitude(d), f), u);
  }

  lemma SpreadOne(y: real, h: real)
    ensures Times(y, 1.0 - h) == y - Times(h, y) && Times(y, 1.0 + h) == y + Times(h, y)
  {
  }

  lemma MirroredContext(p: nat, x: real)
    ensures Context(p)(x) == if x >= 0.0 then Context(p)(Magnitude(x)) else -Context(p)(Magnitude(x))
  {
    hide RoundPositive;
  }

  lemma ContextRoundsWithin(p: nat)
    requires p >= 1
    ensures RoundsWithin(Context(p), HalfUnit(p))
  {
    ContextWithin(p);
    forall x
      ensures Magnitude(Context(p)(x) - x) <= Times(HalfUnit(p), Magnitude(x))
    {
      hide Context, HalfUnit, Times;
      var y := Magnitude(x);
      SpreadOne(y, HalfUnit(p));
      MirroredContext(p, x);
    }
  }

  const AMOUNT_LIMIT: real := 100_000_000_000_000_000_000.0

  /** For amounts up to 10^20 Decimal's line is within a ten-thousandth of a cent of the exact one. */
  lemma DecimalLineNear(first: real, target: real, start: int, deadline: int, today: int)
    requires Magnitude(first) <= AMOUNT_LIMIT
    requires Times(Magnitude(target - first), Days(start, today, 0) as real / Days(start, deadline, 1) as real)
             <= AMOUNT_LIMIT
    ensures Magnitude(RoundedLine(Context(PRECISION), first, target, start, deadline, today)
                      - GoalLine(first, target, start, deadline, today)) <= 0.000001
  {
    var u := HalfUnit(PRECISION);
    TenTo27();
    assert u == 0.5 / 1_000_000_000_000_000_000_000_000_000.0;
    hide HalfUnit, RoundedLine, GoalLine, Context;
    ContextRoundsWithin(PRECISION);
    RoundedLineNear(Context(PRECISION), first, target, start, deadline, today, u);
    TimesLeft(u, Magnitude(first), AMOUNT_LIMIT);
    TimesLeft(6.0 * u,
              Times(Magnitude(target - first), Days(start, today, 0) as real / Days(start, deadline, 1) as real),
              AMOUNT_LIMIT);
  }

  /** End to end in 28 digits, against the exact line. */
  lemma DecimalShortfallFromExactLine(v: Vault, first: real, target: real, start: int, deadline: int, today: int)
    requires Magnitude(first) <= AMOUNT_LIMIT
    requires Times(Magnitude(target - first), Days(start, today, 0) as real / Days(start, deadline, 1) as real)
             <= AMOUNT_LIMIT
    ensures var rd := Context(PRECISION);
      var alert := PaceAlert(Some(RoundedPace(rd, ContextNetWorth(Some(v)),
                                              RoundedLine(rd, first, target, start, deadline, today))));
      var line := GoalLine(first, target, start, deadline, today);
      && (line - NetWorth(v) >= 601.000001 ==> alert)
      && (line - NetWorth(v) <= 500.499999 ==> !alert)
  {
    hide RoundedLine, GoalLine, RoundedPace, Context, NetWorth, Ladder;
    DecimalLineNear(first, target, start, deadline, today);
    DecimalShortfallBounds(v, first, target, start, deadline, today);
  }
}
