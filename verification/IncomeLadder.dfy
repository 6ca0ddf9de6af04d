/** The five-step income ladder from the vault's income rows. */
module IncomeLadder {
  import opened Wrappers
  import opened Sums
  import opened AgentNodes
  import opened WealthLadder

  /** `typical` is the usual gross amount; the rolling average stands in where it is missing. */
  datatype Stream = Stream(typical: Option<real>, rolling: Option<real>, cadence: string)

  datatype IncomeRows = IncomeRows(streams: seq<Stream>, economics: nat, benchmarks: nat,
                                   careers: seq<Option<real>>, deductions: seq<Option<real>>, milestones: nat)

  function StreamAmount(s: Stream): Option<real> {
    if s.typical.Some? then s.typical else s.rolling
  }

  /** The monthly figures of the streams that have an amount, in row order. */
  function Monthlies(streams: seq<Stream>): seq<real> {
    if streams == [] then []
    else
      var last := streams[|streams| - 1];
      Monthlies(streams[..|streams| - 1])
      + match StreamAmount(last)
        case Some(amount) => [ToMonthly(amount, last.cadence)]
        case None => []
  }

  method StreamMonthlies(streams: seq<Stream>) returns (monthlies: seq<real>)
    ensures monthlies == Monthlies(streams)
  {
    monthlies := [];
    for i := 0 to |streams|
      invariant monthlies == Monthlies(streams[..i])
    {
      assert streams[..i + 1][..i] == streams[..i];
      var amount := streams[i].typical;
      if amount.None? { amount := streams[i].rolling; }
      if amount.None? { continue; }
      monthlies := monthlies + [ToMonthly(amount.value, streams[i].cadence)];
    }
    assert streams[..|streams|] == streams;
  }

  function StreamMonthly(s: Stream): real {
    ToMonthly(Amount(StreamAmount(s)), s.cadence)
  }

  /** The total is one figure per stream, a stream without an amount counting as zero. */
  lemma {:induction false} TotalIsSumOfStreams(streams: seq<Stream>)
    ensures SumBy(Monthlies(streams), Itself) == SumBy(streams, StreamMonthly)
    decreases |streams|
  {
    hide MonthlyFactor;
    if streams != [] {
      var init, last := streams[..|streams| - 1], streams[|streams| - 1];
      TotalIsSumOfStreams(init);
      match StreamAmount(last)
      case Some(amount) => SumAppend(Monthlies(init), [ToMonthly(amount, last.cadence)], Itself);
      case None => assert Monthlies(init) + [] == Monthlies(init);
    }
  }

  function DeductionAmount(d: Option<real>): real { Amount(d) }

  method SumDeductions(deductions: seq<Option<real>>) returns (total: real)
    ensures total == SumBy(deductions, DeductionAmount)
  {
    total := 0.0;
    for i := 0 to |deductions|
      invariant total == SumBy(deductions[..i], DeductionAmount)
    {
      SumSnoc(deductions, i, DeductionAmount);
      if deductions[i].Some? { total := total + deductions[i].value; }
    }
    SumAll(deductions, DeductionAmount);
  }

  datatype IncomeStep = IncomeStep(step: nat, monthlyActual: real, funded: bool)

  function StepNumber(s: IncomeStep): nat { s.step }

  predicate StepFunded(s: IncomeStep) { s.funded }

  predicate BottomIsCut(monthlies: seq<real>, hasEconomics: bool) {
    if |monthlies| <= 1 then true
    else
      var top, bottom := Largest(monthlies), Smallest(monthlies);
      var gap := if top > 0.0 then (top - bottom) / top else 0.0;
      gap <= 0.3 || hasEconomics
  }

  function CareerMonthly(careers: seq<Option<real>>): real {
    if careers == [] then 0.0 else Amount(careers[0]) / 12.0
  }

  function Steps(rows: IncomeRows): (steps: seq<IncomeStep>)
    ensures |steps| == 5
  {
    var monthlies := Monthlies(rows.streams);
    var total := SumBy(monthlies, Itself);
    [IncomeStep(1, total, rows.economics > 0 && rows.streams != []),
     IncomeStep(2, total, BottomIsCut(monthlies, rows.economics > 0)),
     IncomeStep(3, CareerMonthly(rows.careers), rows.benchmarks > 0 && rows.careers != []),
     IncomeStep(4, SumBy(rows.deductions, DeductionAmount) / 12.0, rows.deductions != []),
     IncomeStep(5, 0.0, rows.milestones > 0)]
  }

  datatype IncomePosition = IncomePosition(totalMonthly: real, ladder: seq<IncomeStep>, openGaps: seq<IncomeStep>)

  function IncomePositionOf(rows: IncomeRows): IncomePosition {
    IncomePosition(SumBy(Monthlies(rows.streams), Itself), Steps(rows), Open(Steps(rows), StepFunded))
  }

  method ComputeIncomePosition(rows: IncomeRows) returns (p: IncomePosition)
    ensures p == IncomePositionOf(rows)
  {
    hide SumBy, BottomIsCut;
    var monthlies := StreamMonthlies(rows.streams);
    var total := SumBy(monthlies, Itself);
    var deductions := SumDeductions(rows.deductions);
    var steps := [IncomeStep(1, total, rows.economics > 0 && rows.streams != []),
                  IncomeStep(2, total, BottomIsCut(monthlies, rows.economics > 0)),
                  IncomeStep(3, CareerMonthly(rows.careers), rows.benchmarks > 0 && rows.careers != []),
                  IncomeStep(4, deductions / 12.0, rows.deductions != []),
                  IncomeStep(5, 0.0, rows.milestones > 0)];
    p := IncomePosition(total, steps, Open(steps, StepFunded));
  }

  function CurrentIncomeStep(rows: IncomeRows): nat {
    CurrentStep(IncomePositionOf(rows).openGaps, StepNumber, 5)
  }

  lemma IncomeStepIsLeastUnfunded(rows: IncomeRows)
    ensures LeastUnfunded(Steps(rows), StepFunded, CurrentIncomeStep(rows))
  {
    assert forall i :: 0 <= i < 5 ==> Steps(rows)[i].step == i + 1;
    CurrentIsLeastUnfunded(Steps(rows), StepNumber, StepFunded);
  }

  /**
   Step 2 is open iff there is no net-hourly data, at least two streams have an amount, the best of
   them is positive and some stream earns less than 70% of it.
   */
  lemma BottomStepExactly(rows: IncomeRows)
    ensures var ms := Monthlies(rows.streams);
      !Steps(rows)[1].funded <==>
        && rows.economics == 0
        && ms != []
        && Largest(ms) > 0.0
        && exists i :: 0 <= i < |ms| && ms[i] < 0.7 * Largest(ms)
  {
    hide SumBy, Monthlies;
    var ms := Monthlies(rows.streams);
    if ms != [] && Largest(ms) > 0.0 {
      ExtremesBound(ms);
      GapMeaning(Largest(ms), Smallest(ms));
      if exists i :: 0 <= i < |ms| && ms[i] < 0.7 * Largest(ms) {
        assert |ms| > 1;
      }
    }
  }

  /** The amount a stream counts with: the usual one, else the rolling average, else nothing. */
  function StreamFigure(s: Stream): real {
    match (s.typical, s.rolling)
    case (Some(x), _) => x
    case (None, Some(x)) => x
    case (None, None) => 0.0
  }

  function YearlyIncome(s: Stream): real {
    StreamFigure(s) * PeriodsPerYear(s.cadence)
  }

  function Twelvemonth(s: Stream): real {
    12.0 * StreamMonthly(s)
  }

  function StreamAllowance(s: Stream): real {
    0.004 * Magnitude(StreamFigure(s))
  }

  lemma {:induction false} TwelvemonthSum(streams: seq<Stream>)
    ensures SumBy(streams, Twelvemonth) == 12.0 * SumBy(streams, StreamMonthly)
    decreases |streams|
  {
    hide MonthlyFactor;
    if streams != [] {
      TwelvemonthSum(streams[..|streams| - 1]);
    }
  }

  /** Twelve times the reported monthly income is a calendar year's income, to within 0.004 of each amount. */
  lemma IncomeFollowsCalendar(rows: IncomeRows)
    ensures var year, slack := SumBy(rows.streams, YearlyIncome), SumBy(rows.streams, StreamAllowance);
      year - slack <= 12.0 * IncomePositionOf(rows).totalMonthly <= year + slack
  {
    hide SumBy, ToMonthly, PeriodsPerYear, Magnitude;
    TotalIsSumOfStreams(rows.streams);
    forall i | 0 <= i < |rows.streams|
      ensures YearlyIncome(rows.streams[i]) - StreamAllowance(rows.streams[i]) <= Twelvemonth(rows.streams[i])
              <= YearlyIncome(rows.streams[i]) + StreamAllowance(rows.streams[i])
    {
      MonthlyFollowsCalendar(StreamFigure(rows.streams[i]), rows.streams[i].cadence);
    }
    SumsStayClose(rows.streams, Twelvemonth, YearlyIncome, StreamAllowance);
    TwelvemonthSum(rows.streams);
  }

  function DeductionFigures(deductions: seq<Option<real>>): seq<real> {
    seq(|deductions|, i requires 0 <= i < |deductions| =>
      if deductions[i].Some? then deductions[i].value else 0.0)
  }

  /**
   When each step is open, and what it shows: no stream or no net-hourly data; no benchmark or no
   career; no deduction; no milestone.
   */
  lemma StepsExactly(rows: IncomeRows)
    ensures var steps := Steps(rows);
      && (!steps[0].funded <==> rows.economics == 0 || rows.streams == [])
      && (!steps[2].funded <==> rows.benchmarks == 0 || rows.careers == [])
      && (!steps[3].funded <==> rows.deductions == [])
      && (!steps[4].funded <==> rows.milestones == 0)
      && steps[0].monthlyActual == steps[1].monthlyActual == SumBy(rows.streams, StreamMonthly)
      && 12.0 * steps[2].monthlyActual
         == (if rows.careers != [] && rows.careers[0].Some? then rows.careers[0].value else 0.0)
      && 12.0 * steps[3].monthlyActual == Total(DeductionFigures(rows.deductions))
      && steps[4].monthlyActual == 0.0
  {
    hide SumBy, Total, Monthlies, BottomIsCut;
    TotalIsSumOfStreams(rows.streams);
    SumIsTotal(rows.deductions, DeductionAmount, DeductionFigures(rows.deductions));
  }
}
