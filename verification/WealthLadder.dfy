/**
 The six-step allocation ladder and the net worth beside it, from the vault's rows.  Money is
 exact; a missing figure counts as zero.
 */
module WealthLadder {
  import opened Wrappers
  import opened Sums

  datatype Account = Account(kind: string, status: string, balance: Option<real>)
  datatype Asset = Asset(worth: Option<real>)
  datatype Estate = Estate(worth: Option<real>, mortgage: Option<real>, equity: Option<real>)
  datatype Retirement = Retirement(kind: string, balance: Option<real>, contributed: Option<real>)
  datatype Debt = Debt(apr: Option<real>, balance: Option<real>)
  datatype Expense = Expense(amount: Option<real>, cadence: string)
  datatype Business = Business(margin: Option<real>)

  datatype Vault = Vault(accounts: seq<Account>, assets: seq<Asset>, estates: seq<Estate>,
                         retirement: seq<Retirement>, debts: seq<Debt>, expenses: seq<Expense>,
                         businesses: seq<Business>)

  const MONTHS_EMERGENCY: real := 3.0
  const IRA_LIMIT: real := 7000.0
  const HSA_LIMIT: real := 4300.0
  const HIGH_INTEREST_APR: real := 7.0
  const DEFAULT_MONTHLY_EXPENSES: real := 3000.0

  function Lower(s: string): string {
    seq(|s|, i requires 0 <= i < |s| => if 'A' <= s[i] <= 'Z' then s[i] + 32 as char else s[i])
  }

  const CASH_KINDS: set<string> := {"checking", "savings", "cash", "hysa", "money_market", ""}
  const BROKERAGE_KINDS: set<string> := {"brokerage", "taxable", "investment"}
  const IRA_KINDS: set<string> := {"roth_ira", "traditional_ira", "ira"}

  predicate CashLike(kind: string) {
    Lower(kind) in CASH_KINDS
  }

  predicate Taxable(kind: string) {
    Lower(kind) in BROKERAGE_KINDS
  }

  // ---------------------------------------------------------------- what each row adds

  function AccountBalance(a: Account): real { Amount(a.balance) }

  function AssetWorth(a: Asset): real { Amount(a.worth) }

  function EstateWorth(e: Estate): real { Amount(e.worth) }

  function Mortgage(e: Estate): real { Amount(e.mortgage) }

  function RetirementBalance(r: Retirement): real { Amount(r.balance) }

  function DebtBalance(d: Debt): real { Amount(d.balance) }

  function Cash(a: Account): real {
    if CashLike(a.kind) then Amount(a.balance) else 0.0
  }

  function Brokerage(a: Account): real {
    if Taxable(a.kind) then Amount(a.balance) else 0.0
  }

  predicate HighInterest(d: Debt) {
    d.apr.Some? && d.apr.value > HIGH_INTEREST_APR
  }

  function HighInterestBalance(d: Debt): real {
    if HighInterest(d) then Amount(d.balance) else 0.0
  }

  function IraContribution(r: Retirement): real {
    if r.kind in IRA_KINDS then Amount(r.contributed) else 0.0
  }

  function HsaContribution(r: Retirement): real {
    if r.kind == "hsa" then Amount(r.contributed) else 0.0
  }

  function AboveZero(x: real): real {
    if x > 0.0 then x else 0.0
  }

  /** The recorded estimate if there is one; else value less mortgage, where that is positive. */
  function Equity(e: Estate): real {
    if e.equity.Some? then e.equity.value
    else if e.worth.Some? then AboveZero(e.worth.value - Amount(e.mortgage))
    else 0.0
  }

  function PositiveMargin(b: Business): real {
    AboveZero(Amount(b.margin))
  }

  function MonthlyFactor(cadence: string): (f: real)
    ensures f > 0.0
  {
    var c := Lower(cadence);
    if c == "weekly" then 4.333
    else if c == "biweekly" then 2.167
    else if c == "semimonthly" then 2.0
    else if c == "quarterly" then 0.333
    else if c == "annual" || c == "annually" || c == "yearly" then 0.0833
    else 1.0
  }

  function ToMonthly(amount: real, cadence: string): real {
    amount * MonthlyFactor(cadence)
  }

  function MonthlyExpense(e: Expense): real {
    ToMonthly(Amount(e.amount), e.cadence)
  }

  /** How often a year a recorded amount falls due; unknown cadences count as monthly. */
  function PeriodsPerYear(cadence: string): real {
    match Lower(cadence)
    case "weekly" => 52.0
    case "biweekly" => 26.0
    case "semimonthly" => 24.0
    case "quarterly" => 4.0
    case "annual" => 1.0
    case "annually" => 1.0
    case "yearly" => 1.0
    case _ => 12.0
  }

  /** Twelve months at any factor are within 0.004 periods of a calendar year. */
  lemma FactorsFollowTheCalendar(cadence: string)
    ensures -0.004 <= 12.0 * MonthlyFactor(cadence) - PeriodsPerYear(cadence) <= 0.004
  {
    hide Lower;
  }

  function Magnitude(x: real): real {
    if x < 0.0 then -x else x
  }

  lemma ScaledWithin(x: real, d: real, bound: real)
    requires -bound <= d <= bound
    ensures -bound * Magnitude(x) <= x * d <= bound * Magnitude(x)
  {
    if x >= 0.0 {
      assert x * (bound - d) >= 0.0 && x * (bound + d) >= 0.0;
    } else {
      assert -x * (bound - d) >= 0.0 && -x * (bound + d) >= 0.0;
    }
  }

  /** Twelve months of a recorded amount are a calendar year's worth of it, to within 0.004 of one. */
  lemma MonthlyFollowsCalendar(amount: real, cadence: string)
    ensures var year := amount * PeriodsPerYear(cadence);
      year - 0.004 * Magnitude(amount) <= 12.0 * ToMonthly(amount, cadence) <= year + 0.004 * Magnitude(amount)
  {
    hide MonthlyFactor, PeriodsPerYear;
    FactorsFollowTheCalendar(cadence);
    var d := 12.0 * MonthlyFactor(cadence) - PeriodsPerYear(cadence);
    assert 12.0 * ToMonthly(amount, cadence) == amount * PeriodsPerYear(cadence) + amount * d;
    ScaledWithin(amount, d, 0.004);
  }

  // ---------------------------------------------------------------- the totals, as loops

  function TotalAssets(v: Vault): real {
    SumBy(v.accounts, AccountBalance) + SumBy(v.assets, AssetWorth)
    + SumBy(v.estates, EstateWorth) + SumBy(v.retirement, RetirementBalance)
  }

  method SumAssets(v: Vault) returns (total: real)
    ensures total == TotalAssets(v)
  {
    total := 0.0;
    for i := 0 to |v.accounts|
      invariant total == SumBy(v.accounts[..i], AccountBalance)
    {
      SumSnoc(v.accounts, i, AccountBalance);
      if v.accounts[i].balance.Some? { total := total + v.accounts[i].balance.value; }
    }
    SumAll(v.accounts, AccountBalance);
    ghost var before := total;
    for i := 0 to |v.assets|
      invariant total == before + SumBy(v.assets[..i], AssetWorth)
    {
      SumSnoc(v.assets, i, AssetWorth);
      if v.assets[i].worth.Some? { total := total + v.assets[i].worth.value; }
    }
    SumAll(v.assets, AssetWorth);
    before := total;
    for i := 0 to |v.estates|
      invariant total == before + SumBy(v.estates[..i], EstateWorth)
    {
      SumSnoc(v.estates, i, EstateWorth);
      if v.estates[i].worth.Some? { total := total + v.estates[i].worth.value; }
    }
    SumAll(v.estates, EstateWorth);
    before := total;
    for i := 0 to |v.retirement|
      invariant total == before + SumBy(v.retirement[..i], RetirementBalance)
    {
      SumSnoc(v.retirement, i, RetirementBalance);
      if v.retirement[i].balance.Some? { total := total + v.retirement[i].balance.value; }
    }
    SumAll(v.retirement, RetirementBalance);
  }

  function TotalLiabilities(v: Vault): real {
    SumBy(v.debts, DebtBalance) + SumBy(v.estates, Mortgage)
  }

  method SumLiabilities(v: Vault) returns (total: real)
    ensures total == TotalLiabilities(v)
  {
    total := 0.0;
    for i := 0 to |v.debts|
      invariant total == SumBy(v.debts[..i], DebtBalance)
    {
      SumSnoc(v.debts, i, DebtBalance);
      if v.debts[i].balance.Some? { total := total + v.debts[i].balance.value; }
    }
    SumAll(v.debts, DebtBalance);
    ghost var before := total;
    for i := 0 to |v.estates|
      invariant total == before + SumBy(v.estates[..i], Mortgage)
    {
      SumSnoc(v.estates, i, Mortgage);
      if v.estates[i].mortgage.Some? { total := total + v.estates[i].mortgage.value; }
    }
    SumAll(v.estates, Mortgage);
  }

  method SumCash(accounts: seq<Account>) returns (total: real)
    ensures total == SumBy(accounts, Cash)
  {
    total := 0.0;
    for i := 0 to |accounts|
      invariant total == SumBy(accounts[..i], Cash)
    {
      SumSnoc(accounts, i, Cash);
      if Lower(accounts[i].kind) in CASH_KINDS {
        if accounts[i].balance.Some? { total := total + accounts[i].balance.value; }
      }
    }
    SumAll(accounts, Cash);
  }

  method SumTaxableBrokerage(accounts: seq<Account>) returns (total: real)
    ensures total == SumBy(accounts, Brokerage)
  {
    total := 0.0;
    for i := 0 to |accounts|
      invariant total == SumBy(accounts[..i], Brokerage)
    {
      SumSnoc(accounts, i, Brokerage);
      if Lower(accounts[i].kind) in BROKERAGE_KINDS {
        if accounts[i].balance.Some? { total := total + accounts[i].balance.value; }
      }
    }
    SumAll(accounts, Brokerage);
  }

  method SumHighInterestDebt(debts: seq<Debt>) returns (total: real)
    ensures total == SumBy(debts, HighInterestBalance)
  {
    total := 0.0;
    for i := 0 to |debts|
      invariant total == SumBy(debts[..i], HighInterestBalance)
    {
      SumSnoc(debts, i, HighInterestBalance);
      var d := debts[i];
      if d.apr.Some? && d.balance.Some? {
        if d.apr.value > HIGH_INTEREST_APR { total := total + d.balance.value; }
      }
    }
    SumAll(debts, HighInterestBalance);
  }

  method SumRealEstateEquity(estates: seq<Estate>) returns (total: real)
    ensures total == SumBy(estates, Equity)
  {
    total := 0.0;
    for i := 0 to |estates|
      invariant total == SumBy(estates[..i], Equity)
    {
      SumSnoc(estates, i, Equity);
      var e := estates[i];
      if e.equity.Some? {
        total := total + e.equity.value;
      } else if e.worth.Some? {
        var computed := e.worth.value - if e.mortgage.Some? then e.mortgage.value else 0.0;
        if computed > 0.0 { total := total + computed; }
      }
    }
    SumAll(estates, Equity);
  }

  method SumBusinessNetIncome(businesses: seq<Business>) returns (total: real)
    ensures total == SumBy(businesses, PositiveMargin)
  {
    total := 0.0;
    for i := 0 to |businesses|
      invariant total == SumBy(businesses[..i], PositiveMargin)
    {
      SumSnoc(businesses, i, PositiveMargin);
      var b := businesses[i];
      if b.margin.Some? && b.margin.value > 0.0 { total := total + b.margin.value; }
    }
    SumAll(businesses, PositiveMargin);
  }

  function MonthlyExpenses(expenses: seq<Expense>): (m: real)
    ensures m > 0.0
  {
    var total := SumBy(expenses, MonthlyExpense);
    if total > 0.0 then total else DEFAULT_MONTHLY_EXPENSES
  }

  method SumMonthlyExpenses(expenses: seq<Expense>) returns (total: real)
    ensures total == MonthlyExpenses(expenses)
  {
    total := 0.0;
    for i := 0 to |expenses|
      invariant total == SumBy(expenses[..i], MonthlyExpense)
    {
      SumSnoc(expenses, i, MonthlyExpense);
      var e := expenses[i];
      if e.amount.Some? { total := total + ToMonthly(e.amount.value, e.cadence); }
    }
    SumAll(expenses, MonthlyExpense);
    if !(total > 0.0) { total := DEFAULT_MONTHLY_EXPENSES; }
  }

  // ---------------------------------------------------------------- the ladder

  function NetWorth(v: Vault): real {
    TotalAssets(v) - TotalLiabilities(v)
  }

  datatype Rung = Rung(step: nat, current: real, gap: real, funded: bool)

  function RungStep(r: Rung): nat { r.step }

  predicate RungFunded(r: Rung) { r.funded }

  function TargetRung(step: nat, current: real, target: real): Rung {
    Rung(step, current, AboveZero(target - current), current >= target)
  }

  function AnyRung(step: nat, current: real): Rung {
    Rung(step, current, if current > 0.0 then 0.0 else 1.0, current > 0.0)
  }

  function Ladder(v: Vault): (ladder: seq<Rung>)
    ensures |ladder| == 6
  {
    var debt := SumBy(v.debts, HighInterestBalance);
    [TargetRung(1, SumBy(v.accounts, Cash), MonthlyExpenses(v.expenses) * MONTHS_EMERGENCY),
     Rung(2, 0.0, debt, debt == 0.0),
     TargetRung(3, SumBy(v.retirement, IraContribution) + SumBy(v.retirement, HsaContribution),
                IRA_LIMIT + HSA_LIMIT),
     AnyRung(4, SumBy(v.accounts, Brokerage)),
     AnyRung(5, SumBy(v.estates, Equity)),
     AnyRung(6, SumBy(v.businesses, PositiveMargin))]
  }

  datatype Position = Position(netWorth: real, totalAssets: real, totalLiabilities: real,
                               ladder: seq<Rung>, openGaps: seq<Rung>)

  function PositionOf(v: Vault): Position {
    Position(NetWorth(v), TotalAssets(v), TotalLiabilities(v), Ladder(v), Open(Ladder(v), RungFunded))
  }

  method BuildAllocationLadder(v: Vault) returns (ladder: seq<Rung>)
    ensures ladder == Ladder(v)
  {
    hide SumBy, MonthlyExpenses;
    var expenses := SumMonthlyExpenses(v.expenses);
    var cash := SumCash(v.accounts);
    var debt := SumHighInterestDebt(v.debts);
    var ira := SumBy(v.retirement, IraContribution);
    var hsa := SumBy(v.retirement, HsaContribution);
    var taxable := SumTaxableBrokerage(v.accounts);
    var equity := SumRealEstateEquity(v.estates);
    var business := SumBusinessNetIncome(v.businesses);
    ladder := [TargetRung(1, cash, expenses * MONTHS_EMERGENCY), Rung(2, 0.0, debt, debt == 0.0),
               TargetRung(3, ira + hsa, IRA_LIMIT + HSA_LIMIT), AnyRung(4, taxable),
               AnyRung(5, equity), AnyRung(6, business)];
  }

  method ComputeWealthPosition(v: Vault) returns (p: Position)
    ensures p == PositionOf(v)
  {
    var assets := SumAssets(v);
    var liabilities := SumLiabilities(v);
    var ladder := BuildAllocationLadder(v);
    p := Position(assets - liabilities, assets, liabilities, ladder, Open(ladder, RungFunded));
  }

  function AllocationStep(v: Vault): nat {
    CurrentStep(PositionOf(v).openGaps, RungStep, 6)
  }

  /** A step is funded iff its gap is zero, whatever the rows, negative figures included. */
  lemma FundedExactlyWhenNoGap(v: Vault, i: nat)
    requires i < 6
    ensures Ladder(v)[i].step == i + 1
    ensures Ladder(v)[i].funded <==> Ladder(v)[i].gap == 0.0
  {
    assert Ladder(v)[i].step == i + 1;
  }

  /** The reported step is the least unfunded one, else 6; so 6 says nothing about step 6 itself. */
  lemma AllocationStepIsLeastUnfunded(v: Vault)
    ensures LeastUnfunded(Ladder(v), RungFunded, AllocationStep(v))
    ensures AllocationStep(v) == 6 <==> forall i :: 0 <= i < 5 ==> Ladder(v)[i].funded
  {
    hide Ladder;
    forall i | 0 <= i < 6
      ensures RungStep(Ladder(v)[i]) == i + 1
    {
      FundedExactlyWhenNoGap(v, i);
    }
    CurrentIsLeastUnfunded(Ladder(v), RungStep, RungFunded);
  }

  // ---------------------------------------------------------------- what the steps mean

  predicate NoNegativeDebts(v: Vault) {
    forall i :: 0 <= i < |v.debts| ==> 0.0 <= HighInterestBalance(v.debts[i])
  }

  predicate NoNegativeBrokerage(v: Vault) {
    forall i :: 0 <= i < |v.accounts| ==> 0.0 <= Brokerage(v.accounts[i])
  }

  /** With non-negative balances step 2 is funded iff no debt above 7% APR has a balance left. */
  lemma DebtStepExactly(v: Vault)
    requires NoNegativeDebts(v)
    ensures Ladder(v)[1].funded <==>
            forall i :: 0 <= i < |v.debts| && v.debts[i].apr.Some? && v.debts[i].apr.value > 7.0 ==>
              v.debts[i].balance.None? || v.debts[i].balance.value == 0.0
  {
    hide SumBy;
    SumOfNonNegatives(v.debts, HighInterestBalance);
    forall i | 0 <= i < |v.debts| && HighInterest(v.debts[i])
      ensures HighInterestBalance(v.debts[i]) == Amount(v.debts[i].balance)
    {
    }
  }

  /** With non-negative balances step 4 is funded iff some brokerage account holds something. */
  lemma BrokerageStepExactly(v: Vault)
    requires NoNegativeBrokerage(v)
    ensures Ladder(v)[3].funded <==>
            exists i :: 0 <= i < |v.accounts| && Lower(v.accounts[i].kind) in {"brokerage", "taxable", "investment"}
                        && v.accounts[i].balance.Some? && v.accounts[i].balance.value > 0.0
  {
    hide SumBy, Lower;
    SumOfNonNegatives(v.accounts, Brokerage);
    forall i | 0 <= i < |v.accounts|
      ensures Brokerage(v.accounts[i]) > 0.0 <==>
              Taxable(v.accounts[i].kind) && Amount(v.accounts[i].balance) > 0.0
    {
    }
  }

  function SheltersContribution(r: Retirement): real {
    if r.kind in IRA_KINDS || r.kind == "hsa" then Amount(r.contributed) else 0.0
  }

  /** Step 3 is funded iff this year's contributions to IRAs and HSAs together reach 11,300. */
  lemma ContributionStepExactly(v: Vault)
    ensures Ladder(v)[2].funded <==> SumBy(v.retirement, SheltersContribution) >= 11300.0
  {
    hide SumBy;
    SumDifference(v.retirement, SheltersContribution, IraContribution, HsaContribution);
  }

  predicate NoNegativeEquity(v: Vault) {
    forall i :: 0 <= i < |v.estates| && v.estates[i].equity.Some? ==> 0.0 <= v.estates[i].equity.value
  }

  predicate HasEquity(e: Estate) {
    if e.equity.Some? then e.equity.value > 0.0 else e.worth.Some? && Amount(e.mortgage) < e.worth.value
  }

  /** With no negative estimate recorded, step 5 is funded iff some property has equity. */
  lemma PropertyStepExactly(v: Vault)
    requires NoNegativeEquity(v)
    ensures Ladder(v)[4].funded <==> exists i :: 0 <= i < |v.estates| && HasEquity(v.estates[i])
  {
    hide SumBy;
    SumOfNonNegatives(v.estates, Equity);
    forall i | 0 <= i < |v.estates|
      ensures Equity(v.estates[i]) > 0.0 <==> HasEquity(v.estates[i])
    {
    }
  }

  /** Step 6 is funded iff some business earns a positive margin; losses elsewhere never undo it. */
  lemma BusinessStepExactly(v: Vault)
    ensures Ladder(v)[5].funded <==>
            exists i :: 0 <= i < |v.businesses| && Amount(v.businesses[i].margin) > 0.0
  {
    hide SumBy;
    SumOfNonNegatives(v.businesses, PositiveMargin);
    forall i | 0 <= i < |v.businesses|
      ensures PositiveMargin(v.businesses[i]) > 0.0 <==> Amount(v.businesses[i].margin) > 0.0
    {
    }
  }

  // ---------------------------------------------------------------- net worth

  function Figure(o: Option<real>): real {
    match o
    case Some(x) => x
    case None => 0.0
  }

  /** Everything owned, row by row: accounts, assets, property values and retirement balances. */
  function OwnedFigures(v: Vault): seq<real> {
    seq(|v.accounts|, i requires 0 <= i < |v.accounts| => Figure(v.accounts[i].balance))
    + seq(|v.assets|, i requires 0 <= i < |v.assets| => Figure(v.assets[i].worth))
    + seq(|v.estates|, i requires 0 <= i < |v.estates| => Figure(v.estates[i].worth))
    + seq(|v.retirement|, i requires 0 <= i < |v.retirement| => Figure(v.retirement[i].balance))
  }

  /** Everything owed: debts and mortgages. */
  function OwedFigures(v: Vault): seq<real> {
    seq(|v.debts|, i requires 0 <= i < |v.debts| => Figure(v.debts[i].balance))
    + seq(|v.estates|, i requires 0 <= i < |v.estates| => Figure(v.estates[i].mortgage))
  }

  lemma TotalAppend(a: seq<real>, b: seq<real>)
    ensures Total(a + b) == Total(a) + Total(b)
  {
    SumAppend(a, b, Itself);
  }

  lemma OwnedTotal(v: Vault)
    ensures TotalAssets(v) == Total(OwnedFigures(v))
  {
    hide SumBy, Total;
    var a := seq(|v.accounts|, i requires 0 <= i < |v.accounts| => Figure(v.accounts[i].balance));
    var b := seq(|v.assets|, i requires 0 <= i < |v.assets| => Figure(v.assets[i].worth));
    var c := seq(|v.estates|, i requires 0 <= i < |v.estates| => Figure(v.estates[i].worth));
    var d := seq(|v.retirement|, i requires 0 <= i < |v.retirement| => Figure(v.retirement[i].balance));
    SumIsTotal(v.accounts, AccountBalance, a);
    SumIsTotal(v.assets, AssetWorth, b);
    SumIsTotal(v.estates, EstateWorth, c);
    SumIsTotal(v.retirement, RetirementBalance, d);
    TotalAppend(a, b);
    TotalAppend(a + b, c);
    TotalAppend(a + b + c, d);
  }

  lemma OwedTotal(v: Vault)
    ensures TotalLiabilities(v) == Total(OwedFigures(v))
  {
    hide SumBy, Total;
    var a := seq(|v.debts|, i requires 0 <= i < |v.debts| => Figure(v.debts[i].balance));
    var b := seq(|v.estates|, i requires 0 <= i < |v.estates| => Figure(v.estates[i].mortgage));
    SumIsTotal(v.debts, DebtBalance, a);
    SumIsTotal(v.estates, Mortgage, b);
    TotalAppend(a, b);
  }

  function Negated(xs: seq<real>): seq<real> {
    seq(|xs|, i requires 0 <= i < |xs| => -xs[i])
  }

  lemma {:induction false} TotalNegated(xs: seq<real>)
    ensures Total(Negated(xs)) == -Total(xs)
    decreases |xs|
  {
    if xs != [] {
      assert Negated(xs)[..|xs| - 1] == Negated(xs[..|xs| - 1]);
      TotalNegated(xs[..|xs| - 1]);
    }
  }

  /** The position's totals are its rows' own figures; net worth is their one signed sum. */
  lemma NetWorthIsSignedSum(v: Vault)
    ensures PositionOf(v).totalAssets == Total(OwnedFigures(v))
    ensures PositionOf(v).totalLiabilities == Total(OwedFigures(v))
    ensures PositionOf(v).netWorth == NetWorth(v) == Total(OwnedFigures(v) + Negated(OwedFigures(v)))
  {
    hide SumBy, Total, OwnedFigures, OwedFigures, TotalAssets, TotalLiabilities, Ladder;
    OwnedTotal(v);
    OwedTotal(v);
    TotalNegated(OwedFigures(v));
    TotalAppend(OwnedFigures(v), Negated(OwedFigures(v)));
  }

  function Credit(accounts: seq<Account>, i: nat, amount: real): seq<Account>
    requires i < |accounts|
  {
    accounts[i := accounts[i].(balance := Some(Amount(accounts[i].balance) + amount))]
  }

  /** Moving money between two accounts. */
  function Transfer(v: Vault, i: nat, j: nat, amount: real): Vault
    requires i < |v.accounts| && j < |v.accounts|
  {
    v.(accounts := Credit(Credit(v.accounts, i, -amount), j, amount))
  }

  function PayDebt(v: Vault, i: nat, d: nat, amount: real): Vault
    requires i < |v.accounts| && d < |v.debts|
  {
    v.(accounts := Credit(v.accounts, i, -amount),
       debts := v.debts[d := v.debts[d].(balance := Some(Amount(v.debts[d].balance) - amount))])
  }

  function PayMortgage(v: Vault, i: nat, e: nat, amount: real): Vault
    requires i < |v.accounts| && e < |v.estates|
  {
    v.(accounts := Credit(v.accounts, i, -amount),
       estates := v.estates[e := v.estates[e].(mortgage := Some(Amount(v.estates[e].mortgage) - amount))])
  }

  lemma CreditAdds(accounts: seq<Account>, i: nat, amount: real)
    requires i < |accounts|
    ensures SumBy(Credit(accounts, i, amount), AccountBalance) == SumBy(accounts, AccountBalance) + amount
    ensures SumBy(Credit(accounts, i, amount), Cash)
         == SumBy(accounts, Cash) + if CashLike(accounts[i].kind) then amount else 0.0
    ensures SumBy(Credit(accounts, i, amount), Brokerage)
         == SumBy(accounts, Brokerage) + if Taxable(accounts[i].kind) then amount else 0.0
  {
    hide SumBy, Lower, CashLike, Taxable;
    var y := accounts[i].(balance := Some(Amount(accounts[i].balance) + amount));
    SumUpdate(accounts, i, y, AccountBalance);
    SumUpdate(accounts, i, y, Cash);
    SumUpdate(accounts, i, y, Brokerage);
  }

  /**
   A transfer leaves every total as it was; between accounts of the same class it leaves the whole
   position as it was.
   */
  lemma TransferConserves(v: Vault, i: nat, j: nat, amount: real)
    requires i < |v.accounts| && j < |v.accounts|
    ensures var w := Transfer(v, i, j, amount);
      && NetWorth(w) == NetWorth(v)
      && TotalAssets(w) == TotalAssets(v) && TotalLiabilities(w) == TotalLiabilities(v)
      && (&& CashLike(v.accounts[i].kind) == CashLike(v.accounts[j].kind)
          && Taxable(v.accounts[i].kind) == Taxable(v.accounts[j].kind)
          ==> PositionOf(w) == PositionOf(v))
  {
    hide SumBy, CashLike, Taxable;
    CreditAdds(v.accounts, i, -amount);
    CreditAdds(Credit(v.accounts, i, -amount), j, amount);
  }

  /** Paying down a debt or a mortgage moves both totals down alike and keeps net worth. */
  lemma PaymentsConserve(v: Vault, i: nat, k: nat, amount: real)
    requires i < |v.accounts|
    ensures k < |v.debts| ==>
      var w := PayDebt(v, i, k, amount);
      && NetWorth(w) == NetWorth(v) && TotalAssets(w) == TotalAssets(v) - amount
      && Ladder(w)[1].gap == Ladder(v)[1].gap - (if HighInterest(v.debts[k]) then amount else 0.0)
    ensures k < |v.estates| ==>
      var w := PayMortgage(v, i, k, amount);
      && NetWorth(w) == NetWorth(v) && TotalAssets(w) == TotalAssets(v) - amount
  {
    hide SumBy, CashLike, Taxable;
    CreditAdds(v.accounts, i, -amount);
    if k < |v.debts| {
      var y := v.debts[k].(balance := Some(Amount(v.debts[k].balance) - amount));
      SumUpdate(v.debts, k, y, DebtBalance);
      SumUpdate(v.debts, k, y, HighInterestBalance);
    }
    if k < |v.estates| {
      var y := v.estates[k].(mortgage := Some(Amount(v.estates[k].mortgage) - amount));
      SumUpdate(v.estates, k, y, EstateWorth);
      SumUpdate(v.estates, k, y, Mortgage);
    }
  }

  // ---------------------------------------------------------------- each rung's own figures

  /** Case folding turns every capital letter into its small one and leaves the rest. */
  lemma LowerExactly(s: string, i: nat)
    requires i < |s|
    ensures |Lower(s)| == |s|
    ensures 'A' <= s[i] <= 'Z' ==> Lower(s)[i] == "abcdefghijklmnopqrstuvwxyz"[s[i] as int - 'A' as int]
    ensures !('A' <= s[i] <= 'Z') ==> Lower(s)[i] == s[i]
  {
  }

  function CashFigures(accounts: seq<Account>): seq<real> {
    seq(|accounts|, i requires 0 <= i < |accounts| =>
      if Lower(accounts[i].kind) in {"checking", "savings", "cash", "hysa", "money_market", ""}
      then Figure(accounts[i].balance) else 0.0)
  }

  function HighInterestFigures(debts: seq<Debt>): seq<real> {
    seq(|debts|, i requires 0 <= i < |debts| =>
      if debts[i].apr.Some? && debts[i].apr.value > 7.0 then Figure(debts[i].balance) else 0.0)
  }

  function ContributionFigures(retirement: seq<Retirement>): seq<real> {
    seq(|retirement|, i requires 0 <= i < |retirement| =>
      if retirement[i].kind in {"roth_ira", "traditional_ira", "ira", "hsa"}
      then Figure(retirement[i].contributed) else 0.0)
  }

  function BrokerageFigures(accounts: seq<Account>): seq<real> {
    seq(|accounts|, i requires 0 <= i < |accounts| =>
      if Lower(accounts[i].kind) in {"brokerage", "taxable", "investment"} then Figure(accounts[i].balance) else 0.0)
  }

  function EquityFigures(estates: seq<Estate>): seq<real> {
    seq(|estates|, i requires 0 <= i < |estates| =>
      var e := estates[i];
      if e.equity.Some? then e.equity.value
      else if e.worth.Some? && e.worth.value > Figure(e.mortgage) then e.worth.value - Figure(e.mortgage)
      else 0.0)
  }

  function MarginFigures(businesses: seq<Business>): seq<real> {
    seq(|businesses|, i requires 0 <= i < |businesses| =>
      if businesses[i].margin.Some? && businesses[i].margin.value > 0.0 then businesses[i].margin.value else 0.0)
  }

  lemma CashTotals(v: Vault)
    ensures SumBy(v.accounts, Cash) == Total(CashFigures(v.accounts))
    ensures SumBy(v.accounts, Brokerage) == Total(BrokerageFigures(v.accounts))
  {
    hide SumBy, Lower, Total;
    SumIsTotal(v.accounts, Cash, CashFigures(v.accounts));
    SumIsTotal(v.accounts, Brokerage, BrokerageFigures(v.accounts));
  }

  lemma ContributionTotal(v: Vault)
    ensures SumBy(v.retirement, IraContribution) + SumBy(v.retirement, HsaContribution)
         == Total(ContributionFigures(v.retirement))
  {
    hide SumBy, Total;
    SumDifference(v.retirement, SheltersContribution, IraContribution, HsaContribution);
    SumIsTotal(v.retirement, SheltersContribution, ContributionFigures(v.retirement));
  }

  lemma OtherTotals(v: Vault)
    ensures SumBy(v.debts, HighInterestBalance) == Total(HighInterestFigures(v.debts))
    ensures SumBy(v.estates, Equity) == Total(EquityFigures(v.estates))
    ensures SumBy(v.businesses, PositiveMargin) == Total(MarginFigures(v.businesses))
  {
    hide SumBy, Total;
    SumIsTotal(v.debts, HighInterestBalance, HighInterestFigures(v.debts));
    SumIsTotal(v.estates, Equity, EquityFigures(v.estates));
    SumIsTotal(v.businesses, PositiveMargin, MarginFigures(v.businesses));
  }

  /** `current` falls short of `target` by the gap, or reaches it and leaves none. */
  predicate FallsShort(r: Rung, current: real, target: real) {
    && r.current == current
    && (current < target ==> r.gap == target - current && !r.funded)
    && (current >= target ==> r.gap == 0.0 && r.funded)
  }

  /** Something there closes the step; without it the gap is a token 1. */
  predicate AnyCloses(r: Rung, current: real) {
    && r.current == current
    && (current > 0.0 ==> r.gap == 0.0 && r.funded)
    && (current <= 0.0 ==> r.gap == 1.0 && !r.funded)
  }

  /** What each rung shows, from the vault's own figures. */
  lemma LadderFigures(v: Vault)
    ensures var l := Ladder(v);
      && FallsShort(l[0], Total(CashFigures(v.accounts)), 3.0 * MonthlyExpenses(v.expenses))
      && l[1].current == 0.0 && l[1].gap == Total(HighInterestFigures(v.debts)) && (l[1].funded <==> l[1].gap == 0.0)
      && FallsShort(l[2], Total(ContributionFigures(v.retirement)), 11300.0)
      && AnyCloses(l[3], Total(BrokerageFigures(v.accounts)))
      && AnyCloses(l[4], Total(EquityFigures(v.estates)))
      && AnyCloses(l[5], Total(MarginFigures(v.businesses)))
  {
    hide SumBy, Total, CashFigures, HighInterestFigures, ContributionFigures, BrokerageFigures, EquityFigures;
    hide MarginFigures, MonthlyExpenses;
    CashTotals(v);
    ContributionTotal(v);
    OtherTotals(v);
  }

  // ---------------------------------------------------------------- expenses by the calendar

  /** A calendar year of an expense. */
  function YearlyExpense(e: Expense): real {
    Figure(e.amount) * PeriodsPerYear(e.cadence)
  }

  function Twelvefold(e: Expense): real {
    12.0 * MonthlyExpense(e)
  }

  /** 0.004 of the recorded amount. */
  function Allowance(e: Expense): real {
    0.004 * Magnitude(Figure(e.amount))
  }

  lemma {:induction false} TwelvefoldSum(expenses: seq<Expense>)
    ensures SumBy(expenses, Twelvefold) == 12.0 * SumBy(expenses, MonthlyExpense)
    decreases |expenses|
  {
    hide MonthlyFactor;
    if expenses != [] {
      TwelvefoldSum(expenses[..|expenses| - 1]);
    }
  }

  /**
   Unless the default stands in, twelve times the monthly expenses are the expenses of a calendar
   year, to within 0.004 of each recorded amount.
   */
  lemma ExpensesFollowCalendar(expenses: seq<Expense>)
    ensures var year, slack := SumBy(expenses, YearlyExpense), SumBy(expenses, Allowance);
      && year - slack <= 12.0 * SumBy(expenses, MonthlyExpense) <= year + slack
      && (MonthlyExpenses(expenses) == SumBy(expenses, MonthlyExpense)
          || (SumBy(expenses, MonthlyExpense) <= 0.0 && MonthlyExpenses(expenses) == 3000.0))
  {
    hide SumBy, ToMonthly, PeriodsPerYear, Magnitude;
    forall i | 0 <= i < |expenses|
      ensures YearlyExpense(expenses[i]) - Allowance(expenses[i]) <= Twelvefold(expenses[i])
              <= YearlyExpense(expenses[i]) + Allowance(expenses[i])
    {
      MonthlyFollowsCalendar(Figure(expenses[i].amount), expenses[i].cadence);
    }
    SumsStayClose(expenses, Twelvefold, YearlyExpense, Allowance);
    TwelvefoldSum(expenses);
  }

  /** So step 1 asks for a quarter of a calendar year's expenses, to within that allowance. */
  lemma EmergencyStepFollowsCalendar(v: Vault)
    requires SumBy(v.expenses, MonthlyExpense) > 0.0
    ensures var year, slack := SumBy(v.expenses, YearlyExpense), SumBy(v.expenses, Allowance);
      var cash := Total(CashFigures(v.accounts));
      && (4.0 * cash >= year + slack ==> Ladder(v)[0].funded)
      && (4.0 * cash < year - slack ==> !Ladder(v)[0].funded)
  {
    hide SumBy, Total, CashFigures, Ladder;
    LadderFigures(v);
    ExpensesFollowCalendar(v.expenses);
  }

  // ---------------------------------------------------------------- monotonicity

  predicate AccountsNoWorse(a: seq<Account>, b: seq<Account>) {
    && |a| <= |b|
    && (forall i :: 0 <= i < |a| ==>
          && b[i].kind == a[i].kind
          && (CashLike(a[i].kind) || Taxable(a[i].kind) ==> Amount(a[i].balance) <= Amount(b[i].balance)))
    && (forall i :: |a| <= i < |b| ==> 0.0 <= Amount(b[i].balance))
  }

  predicate RetirementNoWorse(a: seq<Retirement>, b: seq<Retirement>) {
    && |a| <= |b|
    && (forall i :: 0 <= i < |a| ==>
          b[i].kind == a[i].kind && Amount(a[i].contributed) <= Amount(b[i].contributed))
    && (forall i :: |a| <= i < |b| ==> 0.0 <= Amount(b[i].contributed))
  }

  /** A higher recorded estimate, or without one a higher value or a lower mortgage. */
  predicate EstateNoWorse(a: Estate, b: Estate) {
    && (a.equity.Some? <==> b.equity.Some?)
    && (a.equity.Some? ==> a.equity.value <= b.equity.value)
    && (a.equity.None? && a.worth.Some? ==>
          b.worth.Some? && a.worth.value <= b.worth.value && Amount(b.mortgage) <= Amount(a.mortgage))
  }

  predicate EstatesNoWorse(a: seq<Estate>, b: seq<Estate>) {
    && |a| <= |b|
    && (forall i :: 0 <= i < |a| ==> EstateNoWorse(a[i], b[i]))
    && (forall i :: |a| <= i < |b| ==> b[i].equity.Some? ==> 0.0 <= b[i].equity.value)
  }

  predicate BusinessesNoWorse(a: seq<Business>, b: seq<Business>) {
    |a| <= |b| && forall i :: 0 <= i < |a| ==> Amount(a[i].margin) <= Amount(b[i].margin)
  }

  /** A lower rate and, while it is high, a lower balance; a credit balance must not drop out of sight. */
  predicate DebtNoWorse(a: Debt, b: Debt) {
    && (b.apr.Some? ==> a.apr.Some? && b.apr.value <= a.apr.value)
    && (HighInterest(b) ==> Amount(b.balance) <= Amount(a.balance))
    && (!HighInterest(b) ==> 0.0 <= HighInterestBalance(a))
  }

  /** The debts of `b` are those of `a` at the positions `kept`, no worse; the others were removed. */
  ghost predicate DebtsKept(a: seq<Debt>, b: seq<Debt>, kept: seq<nat>) {
    && |kept| == |b|
    && (forall j :: 0 <= j < |b| ==> kept[j] < |a| && DebtNoWorse(a[kept[j]], b[j]))
    && (forall j, k :: 0 <= j < k < |kept| ==> kept[j] < kept[k])
    && (forall i: nat :: i < |a| && i !in kept ==> 0.0 <= HighInterestBalance(a[i]))
  }

  ghost predicate DebtsNoWorse(a: seq<Debt>, b: seq<Debt>) {
    exists kept :: DebtsKept(a, b, kept)
  }

  lemma DebtsShrink(a: seq<Debt>, b: seq<Debt>)
    requires DebtsNoWorse(a, b)
    ensures SumBy(b, HighInterestBalance) <= SumBy(a, HighInterestBalance)
  {
    hide SumBy;
    var kept :| DebtsKept(a, b, kept);
    SumThinned(a, b, kept, HighInterestBalance);
  }

  /**
   The same expenses, and every figure that a step looks at no worse; debts may be removed, other
   rows added.
   */
  ghost predicate NoWorse(v: Vault, w: Vault) {
    && v.expenses == w.expenses
    && AccountsNoWorse(v.accounts, w.accounts)
    && RetirementNoWorse(v.retirement, w.retirement)
    && EstatesNoWorse(v.estates, w.estates)
    && BusinessesNoWorse(v.businesses, w.businesses)
    && DebtsNoWorse(v.debts, w.debts)
  }

  lemma AccountFiguresRise(v: Vault, w: Vault)
    requires NoWorse(v, w)
    ensures SumBy(v.accounts, Cash) <= SumBy(w.accounts, Cash)
    ensures SumBy(v.accounts, Brokerage) <= SumBy(w.accounts, Brokerage)
  {
    hide SumBy, CashLike, Taxable;
    SumMonotone(v.accounts, w.accounts, Cash);
    SumMonotone(v.accounts, w.accounts, Brokerage);
  }

  lemma OtherFiguresRise(v: Vault, w: Vault)
    requires NoWorse(v, w)
    ensures SumBy(v.retirement, IraContribution) <= SumBy(w.retirement, IraContribution)
    ensures SumBy(v.retirement, HsaContribution) <= SumBy(w.retirement, HsaContribution)
    ensures SumBy(v.estates, Equity) <= SumBy(w.estates, Equity)
    ensures SumBy(v.businesses, PositiveMargin) <= SumBy(w.businesses, PositiveMargin)
    ensures SumBy(w.debts, HighInterestBalance) <= SumBy(v.debts, HighInterestBalance)
    ensures MonthlyExpenses(w.expenses) == MonthlyExpenses(v.expenses)
  {
    hide SumBy;
    SumMonotone(v.retirement, w.retirement, IraContribution);
    SumMonotone(v.retirement, w.retirement, HsaContribution);
    SumMonotone(v.estates, w.estates, Equity);
    SumMonotone(v.businesses, w.businesses, PositiveMargin);
    DebtsShrink(v.debts, w.debts);
  }

  /** Only step 2 can be lost, and only to a negative total. */
  lemma GapsShrink(v: Vault, w: Vault, i: nat)
    requires NoWorse(v, w) && i < 6
    ensures Ladder(w)[i].gap <= Ladder(v)[i].gap
    ensures i == 1 || 0.0 <= Ladder(w)[i].gap
    ensures i != 1 && Ladder(v)[i].funded ==> Ladder(w)[i].funded
  {
    hide SumBy, NoWorse, HighInterestBalance, MonthlyExpenses;
    AccountFiguresRise(v, w);
    OtherFiguresRise(v, w);
  }

  lemma DebtStepLostExactly(v: Vault, w: Vault)
    requires NoWorse(v, w)
    ensures Ladder(v)[1].funded && !Ladder(w)[1].funded <==>
            SumBy(v.debts, HighInterestBalance) == 0.0 && SumBy(w.debts, HighInterestBalance) < 0.0
  {
    hide SumBy, NoWorse, HighInterestBalance, MonthlyExpenses;
    OtherFiguresRise(v, w);
  }

  /**
   When no figure gets worse, every funded step stays funded unless high-interest debt that summed
   to nothing now sums to less than nothing.
   */
  lemma FundedStepsStayExactly(v: Vault, w: Vault)
    requires NoWorse(v, w)
    ensures (forall i :: 0 <= i < 6 && Ladder(v)[i].funded ==> Ladder(w)[i].funded) <==>
            !(SumBy(v.debts, HighInterestBalance) == 0.0 && SumBy(w.debts, HighInterestBalance) < 0.0)
  {
    hide Ladder, NoWorse, SumBy;
    DebtStepLostExactly(v, w);
    forall i | 0 <= i < 6 && i != 1 && Ladder(v)[i].funded
      ensures Ladder(w)[i].funded
    {
      GapsShrink(v, w, i);
    }
  }

  /**
   And the allocation step moves back iff it was past step 2 and the high-interest debt now sums to
   less than nothing.
   */
  lemma StepMovesBackExactly(v: Vault, w: Vault)
    requires NoWorse(v, w)
    ensures AllocationStep(w) < AllocationStep(v) <==>
            AllocationStep(v) > 2 && SumBy(w.debts, HighInterestBalance) < 0.0
  {
    var s, t := AllocationStep(v), AllocationStep(w);
    AllocationStepIsLeastUnfunded(v);
    AllocationStepIsLeastUnfunded(w);
    DebtStepLostExactly(v, w);
    assert Ladder(v)[1].funded <==> SumBy(v.debts, HighInterestBalance) == 0.0;
    assert Ladder(w)[1].funded <==> SumBy(w.debts, HighInterestBalance) == 0.0;
    hide Ladder, NoWorse, SumBy, AllocationStep;
    if t < s {
      GapsShrink(v, w, t - 1);
    }
  }

  /**
   So when, besides, no high-interest balance is negative, every gap shrinks or stays, no funded
   step is lost, and the allocation step never moves back.
   */
  lemma NoWorseNeverMovesBack(v: Vault, w: Vault)
    requires NoWorse(v, w) && NoNegativeDebts(w)
    ensures forall i :: 0 <= i < 6 ==> 0.0 <= Ladder(w)[i].gap <= Ladder(v)[i].gap
    ensures forall i :: 0 <= i < 6 && Ladder(v)[i].funded ==> Ladder(w)[i].funded
    ensures AllocationStep(v) <= AllocationStep(w)
  {
    SumOfNonNegatives(w.debts, HighInterestBalance);
    assert Ladder(w)[1].gap == SumBy(w.debts, HighInterestBalance);
    hide Ladder, AllocationStep, NoWorse, SumBy;
    FundedStepsStayExactly(v, w);
    StepMovesBackExactly(v, w);
    forall i | 0 <= i < 6
      ensures 0.0 <= Ladder(w)[i].gap <= Ladder(v)[i].gap
    {
      GapsShrink(v, w, i);
    }
  }

  function DebtsOnly(debts: seq<Debt>): Vault {
    Vault([], [], [], [], debts, [], [])
  }

  /** A concrete step lost: overpaying a high-interest debt. */
  lemma OverpaymentReopensDebtStep()
    ensures var v, w := DebtsOnly([Debt(Some(20.0), Some(0.0))]), DebtsOnly([Debt(Some(20.0), Some(-5.0))]);
      NoWorse(v, w) && Ladder(v)[1].funded && !Ladder(w)[1].funded
  {
    hide Lower, CashLike, Taxable, MonthlyExpense;
    var a, b := [Debt(Some(20.0), Some(0.0))], [Debt(Some(20.0), Some(-5.0))];
    assert a[..0] == [] && b[..0] == [];
    assert DebtsKept(a, b, [0]);
  }

  lemma ScaledSign(x: real, f: real)
    requires f > 0.0 && x >= 0.0
    ensures x * f >= 0.0 && (x * f > 0.0 <==> x > 0.0)
  {
  }

  /**
   The default of 3000 a month stands in exactly when no positive expense is recorded, given that
   none is negative.
   */
  lemma DefaultExpensesExactly(expenses: seq<Expense>)
    requires forall i :: 0 <= i < |expenses| ==> 0.0 <= Amount(expenses[i].amount)
    ensures SumBy(expenses, MonthlyExpense) > 0.0 <==>
            exists i :: 0 <= i < |expenses| && Amount(expenses[i].amount) > 0.0
    ensures !(exists i :: 0 <= i < |expenses| && Amount(expenses[i].amount) > 0.0) ==>
            MonthlyExpenses(expenses) == DEFAULT_MONTHLY_EXPENSES
  {
    hide SumBy, Lower;
    forall i | 0 <= i < |expenses|
      ensures 0.0 <= MonthlyExpense(expenses[i])
      ensures MonthlyExpense(expenses[i]) > 0.0 <==> Amount(expenses[i].amount) > 0.0
    {
      ScaledSign(Amount(expenses[i].amount), MonthlyFactor(expenses[i].cadence));
    }
    SumOfNonNegatives(expenses, MonthlyExpense);
  }
}
