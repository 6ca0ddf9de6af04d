/**
 The figures that several consumers derive from the two ladders: the stored snapshot, the agent's
 profile bridge and vault snapshot, and the weekly digest.
 */
module Consumers {
  import opened Wrappers
  import opened Rounding
  import opened Sums
  import opened WealthLadder
  import opened IncomeLadder

  // ---------------------------------------------------------------- published figures

  function Hundreds(k: int): real {
    k as real * 100.0
  }

  function Round100(x: real): (y: real)
    ensures x <= y < x + 100.0
  {
    Hundreds(Ceiling(x / 100.0))
  }

  /** The published figure is the least whole hundred that does not understate the true one. */
  lemma Round100IsLeastHundred(x: real)
    ensures exists k :: Round100(x) == Hundreds(k)
    ensures forall k :: x <= Hundreds(k) ==> Round100(x) <= Hundreds(k)
  {
    var c := Ceiling(x / 100.0);
    assert Round100(x) == Hundreds(c);
    forall k | x <= Hundreds(k)
      ensures c <= k
    {
      assert x / 100.0 <= k as real;
    }
  }

  /** How much rounding up adds to a figure. */
  function Added(x: real): real {
    Round100(x) - x
  }

  function HundredBelow(x: real): real {
    Hundreds((x / 100.0).Floor)
  }

  function Distance(x: real, y: real): real {
    if x <= y then y - x else x - y
  }

  ghost predicate NearestHundred(x: real, y: real) {
    forall k :: Distance(x, y) <= Distance(x, Hundreds(k))
  }

  /** It is a nearest hundred iff the figure is a whole hundred or at least 50 above the one below. */
  lemma NearestExactly(x: real)
    ensures NearestHundred(x, Round100(x)) <==> x == HundredBelow(x) || x - HundredBelow(x) >= 50.0
    ensures NearestHundred(x, Round100(x)) <==> Added(x) <= 50.0
  {
    var f, c := (x / 100.0).Floor, Ceiling(x / 100.0);
    assert c == f || c == f + 1;
    assert f as real <= x / 100.0 < f as real + 1.0;
    if x == HundredBelow(x) {
      assert c == f;
    } else {
      assert c == f + 1;
      assert Distance(x, Hundreds(f)) == x - HundredBelow(x);
      forall k
        ensures Distance(x, Hundreds(k)) >= if k <= f then x - HundredBelow(x) else Round100(x) - x
      {
      }
    }
  }

  /** A concrete figure that is not published to the nearest hundred. */
  lemma HundredAndOne()
    ensures Round100(101.0) == 200.0 && !NearestHundred(101.0, Round100(101.0))
  {
    assert Ceiling(101.0 / 100.0) == 2;
    assert Distance(101.0, Hundreds(1)) == 1.0;
  }

  lemma RoundedDifference(a: real, l: real)
    ensures var excess := Round100(a - l) - (Round100(a) - Round100(l));
      && (excess == 0.0 || excess == 100.0)
      && (excess == 100.0 <==> Added(l) > Added(a))
  {
    var i, j, k := Ceiling(a / 100.0), Ceiling(l / 100.0), Ceiling((a - l) / 100.0);
    assert Round100(a - l) == Hundreds(k);
    assert (a - l) / 100.0 == a / 100.0 - l / 100.0;
    assert k == i - j || k == i - j + 1;
  }

  /**
   The published net worth exceeds published assets less published liabilities by 0 or by 100; by
   100 exactly when rounding adds more to the liabilities than to the assets.
   */
  lemma PublishedNetWorthIsOffByHundred(v: Vault)
    ensures var a, l := TotalAssets(v), TotalLiabilities(v);
      var excess := Round100(NetWorth(v)) - (Round100(a) - Round100(l));
      && (excess == 0.0 || excess == 100.0)
      && (excess == 100.0 <==> Added(l) > Added(a))
  {
    hide SumBy, TotalAssets, TotalLiabilities, Round100;
    var a, l := TotalAssets(v), TotalLiabilities(v);
    RoundedDifference(a, l);
  }

  // ---------------------------------------------------------------- which step each reports

  /** Retrieval's stand-in when computing a position failed. */
  const EMPTY_WEALTH: Position := Position(0.0, 0.0, 0.0, [], [])
  const EMPTY_INCOME: IncomePosition := IncomePosition(0.0, [], [])

  function RetrievedWealth(computed: Option<Position>): Position {
    GetOr(computed, EMPTY_WEALTH)
  }

  function RetrievedIncome(computed: Option<IncomePosition>): IncomePosition {
    GetOr(computed, EMPTY_INCOME)
  }

  function SnapshotStep(p: Position): nat {
    if |p.openGaps| > 0 then p.openGaps[0].step else 6
  }

  function SnapshotIncomeStep(p: IncomePosition): nat {
    if |p.openGaps| > 0 then p.openGaps[0].step else 5
  }

  /** The profile bridge, with the published shortfall of the step it names. */
  datatype Bridge = Bridge(step: nat, shortfall: Option<real>)

  function BridgeWealth(p: Position): Bridge {
    if p.openGaps == [] then Bridge(6, None)
    else
      var first := p.openGaps[0];
      Bridge(first.step, Some(Round100(first.gap)))
  }

  function BridgeIncomeStep(p: IncomePosition): nat {
    if p.openGaps == [] then 5 else p.openGaps[0].step
  }

  /** The vault snapshot also tells "all funded" from "nothing computed". */
  function VaultSnapshotStep(p: Position): nat {
    if p.openGaps != [] then p.openGaps[0].step else if p.ladder != [] then 6 else 0
  }

  function VaultSnapshotIncomeStep(p: IncomePosition): nat {
    if p.openGaps != [] then p.openGaps[0].step else if p.ladder != [] then 5 else 0
  }

  /** The digest's one action item: from the allocation track below step 6, else from income. */
  datatype Action = FromAllocation(step: nat) | FromIncome(step: nat)

  datatype DigestTracks = DigestTracks(step: nat, incomeStep: nat, action: Action)

  function Digested(p: Position, q: IncomePosition): DigestTracks {
    var step := if p.openGaps == [] then 6 else p.openGaps[0].step;
    var incomeStep := if q.openGaps == [] then 5 else q.openGaps[0].step;
    DigestTracks(step, incomeStep, if step < 6 then FromAllocation(step) else FromIncome(incomeStep))
  }

  /** For every computed ladder all four consumers report the same steps, the least unfunded ones. */
  lemma ConsumersAgree(v: Vault, rows: IncomeRows)
    ensures var p, q := RetrievedWealth(Some(PositionOf(v))), RetrievedIncome(Some(IncomePositionOf(rows)));
      && SnapshotStep(PositionOf(v)) == BridgeWealth(p).step == VaultSnapshotStep(p)
         == Digested(PositionOf(v), IncomePositionOf(rows)).step == AllocationStep(v)
      && SnapshotIncomeStep(IncomePositionOf(rows)) == BridgeIncomeStep(q) == VaultSnapshotIncomeStep(q)
         == Digested(PositionOf(v), IncomePositionOf(rows)).incomeStep == CurrentIncomeStep(rows)
      && LeastUnfunded(Ladder(v), RungFunded, AllocationStep(v))
      && LeastUnfunded(Steps(rows), StepFunded, CurrentIncomeStep(rows))
  {
    hide Ladder, Steps, Open, LeastUnfunded;
    AllocationStepIsLeastUnfunded(v);
    IncomeStepIsLeastUnfunded(rows);
  }

  /** The shortfall that the bridge publishes is the reported step's gap, raised to the next hundred. */
  lemma BridgeShowsTheGap(v: Vault)
    ensures var b := BridgeWealth(PositionOf(v));
      && (b.shortfall.None? <==> forall i :: 0 <= i < 6 ==> Ladder(v)[i].funded)
      && (b.shortfall.Some? ==>
            && 1 <= b.step <= 6 && !Ladder(v)[b.step - 1].funded
            && (exists k :: b.shortfall.value == Hundreds(k))
            && Ladder(v)[b.step - 1].gap <= b.shortfall.value < Ladder(v)[b.step - 1].gap + 100.0)
  {
    hide Ladder, Open, Round100;
    var k := FirstOpen(Ladder(v), RungFunded);
    if k < 6 {
      FundedExactlyWhenNoGap(v, k);
      Round100IsLeastHundred(Ladder(v)[k].gap);
    }
  }

  /** Whatever retrieval got, bridge and vault snapshot disagree iff the computation failed. */
  lemma DisagreeExactlyOnFailure(v: Option<Vault>, rows: Option<IncomeRows>)
    ensures var p := RetrievedWealth(if v.Some? then Some(PositionOf(v.value)) else None);
      BridgeWealth(p).step != VaultSnapshotStep(p) <==> v.None?
    ensures var q := RetrievedIncome(if rows.Some? then Some(IncomePositionOf(rows.value)) else None);
      BridgeIncomeStep(q) != VaultSnapshotIncomeStep(q) <==> rows.None?
  {
    hide Ladder, Steps, Open, LeastUnfunded;
    if v.Some? {
      assert |Ladder(v.value)| == 6;
    }
    if rows.Some? {
      assert |Steps(rows.value)| == 5;
    }
  }

  /**
   The action comes from the income track exactly when steps 1 to 5 are funded, so an open step 6
   is never the action item.
   */
  lemma ActionItemSkipsStepSix(v: Vault, rows: IncomeRows)
    ensures var a := Digested(PositionOf(v), IncomePositionOf(rows)).action;
      && (a.FromIncome? <==> forall i :: 0 <= i < 5 ==> Ladder(v)[i].funded)
      && (a.FromAllocation? ==> 1 <= a.step <= 5 && !Ladder(v)[a.step - 1].funded)
  {
    hide Ladder, Steps, Open;
    AllocationStepIsLeastUnfunded(v);
  }

  // ---------------------------------------------------------------- emergency months

  const SAVINGS_KINDS: set<string> := {"checking", "savings", "cash"}

  function ActiveSavings(a: Account): real {
    if a.status == "active" && a.kind in SAVINGS_KINDS then Amount(a.balance) else 0.0
  }

  method SumSavings(accounts: seq<Account>) returns (total: real)
    ensures total == SumBy(accounts, ActiveSavings)
  {
    total := 0.0;
    for i := 0 to |accounts|
      invariant total == SumBy(accounts[..i], ActiveSavings)
    {
      SumSnoc(accounts, i, ActiveSavings);
      if accounts[i].status == "active" && accounts[i].kind in SAVINGS_KINDS {
        total := total + Amount(accounts[i].balance);
      }
    }
    SumAll(accounts, ActiveSavings);
  }

  function SavingsFigures(accounts: seq<Account>): seq<real> {
    seq(|accounts|, i requires 0 <= i < |accounts| =>
      if accounts[i].status == "active" && accounts[i].kind in {"checking", "savings", "cash"}
      then Figure(accounts[i].balance) else 0.0)
  }

  /** The snapshot's savings are the active accounts' balances of exactly these three types. */
  lemma SavingsExactly(accounts: seq<Account>)
    ensures SumBy(accounts, ActiveSavings) == Total(SavingsFigures(accounts))
  {
    hide SumBy, Total;
    SumIsTotal(accounts, ActiveSavings, SavingsFigures(accounts));
  }

  function EmergencyMonths(v: Vault): real {
    Round2(SumBy(v.accounts, ActiveSavings) / MonthlyExpenses(v.expenses))
  }

  predicate LowFundFlag(v: Vault) {
    EmergencyMonths(v) < 3.0
  }

  predicate NoNegativeCash(v: Vault) {
    forall i :: 0 <= i < |v.accounts| ==> 0.0 <= Cash(v.accounts[i])
  }

  /** Every account that the ladder counts as cash, the snapshot counts too. */
  predicate CashIsActiveSavings(v: Vault) {
    forall i :: 0 <= i < |v.accounts| && CashLike(v.accounts[i].kind) ==>
      v.accounts[i].status == "active" && v.accounts[i].kind in SAVINGS_KINDS
  }

  lemma LowerKeeps(s: string)
    requires forall i :: 0 <= i < |s| ==> !('A' <= s[i] <= 'Z')
    ensures Lower(s) == s
  {
  }

  lemma SavingsAreCashLike(kind: string)
    requires kind in SAVINGS_KINDS
    ensures CashLike(kind)
  {
    LowerKeeps(kind);
  }

  lemma SavingsWithinCash(v: Vault)
    ensures NoNegativeCash(v) ==> SumBy(v.accounts, ActiveSavings) <= SumBy(v.accounts, Cash)
    ensures CashIsActiveSavings(v) ==> SumBy(v.accounts, ActiveSavings) == SumBy(v.accounts, Cash)
  {
    hide SumBy, CashLike;
    forall i | 0 <= i < |v.accounts| && v.accounts[i].kind in SAVINGS_KINDS
      ensures CashLike(v.accounts[i].kind)
    {
      SavingsAreCashLike(v.accounts[i].kind);
    }
    if NoNegativeCash(v) {
      SumAtMost(v.accounts, ActiveSavings, Cash);
    }
    if CashIsActiveSavings(v) {
      SumAtMost(v.accounts, ActiveSavings, Cash);
      SumAtMost(v.accounts, Cash, ActiveSavings);
    }
  }

  lemma QuotientAgainst(x: real, d: real, k: real)
    requires d > 0.0
    ensures x / d < k <==> x < k * d
    ensures x / d <= k <==> x <= k * d
  {
    var q := x / d;
    assert x == q * d;
    assert k * d - x == (k - q) * d;
    assert k - q > 0.0 ==> (k - q) * d > 0.0;
    assert k - q < 0.0 ==> (k - q) * d < 0.0;
  }

  lemma Round2Against3(q: real)
    ensures Round2(q) < 3.0 <==> q < 2.995
    ensures q <= 3.0 ==> Round2(q) <= 3.0
    ensures q >= 3.0 ==> Round2(q) >= 3.0
    ensures Round2(q) > 3.0 <==> q >= 3.005
  {
    var n := HalfUp(q * 100.0);
    assert n < 300 <==> q * 100.0 < 299.5;
    assert n > 300 <==> q * 100.0 >= 300.5;
  }

  /** The low-fund flag is raised iff the snapshot's savings cover less than 2.995 months. */
  lemma FlagExactly(v: Vault)
    ensures LowFundFlag(v) <==> SumBy(v.accounts, ActiveSavings) < 2.995 * MonthlyExpenses(v.expenses)
  {
    hide SumBy, MonthlyExpenses, Round2;
    var s, e := SumBy(v.accounts, ActiveSavings), MonthlyExpenses(v.expenses);
    Round2Against3(s / e);
    QuotientAgainst(s, e, 2.995);
  }

  /** With no condition: an unfunded step 1 reads as over 3.00 months iff cash is short and savings are not. */
  lemma UnfundedReadsOverThreeExactly(v: Vault)
    ensures var e := MonthlyExpenses(v.expenses);
      !Ladder(v)[0].funded && EmergencyMonths(v) > 3.0 <==>
      SumBy(v.accounts, Cash) < 3.0 * e && SumBy(v.accounts, ActiveSavings) >= 3.005 * e
  {
    hide SumBy, MonthlyExpenses, Round2;
    var s, e := SumBy(v.accounts, ActiveSavings), MonthlyExpenses(v.expenses);
    QuotientAgainst(s, e, 3.005);
    Round2Against3(s / e);
  }

  /** With non-negative cash, an unfunded step 1 reads as at most 3.00 months in the snapshot. */
  lemma UnfundedReadsAtMostThree(v: Vault)
    requires NoNegativeCash(v) && !Ladder(v)[0].funded
    ensures EmergencyMonths(v) <= 3.0
  {
    hide SumBy, MonthlyExpenses, Round2;
    var s, e := SumBy(v.accounts, ActiveSavings), MonthlyExpenses(v.expenses);
    SavingsWithinCash(v);
    QuotientAgainst(s, e, 3.0);
    Round2Against3(s / e);
  }

  /**
   When all cash-like accounts are active checking, savings or cash, a funded step 1 reads as at
   least 3.00 months and keeps the flag silent; flag and ladder part ways exactly in the half cent
   of a month below three.
   */
  lemma FlagAgainstLadder(v: Vault)
    requires CashIsActiveSavings(v)
    ensures Ladder(v)[0].funded ==> EmergencyMonths(v) >= 3.0 && !LowFundFlag(v)
    ensures !Ladder(v)[0].funded && !LowFundFlag(v) <==>
            2.995 * MonthlyExpenses(v.expenses) <= SumBy(v.accounts, Cash) < 3.0 * MonthlyExpenses(v.expenses)
  {
    hide SumBy, MonthlyExpenses, Round2;
    var s, e := SumBy(v.accounts, ActiveSavings), MonthlyExpenses(v.expenses);
    SavingsWithinCash(v);
    QuotientAgainst(s, e, 3.0);
    Round2Against3(s / e);
    FlagExactly(v);
  }

  /** With no condition: step 1 is funded while the flag is raised iff cash suffices and savings do not. */
  lemma FundedButFlaggedExactly(v: Vault)
    ensures var e := MonthlyExpenses(v.expenses);
      Ladder(v)[0].funded && LowFundFlag(v) <==>
      SumBy(v.accounts, Cash) >= 3.0 * e && SumBy(v.accounts, ActiveSavings) < 2.995 * e
  {
    hide SumBy, MonthlyExpenses, Round2;
    FlagExactly(v);
  }

  function OneAccount(kind: string, status: string, balance: real): Vault {
    Vault([Account(kind, status, Some(balance))], [], [], [], [], [], [])
  }

  /** A concrete vault of that kind: a high-yield account alone. */
  lemma FlagCanContradictLadder()
    ensures var v := OneAccount("hysa", "active", 9000.0);
      NoNegativeCash(v) && Ladder(v)[0].funded && LowFundFlag(v)
  {
    var v := OneAccount("hysa", "active", 9000.0);
    LowerKeeps("hysa");
    assert v.accounts[..0] == [];
    assert SumBy(v.accounts, Cash) == 9000.0 && SumBy(v.accounts, ActiveSavings) == 0.0;
    FlagExactly(v);
  }
}
