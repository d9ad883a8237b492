/**
 * The year-by-year projection of calculateRetirement: one record per age from
 * currentAge to lifeExpectancy, every monetary amount rounded up, the first age
 * at which the balance goes negative, and the total withdrawn in retirement.
 *
 * The functions below are the specification, one year at a time; the method
 * ProjectPlan is the loop itself, proved to produce exactly what they describe.
 */
module Projection {
  import opened JsMath
  import opened Validation

  /** One row of the data array (and of the amortization table). */
  datatype YearRecord = YearRecord(
    age: int,
    yearlyIncome: real,
    beginningBalance: real,
    earnings: real,
    annualSavings: real,
    annualWithdrawal: real,
    endingBalance: real,
    withdrawalRate: JsNum<real>)

  /** What the Math.pow exponents need: no age difference is negative. */
  predicate Startable(p: Plan) {
    p.currentAge <= p.retirementAge
  }

  predicate IsRetired(p: Plan, age: int) {
    age >= p.retirementAge
  }

  /** The desired income inflated to the retirement date, rounded up. */
  function InitialWithdrawal(p: Plan): real
    requires Startable(p)
  {
    Ceil(Compound(p.desiredIncome, p.costInflation, p.retirementAge - p.currentAge))
  }

  /** The nominal wage at `age`, rounded up. */
  function YearlyIncome(p: Plan, age: int): real
    requires p.currentAge <= age
  {
    Ceil(Compound(p.currentIncome, p.wageInflation, age - p.currentAge))
  }

  /** The savings of a working year, rounded up; nothing once retired. */
  function AnnualSavings(p: Plan, age: int): real
    requires p.currentAge <= age
  {
    if IsRetired(p, age) then 0.0 else Ceil(YearlyIncome(p, age) * p.annualSavingsRate)
  }

  /** The return on the beginning-of-year balance, rounded up. */
  function Earnings(p: Plan, age: int, balance: real): real {
    Ceil(balance * (if IsRetired(p, age) then p.postRetReturn else p.preRetReturn))
  }

  /** The withdrawal of a retired year: the need net of afterRetIncome, inflated, rounded up, at least 0. */
  function AnnualWithdrawal(p: Plan, age: int): real
    requires Startable(p)
  {
    if IsRetired(p, age)
    then Max(0.0, Ceil(Compound(InitialWithdrawal(p) - p.afterRetIncome, p.costInflation, age - p.retirementAge)))
    else 0.0
  }

  /** The balance at the end of year `age`, given the balance at its beginning, rounded up. */
  function NextBalance(p: Plan, age: int, balance: real): real
    requires Startable(p) && p.currentAge <= age
  {
    Ceil(balance + Earnings(p, age, balance) + AnnualSavings(p, age) - AnnualWithdrawal(p, age))
  }

  /** The (unfloored) balance at the end of year `age`. */
  function BalanceAfter(p: Plan, age: int): real
    requires Startable(p) && p.currentAge <= age
    decreases age - p.currentAge
  {
    NextBalance(p, age, if age == p.currentAge then p.currentBalance else BalanceAfter(p, age - 1))
  }

  /** The balance at the beginning of year `age`: currentBalance, then the previous year's end. */
  function BalanceBefore(p: Plan, age: int): real
    requires Startable(p) && p.currentAge <= age
  {
    if age == p.currentAge then p.currentBalance else BalanceAfter(p, age - 1)
  }

  /**
   * The stored withdrawal rate: 0 unless the year ends positive; otherwise
   * withdrawal / beginning * 100, reset to 0 above 100. With a beginning balance
   * of 0, JavaScript gives NaN for 0/0 and +Infinity (> 100, so 0) otherwise.
   */
  function WithdrawalRate(withdrawal: real, beginning: real, ending: real): JsNum<real> {
    if ending <= 0.0 then Num(0.0)
    else if beginning == 0.0 then (if withdrawal == 0.0 then NaN else Num(0.0))
    else if withdrawal / beginning * 100.0 > 100.0 then Num(0.0)
    else Num(withdrawal / beginning * 100.0)
  }

  /** The record stored for year `age` (line for line the object pushed into data). */
  function RecordAt(p: Plan, age: int): YearRecord
    requires Startable(p) && p.currentAge <= age
  {
    var beginning := BalanceBefore(p, age);
    var ending := BalanceAfter(p, age);
    var withdrawal := AnnualWithdrawal(p, age);
    YearRecord(
      age,
      if IsRetired(p, age) && withdrawal > 0.0 then 0.0 else YearlyIncome(p, age),
      beginning,
      Earnings(p, age, beginning),
      AnnualSavings(p, age),
      withdrawal,
      Max(0.0, ending),
      WithdrawalRate(withdrawal, beginning, ending))
  }

  /** The records of the years currentAge .. hi - 1. */
  function ScheduleUpTo(p: Plan, hi: int): seq<YearRecord>
    requires Startable(p)
    decreases hi - p.currentAge
  {
    if hi <= p.currentAge then [] else ScheduleUpTo(p, hi - 1) + [RecordAt(p, hi - 1)]
  }

  /** The whole schedule: currentAge .. lifeExpectancy inclusive. */
  function Schedule(p: Plan): seq<YearRecord>
    requires Startable(p)
  {
    ScheduleUpTo(p, p.lifeExpectancy + 1)
  }

  /** The year `age` ends with a negative balance. */
  predicate Overdrawn(p: Plan, age: int)
    requires Startable(p) && p.currentAge <= age
  {
    BalanceAfter(p, age) < 0.0
  }

  /** The first age in currentAge .. hi - 1 whose ending balance is negative, if any. */
  function RunOutBefore(p: Plan, hi: int): Option<int>
    requires Startable(p)
    decreases hi - p.currentAge
  {
    if hi <= p.currentAge then None
    else if RunOutBefore(p, hi - 1).Some? then RunOutBefore(p, hi - 1)
    else if Overdrawn(p, hi - 1) then Some(hi - 1)
    else None
  }

  function RunOut(p: Plan): Option<int>
    requires Startable(p)
  {
    RunOutBefore(p, p.lifeExpectancy + 1)
  }

  /** The sum of the withdrawals of the records whose age is at least retirementAge. */
  function RetiredWithdrawals(records: seq<YearRecord>, retirementAge: int): real {
    if records == [] then 0.0
    else
      var last := records[|records| - 1];
      RetiredWithdrawals(records[..|records| - 1], retirementAge) + (if last.age >= retirementAge then last.annualWithdrawal else 0.0)
  }

  /** The withdrawals of the retired ages currentAge .. hi - 1, computed from the ages alone. */
  function NeededBefore(p: Plan, hi: int): real
    requires Startable(p)
    decreases hi - p.currentAge
  {
    if hi <= p.currentAge then 0.0
    else NeededBefore(p, hi - 1) + (if IsRetired(p, hi - 1) then AnnualWithdrawal(p, hi - 1) else 0.0)
  }

  /**
   * The loop of calculateRetirement (the table and the row classes left aside).
   * It pushes one record per age and keeps going after the money runs out.
   */
  method ProjectPlan(p: Plan)
    returns (data: seq<YearRecord>, runOutOfMoneyAge: Option<int>, isSelfSustaining: bool, totalAmountNeeded: real)
    requires Startable(p)
    ensures data == Schedule(p)
    ensures runOutOfMoneyAge == RunOut(p)
    ensures isSelfSustaining <==> runOutOfMoneyAge.None?
    ensures totalAmountNeeded == RetiredWithdrawals(data, p.retirementAge)
  {
    var balance := p.currentBalance;
    runOutOfMoneyAge := None;
    isSelfSustaining := true;
    totalAmountNeeded := 0.0;
    data := [];
    var age := p.currentAge;
    while age <= p.lifeExpectancy
      invariant p.currentAge <= age
      invariant age <= p.lifeExpectancy + 1 || age == p.currentAge
      invariant balance == BalanceBefore(p, age)
      invariant data == ScheduleUpTo(p, age)
      invariant runOutOfMoneyAge == RunOutBefore(p, age)
      invariant isSelfSustaining <==> runOutOfMoneyAge.None?
      invariant totalAmountNeeded == RetiredWithdrawals(data, p.retirementAge)
      decreases p.lifeExpectancy - age
    {
      var isRetired := age >= p.retirementAge;
      var yearlyIncome := YearlyIncome(p, age);
      var annualSavings := AnnualSavings(p, age);
      var earnings := Earnings(p, age, balance);
      var annualWithdrawal := AnnualWithdrawal(p, age);

      var beginningBalance := balance;
      balance := Ceil(balance + earnings + annualSavings - annualWithdrawal);
      ProjectStep(p, age);

      if isRetired {
        WithdrawalWhole(p, age);
        totalAmountNeeded := totalAmountNeeded + Ceil(annualWithdrawal);
      }

      var withdrawalRate := WithdrawalRate(annualWithdrawal, beginningBalance, balance);

      if balance < 0.0 && runOutOfMoneyAge.None? {
        runOutOfMoneyAge := Some(age);
        isSelfSustaining := false;
      }

      var record := YearRecord(
        age,
        if isRetired && annualWithdrawal > 0.0 then 0.0 else yearlyIncome,
        beginningBalance,
        earnings,
        annualSavings,
        annualWithdrawal,
        Max(0.0, balance),
        withdrawalRate);
      RecordStep(p, age);
      RetiredWithdrawalsAppend(data, record, p.retirementAge);
      data := data + [record];
      age := age + 1;
    }
  }

  /** One step of the specification functions, as the loop body uses it. */
  lemma ProjectStep(p: Plan, age: int)
    requires Startable(p) && p.currentAge <= age
    ensures BalanceAfter(p, age) ==
      Ceil(BalanceBefore(p, age) + Earnings(p, age, BalanceBefore(p, age)) + AnnualSavings(p, age) - AnnualWithdrawal(p, age))
    ensures BalanceBefore(p, age + 1) == BalanceAfter(p, age)
    ensures ScheduleUpTo(p, age + 1) == ScheduleUpTo(p, age) + [RecordAt(p, age)]
    ensures RunOutBefore(p, age + 1) ==
      if RunOutBefore(p, age).Some? then RunOutBefore(p, age)
      else if BalanceAfter(p, age) < 0.0 then Some(age) else None
  {
  }

  /** The record of year `age` in terms of the year's amounts. */
  lemma RecordStep(p: Plan, age: int)
    requires Startable(p) && p.currentAge <= age
    ensures RecordAt(p, age) == YearRecord(
      age,
      if age >= p.retirementAge && AnnualWithdrawal(p, age) > 0.0 then 0.0 else YearlyIncome(p, age),
      BalanceBefore(p, age),
      Earnings(p, age, BalanceBefore(p, age)),
      AnnualSavings(p, age),
      AnnualWithdrawal(p, age),
      Max(0.0, BalanceAfter(p, age)),
      WithdrawalRate(AnnualWithdrawal(p, age), BalanceBefore(p, age), BalanceAfter(p, age)))
  {
  }

  /** A withdrawal is already whole, so rounding it up again changes nothing. */
  lemma WithdrawalWhole(p: Plan, age: int)
    requires Startable(p)
    ensures Ceil(AnnualWithdrawal(p, age)) == AnnualWithdrawal(p, age)
  {
    if IsRetired(p, age) {
      var c := Ceil(Compound(InitialWithdrawal(p) - p.afterRetIncome, p.costInflation, age - p.retirementAge));
      CeilBounds(Compound(InitialWithdrawal(p) - p.afterRetIncome, p.costInflation, age - p.retirementAge));
      CeilOfInteger(Max(0.0, c));
    } else {
      CeilOfInteger(0.0);
    }
  }

  /** Appending a record adds its withdrawal to the retired total iff it is a retired year. */
  lemma RetiredWithdrawalsAppend(records: seq<YearRecord>, r: YearRecord, retirementAge: int)
    ensures RetiredWithdrawals(records + [r], retirementAge) ==
      RetiredWithdrawals(records, retirementAge) + (if r.age >= retirementAge then r.annualWithdrawal else 0.0)
  {
    assert (records + [r])[..|records|] == records;
  }

  /** The schedule holds one record per age, ascending from currentAge with no gap. */
  lemma {:induction false} ScheduleShape(p: Plan, hi: int)
    requires Startable(p)
    ensures |ScheduleUpTo(p, hi)| == if hi <= p.currentAge then 0 else hi - p.currentAge
    ensures forall j :: 0 <= j < |ScheduleUpTo(p, hi)| ==>
      ScheduleUpTo(p, hi)[j] == RecordAt(p, p.currentAge + j) && ScheduleUpTo(p, hi)[j].age == p.currentAge + j
    decreases hi - p.currentAge
  {
    if hi > p.currentAge {
      ScheduleShape(p, hi - 1);
    }
  }

  /**
   * The whole schedule: lifeExpectancy - currentAge + 1 records, the first one
   * starting at currentBalance, and each later one starting at the previous
   * year's unfloored ending balance, of which the stored endingBalance is max(0, _).
   */
  lemma ScheduleChain(p: Plan)
    requires Startable(p) && p.currentAge <= p.lifeExpectancy
    ensures |Schedule(p)| == p.lifeExpectancy - p.currentAge + 1
    ensures Schedule(p)[0].age == p.currentAge && Schedule(p)[|Schedule(p)| - 1].age == p.lifeExpectancy
    ensures Schedule(p)[0].beginningBalance == p.currentBalance
    ensures forall j :: 1 <= j < |Schedule(p)| ==>
      Schedule(p)[j].age == Schedule(p)[j - 1].age + 1 &&
      Schedule(p)[j].beginningBalance == BalanceAfter(p, p.currentAge + j - 1) &&
      Schedule(p)[j - 1].endingBalance == Max(0.0, Schedule(p)[j].beginningBalance)
  {
    ScheduleShape(p, p.lifeExpectancy + 1);
  }

  /** Nothing is withdrawn before retirementAge, nothing saved from it on, and no withdrawal is negative. */
  lemma WithdrawalPhases(p: Plan, age: int)
    requires Startable(p) && p.currentAge <= age
    ensures age < p.retirementAge ==> RecordAt(p, age).annualWithdrawal == 0.0
    ensures age >= p.retirementAge ==> RecordAt(p, age).annualSavings == 0.0
    ensures RecordAt(p, age).annualWithdrawal >= 0.0
  {
  }

  /** Every amount except the very first beginning balance is a whole number. */
  lemma WholeAmounts(p: Plan, age: int)
    requires Startable(p) && p.currentAge <= age
    ensures IsInteger(BalanceAfter(p, age))
    ensures age > p.currentAge ==> IsInteger(RecordAt(p, age).beginningBalance)
    ensures IsInteger(RecordAt(p, age).yearlyIncome) && IsInteger(RecordAt(p, age).earnings)
    ensures IsInteger(RecordAt(p, age).annualSavings) && IsInteger(RecordAt(p, age).annualWithdrawal)
    ensures IsInteger(RecordAt(p, age).endingBalance)
  {
  }

  /**
   * Reporting clamps: the stored ending balance is never negative; the rate is 0
   * when the year does not end positive, never above 100, within [0, 100] for a
   * non-negative beginning balance, and NaN exactly for the 0/0 case of a year
   * that begins at 0 and ends positive (so the withdrawal must be 0 then); otherwise
   * a positive year reports withdrawal / beginning * 100, or 0 above 100; the
   * reported income is 0 in a retired year with a positive withdrawal.
   */
  lemma ReportingClamps(p: Plan, age: int)
    requires Startable(p) && p.currentAge <= age
    ensures RecordAt(p, age).endingBalance >= 0.0
    ensures RecordAt(p, age).endingBalance == 0.0 ==> RecordAt(p, age).withdrawalRate == Num(0.0)
    ensures RecordAt(p, age).withdrawalRate.Num? ==> RecordAt(p, age).withdrawalRate.val <= 100.0
    ensures RecordAt(p, age).beginningBalance >= 0.0 && RecordAt(p, age).withdrawalRate.Num? ==>
      RecordAt(p, age).withdrawalRate.val >= 0.0
    ensures RecordAt(p, age).withdrawalRate.NaN? <==>
      RecordAt(p, age).beginningBalance == 0.0 && RecordAt(p, age).endingBalance > 0.0
    ensures RecordAt(p, age).endingBalance > 0.0 && RecordAt(p, age).beginningBalance != 0.0 ==>
      var raw := RecordAt(p, age).annualWithdrawal / RecordAt(p, age).beginningBalance * 100.0;
      RecordAt(p, age).withdrawalRate == Num(if raw > 100.0 then 0.0 else raw)
    ensures IsRetired(p, age) && RecordAt(p, age).annualWithdrawal > 0.0 ==> RecordAt(p, age).yearlyIncome == 0.0
    ensures !(IsRetired(p, age) && RecordAt(p, age).annualWithdrawal > 0.0) ==>
      RecordAt(p, age).yearlyIncome == YearlyIncome(p, age)
  {
    var r := RecordAt(p, age);
    if r.beginningBalance == 0.0 {
      ZeroStartWithdrawsNothing(p, age);
    }
    if r.beginningBalance > 0.0 && r.endingBalance > 0.0 {
      DivNonNegative(r.annualWithdrawal, r.beginningBalance);
    }
  }

  /** A year that begins at 0 and ends positive cannot be a year with a withdrawal. */
  lemma ZeroStartWithdrawsNothing(p: Plan, age: int)
    requires Startable(p) && p.currentAge <= age
    requires BalanceBefore(p, age) == 0.0
    ensures BalanceAfter(p, age) > 0.0 ==> AnnualWithdrawal(p, age) == 0.0
  {
    var w := AnnualWithdrawal(p, age);
    CeilOfInteger(0.0);
    assert Earnings(p, age, 0.0) == 0.0;
    if IsRetired(p, age) {
      assert BalanceAfter(p, age) == Ceil(0.0 + 0.0 + 0.0 - w);
      CeilMonotone(0.0 + 0.0 + 0.0 - w, 0.0);
    }
  }

  lemma DivNonNegative(x: real, y: real)
    requires x >= 0.0 && y > 0.0
    ensures x / y * 100.0 >= 0.0
  {
  }

  /** runOutOfMoneyAge is the least age whose ending balance is negative; it is absent iff there is none. */
  lemma {:induction false} RunOutIsFirst(p: Plan, hi: int)
    requires Startable(p)
    ensures RunOutBefore(p, hi).None? <==>
      forall a :: p.currentAge <= a < hi ==> !Overdrawn(p, a)
    ensures RunOutBefore(p, hi).Some? ==>
      var a := RunOutBefore(p, hi).value;
      && p.currentAge <= a < hi
      && Overdrawn(p, a)
      && forall b :: p.currentAge <= b < a ==> !Overdrawn(p, b)
    decreases hi - p.currentAge
  {
    if hi > p.currentAge {
      RunOutIsFirst(p, hi - 1);
    }
  }

  /** totalAmountNeeded depends on the ages alone: it is the sum of the retired years' withdrawals. */
  lemma {:induction false} TotalNeededIsRetiredWithdrawals(p: Plan, hi: int)
    requires Startable(p)
    ensures RetiredWithdrawals(ScheduleUpTo(p, hi), p.retirementAge) == NeededBefore(p, hi)
    ensures NeededBefore(p, hi) >= 0.0
    decreases hi - p.currentAge
  {
    if hi > p.currentAge {
      TotalNeededIsRetiredWithdrawals(p, hi - 1);
      var s := ScheduleUpTo(p, hi);
      assert s[..|s| - 1] == ScheduleUpTo(p, hi - 1);
    }
  }

  /** Changing only the starting balance does not change the total needed. */
  lemma {:induction false} TotalNeededIgnoresBalance(p: Plan, balance: real, hi: int)
    requires Startable(p)
    ensures NeededBefore(p, hi) == NeededBefore(p.(currentBalance := balance), hi)
    decreases hi - p.currentAge
  {
    if hi > p.currentAge {
      TotalNeededIgnoresBalance(p, balance, hi - 1);
      var q := p.(currentBalance := balance);
      assert InitialWithdrawal(q) == InitialWithdrawal(p);
      assert AnnualWithdrawal(q, hi - 1) == AnnualWithdrawal(p, hi - 1);
    }
  }

  /** A year whose amounts add up to a whole number ends with exactly that balance. */
  lemma YearEnd(p: Plan, age: int, before: real, earnings: real, savings: real, withdrawal: real, after: real)
    requires Startable(p) && p.currentAge <= age
    requires BalanceBefore(p, age) == before && Earnings(p, age, before) == earnings
    requires AnnualSavings(p, age) == savings && AnnualWithdrawal(p, age) == withdrawal
    requires after == before + earnings + savings - withdrawal && IsInteger(after)
    ensures BalanceAfter(p, age) == after
  {
    CeilOfInteger(after);
  }
}
