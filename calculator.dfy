/**
 * calculateRetirement: read the form, validate it, project the plan year by year,
 * and when the plan runs out of money search for a sustainable retirement age.
 * Every error thrown on the way is caught and shown as an alert; here it is the
 * Failure of the result.
 */
module Calculator {
  import opened JsMath
  import opened Validation
  import opened Projection
  import opened RecommendedAge

  /** What the summary and the scenario table show for the run-out age (`runOutOfMoneyAge || "Never"`). */
  datatype RunOutLabel = Never | AtAge(age: int)

  /** `runOutOfMoneyAge || "Never"`: null and the falsy age 0 both read "Never". */
  function Label(runOutOfMoneyAge: Option<int>): (r: RunOutLabel)
    ensures r == Never <==> runOutOfMoneyAge.None? || runOutOfMoneyAge == Some(0)
    ensures r.AtAge? ==> runOutOfMoneyAge == Some(r.age)
  {
    match runOutOfMoneyAge
    case None => Never
    case Some(a) => if a == 0 then Never else AtAge(a)
  }

  /** The numbers updateSummary shows, the rows renderCharts receives, and the recalculate button, if any. */
  datatype Summary = Summary(
    inputs: Plan,
    schedule: seq<YearRecord>,
    isSelfSustaining: bool,
    runOutOfMoneyAge: RunOutLabel,
    recommendedAge: int,
    totalAmountNeeded: real,
    afterRetIncome: real,
    recalculateOffer: Option<int>)

  /** The summary of a calculation that went through for plan `p`. */
  predicate Reports(p: Plan, s: Summary)
    requires AgesOrdered(p)
  {
    && s.inputs == p
    && s.schedule == Schedule(p)
    && (s.isSelfSustaining <==> RunOut(p).None?)
    && s.runOutOfMoneyAge == Label(RunOut(p))
    && s.totalAmountNeeded == NeededBefore(p, p.lifeExpectancy + 1)
    && s.afterRetIncome == p.afterRetIncome
    && (s.isSelfSustaining ==> s.recommendedAge == p.retirementAge && s.recalculateOffer.None?)
    && (!s.isSelfSustaining ==> IsLeastSustainable(p, s.recommendedAge) && s.recalculateOffer == Some(s.recommendedAge))
  }

  /**
   * One click on "Calculate". Invalid entries fail with every problem joined by
   * newlines; an accepted plan fails only when it runs out of money and no
   * candidate age is sustainable; otherwise the summary reports it.
   */
  method CalculateRetirement(f: FormEntries) returns (r: Result<Summary, string>)
    ensures Problems(GetInputs(f)) != [] ==> r == Failure(Join(Problems(GetInputs(f)), "\n"))
    ensures Problems(GetInputs(f)) == [] ==>
      && NoNaN(GetInputs(f))
      && AgesOrdered(ToPlan(GetInputs(f)))
      && (r.Failure? <==> RunOut(ToPlan(GetInputs(f))).Some? && NoneSustainable(ToPlan(GetInputs(f))))
      && (r.Failure? ==> r.error == NoSustainableAgeMessage)
      && (r.Success? ==> Reports(ToPlan(GetInputs(f)), r.value))
  {
    var inputs := GetInputs(f);
    var validated := ValidateInputs(inputs);
    if validated.Failure? {
      return Failure(validated.error);
    }
    var p := validated.value;
    ProblemsEmptyIffAccepted(inputs);
    AcceptedPlan(inputs);
    var data, runOutOfMoneyAge, isSelfSustaining, totalAmountNeeded := ProjectPlan(p);
    TotalNeededIsRetiredWithdrawals(p, p.lifeExpectancy + 1);
    var recommendedAge := p.retirementAge;
    var recalculateOffer := None;
    if !isSelfSustaining {
      var found := FindRecommendedRetirementAge(p);
      if found.Failure? {
        return Failure(found.error);
      }
      recommendedAge := found.value;
      recalculateOffer := Some(recommendedAge);
    }
    r := Success(Summary(p, data, isSelfSustaining, Label(runOutOfMoneyAge), recommendedAge,
      totalAmountNeeded, p.afterRetIncome, recalculateOffer));
  }

  /**
   * recalculateWithRecommendedAge writes the recommended age into the retirement
   * age field and calculates again; the new plan differs from the old one only in
   * its retirement age.
   */
  function WithRetirementAge(f: FormEntries, age: int): (g: FormEntries)
    ensures GetInputs(g) == GetInputs(f).(retirementAge := Num(age))
  {
    f.(retirementAge := Num(age))
  }

  /**
   * An accepted plan runs out of money, if at all, at an age of at least 18, so
   * the `|| "Never"` fallback only ever replaces null.
   */
  lemma RunOutLabelOfAcceptedPlan(raw: RawInputs)
    requires Accepted(raw)
    ensures NoNaN(raw) && AgesOrdered(ToPlan(raw))
    ensures Label(RunOut(ToPlan(raw))) == match RunOut(ToPlan(raw))
      case None => Never
      case Some(a) => AtAge(a)
  {
    AcceptedPlan(raw);
    var p := ToPlan(raw);
    RunOutIsFirst(p, p.lifeExpectancy + 1);
  }

  /**
   * Entries (age 18, retiring at 19, living to 20, nothing saved yet, all of an
   * income of 100 saved, a desired income of 100, no returns and no inflation)
   * for which the search can only recommend lifeExpectancy itself.
   */
  predicate EntriesRecommendingLifeExpectancy(f: FormEntries) {
    && f.desiredIncome == Num(100.0) && f.afterRetIncome == Num(0.0)
    && f.preRetReturnPercent == Num(0.0) && f.postRetReturnPercent == Num(0.0)
    && f.currentAge == Num(18) && f.retirementAge == Num(19) && f.currentBalance == Num(0.0)
    && f.wageInflationPercent == Num(0.0) && f.costInflationPercent == Num(0.0)
    && f.currentIncome == Num(100.0) && f.annualSavingsPercent == Num(100.0)
    && f.lifeExpectancy == Num(20)
  }

  /** The plan such entries yield (the savings rate 100% becomes the fraction 1). */
  predicate PlanRecommendingLifeExpectancy(p: Plan) {
    && p.desiredIncome == 100.0 && p.afterRetIncome == 0.0
    && p.preRetReturn == 0.0 && p.postRetReturn == 0.0
    && p.currentAge == 18 && p.retirementAge == 19 && p.currentBalance == 0.0
    && p.wageInflation == 0.0 && p.costInflation == 0.0
    && p.currentIncome == 100.0 && p.annualSavingsRate == 1.0
    && p.lifeExpectancy == 20
  }

  lemma LifeExpectancyEntriesAccepted(f: FormEntries)
    requires EntriesRecommendingLifeExpectancy(f)
    ensures Problems(GetInputs(f)) == []
    ensures NoNaN(GetInputs(f)) && PlanRecommendingLifeExpectancy(ToPlan(GetInputs(f)))
  {
    var raw := GetInputs(f);
    LifeExpectancyInputsAccepted(raw);
  }

  /** The example entries after getInputs: the percent entries 0 and 100 have become 0 and 1. */
  lemma LifeExpectancyInputsAccepted(raw: RawInputs)
    requires && raw.desiredIncome == Num(100.0) && raw.afterRetIncome == 0.0
      && raw.preRetReturn == Num(0.0) && raw.postRetReturn == Num(0.0)
      && raw.currentAge == Num(18) && raw.retirementAge == Num(19) && raw.currentBalance == Num(0.0)
      && raw.wageInflation == Num(0.0) && raw.costInflation == Num(0.0)
      && raw.currentIncome == Num(100.0) && raw.annualSavingsRate == Num(1.0)
      && raw.lifeExpectancy == Num(20)
    ensures Problems(raw) == [] && NoNaN(raw) && PlanRecommendingLifeExpectancy(ToPlan(raw))
  {
    forall k: Key ensures FieldOk(raw, k) {
    }
    ProblemsEmptyIffAccepted(raw);
  }

  /** The projection saves 100 at 18 and withdraws 100 at 19 and at 20, ending at -100. */
  lemma LifeExpectancyPlanRunsOut(p: Plan)
    requires PlanRecommendingLifeExpectancy(p)
    ensures AgesOrdered(p) && RunOut(p) == Some(20)
  {
    LifeExpectancyPlanFlows(p);
    RunOutAt20FromFlows(p);
  }

  // The projection of such a plan is split so that each Math.ceil is evaluated in a small context.

  lemma LifeExpectancyPlanFlows(p: Plan)
    requires PlanRecommendingLifeExpectancy(p)
    ensures AnnualSavings(p, 18) == 100.0 && AnnualWithdrawal(p, 18) == 0.0
    ensures AnnualWithdrawal(p, 19) == 100.0 && AnnualWithdrawal(p, 20) == 100.0
    ensures Earnings(p, 18, 0.0) == 0.0 && Earnings(p, 19, 100.0) == 0.0 && Earnings(p, 20, 0.0) == 0.0
  {
    LifeExpectancyPlanSavings(p);
    LifeExpectancyPlanWithdrawal(p, 19);
    LifeExpectancyPlanWithdrawal(p, 20);
    LifeExpectancyPlanNoEarnings(p, 18, 0.0);
    LifeExpectancyPlanNoEarnings(p, 19, 100.0);
    LifeExpectancyPlanNoEarnings(p, 20, 0.0);
  }

  lemma LifeExpectancyPlanSavings(p: Plan)
    requires PlanRecommendingLifeExpectancy(p)
    ensures AnnualSavings(p, 18) == 100.0
  {
    assert Pow(1.0, 0) == 1.0;
    CeilOfInteger(100.0);
  }

  lemma LifeExpectancyPlanWithdrawal(p: Plan, age: int)
    requires PlanRecommendingLifeExpectancy(p) && 19 <= age <= 20
    ensures AnnualWithdrawal(p, age) == 100.0
  {
    assert Pow(1.0, 0) == 1.0 && Pow(1.0, 1) == 1.0;
    CeilOfInteger(100.0);
  }

  lemma LifeExpectancyPlanNoEarnings(p: Plan, age: int, balance: real)
    requires PlanRecommendingLifeExpectancy(p)
    ensures Earnings(p, age, balance) == 0.0
  {
    CeilOfInteger(0.0);
  }

  /** The three ending balances 100, 0 and -100 from the yearly amounts alone. */
  lemma RunOutAt20FromFlows(p: Plan)
    requires p.currentAge == 18 && p.retirementAge == 19 && p.lifeExpectancy == 20 && p.currentBalance == 0.0
    requires AnnualSavings(p, 18) == 100.0 && AnnualWithdrawal(p, 18) == 0.0
    requires AnnualWithdrawal(p, 19) == 100.0 && AnnualWithdrawal(p, 20) == 100.0
    requires Earnings(p, 18, 0.0) == 0.0 && Earnings(p, 19, 100.0) == 0.0 && Earnings(p, 20, 0.0) == 0.0
    ensures RunOut(p) == Some(20)
  {
    YearEnd(p, 18, 0.0, 0.0, 100.0, 0.0, 100.0);
    YearEnd(p, 19, 100.0, 0.0, 0.0, 100.0, 0.0);
    YearEnd(p, 20, 0.0, 0.0, 0.0, 100.0, -100.0);
    assert !Overdrawn(p, 18) && !Overdrawn(p, 19) && Overdrawn(p, 20);
    assert RunOutBefore(p, 18) == None;
    assert RunOutBefore(p, 19) == None;
    assert RunOutBefore(p, 20) == None;
  }

  /** Retiring at 19 leaves -100 at 20; retiring at 20 never goes below 0. */
  lemma LifeExpectancyPlanSearch(p: Plan)
    requires PlanRecommendingLifeExpectancy(p)
    ensures AgesOrdered(p) && IsLeastSustainable(p, 20)
  {
    assert Pow(1.0, 0) == 1.0 && Pow(1.0, 1) == 1.0 && Pow(1.0, 2) == 1.0;
    assert CandidateBalance(p, 19, 0.0, 18) == 100.0;
    assert CandidateBalance(p, 19, 0.0, 19) == 0.0;
    assert GoesNegative(p, 19, 0.0, 20);
    assert CandidateBalance(p, 20, 0.0, 18) == 100.0;
    assert CandidateBalance(p, 20, 0.0, 19) == 200.0;
    assert CandidateBalance(p, 20, 0.0, 20) == 100.0;
  }

  /** Entering the recommended 20 as the retirement age breaks only the life-expectancy order. */
  lemma LifeExpectancyRecalculationRejected(f: FormEntries)
    requires EntriesRecommendingLifeExpectancy(f)
    ensures Problems(GetInputs(WithRetirementAge(f, 20))) == [LifeOrderMessage]
  {
    var raw := GetInputs(WithRetirementAge(f, 20));
    forall k: Key ensures FieldOk(raw, k) {
    }
    FieldProblemsEmptyIff(raw, Keys);
    forall i | 0 <= i < |Keys| ensures FieldOk(raw, Keys[i]) {
    }
  }

  /**
   * The recommended age can equal lifeExpectancy: such entries are accepted, the
   * plan runs out at 20 and the least sustainable candidate is 20, so the summary
   * offers a recalculation with 20, and the recalculated entries are rejected.
   */
  lemma RecommendationAtLifeExpectancy(f: FormEntries)
    requires EntriesRecommendingLifeExpectancy(f)
    ensures Problems(GetInputs(f)) == []
    ensures NoNaN(GetInputs(f)) && AgesOrdered(ToPlan(GetInputs(f)))
    ensures RunOut(ToPlan(GetInputs(f))) == Some(20)
    ensures IsLeastSustainable(ToPlan(GetInputs(f)), ToPlan(GetInputs(f)).lifeExpectancy)
    ensures Problems(GetInputs(WithRetirementAge(f, 20))) == [LifeOrderMessage]
  {
    LifeExpectancyEntriesAccepted(f);
    LifeExpectancyPlanRunsOut(ToPlan(GetInputs(f)));
    LifeExpectancyPlanSearch(ToPlan(GetInputs(f)));
    LifeExpectancyRecalculationRejected(f);
  }
}
