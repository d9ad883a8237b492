/**
 * The scenario comparison ledger: saveScenario validates the form, runs its own
 * simplified simulation (no savings, unrounded balances, the afterRetIncome offset
 * clamped before inflation) and appends one scenario; deleteScenario removes every
 * scenario with the clicked id.
 */
module Scenarios {
  import opened JsMath
  import opened Validation
  import opened RecommendedAge
  import opened Calculator

  /** One saved scenario; `id` is the Date.now() of the click that saved it. */
  datatype Scenario = Scenario(
    id: int,
    retirementAge: int,
    afterRetIncome: real,
    desiredIncome: real,
    runOutOfMoneyAge: RunOutLabel,
    totalNeeded: real)

  /** The withdrawal of year `age`: the initial withdrawal less afterRetIncome, floored at 0, then inflated. */
  function ScenarioWithdrawal(p: Plan, initialWithdrawal: real, age: int): real {
    if age >= p.retirementAge then
      Compound(Max(0.0, initialWithdrawal - p.afterRetIncome), p.costInflation, age - p.retirementAge)
    else 0.0
  }

  /** The unrounded balance at the end of year `age`: the return is added, the withdrawal taken, nothing saved. */
  function ScenarioBalance(p: Plan, age: int): real
    requires p.currentAge <= p.retirementAge && p.currentAge <= age
    decreases age - p.currentAge
  {
    var before := ScenarioBalanceBefore(p, age);
    before + CandidateEarnings(p, p.retirementAge, age, before)
      - ScenarioWithdrawal(p, CandidateInitialWithdrawal(p, p.retirementAge), age)
  }

  function ScenarioBalanceBefore(p: Plan, age: int): real
    requires p.currentAge <= p.retirementAge && p.currentAge <= age
    decreases age - p.currentAge, 0
  {
    if age == p.currentAge then p.currentBalance else ScenarioBalance(p, age - 1)
  }

  predicate ScenarioShort(p: Plan, age: int)
    requires p.currentAge <= p.retirementAge && p.currentAge <= age
  {
    ScenarioBalance(p, age) < 0.0
  }

  /** The first age in currentAge .. hi - 1 whose scenario balance is negative, if any. */
  function ScenarioRunOutBefore(p: Plan, hi: int): Option<int>
    requires p.currentAge <= p.retirementAge
    decreases hi - p.currentAge
  {
    if hi <= p.currentAge then None
    else if ScenarioRunOutBefore(p, hi - 1).Some? then ScenarioRunOutBefore(p, hi - 1)
    else if ScenarioShort(p, hi - 1) then Some(hi - 1)
    else None
  }

  /** The rounded-up withdrawals of the retired ages currentAge .. hi - 1. */
  function ScenarioNeededBefore(p: Plan, hi: int): real
    requires p.currentAge <= p.retirementAge
    decreases hi - p.currentAge
  {
    if hi <= p.currentAge then 0.0
    else
      ScenarioNeededBefore(p, hi - 1)
        + (if hi - 1 >= p.retirementAge
           then Ceil(ScenarioWithdrawal(p, CandidateInitialWithdrawal(p, p.retirementAge), hi - 1))
           else 0.0)
  }

  /** The scenario saveScenario pushes for plan `p` at time `now`. */
  function ScenarioOf(p: Plan, now: int): (s: Scenario)
    requires p.currentAge <= p.retirementAge
  {
    Scenario(now, p.retirementAge, p.afterRetIncome, p.desiredIncome,
      Label(ScenarioRunOutBefore(p, p.lifeExpectancy + 1)), ScenarioNeededBefore(p, p.lifeExpectancy + 1))
  }

  /** The loop of saveScenario: the first negative year and the total of the rounded-up retired withdrawals. */
  method ScenarioOutcome(p: Plan) returns (runOutOfMoneyAge: Option<int>, totalAmountNeeded: real)
    requires p.currentAge <= p.retirementAge
    ensures runOutOfMoneyAge == ScenarioRunOutBefore(p, p.lifeExpectancy + 1)
    ensures totalAmountNeeded == ScenarioNeededBefore(p, p.lifeExpectancy + 1)
  {
    var balance := p.currentBalance;
    runOutOfMoneyAge := None;
    totalAmountNeeded := 0.0;
    var initialWithdrawal := CandidateInitialWithdrawal(p, p.retirementAge);
    var age := p.currentAge;
    while age <= p.lifeExpectancy
      invariant p.currentAge <= age
      invariant age <= p.lifeExpectancy + 1 || age == p.currentAge
      invariant balance == ScenarioBalanceBefore(p, age)
      invariant runOutOfMoneyAge == ScenarioRunOutBefore(p, age)
      invariant totalAmountNeeded == ScenarioNeededBefore(p, age)
      decreases p.lifeExpectancy - age
    {
      var isRetired := age >= p.retirementAge;
      var annualWithdrawal := ScenarioWithdrawal(p, initialWithdrawal, age);
      balance := balance + CandidateEarnings(p, p.retirementAge, age, balance) - annualWithdrawal;
      if isRetired {
        totalAmountNeeded := totalAmountNeeded + Ceil(annualWithdrawal);
      }
      if balance < 0.0 && runOutOfMoneyAge.None? {
        runOutOfMoneyAge := Some(age);
      }
      age := age + 1;
    }
  }

  /** The scenario run-out age is the least age whose balance is negative; it is absent iff there is none. */
  lemma {:induction false} ScenarioRunOutIsFirst(p: Plan, hi: int)
    requires p.currentAge <= p.retirementAge
    ensures ScenarioRunOutBefore(p, hi).None? <==>
      forall a :: p.currentAge <= a < hi ==> !ScenarioShort(p, a)
    ensures ScenarioRunOutBefore(p, hi).Some? ==>
      var a := ScenarioRunOutBefore(p, hi).value;
      && p.currentAge <= a < hi
      && ScenarioShort(p, a)
      && forall b :: p.currentAge <= b < a ==> !ScenarioShort(p, b)
    decreases hi - p.currentAge
  {
    if hi > p.currentAge {
      ScenarioRunOutIsFirst(p, hi - 1);
    }
  }

  /** With cost inflation of at least -100% no withdrawal is negative, so the total needed is not negative. */
  lemma {:induction false} ScenarioNeededNonNegative(p: Plan, hi: int)
    requires p.currentAge <= p.retirementAge
    requires p.costInflation >= -1.0
    ensures ScenarioNeededBefore(p, hi) >= 0.0
    decreases hi - p.currentAge
  {
    if hi > p.currentAge {
      ScenarioNeededNonNegative(p, hi - 1);
      var age := hi - 1;
      if age >= p.retirementAge {
        var base := Max(0.0, CandidateInitialWithdrawal(p, p.retirementAge) - p.afterRetIncome);
        PowNonNegative(1.0 + p.costInflation, age - p.retirementAge);
        MulNonNegative(base, Pow(1.0 + p.costInflation, age - p.retirementAge));
        CeilMonotone(0.0, ScenarioWithdrawal(p, CandidateInitialWithdrawal(p, p.retirementAge), age));
        CeilOfInteger(0.0);
      }
    }
  }

  /** `savedScenarios.filter(s => s.id !== id)`. */
  function RemoveId(xs: seq<Scenario>, id: int): seq<Scenario> {
    if xs == [] then []
    else
      var last := xs[|xs| - 1];
      RemoveId(xs[..|xs| - 1], id) + (if last.id == id then [] else [last])
  }

  /** Exactly the scenarios with another id survive a delete. */
  lemma {:induction false} RemoveIdMembers(xs: seq<Scenario>, id: int)
    ensures forall s :: s in RemoveId(xs, id) <==> s in xs && s.id != id
  {
    if xs != [] {
      RemoveIdMembers(xs[..|xs| - 1], id);
      assert xs == xs[..|xs| - 1] + [xs[|xs| - 1]];
    }
  }

  /** Filtering distributes over concatenation, so the survivors keep their order. */
  lemma {:induction false} RemoveIdAppend(xs: seq<Scenario>, ys: seq<Scenario>, id: int)
    ensures RemoveId(xs + ys, id) == RemoveId(xs, id) + RemoveId(ys, id)
    decreases |ys|
  {
    if ys != [] {
      RemoveIdAppend(xs, ys[..|ys| - 1], id);
      assert (xs + ys)[..|xs + ys| - 1] == xs + ys[..|ys| - 1];
      assert (xs + ys)[|xs + ys| - 1] == ys[|ys| - 1];
    } else {
      assert xs + ys == xs;
    }
  }

  /** Deleting an id no scenario carries changes nothing. */
  lemma {:induction false} RemoveIdAbsent(xs: seq<Scenario>, id: int)
    requires forall i :: 0 <= i < |xs| ==> xs[i].id != id
    ensures RemoveId(xs, id) == xs
  {
    if xs != [] {
      RemoveIdAbsent(xs[..|xs| - 1], id);
    }
  }

  /** Deleting twice is deleting once. */
  lemma RemoveIdIdempotent(xs: seq<Scenario>, id: int)
    ensures RemoveId(RemoveId(xs, id), id) == RemoveId(xs, id)
  {
    var ys := RemoveId(xs, id);
    RemoveIdMembers(xs, id);
    forall i | 0 <= i < |ys|
      ensures ys[i].id != id
    {
      assert ys[i] in ys;
    }
    RemoveIdAbsent(ys, id);
  }

  /** The list of saved scenarios behind the comparison table. */
  class ScenarioLedger {
    var savedScenarios: seq<Scenario>

    constructor()
      ensures savedScenarios == []
    {
      savedScenarios := [];
    }

    /**
     * One click on "Save Scenario" at time `now`. Entries that fail validation
     * raise the alert and leave the list alone; otherwise one scenario is appended.
     */
    method SaveScenario(f: FormEntries, now: int) returns (alert: Option<string>)
      modifies this
      ensures Problems(GetInputs(f)) != [] ==>
        alert == Some(Join(Problems(GetInputs(f)), "\n")) && savedScenarios == old(savedScenarios)
      ensures Problems(GetInputs(f)) == [] ==>
        && alert.None?
        && NoNaN(GetInputs(f))
        && AgesOrdered(ToPlan(GetInputs(f)))
        && savedScenarios == old(savedScenarios) + [ScenarioOf(ToPlan(GetInputs(f)), now)]
    {
      var inputs := GetInputs(f);
      var validated := ValidateInputs(inputs);
      if validated.Failure? {
        return Some(validated.error);
      }
      var p := validated.value;
      ProblemsEmptyIffAccepted(inputs);
      AcceptedPlan(inputs);
      var runOutOfMoneyAge, totalAmountNeeded := ScenarioOutcome(p);
      var scenario := Scenario(now, p.retirementAge, p.afterRetIncome, p.desiredIncome,
        Label(runOutOfMoneyAge), totalAmountNeeded);
      savedScenarios := savedScenarios + [scenario];
      alert := None;
    }

    /** A click on the delete button of scenario `id`: every scenario with that id goes. */
    method DeleteScenario(id: int)
      modifies this
      ensures savedScenarios == RemoveId(old(savedScenarios), id)
    {
      savedScenarios := RemoveId(savedScenarios, id);
    }
  }

  /**
   * Saving with a fresh id and then deleting that id restores the list: the
   * delete removes the new scenario and nothing else.
   */
  lemma SaveThenDelete(xs: seq<Scenario>, s: Scenario)
    requires forall i :: 0 <= i < |xs| ==> xs[i].id != s.id
    ensures RemoveId(xs + [s], s.id) == xs
  {
    RemoveIdAppend(xs, [s], s.id);
    RemoveIdAbsent(xs, s.id);
    assert RemoveId([s], s.id) == RemoveId([], s.id) + [];
  }
}
