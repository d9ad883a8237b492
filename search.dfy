/**
 * findRecommendedRetirementAge: a linear search upward from retirementAge. Each
 * candidate age is tried with an unrounded simulation that does not subtract
 * afterRetIncome and stops at the first negative balance; the first candidate
 * that never goes negative is returned, and the search fails past lifeExpectancy.
 */
module RecommendedAge {
  import opened JsMath
  import opened Validation

  const NoSustainableAgeMessage := "Unable to find a sustainable retirement age."

  /** The desired income inflated to the candidate retirement age, not rounded. */
  function CandidateInitialWithdrawal(p: Plan, candidate: int): real
    requires p.currentAge <= candidate
  {
    Compound(p.desiredIncome, p.costInflation, candidate - p.currentAge)
  }

  /** The unrounded savings of a working year under the candidate age. */
  function CandidateSavings(p: Plan, candidate: int, age: int): real
    requires p.currentAge <= age
  {
    if age >= candidate then 0.0 else Compound(p.currentIncome, p.wageInflation, age - p.currentAge) * p.annualSavingsRate
  }

  /** The unrounded return on the balance under the candidate age. */
  function CandidateEarnings(p: Plan, candidate: int, age: int, balance: real): real {
    balance * (if age >= candidate then p.postRetReturn else p.preRetReturn)
  }

  /** The unrounded withdrawal: the initial withdrawal inflated from the candidate age, with no afterRetIncome offset. */
  function CandidateWithdrawal(p: Plan, candidate: int, initialWithdrawal: real, age: int): real {
    if age >= candidate then Compound(initialWithdrawal, p.costInflation, age - candidate) else 0.0
  }

  /** The balance at the end of year `age` when the simulation starts from `start` at currentAge. */
  function CandidateBalance(p: Plan, candidate: int, start: real, age: int): real
    requires p.currentAge <= candidate && p.currentAge <= age
    decreases age - p.currentAge
  {
    var before := if age == p.currentAge then start else CandidateBalance(p, candidate, start, age - 1);
    before + CandidateEarnings(p, candidate, age, before) + CandidateSavings(p, candidate, age)
      - CandidateWithdrawal(p, candidate, CandidateInitialWithdrawal(p, candidate), age)
  }

  /** The balance at the beginning of year `age`. */
  function CandidateBalanceBefore(p: Plan, candidate: int, start: real, age: int): real
    requires p.currentAge <= candidate && p.currentAge <= age
  {
    if age == p.currentAge then start else CandidateBalance(p, candidate, start, age - 1)
  }

  predicate GoesNegative(p: Plan, candidate: int, start: real, age: int)
    requires p.currentAge <= candidate && p.currentAge <= age
  {
    CandidateBalance(p, candidate, start, age) < 0.0
  }

  /** Starting from `start`, retiring at `candidate` never drives the balance below 0 up to lifeExpectancy. */
  predicate SustainableFrom(p: Plan, candidate: int, start: real)
    requires p.currentAge <= candidate
  {
    forall age :: p.currentAge <= age <= p.lifeExpectancy ==> !GoesNegative(p, candidate, start, age)
  }

  predicate Sustainable(p: Plan, candidate: int)
    requires p.currentAge <= candidate
  {
    SustainableFrom(p, candidate, p.currentBalance)
  }

  /** The inner loop for one candidate: true iff the balance never goes negative (it stops at the first negative year). */
  method SimulateCandidate(p: Plan, candidate: int) returns (isSustainable: bool)
    requires p.currentAge <= candidate
    ensures isSustainable <==> Sustainable(p, candidate)
  {
    var balance := p.currentBalance;
    isSustainable := true;
    var initialWithdrawal := CandidateInitialWithdrawal(p, candidate);
    var age := p.currentAge;
    while age <= p.lifeExpectancy
      invariant p.currentAge <= age
      invariant balance == CandidateBalanceBefore(p, candidate, p.currentBalance, age)
      invariant forall a :: p.currentAge <= a < age ==> !GoesNegative(p, candidate, p.currentBalance, a)
      decreases p.lifeExpectancy - age
    {
      var annualSavings := CandidateSavings(p, candidate, age);
      var earnings := CandidateEarnings(p, candidate, age, balance);
      var annualWithdrawal := CandidateWithdrawal(p, candidate, initialWithdrawal, age);
      balance := balance + earnings + annualSavings - annualWithdrawal;
      if balance < 0.0 {
        assert GoesNegative(p, candidate, p.currentBalance, age);
        isSustainable := false;
        break;
      }
      age := age + 1;
    }
  }

  /** `age` is the least candidate from retirementAge on whose simulation is sustainable. */
  predicate IsLeastSustainable(p: Plan, age: int)
    requires AgesOrdered(p)
  {
    && p.retirementAge <= age <= p.lifeExpectancy
    && Sustainable(p, age)
    && forall c :: p.retirementAge <= c < age ==> !Sustainable(p, c)
  }

  /** No candidate in retirementAge .. lifeExpectancy is sustainable. */
  predicate NoneSustainable(p: Plan)
    requires AgesOrdered(p)
  {
    forall c :: p.retirementAge <= c <= p.lifeExpectancy ==> !Sustainable(p, c)
  }

  /**
   * The search: it returns the least sustainable candidate from retirementAge on,
   * and fails with its message exactly when there is none up to lifeExpectancy.
   */
  method FindRecommendedRetirementAge(p: Plan) returns (res: Result<int, string>)
    requires AgesOrdered(p)
    ensures res.Success? ==> IsLeastSustainable(p, res.value)
    ensures res.Failure? ==> res.error == NoSustainableAgeMessage && NoneSustainable(p)
  {
    var recommendedAge := p.retirementAge;
    while true
      invariant p.retirementAge <= recommendedAge <= p.lifeExpectancy
      invariant forall c :: p.retirementAge <= c < recommendedAge ==> !Sustainable(p, c)
      decreases p.lifeExpectancy - recommendedAge
    {
      var isSustainable := SimulateCandidate(p, recommendedAge);
      if isSustainable {
        return Success(recommendedAge);
      }
      recommendedAge := recommendedAge + 1;
      if recommendedAge > p.lifeExpectancy {
        return Failure(NoSustainableAgeMessage);
      }
    }
  }

  /** One year of the simulation is monotone in the balance when no return is below -100%. */
  lemma StepMonotone(p: Plan, candidate: int, age: int, b1: real, b2: real)
    requires p.preRetReturn >= -1.0 && p.postRetReturn >= -1.0
    requires b1 <= b2
    ensures b1 + CandidateEarnings(p, candidate, age, b1) <= b2 + CandidateEarnings(p, candidate, age, b2)
  {
    var k := if age >= candidate then p.postRetReturn else p.preRetReturn;
    assert CandidateEarnings(p, candidate, age, b1) == b1 * k;
    assert CandidateEarnings(p, candidate, age, b2) == b2 * k;
    MulMonotone(b1, b2, 1.0 + k);
    assert b1 + b1 * k == b1 * (1.0 + k);
    assert b2 + b2 * k == b2 * (1.0 + k);
  }

  /** A larger starting balance gives a balance at least as large in every later year. */
  lemma {:induction false} BalanceMonotone(p: Plan, candidate: int, s1: real, s2: real, age: int)
    requires p.currentAge <= candidate && p.currentAge <= age
    requires p.preRetReturn >= -1.0 && p.postRetReturn >= -1.0
    requires s1 <= s2
    ensures CandidateBalance(p, candidate, s1, age) <= CandidateBalance(p, candidate, s2, age)
    decreases age - p.currentAge
  {
    if age > p.currentAge {
      BalanceMonotone(p, candidate, s1, s2, age - 1);
    }
    StepMonotone(p, candidate, age,
      CandidateBalanceBefore(p, candidate, s1, age), CandidateBalanceBefore(p, candidate, s2, age));
  }

  /**
   * With returns of at least -100% a plan that is sustainable from some balance
   * stays sustainable from any larger one, so the search can only end earlier.
   */
  lemma SustainableMonotone(p: Plan, candidate: int, s1: real, s2: real)
    requires p.currentAge <= candidate
    requires p.preRetReturn >= -1.0 && p.postRetReturn >= -1.0
    requires s1 <= s2 && SustainableFrom(p, candidate, s1)
    ensures SustainableFrom(p, candidate, s2)
  {
    forall age | p.currentAge <= age <= p.lifeExpectancy
      ensures !GoesNegative(p, candidate, s2, age)
    {
      assert !GoesNegative(p, candidate, s1, age);
      BalanceMonotone(p, candidate, s1, s2, age);
    }
  }
}
