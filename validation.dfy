/**
 * Input collection and validation of the retirement calculator: the record that
 * getInputs returns, the rule table validationRules, and validateInputs, which
 * collects every violated message and fails iff there is at least one.
 */
module Validation {
  import opened JsMath

  /** The numbers read from the form, after parseFloat/parseInt and before getInputs scales them. */
  datatype FormEntries = FormEntries(
    desiredIncome: JsNum<real>,
    afterRetIncome: JsNum<real>,
    preRetReturnPercent: JsNum<real>,
    postRetReturnPercent: JsNum<real>,
    currentAge: JsNum<int>,
    retirementAge: JsNum<int>,
    currentBalance: JsNum<real>,
    wageInflationPercent: JsNum<real>,
    costInflationPercent: JsNum<real>,
    currentIncome: JsNum<real>,
    annualSavingsPercent: JsNum<real>,
    lifeExpectancy: JsNum<int>)

  /** The object getInputs returns; its percent fields already hold fractions. */
  datatype RawInputs = RawInputs(
    desiredIncome: JsNum<real>,
    afterRetIncome: real,
    preRetReturn: JsNum<real>,
    postRetReturn: JsNum<real>,
    currentAge: JsNum<int>,
    retirementAge: JsNum<int>,
    currentBalance: JsNum<real>,
    wageInflation: JsNum<real>,
    costInflation: JsNum<real>,
    currentIncome: JsNum<real>,
    annualSavingsRate: JsNum<real>,
    lifeExpectancy: JsNum<int>)

  /** The same inputs once validation has accepted them: no field is NaN. */
  datatype Plan = Plan(
    desiredIncome: real,
    afterRetIncome: real,
    preRetReturn: real,
    postRetReturn: real,
    currentAge: int,
    retirementAge: int,
    currentBalance: real,
    wageInflation: real,
    costInflation: real,
    currentIncome: real,
    annualSavingsRate: real,
    lifeExpectancy: int)

  /** The keys of the inputs object, one per field. */
  datatype Key =
    | DesiredIncome | AfterRetIncome | PreRetReturn | PostRetReturn
    | CurrentAge | RetirementAge | CurrentBalance | WageInflation
    | CostInflation | CurrentIncome | AnnualSavingsRate | LifeExpectancy

  /** The keys in the order getInputs creates them, which is the order validateInputs visits them. */
  const Keys: seq<Key> := [
    DesiredIncome, AfterRetIncome, PreRetReturn, PostRetReturn,
    CurrentAge, RetirementAge, CurrentBalance, WageInflation,
    CostInflation, CurrentIncome, AnnualSavingsRate, LifeExpectancy]

  /** Where key `k` stands in Keys: every key is visited. */
  function KeyIndex(k: Key): (i: nat)
    ensures i < |Keys| && Keys[i] == k
  {
    match k
    case DesiredIncome => 0
    case AfterRetIncome => 1
    case PreRetReturn => 2
    case PostRetReturn => 3
    case CurrentAge => 4
    case RetirementAge => 5
    case CurrentBalance => 6
    case WageInflation => 7
    case CostInflation => 8
    case CurrentIncome => 9
    case AnnualSavingsRate => 10
    case LifeExpectancy => 11
  }

  /** The property name of a key, as it appears in the not-a-number message. */
  function KeyName(k: Key): string {
    match k
    case DesiredIncome => "desiredIncome"
    case AfterRetIncome => "afterRetIncome"
    case PreRetReturn => "preRetReturn"
    case PostRetReturn => "postRetReturn"
    case CurrentAge => "currentAge"
    case RetirementAge => "retirementAge"
    case CurrentBalance => "currentBalance"
    case WageInflation => "wageInflation"
    case CostInflation => "costInflation"
    case CurrentIncome => "currentIncome"
    case AnnualSavingsRate => "annualSavingsRate"
    case LifeExpectancy => "lifeExpectancy"
  }

  /** validationRules, column by column: the closed bounds of every key (the percent keys in percent) and its message. */
  function RuleMin(k: Key): real {
    match k
    case DesiredIncome => 0.0
    case AfterRetIncome => 0.0
    case PreRetReturn => -20.0
    case PostRetReturn => -20.0
    case CurrentAge => 18.0
    case RetirementAge => 18.0
    case CurrentBalance => 0.0
    case WageInflation => -5.0
    case CostInflation => -5.0
    case CurrentIncome => 0.0
    case AnnualSavingsRate => 0.0
    case LifeExpectancy => 18.0
  }

  function RuleMax(k: Key): real {
    match k
    case DesiredIncome => 1000000000.0
    case AfterRetIncome => 1000000000.0
    case PreRetReturn => 30.0
    case PostRetReturn => 30.0
    case CurrentAge => 100.0
    case RetirementAge => 100.0
    case CurrentBalance => 1000000000000.0
    case WageInflation => 20.0
    case CostInflation => 20.0
    case CurrentIncome => 1000000000.0
    case AnnualSavingsRate => 100.0
    case LifeExpectancy => 120.0
  }

  function RuleMessage(k: Key): string {
    match k
    case DesiredIncome => "Desired income must be between $0 and $1,000,000,000"
    case AfterRetIncome => "After Retirement Income must be between $0 and $1,000,000,000"
    case PreRetReturn => "Pre-retirement return must be between -20% and 30%"
    case PostRetReturn => "Post-retirement return must be between -20% and 30%"
    case CurrentAge => "Current age must be between 18 and 100"
    case RetirementAge => "Retirement age must be between 18 and 100"
    case CurrentBalance => "Current balance must be between $0 and $1,000,000,000,000"
    case WageInflation => "Wage inflation must be between -5% and 20%"
    case CostInflation => "Cost of living inflation must be between -5% and 20%"
    case CurrentIncome => "Current income must be between $0 and $1,000,000,000"
    case AnnualSavingsRate => "Annual savings rate must be between 0% and 100%"
    case LifeExpectancy => "Life expectancy must be between 18 and 120"
  }

  const RetirementOrderMessage := "Retirement age must be greater than current age"
  const LifeOrderMessage := "Life expectancy must be greater than retirement age"

  function IntAsNumber(n: JsNum<int>): JsNum<real> {
    match n
    case NaN => NaN
    case Num(i) => Num(i as real)
  }

  /** Number(inputs[k]): the value validateInputs checks for key `k`. */
  function FieldValue(raw: RawInputs, k: Key): JsNum<real> {
    match k
    case DesiredIncome => raw.desiredIncome
    case AfterRetIncome => Num(raw.afterRetIncome)
    case PreRetReturn => raw.preRetReturn
    case PostRetReturn => raw.postRetReturn
    case CurrentAge => IntAsNumber(raw.currentAge)
    case RetirementAge => IntAsNumber(raw.retirementAge)
    case CurrentBalance => raw.currentBalance
    case WageInflation => raw.wageInflation
    case CostInflation => raw.costInflation
    case CurrentIncome => raw.currentIncome
    case AnnualSavingsRate => raw.annualSavingsRate
    case LifeExpectancy => IntAsNumber(raw.lifeExpectancy)
  }

  /** The message one field contributes: the not-a-number message, the rule's message, or none. */
  function FieldMessages(k: Key, v: JsNum<real>): seq<string> {
    match v
    case NaN => [KeyName(k) + " must be a valid number"]
    case Num(x) => if x < RuleMin(k) || x > RuleMax(k) then [RuleMessage(k)] else []
  }

  /** The field messages of `keys`, in the order of `keys`. */
  function FieldProblems(raw: RawInputs, keys: seq<Key>): seq<string>
  {
    if keys == [] then []
    else FieldProblems(raw, keys[..|keys| - 1]) + FieldMessages(keys[|keys| - 1], FieldValue(raw, keys[|keys| - 1]))
  }

  /** The two cross-field messages; a comparison with NaN is false, so a NaN age adds neither. */
  function CrossProblems(raw: RawInputs): seq<string> {
    (if raw.retirementAge.Num? && raw.currentAge.Num? && raw.retirementAge.val <= raw.currentAge.val
     then [RetirementOrderMessage] else [])
    + (if raw.lifeExpectancy.Num? && raw.retirementAge.Num? && raw.lifeExpectancy.val <= raw.retirementAge.val
       then [LifeOrderMessage] else [])
  }

  /** Every message validateInputs collects, in the order it collects them. */
  function Problems(raw: RawInputs): seq<string> {
    FieldProblems(raw, Keys) + CrossProblems(raw)
  }

  /** errors.join(sep). */
  function Join(xs: seq<string>, sep: string): string {
    if |xs| == 0 then ""
    else if |xs| == 1 then xs[0]
    else xs[0] + sep + Join(xs[1..], sep)
  }

  /** Field `k` is a number inside its rule's closed interval. */
  predicate FieldOk(raw: RawInputs, k: Key) {
    FieldValue(raw, k).Num? && RuleMin(k) <= FieldValue(raw, k).val <= RuleMax(k)
  }

  /** What acceptance means, stated independently of the message list. */
  predicate Accepted(raw: RawInputs) {
    && (forall k: Key :: FieldOk(raw, k))
    && raw.currentAge.Num? && raw.retirementAge.Num? && raw.lifeExpectancy.Num?
    && raw.currentAge.val < raw.retirementAge.val < raw.lifeExpectancy.val
  }

  predicate NoNaN(raw: RawInputs) {
    && raw.desiredIncome.Num? && raw.preRetReturn.Num? && raw.postRetReturn.Num?
    && raw.currentAge.Num? && raw.retirementAge.Num? && raw.currentBalance.Num?
    && raw.wageInflation.Num? && raw.costInflation.Num? && raw.currentIncome.Num?
    && raw.annualSavingsRate.Num? && raw.lifeExpectancy.Num?
  }

  function ToPlan(raw: RawInputs): Plan
    requires NoNaN(raw)
  {
    Plan(raw.desiredIncome.val, raw.afterRetIncome, raw.preRetReturn.val, raw.postRetReturn.val,
         raw.currentAge.val, raw.retirementAge.val, raw.currentBalance.val, raw.wageInflation.val,
         raw.costInflation.val, raw.currentIncome.val, raw.annualSavingsRate.val, raw.lifeExpectancy.val)
  }

  /** The ages the projection and the age search need: currentAge <= retirementAge <= lifeExpectancy. */
  predicate AgesOrdered(p: Plan) {
    p.currentAge <= p.retirementAge <= p.lifeExpectancy
  }

  /** The field messages of `keys` are empty iff every key in `keys` is within its rule. */
  lemma {:induction false} FieldProblemsEmptyIff(raw: RawInputs, keys: seq<Key>)
    ensures FieldProblems(raw, keys) == [] <==> forall i :: 0 <= i < |keys| ==> FieldOk(raw, keys[i])
  {
    if keys != [] {
      var init := keys[..|keys| - 1];
      FieldProblemsEmptyIff(raw, init);
      assert forall i :: 0 <= i < |init| ==> init[i] == keys[i];
    }
  }

  /** Every message a field produces appears in the collected list. */
  lemma {:induction false} FieldMessageCollected(raw: RawInputs, keys: seq<Key>, i: int)
    requires 0 <= i < |keys|
    ensures forall m :: m in FieldMessages(keys[i], FieldValue(raw, keys[i])) ==> m in FieldProblems(raw, keys)
  {
    var init := keys[..|keys| - 1];
    if i < |keys| - 1 {
      FieldMessageCollected(raw, init, i);
    }
  }

  /** Each message in the field part of the list comes from some key of `keys`. */
  lemma {:induction false} FieldMessageHasCause(raw: RawInputs, keys: seq<Key>, m: string)
    requires m in FieldProblems(raw, keys)
    ensures exists i :: 0 <= i < |keys| && m in FieldMessages(keys[i], FieldValue(raw, keys[i]))
  {
    var init := keys[..|keys| - 1];
    if m in FieldProblems(raw, init) {
      FieldMessageHasCause(raw, init, m);
      var i :| 0 <= i < |init| && m in FieldMessages(init[i], FieldValue(raw, init[i]));
      assert init[i] == keys[i];
    } else {
      assert m in FieldMessages(keys[|keys| - 1], FieldValue(raw, keys[|keys| - 1]));
    }
  }

  /** Validation fails iff some field is NaN or out of range, or the ages are not strictly increasing. */
  lemma ProblemsEmptyIffAccepted(raw: RawInputs)
    ensures Problems(raw) == [] <==> Accepted(raw)
  {
    FieldProblemsEmptyIff(raw, Keys);
    if forall i :: 0 <= i < |Keys| ==> FieldOk(raw, Keys[i]) {
      forall k: Key
        ensures FieldOk(raw, k)
      {
        assert FieldOk(raw, Keys[KeyIndex(k)]);
      }
      assert FieldOk(raw, CurrentAge) && FieldOk(raw, RetirementAge) && FieldOk(raw, LifeExpectancy);
    }
  }

  /** An accepted record has no NaN field and its ages are those the engine needs. */
  lemma AcceptedPlan(raw: RawInputs)
    requires Accepted(raw)
    ensures NoNaN(raw)
    ensures AgesOrdered(ToPlan(raw))
    ensures 18 <= ToPlan(raw).currentAge && ToPlan(raw).lifeExpectancy <= 120
    ensures ToPlan(raw).currentBalance >= 0.0 && ToPlan(raw).afterRetIncome >= 0.0
  {
    assert FieldOk(raw, DesiredIncome) && FieldOk(raw, PreRetReturn) && FieldOk(raw, PostRetReturn);
    assert FieldOk(raw, CurrentAge) && FieldOk(raw, CurrentBalance) && FieldOk(raw, WageInflation);
    assert FieldOk(raw, CostInflation) && FieldOk(raw, CurrentIncome) && FieldOk(raw, AnnualSavingsRate);
    assert FieldOk(raw, AfterRetIncome) && FieldOk(raw, LifeExpectancy);
  }

  /** One more key of the loop adds that key's messages at the end. */
  lemma FieldProblemsStep(raw: RawInputs, keys: seq<Key>, i: int)
    requires 0 <= i < |keys|
    ensures FieldProblems(raw, keys[..i + 1]) == FieldProblems(raw, keys[..i]) + FieldMessages(keys[i], FieldValue(raw, keys[i]))
  {
    assert keys[..i + 1][..i] == keys[..i];
  }

  /**
   * validateInputs: visits the keys in order, collects the messages, adds the
   * cross-field messages, and fails with the messages joined by newlines.
   */
  method ValidateInputs(raw: RawInputs) returns (r: Result<Plan, string>)
    ensures r.Failure? <==> Problems(raw) != []
    ensures r.Failure? ==> r.error == Join(Problems(raw), "\n")
    ensures r.Success? ==> Accepted(raw) && NoNaN(raw) && r.value == ToPlan(raw)
  {
    var errors: seq<string> := [];
    for i := 0 to |Keys|
      invariant errors == FieldProblems(raw, Keys[..i])
    {
      var k := Keys[i];
      var value := FieldValue(raw, k);
      FieldProblemsStep(raw, Keys, i);
      if value.NaN? {
        errors := errors + [KeyName(k) + " must be a valid number"];
        continue;
      }
      if value.val < RuleMin(k) || value.val > RuleMax(k) {
        errors := errors + [RuleMessage(k)];
      }
    }
    assert Keys[..|Keys|] == Keys;
    if raw.retirementAge.Num? && raw.currentAge.Num? && raw.retirementAge.val <= raw.currentAge.val {
      errors := errors + [RetirementOrderMessage];
    }
    if raw.lifeExpectancy.Num? && raw.retirementAge.Num? && raw.lifeExpectancy.val <= raw.retirementAge.val {
      errors := errors + [LifeOrderMessage];
    }
    assert errors == Problems(raw);
    ProblemsEmptyIffAccepted(raw);
    if |errors| > 0 {
      return Failure(Join(errors, "\n"));
    }
    AcceptedPlan(raw);
    return Success(ToPlan(raw));
  }

  /** A percent entry as getInputs stores it: divided by 100 (NaN stays NaN). */
  function Percent(v: JsNum<real>): JsNum<real> {
    match v
    case NaN => NaN
    case Num(x) => Num(x / 100.0)
  }

  /**
   * The arithmetic getInputs applies: percent fields divided by 100, afterRetIncome `|| 0`.
   * An empty after-retirement income therefore passes its rule as 0, and that field
   * can never draw "must be a valid number".
   */
  function GetInputs(f: FormEntries): (raw: RawInputs)
    ensures FieldOk(raw, AfterRetIncome) <==>
      f.afterRetIncome.NaN? || 0.0 <= f.afterRetIncome.val <= 1000000000.0
  {
    RawInputs(
      f.desiredIncome,
      if f.afterRetIncome.NaN? then 0.0 else f.afterRetIncome.val,
      Percent(f.preRetReturnPercent),
      Percent(f.postRetReturnPercent),
      f.currentAge,
      f.retirementAge,
      f.currentBalance,
      Percent(f.wageInflationPercent),
      Percent(f.costInflationPercent),
      f.currentIncome,
      Percent(f.annualSavingsPercent),
      f.lifeExpectancy)
  }

  predicate IsPercentKey(k: Key) {
    k in {PreRetReturn, PostRetReturn, WageInflation, CostInflation, AnnualSavingsRate}
  }

  /** The entered (percent) value of a percent key. */
  function EnteredPercent(f: FormEntries, k: Key): JsNum<real>
    requires IsPercentKey(k)
  {
    match k
    case PreRetReturn => f.preRetReturnPercent
    case PostRetReturn => f.postRetReturnPercent
    case WageInflation => f.wageInflationPercent
    case CostInflation => f.costInflationPercent
    case AnnualSavingsRate => f.annualSavingsPercent
  }

  /**
   * The percent rules are applied to the already-divided fraction, so an entry
   * passes iff it lies within 100 times the stated percent bounds: an entered
   * pre-retirement return of 2500% is accepted although the message says at most 30%.
   */
  lemma PercentRuleScale(f: FormEntries, k: Key)
    requires IsPercentKey(k)
    ensures FieldOk(GetInputs(f), k) <==>
      EnteredPercent(f, k).Num? &&
      100.0 * RuleMin(k) <= EnteredPercent(f, k).val <= 100.0 * RuleMax(k)
  {
  }

  /** The consequence for the savings rate: an entered 5000% passes and is stored as the fraction 50. */
  lemma SavingsRateQuirk(f: FormEntries)
    requires f.annualSavingsPercent == Num(5000.0)
    ensures FieldOk(GetInputs(f), AnnualSavingsRate)
    ensures GetInputs(f).annualSavingsRate == Num(50.0)
  {
  }
}
