# rciscripts in Dafny: retirement calculator, diversification quiz, sticky form

This project models three browser scripts of rcisystems/rciscripts and proves
properties of the model.

**`js/sdira-calculator.js`, the self-directed IRA retirement calculator.**
- `getInputs` turns the form into the inputs object, which can still hold NaN; a plan exists only once `validateInputs` accepts it. Percent entries are divided by 100, and `afterRetIncome` falls back to 0.
- `validateInputs` checks each of the twelve fields against `validationRules` in field order. It then checks that the three ages are ordered, and it throws with every message joined by newlines.
- `calculateRetirement` runs the year-by-year projection from `currentAge` to `lifeExpectancy`:
  - every amount is rounded up with `Math.ceil`;
  - it records the first age whose balance goes negative;
  - it sums the withdrawals of the retired years;
  - it calls `findRecommendedRetirementAge` when the plan runs out.
- `findRecommendedRetirementAge` is a linear search over candidate retirement ages. It uses an unrounded simulation that ignores `afterRetIncome`.
- `saveScenario` runs its own simplified simulation and appends one scenario to `savedScenarios`. `deleteScenario` filters scenarios out by id.

**`js/quiz_structure.js`, a ten-question quiz.**
- A cursor is moved by Next, Previous and Reset.
- `showQuestion` decides which buttons are visible.
- `calculateScore` sums the checked answers of two sections, selected by radio-name prefix. A NaN sum resets both sections to 0, and the percentage is classified into one of three verdicts.

**`js/sticky-form.js`, the scroll handler.** It chooses one of three positions for a form, relative to a navbar measured once at load.

The model follows each file's form:
- **Loops become methods** (`ProjectPlan`, `SimulateCandidate`, `FindRecommendedRetirementAge`, `ScenarioOutcome`, `ValidateInputs`):
  - `ProjectPlan`, `SimulateCandidate`, `ScenarioOutcome` and `ValidateInputs` are each proved equal to a function of their inputs, and the properties are proved about that function;
  - `FindRecommendedRetirementAge` is proved against the predicates `RecommendedAge.IsLeastSustainable` and `RecommendedAge.NoneSustainable`.
- **Mutated module state becomes classes.** `savedScenarios` is the `ScenarioLedger` class. The quiz cursor, answers, scores, result and buttons are `QuizPage`. The form's style is `StickyForm`.
- **Pure parts become functions and lemmas**: the reduce folds, the verdict chain, `showQuestion`'s visibility and the scroll decision.

Numbers are exact reals (`real`). NaN is modelled only where the code tests for it or produces it:
- `JsNum<T> = NaN | Num(val)` carries NaN for the form fields, the quiz answers and the calculator's withdrawal rate.
- `Math.ceil` is `JsMath.Ceil`, which uses Dafny's floor.
- `Math.pow` with a whole exponent is `JsMath.Pow`.

Some behaviour of the code is worth stating outright:
- The percent rules compare the already-divided fraction with the percent numbers of their messages (-20 to 30 for the pre-retirement return). An entry up to 100 times the bound the message states is therefore accepted. See `Validation.PercentRuleScale`.
- The ages are bounded 18-100 for `currentAge` and `retirementAge`, and 18-120 for `lifeExpectancy`. The amounts have the upper bounds of `validationRules`.
- The scenario simulation of `saveScenario` is not the projection of `calculateRetirement`:
  - it has no savings and no rounding of the balance, although each withdrawal is rounded up when it is added to the total needed;
  - the `afterRetIncome` offset is clamped at 0 before inflation;
  - the initial withdrawal is not rounded.

### Recommended age at life expectancy

`Calculator.RecommendationAtLifeExpectancy` exhibits one behaviour of the code as written. The search can recommend `lifeExpectancy` itself. The recalculation it offers then fails validation, because `lifeExpectancy` must exceed `retirementAge`.

The example entries are:
- ages 18, 19 and 20;
- a desired income of 100 and a current income of 100;
- a savings entry of 100, which is accepted as a fraction;
- everything else 0.

## Model

| member | source | states |
|---|---|---|
| Validation.GetInputs | js/sdira-calculator.js:190-209 | Because of `\|\| 0`, the after-retirement income passes its rule iff the entry is empty (NaN) or lies in [0, 1000000000]. An empty entry passes as 0, so this field never draws "must be a valid number". |
| Validation.ValidateInputs | js/sdira-calculator.js:279-313 | Fails iff the list of problems is non-empty. The failure message is the problems joined by "\n". On success the plan is the entries, and no field is NaN. |
| Validation.FieldProblemsEmptyIff | js/sdira-calculator.js:283-299 | The per-field loop reports nothing iff every field is a number within its rule's [min, max]. |
| Validation.FieldMessageCollected | js/sdira-calculator.js:289-298 | Every message a field deserves appears in the reported list. |
| Validation.FieldMessageHasCause | js/sdira-calculator.js:289-298 | Every reported field message comes from some field's NaN or range violation. |
| Validation.ProblemsEmptyIffAccepted | js/sdira-calculator.js:283-308 | No problem at all iff every field is in range and `currentAge < retirementAge < lifeExpectancy`. |
| Validation.AcceptedPlan | js/sdira-calculator.js:215-277 | Accepted entries have no NaN and ordered ages. `currentAge >= 18`, `lifeExpectancy <= 120`, and the balance and after-retirement income are not negative. |
| Validation.PercentRuleScale | js/sdira-calculator.js:194-207 | A percent field passes iff its entered percent lies within 100 times the rule's bounds, because the rules are applied after the division by 100. |
| Validation.SavingsRateQuirk | js/sdira-calculator.js:267-271 | A savings entry of 5000% passes validation, and becomes a savings fraction of 50. |
| Projection.ProjectPlan | js/sdira-calculator.js:39-134 | The loop's records are the schedule and its run-out age is the first negative year. `isSelfSustaining` holds iff there is no such year. `totalAmountNeeded` is the sum of the retired years' withdrawals in the records. |
| Projection.ScheduleShape | js/sdira-calculator.js:50-50 | One record per age from `currentAge`, in increasing order and with no gaps. Each record is that age's record. |
| Projection.ScheduleChain | js/sdira-calculator.js:72-75 | The schedule has `lifeExpectancy - currentAge + 1` records, from `currentAge` to `lifeExpectancy`. The first beginning balance is `currentBalance`. Each later one is the previous year's unclamped ending balance. |
| Projection.WithdrawalPhases | js/sdira-calculator.js:56-70 | No withdrawal before `retirementAge` and no savings from it on. A withdrawal is never negative. |
| Projection.WholeAmounts | js/sdira-calculator.js:40-75 | Every amount of a record, and every balance after the first, is a whole number, because each is produced by `Math.ceil`. |
| Projection.ReportingClamps | js/sdira-calculator.js:83-114 | The stored ending balance is at least 0. The rate is 0 when the year ends at 0 or below, and never above 100. It is at least 0 when the beginning balance is, and NaN exactly for 0/0. Otherwise, in a year that ends above 0, it is `annualWithdrawal / beginningBalance * 100`, or 0 when that exceeds 100. Income is reported as 0 in a retired year with a positive withdrawal. |
| Projection.ZeroStartWithdrawsNothing | js/sdira-calculator.js:72-85 | A year that starts at 0 and ends above 0 withdrew nothing. This is why the division `annualWithdrawal / beginningBalance` can only be 0/0. |
| Projection.RunOutIsFirst | js/sdira-calculator.js:92-98 | The run-out age is the least age whose balance is negative. It is absent iff no year goes negative. |
| Projection.TotalNeededIsRetiredWithdrawals | js/sdira-calculator.js:78-80 | The running total equals the sum of `annualWithdrawal` over the retired records, and it is not negative. |
| Projection.TotalNeededIgnoresBalance | js/sdira-calculator.js:62-80 | The total needed does not depend on the starting balance. |
| RecommendedAge.SimulateCandidate | js/sdira-calculator.js:322-351 | The inner loop, which stops at the first negative balance, reports sustainable iff no year up to `lifeExpectancy` goes negative. |
| RecommendedAge.FindRecommendedRetirementAge | js/sdira-calculator.js:315-363 | Returns the least sustainable candidate in [`retirementAge`, `lifeExpectancy`]. Every candidate below it is unsustainable. Fails with "Unable to find a sustainable retirement age." iff no candidate up to `lifeExpectancy` is sustainable. |
| RecommendedAge.StepMonotone | js/sdira-calculator.js:338-345 | With returns of at least -100%, adding a year's earnings to two balances does not reverse their order. |
| RecommendedAge.BalanceMonotone | js/sdira-calculator.js:330-345 | With returns of at least -100%, a larger starting balance gives a balance at least as large in every later year. |
| RecommendedAge.SustainableMonotone | js/sdira-calculator.js:322-355 | A candidate sustainable from some starting balance stays sustainable from any larger one. |
| Calculator.Label | js/sdira-calculator.js:442-442 | `runOutOfMoneyAge \|\| "Never"`: "Never" iff no age was found or the age is 0. Otherwise the label is the age. |
| Calculator.CalculateRetirement | js/sdira-calculator.js:4-188 | Invalid entries give the joined validation messages. For valid entries the result fails iff the plan runs out and no candidate age is sustainable, with the search's message. Otherwise the summary reports the schedule, the run-out label, `isSelfSustaining`, the total needed and `afterRetIncome`. The recommended age is `retirementAge` when the plan is sustainable, and the least sustainable candidate otherwise. The recalculate offer is present exactly in the unsustainable case. |
| Calculator.WithRetirementAge | js/sdira-calculator.js:365-368 | Recalculating with the recommended age changes only `retirementAge` in the inputs. |
| Calculator.RunOutLabelOfAcceptedPlan | js/sdira-calculator.js:382-384 | For accepted entries no run-out age can be 0, so the label is "Never" exactly when the plan never runs out. |
| Calculator.LifeExpectancyEntriesAccepted | js/sdira-calculator.js:279-313 | The example entries pass validation, and their plan is the example plan. |
| Calculator.LifeExpectancyInputsAccepted | js/sdira-calculator.js:279-313 | The example inputs, after the division of the percent entries, meet every rule and the age order, contain no NaN, and convert to the example plan. |
| Calculator.LifeExpectancyPlanRunsOut | js/sdira-calculator.js:50-98 | The example plan runs out of money at 20. |
| Calculator.LifeExpectancyPlanSearch | js/sdira-calculator.js:315-363 | For the example plan the least sustainable candidate is 20, its `lifeExpectancy`. |
| Calculator.LifeExpectancyRecalculationRejected | js/sdira-calculator.js:306-308 | Recalculating the example with retirement age 20 is rejected with exactly "Life expectancy must be greater than retirement age". |
| Calculator.RecommendationAtLifeExpectancy | js/sdira-calculator.js:136-169 | Valid entries can run out and be offered `lifeExpectancy` as the recommended age, and the offered recalculation then fails validation. |
| Scenarios.ScenarioOutcome | js/sdira-calculator.js:407-434 | The loop of `saveScenario` finds the first negative scenario balance and the sum of the rounded-up retired withdrawals. |
| Scenarios.ScenarioRunOutIsFirst | js/sdira-calculator.js:429-433 | The scenario's run-out age is the least age whose balance is negative. It is absent iff there is none. |
| Scenarios.ScenarioNeededNonNegative | js/sdira-calculator.js:417-427 | With cost inflation of at least -100%, the scenario's total needed is not negative. |
| Scenarios.RemoveIdMembers | js/sdira-calculator.js:515-515 | A scenario survives a delete iff it was saved and carries another id. |
| Scenarios.RemoveIdAppend | js/sdira-calculator.js:515-515 | The filter distributes over concatenation, so the survivors keep their order. |
| Scenarios.RemoveIdAbsent | js/sdira-calculator.js:515-515 | Deleting an id no scenario carries changes nothing. |
| Scenarios.RemoveIdIdempotent | js/sdira-calculator.js:513-517 | Deleting the same id twice is deleting it once. |
| Scenarios.ScenarioLedger.constructor | js/sdira-calculator.js:392-392 | The list starts empty. |
| Scenarios.ScenarioLedger.SaveScenario | js/sdira-calculator.js:395-454 | Invalid entries give the joined messages and leave the list unchanged. Otherwise exactly one scenario is appended at the end, with the simulation's run-out label and total. |
| Scenarios.ScenarioLedger.DeleteScenario | js/sdira-calculator.js:513-517 | The new list is the old one without the scenarios carrying the id. |
| Scenarios.SaveThenDelete | js/sdira-calculator.js:437-446 | Saving a scenario whose id is fresh and then deleting that id restores the previous list. |
| Quiz.SectionSumIsSumAt | js/quiz_structure.js:58-68 | The reduce over a section's checked radios is the sum over exactly the questions the selector list matches, in document order. |
| Quiz.AssetMember | js/quiz_structure.js:52-52 | The asset-variety selector matches questions 1-5 and also question 10, since "q10" starts with "q1". It matches no other question. |
| Quiz.RiskMember | js/quiz_structure.js:53-53 | The risk-correlation selector matches exactly questions 6-10. |
| Quiz.SectionMembers | js/quiz_structure.js:52-53 | The two sections, in document order: questions 1-5 and 10, and questions 6-10. |
| Quiz.SumAtNaN | js/quiz_structure.js:58-68 | A section sum is NaN iff one of its summed answers is NaN. |
| Quiz.ScoresByQuestion | js/quiz_structure.js:52-80 | A NaN answer to any question resets both scores to 0. Otherwise the asset score sums questions 1-5 and 10, and the risk score sums 6-10, so question 10 counts twice in the total. |
| Quiz.ClassifyByScore | js/quiz_structure.js:80-92 | Out of 200 points, 160 or more is "True Diversification", 100 to 159 is "Moderately Diversified", and anything less is "Portfolio Illusion". |
| Quiz.ReportOf | js/quiz_structure.js:80-99 | The total is the sum of the two section scores, out of 200, and the percentage shown is half of it. The verdict is "True Diversification" iff the total is at least 160, "Moderately Diversified" iff it is 100 to 159, and "Portfolio Illusion" iff it is below 100. |
| Quiz.ShowQuestionButtons | js/quiz_structure.js:6-14 | Previous is hidden exactly at index 0. Next is hidden exactly at the last index, where Submit is shown instead. Every call hides Reset, and the progress shows index + 1. |
| Quiz.PageButtons | js/quiz_structure.js:6-38 | On every page the methods can reach, the progress reads 1 to 10, Previous is offered except on the first question, and exactly one of Next and Submit is offered, Submit only on the last. |
| Quiz.QuizPage.constructor | js/quiz_structure.js:1-4 | The page loads on question 0, with both section scores 0 and no result. |
| Quiz.QuizPage.NextQuestion | js/quiz_structure.js:22-31 | Unanswered: an alert, and nothing moves. Answered: the cursor advances and the view follows, except on the last question. The cursor stays in [0, 9]. |
| Quiz.QuizPage.PrevQuestion | js/quiz_structure.js:33-38 | Steps back only when the cursor is above 0. The cursor stays in [0, 9]. |
| Quiz.QuizPage.CalculateScore | js/quiz_structure.js:40-102 | Unanswered: an alert, with scores, result and view unchanged. Otherwise the scores are the section sums after the NaN reset, the result reports them, and Reset is shown. |
| Quiz.QuizPage.ResetQuiz | js/quiz_structure.js:104-111 | Back to question 0 with the form cleared, the result empty and the first view shown. The section scores are kept. |
| Sticky.DecideModes | js/sticky-form.js:33-54 | Relative iff scrollY is below the threshold. Fixed at `navbarHeight` iff past it with the form's bottom within the section. Absolute at `sectionBottom - formHeight` otherwise. The class "sticky" is present iff fixed. |
| Sticky.PastThresholdNeverRelative | js/sticky-form.js:35-35 | Once scrollY has reached the threshold, scrolling further never makes the form relative again. |
| Sticky.FixedThenAbsolute | js/sticky-form.js:35-36 | Past the threshold, a fixed form at some scroll position was fixed at every smaller position past the threshold. |
| Sticky.FixedUnreachable | js/sticky-form.js:22-47 | With `sectionBottom = navbarOffset + navbarHeight` and a positive total height, the form is never fixed. Past the threshold it always sits absolute at `navbarOffset + navbarHeight - formHeight`. |
| Sticky.StickyForm.constructor | js/sticky-form.js:4-22 | The offsets are captured once, with `sectionBottom` at the bottom of the navbar. The handler is installed iff both elements exist. |
| Sticky.StickyForm.OnScroll | js/sticky-form.js:29-55 | The new style is the scroll decision for the captured offsets. When the handler was never installed, nothing changes. On the real page with a positive total height, the form is never sticky. |

## Left out

- Reading and writing the DOM is not modelled:
  - `parseFloat`/`parseInt` on the form fields; the form entries are a given record;
  - the table and summary `innerHTML`, `updateSummary`, `updateScenarioTable` and the row highlight classes;
  - the download buttons and the visibility of the scenario controls;
  - `console.*`, `alert` and its `"Error: "` prefix. An alert is returned as its message.
- The Chart.js charts (`renderCharts`) and the jsPDF export (`downloadPDF`) are not modelled: they are rendering through foreign libraries.
- `Date.now()` becomes the parameter `now` of `SaveScenario`. The click event of a delete button becomes the parsed id.
- Dead state is left out: `calculationCache` and `useRecommendedAge` are never read. The `isSelfSustaining` flag of `saveScenario` is written and never read.
- IEEE-754 doubles are exact reals: rounding error, overflow to Infinity and `toLocaleString`/`toFixed` formatting are not modelled. The one Infinity, a withdrawal over a 0 beginning balance, resets the rate to 0 in the code. The model keeps the same branch, and `Projection.ZeroStartWithdrawsNothing` shows that the rate is only ever computed as 0/0 there.
- `Math.pow` is modelled only for whole exponents. Every exponent in the code is a difference of two validated integer ages.
- Quiz: a question's radios are abstracted as the parsed value of its checked radio, or no entry when none is checked. `QuizPage.Check` stands for the user's click, and `querySelectorAll` order is document order. The form reset is taken to clear every radio. A non-radio element whose name starts with "q" is not modelled. The radios of question i (from 0) are taken to be named `q` followed by i + 1; the page's HTML is not part of the model, and the double count of question 10 rests on this naming.
- Quiz: the progress text is modelled as its question number, and the result panel's HTML as `Report`. The result text is modelled by its `Verdict`: the three sentences are not modelled as strings.
- Sticky: the `offsetTop`/`offsetHeight` measurement is a constructor parameter. The form's style before the first scroll is the parameter `initial`.
- Projection.ReportingClamps: the rate is shown to be at least 0 only when the beginning balance is not negative. With a negative beginning balance the stored rate can be negative, which validation allows because returns down to -2000% pass the percent rules.
- RecommendedAge.BalanceMonotone: requires returns of at least -100%. Below that, a larger starting balance can end lower: a return of -500% passes the percent rule and turns 100 into -400.
- RecommendedAge.SustainableMonotone: requires returns of at least -100%. Below that, a larger balance can lose more, and the percent-rule scale does admit such returns.
- Scenarios.ScenarioNeededNonNegative: requires cost inflation of at least -100%. Validation admits fractions down to -5, that is -500%, for which inflated withdrawals alternate in sign.
