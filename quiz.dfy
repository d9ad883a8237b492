/**
 * The diversification quiz: a cursor over ten questions moved by Next, Previous
 * and Reset, the button visibility of showQuestion, and calculateScore, which
 * sums the checked answers of two sections selected by radio-name prefix.
 *
 * The form is abstracted as a map from question index to the value of its
 * checked radio, already through `parseInt(value || "0")`; an index that is not
 * in the map has no checked radio. The radios of question i are named q(i+1).
 */
module Quiz {
  import opened JsMath

  const TotalQuestions: int := 10
  const MaxTotalScore: int := TotalQuestions * 20

  const AnswerFirstMessage := "Please answer the question before proceeding."
  const AnswerBeforeSubmitMessage := "Please answer the question before submitting."

  /** The decimal digits of `n`. */
  function NatToString(n: nat): string
    decreases n
  {
    if n < 10 then ["0123456789"[n]] else NatToString(n / 10) + ["0123456789"[n % 10]]
  }

  /** The name attribute of the radios of question `i`. */
  function QuestionName(i: nat): string {
    "q" + NatToString(i + 1)
  }

  /** The attribute selector `[name^="pre"]`. */
  predicate HasPrefix(name: string, pre: string) {
    |pre| <= |name| && name[..|pre|] == pre
  }

  /** A selector list `[name^="a"], [name^="b"], ...`: an element matches when any one of them does. */
  predicate MatchesAny(name: string, prefixes: seq<string>)
    decreases |prefixes|
  {
    |prefixes| > 0 && (HasPrefix(name, prefixes[0]) || MatchesAny(name, prefixes[1..]))
  }

  const AssetPrefixes: seq<string> := ["q1", "q2", "q3", "q4", "q5"]
  const RiskPrefixes: seq<string> := ["q6", "q7", "q8", "q9", "q10"]

  /** JavaScript `+` on numbers that may be NaN. */
  function Add(a: JsNum<int>, b: JsNum<int>): JsNum<int> {
    if a.NaN? || b.NaN? then NaN else Num(a.val + b.val)
  }

  /**
   * The reduce over the checked radios that match `prefixes`, among the
   * questions 0 .. n - 1 in document order; the selector list yields each radio once.
   */
  function SectionSum(answers: map<int, JsNum<int>>, prefixes: seq<string>, n: nat): JsNum<int>
    decreases n
  {
    if n == 0 then Num(0)
    else
      var rest := SectionSum(answers, prefixes, n - 1);
      if n - 1 in answers && MatchesAny(QuestionName(n - 1), prefixes) then Add(rest, answers[n - 1]) else rest
  }

  /** The questions among 0 .. n - 1 whose radios a selector list matches. */
  function Matching(prefixes: seq<string>, n: nat): seq<nat>
    decreases n
  {
    if n == 0 then []
    else Matching(prefixes, n - 1) + (if MatchesAny(QuestionName(n - 1), prefixes) then [n - 1] else [])
  }

  /** The sum of the answers of the listed questions; unanswered ones add nothing. */
  function SumAt(answers: map<int, JsNum<int>>, questions: seq<nat>): JsNum<int>
    decreases |questions|
  {
    if questions == [] then Num(0)
    else
      var q := questions[|questions| - 1];
      var rest := SumAt(answers, questions[..|questions| - 1]);
      if q in answers then Add(rest, answers[q]) else rest
  }

  /** The section sum is the sum over exactly the questions the selector list matches. */
  lemma {:induction false} SectionSumIsSumAt(answers: map<int, JsNum<int>>, prefixes: seq<string>, n: nat)
    ensures SectionSum(answers, prefixes, n) == SumAt(answers, Matching(prefixes, n))
  {
    if n > 0 {
      SectionSumIsSumAt(answers, prefixes, n - 1);
      var m := Matching(prefixes, n);
      if MatchesAny(QuestionName(n - 1), prefixes) {
        assert m[..|m| - 1] == Matching(prefixes, n - 1) && m[|m| - 1] == n - 1;
      } else {
        assert m == Matching(prefixes, n - 1);
      }
    }
  }

  lemma QuestionNames()
    ensures QuestionName(0) == "q1" && QuestionName(1) == "q2" && QuestionName(2) == "q3"
    ensures QuestionName(3) == "q4" && QuestionName(4) == "q5" && QuestionName(5) == "q6"
    ensures QuestionName(6) == "q7" && QuestionName(7) == "q8" && QuestionName(8) == "q9"
    ensures QuestionName(9) == "q10"
  {
    assert NatToString(10) == NatToString(1) + ['0'];
  }

  /** `[name^="q1"]` also matches q10: the asset-variety selector picks questions 1-5 and 10. */
  lemma AssetMember(i: nat)
    requires i < TotalQuestions
    ensures MatchesAny(QuestionName(i), AssetPrefixes) <==> i < 5 || i == 9
  {
    QuestionNames();
    if i == 0 { assert HasPrefix("q1", "q1"); }
    else if i == 1 { assert HasPrefix("q2", "q2"); }
    else if i == 2 { assert HasPrefix("q3", "q3"); }
    else if i == 3 { assert HasPrefix("q4", "q4"); }
    else if i == 4 { assert HasPrefix("q5", "q5"); }
    else if i == 9 { assert HasPrefix("q10", "q1"); }
    else {
      var name := QuestionName(i);
      assert |name| == 2 && name[0] == 'q' && name[1] != '1';
      assert !MatchesAny(name, AssetPrefixes[4..]);
      assert !MatchesAny(name, AssetPrefixes[3..]);
      assert !MatchesAny(name, AssetPrefixes[2..]);
      assert !MatchesAny(name, AssetPrefixes[1..]);
    }
  }

  /** The risk-correlation selector picks questions 6-10. */
  lemma RiskMember(i: nat)
    requires i < TotalQuestions
    ensures MatchesAny(QuestionName(i), RiskPrefixes) <==> i >= 5
  {
    QuestionNames();
    if i == 5 { assert HasPrefix("q6", "q6"); }
    else if i == 6 { assert HasPrefix("q7", "q7"); }
    else if i == 7 { assert HasPrefix("q8", "q8"); }
    else if i == 8 { assert HasPrefix("q9", "q9"); }
    else if i == 9 { assert HasPrefix("q10", "q10"); }
    else {
      var name := QuestionName(i);
      assert |name| == 2 && name[0] == 'q' && name[1] < '6';
      assert !MatchesAny(name, RiskPrefixes[4..]);
      assert !MatchesAny(name, RiskPrefixes[3..]);
      assert !MatchesAny(name, RiskPrefixes[2..]);
      assert !MatchesAny(name, RiskPrefixes[1..]);
    }
  }


  /** The questions lo .. n - 1 in increasing order. */
  function Between(lo: nat, n: nat): seq<nat>
    decreases n
  {
    if n <= lo then [] else Between(lo, n - 1) + [n - 1]
  }

  /** The first five questions all match the asset-variety selector. */
  lemma {:induction false} AssetMatchingFirst(n: nat)
    requires n <= 5
    ensures Matching(AssetPrefixes, n) == Between(0, n)
  {
    if n > 0 {
      AssetMatchingFirst(n - 1);
      AssetMember(n - 1);
    }
  }

  /** Questions 6-9 do not match the asset-variety selector. */
  lemma {:induction false} AssetMatchingMiddle(n: nat)
    requires 5 <= n < TotalQuestions
    ensures Matching(AssetPrefixes, n) == Between(0, 5)
  {
    if n == 5 {
      AssetMatchingFirst(5);
    } else {
      AssetMatchingMiddle(n - 1);
      AssetMember(n - 1);
    }
  }

  lemma {:induction false} RiskMatching(n: nat)
    requires n <= TotalQuestions
    ensures Matching(RiskPrefixes, n) == Between(5, n)
  {
    if n > 0 {
      RiskMatching(n - 1);
      RiskMember(n - 1);
      var before := Matching(RiskPrefixes, n - 1);
      if n <= 5 {
        assert Matching(RiskPrefixes, n) == before;
      } else {
        assert Matching(RiskPrefixes, n) == before + [n - 1];
      }
    }
  }

  /** Questions 1-5 and 10, as indices. */
  const AssetQuestions: seq<nat> := Between(0, 5) + [9]
  /** Questions 6-10, as indices. */
  const RiskQuestions: seq<nat> := Between(5, 10)

  /** The questions each section selector matches, in document order. */
  lemma SectionMembers()
    ensures Matching(AssetPrefixes, TotalQuestions) == AssetQuestions
    ensures Matching(RiskPrefixes, TotalQuestions) == RiskQuestions
  {
    AssetMatchingMiddle(9);
    AssetMember(9);
    assert Matching(AssetPrefixes, 10) == Matching(AssetPrefixes, 9) + [9];
    RiskMatching(TotalQuestions);
  }

  /** A sum is NaN iff one of the summed answers is NaN. */
  lemma {:induction false} SumAtNaN(answers: map<int, JsNum<int>>, questions: seq<nat>)
    ensures SumAt(answers, questions).NaN? <==>
      exists j :: 0 <= j < |questions| && questions[j] in answers && answers[questions[j]].NaN?
    decreases |questions|
  {
    if questions != [] {
      var init := questions[..|questions| - 1];
      SumAtNaN(answers, init);
      if exists j :: 0 <= j < |init| && init[j] in answers && answers[init[j]].NaN? {
        var j :| 0 <= j < |init| && init[j] in answers && answers[init[j]].NaN?;
        assert questions[j] == init[j];
      }
      if exists j :: 0 <= j < |questions| && questions[j] in answers && answers[questions[j]].NaN? {
        var j :| 0 <= j < |questions| && questions[j] in answers && answers[questions[j]].NaN?;
        if j < |init| {
          assert init[j] == questions[j];
        }
      }
    }
  }

  /** sectionScores after the NaN check: both sums, or both 0 when either is NaN. */
  datatype SectionScores = SectionScores(assetVariety: int, riskCorrelation: int)

  function ScoresOf(answers: map<int, JsNum<int>>): SectionScores {
    var asset := SectionSum(answers, AssetPrefixes, TotalQuestions);
    var risk := SectionSum(answers, RiskPrefixes, TotalQuestions);
    if asset.NaN? || risk.NaN? then SectionScores(0, 0) else SectionScores(asset.val, risk.val)
  }

  /** The value a question contributes to a sum: its answer, 0 when unanswered. */
  function ValueAt(answers: map<int, JsNum<int>>, i: int): int {
    if i in answers && answers[i].Num? then answers[i].val else 0
  }

  lemma {:induction false} BetweenIndex(lo: nat, n: nat)
    ensures |Between(lo, n)| == if n <= lo then 0 else n - lo
    ensures forall j :: 0 <= j < |Between(lo, n)| ==> Between(lo, n)[j] == lo + j
    decreases n
  {
    if n > lo {
      BetweenIndex(lo, n - 1);
    }
  }

  /** The asset-variety sum is the sum over questions 1-5 and 10. */
  lemma AssetSum(answers: map<int, JsNum<int>>)
    ensures SectionSum(answers, AssetPrefixes, TotalQuestions) == SumAt(answers, AssetQuestions)
  {
    SectionMembers();
    SectionSumIsSumAt(answers, AssetPrefixes, TotalQuestions);
  }

  /** The risk-correlation sum is the sum over questions 6-10. */
  lemma RiskSum(answers: map<int, JsNum<int>>)
    ensures SectionSum(answers, RiskPrefixes, TotalQuestions) == SumAt(answers, RiskQuestions)
  {
    SectionMembers();
    SectionSumIsSumAt(answers, RiskPrefixes, TotalQuestions);
  }

  /** The listed questions of both sections are questions of the quiz, and together they are all ten. */
  lemma SectionQuestions()
    ensures forall j :: 0 <= j < |AssetQuestions| ==> AssetQuestions[j] < TotalQuestions
    ensures forall j :: 0 <= j < |RiskQuestions| ==> RiskQuestions[j] < TotalQuestions
    ensures forall i :: 0 <= i < 5 ==> AssetQuestions[i] == i
    ensures AssetQuestions[5] == 9
    ensures forall j :: 0 <= j < 5 ==> RiskQuestions[j] == j + 5
  {
    BetweenIndex(0, 5);
    BetweenIndex(5, 10);
  }

  /**
   * The scores in terms of the questions: the asset score is the sum of the
   * answers to questions 1-5 and 10, the risk score that of 6-10, and a NaN
   * answer to any question resets both scores to 0.
   */
  lemma ScoresByQuestion(answers: map<int, JsNum<int>>)
    ensures var s := ScoresOf(answers);
      if exists i :: 0 <= i < TotalQuestions && i in answers && answers[i].NaN? then s == SectionScores(0, 0)
      else s == SectionScores(PlainSum(answers, AssetQuestions), PlainSum(answers, RiskQuestions))
  {
    AssetSum(answers);
    RiskSum(answers);
    SectionQuestions();
    SumAtNaN(answers, AssetQuestions);
    SumAtNaN(answers, RiskQuestions);
    if exists i :: 0 <= i < TotalQuestions && i in answers && answers[i].NaN? {
      var i :| 0 <= i < TotalQuestions && i in answers && answers[i].NaN?;
      if i < 5 {
        assert AssetQuestions[i] == i;
      } else {
        assert RiskQuestions[i - 5] == i;
      }
    } else {
      SumAtValues(answers, AssetQuestions);
      SumAtValues(answers, RiskQuestions);
    }
  }

  /** Without NaN among the listed answers, their sum is the plain sum of their values. */
  lemma {:induction false} SumAtValues(answers: map<int, JsNum<int>>, questions: seq<nat>)
    requires forall j :: 0 <= j < |questions| && questions[j] in answers ==> answers[questions[j]].Num?
    ensures SumAt(answers, questions) == Num(PlainSum(answers, questions))
    decreases |questions|
  {
    if questions != [] {
      SumAtValues(answers, questions[..|questions| - 1]);
    }
  }

  function PlainSum(answers: map<int, JsNum<int>>, questions: seq<nat>): int
    decreases |questions|
  {
    if questions == [] then 0
    else PlainSum(answers, questions[..|questions| - 1]) + ValueAt(answers, questions[|questions| - 1])
  }

  /** The three verdicts of calculateScore, one per sentence its result text can show. */
  datatype Verdict = TrueDiversification | ModeratelyDiversified | PortfolioIllusion

  /** totalPercentage = totalScore / maxTotalScore * 100. */
  function Percentage(totalScore: int): real {
    totalScore as real / MaxTotalScore as real * 100.0
  }

  /** The if/else chain on the percentage: at least 80, at least 50, otherwise. */
  function Classify(percentage: real): Verdict {
    if percentage >= 80.0 then TrueDiversification
    else if percentage >= 50.0 then ModeratelyDiversified
    else PortfolioIllusion
  }

  /** Out of 200 points, 160 or more is true diversification and 100 to 159 moderate. */
  lemma ClassifyByScore(totalScore: int)
    ensures Classify(Percentage(totalScore)) == TrueDiversification <==> totalScore >= 160
    ensures Classify(Percentage(totalScore)) == ModeratelyDiversified <==> 100 <= totalScore < 160
    ensures Classify(Percentage(totalScore)) == PortfolioIllusion <==> totalScore < 100
  {
    assert Percentage(totalScore) == totalScore as real / 2.0;
  }

  /** The result panel calculateScore writes: the score line, the verdict and the two sections. */
  datatype Report = Report(
    totalScore: int,
    maxTotalScore: int,
    percentage: real,
    verdict: Verdict,
    assetVariety: int,
    riskCorrelation: int)

  /**
   * The panel for two section scores: out of 200 points, 160 or more is true
   * diversification, 100 to 159 moderate, anything less the illusion; the
   * percentage shown is half the total.
   */
  function ReportOf(s: SectionScores): (r: Report)
    ensures r.totalScore == s.assetVariety + s.riskCorrelation && r.maxTotalScore == 200
    ensures r.percentage == r.totalScore as real / 2.0
    ensures r.verdict == TrueDiversification <==> r.totalScore >= 160
    ensures r.verdict == ModeratelyDiversified <==> 100 <= r.totalScore < 160
    ensures r.verdict == PortfolioIllusion <==> r.totalScore < 100
    ensures r.assetVariety == s.assetVariety && r.riskCorrelation == s.riskCorrelation
  {
    var total := s.assetVariety + s.riskCorrelation;
    ClassifyByScore(total);
    var verdict := Classify(Percentage(total));
    Report(total, MaxTotalScore, Percentage(total), verdict, s.assetVariety, s.riskCorrelation)
  }

  /** What showQuestion leaves on screen: the active question, the progress number and four buttons. */
  datatype View = View(
    activeQuestion: int,
    progressNumber: int,
    prevShown: bool,
    nextShown: bool,
    submitShown: bool,
    resetShown: bool)

  function ShowQuestion(index: int): View {
    View(index, index + 1, index != 0, index != TotalQuestions - 1, index == TotalQuestions - 1, false)
  }

  /**
   * The navigation buttons: Previous is hidden exactly on the first question,
   * Next exactly on the last, where Submit replaces it; every call hides Reset.
   */
  lemma ShowQuestionButtons(index: int)
    ensures !ShowQuestion(index).prevShown <==> index == 0
    ensures !ShowQuestion(index).nextShown <==> index == TotalQuestions - 1
    ensures ShowQuestion(index).submitShown <==> index == TotalQuestions - 1
    ensures ShowQuestion(index).nextShown != ShowQuestion(index).submitShown
    ensures !ShowQuestion(index).resetShown
    ensures ShowQuestion(index).activeQuestion == index && ShowQuestion(index).progressNumber == index + 1
  {
  }

  /**
   * On a page in any reachable state the navigation follows the cursor: the
   * progress reads 1 to 10, Previous is offered except on the first question,
   * and exactly one of Next and Submit is offered, Submit only on the last.
   */
  lemma PageButtons(page: QuizPage)
    requires page.Valid()
    ensures 1 <= page.view.progressNumber <= TotalQuestions
    ensures page.view.prevShown <==> page.currentQuestion != 0
    ensures page.view.submitShown <==> page.currentQuestion == TotalQuestions - 1
    ensures page.view.nextShown != page.view.submitShown
  {
    ShowQuestionButtons(page.currentQuestion);
  }

  predicate IsAnswered(answers: map<int, JsNum<int>>, question: int) {
    question in answers
  }

  /** The page: the cursor, the form, the section scores, the result panel and the view. */
  class QuizPage {
    var currentQuestion: int
    var answers: map<int, JsNum<int>>
    var sectionScores: SectionScores
    var result: Option<Report>
    var view: View

    /** The cursor stays on a question, and the view shows it (up to the Reset button). */
    predicate Valid()
      reads this
    {
      && 0 <= currentQuestion < TotalQuestions
      && view.(resetShown := false) == ShowQuestion(currentQuestion)
    }

    /** The page as loaded: DOMContentLoaded shows question 0; nothing is checked. */
    constructor()
      ensures Valid()
      ensures currentQuestion == 0 && answers == map[] && view == ShowQuestion(0)
      ensures sectionScores == SectionScores(0, 0) && result.None?
    {
      currentQuestion := 0;
      answers := map[];
      sectionScores := SectionScores(0, 0);
      result := None;
      view := ShowQuestion(0);
    }

    /** The user checks the radio with value `value` of question `question`; the script does not run. */
    method Check(question: int, value: JsNum<int>)
      modifies this
      requires Valid()
      requires 0 <= question < TotalQuestions
      ensures Valid()
      ensures answers == old(answers)[question := value]
      ensures currentQuestion == old(currentQuestion) && view == old(view)
      ensures sectionScores == old(sectionScores) && result == old(result)
    {
      answers := answers[question := value];
    }

    /** nextQuestion: refuses while the current question is unanswered, and stops at the last one. */
    method NextQuestion() returns (alert: Option<string>)
      modifies this
      requires Valid()
      ensures Valid()
      ensures !IsAnswered(old(answers), old(currentQuestion)) ==>
        alert == Some(AnswerFirstMessage) && currentQuestion == old(currentQuestion) && view == old(view)
      ensures IsAnswered(old(answers), old(currentQuestion)) && old(currentQuestion) < TotalQuestions - 1 ==>
        alert.None? && currentQuestion == old(currentQuestion) + 1 && view == ShowQuestion(currentQuestion)
      ensures IsAnswered(old(answers), old(currentQuestion)) && old(currentQuestion) == TotalQuestions - 1 ==>
        alert.None? && currentQuestion == old(currentQuestion) && view == old(view)
      ensures answers == old(answers) && sectionScores == old(sectionScores) && result == old(result)
    {
      if !IsAnswered(answers, currentQuestion) {
        return Some(AnswerFirstMessage);
      }
      if currentQuestion < TotalQuestions - 1 {
        currentQuestion := currentQuestion + 1;
        view := ShowQuestion(currentQuestion);
      }
      return None;
    }

    /** prevQuestion: steps back unless on the first question; no answer is needed. */
    method PrevQuestion()
      modifies this
      requires Valid()
      ensures Valid()
      ensures old(currentQuestion) > 0 ==> currentQuestion == old(currentQuestion) - 1 && view == ShowQuestion(currentQuestion)
      ensures old(currentQuestion) == 0 ==> currentQuestion == 0 && view == old(view)
      ensures answers == old(answers) && sectionScores == old(sectionScores) && result == old(result)
    {
      if currentQuestion > 0 {
        currentQuestion := currentQuestion - 1;
        view := ShowQuestion(currentQuestion);
      }
    }

    /**
     * calculateScore: refuses while the current question is unanswered; otherwise
     * stores the section scores, writes the result and shows the Reset button.
     */
    method CalculateScore() returns (alert: Option<string>)
      modifies this
      requires Valid()
      ensures Valid()
      ensures !IsAnswered(old(answers), old(currentQuestion)) ==>
        alert == Some(AnswerBeforeSubmitMessage) && sectionScores == old(sectionScores)
        && result == old(result) && view == old(view)
      ensures IsAnswered(old(answers), old(currentQuestion)) ==>
        && alert.None?
        && sectionScores == ScoresOf(answers)
        && result == Some(ReportOf(sectionScores))
        && view == old(view).(resetShown := true)
      ensures currentQuestion == old(currentQuestion) && answers == old(answers)
    {
      if !IsAnswered(answers, currentQuestion) {
        return Some(AnswerBeforeSubmitMessage);
      }
      sectionScores := ScoresOf(answers);
      result := Some(ReportOf(sectionScores));
      view := view.(resetShown := true);
      return None;
    }

    /** resetQuiz: back to question 0 with the form cleared and the result emptied; the section scores stay. */
    method ResetQuiz()
      modifies this
      requires Valid()
      ensures Valid()
      ensures currentQuestion == 0 && answers == map[] && result.None? && view == ShowQuestion(0)
      ensures sectionScores == old(sectionScores)
    {
      currentQuestion := 0;
      answers := map[];
      result := None;
      view := ShowQuestion(0);
    }
  }
}
