/** The result panel: the quiz attempt kept by the quiz view, the marking of
    each answer option, and the choice of what the panel shows. */
module ResultDisplay {
  import opened Types

  // ---------------------------------------------------------------------------
  // Quiz attempt: specification
  // ---------------------------------------------------------------------------

  /** One attempt at a quiz: the option picked for each question (None while
      unanswered) and the running score. */
  datatype Attempt = Attempt(selected: seq<Option<string>>, score: nat)

  /** Whether a selection earns the question's point. */
  predicate Earns(q: QuizQuestion, s: Option<string>)
  {
    s == Some(q.answer)
  }

  /** The number of questions whose selection equals their answer, counted
      from the last question backwards. */
  function Score(qs: seq<QuizQuestion>, sel: seq<Option<string>>): (n: nat)
    requires |qs| == |sel|
    ensures n <= |sel|
    decreases |sel|
  {
    if |sel| == 0 then 0
    else
      var k := |sel| - 1;
      Score(qs[..k], sel[..k]) + (if Earns(qs[k], sel[k]) then 1 else 0)
  }

  /** The indices of the questions answered correctly. */
  ghost function CorrectIndices(qs: seq<QuizQuestion>, sel: seq<Option<string>>): set<int>
    requires |qs| == |sel|
  {
    set i | 0 <= i < |sel| && Earns(qs[i], sel[i])
  }

  /** The score equals the number of correctly answered questions. */
  lemma {:induction false} ScoreCountsCorrectAnswers(qs: seq<QuizQuestion>, sel: seq<Option<string>>)
    requires |qs| == |sel|
    ensures Score(qs, sel) == |CorrectIndices(qs, sel)|
    decreases |sel|
  {
    if |sel| > 0 {
      var k := |sel| - 1;
      ScoreCountsCorrectAnswers(qs[..k], sel[..k]);
      var before := CorrectIndices(qs[..k], sel[..k]);
      var last: set<int> := if Earns(qs[k], sel[k]) then {k} else {};
      assert CorrectIndices(qs, sel) == before + last;
      assert k !in before;
    }
  }

  /** Every question unanswered. */
  function Unanswered(n: nat): (sel: seq<Option<string>>)
    ensures |sel| == n
    ensures forall i | 0 <= i < n :: sel[i] == None
  {
    seq(n, _ => None)
  }

  /** Nothing answered earns nothing. */
  lemma {:induction false} UnansweredScoresZero(qs: seq<QuizQuestion>)
    ensures Score(qs, Unanswered(|qs|)) == 0
    decreases |qs|
  {
    if |qs| > 0 {
      var k := |qs| - 1;
      assert Unanswered(|qs|)[..k] == Unanswered(k);
      UnansweredScoresZero(qs[..k]);
    }
  }

  /** Answering the unanswered question i adds exactly that question's point
      to the score. */
  lemma {:induction false} ScoreAfterAnswer(qs: seq<QuizQuestion>, sel: seq<Option<string>>, i: int, option: string)
    requires |qs| == |sel| && 0 <= i < |sel| && sel[i] == None
    ensures Score(qs, sel[i := Some(option)]) == Score(qs, sel) + (if option == qs[i].answer then 1 else 0)
    decreases |sel|
  {
    var k := |sel| - 1;
    var sel' := sel[i := Some(option)];
    if i == k {
      assert sel'[..k] == sel[..k];
    } else {
      assert sel'[..k] == sel[..k][i := Some(option)];
      ScoreAfterAnswer(qs[..k], sel[..k], i, option);
    }
  }

  /** The attempt invariant: one selection per question, and the score counts
      the correct selections. */
  predicate Consistent(qs: seq<QuizQuestion>, a: Attempt)
  {
    |a.selected| == |qs| && a.score == Score(qs, a.selected)
  }

  /** The attempt the view starts with, and the one "Try Again" restores. */
  function InitialAttempt(qs: seq<QuizQuestion>): (a: Attempt)
    ensures Consistent(qs, a)
    ensures a.score == 0 && |a.selected| == |qs|
    ensures forall i | 0 <= i < |qs| :: a.selected[i] == None
  {
    UnansweredScoresZero(qs);
    Attempt(Unanswered(|qs|), 0)
  }

  /** Choosing `option` for question i.  A question that already has an
      answer, or an index with no question (the source then reads `undefined`,
      which is not null), leaves the attempt as it is. */
  function Select(qs: seq<QuizQuestion>, a: Attempt, i: int, option: string): (r: Attempt)
    requires |a.selected| == |qs|
    ensures |r.selected| == |a.selected|
    ensures forall j | 0 <= j < |a.selected| && j != i :: r.selected[j] == a.selected[j]
    ensures !(0 <= i < |a.selected|) || a.selected[i].Some? ==> r == a
    ensures 0 <= i < |a.selected| && a.selected[i] == None ==>
              r.selected[i] == Some(option) &&
              r.score == a.score + (if option == qs[i].answer then 1 else 0)
  {
    if 0 <= i < |a.selected| && a.selected[i] == None then
      Attempt(a.selected[i := Some(option)], a.score + (if option == qs[i].answer then 1 else 0))
    else
      a
  }

  /** Selecting keeps the score equal to the number of correct answers. */
  lemma SelectKeepsConsistent(qs: seq<QuizQuestion>, a: Attempt, i: int, option: string)
    requires Consistent(qs, a)
    ensures Consistent(qs, Select(qs, a, i, option))
  {
    if 0 <= i < |a.selected| && a.selected[i] == None {
      ScoreAfterAnswer(qs, a.selected, i, option);
    }
  }

  /** `selectedAnswers.every(answer => answer !== null)`, checked from the
      first selection on: the quiz is finished once every question has a
      selection, and a quiz with no questions is finished from the start. */
  predicate IsQuizFinished(sel: seq<Option<string>>): (finished: bool)
    ensures finished <==> forall i | 0 <= i < |sel| :: sel[i] != None
    ensures |sel| == 0 ==> finished
    decreases |sel|
  {
    sel == [] || (sel[0] != None && IsQuizFinished(sel[1..]))
  }

  /** What the user can do to an attempt: pick an option, or "Try Again". */
  datatype Move = Choose(questionIndex: int, option: string) | TryAgain

  function Apply(qs: seq<QuizQuestion>, a: Attempt, m: Move): (r: Attempt)
    requires |a.selected| == |qs|
    ensures |r.selected| == |qs|
  {
    match m
    case Choose(i, option) => Select(qs, a, i, option)
    case TryAgain => InitialAttempt(qs)
  }

  /** The attempt after a sequence of moves. */
  function Run(qs: seq<QuizQuestion>, a: Attempt, moves: seq<Move>): (r: Attempt)
    requires |a.selected| == |qs|
    ensures |r.selected| == |qs|
    decreases |moves|
  {
    if moves == [] then a else Run(qs, Apply(qs, a, moves[0]), moves[1..])
  }

  /** From the initial attempt onward, whatever the user does, the score is the
      number of correctly answered questions and lies between 0 and the
      number of questions. */
  lemma {:induction false} RunKeepsConsistent(qs: seq<QuizQuestion>, a: Attempt, moves: seq<Move>)
    requires Consistent(qs, a)
    ensures Consistent(qs, Run(qs, a, moves))
    ensures Run(qs, a, moves).score == |CorrectIndices(qs, Run(qs, a, moves).selected)|
    ensures Run(qs, a, moves).score <= |qs|
    decreases |moves|
  {
    if moves == [] {
      ScoreCountsCorrectAnswers(qs, a.selected);
    } else {
      match moves[0] {
        case Choose(i, option) => SelectKeepsConsistent(qs, a, i, option);
        case TryAgain =>
      }
      RunKeepsConsistent(qs, Apply(qs, a, moves[0]), moves[1..]);
    }
  }

  /** "Try Again" forgets the previous attempt: what follows it ends in the
      same selections and score, whatever attempt it was pressed on. */
  lemma TryAgainForgetsAttempt(qs: seq<QuizQuestion>, a: Attempt, b: Attempt, moves: seq<Move>)
    requires |a.selected| == |qs| && |b.selected| == |qs|
    ensures Run(qs, a, [TryAgain] + moves) == Run(qs, b, [TryAgain] + moves)
    ensures Run(qs, a, [TryAgain] + moves) == Run(qs, InitialAttempt(qs), moves)
  {
    assert ([TryAgain] + moves)[1..] == moves;
  }

  /** Answering question i with opts[i], then questions i+1 .. n-1 with their
      own options, one after the other. */
  function AnswerFrom(qs: seq<QuizQuestion>, i: nat, opts: seq<string>): seq<Move>
    requires |opts| == |qs|
    decreases |qs| - i
  {
    if i >= |qs| then [] else [Choose(i, opts[i])] + AnswerFrom(qs, i + 1, opts)
  }

  /** Once every question from i on has been answered in turn, each with an
      option of its own, the quiz is finished (and the "Try Again" button is
      offered), whatever was picked before. */
  lemma {:induction false} AnsweringEveryQuestionFinishes(qs: seq<QuizQuestion>, a: Attempt, i: nat, opts: seq<string>)
    requires |a.selected| == |qs| && |opts| == |qs|
    requires forall j | 0 <= j < i && j < |qs| :: a.selected[j].Some?
    ensures IsQuizFinished(Run(qs, a, AnswerFrom(qs, i, opts)).selected)
    decreases |qs| - i
  {
    var moves := AnswerFrom(qs, i, opts);
    if i < |qs| {
      assert moves[0] == Choose(i, opts[i]) && moves[1..] == AnswerFrom(qs, i + 1, opts);
      AnsweringEveryQuestionFinishes(qs, Select(qs, a, i, opts[i]), i + 1, opts);
    }
  }

  /** Whether some move picks an option for question j. */
  predicate Chooses(moves: seq<Move>, j: int)
  {
    exists k | 0 <= k < |moves| :: moves[k].Choose? && moves[k].questionIndex == j
  }

  /** Once every question has been given an answer, in whatever order and
      with whatever options, and with no "Try Again" in between, the quiz is
      finished. */
  lemma {:induction false} AnsweredInAnyOrderFinishes(qs: seq<QuizQuestion>, a: Attempt, moves: seq<Move>)
    requires |a.selected| == |qs|
    requires forall j | 0 <= j < |qs| :: a.selected[j] != None || Chooses(moves, j)
    requires forall k | 0 <= k < |moves| :: moves[k].Choose?
    ensures IsQuizFinished(Run(qs, a, moves).selected)
    decreases |moves|
  {
    if moves != [] {
      var a' := Apply(qs, a, moves[0]);
      forall j | 0 <= j < |qs|
        ensures a'.selected[j] != None || Chooses(moves[1..], j)
      {
        if a'.selected[j] == None {
          var k :| 0 <= k < |moves| && moves[k].Choose? && moves[k].questionIndex == j;
          assert k != 0;
          assert moves[1..][k - 1] == moves[k];
        }
      }
      AnsweredInAnyOrderFinishes(qs, a', moves[1..]);
    }
  }

  /** After "Try Again" the quiz is unfinished unless it has no questions. */
  lemma TryAgainUnfinishes(qs: seq<QuizQuestion>)
    ensures IsQuizFinished(InitialAttempt(qs).selected) <==> |qs| == 0
  {
    if |qs| > 0 {
      assert InitialAttempt(qs).selected[0] == None;
    }
  }

  /** Five questions: the first answered correctly and the second wrongly give
      a score of 1 and an unfinished quiz. */
  lemma FiveQuestionScenario(qs: seq<QuizQuestion>, wrong: string, moves: seq<Move>)
    requires |qs| == 5 && wrong != qs[1].answer
    requires moves == [Choose(0, qs[0].answer), Choose(1, wrong)]
    ensures var a := Run(qs, InitialAttempt(qs), moves);
            a.score == 1 && !IsQuizFinished(a.selected) && a.selected[2] == None
  {
    var a0 := InitialAttempt(qs);
    var a1 := Select(qs, a0, 0, qs[0].answer);
    assert a1.score == 1 && a1.selected[1] == None && a1.selected[2] == None;
    var a2 := Select(qs, a1, 1, wrong);
    assert a2.score == 1 && a2.selected[2] == None;
    assert moves[1..] == [Choose(1, wrong)] && moves[1..][1..] == [];
    assert Run(qs, a1, moves[1..]) == Run(qs, a2, []) == a2;
    assert Run(qs, a0, moves) == Run(qs, a1, moves[1..]);
  }

  /** In a finished quiz every selection is ignored: the first answer to each
      question is final. */
  lemma FinishedQuizIgnoresSelections(qs: seq<QuizQuestion>, a: Attempt, i: int, option: string)
    requires |a.selected| == |qs| && IsQuizFinished(a.selected)
    ensures Select(qs, a, i, option) == a
  {
  }

  // ---------------------------------------------------------------------------
  // Quiz attempt: the view's state
  // ---------------------------------------------------------------------------

  /** The state of the quiz view: one selection per question and the score. */
  class QuizView {
    const questions: seq<QuizQuestion>
    var selectedAnswers: seq<Option<string>>
    var score: nat

    function CurrentAttempt(): Attempt
      reads this
    {
      Attempt(selectedAnswers, score)
    }

    predicate Valid()
      reads this
    {
      Consistent(questions, CurrentAttempt())
    }

    constructor (questions: seq<QuizQuestion>)
      ensures this.questions == questions
      ensures CurrentAttempt() == InitialAttempt(questions)
      ensures Valid()
    {
      this.questions := questions;
      selectedAnswers := Unanswered(|questions|);
      score := 0;
      UnansweredScoresZero(questions);
    }

    /** Records the first answer to a question and ignores later ones. */
    method HandleOptionSelect(questionIndex: int, option: string)
      requires Valid()
      modifies this
      ensures Valid()
      ensures CurrentAttempt() == Select(questions, old(CurrentAttempt()), questionIndex, option)
    {
      if !(0 <= questionIndex < |selectedAnswers|) || selectedAnswers[questionIndex] != None {
        return;
      }
      ScoreAfterAnswer(questions, selectedAnswers, questionIndex, option);
      var newSelectedAnswers := selectedAnswers[questionIndex := Some(option)];
      selectedAnswers := newSelectedAnswers;
      if option == questions[questionIndex].answer {
        score := score + 1;
      }
    }

    /** "Try Again": every question unanswered, score 0. */
    method ResetQuiz()
      requires Valid()
      modifies this
      ensures Valid()
      ensures CurrentAttempt() == InitialAttempt(questions)
    {
      selectedAnswers := Unanswered(|questions|);
      score := 0;
      UnansweredScoresZero(questions);
    }
  }

  // ---------------------------------------------------------------------------
  // Marking of answer options
  // ---------------------------------------------------------------------------

  /** How an option button is shown. */
  datatype Mark = Selectable | MarkedCorrect | MarkedWrong | Inert

  /** Before the question is answered every option can be picked; afterwards
      the correct option is highlighted (even when it was the one picked), a
      picked wrong option is flagged, and the rest are inert. */
  function MarkOption(userAnswer: Option<string>, correctAnswer: string, option: string): (m: Mark)
    ensures m == Selectable <==> userAnswer == None
    ensures m == MarkedCorrect <==> userAnswer.Some? && option == correctAnswer
    ensures m == MarkedWrong <==> userAnswer == Some(option) && option != correctAnswer
    ensures m == Inert <==> userAnswer.Some? && option != correctAnswer && option != userAnswer.value
  {
    if userAnswer == None then Selectable
    else if option == correctAnswer then MarkedCorrect
    else if option == userAnswer.value then MarkedWrong
    else Inert
  }

  /** The option just picked is highlighted as correct exactly when picking it
      earned the question's point, and flagged wrong exactly when it did not. */
  lemma MarkingAgreesWithScore(qs: seq<QuizQuestion>, a: Attempt, i: int, option: string)
    requires |a.selected| == |qs| && 0 <= i < |qs| && a.selected[i] == None
    ensures var r := Select(qs, a, i, option);
            (MarkOption(r.selected[i], qs[i].answer, option) == MarkedCorrect <==> r.score == a.score + 1) &&
            (MarkOption(r.selected[i], qs[i].answer, option) == MarkedWrong <==> r.score == a.score)
  {
  }

  /** When the question was answered correctly no option is flagged wrong, and
      when it was answered wrongly exactly the picked string is. */
  lemma AtMostPickedOptionIsWrong(q: QuizQuestion, picked: string, option: string)
    ensures MarkOption(Some(picked), q.answer, option) == MarkedWrong <==> option == picked && picked != q.answer
  {
  }

  // ---------------------------------------------------------------------------
  // What the result panel shows
  // ---------------------------------------------------------------------------

  /** The content of the result panel.  The three result views carry no
      payload: the source casts the result to the shape the action type names
      without looking at it. */
  datatype View =
    | ShowLoader
    | ShowError(message: string)
    | ShowPlaceholder
    | ShowSummary
    | ShowStudyPlan
    | ShowQuiz
    | ShowNothing

  /** The view that renders a result produced for `action`. */
  function ViewFor(action: ActionType): (v: View)
    ensures v == ShowSummary <==> action == Summary
    ensures v == ShowStudyPlan <==> action == Strategy
    ensures v == ShowQuiz <==> action == Quiz
  {
    match action
    case Summary => ShowSummary
    case Strategy => ShowStudyPlan
    case Quiz => ShowQuiz
  }

  /** Loading wins over an error, an error over a missing result; a present
      result is rendered by the action type alone, and with no action type
      nothing is rendered. */
  function Render(isLoading: bool, error: Option<string>, result: Option<ActionResult>, actionType: Option<ActionType>): (v: View)
    ensures v == ShowLoader <==> isLoading
    ensures v.ShowError? <==> !isLoading && IsTruthyText(error)
    ensures v.ShowError? ==> v.message == error.value
    ensures v == ShowPlaceholder <==> !isLoading && !IsTruthyText(error) && !IsTruthyResult(result)
    ensures v == ShowNothing <==> !isLoading && !IsTruthyText(error) && IsTruthyResult(result) && actionType == None
    ensures v in {ShowSummary, ShowStudyPlan, ShowQuiz} ==> actionType.Some? && v == ViewFor(actionType.value)
  {
    if isLoading then ShowLoader
    else if IsTruthyText(error) then ShowError(error.value)
    else if !IsTruthyResult(result) then ShowPlaceholder
    else
      match actionType
      case Some(action) => ViewFor(action)
      case None => ShowNothing
  }
}
