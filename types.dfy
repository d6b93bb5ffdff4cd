/** Value types shared by the study assistant: the three actions, the quiz and
    study-plan records, and the nullable result of an action.  Also the
    JavaScript truthiness tests the components apply to nullable strings and
    results. */
module Types {

  /** A nullable value (`T | null` in the source). */
  datatype Option<+T> = None | Some(value: T)

  /** The three actions a user can ask for. */
  datatype ActionType = Summary | Strategy | Quiz

  datatype QuizQuestion = QuizQuestion(question: string, options: seq<string>, answer: string)

  datatype StudyWeek = StudyWeek(week: int, title: string, goals: seq<string>)

  type StudyPlan = seq<StudyWeek>

  /** A non-null action result: a summary text, a study plan or a list of quiz
      questions.  The nullable result is `Option<ActionResult>`. */
  datatype ActionResult =
    | SummaryText(text: string)
    | Plan(plan: StudyPlan)
    | Questions(questions: seq<QuizQuestion>)

  /** The action whose generator produces a result of this shape. */
  function KindOf(r: ActionResult): ActionType
  {
    match r
    case SummaryText(_) => Summary
    case Plan(_) => Strategy
    case Questions(_) => Quiz
  }

  /** JavaScript truthiness of a `string | null`: null and "" are falsy. */
  predicate IsTruthyText(s: Option<string>): (t: bool)
    ensures s == None ==> !t
    ensures s == Some("") ==> !t
    ensures s.Some? && s.value != "" ==> t
  {
    s.Some? && s.value != ""
  }

  /** JavaScript truthiness of an `ActionResult`: null and the empty summary
      string are falsy; every array, even an empty one, is truthy. */
  predicate IsTruthyResult(r: Option<ActionResult>): (t: bool)
    ensures r == None ==> !t
    ensures r == Some(SummaryText("")) ==> !t
    ensures r.Some? && !(r.value.SummaryText? && r.value.text == "") ==> t
  {
    match r
    case None => false
    case Some(SummaryText(text)) => text != ""
    case Some(_) => true
  }
}
