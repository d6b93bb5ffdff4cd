/** The application root: the six pieces of state it holds and the handlers
    that change them.  The generation service is not modelled; a request is
    the generator called and the text sent, and its resolution is an abstract
    completion. */
module AppRoot {
  import opened Types
  import ResultDisplay
  import Upload

  const NoDocumentMessage := "Please upload a PDF first."
  const UnknownErrorMessage := "An unknown error occurred."

  // ---------------------------------------------------------------------------
  // Generators
  // ---------------------------------------------------------------------------

  /** The three functions of the generation service. */
  datatype Generator = GenerateSummary | GenerateStudyPlan | GenerateQuiz

  /** The result shape each generator is declared to resolve to. */
  function ReturnKind(g: Generator): ActionType
  {
    match g
    case GenerateSummary => Summary
    case GenerateStudyPlan => Strategy
    case GenerateQuiz => Quiz
  }

  /** The generator the action handler calls for each action. */
  function GeneratorFor(action: ActionType): (g: Generator)
    ensures ReturnKind(g) == action
  {
    match action
    case Summary => GenerateSummary
    case Strategy => GenerateStudyPlan
    case Quiz => GenerateQuiz
  }

  /** Each action calls its own generator and no other. */
  lemma EachActionHasItsOwnGenerator(g: Generator, action: ActionType)
    ensures GeneratorFor(action) == g <==> ReturnKind(g) == action
  {
  }

  /** What was thrown when a call failed: an Error object or any other value. */
  datatype Thrown = ErrorValue(message: string) | OtherValue

  /** How a generator call ended. */
  datatype Completion = Resolved(response: ActionResult) | Rejected(thrown: Thrown)

  /** A completion of the shape the generator's declared type promises. */
  predicate Conforms(g: Generator, c: Completion)
  {
    c.Resolved? ==> KindOf(c.response) == ReturnKind(g)
  }

  /** The text shown for a failed call. */
  function FailureMessage(t: Thrown): (m: string)
    ensures t.ErrorValue? ==> m == t.message
    ensures t == OtherValue ==> m == UnknownErrorMessage
  {
    match t
    case ErrorValue(message) => message
    case OtherValue => UnknownErrorMessage
  }

  /** One call of the generation service. */
  datatype Call = Call(generator: Generator, text: string)

  // ---------------------------------------------------------------------------
  // State and transitions: specification
  // ---------------------------------------------------------------------------

  datatype AppState = AppState(
    pdfText: Option<string>,
    fileName: Option<string>,
    isLoading: bool,
    error: Option<string>,
    result: Option<ActionResult>,
    activeAction: Option<ActionType>)

  function Initial(): AppState
  {
    AppState(None, None, false, None, None, None)
  }

  /** A document is loaded when the text is neither null nor empty. */
  predicate HasDocument(s: AppState): (loaded: bool)
    ensures loaded <==> s.pdfText.Some? && s.pdfText.value != ""
  {
    IsTruthyText(s.pdfText)
  }

  /** A processed PDF replaces the document and clears the previous outcome. */
  function PdfProcessed(s: AppState, text: string, name: string): (t: AppState)
    ensures t == Initial().(pdfText := Some(text), fileName := Some(name), isLoading := s.isLoading)
    ensures HasDocument(t) <==> text != ""
  {
    s.(pdfText := Some(text), fileName := Some(name), result := None, error := None, activeAction := None)
  }

  /** The new state after the synchronous part of selecting an action, and the
      generator call it issues, if any. */
  datatype Began = Began(state: AppState, call: Option<Call>)

  function Begin(s: AppState, action: ActionType): (b: Began)
    ensures !HasDocument(s) ==> b.call == None && b.state == s.(error := Some(NoDocumentMessage))
    ensures HasDocument(s) ==>
              && b.call == Some(Call(GeneratorFor(action), s.pdfText.value))
              && ReturnKind(b.call.value.generator) == action
              && b.state.isLoading && b.state.error == None && b.state.result == None
              && b.state.activeAction == Some(action)
              && b.state.pdfText == s.pdfText && b.state.fileName == s.fileName
  {
    if !HasDocument(s) then
      Began(s.(error := Some(NoDocumentMessage)), None)
    else
      Began(s.(isLoading := true, error := None, result := None, activeAction := Some(action)),
            Some(Call(GeneratorFor(action), s.pdfText.value)))
  }

  /** The call resolved or failed; loading ends either way. */
  function Complete(s: AppState, c: Completion): (t: AppState)
    ensures !t.isLoading
    ensures c.Resolved? ==> t == s.(result := Some(c.response), isLoading := false)
    ensures c.Rejected? ==> t == s.(error := Some(FailureMessage(c.thrown)), isLoading := false)
  {
    match c
    case Resolved(response) => s.(result := Some(response), isLoading := false)
    case Rejected(thrown) => s.(error := Some(FailureMessage(thrown)), isLoading := false)
  }

  function Reset(s: AppState): (t: AppState)
    ensures t.pdfText == None && t.fileName == None && !t.isLoading
    ensures t.error == None && t.result == None && t.activeAction == None
  {
    Initial()
  }

  // ---------------------------------------------------------------------------
  // Properties of single transitions
  // ---------------------------------------------------------------------------

  /** With no document, selecting an action only sets the message, and no
      generator is called. */
  lemma SelectWithoutDocument(s: AppState, action: ActionType)
    requires s.pdfText == None || s.pdfText == Some("")
    ensures Begin(s, action).call == None
    ensures Begin(s, action).state.error == Some(NoDocumentMessage)
    ensures Begin(s, action).state.(error := s.error) == s
  {
  }

  /** With a document, selecting an action calls that action's generator on
      the document text and shows the loader at once. */
  lemma SelectWithDocument(s: AppState, action: ActionType)
    requires HasDocument(s)
    ensures Begin(s, action).call == Some(Call(GeneratorFor(action), s.pdfText.value))
    ensures var t := Begin(s, action).state;
            t.isLoading && t.error == None && t.result == None && t.activeAction == Some(action) &&
            t.pdfText == s.pdfText && t.fileName == s.fileName
    ensures var t := Begin(s, action).state;
            ResultDisplay.Render(t.isLoading, t.error, t.result, t.activeAction) == ResultDisplay.ShowLoader
  {
  }

  /** A processed PDF is stored with its name; any outcome is cleared and the
      loading flag is left alone. */
  lemma PdfProcessedReplacesDocument(s: AppState, text: string, name: string)
    ensures var t := PdfProcessed(s, text, name);
            t.pdfText == Some(text) && t.fileName == Some(name) &&
            t.result == None && t.error == None && t.activeAction == None &&
            t.isLoading == s.isLoading
  {
  }

  /** Reset forgets everything, whatever the state was. */
  lemma ResetForgetsEverything(s: AppState, s': AppState)
    ensures Reset(s) == Reset(s') == AppState(None, None, false, None, None, None)
  {
  }

  // ---------------------------------------------------------------------------
  // Sessions: handlers run one after the other
  // ---------------------------------------------------------------------------

  /** A user-visible event.  Selecting an action is followed by the completion
      of the call it issued, before anything else happens (the action buttons
      are disabled while loading). */
  datatype Event =
    | DocumentProcessed(text: string, name: string)
    | ActionSelected(action: ActionType, completion: Completion)
    | ResetClicked

  function Step(s: AppState, e: Event): AppState
  {
    match e
    case DocumentProcessed(text, name) => PdfProcessed(s, text, name)
    case ActionSelected(action, completion) =>
      var b := Begin(s, action);
      if b.call == None then b.state else Complete(b.state, completion)
    case ResetClicked => Reset(s)
  }

  function RunSession(s: AppState, events: seq<Event>): AppState
    decreases |events|
  {
    if events == [] then s else RunSession(Step(s, events[0]), events[1..])
  }

  /** Every completion in the session has the shape its generator promises. */
  predicate WellTyped(events: seq<Event>)
  {
    forall i | 0 <= i < |events| && events[i].ActionSelected? ::
      Conforms(GeneratorFor(events[i].action), events[i].completion)
  }

  /** What holds between events: nothing is loading; a result is always paired
      with the action that produced it; an error and a result are never shown
      together; without a document there is neither result nor action. */
  predicate Settled(s: AppState)
  {
    && !s.isLoading
    && (s.result.Some? ==> s.activeAction == Some(KindOf(s.result.value)))
    && (s.error.Some? ==> s.result == None)
    && (!HasDocument(s) ==> s.result == None && s.activeAction == None)
  }

  /** The state the app starts in is settled. */
  lemma InitialIsSettled()
    ensures Settled(Initial())
  {
  }

  lemma StepKeepsSettled(s: AppState, e: Event)
    requires Settled(s)
    requires e.ActionSelected? ==> Conforms(GeneratorFor(e.action), e.completion)
    ensures Settled(Step(s, e))
  {
  }

  /** From the initial state, every sequence of events ends settled. */
  lemma {:induction false} SessionKeepsSettled(s: AppState, events: seq<Event>)
    requires Settled(s) && WellTyped(events)
    ensures Settled(RunSession(s, events))
    decreases |events|
  {
    if events != [] {
      StepKeepsSettled(s, events[0]);
      assert WellTyped(events[1..]) by {
        forall i | 0 <= i < |events[1..]| && events[1..][i].ActionSelected?
          ensures Conforms(GeneratorFor(events[1..][i].action), events[1..][i].completion)
        {
          assert events[1..][i] == events[i + 1];
        }
      }
      SessionKeepsSettled(Step(s, events[0]), events[1..]);
    }
  }

  /** In a settled state the panel shows a present result with the view for
      its own shape, so the casts the panel makes are of the right type. */
  lemma SettledRendersOwnResult(s: AppState)
    requires Settled(s) && IsTruthyResult(s.result)
    ensures ResultDisplay.Render(s.isLoading, s.error, s.result, s.activeAction) ==
            ResultDisplay.ViewFor(KindOf(s.result.value))
  {
  }

  /** A successful call shows its response; a failed one shows its message
      and no result. */
  lemma SelectThenComplete(s: AppState, action: ActionType, c: Completion)
    requires HasDocument(s)
    ensures var t := Step(s, ActionSelected(action, c));
            !t.isLoading && t.activeAction == Some(action) && t.pdfText == s.pdfText &&
            match c
            case Resolved(response) => t.result == Some(response) && t.error == None
            case Rejected(thrown) => t.result == None && t.error == Some(FailureMessage(thrown))
  {
  }

  /** A PDF with no pages yields the empty text, which is not a document: the
      app stays on the upload form.  Any page makes it a document. */
  lemma ProcessedPdfIsDocumentIffItHasPages(s: AppState, pages: seq<seq<string>>, name: string)
    ensures HasDocument(PdfProcessed(s, Upload.PagesText(pages), name)) <==> pages != []
  {
    Upload.PagesTextShape(pages);
  }

  // ---------------------------------------------------------------------------
  // The application's state
  // ---------------------------------------------------------------------------

  class App {
    var pdfText: Option<string>
    var fileName: Option<string>
    var isLoading: bool
    var error: Option<string>
    var result: Option<ActionResult>
    var activeAction: Option<ActionType>

    function State(): AppState
      reads this
    {
      AppState(pdfText, fileName, isLoading, error, result, activeAction)
    }

    constructor ()
      ensures State() == Initial()
    {
      pdfText, fileName := None, None;
      isLoading := false;
      error := None;
      result := None;
      activeAction := None;
    }

    method HandlePdfProcessed(text: string, name: string)
      modifies this
      ensures State() == PdfProcessed(old(State()), text, name)
    {
      pdfText := Some(text);
      fileName := Some(name);
      result := None;
      error := None;
      activeAction := None;
    }

    /** The synchronous part of the action handler: the guard, then the state
        shown while the call is pending.  Returns the call it issues. */
    method BeginAction(action: ActionType) returns (call: Option<Call>)
      modifies this
      ensures State() == Begin(old(State()), action).state
      ensures call == Begin(old(State()), action).call
    {
      if pdfText == None || pdfText.value == "" {
        error := Some(NoDocumentMessage);
        return None;
      }
      isLoading := true;
      error := None;
      result := None;
      activeAction := Some(action);
      var generator;
      match action {
        case Summary => generator := GenerateSummary;
        case Strategy => generator := GenerateStudyPlan;
        case Quiz => generator := GenerateQuiz;
      }
      call := Some(Call(generator, pdfText.value));
    }

    /** The rest of the action handler, once the call has resolved or failed. */
    method CompleteAction(c: Completion)
      modifies this
      ensures State() == Complete(old(State()), c)
    {
      match c {
        case Resolved(response) =>
          result := Some(response);
        case Rejected(ErrorValue(message)) =>
          error := Some(message);
        case Rejected(OtherValue) =>
          error := Some(UnknownErrorMessage);
      }
      isLoading := false;
    }

    method HandleReset()
      modifies this
      ensures State() == Reset(old(State()))
    {
      pdfText := None;
      fileName := None;
      isLoading := false;
      error := None;
      result := None;
      activeAction := None;
    }
  }
}
