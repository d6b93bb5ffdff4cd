# AI PDF Study Assistant — verified model of its client-side state

The study assistant is a single-page client. The user uploads a PDF, its text
is extracted page by page, and the user asks a hosted language model for a
summary, a four-week study plan or a multiple-choice quiz. This project models
the logic around those calls in Dafny and proves its properties:

- **`Types`** (`types.dfy`, from `types.ts`): the three action types, quiz
  questions, study weeks and the nullable action result. It also holds the
  JavaScript truthiness tests the components apply: `null` and `""` are falsy,
  and an array, even an empty one, is truthy.
- **`ResultDisplay`** (`result_display.dfy`, from `components/ResultDisplay.tsx`):
  - the quiz attempt. The `QuizView` class holds one selection per question and
    a score. Its methods are proved against the pure `Select` and
    `InitialAttempt`.
  - the invariant that the score is the number of correctly answered
    questions.
  - the marking of answer options.
  - the order in which the result panel picks what to show.
- **`Upload`** (`file_upload.dfy`, from `components/FileUpload.tsx`):
  - file validation, with the type check before the 20 MiB size check.
  - the loop that builds the document text from the pages' text items.
  - the form's message and processing flag.
- **`AppRoot`** (`app.dfy`, from `App.tsx`):
  - the six state fields as the class `App`. Its handlers are proved against
    pure transitions on `AppState`.
  - the action handler split into `BeginAction`, which applies the guard and
    sets the loading state, and `CompleteAction`, which takes the generator
    call's outcome as `Resolved(response)` or `Rejected(thrown)`.
  - a session lemma: when each request completes before the next event, every
    state keeps a result paired with the action that produced it. So the
    result panel's casts by action type are of the right shape when each
    reply has its generator's declared shape.

Where the design description and the code disagree, the model follows the code:

- The study plan is shown in the order the service returned it, not sorted by
  week number.
- A failed call shows the thrown Error's `message` (App.tsx:52), not a text
  chosen by the app. The service turns each failure into a fixed text per
  action, so in practice the message is that fixed text.
- Selecting an action without a document changes the error field, although the
  upload form hides it.
- A superseded request is not discarded: the completion writes its result
  whatever the state is (see `CompleteAction`).
- The processing flag is cleared as soon as the read has been started, not
  when extraction ends.

## Model

| member | source | states |
|---|---|---|
| `ResultDisplay.Score` | components/ResultDisplay.tsx:15 | the score never exceeds the number of questions |
| `ResultDisplay.ScoreCountsCorrectAnswers` | components/ResultDisplay.tsx:24-26 | the score equals the size of the set of indices whose selection equals that question's answer |
| `ResultDisplay.UnansweredScoresZero` | components/ResultDisplay.tsx:29-32 | all-unanswered selections are worth 0 points |
| `ResultDisplay.ScoreAfterAnswer` | components/ResultDisplay.tsx:24-26 | answering an unanswered question raises the count by 1 if the option equals its answer and by 0 otherwise |
| `ResultDisplay.InitialAttempt` | components/ResultDisplay.tsx:14-15 | the starting attempt has one unanswered entry per question and score 0, and satisfies the invariant |
| `ResultDisplay.Select` | components/ResultDisplay.tsx:17-27 | an answered question or an index with no question leaves the attempt unchanged; otherwise only entry i changes, to the option, the length is kept, and the score rises by 1 exactly when the option equals the answer |
| `ResultDisplay.SelectKeepsConsistent` | components/ResultDisplay.tsx:17-27 | selecting preserves "score = number of correct selections" and the length |
| `ResultDisplay.RunKeepsConsistent` | components/ResultDisplay.tsx:13-34 | after any sequence of selections and retries from a consistent attempt, the score counts the correct answers and lies in 0..number of questions |
| `ResultDisplay.TryAgainForgetsAttempt` | components/ResultDisplay.tsx:29-32 | after "Try Again" the outcome of the same later moves is the same whatever attempt preceded it, and equals a fresh attempt's |
| `ResultDisplay.IsQuizFinished` | components/ResultDisplay.tsx:34 | finished iff every entry is answered; a quiz with no questions is finished |
| `ResultDisplay.AnsweringEveryQuestionFinishes` | components/ResultDisplay.tsx:34 | answering every remaining question in index order, each with its own option, makes the quiz finished |
| `ResultDisplay.AnsweredInAnyOrderFinishes` | components/ResultDisplay.tsx:17-34 | any sequence of selections, in any order and with any options, that gives each unanswered question an answer makes the quiz finished |
| `ResultDisplay.TryAgainUnfinishes` | components/ResultDisplay.tsx:29-34 | after a reset the quiz is finished exactly when it has no questions |
| `ResultDisplay.FiveQuestionScenario` | components/ResultDisplay.tsx:17-34 | five questions, first answered right and second wrong: score 1, third still unanswered, quiz not finished |
| `ResultDisplay.FinishedQuizIgnoresSelections` | components/ResultDisplay.tsx:18 | in a finished quiz every selection is a no-op (first answer is final) |
| `ResultDisplay.QuizView.constructor` | components/ResultDisplay.tsx:13-15 | the view starts with every question unanswered and score 0, invariant established |
| `ResultDisplay.QuizView.HandleOptionSelect` | components/ResultDisplay.tsx:17-27 | the new selections and score are `Select` of the old ones, and the invariant is kept |
| `ResultDisplay.QuizView.ResetQuiz` | components/ResultDisplay.tsx:29-32 | selections all unanswered, score 0, same questions, invariant kept |
| `Types.IsTruthyText` | App.tsx:27 | null and "" are falsy, any other string truthy |
| `Types.IsTruthyResult` | components/ResultDisplay.tsx:144-148 | null and the empty summary are falsy; every other result, including an empty array, is truthy |
| `ResultDisplay.MarkOption` | components/ResultDisplay.tsx:57-72 | unanswered: every option selectable; answered: the answer is marked correct even if picked, a picked non-answer is marked wrong, all others inert (each as an iff) |
| `ResultDisplay.MarkingAgreesWithScore` | components/ResultDisplay.tsx:61-69 | the option just picked is marked correct iff picking it scored, and wrong iff it did not |
| `ResultDisplay.AtMostPickedOptionIsWrong` | components/ResultDisplay.tsx:64-72 | an option is marked wrong iff it is the picked one and the pick was not the answer |
| `ResultDisplay.ViewFor` | components/ResultDisplay.tsx:158-166 | the summary view is chosen iff the action is a summary, the study-plan view iff strategy, the quiz view iff quiz |
| `ResultDisplay.Render` | components/ResultDisplay.tsx:139-168 | loading wins over an error, a (non-empty) error over a falsy result (placeholder); a present result renders by action type alone, and with no action type renders nothing |
| `Upload.ValidationError` | components/FileUpload.tsx:17-25 | accepted iff a file is present, its type is exactly application/pdf and its size is at most 20 MiB; a missing or non-PDF file gets the type message, a PDF over the limit the size message |
| `Upload.TypeCheckedBeforeSize` | components/FileUpload.tsx:18-25 | an oversized non-PDF gets the type message |
| `Upload.SizeLimitIsInclusive` | components/FileUpload.tsx:22-24 | the limit is 20971520 bytes; exactly that size is accepted, one byte more is rejected |
| `Upload.Join` | components/FileUpload.tsx:46 | no items join to "", one item to itself, and several start with the first item and the separator |
| `Upload.JoinLength` | components/FileUpload.tsx:46 | joining n items adds exactly n-1 separators to their total length |
| `Upload.PageLine` | components/FileUpload.tsx:46 | a page's line ends with a newline, and before it are exactly the page's items joined by spaces |
| `Upload.PagesText` | components/FileUpload.tsx:42-47 | the text is empty iff there are no pages, and starts with the first page's line |
| `Upload.PagesTextAppend` | components/FileUpload.tsx:43-47 | appending a page appends exactly its items joined by spaces and one newline |
| `Upload.PagesTextShape` | components/FileUpload.tsx:42-47 | the text is empty iff there are no pages, and ends with a newline whenever there is a page |
| `Upload.OneNewlinePerPage` | components/FileUpload.tsx:43-47 | when no item holds a newline, the text holds exactly one newline per page |
| `Upload.ReaderOnLoad` | components/FileUpload.tsx:38-49 | the loop over pages 1..n builds exactly the pages' lines in order, and the file name is passed on unchanged |
| `Upload.FileUpload.constructor` | components/FileUpload.tsx:13-14 | no message, not processing |
| `Upload.FileUpload.HandleFileChange` | components/FileUpload.tsx:16-66 | a rejected file sets its message and starts nothing; an accepted one clears the message, starts the read when the PDF library is loaded and shows the processing-failure message otherwise; the flag ends cleared |
| `Upload.FileUpload.OnReadError` | components/FileUpload.tsx:50-53 | sets the read-failure message and clears the flag |
| `AppRoot.GeneratorFor` | App.tsx:39-49 | the generator called for an action is declared to return that action's result shape |
| `AppRoot.EachActionHasItsOwnGenerator` | App.tsx:39-49 | summary calls generateSummary, strategy generateStudyPlan, quiz generateQuiz, and no action calls another's generator |
| `AppRoot.FailureMessage` | App.tsx:52 | a thrown Error shows its own message; any other thrown value shows the unknown-error text |
| `AppRoot.HasDocument` | App.tsx:27 | a document is loaded iff the text is non-null and non-empty |
| `AppRoot.PdfProcessed` | App.tsx:18-24 | the new state is the initial one with the text and name stored and the loading flag kept; it is a document iff the text is non-empty |
| `AppRoot.Begin` | App.tsx:26-49 | without a document: only the error is set and no call issued; with one: the action's generator (declared to return that action's shape) is called on the text, loading is on, error and result cleared, action set, document kept |
| `AppRoot.Complete` | App.tsx:50-55 | loading ends; a resolved call stores its response as the result, a failed one stores its failure message as the error, nothing else changes |
| `AppRoot.Reset` | App.tsx:58-65 | every field null and loading off |
| `AppRoot.SelectWithoutDocument` | App.tsx:27-30 | with null or empty text: error set to the upload message, every other field unchanged, no call issued |
| `AppRoot.SelectWithDocument` | App.tsx:26-49 | with a document: loading on, error and result cleared, active action set, document untouched, the action's generator called on the document text, and the panel shows the loader |
| `AppRoot.PdfProcessedReplacesDocument` | App.tsx:18-24 | text and name stored; result, error and active action cleared; loading flag untouched |
| `AppRoot.ResetForgetsEverything` | App.tsx:58-65 | reset yields the initial all-null, not-loading state from any state |
| `AppRoot.SelectThenComplete` | App.tsx:50-55 | after a call resolves the response is the result and there is no error; after it fails the error is the thrown Error's message (or the unknown-error text) and there is no result; loading is off either way |
| `AppRoot.InitialIsSettled` | App.tsx:10-16 | the initial state satisfies the settled invariant |
| `AppRoot.StepKeepsSettled` | App.tsx:18-65 | each handler, with a completion of its generator's declared type, keeps: not loading, result paired with its action, never error and result together, no result or action without a document |
| `AppRoot.SessionKeepsSettled` | App.tsx:18-65 | every session of events from a settled state ends settled |
| `AppRoot.SettledRendersOwnResult` | components/ResultDisplay.tsx:157-168 | in a settled state a present result is rendered by the view of its own shape |
| `AppRoot.ProcessedPdfIsDocumentIffItHasPages` | App.tsx:80-81 | the extracted text of a PDF counts as a loaded document iff the PDF has at least one page |
| `AppRoot.App.constructor` | App.tsx:10-16 | all six fields start null or false |
| `AppRoot.App.HandlePdfProcessed` | App.tsx:18-24 | the new state is `PdfProcessed` of the old |
| `AppRoot.App.BeginAction` | App.tsx:26-49 | the new state and the issued call are `Begin` of the old state |
| `AppRoot.App.CompleteAction` | App.tsx:50-55 | the new state is `Complete` of the old |
| `AppRoot.App.HandleReset` | App.tsx:58-65 | the new state is `Reset` of the old |

## Left out

- The generation service (`services/geminiService.ts`) is not part of this model:
  - the network calls, the API key check and the prompts.
  - `JSON.parse` of the reply. A call is only `Resolved(response)` or
    `Rejected(thrown)`.
- A failed call, `Rejected(thrown)`, allows any message, because the
  service that throws the fixed per-action texts is not modelled.
- The response schemas (four options, answer among the options, weeks 1 to 4)
  are only sent with the request and never checked locally. The model does not
  assume them.
- AppRoot.StepKeepsSettled: assumes each reply has the shape its generator
  declares (`Conforms`). The source casts the parsed JSON without checking it,
  so a reply of another shape is not covered.
- AppRoot.SessionKeepsSettled: models each action's completion as arriving
  before the next event.
  - The action buttons are disabled while loading.
  - The "Upload a different file" button is not. A reset, or a reset and a new
    upload, between a request and its completion lets the stale completion
    write its result or error. `CompleteAction` models this write, but the
    session invariant does not cover it.
- Reading the file, `pdfjsLib.getDocument`/`getPage`/`getTextContent` and the
  worker URL are browser and library I/O.
  - A PDF is modelled as its pages, each the list of its text items' strings.
  - Whether the PDF library is loaded is a parameter.
  - Errors thrown inside the load callback are not caught by the surrounding
    try/catch, so they are not modelled.
- Upload.FileUpload.HandleFileChange: models the processing flag as written.
  The `finally` block clears it as soon as the read has been started, so it is
  not true while extraction runs.
- `components/ActionButtons.tsx` is not part of this model. It maps three
  buttons to constant action types.
- JSX markup, styles, icons, the loader, and the layout of the summary and
  study-plan views are left out. Only the choice of view is modelled.
- Concurrency between React renders is left out. Every handler runs to
  completion on the state it sees.
