/** The application state of src/main.rs (`JsonPreviewApp`, lines 11-59).

    The state is two optional fields, the document on display and the error
    banner. A press of "Open JSON File" ends in one of four outcomes, taken here
    as an input since the file dialog, the file read and the parser are outside
    the model; `OpenJsonFile` applies one of them. `Step` is the same transition on
    values, and `Run` folds it over a session of presses. */
module PreviewApp {
  import opened JsonValues
  import opened TreeRender

  datatype Option<T> = None | Some(value: T)

  /** How one press of "Open JSON File" ends: the dialog was cancelled, the
      chosen file could not be read, its text was not JSON, or it parsed. Each
      reason is the `Display` text of the underlying error. */
  datatype OpenOutcome =
    | Cancelled
    | ReadFailed(reason: string)
    | ParseFailed(reason: string)
    | Parsed(json: JsonValue)

  const ReadErrorPrefix: string := "Failed to read file: "
  const ParseErrorPrefix: string := "Failed to parse JSON: "

  datatype AppState = AppState(jsonData: Option<JsonValue>, error: Option<string>)

  /** `JsonPreviewApp::default()`: nothing loaded, no error. */
  const Initial: AppState := AppState(None, None)

  /** The open-file branch of `update`, on values. */
  function Step(s: AppState, outcome: OpenOutcome): AppState {
    match outcome
    case Cancelled => s
    case ReadFailed(e) => s.(error := Some(ReadErrorPrefix + e))
    case ParseFailed(e) => s.(error := Some(ParseErrorPrefix + e))
    case Parsed(json) => AppState(Some(json), None)
  }

  /** The state after a session of presses, first press first. */
  function Run(s: AppState, outcomes: seq<OpenOutcome>): AppState
    decreases |outcomes|
  {
    if outcomes == [] then s else Run(Step(s, outcomes[0]), outcomes[1..])
  }

  // ---------------------------------------------------------------------------
  // The class the source updates in place.
  // ---------------------------------------------------------------------------

  class JsonPreviewApp {
    var jsonData: Option<JsonValue>
    var error: Option<string>

    /** `JsonPreviewApp::default()`. */
    constructor ()
      ensures jsonData == None && error == None
    {
      jsonData := None;
      error := None;
    }

    function State(): AppState
      reads this
    {
      AppState(jsonData, error)
    }

    /** The open-file branch of `update`: success replaces the document and
        clears the error, a failure sets the error and keeps the document, a
        cancelled dialog changes nothing. */
    method OpenJsonFile(outcome: OpenOutcome)
      modifies this
      ensures outcome.Parsed? ==> jsonData == Some(outcome.json) && error == None
      ensures outcome.ReadFailed? ==>
        jsonData == old(jsonData) && error == Some(ReadErrorPrefix + outcome.reason)
      ensures outcome.ParseFailed? ==>
        jsonData == old(jsonData) && error == Some(ParseErrorPrefix + outcome.reason)
      ensures outcome.Cancelled? ==> jsonData == old(jsonData) && error == old(error)
      ensures State() == Step(old(State()), outcome)
    {
      match outcome
      case Cancelled =>
      case ReadFailed(e) =>
        error := Some(ReadErrorPrefix + e);
      case ParseFailed(e) =>
        error := Some(ParseErrorPrefix + e);
      case Parsed(json) =>
        jsonData := Some(json);
        error := None;
    }

    /** The drawing part of `update`: the error banner if there is an error,
        and the tree of the document, rendered from depth 0, if one is loaded. */
    method Show() returns (p: Panel)
      ensures p == View(State())
    {
      var tree := None;
      if jsonData.Some? {
        var ui := RenderJson(jsonData.value, 0);
        tree := Some(ui);
      }
      p := Panel(error, tree);
    }
  }

  /** What one frame shows: the error banner and the document's widget tree. */
  datatype Panel = Panel(banner: Option<string>, tree: Option<seq<Widget>>)

  function View(s: AppState): Panel {
    Panel(s.error, if s.jsonData.Some? then Some(Render(s.jsonData.value, 0)) else None)
  }

  // ---------------------------------------------------------------------------
  // One press.
  // ---------------------------------------------------------------------------

  /** After a press the banner is empty exactly when the file parsed, or when
      the dialog was cancelled and it was empty before. */
  lemma StepError(s: AppState, outcome: OpenOutcome)
    ensures Step(s, outcome).error.None? <==>
      outcome.Parsed? || (outcome.Cancelled? && s.error.None?)
  {
  }

  /** Only a successful parse changes the document, and it loads the parsed one. */
  lemma StepData(s: AppState, outcome: OpenOutcome)
    ensures Step(s, outcome).jsonData != s.jsonData ==> outcome.Parsed?
    ensures outcome.Parsed? ==> Step(s, outcome).jsonData == Some(outcome.json)
  {
  }

  /** A failed press leaves the previous tree on screen beside the new banner. */
  lemma StaleTreeAfterFailure(s: AppState, outcome: OpenOutcome)
    requires outcome.ReadFailed? || outcome.ParseFailed?
    ensures View(Step(s, outcome)).tree == View(s).tree
    ensures View(Step(s, outcome)).banner.Some?
  {
  }

  /** Opening the same file twice in a row, with the same outcome, gives the
      state the first opening gave. */
  lemma StepIdempotent(s: AppState, outcome: OpenOutcome)
    ensures Step(Step(s, outcome), outcome) == Step(s, outcome)
  {
  }

  /** The banner tells a read failure from a parse failure, and shows the
      underlying reason unchanged. */
  lemma ErrorMessagesDistinct(a: string, b: string)
    ensures ReadErrorPrefix + a != ParseErrorPrefix + b
    ensures (ReadErrorPrefix + a)[|ReadErrorPrefix|..] == a
    ensures (ParseErrorPrefix + b)[|ParseErrorPrefix|..] == b
  {
    assert (ReadErrorPrefix + a)[10] == 'r';
    assert (ParseErrorPrefix + b)[10] == 'p';
  }

  // ---------------------------------------------------------------------------
  // A session of presses.
  // ---------------------------------------------------------------------------

  function Last<T>(xs: seq<T>): T
    requires xs != []
  {
    xs[|xs| - 1]
  }

  /** The document of the latest press that parsed, if any. */
  function LatestParsed(outcomes: seq<OpenOutcome>): (r: Option<JsonValue>)
    ensures r.Some? ==>
      (exists k :: 0 <= k < |outcomes| && outcomes[k] == Parsed(r.value) &&
         forall j :: k < j < |outcomes| ==> !outcomes[j].Parsed?)
    ensures r.None? <==> forall i :: 0 <= i < |outcomes| ==> !outcomes[i].Parsed?
    decreases |outcomes|
  {
    if outcomes == [] then None
    else if Last(outcomes).Parsed? then Some(Last(outcomes).json)
    else LatestParsed(outcomes[..|outcomes| - 1])
  }

  /** The latest press whose dialog was not cancelled, if any. */
  function LatestAttempt(outcomes: seq<OpenOutcome>): (r: Option<OpenOutcome>)
    ensures r.Some? ==> !r.value.Cancelled?
    ensures r.Some? ==>
      (exists k :: 0 <= k < |outcomes| && outcomes[k] == r.value &&
         forall j :: k < j < |outcomes| ==> outcomes[j].Cancelled?)
    ensures r.None? <==> forall i :: 0 <= i < |outcomes| ==> outcomes[i].Cancelled?
    decreases |outcomes|
  {
    if outcomes == [] then None
    else if !Last(outcomes).Cancelled? then Some(Last(outcomes))
    else LatestAttempt(outcomes[..|outcomes| - 1])
  }

  /** The banner an attempt leaves behind. */
  function AttemptError(attempt: OpenOutcome): Option<string>
    requires !attempt.Cancelled?
  {
    match attempt
    case ReadFailed(e) => Some(ReadErrorPrefix + e)
    case ParseFailed(e) => Some(ParseErrorPrefix + e)
    case Parsed(_) => None
  }

  lemma {:induction false} RunSnoc(s: AppState, outcomes: seq<OpenOutcome>, last: OpenOutcome)
    ensures Run(s, outcomes + [last]) == Step(Run(s, outcomes), last)
    decreases |outcomes|
  {
    if outcomes == [] {
      assert [last][1..] == [];
    } else {
      assert (outcomes + [last])[1..] == outcomes[1..] + [last];
      RunSnoc(Step(s, outcomes[0]), outcomes[1..], last);
    }
  }

  /** After a session, the document on display is the one of the latest press
      that parsed, or the one from before the session if none did. */
  lemma {:induction false} RunData(s: AppState, outcomes: seq<OpenOutcome>)
    ensures Run(s, outcomes).jsonData ==
      match LatestParsed(outcomes)
      case Some(json) => Some(json)
      case None => s.jsonData
    decreases |outcomes|
  {
    if outcomes != [] {
      var front := outcomes[..|outcomes| - 1];
      assert outcomes == front + [Last(outcomes)];
      RunSnoc(s, front, Last(outcomes));
      RunData(s, front);
    }
  }

  /** After a session, the banner is the one the latest non-cancelled press
      left, or the one from before the session if every dialog was cancelled. */
  lemma {:induction false} RunError(s: AppState, outcomes: seq<OpenOutcome>)
    ensures Run(s, outcomes).error ==
      match LatestAttempt(outcomes)
      case Some(attempt) => AttemptError(attempt)
      case None => s.error
    decreases |outcomes|
  {
    if outcomes != [] {
      var front := outcomes[..|outcomes| - 1];
      assert outcomes == front + [Last(outcomes)];
      RunSnoc(s, front, Last(outcomes));
      RunError(s, front);
    }
  }

  lemma {:induction false} LatestAttemptParsed(outcomes: seq<OpenOutcome>, json: JsonValue)
    requires LatestAttempt(outcomes) == Some(Parsed(json))
    ensures LatestParsed(outcomes) == Some(json)
    decreases |outcomes|
  {
    if !Last(outcomes).Cancelled? {
    } else {
      LatestAttemptParsed(outcomes[..|outcomes| - 1], json);
    }
  }

  lemma {:induction false} NoAttemptNoDocument(outcomes: seq<OpenOutcome>)
    requires LatestAttempt(outcomes) == None
    ensures LatestParsed(outcomes) == None
    decreases |outcomes|
  {
    if outcomes != [] {
      NoAttemptNoDocument(outcomes[..|outcomes| - 1]);
    }
  }

  /** From start-up, whenever no banner is shown, the document on display (if
      any) is the one the latest non-cancelled press parsed: the tree is never
      stale without an error saying so. */
  lemma SessionConsistent(outcomes: seq<OpenOutcome>)
    ensures var r := Run(Initial, outcomes);
      r.error == None ==>
        match r.jsonData
        case Some(json) => LatestAttempt(outcomes) == Some(Parsed(json))
        case None => LatestAttempt(outcomes) == None
  {
    RunData(Initial, outcomes);
    RunError(Initial, outcomes);
    match LatestAttempt(outcomes)
    case None =>
      NoAttemptNoDocument(outcomes);
    case Some(attempt) =>
      if attempt.Parsed? {
        LatestAttemptParsed(outcomes, attempt.json);
      }
  }
}
