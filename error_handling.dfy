/**
 * Turning raised errors into the fixed set of user-facing messages.
 * An exception is represented by its text, `str(error)`.
 */
module ErrorHandling {
  import opened Wrappers
  import opened Text

  /** The keys of the message table, in the order the classifier tries them. */
  datatype ErrorKind =
    | GroqApiKey | Neo4jConnection | Neo4jAuth | RateLimit
    | TokenLimit | InvalidCypher | EmptyGraph | Network

  /** The message table. */
  function Message(k: ErrorKind): string {
    match k
    case GroqApiKey => "Groq API key not configured. Please add GROQ_API_KEY to your .env file."
    case Neo4jConnection => "Cannot connect to Neo4j. Make sure Neo4j Desktop is running."
    case Neo4jAuth => "Neo4j authentication failed. Check your username and password in .env."
    case RateLimit => "API rate limit exceeded. Please wait a moment and try again."
    case TokenLimit => "Transcript is too long. Try with a shorter meeting transcript."
    case InvalidCypher => "Could not generate a valid query for your question. Try rephrasing."
    case EmptyGraph => "No data in the knowledge graph. Process some meeting transcripts first."
    case Network => "Network error. Check your internet connection."
  }

  predicate IsFixedMessage(m: string) {
    exists k: ErrorKind :: m == Message(k)
  }

  /** Whether rule `k` fires on the lower-cased text `t`, ignoring the rules before it. */
  predicate RuleMatches(k: ErrorKind, t: string) {
    match k
    case GroqApiKey => Contains(t, "groq_api_key") || Contains(t, "api_key")
    case Neo4jConnection => Contains(t, "connection refused") || Contains(t, "failed to establish")
    case Neo4jAuth => Contains(t, "authentication") || Contains(t, "unauthorized")
    case RateLimit => Contains(t, "rate limit") || Contains(t, "429")
    case TokenLimit => Contains(t, "token") && (Contains(t, "limit") || Contains(t, "exceed"))
    case InvalidCypher => Contains(t, "syntax error") || Contains(t, "cypher")
    case EmptyGraph => Contains(t, "no data") || Contains(t, "empty")
    case Network => Contains(t, "network") || Contains(t, "timeout")
  }

  const RuleOrder: seq<ErrorKind> :=
    [GroqApiKey, Neo4jConnection, Neo4jAuth, RateLimit, TokenLimit, InvalidCypher, EmptyGraph, Network]

  /** The first rule in `rules` that fires on `t`. */
  function FirstMatch(rules: seq<ErrorKind>, t: string): (o: Option<ErrorKind>)
    ensures o.Some? ==> o.value in rules && RuleMatches(o.value, t)
    ensures o.None? <==> forall i :: 0 <= i < |rules| ==> !RuleMatches(rules[i], t)
    ensures o.Some? ==> exists i :: (0 <= i < |rules| && rules[i] == o.value &&
      forall j :: 0 <= j < i ==> !RuleMatches(rules[j], t))
  {
    if |rules| == 0 then None
    else if RuleMatches(rules[0], t) then Some(rules[0])
    else
      var o := FirstMatch(rules[1..], t);
      if o.Some? then
        var i :| 0 <= i < |rules[1..]| && rules[1..][i] == o.value &&
          forall j :: 0 <= j < i ==> !RuleMatches(rules[1..][j], t);
        assert rules[i + 1] == o.value;
        o
      else o
  }

  /** The rule that classifies `errorText`, tried on its lower-cased form. */
  function Classify(errorText: string): Option<ErrorKind> {
    FirstMatch(RuleOrder, Lower(errorText))
  }

  const FallbackPrefix := "An error occurred: "

  /** `get_user_friendly_error`: the first matching rule's message, else the raw text behind a prefix. */
  function UserFriendlyError(errorText: string): (m: string)
    ensures Classify(errorText).Some? ==> m == Message(Classify(errorText).value)
    ensures Classify(errorText).None? ==> m == FallbackPrefix + errorText
  {
    match Classify(errorText)
    case Some(k) => Message(k)
    case None => FallbackPrefix + errorText
  }

  /** Classification only looks at the lower-cased text. */
  lemma ClassifyIgnoresCase(e1: string, e2: string)
    requires Lower(e1) == Lower(e2)
    ensures Classify(e1) == Classify(e2)
  {
  }

  /** Anything mentioning "api_key" is reported as the missing Groq key, whatever else it says. */
  lemma ApiKeyWins(errorText: string)
    requires Contains(Lower(errorText), "api_key")
    ensures UserFriendlyError(errorText) == Message(GroqApiKey)
  {
  }

  /** The token rule fires only when "token" comes with "limit" or "exceed", and no earlier rule fired. */
  lemma TokenRule(errorText: string)
    ensures Classify(errorText) == Some(TokenLimit) <==>
      var t := Lower(errorText);
      && !RuleMatches(GroqApiKey, t) && !RuleMatches(Neo4jConnection, t)
      && !RuleMatches(Neo4jAuth, t) && !RuleMatches(RateLimit, t)
      && Contains(t, "token") && (Contains(t, "limit") || Contains(t, "exceed"))
  {
    var t := Lower(errorText);
    FirstRuleWins(errorText, 4);
    assert RuleOrder[0] == GroqApiKey && RuleOrder[1] == Neo4jConnection;
    assert RuleOrder[2] == Neo4jAuth && RuleOrder[3] == RateLimit && RuleOrder[4] == TokenLimit;
    assert (forall j :: 0 <= j < 4 ==> !RuleMatches(RuleOrder[j], t)) <==>
      (!RuleMatches(GroqApiKey, t) && !RuleMatches(Neo4jConnection, t)
       && !RuleMatches(Neo4jAuth, t) && !RuleMatches(RateLimit, t));
  }

  /** The rules are tried in order: a rule wins exactly when it fires and every earlier rule does not. */
  lemma {:induction false} FirstRuleWins(errorText: string, i: nat)
    requires i < |RuleOrder|
    ensures Classify(errorText) == Some(RuleOrder[i]) <==>
      RuleMatches(RuleOrder[i], Lower(errorText)) &&
      forall j :: 0 <= j < i ==> !RuleMatches(RuleOrder[j], Lower(errorText))
  {
    var t := Lower(errorText);
    var o := Classify(errorText);
    if o == Some(RuleOrder[i]) {
      var i' :| 0 <= i' < |RuleOrder| && RuleOrder[i'] == o.value &&
        forall j :: 0 <= j < i' ==> !RuleMatches(RuleOrder[j], t);
      assert i' == i;
    }
    if RuleMatches(RuleOrder[i], t) && forall j :: 0 <= j < i ==> !RuleMatches(RuleOrder[j], t) {
      assert o.Some?;
      var i' :| 0 <= i' < |RuleOrder| && RuleOrder[i'] == o.value &&
        forall j :: 0 <= j < i' ==> !RuleMatches(RuleOrder[j], t);
      if i' != i {
        assert false;
      }
    }
  }

  /** A matched error always shows one of the eight fixed messages; an unmatched one shows its original, un-lowered text. */
  lemma MatchedGivesFixedMessage(errorText: string)
    ensures Classify(errorText).Some? ==> IsFixedMessage(UserFriendlyError(errorText))
    ensures Classify(errorText).None? ==> UserFriendlyError(errorText) == FallbackPrefix + errorText
  {
  }

  /** The exception classes of the program: all carry a message and optional details. */
  datatype ErrorClass = Base | Connection | Extraction | Query | Graph

  datatype LexigraphError = LexigraphError(cls: ErrorClass, message: string, details: Option<string>)

  /** `LexigraphError.user_message` */
  function UserMessage(e: LexigraphError): (m: string)
    ensures m == e.message
  {
    e.message
  }

  /** `str(e)`: the base `Exception` was initialised with the message alone. */
  function ErrorText(e: LexigraphError): string {
    e.message
  }

  /** An unmatched application error falls back to its user message, details left out. */
  lemma LexigraphFallback(e: LexigraphError)
    requires Classify(ErrorText(e)).None?
    ensures UserFriendlyError(ErrorText(e)) == FallbackPrefix + UserMessage(e)
  {
  }

  /** What `safe_execute` returns, and the line it logs when the wrapped call raised. */
  datatype Guarded<T> = Guarded(value: T, logged: Option<string>)

  /** A call wrapped by `@safe_execute(default_return, error_message)` named `funcName`. */
  function SafeExecute<T>(call: Result<T>, defaultReturn: T, errorMessage: Option<string>, funcName: string): (g: Guarded<T>)
    ensures call.Ok? ==> g.value == call.value && g.logged == None
    ensures call.Raised? ==> g.value == defaultReturn && g.logged.Some?
    ensures call.Raised? && errorMessage.Some? && errorMessage.value != "" ==>
      g.logged == Some("Error in " + funcName + ": " + errorMessage.value + ": " + UserFriendlyError(call.message))
    ensures call.Raised? && (errorMessage.None? || errorMessage.value == "") ==>
      g.logged == Some("Error in " + funcName + ": " + UserFriendlyError(call.message))
  {
    if call.Ok? then Guarded(call.value, None)
    else if errorMessage.Some? && errorMessage.value != "" then
      Guarded(defaultReturn, Some("Error in " + funcName + ": " + errorMessage.value + ": " + UserFriendlyError(call.message)))
    else
      Guarded(defaultReturn, Some("Error in " + funcName + ": " + UserFriendlyError(call.message)))
  }

  /** The dict `handle_streamlit_error` returns. */
  datatype ErrorReport = ErrorReport(message: string, success: bool, details: Option<string>, traceback: Option<string>)

  /** `handle_streamlit_error`; the formatted traceback is supplied, since it comes from the interpreter. */
  function HandleStreamlitError(errorText: string, showDetails: bool, traceback: string): (r: ErrorReport)
    ensures !r.success && r.message == UserFriendlyError(errorText)
    ensures showDetails ==> r.details == Some(errorText) && r.traceback == Some(traceback)
    ensures !showDetails ==> r.details == None && r.traceback == None
  {
    ErrorReport(UserFriendlyError(errorText), false,
      if showDetails then Some(errorText) else None,
      if showDetails then Some(traceback) else None)
  }
}
