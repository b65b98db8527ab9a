/**
 * The deterministic half of the question-answering agent: its conversation
 * memory, the prompt window built from it, the clean-up of generated Cypher,
 * the conversion of a failing query into an error row, and the result
 * formatter. The two language-model chains and the database query are
 * parameters.
 */
module QueryAgent {
  import opened Wrappers
  import opened Text
  import opened Rows
  import GraphModel
  import opened Neo4jClient

  /** One remembered exchange: `{"question", "answer", "cypher"}`. */
  datatype Turn = Turn(question: string, answer: string, cypher: string)

  const NoHistory := "No previous conversation."
  const WindowSize := 5
  const AnswerPreview := 200

  /** `chat_history[-5:]`: the most recent turns, at most five. */
  function Window(h: seq<Turn>): (w: seq<Turn>)
    ensures |w| == (if |h| < WindowSize then |h| else WindowSize)
    ensures w == h[|h| - |w|..]
  {
    if |h| <= WindowSize then h else h[|h| - WindowSize..]
  }

  /** The two prompt lines for the turn numbered `k`; the answer is cut to 200 characters and always followed by "...". */
  function TurnLines(k: nat, t: Turn): seq<string> {
    ["Q" + NatToString(k) + ": " + t.question,
     "A" + NatToString(k) + ": " + Take(t.answer, AnswerPreview) + "..."]
  }

  /** The lines for a window of turns, numbered from 1 at its oldest turn. */
  function HistoryLines(w: seq<Turn>): (lines: seq<string>)
    ensures |lines| == 2 * |w|
  {
    if |w| == 0 then [] else HistoryLines(w[..|w| - 1]) + TurnLines(|w|, w[|w| - 1])
  }

  /** The turn at position `i` of the window is rendered as lines `2i` and `2i + 1`, numbered `i + 1`. */
  lemma {:induction false} HistoryLinesAt(w: seq<Turn>)
    ensures forall i :: 0 <= i < |w| ==> HistoryLines(w)[2 * i..2 * i + 2] == TurnLines(i + 1, w[i])
  {
    if |w| > 0 {
      var front := w[..|w| - 1];
      var prev := HistoryLines(front);
      var lines := HistoryLines(w);
      HistoryLinesAt(front);
      assert lines == prev + TurnLines(|w|, w[|w| - 1]);
      forall i | 0 <= i < |w|
        ensures lines[2 * i..2 * i + 2] == TurnLines(i + 1, w[i])
      {
        if i < |w| - 1 {
          assert lines[2 * i..2 * i + 2] == prev[2 * i..2 * i + 2];
          assert front[i] == w[i];
        } else {
          assert lines[2 * i..2 * i + 2] == lines[|prev|..];
        }
      }
    }
  }

  /** `sep.join(parts)` begins with its first part. */
  lemma {:induction false} JoinStartsWithFirst(sep: string, parts: seq<string>)
    requires |parts| > 0
    ensures StartsWith(Join(sep, parts), parts[0])
  {
    if |parts| > 1 {
      assert Join(sep, parts) == parts[0] + (sep + Join(sep, parts[1..]));
    }
  }

  /** `_format_chat_history` */
  function FormatChatHistory(h: seq<Turn>): (s: string)
    ensures s == NoHistory <==> h == []
  {
    if h == [] then NoHistory
    else
      var lines := HistoryLines(Window(h));
      HistoryLinesAt(Window(h));
      assert lines[0..2] == TurnLines(1, Window(h)[0]);
      JoinStartsWithFirst("\n", lines);
      assert Join("\n", lines)[0] == 'Q';
      Join("\n", lines)
  }

  /**
   * A non-empty history is rendered as 2·min(n, 5) lines, two per turn of the
   * window, numbered Q1/A1 from the oldest turn kept.
   */
  lemma ChatHistoryLines(h: seq<Turn>)
    requires h != []
    ensures exists lines: seq<string> ::
      && FormatChatHistory(h) == Join("\n", lines)
      && |lines| == 2 * (if |h| < WindowSize then |h| else WindowSize)
      && (forall i :: 0 <= i < |Window(h)| ==> lines[2 * i..2 * i + 2] == TurnLines(i + 1, Window(h)[i]))
  {
    var lines := HistoryLines(Window(h));
    HistoryLinesAt(Window(h));
    assert FormatChatHistory(h) == Join("\n", lines);
  }

  /** Turns older than the last five never reach the prompt. */
  lemma ChatHistoryForgets(old_turns: seq<Turn>, recent: seq<Turn>)
    requires |recent| >= WindowSize
    ensures FormatChatHistory(old_turns + recent) == FormatChatHistory(recent)
  {
    var h := old_turns + recent;
    assert Window(h) == Window(recent);
  }

  /** Appending a turn slides the window by one. */
  lemma WindowSlides(h: seq<Turn>, t: Turn)
    ensures Window(h + [t]) == Window(Window(h) + [t])
  {
  }

  const Fence := "```"

  /** The text of `s` up to (not including) its first fence, or all of `s`. */
  function UpToFence(s: string): (r: string)
    ensures |r| <= |s| && r == s[..|r|]
    ensures !Contains(r, Fence)
    ensures |r| == |s| || StartsWith(s[|r|..], Fence)
  {
    if StartsWith(s, Fence) then ""
    else if s == [] then ""
    else
      var rest := UpToFence(s[1..]);
      var r := [s[0]] + rest;
      assert r == s[..|r|];
      assert Contains(r, Fence) == (StartsWith(r, Fence) || Contains(r[1..], Fence));
      assert r[1..] == rest;
      r
  }

  /** The text between the first two fences of a fenced reply, less a `cypher` tag; anything else unchanged. */
  function Unfence(s: string): string {
    if StartsWith(s, Fence) then
      var body := UpToFence(s[3..]);
      if StartsWith(body, "cypher") then body[6..] else body
    else s
  }

  /** The cleanup in `generate_cypher`: strip, unwrap a fenced reply, strip again. */
  function CleanCypher(reply: string): string {
    Strip(Unfence(Strip(reply)))
  }

  /** Cleaned Cypher is stripped and never begins with a fence. */
  lemma CleanCypherShape(reply: string)
    ensures Strip(CleanCypher(reply)) == CleanCypher(reply)
    ensures !StartsWith(CleanCypher(reply), Fence)
  {
    var s := Strip(reply);
    var tail := Unfence(s);
    StripIdempotent(tail);
    if StartsWith(s, Fence) {
      UnfencedHasNoFence(s);
      if StartsWith(Strip(tail), Fence) {
        ContainsOfStart(Strip(tail), Fence);
        StripContains(tail, Fence);
      }
    } else {
      StripIdempotent(reply);
      assert tail == s;
    }
  }

  /** What is taken out of a fenced reply holds no fence. */
  lemma UnfencedHasNoFence(s: string)
    requires StartsWith(s, Fence)
    ensures !Contains(Unfence(s), Fence)
  {
    var body := UpToFence(s[3..]);
    if StartsWith(body, "cypher") && Contains(body[6..], Fence) {
      assert body[6..|body|] == body[6..];
      ContainsInSlice(body, 6, |body|, Fence);
    }
  }

  /** Cleaning is idempotent: a cleaned query passes through unchanged. */
  lemma CleanCypherIdempotent(reply: string)
    ensures CleanCypher(CleanCypher(reply)) == CleanCypher(reply)
  {
    CleanCypherShape(reply);
  }

  /**
   * A fenced reply yields the text between its first two fences, less a
   * leading `cypher` tag, stripped. The text must not end in a backtick, or
   * the closing fence would begin earlier.
   */
  lemma CleanFencedCypher(reply: string, inner: string, rest: string)
    requires !Contains(inner, Fence) && (inner == [] || inner[|inner| - 1] != '`')
    requires Strip(reply) == Fence + (inner + (Fence + rest))
    ensures CleanCypher(reply) == Strip(if StartsWith(inner, "cypher") then inner[6..] else inner)
  {
    UnfenceFenced(inner, rest);
  }

  lemma UnfenceFenced(inner: string, rest: string)
    requires !Contains(inner, Fence) && (inner == [] || inner[|inner| - 1] != '`')
    ensures Unfence(Fence + (inner + (Fence + rest))) == if StartsWith(inner, "cypher") then inner[6..] else inner
  {
    FenceThen(rest);
    UpToFenceOf(inner, Fence + rest);
    FenceThen(inner + (Fence + rest));
  }

  lemma FenceThen(x: string)
    ensures StartsWith(Fence + x, Fence) && (Fence + x)[3..] == x
  {
    assert (Fence + x)[..3] == Fence;
  }

  /** The first fence of `a + b` is where `b` begins when `a` has none and does not end in a backtick. */
  lemma {:induction false} UpToFenceOf(a: string, b: string)
    requires !Contains(a, Fence) && (a == [] || a[|a| - 1] != '`') && StartsWith(b, Fence)
    ensures UpToFence(a + b) == a
    decreases |a|
  {
    if a == [] {
      assert a + b == b;
    } else {
      assert (a + b)[1..] == a[1..] + b;
      UpToFenceOf(a[1..], b);
    }
  }

  /** `execute_query`: the rows of a successful query; a raised error becomes one row holding its message. */
  function QueryRows(r: Result<seq<Row>>): (rows: seq<Row>)
    ensures r.Ok? ==> rows == r.value
    ensures r.Raised? ==> |rows| == 1 && Lookup(rows[0], "error") == Some(Str(r.message))
  {
    match r
    case Ok(rows) => rows
    case Raised(msg) => [[("error", Str(msg))]]
  }

  /** `f"{k}: {v}"` for every field whose value is not None, in field order. */
  function FieldParts(r: Row): (parts: seq<string>)
    ensures |parts| <= |r|
    ensures (forall i :: 0 <= i < |r| ==> r[i].1 != Null) ==> |parts| == |r|
  {
    if |r| == 0 then []
    else
      var k := r[|r| - 1].0;
      var v := r[|r| - 1].1;
      FieldParts(r[..|r| - 1]) + (if v == Null then [] else [k + ": " + Render(v)])
  }

  /** The numbered lines `f"{i}. {', '.join(parts)}"`, from 1. */
  function ResultLines(rs: seq<Row>): (lines: seq<string>)
    ensures |lines| == |rs|
    ensures forall i :: 0 <= i < |rs| ==> lines[i] == NatToString(i + 1) + ". " + Join(", ", FieldParts(rs[i]))
  {
    if |rs| == 0 then []
    else ResultLines(rs[..|rs| - 1]) + [NatToString(|rs|) + ". " + Join(", ", FieldParts(rs[|rs| - 1]))]
  }

  /** `format_results` */
  function FormatResults(rs: seq<Row>): string {
    if |rs| == 0 then "No results found."
    else if HasKey(rs[0], "error") then "Query error: " + Render(Get(rs[0], "error"))
    else Join("\n", ResultLines(rs))
  }

  /** The message of a failing query is what the formatter reports. */
  lemma FailedQueryReported(msg: string)
    ensures FormatResults(QueryRows(Raised(msg))) == "Query error: " + msg
  {
    var rows := QueryRows(Raised(msg));
    assert HasKey(rows[0], "error");
  }

  /** Rows without an error key in the first row are reported as numbered lines starting at "1. ". */
  lemma FormatResultsNumbered(rs: seq<Row>)
    requires |rs| > 0 && !HasKey(rs[0], "error")
    ensures StartsWith(FormatResults(rs), "1. ")
  {
    var lines := ResultLines(rs);
    var text := Join("\n", lines);
    assert FormatResults(rs) == text;
    JoinStartsWithFirst("\n", lines);
    assert NatToString(1) == "1";
    assert lines[0][..3] == "1. ";
    assert text[..|lines[0]|] == lines[0];
    assert text[..3] == lines[0][..3];
  }

  /**
   * What the database does with one statement: the rows it returns or the
   * error it raises, and its contents afterwards. A generated statement is
   * not limited to reading (`CREATE`, `SET` and `DELETE` all run).
   */
  datatype Outcome = Outcome(result: Result<seq<Row>>, after: GraphModel.Graph)

  /** The generated statements keep the store's keys unique and its edges in range. */
  ghost predicate KeepsValid(run: (GraphModel.Graph, string) -> Outcome) {
    forall g, c :: GraphModel.Valid(g) ==> GraphModel.Valid(run(g, c).after)
  }

  /** The dict `query` returns. */
  datatype QueryResult = QueryResult(question: string, cypher: string, rawResults: seq<Row>,
                                     formattedResults: string, answer: string)

  /** The outcome of a question once its Cypher has run: the rows are formatted and the answer chain sees them with the history. */
  function Respond(question: string, cypher: string, rows: seq<Row>, history: string,
                   answerLlm: (string, string, string) -> string): (r: QueryResult)
    ensures r.question == question && r.cypher == cypher && r.rawResults == rows
    ensures r.formattedResults == FormatResults(rows)
    ensures r.answer == Strip(answerLlm(question, FormatResults(rows), history))
  {
    var formatted := FormatResults(rows);
    QueryResult(question, cypher, rows, formatted, Strip(answerLlm(question, formatted, history)))
  }

  class Agent {
    const client: Client
    var connected: bool
    var chatHistory: seq<Turn>

    constructor (client: Client)
      ensures this.client == client && !connected && chatHistory == []
    {
      this.client := client;
      connected := false;
      chatHistory := [];
    }

    /** `clear_history`: forgets every turn and nothing else. */
    method ClearHistory()
      modifies this`chatHistory
      ensures chatHistory == []
    {
      chatHistory := [];
    }

    method Connect()
      modifies this`connected, client`driver
      ensures connected
      ensures !old(connected) ==> client.driver == client.Session(old(client.driver))
      ensures old(connected) ==> client.driver == old(client.driver)
    {
      if !connected {
        client.Connect();
        connected := true;
      }
    }

    method Close()
      modifies this`connected, client`driver
      ensures !connected
      ensures old(connected) ==> client.driver == None
      ensures !old(connected) ==> client.driver == old(client.driver)
    {
      if connected {
        client.Close();
        connected := false;
      }
    }

    /** `generate_cypher`, with the Cypher chain as `cypherLlm(question, chat_history)`. */
    method GenerateCypher(question: string, cypherLlm: (string, string) -> string) returns (cypher: string)
      ensures cypher == CleanCypher(cypherLlm(question, FormatChatHistory(chatHistory)))
      ensures !StartsWith(cypher, Fence) && Strip(cypher) == cypher
    {
      var history := FormatChatHistory(chatHistory);
      cypher := CleanCypher(cypherLlm(question, history));
      CleanCypherShape(cypherLlm(question, history));
    }

    /**
     * `execute_query`, with `run` what the database does with a statement on
     * the current store. The statement is generated text and may write, so
     * the store afterwards is the one `run` leaves behind.
     */
    method ExecuteQuery(cypher: string, run: (GraphModel.Graph, string) -> Outcome) returns (rows: seq<Row>)
      requires KeepsValid(run)
      modifies this`connected, client`driver, client`nodes, client`edges
      ensures connected && (old(client.Valid()) ==> client.Valid())
      ensures client.driver == client.Session(old(client.driver))
      ensures client.Store() == run(old(client.Store()), cypher).after
      ensures rows == QueryRows(run(old(client.Store()), cypher).result)
    {
      ghost var g := client.Store();
      if !connected {
        Connect();
      }
      client.Connect();
      assert client.Store() == g;
      var outcome := run(client.Store(), cypher);
      client.nodes, client.edges := outcome.after.nodes, outcome.after.edges;
      rows := QueryRows(outcome.result);
    }

    /**
     * `query`: both prompts see the history as it was before the call, and
     * exactly one turn is appended afterwards.
     */
    method Query(question: string, cypherLlm: (string, string) -> string,
                 run: (GraphModel.Graph, string) -> Outcome,
                 answerLlm: (string, string, string) -> string) returns (r: QueryResult)
      requires KeepsValid(run)
      modifies this`connected, this`chatHistory, client`driver, client`nodes, client`edges
      ensures connected && (old(client.Valid()) ==> client.Valid())
      ensures client.driver == client.Session(old(client.driver))
      ensures r.cypher == CleanCypher(cypherLlm(question, FormatChatHistory(old(chatHistory))))
      ensures client.Store() == run(old(client.Store()), r.cypher).after
      ensures r == Respond(question, r.cypher, QueryRows(run(old(client.Store()), r.cypher).result), FormatChatHistory(old(chatHistory)), answerLlm)
      ensures chatHistory == old(chatHistory) + [Turn(question, r.answer, r.cypher)]
    {
      var history := FormatChatHistory(chatHistory);
      var cypher, results := Ask(question, cypherLlm, run);
      r := Answer(question, cypher, results, history, answerLlm);
    }

    /** The start of `query`: generating the Cypher and running it. */
    method Ask(question: string, cypherLlm: (string, string) -> string, run: (GraphModel.Graph, string) -> Outcome)
      returns (cypher: string, rows: seq<Row>)
      requires KeepsValid(run)
      modifies this`connected, client`driver, client`nodes, client`edges
      ensures connected && (old(client.Valid()) ==> client.Valid())
      ensures client.driver == client.Session(old(client.driver))
      ensures cypher == CleanCypher(cypherLlm(question, FormatChatHistory(old(chatHistory))))
      ensures client.Store() == run(old(client.Store()), cypher).after
      ensures rows == QueryRows(run(old(client.Store()), cypher).result)
    {
      cypher := GenerateCypher(question, cypherLlm);
      rows := ExecuteQuery(cypher, run);
    }

    /** The end of `query`: answering from the rows and recording the turn. */
    method Answer(question: string, cypher: string, rows: seq<Row>, history: string,
                  answerLlm: (string, string, string) -> string) returns (r: QueryResult)
      modifies this`chatHistory
      ensures r == Respond(question, cypher, rows, history, answerLlm)
      ensures chatHistory == old(chatHistory) + [Turn(question, r.answer, cypher)]
    {
      r := Respond(question, cypher, rows, history, answerLlm);
      chatHistory := chatHistory + [Turn(question, r.answer, cypher)];
    }

    /** `quick_query`: the answer alone. */
    method QuickQuery(question: string, cypherLlm: (string, string) -> string,
                      run: (GraphModel.Graph, string) -> Outcome,
                      answerLlm: (string, string, string) -> string) returns (answer: string)
      requires KeepsValid(run)
      modifies this`connected, this`chatHistory, client`driver, client`nodes, client`edges
      ensures connected && (old(client.Valid()) ==> client.Valid())
      ensures client.driver == client.Session(old(client.driver))
      ensures var c := CleanCypher(cypherLlm(question, FormatChatHistory(old(chatHistory))));
        && chatHistory == old(chatHistory) + [Turn(question, answer, c)]
        && client.Store() == run(old(client.Store()), c).after
        && answer == Respond(question, c, QueryRows(run(old(client.Store()), c).result), FormatChatHistory(old(chatHistory)), answerLlm).answer
    {
      var r := Query(question, cypherLlm, run, answerLlm);
      answer := r.answer;
    }
  }
}
