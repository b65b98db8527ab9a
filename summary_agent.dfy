/**
 * The text the summary agent hands to its language model: the one-meeting
 * digest and the cross-meeting digest, plus the early answers when the graph
 * has nothing to summarise. The language-model chains and the queries are
 * parameters.
 */
module SummaryAgent {
  import opened Wrappers
  import opened Text
  import opened Rows
  import GraphModel
  import opened Neo4jClient

  // ---------------------------------------------------------------------------
  // One meeting

  /**
   * The record the meeting query returns: its scalar fields (title, date)
   * and the collected attendee, topic, decision, action and commitment maps.
   * An absent list reads as empty, exactly like the `[]` default.
   */
  datatype MeetingRecord = MeetingRecord(fields: Row, attendees: seq<Row>, topics: seq<Row>,
                                         decisions: seq<Row>, actions: seq<Row>, commitments: seq<Row>)

  /** How many items carry a truthy `key`. */
  function CountWith(items: seq<Row>, key: string): (n: nat)
    ensures n <= |items|
  {
    if |items| == 0 then 0
    else CountWith(items[..|items| - 1], key) + (if Truthy(Get(items[|items| - 1], key)) then 1 else 0)
  }

  /** `entry(item)` for each item with a truthy `key`, in order. */
  function Entries(items: seq<Row>, key: string, entry: Row -> string): (lines: seq<string>)
    ensures |lines| == CountWith(items, key)
  {
    if |items| == 0 then []
    else
      var last := items[|items| - 1];
      Entries(items[..|items| - 1], key, entry) + (if Truthy(Get(last, key)) then [entry(last)] else [])
  }

  /** The entries are exactly the lines of the items with a truthy `key`. */
  lemma {:induction false} EntriesExact(items: seq<Row>, key: string, entry: Row -> string)
    ensures forall i :: 0 <= i < |items| && Truthy(Get(items[i], key)) ==> entry(items[i]) in Entries(items, key, entry)
    ensures forall l :: l in Entries(items, key, entry) ==>
      exists i :: 0 <= i < |items| && Truthy(Get(items[i], key)) && l == entry(items[i])
  {
    if |items| > 0 {
      var front := items[..|items| - 1];
      EntriesExact(front, key, entry);
      assert forall i :: 0 <= i < |front| ==> items[i] == front[i];
    }
  }

  /** A section: its header whenever the list is non-empty, then one entry per item with a truthy `key`. */
  function Section(header: string, items: seq<Row>, key: string, entry: Row -> string): (lines: seq<string>)
    ensures items == [] ==> lines == []
    ensures items != [] ==> |lines| == 1 + CountWith(items, key) && lines[0] == header
  {
    if items == [] then [] else [header] + Entries(items, key, entry)
  }

  /** Appends one section to `lines`. */
  method AppendSection(lines: seq<string>, header: string, items: seq<Row>, key: string, entry: Row -> string)
    returns (out: seq<string>)
    ensures out == lines + Section(header, items, key, entry)
  {
    out := lines;
    if items != [] {
      var entries := CollectEntries(items, key, entry);
      out := out + [header] + entries;
    }
  }

  /** The loop over a section's items, keeping the line of each item with a truthy `key`. */
  method CollectEntries(items: seq<Row>, key: string, entry: Row -> string) returns (entries: seq<string>)
    ensures entries == Entries(items, key, entry)
  {
    entries := [];
    var i := 0;
    while i < |items|
      invariant 0 <= i <= |items| && entries == Entries(items[..i], key, entry)
    {
      var item := items[i];
      if Truthy(Get(item, key)) {
        entries := entries + [entry(item)];
      }
      assert items[..i + 1][..i] == items[..i];
      i := i + 1;
    }
    assert items[..i] == items;
  }

  /** `f"{prefix}{v}{suffix}"` when `v` is truthy, else nothing. */
  function IfGiven(prefix: string, v: Value, suffix: string): string {
    if Truthy(v) then prefix + Render(v) + suffix else ""
  }

  function TopicEntry(t: Row): string {
    "  - " + Render(Get(t, "name")) + IfGiven(" - ", Get(t, "description"), "")
  }

  function DecisionEntry(d: Row): string {
    "  - " + Render(Get(d, "description")) + IfGiven(" (by ", Get(d, "made_by"), ")")
  }

  /** "  - desc [owner] Due: deadline", leaving out a falsy owner or deadline. */
  function ActionEntry(a: Row): string {
    "  - " + Render(Get(a, "description")) + IfGiven(" [", Get(a, "owner"), "]") + IfGiven(" Due: ", Get(a, "deadline"), "")
  }

  function CommitmentEntry(c: Row): string {
    "  - " + Render(Get(c, "description")) + IfGiven(" [", Get(c, "made_by"), "]")
  }

  function AttendeeName(a: Row): string {
    Render(Get(a, "name"))
  }

  /** The names of the attendees that have a truthy name, in order. */
  function AttendeeNames(attendees: seq<Row>): (names: seq<string>)
    ensures |names| == CountWith(attendees, "name")
    ensures names == [] <==> forall i :: 0 <= i < |attendees| ==> !Truthy(Get(attendees[i], "name"))
  {
    EntriesExact(attendees, "name", AttendeeName);
    var names := Entries(attendees, "name", AttendeeName);
    assert names != [] ==> names[0] in names;
    names
  }

  /** Every attendee with a truthy name is listed, and only those. */
  lemma AttendeeNamesExact(attendees: seq<Row>)
    ensures var names := Entries(attendees, "name", AttendeeName);
      && (forall i :: 0 <= i < |attendees| && Truthy(Get(attendees[i], "name")) ==> Render(Get(attendees[i], "name")) in names)
      && (forall n :: n in names ==>
            exists i :: 0 <= i < |attendees| && Truthy(Get(attendees[i], "name")) && n == Render(Get(attendees[i], "name")))
  {
    EntriesExact(attendees, "name", AttendeeName);
  }

  /** `prefix + str(v)` as a line of its own when `v` is truthy, else no line. */
  function ValueLine(prefix: string, v: Value): (lines: seq<string>)
    ensures Truthy(v) ==> lines == [prefix + Render(v)]
    ensures !Truthy(v) ==> lines == []
  {
    if Truthy(v) then [prefix + Render(v)] else []
  }

  /** `prefix + sep.join(xs)` as a line of its own when `xs` is non-empty, else no line. */
  function JoinedLine(prefix: string, sep: string, xs: seq<string>): (lines: seq<string>)
    ensures xs != [] ==> lines == [prefix + Join(sep, xs)]
    ensures xs == [] ==> lines == []
  {
    if xs != [] then [prefix + Join(sep, xs)] else []
  }

  /** The title, date and attendee lines that open the digest. */
  function HeaderLines(m: MeetingRecord): seq<string> {
    ["MEETING: " + Render(GetOr(m.fields, "title", Str("Unknown")))]
    + ValueLine("DATE: ", Get(m.fields, "date"))
    + JoinedLine("\nATTENDEES: ", ", ", AttendeeNames(m.attendees))
  }

  /** The topic, decision, action and commitment sections. */
  function SectionLines(m: MeetingRecord): seq<string> {
    Section("\nTOPICS DISCUSSED:", m.topics, "name", TopicEntry)
    + Section("\nDECISIONS MADE:", m.decisions, "description", DecisionEntry)
    + Section("\nACTION ITEMS:", m.actions, "description", ActionEntry)
    + Section("\nCOMMITMENTS:", m.commitments, "description", CommitmentEntry)
  }

  /** The lines of `_format_meeting_data`, before joining. */
  function MeetingLines(m: MeetingRecord): seq<string> {
    HeaderLines(m) + SectionLines(m)
  }

  /** `_format_meeting_data` */
  method FormatMeetingData(m: MeetingRecord) returns (text: string)
    ensures text == Join("\n", MeetingLines(m))
  {
    var lines := ["MEETING: " + Render(GetOr(m.fields, "title", Str("Unknown")))];
    lines := lines + ValueLine("DATE: ", Get(m.fields, "date"));
    lines := lines + JoinedLine("\nATTENDEES: ", ", ", AttendeeNames(m.attendees));
    ghost var head := lines;
    assert head == HeaderLines(m);
    lines := AppendSection(lines, "\nTOPICS DISCUSSED:", m.topics, "name", TopicEntry);
    ghost var s1 := Section("\nTOPICS DISCUSSED:", m.topics, "name", TopicEntry);
    lines := AppendSection(lines, "\nDECISIONS MADE:", m.decisions, "description", DecisionEntry);
    ghost var s2 := Section("\nDECISIONS MADE:", m.decisions, "description", DecisionEntry);
    lines := AppendSection(lines, "\nACTION ITEMS:", m.actions, "description", ActionEntry);
    ghost var s3 := Section("\nACTION ITEMS:", m.actions, "description", ActionEntry);
    lines := AppendSection(lines, "\nCOMMITMENTS:", m.commitments, "description", CommitmentEntry);
    ghost var s4 := Section("\nCOMMITMENTS:", m.commitments, "description", CommitmentEntry);
    Reassociate(head, s1, s2, s3, s4);
    text := Join("\n", lines);
  }

  /** The four appended sections, taken together, follow the header. */
  lemma Reassociate(head: seq<string>, s1: seq<string>, s2: seq<string>, s3: seq<string>, s4: seq<string>)
    ensures head + s1 + s2 + s3 + s4 == head + (s1 + s2 + s3 + s4)
  {
  }

  /** Every section line that can follow the header starts a new paragraph. */
  lemma SectionsOpenWithNewline(m: MeetingRecord)
    ensures SectionLines(m) != [] ==> SectionLines(m)[0][0] == '\n'
  {
  }

  /**
   * The digest opens with the title ("Unknown" only when the key is absent);
   * the DATE line follows when the date is truthy, and otherwise the next
   * line, if any, starts a new paragraph.
   */
  lemma MeetingHeader(m: MeetingRecord)
    ensures var lines := MeetingLines(m);
      && lines[0] == "MEETING: " + Render(GetOr(m.fields, "title", Str("Unknown")))
      && (Truthy(Get(m.fields, "date")) ==> lines[1] == "DATE: " + Render(Get(m.fields, "date")))
      && (!Truthy(Get(m.fields, "date")) && |lines| > 1 ==> lines[1][0] == '\n')
  {
    var head := HeaderLines(m);
    var rest := SectionLines(m);
    assert MeetingLines(m)[..|head|] == head;
    if !Truthy(Get(m.fields, "date")) && |MeetingLines(m)| > 1 {
      var attend := JoinedLine("\nATTENDEES: ", ", ", AttendeeNames(m.attendees));
      assert head == [head[0]] + attend;
      if attend == [] {
        SectionsOpenWithNewline(m);
        assert MeetingLines(m)[1] == rest[0];
      }
    }
  }

  /** A non-empty section always shows its header, even when none of its entries is shown. */
  lemma HeaderWithoutEntries(header: string, items: seq<Row>, key: string, entry: Row -> string)
    requires items != [] && forall i :: 0 <= i < |items| ==> !Truthy(Get(items[i], key))
    ensures Section(header, items, key, entry) == [header]
  {
    NoneCounted(items, key);
  }

  lemma {:induction false} NoneCounted(items: seq<Row>, key: string)
    requires forall i :: 0 <= i < |items| ==> !Truthy(Get(items[i], key))
    ensures CountWith(items, key) == 0
  {
    if |items| > 0 {
      NoneCounted(items[..|items| - 1], key);
    }
  }

  // ---------------------------------------------------------------------------
  // All meetings

  /** One row of the cross-meeting query: scalar fields and the collected names, decisions and action maps. */
  datatype MeetingOverview = MeetingOverview(fields: Row, attendees: seq<string>, topics: seq<string>,
                                             decisions: seq<string>, actions: seq<Row>)

  function NonEmpty(xs: seq<string>): (ys: seq<string>)
    ensures forall y :: y in ys <==> y in xs && y != ""
  {
    if |xs| == 0 then [] else NonEmpty(xs[..|xs| - 1]) + (if xs[|xs| - 1] != "" then [xs[|xs| - 1]] else [])
  }

  /** The lines of one meeting in the overview, ending with a blank line. */
  function OverviewBlock(m: MeetingOverview): seq<string> {
    ["MEETING: " + Render(GetOr(m.fields, "meeting", Str("Unknown")))]
    + ValueLine("Date: ", Get(m.fields, "date"))
    + JoinedLine("Attendees: ", ", ", NonEmpty(m.attendees))
    + JoinedLine("Topics: ", ", ", NonEmpty(m.topics))
    + JoinedLine("Decisions: ", "; ", NonEmpty(m.decisions))
    + [""]
  }

  function OverviewBlocks(ms: seq<MeetingOverview>): seq<string> {
    if |ms| == 0 then [] else OverviewBlocks(ms[..|ms| - 1]) + OverviewBlock(ms[|ms| - 1])
  }

  /** The actions with a truthy task, in order. */
  function TaskActions(actions: seq<Row>): (r: seq<Row>)
    ensures forall a :: a in r <==> a in actions && Truthy(Get(a, "task"))
  {
    if |actions| == 0 then []
    else
      var last := actions[|actions| - 1];
      TaskActions(actions[..|actions| - 1]) + (if Truthy(Get(last, "task")) then [last] else [])
  }

  /** `all_actions`: every meeting's actions with a truthy task, meeting by meeting. */
  function AllActions(ms: seq<MeetingOverview>): seq<Row> {
    if |ms| == 0 then [] else AllActions(ms[..|ms| - 1]) + TaskActions(ms[|ms| - 1].actions)
  }

  function Elements(xs: seq<string>): (e: set<string>)
    ensures forall x :: x in e <==> x in xs
  {
    set x | x in xs
  }

  /** `all_topics`: every non-empty topic name of every meeting. */
  function AllTopics(ms: seq<MeetingOverview>): set<string> {
    if |ms| == 0 then {} else AllTopics(ms[..|ms| - 1]) + Elements(NonEmpty(ms[|ms| - 1].topics))
  }

  /** The collected actions are exactly those with a truthy task. */
  lemma {:induction false} AllActionsExact(ms: seq<MeetingOverview>, a: Row)
    ensures a in AllActions(ms) <==> Truthy(Get(a, "task")) && exists i :: 0 <= i < |ms| && a in ms[i].actions
  {
    if |ms| > 0 {
      var front := ms[..|ms| - 1];
      AllActionsExact(front, a);
      if exists i :: 0 <= i < |ms| && a in ms[i].actions {
        var i :| 0 <= i < |ms| && a in ms[i].actions;
        if i < |ms| - 1 {
          assert front[i] == ms[i];
        }
      }
      if exists i :: 0 <= i < |front| && a in front[i].actions {
        var i :| 0 <= i < |front| && a in front[i].actions;
        assert ms[i] == front[i];
      }
    }
  }

  /** The recurring-topic set holds exactly the non-empty topic names of all meetings. */
  lemma {:induction false} AllTopicsExact(ms: seq<MeetingOverview>, t: string)
    ensures t in AllTopics(ms) <==> t != "" && exists i :: 0 <= i < |ms| && t in ms[i].topics
  {
    if |ms| > 0 {
      var front := ms[..|ms| - 1];
      AllTopicsExact(front, t);
      if exists i :: 0 <= i < |ms| && t in ms[i].topics {
        var i :| 0 <= i < |ms| && t in ms[i].topics;
        if i < |ms| - 1 {
          assert front[i] == ms[i];
        }
      }
      if exists i :: 0 <= i < |front| && t in front[i].topics {
        var i :| 0 <= i < |front| && t in front[i].topics;
        assert ms[i] == front[i];
      }
    }
  }

  /** "- [status] task - Owner: owner (Due: deadline)": owner and status fall back only when their key is absent. */
  function ActionSummaryLine(a: Row): string {
    "- [" + Render(GetOr(a, "status", Str("pending"))) + "] " + Render(Get(a, "task"))
    + " - Owner: " + Render(GetOr(a, "owner", Str("Unassigned"))) + IfGiven(" (Due: ", Get(a, "deadline"), ")")
  }

  /** An owner key holding None is shown as "None"; only a missing key reads 'Unassigned'. */
  lemma OwnerDefaultOnlyWhenAbsent(a: Row)
    ensures HasKey(a, "owner") ==> GetOr(a, "owner", Str("Unassigned")) == Get(a, "owner")
    ensures !HasKey(a, "owner") ==> GetOr(a, "owner", Str("Unassigned")) == Str("Unassigned")
  {
    if HasKey(a, "owner") {
      assert Lookup(a, "owner").Some?;
    }
  }

  function CommitmentSummaryLine(c: Row): string {
    "- " + Render(Get(c, "person")) + ": " + Render(Get(c, "commitment"))
  }

  function MapLines(items: seq<Row>, line: Row -> string): (lines: seq<string>)
    ensures |lines| == |items| && forall i :: 0 <= i < |items| ==> lines[i] == line(items[i])
  {
    if |items| == 0 then [] else MapLines(items[..|items| - 1], line) + [line(items[|items| - 1])]
  }

  const OverviewHeader := "=== MEETINGS OVERVIEW ===\n"
  const ActionsHeader := "=== ALL ACTION ITEMS ==="
  const CommitmentsHeader := "\n=== ALL COMMITMENTS ==="
  const TopicsHeader := "\n=== RECURRING TOPICS ==="

  /**
   * The lines of `_format_cross_meeting_data`, before joining. `order` is
   * Python's iteration order of the recurring-topic set, which the language
   * leaves unspecified.
   */
  function CrossMeetingLines(ms: seq<MeetingOverview>, commitments: seq<Row>, order: set<string> -> seq<string>): seq<string>
    requires Enumerates(order)
  {
    [OverviewHeader] + OverviewBlocks(ms)
    + [ActionsHeader] + MapLines(AllActions(ms), ActionSummaryLine)
    + [CommitmentsHeader] + MapLines(commitments, CommitmentSummaryLine)
    + [TopicsHeader, "Topics appearing across meetings: " + Join(", ", order(AllTopics(ms)))]
  }

  /** The inner loop that keeps the actions with a truthy task. */
  method CollectTasks(actions: seq<Row>) returns (kept: seq<Row>)
    ensures kept == TaskActions(actions)
  {
    kept := [];
    var j := 0;
    while j < |actions|
      invariant 0 <= j <= |actions| && kept == TaskActions(actions[..j])
    {
      if Truthy(Get(actions[j], "task")) {
        kept := kept + [actions[j]];
      }
      assert actions[..j + 1][..j] == actions[..j];
      j := j + 1;
    }
    assert actions[..j] == actions;
  }

  /** One pass of the per-meeting loop: the meeting's block, its topic names and its actions with a task. */
  method OverviewOf(m: MeetingOverview) returns (block: seq<string>, topics: set<string>, actions: seq<Row>)
    ensures block == OverviewBlock(m) && topics == Elements(NonEmpty(m.topics)) && actions == TaskActions(m.actions)
  {
    block := ["MEETING: " + Render(GetOr(m.fields, "meeting", Str("Unknown")))];
    block := block + ValueLine("Date: ", Get(m.fields, "date"));
    block := block + JoinedLine("Attendees: ", ", ", NonEmpty(m.attendees));
    var names := NonEmpty(m.topics);
    block := block + JoinedLine("Topics: ", ", ", names);
    topics := Elements(names);
    block := block + JoinedLine("Decisions: ", "; ", NonEmpty(m.decisions));
    actions := CollectTasks(m.actions);
    block := block + [""];
  }

  /** The per-meeting loop: overview lines, the growing topic set and the growing action list. */
  method Overview(ms: seq<MeetingOverview>) returns (lines: seq<string>, allTopics: set<string>, allActions: seq<Row>)
    ensures lines == OverviewBlocks(ms) && allTopics == AllTopics(ms) && allActions == AllActions(ms)
  {
    lines, allTopics, allActions := [], {}, [];
    var i := 0;
    while i < |ms|
      invariant 0 <= i <= |ms|
      invariant lines == OverviewBlocks(ms[..i]) && allTopics == AllTopics(ms[..i]) && allActions == AllActions(ms[..i])
    {
      var block, topics, actions := OverviewOf(ms[i]);
      lines := lines + block;
      allTopics := allTopics + topics;
      allActions := allActions + actions;
      assert ms[..i + 1][..i] == ms[..i];
      i := i + 1;
    }
    assert ms[..i] == ms;
  }

  /** The loop that formats one line per item. */
  method FormatEach(items: seq<Row>, line: Row -> string) returns (lines: seq<string>)
    ensures lines == MapLines(items, line)
  {
    lines := [];
    var i := 0;
    while i < |items|
      invariant 0 <= i <= |items| && lines == MapLines(items[..i], line)
    {
      lines := lines + [line(items[i])];
      assert items[..i + 1][..i] == items[..i];
      i := i + 1;
    }
    assert items[..i] == items;
  }

  /** `_format_cross_meeting_data` */
  method FormatCrossMeetingData(ms: seq<MeetingOverview>, commitments: seq<Row>, order: set<string> -> seq<string>)
    returns (text: string)
    requires Enumerates(order)
    ensures text == Join("\n", CrossMeetingLines(ms, commitments, order))
  {
    var overview, allTopics, allActions := Overview(ms);
    var actionLines := FormatEach(allActions, ActionSummaryLine);
    var commitmentLines := FormatEach(commitments, CommitmentSummaryLine);
    var lines := [OverviewHeader] + overview + [ActionsHeader] + actionLines + [CommitmentsHeader] + commitmentLines
      + [TopicsHeader, "Topics appearing across meetings: " + Join(", ", order(allTopics))];
    text := Join("\n", lines);
  }

  /** The sections come in a fixed order: overview, all action items, all commitments, recurring topics. */
  lemma CrossMeetingSectionOrder(ms: seq<MeetingOverview>, commitments: seq<Row>, order: set<string> -> seq<string>)
    requires Enumerates(order)
    ensures var lines := CrossMeetingLines(ms, commitments, order);
      var a := 1 + |OverviewBlocks(ms)|;
      var c := a + 1 + |AllActions(ms)|;
      && |lines| == c + 1 + |commitments| + 2
      && lines[0] == OverviewHeader && lines[a] == ActionsHeader && lines[c] == CommitmentsHeader
      && lines[|lines| - 2] == TopicsHeader
  {
  }

  /**
   * The last line names every recurring topic exactly once: the non-empty
   * topic names found in any meeting, and nothing else.
   */
  lemma RecurringTopicsLine(ms: seq<MeetingOverview>, commitments: seq<Row>, order: set<string> -> seq<string>)
    requires Enumerates(order)
    ensures var lines := CrossMeetingLines(ms, commitments, order);
      var shown := order(AllTopics(ms));
      && lines[|lines| - 1] == "Topics appearing across meetings: " + Join(", ", shown)
      && |shown| == |AllTopics(ms)|
      && (forall t :: t in shown <==> t != "" && exists i :: 0 <= i < |ms| && t in ms[i].topics)
  {
    forall t
      ensures t in order(AllTopics(ms)) <==> t != "" && exists i :: 0 <= i < |ms| && t in ms[i].topics
    {
      AllTopicsExact(ms, t);
    }
  }

  // ---------------------------------------------------------------------------
  // The agent

  const NoMeetings := "No meetings found in the knowledge graph."

  function NoMeetingMatching(title: string): string {
    "No meeting found matching '" + title + "'"
  }

  class Agent {
    const client: Client
    var connected: bool

    constructor (client: Client)
      ensures this.client == client && !connected
    {
      this.client := client;
      connected := false;
    }

    method Connect()
      modifies this`connected, client`driver
      ensures connected
      ensures !old(connected) ==> client.driver == client.Session(old(client.driver))
      ensures old(connected) ==> client.driver == old(client.driver)
    {
      if !connected {
        client.Connect();
        connected := true;
      }
    }

    method Close()
      modifies this`connected, client`driver
      ensures !connected
      ensures old(connected) ==> client.driver == None
      ensures !old(connected) ==> client.driver == old(client.driver)
    {
      if connected {
        client.Close();
        connected := false;
      }
    }

    /**
     * `generate_meeting_summary`: no matching meeting gives the not-found text
     * without consulting the model; otherwise the model summarises the digest
     * of the first record.
     */
    method GenerateMeetingSummary(title: string, query: (GraphModel.Graph, string) -> Result<seq<MeetingRecord>>,
                                  summaryLlm: string -> string) returns (r: Result<string>)
      modifies this`connected, client`driver
      ensures connected
      ensures var q := query(old(client.Store()), title);
        && (q.Raised? ==> r == Raised(q.message))
        && (q.Ok? && q.value == [] ==> r == Ok(NoMeetingMatching(title)))
        && (q.Ok? && q.value != [] ==> r == Ok(summaryLlm(Join("\n", MeetingLines(q.value[0])))))
    {
      ghost var g := client.Store();
      if !connected {
        Connect();
      }
      assert client.Store() == g;
      var results := query(client.Store(), title);
      if results.Raised? {
        r := Raised(results.message);
      } else if results.value == [] {
        r := Ok(NoMeetingMatching(title));
      } else {
        var data := FormatMeetingData(results.value[0]);
        r := Ok(summaryLlm(data));
      }
    }

    /**
     * `generate_cross_meeting_summary`: no meetings gives the fixed text and
     * the commitment query is not run; otherwise both query results feed the
     * digest the model summarises.
     */
    method GenerateCrossMeetingSummary(meetingsQuery: GraphModel.Graph -> Result<seq<MeetingOverview>>,
                                       commitmentsQuery: GraphModel.Graph -> Result<seq<Row>>,
                                       order: set<string> -> seq<string>, crossLlm: string -> string)
      returns (r: Result<string>)
      requires Enumerates(order)
      modifies this`connected, client`driver
      ensures connected
      ensures var q := meetingsQuery(old(client.Store()));
        var c := commitmentsQuery(old(client.Store()));
        && (q.Raised? ==> r == Raised(q.message))
        && (q.Ok? && q.value == [] ==> r == Ok(NoMeetings))
        && (q.Ok? && q.value != [] && c.Raised? ==> r == Raised(c.message))
        && (q.Ok? && q.value != [] && c.Ok? ==> r == Ok(crossLlm(Join("\n", CrossMeetingLines(q.value, c.value, order)))))
    {
      ghost var g := client.Store();
      if !connected {
        Connect();
      }
      assert client.Store() == g;
      var results := meetingsQuery(client.Store());
      if results.Raised? {
        r := Raised(results.message);
      } else if results.value == [] {
        r := Ok(NoMeetings);
      } else {
        var commitments := commitmentsQuery(client.Store());
        if commitments.Raised? {
          r := Raised(commitments.message);
        } else {
          var data := FormatCrossMeetingData(results.value, commitments.value, order);
          r := Ok(crossLlm(data));
        }
      }
    }
  }
}
