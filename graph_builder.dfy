/**
 * Turning one meeting extraction into graph writes. The functions below give,
 * in the order `build_graph` issues them, the writes it makes; the agent's
 * method is proved to make exactly these writes and to count link attempts.
 */
module GraphBuilder {
  import opened Wrappers
  import opened Text
  import Entities
  import opened GraphModel
  import opened Neo4jClient

  /** Python truthiness of an optional string field. */
  predicate Given(o: Option<string>) {
    o.Some? && o.value != ""
  }

  function MeetingEnd(title: string): Endpoint { Endpoint(Meeting, "title", title) }
  function PersonEnd(name: string): Endpoint { Endpoint(Person, "name", name) }
  function TopicEnd(name: string): Endpoint { Endpoint(Topic, "name", name) }
  function DecisionEnd(d: string): Endpoint { Endpoint(Decision, "description", d) }
  function ActionEnd(d: string): Endpoint { Endpoint(ActionItem, "description", d) }
  function CommitmentEnd(d: string): Endpoint { Endpoint(Commitment, "description", d) }

  /** Upsert the person, then attempt their ATTENDED link to the meeting. */
  function AddPerson(g: Graph, p: Entities.Person, title: string): Graph {
    Link(Upsert(g, Person, p.name, p.role), PersonEnd(p.name), ATTENDED, MeetingEnd(title))
  }

  /** Upsert the topic, then attempt the meeting's DISCUSSED link to it. */
  function AddTopic(g: Graph, t: Entities.Topic, title: string): Graph {
    Link(Upsert(g, Topic, t.name, t.description), MeetingEnd(title), DISCUSSED, TopicEnd(t.name))
  }

  /** Create the decision, link it to the meeting, then to its maker and its topic when they are given. */
  function AddDecision(g: Graph, d: Entities.Decision, title: string): Graph {
    var g1 := Link(Insert(g, DecisionNode(d.description)), MeetingEnd(title), CONTAINS, DecisionEnd(d.description));
    var g2 := if Given(d.madeBy) then Link(g1, PersonEnd(d.madeBy.value), MADE, DecisionEnd(d.description)) else g1;
    if Given(d.relatedTopic) then Link(g2, DecisionEnd(d.description), ABOUT, TopicEnd(d.relatedTopic.value)) else g2
  }

  /** Create the action item, link it to the meeting, then to its owner when given. */
  function AddAction(g: Graph, a: Entities.ActionItem, title: string): Graph {
    var g1 := Link(Insert(g, ActionItemNode(a.description, a.deadline, a.priority)), MeetingEnd(title), CONTAINS, ActionEnd(a.description));
    if Given(a.owner) then Link(g1, PersonEnd(a.owner.value), OWNS, ActionEnd(a.description)) else g1
  }

  /** Create the commitment and link its maker; a commitment is never linked to the meeting. */
  function AddCommitment(g: Graph, c: Entities.Commitment): Graph {
    var g1 := Insert(g, CommitmentNode(c.description));
    if c.madeBy != "" then Link(g1, PersonEnd(c.madeBy), COMMITTED, CommitmentEnd(c.description)) else g1
  }

  function AddPeople(g: Graph, ps: seq<Entities.Person>, title: string): Graph
    decreases |ps|
  {
    if |ps| == 0 then g else AddPerson(AddPeople(g, ps[..|ps| - 1], title), ps[|ps| - 1], title)
  }

  function AddTopics(g: Graph, ts: seq<Entities.Topic>, title: string): Graph
    decreases |ts|
  {
    if |ts| == 0 then g else AddTopic(AddTopics(g, ts[..|ts| - 1], title), ts[|ts| - 1], title)
  }

  function AddDecisions(g: Graph, ds: seq<Entities.Decision>, title: string): Graph
    decreases |ds|
  {
    if |ds| == 0 then g else AddDecision(AddDecisions(g, ds[..|ds| - 1], title), ds[|ds| - 1], title)
  }

  function AddActions(g: Graph, xs: seq<Entities.ActionItem>, title: string): Graph
    decreases |xs|
  {
    if |xs| == 0 then g else AddAction(AddActions(g, xs[..|xs| - 1], title), xs[|xs| - 1], title)
  }

  function AddCommitments(g: Graph, cs: seq<Entities.Commitment>): Graph
    decreases |cs|
  {
    if |cs| == 0 then g else AddCommitment(AddCommitments(g, cs[..|cs| - 1]), cs[|cs| - 1])
  }

  /** The writes for the entities `build_graph` always creates: decisions, action items, commitments. */
  function Created(g: Graph, e: Entities.MeetingExtraction): Graph {
    var t := e.meetingTitle;
    AddCommitments(AddActions(AddDecisions(g, e.decisions, t), e.actionItems, t), e.commitments)
  }

  /** All writes of `build_graph`: the meeting first, then people, topics, decisions, action items, commitments. */
  function Build(g: Graph, e: Entities.MeetingExtraction): Graph {
    var t := e.meetingTitle;
    Created(AddTopics(AddPeople(Upsert(g, Meeting, t, e.meetingDate), e.people, t), e.topics, t), e)
  }

  function DecisionMakers(ds: seq<Entities.Decision>): (n: nat)
    ensures n <= |ds|
  {
    if |ds| == 0 then 0 else DecisionMakers(ds[..|ds| - 1]) + (if Given(ds[|ds| - 1].madeBy) then 1 else 0)
  }

  function DecisionTopics(ds: seq<Entities.Decision>): (n: nat)
    ensures n <= |ds|
  {
    if |ds| == 0 then 0 else DecisionTopics(ds[..|ds| - 1]) + (if Given(ds[|ds| - 1].relatedTopic) then 1 else 0)
  }

  function ActionOwners(xs: seq<Entities.ActionItem>): (n: nat)
    ensures n <= |xs|
  {
    if |xs| == 0 then 0 else ActionOwners(xs[..|xs| - 1]) + (if Given(xs[|xs| - 1].owner) then 1 else 0)
  }

  function CommitmentMakers(cs: seq<Entities.Commitment>): (n: nat)
    ensures n <= |cs|
  {
    if |cs| == 0 then 0 else CommitmentMakers(cs[..|cs| - 1]) + (if cs[|cs| - 1].madeBy != "" then 1 else 0)
  }

  /** The `stats` dict. */
  datatype Stats = Stats(meetings: nat, people: nat, topics: nat, decisions: nat,
                         actionItems: nat, commitments: nat, relationships: nat)

  /** The number of link calls `build_graph` makes for `e`, whatever they return. */
  function LinkAttempts(e: Entities.MeetingExtraction): nat {
    |e.people| + |e.topics| + |e.decisions| + |e.actionItems|
    + DecisionMakers(e.decisions) + DecisionTopics(e.decisions)
    + ActionOwners(e.actionItems) + CommitmentMakers(e.commitments)
  }

  class GraphBuilderAgent {
    const client: Client
    var connected: bool

    constructor (client: Client)
      ensures this.client == client && !connected
    {
      this.client := client;
      connected := false;
    }

    method Connect()
      modifies this, client`driver
      ensures connected
      ensures !old(connected) ==> client.driver == client.Session(old(client.driver))
      ensures old(connected) ==> client.driver == old(client.driver)
    {
      if !connected {
        client.Connect();
        connected := true;
      }
    }

    method Close()
      modifies this, client`driver
      ensures !connected
      ensures old(connected) ==> client.driver == None
      ensures !old(connected) ==> client.driver == old(client.driver)
    {
      if connected {
        client.Close();
        connected := false;
      }
    }

    /** `build_graph`: performs exactly the writes of `Build` and returns the counters. */
    method BuildGraph(e: Entities.MeetingExtraction) returns (stats: Stats)
      requires client.Valid()
      modifies this, client
      ensures connected && client.Valid()
      ensures client.driver == client.Session(old(client.driver))
      ensures client.Store() == Build(old(client.Store()), e)
      ensures stats.meetings == 1
      ensures stats.people == |e.people| && stats.topics == |e.topics| && stats.decisions == |e.decisions|
      ensures stats.actionItems == |e.actionItems| && stats.commitments == |e.commitments|
      ensures stats.relationships == LinkAttempts(e)
    {
      if !connected {
        Connect();
      }
      var title := e.meetingTitle;
      var _ := client.CreateMeeting(title, e.meetingDate);
      var r1 := WritePeople(e.people, title);
      var r2 := WriteTopics(e.topics, title);
      var r3 := WriteDecisions(e.decisions, title);
      var r4 := WriteActions(e.actionItems, title);
      var r5 := WriteCommitments(e.commitments);
      stats := Stats(1, |e.people|, |e.topics|, |e.decisions|, |e.actionItems|, |e.commitments|,
                     r1 + r2 + r3 + r4 + r5);
    }

    /** `get_graph_stats`: connects when needed, then the per-label node counts of the store. */
    method GetGraphStats() returns (counts: map<string, nat>)
      modifies this, client`driver
      ensures connected && client.Store() == old(client.Store())
      ensures counts.Keys == set l | l in AllLabels :: LabelName(l)
      ensures forall l :: l in AllLabels ==> counts[LabelName(l)] == CountLabel(client.nodes, l)
    {
      if !connected {
        Connect();
      }
      counts := client.GetNodeCounts();
    }

    /** The loop over `extraction.people`; returns the number of link calls it made. */
    method WritePeople(ps: seq<Entities.Person>, title: string) returns (links: nat)
      requires client.Valid()
      modifies client
      ensures client.Valid() && client.Store() == AddPeople(old(client.Store()), ps, title)
      ensures old(client.driver).Some? ==> client.driver == old(client.driver)
      ensures links == |ps|
    {
      ghost var g := client.Store();
      links := 0;
      var i := 0;
      while i < |ps|
        invariant 0 <= i <= |ps| && client.Valid()
        invariant old(client.driver).Some? ==> client.driver == old(client.driver)
        invariant client.Store() == AddPeople(g, ps[..i], title)
        invariant links == i
      {
        var _ := client.CreatePerson(ps[i].name, ps[i].role);
        var _ := client.LinkPersonToMeeting(ps[i].name, title);
        links := links + 1;
        assert ps[..i + 1][..i] == ps[..i];
        i := i + 1;
      }
      assert ps[..i] == ps;
    }

    /** The loop over `extraction.topics`. */
    method WriteTopics(ts: seq<Entities.Topic>, title: string) returns (links: nat)
      requires client.Valid()
      modifies client
      ensures client.Valid() && client.Store() == AddTopics(old(client.Store()), ts, title)
      ensures old(client.driver).Some? ==> client.driver == old(client.driver)
      ensures links == |ts|
    {
      ghost var g := client.Store();
      links := 0;
      var i := 0;
      while i < |ts|
        invariant 0 <= i <= |ts| && client.Valid()
        invariant old(client.driver).Some? ==> client.driver == old(client.driver)
        invariant client.Store() == AddTopics(g, ts[..i], title)
        invariant links == i
      {
        var _ := client.CreateTopic(ts[i].name, ts[i].description);
        var _ := client.LinkMeetingToTopic(title, ts[i].name);
        links := links + 1;
        assert ts[..i + 1][..i] == ts[..i];
        i := i + 1;
      }
      assert ts[..i] == ts;
    }

    /** The loop over `extraction.decisions`. */
    method WriteDecisions(ds: seq<Entities.Decision>, title: string) returns (links: nat)
      requires client.Valid()
      modifies client
      ensures client.Valid() && client.Store() == AddDecisions(old(client.Store()), ds, title)
      ensures old(client.driver).Some? ==> client.driver == old(client.driver)
      ensures links == |ds| + DecisionMakers(ds) + DecisionTopics(ds)
    {
      ghost var g := client.Store();
      links := 0;
      var i := 0;
      while i < |ds|
        invariant 0 <= i <= |ds| && client.Valid()
        invariant old(client.driver).Some? ==> client.driver == old(client.driver)
        invariant client.Store() == AddDecisions(g, ds[..i], title)
        invariant links == i + DecisionMakers(ds[..i]) + DecisionTopics(ds[..i])
      {
        ghost var before := ds[..i];
        var n := WriteDecision(ds[i], title);
        links := links + n;
        assert ds[..i + 1][..i] == before && ds[..i + 1][i] == ds[i];
        i := i + 1;
      }
      assert ds[..i] == ds;
    }

    /** One pass of the loop over `extraction.decisions`. */
    method WriteDecision(d: Entities.Decision, title: string) returns (links: nat)
      requires client.Valid()
      modifies client
      ensures client.Valid() && client.Store() == AddDecision(old(client.Store()), d, title)
      ensures old(client.driver).Some? ==> client.driver == old(client.driver)
      ensures links == 1 + (if Given(d.madeBy) then 1 else 0) + (if Given(d.relatedTopic) then 1 else 0)
    {
      var _ := client.CreateDecision(d.description);
      var _ := client.LinkMeetingToDecision(title, d.description);
      links := 1;
      if d.madeBy.Some? && d.madeBy.value != "" {
        var _ := client.LinkPersonToDecision(d.madeBy.value, d.description);
        links := links + 1;
      }
      if d.relatedTopic.Some? && d.relatedTopic.value != "" {
        var _ := client.LinkDecisionToTopic(d.description, d.relatedTopic.value);
        links := links + 1;
      }
    }

    /** The loop over `extraction.action_items`. */
    method WriteActions(xs: seq<Entities.ActionItem>, title: string) returns (links: nat)
      requires client.Valid()
      modifies client
      ensures client.Valid() && client.Store() == AddActions(old(client.Store()), xs, title)
      ensures old(client.driver).Some? ==> client.driver == old(client.driver)
      ensures links == |xs| + ActionOwners(xs)
    {
      ghost var g := client.Store();
      links := 0;
      var i := 0;
      while i < |xs|
        invariant 0 <= i <= |xs| && client.Valid()
        invariant old(client.driver).Some? ==> client.driver == old(client.driver)
        invariant client.Store() == AddActions(g, xs[..i], title)
        invariant links == i + ActionOwners(xs[..i])
      {
        ghost var before := xs[..i];
        var n := WriteAction(xs[i], title);
        links := links + n;
        assert xs[..i + 1][..i] == before && xs[..i + 1][i] == xs[i];
        i := i + 1;
      }
      assert xs[..i] == xs;
    }

    /** One pass of the loop over `extraction.action_items`. */
    method WriteAction(a: Entities.ActionItem, title: string) returns (links: nat)
      requires client.Valid()
      modifies client
      ensures client.Valid() && client.Store() == AddAction(old(client.Store()), a, title)
      ensures old(client.driver).Some? ==> client.driver == old(client.driver)
      ensures links == 1 + (if Given(a.owner) then 1 else 0)
    {
      var _ := client.CreateActionItem(a.description, a.deadline, a.priority);
      var _ := client.LinkMeetingToActionItem(title, a.description);
      links := 1;
      if a.owner.Some? && a.owner.value != "" {
        var _ := client.LinkPersonToActionItem(a.owner.value, a.description);
        links := links + 1;
      }
    }

    /** The loop over `extraction.commitments`. */
    method WriteCommitments(cs: seq<Entities.Commitment>) returns (links: nat)
      requires client.Valid()
      modifies client
      ensures client.Valid() && client.Store() == AddCommitments(old(client.Store()), cs)
      ensures old(client.driver).Some? ==> client.driver == old(client.driver)
      ensures links == CommitmentMakers(cs)
    {
      ghost var g := client.Store();
      links := 0;
      var i := 0;
      while i < |cs|
        invariant 0 <= i <= |cs| && client.Valid()
        invariant old(client.driver).Some? ==> client.driver == old(client.driver)
        invariant client.Store() == AddCommitments(g, cs[..i])
        invariant links == CommitmentMakers(cs[..i])
      {
        var c := cs[i];
        var _ := client.CreateCommitment(c.description);
        if c.madeBy != "" {
          var _ := client.LinkPersonToCommitment(c.madeBy, c.description);
          links := links + 1;
        }
        assert cs[..i + 1][..i] == cs[..i];
        i := i + 1;
      }
      assert cs[..i] == cs;
    }
  }

  // ---------------------------------------------------------------------------
  // What a build guarantees about the store

  /**
   * `g2` is `g1` after further writes of the builder: old nodes keep their
   * label and their keys, nodes other than people and topics are untouched,
   * and edges only accumulate.
   */
  ghost predicate Grows(g1: Graph, g2: Graph) {
    && |g1.nodes| <= |g2.nodes| && g1.edges <= g2.edges
    && (forall i :: 0 <= i < |g1.nodes| ==> g2.nodes[i].kind == g1.nodes[i].kind)
    && (forall i :: (0 <= i < |g1.nodes| && g1.nodes[i].kind != Person && g1.nodes[i].kind != Topic) ==>
          g2.nodes[i] == g1.nodes[i])
    && (forall i, l, k :: (0 <= i < |g1.nodes| && HasKey(g1.nodes[i], l, k)) ==> HasKey(g2.nodes[i], l, k))
  }

  lemma GrowsTrans(g1: Graph, g2: Graph, g3: Graph)
    requires Grows(g1, g2) && Grows(g2, g3)
    ensures Grows(g1, g3)
  {
    forall i, l, k | 0 <= i < |g1.nodes| && HasKey(g1.nodes[i], l, k)
      ensures HasKey(g3.nodes[i], l, k)
    {
      assert HasKey(g2.nodes[i], l, k);
    }
  }

  lemma UpsertGrows(g: Graph, kind: Label, k: string, v: Option<string>)
    requires kind == Person || kind == Topic
    ensures Grows(g, Upsert(g, kind, k, v))
  {
    assert MergeAttr(kind) != MergeKey(kind).value;
  }

  /** After an upsert, some node carries the key. */
  lemma UpsertHasKey(g: Graph, kind: Label, k: string, v: Option<string>)
    requires Mergeable(kind)
    ensures exists i :: 0 <= i < |Upsert(g, kind, k, v).nodes| && HasKey(Upsert(g, kind, k, v).nodes[i], kind, k)
  {
    var g' := Upsert(g, kind, k, v);
    assert MergeAttr(kind) != MergeKey(kind).value;
    if AnyHasKey(g.nodes, kind, k) {
      var i :| 0 <= i < |g.nodes| && HasKey(g.nodes[i], kind, k);
      assert HasKey(g'.nodes[i], kind, k);
    } else {
      assert HasKey(g'.nodes[|g.nodes|], kind, k);
    }
  }

  lemma LinkGrows(g: Graph, from: Endpoint, rel: RelType, to: Endpoint)
    ensures Grows(g, Link(g, from, rel, to))
  {
  }

  lemma InsertGrows(g: Graph, n: Node)
    ensures Grows(g, Insert(g, n))
  {
  }

  lemma AddPersonGrows(g: Graph, p: Entities.Person, title: string)
    ensures Grows(g, AddPerson(g, p, title))
  {
    var g1 := Upsert(g, Person, p.name, p.role);
    UpsertGrows(g, Person, p.name, p.role);
    LinkGrows(g1, PersonEnd(p.name), ATTENDED, MeetingEnd(title));
    GrowsTrans(g, g1, AddPerson(g, p, title));
  }

  lemma AddTopicGrows(g: Graph, t: Entities.Topic, title: string)
    ensures Grows(g, AddTopic(g, t, title))
  {
    var g1 := Upsert(g, Topic, t.name, t.description);
    UpsertGrows(g, Topic, t.name, t.description);
    LinkGrows(g1, MeetingEnd(title), DISCUSSED, TopicEnd(t.name));
    GrowsTrans(g, g1, AddTopic(g, t, title));
  }

  lemma AddDecisionGrows(g: Graph, d: Entities.Decision, title: string)
    ensures Grows(g, AddDecision(g, d, title))
  {
  }

  lemma AddActionGrows(g: Graph, a: Entities.ActionItem, title: string)
    ensures Grows(g, AddAction(g, a, title))
  {
  }

  lemma AddCommitmentGrows(g: Graph, c: Entities.Commitment)
    ensures Grows(g, AddCommitment(g, c))
  {
  }

  lemma {:induction false} AddPeopleGrows(g: Graph, ps: seq<Entities.Person>, k: nat, title: string)
    requires k <= |ps|
    ensures Grows(AddPeople(g, ps[..k], title), AddPeople(g, ps, title))
    decreases |ps|
  {
    if k == |ps| {
      assert ps[..k] == ps;
    } else {
      var front := ps[..|ps| - 1];
      assert front[..k] == ps[..k];
      AddPeopleGrows(g, front, k, title);
      AddPersonGrows(AddPeople(g, front, title), ps[|ps| - 1], title);
      GrowsTrans(AddPeople(g, ps[..k], title), AddPeople(g, front, title), AddPeople(g, ps, title));
    }
  }

  lemma {:induction false} AddTopicsGrows(g: Graph, ts: seq<Entities.Topic>, k: nat, title: string)
    requires k <= |ts|
    ensures Grows(AddTopics(g, ts[..k], title), AddTopics(g, ts, title))
    decreases |ts|
  {
    if k == |ts| {
      assert ts[..k] == ts;
    } else {
      var front := ts[..|ts| - 1];
      assert front[..k] == ts[..k];
      AddTopicsGrows(g, front, k, title);
      AddTopicGrows(AddTopics(g, front, title), ts[|ts| - 1], title);
      GrowsTrans(AddTopics(g, ts[..k], title), AddTopics(g, front, title), AddTopics(g, ts, title));
    }
  }

  lemma {:induction false} AddDecisionsGrows(g: Graph, ds: seq<Entities.Decision>, title: string)
    ensures Grows(g, AddDecisions(g, ds, title))
    decreases |ds|
  {
    if |ds| > 0 {
      var front := AddDecisions(g, ds[..|ds| - 1], title);
      AddDecisionsGrows(g, ds[..|ds| - 1], title);
      AddDecisionGrows(front, ds[|ds| - 1], title);
      GrowsTrans(g, front, AddDecisions(g, ds, title));
    }
  }

  lemma {:induction false} AddActionsGrows(g: Graph, xs: seq<Entities.ActionItem>, title: string)
    ensures Grows(g, AddActions(g, xs, title))
    decreases |xs|
  {
    if |xs| > 0 {
      var front := AddActions(g, xs[..|xs| - 1], title);
      AddActionsGrows(g, xs[..|xs| - 1], title);
      AddActionGrows(front, xs[|xs| - 1], title);
      GrowsTrans(g, front, AddActions(g, xs, title));
    }
  }

  lemma {:induction false} AddCommitmentsGrows(g: Graph, cs: seq<Entities.Commitment>)
    ensures Grows(g, AddCommitments(g, cs))
    decreases |cs|
  {
    if |cs| > 0 {
      var front := AddCommitments(g, cs[..|cs| - 1]);
      AddCommitmentsGrows(g, cs[..|cs| - 1]);
      AddCommitmentGrows(front, cs[|cs| - 1]);
      GrowsTrans(g, front, AddCommitments(g, cs));
    }
  }

  lemma CreatedGrows(g: Graph, e: Entities.MeetingExtraction)
    ensures Grows(g, Created(g, e))
  {
    var t := e.meetingTitle;
    var g4 := AddDecisions(g, e.decisions, t);
    var g5 := AddActions(g4, e.actionItems, t);
    AddDecisionsGrows(g, e.decisions, t);
    AddActionsGrows(g4, e.actionItems, t);
    AddCommitmentsGrows(g5, e.commitments);
    GrowsTrans(g, g4, g5);
    GrowsTrans(g, g5, Created(g, e));
  }

  /** Everything after the meeting's own upsert only grows the store. */
  lemma BuildGrows(g: Graph, e: Entities.MeetingExtraction)
    ensures Grows(Upsert(g, Meeting, e.meetingTitle, e.meetingDate), Build(g, e))
  {
    var t := e.meetingTitle;
    var g1 := Upsert(g, Meeting, t, e.meetingDate);
    var g2 := AddPeople(g1, e.people, t);
    RestGrows(g2, e);
    assert e.people[..0] == [];
    AddPeopleGrows(g1, e.people, 0, t);
    GrowsTrans(g1, g2, Build(g, e));
  }

  /** After a build the meeting node exists, keyed by its title, with the extracted date (or none). */
  lemma BuildRecordsMeeting(g: Graph, e: Entities.MeetingExtraction)
    ensures var g' := Build(g, e);
      exists i :: 0 <= i < |g'.nodes| && HasKey(g'.nodes[i], Meeting, e.meetingTitle) &&
        ("date" in g'.nodes[i].props <==> e.meetingDate.Some?) &&
        (e.meetingDate.Some? ==> g'.nodes[i].props["date"] == e.meetingDate.value)
  {
    var g1 := Upsert(g, Meeting, e.meetingTitle, e.meetingDate);
    UpsertHasKey(g, Meeting, e.meetingTitle, e.meetingDate);
    var i :| 0 <= i < |g1.nodes| && HasKey(g1.nodes[i], Meeting, e.meetingTitle);
    if AnyHasKey(g.nodes, Meeting, e.meetingTitle) {
      assert HasKey(g.nodes[i], Meeting, e.meetingTitle);
    }
    BuildGrows(g, e);
    assert Build(g, e).nodes[i] == g1.nodes[i];
  }

  // ---------------------------------------------------------------------------
  // Every attendee and every topic ends up linked to the meeting

  lemma SelfMatch(n: Node, kind: Label, prop: string)
    requires n.kind == kind && prop in n.props
    ensures FuzzyMatch(n, kind, prop, n.props[prop])
  {
    assert StartsWith(Lower(n.props[prop]), Lower(n.props[prop]));
  }

  /** Some person keyed `name` has an ATTENDED edge to some meeting keyed `title`. */
  ghost predicate Attended(g: Graph, name: string, title: string) {
    exists i, j :: 0 <= i < |g.nodes| && 0 <= j < |g.nodes| &&
      HasKey(g.nodes[i], Person, name) && HasKey(g.nodes[j], Meeting, title) && Edge(i, ATTENDED, j) in g.edges
  }

  /** Some meeting keyed `title` has a DISCUSSED edge to some topic keyed `name`. */
  ghost predicate Discussed(g: Graph, title: string, name: string) {
    exists i, j :: 0 <= i < |g.nodes| && 0 <= j < |g.nodes| &&
      HasKey(g.nodes[j], Meeting, title) && HasKey(g.nodes[i], Topic, name) && Edge(j, DISCUSSED, i) in g.edges
  }

  ghost predicate HasMeeting(g: Graph, title: string) {
    exists j :: 0 <= j < |g.nodes| && HasKey(g.nodes[j], Meeting, title)
  }

  lemma GrowsKeepsMeeting(g1: Graph, g2: Graph, title: string)
    requires Grows(g1, g2) && HasMeeting(g1, title)
    ensures HasMeeting(g2, title)
  {
    var j :| 0 <= j < |g1.nodes| && HasKey(g1.nodes[j], Meeting, title);
    assert HasKey(g2.nodes[j], Meeting, title);
  }

  lemma GrowsKeepsAttended(g1: Graph, g2: Graph, name: string, title: string)
    requires Grows(g1, g2) && Attended(g1, name, title)
    ensures Attended(g2, name, title)
  {
    var i, j :| 0 <= i < |g1.nodes| && 0 <= j < |g1.nodes| &&
      HasKey(g1.nodes[i], Person, name) && HasKey(g1.nodes[j], Meeting, title) && Edge(i, ATTENDED, j) in g1.edges;
    assert HasKey(g2.nodes[i], Person, name) && HasKey(g2.nodes[j], Meeting, title);
  }

  lemma GrowsKeepsDiscussed(g1: Graph, g2: Graph, title: string, name: string)
    requires Grows(g1, g2) && Discussed(g1, title, name)
    ensures Discussed(g2, title, name)
  {
    var i, j :| 0 <= i < |g1.nodes| && 0 <= j < |g1.nodes| &&
      HasKey(g1.nodes[j], Meeting, title) && HasKey(g1.nodes[i], Topic, name) && Edge(j, DISCUSSED, i) in g1.edges;
    assert HasKey(g2.nodes[i], Topic, name) && HasKey(g2.nodes[j], Meeting, title);
  }

  /** Adding a person once the meeting exists always produces their ATTENDED edge. */
  lemma AddPersonAttends(g: Graph, p: Entities.Person, title: string)
    requires HasMeeting(g, title)
    ensures Attended(AddPerson(g, p, title), p.name, title)
  {
    var g1 := Upsert(g, Person, p.name, p.role);
    UpsertGrows(g, Person, p.name, p.role);
    GrowsKeepsMeeting(g, g1, title);
    var j :| 0 <= j < |g1.nodes| && HasKey(g1.nodes[j], Meeting, title);
    UpsertHasKey(g, Person, p.name, p.role);
    var i :| 0 <= i < |g1.nodes| && HasKey(g1.nodes[i], Person, p.name);
    SelfMatch(g1.nodes[i], Person, "name");
    SelfMatch(g1.nodes[j], Meeting, "title");
    assert Edge(i, ATTENDED, j) in PairEdges(g1, PersonEnd(p.name), ATTENDED, MeetingEnd(title));
  }

  lemma AddTopicDiscussed(g: Graph, t: Entities.Topic, title: string)
    requires HasMeeting(g, title)
    ensures Discussed(AddTopic(g, t, title), title, t.name)
  {
    var g1 := Upsert(g, Topic, t.name, t.description);
    UpsertGrows(g, Topic, t.name, t.description);
    GrowsKeepsMeeting(g, g1, title);
    var j :| 0 <= j < |g1.nodes| && HasKey(g1.nodes[j], Meeting, title);
    UpsertHasKey(g, Topic, t.name, t.description);
    var i :| 0 <= i < |g1.nodes| && HasKey(g1.nodes[i], Topic, t.name);
    SelfMatch(g1.nodes[i], Topic, "name");
    SelfMatch(g1.nodes[j], Meeting, "title");
    assert Edge(j, DISCUSSED, i) in PairEdges(g1, MeetingEnd(title), DISCUSSED, TopicEnd(t.name));
  }

  /** The iteration for person `k` of the loop produces their ATTENDED edge. */
  lemma AddPeopleStep(g: Graph, ps: seq<Entities.Person>, k: nat, t: string)
    requires k < |ps| && HasMeeting(g, t)
    ensures Attended(AddPeople(g, ps[..k + 1], t), ps[k].name, t)
  {
    var before := AddPeople(g, ps[..k], t);
    assert ps[..0] == [];
    AddPeopleGrows(g, ps[..k], 0, t);
    GrowsKeepsMeeting(g, before, t);
    AddPersonAttends(before, ps[k], t);
    assert ps[..k + 1][..k] == ps[..k];
  }

  /** Within the people loop: once the meeting exists, person `k` has attended by the end of the loop. */
  lemma AddPeopleAttended(g: Graph, ps: seq<Entities.Person>, k: nat, t: string)
    requires k < |ps| && HasMeeting(g, t)
    ensures Attended(AddPeople(g, ps, t), ps[k].name, t)
  {
    AddPeopleStep(g, ps, k, t);
    AddPeopleGrows(g, ps, k + 1, t);
    GrowsKeepsAttended(AddPeople(g, ps[..k + 1], t), AddPeople(g, ps, t), ps[k].name, t);
  }

  /** However fuzzy matching behaves elsewhere, each extracted attendee is linked to the meeting by the end of a build. */
  lemma BuildLinksAttendees(g: Graph, e: Entities.MeetingExtraction, k: nat)
    requires k < |e.people|
    ensures Attended(Build(g, e), e.people[k].name, e.meetingTitle)
  {
    var t := e.meetingTitle;
    var g1 := Upsert(g, Meeting, t, e.meetingDate);
    UpsertHasKey(g, Meeting, t, e.meetingDate);
    AddPeopleAttended(g1, e.people, k, t);
    var g2 := AddPeople(g1, e.people, t);
    RestGrows(g2, e);
    GrowsKeepsAttended(g2, Build(g, e), e.people[k].name, t);
  }

  /** The phases after the people loop only grow the store. */
  lemma RestGrows(g2: Graph, e: Entities.MeetingExtraction)
    ensures Grows(g2, Created(AddTopics(g2, e.topics, e.meetingTitle), e))
  {
    var g3 := AddTopics(g2, e.topics, e.meetingTitle);
    assert e.topics[..0] == [];
    AddTopicsGrows(g2, e.topics, 0, e.meetingTitle);
    CreatedGrows(g3, e);
    GrowsTrans(g2, g3, Created(g3, e));
  }

  /** The iteration for topic `k` of the loop produces its DISCUSSED edge. */
  lemma AddTopicsStep(g: Graph, ts: seq<Entities.Topic>, k: nat, t: string)
    requires k < |ts| && HasMeeting(g, t)
    ensures Discussed(AddTopics(g, ts[..k + 1], t), t, ts[k].name)
  {
    var before := AddTopics(g, ts[..k], t);
    assert ts[..0] == [];
    AddTopicsGrows(g, ts[..k], 0, t);
    GrowsKeepsMeeting(g, before, t);
    AddTopicDiscussed(before, ts[k], t);
    assert ts[..k + 1][..k] == ts[..k];
  }

  /** Within the topic loop: once the meeting exists, topic `k` is discussed by the end of the loop. */
  lemma AddTopicsDiscussed(g: Graph, ts: seq<Entities.Topic>, k: nat, t: string)
    requires k < |ts| && HasMeeting(g, t)
    ensures Discussed(AddTopics(g, ts, t), t, ts[k].name)
  {
    AddTopicsStep(g, ts, k, t);
    AddTopicsGrows(g, ts, k + 1, t);
    GrowsKeepsDiscussed(AddTopics(g, ts[..k + 1], t), AddTopics(g, ts, t), t, ts[k].name);
  }

  /** Each extracted topic ends up with a DISCUSSED edge from the meeting by the end of a build. */
  lemma BuildLinksTopics(g: Graph, e: Entities.MeetingExtraction, k: nat)
    requires k < |e.topics|
    ensures Discussed(Build(g, e), e.meetingTitle, e.topics[k].name)
  {
    var t := e.meetingTitle;
    var g1 := Upsert(g, Meeting, t, e.meetingDate);
    UpsertHasKey(g, Meeting, t, e.meetingDate);
    var g2 := AddPeople(g1, e.people, t);
    assert e.people[..0] == [];
    AddPeopleGrows(g1, e.people, 0, t);
    GrowsKeepsMeeting(g1, g2, t);
    AddTopicsDiscussed(g2, e.topics, k, t);
    var g3 := AddTopics(g2, e.topics, t);
    CreatedGrows(g3, e);
    GrowsKeepsDiscussed(g3, Build(g, e), t, e.topics[k].name);
  }

  // ---------------------------------------------------------------------------
  // Node counts: created kinds grow by exactly the list length, merged kinds by at most it

  lemma {:induction false} CountSameKinds(a: seq<Node>, b: seq<Node>, kind: Label)
    requires |a| == |b| && forall i :: 0 <= i < |a| ==> a[i].kind == b[i].kind
    ensures CountLabel(a, kind) == CountLabel(b, kind)
  {
    if |a| > 0 {
      CountSameKinds(a[..|a| - 1], b[..|b| - 1], kind);
    }
  }

  lemma UpsertCount(g: Graph, kind: Label, k: string, v: Option<string>, l: Label)
    requires Mergeable(kind)
    ensures l != kind ==> CountLabel(Upsert(g, kind, k, v).nodes, l) == CountLabel(g.nodes, l)
    ensures l == kind ==> CountLabel(Upsert(g, kind, k, v).nodes, l) <= CountLabel(g.nodes, l) + 1
  {
    var g' := Upsert(g, kind, k, v);
    if AnyHasKey(g.nodes, kind, k) {
      CountSameKinds(g.nodes, g'.nodes, l);
    } else {
      CountAfterInsert(g.nodes, g'.nodes[|g.nodes|], l);
      assert g'.nodes == g.nodes + [g'.nodes[|g.nodes|]];
    }
  }

  lemma {:induction false} AddPeopleCount(g: Graph, ps: seq<Entities.Person>, t: string, l: Label)
    ensures l != Person ==> CountLabel(AddPeople(g, ps, t).nodes, l) == CountLabel(g.nodes, l)
    ensures l == Person ==> CountLabel(AddPeople(g, ps, t).nodes, l) <= CountLabel(g.nodes, l) + |ps|
    decreases |ps|
  {
    if |ps| > 0 {
      var front := AddPeople(g, ps[..|ps| - 1], t);
      AddPeopleCount(g, ps[..|ps| - 1], t, l);
      UpsertCount(front, Person, ps[|ps| - 1].name, ps[|ps| - 1].role, l);
    }
  }

  lemma {:induction false} AddTopicsCount(g: Graph, ts: seq<Entities.Topic>, t: string, l: Label)
    ensures l != Topic ==> CountLabel(AddTopics(g, ts, t).nodes, l) == CountLabel(g.nodes, l)
    ensures l == Topic ==> CountLabel(AddTopics(g, ts, t).nodes, l) <= CountLabel(g.nodes, l) + |ts|
    decreases |ts|
  {
    if |ts| > 0 {
      var front := AddTopics(g, ts[..|ts| - 1], t);
      AddTopicsCount(g, ts[..|ts| - 1], t, l);
      UpsertCount(front, Topic, ts[|ts| - 1].name, ts[|ts| - 1].description, l);
    }
  }

  lemma {:induction false} AddDecisionsCount(g: Graph, ds: seq<Entities.Decision>, t: string, l: Label)
    ensures CountLabel(AddDecisions(g, ds, t).nodes, l) == CountLabel(g.nodes, l) + (if l == Decision then |ds| else 0)
    decreases |ds|
  {
    if |ds| > 0 {
      var front := AddDecisions(g, ds[..|ds| - 1], t);
      AddDecisionsCount(g, ds[..|ds| - 1], t, l);
      CountAfterInsert(front.nodes, DecisionNode(ds[|ds| - 1].description), l);
    }
  }

  lemma {:induction false} AddActionsCount(g: Graph, xs: seq<Entities.ActionItem>, t: string, l: Label)
    ensures CountLabel(AddActions(g, xs, t).nodes, l) == CountLabel(g.nodes, l) + (if l == ActionItem then |xs| else 0)
    decreases |xs|
  {
    if |xs| > 0 {
      var front := AddActions(g, xs[..|xs| - 1], t);
      var a := xs[|xs| - 1];
      AddActionsCount(g, xs[..|xs| - 1], t, l);
      CountAfterInsert(front.nodes, ActionItemNode(a.description, a.deadline, a.priority), l);
    }
  }

  lemma {:induction false} AddCommitmentsCount(g: Graph, cs: seq<Entities.Commitment>, l: Label)
    ensures CountLabel(AddCommitments(g, cs).nodes, l) == CountLabel(g.nodes, l) + (if l == Commitment then |cs| else 0)
    decreases |cs|
  {
    if |cs| > 0 {
      var front := AddCommitments(g, cs[..|cs| - 1]);
      AddCommitmentsCount(g, cs[..|cs| - 1], l);
      CountAfterInsert(front.nodes, CommitmentNode(cs[|cs| - 1].description), l);
    }
  }

  lemma CreatedCount(g: Graph, e: Entities.MeetingExtraction, l: Label)
    ensures CountLabel(Created(g, e).nodes, l) == CountLabel(g.nodes, l)
      + (if l == Decision then |e.decisions| else 0)
      + (if l == ActionItem then |e.actionItems| else 0)
      + (if l == Commitment then |e.commitments| else 0)
  {
    var t := e.meetingTitle;
    var g4 := AddDecisions(g, e.decisions, t);
    AddDecisionsCount(g, e.decisions, t, l);
    AddActionsCount(g4, e.actionItems, t, l);
    AddCommitmentsCount(AddActions(g4, e.actionItems, t), e.commitments, l);
  }

  lemma BuildCountLabel(g: Graph, e: Entities.MeetingExtraction, l: Label)
    ensures var c := CountLabel(Build(g, e).nodes, l);
      && (l == Decision ==> c == CountLabel(g.nodes, l) + |e.decisions|)
      && (l == ActionItem ==> c == CountLabel(g.nodes, l) + |e.actionItems|)
      && (l == Commitment ==> c == CountLabel(g.nodes, l) + |e.commitments|)
      && (l == Meeting ==> c <= CountLabel(g.nodes, l) + 1)
      && (l == Person ==> c <= CountLabel(g.nodes, l) + |e.people|)
      && (l == Topic ==> c <= CountLabel(g.nodes, l) + |e.topics|)
  {
    var t := e.meetingTitle;
    var g1 := Upsert(g, Meeting, t, e.meetingDate);
    var g2 := AddPeople(g1, e.people, t);
    UpsertCount(g, Meeting, t, e.meetingDate, l);
    AddPeopleCount(g1, e.people, t, l);
    AddTopicsCount(g2, e.topics, t, l);
    CreatedCount(AddTopics(g2, e.topics, t), e, l);
  }

  /**
   * A build creates one node per decision, action item and commitment, even for
   * repeated descriptions, while meetings, people and topics are merged and
   * grow by at most one per extracted entry.
   */
  lemma BuildCounts(g: Graph, e: Entities.MeetingExtraction)
    ensures var n := Build(g, e).nodes;
      && CountLabel(n, Decision) == CountLabel(g.nodes, Decision) + |e.decisions|
      && CountLabel(n, ActionItem) == CountLabel(g.nodes, ActionItem) + |e.actionItems|
      && CountLabel(n, Commitment) == CountLabel(g.nodes, Commitment) + |e.commitments|
      && CountLabel(n, Meeting) <= CountLabel(g.nodes, Meeting) + 1
      && CountLabel(n, Person) <= CountLabel(g.nodes, Person) + |e.people|
      && CountLabel(n, Topic) <= CountLabel(g.nodes, Topic) + |e.topics|
  {
    BuildCountLabel(g, e, Decision);
    BuildCountLabel(g, e, ActionItem);
    BuildCountLabel(g, e, Commitment);
    BuildCountLabel(g, e, Meeting);
    BuildCountLabel(g, e, Person);
    BuildCountLabel(g, e, Topic);
  }

  // ---------------------------------------------------------------------------
  // Edges follow the schema

  /** The relationship schema: which labels each relationship type joins. */
  predicate Allowed(src: Label, rel: RelType, dst: Label) {
    match rel
    case ATTENDED => src == Person && dst == Meeting
    case DISCUSSED => src == Meeting && dst == Topic
    case MADE => src == Person && dst == Decision
    case OWNS => src == Person && dst == ActionItem
    case COMMITTED => src == Person && dst == Commitment
    case ABOUT => src == Decision && dst == Topic
    case CONTAINS => src == Meeting && (dst == Decision || dst == ActionItem)
  }

  ghost predicate Typed(g: Graph) {
    forall e :: e in g.edges ==>
      e.src < |g.nodes| && e.dst < |g.nodes| && Allowed(g.nodes[e.src].kind, e.rel, g.nodes[e.dst].kind)
  }

  lemma UpsertKeepsTyped(g: Graph, kind: Label, k: string, v: Option<string>)
    requires Mergeable(kind) && Typed(g)
    ensures Typed(Upsert(g, kind, k, v))
  {
  }

  lemma LinkKeepsTyped(g: Graph, from: Endpoint, rel: RelType, to: Endpoint)
    requires Typed(g) && Allowed(from.kind, rel, to.kind)
    ensures Typed(Link(g, from, rel, to))
  {
  }

  lemma {:induction false} AddPeopleTyped(g: Graph, ps: seq<Entities.Person>, t: string)
    requires Typed(g)
    ensures Typed(AddPeople(g, ps, t))
    decreases |ps|
  {
    if |ps| > 0 {
      var front := AddPeople(g, ps[..|ps| - 1], t);
      AddPeopleTyped(g, ps[..|ps| - 1], t);
      UpsertKeepsTyped(front, Person, ps[|ps| - 1].name, ps[|ps| - 1].role);
      LinkKeepsTyped(Upsert(front, Person, ps[|ps| - 1].name, ps[|ps| - 1].role), PersonEnd(ps[|ps| - 1].name), ATTENDED, MeetingEnd(t));
    }
  }

  lemma {:induction false} AddTopicsTyped(g: Graph, ts: seq<Entities.Topic>, t: string)
    requires Typed(g)
    ensures Typed(AddTopics(g, ts, t))
    decreases |ts|
  {
    if |ts| > 0 {
      var front := AddTopics(g, ts[..|ts| - 1], t);
      AddTopicsTyped(g, ts[..|ts| - 1], t);
      UpsertKeepsTyped(front, Topic, ts[|ts| - 1].name, ts[|ts| - 1].description);
      LinkKeepsTyped(Upsert(front, Topic, ts[|ts| - 1].name, ts[|ts| - 1].description), MeetingEnd(t), DISCUSSED, TopicEnd(ts[|ts| - 1].name));
    }
  }

  lemma AddDecisionTyped(g: Graph, d: Entities.Decision, t: string)
    requires Typed(g)
    ensures Typed(AddDecision(g, d, t))
  {
    var g0 := Insert(g, DecisionNode(d.description));
    var g1 := Link(g0, MeetingEnd(t), CONTAINS, DecisionEnd(d.description));
    LinkKeepsTyped(g0, MeetingEnd(t), CONTAINS, DecisionEnd(d.description));
    var g2 := if Given(d.madeBy) then Link(g1, PersonEnd(d.madeBy.value), MADE, DecisionEnd(d.description)) else g1;
    if Given(d.madeBy) {
      LinkKeepsTyped(g1, PersonEnd(d.madeBy.value), MADE, DecisionEnd(d.description));
    }
    if Given(d.relatedTopic) {
      LinkKeepsTyped(g2, DecisionEnd(d.description), ABOUT, TopicEnd(d.relatedTopic.value));
    }
  }

  lemma {:induction false} AddDecisionsTyped(g: Graph, ds: seq<Entities.Decision>, t: string)
    requires Typed(g)
    ensures Typed(AddDecisions(g, ds, t))
    decreases |ds|
  {
    if |ds| > 0 {
      AddDecisionsTyped(g, ds[..|ds| - 1], t);
      AddDecisionTyped(AddDecisions(g, ds[..|ds| - 1], t), ds[|ds| - 1], t);
    }
  }

  lemma AddActionTyped(g: Graph, a: Entities.ActionItem, t: string)
    requires Typed(g)
    ensures Typed(AddAction(g, a, t))
  {
    var g0 := Insert(g, ActionItemNode(a.description, a.deadline, a.priority));
    var g1 := Link(g0, MeetingEnd(t), CONTAINS, ActionEnd(a.description));
    LinkKeepsTyped(g0, MeetingEnd(t), CONTAINS, ActionEnd(a.description));
    if Given(a.owner) {
      LinkKeepsTyped(g1, PersonEnd(a.owner.value), OWNS, ActionEnd(a.description));
    }
  }

  lemma {:induction false} AddActionsTyped(g: Graph, xs: seq<Entities.ActionItem>, t: string)
    requires Typed(g)
    ensures Typed(AddActions(g, xs, t))
    decreases |xs|
  {
    if |xs| > 0 {
      AddActionsTyped(g, xs[..|xs| - 1], t);
      AddActionTyped(AddActions(g, xs[..|xs| - 1], t), xs[|xs| - 1], t);
    }
  }

  lemma {:induction false} AddCommitmentsTyped(g: Graph, cs: seq<Entities.Commitment>)
    requires Typed(g)
    ensures Typed(AddCommitments(g, cs))
    decreases |cs|
  {
    if |cs| > 0 {
      var front := AddCommitments(g, cs[..|cs| - 1]);
      var c := cs[|cs| - 1];
      AddCommitmentsTyped(g, cs[..|cs| - 1]);
      if c.madeBy != "" {
        LinkKeepsTyped(Insert(front, CommitmentNode(c.description)), PersonEnd(c.madeBy), COMMITTED, CommitmentEnd(c.description));
      }
    }
  }

  /**
   * A build keeps every edge within the schema; in particular no meeting is
   * ever joined directly to a commitment.
   */
  lemma BuildTyped(g: Graph, e: Entities.MeetingExtraction)
    requires Typed(g)
    ensures Typed(Build(g, e))
    ensures forall x :: x in Build(g, e).edges ==>
      !(Build(g, e).nodes[x.src].kind == Meeting && Build(g, e).nodes[x.dst].kind == Commitment)
  {
    var t := e.meetingTitle;
    var g1 := Upsert(g, Meeting, t, e.meetingDate);
    UpsertKeepsTyped(g, Meeting, t, e.meetingDate);
    AddPeopleTyped(g1, e.people, t);
    var g2 := AddPeople(g1, e.people, t);
    AddTopicsTyped(g2, e.topics, t);
    var g3 := AddTopics(g2, e.topics, t);
    AddDecisionsTyped(g3, e.decisions, t);
    var g4 := AddDecisions(g3, e.decisions, t);
    AddActionsTyped(g4, e.actionItems, t);
    AddCommitmentsTyped(AddActions(g4, e.actionItems, t), e.commitments);
    assert Build(g, e) == AddCommitments(AddActions(g4, e.actionItems, t), e.commitments);
  }

  /**
   * The relationship counter counts link attempts, not edges: a decision made by
   * someone who is not in the store adds two to the counter but only its
   * CONTAINS edge to the graph.
   */
  lemma CounterCountsAttempts()
    ensures var e := Entities.MeetingExtraction("Sync", None, [], [],
                                                [Entities.Decision("Ship", Some("Zed"), None)], [], []);
      LinkAttempts(e) == 2 && Build(EmptyGraph, e).edges == {Edge(0, CONTAINS, 1)}
  {
    var e := Entities.MeetingExtraction("Sync", None, [], [], [Entities.Decision("Ship", Some("Zed"), None)], [], []);
    var d := e.decisions[0];
    assert e.decisions[..0] == [];
    var g1 := Upsert(EmptyGraph, Meeting, "Sync", None);
    assert !AnyHasKey(EmptyGraph.nodes, Meeting, "Sync");
    assert map["title" := "Sync"] - {"date"} == map["title" := "Sync"];
    assert g1.nodes == [Node(Meeting, map["title" := "Sync"])];
    var g0 := Insert(g1, DecisionNode("Ship"));
    SelfMatch(g0.nodes[0], Meeting, "title");
    SelfMatch(g0.nodes[1], Decision, "description");
    assert Matching(g0, Meeting, "title", "Sync") == {0};
    assert Matching(g0, Decision, "description", "Ship") == {1};
    var g2 := Link(g0, MeetingEnd("Sync"), CONTAINS, DecisionEnd("Ship"));
    assert g2.edges == {Edge(0, CONTAINS, 1)};
    assert Matching(g2, Person, "name", "Zed") == {};
    assert Build(EmptyGraph, e) == AddDecision(g1, d, "Sync");
  }
}
