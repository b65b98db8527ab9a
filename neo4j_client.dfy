/**
 * The graph store client: its driver state and the write helpers, over an
 * in-memory graph whose meaning is given by the functions of `GraphModel`.
 * Every statement opens a session, and opening a session connects first when
 * there is no driver yet, so each store operation may set the driver.
 */
module Neo4jClient {
  import opened Wrappers
  import opened Config
  import opened GraphModel

  /** The connection parameters a driver was created with. */
  datatype Driver = Driver(uri: string, username: string, password: string)

  /** Python's `x or default` for an optional string argument. */
  function OrDefault(x: Option<string>, default: string): (r: string)
    ensures x.Some? && x.value != "" ==> r == x.value
    ensures x.None? || x.value == "" ==> r == default
  {
    if x.Some? && x.value != "" then x.value else default
  }

  class Client {
    const uri: string
    const username: string
    const password: string
    var driver: Option<Driver>
    var nodes: seq<Node>
    var edges: set<Edge>

    /** The database contents as a value. */
    function Store(): Graph
      reads this`nodes, this`edges
    {
      Graph(nodes, edges)
    }

    ghost predicate Valid()
      reads this`nodes, this`edges
    {
      GraphModel.Valid(Store())
    }

    /** A client for the database whose current contents are `db`; arguments left out fall back to the settings. */
    constructor (uri: Option<string>, username: Option<string>, password: Option<string>, settings: Settings, db: Graph)
      requires GraphModel.Valid(db)
      ensures Valid() && Store() == db && driver == None
      ensures this.uri == OrDefault(uri, settings.neo4jUri)
      ensures this.username == OrDefault(username, settings.neo4jUsername)
      ensures this.password == OrDefault(password, settings.neo4jPassword)
    {
      this.uri := OrDefault(uri, settings.neo4jUri);
      this.username := OrDefault(username, settings.neo4jUsername);
      this.password := OrDefault(password, settings.neo4jPassword);
      driver := None;
      nodes := db.nodes;
      edges := db.edges;
    }

    /** The driver a statement runs under: `session()` connects first when there is none. */
    function Session(d: Option<Driver>): (r: Option<Driver>)
      ensures r.Some?
    {
      if d.None? then Some(Driver(uri, username, password)) else d
    }

    /** Creates a driver only when there is none, so connecting twice is connecting once. */
    method Connect()
      modifies this`driver
      ensures driver == Session(old(driver))
    {
      if driver.None? {
        driver := Some(Driver(uri, username, password));
      }
    }

    method Close()
      modifies this`driver
      ensures driver == None
    {
      if driver.Some? {
        driver := None;
      }
    }

    /** `MERGE` a node of a merged label on its key and overwrite its secondary attribute. */
    method Merge(kind: Label, k: string, v: Option<string>) returns (id: nat)
      requires Valid() && Mergeable(kind)
      modifies this
      ensures Valid() && Store() == Upsert(old(Store()), kind, k, v)
      ensures id < |nodes| && HasKey(nodes[id], kind, k)
      ensures driver == Session(old(driver))
    {
      Connect();
      UpsertSemantics(Store(), kind, k, v);
      var g := Upsert(Store(), kind, k, v);
      nodes, edges := g.nodes, g.edges;
      id :| 0 <= id < |nodes| && HasKey(nodes[id], kind, k);
    }

    method CreateMeeting(title: string, date: Option<string>) returns (id: nat)
      requires Valid()
      modifies this
      ensures Valid() && Store() == Upsert(old(Store()), Meeting, title, date)
      ensures id < |nodes| && HasKey(nodes[id], Meeting, title)
      ensures driver == Session(old(driver))
    {
      id := Merge(Meeting, title, date);
    }

    method CreatePerson(name: string, role: Option<string>) returns (id: nat)
      requires Valid()
      modifies this
      ensures Valid() && Store() == Upsert(old(Store()), Person, name, role)
      ensures id < |nodes| && HasKey(nodes[id], Person, name)
      ensures driver == Session(old(driver))
    {
      id := Merge(Person, name, role);
    }

    method CreateTopic(name: string, description: Option<string>) returns (id: nat)
      requires Valid()
      modifies this
      ensures Valid() && Store() == Upsert(old(Store()), Topic, name, description)
      ensures id < |nodes| && HasKey(nodes[id], Topic, name)
      ensures driver == Session(old(driver))
    {
      id := Merge(Topic, name, description);
    }

    /** `CREATE` a node of a label that is never merged. */
    method Create(n: Node) returns (id: nat)
      requires Valid() && MergeKey(n.kind).None?
      modifies this
      ensures Valid() && Store() == Insert(old(Store()), n)
      ensures id == |old(nodes)| && id < |nodes| && nodes[id] == n
      ensures driver == Session(old(driver))
    {
      Connect();
      InsertKeepsValid(Store(), n);
      id := |nodes|;
      nodes := nodes + [n];
    }

    method CreateDecision(description: string) returns (id: nat)
      requires Valid()
      modifies this
      ensures Valid() && Store() == Insert(old(Store()), DecisionNode(description))
      ensures id == |old(nodes)| && id < |nodes|
      ensures driver == Session(old(driver))
    {
      id := Create(DecisionNode(description));
    }

    method CreateActionItem(description: string, deadline: Option<string>, priority: Option<string>) returns (id: nat)
      requires Valid()
      modifies this
      ensures Valid() && Store() == Insert(old(Store()), ActionItemNode(description, deadline, priority))
      ensures id == |old(nodes)| && id < |nodes|
      ensures driver == Session(old(driver))
    {
      id := Create(ActionItemNode(description, deadline, priority));
    }

    method CreateCommitment(description: string) returns (id: nat)
      requires Valid()
      modifies this
      ensures Valid() && Store() == Insert(old(Store()), CommitmentNode(description))
      ensures id == |old(nodes)| && id < |nodes|
      ensures driver == Session(old(driver))
    {
      id := Create(CommitmentNode(description));
    }

    /** `create_relationship`: true exactly when at least one pair of nodes matched. */
    method CreateRelationship(from: Endpoint, rel: RelType, to: Endpoint) returns (found: bool)
      requires Valid()
      modifies this
      ensures Valid() && Store() == Link(old(Store()), from, rel, to)
      ensures found == LinkFound(old(Store()), from, to)
      ensures driver == Session(old(driver))
    {
      Connect();
      LinkSemantics(Store(), from, rel, to);
      found := LinkFound(Store(), from, to);
      var g := Link(Store(), from, rel, to);
      edges := g.edges;
    }

    method LinkPersonToMeeting(personName: string, meetingTitle: string) returns (found: bool)
      requires Valid()
      modifies this
      ensures Valid() && Store() == Link(old(Store()), Endpoint(Person, "name", personName), ATTENDED, Endpoint(Meeting, "title", meetingTitle))
      ensures found == LinkFound(old(Store()), Endpoint(Person, "name", personName), Endpoint(Meeting, "title", meetingTitle))
      ensures driver == Session(old(driver))
    {
      found := CreateRelationship(Endpoint(Person, "name", personName), ATTENDED, Endpoint(Meeting, "title", meetingTitle));
    }

    method LinkMeetingToTopic(meetingTitle: string, topicName: string) returns (found: bool)
      requires Valid()
      modifies this
      ensures Valid() && Store() == Link(old(Store()), Endpoint(Meeting, "title", meetingTitle), DISCUSSED, Endpoint(Topic, "name", topicName))
      ensures found == LinkFound(old(Store()), Endpoint(Meeting, "title", meetingTitle), Endpoint(Topic, "name", topicName))
      ensures driver == Session(old(driver))
    {
      found := CreateRelationship(Endpoint(Meeting, "title", meetingTitle), DISCUSSED, Endpoint(Topic, "name", topicName));
    }

    method LinkPersonToDecision(personName: string, decisionDesc: string) returns (found: bool)
      requires Valid()
      modifies this
      ensures Valid() && Store() == Link(old(Store()), Endpoint(Person, "name", personName), MADE, Endpoint(Decision, "description", decisionDesc))
      ensures found == LinkFound(old(Store()), Endpoint(Person, "name", personName), Endpoint(Decision, "description", decisionDesc))
      ensures driver == Session(old(driver))
    {
      found := CreateRelationship(Endpoint(Person, "name", personName), MADE, Endpoint(Decision, "description", decisionDesc));
    }

    method LinkPersonToActionItem(personName: string, actionDesc: string) returns (found: bool)
      requires Valid()
      modifies this
      ensures Valid() && Store() == Link(old(Store()), Endpoint(Person, "name", personName), OWNS, Endpoint(ActionItem, "description", actionDesc))
      ensures found == LinkFound(old(Store()), Endpoint(Person, "name", personName), Endpoint(ActionItem, "description", actionDesc))
      ensures driver == Session(old(driver))
    {
      found := CreateRelationship(Endpoint(Person, "name", personName), OWNS, Endpoint(ActionItem, "description", actionDesc));
    }

    method LinkPersonToCommitment(personName: string, commitmentDesc: string) returns (found: bool)
      requires Valid()
      modifies this
      ensures Valid() && Store() == Link(old(Store()), Endpoint(Person, "name", personName), COMMITTED, Endpoint(Commitment, "description", commitmentDesc))
      ensures found == LinkFound(old(Store()), Endpoint(Person, "name", personName), Endpoint(Commitment, "description", commitmentDesc))
      ensures driver == Session(old(driver))
    {
      found := CreateRelationship(Endpoint(Person, "name", personName), COMMITTED, Endpoint(Commitment, "description", commitmentDesc));
    }

    method LinkDecisionToTopic(decisionDesc: string, topicName: string) returns (found: bool)
      requires Valid()
      modifies this
      ensures Valid() && Store() == Link(old(Store()), Endpoint(Decision, "description", decisionDesc), ABOUT, Endpoint(Topic, "name", topicName))
      ensures found == LinkFound(old(Store()), Endpoint(Decision, "description", decisionDesc), Endpoint(Topic, "name", topicName))
      ensures driver == Session(old(driver))
    {
      found := CreateRelationship(Endpoint(Decision, "description", decisionDesc), ABOUT, Endpoint(Topic, "name", topicName));
    }

    method LinkMeetingToDecision(meetingTitle: string, decisionDesc: string) returns (found: bool)
      requires Valid()
      modifies this
      ensures Valid() && Store() == Link(old(Store()), Endpoint(Meeting, "title", meetingTitle), CONTAINS, Endpoint(Decision, "description", decisionDesc))
      ensures found == LinkFound(old(Store()), Endpoint(Meeting, "title", meetingTitle), Endpoint(Decision, "description", decisionDesc))
      ensures driver == Session(old(driver))
    {
      found := CreateRelationship(Endpoint(Meeting, "title", meetingTitle), CONTAINS, Endpoint(Decision, "description", decisionDesc));
    }

    method LinkMeetingToActionItem(meetingTitle: string, actionDesc: string) returns (found: bool)
      requires Valid()
      modifies this
      ensures Valid() && Store() == Link(old(Store()), Endpoint(Meeting, "title", meetingTitle), CONTAINS, Endpoint(ActionItem, "description", actionDesc))
      ensures found == LinkFound(old(Store()), Endpoint(Meeting, "title", meetingTitle), Endpoint(ActionItem, "description", actionDesc))
      ensures driver == Session(old(driver))
    {
      found := CreateRelationship(Endpoint(Meeting, "title", meetingTitle), CONTAINS, Endpoint(ActionItem, "description", actionDesc));
    }

    /** Deletes every node together with its relationships. */
    method ClearDatabase()
      modifies this
      ensures Valid() && Store() == EmptyGraph
      ensures driver == Session(old(driver))
    {
      Connect();
      nodes, edges := [], {};
    }

    /** The fallback of `get_node_counts`: one count query per label, for exactly the six labels. */
    method GetNodeCounts() returns (counts: map<string, nat>)
      modifies this`driver
      ensures counts.Keys == set l | l in AllLabels :: LabelName(l)
      ensures forall l :: l in AllLabels ==> counts[LabelName(l)] == CountLabel(nodes, l)
      ensures driver == Session(old(driver))
    {
      Connect();
      counts := map[];
      var i := 0;
      while i < |AllLabels|
        invariant 0 <= i <= |AllLabels|
        invariant counts.Keys == set l | l in AllLabels[..i] :: LabelName(l)
        invariant forall l :: l in AllLabels[..i] ==> counts[LabelName(l)] == CountLabel(nodes, l)
      {
        var l := AllLabels[i];
        counts := counts[LabelName(l) := CountLabel(nodes, l)];
        assert AllLabels[..i + 1] == AllLabels[..i] + [l];
        i := i + 1;
      }
      assert AllLabels[..i] == AllLabels;
    }
  }
}
