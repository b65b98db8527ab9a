/**
 * The in-memory meaning of the graph store's write statements.
 * Nodes are kept in creation order (their position is their element id);
 * edges form a set because `MERGE` on a relationship never duplicates it.
 * A property set to `null` is absent, as in the graph database.
 */
module GraphModel {
  import opened Wrappers
  import opened Text

  datatype Label = Meeting | Person | Topic | Decision | ActionItem | Commitment

  function LabelName(l: Label): string {
    match l
    case Meeting => "Meeting"
    case Person => "Person"
    case Topic => "Topic"
    case Decision => "Decision"
    case ActionItem => "ActionItem"
    case Commitment => "Commitment"
  }

  datatype RelType = ATTENDED | DISCUSSED | MADE | OWNS | COMMITTED | ABOUT | CONTAINS

  datatype Node = Node(kind: Label, props: map<string, string>)

  datatype Edge = Edge(src: nat, rel: RelType, dst: nat)

  datatype Graph = Graph(nodes: seq<Node>, edges: set<Edge>)

  const EmptyGraph := Graph([], {})

  /** Every edge joins two existing nodes. */
  ghost predicate EdgesInRange(g: Graph) {
    forall e :: e in g.edges ==> e.src < |g.nodes| && e.dst < |g.nodes|
  }

  /** The property Meeting, Person and Topic nodes are merged on; the other labels have none. */
  function MergeKey(l: Label): Option<string> {
    match l
    case Meeting => Some("title")
    case Person => Some("name")
    case Topic => Some("name")
    case _ => None
  }

  /** `n` is a node of `kind` whose merge key holds exactly `k`. */
  predicate HasKey(n: Node, kind: Label, k: string) {
    n.kind == kind && MergeKey(kind).Some? &&
    MergeKey(kind).value in n.props && n.props[MergeKey(kind).value] == k
  }

  /** At most one node per kind and exact key value. */
  ghost predicate KeysUnique(g: Graph) {
    forall i, j, l, k ::
      (0 <= i < |g.nodes| && 0 <= j < |g.nodes| && HasKey(g.nodes[i], l, k) && HasKey(g.nodes[j], l, k)) ==> i == j
  }

  ghost predicate Valid(g: Graph) {
    KeysUnique(g) && EdgesInRange(g)
  }

  /** `SET n.attr = v`: a `null` value removes the property. */
  function SetProp(props: map<string, string>, attr: string, v: Option<string>): (p: map<string, string>)
    ensures v.Some? ==> attr in p && p[attr] == v.value
    ensures v.None? ==> attr !in p
    ensures forall a :: a != attr ==> (a in p <==> a in props) && (a in p ==> p[a] == props[a])
  {
    if v.Some? then props[attr := v.value] else props - {attr}
  }

  /** The secondary attribute each merged kind overwrites: date, role or description. */
  function MergeAttr(l: Label): string {
    match l
    case Meeting => "date"
    case Person => "role"
    case _ => "description"
  }

  predicate Mergeable(l: Label) {
    l == Meeting || l == Person || l == Topic
  }

  predicate AnyHasKey(nodes: seq<Node>, kind: Label, k: string) {
    exists i :: 0 <= i < |nodes| && HasKey(nodes[i], kind, k)
  }

  /**
   * `MERGE (n:kind {key: k}) SET n.attr = v`: every node with that key gets the
   * attribute overwritten; when there is none, one node is created.
   */
  function Upsert(g: Graph, kind: Label, k: string, v: Option<string>): Graph
    requires Mergeable(kind)
  {
    var attr := MergeAttr(kind);
    if AnyHasKey(g.nodes, kind, k) then
      Graph(seq(|g.nodes|, i requires 0 <= i < |g.nodes| =>
              if HasKey(g.nodes[i], kind, k) then Node(kind, SetProp(g.nodes[i].props, attr, v)) else g.nodes[i]),
            g.edges)
    else
      Graph(g.nodes + [Node(kind, SetProp(map[MergeKey(kind).value := k], attr, v))], g.edges)
  }

  lemma UpsertKeepsKey(n: Node, kind: Label, k: string, v: Option<string>)
    requires Mergeable(kind) && HasKey(n, kind, k)
    ensures HasKey(Node(kind, SetProp(n.props, MergeAttr(kind), v)), kind, k)
  {
  }

  /**
   * Upsert keeps one node per key: a repeat call adds no node and overwrites the
   * secondary attribute (even with `null`); a first call adds exactly one node.
   */
  lemma UpsertSemantics(g: Graph, kind: Label, k: string, v: Option<string>)
    requires Mergeable(kind) && Valid(g)
    ensures var g' := Upsert(g, kind, k, v);
      && Valid(g')
      && g'.edges == g.edges
      && (AnyHasKey(g.nodes, kind, k) ==> |g'.nodes| == |g.nodes|)
      && (!AnyHasKey(g.nodes, kind, k) ==> |g'.nodes| == |g.nodes| + 1 && g'.nodes[..|g.nodes|] == g.nodes)
      && (exists i :: 0 <= i < |g'.nodes| && HasKey(g'.nodes[i], kind, k) &&
            g'.nodes[i].props == SetProp(if i < |g.nodes| then g.nodes[i].props else map[MergeKey(kind).value := k],
                                         MergeAttr(kind), v))
      && (forall i :: 0 <= i < |g.nodes| && !HasKey(g.nodes[i], kind, k) ==> g'.nodes[i] == g.nodes[i])
  {
    var g' := Upsert(g, kind, k, v);
    var attr := MergeAttr(kind);
    var key := MergeKey(kind).value;
    assert attr != key;
    if AnyHasKey(g.nodes, kind, k) {
      var i :| 0 <= i < |g.nodes| && HasKey(g.nodes[i], kind, k);
      assert HasKey(g'.nodes[i], kind, k);
      forall a, b, l, x | 0 <= a < |g'.nodes| && 0 <= b < |g'.nodes| && HasKey(g'.nodes[a], l, x) && HasKey(g'.nodes[b], l, x)
        ensures a == b
      {
        assert HasKey(g.nodes[a], l, x) && HasKey(g.nodes[b], l, x);
      }
    } else {
      var n := |g.nodes|;
      assert HasKey(g'.nodes[n], kind, k);
      forall a, b, l, x | 0 <= a < |g'.nodes| && 0 <= b < |g'.nodes| && HasKey(g'.nodes[a], l, x) && HasKey(g'.nodes[b], l, x)
        ensures a == b
      {
      }
    }
  }

  /** `CREATE (n:kind {...})`: always a new node, even for a duplicate description. */
  function Insert(g: Graph, n: Node): (g': Graph)
    ensures g'.nodes == g.nodes + [n] && g'.edges == g.edges
  {
    Graph(g.nodes + [n], g.edges)
  }

  function DecisionNode(description: string): Node {
    Node(Decision, map["description" := description])
  }

  /** An action item starts 'pending'; absent deadline or priority are not stored. */
  function ActionItemNode(description: string, deadline: Option<string>, priority: Option<string>): (n: Node)
    ensures n.kind == ActionItem && "description" in n.props && "status" in n.props
    ensures n.props["description"] == description && n.props["status"] == "pending"
    ensures ("deadline" in n.props <==> deadline.Some?) && (deadline.Some? ==> n.props["deadline"] == deadline.value)
    ensures ("priority" in n.props <==> priority.Some?) && (priority.Some? ==> n.props["priority"] == priority.value)
  {
    var base := map["description" := description, "status" := "pending"];
    Node(ActionItem, SetProp(SetProp(base, "deadline", deadline), "priority", priority))
  }

  function CommitmentNode(description: string): Node {
    Node(Commitment, map["description" := description])
  }

  /** Inserting a node of a kind that is never merged keeps the store valid. */
  lemma InsertKeepsValid(g: Graph, n: Node)
    requires Valid(g) && MergeKey(n.kind).None?
    ensures Valid(Insert(g, n))
  {
    var g' := Insert(g, n);
    forall a, b, l, x | 0 <= a < |g'.nodes| && 0 <= b < |g'.nodes| && HasKey(g'.nodes[a], l, x) && HasKey(g'.nodes[b], l, x)
      ensures a == b
    {
      assert a < |g.nodes| && b < |g.nodes|;
    }
  }

  /** Case-insensitive containment in either direction between the node's property and the value. */
  predicate FuzzyMatch(n: Node, kind: Label, prop: string, value: string) {
    n.kind == kind && prop in n.props &&
    (Contains(Lower(n.props[prop]), Lower(value)) || Contains(Lower(value), Lower(n.props[prop])))
  }

  /** The ids the `MATCH … WHERE` clause of one endpoint selects. */
  function Matching(g: Graph, kind: Label, prop: string, value: string): (ids: set<nat>)
    ensures forall i: nat :: i in ids <==> i < |g.nodes| && FuzzyMatch(g.nodes[i], kind, prop, value)
  {
    set i: nat | i < |g.nodes| && FuzzyMatch(g.nodes[i], kind, prop, value)
  }

  /** One end of a relationship request: which nodes to look at, and how to match them. */
  datatype Endpoint = Endpoint(kind: Label, prop: string, value: string)

  /** Every (a, b) pair the two `MATCH` clauses produce, as a `rel` edge. */
  function PairEdges(g: Graph, from: Endpoint, rel: RelType, to: Endpoint): (es: set<Edge>)
    ensures forall e :: e in es <==>
      e.rel == rel && e.src in Matching(g, from.kind, from.prop, from.value) &&
      e.dst in Matching(g, to.kind, to.prop, to.value)
  {
    var a := Matching(g, from.kind, from.prop, from.value);
    var b := Matching(g, to.kind, to.prop, to.value);
    set x, y | x in a && y in b :: Edge(x, rel, y)
  }

  /** `create_relationship`: `MERGE` the edge for every matching pair. */
  function Link(g: Graph, from: Endpoint, rel: RelType, to: Endpoint): Graph {
    Graph(g.nodes, g.edges + PairEdges(g, from, rel, to))
  }

  /** `len(result) > 0`: the query returns one row per matching pair. */
  function LinkFound(g: Graph, from: Endpoint, to: Endpoint): bool {
    Matching(g, from.kind, from.prop, from.value) != {} && Matching(g, to.kind, to.prop, to.value) != {}
  }

  /** Linking only adds edges, adds one per matching pair and nothing else, and keeps the store valid. */
  lemma LinkSemantics(g: Graph, from: Endpoint, rel: RelType, to: Endpoint)
    requires Valid(g)
    ensures var g' := Link(g, from, rel, to);
      && Valid(g') && g'.nodes == g.nodes && g.edges <= g'.edges
      && (forall e :: e in g'.edges - g.edges ==>
            e.rel == rel && FuzzyMatch(g.nodes[e.src], from.kind, from.prop, from.value)
            && FuzzyMatch(g.nodes[e.dst], to.kind, to.prop, to.value))
      && (forall a, b ::
            (0 <= a < |g.nodes| && 0 <= b < |g.nodes| &&
             FuzzyMatch(g.nodes[a], from.kind, from.prop, from.value) &&
             FuzzyMatch(g.nodes[b], to.kind, to.prop, to.value)) ==> Edge(a, rel, b) in g'.edges)
  {
    var g' := Link(g, from, rel, to);
    forall a, b | 0 <= a < |g.nodes| && 0 <= b < |g.nodes| &&
      FuzzyMatch(g.nodes[a], from.kind, from.prop, from.value) &&
      FuzzyMatch(g.nodes[b], to.kind, to.prop, to.value)
      ensures Edge(a, rel, b) in g'.edges
    {
      assert Edge(a, rel, b) in PairEdges(g, from, rel, to);
    }
  }

  /** The result is true exactly when at least one pair matched, i.e. some edge of that type now joins them. */
  lemma LinkFoundIffPair(g: Graph, from: Endpoint, rel: RelType, to: Endpoint)
    ensures LinkFound(g, from, to) <==> PairEdges(g, from, rel, to) != {}
  {
    if LinkFound(g, from, to) {
      var a :| a in Matching(g, from.kind, from.prop, from.value);
      var b :| b in Matching(g, to.kind, to.prop, to.value);
      assert Edge(a, rel, b) in PairEdges(g, from, rel, to);
    }
  }

  /** Merging on the edge makes linking idempotent: a repeated call leaves the graph unchanged. */
  lemma LinkIdempotent(g: Graph, from: Endpoint, rel: RelType, to: Endpoint)
    ensures Link(Link(g, from, rel, to), from, rel, to) == Link(g, from, rel, to)
  {
    var g1 := Link(g, from, rel, to);
    assert PairEdges(g1, from, rel, to) == PairEdges(g, from, rel, to);
  }

  /** Fuzzy matching cannot tell a name from a longer name containing it: "Lee" attaches to a person named "Ashlee". */
  lemma FuzzyMatchAliases()
    ensures FuzzyMatch(Node(Person, map["name" := "Ashlee"]), Person, "name", "Lee")
  {
    assert Lower("Lee") == "lee";
    assert Lower("Ashlee") == "ashlee";
    assert StartsWith("ashlee"[3..], "lee");
    ContainsInSlice("ashlee", 3, 6, "lee");
  }

  /** `MATCH (n) DETACH DELETE n` */
  function Clear(g: Graph): (g': Graph)
    ensures g'.nodes == [] && g'.edges == {} && Valid(g')
  {
    EmptyGraph
  }

  /** How many nodes carry `kind`. */
  function CountLabel(nodes: seq<Node>, kind: Label): (c: nat)
    ensures c <= |nodes|
  {
    if |nodes| == 0 then 0
    else CountLabel(nodes[..|nodes| - 1], kind) + (if nodes[|nodes| - 1].kind == kind then 1 else 0)
  }

  const AllLabels: seq<Label> := [Meeting, Person, Topic, Decision, ActionItem, Commitment]

  /** The six per-kind counts add up to the number of nodes: every node has one of the six labels. */
  lemma {:induction false} CountsCoverAllNodes(nodes: seq<Node>)
    ensures CountLabel(nodes, Meeting) + CountLabel(nodes, Person) + CountLabel(nodes, Topic)
      + CountLabel(nodes, Decision) + CountLabel(nodes, ActionItem) + CountLabel(nodes, Commitment) == |nodes|
  {
    if |nodes| > 0 {
      CountsCoverAllNodes(nodes[..|nodes| - 1]);
    }
  }

  /** Inserting a node adds one to its own kind's count and leaves the others alone. */
  lemma CountAfterInsert(nodes: seq<Node>, n: Node, kind: Label)
    ensures CountLabel(nodes + [n], kind) == CountLabel(nodes, kind) + (if n.kind == kind then 1 else 0)
  {
    assert (nodes + [n])[..|nodes|] == nodes;
  }
}
