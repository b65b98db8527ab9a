/**
 * The node and edge selection of the interactive graph view: the short
 * label and the tooltip of a node, and the record loops of the full and the
 * type-filtered builders. Physics options and the generated HTML are not
 * part of this model.
 */
module GraphViz {
  import opened Wrappers
  import opened Text

  /** A node's properties in the order the store returns them. */
  type Props = seq<(string, string)>

  /** `props.get(key, default)` */
  function PropOr(props: Props, key: string, default: string): (v: string)
    ensures (forall i :: 0 <= i < |props| ==> props[i].0 != key) ==> v == default
    ensures (exists i :: 0 <= i < |props| && props[i].0 == key) ==> exists i :: 0 <= i < |props| && props[i] == (key, v)
  {
    if |props| == 0 then default
    else if props[0].0 == key then props[0].1
    else
      var v := PropOr(props[1..], key, default);
      assert forall i :: 0 <= i < |props| - 1 ==> props[1..][i] == props[i + 1];
      v
  }

  /** `s[:n] + "..." if len(s) > n else s` */
  function Cut(s: string, n: nat): (r: string)
    ensures |s| <= n ==> r == s
    ensures |s| > n ==> |r| == n + 3 && r[..n] == s[..n] && r[n..] == "..."
  {
    if |s| > n then s[..n] + "..." else s
  }

  /** The text of a node type; a node without a label reads as "None". */
  function TypeText(t: Option<string>): string {
    if t.Some? then t.value else "None"
  }

  /** `name.split()[0] if name else "Person"`, as written: a blank but non-empty name raises. */
  function PersonLabelAsWritten(name: string): Result<string> {
    if name == "" then Ok("Person")
    else
      var words := Words(name);
      if words == [] then Raised("IndexError: list index out of range") else Ok(words[0])
  }

  /** The first name of a person, falling back to "Person" when the name has no word at all. */
  function PersonLabel(name: string): (shown: string)
    ensures shown != ""
  {
    var words := Words(name);
    if words == [] then "Person" else words[0]
  }

  /** The two agree on every name except a blank one, which the code as written cannot label. */
  lemma PersonLabelCorrects(name: string)
    ensures PersonLabelAsWritten(name).Ok? ==> PersonLabelAsWritten(name).value == PersonLabel(name)
    ensures PersonLabelAsWritten(name).Raised? <==> name != "" && TrimStart(name) == []
  {
    WordsStart(name);
  }

  /** A one-space name is such a blank name. */
  lemma BlankNameRaises()
    ensures PersonLabelAsWritten(" ").Raised? && PersonLabel(" ") == "Person"
  {
    assert IsSpace(" "[0]);
    WordsStart(" ");
    assert TrimStart(" ") == TrimStart(" "[1..]);
  }

  /** A person's label is the whitespace-free run that follows the name's leading whitespace. */
  lemma PersonLabelIsFirstWord(name: string)
    ensures TrimStart(name) != [] ==> PersonLabel(name) == TakeWord(TrimStart(name))
    ensures TrimStart(name) == [] ==> PersonLabel(name) == "Person"
    ensures forall i :: 0 <= i < |PersonLabel(name)| ==> !IsSpace(PersonLabel(name)[i])
  {
    WordsStart(name);
  }

  /** `_get_node_label`, with the blank-name case corrected. */
  function NodeLabel(t: Option<string>, props: Props): string {
    match t
    case Some("Meeting") => Cut(PropOr(props, "title", "Meeting"), 20)
    case Some("Person") => PersonLabel(PropOr(props, "name", "Person"))
    case Some("Topic") => Cut(PropOr(props, "name", "Topic"), 15)
    case Some("Decision") => Cut(PropOr(props, "description", "Decision"), 15)
    case Some("ActionItem") => Cut(PropOr(props, "description", "Action"), 15)
    case Some("Commitment") => Cut(PropOr(props, "description", "Commitment"), 15)
    case _ => Take(PropOr(props, "name", PropOr(props, "description", TypeText(t))), 15)
  }

  /** Meeting labels stay within 20 characters plus an ellipsis, the other known types within 15 plus one, an unknown type within 15. */
  lemma LabelLength(t: Option<string>, props: Props)
    ensures t == Some("Meeting") ==> |NodeLabel(t, props)| <= 23
    ensures t != Some("Meeting") && t != Some("Person") ==> |NodeLabel(t, props)| <= 18
    ensures (t.None? || t.value !in {"Meeting", "Person", "Topic", "Decision", "ActionItem", "Commitment"}) ==> |NodeLabel(t, props)| <= 15
  {
  }

  /** A short title is shown whole; a long one is cut to its first 20 characters and marked. */
  lemma MeetingLabel(props: Props, title: string)
    requires |props| > 0 && props[0] == ("title", title)
    ensures |title| <= 20 ==> NodeLabel(Some("Meeting"), props) == title
    ensures |title| > 20 ==> NodeLabel(Some("Meeting"), props) == title[..20] + "..."
  {
  }

  function PropLine(key: string, value: string): string {
    "<b>" + key + ":</b> " + value + "<br>"
  }

  /** One line per property with a non-empty value, in property order. */
  function PropLines(props: Props): string {
    if |props| == 0 then ""
    else
      var (k, v) := props[|props| - 1];
      PropLines(props[..|props| - 1]) + (if v != "" then PropLine(k, v) else "")
  }

  function TooltipHead(t: Option<string>): string {
    "<b>" + TypeText(t) + "</b><br>"
  }

  function Tooltip(t: Option<string>, props: Props): string {
    TooltipHead(t) + PropLines(props)
  }

  /** `_get_node_tooltip` */
  method NodeTooltip(t: Option<string>, props: Props) returns (tip: string)
    ensures tip == Tooltip(t, props)
  {
    var lines := "";
    var i := 0;
    while i < |props|
      invariant 0 <= i <= |props| && lines == PropLines(props[..i])
    {
      var (k, v) := props[i];
      if v != "" {
        lines := lines + PropLine(k, v);
      }
      assert props[..i + 1][..i] == props[..i];
      i := i + 1;
    }
    assert props[..i] == props;
    tip := TooltipHead(t) + lines;
  }

  /** Every property with a non-empty value is shown in the tooltip. */
  lemma {:induction false} TooltipShowsProperty(t: Option<string>, props: Props, k: string, v: string)
    requires (k, v) in props && v != ""
    ensures Contains(Tooltip(t, props), PropLine(k, v))
  {
    var head, lines := TooltipHead(t), PropLines(props);
    PropLinesShow(props, k, v);
    assert (head + lines)[|head|..|head + lines|] == lines;
    ContainsInSlice(head + lines, |head|, |head + lines|, PropLine(k, v));
  }

  lemma {:induction false} PropLinesShow(props: Props, k: string, v: string)
    requires (k, v) in props && v != ""
    ensures Contains(PropLines(props), PropLine(k, v))
  {
    var front := props[..|props| - 1];
    var last := props[|props| - 1];
    var before := PropLines(front);
    var tail := if last.1 != "" then PropLine(last.0, last.1) else "";
    assert PropLines(props) == before + tail;
    if last == (k, v) {
      ContainsInfix(before, tail, "");
      assert before + tail + "" == before + tail;
    } else {
      assert (k, v) in front by {
        var i :| 0 <= i < |props| && props[i] == (k, v);
        assert i < |props| - 1 && front[i] == props[i];
      }
      PropLinesShow(front, k, v);
      assert (before + tail)[0..|before|] == before;
      ContainsInSlice(before + tail, 0, |before|, PropLine(k, v));
    }
  }

  /** A property with an empty value adds nothing to the tooltip. */
  lemma TooltipSkipsEmpty(t: Option<string>, props: Props, k: string)
    ensures Tooltip(t, props + [(k, "")]) == Tooltip(t, props)
  {
    assert (props + [(k, "")])[..|props|] == props;
  }

  // ---------------------------------------------------------------------------
  // The record loops

  const NodeColors: map<string, string> := map["Meeting" := "#3b82f6", "Person" := "#22c55e", "Topic" := "#f59e0b",
                                                "Decision" := "#8b5cf6", "ActionItem" := "#ef4444", "Commitment" := "#ec4899"]
  const NodeShapes: map<string, string> := map["Meeting" := "dot", "Person" := "dot", "Topic" := "diamond",
                                                "Decision" := "square", "ActionItem" := "triangle", "Commitment" := "star"]

  function Color(t: Option<string>): string {
    if t.Some? && t.value in NodeColors then NodeColors[t.value] else "#6b7280"
  }

  function Shape(t: Option<string>): string {
    if t.Some? && t.value in NodeShapes then NodeShapes[t.value] else "dot"
  }

  /** One row of the all-nodes query: a node and, when it has one, an outgoing relationship and its target. */
  datatype Record = Record(fromType: Option<string>, fromProps: Props, fromId: Option<string>,
                           relType: Option<string>, toType: Option<string>, toProps: Props, toId: Option<string>)

  datatype Node = Node(id: string, caption: string, tooltip: string, color: string, shape: string, size: int)
  datatype Edge = Edge(source: string, target: string, rel: string)

  /** The network under construction and the ids added so far (`added_nodes`). */
  datatype View = View(nodes: seq<Node>, edges: seq<Edge>, added: set<string>)

  const EmptyView := View([], [], {})

  /** A truthy id or type: present and non-empty. */
  predicate Present(o: Option<string>) {
    o.Some? && o.value != ""
  }

  function NewNode(id: string, t: Option<string>, props: Props, size: int): Node {
    Node(id, NodeLabel(t, props), Tooltip(t, props), Color(t), Shape(t), size)
  }

  /** Adds the node unless its id is absent or already added. */
  function AddNode(v: View, id: Option<string>, t: Option<string>, props: Props, size: int): View {
    if Present(id) && id.value !in v.added then View(v.nodes + [NewNode(id.value, t, props, size)], v.edges, v.added + {id.value})
    else v
  }

  /** One record of `create_knowledge_graph`. */
  function FullStep(v: View, r: Record): View {
    var v1 := AddNode(v, r.fromId, r.fromType, r.fromProps, if r.fromType == Some("Meeting") then 25 else 20);
    var v2 := AddNode(v1, r.toId, r.toType, r.toProps, 20);
    if Present(r.relType) && Present(r.fromId) && Present(r.toId) then View(v2.nodes, v2.edges + [Edge(r.fromId.value, r.toId.value, r.relType.value)], v2.added)
    else v2
  }

  function FullView(records: seq<Record>): View {
    if |records| == 0 then EmptyView else FullStep(FullView(records[..|records| - 1]), records[|records| - 1])
  }

  /** Whether a node type is selected: `t in active_types`. */
  predicate Active(t: Option<string>, active: seq<string>) {
    t.Some? && t.value in active
  }

  /** One record of `create_knowledge_graph_filtered`. */
  function FilteredStep(v: View, r: Record, active: seq<string>): View {
    var v1 := if Active(r.fromType, active) then AddNode(v, r.fromId, r.fromType, r.fromProps, if r.fromType == Some("Meeting") then 30 else 25) else v;
    var v2 := if Active(r.toType, active) then AddNode(v1, r.toId, r.toType, r.toProps, 25) else v1;
    if Present(r.relType) && r.fromId.Some? && r.fromId.value in v2.added && r.toId.Some? && r.toId.value in v2.added
    then View(v2.nodes, v2.edges + [Edge(r.fromId.value, r.toId.value, r.relType.value)], v2.added)
    else v2
  }

  function FilteredView(records: seq<Record>, active: seq<string>): View {
    if |records| == 0 then EmptyView else FilteredStep(FilteredView(records[..|records| - 1], active), records[|records| - 1], active)
  }

  /** `create_knowledge_graph`, node and edge selection. */
  method CreateKnowledgeGraph(records: seq<Record>) returns (nodes: seq<Node>, edges: seq<Edge>)
    ensures nodes == FullView(records).nodes && edges == FullView(records).edges
  {
    nodes, edges := [], [];
    var added: set<string> := {};
    var i := 0;
    while i < |records|
      invariant 0 <= i <= |records| && View(nodes, edges, added) == FullView(records[..i])
    {
      var r := records[i];
      if Present(r.fromId) && r.fromId.value !in added {
        var tip := NodeTooltip(r.fromType, r.fromProps);
        nodes := nodes + [Node(r.fromId.value, NodeLabel(r.fromType, r.fromProps), tip, Color(r.fromType), Shape(r.fromType),
                               if r.fromType == Some("Meeting") then 25 else 20)];
        added := added + {r.fromId.value};
      }
      if Present(r.toId) && r.toId.value !in added {
        var tip := NodeTooltip(r.toType, r.toProps);
        nodes := nodes + [Node(r.toId.value, NodeLabel(r.toType, r.toProps), tip, Color(r.toType), Shape(r.toType), 20)];
        added := added + {r.toId.value};
      }
      if Present(r.relType) && Present(r.fromId) && Present(r.toId) {
        edges := edges + [Edge(r.fromId.value, r.toId.value, r.relType.value)];
      }
      assert records[..i + 1][..i] == records[..i];
      i := i + 1;
    }
    assert records[..i] == records;
  }

  /** `create_knowledge_graph_filtered`, node and edge selection. */
  method CreateKnowledgeGraphFiltered(records: seq<Record>, active: seq<string>) returns (nodes: seq<Node>, edges: seq<Edge>)
    ensures nodes == FilteredView(records, active).nodes && edges == FilteredView(records, active).edges
  {
    nodes, edges := [], [];
    var added: set<string> := {};
    var i := 0;
    while i < |records|
      invariant 0 <= i <= |records| && View(nodes, edges, added) == FilteredView(records[..i], active)
    {
      var r := records[i];
      if Active(r.fromType, active) && Present(r.fromId) && r.fromId.value !in added {
        var tip := NodeTooltip(r.fromType, r.fromProps);
        nodes := nodes + [Node(r.fromId.value, NodeLabel(r.fromType, r.fromProps), tip, Color(r.fromType), Shape(r.fromType),
                               if r.fromType == Some("Meeting") then 30 else 25)];
        added := added + {r.fromId.value};
      }
      if Active(r.toType, active) && Present(r.toId) && r.toId.value !in added {
        var tip := NodeTooltip(r.toType, r.toProps);
        nodes := nodes + [Node(r.toId.value, NodeLabel(r.toType, r.toProps), tip, Color(r.toType), Shape(r.toType), 25)];
        added := added + {r.toId.value};
      }
      if Present(r.relType) && r.fromId.Some? && r.fromId.value in added && r.toId.Some? && r.toId.value in added {
        edges := edges + [Edge(r.fromId.value, r.toId.value, r.relType.value)];
      }
      assert records[..i + 1][..i] == records[..i];
      i := i + 1;
    }
    assert records[..i] == records;
  }

  // ---------------------------------------------------------------------------
  // What the views guarantee

  /** Each id appears once in the node list, and the node ids are exactly `added_nodes`. */
  ghost predicate Deduplicated(v: View) {
    && (forall i, j :: 0 <= i < j < |v.nodes| ==> v.nodes[i].id != v.nodes[j].id)
    && (forall id :: id in v.added <==> exists i :: 0 <= i < |v.nodes| && v.nodes[i].id == id)
  }

  /** Every edge joins two nodes of the view. */
  ghost predicate Closed(v: View) {
    forall e :: e in v.edges ==> e.source in v.added && e.target in v.added
  }

  lemma AddNodeKeeps(v: View, id: Option<string>, t: Option<string>, props: Props, size: int)
    requires Deduplicated(v) && Closed(v)
    ensures var w := AddNode(v, id, t, props, size);
      Deduplicated(w) && Closed(w) && v.added <= w.added && w.edges == v.edges
      && (Present(id) ==> id.value in w.added)
  {
    var w := AddNode(v, id, t, props, size);
    if Present(id) && id.value !in v.added {
      forall x | x in w.added
        ensures exists i :: 0 <= i < |w.nodes| && w.nodes[i].id == x
      {
        if x == id.value {
          assert w.nodes[|v.nodes|].id == x;
        } else {
          var i :| 0 <= i < |v.nodes| && v.nodes[i].id == x;
          assert w.nodes[i].id == x;
        }
      }
      forall x | exists i :: 0 <= i < |w.nodes| && w.nodes[i].id == x
        ensures x in w.added
      {
        var i :| 0 <= i < |w.nodes| && w.nodes[i].id == x;
        if i < |v.nodes| {
          assert v.nodes[i].id == x;
        }
      }
    }
  }

  /** The full builder never repeats a node and draws every edge between drawn nodes. */
  lemma {:induction false} FullViewWellFormed(records: seq<Record>)
    ensures Deduplicated(FullView(records)) && Closed(FullView(records))
  {
    if |records| > 0 {
      var r := records[|records| - 1];
      var v := FullView(records[..|records| - 1]);
      FullViewWellFormed(records[..|records| - 1]);
      AddNodeKeeps(v, r.fromId, r.fromType, r.fromProps, if r.fromType == Some("Meeting") then 25 else 20);
      var v1 := AddNode(v, r.fromId, r.fromType, r.fromProps, if r.fromType == Some("Meeting") then 25 else 20);
      AddNodeKeeps(v1, r.toId, r.toType, r.toProps, 20);
    }
  }

  /** The filtered builder never repeats a node and draws every edge between drawn nodes. */
  lemma {:induction false} FilteredViewWellFormed(records: seq<Record>, active: seq<string>)
    ensures Deduplicated(FilteredView(records, active)) && Closed(FilteredView(records, active))
  {
    if |records| > 0 {
      var r := records[|records| - 1];
      var v := FilteredView(records[..|records| - 1], active);
      FilteredViewWellFormed(records[..|records| - 1], active);
      var size := if r.fromType == Some("Meeting") then 30 else 25;
      var v1 := if Active(r.fromType, active) then AddNode(v, r.fromId, r.fromType, r.fromProps, size) else v;
      AddNodeKeeps(v, r.fromId, r.fromType, r.fromProps, size);
      assert Deduplicated(v1) && Closed(v1);
      var v2 := if Active(r.toType, active) then AddNode(v1, r.toId, r.toType, r.toProps, 25) else v1;
      AddNodeKeeps(v1, r.toId, r.toType, r.toProps, 25);
      assert Deduplicated(v2) && Closed(v2);
      assert FilteredView(records, active) == FilteredStep(v, r, active);
      if Present(r.relType) && r.fromId.Some? && r.fromId.value in v2.added && r.toId.Some? && r.toId.value in v2.added {
        EdgeKeeps(v2, Edge(r.fromId.value, r.toId.value, r.relType.value));
      }
    }
  }

  lemma EdgeKeeps(v: View, e: Edge)
    requires Deduplicated(v) && Closed(v) && e.source in v.added && e.target in v.added
    ensures Deduplicated(View(v.nodes, v.edges + [e], v.added)) && Closed(View(v.nodes, v.edges + [e], v.added))
  {
  }

  /** The record `r` offers node `id` with an active type, as its source or as its target. */
  predicate Offers(r: Record, id: string, active: seq<string>) {
    (Active(r.fromType, active) && r.fromId == Some(id)) || (Active(r.toType, active) && r.toId == Some(id))
  }

  /** Only nodes of an active type are drawn by the filtered builder. */
  lemma {:induction false} FilteredNodesActive(records: seq<Record>, active: seq<string>)
    ensures forall n :: n in FilteredView(records, active).nodes ==> exists r :: r in records && Offers(r, n.id, active)
  {
    if |records| > 0 {
      var front := records[..|records| - 1];
      FilteredNodesActive(front, active);
      forall n | n in FilteredView(records, active).nodes
        ensures exists r :: r in records && Offers(r, n.id, active)
      {
        if n in FilteredView(front, active).nodes {
          var r :| r in front && Offers(r, n.id, active);
          assert r in records;
        } else {
          assert records[|records| - 1] in records;
        }
      }
    }
  }

  function EdgeCount(records: seq<Record>): nat {
    if |records| == 0 then 0
    else
      var r := records[|records| - 1];
      EdgeCount(records[..|records| - 1]) + (if Present(r.relType) && Present(r.fromId) && Present(r.toId) then 1 else 0)
  }

  /** The full builder draws one edge per record that has a relationship type and both ids. */
  lemma {:induction false} FullViewEdges(records: seq<Record>)
    ensures |FullView(records).edges| == EdgeCount(records)
  {
    if |records| > 0 {
      FullViewEdges(records[..|records| - 1]);
    }
  }
}
