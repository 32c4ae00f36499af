/** src/memory/message-classifier.ts: message scores, and the descendant query
    over a serialized provenance graph. */
module MessageClassifiers {
  import opened Graphs
  import opened OrderedMaps
  import opened ProvenanceGraphs

  datatype Role = System | User | Assistant | Tool

  /** A message object. `ref` is its identity, `lowered` its content after
      `toLowerCase()`, `length` the length of its content. */
  datatype Message = Message(ref: nat, role: Role, lowered: string, length: nat, has_tool_call_id: bool)

  // ----------------------------------------------------------------- scores

  const SYSTEM_PRIORITY := 1000
  const GOAL_PRIORITY := 900
  const COMMITMENT_PRIORITY := 800
  const VERIFICATION_PRIORITY := 700
  const EXPLORATION_PRIORITY := 500
  const OTHER_PRIORITY := 300

  const NO_LINK := 0

  predicate Includes(text: string, word: string) {
    word <= text || (|text| > 0 && Includes(text[1..], word))
  }

  predicate IsGoalMessage(m: Message) {
    m.role == User && ("goal:" <= m.lowered || "task:" <= m.lowered || "request:" <= m.lowered)
  }

  predicate IsToolResult(m: Message) {
    m.role == Tool && m.has_tool_call_id
  }

  predicate IsCommitmentMessage(m: Message) {
    && IsToolResult(m)
    && (   Includes(m.lowered, "wrote") || Includes(m.lowered, "created") || Includes(m.lowered, "modified")
        || Includes(m.lowered, "deleted") || Includes(m.lowered, "applied"))
  }

  predicate IsVerificationMessage(m: Message) {
    && IsToolResult(m)
    && (   Includes(m.lowered, "exit code") || Includes(m.lowered, "passed") || Includes(m.lowered, "failed")
        || Includes(m.lowered, "error:") || Includes(m.lowered, "test result"))
  }

  predicate IsExplorationMessage(m: Message) {
    && IsToolResult(m)
    && (   Includes(m.lowered, "read ") || Includes(m.lowered, "searched ") || Includes(m.lowered, "found ")
        || Includes(m.lowered, "file content"))
  }

  function BasePriority(m: Message): int {
    if m.role == System then SYSTEM_PRIORITY
    else if IsGoalMessage(m) then GOAL_PRIORITY
    else if IsCommitmentMessage(m) then COMMITMENT_PRIORITY
    else if IsVerificationMessage(m) then VERIFICATION_PRIORITY
    else if IsExplorationMessage(m) then EXPLORATION_PRIORITY
    else OTHER_PRIORITY
  }

  /** No message is mapped to a provenance node yet, so every outcome bonus is
      NO_LINK. */
  function ScoreMessage(m: Message): (score: int)
    ensures OTHER_PRIORITY <= score <= SYSTEM_PRIORITY
    ensures score == SYSTEM_PRIORITY <==> m.role == System
  {
    BasePriority(m) + NO_LINK
  }

  ghost predicate Occurs(text: string, word: string) {
    exists i :: 0 <= i <= |text| && word <= text[i..]
  }

  /** One of the words occurs in the message. */
  ghost predicate Mentions(m: Message, words: set<string>) {
    exists word :: word in words && Occurs(m.lowered, word)
  }

  lemma {:induction false} IncludesIff(text: string, word: string)
    ensures Includes(text, word) <==> Occurs(text, word)
  {
    assert text[0..] == text;
    if |text| > 0 {
      IncludesIff(text[1..], word);
      OccursLater(text, word);
    }
  }

  lemma OccursLater(text: string, word: string)
    requires |text| > 0
    ensures Occurs(text, word) <==> word <= text || Occurs(text[1..], word)
  {
    assert text[0..] == text;
    assert forall i :: 0 < i <= |text| ==> text[1..][i - 1..] == text[i..];
    if Occurs(text[1..], word) {
      var i :| 0 <= i <= |text[1..]| && word <= text[1..][i..];
      assert text[1..][i..] == text[i + 1..];
    }
    if Occurs(text, word) && !(word <= text) {
      var i :| 0 <= i <= |text| && word <= text[i..];
      assert text[1..][i - 1..] == text[i..];
    }
  }

  lemma MentionsFive(m: Message, a: string, b: string, c: string, d: string, e: string)
    ensures Mentions(m, {a, b, c, d, e})
       <==> Includes(m.lowered, a) || Includes(m.lowered, b) || Includes(m.lowered, c) || Includes(m.lowered, d)
            || Includes(m.lowered, e)
  {
    IncludesIff(m.lowered, a);
    IncludesIff(m.lowered, b);
    IncludesIff(m.lowered, c);
    IncludesIff(m.lowered, d);
    IncludesIff(m.lowered, e);
    var words := {a, b, c, d, e};
    assert forall w :: w in words <==> w == a || w == b || w == c || w == d || w == e;
  }

  lemma Commits(m: Message)
    ensures IsCommitmentMessage(m)
       <==> m.role == Tool && m.has_tool_call_id
            && Mentions(m, {"wrote", "created", "modified", "deleted", "applied"})
  {
    MentionsFive(m, "wrote", "created", "modified", "deleted", "applied");
  }

  lemma Verifies(m: Message)
    ensures IsVerificationMessage(m)
       <==> m.role == Tool && m.has_tool_call_id
            && Mentions(m, {"exit code", "passed", "failed", "error:", "test result"})
  {
    MentionsFive(m, "exit code", "passed", "failed", "error:", "test result");
  }

  lemma Explores(m: Message)
    ensures IsExplorationMessage(m)
       <==> m.role == Tool && m.has_tool_call_id
            && Mentions(m, {"read ", "searched ", "found ", "file content"})
  {
    MentionsFive(m, "read ", "searched ", "found ", "file content", "file content");
    assert {"read ", "searched ", "found ", "file content", "file content"}
        == {"read ", "searched ", "found ", "file content"};
  }

  /** The scores by what a message is: a system message, a goal of the user, or a tool result
      that reads like a change, a verification or an exploration, the first that applies; and
      anything else, in this order. */
  lemma ScoreIs(m: Message)
    ensures
      var score, result := ScoreMessage(m), m.role == Tool && m.has_tool_call_id;
      var changes := Mentions(m, {"wrote", "created", "modified", "deleted", "applied"});
      var verifies := Mentions(m, {"exit code", "passed", "failed", "error:", "test result"});
      var explores := Mentions(m, {"read ", "searched ", "found ", "file content"});
      && score in {1000, 900, 800, 700, 500, 300}
      && (score == 1000 <==> m.role == System)
      && (score == 900 <==> m.role == User
                            && ("goal:" <= m.lowered || "task:" <= m.lowered || "request:" <= m.lowered))
      && (score == 800 <==> result && changes)
      && (score == 700 <==> result && !changes && verifies)
      && (score == 500 <==> result && !changes && !verifies && explores)
  {
    Commits(m);
    Verifies(m);
    Explores(m);
  }

  /** The system messages of a list, in order. */
  function Systems(ms: seq<Message>): seq<Message> {
    if ms == [] then []
    else Systems(ms[..|ms| - 1]) + if ms[|ms| - 1].role == System then [ms[|ms| - 1]] else []
  }

  // ------------------------------------------------------------ descendants

  datatype FoundNode = NotFound | Found(node: Node)

  /** `nodes.find(n => n.node_id === id)` */
  function FindNode(nodes: seq<Node>, id: Id): FoundNode {
    if nodes == [] then NotFound
    else if nodes[0].node_id == id then Found(nodes[0])
    else FindNode(nodes[1..], id)
  }

  /** `edges.filter(e => e.from === id).map(e => e.to)` */
  function ChildIds(edges: seq<Edge>, id: Id): seq<Id> {
    if edges == [] then []
    else (if edges[0].from == id then [edges[0].to] else []) + ChildIds(edges[1..], id)
  }

  ghost function DataArcs(edges: seq<Edge>): Arcs {
    set e | e in edges :: (e.from, e.to)
  }

  lemma {:induction false} ChildIdsAre(edges: seq<Edge>, id: Id)
    ensures forall c :: c in ChildIds(edges, id) <==> (id, c) in DataArcs(edges)
  {
    if edges != [] {
      ChildIdsAre(edges[1..], id);
      assert edges == [edges[0]] + edges[1..];
    }
  }

  predicate HasTypeAt(data: GraphData, id: Id, types: seq<NodeType>) {
    var found := FindNode(data.nodes, id);
    found.Found? && found.node.node_type in types
  }

  class MessageClassifier {
    var provenanceGraph: GraphData
    var hasGraph: bool

    constructor ()
      ensures !hasGraph
    {
      provenanceGraph, hasGraph := GraphData(0, [], []), false;
    }

    method SetProvenanceGraph(graph: GraphData)
      modifies this
      ensures hasGraph && provenanceGraph == graph
    {
      provenanceGraph, hasGraph := graph, true;
    }

    predicate IsGraphSufficient()
      reads this
    {
      hasGraph && |provenanceGraph.nodes| >= 3
    }

    /** BFS: does the node, or anything it reaches, have one of the types? */
    method HasDescendantOfType(nodeId: Id, types: seq<NodeType>) returns (r: bool)
      ensures !hasGraph ==> !r
      ensures hasGraph ==>
        (r <==> exists id ::
                  Reaches(DataArcs(provenanceGraph.edges), nodeId, id) && HasTypeAt(provenanceGraph, id, types))
    {
      if !hasGraph {
        return false;
      }
      ghost var arcs := DataArcs(provenanceGraph.edges);
      var visited: set<Id> := {};
      var queue := [nodeId];
      SearchStart(arcs, nodeId, {});
      while |queue| > 0
        invariant Searching(arcs, nodeId, {}, visited, queue)
        invariant forall id :: id in visited ==> !HasTypeAt(provenanceGraph, id, types)
        decreases Unseen(arcs, nodeId, visited), |queue|
      {
        var current := queue[0];
        if current in visited {
          SearchSkip(arcs, nodeId, {}, visited, queue);
          queue := queue[1..];
          continue;
        }
        if HasTypeAt(provenanceGraph, current, types) {
          return true;
        }
        var children := ChildIds(provenanceGraph.edges, current);
        ChildIdsAre(provenanceGraph.edges, current);
        SearchExpand(arcs, nodeId, {}, visited, queue, children, queue[1..] + children);
        visited := visited + {current};
        queue := queue[1..] + children;
      }
      SearchDone(arcs, nodeId, {}, visited);
      return false;
    }

    /** Meant is that nothing useful follows the node; but the search starts at the node
        itself, so the answer is that, exactly unless the node itself is a commitment or a
        verification that nothing useful follows. */
    method IsDeadEnd(node: Node) returns (r: bool)
      ensures !hasGraph ==> !r
      ensures hasGraph ==>
        (r <==> !IsUseful(provenanceGraph, node.node_id) && !UsefulFollows(provenanceGraph, node.node_id))
      ensures hasGraph ==>
        ((r <==> !UsefulFollows(provenanceGraph, node.node_id))
         <==> !IsUseful(provenanceGraph, node.node_id) || UsefulFollows(provenanceGraph, node.node_id))
    {
      if !hasGraph {
        return false;
      }
      UsefulAtOrAfter(provenanceGraph, node.node_id);
      var useful := HasDescendantOfType(node.node_id, USEFUL);
      return !useful;
    }
  }

  const USEFUL: seq<NodeType> := [Commitment, Verification]

  predicate IsUseful(data: GraphData, id: Id) {
    HasTypeAt(data, id, USEFUL)
  }

  /** Some commitment or verification is reached from a successor of the node. */
  ghost predicate UsefulFollows(data: GraphData, id: Id) {
    exists next, later ::
      (id, next) in DataArcs(data.edges) && Reaches(DataArcs(data.edges), next, later) && IsUseful(data, later)
  }

  lemma UsefulAtOrAfter(data: GraphData, id: Id)
    ensures (exists v :: Reaches(DataArcs(data.edges), id, v) && HasTypeAt(data, v, USEFUL))
       <==> IsUseful(data, id) || UsefulFollows(data, id)
  {
    var arcs := DataArcs(data.edges);
    ReachesRefl(arcs, id);
    forall v | Reaches(arcs, id, v) && HasTypeAt(data, v, USEFUL)
      ensures IsUseful(data, id) || UsefulFollows(data, id)
    {
      if v != id {
        FirstStep(arcs, id, v);
      }
    }
    forall next, later | (id, next) in arcs && Reaches(arcs, next, later) && IsUseful(data, later)
      ensures Reaches(arcs, id, later)
    {
      ReachesArc(arcs, id, next);
      ReachesTrans(arcs, id, next, later);
    }
  }

  /** A lone commitment is not taken for a dead end, though nothing follows it. */
  lemma LoneCommitmentIsNoDeadEnd(node: Node)
    requires node.node_type == Commitment
    ensures var data := GraphData(0, [node], []); IsUseful(data, node.node_id) && !UsefulFollows(data, node.node_id)
  {
  }

  // ------------------------------------------- agreement with the live graph

  lemma {:induction false} FindNodeInList(nodes: seq<Node>, id: Id)
    requires forall i, j :: 0 <= i < j < |nodes| ==> nodes[i].node_id != nodes[j].node_id
    ensures forall n :: n in nodes && n.node_id == id ==> FindNode(nodes, id) == Found(n)
    ensures FindNode(nodes, id).Found? ==> FindNode(nodes, id).node in nodes && FindNode(nodes, id).node.node_id == id
  {
    if nodes != [] {
      FindNodeInList(nodes[1..], id);
      assert nodes == [nodes[0]] + nodes[1..];
    }
  }

  /** On a serialized graph the query answers what `getReachable` shows: whether a
      reachable node has one of the types. */
  lemma SerializedDescendants(session: Id, nodes: NodeMap, edges: EdgeMap, start: Id, types: seq<NodeType>)
    requires ValidGraph(nodes, edges)
    ensures var data := ToData(session, nodes, edges);
            && DataArcs(data.edges) == ArcsOf(edges.items)
            && ((exists id :: Reaches(DataArcs(data.edges), start, id) && HasTypeAt(data, id, types))
                <==> exists id ::
                       && id in nodes.items && nodes.items[id].node_type in types
                       && Reaches(ArcsOf(edges.items), start, id))
  {
    var data := ToData(session, nodes, edges);
    FlattenIs(edges.keys, edges.items);
    assert DataArcs(data.edges) == ArcsOf(edges.items);
    forall id
      ensures HasTypeAt(data, id, types) <==> id in nodes.items && nodes.items[id].node_type in types
    {
      SerializedLookup(nodes, id);
    }
  }

  lemma SerializedLookup(nodes: NodeMap, id: Id)
    requires nodes.Valid() && forall k :: k in nodes.items ==> nodes.items[k].node_id == k
    ensures FindNode(NodeList(nodes), id) == if id in nodes.items then Found(nodes.items[id]) else NotFound
  {
    var list := NodeList(nodes);
    FindNodeInList(list, id);
    if id in nodes.items {
      var i :| 0 <= i < |nodes.keys| && nodes.keys[i] == id;
      assert list[i] == nodes.items[id];
    }
  }
}
