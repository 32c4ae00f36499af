/** src/provenance/graph.ts: the mutable provenance DAG, its cycle guard, its
    traversals and its serialization. */
module ProvenanceGraphs {
  import opened FreshIds
  import opened Graphs
  import opened OrderedMaps
  import opened Sequences

  datatype NodeType = Goal | Exploration | Commitment | Verification | PatchProposal

  /** Timestamps and metadata take no part in the graph's behaviour. */
  datatype Node = Node(node_id: Id, node_type: NodeType, session_id: Id, causal_parents: seq<Id>, metadata: nat)

  datatype EdgeType = Causal | Temporal

  datatype Edge = Edge(from: Id, to: Id, kind: EdgeType)

  /** The serialized form. */
  datatype GraphData = GraphData(session_id: Id, nodes: seq<Node>, edges: seq<Edge>)

  type NodeMap = OrderedMap<Id, Node>
  type EdgeMap = OrderedMap<Id, seq<Edge>>

  datatype AddEdgeResult = Added | SourceNotFound | TargetNotFound | SelfLoop | WouldCreateCycle

  function Targets(edges: seq<Edge>): (t: seq<Id>)
    ensures |t| == |edges| && forall i :: 0 <= i < |edges| ==> t[i] == edges[i].to
  {
    seq(|edges|, i requires 0 <= i < |edges| => edges[i].to)
  }

  ghost function ArcsOf(edges: map<Id, seq<Edge>>): Arcs {
    set k, e | k in edges && e in edges[k] :: (k, e.to)
  }

  /** What the class keeps about its two maps. */
  ghost predicate ValidGraph(nodes: NodeMap, edges: EdgeMap) {
    && nodes.Valid()
    && edges.Valid()
    && (forall k :: k in nodes.items ==> nodes.items[k].node_id == k)
    && (forall k :: k in edges.items ==> edges.items[k] != [])
    && (forall k, e :: k in edges.items && e in edges.items[k] ==>
          e.from == k && k in nodes.items && e.to in nodes.items)
  }

  /** `const outgoing = edges.get(from); outgoing ? outgoing.push(e) : edges.set(from, [e])` */
  function PushEdge(edges: EdgeMap, e: Edge): EdgeMap {
    edges.Set(e.from, if e.from in edges.items then edges.items[e.from] + [e] else [e])
  }

  lemma PushEdgeArcs(edges: EdgeMap, e: Edge)
    ensures ArcsOf(PushEdge(edges, e).items) == ArcsOf(edges.items) + {(e.from, e.to)}
  {
    var before, after := edges.items, PushEdge(edges, e).items;
    forall a, b | (a, b) in ArcsOf(before) + {(e.from, e.to)}
      ensures (a, b) in ArcsOf(after)
    {
      if (a, b) == (e.from, e.to) {
        assert e in after[a];
      } else {
        var e': Edge :| e' in before[a] && e'.to == b;
        assert e' in after[a];
      }
    }
  }

  /** Arcs only join existing nodes. */
  lemma ArcsBetweenNodes(nodes: NodeMap, edges: EdgeMap)
    requires ValidGraph(nodes, edges)
    ensures Nodes(ArcsOf(edges.items)) <= nodes.items.Keys
  {
  }

  // ------------------------------------------------------- serialization

  function NodeList(nodes: NodeMap): seq<Node>
    requires nodes.Valid()
  {
    seq(|nodes.keys|, i requires 0 <= i < |nodes.keys| => nodes.items[nodes.keys[i]])
  }

  function Flatten(keys: seq<Id>, items: map<Id, seq<Edge>>): seq<Edge>
    requires forall k :: k in keys ==> k in items
  {
    if keys == [] then [] else items[keys[0]] + Flatten(keys[1..], items)
  }

  function ToData(session: Id, nodes: NodeMap, edges: EdgeMap): GraphData
    requires nodes.Valid() && edges.Valid()
  {
    GraphData(session, NodeList(nodes), Flatten(edges.keys, edges.items))
  }

  function LoadNodes(m: NodeMap, ns: seq<Node>): NodeMap
    decreases |ns|
  {
    if ns == [] then m else LoadNodes(m.Set(ns[0].node_id, ns[0]), ns[1..])
  }

  predicate Known(known: map<Id, Node>, e: Edge) {
    e.from in known && e.to in known
  }

  /** Edges with an unknown endpoint are skipped; cycles are not looked for. */
  function LoadEdges(m: EdgeMap, known: map<Id, Node>, es: seq<Edge>): EdgeMap
    decreases |es|
  {
    if es == [] then m
    else LoadEdges(if Known(known, es[0]) then PushEdge(m, es[0]) else m, known, es[1..])
  }

  const EMPTY_NODES: NodeMap := OrderedMap([], map[])
  const EMPTY_EDGES: EdgeMap := OrderedMap([], map[])

  lemma {:induction false} LoadNodesValid(m: NodeMap, ns: seq<Node>)
    requires m.Valid() && forall k :: k in m.items ==> m.items[k].node_id == k
    ensures var r := LoadNodes(m, ns); r.Valid() && forall k :: k in r.items ==> r.items[k].node_id == k
    decreases |ns|
  {
    if ns != [] {
      LoadNodesValid(m.Set(ns[0].node_id, ns[0]), ns[1..]);
    }
  }

  lemma {:induction false} LoadEdgesValid(nodes: NodeMap, m: EdgeMap, es: seq<Edge>)
    requires ValidGraph(nodes, m)
    ensures ValidGraph(nodes, LoadEdges(m, nodes.items, es))
    decreases |es|
  {
    if es != [] {
      LoadEdgesValid(nodes, if Known(nodes.items, es[0]) then PushEdge(m, es[0]) else m, es[1..]);
    }
  }

  /** Loading arbitrary data adds one arc for every edge with known endpoints. */
  lemma {:induction false} LoadEdgesArcs(m: EdgeMap, known: map<Id, Node>, es: seq<Edge>)
    ensures ArcsOf(LoadEdges(m, known, es).items)
         == ArcsOf(m.items) + (set e | e in es && Known(known, e) :: (e.from, e.to))
    decreases |es|
  {
    if es != [] {
      var m' := if Known(known, es[0]) then PushEdge(m, es[0]) else m;
      LoadEdgesArcs(m', known, es[1..]);
      PushEdgeArcs(m, es[0]);
      assert es == [es[0]] + es[1..];
    }
  }

  lemma {:induction false} LoadEdgesConcat(m: EdgeMap, known: map<Id, Node>, a: seq<Edge>, b: seq<Edge>)
    ensures LoadEdges(m, known, a + b) == LoadEdges(LoadEdges(m, known, a), known, b)
    decreases |a|
  {
    if a == [] {
      assert a + b == b;
    } else {
      assert (a + b)[0] == a[0] && (a + b)[1..] == a[1..] + b;
      LoadEdgesConcat(if Known(known, a[0]) then PushEdge(m, a[0]) else m, known, a[1..], b);
    }
  }

  ghost predicate IsGroup(known: map<Id, Node>, k: Id, list: seq<Edge>) {
    list != [] && forall e :: e in list ==> e.from == k && Known(known, e)
  }

  /** One source's edge list comes back in order, appended to what was there. */
  lemma {:induction false} LoadGroup(m: EdgeMap, known: map<Id, Node>, k: Id, list: seq<Edge>)
    requires IsGroup(known, k, list)
    ensures LoadEdges(m, known, list) == m.Set(k, (if k in m.items then m.items[k] else []) + list)
    decreases |list|
  {
    var e, rest := list[0], list[1..];
    var before := if k in m.items then m.items[k] else [];
    assert LoadEdges(m, known, list) == LoadEdges(PushEdge(m, e), known, rest);
    assert list == [e] + rest;
    Associative(before, [e], rest);
    PushedFirst(m, e, before);
    if rest == [] {
      assert (before + [e]) + rest == before + [e];
    } else {
      LoadGroup(PushEdge(m, e), known, k, rest);
    }
  }

  lemma PushedFirst(m: EdgeMap, e: Edge, before: seq<Edge>)
    requires before == if e.from in m.items then m.items[e.from] else []
    ensures PushEdge(m, e) == m.Set(e.from, before + [e])
    ensures forall list :: PushEdge(m, e).Set(e.from, list) == m.Set(e.from, list)
  {
    assert [] + [e] == [e];
    forall list
      ensures PushEdge(m, e).Set(e.from, list) == m.Set(e.from, list)
    {
      assert m.items[e.from := before + [e]][e.from := list] == m.items[e.from := list];
    }
  }

  lemma {:induction false} LoadFlattened(m: EdgeMap, known: map<Id, Node>, keys: seq<Id>, items: map<Id, seq<Edge>>)
    requires Distinct(keys) && forall k :: k in keys ==> k !in m.items
    requires forall k :: k in keys ==> k in items && IsGroup(known, k, items[k])
    ensures LoadEdges(m, known, Flatten(keys, items)) == SetAll(m, keys, items)
    decreases |keys|
  {
    if keys != [] {
      var k0, rest := keys[0], keys[1..];
      LoadEdgesConcat(m, known, items[k0], Flatten(rest, items));
      LoadGroup(m, known, k0, items[k0]);
      assert [] + items[k0] == items[k0];
      LoadFlattened(m.Set(k0, items[k0]), known, rest, items);
    }
  }

  lemma {:induction false} LoadNodeList(m: NodeMap, keys: seq<Id>, items: map<Id, Node>, ns: seq<Node>)
    requires forall k :: k in keys ==> k in items && items[k].node_id == k
    requires |ns| == |keys| && forall i :: 0 <= i < |ns| ==> ns[i] == items[keys[i]]
    ensures LoadNodes(m, ns) == SetAll(m, keys, items)
    decreases |keys|
  {
    if keys != [] {
      LoadNodeList(m.Set(keys[0], items[keys[0]]), keys[1..], items, ns[1..]);
    }
  }

  /** `fromJSON(toJSON(g))` is `g`: every node and every edge list, with the
      iteration order of both maps. */
  lemma SerializationRoundTrip(session: Id, nodes: NodeMap, edges: EdgeMap)
    requires ValidGraph(nodes, edges)
    ensures var d := ToData(session, nodes, edges);
            && d.session_id == session
            && LoadNodes(EMPTY_NODES, d.nodes) == nodes
            && LoadEdges(EMPTY_EDGES, nodes.items, d.edges) == edges
  {
    LoadNodeList(EMPTY_NODES, nodes.keys, nodes.items, NodeList(nodes));
    SetAllRebuilds(nodes);
    assert forall k :: k in edges.keys ==> IsGroup(nodes.items, k, edges.items[k]);
    LoadFlattened(EMPTY_EDGES, nodes.items, edges.keys, edges.items);
    SetAllRebuilds(edges);
  }

  /** `fromJSON` does not re-check cycles: the loaded graph is acyclic exactly
      when the edges of the data that join known nodes are. */
  lemma LoadedAcyclicIff(data: GraphData)
    ensures var known := LoadNodes(EMPTY_NODES, data.nodes).items;
            (Acyclic(ArcsOf(LoadEdges(EMPTY_EDGES, known, data.edges).items))
             <==> Acyclic(set e | e in data.edges && Known(known, e) :: (e.from, e.to)))
  {
    var known := LoadNodes(EMPTY_NODES, data.nodes).items;
    LoadEdgesArcs(EMPTY_EDGES, known, data.edges);
    assert ArcsOf(LoadEdges(EMPTY_EDGES, known, data.edges).items)
        == (set e | e in data.edges && Known(known, e) :: (e.from, e.to));
  }

  /** ... and there is data on which it is not. */
  lemma LoadedGraphMayBeCyclic()
    ensures exists data: GraphData ::
      !Acyclic(ArcsOf(LoadEdges(EMPTY_EDGES, LoadNodes(EMPTY_NODES, data.nodes).items, data.edges).items))
  {
    var a, b := Node(1, Goal, 0, [], 0), Node(2, Goal, 0, [], 0);
    var e, f := Edge(1, 2, Causal), Edge(2, 1, Causal);
    var data := GraphData(0, [a, b], [e, f]);
    assert data.nodes[1..] == [b];
    var known := LoadNodes(EMPTY_NODES, data.nodes).items;
    var m1 := EMPTY_NODES.Set(1, a);
    assert LoadNodes(EMPTY_NODES, data.nodes) == LoadNodes(m1, [b]) == LoadNodes(m1.Set(2, b), []);
    assert 1 in known && 2 in known;
    LoadedAcyclicIff(data);
    var arcs := set x | x in data.edges && Known(known, x) :: (x.from, x.to);
    assert e in data.edges && f in data.edges;
    assert (e.from, e.to) in arcs && (f.from, f.to) in arcs;
    ReachesArc(arcs, 2, 1);
    assert !Acyclic(arcs);
  }

  function ParentNodes(nodes: map<Id, Node>, es: seq<Edge>, id: Id): seq<Node> {
    if es == [] then []
    else if es[0].to == id && es[0].from in nodes then [nodes[es[0].from]] + ParentNodes(nodes, es[1..], id)
    else ParentNodes(nodes, es[1..], id)
  }

  lemma {:induction false} ParentNodesAre(nodes: map<Id, Node>, es: seq<Edge>, id: Id)
    requires forall k :: k in nodes ==> nodes[k].node_id == k
    ensures forall n :: n in ParentNodes(nodes, es, id) <==>
      n.node_id in nodes && n == nodes[n.node_id] && exists e :: e in es && e.from == n.node_id && e.to == id
  {
    if es != [] {
      ParentNodesAre(nodes, es[1..], id);
      assert es == [es[0]] + es[1..];
    }
  }

  /** The loop of `getParents` from edge `j` on. */
  lemma ParentNodesStep(nodes: map<Id, Node>, es: seq<Edge>, j: nat, id: Id, found: seq<Node>)
    requires j < |es|
    ensures found + ParentNodes(nodes, es[j..], id)
         == (if es[j].to == id && es[j].from in nodes then found + [nodes[es[j].from]] else found)
            + ParentNodes(nodes, es[j + 1..], id)
  {
    assert es[j..][0] == es[j] && es[j..][1..] == es[j + 1..];
    if es[j].to == id && es[j].from in nodes {
      Associative(found, [nodes[es[j].from]], ParentNodes(nodes, es[j + 1..], id));
    }
  }

  lemma {:induction false} ParentNodesConcat(nodes: map<Id, Node>, a: seq<Edge>, b: seq<Edge>, id: Id)
    ensures ParentNodes(nodes, a + b, id) == ParentNodes(nodes, a, id) + ParentNodes(nodes, b, id)
    decreases |a|
  {
    if a == [] {
      assert a + b == b;
    } else {
      assert (a + b)[0] == a[0] && (a + b)[1..] == a[1..] + b;
      ParentNodesConcat(nodes, a[1..], b, id);
      if a[0].to == id && a[0].from in nodes {
        Associative([nodes[a[0].from]], ParentNodes(nodes, a[1..], id), ParentNodes(nodes, b, id));
      }
    }
  }

  /** The loop of `getParents` from group `i` on. */
  lemma ParentsOfGroup(nodes: map<Id, Node>, keys: seq<Id>, items: map<Id, seq<Edge>>, i: nat, id: Id, found: seq<Node>)
    requires i < |keys| && forall k :: k in keys ==> k in items
    ensures found + ParentNodes(nodes, Flatten(keys[i..], items), id)
         == (found + ParentNodes(nodes, items[keys[i]], id)) + ParentNodes(nodes, Flatten(keys[i + 1..], items), id)
  {
    assert keys[i..][0] == keys[i] && keys[i..][1..] == keys[i + 1..];
    ParentNodesConcat(nodes, items[keys[i]], Flatten(keys[i + 1..], items), id);
    Associative(found, ParentNodes(nodes, items[keys[i]], id), ParentNodes(nodes, Flatten(keys[i + 1..], items), id));
  }

  lemma IncomingNodes(nodes: NodeMap, edges: EdgeMap, id: Id)
    requires ValidGraph(nodes, edges)
    ensures forall n :: n in ParentNodes(nodes.items, Flatten(edges.keys, edges.items), id) <==>
      n.node_id in nodes.items && n == nodes.items[n.node_id] && (n.node_id, id) in ArcsOf(edges.items)
  {
    ParentNodesAre(nodes.items, Flatten(edges.keys, edges.items), id);
    FlattenIs(edges.keys, edges.items);
  }

  lemma {:induction false} FlattenIs(keys: seq<Id>, items: map<Id, seq<Edge>>)
    requires forall k :: k in keys ==> k in items
    ensures forall e :: e in Flatten(keys, items) <==> exists k :: k in keys && e in items[k]
  {
    if keys != [] {
      FlattenIs(keys[1..], items);
      assert keys == [keys[0]] + keys[1..];
    }
  }

  // --------------------------------------------------------------- class

  class ProvenanceGraph {
    const sessionId: Id
    var nodes: NodeMap
    var edges: EdgeMap

    ghost predicate Valid()
      reads this
    {
      ValidGraph(nodes, edges)
    }

    ghost function Arcs(): Arcs
      reads this
    {
      ArcsOf(edges.items)
    }

    constructor (session: Id)
      ensures Valid() && sessionId == session
      ensures nodes == EMPTY_NODES && edges == EMPTY_EDGES && Acyclic(Arcs())
    {
      sessionId := session;
      nodes, edges := EMPTY_NODES, EMPTY_EDGES;
    }

    /** The node gets an identifier no node has, as a random UUID does. */
    method AddNode(node_type: NodeType, session: Id, causal_parents: seq<Id>, metadata: nat) returns (node: Node)
      requires Valid()
      modifies this`nodes
      ensures Valid()
      ensures node.node_id !in old(nodes.items)
      ensures node == Node(node.node_id, node_type, session, causal_parents, metadata)
      ensures nodes == OrderedMap(old(nodes.keys) + [node.node_id], old(nodes.items)[node.node_id := node])
    {
      FreshIdExists(nodes.items.Keys);
      var id: Id :| id !in nodes.items.Keys;
      node := Node(id, node_type, session, causal_parents, metadata);
      nodes := nodes.Set(id, node);
    }

    /** An edge is refused for a missing endpoint, for a self-loop, and exactly
        when its target already reaches its source; so between existing nodes an
        acyclic graph accepts exactly the edges that keep it acyclic. */
    method AddEdge(from: Id, to: Id, kind: EdgeType) returns (r: AddEdgeResult)
      requires Valid()
      modifies this`edges
      ensures Valid()
      ensures r == (if from !in nodes.items then SourceNotFound
                    else if to !in nodes.items then TargetNotFound
                    else if from == to then SelfLoop
                    else if Reaches(old(Arcs()), to, from) then WouldCreateCycle
                    else Added)
      ensures edges == if r == Added then PushEdge(old(edges), Edge(from, to, kind)) else old(edges)
      ensures Arcs() == if r == Added then old(Arcs()) + {(from, to)} else old(Arcs())
      ensures old(Acyclic(Arcs())) ==> Acyclic(Arcs())
      ensures old(Acyclic(Arcs())) && from in nodes.items && to in nodes.items ==>
        (r == Added <==> Acyclic(old(Arcs()) + {(from, to)}))
    {
      r := CheckEdge(from, to);
      ReachesRefl(Arcs(), from);
      if Acyclic(Arcs()) {
        AcyclicExtension(Arcs(), from, to);
      }
      if r == Added {
        Push(Edge(from, to, kind));
      }
    }

    /** The end of `addEdge`: file the edge under its source. */
    method Push(edge: Edge)
      requires Valid() && edge.from in nodes.items && edge.to in nodes.items
      modifies this`edges
      ensures Valid() && edges == PushEdge(old(edges), edge)
      ensures Arcs() == old(Arcs()) + {(edge.from, edge.to)}
    {
      PushEdgeArcs(edges, edge);
      edges := PushEdge(edges, edge);
    }

    /** The four reasons `addEdge` throws for, in its order. */
    method CheckEdge(from: Id, to: Id) returns (r: AddEdgeResult)
      ensures r == (if from !in nodes.items then SourceNotFound
                    else if to !in nodes.items then TargetNotFound
                    else if from == to then SelfLoop
                    else if Reaches(Arcs(), to, from) then WouldCreateCycle
                    else Added)
    {
      if from !in nodes.items {
        return SourceNotFound;
      }
      if to !in nodes.items {
        return TargetNotFound;
      }
      if from == to {
        return SelfLoop;
      }
      var cyclic := CanReach(to, from);
      r := if cyclic then WouldCreateCycle else Added;
    }

    method CanReach(from: Id, to: Id) returns (r: bool)
      ensures r <==> Reaches(Arcs(), from, to)
    {
      ghost var arcs := Arcs();
      var visited: set<Id> := {};
      var queue := [from];
      SearchStart(arcs, from, {});
      while |queue| > 0
        invariant Searching(arcs, from, {}, visited, queue) && to !in visited
        decreases Unseen(arcs, from, visited), |queue|
      {
        var current := queue[0];
        if current == to {
          return true;
        }
        if current in visited {
          SearchSkip(arcs, from, {}, visited, queue);
          queue := queue[1..];
          continue;
        }
        ghost var targets := Successors(current);
        SearchVisit(arcs, from, {}, visited, queue, targets);
        visited := visited + {current};
        queue := queue[1..];
        if current in edges.items {
          queue := EnqueueUnvisited(queue, Targets(edges.items[current]), visited);
        }
      }
      SearchDone(arcs, from, {}, visited);
      return false;
    }

    /** The targets of a node's outgoing edges, in insertion order. */
    ghost function Successors(id: Id): (t: seq<Id>)
      reads this
      ensures forall b :: b in t <==> (id, b) in Arcs()
    {
      var t := if id in edges.items then Targets(edges.items[id]) else [];
      assert forall b :: b in t ==> exists i :: 0 <= i < |t| && t[i] == b && edges.items[id][i] in edges.items[id];
      t
    }

    /** Every node of the reflexive-transitive closure, each exactly once. */
    method GetReachable(nodeId: Id) returns (result: seq<Node>)
      requires Valid()
      ensures nodeId !in nodes.items ==> result == []
      ensures Distinct(result)
      ensures nodeId in nodes.items ==>
        forall n :: n in result <==>
          n.node_id in nodes.items && n == nodes.items[n.node_id] && Reaches(Arcs(), nodeId, n.node_id)
    {
      if nodeId !in nodes.items {
        return [];
      }
      ghost var arcs := Arcs();
      ArcsBetweenNodes(nodes, edges);
      var visited: set<Id> := {};
      var queue := [nodeId];
      result := [];
      SearchStart(arcs, nodeId, {});
      while |queue| > 0
        invariant Searching(arcs, nodeId, {}, visited, queue)
        invariant Distinct(result)
        invariant forall n :: n in result ==> n.node_id in visited
        invariant forall n :: n in result ==> n.node_id in nodes.items && n == nodes.items[n.node_id]
        invariant forall id :: id in visited && id in nodes.items ==> nodes.items[id] in result
        decreases Unseen(arcs, nodeId, visited), |queue|
      {
        var current := queue[0];
        if current in visited {
          SearchSkip(arcs, nodeId, {}, visited, queue);
          queue := queue[1..];
          continue;
        }
        ghost var targets := Successors(current);
        SearchVisit(arcs, nodeId, {}, visited, queue, targets);
        visited := visited + {current};
        queue := queue[1..];
        if current in nodes.items {
          DistinctAppend(result, nodes.items[current]);
          result := result + [nodes.items[current]];
        }
        if current in edges.items {
          queue := EnqueueUnvisited(queue, Targets(edges.items[current]), visited);
        }
      }
      SearchDone(arcs, nodeId, {}, visited);
    }

    /** Sources of the incoming edges, one entry per edge, in insertion order. */
    method GetParents(nodeId: Id) returns (parents: seq<Node>)
      requires Valid()
      ensures parents == ParentNodes(nodes.items, Flatten(edges.keys, edges.items), nodeId)
      ensures forall n :: n in parents <==>
        n.node_id in nodes.items && n == nodes.items[n.node_id] && (n.node_id, nodeId) in Arcs()
    {
      parents := [];
      assert edges.keys[0..] == edges.keys;
      for i := 0 to |edges.keys|
        invariant parents + ParentNodes(nodes.items, Flatten(edges.keys[i..], edges.items), nodeId)
               == ParentNodes(nodes.items, Flatten(edges.keys, edges.items), nodeId)
      {
        ParentsOfGroup(nodes.items, edges.keys, edges.items, i, nodeId, parents);
        var found := ParentsAmong(edges.items[edges.keys[i]], nodeId);
        parents := parents + found;
      }
      IncomingNodes(nodes, edges, nodeId);
    }

    /** The inner loop of `getParents`. */
    method ParentsAmong(outgoing: seq<Edge>, nodeId: Id) returns (parents: seq<Node>)
      ensures parents == ParentNodes(nodes.items, outgoing, nodeId)
    {
      parents := [];
      for j := 0 to |outgoing|
        invariant parents + ParentNodes(nodes.items, outgoing[j..], nodeId)
               == ParentNodes(nodes.items, outgoing, nodeId)
      {
        ParentNodesStep(nodes.items, outgoing, j, nodeId, parents);
        if outgoing[j].to == nodeId {
          if outgoing[j].from in nodes.items {
            parents := parents + [nodes.items[outgoing[j].from]];
          }
        }
      }
    }

    method ToJSON() returns (data: GraphData)
      requires Valid()
      ensures data == ToData(sessionId, nodes, edges)
    {
      data := GraphData(sessionId, NodeList(nodes), Flatten(edges.keys, edges.items));
    }

    static method FromJSON(data: GraphData) returns (g: ProvenanceGraph)
      ensures fresh(g) && g.Valid() && g.sessionId == data.session_id
      ensures g.nodes == LoadNodes(EMPTY_NODES, data.nodes)
      ensures g.edges == LoadEdges(EMPTY_EDGES, g.nodes.items, data.edges)
    {
      g := new ProvenanceGraph(data.session_id);
      for i := 0 to |data.nodes|
        invariant fresh(g) && g.edges == EMPTY_EDGES
        invariant LoadNodes(g.nodes, data.nodes[i..]) == LoadNodes(EMPTY_NODES, data.nodes)
      {
        var node := data.nodes[i];
        assert data.nodes[i..][1..] == data.nodes[i + 1..];
        g.nodes := g.nodes.Set(node.node_id, node);
      }
      LoadNodesValid(EMPTY_NODES, data.nodes);
      for i := 0 to |data.edges|
        invariant fresh(g) && g.nodes == LoadNodes(EMPTY_NODES, data.nodes)
        invariant LoadEdges(g.edges, g.nodes.items, data.edges[i..])
               == LoadEdges(EMPTY_EDGES, g.nodes.items, data.edges)
      {
        var edge := data.edges[i];
        assert data.edges[i..][1..] == data.edges[i + 1..];
        if edge.from !in g.nodes.items {
          continue;
        }
        if edge.to !in g.nodes.items {
          continue;
        }
        g.edges := PushEdge(g.edges, edge);
      }
      LoadEdgesValid(g.nodes, EMPTY_EDGES, data.edges);
    }

    /** Saving and loading gives back a graph with the same maps, hence the same
        arcs, the same answers and the same acyclicity. */
    method Reload() returns (g: ProvenanceGraph)
      requires Valid()
      ensures fresh(g) && g.Valid() && g.sessionId == sessionId
      ensures g.nodes == nodes && g.edges == edges
    {
      var data := ToJSON();
      SerializationRoundTrip(sessionId, nodes, edges);
      g := FromJSON(data);
    }
  }
}
