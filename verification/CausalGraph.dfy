/** src/store/causal-graph.ts: the causal graph of a session's events, its
    downstream query and its partition into chains. */
module CausalGraphs {
  import opened Graphs
  import opened OrderedMaps

  /** `causal_parents` may be missing in old events. */
  datatype CausalParents = Missing | Parents(ids: seq<Id>)

  datatype Event = Event(event_id: Id, causal_parents: CausalParents, payload: nat)

  datatype CausalNode = CausalNode(event: Event, children: seq<Id>)

  type CausalGraph = map<Id, CausalNode>

  function GetCausalParents(e: Event): seq<Id> {
    if e.causal_parents.Missing? then [] else e.causal_parents.ids
  }

  // ---------------------------------------------------------- specification

  ghost function Ids(events: seq<Event>): set<Id> {
    set e | e in events :: e.event_id
  }

  ghost predicate UniqueIds(events: seq<Event>) {
    forall i, j :: 0 <= i < j < |events| ==> events[i].event_id != events[j].event_id
  }

  /** Parent-to-child arcs between events of the list. */
  ghost function CausalArcs(events: seq<Event>): Arcs {
    set e, p | e in events && p in GetCausalParents(e) && p in Ids(events) :: (p, e.event_id)
  }

  /** A parent id, once for each time a later `push` of `child` goes to `id`. */
  function Copies(parents: seq<Id>, id: Id, child: Id): seq<Id> {
    if parents == [] then []
    else Copies(parents[..|parents| - 1], id, child) + if parents[|parents| - 1] == id then [child] else []
  }

  function ChildrenOf(events: seq<Event>, id: Id): seq<Id> {
    if events == [] then []
    else
      var e := events[|events| - 1];
      ChildrenOf(events[..|events| - 1], id) + Copies(GetCausalParents(e), id, e.event_id)
  }

  /** The last event with a given id wins, as with `Map.set`. */
  function LastWithId(events: seq<Event>, id: Id): (e: Event)
    requires exists e :: e in events && e.event_id == id
    ensures e in events && e.event_id == id
  {
    var n := |events| - 1;
    if events[n].event_id == id then events[n]
    else
      assert forall e :: e in events ==> e in events[..n] || e == events[n];
      LastWithId(events[..n], id)
  }

  lemma {:induction false} CopiesAre(parents: seq<Id>, id: Id, child: Id)
    ensures forall c :: c in Copies(parents, id, child) <==> c == child && id in parents
  {
    if parents != [] {
      CopiesAre(parents[..|parents| - 1], id, child);
      assert parents == parents[..|parents| - 1] + [parents[|parents| - 1]];
    }
  }

  lemma {:induction false} ChildrenAre(events: seq<Event>, id: Id)
    ensures forall c :: c in ChildrenOf(events, id) <==>
              exists e :: e in events && e.event_id == c && id in GetCausalParents(e)
  {
    if events != [] {
      var n := |events| - 1;
      ChildrenAre(events[..n], id);
      CopiesAre(GetCausalParents(events[n]), id, events[n].event_id);
      assert events == events[..n] + [events[n]];
    }
  }

  ghost predicate IsCausalGraph(events: seq<Event>, graph: CausalGraph) {
    && graph.Keys == Ids(events)
    && forall id :: id in graph ==>
         graph[id].event == LastWithId(events, id) && graph[id].children == ChildrenOf(events, id)
  }

  /** The children of a node are exactly the heads of its arcs. */
  lemma ChildrenAreArcs(events: seq<Event>, graph: CausalGraph, id: Id)
    requires IsCausalGraph(events, graph)
    ensures id in graph ==> forall c :: c in graph[id].children <==> (id, c) in CausalArcs(events)
    ensures id !in graph ==> forall c :: (id, c) !in CausalArcs(events)
  {
    ChildrenAre(events, id);
  }

  // ------------------------------------------------------------ construction

  method BuildCausalGraph(events: seq<Event>) returns (graph: CausalGraph)
    ensures IsCausalGraph(events, graph)
  {
    graph := InitNodes(events);
    for i := 0 to |events|
      invariant graph.Keys == Ids(events)
      invariant forall id :: id in graph ==> graph[id].event == LastWithId(events, id)
      invariant forall id :: id in graph ==> graph[id].children == ChildrenOf(events[..i], id)
    {
      assert events[..i + 1][..i] == events[..i];
      graph := LinkParents(graph, events[i]);
    }
    assert events[..|events|] == events;
  }

  method InitNodes(events: seq<Event>) returns (graph: CausalGraph)
    ensures graph.Keys == Ids(events)
    ensures forall id :: id in graph ==> graph[id] == CausalNode(LastWithId(events, id), [])
  {
    graph := map[];
    for i := 0 to |events|
      invariant graph.Keys == Ids(events[..i])
      invariant forall id :: id in graph ==> graph[id] == CausalNode(LastWithId(events[..i], id), [])
    {
      assert events[..i + 1] == events[..i] + [events[i]];
      assert events[..i + 1][..i] == events[..i];
      graph := graph[events[i].event_id := CausalNode(events[i], [])];
    }
    assert events[..|events|] == events;
  }

  /** The edges of one event: it becomes a child of each parent in the graph. */
  method LinkParents(graph0: CausalGraph, event: Event) returns (graph: CausalGraph)
    ensures graph.Keys == graph0.Keys
    ensures forall id :: id in graph ==> graph[id].event == graph0[id].event
    ensures forall id :: id in graph ==>
      graph[id].children == graph0[id].children + Copies(GetCausalParents(event), id, event.event_id)
  {
    graph := graph0;
    var parents := GetCausalParents(event);
    for j := 0 to |parents|
      invariant graph.Keys == graph0.Keys
      invariant forall id :: id in graph ==> graph[id].event == graph0[id].event
      invariant forall id :: id in graph ==>
                  graph[id].children == graph0[id].children + Copies(parents[..j], id, event.event_id)
    {
      assert parents[..j + 1][..j] == parents[..j];
      if parents[j] in graph {
        var parent := graph[parents[j]];
        graph := graph[parents[j] := parent.(children := parent.children + [event.event_id])];
      }
    }
    assert parents[..|parents|] == parents;
  }

  // --------------------------------------------------------------- traversal

  /** Exactly the events reachable from the start, without the start, each once. */
  method FindDownstream(eventId: Id, events: seq<Event>) returns (downstream: seq<Event>)
    ensures Distinct(downstream)
    ensures forall e :: e in downstream <==>
      && e.event_id in Ids(events) && e == LastWithId(events, e.event_id)
      && e.event_id != eventId && Reaches(CausalArcs(events), eventId, e.event_id)
  {
    ghost var arcs := CausalArcs(events);
    downstream := [];
    var visited: set<Id> := {};
    var graph := BuildCausalGraph(events);
    var queue := [eventId];
    SearchStart(arcs, eventId, {});
    while |queue| > 0
      invariant Searching(arcs, eventId, {}, visited, queue)
      invariant Distinct(downstream)
      invariant forall e :: e in downstream ==>
        e.event_id in visited && e.event_id in graph && e == graph[e.event_id].event && e.event_id != eventId
      invariant forall id :: id in visited && id in graph && id != eventId ==> graph[id].event in downstream
      decreases Unseen(arcs, eventId, visited), |queue|
    {
      var current := queue[0];
      if current in visited {
        SearchSkip(arcs, eventId, {}, visited, queue);
        queue := queue[1..];
        continue;
      }
      ChildrenAreArcs(events, graph, current);
      SearchVisit(arcs, eventId, {}, visited, queue, if current in graph then graph[current].children else []);
      visited := visited + {current};
      queue := queue[1..];
      if current !in graph {
        continue;
      }
      if current != eventId {
        DistinctAppend(downstream, graph[current].event);
        downstream := downstream + [graph[current].event];
      }
      queue := EnqueueUnvisited(queue, graph[current].children, visited);
    }
    SearchDone(arcs, eventId, {}, visited);
  }

  // ------------------------------------------------------------------ chains

  predicate HasGraphParent(e: Event, ids: set<Id>) {
    exists i :: 0 <= i < |GetCausalParents(e)| && GetCausalParents(e)[i] in ids
  }

  /** Events with no parent in the graph, in log order. */
  ghost function Roots(events: seq<Event>, ids: set<Id>): seq<Id> {
    if events == [] then []
    else
      var e := events[|events| - 1];
      Roots(events[..|events| - 1], ids) + if HasGraphParent(e, ids) then [] else [e.event_id]
  }

  lemma {:induction false} RootsAre(events: seq<Event>, ids: set<Id>)
    ensures forall r :: r in Roots(events, ids) <==>
              exists e :: e in events && e.event_id == r && !HasGraphParent(e, ids)
    ensures UniqueIds(events) ==> Distinct(Roots(events, ids))
  {
    if events != [] {
      var n := |events| - 1;
      RootsAre(events[..n], ids);
      assert events == events[..n] + [events[n]];
      if UniqueIds(events) && !HasGraphParent(events[n], ids) {
        DistinctAppend(Roots(events[..n], ids), events[n].event_id);
      }
    }
  }

  ghost function RootsOf(events: seq<Event>): seq<Id> {
    Roots(events, Ids(events))
  }

  ghost function Elements(s: seq<Id>): set<Id> {
    set v | v in s
  }

  ghost function Union(chains: seq<seq<Id>>): set<Id> {
    if chains == [] then {}
    else Union(chains[..|chains| - 1]) + Elements(chains[|chains| - 1])
  }

  lemma {:induction false} UnionIs(chains: seq<seq<Id>>)
    ensures forall v :: v in Union(chains) <==> exists k :: 0 <= k < |chains| && v in chains[k]
  {
    if chains != [] {
      var n := |chains| - 1;
      UnionIs(chains[..n]);
      forall v | v in Union(chains)
        ensures exists k :: 0 <= k < |chains| && v in chains[k]
      {
        if v in Union(chains[..n]) {
          var k :| 0 <= k < n && v in chains[..n][k];
          assert v in chains[k];
        } else {
          assert v in chains[n];
        }
      }
      forall k, v | 0 <= k < |chains| && v in chains[k]
        ensures v in Union(chains)
      {
        if k < n {
          assert v in chains[..n][k];
        }
      }
    }
  }

  /** All that the first element reaches and no earlier chain contains, once. */
  ghost predicate IsChain(arcs: Arcs, earlier: set<Id>, chain: seq<Id>) {
    && chain != [] && Distinct(chain)
    && forall v :: v in chain <==> Reaches(arcs, chain[0], v) && v !in earlier
  }

  /** What the code returns: chains that start at roots, and together hold exactly
      what the roots reach. */
  ghost predicate IsPartition(arcs: Arcs, roots: seq<Id>, chains: seq<seq<Id>>) {
    && (forall k :: 0 <= k < |chains| ==> IsChain(arcs, Union(chains[..k]), chains[k]) && chains[k][0] in roots)
    && (forall v :: v in Union(chains) <==> exists r :: r in roots && Reaches(arcs, r, v))
  }

  lemma ChainsDisjoint(arcs: Arcs, roots: seq<Id>, chains: seq<seq<Id>>, j: nat, k: nat, v: Id)
    requires IsPartition(arcs, roots, chains)
    requires j < k < |chains|
    ensures !(v in chains[j] && v in chains[k])
  {
    UnionIs(chains[..k]);
    if v in chains[j] {
      assert chains[..k][j] == chains[j];
    }
  }

  method FindIndependentChains(events: seq<Event>) returns (chains: seq<seq<Id>>)
    ensures IsPartition(CausalArcs(events), RootsOf(events), chains)
    ensures UniqueIds(events) ==>
      |chains| == |RootsOf(events)| && forall k :: 0 <= k < |chains| ==> chains[k][0] == RootsOf(events)[k]
  {
    if |events| == 0 {
      return [];
    }
    ghost var arcs := CausalArcs(events);
    var graph := BuildCausalGraph(events);
    var roots := FindRoots(events, graph);
    RootsAre(events, Ids(events));
    var visited: set<Id> := {};
    chains := [];
    for i := 0 to |roots|
      invariant ChainsSoFar(arcs, roots, chains, visited, i)
      invariant UniqueIds(events) ==> |chains| == i && forall k :: 0 <= k < |chains| ==> chains[k][0] == roots[k]
    {
      if roots[i] in visited {
        if UniqueIds(events) {
          RootNotReached(events, roots, chains, visited, i);
        }
        RootSkipped(arcs, roots, chains, visited, i);
        continue;
      }
      var chain;
      ghost var base := visited;
      chain, visited := CollectChain(events, graph, roots[i], visited);
      ChainAdded(arcs, roots, chains, base, visited, i, chain);
      chains := chains + [chain];
    }
  }

  method FindRoots(events: seq<Event>, graph: CausalGraph) returns (roots: seq<Id>)
    requires IsCausalGraph(events, graph)
    ensures roots == RootsOf(events)
  {
    roots := [];
    for i := 0 to |events|
      invariant roots == Roots(events[..i], graph.Keys)
    {
      assert events[..i + 1][..i] == events[..i];
      if !HasGraphParent(events[i], graph.Keys) {
        roots := roots + [events[i].event_id];
      }
    }
    assert events[..|events|] == events;
  }

  /** The BFS from one root, sharing `visited` with the earlier ones. */
  method CollectChain(events: seq<Event>, graph: CausalGraph, root: Id, visited0: set<Id>)
    returns (chain: seq<Id>, visited: set<Id>)
    requires IsCausalGraph(events, graph)
    requires Closed(CausalArcs(events), visited0) && root !in visited0
    ensures Closed(CausalArcs(events), visited)
    ensures forall v :: v in visited <==> v in visited0 || Reaches(CausalArcs(events), root, v)
    ensures IsChain(CausalArcs(events), visited0, chain) && chain[0] == root
  {
    ghost var arcs := CausalArcs(events);
    chain, visited := [], visited0;
    var queue := [root];
    SearchStart(arcs, root, visited0);
    while |queue| > 0
      invariant Searching(arcs, root, visited0, visited, queue)
      invariant forall v :: v in chain <==> v in visited && v !in visited0
      invariant Distinct(chain)
      invariant if chain == [] then queue == [root] else chain[0] == root
      decreases Unseen(arcs, root, visited), |queue|
    {
      var current := queue[0];
      if current in visited {
        SearchSkip(arcs, root, visited0, visited, queue);
        queue := queue[1..];
        continue;
      }
      ChildrenAreArcs(events, graph, current);
      SearchVisit(arcs, root, visited0, visited, queue, if current in graph then graph[current].children else []);
      DistinctAppend(chain, current);
      visited := visited + {current};
      chain := chain + [current];
      queue := queue[1..];
      if current in graph {
        queue := EnqueueUnvisited(queue, graph[current].children, visited);
      }
    }
    SearchDone(arcs, root, visited0, visited);
    ReachesRefl(arcs, root);
  }

  /** After the first `i` roots. */
  ghost predicate ChainsSoFar(arcs: Arcs, roots: seq<Id>, chains: seq<seq<Id>>, visited: set<Id>, i: nat) {
    && i <= |roots|
    && Closed(arcs, visited)
    && visited == Union(chains)
    && IsPartition(arcs, roots[..i], chains)
  }

  lemma ChainAdded(arcs: Arcs, roots: seq<Id>, chains: seq<seq<Id>>, base: set<Id>, visited: set<Id>,
                   i: nat, chain: seq<Id>)
    requires ChainsSoFar(arcs, roots, chains, base, i) && i < |roots|
    requires Closed(arcs, visited)
    requires forall v :: v in visited <==> v in base || Reaches(arcs, roots[i], v)
    requires IsChain(arcs, base, chain) && chain[0] == roots[i]
    ensures ChainsSoFar(arcs, roots, chains + [chain], visited, i + 1)
  {
    var more := chains + [chain];
    assert more[..|chains|] == chains;
    assert visited == Union(more);
    RootsReach(arcs, roots, base, visited, i);
    forall k | 0 <= k < |more|
      ensures IsChain(arcs, Union(more[..k]), more[k]) && more[k][0] in roots[..i + 1]
    {
      assert more[..k] == chains[..k];
      assert roots[..i + 1] == roots[..i] + [roots[i]];
      if k == |chains| {
        assert chains[..k] == chains;
      }
    }
  }

  lemma RootsReach(arcs: Arcs, roots: seq<Id>, base: set<Id>, visited: set<Id>, i: nat)
    requires i < |roots|
    requires forall v :: v in base <==> exists r :: r in roots[..i] && Reaches(arcs, r, v)
    requires forall v :: v in visited <==> v in base || Reaches(arcs, roots[i], v)
    ensures forall v :: v in visited <==> exists r :: r in roots[..i + 1] && Reaches(arcs, r, v)
  {
    assert roots[..i + 1] == roots[..i] + [roots[i]];
  }

  /** A root that is already visited changes nothing. */
  lemma RootSkipped(arcs: Arcs, roots: seq<Id>, chains: seq<seq<Id>>, visited: set<Id>, i: nat)
    requires ChainsSoFar(arcs, roots, chains, visited, i) && i < |roots| && roots[i] in visited
    ensures ChainsSoFar(arcs, roots, chains, visited, i + 1)
  {
    assert roots[..i + 1] == roots[..i] + [roots[i]];
    forall v | Reaches(arcs, roots[i], v)
      ensures v in visited
    {
      ClosedReaches(arcs, visited, roots[i], v);
    }
  }

  /** With unique ids nothing leads into a root ... */
  lemma RootHasNoParent(events: seq<Event>, r: Id, a: Id)
    requires UniqueIds(events) && r in RootsOf(events)
    ensures (a, r) !in CausalArcs(events)
  {
    RootsAre(events, Ids(events));
  }

  lemma OnlyRootReachesRoot(events: seq<Event>, r: Id, a: Id)
    requires UniqueIds(events) && r in RootsOf(events)
    requires Reaches(CausalArcs(events), a, r)
    ensures a == r
  {
    if a != r {
      LastStep(CausalArcs(events), a, r);
      var c: Id :| (c, r) in CausalArcs(events);
      RootHasNoParent(events, r, c);
    }
  }

  /** ... so no earlier chain can have visited it. */
  lemma RootNotReached(events: seq<Event>, roots: seq<Id>, chains: seq<seq<Id>>, visited: set<Id>, i: nat)
    requires UniqueIds(events) && roots == RootsOf(events)
    requires ChainsSoFar(CausalArcs(events), roots, chains, visited, i) && i < |roots|
    ensures roots[i] !in visited
  {
    if roots[i] in visited {
      var r: Id :| r in roots[..i] && Reaches(CausalArcs(events), r, roots[i]);
      RootsAre(events, Ids(events));
      OnlyRootReachesRoot(events, roots[i], r);
    }
  }
}
