/** What the chains of `findIndependentChains` are: a partition of the events when
    the causal relation is acyclic, and the connected components its comment
    promises exactly when every event has one root. */
module ChainLaws {
  import opened Graphs
  import opened OrderedMaps
  import opened CausalGraphs

  /** Every in-graph parent stands earlier in the log. */
  ghost predicate ParentsPrecede(events: seq<Event>) {
    forall k, p :: 0 <= k < |events| && p in GetCausalParents(events[k]) && p in Ids(events) ==> p in Ids(events[..k])
  }

  ghost predicate AtMostOneGraphParent(events: seq<Event>) {
    forall a, b, v :: (a, v) in CausalArcs(events) && (b, v) in CausalArcs(events) ==> a == b
  }

  ghost predicate HasOneRoot(events: seq<Event>, v: Id) {
    exists r: Id :: IsOnlyRoot(events, v, r)
  }

  ghost predicate IsOnlyRoot(events: seq<Event>, v: Id, r: Id) {
    && r in RootsOf(events) && Reaches(CausalArcs(events), r, v)
    && forall q :: q in RootsOf(events) && Reaches(CausalArcs(events), q, v) ==> q == r
  }

  // ------------------------------------------------------------- coverage

  /** Climbing from `v` to parents, away from the nodes `below` it, ends at a root. */
  lemma {:induction false} ClimbToRoot(events: seq<Event>, v: Id, below: set<Id>)
    requires Acyclic(CausalArcs(events)) && v in Ids(events)
    requires forall b :: b in below ==> Reaches(CausalArcs(events), v, b)
    requires v !in below
    ensures exists r :: r in RootsOf(events) && Reaches(CausalArcs(events), r, v)
    decreases Ids(events) - below
  {
    var arcs := CausalArcs(events);
    RootsAre(events, Ids(events));
    ReachesRefl(arcs, v);
    var e :| e in events && e.event_id == v;
    if HasGraphParent(e, Ids(events)) {
      var i :| 0 <= i < |GetCausalParents(e)| && GetCausalParents(e)[i] in Ids(events);
      var p := GetCausalParents(e)[i];
      assert (p, v) in arcs;
      ReachesArc(arcs, p, v);
      forall b | b in below + {v}
        ensures Reaches(arcs, p, b)
      {
        ReachesTrans(arcs, p, v, b);
      }
      ClimbToRoot(events, p, below + {v});
      var r :| r in RootsOf(events) && Reaches(arcs, r, p);
      ReachesTrans(arcs, r, p, v);
    } else {
      assert v in RootsOf(events);
    }
  }

  /** Without causal cycles the chains hold every event exactly once. */
  lemma AcyclicChainsCoverEvents(events: seq<Event>, chains: seq<seq<Id>>, v: Id)
    requires IsPartition(CausalArcs(events), RootsOf(events), chains)
    requires Acyclic(CausalArcs(events)) && v in Ids(events)
    ensures exists k :: 0 <= k < |chains| && v in chains[k]
    ensures forall j, k :: 0 <= j < k < |chains| ==> !(v in chains[j] && v in chains[k])
  {
    ClimbToRoot(events, v, {});
    UnionIs(chains);
    assert v in Union(chains);
    forall j, k | 0 <= j < k < |chains|
      ensures !(v in chains[j] && v in chains[k])
    {
      ChainsDisjoint(CausalArcs(events), RootsOf(events), chains, j, k, v);
    }
  }

  /** Nothing but events is in a chain. */
  lemma ChainsHoldEvents(events: seq<Event>, chains: seq<seq<Id>>)
    requires IsPartition(CausalArcs(events), RootsOf(events), chains)
    ensures Union(chains) <= Ids(events)
  {
    var arcs := CausalArcs(events);
    RootsAre(events, Ids(events));
    forall v | v in Union(chains)
      ensures v in Ids(events)
    {
      var r: Id :| r in RootsOf(events) && Reaches(arcs, r, v);
      if r != v {
        LastStep(arcs, r, v);
      }
    }
  }

  /** An append-only log whose events name earlier events is acyclic. */
  lemma PrecedenceIsAcyclic(events: seq<Event>)
    requires UniqueIds(events) && ParentsPrecede(events)
    ensures Acyclic(CausalArcs(events))
  {
    var arcs := CausalArcs(events);
    forall a, b | (a, b) in arcs
      ensures !Reaches(arcs, b, a)
    {
      if Reaches(arcs, b, a) {
        ArcGoesForward(events, a, b);
        var i :| 0 <= i < |events| && a in Ids(events[..i]) && events[i].event_id == b;
        var earlier := Ids(events) - Ids(events[..i]);
        LaterIsClosed(events, i);
        assert b !in Ids(events[..i]);
        assert events[i] in events;
        ClosedReaches(arcs, earlier, b, a);
      }
    }
  }

  lemma ArcGoesForward(events: seq<Event>, a: Id, b: Id)
    requires ParentsPrecede(events) && (a, b) in CausalArcs(events)
    ensures exists i :: 0 <= i < |events| && a in Ids(events[..i]) && events[i].event_id == b
  {
    var e :| e in events && a in GetCausalParents(e) && a in Ids(events) && e.event_id == b;
    var i :| 0 <= i < |events| && events[i] == e;
    assert a in Ids(events[..i]);
  }

  lemma LaterIsClosed(events: seq<Event>, i: nat)
    requires UniqueIds(events) && ParentsPrecede(events) && i <= |events|
    ensures Closed(CausalArcs(events), Ids(events) - Ids(events[..i]))
  {
    forall a, b | (a, b) in CausalArcs(events) && b in Ids(events[..i])
      ensures a in Ids(events[..i])
    {
      ArcGoesForward(events, a, b);
      var j :| 0 <= j < |events| && a in Ids(events[..j]) && events[j].event_id == b;
      var k :| 0 <= k < i && events[k].event_id == b;
      assert j == k;
      assert forall e :: e in events[..j] ==> e in events[..i];
    }
  }

  lemma ArcsJoinEvents(events: seq<Event>)
    ensures forall e :: e in CausalArcs(events) ==> e.0 in Ids(events) && e.1 in Ids(events)
  {
  }

  // ----------------------------------------------------------- components

  ghost function Undirected(arcs: Arcs): Arcs {
    arcs + set e | e in arcs :: (e.1, e.0)
  }

  ghost predicate WeaklyConnected(arcs: Arcs, a: Id, b: Id) {
    Reaches(Undirected(arcs), a, b)
  }

  ghost predicate SameChain(chains: seq<seq<Id>>, a: Id, b: Id) {
    exists k :: 0 <= k < |chains| && a in chains[k] && b in chains[k]
  }

  /** What the comment promises: each chain is a connected component. */
  ghost predicate AreComponents(events: seq<Event>, chains: seq<seq<Id>>) {
    forall a, b :: a in Ids(events) && b in Ids(events) ==>
      (SameChain(chains, a, b) <==> WeaklyConnected(CausalArcs(events), a, b))
  }

  lemma {:induction false} UndirectedWalkReverse(arcs: Arcs, p: seq<Id>)
    requires IsWalk(Undirected(arcs), p)
    ensures Reaches(Undirected(arcs), p[|p| - 1], p[0])
    decreases |p|
  {
    if |p| == 1 {
      ReachesRefl(Undirected(arcs), p[0]);
    } else {
      assert (p[0], p[1]) in Undirected(arcs);
      assert (p[1], p[0]) in Undirected(arcs);
      assert IsWalk(Undirected(arcs), p[1..]);
      UndirectedWalkReverse(arcs, p[1..]);
      ReachesStep(Undirected(arcs), p[|p| - 1], p[1], p[0]);
    }
  }

  lemma MeetingWeaklyConnected(arcs: Arcs, h: Id, a: Id, b: Id)
    requires Reaches(arcs, h, a) && Reaches(arcs, h, b)
    ensures WeaklyConnected(arcs, a, b)
  {
    var p :| WalkBetween(arcs, p, h, a);
    assert IsWalk(Undirected(arcs), p);
    UndirectedWalkReverse(arcs, p);
    ReachesMonotone(arcs, Undirected(arcs), h, b);
    ReachesTrans(Undirected(arcs), a, h, b);
  }

  ghost function Below(events: seq<Event>, r: Id): set<Id> {
    set v | v in Ids(events) && IsOnlyRoot(events, v, r)
  }

  /** The events below one root form a set that no arc enters or leaves. */
  lemma OneRootClosed(events: seq<Event>, r: Id)
    requires forall v :: v in Ids(events) ==> HasOneRoot(events, v)
    ensures Closed(Undirected(CausalArcs(events)), Below(events, r))
  {
    var arcs := CausalArcs(events);
    var s := Below(events, r);
    ArcsJoinEvents(events);
    forall a, b | (a, b) in Undirected(arcs) && a in s
      ensures b in s
    {
      assert IsOnlyRoot(events, a, r);
      if (a, b) in arcs {
        ReachesStep(arcs, r, a, b);
        var q :| IsOnlyRoot(events, b, q);
      } else {
        assert (b, a) in arcs;
        var q :| IsOnlyRoot(events, b, q);
        ReachesStep(arcs, q, b, a);
      }
    }
  }

  /** The chains are the connected components if and only if every event is
      reached from exactly one root. */
  lemma ChainsAreComponentsIff(events: seq<Event>, chains: seq<seq<Id>>)
    requires UniqueIds(events)
    requires IsPartition(CausalArcs(events), RootsOf(events), chains)
    ensures AreComponents(events, chains) <==> forall v :: v in Ids(events) ==> HasOneRoot(events, v)
  {
    UnionIs(chains);
    if forall v :: v in Ids(events) ==> HasOneRoot(events, v) {
      forall a, b | a in Ids(events) && b in Ids(events)
        ensures SameChain(chains, a, b) <==> WeaklyConnected(CausalArcs(events), a, b)
      {
        OneRootGivesComponents(events, chains, a, b);
      }
    }
    if AreComponents(events, chains) {
      forall v | v in Ids(events)
        ensures HasOneRoot(events, v)
      {
        ComponentsGiveOneRoot(events, chains, v);
      }
    }
  }

  lemma OneRootGivesComponents(events: seq<Event>, chains: seq<seq<Id>>, a: Id, b: Id)
    requires IsPartition(CausalArcs(events), RootsOf(events), chains)
    requires forall v :: v in Ids(events) ==> HasOneRoot(events, v)
    requires a in Ids(events) && b in Ids(events)
    ensures SameChain(chains, a, b) <==> WeaklyConnected(CausalArcs(events), a, b)
  {
    var arcs := CausalArcs(events);
    if SameChain(chains, a, b) {
      var k :| 0 <= k < |chains| && a in chains[k] && b in chains[k];
      MeetingWeaklyConnected(arcs, chains[k][0], a, b);
    }
    if WeaklyConnected(arcs, a, b) {
      var r :| IsOnlyRoot(events, a, r);
      OneRootClosed(events, r);
      ClosedReaches(Undirected(arcs), Below(events, r), a, b);
      UnionIs(chains);
      assert a in Union(chains) && b in Union(chains);
      var j :| 0 <= j < |chains| && a in chains[j];
      var k :| 0 <= k < |chains| && b in chains[k];
      assert chains[j][0] == r && chains[k][0] == r;
      if j < k {
        ChainsDisjoint(arcs, RootsOf(events), chains, j, k, r);
      } else if k < j {
        ChainsDisjoint(arcs, RootsOf(events), chains, k, j, r);
      }
    }
  }

  lemma ComponentsGiveOneRoot(events: seq<Event>, chains: seq<seq<Id>>, v: Id)
    requires UniqueIds(events)
    requires IsPartition(CausalArcs(events), RootsOf(events), chains)
    requires AreComponents(events, chains) && v in Ids(events)
    ensures HasOneRoot(events, v)
  {
    var arcs := CausalArcs(events);
    ReachesRefl(Undirected(arcs), v);
    var k :| 0 <= k < |chains| && v in chains[k];
    var r := chains[k][0];
    forall q | q in RootsOf(events) && Reaches(arcs, q, v)
      ensures q == r
    {
      RootsAre(events, Ids(events));
      MeetingWeaklyConnected(arcs, q, q, v) by {
        ReachesRefl(arcs, q);
      }
      var j :| 0 <= j < |chains| && q in chains[j] && v in chains[j];
      if j < k {
        ChainsDisjoint(arcs, RootsOf(events), chains, j, k, v);
      } else if k < j {
        ChainsDisjoint(arcs, RootsOf(events), chains, k, j, v);
      }
      OnlyRootReachesRoot(events, q, r);
    }
    assert IsOnlyRoot(events, v, r);
  }

  /** In a forest two roots never reach the same event. */
  lemma {:induction false} ForestRootUnique(events: seq<Event>, p: seq<Id>, q: Id)
    requires UniqueIds(events) && AtMostOneGraphParent(events)
    requires IsWalk(CausalArcs(events), p) && p[0] in RootsOf(events)
    requires q in RootsOf(events) && Reaches(CausalArcs(events), q, p[|p| - 1])
    ensures q == p[0]
    decreases |p|
  {
    var arcs := CausalArcs(events);
    var n := |p| - 1;
    if n == 0 {
      OnlyRootReachesRoot(events, p[0], q);
    } else {
      assert (p[n - 1], p[n]) in arcs;
      if q == p[n] {
        RootHasNoParent(events, q, p[n - 1]);
      } else {
        LastStep(arcs, q, p[n]);
        var c: Id :| Reaches(arcs, q, c) && (c, p[n]) in arcs;
        assert c == p[n - 1];
        ForestRootUnique(events, p[..n], q);
      }
    }
  }

  /** So for forests the comment is right. */
  lemma ForestChainsAreComponents(events: seq<Event>, chains: seq<seq<Id>>)
    requires UniqueIds(events) && Acyclic(CausalArcs(events)) && AtMostOneGraphParent(events)
    requires IsPartition(CausalArcs(events), RootsOf(events), chains)
    ensures AreComponents(events, chains)
  {
    forall v | v in Ids(events)
      ensures HasOneRoot(events, v)
    {
      ClimbToRoot(events, v, {});
      var r :| r in RootsOf(events) && Reaches(CausalArcs(events), r, v);
      var p :| WalkBetween(CausalArcs(events), p, r, v);
      forall q | q in RootsOf(events) && Reaches(CausalArcs(events), q, v)
        ensures q == r
      {
        ForestRootUnique(events, p, q);
      }
      assert IsOnlyRoot(events, v, r);
    }
    ChainsAreComponentsIff(events, chains);
  }

  /** In general it is not: an event below two roots sits in the chain of one of
      them, in one connected component with the other. */
  lemma TwoRootsSplitComponent(events: seq<Event>, chains: seq<seq<Id>>, r: Id, q: Id, v: Id)
    requires UniqueIds(events) && v in Ids(events)
    requires IsPartition(CausalArcs(events), RootsOf(events), chains)
    requires r in RootsOf(events) && q in RootsOf(events) && r != q
    requires Reaches(CausalArcs(events), r, v) && Reaches(CausalArcs(events), q, v)
    ensures !AreComponents(events, chains)
  {
    assert forall t :: !IsOnlyRoot(events, v, t);
    ChainsAreComponentsIff(events, chains);
  }

  /** Two events without parents, and a third caused by both. */
  ghost function SharedChild(): seq<Event> {
    [Event(1, Missing, 0), Event(2, Missing, 0), Event(3, Parents([1, 2]), 0)]
  }

  lemma SharedChildSplitsComponent(chains: seq<seq<Id>>)
    requires IsPartition(CausalArcs(SharedChild()), RootsOf(SharedChild()), chains)
    ensures !AreComponents(SharedChild(), chains)
  {
    var events := SharedChild();
    var arcs := CausalArcs(events);
    SharedChildArc(0);
    SharedChildArc(1);
    ReachesArc(arcs, 1, 3);
    ReachesArc(arcs, 2, 3);
    TwoRootsSplitComponent(events, chains, 1, 2, 3);
  }

  lemma SharedChildArc(i: nat)
    requires i < 2
    ensures (i + 1, 3) in CausalArcs(SharedChild()) && i + 1 in RootsOf(SharedChild()) && 3 in Ids(SharedChild())
  {
    var events := SharedChild();
    var e, e3 := events[i], events[2];
    assert e in events && e3 in events;
    assert e.event_id in Ids(events) && e3.event_id in Ids(events);
    assert GetCausalParents(e3)[i] in GetCausalParents(e3);
    RootsAre(events, Ids(events));
    assert !HasGraphParent(e, Ids(events));
  }
}
