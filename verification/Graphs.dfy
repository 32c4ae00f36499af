/** Directed reachability, shared by the provenance graph, the causal graph and
    the message classifier. A graph is abstracted to its set of arcs. */
module Graphs {
  /** Identifiers are UUIDs in the program; only their equality matters. */
  type Id = nat
  type Arcs = set<(Id, Id)>

  ghost predicate IsWalk(arcs: Arcs, p: seq<Id>) {
    |p| > 0 && forall i, j :: 0 <= i < j < |p| && j == i + 1 ==> (p[i], p[j]) in arcs
  }

  ghost predicate WalkBetween(arcs: Arcs, p: seq<Id>, a: Id, b: Id) {
    IsWalk(arcs, p) && p[0] == a && p[|p| - 1] == b
  }

  /** Reflexive-transitive closure of the arcs. */
  ghost predicate Reaches(arcs: Arcs, a: Id, b: Id) {
    exists p: seq<Id> :: WalkBetween(arcs, p, a, b)
  }

  /** No arc can be completed to a closed walk. */
  ghost predicate Acyclic(arcs: Arcs) {
    forall a, b :: (a, b) in arcs ==> !Reaches(arcs, b, a)
  }

  ghost predicate Closed(arcs: Arcs, s: set<Id>) {
    forall a, b :: (a, b) in arcs && a in s ==> b in s
  }

  ghost function Nodes(arcs: Arcs): set<Id> {
    (set e | e in arcs :: e.0) + (set e | e in arcs :: e.1)
  }

  lemma ReachesRefl(arcs: Arcs, a: Id)
    ensures Reaches(arcs, a, a)
  {
    assert WalkBetween(arcs, [a], a, a);
  }

  lemma WalkExtend(arcs: Arcs, p: seq<Id>, a: Id, b: Id, c: Id)
    requires WalkBetween(arcs, p, a, b) && (b, c) in arcs
    ensures WalkBetween(arcs, p + [c], a, c)
  {
  }

  lemma ReachesTrans(arcs: Arcs, a: Id, b: Id, c: Id)
    requires Reaches(arcs, a, b) && Reaches(arcs, b, c)
    ensures Reaches(arcs, a, c)
  {
    var p :| WalkBetween(arcs, p, a, b);
    var q :| WalkBetween(arcs, q, b, c);
    var r := p + q[1..];
    forall i | 0 <= i < |r| - 1
      ensures (r[i], r[i + 1]) in arcs
    {
      if i == |p| - 1 {
        assert r[i] == q[0] && r[i + 1] == q[1];
      } else if i >= |p| {
        assert r[i] == q[i - |p| + 1] && r[i + 1] == q[i - |p| + 2];
      }
    }
    assert WalkBetween(arcs, r, a, c);
  }

  lemma ReachesArc(arcs: Arcs, a: Id, b: Id)
    requires (a, b) in arcs
    ensures Reaches(arcs, a, b)
  {
    assert WalkBetween(arcs, [a, b], a, b);
  }

  lemma ReachesStep(arcs: Arcs, a: Id, b: Id, c: Id)
    requires Reaches(arcs, a, b) && (b, c) in arcs
    ensures Reaches(arcs, a, c)
  {
    ReachesArc(arcs, b, c);
    ReachesTrans(arcs, a, b, c);
  }

  lemma ReachesMonotone(arcs: Arcs, more: Arcs, a: Id, b: Id)
    requires arcs <= more && Reaches(arcs, a, b)
    ensures Reaches(more, a, b)
  {
    var p :| WalkBetween(arcs, p, a, b);
    assert WalkBetween(more, p, a, b);
  }

  /** Nothing escapes a closed set: the completeness half of every BFS below. */
  lemma {:induction false} ClosedWalk(arcs: Arcs, s: set<Id>, p: seq<Id>)
    requires Closed(arcs, s) && IsWalk(arcs, p) && p[0] in s
    ensures p[|p| - 1] in s
    decreases |p|
  {
    if |p| > 1 {
      assert (p[0], p[1]) in arcs;
      assert forall i :: 0 <= i < |p[1..]| - 1 ==> (p[1..][i], p[1..][i + 1]) == (p[i + 1], p[i + 2]);
      ClosedWalk(arcs, s, p[1..]);
    }
  }

  lemma ClosedReaches(arcs: Arcs, s: set<Id>, a: Id, b: Id)
    requires Closed(arcs, s) && a in s && Reaches(arcs, a, b)
    ensures b in s
  {
    var p :| WalkBetween(arcs, p, a, b);
    ClosedWalk(arcs, s, p);
  }

  /** The two ends of a walk: it is either trivial or starts with an arc, and
      either trivial or ends with one. */
  lemma FirstStep(arcs: Arcs, a: Id, b: Id)
    requires Reaches(arcs, a, b) && a != b
    ensures exists c: Id :: (a, c) in arcs && Reaches(arcs, c, b)
  {
    var p :| WalkBetween(arcs, p, a, b);
    assert (p[0], p[1]) in arcs;
    assert forall i :: 0 <= i < |p[1..]| - 1 ==> (p[1..][i], p[1..][i + 1]) == (p[i + 1], p[i + 2]);
    assert WalkBetween(arcs, p[1..], p[1], b);
  }

  lemma LastStep(arcs: Arcs, a: Id, b: Id)
    requires Reaches(arcs, a, b) && a != b
    ensures exists c: Id :: Reaches(arcs, a, c) && (c, b) in arcs
  {
    var p :| WalkBetween(arcs, p, a, b);
    var n := |p| - 1;
    assert (p[n - 1], p[n]) in arcs;
    assert WalkBetween(arcs, p[..n], a, p[n - 1]);
  }

  /** A walk in the graph with one more arc either avoids the arc or splits
      around it. */
  lemma {:induction false} WalkSplit(arcs: Arcs, f: Id, t: Id, p: seq<Id>)
    requires IsWalk(arcs + {(f, t)}, p)
    ensures var a, b := p[0], p[|p| - 1];
            Reaches(arcs, a, b) || (Reaches(arcs, a, f) && Reaches(arcs, t, b))
    decreases |p|
  {
    var a, b := p[0], p[|p| - 1];
    if |p| == 1 {
      ReachesRefl(arcs, a);
    } else {
      var q := p[1..];
      assert forall i :: 0 <= i < |q| - 1 ==> (q[i], q[i + 1]) == (p[i + 1], p[i + 2]);
      WalkSplit(arcs, f, t, q);
      assert (p[0], p[1]) in arcs + {(f, t)};
      if (a, q[0]) in arcs {
        ReachesArc(arcs, a, q[0]);
        if Reaches(arcs, q[0], b) {
          ReachesTrans(arcs, a, q[0], b);
        } else {
          ReachesTrans(arcs, a, q[0], f);
        }
      } else {
        ReachesRefl(arcs, f);
      }
    }
  }

  lemma ReachesSplit(arcs: Arcs, f: Id, t: Id, a: Id, b: Id)
    requires Reaches(arcs + {(f, t)}, a, b)
    ensures Reaches(arcs, a, b) || (Reaches(arcs, a, f) && Reaches(arcs, t, b))
  {
    var p :| WalkBetween(arcs + {(f, t)}, p, a, b);
    WalkSplit(arcs, f, t, p);
  }

  /** Adding an arc to an acyclic graph keeps it acyclic exactly when its target
      does not already reach its source. */
  lemma AcyclicExtension(arcs: Arcs, f: Id, t: Id)
    requires Acyclic(arcs)
    ensures Acyclic(arcs + {(f, t)}) <==> !Reaches(arcs, t, f)
  {
    var more := arcs + {(f, t)};
    if Reaches(arcs, t, f) {
      ReachesMonotone(arcs, more, t, f);
      assert (f, t) in more;
    } else {
      forall a, b | (a, b) in more
        ensures !Reaches(more, b, a)
      {
        if Reaches(more, b, a) {
          ReachesSplit(arcs, f, t, b, a);
          if (a, b) in arcs {
            assert Reaches(arcs, b, f) && Reaches(arcs, t, a);
            ReachesArc(arcs, a, b);
            ReachesTrans(arcs, t, a, b);
            ReachesTrans(arcs, t, b, f);
          }
        }
      }
    }
  }

  /** A new node that only receives arcs is reached from nowhere it points to. */
  lemma SinkReachesOnlyItself(arcs: Arcs, v: Id, b: Id)
    requires forall e :: e in arcs ==> e.0 != v
    ensures Reaches(arcs, v, b) ==> b == v
  {
    if Reaches(arcs, v, b) && b != v {
      FirstStep(arcs, v, b);
    }
  }

  // ------------------------------------------------------------------ BFS

  /** Every traversal of the program keeps this about its `visited` set and
      `queue`. `base` is what earlier traversals sharing `visited` left there. */
  ghost predicate Searching(arcs: Arcs, start: Id, base: set<Id>, visited: set<Id>, queue: seq<Id>) {
    && base <= visited
    && Closed(arcs, base)
    && (start in visited || start in queue)
    && (forall v :: v in visited - base ==> Reaches(arcs, start, v))
    && (forall v :: v in queue ==> Reaches(arcs, start, v) && v in Nodes(arcs) + {start})
    && (forall a, b :: (a, b) in arcs && a in visited ==> b in visited || b in queue)
  }

  ghost function Unseen(arcs: Arcs, start: Id, visited: set<Id>): set<Id> {
    Nodes(arcs) + {start} - visited
  }

  lemma SearchStart(arcs: Arcs, start: Id, base: set<Id>)
    requires Closed(arcs, base)
    ensures Searching(arcs, start, base, base, [start])
  {
    ReachesRefl(arcs, start);
  }

  /** Dequeuing an already visited node. */
  lemma SearchSkip(arcs: Arcs, start: Id, base: set<Id>, visited: set<Id>, queue: seq<Id>)
    requires Searching(arcs, start, base, visited, queue)
    requires queue != [] && queue[0] in visited
    ensures Searching(arcs, start, base, visited, queue[1..])
  {
    assert forall v :: v in queue ==> v == queue[0] || v in queue[1..];
  }

  /** Dequeuing a new node and enqueuing (at least) its unvisited successors. */
  lemma SearchExpand(arcs: Arcs, start: Id, base: set<Id>, visited: set<Id>, queue: seq<Id>,
                     targets: seq<Id>, next: seq<Id>)
    requires Searching(arcs, start, base, visited, queue)
    requires queue != [] && queue[0] !in visited
    requires forall b :: b in targets <==> (queue[0], b) in arcs
    requires forall v :: v in queue[1..] ==> v in next
    requires forall v :: v in next ==> v in queue[1..] || v in targets
    requires forall b :: b in targets ==> b in next || b in visited + {queue[0]}
    ensures Searching(arcs, start, base, visited + {queue[0]}, next)
    ensures Unseen(arcs, start, visited + {queue[0]}) < Unseen(arcs, start, visited)
  {
    var c := queue[0];
    var seen := visited + {c};
    assert forall v :: v in queue ==> v == c || v in queue[1..];
    assert c in Unseen(arcs, start, visited) && c !in Unseen(arcs, start, seen);
    forall v | v in next
      ensures Reaches(arcs, start, v) && v in Nodes(arcs) + {start}
    {
      if v !in queue[1..] {
        assert (c, v) in arcs && (c, v).1 == v;
        ReachesStep(arcs, start, c, v);
      }
    }
    forall a, b | (a, b) in arcs && a in seen
      ensures b in seen || b in next
    {
      if a == c {
        assert b in targets;
      }
    }
  }

  lemma SearchVisit(arcs: Arcs, start: Id, base: set<Id>, visited: set<Id>, queue: seq<Id>, targets: seq<Id>)
    requires Searching(arcs, start, base, visited, queue)
    requires queue != [] && queue[0] !in visited
    requires forall b :: b in targets <==> (queue[0], b) in arcs
    ensures var seen := visited + {queue[0]};
            && Searching(arcs, start, base, seen, queue[1..] + Unvisited(targets, seen))
            && Unseen(arcs, start, seen) < Unseen(arcs, start, visited)
  {
    var seen := visited + {queue[0]};
    UnvisitedIs(targets, seen);
    SearchExpand(arcs, start, base, visited, queue, targets, queue[1..] + Unvisited(targets, seen));
  }

  lemma SearchDone(arcs: Arcs, start: Id, base: set<Id>, visited: set<Id>)
    requires Searching(arcs, start, base, visited, [])
    ensures Closed(arcs, visited)
    ensures forall v :: v in visited <==> v in base || Reaches(arcs, start, v)
  {
    forall v | Reaches(arcs, start, v)
      ensures v in visited
    {
      ClosedReaches(arcs, visited, start, v);
    }
  }

  function Unvisited(targets: seq<Id>, visited: set<Id>): seq<Id> {
    if targets == [] then []
    else (if targets[0] in visited then [] else [targets[0]]) + Unvisited(targets[1..], visited)
  }

  lemma {:induction false} UnvisitedIs(targets: seq<Id>, visited: set<Id>)
    ensures forall v :: v in Unvisited(targets, visited) <==> v in targets && v !in visited
  {
    if targets != [] {
      UnvisitedIs(targets[1..], visited);
      assert forall v :: v in targets <==> v == targets[0] || v in targets[1..];
    }
  }

  /** The inner loop of the traversals: queue each successor not yet visited. */
  method EnqueueUnvisited(queue: seq<Id>, targets: seq<Id>, visited: set<Id>) returns (q: seq<Id>)
    ensures q == queue + Unvisited(targets, visited)
  {
    q := queue;
    for i := 0 to |targets|
      invariant q + Unvisited(targets[i..], visited) == queue + Unvisited(targets, visited)
    {
      if targets[i] !in visited {
        q := q + [targets[i]];
      }
      assert targets[i..][1..] == targets[i + 1..];
    }
  }
}
