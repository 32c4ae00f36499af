/** src/runtime/agent-runtime.ts: how the agent loop grows the provenance graph
    while it processes one user input. */
module AgentProvenance {
  import opened Graphs
  import opened OrderedMaps
  import opened ProvenanceGraphs

  /** What the tool classifier can answer for a tool call. */
  type ToolClass = t: NodeType | t in {Exploration, Commitment, Verification} witness Exploration

  /** The model's answer to one request: the classes of its tool calls, in
      order, or an exception. */
  datatype ModelReply = Reply(calls: seq<ToolClass>) | Throws

  datatype Outcome = Returned | ModelFailed | ExceededMaxIterations

  predicate OnChain(t: NodeType) {
    t in {Commitment, Verification, PatchProposal}
  }

  /** The node types one turn creates. */
  function TurnTypes(calls: seq<ToolClass>): seq<NodeType> {
    calls + if HasWork(calls) then [PatchProposal] else []
  }

  predicate HasWork(calls: seq<ToolClass>) {
    exists i :: 0 <= i < |calls| && OnChain(calls[i])
  }

  /** The node types the loop creates: turns go on until a reply has no tool
      calls, the model fails, or the iteration limit is reached. */
  function LoopTypes(replies: seq<ModelReply>, limit: nat): seq<NodeType> {
    if replies == [] || limit == 0 || replies[0].Throws? || replies[0].calls == [] then []
    else TurnTypes(replies[0].calls) + LoopTypes(replies[1..], limit - 1)
  }

  function LoopOutcome(replies: seq<ModelReply>, limit: nat): Outcome
    requires limit <= |replies|
  {
    if limit == 0 then ExceededMaxIterations
    else if replies[0].Throws? then ModelFailed
    else if replies[0].calls == [] then Returned
    else LoopOutcome(replies[1..], limit - 1)
  }

  /** After `i` turns creating `done`, the rest of the replies decide the rest. */
  ghost predicate LoopSoFar(replies: seq<ModelReply>, limit: nat, i: nat, done: seq<NodeType>) {
    && i <= limit <= |replies|
    && LoopTypes(replies, limit) == done + LoopTypes(replies[i..], limit - i)
    && LoopOutcome(replies, limit) == LoopOutcome(replies[i..], limit - i)
  }

  lemma LoopStep(replies: seq<ModelReply>, limit: nat, i: nat, done: seq<NodeType>)
    requires LoopSoFar(replies, limit, i, done) && i < limit
    requires replies[i].Reply? && replies[i].calls != []
    ensures LoopSoFar(replies, limit, i + 1, done + TurnTypes(replies[i].calls))
  {
    assert replies[i..][1..] == replies[i + 1..];
    var later := LoopTypes(replies[i + 1..], limit - i - 1);
    assert done + (TurnTypes(replies[i].calls) + later) == (done + TurnTypes(replies[i].calls)) + later;
  }

  function Types(log: seq<Node>): seq<NodeType> {
    seq(|log|, i requires 0 <= i < |log| => log[i].node_type)
  }

  /** The latest goal, commitment, verification or patch proposal. */
  function LastOnChain(goal: Id, log: seq<Node>): Id {
    if log == [] then goal
    else
      var n := log[|log| - 1];
      if OnChain(n.node_type) then n.node_id else LastOnChain(goal, log[..|log| - 1])
  }

  /** The commitments and verifications no patch proposal has joined yet. */
  function PendingWork(log: seq<Node>): seq<Id> {
    if log == [] then []
    else
      var n := log[|log| - 1];
      if n.node_type == PatchProposal then []
      else PendingWork(log[..|log| - 1]) + if OnChain(n.node_type) then [n.node_id] else []
  }

  /** A patch proposal hangs below the turn's commitments and verifications, any
      other node below the latest node of the chain. */
  function ExpectedParents(goal: Id, log: seq<Node>, kind: NodeType): seq<Id> {
    if kind == PatchProposal then PendingWork(log) else [LastOnChain(goal, log)]
  }

  /** What one input has built so far: `created` below its Goal node, on top of
      the earlier graph (`nodes0`, `arcs0`), as ids and (`log`) as nodes. `chain` is
      the forward chain the commitments, verifications and patch proposals lie on. */
  datatype Progress = Progress(nodes0: map<Id, Node>, arcs0: Arcs, nodes: map<Id, Node>, arcs: Arcs,
                               goal: Id, created: seq<Id>, log: seq<Node>, chain: seq<Id>)
  {
    ghost predicate NodesAdded() {
      && goal !in nodes0
      && Distinct(created)
      && (forall v :: v in created ==> v !in nodes0 && v != goal)
      && (forall v :: v in nodes <==> v in nodes0 || v == goal || v in created)
      && (forall k :: k in nodes0 ==> nodes[k] == nodes0[k])
    }

    ghost predicate ArcsAdded() {
      && arcs0 <= arcs
      && (forall e :: e in arcs0 ==> e.0 in nodes0 && e.1 in nodes0)
      && (forall e :: e in arcs && e !in arcs0 ==> (e.0 == goal || e.0 in created) && e.1 in created)
    }

    ghost predicate ParentsMatch() {
      forall v :: v in created && v in nodes ==> forall u :: (u, v) in arcs <==> u in nodes[v].causal_parents
    }

    ghost predicate AllReached() {
      forall v :: v in created ==> Reaches(arcs, goal, v)
    }

    ghost predicate Chained() {
      && |chain| > 0
      && WalkBetween(arcs, chain, goal, Tip())
      && Tip() == LastOnChain(goal, log)
      && (forall v :: v in chain <==> v == goal || (v in created && v in nodes && OnChain(nodes[v].node_type)))
    }

    /** The log lists the created nodes, each with the parents it should have. */
    ghost predicate Planned() {
      && |log| == |created|
      && (forall i :: 0 <= i < |log| ==> created[i] == log[i].node_id)
      && (forall i :: 0 <= i < |log| ==> log[i].node_id in nodes && nodes[log[i].node_id] == log[i])
      && (forall i :: 0 <= i < |log| ==> log[i].causal_parents == ExpectedParents(goal, log[..i], log[i].node_type))
    }

    ghost predicate StaysAcyclic() {
      Acyclic(arcs0) ==> Acyclic(arcs)
    }

    ghost predicate Valid() {
      NodesAdded() && ArcsAdded() && ParentsMatch() && AllReached() && Planned() && Chained() && StaysAcyclic()
    }

    function Tip(): Id
      requires |chain| > 0
    {
      chain[|chain| - 1]
    }

    /** All created nodes but the explorations lie on one walk from the goal, and nothing else
        does. */
    ghost predicate WorkOnChain() {
      && (exists tip :: WalkBetween(arcs, chain, goal, tip))
      && (forall v :: v in chain ==> v == goal || v in created)
      && (forall i :: 0 <= i < |log| ==> (log[i].node_id in chain <==> log[i].node_type != Exploration))
    }

    /** Adding a node with the arcs from its causal parents. */
    ghost function Grow(node: Node): Progress {
      this.(nodes := nodes[node.node_id := node],
            arcs := arcs + IncomingArcs(node.causal_parents, node.node_id),
            created := created + [node.node_id],
            log := log + [node],
            chain := if OnChain(node.node_type) then chain + [node.node_id] else chain)
    }

    /** A node that is not in the graph is touched by no arc. */
    lemma OutsideIsIsolated(id: Id)
      requires NodesAdded() && ArcsAdded() && id !in nodes
      ensures forall e :: e in arcs ==> e.0 != id && e.1 != id
    {
    }

    lemma ChainInGraph()
      requires Valid()
      ensures forall v :: v in chain ==> v in nodes
    {
    }

    lemma GrowNodes(node: Node)
      requires NodesAdded() && ArcsAdded() && node.node_id !in nodes
      requires forall u :: u in node.causal_parents ==> u == goal || u in created
      ensures Grow(node).NodesAdded() && Grow(node).ArcsAdded()
    {
      assert forall v :: v in created + [node.node_id] <==> v in created || v == node.node_id;
    }

    lemma GrowParents(node: Node)
      requires NodesAdded() && ArcsAdded() && ParentsMatch() && node.node_id !in nodes
      ensures Grow(node).ParentsMatch()
    {
      var id := node.node_id;
      var s := Grow(node);
      OutsideIsIsolated(id);
      forall v, u | v in s.created && v in s.nodes
        ensures (u, v) in s.arcs <==> u in s.nodes[v].causal_parents
      {
        if v != id {
          assert v in created && v in nodes;
        }
      }
    }

    lemma GrowReach(node: Node)
      requires AllReached() && Chained()
      requires Tip() in node.causal_parents
      ensures Grow(node).AllReached()
    {
      var id := node.node_id;
      var s := Grow(node);
      assert (Tip(), id) in s.arcs;
      assert WalkBetween(s.arcs, chain, goal, Tip());
      ReachesStep(s.arcs, goal, Tip(), id);
      forall v | v in created
        ensures Reaches(s.arcs, goal, v)
      {
        ReachesMonotone(arcs, s.arcs, goal, v);
      }
    }

    lemma GrowChain(node: Node)
      requires NodesAdded() && Chained() && node.node_id !in nodes
      requires Tip() in node.causal_parents
      ensures Grow(node).Chained()
      ensures Grow(node).Tip() == if OnChain(node.node_type) then node.node_id else Tip()
    {
      var id := node.node_id;
      var s := Grow(node);
      assert (Tip(), id) in s.arcs;
      assert WalkBetween(s.arcs, chain, goal, Tip());
      WalkExtend(s.arcs, chain, goal, Tip(), id);
      assert s.log[..|log|] == log;
      MemberOfAppend(created, id);
      MemberOfAppend(chain, id);
    }

    lemma GrowPlanned(node: Node)
      requires NodesAdded() && Planned() && node.node_id !in nodes
      requires node.causal_parents == ExpectedParents(goal, log, node.node_type)
      ensures Grow(node).Planned()
    {
      var s := Grow(node);
      forall i | 0 <= i < |s.log|
        ensures s.log[i].causal_parents == ExpectedParents(goal, s.log[..i], s.log[i].node_type)
      {
        assert s.log[..i] == log[..i];
        if i == |log| {
          assert log[..i] == log;
        }
      }
    }

    lemma GrowAcyclic(node: Node)
      requires NodesAdded() && ArcsAdded() && StaysAcyclic() && node.node_id !in nodes
      requires node.node_id !in node.causal_parents
      ensures Grow(node).StaysAcyclic()
    {
      OutsideIsIsolated(node.node_id);
      if Acyclic(arcs0) {
        AcyclicWithSink(arcs, node.causal_parents, node.node_id);
      }
    }

    lemma GrowValid(node: Node)
      requires Valid() && node.node_id !in nodes
      requires Tip() in node.causal_parents
      requires forall u :: u in node.causal_parents ==> u in chain
      requires node.causal_parents == ExpectedParents(goal, log, node.node_type)
      ensures Grow(node).Valid()
    {
      GrowPlanned(node);
      GrowNodes(node);
      GrowParents(node);
      GrowReach(node);
      GrowChain(node);
      GrowAcyclic(node);
    }

    /** What an input leaves behind: its Goal reaches exactly the nodes it created. */
    lemma GoalReachesExactly()
      requires Valid()
      ensures forall v :: Reaches(arcs, goal, v) <==> v == goal || v in created
    {
      ReachesRefl(arcs, goal);
      var own := {goal} + set v | v in created;
      assert Closed(arcs, own);
      forall v | Reaches(arcs, goal, v)
        ensures v in own
      {
        ClosedReaches(arcs, own, goal, v);
      }
    }

    /** Earlier inputs keep their reachability: nothing new leaves an old node. */
    lemma EarlierNodesUnaffected(a: Id, b: Id)
      requires Valid() && a in nodes0
      ensures Reaches(arcs, a, b) <==> Reaches(arcs0, a, b)
    {
      if Reaches(arcs0, a, b) {
        ReachesMonotone(arcs0, arcs, a, b);
      }
      if Reaches(arcs, a, b) {
        var p :| WalkBetween(arcs, p, a, b);
        OldWalk(p);
        assert WalkBetween(arcs0, p, a, b);
      }
    }

    lemma {:induction false} OldWalk(p: seq<Id>)
      requires NodesAdded() && ArcsAdded()
      requires IsWalk(arcs, p) && p[0] in nodes0
      ensures IsWalk(arcs0, p)
      decreases |p|
    {
      if |p| > 1 {
        assert (p[0], p[1]) in arcs0;
        forall i | 0 <= i < |p[1..]| - 1
          ensures (p[1..][i], p[1..][i + 1]) in arcs
        {
          assert (p[i + 1], p[i + 2]) in arcs;
        }
        OldWalk(p[1..]);
        forall i | 0 <= i < |p| - 1
          ensures (p[i], p[i + 1]) in arcs0
        {
          if i > 0 {
            assert (p[1..][i - 1], p[1..][i]) in arcs0;
          }
        }
      }
    }
  }

  ghost function IncomingArcs(parents: seq<Id>, id: Id): Arcs {
    set u | u in parents :: (u, id)
  }

  /** Arcs into a node nothing leads out of close no cycle. */
  lemma {:induction false} AcyclicWithSink(arcs: Arcs, parents: seq<Id>, id: Id)
    requires Acyclic(arcs) && id !in parents
    requires forall e :: e in arcs ==> e.0 != id
    ensures Acyclic(arcs + IncomingArcs(parents, id))
    decreases |parents|
  {
    if parents == [] {
      assert arcs + IncomingArcs(parents, id) == arcs;
    } else {
      var n := |parents| - 1;
      var some := arcs + IncomingArcs(parents[..n], id);
      AcyclicWithSink(arcs, parents[..n], id);
      SinkReachesOnlyItself(some, id, parents[n]);
      AcyclicExtension(some, parents[n], id);
      IncomingStep(parents, n, id);
      assert parents[..n + 1] == parents;
      assert arcs + IncomingArcs(parents, id) == some + {(parents[n], id)};
    }
  }

  lemma MemberOfAppend(s: seq<Id>, x: Id)
    ensures forall v :: v in s + [x] <==> v in s || v == x
  {
  }

  lemma IncomingStep(parents: seq<Id>, i: nat, id: Id)
    requires i < |parents|
    ensures IncomingArcs(parents[..i + 1], id) == IncomingArcs(parents[..i], id) + {(parents[i], id)}
  {
    assert parents[..i + 1] == parents[..i] + [parents[i]];
  }

  /** `s` continues `s0`: the same input, with more nodes. */
  ghost predicate Later(s0: Progress, s: Progress) {
    && s.nodes0 == s0.nodes0 && s.arcs0 == s0.arcs0 && s.goal == s0.goal
    && s0.created <= s.created && s0.log <= s.log
    && (forall v :: v in s0.chain ==> v in s.chain)
    && (forall k :: k in s0.nodes ==> k in s.nodes && s.nodes[k] == s0.nodes[k])
  }

  lemma LaterGrow(s0: Progress, s: Progress, node: Node)
    requires Later(s0, s) && node.node_id !in s.nodes
    ensures Later(s0, s.Grow(node))
  {
  }

  lemma LaterTrans(s0: Progress, s1: Progress, s2: Progress)
    requires Later(s0, s1) && Later(s1, s2)
    ensures Later(s0, s2)
  {
  }

  lemma TypesGrow(log: seq<Node>, more: seq<Node>, node: Node, types: seq<NodeType>)
    requires log <= more && Types(more) == Types(log) + types
    ensures Types(more + [node]) == Types(log) + (types + [node.node_type])
  {
    assert Types(more + [node]) == Types(more) + [node.node_type];
  }

  /** Within a turn: `ids` are the turn's commitments and verifications so far. */
  ghost predicate TurnSoFar(s0: Progress, s: Progress, calls: seq<ToolClass>, ids: seq<Id>) {
    && Later(s0, s)
    && Types(s.log) == Types(s0.log) + calls
    && ids == PendingWork(s.log)
    && (forall u :: u in ids ==> u in s.chain)
    && (HasWork(calls) <==> ids != [])
    && (ids != [] ==> |s.chain| > 0 && ids[|ids| - 1] == s.Tip())
  }

  lemma TurnStart(s0: Progress, calls: seq<ToolClass>)
    requires PendingWork(s0.log) == []
    ensures TurnSoFar(s0, s0, calls[..0], [])
    ensures calls[..|calls|] == calls
  {
  }

  lemma HasWorkStep(calls: seq<ToolClass>, i: nat)
    requires i < |calls|
    ensures HasWork(calls[..i + 1]) <==> HasWork(calls[..i]) || OnChain(calls[i])
    ensures calls[..i + 1] == calls[..i] + [calls[i]]
  {
    if HasWork(calls[..i]) {
      var j :| 0 <= j < i && OnChain(calls[..i][j]);
      assert OnChain(calls[..i + 1][j]);
    }
    if OnChain(calls[i]) {
      assert OnChain(calls[..i + 1][i]);
    }
  }

  lemma PendingStep(log: seq<Node>, node: Node)
    requires node.node_type != PatchProposal
    ensures PendingWork(log + [node]) == PendingWork(log) + if OnChain(node.node_type) then [node.node_id] else []
  {
    assert (log + [node])[..|log|] == log;
  }

  lemma TurnStep(s0: Progress, s: Progress, node: Node, calls: seq<ToolClass>, i: nat, ids: seq<Id>)
    requires i < |calls| && TurnSoFar(s0, s, calls[..i], ids)
    requires node.node_id !in s.nodes && node.node_type == calls[i]
    ensures TurnSoFar(s0, s.Grow(node), calls[..i + 1], if OnChain(calls[i]) then ids + [node.node_id] else ids)
  {
    LaterGrow(s0, s, node);
    TypesGrow(s0.log, s.log, node, calls[..i]);
    PendingStep(s.log, node);
    HasWorkStep(calls, i);
  }

  // ------------------------------------------------------- what a turn is, from outside

  /** `ids` are those of the commitments and verifications among `nodes`, all of them and in
      this order: `at` says where they stand. */
  ghost predicate Joins(ids: seq<Id>, nodes: seq<Node>, at: seq<nat>) {
    && |at| == |ids|
    && (forall j, k :: 0 <= j < k < |at| ==> at[j] < at[k])
    && (forall k :: 0 <= k < |at| ==> at[k] < |nodes| && nodes[at[k]].node_id == ids[k])
    && (forall i :: 0 <= i < |nodes| ==> (i in at <==> nodes[i].node_type in {Commitment, Verification}))
  }

  /** `p` is the latest commitment or verification among `earlier`, or `before` if there is
      none. */
  ghost predicate IsLatest(p: Id, earlier: seq<Node>, before: Id) {
    || (p == before && forall k :: 0 <= k < |earlier| ==> earlier[k].node_type == Exploration)
    || (exists k :: 0 <= k < |earlier| && p == earlier[k].node_id && earlier[k].node_type in {Commitment, Verification}
                    && forall l :: k < l < |earlier| ==> earlier[l].node_type == Exploration)
  }

  ghost predicate HangsBelow(n: Node, earlier: seq<Node>, before: Id) {
    exists p: Id :: n.causal_parents == [p] && IsLatest(p, earlier, before)
  }

  ghost predicate IsPatchOf(n: Node, nodes: seq<Node>) {
    n.node_type == PatchProposal && exists at :: Joins(n.causal_parents, nodes, at)
  }

  /** The nodes of one turn, when the node below which it starts is `before`: one for each
      call, of its class, below the latest commitment or verification; and, if and only if
      there is any, one patch proposal below exactly these. */
  ghost predicate IsTurn(calls: seq<ToolClass>, turn: seq<Node>, before: Id) {
    && |calls| <= |turn| <= |calls| + 1
    && (forall i :: 0 <= i < |calls| ==> turn[i].node_type == calls[i])
    && (forall i :: 0 <= i < |calls| ==> HangsBelow(turn[i], turn[..i], before))
    && (|turn| > |calls| <==> exists i :: 0 <= i < |calls| && (calls[i] == Commitment || calls[i] == Verification))
    && (|turn| > |calls| ==> IsPatchOf(turn[|calls|], turn[..|calls|]))
  }

  /** A log told turn by turn: turn `t` wrote the nodes from `starts[t]` to `starts[t + 1]`,
      beginning below `tips[t]`. */
  datatype Tale = Tale(starts: seq<nat>, tips: seq<Id>)
  {
    function Turns(): int {
      |starts| - 1
    }

    function Add(start: nat, tip: Id): Tale {
      Tale(starts + [start], tips + [tip])
    }
  }

  /** The turns of an input: they begin below the goal, or the latest patch proposal. */
  ghost predicate IsInputLog(goal: Id, replies: seq<ModelReply>, log: seq<Node>, tale: Tale) {
    var starts, tips := tale.starts, tale.tips;
    && |tips| == |starts| && 0 < |starts| <= |replies| + 1
    && starts[0] == 0 && starts[|starts| - 1] == |log| && tips[0] == goal
    && (forall t :: 0 <= t < |starts| - 1 ==> TurnAt(replies[t], log, starts[t], starts[t + 1], tips[t], tips[t + 1]))
  }

  ghost predicate TurnAt(reply: ModelReply, log: seq<Node>, from: nat, to: nat, before: Id, after: Id) {
    && from <= to <= |log| && reply.Reply? && reply.calls != []
    && IsTurn(reply.calls, log[from..to], before)
    && after == if to - from > |reply.calls| then log[to - 1].node_id else before
  }

  /** After `turns` turns: the limit, or a reply without tool calls, or an exception. */
  ghost predicate IsEnd(replies: seq<ModelReply>, limit: nat, turns: int, outcome: Outcome) {
    0 <= turns <= limit <= |replies| &&
    match outcome
    case ExceededMaxIterations => turns == limit
    case ModelFailed => turns < limit && replies[turns].Throws?
    case Returned => turns < limit && replies[turns].Reply? && replies[turns].calls == []
  }

  lemma {:induction false} PendingJoins(log: seq<Node>, part: seq<Node>) returns (at: seq<nat>)
    requires PendingWork(log) == []
    requires forall i :: 0 <= i < |part| ==> part[i].node_type in {Exploration, Commitment, Verification}
    ensures Joins(PendingWork(log + part), part, at)
    decreases |part|
  {
    if part == [] {
      at := [];
      assert log + part == log;
    } else {
      var n := |part| - 1;
      at := PendingJoins(log, part[..n]);
      assert (log + part)[..|log + part| - 1] == log + part[..n];
      if part[n].node_type in {Commitment, Verification} {
        JoinsOneMore(PendingWork(log + part[..n]), part, at);
        at := at + [n];
      } else {
        JoinsNoMore(PendingWork(log + part[..n]), part, at);
      }
    }
  }

  lemma JoinsOneMore(ids: seq<Id>, part: seq<Node>, at: seq<nat>)
    requires part != [] && Joins(ids, part[..|part| - 1], at)
    requires part[|part| - 1].node_type in {Commitment, Verification}
    ensures Joins(ids + [part[|part| - 1].node_id], part, at + [|part| - 1])
  {
    var n := |part| - 1;
    assert forall i :: i in at + [n] <==> i in at || i == n;
    assert forall k :: 0 <= k < |at| ==> at[k] in at;
  }

  lemma JoinsNoMore(ids: seq<Id>, part: seq<Node>, at: seq<nat>)
    requires part != [] && Joins(ids, part[..|part| - 1], at)
    requires part[|part| - 1].node_type !in {Commitment, Verification}
    ensures Joins(ids, part, at)
  {
    var n := |part| - 1;
    assert forall k :: 0 <= k < |at| ==> at[k] != n;
  }

  lemma {:induction false} LastIsLatest(goal: Id, log: seq<Node>, part: seq<Node>)
    requires forall i :: 0 <= i < |part| ==> part[i].node_type in {Exploration, Commitment, Verification}
    ensures IsLatest(LastOnChain(goal, log + part), part, LastOnChain(goal, log))
    decreases |part|
  {
    if part == [] {
      assert log + part == log;
    } else {
      var n := |part| - 1;
      assert (log + part)[..|log + part| - 1] == log + part[..n];
      if part[n].node_type == Exploration {
        LastIsLatest(goal, log, part[..n]);
        LatestBefore(LastOnChain(goal, log + part[..n]), part, LastOnChain(goal, log));
      } else {
        assert LastOnChain(goal, log + part) == part[n].node_id;
      }
    }
  }

  lemma LatestBefore(p: Id, part: seq<Node>, before: Id)
    requires part != [] && part[|part| - 1].node_type == Exploration
    requires IsLatest(p, part[..|part| - 1], before)
    ensures IsLatest(p, part, before)
  {
    var front := part[..|part| - 1];
    if !(p == before && forall k :: 0 <= k < |front| ==> front[k].node_type == Exploration) {
      var k :| 0 <= k < |front| && p == front[k].node_id && front[k].node_type in {Commitment, Verification}
               && forall l :: k < l < |front| ==> front[l].node_type == Exploration;
      assert part[k] == front[k];
      assert forall l :: k < l < |front| ==> part[l] == front[l];
    }
  }

  /** The nodes `turn` were created after `log`, with the types of a turn and the parents
      expected of them. */
  ghost predicate Continues(goal: Id, log: seq<Node>, turn: seq<Node>, calls: seq<ToolClass>) {
    && |turn| == |TurnTypes(calls)|
    && (forall i :: 0 <= i < |turn| ==> turn[i].node_type == TurnTypes(calls)[i])
    && (forall i :: 0 <= i < |turn| ==>
          turn[i].causal_parents == ExpectedParents(goal, log + turn[..i], turn[i].node_type))
  }

  lemma GrownContinues(s0: Progress, s: Progress, calls: seq<ToolClass>)
    requires Later(s0, s) && s.Planned() && Types(s.log) == Types(s0.log) + TurnTypes(calls)
    ensures Continues(s0.goal, s0.log, s.log[|s0.log|..], calls)
  {
    var n, turn := |s0.log|, s.log[|s0.log|..];
    assert |Types(s.log)| == n + |TurnTypes(calls)|;
    forall i | 0 <= i < |turn|
      ensures turn[i].node_type == TurnTypes(calls)[i]
      ensures turn[i].causal_parents == ExpectedParents(s0.goal, s0.log + turn[..i], turn[i].node_type)
    {
      assert Types(s.log)[n + i] == TurnTypes(calls)[i];
      assert s.log[..n + i] == s0.log + turn[..i];
    }
  }

  lemma CallHangsBelow(goal: Id, log: seq<Node>, turn: seq<Node>, calls: seq<ToolClass>, i: nat)
    requires Continues(goal, log, turn, calls) && i < |calls|
    ensures turn[i].node_type == calls[i] && HangsBelow(turn[i], turn[..i], LastOnChain(goal, log))
  {
    LastIsLatest(goal, log, turn[..i]);
  }

  lemma PatchIsLast(goal: Id, log: seq<Node>, turn: seq<Node>, calls: seq<ToolClass>)
    requires Continues(goal, log, turn, calls) && PendingWork(log) == [] && |turn| > |calls|
    ensures IsPatchOf(turn[|calls|], turn[..|calls|])
  {
    var at := PendingJoins(log, turn[..|calls|]);
  }

  /** What `s` has beyond `s0` is a turn, when its types are those of one. */
  lemma GrownByTurn(s0: Progress, s: Progress, calls: seq<ToolClass>, before: Id)
    requires Later(s0, s) && s.Planned() && PendingWork(s0.log) == []
    requires Types(s.log) == Types(s0.log) + TurnTypes(calls) && before == LastOnChain(s0.goal, s0.log)
    ensures IsTurn(calls, s.log[|s0.log|..], before)
    ensures |s.log| - |s0.log| == |TurnTypes(calls)|
  {
    var turn := s.log[|s0.log|..];
    GrownContinues(s0, s, calls);
    forall i | 0 <= i < |calls|
      ensures turn[i].node_type == calls[i] && HangsBelow(turn[i], turn[..i], before)
    {
      CallHangsBelow(s0.goal, s0.log, turn, calls, i);
    }
    if |turn| > |calls| {
      PatchIsLast(s0.goal, s0.log, turn, calls);
    }
    assert HasWork(calls) <==> exists i :: 0 <= i < |calls| && (calls[i] == Commitment || calls[i] == Verification);
  }

  lemma TipAfterTurn(s0: Progress, s: Progress, calls: seq<ToolClass>)
    requires Later(s0, s) && s.Chained() && s0.Chained() && Types(s.log) == Types(s0.log) + TurnTypes(calls)
    ensures s.Tip() == if |s.log| - |s0.log| > |calls| then s.log[|s.log| - 1].node_id else s0.Tip()
  {
    assert |Types(s.log)| == |s0.log| + |TurnTypes(calls)|;
    if HasWork(calls) {
      assert Types(s.log)[|s.log| - 1] == PatchProposal;
    } else {
      forall i | |s0.log| <= i < |s.log|
        ensures s.log[i].node_type == Exploration
      {
        assert Types(s.log)[i] == calls[i - |s0.log|];
        assert !OnChain(calls[i - |s0.log|]);
      }
      NothingOnChain(s.goal, s0.log, s.log);
    }
  }

  lemma {:induction false} NothingOnChain(goal: Id, log: seq<Node>, more: seq<Node>)
    requires log <= more && forall i :: |log| <= i < |more| ==> more[i].node_type == Exploration
    ensures LastOnChain(goal, more) == LastOnChain(goal, log)
    decreases |more|
  {
    if |more| > |log| {
      NothingOnChain(goal, log, more[..|more| - 1]);
    } else {
      assert more == log;
    }
  }

  /** The log of the first `turns` turns. */
  ghost predicate Told(s: Progress, replies: seq<ModelReply>, tale: Tale, turns: nat) {
    && tale.Turns() == turns && |s.chain| > 0
    && IsInputLog(s.goal, replies, s.log, tale) && tale.tips[turns] == s.Tip()
  }

  lemma NextTurn(s0: Progress, s: Progress, replies: seq<ModelReply>, tale: Tale, turns: nat)
    requires Told(s0, replies, tale, turns) && turns < |replies| && Later(s0, s) && |s.chain| > 0
    requires TurnAt(replies[turns], s.log, |s0.log|, |s.log|, s0.Tip(), s.Tip())
    ensures Told(s, replies, tale.Add(|s.log|, s.Tip()), turns + 1)
  {
    var starts', tips' := tale.starts + [|s.log|], tale.tips + [s.Tip()];
    forall t | 0 <= t < turns + 1
      ensures TurnAt(replies[t], s.log, starts'[t], starts'[t + 1], tips'[t], tips'[t + 1])
    {
      if t < turns {
        var from, to := tale.starts[t], tale.starts[t + 1];
        assert TurnAt(replies[t], s0.log, from, to, tale.tips[t], tale.tips[t + 1]);
        assert s0.log[from..to] == s.log[from..to];
      }
    }
  }

  /** Between two turns: what the replies still call for, and what has been told of them. */
  ghost predicate BetweenTurns(s0: Progress, s: Progress, replies: seq<ModelReply>, limit: nat, i: nat, tale: Tale) {
    && Later(s0, s) && PendingWork(s.log) == []
    && LoopSoFar(replies, limit, i, Types(s.log)) && Told(s, replies, tale, i)
  }

  lemma NoTurnYet(s: Progress, replies: seq<ModelReply>, limit: nat)
    requires s.log == [] && s.chain == [s.goal] && limit <= |replies|
    ensures BetweenTurns(s, s, replies, limit, 0, Tale([0], [s.goal]))
  {
    assert replies[0..] == replies;
  }

  lemma OneMoreTurn(s0: Progress, before: Progress, s: Progress, replies: seq<ModelReply>, limit: nat, i: nat,
                    tale: Tale)
    requires BetweenTurns(s0, before, replies, limit, i, tale) && i < limit && |s.chain| > 0
    requires Later(before, s) && PendingWork(s.log) == []
    requires TurnAt(replies[i], s.log, |before.log|, |s.log|, before.Tip(), s.Tip())
    requires Types(s.log) == Types(before.log) + TurnTypes(replies[i].calls)
    ensures BetweenTurns(s0, s, replies, limit, i + 1, tale.Add(|s.log|, s.Tip()))
  {
    LoopStep(replies, limit, i, Types(before.log));
    LaterTrans(s0, before, s);
    NextTurn(before, s, replies, tale, i);
  }

  /** How the loop ends when no further turn is taken. */
  lemma LastTurn(s0: Progress, s: Progress, replies: seq<ModelReply>, limit: nat, i: nat,
                 tale: Tale, outcome: Outcome)
    requires BetweenTurns(s0, s, replies, limit, i, tale) && IsEnd(replies, limit, i, outcome)
    ensures outcome == LoopOutcome(replies, limit) && Types(s.log) == LoopTypes(replies, limit)
    ensures IsInputLog(s.goal, replies, s.log, tale) && IsEnd(replies, limit, tale.Turns(), outcome)
  {
    assert Types(s.log) + [] == Types(s.log);
  }

  lemma TurnIsAt(reply: ModelReply, s0: Progress, s: Progress, before: Id, after: Id)
    requires Later(s0, s) && reply.Reply? && reply.calls != []
    requires IsTurn(reply.calls, s.log[|s0.log|..], before)
    requires after == if |s.log| - |s0.log| > |reply.calls| then s.log[|s.log| - 1].node_id else before
    ensures TurnAt(reply, s.log, |s0.log|, |s.log|, before, after)
  {
    assert s.log[|s0.log|..|s.log|] == s.log[|s0.log|..];
  }

  /** All that is not an exploration lies on the chain. */
  lemma ChainTypes(s: Progress, replies: seq<ModelReply>, limit: nat)
    requires s.Planned() && s.Chained() && s.NodesAdded() && Types(s.log) == LoopTypes(replies, limit)
    ensures s.WorkOnChain()
  {
    LoopTypesAre(replies, limit);
    forall i | 0 <= i < |s.log|
      ensures s.log[i].node_id in s.chain <==> s.log[i].node_type != Exploration
    {
      assert Types(s.log)[i] in LoopTypes(replies, limit);
      assert s.created[i] in s.created;
    }
  }

  lemma {:induction false} LoopTypesAre(replies: seq<ModelReply>, limit: nat)
    ensures forall k :: k in LoopTypes(replies, limit) ==> k in {Exploration, Commitment, Verification, PatchProposal}
  {
    if !(replies == [] || limit == 0 || replies[0].Throws? || replies[0].calls == []) {
      LoopTypesAre(replies[1..], limit - 1);
    }
  }

  class AgentRuntime {
    const session: Id
    const maxIterations: nat
    var provenanceGraph: ProvenanceGraph
    var turnNumber: nat

    constructor (session: Id, maxIterations: nat)
      ensures this.session == session && this.maxIterations == maxIterations
      ensures fresh(provenanceGraph) && provenanceGraph.Valid() && Acyclic(provenanceGraph.Arcs())
    {
      this.session, this.maxIterations := session, maxIterations;
      provenanceGraph := new ProvenanceGraph(session);
      turnNumber := 0;
    }

    ghost predicate Records(s: Progress)
      reads this, provenanceGraph
    {
      provenanceGraph.Valid() && s.Valid() && s.nodes == provenanceGraph.nodes.items && s.arcs == provenanceGraph.Arcs()
    }

    /** Process one input. Whatever graph it starts from (also a cyclic one
        loaded from disk), every `addEdge` succeeds; the created nodes are those
        the replies call for, in order; each has exactly its `causal_parents` as
        graph parents; the Goal reaches exactly them; and the commitments,
        verifications and patch proposals lie on one forward chain. */
    method ProcessInput(input: nat, replies: seq<ModelReply>)
      returns (outcome: Outcome, threw: bool, ghost s: Progress, ghost tale: Tale)
      requires provenanceGraph.Valid()
      requires maxIterations <= |replies|
      modifies this`turnNumber, provenanceGraph
      ensures IsInputLog(s.goal, replies, s.log, tale) && IsEnd(replies, maxIterations, tale.Turns(), outcome)
      ensures s.WorkOnChain()
      ensures outcome == LoopOutcome(replies, maxIterations)
      ensures !threw && turnNumber == old(turnNumber) + 1
      ensures Records(s)
      ensures s.nodes0 == old(provenanceGraph.nodes.items) && s.arcs0 == old(provenanceGraph.Arcs())
      ensures Types(s.log) == LoopTypes(replies, maxIterations)
      ensures s.nodes[s.goal] == Node(s.goal, Goal, session, [], input)
      ensures forall v :: Reaches(s.arcs, s.goal, v) <==> v == s.goal || v in s.created
      ensures Acyclic(s.arcs0) ==> Acyclic(s.arcs)
    {
      ghost var nodes0, arcs0 := provenanceGraph.nodes.items, provenanceGraph.Arcs();
      ArcsBetweenNodes(provenanceGraph.nodes, provenanceGraph.edges);
      forall e | e in arcs0
        ensures e.0 in nodes0 && e.1 in nodes0
      {
        assert e.0 in Nodes(arcs0) && e.1 in Nodes(arcs0);
      }
      turnNumber := turnNumber + 1;
      var goalNode := provenanceGraph.AddNode(Goal, session, [], input);
      s := Progress(nodes0, arcs0, provenanceGraph.nodes.items, provenanceGraph.Arcs(),
                    goalNode.node_id, [], [], [goalNode.node_id]);
      outcome, threw, s, tale := RunLoop(goalNode.node_id, replies, s);
      s.GoalReachesExactly();
      ChainTypes(s, replies, maxIterations);
    }

    method RunLoop(goalNodeId: Id, replies: seq<ModelReply>, ghost s0: Progress)
      returns (outcome: Outcome, threw: bool, ghost s: Progress, ghost tale: Tale)
      requires Records(s0) && s0.log == [] && s0.chain == [goalNodeId]
      requires maxIterations <= |replies|
      modifies provenanceGraph
      ensures IsInputLog(s.goal, replies, s.log, tale) && IsEnd(replies, maxIterations, tale.Turns(), outcome)
      ensures outcome == LoopOutcome(replies, maxIterations)
      ensures !threw
      ensures Records(s) && Later(s0, s)
      ensures Types(s.log) == LoopTypes(replies, maxIterations)
    {
      s, threw := s0, false;
      var lastGoalOrCommitmentId := goalNodeId;
      tale := Tale([0], [goalNodeId]);
      NoTurnYet(s0, replies, maxIterations);
      var iterations := 0;
      while iterations < maxIterations
        invariant !threw
        invariant Records(s) && lastGoalOrCommitmentId == s.Tip()
        invariant BetweenTurns(s0, s, replies, maxIterations, iterations, tale)
        decreases maxIterations - iterations
      {
        var response := replies[iterations];
        if response.Throws? {
          LastTurn(s0, s, replies, maxIterations, iterations, tale, ModelFailed);
          return ModelFailed, threw, s, tale;
        }
        if response.calls == [] {
          LastTurn(s0, s, replies, maxIterations, iterations, tale, Returned);
          return Returned, threw, s, tale;
        }
        var failed;
        lastGoalOrCommitmentId, failed, s, tale :=
          TakeTurn(replies, iterations, lastGoalOrCommitmentId, s0, s, tale);
        threw := threw || failed;
        iterations := iterations + 1;
      }
      LastTurn(s0, s, replies, maxIterations, iterations, tale, ExceededMaxIterations);
      return ExceededMaxIterations, threw, s, tale;
    }

    method TakeTurn(replies: seq<ModelReply>, i: nat, last0: Id, ghost s0: Progress, ghost before: Progress,
                    ghost tale0: Tale)
      returns (last: Id, threw: bool, ghost s: Progress, ghost tale: Tale)
      requires i < maxIterations <= |replies| && replies[i].Reply? && replies[i].calls != []
      requires Records(before) && last0 == before.Tip()
      requires BetweenTurns(s0, before, replies, maxIterations, i, tale0)
      modifies provenanceGraph
      ensures !threw
      ensures Records(s) && last == s.Tip()
      ensures BetweenTurns(s0, s, replies, maxIterations, i + 1, tale)
    {
      last, threw, s := RecordTurn(replies[i], last0, before);
      OneMoreTurn(s0, before, s, replies, maxIterations, i, tale0);
      tale := tale0.Add(|s.log|, s.Tip());
    }

    /** The nodes of one turn: one per tool call, then a patch proposal joining the
        turn's commitments and verifications, if there are any. */
    method RecordTurn(response: ModelReply, last0: Id, ghost s0: Progress)
      returns (last: Id, threw: bool, ghost s: Progress)
      requires response.Reply? && response.calls != []
      requires Records(s0) && last0 == s0.Tip() && PendingWork(s0.log) == []
      modifies provenanceGraph
      ensures !threw
      ensures Records(s) && Later(s0, s) && last == s.Tip()
      ensures Types(s.log) == Types(s0.log) + TurnTypes(response.calls) && PendingWork(s.log) == []
      ensures TurnAt(response, s.log, |s0.log|, |s.log|, last0, last)
    {
      last, threw, s := RecordNodes(response.calls, last0, s0);
      GrownByTurn(s0, s, response.calls, last0);
      TipAfterTurn(s0, s, response.calls);
      TurnIsAt(response, s0, s, last0, last);
    }

    method RecordNodes(calls: seq<ToolClass>, last0: Id, ghost s0: Progress)
      returns (last: Id, threw: bool, ghost s: Progress)
      requires Records(s0) && last0 == s0.Tip() && PendingWork(s0.log) == []
      modifies provenanceGraph
      ensures !threw
      ensures Records(s) && Later(s0, s) && last == s.Tip()
      ensures Types(s.log) == Types(s0.log) + TurnTypes(calls) && PendingWork(s.log) == []
    {
      var turnCommitmentIds;
      last, turnCommitmentIds, threw, s := RecordCalls(calls, last0, s0);
      if |turnCommitmentIds| > 0 {
        var patchNode, failed;
        ghost var before := s;
        patchNode, failed, s := Attach(PatchProposal, turnCommitmentIds, |turnCommitmentIds|, s);
        LaterGrow(s0, before, patchNode);
        TypesGrow(s0.log, before.log, patchNode, calls);
        threw := threw || failed;
        last := patchNode.node_id;
      }
    }

    /** One node per tool call, below the last goal, commitment, verification or
        patch proposal. */
    method RecordCalls(calls: seq<ToolClass>, last0: Id, ghost s0: Progress)
      returns (last: Id, turnCommitmentIds: seq<Id>, threw: bool, ghost s: Progress)
      requires Records(s0) && last0 == s0.Tip() && PendingWork(s0.log) == []
      modifies provenanceGraph
      ensures !threw
      ensures Records(s) && last == s.Tip()
      ensures TurnSoFar(s0, s, calls, turnCommitmentIds)
    {
      last, turnCommitmentIds, threw, s := last0, [], false, s0;
      TurnStart(s0, calls);
      for i := 0 to |calls|
        invariant !threw
        invariant Records(s) && last == s.Tip()
        invariant TurnSoFar(s0, s, calls[..i], turnCommitmentIds)
      {
        var failed;
        last, turnCommitmentIds, failed, s := RecordCall(calls, i, last, turnCommitmentIds, s0, s);
        threw := threw || failed;
      }
    }

    /** The loop body for `calls[i]`. */
    method RecordCall(calls: seq<ToolClass>, i: nat, last0: Id, ids0: seq<Id>, ghost s0: Progress, ghost s1: Progress)
      returns (last: Id, ids: seq<Id>, threw: bool, ghost s: Progress)
      requires i < |calls| && TurnSoFar(s0, s1, calls[..i], ids0)
      requires Records(s1) && last0 == s1.Tip()
      modifies provenanceGraph
      ensures !threw
      ensures Records(s) && last == s.Tip()
      ensures TurnSoFar(s0, s, calls[..i + 1], ids)
    {
      var node;
      node, threw, s := Attach(calls[i], [last0], i, s1);
      TurnStep(s0, s1, node, calls, i, ids0);
      last, ids := last0, ids0;
      if calls[i] in {Commitment, Verification} {
        ids := ids + [node.node_id];
        last := node.node_id;
      }
    }

    /** `addNode` followed by one `addEdge` from each causal parent. */
    method Attach(kind: NodeType, parents: seq<Id>, metadata: nat, ghost s0: Progress)
      returns (node: Node, threw: bool, ghost s: Progress)
      requires Records(s0)
      requires parents == ExpectedParents(s0.goal, s0.log, kind)
      requires s0.Tip() in parents && forall u :: u in parents ==> u in s0.chain
      modifies provenanceGraph
      ensures node == Node(node.node_id, kind, session, parents, metadata)
      ensures node.node_id !in s0.nodes
      ensures s == s0.Grow(node) && Records(s)
      ensures s.Tip() == if OnChain(kind) then node.node_id else s0.Tip()
      ensures !threw
    {
      node := provenanceGraph.AddNode(kind, session, parents, metadata);
      s0.OutsideIsIsolated(node.node_id);
      s0.ChainInGraph();
      threw := LinkParents(parents, node.node_id);
      s0.GrowValid(node);
      s0.GrowChain(node);
      s := s0.Grow(node);
    }

    /** One `addEdge` per causal parent of a node nothing leads out of. */
    method LinkParents(parents: seq<Id>, id: Id) returns (threw: bool)
      requires provenanceGraph.Valid()
      requires id in provenanceGraph.nodes.items && id !in parents
      requires forall u :: u in parents ==> u in provenanceGraph.nodes.items
      requires forall e :: e in provenanceGraph.Arcs() ==> e.0 != id
      modifies provenanceGraph`edges
      ensures provenanceGraph.Valid()
      ensures provenanceGraph.Arcs() == old(provenanceGraph.Arcs()) + IncomingArcs(parents, id)
      ensures !threw
    {
      threw := false;
      ghost var arcs0 := provenanceGraph.Arcs();
      for i := 0 to |parents|
        invariant provenanceGraph.Valid()
        invariant provenanceGraph.Arcs() == arcs0 + IncomingArcs(parents[..i], id)
        invariant !threw
      {
        SinkReachesOnlyItself(provenanceGraph.Arcs(), id, parents[i]);
        var r := provenanceGraph.AddEdge(parents[i], id, Causal);
        threw := threw || r != Added;
        IncomingStep(parents, i, id);
      }
      assert parents[..|parents|] == parents;
    }
  }
}
