/** src/core/event-stream.ts, src/core/session-manager.ts and the bridge of
    src/store/event-store.ts, with subscribers that may re-enter or throw. */
module EventSourcing {
  import opened Deliveries
  import opened EventLogs
  import opened FreshIds
  import opened Sequences

  /** What the subscribers of one append go on to do: operations by those called before the
      store bridge, and whether one of these throws in the end, which keeps the bridge and
      all later ones from being called; the same for those called after the bridge. (An
      operation that fails in a subscriber, and is caught there or not, is just the last of
      its list.) */
  datatype Reaction = Reaction(early: seq<Op>, earlyThrows: bool, late: seq<Op>, lateThrows: bool)

  /** `Append` stands for writers other than the session manager. */
  datatype Op =
    | Create(reaction: Reaction)
    | Transition(id: nat, to: SessionState, reaction: Reaction)
    | Append(input: Event, reaction: Reaction)

  /** Other writers append no lifecycle events. */
  predicate Foreign(op: Op)
    decreases op, 0
  {
    && ForeignAll(op.reaction.early) && ForeignAll(op.reaction.late)
    && (op.Append? ==> !IsLifecycle(op.input))
  }

  predicate ForeignAll(ops: seq<Op>)
    decreases ops, 0
  {
    if ops == [] then true else Foreign(ops[0]) && ForeignAll(ops[1..])
  }

  /** No subscriber called before the bridge performs an operation or throws. */
  predicate BridgeFirst(op: Op)
    decreases op, 0
  {
    op.reaction.early == [] && !op.reaction.earlyThrows && BridgeFirstAll(op.reaction.late)
  }

  predicate BridgeFirstAll(ops: seq<Op>)
    decreases ops, 0
  {
    if ops == [] then true else BridgeFirst(ops[0]) && BridgeFirstAll(ops[1..])
  }

  // ------------------------------------------------- what an operation may lead to

  /** A delivery in which the subscribers behave as the reaction says. */
  ghost predicate Meets(d: Delivery, reaction: Reaction)
    decreases d, 1
  {
    && d.Delivered? && d.cut == reaction.earlyThrows
    && PerformsAll(d.early, reaction.early)
    && if d.cut then d.late == [] else PerformsAll(d.late, reaction.late)
  }

  ghost predicate Performs(d: Delivery, op: Op)
    decreases d, 2
  {
    d.Delivered? ==>
      && Meets(d, op.reaction)
      && match op
         case Create(_) => d.event.event_type == SessionCreated
         case Transition(id, to, _) => d.event.session_id == id && d.event.event_type == SessionChanged(to)
         case Append(input, _) => d.event == input
  }

  ghost predicate PerformsAll(ds: seq<Delivery>, ops: seq<Op>)
    decreases ds, 0
  {
    && |ds| == |ops|
    && (ds != [] ==> Performs(ds[0], ops[0]) && PerformsAll(ds[1..], ops[1..]))
  }

  lemma {:induction false} BridgeFirstInOrder(d: Delivery, op: Op)
    requires Performs(d, op) && BridgeFirst(op)
    ensures InOrder(d)
    decreases d, 0
  {
    if d.Delivered? {
      assert Meets(d, op.reaction);
      assert PerformsAll(d.early, op.reaction.early) && PerformsAll(d.late, op.reaction.late);
      assert RecordedAll(d.early) == [] && Of([], d.event.session_id) == [] && InOrderAll(d.early);
      BridgeFirstInOrderAll(d.late, op.reaction.late);
    }
  }

  lemma {:induction false} BridgeFirstInOrderAll(ds: seq<Delivery>, ops: seq<Op>)
    requires PerformsAll(ds, ops) && BridgeFirstAll(ops)
    ensures InOrderAll(ds)
    decreases ds, 0
  {
    if ds != [] {
      BridgeFirstInOrder(ds[0], ops[0]);
      BridgeFirstInOrderAll(ds[1..], ops[1..]);
    }
  }

  datatype Outcome =
    | Done
    | InvalidEventType
    | SequenceError(expected: int)
    | SessionNotFound
    | InvalidTransition(from: SessionState)
    | SubscriberThrew

  function OutcomeOf(reaction: Reaction): Outcome {
    if reaction.earlyThrows || reaction.lateThrows then SubscriberThrew else Done
  }

  class EventStream {
    var sessions: Logs
    var nextSequence: map<nat, int>

    constructor ()
      ensures sessions == map[] && nextSequence == map[]
    {
      sessions, nextSequence := map[], map[];
    }

    function GetCurrentSequence(s: nat): int
      reads this
    {
      NextOf(nextSequence, s) - 1
    }

    /** Validate, record, and only then notify; so whatever the subscribers do, they
        find the event recorded, and nothing they do can undo it. */
    method Append(event: Event, w: Runtime, reaction: Reaction) returns (r: Outcome, ghost d: Delivery)
      requires w.stream == this && Numbered(sessions, nextSequence)
      requires if Refusal(event).Done? then Replayable(Appended(sessions, event), w.manager.sessions)
               else Replayable(sessions, w.manager.sessions)
      requires ForeignAll(reaction.early) && ForeignAll(reaction.late)
      modifies this, w.manager, w.store
      decreases reaction, 1
      ensures w.Consistent() && w.Took(old(sessions), old(w.store.events), d)
      ensures old(Refusal(event)).Done? ==>
        d.Delivered? && d.event == event && Meets(d, reaction) && r == OutcomeOf(reaction)
      ensures d.Delivered? ==> (r == SubscriberThrew <==> reaction.earlyThrows || reaction.lateThrows)
      ensures !old(Refusal(event)).Done? ==> d.Refused? && r == old(Refusal(event)) && nextSequence == old(nextSequence)
      ensures
        var unknown, next := event.event_type == Other(false), |LogOf(old(sessions), event.session_id)| + 1;
        && (d.Refused? <==> unknown || event.sequence_number != next)
        && (unknown ==> r == InvalidEventType)
        && (!unknown && event.sequence_number != next ==> r == SequenceError(next))
      ensures !old(Refusal(event)).Done? || (reaction.early == [] && reaction.late == []) ==>
        w.manager.sessions == old(w.manager.sessions)
    {
      if !IsValidEventType(event.event_type) {
        return InvalidEventType, Refused;
      }
      var expected := NextOf(nextSequence, event.session_id);
      if event.sequence_number != expected {
        return SequenceError(expected), Refused;
      }
      AppendNumbered(sessions, nextSequence, event);
      sessions := sessions[event.session_id := LogOf(sessions, event.session_id) + [event]];
      nextSequence := nextSequence[event.session_id := expected + 1];
      d := w.NotifySubscribers(event, reaction);
      RecordedNext(old(sessions), d);
      r := OutcomeOf(reaction);
    }

    /** The checks of `append`; `Done` means that the event is accepted. */
    function Refusal(event: Event): Outcome
      reads this
    {
      if !IsValidEventType(event.event_type) then InvalidEventType
      else if event.sequence_number != NextOf(nextSequence, event.session_id) then
        SequenceError(NextOf(nextSequence, event.session_id))
      else Done
    }
  }

  lemma RecordedNext(logs: Logs, d: Delivery)
    requires d.Delivered?
    ensures AppendAll(Appended(logs, d.event), RecordedAll(d.early) + RecordedAll(d.late))
         == AppendAll(logs, Recorded(d))
  {
    AppendOne(logs, d.event);
    AppendAllConcat(logs, [d.event], RecordedAll(d.early) + RecordedAll(d.late));
  }

  lemma BackfillStep(before: Logs, s: nat, events: seq<Event>, i: nat)
    requires s !in before && i < |events| && events[i].session_id == s
    ensures Appended(if i == 0 then before else before[s := events[..i]], events[i]) == before[s := events[..i + 1]]
  {
    assert events[..i + 1] == events[..i] + [events[i]];
  }

  lemma BackfillDone(logs: Logs, before: Logs, s: nat, todo: set<nat>)
    requires s in todo && todo <= logs.Keys && before == logs - todo
    ensures before[s := logs[s]] == logs - (todo - {s})
  {
  }

  class EventStore {
    var events: Logs

    constructor ()
      ensures events == map[]
    {
      events := map[];
    }

    method Store(event: Event)
      modifies this
      ensures events == Appended(old(events), event)
    {
      events := events[event.session_id := LogOf(events, event.session_id) + [event]];
    }
  }

  class SessionManager {
    var sessions: map<nat, SessionState>

    constructor ()
      ensures sessions == map[]
    {
      sessions := map[];
    }

    method CreateSession(w: Runtime, reaction: Reaction) returns (r: Outcome, id: nat, ghost d: Delivery)
      requires w.manager == this && w.Consistent()
      requires ForeignAll(reaction.early) && ForeignAll(reaction.late)
      modifies this, w.stream, w.store
      decreases reaction, 2
      ensures w.Consistent() && w.Took(old(w.stream.sessions), old(w.store.events), d)
      ensures id !in old(sessions) && id !in old(w.stream.sessions)
      ensures d.Delivered? && d.event == Event(id, 1, SessionCreated, Initial) && Meets(d, reaction)
      ensures r == OutcomeOf(reaction)
      ensures reaction.early == [] && reaction.late == [] ==> sessions == old(sessions)[id := Active]
    {
      FreshIdExists(w.stream.sessions.Keys);
      id :| id !in w.stream.sessions.Keys;
      CreateReplayable(w.stream.sessions, sessions, Event(id, 1, SessionCreated, Initial));
      sessions := sessions[id := Active];
      r, d := w.stream.Append(Event(id, 1, SessionCreated, Initial), w, reaction);
    }

    /** pause, resume, complete, fail and cancel. The state is changed before the
        event is appended, and the append cannot be refused. */
    method Transition(id: nat, to: SessionState, w: Runtime, reaction: Reaction) returns (r: Outcome, ghost d: Delivery)
      requires w.manager == this && w.Consistent()
      requires ForeignAll(reaction.early) && ForeignAll(reaction.late)
      modifies this, w.stream, w.store
      decreases reaction, 2
      ensures w.Consistent() && w.Took(old(w.stream.sessions), old(w.store.events), d)
      ensures id !in old(sessions) ==> r == SessionNotFound && d.Refused? && w.Unchanged()
      ensures id in old(sessions) && !MayBecome(old(sessions)[id], to) ==>
        r == InvalidTransition(old(sessions)[id]) && d.Refused? && w.Unchanged()
      ensures id in old(sessions) && MayBecome(old(sessions)[id], to) ==>
        && r == OutcomeOf(reaction)
        && d.Delivered? && d.event == old(ChangeEvent(id, to, w)) && Meets(d, reaction)
        && (reaction.early == [] && reaction.late == [] ==> sessions == old(sessions)[id := to])
    {
      if id !in sessions {
        return SessionNotFound, Refused;
      }
      ValidNextIff(sessions[id], to);
      if to !in ValidNext(sessions[id]) {
        return InvalidTransition(sessions[id]), Refused;
      }
      var previousState := sessions[id];
      ChangeReplayable(w.stream.sessions, sessions, ChangeEvent(id, to, w));
      sessions := sessions[id := to];
      var currentSequence := w.stream.GetCurrentSequence(id);
      var event := Event(id, currentSequence + 1, SessionChanged(to), Change(previousState, to));
      r, d := w.stream.Append(event, w, reaction);
    }

    ghost function ChangeEvent(id: nat, to: SessionState, w: Runtime): Event
      requires id in sessions
      reads this, w.stream
    {
      Event(id, NextOf(w.stream.nextSequence, id), SessionChanged(to), Change(sessions[id], to))
    }
  }

  /** The objects that subscribers can act on. */
  class Runtime {
    const stream: EventStream
    const manager: SessionManager
    const store: EventStore
    var connected: bool

    constructor ()
      ensures Consistent() && !connected && store.events == stream.sessions
      ensures fresh(stream) && fresh(manager) && fresh(store)
    {
      stream := new EventStream();
      manager := new SessionManager();
      store := new EventStore();
      connected := false;
    }

    ghost predicate Consistent()
      reads stream, manager
    {
      Numbered(stream.sessions, stream.nextSequence) && Replayable(stream.sessions, manager.sessions)
    }

    twostate predicate Unchanged()
      reads stream, manager, store
    {
      unchanged(stream) && unchanged(manager) && unchanged(store)
    }

    /** The stream has recorded the delivery's events since, nested ones included, and a
        bridged store has received those it was called for. */
    ghost predicate Took(logs: Logs, stored: Logs, d: Delivery)
      reads this, stream, store
    {
      && stream.sessions == AppendAll(logs, Recorded(d))
      && store.events == if connected then AppendAll(stored, Received(d)) else stored
    }

    /** `connect`: copy what the stream holds, then follow it. */
    method Connect()
      requires Consistent() && !connected && store.events == map[]
      modifies this, store
      ensures connected && store.events == stream.sessions
    {
      var todo := stream.sessions.Keys;
      while todo != {}
        invariant todo <= stream.sessions.Keys
        invariant store.events == stream.sessions - todo
        decreases todo
      {
        var s :| s in todo;
        var events := stream.sessions[s];
        ghost var before := store.events;
        for i := 0 to |events|
          invariant store.events == if i == 0 then before else before[s := events[..i]]
          invariant s !in before
        {
          BackfillStep(before, s, events, i);
          store.Store(events[i]);
        }
        assert events[..|events|] == events;
        BackfillDone(stream.sessions, before, s, todo);
        todo := todo - {s};
      }
      connected := true;
    }

    /** The subscribers are called one after the other, the bridge among them; nothing
        catches what one of them throws. */
    method NotifySubscribers(event: Event, reaction: Reaction) returns (ghost d: Delivery)
      requires Consistent() && ForeignAll(reaction.early) && ForeignAll(reaction.late)
      modifies stream, manager, store
      decreases reaction, 0
      ensures Consistent() && d.Delivered? && d.event == event && Meets(d, reaction)
      ensures stream.sessions == AppendAll(old(stream.sessions), RecordedAll(d.early) + RecordedAll(d.late))
      ensures store.events == if connected then AppendAll(old(store.events), Received(d)) else old(store.events)
      ensures reaction.early == [] && reaction.late == [] ==> manager.sessions == old(manager.sessions)
    {
      ghost var early := ExecAll(reaction.early);
      AppendAllConcat(old(stream.sessions), RecordedAll(early), []);
      AppendAllConcat(old(store.events), ReceivedAll(early), []);
      if reaction.earlyThrows {
        d := Delivered(event, early, true, []);
        return;
      }
      if connected {
        store.Store(event);
      }
      ghost var late := ExecAll(reaction.late);
      d := Delivered(event, early, false, late);
      AppendAllConcat(old(stream.sessions), RecordedAll(early), RecordedAll(late));
      ReceivedNext(old(store.events), d);
    }

    /** Any run of operations, too, keeps the runtime consistent, and a bridged store that
        equals the stream does so at the end if and only if every delivery was in order. */
    method ExecAll(ops: seq<Op>) returns (ghost ds: seq<Delivery>)
      requires Consistent() && ForeignAll(ops)
      modifies stream, manager, store
      decreases ops, 0
      ensures Consistent() && PerformsAll(ds, ops)
      ensures stream.sessions == AppendAll(old(stream.sessions), RecordedAll(ds))
      ensures store.events == if connected then AppendAll(old(store.events), ReceivedAll(ds)) else old(store.events)
      ensures connected && old(store.events == stream.sessions) ==>
        (store.events == stream.sessions <==> InOrderAll(ds))
      ensures ops == [] ==> manager.sessions == old(manager.sessions)
    {
      ds := [];
      if ops != [] {
        var _, d := Exec(ops[0]);
        ghost var more := ExecAll(ops[1..]);
        ds := [d] + more;
        AppendAllConcat(old(stream.sessions), Recorded(d), RecordedAll(more));
        AppendAllConcat(old(store.events), Received(d), ReceivedAll(more));
      }
      NumberedDistinct(old(stream.sessions), RecordedAll(ds));
      StoreFollowsIff(old(stream.sessions), ds);
    }

    /** Any operation, with whatever its subscribers do, keeps the runtime consistent. A
        bridged store that equals the stream still does afterwards if and only if no
        subscriber called before the bridge threw or had something appended to the session
        in delivery. */
    method Exec(op: Op) returns (r: Outcome, ghost d: Delivery)
      requires Consistent() && Foreign(op)
      modifies stream, manager, store
      decreases op, 0
      ensures Consistent() && Extends(old(stream.sessions), stream.sessions)
      ensures Performs(d, op) && (d.Refused? <==> old(Refuses(op)))
      ensures Took(old(stream.sessions), old(store.events), d)
      ensures connected && old(store.events == stream.sessions) ==> (store.events == stream.sessions <==> InOrder(d))
      ensures connected && old(store.events == stream.sessions) && BridgeFirst(op) ==> store.events == stream.sessions
    {
      match op {
        case Create(reaction) =>
          var id;
          r, id, d := manager.CreateSession(this, reaction);
        case Transition(id, to, reaction) =>
          r, d := manager.Transition(id, to, this, reaction);
        case Append(input, reaction) =>
          AppendReplayable(stream.sessions, manager.sessions, input);
          r, d := stream.Append(input, this, reaction);
      }
      AppendAllExtends(old(stream.sessions), Recorded(d));
      NumberedDistinct(old(stream.sessions), Recorded(d));
      OneDelivery(d);
      StoreFollowsIff(old(stream.sessions), [d]);
      if BridgeFirst(op) {
        BridgeFirstInOrder(d, op);
      }
    }

    /** The operations that append nothing. */
    ghost predicate Refuses(op: Op)
      reads stream, manager
    {
      match op
      case Create(_) => false
      case Transition(id, to, _) => id !in manager.sessions || !MayBecome(manager.sessions[id], to)
      case Append(input, _) => !stream.Refusal(input).Done?
    }
  }

  lemma ReceivedNext(stored: Logs, d: Delivery)
    requires d.Delivered? && !d.cut
    ensures AppendAll(Appended(AppendAll(stored, ReceivedAll(d.early)), d.event), ReceivedAll(d.late))
         == AppendAll(stored, Received(d))
  {
    AppendOne(AppendAll(stored, ReceivedAll(d.early)), d.event);
    AppendAllConcat(stored, ReceivedAll(d.early), [d.event] + ReceivedAll(d.late));
    AppendAllConcat(AppendAll(stored, ReceivedAll(d.early)), [d.event], ReceivedAll(d.late));
  }
}
