/** One client of src/projection/websocket-server.ts: subscription, in-order
    delivery, the bounded send queue and the socket. */
module ProjectionClients {
  import opened BoundedQueues
  import opened Optional
  import opened Reordering
  import opened Sequences

  /** A client's delivery state for one session. */
  datatype SessionState = SessionState(nextSequence: int, pendingEvents: seq<Event>)

  /** The socket may close, and may refuse to send, at any time. */
  class Socket {
    constructor () {
    }

    method IsOpen() returns (open: bool) {
      open := *;
    }

    method Send(e: Event) returns (ok: bool) {
      ok := *;
    }
  }

  function OfSession(events: seq<Event>, session: nat): seq<Event> {
    if events == [] then []
    else
      var e := events[|events| - 1];
      OfSession(events[..|events| - 1], session) + if e.session_id == session then [e] else []
  }

  lemma {:induction false} OfSessionConcat(a: seq<Event>, b: seq<Event>, session: nat)
    ensures OfSession(a + b, session) == OfSession(a, session) + OfSession(b, session)
    decreases |b|
  {
    if b == [] {
      assert a + b == a;
    } else {
      var n := |b| - 1;
      assert (a + b)[..|a + b| - 1] == a + b[..n];
      OfSessionConcat(a, b[..n], session);
    }
  }

  lemma {:induction false} OfSessionUniform(events: seq<Event>, session: nat, s: nat)
    requires forall e :: e in events ==> e.session_id == s
    ensures OfSession(events, session) == if session == s then events else []
  {
    if events != [] {
      var n := |events| - 1;
      assert events == events[..n] + [events[n]];
      OfSessionUniform(events[..n], session, s);
    }
  }

  // --------------------------------------------------------------- the pipe

  /** `through`, the events sent so far followed by those queued, stand at the
      increasing positions `kept` of all events ever enqueued. */
  ghost predicate InOrder(through: seq<Event>, kept: seq<nat>, enqueued: seq<Event>) {
    && |kept| == |through|
    && (forall i, j :: 0 <= i < j < |kept| ==> kept[i] < kept[j])
    && (forall i :: 0 <= i < |kept| ==> kept[i] < |enqueued| && through[i] == enqueued[kept[i]])
  }

  /** The events are numbered from 1 on. */
  ghost predicate Consecutive(events: seq<Event>) {
    forall k :: 0 <= k < |events| ==> events[k].sequence_number == k + 1
  }

  /** Two events of one session are sent in the order of their numbers. */
  lemma SentInOrder(through: seq<Event>, kept: seq<nat>, enqueued: seq<Event>, session: nat, i: nat, j: nat)
    requires InOrder(through, kept, enqueued)
    requires Consecutive(OfSession(enqueued, session))
    requires i < j < |through| && through[i].session_id == session && through[j].session_id == session
    ensures through[i].sequence_number < through[j].sequence_number
  {
    EnqueuedInOrder(enqueued, session, kept[i], kept[j]);
  }

  lemma {:induction false} EnqueuedInOrder(enqueued: seq<Event>, session: nat, a: nat, b: nat)
    requires Consecutive(OfSession(enqueued, session))
    requires a < b < |enqueued| && enqueued[a].session_id == session && enqueued[b].session_id == session
    ensures enqueued[a].sequence_number < enqueued[b].sequence_number
    decreases |enqueued|
  {
    var n := |enqueued| - 1;
    var h := enqueued[..n];
    var part := OfSession(h, session);
    assert forall k :: 0 <= k < |part| ==> OfSession(enqueued, session)[k] == part[k];
    if b < n {
      EnqueuedInOrder(h, session, a, b);
    } else {
      NumberedMember(h, session, a);
      assert OfSession(enqueued, session)[|part|] == enqueued[n];
    }
  }

  lemma {:induction false} NumberedMember(events: seq<Event>, session: nat, a: nat)
    requires a < |events| && events[a].session_id == session
    requires Consecutive(OfSession(events, session))
    ensures events[a].sequence_number <= |OfSession(events, session)|
    decreases |events|
  {
    var n := |events| - 1;
    var part := OfSession(events[..n], session);
    assert forall k :: 0 <= k < |part| ==> OfSession(events, session)[k] == part[k];
    if a < n {
      NumberedMember(events[..n], session, a);
    } else {
      assert OfSession(events, session)[|part|] == events[n];
    }
  }

  function Removed<T>(s: seq<T>, i: nat): seq<T>
    requires i < |s|
  {
    s[..i] + s[i + 1..]
  }

  /** Dropping the element at `i` of what is in the pipe. */
  lemma DropKeepsOrder(through: seq<Event>, kept: seq<nat>, enqueued: seq<Event>, i: nat)
    requires InOrder(through, kept, enqueued) && i < |through|
    ensures InOrder(Removed(through, i), Removed(kept, i), enqueued)
  {
  }

  lemma AppendKeepsOrder(through: seq<Event>, kept: seq<nat>, enqueued: seq<Event>, e: Event)
    requires InOrder(through, kept, enqueued)
    ensures InOrder(through + [e], kept + [|enqueued|], enqueued + [e])
    ensures InOrder(through, kept, enqueued + [e])
  {
  }

  lemma PrefixKeepsOrder(through: seq<Event>, kept: seq<nat>, enqueued: seq<Event>, n: nat)
    requires InOrder(through, kept, enqueued) && n <= |through|
    ensures InOrder(through[..n], kept[..n], enqueued)
  {
  }

  /** The history of a client's send queue: everything pushed to it, what left it
      through the socket, what is in it; whether a full queue has dropped an event,
      and whether a closed socket has discarded some. */
  datatype History = History(enqueued: seq<Event>, sent: seq<Event>, queued: seq<Event>, kept: seq<nat>,
                             overflowed: bool, closed: bool)
  {
    /** What was sent and what is queued is an in-order part of what was enqueued,
        and all of it unless the queue overflowed or the socket closed. */
    ghost predicate Faithful() {
      && InOrder(sent + queued, kept, enqueued)
      && (!overflowed && !closed ==> sent + queued == enqueued)
    }
  }

  type PipeHistory = h: History | h.Faithful() witness History([], [], [], [], false, false)

  /** A push into a queue with room (or without any size, when it has just been emptied). */
  ghost function QueueLast(h: PipeHistory, e: Event, full: bool): PipeHistory {
    AppendKeepsOrder(h.sent + h.queued, h.kept, h.enqueued, e);
    Associative(h.sent, h.queued, [e]);
    h.(enqueued := h.enqueued + [e], queued := h.queued + [e], kept := h.kept + [|h.enqueued|],
       overflowed := h.overflowed || full)
  }

  /** A push that drops the event itself. */
  ghost function DropNew(h: PipeHistory, e: Event): PipeHistory {
    AppendKeepsOrder(h.sent + h.queued, h.kept, h.enqueued, e);
    h.(enqueued := h.enqueued + [e], overflowed := true)
  }

  /** A push that drops the oldest queued event. */
  ghost function DropOld(h: PipeHistory, e: Event): PipeHistory
    requires h.queued != []
  {
    AppendKeepsOrder(h.sent + h.queued, h.kept, h.enqueued, e);
    Associative(h.sent, h.queued, [e]);
    DropFromOrder(h.sent, h.queued, e, h.kept + [|h.enqueued|], h.enqueued + [e]);
    h.(enqueued := h.enqueued + [e], queued := h.queued[1..] + [e],
       kept := Removed(h.kept + [|h.enqueued|], |h.sent|), overflowed := true)
  }

  lemma DropFromOrder(sent: seq<Event>, queued: seq<Event>, e: Event, kept: seq<nat>, enqueued: seq<Event>)
    requires queued != [] && InOrder(sent + (queued + [e]), kept, enqueued)
    ensures |sent| < |kept| && InOrder(sent + (queued[1..] + [e]), Removed(kept, |sent|), enqueued)
  {
    var all := sent + (queued + [e]);
    DropKeepsOrder(all, kept, enqueued, |sent|);
    assert Removed(all, |sent|) == sent + (queued[1..] + [e]);
  }

  lemma SentFirst(h: PipeHistory)
    requires h.queued != []
    ensures h.(sent := h.sent + [h.queued[0]], queued := h.queued[1..]).Faithful()
    ensures (h.sent + [h.queued[0]]) + h.queued[1..] == h.sent + h.queued
  {
    MoveFirst(h.sent, h.queued);
  }

  lemma MoveFirst<T>(a: seq<T>, b: seq<T>)
    requires b != []
    ensures (a + [b[0]]) + b[1..] == a + b
  {
  }

  lemma Discarded(h: PipeHistory)
    ensures h.(queued := [], kept := h.kept[..|h.sent|], closed := true).Faithful()
  {
    PrefixKeepsOrder(h.sent + h.queued, h.kept, h.enqueued, |h.sent|);
    assert (h.sent + h.queued)[..|h.sent|] == h.sent + [];
  }

  /** A client's send queue and socket. */
  class SendPipe {
    const socket: Socket
    const sendQueue: BoundedQueue<Event>
    ghost var history: PipeHistory

    ghost predicate Valid()
      reads this, sendQueue
    {
      history.queued == sendQueue.items
    }

    constructor (maxSize: int, policy: OverflowPolicy)
      ensures Valid() && history == History([], [], [], [], false, false)
      ensures fresh(sendQueue) && sendQueue.maxSize == maxSize && sendQueue.policy == policy
    {
      socket := new Socket();
      sendQueue := new BoundedQueue(maxSize, policy);
      history := History([], [], [], [], false, false);
    }

    ghost function FreeRoom(): nat
      reads this, sendQueue
    {
      Room(|sendQueue.items|, sendQueue.maxSize)
    }

    method EnqueueEvent(event: Event) returns (threw: bool)
      requires Valid()
      modifies this, sendQueue
      ensures Valid()
      ensures threw <==> |old(sendQueue.items)| >= sendQueue.maxSize && sendQueue.policy == Reject
      ensures sendQueue.policy == Reject ==> FreeRoom() == if threw then 0 else old(FreeRoom()) - 1
      ensures sendQueue.items == Pushed(old(sendQueue.items), event, sendQueue.maxSize, sendQueue.policy)
      ensures history.sent == old(history.sent) && history.closed == old(history.closed)
      ensures history.enqueued == if threw then old(history.enqueued) else old(history.enqueued) + [event]
      ensures history.overflowed == (old(history.overflowed) || (!threw && |old(sendQueue.items)| >= sendQueue.maxSize))
    {
      threw := sendQueue.Push(event);
      if threw {
        return;
      }
      if |history.queued| < sendQueue.maxSize || (sendQueue.policy == DropOldest && history.queued == []) {
        Empty([event]);
        history := QueueLast(history, event, |history.queued| >= sendQueue.maxSize);
      } else if sendQueue.policy == DropOldest {
        history := DropOld(history, event);
      } else {
        history := DropNew(history, event);
      }
    }

    /** Send from the front until the queue is empty, the socket refuses, or the
        socket is found closed, which discards the rest. */
    method FlushClient() returns (foundClosed: bool)
      requires Valid()
      modifies this, sendQueue
      ensures Valid()
      ensures history.enqueued == old(history.enqueued) && history.overflowed == old(history.overflowed)
      ensures old(history.sent) <= history.sent <= old(history.sent) + old(history.queued)
      ensures !foundClosed ==> history.sent + history.queued == old(history.sent) + old(history.queued)
      ensures foundClosed ==> sendQueue.items == []
      ensures history.closed == (old(history.closed) || foundClosed)
    {
      foundClosed := false;
      while |sendQueue.items| > 0
        invariant Valid()
        invariant history.enqueued == old(history.enqueued) && history.overflowed == old(history.overflowed)
        invariant old(history.sent) <= history.sent
        invariant history.sent + history.queued == old(history.sent) + old(history.queued)
        invariant history.closed == old(history.closed)
        decreases |sendQueue.items|
      {
        var open := socket.IsOpen();
        if !open {
          Discarded(history);
          history := history.(queued := [], kept := history.kept[..|history.sent|], closed := true);
          sendQueue.Clear();
          return true;
        }
        var msg := sendQueue.items[0];
        var ok := socket.Send(msg);
        if !ok {
          return false;
        }
        SentFirst(history);
        sendQueue.Shift();
        history := history.(sent := history.sent + [msg], queued := history.queued[1..]);
      }
    }
  }

  // ------------------------------------------------------------- the client

  function StateOf(d: Delivery): SessionState {
    SessionState(d.next, d.pending)
  }

  /** How many events a queue takes before it is full. */
  function Room(queued: nat, maxSize: int): nat {
    if queued < maxSize then maxSize - queued else 0
  }

  predicate Overflows(d: Delivery, e: Event, policy: OverflowPolicy, room: nat) {
    policy == Reject && Ready(d.next, Inserted(d.pending, e)) > room
  }

  /** One arrival at a client. A queue that rejects takes what it has room for; the event
      in hand is gone then, and its number still expected. */
  function Taken(d: Delivery, e: Event, policy: OverflowPolicy, room: nat): Delivery {
    if Overflows(d, e, policy, room) then
      var q := Inserted(d.pending, e);
      Delivery(d.next + room, q[room + 1..], d.log + q[..room])
    else Arrive(d, e)
  }

  // ----------------------------------------------------- what a client keeps

  /** Sorted, released in order from 1 on, and of one session. */
  ghost predicate Coherent(d: Delivery, session: nat) {
    && Sorted(d.pending) && Numbered(d)
    && (forall e :: e in d.pending ==> e.session_id == session)
    && (forall e :: e in d.log ==> e.session_id == session)
  }

  /** What a session has been through since its state was made: its delivery, and the
      events it has seen, unless a rejected push has lost one. */
  datatype Journey = Journey(delivery: Delivery, seen: Option<seq<Event>>)

  ghost predicate IsJourney(j: Journey, session: nat) {
    Coherent(j.delivery, session) && (j.seen.Some? ==> j.delivery == Run(START, j.seen.value))
  }

  const SETTING_OUT := Journey(START, Some([]))

  /** A session without a state starts anew. */
  function JourneyOf(m: map<nat, Journey>, session: nat): Journey {
    if session in m then m[session] else SETTING_OUT
  }

  /** One arrival on a journey. */
  function Visit(j: Journey, e: Event, policy: OverflowPolicy, room: nat): Journey {
    Journey(Taken(j.delivery, e, policy, room),
            if j.seen.None? || Overflows(j.delivery, e, policy, room) then None else Some(j.seen.value + [e]))
  }

  lemma VisitIsJourney(j: Journey, e: Event, policy: OverflowPolicy, room: nat)
    requires IsJourney(j, e.session_id)
    ensures IsJourney(Visit(j, e, policy, room), e.session_id)
  {
    TakenCoherent(j.delivery, e, policy, room);
    if j.seen.Some? && !Overflows(j.delivery, e, policy, room) {
      RunStep(j.seen.value, e);
    }
  }

  /** A client's sessions: their states, their journeys, those whose state was deleted
      once, and all events ever enqueued for the client. */
  datatype Ledger = Ledger(states: map<nat, SessionState>, journeys: map<nat, Journey>, forgotten: set<nat>,
                           enqueued: seq<Event>)
  {
    /** A session's state is that of its journey; and unless it was deleted once, what was
        ever enqueued of the session is what it has released. */
    ghost predicate Tracks(s: nat) {
      && (s in states <==> s in journeys)
      && (s in states ==> s in journeys && states[s] == StateOf(journeys[s].delivery))
      && IsJourney(JourneyOf(journeys, s), s)
      && (s !in forgotten ==> OfSession(enqueued, s) == JourneyOf(journeys, s).delivery.log)
    }

    ghost predicate Sound() {
      forall s :: Tracks(s)
    }

    function Delivery(s: nat): Delivery {
      JourneyOf(journeys, s).delivery
    }

    function Take(e: Event, policy: OverflowPolicy, room: nat): Ledger {
      var s, before := e.session_id, Delivery(e.session_id);
      var j := Visit(JourneyOf(journeys, s), e, policy, room);
      Ledger(states[s := StateOf(j.delivery)], journeys[s := j], forgotten,
             enqueued + Inserted(before.pending, e)[..Releases(before, e, policy, room)])
    }

    function Forget(s: nat): Ledger {
      Ledger(states - {s}, journeys - {s}, forgotten + {s}, enqueued)
    }

    function Start(s: nat): Ledger {
      Ledger(states[s := SessionState(1, [])], journeys[s := SETTING_OUT], forgotten, enqueued)
    }

    lemma ForgetSound(s: nat)
      requires Sound()
      ensures Forget(s).Sound()
    {
      forall t
        ensures Forget(s).Tracks(t)
      {
        assert Tracks(t);
      }
    }

    lemma StartSound(s: nat)
      requires Sound() && s !in states
      ensures Start(s).Sound()
    {
      forall t
        ensures Start(s).Tracks(t)
      {
        assert Tracks(t);
      }
    }

    /** What one session enqueues is no other session's. */
    lemma TakeSound(e: Event, policy: OverflowPolicy, room: nat)
      requires Sound()
      ensures Take(e, policy, room).Sound()
    {
      forall t
        ensures Take(e, policy, room).Tracks(t)
      {
        assert Tracks(e.session_id) && Tracks(t);
        TakeTracks(e, policy, room, t);
      }
    }

    lemma TakeTracks(e: Event, policy: OverflowPolicy, room: nat, t: nat)
      requires Tracks(e.session_id) && Tracks(t)
      ensures Take(e, policy, room).Tracks(t)
    {
      var j, later := JourneyOf(journeys, e.session_id), Take(e, policy, room);
      EnqueuedOf(j.delivery, e, policy, room, enqueued, t);
      if t == e.session_id {
        VisitIsJourney(j, e, policy, room);
        assert JourneyOf(later.journeys, t) == Visit(j, e, policy, room);
      } else {
        assert JourneyOf(later.journeys, t) == JourneyOf(journeys, t);
      }
    }
  }

  /** How many events an arrival releases. */
  function Releases(d: Delivery, e: Event, policy: OverflowPolicy, room: nat): (n: nat)
    ensures n <= |Inserted(d.pending, e)|
  {
    if Overflows(d, e, policy, room) then room else Ready(d.next, Inserted(d.pending, e))
  }

  lemma EnqueuedOf(d: Delivery, e: Event, policy: OverflowPolicy, room: nat, enqueued: seq<Event>, t: nat)
    requires Coherent(d, e.session_id)
    ensures var grown := Inserted(d.pending, e)[..Releases(d, e, policy, room)];
      && OfSession(enqueued + grown, t)
         == (if t == e.session_id then OfSession(enqueued, t) + grown else OfSession(enqueued, t))
      && Taken(d, e, policy, room).log == d.log + grown
  {
    var q := Inserted(d.pending, e);
    var grown := q[..Releases(d, e, policy, room)];
    InsertedElements(d.pending, e);
    assert forall x :: x in grown ==> x in q;
    OfSessionConcat(enqueued, grown, t);
    OfSessionUniform(grown, t, e.session_id);
    Empty(OfSession(enqueued, t));
  }

  lemma TakenCoherent(d: Delivery, e: Event, policy: OverflowPolicy, room: nat)
    requires Coherent(d, e.session_id)
    ensures Coherent(Taken(d, e, policy, room), e.session_id)
  {
    var q := Inserted(d.pending, e);
    InsertedSorted(d.pending, e);
    InsertedElements(d.pending, e);
    if Overflows(d, e, policy, room) {
      assert forall i :: 0 <= i < room ==> q[i].sequence_number == d.next + i;
    } else {
      ReleaseSettles(d.next, q, d.log);
      ReleaseNumbered(d.next, q, d.log);
    }
  }

  /** Inserting one event and releasing what is ready is one more arrival. */
  lemma RunStep(seen: seq<Event>, e: Event)
    ensures Run(START, seen + [e]) == Arrive(Run(START, seen), e)
    ensures seen == [] ==> seen + [e] == [e]
  {
    TakeAppend(seen, e);
  }

  // ------------------------------------------------------- what a subscription lets through

  /** A client's filters; `None` lets everything through. */
  datatype Filters = Filters(session: Option<nat>, types: Option<seq<nat>>)
  {
    predicate OfType(e: Event) {
      types.Some? ==> e.event_type in types.value
    }

    predicate Admit(e: Event) {
      (session.Some? ==> e.session_id == session.value) && OfType(e)
    }
  }

  /** What has happened since the latest subscription: the sessions that had a state then, how
      much had been enqueued and what was buffered then, and the events delivered since while
      the client was active. */
  datatype Watch = Watch(known: set<nat>, since: nat, held: set<Event>, offered: seq<Event>)
  {
    function Offer(e: Event): Watch {
      this.(offered := offered + [e])
    }
  }

  function OfTypes(types: Option<seq<nat>>, events: seq<Event>): seq<Event> {
    if types.Some? then Filtered(types.value, events) else events
  }

  /** Of the events offered, those of the session that the filters admit. */
  function Admitted(f: Filters, offered: seq<Event>, s: nat): seq<Event> {
    if f.session.Some? && f.session.value != s then [] else OfTypes(f.types, OfSession(offered, s))
  }

  ghost predicate Fits(f: Filters, w: Watch, e: Event) {
    (f.session.Some? ==> e.session_id == f.session.value) && (f.OfType(e) || e in w.held)
  }

  /** Since the subscription only events of the subscribed session were enqueued, and only of
      a listed type or such as were buffered before; so is what is buffered now. */
  ghost predicate Kept(l: Ledger, f: Filters, w: Watch) {
    && w.since <= |l.enqueued|
    && (forall i :: w.since <= i < |l.enqueued| ==> Fits(f, w, l.enqueued[i]))
    && (forall s, e :: s in l.journeys && e in l.journeys[s].delivery.pending ==> f.OfType(e) || e in w.held)
  }

  /** A session that was new at the subscription has seen what was offered since, as far as
      the filters admit it. */
  ghost predicate SawAll(l: Ledger, f: Filters, w: Watch, s: nat) {
    var seen := JourneyOf(l.journeys, s).seen;
    s !in w.known && seen.Some? ==> seen.value == Admitted(f, w.offered, s)
  }

  ghost predicate Watched(l: Ledger, f: Filters, w: Watch) {
    Kept(l, f, w) && forall s :: SawAll(l, f, w, s)
  }

  ghost function Buffered(l: Ledger): set<Event> {
    set s, e | s in l.journeys && e in l.journeys[s].delivery.pending :: e
  }

  ghost function WatchFrom(l: Ledger): Watch {
    Watch(l.states.Keys, |l.enqueued|, Buffered(l), [])
  }

  lemma SubscribedWatched(l: Ledger, f: Filters)
    requires l.Sound()
    ensures Watched(Started(l, f.session), f, WatchFrom(l))
  {
    forall s
      ensures SawAll(Started(l, f.session), f, WatchFrom(l), s)
    {
      assert l.Tracks(s);
    }
  }

  lemma OfferedStep(f: Filters, offered: seq<Event>, e: Event, s: nat)
    ensures Admitted(f, offered + [e], s)
         == if f.Admit(e) && e.session_id == s then Admitted(f, offered, s) + [e] else Admitted(f, offered, s)
  {
    TakeAppend(offered, e);
    Empty(OfSession(offered, s));
    TakeAppend(OfSession(offered, s), e);
    if f.types.Some? {
      Empty(Filtered(f.types.value, OfSession(offered, s)));
    }
  }

  lemma SkipWatched(l: Ledger, f: Filters, w: Watch, e: Event)
    requires Watched(l, f, w) && !f.Admit(e)
    ensures Watched(l, f, w.Offer(e))
  {
    forall s
      ensures SawAll(l, f, w.Offer(e), s)
    {
      assert SawAll(l, f, w, s);
      OfferedStep(f, w.offered, e, s);
    }
  }

  /** What an arrival enqueues and what it leaves buffered come from the buffer, or are the
      event itself. */
  lemma TakenFrom(d: Delivery, e: Event, policy: OverflowPolicy, room: nat)
    ensures forall x :: x in Inserted(d.pending, e)[..Releases(d, e, policy, room)] ==> x in d.pending || x == e
    ensures forall x :: x in Taken(d, e, policy, room).pending ==> x in d.pending || x == e
  {
    InsertedElements(d.pending, e);
    var q := Inserted(d.pending, e);
    forall x | x in q[..Releases(d, e, policy, room)]
      ensures x in q
    {
    }
    forall x | x in Taken(d, e, policy, room).pending
      ensures x in q
    {
    }
  }

  lemma TakeKept(l: Ledger, f: Filters, w: Watch, e: Event, policy: OverflowPolicy, room: nat)
    requires l.Tracks(e.session_id) && Kept(l, f, w) && f.Admit(e)
    ensures Kept(l.Take(e, policy, room), f, w)
  {
    var d, l' := l.Delivery(e.session_id), l.Take(e, policy, room);
    var grown := Inserted(d.pending, e)[..Releases(d, e, policy, room)];
    TakenFrom(d, e, policy, room);
    GrownFits(l, f, w, e, grown);
    MoreFits(f, w, l.enqueued, grown);
  }

  lemma GrownFits(l: Ledger, f: Filters, w: Watch, e: Event, grown: seq<Event>)
    requires l.Tracks(e.session_id) && Kept(l, f, w) && f.Admit(e)
    requires forall x :: x in grown ==> x in l.Delivery(e.session_id).pending || x == e
    ensures forall x :: x in grown ==> Fits(f, w, x)
  {
  }

  lemma MoreFits(f: Filters, w: Watch, enqueued: seq<Event>, grown: seq<Event>)
    requires w.since <= |enqueued| && forall i :: w.since <= i < |enqueued| ==> Fits(f, w, enqueued[i])
    requires forall x :: x in grown ==> Fits(f, w, x)
    ensures forall i :: w.since <= i < |enqueued + grown| ==> Fits(f, w, (enqueued + grown)[i])
  {
  }

  lemma TakeSaw(l: Ledger, f: Filters, w: Watch, e: Event, policy: OverflowPolicy, room: nat, s: nat)
    requires SawAll(l, f, w, s) && f.Admit(e)
    ensures SawAll(l.Take(e, policy, room), f, w.Offer(e), s)
  {
    OfferedStep(f, w.offered, e, s);
  }

  lemma TakeWatched(l: Ledger, f: Filters, w: Watch, e: Event, policy: OverflowPolicy, room: nat)
    requires l.Sound() && Watched(l, f, w) && f.Admit(e)
    ensures Watched(l.Take(e, policy, room), f, w.Offer(e))
  {
    assert l.Tracks(e.session_id);
    TakeKept(l, f, w, e, policy, room);
    forall s
      ensures SawAll(l.Take(e, policy, room), f, w.Offer(e), s)
    {
      assert SawAll(l, f, w, s);
      TakeSaw(l, f, w, e, policy, room, s);
    }
  }

  lemma NothingYet()
    ensures Ledger(map[], map[], {}, []).Sound()
    ensures Watched(Ledger(map[], map[], {}, []), Filters(None, None), Watch({}, 0, {}, []))
  {
    assert Run(START, []) == START;
  }

  class Client {
    const pipe: SendPipe
    var active: bool
    var sessionFilter: Option<nat>
    var typeFilter: Option<seq<nat>>
    var sessionState: map<nat, SessionState>
    ghost var journeys: map<nat, Journey>
    /** The sessions whose state was deleted by a switch to another session. */
    ghost var forgotten: set<nat>
    ghost var watch: Watch

    ghost function Sessions(): Ledger
      reads this, pipe
    {
      Ledger(sessionState, journeys, forgotten, pipe.history.enqueued)
    }

    /** All that a delivery can change. */
    ghost function Now(): (Ledger, History, seq<Event>)
      reads this, pipe, pipe.sendQueue
    {
      (Sessions(), pipe.history, pipe.sendQueue.items)
    }

    ghost predicate Valid()
      reads this, pipe, pipe.sendQueue
    {
      pipe.Valid() && Sessions().Sound() && Watched(Sessions(), Filters(sessionFilter, typeFilter), watch)
    }

    constructor (maxSize: int, policy: OverflowPolicy)
      ensures Valid() && sessionState == map[] && journeys == map[] && forgotten == {} && !active
      ensures watch == Watch({}, 0, {}, [])
      ensures fresh(pipe) && fresh(pipe.sendQueue) && pipe.history == History([], [], [], [], false, false)
      ensures pipe.sendQueue.maxSize == maxSize && pipe.sendQueue.policy == policy
    {
      pipe := new SendPipe(maxSize, policy);
      active, sessionFilter, typeFilter := false, None, None;
      sessionState, journeys, forgotten := map[], map[], {};
      watch := Watch({}, 0, {}, []);
      NothingYet();
      new;
      assert Sessions() == Ledger(map[], map[], {}, []);
    }

    /** `handleSubscribe`: switching sessions forgets the old session's state, and a
        session without a state starts at number 1; whatever else there is stays. */
    method Subscribe(session: Option<nat>, types: Option<seq<nat>>)
      requires Valid()
      modifies this
      ensures Valid() && active && sessionFilter == session && typeFilter == types
      ensures Sessions() == Started(Left(old(Sessions()), old(sessionFilter), session), session)
      ensures watch == WatchFrom(Left(old(Sessions()), old(sessionFilter), session))
      ensures forall s :: s in old(sessionState) && (old(sessionFilter) == Some(s) ==> session == Some(s)) ==>
                s in sessionState && sessionState[s] == old(sessionState)[s]
      ensures old(sessionFilter).Some? && session != old(sessionFilter) ==> old(sessionFilter).value !in sessionState
      ensures session.Some? && session.value !in old(sessionState) ==>
                session.value in sessionState && sessionState[session.value] == SessionState(1, [])
    {
      ghost var before := Sessions();
      if sessionFilter.Some? && sessionFilter != session {
        before.ForgetSound(sessionFilter.value);
        sessionState := sessionState - {sessionFilter.value};
        journeys, forgotten := journeys - {sessionFilter.value}, forgotten + {sessionFilter.value};
        assert Sessions() == before.Forget(sessionFilter.value);
      }
      watch := WatchFrom(Sessions());
      SubscribedWatched(Sessions(), Filters(session, types));
      sessionFilter, typeFilter, active := session, types, true;
      if session.Some? && session.value !in sessionState {
        Sessions().StartSound(session.value);
        sessionState := sessionState[session.value := SessionState(1, [])];
        journeys := journeys[session.value := SETTING_OUT];
      }
    }

    /** `handleUnsubscribe` */
    method Unsubscribe()
      requires Valid()
      modifies this`active
      ensures Valid() && !active && Now() == old(Now())
    {
      active := false;
    }

    predicate Accepts(event: Event)
      reads this
    {
      && active
      && (sessionFilter.Some? ==> sessionFilter.value == event.session_id)
      && (typeFilter.Some? ==> event.event_type in typeFilter.value)
    }

    /** Whether the event makes the send queue reject one. */
    ghost predicate Rejects(event: Event)
      reads this, pipe, pipe.sendQueue
    {
      Accepts(event) && Overflows(Sessions().Delivery(event.session_id), event, pipe.sendQueue.policy, pipe.FreeRoom())
    }

    /** The client is active, subscribed to the event's session and to its type, where it has
        named any. */
    ghost predicate SubscribedTo(event: Event)
      reads this
    {
      && active
      && (forall s :: sessionFilter == Some(s) ==> event.session_id == s)
      && (forall types :: typeFilter == Some(types) ==> exists k :: 0 <= k < |types| && types[k] == event.event_type)
    }

    /** What the event makes of the client's sessions: one more arrival, or nothing. */
    ghost function Expected(event: Event): (l: Ledger)
      reads this, pipe, pipe.sendQueue
      ensures SubscribedTo(event) ==> l == Sessions().Take(event, pipe.sendQueue.policy, pipe.FreeRoom())
      ensures !SubscribedTo(event) ==> l == Sessions()
    {
      if Accepts(event) then Sessions().Take(event, pipe.sendQueue.policy, pipe.FreeRoom()) else Sessions()
    }

    /** The part of `deliverEvent` for one client. Exactly an event that it is subscribed to
        and for which a rejecting queue has no room throws. The session takes the event, and
        what it releases is enqueued; any other event leaves the client alone. */
    method Deliver(event: Event) returns (threw: bool)
      requires Valid()
      modifies this`sessionState, this`journeys, this`watch, pipe, pipe.sendQueue
      ensures Valid()
      ensures threw <==> old(Rejects(event))
      ensures Sessions() == old(Expected(event))
      ensures !old(SubscribedTo(event)) ==> !threw && Now() == old(Now())
      ensures watch == if active then old(watch).Offer(event) else old(watch)
    {
      if !Accepts(event) {
        Skip(event);
        return false;
      }
      threw := TakeEvent(event);
    }

    ghost method Skip(event: Event)
      requires Valid() && !Accepts(event)
      modifies this`watch
      ensures Valid() && watch == if active then old(watch).Offer(event) else old(watch)
    {
      if active {
        SkipWatched(Sessions(), Filters(sessionFilter, typeFilter), watch, event);
        watch := watch.Offer(event);
      }
    }

    /** One more arrival. */
    method TakeEvent(event: Event) returns (threw: bool)
      requires Valid() && Accepts(event)
      modifies this`sessionState, this`journeys, this`watch, pipe, pipe.sendQueue
      ensures Valid()
      ensures threw
         <==> Overflows(old(Sessions()).Delivery(event.session_id), event, pipe.sendQueue.policy, old(pipe.FreeRoom()))
      ensures Sessions() == old(Sessions()).Take(event, pipe.sendQueue.policy, old(pipe.FreeRoom()))
      ensures watch == old(watch).Offer(event)
    {
      ghost var before, room, policy := Sessions(), pipe.FreeRoom(), pipe.sendQueue.policy;
      ghost var d := before.Delivery(event.session_id);
      assert before.Tracks(event.session_id);
      before.TakeSound(event, policy, room);
      TakeWatched(before, Filters(sessionFilter, typeFilter), watch, event, policy, room);
      threw := InsertAndFlush(event, d);
      journeys := before.Take(event, policy, room).journeys;
      watch := watch.Offer(event);
    }

    /** Buffer the event, then release what is ready. */
    method InsertAndFlush(event: Event, ghost d: Delivery) returns (threw: bool)
      requires pipe.Valid() && Sorted(d.pending)
      requires StateOf(d)
            == if event.session_id in sessionState then sessionState[event.session_id] else SessionState(1, [])
      modifies this`sessionState, pipe, pipe.sendQueue
      ensures pipe.Valid()
      ensures threw <==> Overflows(d, event, pipe.sendQueue.policy, old(pipe.FreeRoom()))
      ensures
        var policy, room := pipe.sendQueue.policy, old(pipe.FreeRoom());
        && sessionState == old(sessionState)[event.session_id := StateOf(Taken(d, event, policy, room))]
        && pipe.history.enqueued
           == old(pipe.history.enqueued) + Inserted(d.pending, event)[..Releases(d, event, policy, room)]
    {
      LoopTakes(d, event, pipe.sendQueue.policy, pipe.FreeRoom());
      InsertPending(event.session_id, event, d);
      threw := FlushClientSession(event.session_id);
    }

    /** Put the event in its place in its session's buffer. */
    method InsertPending(s: nat, event: Event, ghost d: Delivery)
      requires (if s in sessionState then sessionState[s] else SessionState(1, [])) == StateOf(d)
      requires Sorted(d.pending)
      modifies this`sessionState
      ensures sessionState == old(sessionState)[s := SessionState(d.next, Inserted(d.pending, event))]
    {
      var session := if s in sessionState then sessionState[s] else SessionState(1, []);
      var lo := InsertionPoint(session.pendingEvents, event.sequence_number);
      var pending := session.pendingEvents[..lo] + [event] + session.pendingEvents[lo..];
      sessionState := sessionState[s := SessionState(session.nextSequence, pending)];
    }

    /** The binary search of `deliverEvent`. */
    method InsertionPoint(pending: seq<Event>, n: int) returns (lo: nat)
      requires Sorted(pending)
      ensures lo == Position(pending, n)
    {
      var hi := |pending|;
      lo := 0;
      while lo < hi
        invariant lo <= hi <= |pending|
        invariant forall i :: 0 <= i < lo ==> pending[i].sequence_number < n
        invariant forall i :: hi <= i < |pending| ==> pending[i].sequence_number >= n
      {
        var mid := (lo + hi) / 2;
        if pending[mid].sequence_number < n {
          lo := mid + 1;
        } else {
          hi := mid;
        }
      }
      assert !(lo < Position(pending, n)) by {
        assert lo < |pending| ==> pending[lo].sequence_number >= n;
      }
    }

    /** Release what is ready and flush the queue, unless the queue rejects. */
    method FlushClientSession(s: nat) returns (threw: bool)
      requires pipe.Valid() && s in sessionState
      modifies this`sessionState, pipe, pipe.sendQueue
      ensures pipe.Valid()
      ensures Looped(LoopOf(old(sessionState[s]), pipe.sendQueue.policy, old(pipe.FreeRoom())), threw,
                     old(pipe.history.enqueued), pipe.history.enqueued)
      ensures s in sessionState && sessionState == old(sessionState)[s := sessionState[s]]
      ensures sessionState[s] == LoopOf(old(sessionState[s]), pipe.sendQueue.policy, old(pipe.FreeRoom())).session
    {
      var session;
      session, threw := ReleaseReady(sessionState[s]);
      sessionState := sessionState[s := session];
      if !threw {
        FlushQueue();
      }
    }

    /** Flushing enqueues nothing. */
    method FlushQueue()
      requires pipe.Valid()
      modifies pipe, pipe.sendQueue
      ensures pipe.Valid() && pipe.history.enqueued == old(pipe.history.enqueued)
    {
      var _ := pipe.FlushClient();
    }

    /** The loop over the session object, which only this loop changes meanwhile. All that
        is ready is pushed before anything is sent, so a rejecting queue throws exactly
        when more is ready than it has room for, at the event it has no room for. */
    method ReleaseReady(before: SessionState) returns (session: SessionState, threw: bool)
      requires pipe.Valid()
      modifies pipe, pipe.sendQueue
      ensures pipe.Valid()
      ensures session == LoopOf(before, pipe.sendQueue.policy, old(pipe.FreeRoom())).session
      ensures Looped(LoopOf(before, pipe.sendQueue.policy, old(pipe.FreeRoom())), threw,
                     old(pipe.history.enqueued), pipe.history.enqueued)
      ensures pipe.history.sent == old(pipe.history.sent) && pipe.history.closed == old(pipe.history.closed)
    {
      ghost var j: nat := 0;
      ghost var room, enqueued0 := pipe.FreeRoom(), pipe.history.enqueued;
      session, threw := before, false;
      PartlyStart(before, enqueued0);
      while |session.pendingEvents| > 0
        invariant Partly(before, session, j, enqueued0, pipe.history.enqueued)
        invariant pipe.Valid()
        invariant pipe.history.sent == old(pipe.history.sent) && pipe.history.closed == old(pipe.history.closed)
        invariant pipe.sendQueue.policy == Reject ==> pipe.FreeRoom() == room - j
        decreases |session.pendingEvents|
      {
        if session.pendingEvents[0].sequence_number != session.nextSequence {
          break;
        }
        session, threw := ReleaseFirst(session, before, j, room, enqueued0);
        if threw {
          return;
        }
        j := j + 1;
      }
      PartlyDone(before, session, j, enqueued0, pipe.history.enqueued, pipe.sendQueue.policy, room);
    }

    /** The loop body: the event leaves the buffer before it is pushed, and the number goes up
        after that. */
    method ReleaseFirst(before: SessionState, ghost start: SessionState, ghost j: nat, ghost room: nat,
                        ghost enqueued0: seq<Event>)
      returns (session: SessionState, threw: bool)
      requires pipe.Valid() && Partly(start, before, j, enqueued0, pipe.history.enqueued)
      requires before.pendingEvents != [] && before.pendingEvents[0].sequence_number == before.nextSequence
      requires pipe.sendQueue.policy == Reject ==> pipe.FreeRoom() == room - j
      modifies pipe, pipe.sendQueue
      ensures pipe.Valid()
      ensures pipe.history.sent == old(pipe.history.sent) && pipe.history.closed == old(pipe.history.closed)
      ensures threw ==> session == LoopOf(start, pipe.sendQueue.policy, room).session
      ensures threw ==> Looped(LoopOf(start, pipe.sendQueue.policy, room), true, enqueued0, pipe.history.enqueued)
      ensures !threw ==> Partly(start, session, j + 1, enqueued0, pipe.history.enqueued)
      ensures !threw && pipe.sendQueue.policy == Reject ==> pipe.FreeRoom() == room - (j + 1)
      ensures |session.pendingEvents| < |before.pendingEvents|
    {
      PartlyStep(start, before, j, enqueued0, pipe.history.enqueued);
      var first := before.pendingEvents[0];
      session := before.(pendingEvents := before.pendingEvents[1..]);
      threw := pipe.EnqueueEvent(first);
      if !threw {
        session := session.(nextSequence := session.nextSequence + 1);
      }
    }
  }

  function ReadyIn(state: SessionState): nat {
    Ready(state.nextSequence, state.pendingEvents)
  }

  /** The end of the loop: the session, whether the queue rejected, and what it took. */
  datatype Loop = Loop(session: SessionState, threw: bool, released: seq<Event>)

  /** The loop threw as it should, and what it took was enqueued. */
  ghost predicate Looped(l: Loop, threw: bool, enqueued0: seq<Event>, enqueued: seq<Event>) {
    threw == l.threw && enqueued == enqueued0 + l.released
  }

  function LoopOf(before: SessionState, policy: OverflowPolicy, room: nat): Loop {
    var q := before.pendingEvents;
    if policy == Reject && ReadyIn(before) > room then
      Loop(SessionState(before.nextSequence + room, q[room + 1..]), true, q[..room])
    else
      Loop(SessionState(before.nextSequence + ReadyIn(before), q[ReadyIn(before)..]), false, q[..ReadyIn(before)])
  }

  /** What the loop makes of a session that has just got an event. */
  lemma LoopTakes(d: Delivery, e: Event, policy: OverflowPolicy, room: nat)
    ensures LoopOf(SessionState(d.next, Inserted(d.pending, e)), policy, room)
         == Loop(StateOf(Taken(d, e, policy, room)), Overflows(d, e, policy, room),
                 Inserted(d.pending, e)[..Releases(d, e, policy, room)])
  {
  }

  /** `j` events of those ready have been released. */
  ghost predicate Partly(before: SessionState, now: SessionState, j: nat, enqueued0: seq<Event>, enqueued: seq<Event>) {
    && j <= ReadyIn(before)
    && now == SessionState(before.nextSequence + j, before.pendingEvents[j..])
    && enqueued == enqueued0 + before.pendingEvents[..j]
  }

  lemma PartlyStart(before: SessionState, enqueued: seq<Event>)
    ensures Partly(before, before, 0, enqueued, enqueued)
  {
    Empty(enqueued);
  }

  lemma PartlyStep(before: SessionState, now: SessionState, j: nat, enqueued0: seq<Event>, enqueued: seq<Event>)
    requires Partly(before, now, j, enqueued0, enqueued)
    requires now.pendingEvents != [] && now.pendingEvents[0].sequence_number == now.nextSequence
    ensures LoopOf(before, Reject, j).session == now.(pendingEvents := now.pendingEvents[1..])
    ensures Looped(LoopOf(before, Reject, j), true, enqueued0, enqueued)
    ensures Partly(before, SessionState(now.nextSequence + 1, now.pendingEvents[1..]), j + 1,
                   enqueued0, enqueued + [now.pendingEvents[0]])
  {
    var q := before.pendingEvents;
    assert q[j] == now.pendingEvents[0] && q[j..][1..] == q[j + 1..];
    assert q[..j + 1] == q[..j] + [q[j]];
    Associative(enqueued0, q[..j], [q[j]]);
  }

  lemma PartlyDone(before: SessionState, now: SessionState, j: nat, enqueued0: seq<Event>, enqueued: seq<Event>,
                   policy: OverflowPolicy, room: nat)
    requires Partly(before, now, j, enqueued0, enqueued)
    requires now.pendingEvents != [] ==> now.pendingEvents[0].sequence_number != now.nextSequence
    requires policy == Reject ==> j <= room
    ensures LoopOf(before, policy, room).session == now
    ensures Looped(LoopOf(before, policy, room), false, enqueued0, enqueued)
  {
    assert now.pendingEvents != [] ==> now.pendingEvents[0] == before.pendingEvents[j];
    assert j == ReadyIn(before);
  }

  /** The session that a subscription switches away from is forgotten. */
  function Left(l: Ledger, filter: Option<nat>, session: Option<nat>): Ledger {
    if filter.Some? && filter != session then l.Forget(filter.value) else l
  }

  function Started(l: Ledger, session: Option<nat>): Ledger {
    if session.Some? && session.value !in l.states then l.Start(session.value) else l
  }

  // ------------------------------------------------------------ what a client sends

  /** In every state of a client, of two events of a session that went out or are queued,
      the one with the smaller number stands first; unless the session's state was deleted. */
  lemma ClientSendsInOrder(c: Client, s: nat, i: nat, j: nat)
    requires c.Valid() && s !in c.forgotten
    requires i < j < |c.pipe.history.sent + c.pipe.history.queued|
    requires (c.pipe.history.sent + c.pipe.history.queued)[i].session_id == s
    requires (c.pipe.history.sent + c.pipe.history.queued)[j].session_id == s
    ensures (c.pipe.history.sent + c.pipe.history.queued)[i].sequence_number
          < (c.pipe.history.sent + c.pipe.history.queued)[j].sequence_number
  {
    var h := c.pipe.history;
    assert c.Sessions().Tracks(s);
    SentInOrder(h.sent + h.queued, h.kept, h.enqueued, s, i, j);
  }

  /** In every state of a client, exactly the events 1 to nextSequence - 1 of a session were
      ever enqueued, in order; and what went out and what is queued is all of them unless
      the queue overflowed or the socket closed. */
  lemma ClientSendsAll(c: Client, s: nat)
    requires c.Valid() && s !in c.forgotten && s in c.sessionState
    ensures
      var h, log := c.pipe.history, OfSession(c.pipe.history.enqueued, s);
      && |log| == c.sessionState[s].nextSequence - 1
      && (forall i :: 0 <= i < |log| ==> log[i].sequence_number == i + 1)
      && InOrder(h.sent + c.pipe.sendQueue.items, h.kept, h.enqueued)
      && (!h.overflowed && !h.closed ==> OfSession(h.sent + c.pipe.sendQueue.items, s) == log)
  {
    assert c.Sessions().Tracks(s);
  }

  /** A client that has lost nothing of a session has been sent exactly the events 1 to
      next - 1, where next is the first number that has not arrived, in whatever order the
      others did; so all of 1 to n once these have arrived. */
  lemma ClientDelivers(c: Client, s: nat, n: nat)
    requires c.Valid() && s !in c.forgotten && s in c.journeys && c.journeys[s].seen.Some?
    requires NoDuplicates(c.journeys[s].seen.value)
    ensures s in c.sessionState
    ensures
      var seen, next := c.journeys[s].seen.value, c.sessionState[s].nextSequence;
      && |OfSession(c.pipe.history.enqueued, s)| == next - 1
      && !Arrived(seen, next) && AllArrived(seen, next - 1)
      && (AllArrived(seen, n) ==> next > n)
  {
    assert c.Sessions().Tracks(s);
    DeliveredPrefix(c.journeys[s].seen.value);
  }

  /** All that was enqueued since the latest subscription is of the session subscribed to, and
      of a listed type, or was buffered before; so all of it is of a listed type if all that
      was buffered then is. */
  lemma ClientSendsSubscribed(c: Client, i: nat)
    requires c.Valid() && c.watch.since <= i < |c.pipe.history.enqueued|
    ensures
      var e := c.pipe.history.enqueued[i];
      && (forall s :: c.sessionFilter == Some(s) ==> e.session_id == s)
      && (forall types :: c.typeFilter == Some(types) ==> e.event_type in types || e in c.watch.held)
      && (forall types :: c.typeFilter == Some(types) && (forall x :: x in c.watch.held ==> x.event_type in types) ==>
            e.event_type in types)
  {
  }

  /** A client whose session is new has enqueued exactly what arrivals of all events offered
      since would release, up to the first that its type filter rejects. */
  lemma ClientFilterTruncates(c: Client, s: nat, types: seq<nat>)
    requires c.Valid() && s !in c.forgotten && s !in c.watch.known && JourneyOf(c.journeys, s).seen.Some?
    requires c.sessionFilter.Some? ==> c.sessionFilter == Some(s)
    requires NoDuplicates(OfSession(c.watch.offered, s))
    ensures
      var full := Run(START, OfSession(c.watch.offered, s)).log;
      && (c.typeFilter == Some(types) ==>
            OfSession(c.pipe.history.enqueued, s) == full[..PassingPrefix(types, full)])
      && (c.typeFilter == None ==> OfSession(c.pipe.history.enqueued, s) == full)
  {
    assert c.Sessions().Tracks(s);
    assert SawAll(c.Sessions(), Filters(c.sessionFilter, c.typeFilter), c.watch, s);
    FilterTruncates(types, OfSession(c.watch.offered, s));
  }

  /** A session's number 1 is what a client waits for that subscribes late, or switches away
      and back: it gets anything at all if and only if number 1 arrives after that, and before
      any number below. */
  lemma LateSubscriberIff(c: Client, s: nat)
    requires c.Valid() && s in c.journeys && c.journeys[s].seen.Some?
    ensures s in c.sessionState
    ensures c.sessionState[s].nextSequence > 1 <==> exists i: nat :: ReleasesAt(START, c.journeys[s].seen.value, i)
  {
    assert c.Sessions().Tracks(s);
    ReleasesIff(START, c.journeys[s].seen.value);
  }

  // ---------------------------------------------------- after a rejected push

  /** An arrival, and the room the send queue has for it. */
  datatype Attempt = Attempt(event: Event, room: nat)

  /** Arrivals at a client whose queue rejects. */
  function Through(d: Delivery, attempts: seq<Attempt>): Delivery
    decreases |attempts|
  {
    if attempts == [] then d
    else Through(Taken(d, attempts[0].event, Reject, attempts[0].room), attempts[1..])
  }

  /** A copy of `next` is there at a time when the queue has room, before a smaller number
      comes. There are `copies` in the buffer to begin with, and each arrival at a full queue
      loses one. */
  predicate Resumes(next: int, copies: nat, attempts: seq<Attempt>)
    decreases |attempts|
  {
    && attempts != [] && attempts[0].event.sequence_number >= next
    && var there := copies + if attempts[0].event.sequence_number == next then 1 else 0;
       || (there > 0 && attempts[0].room > 0)
       || Resumes(next, if there > 0 then there - 1 else 0, attempts[1..])
  }

  /** After a rejected push the session's next number is the lost one. It releases something
      again if and only if a copy of it is there while the queue has room, before a smaller
      number comes. */
  lemma RejectResumesIff(d: Delivery, e: Event, room: nat, more: seq<Attempt>)
    requires Sorted(d.pending) && Overflows(d, e, Reject, room)
    ensures
      var d', lost := Taken(d, e, Reject, room), d.next + room;
      && d'.next == lost && Inserted(d.pending, e)[room].sequence_number == lost
      && (|Through(d', more).log| > |d'.log| <==> Resumes(lost, CountOf(d'.pending, lost), more))
  {
    var q, d' := Inserted(d.pending, e), Taken(d, e, Reject, room);
    InsertedSorted(d.pending, e);
    assert q[room].sequence_number == d.next + room;
    assert NotBehind(d') by {
      forall x | x in d'.pending
        ensures x.sequence_number >= d'.next
      {
        var i :| 0 <= i < |d'.pending| && d'.pending[i] == x;
        assert d'.pending[i] == q[room + 1 + i];
      }
    }
    ResumesIff(d', more);
  }

  lemma {:induction false} ResumesIff(d: Delivery, attempts: seq<Attempt>)
    requires NotBehind(d)
    ensures |Through(d, attempts).log| > |d.log| <==> Resumes(d.next, CountOf(d.pending, d.next), attempts)
    decreases |attempts|
  {
    if attempts != [] {
      var d' := FirstAttempt(d, attempts);
      if attempts[0].event.sequence_number < d.next {
        StaleThrough(d', attempts[1..]);
      } else if Released(d, attempts[0].event, attempts[0].room) {
        LogGrowsThrough(d', attempts[1..]);
      } else {
        ResumesIff(d', attempts[1..]);
      }
    }
  }

  lemma FirstAttempt(d: Delivery, attempts: seq<Attempt>) returns (d': Delivery)
    requires NotBehind(d) && attempts != []
    ensures Through(d, attempts) == Through(d', attempts[1..])
    ensures FirstDoes(d, attempts[0].event, attempts[0].room, d')
  {
    d' := Taken(d, attempts[0].event, Reject, attempts[0].room);
    TakenFirst(d, attempts[0].event, attempts[0].room);
  }

  /** The copies of `next` once the event is there. */
  function Copies(d: Delivery, e: Event): nat {
    CountOf(d.pending, d.next) + if e.sequence_number == d.next then 1 else 0
  }

  predicate Released(d: Delivery, e: Event, room: nat) {
    Copies(d, e) > 0 && room > 0
  }

  /** The three things one arrival can do. */
  ghost predicate FirstDoes(d: Delivery, e: Event, room: nat, d': Delivery) {
    if e.sequence_number < d.next then d'.log == d.log && d'.next == d.next && Sorted(d'.pending) && Stale(d')
    else if Released(d, e, room) then |d'.log| > |d.log|
    else && d'.log == d.log && d'.next == d.next && NotBehind(d')
         && CountOf(d'.pending, d.next) == if Copies(d, e) > 0 then Copies(d, e) - 1 else 0
  }

  lemma TakenFirst(d: Delivery, e: Event, room: nat)
    requires NotBehind(d)
    ensures FirstDoes(d, e, room, Taken(d, e, Reject, room))
  {
    FirstArrival(d, e);
    if e.sequence_number < d.next {
      assert Position(d.pending, e.sequence_number) == 0;
      assert Ready(d.next, Inserted(d.pending, e)) == 0;
    } else {
      CopyInFront(d, e);
      if Copies(d, e) == 0 {
        NothingTaken(d, e, room);
      } else if room == 0 {
        CopyLost(d, e);
      } else {
        SomeTaken(d, e, room);
      }
    }
  }

  lemma CopyInFront(d: Delivery, e: Event)
    requires NotBehind(d) && e.sequence_number >= d.next
    ensures var q := Inserted(d.pending, e);
      && CountOf(q, d.next) == Copies(d, e)
      && (Copies(d, e) > 0 <==> Ready(d.next, q) > 0)
  {
    var q := Inserted(d.pending, e);
    InsertedSorted(d.pending, e);
    InsertedElements(d.pending, e);
    CountInserted(d.pending, e, d.next);
    CountPositive(q, d.next);
    FrontIsLeast(q, d.next);
  }

  lemma NothingTaken(d: Delivery, e: Event, room: nat)
    requires Ready(d.next, Inserted(d.pending, e)) == 0
    ensures Taken(d, e, Reject, room) == Delivery(d.next, Inserted(d.pending, e), d.log)
  {
    Empty(d.log);
  }

  lemma SomeTaken(d: Delivery, e: Event, room: nat)
    requires Ready(d.next, Inserted(d.pending, e)) > 0 && room > 0
    ensures |Taken(d, e, Reject, room).log| > |d.log|
  {
  }

  /** A full queue takes nothing, and the copy in front is gone. */
  lemma CopyLost(d: Delivery, e: Event)
    requires NotBehind(d) && e.sequence_number >= d.next
    requires Ready(d.next, Inserted(d.pending, e)) > 0
    ensures var d', q := Taken(d, e, Reject, 0), Inserted(d.pending, e);
      && d' == Delivery(d.next, q[1..], d.log) && NotBehind(d')
      && CountOf(d'.pending, d.next) == CountOf(q, d.next) - 1
  {
    var q := Inserted(d.pending, e);
    InsertedSorted(d.pending, e);
    InsertedElements(d.pending, e);
    LoseFront(q, d.next);
    Empty(d.log);
    assert forall x :: x in q[1..] ==> x in q;
  }

  lemma LoseFront(q: seq<Event>, n: int)
    requires q != [] && q[0].sequence_number == n
    ensures CountOf(q[1..], n) == CountOf(q, n) - 1
  {
    assert q == [q[0]] + q[1..] && [q[0]][..0] == [];
    CountConcat([q[0]], q[1..], n);
    assert CountOf([q[0]], n) == 1;
  }

  lemma {:induction false} StaleThrough(d: Delivery, attempts: seq<Attempt>)
    requires Sorted(d.pending) && Stale(d)
    ensures Through(d, attempts).log == d.log
    decreases |attempts|
  {
    if attempts != [] {
      var e := attempts[0].event;
      StaleStep(d, e);
      NothingReady(d, e);
      StaleThrough(Arrive(d, e), attempts[1..]);
    }
  }

  lemma NothingReady(d: Delivery, e: Event)
    requires Sorted(d.pending) && Stale(d)
    ensures Ready(d.next, Inserted(d.pending, e)) == 0
  {
    var q := Inserted(d.pending, e);
    assert q[0] == e || q[0] == d.pending[0];
  }

  lemma {:induction false} LogGrowsThrough(d: Delivery, attempts: seq<Attempt>)
    ensures |Through(d, attempts).log| >= |d.log|
    decreases |attempts|
  {
    if attempts != [] {
      LogGrowsThrough(Taken(d, attempts[0].event, Reject, attempts[0].room), attempts[1..]);
    }
  }

  /** A full queue loses number 1 of a new session: it is neither enqueued nor buffered. */
  lemma FullQueueLosesEvent(e: Event)
    requires e.sequence_number == 1
    ensures Overflows(START, e, Reject, 0) && Taken(START, e, Reject, 0) == START
  {
    OnlyReady(e);
    LoseOnly(e);
  }

  lemma OnlyReady(e: Event)
    requires e.sequence_number == 1
    ensures Inserted([], e) == [e] && Ready(1, [e]) == 1
  {
    assert [e][1..] == [];
  }

  lemma LoseOnly(e: Event)
    ensures [e][1..] == [] && [e][..0] == [] && [] + [e][..0] == []
  {
  }
}
