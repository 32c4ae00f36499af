/** The server side of src/projection/websocket-server.ts: ring buffers for gap
    recovery, replay on reconnect, and fan-out to clients. */
module ProjectionServers {
  import opened BoundedQueues
  import opened OrderedMaps
  import opened Reordering
  import opened ProjectionClients
  import opened Sequences

  function RingPushed<T>(buffer: seq<T>, item: T, maxSize: int): seq<T> {
    if |buffer| + 1 > maxSize then (buffer + [item])[1..] else buffer + [item]
  }

  class RingBuffer<T> {
    var buffer: seq<T>
    const maxSize: int

    constructor (maxSize: int)
      ensures buffer == [] && this.maxSize == maxSize
    {
      buffer, this.maxSize := [], maxSize;
    }

    method Push(item: T)
      modifies this
      ensures buffer == RingPushed(old(buffer), item, maxSize)
    {
      buffer := buffer + [item];
      if |buffer| > maxSize {
        buffer := buffer[1..];
      }
    }
  }

  // ------------------------------------------------------------------ replay

  ghost predicate UniqueIds(events: seq<Event>) {
    forall i, j :: 0 <= i < j < |events| ==> events[i].event_id != events[j].event_id
  }

  /** The position of the first event with the id, or -1. */
  function FindIndex(events: seq<Event>, id: nat): (i: int)
    ensures -1 <= i < |events|
    ensures i >= 0 ==> events[i].event_id == id && forall j :: 0 <= j < i ==> events[j].event_id != id
    ensures i < 0 ==> forall j :: 0 <= j < |events| ==> events[j].event_id != id
  {
    if events == [] then -1
    else if events[0].event_id == id then 0
    else
      var rest := FindIndex(events[1..], id);
      if rest < 0 then -1 else rest + 1
  }

  datatype Replay = Events(events: seq<Event>) | GapTooLarge

  /** The answer of the full store: everything after the last event seen. */
  function StoreReplay(stored: seq<Event>, lastId: nat): Replay {
    var i := FindIndex(stored, lastId);
    if i >= 0 then Events(stored[i + 1..]) else GapTooLarge
  }

  /** The ring holds the end of what the store holds, within its size. */
  ghost predicate IsTail(ring: seq<Event>, stored: seq<Event>, maxSize: int) {
    && |ring| <= |stored| && stored[|stored| - |ring|..] == ring
    && (|ring| <= maxSize || ring == [])
  }

  /** Storing and then buffering the same event keeps the ring a tail of the store. */
  lemma StoredAndBuffered(ring: seq<Event>, stored: seq<Event>, maxSize: int, e: Event)
    requires IsTail(ring, stored, maxSize)
    ensures IsTail(RingPushed(ring, e, maxSize), stored + [e], maxSize)
  {
    assert (stored + [e])[|stored| - |ring|..] == ring + [e];
    if |ring| + 1 > maxSize {
      SuffixDrop(stored + [e], |stored| - |ring|, 1);
    }
  }

  lemma EmptyIsTail(stored: seq<Event>, maxSize: int)
    ensures IsTail([], stored, maxSize)
  {
    assert stored[|stored|..] == [];
  }

  ghost predicate HasId(events: seq<Event>, id: nat) {
    exists e :: e in events && e.event_id == id
  }

  lemma GapIff(stored: seq<Event>, lastId: nat)
    ensures StoreReplay(stored, lastId).GapTooLarge? <==> !HasId(stored, lastId)
  {
    var i := FindIndex(stored, lastId);
    if i >= 0 {
      assert stored[i] in stored;
    }
  }

  lemma TailHasNoMore(ring: seq<Event>, stored: seq<Event>, maxSize: int, id: nat)
    requires IsTail(ring, stored, maxSize)
    ensures HasId(ring, id) ==> HasId(stored, id)
  {
    if HasId(ring, id) {
      var e :| e in ring && e.event_id == id;
      assert e in stored;
    }
  }

  function RingAll<T>(buffer: seq<T>, items: seq<T>, maxSize: int): seq<T> {
    if items == [] then buffer
    else RingPushed(RingAll(buffer, items[..|items| - 1], maxSize), items[|items| - 1], maxSize)
  }

  /** A ring that has seen some items holds exactly the last `maxSize` of them. */
  lemma {:induction false} RingHoldsLast<T>(items: seq<T>, maxSize: int)
    requires maxSize >= 0
    ensures RingAll([], items, maxSize) == if |items| <= maxSize then items else items[|items| - maxSize..]
  {
    if items != [] {
      var n := |items| - 1;
      RingHoldsLast(items[..n], maxSize);
      assert items == items[..n] + [items[n]];
      if n >= maxSize {
        assert items[..n][n - maxSize..] + [items[n]] == items[n - maxSize..];
        SuffixDrop(items, n - maxSize, 1);
      }
    }
  }

  /** Replay from the ring is replay from the store, for every id the ring holds. */
  lemma RingReplayIsStoreReplay(ring: seq<Event>, stored: seq<Event>, maxSize: int, lastId: nat)
    requires IsTail(ring, stored, maxSize) && UniqueIds(stored)
    requires FindIndex(ring, lastId) >= 0
    ensures Events(ring[FindIndex(ring, lastId) + 1..]) == StoreReplay(stored, lastId)
  {
    var i, off := FindIndex(ring, lastId), |stored| - |ring|;
    var k := FindIndex(stored, lastId);
    assert stored[off + i] == ring[i];
    assert k == off + i;
    SuffixDrop(stored, off, i + 1);
  }

  // ------------------------------------------------------------------ server

  class ProjectionServer {
    const bufferSize: int
    var stored: map<nat, seq<Event>>
    var eventBuffers: map<nat, RingBuffer<Event>>
    var clients: seq<Client>

    constructor (bufferSize: int)
      ensures this.bufferSize == bufferSize && stored == map[] && eventBuffers == map[] && clients == []
    {
      this.bufferSize := bufferSize;
      stored, eventBuffers, clients := map[], map[], [];
    }

    function Stored(session: nat): seq<Event>
      reads this
    {
      if session in stored then stored[session] else []
    }

    /** No two sessions share a ring. */
    ghost predicate RingsApart()
      reads this`eventBuffers
    {
      forall s, t :: s in eventBuffers && t in eventBuffers && s != t ==> eventBuffers[s] != eventBuffers[t]
    }

    ghost predicate RingValid(s: nat)
      reads this, eventBuffers.Values
    {
      s in eventBuffers ==>
        eventBuffers[s].maxSize == bufferSize && IsTail(eventBuffers[s].buffer, Stored(s), bufferSize)
    }

    ghost predicate BuffersValid()
      reads this, eventBuffers.Values
    {
      RingsApart() && forall s :: RingValid(s)
    }

    /** The ring buffer part of `handleSubscribe`. */
    method OpenBuffer(session: nat)
      requires BuffersValid()
      modifies this`eventBuffers
      ensures BuffersValid()
      ensures eventBuffers.Keys == old(eventBuffers.Keys) + {session}
      ensures forall s :: s in old(eventBuffers) ==> eventBuffers[s] == old(eventBuffers[s])
    {
      if session !in eventBuffers {
        var buffer := new RingBuffer<Event>(bufferSize);
        EmptyIsTail(Stored(session), bufferSize);
        eventBuffers := eventBuffers[session := buffer];
        forall s
          ensures RingValid(s)
        {
          assert old(RingValid(s));
          assert Stored(s) == old(Stored(s));
        }
      }
    }

    /** The event store and the ring buffer see the same event, in this order. */
    method StoreAndBuffer(event: Event)
      requires BuffersValid()
      modifies this`stored, eventBuffers.Values
      ensures BuffersValid()
      ensures stored == old(stored)[event.session_id := old(Stored(event.session_id)) + [event]]
      ensures forall s :: s in eventBuffers ==> eventBuffers[s].buffer == old(RingAfter(s, event))
    {
      assert RingValid(event.session_id);
      stored := stored[event.session_id := Stored(event.session_id) + [event]];
      PushToRing(event);
      forall s
        ensures RingValid(s)
      {
        assert old(RingValid(s));
        if s in eventBuffers && s == event.session_id {
          StoredAndBuffered(old(eventBuffers[s].buffer), old(Stored(s)), bufferSize, event);
        }
      }
    }

    /** The ring buffer part of `deliverEvent`. */
    method PushToRing(event: Event)
      requires RingsApart()
      requires event.session_id in eventBuffers ==> eventBuffers[event.session_id].maxSize == bufferSize
      modifies eventBuffers.Values
      ensures forall s :: s in eventBuffers ==> eventBuffers[s].buffer == old(RingAfter(s, event))
    {
      if event.session_id in eventBuffers {
        eventBuffers[event.session_id].Push(event);
      }
    }

    ghost function RingAfter(session: nat, event: Event): seq<Event>
      requires session in eventBuffers
      reads this`eventBuffers, eventBuffers.Values
    {
      var ring := eventBuffers[session].buffer;
      if session == event.session_id then RingPushed(ring, event, bufferSize) else ring
    }

    /** What a reconnecting client is sent is what the full store would send: the
        ring is only a shortcut, and an error means that the id is in neither. */
    method HandleReconnect(session: nat, lastEventId: nat) returns (r: Replay)
      requires BuffersValid() && UniqueIds(Stored(session))
      ensures r == StoreReplay(Stored(session), lastEventId)
      ensures r.GapTooLarge? <==>
        !HasId(Stored(session), lastEventId)
        && (session in eventBuffers ==> !HasId(eventBuffers[session].buffer, lastEventId))
    {
      assert RingValid(session);
      GapIff(Stored(session), lastEventId);
      if session in eventBuffers {
        var buffer := eventBuffers[session].buffer;
        TailHasNoMore(buffer, Stored(session), bufferSize, lastEventId);
        var idx := FindIndex(buffer, lastEventId);
        if idx >= 0 {
          RingReplayIsStoreReplay(buffer, Stored(session), bufferSize, lastEventId);
          return Events(buffer[idx + 1..]);
        }
      }
      var lastIdx := FindIndex(Stored(session), lastEventId);
      if lastIdx >= 0 {
        return Events(Stored(session)[lastIdx + 1..]);
      }
      return GapTooLarge;
    }

    ghost predicate ClientsValid()
      reads this, clients, set c | c in clients :: c.pipe, set c | c in clients :: c.pipe.sendQueue
    {
      Apart(clients) && forall c :: c in clients ==> c.Valid()
    }

    /** Fan-out: the clients up to the first whose send queue rejects take the event and are
        sent what this releases; that client takes what its queue has room for, and throws;
        those after it are not reached. */
    method FanOut(event: Event) returns (reached: nat)
      requires ClientsValid()
      modifies set c | c in clients :: c`sessionState, set c | c in clients :: c`journeys,
               set c | c in clients :: c`watch,
               set c | c in clients :: c.pipe, set c | c in clients :: c.pipe.sendQueue
      ensures ClientsValid() && reached <= |clients|
      ensures forall i :: 0 <= i < |clients| && i <= reached ==>
                && clients[i].Sessions() == old(clients[i].Expected(event))
                && (i == reached <==> old(clients[i].Rejects(event)))
      ensures forall i :: reached < i < |clients| ==> clients[i].Now() == old(clients[i].Now())
    {
      reached := 0;
      while reached < |clients|
        invariant ClientsValid() && reached <= |clients|
        invariant forall j :: 0 <= j < reached ==>
                    clients[j].Sessions() == old(clients[j].Expected(event)) && !old(clients[j].Rejects(event))
        invariant forall j :: reached <= j < |clients| ==> Waiting(clients[j], event)
      {
        assert Waiting(clients[reached], event);
        var threw := DeliverTo(reached, clients[reached], event);
        if threw {
          return;
        }
        reached := reached + 1;
      }
    }

    /** Delivering to one client touches no other. */
    method DeliverTo(i: nat, client: Client, event: Event) returns (threw: bool)
      requires ClientsValid() && i < |clients| && client == clients[i]
      modifies client`sessionState, client`journeys, client`watch, client.pipe, client.pipe.sendQueue
      ensures ClientsValid()
      ensures client.Sessions() == old(client.Expected(event)) && threw == old(client.Rejects(event))
      ensures forall j :: 0 <= j < |clients| && j != i ==>
                Waiting(clients[j], event) && clients[j].Sessions() == old(clients[j].Sessions())
    {
      threw := client.Deliver(event);
    }
  }

  /** Every client is there once, and no two share an object. */
  ghost predicate Apart(clients: seq<Client>) {
    && Distinct(clients)
    && forall c, d :: c in clients && d in clients && c != d ==>
         c.pipe != d.pipe && c.pipe.sendQueue != d.pipe.sendQueue
  }

  /** Nothing has happened to the client. */
  twostate predicate Waiting(c: Client, event: Event)
    reads c, c.pipe, c.pipe.sendQueue
  {
    c.Now() == old(c.Now()) && c.Expected(event) == old(c.Expected(event)) && c.Rejects(event) == old(c.Rejects(event))
  }
}
