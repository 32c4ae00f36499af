/** How events reach the subscribers of src/core/event-stream.ts: each is recorded first and
    then handed to one subscriber after the other, any of which may append more events
    before it returns, or throw. The store bridge of src/store/event-store.ts is one of the
    subscribers. */
module Deliveries {
  import opened EventLogs
  import opened OrderedMaps
  import opened Sequences

  /** One operation on the stream: refused, or an event with what the subscribers called
      before the bridge went on to do, whether one of these threw, which ends the delivery,
      and what those called after the bridge did. */
  datatype Delivery =
    | Refused
    | Delivered(event: Event, early: seq<Delivery>, cut: bool, late: seq<Delivery>)

  /** The events in the order in which the stream records them. */
  function Recorded(d: Delivery): seq<Event>
    decreases d, 0
  {
    match d
    case Refused => []
    case Delivered(event, early, _, late) => [event] + (RecordedAll(early) + RecordedAll(late))
  }

  function RecordedAll(ds: seq<Delivery>): seq<Event>
    decreases ds, 0
  {
    if ds == [] then [] else Recorded(ds[0]) + RecordedAll(ds[1..])
  }

  /** The events in the order in which the bridge receives them. */
  function Received(d: Delivery): seq<Event>
    decreases d, 0
  {
    match d
    case Refused => []
    case Delivered(event, early, cut, late) =>
      ReceivedAll(early) + ((if cut then [] else [event]) + ReceivedAll(late))
  }

  function ReceivedAll(ds: seq<Delivery>): seq<Event>
    decreases ds, 0
  {
    if ds == [] then [] else Received(ds[0]) + ReceivedAll(ds[1..])
  }

  /** No subscriber called before the bridge threw, or had an event appended to the session
      whose event it was being handed. */
  predicate InOrder(d: Delivery)
    decreases d, 0
  {
    match d
    case Refused => true
    case Delivered(event, early, cut, late) =>
      !cut && Of(RecordedAll(early), event.session_id) == [] && InOrderAll(early) && InOrderAll(late)
  }

  predicate InOrderAll(ds: seq<Delivery>)
    decreases ds, 0
  {
    if ds == [] then true else InOrder(ds[0]) && InOrderAll(ds[1..])
  }

  // -------------------------------------------------------- one event and its nested ones

  lemma OfRecorded(d: Delivery, s: nat)
    requires d.Delivered?
    ensures Of(Recorded(d), s)
         == (if d.event.session_id == s then [d.event] else [])
            + (Of(RecordedAll(d.early), s) + Of(RecordedAll(d.late), s))
  {
    OfConcat([d.event], RecordedAll(d.early) + RecordedAll(d.late), s);
    OfConcat(RecordedAll(d.early), RecordedAll(d.late), s);
    OfOne(d.event, s);
  }

  lemma OfReceived(d: Delivery, s: nat)
    requires d.Delivered?
    ensures Of(Received(d), s)
         == Of(ReceivedAll(d.early), s)
            + ((if d.event.session_id == s && !d.cut then [d.event] else []) + Of(ReceivedAll(d.late), s))
  {
    var own := if d.cut then [] else [d.event];
    OfConcat(ReceivedAll(d.early), own + ReceivedAll(d.late), s);
    OfConcat(own, ReceivedAll(d.late), s);
    OfOne(d.event, s);
  }

  lemma OfOne(e: Event, s: nat)
    ensures Of([e], s) == if e.session_id == s then [e] else []
  {
    assert [e][..0] == [];
  }

  // ------------------------------------------------------------------ in order: nothing lost

  lemma {:induction false} InOrderAgrees(d: Delivery, s: nat)
    requires InOrder(d)
    ensures Of(Received(d), s) == Of(Recorded(d), s)
    decreases d, 0
  {
    if d.Delivered? {
      InOrderAgreesAll(d.early, s);
      InOrderAgreesAll(d.late, s);
      OfRecorded(d, s);
      OfReceived(d, s);
    }
  }

  lemma {:induction false} InOrderAgreesAll(ds: seq<Delivery>, s: nat)
    requires InOrderAll(ds)
    ensures Of(ReceivedAll(ds), s) == Of(RecordedAll(ds), s)
    decreases ds, 0
  {
    if ds != [] {
      InOrderAgrees(ds[0], s);
      InOrderAgreesAll(ds[1..], s);
      OfConcat(Received(ds[0]), ReceivedAll(ds[1..]), s);
      OfConcat(Recorded(ds[0]), RecordedAll(ds[1..]), s);
    }
  }

  // --------------------------------------------------------------- what an early throw costs

  /** How many deliveries an early subscriber cut off. */
  function Cuts(d: Delivery): nat
    decreases d, 0
  {
    match d
    case Refused => 0
    case Delivered(_, early, cut, late) => CutsAll(early) + (if cut then 1 else 0) + CutsAll(late)
  }

  function CutsAll(ds: seq<Delivery>): nat
    decreases ds, 0
  {
    if ds == [] then 0 else Cuts(ds[0]) + CutsAll(ds[1..])
  }

  /** Each cut costs the store one event, and nothing else does. */
  lemma {:induction false} CutsCost(d: Delivery)
    ensures multiset(Received(d)) <= multiset(Recorded(d))
    ensures |Received(d)| + Cuts(d) == |Recorded(d)|
    decreases d, 0
  {
    if d.Delivered? {
      CutsCostAll(d.early);
      CutsCostAll(d.late);
    }
  }

  lemma {:induction false} CutsCostAll(ds: seq<Delivery>)
    ensures multiset(ReceivedAll(ds)) <= multiset(RecordedAll(ds))
    ensures |ReceivedAll(ds)| + CutsAll(ds) == |RecordedAll(ds)|
    decreases ds, 0
  {
    if ds != [] {
      CutsCost(ds[0]);
      CutsCostAll(ds[1..]);
    }
  }

  /** Without cuts the store receives exactly what the stream records, in some order. */
  lemma NoCutsNoLoss(d: Delivery)
    requires Cuts(d) == 0
    ensures multiset(Received(d)) == multiset(Recorded(d))
  {
    CutsCost(d);
    SameSize(multiset(Received(d)), multiset(Recorded(d)));
  }

  lemma NoCutsNoLossAll(ds: seq<Delivery>)
    requires CutsAll(ds) == 0
    ensures multiset(ReceivedAll(ds)) == multiset(RecordedAll(ds))
  {
    CutsCostAll(ds);
    SameSize(multiset(ReceivedAll(ds)), multiset(RecordedAll(ds)));
  }

  lemma SameSize(a: multiset<Event>, b: multiset<Event>)
    requires a <= b && |a| == |b|
    ensures a == b
  {
    assert b == a + (b - a);
  }

  lemma {:induction false} OfMultiset(events: seq<Event>, e: Event)
    ensures multiset(Of(events, e.session_id))[e] == multiset(events)[e]
  {
    if events != [] {
      OfMultiset(events[..|events| - 1], e);
      SplitLast(events);
    }
  }

  lemma {:induction false} OfSame(a: seq<Event>, b: seq<Event>, s: nat)
    requires multiset(a) == multiset(b)
    ensures multiset(Of(a, s)) == multiset(Of(b, s))
  {
    forall e: Event
      ensures multiset(Of(a, s))[e] == multiset(Of(b, s))[e]
    {
      OnlyOf(a, s, e);
      OnlyOf(b, s, e);
      OfMultiset(a, e);
      OfMultiset(b, e);
    }
    assert multiset(Of(a, s)) == multiset(Of(b, s));
  }

  lemma OfLength(a: seq<Event>, b: seq<Event>, s: nat)
    requires multiset(a) == multiset(b)
    ensures |Of(a, s)| == |Of(b, s)|
  {
    OfSame(a, b, s);
    assert |Of(a, s)| == |multiset(Of(a, s))| && |Of(b, s)| == |multiset(Of(b, s))|;
  }

  lemma {:induction false} OnlyOf(events: seq<Event>, s: nat, e: Event)
    ensures e.session_id != s ==> multiset(Of(events, s))[e] == 0
  {
    if events != [] {
      OnlyOf(events[..|events| - 1], s, e);
    }
  }

  // ------------------------------------------------------------------ out of order: it shows

  lemma AgreeNoCuts(ds: seq<Delivery>)
    requires Agree(ReceivedAll(ds), RecordedAll(ds))
    ensures CutsAll(ds) == 0
  {
    var a, b := ReceivedAll(ds), RecordedAll(ds);
    forall e: Event
      ensures multiset(a)[e] == multiset(b)[e]
    {
      OfMultiset(a, e);
      OfMultiset(b, e);
      assert Of(a, e.session_id) == Of(b, e.session_id);
    }
    assert multiset(a) == multiset(b);
    assert |a| == |multiset(a)| && |b| == |multiset(b)|;
    CutsCostAll(ds);
  }

  lemma {:induction false} AgreeInOrder(d: Delivery)
    requires Cuts(d) == 0 && Distinct(Recorded(d)) && Agree(Received(d), Recorded(d))
    ensures InOrder(d)
    decreases d, 0
  {
    if d.Delivered? {
      NoCutsNoLossAll(d.early);
      NothingEarly(d);
      forall s
        ensures Of(ReceivedAll(d.early), s) == Of(RecordedAll(d.early), s)
        ensures Of(ReceivedAll(d.late), s) == Of(RecordedAll(d.late), s)
      {
        OfRecorded(d, s);
        OfReceived(d, s);
        OfLength(ReceivedAll(d.early), RecordedAll(d.early), s);
        assert Of(Received(d), s) == Of(Recorded(d), s);
        var own := if d.event.session_id == s then [d.event] else [];
        if own == [] {
          SplitSame(Of(ReceivedAll(d.early), s), [] + Of(ReceivedAll(d.late), s),
                    Of(RecordedAll(d.early), s), Of(RecordedAll(d.late), s));
          Empty(Of(RecordedAll(d.early), s) + Of(RecordedAll(d.late), s));
          Empty(Of(ReceivedAll(d.late), s));
        } else {
          SamePrefix(own, Of(ReceivedAll(d.late), s), Of(RecordedAll(d.late), s));
          Empty(own + Of(ReceivedAll(d.late), s));
          Empty(Of(RecordedAll(d.late), s));
        }
      }
      DistinctParts([d.event], RecordedAll(d.early) + RecordedAll(d.late));
      DistinctParts(RecordedAll(d.early), RecordedAll(d.late));
      AgreeInOrderAll(d.early);
      AgreeInOrderAll(d.late);
    }
  }

  /** If an early subscriber had something appended to the event's own session, the store
      would start this session with that. */
  lemma NothingEarly(d: Delivery)
    requires d.Delivered? && Cuts(d) == 0 && Distinct(Recorded(d)) && Agree(Received(d), Recorded(d))
    requires multiset(ReceivedAll(d.early)) == multiset(RecordedAll(d.early))
    ensures Of(RecordedAll(d.early), d.event.session_id) == []
    ensures Of(ReceivedAll(d.early), d.event.session_id) == []
  {
    var s, e := d.event.session_id, d.event;
    var early := Of(ReceivedAll(d.early), s);
    assert early == [] || e in early by {
      OfRecorded(d, s);
      OfReceived(d, s);
      assert Of(Received(d), s) == Of(Recorded(d), s);
      HeadIn(early, [e] + Of(ReceivedAll(d.late), s), e, Of(RecordedAll(d.early), s) + Of(RecordedAll(d.late), s));
    }
    assert e !in multiset(RecordedAll(d.early)) by {
      HeadOnce(e, RecordedAll(d.early), RecordedAll(d.late));
    }
    assert e !in multiset(ReceivedAll(d.early));
    InOf(ReceivedAll(d.early), e);
    OfLength(ReceivedAll(d.early), RecordedAll(d.early), s);
  }

  lemma HeadIn<T>(a: seq<T>, b: seq<T>, x: T, c: seq<T>)
    requires a + b == [x] + c
    ensures a == [] || x in a
  {
    assert ([x] + c)[0] == x;
    assert a != [] ==> (a + b)[0] == a[0];
  }

  lemma HeadOnce<T>(x: T, a: seq<T>, b: seq<T>)
    requires Distinct([x] + (a + b))
    ensures x !in a
  {
    var all := [x] + (a + b);
    forall i | 0 <= i < |a|
      ensures a[i] != x
    {
      assert all[0] == x && all[i + 1] == a[i];
    }
  }

  lemma {:induction false} AgreeInOrderAll(ds: seq<Delivery>)
    requires CutsAll(ds) == 0 && Distinct(RecordedAll(ds)) && Agree(ReceivedAll(ds), RecordedAll(ds))
    ensures InOrderAll(ds)
    decreases ds, 0
  {
    if ds != [] {
      NoCutsNoLoss(ds[0]);
      forall s
        ensures Of(Received(ds[0]), s) == Of(Recorded(ds[0]), s)
        ensures Of(ReceivedAll(ds[1..]), s) == Of(RecordedAll(ds[1..]), s)
      {
        OfConcat(Received(ds[0]), ReceivedAll(ds[1..]), s);
        OfConcat(Recorded(ds[0]), RecordedAll(ds[1..]), s);
        OfLength(Received(ds[0]), Recorded(ds[0]), s);
        assert Of(ReceivedAll(ds), s) == Of(RecordedAll(ds), s);
        SplitSame(Of(Received(ds[0]), s), Of(ReceivedAll(ds[1..]), s),
                  Of(Recorded(ds[0]), s), Of(RecordedAll(ds[1..]), s));
      }
      DistinctParts(Recorded(ds[0]), RecordedAll(ds[1..]));
      AgreeInOrder(ds[0]);
      AgreeInOrderAll(ds[1..]);
    }
  }

  lemma SplitSame<T>(a: seq<T>, b: seq<T>, c: seq<T>, d: seq<T>)
    requires |a| == |c| && a + b == c + d
    ensures a == c && b == d
  {
    assert (a + b)[..|a|] == a && (c + d)[..|c|] == c && (a + b)[|a|..] == b && (c + d)[|c|..] == d;
  }

  lemma DistinctParts<T>(a: seq<T>, b: seq<T>)
    requires Distinct(a + b)
    ensures Distinct(a) && Distinct(b)
  {
    assert forall i :: 0 <= i < |a| ==> (a + b)[i] == a[i];
    assert forall i :: 0 <= i < |b| ==> (a + b)[|a| + i] == b[i];
  }

  /** The bridged store equals the stream after any run of deliveries, nested ones included,
      if and only if no subscriber called before the bridge threw or had something appended to
      the session in delivery. So it never catches up. */
  lemma StoreFollowsIff(logs: Logs, ds: seq<Delivery>)
    requires Distinct(RecordedAll(ds))
    ensures AppendAll(logs, ReceivedAll(ds)) == AppendAll(logs, RecordedAll(ds)) <==> InOrderAll(ds)
  {
    AppendAllSameIff(logs, ReceivedAll(ds), RecordedAll(ds));
    if InOrderAll(ds) {
      forall s
        ensures Of(ReceivedAll(ds), s) == Of(RecordedAll(ds), s)
      {
        InOrderAgreesAll(ds, s);
      }
    }
    if Agree(ReceivedAll(ds), RecordedAll(ds)) {
      AgreeNoCuts(ds);
      AgreeInOrderAll(ds);
    }
  }

  lemma OneDelivery(d: Delivery)
    ensures RecordedAll([d]) == Recorded(d) && ReceivedAll([d]) == Received(d) && InOrderAll([d]) == InOrder(d)
  {
    assert [d][1..] == [];
    Empty(Recorded(d));
    Empty(Received(d));
  }

  /** A subscriber that comes before the bridge and throws costs the store the event, though
      nobody re-enters. */
  lemma EarlyThrowLosesEvent(logs: Logs, e: Event)
    ensures AppendAll(logs, Received(Delivered(e, [], true, []))) == logs
    ensures AppendAll(logs, Recorded(Delivered(e, [], true, []))) == Appended(logs, e)
  {
    AppendOne(logs, e);
  }
}
