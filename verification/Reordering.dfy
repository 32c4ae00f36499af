/** The per-session reorder buffer of src/projection/websocket-server.ts: what any
    order of arrivals makes of `nextSequence`, `pendingEvents` and the events
    released to the send queue. */
module Reordering {
  import opened Sequences

  datatype Event = Event(event_id: nat, session_id: nat, event_type: nat, sequence_number: int)

  ghost predicate Sorted(pending: seq<Event>) {
    forall i, j :: 0 <= i < j < |pending| ==> pending[i].sequence_number <= pending[j].sequence_number
  }

  ghost predicate StrictlySorted(pending: seq<Event>) {
    forall i, j :: 0 <= i < j < |pending| ==> pending[i].sequence_number < pending[j].sequence_number
  }

  /** Where the binary search of a sorted buffer ends: before the first event whose
      number is not smaller. */
  function Position(pending: seq<Event>, n: int): (p: nat)
    ensures p <= |pending|
    ensures forall i :: 0 <= i < p ==> pending[i].sequence_number < n
    ensures p < |pending| ==> pending[p].sequence_number >= n
  {
    if pending == [] || pending[0].sequence_number >= n then 0 else 1 + Position(pending[1..], n)
  }

  function Inserted(pending: seq<Event>, e: Event): seq<Event> {
    var p := Position(pending, e.sequence_number);
    pending[..p] + [e] + pending[p..]
  }

  /** How many events at the front are numbered next, next + 1, and so on. */
  function Ready(next: int, pending: seq<Event>): (k: nat)
    ensures k <= |pending|
    ensures forall i :: 0 <= i < k ==> pending[i].sequence_number == next + i
    ensures k < |pending| ==> pending[k].sequence_number != next + k
    decreases |pending|
  {
    if pending == [] || pending[0].sequence_number != next then 0 else 1 + Ready(next + 1, pending[1..])
  }

  /** A session as its client sees it: the delivery state and all events released
      so far. */
  datatype Delivery = Delivery(next: int, pending: seq<Event>, log: seq<Event>)

  const START := Delivery(1, [], [])

  /** One arrival: insert in order, then release what is ready. */
  function Arrive(d: Delivery, e: Event): Delivery {
    Release(d.next, Inserted(d.pending, e), d.log)
  }

  function Release(next: int, pending: seq<Event>, log: seq<Event>): Delivery {
    var k := Ready(next, pending);
    Delivery(next + k, pending[k..], log + pending[..k])
  }

  function Run(d: Delivery, arrivals: seq<Event>): Delivery {
    if arrivals == [] then d
    else Arrive(Run(d, arrivals[..|arrivals| - 1]), arrivals[|arrivals| - 1])
  }

  // ------------------------------------------------------------ every arrival

  /** Sorted, and waiting for a number that is not at the front. */
  ghost predicate Settled(d: Delivery) {
    Sorted(d.pending) && (d.pending != [] ==> d.pending[0].sequence_number != d.next)
  }

  /** The released events are numbered 1, 2, ..., next - 1, in this order. */
  ghost predicate Numbered(d: Delivery) {
    |d.log| == d.next - 1 && forall i :: 0 <= i < |d.log| ==> d.log[i].sequence_number == i + 1
  }

  /** Every arrival is either released or still buffered. */
  ghost predicate Conserves(d: Delivery, arrivals: seq<Event>) {
    multiset(d.log) + multiset(d.pending) == multiset(arrivals)
  }

  lemma InsertedSorted(pending: seq<Event>, e: Event)
    requires Sorted(pending)
    ensures Sorted(Inserted(pending, e))
  {
  }

  lemma InsertedElements(pending: seq<Event>, e: Event)
    ensures multiset(Inserted(pending, e)) == multiset(pending) + multiset{e}
    ensures forall x :: x in Inserted(pending, e) <==> x in pending || x == e
  {
    var p := Position(pending, e.sequence_number);
    assert pending == pending[..p] + pending[p..];
  }

  lemma ReleaseSettles(next: int, q: seq<Event>, log: seq<Event>)
    requires Sorted(q)
    ensures Settled(Release(next, q, log))
  {
  }

  lemma ReleaseNumbered(next: int, q: seq<Event>, log: seq<Event>)
    requires |log| == next - 1 && forall i :: 0 <= i < |log| ==> log[i].sequence_number == i + 1
    ensures Numbered(Release(next, q, log))
  {
  }

  lemma ReleaseConserves(next: int, q: seq<Event>, log: seq<Event>)
    ensures var d := Release(next, q, log); multiset(d.log) + multiset(d.pending) == multiset(log) + multiset(q)
  {
    var k := Ready(next, q);
    assert q == q[..k] + q[k..];
  }

  /** For any arrivals whatsoever, repeated and out of order. */
  lemma {:induction false} RunConserves(arrivals: seq<Event>)
    ensures Settled(Run(START, arrivals))
    ensures Numbered(Run(START, arrivals))
    ensures Conserves(Run(START, arrivals), arrivals)
  {
    if arrivals != [] {
      var n := |arrivals| - 1;
      RunConserves(arrivals[..n]);
      var d := Run(START, arrivals[..n]);
      var q := Inserted(d.pending, arrivals[n]);
      InsertedSorted(d.pending, arrivals[n]);
      InsertedElements(d.pending, arrivals[n]);
      ReleaseSettles(d.next, q, d.log);
      ReleaseNumbered(d.next, q, d.log);
      ReleaseConserves(d.next, q, d.log);
      SplitLast(arrivals);
    }
  }

  lemma SameElements(arrivals: seq<Event>, e: Event)
    ensures e in arrivals <==> e in Run(START, arrivals).log || e in Run(START, arrivals).pending
  {
    var d := Run(START, arrivals);
    RunConserves(arrivals);
    assert e in multiset(arrivals) <==> e in multiset(d.log) + multiset(d.pending);
  }

  // --------------------------------------------------- duplicate-free arrivals

  ghost predicate NoDuplicates(arrivals: seq<Event>) {
    && (forall i :: 0 <= i < |arrivals| ==> arrivals[i].sequence_number >= 1)
    && (forall i, j :: 0 <= i < j < |arrivals| ==> arrivals[i].sequence_number != arrivals[j].sequence_number)
  }

  ghost predicate Arrived(arrivals: seq<Event>, n: int) {
    exists e :: e in arrivals && e.sequence_number == n
  }

  /** Strictly sorted, with numbers beyond `next` only. */
  ghost predicate Ahead(d: Delivery) {
    StrictlySorted(d.pending) && forall e :: e in d.pending ==> e.sequence_number > d.next
  }

  lemma InsertedStrict(pending: seq<Event>, e: Event)
    requires StrictlySorted(pending)
    requires forall x :: x in pending ==> x.sequence_number != e.sequence_number
    ensures StrictlySorted(Inserted(pending, e))
  {
    var p := Position(pending, e.sequence_number);
    if p < |pending| {
      assert pending[p] in pending;
    }
  }

  lemma ReleaseAhead(next: int, q: seq<Event>, log: seq<Event>)
    requires StrictlySorted(q) && forall e :: e in q ==> e.sequence_number >= next
    ensures Ahead(Release(next, q, log))
  {
    var k := Ready(next, q);
    forall i | k <= i < |q|
      ensures q[i].sequence_number > next + k
    {
      if k > 0 {
        assert q[k - 1].sequence_number == next + (k - 1);
      } else {
        assert q[i] in q;
      }
    }
  }

  /** All released numbers have arrived. */
  lemma ReleasedArrived(arrivals: seq<Event>)
    ensures forall m :: 1 <= m < Run(START, arrivals).next ==> Arrived(arrivals, m)
  {
    var d := Run(START, arrivals);
    RunConserves(arrivals);
    forall m | 1 <= m < d.next
      ensures Arrived(arrivals, m)
    {
      SameElements(arrivals, d.log[m - 1]);
    }
  }

  lemma {:induction false} NoDuplicatesAhead(arrivals: seq<Event>)
    requires NoDuplicates(arrivals)
    ensures Ahead(Run(START, arrivals))
  {
    if arrivals != [] {
      var n := |arrivals| - 1;
      var d, e := Run(START, arrivals[..n]), arrivals[n];
      NoDuplicatesAhead(arrivals[..n]);
      NewNumber(arrivals, n);
      InsertedStrict(d.pending, e);
      InsertedElements(d.pending, e);
      ReleaseAhead(d.next, Inserted(d.pending, e), d.log);
    }
  }

  /** A number that arrives for the first time is neither released nor buffered. */
  lemma NewNumber(arrivals: seq<Event>, n: nat)
    requires NoDuplicates(arrivals) && n < |arrivals|
    ensures arrivals[n].sequence_number >= Run(START, arrivals[..n]).next
    ensures forall x :: x in Run(START, arrivals[..n]).pending ==> x.sequence_number != arrivals[n].sequence_number
  {
    var d, m := Run(START, arrivals[..n]), arrivals[n].sequence_number;
    assert !Arrived(arrivals[..n], m);
    ReleasedArrived(arrivals[..n]);
    forall x | x in d.pending
      ensures x.sequence_number != m
    {
      SameElements(arrivals[..n], x);
    }
  }

  /** The main law: whatever the order of distinct arrivals, exactly the events 1
      to next - 1 have been released, in order, where next is the first number that
      has not arrived. */
  lemma DeliveredPrefix(arrivals: seq<Event>)
    requires NoDuplicates(arrivals)
    ensures var d := Run(START, arrivals);
            && Numbered(d) && Ahead(d)
            && (forall i :: 0 <= i < |d.log| ==> d.log[i] in arrivals)
            && !Arrived(arrivals, d.next)
            && (forall m :: 1 <= m < d.next ==> Arrived(arrivals, m))
  {
    var d := Run(START, arrivals);
    RunConserves(arrivals);
    NoDuplicatesAhead(arrivals);
    ReleasedArrived(arrivals);
    forall e | e in arrivals
      ensures e.sequence_number != d.next
    {
      SameElements(arrivals, e);
    }
    forall i | 0 <= i < |d.log|
      ensures d.log[i] in arrivals
    {
      SameElements(arrivals, d.log[i]);
    }
  }

  /** Once 1 to n have arrived, all of them have been released. */
  lemma AllDelivered(arrivals: seq<Event>, n: nat)
    requires NoDuplicates(arrivals)
    requires forall m :: 1 <= m <= n ==> Arrived(arrivals, m)
    ensures |Run(START, arrivals).log| >= n
  {
    DeliveredPrefix(arrivals);
  }

  // -------------------------------------------------------------- stalled runs

  /** An event numbered below `next` is stuck at the front of the buffer. */
  ghost predicate Stale(d: Delivery) {
    d.pending != [] && d.pending[0].sequence_number < d.next
  }

  /** ... and blocks the session for good. */
  lemma {:induction false} StaleBlocks(d: Delivery, more: seq<Event>)
    requires Sorted(d.pending) && Stale(d)
    ensures var r := Run(d, more); r.log == d.log && r.next == d.next && Sorted(r.pending) && Stale(r)
  {
    if more != [] {
      var n := |more| - 1;
      StaleBlocks(d, more[..n]);
      StaleStep(Run(d, more[..n]), more[n]);
    }
  }

  lemma StaleStep(d: Delivery, e: Event)
    requires Sorted(d.pending)
    requires Stale(d) || (Settled(d) && e.sequence_number < d.next)
    ensures var r := Arrive(d, e); r.log == d.log && r.next == d.next && Sorted(r.pending) && Stale(r)
  {
    var q := Inserted(d.pending, e);
    InsertedSorted(d.pending, e);
    assert q[0] == e || (d.pending != [] && q[0] == d.pending[0]);
    assert Ready(d.next, q) == 0;
    assert q[0..] == q && d.log + q[..0] == d.log;
  }

  /** A settled session can still release something if and only if it is not stale. */
  lemma CanProgressIff(d: Delivery)
    requires Settled(d)
    ensures (exists more :: |Run(d, more).log| > |d.log|) <==> !Stale(d)
  {
    if Stale(d) {
      forall more
        ensures !(|Run(d, more).log| > |d.log|)
      {
        StaleBlocks(d, more);
      }
    } else {
      NextIsReleased(d, Event(0, 0, 0, d.next));
    }
  }

  lemma NextIsReleased(d: Delivery, e: Event)
    requires Settled(d) && !Stale(d) && e.sequence_number == d.next
    ensures |Run(d, [e]).log| > |d.log|
  {
    assert [e][..0] == [];
    assert Run(d, [e]) == Arrive(d, e);
    assert Position(d.pending, d.next) == 0;
    assert Inserted(d.pending, e)[0] == e;
    assert Ready(d.next, Inserted(d.pending, e)) > 0;
  }

  /** How many events have the number `n`. */
  function CountOf(events: seq<Event>, n: int): nat {
    if events == [] then 0
    else CountOf(events[..|events| - 1], n) + if events[|events| - 1].sequence_number == n then 1 else 0
  }

  lemma {:induction false} CountConcat(a: seq<Event>, b: seq<Event>, n: int)
    ensures CountOf(a + b, n) == CountOf(a, n) + CountOf(b, n)
    decreases |b|
  {
    if b == [] {
      Empty(a);
    } else {
      assert (a + b)[..|a + b| - 1] == a + b[..|b| - 1];
      CountConcat(a, b[..|b| - 1], n);
    }
  }

  lemma {:induction false} CountPositive(events: seq<Event>, n: int)
    ensures CountOf(events, n) > 0 <==> Arrived(events, n)
  {
    if events != [] {
      var e := events[|events| - 1];
      CountPositive(events[..|events| - 1], n);
      SplitLast(events);
      if e.sequence_number == n {
        assert e in events;
      }
      if Arrived(events[..|events| - 1], n) {
        var x :| x in events[..|events| - 1] && x.sequence_number == n;
        assert x in events;
      }
    }
  }

  lemma CountInserted(pending: seq<Event>, e: Event, n: int)
    ensures CountOf(Inserted(pending, e), n) == CountOf(pending, n) + if e.sequence_number == n then 1 else 0
  {
    var p := Position(pending, e.sequence_number);
    CountConcat(pending[..p] + [e], pending[p..], n);
    CountConcat(pending[..p], [e], n);
    CountConcat(pending[..p], pending[p..], n);
    assert pending[..p] + pending[p..] == pending;
    assert CountOf([e], n) == if e.sequence_number == n then 1 else 0 by {
      assert [e][..0] == [];
    }
  }

  /** Each number that arrives is released or buffered as often as it arrives. */
  lemma {:induction false} CountConserved(arrivals: seq<Event>, n: int)
    ensures CountOf(arrivals, n) == CountOf(Run(START, arrivals).log, n) + CountOf(Run(START, arrivals).pending, n)
  {
    if arrivals != [] {
      var front, e := arrivals[..|arrivals| - 1], arrivals[|arrivals| - 1];
      var d := Run(START, front);
      CountConserved(front, n);
      CountInserted(d.pending, e, n);
      CountReleased(d.next, Inserted(d.pending, e), d.log, n);
    }
  }

  lemma CountReleased(next: int, q: seq<Event>, log: seq<Event>, n: int)
    ensures var d := Release(next, q, log); CountOf(d.log, n) + CountOf(d.pending, n) == CountOf(log, n) + CountOf(q, n)
  {
    var k := Ready(next, q);
    CountConcat(log, q[..k], n);
    CountConcat(q[..k], q[k..], n);
    assert q[..k] + q[k..] == q;
  }

  lemma {:induction false} CountNumbered(log: seq<Event>, n: int)
    requires forall i :: 0 <= i < |log| ==> log[i].sequence_number == i + 1
    ensures CountOf(log, n) == if 1 <= n <= |log| then 1 else 0
  {
    if log != [] {
      CountNumbered(log[..|log| - 1], n);
    }
  }

  /** What makes a session stale, read off its arrivals: a number below 1, or a number
      that arrived twice although all numbers up to it arrived. */
  ghost predicate Disturbed(arrivals: seq<Event>) {
    || (exists n :: n < 1 && Arrived(arrivals, n))
    || (exists n :: n >= 1 && CountOf(arrivals, n) >= 2 && AllArrived(arrivals, n))
  }

  ghost predicate AllArrived(arrivals: seq<Event>, n: int) {
    forall m :: 1 <= m <= n ==> Arrived(arrivals, m)
  }

  /** A session is stale if and only if its arrivals disturb it, in whatever order they
      came. */
  lemma StaleIff(arrivals: seq<Event>)
    ensures Stale(Run(START, arrivals)) <==> Disturbed(arrivals)
  {
    if Stale(Run(START, arrivals)) {
      StaleDisturbed(arrivals, Run(START, arrivals).pending[0]);
    }
    forall n | n < 1 && Arrived(arrivals, n)
      ensures Stale(Run(START, arrivals))
    {
      RunConserves(arrivals);
      CountPositive(arrivals, n);
      BufferedBelow(arrivals, n);
    }
    forall n | n >= 1 && CountOf(arrivals, n) >= 2 && AllArrived(arrivals, n)
      ensures Stale(Run(START, arrivals))
    {
      RepeatedIsStale(arrivals, n);
    }
  }

  lemma RepeatedIsStale(arrivals: seq<Event>, n: int)
    requires n >= 1 && CountOf(arrivals, n) >= 2 && AllArrived(arrivals, n)
    ensures Stale(Run(START, arrivals))
  {
    var next := Run(START, arrivals).next;
    if n < next {
      BufferedBelow(arrivals, n);
    } else {
      RunConserves(arrivals);
      CountPositive(arrivals, next);
      BufferedBelow(arrivals, next);
    }
  }

  lemma StaleDisturbed(arrivals: seq<Event>, e: Event)
    requires e in Run(START, arrivals).pending && e.sequence_number < Run(START, arrivals).next
    ensures Disturbed(arrivals)
  {
    var n := e.sequence_number;
    assert CountOf(arrivals, n) >= if n >= 1 then 2 else 1 by {
      RunConserves(arrivals);
      CountConserved(arrivals, n);
      CountNumbered(Run(START, arrivals).log, n);
      CountPositive(Run(START, arrivals).pending, n);
    }
    if n < 1 {
      CountPositive(arrivals, n);
    } else {
      ReleasedArrived(arrivals);
    }
  }

  /** An event that arrived more often than it can have been released is buffered, and if
      it is not behind `next` itself, the settled buffer's front is. */
  lemma BufferedBelow(arrivals: seq<Event>, n: int)
    requires n <= Run(START, arrivals).next
    requires CountOf(arrivals, n) > if 1 <= n < Run(START, arrivals).next then 1 else 0
    ensures Stale(Run(START, arrivals))
  {
    var d := Run(START, arrivals);
    RunConserves(arrivals);
    CountConserved(arrivals, n);
    CountNumbered(d.log, n);
    CountPositive(d.pending, n);
    var e :| e in d.pending && e.sequence_number == n;
    var i :| 0 <= i < |d.pending| && d.pending[i] == e;
  }

  /** So delivering a released number again stops the session. */
  lemma RepeatedArrivalStalls(arrivals: seq<Event>, e: Event, more: seq<Event>)
    requires e.sequence_number < Run(START, arrivals).next
    ensures Run(Arrive(Run(START, arrivals), e), more).log == Run(START, arrivals).log
  {
    RunConserves(arrivals);
    StaleStep(Run(START, arrivals), e);
    StaleBlocks(Arrive(Run(START, arrivals), e), more);
  }

  /** Nothing in the buffer is numbered below `next`. */
  ghost predicate NotBehind(d: Delivery) {
    Sorted(d.pending) && forall e :: e in d.pending ==> e.sequence_number >= d.next
  }

  /** Up to the `i`-th further arrival none is numbered below `next`, and `next` itself is
      there by then. */
  ghost predicate ReleasesAt(d: Delivery, more: seq<Event>, i: nat) {
    && i < |more|
    && (forall k :: 0 <= k <= i ==> more[k].sequence_number >= d.next)
    && (Arrived(d.pending, d.next) || Arrived(more[..i + 1], d.next))
  }

  /** A session that has nothing behind `next` in its buffer releases something of what
      follows if and only if the number `next` comes, or came, before a smaller one does. */
  lemma {:induction false} ReleasesIff(d: Delivery, more: seq<Event>)
    requires NotBehind(d)
    ensures |Run(d, more).log| > |d.log| <==> exists i: nat :: ReleasesAt(d, more, i)
    ensures |Run(d, more).log| == |d.log| ==> Run(d, more).log == d.log && Run(d, more).next == d.next
    decreases |more|
  {
    if more != [] {
      var e, d', rest := more[0], Arrive(d, more[0]), more[1..];
      RunFirst(d, more);
      FirstArrival(d, e);
      if e.sequence_number < d.next {
        StaleBlocks(d', rest);
        forall i: nat
          ensures !ReleasesAt(d, more, i)
        {
        }
      } else if Arrived(d.pending, d.next) || e.sequence_number == d.next {
        LogGrows(d', rest);
        ReleasesFirst(d, more);
      } else {
        ReleasesIff(d', rest);
        ReleasesShift(d, d', more);
      }
    }
  }

  lemma ReleasesFirst(d: Delivery, more: seq<Event>)
    requires more != [] && more[0].sequence_number >= d.next
    requires Arrived(d.pending, d.next) || more[0].sequence_number == d.next
    ensures ReleasesAt(d, more, 0)
  {
    assert more[..1] == [more[0]];
    assert more[0] in more[..1];
  }

  lemma {:induction false} RunFirst(d: Delivery, more: seq<Event>)
    requires more != []
    ensures Run(d, more) == Run(Arrive(d, more[0]), more[1..])
  {
    assert more == [more[0]] + more[1..];
    RunConcat(d, [more[0]], more[1..]);
    assert [more[0]][..0] == [];
    assert Run(d, [more[0]]) == Arrive(d, more[0]);
  }

  lemma {:induction false} LogGrows(d: Delivery, more: seq<Event>)
    ensures |Run(d, more).log| >= |d.log|
  {
    if more != [] {
      LogGrows(d, more[..|more| - 1]);
    }
  }

  /** The three things one arrival can do. */
  lemma FirstArrival(d: Delivery, e: Event)
    requires NotBehind(d)
    ensures var d' := Arrive(d, e);
      if e.sequence_number < d.next then d'.log == d.log && d'.next == d.next && Sorted(d'.pending) && Stale(d')
      else if Arrived(d.pending, d.next) || e.sequence_number == d.next then |d'.log| > |d.log|
      else d'.log == d.log && d'.next == d.next && NotBehind(d') && !Arrived(d'.pending, d.next)
  {
    var q := Inserted(d.pending, e);
    InsertedSorted(d.pending, e);
    InsertedElements(d.pending, e);
    if e.sequence_number < d.next {
      assert Position(d.pending, e.sequence_number) == 0;
      assert q[0] == e;
      assert Ready(d.next, q) == 0;
      Empty(d.log);
    } else {
      FrontIsLeast(q, d.next);
      if Arrived(q, d.next) {
        assert Ready(d.next, q) > 0;
      } else {
        assert Ready(d.next, q) == 0;
        Empty(d.log);
      }
    }
  }

  lemma FrontIsLeast(q: seq<Event>, n: int)
    requires Sorted(q) && forall e :: e in q ==> e.sequence_number >= n
    ensures Arrived(q, n) <==> q != [] && q[0].sequence_number == n
  {
    if Arrived(q, n) {
      var e :| e in q && e.sequence_number == n;
      var i :| 0 <= i < |q| && q[i] == e;
      assert q[0].sequence_number <= q[i].sequence_number;
    }
  }

  lemma ReleasesShift(d: Delivery, d': Delivery, more: seq<Event>)
    requires more != [] && d'.next == d.next && more[0].sequence_number > d.next
    requires !Arrived(d.pending, d.next) && !Arrived(d'.pending, d.next)
    ensures (exists i: nat :: ReleasesAt(d, more, i)) <==> exists i: nat :: ReleasesAt(d', more[1..], i)
  {
    forall i: nat | ReleasesAt(d, more, i)
      ensures i > 0 && ReleasesAt(d', more[1..], i - 1)
    {
      var e :| e in more[..i + 1] && e.sequence_number == d.next;
      assert e in more[1..][..i];
    }
    forall i: nat | ReleasesAt(d', more[1..], i)
      ensures ReleasesAt(d, more, i + 1)
    {
      var e :| e in more[1..][..i + 1] && e.sequence_number == d.next;
      assert e in more[..i + 2];
      forall k | 0 <= k <= i + 1
        ensures more[k].sequence_number >= d.next
      {
        assert k > 0 ==> more[k] == more[1..][k - 1];
      }
    }
  }

  /** A number that never arrives keeps back everything behind it. */
  lemma {:induction false} MissingNumberStalls(d: Delivery, more: seq<Event>)
    requires Settled(d) && !Arrived(more, d.next)
    ensures var r := Run(d, more); r.log == d.log && r.next == d.next && Settled(r)
  {
    if more != [] {
      var n := |more| - 1;
      SplitLast(more);
      MissingNumberStalls(d, more[..n]);
      GapStep(Run(d, more[..n]), more[n]);
    }
  }

  lemma GapStep(d: Delivery, e: Event)
    requires Settled(d) && e.sequence_number != d.next
    ensures var r := Arrive(d, e); r.log == d.log && r.next == d.next && Settled(r)
  {
    var q := Inserted(d.pending, e);
    InsertedSorted(d.pending, e);
    assert q[0] == e || (d.pending != [] && q[0] == d.pending[0]);
    assert Ready(d.next, q) == 0;
    assert q[0..] == q && d.log + q[..0] == d.log;
  }

  // --------------------------------------------------------- event-type filters

  function Filtered(types: seq<nat>, events: seq<Event>): seq<Event> {
    if events == [] then []
    else
      var e := events[|events| - 1];
      Filtered(types, events[..|events| - 1]) + if e.event_type in types then [e] else []
  }

  /** Length of the longest prefix that passes the filter. */
  function PassingPrefix(types: seq<nat>, events: seq<Event>): (k: nat)
    ensures k <= |events|
    ensures forall i :: 0 <= i < k ==> events[i].event_type in types
    ensures k < |events| ==> events[k].event_type !in types
  {
    if events == [] || events[0].event_type !in types then 0 else 1 + PassingPrefix(types, events[1..])
  }

  lemma {:induction false} FilteredAre(types: seq<nat>, events: seq<Event>)
    ensures forall e :: e in Filtered(types, events) <==> e in events && e.event_type in types
  {
    if events != [] {
      SplitLast(events);
      FilteredAre(types, events[..|events| - 1]);
    }
  }

  lemma {:induction false} RunConcat(d: Delivery, a: seq<Event>, b: seq<Event>)
    ensures Run(d, a + b) == Run(Run(d, a), b)
    decreases |b|
  {
    if b == [] {
      assert a + b == a;
    } else {
      var n := |b| - 1;
      assert (a + b)[..|a + b| - 1] == a + b[..n];
      RunConcat(d, a, b[..n]);
    }
  }

  lemma {:induction false} FilteredNoDuplicates(types: seq<nat>, arrivals: seq<Event>)
    requires NoDuplicates(arrivals)
    ensures NoDuplicates(Filtered(types, arrivals))
  {
    if arrivals != [] {
      var n := |arrivals| - 1;
      FilteredNoDuplicates(types, arrivals[..n]);
      FilteredAre(types, arrivals[..n]);
      assert forall e :: e in Filtered(types, arrivals[..n]) ==>
        e.sequence_number >= 1 && e.sequence_number != arrivals[n].sequence_number;
    }
  }

  lemma SameNumber(arrivals: seq<Event>, a: Event, b: Event)
    requires NoDuplicates(arrivals) && a in arrivals && b in arrivals && a.sequence_number == b.sequence_number
    ensures a == b
  {
  }

  /** `log` holds the distinct arrivals numbered 1 to |log|, and no arrival has the next number. */
  ghost predicate IsPrefix(log: seq<Event>, arrivals: seq<Event>) {
    && (forall i :: 0 <= i < |log| ==> log[i].sequence_number == i + 1 && log[i] in arrivals)
    && !Arrived(arrivals, |log| + 1)
  }

  lemma DeliveredIsPrefix(arrivals: seq<Event>)
    requires NoDuplicates(arrivals)
    ensures IsPrefix(Run(START, arrivals).log, arrivals)
  {
    DeliveredPrefix(arrivals);
  }

  /** For distinct arrivals in any order: a client that filters by event type is sent exactly
      what it would be sent without the filter, up to the first event that the filter rejects. */
  lemma FilterTruncates(types: seq<nat>, arrivals: seq<Event>)
    requires NoDuplicates(arrivals)
    ensures var full := Run(START, arrivals).log;
      Run(START, Filtered(types, arrivals)).log == full[..PassingPrefix(types, full)]
  {
    var full, passed := Run(START, arrivals).log, Run(START, Filtered(types, arrivals)).log;
    FilteredNoDuplicates(types, arrivals);
    DeliveredIsPrefix(arrivals);
    DeliveredIsPrefix(Filtered(types, arrivals));
    FilteredAre(types, arrivals);
    AllPassingDelivered(types, arrivals, full, passed);
    PassedIsShorter(arrivals, full, passed);
    forall i | 0 <= i < |passed|
      ensures passed[i] == full[i] && passed[i].event_type in types
    {
      SameNumber(arrivals, passed[i], full[i]);
    }
    SamePrefix(passed, full, PassingPrefix(types, full));
  }

  lemma AllPassingDelivered(types: seq<nat>, arrivals: seq<Event>, full: seq<Event>, passed: seq<Event>)
    requires IsPrefix(full, arrivals) && IsPrefix(passed, Filtered(types, arrivals))
    ensures PassingPrefix(types, full) <= |passed|
  {
    FilteredAre(types, arrivals);
    var k, n := PassingPrefix(types, full), |passed|;
    assert n < k ==> full[n] in Filtered(types, arrivals);
  }

  lemma PassedIsShorter(arrivals: seq<Event>, full: seq<Event>, passed: seq<Event>)
    requires IsPrefix(full, arrivals)
    requires forall i :: 0 <= i < |passed| ==> passed[i].sequence_number == i + 1 && passed[i] in arrivals
    ensures |passed| <= |full|
  {
    forall n: int | 1 <= n <= |passed|
      ensures Arrived(arrivals, n)
    {
      assert passed[n - 1] in arrivals;
    }
  }

  lemma SamePrefix(a: seq<Event>, b: seq<Event>, k: nat)
    requires |a| == k <= |b| && forall i :: 0 <= i < |a| ==> a[i] == b[i]
    ensures a == b[..k]
  {
  }
}
