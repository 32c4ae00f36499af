/** A change of the event types a client of src/projection/websocket-server.ts is subscribed to,
    while events of its session are buffered: these were admitted before, and are released
    whatever the new types say. */
module Resubscriptions {
  import opened Reordering
  import opened Sequences

  ghost predicate Listed(types: seq<nat>, events: seq<Event>) {
    forall i :: 0 <= i < |events| ==> events[i].event_type in types
  }

  /** From `d` on, whatever listed events arrive, only listed events are released. */
  ghost predicate StaysListed(d: Delivery, types: seq<nat>) {
    forall more :: Listed(types, more) ==> ReleasesListed(d, types, more)
  }

  ghost predicate ReleasesListed(d: Delivery, types: seq<nat>, more: seq<Event>) {
    forall i :: |d.log| <= i < |Run(d, more).log| ==> Run(d, more).log[i].event_type in types
  }

  /** How many buffered events stand before the first whose number another one has already. */
  function Rising(pending: seq<Event>): (r: nat)
    ensures r <= |pending|
    ensures 0 < r < |pending| ==> pending[r].sequence_number <= pending[r - 1].sequence_number
    ensures pending != [] ==> r > 0
    decreases |pending|
  {
    if |pending| <= 1 then |pending|
    else if pending[0].sequence_number < pending[1].sequence_number then 1 + Rising(pending[1..])
    else 1
  }

  // ------------------------------------------------- a repeated number is the end

  /** `x` stands at `p` and blocks: an event with its number stands just before it, or has been
      released. What stands before it is allowed, and so is all that was released since. */
  ghost predicate Blocks(d: Delivery, x: Event, p: nat, allowed: seq<Event>, n: nat) {
    && Sorted(d.pending) && p < |d.pending| && d.pending[p] == x && n <= |d.log|
    && (forall i :: 0 <= i < p ==> d.pending[i] in allowed)
    && (forall i :: n <= i < |d.log| ==> d.log[i] in allowed)
    && (d.next > x.sequence_number || (p > 0 && d.pending[p - 1].sequence_number == x.sequence_number))
  }

  lemma InsertedBlocks(d: Delivery, x: Event, p: nat, allowed: seq<Event>, n: nat, e: Event) returns (p': nat)
    requires Blocks(d, x, p, allowed, n) && e in allowed
    ensures Blocks(d.(pending := Inserted(d.pending, e)), x, p', allowed, n)
  {
    var at := Position(d.pending, e.sequence_number);
    InsertedSorted(d.pending, e);
    p' := if at <= p then p + 1 else p;
  }

  lemma ReleasedBlocks(d: Delivery, x: Event, p: nat, allowed: seq<Event>, n: nat) returns (p': nat)
    requires Blocks(d, x, p, allowed, n)
    ensures Blocks(Release(d.next, d.pending, d.log), x, p', allowed, n)
  {
    var k := Ready(d.next, d.pending);
    NotReady(d.next, d.pending, p);
    p' := p - k;
    if k > 0 {
      assert d.pending[k - 1].sequence_number == d.next + (k - 1);
    }
  }

  lemma NotReady(next: int, q: seq<Event>, p: nat)
    requires p < |q|
    requires next > q[p].sequence_number || (p > 0 && q[p - 1].sequence_number == q[p].sequence_number)
    ensures Ready(next, q) <= p
  {
  }

  lemma {:induction false} BlocksRun(d: Delivery, x: Event, p: nat, allowed: seq<Event>, n: nat, more: seq<Event>)
    returns (p': nat)
    requires Blocks(d, x, p, allowed, n) && forall e :: e in more ==> e in allowed
    ensures Blocks(Run(d, more), x, p', allowed, n)
  {
    p' := p;
    if more != [] {
      var m := |more| - 1;
      assert forall e :: e in more[..m] ==> e in more;
      p' := BlocksRun(d, x, p, allowed, n, more[..m]);
      var r := Run(d, more[..m]);
      p' := InsertedBlocks(r, x, p', allowed, n, more[m]);
      p' := ReleasedBlocks(r.(pending := Inserted(r.pending, more[m])), x, p', allowed, n);
    }
  }

  /** Without a repeated number everything released was buffered or arrives. */
  ghost predicate From(d: Delivery, allowed: seq<Event>, n: nat) {
    && n <= |d.log| && (forall e :: e in d.pending ==> e in allowed)
    && (forall i :: n <= i < |d.log| ==> d.log[i] in allowed)
  }

  lemma {:induction false} FromRun(d: Delivery, allowed: seq<Event>, n: nat, more: seq<Event>)
    requires From(d, allowed, n) && forall e :: e in more ==> e in allowed
    ensures From(Run(d, more), allowed, n)
  {
    if more != [] {
      var m := |more| - 1;
      assert forall e :: e in more[..m] ==> e in more;
      FromRun(d, allowed, n, more[..m]);
      FromStep(Run(d, more[..m]), allowed, n, more[m]);
    }
  }

  lemma FromStep(d: Delivery, allowed: seq<Event>, n: nat, e: Event)
    requires From(d, allowed, n) && e in allowed
    ensures From(Arrive(d, e), allowed, n)
  {
    InsertedElements(d.pending, e);
    var q := Inserted(d.pending, e);
    var k := Ready(d.next, q);
    forall i | n <= i < |d.log + q[..k]|
      ensures (d.log + q[..k])[i] in allowed
    {
      if i >= |d.log| {
        assert (d.log + q[..k])[i] == q[i - |d.log|];
      }
    }
  }

  /** What is released was buffered before a repeated number, or arrives. */
  lemma ListedStaysListed(d: Delivery, types: seq<nat>, more: seq<Event>)
    requires Sorted(d.pending) && Listed(types, d.pending[..Rising(d.pending)]) && Listed(types, more)
    ensures ReleasesListed(d, types, more)
  {
    var r := Rising(d.pending);
    var allowed := d.pending[..r] + more;
    assert Listed(types, allowed);
    if r < |d.pending| {
      assert forall i :: 0 <= i < r ==> d.pending[i] in d.pending[..r];
      var p := BlocksRun(d, d.pending[r], r, allowed, |d.log|, more);
    } else {
      assert d.pending[..r] == d.pending;
      FromRun(d, allowed, |d.log|, more);
    }
  }

  // --------------------------------------------------- everything before it gets out

  /** The log has the event beyond its first `n` ones. */
  predicate Has(log: seq<Event>, n: nat, e: Event) {
    |log| > n && (log[|log| - 1] == e || Has(log[..|log| - 1], n, e))
  }

  lemma {:induction false} HasIff(log: seq<Event>, n: nat, e: Event)
    ensures Has(log, n, e) <==> exists k :: n <= k < |log| && log[k] == e
  {
    if |log| > n {
      HasIff(log[..|log| - 1], n, e);
      assert forall k :: 0 <= k < |log| - 1 ==> log[..|log| - 1][k] == log[k];
    }
  }

  /** Some listed events make the session release the event. */
  ghost predicate Obtains(d: Delivery, types: seq<nat>, e: Event) {
    exists more :: Listed(types, more) && Has(Run(d, more).log, |d.log|, e)
  }

  /** A buffered event before any repeated number is released once those missing before it
      have come. */
  lemma {:induction false} Reaches(d: Delivery, types: seq<nat>, i: nat)
    requires Settled(d) && NotBehind(d) && types != [] && i < Rising(d.pending)
    ensures Obtains(d, types, d.pending[i])
    decreases d.pending[i].sequence_number - d.next
  {
    var now, d', i' := Nearer(d, types, i);
    if i' < 0 {
      ObtainsBy(d, types, now, d', d.pending[i]);
    } else {
      Reaches(d', types, i');
      ObtainsLater(d, types, now, d', d.pending[i]);
    }
  }

  /** With the missing number, the event is released, or stands at `i'` in what is left. */
  lemma Nearer(d: Delivery, types: seq<nat>, i: nat) returns (now: seq<Event>, d': Delivery, i': int)
    requires Settled(d) && NotBehind(d) && types != [] && i < Rising(d.pending)
    ensures Listed(types, now) && Run(d, now) == d' && |d'.log| >= |d.log| && d'.next > d.next
    ensures i' < 0 ==> Has(d'.log, |d.log|, d.pending[i])
    ensures i' >= 0 ==> Settled(d') && NotBehind(d') && i' < Rising(d'.pending)
    ensures i' >= 0 ==> d'.pending[i'] == d.pending[i] && d.pending[i].sequence_number >= d'.next
  {
    var k;
    now, k, d' := NextArrives(d, types);
    i' := WhereThen(d, d', now[0], k, i);
  }

  lemma WhereThen(d: Delivery, d': Delivery, f: Event, k: nat, i: nat) returns (i': int)
    requires Settled(d) && NotBehind(d) && i < Rising(d.pending) && 0 < k <= |d.pending| + 1
    requires d' == Delivery(d.next + k, d.pending[k - 1..], d.log + ([f] + d.pending[..k - 1]))
    requires k > 1 ==> d.pending[k - 2].sequence_number == d.next + k - 1
    requires k - 1 < |d.pending| ==> d.pending[k - 1].sequence_number != d.next + k
    ensures i' < 0 ==> Has(d'.log, |d.log|, d.pending[i])
    ensures i' >= 0 ==> Settled(d') && NotBehind(d') && i' < Rising(d'.pending)
    ensures i' >= 0 ==> d'.pending[i'] == d.pending[i] && d.pending[i].sequence_number >= d'.next
  {
    if i < k - 1 {
      HasNow(d, f, d', k, i);
      i' := -1;
    } else {
      StillRising(d, d', k, i);
      i' := i - (k - 1);
    }
  }

  lemma ObtainsBy(d: Delivery, types: seq<nat>, more: seq<Event>, r: Delivery, e: Event)
    requires Listed(types, more) && Run(d, more) == r && Has(r.log, |d.log|, e)
    ensures Obtains(d, types, e)
  {
  }

  lemma ObtainsLater(d: Delivery, types: seq<nat>, now: seq<Event>, d': Delivery, e: Event)
    requires Run(d, now) == d' && Listed(types, now) && |d'.log| >= |d.log| && Obtains(d', types, e)
    ensures Obtains(d, types, e)
  {
    var rest := What(d', types, e);
    RunConcat(d, now, rest);
    ThenObtains(d, types, now, d', rest, Run(d', rest), e);
  }

  lemma What(d: Delivery, types: seq<nat>, e: Event) returns (more: seq<Event>)
    requires Obtains(d, types, e)
    ensures Listed(types, more) && Has(Run(d, more).log, |d.log|, e)
  {
    more :| Listed(types, more) && Has(Run(d, more).log, |d.log|, e);
  }

  lemma ThenObtains(d: Delivery, types: seq<nat>, now: seq<Event>, d': Delivery, rest: seq<Event>, r: Delivery,
                    e: Event)
    requires Listed(types, now) && Listed(types, rest) && |d'.log| >= |d.log|
    requires Run(d, now + rest) == r && Has(r.log, |d'.log|, e)
    ensures Obtains(d, types, e)
  {
    HasIff(r.log, |d'.log|, e);
    HasIff(r.log, |d.log|, e);
    ObtainsBy(d, types, now + rest, r, e);
  }

  lemma HasNow(d: Delivery, f: Event, d': Delivery, k: nat, i: nat)
    requires i < k - 1 <= |d.pending| && d'.log == d.log + ([f] + d.pending[..k - 1])
    ensures Has(d'.log, |d.log|, d.pending[i])
  {
    HasIff(d'.log, |d.log|, d.pending[i]);
    assert d'.log[|d.log| + 1 + i] == d.pending[i];
  }

  lemma OneArrival(d: Delivery, f: Event)
    ensures Run(d, [f]) == Arrive(d, f)
  {
    assert [f][..0] == [];
  }

  /** The number that is missing comes, and is released with the `k - 1` events that follow
      it in the buffer. */
  lemma NextArrives(d: Delivery, types: seq<nat>) returns (now: seq<Event>, k: nat, d': Delivery)
    requires Settled(d) && NotBehind(d) && types != []
    ensures Listed(types, now) && |now| == 1 && Run(d, now) == d' && 0 < k <= |d.pending| + 1
    ensures d' == Delivery(d.next + k, d.pending[k - 1..], d.log + ([now[0]] + d.pending[..k - 1]))
    ensures k > 1 ==> d.pending[k - 2].sequence_number == d.next + k - 1
    ensures k - 1 < |d.pending| ==> d.pending[k - 1].sequence_number != d.next + k
  {
    var f := Event(0, 0, types[0], d.next);
    now := [f];
    OneArrival(d, f);
    k := FrontReady(d, f);
    d' := Arrive(d, f);
  }

  lemma FrontReady(d: Delivery, f: Event) returns (k: nat)
    requires Settled(d) && NotBehind(d) && f.sequence_number == d.next
    ensures 0 < k <= |d.pending| + 1
    ensures Arrive(d, f) == Delivery(d.next + k, d.pending[k - 1..], d.log + ([f] + d.pending[..k - 1]))
    ensures k > 1 ==> d.pending[k - 2].sequence_number == d.next + k - 1
    ensures k - 1 < |d.pending| ==> d.pending[k - 1].sequence_number != d.next + k
  {
    NextInFront(d, f);
    k := ReleaseFront(d.next, f, d.pending, d.log);
  }

  lemma ReleaseFront(next: int, f: Event, pending: seq<Event>, log: seq<Event>) returns (k: nat)
    requires f.sequence_number == next
    ensures 0 < k <= |pending| + 1
    ensures Release(next, [f] + pending, log) == Delivery(next + k, pending[k - 1..], log + ([f] + pending[..k - 1]))
    ensures k > 1 ==> pending[k - 2].sequence_number == next + k - 1
    ensures k - 1 < |pending| ==> pending[k - 1].sequence_number != next + k
  {
    var q := [f] + pending;
    k := Ready(next, q);
    assert q[0] == f;
    assert k > 1 ==> q[k - 1] == pending[k - 2];
    assert k < |q| ==> q[k] == pending[k - 1];
    FrontReleased(f, pending, k);
  }

  lemma NextInFront(d: Delivery, f: Event)
    requires NotBehind(d) && f.sequence_number == d.next
    ensures Inserted(d.pending, f) == [f] + d.pending
  {
    assert d.pending != [] ==> d.pending[0] in d.pending;
    assert Position(d.pending, d.next) == 0;
  }

  lemma FrontReleased(f: Event, pending: seq<Event>, k: nat)
    requires 0 < k <= |pending| + 1
    ensures ([f] + pending)[k..] == pending[k - 1..] && ([f] + pending)[..k] == [f] + pending[..k - 1]
  {
  }

  /** After the front is released, the rest is as before. */
  lemma StillRising(d: Delivery, d': Delivery, k: nat, i: nat)
    requires Settled(d) && NotBehind(d) && 0 < k <= i + 1 && i < Rising(d.pending)
    requires d'.pending == d.pending[k - 1..] && d'.next == d.next + k
    requires k > 1 ==> d.pending[k - 2].sequence_number == d.next + k - 1
    requires d.pending[k - 1].sequence_number != d.next + k
    ensures Settled(d') && NotBehind(d') && i - (k - 1) < Rising(d'.pending)
    ensures d'.pending[i - (k - 1)] == d.pending[i] && d.pending[i].sequence_number >= d'.next
  {
    RestIsBeyond(d, k, i);
    SuffixRising(d.pending, k - 1, i);
    SuffixAhead(d, d', k - 1);
    assert d'.pending[i - (k - 1)] in d'.pending;
  }

  lemma RestIsBeyond(d: Delivery, k: nat, i: nat)
    requires Settled(d) && NotBehind(d) && 0 < k <= i + 1 && i < Rising(d.pending)
    requires k > 1 ==> d.pending[k - 2].sequence_number == d.next + k - 1
    requires d.pending[k - 1].sequence_number != d.next + k
    ensures d.pending[k - 1].sequence_number > d.next + k
  {
    assert d.pending[0] in d.pending;
    if k > 1 {
      SuffixRising(d.pending, k - 2, i);
    }
  }

  lemma SuffixAhead(d: Delivery, d': Delivery, m: nat)
    requires Sorted(d.pending) && m < |d.pending| && d'.pending == d.pending[m..]
    requires d.pending[m].sequence_number > d'.next
    ensures Settled(d') && NotBehind(d')
  {
    forall e | e in d'.pending
      ensures e.sequence_number >= d'.next
    {
      var j :| 0 <= j < |d'.pending| && d'.pending[j] == e;
      assert d'.pending[j] == d.pending[m + j];
    }
  }

  lemma {:induction false} SuffixRising(pending: seq<Event>, m: nat, i: nat)
    requires m <= i < Rising(pending)
    ensures i - m < Rising(pending[m..]) && pending[m..][i - m] == pending[i]
    ensures m < i ==> pending[m].sequence_number < pending[m + 1].sequence_number
    decreases m
  {
    if m > 0 {
      SuffixRising(pending[1..], m - 1, i - 1);
      assert pending[1..][m - 1..] == pending[m..];
    } else {
      assert pending[0..] == pending;
    }
  }

  lemma LiveStaysListedIff(d: Delivery, types: seq<nat>)
    requires Settled(d) && NotBehind(d) && types != []
    ensures StaysListed(d, types) <==> Listed(types, d.pending[..Rising(d.pending)])
  {
    if Listed(types, d.pending[..Rising(d.pending)]) {
      forall more | Listed(types, more)
        ensures ReleasesListed(d, types, more)
      {
        ListedStaysListed(d, types, more);
      }
    }
    if StaysListed(d, types) {
      forall i | 0 <= i < Rising(d.pending)
        ensures d.pending[i].event_type in types
      {
        Reaches(d, types, i);
        var more :| Listed(types, more) && Has(Run(d, more).log, |d.log|, d.pending[i]);
        HasIff(Run(d, more).log, |d.log|, d.pending[i]);
        assert ReleasesListed(d, types, more);
      }
    }
  }

  /** After a subscription to other types, only listed events are released whatever listed
      events arrive, if and only if no type is listed at all, or the session is blocked, or all
      events that were buffered before the first repeated number are listed. */
  lemma StaysListedIff(d: Delivery, types: seq<nat>)
    requires Settled(d)
    ensures StaysListed(d, types) <==> types == [] || Stale(d) || Listed(types, d.pending[..Rising(d.pending)])
  {
    if types == [] {
      forall more | Listed(types, more)
        ensures ReleasesListed(d, types, more)
      {
        NothingListed(more);
      }
    } else if Stale(d) {
      forall more | Listed(types, more)
        ensures ReleasesListed(d, types, more)
      {
        StaleBlocks(d, more);
      }
    } else {
      AllAhead(d);
      LiveStaysListedIff(d, types);
    }
  }

  lemma NothingListed(more: seq<Event>)
    ensures Listed([], more) <==> more == []
  {
    if more != [] {
      assert more[0].event_type !in [];
    }
  }

  lemma AllAhead(d: Delivery)
    requires Settled(d) && !Stale(d)
    ensures NotBehind(d)
  {
    forall e | e in d.pending
      ensures e.sequence_number >= d.next
    {
      var i :| 0 <= i < |d.pending| && d.pending[i] == e;
    }
  }

  /** Number 2 is buffered when the client subscribes again, to another type: the listed number
      1 then releases it, too. */
  lemma BufferedTypeSlipsThrough(one: Event, two: Event)
    requires one.sequence_number == 1 && two.sequence_number == 2 && one.event_type != two.event_type
    ensures Run(START, [two]) == Delivery(1, [two], []) && !StaysListed(Run(START, [two]), [one.event_type])
    ensures Run(Run(START, [two]), [one]).log == [one, two]
  {
    TwoWaits(two);
    OneReleasesBoth(one, two);
    OneArrival(Delivery(1, [two], []), one);
    NotStaying(Delivery(1, [two], []), one, two);
  }

  lemma TwoWaits(two: Event)
    requires two.sequence_number == 2
    ensures Run(START, [two]) == Delivery(1, [two], [])
  {
    OneArrival(START, two);
    assert Inserted([], two) == [two] && Ready(1, [two]) == 0;
    assert [two][0..] == [two] && [] + [two][..0] == [];
  }

  lemma OneReleasesBoth(one: Event, two: Event)
    requires one.sequence_number == 1 && two.sequence_number == 2
    ensures Arrive(Delivery(1, [two], []), one) == Delivery(3, [], [one, two])
  {
    assert Inserted([two], one) == [one, two];
    assert [one, two][1..] == [two] && [two][1..] == [];
    assert Ready(3, []) == 0 && Ready(2, [two]) == 1 && Ready(1, [one, two]) == 2;
    assert [] + [one, two][..2] == [one, two] && [one, two][2..] == [];
  }

  lemma NotStaying(d: Delivery, one: Event, two: Event)
    requires d.log == [] && Run(d, [one]).log == [one, two] && one.event_type != two.event_type
    ensures !StaysListed(d, [one.event_type])
  {
    assert Listed([one.event_type], [one]);
    assert !ReleasesListed(d, [one.event_type], [one]) by {
      assert Run(d, [one]).log[1] == two;
    }
  }
}
