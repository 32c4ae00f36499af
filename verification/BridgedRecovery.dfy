/** The bridge of src/store/event-store.ts into the store of src/store/persistence.ts: what a
    restart gives back of the events that the stream has recorded. */
module BridgedRecovery {
  import opened Deliveries
  import opened EventLogs
  import opened Persistence
  import opened Sequences
  import opened StableSorting

  // ---------------------------------------------------------------- sorting by number

  /** Logs with strictly increasing numbers have only one ascending order. */
  lemma {:induction false} SortedIsLog(a: seq<Event>, log: seq<Event>)
    requires Ascending(a, SequenceKey()) && Increasing(log) && multiset(a) == multiset(log)
    ensures a == log
    decreases |log|
  {
    assert |a| == |multiset(a)| && |log| == |multiset(log)|;
    if log != [] {
      var n := |log| - 1;
      SameLast(a, log);
      IncreasingFront(log);
      WithoutLast(a);
      WithoutLast(log);
      AscendingFrontOf(a);
      SortedIsLog(a[..n], log[..n]);
      SplitLast(a);
      SplitLast(log);
    }
  }

  lemma WithoutLast(s: seq<Event>)
    requires s != []
    ensures multiset(s[..|s| - 1]) == multiset(s) - multiset{s[|s| - 1]}
  {
    SplitLast(s);
  }

  lemma AscendingFrontOf(s: seq<Event>)
    requires s != [] && Ascending(s, SequenceKey())
    ensures Ascending(s[..|s| - 1], SequenceKey())
  {
    assert forall i :: 0 <= i < |s| - 1 ==> s[..|s| - 1][i] == s[i];
  }

  lemma IncreasingFront(log: seq<Event>)
    requires log != [] && Increasing(log)
    ensures Increasing(log[..|log| - 1])
  {
    assert forall i :: 0 <= i < |log| - 1 ==> log[..|log| - 1][i] == log[i];
  }

  lemma SameLast(a: seq<Event>, log: seq<Event>)
    requires Ascending(a, SequenceKey()) && Increasing(log) && multiset(a) == multiset(log)
    requires |a| == |log| > 0
    ensures a[|a| - 1] == log[|log| - 1]
  {
    var n := |log| - 1;
    assert a[n] in multiset(log) && log[n] in multiset(a);
    var i :| 0 <= i <= n && log[i] == a[n];
    var j :| 0 <= j <= n && a[j] == log[n];
    assert SequenceKey()(a[j]) <= SequenceKey()(a[n]);
  }

  lemma SortIsLogIff(events: seq<Event>, log: seq<Event>)
    requires Increasing(log)
    ensures Sort(events, SequenceKey()) == log <==> multiset(events) == multiset(log)
  {
    SortMultiset(events, SequenceKey());
    SortAscending(events, SequenceKey());
    if multiset(events) == multiset(log) {
      SortedIsLog(Sort(events, SequenceKey()), log);
    }
  }

  // ------------------------------------------------------------ the events of a session

  ghost predicate SameOf(a: seq<Event>, b: seq<Event>, s: nat) {
    multiset(Of(a, s)) == multiset(Of(b, s))
  }

  /** Two lists have the same events of every session if and only if they have the same events. */
  lemma SameOfEachIff(a: seq<Event>, b: seq<Event>)
    ensures (forall s :: SameOf(a, b, s)) <==> multiset(a) == multiset(b)
  {
    if multiset(a) == multiset(b) {
      forall s
        ensures SameOf(a, b, s)
      {
        OfSame(a, b, s);
      }
    }
    if forall s :: SameOf(a, b, s) {
      forall e: Event
        ensures multiset(a)[e] == multiset(b)[e]
      {
        OfMultiset(a, e);
        OfMultiset(b, e);
        assert SameOf(a, b, e.session_id);
      }
      assert multiset(a) == multiset(b);
    }
  }

  lemma AddedSame(log: seq<Event>, a: seq<Event>, b: seq<Event>)
    ensures multiset(log + a) == multiset(log + b) <==> multiset(a) == multiset(b)
  {
    assert multiset(a) == multiset(log + a) - multiset(log);
    assert multiset(b) == multiset(log + b) - multiset(log);
  }

  lemma NoCutsIff(ds: seq<Delivery>)
    ensures multiset(ReceivedAll(ds)) == multiset(RecordedAll(ds)) <==> CutsAll(ds) == 0
  {
    CutsCostAll(ds);
    assert |ReceivedAll(ds)| == |multiset(ReceivedAll(ds))| && |RecordedAll(ds)| == |multiset(RecordedAll(ds))|;
    if CutsAll(ds) == 0 {
      NoCutsNoLossAll(ds);
    }
  }

  // ----------------------------------------------------------------------- the recovery

  /** The stream's logs after `ds`, when it held `logs` as the bridge was connected. */
  function StreamLogs(logs: Logs, ds: seq<Delivery>): Logs {
    AppendAll(logs, RecordedAll(ds))
  }

  ghost predicate AllNumbered(logs: Logs) {
    forall s :: s in logs ==> NumberedLog(logs[s], s)
  }

  /** What the persistent store has been through, session by session: it was given the logs
      that the stream held, and then what the bridge received; no snapshot was taken, and the
      process may have been restarted at any time. */
  ghost predicate Fed(steps: nat -> seq<Step>, logs: Logs, ds: seq<Delivery>) {
    forall s :: NoSnapshot(steps(s)) && Given(steps(s)) == LogOf(logs, s) + Of(ReceivedAll(ds), s)
  }

  /** A restart gives the stream's log of the session back. */
  ghost predicate Restores(steps: nat -> seq<Step>, logs: Logs, ds: seq<Delivery>, s: nat) {
    Restarted(Run(s, steps(s))).cache == LogOf(StreamLogs(logs, ds), s)
  }

  lemma RestoresIff(steps: nat -> seq<Step>, logs: Logs, ds: seq<Delivery>, s: nat)
    requires AllNumbered(StreamLogs(logs, ds)) && Fed(steps, logs, ds)
    ensures Restores(steps, logs, ds, s) <==> SameOf(ReceivedAll(ds), RecordedAll(ds), s)
  {
    NoSnapshotFullLog(s, steps(s));
    AppendAllLogs(logs, RecordedAll(ds), s);
    SortIsLogIff(Given(steps(s)), LogOf(StreamLogs(logs, ds), s));
    AddedSame(LogOf(logs, s), Of(ReceivedAll(ds), s), Of(RecordedAll(ds), s));
  }

  /** A restart gives back every session's log as the stream has recorded it if and only if no
      subscriber called before the bridge threw. The order in which nested events reach the
      store does not matter, since recovery sorts by number; an event that the bridge was not
      called for does not come back. */
  lemma RestartRestoresStreamIff(steps: nat -> seq<Step>, logs: Logs, ds: seq<Delivery>)
    requires AllNumbered(StreamLogs(logs, ds)) && Fed(steps, logs, ds)
    ensures (forall s :: Restores(steps, logs, ds, s)) <==> CutsAll(ds) == 0
  {
    forall s
      ensures Restores(steps, logs, ds, s) <==> SameOf(ReceivedAll(ds), RecordedAll(ds), s)
    {
      RestoresIff(steps, logs, ds, s);
    }
    SameOfEachIff(ReceivedAll(ds), RecordedAll(ds));
    NoCutsIff(ds);
    if forall s :: Restores(steps, logs, ds, s) {
      forall s
        ensures SameOf(ReceivedAll(ds), RecordedAll(ds), s)
      {
        assert Restores(steps, logs, ds, s);
      }
    }
  }
}
