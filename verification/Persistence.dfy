/** src/store/persistence.ts: the event store with a JSONL log and snapshots on
    disk, and recovery after a restart. */
module Persistence {
  import opened EventLogs
  import opened Optional
  import opened Sequences
  import opened StableSorting

  datatype Snapshot = Snapshot(session_id: nat, sequence_number: int, state: nat)

  /** A line of a log file: the JSON of an event, or text that does not parse. */
  datatype Line = Json(event: Event) | Corrupted

  function SequenceKey(): Event -> int {
    (e: Event) => e.sequence_number
  }

  function Parsed(lines: seq<Line>): seq<Event> {
    if lines == [] then []
    else if lines[|lines| - 1].Corrupted? then Parsed(lines[..|lines| - 1])
    else Parsed(lines[..|lines| - 1]) + [lines[|lines| - 1].event]
  }

  /** `events.filter(e => e.sequence_number > n)` */
  function After(events: seq<Event>, n: int): seq<Event> {
    if events == [] then []
    else if events[|events| - 1].sequence_number > n then After(events[..|events| - 1], n) + [events[|events| - 1]]
    else After(events[..|events| - 1], n)
  }

  // ---------------------------------------------------- one session, as a value

  /** What is on disk for a session (`lines`, `disk`) and in memory (`cache`,
      `known`). Sessions do not affect each other. */
  datatype Session = Session(lines: seq<Line>, disk: Option<Snapshot>, cache: seq<Event>, known: Option<Snapshot>)

  const EMPTY := Session([], None, [], None)

  function Stored(s: Session, e: Event): Session {
    s.(lines := s.lines + [Json(e)], cache := s.cache + [e])
  }

  function LastNumber(events: seq<Event>): int {
    if events == [] then 0 else events[|events| - 1].sequence_number
  }

  function Snapped(s: Session, id: nat, state: nat): Session {
    var snapshot := Some(Snapshot(id, LastNumber(s.cache), state));
    s.(disk := snapshot, known := snapshot)
  }

  function Number(snapshot: Option<Snapshot>): int {
    if snapshot.Some? then snapshot.value.sequence_number else 0
  }

  function RecoveredEvents(lines: seq<Line>, snapshot: Option<Snapshot>): seq<Event> {
    var events := Sort(Parsed(lines), SequenceKey());
    if snapshot.Some? then After(events, snapshot.value.sequence_number) else events
  }

  /** A new process. Only sessions with a log file are found, so a snapshot of a
      session without events is not. */
  function Restarted(s: Session): Session {
    if s.lines == [] then s.(cache := [], known := None)
    else s.(cache := RecoveredEvents(s.lines, s.disk), known := s.disk)
  }

  /** What a reader works from: the events after the latest snapshot, or all events
      if there is none. */
  function View(s: Session): seq<Event> {
    if s.known.Some? then After(s.cache, s.known.value.sequence_number) else s.cache
  }

  datatype Step = Store(e: Event) | TakeSnapshot(state: nat) | Restart

  function Take(s: Session, id: nat, step: Step): Session {
    match step
    case Store(e) => Stored(s, e)
    case TakeSnapshot(state) => Snapped(s, id, state)
    case Restart => Restarted(s)
  }

  function Run(id: nat, steps: seq<Step>): Session {
    if steps == [] then EMPTY else Take(Run(id, steps[..|steps| - 1]), id, steps[|steps| - 1])
  }

  /** All events the session was ever given. */
  function Given(steps: seq<Step>): seq<Event> {
    if steps == [] then []
    else if steps[|steps| - 1].Store? then Given(steps[..|steps| - 1]) + [steps[|steps| - 1].e]
    else Given(steps[..|steps| - 1])
  }

  ghost predicate Increasing(events: seq<Event>) {
    && (forall i :: 0 <= i < |events| ==> events[i].sequence_number >= 1)
    && (forall i, j :: 0 <= i < j < |events| ==> events[i].sequence_number < events[j].sequence_number)
  }

  // --------------------------------------------------------------- filtering

  lemma {:induction false} AfterAll(events: seq<Event>, n: int)
    requires forall i :: 0 <= i < |events| ==> events[i].sequence_number > n
    ensures After(events, n) == events
  {
    if events != [] {
      AfterAll(events[..|events| - 1], n);
      SplitLast(events);
    }
  }

  lemma {:induction false} AfterNone(events: seq<Event>, n: int)
    requires forall i :: 0 <= i < |events| ==> events[i].sequence_number <= n
    ensures After(events, n) == []
  {
    if events != [] {
      AfterNone(events[..|events| - 1], n);
    }
  }

  lemma {:induction false} AfterIdempotent(events: seq<Event>, n: int)
    ensures After(After(events, n), n) == After(events, n)
  {
    if events != [] {
      var rest, e := events[..|events| - 1], events[|events| - 1];
      AfterIdempotent(rest, n);
      if e.sequence_number > n {
        assert (After(rest, n) + [e])[..|After(rest, n)|] == After(rest, n);
      }
    }
  }

  lemma AfterAppend(events: seq<Event>, e: Event, n: int)
    ensures After(events + [e], n) == if e.sequence_number > n then After(events, n) + [e] else After(events, n)
  {
    assert (events + [e])[..|events|] == events;
  }

  ghost predicate IsSuffix(a: seq<Event>, b: seq<Event>) {
    |a| <= |b| && b[|b| - |a|..] == a
  }

  lemma {:induction false} AfterIsSuffix(events: seq<Event>, n: int)
    requires Increasing(events)
    ensures IsSuffix(After(events, n), events)
  {
    if events != [] {
      var m := |events| - 1;
      AfterIsSuffix(events[..m], n);
      if events[m].sequence_number > n {
        var a := After(events[..m], n);
        assert events[..m][m - |a|..] + [events[m]] == events[m - |a|..];
      } else {
        AfterNone(events[..m], n);
      }
    }
  }

  lemma SuffixAppend(a: seq<Event>, b: seq<Event>, e: Event)
    requires IsSuffix(a, b)
    ensures IsSuffix(a + [e], b + [e])
  {
    assert (b + [e])[|b| - |a|..] == b[|b| - |a|..] + [e];
  }

  // -------------------------------------------------------------- the invariant

  lemma ParsedAppend(lines: seq<Line>, e: Event)
    ensures Parsed(lines + [Json(e)]) == Parsed(lines) + [e]
  {
    assert (lines + [Json(e)])[..|lines|] == lines;
  }

  lemma SortIncreasing(events: seq<Event>)
    requires Increasing(events)
    ensures Sort(events, SequenceKey()) == events
  {
    SortOfAscending(events, SequenceKey());
  }

  /** Holds in every run of in-order stores, whenever snapshots are taken. */
  ghost predicate Sound(s: Session, log: seq<Event>) {
    && Increasing(log) && Parsed(s.lines) == log && (s.lines == [] <==> log == [])
    && IsSuffix(s.cache, log)
    && 0 <= Number(s.disk) <= LastNumber(log)
    && (s.known == s.disk || (s.known == None && Number(s.disk) == 0))
  }

  lemma SoundStore(s: Session, log: seq<Event>, e: Event)
    requires Sound(s, log) && Increasing(log + [e])
    ensures Sound(Stored(s, e), log + [e])
  {
    ParsedAppend(s.lines, e);
    SuffixAppend(s.cache, log, e);
    assert (log + [e])[|log|].sequence_number >= 1;
    if log != [] {
      assert (log + [e])[|log| - 1] == log[|log| - 1];
    }
  }

  lemma SoundSnapshot(s: Session, log: seq<Event>, id: nat, state: nat)
    requires Sound(s, log)
    ensures Sound(Snapped(s, id, state), log)
    ensures s.cache != [] ==> LastNumber(s.cache) == LastNumber(log)
  {
    if s.cache != [] {
      assert s.cache[|s.cache| - 1] == log[|log| - 1];
    }
  }

  lemma RecoveredIs(s: Session, log: seq<Event>)
    requires Sound(s, log)
    ensures RecoveredEvents(s.lines, s.disk) == After(log, Number(s.disk))
  {
    SortIncreasing(log);
    AfterAll(log, 0);
  }

  lemma SoundRestart(s: Session, log: seq<Event>)
    requires Sound(s, log)
    ensures Sound(Restarted(s), log)
  {
    RecoveredIs(s, log);
    AfterIsSuffix(log, Number(s.disk));
  }

  lemma {:induction false} RunSound(id: nat, steps: seq<Step>)
    requires Increasing(Given(steps))
    ensures Sound(Run(id, steps), Given(steps))
  {
    if steps != [] {
      var n := |steps| - 1;
      var s, log := Run(id, steps[..n]), Given(steps[..n]);
      GivenIncreasing(steps);
      RunSound(id, steps[..n]);
      match steps[n]
      case Store(e) => SoundStore(s, log, e);
      case TakeSnapshot(state) => SoundSnapshot(s, log, id, state);
      case Restart => SoundRestart(s, log);
    }
  }

  lemma GivenIncreasing(steps: seq<Step>)
    requires steps != [] && Increasing(Given(steps))
    ensures Increasing(Given(steps[..|steps| - 1]))
  {
    var h := Given(steps[..|steps| - 1]);
    assert forall i :: 0 <= i < |h| ==> Given(steps)[i] == h[i];
  }

  // ------------------------------------------------------------------ recovery

  lemma {:induction false} ParsedKeepsAll(lines: seq<Line>, e: Event)
    ensures multiset(Parsed(lines))[e] == multiset(lines)[Json(e)]
  {
    if lines != [] {
      ParsedKeepsAll(lines[..|lines| - 1], e);
      SplitLast(lines);
    }
  }

  lemma {:induction false} AfterKeeps(events: seq<Event>, n: int, e: Event)
    ensures multiset(After(events, n))[e] == if e.sequence_number > n then multiset(events)[e] else 0
  {
    if events != [] {
      AfterKeeps(events[..|events| - 1], n, e);
      SplitLast(events);
    }
  }

  lemma {:induction false} AfterAscending(events: seq<Event>, n: int)
    requires Ascending(events, SequenceKey())
    ensures Ascending(After(events, n), SequenceKey())
    ensures forall e :: e in After(events, n) ==> e in events
  {
    if events != [] {
      var front := events[..|events| - 1];
      assert forall i :: 0 <= i < |front| ==> front[i] == events[i];
      AfterAscending(front, n);
      LastIsLargest(events, After(front, n));
    }
  }

  lemma LastIsLargest(events: seq<Event>, part: seq<Event>)
    requires events != [] && Ascending(events, SequenceKey()) && Ascending(part, SequenceKey())
    requires forall e :: e in part ==> e in events
    ensures Ascending(part + [events[|events| - 1]], SequenceKey())
  {
    forall i | 0 <= i < |part|
      ensures SequenceKey()(part[i]) <= SequenceKey()(events[|events| - 1])
    {
      assert part[i] in events;
      var j :| 0 <= j < |events| && events[j] == part[i];
    }
  }

  /** Recovery keeps every event whose line parses, as often as it was written and wherever
      corrupted lines stand, except those that the snapshot covers; and orders them by number. */
  lemma RecoveryKeeps(lines: seq<Line>, snapshot: Option<Snapshot>, e: Event)
    ensures multiset(RecoveredEvents(lines, snapshot))[e]
         == if snapshot.Some? && e.sequence_number <= snapshot.value.sequence_number then 0
            else multiset(lines)[Json(e)]
    ensures Ascending(RecoveredEvents(lines, snapshot), SequenceKey())
  {
    var events := Sort(Parsed(lines), SequenceKey());
    ParsedKeepsAll(lines, e);
    SortMultiset(Parsed(lines), SequenceKey());
    SortAscending(Parsed(lines), SequenceKey());
    if snapshot.Some? {
      AfterKeeps(events, snapshot.value.sequence_number, e);
      AfterAscending(events, snapshot.value.sequence_number);
    }
  }

  /** What the disk would give back. */
  ghost predicate Recoverable(s: Session, log: seq<Event>) {
    View(s) == After(log, Number(s.disk))
  }

  lemma ViewAfterRestart(s: Session, log: seq<Event>)
    requires Sound(s, log)
    ensures View(Restarted(s)) == After(log, Number(s.disk))
  {
    RecoveredIs(s, log);
    AfterIdempotent(log, Number(s.disk));
    if s.lines == [] {
      AfterAll(log, Number(s.disk));
    } else if s.disk == None {
      AfterAll(log, 0);
    }
  }

  /** A snapshot leaves the session recoverable if and only if it is not taken while
      the cache is empty although events were stored: then it records number 0. */
  lemma SnapshotRecoverableIff(s: Session, log: seq<Event>, id: nat, state: nat)
    requires Sound(s, log)
    ensures Recoverable(Snapped(s, id, state), log) <==> s.cache != [] || log == []
  {
    SoundSnapshot(s, log, id, state);
    var n := LastNumber(s.cache);
    AfterNone(s.cache, n) by {
      assert forall i :: 0 <= i < |s.cache| ==> s.cache[i] == log[|log| - |s.cache| + i];
    }
    if s.cache != [] {
      AfterNone(log, n);
    } else {
      AfterAll(log, 0);
    }
  }

  lemma StoreRecoverable(s: Session, log: seq<Event>, e: Event)
    requires Sound(s, log) && Increasing(log + [e])
    ensures Recoverable(Stored(s, e), log + [e]) <==> Recoverable(s, log)
  {
    AfterAppend(log, e, Number(s.disk));
    AfterAppend(s.cache, e, Number(s.disk));
    assert (log + [e])[|log|] == e;
    if log != [] {
      assert (log + [e])[|log| - 1] == log[|log| - 1];
    }
    AppendInjective(View(s), After(log, Number(s.disk)), e);
  }

  lemma AppendInjective(a: seq<Event>, b: seq<Event>, e: Event)
    ensures a + [e] == b + [e] <==> a == b
  {
    assert (a + [e])[..|a|] == a && (b + [e])[..|b|] == b;
  }

  /** Step `i` takes a snapshot of an empty cache over stored events. */
  ghost predicate EmptySnapshot(id: nat, steps: seq<Step>, i: nat)
    requires i < |steps|
  {
    steps[i].TakeSnapshot? && Run(id, steps[..i]).cache == [] && Given(steps[..i]) != []
  }

  /** The last snapshot or restart of the run is such a snapshot. */
  ghost predicate EndsEmpty(id: nat, steps: seq<Step>) {
    exists i :: 0 <= i < |steps| && EmptySnapshot(id, steps, i) && OnlyStores(steps, i + 1)
  }

  ghost predicate OnlyStores(steps: seq<Step>, start: nat) {
    forall k :: start <= k < |steps| ==> steps[k].Store?
  }

  lemma EndsEmptyStep(id: nat, steps: seq<Step>)
    requires steps != []
    ensures EndsEmpty(id, steps) <==>
      var n := |steps| - 1;
      EmptySnapshot(id, steps, n) || (steps[n].Store? && EndsEmpty(id, steps[..n]))
  {
    var n := |steps| - 1;
    if EmptySnapshot(id, steps, n) {
      assert OnlyStores(steps, n + 1);
    }
    forall i | 0 <= i < n
      ensures EmptySnapshot(id, steps[..n], i) <==> EmptySnapshot(id, steps, i)
      ensures OnlyStores(steps, i + 1) <==> steps[n].Store? && OnlyStores(steps[..n], i + 1)
    {
      assert steps[..n][..i] == steps[..i];
      assert forall k :: 0 <= k < n ==> steps[..n][k] == steps[k];
    }
  }

  /** A session can be recovered at the end of a run exactly when the run does not end that
      way. */
  lemma {:induction false} RunRecoverableIff(id: nat, steps: seq<Step>)
    requires Increasing(Given(steps))
    ensures Recoverable(Run(id, steps), Given(steps)) <==> !EndsEmpty(id, steps)
  {
    if steps != [] {
      var n := |steps| - 1;
      var s, log := Run(id, steps[..n]), Given(steps[..n]);
      GivenIncreasing(steps);
      RunRecoverableIff(id, steps[..n]);
      RunSound(id, steps[..n]);
      EndsEmptyStep(id, steps);
      StepRecoverable(id, s, log, steps[n]);
    }
  }

  /** A store changes nothing about it, a snapshot decides it, a restart restores it. */
  lemma StepRecoverable(id: nat, s: Session, log: seq<Event>, step: Step)
    requires Sound(s, log) && (step.Store? ==> Increasing(log + [step.e]))
    ensures
      var log' := if step.Store? then log + [step.e] else log;
      Recoverable(Take(s, id, step), log')
      <==> (step.Store? ==> Recoverable(s, log)) && (step.TakeSnapshot? ==> s.cache != [] || log == [])
  {
    match step
    case Store(e) => StoreRecoverable(s, log, e);
    case TakeSnapshot(state) => SnapshotRecoverableIff(s, log, id, state);
    case Restart => ViewAfterRestart(s, log);
  }

  /** Recovery: after any run of in-order stores, snapshots and restarts, a restart preserves
      the events after the latest snapshot if and only if the last snapshot or restart of the
      run was not a snapshot of an empty cache over stored events. */
  lemma RestartPreservesViewIff(id: nat, steps: seq<Step>)
    requires Increasing(Given(steps))
    ensures View(Restarted(Run(id, steps))) == View(Run(id, steps)) <==> !EndsEmpty(id, steps)
  {
    RunRecoverableIff(id, steps);
    RunSound(id, steps);
    ViewAfterRestart(Run(id, steps), Given(steps));
  }

  /** The excluded step does break it: a snapshot of an empty cache hides nothing,
      so the next restart brings back every event ever stored. */
  lemma EmptySnapshotResurrects(s: Session, log: seq<Event>, id: nat, state: nat)
    requires Sound(s, log) && s.cache == [] && log != []
    ensures View(Snapped(s, id, state)) == [] && View(Restarted(Snapped(s, id, state))) == log
  {
    SoundSnapshot(s, log, id, state);
    ViewAfterRestart(Snapped(s, id, state), log);
    AfterAll(log, 0);
  }

  /** Such a cache is what a snapshot and a restart leave. */
  lemma SnapshotThenRestartEmpties(s: Session, log: seq<Event>, id: nat, state: nat)
    requires Sound(s, log) && s.cache != []
    ensures Restarted(Snapped(s, id, state)).cache == []
  {
    SoundSnapshot(s, log, id, state);
    RecoveredIs(Snapped(s, id, state), log);
    AfterNone(log, LastNumber(log));
  }

  predicate NoSnapshot(steps: seq<Step>) {
    forall i :: 0 <= i < |steps| ==> !steps[i].TakeSnapshot?
  }

  /** Without snapshots, whatever the order of the stores: the cache holds what was stored, a
      restart sorts it by number, and stores in order are found in order at any time. */
  lemma {:induction false} NoSnapshotFullLog(id: nat, steps: seq<Step>)
    requires NoSnapshot(steps)
    ensures
      var s, given := Run(id, steps), Given(steps);
      && s.disk == None && s.known == None && multiset(s.cache) == multiset(given)
      && Restarted(s).cache == Sort(given, SequenceKey())
      && (Ascending(given, SequenceKey()) ==> s.cache == given)
  {
    NoSnapshotLines(id, steps);
    if steps != [] {
      var n := |steps| - 1;
      NoSnapshotLines(id, steps[..n]);
      NoSnapshotFullLog(id, steps[..n]);
      SortMultiset(Given(steps[..n]), SequenceKey());
      if Ascending(Given(steps), SequenceKey()) {
        AscendingFront(steps);
      }
      if Ascending(Given(steps[..n]), SequenceKey()) {
        SortOfAscending(Given(steps[..n]), SequenceKey());
      }
    }
  }

  lemma {:induction false} NoSnapshotLines(id: nat, steps: seq<Step>)
    requires NoSnapshot(steps)
    ensures var s := Run(id, steps);
      Parsed(s.lines) == Given(steps) && s.disk == None && (s.lines == [] <==> Given(steps) == [])
  {
    if steps != [] {
      var n := |steps| - 1;
      NoSnapshotLines(id, steps[..n]);
      if steps[n].Store? {
        ParsedAppend(Run(id, steps[..n]).lines, steps[n].e);
      }
    }
  }

  lemma AscendingFront(steps: seq<Step>)
    requires steps != [] && Ascending(Given(steps), SequenceKey())
    ensures Ascending(Given(steps[..|steps| - 1]), SequenceKey())
  {
    var front := Given(steps[..|steps| - 1]);
    assert forall i :: 0 <= i < |front| ==> Given(steps)[i] == front[i];
  }

  /** So a restart gives back the events in the order in which they were stored if and only if
      that was the order of their numbers. */
  lemma RestartKeepsOrderIff(id: nat, steps: seq<Step>)
    requires NoSnapshot(steps)
    ensures Restarted(Run(id, steps)).cache == Given(steps) <==> Ascending(Given(steps), SequenceKey())
  {
    NoSnapshotFullLog(id, steps);
    SortAscending(Given(steps), SequenceKey());
    if Ascending(Given(steps), SequenceKey()) {
      SortOfAscending(Given(steps), SequenceKey());
    }
  }

  // ------------------------------------------------------------------ classes

  class Backend {
    var files: map<nat, seq<Line>>
    var snapshots: map<nat, Snapshot>

    constructor ()
      ensures files == map[] && snapshots == map[]
    {
      files, snapshots := map[], map[];
    }
  }

  class PersistentEventStore {
    const backend: Backend
    var eventCache: map<nat, seq<Event>>
    var snapshotCache: map<nat, Snapshot>

    /** The state of one session, on disk and in memory. */
    ghost function Of(id: nat): Session
      reads this, backend
    {
      Session(if id in backend.files then backend.files[id] else [],
              if id in backend.snapshots then Some(backend.snapshots[id]) else None,
              if id in eventCache then eventCache[id] else [],
              if id in snapshotCache then Some(snapshotCache[id]) else None)
    }

    /** A log file exists only once a line was written to it. */
    ghost predicate Valid()
      reads this, backend
    {
      forall id :: id in backend.files ==> backend.files[id] != []
    }

    /** A new process on an existing data directory. What it knows of a session is
        what a restart makes of the disk, whatever an earlier process had in memory. */
    constructor (backend: Backend)
      requires forall id :: id in backend.files ==> backend.files[id] != []
      ensures this.backend == backend && Valid()
      ensures forall id :: Of(id) == Restarted(Of(id))
    {
      this.backend := backend;
      eventCache, snapshotCache := map[], map[];
      new;
      Recover();
    }

    method StoreEvent(event: Event)
      requires Valid()
      modifies this, backend
      ensures Valid()
      ensures Of(event.session_id) == Stored(old(Of(event.session_id)), event)
      ensures forall id :: id != event.session_id ==> Of(id) == old(Of(id))
    {
      var id := event.session_id;
      var lines := if id in backend.files then backend.files[id] else [];
      backend.files := backend.files[id := lines + [Json(event)]];
      var sessionEvents := if id in eventCache then eventCache[id] else [];
      eventCache := eventCache[id := sessionEvents + [event]];
    }

    method CreateSnapshot(id: nat, state: nat) returns (snapshot: Snapshot)
      requires Valid()
      modifies this, backend
      ensures Valid()
      ensures Of(id) == Snapped(old(Of(id)), id, state) && Of(id).known == Some(snapshot) == Of(id).disk
      ensures snapshot.session_id == id && snapshot.state == state
      ensures var cached := old(Of(id)).cache;
        snapshot.sequence_number == if cached == [] then 0 else cached[|cached| - 1].sequence_number
      ensures forall other :: other != id ==> Of(other) == old(Of(other))
    {
      var events := if id in eventCache then eventCache[id] else [];
      snapshot := Snapshot(id, LastNumber(events), state);
      backend.snapshots := backend.snapshots[id := snapshot];
      snapshotCache := snapshotCache[id := snapshot];
    }

    /** `getEventsAfterSnapshot(id, getLatestSnapshot(id))`, or all events when there
        is no snapshot. */
    method EventsSinceSnapshot(id: nat) returns (events: seq<Event>)
      ensures events == View(Of(id))
    {
      events := if id in eventCache then eventCache[id] else [];
      if id in snapshotCache {
        events := After(events, snapshotCache[id].sequence_number);
      }
    }

    method Recover()
      requires Valid() && eventCache == map[] && snapshotCache == map[]
      modifies this
      ensures eventCache.Keys == backend.files.Keys
      ensures forall id :: id in backend.files ==>
                eventCache[id] == RecoveredEvents(backend.files[id], DiskSnapshot(id))
      ensures forall id :: id in snapshotCache <==> id in backend.files && id in backend.snapshots
      ensures forall id :: id in snapshotCache ==> snapshotCache[id] == backend.snapshots[id]
    {
      var todo := backend.files.Keys;
      while todo != {}
        invariant todo <= backend.files.Keys
        invariant eventCache.Keys == backend.files.Keys - todo
        invariant forall id :: id in eventCache ==>
                    eventCache[id] == RecoveredEvents(backend.files[id], DiskSnapshot(id))
        invariant forall id :: id in snapshotCache <==> id in eventCache && id in backend.snapshots
        invariant forall id :: id in snapshotCache ==> snapshotCache[id] == backend.snapshots[id]
        decreases todo
      {
        var id :| id in todo;
        if id in backend.snapshots {
          snapshotCache := snapshotCache[id := backend.snapshots[id]];
        }
        var events := RecoverSession(id);
        eventCache := eventCache[id := events];
        todo := todo - {id};
      }
    }

    /** The events of one session: parse, sort, and keep those after the snapshot. */
    method RecoverSession(id: nat) returns (events: seq<Event>)
      requires id in backend.files
      ensures events == RecoveredEvents(backend.files[id], DiskSnapshot(id))
    {
      events := ParseLines(backend.files[id]);
      events := Sort(events, SequenceKey());
      if id in backend.snapshots {
        events := After(events, backend.snapshots[id].sequence_number);
      }
    }

    ghost function DiskSnapshot(id: nat): Option<Snapshot>
      reads backend
    {
      if id in backend.snapshots then Some(backend.snapshots[id]) else None
    }

    method ParseLines(lines: seq<Line>) returns (events: seq<Event>)
      ensures events == Parsed(lines)
    {
      events := [];
      for i := 0 to |lines|
        invariant events == Parsed(lines[..i])
      {
        assert lines[..i + 1][..i] == lines[..i];
        if lines[i].Json? {
          events := events + [lines[i].event];
        }
      }
      assert lines[..|lines|] == lines;
    }
  }
}
