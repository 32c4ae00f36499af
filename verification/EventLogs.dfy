/** The logs of src/core/event-stream.ts: events, their numbering, what a replay makes
    of them, and range queries. */
module EventLogs {
  import opened OrderedMaps
  import opened Sequences

  datatype SessionState = Active | Paused | Completed | Failed | Cancelled

  /** The lifecycle event types by the state they lead to; all others are `Other`,
      registered or not. */
  datatype EventType = SessionCreated | SessionChanged(to: SessionState) | Other(registered: bool)

  datatype Payload = NoPayload | Initial | Change(previous_state: SessionState, new_state: SessionState)

  datatype Event = Event(session_id: nat, sequence_number: int, event_type: EventType, payload: Payload)

  type Logs = map<nat, seq<Event>>

  /** VALID_TRANSITIONS */
  function ValidNext(state: SessionState): set<SessionState> {
    match state
    case Active => {Paused, Completed, Failed, Cancelled}
    case Paused => {Active}
    case _ => {}
  }

  /** A paused session resumes, an active one goes to any other state, and the rest is final. */
  predicate MayBecome(from: SessionState, to: SessionState) {
    (from == Paused && to == Active) || (from == Active && to != Active)
  }

  lemma ValidNextIff(from: SessionState, to: SessionState)
    ensures to in ValidNext(from) <==> MayBecome(from, to)
  {
  }

  predicate IsLifecycle(e: Event) {
    !e.event_type.Other?
  }

  predicate IsValidEventType(t: EventType) {
    t.Other? ==> t.registered
  }

  // ------------------------------------------------------------------ replay

  datatype Replayed = NotStarted | Running(state: SessionState) | Broken

  /** One event of a log, read by a strict reader: it accepts a creation once, and
      only changes that VALID_TRANSITIONS allows from the state it has reached. */
  function ReplayStep(r: Replayed, e: Event): Replayed {
    match e.event_type
    case Other(_) => r
    case SessionCreated => if r.NotStarted? then Running(Active) else Broken
    case SessionChanged(to) =>
      if r.Running? && to in ValidNext(r.state) && e.payload == Change(r.state, to) then Running(to) else Broken
  }

  function Replay(log: seq<Event>): Replayed {
    if log == [] then NotStarted else ReplayStep(Replay(log[..|log| - 1]), log[|log| - 1])
  }

  function Lifecycle(log: seq<Event>): seq<Event> {
    if log == [] then []
    else if IsLifecycle(log[|log| - 1]) then Lifecycle(log[..|log| - 1]) + [log[|log| - 1]]
    else Lifecycle(log[..|log| - 1])
  }

  /** The state a lifecycle event leads to. */
  function StateAfter(e: Event): SessionState
    requires IsLifecycle(e)
  {
    if e.event_type.SessionCreated? then Active else e.event_type.to
  }

  /** A path from active in the transition graph, with matching payloads. */
  ghost predicate IsPath(ls: seq<Event>) {
    && ls != [] && (forall i :: 0 <= i < |ls| ==> IsLifecycle(ls[i]))
    && ls[0].event_type == SessionCreated
    && forall i, j :: 0 <= i < j < |ls| && j == i + 1 ==> IsStep(ls[i], ls[j])
  }

  ghost predicate IsStep(a: Event, b: Event)
    requires IsLifecycle(a)
  {
    b.event_type.SessionChanged? && b.event_type.to in ValidNext(StateAfter(a))
    && b.payload == Change(StateAfter(a), b.event_type.to)
  }

  lemma {:induction false} LifecycleOnly(log: seq<Event>)
    ensures forall i :: 0 <= i < |Lifecycle(log)| ==> IsLifecycle(Lifecycle(log)[i])
  {
    if log != [] {
      LifecycleOnly(log[..|log| - 1]);
    }
  }

  /** What a replay says about the lifecycle events of a log. */
  ghost predicate Describes(r: Replayed, ls: seq<Event>) {
    match r
    case NotStarted => ls == []
    case Running(state) => IsPath(ls) && StateAfter(ls[|ls| - 1]) == state
    case Broken => ls != [] && !IsPath(ls)
  }

  lemma {:induction false} ReplayDescribes(log: seq<Event>)
    ensures Describes(Replay(log), Lifecycle(log))
  {
    if log != [] {
      var h, e := log[..|log| - 1], log[|log| - 1];
      ReplayDescribes(h);
      LifecycleOnly(h);
      if IsLifecycle(e) {
        PathExtend(Lifecycle(h), e);
      }
    }
  }

  /** A log replays to a state exactly when its lifecycle events are a path that
      ends in this state; it has not started exactly when it has none. */
  lemma ReplayIffPath(log: seq<Event>, state: SessionState)
    ensures Replay(log) == Running(state)
       <==> IsPath(Lifecycle(log)) && StateAfter(Lifecycle(log)[|Lifecycle(log)| - 1]) == state
    ensures Replay(log).NotStarted? <==> Lifecycle(log) == []
  {
    ReplayDescribes(log);
  }

  lemma PathExtend(ls: seq<Event>, e: Event)
    requires IsLifecycle(e) && forall i :: 0 <= i < |ls| ==> IsLifecycle(ls[i])
    ensures ls == [] ==> (IsPath(ls + [e]) <==> e.event_type == SessionCreated)
    ensures ls != [] ==> (IsPath(ls + [e]) <==> IsPath(ls) && IsStep(ls[|ls| - 1], e))
  {
    var m := ls + [e];
    if ls != [] && IsPath(m) {
      assert IsStep(m[|ls| - 1], m[|ls|]);
      forall i, j | 0 <= i < j < |ls| && j == i + 1
        ensures IsStep(ls[i], ls[j])
      {
        assert IsStep(m[i], m[j]);
      }
    }
  }

  /** Nothing of the lifecycle follows a terminal state. */
  lemma NothingAfterTerminal(log: seq<Event>, i: nat, j: nat)
    requires !Replay(log).Broken? && i < j < |Lifecycle(log)|
    ensures IsLifecycle(Lifecycle(log)[i]) && StateAfter(Lifecycle(log)[i]) in {Active, Paused}
  {
    var ls := Lifecycle(log);
    ReplayDescribes(log);
    assert IsStep(ls[i], ls[i + 1]);
  }

  // ----------------------------------------------------------- the invariant

  function LogOf(logs: Logs, s: nat): seq<Event> {
    if s in logs then logs[s] else []
  }

  function NextOf(next: map<nat, int>, s: nat): int {
    if s in next then next[s] else 1
  }

  ghost predicate Numbered(logs: Logs, next: map<nat, int>) {
    && logs.Keys == next.Keys
    && forall s :: s in logs ==> logs[s] != [] && next[s] == |logs[s]| + 1 && NumberedLog(logs[s], s)
  }

  ghost predicate NumberedLog(log: seq<Event>, s: nat) {
    forall i :: 0 <= i < |log| ==> log[i].sequence_number == i + 1 && log[i].session_id == s
  }

  /** Each session's live state is the replay of its log; a log without a session
      has no lifecycle. */
  ghost predicate Replayable(logs: Logs, live: map<nat, SessionState>) {
    && live.Keys <= logs.Keys
    && forall s :: s in logs ==> Replay(logs[s]) == if s in live then Running(live[s]) else NotStarted
  }

  /** Logs only grow, at their ends. */
  ghost predicate Extends(logs: Logs, logs': Logs) {
    forall s :: s in logs ==> s in logs' && logs[s] <= logs'[s]
  }

  function Appended(logs: Logs, e: Event): Logs {
    logs[e.session_id := LogOf(logs, e.session_id) + [e]]
  }

  lemma AppendNumbered(logs: Logs, next: map<nat, int>, e: Event)
    requires Numbered(logs, next) && e.sequence_number == NextOf(next, e.session_id)
    ensures Numbered(Appended(logs, e), next[e.session_id := e.sequence_number + 1])
  {
  }

  lemma ReplayAppend(log: seq<Event>, e: Event)
    ensures Replay(log + [e]) == ReplayStep(Replay(log), e)
  {
    assert (log + [e])[..|log|] == log;
  }

  lemma AppendReplayable(logs: Logs, live: map<nat, SessionState>, e: Event)
    requires Replayable(logs, live) && !IsLifecycle(e)
    ensures Replayable(Appended(logs, e), live)
  {
    ReplayAppend(LogOf(logs, e.session_id), e);
    assert Replay([]) == NotStarted;
    forall s | s in Appended(logs, e)
      ensures Replay(Appended(logs, e)[s]) == if s in live then Running(live[s]) else NotStarted
    {
      if s != e.session_id {
        assert Appended(logs, e)[s] == logs[s];
      }
    }
  }

  lemma CreateReplayable(logs: Logs, live: map<nat, SessionState>, e: Event)
    requires Replayable(logs, live) && e.session_id !in logs && e.event_type == SessionCreated
    ensures Replayable(Appended(logs, e), live[e.session_id := Active])
  {
    ReplayAppend([], e);
  }

  lemma ChangeReplayable(logs: Logs, live: map<nat, SessionState>, e: Event)
    requires Replayable(logs, live) && e.session_id in live && e.event_type.SessionChanged?
    requires e.event_type.to in ValidNext(live[e.session_id])
    requires e.payload == Change(live[e.session_id], e.event_type.to)
    ensures Replayable(Appended(logs, e), live[e.session_id := e.event_type.to])
  {
    ReplayAppend(logs[e.session_id], e);
  }

  // -------------------------------------------------------------- many events

  /** The events of one session, in order. */
  function Of(events: seq<Event>, s: nat): seq<Event> {
    if events == [] then []
    else if events[|events| - 1].session_id == s then Of(events[..|events| - 1], s) + [events[|events| - 1]]
    else Of(events[..|events| - 1], s)
  }

  function AppendAll(logs: Logs, events: seq<Event>): Logs {
    if events == [] then logs else Appended(AppendAll(logs, events[..|events| - 1]), events[|events| - 1])
  }

  lemma {:induction false} OfConcat(a: seq<Event>, b: seq<Event>, s: nat)
    ensures Of(a + b, s) == Of(a, s) + Of(b, s)
    decreases |b|
  {
    if b == [] {
      Empty(a);
      Empty(Of(a, s));
    } else {
      assert (a + b)[..|a + b| - 1] == a + b[..|b| - 1];
      OfConcat(a, b[..|b| - 1], s);
      Associative(Of(a, s), Of(b[..|b| - 1], s), [b[|b| - 1]]);
    }
  }

  lemma {:induction false} AppendAllConcat(logs: Logs, a: seq<Event>, b: seq<Event>)
    ensures AppendAll(logs, a + b) == AppendAll(AppendAll(logs, a), b)
    decreases |b|
  {
    if b == [] {
      Empty(a);
    } else {
      assert (a + b)[..|a + b| - 1] == a + b[..|b| - 1];
      AppendAllConcat(logs, a, b[..|b| - 1]);
    }
  }

  lemma AppendOne(logs: Logs, e: Event)
    ensures AppendAll(logs, [e]) == Appended(logs, e)
  {
    assert [e][..0] == [];
  }

  lemma {:induction false} AppendAllLogs(logs: Logs, events: seq<Event>, s: nat)
    ensures LogOf(AppendAll(logs, events), s) == LogOf(logs, s) + Of(events, s)
    ensures s in AppendAll(logs, events) <==> s in logs || Of(events, s) != []
  {
    if events == [] {
      Empty(LogOf(logs, s));
    } else {
      var front, e := events[..|events| - 1], events[|events| - 1];
      AppendAllLogs(logs, front, s);
      Associative(LogOf(logs, s), Of(front, s), [e]);
    }
  }

  lemma AppendAllExtends(logs: Logs, events: seq<Event>)
    ensures Extends(logs, AppendAll(logs, events))
  {
    forall s | s in logs
      ensures s in AppendAll(logs, events) && logs[s] <= AppendAll(logs, events)[s]
    {
      AppendAllLogs(logs, events, s);
    }
  }

  /** Both lists have the same events of each session, in the same order. */
  ghost predicate Agree(a: seq<Event>, b: seq<Event>) {
    forall s :: Of(a, s) == Of(b, s)
  }

  /** Two lists of events append the same exactly when they agree on every session. */
  lemma AppendAllSameIff(logs: Logs, a: seq<Event>, b: seq<Event>)
    ensures AppendAll(logs, a) == AppendAll(logs, b) <==> Agree(a, b)
  {
    if Agree(a, b) {
      forall s
        ensures s in AppendAll(logs, a) <==> s in AppendAll(logs, b)
        ensures s in AppendAll(logs, a) ==> AppendAll(logs, a)[s] == AppendAll(logs, b)[s]
      {
        AppendAllLogs(logs, a, s);
        AppendAllLogs(logs, b, s);
      }
      assert AppendAll(logs, a) == AppendAll(logs, b);
    }
    if AppendAll(logs, a) == AppendAll(logs, b) {
      forall s
        ensures Of(a, s) == Of(b, s)
      {
        AppendAllLogs(logs, a, s);
        AppendAllLogs(logs, b, s);
        SamePrefix(LogOf(logs, s), Of(a, s), Of(b, s));
      }
    }
  }

  lemma SamePrefix<T>(p: seq<T>, a: seq<T>, b: seq<T>)
    ensures p + a == p + b <==> a == b
  {
    assert (p + a)[|p|..] == a && (p + b)[|p|..] == b;
  }

  /** Appended events are distinct when the logs they make are numbered. */
  lemma {:induction false} NumberedDistinct(logs: Logs, events: seq<Event>)
    requires forall s :: s in AppendAll(logs, events) ==> NumberedLog(AppendAll(logs, events)[s], s)
    ensures Distinct(events)
  {
    if events != [] {
      var front, e := events[..|events| - 1], events[|events| - 1];
      var before := AppendAll(logs, front);
      forall s | s in before
        ensures NumberedLog(before[s], s)
      {
        var after := AppendAll(logs, events)[s];
        assert forall i :: 0 <= i < |before[s]| ==> after[i] == before[s][i];
      }
      NumberedDistinct(logs, front);
      assert e.sequence_number == |LogOf(before, e.session_id)| + 1 by {
        var log := LogOf(before, e.session_id);
        assert AppendAll(logs, events)[e.session_id] == log + [e];
        assert (log + [e])[|log|] == e;
      }
      forall x | x in front
        ensures x != e
      {
        NumberBounded(logs, front, x);
      }
      DistinctAppend(front, e);
      assert events == front + [e];
    }
  }

  lemma NumberBounded(logs: Logs, events: seq<Event>, e: Event)
    requires forall s :: s in AppendAll(logs, events) ==> NumberedLog(AppendAll(logs, events)[s], s)
    requires e in events
    ensures e.sequence_number <= |LogOf(AppendAll(logs, events), e.session_id)|
  {
    var s := e.session_id;
    AppendAllLogs(logs, events, s);
    InOf(events, e);
    var i :| 0 <= i < |Of(events, s)| && Of(events, s)[i] == e;
    assert LogOf(AppendAll(logs, events), s)[|LogOf(logs, s)| + i] == e;
  }

  lemma {:induction false} InOf(events: seq<Event>, e: Event)
    ensures e in events <==> e in Of(events, e.session_id)
  {
    if events != [] {
      InOf(events[..|events| - 1], e);
      SplitLast(events);
    }
  }

  // ----------------------------------------------------------------- queries

  /** `events.filter(e => e.sequence_number >= from && e.sequence_number <= to)` */
  function InRange(log: seq<Event>, from: int, to: int): seq<Event> {
    if log == [] then []
    else
      var e, rest := log[|log| - 1], InRange(log[..|log| - 1], from, to);
      if from <= e.sequence_number <= to then rest + [e] else rest
  }

  /** Positions `from` to `to`, counted from 1, as far as the log has them. */
  function Slice<T>(log: seq<T>, from: int, to: int): seq<T> {
    var lo, hi := if from < 1 then 1 else from, if to < |log| then to else |log|;
    if lo > hi then [] else log[lo - 1..hi]
  }

  /** Any range query on a numbered log is a slice. */
  lemma {:induction false} RangeIsSlice(log: seq<Event>, s: nat, from: int, to: int)
    requires NumberedLog(log, s)
    ensures InRange(log, from, to) == Slice(log, from, to)
  {
    if log != [] {
      RangeIsSlice(log[..|log| - 1], s, from, to);
      assert log[|log| - 1].sequence_number == |log|;
      SliceGrows(log, from, to);
    }
  }

  lemma SliceGrows<T>(log: seq<T>, from: int, to: int)
    requires log != []
    ensures var front := log[..|log| - 1];
      Slice(log, from, to)
      == if from <= |log| <= to then Slice(front, from, to) + [log[|log| - 1]] else Slice(front, from, to)
  {
    var n, lo := |log| - 1, if from < 1 then 1 else from;
    if lo <= n + 1 <= to {
      PushedSuffix(log, lo - 1);
    } else if lo <= to <= n {
      assert log[..n][lo - 1..to] == log[lo - 1..to];
    }
  }
}
