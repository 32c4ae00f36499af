/** The command statistics of `analyzeSessions` (src/analysis.ts), and what they are on the
    logs of the agent runtime. */
module SessionAnalysis {
  import opened Optional
  import opened OrderedMaps
  import opened Sequences
  import opened StableSorting
  import opened ToolBracketing
  import opened ToolPerformance

  // --------------------------------------------------- the pairing of analyzeSessions

  function CommandOf(p: Payload): (r: string)
    ensures p.command != "" ==> r == p.command
    ensures p.command == "" && p.tool != "" ==> r == p.tool
    ensures p.command == "" && p.tool == "" ==> r == "unknown"
  {
    if p.command != "" then p.command else if p.tool != "" then p.tool else "unknown"
  }

  /** `slice(i + 1).find(...)`: the first completion or failure. */
  function FirstOutcome(events: seq<Event>): Option<Event> {
    if events == [] then None
    else if events[0].Execution? && events[0].phase != Started then Some(events[0])
    else FirstOutcome(events[1..])
  }

  /** A start and the outcome it is paired with. */
  datatype Pair = Pair(start: Event, outcome: Option<Event>)

  type StartPair = p: Pair | p.start.Execution? && (p.outcome.Some? ==> p.outcome.value.Execution?)
    witness Pair(Execution(Started, Payload("", "", "", None), 0), None)

  function Elapsed(p: StartPair): int {
    if p.outcome.Some? then p.outcome.value.timestamp - p.start.timestamp else 0
  }

  predicate IsError(p: StartPair) {
    p.outcome.Some? && p.outcome.value.phase == Failed
  }

  datatype Stats = Stats(count: nat, totalDurationMs: int, maxDurationMs: int, errorCount: nat)

  function Plus(s: Stats, p: StartPair): Stats {
    Stats(s.count + 1, s.totalDurationMs + Elapsed(p),
          if Elapsed(p) > s.maxDurationMs then Elapsed(p) else s.maxDurationMs,
          s.errorCount + if IsError(p) then 1 else 0)
  }

  /** The pairs of the starts, each with the first later outcome. */
  function Pairings(toolEvents: seq<Event>): seq<StartPair> {
    if toolEvents == [] then []
    else if IsStart(toolEvents[0]) then [PairUp(toolEvents)] + Pairings(toolEvents[1..])
    else Pairings(toolEvents[1..])
  }

  predicate IsStart(e: Event) {
    e.Execution? && e.phase == Started
  }

  function PairUp(events: seq<Event>): StartPair
    requires events != [] && IsStart(events[0])
  {
    FirstOutcomeIsExecution(events[1..]);
    Pair(events[0], FirstOutcome(events[1..]))
  }

  lemma FirstOutcomeIsExecution(events: seq<Event>)
    ensures FirstOutcome(events).Some? ==> FirstOutcome(events).value.Execution?
  {
  }

  /** The statistics of the pairs of one command. */
  function StatsOf(pairs: seq<StartPair>, command: string): Stats {
    if pairs == [] then Stats(0, 0, 0, 0)
    else
      var front, p := pairs[..|pairs| - 1], pairs[|pairs| - 1];
      if CommandOf(p.start.payload) == command then Plus(StatsOf(front, command), p) else StatsOf(front, command)
  }

  /** The commands in the order of their first start. */
  function Commands(pairs: seq<StartPair>): seq<string> {
    if pairs == [] then []
    else
      var c, rest := CommandOf(pairs[|pairs| - 1].start.payload), Commands(pairs[..|pairs| - 1]);
      if c in rest then rest else rest + [c]
  }

  ghost predicate Tallied(commandMap: OrderedMap<string, Stats>, pairs: seq<StartPair>) {
    && commandMap.keys == Commands(pairs)
    && (forall c :: c in commandMap.items <==> c in commandMap.keys)
    && (forall c :: c in commandMap.items <==> StatsOf(pairs, c).count > 0)
    && (forall c :: c in commandMap.items ==> commandMap.items[c] == StatsOf(pairs, c))
  }

  lemma {:induction false} NoneCounted(pairs: seq<StartPair>, command: string)
    requires StatsOf(pairs, command).count == 0
    ensures StatsOf(pairs, command) == Stats(0, 0, 0, 0)
  {
    if pairs != [] {
      NoneCounted(pairs[..|pairs| - 1], command);
    }
  }

  /** One start adds its pair to the statistics of its command. */
  method Tally(commandMap0: OrderedMap<string, Stats>, p: StartPair, ghost pairs: seq<StartPair>)
    returns (commandMap: OrderedMap<string, Stats>)
    requires Tallied(commandMap0, pairs)
    ensures Tallied(commandMap, pairs + [p])
  {
    var command := CommandOf(p.start.payload);
    var stats := if command in commandMap0.items then commandMap0.items[command] else Stats(0, 0, 0, 0);
    commandMap := commandMap0.Set(command, Plus(stats, p));
    TakeAppend(pairs, p);
    if command !in commandMap0.items {
      NoneCounted(pairs, command);
    }
  }

  /** The loop over one session's tool events. */
  method AnalyzeSession(commandMap0: OrderedMap<string, Stats>, toolEvents: seq<Event>, ghost pairs0: seq<StartPair>)
    returns (commandMap: OrderedMap<string, Stats>)
    requires Tallied(commandMap0, pairs0)
    ensures Tallied(commandMap, pairs0 + Pairings(toolEvents))
  {
    commandMap := commandMap0;
    ghost var pairs := pairs0;
    for i := 0 to |toolEvents|
      invariant Tallied(commandMap, pairs)
      invariant pairs0 + Pairings(toolEvents) == pairs + Pairings(toolEvents[i..])
    {
      PairingStep(pairs, toolEvents, i);
      if IsStart(toolEvents[i]) {
        assert toolEvents[i..][0] == toolEvents[i];
        var p := PairUp(toolEvents[i..]);
        commandMap := Tally(commandMap, p, pairs);
        pairs := pairs + [p];
      }
    }
    Empty(pairs);
  }

  lemma PairingStep(pairs: seq<StartPair>, toolEvents: seq<Event>, i: nat)
    requires i < |toolEvents|
    ensures toolEvents[i..][0] == toolEvents[i]
    ensures pairs + Pairings(toolEvents[i..])
         == (if IsStart(toolEvents[i]) then pairs + [PairUp(toolEvents[i..])] else pairs)
            + Pairings(toolEvents[i + 1..])
  {
    assert toolEvents[i..][1..] == toolEvents[i + 1..];
    if IsStart(toolEvents[i]) {
      Associative(pairs, [PairUp(toolEvents[i..])], Pairings(toolEvents[i + 1..]));
    }
  }

  function AllPairings(sessions: seq<seq<Event>>): seq<StartPair> {
    if sessions == [] then []
    else AllPairings(sessions[..|sessions| - 1]) + Pairings(ToolEvents(sessions[|sessions| - 1]))
  }

  datatype CommandStats = CommandStats(command: string, stats: Stats, avgDurationMs: real)

  ghost predicate Reports(row: CommandStats, pairs: seq<StartPair>) {
    && row.stats == StatsOf(pairs, row.command)
    && row.avgDurationMs * row.stats.count as real == row.stats.totalDurationMs as real
  }

  /** `sort((a, b) => b.count - a.count)` */
  function ByCount(): CommandStats -> int {
    (row: CommandStats) => 0 - row.stats.count
  }

  /** The command statistics over all sessions' logs: one row per command, the most frequent
      first, and among equally frequent ones the one started first. */
  method AnalyzeSessions(sessions: seq<seq<Event>>)
    returns (commandStats: seq<CommandStats>, ghost rows: seq<CommandStats>)
    ensures |rows| == |Commands(AllPairings(sessions))|
    ensures forall i :: 0 <= i < |rows| ==>
              rows[i].command == Commands(AllPairings(sessions))[i] && Reports(rows[i], AllPairings(sessions))
    ensures multiset(commandStats) == multiset(rows) && Ascending(commandStats, ByCount())
    ensures forall i, j :: 0 <= i < j < |commandStats| ==> commandStats[i].stats.count >= commandStats[j].stats.count
    ensures forall n :: WithKey(commandStats, ByCount(), n) == WithKey(rows, ByCount(), n)
  {
    var commandMap := CollectStats(sessions);
    var entries: seq<CommandStats> := [];
    for i := 0 to |commandMap.keys|
      invariant |entries| == i
      invariant forall j :: 0 <= j < i ==>
                  entries[j].command == commandMap.keys[j] && Reports(entries[j], AllPairings(sessions))
    {
      var command := commandMap.keys[i];
      assert command in commandMap.keys;
      var stats := commandMap.items[command];
      entries := entries + [CommandStats(command, stats, Ratio(stats.totalDurationMs, stats.count))];
    }
    rows := entries;
    commandStats := Sort(entries, ByCount());
    SortMultiset(entries, ByCount());
    SortAscending(entries, ByCount());
    MostFrequentFirst(commandStats);
    forall n
      ensures WithKey(commandStats, ByCount(), n) == WithKey(rows, ByCount(), n)
    {
      SortStable(entries, ByCount(), n);
    }
  }

  lemma MostFrequentFirst(rows: seq<CommandStats>)
    requires Ascending(rows, ByCount())
    ensures forall i, j :: 0 <= i < j < |rows| ==> rows[i].stats.count >= rows[j].stats.count
  {
    forall i, j | 0 <= i < j < |rows|
      ensures rows[i].stats.count >= rows[j].stats.count
    {
      assert ByCount()(rows[i]) <= ByCount()(rows[j]);
    }
  }

  method CollectStats(sessions: seq<seq<Event>>) returns (commandMap: OrderedMap<string, Stats>)
    ensures Tallied(commandMap, AllPairings(sessions))
  {
    commandMap := OrderedMap([], map[]);
    for i := 0 to |sessions|
      invariant Tallied(commandMap, AllPairings(sessions[..i]))
    {
      assert sessions[..i + 1][..i] == sessions[..i];
      commandMap := AnalyzeSession(commandMap, ToolEvents(sessions[i]), AllPairings(sessions[..i]));
    }
    assert sessions[..|sessions|] == sessions;
  }

  // ------------------------------------------------------- is the pairing the right one

  /** Each start with its own outcome. */
  function OwnPairs(runs: seq<Call>): seq<StartPair> {
    if runs == [] then [] else [OwnPair(runs[0])] + OwnPairs(runs[1..])
  }

  function OwnPair(c: Call): StartPair {
    Pair(StartOf(c), if CutOff(c) then None else Some(OutcomeOf(c)))
  }

  ghost predicate AllCutOff(runs: seq<Call>) {
    forall k :: 0 <= k < |runs| ==> CutOff(runs[k])
  }

  /** Once a run is cut off, so are all later ones. */
  ghost predicate CutOffLast(runs: seq<Call>) {
    forall j, k :: 0 <= j < k < |runs| && CutOff(runs[j]) ==> CutOff(runs[k])
  }

  lemma FirstOutcomeOfBracket(c: Call, tail: seq<Event>)
    ensures FirstOutcome(Bracket(c) + tail) == if CutOff(c) then FirstOutcome(tail) else Some(OutcomeOf(c))
    ensures Pairings(Bracket(c) + tail)
         == [Pair(StartOf(c), if CutOff(c) then FirstOutcome(tail) else Some(OutcomeOf(c)))] + Pairings(tail)
  {
    var all := Bracket(c) + tail;
    if CutOff(c) {
      assert all[1..] == tail;
    } else {
      assert all[1..] == [OutcomeOf(c)] + tail && all[1..][1..] == tail;
    }
  }

  lemma {:induction false} NoOutcomeIff(runs: seq<Call>)
    ensures FirstOutcome(ToolLog(runs)) == None <==> AllCutOff(runs)
  {
    if runs != [] {
      FirstOutcomeOfBracket(runs[0], ToolLog(runs[1..]));
      NoOutcomeIff(runs[1..]);
      assert forall k :: 1 <= k < |runs| ==> runs[k] == runs[1..][k - 1];
    }
  }

  /** The first later outcome is each start's own exactly when no outcome follows a cut-off run. */
  lemma {:induction false} PairingIsOwnIff(runs: seq<Call>)
    ensures Pairings(ToolLog(runs)) == OwnPairs(runs) <==> CutOffLast(runs)
  {
    if runs != [] {
      var rest := runs[1..];
      FirstOutcomeOfBracket(runs[0], ToolLog(rest));
      NoOutcomeIff(rest);
      PairingIsOwnIff(rest);
      SameTail(Pairings(ToolLog(runs)), Pairings(ToolLog(rest)), OwnPairs(runs), OwnPairs(rest));
      assert forall k :: 1 <= k < |runs| ==> runs[k] == rest[k - 1];
      if CutOffLast(rest) && (CutOff(runs[0]) ==> AllCutOff(rest)) {
        assert CutOffLast(runs);
      }
      if CutOffLast(runs) {
        assert CutOffLast(rest);
      }
    }
  }

  lemma SameTail<T>(a: seq<T>, a': seq<T>, b: seq<T>, b': seq<T>)
    requires a != [] && b != [] && a == [a[0]] + a' && b == [b[0]] + b'
    ensures a == b <==> a[0] == b[0] && a' == b'
  {
    assert a[1..] == a' && b[1..] == b';
  }

  /** `analyzeSessions` on the log of a runtime session. */
  lemma SessionPairingIsOwnIff(inputs: seq<Input>, limit: nat)
    ensures Pairings(ToolEvents(SessionLog(inputs, limit))) == OwnPairs(SessionRuns(inputs, limit))
       <==> CutOffLast(SessionRuns(inputs, limit))
  {
    SessionToolEvents(inputs, limit);
    PairingIsOwnIff(SessionRuns(inputs, limit));
  }

  // ---------------------------------------------------------------- what is counted

  lemma {:induction false} StatsConcat(a: seq<StartPair>, b: seq<StartPair>, command: string)
    ensures StatsOf(a + b, command).count == StatsOf(a, command).count + StatsOf(b, command).count
    ensures StatsOf(a + b, command).errorCount == StatsOf(a, command).errorCount + StatsOf(b, command).errorCount
    decreases |b|
  {
    if b == [] {
      Empty(a);
    } else {
      assert (a + b)[..|a + b| - 1] == a + b[..|b| - 1];
      StatsConcat(a, b[..|b| - 1], command);
    }
  }

  lemma StatsOne(p: StartPair, command: string)
    ensures StatsOf([p], command).count == (if CommandOf(p.start.payload) == command then 1 else 0)
    ensures StatsOf([p], command).errorCount == (if CommandOf(p.start.payload) == command && IsError(p) then 1 else 0)
  {
    assert [p][..0] == [];
  }

  /** The whole runs that failed. */
  function Failures(runs: seq<Call>): nat {
    if runs == [] then 0 else (if CutOff(runs[0]) || ResultOf(runs[0]).success then 0 else 1) + Failures(runs[1..])
  }

  /** The first whole run failed. */
  predicate NextFails(runs: seq<Call>) {
    if runs == [] then false
    else if CutOff(runs[0]) then NextFails(runs[1..])
    else !ResultOf(runs[0]).success
  }

  /** The cut-off runs whose next whole run failed. */
  function Borrowed(runs: seq<Call>): nat {
    if runs == [] then 0 else (if CutOff(runs[0]) && NextFails(runs[1..]) then 1 else 0) + Borrowed(runs[1..])
  }

  lemma {:induction false} FirstOutcomeFails(runs: seq<Call>)
    ensures var first := FirstOutcome(ToolLog(runs));
      (first.Some? ==> first.value.Execution?) && (NextFails(runs) <==> first.Some? && first.value.phase == Failed)
  {
    if runs != [] {
      FirstOutcomeOfBracket(runs[0], ToolLog(runs[1..]));
      FirstOutcomeFails(runs[1..]);
    }
  }

  lemma {:induction false} RunStats(runs: seq<Call>, command: string)
    ensures var s := StatsOf(Pairings(ToolLog(runs)), command);
      && s.count == (if command == "unknown" then |runs| else 0)
      && s.errorCount == (if command == "unknown" then Failures(runs) + Borrowed(runs) else 0)
  {
    if runs != [] {
      var c, tail := runs[0], ToolLog(runs[1..]);
      RunStats(runs[1..], command);
      FirstOutcomeFails(runs[1..]);
      FirstOutcomeOfBracket(c, tail);
      var p: StartPair := Pair(StartOf(c), if CutOff(c) then FirstOutcome(tail) else Some(OutcomeOf(c)));
      StatsConcat([p], Pairings(tail), command);
      StatsOne(p, command);
    }
  }

  /** The runtime writes `tool_name`, which the analysis does not look for: on its logs all
      runs are counted under one command. The errors are the runs that failed and, once more,
      each failure that a cut-off run is paired with. */
  lemma AllRunsAreUnknown(inputs: seq<Input>, limit: nat, command: string)
    ensures
      var runs, s := SessionRuns(inputs, limit), StatsOf(Pairings(ToolEvents(SessionLog(inputs, limit))), command);
      && s.count == (if command == "unknown" then |runs| else 0)
      && s.errorCount == (if command == "unknown" then Failures(runs) + Borrowed(runs) else 0)
  {
    SessionToolEvents(inputs, limit);
    RunStats(SessionRuns(inputs, limit), command);
  }

  /** From a start to the outcome it is paired with. */
  function Span(p: StartPair): int {
    match p.outcome
    case None => 0
    case Some(e) => e.timestamp - p.start.timestamp
  }

  ghost predicate OfCommand(p: StartPair, command: string) {
    CommandOf(p.start.payload) == command
  }

  /** The maximal duration of a command is 0 or its longest span, whichever is larger. */
  lemma {:induction false} LongestSpan(pairs: seq<StartPair>, command: string)
    ensures
      var longest := StatsOf(pairs, command).maxDurationMs;
      && longest >= 0 && (forall p :: p in pairs && OfCommand(p, command) ==> Span(p) <= longest)
      && (longest == 0 || exists p :: p in pairs && OfCommand(p, command) && Span(p) == longest)
  {
    if pairs != [] {
      LongestSpan(pairs[..|pairs| - 1], command);
      SplitLast(pairs);
      assert pairs[|pairs| - 1] in pairs;
    }
  }

  lemma {:induction false} DurationConcat(a: seq<StartPair>, b: seq<StartPair>, command: string)
    ensures StatsOf(a + b, command).totalDurationMs
         == StatsOf(a, command).totalDurationMs + StatsOf(b, command).totalDurationMs
    decreases |b|
  {
    if b == [] {
      Empty(a);
    } else {
      assert (a + b)[..|a + b| - 1] == a + b[..|b| - 1];
      DurationConcat(a, b[..|b| - 1], command);
    }
  }

  /** The time the whole runs took. */
  function TimeTaken(runs: seq<Call>): int {
    if runs == [] then 0 else (if CutOff(runs[0]) then 0 else runs[0].ended - runs[0].began) + TimeTaken(runs[1..])
  }

  lemma {:induction false} OwnDurations(runs: seq<Call>)
    ensures StatsOf(OwnPairs(runs), "unknown").totalDurationMs == TimeTaken(runs)
  {
    if runs != [] {
      OwnDurations(runs[1..]);
      DurationConcat([OwnPair(runs[0])], OwnPairs(runs[1..]), "unknown");
      OneDuration(OwnPair(runs[0]));
    }
  }

  lemma OneDuration(p: StartPair)
    requires p.start.payload.command == "" && p.start.payload.tool == ""
    ensures StatsOf([p], "unknown").totalDurationMs == Span(p)
  {
    assert [p][..0] == [];
  }

  /** In a session in which no ended run follows a cut-off one, the total duration is the time
      its whole runs took. */
  lemma TotalIsTimeTaken(inputs: seq<Input>, limit: nat)
    requires CutOffLast(SessionRuns(inputs, limit))
    ensures StatsOf(Pairings(ToolEvents(SessionLog(inputs, limit))), "unknown").totalDurationMs
         == TimeTaken(SessionRuns(inputs, limit))
  {
    SessionPairingIsOwnIff(inputs, limit);
    OwnDurations(SessionRuns(inputs, limit));
  }

  function TotalRuns(sessions: seq<seq<Input>>, limit: nat): nat {
    if sessions == [] then 0
    else TotalRuns(sessions[..|sessions| - 1], limit) + |SessionRuns(sessions[|sessions| - 1], limit)|
  }

  function TotalFailures(sessions: seq<seq<Input>>, limit: nat): nat {
    if sessions == [] then 0
    else TotalFailures(sessions[..|sessions| - 1], limit) + Failures(SessionRuns(sessions[|sessions| - 1], limit))
  }

  function TotalBorrowed(sessions: seq<seq<Input>>, limit: nat): nat {
    if sessions == [] then 0
    else TotalBorrowed(sessions[..|sessions| - 1], limit) + Borrowed(SessionRuns(sessions[|sessions| - 1], limit))
  }

  lemma {:induction false} SessionsStats(sessions: seq<seq<Input>>, limit: nat, command: string)
    ensures
      var s := StatsOf(AllPairings(SessionLogs(sessions, limit)), command);
      && s.count == (if command == "unknown" then TotalRuns(sessions, limit) else 0)
      && s.errorCount
         == (if command == "unknown" then TotalFailures(sessions, limit) + TotalBorrowed(sessions, limit) else 0)
  {
    if sessions != [] {
      var n := |sessions| - 1;
      var logs, log := SessionLogs(sessions[..n], limit), SessionLog(sessions[n], limit);
      SessionsStats(sessions[..n], limit, command);
      TakeAppend(logs, log);
      AllRunsAreUnknown(sessions[n], limit, command);
      StatsConcat(AllPairings(logs), Pairings(ToolEvents(log)), command);
    }
  }

  /** So over all sessions of the runtime the analysis has at most one row, "unknown", with all
      runs; its errors are the failures if and only if in no session a cut-off run is followed
      by a failing one before a successful one. */
  lemma OneRowForAllSessions(sessions: seq<seq<Input>>, limit: nat)
    ensures
      var pairs := AllPairings(SessionLogs(sessions, limit));
      && Commands(pairs) == (if TotalRuns(sessions, limit) == 0 then [] else ["unknown"])
      && StatsOf(pairs, "unknown").count == TotalRuns(sessions, limit)
      && (StatsOf(pairs, "unknown").errorCount == TotalFailures(sessions, limit)
          <==> forall inputs :: inputs in sessions ==> NothingBorrowedIn(inputs, limit))
  {
    var pairs := AllPairings(SessionLogs(sessions, limit));
    forall c
      ensures StatsOf(pairs, c).count == if c == "unknown" then TotalRuns(sessions, limit) else 0
    {
      SessionsStats(sessions, limit, c);
    }
    SessionsStats(sessions, limit, "unknown");
    OneCommand(pairs, "unknown");
    NoneBorrowedIff(sessions, limit);
  }

  lemma {:induction false} OneCommand(pairs: seq<StartPair>, command: string)
    requires forall c :: c != command ==> StatsOf(pairs, c).count == 0
    ensures Commands(pairs) == if StatsOf(pairs, command).count == 0 then [] else [command]
  {
    if pairs != [] {
      var front, last := pairs[..|pairs| - 1], CommandOf(pairs[|pairs| - 1].start.payload);
      assert StatsOf(pairs, last).count > 0;
      forall c | c != command
        ensures StatsOf(front, c).count == 0
      {
        assert StatsOf(pairs, c).count == 0;
      }
      OneCommand(front, command);
    }
  }

  ghost predicate NothingBorrowed(runs: seq<Call>) {
    forall k :: 0 <= k < |runs| ==> !BorrowsAt(runs, k)
  }

  ghost predicate NothingBorrowedIn(inputs: seq<Input>, limit: nat) {
    NothingBorrowed(SessionRuns(inputs, limit))
  }

  lemma {:induction false} NoneBorrowedIff(sessions: seq<seq<Input>>, limit: nat)
    ensures TotalBorrowed(sessions, limit) == 0
       <==> forall inputs :: inputs in sessions ==> NothingBorrowedIn(inputs, limit)
  {
    if sessions != [] {
      var n := |sessions| - 1;
      NoneBorrowedIff(sessions[..n], limit);
      NothingBorrowedIff(SessionRuns(sessions[n], limit));
      assert NothingBorrowedIn(sessions[n], limit) <==> Borrowed(SessionRuns(sessions[n], limit)) == 0;
      SplitLast(sessions);
    }
  }

  /** Run `k` was cut off, and the next whole run failed. */
  predicate BorrowsAt(runs: seq<Call>, k: nat)
    requires k < |runs|
  {
    CutOff(runs[k]) && NextFails(runs[k + 1..])
  }

  lemma {:induction false} NothingBorrowedIff(runs: seq<Call>)
    ensures Borrowed(runs) == 0 <==> NothingBorrowed(runs)
  {
    if runs != [] {
      var rest := runs[1..];
      NothingBorrowedIff(rest);
      forall k | 1 <= k < |runs|
        ensures BorrowsAt(runs, k) <==> BorrowsAt(rest, k - 1)
      {
        assert runs[k + 1..] == rest[k..];
      }
      if Borrowed(rest) > 0 {
        var k :| 0 <= k < |rest| && BorrowsAt(rest, k);
        assert BorrowsAt(runs, k + 1);
      }
      assert Borrowed(runs) == (if BorrowsAt(runs, 0) then 1 else 0) + Borrowed(rest);
    }
  }
}
