/** `getToolPerformance` of src/store/query-engine.ts: what it reads from the tool events of
    all sessions. */
module ToolPerformance {
  import opened Optional
  import opened OrderedMaps
  import opened Sequences
  import opened ToolBracketing

  // ------------------------------------------------------------ getToolPerformance

  datatype Entry = Entry(started: nat, completed: nat, failed: nat, durations: seq<int>)

  datatype Metrics = Metrics(toolName: string, totalInvocations: nat, successCount: nat, failureCount: nat,
                             successRate: real, averageDurationMs: real)

  /** Times are compared as the ISO strings they are; `None` does not bound the range. */
  datatype TimeRange = TimeRange(startTime: Option<int>, endTime: Option<int>)

  /** Only tool executions carry a time here; other events do not matter below. */
  predicate Within(e: Event, range: TimeRange) {
    e.Execution? ==>
      && (range.startTime.Some? ==> e.timestamp >= range.startTime.value)
      && (range.endTime.Some? ==> e.timestamp <= range.endTime.value)
  }

  function Filtered(log: seq<Event>, range: TimeRange): seq<Event> {
    if log == [] then []
    else if Within(log[|log| - 1], range) then Filtered(log[..|log| - 1], range) + [log[|log| - 1]]
    else Filtered(log[..|log| - 1], range)
  }

  /** All sessions' events in the range, session by session. */
  function AllFiltered(sessions: seq<seq<Event>>, range: TimeRange): seq<Event> {
    if sessions == [] then []
    else AllFiltered(sessions[..|sessions| - 1], range) + Filtered(sessions[|sessions| - 1], range)
  }

  lemma {:induction false} FilteredConcat(a: seq<Event>, b: seq<Event>, range: TimeRange)
    ensures Filtered(a + b, range) == Filtered(a, range) + Filtered(b, range)
    decreases |b|
  {
    if b == [] {
      Empty(a);
      Empty(Filtered(a, range));
    } else {
      var n := |b| - 1;
      assert (a + b)[..|a + b| - 1] == a + b[..n];
      FilteredConcat(a, b[..n], range);
      Associative(Filtered(a, range), Filtered(b[..n], range), [b[n]]);
    }
  }

  /** With `FilteredConcat`, what the filter does: it keeps the tool events from the start time
      to the end time, both included, where these are given. */
  lemma FilteredOne(e: Event, range: TimeRange)
    requires e.Execution?
    ensures Filtered([e], range)
         == if (exists t :: range.startTime == Some(t) && e.timestamp < t)
               || (exists t :: range.endTime == Some(t) && e.timestamp > t) then [] else [e]
  {
    assert [e][..0] == [];
  }

  method GetAllFilteredEvents(sessions: seq<seq<Event>>, range: TimeRange) returns (events: seq<Event>)
    ensures events == AllFiltered(sessions, range)
  {
    events := [];
    for i := 0 to |sessions|
      invariant events == AllFiltered(sessions[..i], range)
    {
      assert sessions[..i + 1][..i] == sessions[..i];
      ghost var before := events;
      Empty(before);
      for j := 0 to |sessions[i]|
        invariant events == before + Filtered(sessions[i][..j], range)
      {
        var event := sessions[i][j];
        assert sessions[i][..j + 1][..j] == sessions[i][..j];
        Associative(before, Filtered(sessions[i][..j], range), [event]);
        if event.Execution? && range.startTime.Some? && event.timestamp < range.startTime.value {
          continue;
        }
        if event.Execution? && range.endTime.Some? && event.timestamp > range.endTime.value {
          continue;
        }
        events := events + [event];
      }
      assert sessions[i][..|sessions[i]|] == sessions[i];
    }
    assert sessions[..|sessions|] == sessions;
  }

  predicate Concerns(e: Event, name: string) {
    e.Execution? && e.payload.tool_name == name
  }

  function Count(log: seq<Event>, phase: Phase, name: string): nat {
    if log == [] then 0
    else
      var e := log[|log| - 1];
      Count(log[..|log| - 1], phase, name) + if Concerns(e, name) && e.phase == phase then 1 else 0
  }

  /** The durations the outcomes of tool `name` report, in order. */
  function Durations(log: seq<Event>, name: string): seq<int> {
    if log == [] then []
    else
      var e := log[|log| - 1];
      if Concerns(e, name) && e.phase != Started && e.payload.duration_ms.Some?
      then Durations(log[..|log| - 1], name) + [e.payload.duration_ms.value]
      else Durations(log[..|log| - 1], name)
  }

  function Sum(xs: seq<int>): int {
    if xs == [] then 0 else Sum(xs[..|xs| - 1]) + xs[|xs| - 1]
  }

  function EntryOf(log: seq<Event>, name: string): Entry {
    Entry(Count(log, Started, name), Count(log, Completed, name), Count(log, Failed, name), Durations(log, name))
  }

  /** "" asks for every tool. */
  predicate Wanted(filter: string, name: string) {
    filter == "" || name == filter
  }

  ghost predicate Mentions(log: seq<Event>, name: string) {
    exists i :: 0 <= i < |log| && Concerns(log[i], name)
  }

  /** The wanted tools in the order in which the events first mention them. */
  function Tools(log: seq<Event>, toolName: string): seq<string> {
    if log == [] then []
    else
      var e, rest := log[|log| - 1], Tools(log[..|log| - 1], toolName);
      if e.Execution? && Wanted(toolName, e.payload.tool_name) && e.payload.tool_name !in rest
      then rest + [e.payload.tool_name] else rest
  }

  lemma {:induction false} ToolsAre(log: seq<Event>, toolName: string)
    ensures Distinct(Tools(log, toolName))
    ensures forall t :: t in Tools(log, toolName) <==> Wanted(toolName, t) && Mentions(log, t)
  {
    if log != [] {
      var n := |log| - 1;
      ToolsAre(log[..n], toolName);
      forall t
        ensures Mentions(log, t) <==> Mentions(log[..n], t) || Concerns(log[n], t)
      {
        assert log[..n + 1] == log;
        EntryStep(log, n, t);
      }
    }
  }

  ghost predicate Grouped(byTool: OrderedMap<string, Entry>, log: seq<Event>, toolName: string) {
    && byTool.keys == Tools(log, toolName)
    && (forall t :: t in byTool.items <==> t in byTool.keys)
    && (forall t :: t in byTool.items ==> byTool.items[t] == EntryOf(log, t))
  }

  /** One pass over the events groups them by tool. */
  method GroupByTool(log: seq<Event>, toolName: string) returns (byTool: OrderedMap<string, Entry>)
    ensures Grouped(byTool, log, toolName)
  {
    byTool := OrderedMap([], map[]);
    for i := 0 to |log|
      invariant Grouped(byTool, log[..i], toolName)
    {
      var e := log[i];
      GroupStep(byTool, log, i, toolName);
      if e.Execution? && Wanted(toolName, e.payload.tool_name) {
        var name := e.payload.tool_name;
        byTool := byTool.Set(name, Updated(EntryIn(byTool, name), e));
      }
    }
    assert log[..|log|] == log;
  }

  /** `byTool.get(name) ?? ...` */
  function EntryIn(byTool: OrderedMap<string, Entry>, name: string): Entry {
    if name in byTool.items then byTool.items[name] else Entry(0, 0, 0, [])
  }

  /** The loop body's change to one entry. */
  function Updated(entry: Entry, e: Event): Entry
    requires e.Execution?
  {
    var durations := if e.phase != Started && e.payload.duration_ms.Some?
                     then entry.durations + [e.payload.duration_ms.value] else entry.durations;
    match e.phase
    case Started => entry.(started := entry.started + 1)
    case Completed => entry.(completed := entry.completed + 1, durations := durations)
    case Failed => entry.(failed := entry.failed + 1, durations := durations)
  }

  lemma GroupStep(byTool: OrderedMap<string, Entry>, log: seq<Event>, i: nat, toolName: string)
    requires i < |log| && Grouped(byTool, log[..i], toolName)
    ensures
      var e := log[i];
      Grouped(if e.Execution? && Wanted(toolName, e.payload.tool_name)
              then byTool.Set(e.payload.tool_name, Updated(EntryIn(byTool, e.payload.tool_name), e)) else byTool,
              log[..i + 1], toolName)
  {
    assert log[..i + 1][..i] == log[..i];
    ToolsAre(log[..i], toolName);
    forall t
      ensures EntryOf(log[..i + 1], t)
           == if Concerns(log[i], t) then Updated(EntryOf(log[..i], t), log[i]) else EntryOf(log[..i], t)
      ensures !Mentions(log[..i], t) ==> EntryOf(log[..i], t) == Entry(0, 0, 0, [])
    {
      EntryStep(log, i, t);
      if !Mentions(log[..i], t) {
        NothingToCount(log[..i], t);
      }
    }
  }

  lemma EntryStep(log: seq<Event>, i: nat, t: string)
    requires i < |log|
    ensures Mentions(log[..i + 1], t) <==> Mentions(log[..i], t) || Concerns(log[i], t)
    ensures EntryOf(log[..i + 1], t)
         == if Concerns(log[i], t) then Updated(EntryOf(log[..i], t), log[i]) else EntryOf(log[..i], t)
  {
    var before, after := log[..i], log[..i + 1];
    assert after[..i] == before && after[i] == log[i];
    if Mentions(before, t) {
      var j :| 0 <= j < i && Concerns(before[j], t);
      assert Concerns(after[j], t);
    }
    if Mentions(after, t) {
      var j :| 0 <= j < i + 1 && Concerns(after[j], t);
      assert j < i ==> Concerns(before[j], t);
    }
  }

  lemma {:induction false} NothingToCount(log: seq<Event>, name: string)
    requires !Mentions(log, name)
    ensures EntryOf(log, name) == Entry(0, 0, 0, [])
  {
    if log != [] {
      assert !Concerns(log[|log| - 1], name);
      assert forall i :: 0 <= i < |log| - 1 ==> log[..|log| - 1][i] == log[i];
      NothingToCount(log[..|log| - 1], name);
    }
  }

  /** The figures of one tool: the rate is of the outcomes, the average of the durations. */
  ghost predicate Summarises(m: Metrics, name: string, data: Entry) {
    && m.toolName == name
    && m.totalInvocations == data.started && m.successCount == data.completed && m.failureCount == data.failed
    && 0.0 <= m.successRate <= 1.0
    && m.successRate * (data.completed + data.failed) as real == data.completed as real
    && (data.completed + data.failed == 0 ==> m.successRate == 0.0)
    && m.averageDurationMs * |data.durations| as real == Sum(data.durations) as real
    && (data.durations == [] ==> m.averageDurationMs == 0.0)
  }

  /** One row per wanted tool that the events in the range mention, in the order of their
      first mention. */
  method GetToolPerformance(sessions: seq<seq<Event>>, toolName: string, range: TimeRange)
    returns (metrics: seq<Metrics>)
    ensures
      var events := AllFiltered(sessions, range);
      && |metrics| == |Tools(events, toolName)|
      && forall i :: 0 <= i < |metrics| ==>
           Summarises(metrics[i], Tools(events, toolName)[i], EntryOf(events, Tools(events, toolName)[i]))
  {
    var events := GetAllFilteredEvents(sessions, range);
    var byTool := GroupByTool(events, toolName);
    metrics := [];
    for i := 0 to |byTool.keys|
      invariant |metrics| == i
      invariant forall j :: 0 <= j < i ==> Summarises(metrics[j], byTool.keys[j], EntryOf(events, byTool.keys[j]))
    {
      var name := byTool.keys[i];
      assert name in byTool.keys;
      metrics := metrics + [Summary(name, byTool.items[name])];
    }
  }

  function Summary(name: string, data: Entry): (m: Metrics)
    ensures Summarises(m, name, data)
  {
    Metrics(name, data.started, data.completed, data.failed,
            Ratio(data.completed, data.completed + data.failed), Ratio(Sum(data.durations), |data.durations|))
  }

  /** `n > 0 ? a / n : 0` */
  function Ratio(a: int, n: nat): (r: real)
    ensures n > 0 ==> r * n as real == a as real
    ensures n == 0 ==> r == 0.0
    ensures 0 <= a <= n ==> 0.0 <= r <= 1.0
  {
    if n > 0 then
      DivideBack(a as real, n as real);
      a as real / n as real
    else 0.0
  }

  lemma DivideBack(a: real, n: real)
    requires n > 0.0
    ensures (a / n) * n == a
    ensures 0.0 <= a <= n ==> 0.0 <= a / n <= 1.0
  {
  }

  // -------------------------------------------------------- counts of whole runs

  function RunsOf(runs: seq<Call>, name: string): seq<Call> {
    if runs == [] then []
    else if runs[0].name == name then [runs[0]] + RunsOf(runs[1..], name)
    else RunsOf(runs[1..], name)
  }

  lemma {:induction false} CountConcat(a: seq<Event>, b: seq<Event>, phase: Phase, name: string)
    ensures Count(a + b, phase, name) == Count(a, phase, name) + Count(b, phase, name)
    decreases |b|
  {
    if b == [] {
      Empty(a);
    } else {
      assert (a + b)[..|a + b| - 1] == a + b[..|b| - 1];
      CountConcat(a, b[..|b| - 1], phase, name);
    }
  }

  lemma {:induction false} CountToolEvents(log: seq<Event>, phase: Phase, name: string)
    ensures Count(ToolEvents(log), phase, name) == Count(log, phase, name)
  {
    if log != [] {
      assert log == [log[0]] + log[1..];
      CountConcat([log[0]], log[1..], phase, name);
      CountConcat([log[0]], ToolEvents(log[1..]), phase, name);
      CountToolEvents(log[1..], phase, name);
      assert log[0].Other? ==> Count([log[0]], phase, name) == 0;
    }
  }

  lemma CountBracket(c: Call, name: string)
    ensures Count(Bracket(c), Started, name) == if c.name == name then 1 else 0
    ensures Count(Bracket(c), Completed, name) + Count(Bracket(c), Failed, name)
         == if c.name == name && !CutOff(c) then 1 else 0
  {
    if CutOff(c) {
      assert Bracket(c) == [StartOf(c)];
    } else {
      assert Bracket(c)[..1] == [StartOf(c)];
    }
    assert forall phase :: Count([StartOf(c)], phase, name) == if c.name == name && phase == Started then 1 else 0;
  }

  lemma {:induction false} CountRuns(runs: seq<Call>, name: string)
    ensures Count(ToolLog(runs), Started, name) == |RunsOf(runs, name)|
    ensures Count(ToolLog(runs), Completed, name) + Count(ToolLog(runs), Failed, name)
         == |RunsOf(runs, name)| - Cuts(RunsOf(runs, name))
  {
    if runs != [] {
      CountRuns(runs[1..], name);
      CountBracket(runs[0], name);
      CountConcat(Bracket(runs[0]), ToolLog(runs[1..]), Started, name);
      CountConcat(Bracket(runs[0]), ToolLog(runs[1..]), Completed, name);
      CountConcat(Bracket(runs[0]), ToolLog(runs[1..]), Failed, name);
      assert runs[0].name == name ==> RunsOf(runs, name)[1..] == RunsOf(runs[1..], name);
    }
  }

  /** At rest a tool's invocations are its successes plus its failures, exactly when none of
      its runs was cut off. */
  lemma InvocationsAddUpIff(inputs: seq<Input>, limit: nat, name: string)
    ensures Unfinished(SessionLog(inputs, limit), name) == Cuts(RunsOf(SessionRuns(inputs, limit), name))
    ensures Unfinished(SessionLog(inputs, limit), name) == 0
       <==> AllWhole(RunsOf(SessionRuns(inputs, limit), name))
  {
    var log, runs := SessionLog(inputs, limit), SessionRuns(inputs, limit);
    SessionToolEvents(inputs, limit);
    CountToolEvents(log, Started, name);
    CountToolEvents(log, Completed, name);
    CountToolEvents(log, Failed, name);
    CountRuns(runs, name);
    CutsZeroIff(RunsOf(runs, name));
  }

  /** A tool's starts minus its outcomes. */
  function Unfinished(log: seq<Event>, name: string): int {
    Count(log, Started, name) - Count(log, Completed, name) - Count(log, Failed, name)
  }

  // ------------------------------------------------- successes, failures and durations

  /** The run wrote its outcome. */
  predicate Whole(c: Call) {
    c.throws.started == Recorded && !c.throws.onToolResult && !c.throws.outcome.Refused?
  }

  /** The tool finished and reported success. */
  predicate Succeeded(c: Call) {
    Finished(c) && c.settles.success
  }

  /** How many whole runs of the tool succeeded, or failed. */
  function Outcomes(runs: seq<Call>, name: string, success: bool): nat {
    if runs == [] then 0
    else
      (if runs[0].name == name && Whole(runs[0]) && Succeeded(runs[0]) == success then 1 else 0)
      + Outcomes(runs[1..], name, success)
  }

  /** The durations of the whole runs of the tool, 0 for one that did not finish. */
  function RunDurations(runs: seq<Call>, name: string): seq<int> {
    if runs == [] then []
    else RunDuration(runs[0], name) + RunDurations(runs[1..], name)
  }

  function RunDuration(c: Call, name: string): seq<int> {
    if c.name == name && Whole(c) then [if Finished(c) then c.settles.duration else 0] else []
  }

  /** Every run of a session has recorded its start. */
  ghost predicate AllStarted(runs: seq<Call>) {
    forall i :: 0 <= i < |runs| ==> Starts(runs[i])
  }

  lemma {:induction false} RanStarted(calls: seq<Call>)
    ensures AllStarted(Ran(calls))
  {
    if calls != [] {
      RanStarted(calls[1..]);
    }
  }

  lemma {:induction false} TurnsRunsStarted(turns: seq<Turn>)
    ensures AllStarted(TurnsRuns(turns))
  {
    if turns != [] {
      TurnsRunsStarted(turns[1..]);
      if turns[0].Reply? {
        RanStarted(turns[0].calls);
      }
    }
  }

  lemma {:induction false} SessionRunsStarted(inputs: seq<Input>, limit: nat)
    ensures AllStarted(SessionRuns(inputs, limit))
  {
    if inputs != [] {
      SessionRunsStarted(inputs[1..], limit);
      TurnsRunsStarted(Taken(inputs[0].turns, limit));
    }
  }

  lemma BracketOutcomes(c: Call, name: string)
    requires Starts(c)
    ensures Count(Bracket(c), Completed, name) == if c.name == name && Whole(c) && Succeeded(c) then 1 else 0
    ensures Count(Bracket(c), Failed, name) == if c.name == name && Whole(c) && !Succeeded(c) then 1 else 0
  {
    if CutOff(c) {
      assert Bracket(c) == [StartOf(c)];
    } else {
      assert Bracket(c)[..1] == [StartOf(c)];
    }
    assert forall phase :: Count([StartOf(c)], phase, name) == if c.name == name && phase == Started then 1 else 0;
  }

  lemma BracketDurations(c: Call, name: string)
    requires Starts(c)
    ensures Durations(Bracket(c), name) == RunDuration(c, name)
  {
    if CutOff(c) {
      assert Bracket(c) == [StartOf(c)];
    } else {
      assert Bracket(c)[..1] == [StartOf(c)];
    }
    assert [StartOf(c)][..0] == [];
    assert Durations([StartOf(c)], name) == [];
  }

  lemma {:induction false} DurationsConcat(a: seq<Event>, b: seq<Event>, name: string)
    ensures Durations(a + b, name) == Durations(a, name) + Durations(b, name)
    decreases |b|
  {
    if b == [] {
      Empty(a);
      Empty(Durations(a, name));
    } else {
      var n := |b| - 1;
      assert (a + b)[..|a + b| - 1] == a + b[..n];
      DurationsConcat(a, b[..n], name);
      var e := b[n];
      if Concerns(e, name) && e.phase != Started && e.payload.duration_ms.Some? {
        Associative(Durations(a, name), Durations(b[..n], name), [e.payload.duration_ms.value]);
      }
    }
  }

  lemma {:induction false} DurationsToolEvents(log: seq<Event>, name: string)
    ensures Durations(ToolEvents(log), name) == Durations(log, name)
  {
    if log != [] {
      assert log == [log[0]] + log[1..];
      DurationsConcat([log[0]], log[1..], name);
      DurationsConcat([log[0]], ToolEvents(log[1..]), name);
      DurationsToolEvents(log[1..], name);
      assert [log[0]][..0] == [];
      Empty(Durations(log[1..], name));
    }
  }

  lemma {:induction false} RunsOutcomes(runs: seq<Call>, name: string)
    requires AllStarted(runs)
    ensures Count(ToolLog(runs), Completed, name) == Outcomes(runs, name, true)
    ensures Count(ToolLog(runs), Failed, name) == Outcomes(runs, name, false)
    ensures Durations(ToolLog(runs), name) == RunDurations(runs, name)
  {
    if runs != [] {
      assert AllStarted(runs[1..]);
      RunsOutcomes(runs[1..], name);
      BracketOutcomes(runs[0], name);
      BracketDurations(runs[0], name);
      CountConcat(Bracket(runs[0]), ToolLog(runs[1..]), Completed, name);
      CountConcat(Bracket(runs[0]), ToolLog(runs[1..]), Failed, name);
      DurationsConcat(Bracket(runs[0]), ToolLog(runs[1..]), name);
    }
  }

  lemma SessionOutcomes(inputs: seq<Input>, limit: nat, name: string)
    ensures Count(SessionLog(inputs, limit), Started, name) == |RunsOf(SessionRuns(inputs, limit), name)|
    ensures Count(SessionLog(inputs, limit), Completed, name) == Outcomes(SessionRuns(inputs, limit), name, true)
    ensures Count(SessionLog(inputs, limit), Failed, name) == Outcomes(SessionRuns(inputs, limit), name, false)
    ensures Durations(SessionLog(inputs, limit), name) == RunDurations(SessionRuns(inputs, limit), name)
  {
    var log, runs := SessionLog(inputs, limit), SessionRuns(inputs, limit);
    SessionToolEvents(inputs, limit);
    SessionRunsStarted(inputs, limit);
    CountToolEvents(log, Started, name);
    CountToolEvents(log, Completed, name);
    CountToolEvents(log, Failed, name);
    DurationsToolEvents(log, name);
    CountRuns(runs, name);
    RunsOutcomes(runs, name);
  }

  // ------------------------------------------------------------ the rows of many sessions

  /** The runs of several sessions, one session after the other. */
  function RunsOfAll(sessions: seq<seq<Input>>, limit: nat): seq<Call> {
    if sessions == [] then []
    else RunsOfAll(sessions[..|sessions| - 1], limit) + SessionRuns(sessions[|sessions| - 1], limit)
  }

  lemma {:induction false} OutcomesConcat(a: seq<Call>, b: seq<Call>, name: string, success: bool)
    ensures Outcomes(a + b, name, success) == Outcomes(a, name, success) + Outcomes(b, name, success)
  {
    if a == [] {
      Empty(b);
    } else {
      assert (a + b)[0] == a[0] && (a + b)[1..] == a[1..] + b;
      OutcomesConcat(a[1..], b, name, success);
    }
  }

  lemma {:induction false} RunDurationsConcat(a: seq<Call>, b: seq<Call>, name: string)
    ensures RunDurations(a + b, name) == RunDurations(a, name) + RunDurations(b, name)
  {
    if a == [] {
      Empty(b);
      Empty(RunDurations(b, name));
    } else {
      assert (a + b)[0] == a[0] && (a + b)[1..] == a[1..] + b;
      RunDurationsConcat(a[1..], b, name);
      Associative(RunDuration(a[0], name), RunDurations(a[1..], name), RunDurations(b, name));
    }
  }

  lemma {:induction false} RunsOfConcat(a: seq<Call>, b: seq<Call>, name: string)
    ensures |RunsOf(a + b, name)| == |RunsOf(a, name)| + |RunsOf(b, name)|
  {
    if a == [] {
      Empty(b);
    } else {
      assert (a + b)[0] == a[0] && (a + b)[1..] == a[1..] + b;
      RunsOfConcat(a[1..], b, name);
    }
  }

  lemma {:induction false} AllOutcomes(sessions: seq<seq<Input>>, limit: nat, name: string)
    ensures
      var events, runs := AllFiltered(SessionLogs(sessions, limit), ALL_TIME), RunsOfAll(sessions, limit);
      EntryOf(events, name)
      == Entry(|RunsOf(runs, name)|, Outcomes(runs, name, true), Outcomes(runs, name, false), RunDurations(runs, name))
  {
    if sessions != [] {
      var n := |sessions| - 1;
      var logs, log := SessionLogs(sessions[..n], limit), SessionLog(sessions[n], limit);
      var before, runs := RunsOfAll(sessions[..n], limit), SessionRuns(sessions[n], limit);
      AllOutcomes(sessions[..n], limit, name);
      SessionOutcomes(sessions[n], limit, name);
      TakeAppend(logs, log);
      FilteredAllTime(log);
      EntryConcat(AllFiltered(logs, ALL_TIME), log, name);
      OutcomesConcat(before, runs, name, true);
      OutcomesConcat(before, runs, name, false);
      RunDurationsConcat(before, runs, name);
      RunsOfConcat(before, runs, name);
    }
  }

  lemma EntryConcat(a: seq<Event>, b: seq<Event>, name: string)
    ensures EntryOf(a + b, name)
         == Entry(Count(a, Started, name) + Count(b, Started, name),
                  Count(a, Completed, name) + Count(b, Completed, name),
                  Count(a, Failed, name) + Count(b, Failed, name), Durations(a, name) + Durations(b, name))
  {
    CountConcat(a, b, Started, name);
    CountConcat(a, b, Completed, name);
    CountConcat(a, b, Failed, name);
    DurationsConcat(a, b, name);
  }

  /** The row that `getToolPerformance` gives for a tool, over all time and all sessions: the
      invocations are its runs, the successes and failures those whole runs that succeeded and
      failed, and the average is over the durations of the whole runs. */
  lemma RowIs(sessions: seq<seq<Input>>, limit: nat, name: string, m: Metrics)
    requires Summarises(m, name, EntryOf(AllFiltered(SessionLogs(sessions, limit), ALL_TIME), name))
    ensures
      var runs := RunsOfAll(sessions, limit);
      IsRow(m, name, |RunsOf(runs, name)|, Outcomes(runs, name, true), Outcomes(runs, name, false),
            RunDurations(runs, name))
  {
    AllOutcomes(sessions, limit, name);
    RowOf(m, name, EntryOf(AllFiltered(SessionLogs(sessions, limit), ALL_TIME), name));
  }

  ghost predicate IsRow(m: Metrics, name: string, runs: nat, successes: nat, failures: nat, durations: seq<int>) {
    && m.toolName == name && m.totalInvocations == runs && m.successCount == successes && m.failureCount == failures
    && m.successRate * (successes + failures) as real == successes as real
    && m.averageDurationMs * |durations| as real == Sum(durations) as real
  }

  lemma RowOf(m: Metrics, name: string, e: Entry)
    requires Summarises(m, name, e)
    ensures IsRow(m, name, e.started, e.completed, e.failed, e.durations)
  {
  }

  const ALL_TIME := TimeRange(None, None)

  /** The logs of several sessions of the runtime. */
  function SessionLogs(sessions: seq<seq<Input>>, limit: nat): (logs: seq<seq<Event>>)
    ensures |logs| == |sessions|
  {
    if sessions == [] then []
    else SessionLogs(sessions[..|sessions| - 1], limit) + [SessionLog(sessions[|sessions| - 1], limit)]
  }

  lemma {:induction false} FilteredAllTime(log: seq<Event>)
    ensures Filtered(log, ALL_TIME) == log
  {
    if log != [] {
      FilteredAllTime(log[..|log| - 1]);
      SplitLast(log);
    }
  }

  function CutsOf(sessions: seq<seq<Input>>, limit: nat, name: string): nat {
    if sessions == [] then 0
    else
      var n := |sessions| - 1;
      CutsOf(sessions[..n], limit, name) + Cuts(RunsOf(SessionRuns(sessions[n], limit), name))
  }

  lemma {:induction false} UnfinishedAre(sessions: seq<seq<Input>>, limit: nat, name: string)
    ensures Unfinished(AllFiltered(SessionLogs(sessions, limit), ALL_TIME), name) == CutsOf(sessions, limit, name)
  {
    if sessions != [] {
      var n := |sessions| - 1;
      var logs, log := SessionLogs(sessions[..n], limit), SessionLog(sessions[n], limit);
      UnfinishedAre(sessions[..n], limit, name);
      TakeAppend(logs, log);
      FilteredAllTime(log);
      CountConcat(AllFiltered(logs, ALL_TIME), log, Started, name);
      CountConcat(AllFiltered(logs, ALL_TIME), log, Completed, name);
      CountConcat(AllFiltered(logs, ALL_TIME), log, Failed, name);
      InvocationsAddUpIff(sessions[n], limit, name);
    }
  }

  ghost predicate WholeIn(sessions: seq<seq<Input>>, limit: nat, name: string) {
    forall inputs :: inputs in sessions ==> WholeInSession(inputs, limit, name)
  }

  ghost predicate WholeInSession(inputs: seq<Input>, limit: nat, name: string) {
    AllWhole(RunsOf(SessionRuns(inputs, limit), name))
  }

  lemma {:induction false} CutsOfZeroIff(sessions: seq<seq<Input>>, limit: nat, name: string)
    ensures CutsOf(sessions, limit, name) == 0 <==> WholeIn(sessions, limit, name)
  {
    if sessions != [] {
      var n := |sessions| - 1;
      CutsOfZeroIff(sessions[..n], limit, name);
      CutsZeroIff(RunsOf(SessionRuns(sessions[n], limit), name));
      assert WholeInSession(sessions[n], limit, name) <==> Cuts(RunsOf(SessionRuns(sessions[n], limit), name)) == 0;
      SplitLast(sessions);
    }
  }

  /** The row that `getToolPerformance` gives for a tool, over all time and all sessions: its
      invocations exceed its successes and failures by the runs that were cut off, and add up
      with them if and only if none was, in any session. */
  lemma RowAddsUpIff(sessions: seq<seq<Input>>, limit: nat, m: Metrics)
    requires Summarises(m, m.toolName, EntryOf(AllFiltered(SessionLogs(sessions, limit), ALL_TIME), m.toolName))
    ensures m.totalInvocations == m.successCount + m.failureCount + CutsOf(sessions, limit, m.toolName)
    ensures m.totalInvocations == m.successCount + m.failureCount <==> WholeIn(sessions, limit, m.toolName)
  {
    UnfinishedAre(sessions, limit, m.toolName);
    CutsOfZeroIff(sessions, limit, m.toolName);
  }
}
