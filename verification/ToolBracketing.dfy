/** Tool executions in the event log: what `executeToolCalls` and `runLoop` write
    (src/runtime/agent-runtime.ts), and which starts stay open in it. */
module ToolBracketing {
  import opened Optional
  import opened Sequences

  datatype Phase = Started | Completed | Failed

  /** `tool` and `command` are payload entries the analysis looks for; "" is absent. */
  datatype Payload = Payload(tool_name: string, tool: string, command: string, duration_ms: Option<int>)

  datatype Kind = UserInput | ModelRequest | ModelResponse | CallInvocation | CallResult

  datatype Event =
    | Execution(phase: Phase, payload: Payload, timestamp: int)
    | Other(kind: Kind)

  /** How the invoked tool settles: it resolves, or rejects (an exception or the timeout). */
  datatype Settles = Resolves(success: bool, duration: int) | Rejects

  /** How an append goes: it records the event and returns; it throws what a subscriber of the
      event stream throws, and has recorded the event by then; or it throws before it records
      anything, as every append does once the session has been stopped. */
  datatype Append = Recorded | Threw | Refused

  /** What else happens during a call: whether the two callbacks around it throw, and how the
      appends of its events go. */
  datatype Faults = Faults(onToolCall: bool, started: Append, invocation: Append, callResult: Append,
                           onToolResult: bool, outcome: Append)

  /** A requested tool call, and how the world answers it. */
  datatype Call = Call(name: string, isNew: bool, settles: Settles, throws: Faults, began: int, ended: int)

  datatype ToolResult = ToolResult(success: bool, duration: int)

  /** What a turn has logged when it throws without having called a tool. */
  datatype Stage = BeforeRequest | AfterRequest | AfterResponse

  /** The model's answer with the tool calls it asks for, and whether something throws after
      they have been executed; or an exception before any is. */
  datatype Turn = Reply(calls: seq<Call>, throwsAfter: bool) | Throws(at: Stage)

  /** One user input: how recording it goes, and the turns it leads to. */
  datatype Input = Input(recorded: Append, turns: seq<Turn>)

  // -------------------------------------------------------------- the written log

  /** What fails inside the `try` of `executeToolCalls` makes the result a failure. */
  predicate FailsInside(c: Call) {
    c.settles.Rejects? || (c.isNew && !(c.throws.invocation.Recorded? && c.throws.callResult.Recorded?))
  }

  function ResultOf(c: Call): ToolResult {
    if FailsInside(c) then ToolResult(false, 0) else ToolResult(c.settles.success, c.settles.duration)
  }

  function StartOf(c: Call): Event {
    Execution(Started, Payload(c.name, "", "", None), c.began)
  }

  function OutcomeOf(c: Call): Event {
    var r := ResultOf(c);
    Execution(if r.success then Completed else Failed, Payload(c.name, "", "", Some(r.duration)), c.ended)
  }

  /** The start is recorded. */
  predicate Starts(c: Call) {
    !c.throws.onToolCall && !c.throws.started.Refused?
  }

  /** Something threw between the record of the start and that of the outcome: a subscriber
      on the start, the result callback, or the append of the outcome itself, which it does
      when the session was stopped while the tool ran. The start stays without an outcome. */
  predicate CutOff(c: Call) {
    c.throws.started.Threw? || c.throws.onToolResult || c.throws.outcome.Refused?
  }

  /** Nothing throws out of the call. */
  predicate Quiet(c: Call) {
    Starts(c) && !CutOff(c) && c.throws.outcome.Recorded?
  }

  function CallLog(c: Call): seq<Event> {
    if !Starts(c) then []
    else [StartOf(c)] + (if c.throws.started.Threw? then [] else Inside(c)) + if CutOff(c) then [] else [OutcomeOf(c)]
  }

  /** What the new tool protocol writes between the start and the outcome. */
  function Inside(c: Call): seq<Event> {
    if !c.isNew || c.throws.invocation.Refused? then []
    else if c.throws.invocation.Threw? || c.settles.Rejects? || c.throws.callResult.Refused? then
      [Other(CallInvocation)]
    else [Other(CallInvocation), Other(CallResult)]
  }

  function CallsLog(calls: seq<Call>): seq<Event> {
    if calls == [] then []
    else CallLog(calls[0]) + if Quiet(calls[0]) then CallsLog(calls[1..]) else []
  }

  predicate AllQuiet(calls: seq<Call>) {
    forall i :: 0 <= i < |calls| ==> Quiet(calls[i])
  }

  /** Turns go on until a reply has no tool calls, something throws, or the limit. */
  function Taken(turns: seq<Turn>, limit: nat): seq<Turn> {
    if limit == 0 || turns == [] then []
    else if LastTurn(turns[0]) then [turns[0]]
    else [turns[0]] + Taken(turns[1..], limit - 1)
  }

  function TurnsLog(turns: seq<Turn>): seq<Event> {
    if turns == [] then [] else TurnLog(turns[0]) + TurnsLog(turns[1..])
  }

  function LoopLog(turns: seq<Turn>, limit: nat): seq<Event> {
    TurnsLog(Taken(turns, limit))
  }

  function TurnLog(turn: Turn): seq<Event> {
    match turn
    case Throws(BeforeRequest) => []
    case Throws(AfterRequest) => [Other(ModelRequest)]
    case Throws(AfterResponse) => [Other(ModelRequest), Other(ModelResponse)]
    case Reply(calls, _) => [Other(ModelRequest), Other(ModelResponse)] + CallsLog(calls)
  }

  predicate LastTurn(turn: Turn) {
    turn.Throws? || turn.calls == [] || !AllQuiet(turn.calls) || turn.throwsAfter
  }

  function InputLog(input: Input, limit: nat): seq<Event> {
    if input.recorded.Refused? then []
    else [Other(UserInput)] + if input.recorded.Threw? then [] else LoopLog(input.turns, limit)
  }

  // --------------------------------------------------------- what a call comes to

  /** The tool resolved, and what the new protocol appends inside the `try` was recorded
      without an exception. */
  predicate Finished(c: Call) {
    c.settles.Resolves? && (c.isNew ==> c.throws.invocation == Recorded && c.throws.callResult == Recorded)
  }

  /** The result of a call: the tool's own if it finished, else a failure of no duration. */
  ghost predicate IsResultOf(c: Call, result: ToolResult) {
    && (result.success <==> Finished(c) && c.settles.success)
    && result.duration == if Finished(c) then c.settles.duration else 0
  }

  /** Nothing throws out of the call. */
  ghost predicate Undisturbed(c: Call) {
    && !c.throws.onToolCall && !c.throws.onToolResult
    && c.throws.started == Recorded && c.throws.outcome == Recorded
  }

  lemma ResultIs(c: Call)
    ensures IsResultOf(c, ResultOf(c)) && (Quiet(c) <==> Undisturbed(c))
  {
  }

  ghost predicate IsOutcomeOf(c: Call, e: Event) {
    && e.Execution? && e.timestamp == c.ended && e.phase != Started
    && (e.phase == Completed <==> Finished(c) && c.settles.success)
    && e.payload == Payload(c.name, "", "", Some(if Finished(c) then c.settles.duration else 0))
  }

  /** Each call has its result, up to the first that something throws out of. */
  ghost predicate Answered(calls: seq<Call>, results: seq<ToolResult>, threw: bool) {
    && |results| <= |calls| && (threw <==> |results| < |calls|)
    && (threw ==> !Undisturbed(calls[|results|]))
    && forall i :: 0 <= i < |results| ==> Undisturbed(calls[i]) && IsResultOf(calls[i], results[i])
  }

  lemma AnswersMean(calls: seq<Call>, results: seq<ToolResult>, threw: bool)
    requires ResultsOf(calls, results) && (threw <==> |results| < |calls|)
    requires forall i :: 0 <= i < |results| ==> Quiet(calls[i])
    requires threw ==> !Quiet(calls[|results|])
    ensures Answered(calls, results, threw)
  {
    forall i | 0 <= i < |calls|
      ensures IsResultOf(calls[i], ResultOf(calls[i])) && (Quiet(calls[i]) <==> Undisturbed(calls[i]))
    {
      ResultIs(calls[i]);
    }
  }

  /** What a call writes: nothing unless its start is recorded, which is the first event; the
      outcome comes last unless something threw before it was recorded, and is a completion
      exactly when the tool finished with success; in between, only what the new protocol
      appends while it goes on. */
  lemma CallWrites(c: Call)
    ensures
      var log, p := CallLog(c), c.throws;
      var whole := p.started == Recorded && !p.onToolResult && !p.outcome.Refused?;
      && (log == [] <==> p.onToolCall || p.started.Refused?)
      && (log != [] ==> log[0] == Execution(Started, Payload(c.name, "", "", None), c.began))
      && (log != [] && whole ==> |log| > 1 && IsOutcomeOf(c, log[|log| - 1]))
      && (log != [] ==> Inner(log, whole) == Protocol(c))
  {
  }

  /** The log of a call without its start, and without its outcome if it has one. */
  function Inner(log: seq<Event>, whole: bool): seq<Event>
    requires |log| > if whole then 1 else 0
  {
    if whole then log[1..|log| - 1] else log[1..]
  }

  function Protocol(c: Call): seq<Event> {
    if c.throws.started != Recorded || !c.isNew || c.throws.invocation.Refused? then []
    else if c.throws.invocation == Recorded && c.settles.Resolves? && !c.throws.callResult.Refused? then
      [Other(CallInvocation), Other(CallResult)]
    else [Other(CallInvocation)]
  }

  /** Calls are made until the first that something throws out of, and this one with them. */
  lemma {:induction false} CallsWrite(calls: seq<Call>) returns (made: nat)
    ensures made <= |calls| && CallsLog(calls) == LogsOf(calls[..made])
    ensures forall i :: 0 <= i < made - 1 ==> Undisturbed(calls[i])
    ensures made < |calls| ==> made > 0 && !Undisturbed(calls[made - 1])
  {
    made := 0;
    if calls != [] {
      if Quiet(calls[0]) {
        var rest := CallsWrite(calls[1..]);
        made := rest + 1;
        assert calls[..made][1..] == calls[1..][..rest];
        assert forall i :: 1 <= i < |calls| ==> calls[i] == calls[1..][i - 1];
      } else {
        made := 1;
        assert calls[..1][1..] == [];
      }
    }
  }

  /** A turn with a reply writes the request, the response, and what its calls write. */
  lemma TurnWrites(turn: Turn) returns (made: nat)
    requires turn.Reply?
    ensures made <= |turn.calls|
    ensures TurnLog(turn) == [Other(ModelRequest), Other(ModelResponse)] + LogsOf(turn.calls[..made])
    ensures made < |turn.calls| ==> made > 0 && !Undisturbed(turn.calls[made - 1])
  {
    made := CallsWrite(turn.calls);
  }

  function LogsOf(calls: seq<Call>): seq<Event> {
    if calls == [] then [] else CallLog(calls[0]) + LogsOf(calls[1..])
  }

  /** The loop goes on after a turn exactly when the reply has tool calls and nothing throws. */
  ghost predicate GoesOn(turn: Turn) {
    && turn.Reply? && turn.calls != [] && !turn.throwsAfter
    && forall i :: 0 <= i < |turn.calls| ==> Undisturbed(turn.calls[i])
  }

  /** Turns are taken until the limit, or the first after which the loop does not go on. */
  lemma {:induction false} TurnsTaken(turns: seq<Turn>, limit: nat) returns (taken: nat)
    ensures taken <= |turns| && taken <= limit && Taken(turns, limit) == turns[..taken]
    ensures forall i :: 0 <= i < taken - 1 ==> GoesOn(turns[i])
    ensures taken < limit && taken < |turns| ==> taken > 0 && !GoesOn(turns[taken - 1])
  {
    taken := 0;
    if limit > 0 && turns != [] {
      assert LastTurn(turns[0]) <==> !GoesOn(turns[0]);
      if LastTurn(turns[0]) {
        taken := 1;
        assert turns[..1] == [turns[0]];
      } else {
        var rest := TurnsTaken(turns[1..], limit - 1);
        taken := rest + 1;
        assert turns[..taken] == [turns[0]] + turns[1..][..rest];
        assert forall i :: 1 <= i < |turns| ==> turns[i] == turns[1..][i - 1];
      }
    }
  }

  class AgentRuntime {
    var log: seq<Event>
    const maxIterations: nat

    constructor (maxIterations: nat)
      ensures log == [] && this.maxIterations == maxIterations
    {
      this.maxIterations := maxIterations;
      log := [];
    }

    method AppendEvent(e: Event)
      modifies this
      ensures log == old(log) + [e]
    {
      log := log + [e];
    }

    method ProcessInput(input: Input)
      requires maxIterations <= |input.turns|
      modifies this
      ensures log == old(log) + InputLog(input, maxIterations)
    {
      if input.recorded.Refused? {
        Empty(log);
        return;
      }
      AppendEvent(Other(UserInput));
      if input.recorded.Threw? {
        return;
      }
      RunLoop(input.turns);
      Associative(old(log), [Other(UserInput)], LoopLog(input.turns, maxIterations));
    }

    method RunLoop(turns: seq<Turn>)
      requires maxIterations <= |turns|
      modifies this
      ensures log == old(log) + LoopLog(turns, maxIterations)
    {
      var iterations := 0;
      while iterations < maxIterations
        invariant TurnsLeft(old(log), turns, maxIterations, log, iterations)
      {
        TurnsStep(old(log), turns, maxIterations, log, iterations);
        var done := RunTurn(turns[iterations]);
        if done {
          return;
        }
        iterations := iterations + 1;
      }
      Empty(log);
    }

    method RunTurn(turn: Turn) returns (done: bool)
      modifies this
      ensures log == old(log) + TurnLog(turn) && done == LastTurn(turn)
    {
      if turn == Throws(BeforeRequest) {
        Empty(log);
        return true;
      }
      AppendEvent(Other(ModelRequest));
      if turn == Throws(AfterRequest) {
        return true;
      }
      AppendEvent(Other(ModelResponse));
      assert log == old(log) + [Other(ModelRequest), Other(ModelResponse)];
      if turn.Throws? {
        return true;
      }
      var results, threw := ExecuteToolCalls(turn.calls);
      Associative(old(log), [Other(ModelRequest), Other(ModelResponse)], CallsLog(turn.calls));
      return threw || turn.calls == [] || turn.throwsAfter;
    }

    /** What throws out of a call ends the calls; what was written stays. */
    method ExecuteToolCalls(toolCalls: seq<Call>) returns (results: seq<ToolResult>, threw: bool)
      modifies this
      ensures log == old(log) + CallsLog(toolCalls)
      ensures threw == !AllQuiet(toolCalls)
      ensures !threw ==> |results| == |toolCalls|
      ensures ResultsOf(toolCalls, results)
      ensures Answered(toolCalls, results, threw)
    {
      results := [];
      for i := 0 to |toolCalls|
        invariant LeftToLog(old(log), toolCalls, log, i)
        invariant forall j :: 0 <= j < i ==> Quiet(toolCalls[j])
        invariant |results| == i && ResultsOf(toolCalls, results)
      {
        var toolCall := toolCalls[i];
        CallsStep(old(log), toolCalls, log, i);
        var result, thrown := ExecuteToolCall(toolCall);
        if thrown {
          AnswersMean(toolCalls, results, true);
          return results, true;
        }
        OneMoreResult(toolCalls, results, result);
        results := results + [result];
      }
      AllLogged(old(log), toolCalls, log);
      AnswersMean(toolCalls, results, false);
      threw := false;
    }

    method ExecuteToolCall(toolCall: Call) returns (result: ToolResult, thrown: bool)
      modifies this
      ensures log == old(log) + CallLog(toolCall)
      ensures result == ResultOf(toolCall) && thrown == !Quiet(toolCall)
    {
      result := ResultOf(toolCall);
      if toolCall.throws.onToolCall || toolCall.throws.started.Refused? {
        Empty(log);
        return result, true;
      }
      AppendEvent(StartOf(toolCall));
      if toolCall.throws.started.Threw? {
        return result, true;
      }
      result := TryInvoke(toolCall);
      Associative(old(log), [StartOf(toolCall)], Inside(toolCall));
      if toolCall.throws.onToolResult || toolCall.throws.outcome.Refused? {
        Empty([StartOf(toolCall)] + Inside(toolCall));
        return result, true;
      }
      AppendEvent(OutcomeOf(toolCall));
      Associative(old(log), [StartOf(toolCall)] + Inside(toolCall), [OutcomeOf(toolCall)]);
      thrown := toolCall.throws.outcome.Threw?;
    }

    /** The `try` block, which catches whatever throws in it. */
    method TryInvoke(toolCall: Call) returns (result: ToolResult)
      modifies this
      ensures log == old(log) + Inside(toolCall)
      ensures result == ResultOf(toolCall)
    {
      if toolCall.isNew {
        if toolCall.throws.invocation.Refused? {
          Empty(log);
          return ToolResult(false, 0);
        }
        AppendEvent(Other(CallInvocation));
        if toolCall.throws.invocation.Threw? || toolCall.settles.Rejects? || toolCall.throws.callResult.Refused? {
          return ToolResult(false, 0);
        }
        AppendEvent(Other(CallResult));
        Associative(old(log), [Other(CallInvocation)], [Other(CallResult)]);
        if toolCall.throws.callResult.Threw? {
          return ToolResult(false, 0);
        }
      } else {
        Empty(log);
        if toolCall.settles.Rejects? {
          return ToolResult(false, 0);
        }
      }
      return ToolResult(toolCall.settles.success, toolCall.settles.duration);
    }
  }

  /** The turns from the `i`-th on still have to be logged. */
  ghost predicate TurnsLeft(log0: seq<Event>, turns: seq<Turn>, limit: nat, log: seq<Event>, i: nat) {
    i <= limit <= |turns| && log0 + LoopLog(turns, limit) == log + LoopLog(turns[i..], limit - i)
  }

  lemma TurnsStep(log0: seq<Event>, turns: seq<Turn>, limit: nat, log: seq<Event>, i: nat)
    requires TurnsLeft(log0, turns, limit, log, i) && i < limit
    ensures if LastTurn(turns[i]) then log0 + LoopLog(turns, limit) == log + TurnLog(turns[i])
            else TurnsLeft(log0, turns, limit, log + TurnLog(turns[i]), i + 1)
  {
    var more := if LastTurn(turns[i]) then [] else LoopLog(turns[i + 1..], limit - i - 1);
    assert turns[i..][1..] == turns[i + 1..] && turns[i..][0] == turns[i];
    var taken := Taken(turns[i..], limit - i);
    assert taken[0] == turns[i] && TurnsLog(taken) == TurnLog(taken[0]) + TurnsLog(taken[1..]);
    assert taken[1..] == if LastTurn(turns[i]) then [] else Taken(turns[i + 1..], limit - i - 1);
    assert TurnsLog(taken[1..]) == more;
    Associative(log, TurnLog(turns[i]), more);
    Empty(log + TurnLog(turns[i]));
  }

  ghost predicate ResultsOf(calls: seq<Call>, results: seq<ToolResult>) {
    |results| <= |calls| && forall i :: 0 <= i < |results| ==> results[i] == ResultOf(calls[i])
  }

  lemma OneMoreResult(calls: seq<Call>, results: seq<ToolResult>, result: ToolResult)
    requires ResultsOf(calls, results) && |results| < |calls| && result == ResultOf(calls[|results|])
    ensures ResultsOf(calls, results + [result])
  {
  }

  lemma AllLogged(log0: seq<Event>, calls: seq<Call>, log: seq<Event>)
    requires LeftToLog(log0, calls, log, |calls|)
    ensures log == log0 + CallsLog(calls)
  {
    Empty(log);
  }

  /** The calls from the `i`-th on still have to be logged. */
  ghost predicate LeftToLog(log0: seq<Event>, calls: seq<Call>, log: seq<Event>, i: nat) {
    i <= |calls| && log0 + CallsLog(calls) == log + CallsLog(calls[i..])
  }

  lemma CallsStep(log0: seq<Event>, calls: seq<Call>, log: seq<Event>, i: nat)
    requires LeftToLog(log0, calls, log, i) && i < |calls|
    ensures if Quiet(calls[i]) then LeftToLog(log0, calls, log + CallLog(calls[i]), i + 1)
            else log0 + CallsLog(calls) == log + CallLog(calls[i])
  {
    var more := if Quiet(calls[i]) then CallsLog(calls[i + 1..]) else [];
    assert calls[i..][1..] == calls[i + 1..] && calls[i..][0] == calls[i];
    Associative(log, CallLog(calls[i]), more);
    Empty(log + CallLog(calls[i]));
  }

  // --------------------------------------------------- the tool events of a session

  /** `filter` on the three tool execution event types. */
  function ToolEvents(log: seq<Event>): seq<Event> {
    if log == [] then []
    else if log[0].Execution? then [log[0]] + ToolEvents(log[1..])
    else ToolEvents(log[1..])
  }

  /** The calls that wrote a start, in order. */
  function Ran(calls: seq<Call>): seq<Call> {
    if calls == [] || !Starts(calls[0]) then []
    else if !Quiet(calls[0]) then [calls[0]]
    else [calls[0]] + Ran(calls[1..])
  }

  function LoopRuns(turns: seq<Turn>, limit: nat): seq<Call> {
    TurnsRuns(Taken(turns, limit))
  }

  function TurnsRuns(turns: seq<Turn>): seq<Call> {
    if turns == [] then [] else TurnRuns(turns[0]) + TurnsRuns(turns[1..])
  }

  function TurnRuns(turn: Turn): seq<Call> {
    if turn.Throws? then [] else Ran(turn.calls)
  }

  function InputRuns(input: Input, limit: nat): seq<Call> {
    if !input.recorded.Recorded? then [] else LoopRuns(input.turns, limit)
  }

  /** The log after any number of inputs, one after the other. */
  function SessionLog(inputs: seq<Input>, limit: nat): seq<Event> {
    if inputs == [] then [] else InputLog(inputs[0], limit) + SessionLog(inputs[1..], limit)
  }

  function SessionRuns(inputs: seq<Input>, limit: nat): seq<Call> {
    if inputs == [] then [] else InputRuns(inputs[0], limit) + SessionRuns(inputs[1..], limit)
  }

  /** The start of each run, followed by its own outcome unless it was cut off. */
  function ToolLog(runs: seq<Call>): seq<Event> {
    if runs == [] then [] else Bracket(runs[0]) + ToolLog(runs[1..])
  }

  function Bracket(c: Call): seq<Event> {
    [StartOf(c)] + if CutOff(c) then [] else [OutcomeOf(c)]
  }

  lemma {:induction false} ToolEventsConcat(a: seq<Event>, b: seq<Event>)
    ensures ToolEvents(a + b) == ToolEvents(a) + ToolEvents(b)
  {
    if a == [] {
      Empty(b);
      Empty(ToolEvents(b));
    } else {
      assert (a + b)[0] == a[0] && (a + b)[1..] == a[1..] + b;
      ToolEventsConcat(a[1..], b);
      Associative([a[0]], ToolEvents(a[1..]), ToolEvents(b));
    }
  }

  lemma {:induction false} ToolLogConcat(a: seq<Call>, b: seq<Call>)
    ensures ToolLog(a + b) == ToolLog(a) + ToolLog(b)
  {
    if a == [] {
      Empty(b);
      Empty(ToolLog(b));
    } else {
      assert (a + b)[0] == a[0] && (a + b)[1..] == a[1..] + b;
      ToolLogConcat(a[1..], b);
      Associative(Bracket(a[0]), ToolLog(a[1..]), ToolLog(b));
    }
  }

  lemma NothingInside(c: Call)
    ensures ToolEvents(Inside(c)) == []
  {
    if Inside(c) != [] {
      assert ToolEvents(Inside(c)[1..]) == [];
    }
  }

  lemma CallToolEvents(c: Call)
    ensures ToolEvents(CallLog(c)) == if Starts(c) then Bracket(c) else []
  {
    if Starts(c) {
      var inside := if c.throws.started.Threw? then [] else Inside(c);
      var end := if CutOff(c) then [] else [OutcomeOf(c)];
      ToolEventsConcat([StartOf(c)] + inside, end);
      ToolEventsConcat([StartOf(c)], inside);
      NothingInside(c);
    }
  }

  lemma {:induction false} CallsToolEvents(calls: seq<Call>)
    ensures ToolEvents(CallsLog(calls)) == ToolLog(Ran(calls))
  {
    if calls != [] {
      var c, rest := calls[0], calls[1..];
      CallToolEvents(c);
      ToolEventsConcat(CallLog(c), if Quiet(c) then CallsLog(rest) else []);
      if Quiet(c) {
        CallsToolEvents(rest);
        ToolLogConcat([c], Ran(rest));
      }
      Empty(Bracket(c));
      assert ToolLog([c]) == Bracket(c);
    }
  }

  lemma TurnToolEvents(turn: Turn)
    ensures ToolEvents(TurnLog(turn)) == ToolLog(TurnRuns(turn))
  {
    var asked := [Other(ModelRequest), Other(ModelResponse)];
    assert asked[1..] == [Other(ModelResponse)];
    if turn.Reply? {
      ToolEventsConcat(asked, CallsLog(turn.calls));
      CallsToolEvents(turn.calls);
      Empty(ToolLog(Ran(turn.calls)));
    }
  }

  lemma {:induction false} TurnsToolEvents(turns: seq<Turn>)
    ensures ToolEvents(TurnsLog(turns)) == ToolLog(TurnsRuns(turns))
  {
    if turns != [] {
      TurnToolEvents(turns[0]);
      ToolEventsConcat(TurnLog(turns[0]), TurnsLog(turns[1..]));
      TurnsToolEvents(turns[1..]);
      ToolLogConcat(TurnRuns(turns[0]), TurnsRuns(turns[1..]));
    }
  }

  /** Among the tool events of a session, each start is followed by its own outcome, or,
      when the run was cut off, by the next start. */
  lemma {:induction false} SessionToolEvents(inputs: seq<Input>, limit: nat)
    ensures ToolEvents(SessionLog(inputs, limit)) == ToolLog(SessionRuns(inputs, limit))
  {
    if inputs != [] {
      ToolEventsConcat(InputLog(inputs[0], limit), SessionLog(inputs[1..], limit));
      InputToolEvents(inputs[0], limit);
      SessionToolEvents(inputs[1..], limit);
      ToolLogConcat(InputRuns(inputs[0], limit), SessionRuns(inputs[1..], limit));
    }
  }

  lemma InputToolEvents(input: Input, limit: nat)
    ensures ToolEvents(InputLog(input, limit)) == ToolLog(InputRuns(input, limit))
  {
    ToolEventsConcat([Other(UserInput)], if input.recorded.Threw? then [] else LoopLog(input.turns, limit));
    TurnsToolEvents(Taken(input.turns, limit));
  }

  // --------------------------------------------------------------- open tool starts

  function Delta(e: Event): int {
    if e.Other? then 0 else if e.phase == Started then 1 else -1
  }

  /** Starts minus outcomes. */
  function Open(log: seq<Event>): int {
    if log == [] then 0 else Delta(log[0]) + Open(log[1..])
  }

  /** The most starts open at any point, when `open` are open already. */
  function MostOpen(log: seq<Event>, open: int): (most: int)
    ensures most >= open
  {
    if log == [] then open
    else
      var later := MostOpen(log[1..], open + Delta(log[0]));
      if later > open then later else open
  }

  function Cuts(runs: seq<Call>): nat {
    if runs == [] then 0 else (if CutOff(runs[0]) then 1 else 0) + Cuts(runs[1..])
  }

  lemma {:induction false} MostOpenIsMost(log: seq<Event>, open: int) returns (at: nat)
    ensures forall i :: 0 <= i <= |log| ==> open + Open(log[..i]) <= MostOpen(log, open)
    ensures at <= |log| && open + Open(log[..at]) == MostOpen(log, open)
  {
    at := 0;
    assert Open(log[..0]) == 0;
    if log != [] {
      var tail := log[1..];
      var later := MostOpenIsMost(tail, open + Delta(log[0]));
      forall i | 0 < i <= |log|
        ensures Open(log[..i]) == Delta(log[0]) + Open(tail[..i - 1])
      {
        assert log[..i][1..] == tail[..i - 1];
      }
      if MostOpen(log, open) > open {
        at := later + 1;
      }
    }
  }

  lemma {:induction false} OpenToolEvents(log: seq<Event>, open: int)
    ensures Open(ToolEvents(log)) == Open(log)
    ensures MostOpen(ToolEvents(log), open) == MostOpen(log, open)
  {
    if log != [] {
      OpenToolEvents(log[1..], open + Delta(log[0]));
    }
  }

  lemma OpenBracket(c: Call, tail: seq<Event>, open: int)
    ensures Open(Bracket(c) + tail) == (if CutOff(c) then 1 else 0) + Open(tail)
    ensures var later := MostOpen(tail, if CutOff(c) then open + 1 else open);
      MostOpen(Bracket(c) + tail, open) == if later > open then later else open + 1
  {
    var after := if CutOff(c) then tail else [OutcomeOf(c)] + tail;
    assert (Bracket(c) + tail)[1..] == after;
    if !CutOff(c) {
      assert after[1..] == tail;
    }
  }

  lemma {:induction false} OpenRuns(runs: seq<Call>, open: int)
    ensures Open(ToolLog(runs)) == Cuts(runs)
    ensures MostOpen(ToolLog(runs), open) == if runs == [] then open else open + Cuts(runs[..|runs| - 1]) + 1
  {
    if runs != [] {
      var c, rest := runs[0], runs[1..];
      OpenRuns(rest, if CutOff(c) then open + 1 else open);
      OpenBracket(c, ToolLog(rest), open);
      if rest != [] {
        assert runs[..|runs| - 1][1..] == rest[..|rest| - 1];
      }
    }
  }

  lemma {:induction false} CutsZeroIff(runs: seq<Call>)
    ensures Cuts(runs) == 0 <==> AllWhole(runs)
  {
    if runs != [] {
      CutsZeroIff(runs[1..]);
      assert forall k :: 1 <= k < |runs| ==> runs[k] == runs[1..][k - 1];
    }
  }

  ghost predicate AtMostOneOpen(log: seq<Event>) {
    forall i :: 0 <= i <= |log| ==> Open(log[..i]) <= 1
  }

  lemma AtMostOneOpenIff(log: seq<Event>)
    ensures AtMostOneOpen(log) <==> MostOpen(log, 0) <= 1
  {
    var at := MostOpenIsMost(log, 0);
  }

  ghost predicate AllWhole(runs: seq<Call>) {
    forall k :: 0 <= k < |runs| ==> !CutOff(runs[k])
  }

  /** In a session's log at most one tool start is open at any point exactly when no run
      but the last was cut off, and at rest none is open exactly when no run was. */
  lemma BracketedIff(inputs: seq<Input>, limit: nat)
    ensures
      var log, runs := SessionLog(inputs, limit), SessionRuns(inputs, limit);
      && (AtMostOneOpen(log) <==> runs == [] || AllWhole(runs[..|runs| - 1]))
      && (Open(log) == 0 <==> AllWhole(runs))
  {
    var log, runs := SessionLog(inputs, limit), SessionRuns(inputs, limit);
    SessionToolEvents(inputs, limit);
    OpenToolEvents(log, 0);
    OpenRuns(runs, 0);
    CutsZeroIff(runs);
    AtMostOneOpenIff(log);
    if runs != [] {
      CutsZeroIff(runs[..|runs| - 1]);
    }
  }

  /** When no call is cut off as its callbacks and appends go, no run of the session is. */
  lemma {:induction false} QuietRunsAreWhole(inputs: seq<Input>, limit: nat)
    requires forall k :: 0 <= k < |inputs| ==> NoneCutOff(inputs[k].turns)
    ensures AllWhole(SessionRuns(inputs, limit))
  {
    if inputs != [] {
      LoopRunsAreWhole(inputs[0].turns, limit);
      QuietRunsAreWhole(inputs[1..], limit);
    }
  }

  ghost predicate NoneCutOff(turns: seq<Turn>) {
    forall t :: 0 <= t < |turns| && turns[t].Reply? ==> AllWhole(turns[t].calls)
  }

  lemma {:induction false} LoopRunsAreWhole(turns: seq<Turn>, limit: nat)
    requires NoneCutOff(turns)
    ensures AllWhole(LoopRuns(turns, limit))
  {
    TakenFrom(turns, limit);
    TurnsRunsAreWhole(Taken(turns, limit));
  }

  lemma {:induction false} TakenFrom(turns: seq<Turn>, limit: nat)
    requires NoneCutOff(turns)
    ensures NoneCutOff(Taken(turns, limit))
  {
    if limit > 0 && turns != [] {
      TakenFrom(turns[1..], limit - 1);
    }
  }

  lemma {:induction false} TurnsRunsAreWhole(turns: seq<Turn>)
    requires NoneCutOff(turns)
    ensures AllWhole(TurnsRuns(turns))
  {
    if turns != [] {
      if turns[0].Reply? {
        RanAreWhole(turns[0].calls);
      }
      TurnsRunsAreWhole(turns[1..]);
    }
  }

  lemma {:induction false} RanAreWhole(calls: seq<Call>)
    requires AllWhole(calls)
    ensures AllWhole(Ran(calls))
  {
    if calls != [] {
      RanAreWhole(calls[1..]);
    }
  }

  /** A subscriber that throws on a start leaves it open, though both callbacks are quiet. */
  lemma ThrowingSubscriberLeavesStartOpen(c: Call)
    requires c.throws == Faults(false, Threw, Recorded, Recorded, false, Recorded)
    ensures CallLog(c) == [StartOf(c)] && Open(CallLog(c)) == 1 && !Quiet(c)
  {
    assert CallLog(c)[1..] == [];
  }

  /** So does stopping the session while the tool runs, though nothing else throws. */
  lemma StoppingLeavesStartOpen(c: Call)
    requires c.isNew && c.throws == Faults(false, Recorded, Recorded, Refused, false, Refused)
    ensures CallLog(c) == [StartOf(c), Other(CallInvocation)] && Open(CallLog(c)) == 1 && !Quiet(c)
  {
    assert CallLog(c)[1..] == [Other(CallInvocation)] && CallLog(c)[1..][1..] == [];
    assert Open(CallLog(c)[1..]) == 0;
  }
}
