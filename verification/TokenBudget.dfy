/** `enforceBudget` (src/memory/provenance-context.ts): three greedy passes that
    fill a token budget. */
module TokenBudgets {
  import opened OrderedMaps
  import opened MessageClassifiers

  datatype Budget = Budget(goalPercent: real, summaryPercent: real)

  /** `Math.ceil(length / 4)` */
  function EstimateTokens(m: Message): (r: nat)
    ensures 4 * (r - 1) < m.length <= 4 * r
  {
    (m.length + 3) / 4
  }

  function Tokens(ms: seq<Message>): nat {
    if ms == [] then 0 else Tokens(ms[..|ms| - 1]) + EstimateTokens(ms[|ms| - 1])
  }

  function Share(remaining: int, percent: real): int {
    ((remaining as real) * (percent / 100.0)).Floor
  }

  datatype Pass = GoalPass | SummaryPass | HistoryPass

  /** Which messages a pass looks at. Only the later passes skip a message that is
      already in the result. */
  predicate Wants(pass: Pass, m: Message, result: seq<Message>) {
    match pass
    case GoalPass => m.role == User && IsGoalMessage(m)
    case SummaryPass => m.role == Assistant && m !in result
    case HistoryPass => m !in result
  }

  function Offer(pass: Pass, m: Message, result: seq<Message>, limit: int): seq<Message> {
    if Wants(pass, m, result) && Tokens(result) + EstimateTokens(m) <= limit then result + [m] else result
  }

  function RunPass(pass: Pass, ms: seq<Message>, result: seq<Message>, limit: int): seq<Message> {
    if ms == [] then result
    else Offer(pass, ms[|ms| - 1], RunPass(pass, ms[..|ms| - 1], result, limit), limit)
  }

  function Others(ms: seq<Message>): seq<Message> {
    if ms == [] then []
    else Others(ms[..|ms| - 1]) + if ms[|ms| - 1].role != System then [ms[|ms| - 1]] else []
  }

  function AfterGoals(ms: seq<Message>, goalLimit: int): seq<Message> {
    RunPass(GoalPass, Others(ms), Systems(ms), goalLimit)
  }

  function AfterSummaries(ms: seq<Message>, goalLimit: int, summaryLimit: int): seq<Message> {
    RunPass(SummaryPass, Others(ms), AfterGoals(ms, goalLimit), summaryLimit)
  }

  /** The three passes, with their limits on the total. */
  function Allocated(ms: seq<Message>, goalLimit: int, summaryLimit: int, maxTokens: int): seq<Message> {
    if maxTokens <= Tokens(Systems(ms)) then Systems(ms)
    else RunPass(HistoryPass, Others(ms), AfterSummaries(ms, goalLimit, summaryLimit), maxTokens)
  }

  function GoalLimit(systemTokens: nat, budget: Budget, maxTokens: int): int {
    systemTokens + Share(maxTokens - systemTokens, budget.goalPercent)
  }

  function SummaryLimit(systemTokens: nat, budget: Budget, maxTokens: int): int {
    GoalLimit(systemTokens, budget, maxTokens) + Share(maxTokens - systemTokens, budget.summaryPercent)
  }

  function Enforced(ms: seq<Message>, budget: Budget, maxTokens: int): seq<Message> {
    var systemTokens := Tokens(Systems(ms));
    Allocated(ms, GoalLimit(systemTokens, budget, maxTokens), SummaryLimit(systemTokens, budget, maxTokens), maxTokens)
  }

  // ------------------------------------------------------------- the method

  /** The loops allocate the budget to three passes, with the shares that the percentages give. */
  method EnforceBudget(messages: seq<Message>, budget: Budget, maxTokens: int)
    returns (result: seq<Message>, ghost goalShare: int, ghost summaryShare: int)
    ensures result == Enforced(messages, budget, maxTokens)
    ensures IsShare(goalShare, maxTokens - Tokens(Systems(messages)), budget.goalPercent)
    ensures IsShare(summaryShare, maxTokens - Tokens(Systems(messages)), budget.summaryPercent)
    ensures var n := Tokens(Systems(messages));
      result == Allocated(messages, n + goalShare, n + (goalShare + summaryShare), maxTokens)
  {
    goalShare, summaryShare := TheShares(messages, budget, maxTokens);
    result := FillBudget(messages, budget, maxTokens);
  }

  method FillBudget(messages: seq<Message>, budget: Budget, maxTokens: int) returns (result: seq<Message>)
    ensures result == Enforced(messages, budget, maxTokens)
  {
    var systemMessages, otherMessages, systemTokens := SplitSystem(messages);
    var remainingBudget := maxTokens - systemTokens;
    if remainingBudget <= 0 {
      return systemMessages;
    }
    var goalLimit, summaryLimit := PassLimits(remainingBudget, budget, systemTokens, maxTokens);
    result := FillAll(systemMessages, otherMessages, systemTokens, goalLimit, summaryLimit, maxTokens);
  }

  method PassLimits(remainingBudget: int, budget: Budget, systemTokens: nat, maxTokens: int)
    returns (goalLimit: int, summaryLimit: int)
    requires remainingBudget == maxTokens - systemTokens
    ensures goalLimit == GoalLimit(systemTokens, budget, maxTokens)
    ensures summaryLimit == SummaryLimit(systemTokens, budget, maxTokens)
  {
    var goalBudget := Share(remainingBudget, budget.goalPercent);
    var summaryBudget := Share(remainingBudget, budget.summaryPercent);
    goalLimit := systemTokens + goalBudget;
    summaryLimit := goalLimit + summaryBudget;
  }

  /** The three passes, each going on from where the one before it stopped. */
  method FillAll(systemMessages: seq<Message>, otherMessages: seq<Message>, systemTokens: nat,
                 goalLimit: int, summaryLimit: int, maxTokens: int)
    returns (result: seq<Message>)
    requires systemTokens == Tokens(systemMessages)
    ensures
      var goals := RunPass(GoalPass, otherMessages, systemMessages, goalLimit);
      var summaries := RunPass(SummaryPass, otherMessages, goals, summaryLimit);
      result == RunPass(HistoryPass, otherMessages, summaries, maxTokens)
  {
    var currentTokens;
    result, currentTokens := Fill(GoalPass, otherMessages, systemMessages, systemTokens, goalLimit);
    result, currentTokens := Fill(SummaryPass, otherMessages, result, currentTokens, summaryLimit);
    result, currentTokens := Fill(HistoryPass, otherMessages, result, currentTokens, maxTokens);
  }

  method SplitSystem(messages: seq<Message>)
    returns (systemMessages: seq<Message>, otherMessages: seq<Message>, systemTokens: nat)
    ensures systemMessages == Systems(messages) && otherMessages == Others(messages)
    ensures systemTokens == Tokens(systemMessages)
  {
    systemMessages, otherMessages, systemTokens := [], [], 0;
    for i := 0 to |messages|
      invariant systemMessages == Systems(messages[..i]) && otherMessages == Others(messages[..i])
      invariant systemTokens == Tokens(systemMessages)
    {
      assert messages[..i + 1][..i] == messages[..i];
      if messages[i].role == System {
        TokensAppend(systemMessages, messages[i]);
        systemMessages := systemMessages + [messages[i]];
        systemTokens := systemTokens + EstimateTokens(messages[i]);
      } else {
        otherMessages := otherMessages + [messages[i]];
      }
    }
    assert messages[..|messages|] == messages;
  }

  /** One pass over the non-system messages, keeping a running token count. */
  method Fill(pass: Pass, messages: seq<Message>, result0: seq<Message>, tokens0: nat, limit: int)
    returns (result: seq<Message>, currentTokens: nat)
    requires tokens0 == Tokens(result0)
    ensures result == RunPass(pass, messages, result0, limit)
    ensures currentTokens == Tokens(result)
  {
    result, currentTokens := result0, tokens0;
    for i := 0 to |messages|
      invariant result == RunPass(pass, messages[..i], result0, limit)
      invariant currentTokens == Tokens(result)
    {
      assert messages[..i + 1][..i] == messages[..i];
      var msg := messages[i];
      if Wants(pass, msg, result) {
        var msgTokens := EstimateTokens(msg);
        if currentTokens + msgTokens <= limit {
          TokensAppend(result, msg);
          result := result + [msg];
          currentTokens := currentTokens + msgTokens;
        }
      }
    }
    assert messages[..|messages|] == messages;
  }

  lemma TokensAppend(ms: seq<Message>, m: Message)
    ensures Tokens(ms + [m]) == Tokens(ms) + EstimateTokens(m)
  {
    assert (ms + [m])[..|ms|] == ms;
  }

  // ------------------------------------------------------------- one pass

  /** What a pass keeps: it only appends, stays within its limit (unless already
      past it), and leaves out no wanted message that would still fit. */
  lemma {:induction false} PassKeeps(pass: Pass, ms: seq<Message>, result: seq<Message>, limit: int)
    ensures var r := RunPass(pass, ms, result, limit);
            && result <= r
            && Tokens(result) <= Tokens(r)
            && (Tokens(r) <= limit || r == result)
            && (forall m :: m in r ==> m in result || m in ms)
  {
    if ms != [] {
      var n := |ms| - 1;
      PassKeeps(pass, ms[..n], result, limit);
      OfferKeeps(pass, ms[n], RunPass(pass, ms[..n], result, limit), limit);
    }
  }

  lemma OfferKeeps(pass: Pass, m: Message, before: seq<Message>, limit: int)
    ensures var r := Offer(pass, m, before, limit);
            && before <= r
            && Tokens(before) <= Tokens(r)
            && (Tokens(r) <= limit || r == before)
            && (forall x :: x in r ==> x in before || x == m)
  {
    TokensAppend(before, m);
  }

  lemma {:induction false} HistoryPassIsMaximal(ms: seq<Message>, result: seq<Message>, limit: int, m: Message)
    requires m in ms
    ensures var r := RunPass(HistoryPass, ms, result, limit);
            m in r || Tokens(r) + EstimateTokens(m) > limit
  {
    var n := |ms| - 1;
    var before := RunPass(HistoryPass, ms[..n], result, limit);
    OfferKeeps(HistoryPass, ms[n], before, limit);
    if m == ms[n] {
      TokensAppend(before, m);
    } else {
      assert m in ms[..n];
      HistoryPassIsMaximal(ms[..n], result, limit, m);
    }
  }

  lemma {:induction false} LaterPassDistinct(pass: Pass, ms: seq<Message>, result: seq<Message>, limit: int)
    requires pass != GoalPass && Distinct(result)
    ensures Distinct(RunPass(pass, ms, result, limit))
  {
    if ms != [] {
      LaterPassDistinct(pass, ms[..|ms| - 1], result, limit);
    }
  }

  /** The goal pass meets a goal message it has already taken, at position `i`, and it still
      fits. */
  ghost predicate TakenAgain(ms: seq<Message>, result: seq<Message>, limit: int, i: nat)
    requires i < |ms|
  {
    var before := RunPass(GoalPass, ms[..i], result, limit);
    Wants(GoalPass, ms[i], before) && ms[i] in before && Tokens(before) + EstimateTokens(ms[i]) <= limit
  }

  ghost predicate NoneTakenAgain(ms: seq<Message>, result: seq<Message>, limit: int) {
    forall i :: 0 <= i < |ms| ==> !TakenAgain(ms, result, limit, i)
  }

  lemma NoneTakenAgainStep(ms: seq<Message>, result: seq<Message>, limit: int)
    requires ms != []
    ensures NoneTakenAgain(ms, result, limit)
       <==> NoneTakenAgain(ms[..|ms| - 1], result, limit) && !TakenAgain(ms, result, limit, |ms| - 1)
  {
    var n := |ms| - 1;
    forall i | 0 <= i < n
      ensures TakenAgain(ms[..n], result, limit, i) <==> TakenAgain(ms, result, limit, i)
    {
      assert ms[..n][..i] == ms[..i];
    }
  }

  /** The goal pass repeats something exactly when it takes a message again. */
  lemma {:induction false} GoalPassDistinctIff(ms: seq<Message>, result: seq<Message>, limit: int)
    ensures Distinct(RunPass(GoalPass, ms, result, limit))
       <==> Distinct(result) && NoneTakenAgain(ms, result, limit)
  {
    if ms != [] {
      var n := |ms| - 1;
      GoalPassDistinctIff(ms[..n], result, limit);
      NoneTakenAgainStep(ms, result, limit);
      OfferDistinct(ms[n], RunPass(GoalPass, ms[..n], result, limit), limit);
    }
  }

  lemma OfferDistinct(m: Message, before: seq<Message>, limit: int)
    ensures Distinct(Offer(GoalPass, m, before, limit))
       <==> Distinct(before)
            && !(Wants(GoalPass, m, before) && m in before && Tokens(before) + EstimateTokens(m) <= limit)
  {
    if !Distinct(before) {
      OfferKeeps(GoalPass, m, before, limit);
      PrefixRepeats(before, Offer(GoalPass, m, before, limit));
    } else if m in before {
      var i :| 0 <= i < |before| && before[i] == m;
      assert (before + [m])[i] == (before + [m])[|before|];
    } else {
      DistinctAppend(before, m);
    }
  }

  ghost predicate GoalsDistinct(ms: seq<Message>) {
    forall i, j :: 0 <= i < j < |ms| && IsGoalMessage(ms[i]) ==> ms[i] != ms[j]
  }

  /** It takes only what it is given, and without repeated goal messages nothing again. */
  lemma {:induction false} GoalPassTakes(ms: seq<Message>, result: seq<Message>, limit: int)
    ensures forall m :: m in RunPass(GoalPass, ms, result, limit) ==> m in result || (m in ms && IsGoalMessage(m))
  {
    if ms != [] {
      var n := |ms| - 1;
      assert ms == ms[..n] + [ms[n]];
      GoalPassTakes(ms[..n], result, limit);
    }
  }

  // -------------------------------------------------------- the whole budget

  lemma {:induction false} SystemsAre(ms: seq<Message>)
    ensures forall m :: m in Systems(ms) <==> m in ms && m.role == System
    ensures forall m :: m in Others(ms) <==> m in ms && m.role != System
    ensures Distinct(ms) ==> Distinct(Systems(ms)) && Distinct(Others(ms))
  {
    if ms != [] {
      var n := |ms| - 1;
      assert ms == ms[..n] + [ms[n]];
      SystemsAre(ms[..n]);
      if Distinct(ms) {
        DistinctAppend(ms[..n], ms[n]);
      }
    }
  }

  /** Every system message is kept, in front; only given messages appear; and
      unless a limit exceeds the maximum, the total stays within the larger of the
      system messages' tokens and the maximum. */
  lemma AllocationRespected(ms: seq<Message>, goalLimit: int, summaryLimit: int, maxTokens: int)
    ensures var r := Allocated(ms, goalLimit, summaryLimit, maxTokens);
            && Systems(ms) <= r
            && (forall m :: m in r ==> m in ms)
            && (goalLimit <= maxTokens && summaryLimit <= maxTokens ==>
                  Tokens(r) <= if Tokens(Systems(ms)) <= maxTokens then maxTokens else Tokens(Systems(ms)))
  {
    SystemsAre(ms);
    PassKeeps(GoalPass, Others(ms), Systems(ms), goalLimit);
    PassKeeps(SummaryPass, Others(ms), AfterGoals(ms, goalLimit), summaryLimit);
    PassKeeps(HistoryPass, Others(ms), AfterSummaries(ms, goalLimit, summaryLimit), maxTokens);
  }

  /** So percentages of at most 100 (one alone, and together) respect the budget. */
  lemma BudgetRespected(ms: seq<Message>, budget: Budget, maxTokens: int)
    ensures var r := Enforced(ms, budget, maxTokens);
            && Systems(ms) <= r
            && (forall m :: m in r ==> m in ms)
            && (budget.goalPercent <= 100.0 && budget.goalPercent + budget.summaryPercent <= 100.0 ==>
                  Tokens(r) <= if Tokens(Systems(ms)) <= maxTokens then maxTokens else Tokens(Systems(ms)))
  {
    var systemTokens := Tokens(Systems(ms));
    var goalLimit := systemTokens + Share(maxTokens - systemTokens, budget.goalPercent);
    AllocationRespected(ms, goalLimit, goalLimit + Share(maxTokens - systemTokens, budget.summaryPercent), maxTokens);
    if maxTokens > systemTokens && budget.goalPercent <= 100.0 && budget.goalPercent + budget.summaryPercent <= 100.0 {
      SharesFit(maxTokens - systemTokens, budget);
    }
  }

  lemma SharesFit(remaining: int, budget: Budget)
    requires remaining > 0
    requires budget.goalPercent <= 100.0 && budget.goalPercent + budget.summaryPercent <= 100.0
    ensures Share(remaining, budget.goalPercent) <= remaining
    ensures Share(remaining, budget.goalPercent) + Share(remaining, budget.summaryPercent) <= remaining
  {
    var r := remaining as real;
    var g, s := budget.goalPercent / 100.0, budget.summaryPercent / 100.0;
    assert g <= 1.0 && g + s <= 1.0;
    assert r * g <= r;
    assert r * g + r * s == r * (g + s) <= r;
  }

  /** The two limits are also necessary: without system messages, every total stays
      within the maximum if and only if both limits do. */
  lemma AllocationRespectedIff(goalLimit: int, summaryLimit: int, maxTokens: int)
    requires maxTokens > 0
    ensures (forall ms :: Systems(ms) == [] ==> Tokens(Allocated(ms, goalLimit, summaryLimit, maxTokens)) <= maxTokens)
       <==> goalLimit <= maxTokens && summaryLimit <= maxTokens
  {
    if goalLimit <= maxTokens && summaryLimit <= maxTokens {
      forall ms | Systems(ms) == []
        ensures Tokens(Allocated(ms, goalLimit, summaryLimit, maxTokens)) <= maxTokens
      {
        AllocationRespected(ms, goalLimit, summaryLimit, maxTokens);
      }
    } else if goalLimit > maxTokens {
      BigGoalOverflows(goalLimit, summaryLimit, maxTokens);
    } else {
      BigSummaryOverflows(goalLimit, summaryLimit, maxTokens);
    }
  }

  lemma BigGoalOverflows(goalLimit: int, summaryLimit: int, maxTokens: int)
    requires 0 < maxTokens < goalLimit
    ensures exists ms :: Systems(ms) == [] && Tokens(Allocated(ms, goalLimit, summaryLimit, maxTokens)) > maxTokens
  {
    var m := Message(0, User, "goal:", 4 * goalLimit, false);
    OneMessage(m);
    PassKeeps(SummaryPass, [m], [m], summaryLimit);
    PassKeeps(HistoryPass, [m], AfterSummaries([m], goalLimit, summaryLimit), maxTokens);
    assert Tokens(Allocated([m], goalLimit, summaryLimit, maxTokens)) > maxTokens;
  }

  lemma BigSummaryOverflows(goalLimit: int, summaryLimit: int, maxTokens: int)
    requires 0 < maxTokens < summaryLimit
    ensures exists ms :: Systems(ms) == [] && Tokens(Allocated(ms, goalLimit, summaryLimit, maxTokens)) > maxTokens
  {
    var m := Message(0, Assistant, "", 4 * summaryLimit, false);
    OneMessage(m);
    PassKeeps(HistoryPass, [m], [m], maxTokens);
    assert Tokens(Allocated([m], goalLimit, summaryLimit, maxTokens)) > maxTokens;
  }

  lemma OneMessage(m: Message)
    requires m.role != System
    ensures Systems([m]) == [] && Others([m]) == [m] && Tokens([m]) == EstimateTokens(m)
    ensures forall pass: Pass, result, limit :: RunPass(pass, [m], result, limit) == Offer(pass, m, result, limit)
  {
    assert [m][..0] == [];
  }

  /** Nothing is wasted: a message left out would overflow the final total. */
  lemma AllocationIsMaximal(ms: seq<Message>, goalLimit: int, summaryLimit: int, maxTokens: int, m: Message)
    requires Tokens(Systems(ms)) < maxTokens && m in ms
    ensures var r := Allocated(ms, goalLimit, summaryLimit, maxTokens);
            m in r || Tokens(r) + EstimateTokens(m) > maxTokens
  {
    SystemsAre(ms);
    if m.role == System {
      AllocationRespected(ms, goalLimit, summaryLimit, maxTokens);
    } else {
      HistoryPassIsMaximal(Others(ms), AfterSummaries(ms, goalLimit, summaryLimit), maxTokens, m);
    }
  }

  /** For every list of messages: no message object is included twice if and only if no
      system message object is given twice and, when there is room beside the system
      messages, no goal message that has been taken still fits under the goal limit when it
      is met again. */
  lemma AllocationDistinctIff(ms: seq<Message>, goalLimit: int, summaryLimit: int, maxTokens: int)
    ensures
      var others, systems := Others(ms), Systems(ms);
      Distinct(Allocated(ms, goalLimit, summaryLimit, maxTokens)) <==>
        && Distinct(systems)
        && (Tokens(systems) < maxTokens ==> NoneTakenAgain(others, systems, goalLimit))
  {
    if Tokens(Systems(ms)) < maxTokens {
      RepetitionsComeFromGoalPass(ms, goalLimit, summaryLimit, maxTokens);
      GoalPassDistinctIff(Others(ms), Systems(ms), goalLimit);
    }
  }

  /** So nothing is included twice when no system and no goal message object is given twice;
      other repetitions are harmless. */
  lemma AllocationDuplicatesNothing(ms: seq<Message>, goalLimit: int, summaryLimit: int, maxTokens: int)
    requires Distinct(Systems(ms)) && GoalsDistinct(Others(ms))
    ensures Distinct(Allocated(ms, goalLimit, summaryLimit, maxTokens))
  {
    var others, systems := Others(ms), Systems(ms);
    SystemsAre(ms);
    AllocationDistinctIff(ms, goalLimit, summaryLimit, maxTokens);
    forall i | 0 <= i < |others|
      ensures !TakenAgain(others, systems, goalLimit, i)
    {
      GoalPassTakes(others[..i], systems, goalLimit);
      assert others[i] in others;
    }
  }

  // ------------------------------------------------------------- what the shares are for

  ghost predicate IsGoal(m: Message) {
    m.role == User && ("goal:" <= m.lowered || "task:" <= m.lowered || "request:" <= m.lowered)
  }

  ghost predicate Suits(pass: Pass, m: Message) {
    match pass
    case GoalPass => IsGoal(m)
    case SummaryPass => m.role == Assistant
    case HistoryPass => m.role != System
  }

  /** What one greedy pass adds to `before`: only messages that suit it, within its limit; and
      what suits it and is left out would exceed the limit. */
  ghost predicate Added(pass: Pass, ms: seq<Message>, before: seq<Message>, more: seq<Message>, limit: int) {
    && (more == [] || Tokens(before) + Tokens(more) <= limit)
    && (forall m :: m in more ==> m in ms && Suits(pass, m))
    && (forall m :: m in ms && Suits(pass, m) ==> Placed(pass, m, before, more, limit))
  }

  ghost predicate Placed(pass: Pass, m: Message, before: seq<Message>, more: seq<Message>, limit: int) {
    || m in more || (pass != GoalPass && m in before)
    || Tokens(before) + Tokens(more) + EstimateTokens(m) > limit
  }

  /** `share` is that percentage of what remains, rounded down. */
  ghost predicate IsShare(share: int, remaining: int, percent: real) {
    share as real <= remaining as real * (percent / 100.0) < share as real + 1.0
  }

  lemma {:induction false} TokensConcat(a: seq<Message>, b: seq<Message>)
    ensures Tokens(a + b) == Tokens(a) + Tokens(b)
    decreases |b|
  {
    if b == [] {
      assert a + b == a;
    } else {
      assert (a + b)[..|a + b| - 1] == a + b[..|b| - 1];
      TokensConcat(a, b[..|b| - 1]);
    }
  }

  lemma {:induction false} PassAdds(pass: Pass, ms: seq<Message>, result: seq<Message>, limit: int)
    returns (more: seq<Message>)
    requires forall m :: m in ms ==> m.role != System
    ensures RunPass(pass, ms, result, limit) == result + more && Added(pass, ms, result, more, limit)
  {
    if ms == [] {
      more := [];
      assert result + [] == result;
    } else {
      var n := |ms| - 1;
      more := PassAdds(pass, ms[..n], result, limit);
      more := OfferAdds(pass, ms[..n], ms[n], result, more, limit);
      assert ms == ms[..n] + [ms[n]];
    }
  }

  lemma OfferAdds(pass: Pass, ms: seq<Message>, m: Message, result: seq<Message>, before: seq<Message>, limit: int)
    returns (more: seq<Message>)
    requires Added(pass, ms, result, before, limit) && m.role != System
    ensures Offer(pass, m, result + before, limit) == result + more && Added(pass, ms + [m], result, more, limit)
  {
    TokensConcat(result, before);
    more := before;
    if Wants(pass, m, result + before) && Tokens(result + before) + EstimateTokens(m) <= limit {
      OneMoreAdded(pass, ms, m, result, before, limit);
      Assoc(result, before, [m]);
      more := before + [m];
    } else {
      NoMoreAdded(pass, ms, m, result, before, limit);
    }
  }

  lemma Assoc(a: seq<Message>, b: seq<Message>, c: seq<Message>)
    ensures (a + b) + c == a + (b + c)
  {
  }

  lemma OneMoreAdded(pass: Pass, ms: seq<Message>, m: Message, before: seq<Message>, more: seq<Message>, limit: int)
    requires Added(pass, ms, before, more, limit) && Suits(pass, m)
    requires Tokens(before) + Tokens(more) + EstimateTokens(m) <= limit
    ensures Added(pass, ms + [m], before, more + [m], limit)
  {
    TokensAppend(more, m);
  }

  lemma NoMoreAdded(pass: Pass, ms: seq<Message>, m: Message, before: seq<Message>, more: seq<Message>, limit: int)
    requires Added(pass, ms, before, more, limit)
    requires Suits(pass, m) ==> Placed(pass, m, before, more, limit)
    ensures Added(pass, ms + [m], before, more, limit)
  {
  }

  /** The same in terms of all messages, without the system messages in front. */
  lemma WithoutSystems(pass: Pass, ms: seq<Message>, before: seq<Message>, more: seq<Message>, limit: int)
    requires Added(pass, Others(ms), Systems(ms) + before, more, Tokens(Systems(ms)) + limit)
    ensures Added(pass, ms, before, more, limit)
  {
    SystemsAre(ms);
    TokensConcat(Systems(ms), before);
  }

  lemma TheShares(ms: seq<Message>, budget: Budget, maxTokens: int) returns (goalShare: int, summaryShare: int)
    ensures IsShare(goalShare, maxTokens - Tokens(Systems(ms)), budget.goalPercent)
    ensures IsShare(summaryShare, maxTokens - Tokens(Systems(ms)), budget.summaryPercent)
    ensures
      var n := Tokens(Systems(ms));
      Enforced(ms, budget, maxTokens) == Allocated(ms, n + goalShare, n + (goalShare + summaryShare), maxTokens)
  {
    goalShare := Share(maxTokens - Tokens(Systems(ms)), budget.goalPercent);
    summaryShare := Share(maxTokens - Tokens(Systems(ms)), budget.summaryPercent);
    EnforcedIs(ms, budget, maxTokens, goalShare, summaryShare);
  }

  lemma SharesAre(systemTokens: nat, budget: Budget, maxTokens: int, goalShare: int, summaryShare: int)
    requires IsShare(goalShare, maxTokens - systemTokens, budget.goalPercent)
    requires IsShare(summaryShare, maxTokens - systemTokens, budget.summaryPercent)
    ensures GoalLimit(systemTokens, budget, maxTokens) == systemTokens + goalShare
    ensures SummaryLimit(systemTokens, budget, maxTokens) == systemTokens + (goalShare + summaryShare)
  {
  }

  /** The shares are those percentages of what the system messages leave. */
  lemma EnforcedIs(ms: seq<Message>, budget: Budget, maxTokens: int, goalShare: int, summaryShare: int)
    requires IsShare(goalShare, maxTokens - Tokens(Systems(ms)), budget.goalPercent)
    requires IsShare(summaryShare, maxTokens - Tokens(Systems(ms)), budget.summaryPercent)
    ensures
      var n := Tokens(Systems(ms));
      Enforced(ms, budget, maxTokens) == Allocated(ms, n + goalShare, n + (goalShare + summaryShare), maxTokens)
  {
    SharesAre(Tokens(Systems(ms)), budget, maxTokens, goalShare, summaryShare);
  }

  lemma OthersAreOthers(ms: seq<Message>)
    ensures forall m :: m in Others(ms) ==> m.role != System
  {
    SystemsAre(ms);
  }

  /** What one pass adds to the system messages and `before`. */
  lemma PassAddsTo(pass: Pass, ms: seq<Message>, before: seq<Message>, limit: int) returns (more: seq<Message>)
    ensures RunPass(pass, Others(ms), Systems(ms) + before, Tokens(Systems(ms)) + limit)
         == Systems(ms) + (before + more)
    ensures Added(pass, ms, before, more, limit)
  {
    OthersAreOthers(ms);
    more := PassAdds(pass, Others(ms), Systems(ms) + before, Tokens(Systems(ms)) + limit);
    WithoutSystems(pass, ms, before, more, limit);
    Assoc(Systems(ms), before, more);
  }

  /** The three passes one after the other. */
  lemma ThreePasses(ms: seq<Message>, goals: seq<Message>, summaries: seq<Message>, history: seq<Message>,
                    goalShare: int, bothShares: int, maxTokens: int, n: nat)
    requires n == Tokens(Systems(ms)) < maxTokens
    requires RunPass(GoalPass, Others(ms), Systems(ms) + [], n + goalShare) == Systems(ms) + ([] + goals)
    requires RunPass(SummaryPass, Others(ms), Systems(ms) + goals, n + bothShares) == Systems(ms) + (goals + summaries)
    requires RunPass(HistoryPass, Others(ms), Systems(ms) + (goals + summaries), n + (maxTokens - n))
          == Systems(ms) + (goals + summaries + history)
    ensures Allocated(ms, n + goalShare, n + bothShares, maxTokens) == Systems(ms) + (goals + summaries + history)
  {
    assert Systems(ms) + [] == Systems(ms) && [] + goals == goals;
  }

  /** With room beside the system messages, the result is these and what three greedy passes
      add to them: goal messages from the first share, assistant messages from what is left of
      it and from the second, and the rest from what is left of the budget. */
  lemma AllocationIsShared(ms: seq<Message>, goalShare: int, bothShares: int, maxTokens: int, n: nat)
    returns (goals: seq<Message>, summaries: seq<Message>, history: seq<Message>)
    requires Tokens(Systems(ms)) == n < maxTokens
    ensures Allocated(ms, n + goalShare, n + bothShares, maxTokens) == Systems(ms) + (goals + summaries + history)
    ensures Added(GoalPass, ms, [], goals, goalShare)
    ensures Added(SummaryPass, ms, goals, summaries, bothShares)
    ensures Added(HistoryPass, ms, goals + summaries, history, maxTokens - n)
  {
    goals := PassAddsTo(GoalPass, ms, [], goalShare);
    summaries := PassAddsTo(SummaryPass, ms, goals, bothShares);
    history := PassAddsTo(HistoryPass, ms, goals + summaries, maxTokens - n);
    ThreePasses(ms, goals, summaries, history, goalShare, bothShares, maxTokens, n);
  }

  // ----------------------------------------------------- what has a share for certain

  /** The messages that compete for a pass: those that suit it and are not too large. */
  predicate Competes(pass: Pass, m: Message, most: int) {
    && EstimateTokens(m) <= most
    && match pass
       case GoalPass => m.role == User && ("goal:" <= m.lowered || "task:" <= m.lowered || "request:" <= m.lowered)
       case SummaryPass => m.role == Assistant
       case HistoryPass => m.role != System
  }

  /** The tokens of all that competes among the first `i` messages. */
  function Demand(pass: Pass, ms: seq<Message>, i: nat, most: int): nat
    requires i <= |ms|
  {
    if i == 0 then 0
    else Demand(pass, ms, i - 1, most) + if Competes(pass, ms[i - 1], most) then EstimateTokens(ms[i - 1]) else 0
  }

  /** A pass takes no more than what competes for its limit. */
  lemma {:induction false} PassTakesAtMost(pass: Pass, ms: seq<Message>, i: nat, result: seq<Message>,
                                           systemTokens: nat, most: int)
    requires systemTokens <= Tokens(result) && pass != HistoryPass && i <= |ms|
    ensures Tokens(RunPass(pass, ms[..i], result, systemTokens + most)) <= Tokens(result) + Demand(pass, ms, i, most)
  {
    if i > 0 {
      PassTakesAtMost(pass, ms, i - 1, result, systemTokens, most);
      PassKeeps(pass, ms[..i - 1], result, systemTokens + most);
      OfferTakesAtMost(pass, ms[i - 1], RunPass(pass, ms[..i - 1], result, systemTokens + most), systemTokens, most);
      assert ms[..i][..i - 1] == ms[..i - 1];
    }
  }

  lemma OfferTakesAtMost(pass: Pass, m: Message, before: seq<Message>, systemTokens: nat, most: int)
    requires systemTokens <= Tokens(before) && pass != HistoryPass
    ensures Tokens(Offer(pass, m, before, systemTokens + most))
         <= Tokens(before) + if Competes(pass, m, most) then EstimateTokens(m) else 0
  {
    TokensAppend(before, m);
  }

  /** So what competes before a message decides whether the message has room. */
  lemma PassTakes(pass: Pass, ms: seq<Message>, result: seq<Message>, systemTokens: nat, most: int, i: nat)
    requires systemTokens <= Tokens(result) && pass != HistoryPass && i < |ms| && Suits(pass, ms[i])
    requires Tokens(result) + Demand(pass, ms, i, most) + EstimateTokens(ms[i]) <= systemTokens + most
    ensures ms[i] in RunPass(pass, ms, result, systemTokens + most)
  {
    var limit := systemTokens + most;
    PassTakesAtMost(pass, ms, i, result, systemTokens, most);
    assert ms[..i + 1][..i] == ms[..i];
    assert ms[i] in RunPass(pass, ms[..i + 1], result, limit);
    assert ms == ms[..i + 1] + ms[i + 1..];
    PassConcat(pass, ms[..i + 1], ms[i + 1..], result, limit);
    StaysIn(pass, ms[i + 1..], RunPass(pass, ms[..i + 1], result, limit), limit, ms[i]);
  }

  lemma {:induction false} PassConcat(pass: Pass, a: seq<Message>, b: seq<Message>, result: seq<Message>, limit: int)
    ensures RunPass(pass, a + b, result, limit) == RunPass(pass, b, RunPass(pass, a, result, limit), limit)
    decreases |b|
  {
    if b == [] {
      assert a + b == a;
    } else {
      assert (a + b)[..|a + b| - 1] == a + b[..|b| - 1];
      PassConcat(pass, a, b[..|b| - 1], result, limit);
    }
  }

  lemma {:induction false} OthersConcat(a: seq<Message>, b: seq<Message>)
    ensures Others(a + b) == Others(a) + Others(b)
    decreases |b|
  {
    if b == [] {
      assert a + b == a;
    } else {
      assert (a + b)[..|a + b| - 1] == a + b[..|b| - 1];
      OthersConcat(a, b[..|b| - 1]);
    }
  }

  /** A message that is not a system message stands in the other messages behind those before
      it. */
  lemma OthersAt(ms: seq<Message>, i: nat)
    requires i < |ms| && ms[i].role != System
    ensures var j := |Others(ms[..i])|; j < |Others(ms)| && Others(ms)[j] == ms[i] && Others(ms)[..j] == Others(ms[..i])
  {
    assert ms == ms[..i] + ms[i..] && ms[i..] == [ms[i]] + ms[i + 1..];
    OthersConcat(ms[..i], ms[i..]);
    OthersConcat([ms[i]], ms[i + 1..]);
    assert [ms[i]][..0] == [];
    assert Others([ms[i]]) == [ms[i]];
  }

  lemma {:induction false} DemandOfOthers(pass: Pass, ms: seq<Message>, i: nat, most: int)
    requires i <= |ms|
    ensures |Others(ms[..i])| <= |Others(ms)|
    ensures Demand(pass, Others(ms), |Others(ms[..i])|, most) == Demand(pass, ms, i, most)
  {
    assert ms == ms[..i] + ms[i..];
    OthersConcat(ms[..i], ms[i..]);
    if i > 0 {
      DemandOfOthers(pass, ms, i - 1, most);
      assert ms[..i][..i - 1] == ms[..i - 1];
      if ms[i - 1].role != System {
        OthersAt(ms, i - 1);
      }
    }
  }

  /** What competes before a message among all messages decides whether the message has room. */
  lemma PassTakesOf(pass: Pass, ms: seq<Message>, result: seq<Message>, systemTokens: nat, most: int, i: nat)
    requires systemTokens <= Tokens(result) && pass != HistoryPass && i < |ms| && Suits(pass, ms[i])
    requires Tokens(result) + Demand(pass, ms, i, most) + EstimateTokens(ms[i]) <= systemTokens + most
    ensures ms[i] in RunPass(pass, Others(ms), result, systemTokens + most)
  {
    OthersAt(ms, i);
    DemandOfOthers(pass, ms, i, most);
    PassTakes(pass, Others(ms), result, systemTokens, most, |Others(ms[..i])|);
  }

  /** Passes take nothing back. */
  lemma StaysIn(pass: Pass, ms: seq<Message>, result: seq<Message>, limit: int, m: Message)
    requires m in result
    ensures m in RunPass(pass, ms, result, limit)
  {
    PassKeeps(pass, ms, result, limit);
  }

  lemma GoalsWithin(ms: seq<Message>, limit: int)
    requires Tokens(Systems(ms)) <= limit
    ensures Tokens(Systems(ms)) <= Tokens(AfterGoals(ms, limit)) <= limit
  {
    PassKeeps(GoalPass, Others(ms), Systems(ms), limit);
  }

  /** The summary share is there for summaries, whatever else is given: an assistant message is
      kept when it and all earlier ones that could be taken at all fit into the share. */
  lemma SummariesHaveTheirShare(ms: seq<Message>, goalShare: nat, summaryShare: int, maxTokens: int, n: nat, i: nat)
    requires i < |ms| && ms[i].role == Assistant && Tokens(Systems(ms)) == n < maxTokens
    requires Demand(SummaryPass, ms, i, goalShare + summaryShare) + EstimateTokens(ms[i])
          <= summaryShare
    ensures ms[i] in Allocated(ms, n + goalShare, n + (goalShare + summaryShare), maxTokens)
  {
    var goals := AfterGoals(ms, n + goalShare);
    GoalsWithin(ms, n + goalShare);
    PassTakesOf(SummaryPass, ms, goals, n, goalShare + summaryShare, i);
    assert ms[i] in AfterSummaries(ms, n + goalShare, n + (goalShare + summaryShare));
    StaysIn(HistoryPass, Others(ms), AfterSummaries(ms, n + goalShare, n + (goalShare + summaryShare)), maxTokens,
            ms[i]);
  }

  /** And the goal share for goal messages. */
  lemma GoalsHaveTheirShare(ms: seq<Message>, goalShare: int, summaryLimit: int, maxTokens: int, n: nat, i: nat)
    requires i < |ms| && IsGoal(ms[i]) && Tokens(Systems(ms)) == n < maxTokens
    requires Demand(GoalPass, ms, i, goalShare) + EstimateTokens(ms[i]) <= goalShare
    ensures ms[i] in Allocated(ms, n + goalShare, summaryLimit, maxTokens)
  {
    PassTakesOf(GoalPass, ms, Systems(ms), n, goalShare, i);
    assert ms[i] in AfterGoals(ms, n + goalShare);
    StaysIn(SummaryPass, Others(ms), AfterGoals(ms, n + goalShare), summaryLimit, ms[i]);
    StaysIn(HistoryPass, Others(ms), AfterSummaries(ms, n + goalShare, summaryLimit), maxTokens, ms[i]);
  }

  lemma SplitThree(system: Message, other: Message)
    requires system.role == System && other.role != System
    ensures Systems([system, other, other]) == [system] && Others([system, other, other]) == [other, other]
  {
    var ms := [system, other, other];
    assert ms[..2] == [system, other] && ms[..2][..1] == [system] && [system][..0] == [];
    assert Systems([system]) == [system] && Others([system]) == [];
    assert Systems([system, other]) == [system] && Others([system, other]) == [other];
  }

  lemma TwoMessages(pass: Pass, a: Message, b: Message, result: seq<Message>, limit: int)
    ensures RunPass(pass, [a, b], result, limit) == Offer(pass, b, Offer(pass, a, result, limit), limit)
  {
    assert [a, b][..1] == [a] && [a][..0] == [];
    assert RunPass(pass, [a], result, limit) == Offer(pass, a, result, limit);
  }

  lemma OfferGoal(goal: Message, result: seq<Message>, limit: int)
    requires IsGoalMessage(goal)
    ensures Offer(GoalPass, goal, result, limit)
         == if Tokens(result) + EstimateTokens(goal) <= limit then result + [goal] else result
  {
  }

  lemma RepeatedGoalPass(system: Message, goal: Message, goalLimit: int)
    requires system.role == System && IsGoalMessage(goal)
    ensures AfterGoals([system, goal, goal], goalLimit)
         == if EstimateTokens(system) + 2 * EstimateTokens(goal) <= goalLimit then [system] + [goal] + [goal]
            else if EstimateTokens(system) + EstimateTokens(goal) <= goalLimit then [system] + [goal]
            else [system]
  {
    SplitThree(system, goal);
    TwoMessages(GoalPass, goal, goal, [system], goalLimit);
    TokensAppend([], system);
    assert [] + [system] == [system];
    TokensAppend([system], goal);
    OfferGoal(goal, [system], goalLimit);
    OfferGoal(goal, [system] + [goal], goalLimit);
  }

  /** The goal pass does not look for repetitions. A goal message assembled twice,
      as when the current input is itself the goal, is included twice if and only
      if the goal limit has room for both copies. */
  lemma RepeatedGoalIncludedTwiceIff(system: Message, goal: Message, goalLimit: int, summaryLimit: int, maxTokens: int)
    requires system.role == System && IsGoalMessage(goal) && EstimateTokens(goal) > 0
    requires EstimateTokens(system) < maxTokens
    ensures !Distinct(Allocated([system, goal, goal], goalLimit, summaryLimit, maxTokens))
       <==> EstimateTokens(system) + 2 * EstimateTokens(goal) <= goalLimit
  {
    var ms := [system, goal, goal];
    assert Tokens(Systems(ms)) < maxTokens by {
      SplitThree(system, goal);
      TokensAppend([], system);
      assert [] + [system] == [system];
    }
    RepetitionsComeFromGoalPass(ms, goalLimit, summaryLimit, maxTokens);
    RepeatedGoalPass(system, goal, goalLimit);
    CopiesRepeat(system, goal);
  }

  lemma CopiesRepeat(a: Message, b: Message)
    requires a != b
    ensures Distinct([a]) && Distinct([a] + [b]) && !Distinct([a] + [b] + [b])
  {
    assert ([a] + [b] + [b])[1] == ([a] + [b] + [b])[2];
  }

  lemma RepetitionsComeFromGoalPass(ms: seq<Message>, goalLimit: int, summaryLimit: int, maxTokens: int)
    requires Tokens(Systems(ms)) < maxTokens
    ensures Distinct(Allocated(ms, goalLimit, summaryLimit, maxTokens)) <==> Distinct(AfterGoals(ms, goalLimit))
  {
    var r1, r2 := AfterGoals(ms, goalLimit), AfterSummaries(ms, goalLimit, summaryLimit);
    if Distinct(r1) {
      LaterPassDistinct(SummaryPass, Others(ms), r1, summaryLimit);
      LaterPassDistinct(HistoryPass, Others(ms), r2, maxTokens);
    } else {
      PassKeeps(SummaryPass, Others(ms), r1, summaryLimit);
      PassKeeps(HistoryPass, Others(ms), r2, maxTokens);
      PrefixRepeats(r1, Allocated(ms, goalLimit, summaryLimit, maxTokens));
    }
  }

  lemma PrefixRepeats(a: seq<Message>, b: seq<Message>)
    requires a <= b && !Distinct(a)
    ensures !Distinct(b)
  {
    var i, j :| 0 <= i < j < |a| && a[i] == a[j];
    assert b[i] == b[j];
  }
}
