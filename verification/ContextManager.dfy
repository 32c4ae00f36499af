/** `ContextManager` (src/runtime/agent-runtime.ts) and the score-based pruning of
    `ProvenanceContextManager` (src/memory/provenance-context.ts), with the closed
    form of the context after any history of messages. */
module ContextManagers {
  import opened MessageClassifiers
  import opened ProvenanceGraphs
  import opened Sequences
  import opened StableSorting

  /** `s.slice(k)` */
  function SliceFrom<T>(s: seq<T>, k: int): seq<T> {
    if k < 0 then (if |s| + k < 0 then s else s[|s| + k..])
    else if k > |s| then [] else s[k..]
  }

  /** `s.slice(0, k)` */
  function SliceTo<T>(s: seq<T>, k: int): seq<T> {
    if k < 0 then (if |s| + k < 0 then [] else s[..|s| + k])
    else if k > |s| then s else s[..k]
  }

  function Trim(messages: seq<Message>, maxMessages: int): seq<Message> {
    if |messages| <= maxMessages then messages
    else if |messages| > 0 && messages[0].role == System then
      [messages[0]] + SliceFrom(messages, -(maxMessages - 1))
    else SliceFrom(messages, -maxMessages)
  }

  /** The messages in context after adding `history` one by one to `start`. */
  function AddAll(start: seq<Message>, history: seq<Message>, maxMessages: int): seq<Message>
    decreases |history|
  {
    if history == [] then start
    else Trim(AddAll(start, history[..|history| - 1], maxMessages) + [history[|history| - 1]], maxMessages)
  }

  // ------------------------------------------------------ positional windowing

  /** A trim meets the limit exactly when the limit leaves room: `slice(-(N - 1))`
      is `slice(0)` for N = 1 and keeps everything. */
  lemma TrimWithinLimitIff(messages: seq<Message>, maxMessages: int)
    ensures |Trim(messages, maxMessages)| <= maxMessages
       <==> |messages| <= maxMessages || maxMessages >= 2 || (maxMessages == 1 && messages[0].role != System)
  {
  }

  /** With a limit of one, a leading system message makes the context grow. */
  lemma LimitOneGrows(system: Message, other: Message)
    requires system.role == System
    ensures AddAll([], [system, other], 1) == [system, system, other]
  {
    assert [system, other][..1] == [system];
    assert [system][..0] == [];
    assert AddAll([], [system], 1) == [system];
  }

  /** The position of the first system message, or the length. */
  function FirstSystem(history: seq<Message>): (j: nat)
    ensures j <= |history|
    ensures j < |history| ==> history[j].role == System
    ensures forall i :: 0 <= i < j ==> history[i].role != System
  {
    if history == [] then 0
    else if history[0].role == System then 0
    else 1 + FirstSystem(history[1..])
  }

  /** The window slides over the history until the first system message reaches its
      front; from then on that message stays there and the rest slides behind it. */
  function Window(history: seq<Message>, maxMessages: int): seq<Message>
    requires maxMessages >= 2
  {
    WindowAt(history, FirstSystem(history), maxMessages)
  }

  function WindowAt(history: seq<Message>, j: nat, maxMessages: int): seq<Message>
    requires maxMessages >= 2 && j <= |history|
  {
    var n := |history|;
    if n <= maxMessages then history
    else if j < n - maxMessages then [history[j]] + history[n - maxMessages + 1..]
    else history[n - maxMessages..]
  }

  lemma FirstSystemPrefix(history: seq<Message>, n: nat)
    requires n <= |history|
    ensures FirstSystem(history[..n]) == if FirstSystem(history) < n then FirstSystem(history) else n
  {
    var a, b := FirstSystem(history[..n]), FirstSystem(history);
    assert a < n ==> history[a].role == System;
    assert b < n ==> history[..n][b].role == System;
  }

  lemma {:induction false} ContextIsWindow(history: seq<Message>, maxMessages: int)
    requires maxMessages >= 2
    ensures AddAll([], history, maxMessages) == Window(history, maxMessages)
    decreases |history|
  {
    if history != [] {
      var n := |history| - 1;
      ContextIsWindow(history[..n], maxMessages);
      FirstSystemPrefix(history, n);
      WindowSlides(history, FirstSystem(history), maxMessages);
    }
  }

  lemma WindowSlides(history: seq<Message>, j: nat, maxMessages: int)
    requires maxMessages >= 2 && history != [] && j <= |history|
    requires j < |history| ==> history[j].role == System
    requires forall i :: 0 <= i < j ==> history[i].role != System
    ensures var n := |history| - 1;
            var before := WindowAt(history[..n], if j < n then j else n, maxMessages);
            Trim(before + [history[n]], maxMessages) == WindowAt(history, j, maxMessages)
  {
    var n := |history| - 1;
    if n < maxMessages {
      assert history[..n] + [history[n]] == history;
    } else if j < n - maxMessages {
      PinnedWindowSlides(history, j, maxMessages);
    } else {
      FreeWindowSlides(history, j, maxMessages);
    }
  }

  lemma PinnedWindowSlides(history: seq<Message>, j: nat, maxMessages: int)
    requires maxMessages >= 2 && j < |history| - 1 - maxMessages && history[j].role == System
    ensures var front, last := history[..|history| - 1], history[|history| - 1];
      Trim([front[j]] + front[|history| - maxMessages..] + [last], maxMessages)
      == [history[j]] + history[|history| - maxMessages + 1..]
  {
    var k := |history| - maxMessages;
    var pushed := [history[..|history| - 1][j]] + history[..|history| - 1][k..] + [history[|history| - 1]];
    assert pushed == [history[j]] + history[k..] by {
      PushedBehindPin(history, j, k);
    }
    PinnedSlides(history[j], history[k..], maxMessages);
    SuffixDrop(history, k, 1);
  }

  lemma FreeWindowSlides(history: seq<Message>, j: nat, maxMessages: int)
    requires maxMessages >= 2 && 0 <= |history| - 1 - maxMessages <= j <= |history|
    requires history[|history| - 1 - maxMessages].role == System <==> j == |history| - 1 - maxMessages
    ensures Trim(history[..|history| - 1][|history| - 1 - maxMessages..] + [history[|history| - 1]], maxMessages)
         == WindowAt(history, j, maxMessages)
  {
    var k := |history| - 1 - maxMessages;
    var pushed := history[..|history| - 1][k..] + [history[|history| - 1]];
    assert pushed == history[k..] by {
      PushedSuffix(history, k);
    }
    FreeSlides(history[k..], maxMessages);
    SuffixDrop(history, k, 1);
    SuffixDrop(history, k, 2);
  }

  lemma PushedBehindPin<T>(s: seq<T>, j: nat, k: nat)
    requires j < |s| - 1 && k < |s|
    ensures [s[..|s| - 1][j]] + s[..|s| - 1][k..] + [s[|s| - 1]] == [s[j]] + s[k..]
  {
    PushedSuffix(s, k);
  }

  lemma PinnedSlides(first: Message, rest: seq<Message>, maxMessages: int)
    requires maxMessages >= 2 && first.role == System && |rest| == maxMessages
    ensures Trim([first] + rest, maxMessages) == [first] + rest[1..]
  {
  }

  lemma FreeSlides(pushed: seq<Message>, maxMessages: int)
    requires maxMessages >= 2 && |pushed| == maxMessages + 1
    ensures Trim(pushed, maxMessages) == if pushed[0].role == System then [pushed[0]] + pushed[2..] else pushed[1..]
  {
  }

  class ContextManager {
    var messages: seq<Message>
    const maxMessages: int

    constructor (maxMessages: int)
      ensures messages == [] && this.maxMessages == maxMessages
    {
      this.maxMessages := maxMessages;
      messages := [];
    }

    method Add(message: Message)
      modifies this
      ensures messages == Trim(old(messages) + [message], maxMessages)
    {
      messages := messages + [message];
      TrimMessages();
    }

    method TrimMessages()
      modifies this
      ensures messages == Trim(old(messages), maxMessages)
    {
      if |messages| <= maxMessages {
        return;
      }
      if |messages| > 0 && messages[0].role == System {
        var recent := SliceFrom(messages, -(maxMessages - 1));
        messages := [messages[0]] + recent;
      } else {
        messages := SliceFrom(messages, -maxMessages);
      }
    }

    method Clear()
      modifies this
      ensures messages == []
    {
      messages := [];
    }
  }

  // ------------------------------------------------------- score-based pruning

  /** A score under which system messages, and only they, come out highest. */
  ghost predicate SystemOnTop(key: Message -> int) {
    forall m :: key(m) <= SYSTEM_PRIORITY && (key(m) == SYSTEM_PRIORITY <==> m.role == System)
  }

  /** What one `add` does to the context when the provenance graph is sufficient. */
  function PrunedAdd(messages: seq<Message>, m: Message, maxMessages: int, key: Message -> int): seq<Message> {
    var pushed := Trim(messages + [m], maxMessages);
    var kept := SliceTo(Sort(pushed, Negated(key)), maxMessages);
    AddAll([], Sort(kept, key), maxMessages)
  }

  /** The context when a graph becomes sufficient over the messages `start`, and then
      `history` is added. */
  function PrunedFrom(start: seq<Message>, history: seq<Message>, maxMessages: int, key: Message -> int): seq<Message>
    decreases |history|
  {
    if history == [] then start
    else
      var n := |history| - 1;
      PrunedAdd(PrunedFrom(start, history[..n], maxMessages, key), history[n], maxMessages, key)
  }

  function PrunedContext(history: seq<Message>, maxMessages: int, key: Message -> int): seq<Message> {
    PrunedFrom([], history, maxMessages, key)
  }

  function Score(): Message -> int {
    m => ScoreMessage(m)
  }

  lemma ScorePutsSystemOnTop()
    ensures SystemOnTop(Score())
  {
  }

  class ProvenanceContextManager {
    const base: ContextManager
    const classifier: MessageClassifier

    constructor (maxMessages: int)
      ensures fresh(base) && fresh(classifier)
      ensures base.messages == [] && base.maxMessages == maxMessages && !classifier.hasGraph
    {
      base := new ContextManager(maxMessages);
      classifier := new MessageClassifier();
    }

    method SetProvenanceGraph(graph: GraphData)
      modifies classifier
      ensures classifier.hasGraph && classifier.provenanceGraph == graph
    {
      classifier.SetProvenanceGraph(graph);
    }

    /** Positional trimming, then, with a sufficient graph: score, sort descending,
        cut, sort ascending, and refill. */
    method Add(message: Message)
      modifies base
      ensures base.messages ==
        if classifier.hasGraph && |classifier.provenanceGraph.nodes| >= 3 then
          PrunedAdd(old(base.messages), message, base.maxMessages, Score())
        else Trim(old(base.messages) + [message], base.maxMessages)
    {
      base.Add(message);
      if classifier.IsGraphSufficient() {
        var scored := Sort(base.messages, Negated(Score()));
        var kept := Sort(SliceTo(scored, base.maxMessages), Score());
        Refill(kept);
      }
    }

    method Refill(kept: seq<Message>)
      modifies base
      ensures base.messages == AddAll([], kept, base.maxMessages)
    {
      base.Clear();
      for i := 0 to |kept|
        invariant base.messages == AddAll([], kept[..i], base.maxMessages)
      {
        assert kept[..i + 1][..i] == kept[..i];
        base.Add(kept[i]);
      }
      assert kept[..|kept|] == kept;
    }
  }

  lemma {:induction false} AddAllShort(history: seq<Message>, maxMessages: int)
    requires |history| <= maxMessages
    ensures AddAll([], history, maxMessages) == history
    decreases |history|
  {
    if history != [] {
      AddAllShort(history[..|history| - 1], maxMessages);
    }
  }

  /** What is left of a context before a new message is put in order: a full one
      loses its second message when its first is a system message, else its first. */
  function Room(messages: seq<Message>, maxMessages: int): seq<Message>
    requires maxMessages >= 2
  {
    if |messages| < maxMessages then messages
    else if messages[0].role == System then [messages[0]] + messages[2..]
    else messages[1..]
  }

  lemma TrimIsRoom(messages: seq<Message>, m: Message, maxMessages: int)
    requires maxMessages >= 2 && |messages| <= maxMessages
    ensures Trim(messages + [m], maxMessages) == Room(messages, maxMessages) + [m]
    ensures |Trim(messages + [m], maxMessages)| <= maxMessages
  {
  }

  /** Either way the lowest score goes. */
  lemma RoomOrdered(messages: seq<Message>, maxMessages: int, key: Message -> int)
    requires maxMessages >= 2 && |messages| <= maxMessages
    requires Ascending(messages, key) && SystemOnTop(key)
    ensures Ascending(Room(messages, maxMessages), key)
    ensures Keys(Room(messages, maxMessages), key)
         == if |messages| < maxMessages then Keys(messages, key) else Keys(messages, key)[1..]
  {
    if |messages| == maxMessages {
      if messages[0].role == System {
        AllTop(messages, key);
        SecondGone(messages, key);
      } else {
        FirstGone(messages, key);
      }
    }
  }

  lemma FirstGone(messages: seq<Message>, key: Message -> int)
    requires messages != [] && Ascending(messages, key)
    ensures Ascending(messages[1..], key) && Keys(messages[1..], key) == Keys(messages, key)[1..]
  {
  }

  lemma SecondGone(messages: seq<Message>, key: Message -> int)
    requires |messages| >= 2 && forall i :: 0 <= i < |messages| ==> key(messages[i]) == SYSTEM_PRIORITY
    ensures Ascending([messages[0]] + messages[2..], key)
    ensures Keys([messages[0]] + messages[2..], key) == Keys(messages, key)[1..]
  {
    var rest := [messages[0]] + messages[2..];
    assert forall i :: 1 <= i < |rest| ==> rest[i] == messages[i + 1];
  }

  /** One step on an ordered context: make room, then insert in order. */
  lemma PrunedAddIs(messages: seq<Message>, m: Message, maxMessages: int, key: Message -> int)
    requires maxMessages >= 2 && |messages| <= maxMessages
    requires Ascending(messages, key) && SystemOnTop(key)
    ensures PrunedAdd(messages, m, maxMessages, key) == Insert(Room(messages, maxMessages), m, key)
  {
    var rest := Room(messages, maxMessages);
    var pushed := Trim(messages + [m], maxMessages);
    TrimIsRoom(messages, m, maxMessages);
    RoomOrdered(messages, maxMessages, key);
    SortTrimmed(pushed, maxMessages, key);
    TakeAppend(rest, m);
    SortOfAscending(rest, key);
  }

  lemma PrunedAddOrdered(l: seq<Message>, m: Message, n: nat, maxMessages: int, key: Message -> int)
    requires maxMessages >= 2 && Ordered(l, n, maxMessages, key) && SystemOnTop(key)
    ensures Ordered(PrunedAdd(l, m, maxMessages, key), n + 1, maxMessages, key)
  {
    PrunedAddIs(l, m, maxMessages, key);
    RoomOrdered(l, maxMessages, key);
    InsertAscending(Room(l, maxMessages), m, key);
  }

  /** A full context loses one of its messages of the lowest score for the new message. */
  lemma PruningDropsLowest(l: seq<Message>, m: Message, maxMessages: int, key: Message -> int)
    returns (dropped: Message)
    requires maxMessages >= 2 && |l| == maxMessages && Ascending(l, key) && SystemOnTop(key)
    ensures dropped in l && forall x :: x in l ==> key(dropped) <= key(x)
    ensures multiset(PrunedAdd(l, m, maxMessages, key)) + multiset{dropped} == multiset(l) + multiset{m}
  {
    dropped := RoomDropsLowest(l, maxMessages, key);
    PrunedAddIs(l, m, maxMessages, key);
    InsertMultiset(Room(l, maxMessages), m, key);
  }

  lemma RoomDropsLowest(l: seq<Message>, maxMessages: int, key: Message -> int) returns (dropped: Message)
    requires maxMessages >= 2 && |l| == maxMessages && Ascending(l, key) && SystemOnTop(key)
    ensures dropped in l && forall x :: x in l ==> key(dropped) <= key(x)
    ensures multiset(Room(l, maxMessages)) + multiset{dropped} == multiset(l)
  {
    if l[0].role == System {
      AllTop(l, key);
      dropped := l[1];
      WithoutSecond(l);
    } else {
      dropped := l[0];
      assert l == [l[0]] + l[1..];
    }
    LowestFirst(l, key, dropped);
  }

  lemma WithoutSecond(l: seq<Message>)
    requires |l| >= 2
    ensures multiset([l[0]] + l[2..]) + multiset{l[1]} == multiset(l)
  {
    assert l == [l[0]] + [l[1]] + l[2..];
  }

  lemma LowestFirst(l: seq<Message>, key: Message -> int, dropped: Message)
    requires l != [] && Ascending(l, key) && key(dropped) == key(l[0])
    ensures forall x :: x in l ==> key(dropped) <= key(x)
  {
    forall x | x in l
      ensures key(dropped) <= key(x)
    {
      var i :| 0 <= i < |l| && l[i] == x;
    }
  }

  lemma {:induction false} PrunedContextOrdered(history: seq<Message>, maxMessages: int, key: Message -> int)
    requires maxMessages >= 2 && SystemOnTop(key)
    ensures Ascending(PrunedContext(history, maxMessages, key), key)
    ensures |PrunedContext(history, maxMessages, key)| == if |history| < maxMessages then |history| else maxMessages
  {
    if history != [] {
      PrunedFromOrdered([], history, maxMessages, key);
    }
  }

  function Top<T>(s: seq<T>, n: nat): seq<T> {
    if |s| <= n then s else s[|s| - n..]
  }

  /** The closed form: the N - 1 best of all earlier elements (the later ones among
      equals), and the newest, in order. */
  function BestAndNewest<T>(history: seq<T>, maxMessages: int, key: T -> int): seq<T>
    requires maxMessages >= 1
  {
    if history == [] then []
    else Insert(Top(Sort(history[..|history| - 1], key), maxMessages - 1), history[|history| - 1], key)
  }

  lemma TopOfInsert<T>(s: seq<T>, x: T, key: T -> int, n: nat)
    ensures var t := Insert(Top(s, n), x, key);
            && |Insert(s, x, key)| == |s| + 1
            && Top(Insert(s, x, key), n) == if |s| < n then t else t[1..]
  {
    InsertLength(s, x, key);
    if |s| >= n {
      InsertIntoTop(s, x, key, n);
      assert Top(s, n) == s[|s| - n..];
    }
  }

  /** What the closed form keeps when one more element comes. */
  lemma BestAndNewestStep<T>(history: seq<T>, maxMessages: int, key: T -> int)
    requires maxMessages >= 2 && history != []
    ensures var l := BestAndNewest(history[..|history| - 1], maxMessages, key);
            && |l| == (if |history| - 1 < maxMessages then |history| - 1 else maxMessages)
            && BestAndNewest(history, maxMessages, key)
            == Insert(if |l| < maxMessages then l else l[1..], history[|history| - 1], key)
  {
    var n := |history| - 1;
    if n > 0 {
      TopOfSort(history[..n], maxMessages, key);
    }
  }

  /** The best of all elements are the closed form of the elements, without its lowest if that
      has as many as are kept. */
  lemma TopOfSort<T>(h: seq<T>, maxMessages: int, key: T -> int)
    requires maxMessages >= 2 && h != []
    ensures var l := BestAndNewest(h, maxMessages, key);
            && |l| == (if |h| < maxMessages then |h| else maxMessages)
            && Top(Sort(h, key), maxMessages - 1) == if |l| < maxMessages then l else l[1..]
  {
    var n := |h| - 1;
    var s := Sort(h[..n], key);
    SortAscending(h[..n], key);
    TopOfInsert(s, h[n], key, maxMessages - 1);
    InsertLength(Top(s, maxMessages - 1), h[n], key);
  }

  lemma PrunedAddScores(l: seq<Message>, m: Message, maxMessages: int, key: Message -> int)
    requires maxMessages >= 2 && |l| <= maxMessages
    requires Ascending(l, key) && SystemOnTop(key)
    ensures Keys(PrunedAdd(l, m, maxMessages, key), key)
         == Insert(if |l| < maxMessages then Keys(l, key) else Keys(l, key)[1..], key(m), Identity())
  {
    PrunedAddIs(l, m, maxMessages, key);
    RoomOrdered(l, maxMessages, key);
    InsertKeys(Room(l, maxMessages), m, key);
  }

  /** The first step on any context that is not too long: make room by position, then sort. */
  lemma FirstPrunedAdd(start: seq<Message>, m: Message, maxMessages: int, key: Message -> int)
    requires maxMessages >= 2 && |start| <= maxMessages && SystemOnTop(key)
    ensures var room, l := Room(start, maxMessages), PrunedAdd(start, m, maxMessages, key);
      l == Sort(room + [m], key) && Ascending(l, key) && |l| == |room| + 1 <= maxMessages
  {
    TrimIsRoom(start, m, maxMessages);
    SortTrimmed(Room(start, maxMessages) + [m], maxMessages, key);
    SortAscending(Room(start, maxMessages) + [m], key);
  }

  lemma ShortIsBest(s: seq<int>, maxMessages: int)
    requires 0 < |s| <= maxMessages
    ensures Sort(s, Identity()) == BestAndNewest(s, maxMessages, Identity())
  {
    SortAscending(s[..|s| - 1], Identity());
  }

  /** Sorting down, cutting, sorting up and refilling is sorting up when nothing is cut. */
  lemma SortTrimmed(pushed: seq<Message>, maxMessages: int, key: Message -> int)
    requires |pushed| <= maxMessages
    ensures AddAll([], Sort(SliceTo(Sort(pushed, Negated(key)), maxMessages), key), maxMessages) == Sort(pushed, key)
  {
    var down := Sort(pushed, Negated(key));
    SortAscending(pushed, Negated(key));
    assert SliceTo(down, maxMessages) == down;
    SortDescendingFirst(pushed, key);
    SortAscending(pushed, key);
    AddAllShort(Sort(pushed, key), maxMessages);
  }

  /** In order, and as long as there have been messages, up to the limit. */
  ghost predicate Ordered(l: seq<Message>, n: nat, maxMessages: int, key: Message -> int) {
    Ascending(l, key) && |l| == if n < maxMessages then n else maxMessages
  }

  lemma {:induction false} PrunedFromOrdered(start: seq<Message>, history: seq<Message>, maxMessages: int,
                                             key: Message -> int)
    requires maxMessages >= 2 && |start| <= maxMessages && SystemOnTop(key) && history != []
    ensures Ordered(PrunedFrom(start, history, maxMessages, key), |Room(start, maxMessages)| + |history|,
                    maxMessages, key)
    decreases |history|
  {
    var n := |history| - 1;
    var l := PrunedFrom(start, history[..n], maxMessages, key);
    if n == 0 {
      assert l == start;
      FirstPrunedAdd(start, history[0], maxMessages, key);
    } else {
      PrunedFromOrdered(start, history[..n], maxMessages, key);
      PrunedAddOrdered(l, history[n], |Room(start, maxMessages)| + n, maxMessages, key);
    }
  }

  /** Whenever the graph comes, from the next message on: the scores in context are, in
      order, the N - 1 best scores of all earlier messages and the newest message's score,
      where the messages that were there count as far as there was room for them. */
  lemma {:induction false} ContextScoresFrom(start: seq<Message>, history: seq<Message>, maxMessages: int,
                                             key: Message -> int)
    requires maxMessages >= 2 && |start| <= maxMessages && SystemOnTop(key) && history != []
    ensures Keys(PrunedFrom(start, history, maxMessages, key), key)
         == BestAndNewest(Keys(Room(start, maxMessages) + history, key), maxMessages, Identity())
    decreases |history|
  {
    var n := |history| - 1;
    var h, m, all := history[..n], history[n], Room(start, maxMessages) + history;
    assert all[..|all| - 1] == Room(start, maxMessages) + h;
    if n == 0 {
      assert h == [] && history == [m];
      FirstPrunedAdd(start, m, maxMessages, key);
      SortKeys(all, key);
      ShortIsBest(Keys(all, key), maxMessages);
    } else {
      ContextScoresFrom(start, h, maxMessages, key);
      PrunedFromOrdered(start, h, maxMessages, key);
      PrunedAddScores(PrunedFrom(start, h, maxMessages, key), m, maxMessages, key);
      BestScoresStep(all, maxMessages, key);
    }
  }

  /** A graph that is set after `before` was added by position. */
  lemma GraphSetLater(before: seq<Message>, history: seq<Message>, maxMessages: int, key: Message -> int)
    requires maxMessages >= 2 && SystemOnTop(key) && history != []
    ensures |Window(before, maxMessages)| <= maxMessages
    ensures Keys(PrunedFrom(AddAll([], before, maxMessages), history, maxMessages, key), key)
         == BestAndNewest(Keys(Room(Window(before, maxMessages), maxMessages) + history, key), maxMessages, Identity())
  {
    ContextIsWindow(before, maxMessages);
    ContextScoresFrom(Window(before, maxMessages), history, maxMessages, key);
  }

  /** So with the graph there from the first message, the scores are those of the closed form
      over the whole history. */
  lemma ContextScores(history: seq<Message>, maxMessages: int, key: Message -> int)
    requires maxMessages >= 2 && SystemOnTop(key)
    ensures Keys(PrunedContext(history, maxMessages, key), key)
         == BestAndNewest(Keys(history, key), maxMessages, Identity())
  {
    if history != [] {
      ContextScoresFrom([], history, maxMessages, key);
      Empty(history);
    }
  }

  lemma BestScoresStep(history: seq<Message>, maxMessages: int, key: Message -> int)
    requires maxMessages >= 2 && history != []
    ensures var l := BestAndNewest(Keys(history[..|history| - 1], key), maxMessages, Identity());
            && |l| == (if |history| - 1 < maxMessages then |history| - 1 else maxMessages)
            && BestAndNewest(Keys(history, key), maxMessages, Identity())
            == Insert(if |l| < maxMessages then l else l[1..], key(history[|history| - 1]), Identity())
  {
    KeysPrefix(history, |history| - 1, key);
    BestAndNewestStep(Keys(history, key), maxMessages, Identity());
  }

  lemma KeysPrefix<T>(s: seq<T>, n: nat, key: T -> int)
    requires n <= |s|
    ensures Keys(s, key)[..n] == Keys(s[..n], key)
  {
  }

  /** A lowest system message means only system messages. */
  lemma AllTop(l: seq<Message>, key: Message -> int)
    requires Ascending(l, key) && SystemOnTop(key) && l != [] && l[0].role == System
    ensures forall i :: 0 <= i < |l| ==> key(l[i]) == SYSTEM_PRIORITY && l[i].role == System
  {
    forall i | 0 <= i < |l|
      ensures key(l[i]) == SYSTEM_PRIORITY && l[i].role == System
    {
      assert key(l[0]) == SYSTEM_PRIORITY;
      assert key(l[i]) >= key(l[0]);
    }
  }

  /** Only messages of the history are in context, none more often than added. */
  lemma {:induction false} ContextFromHistory(history: seq<Message>, maxMessages: int, key: Message -> int)
    requires maxMessages >= 2 && SystemOnTop(key)
    ensures multiset(PrunedContext(history, maxMessages, key)) <= multiset(history)
    ensures |history| <= maxMessages ==> multiset(PrunedContext(history, maxMessages, key)) == multiset(history)
  {
    if history != [] {
      var n := |history| - 1;
      var h, m := history[..n], history[n];
      var l := PrunedContext(h, maxMessages, key);
      ContextFromHistory(h, maxMessages, key);
      PrunedContextOrdered(h, maxMessages, key);
      PrunedAddIs(l, m, maxMessages, key);
      SplitLast(history);
      InsertMultiset(Room(l, maxMessages), m, key);
      RoomMultiset(l, maxMessages);
    }
  }

  lemma RoomMultiset(l: seq<Message>, maxMessages: int)
    requires maxMessages >= 2 && |l| <= maxMessages
    ensures multiset(Room(l, maxMessages)) <= multiset(l)
  {
    if |l| == maxMessages {
      assert l == [l[0]] + l[1..];
      assert l[1..] == [l[1]] + l[2..];
    }
  }

  lemma {:induction false} SystemsMultiset(s: seq<Message>)
    ensures forall x :: multiset(Systems(s))[x] == if x.role == System then multiset(s)[x] else 0
  {
    if s != [] {
      SystemsMultiset(s[..|s| - 1]);
      SplitLast(s);
    }
  }

  lemma ManySystems(l: seq<Message>, h: seq<Message>)
    requires multiset(l) <= multiset(h)
    requires forall i :: 0 <= i < |l| ==> l[i].role == System
    ensures |l| <= |Systems(h)|
  {
    SystemsMultiset(h);
    assert forall x :: x in multiset(l) ==> x in l;
    assert multiset(l) <= multiset(Systems(h));
    assert multiset(Systems(h)) == multiset(l) + (multiset(Systems(h)) - multiset(l));
    assert |multiset(Systems(h))| == |Systems(h)|;
  }

  /** While fewer than N system messages have been added, the context itself, not
      only its scores, is the closed form. */
  lemma {:induction false} ContextMessages(history: seq<Message>, maxMessages: int, key: Message -> int)
    requires maxMessages >= 2 && SystemOnTop(key) && |Systems(history)| < maxMessages
    ensures PrunedContext(history, maxMessages, key) == BestAndNewest(history, maxMessages, key)
  {
    if history != [] {
      var n := |history| - 1;
      var h, m := history[..n], history[n];
      var l := PrunedContext(h, maxMessages, key);
      ContextMessages(h, maxMessages, key);
      PrunedContextOrdered(h, maxMessages, key);
      PrunedAddIs(l, m, maxMessages, key);
      BestAndNewestStep(history, maxMessages, key);
      if |l| == maxMessages && l[0].role == System {
        AllTop(l, key);
        ContextFromHistory(h, maxMessages, key);
        ManySystems(l, h);
      }
    }
  }
}
