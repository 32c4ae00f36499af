/** The newline framing of `StdioTransport` (src/mcp/transport.ts): how the read loop
    turns chunks of decoded text into messages. */
module LineFraming {
  import opened Sequences

  /** What `trim` removes: white space and line terminators. */
  predicate IsSpace(c: char) {
    || c in {' ', '\t', '\n', '\r', '\U{000B}', '\U{000C}', '\U{00A0}', '\U{FEFF}', '\U{1680}'}
    || c in {'\U{202F}', '\U{205F}', '\U{3000}', '\U{2028}', '\U{2029}'}
    || '\U{2000}' <= c <= '\U{200A}'
  }

  function TrimStart(s: string): string {
    if s != "" && IsSpace(s[0]) then TrimStart(s[1..]) else s
  }

  function TrimEnd(s: string): string {
    if s != "" && IsSpace(s[|s| - 1]) then TrimEnd(s[..|s| - 1]) else s
  }

  function Trim(s: string): string {
    TrimEnd(TrimStart(s))
  }

  /** `trim` takes off spaces at both ends, and only those. */
  lemma {:induction false} TrimStripsSpaces(s: string) returns (before: string, after: string)
    ensures s == before + Trim(s) + after
    ensures (forall c :: c in before + after ==> IsSpace(c))
    ensures Trim(s) != "" ==> !IsSpace(Trim(s)[0]) && !IsSpace(Trim(s)[|Trim(s)| - 1])
  {
    before := TrimStartStrips(s);
    after := TrimEndStrips(TrimStart(s));
    Associative(before, Trim(s), after);
  }

  lemma {:induction false} TrimStartStrips(s: string) returns (before: string)
    ensures s == before + TrimStart(s) && forall c :: c in before ==> IsSpace(c)
    ensures TrimStart(s) != "" ==> !IsSpace(TrimStart(s)[0])
  {
    before := "";
    if s != "" && IsSpace(s[0]) {
      var more := TrimStartStrips(s[1..]);
      before := [s[0]] + more;
      Associative([s[0]], more, TrimStart(s));
      HeadAndTail(s);
    }
  }

  lemma {:induction false} TrimEndStrips(s: string) returns (after: string)
    ensures s == TrimEnd(s) + after && forall c :: c in after ==> IsSpace(c)
    ensures TrimEnd(s) != "" ==> TrimEnd(s)[0] == s[0] && !IsSpace(TrimEnd(s)[|TrimEnd(s)| - 1])
  {
    after := "";
    if s != "" && IsSpace(s[|s| - 1]) {
      var front, last := s[..|s| - 1], [s[|s| - 1]];
      var more := TrimEndStrips(front);
      after := more + last;
      Associative(TrimEnd(s), more, last);
      assert s == front + last;
    }
  }

  /** Nothing visible is trimmed off. */
  lemma VisibleStays(s: string)
    requires s != "" && '!' <= s[0] <= '~' && '!' <= s[|s| - 1] <= '~'
    ensures Trim(s) == s
  {
    assert !IsSpace(s[0]) && !IsSpace(s[|s| - 1]);
  }

  /** The trimmed lines that are not blank. */
  function Messages(lines: seq<string>): seq<string> {
    if lines == [] then []
    else if Trim(lines[|lines| - 1]) == "" then Messages(lines[..|lines| - 1])
    else Messages(lines[..|lines| - 1]) + [Trim(lines[|lines| - 1])]
  }

  /** The newline-terminated lines of `partial + s`, and what follows the last one. */
  function Lines(partial: string, s: string): seq<string>
    decreases |s|
  {
    if s == "" then []
    else if s[0] == '\n' then [partial] + Lines("", s[1..])
    else Lines(partial + [s[0]], s[1..])
  }

  function Rest(partial: string, s: string): string
    decreases |s|
  {
    if s == "" then partial
    else if s[0] == '\n' then Rest("", s[1..])
    else Rest(partial + [s[0]], s[1..])
  }

  /** `s.split("\n")` */
  function Split(s: string): seq<string> {
    Lines("", s) + [Rest("", s)]
  }

  function Unlines(lines: seq<string>): string {
    if lines == [] then "" else lines[0] + "\n" + Unlines(lines[1..])
  }

  function Concat(chunks: seq<string>): string {
    if chunks == [] then "" else Concat(chunks[..|chunks| - 1]) + chunks[|chunks| - 1]
  }

  // ------------------------------------------------------------ what split does

  lemma HeadAndTail(s: string)
    requires s != ""
    ensures s == [s[0]] + s[1..]
  {
  }

  /** Joining the pieces gives the text back. */
  lemma {:induction false} SplitJoins(partial: string, s: string)
    ensures Unlines(Lines(partial, s)) + Rest(partial, s) == partial + s
    decreases |s|
  {
    if s == "" {
      Empty(partial);
    } else if s[0] == '\n' {
      SplitJoins("", s[1..]);
      Empty(s[1..]);
      JoinedLine(partial, Lines("", s[1..]), Rest("", s[1..]));
      HeadAndTail(s);
    } else {
      SplitJoins(partial + [s[0]], s[1..]);
      HeadAndTail(s);
      Associative(partial, [s[0]], s[1..]);
    }
  }

  lemma JoinedLine(line: string, more: seq<string>, rest: string)
    ensures Unlines([line] + more) + rest == line + ("\n" + (Unlines(more) + rest))
  {
    assert ([line] + more)[1..] == more;
    Associative(line + "\n", Unlines(more), rest);
    Associative(line, "\n", Unlines(more) + rest);
  }

  /** No piece holds a newline. */
  lemma {:induction false} PiecesHoldNoNewline(partial: string, s: string)
    requires '\n' !in partial
    ensures '\n' !in Rest(partial, s) && forall line :: line in Lines(partial, s) ==> '\n' !in line
    decreases |s|
  {
    if s != "" {
      PiecesHoldNoNewline(if s[0] == '\n' then "" else partial + [s[0]], s[1..]);
    }
  }

  /** Text that is read in two pieces is split as if it were read at once. */
  lemma {:induction false} LinesConcat(partial: string, a: string, b: string)
    ensures Lines(partial, a + b) == Lines(partial, a) + Lines(Rest(partial, a), b)
    ensures Rest(partial, a + b) == Rest(Rest(partial, a), b)
    decreases |a|
  {
    if a == "" {
      Empty(b);
      Empty(Lines(partial, b));
    } else {
      var next := if a[0] == '\n' then "" else partial + [a[0]];
      assert (a + b)[0] == a[0] && (a + b)[1..] == a[1..] + b;
      LinesConcat(next, a[1..], b);
      if a[0] == '\n' {
        Associative([partial], Lines(next, a[1..]), Lines(Rest(partial, a), b));
      }
    }
  }

  lemma PartialIsPrefix(partial: string, s: string)
    requires '\n' !in partial
    ensures Lines("", partial + s) == Lines(partial, s) && Rest("", partial + s) == Rest(partial, s)
  {
    LinesConcat("", partial, s);
    NoNewline("", partial);
    Empty(partial);
    Empty(Lines(partial, s));
  }

  lemma {:induction false} NoNewline(partial: string, s: string)
    requires '\n' !in s
    ensures Lines(partial, s) == [] && Rest(partial, s) == partial + s
    decreases |s|
  {
    if s == "" {
      Empty(partial);
    } else {
      NoNewline(partial + [s[0]], s[1..]);
      HeadAndTail(s);
      Associative(partial, [s[0]], s[1..]);
    }
  }

  lemma {:induction false} MessagesConcat(a: seq<string>, b: seq<string>)
    ensures Messages(a + b) == Messages(a) + Messages(b)
    decreases |b|
  {
    if b == [] {
      Empty(a);
      Empty(Messages(a));
    } else {
      var front := b[..|b| - 1];
      assert (a + b)[..|a + b| - 1] == a + front;
      MessagesConcat(a, front);
      Associative(Messages(a), Messages(front), [Trim(b[|b| - 1])]);
    }
  }

  lemma NextLine(lines: seq<string>, i: nat)
    requires i < |lines|
    ensures Messages(lines[..i + 1])
         == if Trim(lines[i]) == "" then Messages(lines[..i]) else Messages(lines[..i]) + [Trim(lines[i])]
  {
    assert lines[..i + 1][..i] == lines[..i];
  }

  // ------------------------------------------------------------- handing over

  /** What has been handed over, and whether the last of it threw. `throws` says of the
      messages handed over so far whether handing over the last of them throws: one that does
      not parse makes the transport emit an error, which throws when nobody listens, and
      listeners throw as they like. */
  datatype Handing = Handing(handled: seq<string>, threw: bool)

  /** An exception ends the loop, so nothing is handed over after it. */
  function HandOver(h: Handing, m: string, throws: seq<string> -> bool): Handing {
    if h.threw then h else Handing(h.handled + [m], throws(h.handled + [m]))
  }

  function HandAll(h: Handing, ms: seq<string>, throws: seq<string> -> bool): Handing {
    if ms == [] then h else HandOver(HandAll(h, ms[..|ms| - 1], throws), ms[|ms| - 1], throws)
  }

  lemma {:induction false} HandAllConcat(h: Handing, a: seq<string>, b: seq<string>, throws: seq<string> -> bool)
    ensures HandAll(h, a + b, throws) == HandAll(HandAll(h, a, throws), b, throws)
    decreases |b|
  {
    if b == [] {
      Empty(a);
    } else {
      assert (a + b)[..|a + b| - 1] == a + b[..|b| - 1];
      HandAllConcat(h, a, b[..|b| - 1], throws);
    }
  }

  lemma {:induction false} NothingAfterThrow(h: Handing, ms: seq<string>, throws: seq<string> -> bool)
    requires h.threw
    ensures HandAll(h, ms, throws) == h
  {
    if ms != [] {
      NothingAfterThrow(h, ms[..|ms| - 1], throws);
    }
  }

  /** The messages are handed over up to the first that throws, and this one with them. */
  lemma {:induction false} UpToFirstThrow(h: seq<string>, ms: seq<string>, throws: seq<string> -> bool)
    returns (k: nat)
    ensures k <= |ms| && HandAll(Handing(h, false), ms, throws).handled == h + ms[..k]
    ensures forall j :: 0 < j < k ==> !throws(h + ms[..j])
    ensures HandAll(Handing(h, false), ms, throws).threw <==> k > 0 && throws(h + ms[..k])
    ensures k < |ms| ==> k > 0 && throws(h + ms[..k])
  {
    k := 0;
    Empty(h);
    if ms != [] {
      var n := |ms| - 1;
      k := UpToFirstThrow(h, ms[..n], throws);
      assert forall j :: 0 <= j <= n ==> ms[..n][..j] == ms[..j];
      if !HandAll(Handing(h, false), ms[..n], throws).threw {
        assert k == n;
        OneMore(h, ms, n);
        k := n + 1;
      }
    }
  }

  lemma OneMore(h: seq<string>, ms: seq<string>, n: nat)
    requires n < |ms|
    ensures (h + ms[..n]) + [ms[n]] == h + ms[..n + 1]
  {
  }

  /** So they are all handed over if and only if none before the last throws. */
  lemma AllHandedIff(h: seq<string>, ms: seq<string>, throws: seq<string> -> bool)
    ensures HandAll(Handing(h, false), ms, throws).handled == h + ms
       <==> forall j :: 0 < j < |ms| ==> !throws(h + ms[..j])
  {
    var k := UpToFirstThrow(h, ms, throws);
    assert ms[..|ms|] == ms;
    assert k < |ms| ==> |h + ms[..k]| < |h + ms|;
  }

  // ----------------------------------------------------------- reading in chunks

  /** The loop: what is left in the buffer, what it handed over, whether it threw. */
  datatype Reading = Reading(buffer: string, handled: seq<string>, threw: bool)

  function ReadOne(r: Reading, text: string, throws: seq<string> -> bool): Reading {
    if r.threw then r
    else
      var h := HandAll(Handing(r.handled, false), Messages(Lines(r.buffer, text)), throws);
      Reading(Rest(r.buffer, text), h.handled, h.threw)
  }

  function ReadAll(r: Reading, chunks: seq<string>, throws: seq<string> -> bool): Reading {
    if chunks == [] then r else ReadOne(ReadAll(r, chunks[..|chunks| - 1], throws), chunks[|chunks| - 1], throws)
  }

  /** What becomes of the messages of a text. */
  function HandText(buffer: string, handled: seq<string>, text: string, throws: seq<string> -> bool): Handing {
    HandAll(Handing(handled, false), Messages(Lines(buffer, text)), throws)
  }

  lemma HandTextConcat(buffer: string, handled: seq<string>, a: string, b: string, throws: seq<string> -> bool)
    ensures HandText(buffer, handled, a + b, throws)
         == HandAll(HandText(buffer, handled, a, throws), Messages(Lines(Rest(buffer, a), b)), throws)
    ensures HandText(buffer, handled, a, throws).threw ==>
      HandText(buffer, handled, a + b, throws) == HandText(buffer, handled, a, throws)
  {
    LinesConcat(buffer, a, b);
    MessagesConcat(Lines(buffer, a), Lines(Rest(buffer, a), b));
    HandAllConcat(Handing(handled, false), Messages(Lines(buffer, a)), Messages(Lines(Rest(buffer, a), b)), throws);
    if HandText(buffer, handled, a, throws).threw {
      NothingAfterThrow(HandText(buffer, handled, a, throws), Messages(Lines(Rest(buffer, a), b)), throws);
    }
  }

  /** The chunks that were read before something threw, and the one in which it did. */
  function ChunksRead(r: Reading, chunks: seq<string>, throws: seq<string> -> bool): (read: seq<string>)
    ensures read <= chunks
  {
    if chunks == [] then []
    else
      var front := chunks[..|chunks| - 1];
      if ReadAll(r, front, throws).threw then ChunksRead(r, front, throws) else chunks
  }

  /** However a text is cut into chunks, the same messages are handed over, and the loop
      throws or not, as if the text had come at once. The buffer keeps what follows the last
      newline of the chunks that were read. */
  lemma {:induction false} EveryChunking(buffer: string, handled: seq<string>, chunks: seq<string>,
                                         throws: seq<string> -> bool)
    ensures
      var r, h := ReadAll(Reading(buffer, handled, false), chunks, throws),
                  HandText(buffer, handled, Concat(chunks), throws);
      var read := ChunksRead(Reading(buffer, handled, false), chunks, throws);
      && r == Reading(Rest(buffer, Concat(read)), h.handled, h.threw)
      && HandText(buffer, handled, Concat(read), throws) == h
      && (!h.threw ==> read == chunks)
  {
    if chunks != [] {
      var n := |chunks| - 1;
      EveryChunking(buffer, handled, chunks[..n], throws);
      HandTextConcat(buffer, handled, Concat(chunks[..n]), chunks[n], throws);
      LinesConcat(buffer, Concat(chunks[..n]), chunks[n]);
    }
  }

  // ------------------------------------------------------------ what stays buffered

  /** Once something has thrown, only newlines follow. */
  ghost predicate QuietAfterThrow(buffer: string, handled: seq<string>, text: string, throws: seq<string> -> bool) {
    forall i :: 0 <= i < |text| && HandText(buffer, handled, text[..i], throws).threw ==> text[i] == '\n'
  }

  /** If both lists of chunks are cuts of the text, they leave the same in the buffer. */
  ghost predicate SameBuffer(buffer: string, handled: seq<string>, text: string, throws: seq<string> -> bool,
                             chunks: seq<string>, chunks': seq<string>) {
    Concat(chunks) == text && Concat(chunks') == text ==>
      ReadAll(Reading(buffer, handled, false), chunks, throws).buffer
      == ReadAll(Reading(buffer, handled, false), chunks', throws).buffer
  }

  /** One more character hands nothing over unless it is a newline. */
  lemma OneCharacter(buffer: string, handled: seq<string>, text: string, c: char, throws: seq<string> -> bool)
    ensures Rest(buffer, text + [c]) == if c == '\n' then "" else Rest(buffer, text) + [c]
    ensures c != '\n' ==> HandText(buffer, handled, text + [c], throws) == HandText(buffer, handled, text, throws)
  {
    LinesConcat(buffer, text, [c]);
    HandTextConcat(buffer, handled, text, [c], throws);
    var rest := Rest(buffer, text);
    assert [c][1..] == "";
    assert Rest(rest, [c]) == if c == '\n' then "" else rest + [c];
    assert c != '\n' ==> Lines(rest, [c]) == [];
  }

  /** Where only newlines follow, a text that threw leaves nothing in the buffer. */
  lemma ThrowLeavesNothing(buffer: string, handled: seq<string>, text: string, i: nat, throws: seq<string> -> bool)
    requires QuietAfterThrow(buffer, handled, text, throws)
    requires i <= |text| && HandText(buffer, handled, text[..i], throws).threw
    ensures Rest(buffer, text[..i]) == ""
  {
    assert i > 0;
    assert text[..i] == text[..i - 1] + [text[i - 1]];
    OneCharacter(buffer, handled, text[..i - 1], text[i - 1], throws);
  }

  lemma ConcatPrefix(read: seq<string>, chunks: seq<string>)
    requires read <= chunks
    ensures Concat(read) <= Concat(chunks)
    decreases |chunks|
  {
    if read == chunks {
    } else {
      assert read <= chunks[..|chunks| - 1];
      ConcatPrefix(read, chunks[..|chunks| - 1]);
    }
  }

  lemma ConcatTwo(a: string, b: string)
    ensures Concat([a, b]) == a + b
  {
    assert [a, b][..1] == [a] && [a][..0] == [];
    assert Concat([a]) == a;
  }

  ghost predicate EveryCutSame(buffer: string, handled: seq<string>, text: string, throws: seq<string> -> bool) {
    forall chunks, chunks' :: SameBuffer(buffer, handled, text, throws, chunks, chunks')
  }

  /** All ways of cutting a text into chunks leave the same in the buffer if and only if
      nothing but newlines follows a message that throws. */
  lemma ResidueIff(buffer: string, handled: seq<string>, text: string, throws: seq<string> -> bool)
    ensures EveryCutSame(buffer, handled, text, throws) <==> QuietAfterThrow(buffer, handled, text, throws)
  {
    if QuietAfterThrow(buffer, handled, text, throws) {
      QuietThenSame(buffer, handled, text, throws);
    }
    if EveryCutSame(buffer, handled, text, throws) {
      SameThenQuiet(buffer, handled, text, throws);
    }
  }

  lemma QuietThenSame(buffer: string, handled: seq<string>, text: string, throws: seq<string> -> bool)
    requires QuietAfterThrow(buffer, handled, text, throws)
    ensures EveryCutSame(buffer, handled, text, throws)
  {
    forall chunks, chunks'
      ensures SameBuffer(buffer, handled, text, throws, chunks, chunks')
    {
      if Concat(chunks) == text && Concat(chunks') == text {
        QuietResidue(buffer, handled, chunks, throws);
        QuietResidue(buffer, handled, chunks', throws);
      }
    }
  }

  lemma SameThenQuiet(buffer: string, handled: seq<string>, text: string, throws: seq<string> -> bool)
    requires EveryCutSame(buffer, handled, text, throws)
    ensures QuietAfterThrow(buffer, handled, text, throws)
  {
    forall i | 0 <= i < |text| && HandText(buffer, handled, text[..i], throws).threw
      ensures text[i] == '\n'
    {
      CutsDiffer(buffer, handled, text, i, throws);
    }
  }

  lemma QuietResidue(buffer: string, handled: seq<string>, chunks: seq<string>, throws: seq<string> -> bool)
    requires QuietAfterThrow(buffer, handled, Concat(chunks), throws)
    ensures ReadAll(Reading(buffer, handled, false), chunks, throws).buffer == Rest(buffer, Concat(chunks))
  {
    var text, read := Concat(chunks), ChunksRead(Reading(buffer, handled, false), chunks, throws);
    EveryChunking(buffer, handled, chunks, throws);
    ConcatPrefix(read, chunks);
    assert text[..|text|] == text && text[..|Concat(read)|] == Concat(read);
    if HandText(buffer, handled, text, throws).threw {
      ThrowLeavesNothing(buffer, handled, text, |text|, throws);
      ThrowLeavesNothing(buffer, handled, text, |Concat(read)|, throws);
    }
  }

  /** Cutting before or after a character that follows the throw makes a difference. */
  lemma CutsDiffer(buffer: string, handled: seq<string>, text: string, i: nat, throws: seq<string> -> bool)
    requires i < |text| && HandText(buffer, handled, text[..i], throws).threw
    ensures SameBuffer(buffer, handled, text, throws, [text[..i], text[i..]], [text[..i + 1], text[i + 1..]])
        ==> text[i] == '\n'
  {
    assert text[..i + 1] == text[..i] + [text[i]];
    OneCharacter(buffer, handled, text[..i], text[i], throws);
    HandTextConcat(buffer, handled, text[..i], [text[i]], throws);
    ThrowInFirst(buffer, handled, text[..i], text[i..], throws);
    ThrowInFirst(buffer, handled, text[..i + 1], text[i + 1..], throws);
    assert text[i] != '\n' ==> |Rest(buffer, text[..i + 1])| > |Rest(buffer, text[..i])|;
  }

  lemma ThrowInFirst(buffer: string, handled: seq<string>, a: string, b: string, throws: seq<string> -> bool)
    requires HandText(buffer, handled, a, throws).threw
    ensures Concat([a, b]) == a + b
    ensures ReadAll(Reading(buffer, handled, false), [a, b], throws).buffer == Rest(buffer, a)
  {
    ConcatTwo(a, b);
    var r := Reading(buffer, handled, false);
    assert [a, b][..1] == [a] && [a][..0] == [];
    assert ReadAll(r, [a], throws) == ReadOne(r, a, throws);
  }

  /** A first line that throws, as a line that is not JSON does when nobody listens for
      errors: the message after it is lost, and what stays buffered depends on the cut. */
  lemma BadLineEndsTheLoop(throws: seq<string> -> bool)
    requires throws(["x"])
    ensures
      var start := Reading("", [], false);
      && Messages(Lines("", "x\ny\nz")) == ["x", "y"]
      && ReadAll(start, ["x\ny\nz"], throws) == Reading("z", ["x"], true)
      && ReadAll(start, ["x\n", "y\nz"], throws) == Reading("", ["x"], true)
  {
    BadLines();
    HandsX(throws);
    ReadInOne("x\ny\nz", throws);
    ReadInTwo("x\n", "y\nz", throws);
  }

  lemma ReadInOne(a: string, throws: seq<string> -> bool)
    ensures ReadAll(Reading("", [], false), [a], throws) == ReadOne(Reading("", [], false), a, throws)
  {
    assert [a][..0] == [];
  }

  lemma ReadInTwo(a: string, b: string, throws: seq<string> -> bool)
    requires ReadOne(Reading("", [], false), a, throws).threw
    ensures ReadAll(Reading("", [], false), [a, b], throws) == ReadOne(Reading("", [], false), a, throws)
  {
    assert [a, b][..1] == [a];
    ReadInOne(a, throws);
  }

  lemma BadLines()
    ensures Lines("", "x\n") == ["x"] && Rest("", "x\n") == ""
    ensures Lines("", "x\ny\nz") == ["x", "y"] && Rest("", "x\ny\nz") == "z"
    ensures Messages(["x"]) == ["x"] && Messages(["x", "y"]) == ["x", "y"]
  {
    assert Unlines(["x"]) + "" == "x\n" && Unlines(["x", "y"]) + "z" == "x\ny\nz" by {
      assert ["x", "y"][1..] == ["y"] && ["y"][1..] == [] && ["x"][1..] == [];
    }
    SplitIsUnique(["x"], "");
    SplitIsUnique(["x", "y"], "z");
    LastPiece(Lines("", "x\n"), Rest("", "x\n"), ["x"], "");
    LastPiece(Lines("", "x\ny\nz"), Rest("", "x\ny\nz"), ["x", "y"], "z");
    assert Trim("x") == "x" && Trim("y") == "y";
    MessagesOfMessages(["x"]);
    MessagesOfMessages(["x", "y"]);
  }

  lemma LastPiece(a: seq<string>, x: string, b: seq<string>, y: string)
    requires a + [x] == b + [y]
    ensures a == b && x == y
  {
    assert (a + [x])[..|a|] == a && (b + [y])[..|b|] == b && (a + [x])[|a|] == x && (b + [y])[|b|] == y;
  }

  lemma HandsX(throws: seq<string> -> bool)
    requires throws(["x"])
    ensures HandAll(Handing([], false), ["x"], throws) == Handing(["x"], true)
    ensures HandAll(Handing([], false), ["x", "y"], throws) == Handing(["x"], true)
  {
    assert ["x"][..0] == [] && ["x", "y"][..1] == ["x"] && [] + ["x"] == ["x"];
  }

  // ------------------------------------------------------------- the transport

  class StdioTransport {
    var buffer: string
    /** The messages handed over so far. */
    var handled: seq<string>

    constructor ()
      ensures buffer == "" && handled == []
    {
      buffer, handled := "", [];
    }

    /** However the text is cut into chunks, the loop hands over the messages of the whole
        text, in order, up to the first that throws; and if none does, it keeps what follows
        the last newline of the text. */
    method ReadLoop(chunks: seq<string>, throws: seq<string> -> bool) returns (threw: bool)
      requires '\n' !in buffer
      modifies this
      ensures Handing(handled, threw) == HandText(old(buffer), old(handled), Concat(chunks), throws)
      ensures !threw ==> buffer == Rest(old(buffer), Concat(chunks))
      ensures Reading(buffer, handled, threw) == ReadAll(Reading(old(buffer), old(handled), false), chunks, throws)
      ensures '\n' !in buffer
    {
      threw := ReadChunks(chunks, throws);
      EveryChunking(old(buffer), old(handled), chunks, throws);
    }

    method ReadChunks(chunks: seq<string>, throws: seq<string> -> bool) returns (threw: bool)
      requires '\n' !in buffer
      modifies this
      ensures Reading(buffer, handled, threw) == ReadAll(Reading(old(buffer), old(handled), false), chunks, throws)
      ensures '\n' !in buffer
    {
      ghost var r0 := Reading(buffer, handled, false);
      for i := 0 to |chunks|
        invariant ReadAll(r0, chunks[..i], throws) == Reading(buffer, handled, false)
        invariant '\n' !in buffer
      {
        ReadNext(r0, chunks, i, throws);
        threw := ReadChunk(chunks[i], throws);
        if threw {
          ReadNoMore(r0, chunks, i + 1, throws);
          return;
        }
      }
      assert chunks[..|chunks|] == chunks;
      threw := false;
    }

    /** One turn of the loop: append, split, keep the last piece, hand over the rest. */
    method ReadChunk(text: string, throws: seq<string> -> bool) returns (threw: bool)
      requires '\n' !in buffer
      modifies this
      ensures Reading(buffer, handled, threw) == ReadOne(Reading(old(buffer), old(handled), false), text, throws)
      ensures '\n' !in buffer
    {
      PartialIsPrefix(buffer, text);
      PiecesHoldNoNewline(buffer, text);
      buffer := buffer + text;
      var pieces := Split(buffer);
      buffer := pieces[|pieces| - 1];
      var lines := pieces[..|pieces| - 1];
      assert lines == Lines(old(buffer), text);
      ghost var h0 := Handing(handled, false);
      for i := 0 to |lines|
        invariant Handing(handled, false) == HandAll(h0, Messages(lines[..i]), throws)
        invariant buffer == pieces[|pieces| - 1]
      {
        var trimmed := Trim(lines[i]);
        NextLine(lines, i);
        if trimmed != "" {
          NextHandOver(h0, Messages(lines[..i]), trimmed, throws);
          handled := handled + [trimmed];
          if throws(handled) {
            HandedNoMore(h0, lines, i + 1, throws);
            return true;
          }
        }
      }
      assert lines[..|lines|] == lines;
      threw := false;
    }
  }

  lemma ReadNext(r: Reading, chunks: seq<string>, i: nat, throws: seq<string> -> bool)
    requires i < |chunks|
    ensures ReadAll(r, chunks[..i + 1], throws) == ReadOne(ReadAll(r, chunks[..i], throws), chunks[i], throws)
  {
    assert chunks[..i + 1][..i] == chunks[..i];
  }

  lemma NextHandOver(h: Handing, ms: seq<string>, m: string, throws: seq<string> -> bool)
    ensures HandAll(h, ms + [m], throws) == HandOver(HandAll(h, ms, throws), m, throws)
  {
    TakeAppend(ms, m);
  }

  lemma HandedNoMore(h: Handing, lines: seq<string>, i: nat, throws: seq<string> -> bool)
    requires i <= |lines| && HandAll(h, Messages(lines[..i]), throws).threw
    ensures HandAll(h, Messages(lines), throws) == HandAll(h, Messages(lines[..i]), throws)
  {
    assert lines == lines[..i] + lines[i..];
    MessagesConcat(lines[..i], lines[i..]);
    HandAllConcat(h, Messages(lines[..i]), Messages(lines[i..]), throws);
    NothingAfterThrow(HandAll(h, Messages(lines[..i]), throws), Messages(lines[i..]), throws);
  }

  lemma {:induction false} ReadNoMore(r: Reading, chunks: seq<string>, i: nat, throws: seq<string> -> bool)
    requires i <= |chunks| && ReadAll(r, chunks[..i], throws).threw
    ensures ReadAll(r, chunks, throws) == ReadAll(r, chunks[..i], throws)
  {
    if i < |chunks| {
      assert chunks[..|chunks| - 1][..i] == chunks[..i];
      ReadNoMore(r, chunks[..|chunks| - 1], i, throws);
    } else {
      assert chunks[..i] == chunks;
    }
  }

  // ------------------------------------------------------------------ round trip

  /** What the peer writes: each message followed by a newline. */
  ghost predicate IsMessage(m: string) {
    m != "" && '\n' !in m && Trim(m) == m
  }

  lemma {:induction false} LinesOfUnlines(ms: seq<string>)
    requires forall m :: m in ms ==> '\n' !in m
    ensures Lines("", Unlines(ms)) == ms && Rest("", Unlines(ms)) == ""
  {
    if ms != [] {
      var m, more := ms[0], Unlines(ms[1..]);
      LinesOfUnlines(ms[1..]);
      Associative(m, "\n", more);
      PartialIsPrefix(m, "\n" + more);
      assert ("\n" + more)[1..] == more;
      assert ms == [m] + ms[1..];
    }
  }

  /** `Split` is the only way to cut a text at its newlines: with `SplitJoins` and
      `PiecesHoldNoNewline`, this says exactly what its pieces are. */
  lemma SplitIsUnique(lines: seq<string>, rest: string)
    requires '\n' !in rest && forall line :: line in lines ==> '\n' !in line
    ensures Split(Unlines(lines) + rest) == lines + [rest]
  {
    LinesConcat("", Unlines(lines), rest);
    LinesOfUnlines(lines);
    NoNewline("", rest);
    Empty(lines);
    Empty(rest);
  }

  /** A peer that ends its lines with a carriage return, too, is read the same; and lines of
      blanks are no messages. */
  lemma CarriageReturnIsTrimmed(m: string)
    requires IsMessage(m)
    ensures Messages([m + "\r"]) == [m] && Messages([""]) == [] && Messages([" "]) == [] && Messages(["\t\r"]) == []
  {
    var line := m + "\r";
    assert line[..|line| - 1] == m && line[0] == m[0];
    assert Trim(m) == m;
    TrimmedEnds(m);
    OneLine(line);
    OneLine("");
    OneLine(" ");
    OneLine("\t\r");
    assert "\t\r"[1..] == "\r" && "\r"[1..] == "" && " "[1..] == "";
  }

  lemma OneLine(line: string)
    ensures Messages([line]) == if Trim(line) == "" then [] else [Trim(line)]
  {
    assert [line][..0] == [];
  }

  lemma {:induction false} TrimmedEnds(s: string)
    requires s != "" && Trim(s) == s
    ensures !IsSpace(s[0]) && !IsSpace(s[|s| - 1])
  {
    var before, after := TrimStripsSpaces(s);
  }

  lemma {:induction false} MessagesOfMessages(ms: seq<string>)
    requires forall m :: m in ms ==> IsMessage(m)
    ensures Messages(ms) == ms
  {
    if ms != [] {
      var last := ms[|ms| - 1];
      assert IsMessage(last) && forall m :: m in ms[..|ms| - 1] ==> m in ms;
      MessagesOfMessages(ms[..|ms| - 1]);
      assert ms == ms[..|ms| - 1] + [last];
    }
  }

  /** Sent messages are received, once and in order, for every chunking, if and only if none
      before the last makes its receiver throw. */
  lemma SentIsReceivedIff(ms: seq<string>, chunks: seq<string>, throws: seq<string> -> bool)
    requires forall m :: m in ms ==> IsMessage(m)
    requires Concat(chunks) == Unlines(ms)
    ensures ReadAll(Reading("", [], false), chunks, throws).handled == ms
       <==> forall j :: 0 < j < |ms| ==> !throws(ms[..j])
  {
    LinesOfUnlines(ms);
    MessagesOfMessages(ms);
    EveryChunking("", [], chunks, throws);
    AllHandedIff([], ms, throws);
    assert forall j :: 0 < j < |ms| ==> [] + ms[..j] == ms[..j];
    Empty(ms);
  }
}
