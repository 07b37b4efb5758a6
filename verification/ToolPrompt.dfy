/**
 * Reading tool calls out of prose.
 *
 * A model that is not sent tools as such writes its calls between two tags. This module
 * says what a piece of that text means, as functions; `ToolFilter` is the machine that reads it
 * while it is still arriving.
 */
module ToolPrompt {
  import opened Text

  const OPEN := "<tool_call>"
  const CLOSE := "</tool_call>"
  const FENCE := "```"

  lemma TagLengths()
    ensures |OPEN| == 11 && |CLOSE| == 12
  {
  }

  /** A call read back. The id on the wire is "call_" and this number, which counts from one. */
  datatype Call = Call(number: nat, name: string, arguments: string)

  /**
   * What the request taught the model: whether any format at all, which names it was offered,
   * and the reader of a block's body, which is the JSON decoder and its leniencies.
   */
  datatype Lesson = Lesson(parse: bool, offered: set<string>, read: string -> Option<(string, string)>)

  /** How one stretch of the answer was decided. */
  datatype Item =
    | Prose(c: char)
    | Called(body: string, closed: bool, call: Call)
    | Dropped(body: string, closed: bool)

  type Trace = seq<Item>

  function Chars(s: string): (t: Trace)
    ensures |t| == |s| && forall i :: 0 <= i < |s| ==> t[i] == Prose(s[i])
  {
    seq(|s|, i requires 0 <= i < |s| => Prose(s[i]))
  }

  lemma CharsJoin(a: string, b: string)
    ensures Chars(a + b) == Chars(a) + Chars(b)
  {
  }

  // --- the closing tag ------------------------------------------------------------

  /** Where a scan of JSON text stands: inside a string, and behind a backslash in it. */
  datatype Lex = Lex(inString: bool, escaped: bool)

  const OUTSIDE := Lex(false, false)

  function LexStep(l: Lex, c: char): Lex {
    if l.escaped then l.(escaped := false)
    else if l.inString && c == '\\' then l.(escaped := true)
    else if c == '"' then l.(inString := !l.inString)
    else l
  }

  function LexOver(l: Lex, s: string): Lex {
    if s == "" then l else LexStep(LexOver(l, s[..|s| - 1]), s[|s| - 1])
  }

  lemma {:induction false} LexOverJoin(l: Lex, a: string, b: string)
    ensures LexOver(l, a + b) == LexOver(LexOver(l, a), b)
  {
    if b == "" {
      assert a + b == a;
    } else {
      assert (a + b)[..|a + b| - 1] == a + b[..|b| - 1];
      LexOverJoin(l, a, b[..|b| - 1]);
    }
  }

  /** A closing tag stands at `k`, and not inside a JSON string. */
  predicate Closes(block: string, k: int) {
    At(block, CLOSE, k) && LexOver(OUTSIDE, block[..k]) == OUTSIDE
  }

  /** The first tag that closes the block, or -1. */
  function CloseFrom(block: string, at: nat): (r: int)
    requires at <= |block|
    ensures r == -1 || at <= r
    ensures r >= 0 ==> Closes(block, r)
    ensures forall j :: at <= j && (r < 0 || j < r) ==> !Closes(block, j)
    decreases |block| - at
  {
    if Closes(block, at) then at
    else if at == |block| then -1
    else CloseFrom(block, at + 1)
  }

  function CloseIndex(block: string): (r: int)
    ensures r == -1 || 0 <= r <= |block| - |CLOSE|
    ensures r >= 0 ==> Closes(block, r)
    ensures forall j :: 0 <= j && (r < 0 || j < r) ==> !Closes(block, j)
  {
    CloseFrom(block, 0)
  }

  lemma FirstCloses(block: string, k: int)
    requires Closes(block, k)
    requires forall j :: 0 <= j < k ==> !Closes(block, j)
    ensures CloseIndex(block) == k
  {
  }

  /** A tag that is wholly there closes, or fails to, whatever follows. */
  lemma ClosesStays(block: string, more: string, k: nat)
    requires k + |CLOSE| <= |block|
    ensures Closes(block + more, k) <==> Closes(block, k)
  {
    assert (block + more)[k..k + |CLOSE|] == block[k..k + |CLOSE|];
    assert (block + more)[..k] == block[..k];
  }

  lemma CloseStays(block: string, more: string)
    requires CloseIndex(block) >= 0
    ensures CloseIndex(block + more) == CloseIndex(block)
  {
    var k := CloseIndex(block);
    forall j | 0 <= j <= k
      ensures Closes(block + more, j) <==> Closes(block, j)
    {
      ClosesStays(block, more, j);
    }
    FirstCloses(block + more, k);
  }

  // --- what a block may be ----------------------------------------------------------

  /** Nothing in the block rules a call out yet. */
  predicate MayBeACall(body: string) {
    var trimmed := TrimSpace(body);
    trimmed == "" || trimmed[0] == '{' || FENCE <= trimmed || trimmed <= FENCE
  }

  function StripCodeFence(body: string): string {
    if !(FENCE <= body) then body
    else
      var end := Index(body, "\n");
      if end < 0 then body
      else
        var inner := TrimSpace(body[end + 1..]);
        TrimSpace(if EndsInto(inner, FENCE, |FENCE|) then inner[..|inner| - |FENCE|] else inner)
  }

  /** A block the model was still writing, as against prose that merely opened the tag. */
  predicate StartedACall(body: string) {
    "{" <= StripCodeFence(TrimSpace(body))
  }

  /** Once a block cannot be a call, no later text makes it one. */
  lemma NoIsFinal(body: string, more: string)
    requires !MayBeACall(body)
    ensures !MayBeACall(body + more)
  {
    TrimGrows(body, more);
    var t, u := TrimSpace(body), TrimSpace(body + more);
    assert t[0] == u[0];
    assert u <= FENCE ==> t <= FENCE;
    assert FENCE <= u && |t| <= 3 ==> t <= FENCE;
  }

  /** Once its closing tag is there, a block that may be a call stays one that may. */
  lemma YesIsFinal(body: string, more: string)
    requires MayBeACall(body) && CloseIndex(body) >= 0
    ensures MayBeACall(body + more)
  {
    var k := CloseIndex(body);
    assert body[k] == body[k..k + |CLOSE|][0] == '<';
    TrimKeeps(body, k);
    var t := TrimSpace(body);
    assert '<' in t && '<' !in FENCE;
    assert !(t <= FENCE);
    TrimGrows(body, more);
  }

  /** One block's body read as a call, if this request may read one at all. */
  function Take(lesson: Lesson, calls: nat, body: string): Option<Call> {
    if !lesson.parse then None
    else
      match lesson.read(body)
      case None => None
      case Some(read) => if read.0 in lesson.offered then Some(Call(calls + 1, read.0, read.1)) else None
  }

  // --- reading text as it stands ------------------------------------------------------

  /** Where the reader stands: what it has decided, the calls so far, and what it holds back. */
  datatype Reader = Reader(trace: Trace, calls: nat, inside: bool, pending: string)

  const FRESH := Reader([], 0, false, "")

  function Behind(t: Trace, r: Reader): Reader {
    r.(trace := t + r.trace)
  }

  /** How much of a block that is no call is released: up to the next tag, or to its possible start. */
  function ProseCut(buffer: string): (cut: nat)
    ensures cut <= |buffer|
  {
    var next := Index(buffer, OPEN);
    if next >= 0 then next else Settled(buffer, OPEN)
  }

  /** One turn of the reader: it stops to wait for more text, or decides a stretch and goes on. */
  datatype Turn =
    | Wait(reader: Reader)
    | Go(front: Trace, calls: nat, inside: bool, rest: string)

  function Decide(lesson: Lesson, calls: nat, inside: bool, buffer: string): (t: Turn)
    ensures t.Wait? ==>
              |t.reader.pending| <= |buffer| &&
              if t.reader.inside then MayBeACall(t.reader.pending) && CloseIndex(t.reader.pending) < 0
              else t.reader.pending < OPEN
    ensures t.Go? ==> |t.rest| < |buffer| || (inside && !t.inside && |t.rest| <= |buffer|)
  {
    if !inside then
      var open := Index(buffer, OPEN);
      if open < 0 then
        var cut := Settled(buffer, OPEN);
        Wait(Reader(Chars(buffer[..cut]), calls, false, buffer[cut..]))
      else
        Go(Chars(buffer[..open]), calls, true, buffer[open + |OPEN|..])
    else if !MayBeACall(buffer) then
      var cut := ProseCut(buffer);
      Go(Chars(OPEN + buffer[..cut]), calls, false, buffer[cut..])
    else
      var end := CloseIndex(buffer);
      if end < 0 then Wait(Reader([], calls, true, buffer))
      else
        var body := buffer[..end];
        Go(BlockTrace(lesson, calls, body), CallsAfter(lesson, calls, body), false, buffer[end + |CLOSE|..])
  }

  /** What one block that has closed adds: a call, or its own text with both tags. */
  function BlockTrace(lesson: Lesson, calls: nat, body: string): Trace {
    match Take(lesson, calls, body)
    case Some(call) => [Called(body, true, call)]
    case None => Chars(OPEN + body + CLOSE)
  }

  function CallsAfter(lesson: Lesson, calls: nat, body: string): nat {
    if Take(lesson, calls, body).Some? then calls + 1 else calls
  }

  /** Everything that can be decided about `buffer`, outside or inside a block. */
  function Read(lesson: Lesson, calls: nat, inside: bool, buffer: string): (r: Reader)
    ensures |r.pending| <= |buffer|
    ensures !r.inside ==> r.pending < OPEN
    ensures r.inside ==> MayBeACall(r.pending) && CloseIndex(r.pending) < 0
    decreases |buffer|, inside
  {
    match Decide(lesson, calls, inside, buffer)
    case Wait(reader) => reader
    case Go(front, n, within, rest) => Behind(front, Read(lesson, n, within, rest))
  }

  /** One more delta. */
  function ReadDelta(lesson: Lesson, r: Reader, text: string): Reader {
    Behind(r.trace, Read(lesson, r.calls, r.inside, r.pending + text))
  }

  function ReadDeltas(lesson: Lesson, r: Reader, texts: seq<string>): Reader
    decreases |texts|
  {
    if texts == [] then r else ReadDeltas(lesson, ReadDelta(lesson, r, texts[0]), texts[1..])
  }

  /** What the end of the answer makes of the text still held back. */
  function Finish(lesson: Lesson, calls: nat, inside: bool, buffer: string): (t: Trace)
    decreases |buffer|
  {
    if !inside then Chars(buffer)
    else
      var end := Index(buffer, CLOSE);
      var closed := end >= 0;
      var body := if closed then buffer[..end] else buffer;
      var settled := SettleBlock(lesson, calls, body, closed);
      if !closed then settled.0
      else
        var r := Read(lesson, settled.1, false, buffer[end + |CLOSE|..]);
        settled.0 + r.trace + Finish(lesson, r.calls, r.inside, r.pending)
  }

  /** A block the answer ended inside: a call, a call cut short, or prose. */
  function SettleBlock(lesson: Lesson, calls: nat, body: string, closed: bool): (Trace, nat) {
    match Take(lesson, calls, body)
    case Some(call) => ([Called(body, closed, call)], calls + 1)
    case None =>
      if StartedACall(body) then ([Dropped(body, closed)], calls)
      else (Chars(OPEN + body + if closed then CLOSE else ""), calls)
  }

  /** A whole answer, read in one piece. */
  function ReadAll(lesson: Lesson, text: string): Trace {
    var r := Read(lesson, 0, false, text);
    r.trace + Finish(lesson, r.calls, r.inside, r.pending)
  }

  // --- streaming is reading the whole --------------------------------------------------

  lemma BehindTwice(a: Trace, b: Trace, r: Reader)
    ensures Behind(a, Behind(b, r)) == Behind(a + b, r)
  {
    assert a + (b + r.trace) == (a + b) + r.trace;
  }

  lemma ReadTurns(lesson: Lesson, trace: Trace, calls: nat, inside: bool, buffer: string)
    ensures Behind(trace, Read(lesson, calls, inside, buffer)) ==
            match Decide(lesson, calls, inside, buffer)
            case Wait(r) => Behind(trace, r)
            case Go(front, n, within, rest) => Behind(trace + front, Read(lesson, n, within, rest))
  {
    hide Decide;
    match Decide(lesson, calls, inside, buffer)
    case Wait(_) =>
    case Go(front, n, within, rest) => BehindTwice(trace, front, Read(lesson, n, within, rest));
  }

  /** Reading `buffer` and then `more` is reading both: what `ReadOn` proves. */
  ghost predicate ReadsOn(lesson: Lesson, calls: nat, inside: bool, buffer: string, more: string) {
    var r := Read(lesson, calls, inside, buffer);
    Read(lesson, calls, inside, buffer + more) == Behind(r.trace, Read(lesson, r.calls, r.inside, r.pending + more))
  }

  /** Both texts begin with the same decided stretch. */
  lemma ReadsOnBehind(lesson: Lesson, calls: nat, inside: bool, buffer: string, more: string,
                      front: Trace, n: nat, within: bool, rest: string)
    requires Read(lesson, calls, inside, buffer) == Behind(front, Read(lesson, n, within, rest))
    requires Read(lesson, calls, inside, buffer + more) == Behind(front, Read(lesson, n, within, rest + more))
    requires ReadsOn(lesson, n, within, rest, more)
    ensures ReadsOn(lesson, calls, inside, buffer, more)
  {
    hide Read;
    var r := Read(lesson, n, within, rest);
    BehindTwice(front, r.trace, Read(lesson, r.calls, r.inside, r.pending + more));
  }

  /** Deciding what can be decided and then reading on is reading the longer text. */
  lemma {:induction false} ReadOn(lesson: Lesson, calls: nat, inside: bool, buffer: string, more: string)
    ensures ReadsOn(lesson, calls, inside, buffer, more)
    decreases |buffer|, inside
  {
    hide Decide, ReadsOn;
    match Decide(lesson, calls, inside, buffer)
    case Wait(_) =>
      ReadOnWaiting(lesson, calls, inside, buffer, more);
    case Go(front, n, within, rest) =>
      if inside && !MayBeACall(buffer) {
        ReadOn(lesson, calls, false, buffer, more);
        ReadOnProse(lesson, calls, buffer, more);
      } else {
        DecidesAlike(lesson, calls, inside, buffer, more);
        ReadOn(lesson, n, within, rest, more);
        ReadsOnBehind(lesson, calls, inside, buffer, more, front, n, within, rest);
      }
  }

  /** A tag that has arrived decides the same stretch whatever follows it. */
  lemma DecidesAlike(lesson: Lesson, calls: nat, inside: bool, buffer: string, more: string)
    requires Decide(lesson, calls, inside, buffer).Go? && (inside ==> MayBeACall(buffer))
    ensures var t := Decide(lesson, calls, inside, buffer);
            Decide(lesson, calls, inside, buffer + more) == t.(rest := t.rest + more)
  {
    hide OPEN, CLOSE, MayBeACall, CloseIndex, Index, BlockTrace, CallsAfter, Chars;
    var whole := buffer + more;
    if inside {
      var end := CloseIndex(buffer);
      YesIsFinal(buffer, more);
      CloseStays(buffer, more);
      assert whole[..end] == buffer[..end];
      assert whole[end + |CLOSE|..] == buffer[end + |CLOSE|..] + more;
    } else {
      var open := Index(buffer, OPEN);
      FoundStays(buffer, more, OPEN);
      assert whole[..open] == buffer[..open];
      assert whole[open + |OPEN|..] == buffer[open + |OPEN|..] + more;
    }
  }

  lemma ReadOnWaiting(lesson: Lesson, calls: nat, inside: bool, buffer: string, more: string)
    requires Decide(lesson, calls, inside, buffer).Wait?
    ensures ReadsOn(lesson, calls, inside, buffer, more)
  {
    hide Settled, Chars, MayBeACall, CloseIndex, Index;
    var r := Read(lesson, calls, inside, buffer);
    if inside {
      hide Read;
      assert Behind([], Read(lesson, calls, true, buffer + more)) == Read(lesson, calls, true, buffer + more);
    } else {
      var cut := Settled(buffer, OPEN);
      assert r == Reader(Chars(buffer[..cut]), calls, false, buffer[cut..]);
      hide Read;
      ReleasedIsRead(lesson, calls, buffer, more);
    }
  }

  /** Text without a tag may be released up to what it must hold back, and read on from there. */
  lemma ReleasedIsRead(lesson: Lesson, calls: nat, buffer: string, more: string)
    requires Index(buffer, OPEN) < 0
    ensures var cut := Settled(buffer, OPEN);
            Read(lesson, calls, false, buffer + more)
            == Behind(Chars(buffer[..cut]), Read(lesson, calls, false, buffer[cut..] + more))
  {
    hide Read;
    var cut := Settled(buffer, OPEN);
    var tail := buffer[cut..] + more;
    assert buffer + more == buffer[..cut] + tail;
    TailFindsTag(buffer, more, OPEN);
    TailHoldsBack(buffer, more, OPEN);
    ReadsBehindProse(lesson, calls, buffer[..cut], tail);
  }

  /** Prose in front of text that decides for itself stays in front of what it decides. */
  lemma ReadsBehindProse(lesson: Lesson, calls: nat, before: string, tail: string)
    requires var k := Index(tail, OPEN);
             Index(before + tail, OPEN) == if k < 0 then -1 else |before| + k
    requires Index(tail, OPEN) < 0 ==> Settled(before + tail, OPEN) == |before| + Settled(tail, OPEN)
    ensures Read(lesson, calls, false, before + tail) == Behind(Chars(before), Read(lesson, calls, false, tail))
  {
    hide Decide, Chars;
    DecidesBehindProse(lesson, calls, before, tail);
    match Decide(lesson, calls, false, tail)
    case Wait(_) =>
    case Go(front, n, within, rest) =>
      BehindTwice(Chars(before), front, Read(lesson, n, within, rest));
  }

  lemma DecidesBehindProse(lesson: Lesson, calls: nat, before: string, tail: string)
    requires var k := Index(tail, OPEN);
             Index(before + tail, OPEN) == if k < 0 then -1 else |before| + k
    requires Index(tail, OPEN) < 0 ==> Settled(before + tail, OPEN) == |before| + Settled(tail, OPEN)
    ensures match Decide(lesson, calls, false, tail)
            case Wait(r) => Decide(lesson, calls, false, before + tail) == Wait(Behind(Chars(before), r))
            case Go(front, n, within, rest) =>
              Decide(lesson, calls, false, before + tail) == Go(Chars(before) + front, n, within, rest)
  {
    hide Chars, Settled, Index, OPEN;
    var whole, open := before + tail, Index(tail, OPEN);
    var cut := if open < 0 then Settled(tail, OPEN) else open;
    assert whole[..|before| + cut] == before + tail[..cut];
    assert whole[|before| + cut..] == tail[cut..];
    CharsJoin(before, tail[..cut]);
    if open >= 0 {
      assert whole[|before| + open + |OPEN|..] == tail[open + |OPEN|..];
    }
  }

  /** A block that is no call is its opening tag in prose, and then text like any other. */
  lemma NoCallIsProse(lesson: Lesson, calls: nat, buffer: string)
    requires !MayBeACall(buffer)
    ensures Read(lesson, calls, true, buffer) == Behind(Chars(OPEN), Read(lesson, calls, false, buffer))
  {
    var cut := ProseCut(buffer);
    ReleasesUpToCut(lesson, calls, buffer);
    CharsJoin(OPEN, buffer[..cut]);
    BehindTwice(Chars(OPEN), Chars(buffer[..cut]), Read(lesson, calls, false, buffer[cut..]));
  }

  lemma ReleasesUpToCut(lesson: Lesson, calls: nat, buffer: string)
    ensures var cut := ProseCut(buffer);
            Read(lesson, calls, false, buffer)
            == Behind(Chars(buffer[..cut]), Read(lesson, calls, false, buffer[cut..]))
  {
    hide Read;
    var cut := ProseCut(buffer);
    var kept := buffer[cut..];
    assert buffer == buffer[..cut] + kept;
    if Index(buffer, OPEN) >= 0 {
      assert kept[..|OPEN|] == buffer[cut..cut + |OPEN|];
      FirstIsIndex(kept, OPEN, 0);
      ReadsBehindProse(lesson, calls, buffer[..cut], kept);
    } else {
      assert buffer + "" == buffer && kept + "" == kept;
      ReleasedIsRead(lesson, calls, buffer, "");
    }
  }

  lemma ReadOnProse(lesson: Lesson, calls: nat, buffer: string, more: string)
    requires !MayBeACall(buffer)
    requires ReadsOn(lesson, calls, false, buffer, more)
    ensures ReadsOn(lesson, calls, true, buffer, more)
  {
    hide Read, ReadsOn;
    NoIsFinal(buffer, more);
    NoCallIsProse(lesson, calls, buffer);
    NoCallIsProse(lesson, calls, buffer + more);
    ReadsOnBehind(lesson, calls, true, buffer, more, Chars(OPEN), calls, false, buffer);
  }

  function Joined(texts: seq<string>): string {
    if texts == [] then "" else texts[0] + Joined(texts[1..])
  }

  /** Text held back was undecided, so reading it again decides nothing. */
  lemma {:induction false} DeltasFrom(lesson: Lesson, r: Reader, text: string, texts: seq<string>)
    requires r == Read(lesson, 0, false, text)
    ensures ReadDeltas(lesson, r, texts) == Read(lesson, 0, false, text + Joined(texts))
    decreases |texts|
  {
    if texts == [] {
      assert text + Joined(texts) == text;
    } else {
      ReadOn(lesson, 0, false, text, texts[0]);
      assert (text + texts[0]) + Joined(texts[1..]) == text + Joined(texts);
      DeltasFrom(lesson, ReadDelta(lesson, r, texts[0]), text + texts[0], texts[1..]);
    }
  }

  /**
   * However an answer is cut into deltas, the prose, the calls, what is dropped and the order of
   * it all are those of the whole text read at once.
   */
  lemma ChunksDoNotMatter(lesson: Lesson, texts: seq<string>)
    ensures var r := ReadDeltas(lesson, FRESH, texts);
            r == Read(lesson, 0, false, Joined(texts)) &&
            r.trace + Finish(lesson, r.calls, r.inside, r.pending) == ReadAll(lesson, Joined(texts))
  {
    assert Read(lesson, 0, false, "") == FRESH;
    DeltasFrom(lesson, FRESH, "", texts);
    assert "" + Joined(texts) == Joined(texts);
  }

  // --- what is a call is read as one -------------------------------------------------------

  /** A block begins with an object, or with a code fence around one. */
  predicate BeginsLikeACall(body: string) {
    "{" <= TrimSpace(body) || "```" <= TrimSpace(body)
  }

  /** This request reads the body as a call of an offered tool. */
  predicate IsCall(lesson: Lesson, body: string, name: string, arguments: string) {
    lesson.parse && lesson.read(body) == Some((name, arguments)) && name in lesson.offered
  }

  /**
   * The first block of an answer, wherever its own tag is the first to close it: it is a call if its
   * body reads as one, and prose if not; what stands around it is read on its own.
   */
  lemma BlockIsRead(lesson: Lesson, calls: nat, prose: string, body: string, rest: string)
    requires Index(prose + OPEN, OPEN) == |prose| && BeginsLikeACall(body) && CloseIndex(body + CLOSE) == |body|
    ensures var r := Read(lesson, calls, false, prose + OPEN + body + CLOSE + rest);
            (forall name, arguments :: IsCall(lesson, body, name, arguments) ==>
               r == Behind(Chars(prose) + [Called(body, true, Call(calls + 1, name, arguments))],
                           Read(lesson, calls + 1, false, rest))) &&
            ((forall name, arguments :: !IsCall(lesson, body, name, arguments)) ==>
               r == Behind(Chars(prose) + Chars(OPEN + body + CLOSE), Read(lesson, calls, false, rest)))
  {
    BlockIsTurned(lesson, calls, prose, body, rest);
    TakesACall(lesson, calls, body);
    hide Read, BlockTrace, CallsAfter, IsCall, Chars, BeginsLikeACall, CloseIndex, Index, OPEN, CLOSE, Behind;
  }

  lemma BlockIsTurned(lesson: Lesson, calls: nat, prose: string, body: string, rest: string)
    requires Index(prose + OPEN, OPEN) == |prose| && BeginsLikeACall(body) && CloseIndex(body + CLOSE) == |body|
    ensures Read(lesson, calls, false, prose + OPEN + body + CLOSE + rest) ==
            Behind(Chars(prose) + BlockTrace(lesson, calls, body),
                   Read(lesson, CallsAfter(lesson, calls, body), false, rest))
  {
    var text, block := prose + OPEN + body + CLOSE + rest, body + CLOSE + rest;
    DecidesToOpen(lesson, calls, prose, block);
    assert text == prose + OPEN + block;
    DecidesToClose(lesson, calls, body, rest);
    hide Read, Decide, BlockTrace, CallsAfter, Chars, BeginsLikeACall, CloseIndex, Index, OPEN, CLOSE;
    ReadTurns(lesson, [], calls, false, text);
    ReadTurns(lesson, Chars(prose), calls, true, block);
    BehindNone(Read(lesson, calls, false, text));
    assert [] + Chars(prose) == Chars(prose);
  }

  lemma BehindNone(r: Reader)
    ensures Behind([], r) == r
  {
  }

  lemma DecidesToOpen(lesson: Lesson, calls: nat, prose: string, block: string)
    requires Index(prose + OPEN, OPEN) == |prose|
    ensures Decide(lesson, calls, false, prose + OPEN + block) == Go(Chars(prose), calls, true, block)
  {
    hide Index, OPEN;
    FoundStays(prose + OPEN, block, OPEN);
    assert (prose + OPEN + block)[..|prose|] == prose && (prose + OPEN + block)[|prose| + |OPEN|..] == block;
  }

  lemma DecidesToClose(lesson: Lesson, calls: nat, body: string, rest: string)
    requires BeginsLikeACall(body) && CloseIndex(body + CLOSE) == |body|
    ensures Decide(lesson, calls, true, body + CLOSE + rest) ==
            Go(BlockTrace(lesson, calls, body), CallsAfter(lesson, calls, body), false, rest)
  {
    var block := body + CLOSE + rest;
    hide CloseIndex, TrimSpace, CLOSE, BlockTrace, CallsAfter;
    TrimGrows(body, CLOSE + rest);
    assert block == body + (CLOSE + rest);
    assert MayBeACall(block);
    CloseStays(body + CLOSE, rest);
    assert block[..|body|] == body && block[|body| + |CLOSE|..] == rest;
  }

  lemma TakesACall(lesson: Lesson, calls: nat, body: string)
    ensures forall name, arguments :: IsCall(lesson, body, name, arguments) ==>
              BlockTrace(lesson, calls, body) == [Called(body, true, Call(calls + 1, name, arguments))] &&
              CallsAfter(lesson, calls, body) == calls + 1
    ensures (forall name, arguments :: !IsCall(lesson, body, name, arguments)) ==>
              BlockTrace(lesson, calls, body) == Chars(OPEN + body + CLOSE) && CallsAfter(lesson, calls, body) == calls
  {
    hide Chars;
    if Take(lesson, calls, body).Some? {
      var read := lesson.read(body).value;
      assert IsCall(lesson, body, read.0, read.1);
    }
  }

  /** Which blocks the model was still writing: those whose first visible character, or the fence's, is a brace. */
  lemma StartedWithABrace(body: string)
    ensures "{" <= TrimSpace(body) ==> StartedACall(body)
    ensures forall tag, inner :: TrimSpace(body) == "```" + tag + "\n" + inner && '\n' !in tag ==>
              (StartedACall(body) <==> "{" <= TrimSpace(inner))
    ensures !BeginsLikeACall(body) ==> !StartedACall(body)
  {
    hide TrimSpace, StripCodeFence;
    NoFenceNoChange(TrimSpace(body));
    forall tag, inner | TrimSpace(body) == "```" + tag + "\n" + inner && '\n' !in tag
      ensures StartedACall(body) <==> "{" <= TrimSpace(inner)
    {
      FenceOpens(tag, inner);
    }
  }

  lemma NoFenceNoChange(text: string)
    ensures !("```" <= text) ==> StripCodeFence(text) == text
    ensures "{" <= text ==> !("```" <= text)
  {
    assert "{" <= text ==> text[0] == "{"[0];
    assert "```" <= text ==> text[0] == "```"[0];
  }

  lemma FenceEnds(tag: string, inner: string)
    requires '\n' !in tag
    ensures var s, n := "```" + tag + "\n" + inner, 3 + |tag|;
            Index(s, "\n") == n && s[n + 1..] == inner && FENCE <= s
  {
    var s, n := "```" + tag + "\n" + inner, 3 + |tag|;
    assert s[n..n + 1] == "\n";
    assert forall j :: 0 <= j < n ==> s[j] != '\n';
    hide Index;
    forall j | 0 <= j < n ensures !At(s, "\n", j) { assert s[j..j + 1][0] == s[j]; }
    FirstIsIndex(s, "\n", n);
  }

  lemma FenceOpens(tag: string, inner: string)
    requires '\n' !in tag
    ensures "{" <= StripCodeFence("```" + tag + "\n" + inner) <==> "{" <= TrimSpace(inner)
  {
    FenceEnds(tag, inner);
    hide TrimSpace, Index;
    var s := "```" + tag + "\n" + inner;
    var t := TrimSpace(inner);
    var kept := if EndsInto(t, FENCE, |FENCE|) then t[..|t| - |FENCE|] else t;
    assert StripCodeFence(s) == TrimSpace(kept);
    assert "{" <= kept <==> "{" <= t by { FenceIsNoBrace(t); }
    hide StripCodeFence;
    TrimmedBegins(kept);
  }

  lemma FenceIsNoBrace(t: string)
    ensures EndsInto(t, FENCE, |FENCE|) ==> ("{" <= t[..|t| - |FENCE|] <==> "{" <= t)
  {
    if EndsInto(t, FENCE, |FENCE|) && |t| == |FENCE| {
      assert t == FENCE && t[0] != '{';
    }
    assert "{" <= t <==> t != "" && t[0] == '{';
  }

  lemma TrimmedBegins(s: string)
    ensures s == "" || !IsSpace(s[0]) ==> ("{" <= TrimSpace(s) <==> "{" <= s)
  {
  }

  /** An answer of some prose and a block that reads as a call is that prose and that call. */
  lemma ACallIsTaken(lesson: Lesson, prose: string, body: string, name: string, arguments: string)
    requires Index(prose + OPEN, OPEN) == |prose| && BeginsLikeACall(body) && CloseIndex(body + CLOSE) == |body|
    requires IsCall(lesson, body, name, arguments)
    ensures ReadAll(lesson, prose + OPEN + body + CLOSE) ==
            Chars(prose) + [Called(body, true, Call(1, name, arguments))]
  {
    hide Index, IsCall, Chars, BeginsLikeACall, CloseIndex, Read, Finish, OPEN, CLOSE;
    var text, taken := prose + OPEN + body + CLOSE, Chars(prose) + [Called(body, true, Call(1, name, arguments))];
    assert text + "" == text && taken + [] == taken;
    BlockIsRead(lesson, 0, prose, body, "");
    NothingIsRead(lesson, 1);
  }

  lemma NothingIsRead(lesson: Lesson, calls: nat)
    ensures Read(lesson, calls, false, "") == Reader([], calls, false, "") && Finish(lesson, calls, false, "") == []
  {
  }

  /** A block the answer ends inside is the call it reads as, else dropped if one was begun, else prose. */
  lemma AnOpenBlockIsSettled(lesson: Lesson, prose: string, body: string)
    requires Index(prose + OPEN, OPEN) == |prose| && BeginsLikeACall(body) && Index(body, CLOSE) < 0
    ensures var t := ReadAll(lesson, prose + OPEN + body);
            (forall name, arguments :: IsCall(lesson, body, name, arguments) ==>
               t == Chars(prose) + [Called(body, false, Call(1, name, arguments))]) &&
            ((forall name, arguments :: !IsCall(lesson, body, name, arguments)) ==>
               t == Chars(prose) + if StartedACall(body) then [Dropped(body, false)] else Chars(OPEN + body))
  {
    assert CloseIndex(body) < 0;
    assert MayBeACall(body) by { hide TrimSpace; }
    TakesACall(lesson, 0, body);
    var text := prose + OPEN + body;
    DecidesToOpen(lesson, 0, prose, body);
    ReadTurns(lesson, [], 0, false, text);
    ReadTurns(lesson, Chars(prose), 0, true, body);
    BehindNone(Read(lesson, 0, false, text));
    assert [] + Chars(prose) == Chars(prose) && Chars(prose) + [] == Chars(prose);
    assert Read(lesson, 0, false, text) == Reader(Chars(prose), 0, true, body);
    hide Read, Decide, CloseIndex, Chars, StartedACall, TrimSpace;
    Settles(lesson, body);
  }

  lemma Settles(lesson: Lesson, body: string)
    requires Index(body, CLOSE) < 0
    ensures forall name, arguments :: IsCall(lesson, body, name, arguments) ==>
              Finish(lesson, 0, true, body) == [Called(body, false, Call(1, name, arguments))]
    ensures (forall name, arguments :: !IsCall(lesson, body, name, arguments)) ==>
              Finish(lesson, 0, true, body) == if StartedACall(body) then [Dropped(body, false)] else Chars(OPEN + body)
  {
    hide Chars, StartedACall;
    assert OPEN + body + "" == OPEN + body;
    if Take(lesson, 0, body).Some? {
      var read := lesson.read(body).value;
      assert IsCall(lesson, body, read.0, read.1);
    }
  }

  // --- nothing is lost -------------------------------------------------------------------

  function SourceOf(i: Item): string {
    match i
    case Prose(c) => [c]
    case Called(body, closed, _) => OPEN + body + if closed then CLOSE else ""
    case Dropped(body, closed) => OPEN + body + if closed then CLOSE else ""
  }

  /** The text a trace was read from. */
  function Source(t: Trace): string {
    if t == [] then "" else SourceOf(t[0]) + Source(t[1..])
  }

  lemma {:induction false} SourceJoin(a: Trace, b: Trace)
    ensures Source(a + b) == Source(a) + Source(b)
  {
    hide SourceOf;
    if a == [] {
      assert a + b == b;
    } else {
      assert (a + b)[1..] == a[1..] + b;
      SourceJoin(a[1..], b);
      assert SourceOf(a[0]) + (Source(a[1..]) + Source(b)) == Source(a) + Source(b);
    }
  }

  lemma {:induction false} SourceOfChars(s: string)
    ensures Source(Chars(s)) == s
  {
    if s != "" {
      assert Chars(s)[1..] == Chars(s[1..]);
      SourceOfChars(s[1..]);
      assert s == [s[0]] + s[1..];
    }
  }

  /** What a reader holds back, with the tag of the block it is inside. */
  function Held(inside: bool, pending: string): string {
    if inside then OPEN + pending else pending
  }

  /**
   * At every moment the text so far is what has been decided, laid end to end, and what is
   * still held back.
   */
  lemma {:induction false} ReadConserves(lesson: Lesson, calls: nat, inside: bool, buffer: string)
    ensures var r := Read(lesson, calls, inside, buffer);
            Source(r.trace) + Held(r.inside, r.pending) == Held(inside, buffer)
    decreases |buffer|, inside
  {
    hide Decide, Held, Source;
    DecideConserves(lesson, calls, inside, buffer);
    match Decide(lesson, calls, inside, buffer)
    case Wait(_) =>
    case Go(front, n, within, rest) =>
      ReadConserves(lesson, n, within, rest);
      var r := Read(lesson, n, within, rest);
      SourceJoin(front, r.trace);
      assert Source(front) + (Source(r.trace) + Held(r.inside, r.pending))
          == (Source(front) + Source(r.trace)) + Held(r.inside, r.pending);
  }

  lemma DecideConserves(lesson: Lesson, calls: nat, inside: bool, buffer: string)
    ensures match Decide(lesson, calls, inside, buffer)
            case Wait(r) => Source(r.trace) + Held(r.inside, r.pending) == Held(inside, buffer)
            case Go(front, _, within, rest) => Source(front) + Held(within, rest) == Held(inside, buffer)
  {
    hide MayBeACall, CloseIndex, Index, BlockTrace, CallsAfter, Chars, Settled, ProseCut, Source;
    if !inside {
      var open := Index(buffer, OPEN);
      if open < 0 {
        var cut := Settled(buffer, OPEN);
        SourceOfChars(buffer[..cut]);
        assert buffer[..cut] + buffer[cut..] == buffer;
      } else {
        SplitAt(buffer, OPEN, open);
        SourceOfChars(buffer[..open]);
        assert buffer[..open] + (OPEN + buffer[open + |OPEN|..]) == buffer;
      }
    } else if !MayBeACall(buffer) {
      var cut := ProseCut(buffer);
      SourceOfChars(OPEN + buffer[..cut]);
      assert (OPEN + buffer[..cut]) + buffer[cut..] == OPEN + buffer;
    } else if CloseIndex(buffer) >= 0 {
      var end := CloseIndex(buffer);
      SplitAt(buffer, CLOSE, end);
      BlockConserves(lesson, calls, buffer[..end]);
      assert (OPEN + buffer[..end] + CLOSE) + buffer[end + |CLOSE|..] == OPEN + buffer;
    } else {
      SourceOfChars("");
      assert Chars("") == [] && "" + Held(true, buffer) == Held(true, buffer);
    }
  }

  lemma BlockConserves(lesson: Lesson, calls: nat, body: string)
    ensures Source(BlockTrace(lesson, calls, body)) == OPEN + body + CLOSE
  {
    var t := BlockTrace(lesson, calls, body);
    if Take(lesson, calls, body).Some? {
      assert t[1..] == [];
    } else {
      SourceOfChars(OPEN + body + CLOSE);
    }
  }

  lemma SettleConserves(lesson: Lesson, calls: nat, body: string, closed: bool)
    ensures Source(SettleBlock(lesson, calls, body, closed).0) == OPEN + body + if closed then CLOSE else ""
  {
    var t := SettleBlock(lesson, calls, body, closed).0;
    if Take(lesson, calls, body).Some? || StartedACall(body) {
      assert t[1..] == [];
    } else {
      SourceOfChars(OPEN + body + if closed then CLOSE else "");
    }
  }

  lemma {:induction false} FinishConserves(lesson: Lesson, calls: nat, inside: bool, buffer: string)
    ensures Source(Finish(lesson, calls, inside, buffer)) == Held(inside, buffer)
    decreases |buffer|
  {
    hide SettleBlock, Read, Index, Source;
    if !inside {
      SourceOfChars(buffer);
    } else {
      var end := Index(buffer, CLOSE);
      if end < 0 {
        SettleConserves(lesson, calls, buffer, false);
      } else {
        var body, rest := buffer[..end], buffer[end + |CLOSE|..];
        SplitAt(buffer, CLOSE, end);
        var settled := SettleBlock(lesson, calls, body, true);
        SettleConserves(lesson, calls, body, true);
        var r := Read(lesson, settled.1, false, rest);
        ReadConserves(lesson, settled.1, false, rest);
        FinishConserves(lesson, r.calls, r.inside, r.pending);
        FinishJoins(settled.0, r.trace, Finish(lesson, r.calls, r.inside, r.pending), body,
                    Held(r.inside, r.pending), rest);
      }
    }
  }

  lemma FinishJoins(block: Trace, read: Trace, finish: Trace, body: string, held: string, rest: string)
    requires Source(block) == OPEN + body + CLOSE && Source(finish) == held && Source(read) + held == rest
    ensures Source(block + read + finish) == OPEN + (body + CLOSE + rest)
  {
    hide Source;
    SourceJoin(block + read, finish);
    SourceJoin(block, read);
  }

  /** A whole answer is accounted for: prose, calls and dropped calls, laid end to end, are the text. */
  lemma NothingIsLost(lesson: Lesson, text: string)
    ensures Source(ReadAll(lesson, text)) == text
  {
    var r := Read(lesson, 0, false, text);
    ReadConserves(lesson, 0, false, text);
    FinishConserves(lesson, r.calls, r.inside, r.pending);
    SourceJoin(r.trace, Finish(lesson, r.calls, r.inside, r.pending));
  }

  // --- what may be taken, and what may be dropped ---------------------------------------

  function CallsOf(t: Trace): seq<Call> {
    if t == [] then [] else (if t[0].Called? then [t[0].call] else []) + CallsOf(t[1..])
  }

  /**
   * Every call was allowed and read from its block, the calls are numbered from `calls + 1` in the
   * order they were written, and only calls cut short are dropped.
   */
  predicate Sound(lesson: Lesson, t: Trace, calls: nat) {
    t == [] ||
    match t[0]
    case Prose(_) => Sound(lesson, t[1..], calls)
    case Called(body, _, call) =>
      lesson.parse && lesson.read(body) == Some((call.name, call.arguments)) && call.name in lesson.offered &&
      call.number == calls + 1 && Sound(lesson, t[1..], calls + 1)
    case Dropped(body, _) =>
      StartedACall(body) && Take(lesson, 0, body).None? && Sound(lesson, t[1..], calls)
  }

  lemma {:induction false} CallsOfJoin(a: Trace, b: Trace)
    ensures CallsOf(a + b) == CallsOf(a) + CallsOf(b)
  {
    if a == [] {
      assert a + b == b;
    } else {
      CallsOfJoin(a[1..], b);
      assert (a + b)[0] == a[0] && (a + b)[1..] == a[1..] + b;
      var first := if a[0].Called? then [a[0].call] else [];
      assert first + (CallsOf(a[1..]) + CallsOf(b)) == (first + CallsOf(a[1..])) + CallsOf(b);
    }
  }

  lemma {:induction false} NoCallsInProse(s: string)
    ensures CallsOf(Chars(s)) == []
  {
    if s != "" {
      assert Chars(s)[1..] == Chars(s[1..]);
      NoCallsInProse(s[1..]);
    }
  }

  lemma {:induction false} JoinSound(lesson: Lesson, a: Trace, b: Trace, calls: nat)
    ensures Sound(lesson, a, calls) && Sound(lesson, b, calls + |CallsOf(a)|) ==> Sound(lesson, a + b, calls)
    ensures |CallsOf(a + b)| == |CallsOf(a)| + |CallsOf(b)|
  {
    hide Take, StartedACall;
    CallsOfJoin(a, b);
    if a == [] {
      assert a + b == b;
    } else {
      assert (a + b)[0] == a[0] && (a + b)[1..] == a[1..] + b;
      JoinSound(lesson, a[1..], b, if a[0].Called? then calls + 1 else calls);
    }
  }

  lemma {:induction false} ReadIsSound(lesson: Lesson, calls: nat, inside: bool, buffer: string)
    ensures var r := Read(lesson, calls, inside, buffer);
            Sound(lesson, r.trace, calls) && r.calls == calls + |CallsOf(r.trace)|
    decreases |buffer|, inside
  {
    hide Decide, Sound;
    DecideIsSound(lesson, calls, inside, buffer);
    match Decide(lesson, calls, inside, buffer)
    case Wait(_) =>
    case Go(front, n, within, rest) =>
      ReadIsSound(lesson, n, within, rest);
      JoinSound(lesson, front, Read(lesson, n, within, rest).trace, calls);
  }

  lemma DecideIsSound(lesson: Lesson, calls: nat, inside: bool, buffer: string)
    ensures var t := Decide(lesson, calls, inside, buffer);
            var (trace, n) := match t case Wait(r) => (r.trace, r.calls) case Go(front, n, _, _) => (front, n);
            Sound(lesson, trace, calls) && n == calls + |CallsOf(trace)|
  {
    hide Sound, BlockTrace, CloseIndex, MayBeACall, Settled, ProseCut, CallsOf;
    ProseIsSound(lesson, "", calls);
    assert Chars("") == [];
    if !inside {
      var open := Index(buffer, OPEN);
      ProseIsSound(lesson, buffer[..if open < 0 then Settled(buffer, OPEN) else open], calls);
    } else if !MayBeACall(buffer) {
      ProseIsSound(lesson, OPEN + buffer[..ProseCut(buffer)], calls);
    } else if CloseIndex(buffer) >= 0 {
      BlockIsSound(lesson, calls, buffer[..CloseIndex(buffer)]);
    }
  }

  lemma {:induction false} ProseIsSound(lesson: Lesson, s: string, calls: nat)
    ensures Sound(lesson, Chars(s), calls) && CallsOf(Chars(s)) == []
  {
    if s != "" {
      assert Chars(s)[1..] == Chars(s[1..]);
      ProseIsSound(lesson, s[1..], calls);
    }
  }

  lemma BlockIsSound(lesson: Lesson, calls: nat, body: string)
    ensures var t := BlockTrace(lesson, calls, body);
            Sound(lesson, t, calls) && calls + |CallsOf(t)| == CallsAfter(lesson, calls, body)
  {
    ProseIsSound(lesson, OPEN + body + CLOSE, calls);
    var t := BlockTrace(lesson, calls, body);
    if Take(lesson, calls, body).Some? {
      assert t[1..] == [];
    }
  }

  lemma SettleIsSound(lesson: Lesson, calls: nat, body: string, closed: bool)
    ensures var (t, n) := SettleBlock(lesson, calls, body, closed);
            Sound(lesson, t, calls) && calls + |CallsOf(t)| == n
  {
    ProseIsSound(lesson, OPEN + body + if closed then CLOSE else "", calls);
    var t := SettleBlock(lesson, calls, body, closed).0;
    if Take(lesson, calls, body).Some? || StartedACall(body) {
      assert t[1..] == [];
    }
  }

  lemma {:induction false} FinishIsSound(lesson: Lesson, calls: nat, inside: bool, buffer: string)
    ensures var t := Finish(lesson, calls, inside, buffer);
            Sound(lesson, t, calls)
    decreases |buffer|
  {
    hide Sound, SettleBlock, Read, Index, Chars, CallsOf;
    if !inside {
      ProseIsSound(lesson, buffer, calls);
    } else {
      var end := Index(buffer, CLOSE);
      if end < 0 {
        SettleIsSound(lesson, calls, buffer, false);
      } else {
        var body, rest := buffer[..end], buffer[end + |CLOSE|..];
        var settled := SettleBlock(lesson, calls, body, true);
        SettleIsSound(lesson, calls, body, true);
        var r := Read(lesson, settled.1, false, rest);
        ReadIsSound(lesson, settled.1, false, rest);
        FinishIsSound(lesson, r.calls, r.inside, r.pending);
        JoinSound(lesson, settled.0, r.trace, calls);
        JoinSound(lesson, settled.0 + r.trace, Finish(lesson, r.calls, r.inside, r.pending), calls);
      }
    }
  }

  /**
   * In a whole answer every call is one its block reads as, under a name that was offered, the
   * calls are numbered from one in order, and what is dropped is only ever a call that was begun
   * and cannot be read.
   */
  lemma OnlyOfferedCalls(lesson: Lesson, text: string)
    ensures Sound(lesson, ReadAll(lesson, text), 0)
    ensures !lesson.parse ==> CallsOf(ReadAll(lesson, text)) == []
  {
    hide Sound, Read, Finish, CallsOf;
    var r := Read(lesson, 0, false, text);
    ReadIsSound(lesson, 0, false, text);
    FinishIsSound(lesson, r.calls, r.inside, r.pending);
    JoinSound(lesson, r.trace, Finish(lesson, r.calls, r.inside, r.pending), 0);
    NoCallsUntaught(lesson, ReadAll(lesson, text), 0);
  }

  lemma {:induction false} NoCallsUntaught(lesson: Lesson, t: Trace, calls: nat)
    requires Sound(lesson, t, calls)
    ensures !lesson.parse ==> CallsOf(t) == []
  {
    if t != [] {
      NoCallsUntaught(lesson, t[1..], if t[0].Called? then calls + 1 else calls);
    }
  }
}
