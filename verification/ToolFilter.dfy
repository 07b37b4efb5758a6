/**
 * The filter an emulated model's answer is read through while it arrives: the machine whose
 * decisions `ToolPrompt.Read` and `ToolPrompt.Finish` describe.
 */
module ToolFilter {
  import opened Text
  import opened ToolPrompt

  /** What the caller's sink is sent. */
  datatype Event = Delta(text: string) | ToolCall(call: Call) | Refusal(text: string) | Other(text: string)

  /** What the provider's reader reports: text, a refusal, or reasoning and counts. */
  datatype Incoming = Said(text: string) | Refused(text: string) | Noted(text: string)

  /** What the layer above reads off the finished answer. */
  datatype Answer = Answer(text: string, refusal: string, toolCalls: seq<Call>, finishReason: string)

  // --- what a trace shows --------------------------------------------------------------

  function ProseOf(t: Trace): string {
    if t == [] then "" else (if t[0].Prose? then [t[0].c] else "") + ProseOf(t[1..])
  }

  lemma {:induction false} ProseOfJoin(a: Trace, b: Trace)
    ensures ProseOf(a + b) == ProseOf(a) + ProseOf(b)
  {
    if a == [] {
      assert a + b == b;
    } else {
      ProseOfJoin(a[1..], b);
      var c := if a[0].Prose? then [a[0].c] else "";
      assert (a + b)[1..] == a[1..] + b && (a + b)[0] == a[0];
      assert c + (ProseOf(a[1..]) + ProseOf(b)) == (c + ProseOf(a[1..])) + ProseOf(b);
    }
  }

  lemma {:induction false} ProseOfChars(s: string)
    ensures ProseOf(Chars(s)) == s
  {
    if s != "" {
      assert Chars(s)[1..] == Chars(s[1..]);
      ProseOfChars(s[1..]);
      assert s == [s[0]] + s[1..];
    }
  }

  /** What a reader of the stream sees, one character or one call at a time. */
  datatype Shown = Char(c: char) | Tool(call: Call)

  function Letters(s: string): (r: seq<Shown>)
    ensures |r| == |s| && forall i :: 0 <= i < |s| ==> r[i] == Char(s[i])
  {
    seq(|s|, i requires 0 <= i < |s| => Char(s[i]))
  }

  function ShownBy(t: Trace): seq<Shown> {
    if t == [] then []
    else
      (match t[0]
       case Prose(c) => [Char(c)]
       case Called(_, _, call) => [Tool(call)]
       case Dropped(_, _) => []) + ShownBy(t[1..])
  }

  /** Events with adjacent prose joined; those passed straight through are not what the filter decided. */
  function Stream(events: seq<Event>): seq<Shown> {
    if events == [] then []
    else
      var last := events[|events| - 1];
      Stream(events[..|events| - 1]) +
      match last
      case Delta(text) => Letters(text)
      case ToolCall(call) => [Tool(call)]
      case Refusal(_) => []
      case Other(_) => []
  }

  /** What the sink was sent that is not read from the text: refusals and the rest, in order. */
  function PassedIn(events: seq<Event>): seq<Event> {
    if events == [] then []
    else
      var last := events[|events| - 1];
      PassedIn(events[..|events| - 1]) + if last.Refusal? || last.Other? then [last] else []
  }

  /** The sink was sent more, none of it passed straight through. */
  predicate OnlyAdds(before: seq<Event>, after: seq<Event>) {
    before <= after && PassedIn(after) == PassedIn(before)
  }

  /** `event` was sent right after what is in `shown` and the events passed through before it. */
  ghost predicate Placed(events: seq<Event>, shown: seq<Shown>, passed: seq<Event>, event: Event) {
    exists c :: 0 <= c < |events| && events[c] == event &&
                Stream(events[..c]) == shown && PassedIn(events[..c]) == passed
  }

  lemma PlacedStays(events: seq<Event>, more: seq<Event>)
    requires events <= more
    ensures forall shown, passed, event :: Placed(events, shown, passed, event) ==> Placed(more, shown, passed, event)
  {
    assert forall c :: 0 <= c <= |events| ==> more[..c] == events[..c];
  }

  /** The pieces of text among the events that come in. */
  function TextOf(incoming: seq<Incoming>): seq<string> {
    if incoming == [] then []
    else
      var last := incoming[|incoming| - 1];
      TextOf(incoming[..|incoming| - 1]) + if last.Said? then [last.text] else []
  }

  /** Any other event, as the sink is to see it. */
  function Aside(event: Incoming): Event
    requires !event.Said?
  {
    match event
    case Refused(text) => Refusal(text)
    case Noted(text) => Other(text)
  }

  function AsidesOf(incoming: seq<Incoming>): seq<Event> {
    if incoming == [] then []
    else
      var last := incoming[|incoming| - 1];
      AsidesOf(incoming[..|incoming| - 1]) + if last.Said? then [] else [Aside(last)]
  }

  predicate Refuses(incoming: seq<Incoming>) {
    exists i :: 0 <= i < |incoming| && incoming[i].Refused?
  }

  /** The refusal of a finished answer that the stream did not carry. */
  function LateRefusal(told: bool, answer: Answer): seq<Event> {
    if answer.refusal != "" && !told then [Refusal(answer.refusal)] else []
  }

  lemma {:induction false} ShownByJoin(a: Trace, b: Trace)
    ensures ShownBy(a + b) == ShownBy(a) + ShownBy(b)
  {
    if a == [] {
      assert a + b == b;
    } else {
      assert (a + b)[1..] == a[1..] + b;
      ShownByJoin(a[1..], b);
    }
  }

  lemma {:induction false} ShownByChars(s: string)
    ensures ShownBy(Chars(s)) == Letters(s)
  {
    if s != "" {
      assert Chars(s)[1..] == Chars(s[1..]);
      ShownByChars(s[1..]);
      assert Letters(s) == [Char(s[0])] + Letters(s[1..]);
    }
  }

  /** All that a trace tells anyone. */
  function Telling(t: Trace): (string, seq<Call>, seq<Shown>) {
    (ProseOf(t), CallsOf(t), ShownBy(t))
  }

  lemma TellsProse(t: Trace, text: string)
    ensures Telling(t + Chars(text)) == (ProseOf(t) + text, CallsOf(t), ShownBy(t) + Letters(text))
  {
    ProseOfJoin(t, Chars(text));
    ProseOfChars(text);
    CallsOfJoin(t, Chars(text));
    NoCallsInProse(text);
    assert CallsOf(t) + [] == CallsOf(t);
    ShownByJoin(t, Chars(text));
    ShownByChars(text);
  }

  lemma TellsCall(t: Trace, body: string, closed: bool, call: Call)
    ensures Telling(t + [Called(body, closed, call)]) == (ProseOf(t), CallsOf(t) + [call], ShownBy(t) + [Tool(call)])
  {
    var item := [Called(body, closed, call)];
    assert item[1..] == [];
    ProseOfJoin(t, item);
    CallsOfJoin(t, item);
    ShownByJoin(t, item);
    assert ProseOf(item) == "" && CallsOf(item) == [call] && ShownBy(item) == [Tool(call)];
    assert ProseOf(t) + "" == ProseOf(t);
  }

  lemma TellsNothing(t: Trace, body: string, closed: bool)
    ensures Telling(t + [Dropped(body, closed)]) == Telling(t)
  {
    var item := [Dropped(body, closed)];
    assert item[1..] == [];
    ProseOfJoin(t, item);
    CallsOfJoin(t, item);
    ShownByJoin(t, item);
    assert ProseOf(t) + "" == ProseOf(t) && CallsOf(t) + [] == CallsOf(t) && ShownBy(t) + [] == ShownBy(t);
  }

  // --- the end of an answer ----------------------------------------------------------------

  /** strings.EqualFold(reason, "stop"); the long s folds to s. */
  predicate IsStop(reason: string) {
    |reason| == 4 && reason[0] in "sS\U{17F}" && reason[1] in "tT" && reason[2] in "oO" && reason[3] in "pP"
  }

  /** The finished answer, from everything that was decided about its text. */
  function Finished(before: Answer, t: Trace): Answer {
    var prose := ProseOf(t);
    var calls := CallsOf(t);
    Answer((if Blank(prose) then "" else prose) + before.refusal, before.refusal,
           before.toolCalls + calls,
           if calls != [] && (before.finishReason == "" || IsStop(before.finishReason)) then "tool_calls"
           else before.finishReason)
  }

  function TrimSuffix(s: string, suffix: string): string {
    if |suffix| <= |s| && s[|s| - |suffix|..] == suffix then s[..|s| - |suffix|] else s
  }

  /** The text of an answer that arrived whole; one that was streamed is not read again. */
  function Unread(sawDelta: bool, answer: Answer): string {
    if sawDelta then "" else TrimSuffix(answer.text, answer.refusal)
  }

  class Filter {
    const lesson: Lesson
    // Whether the caller passed a sink.
    const listening: bool
    var prose: string
    var pending: string
    var inside: bool
    var sawDelta: bool
    var sawRefusal: bool
    var calls: seq<Call>
    var announced: nat
    // The search for the closing tag in the block that is open.
    var at: nat
    var inString: bool
    var escaped: bool
    // What the sink has received.
    var events: seq<Event>
    ghost var trace: Trace

    ghost predicate Valid()
      reads this
    {
      && announced == |calls|
      && Told()
      && (inside ==> Searched(pending))
    }

    /** The prose, the calls and the sink all say what has been decided, and nothing else. */
    ghost predicate Told()
      reads this`prose, this`calls, this`events, this`trace
    {
      && prose == ProseOf(trace)
      && calls == CallsOf(trace)
      && Stream(events) == if listening then ShownBy(trace) else []
    }

    /** No tag closes the block before `at`, and the string state is the one at `at`. */
    ghost predicate Searched(block: string)
      reads this
    {
      && at <= |block|
      && (at == 0 || at + |CLOSE| <= |block| + 1)
      && Lex(inString, escaped) == LexOver(OUTSIDE, block[..at])
      && forall j :: 0 <= j < at ==> !Closes(block, j)
    }

    ghost function Reading(): Reader
      reads this
    {
      Reader(trace, |calls|, inside, pending)
    }

    constructor (lesson: Lesson, listening: bool)
      ensures Valid() && Reading() == FRESH && !sawDelta && !sawRefusal && events == []
      ensures this.lesson == lesson && this.listening == listening
    {
      this.lesson, this.listening := lesson, listening;
      prose, pending, inside, sawDelta, sawRefusal := "", "", false, false, false;
      calls, announced, events, trace := [], 0, [], [];
      at, inString, escaped := 0, false, false;
    }

    lemma SinkIsTold()
      requires Valid()
      ensures listening ==> Stream(events) == ShownBy(trace)
    {
    }

    /** closeSearch.find: the search goes on from where the last one stopped. */
    method Find(block: string) returns (end: int)
      requires Searched(block)
      modifies this`at, this`inString, this`escaped
      ensures end == CloseIndex(block)
      ensures end < 0 ==> Searched(block)
    {
      var last := |block| - |CLOSE|;
      while at <= last
        invariant Searched(block)
        decreases last + 1 - at
      {
        var c := block[at];
        ghost var before := Lex(inString, escaped);
        assert block[..at + 1][..at] == block[..at];
        assert LexOver(OUTSIDE, block[..at + 1]) == LexStep(before, c);
        hide LexOver;
        if escaped {
          escaped := false;
        } else if inString && c == '\\' {
          escaped := true;
        } else if c == '"' {
          inString := !inString;
        } else if !inString && c == CLOSE[0] && CLOSE <= block[at..] {
          assert block[at..at + |CLOSE|] == CLOSE;
          FirstCloses(block, at);
          return at;
        }
        assert Lex(inString, escaped) == LexStep(before, c);
        assert !Closes(block, at) by {
          if At(block, CLOSE, at) {
            assert block[at..at + |CLOSE|][0] == c;
            assert CLOSE <= block[at..];
          }
        }
        at := at + 1;
      }
      assert forall j :: 0 <= j ==> !Closes(block, j);
      return -1;
    }

    method Emit(text: string)
      requires Told()
      modifies this`prose, this`events, this`trace
      ensures Told() && trace == old(trace) + Chars(text)
      ensures OnlyAdds(old(events), events)
    {
      TellsProse(trace, text);
      trace := trace + Chars(text);
      if text == "" {
        return;
      }
      prose := prose + text;
      if listening {
        events := events + [Delta(text)];
        assert events[..|events| - 1] == old(events);
      }
    }

    /** Reads a block's body as a call, and sends it downstream the moment it is one. */
    method TakeAndAnnounce(body: string, ghost closed: bool) returns (ok: bool)
      requires Told() && announced == |calls|
      modifies this`calls, this`announced, this`events, this`trace
      ensures Told() && announced == |calls|
      ensures var taken := Take(lesson, |old(calls)|, body);
              ok == taken.Some? &&
              trace == (if ok then old(trace) + [Called(body, closed, taken.value)] else old(trace)) &&
              |calls| == |old(calls)| + if ok then 1 else 0
      ensures OnlyAdds(old(events), events)
    {
      hide Take;
      var taken := Take(lesson, |calls|, body);
      if taken.None? {
        return false;
      }
      TellsCall(trace, body, closed, taken.value);
      calls := calls + [taken.value];
      trace := trace + [Called(body, closed, taken.value)];
      announced := announced + 1;
      if listening {
        events := events + [ToolCall(taken.value)];
        assert events[..|events| - 1] == old(events);
      }
      return true;
    }

    /** toolCallFilter.delta */
    method Feed(text: string)
      requires Valid()
      modifies this
      ensures Valid() && sawDelta && sawRefusal == old(sawRefusal)
      ensures Reading() == ReadDelta(lesson, old(Reading()), text)
      ensures OnlyAdds(old(events), events)
    {
      hide Valid, Read, Decide, PassedIn;
      Buffer(text);
      ghost var target := ReadDelta(lesson, old(Reading()), text);
      var waiting := false;
      while !waiting
        invariant Valid() && sawDelta && sawRefusal == old(sawRefusal)
        invariant OnlyAdds(old(events), events)
        invariant if waiting then Reading() == target
                  else Behind(trace, Read(lesson, |calls|, inside, pending)) == target
        decreases !waiting, |pending|, inside
      {
        ReadTurns(lesson, trace, |calls|, inside, pending);
        waiting := Turn();
      }
    }

    method Buffer(text: string)
      requires Valid()
      modifies this`sawDelta, this`pending
      ensures Valid() && sawDelta && pending == old(pending) + text
    {
      sawDelta := true;
      if inside {
        SearchGrows(pending, text);
      }
      pending := pending + text;
    }

    /** The filter stands where the turn left it. */
    ghost predicate Turned(t: Turn, before: Trace, waiting: bool)
      reads this
    {
      waiting == t.Wait? &&
      match t
      case Wait(r) => Reading() == Behind(before, r)
      case Go(front, n, within, rest) => Reading() == Reader(before + front, n, within, rest)
    }

    /** One turn of its loop: a stretch is decided, or the reader waits for more. */
    method Turn() returns (waiting: bool)
      requires Valid()
      modifies this
      ensures Valid() && sawDelta == old(sawDelta) && sawRefusal == old(sawRefusal)
      ensures OnlyAdds(old(events), events)
      ensures Turned(Decide(lesson, |old(calls)|, old(inside), old(pending)), old(trace), waiting)
    {
      hide *;
      if inside {
        waiting := TurnInside();
      } else {
        waiting := TurnOutside();
      }
    }

    method TurnOutside() returns (waiting: bool)
      requires Valid() && !inside
      modifies this
      ensures Valid() && sawDelta == old(sawDelta) && sawRefusal == old(sawRefusal)
      ensures OnlyAdds(old(events), events)
      ensures Turned(Decide(lesson, |old(calls)|, old(inside), old(pending)), old(trace), waiting)
    {
      TagLengths();
      hide Told, Index, Chars, OPEN, CLOSE, PassedIn;
      var buffered := pending;
      var open := Index(buffered, OPEN);
      if open < 0 {
        var hold := PartialTagLen(buffered, OPEN);
        pending := buffered[|buffered| - hold..];
        Emit(buffered[..|buffered| - hold]);
        return true;
      }
      Emit(buffered[..open]);
      pending := buffered[open + |OPEN|..];
      inside := true;
      at, inString, escaped := 0, false, false;
      StartsOutside(pending);
      return false;
    }

    method TurnInside() returns (waiting: bool)
      requires Valid() && inside
      modifies this
      ensures Valid() && sawDelta == old(sawDelta) && sawRefusal == old(sawRefusal)
      ensures OnlyAdds(old(events), events)
      ensures Turned(Decide(lesson, |old(calls)|, old(inside), old(pending)), old(trace), waiting)
    {
      hide *;
      // Prose or not comes first, the closing tag second, as `Decide` has it.
      if !MayBeACall(pending) {
        waiting := ReleaseProse();
      } else {
        waiting := CloseBlock();
      }
    }

    method ReleaseProse() returns (waiting: bool)
      requires Valid() && inside && !MayBeACall(pending)
      modifies this
      ensures Valid() && sawDelta == old(sawDelta) && sawRefusal == old(sawRefusal)
      ensures OnlyAdds(old(events), events)
      ensures Turned(Decide(lesson, |old(calls)|, old(inside), old(pending)), old(trace), waiting)
    {
      TagLengths();
      hide Told, Index, Chars, OPEN, CLOSE, PassedIn, MayBeACall;
      var buffered := pending;
      var cut := |buffered|;
      var next := Index(buffered, OPEN);
      if next >= 0 {
        cut := next;
      } else {
        cut := cut - PartialTagLen(buffered, OPEN);
      }
      Emit(OPEN + buffered[..cut]);
      pending := buffered[cut..];
      inside := false;
      return false;
    }

    method CloseBlock() returns (waiting: bool)
      requires Valid() && inside && MayBeACall(pending)
      modifies this
      ensures Valid() && sawDelta == old(sawDelta) && sawRefusal == old(sawRefusal)
      ensures OnlyAdds(old(events), events)
      ensures Turned(Decide(lesson, |old(calls)|, old(inside), old(pending)), old(trace), waiting)
    {
      hide Told, Take, CloseIndex, Chars, OPEN, CLOSE, PassedIn, MayBeACall;
      var buffered := pending;
      var end := Find(buffered);
      if end < 0 {
        assert trace + [] == trace;
        return true;
      }
      var body := buffered[..end];
      var ok := TakeAndAnnounce(body, true);
      if !ok {
        Emit(OPEN + body + CLOSE);
      }
      pending := buffered[end + |CLOSE|..];
      inside := false;
      return false;
    }

    /** toolCallFilter.event: text is read, anything else goes straight through. */
    method Receive(event: Incoming)
      requires Valid()
      modifies this
      ensures Valid() && sawDelta == (old(sawDelta) || event.Said?) && sawRefusal == (old(sawRefusal) || event.Refused?)
      ensures Reading() == if event.Said? then ReadDelta(lesson, old(Reading()), event.text) else old(Reading())
      ensures old(events) <= events && (listening && !event.Said? ==> events == old(events) + [Aside(event)])
      ensures PassedIn(events) == old(PassedIn(events)) + if listening && !event.Said? then [Aside(event)] else []
    {
      hide Read, Told;
      assert PassedIn(events) + [] == PassedIn(events);
      match event
      case Said(text) =>
        Feed(text);
      case Refused(text) =>
        sawRefusal := true;
        Pass(Refusal(text));
      case Noted(text) =>
        Pass(Other(text));
    }

    method Pass(event: Event)
      requires Told() && (event.Refusal? || event.Other?)
      modifies this`events
      ensures Told() && events == old(events) + if listening then [event] else []
      ensures PassedIn(events) == old(PassedIn(events)) + if listening then [event] else []
    {
      if listening {
        events := events + [event];
        assert events[..|events| - 1] == old(events);
      }
    }

    /** Every reading of a block the answer ended inside is tried: a call, a call cut short, prose. */
    method SettleOpenBlock() returns (closed: bool)
      requires Valid() && inside
      modifies this
      ensures Valid() && sawDelta == old(sawDelta) && sawRefusal == old(sawRefusal)
      ensures OnlyAdds(old(events), events)
      ensures var end := Index(old(pending), CLOSE);
              var body := if end >= 0 then old(pending)[..end] else old(pending);
              var settled := SettleBlock(lesson, |old(calls)|, body, end >= 0);
              closed == (end >= 0) && trace == old(trace) + settled.0 && |calls| == settled.1 &&
              inside == !closed && pending == if closed then old(pending)[end + |CLOSE|..] else old(pending)
    {
      TagLengths();
      hide Told, Take, Index, Chars, OPEN, CLOSE, PassedIn, StartedACall, LexOver;
      var whole := pending;
      var body, rest := whole, "";
      closed := false;
      var end := Index(whole, CLOSE);
      if end >= 0 {
        body, rest, closed := whole[..end], whole[end + |CLOSE|..], true;
      }
      var ok := TakeAndAnnounce(body, closed);
      if !ok {
        if StartedACall(body) {
          Drop(body, closed);
        } else {
          Emit(OPEN + body + if closed then CLOSE else "");
        }
      }
      if closed {
        pending := rest;
        inside := false;
      }
    }

    ghost method Drop(body: string, closed: bool)
      requires Told()
      modifies this`trace
      ensures Told() && trace == old(trace) + [Dropped(body, closed)]
    {
      TellsNothing(trace, body, closed);
      trace := trace + [Dropped(body, closed)];
    }

    /** The refusal is sent last, if it is to be sent at all. */
    predicate Concluded(passed: seq<Event>, told: bool, answer: Answer)
      reads this`events
    {
      var late := if listening then LateRefusal(told, answer) else [];
      PassedIn(events) == passed + late && (late != [] ==> events != [] && events[|events| - 1] == late[0])
    }

    /** What the answer is read from when it ends: its own text, if none of it was streamed. */
    ghost function Base(answer: Answer): Reader
      reads this
    {
      var text := Unread(sawDelta, answer);
      if text == "" then Reading() else ReadDelta(lesson, Reading(), text)
    }

    /** toolCallFilter.finish */
    method Conclude(answer: Answer) returns (out: Answer)
      requires Valid()
      modifies this
      ensures Valid()
      ensures var base := old(Base(answer));
              trace == base.trace + Finish(lesson, base.calls, base.inside, base.pending)
      ensures out == Finished(answer, trace)
      ensures old(events) <= events && Concluded(old(PassedIn(events)), old(sawRefusal), answer)
      decreases !sawDelta, |pending|, 1
    {
      hide Valid, PassedIn, Finished, Finish, Unread, Concluded;
      UnreadOnce(answer);
      var text := Unread(sawDelta, answer);
      if text != "" {
        Feed(text);
      }
      out := Settle(answer);
    }

    /** finish, once the text of a buffered answer has been read. */
    method Settle(answer: Answer) returns (out: Answer)
      requires Valid()
      modifies this
      ensures Valid()
      ensures trace == old(trace) + Finish(lesson, |old(calls)|, old(inside), old(pending))
      ensures out == Finished(answer, trace)
      ensures old(events) <= events && Concluded(old(PassedIn(events)), old(sawRefusal), answer)
      decreases !sawDelta, |pending|, 0
    {
      hide Valid, Read, PassedIn, Index, SettleBlock, Finished, Finish, Chars, CLOSE, Unread, Take, StartedACall,
           Concluded;
      if inside {
        TagLengths();
        FinishGoesOn(lesson, |calls|, pending);
        var closed := SettleOpenBlock();
        if closed {
          Feed("");
          UnreadOnce(answer);
          out := Conclude(answer);
          return;
        }
      } else {
        FinishOutside(lesson, |calls|, pending);
        EmitPending();
      }
      out := Report(answer);
    }

    method EmitPending()
      requires Valid() && !inside
      modifies this
      ensures Valid() && sawRefusal == old(sawRefusal)
      ensures trace == old(trace) + Chars(old(pending)) && OnlyAdds(old(events), events)
    {
      Emit(pending);
    }

    lemma StartsOutside(block: string)
      requires at == 0 && !inString && !escaped
      ensures Searched(block)
    {
    }

    lemma SearchGrows(block: string, more: string)
      requires Searched(block)
      ensures Searched(block + more)
    {
      assert (block + more)[..at] == block[..at];
      forall j | 0 <= j < at
        ensures !Closes(block + more, j)
      {
        ClosesStays(block, more, j);
      }
    }

    method Report(answer: Answer) returns (out: Answer)
      requires Valid()
      modifies this
      ensures Valid() && trace == old(trace) && out == Finished(answer, trace)
      ensures old(events) <= events && Concluded(old(PassedIn(events)), old(sawRefusal), answer)
    {
      hide ProseOf, CallsOf, ShownBy, Blank, PassedIn;
      var shown := prose;
      if Blank(shown) {
        shown := "";
      }
      out := answer.(text := shown + answer.refusal);
      if answer.refusal != "" && !sawRefusal && listening {
        sawRefusal := true;
        Pass(Refusal(answer.refusal));
      } else {
        assert PassedIn(events) + [] == PassedIn(events);
      }
      // Calls the stream already carried are not sent again, and it carried them all.
      assert calls[announced..] == [];
      if calls != [] {
        out := out.(toolCalls := out.toolCalls + calls,
                    finishReason := if out.finishReason == "" || IsStop(out.finishReason) then "tool_calls"
                                    else out.finishReason);
      } else {
        assert answer.toolCalls + calls == answer.toolCalls;
      }
    }
  }

  /**
   * emulatedChat: the answer arrives as the events `incoming`, or whole in `before`, and is
   * read back. Either way the text, the calls and what the sink saw are those of the whole
   * text, every call was sent once, at its place in the stream, and so was every other event,
   * in order. The refusal of the finished answer is told only if none was streamed.
   */
  method EmulatedChat(lesson: Lesson, listening: bool, incoming: seq<Incoming>, before: Answer)
    returns (after: Answer, events: seq<Event>)
    ensures var deltas := TextOf(incoming);
            var text := if deltas == [] then Unread(false, before) else Joined(deltas);
            after == Finished(before, ReadAll(lesson, text)) &&
            Stream(events) == (if listening then ShownBy(ReadAll(lesson, text)) else [])
    ensures var deltas := TextOf(incoming);
            var text := if deltas == [] then Unread(false, before) else Joined(deltas);
            IsFinished(before, after, ReadAll(lesson, text)) &&
            CallIsTold(lesson, text, before, after, listening, events)
    ensures PassedIn(events) ==
            if listening then AsidesOf(incoming) + LateRefusal(Refuses(incoming), before) else []
    ensures listening ==> forall k :: 0 <= k < |incoming| && !incoming[k].Said? ==> InPlace(lesson, incoming, k, events)
    ensures listening && LateRefusal(Refuses(incoming), before) != [] ==>
              events != [] && events[|events| - 1] == Refusal(before.refusal)
  {
    hide Read, ReadDelta, ReadDeltas, Finish, ReadAll, Finished, ShownBy, TextOf, AsidesOf, Refuses, Placed, PassedIn,
         IsFinished, CallIsTold, Stream;
    var filter := new Filter(lesson, listening);
    ReceiveAll(filter, incoming);
    ghost var deltas := TextOf(incoming);
    ChunksDoNotMatter(lesson, deltas);
    ghost var text := Unread(filter.sawDelta, before);
    if deltas == [] {
      OneDelta(lesson, text);
    }
    ghost var streamed := filter.events;
    after := filter.Conclude(before);
    events := filter.events;
    PlacedStays(streamed, events);
    var whole := if deltas == [] then Unread(false, before) else Joined(deltas);
    FinishedIs(before, ReadAll(lesson, whole));
    CallTextIsTold(lesson, whole, before, listening, events);
  }

  /** The finished answer, by what was read: its calls are added, and make a turn that merely stopped one of calls. */
  predicate IsFinished(before: Answer, after: Answer, t: Trace) {
    after.toolCalls == before.toolCalls + CallsOf(t) && after.refusal == before.refusal &&
    after.text == (if Blank(ProseOf(t)) then "" else ProseOf(t)) + before.refusal &&
    (CallsOf(t) == [] || !(before.finishReason == "" || IsStop(before.finishReason)) ==>
       after.finishReason == before.finishReason) &&
    (CallsOf(t) != [] && before.finishReason in ["", "stop", "Stop", "STOP"] ==> after.finishReason == "tool_calls")
  }

  lemma FinishedIs(before: Answer, t: Trace)
    ensures IsFinished(before, Finished(before, t), t)
  {
    hide CallsOf, ProseOf, Blank;
    assert CallsOf(t) == [] ==> before.toolCalls + CallsOf(t) == before.toolCalls;
  }

  /** Some prose and a block whose body this request reads as a call, closed by its own tag. */
  predicate IsCallText(lesson: Lesson, text: string, prose: string, body: string, name: string, arguments: string) {
    text == prose + OPEN + body + CLOSE && Index(prose + OPEN, OPEN) == |prose| &&
    BeginsLikeACall(body) && CloseIndex(body + CLOSE) == |body| && IsCall(lesson, body, name, arguments)
  }

  /** Such a call is among the answer's, and the sink was sent the prose and the call. */
  ghost predicate CallIsTold(lesson: Lesson, text: string, before: Answer, after: Answer, listening: bool,
                             events: seq<Event>)
  {
    forall prose, body, name, arguments :: IsCallText(lesson, text, prose, body, name, arguments) ==>
      after.toolCalls == before.toolCalls + [Call(1, name, arguments)] &&
      after.text == (if Blank(prose) then "" else prose) + before.refusal &&
      Stream(events) == if listening then Letters(prose) + [Tool(Call(1, name, arguments))] else []
  }

  lemma CallTextIsTold(lesson: Lesson, text: string, before: Answer, listening: bool, events: seq<Event>)
    requires Stream(events) == if listening then ShownBy(ReadAll(lesson, text)) else []
    ensures CallIsTold(lesson, text, before, Finished(before, ReadAll(lesson, text)), listening, events)
  {
    hide ReadAll, Index, CloseIndex, BeginsLikeACall, IsCall, Letters, Blank, Chars, CallsOf, ProseOf, ShownBy, Stream;
    forall prose, body, name, arguments | IsCallText(lesson, text, prose, body, name, arguments)
      ensures Telling(ReadAll(lesson, text)) ==
              (prose, [Call(1, name, arguments)], Letters(prose) + [Tool(Call(1, name, arguments))])
    {
      ACallIsTaken(lesson, prose, body, name, arguments);
      TellsThat(prose, body, Call(1, name, arguments));
    }
  }

  lemma TellsThat(prose: string, body: string, call: Call)
    ensures Telling(Chars(prose) + [Called(body, true, call)]) == (prose, [call], Letters(prose) + [Tool(call)])
  {
    TellsProse([], prose);
    assert [] + Chars(prose) == Chars(prose);
    hide Chars, Letters;
    TellsCall(Chars(prose), body, true, call);
    assert "" + prose == prose && [] + [call] == [call] && [] + Letters(prose) == Letters(prose);
  }

  /** An event that is no text comes right after all that the text before it had decided. */
  ghost predicate InPlace(lesson: Lesson, incoming: seq<Incoming>, k: nat, events: seq<Event>)
    requires k < |incoming| && !incoming[k].Said?
  {
    var front := incoming[..k];
    var decided := Read(lesson, 0, false, Joined(TextOf(front))).trace;
    Placed(events, ShownBy(decided), AsidesOf(front), Aside(incoming[k]))
  }

  method ReceiveAll(filter: Filter, incoming: seq<Incoming>)
    requires filter.Valid() && filter.Reading() == FRESH && !filter.sawDelta && !filter.sawRefusal
    requires filter.events == []
    modifies filter
    ensures filter.Valid() && filter.sawDelta == (TextOf(incoming) != []) && filter.sawRefusal == Refuses(incoming)
    ensures PassedIn(filter.events) == if filter.listening then AsidesOf(incoming) else []
    ensures filter.Reading() == ReadDeltas(filter.lesson, FRESH, TextOf(incoming))
    ensures filter.listening ==> forall k :: 0 <= k < |incoming| && !incoming[k].Said? ==>
              InPlace(filter.lesson, incoming, k, filter.events)
  {
    hide Read, ReadDelta, ReadDeltas, TextOf, AsidesOf, Refuses, PassedIn, Filter.Valid, InPlace, Stream, ShownBy,
         Filter.Told, Filter.Searched;
    NothingYet(filter.lesson);
    for i := 0 to |incoming|
      invariant filter.Valid() && filter.sawDelta == (TextOf(incoming[..i]) != [])
      invariant filter.sawRefusal == Refuses(incoming[..i])
      invariant PassedIn(filter.events) == if filter.listening then AsidesOf(incoming[..i]) else []
      invariant filter.Reading() == ReadDeltas(filter.lesson, FRESH, TextOf(incoming[..i]))
      invariant filter.listening ==> forall k :: 0 <= k < i && !incoming[k].Said? ==>
                  InPlace(filter.lesson, incoming, k, filter.events)
    {
      ghost var sent := filter.events;
      assert filter.listening ==> Stream(sent) == ShownBy(filter.trace) by { filter.SinkIsTold(); }
      OneMore(incoming[..i], incoming[i]);
      assert incoming[..i + 1] == incoming[..i] + [incoming[i]];
      if incoming[i].Said? {
        DeltasJoin(filter.lesson, FRESH, TextOf(incoming[..i]), incoming[i].text);
      } else {
        assert TextOf(incoming[..i]) + [] == TextOf(incoming[..i]);
      }
      filter.Receive(incoming[i]);
      ItsPlace(filter.lesson, incoming, i, sent, filter.events);
    }
    assert incoming[..|incoming|] == incoming;
  }

  /** Events sent so far keep their places, and one sent now is in its own. */
  lemma ItsPlace(lesson: Lesson, incoming: seq<Incoming>, k: nat, sent: seq<Event>, events: seq<Event>)
    requires k < |incoming| && sent <= events
    ensures forall j :: 0 <= j < k && !incoming[j].Said? && InPlace(lesson, incoming, j, sent) ==>
              InPlace(lesson, incoming, j, events)
    ensures !incoming[k].Said? && events == sent + [Aside(incoming[k])] && PassedIn(sent) == AsidesOf(incoming[..k]) &&
            Stream(sent) == ShownBy(ReadDeltas(lesson, FRESH, TextOf(incoming[..k])).trace) ==>
              InPlace(lesson, incoming, k, events)
  {
    PlacedStays(sent, events);
    ChunksDoNotMatter(lesson, TextOf(incoming[..k]));
    hide Read, ReadDeltas, ShownBy, Stream, PassedIn, TextOf, AsidesOf;
    assert events[..|sent|] == sent;
  }

  lemma NothingYet(lesson: Lesson)
    ensures TextOf([]) == [] && AsidesOf([]) == [] && !Refuses([]) && PassedIn([]) == []
    ensures ReadDeltas(lesson, FRESH, []) == FRESH
  {
  }

  lemma OneMore(front: seq<Incoming>, event: Incoming)
    ensures TextOf(front + [event]) == TextOf(front) + if event.Said? then [event.text] else []
    ensures AsidesOf(front + [event]) == AsidesOf(front) + if event.Said? then [] else [Aside(event)]
    ensures Refuses(front + [event]) <==> Refuses(front) || event.Refused?
  {
    var all := front + [event];
    assert all[..|front|] == front && all[|front|] == event;
    assert Refuses(front) ==> Refuses(all) by {
      hide AsidesOf, TextOf;
      assert forall i :: 0 <= i < |front| ==> all[i] == front[i];
    }
  }

  lemma UnreadOnce(answer: Answer)
    ensures Unread(true, answer) == ""
  {
  }

  lemma FinishOutside(lesson: Lesson, calls: nat, buffer: string)
    ensures Finish(lesson, calls, false, buffer) == Chars(buffer)
  {
  }

  /** Past a block settled at the end of the answer, the text behind its tag is read as streamed. */
  lemma FinishGoesOn(lesson: Lesson, calls: nat, buffer: string)
    ensures var end := Index(buffer, CLOSE);
            var body := if end >= 0 then buffer[..end] else buffer;
            var settled := SettleBlock(lesson, calls, body, end >= 0);
            Finish(lesson, calls, true, buffer) ==
            if end < 0 then settled.0
            else
              var r := Read(lesson, settled.1, false, buffer[end + |CLOSE|..] + "");
              settled.0 + r.trace + Finish(lesson, r.calls, r.inside, r.pending)
  {
    hide SettleBlock, Read;
    var end := Index(buffer, CLOSE);
    if end >= 0 {
      assert buffer[end + |CLOSE|..] + "" == buffer[end + |CLOSE|..];
    }
  }

  lemma OneDelta(lesson: Lesson, text: string)
    ensures ReadDeltas(lesson, FRESH, []) == FRESH
    ensures ReadDelta(lesson, FRESH, text) == Read(lesson, 0, false, text)
    ensures FRESH == Read(lesson, 0, false, "")
    ensures var r := ReadDelta(lesson, FRESH, text);
            r.trace + Finish(lesson, r.calls, r.inside, r.pending) == ReadAll(lesson, text)
  {
    assert "" + text == text;
  }

  lemma {:induction false} DeltasJoin(lesson: Lesson, r: Reader, texts: seq<string>, text: string)
    ensures ReadDeltas(lesson, r, texts + [text]) == ReadDelta(lesson, ReadDeltas(lesson, r, texts), text)
    decreases |texts|
  {
    if texts == [] {
      assert texts + [text] == [text];
    } else {
      assert (texts + [text])[1..] == texts[1..] + [text];
      DeltasJoin(lesson, ReadDelta(lesson, r, texts[0]), texts[1..], text);
    }
  }
}
