/** Reading an answer streamed as content blocks, several of which may be open at once. */
module BlockStream {
  import opened Text
  import opened ToolAssembly

  datatype Kind = Untyped | Failure | MessageStop | BlockStart | BlockStop | Plain

  datatype Content =
    | NoContent
    | ToolUse(id: string, name: string, initial: string)
    | Words(text: string)
    | Thinking(text: string)

  datatype Delta = NoDelta | MoreWords(text: string) | MoreThinking(text: string) | MoreJson(json: string)

  datatype Frame = Frame(kind: Kind, index: int, content: Content, delta: Delta, finish: string)

  datatype Event = Said(text: string) | Thought(text: string) | Tool(call: Call)

  /** A call whose block is open: what named it, and the arguments so far. */
  datatype Pending = Pending(id: string, name: string, initial: string, arguments: string)

  datatype State = State(pending: map<int, Pending>, events: seq<Event>, finish: string, stopped: bool)

  const BEGINNING := State(map[], [], "", false)

  // --- one frame ---------------------------------------------------------------------------------

  function Say(s: State, e: Event): State {
    if !e.Tool? && e.text == "" then s else s.(events := s.events + [e])
  }

  function Raw(p: Pending): string {
    if p.arguments == "" then p.initial else p.arguments
  }

  function Closed(valid: string -> bool, p: Pending): Call {
    Call(p.id, p.name, ToolArguments(valid, Raw(p)))
  }

  function TakeDelta(s: State, f: Frame): Option<State> {
    match f.delta
    case NoDelta => Some(s)
    case MoreWords(text) => Some(Say(s, Said(text)))
    case MoreThinking(text) => Some(Say(s, Thought(text)))
    case MoreJson(json) =>
      if f.index !in s.pending then None
      else
        var p := s.pending[f.index];
        if |p.arguments| + |json| > MAX_ARGUMENTS then None
        else Some(s.(pending := s.pending[f.index := p.(arguments := p.arguments + json)]))
  }

  function TakeContent(s: State, f: Frame): Option<State> {
    match f.content
    case NoContent => Some(s)
    case Words(text) => Some(Say(s, Said(text)))
    case Thinking(text) => Some(Say(s, Thought(text)))
    case ToolUse(id, name, initial) =>
      if f.index in s.pending then None
      else Some(s.(pending := s.pending[f.index := Pending(id, name, initial, "")]))
  }

  /** One event of the stream; nothing when it ends the stream in an error. */
  function TakeFrame(valid: string -> bool, was: State, f: Frame): Option<State> {
    if was.stopped then Some(was)
    else if f.kind.Untyped? || f.kind.Failure? then None
    else
      var s := if f.finish != "" then was.(finish := f.finish) else was;
      match f.kind
      case MessageStop => if s.pending != map[] then None else Some(s.(stopped := true))
      case BlockStop =>
        if f.index !in s.pending then Some(s)
        else
          var p := s.pending[f.index];
          if !WellFormed(valid, Raw(p)) then None
          else Some(Say(s.(pending := s.pending - {f.index}), Tool(Closed(valid, p))))
      case BlockStart =>
        var begun := TakeContent(s, f);
        if begun.None? then None else TakeDelta(begun.value, f)
      case _ => TakeDelta(s, f)
  }

  function TakeFrames(valid: string -> bool, frames: seq<Frame>): Option<State> {
    if frames == [] then Some(BEGINNING)
    else
      var before := TakeFrames(valid, frames[..|frames| - 1]);
      if before.None? then None else TakeFrame(valid, before.value, frames[|frames| - 1])
  }

  /** The stream was read to its end: every block was closed, and the provider said it was done. */
  predicate Complete(s: State) {
    s.pending == map[] && (s.stopped || s.finish != "") && s.finish != "refusal"
  }

  // --- what a run of events says ---------------------------------------------------------------------

  function TextOf(events: seq<Event>): string {
    if events == [] then ""
    else TextOf(events[..|events| - 1]) + if events[|events| - 1].Said? then events[|events| - 1].text else ""
  }

  function ThoughtOf(events: seq<Event>): string {
    if events == [] then ""
    else ThoughtOf(events[..|events| - 1]) + if events[|events| - 1].Thought? then events[|events| - 1].text else ""
  }

  function CallsOf(events: seq<Event>): seq<Call> {
    if events == [] then []
    else CallsOf(events[..|events| - 1]) + if events[|events| - 1].Tool? then [events[|events| - 1].call] else []
  }

  lemma OneMore(events: seq<Event>, e: Event)
    ensures TextOf(events + [e]) == TextOf(events) + (if e.Said? then e.text else "")
    ensures ThoughtOf(events + [e]) == ThoughtOf(events) + (if e.Thought? then e.text else "")
    ensures CallsOf(events + [e]) == CallsOf(events) + (if e.Tool? then [e.call] else [])
  {
    assert (events + [e])[..|events|] == events;
  }

  // --- block by block ----------------------------------------------------------------------------------

  /** What one frame of a block does to that block alone. */
  function Grow(open: Option<Pending>, f: Frame): Option<Pending> {
    if f.kind.BlockStop? then None
    else if f.kind.MessageStop? then open
    else
      var begun :=
        if f.kind.BlockStart? && f.content.ToolUse?
        then Some(Pending(f.content.id, f.content.name, f.content.initial, "")) else open;
      if f.delta.MoreJson? && begun.Some?
      then Some(begun.value.(arguments := begun.value.arguments + f.delta.json)) else begun
  }

  /** The frames that carry one index. */
  function Lane(frames: seq<Frame>, i: int): seq<Frame> {
    if frames == [] then []
    else Lane(frames[..|frames| - 1], i) + if frames[|frames| - 1].index == i then [frames[|frames| - 1]] else []
  }

  function Open(lane: seq<Frame>): Option<Pending> {
    if lane == [] then None else Grow(Open(lane[..|lane| - 1]), lane[|lane| - 1])
  }

  predicate Closes(before: seq<Frame>, f: Frame) {
    f.kind.BlockStop? && Open(before).Some?
  }

  /** The calls one block index spells, in order, from its own frames alone. */
  function LaneCalls(valid: string -> bool, lane: seq<Frame>): seq<Call> {
    if lane == [] then []
    else
      var front, last := lane[..|lane| - 1], lane[|lane| - 1];
      LaneCalls(valid, front) + if Closes(front, last) then [Closed(valid, Open(front).value)] else []
  }

  /** The indexes whose blocks close a call, in the order they do. */
  function Closings(frames: seq<Frame>): seq<int> {
    if frames == [] then []
    else
      var front, last := frames[..|frames| - 1], frames[|frames| - 1];
      Closings(front) + if Closes(Lane(front, last.index), last) then [last.index] else []
  }

  function Times(indexes: seq<int>, i: int): nat {
    if indexes == [] then 0
    else Times(indexes[..|indexes| - 1], i) + if indexes[|indexes| - 1] == i then 1 else 0
  }

  function PendingAt(s: State, i: int): Option<Pending> {
    if i in s.pending then Some(s.pending[i]) else None
  }

  /** Every open call is what its own index's frames make it. */
  ghost predicate ByLane(s: State, frames: seq<Frame>) {
    forall i :: PendingAt(s, i) == Open(Lane(frames, i))
  }

  lemma LaneOne(frames: seq<Frame>, f: Frame, i: int)
    ensures Lane(frames + [f], i) == Lane(frames, i) + if f.index == i then [f] else []
    ensures Open(Lane(frames + [f], i)) ==
            if f.index == i then Grow(Open(Lane(frames, i)), f) else Open(Lane(frames, i))
  {
    assert (frames + [f])[..|frames|] == frames;
    var lane := Lane(frames, i);
    if f.index == i {
      assert (lane + [f])[..|lane|] == lane;
    } else {
      assert lane + [] == lane;
    }
  }

  lemma FrameByLane(valid: string -> bool, s: State, frames: seq<Frame>, f: Frame)
    requires ByLane(s, frames) && !s.stopped && TakeFrame(valid, s, f).Some?
    ensures ByLane(TakeFrame(valid, s, f).value, frames + [f])
  {
    hide WellFormed, Lane, Open;
    var next := TakeFrame(valid, s, f).value;
    forall i ensures PendingAt(next, i) == Open(Lane(frames + [f], i)) {
      LaneOne(frames, f, i);
      assert PendingAt(s, f.index) == Open(Lane(frames, f.index));
      assert PendingAt(s, i) == Open(Lane(frames, i));
    }
  }

  /** The frames up to and with the one that ended the message. */
  function Heard(frames: seq<Frame>): seq<Frame> {
    if frames == [] then []
    else
      var front := Heard(frames[..|frames| - 1]);
      if Ended(front) then front else front + [frames[|frames| - 1]]
  }

  /** What has been sent is what the blocks spell, in the order they closed. */
  ghost predicate Sent(valid: string -> bool, calls: seq<Call>, frames: seq<Frame>) {
    var closings := Closings(frames);
    |calls| == |closings| &&
    (forall i :: Times(closings, i) == |LaneCalls(valid, Lane(frames, i))|) &&
    forall k :: 0 <= k < |calls| ==>
      Times(closings[..k], closings[k]) < |LaneCalls(valid, Lane(frames, closings[k]))| &&
      calls[k] == LaneCalls(valid, Lane(frames, closings[k]))[Times(closings[..k], closings[k])]
  }

  /** The words a frame adds to the answer, and to the reasoning. */
  function WordsOf(f: Frame): string {
    (if f.kind.BlockStart? && f.content.Words? then f.content.text else "") +
    if (f.kind.BlockStart? || f.kind.Plain?) && f.delta.MoreWords? then f.delta.text else ""
  }

  function ThinkingOf(f: Frame): string {
    (if f.kind.BlockStart? && f.content.Thinking? then f.content.text else "") +
    if (f.kind.BlockStart? || f.kind.Plain?) && f.delta.MoreThinking? then f.delta.text else ""
  }

  function AllWords(frames: seq<Frame>): string {
    if frames == [] then "" else AllWords(frames[..|frames| - 1]) + WordsOf(frames[|frames| - 1])
  }

  function AllThinking(frames: seq<Frame>): string {
    if frames == [] then "" else AllThinking(frames[..|frames| - 1]) + ThinkingOf(frames[|frames| - 1])
  }

  lemma DeltaSays(s: State, f: Frame)
    ensures TakeDelta(s, f).Some? ==>
              var next := TakeDelta(s, f).value;
              TextOf(next.events) == TextOf(s.events) + (if f.delta.MoreWords? then f.delta.text else "") &&
              ThoughtOf(next.events) == ThoughtOf(s.events) + (if f.delta.MoreThinking? then f.delta.text else "") &&
              CallsOf(next.events) == CallsOf(s.events)
  {
    hide TextOf, ThoughtOf, CallsOf;
    if f.delta.MoreWords? { OneMore(s.events, Said(f.delta.text)); }
    if f.delta.MoreThinking? { OneMore(s.events, Thought(f.delta.text)); }
  }

  lemma ContentSays(s: State, f: Frame)
    ensures TakeContent(s, f).Some? ==>
              var next := TakeContent(s, f).value;
              TextOf(next.events) == TextOf(s.events) + (if f.content.Words? then f.content.text else "") &&
              ThoughtOf(next.events) == ThoughtOf(s.events) + (if f.content.Thinking? then f.content.text else "") &&
              CallsOf(next.events) == CallsOf(s.events)
  {
    hide TextOf, ThoughtOf, CallsOf;
    if f.content.Words? { OneMore(s.events, Said(f.content.text)); }
    if f.content.Thinking? { OneMore(s.events, Thought(f.content.text)); }
  }

  /** A frame says its words and its thinking, and sends a call exactly when it closes one. */
  lemma FrameSays(valid: string -> bool, s: State, f: Frame)
    requires !s.stopped && TakeFrame(valid, s, f).Some?
    ensures var next := TakeFrame(valid, s, f).value;
            TextOf(next.events) == TextOf(s.events) + WordsOf(f) &&
            ThoughtOf(next.events) == ThoughtOf(s.events) + ThinkingOf(f) &&
            CallsOf(next.events) == CallsOf(s.events) +
              (if f.kind.BlockStop? && f.index in s.pending then [Closed(valid, s.pending[f.index])] else []) &&
            (next.stopped <==> f.kind.MessageStop?) && next.finish == if f.finish != "" then f.finish else s.finish
  {
    hide TextOf, ThoughtOf, CallsOf, WellFormed, Closed, TakeDelta, TakeContent;
    var told := if f.finish != "" then s.(finish := f.finish) else s;
    StaysRunning(told, f);
    if f.kind.BlockStart? {
      ContentSays(told, f);
      StaysRunning(TakeContent(told, f).value, f);
      DeltaSays(TakeContent(told, f).value, f);
    } else if f.kind.Plain? {
      DeltaSays(told, f);
    } else if f.kind.BlockStop? && f.index in s.pending {
      var p := s.pending[f.index];
      OneMore(told.events, Tool(Closed(valid, p)));
    }
  }

  lemma StaysRunning(s: State, f: Frame)
    ensures TakeDelta(s, f).Some? ==>
              TakeDelta(s, f).value.stopped == s.stopped && TakeDelta(s, f).value.finish == s.finish
    ensures TakeContent(s, f).Some? ==>
              TakeContent(s, f).value.stopped == s.stopped && TakeContent(s, f).value.finish == s.finish
  {
  }

  // --- the whole stream --------------------------------------------------------------------------------

  lemma LaneCallsGrow(valid: string -> bool, frames: seq<Frame>, f: Frame, i: int)
    ensures LaneCalls(valid, Lane(frames + [f], i)) == LaneCalls(valid, Lane(frames, i)) +
            (if f.index == i && Closes(Lane(frames, i), f) then [Closed(valid, Open(Lane(frames, i)).value)] else [])
  {
    hide Closed;
    LaneOne(frames, f, i);
    var lane := Lane(frames, i);
    if f.index == i {
      assert (lane + [f])[..|lane|] == lane;
    } else {
      assert lane + [] == lane;
    }
  }

  lemma ClosingsGrow(frames: seq<Frame>, f: Frame)
    ensures Closings(frames + [f]) == Closings(frames) + if Closes(Lane(frames, f.index), f) then [f.index] else []
  {
    assert (frames + [f])[..|frames|] == frames;
  }

  lemma TimesGrow(indexes: seq<int>, more: int, i: int)
    ensures Times(indexes + [more], i) == Times(indexes, i) + if more == i then 1 else 0
  {
    assert (indexes + [more])[..|indexes|] == indexes;
  }

  lemma SentGrows(valid: string -> bool, calls: seq<Call>, frames: seq<Frame>, f: Frame)
    requires Sent(valid, calls, frames)
    ensures var lane := Lane(frames, f.index);
            Sent(valid, calls + (if Closes(lane, f) then [Closed(valid, Open(lane).value)] else []), frames + [f])
  {
    hide Closed, Lane, LaneCalls, Closings, Times, Open;
    var closings, more := Closings(frames), Closings(frames + [f]);
    var lane := Lane(frames, f.index);
    var sent := calls + (if Closes(lane, f) then [Closed(valid, Open(lane).value)] else []);
    ClosingsGrow(frames, f);
    forall i ensures Times(more, i) == |LaneCalls(valid, Lane(frames + [f], i))| {
      LaneCallsGrow(valid, frames, f, i);
      TimesGrow(closings, f.index, i);
      assert closings + [] == closings;
    }
    forall k | 0 <= k < |sent|
      ensures Times(more[..k], more[k]) < |LaneCalls(valid, Lane(frames + [f], more[k]))|
      ensures sent[k] == LaneCalls(valid, Lane(frames + [f], more[k]))[Times(more[..k], more[k])]
    {
      LaneCallsGrow(valid, frames, f, more[k]);
      if k < |calls| {
        assert more[..k] == closings[..k] && more[k] == closings[k];
      } else {
        assert more[..k] == closings;
      }
    }
  }

  predicate Ended(heard: seq<Frame>) {
    heard != [] && heard[|heard| - 1].kind.MessageStop?
  }

  /** The last reason given for finishing. */
  function FinishOf(frames: seq<Frame>): string {
    if frames == [] then ""
    else if frames[|frames| - 1].finish != "" then frames[|frames| - 1].finish
    else FinishOf(frames[..|frames| - 1])
  }

  /** Everything the reader keeps up with, over the frames it has heard. */
  ghost predicate Follows(valid: string -> bool, s: State, heard: seq<Frame>) {
    ByLane(s, heard) && Sent(valid, CallsOf(s.events), heard) &&
    TextOf(s.events) == AllWords(heard) && ThoughtOf(s.events) == AllThinking(heard) &&
    s.finish == FinishOf(heard) && (s.stopped <==> Ended(heard))
  }

  lemma FrameFollows(valid: string -> bool, s: State, heard: seq<Frame>, f: Frame)
    requires Follows(valid, s, heard) && !s.stopped && TakeFrame(valid, s, f).Some?
    ensures Follows(valid, TakeFrame(valid, s, f).value, heard + [f])
  {
    hide TextOf, ThoughtOf, CallsOf, ByLane, Sent, TakeFrame, WordsOf, ThinkingOf, Lane, Open, Closed;
    FrameByLane(valid, s, heard, f);
    FrameSays(valid, s, f);
    SentGrows(valid, CallsOf(s.events), heard, f);
    OpenIsPending(s, heard, f);
    assert (heard + [f])[..|heard|] == heard;
  }

  lemma OpenIsPending(s: State, heard: seq<Frame>, f: Frame)
    requires ByLane(s, heard)
    ensures Closes(Lane(heard, f.index), f) <==> f.kind.BlockStop? && f.index in s.pending
    ensures f.index in s.pending ==> Open(Lane(heard, f.index)) == Some(s.pending[f.index])
  {
    hide Lane, Open;
    assert PendingAt(s, f.index) == Open(Lane(heard, f.index));
  }

  lemma {:induction false} StreamFollows(valid: string -> bool, frames: seq<Frame>)
    ensures var taken := TakeFrames(valid, frames); taken.None? || Follows(valid, taken.value, Heard(frames))
  {
    hide Follows, TakeFrame;
    if frames == [] {
      NothingHeard(valid);
    } else if TakeFrames(valid, frames).Some? {
      var front, f := frames[..|frames| - 1], frames[|frames| - 1];
      var s := TakeFrames(valid, front).value;
      StreamFollows(valid, front);
      HeardMore(valid, s, Heard(front), f);
      if !s.stopped { FrameFollows(valid, s, Heard(front), f); }
    }
  }

  lemma NothingHeard(valid: string -> bool)
    ensures Follows(valid, BEGINNING, [])
  {
  }

  lemma HeardMore(valid: string -> bool, s: State, heard: seq<Frame>, f: Frame)
    requires Follows(valid, s, heard)
    ensures s.stopped <==> Ended(heard)
    ensures s.stopped ==> TakeFrame(valid, s, f) == Some(s)
  {
    hide ByLane, Sent;
  }

  // --- which streams are accepted ----------------------------------------------------------------------

  /** A frame that its block can take, from what is open there. */
  predicate FrameFits(valid: string -> bool, open: Option<Pending>, f: Frame) {
    match f.kind
    case Untyped => false
    case Failure => false
    case MessageStop => true
    case BlockStop => open.Some? ==> WellFormed(valid, Raw(open.value))
    case _ =>
      var starts := f.kind.BlockStart? && f.content.ToolUse?;
      (starts ==> open.None?) &&
      (f.delta.MoreJson? ==>
         (starts || open.Some?) &&
         |if starts then "" else open.value.arguments| + |f.delta.json| <= MAX_ARGUMENTS)
  }

  /** Every frame of one block index meets what the frames of that index before it left open. */
  predicate LaneFits(valid: string -> bool, lane: seq<Frame>) {
    forall j :: 0 <= j < |lane| ==> FrameFits(valid, Open(lane[..j]), lane[j])
  }

  ghost predicate AllClosed(heard: seq<Frame>) {
    forall i :: Open(Lane(heard, i)).None?
  }

  ghost predicate Accepts(valid: string -> bool, heard: seq<Frame>) {
    (forall i :: LaneFits(valid, Lane(heard, i))) && (Ended(heard) ==> AllClosed(heard))
  }

  lemma FrameTaken(valid: string -> bool, s: State, f: Frame)
    requires !s.stopped
    ensures TakeFrame(valid, s, f).Some? <==>
            FrameFits(valid, PendingAt(s, f.index), f) && (f.kind.MessageStop? ==> s.pending == map[])
  {
    hide WellFormed;
  }

  lemma FitsOneMore(valid: string -> bool, lane: seq<Frame>, f: Frame)
    ensures LaneFits(valid, lane + [f]) <==> LaneFits(valid, lane) && FrameFits(valid, Open(lane), f)
  {
    hide FrameFits, Open;
    var more := lane + [f];
    assert more[..|lane|] == lane && more[|lane|] == f;
    forall j | 0 <= j < |lane|
      ensures FrameFits(valid, Open(more[..j]), more[j]) <==> FrameFits(valid, Open(lane[..j]), lane[j])
    {
      assert more[..j] == lane[..j];
    }
  }

  lemma LaneFitsOne(valid: string -> bool, frames: seq<Frame>, f: Frame, i: int)
    ensures LaneFits(valid, Lane(frames + [f], i)) <==>
            LaneFits(valid, Lane(frames, i)) && (f.index == i ==> FrameFits(valid, Open(Lane(frames, i)), f))
  {
    hide FrameFits, LaneFits, Open, Lane;
    LaneOne(frames, f, i);
    FitsOneMore(valid, Lane(frames, i), f);
    assert Lane(frames, i) + [] == Lane(frames, i);
  }

  lemma NothingPending(s: State, heard: seq<Frame>)
    requires ByLane(s, heard)
    ensures s.pending == map[] <==> AllClosed(heard)
  {
    hide Lane, Open;
    assert forall i :: PendingAt(s, i) == Open(Lane(heard, i));
    assert AllClosed(heard) <==> forall i :: PendingAt(s, i).None?;
    assert forall i {:trigger i in s.pending} :: i in s.pending <==> PendingAt(s, i).Some?;
    assert (forall i :: i !in s.pending) ==> s.pending == map[];
  }

  lemma StoppingClosesNothing(heard: seq<Frame>, f: Frame)
    requires f.kind.MessageStop?
    ensures AllClosed(heard + [f]) <==> AllClosed(heard)
  {
    hide Lane, Open;
    forall i ensures Open(Lane(heard + [f], i)) == Open(Lane(heard, i)) {
      LaneOne(heard, f, i);
    }
  }

  lemma AcceptsOne(valid: string -> bool, s: State, heard: seq<Frame>, f: Frame)
    requires Follows(valid, s, heard) && !s.stopped && Accepts(valid, heard)
    ensures TakeFrame(valid, s, f).Some? <==> Accepts(valid, heard + [f])
  {
    hide TakeFrame, LaneFits, FrameFits, Lane, Open, Sent, AllWords, AllThinking;
    FrameTaken(valid, s, f);
    assert PendingAt(s, f.index) == Open(Lane(heard, f.index));
    NothingPending(s, heard);
    forall i
      ensures LaneFits(valid, Lane(heard + [f], i)) <==>
              (f.index == i ==> FrameFits(valid, Open(Lane(heard, i)), f))
    {
      LaneFitsOne(valid, heard, f, i);
    }
    if f.kind.MessageStop? { StoppingClosesNothing(heard, f); }
  }

  /**
   * A stream is read without an error exactly when every frame heard meets what its own block index
   * left open, and the end of the message finds no block open.
   */
  lemma {:induction false} AcceptedByLanes(valid: string -> bool, frames: seq<Frame>)
    ensures TakeFrames(valid, frames).Some? <==> Accepts(valid, Heard(frames))
  {
    hide Accepts, Follows, TakeFrame;
    if frames == [] {
      NothingAccepted(valid);
    } else {
      var front, f := frames[..|frames| - 1], frames[|frames| - 1];
      AcceptedByLanes(valid, front);
      if TakeFrames(valid, front).Some? {
        var s := TakeFrames(valid, front).value;
        StreamFollows(valid, front);
        HeardMore(valid, s, Heard(front), f);
        if !s.stopped { AcceptsOne(valid, s, Heard(front), f); }
      } else if !Ended(Heard(front)) {
        RefusedStays(valid, Heard(front), f);
      }
    }
  }

  lemma RefusedStays(valid: string -> bool, heard: seq<Frame>, f: Frame)
    requires !Accepts(valid, heard) && !Ended(heard)
    ensures !Accepts(valid, heard + [f])
  {
    hide LaneFits, Lane;
    var i :| !LaneFits(valid, Lane(heard, i));
    LaneFitsOne(valid, heard, f, i);
  }

  lemma NothingAccepted(valid: string -> bool)
    ensures Accepts(valid, [])
  {
  }

  /** Accepted, every block closed, and an end said that is not a refusal. */
  ghost predicate Succeeds(valid: string -> bool, heard: seq<Frame>) {
    Accepts(valid, heard) && AllClosed(heard) && (Ended(heard) || FinishOf(heard) != "") && FinishOf(heard) != "refusal"
  }

  lemma CompleteIsSuccess(valid: string -> bool, frames: seq<Frame>)
    ensures TakeFrames(valid, frames).Some? && Complete(TakeFrames(valid, frames).value)
            <==> Succeeds(valid, Heard(frames))
  {
    hide Accepts, TakeFrames, AllClosed, Sent, ByLane, FinishOf;
    AcceptedByLanes(valid, frames);
    if TakeFrames(valid, frames).Some? {
      StreamFollows(valid, frames);
      NothingPending(TakeFrames(valid, frames).value, Heard(frames));
    }
  }

  /** A fragment of arguments for a block that is not open ends the answer. */
  lemma AStrayFragmentEnds(valid: string -> bool, frames: seq<Frame>, index: int, json: string)
    requires !Ended(Heard(frames)) && Open(Lane(Heard(frames), index)).None?
    ensures TakeFrames(valid, frames + [Frame(Plain, index, NoContent, MoreJson(json), "")]).None?
  {
    hide Lane, Open, TakeFrame;
    var f := Frame(Plain, index, NoContent, MoreJson(json), "");
    assert (frames + [f])[..|frames|] == frames;
    if TakeFrames(valid, frames).Some? {
      StreamFollows(valid, frames);
      var s := TakeFrames(valid, frames).value;
      assert PendingAt(s, index) == Open(Lane(Heard(frames), index));
      FrameTaken(valid, s, f);
    }
  }

  /** A word of answer, then a fragment for no block: the word has been sent, and the answer fails. */
  lemma AWordThenAStrayFragment(valid: string -> bool)
    ensures var said := [Frame(Plain, 0, NoContent, MoreWords("a"), "")];
            TakeFrames(valid, said).Some? && TakeFrames(valid, said).value.events == [Said("a")] &&
            TakeFrames(valid, said + [Frame(Plain, 1, NoContent, MoreJson("{"), "")]).None?
  {
    var said := [Frame(Plain, 0, NoContent, MoreWords("a"), "")];
    assert said[..0] == [];
    assert Heard(said) == [] + said && Lane(said, 1) == [] + [];
    AStrayFragmentEnds(valid, said, 1, "{");
  }

  // --- what a block's call says ------------------------------------------------------------------------

  /** The pieces of arguments the frames carry, end to end. */
  function JsonOf(frames: seq<Frame>): string {
    if frames == [] then ""
    else
      var last := frames[|frames| - 1];
      JsonOf(frames[..|frames| - 1]) +
      if last.delta.MoreJson? && !last.kind.BlockStop? && !last.kind.MessageStop? then last.delta.json else ""
  }

  predicate StartsCall(f: Frame) {
    f.kind.BlockStart? && f.content.ToolUse?
  }

  /** From frame `s` on, which starts a call, the lane neither stops it nor starts another. */
  predicate Runs(lane: seq<Frame>, s: int) {
    0 <= s < |lane| && StartsCall(lane[s]) &&
    forall k :: s < k < |lane| ==> !lane[k].kind.BlockStop? && !StartsCall(lane[k])
  }

  /** The call of the block from frame `s` to frame `e`, with the arguments that were written in it. */
  predicate IsBlock(call: Call, lane: seq<Frame>, s: int, e: int) {
    0 <= s < e < |lane| && Runs(lane[..e], s) && lane[e].kind.BlockStop? &&
    call.id == lane[s].content.id && call.name == lane[s].content.name &&
    var json := JsonOf(lane[s..e]);
    Carries(call.arguments, if json == "" then lane[s].content.initial else json)
  }

  ghost predicate OfABlock(call: Call, lane: seq<Frame>) {
    exists s, e :: IsBlock(call, lane, s, e)
  }

  ghost predicate OfItsBlock(call: Call, heard: seq<Frame>) {
    exists i :: OfABlock(call, Lane(heard, i))
  }

  /** The call that the frames from `s` on leave open. */
  function Begun(lane: seq<Frame>, s: int): Pending
    requires Runs(lane, s)
  {
    Pending(lane[s].content.id, lane[s].content.name, lane[s].content.initial, JsonOf(lane[s..]))
  }

  lemma {:induction false} OpenSince(lane: seq<Frame>)
    ensures Open(lane).Some? ==> exists s :: Runs(lane, s) && Open(lane).value == Begun(lane, s)
  {
    if Open(lane).Some? {
      var n := |lane| - 1;
      var front, last := lane[..n], lane[n];
      if StartsCall(last) {
        assert Runs(lane, n) && lane[n..] == [last] && [last][..0] == [];
        assert JsonOf([last]) == if last.delta.MoreJson? then last.delta.json else "";
        assert Open(lane).value == Begun(lane, n);
      } else {
        OpenSince(front);
        var s :| Runs(front, s) && Open(front).value == Begun(front, s);
        assert lane[s..][..|lane[s..]| - 1] == front[s..];
        assert Runs(lane, s);
      }
    }
  }

  lemma ClosedIsItsBlock(valid: string -> bool, lane: seq<Frame>, f: Frame)
    requires Closes(lane, f) && FrameFits(valid, Open(lane), f)
    ensures OfABlock(Closed(valid, Open(lane).value), lane + [f])
  {
    OpenSince(lane);
    hide Open, JsonOf, WellFormed, ToolArguments, Carries;
    var s :| Runs(lane, s) && Open(lane).value == Begun(lane, s);
    var all, n := lane + [f], |lane|;
    assert all[..n] == lane && all[s..n] == lane[s..];
    OneIsSent(valid, Call(lane[s].content.id, lane[s].content.name, Raw(Open(lane).value)));
    assert IsBlock(Closed(valid, Open(lane).value), all, s, n);
  }

  lemma BlockStays(call: Call, lane: seq<Frame>, more: seq<Frame>)
    ensures OfABlock(call, lane) ==> OfABlock(call, lane + more)
  {
    if s, e :| IsBlock(call, lane, s, e) {
      assert (lane + more)[..e] == lane[..e] && (lane + more)[s..e] == lane[s..e];
      assert IsBlock(call, lane + more, s, e);
    }
  }

  /** Every call a lane spells is that of one of its blocks. */
  lemma {:induction false} LaneCallsAreBlocks(valid: string -> bool, lane: seq<Frame>)
    requires LaneFits(valid, lane)
    ensures forall k :: 0 <= k < |LaneCalls(valid, lane)| ==> OfABlock(LaneCalls(valid, lane)[k], lane)
  {
    hide Open, FrameFits, LaneFits, Closed, OfABlock;
    if lane == [] {
      assert LaneCalls(valid, lane) == [];
    } else {
      var n := |lane| - 1;
      var front, last := lane[..n], lane[n];
      assert lane == front + [last];
      FitsOneMore(valid, front, last);
      LaneCallsAreBlocks(valid, front);
      var before, calls := LaneCalls(valid, front), LaneCalls(valid, lane);
      assert calls == before + if Closes(front, last) then [Closed(valid, Open(front).value)] else [];
      forall k | 0 <= k < |calls| ensures OfABlock(calls[k], lane) {
        if k < |before| {
          BlockStays(before[k], front, [last]);
        } else {
          ClosedIsItsBlock(valid, front, last);
        }
      }
    }
  }

  lemma SentAreOfTheirBlocks(valid: string -> bool, calls: seq<Call>, heard: seq<Frame>)
    requires Sent(valid, calls, heard) && Accepts(valid, heard)
    ensures forall k :: 0 <= k < |calls| ==> OfItsBlock(calls[k], heard)
  {
    hide Lane, LaneCalls, LaneFits, OfABlock, Times, Closings;
    forall k | 0 <= k < |calls| ensures OfItsBlock(calls[k], heard) {
      var i := Closings(heard)[k];
      LaneCallsAreBlocks(valid, Lane(heard, i));
    }
  }

  // --- blocks are independent --------------------------------------------------------------------------

  lemma {:induction false} InLane(frames: seq<Frame>, i: int, f: Frame)
    ensures f in Lane(frames, i) <==> f in frames && f.index == i
  {
    if frames != [] {
      var front, last := frames[..|frames| - 1], frames[|frames| - 1];
      InLane(front, i, f);
      assert f in frames <==> f in front || f == last;
    }
  }

  /** Only the last frame heard can be the end of the message. */
  lemma {:induction false} TheEndIsLast(frames: seq<Frame>, f: Frame)
    ensures f in Heard(frames) && f.kind.MessageStop? ==> Ended(Heard(frames))
  {
    if frames != [] { TheEndIsLast(frames[..|frames| - 1], f); }
  }

  lemma EndedAlike(one: seq<Frame>, other: seq<Frame>)
    requires forall i :: Lane(Heard(one), i) == Lane(Heard(other), i)
    ensures Ended(Heard(one)) || !Ended(Heard(other))
  {
    hide Lane, Heard;
    var heard := Heard(other);
    if Ended(heard) {
      var f := heard[|heard| - 1];
      InLane(heard, f.index, f);
      InLane(Heard(one), f.index, f);
      TheEndIsLast(one, f);
    }
  }

  /**
   * However blocks interleave: of two streams that give each block the same frames, one is read without an
   * error exactly when the other is, and if they close the blocks that hold calls in the same order they
   * send the same calls.
   */
  lemma BlocksAreIndependent(valid: string -> bool, one: seq<Frame>, other: seq<Frame>)
    requires forall i :: Lane(Heard(one), i) == Lane(Heard(other), i)
    ensures TakeFrames(valid, one).Some? <==> TakeFrames(valid, other).Some?
    ensures TakeFrames(valid, one).Some? && Closings(Heard(one)) == Closings(Heard(other)) ==>
              CallsOf(TakeFrames(valid, one).value.events) == CallsOf(TakeFrames(valid, other).value.events)
  {
    hide TakeFrames, Lane, Heard, Closings, LaneCalls, LaneFits, Open, CallsOf, Times, ByLane, TextOf, ThoughtOf,
         AllWords, AllThinking, Ended, FinishOf;
    AcceptedByLanes(valid, one);
    AcceptedByLanes(valid, other);
    EndedAlike(one, other);
    EndedAlike(other, one);
    if TakeFrames(valid, one).Some? {
      StreamFollows(valid, one);
      StreamFollows(valid, other);
    }
  }

  /** The text is the words of every frame heard, and each call is one its own block's frames spell. */
  lemma StreamSaysItsFrames(valid: string -> bool, frames: seq<Frame>)
    requires TakeFrames(valid, frames).Some?
    ensures var s, heard := TakeFrames(valid, frames).value, Heard(frames);
            TextOf(s.events) == AllWords(heard) && ThoughtOf(s.events) == AllThinking(heard) &&
            Sent(valid, CallsOf(s.events), heard) &&
            (Complete(s) ==> forall i :: Open(Lane(heard, i)).None?)
  {
    hide TakeFrames, Lane, Heard, Open, Sent, TextOf, ThoughtOf, CallsOf, AllWords, AllThinking;
    StreamFollows(valid, frames);
    var s, heard := TakeFrames(valid, frames).value, Heard(frames);
    assert forall i :: PendingAt(s, i) == Open(Lane(heard, i));
  }

  // --- the reader as it runs ---------------------------------------------------------------------------

  lemma {:induction false} FailedStays(valid: string -> bool, frames: seq<Frame>, k: nat)
    requires k <= |frames| && TakeFrames(valid, frames[..k]).None?
    ensures TakeFrames(valid, frames).None?
    decreases |frames| - k
  {
    hide TakeFrame;
    if k == |frames| {
      assert frames[..k] == frames;
    } else {
      assert frames[..k + 1][..k] == frames[..k];
      FailedStays(valid, frames, k + 1);
    }
  }

  class BlockReader {
    const valid: string -> bool
    var text: string
    var reasoning: string
    var pending: map<int, Pending>
    var toolCalls: seq<Call>
    var finishReason: string
    var sawStop: bool
    // What the sink has received.
    var events: seq<Event>

    ghost function Value(): State
      reads this
    {
      State(pending, events, finishReason, sawStop)
    }

    ghost predicate Valid()
      reads this
    {
      text == TextOf(events) && reasoning == ThoughtOf(events) && toolCalls == CallsOf(events)
    }

    constructor (valid: string -> bool)
      ensures Valid() && Value() == BEGINNING && this.valid == valid
    {
      this.valid := valid;
      text, reasoning, pending, toolCalls, finishReason, sawStop, events := "", "", map[], [], "", false, [];
    }

    method SayWords(value: string)
      requires Valid()
      modifies `text, `events
      ensures Valid() && Value() == Say(old(Value()), Said(value))
    {
      hide TextOf, ThoughtOf, CallsOf;
      if value == "" {
        return;
      }
      OneMore(events, Said(value));
      assert reasoning + "" == reasoning && toolCalls + [] == toolCalls;
      text := text + value;
      events := events + [Said(value)];
    }

    method SayThinking(value: string)
      requires Valid()
      modifies `reasoning, `events
      ensures Valid() && Value() == Say(old(Value()), Thought(value))
    {
      hide TextOf, ThoughtOf, CallsOf;
      if value == "" {
        return;
      }
      OneMore(events, Thought(value));
      assert text + "" == text && toolCalls + [] == toolCalls;
      reasoning := reasoning + value;
      events := events + [Thought(value)];
    }

    method TakeADelta(f: Frame) returns (ok: bool)
      requires Valid()
      modifies this
      ensures ok <==> TakeDelta(old(Value()), f).Some?
      ensures ok ==> Valid() && Value() == TakeDelta(old(Value()), f).value
    {
      hide TextOf, ThoughtOf, CallsOf;
      match f.delta {
        case NoDelta =>
        case MoreWords(value) => SayWords(value);
        case MoreThinking(value) => SayThinking(value);
        case MoreJson(json) =>
          if f.index !in pending {
            return false;
          }
          var open := pending[f.index];
          if |open.arguments| + |json| > MAX_ARGUMENTS {
            return false;
          }
          pending := pending[f.index := open.(arguments := open.arguments + json)];
      }
      return true;
    }

    method StartBlock(f: Frame) returns (ok: bool)
      requires Valid()
      modifies this
      ensures ok <==> TakeContent(old(Value()), f).Some?
      ensures ok ==> Valid() && Value() == TakeContent(old(Value()), f).value
    {
      hide TextOf, ThoughtOf, CallsOf;
      match f.content {
        case NoContent =>
        case Words(value) => SayWords(value);
        case Thinking(value) => SayThinking(value);
        case ToolUse(id, name, initial) =>
          if f.index in pending {
            return false;
          }
          pending := pending[f.index := Pending(id, name, initial, "")];
      }
      return true;
    }

    method StopBlock(index: int) returns (ok: bool)
      requires Valid() && index in pending
      modifies this
      ensures ok <==> WellFormed(valid, Raw(old(pending)[index]))
      ensures ok ==> Valid() && Value() == Say(old(Value()).(pending := old(pending) - {index}),
                                               Tool(Closed(valid, old(pending)[index])))
    {
      hide TextOf, ThoughtOf, CallsOf, WellFormed, ToolArguments;
      var open := pending[index];
      pending := pending - {index};
      var raw := open.arguments;
      if raw == "" {
        raw := open.initial;
      }
      if !WellFormed(valid, raw) {
        return false;
      }
      var call := Call(open.id, open.name, ToolArguments(valid, raw));
      OneMore(events, Tool(call));
      assert text + "" == text && reasoning + "" == reasoning;
      toolCalls := toolCalls + [call];
      events := events + [Tool(call)];
      return true;
    }

    method Receive(f: Frame) returns (ok: bool)
      requires Valid() && !sawStop
      modifies this
      ensures ok <==> TakeFrame(valid, old(Value()), f).Some?
      ensures ok ==> Valid() && Value() == TakeFrame(valid, old(Value()), f).value
    {
      hide TextOf, ThoughtOf, CallsOf, WellFormed, TakeDelta, TakeContent, Closed, Say;
      if f.kind.Untyped? || f.kind.Failure? {
        return false;
      }
      if f.finish != "" {
        finishReason := f.finish;
      }
      if f.kind.MessageStop? {
        sawStop := true;
        return |pending| == 0;
      }
      if f.kind.BlockStop? {
        if f.index !in pending {
          return true;
        }
        ok := StopBlock(f.index);
        return;
      }
      if f.kind.BlockStart? {
        ok := StartBlock(f);
        if !ok {
          return;
        }
      }
      ok := TakeADelta(f);
    }
  }

  /** readStream: the answer, and whether it was read to its end. */
  method ReadStream(valid: string -> bool, frames: seq<Frame>)
    returns (ok: bool, text: string, reasoning: string, calls: seq<Call>, events: seq<Event>)
    ensures ok <==> Succeeds(valid, Heard(frames))
    ensures ok ==> TakeFrames(valid, frames).Some?
    ensures ok ==> events == TakeFrames(valid, frames).value.events
    ensures text == TextOf(events) && reasoning == ThoughtOf(events) && calls == CallsOf(events)
    ensures ok ==> text == AllWords(Heard(frames)) && reasoning == AllThinking(Heard(frames))
    ensures ok ==> Sent(valid, calls, Heard(frames)) &&
                   forall k :: 0 <= k < |calls| ==> OfItsBlock(calls[k], Heard(frames))
  {
    hide TextOf, ThoughtOf, CallsOf, TakeFrame, Succeeds, Heard, Sent, OfItsBlock, AllWords, AllThinking;
    CompleteIsSuccess(valid, frames);
    SuccessSays(valid, frames);
    var reader := new BlockReader(valid);
    text, reasoning, calls, events := reader.text, reader.reasoning, reader.toolCalls, reader.events;
    for k := 0 to |frames|
      invariant reader.Valid() && reader.valid == valid && fresh(reader)
      invariant TakeFrames(valid, frames[..k]) == Some(reader.Value())
      invariant text == TextOf(events) && reasoning == ThoughtOf(events) && calls == CallsOf(events)
    {
      assert frames[..k + 1][..k] == frames[..k];
      if reader.sawStop {
        StoppedStays(valid, reader.Value(), frames[k]);
        continue;
      }
      var received := reader.Receive(frames[k]);
      if !received {
        FailedStays(valid, frames, k + 1);
        return false, text, reasoning, calls, events;
      }
      text, reasoning, calls, events := reader.text, reader.reasoning, reader.toolCalls, reader.events;
    }
    assert frames[..|frames|] == frames;
    text, reasoning, calls, events := reader.text, reader.reasoning, reader.toolCalls, reader.events;
    ok := |reader.pending| == 0 && (reader.sawStop || reader.finishReason != "") && reader.finishReason != "refusal";
  }

  lemma SuccessSays(valid: string -> bool, frames: seq<Frame>)
    ensures TakeFrames(valid, frames).Some? ==>
              var events, heard := TakeFrames(valid, frames).value.events, Heard(frames);
              TextOf(events) == AllWords(heard) && ThoughtOf(events) == AllThinking(heard) &&
              Sent(valid, CallsOf(events), heard) &&
              forall k :: 0 <= k < |CallsOf(events)| ==> OfItsBlock(CallsOf(events)[k], heard)
  {
    hide TextOf, ThoughtOf, CallsOf, Heard, Sent, OfItsBlock, AllWords, AllThinking, Accepts;
    if TakeFrames(valid, frames).Some? {
      StreamSaysItsFrames(valid, frames);
      AcceptedByLanes(valid, frames);
      SentAreOfTheirBlocks(valid, CallsOf(TakeFrames(valid, frames).value.events), Heard(frames));
    }
  }

  lemma StoppedStays(valid: string -> bool, s: State, f: Frame)
    ensures s.stopped ==> TakeFrame(valid, s, f) == Some(s)
  {
  }
}
