/** Reading one streamed answer: text, reasoning, refusals and tool calls, as events. */
module StreamReader {
  import opened Text
  import opened Thinking
  import opened ToolAssembly

  /** What the sink is sent. Reasoning is marked with whether it was found inline in the answer. */
  datatype Event =
    | Reasoning(text: string, inline: bool)
    | Answer(text: string)
    | Refused(text: string)
    | Tool(call: Call)

  /** What one event of the stream carries. */
  datatype Frame = Frame(reasoning: string, fragments: seq<Fragment>, content: string, refusal: string, finish: string)

  // --- what a run of events says -----------------------------------------------------------

  function AnswerOf(events: seq<Event>): string {
    if events == [] then ""
    else
      var last := events[|events| - 1];
      AnswerOf(events[..|events| - 1]) + if last.Answer? then last.text else ""
  }

  function InlineOf(events: seq<Event>): string {
    if events == [] then ""
    else
      var last := events[|events| - 1];
      InlineOf(events[..|events| - 1]) + if last.Reasoning? && last.inline then last.text else ""
  }

  /** Everything but the calls, and the calls. */
  function Others(events: seq<Event>): seq<Event> {
    if events == [] then []
    else
      var last := events[|events| - 1];
      Others(events[..|events| - 1]) + if last.Tool? then [] else [last]
  }

  function CallsIn(events: seq<Event>): seq<Call> {
    if events == [] then []
    else
      var last := events[|events| - 1];
      CallsIn(events[..|events| - 1]) + if last.Tool? then [last.call] else []
  }

  lemma OneMore(events: seq<Event>, e: Event)
    ensures var all := events + [e];
            AnswerOf(all) == AnswerOf(events) + (if e.Answer? then e.text else "") &&
            InlineOf(all) == InlineOf(events) + (if e.Reasoning? && e.inline then e.text else "") &&
            Others(all) == Others(events) + (if e.Tool? then [] else [e]) &&
            CallsIn(all) == CallsIn(events) + if e.Tool? then [e.call] else []
  {
    assert (events + [e])[..|events|] == events;
  }

  lemma {:induction false} OthersJoin(events: seq<Event>, more: seq<Event>)
    requires forall k :: 0 <= k < |more| ==> !more[k].Tool?
    ensures Others(events + more) == Others(events) + more && CallsIn(events + more) == CallsIn(events)
  {
    hide Others, CallsIn, AnswerOf, InlineOf;
    if more == [] {
      assert events + more == events;
    } else {
      var n := |more| - 1;
      OthersJoin(events, more[..n]);
      OneMore(events + more[..n], more[n]);
      assert events + more == (events + more[..n]) + [more[n]];
      assert (Others(events) + more[..n]) + [more[n]] == Others(events) + more;
    }
  }

  lemma SilenceSaysNothing()
    ensures Others([]) == [] && AnswerOf([]) == "" && InlineOf([]) == ""
  {
  }

  /** Calls are no part of the answer. */
  lemma {:induction false} OthersSayTheSame(events: seq<Event>)
    ensures AnswerOf(Others(events)) == AnswerOf(events) && InlineOf(Others(events)) == InlineOf(events)
  {
    hide Others, CallsIn, AnswerOf, InlineOf;
    if events == [] {
      SilenceSaysNothing();
    } else {
      var n := |events| - 1;
      OthersSayTheSame(events[..n]);
      OneMore(events[..n], events[n]);
      OneMore(Others(events[..n]), events[n]);
      assert events == events[..n] + [events[n]];
      assert Others(events[..n]) + [] == Others(events[..n]);
    }
  }

  /** The calls sent are those of the fragments received, each once, and all well formed. */
  ghost predicate Delivered(valid: string -> bool, received: seq<Fragment>, calls: seq<Call>) {
    Absorb(NOTHING, received).Some? && Deliver(valid, InOrder(Absorb(NOTHING, received).value)) == (calls, true)
  }

  // --- the reader ------------------------------------------------------------------------------

  class Reader {
    const valid: string -> bool
    var content: string
    var fieldReasoning: string
    var emittedAnswer: nat
    var emittedInline: nat
    const thinking: InlineThinking
    const tools: ToolCallAssembly
    var inlineSoFar: string
    var refusal: string
    var text: string
    var toolCalls: seq<Call>
    var finishReason: string
    var toolsFinished: bool
    var holding: bool
    var held: seq<Event>
    // What the sink has received.
    var events: seq<Event>
    // Everything the answer said, sent or held, in order; and the fragments it was sent.
    ghost var outputs: seq<Event>
    ghost var received: seq<Fragment>

    ghost predicate Valid()
      reads this, thinking, tools
    {
      Running() && toolsFinished == (finishReason != "") && if toolsFinished then Said() else Certain()
    }

    ghost predicate Running()
      reads this`content, this`events, this`held, this`outputs, this`holding, this`emittedAnswer,
            this`emittedInline, this`received, this`toolCalls, this`toolsFinished, thinking, tools
    {
      && thinking.Valid() && thinking.seen == content
      && tools.Aligned()
      && Absorb(NOTHING, received) == Some(tools.State())
      && Kept()
      && CallsIn(events) == toolCalls
      && if toolsFinished then held == [] && !holding && Delivered(valid, received, toolCalls) else toolCalls == []
    }

    /** Nothing said has been lost or reordered, and the counters say how much of it there is. */
    ghost predicate Kept()
      reads this`events, this`held, this`outputs, this`holding, this`emittedAnswer, this`emittedInline
    {
      && Others(events) + held == outputs
      && (forall k :: 0 <= k < |outputs| ==> !outputs[k].Tool?)
      && (held != [] ==> holding)
      && |AnswerOf(outputs)| == emittedAnswer
      && |InlineOf(outputs)| == emittedInline
    }

    /** While the answer goes on, nothing has been said that it could take back. */
    ghost predicate Certain()
      reads this`outputs, this`content
    {
      AnswerOf(outputs) <= CertainAnswer(content) && InlineOf(outputs) <= CertainReasoning(content)
    }

    /** Once it has ended, everything has been said. */
    ghost predicate Said()
      reads this`outputs, this`content
    {
      AnswerOf(outputs) == SplitThinking(content).1 && InlineOf(outputs) == SplitThinking(content).0
    }

    constructor (valid: string -> bool)
      ensures Valid() && fresh(thinking) && fresh(tools) && events == [] && content == "" && !toolsFinished
      ensures refusal == "" && received == [] && this.valid == valid && fieldReasoning == ""
    {
      this.valid := valid;
      thinking := new InlineThinking();
      tools := new ToolCallAssembly();
      content, fieldReasoning, emittedAnswer, emittedInline := "", "", 0, 0;
      inlineSoFar, refusal, text, toolCalls := "", "", "", [];
      finishReason, toolsFinished, holding, held, events := "", false, false, [], [];
      outputs, received := [], [];
    }

    method EmitOutput(e: Event)
      requires Kept() && !e.Tool?
      modifies this`held, this`events, this`outputs
      ensures outputs == old(outputs) + [e]
      ensures Others(events) + held == outputs && CallsIn(events) == old(CallsIn(events))
      ensures old(events) <= events
      ensures held != [] ==> holding
      ensures forall k :: 0 <= k < |outputs| ==> !outputs[k].Tool?
      ensures !holding ==> held == old(held)
    {
      hide Others, CallsIn, AnswerOf, InlineOf;
      outputs := outputs + [e];
      OneMore(events, e);
      assert (Others(events) + held) + [e] == Others(events) + (held + [e]);
      assert CallsIn(events) + [] == CallsIn(events);
      if holding {
        held := held + [e];
      } else {
        events := events + [e];
      }
    }

    method ReleaseHeld()
      requires Kept()
      modifies this`held, this`events, this`holding
      ensures Kept() && held == [] && !holding && CallsIn(events) == old(CallsIn(events))
      ensures events == old(events) + old(held)
    {
      hide Others, CallsIn, AnswerOf, InlineOf;
      assert forall k :: 0 <= k < |held| ==> held[k] == outputs[|Others(events)| + k];
      OthersJoin(events, held);
      assert outputs + [] == outputs;
      SendHeld();
      held := [];
      holding := false;
    }

    method SendHeld()
      modifies this`events
      ensures events == old(events) + held
    {
      for k := 0 to |held|
        invariant events == old(events) + held[..k]
      {
        events := events + [held[k]];
      }
      assert held[..|held|] == held;
    }

    /** The answer is shown up to `visible`, if more of it is than has been. */
    method ShowAnswer(answer: string, visible: nat, ghost target: string)
      requires Kept() && visible <= |answer|
      requires AnswerOf(outputs) <= target && answer[..visible] <= target
      modifies this`emittedAnswer, this`held, this`events, this`outputs
      ensures Kept() && AnswerOf(outputs) <= target && |AnswerOf(outputs)| >= visible
      ensures InlineOf(outputs) == old(InlineOf(outputs)) && old(outputs) <= outputs
      ensures old(AnswerOf(outputs)) <= AnswerOf(outputs)
      ensures old(events) <= events
      ensures CallsIn(events) == old(CallsIn(events)) && (!holding ==> held == old(held))
    {
      hide Others, CallsIn, AnswerOf, InlineOf;
      if visible > emittedAnswer {
        var delta := answer[emittedAnswer..visible];
        Continues(AnswerOf(outputs), answer[..visible], target);
        assert answer[..visible][emittedAnswer..] == delta;
        OneMore(outputs, Answer(delta));
        EmitOutput(Answer(delta));
        emittedAnswer := visible;
      }
    }

    method ShowInline(inline: string, visible: nat, ghost target: string)
      requires Kept() && visible <= |inline|
      requires InlineOf(outputs) <= target && inline[..visible] <= target
      modifies this`emittedInline, this`held, this`events, this`outputs
      ensures Kept() && InlineOf(outputs) <= target && |InlineOf(outputs)| >= visible
      ensures AnswerOf(outputs) == old(AnswerOf(outputs)) && old(outputs) <= outputs
      ensures old(InlineOf(outputs)) <= InlineOf(outputs)
      ensures old(events) <= events
      ensures CallsIn(events) == old(CallsIn(events)) && (!holding ==> held == old(held))
    {
      hide Others, CallsIn, AnswerOf, InlineOf;
      if visible > emittedInline {
        var delta := inline[emittedInline..visible];
        Continues(InlineOf(outputs), inline[..visible], target);
        assert inline[..visible][emittedInline..] == delta;
        OneMore(outputs, Reasoning(delta, true));
        EmitOutput(Reasoning(delta, true));
        emittedInline := visible;
      }
    }

    /** flushContent */
    method FlushContent(final: bool)
      requires Kept() && thinking.Valid() && thinking.seen <= content
      requires if toolsFinished then Said() else Certain()
      modifies this`emittedAnswer, this`emittedInline, this`held, this`events, this`outputs,
               this`text, this`inlineSoFar, thinking
      ensures Kept() && thinking.Valid() && thinking.seen == content
      ensures old(events) <= events
      ensures CallsIn(events) == old(CallsIn(events)) && (!holding ==> held == old(held))
      ensures old(outputs) <= outputs
      ensures if final || toolsFinished then Said() else Certain()
      ensures final ==> text == SplitThinking(content).1 && inlineSoFar == SplitThinking(content).0
      ensures !final && !toolsFinished ==> |CertainAnswer(content)| < |AnswerOf(outputs)| + |THINK|
    {
      ShowIsTargeted(content, final, toolsFinished);
      hide Others, CallsIn, AnswerOf, InlineOf, THINK, END, CertainAnswer, CertainReasoning, SplitThinking, ToShow;
      var shown := Decide(final);
      ghost var (answerTarget, inlineTarget) := Targets(content, final || toolsFinished);
      ShowInline(shown.inline, shown.inlineLength, inlineTarget);
      ShowAnswer(shown.answer, shown.answerLength, answerTarget);
      text := shown.answer;
      inlineSoFar := shown.inline;
    }

    /** One event of the stream that carries a choice; false when it ends the stream in an error. */
    method Receive(frame: Frame) returns (ok: bool)
      requires Valid()
      modifies this, thinking, tools
      ensures ok ==> Valid() && old(outputs) <= outputs
      ensures ok ==> content == old(content) + frame.content && refusal == old(refusal) + frame.refusal
      ensures ok ==> received == old(received) + frame.fragments
      ensures ok ==> toolsFinished == (old(toolsFinished) || frame.finish != "")
      ensures ok ==> fieldReasoning == old(fieldReasoning) + frame.reasoning
      ensures ok && !toolsFinished ==> |CertainAnswer(content)| < |AnswerOf(outputs)| + |THINK|
      ensures old(events) <= events
      ensures ok <==> FrameOk(valid, old(received), old(toolsFinished), frame)
    {
      hide Others, CallsIn, AnswerOf, InlineOf, THINK, CertainAnswer, CertainReasoning, SplitThinking, Absorb,
           Deliver, InOrder, Running, Said, Certain, AllSendable;
      if toolsFinished && (frame.fragments != [] || frame.content != "" || frame.refusal != "") {
        return false;
      }
      if frame.finish != "" {
        finishReason := frame.finish;
      }
      ok := TakePieces(frame);
      if ok && frame.finish != "" && !toolsFinished {
        ok := FinishTools();
      }
    }

    /** Everything a frame carries but its finish. */
    method TakePieces(frame: Frame) returns (ok: bool)
      requires Running() && if toolsFinished then Said() else Certain()
      requires toolsFinished ==> frame.fragments == [] && frame.content == ""
      modifies this`fieldReasoning, this`holding, this`received, this`content, this`emittedAnswer, this`emittedInline,
               this`held, this`events, this`outputs, this`text, this`inlineSoFar, this`refusal, thinking, tools
      ensures old(events) <= events
      ensures ok <==> Absorb(NOTHING, old(received) + frame.fragments).Some?
      ensures ok ==> Running() && old(outputs) <= outputs && received == old(received) + frame.fragments
      ensures ok ==> content == old(content) + frame.content && refusal == old(refusal) + frame.refusal
      ensures ok ==> fieldReasoning == old(fieldReasoning) + frame.reasoning
      ensures ok ==> if frame.finish != "" || toolsFinished then Said() else Certain()
      ensures ok && frame.finish == "" && !toolsFinished ==> |CertainAnswer(content)| < |AnswerOf(outputs)| + |THINK|
    {
      hide Others, CallsIn, AnswerOf, InlineOf, THINK, CertainAnswer, CertainReasoning, SplitThinking, Absorb,
           Running, Said, Certain;
      SayFieldReasoning(frame.reasoning);
      ok := AbsorbFragments(frame.fragments);
      if ok {
        AddContentAndRefusal(frame);
      }
    }

    method AddContentAndRefusal(frame: Frame)
      requires Running() && (toolsFinished ==> frame.content == "")
      requires if toolsFinished then Said() else Certain()
      modifies this`content, this`emittedAnswer, this`emittedInline, this`held, this`events, this`outputs,
               this`text, this`inlineSoFar, this`refusal, thinking
      ensures Running() && old(outputs) <= outputs
      ensures old(events) <= events
      ensures content == old(content) + frame.content && refusal == old(refusal) + frame.refusal
      ensures if frame.finish != "" || toolsFinished then Said() else Certain()
      ensures frame.finish == "" && !toolsFinished ==> |CertainAnswer(content)| < |AnswerOf(outputs)| + |THINK|
    {
      hide AnswerOf, THINK, CertainAnswer, Running, Said, Certain;
      AddContent(frame.content, frame.finish != "");
      SayRefusal(frame.refusal);
    }

    method SayFieldReasoning(thought: string)
      requires Running()
      modifies this`fieldReasoning, this`held, this`events, this`outputs
      ensures Running() && old(outputs) <= outputs && fieldReasoning == old(fieldReasoning) + thought
      ensures old(events) <= events
      ensures Said() == old(Said()) && Certain() == old(Certain()) && AnswerOf(outputs) == old(AnswerOf(outputs))
    {
      hide Others, CallsIn, AnswerOf, InlineOf, Absorb, Delivered;
      if thought != "" {
        fieldReasoning := fieldReasoning + thought;
        OneMore(outputs, Reasoning(thought, false));
        EmitOutput(Reasoning(thought, false));
      }
    }

    method SayRefusal(text: string)
      requires Running()
      modifies this`refusal, this`held, this`events, this`outputs
      ensures Running() && old(outputs) <= outputs && refusal == old(refusal) + text
      ensures old(events) <= events
      ensures Said() == old(Said()) && Certain() == old(Certain()) && AnswerOf(outputs) == old(AnswerOf(outputs))
    {
      hide Others, CallsIn, AnswerOf, InlineOf, Absorb, Delivered;
      if text != "" {
        refusal := refusal + text;
        OneMore(outputs, Refused(text));
        EmitOutput(Refused(text));
      }
    }

    method AbsorbFragments(fragments: seq<Fragment>) returns (ok: bool)
      requires Running() && (toolsFinished ==> fragments == [])
      modifies this`holding, this`received, tools
      ensures ok ==> Running() && received == old(received) + fragments
      ensures ok <==> Absorb(NOTHING, old(received) + fragments).Some?
    {
      hide Others, CallsIn, AnswerOf, InlineOf, Delivered, AbsorbOne;
      if fragments != [] {
        holding := true;
      }
      NothingIsValid();
      AbsorbJoins(NOTHING, received, fragments);
      ok := tools.AbsorbAll(fragments);
      received := received + fragments;
      assert fragments == [] ==> received == old(received);
    }

    method AddContent(delta: string, final: bool)
      requires Running() && (toolsFinished ==> delta == "")
      requires if toolsFinished then Said() else Certain()
      modifies this`content, this`emittedAnswer, this`emittedInline, this`held, this`events, this`outputs,
               this`text, this`inlineSoFar, thinking
      ensures Running() && old(outputs) <= outputs && content == old(content) + delta
      ensures old(events) <= events
      ensures if final || toolsFinished then Said() else Certain()
      ensures !final && !toolsFinished ==> |CertainAnswer(content)| < |AnswerOf(outputs)| + |THINK|
    {
      hide Others, CallsIn, AnswerOf, InlineOf, Absorb, Delivered, CertainAnswer, CertainReasoning, SplitThinking,
           THINK;
      AnswerGrows(content, delta);
      ReasoningGrows(content, delta);
      assert delta == "" ==> content + delta == content;
      assert content <= content + delta;
      content := content + delta;
      FlushContent(final);
    }

    /** The calls go out before anything that was held for them. */
    method FinishTools() returns (ok: bool)
      requires Running() && !toolsFinished
      modifies this`toolCalls, this`events, this`toolsFinished, this`held, this`holding
      ensures ok ==> Running() && toolsFinished
      ensures old(events) <= events
      ensures ok == AllSendable(valid, received)
    {
      hide Others, CallsIn, AnswerOf, InlineOf, Absorb, Deliver, InOrder;
      var sent;
      sent, ok := tools.Finish(valid);
      SendCalls(sent);
      if !ok {
        return;
      }
      assert [] + sent == sent;
      toolsFinished := true;
      ReleaseHeld();
    }

    method SendCalls(sent: seq<Call>)
      requires CallsIn(events) == toolCalls
      modifies this`toolCalls, this`events
      ensures toolCalls == old(toolCalls) + sent && CallsIn(events) == toolCalls
      ensures old(events) <= events
      ensures Others(events) == old(Others(events))
    {
      hide Others, CallsIn, AnswerOf, InlineOf;
      for k := 0 to |sent|
        invariant toolCalls == old(toolCalls) + sent[..k] && CallsIn(events) == toolCalls
        invariant old(events) <= events
        invariant Others(events) == old(Others(events))
      {
        OneMore(events, Tool(sent[k]));
        assert Others(events) + [] == Others(events);
        toolCalls := toolCalls + [sent[k]];
        events := events + [Tool(sent[k])];
      }
      assert sent[..|sent|] == sent;
    }

    /**
     * The stream has ended. On a normal end without a refusal, the events add up to the answer
     * and the reasoning a buffered reply with the same content would have been split into, and
     * the calls are those its fragments spell.
     */
    method End(sawDone: bool) returns (ok: bool, reasoning: string)
      requires Valid()
      modifies this, thinking
      ensures ok <==> refusal == "" && (sawDone || old(finishReason) != "") &&
                      (old(toolsFinished) || AllSendable(valid, received))
      ensures old(events) <= events && old(outputs) <= outputs
      ensures content == old(content) && refusal == old(refusal) && received == old(received)
      ensures fieldReasoning == old(fieldReasoning)
      ensures ok ==> AnswerOf(events) == text == SplitThinking(content).1
      ensures ok ==> InlineOf(events) == SplitThinking(content).0
      ensures ok ==> reasoning == fieldReasoning + SplitThinking(content).0
      ensures ok ==> Others(events) == outputs && CallsIn(events) == toolCalls && Delivered(valid, received, toolCalls)
    {
      hide Others, CallsIn, AnswerOf, InlineOf, CertainAnswer, CertainReasoning, SplitThinking, Absorb,
           Deliver, InOrder, THINK;
      reasoning := fieldReasoning + inlineSoFar;
      if (!sawDone && finishReason == "") || refusal != "" {
        return false, reasoning;
      }
      FlushContent(true);
      reasoning := fieldReasoning + inlineSoFar;
      ok := true;
      if !toolsFinished {
        ok := FinishTools();
      }
      if ok {
        OthersSayTheSame(events);
        assert Others(events) + [] == Others(events);
      }
    }

    /** What the text so far shows of the answer and of the reasoning. */
    method Decide(final: bool) returns (shown: Show)
      requires thinking.Valid() && thinking.seen <= content
      modifies thinking
      ensures thinking.Valid() && thinking.seen == content && shown == ToShow(content, final)
    {
      TagLengths();
      hide THINK, END, Index, Blank;
      var inline, answer := thinking.Split(content);
      if final && thinking.openFound && thinking.afterText && !thinking.closeFound {
        answer := content;
      }
      var visible := |answer|;
      if !final {
        visible := visible - PartialTagLen(answer, THINK);
      }
      var shownInline := |inline|;
      if !final && !thinking.closeFound {
        shownInline := shownInline - PartialTagLen(inline, END);
      }
      return Show(answer, visible, inline, shownInline);
    }
  }

  lemma NothingIsValid()
    ensures ToolAssembly.Valid(NOTHING)
  {
  }

  lemma {:induction false} AbsorbJoins(a: Assembly, one: seq<Fragment>, more: seq<Fragment>)
    requires ToolAssembly.Valid(a) && Absorb(a, one).Some?
    ensures Absorb(a, one + more) == Absorb(Absorb(a, one).value, more)
    decreases |more|
  {
    hide AbsorbOne, ToolAssembly.Valid;
    if more == [] {
      assert one + more == one;
    } else {
      var n := |more| - 1;
      assert (one + more)[..|one + more| - 1] == one + more[..n];
      AbsorbJoins(a, one, more[..n]);
    }
  }

  /** No call the fragments spell has arguments that are not an object. */
  ghost predicate AllSendable(valid: string -> bool, received: seq<Fragment>) {
    Absorb(NOTHING, received).Some? && Deliver(valid, InOrder(Absorb(NOTHING, received).value)).1
  }

  /** An answer and a reasoning, and how much of each may be shown. */
  datatype Show = Show(answer: string, answerLength: nat, inline: string, inlineLength: nat)

  function ToShow(content: string, final: bool): Show {
    TagLengths();
    var d := Divide(content);
    var answer := if final && Unresolved(d) then content else d.answer;
    Show(answer, if final then |answer| else Settled(answer, THINK),
         d.reasoning, if final || d.closed then |d.reasoning| else Settled(d.reasoning, END))
  }

  /** What is shown is cut from: all there will be once the answer has ended, else what is certain. */
  ghost function Targets(content: string, ended: bool): (string, string) {
    if ended then (SplitThinking(content).1, SplitThinking(content).0)
    else (CertainAnswer(content), CertainReasoning(content))
  }

  lemma ShowIsTargeted(content: string, final: bool, finished: bool)
    ensures var s := ToShow(content, final);
            var (answer, inline) := Targets(content, final || finished);
            s.answerLength <= |s.answer| && s.inlineLength <= |s.inline| &&
            s.answer[..s.answerLength] <= answer && s.inline[..s.inlineLength] <= inline &&
            (final ==> s.answer == answer && s.inline == inline &&
                       s.answerLength == |answer| && s.inlineLength == |inline|) &&
            (!final ==> |CertainAnswer(content)| < s.answerLength + |THINK|) &&
            CertainAnswer(content) <= answer && CertainReasoning(content) <= inline
  {
    TagLengths();
    hide THINK, END, Index, Blank, Divide, CertainAnswer, CertainReasoning, PartialTagLen;
    ShownIsCertain(content);
    var s := ToShow(content, final);
    assert final ==> s.answer[..s.answerLength] == s.answer && s.inline[..s.inlineLength] == s.inline;
  }

  /** Of two beginnings of one text, the longer continues the shorter. */
  lemma Continues(a: string, b: string, target: string)
    ensures a <= target && b <= target && |a| <= |b| ==> b == a + b[|a|..]
  {
  }

  /** What may be shown before the answer ends, and after. */
  lemma ShownIsCertain(content: string)
    ensures var d := Divide(content);
            var visible := Settled(d.answer, THINK);
            var shown := if d.closed then |d.reasoning| else Settled(d.reasoning, END);
            d.answer[..visible] <= CertainAnswer(content) && |CertainAnswer(content)| < visible + |THINK| &&
            d.answer[visible..] < THINK && (d.closed || d.reasoning[shown..] < END) &&
            d.reasoning[..shown] <= CertainReasoning(content) &&
            CertainAnswer(content) <= SplitThinking(content).1 &&
            CertainReasoning(content) <= SplitThinking(content).0 &&
            d.answer <= SplitThinking(content).1 && d.reasoning <= SplitThinking(content).0
  {
    var d := Divide(content);
    AnswerGrows(content, "");
    ReasoningGrows(content, "");
    hide Index, Blank, THINK, END;
    if d.closed {
      assert d.reasoning[..|d.reasoning|] == d.reasoning;
    }
  }

  /** Nothing follows the finish, no call outgrows its limit, and the calls of a finish are objects. */
  ghost predicate FrameOk(valid: string -> bool, received: seq<Fragment>, finished: bool, frame: Frame) {
    !(finished && (frame.fragments != [] || frame.content != "" || frame.refusal != "")) &&
    Absorb(NOTHING, received + frame.fragments).Some? &&
    (!finished && frame.finish != "" ==> AllSendable(valid, received + frame.fragments))
  }

  predicate FinishedBy(frames: seq<Frame>) {
    exists k :: 0 <= k < |frames| && frames[k].finish != ""
  }

  ghost predicate FramesOk(valid: string -> bool, frames: seq<Frame>) {
    frames == [] ||
    var front := frames[..|frames| - 1];
    FramesOk(valid, front) && FrameOk(valid, FragmentsOf(front), FinishedBy(front), frames[|frames| - 1])
  }

  function RefusalOf(frames: seq<Frame>): string {
    if frames == [] then "" else RefusalOf(frames[..|frames| - 1]) + frames[|frames| - 1].refusal
  }

  lemma {:induction false} BadStaysBad(valid: string -> bool, frames: seq<Frame>, k: nat)
    requires k <= |frames| && !FramesOk(valid, frames[..k])
    ensures !FramesOk(valid, frames)
    decreases |frames| - k
  {
    hide FrameOk, FragmentsOf, FinishedBy;
    if k == |frames| {
      assert frames[..k] == frames;
    } else {
      assert frames[..k + 1][..k] == frames[..k];
      BadStaysBad(valid, frames, k + 1);
    }
  }

  lemma FinishedByGrows(frames: seq<Frame>, k: nat)
    requires k < |frames|
    ensures FinishedBy(frames[..k + 1]) <==> FinishedBy(frames[..k]) || frames[k].finish != ""
  {
    assert frames[..k + 1][k] == frames[k];
    assert forall i :: 0 <= i < k ==> frames[..k + 1][i] == frames[..k][i];
  }

  function ContentOf(frames: seq<Frame>): string {
    if frames == [] then "" else ContentOf(frames[..|frames| - 1]) + frames[|frames| - 1].content
  }

  function FieldReasoningOf(frames: seq<Frame>): string {
    if frames == [] then "" else FieldReasoningOf(frames[..|frames| - 1]) + frames[|frames| - 1].reasoning
  }

  function FragmentsOf(frames: seq<Frame>): seq<Fragment> {
    if frames == [] then [] else FragmentsOf(frames[..|frames| - 1]) + frames[|frames| - 1].fragments
  }

  /**
   * A stream that ends well sends, piece by piece, exactly what a buffered reply with the same
   * content is split into, however the content was cut; and it sends each call its fragments
   * spell, once. It ends well exactly when every frame is in order, nothing was refused, it was
   * seen to end, and every call it spells can be sent.
   */
  method ReadStream(valid: string -> bool, frames: seq<Frame>, sawDone: bool)
    returns (ok: bool, text: string, reasoning: string, events: seq<Event>, calls: seq<Call>)
    ensures ok <==> FramesOk(valid, frames) && RefusalOf(frames) == "" && (sawDone || FinishedBy(frames)) &&
                    (FinishedBy(frames) || AllSendable(valid, FragmentsOf(frames)))
    ensures ok ==>
              var (inline, answer) := SplitThinking(ContentOf(frames));
              text == AnswerOf(events) == answer && InlineOf(events) == inline &&
              IsSplit(ContentOf(frames), InlineOf(events), text) &&
              reasoning == FieldReasoningOf(frames) + inline &&
              CallsIn(events) == calls && Delivered(valid, FragmentsOf(frames), calls) &&
              SentAsSpelled(FragmentsOf(frames), calls)
  {
    hide AnswerOf, InlineOf, CallsIn, Others, SplitThinking, Delivered, AllSendable, FrameOk, FinishedBy, FramesOk,
         ContentOf, FragmentsOf, FieldReasoningOf, RefusalOf, Reader.Valid, IsSplit,
         SentAsSpelled;
    var reader := new Reader(valid);
    text, reasoning, events, calls := "", "", [], [];
    NoFrames(valid);
    assert frames[..0] == [];
    for k := 0 to |frames|
      invariant reader.Valid() && reader.valid == valid
      invariant fresh(reader) && fresh(reader.thinking) && fresh(reader.tools)
      invariant reader.content == ContentOf(frames[..k]) && reader.received == FragmentsOf(frames[..k])
      invariant reader.fieldReasoning == FieldReasoningOf(frames[..k]) && reader.refusal == RefusalOf(frames[..k])
      invariant FramesOk(valid, frames[..k]) && reader.toolsFinished == FinishedBy(frames[..k])
    {
      OneFrameMore(valid, frames, k);
      FinishedByGrows(frames, k);
      var received := reader.Receive(frames[k]);
      if !received {
        BadStaysBad(valid, frames, k + 1);
        return false, text, reasoning, events, calls;
      }
    }
    assert frames[..|frames|] == frames;
    FinishReasonTells(reader);
    SplitsAtItsTags(ContentOf(frames));
    ok, reasoning := reader.End(sawDone);
    text, events, calls := reader.text, reader.events, reader.toolCalls;
    if ok { DeliveredAreSpelled(valid, FragmentsOf(frames), calls); }
  }

  lemma DeliveredAreSpelled(valid: string -> bool, fragments: seq<Fragment>, calls: seq<Call>)
    ensures Delivered(valid, fragments, calls) ==> SentAsSpelled(fragments, calls)
  {
    hide SentAsSpelled;
    if Delivered(valid, fragments, calls) { DeliveredIsSpelled(valid, fragments); }
  }

  /** All that the frames carry. */
  function Heard(frames: seq<Frame>): (string, seq<Fragment>, string, string) {
    (ContentOf(frames), FragmentsOf(frames), FieldReasoningOf(frames), RefusalOf(frames))
  }

  lemma OneFrameMore(valid: string -> bool, frames: seq<Frame>, k: nat)
    requires k < |frames|
    ensures var front, more := frames[..k], frames[..k + 1];
            Heard(more) == (ContentOf(front) + frames[k].content, FragmentsOf(front) + frames[k].fragments,
                            FieldReasoningOf(front) + frames[k].reasoning, RefusalOf(front) + frames[k].refusal) &&
            (FramesOk(valid, more) <==>
              FramesOk(valid, front) && FrameOk(valid, FragmentsOf(front), FinishedBy(front), frames[k]))
  {
    hide FrameOk, FinishedBy;
    assert frames[..k + 1][..k] == frames[..k];
  }

  lemma NoFrames(valid: string -> bool)
    ensures !FinishedBy([]) && FramesOk(valid, []) && Heard([]) == ("", [], "", "")
  {
  }

  lemma FinishReasonTells(reader: Reader)
    ensures reader.Valid() ==> reader.toolsFinished == (reader.finishReason != "")
  {
  }
}
