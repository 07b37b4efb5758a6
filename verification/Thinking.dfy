/** Reasoning a model writes inline in its answer, split from the answer around it. */
module Thinking {
  import opened Basics
  import opened Text

  const THINK := "<think>"
  const END := "</think>"

  /** How much text a resumed search looks at again. */
  const STRADDLE := |END|

  lemma TagLengths()
    ensures |THINK| == 7 && |END| == 8 == STRADDLE
  {
  }

  /** One reading of the text so far. */
  datatype Division = Division(reasoning: string, answer: string, found: bool, afterText: bool, closed: bool)

  function Divide(text: string): Division {
    var open := Index(text, THINK);
    if open < 0 then Division("", text, false, false, false)
    else
      var before, rest := text[..open], text[open + |THINK|..];
      var end := Index(rest, END);
      if end >= 0 then Division(rest[..end], before + rest[end + |END|..], true, !Blank(before), true)
      else if !Blank(before) then Division("", before, true, true, false)
      else Division(rest, before, true, false, false)
  }

  /** Reasoning opened behind an answer already begun and never closed. */
  predicate Unresolved(d: Division) {
    d.found && d.afterText && !d.closed
  }

  /** splitThinking: the reasoning and the answer of a text that arrived whole. */
  function SplitThinking(text: string): (string, string) {
    var d := Divide(text);
    if Unresolved(d) then ("", text) else (d.reasoning, d.answer)
  }

  /** The first opening tag of the text stands behind `before`. */
  predicate Opens(text: string, before: string, rest: string) {
    text == before + THINK + rest && Index(before + THINK, THINK) == |before|
  }

  /** Text with reasoning in it: the first tag behind the opening one that closes it stands behind `thought`. */
  predicate Encloses(text: string, before: string, thought: string, after: string) {
    Opens(text, before, thought + END + after) && Index(thought + END, END) == |thought|
  }

  /** `thought` and `answer` are what the tags in the raw text make of it. */
  ghost predicate IsSplit(text: string, thought: string, answer: string) {
    (Index(text, THINK) < 0 ==> thought == "" && answer == text) &&
    (forall before, inside, after :: Encloses(text, before, inside, after) ==>
       thought == inside && answer == before + after) &&
    (forall before, rest :: Opens(text, before, rest) && Index(rest, END) < 0 ==>
       if Blank(before) then thought == rest && answer == before else thought == "" && answer == text)
  }

  lemma OpensIsFound(text: string, before: string, rest: string)
    requires Opens(text, before, rest)
    ensures Index(text, THINK) == |before| && text[..|before|] == before && text[|before| + |THINK|..] == rest
  {
    FoundStays(before + THINK, rest, THINK);
  }

  lemma EnclosesIsFound(text: string, before: string, thought: string, after: string)
    requires Encloses(text, before, thought, after)
    ensures Divide(text) == Division(thought, before + after, true, !Blank(before), true)
  {
    TagLengths();
    hide THINK, END, Index, Blank;
    OpensIsFound(text, before, thought + END + after);
    FoundStays(thought + END, after, END);
    var rest := thought + END + after;
    assert rest[..|thought|] == thought && rest[|thought| + |END|..] == after;
  }

  /** What stands between the tags is the reasoning, and all around them the answer, of any text. */
  lemma SplitsAtItsTags(text: string)
    ensures IsSplit(text, SplitThinking(text).0, SplitThinking(text).1)
    ensures forall before, rest :: Opens(text, before, rest) && Index(rest, END) < 0 ==> Divide(text).answer == before
  {
    TagLengths();
    hide THINK, END, Index, Blank, Opens;
    forall before, inside, after | Encloses(text, before, inside, after)
      ensures SplitThinking(text) == (inside, before + after)
    {
      EnclosesIsFound(text, before, inside, after);
    }
    forall before, rest | Opens(text, before, rest) && Index(rest, END) < 0
      ensures Divide(text).answer == before
      ensures SplitThinking(text) == if Blank(before) then (rest, before) else ("", text)
    {
      OpensIsFound(text, before, rest);
    }
  }

  /** The part of the answer no later text can change. */
  function CertainAnswer(text: string): string {
    if Index(text, THINK) < 0 then text[..Settled(text, THINK)] else Divide(text).answer
  }

  /** The part of the reasoning no later text can change. */
  function CertainReasoning(text: string): string {
    var d := Divide(text);
    if !d.found || d.closed || d.afterText then d.reasoning else d.reasoning[..Settled(d.reasoning, END)]
  }

  lemma OpenLater(text: string, more: string)
    requires Index(text, THINK) < 0
    ensures var k := Index(text + more, THINK);
            k < 0 || Settled(text, THINK) <= k
  {
    var k := Index(text + more, THINK);
    if 0 <= k < Settled(text, THINK) {
      NoTagBeforeTail(text, more, THINK, k);
    }
  }

  /** What is certain stays: the certain answer only ever grows. */
  lemma AnswerGrows(text: string, more: string)
    ensures CertainAnswer(text) <= CertainAnswer(text + more)
    ensures CertainAnswer(text) <= SplitThinking(text).1
  {
    TagLengths();
    hide THINK, END, Blank, Index;
    var whole := text + more;
    var open := Index(text, THINK);
    if open < 0 {
      AnswerGrowsUndecided(text, more);
    } else {
      FoundStays(text, more, THINK);
      var rest := text[open + |THINK|..];
      assert whole[..open] == text[..open];
      assert whole[open + |THINK|..] == rest + more;
      if Index(rest, END) >= 0 {
        FoundStays(rest, more, END);
        var end := Index(rest, END);
        assert (rest + more)[end + |END|..] == rest[end + |END|..] + more;
      }
    }
  }

  lemma AnswerGrowsUndecided(text: string, more: string)
    requires Index(text, THINK) < 0
    ensures CertainAnswer(text) <= CertainAnswer(text + more)
  {
    hide Index, Blank;
    var whole := text + more;
    var cut := Settled(text, THINK);
    assert whole[..cut] == text[..cut];
    OpenLater(text, more);
    if Index(whole, THINK) < 0 {
      TailHoldsBack(text, more, THINK);
      assert whole[..Settled(whole, THINK)][..cut] == whole[..cut];
    } else {
      var open := Index(whole, THINK);
      assert whole[..open][..cut] == whole[..cut];
    }
  }

  lemma ReasoningGrows(text: string, more: string)
    ensures CertainReasoning(text) <= CertainReasoning(text + more)
    ensures CertainReasoning(text) <= SplitThinking(text).0
  {
    TagLengths();
    hide THINK, END, Blank, Index;
    var whole := text + more;
    var open := Index(text, THINK);
    if open >= 0 {
      FoundStays(text, more, THINK);
      var rest := text[open + |THINK|..];
      assert whole[..open] == text[..open];
      assert whole[open + |THINK|..] == rest + more;
      if Index(rest, END) >= 0 {
        FoundStays(rest, more, END);
      } else {
        ReasoningGrowsOpen(rest, more);
      }
    }
  }

  lemma ReasoningGrowsOpen(rest: string, more: string)
    requires Index(rest, END) < 0
    ensures var cut, whole := Settled(rest, END), rest + more;
            var end := Index(whole, END);
            rest[..cut] <= if end >= 0 then whole[..end] else whole[..Settled(whole, END)]
  {
    hide Index;
    var cut, whole := Settled(rest, END), rest + more;
    assert whole[..cut] == rest[..cut];
    TailFindsTag(rest, more, END);
    TailHoldsBack(rest, more, END);
    var end := Index(whole, END);
    var until := if end >= 0 then end else Settled(whole, END);
    assert whole[..until][..cut] == whole[..cut];
  }

  // --- the split that remembers ------------------------------------------------------------------

  /** A search that resumes a tag's width back finds what a search from the start would. */
  lemma ResumedSearch(text: string, more: string, tag: string, from: nat)
    requires tag != "" && Index(text, tag) < 0
    requires from == 0 || from + |tag| <= |text| + 1
    requires from <= |text + more|
    ensures var k := Index((text + more)[from..], tag);
            Index(text + more, tag) == if k < 0 then -1 else from + k
  {
    var whole := text + more;
    forall j | 0 <= j < from
      ensures !At(whole, tag, j)
    {
      assert !At(text, tag, j);
      JoinKeepsFront(text, more, j, j + |tag|);
    }
    var k := Index(whole[from..], tag);
    forall j | from <= j
      ensures At(whole, tag, j) <==> At(whole[from..], tag, j - from)
    {
      AtInTail(whole, from, tag, j);
    }
    if k >= 0 {
      assert At(whole, tag, from + k);
      forall j | from <= j < from + k
        ensures !At(whole, tag, j)
      {
        assert !At(whole[from..], tag, j - from);
      }
      FirstIsIndex(whole, tag, from + k);
    } else {
      forall j | from <= j
        ensures !At(whole, tag, j)
      {
        assert !At(whole[from..], tag, j - from);
      }
      NoneIsIndex(whole, tag);
    }
  }

  /** inlineThinking: the same split, without rereading what has been searched. */
  class InlineThinking {
    var openAt: nat
    var openFound: bool
    var openScanned: nat
    var afterText: bool
    var closeAt: nat
    var closeFound: bool
    var closeScanned: nat
    // The text at the last call.
    ghost var seen: string

    /** What is remembered is true of the text seen, so of any text that begins with it. */
    ghost predicate Valid()
      reads this
    {
      if !openFound then openScanned == |seen| && Index(seen, THINK) < 0 && !closeFound && closeScanned == 0
      else
        openAt == Index(seen, THINK) && afterText == !Blank(seen[..openAt]) &&
        var rest := seen[openAt + |THINK|..];
        if closeFound then closeAt == Index(rest, END)
        else closeScanned == |rest| && Index(rest, END) < 0
    }

    constructor ()
      ensures Valid() && seen == "" && !openFound && !closeFound
    {
      openAt, openFound, openScanned, afterText := 0, false, 0, false;
      closeAt, closeFound, closeScanned, seen := 0, false, 0, "";
    }

    method Split(buffer: string) returns (reasoning: string, answer: string)
      requires Valid() && seen <= buffer
      modifies this
      ensures Valid() && seen == buffer
      ensures var d := Divide(buffer);
              reasoning == d.reasoning && answer == d.answer &&
              openFound == d.found && closeFound == d.closed && (openFound ==> afterText == d.afterText)
    {
      hide THINK, END, Blank, Index;
      TagLengths();
      ghost var before := FindOpen(buffer);
      seen := buffer;
      if !openFound {
        return "", buffer;
      }
      var rest := buffer[openAt + |THINK|..];
      FindClose(rest, before);
      assert Valid();
      if !closeFound {
        return if afterText then "" else rest, buffer[..openAt];
      }
      return rest[..closeAt], buffer[..openAt] + rest[closeAt + |END|..];
    }

    /** Looks for the opening tag; `searched` is what has been searched for the closing one. */
    method FindOpen(buffer: string) returns (ghost searched: string)
      requires Valid() && seen <= buffer
      modifies this`openAt, this`openFound, this`openScanned, this`afterText
      ensures openFound == (Index(buffer, THINK) >= 0)
      ensures if openFound then openAt == Index(buffer, THINK) && afterText == !Blank(buffer[..openAt])
              else openScanned == |buffer| && !closeFound && closeScanned == 0
      ensures openFound ==>
                searched <= buffer[openAt + |THINK|..] &&
                if closeFound then closeAt == Index(searched, END)
                else closeScanned == |searched| && Index(searched, END) < 0
    {
      TagLengths();
      hide THINK, END, Blank, Index;
      ghost var more := buffer[|seen|..];
      assert buffer == seen + more;
      if openFound {
        FoundStays(seen, more, THINK);
        assert buffer[..openAt] == seen[..openAt];
        searched := seen[openAt + |THINK|..];
        assert buffer[openAt + |THINK|..] == searched + more;
        return;
      }
      var from := Min(Max(0, openScanned - STRADDLE), |buffer|);
      ResumedSearch(seen, more, THINK, from);
      var index := Index(buffer[from..], THINK);
      searched := "";
      NothingSearched(END);
      if index < 0 {
        openScanned := |buffer|;
        return;
      }
      openAt, openFound := from + index, true;
      afterText := !Blank(buffer[..openAt]);
    }

    method FindClose(rest: string, ghost searched: string)
      requires searched <= rest
      requires if closeFound then closeAt == Index(searched, END)
               else closeScanned == |searched| && Index(searched, END) < 0
      modifies this`closeAt, this`closeFound, this`closeScanned
      ensures closeFound == (Index(rest, END) >= 0)
      ensures if closeFound then closeAt == Index(rest, END) else closeScanned == |rest|
    {
      TagLengths();
      hide END, Index;
      ghost var more := rest[|searched|..];
      assert rest == searched + more;
      if closeFound {
        FoundStays(searched, more, END);
        return;
      }
      var from := Min(Max(0, closeScanned - STRADDLE), |rest|);
      ResumedSearch(searched, more, END, from);
      var index := Index(rest[from..], END);
      if index < 0 {
        closeScanned := |rest|;
        return;
      }
      closeAt, closeFound := from + index, true;
    }
  }

  lemma NothingSearched(tag: string)
    ensures tag != "" ==> Index("", tag) < 0
  {
  }
}
