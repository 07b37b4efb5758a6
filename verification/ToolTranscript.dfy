/**
 * The request that leaves: past calls and their results written as prose, and what the filter
 * reads back from that prose.
 */
module ToolTranscript {
  import opened Text
  import opened ToolPrompt
  import opened Json

  const RESPONSE_OPEN := "<tool_response>"
  const RESPONSE_CLOSE := "</tool_response>"

  const NAME_LABEL := "\n{" + ("\"" + "name" + "\"") + ":"
  const ARGUMENTS_LABEL := "," + ("\"" + "arguments" + "\"") + ":"
  const CALL_END := "}\n"

  // --- breaking the protocol's tags ----------------------------------------------------------

  /** The tags a result must not contain. */
  predicate IsTag(tag: string) {
    tag == OPEN || tag == CLOSE || tag == RESPONSE_CLOSE
  }

  /** What one left-to-right pass writes for the tag at the front of `text`, if one is there. */
  function Escape(text: string): (r: Option<(string, nat)>)
    ensures match r
            case Some((escape, length)) =>
              2 < |escape| && escape[0] == '<' && escape[1] == '\\' && '<' !in escape[1..] && 0 < length <= |text|
            case None => forall tag | IsTag(tag) :: !(tag <= text)
  {
    if OPEN <= text then Some(("<\\tool_call>", |OPEN|))
    else if CLOSE <= text then Some(("<\\/tool_call>", |CLOSE|))
    else if RESPONSE_CLOSE <= text then Some(("<\\/tool_response>", |RESPONSE_CLOSE|))
    else None
  }

  function NeutralizeTags(text: string): string
    decreases |text|
  {
    if text == "" then ""
    else
      match Escape(text)
      case Some(escape) => escape.0 + NeutralizeTags(text[escape.1..])
      case None => [text[0]] + NeutralizeTags(text[1..])
  }

  ghost predicate Has(s: string, tag: string) {
    exists i :: At(s, tag, i)
  }

  lemma TagShape(tag: string)
    ensures IsTag(tag) ==> |tag| > 2 && tag[0] == '<' && tag[1] != '\\' && '<' !in tag[1..]
  {
  }

  lemma PrefixTail(p: string, s: string)
    requires p != "" && s != ""
    ensures p <= s <==> p[0] == s[0] && p[1..] <= s[1..]
  {
    if p[0] == s[0] && p[1..] <= s[1..] {
      assert p == [p[0]] + p[1..];
      assert s[..|p|] == [s[0]] + s[1..][..|p| - 1];
    }
  }

  lemma AtTail(s: string, tag: string, i: int)
    requires s != "" && i >= 1
    ensures At(s, tag, i) <==> At(s[1..], tag, i - 1)
  {
    if i + |tag| <= |s| {
      SliceOfTail(s, 1, i, i + |tag|);
    }
  }

  /** Where the escaped text shows a stretch with no `<` in it, the original shows it too. */
  lemma {:induction false} FrontIsOriginal(text: string, p: string)
    requires '<' !in p
    ensures p <= NeutralizeTags(text) ==> p <= text
    decreases |text|
  {
    hide Escape;
    if p != "" && text != "" {
      var out := NeutralizeTags(text);
      if Escape(text).Some? {
        assert out[0] == '<' && p[0] in p;
      } else {
        assert out[1..] == NeutralizeTags(text[1..]);
        FrontIsOriginal(text[1..], p[1..]);
        PrefixTail(p, out);
        PrefixTail(p, text);
      }
    }
  }

  lemma NoTagAtFront(text: string, tag: string)
    requires IsTag(tag)
    ensures !At(NeutralizeTags(text), tag, 0)
  {
    hide Escape, IsTag;
    TagShape(tag);
    if text != "" {
      var out := NeutralizeTags(text);
      if Escape(text).Some? {
        assert out[1] == '\\';
        assert |tag| <= |out| ==> out[0..|tag|][1] == '\\';
      } else {
        assert out[1..] == NeutralizeTags(text[1..]);
        FrontIsOriginal(text[1..], tag[1..]);
        PrefixTail(tag, out);
        PrefixTail(tag, text);
        assert |tag| <= |out| ==> out[0..|tag|] == out[..|tag|];
      }
    }
  }

  /** Not one of the tags is left anywhere in an escaped text, seams included. */
  lemma {:induction false} NoTagIsLeft(text: string, tag: string)
    requires IsTag(tag)
    ensures !Has(NeutralizeTags(text), tag)
    decreases |text|
  {
    hide Escape, IsTag, At;
    if text == "" {
      TagShape(tag);
      NothingAtAll(tag);
    } else {
      var out := NeutralizeTags(text);
      NoTagAtFront(text, tag);
      if Escape(text).Some? {
        var (escape, length) := Escape(text).value;
        NoTagIsLeft(text[length..], tag);
        EscapeHidesTags(escape, NeutralizeTags(text[length..]), tag);
      } else {
        var rest := NeutralizeTags(text[1..]);
        assert out[1..] == rest;
        NoTagIsLeft(text[1..], tag);
        FrontThenTail(out, tag);
      }
    }
  }

  lemma NothingAtAll(tag: string)
    ensures tag != "" ==> !Has("", tag)
  {
  }

  lemma FrontThenTail(s: string, tag: string)
    requires s != "" && !At(s, tag, 0) && !Has(s[1..], tag)
    ensures !Has(s, tag)
  {
    forall i
      ensures !At(s, tag, i)
    {
      if i >= 1 {
        AtTail(s, tag, i);
      }
    }
  }

  lemma EscapeHidesTags(escape: string, rest: string, tag: string)
    requires IsTag(tag) && !Has(rest, tag)
    requires |escape| > 2 && escape[0] == '<' && escape[1] == '\\' && '<' !in escape[1..]
    ensures !Has(escape + rest, tag)
  {
    TagShape(tag);
    hide IsTag;
    var out := escape + rest;
    forall i
      ensures !At(out, tag, i)
    {
      if i >= |escape| {
        if i + |tag| <= |out| {
          SliceOfJoin(escape, rest, i, i + |tag|);
        }
        assert !At(rest, tag, i - |escape|);
      } else if i == 0 {
        assert |tag| <= |out| ==> out[0..|tag|][1] == '\\';
      } else if i > 0 {
        assert escape[1..][i - 1] != '<';
        assert i + |tag| <= |out| ==> out[i..i + |tag|][0] == escape[1..][i - 1];
      }
    }
  }

  /** Text without a tag is left alone. */
  lemma {:induction false} TagFreeIsUnchanged(text: string)
    requires forall tag | IsTag(tag) :: !Has(text, tag)
    ensures NeutralizeTags(text) == text
    decreases |text|
  {
    hide At;
    if text != "" {
      NoTagToEscape(text, OPEN);
      NoTagToEscape(text, CLOSE);
      NoTagToEscape(text, RESPONSE_CLOSE);
      assert Escape(text).None?;
      forall tag | IsTag(tag)
        ensures !Has(text[1..], tag)
      {
        forall i
          ensures !At(text[1..], tag, i)
        {
          NoneInTail(text, tag, i);
        }
      }
      TagFreeIsUnchanged(text[1..]);
      assert [text[0]] + text[1..] == text;
    }
  }

  lemma NoTagToEscape(text: string, tag: string)
    requires !Has(text, tag)
    ensures !(tag <= text)
  {
    AtFront(text, tag);
  }

  lemma AtFront(s: string, tag: string)
    ensures At(s, tag, 0) <==> tag <= s
  {
    assert |tag| <= |s| ==> s[0..|tag|] == s[..|tag|];
  }

  lemma NoneInTail(s: string, tag: string, i: int)
    requires s != "" && !Has(s, tag)
    ensures !At(s[1..], tag, i)
  {
    if i >= 0 {
      AtTail(s, tag, i + 1);
      assert !At(s, tag, i + 1);
    }
  }

  // --- a result, as prose -------------------------------------------------------------------------

  /** openResponseTag */
  function OpenResponseTag(table: Table, name: string): string {
    if name == "" then RESPONSE_OPEN
    else "<tool_response tool=" + Quote(table, NeutralizeTags(name)) + ">"
  }

  /** One result, down to the line its closing tag is on. */
  function ResultBlock(table: Table, name: string, content: string): string {
    OpenResponseTag(table, name) + "\n" + NeutralizeTags(content) + "\n" + RESPONSE_CLOSE
  }

  /** A character the tag does not hold keeps the texts on either side of it apart. */
  lemma Apart(a: string, c: char, b: string, tag: string)
    requires !Has(a, tag) && !Has(b, tag) && c !in tag && tag != ""
    ensures !Has(a + [c] + b, tag)
  {
    var s := a + [c] + b;
    forall i
      ensures !At(s, tag, i)
    {
      if 0 <= i && i + |tag| <= |s| {
        if i + |tag| <= |a| {
          assert s == a + ([c] + b);
          JoinKeepsFront(a, [c] + b, i, i + |tag|);
          assert !At(a, tag, i);
        } else if i > |a| {
          SliceOfJoin(a + [c], b, i, i + |tag|);
          assert !At(b, tag, i - |a| - 1);
        } else {
          assert s[i..i + |tag|][|a| - i] == c;
          assert tag[|a| - i] in tag;
        }
      }
    }
  }

  /** Past a line break, the first occurrence of a tag that the line before does not hold. */
  lemma FoundNextLine(a: string, tag: string, rest: string)
    requires !Has(a, tag) && '\n' !in tag && tag != ""
    ensures Index(a + "\n" + tag + rest, tag) == |a| + 1
  {
    var s := a + "\n" + tag + rest;
    assert s[|a| + 1..|a| + 1 + |tag|] == tag;
    forall j | 0 <= j <= |a|
      ensures !At(s, tag, j)
    {
      if j + |tag| <= |a| {
        assert s[j..j + |tag|] == a[j..j + |tag|];
        assert !At(a, tag, j);
      } else if j + |tag| <= |s| {
        assert s[j..j + |tag|][|a| - j] == '\n';
        assert tag[|a| - j] in tag;
      }
    }
    FirstIsIndex(s, tag, |a| + 1);
  }

  lemma TagCharacters(tag: string)
    ensures IsTag(tag) ==> '"' !in tag && '\n' !in tag && '\\' !in tag && tag != ""
  {
  }

  lemma {:induction false} QuotedFrontIsOriginal(table: Table, s: string, p: string)
    requires '\\' !in p
    ensures p <= QuoteBody(table, s) ==> p <= s
  {
    hide IsPrint, Hex;
    if p != "" && s != "" {
      var out := QuoteBody(table, s);
      if QuoteChar(table, s[0]) == [s[0]] {
        assert out[1..] == QuoteBody(table, s[1..]);
        QuotedFrontIsOriginal(table, s[1..], p[1..]);
        PrefixTail(p, out);
        PrefixTail(p, s);
      } else {
        assert out[0] == '\\' && p[0] in p;
      }
    }
  }

  /** Quoting brings no tag about. */
  lemma {:induction false} QuoteHidesTags(table: Table, s: string, tag: string)
    requires IsTag(tag) && !Has(s, tag)
    ensures !Has(QuoteBody(table, s), tag)
  {
    TagShape(tag);
    TagCharacters(tag);
    hide IsTag, IsPrint, Hex;
    if s == "" {
      NothingAtAll(tag);
    } else {
      var out, q, rest := QuoteBody(table, s), QuoteChar(table, s[0]), QuoteBody(table, s[1..]);
      forall i
        ensures !At(s[1..], tag, i)
      {
        NoneInTail(s, tag, i);
      }
      QuoteHidesTags(table, s[1..], tag);
      if q == [s[0]] {
        assert out[1..] == rest;
        QuotedFrontIsOriginal(table, s, tag);
        assert !At(s, tag, 0);
        assert |tag| <= |s| ==> s[0..|tag|] == s[..|tag|];
        assert |tag| <= |out| ==> out[0..|tag|] == out[..|tag|];
        FrontThenTail(out, tag);
      } else {
        EscapedFront(table, s[0], rest, tag);
      }
    }
  }

  lemma EscapedFront(table: Table, c: char, rest: string, tag: string)
    requires QuoteChar(table, c) != [c] && tag != "" && tag[0] == '<' && !Has(rest, tag)
    ensures !Has(QuoteChar(table, c) + rest, tag)
  {
    var q := QuoteChar(table, c);
    var out := q + rest;
    assert forall i :: 0 <= i < |q| ==> q[i] != '<';
    forall i
      ensures !At(out, tag, i)
    {
      if i >= |q| {
        if i + |tag| <= |out| {
          SliceOfJoin(q, rest, i, i + |tag|);
        }
        assert !At(rest, tag, i - |q|);
      } else if 0 <= i && i + |tag| <= |out| {
        assert out[i..i + |tag|][0] == q[i];
      }
    }
  }

  lemma OpenTagHoldsNone(table: Table, name: string, tag: string)
    requires IsTag(tag)
    ensures !Has(OpenResponseTag(table, name), tag)
  {
    TagCharacters(tag);
    PlainOpenings(tag);
    hide IsTag, Has, QuoteBody, NeutralizeTags;
    if name != "" {
      var head, body := "<tool_response tool=", QuoteBody(table, NeutralizeTags(name));
      NoTagIsLeft(name, tag);
      QuoteHidesTags(table, NeutralizeTags(name), tag);
      QuotedBetween(head, body, ">", tag);
      assert OpenResponseTag(table, name) == head + ("\"" + body + "\"") + ">";
    }
  }

  lemma QuotedBetween(head: string, body: string, tail: string, tag: string)
    requires !Has(head, tag) && !Has(body, tag) && !Has(tail, tag) && '"' !in tag && tag != ""
    ensures !Has(head + ("\"" + body + "\"") + tail, tag)
  {
    Apart(head, '"', body, tag);
    Apart(head + ['"'] + body, '"', tail, tag);
    assert head + ['"'] + body + ['"'] + tail == head + ("\"" + body + "\"") + tail;
  }

  lemma PlainOpenings(tag: string)
    requires IsTag(tag)
    ensures !Has("<tool_response tool=", tag) && !Has(RESPONSE_OPEN, tag) && !Has(">", tag)
  {
    TagShape(tag);
    OnlyAtFront("<tool_response tool=", tag);
    OnlyAtFront(RESPONSE_OPEN, tag);
    OnlyAtFront(">", tag);
  }

  lemma OnlyAtFront(s: string, tag: string)
    requires |tag| > 2 && tag[0] == '<' && s != "" && '<' !in s[1..]
    requires s[0] == tag[0] && |s| > 6 && |tag| > 6 ==> s[1] != tag[1] || s[6] != tag[6]
    requires (|s| > 6 && |tag| > 6) || |s| < |tag|
    ensures !Has(s, tag)
  {
    forall i
      ensures !At(s, tag, i)
    {
      if 0 <= i && i + |tag| <= |s| {
        if i > 0 {
          assert s[i..i + |tag|][0] == s[1..][i - 1];
        } else {
          assert s[0..|tag|][1] == s[1] && s[0..|tag|][6] == s[6];
        }
      }
    }
  }

  /** A result can neither open a call nor close one. */
  lemma ResultHoldsNoCall(table: Table, name: string, content: string, tag: string)
    requires tag == OPEN || tag == CLOSE
    ensures !Has(ResultBlock(table, name, content), tag)
  {
    ResultFrontHoldsNone(table, name, content, tag);
    TagCharacters(tag);
    CloserHoldsNone(tag);
    Apart(OpenResponseTag(table, name) + "\n" + NeutralizeTags(content), '\n', RESPONSE_CLOSE, tag);
  }

  lemma CloserHoldsNone(tag: string)
    requires tag == OPEN || tag == CLOSE
    ensures !Has(RESPONSE_CLOSE, tag)
  {
    assert RESPONSE_CLOSE[1] == '/' && OPEN[1] == 't' && RESPONSE_CLOSE[7] == 'r' && CLOSE[7] == 'c';
    forall i
      ensures !At(RESPONSE_CLOSE, tag, i)
    {
      if 0 <= i && i + |tag| <= |RESPONSE_CLOSE| {
        var cut := RESPONSE_CLOSE[i..i + |tag|];
        assert cut[0] == RESPONSE_CLOSE[i] && cut[1] == RESPONSE_CLOSE[i + 1] && cut[7] == RESPONSE_CLOSE[i + 7];
      }
    }
  }

  lemma ResultFrontHoldsNone(table: Table, name: string, content: string, tag: string)
    requires IsTag(tag)
    ensures !Has(OpenResponseTag(table, name) + "\n" + NeutralizeTags(content), tag)
  {
    TagCharacters(tag);
    OpenTagHoldsNone(table, name, tag);
    NoTagIsLeft(content, tag);
    hide IsTag, At, Has;
    Apart(OpenResponseTag(table, name), '\n', NeutralizeTags(content), tag);
  }

  /** A result's block is closed by its own last line and nothing earlier, whatever the tool returned. */
  lemma ResultClosesAtItsEnd(table: Table, name: string, content: string, rest: string)
    ensures Index(ResultBlock(table, name, content) + rest, RESPONSE_CLOSE)
            == |ResultBlock(table, name, content)| - |RESPONSE_CLOSE|
  {
    var front := OpenResponseTag(table, name) + "\n" + NeutralizeTags(content);
    TagCharacters(RESPONSE_CLOSE);
    ResultFrontHoldsNone(table, name, content, RESPONSE_CLOSE);
    FoundNextLine(front, RESPONSE_CLOSE, rest);
    assert ResultBlock(table, name, content) + rest == front + "\n" + RESPONSE_CLOSE + rest;
  }

  /** Text that opens no call is prose to its last character. */
  lemma InertIsProse(lesson: Lesson, text: string)
    requires !Has(text, OPEN)
    ensures ReadAll(lesson, text) == Chars(text)
  {
    NoneIsIndex(text, OPEN);
    var cut := Settled(text, OPEN);
    assert text == text[..cut] + text[cut..];
    CharsJoin(text[..cut], text[cut..]);
  }

  // --- rewriting a transcript ------------------------------------------------------------------------

  datatype Role = System | User | Assistant | Tool

  datatype Part =
    | Text(text: string)
    | Image(data: string)
    | Calling(id: string, name: string, arguments: string)
    | Result(id: string, content: string, isError: bool)

  datatype Message = Message(role: Role, parts: seq<Part>)

  /** Which call each id belongs to. */
  type Names = map<string, string>

  ghost function SerializeCall(table: Table, name: string, arguments: string): string {
    OPEN + CallBody(table, name, Sendable(arguments)) + CLOSE
  }

  /** Arguments that are not JSON cost one call, not the request. */
  ghost function Sendable(arguments: string): string {
    if Blank(arguments) || !IsJson(arguments) then "{}" else arguments
  }

  function CallBody(table: Table, name: string, arguments: string): string {
    NAME_LABEL + Quote(table, NeutralizeTags(name)) + ARGUMENTS_LABEL + arguments + CALL_END
  }

  function ResultText(table: Table, names: Names, part: Part): string {
    if !part.Result? then ""
    else
      var content := if part.isError then "[tool_error]\n" + part.content else part.content;
      ResultBlock(table, if part.id in names then names[part.id] else "", content) + "\n"
  }

  function ResultsText(table: Table, names: Names, parts: seq<Part>): string {
    if parts == [] then ""
    else ResultsText(table, names, parts[..|parts| - 1]) + ResultText(table, names, parts[|parts| - 1])
  }

  function NamesAfter(names: Names, parts: seq<Part>): Names {
    if parts == [] then names
    else
      var before, part := NamesAfter(names, parts[..|parts| - 1]), parts[|parts| - 1];
      if part.Calling? && part.name != "" && part.id != "" then before[part.id := part.name] else before
  }

  ghost function RewritePart(table: Table, part: Part): Part {
    if part.Calling? && part.name != "" then Text(SerializeCall(table, part.name, part.arguments)) else part
  }

  ghost function RewriteMessage(table: Table, message: Message): Message {
    if message.role.Assistant? then
      Message(Assistant,
              seq(|message.parts|, i requires 0 <= i < |message.parts| => RewritePart(table, message.parts[i])))
    else message
  }

  function Flushed(results: string): seq<Message> {
    if results == "" then [] else [Message(User, [Text(results)])]
  }

  /** What is sent in place of `messages`, with `results` waiting to be flushed. */
  ghost function Rewrite(table: Table, messages: seq<Message>, names: Names, results: string): seq<Message> {
    if messages == [] then Flushed(results)
    else
      var message, rest := messages[0], messages[1..];
      if message.role.Tool? then Rewrite(table, rest, names, results + ResultsText(table, names, message.parts))
      else
        Flushed(results) + [RewriteMessage(table, message)] +
        Rewrite(table, rest, if message.role.Assistant? then NamesAfter(names, message.parts) else names, "")
  }

  /** A message that answers calls: prose, from which no call is read back. */
  ghost predicate Inert(message: Message) {
    message.role == User && |message.parts| == 1 && message.parts[0].Text? &&
    !Has(message.parts[0].text, OPEN) && !Has(message.parts[0].text, CLOSE)
  }

  lemma {:induction false} ResultsHoldNoCall(table: Table, names: Names, parts: seq<Part>, tag: string)
    requires tag == OPEN || tag == CLOSE
    ensures var s := ResultsText(table, names, parts);
            !Has(s, tag) && (s != "" ==> s[|s| - 1] == '\n')
  {
    TagCharacters(tag);
    NothingAtAll(tag);
    hide ResultText, Has;
    if parts != [] {
      var before, part := ResultsText(table, names, parts[..|parts| - 1]), parts[|parts| - 1];
      ResultsHoldNoCall(table, names, parts[..|parts| - 1], tag);
      if part.Result? {
        OneMoreResult(table, names, part, before, tag);
      } else {
        NotAResult(table, names, part);
        assert before + "" == before;
      }
    }
  }

  lemma NotAResult(table: Table, names: Names, part: Part)
    ensures !part.Result? ==> ResultText(table, names, part) == ""
  {
  }

  lemma OneMoreResult(table: Table, names: Names, part: Part, before: string, tag: string)
    requires part.Result? && (tag == OPEN || tag == CLOSE) && !Has(before, tag)
    requires before != "" ==> before[|before| - 1] == '\n'
    ensures var s := before + ResultText(table, names, part);
            !Has(s, tag) && s[|s| - 1] == '\n'
  {
    var content := if part.isError then "[tool_error]\n" + part.content else part.content;
    var name := if part.id in names then names[part.id] else "";
    var line := ResultBlock(table, name, content);
    TagCharacters(tag);
    ResultHoldsNoCall(table, name, content, tag);
    hide ResultBlock, Has, OPEN, CLOSE;
    LinesHoldNone(before, line, tag);
    assert before + ResultText(table, names, part) == before + line + "\n";
  }

  /** Lines that hold no tag hold none together. */
  lemma LinesHoldNone(before: string, line: string, tag: string)
    requires !Has(before, tag) && !Has(line, tag) && '\n' !in tag && tag != ""
    requires before != "" ==> before[|before| - 1] == '\n'
    ensures !Has(before + line, tag) && !Has(before + line + "\n", tag)
  {
    NothingAtAll(tag);
    if before == "" {
      assert before + line == line;
    } else {
      var most := before[..|before| - 1];
      forall i
        ensures !At(most, tag, i)
      {
        if 0 <= i && i + |tag| <= |most| {
          assert most[i..i + |tag|] == before[i..i + |tag|];
          assert !At(before, tag, i);
        }
      }
      Apart(most, '\n', line, tag);
      assert most + ['\n'] + line == before + line;
    }
    Apart(before + line, '\n', "", tag);
    assert before + line + ['\n'] + "" == before + line + "\n";
  }

  /**
   * Every message sent is one of the conversation's own, its calls spelled as the model would
   * have, or a message of results that opens no call: nothing a tool returned can be read back
   * as a call.
   */
  lemma {:induction false} ResultsAreInert(table: Table, messages: seq<Message>, names: Names, results: string)
    requires !Has(results, OPEN) && !Has(results, CLOSE)
    requires results != "" ==> results[|results| - 1] == '\n'
    ensures Accounted(table, messages, Rewrite(table, messages, names, results))
    decreases |messages|
  {
    hide IsOwn, Accounted, Flushed, RewriteMessage, Has, ResultsText, NamesAfter;
    if messages != [] {
      var message, rest := messages[0], messages[1..];
      if message.role.Tool? {
        JoinedResults(table, names, message.parts, results);
        var more := results + ResultsText(table, names, message.parts);
        ResultsAreInert(table, rest, names, more);
        assert Rewrite(table, messages, names, results) == Rewrite(table, rest, names, more);
        AccountedInTail(table, messages, Rewrite(table, rest, names, more));
      } else {
        var after := if message.role.Assistant? then NamesAfter(names, message.parts) else names;
        NothingAtAll(OPEN);
        NothingAtAll(CLOSE);
        ResultsAreInert(table, rest, after, "");
        FrontAccounted(table, messages, results, Rewrite(table, rest, after, ""));
      }
    } else {
      FlushedIsInert(table, messages, results);
    }
  }

  ghost predicate Accounted(table: Table, messages: seq<Message>, out: seq<Message>) {
    forall k :: 0 <= k < |out| ==> Inert(out[k]) || IsOwn(table, messages, out[k])
  }

  lemma FlushedIsInert(table: Table, messages: seq<Message>, results: string)
    ensures !Has(results, OPEN) && !Has(results, CLOSE) ==> Accounted(table, messages, Flushed(results))
  {
  }

  lemma AccountedInTail(table: Table, messages: seq<Message>, out: seq<Message>)
    ensures messages != [] && Accounted(table, messages[1..], out) ==> Accounted(table, messages, out)
  {
    hide IsOwn, Inert;
    if messages != [] && Accounted(table, messages[1..], out) {
      OwnInTail(table, messages);
    }
  }

  lemma FrontAccounted(table: Table, messages: seq<Message>, results: string, tail: seq<Message>)
    requires messages != [] && !messages[0].role.Tool? && Accounted(table, messages[1..], tail)
    requires !Has(results, OPEN) && !Has(results, CLOSE)
    ensures Accounted(table, messages, Flushed(results) + [RewriteMessage(table, messages[0])] + tail)
  {
    OwnHead(table, messages);
    FlushedIsInert(table, messages, results);
    AccountedInTail(table, messages, tail);
    hide IsOwn, Inert, Flushed, RewriteMessage;
  }

  /** One of the conversation's own messages, as it is sent. */
  ghost predicate IsOwn(table: Table, messages: seq<Message>, sent: Message) {
    exists j :: 0 <= j < |messages| && !messages[j].role.Tool? && sent == RewriteMessage(table, messages[j])
  }

  lemma OwnHead(table: Table, messages: seq<Message>)
    ensures messages != [] && !messages[0].role.Tool? ==> IsOwn(table, messages, RewriteMessage(table, messages[0]))
  {
  }

  lemma OwnInTail(table: Table, messages: seq<Message>)
    ensures messages != [] ==> forall m :: IsOwn(table, messages[1..], m) ==> IsOwn(table, messages, m)
  {
    if messages != [] {
      var rest := messages[1..];
      assert forall j :: 0 <= j < |rest| ==> rest[j] == messages[j + 1];
    }
  }

  lemma JoinedResults(table: Table, names: Names, parts: seq<Part>, results: string)
    requires !Has(results, OPEN) && !Has(results, CLOSE)
    requires results != "" ==> results[|results| - 1] == '\n'
    ensures var s := results + ResultsText(table, names, parts);
            !Has(s, OPEN) && !Has(s, CLOSE) && (s != "" ==> s[|s| - 1] == '\n')
  {
    var more := ResultsText(table, names, parts);
    TagCharacters(OPEN);
    TagCharacters(CLOSE);
    ResultsHoldNoCall(table, names, parts, OPEN);
    ResultsHoldNoCall(table, names, parts, CLOSE);
    LinesHoldNone(results, more, OPEN);
    LinesHoldNone(results, more, CLOSE);
  }

  /** `valid` is json.Valid. */
  ghost predicate Checks(valid: string -> bool) {
    forall s :: valid(s) <==> IsJson(s)
  }

  /** rewriteToolTranscript */
  method RewriteToolTranscript(table: Table, messages: seq<Message>, valid: string -> bool) returns (out: seq<Message>)
    requires Checks(valid)
    ensures out == Rewrite(table, messages, map[], "")
  {
    hide Checks, Rewrite, RewriteMessage, NamesAfter, ResultsText, ResultText, Flushed;
    out := [];
    var results := "";
    var names: Names := map[];
    ghost var whole := Rewrite(table, messages, map[], "");
    assert messages[0..] == messages;
    for i := 0 to |messages|
      invariant out + Rewrite(table, messages[i..], names, results) == whole
    {
      var message := messages[i];
      RewritesNext(table, messages, i, names, results);
      if message.role.Tool? {
        var more := WriteResults(table, names, message.parts);
        results := results + more;
        continue;
      }
      ghost var before, waiting := out, Flushed(results);
      FlushedIs(results);
      if results != "" {
        out := out + [Message(User, [Text(results)])];
        results := "";
      }
      if message.role.Assistant? {
        var parts;
        parts, names := WriteCalls(table, names, message, valid);
        message := Message(Assistant, parts);
      } else {
        OthersAreKept(table, message);
      }
      assert message == RewriteMessage(table, messages[i]);
      SentInOrder(before, waiting, message, Rewrite(table, messages[i + 1..], names, results));
      out := out + [message];
    }
    RewritesNone(table, names, results);
    assert messages[|messages|..] == [];
    FlushedIs(results);
    if results != "" {
      out := out + [Message(User, [Text(results)])];
    }
  }

  lemma FlushedIs(results: string)
    ensures Flushed(results) == if results == "" then [] else [Message(User, [Text(results)])]
  {
  }

  lemma SentInOrder(before: seq<Message>, waiting: seq<Message>, message: Message, rest: seq<Message>)
    ensures before + (waiting + [message] + rest) == ((before + waiting) + [message]) + rest
  {
  }

  lemma RewritesNext(table: Table, messages: seq<Message>, i: nat, names: Names, results: string)
    ensures i < |messages| ==>
              var message := messages[i];
              Rewrite(table, messages[i..], names, results) ==
              if message.role.Tool? then
                Rewrite(table, messages[i + 1..], names, results + ResultsText(table, names, message.parts))
              else
                Flushed(results) + [RewriteMessage(table, message)] +
                Rewrite(table, messages[i + 1..],
                        if message.role.Assistant? then NamesAfter(names, message.parts) else names, "")
  {
    if i < |messages| {
      assert messages[i..][1..] == messages[i + 1..];
    }
  }

  lemma RewritesNone(table: Table, names: Names, results: string)
    ensures Rewrite(table, [], names, results) == Flushed(results)
  {
  }

  lemma OthersAreKept(table: Table, message: Message)
    ensures !message.role.Assistant? ==> RewriteMessage(table, message) == message
  {
  }

  /** One past call, as the block it is replayed in. */
  method WriteCall(table: Table, name: string, arguments: string, valid: string -> bool) returns (text: string)
    requires Checks(valid)
    ensures text == SerializeCall(table, name, arguments)
  {
    hide IsJson, CallBody, Blank;
    var sendable := if Blank(arguments) || !valid(arguments) then "{}" else arguments;
    text := OPEN + CallBody(table, name, sendable) + CLOSE;
  }

  lemma CallsAreRewritten(table: Table, part: Part)
    ensures RewritePart(table, part) ==
            if part.Calling? && part.name != "" then Text(SerializeCall(table, part.name, part.arguments)) else part
  {
    hide SerializeCall;
  }

  /** The same parts, rewritten one by one. */
  ghost predicate RewritesParts(table: Table, parts: seq<Part>, sent: seq<Part>) {
    |sent| == |parts| && forall i :: 0 <= i < |parts| ==> sent[i] == RewritePart(table, parts[i])
  }

  lemma OnePartMore(table: Table, names: Names, parts: seq<Part>, k: nat, sent: seq<Part>)
    requires k < |parts| && RewritesParts(table, parts[..k], sent)
    ensures RewritesParts(table, parts[..k + 1], sent + [RewritePart(table, parts[k])])
    ensures NamesAfter(names, parts[..k + 1]) ==
            (var before := NamesAfter(names, parts[..k]);
             if parts[k].Calling? && parts[k].name != "" && parts[k].id != "" then before[parts[k].id := parts[k].name]
             else before)
  {
    hide RewritePart;
    assert parts[..k + 1][..k] == parts[..k];
  }

  lemma AllPartsRewritten(table: Table, message: Message, sent: seq<Part>)
    ensures message.role.Assistant? && RewritesParts(table, message.parts, sent) ==>
              Message(Assistant, sent) == RewriteMessage(table, message)
  {
    hide RewritePart;
  }

  method WriteCalls(table: Table, known: Names, message: Message, valid: string -> bool)
    returns (parts: seq<Part>, names: Names)
    requires message.role.Assistant? && Checks(valid)
    ensures Message(Assistant, parts) == RewriteMessage(table, message)
    ensures names == NamesAfter(known, message.parts)
  {
    hide RewritePart, SerializeCall, RewriteMessage, RewritesParts, Checks, NamesAfter;
    parts, names := [], known;
    NoPartsYet(table, known);
    assert message.parts[..0] == [];
    for k := 0 to |message.parts|
      invariant RewritesParts(table, message.parts[..k], parts)
      invariant names == NamesAfter(known, message.parts[..k])
    {
      var part := message.parts[k];
      OnePartMore(table, known, message.parts, k, parts);
      CallsAreRewritten(table, part);
      if part.Calling? && part.name != "" {
        if part.id != "" {
          names := names[part.id := part.name];
        }
        var text := WriteCall(table, part.name, part.arguments, valid);
        parts := parts + [Text(text)];
        continue;
      }
      parts := parts + [part];
    }
    assert message.parts[..|message.parts|] == message.parts;
    AllPartsRewritten(table, message, parts);
  }

  lemma NoPartsYet(table: Table, names: Names)
    ensures RewritesParts(table, [], []) && NamesAfter(names, []) == names
  {
  }

  method WriteResults(table: Table, names: Names, parts: seq<Part>) returns (text: string)
    ensures text == ResultsText(table, names, parts)
  {
    text := "";
    for k := 0 to |parts|
      invariant text == ResultsText(table, names, parts[..k])
    {
      assert parts[..k + 1][..k] == parts[..k];
      if !parts[k].Result? {
        continue;
      }
      var content := parts[k].content;
      if parts[k].isError {
        content := "[tool_error]\n" + content;
      }
      var name := if parts[k].id in names then names[parts[k].id] else "";
      text := text + (ResultBlock(table, name, content) + "\n");
    }
    assert parts[..|parts|] == parts;
  }

  // --- what is written is what is read -----------------------------------------------------------------

  /** A JSON object, as text that begins and ends with its braces. */
  ghost predicate IsObject(s: string) {
    exists members :: MembersGrammatical(members) && s == Print(Object(members))
  }

  /**
   * The JSON decoder does its part on a block spelled as `CallBody` spells one: it reads the
   * name's string and the argument object, and refuses a name that is no JSON string or is empty,
   * and a block that nests too deep.
   */
  ghost predicate Decodes(read: string -> Option<(string, string)>, table: Table) {
    forall name, before, arguments, after :: IsObject(arguments) && IsWs(before) && IsWs(after) ==>
      var body := QuoteBody(table, NeutralizeTags(name));
      var block := CallBody(table, name, before + arguments + after);
      read(block) ==
      if IsBody(body) && Decode(body) != "" && Deepest(block) <= MAX_DEPTH then Some((Decode(body), arguments))
      else None
  }

  // --- such a decoder exists -----------------------------------------------------------------

  /** A string whose body is quoted ends at its first quote that is not escaped. */
  lemma QuotesEndOnce(a: string, more: string, b: string, rest: string)
    requires Within(a) && Within(b) && a + "\"" + more == b + "\"" + rest
    ensures a == b
  {
    if |a| < |b| {
      EndsHere(a, more, b, rest);
      assert false;
    } else if |b| < |a| {
      EndsHere(b, rest, a, more);
      assert false;
    }
    assert (a + "\"" + more)[..|a|] == a && (b + "\"" + rest)[..|b|] == b;
  }

  lemma EndsHere(a: string, more: string, b: string, rest: string)
    requires Within(a) && |a| < |b| && a + "\"" + more == b + "\"" + rest
    ensures !Within(b)
  {
    var s := a + "\"" + more;
    assert a[..|a|] == a;
    assert b[..|a| + 1] == s[..|a| + 1] == (b + "\"" + rest)[..|a| + 1];
    assert s[..|a| + 1] == a + "\"";
    assert (a + "\"")[..|a|] == a;
    assert LexOver(WITHIN, b[..|a| + 1]) == LexStep(WITHIN, '"');
  }

  /** Text between white space is told from it by where it starts and ends. */
  lemma BetweenWs(a: string, b: string, c: string, d: string, e: string, f: string)
    requires IsWs(a) && IsWs(c) && IsWs(d) && IsWs(f) && IsObject(b) && IsObject(e)
    requires a + b + c == d + e + f
    ensures b == e
  {
    ObjectEnds(b);
    ObjectEnds(e);
    hide IsObject;
    var s := a + b + c;
    assert s[|a|] == '{' && s[|a| + |b| - 1] == '}';
    assert s == d + e + f;
    assert s[|d|] == '{' && s[|d| + |e| - 1] == '}';
    assert |a| == |d| by {
      assert forall i :: 0 <= i < |a| ==> s[i] == a[i];
      assert forall i :: 0 <= i < |d| ==> s[i] == d[i];
    }
    assert |a| + |b| == |d| + |e| by {
      assert forall i :: |a| + |b| <= i < |s| ==> s[i] == c[i - |a| - |b|];
      assert forall i :: |d| + |e| <= i < |s| ==> s[i] == f[i - |d| - |e|];
    }
    assert b == s[|a|..|a| + |b|] == e;
  }

  lemma ObjectEnds(s: string)
    ensures IsObject(s) ==> |s| >= 2 && s[0] == '{' && s[|s| - 1] == '}'
  {
    if IsObject(s) {
      var members :| MembersGrammatical(members) && s == Print(Object(members));
    }
  }

  /** A block spelled as `CallBody` spells one, and what of it is to be read. */
  datatype Spelling = Spelling(name: string, before: string, arguments: string, after: string)

  ghost predicate IsSpelling(table: Table, body: string, p: Spelling) {
    IsObject(p.arguments) && IsWs(p.before) && IsWs(p.after) &&
    body == CallBody(table, p.name, p.before + p.arguments + p.after)
  }

  lemma SpelledOneWay(table: Table, body: string, p: Spelling, q: Spelling)
    requires IsSpelling(table, body, p) && IsSpelling(table, body, q)
    ensures QuoteBody(table, NeutralizeTags(p.name)) == QuoteBody(table, NeutralizeTags(q.name))
    ensures p.arguments == q.arguments
  {
    hide IsObject, IsWs, Within, NAME_LABEL, ARGUMENTS_LABEL, CALL_END, NeutralizeTags, QuoteBody;
    var a, b := QuoteBody(table, NeutralizeTags(p.name)), QuoteBody(table, NeutralizeTags(q.name));
    var v, w := p.before + p.arguments + p.after, q.before + q.arguments + q.after;
    QuotedIsWithin(table, NeutralizeTags(p.name));
    QuotedIsWithin(table, NeutralizeTags(q.name));
    var front := NAME_LABEL + "\"";
    var vs, ws := ARGUMENTS_LABEL + v + CALL_END, ARGUMENTS_LABEL + w + CALL_END;
    assert body == front + (a + "\"" + vs) == front + (b + "\"" + ws);
    SameMiddle(front, a + "\"" + vs, b + "\"" + ws, "");
    QuotesEndOnce(a, vs, b, ws);
    SameMiddle(a + "\"", vs, ws, "");
    SameMiddle(ARGUMENTS_LABEL, v, w, CALL_END);
    BetweenWs(p.before, p.arguments, p.after, q.before, q.arguments, q.after);
  }

  lemma SameMiddle(front: string, a: string, b: string, back: string)
    requires front + a + back == front + b + back
    ensures a == b
  {
    var s := front + a + back;
    assert s[|front|..|s| - |back|] == a;
    assert (front + b + back)[|front|..|s| - |back|] == b;
  }

  ghost function Reads(table: Table, body: string): Option<(string, string)> {
    if exists p :: IsSpelling(table, body, p) then
      var p :| IsSpelling(table, body, p);
      var name := QuoteBody(table, NeutralizeTags(p.name));
      if IsBody(name) && Decode(name) != "" && Deepest(body) <= MAX_DEPTH then Some((Decode(name), p.arguments))
      else None
    else None
  }

  /** What is asked of the JSON reader can be met. */
  lemma ADecoderExists(table: Table)
    ensures exists read :: Decodes(read, table)
  {
    var read := (body: string) => Reads(table, body);
    forall name, before, arguments, after | IsObject(arguments) && IsWs(before) && IsWs(after)
      ensures var body := QuoteBody(table, NeutralizeTags(name));
              var block := CallBody(table, name, before + arguments + after);
              read(block) ==
              if IsBody(body) && Decode(body) != "" && Deepest(block) <= MAX_DEPTH then Some((Decode(body), arguments))
              else None
    {
      hide IsObject, IsWs, CallBody, NeutralizeTags, QuoteBody, IsBody, Decode, Deepest;
      var body, mine := CallBody(table, name, before + arguments + after), Spelling(name, before, arguments, after);
      assert IsSpelling(table, body, mine);
      forall p | IsSpelling(table, body, p)
        ensures QuoteBody(table, NeutralizeTags(p.name)) == QuoteBody(table, NeutralizeTags(name))
        ensures p.arguments == arguments
      {
        SpelledOneWay(table, body, p, mine);
      }
    }
    assert Decodes(read, table);
  }

  // --- and with it the round trip holds ------------------------------------------------------

  lemma ObjectIsSendable(before: string, arguments: string, after: string)
    requires IsObject(arguments) && IsWs(before) && IsWs(after) && Deepest(before + arguments + after) <= MAX_DEPTH
    ensures Sendable(before + arguments + after) == before + arguments + after
    ensures Quiet(before + arguments + after)
  {
    var s := before + arguments + after;
    var members :| MembersGrammatical(members) && arguments == Print(Object(members));
    assert Spells(s, before, Object(members), after);
    Visible(s, |before|) by {
      assert s[|before|] == arguments[0] == '{';
    }
    hide Spells, IsJson, Blank, Quiet, LexOver, PrintMembers, Deepest;
    ValueIsQuiet(Object(members));
    BareIsQuiet(before);
    BareIsQuiet(after);
    QuietJoin(before, arguments);
    QuietJoin(before + arguments, after);
  }

  lemma Visible(s: string, k: nat)
    ensures k < |s| && s[k] == '{' ==> !Blank(s)
  {
  }

  lemma QuietLabel(before: string, key: string, after: string)
    requires Bare(before) && IsBody(key) && Bare(after)
    ensures Quiet(before + ("\"" + key + "\"") + after)
  {
    hide Quiet;
    BareIsQuiet(before);
    StringIsQuiet(key);
    BareIsQuiet(after);
    QuietJoin(before, "\"" + key + "\"");
    QuietJoin(before + ("\"" + key + "\""), after);
  }

  lemma CallBodyIsQuiet(table: Table, name: string, arguments: string)
    requires Quiet(arguments)
    ensures Quiet(CallBody(table, name, arguments))
  {
    hide Quiet, Within, LexOver, NAME_LABEL, ARGUMENTS_LABEL, NeutralizeTags, QuoteBody;
    QuotedIsWithin(table, NeutralizeTags(name));
    WithinIsQuiet(QuoteBody(table, NeutralizeTags(name)));
    NameLabelIsQuiet();
    ArgumentsLabelIsQuiet();
    BareIsQuiet(CALL_END);
    var quoted := Quote(table, NeutralizeTags(name));
    QuietJoin(NAME_LABEL, quoted);
    QuietJoin(NAME_LABEL + quoted, ARGUMENTS_LABEL);
    QuietJoin(NAME_LABEL + quoted + ARGUMENTS_LABEL, arguments);
    QuietJoin(NAME_LABEL + quoted + ARGUMENTS_LABEL + arguments, CALL_END);
  }

  lemma NameLabelIsQuiet()
    ensures Quiet(NAME_LABEL)
  {
    hide Quiet;
    AsciiBody("name");
    QuietLabel("\n{", "name", ":");
  }

  lemma ArgumentsLabelIsQuiet()
    ensures Quiet(ARGUMENTS_LABEL)
  {
    hide Quiet;
    AsciiBody("arguments");
    QuietLabel(",", "arguments", ":");
  }

  lemma {:induction false} AsciiBody(s: string)
    requires forall i :: 0 <= i < |s| ==> 'a' <= s[i] <= 'z'
    ensures IsBody(s)
  {
    if s != "" {
      AsciiBody(s[1..]);
    }
  }

  /** The block nests its arguments in an object of its own. */
  lemma CallBodyNests(table: Table, name: string, arguments: string)
    ensures Deepest(CallBody(table, name, arguments)) == 1 + Deepest(arguments)
  {
    hide NestOver, Within, NAME_LABEL, ARGUMENTS_LABEL, QuoteBody, NeutralizeTags, LexStep;
    var quoted := QuoteBody(table, NeutralizeTags(name));
    QuotedIsWithin(table, NeutralizeTags(name));
    FrontNests(quoted);
    var n, front := Nest(OUTSIDE, 0, 0), NAME_LABEL + ("\"" + quoted + "\"") + ARGUMENTS_LABEL;
    NestOverJoin(n, front, arguments);
    NestsDeeper(n, arguments, 1);
    NestOverChar(n, front + arguments, '}');
    NestOverChar(n, front + arguments + "}", '\n');
    assert front + arguments + "}" + "\n" == CallBody(table, name, arguments);
  }

  lemma FrontNests(quoted: string)
    requires Within(quoted)
    ensures NestOver(Nest(OUTSIDE, 0, 0), NAME_LABEL + ("\"" + quoted + "\"") + ARGUMENTS_LABEL) == Nest(OUTSIDE, 1, 1)
  {
    hide NestOver, Within;
    var n, one := Nest(OUTSIDE, 0, 0), Nest(OUTSIDE, 1, 1);
    NestOverNothing(n);
    NestOverChar(n, "", '\n');
    NestOverChar(n, "\n", '{');
    LabelNestsNothing("name");
    LabelNestsNothing("arguments");
    StringNestsNothing(one, quoted);
    var begun := "\n{" + ("\"" + "name" + "\"" + ":");
    NestOverJoin(n, "\n{", "\"" + "name" + "\"" + ":");
    NestOverJoin(n, begun, "\"" + quoted + "\"");
    NestOverChar(n, begun + ("\"" + quoted + "\""), ',');
    NestOverJoin(n, begun + ("\"" + quoted + "\"") + ",", "\"" + "arguments" + "\"" + ":");
    assert "" + "\n" == "\n" && "\n" + "{" == "\n{" && begun == NAME_LABEL;
    assert begun + ("\"" + quoted + "\"") + "," + ("\"" + "arguments" + "\"" + ":") ==
           NAME_LABEL + ("\"" + quoted + "\"") + ARGUMENTS_LABEL;
  }

  lemma LabelNestsNothing(key: string)
    requires forall i :: 0 <= i < |key| ==> 'a' <= key[i] <= 'z'
    ensures NestOver(Nest(OUTSIDE, 1, 1), "\"" + key + "\"" + ":") == Nest(OUTSIDE, 1, 1)
  {
    hide NestOver, Within;
    AsciiBody(key);
    BodyIsWithin(key);
    StringNestsNothing(Nest(OUTSIDE, 1, 1), key);
    NestOverChar(Nest(OUTSIDE, 1, 1), "\"" + key + "\"", ':');
  }

  /** What is read back: a name that JSON reads as Go quotes it, and room for one more level of nesting. */
  predicate IsReadBack(table: Table, name: string, written: string) {
    AllAgree(table, name) && Deepest(written) < MAX_DEPTH
  }

  /**
   * A call written the way a past call is replayed, with more text behind it, is read back as
   * exactly that call if and only if JSON can read the quoting of its name and its arguments do
   * not nest as deep as JSON may. Otherwise the block still ends where it was written to end, and
   * all of it is prose.
   */
  lemma RoundTrip(lesson: Lesson, table: Table, calls: nat, name: string,
                  before: string, arguments: string, after: string, rest: string)
    requires lesson.parse && name in lesson.offered && name != "" && Decodes(lesson.read, table)
    requires forall tag | IsTag(tag) :: !Has(name, tag)
    requires IsObject(arguments) && IsWs(before) && IsWs(after) && Deepest(before + arguments + after) <= MAX_DEPTH
    ensures var written := before + arguments + after;
            var text := SerializeCall(table, name, written);
            Read(lesson, calls, false, text + rest) ==
            if IsReadBack(table, name, written) then
              Behind([Called(CallBody(table, name, written), true, Call(calls + 1, name, arguments))],
                     Read(lesson, calls + 1, false, rest))
            else Behind(Chars(text), Read(lesson, calls, false, rest))
  {
    hide Read, IsReadBack, IsObject, Decodes, CallBody, Sendable, Quiet, Has, Deepest;
    var written := before + arguments + after;
    var body := CallBody(table, name, written);
    DecodesWritten(lesson, table, name, before, arguments, after);
    ObjectIsSendable(before, arguments, after);
    CallBodyIsQuiet(table, name, written);
    CallBodyBegins(table, name, written);
    ReadsQuietBlock(lesson, calls, body, rest);
    assert SerializeCall(table, name, written) == OPEN + body + CLOSE;
  }

  /** Alone in an answer, however the answer is cut into deltas. */
  lemma RoundTripInChunks(lesson: Lesson, table: Table, name: string,
                          before: string, arguments: string, after: string, texts: seq<string>)
    requires lesson.parse && name in lesson.offered && name != "" && Decodes(lesson.read, table)
    requires forall tag | IsTag(tag) :: !Has(name, tag)
    requires IsObject(arguments) && IsWs(before) && IsWs(after) && Deepest(before + arguments + after) <= MAX_DEPTH
    requires Joined(texts) == SerializeCall(table, name, before + arguments + after)
    ensures var written := before + arguments + after;
            var r := ReadDeltas(lesson, FRESH, texts);
            r.trace + Finish(lesson, r.calls, r.inside, r.pending) ==
            if IsReadBack(table, name, written) then
              [Called(CallBody(table, name, written), true, Call(1, name, arguments))]
            else Chars(Joined(texts))
  {
    hide Read, IsReadBack, IsObject, Decodes, CallBody, SerializeCall, Has, IsTag, IsWs, Finish, Chars, ReadAll,
         ReadDeltas, Joined, Deepest;
    var written := before + arguments + after;
    ChunksDoNotMatter(lesson, texts);
    RoundTrip(lesson, table, 0, name, before, arguments, after, "");
    if IsReadBack(table, name, written) {
      NothingBehind(lesson, Joined(texts), [Called(CallBody(table, name, written), true, Call(1, name, arguments))], 1);
    } else {
      NothingBehind(lesson, Joined(texts), Chars(Joined(texts)), 0);
    }
  }

  lemma NothingBehind(lesson: Lesson, text: string, front: Trace, calls: nat)
    requires Read(lesson, 0, false, text + "") == Behind(front, Read(lesson, calls, false, ""))
    ensures ReadAll(lesson, text) == front
  {
    assert Read(lesson, calls, false, "") == Reader([], calls, false, "");
    assert Finish(lesson, calls, false, "") == [];
    hide Read, Finish;
    assert text + "" == text;
    assert front + [] == front;
  }

  /** A tool named by the bell character is one: its replayed call is read as text. */
  lemma ABellIsNotReadBack(lesson: Lesson, table: Table, calls: nat, rest: string)
    requires lesson.parse && "\U{7}" in lesson.offered && Decodes(lesson.read, table)
    ensures var text := SerializeCall(table, "\U{7}", "{}");
            Read(lesson, calls, false, text + rest) == Behind(Chars(text), Read(lesson, calls, false, rest))
  {
    hide Read, Decodes, SerializeCall;
    assert forall tag | IsTag(tag) :: !Has("\U{7}", tag) by {
      forall tag | IsTag(tag) ensures !Has("\U{7}", tag) { TagShape(tag); }
    }
    assert !AllAgree(table, "\U{7}") by { assert !Agrees(table, "\U{7}"[0]); }
    DeepNests(1);
    assert "" + "{}" + "" == "{}" == Print(Object(Deep(1)));
    RoundTrip(lesson, table, calls, "\U{7}", "", "{}", "", rest);
  }

  /** Arguments may nest just as deep as JSON may: they are sent as they are, and their call is read as text. */
  lemma ADeepCallIsNotReadBack(lesson: Lesson, table: Table, calls: nat, name: string, rest: string)
    requires lesson.parse && name in lesson.offered && name != "" && Decodes(lesson.read, table)
    requires forall tag | IsTag(tag) :: !Has(name, tag)
    ensures var arguments := Print(Object(Deep(MAX_DEPTH)));
            var text := SerializeCall(table, name, arguments);
            Sendable(arguments) == arguments &&
            Read(lesson, calls, false, text + rest) == Behind(Chars(text), Read(lesson, calls, false, rest))
  {
    hide Read, Decodes, SerializeCall, Print, Deep, NestOver, Sendable, AllAgree;
    DeepNests(MAX_DEPTH);
    var arguments := Print(Object(Deep(MAX_DEPTH)));
    assert "" + arguments + "" == arguments;
    ObjectIsSendable("", arguments, "");
    RoundTrip(lesson, table, calls, name, "", arguments, "", rest);
  }

  lemma DecodesWritten(lesson: Lesson, table: Table, name: string, before: string, arguments: string, after: string)
    requires name != "" && Decodes(lesson.read, table)
    requires forall tag | IsTag(tag) :: !Has(name, tag)
    requires IsObject(arguments) && IsWs(before) && IsWs(after)
    ensures lesson.read(CallBody(table, name, before + arguments + after)) ==
            if IsReadBack(table, name, before + arguments + after) then Some((name, arguments)) else None
  {
    hide IsObject, IsWs, CallBody, AllAgree, Has, Deepest;
    CallBodyNests(table, name, before + arguments + after);
    TagFreeIsUnchanged(name);
    QuoteIsJson(table, name);
  }

  lemma CallBodyBegins(table: Table, name: string, arguments: string)
    ensures var body := CallBody(table, name, arguments);
            |body| > 1 && body[0] == '\n' && body[1] == '{'
  {
    var body := CallBody(table, name, arguments);
    assert body[0] == NAME_LABEL[0] && body[1] == NAME_LABEL[1];
  }

  lemma ReadsQuietBlock(lesson: Lesson, calls: nat, body: string, rest: string)
    requires Quiet(body) && |body| > 1 && body[0] == '\n' && body[1] == '{'
    ensures Read(lesson, calls, false, OPEN + body + CLOSE + rest)
            == Behind(BlockTrace(lesson, calls, body), Read(lesson, CallsAfter(lesson, calls, body), false, rest))
  {
    hide Read, Quiet, Decide, BlockTrace, CallsAfter, Behind;
    var block := body + CLOSE + rest;
    var text := OPEN + body + CLOSE + rest;
    OpensBlock(lesson, calls, body, rest);
    var nothing: Trace := [];
    ReadTurns(lesson, nothing, calls, false, text);
    assert nothing + nothing == nothing;
    ClosesBlock(lesson, calls, body, rest);
    ReadTurns(lesson, [], calls, true, block);
    BehindNothing(Read(lesson, calls, false, text));
    assert [] + BlockTrace(lesson, calls, body) == BlockTrace(lesson, calls, body);
  }

  lemma BehindNothing(r: Reader)
    ensures Behind([], r) == r
  {
  }

  lemma OpensBlock(lesson: Lesson, calls: nat, body: string, rest: string)
    ensures Decide(lesson, calls, false, OPEN + body + CLOSE + rest) == Go([], calls, true, body + CLOSE + rest)
  {
    hide CloseIndex, MayBeACall;
    var block := body + CLOSE + rest;
    var text := OPEN + body + CLOSE + rest;
    assert text == OPEN + block;
    assert text[0..|OPEN|] == OPEN;
    FirstIsIndex(text, OPEN, 0);
    assert text[|OPEN|..] == block && text[..0] == "" && Chars("") == [];
  }

  lemma ClosesBlock(lesson: Lesson, calls: nat, body: string, rest: string)
    requires Quiet(body) && |body| > 1 && body[0] == '\n' && body[1] == '{'
    ensures Decide(lesson, calls, true, body + CLOSE + rest)
            == Go(BlockTrace(lesson, calls, body), CallsAfter(lesson, calls, body), false, rest)
  {
    hide CloseIndex, MayBeACall, Quiet, BlockTrace, CallsAfter;
    var block := body + CLOSE + rest;
    BeginsAnObject(block);
    QuietCloses(body, rest);
    assert block[..|body|] == body && block[|body| + |CLOSE|..] == rest;
  }

  lemma BeginsAnObject(block: string)
    requires |block| > 1 && block[0] == '\n' && block[1] == '{'
    ensures MayBeACall(block)
  {
    hide TrimRight, FENCE;
    assert TrimLeft(block) == TrimLeft(block[1..]) == block[1..];
    TrimKeeps(block, 1);
    var trimmed := TrimSpace(block);
    assert trimmed == TrimRight(block[1..]);
    assert trimmed == block[1..][..|trimmed|];
    assert trimmed[0] == '{';
  }
}
