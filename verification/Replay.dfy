/** The rewritten request message by message: which message each becomes, and what a result is called. */
module Replay {
  import opened Text
  import opened ToolPrompt
  import opened Json
  import opened ToolTranscript

  /** The names a conversation's calls leave behind. */
  function NamesIn(names: Names, messages: seq<Message>): Names
    decreases |messages|
  {
    if messages == [] then names
    else
      NamesIn(if messages[0].role.Assistant? then NamesAfter(names, messages[0].parts) else names, messages[1..])
  }

  /** A message somebody other than a tool said: as it was, but for the named calls of the assistant. */
  ghost predicate SaysAs(table: Table, m: Message, sent: Message) {
    sent.role == m.role && |sent.parts| == |m.parts| &&
    forall k :: 0 <= k < |m.parts| ==>
      var part := m.parts[k];
      sent.parts[k] ==
      if m.role.Assistant? && part.Calling? && part.name != ""
      then Text(OPEN + CallBody(table, part.name, Sendable(part.arguments)) + CLOSE) else part
  }

  /**
   * What one more message makes of `sent`, which ends with the results `was` if they say anything: a tool's
   * message adds its results to them, and any other message comes last, saying what it said.
   */
  ghost predicate Adds(table: Table, m: Message, names: Names, sent: seq<Message>, grown: seq<Message>,
                       front: seq<Message>, was: string) {
    sent == front + Flushed(was) &&
    if m.role.Tool? then grown == front + Flushed(was + ResultsText(table, names, m.parts))
    else |grown| == |sent| + 1 && grown[..|sent|] == sent && SaysAs(table, m, grown[|sent|])
  }

  /** What is sent, after one more message; only a message of the tools leaves results to add to. */
  lemma {:induction false} OneMoreMessage(table: Table, messages: seq<Message>, m: Message,
                                          names: Names, results: string)
    returns (front: seq<Message>, was: string)
    ensures Adds(table, m, NamesIn(names, messages), Rewrite(table, messages, names, results),
                 Rewrite(table, messages + [m], names, results), front, was)
    ensures messages == [] ==> was == results
    ensures messages != [] && !messages[|messages| - 1].role.Tool? ==> was == ""
    decreases |messages|
  {
    var all := messages + [m];
    if messages == [] {
      front, was := [], results;
      assert all == [m];
      LastMessage(table, m, names, results);
    } else {
      var message, rest := messages[0], messages[1..];
      assert all[0] == message && all[1..] == rest + [m];
      RewriteHead(table, messages, names, results);
      RewriteHead(table, all, names, results);
      hide Rewrite, RewriteMessage, NamesAfter, ResultsText, Flushed, Adds;
      if message.role.Tool? {
        front, was := OneMoreMessage(table, rest, m, names, results + ResultsText(table, names, message.parts));
      } else {
        var after := if message.role.Assistant? then NamesAfter(names, message.parts) else names;
        var head := Flushed(results) + [RewriteMessage(table, message)];
        front, was := OneMoreMessage(table, rest, m, after, "");
        Longer(table, m, NamesIn(after, rest), head, Rewrite(table, rest, after, ""),
               Rewrite(table, rest + [m], after, ""), front, was);
        front := head + front;
      }
    }
  }

  lemma RewriteHead(table: Table, messages: seq<Message>, names: Names, results: string)
    requires messages != []
    ensures var message, rest := messages[0], messages[1..];
            Rewrite(table, messages, names, results) ==
            if message.role.Tool? then Rewrite(table, rest, names, results + ResultsText(table, names, message.parts))
            else Flushed(results) + [RewriteMessage(table, message)] +
                 Rewrite(table, rest, if message.role.Assistant? then NamesAfter(names, message.parts) else names, "")
  {
  }

  lemma Longer(table: Table, m: Message, names: Names, head: seq<Message>, sent: seq<Message>, grown: seq<Message>,
               front: seq<Message>, was: string)
    requires Adds(table, m, names, sent, grown, front, was)
    ensures Adds(table, m, names, head + sent, head + grown, head + front, was)
  {
    hide Flushed, ResultsText, SaysAs;
    if m.role.Tool? {
      assert head + (front + Flushed(was + ResultsText(table, names, m.parts))) ==
             head + front + Flushed(was + ResultsText(table, names, m.parts));
    } else {
      assert (head + grown)[..|head + sent|] == head + sent;
    }
  }

  lemma LastMessage(table: Table, m: Message, names: Names, results: string)
    ensures Adds(table, m, names, Rewrite(table, [], names, results), Rewrite(table, [m], names, results), [], results)
  {
    assert [m][1..] == [];
    RewriteHead(table, [m], names, results);
    assert SaysAs(table, m, RewriteMessage(table, m));
    hide NamesAfter, ResultsText, RewriteMessage, SaysAs, Flushed;
    if m.role.Tool? {
      var more := Flushed(results + ResultsText(table, names, m.parts));
      assert [] + more == more;
    } else {
      assert Flushed(results) + [RewriteMessage(table, m)] + [] == Flushed(results) + [RewriteMessage(table, m)] by {
        FlushedNone();
      }
    }
  }

  lemma FlushedNone()
    ensures Flushed("") == []
  {
  }

  // --- what a result is called -------------------------------------------------------------------------

  predicate Calls(part: Part, id: string) {
    part.Calling? && part.name != "" && part.id != "" && part.id == id
  }

  lemma {:induction false} OthersDoNotName(names: Names, parts: seq<Part>, id: string)
    requires forall part :: part in parts ==> !Calls(part, id)
    ensures id in NamesAfter(names, parts) <==> id in names
    ensures id in names ==> NamesAfter(names, parts)[id] == names[id]
  {
    if parts != [] {
      assert parts[|parts| - 1] in parts && forall part :: part in parts[..|parts| - 1] ==> part in parts;
      OthersDoNotName(names, parts[..|parts| - 1], id);
    }
  }

  lemma {:induction false} PartsInTurn(names: Names, a: seq<Part>, b: seq<Part>)
    ensures NamesAfter(names, a + b) == NamesAfter(NamesAfter(names, a), b)
  {
    if b == [] {
      assert a + b == a;
    } else {
      assert (a + b)[..|a + b| - 1] == a + b[..|b| - 1];
      PartsInTurn(names, a, b[..|b| - 1]);
    }
  }

  predicate NeverCalls(messages: seq<Message>, id: string) {
    forall m :: m in messages && m.role.Assistant? ==> forall part :: part in m.parts ==> !Calls(part, id)
  }

  /** An id no call has used names nothing, and later messages do not rename one they do not use. */
  lemma {:induction false} NothingRenames(names: Names, messages: seq<Message>, id: string)
    requires NeverCalls(messages, id)
    ensures id in NamesIn(names, messages) <==> id in names
    ensures id in names ==> NamesIn(names, messages)[id] == names[id]
    decreases |messages|
  {
    if messages != [] {
      var message := messages[0];
      assert message in messages && forall m :: m in messages[1..] ==> m in messages;
      if message.role.Assistant? {
        OthersDoNotName(names, message.parts, id);
        NothingRenames(NamesAfter(names, message.parts), messages[1..], id);
      } else {
        NothingRenames(names, messages[1..], id);
      }
    }
  }

  lemma {:induction false} MessagesInTurn(names: Names, a: seq<Message>, b: seq<Message>)
    ensures NamesIn(names, a + b) == NamesIn(NamesIn(names, a), b)
    decreases |a|
  {
    hide NamesAfter;
    if a == [] {
      assert a + b == b;
    } else {
      assert (a + b)[1..] == a[1..] + b && (a + b)[0] == a[0];
      MessagesInTurn(if a[0].role.Assistant? then NamesAfter(names, a[0].parts) else names, a[1..], b);
    }
  }

  /** An id is named by the last call that used it, wherever in the conversation that was. */
  lemma NamedByItsLastCall(before: seq<Message>, m: Message, after: seq<Message>,
                           a: seq<Part>, call: Part, b: seq<Part>)
    requires m.role.Assistant? && m.parts == a + [call] + b && call.Calling? && Calls(call, call.id)
    requires NeverCalls(after, call.id) && forall part :: part in b ==> !Calls(part, call.id)
    ensures var names := NamesIn(map[], before + [m] + after); call.id in names && names[call.id] == call.name
  {
    var had := NamesIn(map[], before);
    MessagesInTurn(map[], before + [m], after);
    MessagesInTurn(map[], before, [m]);
    assert [m][1..] == [] && NamesIn(had, [m]) == NamesAfter(had, m.parts);
    PartsInTurn(had, a + [call], b);
    assert (a + [call])[..|a|] == a;
    OthersDoNotName(NamesAfter(had, a + [call]), b, call.id);
    NothingRenames(NamesAfter(had, m.parts), after, call.id);
  }

  // --- what a result says ---------------------------------------------------------------------------------

  /** A name quoting leaves alone. */
  predicate Plain(name: string) {
    forall k :: 0 <= k < |name| ==> ' ' <= name[k] <= '~' && name[k] != '"' && name[k] != '\\'
  }

  ghost predicate TagFree(s: string) {
    forall tag :: IsTag(tag) ==> !Has(s, tag)
  }

  lemma {:induction false} PlainIsQuoted(table: Table, name: string)
    requires Plain(name)
    ensures QuoteBody(table, name) == name
  {
    if name != "" {
      PlainIsQuoted(table, name[1..]);
      assert [name[0]] + name[1..] == name;
    }
  }

  lemma ErrorsAreTagFree(content: string)
    requires TagFree(content)
    ensures TagFree("[tool_error]\n" + content)
  {
    forall tag | IsTag(tag) ensures !Has("[tool_error]\n" + content, tag) {
      TagCharacters(tag);
      TagShape(tag);
      assert !Has("[tool_error]", tag) by {
        forall i ensures !At("[tool_error]", tag, i) {
          if 0 <= i && i + |tag| <= |"[tool_error]"| { assert "[tool_error]"[i..i + |tag|][0] == "[tool_error]"[i]; }
        }
      }
      Apart("[tool_error]", '\n', content, tag);
      assert "[tool_error]" + ['\n'] + content == "[tool_error]\n" + content;
    }
  }

  /** A result is written out whole under its call's name, an error as one, however little it says. */
  lemma AResultReads(table: Table, names: Names, id: string, content: string, isError: bool)
    requires TagFree(content)
    ensures var said := (if isError then "[tool_error]\n" else "") + content + "\n</tool_response>\n";
            var text := ResultText(table, names, Result(id, content, isError));
            ((id in names ==> names[id] == "") ==> text == "<tool_response>\n" + said) &&
            (id in names && names[id] != "" && Plain(names[id]) && TagFree(names[id]) ==>
               text == "<tool_response tool=\"" + names[id] + "\">\n" + said)
  {
    var whole := if isError then "[tool_error]\n" + content else content;
    var name := if id in names then names[id] else "";
    var opening := OpenResponseTag(table, name);
    ErrorsAreTagFree(content);
    TagFreeIsUnchanged(whole);
    OpeningReads(table, name);
    hide NeutralizeTags, TagFree, Plain, OpenResponseTag;
    InLines(opening, if isError then "[tool_error]\n" else "", content);
    assert (if isError then "[tool_error]\n" else "") + content == whole;
  }

  lemma OpeningReads(table: Table, name: string)
    ensures name == "" ==> OpenResponseTag(table, name) + "\n" == "<tool_response>\n"
    ensures name != "" && Plain(name) && TagFree(name) ==>
              OpenResponseTag(table, name) + "\n" == "<tool_response tool=\"" + name + "\">\n"
  {
    if name != "" && Plain(name) && TagFree(name) {
      TagFreeIsUnchanged(name);
      PlainIsQuoted(table, name);
    }
  }

  lemma InLines(opening: string, mark: string, content: string)
    ensures opening + "\n" + (mark + content) + "\n" + RESPONSE_CLOSE + "\n" ==
            (opening + "\n") + (mark + content + "\n</tool_response>\n")
  {
  }

  /** The results of one message follow each other, and its other parts say nothing. */
  lemma ResultsFollow(table: Table, names: Names, a: seq<Part>, part: Part, b: seq<Part>)
    ensures ResultsText(table, names, a + [part] + b) ==
            ResultsText(table, names, a) + (if part.Result? then ResultText(table, names, part) else "") +
            ResultsText(table, names, b)
    ensures ResultsText(table, names, []) == ""
  {
    ResultsJoin(table, names, a + [part], b);
    assert (a + [part])[..|a|] == a;
    hide ResultText;
  }

  lemma {:induction false} ResultsJoin(table: Table, names: Names, a: seq<Part>, b: seq<Part>)
    ensures ResultsText(table, names, a + b) == ResultsText(table, names, a) + ResultsText(table, names, b)
  {
    hide ResultText;
    if b == [] {
      assert a + b == a;
    } else {
      assert (a + b)[..|a + b| - 1] == a + b[..|b| - 1];
      ResultsJoin(table, names, a, b[..|b| - 1]);
    }
  }
}
