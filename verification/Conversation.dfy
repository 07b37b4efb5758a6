/** The loops that check a transcript and build a request's turns from it. */
module Conversation {
  import opened Text
  import opened Transcript

  lemma {:induction false} RefusedStays(messages: seq<Message>, k: nat, valid: string -> bool)
    requires k <= |messages| && TakeAll(messages[..k], valid).None?
    ensures TakeAll(messages, valid).None?
    decreases |messages| - k
  {
    hide Take;
    if k == |messages| {
      assert messages[..k] == messages;
    } else {
      assert messages[..k + 1][..k] == messages[..k];
      RefusedStays(messages, k + 1, valid);
    }
  }

  /** Takes each of a message's calls in turn, as long as none is refused. */
  method TakeCalls(calls: seq<Call>, seen: set<string>, valid: string -> bool)
    returns (ok: bool, ids: set<string>, parts: seq<Part>)
    ensures ok <==> CallsOk(calls, seen, valid)
    ensures ok ==> ids == Names(Ids(calls)) && parts == CallParts(calls)
  {
    hide CallsOk, Ids, CallParts, Names;
    ok, ids, parts := true, {}, [];
    NoCalls(seen, valid);
    assert calls[..0] == [];
    for i := 0 to |calls|
      invariant CallsOk(calls[..i], seen, valid)
      invariant ids == Names(Ids(calls[..i])) && parts == CallParts(calls[..i])
    {
      var call := calls[i];
      OneCallMore(calls, i, seen, valid);
      if call.id == "" || |call.id| > MAX_ID || call.id in seen + ids || call.name != TOOL || !valid(call.arguments) {
        RefusedCallStays(calls, i + 1, seen, valid);
        return false, {}, [];
      }
      ids := ids + {call.id};
      parts := parts + [CallOf(call)];
    }
    assert calls[..|calls|] == calls;
  }

  lemma NoCalls(seen: set<string>, valid: string -> bool)
    ensures CallsOk([], seen, valid) && Names(Ids([])) == {} && CallParts([]) == []
  {
  }

  lemma OneCallMore(calls: seq<Call>, i: nat, seen: set<string>, valid: string -> bool)
    requires i < |calls|
    ensures var front := calls[..i];
            (CallsOk(calls[..i + 1], seen, valid) <==>
              CallsOk(front, seen, valid) && CallOk(calls[i], seen + Names(Ids(front)), valid)) &&
            Names(Ids(calls[..i + 1])) == Names(Ids(front)) + {calls[i].id} &&
            CallParts(calls[..i + 1]) == CallParts(front) + [CallOf(calls[i])]
  {
    hide CallOk;
    assert calls[..i + 1][..i] == calls[..i] && calls[..i + 1][i] == calls[i];
    NamesJoin(Ids(calls[..i]), [calls[i].id]);
  }

  lemma {:induction false} RefusedCallStays(calls: seq<Call>, k: nat, seen: set<string>, valid: string -> bool)
    requires k <= |calls| && !CallsOk(calls[..k], seen, valid)
    ensures !CallsOk(calls, seen, valid)
    decreases |calls| - k
  {
    hide CallOk;
    if k == |calls| {
      assert calls[..k] == calls;
    } else {
      assert calls[..k + 1][..k] == calls[..k];
      RefusedCallStays(calls, k + 1, seen, valid);
    }
  }

  method TakeMessage(w: Walk, m: Message, valid: string -> bool) returns (next: Option<Walk>)
    ensures next == Take(w, m, valid)
  {
    hide CallsOk, Ids, CallParts, Names, Blank;
    if |m.content| > MAX_CONTENT {
      return None;
    }
    match m.role {
      case Other =>
        return None;
      case Tool =>
        if m.callId !in w.pending || m.calls != [] {
          return None;
        }
        return Some(Walk(w.pending - {m.callId}, w.seen, w.out + [Unified(Tool, [ResultOf(m.callId, m.content)])]));
      case _ =>
        if w.pending != {} || m.callId != "" {
          return None;
        }
        var parts := [];
        if m.content != "" {
          parts := parts + [TextOf(m.content)];
        }
        if m.role.User? && (m.calls != [] || Blank(m.content)) {
          return None;
        }
        if |m.calls| > MAX_CALLS {
          return None;
        }
        var ok, ids, calls := TakeCalls(m.calls, w.seen, valid);
        if !ok {
          return None;
        }
        assert parts == if m.content != "" then [TextOf(m.content)] else [];
        parts := parts + calls;
        if parts == [] {
          return None;
        }
        return Some(Walk(ids, w.seen + ids, w.out + [Unified(m.role, parts)]));
    }
  }

  method AssistantTranscript(messages: seq<Message>, valid: string -> bool) returns (out: Option<seq<Unified>>)
    ensures out == Accept(messages, valid)
  {
    hide Take;
    if |messages| == 0 || |messages| > MAX_MESSAGES || !messages[0].role.User? {
      return None;
    }
    var w := Walk({}, {}, []);
    for i := 0 to |messages|
      invariant TakeAll(messages[..i], valid) == Some(w)
    {
      assert messages[..i + 1][..i] == messages[..i];
      var next := TakeMessage(w, messages[i], valid);
      if next.None? {
        RefusedStays(messages, i + 1, valid);
        return None;
      }
      w := next.value;
    }
    assert messages[..|messages|] == messages;
    if w.pending != {} || messages[|messages| - 1].role.Assistant? {
      return None;
    }
    return Some(w.out);
  }

  method MessageBlocks(parts: seq<Part>, allowed: bool) returns (blocks: seq<Block>)
    ensures blocks == Blocks(parts, allowed)
  {
    var text, results, images, calls := "", [], [], [];
    for i := 0 to |parts|
      invariant text == JoinedText(parts[..i]) && results == Results(parts[..i])
      invariant images == Images(parts[..i], allowed) && calls == Uses(parts[..i])
    {
      var part := parts[i];
      assert parts[..i + 1][..i] == parts[..i];
      match part.kind {
        case TextPart => text := text + part.text;
        case ImagePart =>
          if allowed && part.data != "" { images := images + [ImageBlock(part.data, false)]; }
        case CallPart =>
          if part.name != "" { calls := calls + [UseBlock(part.id, part.name, part.arguments, false)]; }
        case ResultPart =>
          if part.id != "" { results := results + [ResultBlock(part.id, part.text, part.isError, false)]; }
        case OtherPart =>
      }
    }
    assert parts[..|parts|] == parts;
    blocks := results + (if text != "" then [TextBlock(text, false)] else []) + images + calls;
    if HasMarker(parts) {
      blocks := MarkedBlocks(parts, allowed);
    }
  }

  method MarkedBlocks(parts: seq<Part>, allowed: bool) returns (blocks: seq<Block>)
    ensures blocks == InPlace(parts, allowed)
  {
    blocks := [];
    for i := 0 to |parts|
      invariant blocks == InPlace(parts[..i], allowed)
    {
      var part := parts[i];
      assert parts[..i + 1][..i] == parts[..i];
      match part.kind {
        case TextPart => blocks := blocks + [TextBlock(part.text, part.marked)];
        case ImagePart =>
          if allowed && part.data != "" { blocks := blocks + [ImageBlock(part.data, part.marked)]; }
        case CallPart => blocks := blocks + [UseBlock(part.id, part.name, part.arguments, part.marked)];
        case ResultPart => blocks := blocks + [ResultBlock(part.id, part.text, part.isError, part.marked)];
        case OtherPart =>
      }
    }
    assert parts[..|parts|] == parts;
  }

  method KeepOthers(content: seq<Block>) returns (kept: seq<Block>)
    ensures kept == WithoutResults(content)
  {
    kept := [];
    for i := 0 to |content|
      invariant kept == WithoutResults(content[..i])
    {
      assert content[..i + 1][..i] == content[..i];
      if !content[i].ResultBlock? {
        kept := kept + [content[i]];
      }
    }
    assert content[..|content|] == content;
  }

  method BuildMessages(messages: seq<Unified>, allowed: bool) returns (out: seq<Turn>)
    ensures out == Build(messages, allowed)
  {
    hide Blocks, WithoutResults;
    out := [];
    for i := 0 to |messages|
      invariant out == Turns(messages[..i], allowed)
    {
      assert messages[..i + 1][..i] == messages[..i];
      var blocks := MessageBlocks(messages[i].parts, allowed);
      if |blocks| == 0 {
        continue;
      }
      var assistant := messages[i].role.Assistant?;
      var last := |out| - 1;
      if last >= 0 && out[last].assistant == assistant {
        out := out[..last] + [Turn(assistant, out[last].blocks + blocks)];
        continue;
      }
      out := out + [Turn(assistant, blocks)];
    }
    assert messages[..|messages|] == messages;
    while |out| > 0
      invariant Repair(out) == Build(messages, allowed)
      decreases |out|
    {
      if out[0].assistant {
        out := out[1..];
        continue;
      }
      var kept := KeepOthers(out[0].blocks);
      if |kept| == 0 {
        out := out[1..];
        continue;
      }
      out := [out[0].(blocks := kept)] + out[1..];
      return;
    }
  }
}
