/** From the assistant's transcript, as a browser sends it, to the turns one protocol accepts. */
module Transcript {
  import opened Text

  // --- the transcript a browser sends -------------------------------------------------------------

  datatype Role = User | Assistant | Tool | Other

  datatype Call = Call(id: string, name: string, arguments: string)

  datatype Message = Message(role: Role, content: string, calls: seq<Call>, callId: string)

  datatype Kind = TextPart | ImagePart | CallPart | ResultPart | OtherPart

  /** One part of a unified message; `marked` is whether it carries a cache marker. */
  datatype Part = Part(
    kind: Kind, text: string, data: string, id: string, name: string, arguments: string, isError: bool, marked: bool)

  datatype Unified = Unified(role: Role, parts: seq<Part>)

  const MAX_MESSAGES := 64
  const MAX_CONTENT := 131072
  const MAX_CALLS := 8
  const MAX_ID := 200
  const TOOL := "run_admin_command"

  function TextOf(text: string): Part {
    Part(TextPart, text, "", "", "", "", false, false)
  }

  function CallOf(call: Call): Part {
    Part(CallPart, "", "", call.id, call.name, call.arguments, false, false)
  }

  function ResultOf(id: string, text: string): Part {
    Part(ResultPart, text, "", id, "", "", false, false)
  }

  /** The calls waiting for a result, the call ids ever used, and the messages converted so far. */
  datatype Walk = Walk(pending: set<string>, seen: set<string>, out: seq<Unified>)

  function Ids(calls: seq<Call>): seq<string> {
    if calls == [] then [] else Ids(calls[..|calls| - 1]) + [calls[|calls| - 1].id]
  }

  function Names(ids: seq<string>): set<string> {
    set id | id in ids
  }

  function CallParts(calls: seq<Call>): seq<Part> {
    if calls == [] then [] else CallParts(calls[..|calls| - 1]) + [CallOf(calls[|calls| - 1])]
  }

  predicate CallOk(call: Call, seen: set<string>, valid: string -> bool) {
    call.id != "" && |call.id| <= MAX_ID && call.id !in seen && call.name == TOOL && valid(call.arguments)
  }

  predicate CallsOk(calls: seq<Call>, seen: set<string>, valid: string -> bool) {
    calls == [] ||
    (CallsOk(calls[..|calls| - 1], seen, valid) &&
     CallOk(calls[|calls| - 1], seen + Names(Ids(calls[..|calls| - 1])), valid))
  }

  /** One message taken, or nothing when the transcript is refused at it. */
  function Take(w: Walk, m: Message, valid: string -> bool): Option<Walk> {
    if |m.content| > MAX_CONTENT then None
    else match m.role
      case Other => None
      case Tool =>
        if m.callId !in w.pending || m.calls != [] then None
        else Some(Walk(w.pending - {m.callId}, w.seen, w.out + [Unified(Tool, [ResultOf(m.callId, m.content)])]))
      case _ =>
        if w.pending != {} || m.callId != "" then None
        else if m.role.User? && (m.calls != [] || Blank(m.content)) then None
        else if |m.calls| > MAX_CALLS || !CallsOk(m.calls, w.seen, valid) then None
        else
          var parts := (if m.content != "" then [TextOf(m.content)] else []) + CallParts(m.calls);
          if parts == [] then None
          else Some(Walk(Names(Ids(m.calls)), w.seen + Names(Ids(m.calls)), w.out + [Unified(m.role, parts)]))
  }

  function TakeAll(messages: seq<Message>, valid: string -> bool): Option<Walk> {
    if messages == [] then Some(Walk({}, {}, []))
    else
      var before := TakeAll(messages[..|messages| - 1], valid);
      if before.None? then None else Take(before.value, messages[|messages| - 1], valid)
  }

  /** The unified messages of a transcript, or nothing when it is refused. */
  function Accept(messages: seq<Message>, valid: string -> bool): Option<seq<Unified>> {
    if messages == [] || |messages| > MAX_MESSAGES || !messages[0].role.User? then None
    else
      var walk := TakeAll(messages, valid);
      if walk.None? || walk.value.pending != {} || messages[|messages| - 1].role.Assistant? then None
      else Some(walk.value.out)
  }

  // --- the turns the protocol accepts ---------------------------------------------------------------

  datatype Block =
    | TextBlock(text: string, marked: bool)
    | ImageBlock(data: string, marked: bool)
    | UseBlock(id: string, name: string, arguments: string, marked: bool)
    | ResultBlock(id: string, content: string, isError: bool, marked: bool)

  datatype Turn = Turn(assistant: bool, blocks: seq<Block>)

  function JoinedText(parts: seq<Part>): string {
    if parts == [] then ""
    else
      var last := parts[|parts| - 1];
      JoinedText(parts[..|parts| - 1]) + if last.kind.TextPart? then last.text else ""
  }

  function Results(parts: seq<Part>): seq<Block> {
    if parts == [] then []
    else
      var last := parts[|parts| - 1];
      Results(parts[..|parts| - 1]) +
      if last.kind.ResultPart? && last.id != "" then [ResultBlock(last.id, last.text, last.isError, false)] else []
  }

  function Images(parts: seq<Part>, allowed: bool): seq<Block> {
    if parts == [] then []
    else
      var last := parts[|parts| - 1];
      Images(parts[..|parts| - 1], allowed) +
      if last.kind.ImagePart? && allowed && last.data != "" then [ImageBlock(last.data, false)] else []
  }

  function Uses(parts: seq<Part>): seq<Block> {
    if parts == [] then []
    else
      var last := parts[|parts| - 1];
      Uses(parts[..|parts| - 1]) +
      if last.kind.CallPart? && last.name != "" then [UseBlock(last.id, last.name, last.arguments, false)] else []
  }

  /** The parts as they stand, which is what a message holding a cache marker keeps. */
  function InPlace(parts: seq<Part>, allowed: bool): seq<Block> {
    if parts == [] then []
    else
      var last := parts[|parts| - 1];
      InPlace(parts[..|parts| - 1], allowed) +
      match last.kind
      case TextPart => [TextBlock(last.text, last.marked)]
      case ImagePart => if allowed && last.data != "" then [ImageBlock(last.data, last.marked)] else []
      case CallPart => [UseBlock(last.id, last.name, last.arguments, last.marked)]
      case ResultPart => [ResultBlock(last.id, last.text, last.isError, last.marked)]
      case OtherPart => []
  }

  predicate HasMarker(parts: seq<Part>) {
    exists i :: 0 <= i < |parts| && parts[i].marked
  }

  function Blocks(parts: seq<Part>, allowed: bool): seq<Block> {
    if HasMarker(parts) then InPlace(parts, allowed)
    else
      var text := JoinedText(parts);
      Results(parts) + (if text != "" then [TextBlock(text, false)] else []) + Images(parts, allowed) + Uses(parts)
  }

  /** One message's blocks joined to the turn before when that has the same role, or a turn of their own. */
  function Push(out: seq<Turn>, assistant: bool, blocks: seq<Block>): seq<Turn> {
    if blocks == [] then out
    else if out != [] && out[|out| - 1].assistant == assistant then
      out[..|out| - 1] + [Turn(assistant, out[|out| - 1].blocks + blocks)]
    else out + [Turn(assistant, blocks)]
  }

  function Turns(messages: seq<Unified>, allowed: bool): seq<Turn> {
    if messages == [] then []
    else
      var last := messages[|messages| - 1];
      Push(Turns(messages[..|messages| - 1], allowed), last.role.Assistant?, Blocks(last.parts, allowed))
  }

  function WithoutResults(blocks: seq<Block>): seq<Block> {
    if blocks == [] then []
    else WithoutResults(blocks[..|blocks| - 1]) +
         if blocks[|blocks| - 1].ResultBlock? then [] else [blocks[|blocks| - 1]]
  }

  /** The head cut back to a user turn that holds something besides results of calls that are gone. */
  function Repair(out: seq<Turn>): seq<Turn> {
    if out == [] then []
    else if out[0].assistant then Repair(out[1..])
    else
      var kept := WithoutResults(out[0].blocks);
      if kept == [] then Repair(out[1..]) else [out[0].(blocks := kept)] + out[1..]
  }

  function Build(messages: seq<Unified>, allowed: bool): seq<Turn> {
    Repair(Turns(messages, allowed))
  }

  // --- for any input -------------------------------------------------------------------------------

  /** No turn is empty, and none is on the side of the one before it. */
  predicate Alternates(out: seq<Turn>) {
    forall i :: 0 <= i < |out| ==> out[i].blocks != [] && (i > 0 ==> out[i].assistant != out[i - 1].assistant)
  }

  predicate HasResult(blocks: seq<Block>) {
    exists i :: 0 <= i < |blocks| && blocks[i].ResultBlock?
  }

  lemma {:induction false} TurnsAlternate(messages: seq<Unified>, allowed: bool)
    ensures Alternates(Turns(messages, allowed))
  {
    hide Blocks;
    if messages != [] { TurnsAlternate(messages[..|messages| - 1], allowed); }
  }

  lemma {:induction false} OthersStay(blocks: seq<Block>)
    ensures !HasResult(WithoutResults(blocks))
    ensures !HasResult(blocks) ==> WithoutResults(blocks) == blocks
  {
    if blocks != [] {
      var front := blocks[..|blocks| - 1];
      OthersStay(front);
      assert blocks == front + [blocks[|blocks| - 1]];
      assert forall i :: 0 <= i < |front| ==> front[i] == blocks[i];
    }
  }

  /** Of a turn's blocks the results go, and every other block stays where it was among the rest. */
  lemma ResultsGo(a: seq<Block>, block: Block, b: seq<Block>)
    ensures WithoutResults(a + [block] + b) ==
            WithoutResults(a) + (if block.ResultBlock? then [] else [block]) + WithoutResults(b)
    ensures WithoutResults([]) == []
  {
    WithoutJoin(a + [block], b);
    assert (a + [block])[..|a|] == a;
  }

  lemma {:induction false} WithoutJoin(a: seq<Block>, b: seq<Block>)
    ensures WithoutResults(a + b) == WithoutResults(a) + WithoutResults(b)
  {
    if b == [] {
      assert a + b == a;
    } else {
      assert (a + b)[..|a + b| - 1] == a + b[..|b| - 1];
      WithoutJoin(a, b[..|b| - 1]);
    }
  }

  lemma {:induction false} RepairKeeps(out: seq<Turn>)
    requires Alternates(out)
    ensures var r := Repair(out);
            Alternates(r) && (r == [] || (!r[0].assistant && !HasResult(r[0].blocks)))
  {
    hide WithoutResults, HasResult;
    if out != [] {
      OthersStay(out[0].blocks);
      var rest := out[1..];
      assert forall i :: 0 <= i < |rest| ==> rest[i] == out[i + 1];
      assert Alternates(rest);
      if out[0].assistant || WithoutResults(out[0].blocks) == [] {
        hide Alternates;
        RepairKeeps(rest);
      } else {
        assert forall i :: 0 < i < |out| ==> Repair(out)[i] == out[i];
      }
    }
  }

  /** Whatever it is given, the list starts with the user, takes turns, and opens on no stranded result. */
  lemma BuiltIsWellFormed(messages: seq<Unified>, allowed: bool)
    ensures var out := Build(messages, allowed);
            Alternates(out) && (out == [] || (!out[0].assistant && !HasResult(out[0].blocks)))
  {
    TurnsAlternate(messages, allowed);
    RepairKeeps(Turns(messages, allowed));
  }

  function Flat(out: seq<Turn>): seq<Block> {
    if out == [] then [] else Flat(out[..|out| - 1]) + out[|out| - 1].blocks
  }

  function AllBlocks(messages: seq<Unified>, allowed: bool): seq<Block> {
    if messages == [] then []
    else AllBlocks(messages[..|messages| - 1], allowed) + Blocks(messages[|messages| - 1].parts, allowed)
  }

  lemma PushingKeeps(out: seq<Turn>, assistant: bool, blocks: seq<Block>)
    ensures Flat(Push(out, assistant, blocks)) == Flat(out) + blocks
  {
    var next := Push(out, assistant, blocks);
    if blocks == [] {
      assert Flat(out) + blocks == Flat(out);
    } else if out != [] && out[|out| - 1].assistant == assistant {
      assert next[..|next| - 1] == out[..|out| - 1];
      assert Flat(out) == Flat(out[..|out| - 1]) + out[|out| - 1].blocks;
    } else {
      assert next[..|next| - 1] == out;
    }
  }

  // --- what each part of a message becomes ------------------------------------------------------------

  /** Results head a message, its text precedes its pictures, and its calls come last. */
  function Rank(b: Block): nat {
    match b
    case ResultBlock(_, _, _, _) => 0
    case TextBlock(_, _) => 1
    case ImageBlock(_, _) => 2
    case UseBlock(_, _, _, _) => 3
  }

  function Only(blocks: seq<Block>, rank: nat): (r: seq<Block>)
    ensures forall i :: 0 <= i < |r| ==> Rank(r[i]) == rank
  {
    if blocks == [] then []
    else
      var last := blocks[|blocks| - 1];
      Only(blocks[..|blocks| - 1], rank) + if Rank(last) == rank then [last] else []
  }

  /** The words of the text blocks, end to end. */
  function TextIn(blocks: seq<Block>): string {
    if blocks == [] then ""
    else TextIn(blocks[..|blocks| - 1]) + match blocks[|blocks| - 1] case TextBlock(text, _) => text case _ => ""
  }

  predicate OfRank(blocks: seq<Block>, rank: nat) {
    forall i :: 0 <= i < |blocks| ==> Rank(blocks[i]) == rank
  }

  predicate Ranked(blocks: seq<Block>) {
    forall i, j :: 0 <= i < j < |blocks| ==> Rank(blocks[i]) <= Rank(blocks[j])
  }

  lemma {:induction false} OnlyJoin(a: seq<Block>, b: seq<Block>, rank: nat)
    ensures Only(a + b, rank) == Only(a, rank) + Only(b, rank) && TextIn(a + b) == TextIn(a) + TextIn(b)
  {
    if b == [] {
      assert a + b == a;
    } else {
      assert (a + b)[..|a + b| - 1] == a + b[..|b| - 1];
      OnlyJoin(a, b[..|b| - 1], rank);
    }
  }

  lemma {:induction false} AllOfOneRank(blocks: seq<Block>, own: nat, rank: nat)
    requires OfRank(blocks, own)
    ensures Only(blocks, rank) == (if rank == own then blocks else []) && (own != 1 ==> TextIn(blocks) == "")
  {
    if blocks != [] { AllOfOneRank(blocks[..|blocks| - 1], own, rank); }
  }

  lemma {:induction false} PartsByRank(parts: seq<Part>, allowed: bool)
    ensures forall i :: 0 <= i < |Results(parts)| ==> Rank(Results(parts)[i]) == 0
    ensures forall i :: 0 <= i < |Images(parts, allowed)| ==> Rank(Images(parts, allowed)[i]) == 2
    ensures forall i :: 0 <= i < |Uses(parts)| ==> Rank(Uses(parts)[i]) == 3
  {
    if parts != [] { PartsByRank(parts[..|parts| - 1], allowed); }
  }

  lemma InOrder(results: seq<Block>, text: seq<Block>, images: seq<Block>, uses: seq<Block>)
    requires OfRank(results, 0) && OfRank(text, 1) && OfRank(images, 2) && OfRank(uses, 3)
    ensures Ranked(results + text + images + uses)
  {
  }

  lemma OneMoreRank(a: seq<Block>, b: seq<Block>, own: nat, rank: nat)
    requires OfRank(b, own)
    ensures Only(a + b, rank) == (if rank == own then Only(a, rank) + b else Only(a, rank))
    ensures own != 1 ==> TextIn(a + b) == TextIn(a)
  {
    OnlyJoin(a, b, rank);
    AllOfOneRank(b, own, rank);
    assert Only(a, rank) + [] == Only(a, rank);
  }

  lemma FourJoined(a: seq<Block>, b: seq<Block>, c: seq<Block>, d: seq<Block>, rank: nat)
    requires OfRank(a, 0) && OfRank(b, 1) && OfRank(c, 2) && OfRank(d, 3)
    ensures var r := Only(a + b + c + d, rank);
            (rank == 0 ==> r == a) && (rank == 1 ==> r == b) && (rank == 2 ==> r == c) && (rank == 3 ==> r == d)
    ensures TextIn(a + b + c + d) == TextIn(b)
  {
    hide Only, TextIn, OfRank, Rank;
    AllOfOneRank(a, 0, rank);
    OnlyJoin(a, b, rank);
    OneMoreRank(a, b, 1, rank);
    OneMoreRank(a + b, c, 2, rank);
    OneMoreRank(a + b + c, d, 3, rank);
    assert [] + b == b && [] + c == c && [] + d == d;
  }

  lemma BlocksByRank(parts: seq<Part>, allowed: bool)
    requires !HasMarker(parts)
    ensures var blocks := Blocks(parts, allowed);
            Ranked(blocks) && TextIn(blocks) == JoinedText(parts) && |Only(blocks, 1)| <= 1 &&
            Only(blocks, 0) == Results(parts) && Only(blocks, 2) == Images(parts, allowed) &&
            Only(blocks, 3) == Uses(parts)
  {
    var said := JoinedText(parts);
    var results, images, uses := Results(parts), Images(parts, allowed), Uses(parts);
    var text := if said != "" then [TextBlock(said, false)] else [];
    PartsByRank(parts, allowed);
    assert TextIn(text) == said by { assert [TextBlock(said, false)][..0] == []; }
    assert OfRank(results, 0) && OfRank(text, 1) && OfRank(images, 2) && OfRank(uses, 3);
    hide Results, Images, Uses, JoinedText, OfRank, Ranked, Only, TextIn, Rank;
    InOrder(results, text, images, uses);
    FourJoined(results, text, images, uses, 0);
    FourJoined(results, text, images, uses, 1);
    FourJoined(results, text, images, uses, 2);
    FourJoined(results, text, images, uses, 3);
  }

  /** What one more part adds: text to the text, and a result, picture or call to those it came with. */
  lemma PartBecomes(parts: seq<Part>, p: Part, allowed: bool)
    requires !HasMarker(parts + [p])
    ensures Blocks([], allowed) == []
    ensures var before, after := Blocks(parts, allowed), Blocks(parts + [p], allowed);
            Ranked(after) && |Only(after, 1)| <= 1 &&
            TextIn(after) == TextIn(before) + (if p.kind.TextPart? then p.text else "") &&
            Only(after, 0) == Only(before, 0) +
              (if p.kind.ResultPart? && p.id != "" then [ResultBlock(p.id, p.text, p.isError, false)] else []) &&
            Only(after, 2) == Only(before, 2) +
              (if p.kind.ImagePart? && allowed && p.data != "" then [ImageBlock(p.data, false)] else []) &&
            Only(after, 3) == Only(before, 3) +
              if p.kind.CallPart? && p.name != "" then [UseBlock(p.id, p.name, p.arguments, false)] else []
  {
    var more := parts + [p];
    OnePartMore(parts, p, allowed);
    assert forall i :: 0 <= i < |parts| ==> parts[i] == more[i];
    assert Blocks([], allowed) == [];
    BlocksByRank(parts, allowed);
    BlocksByRank(more, allowed);
    hide Blocks, HasMarker, Only, TextIn, Ranked, JoinedText, Results, Images, Uses;
  }

  lemma OnePartMore(parts: seq<Part>, p: Part, allowed: bool)
    ensures JoinedText(parts + [p]) == JoinedText(parts) + if p.kind.TextPart? then p.text else ""
    ensures Results(parts + [p]) == Results(parts) +
              if p.kind.ResultPart? && p.id != "" then [ResultBlock(p.id, p.text, p.isError, false)] else []
    ensures Images(parts + [p], allowed) == Images(parts, allowed) +
              if p.kind.ImagePart? && allowed && p.data != "" then [ImageBlock(p.data, false)] else []
    ensures Uses(parts + [p]) == Uses(parts) +
              if p.kind.CallPart? && p.name != "" then [UseBlock(p.id, p.name, p.arguments, false)] else []
  {
    assert (parts + [p])[..|parts|] == parts;
  }

  lemma {:induction false} InPlaceJoin(a: seq<Part>, b: seq<Part>, allowed: bool)
    ensures InPlace(a + b, allowed) == InPlace(a, allowed) + InPlace(b, allowed)
  {
    if b == [] {
      assert a + b == a;
    } else {
      assert (a + b)[..|a + b| - 1] == a + b[..|b| - 1];
      InPlaceJoin(a, b[..|b| - 1], allowed);
    }
  }

  /** With a cache marker among them all parts keep their places, each with its own marker or none. */
  lemma MarkedPartsStay(before: seq<Part>, p: Part, after: seq<Part>, allowed: bool)
    requires HasMarker(before + [p] + after)
    ensures InPlace([], allowed) == []
    ensures Blocks(before + [p] + after, allowed) ==
            InPlace(before, allowed) +
            (match p.kind
             case TextPart => [TextBlock(p.text, p.marked)]
             case ImagePart => if allowed && p.data != "" then [ImageBlock(p.data, p.marked)] else []
             case CallPart => [UseBlock(p.id, p.name, p.arguments, p.marked)]
             case ResultPart => [ResultBlock(p.id, p.text, p.isError, p.marked)]
             case OtherPart => []) +
            InPlace(after, allowed)
  {
    InPlaceJoin(before + [p], after, allowed);
    assert (before + [p])[..|before|] == before;
    hide HasMarker;
  }

  /** Grouping messages into turns neither loses nor reorders a block. */
  lemma {:induction false} TurnsKeepEveryBlock(messages: seq<Unified>, allowed: bool)
    ensures Flat(Turns(messages, allowed)) == AllBlocks(messages, allowed)
  {
    hide Blocks, Push;
    if messages == [] {
    } else {
      var front, last := messages[..|messages| - 1], messages[|messages| - 1];
      TurnsKeepEveryBlock(front, allowed);
      PushingKeeps(Turns(front, allowed), last.role.Assistant?, Blocks(last.parts, allowed));
    }
  }

  /**
   * The repair drops whole turns from the front, each said by the assistant or holding only orphaned
   * results, then strips the results of the turn it stops at; the rest is untouched.
   */
  lemma {:induction false} RepairCutsOnlyTheHead(out: seq<Turn>) returns (n: nat)
    ensures n <= |out|
    ensures forall i :: 0 <= i < n ==> out[i].assistant || WithoutResults(out[i].blocks) == []
    ensures Repair(out) == if n == |out| then []
                           else [out[n].(blocks := WithoutResults(out[n].blocks))] + out[n + 1..]
  {
    if out == [] {
      n := 0;
    } else if out[0].assistant || WithoutResults(out[0].blocks) == [] {
      var m := RepairCutsOnlyTheHead(out[1..]);
      n := m + 1;
      assert m < |out[1..]| ==> out[1..][m + 1..] == out[n + 1..];
    } else {
      n := 0;
    }
  }

  // --- what an accepted transcript is ---------------------------------------------------------------

  predicate NoDup(ids: seq<string>) {
    forall i, j :: 0 <= i < j < |ids| ==> ids[i] != ids[j]
  }

  /** Every one of the calls has exactly one of the results, and no result is for anything else. */
  predicate Answered(calls: seq<string>, results: seq<string>) {
    NoDup(calls) && NoDup(results) && Names(calls) == Names(results)
  }

  /** The ids the tool messages right after message `i` answer. */
  function Replies(messages: seq<Message>, i: int): seq<string>
    requires -1 <= i < |messages|
    decreases |messages| - i
  {
    if i + 1 < |messages| && messages[i + 1].role.Tool?
    then [messages[i + 1].callId] + Replies(messages, i + 1)
    else []
  }

  predicate ToolsFrom(messages: seq<Message>, i: int) {
    forall j :: 0 <= i <= j < |messages| ==> messages[j].role.Tool?
  }

  lemma {:induction false} RepliesGrow(messages: seq<Message>, m: Message, i: nat)
    requires i < |messages|
    ensures Replies(messages + [m], i) ==
            Replies(messages, i) + if ToolsFrom(messages, i + 1) && m.role.Tool? then [m.callId] else []
    decreases |messages| - i
  {
    var more := messages + [m];
    if i + 1 < |messages| {
      assert more[i + 1] == messages[i + 1];
      RepliesGrow(messages, m, i + 1);
      assert ToolsFrom(messages, i + 1) <==> messages[i + 1].role.Tool? && ToolsFrom(messages, i + 2);
    } else {
      assert more[i + 1] == m;
      assert Replies(more, i + 1) == [];
    }
  }

  function AllIds(messages: seq<Message>): seq<string> {
    if messages == [] then []
    else AllIds(messages[..|messages| - 1]) + Ids(messages[|messages| - 1].calls)
  }

  lemma NamesJoin(a: seq<string>, b: seq<string>)
    ensures Names(a + b) == Names(a) + Names(b)
  {
  }

  lemma NoDupJoin(a: seq<string>, b: seq<string>)
    ensures NoDup(a) && NoDup(b) && Names(a) !! Names(b) ==> NoDup(a + b)
  {
    if NoDup(a) && NoDup(b) && Names(a) !! Names(b) {
      assert forall x :: x in b ==> x in Names(b) && x !in Names(a);
      assert forall i :: 0 <= i < |a| ==> a[i] in Names(a);
    }
  }

  lemma {:induction false} CallsAreNew(calls: seq<Call>, seen: set<string>, valid: string -> bool)
    ensures !CallsOk(calls, seen, valid) ||
            (NoDup(Ids(calls)) && Names(Ids(calls)) !! seen && "" !in Names(Ids(calls)))
  {
    if calls != [] && CallsOk(calls, seen, valid) {
      var front, last := calls[..|calls| - 1], calls[|calls| - 1];
      CallsAreNew(front, seen, valid);
      NamesJoin(Ids(front), [last.id]);
      NoDupJoin(Ids(front), [last.id]);
    }
  }

  /** The last message that is not a tool's, and what is still owed to it. */
  ghost predicate Owed(messages: seq<Message>, pending: set<string>) {
    exists s :: 0 <= s < |messages| && OwedTo(messages, pending, s)
  }

  predicate OwedTo(messages: seq<Message>, pending: set<string>, s: nat)
    requires s < |messages|
  {
    !messages[s].role.Tool? && ToolsFrom(messages, s + 1) &&
    NoDup(Ids(messages[s].calls)) && NoDup(Replies(messages, s)) &&
    Names(Replies(messages, s)) !! pending &&
    Names(Replies(messages, s)) + pending == Names(Ids(messages[s].calls)) &&
    forall i :: 0 <= i < s && !messages[i].role.Tool? ==> Answered(Ids(messages[i].calls), Replies(messages, i))
  }

  ghost predicate WalkSound(messages: seq<Message>, w: Walk) {
    NoDup(AllIds(messages)) && w.seen == Names(AllIds(messages)) && w.pending <= w.seen &&
    (messages != [] && messages[0].role.User? ==> Owed(messages, w.pending)) &&
    (messages == [] ==> w.pending == {})
  }

  lemma SpeakingIsOwed(messages: seq<Message>, m: Message, seen: set<string>, valid: string -> bool)
    requires messages == [] || Owed(messages, {})
    requires !m.role.Tool? && CallsOk(m.calls, seen, valid)
    ensures Owed(messages + [m], Names(Ids(m.calls)))
  {
    hide Ids, CallsOk;
    var more := messages + [m];
    CallsAreNew(m.calls, seen, valid);
    assert Replies(more, |messages|) == [];
    if messages != [] {
      var s :| 0 <= s < |messages| && OwedTo(messages, {}, s);
      assert forall i :: s < i < |messages| ==> messages[i].role.Tool?;
      forall i | 0 <= i < |messages| && !more[i].role.Tool?
        ensures Answered(Ids(more[i].calls), Replies(more, i))
      {
        RepliesGrow(messages, m, i);
        assert more[i] == messages[i];
      }
    }
    assert OwedTo(more, Names(Ids(m.calls)), |messages|);
  }

  lemma AnsweringIsOwed(messages: seq<Message>, m: Message, pending: set<string>)
    requires messages != [] && Owed(messages, pending) && m.role.Tool? && m.callId in pending
    ensures Owed(messages + [m], pending - {m.callId})
  {
    hide Ids;
    var more := messages + [m];
    var s :| 0 <= s < |messages| && OwedTo(messages, pending, s);
    RepliesGrow(messages, m, s);
    NamesJoin(Replies(messages, s), [m.callId]);
    NoDupJoin(Replies(messages, s), [m.callId]);
    forall i | 0 <= i < s && !more[i].role.Tool? ensures Answered(Ids(more[i].calls), Replies(more, i)) {
      RepliesGrow(messages, m, i);
      assert !ToolsFrom(messages, i + 1) by { assert !messages[s].role.Tool?; }
    }
    assert more[s] == messages[s];
    assert OwedTo(more, pending - {m.callId}, s);
  }

  lemma {:induction false} WalksAreSound(messages: seq<Message>, valid: string -> bool)
    ensures var w := TakeAll(messages, valid); w.None? || WalkSound(messages, w.value)
  {
    hide CallsOk, Ids, Blank, CallParts, Owed, NoDup;
    if messages == [] {
      assert NoDup([]) by { NothingTwice(); }
    } else {
      var front, m := messages[..|messages| - 1], messages[|messages| - 1];
      WalksAreSound(front, valid);
      assert front + [m] == messages;
      var w := TakeAll(front, valid);
      if w.Some? && Take(w.value, m, valid).Some? {
        NamesJoin(AllIds(front), Ids(m.calls));
        if m.role.Tool? {
          assert Ids(m.calls) == [] by { NoIds(); }
          assert AllIds(front) + [] == AllIds(front);
          if front != [] && front[0].role.User? { AnsweringIsOwed(front, m, w.value.pending); }
        } else {
          CallsAreNew(m.calls, w.value.seen, valid);
          NoDupJoin(AllIds(front), Ids(m.calls));
          if front == [] || front[0].role.User? { SpeakingIsOwed(front, m, w.value.seen, valid); }
        }
      }
    }
  }

  lemma NothingTwice()
    ensures NoDup([])
  {
  }

  lemma NoIds()
    ensures Ids([]) == []
  {
  }

  /**
   * In an accepted transcript no call id is used twice, and each message's calls are answered exactly
   * once each by the tool messages right after it, which answer nothing else.
   */
  lemma {:induction false} AcceptedIsAnswered(messages: seq<Message>, valid: string -> bool)
    requires Accept(messages, valid).Some?
    ensures NoDup(AllIds(messages)) && !messages[0].role.Tool? && !messages[|messages| - 1].role.Assistant?
    ensures forall i :: 0 <= i < |messages| && !messages[i].role.Tool? ==>
              Answered(Ids(messages[i].calls), Replies(messages, i))
  {
    hide TakeAll, Ids, NoDup, Replies, AllIds;
    WalksAreSound(messages, valid);
    var s :| 0 <= s < |messages| && OwedTo(messages, {}, s);
    assert forall i :: s < i < |messages| ==> messages[i].role.Tool?;
  }

  // --- what it is turned into ---------------------------------------------------------------------

  function UseIds(blocks: seq<Block>): seq<string> {
    if blocks == [] then []
    else UseIds(blocks[..|blocks| - 1]) +
         if blocks[|blocks| - 1].UseBlock? then [blocks[|blocks| - 1].id] else []
  }

  function ResultIds(blocks: seq<Block>): seq<string> {
    if blocks == [] then []
    else ResultIds(blocks[..|blocks| - 1]) +
         if blocks[|blocks| - 1].ResultBlock? then [blocks[|blocks| - 1].id] else []
  }

  predicate OnlyResults(blocks: seq<Block>) {
    forall i :: 0 <= i < |blocks| ==> blocks[i].ResultBlock?
  }

  predicate ResultsLead(blocks: seq<Block>) {
    forall i, j :: 0 <= i < j < |blocks| && blocks[j].ResultBlock? ==> blocks[i].ResultBlock?
  }

  lemma {:induction false} UseIdsJoin(a: seq<Block>, b: seq<Block>)
    ensures UseIds(a + b) == UseIds(a) + UseIds(b)
  {
    if b == [] {
      assert a + b == a;
    } else {
      UseIdsJoin(a, b[..|b| - 1]);
      assert (a + b)[..|a + b| - 1] == a + b[..|b| - 1];
    }
  }

  lemma {:induction false} ResultIdsJoin(a: seq<Block>, b: seq<Block>)
    ensures ResultIds(a + b) == ResultIds(a) + ResultIds(b)
  {
    if b == [] {
      assert a + b == a;
    } else {
      ResultIdsJoin(a, b[..|b| - 1]);
      assert (a + b)[..|a + b| - 1] == a + b[..|b| - 1];
    }
  }

  lemma IdsJoin(a: seq<Block>, b: seq<Block>)
    ensures UseIds(a + b) == UseIds(a) + UseIds(b) && ResultIds(a + b) == ResultIds(a) + ResultIds(b)
  {
    UseIdsJoin(a, b);
    ResultIdsJoin(a, b);
  }

  lemma OneBlock(b: Block)
    ensures UseIds([b]) == if b.UseBlock? then [b.id] else []
    ensures ResultIds([b]) == if b.ResultBlock? then [b.id] else []
    ensures UseIds([]) == [] && ResultIds([]) == []
  {
    assert [b][..0] == [];
  }

  /** A call part after other parts adds its block at the end. */
  lemma CallAtTheEnd(parts: seq<Part>, call: Call, allowed: bool)
    ensures call.name != "" && !HasMarker(parts) && Results(parts) == [] && Images(parts, allowed) == [] ==>
              var more := parts + [CallOf(call)];
              !HasMarker(more) && Results(more) == [] && Images(more, allowed) == [] &&
              JoinedText(more) == JoinedText(parts) &&
              Uses(more) == Uses(parts) + [UseBlock(call.id, call.name, call.arguments, false)]
  {
    var more := parts + [CallOf(call)];
    assert more[..|more| - 1] == parts && more[|more| - 1] == CallOf(call);
  }

  lemma TextFirst(text: string, allowed: bool)
    ensures var parts := if text != "" then [TextOf(text)] else [];
            !HasMarker(parts) && Results(parts) == [] && Images(parts, allowed) == [] &&
            JoinedText(parts) == text && Uses(parts) == []
  {
    assert [TextOf(text)][..0] == [];
  }

  lemma {:induction false} SpokenParts(text: string, calls: seq<Call>, seen: set<string>, valid: string -> bool,
                                       allowed: bool)
    requires CallsOk(calls, seen, valid)
    ensures var parts := (if text != "" then [TextOf(text)] else []) + CallParts(calls);
            !HasMarker(parts) && (Results(parts), Images(parts, allowed), JoinedText(parts)) == ([], [], text) &&
            (UseIds(Uses(parts)), ResultIds(Uses(parts))) == (Ids(calls), [])
    decreases |calls|
  {
    hide Results, Images, JoinedText, Uses, HasMarker;
    var head := if text != "" then [TextOf(text)] else [];
    TextFirst(text, allowed);
    if calls == [] {
      assert head + CallParts(calls) == head;
    } else {
      var front, last := calls[..|calls| - 1], calls[|calls| - 1];
      SpokenParts(text, front, seen, valid, allowed);
      assert head + CallParts(calls) == (head + CallParts(front)) + [CallOf(last)];
      CallAtTheEnd(head + CallParts(front), last, allowed);
      var block := UseBlock(last.id, last.name, last.arguments, false);
      IdsJoin(Uses(head + CallParts(front)), [block]);
      OneBlock(block);
      assert ResultIds(Uses(head + CallParts(front))) + [] == [];
      assert Ids(calls) == Ids(front) + [last.id];
    }
  }

  /** What a user or assistant message becomes: its text, then its calls. */
  lemma SpokenBlocks(m: Message, seen: set<string>, valid: string -> bool, allowed: bool)
    requires CallsOk(m.calls, seen, valid)
    ensures var blocks := Blocks((if m.content != "" then [TextOf(m.content)] else []) + CallParts(m.calls), allowed);
            UseIds(blocks) == Ids(m.calls) && ResultIds(blocks) == [] &&
            (m.content != "" || m.calls != [] ==> blocks != [])
  {
    hide Results, Images, JoinedText, Uses, HasMarker, CallsOk, Ids;
    var parts := (if m.content != "" then [TextOf(m.content)] else []) + CallParts(m.calls);
    SpokenParts(m.content, m.calls, seen, valid, allowed);
    var said := if m.content != "" then [TextBlock(m.content, false)] else [];
    assert Blocks(parts, allowed) == said + Uses(parts);
    IdsJoin(said, Uses(parts));
    OneBlock(TextBlock(m.content, false));
    assert UseIds(said) == [] && ResultIds(said) == [];
    assert UseIds(said + Uses(parts)) == Ids(m.calls) && ResultIds(said + Uses(parts)) == [];
    SomeIds(m.calls);
    assert m.calls != [] ==> UseIds(Uses(parts)) != [] && Uses(parts) != [];
  }

  lemma SomeIds(calls: seq<Call>)
    ensures calls != [] ==> Ids(calls) != []
  {
  }

  lemma ResultAlone(id: string, text: string, allowed: bool)
    requires id != ""
    ensures Blocks([ResultOf(id, text)], allowed) == [ResultBlock(id, text, false, false)]
  {
    var parts := [ResultOf(id, text)];
    assert parts[..0] == [] && !HasMarker(parts);
    assert Results(parts) == [] + [ResultBlock(id, text, false, false)];
    assert JoinedText(parts) == "" by { assert JoinedText(parts[..0]) == ""; }
    assert |Images(parts, allowed)| == |Images(parts[..0], allowed)| == 0;
    assert |Uses(parts)| == |Uses(parts[..0])| == 0;
  }

  lemma {:induction false} NoResultIds(blocks: seq<Block>)
    ensures ResultIds(blocks) == [] <==> !HasResult(blocks)
  {
    if blocks != [] {
      var front := blocks[..|blocks| - 1];
      NoResultIds(front);
      assert blocks == front + [blocks[|blocks| - 1]];
      assert forall i :: 0 <= i < |front| ==> front[i] == blocks[i];
    }
  }

  /** The calls of the turn before. */
  function Asked(out: seq<Turn>, i: nat): seq<string>
    requires i < |out|
  {
    if i == 0 then [] else UseIds(out[i - 1].blocks)
  }

  /** A turn of the user leads with the results of exactly the calls the assistant's turn before it made. */
  predicate TurnOk(out: seq<Turn>, i: nat)
    requires i < |out|
  {
    var blocks := out[i].blocks;
    if out[i].assistant then ResultIds(blocks) == []
    else UseIds(blocks) == [] && ResultsLead(blocks) && Answered(Asked(out, i), ResultIds(blocks))
  }

  predicate LastOwes(out: seq<Turn>, pending: set<string>)
    requires out != []
  {
    var last := |out| - 1;
    var blocks := out[last].blocks;
    if out[last].assistant then
      ResultIds(blocks) == [] && NoDup(UseIds(blocks)) && Names(UseIds(blocks)) == pending
    else
      UseIds(blocks) == [] && ResultsLead(blocks) && NoDup(Asked(out, last)) && NoDup(ResultIds(blocks)) &&
      Names(ResultIds(blocks)) !! pending && Names(ResultIds(blocks)) + pending == Names(Asked(out, last)) &&
      (pending != {} ==> OnlyResults(blocks))
  }

  predicate Building(out: seq<Turn>, pending: set<string>) {
    (out == [] ==> pending == {}) &&
    (out != [] ==> !out[0].assistant && LastOwes(out, pending)) &&
    forall i :: 0 <= i < |out| - 1 ==> TurnOk(out, i)
  }

  /** A finished turn at the end is a turn like the ones before it. */
  lemma LastIsDone(out: seq<Turn>)
    ensures out != [] && LastOwes(out, {}) ==> TurnOk(out, |out| - 1)
  {
    hide UseIds, ResultIds, ResultsLead, NoDup;
  }

  lemma SpokenStep(out: seq<Turn>, assistant: bool, blocks: seq<Block>, calls: seq<string>)
    requires Building(out, {}) && blocks != []
    requires UseIds(blocks) == calls && ResultIds(blocks) == [] && NoDup(calls) && (assistant || calls == [])
    requires out == [] ==> !assistant
    ensures Building(Push(out, assistant, blocks), Names(calls))
  {
    hide UseIds, ResultIds, ResultsLead, NoDup, OnlyResults;
    var next := Push(out, assistant, blocks);
    NothingTwice();
    if out == [] {
      LeadsAlone(blocks);
      assert next == [Turn(assistant, blocks)];
    } else if out[|out| - 1].assistant == assistant {
      SpokenOn(out, assistant, blocks, calls);
    } else {
      LastIsDone(out);
      LeadsAlone(blocks);
      assert forall i :: 0 <= i < |out| ==> TurnOk(next, i) by { GrownTurns(out, next); }
    }
  }

  lemma SpokenOn(out: seq<Turn>, assistant: bool, blocks: seq<Block>, calls: seq<string>)
    requires Building(out, {}) && out != [] && out[|out| - 1].assistant == assistant && blocks != []
    requires UseIds(blocks) == calls && ResultIds(blocks) == [] && NoDup(calls) && (assistant || calls == [])
    ensures Building(Push(out, assistant, blocks), Names(calls))
  {
    hide UseIds, ResultIds, ResultsLead, NoDup, OnlyResults, TurnOk;
    var next, was := Push(out, assistant, blocks), out[|out| - 1].blocks;
    NothingTwice();
    IdsJoin(was, blocks);
    if !assistant { Trailing(was, blocks); }
    assert [] + calls == calls && ResultIds(was) + [] == ResultIds(was);
    NamesOfNone(UseIds(was));
    assert forall i :: 0 <= i < |out| - 1 ==> TurnOk(next, i) by { EarlierTurns(out, next); }
  }

  lemma NamesOfNone(ids: seq<string>)
    ensures Names(ids) == {} ==> ids == []
  {
    assert ids != [] ==> ids[0] in Names(ids);
  }

  lemma LeadsAlone(blocks: seq<Block>)
    ensures ResultIds(blocks) == [] ==> ResultsLead(blocks)
  {
    NoResultIds(blocks);
  }

  lemma Trailing(was: seq<Block>, more: seq<Block>)
    requires ResultsLead(was) && ResultIds(more) == []
    ensures ResultsLead(was + more)
  {
    NoResultIds(more);
  }

  /** Turns that are not the last keep what holds of them when the last one grows. */
  lemma EarlierTurns(out: seq<Turn>, next: seq<Turn>)
    requires |next| == |out| > 0 && next[..|out| - 1] == out[..|out| - 1]
    requires forall i :: 0 <= i < |out| - 1 ==> TurnOk(out, i)
    ensures forall i :: 0 <= i < |out| - 1 ==> TurnOk(next, i)
  {
    hide UseIds, ResultIds, ResultsLead, Answered;
    forall i | 0 <= i < |out| - 1 ensures TurnOk(next, i) {
      assert TurnOk(out, i);
      assert next[i] == next[..|out| - 1][i] && out[i] == out[..|out| - 1][i];
      assert i > 0 ==> next[i - 1] == next[..|out| - 1][i - 1] && out[i - 1] == out[..|out| - 1][i - 1];
    }
  }

  lemma GrownTurns(out: seq<Turn>, next: seq<Turn>)
    requires |next| == |out| + 1 && next[..|out|] == out
    requires forall i :: 0 <= i < |out| ==> TurnOk(out, i)
    ensures forall i :: 0 <= i < |out| ==> TurnOk(next, i)
  {
    hide UseIds, ResultIds, ResultsLead, Answered;
    forall i | 0 <= i < |out| ensures TurnOk(next, i) {
      assert TurnOk(out, i);
      assert next[i] == next[..|out|][i];
      assert i > 0 ==> next[i - 1] == next[..|out|][i - 1];
    }
  }

  lemma AnswerStep(out: seq<Turn>, pending: set<string>, id: string, text: string)
    requires Building(out, pending) && id in pending
    ensures Building(Push(out, false, [ResultBlock(id, text, false, false)]), pending - {id})
  {
    hide UseIds, ResultIds, ResultsLead, NoDup, OnlyResults;
    var block := ResultBlock(id, text, false, false);
    var next := Push(out, false, [block]);
    OneBlock(block);
    OneIsNoDup(id);
    if out[|out| - 1].assistant {
      assert TurnOk(out, |out| - 1);
      LeadingResults([], block);
      assert [] + [block] == [block];
      assert forall i :: 0 <= i < |out| ==> TurnOk(next, i) by { GrownTurns(out, next); }
    } else {
      AnswerOn(out, pending, block);
    }
  }

  lemma AnswerOn(out: seq<Turn>, pending: set<string>, block: Block)
    requires Building(out, pending) && out != [] && !out[|out| - 1].assistant
    requires block.ResultBlock? && block.id in pending
    requires ResultIds([block]) == [block.id] && UseIds([block]) == []
    ensures Building(Push(out, false, [block]), pending - {block.id})
  {
    hide UseIds, ResultIds, ResultsLead, NoDup, OnlyResults, TurnOk;
    var next, was := Push(out, false, [block]), out[|out| - 1].blocks;
    OneIsNoDup(block.id);
    IdsJoin(was, [block]);
    NamesJoin(ResultIds(was), [block.id]);
    NoDupJoin(ResultIds(was), [block.id]);
    LeadingResults(was, block);
    assert forall i :: 0 <= i < |out| - 1 ==> TurnOk(next, i) by { EarlierTurns(out, next); }
  }

  lemma OneIsNoDup(id: string)
    ensures NoDup([id]) && Names([id]) == {id}
  {
  }

  lemma LeadingResults(was: seq<Block>, block: Block)
    requires OnlyResults(was) && block.ResultBlock?
    ensures OnlyResults(was + [block]) && ResultsLead(was + [block])
  {
  }

  lemma {:induction false} TurnsAreBuilding(messages: seq<Message>, valid: string -> bool, allowed: bool)
    requires messages != [] ==> messages[0].role.User?
    ensures var w := TakeAll(messages, valid); w.Some? ==> Building(Turns(w.value.out, allowed), w.value.pending)
    ensures var w := TakeAll(messages, valid);
            w.Some? ==> "" !in w.value.pending && (messages != [] ==> Turns(w.value.out, allowed) != [])
    decreases |messages|
  {
    hide CallsOk, Ids, Blank, CallParts, Building, Blocks, UseIds, ResultIds, NoDup;
    if messages == [] {
      NothingBuilt(allowed);
    } else {
      var front, m := messages[..|messages| - 1], messages[|messages| - 1];
      TurnsAreBuilding(front, valid, allowed);
      var w := TakeAll(front, valid);
      if w.Some? && Take(w.value, m, valid).Some? {
        TakenStep(w.value, m, valid, allowed, front == []);
        TakenIsAppended(w.value, m, valid, allowed);
        hide Take, Turns;
        assert TakeAll(messages, valid) == Take(w.value, m, valid);
      }
    }
  }

  lemma TakenIsAppended(w: Walk, m: Message, valid: string -> bool, allowed: bool)
    requires Take(w, m, valid).Some?
    ensures var out := Take(w, m, valid).value.out; var last := out[|out| - 1];
            Turns(out, allowed) == Push(Turns(w.out, allowed), last.role.Assistant?, Blocks(last.parts, allowed))
  {
    hide CallsOk, Ids, Names, Blank, CallParts, Blocks, Push;
    var out := Take(w, m, valid).value.out;
    assert out[..|out| - 1] == w.out;
  }

  lemma NothingBuilt(allowed: bool)
    ensures Building(Turns([], allowed), {})
  {
  }

  lemma TakenStep(w: Walk, m: Message, valid: string -> bool, allowed: bool, first: bool)
    requires Take(w, m, valid).Some? && Building(Turns(w.out, allowed), w.pending) && "" !in w.pending
    requires if first then m.role.User? else Turns(w.out, allowed) != []
    ensures var next := Take(w, m, valid).value; var last := next.out[|next.out| - 1];
            var grown := Push(Turns(w.out, allowed), last.role.Assistant?, Blocks(last.parts, allowed));
            Building(grown, next.pending) && grown != [] && "" !in next.pending
  {
    hide CallsOk, Ids, Blocks, UseIds, ResultIds, NoDup, Turns;
    if m.role.Tool? {
      AnswerStep(Turns(w.out, allowed), w.pending, m.callId, m.content);
      ResultAlone(m.callId, m.content, allowed);
    } else {
      SpokenBlocks(m, w.seen, valid, allowed);
      CallsAreNew(m.calls, w.seen, valid);
      NoIds();
      SpokenStep(Turns(w.out, allowed), m.role.Assistant?,
                 Blocks((if m.content != "" then [TextOf(m.content)] else []) + CallParts(m.calls), allowed),
                 Ids(m.calls));
    }
  }

  /**
   * An accepted transcript becomes turns that start and end with the user, alternate, lead each turn of
   * the user with its tool results, and answer in each of them exactly the calls of the turn before.
   */
  lemma {:induction false} AcceptedIsWellBuilt(messages: seq<Message>, valid: string -> bool, allowed: bool)
    requires Accept(messages, valid).Some?
    ensures var out := Build(Accept(messages, valid).value, allowed);
            out != [] && Alternates(out) && !out[0].assistant && !out[|out| - 1].assistant &&
            forall i :: 0 <= i < |out| ==> TurnOk(out, i)
  {
    hide Turns, Building, TurnOk, Take, LastOwes, TakeAll, Repair;
    var out := Turns(Accept(messages, valid).value, allowed);
    TurnsAlternate(Accept(messages, valid).value, allowed);
    TurnsAreBuilding(messages, valid, allowed);
    EndsWithTheUser(messages, valid, allowed);
    BuiltIsOk(out);
    NothingToRepair(out);
  }

  lemma EndsWithTheUser(messages: seq<Message>, valid: string -> bool, allowed: bool)
    requires Accept(messages, valid).Some?
    ensures var out := Turns(Accept(messages, valid).value, allowed);
            out != [] ==> !out[|out| - 1].assistant
  {
    hide Blocks, CallsOk, Ids, CallParts, Blank, Building, Push, Names;
    var front, m := messages[..|messages| - 1], messages[|messages| - 1];
    var w := TakeAll(front, valid).value;
    var out := Take(w, m, valid).value.out;
    assert out[..|out| - 1] == w.out;
    TurnsAreBuilding(front, valid, allowed);
    TakenEnds(w, m, valid, allowed);
  }

  lemma TakenEnds(w: Walk, m: Message, valid: string -> bool, allowed: bool)
    ensures Take(w, m, valid).Some? && !m.role.Assistant? && "" !in w.pending ==>
              var next := Take(w, m, valid).value.out; var last := next[|next| - 1];
              var out := Push(Turns(w.out, allowed), last.role.Assistant?, Blocks(last.parts, allowed));
              out != [] && !out[|out| - 1].assistant
  {
    hide Blocks, CallsOk, Ids, Turns;
    if Take(w, m, valid).Some? && !m.role.Assistant? && "" !in w.pending {
      if m.role.Tool? { ResultAlone(m.callId, m.content, allowed); } else { SpokenBlocks(m, w.seen, valid, allowed); }
    }
  }

  lemma BuiltIsOk(out: seq<Turn>)
    ensures out != [] && Building(out, {}) ==> !out[0].assistant && forall i :: 0 <= i < |out| ==> TurnOk(out, i)
  {
    hide TurnOk, LastOwes;
    LastIsDone(out);
  }

  lemma NothingToRepair(out: seq<Turn>)
    requires out != [] && out[0].blocks != [] && !out[0].assistant && TurnOk(out, 0)
    ensures Repair(out) == out
  {
    hide UseIds, ResultIds, ResultsLead, NoDup, WithoutResults;
    var blocks := out[0].blocks;
    NamesOfNone(ResultIds(blocks));
    assert Names([]) == {};
    NoResultIds(blocks);
    OthersStay(blocks);
    assert out == [out[0]] + out[1..];
  }
}
