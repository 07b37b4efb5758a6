/** Which transcripts the assistant accepts, told from the messages alone. */
module Acceptance {
  import opened Text
  import opened Transcript

  predicate CallFits(call: Call, valid: string -> bool) {
    0 < |call.id| <= 200 && call.name == "run_admin_command" && valid(call.arguments)
  }

  /** What every message has to be by itself. */
  predicate MessageFits(m: Message, valid: string -> bool) {
    |m.content| <= 131072 &&
    match m.role
    case User => m.callId == "" && m.calls == [] && !Blank(m.content)
    case Assistant =>
      m.callId == "" && (m.content != "" || m.calls != []) && |m.calls| <= 8 &&
      forall k :: 0 <= k < |m.calls| ==> CallFits(m.calls[k], valid)
    case Tool => m.calls == []
    case Other => false
  }

  /**
   * At most 64 messages, begun by the user and not left to the assistant, none of whose calls shares an
   * id with another, each answered exactly once by the tool messages right behind it.
   */
  predicate IsTranscript(messages: seq<Message>, valid: string -> bool) {
    0 < |messages| <= 64 && messages[0].role.User? && !messages[|messages| - 1].role.Assistant? &&
    (forall i :: 0 <= i < |messages| ==> MessageFits(messages[i], valid)) && NoDup(AllIds(messages)) &&
    forall i :: 0 <= i < |messages| && !messages[i].role.Tool? ==>
      Answered(Ids(messages[i].calls), Replies(messages, i))
  }

  lemma NoDupOneMore(ids: seq<string>, id: string)
    ensures NoDup(ids + [id]) <==> NoDup(ids) && id !in Names(ids)
  {
    var more := ids + [id];
    assert more[|ids|] == id && forall i :: 0 <= i < |ids| ==> more[i] == ids[i];
  }

  /** A message's calls are taken when each fits and their ids are new and differ. */
  lemma {:induction false} CallsFit(calls: seq<Call>, seen: set<string>, valid: string -> bool)
    ensures CallsOk(calls, seen, valid) <==>
            (forall k :: 0 <= k < |calls| ==> CallFits(calls[k], valid)) &&
            NoDup(Ids(calls)) && Names(Ids(calls)) !! seen
  {
    hide NoDup, Names;
    if calls == [] {
      NothingIsNew(seen);
    } else {
      var n := |calls| - 1;
      var front, last := calls[..n], calls[n];
      CallsFit(front, seen, valid);
      NoDupOneMore(Ids(front), last.id);
      NamesJoin(Ids(front), [last.id]);
      OneName(last.id);
      assert forall k :: 0 <= k < n ==> front[k] == calls[k];
    }
  }

  lemma NothingIsNew(seen: set<string>)
    ensures NoDup([]) && Names([]) !! seen
  {
  }

  lemma OneName(id: string)
    ensures Names([id]) == {id}
  {
  }

  lemma {:induction false} TakenFit(messages: seq<Message>, valid: string -> bool)
    requires TakeAll(messages, valid).Some?
    ensures forall i :: 0 <= i < |messages| ==> MessageFits(messages[i], valid)
  {
    if messages != [] {
      var n := |messages| - 1;
      var front, m := messages[..n], messages[n];
      TakenFit(front, valid);
      CallsFit(m.calls, TakeAll(front, valid).value.seen, valid);
      hide CallsOk, Blank, Ids, NoDup, CallFits;
      assert MessageFits(m, valid) by {
        assert m.content == "" && m.calls == [] ==> CallParts(m.calls) == [];
      }
      assert forall i :: 0 <= i < n ==> front[i] == messages[i];
    }
  }

  // --- what is accepted is all that is --------------------------------------------------------------

  lemma {:induction false} PrefixReplies(messages: seq<Message>, k: nat, s: nat)
    requires s < k <= |messages| && ToolsFrom(messages[..k], s + 1)
    ensures Replies(messages[..k], s) <= Replies(messages, s)
    ensures k == |messages| || !messages[k].role.Tool? ==> Replies(messages[..k], s) == Replies(messages, s)
    ensures k < |messages| && messages[k].role.Tool? ==>
              Replies(messages[..k], s) + [messages[k].callId] <= Replies(messages, s)
    decreases k - s
  {
    if s + 1 < k {
      assert messages[..k][s + 1] == messages[s + 1];
      PrefixReplies(messages, k, s + 1);
    }
  }

  lemma {:induction false} PrefixIds(messages: seq<Message>, k: nat)
    requires k <= |messages|
    ensures AllIds(messages[..k]) <= AllIds(messages)
    decreases |messages|
  {
    if k < |messages| {
      assert messages[..|messages| - 1][..k] == messages[..k];
      PrefixIds(messages[..|messages| - 1], k);
    } else {
      assert messages[..k] == messages;
    }
  }

  lemma NoDupParts(a: seq<string>, b: seq<string>, all: seq<string>)
    requires a + b <= all && NoDup(all)
    ensures NoDup(a) && NoDup(b) && Names(a) !! Names(b)
  {
    var ab := a + b;
    assert forall i :: 0 <= i < |ab| ==> ab[i] == all[i];
    assert forall i :: 0 <= i < |a| ==> ab[i] == a[i];
    assert forall i :: 0 <= i < |b| ==> ab[|a| + i] == b[i];
    forall i, j | 0 <= i < |a| && 0 <= j < |b| ensures a[i] != b[j] {
      assert ab[i] != ab[|a| + j];
    }
  }

  /** As far as a transcript has been walked, nothing is owed but what the messages to come answer. */
  lemma PendingIsToCome(messages: seq<Message>, valid: string -> bool, k: nat)
    requires IsTranscript(messages, valid) && 0 < k <= |messages| && TakeAll(messages[..k], valid).Some?
    ensures var w := TakeAll(messages[..k], valid).value;
            (k == |messages| || !messages[k].role.Tool? ==> w.pending == {}) &&
            (k < |messages| && messages[k].role.Tool? ==> messages[k].callId in w.pending) &&
            w.seen == Names(AllIds(messages[..k]))
  {
    var front := messages[..k];
    var w := TakeAll(front, valid).value;
    WalksAreSound(front, valid);
    assert front[0] == messages[0];
    hide MessageFits, Ids, AllIds, TakeAll, Take;
    var s :| 0 <= s < |front| && OwedTo(front, w.pending, s);
    assert front[s] == messages[s];
    PrefixReplies(messages, k, s);
    assert Answered(Ids(messages[s].calls), Replies(messages, s));
    if k < |messages| && messages[k].role.Tool? {
      var id := messages[k].callId;
      NoDupParts(Replies(front, s), [id], Replies(messages, s));
      assert id in [id] && id in Replies(front, s) + [id];
      assert id in Names(Replies(messages, s)) by {
        var all := Replies(front, s) + [id];
        assert Replies(messages, s)[|all| - 1] == all[|all| - 1] == id;
      }
    }
  }

  lemma {:induction false} TranscriptIsTaken(messages: seq<Message>, valid: string -> bool, k: nat)
    requires IsTranscript(messages, valid) && k <= |messages|
    ensures TakeAll(messages[..k], valid).Some?
  {
    if k > 0 {
      var front, m := messages[..k - 1], messages[k - 1];
      TranscriptIsTaken(messages, valid, k - 1);
      assert messages[..k][..k - 1] == front && messages[..k][k - 1] == m;
      assert MessageFits(m, valid);
      if k > 1 { PendingIsToCome(messages, valid, k - 1); }
      var w := TakeAll(front, valid).value;
      PrefixIds(messages, k);
      assert AllIds(messages[..k]) == AllIds(front) + Ids(m.calls);
      NoDupParts(AllIds(front), Ids(m.calls), AllIds(messages));
      CallsFit(m.calls, w.seen, valid);
      hide TakeAll, Ids, AllIds, NoDup, IsTranscript, CallsOk, CallFits;
      assert Take(w, m, valid).Some?;
    }
  }

  /** A transcript is accepted exactly when it is one. */
  lemma AcceptedExactlyWhen(messages: seq<Message>, valid: string -> bool)
    ensures Accept(messages, valid).Some? <==> IsTranscript(messages, valid)
  {
    hide TakeAll, MessageFits, NoDup, AllIds, Answered;
    if IsTranscript(messages, valid) {
      TranscriptIsTaken(messages, valid, |messages|);
      PendingIsToCome(messages, valid, |messages|);
      assert messages[..|messages|] == messages;
    }
    if Accept(messages, valid).Some? {
      AcceptedIsAnswered(messages, valid);
      TakenFit(messages, valid);
    }
  }

  /** What a message becomes: its words and then its calls, or the result it gives, to the letter. */
  predicate Keeps(m: Message, u: Unified) {
    u.role == m.role &&
    if m.role.Tool? then u.parts == [Part(ResultPart, m.content, "", m.callId, "", "", false, false)]
    else
      var n := if m.content == "" then 0 else 1;
      |u.parts| == n + |m.calls| &&
      (n == 1 ==> u.parts[0] == Part(TextPart, m.content, "", "", "", "", false, false)) &&
      forall k :: 0 <= k < |m.calls| ==>
        var call := m.calls[k];
        u.parts[n + k] == Part(CallPart, "", "", call.id, call.name, call.arguments, false, false)
  }

  lemma {:induction false} EachCallIsAPart(calls: seq<Call>)
    ensures |CallParts(calls)| == |calls|
    ensures forall k :: 0 <= k < |calls| ==> CallParts(calls)[k] == CallOf(calls[k])
  {
    if calls != [] { EachCallIsAPart(calls[..|calls| - 1]); }
  }

  lemma TakenIsKept(w: Walk, m: Message, valid: string -> bool)
    ensures Take(w, m, valid).Some? ==>
              exists u :: Take(w, m, valid).value.out == w.out + [u] && Keeps(m, u)
  {
    hide CallsOk, Ids, Names, Blank, CallParts;
    EachCallIsAPart(m.calls);
    if Take(w, m, valid).Some? {
      var out := Take(w, m, valid).value.out;
      assert Keeps(m, out[|w.out|]);
    }
  }

  lemma {:induction false} EveryMessageIsTaken(messages: seq<Message>, valid: string -> bool)
    requires TakeAll(messages, valid).Some?
    ensures var out := TakeAll(messages, valid).value.out;
            |out| == |messages| && forall i :: 0 <= i < |messages| ==> Keeps(messages[i], out[i])
  {
    hide CallsOk, Ids, Names, Blank, CallParts;
    if messages != [] {
      var n := |messages| - 1;
      var front, m := messages[..n], messages[n];
      EveryMessageIsTaken(front, valid);
      TakenIsKept(TakeAll(front, valid).value, m, valid);
      hide Keeps, Take;
      assert TakeAll(messages, valid) == Take(TakeAll(front, valid).value, m, valid);
      assert forall i :: 0 <= i < n ==> front[i] == messages[i];
    }
  }

  /** Nothing of an accepted transcript is lost on the way to the model. */
  lemma EveryMessageIsKept(messages: seq<Message>, valid: string -> bool)
    ensures Accept(messages, valid).Some? ==>
              var out := Accept(messages, valid).value;
              |out| == |messages| && forall i :: 0 <= i < |messages| ==> Keeps(messages[i], out[i])
  {
    hide TakeAll, Keeps;
    if Accept(messages, valid).Some? { EveryMessageIsTaken(messages, valid); }
  }
}
