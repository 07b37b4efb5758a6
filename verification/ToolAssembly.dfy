/** Reassembling the tool calls of one streamed answer from fragments that may be interleaved. */
module ToolAssembly {
  import opened Text

  datatype Fragment = Fragment(index: Option<int>, id: string, name: string, arguments: string)

  datatype Call = Call(id: string, name: string, arguments: string)

  const NEW_CALL := Call("", "", "")

  /** MaxToolArgumentBytes, counting a character as one byte. */
  const MAX_ARGUMENTS := 8388608

  /** The calls so far, the position each wire index names, and the call touched last. */
  datatype Assembly = Assembly(calls: seq<Call>, at: map<int, nat>, last: nat)

  const NOTHING := Assembly([], map[], 0)

  // --- one call ------------------------------------------------------------------------

  function MergeName(previous: string, name: string): string {
    if name == "" || name == previous then previous
    else if previous <= name then name
    else previous + name
  }

  function Grow(call: Call, f: Fragment): Call {
    Call(if f.id != "" then f.id else call.id, MergeName(call.name, f.name), call.arguments + f.arguments)
  }

  /** The call a run of fragments spells when nothing else is in the stream. */
  function Assemble(fragments: seq<Fragment>): Call {
    if fragments == [] then NEW_CALL
    else Grow(Assemble(fragments[..|fragments| - 1]), fragments[|fragments| - 1])
  }

  // --- which call a fragment belongs to -----------------------------------------------------

  predicate Valid(a: Assembly) {
    (forall i :: i in a.at ==> a.at[i] < |a.calls|) &&
    (forall i, j :: i in a.at && j in a.at && a.at[i] == a.at[j] ==> i == j) &&
    (a.calls != [] ==> a.last < |a.calls|)
  }

  function WithId(calls: seq<Call>, id: string, from: nat := 0): (p: int)
    requires from <= |calls|
    ensures p == -1 || (from <= p < |calls| && calls[p].id == id)
    ensures forall j :: from <= j < |calls| && (p < 0 || j < p) ==> calls[j].id != id
    decreases |calls| - from
  {
    if from == |calls| then -1
    else if calls[from].id == id then from
    else WithId(calls, id, from + 1)
  }

  predicate Bound(a: Assembly, p: int) {
    exists i :: i in a.at && a.at[i] == p
  }

  /** The call that is carried on under an index not seen before, or -1 if a new one starts. */
  function Continuation(a: Assembly, f: Fragment): (p: int)
    requires Valid(a)
    ensures p == -1 || (0 <= p < |a.calls| && !Bound(a, p))
  {
    if f.id != "" then
      var p := WithId(a.calls, f.id);
      if p >= 0 && Bound(a, p) then -1 else p
    else if a.calls == [] || Bound(a, a.last) then -1
    else a.last
  }

  function Opened(a: Assembly): Assembly {
    a.(calls := a.calls + [NEW_CALL], last := |a.calls|)
  }

  /** The assembly with the fragment's call in place; `last` is its position. */
  function Place(a: Assembly, f: Fragment): (b: Assembly)
    requires Valid(a)
    ensures Valid(b) && b.last < |b.calls|
    ensures b.calls == a.calls || b.calls == a.calls + [NEW_CALL]
  {
    if f.index.Some? then
      var i := f.index.value;
      if i in a.at then a.(last := a.at[i])
      else
        var known := Continuation(a, f);
        if known >= 0 then a.(at := a.at[i := known], last := known)
        else Opened(a).(at := a.at[i := |a.calls|])
    else if f.id != "" then
      var p := WithId(a.calls, f.id);
      if p >= 0 then a.(last := p) else Opened(a)
    else if a.calls != [] then a
    else Opened(a)
  }

  /** One fragment; none when its call's arguments grow too large. */
  function AbsorbOne(a: Assembly, f: Fragment): (r: Option<Assembly>)
    requires Valid(a)
    ensures r.Some? ==> Valid(r.value)
  {
    var b := Place(a, f);
    if |b.calls[b.last].arguments| + |f.arguments| > MAX_ARGUMENTS then None
    else Some(b.(calls := b.calls[b.last := Grow(b.calls[b.last], f)]))
  }

  function Absorb(a: Assembly, fragments: seq<Fragment>): (r: Option<Assembly>)
    requires Valid(a)
    ensures r.Some? ==> Valid(r.value)
  {
    if fragments == [] then Some(a)
    else
      match Absorb(a, fragments[..|fragments| - 1])
      case None => None
      case Some(b) => AbsorbOne(b, fragments[|fragments| - 1])
  }

  // --- the calls that are sent ------------------------------------------------------------------

  function Least(s: set<int>): (m: int)
    requires s != {}
    ensures m in s && forall x :: x in s ==> m <= x
  {
    LeastExists(s);
    var m :| m in s && forall x :: x in s ==> m <= x;
    m
  }

  lemma {:induction false} LeastExists(s: set<int>)
    requires s != {}
    ensures exists m :: m in s && forall x :: x in s ==> m <= x
  {
    assert (forall y :: y !in s) ==> s == {};
    var y :| y in s;
    if s != {y} {
      LeastExists(s - {y});
      var m :| m in s - {y} && forall x :: x in s - {y} ==> m <= x;
      var least := if y < m then y else m;
      assert forall x :: x in s ==> x == y || x in s - {y};
      assert least in s && forall x :: x in s ==> least <= x;
    }
  }

  function Ascending(s: set<int>): (r: seq<int>)
    ensures forall x :: x in r <==> x in s
    ensures forall i, j :: 0 <= i < j < |r| ==> r[i] < r[j]
    decreases |s|
  {
    if s == {} then []
    else
      var m := Least(s);
      [m] + Ascending(s - {m})
  }

  /** Positions no index names, in the order they were opened. */
  function Unbound(a: Assembly, from: nat := 0): (r: seq<nat>)
    requires from <= |a.calls|
    ensures forall p :: p in r <==> from <= p < |a.calls| && !Bound(a, p)
    ensures forall i, j :: 0 <= i < j < |r| ==> r[i] < r[j]
    decreases |a.calls| - from
  {
    if from == |a.calls| then []
    else
      var more := Unbound(a, from + 1);
      if Bound(a, from) then more
      else
        assert forall j :: 0 <= j < |more| ==> more[j] in more;
        [from] + more
  }

  function Indexed(a: Assembly): (r: seq<nat>)
    requires Valid(a)
    ensures |r| == |Ascending(a.at.Keys)| && forall k :: 0 <= k < |r| ==> r[k] == a.at[Ascending(a.at.Keys)[k]]
  {
    var order := Ascending(a.at.Keys);
    seq(|order|, k requires 0 <= k < |order| => assert order[k] in order; a.at[order[k]])
  }

  /** The order calls are sent in: by wire index, then those that never had one. */
  function Order(a: Assembly): seq<nat>
    requires Valid(a)
  {
    Indexed(a) + Unbound(a)
  }

  /** Arguments a provider may have meant, and what they are sent as. */
  predicate WellFormed(valid: string -> bool, raw: string) {
    var trimmed := TrimSpace(raw);
    trimmed == "" || trimmed == "null" || ("{" <= trimmed && valid(trimmed))
  }

  function ToolArguments(valid: string -> bool, raw: string): string {
    var trimmed := TrimSpace(raw);
    if trimmed == "" || trimmed == "null" || !valid(trimmed) then "{}" else raw
  }

  /** What is sent, and whether the turn ended well: it stops at the first malformed call. */
  function Deliver(valid: string -> bool, calls: seq<Call>): (seq<Call>, bool) {
    if calls == [] then ([], true)
    else
      var call, rest := calls[0], calls[1..];
      if call.name == "" then Deliver(valid, rest)
      else if !WellFormed(valid, call.arguments) then ([], false)
      else
        var more := Deliver(valid, rest);
        ([call.(arguments := ToolArguments(valid, call.arguments))] + more.0, more.1)
  }

  /** What arguments written as `raw` are sent as: themselves to the letter, or an empty object when none are meant. */
  predicate Carries(sent: string, raw: string) {
    sent == if TrimSpace(raw) == "" || TrimSpace(raw) == "null" then "{}" else raw
  }

  predicate IsSentFor(sent: Call, call: Call) {
    sent.id == call.id && sent.name == call.name && Carries(sent.arguments, call.arguments)
  }

  lemma OneIsSent(valid: string -> bool, call: Call)
    ensures WellFormed(valid, call.arguments) ==>
              IsSentFor(call.(arguments := ToolArguments(valid, call.arguments)), call)
  {
  }

  /** An object is sent whatever white space stands around it, none at all and `null` too, and nothing else. */
  lemma ObjectsAreWellFormed(valid: string -> bool, a: string, core: string, b: string)
    requires Blank(a) && Blank(b)
    requires core != "" ==> !IsSpace(core[0]) && !IsSpace(core[|core| - 1])
    ensures WellFormed(valid, a + core + b) <==> core == "" || core == "null" || (core[0] == '{' && valid(core))
    ensures WellFormed(valid, a + core + b) ==>
              ToolArguments(valid, a + core + b) == if core == "" || core == "null" then "{}" else a + core + b
  {
    TrimSpaceIs(a, core, b);
    assert core != "" ==> ("{" <= core <==> core[0] == '{');
  }

  function Named(calls: seq<Call>): seq<Call> {
    if calls == [] then [] else (if calls[0].name != "" then [calls[0]] else []) + Named(calls[1..])
  }

  /**
   * Every call with a name is sent once, in order, up to the first whose arguments are no
   * object; that one and those behind it are not, and the turn fails exactly when there is one.
   */
  lemma {:induction false} NamedAreSent(valid: string -> bool, calls: seq<Call>)
    ensures var (sent, ok) := Deliver(valid, calls);
            var named := Named(calls);
            |sent| <= |named| && (ok <==> |sent| == |named|) &&
            (forall k :: 0 <= k < |sent| ==>
              IsSentFor(sent[k], named[k]) && WellFormed(valid, named[k].arguments)) &&
            (|sent| < |named| ==> !WellFormed(valid, named[|sent|].arguments))
  {
    hide WellFormed, ToolArguments, IsSentFor;
    if calls != [] {
      NamedAreSent(valid, calls[1..]);
      var call, more, later := calls[0], Deliver(valid, calls[1..]), Named(calls[1..]);
      OneIsSent(valid, call);
      if call.name == "" {
        assert Named(calls) == later;
      } else {
        assert Named(calls) == [call] + later;
      }
    }
  }

  function InOrder(a: Assembly): seq<Call>
    requires Valid(a)
  {
    var order := Order(a);
    seq(|order|, k requires 0 <= k < |order| => assert OrderInRange(a, k); a.calls[order[k]])
  }

  predicate OrderInRange(a: Assembly, k: nat)
    requires Valid(a) && k < |Order(a)|
    ensures OrderInRange(a, k) && Order(a)[k] < |a.calls|
  {
    var p := Order(a)[k];
    assert k >= |Indexed(a)| ==> p in Unbound(a);
    assert k < |Indexed(a)| ==> Ascending(a.at.Keys)[k] in Ascending(a.at.Keys);
    p < |a.calls|
  }

  /** Every call has exactly one place in the order. */
  lemma OrderIsComplete(a: Assembly)
    requires Valid(a)
    ensures forall p :: 0 <= p < |a.calls| ==> p in Order(a)
    ensures forall k :: 0 <= k < |Order(a)| ==> Order(a)[k] < |a.calls|
    ensures forall j, k :: 0 <= j < k < |Order(a)| ==> Order(a)[j] != Order(a)[k]
  {
    var keys, first, others := Ascending(a.at.Keys), Indexed(a), Unbound(a);
    forall k | 0 <= k < |Order(a)|
      ensures Order(a)[k] < |a.calls|
    {
      assert OrderInRange(a, k);
    }
    forall p | 0 <= p < |a.calls|
      ensures p in Order(a)
    {
      if Bound(a, p) {
        var i :| i in a.at && a.at[i] == p;
        assert i in keys;
        var k :| 0 <= k < |keys| && keys[k] == i;
        assert Order(a)[k] == p;
      } else {
        assert p in others;
      }
    }
    forall j, k | 0 <= j < k < |Order(a)|
      ensures Order(a)[j] != Order(a)[k]
    {
      if k < |first| {
        assert keys[j] in keys && keys[k] in keys && keys[j] < keys[k];
      } else if j < |first| {
        assert keys[j] in keys && others[k - |first|] in others;
        assert Bound(a, first[j]);
      }
    }
  }

  // --- every byte lands once ------------------------------------------------------------------

  /** The call each fragment went to. */
  function Owners(a: Assembly, fragments: seq<Fragment>): (r: seq<nat>)
    requires Valid(a) && Absorb(a, fragments).Some?
    ensures |r| == |fragments|
  {
    if fragments == [] then []
    else
      var before := fragments[..|fragments| - 1];
      var b := Absorb(a, before).value;
      Owners(a, before) + [Place(b, fragments[|fragments| - 1]).last]
  }

  function Owned(fragments: seq<Fragment>, owners: seq<nat>, p: nat): seq<Fragment>
    requires |owners| == |fragments|
  {
    if fragments == [] then []
    else
      var n := |fragments| - 1;
      Owned(fragments[..n], owners[..n], p) + if owners[n] == p then [fragments[n]] else []
  }

  /**
   * Each call is what its own fragments spell, in the order they arrived: every fragment went to
   * one call and no call holds anything else.
   */
  lemma {:induction false} CallsAreTheirFragments(fragments: seq<Fragment>)
    requires Absorb(NOTHING, fragments).Some?
    ensures var a, owners := Absorb(NOTHING, fragments).value, Owners(NOTHING, fragments);
            (forall k :: 0 <= k < |owners| ==> owners[k] < |a.calls|) &&
            (forall p :: 0 <= p < |a.calls| ==> a.calls[p] == Assemble(Owned(fragments, owners, p)))
  {
    hide Place, Grow;
    if fragments != [] {
      var n := |fragments| - 1;
      var before, f := fragments[..n], fragments[n];
      CallsAreTheirFragments(before);
      var b, owners := Absorb(NOTHING, before).value, Owners(NOTHING, before);
      var c := Place(b, f);
      var all := Owners(NOTHING, fragments);
      assert all[..n] == owners && all[n] == c.last;
      var a := Absorb(NOTHING, fragments).value;
      forall p | 0 <= p < |a.calls|
        ensures a.calls[p] == Assemble(Owned(fragments, all, p))
      {
        var mine := Owned(before, owners, p);
        if p == |b.calls| {
          NoneOwned(before, owners, p);
        }
        assert c.calls[p] == Assemble(mine);
        if p == c.last {
          assert (mine + [f])[..|mine|] == mine;
        } else {
          assert mine + [] == mine;
        }
      }
    }
  }

  lemma {:induction false} NoneOwned(fragments: seq<Fragment>, owners: seq<nat>, p: nat)
    requires |owners| == |fragments| && forall k :: 0 <= k < |owners| ==> owners[k] < p
    ensures Owned(fragments, owners, p) == []
  {
    if fragments != [] {
      NoneOwned(fragments[..|fragments| - 1], owners[..|fragments| - 1], p);
    }
  }

  // --- what a call's own fragments spell ---------------------------------------------------------

  /** Their arguments, end to end. */
  function Written(fragments: seq<Fragment>): string {
    if fragments == [] then ""
    else Written(fragments[..|fragments| - 1]) + fragments[|fragments| - 1].arguments
  }

  /** The last id given. */
  function LastId(fragments: seq<Fragment>): string {
    if fragments == [] then ""
    else if fragments[|fragments| - 1].id != "" then fragments[|fragments| - 1].id
    else LastId(fragments[..|fragments| - 1])
  }

  /** The last name given, and all of them end to end. */
  function LastName(fragments: seq<Fragment>): string {
    if fragments == [] then ""
    else if fragments[|fragments| - 1].name != "" then fragments[|fragments| - 1].name
    else LastName(fragments[..|fragments| - 1])
  }

  function JoinedNames(fragments: seq<Fragment>): string {
    if fragments == [] then ""
    else JoinedNames(fragments[..|fragments| - 1]) + fragments[|fragments| - 1].name
  }

  /** A call's name sent over and over, whole or a little longer each time. */
  predicate NameGrows(fragments: seq<Fragment>) {
    fragments == [] ||
    var front, last := fragments[..|fragments| - 1], fragments[|fragments| - 1];
    NameGrows(front) && (last.name == "" || LastName(front) <= last.name)
  }

  /** A name sent in pieces, none of which begins with all that came before it. */
  predicate NameIsCut(fragments: seq<Fragment>) {
    fragments == [] ||
    var front, last := fragments[..|fragments| - 1], fragments[|fragments| - 1];
    NameIsCut(front) && (last.name == "" || JoinedNames(front) == "" || !(JoinedNames(front) <= last.name))
  }

  /** The arguments are all that was written and the id is the last; a name is told whichever way it is sent. */
  lemma {:induction false} AssembleSpells(fragments: seq<Fragment>)
    ensures var call := Assemble(fragments);
            call.arguments == Written(fragments) && call.id == LastId(fragments) &&
            (NameGrows(fragments) ==> call.name == LastName(fragments)) &&
            (NameIsCut(fragments) ==> call.name == JoinedNames(fragments))
  {
    if fragments != [] { AssembleSpells(fragments[..|fragments| - 1]); }
  }

  /** The call says what its own fragments spell, its arguments to the letter. */
  predicate SpelledBy(call: Call, own: seq<Fragment>) {
    call.id == LastId(own) && call.name == Assemble(own).name != "" && Carries(call.arguments, Written(own))
  }

  /** Those of the positions whose calls were given a name. */
  function NamedIn(a: Assembly, order: seq<nat>): (r: seq<nat>)
    ensures forall k :: 0 <= k < |r| ==> r[k] < |a.calls|
  {
    if order == [] then []
    else (if order[0] < |a.calls| && a.calls[order[0]].name != "" then [order[0]] else []) + NamedIn(a, order[1..])
  }

  lemma {:induction false} NamedAreAt(a: Assembly, order: seq<nat>, calls: seq<Call>)
    requires |calls| == |order|
    requires forall k :: 0 <= k < |order| ==> order[k] < |a.calls| && calls[k] == a.calls[order[k]]
    ensures |Named(calls)| == |NamedIn(a, order)|
    ensures forall k :: 0 <= k < |Named(calls)| ==>
              Named(calls)[k] == a.calls[NamedIn(a, order)[k]] && Named(calls)[k].name != ""
  {
    if order != [] { NamedAreAt(a, order[1..], calls[1..]); }
  }

  /** Each call sent is spelled by the fragments that went to it, in the order calls are sent. */
  ghost predicate SentAsSpelled(fragments: seq<Fragment>, sent: seq<Call>) {
    Absorb(NOTHING, fragments).Some? &&
    var a, owners := Absorb(NOTHING, fragments).value, Owners(NOTHING, fragments);
    var positions := NamedIn(a, Order(a));
    |sent| == |positions| && forall k :: 0 <= k < |sent| ==> SpelledBy(sent[k], Owned(fragments, owners, positions[k]))
  }

  lemma DeliveredIsSpelled(valid: string -> bool, fragments: seq<Fragment>)
    requires Absorb(NOTHING, fragments).Some?
    ensures var (sent, ok) := Deliver(valid, InOrder(Absorb(NOTHING, fragments).value));
            ok ==> SentAsSpelled(fragments, sent)
  {
    var a, owners := Absorb(NOTHING, fragments).value, Owners(NOTHING, fragments);
    var all, positions := InOrder(a), NamedIn(a, Order(a));
    OrderIsComplete(a);
    NamedAreSent(valid, all);
    assert forall k :: 0 <= k < |all| ==> OrderInRange(a, k);
    hide WellFormed, Carries, Absorb, Owned, Assemble, Written, LastId, Named, NamedIn, Order, Owners, Deliver;
    NamedAreAt(a, Order(a), all);
    CallsAreTheirFragments(fragments);
    var (sent, ok) := Deliver(valid, all);
    forall k | ok && 0 <= k < |sent| ensures SpelledBy(sent[k], Owned(fragments, owners, positions[k])) {
      AssembleSpells(Owned(fragments, owners, positions[k]));
      assert IsSentFor(sent[k], Named(all)[k]);
    }
  }

  // --- interleaving does not matter ------------------------------------------------------------

  predicate AllIndexed(fragments: seq<Fragment>) {
    forall k :: 0 <= k < |fragments| ==> fragments[k].index.Some?
  }

  /** The fragments that carry one index. */
  function Lane(fragments: seq<Fragment>, i: int): seq<Fragment> {
    if fragments == [] then []
    else
      var n := |fragments| - 1;
      Lane(fragments[..n], i) + if fragments[n].index == Some(i) then [fragments[n]] else []
  }

  function Indexes(fragments: seq<Fragment>): set<int> {
    set k | 0 <= k < |fragments| && fragments[k].index.Some? :: fragments[k].index.value
  }

  /** Every call belongs to one index, and is what that index's fragments alone spell. */
  ghost predicate ByLane(a: Assembly, fragments: seq<Fragment>) {
    a.at.Keys == Indexes(fragments) &&
    (forall p :: 0 <= p < |a.calls| ==> Bound(a, p)) &&
    (forall i :: i in a.at ==> a.at[i] < |a.calls| && a.calls[a.at[i]] == Assemble(Lane(fragments, i)))
  }

  lemma {:induction false} LanesAreIndependent(fragments: seq<Fragment>)
    requires AllIndexed(fragments) && Absorb(NOTHING, fragments).Some?
    ensures ByLane(Absorb(NOTHING, fragments).value, fragments)
  {
    hide ByLane, AbsorbOne;
    if fragments == [] {
      NothingByLane();
    } else {
      var n := |fragments| - 1;
      var before, f := fragments[..n], fragments[n];
      LanesAreIndependent(before);
      LaneGrows(Absorb(NOTHING, before).value, before, f);
      assert fragments == before + [f];
    }
  }

  lemma NothingByLane()
    ensures ByLane(NOTHING, [])
  {
  }

  lemma LaneGrows(b: Assembly, before: seq<Fragment>, f: Fragment)
    requires Valid(b) && ByLane(b, before) && f.index.Some? && AbsorbOne(b, f).Some?
    ensures ByLane(AbsorbOne(b, f).value, before + [f])
  {
    var i := f.index.value;
    var a := AbsorbOne(b, f).value;
    var all := before + [f];
    assert all[..|before|] == before;
    if i !in b.at {
      NoLane(before, i);
    }
    OneLaneGrows(b, f);
    hide AbsorbOne, Assemble, Lane;
    IndexesGrow(before, f);
    AllBound(b, f);
    hide Grow, Bound, Valid;
    forall j | j in a.at
      ensures a.at[j] < |a.calls| && a.calls[a.at[j]] == Assemble(Lane(all, j))
    {
      LaneOf(before, f, j);
    }
  }

  lemma LaneOf(before: seq<Fragment>, f: Fragment, j: int)
    ensures Assemble(Lane(before + [f], j)) ==
            if f.index == Some(j) then Grow(Assemble(Lane(before, j)), f) else Assemble(Lane(before, j))
  {
    hide Grow;
    var lane := Lane(before, j);
    assert (before + [f])[..|before|] == before;
    if f.index == Some(j) {
      assert (lane + [f])[..|lane|] == lane;
    } else {
      assert lane + [] == lane;
    }
  }

  /** A fragment with an index grows that index's call and leaves every other as it was. */
  lemma OneLaneGrows(b: Assembly, f: Fragment)
    ensures Valid(b) && f.index.Some? && AbsorbOne(b, f).Some? && (forall p :: 0 <= p < |b.calls| ==> Bound(b, p)) ==>
              var i, a := f.index.value, AbsorbOne(b, f).value;
              a.at.Keys == b.at.Keys + {i} && a.at[i] < |a.calls| &&
              a.calls[a.at[i]] == Grow(if i in b.at then b.calls[b.at[i]] else NEW_CALL, f) &&
              forall j :: j in b.at && j != i ==>
                a.at[j] == b.at[j] && a.at[j] < |a.calls| && a.calls[a.at[j]] == b.calls[b.at[j]]
  {
    hide Grow;
    if Valid(b) && f.index.Some? && AbsorbOne(b, f).Some? && (forall p :: 0 <= p < |b.calls| ==> Bound(b, p)) {
      assert f.index.value !in b.at ==> Continuation(b, f) == -1;
    }
  }

  lemma IndexesGrow(before: seq<Fragment>, f: Fragment)
    requires f.index.Some?
    ensures Indexes(before + [f]) == Indexes(before) + {f.index.value}
  {
    var all := before + [f];
    assert all[|before|] == f;
    forall x | x in Indexes(before)
      ensures x in Indexes(all)
    {
      var k :| 0 <= k < |before| && before[k].index.Some? && before[k].index.value == x;
      assert all[k] == before[k];
    }
  }

  lemma AllBound(b: Assembly, f: Fragment)
    requires Valid(b) && f.index.Some? && AbsorbOne(b, f).Some?
    requires forall p :: 0 <= p < |b.calls| ==> Bound(b, p)
    ensures var a := AbsorbOne(b, f).value;
            forall p :: 0 <= p < |a.calls| ==> Bound(a, p)
  {
    var a := AbsorbOne(b, f).value;
    forall p | 0 <= p < |a.calls|
      ensures Bound(a, p)
    {
      if p < |b.calls| {
        assert Bound(b, p);
        var j :| j in b.at && b.at[j] == p;
        assert a.at[j] == p;
      } else {
        assert a.at[f.index.value] == p;
      }
    }
  }

  lemma {:induction false} NoLane(fragments: seq<Fragment>, i: int)
    requires i !in Indexes(fragments)
    ensures Lane(fragments, i) == []
  {
    if fragments != [] {
      var n := |fragments| - 1;
      assert fragments[n].index != Some(i);
      assert forall x :: x in Indexes(fragments[..n]) ==> x in Indexes(fragments) by {
        assert forall k :: 0 <= k < n ==> fragments[..n][k] == fragments[k];
      }
      NoLane(fragments[..n], i);
    }
  }

  /** The arguments one index's fragments spell stay within the limit. */
  predicate LaneFits(fragments: seq<Fragment>, i: int) {
    |Assemble(Lane(fragments, i)).arguments| <= MAX_ARGUMENTS
  }

  lemma OneFragmentFits(b: Assembly, f: Fragment)
    ensures Valid(b) && f.index.Some? && (forall p :: 0 <= p < |b.calls| ==> Bound(b, p)) ==>
              var i := f.index.value;
              AbsorbOne(b, f).Some? <==>
              |(if i in b.at then b.calls[b.at[i]] else NEW_CALL).arguments| + |f.arguments| <= MAX_ARGUMENTS
  {
    hide Grow;
    if Valid(b) && f.index.Some? && (forall p :: 0 <= p < |b.calls| ==> Bound(b, p)) {
      assert f.index.value !in b.at ==> Continuation(b, f) == -1;
    }
  }

  /** Whether fragments are absorbed at all depends only on what each index's own add up to. */
  lemma {:induction false} AbsorbedWhenLanesFit(fragments: seq<Fragment>)
    requires AllIndexed(fragments)
    ensures Absorb(NOTHING, fragments).Some? <==> forall i :: LaneFits(fragments, i)
  {
    hide AbsorbOne, Assemble, Lane, Bound, Indexes;
    if fragments == [] {
      NothingFits();
    } else {
      var n := |fragments| - 1;
      var before, f := fragments[..n], fragments[n];
      assert fragments == before + [f];
      AbsorbedWhenLanesFit(before);
      forall i ensures LaneFits(fragments, i) ==> LaneFits(before, i)
      {
        LaneOf(before, f, i);
      }
      if Absorb(NOTHING, before).Some? {
        var b := Absorb(NOTHING, before).value;
        LanesAreIndependent(before);
        OneFragmentFits(b, f);
        var own := f.index.value;
        if own !in b.at { NoLane(before, own); EmptyLane(); }
        forall i ensures i != own ==> LaneFits(fragments, i) == LaneFits(before, i)
        {
          LaneOf(before, f, i);
        }
        LaneOf(before, f, own);
        assert Absorb(NOTHING, fragments) == AbsorbOne(b, f);
        assert LaneFits(fragments, own) <==> AbsorbOne(b, f).Some?;
      }
    }
  }

  lemma NothingFits()
    ensures forall i :: LaneFits([], i)
  {
  }

  lemma EmptyLane()
    ensures Assemble([]) == NEW_CALL
  {
  }

  /** The calls of indexed fragments, lane by lane in ascending order. */
  function LaneCalls(fragments: seq<Fragment>): seq<Call> {
    var order := Ascending(Indexes(fragments));
    seq(|order|, k requires 0 <= k < |order| => Assemble(Lane(fragments, order[k])))
  }

  lemma NoneUnbound(a: Assembly, from: nat)
    requires from <= |a.calls| && forall p :: 0 <= p < |a.calls| ==> Bound(a, p)
    ensures Unbound(a, from) == []
    decreases |a.calls| - from
  {
    if from < |a.calls| {
      NoneUnbound(a, from + 1);
    }
  }

  lemma InOrderIsLaneCalls(fragments: seq<Fragment>)
    requires AllIndexed(fragments) && Absorb(NOTHING, fragments).Some?
    ensures InOrder(Absorb(NOTHING, fragments).value) == LaneCalls(fragments)
  {
    var a := Absorb(NOTHING, fragments).value;
    LanesAreIndependent(fragments);
    NoneUnbound(a, 0);
    hide Absorb, Bound, Unbound, Assemble, Lane, Ascending, Indexes;
    var order := Ascending(a.at.Keys);
    assert Order(a) == Indexed(a);
    forall k | 0 <= k < |order|
      ensures InOrder(a)[k] == LaneCalls(fragments)[k]
    {
      assert order[k] in order;
    }
  }

  /**
   * When every fragment carries an index, whether they are taken and what is sent depend only on
   * what each index's own fragments say, however they were interleaved, and the calls come in
   * ascending order of index.
   */
  lemma InterleavingDoesNotMatter(valid: string -> bool, one: seq<Fragment>, other: seq<Fragment>)
    requires AllIndexed(one) && AllIndexed(other)
    requires forall i :: Lane(one, i) == Lane(other, i)
    ensures Absorb(NOTHING, one).Some? <==> Absorb(NOTHING, other).Some?
    ensures Absorb(NOTHING, one).Some? ==>
              Deliver(valid, InOrder(Absorb(NOTHING, one).value))
              == Deliver(valid, InOrder(Absorb(NOTHING, other).value)) &&
              InOrder(Absorb(NOTHING, one).value) == LaneCalls(one)
  {
    AbsorbedWhenLanesFit(one);
    AbsorbedWhenLanesFit(other);
    assert forall i :: LaneFits(one, i) == LaneFits(other, i);
    if Absorb(NOTHING, one).Some? { SentByLane(valid, one, other); }
  }

  lemma SentByLane(valid: string -> bool, one: seq<Fragment>, other: seq<Fragment>)
    requires AllIndexed(one) && Absorb(NOTHING, one).Some?
    requires AllIndexed(other) && Absorb(NOTHING, other).Some?
    requires forall i :: Lane(one, i) == Lane(other, i)
    ensures Deliver(valid, InOrder(Absorb(NOTHING, one).value))
            == Deliver(valid, InOrder(Absorb(NOTHING, other).value))
    ensures InOrder(Absorb(NOTHING, one).value) == LaneCalls(one)
  {
    InOrderIsLaneCalls(one);
    InOrderIsLaneCalls(other);
    forall i
      ensures i in Indexes(one) <==> i in Indexes(other)
    {
      HasLane(one, i);
      HasLane(other, i);
    }
    assert Indexes(one) == Indexes(other);
    assert LaneCalls(one) == LaneCalls(other);
  }

  lemma {:induction false} HasLane(fragments: seq<Fragment>, i: int)
    ensures i in Indexes(fragments) <==> Lane(fragments, i) != []
  {
    if i !in Indexes(fragments) {
      NoLane(fragments, i);
    } else {
      var n := |fragments| - 1;
      if fragments[n].index != Some(i) {
        HasLane(fragments[..n], i);
        var k :| 0 <= k < |fragments| && fragments[k].index.Some? && fragments[k].index.value == i;
        assert fragments[..n][k] == fragments[k];
      }
    }
  }

  // --- without indexes, by id ----------------------------------------------------------------------

  predicate NoneIndexed(fragments: seq<Fragment>) {
    forall k :: 0 <= k < |fragments| ==> fragments[k].index.None?
  }

  /** The fragments that give an id, and those behind them that give none. */
  function IdLane(fragments: seq<Fragment>, id: string): seq<Fragment> {
    if fragments == [] then []
    else
      var n := |fragments| - 1;
      IdLane(fragments[..n], id) + if LastId(fragments) == id then [fragments[n]] else []
  }

  /** Every id has one call, which is what its own fragments spell; the call touched last has the last id. */
  ghost predicate ById(a: Assembly, fragments: seq<Fragment>) {
    a.at == map[] && (a.calls == [] <==> fragments == []) &&
    (fragments != [] ==> a.last < |a.calls| && a.calls[a.last].id == LastId(fragments)) &&
    (forall p :: 0 <= p < |a.calls| ==> a.calls[p] == Assemble(IdLane(fragments, a.calls[p].id))) &&
    Apart(a.calls) &&
    (forall id :: !HasId(a.calls, id) ==> IdLane(fragments, id) == [])
  }

  predicate Apart(calls: seq<Call>) {
    forall p, q :: 0 <= p < q < |calls| ==> calls[p].id != calls[q].id
  }

  predicate HasId(calls: seq<Call>, id: string) {
    exists p :: 0 <= p < |calls| && calls[p].id == id
  }

  lemma IdLaneOf(before: seq<Fragment>, f: Fragment, id: string)
    ensures var last := if f.id != "" then f.id else LastId(before);
            LastId(before + [f]) == last &&
            IdLane(before + [f], id) == IdLane(before, id) + if last == id then [f] else []
    ensures Assemble(IdLane(before + [f], id)) ==
            if LastId(before + [f]) == id then Grow(Assemble(IdLane(before, id)), f) else Assemble(IdLane(before, id))
  {
    hide Grow;
    assert (before + [f])[..|before|] == before;
    var lane := IdLane(before, id);
    assert (lane + [f])[..|lane|] == lane && lane + [] == lane;
  }

  /** A fragment without an index goes to the first call of its id, or a new one; without an id, to the last. */
  lemma ItsIdDecides(b: Assembly, f: Fragment)
    requires Valid(b) && b.at == map[] && f.index.None? && AbsorbOne(b, f).Some?
    ensures var a := AbsorbOne(b, f).value;
            var last := if f.id != "" then f.id else if b.calls == [] then "" else b.calls[b.last].id;
            a.at == map[] && a.last < |a.calls| && a.calls[a.last].id == last &&
            if a.last < |b.calls| then
              b.calls[a.last].id == last && a.calls == b.calls[a.last := Grow(b.calls[a.last], f)]
            else
              a.last == |b.calls| && a.calls == b.calls + [Grow(NEW_CALL, f)] && !HasId(b.calls, last)
  {
    hide MergeName;
  }

  lemma IdsGrow(calls: seq<Call>, p: nat, call: Call, id: string)
    ensures p < |calls| && call.id == calls[p].id ==> (HasId(calls[p := call], id) <==> HasId(calls, id))
    ensures HasId(calls + [call], id) <==> HasId(calls, id) || id == call.id
    ensures p < |calls| && call.id == calls[p].id && Apart(calls) ==> Apart(calls[p := call])
    ensures !HasId(calls, call.id) && Apart(calls) ==> Apart(calls + [call])
  {
    var longer := calls + [call];
    assert longer[|calls|] == call;
    assert forall q :: 0 <= q < |calls| ==> longer[q] == calls[q];
    if p < |calls| && call.id == calls[p].id {
      var other := calls[p := call];
      assert forall q :: 0 <= q < |calls| ==> other[q].id == calls[q].id;
    }
  }

  lemma CallOfItsId(b: Assembly, before: seq<Fragment>, f: Fragment, p: nat)
    requires Valid(b) && ById(b, before) && f.index.None? && AbsorbOne(b, f).Some?
    requires p < |AbsorbOne(b, f).value.calls| && Apart(AbsorbOne(b, f).value.calls)
    ensures var call := AbsorbOne(b, f).value.calls[p]; call == Assemble(IdLane(before + [f], call.id))
  {
    hide AbsorbOne, Grow, Assemble, IdLane, Valid, HasId, Apart;
    var a := AbsorbOne(b, f).value;
    ItsIdDecides(b, f);
    EmptyLane();
    assert before == [] ==> LastId(before) == "";
    hide LastId;
    IdLaneOf(before, f, a.calls[p].id);
    if p != a.last {
      OtherId(a.calls, p, a.last);
      assert p < |b.calls| && a.calls[p] == b.calls[p];
    } else if p < |b.calls| {
      assert a.calls[p] == Grow(b.calls[p], f);
    } else {
      assert a.calls[p] == Grow(NEW_CALL, f);
    }
  }

  lemma IdLaneGrows(b: Assembly, before: seq<Fragment>, f: Fragment)
    requires Valid(b) && ById(b, before) && f.index.None? && AbsorbOne(b, f).Some?
    ensures ById(AbsorbOne(b, f).value, before + [f])
  {
    hide AbsorbOne, Grow, Assemble, IdLane, Valid, HasId, Apart;
    var a, all := AbsorbOne(b, f).value, before + [f];
    ItsIdDecides(b, f);
    IdLaneOf(before, f, "");
    assert before == [] ==> LastId(before) == "";
    hide LastId;
    var last := a.calls[a.last].id;
    IdsGrow(b.calls, a.last, a.calls[a.last], last);
    forall p | 0 <= p < |a.calls| ensures a.calls[p] == Assemble(IdLane(all, a.calls[p].id)) {
      CallOfItsId(b, before, f, p);
    }
    forall id ensures !HasId(a.calls, id) ==> IdLane(all, id) == [] {
      IdLaneOf(before, f, id);
      IdsGrow(b.calls, a.last, a.calls[a.last], id);
      if id == last { HasItsId(a.calls, a.last); }
    }
  }

  lemma OtherId(calls: seq<Call>, p: nat, q: nat)
    ensures p < |calls| && q < |calls| && p != q && Apart(calls) ==> calls[p].id != calls[q].id
  {
  }

  lemma HasItsId(calls: seq<Call>, p: nat)
    ensures p < |calls| ==> HasId(calls, calls[p].id)
  {
  }

  /** When no fragment carries an index, each call is what the fragments of its own id spell. */
  lemma {:induction false} IdsAreIndependent(fragments: seq<Fragment>)
    requires NoneIndexed(fragments) && Absorb(NOTHING, fragments).Some?
    ensures ById(Absorb(NOTHING, fragments).value, fragments)
  {
    hide ById, AbsorbOne;
    if fragments == [] {
      NothingById();
    } else {
      var n := |fragments| - 1;
      var before, f := fragments[..n], fragments[n];
      IdsAreIndependent(before);
      IdLaneGrows(Absorb(NOTHING, before).value, before, f);
      assert fragments == before + [f];
    }
  }

  lemma NothingById()
    ensures ById(NOTHING, [])
  {
  }

  /** The only call there is takes an index not seen before, unless the fragment brings another id. */
  lemma TheOnlyCall(call: Call, at: map<int, nat>, f: Fragment, i: int)
    ensures f.index == Some(i) && (at == map[i := 0] || (at == map[] && (f.id == "" || f.id == call.id))) ==>
              AbsorbOne(Assembly([call], at, 0), f).None? ||
              AbsorbOne(Assembly([call], at, 0), f) == Some(Assembly([Grow(call, f)], map[i := 0], 0))
  {
    hide Grow;
    var a := Assembly([call], at, 0);
    assert [call][0 := Grow(call, f)] == [Grow(call, f)];
    if at == map[] && f.index == Some(i) && (f.id == "" || f.id == call.id) {
      assert forall p :: !Bound(a, p);
      assert Continuation(a, f) == 0;
    }
  }

  lemma FirstOfACall(f: Fragment)
    ensures f.index.None? ==>
              AbsorbOne(NOTHING, f).None? || AbsorbOne(NOTHING, f) == Some(Assembly([Assemble([f])], map[], 0))
  {
    assert [f][..0] == [];
    assert Assemble([f]) == Grow(NEW_CALL, f);
    if f.index.None? {
      var b := Place(NOTHING, f);
      assert b.calls == [] + [NEW_CALL] && b == Assembly(b.calls, map[], 0);
      assert b.calls[0 := Grow(NEW_CALL, f)] == [Grow(NEW_CALL, f)];
    }
  }

  lemma OneMoreFragment(a: Assembly, before: seq<Fragment>, f: Fragment)
    ensures Valid(a) ==>
              Absorb(a, before + [f]) ==
              if Absorb(a, before).None? then None else AbsorbOne(Absorb(a, before).value, f)
    ensures Assemble(before + [f]) == Grow(Assemble(before), f)
    ensures Valid(a) ==> Absorb(a, []) == Some(a)
  {
    hide AbsorbOne, Grow;
    assert (before + [f])[..|before|] == before;
  }

  /** A call begun without an index goes on under the first index that follows, unless that brings another id. */
  lemma {:induction false} AnIndexTakesOver(first: Fragment, rest: seq<Fragment>, i: int)
    requires first.index.None? && rest != [] && forall k :: 0 <= k < |rest| ==> rest[k].index == Some(i)
    requires rest[0].id == "" || rest[0].id == Assemble([first]).id
    requires Absorb(NOTHING, [first] + rest).Some?
    ensures Absorb(NOTHING, [first] + rest).value == Assembly([Assemble([first] + rest)], map[i := 0], 0)
    decreases |rest|
  {
    hide AbsorbOne, Assemble, Absorb, Grow;
    var n := |rest| - 1;
    var before := [first] + rest[..n];
    assert [first] + rest == before + [rest[n]];
    OneMoreFragment(NOTHING, before, rest[n]);
    if n == 0 {
      FirstOfACall(first);
      OneMoreFragment(NOTHING, [], first);
      assert before == [first] && [] + [first] == [first];
      TheOnlyCall(Assemble([first]), map[], rest[0], i);
    } else {
      AnIndexTakesOver(first, rest[..n], i);
      TheOnlyCall(Assemble(before), map[i := 0], rest[n], i);
    }
  }

  // --- the assembly as it runs -----------------------------------------------------------------------

  /** toolCallAssembly: the arguments are kept beside the calls and joined to them at the end. */
  class ToolCallAssembly {
    var calls: seq<Call>
    var arguments: seq<string>
    var at: map<int, nat>
    var last: nat

    ghost predicate Aligned()
      reads this
    {
      |arguments| == |calls| && Valid(State())
    }

    ghost function State(): Assembly
      reads this
      requires |arguments| == |calls|
    {
      Assembly(seq(|calls|, k requires 0 <= k < |calls| reads this requires |arguments| == |calls|
               => calls[k].(arguments := arguments[k])), at, last)
    }

    constructor ()
      ensures Aligned() && State() == NOTHING
    {
      calls, arguments, at, last := [], [], map[], 0;
    }

    method Open() returns (p: nat)
      requires |arguments| == |calls|
      modifies this`calls, this`arguments
      ensures p == |old(calls)| && |arguments| == |calls|
      ensures State().calls == old(State()).calls + [NEW_CALL]
    {
      calls := calls + [NEW_CALL];
      arguments := arguments + [""];
      return |calls| - 1;
    }

    method CallWithId(id: string) returns (p: int)
      requires |arguments| == |calls|
      ensures p == WithId(State().calls, id)
    {
      p := 0;
      while p < |calls|
        invariant 0 <= p <= |calls|
        invariant WithId(State().calls, id) == WithId(State().calls, id, p)
      {
        assert State().calls[p].id == calls[p].id;
        if calls[p].id == id {
          return;
        }
        p := p + 1;
      }
      return -1;
    }

    method IsBound(p: nat) returns (bound: bool)
      requires |arguments| == |calls|
      ensures bound == Bound(State(), p)
    {
      var indexes := Ascending(at.Keys);
      for k := 0 to |indexes|
        invariant forall j :: 0 <= j < k ==> indexes[j] in at && at[indexes[j]] != p
      {
        assert indexes[k] in indexes;
        if at[indexes[k]] == p {
          assert State().at[indexes[k]] == p;
          return true;
        }
      }
      assert forall i :: i in at ==> i in indexes;
      return false;
    }

    method Continue(f: Fragment) returns (p: int)
      requires Aligned()
      ensures p == Continuation(State(), f)
    {
      if f.id != "" {
        p := CallWithId(f.id);
        if p >= 0 {
          var bound := IsBound(p);
          if bound {
            return -1;
          }
        }
        return;
      }
      if |calls| == 0 {
        return -1;
      }
      var bound := IsBound(last);
      return if bound then -1 else last;
    }

    /** position */
    method Position(f: Fragment) returns (position: nat)
      requires Aligned()
      modifies this
      ensures Aligned() && State() == Place(old(State()), f) && position == last
    {
      if f.index.Some? {
        var index := f.index.value;
        if index in at {
          position := at[index];
        } else {
          var known := Continue(f);
          if known < 0 {
            known := Open();
          }
          at := at[index := known];
          position := known;
        }
      } else if f.id != "" {
        var p := CallWithId(f.id);
        if p < 0 {
          p := Open();
        }
        position := p;
      } else if |calls| > 0 {
        position := last;
      } else {
        position := Open();
      }
      last := position;
    }

    /** absorb, one fragment of a frame. */
    method AbsorbFragment(f: Fragment) returns (ok: bool)
      requires Aligned()
      modifies this
      ensures Aligned()
      ensures ok == AbsorbOne(old(State()), f).Some?
      ensures ok ==> State() == AbsorbOne(old(State()), f).value
    {
      var position := Position(f);
      ghost var placed := State();
      if f.id != "" {
        calls := calls[position := calls[position].(id := f.id)];
      }
      if f.name != "" {
        var previous := calls[position].name;
        if f.name == previous {
        } else if previous <= f.name {
          calls := calls[position := calls[position].(name := f.name)];
        } else {
          calls := calls[position := calls[position].(name := previous + f.name)];
        }
      }
      if |arguments[position]| + |f.arguments| > MAX_ARGUMENTS {
        return false;
      }
      arguments := arguments[position := arguments[position] + f.arguments];
      assert State().calls == placed.calls[position := Grow(placed.calls[position], f)];
      return true;
    }

    method AbsorbAll(fragments: seq<Fragment>) returns (ok: bool)
      requires Aligned()
      modifies this
      ensures Aligned()
      ensures ok == Absorb(old(State()), fragments).Some?
      ensures ok ==> State() == Absorb(old(State()), fragments).value
    {
      hide AbsorbOne, Valid;
      for k := 0 to |fragments|
        invariant Aligned() && Absorb(old(State()), fragments[..k]) == Some(State())
      {
        assert fragments[..k + 1][..k] == fragments[..k];
        ok := AbsorbFragment(fragments[k]);
        if !ok {
          AbsorbStops(old(State()), fragments, k + 1);
          return;
        }
      }
      assert fragments[..|fragments|] == fragments;
      return true;
    }

    /** The positions in the order their calls are sent. */
    method Positions() returns (positions: seq<nat>)
      requires Aligned()
      ensures positions == Order(State())
    {
      hide Bound, Ascending;
      var indexes := Ascending(at.Keys);
      positions := [];
      for k := 0 to |indexes|
        invariant positions == Indexed(State())[..k]
      {
        assert indexes[k] in indexes;
        positions := positions + [at[indexes[k]]];
      }
      var rest := |calls|;
      var others: seq<nat> := [];
      while rest > 0
        invariant 0 <= rest <= |calls| && others == Unbound(State(), rest)
      {
        rest := rest - 1;
        var bound := IsBound(rest);
        if !bound {
          others := [rest] + others;
        }
      }
      positions := positions + others;
    }

    /** finish: each call is sent once, in order, until one is malformed. */
    method Finish(valid: string -> bool) returns (sent: seq<Call>, ok: bool)
      requires Aligned()
      ensures sent == Deliver(valid, InOrder(State())).0 && ok == Deliver(valid, InOrder(State())).1
      ensures var named := Named(InOrder(State()));
              (ok <==> |sent| == |named|) && |sent| <= |named| &&
              forall k :: 0 <= k < |sent| ==>
                sent[k].id == named[k].id && sent[k].name == named[k].name != "" &&
                Carries(sent[k].arguments, named[k].arguments)
    {
      NamedAreSent(valid, InOrder(State()));
      NamedHaveNames(InOrder(State()));
      var positions := Positions();
      ghost var all := InOrder(State());
      hide Order, WellFormed, ToolArguments, Deliver, Carries, Named;
      sent, ok := [], true;
      var k := 0;
      assert all[0..] == all && [] + Deliver(valid, all).0 == Deliver(valid, all).0;
      while k < |positions|
        invariant 0 <= k <= |positions| && ok
        invariant Delivering(valid, sent, all[k..], all)
      {
        assert OrderInRange(State(), k);
        var call := calls[positions[k]];
        var raw := arguments[positions[k]];
        assert all[k] == call.(arguments := raw);
        assert all[k..][0] == all[k] && all[k..][1..] == all[k + 1..];
        DeliversOne(valid, sent, all[k..], all);
        if call.name != "" {
          if !WellFormed(valid, raw) {
            return sent, false;
          }
          sent := sent + [call.(arguments := ToolArguments(valid, raw))];
        }
        k := k + 1;
      }
      DeliveredAll(valid, sent, all[k..], all);
    }
  }

  lemma {:induction false} NamedHaveNames(calls: seq<Call>)
    ensures forall k :: 0 <= k < |Named(calls)| ==> Named(calls)[k].name != ""
  {
    if calls != [] { NamedHaveNames(calls[1..]); }
  }

  lemma DeliveredAll(valid: string -> bool, sent: seq<Call>, rest: seq<Call>, all: seq<Call>)
    ensures rest == [] && Delivering(valid, sent, rest, all) ==> Deliver(valid, all).0 == sent && Deliver(valid, all).1
  {
    if rest == [] && Delivering(valid, sent, rest, all) {
      assert Deliver(valid, rest) == ([], true);
      hide Deliver;
      assert sent + [] == sent;
    }
  }

  /** What is still to be sent follows what has been. */
  ghost predicate Delivering(valid: string -> bool, sent: seq<Call>, rest: seq<Call>, all: seq<Call>) {
    Deliver(valid, all).0 == sent + Deliver(valid, rest).0 && Deliver(valid, all).1 == Deliver(valid, rest).1
  }

  lemma DeliversOne(valid: string -> bool, sent: seq<Call>, rest: seq<Call>, all: seq<Call>)
    requires rest != [] && Delivering(valid, sent, rest, all)
    ensures var call := rest[0];
            if call.name == "" then Delivering(valid, sent, rest[1..], all)
            else if !WellFormed(valid, call.arguments) then Deliver(valid, all).0 == sent && !Deliver(valid, all).1
            else Delivering(valid, sent + [call.(arguments := ToolArguments(valid, call.arguments))], rest[1..], all)
  {
    var call, more, d := rest[0], Deliver(valid, rest[1..]), Deliver(valid, rest);
    if call.name != "" {
      if !WellFormed(valid, call.arguments) {
        assert d == ([], false);
        hide Deliver;
        assert sent + [] == sent;
      } else {
        var one := [call.(arguments := ToolArguments(valid, call.arguments))];
        assert d == (one + more.0, more.1);
        hide Deliver;
        assert sent + (one + more.0) == (sent + one) + more.0;
      }
    }
  }

  lemma {:induction false} AbsorbStops(a: Assembly, fragments: seq<Fragment>, k: nat)
    requires Valid(a) && k <= |fragments| && Absorb(a, fragments[..k]).None?
    ensures Absorb(a, fragments).None?
    decreases |fragments|
  {
    hide AbsorbOne, Valid;
    if k < |fragments| {
      var n := |fragments| - 1;
      assert fragments[..n][..k] == fragments[..k];
      AbsorbStops(a, fragments[..n], k);
    } else {
      assert fragments[..k] == fragments;
    }
  }
}
