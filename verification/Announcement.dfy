/** Publishing, unpublishing and deleting announcements, and the bell notices they push and retract. */
module Announcement {

  type Id = string

  /** `loud` is whether the announcement asked for attention when it was last published. */
  datatype Row = Row(published: bool, loud: bool)

  /** Where one save or delete stands after its own transaction; each step is one transaction. */
  datatype Save = Pushing(id: Id) | Rechecking(id: Id) | Retracting(id: Id) | Finished(id: Id)

  datatype World = World(rows: map<Id, Row>, notices: map<Id, nat>, saves: map<nat, Save>)

  datatype Event =
    | Create(s: nat, id: Id, published: bool, silent: bool)
    | Update(s: nat, id: Id, published: bool, silent: bool)
    | Delete(s: nat, id: Id)
    | Push(s: nat, delivered: bool)
    | Recheck(s: nat, readable: bool)
    | Retract(s: nat)

  function Notices(w: World, id: Id): nat {
    if id in w.notices then w.notices[id] else 0
  }

  predicate IsPublished(w: World, id: Id) {
    id in w.rows && w.rows[id].published
  }

  predicate Possible(w: World, e: Event) {
    match e
    case Create(s, id, _, _) => s !in w.saves && id !in w.rows
    case Update(s, id, _, _) => s !in w.saves
    case Delete(s, id) => s !in w.saves
    case Push(s, _) => s in w.saves && w.saves[s].Pushing?
    case Recheck(s, _) => s in w.saves && w.saves[s].Rechecking?
    case Retract(s) => s in w.saves && w.saves[s].Retracting?
  }

  /** What a committed save still has to do, from the row before and after it. */
  function Next(id: Id, before: bool, published: bool, silent: bool): Save {
    if !before && published then (if silent then Finished(id) else Pushing(id))
    else if before && !published then Retracting(id)
    else Finished(id)
  }

  function Saved(w: World, s: nat, id: Id, published: bool, silent: bool): World {
    var before := IsPublished(w, id);
    var loud := published && if before then w.rows[id].loud else !silent;
    w.(rows := w.rows[id := Row(published, loud)], saves := w.saves[s := Next(id, before, published, silent)])
  }

  function Step(w: World, e: Event): World
    requires Possible(w, e)
  {
    match e
    case Create(s, id, published, silent) => Saved(w, s, id, published, silent)
    case Update(s, id, published, silent) =>
      if id in w.rows then Saved(w, s, id, published, silent)
      else w.(saves := w.saves[s := Finished(id)])
    case Delete(s, id) => w.(rows := w.rows - {id}, saves := w.saves[s := Retracting(id)])
    case Push(s, delivered) =>
      var id := w.saves[s].id;
      if delivered then w.(notices := w.notices[id := Notices(w, id) + 1], saves := w.saves[s := Rechecking(id)])
      else w.(saves := w.saves[s := Finished(id)])
    case Recheck(s, readable) =>
      var id := w.saves[s].id;
      w.(saves := w.saves[s := if readable && IsPublished(w, id) then Finished(id) else Retracting(id)])
    case Retract(s) =>
      var id := w.saves[s].id;
      w.(notices := w.notices[id := 0], saves := w.saves[s := Finished(id)])
  }

  const NOTHING := World(map[], map[], map[])

  predicate IsRun(w: World, events: seq<Event>)
    decreases |events|
  {
    events == [] || (Possible(w, events[0]) && IsRun(Step(w, events[0]), events[1..]))
  }

  function Run(w: World, events: seq<Event>): World
    requires IsRun(w, events)
    decreases |events|
  {
    if events == [] then w else Run(Step(w, events[0]), events[1..])
  }

  // --- no stale bell entry -----------------------------------------------------------------------

  predicate WillLook(w: World, s: nat, id: Id) {
    s in w.saves && (w.saves[s] == Rechecking(id) || w.saves[s] == Retracting(id))
  }

  /** A notice about something unpublished or gone is one some save is still going to look at. */
  predicate Accounted(w: World, id: Id) {
    Notices(w, id) > 0 && !IsPublished(w, id) ==> exists s :: s in w.saves && WillLook(w, s, id)
  }

  lemma StillLooking(w: World, e: Event, id: Id, s: nat)
    ensures Possible(w, e) && WillLook(w, s, id) && s != e.s ==> WillLook(Step(w, e), s, id)
  {
  }

  lemma StepAccounts(w: World, e: Event, id: Id)
    requires Possible(w, e) && Accounted(w, id)
    ensures Accounted(Step(w, e), id)
  {
    var next := Step(w, e);
    if Notices(w, id) > 0 && !IsPublished(w, id) {
      var s :| s in w.saves && WillLook(w, s, id);
      StillLooking(w, e, id, s);
      assert s == e.s ==> WillLook(next, s, id) || Notices(next, id) == 0;
    } else {
      assert Notices(next, id) > 0 && !IsPublished(next, id) ==> WillLook(next, e.s, id);
    }
  }

  lemma {:induction false} RunAccounts(w: World, events: seq<Event>, id: Id)
    requires IsRun(w, events) && Accounted(w, id)
    ensures Accounted(Run(w, events), id)
    decreases |events|
  {
    hide Step, Possible, Accounted;
    if events == [] {
    } else {
      StepAccounts(w, events[0], id);
      RunAccounts(Step(w, events[0]), events[1..], id);
    }
  }

  predicate Busy(w: World, s: nat, id: Id) {
    s in w.saves && w.saves[s].id == id && !w.saves[s].Finished?
  }

  predicate Settled(w: World, id: Id) {
    forall s :: s in w.saves ==> !Busy(w, s, id)
  }

  /** However saves and deletes overlap, once all have finished nothing unpublished or gone is in the bell. */
  lemma NoStaleNotice(events: seq<Event>, id: Id)
    requires IsRun(NOTHING, events) && Settled(Run(NOTHING, events), id)
    ensures !IsPublished(Run(NOTHING, events), id) ==> Notices(Run(NOTHING, events), id) == 0
  {
    hide IsRun, Run, IsPublished, Notices;
    assert Notices(NOTHING, id) == 0 by { NothingRung(id); }
    RunAccounts(NOTHING, events, id);
    assert !exists s :: WillLook(Run(NOTHING, events), s, id);
  }

  lemma NothingRung(id: Id)
    ensures Notices(NOTHING, id) == 0
  {
  }

  // --- a published announcement and its notice -------------------------------------------------------

  lemma Prepend(w: World, e: Event, next: World, rest: seq<Event>)
    ensures Possible(w, e) && Step(w, e) == next && IsRun(next, rest) ==>
              IsRun(w, [e] + rest) && Run(w, [e] + rest) == Run(next, rest)
  {
    assert ([e] + rest)[1..] == rest;
  }

  /** "a" published, unpublished by save 1 which has yet to retract, and being published again by save 2. */
  const UNPUBLISHED := World(
    map["a" := Row(false, false)], map["a" := 1], map[0 := Finished("a"), 1 := Retracting("a")])
  const REPUBLISHED := World(
    map["a" := Row(true, true)], map["a" := 2],
    map[0 := Finished("a"), 1 := Retracting("a"), 2 := Rechecking("a")])

  lemma UpToTheUnpublish(rest: seq<Event>)
    requires IsRun(UNPUBLISHED, rest)
    ensures exists events :: IsRun(NOTHING, events) && Run(NOTHING, events) == Run(UNPUBLISHED, rest)
  {
    hide IsRun, Run;
    var begun := World(map["a" := Row(true, true)], map[], map[0 := Pushing("a")]);
    var pushed := begun.(notices := map["a" := 1], saves := map[0 := Rechecking("a")]);
    var seen := pushed.(saves := map[0 := Finished("a")]);
    Prepend(seen, Update(1, "a", false, false), UNPUBLISHED, rest);
    var events := [Update(1, "a", false, false)] + rest;
    Prepend(pushed, Recheck(0, true), seen, events);
    events := [Recheck(0, true)] + events;
    Prepend(begun, Push(0, true), pushed, events);
    events := [Push(0, true)] + events;
    Prepend(NOTHING, Create(0, "a", true, false), begun, events);
  }

  /** An unpublish that dawdles takes back the notice of the publish that followed it. */
  lemma ALateRetractSilences()
    ensures exists events :: IsRun(NOTHING, events) && Silenced(Run(NOTHING, events))
  {
    hide IsRun, Run, Silenced;
    var saves := map[0 := Finished("a"), 1 := Retracting("a"), 2 := Pushing("a")];
    var begun := World(REPUBLISHED.rows, map["a" := 1], saves);
    var seen := REPUBLISHED.(saves := saves[2 := Finished("a")]);
    var end := seen.(notices := map["a" := 0], saves := saves[1 := Finished("a")][2 := Finished("a")]);
    ThatIsSilence();
    NoMore(end);
    Prepend(seen, Retract(1), end, []);
    var events := [Retract(1)] + [];
    Prepend(REPUBLISHED, Recheck(2, true), seen, events);
    events := [Recheck(2, true)] + events;
    Prepend(begun, Push(2, true), REPUBLISHED, events);
    events := [Push(2, true)] + events;
    Prepend(UNPUBLISHED, Update(2, "a", true, false), begun, events);
    UpToTheUnpublish([Update(2, "a", true, false)] + events);
  }

  /** Every save has finished, "a" is published and asked for attention, and nothing is in the bell. */
  predicate Silenced(w: World) {
    Settled(w, "a") && "a" in w.rows && w.rows["a"] == Row(true, true) && Notices(w, "a") == 0
  }

  lemma ThatIsSilence()
    ensures Silenced(World(REPUBLISHED.rows, map["a" := 0],
                           map[0 := Finished("a"), 1 := Retracting("a"), 2 := Pushing("a")]
                             [1 := Finished("a")][2 := Finished("a")]))
  {
  }

  lemma NoMore(w: World)
    ensures IsRun(w, []) && Run(w, []) == w
  {
  }

  /** A save already under way goes on, and what it pushes is delivered and what it reads can be. */
  predicate GoesOn(e: Event) {
    match e
    case Push(_, delivered) => delivered
    case Recheck(_, readable) => readable
    case Retract(_) => true
    case _ => false
  }

  predicate IsCompletion(w: World, events: seq<Event>) {
    IsRun(w, events) && forall e :: e in events ==> GoesOn(e)
  }

  /** Every way the saves under way can finish leaves the announcement in the bell. */
  ghost predicate WillRing(w: World, id: Id) {
    forall events :: IsCompletion(w, events) && Settled(Run(w, events), id) ==> Notices(Run(w, events), id) > 0
  }

  predicate Is(w: World, s: nat, save: Save) {
    s in w.saves && w.saves[s] == save
  }

  /** Nobody is about to take the notice back, and it is there or about to be pushed. */
  predicate Heard(w: World, id: Id) {
    (forall s :: s in w.saves ==> !Is(w, s, Retracting(id))) &&
    (Notices(w, id) > 0 || exists s :: s in w.saves && Is(w, s, Pushing(id)))
  }

  lemma StepKeepsHeard(w: World, e: Event, id: Id)
    requires Possible(w, e) && GoesOn(e) && IsPublished(w, id) && Heard(w, id)
    ensures IsPublished(Step(w, e), id) && Heard(Step(w, e), id)
  {
    var next := Step(w, e);
    if Notices(w, id) == 0 {
      var s :| s in w.saves && Is(w, s, Pushing(id));
      assert s == e.s ==> Notices(next, id) > 0;
      assert s != e.s ==> s in next.saves && Is(next, s, Pushing(id));
    }
  }

  lemma {:induction false} CompletionRings(w: World, events: seq<Event>, id: Id)
    requires IsCompletion(w, events) && IsPublished(w, id) && Heard(w, id)
    ensures Settled(Run(w, events), id) ==> Notices(Run(w, events), id) > 0
    decreases |events|
  {
    hide Step, GoesOn, Possible;
    if events == [] {
      assert forall s :: s in w.saves && Is(w, s, Pushing(id)) ==> Busy(w, s, id);
    } else {
      assert events[0] in events;
      StepKeepsHeard(w, events[0], id);
      CompletionRings(Step(w, events[0]), events[1..], id);
    }
  }

  // --- when it will not ring ---------------------------------------------------------------------------

  function BusyWith(w: World, id: Id): set<nat> {
    set s | s in w.saves && Busy(w, s, id)
  }

  /** What a busy save does next. */
  function NextOf(save: Save, s: nat): Event
    requires !save.Finished?
  {
    match save
    case Pushing(_) => Push(s, true)
    case Rechecking(_) => Recheck(s, true)
    case Retracting(_) => Retract(s)
  }

  /** Everything but save `s` is as it was. */
  predicate OnlySave(w: World, next: World, s: nat) {
    next.rows == w.rows && s in next.saves && next.saves.Keys == w.saves.Keys &&
    forall t :: t in w.saves && t != s ==> next.saves[t] == w.saves[t]
  }

  lemma OneStepOn(w: World, id: Id, s: nat)
    ensures IsPublished(w, id) && Busy(w, s, id) ==>
              var e := NextOf(w.saves[s], s);
              Possible(w, e) && GoesOn(e) && OnlySave(w, Step(w, e), s) &&
              Step(w, e).saves[s] == (if w.saves[s].Pushing? then Rechecking(id) else Finished(id)) &&
              Notices(Step(w, e), id) ==
                if w.saves[s].Pushing? then Notices(w, id) + 1 else if w.saves[s].Retracting? then 0 else Notices(w, id)
  {
  }

  /** All saves of a published announcement but those in `keep` can finish first. */
  lemma {:induction false} FinishOthers(w: World, id: Id, keep: set<nat>) returns (events: seq<Event>)
    requires IsPublished(w, id)
    ensures IsCompletion(w, events) && IsPublished(Run(w, events), id)
    ensures BusyWith(Run(w, events), id) <= keep
    ensures forall s :: s in keep && s in w.saves ==> Is(Run(w, events), s, w.saves[s])
    ensures Notices(w, id) == 0 && NonePushing(w, id) ==> Notices(Run(w, events), id) == 0
    decreases |BusyWith(w, id) - keep|, Pushers(w, id)
  {
    hide Step, Possible, GoesOn, Notices;
    var others := BusyWith(w, id) - keep;
    if others == {} {
      events := [];
      NoMore(w);
      assert forall s :: s in BusyWith(w, id) && s !in keep ==> s in others;
    } else {
      var s :| s in others;
      var e := NextOf(w.saves[s], s);
      OneStepOn(w, id, s);
      SmallerAfter(w, Step(w, e), id, s, keep);
      assert w.saves[s].Pushing? ==> Is(w, s, Pushing(id));
      var rest := FinishOthers(Step(w, e), id, keep);
      Prepend(w, e, Step(w, e), rest);
      events := [e] + rest;
    }
  }

  predicate NonePushing(w: World, id: Id) {
    forall s :: s in w.saves ==> !Is(w, s, Pushing(id))
  }

  function Pushers(w: World, id: Id): nat {
    |set s | s in w.saves && Is(w, s, Pushing(id))|
  }

  lemma SmallerAfter(w: World, next: World, id: Id, s: nat, keep: set<nat>)
    requires OnlySave(w, next, s) && Busy(w, s, id) && s !in keep
    requires next.saves[s] == if w.saves[s].Pushing? then Rechecking(id) else Finished(id)
    ensures NonePushing(w, id) ==> NonePushing(next, id)
    ensures var before, after := |BusyWith(w, id) - keep|, |BusyWith(next, id) - keep|;
            after < before || (after == before && Pushers(next, id) < Pushers(w, id))
  {
    if w.saves[s].Pushing? {
      assert BusyWith(next, id) == BusyWith(w, id);
      var fewer := set t | t in next.saves && Is(next, t, Pushing(id));
      assert s !in fewer && (set t | t in w.saves && Is(w, t, Pushing(id))) == fewer + {s};
    } else {
      assert BusyWith(w, id) - keep == (BusyWith(next, id) - keep) + {s};
    }
  }

  lemma NobodyIsBusy(w: World, id: Id)
    requires BusyWith(w, id) == {}
    ensures Settled(w, id)
  {
    assert forall s :: s in w.saves && Busy(w, s, id) ==> s in BusyWith(w, id);
  }

  /** A save about to retract can be the last to act. */
  lemma ARetractCanBeLast(w: World, id: Id, s: nat)
    requires IsPublished(w, id) && Is(w, s, Retracting(id))
    ensures !WillRing(w, id)
  {
    hide Step, Possible, GoesOn, Notices, IsRun, Run;
    var events := FinishOthers(w, id, {s});
    var end := Run(w, events);
    OneStepOn(end, id, s);
    var last := Step(end, Retract(s));
    NoMore(last);
    Prepend(end, Retract(s), last, []);
    JoinRuns(w, events, [Retract(s)] + []);
    assert IsCompletion(w, events + ([Retract(s)] + []));
    assert BusyWith(last, id) == {} by {
      assert forall t :: t in BusyWith(last, id) ==> t != s && t in BusyWith(end, id);
    }
    NobodyIsBusy(last, id);
  }

  lemma {:induction false} JoinRuns(w: World, one: seq<Event>, more: seq<Event>)
    requires IsRun(w, one) && IsRun(Run(w, one), more)
    ensures IsRun(w, one + more) && Run(w, one + more) == Run(Run(w, one), more)
    decreases |one|
  {
    hide Step, Possible;
    if one == [] {
      assert one + more == more;
    } else {
      assert (one + more)[1..] == one[1..] + more;
      JoinRuns(Step(w, one[0]), one[1..], more);
    }
  }

  /** With nothing in the bell and nobody about to push, nothing comes. */
  lemma NobodyRings(w: World, id: Id)
    requires IsPublished(w, id) && Notices(w, id) == 0 && NonePushing(w, id)
    ensures !WillRing(w, id)
  {
    hide Step, Possible, GoesOn, Notices, IsRun, Run;
    var events := FinishOthers(w, id, {});
    NobodyIsBusy(Run(w, events), id);
  }

  /**
   * A published announcement is in the bell however the saves under way finish exactly when none of
   * them is about to retract and its notice is there or about to be pushed.
   */
  lemma WillRingExactlyWhen(w: World, id: Id)
    requires IsPublished(w, id)
    ensures WillRing(w, id) <==> Heard(w, id)
  {
    hide IsPublished, IsRun, Run, Notices, Is, NonePushing, GoesOn;
    if Heard(w, id) {
      forall events | IsCompletion(w, events) && Settled(Run(w, events), id)
        ensures Notices(Run(w, events), id) > 0
      {
        CompletionRings(w, events, id);
      }
    } else {
      assert NonePushing(w, id) <==> forall s :: s in w.saves ==> !Is(w, s, Pushing(id)) by { NonePushingIs(w, id); }
      if s :| s in w.saves && Is(w, s, Retracting(id)) {
        ARetractCanBeLast(w, id, s);
      } else {
        NobodyRings(w, id);
      }
    }
  }

  lemma NonePushingIs(w: World, id: Id)
    ensures NonePushing(w, id) <==> forall s :: s in w.saves ==> !Is(w, s, Pushing(id))
  {
  }

  /** The commit that publishes an announcement loudly rings for good unless a retraction is under way. */
  lemma APublishRingsExactlyWhen(w: World, e: Event, id: Id)
    requires Possible(w, e) && (e.Create? || e.Update?) && e.id == id && !e.silent
    requires !IsPublished(w, id) && IsPublished(Step(w, e), id)
    ensures WillRing(Step(w, e), id) <==> forall s :: s in w.saves ==> !Is(w, s, Retracting(id))
  {
    hide WillRing;
    var next := Step(w, e);
    WillRingExactlyWhen(next, id);
    assert e.s in next.saves && Is(next, e.s, Pushing(id));
    assert forall s :: s in next.saves ==> s == e.s || (s in w.saves && next.saves[s] == w.saves[s]);
    assert forall s :: s in w.saves ==> s in next.saves && next.saves[s] == w.saves[s];
  }
}
