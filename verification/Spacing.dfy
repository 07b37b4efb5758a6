/** How far apart the mails of resends are, in every reachable state. Times are in milliseconds. */
module Spacing {
  import opened Text
  import opened Verification
  import opened SlidingWindow

  /** The mail of this resend went out, or may yet. */
  predicate Counts(w: World, r: nat)
    requires r in w.resends
  {
    w.resends[r].phase.Sending? || w.resends[r].id in w.delivered
  }

  predicate Stored(w: World, r: nat)
    requires r in w.resends
  {
    w.resends[r].id in w.account.rows
  }

  predicate Apart(w: World, r: nat, s: nat)
    requires r in w.resends && s in w.resends
  {
    w.resends[r].begun - w.resends[s].begun >= 120_000 || w.resends[s].begun - w.resends[r].begun >= 120_000
  }

  /** A credential as late as this one, which no failed send can take back, is stored. */
  predicate Followed(w: World, r: nat)
    requires r in w.resends
  {
    exists s :: s in w.resends && Stored(w, s) && w.resends[s].id in w.delivered &&
      w.resends[s].begun >= w.resends[r].begun
  }

  predicate TimesSound(w: World) {
    forall r :: r in w.resends ==> 0 < w.resends[r].begun <= w.clock
  }

  /** The credential of every resend begun since is stored, or a later one is. */
  predicate AllHeld(w: World, earlier: set<nat>) {
    forall r :: r in w.resends && r !in earlier && Counts(w, r) ==> Stored(w, r) || Followed(w, r)
  }

  /** Resends begun since keep their distance, from each other and from every one still stored. */
  predicate AllApart(w: World, earlier: set<nat>) {
    forall r, s :: r in w.resends && s in w.resends && r != s && r !in earlier && Counts(w, r) ==>
      (Stored(w, s) || (s !in earlier && Counts(w, s)) ==> Apart(w, r, s))
  }

  predicate Spaced(w: World, earlier: set<nat>) {
    AllHeld(w, earlier) && AllApart(w, earlier)
  }

  lemma TimesKeep(w: World, e: Event)
    requires Possible(w, e) && 0 < w.clock
    ensures TimesSound(w) ==> TimesSound(Step(w, e))
    ensures 0 < Step(w, e).clock
  {
    hide VerifyLink, VerifyCode, JustSent, NewRow, ResendCommit, Counted;
    ClockGoesOn(w, e);
  }

  lemma {:induction false} RunKeepsTimes(w: World, events: seq<Event>)
    requires TimesSound(w) && 0 < w.clock && IsRun(w, events)
    ensures TimesSound(Run(w, events)) && 0 < Run(w, events).clock
    decreases |events|
  {
    hide Step, Possible, TimesSound;
    if events == [] {
    } else {
      TimesKeep(w, events[0]);
      RunKeepsTimes(Step(w, events[0]), events[1..]);
    }
  }

  ghost predicate Good(w: World, earlier: set<nat>) {
    Sound(w) && TimesSound(w) && 0 < w.clock && Spaced(w, earlier)
  }

  /** A resend that begins is two minutes behind every other that counts or is stored. */
  lemma BeginIsApart(w: World, e: Event, earlier: set<nat>, r: nat)
    requires Good(w, earlier) && Possible(w, e) && e.BeginResend? && e.r in Step(w, e).resends && r in w.resends
    requires Stored(w, r) || (r !in earlier && Counts(w, r))
    ensures e.now - w.resends[r].begun >= 120_000
  {
    hide GuessesSound, ResendsSound;
    var a := w.account;
    assert !JustSent(a, e.now);
    if Stored(w, r) {
      NotJustSent(w, e.now, r);
    } else {
      var s :| s in w.resends && Stored(w, s) && w.resends[s].begun >= w.resends[r].begun;
      NotJustSent(w, e.now, s);
    }
  }

  lemma NotJustSent(w: World, now: int, r: nat)
    requires LivesSound(w.resends, w.account.rows) && TimesSound(w)
    requires r in w.resends && Stored(w, r) && !JustSent(w.account, now)
    ensures now - w.resends[r].begun >= 120_000
  {
  }

  lemma BeginKeeps(w: World, e: Event, earlier: set<nat>)
    requires Good(w, earlier) && Possible(w, e) && e.BeginResend?
    ensures Spaced(Step(w, e), earlier)
  {
    var next := Step(w, e);
    if e.r in next.resends {
      Begun(w, e);
      BeginIsHeld(w, next, e.r, earlier);
      forall r | r in w.resends && (Stored(w, r) || (r !in earlier && Counts(w, r)))
        ensures e.now - w.resends[r].begun >= 120_000
      {
        BeginIsApart(w, e, earlier, r);
      }
      hide Step, Possible, Sound, TimesSound, AllHeld;
    } else {
      hide Sound, TimesSound, JustSent, NewRow;
    }
  }

  lemma BeginIsHeld(w: World, next: World, c: nat, earlier: set<nat>)
    requires AllHeld(w, earlier) && c in next.resends && Stored(next, c) && next.delivered == w.delivered
    requires w.resends.Keys + {c} == next.resends.Keys
    requires forall r :: r in w.resends ==> next.resends[r] == w.resends[r] && (Stored(w, r) ==> Stored(next, r))
    ensures AllHeld(next, earlier)
  {
    hide Stored;
    forall r | r in next.resends && r !in earlier && Counts(next, r) ensures Stored(next, r) || Followed(next, r) {
      if r in w.resends && !Stored(w, r) {
        var s :| s in w.resends && Stored(w, s) && w.resends[s].id in w.delivered &&
          w.resends[s].begun >= w.resends[r].begun;
        assert Stored(next, s);
      }
    }
  }

  lemma Begun(w: World, e: Event)
    requires Sound(w) && Possible(w, e) && e.BeginResend? && e.r in Step(w, e).resends
    ensures var next := Step(w, e);
            next.resends == w.resends[e.r := Resend(e.id, w.account.email, e.now, Sending)] &&
            next.delivered == w.delivered && e.r !in w.resends &&
            next.account.rows.Keys == w.account.rows.Keys + {e.id} &&
            forall r :: r in w.resends ==> w.resends[r].id != e.id
  {
    hide GuessesSound, LivesSound, JustSent, NewRow;
  }

  /** The same resends, none of which counts or is stored that did not before. */
  predicate NoMore(w: World, next: World) {
    next.resends.Keys == w.resends.Keys && w.delivered <= next.delivered &&
    forall r :: r in w.resends ==>
      next.resends[r].begun == w.resends[r].begun && next.resends[r].id == w.resends[r].id &&
      (Counts(next, r) ==> Counts(w, r)) && (Stored(next, r) ==> Stored(w, r))
  }

  lemma ApartStays(w: World, next: World, earlier: set<nat>)
    requires NoMore(w, next) && AllApart(w, earlier)
    ensures AllApart(next, earlier)
  {
    hide Counts, Stored;
    forall r, s | r in next.resends && s in next.resends && r != s && r !in earlier && Counts(next, r) &&
                  (Stored(next, s) || (s !in earlier && Counts(next, s)))
      ensures Apart(next, r, s)
    {
      assert Apart(w, r, s);
    }
  }

  /** As long as no credential goes whose mail went out or may yet, all are held that were. */
  lemma HeldStays(w: World, next: World, earlier: set<nat>)
    requires NoMore(w, next) && AllHeld(w, earlier)
    requires forall r :: r in w.resends && Stored(w, r) && (Counts(next, r) || w.resends[r].id in w.delivered) ==>
               Stored(next, r)
    ensures AllHeld(next, earlier)
  {
    hide Counts, Stored;
    forall r | r in next.resends && r !in earlier && Counts(next, r) ensures Stored(next, r) || Followed(next, r) {
      if !Stored(w, r) {
        var s :| s in w.resends && Stored(w, s) && w.resends[s].id in w.delivered &&
          w.resends[s].begun >= w.resends[r].begun;
        assert Stored(next, s);
      }
    }
  }

  /** Sending, failing and cleaning up take no credential that counts. */
  lemma SentKeeps(w: World, e: Event, earlier: set<nat>)
    requires Good(w, earlier) && Possible(w, e) && (e.Sent? || e.Cleanup?)
    ensures Spaced(Step(w, e), earlier)
  {
    hide GuessesSound, LivesSound, TimesSound, AllHeld, AllApart;
    var next := Step(w, e);
    assert NoMore(w, next);
    assert forall r :: r in w.resends && Stored(w, r) && (Counts(next, r) || w.resends[r].id in w.delivered) ==>
             Stored(next, r);
    ApartStays(w, next, earlier);
    HeldStays(w, next, earlier);
  }

  /** A commit that retires the others is of the latest resend: none has begun since, so soon after it. */
  lemma CommitKeeps(w: World, e: Event, earlier: set<nat>)
    requires Good(w, earlier) && Possible(w, e) && e.Commit?
    ensures Spaced(Step(w, e), earlier)
  {
    hide GuessesSound, LivesSound, AllHeld, AllApart;
    var next := Step(w, e);
    assert NoMore(w, next);
    ApartStays(w, next, earlier);
    if next.account.rows == w.account.rows {
      HeldStays(w, next, earlier);
    } else {
      assert Stored(next, e.r) && Stored(w, e.r) && next.resends[e.r].id in next.delivered;
      CommittedIsLatest(w, next, e.r, e.now, earlier);
    }
  }

  lemma CommittedIsLatest(w: World, next: World, c: nat, now: int, earlier: set<nat>)
    requires NoMore(w, next) && AllApart(w, earlier) && TimesSound(w) && c in w.resends
    requires Stored(w, c) && Stored(next, c) && next.resends[c].id in next.delivered
    requires w.clock <= now <= w.resends[c].begun + RESEND_LIMIT
    ensures AllHeld(next, earlier)
  {
    hide Counts, Stored;
    forall r | r in next.resends && r !in earlier && Counts(next, r) ensures Followed(next, r) {
      assert r != c ==> Apart(w, r, c);
    }
  }

  lemma {:induction false} RunSpaces(w: World, events: seq<Event>, earlier: set<nat>)
    requires Good(w, earlier) && IsRun(w, events) && forall e :: e in events ==> IsResend(e)
    ensures Spaced(Run(w, events), earlier)
    decreases |events|
  {
    hide Step, Possible, Sound, TimesSound, Spaced;
    if events == [] {
    } else {
      var e := events[0];
      assert e in events;
      if e.BeginResend? {
        BeginKeeps(w, e, earlier);
      } else if e.Commit? {
        CommitKeeps(w, e, earlier);
      } else {
        SentKeeps(w, e, earlier);
      }
      StepKeeps(w, e);
      TimesKeep(w, e);
      RunSpaces(Step(w, e), events[1..], earlier);
    }
  }

  lemma NoneIsNew(w: World)
    ensures Spaced(w, w.resends.Keys)
  {
  }

  /**
   * From any reachable state, however many resends overlap: of those begun since, no two whose mail went
   * out, or may yet, began within two minutes of each other.
   */
  lemma ResendsAreSpaced(email: string, start: int, events: seq<Event>, resends: seq<Event>, r: nat, s: nat)
    requires 0 < start && IsRun(Start(email, start), events)
    requires IsRun(Run(Start(email, start), events), resends) && forall e :: e in resends ==> IsResend(e)
    ensures var was := Run(Start(email, start), events); var w := Run(was, resends);
            r != s && r in w.resends && s in w.resends && r !in was.resends && s !in was.resends &&
            Counts(w, r) && Counts(w, s) ==>
              w.resends[r].begun - w.resends[s].begun >= 120_000 || w.resends[s].begun - w.resends[r].begun >= 120_000
  {
    hide IsRun, Run, Ordered, FarApart, IsResend, Counts, AllHeld, Step, Possible;
    var was := Run(Start(email, start), events);
    NoGuesses();
    RunKeeps(Start(email, start), events);
    RunKeepsTimes(Start(email, start), events);
    NoneIsNew(was);
    hide IsRun, Run, Sound, TimesSound, AllHeld, IsResend;
    RunSpaces(was, resends, was.resends.Keys);
  }
}
