/**
 * Confirming one account's address: the credentials mailed to it, the guesses made at their codes, and
 * every interleaving of resends, confirmations and address changes. Times are in milliseconds; an address
 * stands for its lower-case form, which is what every comparison uses.
 */
module Verification {
  import opened Text
  import opened SlidingWindow

  const TTL := DAY
  const CODE_TTL := 10 * MINUTE
  const MAX_TRIES := 5
  const TRY_WINDOW := DAY
  const MAX_OUTSTANDING_RESEND := 2 * MINUTE

  /** mail.Sender cuts a send off after 30 seconds, and the transaction that follows it has 5. */
  const SEND_LIMIT := 30_000
  const COMMIT_LIMIT := 5_000

  /** From the clock reading of a resend's first transaction to that of its last, all delays included. */
  const RESEND_LIMIT := MINUTE + SEND_LIMIT + COMMIT_LIMIT

  /** A stored credential; `code` is the digest of its six-digit code, "" in a row without one. */
  datatype Row = Row(email: string, code: string, expires: int, created: int, codeExpires: int, tries: nat)

  datatype Budget = Budget(attempts: nat, last: int)

  datatype Account = Account(email: string, verified: bool, rows: map<string, Row>, budget: Option<Budget>)

  datatype Outcome =
    Confirmed | Invalid | Expired | CodeExpired | Limited | AlreadyVerified | NoAddress | TooSoon | Done

  // --- each transaction ------------------------------------------------------------------------

  function NewRow(email: string, code: string, issuedAt: int): Row {
    Row(email, code, issuedAt + TTL, issuedAt, issuedAt + CODE_TTL, 0)
  }

  function VerifyLink(a: Account, id: string, now: int): (Account, Outcome) {
    if id !in a.rows then (a, Invalid)
    else if now > a.rows[id].expires then (a.(rows := a.rows - {id}), Expired)
    else if a.rows[id].email == a.email then (a.(verified := true, rows := map[], budget := None), Confirmed)
    else (a.(rows := a.rows - {id}), Invalid)
  }

  function Spent(budget: Option<Budget>, now: int): nat {
    if budget.None? || now - budget.value.last >= TRY_WINDOW then 0 else budget.value.attempts
  }

  /** The code of this row can still be guessed at. */
  predicate Usable(email: string, r: Row, now: int) {
    r.email == email && r.code != "" && r.codeExpires > now && r.tries < MAX_TRIES
  }

  predicate Lapsed(email: string, r: Row, now: int) {
    r.email == email && r.code != "" && r.codeExpires <= now
  }

  predicate Matches(a: Account, digest: string, now: int) {
    exists id :: id in a.rows && Usable(a.email, a.rows[id], now) && a.rows[id].code == digest
  }

  predicate AnyUsable(a: Account, now: int) {
    exists id :: id in a.rows && Usable(a.email, a.rows[id], now)
  }

  function Tried(a: Account, now: int): map<string, Row> {
    map id | id in a.rows ::
      if Usable(a.email, a.rows[id], now) then a.rows[id].(tries := a.rows[id].tries + 1) else a.rows[id]
  }

  function VerifyCode(a: Account, digest: string, now: int): (Account, Outcome) {
    var spent := Spent(a.budget, now);
    if spent >= MAX_TRIES then (a, Limited)
    else if Matches(a, digest, now) then (a.(verified := true, rows := map[], budget := None), Confirmed)
    else if !AnyUsable(a, now) then
      (a, if exists id :: id in a.rows && Lapsed(a.email, a.rows[id], now) then CodeExpired else Invalid)
    else
      (a.(rows := Tried(a, now), budget := Some(Budget(spent + 1, now))),
       if spent + 1 >= MAX_TRIES then Limited else Invalid)
  }

  /** A wrong guess that was counted. */
  predicate Counted(a: Account, digest: string, now: int) {
    Spent(a.budget, now) < MAX_TRIES && !Matches(a, digest, now) && AnyUsable(a, now)
  }

  /** Some unexpired credential was issued less than two minutes ago. */
  predicate JustSent(a: Account, now: int) {
    exists id :: id in a.rows && a.rows[id].expires > now &&
      a.rows[id].created > 0 && now - a.rows[id].created < MAX_OUTSTANDING_RESEND
  }

  function ResendInsert(a: Account, id: string, code: string, now: int): (Account, Outcome) {
    if a.verified then (a, AlreadyVerified)
    else if a.email == "" then (a, NoAddress)
    else if JustSent(a, now) then (a, TooSoon)
    else (a.(rows := a.rows[id := NewRow(a.email, code, now)]), Done)
  }

  /** Whether the transaction after a successful send retires the account's other credentials. */
  predicate Retires(a: Account, id: string, email: string) {
    !a.verified && a.email == email && id in a.rows && a.rows[id].email == a.email
  }

  function ResendCommit(a: Account, id: string, email: string): (Account, Outcome) {
    if a.verified then (a, Done)
    else if !Retires(a, id, email) then (a, Invalid)
    else (a.(rows := map[id := a.rows[id]]), Done)
  }

  // --- runs ------------------------------------------------------------------------------------

  datatype Phase = Sending | Failed | Delivered | Finished

  /** A resend under way: its credential, the address it was read for, and when the credential was issued. */
  datatype Resend = Resend(id: string, email: string, begun: int, phase: Phase)

  /**
   * The account; the resends; the ids ever issued and those whose mail went out; the times of the wrong
   * guesses counted since the last success; the address of the credential that last set the flag; and
   * the latest clock reading under the account's row lock, which pruning does not take.
   */
  datatype World = World(
    account: Account, resends: map<nat, Resend>, issued: set<string>, delivered: set<string>,
    guesses: seq<int>, proven: Option<string>, clock: int)

  datatype Event =
    | BeginResend(r: nat, id: string, code: string, now: int)
    | Sent(r: nat, ok: bool)
    | Cleanup(r: nat, now: int)
    | Commit(r: nat, now: int)
    | FollowLink(id: string, now: int)
    | EnterCode(digest: string, now: int)
    | Move(email: string, confirmed: bool)
    | Reissue(id: string, code: string, now: int, created: int)
    | Posted(id: string)
    | Prune(now: int)

  predicate InPhase(w: World, r: nat, phase: Phase) {
    r in w.resends && w.resends[r].phase == phase
  }

  predicate Possible(w: World, e: Event) {
    match e
    case BeginResend(r, id, code, now) => r !in w.resends && id !in w.issued && w.clock <= now
    case Sent(r, ok) => InPhase(w, r, Sending)
    case Cleanup(r, now) => InPhase(w, r, Failed) && w.clock <= now
    case Commit(r, now) => InPhase(w, r, Delivered) && w.clock <= now <= w.resends[r].begun + RESEND_LIMIT
    case FollowLink(id, now) => w.clock <= now
    case EnterCode(digest, now) => w.clock <= now
    case Move(email, confirmed) => true
    case Reissue(id, code, now, created) => id !in w.issued && w.clock <= now
    case Posted(id) => id in w.issued && forall r :: r in w.resends ==> w.resends[r].id != id
    case Prune(now) => true
  }

  function At(w: World, r: nat, phase: Phase): World
    requires r in w.resends
  {
    w.(resends := w.resends[r := w.resends[r].(phase := phase)])
  }

  /** A credential whose code was the one entered. */
  ghost function Guessed(a: Account, digest: string, now: int): (id: string)
    requires Matches(a, digest, now)
    ensures id in a.rows && Usable(a.email, a.rows[id], now) && a.rows[id].code == digest
  {
    var id :| id in a.rows && Usable(a.email, a.rows[id], now) && a.rows[id].code == digest;
    id
  }

  ghost function Step(w: World, e: Event): World
    requires Possible(w, e)
  {
    var a := w.account;
    match e
    case BeginResend(r, id, code, now) =>
      var (next, outcome) := ResendInsert(a, id, code, now);
      if outcome == Done then
        w.(account := next, resends := w.resends[r := Resend(id, a.email, now, Sending)], issued := w.issued + {id},
           clock := now)
      else w.(clock := now)
    case Sent(r, ok) =>
      if ok then At(w, r, Delivered).(delivered := w.delivered + {w.resends[r].id}) else At(w, r, Failed)
    case Cleanup(r, now) =>
      At(w, r, Finished).(account := a.(rows := a.rows - {w.resends[r].id}), clock := now)
    case Commit(r, now) =>
      At(w, r, Finished).(account := ResendCommit(a, w.resends[r].id, w.resends[r].email).0, clock := now)
    case FollowLink(id, now) =>
      var (next, outcome) := VerifyLink(a, id, now);
      if outcome == Confirmed then w.(account := next, clock := now, guesses := [], proven := Some(a.rows[id].email))
      else w.(account := next, clock := now)
    case EnterCode(digest, now) =>
      var (next, outcome) := VerifyCode(a, digest, now);
      if outcome == Confirmed then
        w.(account := next, clock := now, guesses := [], proven := Some(a.rows[Guessed(a, digest, now)].email))
      else
        w.(account := next, clock := now,
           guesses := if Counted(a, digest, now) then w.guesses + [now] else w.guesses)
    case Move(email, confirmed) =>
      w.(account := a.(email := email, verified := confirmed, rows := map[]),
         proven := if confirmed then Some(email) else w.proven)
    case Reissue(id, code, now, created) =>
      w.(account := a.(rows := map[id := NewRow(a.email, code, now).(created := created)]),
         issued := w.issued + {id}, clock := now)
    case Posted(id) => w.(delivered := w.delivered + {id})
    case Prune(now) =>
      w.(account := a.(rows := map id | id in a.rows && a.rows[id].expires >= now :: a.rows[id]))
  }

  function Start(email: string, now: int): World {
    World(Account(email, false, map[], None), map[], {}, {}, [], None, now)
  }

  ghost predicate IsRun(w: World, events: seq<Event>)
    decreases |events|
  {
    events == [] || (Possible(w, events[0]) && IsRun(Step(w, events[0]), events[1..]))
  }

  ghost function Run(w: World, events: seq<Event>): World
    requires IsRun(w, events)
    decreases |events|
  {
    if events == [] then w else Run(Step(w, events[0]), events[1..])
  }

  // --- the invariant -----------------------------------------------------------------------------

  /** Resends have credentials of their own, delivered exactly when their mail went out. */
  predicate ResendsSound(resends: map<nat, Resend>, rows: set<string>, issued: set<string>, delivered: set<string>) {
    rows <= issued && delivered <= issued &&
    (forall r :: r in resends ==>
       resends[r].id in issued &&
       (resends[r].phase.Delivered? ==> resends[r].id in delivered) &&
       (resends[r].phase.Sending? || resends[r].phase.Failed? ==> resends[r].id !in delivered)) &&
    (forall r, s :: r in resends && s in resends && resends[r].id == resends[s].id ==> r == s)
  }

  /** The budget counts the last group of guesses, and a window lies between that group and the one before. */
  ghost predicate GuessesSound(guesses: seq<int>, budget: Option<Budget>, clock: int) {
    Ordered(guesses) && FarApart(guesses, MAX_TRIES, TRY_WINDOW) &&
    match budget
    case None => guesses == []
    case Some(b) =>
      0 < b.attempts <= MAX_TRIES && b.attempts <= |guesses| &&
      b.last == guesses[|guesses| - 1] <= clock &&
      (b.attempts < |guesses| ==>
         guesses[|guesses| - b.attempts] - guesses[|guesses| - b.attempts - 1] >= TRY_WINDOW)
  }

  /** A resend's credential keeps the life it was issued with. */
  predicate LivesSound(resends: map<nat, Resend>, rows: map<string, Row>) {
    forall r :: r in resends && resends[r].id in rows ==>
      rows[resends[r].id].created == resends[r].begun && rows[resends[r].id].expires == resends[r].begun + TTL
  }

  ghost predicate Sound(w: World) {
    LivesSound(w.resends, w.account.rows) &&
    ResendsSound(w.resends, w.account.rows.Keys, w.issued, w.delivered) &&
    GuessesSound(w.guesses, w.account.budget, w.clock) &&
    (w.account.verified ==> w.proven == Some(w.account.email))
  }

  lemma GuessKeeps(guesses: seq<int>, budget: Option<Budget>, clock: int, now: int)
    requires GuessesSound(guesses, budget, clock) && clock <= now && Spent(budget, now) < MAX_TRIES
    ensures GuessesSound(guesses + [now], Some(Budget(Spent(budget, now) + 1, now)), now)
  {
    var n, after := |guesses|, guesses + [now];
    assert forall i :: 0 <= i < n ==> after[i] == guesses[i];
    assert Ordered(after);
    if n >= MAX_TRIES && budget.Some? {
      var k := budget.value.attempts;
      assert guesses[n - MAX_TRIES] <= guesses[if k < n && Spent(budget, now) > 0 then n - k - 1 else n - 1];
    }
  }

  /** No more credentials, and none that lives longer or shorter. */
  predicate Fewer(rows: map<string, Row>, of: map<string, Row>) {
    forall id :: id in rows ==> id in of && rows[id].expires == of[id].expires && rows[id].created == of[id].created
  }

  /** No confirmation or commit makes up a credential. */
  lemma OnlyFewerRows(a: Account, id: string, text: string, now: int)
    ensures Fewer(VerifyLink(a, id, now).0.rows, a.rows)
    ensures Fewer(VerifyCode(a, text, now).0.rows, a.rows)
    ensures Fewer(ResendCommit(a, id, text).0.rows, a.rows)
  {
    hide Matches, AnyUsable, Spent, Usable, Lapsed;
  }

  lemma StepKeepsResends(w: World, e: Event)
    ensures Sound(w) && Possible(w, e) ==>
              var next := Step(w, e); ResendsSound(next.resends, next.account.rows.Keys, next.issued, next.delivered)
  {
    hide GuessesSound, LivesSound, JustSent, NewRow, VerifyLink, VerifyCode, ResendCommit, Counted;
    if Sound(w) && Possible(w, e) {
      match e {
        case FollowLink(id, now) => OnlyFewerRows(w.account, id, "", now);
        case EnterCode(digest, now) => OnlyFewerRows(w.account, "", digest, now);
        case Commit(r, now) => OnlyFewerRows(w.account, w.resends[r].id, w.resends[r].email, now);
        case _ =>
      }
    }
  }

  lemma StepKeepsLives(w: World, e: Event)
    ensures Sound(w) && Possible(w, e) ==> LivesSound(Step(w, e).resends, Step(w, e).account.rows)
  {
    hide GuessesSound, JustSent, VerifyLink, VerifyCode, ResendCommit, Counted;
    if Sound(w) && Possible(w, e) {
      match e {
        case FollowLink(id, now) => OnlyFewerRows(w.account, id, "", now);
        case EnterCode(digest, now) => OnlyFewerRows(w.account, "", digest, now);
        case Commit(r, now) => OnlyFewerRows(w.account, w.resends[r].id, w.resends[r].email, now);
        case _ =>
      }
    }
  }

  lemma LaterStillSound(guesses: seq<int>, budget: Option<Budget>, clock: int, now: int)
    ensures GuessesSound(guesses, budget, clock) && clock <= now ==> GuessesSound(guesses, budget, now)
  {
    hide Ordered, FarApart;
  }

  lemma NoneIsSound(clock: int)
    ensures GuessesSound([], None, clock)
  {
  }

  /** A code entered either leaves the budget alone, ends it with a success, or counts one more guess. */
  lemma WhatACodeSpends(a: Account, digest: string, now: int)
    ensures var (next, outcome) := VerifyCode(a, digest, now);
            if outcome == Confirmed then next.budget == None && !Counted(a, digest, now)
            else if Counted(a, digest, now) then
              Spent(a.budget, now) < MAX_TRIES && next.budget == Some(Budget(Spent(a.budget, now) + 1, now))
            else next.budget == a.budget
  {
    hide Matches, AnyUsable, Spent, Tried;
  }

  lemma StepKeepsGuesses(w: World, e: Event)
    requires Sound(w) && Possible(w, e)
    ensures var next := Step(w, e); GuessesSound(next.guesses, next.account.budget, next.clock)
  {
    hide ResendsSound, GuessesSound, JustSent, NewRow, VerifyCode, Counted;
    var next := Step(w, e);
    NoneIsSound(next.clock);
    LaterStillSound(w.guesses, w.account.budget, w.clock, next.clock);
    if e.EnterCode? {
      WhatACodeSpends(w.account, e.digest, e.now);
      if Counted(w.account, e.digest, e.now) {
        GuessKeeps(w.guesses, w.account.budget, w.clock, e.now);
      }
    }
  }

  lemma StepKeepsProof(w: World, e: Event)
    ensures Sound(w) && Possible(w, e) ==>
              var next := Step(w, e); next.account.verified ==> next.proven == Some(next.account.email)
  {
    hide ResendsSound, GuessesSound, AnyUsable, JustSent, Lapsed, NewRow, Spent, Tried;
  }

  lemma StepKeeps(w: World, e: Event)
    requires Sound(w) && Possible(w, e)
    ensures Sound(Step(w, e))
  {
    hide Step, Possible, ResendsSound, LivesSound, GuessesSound;
    StepKeepsResends(w, e);
    StepKeepsLives(w, e);
    StepKeepsGuesses(w, e);
    StepKeepsProof(w, e);
  }

  lemma {:induction false} RunKeeps(w: World, events: seq<Event>)
    requires Sound(w) && IsRun(w, events)
    ensures Sound(Run(w, events))
    decreases |events|
  {
    hide Step, Possible, Sound;
    if events == [] {
    } else {
      StepKeeps(w, events[0]);
      RunKeeps(Step(w, events[0]), events[1..]);
    }
  }

  // --- what holds over every run -------------------------------------------------------------------

  /** Whatever is resent, reissued or moved meanwhile, no 24 hours hold more than five counted wrong guesses. */
  lemma GuessesAreBudgeted(email: string, start: int, events: seq<Event>)
    requires IsRun(Start(email, start), events)
    ensures AtMost(Run(Start(email, start), events).guesses, MAX_TRIES, TRY_WINDOW)
  {
    hide IsRun, Run, AtMost, Ordered, FarApart;
    assert Ordered([]) && FarApart([], MAX_TRIES, TRY_WINDOW) by { NoGuesses(); }
    RunKeeps(Start(email, start), events);
    FarApartIsAtMost(Run(Start(email, start), events).guesses, MAX_TRIES, TRY_WINDOW, 0);
  }

  lemma NoGuesses()
    ensures Ordered([]) && FarApart([], MAX_TRIES, TRY_WINDOW)
  {
  }

  /** However an address change interleaves, a confirmed account is at the address that was proven. */
  lemma OnlyTheProvenAddress(email: string, start: int, events: seq<Event>)
    requires IsRun(Start(email, start), events)
    ensures var w := Run(Start(email, start), events); w.account.verified ==> w.proven == Some(w.account.email)
  {
    hide IsRun, Run, Ordered, FarApart;
    NoGuesses();
    RunKeeps(Start(email, start), events);
  }

  /** A credential in the owner's mailbox that still confirms the address the account is at. */
  predicate Live(w: World, now: int) {
    exists id :: id in w.account.rows && id in w.delivered &&
      w.account.rows[id].email == w.account.email && now <= w.account.rows[id].expires
  }

  predicate IsResend(e: Event) {
    e.BeginResend? || e.Sent? || e.Cleanup? || e.Commit?
  }

  /** A failed send removes its own credential, which never reached anybody, and no other. */
  lemma CleanupTakesItsOwn(w: World, e: Event)
    requires Sound(w) && Possible(w, e) && e.Cleanup?
    ensures var own := w.resends[e.r].id;
            own !in w.delivered &&
            forall id :: id in w.account.rows && id != own ==>
              id in Step(w, e).account.rows && Step(w, e).account.rows[id] == w.account.rows[id]
  {
    hide GuessesSound, LivesSound;
  }

  /** The credential kept by the transaction after a send has most of its life before it. */
  lemma CommitKeepsItsOwn(w: World, e: Event)
    ensures Sound(w) && Possible(w, e) && e.Commit? ==>
              var q := w.resends[e.r];
              Retires(w.account, q.id, q.email) ==>
                q.id in w.delivered && w.account.rows[q.id].expires >= e.now + TTL - RESEND_LIMIT
  {
    hide GuessesSound;
  }

  /** One step of a resend, for any time at which a credential issued now would not be nearly over. */
  lemma ResendKeepsLive(w: World, e: Event, t: int)
    ensures Sound(w) && Possible(w, e) && IsResend(e) && Live(w, t) && t <= Step(w, e).clock + TTL - RESEND_LIMIT ==>
              Live(Step(w, e), t)
  {
    hide GuessesSound, LivesSound, JustSent, NewRow;
    if Sound(w) && Possible(w, e) && IsResend(e) && Live(w, t) && t <= Step(w, e).clock + TTL - RESEND_LIMIT {
      var id :| id in w.account.rows && id in w.delivered &&
        w.account.rows[id].email == w.account.email && t <= w.account.rows[id].expires;
      var next := Step(w, e);
      if e.Commit? && Retires(w.account, w.resends[e.r].id, w.resends[e.r].email) {
        CommitKeepsItsOwn(w, e);
        assert w.resends[e.r].id in next.account.rows && w.resends[e.r].id in next.delivered;
      } else {
        if e.Cleanup? { CleanupTakesItsOwn(w, e); }
        assert e.BeginResend? ==> id != e.id;
        assert id in next.account.rows && next.account.rows[id] == w.account.rows[id] && id in next.delivered;
      }
    }
  }

  lemma ClockGoesOn(w: World, e: Event)
    ensures Possible(w, e) ==> w.clock <= Step(w, e).clock
  {
    hide VerifyLink, VerifyCode, ResendInsert, ResendCommit, Counted;
  }

  lemma {:induction false} ResendsKeepLive(w: World, events: seq<Event>, t: int)
    requires Sound(w) && IsRun(w, events) && Live(w, t) && t <= w.clock + TTL - RESEND_LIMIT
    requires forall e :: e in events ==> IsResend(e)
    ensures Live(Run(w, events), t)
    decreases |events|
  {
    hide Step, Possible, Sound, Live, IsResend;
    if events == [] {
    } else {
      var e := events[0];
      assert e in events;
      ClockGoesOn(w, e);
      ResendKeepsLive(w, e, t);
      StepKeeps(w, e);
      ResendsKeepLive(Step(w, e), events[1..], t);
    }
  }

  /**
   * In every reachable state, no step of a resend takes the last live credential: if there is one at the
   * clock reading of the step, there is one after it.
   */
  lemma AResendNeverStrands(email: string, start: int, events: seq<Event>, e: Event)
    requires IsRun(Start(email, start), events)
    ensures var w := Run(Start(email, start), events);
            Possible(w, e) && IsResend(e) && Live(w, Step(w, e).clock) ==> Live(Step(w, e), Step(w, e).clock)
  {
    hide IsRun, Run, Ordered, FarApart, Live, Step, Possible, IsResend;
    var w := Run(Start(email, start), events);
    NoGuesses();
    RunKeeps(Start(email, start), events);
    if Possible(w, e) && IsResend(e) && Live(w, Step(w, e).clock) {
      ResendKeepsLive(w, e, Step(w, e).clock);
    }
  }

  /**
   * From any reachable state, however many resends overlap and wherever each of them stands: a credential
   * live at some time within the life of a link, less the time a resend can take, leaves one live then.
   */
  lemma ResendsNeverStrand(email: string, start: int, events: seq<Event>, resends: seq<Event>, t: int)
    requires IsRun(Start(email, start), events)
    requires IsRun(Run(Start(email, start), events), resends) && forall e :: e in resends ==> IsResend(e)
    ensures var w := Run(Start(email, start), events);
            Live(w, t) && t <= w.clock + TTL - RESEND_LIMIT ==> Live(Run(w, resends), t)
  {
    hide IsRun, Run, Ordered, FarApart, Live, IsResend;
    var w := Run(Start(email, start), events);
    NoGuesses();
    RunKeeps(Start(email, start), events);
    if Live(w, t) && t <= w.clock + TTL - RESEND_LIMIT {
      ResendsKeepLive(w, resends, t);
    }
  }
}
