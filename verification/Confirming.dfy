/** What gets an account confirmed, in every state a run can reach. Times are in milliseconds. */
module Confirming {
  import opened Text
  import opened SlidingWindow
  import opened Verification

  /** An unlapsed code was tried no more often than the budget says, and last within its own short life. */
  predicate TriesSound(rows: map<string, Row>, budget: Option<Budget>, clock: int) {
    forall id :: id in rows ==>
      rows[id].codeExpires <= clock + CODE_TTL &&
      (rows[id].tries > 0 && rows[id].codeExpires > clock ==>
         budget.Some? && rows[id].tries <= budget.value.attempts &&
         rows[id].codeExpires <= budget.value.last + CODE_TTL)
  }

  /** The guesses the budget counts follow each other within a day. */
  ghost predicate Grouped(guesses: seq<int>, budget: Option<Budget>) {
    budget.Some? ==>
      0 < budget.value.attempts <= |guesses| && budget.value.last == guesses[|guesses| - 1] &&
      forall i :: |guesses| - budget.value.attempts < i < |guesses| ==> guesses[i] - guesses[i - 1] < DAY
  }

  /** The last five counted guesses and `now` follow each other within a day. */
  ghost predicate Exhausted(guesses: seq<int>, now: int) {
    |guesses| >= 5 && now - guesses[|guesses| - 1] < DAY &&
    forall i :: |guesses| - 5 < i < |guesses| ==> guesses[i] - guesses[i - 1] < DAY
  }

  ghost predicate Settled(w: World) {
    Sound(w) && TriesSound(w.account.rows, w.account.budget, w.clock) && Grouped(w.guesses, w.account.budget)
  }

  /** A counted guess keeps each code's tries within the budget. */
  lemma TryKeeps(a: Account, clock: int, now: int)
    requires TriesSound(a.rows, a.budget, clock) && clock <= now
    requires a.budget.Some? ==> a.budget.value.last <= clock
    ensures TriesSound(Tried(a, now), Some(Budget(Spent(a.budget, now) + 1, now)), now)
  {
  }

  lemma GuessKeepsGroup(guesses: seq<int>, budget: Option<Budget>, now: int)
    requires Grouped(guesses, budget)
    ensures Grouped(guesses + [now], Some(Budget(Spent(budget, now) + 1, now)))
  {
  }

  /** The other ways to the next state keep the codes as they are, drop them, or add one nobody has tried. */
  lemma RowsOtherwise(w: World, e: Event, id: string)
    requires Possible(w, e) && id in Step(w, e).account.rows
    requires e.EnterCode? ==> !Counted(w.account, e.digest, e.now)
    ensures var r := Step(w, e).account.rows[id];
            (id in w.account.rows && r == w.account.rows[id]) ||
            (r.tries == 0 && r.codeExpires <= Step(w, e).clock + CODE_TTL)
  {
    hide JustSent, Spent, Usable, Lapsed;
  }

  lemma BudgetOtherwise(w: World, e: Event)
    requires Possible(w, e)
    requires e.EnterCode? ==> !Counted(w.account, e.digest, e.now)
    ensures var next := Step(w, e);
            (next.account.budget == w.account.budget && next.guesses == w.guesses) ||
            (next.account.budget == None && next.account.rows == map[])
  {
    hide JustSent, NewRow, Spent, Usable, Lapsed, Tried;
  }

  lemma OtherStepSettles(w: World, e: Event)
    requires Settled(w) && Possible(w, e)
    requires e.EnterCode? ==> !Counted(w.account, e.digest, e.now)
    ensures TriesSound(Step(w, e).account.rows, Step(w, e).account.budget, Step(w, e).clock)
    ensures Grouped(Step(w, e).guesses, Step(w, e).account.budget)
  {
    var rows, next := w.account.rows, Step(w, e);
    ClockGoesOn(w, e);
    BudgetOtherwise(w, e);
    forall id | id in next.account.rows
      ensures var r := next.account.rows[id];
              (id in rows && r == rows[id]) || (r.tries == 0 && r.codeExpires <= next.clock + CODE_TTL)
    {
      RowsOtherwise(w, e, id);
    }
    hide Step, Possible, Sound, Counted;
  }

  lemma StepSettles(w: World, e: Event)
    requires Settled(w) && Possible(w, e)
    ensures Settled(Step(w, e))
  {
    var a := w.account;
    StepKeeps(w, e);
    if e.EnterCode? && Counted(a, e.digest, e.now) {
      CountedStep(w, e);
      assert w.clock <= e.now;
      TryKeeps(a, w.clock, e.now);
      GuessKeepsGroup(w.guesses, a.budget, e.now);
    } else {
      OtherStepSettles(w, e);
    }
    hide Step, Possible, Sound, TriesSound, Grouped, Counted, Tried;
  }

  lemma CountedStep(w: World, e: Event)
    requires Possible(w, e) && e.EnterCode? && Counted(w.account, e.digest, e.now)
    requires GuessesSound(w.guesses, w.account.budget, w.clock)
    ensures var a, next := w.account, Step(w, e);
            next.account.rows == Tried(a, e.now) && next.clock == e.now && next.guesses == w.guesses + [e.now] &&
            next.account.budget == Some(Budget(Spent(a.budget, e.now) + 1, e.now))
    ensures w.account.budget.Some? ==> w.account.budget.value.last <= w.clock
  {
    hide Matches, AnyUsable, Spent, Tried, Lapsed;
  }

  lemma {:induction false} RunSettles(w: World, events: seq<Event>)
    requires Settled(w) && IsRun(w, events)
    ensures Settled(Run(w, events))
    decreases |events|
  {
    hide Step, Possible, Settled;
    if events == [] {
    } else {
      StepSettles(w, events[0]);
      RunSettles(Step(w, events[0]), events[1..]);
    }
  }

  lemma ReachableIsSettled(email: string, start: int, events: seq<Event>)
    requires IsRun(Start(email, start), events)
    ensures Settled(Run(Start(email, start), events))
  {
    hide IsRun, Run;
    NoGuesses();
    RunSettles(Start(email, start), events);
  }

  /** The budget is spent exactly when the last five guesses say so. */
  lemma SpentIsExhausted(guesses: seq<int>, budget: Option<Budget>, clock: int, now: int)
    requires GuessesSound(guesses, budget, clock) && Grouped(guesses, budget)
    ensures Spent(budget, now) >= MAX_TRIES <==> Exhausted(guesses, now)
  {
    hide Ordered, FarApart;
    if budget.Some? && budget.value.attempts < |guesses| {
      var i := |guesses| - budget.value.attempts;
      assert guesses[i] - guesses[i - 1] >= DAY;
    }
  }

  /**
   * In every reachable state a code confirms the account exactly when it is one mailed for the address
   * the account is at, its ten minutes are not over, and the last five guesses leave room for another:
   * a code's own count of tries never refuses what these let through.
   */
  lemma ACodeConfirmsExactlyWhen(email: string, start: int, events: seq<Event>, digest: string, now: int)
    requires IsRun(Start(email, start), events)
    ensures var w := Run(Start(email, start), events);
            w.clock <= now ==>
              (VerifyCode(w.account, digest, now).1 == Confirmed <==>
               !Exhausted(w.guesses, now) &&
               exists id :: id in w.account.rows && w.account.rows[id].email == w.account.email &&
                 digest != "" && w.account.rows[id].code == digest && now < w.account.rows[id].codeExpires)
  {
    var w := Run(Start(email, start), events);
    ReachableIsSettled(email, start, events);
    SpentIsExhausted(w.guesses, w.account.budget, w.clock, now);
    if w.clock <= now && Spent(w.account.budget, now) < MAX_TRIES { MatchesExactlyWhen(w, digest, now); }
    hide IsRun, Run, Settled, Matches, AnyUsable, Exhausted, Lapsed;
  }

  lemma MatchesExactlyWhen(w: World, digest: string, now: int)
    requires Settled(w) && w.clock <= now && Spent(w.account.budget, now) < MAX_TRIES
    ensures Matches(w.account, digest, now) <==>
            exists id :: id in w.account.rows && w.account.rows[id].email == w.account.email &&
              digest != "" && w.account.rows[id].code == digest && now < w.account.rows[id].codeExpires
  {
    hide Sound, Grouped;
  }

  /** The credentials that confirm when followed are those stored for the account's address and not a day old. */
  lemma ALiveLinkConfirms(w: World, now: int)
    ensures Live(w, now) <==> exists id :: id in w.delivered && VerifyLink(w.account, id, now).1 == Confirmed
    ensures forall id :: VerifyLink(w.account, id, now).1 == Confirmed ==>
              VerifyLink(w.account, id, now).0 == Account(w.account.email, true, map[], None)
  {
    if Live(w, now) {
      var id :| id in w.account.rows && id in w.delivered &&
        w.account.rows[id].email == w.account.email && now <= w.account.rows[id].expires;
      assert VerifyLink(w.account, id, now).1 == Confirmed;
    }
  }

  /**
   * In every reachable state, an unconfirmed account with an address and no unexpired credential of the last
   * two minutes can have a credential sent. Its link then confirms for a day from its issue, and its code for
   * ten minutes unless the last five guesses are in the way.
   */
  lemma AResendConfirms(email: string, start: int, events: seq<Event>, r: nat, id: string, code: string,
                        begun: int, done: int, t: int)
    requires IsRun(Start(email, start), events) && code != ""
    requires var w := Run(Start(email, start), events);
             !w.account.verified && w.account.email != "" && r !in w.resends && id !in w.issued &&
             w.clock <= begun <= done <= begun + 95_000 && done <= t &&
             forall other :: other in w.account.rows ==>
               var row := w.account.rows[other];
               row.expires <= begun || row.created <= 0 || begun - row.created >= 2 * 60 * 1000
    ensures var w, sent := Run(Start(email, start), events),
                           [BeginResend(r, id, code, begun), Sent(r, true), Commit(r, done)];
            IsRun(w, sent) &&
            (t <= begun + 24 * 60 * 60 * 1000 ==>
               VerifyLink(Run(w, sent).account, id, t) == (Account(w.account.email, true, map[], None), Confirmed)) &&
            (t < begun + 10 * 60 * 1000 && !Exhausted(w.guesses, t) ==>
               VerifyCode(Run(w, sent).account, code, t) == (Account(w.account.email, true, map[], None), Confirmed))
  {
    var w := Run(Start(email, start), events);
    ReachableIsSettled(email, start, events);
    SpentIsExhausted(w.guesses, w.account.budget, w.clock, t);
    hide IsRun, Run, Exhausted, Grouped, TriesSound, GuessesSound, ResendsSound, LivesSound, Spent;
    SentAlone(w, r, id, code, begun, done);
    var row := Row(w.account.email, code, begun + TTL, begun, begun + CODE_TTL, 0);
    var a := Account(w.account.email, false, map[id := row], w.account.budget);
    assert id in a.rows && a.rows[id] == row;
    if t < begun + CODE_TTL { assert Matches(a, code, t); }
  }

  /** The three steps of a resend nothing else comes between. */
  lemma SentAlone(w: World, r: nat, id: string, code: string, begun: int, done: int)
    requires !w.account.verified && w.account.email != "" && r !in w.resends && id !in w.issued
    requires w.clock <= begun <= done <= begun + RESEND_LIMIT && !JustSent(w.account, begun)
    ensures var sent := [BeginResend(r, id, code, begun), Sent(r, true), Commit(r, done)];
            IsRun(w, sent) &&
            Run(w, sent).account == Account(w.account.email, false, map[id := NewRow(w.account.email, code, begun)],
                                            w.account.budget)
  {
    hide JustSent, VerifyLink, VerifyCode, Counted, Matches;
    var e, f, g := BeginResend(r, id, code, begun), Sent(r, true), Commit(r, done);
    var sent := [e, f, g];
    assert sent[0] == e && sent[1..] == [f, g] && [f, g][0] == f && [f, g][1..] == [g] && [g][0] == g && [g][1..] == [];
    var one := Step(w, e);
    var two := Step(one, f);
    var three := Step(two, g);
    assert IsRun(three, []) && Run(three, []) == three;
    assert IsRun(two, [g]) && Run(two, [g]) == three;
    assert IsRun(one, [f, g]) && Run(one, [f, g]) == three;
  }
}
