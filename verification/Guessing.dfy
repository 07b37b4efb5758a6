/** How many wrong answers the limiter lets one account take, over whole runs and not one bucket's life. */
module Guessing {
  import opened Basics
  import opened LimiterRules
  import opened SlidingWindow

  /** The first six wrong answers and ten more, each past its backoff, take less than half an hour. */
  const LIMIT := 16

  /**
   * Clocks are read before the lock is taken, so an event may carry a time before an earlier
   * event's, but by no more than `skew`.
   */
  predicate Punctual(events: seq<Event>, latest: int, skew: nat)
    decreases |events|
  {
    events == [] ||
    (events[0].now >= latest - skew && Punctual(events[1..], Max(latest, events[0].now), skew))
  }

  /** The wrong answers against an account, with those of this event. */
  function Told(w: World, e: Event, k: string, guesses: seq<int>): seq<int>
    requires Possible(w, e)
  {
    if e.Finish? && k in w.attempts[e.id].keys then
      match e.outcome
      case Failed => guesses + [e.now]
      case Succeeded => []
      case _ => guesses
    else guesses
  }

  /** The times of the wrong answers against an account since the last right one, whatever became of its bucket. */
  function Guesses(w: World, events: seq<Event>, k: string, guesses: seq<int> := []): seq<int>
    requires IsRun(w, events)
    decreases |events|
  {
    if events == [] then guesses else Guesses(Step(w, events[0]), events[1..], k, Told(w, events[0], k, guesses))
  }

  // --- one life of a bucket ---------------------------------------------------------------------

  /** Of seventeen answers in a row that one bucket counts, the last is half an hour after the first. */
  lemma SeventeenTakeLong(life: seq<int>, j: nat, skew: nat)
    requires Spaced(life, FREE_ATTEMPTS) && Ordered(life, skew) && LIMIT <= j < |life|
    ensures life[j] - life[j - LIMIT] >= BUCKET_TTL - skew
  {
    hide Spaced;
    var m := if j - LIMIT < FREE_ATTEMPTS then FREE_ATTEMPTS else j - LIMIT;
    SpacedAddsUp(life, FREE_ATTEMPTS, m, j);
    TotalIsLinear(j - m);
    assert life[j - LIMIT] <= life[m] + skew;
  }

  // --- one life after another ---------------------------------------------------------------------

  /** What the limiter holds for an account: the answers counted, whether it is protected, its last use. */
  datatype View = View(life: seq<int>, matched: bool, last: int)

  function ViewOf(w: World, k: string): View {
    if k in w.limiter.buckets && k in w.wrong then
      View(w.wrong[k], w.limiter.buckets[k].matched, w.limiter.buckets[k].lastFailure)
    else View([], false, 0)
  }

  /** Answers counted in lives that are over, and in this one, are spread out. */
  predicate Fits(past: seq<int>, life: seq<int>, latest: int, skew: nat) {
    var all := past + life;
    (forall i :: 0 <= i < |all| ==> all[i] <= latest) &&
    (forall i :: 0 <= i < |past| ==> past[i] + BUCKET_TTL - skew < latest) &&
    Ordered(all, skew) && FarApart(all, LIMIT, BUCKET_TTL - 2 * skew)
  }

  ghost predicate Fewer(some: seq<int>, all: seq<int>) {
    forall from, to :: CountIn(some, from, to) <= CountIn(all, from, to)
  }

  /** `past` are the answers counted in the earlier lives of protected buckets. */
  ghost predicate Spread(v: View, past: seq<int>, guesses: seq<int>, latest: int, skew: nat) {
    Fits(past, v.life, latest, skew) &&
    (forall i :: 0 <= i < |v.life| ==> v.life[i] <= v.last + skew) &&
    Fewer(guesses, if v.matched then past + v.life else past)
  }

  lemma TimeGoesOn(v: View, past: seq<int>, guesses: seq<int>, latest: int, skew: nat, now: int)
    ensures Spread(v, past, guesses, latest, skew) && now >= latest - skew ==>
              Spread(v, past, guesses, Max(latest, now), skew) &&
              Spread(v.(last := now), past, guesses, Max(latest, now), skew)
  {
    hide Ordered, FarApart, Fewer;
    var all := past + v.life;
    assert forall i :: 0 <= i < |v.life| ==> v.life[i] == all[|past| + i];
  }

  /** A bucket goes: it was empty, or a protected one that was idle, or none of its answers had to count. */
  lemma LifeEnds(v: View, next: View, past: seq<int>, guesses: seq<int>, latest: int, skew: nat, now: int)
    requires Spread(v, past, guesses, latest, skew) && next.life == [] && !next.matched
    requires v.life == [] || (v.matched ==> now - v.last > BUCKET_TTL)
    ensures Spread(next, if v.matched then past + v.life else past, guesses, Max(latest, now), skew)
  {
    hide Fewer;
    var all := past + v.life;
    assert all + [] == all && past + [] == past;
    assert forall i :: 0 <= i < |past| ==> past[i] == all[i];
  }

  lemma Forgiven(next: View, latest: int, skew: nat)
    ensures next.life == [] ==> Spread(next, [], [], latest, skew)
  {
  }

  lemma SpreadIsAtMost(v: View, past: seq<int>, guesses: seq<int>, latest: int, skew: nat)
    requires Spread(v, past, guesses, latest, skew)
    ensures AtMost(guesses, LIMIT, BUCKET_TTL - 3 * skew)
  {
    FarApartIsAtMost(past + v.life, LIMIT, BUCKET_TTL - 2 * skew, skew);
    hide Fits;
    forall from, to | to <= from + BUCKET_TTL - 3 * skew ensures CountIn(guesses, from, to) <= LIMIT {
      CountInJoin(past, v.life, from, to);
    }
  }

  lemma OneMoreCounts(v: View, past: seq<int>, guesses: seq<int>, latest: int, skew: nat, now: int, known: bool)
    requires Spread(v, past, guesses, latest, skew) && now >= latest - skew
    requires Spaced(v.life + [now], FREE_ATTEMPTS)
    ensures Spread(View(v.life + [now], v.matched || known, now), past,
                   if known then guesses + [now] else guesses, Max(latest, now), skew)
  {
    OneMoreFits(past, v.life, latest, skew, now);
    assert past + (v.life + [now]) == (past + v.life) + [now];
    forall from, to
      ensures CountIn(guesses + [now], from, to) <= CountIn(past + (v.life + [now]), from, to)
      ensures v.matched ==> CountIn(guesses, from, to) <= CountIn(past + (v.life + [now]), from, to)
    {
      CountInJoin(guesses, [now], from, to);
      CountInJoin(past + v.life, [now], from, to);
      CountInJoin(past, v.life, from, to);
    }
    hide Fits, Spaced;
    var all := past + v.life;
    assert forall i :: 0 <= i < |v.life| ==> v.life[i] == all[|past| + i];
  }

  lemma OneMoreFits(past: seq<int>, life: seq<int>, latest: int, skew: nat, now: int)
    requires Fits(past, life, latest, skew) && now >= latest - skew
    requires Spaced(life + [now], FREE_ATTEMPTS)
    ensures Fits(past, life + [now], Max(latest, now), skew)
  {
    hide Spaced;
    var all, longer, after := past + life, life + [now], past + (life + [now]);
    var n := |all|;
    assert after == all + [now];
    assert forall i :: 0 <= i < |longer| ==> longer[i] == after[|past| + i];
    assert Ordered(after, skew);
    if |longer| > LIMIT {
      assert longer[|longer| - 1] == after[n] && longer[|longer| - 1 - LIMIT] == after[n - LIMIT];
      assert Ordered(longer, skew);
      hide Ordered;
      SeventeenTakeLong(longer, |longer| - 1, skew);
    }
    assert n >= LIMIT ==> after[n] - after[n - LIMIT] >= BUCKET_TTL - 2 * skew;
  }

  // --- every run -------------------------------------------------------------------------------------

  /** A bucket that is there after an entry is the one that was kept, as used by the entry or not, or a new one. */
  lemma AdmittedBucket(s: State, keys: set<string>, now: int, victims: set<string>, k: string)
    ensures var kept, t := Cleared(s, keys, now, victims).buckets, Admit(s, keys, now, victims).buckets;
            if k in kept then k in t && (t[k] == kept[k] || t[k] == Reserved(kept, k, now))
            else k in t ==>
                t[k] == Reserved(kept, k, now) && k in keys && !Refused(Sweep(s, now).buckets, keys, now)
  {
    hide Cleared, Refused, Sweep, Reserved;
  }

  /** The answers counted stay with a bucket that was kept; a new one has none. */
  lemma AdmittedView(w: World, e: Event, k: string)
    requires w.wrong.Keys == w.limiter.buckets.Keys && e.Begin? && Possible(w, e)
    ensures var kept := Cleared(w.limiter, e.keys, e.now, e.victims).buckets;
            var t := Admit(w.limiter, e.keys, e.now, e.victims).buckets;
            (k in kept ==> k in w.wrong && k in t) &&
            ViewOf(Step(w, e), k) ==
            if k in t then View(if k in kept then w.wrong[k] else [], t[k].matched, t[k].lastFailure)
            else View([], false, 0)
  {
    OnlyIdleBucketsGo(w.limiter, e.keys, e.now, e.victims);
    hide Cleared, Admit, Allowed, Refused, Sweep, Blocked, Reserved;
    AdmittedBucket(w.limiter, e.keys, e.now, e.victims, k);
  }

  /** An entry leaves an account's bucket, or uses it, or finds it gone; a protected one goes only when idle. */
  lemma BeginOnAccount(w: World, e: Event, k: string)
    requires Sound(w) && Possible(w, e) && e.Begin?
    ensures var v, next := ViewOf(w, k), ViewOf(Step(w, e), k);
            next == v || next == v.(last := e.now) ||
            (next.life == [] && !next.matched && (v.matched ==> e.now - v.last > BUCKET_TTL))
  {
    var t := w.limiter.buckets;
    assert w.wrong.Keys == t.Keys;
    AdmittedView(w, e, k);
    OnlyIdleBucketsGo(w.limiter, e.keys, e.now, e.victims);
    AdmittedBucket(w.limiter, e.keys, e.now, e.victims, k);
    if k in t && t[k].matched && !Forgettable(t[k], e.now) {
      ProtectedIsNotCleared(w.limiter, e.keys, e.now, e.victims, k);
    }
    hide Step, Possible, Sound, Cleared, Admit, Allowed, Refused, Sweep, Blocked;
  }

  /** What a finish adds to it. */
  lemma FinishOnAccount(w: World, e: Event, k: string)
    requires Sound(w) && Possible(w, e) && e.Finish? && IsAccount(k)
    ensures var v, next := ViewOf(w, k), ViewOf(Step(w, e), k);
            if k !in w.attempts[e.id].keys then next == v
            else
              match e.outcome
              case Cancelled => next == v || (next == View([], false, 0) && v.life == [])
              case Succeeded => next.life == []
              case _ =>
                next == View(v.life + [e.now], v.matched || e.outcome == Failed, e.now) &&
                Spaced(next.life, FREE_ATTEMPTS)
  {
    FinishKeepsBuckets(w, e);
    assert k in w.limiter.buckets ==> BucketSound(k, w.limiter.buckets[k], w.wrong[k]);
    hide Holders, Spaced, Backoff;
  }

  /** One step, with the answers of a protected bucket that went added to those of the past. */
  lemma StepSpreads(w: World, e: Event, k: string, past: seq<int>, guesses: seq<int>, latest: int, skew: nat)
    returns (after: seq<int>)
    requires Sound(w) && Possible(w, e) && IsAccount(k) && e.now >= latest - skew
    requires Spread(ViewOf(w, k), past, guesses, latest, skew)
    ensures Spread(ViewOf(Step(w, e), k), after, Told(w, e, k, guesses), Max(latest, e.now), skew)
  {
    var v, next := ViewOf(w, k), ViewOf(Step(w, e), k);
    after := past;
    TimeGoesOn(v, past, guesses, latest, skew, e.now);
    if e.Begin? {
      BeginOnAccount(w, e, k);
      hide ViewOf, Step, Sound, Possible, Spread;
      if next != v && next != v.(last := e.now) {
        LifeEnds(v, next, past, guesses, latest, skew, e.now);
        after := if v.matched then past + v.life else past;
      }
    } else {
      FinishOnAccount(w, e, k);
      hide ViewOf, Step, Sound, Spread, Spaced;
      if k in w.attempts[e.id].keys {
        match e.outcome
        case Cancelled =>
          if next != v {
            LifeEnds(v, next, past, guesses, latest, skew, e.now);
            assert past + [] == past;
          }
        case Succeeded =>
          Forgiven(next, Max(latest, e.now), skew);
          after := [];
        case Failed => OneMoreCounts(v, past, guesses, latest, skew, e.now, true);
        case FailedUnknown => OneMoreCounts(v, past, guesses, latest, skew, e.now, false);
      }
    }
  }

  lemma {:induction false} GuessesAreSpread(w: World, events: seq<Event>, k: string, past: seq<int>,
                                            guesses: seq<int>, latest: int, skew: nat)
    requires Sound(w) && IsRun(w, events) && IsAccount(k) && Punctual(events, latest, skew)
    requires Spread(ViewOf(w, k), past, guesses, latest, skew)
    ensures AtMost(Guesses(w, events, k, guesses), LIMIT, BUCKET_TTL - 3 * skew)
    decreases |events|
  {
    hide Step, Possible, Sound, Told, AtMost, ViewOf, Spread;
    if events == [] {
      SpreadIsAtMost(ViewOf(w, k), past, guesses, latest, skew);
    } else {
      var e := events[0];
      var after := StepSpreads(w, e, k, past, guesses, latest, skew);
      StepKeeps(w, e);
      GuessesAreSpread(Step(w, e), events[1..], k, after, Told(w, e, k, guesses), Max(latest, e.now), skew);
    }
  }

  /**
   * However attempts overlap and whatever becomes of buckets, no half hour holds more than sixteen
   * wrong answers against one account between two right ones.
   */
  lemma SixteenInHalfAnHour(ceiling: nat, start: int, events: seq<Event>, k: string, skew: nat)
    requires IsRun(Start(ceiling, start), events) && IsAccount(k) && Punctual(events, start, skew)
    ensures AtMost(Guesses(Start(ceiling, start), events, k), LIMIT, BUCKET_TTL - 3 * skew)
  {
    hide IsRun, Punctual, Guesses, AtMost;
    var w := Start(ceiling, start);
    assert Sound(w);
    Forgiven(ViewOf(w, k), start, skew);
    GuessesAreSpread(w, events, k, [], [], start, skew);
  }
}
