/** The credential limiter as the process holds it. */
module CredentialLimiter {
  import opened Basics
  import opened LimiterRules

  /** A place reserved by `Begin`; its outcome is recorded once. */
  class LoginAttempt {
    const keys: seq<string>
    var finished: bool

    constructor (keys: seq<string>)
      ensures this.keys == keys && !finished
    {
      this.keys, finished := keys, false;
    }
  }

  predicate Distinct(keys: seq<string>) {
    forall i, j :: 0 <= i < j < |keys| ==> keys[i] != keys[j]
  }

  /** The keys gone through by a loop, one key further. */
  lemma OneKeyMore(keys: seq<string>, i: nat)
    ensures Distinct(keys) && i < |keys| ==>
              KeySet(keys[..i + 1]) == KeySet(keys[..i]) + {keys[i]} && keys[i] !in KeySet(keys[..i])
  {
    if Distinct(keys) && i < |keys| {
      assert keys[..i + 1] == keys[..i] + [keys[i]];
    }
  }

  lemma AllKeys(keys: seq<string>)
    ensures keys[..|keys|] == keys && KeySet([]) == {} && KeySet(keys[..0]) == {}
  {
    assert keys[..0] == [];
  }

  lemma OneMoreMissing(keys: set<string>, k: string, held: set<string>)
    requires k !in keys
    ensures |keys + {k} - held| == |keys - held| + (if k in held then 0 else 1)
  {
    assert keys + {k} - held == (keys - held) + (if k in held then {} else {k});
  }

  // --- counting protected buckets -------------------------------------------------------------

  function Protects(b: Bucket): int {
    if b.matched then 1 else 0
  }

  lemma MatchedWithout(t: Table, k: string)
    ensures |Matched(t)| == |Matched(t - {k})| + (if k in t then Protects(t[k]) else 0)
  {
    assert Matched(t) == Matched(t - {k}) + (if k in t && t[k].matched then {k} else {});
  }

  lemma PuttingCounts(t: Table, k: string, b: Bucket)
    ensures |Matched(t[k := b])| == |Matched(t)| - (if k in t then Protects(t[k]) else 0) + Protects(b)
  {
    hide Matched;
    assert t[k := b] - {k} == t - {k};
    MatchedWithout(t, k);
    MatchedWithout(t[k := b], k);
  }

  lemma TheRestIsReclaimable(t: Table)
    ensures |t| == |Matched(t)| + |Reclaimable(t)|
  {
    assert t.Keys == Matched(t) + Reclaimable(t);
  }

  // --- the limiter ------------------------------------------------------------------------------

  class Limiter {
    var buckets: Table
    /** How many buckets are matched, so that the ceiling is checked without walking the table. */
    var protected: int
    var lastSwept: int
    const ceiling: nat
    var lastFullSweep: int
    var fullSweepMadeRoom: bool

    ghost predicate Valid()
      reads `buckets, `protected
    {
      protected == |Matched(buckets)|
    }

    ghost function Value(): State
      reads `buckets, `lastSwept, `lastFullSweep, `fullSweepMadeRoom
    {
      State(buckets, lastSwept, ceiling, lastFullSweep, fullSweepMadeRoom)
    }

    constructor (ceiling: nat, now: int)
      ensures Valid() && Value() == Start(ceiling, now).limiter
    {
      buckets, protected, lastSwept := map[], 0, now;
      this.ceiling, lastFullSweep, fullSweepMadeRoom := ceiling, 0, false;
    }

    method MarkMatched(key: string)
      requires Valid() && key in buckets
      modifies `buckets, `protected
      ensures Valid()
      ensures buckets == old(buckets)[key := Protected(key, old(buckets[key]))]
    {
      var entry := buckets[key];
      if !IsAccount(key) || entry.matched {
        return;
      }
      PuttingCounts(buckets, key, entry.(matched := true));
      buckets := buckets[key := entry.(matched := true)];
      protected := protected + 1;
    }

    method Remove(key: string)
      requires Valid() && key in buckets
      modifies `buckets, `protected
      ensures Valid() && buckets == old(buckets) - {key}
    {
      MatchedWithout(buckets, key);
      if buckets[key].matched {
        protected := protected - 1;
      }
      buckets := buckets - {key};
    }

    /** Replaces a bucket by one that protects the same. */
    method Put(key: string, b: Bucket)
      requires Valid()
      requires key in buckets ==> buckets[key].matched == b.matched
      requires key !in buckets ==> !b.matched
      modifies `buckets
      ensures Valid() && buckets == old(buckets)[key := b]
    {
      PuttingCounts(buckets, key, b);
      buckets := buckets[key := b];
    }

    method DropIdle(now: int)
      requires Valid()
      modifies `buckets, `protected
      ensures Valid() && buckets == LimiterRules.DropIdle(old(buckets), now)
    {
      hide Forgettable, Matched;
      var left := buckets.Keys;
      while left != {}
        invariant Valid() && left <= buckets.Keys <= old(buckets).Keys
        invariant forall k :: k in buckets ==> buckets[k] == old(buckets)[k]
        invariant forall k :: k in left ==> k in buckets
        invariant forall k :: k in old(buckets) && k !in left ==> (k in buckets <==> !Forgettable(old(buckets)[k], now))
        decreases |left|
      {
        var key :| key in left;
        left := left - {key};
        if Forgettable(buckets[key], now) {
          Remove(key);
        }
      }
    }

    method SweepIfDue(now: int)
      requires Valid()
      modifies this
      ensures Valid() && Value() == Sweep(old(Value()), now)
    {
      if now - lastSwept < SWEEP_INTERVAL {
        return;
      }
      lastSwept := now;
      DropIdle(now);
    }

    method FreshKeys(keys: seq<string>) returns (added: int)
      requires Distinct(keys)
      ensures added == |KeySet(keys) - buckets.Keys|
    {
      hide KeySet;
      added := 0;
      AllKeys(keys);
      for i := 0 to |keys|
        invariant added == |KeySet(keys[..i]) - buckets.Keys|
      {
        OneKeyMore(keys, i);
        OneMoreMissing(KeySet(keys[..i]), keys[i], buckets.Keys);
        if keys[i] !in buckets {
          added := added + 1;
        }
      }
    }

    method OverCeiling(keys: seq<string>) returns (excess: int)
      requires Valid() && Distinct(keys)
      ensures excess == Excess(buckets, KeySet(keys), ceiling)
    {
      var added := FreshKeys(keys);
      TheRestIsReclaimable(buckets);
      excess := |buckets| - protected + added - ceiling;
    }

    /** The `want` candidates that go first, or all of them. */
    static method PickFirst(t: Table, all: set<string>, want: int) returns (victims: set<string>)
      requires want >= 0 && forall k :: k in all ==> k in t
      ensures FirstOf(t, all, want, victims)
    {
      hide Before, FirstOf;
      var waiting := all;
      victims := {};
      while |victims| < want && waiting != {}
        invariant waiting !! victims && waiting + victims == all && |victims| <= want
        invariant AllBefore(t, victims, waiting)
        decreases |waiting|
      {
        LeastExists(t, waiting);
        var key :| key in waiting && forall c :: c in waiting ==> !Before(t, c, key);
        OneMoreBefore(t, victims, waiting, key);
        waiting, victims := waiting - {key}, victims + {key};
      }
      TheFirstWent(t, all, want, victims, waiting);
    }

    /** Removes the candidates that go first, and says how many and which. */
    method Evict(keys: seq<string>, now: int, want: int) returns (freed: int, ghost victims: set<string>)
      requires Valid() && want >= 0
      modifies `buckets, `protected
      ensures Valid() && buckets == old(buckets) - victims && freed == |victims|
      ensures FirstOf(old(buckets), Candidates(old(buckets), KeySet(keys), now), want, victims)
    {
      hide Matched, MayGo, FirstOf;
      ghost var was := buckets;
      var candidates := set k | k in buckets && MayGo(buckets, KeySet(keys), now, k);
      var chosen := PickFirst(buckets, candidates, want);
      FirstAreCandidates(buckets, candidates, want, chosen);
      freed, victims := |chosen|, chosen;
      while chosen != {}
        invariant Valid() && chosen <= victims <= was.Keys
        invariant buckets == was - (victims - chosen)
        decreases |chosen|
      {
        var key :| key in chosen;
        chosen := chosen - {key};
        Remove(key);
      }
    }

    /** Room for the attempt's new keys; `gone` are the buckets evicted for it. */
    method MakeRoomFor(keys: seq<string>, now: int) returns (ghost gone: set<string>)
      requires Valid() && Distinct(keys)
      modifies this
      ensures Valid() && Chosen(old(Value()), KeySet(keys), now, gone)
      ensures Value() == MakeRoom(old(Value()), KeySet(keys), now, gone)
    {
      hide Matched, Excess, FirstOf, Candidates, LimiterRules.DropIdle;
      gone := {};
      var over := OverCeiling(keys);
      if over <= 0 {
        return;
      }
      if !fullSweepMadeRoom && now - lastFullSweep < FULL_SWEEP_INTERVAL {
        return;
      }
      lastFullSweep := now;
      DropIdle(now);
      var excess := OverCeiling(keys);
      if excess <= 0 {
        fullSweepMadeRoom := true;
        assert buckets - {} == buckets;
        return;
      }
      var freed;
      freed, gone := Evict(keys, now, Max(excess, ceiling / 10));
      fullSweepMadeRoom := freed >= excess;
    }

    method Gate(keys: seq<string>, now: int) returns (wait: int)
      ensures wait == FirstWait(buckets, keys, now)
    {
      hide Refused;
      assert keys[0..] == keys;
      for i := 0 to |keys|
        invariant FirstWait(buckets, keys, now) == FirstWait(buckets, keys[i..], now)
      {
        var key := keys[i];
        assert keys[i..][1..] == keys[i + 1..];
        if key in buckets {
          var entry := buckets[key];
          if entry.blockedUntil - now > 0 {
            return entry.blockedUntil - now;
          }
          if entry.inFlight > 0 && entry.failures + entry.inFlight > Allowance(key) {
            return SECOND;
          }
        }
      }
      return 0;
    }

    method ReserveAll(keys: seq<string>, now: int)
      requires Valid() && Distinct(keys)
      modifies `buckets
      ensures Valid() && buckets == Reserve(old(buckets), KeySet(keys), now)
    {
      hide Matched, KeySet, Reserved;
      ghost var was := buckets;
      AllKeys(keys);
      assert Reserve(was, {}, now) == was;
      for i := 0 to |keys|
        invariant Valid() && buckets == Reserve(was, KeySet(keys[..i]), now)
      {
        var key := keys[i];
        OneKeyMore(keys, i);
        var entry := if key in buckets then buckets[key] else NEW_BUCKET;
        ReserveOneMore(was, KeySet(keys[..i]), key, now);
        Put(key, entry.(inFlight := entry.inFlight + 1, lastFailure := now));
      }
    }

    /**
     * Lets an attempt in and reserves its place, or says how long to wait. The ghost result names the
     * buckets evicted to make room.
     */
    method Begin(keys: seq<string>, now: int)
      returns (attempt: LoginAttempt?, retryAfter: int, ghost gone: set<string>)
      requires Valid() && Distinct(keys)
      modifies this
      ensures Allowed(old(Value()), KeySet(keys), now, gone)
      ensures Valid() && Value() == Admit(old(Value()), KeySet(keys), now, gone)
      ensures attempt == null <==> Refused(Sweep(old(Value()), now).buckets, KeySet(keys), now)
      ensures attempt != null ==> fresh(attempt) && attempt.keys == keys && !attempt.finished
      ensures retryAfter == FirstWait(Sweep(old(Value()), now).buckets, keys, now)
    {
      hide Matched, Refused, Sweep, Chosen, MakeRoom, Reserve, FirstWait;
      gone, attempt := {}, null;
      SweepIfDue(now);
      retryAfter := Gate(keys, now);
      if retryAfter > 0 {
        return;
      }
      gone := MakeRoomFor(keys, now);
      ReserveAll(keys, now);
      attempt := new LoginAttempt(keys);
    }

    /** The bucket an outcome leaves, but for the protection it may earn. */
    static method Judge(key: string, b: Bucket, outcome: Outcome, now: int) returns (entry: Bucket)
      ensures entry.matched == b.matched
      ensures Outcomes(key, b, outcome, now) ==
              if outcome == Failed || outcome == Succeeded then Protected(key, entry) else entry
    {
      hide Backoff, Allowance;
      entry := Released(b);
      if outcome == Failed || outcome == FailedUnknown {
        entry := Punished(key, entry, now);
      } else if outcome == Succeeded && IsAccount(key) {
        entry := entry.(failures := 0, blockedUntil := 0);
      }
    }

    method FinishKey(key: string, outcome: Outcome, now: int)
      requires Valid()
      modifies `buckets, `protected
      ensures Valid() && buckets == Settle(old(buckets), {key}, outcome, now)
    {
      hide Matched, Outcomes;
      if key !in buckets {
        assert buckets == Settle(buckets, {key}, outcome, now);
        return;
      }
      ghost var was := buckets;
      var entry := Judge(key, buckets[key], outcome, now);
      Put(key, entry);
      if outcome == Failed || outcome == Succeeded {
        MarkMatched(key);
      }
      assert buckets == was[key := Outcomes(key, was[key], outcome, now)];
      if buckets[key].inFlight == 0 && buckets[key].failures == 0 {
        Remove(key);
      }
    }

    /** Records an attempt's outcome on every bucket it touched, the first time only. */
    method Finish(attempt: LoginAttempt?, outcome: Outcome, now: int)
      requires Valid() && (attempt != null ==> Distinct(attempt.keys))
      modifies this, attempt
      ensures Valid() && (attempt != null ==> attempt.finished)
      ensures Value() == if attempt == null || old(attempt.finished) then old(Value())
                         else old(Value()).(buckets := Settle(old(buckets), KeySet(attempt.keys), outcome, now))
    {
      hide Matched, Outcomes, Spent, KeySet;
      if attempt == null || attempt.finished {
        return;
      }
      attempt.finished := true;
      var keys := attempt.keys;
      ghost var was := buckets;
      AllKeys(keys);
      assert Settle(was, {}, outcome, now) == was;
      for i := 0 to |keys|
        invariant Valid() && buckets == Settle(was, KeySet(keys[..i]), outcome, now)
        invariant Value() == old(Value()).(buckets := buckets) && attempt.finished
      {
        OneKeyMore(keys, i);
        FinishKey(keys[i], outcome, now);
        SettleOneMore(was, KeySet(keys[..i]), keys[i], outcome, now);
      }
    }
  }

  lemma ReserveOneMore(t: Table, keys: set<string>, k: string, now: int)
    ensures k !in keys ==>
              var part := Reserve(t, keys, now);
              Reserved(part, k, now) == Reserved(t, k, now) &&
              Reserve(t, keys + {k}, now) == part[k := Reserved(part, k, now)] &&
              Reserved(part, k, now) ==
                (var b := if k in part then part[k] else NEW_BUCKET;
                 b.(inFlight := b.inFlight + 1, lastFailure := now))
  {
  }

  lemma SettleOneMore(t: Table, keys: set<string>, k: string, outcome: Outcome, now: int)
    ensures k !in keys ==>
              Settle(Settle(t, keys, outcome, now), {k}, outcome, now) == Settle(t, keys + {k}, outcome, now)
  {
    hide Outcomes, Spent;
  }

  /** Nobody still waiting goes before anybody who went. */
  predicate AllBefore(t: Table, gone: set<string>, waiting: set<string>) {
    forall v, c :: v in gone && c in waiting ==> v in t && c in t && !Before(t, c, v)
  }

  lemma OneMoreBefore(t: Table, gone: set<string>, waiting: set<string>, k: string)
    ensures AllBefore(t, gone, waiting) && k in waiting && k in t &&
            (forall c :: c in waiting ==> c in t && !Before(t, c, k)) ==>
              AllBefore(t, gone + {k}, waiting - {k})
  {
  }

  lemma FirstAreCandidates(t: Table, candidates: set<string>, want: int, victims: set<string>)
    ensures (forall k :: k in candidates ==> k in t) && FirstOf(t, candidates, want, victims) ==> victims <= candidates
  {
  }

  lemma TheFirstWent(t: Table, all: set<string>, want: int, gone: set<string>, waiting: set<string>)
    requires forall k :: k in all ==> k in t
    requires gone !! waiting && gone + waiting == all && AllBefore(t, gone, waiting)
    requires |gone| <= want && (|gone| == want || waiting == {})
    ensures FirstOf(t, all, want, gone)
  {
    hide Before;
    assert |all| == |gone| + |waiting|;
    assert all - gone == waiting;
  }

  /** Among any candidates there is one that no other goes before. */
  lemma {:induction false} LeastExists(t: Table, keys: set<string>)
    requires keys != {} && forall k :: k in keys ==> k in t
    ensures exists k :: k in keys && forall c :: c in keys ==> !Before(t, c, k)
    decreases |keys|
  {
    var k :| k in keys;
    var rest := keys - {k};
    if rest != {} {
      LeastExists(t, rest);
      var m :| m in rest && forall c :: c in rest ==> !Before(t, c, m);
      var least := if Before(t, k, m) then k else m;
      forall c | c in keys ensures !Before(t, c, least) {
        hide IsAccount;
        assert c == k || c in rest;
      }
    } else {
      assert keys == {k};
    }
  }
}
