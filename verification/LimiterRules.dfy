/** What the credential limiter does at each locked section, and what holds over every run of it. */
module LimiterRules {
  import opened Basics

  // --- times, in nanoseconds since the zero time -----------------------------------------

  const SECOND := 1_000_000_000
  const MINUTE := 60 * SECOND
  const FREE_ATTEMPTS := 5
  const ADDRESS_FREE_ATTEMPTS := 30
  const BUCKET_TTL := 30 * MINUTE
  const MAX_BACKOFF := 15 * MINUTE
  const SWEEP_INTERVAL := 5 * MINUTE
  const FULL_SWEEP_INTERVAL := SECOND

  function Doubled(d: int, times: nat): int {
    if times == 0 then d else 2 * Doubled(d, times - 1)
  }

  /** The delay after the `step`-th failure past the allowance. */
  function Backoff(step: int): (wait: int)
    requires step >= 1
  {
    var wait := Doubled(SECOND, if step - 1 < 16 then step - 1 else 16);
    if wait > MAX_BACKOFF || wait <= 0 then MAX_BACKOFF else wait
  }

  /** The delays of the first `steps` failures past the allowance, added up. */
  function TotalBackoff(steps: nat): int {
    if steps == 0 then 0 else TotalBackoff(steps - 1) + Backoff(steps)
  }

  lemma DoubledGrows(d: int, m: nat, n: nat)
    ensures 0 <= d && m <= n ==> 0 <= Doubled(d, m) <= Doubled(d, n)
  {
  }

  lemma {:induction false} BackoffIsCapped(step: int)
    requires step >= 11
    ensures Backoff(step) == 15 * 60 * SECOND
  {
    assert Doubled(SECOND, 10) == 1024 * SECOND by {
      assert Doubled(SECOND, 4) == 16 * SECOND;
      assert Doubled(SECOND, 7) == 128 * SECOND;
    }
    DoubledGrows(SECOND, 10, if step - 1 < 16 then step - 1 else 16);
  }

  lemma FirstTen()
    ensures TotalBackoff(10) == 1023 * SECOND
  {
    assert TotalBackoff(3) == 7 * SECOND;
    assert TotalBackoff(5) == 31 * SECOND by { assert Backoff(4) == 8 * SECOND; }
    assert Doubled(SECOND, 5) == 32 * SECOND;
    assert TotalBackoff(7) == 127 * SECOND;
    assert Doubled(SECOND, 7) == 128 * SECOND;
    assert TotalBackoff(9) == 511 * SECOND;
    assert Doubled(SECOND, 9) == 512 * SECOND;
  }

  /** After ten slowed failures every further one costs a quarter of an hour. */
  lemma {:induction false} TotalIsLinear(steps: nat)
    requires steps >= 10
    ensures TotalBackoff(steps) == 1023 * SECOND + (steps - 10) * (15 * 60 * SECOND)
    decreases steps
  {
    hide Doubled, Backoff;
    if steps == 10 {
      FirstTen();
    } else {
      TotalIsLinear(steps - 1);
      BackoffIsCapped(steps);
    }
  }

  // --- buckets -----------------------------------------------------------------------------

  datatype Bucket = Bucket(failures: nat, inFlight: nat, blockedUntil: int, lastFailure: int, matched: bool)

  const NEW_BUCKET := Bucket(0, 0, 0, 0, false)

  type Table = map<string, Bucket>

  datatype Outcome = Cancelled | Failed | FailedUnknown | Succeeded

  datatype State = State(
    buckets: Table, lastSwept: int, ceiling: nat, lastFullSweep: int, fullSweepMadeRoom: bool)

  const ACCOUNT := "id:"
  const ADDRESS := "ip:"

  predicate IsAccount(key: string) {
    ACCOUNT <= key
  }

  function Allowance(key: string): int {
    if IsAccount(key) then FREE_ATTEMPTS else ADDRESS_FREE_ATTEMPTS
  }

  /** The keys of an attempt, from a normalised address and a normalised name; "" is absent. */
  function Keys(address: string, name: string): seq<string> {
    (if address == "" then [] else [ADDRESS + address]) + (if name == "" then [] else [ACCOUNT + name])
  }

  function KeySet(keys: seq<string>): set<string> {
    set k | k in keys
  }

  /** An attempt touches one address bucket and one account bucket at most, never one twice. */
  lemma KeysAreApart(address: string, name: string)
    ensures var keys := Keys(address, name);
            (forall i, j :: 0 <= i < j < |keys| ==> keys[i] != keys[j]) &&
            (forall k, m :: k in keys && m in keys && IsAccount(k) == IsAccount(m) ==> k == m) &&
            (address != "" ==> "ip:" + address in keys) && (name != "" ==> "id:" + name in keys) &&
            |keys| == (if address == "" then 0 else 1) + if name == "" then 0 else 1
  {
    assert (ADDRESS + address)[1] == 'p';
    assert (ACCOUNT + name)[1] == 'd';
    assert !IsAccount(ADDRESS + address) by { assert ACCOUNT[1] == 'd'; }
  }

  // --- sweeping ----------------------------------------------------------------------------

  predicate Forgettable(b: Bucket, now: int) {
    b.inFlight == 0 && now - b.lastFailure > BUCKET_TTL && now > b.blockedUntil
  }

  function DropIdle(t: Table, now: int): Table {
    map k | k in t && !Forgettable(t[k], now) :: t[k]
  }

  function Sweep(s: State, now: int): State {
    if now - s.lastSwept < SWEEP_INTERVAL then s
    else s.(lastSwept := now, buckets := DropIdle(s.buckets, now))
  }

  // --- the gate ----------------------------------------------------------------------------

  predicate Blocked(b: Bucket, now: int) {
    b.blockedUntil > now
  }

  predicate Crowded(key: string, b: Bucket) {
    b.inFlight > 0 && b.failures + b.inFlight > Allowance(key)
  }

  predicate Refused(t: Table, keys: set<string>, now: int) {
    exists k :: k in keys && k in t && (Blocked(t[k], now) || Crowded(k, t[k]))
  }

  /** How long the first key that refuses makes the caller wait, or 0 when none does. */
  function FirstWait(t: Table, keys: seq<string>, now: int): (wait: int)
    ensures wait >= 0
    ensures wait > 0 <==> Refused(t, KeySet(keys), now)
  {
    if keys == [] then 0
    else
      var k := keys[0];
      assert KeySet(keys) == {k} + KeySet(keys[1..]);
      if k in t && Blocked(t[k], now) then t[k].blockedUntil - now
      else if k in t && Crowded(k, t[k]) then SECOND
      else FirstWait(t, keys[1..], now)
  }

  // --- making room -------------------------------------------------------------------------

  function Matched(t: Table): set<string> {
    set k | k in t && t[k].matched
  }

  function Reclaimable(t: Table): set<string> {
    set k | k in t && !t[k].matched
  }

  /** The number of reclaimable buckets there would be above the ceiling with this attempt admitted. */
  function Excess(t: Table, keys: set<string>, ceiling: nat): int {
    |Reclaimable(t)| + |keys - t.Keys| - ceiling
  }

  predicate MustWalk(s: State, keys: set<string>, now: int) {
    Excess(s.buckets, keys, s.ceiling) > 0 &&
    (s.fullSweepMadeRoom || now - s.lastFullSweep >= FULL_SWEEP_INTERVAL)
  }

  /** Neither protected, in flight, serving a block, nor wanted by the attempt itself. */
  predicate MayGo(t: Table, keys: set<string>, now: int, k: string) {
    k in t && !t[k].matched && t[k].inFlight == 0 && !Blocked(t[k], now) && k !in keys
  }

  function Candidates(t: Table, keys: set<string>, now: int): set<string> {
    set k | k in t && MayGo(t, keys, now, k)
  }

  /** Names go before addresses, and within each the one used least recently goes first. */
  predicate Before(t: Table, a: string, b: string)
    requires a in t && b in t
  {
    if IsAccount(a) != IsAccount(b) then IsAccount(a) else t[a].lastFailure < t[b].lastFailure
  }

  /** `victims` are `want` of the candidates, or all of them, and no other candidate goes before any. */
  predicate FirstOf(t: Table, candidates: set<string>, want: int, victims: set<string>)
    requires forall k :: k in candidates ==> k in t
  {
    victims <= candidates && |victims| == Min(want, |candidates|) &&
    forall v, c :: v in victims && c in candidates - victims ==> !Before(t, c, v)
  }

  /**
   * Buckets of the same kind and age may go in either order, so the ones that did go are an
   * argument here.
   */
  predicate Chosen(s: State, keys: set<string>, now: int, victims: set<string>) {
    var t := DropIdle(s.buckets, now);
    var excess := Excess(t, keys, s.ceiling);
    if MustWalk(s, keys, now) && excess > 0
    then FirstOf(t, Candidates(t, keys, now), Max(excess, s.ceiling / 10), victims)
    else victims == {}
  }

  function MakeRoom(s: State, keys: set<string>, now: int, victims: set<string>): State {
    if !MustWalk(s, keys, now) then s
    else
      var t := DropIdle(s.buckets, now);
      s.(buckets := t - victims, lastFullSweep := now,
         fullSweepMadeRoom := |victims| >= Excess(t, keys, s.ceiling))
  }

  // --- begin and finish ----------------------------------------------------------------------

  function Reserved(t: Table, k: string, now: int): Bucket {
    var b := if k in t then t[k] else NEW_BUCKET;
    b.(inFlight := b.inFlight + 1, lastFailure := now)
  }

  function Reserve(t: Table, keys: set<string>, now: int): Table {
    t + map k | k in keys :: Reserved(t, k, now)
  }

  /** The buckets evicted for an attempt are ones the rules pick, if it gets past the gate at all. */
  predicate Allowed(s: State, keys: set<string>, now: int, victims: set<string>) {
    !Refused(Sweep(s, now).buckets, keys, now) ==> Chosen(Sweep(s, now), keys, now, victims)
  }

  /** The limiter right before the reservations of a `Begin`, swept and with room made. */
  function Cleared(s: State, keys: set<string>, now: int, victims: set<string>): State {
    var swept := Sweep(s, now);
    if Refused(swept.buckets, keys, now) then swept else MakeRoom(swept, keys, now, victims)
  }

  /** Everything one `Begin` does to the limiter. */
  function Admit(s: State, keys: set<string>, now: int, victims: set<string>): State {
    var cleared := Cleared(s, keys, now, victims);
    if Refused(Sweep(s, now).buckets, keys, now) then cleared
    else cleared.(buckets := Reserve(cleared.buckets, keys, now))
  }

  function Released(b: Bucket): Bucket {
    if b.inFlight > 0 then b.(inFlight := b.inFlight - 1) else b
  }

  function Punished(k: string, b: Bucket, now: int): Bucket {
    var n := b.failures + 1;
    b.(failures := n, lastFailure := now,
       blockedUntil := if n > Allowance(k) then now + Backoff(n - Allowance(k)) else b.blockedUntil)
  }

  function Protected(k: string, b: Bucket): Bucket {
    if IsAccount(k) then b.(matched := true) else b
  }

  /** What becomes of one bucket of a finished attempt. */
  function Outcomes(k: string, b: Bucket, outcome: Outcome, now: int): Bucket {
    var r := Released(b);
    match outcome
    case Cancelled => r
    case Failed => Protected(k, Punished(k, r, now))
    case FailedUnknown => Punished(k, r, now)
    case Succeeded => if IsAccount(k) then r.(matched := true, failures := 0, blockedUntil := 0) else r
  }

  predicate Spent(b: Bucket) {
    b.inFlight == 0 && b.failures == 0
  }

  function Settle(t: Table, keys: set<string>, outcome: Outcome, now: int): Table {
    map k | k in t && (k in keys ==> !Spent(Outcomes(k, t[k], outcome, now))) ::
      if k in keys then Outcomes(k, t[k], outcome, now) else t[k]
  }

  // --- runs ----------------------------------------------------------------------------------

  /** An admitted attempt that has not finished: its keys and the clock it read on entry. */
  datatype Attempt = Attempt(keys: set<string>, begun: int)

  /**
   * The limiter, the attempts still running, and for each bucket the times of the wrong answers
   * it has counted since it was created or last forgiven.
   */
  datatype World = World(limiter: State, attempts: map<nat, Attempt>, wrong: Logs)

  datatype Event =
    | Begin(id: nat, keys: set<string>, now: int, victims: set<string>)
    | Finish(id: nat, outcome: Outcome, now: int)

  /**
   * Clocks are read before the lock is taken, so one event may carry an earlier time than the event
   * before it. All that is asked is that an attempt does not finish before it began.
   */
  predicate Possible(w: World, e: Event) {
    match e
    case Begin(id, keys, now, victims) =>
      id !in w.attempts && Allowed(w.limiter, keys, now, victims)
    case Finish(id, outcome, now) =>
      id in w.attempts && w.attempts[id].begun <= now
  }

  function Logged(k: string, log: seq<int>, outcome: Outcome, now: int): seq<int> {
    match outcome
    case Cancelled => log
    case Failed => log + [now]
    case FailedUnknown => log + [now]
    case Succeeded => if IsAccount(k) then [] else log
  }

  type Logs = map<string, seq<int>>

  function Kept(wrong: Logs, t: Table): Logs {
    map k | k in wrong && k in t :: wrong[k]
  }

  function Opened(wrong: Logs, keys: set<string>): Logs {
    (map k | k in keys :: []) + wrong
  }

  function Recorded(wrong: Logs, t: Table, keys: set<string>, outcome: Outcome, now: int): Logs {
    map k | k in wrong && k in t :: if k in keys then Logged(k, wrong[k], outcome, now) else wrong[k]
  }

  function Step(w: World, e: Event): World
    requires Possible(w, e)
  {
    match e
    case Begin(id, keys, now, victims) =>
      var after := Admit(w.limiter, keys, now, victims);
      var wrong := Kept(w.wrong, Cleared(w.limiter, keys, now, victims).buckets);
      if Refused(Sweep(w.limiter, now).buckets, keys, now) then World(after, w.attempts, wrong)
      else World(after, w.attempts[id := Attempt(keys, now)], Opened(wrong, keys))
    case Finish(id, outcome, now) =>
      var keys := w.attempts[id].keys;
      var t := Settle(w.limiter.buckets, keys, outcome, now);
      World(w.limiter.(buckets := t), w.attempts - {id}, Recorded(w.wrong, t, keys, outcome, now))
  }

  predicate IsRun(w: World, events: seq<Event>)
    decreases |events|
  {
    events == [] || (Possible(w, events[0]) && IsRun(Step(w, events[0]), events[1..]))
  }

  function Run(w: World, events: seq<Event>): World
    requires IsRun(w, events)
    decreases |events|
  {
    if events == [] then w else Run(Step(w, events[0]), events[1..])
  }

  function Start(ceiling: nat, now: int): World {
    World(State(map[], now, ceiling, 0, false), map[], map[])
  }

  // --- the invariant ---------------------------------------------------------------------------

  function Holders(attempts: map<nat, Attempt>, k: string): set<nat> {
    set id | id in attempts && k in attempts[id].keys
  }

  /** Past the allowance each wrong answer came at least the backoff after the one before it. */
  predicate Spaced(log: seq<int>, free: int) {
    forall i {:trigger log[i]} :: 0 < i < |log| && free < i ==> log[i] >= log[i - 1] + Backoff(i - free)
  }

  predicate BucketSound(k: string, b: Bucket, log: seq<int>) {
    var free := Allowance(k);
    |log| == b.failures && !Spent(b) &&
    (b.inFlight <= 1 || b.failures + b.inFlight <= free + 1) &&
    (b.matched ==> IsAccount(k)) &&
    Spaced(log, free) &&
    b.blockedUntil == (if b.failures <= free then 0 else log[b.failures - 1] + Backoff(b.failures - free))
  }

  /** Each bucket is consistent and counts exactly the attempts running on it. */
  predicate BucketsSound(t: Table, attempts: map<nat, Attempt>, wrong: Logs) {
    wrong.Keys == t.Keys &&
    forall k :: k in t ==> BucketSound(k, t[k], wrong[k]) && t[k].inFlight == |Holders(attempts, k)|
  }

  /** A running attempt has all its buckets, and entered those past the allowance after their block. */
  predicate AttemptsSound(t: Table, attempts: map<nat, Attempt>) {
    forall id, k :: id in attempts && k in attempts[id].keys ==>
      k in t && (t[k].failures > Allowance(k) ==> t[k].blockedUntil <= attempts[id].begun)
  }

  predicate Sound(w: World) {
    BucketsSound(w.limiter.buckets, w.attempts, w.wrong) && AttemptsSound(w.limiter.buckets, w.attempts)
  }

  // --- each step keeps the invariant -------------------------------------------------------------

  predicate Restricts(t: Table, whole: Table) {
    forall k :: k in t ==> k in whole && t[k] == whole[k]
  }

  lemma VictimsMayGo(s: State, keys: set<string>, now: int, victims: set<string>)
    ensures Chosen(s, keys, now, victims) ==> forall k :: k in victims ==> MayGo(DropIdle(s.buckets, now), keys, now, k)
  {
    hide Excess, MayGo, DropIdle;
  }

  /** Making way for an attempt only takes whole buckets with no attempt and no running block. */
  lemma OnlyIdleBucketsGo(s: State, keys: set<string>, now: int, victims: set<string>)
    requires Allowed(s, keys, now, victims)
    ensures var kept := Cleared(s, keys, now, victims).buckets;
            Restricts(kept, s.buckets) &&
            forall k :: k in s.buckets && k !in kept ==>
              s.buckets[k].inFlight == 0 && !Blocked(s.buckets[k], now)
  {
    hide Excess, FirstOf, Chosen, Refused;
    var swept := Sweep(s, now);
    var t := DropIdle(swept.buckets, now);
    if !Refused(swept.buckets, keys, now) { VictimsMayGo(swept, keys, now, victims); }
  }

  lemma HoldersGain(attempts: map<nat, Attempt>, id: nat, a: Attempt, k: string)
    ensures id !in attempts ==>
              |Holders(attempts[id := a], k)| == |Holders(attempts, k)| + (if k in a.keys then 1 else 0)
  {
    if id !in attempts {
      var more := Holders(attempts[id := a], k);
      if k in a.keys {
        assert more == Holders(attempts, k) + {id};
      } else {
        assert more == Holders(attempts, k);
      }
    }
  }

  lemma HoldersLose(attempts: map<nat, Attempt>, id: nat, k: string)
    ensures id in attempts ==>
              |Holders(attempts, k)| == |Holders(attempts - {id}, k)| + (if k in attempts[id].keys then 1 else 0)
  {
    if id in attempts {
      var fewer := Holders(attempts - {id}, k);
      if k in attempts[id].keys {
        assert Holders(attempts, k) == fewer + {id};
      } else {
        assert Holders(attempts, k) == fewer;
      }
    }
  }

  lemma HeldIsCounted(attempts: map<nat, Attempt>, id: nat, k: string)
    ensures |Holders(attempts, k)| == 0 && id in attempts ==> k !in attempts[id].keys
  {
    assert id in attempts && k in attempts[id].keys ==> id in Holders(attempts, k);
  }

  lemma MissingIsNotHeld(t: Table, attempts: map<nat, Attempt>, k: string)
    ensures AttemptsSound(t, attempts) && k !in t ==> |Holders(attempts, k)| == 0
  {
    if AttemptsSound(t, attempts) && k !in t {
      assert Holders(attempts, k) == {};
    }
  }

  /** Dropping buckets nobody holds keeps the invariant. */
  lemma DroppingKeeps(t: Table, kept: Table, attempts: map<nat, Attempt>, wrong: Logs)
    requires BucketsSound(t, attempts, wrong) && AttemptsSound(t, attempts) && Restricts(kept, t)
    requires forall k :: k in t && k !in kept ==> t[k].inFlight == 0
    ensures BucketsSound(kept, attempts, Kept(wrong, kept)) && AttemptsSound(kept, attempts)
  {
    hide BucketSound, Holders;
    forall id, k | id in attempts && k in attempts[id].keys ensures k in kept {
      if k !in kept { HeldIsCounted(attempts, id, k); }
    }
  }

  /** The gate keeps the cap: one attempt past the allowance at a time, and only after its block. */
  lemma ReservedIsSound(k: string, t: Table, log: seq<int>, now: int)
    ensures (k in t ==> BucketSound(k, t[k], log) && !Blocked(t[k], now) && !Crowded(k, t[k])) &&
            (k !in t ==> log == []) ==>
              BucketSound(k, Reserved(t, k, now), log)
  {
    hide Backoff;
  }

  predicate Admits(t: Table, keys: set<string>, now: int) {
    forall k :: k in keys && k in t ==> !Blocked(t[k], now) && !Crowded(k, t[k])
  }

  lemma ReservingKeeps(t: Table, attempts: map<nat, Attempt>, wrong: Logs, id: nat, keys: set<string>, now: int)
    requires BucketsSound(t, attempts, wrong) && AttemptsSound(t, attempts)
    requires id !in attempts && Admits(t, keys, now)
    ensures var running := attempts[id := Attempt(keys, now)];
            BucketsSound(Reserve(t, keys, now), running, Opened(wrong, keys)) &&
            AttemptsSound(Reserve(t, keys, now), running)
  {
    hide BucketSound, Holders, Blocked, Crowded, Reserved;
    var after, running, logs := Reserve(t, keys, now), attempts[id := Attempt(keys, now)], Opened(wrong, keys);
    forall k | k in after
      ensures BucketSound(k, after[k], logs[k]) && after[k].inFlight == |Holders(running, k)|
    {
      HoldersGain(attempts, id, Attempt(keys, now), k);
      if k !in t { MissingIsNotHeld(t, attempts, k); }
      if k in keys { ReservedIsSound(k, t, logs[k], now); ReservedCounts(t, k, now); }
    }
    forall i, k | i in running && k in running[i].keys
      ensures k in after
      ensures after[k].failures > Allowance(k) ==> after[k].blockedUntil <= running[i].begun
    {
      if k in keys { ReservedCounts(t, k, now); }
    }
  }

  lemma ReservedCounts(t: Table, k: string, now: int)
    ensures var r, b := Reserved(t, k, now), (if k in t then t[k] else NEW_BUCKET);
            r.inFlight == b.inFlight + 1 && r.failures == b.failures && r.blockedUntil == b.blockedUntil
    ensures k in t ==> (Blocked(t[k], now) <==> t[k].blockedUntil > now)
  {
  }

  lemma ClearedAdmits(s: State, keys: set<string>, now: int, victims: set<string>)
    ensures !Refused(Sweep(s, now).buckets, keys, now) ==> Admits(Cleared(s, keys, now, victims).buckets, keys, now)
  {
    hide MustWalk, Excess;
  }

  lemma BeginKeeps(w: World, e: Event)
    requires Sound(w) && e.Begin? && Possible(w, e)
    ensures Sound(Step(w, e))
  {
    hide Allowed, Chosen, Cleared, BucketsSound, AttemptsSound, Reserve, Refused, Opened, Kept, Admits, Sweep;
    var Begin(id, keys, now, victims) := e;
    var kept := Cleared(w.limiter, keys, now, victims).buckets;
    OnlyIdleBucketsGo(w.limiter, keys, now, victims);
    DroppingKeeps(w.limiter.buckets, kept, w.attempts, w.wrong);
    if !Refused(Sweep(w.limiter, now).buckets, keys, now) {
      ClearedAdmits(w.limiter, keys, now, victims);
      ReservingKeeps(kept, w.attempts, Kept(w.wrong, kept), id, keys, now);
    }
  }

  lemma OneMoreIsSpaced(log: seq<int>, free: nat, now: int)
    ensures Spaced(log, free) && (|log| > free ==> now >= log[|log| - 1] + Backoff(|log| - free)) ==>
              Spaced([], free) && Spaced(log + [now], free)
  {
    hide Backoff;
  }

  /** One bucket of a finished attempt, given that the attempt entered it after any block on it. */
  lemma OutcomeIsSound(k: string, b: Bucket, log: seq<int>, outcome: Outcome, now: int)
    requires BucketSound(k, b, log) && b.inFlight > 0
    requires b.failures > Allowance(k) ==> b.blockedUntil <= now
    ensures var after := Outcomes(k, b, outcome, now);
            after.inFlight == b.inFlight - 1 &&
            (!Spent(after) ==> BucketSound(k, after, Logged(k, log, outcome, now))) &&
            (after.failures > Allowance(k) ==> after.inFlight == 0 || after == Released(b))
  {
    hide Backoff, Spaced, IsAccount;
    OneMoreIsSpaced(log, Allowance(k), now);
    assert |log + [now]| == |log| + 1 && (log + [now])[|log|] == now;
  }

  lemma FinishKeepsBuckets(w: World, e: Event)
    requires Sound(w) && e.Finish? && Possible(w, e)
    ensures var next := Step(w, e); BucketsSound(next.limiter.buckets, next.attempts, next.wrong)
  {
    hide BucketSound, Holders, Outcomes, Spent, Released, Logged;
    var Finish(id, outcome, now) := e;
    var t, next, keys := w.limiter.buckets, Step(w, e), w.attempts[id].keys;
    var after := next.limiter.buckets;
    forall k | k in after
      ensures BucketSound(k, after[k], next.wrong[k]) && after[k].inFlight == |Holders(next.attempts, k)|
    {
      HoldersLose(w.attempts, id, k);
      if k in keys { HolderCounts(w.attempts, id, k); OutcomeIsSound(k, t[k], w.wrong[k], outcome, now); }
    }
  }

  lemma HolderCounts(attempts: map<nat, Attempt>, id: nat, k: string)
    ensures id in attempts && k in attempts[id].keys ==> |Holders(attempts, k)| > 0
  {
    if id in attempts && k in attempts[id].keys {
      assert id in Holders(attempts, k);
    }
  }

  /** Nothing another running attempt needs is dropped, and no block is put in front of it. */
  lemma FinishKeepsAttempts(w: World, e: Event)
    requires Sound(w) && e.Finish? && Possible(w, e)
    ensures var next := Step(w, e); AttemptsSound(next.limiter.buckets, next.attempts)
  {
    hide BucketSound, Holders, Outcomes, Logged;
    var Finish(id, outcome, now) := e;
    var t, next, keys := w.limiter.buckets, Step(w, e), w.attempts[id].keys;
    var after := next.limiter.buckets;
    forall i, k | i in next.attempts && k in next.attempts[i].keys
      ensures k in after
      ensures after[k].failures > Allowance(k) ==> after[k].blockedUntil <= next.attempts[i].begun
    {
      HolderCounts(next.attempts, i, k);
      HoldersLose(w.attempts, id, k);
      if k in keys {
        OutcomeIsSound(k, t[k], w.wrong[k], outcome, now);
      }
    }
  }

  lemma {:induction false} RunKeeps(w: World, events: seq<Event>)
    requires Sound(w) && IsRun(w, events)
    ensures Sound(Run(w, events))
    decreases |events|
  {
    hide Sound, Step, Possible;
    if events == [] {
    } else {
      var e := events[0];
      StepKeeps(w, e);
      RunKeeps(Step(w, e), events[1..]);
    }
  }

  lemma StepKeeps(w: World, e: Event)
    requires Sound(w) && Possible(w, e)
    ensures Sound(Step(w, e))
  {
    hide Step, Possible, BucketsSound, AttemptsSound;
    match e
    case Begin(_, _, _, _) => BeginKeeps(w, e);
    case Finish(_, _, _) => FinishKeepsBuckets(w, e); FinishKeepsAttempts(w, e);
  }

  // --- what holds over every run -------------------------------------------------------------------

  lemma BackoffGrows(step: int, later: int)
    requires 1 <= step <= later
    ensures Backoff(step) <= Backoff(later)
  {
    var m, n := if step - 1 < 16 then step - 1 else 16, if later - 1 < 16 then later - 1 else 16;
    assert Doubled(SECOND, 0) == SECOND;
    hide Doubled;
    DoubledGrows(SECOND, 0, m);
    DoubledGrows(SECOND, m, n);
  }

  /** From any wrong answer past the allowance on, the backoffs add up at least as from the first. */
  lemma {:induction false} SpacedAddsUp(log: seq<int>, free: nat, m: nat, n: nat)
    requires Spaced(log, free) && free <= m <= n < |log|
    ensures log[n] >= log[m] + TotalBackoff(n - m)
    decreases n
  {
    hide Backoff;
    if n > m {
      SpacedAddsUp(log, free, m, n - 1);
      BackoffGrows(n - m, n - free);
      assert log[n] >= log[n - 1] + Backoff(n - free);
    }
  }

  /**
   * However many attempts overlap and however events interleave, the n-th wrong answer a bucket
   * counts comes no sooner than the first one past its allowance plus every backoff since.
   */
  lemma GuessingIsSlow(ceiling: nat, start: int, events: seq<Event>, k: string, n: nat)
    requires IsRun(Start(ceiling, start), events)
    ensures var w := Run(Start(ceiling, start), events);
            k in w.limiter.buckets && Allowance(k) < n <= w.limiter.buckets[k].failures ==>
              k in w.wrong && |w.wrong[k]| == w.limiter.buckets[k].failures &&
              w.wrong[k][n - 1] >= w.wrong[k][Allowance(k)] + TotalBackoff(n - 1 - Allowance(k))
  {
    hide Run, IsRun, Spaced;
    RunKeeps(Start(ceiling, start), events);
    var w := Run(Start(ceiling, start), events);
    if k in w.limiter.buckets && Allowance(k) < n <= w.limiter.buckets[k].failures {
      assert BucketSound(k, w.limiter.buckets[k], w.wrong[k]);
      SpacedAddsUp(w.wrong[k], Allowance(k), Allowance(k), n - 1);
    }
  }

  // --- who is made to wait -------------------------------------------------------------------------

  /** An account may be guessed at five times for nothing, an address thirty times. */
  function FreeFor(key: string): nat {
    if "id:" <= key then 5 else 30
  }

  /** The last wrong answer on a key is still being paid for. */
  predicate Owes(w: World, k: string, now: int) {
    k in w.wrong &&
    var n := |w.wrong[k]|;
    n > FreeFor(k) && w.wrong[k][n - 1] + Backoff(n - FreeFor(k)) > now
  }

  /** Attempts are running on a key, and with its wrong answers they are more than it has for nothing. */
  predicate IsTaken(w: World, k: string) {
    k in w.wrong && Holders(w.attempts, k) != {} && |w.wrong[k]| + |Holders(w.attempts, k)| > FreeFor(k)
  }

  predicate MustWait(w: World, k: string, now: int) {
    Owes(w, k, now) || IsTaken(w, k)
  }

  /** The first second doubles with each wrong answer past the allowance until the tenth. */
  lemma BackoffDoubles(step: int)
    requires 1 <= step < 10
    ensures Backoff(1) == SECOND && Backoff(step + 1) == 2 * Backoff(step)
  {
    assert Doubled(SECOND, step) == 2 * Doubled(SECOND, step - 1);
    DoubledGrows(SECOND, step, 9);
    DoubledGrows(SECOND, step - 1, 9);
    DoubledGrows(SECOND, 0, step - 1);
    assert Doubled(SECOND, 4) == 16 * SECOND && Doubled(SECOND, 9) == 512 * SECOND;
  }

  /** A bucket blocks and crowds as its log and the attempts running on it say. */
  lemma BucketByItsLog(k: string, b: Bucket, log: seq<int>, now: int)
    requires BucketSound(k, b, log) && now >= 0
    ensures var free, n := FreeFor(k), |log|;
            (Blocked(b, now) <==> n > free && log[n - 1] + Backoff(n - free) > now) &&
            (n > free ==> b.blockedUntil == log[n - 1] + Backoff(n - free)) &&
            (Crowded(k, b) <==> b.inFlight > 0 && n + b.inFlight > free)
  {
    hide Backoff, Spaced;
    assert FreeFor(k) == Allowance(k);
  }

  lemma SweptIsNotNeeded(s: State, now: int, k: string)
    ensures var t := Sweep(s, now).buckets;
            (k in t ==> k in s.buckets && t[k] == s.buckets[k]) &&
            (k in s.buckets && k !in t ==> !Blocked(s.buckets[k], now) && !Crowded(k, s.buckets[k]))
  {
  }

  /** A table refuses on a key exactly when the logs say that it must wait; sweeping makes no difference. */
  lemma RefusesByItsLogs(w: World, k: string, now: int)
    requires Sound(w) && now >= 0
    ensures var t := Sweep(w.limiter, now).buckets;
            (k in t && Blocked(t[k], now) <==> Owes(w, k, now)) &&
            (k in t && (Blocked(t[k], now) || Crowded(k, t[k])) <==> MustWait(w, k, now)) &&
            (Owes(w, k, now) ==>
               t[k].blockedUntil == w.wrong[k][|w.wrong[k]| - 1] + Backoff(|w.wrong[k]| - FreeFor(k)))
  {
    hide Backoff, BucketSound, Blocked, Crowded, Sweep, Holders, FreeFor;
    SweptIsNotNeeded(w.limiter, now, k);
    if k in w.limiter.buckets {
      BucketByItsLog(k, w.limiter.buckets[k], w.wrong[k], now);
      assert |Holders(w.attempts, k)| == 0 <==> Holders(w.attempts, k) == {};
    }
  }

  /**
   * In every reachable state an attempt is refused exactly when one of its keys must wait, by the wrong
   * answers counted against it and the attempts running on it; otherwise it runs, and holds all its keys.
   */
  lemma RefusedExactlyWhen(ceiling: nat, start: int, events: seq<Event>, e: Event)
    requires IsRun(Start(ceiling, start), events)
    ensures var w := Run(Start(ceiling, start), events);
            e.Begin? && Possible(w, e) && e.now >= 0 ==>
              if exists k :: k in e.keys && MustWait(w, k, e.now) then Step(w, e).attempts == w.attempts
              else
                Step(w, e).attempts == w.attempts[e.id := Attempt(e.keys, e.now)] &&
                forall k :: k in e.keys ==> k in Step(w, e).limiter.buckets
  {
    var w := Run(Start(ceiling, start), events);
    hide Run, IsRun, Owes, IsTaken, BucketSound;
    RunKeeps(Start(ceiling, start), events);
    if e.Begin? && Possible(w, e) && e.now >= 0 {
      forall k ensures var t := Sweep(w.limiter, e.now).buckets;
                       k in t && (Blocked(t[k], e.now) || Crowded(k, t[k])) <==> MustWait(w, k, e.now)
      {
        RefusesByItsLogs(w, k, e.now);
      }
      hide MustWait, Blocked, Crowded, Sound, Sweep, Cleared;
    }
  }

  /** The first of the keys that must wait. */
  predicate FirstToWait(w: World, keys: seq<string>, now: int, i: int) {
    0 <= i < |keys| && MustWait(w, keys[i], now) && forall j :: 0 <= j < i ==> !MustWait(w, keys[j], now)
  }

  /** What a key that must wait is told: until the last moment it still owes, or a second. */
  predicate IsWait(w: World, k: string, now: int, wait: int) {
    if Owes(w, k, now) then Owes(w, k, now + wait - 1) && !Owes(w, k, now + wait) else wait == SECOND
  }

  lemma OneKeyWaits(w: World, keys: seq<string>, now: int)
    requires Sound(w) && now >= 0 && keys != []
    ensures var t := Sweep(w.limiter, now).buckets;
            if MustWait(w, keys[0], now) then IsWait(w, keys[0], now, FirstWait(t, keys, now))
            else FirstWait(t, keys, now) == FirstWait(t, keys[1..], now)
  {
    var k, t := keys[0], Sweep(w.limiter, now).buckets;
    RefusesByItsLogs(w, k, now);
    hide Sound, Sweep, Backoff, Holders;
    assert FirstWait(t, keys, now) ==
      if k in t && Blocked(t[k], now) then t[k].blockedUntil - now
      else if k in t && Crowded(k, t[k]) then SECOND
      else FirstWait(t, keys[1..], now);
    hide FirstWait, Crowded;
  }

  /** The wait that is reported is that of the first key that must. */
  lemma {:induction false} TheWaitIsOwed(w: World, keys: seq<string>, now: int)
    requires Sound(w) && now >= 0
    ensures var wait := FirstWait(Sweep(w.limiter, now).buckets, keys, now);
            ((forall i :: 0 <= i < |keys| ==> !MustWait(w, keys[i], now)) ==> wait == 0) &&
            forall i :: FirstToWait(w, keys, now, i) ==> IsWait(w, keys[i], now, wait)
  {
    hide MustWait, IsWait, Sound, Sweep;
    if keys != [] {
      var rest := keys[1..];
      OneKeyWaits(w, keys, now);
      hide FirstWait;
      TheWaitIsOwed(w, rest, now);
      assert forall j :: 0 <= j < |rest| ==> rest[j] == keys[j + 1];
      forall i | FirstToWait(w, keys, now, i) && i > 0 ensures FirstToWait(w, rest, now, i - 1) {
        assert !MustWait(w, keys[0], now);
      }
    }
  }

  /** A sweep that is due leaves no bucket that nobody has used for half an hour and that blocks nobody. */
  lemma IdleBucketsGo(s: State, now: int, k: string)
    requires now - s.lastSwept >= 5 * MINUTE
    ensures k in Sweep(s, now).buckets ==>
              s.buckets[k].inFlight > 0 || now - s.buckets[k].lastFailure <= 30 * MINUTE ||
              now <= s.buckets[k].blockedUntil
    ensures k in Sweep(s, now).buckets ==> k in s.buckets && Sweep(s, now).buckets[k] == s.buckets[k]
  {
  }

  /** At most one attempt past the allowance runs at a time, and every running attempt keeps its buckets. */
  lemma NoOutcomeIsLost(ceiling: nat, start: int, events: seq<Event>, id: nat, k: string)
    requires IsRun(Start(ceiling, start), events)
    ensures var w := Run(Start(ceiling, start), events);
            id in w.attempts && k in w.attempts[id].keys ==>
              k in w.limiter.buckets && w.limiter.buckets[k].inFlight == |Holders(w.attempts, k)| >= 1 &&
              (w.limiter.buckets[k].inFlight == 1 ||
               w.limiter.buckets[k].failures + w.limiter.buckets[k].inFlight <= Allowance(k) + 1)
  {
    hide Run, IsRun, Holders;
    RunKeeps(Start(ceiling, start), events);
    var w := Run(Start(ceiling, start), events);
    if id in w.attempts && k in w.attempts[id].keys {
      HolderCounts(w.attempts, id, k);
      assert BucketSound(k, w.limiter.buckets[k], w.wrong[k]);
    }
  }

  /** Only account buckets are ever protected, and an empty bucket is never kept. */
  lemma BucketsEarnTheirPlace(ceiling: nat, start: int, events: seq<Event>, k: string)
    requires IsRun(Start(ceiling, start), events)
    ensures var t := Run(Start(ceiling, start), events).limiter.buckets;
            k in t ==>
              (t[k].matched ==> IsAccount(k)) && (t[k].failures > 0 || t[k].inFlight > 0) &&
              (t[k].blockedUntil != 0 ==> t[k].failures > Allowance(k))
  {
    hide Run, IsRun;
    RunKeeps(Start(ceiling, start), events);
    var w := Run(Start(ceiling, start), events);
    if k in w.limiter.buckets { assert BucketSound(k, w.limiter.buckets[k], w.wrong[k]); }
  }

  // --- the ceiling and protection ------------------------------------------------------------------

  /**
   * After a walk the reclaimable buckets fit the ceiling with the attempt's new keys added, or every
   * one that is left is in flight, blocked or the attempt's own.
   */
  lemma AWalkMakesRoomOrTakesAll(s: State, keys: set<string>, now: int, victims: set<string>)
    requires MustWalk(s, keys, now) && Chosen(s, keys, now, victims)
    ensures var after := MakeRoom(s, keys, now, victims);
            (Excess(after.buckets, keys, s.ceiling) <= 0 ||
             (forall k :: k in Reclaimable(after.buckets) ==> !MayGo(after.buckets, keys, now, k))) &&
            (after.fullSweepMadeRoom <==> Excess(after.buckets, keys, s.ceiling) <= 0)
  {
    hide FirstOf, MayGo;
    var t := DropIdle(s.buckets, now);
    var after := t - victims;
    var candidates := Candidates(t, keys, now);
    var excess := Excess(t, keys, s.ceiling);
    if excess > 0 { FirstOfTakes(t, candidates, Max(excess, s.ceiling / 10), victims); }
    TakingVictims(t, keys, now, s.ceiling, victims);
    if excess > 0 && |candidates| < Max(excess, s.ceiling / 10) {
      SubsetIsNoLarger(victims, candidates);
      NoneLeft(t, keys, now);
    }
  }

  /**
   * No walk takes more than it must, or a tenth of the ceiling where that is more; names go before
   * addresses, and of each the ones longest unused.
   */
  lemma AWalkTakesNoMore(s: State, keys: set<string>, now: int, victims: set<string>)
    requires Chosen(s, keys, now, victims)
    ensures var t := DropIdle(s.buckets, now);
            var over := |set k | k in t && !t[k].matched| + |keys - t.Keys| - s.ceiling;
            victims == {} || (
              over > 0 && |victims| <= Max(over, s.ceiling / 10) && victims <= t.Keys &&
              forall v, c :: v in victims && c in t.Keys - victims && MayGo(t, keys, now, c) ==>
                (IsAccount(c) ==> IsAccount(v)) &&
                (IsAccount(c) == IsAccount(v) ==> t[v].lastFailure <= t[c].lastFailure))
  {
    hide MustWalk, DropIdle, MayGo;
    var t := DropIdle(s.buckets, now);
    var want := Max(Excess(t, keys, s.ceiling), s.ceiling / 10);
    assert (set k | k in t && !t[k].matched) == Reclaimable(t);
    assert forall c :: c in t && MayGo(t, keys, now, c) ==> c in Candidates(t, keys, now);
    if victims != {} {
      FirstOfTakes(t, Candidates(t, keys, now), want, victims);
      forall v, c | v in victims && c in t.Keys - victims && MayGo(t, keys, now, c) ensures !Before(t, c, v) {}
    }
  }

  lemma FirstOfTakes(t: Table, candidates: set<string>, want: int, victims: set<string>)
    ensures (forall k :: k in candidates ==> k in t) && FirstOf(t, candidates, want, victims) ==>
              victims <= candidates && |victims| == Min(want, |candidates|)
  {
  }

  lemma TakingVictims(t: Table, keys: set<string>, now: int, ceiling: nat, victims: set<string>)
    requires victims <= Candidates(t, keys, now)
    ensures Excess(t - victims, keys, ceiling) == Excess(t, keys, ceiling) - |victims|
  {
    assert Reclaimable(t) == Reclaimable(t - victims) + victims;
    assert keys - (t - victims).Keys == keys - t.Keys;
  }

  lemma NoneLeft(t: Table, keys: set<string>, now: int)
    ensures forall k :: k in t - Candidates(t, keys, now) ==> !MayGo(t - Candidates(t, keys, now), keys, now, k)
  {
  }

  /**
   * No flood of other names clears an account's count: a protected bucket stays protected with at
   * least its failures unless a sweep found it idle or an attempt on that very name succeeded.
   */
  lemma ProtectionHolds(w: World, e: Event, k: string)
    requires Sound(w) && Possible(w, e)
    requires k in w.limiter.buckets && w.limiter.buckets[k].matched
    ensures var t := Step(w, e).limiter.buckets;
            (k in t && t[k].matched && t[k].failures >= w.limiter.buckets[k].failures) ||
            Forgettable(w.limiter.buckets[k], e.now) ||
            (e.Finish? && k in w.attempts[e.id].keys &&
             (e.outcome == Succeeded || w.limiter.buckets[k].failures == 0))
  {
    match e
    case Begin(id, keys, now, victims) =>
      hide Admit, Allowed, Forgettable, Sound, Refused, Sweep;
      if !Forgettable(w.limiter.buckets[k], now) {
        ProtectedIsNotCleared(w.limiter, keys, now, victims, k);
      }
    case Finish(id, outcome, now) =>
      hide Outcomes, Spent, Forgettable, Sound;
      OutcomeProtects(k, w.limiter.buckets[k], outcome, now);
  }

  /** A bucket becomes protected by an answer for its own account, of somebody known here, and by nothing else. */
  lemma OnlyTheKnownAreProtected(w: World, e: Event, k: string)
    requires Possible(w, e) && k in Step(w, e).limiter.buckets
    ensures var was, t := w.limiter.buckets, Step(w, e).limiter.buckets;
            var known := e.Finish? && (e.outcome == Failed || e.outcome == Succeeded) && "id:" <= k &&
                         k in w.attempts[e.id].keys;
            (t[k].matched ==> known || (k in was && was[k].matched)) && (known ==> t[k].matched)
  {
    hide Backoff, Refused, FirstOf, Excess, Forgettable;
  }

  lemma OutcomeProtects(k: string, b: Bucket, outcome: Outcome, now: int)
    ensures b.matched ==>
              var after := Outcomes(k, b, outcome, now);
              after.matched && (outcome != Succeeded ==> after.failures >= b.failures) &&
              (Spent(after) ==> after.failures == 0) && (!IsAccount(k) ==> after.failures >= b.failures)
  {
    hide Backoff;
  }

  lemma ProtectedIsNotCleared(s: State, keys: set<string>, now: int, victims: set<string>, k: string)
    requires Allowed(s, keys, now, victims)
    requires k in s.buckets && s.buckets[k].matched && !Forgettable(s.buckets[k], now)
    ensures var t := Admit(s, keys, now, victims).buckets;
            k in t && t[k].matched && t[k].failures >= s.buckets[k].failures
  {
    hide Excess, FirstOf, Refused, Chosen;
    var swept := Sweep(s, now);
    if !Refused(swept.buckets, keys, now) { VictimsMayGo(swept, keys, now, victims); }
  }

  /** A success forgives the account it names and nothing else, whatever that attempt's address has done. */
  lemma OnlyTheAccountIsForgiven(w: World, e: Event, k: string)
    requires Sound(w) && e.Finish? && Possible(w, e)
    requires k in w.limiter.buckets && w.limiter.buckets[k].failures > 0
    ensures var t := Step(w, e).limiter.buckets;
            if IsAccount(k) && e.outcome == Succeeded && k in w.attempts[e.id].keys
            then k in t ==> t[k].failures == 0 && t[k].blockedUntil == 0
            else k in t && t[k].failures >= w.limiter.buckets[k].failures &&
                 t[k].blockedUntil >= Min(w.limiter.buckets[k].blockedUntil, e.now)
  {
    hide Outcomes, Spent, Sound;
    OutcomeForgives(k, w.limiter.buckets[k], e.outcome, e.now);
  }

  lemma OutcomeForgives(k: string, b: Bucket, outcome: Outcome, now: int)
    ensures var after := Outcomes(k, b, outcome, now);
            if IsAccount(k) && outcome == Succeeded then after.failures == 0 && after.blockedUntil == 0
            else after.failures >= b.failures && (Spent(after) ==> b.failures == 0) &&
                 after.blockedUntil >= Min(b.blockedUntil, now)
  {
    if b.failures + 1 > Allowance(k) { BackoffIsPositive(b.failures + 1 - Allowance(k)); }
    hide Backoff;
  }

  lemma BackoffIsPositive(step: int)
    requires step >= 1
    ensures SECOND <= Backoff(step) <= MAX_BACKOFF
  {
    DoubledGrows(SECOND, 0, if step - 1 < 16 then step - 1 else 16);
  }
}
