/** What the ranking cache is for: a ranking once built is served, and nobody waits for one in vain. */
module RankingReuse {
  import opened Text
  import opened RankingCache

  /** The key a step writes to the cache, if it writes one. */
  function WrittenKey(w: World, e: Event): Option<string>
    requires Possible(w, e)
  {
    match e
    case PutSummary(key, _, _, _) => Some(key)
    case EndBuild(c, failed, _, _) =>
      if !failed && w.calls[c].generation == w.generation then Some(w.calls[c].key) else None
    case _ => None
  }

  function WrittenAt(e: Event): int {
    match e
    case PutSummary(_, _, now, _) => now
    case EndBuild(_, _, now, _) => now
    case _ => 0
  }

  /** The rankings held under other keys when a step writes one, after any sweep. */
  function OthersHeld(t: Entries<Answer>, key: string, now: int): set<string> {
    set j | j in t && PREFIX <= j && j != key && (|t| <= 50 || now - t[j].createdAt < 15_000_000_000)
  }

  /** Nothing is reset, and whatever is written goes elsewhere and finds room, an older ranking or no need to sweep. */
  ghost predicate Spares(w: World, e: Event, k: string)
    requires Possible(w, e)
  {
    !e.Forget? && k in w.cache &&
    (WrittenKey(w, e).Some? ==>
       var key, now := WrittenKey(w, e).value, WrittenAt(e);
       var others := OthersHeld(w.cache, key, now);
       key != k && (|w.cache| <= 50 || now - w.cache[k].createdAt < 15_000_000_000) &&
       (|others| < 4 || exists j :: j in others && w.cache[j].createdAt < w.cache[k].createdAt))
  }

  ghost predicate AllSpare(w: World, events: seq<Event>, k: string)
    requires IsRun(w, events)
    decreases |events|
  {
    events == [] || (Spares(w, events[0], k) && AllSpare(Step(w, events[0]), events[1..], k))
  }

  lemma WritingSpares(t: Entries<Answer>, key: string, answer: Answer, now: int, gone: set<string>, k: string)
    requires MayGo(t, key, now, gone) && k in t && key != k
    requires |t| <= 50 || now - t[k].createdAt < 15_000_000_000
    requires var others := OthersHeld(t, key, now);
             |others| < 4 || exists j :: j in others && t[j].createdAt < t[k].createdAt
    ensures k in Put(t, key, answer, now, gone) && Put(t, key, answer, now, gone)[k] == t[k]
  {
    hide PREFIX;
    assert Under(Swept(t, now), PREFIX) - {key} == OthersHeld(t, key, now);
  }

  /** A step that spares a ranking leaves it as it is. */
  lemma SparedStays(w: World, e: Event, k: string)
    requires Possible(w, e) && Spares(w, e, k)
    ensures k in Step(w, e).cache && Step(w, e).cache[k] == w.cache[k] && Step(w, e).generation == w.generation
  {
    hide PREFIX, OthersHeld, MayGo, Put, Hit, RankingKey;
    match e
    case PutSummary(key, figures, now, gone) => WritingSpares(w.cache, key, Summary(figures), now, gone, k);
    case EndBuild(c, failed, now, gone) =>
      if WrittenKey(w, e).Some? {
        var call := w.calls[c];
        WritingSpares(w.cache, call.key, Ranked(Ranking(call.key, call.phase.begun)), now, gone, k);
      }
    case _ =>
  }

  lemma {:induction false} SparedStay(w: World, events: seq<Event>, k: string)
    requires IsRun(w, events) && k in w.cache && AllSpare(w, events, k)
    ensures k in Run(w, events).cache && Run(w, events).cache[k] == w.cache[k]
    decreases |events|
  {
    hide Step, Possible, Spares;
    if events == [] {
    } else {
      SparedStays(w, events[0], k);
      SparedStay(Step(w, events[0]), events[1..], k);
    }
  }

  /** A build that no write overtook leaves its ranking held under its question. */
  lemma ABuildIsHeld(w: World, e: Event)
    requires Sound(w) && Possible(w, e) && e.EndBuild? && !e.failed && w.calls[e.c].generation == w.generation
    ensures var k := w.calls[e.c].key;
            k in Step(w, e).cache && Step(w, e).cache[k] == Entry(e.now, Ranked(Ranking(k, w.generation)))
  {
    hide PREFIX, CacheSound, RequestSound, FlightsSound, MayGo, Swept;
    assert CallSound(w.calls[e.c], w.generation);
  }

  /**
   * In every schedule: for fifteen seconds after a build that no write overtook, whoever asks the same
   * question is given that ranking and nothing is built, as long as every step in between spares it.
   */
  lemma ARankingIsServed(events: seq<Event>, built: Event, more: seq<Event>, r: nat, now: int)
    requires IsRun(NOTHING, events)
    requires var w := Run(NOTHING, events);
             Possible(w, built) && built.EndBuild? && !built.failed && w.calls[built.c].generation == w.generation &&
             IsRun(Step(w, built), more) && AllSpare(Step(w, built), more, w.calls[built.c].key)
    requires var w := Run(NOTHING, events); var asked := Run(Step(w, built), more);
             r in asked.requests && asked.requests[r].Started? && asked.requests[r].key == w.calls[built.c].key &&
             now - built.now < 15_000_000_000
    ensures var w := Run(NOTHING, events);
            var k, asked := w.calls[built.c].key, Run(Step(w, built), more);
            Step(asked, LookUp(r, now)).requests[r] ==
              Answered(k, asked.requests[r].since, Some(Ranking(k, w.generation))) &&
            Step(asked, LookUp(r, now)).calls == asked.calls
  {
    hide IsRun, Run, AllSpare, Sound, MayGo, Put, PREFIX;
    var w := Run(NOTHING, events);
    Reachable(events);
    ABuildIsHeld(w, built);
    SparedStay(Step(w, built), more, w.calls[built.c].key);
  }

  /** Whose turn it is: a step of this request's own, or of the build it waits for. */
  predicate Serves(w: World, r: nat, e: Event)
    requires r in w.requests
  {
    match w.requests[r]
    case Started(_, _) => e.LookUp? && e.r == r
    case Missed(_, _) => e.ReadGeneration? && e.r == r
    case Holding(_, _, _) => e.Join? && e.r == r
    case Waiting(_, _, _, c) =>
      (e.Collect? && e.r == r) || ((e.LookAgain? || e.BeginBuild? || e.EndBuild? || e.Return?) && e.c == c)
    case Answered(_, _, _) => false
  }

  /** A call number that has not been used. */
  lemma Unused(calls: map<nat, RankingCache.Call>) returns (c: nat)
    ensures c !in calls
  {
    c := 0;
    var left := calls.Keys;
    while c in calls
      invariant left <= calls.Keys && forall d: nat :: d in calls && d >= c ==> d in left
      decreases |left|
    {
      left := left - {c};
      c := c + 1;
    }
  }

  /** How many steps a request is from its answer at most. */
  function Distance(w: World, r: nat): nat
    requires r in w.requests
  {
    match w.requests[r]
    case Started(_, _) => 8
    case Missed(_, _) => 7
    case Holding(_, _, _) => 6
    case Waiting(_, _, _, c) => if c in w.calls then Unfinished(w.calls[c].phase) else 0
    case Answered(_, _, _) => 0
  }

  function Unfinished(phase: Phase): nat {
    match phase
    case Opened => 5
    case Absent => 4
    case Building(_) => 3
    case Stored(_) => 2
    case Returned(_) => 1
  }

  /** No step sets a request back, and each that serves it brings it closer to its answer. */
  lemma NoStepSetsBack(w: World, e: Event, r: nat)
    requires Sound(w) && Possible(w, e) && r in w.requests
    ensures r in Step(w, e).requests && Distance(Step(w, e), r) <= Distance(w, r)
    ensures Serves(w, r, e) ==> Distance(Step(w, e), r) < Distance(w, r)
  {
    hide PREFIX, CacheSound, CallSound, FlightsSound, MayGo, Put, Hit, RankingKey;
    assert RequestSound(w.requests[r], w.calls, w.generation);
  }

  /** In every schedule each request that has no answer yet has a possible step that serves it. */
  lemma NobodyWaitsInVain(events: seq<Event>, r: nat) returns (e: Event)
    requires IsRun(NOTHING, events)
    requires var w := Run(NOTHING, events); r in w.requests && !w.requests[r].Answered?
    ensures var w := Run(NOTHING, events); Possible(w, e) && Serves(w, r, e)
  {
    hide IsRun, Run, PREFIX, CacheSound, CallSound, FlightsSound, MayGo;
    var w := Run(NOTHING, events);
    Reachable(events);
    assert RequestSound(w.requests[r], w.calls, w.generation);
    match w.requests[r] {
      case Started(_, _) => e := LookUp(r, 0);
      case Missed(_, _) => e := ReadGeneration(r);
      case Holding(_, _, _) =>
        var c := Unused(w.calls);
        e := Join(r, c);
      case Waiting(_, _, _, c) =>
        e := match w.calls[c].phase
             case Opened => LookAgain(c, 0)
             case Absent => BeginBuild(c)
             case Building(_) => EndBuild(c, true, 0, {})
             case Stored(_) => Return(c)
             case Returned(_) => Collect(r);
    }
  }
}
