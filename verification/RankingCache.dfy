/** The short-lived cache of allowance rankings: its entries, and every schedule of its users. */
module RankingCache {
  import opened Basics
  import opened Text

  const TTL := 15_000_000_000
  const SWEEP_LIMIT := 50
  const RANKINGS_CACHED := 4
  const PREFIX := "allowances:"

  function RankingKey(groupId: string, search: string): string {
    PREFIX + groupId + ":" + search
  }

  lemma TheFirstColon(group: string, search: string)
    requires ':' !in group
    ensures Index(group + ":" + search, ":") == |group|
  {
    var s := group + ":" + search;
    assert s[|group|..|group| + 1] == ":";
    forall j | 0 <= j < |group| ensures !At(s, ":", j) {
      assert s[j..j + 1][0] == group[j];
    }
    FirstIsIndex(s, ":", |group|);
  }

  /** Two questions share a key only when they are the same question; a group id has no colon. */
  lemma KeysTellApart(groupA: string, searchA: string, groupB: string, searchB: string)
    requires ':' !in groupA && ':' !in groupB
    requires RankingKey(groupA, searchA) == RankingKey(groupB, searchB)
    ensures groupA == groupB && searchA == searchB
  {
    hide PREFIX, Index;
    var a, b := groupA + ":" + searchA, groupB + ":" + searchB;
    assert PREFIX + a == RankingKey(groupA, searchA) && PREFIX + b == RankingKey(groupB, searchB);
    assert a == (PREFIX + a)[|PREFIX|..] && b == (PREFIX + b)[|PREFIX|..];
    TheFirstColon(groupA, searchA);
    TheFirstColon(groupB, searchB);
    assert a[..|groupA|] == groupA && b[..|groupB|] == groupB;
    assert a[|groupA| + 1..] == searchA && b[|groupB| + 1..] == searchB;
  }

  // --- the entries ---------------------------------------------------------------------------

  datatype Entry<V> = Entry(createdAt: int, value: V)

  type Entries<V> = map<string, Entry<V>>

  predicate Expired(createdAt: int, now: int) {
    now - createdAt >= TTL
  }

  function Swept<V>(t: Entries<V>, now: int): Entries<V> {
    if |t| <= SWEEP_LIMIT then t else map k | k in t && !Expired(t[k].createdAt, now) :: t[k]
  }

  function Without<V>(t: Entries<V>, prefix: string): Entries<V> {
    map k | k in t && !(prefix <= k) :: t[k]
  }

  function Under<V>(t: Entries<V>, prefix: string): set<string> {
    set k | k in t && prefix <= k
  }

  /** What making room under a prefix drops; entries of one age may go in either order. */
  predicate Dropped<V>(t: Entries<V>, prefix: string, keep: string, limit: nat, gone: set<string>) {
    var others := Under(t, prefix) - {keep};
    if |others| < limit || others == {} then gone == {}
    else exists k :: gone == {k} && k in others &&
           forall j :: j in others ==> t[k].createdAt <= t[j].createdAt
  }

  function Put<V>(t: Entries<V>, key: string, value: V, now: int, gone: set<string>): Entries<V> {
    (Swept(t, now) - gone)[key := Entry(now, value)]
  }

  predicate MayGo<V>(t: Entries<V>, key: string, now: int, gone: set<string>) {
    Dropped(Swept(t, now), PREFIX, key, RANKINGS_CACHED, gone)
  }

  /** Whatever is written, no more than four rankings are ever held. */
  lemma NeverMoreRankings<V>(t: Entries<V>, key: string, value: V, now: int, gone: set<string>)
    requires |Under(t, PREFIX)| <= RANKINGS_CACHED && MayGo(t, key, now, gone)
    ensures |Under(Put(t, key, value, now, gone), PREFIX)| <= RANKINGS_CACHED
  {
    hide PREFIX, Swept;
    SweepingOnlyDrops(t, now);
    var swept := Swept(t, now);
    var others := Under(swept, PREFIX) - {key};
    var after := Under(Put(t, key, value, now, gone), PREFIX);
    SubsetIsNoLarger(Under(swept, PREFIX), Under(t, PREFIX));
    SubsetIsNoLarger(others, Under(swept, PREFIX));
    SubsetIsNoLarger(after, (others - gone) + {key});
    assert |(others - gone) + {key}| <= |others - gone| + 1;
    assert |others| >= RANKINGS_CACHED ==> |others - gone| == |others| - 1;
  }

  lemma SweepingOnlyDrops<V>(t: Entries<V>, now: int)
    ensures forall k :: k in Swept(t, now) ==> k in t && Swept(t, now)[k] == t[k]
  {
  }

  /**
   * A plain summary is not a ranking, but writing one leaves the rankings alone only while fewer
   * than four are held.
   */
  lemma ASummaryCostsARanking<V>(t: Entries<V>, key: string, value: V, now: int, gone: set<string>)
    requires !(PREFIX <= key) && MayGo(t, key, now, gone)
    ensures var held, after := Under(Swept(t, now), PREFIX), Under(Put(t, key, value, now, gone), PREFIX);
            (after == held <==> |held| < RANKINGS_CACHED) &&
            |after| == |held| - if |held| < RANKINGS_CACHED then 0 else 1
  {
    hide PREFIX, Swept;
    var held := Under(Swept(t, now), PREFIX);
    assert held - {key} == held;
    assert Under(Put(t, key, value, now, gone), PREFIX) == held - gone;
  }

  // --- the requests and the shared builds --------------------------------------------------------

  /** A ranking, the question it answers, and the generation its build began in. */
  datatype Ranking = Ranking(key: string, begun: nat)

  datatype Answer = Summary(figures: string) | Ranked(ranking: Ranking)

  /** A request remembers the generation it started in. */
  datatype Request =
    | Started(key: string, since: nat)
    | Missed(key: string, since: nat)
    | Holding(key: string, since: nat, generation: nat)
    | Waiting(key: string, since: nat, generation: nat, call: nat)
    | Answered(key: string, since: nat, answer: Option<Ranking>)

  datatype Phase =
    | Opened
    | Absent
    | Building(begun: nat)
    | Stored(answer: Option<Ranking>)
    | Returned(answer: Option<Ranking>)

  /** One shared run of the build function. */
  datatype Call = Call(generation: nat, key: string, phase: Phase)

  datatype World = World(
    cache: Entries<Answer>, generation: nat,
    requests: map<nat, Request>, calls: map<nat, Call>, flights: map<(nat, string), nat>)

  function Hit(t: Entries<Answer>, key: string, now: int): Option<Ranking> {
    if key in t && !Expired(t[key].createdAt, now) && t[key].value.Ranked? then Some(t[key].value.ranking) else None
  }

  /** One locked section or one handover; `r` names a request, `c` a call. */
  datatype Event =
    | Start(r: nat, groupId: string, search: string)
    | LookUp(r: nat, now: int)
    | ReadGeneration(r: nat)
    | Join(r: nat, c: nat)
    | LookAgain(c: nat, now: int)
    | BeginBuild(c: nat)
    | EndBuild(c: nat, failed: bool, now: int, gone: set<string>)
    | Return(c: nat)
    | Collect(r: nat)
    | Forget
    | PutSummary(key: string, figures: string, now: int, gone: set<string>)

  predicate Possible(w: World, e: Event) {
    match e
    case Start(r, groupId, search) => r !in w.requests
    case LookUp(r, now) => r in w.requests && w.requests[r].Started?
    case ReadGeneration(r) => r in w.requests && w.requests[r].Missed?
    case Join(r, c) => r in w.requests && w.requests[r].Holding? && c !in w.calls
    case LookAgain(c, now) => c in w.calls && w.calls[c].phase.Opened?
    case BeginBuild(c) => c in w.calls && w.calls[c].phase.Absent?
    case EndBuild(c, failed, now, gone) =>
      c in w.calls && w.calls[c].phase.Building? &&
      (!failed && w.generation == w.calls[c].generation ==> MayGo(w.cache, w.calls[c].key, now, gone))
    case Return(c) => c in w.calls && w.calls[c].phase.Stored?
    case Collect(r) =>
      r in w.requests && w.requests[r].Waiting? && w.requests[r].call in w.calls &&
      w.calls[w.requests[r].call].phase.Returned?
    case Forget => true
    case PutSummary(key, figures, now, gone) => !(PREFIX <= key) && MayGo(w.cache, key, now, gone)
  }

  function CacheIfCurrent(
    t: Entries<Answer>, current: nat, key: string, ranking: Ranking, generation: nat, now: int, gone: set<string>)
    : Entries<Answer>
  {
    if current != generation then t else Put(t, key, Ranked(ranking), now, gone)
  }

  function Step(w: World, e: Event): World
    requires Possible(w, e)
  {
    match e
    case Start(r, groupId, search) =>
      w.(requests := w.requests[r := Started(RankingKey(groupId, search), w.generation)])
    case LookUp(r, now) =>
      var q := w.requests[r];
      var hit := Hit(w.cache, q.key, now);
      w.(requests := w.requests[r := if hit.Some? then Answered(q.key, q.since, hit) else Missed(q.key, q.since)])
    case ReadGeneration(r) =>
      var q := w.requests[r];
      w.(requests := w.requests[r := Holding(q.key, q.since, w.generation)])
    case Join(r, c) =>
      var q := w.requests[r];
      var flight := (q.generation, q.key);
      if flight in w.flights then
        w.(requests := w.requests[r := Waiting(q.key, q.since, q.generation, w.flights[flight])])
      else
        w.(requests := w.requests[r := Waiting(q.key, q.since, q.generation, c)],
           calls := w.calls[c := Call(q.generation, q.key, Opened)],
           flights := w.flights[flight := c])
    case LookAgain(c, now) =>
      var hit := Hit(w.cache, w.calls[c].key, now);
      WithPhase(w, c, if hit.Some? then Stored(hit) else Absent)
    case BeginBuild(c) => WithPhase(w, c, Building(w.generation))
    case EndBuild(c, failed, now, gone) =>
      var call := w.calls[c];
      var ranking := Ranking(call.key, call.phase.begun);
      if failed then WithPhase(w, c, Stored(None))
      else WithPhase(w, c, Stored(Some(ranking))).(
        cache := CacheIfCurrent(w.cache, w.generation, call.key, ranking, call.generation, now, gone))
    case Return(c) =>
      var call := w.calls[c];
      WithPhase(w, c, Returned(call.phase.answer)).(flights := w.flights - {(call.generation, call.key)})
    case Collect(r) =>
      var q := w.requests[r];
      w.(requests := w.requests[r := Answered(q.key, q.since, w.calls[q.call].phase.answer)])
    case Forget => w.(cache := Without(w.cache, PREFIX), generation := w.generation + 1)
    case PutSummary(key, figures, now, gone) => w.(cache := Put(w.cache, key, Summary(figures), now, gone))
  }

  function WithPhase(w: World, c: nat, phase: Phase): World
    requires c in w.calls
  {
    w.(calls := w.calls[c := w.calls[c].(phase := phase)])
  }

  const NOTHING := World(map[], 0, map[], map[], map[])

  predicate IsRun(w: World, events: seq<Event>)
    decreases |events|
  {
    events == [] || (Possible(w, events[0]) && IsRun(Step(w, events[0]), events[1..]))
  }

  function Run(w: World, events: seq<Event>): World
    requires IsRun(w, events)
    decreases |events|
  {
    if events == [] then w else Run(Step(w, events[0]), events[1..])
  }

  // --- the invariant ------------------------------------------------------------------------------

  /** Every ranking held was built entirely within the current generation, for the key it is under. */
  predicate CacheSound(t: Entries<Answer>, generation: nat) {
    |Under(t, PREFIX)| <= RANKINGS_CACHED &&
    forall k :: k in t ==>
      (t[k].value.Ranked? <==> PREFIX <= k) &&
      (t[k].value.Ranked? ==> t[k].value.ranking == Ranking(k, generation))
  }

  predicate Answers(answer: Option<Ranking>, key: string, since: nat) {
    answer.Some? ==> answer.value.key == key && answer.value.begun >= since
  }

  predicate CallSound(call: Call, generation: nat) {
    call.generation <= generation && PREFIX <= call.key &&
    match call.phase
    case Building(begun) => call.generation <= begun <= generation
    case Stored(answer) => Answers(answer, call.key, call.generation)
    case Returned(answer) => Answers(answer, call.key, call.generation)
    case _ => true
  }

  predicate RequestSound(q: Request, calls: map<nat, Call>, generation: nat) {
    q.since <= generation && PREFIX <= q.key &&
    match q
    case Holding(_, since, g) => since <= g <= generation
    case Waiting(key, since, g, c) =>
      since <= g <= generation && c in calls && calls[c].generation == g && calls[c].key == key
    case Answered(key, since, answer) => Answers(answer, key, since)
    case _ => true
  }

  /** The running calls are exactly those in flight, one for each generation and key. */
  predicate FlightsSound(calls: map<nat, Call>, flights: map<(nat, string), nat>) {
    (forall f :: f in flights ==>
       flights[f] in calls && !calls[flights[f]].phase.Returned? &&
       (calls[flights[f]].generation, calls[flights[f]].key) == f) &&
    (forall c :: c in calls && !calls[c].phase.Returned? ==>
       (calls[c].generation, calls[c].key) in flights && flights[(calls[c].generation, calls[c].key)] == c)
  }

  predicate Sound(w: World) {
    CacheSound(w.cache, w.generation) &&
    (forall c :: c in w.calls ==> CallSound(w.calls[c], w.generation)) &&
    (forall r :: r in w.requests ==> RequestSound(w.requests[r], w.calls, w.generation)) &&
    FlightsSound(w.calls, w.flights)
  }

  lemma PuttingKeeps(t: Entries<Answer>, generation: nat, key: string, answer: Answer, now: int, gone: set<string>)
    requires CacheSound(t, generation) && MayGo(t, key, now, gone)
    requires if PREFIX <= key then answer == Ranked(Ranking(key, generation)) else answer.Summary?
    ensures CacheSound(Put(t, key, answer, now, gone), generation)
  {
    hide PREFIX, MayGo, Swept;
    NeverMoreRankings(t, key, answer, now, gone);
    SweepingOnlyDrops(t, now);
  }

  lemma Forgetting(t: Entries<Answer>, generation: nat)
    ensures CacheSound(t, generation) ==> CacheSound(Without(t, PREFIX), generation + 1)
  {
    hide PREFIX;
    assert Under(Without(t, PREFIX), PREFIX) == {};
  }

  /** A hit is an answer to the question asked, from the current generation, less than 15 seconds old. */
  lemma HitsAreCurrent(t: Entries<Answer>, generation: nat, key: string, now: int)
    requires CacheSound(t, generation)
    ensures Hit(t, key, now).Some? ==>
              Hit(t, key, now).value == Ranking(key, generation) && now - t[key].createdAt < TTL
  {
    hide PREFIX;
  }

  lemma StepKeepsCache(w: World, e: Event)
    requires Sound(w) && Possible(w, e)
    ensures CacheSound(Step(w, e).cache, Step(w, e).generation)
  {
    hide PREFIX, CacheSound, FlightsSound, MayGo, Put, Hit, RankingKey;
    match e
    case Forget => Forgetting(w.cache, w.generation);
    case PutSummary(key, figures, now, gone) =>
      PuttingKeeps(w.cache, w.generation, key, Summary(figures), now, gone);
    case EndBuild(c, failed, now, gone) =>
      if !failed && w.generation == w.calls[c].generation {
        var key := w.calls[c].key;
        PuttingKeeps(w.cache, w.generation, key, Ranked(Ranking(key, w.generation)), now, gone);
      }
    case _ =>
  }

  lemma StepKeepsCalls(w: World, e: Event)
    ensures Sound(w) && Possible(w, e) ==>
              forall c :: c in Step(w, e).calls ==> CallSound(Step(w, e).calls[c], Step(w, e).generation)
  {
    hide PREFIX, CacheSound, FlightsSound, MayGo, Put, Hit, RankingKey;
    if Sound(w) && Possible(w, e) {
      if e.LookAgain? { HitsAreCurrent(w.cache, w.generation, w.calls[e.c].key, e.now); }
    }
  }

  lemma QuestionsStay(w: World, e: Event)
    ensures Possible(w, e) ==> Step(w, e).generation >= w.generation
    ensures Possible(w, e) ==>
              forall c :: c in w.calls ==>
                c in Step(w, e).calls && Step(w, e).calls[c].generation == w.calls[c].generation &&
                Step(w, e).calls[c].key == w.calls[c].key
  {
    hide MayGo, Put, Hit, RankingKey, PREFIX;
  }

  lemma StepKeepsRequests(w: World, e: Event)
    ensures Sound(w) && Possible(w, e) ==>
              var next := Step(w, e);
              forall r :: r in next.requests ==> RequestSound(next.requests[r], next.calls, next.generation)
  {
    hide PREFIX, CacheSound, MayGo, Put, Hit;
    if Sound(w) && Possible(w, e) {
      QuestionsStay(w, e);
      if e.LookUp? {
        HitsAreCurrent(w.cache, w.generation, w.requests[e.r].key, e.now);
      } else if !e.Join? {
        hide FlightsSound;
      }
    }
  }

  lemma PhasingKeepsFlights(calls: map<nat, Call>, flights: map<(nat, string), nat>, c: nat, phase: Phase)
    ensures FlightsSound(calls, flights) && c in calls && !calls[c].phase.Returned? ==>
              var next := calls[c := calls[c].(phase := phase)];
              FlightsSound(next, if phase.Returned? then flights - {(calls[c].generation, calls[c].key)} else flights)
  {
  }

  lemma JoiningKeepsFlights(calls: map<nat, Call>, flights: map<(nat, string), nat>,
                            c: nat, generation: nat, key: string)
    ensures FlightsSound(calls, flights) && c !in calls && (generation, key) !in flights ==>
              FlightsSound(calls[c := Call(generation, key, Opened)], flights[(generation, key) := c])
  {
  }

  lemma StepKeepsFlights(w: World, e: Event)
    requires Sound(w) && Possible(w, e)
    ensures FlightsSound(Step(w, e).calls, Step(w, e).flights)
  {
    hide PREFIX, CacheSound, CallSound, RequestSound, FlightsSound, MayGo, Put, Hit, RankingKey;
    if e.Join? {
      var q := w.requests[e.r];
      if (q.generation, q.key) !in w.flights {
        JoiningKeepsFlights(w.calls, w.flights, e.c, q.generation, q.key);
      }
    } else if e.LookAgain? || e.BeginBuild? || e.EndBuild? || e.Return? {
      PhasingKeepsFlights(w.calls, w.flights, e.c, Step(w, e).calls[e.c].phase);
    }
  }

  lemma {:induction false} RunKeeps(w: World, events: seq<Event>)
    requires Sound(w) && IsRun(w, events)
    ensures Sound(Run(w, events))
    decreases |events|
  {
    hide Step, Possible, CacheSound, CallSound, RequestSound, FlightsSound;
    if events == [] {
    } else {
      var e := events[0];
      StepKeepsCache(w, e);
      StepKeepsCalls(w, e);
      StepKeepsRequests(w, e);
      StepKeepsFlights(w, e);
      RunKeeps(Step(w, e), events[1..]);
    }
  }

  lemma Reachable(events: seq<Event>)
    requires IsRun(NOTHING, events)
    ensures Sound(Run(NOTHING, events))
  {
    hide IsRun, Run, PREFIX;
    assert Under(NOTHING.cache, PREFIX) == {};
    RunKeeps(NOTHING, events);
  }

  // --- what holds in every schedule -----------------------------------------------------------------

  /** A request never gets a ranking whose build began before a write that was over when it started. */
  lemma RankingsAreFresh(events: seq<Event>, r: nat)
    requires IsRun(NOTHING, events)
    requires var w := Run(NOTHING, events);
             r in w.requests && w.requests[r].Answered? && w.requests[r].answer.Some?
    ensures var q := Run(NOTHING, events).requests[r];
            q.answer.value.begun >= q.since && q.answer.value.key == q.key
  {
    hide IsRun, Run, CacheSound, CallSound, FlightsSound;
    Reachable(events);
    assert RequestSound(Run(NOTHING, events).requests[r], Run(NOTHING, events).calls, Run(NOTHING, events).generation);
  }

  /** The cache never holds more than four rankings, nor one a write has made stale. */
  lemma CacheIsSmallAndCurrent(events: seq<Event>, k: string)
    requires IsRun(NOTHING, events)
    ensures var w := Run(NOTHING, events);
            |Under(w.cache, PREFIX)| <= RANKINGS_CACHED &&
            (k in w.cache && PREFIX <= k ==> w.cache[k].value == Ranked(Ranking(k, w.generation)))
  {
    hide IsRun, Run, CallSound, RequestSound, FlightsSound, PREFIX;
    Reachable(events);
  }

  /** No two unfinished builds answer the same question in the same generation. */
  lemma OneBuildAtATime(events: seq<Event>, c: nat, d: nat)
    requires IsRun(NOTHING, events)
    requires var w := Run(NOTHING, events);
             c in w.calls && d in w.calls && !w.calls[c].phase.Returned? && !w.calls[d].phase.Returned? &&
             w.calls[c].generation == w.calls[d].generation && w.calls[c].key == w.calls[d].key
    ensures c == d
  {
    hide IsRun, Run, CacheSound, CallSound, RequestSound;
    Reachable(events);
  }

  // --- a run in which a summary costs a fresh ranking -------------------------------------------------

  /** Questions about everybody, for ever longer search texts. */
  function Question(n: nat): string {
    RankingKey("", seq(n, i => 'a'))
  }

  function Built(n: nat): Entry<Answer> {
    Entry(0, Ranked(Ranking(Question(n), 0)))
  }

  /** The first `n` of those rankings, all cached at time 0. */
  function Filled(n: nat): Entries<Answer> {
    if n == 0 then map[] else Filled(n - 1)[Question(n - 1) := Built(n - 1)]
  }

  lemma QuestionIs(n: nat)
    ensures PREFIX <= Question(n) && |Question(n)| == |PREFIX| + 1 + n
  {
  }

  lemma OneMoreEntry(t: Entries<Answer>, k: string, e: Entry<Answer>)
    ensures k !in t ==> |t[k := e]| == |t| + 1
  {
    assert t[k := e].Keys == t.Keys + {k};
  }

  lemma AllUnder(t: Entries<Answer>)
    ensures (forall k :: k in t ==> PREFIX <= k) ==> Under(t, PREFIX) == t.Keys
  {
  }

  lemma {:induction false} FilledHolds(n: nat)
    ensures forall m: nat :: m < n ==> Question(m) in Filled(n)
    ensures forall k :: k in Filled(n) ==>
              PREFIX <= k && |k| < |PREFIX| + 1 + n && Filled(n)[k].createdAt == 0 && Filled(n)[k].value.Ranked?
    ensures |Filled(n)| == n && Under(Filled(n), PREFIX) == Filled(n).Keys
  {
    hide PREFIX, Question, Under;
    if n > 0 {
      FilledHolds(n - 1);
      QuestionIs(n - 1);
      var k := Question(n - 1);
      assert k !in Filled(n - 1);
      OneMoreEntry(Filled(n - 1), k, Built(n - 1));
    }
    AllUnder(Filled(n));
  }

  lemma Prepend(w: World, e: Event, next: World, rest: seq<Event>)
    ensures Possible(w, e) && Step(w, e) == next && IsRun(next, rest) ==>
              IsRun(w, [e] + rest) && Run(w, [e] + rest) == Run(next, rest)
  {
    assert ([e] + rest)[1..] == rest;
  }

  lemma NoMore(w: World)
    ensures IsRun(w, []) && Run(w, []) == w
  {
  }

  lemma {:induction false} JoinRuns(w: World, one: seq<Event>, more: seq<Event>)
    requires IsRun(w, one) && IsRun(Run(w, one), more)
    ensures IsRun(w, one + more) && Run(w, one + more) == Run(Run(w, one), more)
    decreases |one|
  {
    hide Step, Possible;
    if one == [] {
      assert one + more == more;
    } else {
      assert (one + more)[1..] == one[1..] + more;
      JoinRuns(Step(w, one[0]), one[1..], more);
    }
  }

  /** The cache holds the first `n`, their requests and builds are past, and no build is running. */
  predicate FilledUp(w: World, n: nat) {
    w.cache == Filled(n) && w.generation == 0 && w.flights == map[] &&
    (forall r :: r in w.requests ==> r < n) && (forall c :: c in w.calls ==> c < n)
  }

  lemma MayAdd(n: nat)
    requires n < RANKINGS_CACHED
    ensures MayGo(Filled(n), Question(n), 0, {}) && Question(n) !in Filled(n)
    ensures Put(Filled(n), Question(n), Ranked(Ranking(Question(n), 0)), 0, {}) == Filled(n + 1)
  {
    FilledHolds(n);
    QuestionIs(n);
    hide PREFIX, Question;
    assert Swept(Filled(n), 0) == Filled(n) && Filled(n) - {} == Filled(n);
    SubsetIsNoLarger(Under(Filled(n), PREFIX) - {Question(n)}, Filled(n).Keys);
  }

  function WithRequest(w: World, n: nat, q: Request): World {
    w.(requests := w.requests[n := q])
  }

  /** Request `n` has joined build `n`, which stands at `phase`. */
  function Asked(w: World, n: nat, phase: Phase): World {
    var key := Question(n);
    WithRequest(w, n, Waiting(key, 0, 0, n)).(
      calls := w.calls[n := Call(0, key, phase)], flights := map[(0, key) := n])
  }

  lemma RequestMoves(w: World, n: nat, q: Request, next: Request)
    ensures var a := WithRequest(w, n, q);
            n in a.requests && a.requests[n] == q && a.cache == w.cache && a.generation == w.generation &&
            a.flights == w.flights && a.calls == w.calls &&
            a.(requests := a.requests[n := next]) == WithRequest(w, n, next)
  {
    assert w.requests[n := q][n := next] == w.requests[n := next];
  }

  lemma PhaseMoves(w: World, n: nat, phase: Phase, next: Phase)
    ensures var a := Asked(w, n, phase);
            n in a.calls && a.calls[n] == Call(0, Question(n), phase) && a.cache == w.cache &&
            a.generation == w.generation && WithPhase(a, n, next) == Asked(w, n, next)
  {
    hide Question;
    var call := Call(0, Question(n), phase);
    assert w.calls[n := call][n := call.(phase := next)] == w.calls[n := call.(phase := next)];
  }

  /** A request misses. */
  lemma AskForOne(w: World, n: nat, rest: seq<Event>) returns (events: seq<Event>)
    requires FilledUp(w, n) && n < RANKINGS_CACHED
    requires IsRun(WithRequest(w, n, Missed(Question(n), 0)), rest)
    ensures IsRun(w, events) && Run(w, events) == Run(WithRequest(w, n, Missed(Question(n), 0)), rest)
  {
    MayAdd(n);
    var started, missed := Started(Question(n), 0), Missed(Question(n), 0);
    RequestMoves(w, n, started, missed);
    assert Hit(w.cache, Question(n), 0).None?;
    var start := Start(n, "", seq(n, i => 'a'));
    assert Possible(w, start) && Step(w, start) == WithRequest(w, n, started);
    hide Filled, IsRun, Run, Question, MayGo, Put, Hit, WithRequest, RankingKey;
    Prepend(WithRequest(w, n, started), LookUp(n, 0), WithRequest(w, n, missed), rest);
    Prepend(w, start, WithRequest(w, n, started), [LookUp(n, 0)] + rest);
    events := [start] + ([LookUp(n, 0)] + rest);
  }

  /** It joins a build of its own. */
  lemma JoinOne(w: World, n: nat, rest: seq<Event>) returns (events: seq<Event>)
    requires FilledUp(w, n) && IsRun(Asked(w, n, Opened), rest)
    ensures var missed := WithRequest(w, n, Missed(Question(n), 0));
            IsRun(missed, events) && Run(missed, events) == Run(Asked(w, n, Opened), rest)
  {
    hide Filled, IsRun, Run, Question, MayGo, Put;
    var missed := WithRequest(w, n, Missed(Question(n), 0));
    var holding := WithRequest(w, n, Holding(Question(n), 0, 0));
    Prepend(holding, Join(n, n), Asked(w, n, Opened), rest);
    Prepend(missed, ReadGeneration(n), holding, [Join(n, n)] + rest);
    events := [ReadGeneration(n)] + ([Join(n, n)] + rest);
  }

  /** The build finds nothing cached yet, and begins. */
  lemma BeginOne(w: World, n: nat, rest: seq<Event>) returns (events: seq<Event>)
    requires FilledUp(w, n) && n < RANKINGS_CACHED && IsRun(Asked(w, n, Building(0)), rest)
    ensures IsRun(Asked(w, n, Opened), events)
    ensures Run(Asked(w, n, Opened), events) == Run(Asked(w, n, Building(0)), rest)
  {
    MayAdd(n);
    PhaseMoves(w, n, Opened, Absent);
    PhaseMoves(w, n, Absent, Building(0));
    assert Hit(w.cache, Question(n), 0).None?;
    hide Filled, IsRun, Run, Question, MayGo, Put, Hit, Asked, WithPhase;
    Prepend(Asked(w, n, Absent), BeginBuild(n), Asked(w, n, Building(0)), rest);
    Prepend(Asked(w, n, Opened), LookAgain(n, 0), Asked(w, n, Absent), [BeginBuild(n)] + rest);
    events := [LookAgain(n, 0)] + ([BeginBuild(n)] + rest);
  }

  function Cached(w: World, n: nat): World {
    Asked(w, n, Stored(Some(Ranking(Question(n), 0)))).(cache := Filled(n + 1))
  }

  /** It ends, and what it built is cached. */
  lemma EndOne(w: World, n: nat, rest: seq<Event>)
    requires FilledUp(w, n) && n < RANKINGS_CACHED && IsRun(Cached(w, n), rest)
    ensures var events := [EndBuild(n, false, 0, {})] + rest;
            IsRun(Asked(w, n, Building(0)), events) &&
            Run(Asked(w, n, Building(0)), events) == Run(Cached(w, n), rest)
  {
    MayAdd(n);
    PhaseMoves(w, n, Building(0), Stored(Some(Ranking(Question(n), 0))));
    hide Filled, IsRun, Run, Question, MayGo, Put, Hit, Asked, WithPhase;
    Prepend(Asked(w, n, Building(0)), EndBuild(n, false, 0, {}), Cached(w, n), rest);
  }

  lemma FillOneMore(w: World, n: nat) returns (events: seq<Event>)
    requires FilledUp(w, n) && n < RANKINGS_CACHED
    ensures IsRun(w, events) && FilledUp(Run(w, events), n + 1)
  {
    hide Filled, IsRun, Run, Question, MayGo, Put;
    var built := Some(Ranking(Question(n), 0));
    var done := Cached(w, n).(calls := w.calls[n := Call(0, Question(n), Returned(built))], flights := map[]);
    NoMore(done);
    Prepend(Cached(w, n), Return(n), done, []);
    EndOne(w, n, [Return(n)] + []);
    events := BeginOne(w, n, [EndBuild(n, false, 0, {})] + ([Return(n)] + []));
    events := JoinOne(w, n, events);
    events := AskForOne(w, n, events);
  }

  lemma {:induction false} FillUp(n: nat) returns (events: seq<Event>)
    requires n <= RANKINGS_CACHED
    ensures IsRun(NOTHING, events) && FilledUp(Run(NOTHING, events), n)
  {
    hide IsRun, Run;
    if n == 0 {
      NoMore(NOTHING);
      events := [];
    } else {
      var before := FillUp(n - 1);
      var more := FillOneMore(Run(NOTHING, before), n - 1);
      JoinRuns(NOTHING, before, more);
      events := before + more;
    }
  }

  /** Four rankings just built, and a summary written: one of them is no longer served. */
  lemma AFreshRankingIsLost()
    ensures exists events, e :: IsRun(NOTHING, events) && Possible(Run(NOTHING, events), e) && e.PutSummary? &&
              Hit(Run(NOTHING, events).cache, Question(0), e.now).Some? &&
              Hit(Step(Run(NOTHING, events), e).cache, Question(0), e.now).None?
  {
    hide IsRun, Run, Question, Possible, Step, Hit;
    var events := FillUp(RANKINGS_CACHED);
    TakesTheFirst(Run(NOTHING, events));
  }

  lemma TakesTheFirst(w: World)
    requires FilledUp(w, RANKINGS_CACHED)
    ensures var e := PutSummary("summary:", "", 0, {Question(0)});
            Possible(w, e) && Hit(w.cache, Question(0), 0).Some? && Hit(Step(w, e).cache, Question(0), 0).None?
  {
    hide Filled, Question, PREFIX, MayGo, Swept, Put, Under;
    var key := "summary:";
    FilledHolds(RANKINGS_CACHED);
    NoRanking(key);
    OldestMayGo(w.cache, key);
    GoneIsMissed(w.cache, key, Summary(""));
    HitsWhileFresh(w.cache);
  }

  lemma HitsWhileFresh(t: Entries<Answer>)
    ensures Question(0) in t && t[Question(0)].createdAt == 0 && t[Question(0)].value.Ranked? ==>
              Hit(t, Question(0), 0).Some?
  {
    hide Question;
  }

  lemma NoRanking(key: string)
    ensures |key| < 11 ==> !(PREFIX <= key) && forall n: nat :: key != Question(n)
  {
    if |key| < 11 {
      assert |PREFIX| == 11;
      forall n: nat ensures key != Question(n) { QuestionIs(n); }
    }
  }

  lemma GoneIsMissed(t: Entries<Answer>, key: string, value: Answer)
    ensures key != Question(0) ==> Hit(Put(t, key, value, 0, {Question(0)}), Question(0), 0).None?
  {
    hide Question, Swept;
  }

  lemma OldestMayGo(t: Entries<Answer>, key: string)
    requires |t| == RANKINGS_CACHED && Under(t, PREFIX) == t.Keys && Question(0) in t && !(PREFIX <= key)
    requires forall k :: k in t ==> t[k].createdAt == 0
    ensures MayGo(t, key, 0, {Question(0)})
  {
    hide PREFIX, Question;
    assert Under(t, PREFIX) - {key} == t.Keys;
  }
}
