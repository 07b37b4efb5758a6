/** The cache of usage summaries and rankings in front of the ledger. */
module UsageCache {
  import opened Text
  import opened RankingCache

  /** How many entries besides `except` are under the prefix, and the oldest of them. */
  method OldestUnder<V>(t: Entries<V>, prefix: string, except: string) returns (oldest: Option<string>, cached: nat)
    ensures var others := Under(t, prefix) - {except};
            cached == |others| && (oldest.None? <==> others == {}) &&
            (oldest.Some? ==> oldest.value in others && Oldest(t, others, oldest.value))
  {
    oldest, cached := None, 0;
    var left := t.Keys;
    ghost var others := Under(t, prefix) - {except};
    UnderHas(t, prefix, except);
    assert others - left == {};
    hide Oldest, Under, IsOldestOf;
    NoneIsOldest(t);
    while left != {}
      invariant left <= t.Keys && IsOldestOf(t, others - left, oldest, cached)
      decreases |left|
    {
      var key :| key in left;
      OneMoreSeen(others, left, key);
      OldestSoFar(t, others - left, key, oldest, cached);
      left := left - {key};
      if key != except && prefix <= key {
        cached := cached + 1;
        if oldest.None? || t[key].createdAt < t[oldest.value].createdAt {
          oldest := Some(key);
        }
      }
    }
    OldestIs(t, others, oldest, cached);
    assert others - left == others;
  }

  /** How many entries are among `seen`, and one of the oldest of them. */
  ghost predicate IsOldestOf<V>(t: Entries<V>, seen: set<string>, oldest: Option<string>, cached: nat) {
    cached == |seen| && (oldest.None? <==> seen == {}) &&
    (oldest.Some? ==> oldest.value in t && oldest.value in seen && Oldest(t, seen, oldest.value))
  }

  lemma NoneIsOldest<V>(t: Entries<V>)
    ensures IsOldestOf(t, {}, None, 0)
  {
  }

  lemma OldestIs<V>(t: Entries<V>, seen: set<string>, oldest: Option<string>, cached: nat)
    ensures IsOldestOf(t, seen, oldest, cached) <==>
            cached == |seen| && (oldest.None? <==> seen == {}) &&
            (oldest.Some? ==> oldest.value in t && oldest.value in seen && Oldest(t, seen, oldest.value))
  {
  }

  /** Answers kept for fifteen seconds; the caller holds the lock. */
  class TtlCache<V> {
    var entries: Entries<V>

    constructor ()
      ensures entries == map[]
    {
      entries := map[];
    }

    method Get(key: string, now: int) returns (found: Option<V>)
      ensures found == if key in entries && now - entries[key].createdAt < TTL then Some(entries[key].value) else None
    {
      if key !in entries || Expired(entries[key].createdAt, now) {
        return None;
      }
      return Some(entries[key].value);
    }

    method Sweep(now: int)
      modifies this
      ensures entries == Swept(old(entries), now)
    {
      hide Expired;
      if |entries| <= SWEEP_LIMIT {
        return;
      }
      var left := entries.Keys;
      while left != {}
        invariant left <= entries.Keys <= old(entries).Keys
        invariant forall k :: k in left ==> k in entries
        invariant forall k :: k in entries ==> entries[k] == old(entries)[k]
        invariant forall k :: k in old(entries) && k !in left ==>
                    (k in entries <==> !Expired(old(entries)[k].createdAt, now))
        decreases |left|
      {
        var key :| key in left;
        left := left - {key};
        if Expired(entries[key].createdAt, now) {
          entries := entries - {key};
        }
      }
    }

    method Set(key: string, value: V, now: int)
      modifies this
      ensures entries == old(entries)[key := Entry(now, value)]
    {
      entries := entries[key := Entry(now, value)];
    }

    method DeletePrefix(prefix: string)
      modifies this
      ensures entries == Without(old(entries), prefix)
    {
      var left := entries.Keys;
      while left != {}
        invariant left <= entries.Keys <= old(entries).Keys
        invariant forall k :: k in left ==> k in entries
        invariant forall k :: k in entries ==> entries[k] == old(entries)[k]
        invariant forall k :: k in old(entries) && k !in left ==> (k in entries <==> !(prefix <= k))
        decreases |left|
      {
        var key :| key in left;
        left := left - {key};
        if prefix <= key {
          entries := entries - {key};
        }
      }
    }

    /** Drops the oldest entry under the prefix when `limit` others are cached; says which. */
    method MakeRoomUnder(prefix: string, except: string, limit: nat) returns (ghost gone: set<string>)
      modifies this
      ensures Dropped(old(entries), prefix, except, limit, gone)
      ensures entries == old(entries) - gone
    {
      gone := {};
      var oldest, cached := OldestUnder(entries, prefix, except);
      if cached >= limit && oldest.Some? {
        gone := {oldest.value};
        entries := entries - {oldest.value};
      } else {
        assert entries - {} == entries;
      }
    }
  }

  predicate Oldest<V>(t: Entries<V>, among: set<string>, k: string) {
    k in t && forall j :: j in among ==> j in t && t[k].createdAt <= t[j].createdAt
  }

  lemma UnderHas<V>(t: Entries<V>, prefix: string, except: string)
    ensures Under(t, prefix) - {except} - t.Keys == {}
    ensures forall k :: k in t ==> (k in Under(t, prefix) - {except} <==> k != except && prefix <= k)
  {
  }

  lemma OneMoreSeen(others: set<string>, left: set<string>, k: string)
    ensures k in left ==> others - (left - {k}) == if k in others then (others - left) + {k} else others - left
  {
  }

  lemma OldestSoFar<V>(t: Entries<V>, seen: set<string>, k: string, oldest: Option<string>, cached: nat)
    ensures IsOldestOf(t, seen, oldest, cached) ==>
              (oldest.Some? ==> oldest.value in t) && (oldest.None? <==> seen == {})
    ensures k in t && k !in seen && IsOldestOf(t, seen, oldest, cached) ==>
              IsOldestOf(t, seen + {k},
                         if oldest.None? || t[k].createdAt < t[oldest.value].createdAt then Some(k) else oldest,
                         cached + 1)
  {
  }

  class SummaryCache {
    const summary: TtlCache<Answer>
    var allowanceGeneration: nat

    constructor ()
      ensures summary.entries == NOTHING.cache && allowanceGeneration == NOTHING.generation
      ensures fresh(summary)
    {
      summary := new TtlCache<Answer>();
      allowanceGeneration := 0;
    }

    /** A ranking found under the key while it is fresh. */
    method CachedRanking(key: string, now: int) returns (found: Option<Ranking>)
      ensures found == Hit(summary.entries, key, now)
    {
      var answer := summary.Get(key, now);
      if answer.None? || answer.value.Summary? {
        return None;
      }
      return Some(answer.value.ranking);
    }

    method PutLocked(key: string, value: Answer, now: int) returns (ghost gone: set<string>)
      modifies summary
      ensures MayGo(old(summary.entries), key, now, gone)
      ensures summary.entries == Put(old(summary.entries), key, value, now, gone)
    {
      summary.Sweep(now);
      gone := summary.MakeRoomUnder(PREFIX, key, RANKINGS_CACHED);
      summary.Set(key, value, now);
    }

    method ForgetAllowanceRankings()
      modifies this, summary
      ensures summary.entries == Without(old(summary.entries), PREFIX)
      ensures allowanceGeneration == old(allowanceGeneration) + 1
    {
      summary.DeletePrefix(PREFIX);
      allowanceGeneration := allowanceGeneration + 1;
    }

    method CacheRankingIfCurrent(key: string, ranking: Ranking, generation: nat, now: int)
      returns (ghost gone: set<string>)
      modifies summary
      ensures summary.entries ==
              CacheIfCurrent(old(summary.entries), allowanceGeneration, key, ranking, generation, now, gone)
      ensures allowanceGeneration == generation ==> MayGo(old(summary.entries), key, now, gone)
    {
      gone := {};
      if allowanceGeneration != generation {
        return;
      }
      gone := PutLocked(key, Ranked(ranking), now);
    }
  }
}
