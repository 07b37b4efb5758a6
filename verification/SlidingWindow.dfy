/** "At most so many in any window", kept by counting rows; times are in milliseconds. */
module SlidingWindow {

  const MINUTE := 60_000
  const HOUR := 60 * MINUTE
  const DAY := 24 * HOUR

  /** How many of the times are in the half-open interval. */
  function CountIn(times: seq<int>, from: int, to: int): nat {
    if times == [] then 0
    else (if from <= times[0] < to then 1 else 0) + CountIn(times[1..], from, to)
  }

  /** How many of the times are later than `t`: the count every meter asks the database for. */
  function CountAfter(times: seq<int>, t: int): nat {
    if times == [] then 0 else (if times[0] > t then 1 else 0) + CountAfter(times[1..], t)
  }

  /** No interval at most this long, wherever it starts, holds more than the limit. */
  ghost predicate AtMost(times: seq<int>, limit: nat, window: int) {
    forall from, to :: to <= from + window ==> CountIn(times, from, to) <= limit
  }

  /** The rows later than the cutoff, which is what pruning leaves. */
  function Pruned(rows: seq<int>, cutoff: int): seq<int> {
    if rows == [] then []
    else (if rows[0] > cutoff then [rows[0]] else []) + Pruned(rows[1..], cutoff)
  }

  lemma {:induction false} CountInJoin(a: seq<int>, b: seq<int>, from: int, to: int)
    ensures CountIn(a + b, from, to) == CountIn(a, from, to) + CountIn(b, from, to)
  {
    if a == [] {
      assert a + b == b;
    } else {
      CountInJoin(a[1..], b, from, to);
      assert (a + b)[1..] == a[1..] + b;
    }
  }

  lemma {:induction false} CountAfterJoin(a: seq<int>, b: seq<int>, t: int)
    ensures CountAfter(a + b, t) == CountAfter(a, t) + CountAfter(b, t)
  {
    if a == [] {
      assert a + b == b;
    } else {
      CountAfterJoin(a[1..], b, t);
      assert (a + b)[1..] == a[1..] + b;
    }
  }

  lemma {:induction false} InIsAfter(times: seq<int>, from: int, to: int, t: int)
    ensures t < from ==> CountIn(times, from, to) <= CountAfter(times, t)
  {
    if times != [] { InIsAfter(times[1..], from, to, t); }
  }

  /** Dropping rows no later than a cutoff changes no count from that cutoff on. */
  lemma {:induction false} PruningIsInvisible(rows: seq<int>, cutoff: int, t: int)
    requires cutoff <= t
    ensures CountAfter(Pruned(rows, cutoff), t) == CountAfter(rows, t)
  {
    if rows != [] {
      PruningIsInvisible(rows[1..], cutoff, t);
      CountAfterJoin(if rows[0] > cutoff then [rows[0]] else [], Pruned(rows[1..], cutoff), t);
    }
  }

  /**
   * One more admission after a count below the limit keeps the bound, whatever order the times are in,
   * so long as the count was not taken later than the admission it allowed.
   */
  lemma AdmittingKeepsTheBound(log: seq<int>, limit: nat, window: int, counted: int, admitted: int)
    requires AtMost(log, limit, window) && counted <= admitted
    requires CountAfter(log, counted - window) < limit
    ensures AtMost(log + [admitted], limit, window)
  {
    forall from, to | to <= from + window ensures CountIn(log + [admitted], from, to) <= limit {
      CountInJoin(log, [admitted], from, to);
      OneTime(admitted, from, to);
      if from <= admitted < to {
        InIsAfter(log, from, to, counted - window);
      }
    }
  }

  lemma OneTime(t: int, from: int, to: int)
    ensures CountIn([t], from, to) == if from <= t < to then 1 else 0
  {
    assert [t][1..] == [];
  }

  /** The earliest time later than `t`, when there is one. */
  function FirstAfter(times: seq<int>, t: int): (r: int)
    requires CountAfter(times, t) > 0
    ensures r > t && r in times
    ensures forall x :: x in times && x > t ==> r <= x
  {
    assert forall x :: x in times ==> x == times[0] || x in times[1..];
    if CountAfter(times[1..], t) == 0 then
      NoneLater(times[1..], t);
      times[0]
    else
      var rest := FirstAfter(times[1..], t);
      if t < times[0] < rest then times[0] else rest
  }

  lemma {:induction false} NoneLater(times: seq<int>, t: int)
    ensures CountAfter(times, t) == 0 ==> forall x :: x in times ==> x <= t
  {
    if times != [] {
      NoneLater(times[1..], t);
      assert forall x :: x in times ==> x == times[0] || x in times[1..];
    }
  }

  lemma {:induction false} NothingBetween(times: seq<int>, t: int, u: int)
    requires t <= u
    requires forall x :: x in times && x > t ==> u < x
    ensures CountAfter(times, u) == CountAfter(times, t)
  {
    if times != [] {
      assert forall x :: x in times[1..] ==> x in times;
      assert times[0] in times;
      NothingBetween(times[1..], t, u);
    }
  }

  /** Until the oldest counted row leaves the window, a refused meter refuses, whatever is added to it. */
  lemma RefusalLasts(log: seq<int>, more: seq<int>, limit: nat, window: int, counted: int, later: int)
    requires CountAfter(log, counted - window) >= limit > 0
    requires counted <= later < FirstAfter(log, counted - window) + window
    ensures CountAfter(log + more, later - window) >= limit
  {
    NothingBetween(log, counted - window, later - window);
    CountAfterJoin(log, more, later - window);
  }

  lemma {:induction false} FewerLater(times: seq<int>, t: int, u: int)
    ensures t <= u ==> CountAfter(times, u) <= CountAfter(times, t)
    ensures t < u && u in times ==> CountAfter(times, u) < CountAfter(times, t)
  {
    if times != [] {
      assert u in times <==> u == times[0] || u in times[1..];
      FewerLater(times[1..], t, u);
    }
  }

  lemma {:induction false} AfterIsIn(times: seq<int>, t: int, latest: int)
    requires forall x :: x in times ==> x <= latest
    ensures CountAfter(times, t) == CountIn(times, t + 1, latest + 1)
  {
    if times != [] {
      assert times[0] in times && forall x :: x in times[1..] ==> x in times;
      AfterIsIn(times[1..], t, latest);
    }
  }

  // --- budgets that spend in groups -----------------------------------------------------------

  /** No time is more than `slack` before an earlier one. */
  predicate Ordered(log: seq<int>, slack: int := 0) {
    forall i, j :: 0 <= i <= j < |log| ==> log[i] <= log[j] + slack
  }

  /** Among any `limit` + 1 times in a row, the last is a whole window after the first. */
  predicate FarApart(log: seq<int>, limit: nat, window: int) {
    forall j {:trigger log[j]} :: limit <= j < |log| ==> log[j] - log[j - limit] >= window
  }

  /** The times counted in an interval lie between two of them, in the log's order. */
  lemma {:induction false} CountSpans(log: seq<int>, from: int, to: int)
    ensures var n := CountIn(log, from, to);
            n > 0 ==> exists i, j :: 0 <= i <= j < |log| && j - i >= n - 1 && from <= log[i] < to && from <= log[j] < to
  {
    if log != [] {
      var rest := log[1..];
      CountSpans(rest, from, to);
      var n := CountIn(rest, from, to);
      if n > 0 {
        var i, j :| 0 <= i <= j < |rest| && j - i >= n - 1 && from <= rest[i] < to && from <= rest[j] < to;
        assert rest[i] == log[i + 1] && rest[j] == log[j + 1];
        if from <= log[0] < to { assert j + 1 - 0 >= n; }
      }
    }
  }

  /** Times so spread out fit the bound, in windows shortened by as much as they are out of order. */
  lemma FarApartIsAtMost(log: seq<int>, limit: nat, window: int, slack: int)
    requires Ordered(log, slack) && FarApart(log, limit, window) && limit > 0
    ensures AtMost(log, limit, window - slack)
  {
    forall i, j | 0 <= i && i + limit <= j < |log| ensures log[j] - log[i] >= window - slack {
      var k := i + limit;
      assert log[k] - log[k - limit] >= window && log[k] <= log[j] + slack;
    }
    forall from, to | to <= from + window - slack ensures CountIn(log, from, to) <= limit {
      CountSpans(log, from, to);
    }
  }
}
