/** The meters on sign-ups, address screens and new-device notices. */
module Meters {
  import opened Basics
  import opened Text
  import opened SlidingWindow

  // --- sign-ups --------------------------------------------------------------------------------

  /** A limit of zero or less is not enforced. */
  predicate Within(times: seq<int>, limit: int, window: int, now: int) {
    limit > 0 ==> CountAfter(times, now - window) < limit
  }

  predicate MaySignUp(times: seq<int>, perMinute: int, perHour: int, now: int) {
    Within(times, perMinute, MINUTE, now) && Within(times, perHour, HOUR, now)
  }

  /** The rows answer every question about the log that can still be asked once the clock reads `latest`. */
  ghost predicate Stand(rows: seq<int>, log: seq<int>, latest: int, window: int) {
    forall t :: latest - window <= t ==> CountAfter(rows, t) == CountAfter(log, t)
  }

  ghost predicate Bounded(log: seq<int>, limit: int, window: int) {
    limit > 0 ==> AtMost(log, limit, window)
  }

  lemma PruneAndAdd(rows: seq<int>, log: seq<int>, latest: int, window: int, now: int)
    requires Stand(rows, log, latest, window) && latest <= now
    ensures Stand(Pruned(rows, now - window) + [now], log + [now], now, window)
  {
    forall t | now - window <= t
      ensures CountAfter(Pruned(rows, now - window) + [now], t) == CountAfter(log + [now], t)
    {
      PruningIsInvisible(rows, now - window, t);
      CountAfterJoin(Pruned(rows, now - window), [now], t);
      CountAfterJoin(log, [now], t);
    }
  }

  /** What a refusal promises: no attempt from then until `until` can pass, whoever else signs up. */
  ghost predicate RefusedUntil(log: seq<int>, limit: int, window: int, now: int, until: int) {
    forall later, more: seq<int> :: now <= later < until ==> !Within(log + more, limit, window, later)
  }

  /** The same for the two limits on sign-ups together. */
  ghost predicate NoSignUpUntil(log: seq<int>, perMinute: int, perHour: int, now: int, until: int) {
    forall later, more: seq<int> :: now <= later < until ==> !MaySignUp(log + more, perMinute, perHour, later)
  }

  lemma OldestDecides(rows: seq<int>, log: seq<int>, latest: int, keep: int, limit: int, window: int, now: int)
    requires Stand(rows, log, latest, keep) && latest <= now && window <= keep
    requires limit > 0 && CountAfter(rows, now - window) >= limit
    ensures RefusedUntil(log, limit, window, now, FirstAfter(rows, now - window) + window)
  {
    forall later, more: seq<int> | now <= later < FirstAfter(rows, now - window) + window
      ensures !Within(log + more, limit, window, later)
    {
      RefusalLasts(rows, [], limit, window, now, later);
      assert rows + [] == rows;
      CountAfterJoin(log, more, later - window);
    }
  }

  /** At the time a refusal is timed to, its limit lets one in, if nobody was let in meanwhile. */
  lemma OldestLeaves(rows: seq<int>, log: seq<int>, latest: int, keep: int, limit: int, window: int, now: int)
    requires Stand(rows, log, latest, keep) && Seen(log, latest) && latest <= now && window <= keep
    requires limit > 0 && AtMost(log, limit, window) && CountAfter(rows, now - window) > 0
    ensures Within(log, limit, window, FirstAfter(rows, now - window) + window)
  {
    var oldest := FirstAfter(rows, now - window);
    AfterIsIn(log, now - window, now);
    FewerLater(rows, now - window, oldest);
    assert CountAfter(rows, oldest) == CountAfter(log, oldest);
    assert CountAfter(rows, now - window) == CountAfter(log, now - window);
  }

  /** A limit that lets one in goes on doing so while nobody is let in. */
  lemma StaysWithin(log: seq<int>, limit: int, window: int, now: int, later: int)
    ensures now <= later && Within(log, limit, window, now) ==> Within(log, limit, window, later)
  {
    FewerLater(log, now - window, later - window);
  }

  /** No reading so far was later. */
  predicate Seen(log: seq<int>, latest: int) {
    forall x :: x in log ==> x <= latest
  }

  class SignupMeter {
    const perMinute: int
    const perHour: int
    /** The stored creation times. */
    var rows: seq<int>
    /** Every creation time there has been, and the last clock reading under the lock. */
    ghost var log: seq<int>
    ghost var latest: int

    ghost predicate Valid()
      reads this
    {
      Stand(rows, log, latest, HOUR) && Seen(log, latest) &&
      Bounded(log, perMinute, MINUTE) && Bounded(log, perHour, HOUR)
    }

    constructor (perMinute: int, perHour: int, now: int)
      ensures Valid() && log == [] && latest == now
      ensures this.perMinute == perMinute && this.perHour == perHour
    {
      this.perMinute, this.perHour, rows, log, latest := perMinute, perHour, [], [], now;
    }

    /** `reported` is the later reading a refusal is timed from. */
    method CheckSignupRate(now: int, reported: int) returns (retryAfter: Option<int>)
      requires Valid() && latest <= now <= reported
      modifies `latest
      ensures Valid() && latest == now
      ensures retryAfter.None? <==> MaySignUp(log, perMinute, perHour, now)
      ensures retryAfter.Some? ==>
                NoSignUpUntil(log, perMinute, perHour, now, reported + retryAfter.value)
      ensures retryAfter.Some? ==>
                var until := reported + retryAfter.value;
                if Within(log, perMinute, MINUTE, now) then MaySignUp(log, perMinute, perHour, until)
                else Within(log, perMinute, MINUTE, until)
    {
      latest := now;
      if perMinute <= 0 && perHour <= 0 {
        return None;
      }
      var inMinute := CountAfter(rows, now - MINUTE);
      if perMinute > 0 && inMinute >= perMinute {
        OldestDecides(rows, log, now, HOUR, perMinute, MINUTE, now);
        OldestLeaves(rows, log, now, HOUR, perMinute, MINUTE, now);
        return Some(FirstAfter(rows, now - MINUTE) + MINUTE - reported);
      }
      var inHour := CountAfter(rows, now - HOUR);
      if perHour > 0 && inHour >= perHour {
        OldestDecides(rows, log, now, HOUR, perHour, HOUR, now);
        OldestLeaves(rows, log, now, HOUR, perHour, HOUR, now);
        StaysWithin(log, perMinute, MINUTE, now, FirstAfter(rows, now - HOUR) + HOUR);
        return Some(FirstAfter(rows, now - HOUR) + HOUR - reported);
      }
      return None;
    }

    /** Follows a check that passed, under the same lock, at a reading no earlier. */
    method RecordAccountCreation(now: int)
      requires Valid() && latest <= now && MaySignUp(log, perMinute, perHour, latest)
      modifies this
      ensures Valid() && latest == now && log == old(log) + [now]
      ensures rows == Pruned(old(rows), now - HOUR) + [now]
    {
      PruneAndAdd(rows, log, latest, HOUR, now);
      if perMinute > 0 { AdmittingKeepsTheBound(log, perMinute, MINUTE, latest, now); }
      if perHour > 0 { AdmittingKeepsTheBound(log, perHour, HOUR, latest, now); }
      rows := Pruned(rows, now - HOUR);
      rows := rows + [now];
      log, latest := log + [now], now;
    }
  }

  // --- address screens, for one account ------------------------------------------------------------

  const EMAIL_SCREENS_PER_HOUR := 5

  class EmailScreens {
    var rows: seq<int>
    ghost var log: seq<int>
    ghost var latest: int

    ghost predicate Valid()
      reads this
    {
      Stand(rows, log, latest, HOUR) && Seen(log, latest) && AtMost(log, EMAIL_SCREENS_PER_HOUR, HOUR)
    }

    constructor (now: int)
      ensures Valid() && log == [] && latest == now
    {
      rows, log, latest := [], [], now;
    }

    method Reserve(now: int, reported: int) returns (retryAfter: Option<int>)
      requires Valid() && latest <= now <= reported
      modifies this
      ensures Valid() && latest == now
      ensures retryAfter.None? <==> Within(old(log), EMAIL_SCREENS_PER_HOUR, HOUR, now)
      ensures log == if retryAfter.None? then old(log) + [now] else old(log)
      ensures retryAfter.Some? ==>
                RefusedUntil(log, EMAIL_SCREENS_PER_HOUR, HOUR, now, reported + retryAfter.value) &&
                Within(log, EMAIL_SCREENS_PER_HOUR, HOUR, reported + retryAfter.value)
    {
      var since := now - HOUR;
      var used := CountAfter(rows, since);
      if used >= EMAIL_SCREENS_PER_HOUR {
        OldestDecides(rows, log, latest, HOUR, EMAIL_SCREENS_PER_HOUR, HOUR, now);
        OldestLeaves(rows, log, latest, HOUR, EMAIL_SCREENS_PER_HOUR, HOUR, now);
        latest := now;
        return Some(FirstAfter(rows, since) + HOUR - reported);
      }
      AdmittingKeepsTheBound(log, EMAIL_SCREENS_PER_HOUR, HOUR, now, now);
      PruneAndAdd(rows, log, latest, HOUR, now);
      rows := Pruned(rows, since);
      rows := rows + [now];
      log, latest := log + [now], now;
      return None;
    }
  }

  // --- new-device notices, for one account ---------------------------------------------------------

  const NEW_DEVICE_NOTICES := 5

  /** The devices first seen within an interval. */
  function SeenIn(devices: map<string, int>, from: int, to: int): set<string> {
    set d | d in devices && from <= devices[d] < to
  }

  function SeenAfter(devices: map<string, int>, t: int): set<string> {
    set d | d in devices && devices[d] > t
  }

  /** No interval holds more notices than devices first seen in it. */
  ghost predicate EachNoticeHasADevice(devices: map<string, int>, notices: seq<int>) {
    forall from, to :: CountIn(notices, from, to) <= |SeenIn(devices, from, to)|
  }

  lemma OneMoreDevice(devices: map<string, int>, d: string, now: int, from: int, to: int)
    requires d !in devices
    ensures |SeenIn(devices[d := now], from, to)| ==
            |SeenIn(devices, from, to)| + (if from <= now < to then 1 else 0)
  {
    assert SeenIn(devices[d := now], from, to) ==
           SeenIn(devices, from, to) + (if from <= now < to then {d} else {});
  }

  lemma DeviceAdded(devices: map<string, int>, notices: seq<int>, d: string, now: int, told: bool)
    requires EachNoticeHasADevice(devices, notices) && d !in devices
    ensures EachNoticeHasADevice(devices[d := now], if told then notices + [now] else notices)
  {
    var after := if told then notices + [now] else notices;
    forall from, to ensures CountIn(after, from, to) <= |SeenIn(devices[d := now], from, to)| {
      OneMoreDevice(devices, d, now, from, to);
      CountInJoin(notices, [now], from, to);
      OneTime(now, from, to);
    }
  }

  /** Notices stay bounded even when clock readings reach the lock out of order. */
  lemma NoticeFits(devices: map<string, int>, notices: seq<int>, now: int)
    requires EachNoticeHasADevice(devices, notices) && AtMost(notices, NEW_DEVICE_NOTICES, HOUR)
    requires |SeenAfter(devices, now - HOUR)| < NEW_DEVICE_NOTICES
    ensures AtMost(notices + [now], NEW_DEVICE_NOTICES, HOUR)
  {
    forall from, to | to <= from + HOUR ensures CountIn(notices + [now], from, to) <= NEW_DEVICE_NOTICES {
      CountInJoin(notices, [now], from, to);
      OneTime(now, from, to);
      if from <= now < to {
        SubsetIsNoLarger(SeenIn(devices, from, to), SeenAfter(devices, now - HOUR));
      }
    }
  }

  class Devices {
    /** When each known device was first seen. */
    var firstSeen: map<string, int>
    /** When each notice was sent, in the order the account's lock was held. */
    ghost var notices: seq<int>

    ghost predicate Valid()
      reads this
    {
      EachNoticeHasADevice(firstSeen, notices) && AtMost(notices, NEW_DEVICE_NOTICES, HOUR)
    }

    constructor ()
      ensures Valid() && firstSeen == map[] && notices == []
    {
      firstSeen, notices := map[], [];
    }

    /**
     * `now` was read before the account's lock was taken. `learn` is a session signed in before devices
     * were recorded; `named` says its device is on record already.
     */
    method RecordDevice(device: string, now: int, learn: bool, named: bool) returns (newDevice: bool)
      requires Valid()
      modifies this
      ensures Valid()
      ensures newDevice <==>
                !learn && old(firstSeen) != map[] && device !in old(firstSeen) &&
                |SeenAfter(old(firstSeen), now - HOUR)| < NEW_DEVICE_NOTICES
      ensures notices == if newDevice then old(notices) + [now] else old(notices)
      ensures firstSeen == if device in old(firstSeen) || (learn && named) then old(firstSeen)
                           else old(firstSeen)[device := now]
    {
      newDevice := false;
      if learn && named {
        return;
      }
      newDevice := !learn && |firstSeen| > 0 && device !in firstSeen;
      if newDevice {
        var recent := |SeenAfter(firstSeen, now - HOUR)|;
        if recent >= NEW_DEVICE_NOTICES {
          newDevice := false;
        }
      }
      if newDevice { NoticeFits(firstSeen, notices, now); }
      if device !in firstSeen {
        DeviceAdded(firstSeen, notices, device, now, newDevice);
        firstSeen := firstSeen[device := now];
      }
      if newDevice { notices := notices + [now]; }
    }
  }
}
