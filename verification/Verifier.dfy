/** The transactions that confirm one account's address, each run while its row lock is held. */
module Verifier {
  import opened Text
  import opened Verification

  class AccountStore {
    var email: string
    var verified: bool
    var rows: map<string, Row>
    var budget: Option<Budget>

    ghost function Value(): Account
      reads this
    {
      Account(email, verified, rows, budget)
    }

    constructor (email: string)
      ensures Value() == Account(email, false, map[], None)
    {
      this.email, verified, rows, budget := email, false, map[], None;
    }

    method Verify(id: string, now: int) returns (outcome: Outcome)
      modifies this
      ensures (Value(), outcome) == VerifyLink(old(Value()), id, now)
    {
      if id !in rows {
        return Invalid;
      }
      var row := rows[id];
      if now > row.expires {
        rows := rows - {id};
        return Expired;
      }
      var confirmed := row.email == email;
      if confirmed {
        verified := true;
        rows := map[];
        budget := None;
        return Confirmed;
      }
      rows := rows - {id};
      return Invalid;
    }

    method AttemptBudget(now: int) returns (attempts: nat)
      ensures attempts == Spent(budget, now)
    {
      if budget.None? {
        return 0;
      }
      if now - budget.value.last >= TRY_WINDOW {
        return 0;
      }
      return budget.value.attempts;
    }

    /** Whether any usable code is the one given, how many are usable, and whether one has lapsed. */
    method Compare(digest: string, now: int) returns (matched: bool, active: nat, codeExpired: bool)
      ensures matched <==> Matches(Value(), digest, now)
      ensures active > 0 <==> AnyUsable(Value(), now)
      ensures codeExpired <==> exists id :: id in rows && Lapsed(email, rows[id], now)
    {
      hide Usable, Lapsed;
      matched, active, codeExpired := false, 0, false;
      var left := rows.Keys;
      while left != {}
        invariant left <= rows.Keys
        invariant matched <==>
                    exists id :: id in rows && id !in left && Usable(email, rows[id], now) && rows[id].code == digest
        invariant active > 0 <==> exists id :: id in rows && id !in left && Usable(email, rows[id], now)
        invariant codeExpired <==> exists id :: id in rows && id !in left && Lapsed(email, rows[id], now)
        decreases |left|
      {
        var id :| id in left;
        left := left - {id};
        var item := rows[id];
        Judged(email, item, now);
        if item.email != email || item.code == "" {
          continue;
        }
        if item.codeExpires <= now {
          codeExpired := true;
          continue;
        }
        if item.tries >= MAX_TRIES {
          continue;
        }
        active := active + 1;
        matched := item.code == digest || matched;
      }
    }

    /** Counts a wrong guess against every usable code. */
    method CountTry(now: int)
      modifies `rows
      ensures rows == Tried(old(Value()), now)
    {
      hide Usable;
      var left := rows.Keys;
      while left != {}
        invariant left <= old(rows).Keys == rows.Keys
        invariant forall id :: id in left ==> rows[id] == old(rows)[id]
        invariant forall id :: id in rows && id !in left ==> rows[id] == Tried(old(Value()), now)[id]
        decreases |left|
      {
        var id :| id in left;
        left := left - {id};
        var item := rows[id];
        Judged(email, item, now);
        if item.email != email || item.code == "" || item.codeExpires <= now || item.tries >= MAX_TRIES {
          continue;
        }
        rows := rows[id := item.(tries := item.tries + 1)];
      }
    }

    method EnterCode(digest: string, now: int) returns (outcome: Outcome)
      modifies this
      ensures (Value(), outcome) == VerifyCode(old(Value()), digest, now)
    {
      hide Matches, AnyUsable, Spent, Tried, Lapsed;
      var attempts := AttemptBudget(now);
      if attempts >= MAX_TRIES {
        return Limited;
      }
      var matched, active, codeExpired := Compare(digest, now);
      if matched {
        verified, rows, budget := true, map[], None;
        return Confirmed;
      }
      if active == 0 {
        if codeExpired {
          return CodeExpired;
        }
        return Invalid;
      }
      CountTry(now);
      attempts := attempts + 1;
      budget := Some(Budget(attempts, now));
      if attempts >= MAX_TRIES {
        return Limited;
      }
      return Invalid;
    }

    /** The transaction that opens a resend: the new row is also what makes a parallel one wait. */
    method BeginResend(id: string, code: string, now: int) returns (outcome: Outcome)
      modifies `rows
      ensures (Value(), outcome) == ResendInsert(old(Value()), id, code, now)
    {
      if verified {
        return AlreadyVerified;
      }
      if email == "" {
        return NoAddress;
      }
      var latest := LatestUnexpired(now);
      if latest > 0 && now - latest < MAX_OUTSTANDING_RESEND {
        return TooSoon;
      }
      rows := rows[id := NewRow(email, code, now)];
      return Done;
    }

    /** When the newest unexpired credential was issued, or 0. */
    method LatestUnexpired(now: int) returns (latest: int)
      ensures latest > 0 && now - latest < MAX_OUTSTANDING_RESEND <==> JustSent(Value(), now)
    {
      latest := 0;
      var left := rows.Keys;
      while left != {}
        invariant left <= rows.Keys && latest >= 0
        invariant latest > 0 ==> exists id :: id in rows && rows[id].expires > now && rows[id].created == latest
        invariant forall id :: id in rows && id !in left && rows[id].expires > now ==> rows[id].created <= latest
        decreases |left|
      {
        var id :| id in left;
        left := left - {id};
        if rows[id].expires > now && rows[id].created > latest {
          latest := rows[id].created;
        }
      }
    }

    method CleanupResend(id: string)
      modifies `rows
      ensures rows == old(rows) - {id}
    {
      rows := rows - {id};
    }

    /** The transaction after a successful send. */
    method CommitResend(id: string, sentTo: string) returns (outcome: Outcome)
      modifies `rows
      ensures (Value(), outcome) == ResendCommit(old(Value()), id, sentTo)
    {
      if verified {
        return Done;
      }
      if email != sentTo {
        return Invalid;
      }
      if id !in rows {
        return Invalid;
      }
      if rows[id].email != email {
        return Invalid;
      }
      rows := map[id := rows[id]];
      return Done;
    }
  }

  lemma Judged(email: string, r: Row, now: int)
    ensures Usable(email, r, now) <==>
            r.email == email && r.code != "" && !(r.codeExpires <= now) && !(r.tries >= MAX_TRIES)
    ensures Lapsed(email, r, now) <==> r.email == email && r.code != "" && r.codeExpires <= now
  {
  }
}
