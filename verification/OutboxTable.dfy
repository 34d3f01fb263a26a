/**
 The dispatchers' statements in place on an outbox table: each claim runs its own sequence of
 sweeping UPDATEs before it picks, and each completion is one guarded UPDATE.  They are proved
 to write exactly the rows the outbox machine is made of.
 */
module OutboxTable {
  import opened Options
  import opened Outbox

  /** ORDER BY due time, created_at LIMIT 1. */
  method SelectFirstDue(kind: Kind, rows: Rows, at: int) returns (r: Option<Id>)
    ensures r.None? ==> NoneDue(kind, rows, at)
    ensures r.Some? ==> FirstDue(kind, rows, at, r.value)
  {
    r := None;
    var rest := rows.Keys;
    while rest != {}
      invariant rest <= rows.Keys
      invariant r.None? ==> forall k <- rows.Keys - rest :: DueSince(kind, rows[k], at).None?
      invariant r.Some? ==> r.value in rows && DueSince(kind, rows[r.value], at).Some?
      invariant r.Some? ==> forall k <- rows.Keys - rest | DueSince(kind, rows[k], at).Some? ::
                              Earlier(kind, rows[r.value], rows[k], at)
      decreases |rest|
    {
      var id: Id :| id in rest;
      if DueSince(kind, rows[id], at).Some? && (r.None? || Earlier(kind, rows[id], rows[r.value], at)) {
        r := Some(id);
      }
      rest := rest - {id};
    }
  }

  predicate Sends(rows: Rows, id: Id, token: Token) {
    id in rows && rows[id].status.Sending? && rows[id].lease.Some? && rows[id].lease.value.token == token
  }

  function SpentFails(r: Row, at: int): Row { if MAX_ATTEMPTS <= r.attempts && Expired(r, at) then FailedRow(r) else r }

  function LeftRequeues(r: Row, at: int): Row { if r.attempts < MAX_ATTEMPTS && Expired(r, at) then RequeuedRow(r, at) else r }

  /** The order of the two statements does not matter to any row: they apply to disjoint rows. */
  lemma TwoSweeps(r: Row, at: int)
    ensures LeftRequeues(SpentFails(r, at), at) == SweptRow(AccountSecurity, r, at)
  {
  }

  ghost predicate AllShaped(kind: Kind, rows: Rows) { forall id <- rows.Keys :: Shape(kind, rows[id]) }

  /** No claim at any time picks the row, and no sweep changes it. */
  ghost predicate Final(kind: Kind, r: Row) {
    forall now: int :: DueSince(kind, r, now).None? && SweptRow(kind, r, now) == r
  }

  /** Claims may pick the row from `when` on, and not before. */
  ghost predicate DueFrom(kind: Kind, r: Row, when: int) { forall now: int :: DueSince(kind, r, now).Some? <==> when <= now }

  /** Every row is what the sweep makes of it, in columns. */
  ghost predicate AllSwept(kind: Kind, before: Rows, after: Rows, at: int, expired: set<Id>) {
    after.Keys == before.Keys
    && forall id <- before.Keys :: SweepRight(kind, before[id], after[id], at, kind == AccountSecurity && id in expired)
  }

  lemma SweptAllRight(kind: Kind, rows: Rows, at: int, expired: set<Id>)
    ensures AllSwept(kind, rows, Swept(kind, rows, at, expired), at, expired)
  {
    hide Swept, SweepRight;
    forall id <- rows.Keys ensures SweepRight(kind, rows[id], Swept(kind, rows, at, expired)[id], at, kind == AccountSecurity && id in expired) {
      SweptIsDueIff(kind, rows, at, expired, id);
    }
  }

  /** All attempts used, and yet waiting or interrupted. */
  predicate Overdrawn(r: Row, at: int) { MAX_ATTEMPTS <= r.attempts && (r.status.Pending? || Expired(r, at)) }

  /** The sweep keeps what a claim reads of the row it picks. */
  lemma PickedRow(kind: Kind, rows: Rows, at: int, expired: set<Id>, id: Id)
    requires id in rows && Takeable(kind, rows[id], at) && !(kind == AccountSecurity && id in expired)
    ensures var r, r' := rows[id], Swept(kind, rows, at, expired)[id];
            r'.attempts == r.attempts && r'.cipher == r.cipher && r'.sent == r.sent && r'.created == r.created
            && (kind == PublicJoin || r.attempts < 5)
  {
  }

  class Table {
    const kind: Kind
    var rows: Rows

    constructor (kind: Kind)
      ensures this.kind == kind && rows == map[]
    {
      this.kind, rows := kind, map[];
    }

    /** Exhausted rows fail first; an expired lease with attempts left is picked directly.  Only
        rows without attempts change, and none of them is left waiting. */
    method SweepInvitations(at: int)
      requires kind.Invitation?
      modifies this
      ensures rows == Swept(kind, old(rows), at, {})
      ensures AllSwept(kind, old(rows), rows, at, {})
      ensures forall id <- rows.Keys :: !Overdrawn(rows[id], at) && (rows[id] != old(rows)[id] <==> Overdrawn(old(rows)[id], at))
      ensures AllShaped(kind, old(rows)) ==> AllShaped(kind, rows)
    {
      rows := map id <- rows.Keys ::
        if MAX_ATTEMPTS <= rows[id].attempts && (rows[id].status.Pending? || Expired(rows[id], at))
        then rows[id].(status := Failed, next := None, lease := None) else rows[id];
      SweptAllRight(kind, old(rows), at, {});
    }

    /** Mail of expired actions is cancelled, then interrupted fifth attempts fail, then the other
        expired leases are requeued: three statements in that order. */
    method SweepAccountSecurity(at: int, expired: set<Id>)
      requires kind.AccountSecurity?
      modifies this
      ensures rows == Swept(kind, old(rows), at, expired)
      ensures AllSwept(kind, old(rows), rows, at, expired)
    {
      hide CancelledRow, SpentFails, LeftRequeues, SweptRow;
      ghost var before := rows;
      rows := map id <- rows.Keys :: if id in expired && Unsent(rows[id]) then CancelledRow(rows[id]) else rows[id];
      rows := map id <- rows.Keys :: SpentFails(rows[id], at);
      rows := map id <- rows.Keys :: LeftRequeues(rows[id], at);
      forall id <- before.Keys ensures rows[id] == Swept(kind, before, at, expired)[id] {
        TwoSweeps(if id in expired && Unsent(before[id]) then CancelledRow(before[id]) else before[id], at);
      }
      SweptAllRight(kind, before, at, expired);
    }

    /** Every expired lease is requeued, then whatever waits without attempts left fails. */
    method SweepNotifications(at: int)
      requires kind.Notification?
      modifies this
      ensures rows == Swept(kind, old(rows), at, {})
      ensures AllSwept(kind, old(rows), rows, at, {})
    {
      rows := map id <- rows.Keys :: if Expired(rows[id], at) then RequeuedRow(rows[id], at) else rows[id];
      rows := map id <- rows.Keys ::
        if rows[id].status.Pending? && MAX_ATTEMPTS <= rows[id].attempts then FailedRow(rows[id]) else rows[id];
      SweptAllRight(kind, old(rows), at, {});
    }

    /** Every expired lease is requeued; nothing looks at the attempts.  Afterwards no lease has run
        out, running ones are untouched, and every interrupted row is due at once, also one whose
        attempts are used up. */
    method SweepPublicJoins(at: int)
      requires kind.PublicJoin?
      modifies this
      ensures rows == Swept(kind, old(rows), at, {})
      ensures AllSwept(kind, old(rows), rows, at, {})
      ensures forall id <- rows.Keys ::
                !Expired(rows[id], at) && rows[id].attempts == old(rows)[id].attempts
                && (if Expired(old(rows)[id], at) then DueFrom(kind, rows[id], at) else rows[id] == old(rows)[id])
      ensures AllShaped(kind, old(rows)) ==> AllShaped(kind, rows)
    {
      rows := map id <- rows.Keys :: if Expired(rows[id], at) then RequeuedRow(rows[id], at) else rows[id];
      SweptAllRight(kind, old(rows), at, {});
    }

    /** One claiming transaction: the row it picked and whether it committed.  It picks the message
        due first among those that wait or were interrupted and have attempts left, and none only
        if there is none; the picked one is then in flight as the next attempt. */
    method ClaimNext(token: Token, at: int, expired: set<Id>) returns (pick: Option<Id>, committed: bool)
      requires expired == {} || kind.AccountSecurity?
      modifies this
      ensures pick.None? ==> committed && rows == Swept(kind, old(rows), at, expired)
      ensures pick.None? ==> NoneDue(kind, Swept(kind, old(rows), at, expired), at)
      ensures pick.Some? ==> FirstDue(kind, Swept(kind, old(rows), at, expired), at, pick.value)
      ensures pick.Some? ==>
                committed == (Swept(kind, old(rows), at, expired)[pick.value].attempts < AttemptLimit(kind))
      ensures pick.Some? && committed ==>
                rows == Swept(kind, old(rows), at, expired)
                        [pick.value := ClaimedRow(Swept(kind, old(rows), at, expired)[pick.value], token, at)]
      ensures !committed ==> rows == old(rows)
      ensures TakesFirst(kind, old(rows), at, expired, pick)
      ensures !committed <==> kind == PublicJoin && pick.Some? && old(rows)[pick.value].attempts >= 5
      ensures committed ==>
                rows.Keys == old(rows).Keys
                && (forall id <- rows.Keys | Some(id) != pick ::
                      SweepRight(kind, old(rows)[id], rows[id], at, kind == AccountSecurity && id in expired))
                && (pick.Some? ==>
                      var r := old(rows)[pick.value];
                      rows[pick.value] == Row(Sending, r.attempts + 1, None, Some(Lease(token, at + 2 * MINUTE)), r.cipher, r.sent, r.created))
    {
      hide DueSince, Takeable, DueTime, SweptRow, SweepRight;
      ghost var swept := Swept(kind, rows, at, expired);
      var before := rows;
      match kind {
        case Invitation => SweepInvitations(at);
        case AccountSecurity => SweepAccountSecurity(at, expired);
        case Notification => SweepNotifications(at);
        case PublicJoin => SweepPublicJoins(at);
      }
      assert rows == swept;
      pick := SelectFirstDue(kind, rows, at);
      PickTakesFirst(kind, before, at, expired, pick);
      if pick.Some? {
        PickedRow(kind, before, at, expired, pick.value);
      }
      committed := true;
      if pick.Some? {
        var r := rows[pick.value];
        if AttemptLimit(kind) < r.attempts + 1 {
          rows := before;
          committed := false;
        } else {
          rows := rows[pick.value := r.(status := Sending, attempts := r.attempts + 1, next := None,
                                        lease := Some(Lease(token, at + LEASE)))];
        }
      }
    }

    /** The worker's lease is used up either way; a sent row is never picked or swept again. */
    method MarkSent(id: Id, token: Token) returns (ok: bool)
      modifies this
      ensures ok <==> Sends(old(rows), id, token)
      ensures rows == if ok then old(rows)[id := SentRow(old(rows)[id])] else old(rows)
      ensures !Sends(rows, id, token) && (ok ==> Final(kind, rows[id]) && !rows[id].cipher)
      ensures ok ==> rows[id].status == Sent && rows[id].sent && rows[id].attempts == old(rows)[id].attempts
      ensures AllShaped(kind, old(rows)) ==> AllShaped(kind, rows)
    {
      ok := Sends(rows, id, token);
      if ok {
        rows := rows[id := rows[id].(status := Sent, cipher := false, next := None, lease := None, sent := true)];
      }
    }

    /** The worker's lease is used up either way; the row is due again exactly from the delay of
        its attempt on, and after the fifth attempt never. */
    method RecordFailure(id: Id, token: Token, attempt: nat, at: int) returns (ok: bool)
      modifies this
      ensures ok <==> Sends(old(rows), id, token)
      ensures rows == if ok then old(rows)[id := FailureRow(old(rows)[id], attempt, at)] else old(rows)
      ensures !Sends(rows, id, token) && (ok && MAX_ATTEMPTS <= attempt ==> Final(kind, rows[id]))
      ensures ok && attempt == old(rows)[id].attempts < MAX_ATTEMPTS ==> DueFrom(kind, rows[id], at + RetryDelay(attempt))
      ensures ok ==> rows[id].status == (if attempt < 5 then Pending else Failed) && rows[id].attempts == old(rows)[id].attempts
      ensures AllShaped(kind, old(rows)) ==> AllShaped(kind, rows)
    {
      var status, next := Failed, None;
      if attempt < MAX_ATTEMPTS {
        status, next := Pending, Some(at + RetryDelay(attempt));
      }
      ok := Sends(rows, id, token);
      if ok {
        rows := rows[id := rows[id].(status := status, next := next, lease := None)];
      }
    }

    /** The worker's lease is used up either way; a cancelled row has lost its token and is never
        picked or swept again. */
    method CancelClaim(id: Id, token: Token) returns (ok: bool)
      requires !kind.Notification?
      modifies this
      ensures ok <==> Sends(old(rows), id, token)
      ensures rows == if ok then old(rows)[id := EarlyCancelledRow(kind, old(rows)[id])] else old(rows)
      ensures ok ==> rows[id].status == Cancelled
      ensures ok && old(rows)[id].attempts > 0 ==> rows[id].attempts == old(rows)[id].attempts - (if kind == Invitation then 1 else 0)
      ensures !Sends(rows, id, token) && (ok ==> Final(kind, rows[id]) && !rows[id].cipher)
      ensures AllShaped(kind, old(rows)) ==> AllShaped(kind, rows)
    {
      ok := Sends(rows, id, token);
      if ok {
        var r := rows[id];
        var attempts := if kind.Invitation? then Decremented(r.attempts) else r.attempts;
        rows := rows[id := r.(status := Cancelled, cipher := false, attempts := attempts, next := None, lease := None)];
      }
    }

    /** The worker's lease is used up either way; the row is due at once and its next claim counts
        as the same attempt. */
    method Release(id: Id, token: Token, at: int) returns (ok: bool)
      modifies this
      ensures ok <==> Sends(old(rows), id, token)
      ensures rows == if ok then old(rows)[id := ReleasedRow(old(rows)[id], at)] else old(rows)
      ensures !Sends(rows, id, token)
      ensures ok && 0 < old(rows)[id].attempts <= MAX_ATTEMPTS ==>
                DueFrom(kind, rows[id], at)
                && forall u: Token, now: int :: ClaimedRow(rows[id], u, now).attempts == old(rows)[id].attempts
      ensures AllShaped(kind, old(rows)) ==> AllShaped(kind, rows)
    {
      ok := Sends(rows, id, token);
      if ok {
        rows := rows[id := rows[id].(status := Pending, attempts := Decremented(rows[id].attempts), next := Some(at), lease := None)];
      }
    }
  }
}
