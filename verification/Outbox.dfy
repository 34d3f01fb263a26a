/**
 The four e-mail outboxes at row level: what each claim statement sweeps and picks, and what
 each completion statement writes.  The invitation, account-security, notification and
 public-join dispatchers share the row and the lease; their claim and cancel rules differ.
 */
module Outbox {
  import opened Options

  type Id = nat
  type Token = nat

  datatype Kind = Invitation | AccountSecurity | Notification | PublicJoin
  datatype Status = Pending | Sending | Sent | Failed | Cancelled
  datatype Lease = Lease(token: Token, until: int)

  /** `cipher` says whether the sealed token is present, `sent` whether sent_at is set. */
  datatype Row = Row(status: Status, attempts: nat, next: Option<int>, lease: Option<Lease>, cipher: bool, sent: bool,
                     created: int)

  type Rows = map<Id, Row>

  const MINUTE: int := 60_000_000_000
  const MAX_ATTEMPTS: nat := 5
  const LEASE: int := 2 * MINUTE

  /** The CHECK on attempt_count; an UPDATE beyond it fails and rolls its transaction back. */
  function AttemptLimit(kind: Kind): nat { if kind.Notification? then 10 else 5 }

  const RETRY_DELAYS: seq<int> := [MINUTE, 5 * MINUTE, 30 * MINUTE, 120 * MINUTE]

  /** The k-th entry after the k-th failure; before the first and after the last the nearest one. */
  function RetryDelay(attempt: int): (d: int)
    ensures 1 <= attempt <= |RETRY_DELAYS| ==> d == RETRY_DELAYS[attempt - 1]
    ensures attempt < 1 ==> d == MINUTE
    ensures |RETRY_DELAYS| < attempt ==> d == 120 * MINUTE
  {
    if attempt < 1 then RETRY_DELAYS[0]
    else
      var index := attempt - 1;
      if index >= |RETRY_DELAYS| then RETRY_DELAYS[|RETRY_DELAYS| - 1] else RETRY_DELAYS[index]
  }

  /** Later failures never wait less. */
  lemma RetryDelaysGrow(a: int, b: int)
    requires a <= b
    ensures MINUTE == RetryDelay(1) <= RetryDelay(a) <= RetryDelay(b) <= RetryDelay(|RETRY_DELAYS|) == 120 * MINUTE
  {
  }

  /** The shape every statement keeps.  Notification jobs carry no sealed token and are never
      cancelled; everywhere else the token is gone exactly when SENT or CANCELLED. */
  predicate Shape(kind: Kind, r: Row) {
    (r.status.Sending? <==> r.lease.Some?)
    && (r.status.Pending? <==> r.next.Some?)
    && (r.status.Sent? <==> r.sent)
    && (if kind.Notification? then !r.cipher && !r.status.Cancelled?
        else (r.cipher <==> !(r.status.Sent? || r.status.Cancelled?)))
    && r.attempts <= MAX_ATTEMPTS
  }

  predicate Expired(r: Row, at: int) { r.status.Sending? && r.lease.Some? && r.lease.value.until <= at }

  predicate Unsent(r: Row) { r.status.Pending? || r.status.Sending? || r.status.Failed? }

  // ---------------------------------------------------------------- row updates

  function FailedRow(r: Row): Row { r.(status := Failed, next := None, lease := None) }

  function RequeuedRow(r: Row, at: int): Row { r.(status := Pending, next := Some(at), lease := None) }

  function CancelledRow(r: Row): Row { r.(status := Cancelled, cipher := false, next := None, lease := None) }

  function ClaimedRow(r: Row, token: Token, at: int): Row {
    r.(status := Sending, attempts := r.attempts + 1, next := None, lease := Some(Lease(token, at + LEASE)))
  }

  function SentRow(r: Row): Row { r.(status := Sent, cipher := false, next := None, lease := None, sent := true) }

  function Decremented(n: nat): nat { if n > 0 then n - 1 else 0 }

  /** Only the invitation dispatcher takes a cancelled claim back from the attempt count. */
  function EarlyCancelledRow(kind: Kind, r: Row): Row {
    CancelledRow(r).(attempts := if kind.Invitation? then Decremented(r.attempts) else r.attempts)
  }

  function ReleasedRow(r: Row, at: int): Row { RequeuedRow(r, at).(attempts := Decremented(r.attempts)) }

  /** The attempt number is the one the worker read when it claimed. */
  function FailureRow(r: Row, attempt: nat, at: int): Row {
    if attempt < MAX_ATTEMPTS then RequeuedRow(r, at + RetryDelay(attempt)) else FailedRow(r)
  }

  function ArmedRow(kind: Kind, at: int, created: int): Row {
    Row(Pending, 0, Some(at), None, !kind.Notification?, false, created)
  }

  // ---------------------------------------------------------------- claim statements

  /** The sweeping statements of one claim, on one row.  An interrupted fifth attempt ends as
      FAILED everywhere but in the public-join outbox, which requeues it. */
  function SweptRow(kind: Kind, r: Row, at: int): Row {
    match kind
    case Invitation =>
      if MAX_ATTEMPTS <= r.attempts && (r.status.Pending? || Expired(r, at)) then FailedRow(r) else r
    case AccountSecurity =>
      if Expired(r, at) then if MAX_ATTEMPTS <= r.attempts then FailedRow(r) else RequeuedRow(r, at) else r
    case Notification =>
      var requeued := if Expired(r, at) then RequeuedRow(r, at) else r;
      if requeued.status.Pending? && MAX_ATTEMPTS <= r.attempts then FailedRow(requeued) else requeued
    case PublicJoin =>
      if Expired(r, at) then RequeuedRow(r, at) else r
  }

  /** `expired` names the account-security rows whose action the same transaction found expired. */
  function Swept(kind: Kind, rows: Rows, at: int, expired: set<Id>): (swept: Rows)
    ensures swept.Keys == rows.Keys
  {
    map id <- rows.Keys ::
      SweptRow(kind, if kind.AccountSecurity? && id in expired && Unsent(rows[id]) then CancelledRow(rows[id]) else rows[id], at)
  }

  /** The first sort key of a row the claim may pick, or None if it may not. */
  function DueSince(kind: Kind, r: Row, at: int): Option<int> {
    if r.status.Pending? && r.next.Some? && r.next.value <= at && (kind.PublicJoin? || r.attempts < MAX_ATTEMPTS)
    then r.next
    else if kind.Invitation? && Expired(r, at) && r.attempts < MAX_ATTEMPTS then Some(r.lease.value.until)
    else None
  }

  predicate Earlier(kind: Kind, a: Row, b: Row, at: int)
    requires DueSince(kind, a, at).Some? && DueSince(kind, b, at).Some?
  {
    var x, y := DueSince(kind, a, at).value, DueSince(kind, b, at).value;
    x < y || (x == y && a.created <= b.created)
  }

  predicate FirstDue(kind: Kind, rows: Rows, at: int, id: Id) {
    id in rows && DueSince(kind, rows[id], at).Some?
    && forall k <- rows.Keys | DueSince(kind, rows[k], at).Some? :: Earlier(kind, rows[id], rows[k], at)
  }

  predicate NoneDue(kind: Kind, rows: Rows, at: int) { forall k <- rows.Keys :: DueSince(kind, rows[k], at).None? }

  // ---------------------------------------------------------------- what a claim does, in columns

  /** A claim may take a message that waits and is due or whose delivery was interrupted, as long as
      it has attempts left; the public-join claim does not look at the attempts. */
  predicate Takeable(kind: Kind, r: Row, at: int) {
    ((r.status == Pending && r.next.Some? && r.next.value <= at) || (r.status == Sending && r.lease.Some? && r.lease.value.until <= at))
    && (kind == PublicJoin || r.attempts < 5)
  }

  /** Its place in the queue: only the invitation claim remembers when an interrupted lease ended. */
  function DueTime(kind: Kind, r: Row, at: int): int {
    if r.status == Pending && r.next.Some? then r.next.value
    else if kind == Invitation && r.lease.Some? then r.lease.value.until else at
  }

  /** Messages without attempts that the sweep fails. */
  predicate Spent(kind: Kind, r: Row, at: int) {
    r.attempts >= 5
    && ((r.status == Sending && r.lease.Some? && r.lease.value.until <= at && kind != PublicJoin)
        || (r.status == Pending && (kind == Invitation || kind == Notification)))
  }

  /** What the sweep makes of a row; `cancelled` says that its action had expired. */
  predicate SweepRight(kind: Kind, r: Row, r': Row, at: int, cancelled: bool) {
    if cancelled && r.status in {Pending, Sending, Failed} then
      r' == Row(Cancelled, r.attempts, None, None, false, r.sent, r.created)
    else if Spent(kind, r, at) then
      r' == Row(Failed, r.attempts, None, None, r.cipher, r.sent, r.created)
    else if kind != Invitation && r.status == Sending && r.lease.Some? && r.lease.value.until <= at then
      r' == Row(Pending, r.attempts, Some(at), None, r.cipher, r.sent, r.created)
    else r' == r
  }

  /** An interrupted or waiting message with attempts left is always due again after the sweep, in
      every outbox; nothing else is. */
  lemma SweptIsDueIff(kind: Kind, rows: Rows, at: int, expired: set<Id>, id: Id)
    requires id in rows
    ensures var r, r' := rows[id], Swept(kind, rows, at, expired)[id];
            var cancelled := kind == AccountSecurity && id in expired;
            SweepRight(kind, r, r', at, cancelled)
            && (DueSince(kind, r', at).Some? <==> Takeable(kind, r, at) && !cancelled)
            && (DueSince(kind, r', at).Some? ==> DueSince(kind, r', at).value == DueTime(kind, r, at))
  {
  }

  /** The claim picks from the old table: the takeable message that is due first, or none only if
      there is none. */
  predicate TakesFirst(kind: Kind, rows: Rows, at: int, expired: set<Id>, pick: Option<Id>) {
    (pick.Some? ==> pick.value in rows && Takeable(kind, rows[pick.value], at) && !(kind == AccountSecurity && pick.value in expired))
    && forall k <- rows.Keys | Takeable(kind, rows[k], at) && !(kind == AccountSecurity && k in expired) ::
         pick.Some?
         && (DueTime(kind, rows[pick.value], at) < DueTime(kind, rows[k], at)
             || (DueTime(kind, rows[pick.value], at) == DueTime(kind, rows[k], at) && rows[pick.value].created <= rows[k].created))
  }

  lemma PickTakesFirst(kind: Kind, rows: Rows, at: int, expired: set<Id>, pick: Option<Id>)
    requires var swept := Swept(kind, rows, at, expired);
             match pick case None => NoneDue(kind, swept, at) case Some(id) => FirstDue(kind, swept, at, id)
    ensures TakesFirst(kind, rows, at, expired, pick)
  {
    hide Swept, DueSince, Takeable, DueTime;
    var swept := Swept(kind, rows, at, expired);
    assert swept.Keys == rows.Keys;
    forall k <- rows.Keys
      ensures DueSince(kind, swept[k], at).Some? <==> Takeable(kind, rows[k], at) && !(kind == AccountSecurity && k in expired)
      ensures DueSince(kind, swept[k], at).Some? ==> DueSince(kind, swept[k], at).value == DueTime(kind, rows[k], at)
      ensures swept[k].created == rows[k].created
    {
      SweptIsDueIff(kind, rows, at, expired, k);
    }
  }

  // ---------------------------------------------------------------- shape

  /** Every statement keeps the row shape, for all four outboxes. */
  lemma StatementsKeepShape(kind: Kind, r: Row, token: Token, attempt: nat, at: int)
    requires Shape(kind, r)
    ensures Shape(kind, SweptRow(kind, r, at))
    ensures DueSince(kind, r, at).Some? && r.attempts < MAX_ATTEMPTS ==> Shape(kind, ClaimedRow(r, token, at))
    ensures r.status.Sending? ==> Shape(kind, SentRow(r)) && Shape(kind, FailureRow(r, attempt, at)) && Shape(kind, ReleasedRow(r, at))
    ensures Unsent(r) && !kind.Notification? ==> Shape(kind, CancelledRow(r)) && Shape(kind, EarlyCancelledRow(kind, r))
    ensures Unsent(r) ==> Shape(kind, FailedRow(r))
  {
  }

  /** Outside the public-join outbox no claim ever picks a row that used up its attempts. */
  lemma PickedHasAttemptsLeft(kind: Kind, r: Row, at: int)
    requires DueSince(kind, r, at).Some?
    ensures r.attempts < MAX_ATTEMPTS || kind.PublicJoin?
  {
  }
}
