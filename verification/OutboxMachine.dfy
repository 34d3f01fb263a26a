/**
 One outbox with its dispatcher's workers and the writers outside it.  Statements are atomic;
 workers stall or die anywhere, their leases expire, and a relay may accept a message whose
 worker has long lost its lease.  `at` parameters are clock readings, possibly stale.
 */
module OutboxMachine {
  import opened Options
  import opened Outbox

  /** One claim.  `epoch` counts how often the row had been armed before, `attempt` is the
      attempt number it read, `counted` whether the row's attempt count still includes it. */
  datatype Worker = Worker(id: Id, epoch: nat, attempt: nat, accepted: bool, finished: bool, counted: bool)

  datatype State = State(clock: int, rows: Rows, workers: map<Token, Worker>, epochs: map<Id, nat>)

  datatype Action =
    | Tick(elapsed: nat)
    | Arm(id: Id, at: int, created: int)
    | Rearm(id: Id, at: int)
    | CancelOutside(ids: set<Id>)
    | Claim(token: Token, pick: Option<Id>, at: int, expired: set<Id>)
    | Accept(token: Token)
    | MarkSent(token: Token)
    | RecordFailure(token: Token, at: int)
    | CancelClaim(token: Token)
    | Undeliverable(token: Token)
    | Release(token: Token, at: int)

  function Epoch(s: State, id: Id): nat { if id in s.epochs then s.epochs[id] else 0 }

  predicate Init(s: State) { s.rows == map[] && s.workers == map[] && s.epochs == map[] }

  predicate Holds(s: State, t: Token) {
    t in s.workers && s.workers[t].id in s.rows
    && s.rows[s.workers[t].id].lease.Some? && s.rows[s.workers[t].id].lease.value.token == t
  }

  predicate Busy(s: State, t: Token) { t in s.workers && !s.workers[t].finished && !s.workers[t].accepted }

  /** Rows an outside writer may re-arm: a public-join resend takes any row, an invitation retry
      or renewal any row that is not waiting or in flight; the other two are never re-armed. */
  predicate Rearmable(kind: Kind, r: Row) {
    kind.PublicJoin? || (kind.Invitation? && !r.status.Pending? && !r.status.Sending?)
  }

  predicate Can(kind: Kind, s: State, a: Action) {
    match a
    case Tick(_) => true
    case Arm(id, at, _) => id !in s.rows && at <= s.clock
    case Rearm(id, at) => id in s.rows && Rearmable(kind, s.rows[id]) && at <= s.clock
    case CancelOutside(ids) => true
    case Claim(t, pick, at, expired) =>
      t !in s.workers && at <= s.clock
      && (var swept := Swept(kind, s.rows, at, expired);
          match pick case None => NoneDue(kind, swept, at) case Some(id) => FirstDue(kind, swept, at, id))
    case Accept(t) => Busy(s, t)
    case MarkSent(t) => t in s.workers && s.workers[t].accepted && !s.workers[t].finished
    case RecordFailure(t, at) => Busy(s, t) && at <= s.clock
    case CancelClaim(t) => Busy(s, t) && !kind.Notification?
    case Undeliverable(t) => Busy(s, t) && kind.Notification?
    case Release(t, at) => Busy(s, t) && at <= s.clock
  }

  function DoArm(kind: Kind, s: State, id: Id, at: int, created: int): State {
    s.(rows := s.rows[id := ArmedRow(kind, at, created)], epochs := s.epochs[id := 0])
  }

  function DoRearm(kind: Kind, s: State, id: Id, at: int): State
    requires id in s.rows
  {
    s.(rows := s.rows[id := ArmedRow(kind, at, s.rows[id].created)], epochs := s.epochs[id := Epoch(s, id) + 1])
  }

  /** Replaced, consumed, revoked or archived: unsent mail is cancelled; notification jobs, which
      know no such status, fail instead, and only if they were not failed already. */
  function OutsideRow(kind: Kind, r: Row): Row {
    if kind.Notification? then if r.status.Pending? || r.status.Sending? then FailedRow(r) else r
    else if Unsent(r) then CancelledRow(r) else r
  }

  function DoCancelOutside(kind: Kind, s: State, ids: set<Id>): State {
    s.(rows := map id <- s.rows.Keys :: if id in ids then OutsideRow(kind, s.rows[id]) else s.rows[id])
  }

  predicate ClaimAborts(kind: Kind, rows: Rows, pick: Option<Id>) {
    pick.Some? && pick.value in rows && AttemptLimit(kind) < rows[pick.value].attempts + 1
  }

  /** A claim that would pass the CHECK on the attempt count rolls back as a whole. */
  function DoClaim(kind: Kind, s: State, t: Token, pick: Option<Id>, at: int, expired: set<Id>): State
    requires pick.Some? ==> pick.value in s.rows
  {
    var swept := Swept(kind, s.rows, at, expired);
    if ClaimAborts(kind, swept, pick) then s
    else match pick
      case None => s.(rows := swept)
      case Some(id) =>
        s.(rows := swept[id := ClaimedRow(swept[id], t, at)],
           workers := s.workers[t := Worker(id, Epoch(s, id), swept[id].attempts + 1, false, false, true)])
  }

  function Finished(s: State, t: Token): State
    requires t in s.workers
  {
    s.(workers := s.workers[t := s.workers[t].(finished := true)])
  }

  /** A guarded completion: it takes effect only while the worker holds the row's lease. */
  function Complete(s: State, t: Token, r: Row): State
    requires t in s.workers
  {
    if Holds(s, t) then Finished(s, t).(rows := s.rows[s.workers[t].id := r]) else Finished(s, t)
  }

  /** An effective completion that takes the claim back from the row's attempt count. */
  function Uncount(s: State, t: Token, r: Row): State
    requires t in s.workers
  {
    if Holds(s, t) then Complete(s, t, r).(workers := s.workers[t := s.workers[t].(finished := true, counted := false)])
    else Finished(s, t)
  }

  function HeldRow(s: State, t: Token): Row {
    if Holds(s, t) then s.rows[s.workers[t].id] else Row(Failed, 0, None, None, false, false, 0)
  }

  function DoCancelClaim(kind: Kind, s: State, t: Token): State
    requires t in s.workers
  {
    var r := EarlyCancelledRow(kind, HeldRow(s, t));
    if kind.Invitation? then Uncount(s, t, r) else Complete(s, t, r)
  }

  function Do(kind: Kind, s: State, a: Action): State
    requires Can(kind, s, a)
  {
    match a
    case Tick(elapsed) => s.(clock := s.clock + elapsed)
    case Arm(id, at, created) => DoArm(kind, s, id, at, created)
    case Rearm(id, at) => DoRearm(kind, s, id, at)
    case CancelOutside(ids) => DoCancelOutside(kind, s, ids)
    case Claim(t, pick, at, expired) => DoClaim(kind, s, t, pick, at, expired)
    case Accept(t) => s.(workers := s.workers[t := s.workers[t].(accepted := true)])
    case MarkSent(t) => Complete(s, t, SentRow(HeldRow(s, t)))
    case RecordFailure(t, at) => Complete(s, t, FailureRow(HeldRow(s, t), s.workers[t].attempt, at))
    case CancelClaim(t) => DoCancelClaim(kind, s, t)
    case Undeliverable(t) => Complete(s, t, FailedRow(HeldRow(s, t)))
    case Release(t, at) => Uncount(s, t, ReleasedRow(HeldRow(s, t), at))
  }

  ghost predicate Run(kind: Kind, states: seq<State>, actions: seq<Action>) {
    |states| == |actions| + 1 && Init(states[0])
    && forall i :: 0 <= i < |actions| ==>
         Can(kind, states[i], actions[i]) && states[i + 1] == Do(kind, states[i], actions[i])
  }
}
