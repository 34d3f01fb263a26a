/**
 What every run of every outbox keeps: the row shape, the accounting of attempts against
 claims, at most five accepted copies each time a row is armed, leases that stay lost once
 lost, and retry delays that no dispatcher step cuts short.
 */
module OutboxSafety {
  import opened Collections
  import opened Options
  import opened Outbox
  import opened OutboxMachine

  // ---------------------------------------------------------------- the invariant

  ghost predicate Shapes(kind: Kind, rows: Rows) { forall id <- rows.Keys :: Shape(kind, rows[id]) }

  /** A lease names an unfinished, counted claim of the row's current arming, which read the
      attempt count the row still has. */
  ghost predicate Holders(s: State) {
    forall id <- s.rows.Keys | s.rows[id].lease.Some? ::
      var t := s.rows[id].lease.value.token;
      t in s.workers && s.workers[t].id == id && s.workers[t].epoch == Epoch(s, id)
      && s.workers[t].counted && !s.workers[t].finished && s.workers[t].attempt == s.rows[id].attempts
  }

  ghost predicate Claims(s: State) {
    (forall t <- s.workers.Keys ::
       s.workers[t].id in s.rows && s.workers[t].epoch <= Epoch(s, s.workers[t].id)
       && (s.workers[t].accepted ==> s.workers[t].counted) && (!s.workers[t].counted ==> s.workers[t].finished))
    && forall id <- s.epochs.Keys :: id in s.rows
  }

  /** Claims of one arming of a row that were not taken back. */
  function Counted(s: State, id: Id, epoch: nat): set<Token> {
    set t <- s.workers.Keys | s.workers[t].id == id && s.workers[t].epoch == epoch && s.workers[t].counted
  }

  function AcceptedCopies(s: State, id: Id, epoch: nat): set<Token> {
    set t <- s.workers.Keys | s.workers[t].id == id && s.workers[t].epoch == epoch && s.workers[t].accepted
  }

  ghost predicate Accounts(s: State) {
    (forall id <- s.rows.Keys :: |Counted(s, id, Epoch(s, id))| == s.rows[id].attempts)
    && forall id: Id, epoch: nat :: |Counted(s, id, epoch)| <= MAX_ATTEMPTS
  }

  ghost predicate Inv(kind: Kind, s: State) { Shapes(kind, s.rows) && Holders(s) && Claims(s) && Accounts(s) }

  lemma SameClaims(s: State, s': State)
    requires s'.workers.Keys == s.workers.Keys
    requires forall t <- s.workers.Keys ::
               s'.workers[t].id == s.workers[t].id && s'.workers[t].epoch == s.workers[t].epoch
               && s'.workers[t].counted == s.workers[t].counted
    ensures forall id: Id, epoch: nat :: Counted(s', id, epoch) == Counted(s, id, epoch)
  {
  }

  lemma SameAccounts(s: State, s': State)
    requires Accounts(s) && s'.workers.Keys == s.workers.Keys && s'.rows.Keys == s.rows.Keys && s'.epochs == s.epochs
    requires forall t <- s.workers.Keys ::
               s'.workers[t].id == s.workers[t].id && s'.workers[t].epoch == s.workers[t].epoch
               && s'.workers[t].counted == s.workers[t].counted
    requires forall id <- s.rows.Keys :: s'.rows[id].attempts == s.rows[id].attempts
    ensures Accounts(s')
  {
    SameClaims(s, s');
  }

  // ---------------------------------------------------------------- steps that rewrite rows only

  /** Rows change in place, keeping their attempts, and leases only disappear. */
  ghost predicate RowsRewritten(kind: Kind, s: State, s': State) {
    s' == s.(rows := s'.rows) && s'.rows.Keys == s.rows.Keys && Shapes(kind, s'.rows)
    && forall id <- s.rows.Keys ::
         s'.rows[id].attempts == s.rows[id].attempts
         && (s'.rows[id].lease == s.rows[id].lease || s'.rows[id].lease.None?)
  }

  lemma RewrittenKeeps(kind: Kind, s: State, s': State)
    requires Inv(kind, s) && RowsRewritten(kind, s, s')
    ensures Inv(kind, s')
  {
    hide Accounts;
    assert Holders(s') && Claims(s');
    SameAccounts(s, s');
  }

  lemma SweepRewrites(kind: Kind, s: State, at: int, expired: set<Id>)
    requires Shapes(kind, s.rows)
    ensures RowsRewritten(kind, s, s.(rows := Swept(kind, s.rows, at, expired)))
  {
  }

  lemma OutsideRewrites(kind: Kind, s: State, ids: set<Id>)
    requires Shapes(kind, s.rows)
    ensures RowsRewritten(kind, s, DoCancelOutside(kind, s, ids))
  {
  }

  // ---------------------------------------------------------------- arming

  lemma ArmKeeps(kind: Kind, s: State, id: Id, at: int, created: int)
    requires Inv(kind, s) && id !in s.rows
    ensures Inv(kind, DoArm(kind, s, id, at, created))
  {
    hide Accounts;
    assert Holders(DoArm(kind, s, id, at, created)) && Claims(DoArm(kind, s, id, at, created));
    ArmAccounts(kind, s, id, at, created);
  }

  lemma ArmAccounts(kind: Kind, s: State, id: Id, at: int, created: int)
    requires Claims(s) && Accounts(s) && id !in s.rows
    ensures Accounts(DoArm(kind, s, id, at, created))
  {
    var s' := DoArm(kind, s, id, at, created);
    SameClaims(s, s');
    assert Counted(s', id, 0) == {};
  }

  lemma RearmKeeps(kind: Kind, s: State, id: Id, at: int)
    requires Inv(kind, s) && id in s.rows
    ensures Inv(kind, DoRearm(kind, s, id, at))
  {
    hide Accounts;
    assert Holders(DoRearm(kind, s, id, at)) && Claims(DoRearm(kind, s, id, at));
    RearmAccounts(kind, s, id, at);
  }

  lemma RearmAccounts(kind: Kind, s: State, id: Id, at: int)
    requires Claims(s) && Accounts(s) && id in s.rows
    ensures Accounts(DoRearm(kind, s, id, at))
  {
    var s' := DoRearm(kind, s, id, at);
    SameClaims(s, s');
    assert Counted(s', id, Epoch(s, id) + 1) == {};
  }

  // ---------------------------------------------------------------- claiming

  lemma InvParts(kind: Kind, s: State)
    requires Inv(kind, s)
    ensures Shapes(kind, s.rows) && Holders(s) && Claims(s) && Accounts(s)
  {
  }

  lemma ClaimKeeps(kind: Kind, s: State, t: Token, pick: Option<Id>, at: int, expired: set<Id>)
    requires Inv(kind, s) && t !in s.workers
    requires var swept := Swept(kind, s.rows, at, expired);
             match pick case None => NoneDue(kind, swept, at) case Some(id) => FirstDue(kind, swept, at, id)
    ensures Inv(kind, DoClaim(kind, s, t, pick, at, expired))
  {
    hide Inv, Swept;
    assert Shapes(kind, s.rows) by { InvParts(kind, s); }
    SweepRewrites(kind, s, at, expired);
    var s1 := s.(rows := Swept(kind, s.rows, at, expired));
    RewrittenKeeps(kind, s, s1);
    if pick.Some? && !ClaimAborts(kind, s1.rows, pick) {
      PickedHasAttemptsLeft(kind, s1.rows[pick.value], at);
      ClaimRowKeeps(kind, s1, t, pick.value, at);
    }
  }

  function Claimed(s: State, t: Token, id: Id, at: int): State
    requires id in s.rows
  {
    s.(rows := s.rows[id := ClaimedRow(s.rows[id], t, at)],
       workers := s.workers[t := Worker(id, Epoch(s, id), s.rows[id].attempts + 1, false, false, true)])
  }

  lemma ClaimRowKeeps(kind: Kind, s: State, t: Token, id: Id, at: int)
    requires Inv(kind, s) && t !in s.workers && id in s.rows && s.rows[id].attempts < MAX_ATTEMPTS
    requires DueSince(kind, s.rows[id], at).Some?
    ensures Inv(kind, Claimed(s, t, id, at))
  {
    hide Accounts;
    assert Shapes(kind, Claimed(s, t, id, at).rows) && Holders(Claimed(s, t, id, at)) && Claims(Claimed(s, t, id, at));
    ClaimRowAccounts(s, t, id, at);
  }

  lemma CountedAfterClaim(s: State, t: Token, id: Id, at: int, k: Id, epoch: nat)
    requires t !in s.workers && id in s.rows
    ensures Counted(Claimed(s, t, id, at), k, epoch)
            == if k == id && epoch == Epoch(s, id) then Counted(s, k, epoch) + {t} else Counted(s, k, epoch)
    ensures t !in Counted(s, k, epoch)
  {
  }

  lemma ClaimRowAccounts(s: State, t: Token, id: Id, at: int)
    requires Accounts(s) && t !in s.workers && id in s.rows && s.rows[id].attempts < MAX_ATTEMPTS
    ensures Accounts(Claimed(s, t, id, at))
  {
    hide Counted;
    var s' := Claimed(s, t, id, at);
    forall k: Id, epoch: nat
      ensures |Counted(s', k, epoch)| == |Counted(s, k, epoch)| + if k == id && epoch == Epoch(s, id) then 1 else 0
    {
      CountedAfterClaim(s, t, id, at, k, epoch);
    }
  }

  // ---------------------------------------------------------------- completions

  lemma FinishedKeeps(kind: Kind, s: State, t: Token)
    requires Inv(kind, s) && t in s.workers && !Holds(s, t)
    ensures Inv(kind, Finished(s, t))
  {
    hide Accounts;
    var s' := Finished(s, t);
    assert Holders(s') && Claims(s');
    SameAccounts(s, s');
  }

  lemma CompleteKeeps(kind: Kind, s: State, t: Token, r: Row)
    requires Inv(kind, s) && t in s.workers
    requires Holds(s, t) ==> Shape(kind, r) && r.lease.None? && r.attempts == HeldRow(s, t).attempts
    ensures Inv(kind, Complete(s, t, r))
  {
    if Holds(s, t) {
      var s1 := s.(rows := s.rows[s.workers[t].id := r]);
      RewrittenKeeps(kind, s, s1);
      assert !Holds(s1, t);
      FinishedKeeps(kind, s1, t);
    } else {
      FinishedKeeps(kind, s, t);
    }
  }

  lemma UncountKeeps(kind: Kind, s: State, t: Token, r: Row)
    requires Inv(kind, s) && Busy(s, t)
    requires Holds(s, t) ==> Shape(kind, r) && r.lease.None? && r.attempts == Decremented(HeldRow(s, t).attempts)
    ensures Inv(kind, Uncount(s, t, r))
  {
    if Holds(s, t) {
      assert Shapes(kind, Uncount(s, t, r).rows) && Holders(Uncount(s, t, r)) && Claims(Uncount(s, t, r));
      UncountAccounts(kind, s, t, r);
    } else {
      FinishedKeeps(kind, s, t);
    }
  }

  lemma UncountAccounts(kind: Kind, s: State, t: Token, r: Row)
    requires Holders(s) && Accounts(s) && Holds(s, t) && r.attempts == Decremented(HeldRow(s, t).attempts)
    ensures Accounts(Uncount(s, t, r))
  {
    var s' := Uncount(s, t, r);
    var id, epoch := s.workers[t].id, s.workers[t].epoch;
    assert t in Counted(s, id, epoch);
    forall k: Id, e: nat
      ensures Counted(s', k, e) == if k == id && e == epoch then Counted(s, k, e) - {t} else Counted(s, k, e)
    {
    }
  }

  lemma AcceptKeeps(kind: Kind, s: State, t: Token)
    requires Inv(kind, s) && Busy(s, t)
    ensures Inv(kind, s.(workers := s.workers[t := s.workers[t].(accepted := true)]))
  {
    hide Accounts;
    var s' := s.(workers := s.workers[t := s.workers[t].(accepted := true)]);
    assert Holders(s') && Claims(s');
    SameAccounts(s, s');
  }

  // ---------------------------------------------------------------- every step, every run

  lemma MarkSentKeeps(kind: Kind, s: State, t: Token)
    requires Inv(kind, s) && t in s.workers
    ensures Inv(kind, Complete(s, t, SentRow(HeldRow(s, t))))
  {
    if Holds(s, t) {
      StatementsKeepShape(kind, HeldRow(s, t), t, 0, 0);
    }
    CompleteKeeps(kind, s, t, SentRow(HeldRow(s, t)));
  }

  lemma FailureKeeps(kind: Kind, s: State, t: Token, at: int)
    requires Inv(kind, s) && t in s.workers
    ensures Inv(kind, Complete(s, t, FailureRow(HeldRow(s, t), s.workers[t].attempt, at)))
    ensures Inv(kind, Complete(s, t, FailedRow(HeldRow(s, t))))
  {
    if Holds(s, t) {
      StatementsKeepShape(kind, HeldRow(s, t), t, s.workers[t].attempt, at);
    }
    CompleteKeeps(kind, s, t, FailureRow(HeldRow(s, t), s.workers[t].attempt, at));
    CompleteKeeps(kind, s, t, FailedRow(HeldRow(s, t)));
  }

  lemma CancelKeeps(kind: Kind, s: State, t: Token)
    requires Inv(kind, s) && Busy(s, t) && !kind.Notification?
    ensures Inv(kind, DoCancelClaim(kind, s, t))
  {
    var r := EarlyCancelledRow(kind, HeldRow(s, t));
    if Holds(s, t) {
      StatementsKeepShape(kind, HeldRow(s, t), t, 0, 0);
    }
    if kind.Invitation? {
      UncountKeeps(kind, s, t, r);
    } else {
      CompleteKeeps(kind, s, t, r);
    }
  }

  lemma ReleaseKeeps(kind: Kind, s: State, t: Token, at: int)
    requires Inv(kind, s) && Busy(s, t)
    ensures Inv(kind, Uncount(s, t, ReleasedRow(HeldRow(s, t), at)))
  {
    if Holds(s, t) {
      StatementsKeepShape(kind, HeldRow(s, t), t, 0, at);
    }
    UncountKeeps(kind, s, t, ReleasedRow(HeldRow(s, t), at));
  }

  lemma StepKeeps(kind: Kind, s: State, a: Action)
    requires Inv(kind, s) && Can(kind, s, a)
    ensures Inv(kind, Do(kind, s, a))
  {
    hide Shapes, Holders, Claims, Accounts;
    match a {
      case Tick(elapsed) => SameRows(kind, s, Do(kind, s, a));
      case Arm(id, at, created) => ArmKeeps(kind, s, id, at, created);
      case Rearm(id, at) => RearmKeeps(kind, s, id, at);
      case CancelOutside(ids) =>
        OutsideRewrites(kind, s, ids);
        RewrittenKeeps(kind, s, DoCancelOutside(kind, s, ids));
      case Claim(t, pick, at, expired) => ClaimKeeps(kind, s, t, pick, at, expired);
      case Accept(t) => AcceptKeeps(kind, s, t);
      case MarkSent(t) => MarkSentKeeps(kind, s, t);
      case RecordFailure(t, at) => FailureKeeps(kind, s, t, at);
      case CancelClaim(t) => CancelKeeps(kind, s, t);
      case Undeliverable(t) => FailureKeeps(kind, s, t, 0);
      case Release(t, at) => ReleaseKeeps(kind, s, t, at);
    }
  }

  lemma SameRows(kind: Kind, s: State, s': State)
    requires Inv(kind, s) && s' == s.(clock := s'.clock)
    ensures Inv(kind, s')
  {
    hide Accounts;
    assert Holders(s') && Claims(s');
    SameAccounts(s, s');
  }

  lemma {:induction false} RunSafe(kind: Kind, states: seq<State>, actions: seq<Action>, i: nat)
    requires Run(kind, states, actions) && i < |states|
    ensures Inv(kind, states[i])
  {
    hide Do, Can;
    if i == 0 {
      forall id: Id, epoch: nat ensures Counted(states[0], id, epoch) == {} {
      }
    } else {
      RunSafe(kind, states, actions, i - 1);
      StepKeeps(kind, states[i - 1], actions[i - 1]);
    }
  }

  /** In every state of every run of every outbox, the relay has accepted at most five copies of
      a message for each time its row was armed, and the row's attempt count is the number of
      claims since then that were not released or cancelled early. */
  lemma AtMostFiveCopies(kind: Kind, states: seq<State>, actions: seq<Action>, i: nat, id: Id, epoch: nat)
    requires Run(kind, states, actions) && i < |states|
    ensures |AcceptedCopies(states[i], id, epoch)| <= MAX_ATTEMPTS
    ensures id in states[i].rows ==>
              states[i].rows[id].attempts == |Counted(states[i], id, Epoch(states[i], id))|
              && AcceptedCopies(states[i], id, Epoch(states[i], id)) <= Counted(states[i], id, Epoch(states[i], id))
  {
    hide Do, Can;
    RunSafe(kind, states, actions, i);
    var s := states[i];
    SubsetSize(AcceptedCopies(s, id, epoch), Counted(s, id, epoch));
  }

  // ---------------------------------------------------------------- lost leases

  predicate ByWorker(a: Action, t: Token) {
    (a.MarkSent? || a.RecordFailure? || a.CancelClaim? || a.Undeliverable? || a.Release?) && a.token == t
  }

  /** A worker that lost its lease, by expiry, requeue, cancellation or re-arming, writes no row. */
  lemma LostWritesNothing(kind: Kind, s: State, a: Action, t: Token)
    requires Can(kind, s, a) && ByWorker(a, t) && !Holds(s, t)
    ensures Do(kind, s, a).rows == s.rows
  {
  }

  lemma SweepOnlyLoses(kind: Kind, rows: Rows, at: int, expired: set<Id>, id: Id)
    requires id in rows
    ensures var r := Swept(kind, rows, at, expired)[id]; r.lease == rows[id].lease || r.lease.None?
  {
  }

  lemma ClaimGivesAway(kind: Kind, s: State, u: Token, pick: Option<Id>, at: int, expired: set<Id>, t: Token)
    requires t in s.workers && u !in s.workers && !Holds(s, t) && (pick.Some? ==> pick.value in s.rows)
    ensures t in DoClaim(kind, s, u, pick, at, expired).workers && !Holds(DoClaim(kind, s, u, pick, at, expired), t)
  {
    hide SweptRow, CancelledRow;
    if s.workers[t].id in s.rows {
      SweepOnlyLoses(kind, s.rows, at, expired, s.workers[t].id);
    }
  }

  /** A lease once lost is never regained. */
  lemma LostStaysLost(kind: Kind, s: State, a: Action, t: Token)
    requires Holders(s) && Can(kind, s, a) && t in s.workers && !Holds(s, t)
    ensures t in Do(kind, s, a).workers && !Holds(Do(kind, s, a), t)
  {
    hide Swept;
    if a.Claim? {
      ClaimGivesAway(kind, s, a.token, a.pick, a.at, a.expired, t);
    }
  }

  lemma {:induction false} LostForever(kind: Kind, states: seq<State>, actions: seq<Action>, i: nat, j: nat, t: Token)
    requires Run(kind, states, actions) && i <= j < |states|
    requires t in states[i].workers && !Holds(states[i], t)
    ensures t in states[j].workers && !Holds(states[j], t)
    ensures j < |actions| && ByWorker(actions[j], t) ==> states[j + 1].rows == states[j].rows
    decreases j - i
  {
    hide Do, Can, Holds;
    if i < j {
      LostForever(kind, states, actions, i, j - 1, t);
      RunSafe(kind, states, actions, j - 1);
      LostStaysLost(kind, states[j - 1], actions[j - 1], t);
    }
    if j < |actions| && ByWorker(actions[j], t) {
      LostWritesNothing(kind, states[j], actions[j], t);
    }
  }

  // ---------------------------------------------------------------- retry delays

  /** Not in flight, and if waiting then not due before `n`. */
  predicate Resting(rows: Rows, id: Id, n: int) {
    id in rows && !rows[id].status.Sending? && (rows[id].status.Pending? ==> rows[id].next.Some? && n <= rows[id].next.value)
  }

  predicate Disturbs(a: Action, id: Id, n: int) {
    (a.Rearm? && a.id == id) || (a.Claim? && a.pick == Some(id) && n <= a.at)
  }

  lemma SweepRests(kind: Kind, s: State, at: int, expired: set<Id>, id: Id, n: int)
    requires Resting(s.rows, id, n)
    ensures Resting(Swept(kind, s.rows, at, expired), id, n)
    ensures at < n ==> DueSince(kind, Swept(kind, s.rows, at, expired)[id], at).None?
  {
  }

  lemma StepRests(kind: Kind, s: State, a: Action, id: Id, n: int)
    requires Shapes(kind, s.rows) && Can(kind, s, a) && Resting(s.rows, id, n) && !Disturbs(a, id, n)
    ensures Resting(Do(kind, s, a).rows, id, n)
    ensures a.Claim? ==> a.pick != Some(id)
  {
    hide Swept, DueSince;
    if a.Claim? {
      SweepRests(kind, s, a.at, a.expired, id, n);
    }
  }

  lemma {:induction false} RunRests(kind: Kind, states: seq<State>, actions: seq<Action>, i: nat, j: nat, id: Id, n: int)
    requires Run(kind, states, actions) && i <= j < |states| && Resting(states[i].rows, id, n)
    requires forall k :: i <= k < j ==> !Disturbs(actions[k], id, n)
    ensures Resting(states[j].rows, id, n)
    ensures forall k :: i <= k < j && actions[k].Claim? ==> actions[k].pick != Some(id)
    decreases j - i
  {
    hide Do, Can, Resting;
    if i < j {
      RunRests(kind, states, actions, i, j - 1, id, n);
      RunSafe(kind, states, actions, j - 1);
      StepRests(kind, states[j - 1], actions[j - 1], id, n);
    }
  }

  /** After the k-th recorded failure of a row the next claim of it has a clock reading at
      least the k-th retry delay later, unless an outside writer re-armed the row meanwhile. */
  lemma RetryDelayRespected(kind: Kind, states: seq<State>, actions: seq<Action>, i: nat, j: nat, id: Id)
    requires Run(kind, states, actions) && i < j < |actions|
    requires actions[i].RecordFailure? && Holds(states[i], actions[i].token) && states[i].workers[actions[i].token].id == id
    requires actions[j].Claim? && actions[j].pick == Some(id)
    requires forall k :: i < k < j ==>
               !(actions[k].Rearm? && actions[k].id == id) && !(actions[k].Claim? && actions[k].pick == Some(id))
    ensures actions[i].at + RetryDelay(states[i].rows[id].attempts) <= actions[j].at
  {
    hide Resting, Do, Can;
    RunSafe(kind, states, actions, i);
    var n := actions[i].at + RetryDelay(states[i].rows[id].attempts);
    FailureRests(kind, states[i], actions[i], id);
    RunRests(kind, states, actions, i + 1, j, id, n);
    if actions[j].at < n {
      RunRests(kind, states, actions, i + 1, j + 1, id, n);
    }
  }

  lemma FailureRests(kind: Kind, s: State, a: Action, id: Id)
    requires Holders(s) && Can(kind, s, a) && a.RecordFailure? && Holds(s, a.token) && s.workers[a.token].id == id
    ensures Resting(Do(kind, s, a).rows, id, a.at + RetryDelay(s.rows[id].attempts))
  {
  }

  // ---------------------------------------------------------------- leases last

  /** In flight for worker `t` until `until`; if waiting, then not due before. */
  predicate LeasedUntil(rows: Rows, id: Id, t: Token, until: int) {
    id in rows && (rows[id].status.Sending? ==> rows[id].lease == Some(Lease(t, until)))
    && (rows[id].status.Pending? ==> rows[id].next.Some? && until <= rows[id].next.value)
    && (!rows[id].status.Sending? ==> rows[id].lease.None?)
  }

  /** The worker finishes, the row is armed anew or claimed again. */
  predicate Frees(a: Action, id: Id, t: Token) {
    (a.Rearm? && a.id == id) || (a.Claim? && a.pick == Some(id)) || ByWorker(a, t)
  }

  lemma SweepKeepsLease(kind: Kind, rows: Rows, at: int, expired: set<Id>, id: Id, t: Token, until: int)
    requires LeasedUntil(rows, id, t, until)
    ensures LeasedUntil(Swept(kind, rows, at, expired), id, t, until)
    ensures DueSince(kind, Swept(kind, rows, at, expired)[id], at).Some? ==> until <= at
  {
  }

  lemma StepKeepsLease(kind: Kind, s: State, a: Action, id: Id, t: Token, until: int)
    requires Can(kind, s, a) && LeasedUntil(s.rows, id, t, until) && !Frees(a, id, t)
    ensures LeasedUntil(Do(kind, s, a).rows, id, t, until)
  {
    hide Swept, DueSince;
    if a.Claim? {
      SweepKeepsLease(kind, s.rows, a.at, a.expired, id, t, until);
    }
  }

  lemma ClaimLeases(kind: Kind, s: State, a: Action, id: Id)
    requires Can(kind, s, a) && a.Claim? && a.pick == Some(id) && a.token in Do(kind, s, a).workers
    ensures LeasedUntil(Do(kind, s, a).rows, id, a.token, a.at + LEASE)
  {
    hide Swept, DueSince;
  }

  lemma {:induction false} LeaseLasts(kind: Kind, states: seq<State>, actions: seq<Action>, i: nat, j: nat, id: Id, t: Token)
    requires Run(kind, states, actions) && i < j < |states|
    requires actions[i].Claim? && actions[i].pick == Some(id) && actions[i].token == t && t in states[i + 1].workers
    requires forall k :: i < k < j ==> !Frees(actions[k], id, t)
    ensures LeasedUntil(states[j].rows, id, t, actions[i].at + LEASE)
    decreases j
  {
    hide LeasedUntil, Do, Frees, Can;
    if j == i + 1 {
      ClaimLeases(kind, states[i], actions[i], id);
    } else {
      LeaseLasts(kind, states, actions, i, j - 1, id, t);
      StepKeepsLease(kind, states[j - 1], actions[j - 1], id, t, actions[i].at + LEASE);
    }
  }

  /** A claimed row is not claimed again before one lease has passed since the claim's clock
      reading, unless its worker finished with it or it was armed anew. */
  lemma LeaseRespected(kind: Kind, states: seq<State>, actions: seq<Action>, i: nat, j: nat, id: Id, t: Token)
    requires Run(kind, states, actions) && i < j < |actions|
    requires actions[i].Claim? && actions[i].pick == Some(id) && actions[i].token == t && t in states[i + 1].workers
    requires actions[j].Claim? && actions[j].pick == Some(id) && forall k :: i < k < j ==> !Frees(actions[k], id, t)
    ensures actions[i].at + LEASE <= actions[j].at
  {
    hide Do, LeasedUntil, Frees, Swept, DueSince;
    LeaseLasts(kind, states, actions, i, j, id, t);
    SweepKeepsLease(kind, states[j].rows, actions[j].at, actions[j].expired, id, t, actions[i].at + LEASE);
  }
}
