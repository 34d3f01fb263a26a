/**
 The public-join outbox differs from the other three: its claim requeues every interrupted
 delivery and picks rows without looking at the attempt count.  Its documented bound of five
 attempts is kept only by the CHECK on the column, and at a price: a row whose fifth attempt
 was interrupted can be picked for a sixth, and every claim that picks it rolls back.
 */
module PublicJoinQueue {
  import opened Options
  import opened Outbox
  import opened OutboxMachine
  import opened OutboxSafety

  /** The fifth attempt of the row was claimed and its lease ran out: the worker crashed. */
  predicate Interrupted(r: Row, at: int) { r.attempts == MAX_ATTEMPTS && Expired(r, at) }

  /** Which statement is reached: the claim commits exactly when the picked row has attempts
      left; in the other three outboxes it always commits. */
  lemma ClaimCommitsIff(kind: Kind, s: State, t: Token, pick: Option<Id>, at: int, expired: set<Id>)
    requires Inv(kind, s) && Can(kind, s, Claim(t, pick, at, expired))
    ensures var swept := Swept(kind, s.rows, at, expired);
            var s' := Do(kind, s, Claim(t, pick, at, expired));
            (pick.Some? && t !in s'.workers <==> kind.PublicJoin? && pick.Some? && swept[pick.value].attempts == MAX_ATTEMPTS)
            && (pick.Some? && t !in s'.workers ==> s' == s)
  {
    hide Swept;
    var swept := Swept(kind, s.rows, at, expired);
    SweepRewrites(kind, s, at, expired);
    if pick.Some? {
      PickedHasAttemptsLeft(kind, swept[pick.value], at);
    }
  }

  /** A row whose fifth delivery was interrupted is selected for a sixth attempt as soon as
      nothing due precedes it; in the other outboxes no claim ever selects it. */
  lemma SixthAttemptSelected(kind: Kind, s: State, at: int, expired: set<Id>, id: Id)
    requires Shapes(kind, s.rows) && id in s.rows && Interrupted(s.rows[id], at)
    ensures DueSince(kind, Swept(kind, s.rows, at, expired)[id], at).Some? <==> kind.PublicJoin?
    ensures kind.PublicJoin? ==> DueSince(kind, Swept(kind, s.rows, at, expired)[id], at) == Some(at)
  {
  }

  /** Another interrupted row, created later, waits behind it for as long as it lies there: the
      claim requeues both at the same instant and orders by creation. */
  lemma StarvedBehindInterrupted(s: State, at: int, first: Id, id: Id)
    requires Shapes(PublicJoin, s.rows) && first in s.rows && id in s.rows
    requires Interrupted(s.rows[first], at) && Expired(s.rows[id], at) && s.rows[first].created < s.rows[id].created
    ensures !FirstDue(PublicJoin, Swept(PublicJoin, s.rows, at, {}), at, id)
  {
    var swept := Swept(PublicJoin, s.rows, at, {});
    assert DueSince(PublicJoin, swept[first], at) == Some(at) && DueSince(PublicJoin, swept[id], at) == Some(at);
    assert swept[first].created == s.rows[first].created && swept[id].created == s.rows[id].created;
    assert !Earlier(PublicJoin, swept[id], swept[first], at);
  }

  predicate Touches(a: Action, id: Id) {
    (a.Rearm? && a.id == id) || (a.CancelOutside? && id in a.ids)
  }

  /** The interrupted worker has died: it takes no further step. */
  predicate ByHolder(s: State, a: Action, id: Id) {
    id in s.rows && s.rows[id].lease.Some?
    && (ByWorker(a, s.rows[id].lease.value.token) || (a.Accept? && a.token == s.rows[id].lease.value.token))
  }

  /** The row as some claim of a public-join run can find it: interrupted, or requeued by a claim
      that committed for another row. */
  predicate Wedged(rows: Rows, id: Id) {
    id in rows && rows[id].attempts == MAX_ATTEMPTS && (rows[id].status.Sending? || rows[id].status.Pending?)
  }

  /** Only an outside writer frees a wedged row: no dispatcher step of any other worker sends
      it, fails it or gives it an attempt. */
  lemma WedgedUntilTouched(s: State, a: Action, id: Id)
    requires Inv(PublicJoin, s) && Can(PublicJoin, s, a) && Wedged(s.rows, id)
    requires !Touches(a, id) && !ByHolder(s, a, id)
    ensures Wedged(Do(PublicJoin, s, a).rows, id)
  {
    hide Accounts;
    if a.Claim? {
      WedgedThroughClaim(s, a.token, a.pick, a.at, a.expired, id);
    }
  }

  lemma WedgedThroughClaim(s: State, t: Token, pick: Option<Id>, at: int, expired: set<Id>, id: Id)
    requires Wedged(s.rows, id) && (pick.Some? ==> pick.value in s.rows)
    ensures Wedged(DoClaim(PublicJoin, s, t, pick, at, expired).rows, id)
  {
  }

  // ---------------------------------------------------------------- reaching it

  /** A run of one row: armed, then `n` times claimed and abandoned until the lease ran out. */
  ghost predicate AbandonedAfter(n: nat, s: State) {
    s.rows.Keys == {0} && Shapes(PublicJoin, s.rows) && s.rows[0].attempts == n && (forall t <- s.workers.Keys :: t < n)
    && (if n == 0 then s.rows[0].status.Pending? && s.rows[0].next == Some(s.clock) else Expired(s.rows[0], s.clock))
  }

  ghost predicate Reaches(s: State) {
    exists states: seq<State>, actions: seq<Action> :: Run(PublicJoin, states, actions) && states[|actions|] == s
  }

  lemma ReachesNext(s: State, a: Action)
    requires Reaches(s) && Can(PublicJoin, s, a)
    ensures Reaches(Do(PublicJoin, s, a))
  {
    hide Do, Can;
    var states: seq<State>, actions: seq<Action> :| Run(PublicJoin, states, actions) && states[|actions|] == s;
    var longer := states + [Do(PublicJoin, s, a)];
    assert Run(PublicJoin, longer, actions + [a]);
    assert longer[|actions + [a]|] == Do(PublicJoin, s, a);
  }

  lemma {:induction false} AbandonedReachable(n: nat) returns (s: State)
    requires n <= MAX_ATTEMPTS
    ensures Reaches(s) && AbandonedAfter(n, s)
  {
    hide Reaches;
    if n == 0 {
      s := ArmedReachable();
    } else {
      var before := AbandonedReachable(n - 1);
      s := AbandonedOnceMore(n - 1, before);
    }
  }

  lemma ArmedReachable() returns (s: State)
    ensures Reaches(s) && AbandonedAfter(0, s)
  {
    var start := State(0, map[], map[], map[]);
    var none: seq<Action> := [];
    assert Run(PublicJoin, [start], none) && [start][|none|] == start;
    ReachesNext(start, Arm(0, 0, 0));
    s := Do(PublicJoin, start, Arm(0, 0, 0));
  }

  lemma OnlyRowDue(n: nat, s: State)
    requires AbandonedAfter(n, s)
    ensures FirstDue(PublicJoin, Swept(PublicJoin, s.rows, s.clock, {}), s.clock, 0)
    ensures Swept(PublicJoin, s.rows, s.clock, {})[0].attempts == n
  {
    var swept := Swept(PublicJoin, s.rows, s.clock, {});
    assert 0 in s.rows.Keys;
    assert Shape(PublicJoin, s.rows[0]);
    assert swept[0] == SweptRow(PublicJoin, s.rows[0], s.clock);
    assert DueSince(PublicJoin, swept[0], s.clock) == Some(s.clock);
    forall k <- swept.Keys | DueSince(PublicJoin, swept[k], s.clock).Some? ensures Earlier(PublicJoin, swept[0], swept[k], s.clock) {
      assert k == 0;
    }
  }

  lemma AbandonedOnceMore(n: nat, s: State) returns (s': State)
    requires n < MAX_ATTEMPTS && Reaches(s) && AbandonedAfter(n, s)
    ensures Reaches(s') && AbandonedAfter(n + 1, s')
  {
    hide Reaches;
    var claim := Claim(n, Some(0), s.clock, {});
    OnlyRowDue(n, s);
    ReachesNext(s, claim);
    var claimed := Do(PublicJoin, s, claim);
    ReachesNext(claimed, Tick(LEASE));
    s' := Do(PublicJoin, claimed, Tick(LEASE));
  }

  /** The doc comment promises at most five attempts from the claim; five interrupted deliveries
      lead to a reachable state in which the claim selects the row for its sixth, and fails. */
  lemma SixthAttemptReachable()
    ensures exists s: State :: Reaches(s) && Can(PublicJoin, s, Claim(5, Some(0), s.clock, {}))
              && s.rows[0].attempts == MAX_ATTEMPTS && Do(PublicJoin, s, Claim(5, Some(0), s.clock, {})) == s
  {
    hide Reaches;
    var s := AbandonedReachable(5);
    OnlyRowDue(5, s);
    assert Can(PublicJoin, s, Claim(5, Some(0), s.clock, {}));
    assert Do(PublicJoin, s, Claim(5, Some(0), s.clock, {})) == s;
  }
}
