/**
 No message is ever stuck in an outbox: in every reachable state a message that is not sent,
 failed or cancelled waits with a due time or is in flight under a lease, and from that time on
 claims alone take it up again or fail it.  The public-join outbox keeps this only as long as no
 message whose attempts are used up lies in the queue.
 */
module OutboxQueue {
  import opened Collections
  import opened Options
  import opened Outbox
  import opened OutboxMachine
  import opened OutboxSafety

  /** A finite continuation of a run. */
  ghost predicate Leads(kind: Kind, s: State, more: seq<Action>, s': State)
    decreases |more|
  {
    if more == [] then s' == s else Can(kind, s, more[0]) && Leads(kind, Do(kind, s, more[0]), more[1..], s')
  }

  // ---------------------------------------------------------------- taking up

  function Queue(kind: Kind, rows: Rows, at: int): set<Id> { set k <- rows.Keys | Takeable(kind, rows[k], at) }

  /** Every claim at this moment would commit. */
  ghost predicate Unspent(kind: Kind, rows: Rows, at: int) {
    forall k <- rows.Keys | Takeable(kind, rows[k], at) :: rows[k].attempts < 5
  }

  lemma {:induction false} Earliest(kind: Kind, rows: Rows, at: int, ids: set<Id>) returns (k: Id)
    requires ids != {} && ids <= rows.Keys && forall i <- ids :: DueSince(kind, rows[i], at).Some?
    ensures k in ids && forall i <- ids :: Earlier(kind, rows[k], rows[i], at)
    decreases |ids|
  {
    hide DueSince;
    k :| k in ids;
    assert forall i <- ids :: i == k || i in ids - {k};
    if ids - {k} != {} {
      var j := Earliest(kind, rows, at, ids - {k});
      k := if Earlier(kind, rows[k], rows[j], at) then k else j;
    }
  }

  lemma SomePick(kind: Kind, rows: Rows, at: int, id: Id) returns (k: Id)
    requires id in rows && Takeable(kind, rows[id], at)
    ensures FirstDue(kind, Swept(kind, rows, at, {}), at, k) && k in rows && Takeable(kind, rows[k], at)
  {
    hide Swept, DueSince, Takeable, Earlier;
    var swept := Swept(kind, rows, at, {});
    forall i <- rows.Keys ensures DueSince(kind, swept[i], at).Some? <==> Takeable(kind, rows[i], at) {
      SweptIsDueIff(kind, rows, at, {}, i);
    }
    var ids := set i <- rows.Keys | DueSince(kind, swept[i], at).Some?;
    assert id in ids;
    k := Earliest(kind, swept, at, ids);
  }

  /** One claim takes exactly the picked message out of the queue. */
  lemma ClaimTakesOne(kind: Kind, s: State, t: Token, k: Id, at: int)
    requires k in s.rows && Takeable(kind, s.rows[k], at) && s.rows[k].attempts < 5
    ensures var s1 := DoClaim(kind, s, t, Some(k), at, {});
            s1.rows.Keys == s.rows.Keys && s1.clock == s.clock
            && s1.rows[k].status == Sending && s1.rows[k].attempts == s.rows[k].attempts + 1
            && s1.rows[k].lease == Some(Lease(t, at + LEASE)) && !Takeable(kind, s1.rows[k], at)
  {
  }

  lemma ClaimLeaves(kind: Kind, s: State, t: Token, k: Id, at: int, i: Id)
    requires k in s.rows && Takeable(kind, s.rows[k], at) && s.rows[k].attempts < 5 && i in s.rows && i != k
    ensures var s1 := DoClaim(kind, s, t, Some(k), at, {});
            i in s1.rows && (Takeable(kind, s1.rows[i], at) <==> Takeable(kind, s.rows[i], at)) && s1.rows[i].attempts == s.rows[i].attempts
  {
  }

  lemma QueueShrinks(kind: Kind, s: State, t: Token, k: Id, at: int)
    requires k in s.rows && Takeable(kind, s.rows[k], at) && Unspent(kind, s.rows, at)
    ensures var s1 := DoClaim(kind, s, t, Some(k), at, {});
            Queue(kind, s1.rows, at) == Queue(kind, s.rows, at) - {k} && k in Queue(kind, s.rows, at) && Unspent(kind, s1.rows, at)
  {
    hide Takeable, DoClaim, Swept;
    ClaimTakesOne(kind, s, t, k, at);
    forall i <- s.rows.Keys | i != k
      ensures var s1 := DoClaim(kind, s, t, Some(k), at, {});
              (Takeable(kind, s1.rows[i], at) <==> Takeable(kind, s.rows[i], at)) && s1.rows[i].attempts == s.rows[i].attempts
    {
      ClaimLeaves(kind, s, t, k, at, i);
    }
  }

  /** Claims at one moment reach every takeable message. */
  lemma {:induction false} ClaimsReach(kind: Kind, s: State, id: Id, at: int) returns (more: seq<Action>, s': State)
    requires id in s.rows && Takeable(kind, s.rows[id], at) && at <= s.clock && Unspent(kind, s.rows, at)
    ensures Leads(kind, s, more, s') && forall a <- more :: a.Claim? && a.at == at
    ensures id in s'.rows && s'.rows[id].status == Sending && s'.rows[id].attempts == s.rows[id].attempts + 1
    ensures s'.rows[id].lease.Some? && s'.rows[id].lease.value.until == at + LEASE
    decreases |Queue(kind, s.rows, at)|
  {
    hide Do, Can, DoClaim, Takeable, Queue, Swept, Unspent;
    var t := Above(s.workers.Keys);
    var k := SomePick(kind, s.rows, at, id);
    var a := Claim(t, Some(k), at, {});
    assert Can(kind, s, a) && Do(kind, s, a) == DoClaim(kind, s, t, Some(k), at, {}) by { CanClaim(kind, s, t, k, at); }
    assert s.rows[k].attempts < 5 by { UnspentRow(kind, s.rows, at, k); }
    ClaimTakesOne(kind, s, t, k, at);
    QueueShrinks(kind, s, t, k, at);
    var s1 := Do(kind, s, a);
    if k == id {
      more, s' := [a], s1;
      assert more[1..] == [];
    } else {
      ClaimLeaves(kind, s, t, k, at, id);
      var rest: seq<Action>;
      rest, s' := ClaimsReach(kind, s1, id, at);
      more := [a] + rest;
      assert more[1..] == rest;
    }
  }

  lemma CanClaim(kind: Kind, s: State, t: Token, k: Id, at: int)
    requires at <= s.clock && k in s.rows && FirstDue(kind, Swept(kind, s.rows, at, {}), at, k) && forall u <- s.workers.Keys :: u < t
    ensures Can(kind, s, Claim(t, Some(k), at, {}))
    ensures Do(kind, s, Claim(t, Some(k), at, {})) == DoClaim(kind, s, t, Some(k), at, {})
  {
  }

  lemma UnspentRow(kind: Kind, rows: Rows, at: int, k: Id)
    requires Unspent(kind, rows, at) && k in rows && Takeable(kind, rows[k], at)
    ensures rows[k].attempts < 5
  {
  }

  // ---------------------------------------------------------------- waiting messages have attempts left

  /** Outside the public-join outbox. */
  ghost predicate WaitingLeft(kind: Kind, rows: Rows) { forall id <- rows.Keys | rows[id].status == Pending :: rows[id].attempts < 5 }

  lemma SweepKeepsWaiting(kind: Kind, rows: Rows, at: int, expired: set<Id>)
    requires kind != PublicJoin && WaitingLeft(kind, rows)
    ensures WaitingLeft(kind, Swept(kind, rows, at, expired))
  {
  }

  lemma ClaimKeepsWaiting(kind: Kind, s: State, t: Token, pick: Option<Id>, at: int, expired: set<Id>)
    requires kind != PublicJoin && WaitingLeft(kind, s.rows) && (pick.Some? ==> pick.value in s.rows)
    ensures WaitingLeft(kind, DoClaim(kind, s, t, pick, at, expired).rows)
  {
    hide Swept;
    SweepKeepsWaiting(kind, s.rows, at, expired);
  }

  lemma StepKeepsWaiting(kind: Kind, s: State, a: Action)
    requires kind != PublicJoin && Inv(kind, s) && Can(kind, s, a) && WaitingLeft(kind, s.rows)
    ensures WaitingLeft(kind, Do(kind, s, a).rows)
  {
    hide Accounts, Swept, Claims;
    if a.Claim? {
      ClaimKeepsWaiting(kind, s, a.token, a.pick, a.at, a.expired);
    }
  }

  lemma {:induction false} RunWaits(kind: Kind, states: seq<State>, actions: seq<Action>, i: nat)
    requires kind != PublicJoin && Run(kind, states, actions) && i < |states|
    ensures WaitingLeft(kind, states[i].rows)
  {
    hide Do, Can;
    if i > 0 {
      RunSafe(kind, states, actions, i - 1);
      RunWaits(kind, states, actions, i - 1);
      StepKeepsWaiting(kind, states[i - 1], actions[i - 1]);
    }
  }

  // ---------------------------------------------------------------- every run

  /** When the message waits since, or when its delivery counts as interrupted. */
  function FreeFrom(r: Row): Option<int> {
    if r.status == Pending then r.next
    else if r.status == Sending && r.lease.Some? then Some(r.lease.value.until)
    else None
  }

  /** In every reachable state a message that is pending or in flight has a moment from which it is
      free.  From then on, with attempts left, claims alone take it up as the next attempt; with
      none, it was in flight and the next claim's sweep fails it. */
  lemma NeverStuck(kind: Kind, states: seq<State>, actions: seq<Action>, i: nat, id: Id, at: int)
    returns (more: seq<Action>, s': State)
    requires Run(kind, states, actions) && i < |states| && id in states[i].rows && at <= states[i].clock
    requires states[i].rows[id].status == Pending || states[i].rows[id].status == Sending
    ensures FreeFrom(states[i].rows[id]).Some?
    ensures kind != PublicJoin || Unspent(kind, states[i].rows, at) ==>
              var r := states[i].rows[id];
              FreeFrom(r).value <= at ==>
                if r.attempts < 5 then
                  Leads(kind, states[i], more, s') && (forall a <- more :: a.Claim?) && id in s'.rows
                  && s'.rows[id].status == Sending && s'.rows[id].attempts == r.attempts + 1
                else
                  r.status == Sending && forall t: Token, pick: Option<Id> :: Can(kind, states[i], Claim(t, pick, at, {})) ==>
                    pick != Some(id) && id in Do(kind, states[i], Claim(t, pick, at, {})).rows
                    && Do(kind, states[i], Claim(t, pick, at, {})).rows[id].status == Failed
  {
    hide Do, Can, Inv, Leads, Run;
    RunSafe(kind, states, actions, i);
    var s := states[i];
    var r := s.rows[id];
    assert Shape(kind, r) by { InvParts(kind, s); }
    more, s' := [], s;
    if (kind != PublicJoin || Unspent(kind, s.rows, at)) && FreeFrom(r).value <= at {
      if kind != PublicJoin {
        RunWaits(kind, states, actions, i);
      }
      if r.attempts < 5 {
        more, s' := ClaimsReach(kind, s, id, at);
      } else {
        assert kind != PublicJoin;
        forall t: Token, pick: Option<Id> | Can(kind, s, Claim(t, pick, at, {}))
          ensures pick != Some(id) && id in Do(kind, s, Claim(t, pick, at, {})).rows
                  && Do(kind, s, Claim(t, pick, at, {})).rows[id].status == Failed
        {
          SpentFails(kind, s, t, pick, at, id);
        }
      }
    }
  }

  lemma SpentFails(kind: Kind, s: State, t: Token, pick: Option<Id>, at: int, id: Id)
    requires kind != PublicJoin && id in s.rows && Spent(kind, s.rows[id], at) && Can(kind, s, Claim(t, pick, at, {}))
    ensures pick != Some(id) && id in Do(kind, s, Claim(t, pick, at, {})).rows
    ensures Do(kind, s, Claim(t, pick, at, {})).rows[id].status == Failed
  {
    hide Swept;
    SweptIsDueIff(kind, s.rows, at, {}, id);
    if pick.Some? {
      PickTakesFirst(kind, s.rows, at, {}, pick);
      SweptIsDueIff(kind, s.rows, at, {}, pick.value);
    }
  }

  /** A taken message can be delivered: the relay accepts it and the row is SENT for good. */
  lemma TakenCanBeSent(kind: Kind, s: State, t: Token)
    requires Inv(kind, s) && Holds(s, t) && Busy(s, t)
    ensures Can(kind, s, Accept(t))
    ensures var s1 := Do(kind, s, Accept(t));
            Can(kind, s1, MarkSent(t))
            && var s2, id := Do(kind, s1, MarkSent(t)), s.workers[t].id;
            id in s2.rows && s2.rows[id].status == Sent && s2.rows[id].sent && !s2.rows[id].cipher && s2.rows[id].lease == None
            && t in AcceptedCopies(s2, id, s.workers[t].epoch)
  {
    hide Accounts;
    assert Shape(kind, s.rows[s.workers[t].id]);
  }

  /** A message that was armed, for the first time or again, is free at once with all its attempts. */
  lemma ArmingQueues(kind: Kind, s: State, a: Action)
    requires (a.Arm? || a.Rearm?) && Can(kind, s, a)
    ensures var r := Do(kind, s, a).rows[a.id];
            r == Row(Pending, 0, Some(a.at), None, kind != Notification, false, r.created) && Takeable(kind, r, a.at)
            && (a.Rearm? ==> r.created == s.rows[a.id].created)
            && forall k <- s.rows.Keys | k != a.id :: k in Do(kind, s, a).rows && Do(kind, s, a).rows[k] == s.rows[k]
  {
  }

  /** Closing messages from outside cancels exactly the named ones that are not sent, in the
      notification outbox fails those that wait or are in flight; none of them is ever taken again. */
  lemma OutsideCloses(kind: Kind, s: State, ids: set<Id>, id: Id, at: int)
    requires id in s.rows && Shape(kind, s.rows[id])
    ensures Can(kind, s, CancelOutside(ids))
    ensures var r, r' := s.rows[id], Do(kind, s, CancelOutside(ids)).rows[id];
            var hit := id in ids && (r.status == Pending || r.status == Sending || (r.status == Failed && kind != Notification));
            r' == (if !hit then r
                   else Row(if kind == Notification then Failed else Cancelled, r.attempts, None, None, false, r.sent, r.created))
            && (id in ids ==> !Takeable(kind, r', at))
  {
  }
}
