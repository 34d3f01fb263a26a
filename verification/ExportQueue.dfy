/**
 No job is ever stuck: whatever crashed or stalled before, an active job waits in the queue or
 holds a lease, and once that lease has ended the workers' own claims take the job up again or,
 after its tenth attempt, fail it.  Stated on the columns of the row.
 */
module ExportQueue {
  import opened Collections
  import opened Options
  import opened ExportJobs
  import opened ExportMachine
  import opened ExportInvariant
  import opened ExportSafety

  /** A finite continuation of a run. */
  ghost predicate Leads(c: Config, s: State, more: seq<Action>, s': State)
    decreases |more|
  {
    if more == [] then s' == s else Enabled(c, s, more[0]) && Leads(c, Do(c, s, more[0]), more[1..], s')
  }

  lemma {:induction false} LeadsBoth(c: Config, s: State, xs: seq<Action>, s1: State, ys: seq<Action>, s2: State)
    requires Leads(c, s, xs, s1) && Leads(c, s1, ys, s2)
    ensures Leads(c, s, xs + ys, s2)
    decreases |xs|
  {
    hide Can, Timely, Do;
    if xs == [] {
      assert xs + ys == ys;
    } else {
      LeadsBoth(c, Do(c, s, xs[0]), xs[1..], s1, ys, s2);
      assert (xs + ys)[1..] == xs[1..] + ys;
    }
  }

  lemma LeadsOne(c: Config, s: State, a: Action)
    requires Enabled(c, s, a)
    ensures Leads(c, s, [a], Do(c, s, a))
  {
    hide Enabled, Do;
    assert [a][1..] == [];
  }

  // ---------------------------------------------------------------- selection

  lemma {:induction false} Oldest(jobs: Table, ids: set<JobId>) returns (k: JobId)
    requires ids != {} && ids <= jobs.Keys
    ensures k in ids && forall i <- ids :: Before(jobs[k], k, jobs[i], i)
    decreases |ids|
  {
    k :| k in ids;
    assert forall i <- ids :: i == k || i in ids - {k};
    if ids - {k} != {} {
      var j := Oldest(jobs, ids - {k});
      k := if Before(jobs[k], k, jobs[j], j) then k else j;
    }
  }

  /** The other rows a claim may pick before it reaches job `id`. */
  function Ahead(jobs: Table, at: int, id: JobId): set<JobId> { set k <- jobs.Keys | k != id && Claimable(jobs[k], at) }

  function AheadExhausted(jobs: Table, at: int, id: JobId): set<JobId> { set k <- jobs.Keys | k != id && Exhausted(jobs[k], at) }

  lemma ClaimShrinks(c: Config, s: State, k: JobId, t: Token, at: int, id: JobId)
    requires c.lease > 0 && k in s.jobs && k != id && id in s.jobs && Claimable(s.jobs[k], at)
    ensures var s1 := DoClaim(c, s, k, t, at, true);
            Ahead(s1.jobs, at, id) == Ahead(s.jobs, at, id) - {k} && k in Ahead(s.jobs, at, id)
            && id in s1.jobs && s1.jobs[id] == s.jobs[id] && s1.clock == s.clock
  {
  }

  /** Claims at one moment reach every claimable job. */
  lemma {:induction false} ClaimsReach(c: Config, s: State, id: JobId, at: int) returns (more: seq<Action>, s': State, t: Token)
    requires Inv(c, s) && id in s.jobs && Claimable(s.jobs[id], at) && at <= s.clock
    ensures Leads(c, s, more, s') && forall a <- more :: a.Claim? && a.at == at
    ensures id in s'.jobs && s'.jobs[id] == ClaimedRow(s.jobs[id], t, at, c.lease) && HoldsLease(s'.jobs, id, t)
    ensures InPhase(s', t, Claimed)
    decreases |Ahead(s.jobs, at, id)|
  {
    hide Inv, Do, Can, Timely, Claimable, ClaimedRow, DoClaim, Ahead, Before;
    t := Above(s.workers.Keys);
    var k := FirstToClaim(s.jobs, at, id);
    var a := Claim(k, t, at, true);
    CanClaim(c, s, k, t, at);
    StepKeeps(c, s, a);
    var s1 := Do(c, s, a);
    if k == id {
      more, s' := [a], s1;
      ClaimTakes(c, s, id, t, at);
      assert more[1..] == [];
    } else {
      assert c.lease > 0 && Claimable(s.jobs[k], at) by { ClaimFacts(c, s, k, at); }
      ClaimShrinks(c, s, k, t, at, id);
      var rest, u: Token;
      rest, s', u := ClaimsReach(c, s1, id, at);
      t := u;
      more := [a] + rest;
      assert more[1..] == rest;
    }
  }

  lemma FirstToClaim(jobs: Table, at: int, id: JobId) returns (k: JobId)
    requires id in jobs && Claimable(jobs[id], at)
    ensures k in jobs && FirstClaimable(jobs, at, k)
  {
    var all := set i <- jobs.Keys | Claimable(jobs[i], at);
    assert id in all;
    k := Oldest(jobs, all);
  }

  lemma CanClaim(c: Config, s: State, k: JobId, t: Token, at: int)
    requires FirstClaimable(s.jobs, at, k) && at <= s.clock && forall u <- s.workers.Keys :: u < t
    ensures Enabled(c, s, Claim(k, t, at, true)) && k in s.jobs
    ensures Do(c, s, Claim(k, t, at, true)) == DoClaim(c, s, k, t, at, true)
  {
  }

  lemma ClaimFacts(c: Config, s: State, k: JobId, at: int)
    requires Inv(c, s) && FirstClaimable(s.jobs, at, k)
    ensures c.lease > 0 && k in s.jobs && Claimable(s.jobs[k], at)
  {
  }

  lemma ClaimTakes(c: Config, s: State, id: JobId, t: Token, at: int)
    requires id in s.jobs
    ensures var s1 := DoClaim(c, s, id, t, at, true);
            id in s1.jobs && s1.jobs[id] == ClaimedRow(s.jobs[id], t, at, c.lease) && HoldsLease(s1.jobs, id, t)
            && InPhase(s1, t, Claimed)
  {
  }

  lemma {:induction false} FailuresReach(c: Config, s: State, id: JobId, at: int) returns (more: seq<Action>, s': State)
    requires Inv(c, s) && id in s.jobs && Exhausted(s.jobs[id], at) && at <= s.clock
    ensures Leads(c, s, more, s') && forall a <- more :: a.FailExhausted? && a.at == at
    ensures id in s'.jobs && s'.jobs[id] == FailedRow(s.jobs[id], AttemptsExhausted, at)
    decreases |AheadExhausted(s.jobs, at, id)|
  {
    hide Inv, Do, Can, Timely, Exhausted, FailedRow, AheadExhausted, Before, Settle;
    var k := FirstToFail(s.jobs, at, id);
    var a := FailExhausted(k, at);
    CanFail(c, s, k, at);
    StepKeeps(c, s, a);
    var s1 := Do(c, s, a);
    FailureShrinks(s, k, at, id);
    if k == id {
      more, s' := [a], s1;
      assert more[1..] == [];
    } else {
      var rest: seq<Action>;
      rest, s' := FailuresReach(c, s1, id, at);
      more := [a] + rest;
      assert more[1..] == rest;
    }
  }

  lemma FirstToFail(jobs: Table, at: int, id: JobId) returns (k: JobId)
    requires id in jobs && Exhausted(jobs[id], at)
    ensures k in jobs && Exhausted(jobs[k], at) && FirstExhausted(jobs, at, k)
  {
    var all := set i <- jobs.Keys | Exhausted(jobs[i], at);
    assert id in all;
    k := Oldest(jobs, all);
  }

  lemma CanFail(c: Config, s: State, k: JobId, at: int)
    requires FirstExhausted(s.jobs, at, k) && at <= s.clock
    ensures Enabled(c, s, FailExhausted(k, at)) && k in s.jobs
    ensures Do(c, s, FailExhausted(k, at)) == Settle(s, k, FailedRow(s.jobs[k], AttemptsExhausted, at), None)
  {
  }

  lemma FailureShrinks(s: State, k: JobId, at: int, id: JobId)
    requires k in s.jobs && id in s.jobs && Exhausted(s.jobs[k], at)
    ensures var s1 := Settle(s, k, FailedRow(s.jobs[k], AttemptsExhausted, at), None);
            id in s1.jobs && s1.clock == s.clock
            && if k == id then s1.jobs[id] == FailedRow(s.jobs[id], AttemptsExhausted, at)
               else s1.jobs[id] == s.jobs[id] && k in AheadExhausted(s.jobs, at, id)
                    && AheadExhausted(s1.jobs, at, id) == AheadExhausted(s.jobs, at, id) - {k}
  {
  }

  // ---------------------------------------------------------------- every run

  /** From the moment a row's lease ended, or at any moment while it is queued. */
  predicate Free(j: Job, at: int) { j.status == Queued || (j.status == Running && j.lease.Some? && j.lease.value.until <= at) }

  /** In every reachable state an active job is queued with all its attempts or runs under a lease.
      From the end of that lease on, claims alone take it up as the next attempt under a full
      lease, or, after the tenth, exhaustion steps alone fail it. */
  lemma NeverStuck(c: Config, states: seq<State>, actions: seq<Action>, i: nat, id: JobId, at: int)
    returns (more: seq<Action>, s': State)
    requires ValidConfig(c) && Run(c, states, actions) && i < |states|
    requires id in states[i].jobs && Active(states[i].jobs[id]) && at <= states[i].clock
    ensures var j := states[i].jobs[id];
            if j.status == Queued then j.attempts == 0 && j.lease == None
            else j.status == Running && j.lease.Some? && 1 <= j.attempts <= 10
    ensures Free(states[i].jobs[id], at) ==>
              var j := states[i].jobs[id];
              Leads(c, states[i], more, s') && id in s'.jobs
              && if j.attempts < 10
                 then (forall a <- more :: a.Claim?)
                      && s'.jobs[id].status == Running && s'.jobs[id].attempts == j.attempts + 1 && s'.jobs[id].lease.Some?
                      && s'.jobs[id].lease.value.until == at + c.lease
                 else (forall a <- more :: a.FailExhausted?)
                      && s'.jobs[id].status == Failed && s'.jobs[id].error == Some(AttemptsExhausted)
  {
    hide Leads, Enabled, Do;
    RunSafe(c, states, actions, i);
    var s := states[i];
    assert RowShape(s.jobs[id]);
    more, s' := [], s;
    if Free(s.jobs[id], at) {
      if s.jobs[id].attempts < 10 {
        var t: Token;
        more, s', t := ClaimsReach(c, s, id, at);
      } else {
        more, s' := FailuresReach(c, s, id, at);
      }
    }
  }
}
