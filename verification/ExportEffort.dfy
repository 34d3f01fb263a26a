/**
 No export job is worked for ever.  Ten claims, and for each of them the datasets of one
 attempt, bound the writes that workers can ever make to one row.
 */
module ExportEffort {
  import opened Options
  import opened ExportJobs
  import opened ExportMachine
  import opened ExportInvariant
  import opened ExportSafety
  import opened ExportHistory

  /** Datasets the current lease holder has not reported yet. */
  function DatasetsLeft(s: State, j: Job): nat {
    if j.lease.Some? && j.lease.value.token in s.workers
       && s.workers[j.lease.value.token].done <= s.workers[j.lease.value.token].total
    then s.workers[j.lease.value.token].total - s.workers[j.lease.value.token].done else 0
  }

  /** The lexicographic measure (claims left, datasets left in this attempt) of an active job,
      flattened: one claim is worth more than all the datasets of an attempt. */
  function Effort(s: State, id: JobId): nat {
    if id !in s.jobs || !Active(s.jobs[id]) || MAX_ATTEMPTS < s.jobs[id].attempts then 0
    else (MAX_ATTEMPTS - s.jobs[id].attempts) * (s.jobs[id].total + 1) + DatasetsLeft(s, s.jobs[id]) + 1
  }

  /** A worker write that changes the row of job `id`. */
  ghost predicate Effective(s: State, a: Action, id: JobId) {
    match a
    case Claim(k, _, _, _) => k == id
    case FailExhausted(k, _) => k == id
    case Progress(t, _) => t in s.workers && s.workers[t].job == id && HoldsLease(s.jobs, id, t)
    case Complete(t, _, _) => t in s.workers && s.workers[t].job == id && HoldsLease(s.jobs, id, t)
    case Fail(t, _, _) => t in s.workers && s.workers[t].job == id && HoldsLease(s.jobs, id, t)
    case _ => false
  }

  lemma ClaimCosts(left: nat, total: nat)
    requires 0 < left
    ensures left * (total + 1) == (left - 1) * (total + 1) + total + 1
  {
  }

  lemma ClaimDecreases(c: Config, s: State, id: JobId, t: Token, at: int, authorized: bool)
    requires Rows(s) && Leases(s) && Workers(c, s) && id in s.jobs && Claimable(s.jobs[id], at) && t !in s.workers
    ensures Effort(DoClaim(c, s, id, t, at, authorized), id) < Effort(s, id)
  {
    hide Rows, Leases, Workers;
    var left, total := MAX_ATTEMPTS - s.jobs[id].attempts, s.jobs[id].total;
    ClaimCosts(left, total);
    if authorized {
      assert Effort(DoClaim(c, s, id, t, at, authorized), id) == (left - 1) * (total + 1) + total + 1;
      assert Effort(s, id) == left * (total + 1) + DatasetsLeft(s, s.jobs[id]) + 1;
    }
  }

  lemma ProgressDecreases(c: Config, s: State, id: JobId, t: Token, at: int)
    requires Rows(s) && Workers(c, s) && t in s.workers && s.workers[t].job == id && HoldsLease(s.jobs, id, t)
    requires s.workers[t].done < s.workers[t].total
    ensures Effort(DoProgress(c, s, t, at), id) < Effort(s, id)
  {
    assert RowShape(s.jobs[id]);
  }

  lemma SettleDecreases(s: State, id: JobId, s': State)
    requires Rows(s) && id in s.jobs && Active(s.jobs[id]) && id in s'.jobs && !Active(s'.jobs[id])
    ensures Effort(s', id) < Effort(s, id)
  {
    assert RowShape(s.jobs[id]);
  }

  lemma CompleteDecreases(c: Config, s: State, id: JobId, t: Token, at: int, authorized: bool)
    requires Rows(s) && t in s.workers && s.workers[t].job == id && HoldsLease(s.jobs, id, t)
    ensures Effort(DoComplete(c, s, t, at, authorized), id) < Effort(s, id)
  {
    SettleDecreases(s, id, DoComplete(c, s, t, at, authorized));
  }

  lemma FailDecreases(s: State, id: JobId, t: Token, at: int, code: ErrorCode)
    requires Rows(s) && t in s.workers && s.workers[t].job == id && HoldsLease(s.jobs, id, t)
    ensures Effort(DoFail(s, t, at, code), id) < Effort(s, id)
  {
    SettleDecreases(s, id, DoFail(s, t, at, code));
  }

  /** Every effective worker write strictly decreases the measure. */
  lemma EffectiveDecreases(c: Config, s: State, a: Action, id: JobId)
    requires Rows(s) && Leases(s) && Workers(c, s) && Can(c, s, a) && Effective(s, a, id)
    ensures Effort(Do(c, s, a), id) < Effort(s, id)
  {
    hide Effort, Rows, Leases, Workers;
    match a {
      case Claim(_, t, at, authorized) => ClaimDecreases(c, s, id, t, at, authorized);
      case Progress(t, at) => ProgressDecreases(c, s, id, t, at);
      case FailExhausted(_, at) => SettleDecreases(s, id, Settle(s, id, FailedRow(s.jobs[id], AttemptsExhausted, at), None));
      case Complete(t, at, authorized) => CompleteDecreases(c, s, id, t, at, authorized);
      case Fail(t, at, code) => FailDecreases(s, id, t, at, code);
    }
  }

  /** The lease of an active job, its attempts and its datasets left stay as they were. */
  ghost predicate Undisturbed(s: State, s': State, id: JobId) {
    id in s.usedIds && id in s'.jobs && Active(s'.jobs[id]) ==>
      id in s.jobs && Active(s.jobs[id]) && s'.jobs[id].total == s.jobs[id].total
      && s'.jobs[id].attempts == s.jobs[id].attempts && DatasetsLeft(s', s'.jobs[id]) == DatasetsLeft(s, s.jobs[id])
  }

  lemma UndisturbedEffort(s: State, s': State, id: JobId)
    requires Undisturbed(s, s', id) && id in s.usedIds
    ensures Effort(s', id) <= Effort(s, id)
  {
  }

  lemma ForeignProgress(c: Config, s: State, t: Token, at: int, id: JobId)
    requires Rows(s) && Leases(s) && t in s.workers && !(s.workers[t].job == id && HoldsLease(s.jobs, id, t))
    ensures Undisturbed(s, DoProgress(c, s, t, at), id)
  {
  }

  lemma ForeignComplete(c: Config, s: State, t: Token, at: int, authorized: bool, id: JobId)
    requires Rows(s) && t in s.workers && !(s.workers[t].job == id && HoldsLease(s.jobs, id, t))
    ensures Undisturbed(s, DoComplete(c, s, t, at, authorized), id)
  {
  }

  lemma ForeignFail(s: State, t: Token, at: int, code: ErrorCode, id: JobId)
    requires Rows(s) && t in s.workers && !(s.workers[t].job == id && HoldsLease(s.jobs, id, t))
    ensures Undisturbed(s, DoFail(s, t, at, code), id)
  {
  }

  lemma ForeignClaim(c: Config, s: State, k: JobId, t: Token, at: int, authorized: bool, id: JobId)
    requires Rows(s) && Leases(s) && k in s.jobs && k != id && t !in s.workers
    ensures Undisturbed(s, DoClaim(c, s, k, t, at, authorized), id)
  {
  }

  lemma ForeignRemove(s: State, k: JobId, at: int, id: JobId)
    requires k in s.jobs
    ensures Undisturbed(s, DoRemove(s, k, at), id)
  {
  }

  lemma ForeignExhausted(s: State, k: JobId, at: int, id: JobId)
    requires k in s.jobs && k != id
    ensures Undisturbed(s, Settle(s, k, FailedRow(s.jobs[k], AttemptsExhausted, at), None), id)
  {
  }

  lemma ForeignCleanup(s: State, k: nat, retired: JobId, authorized: bool, id: JobId)
    requires k in s.cleaners && retired in s.cleaners[k].listed
    ensures Undisturbed(s, DoRetire(s, k, retired, authorized), id) && Undisturbed(s, DoForget(s, k, retired), id)
  {
  }

  lemma ForeignAcknowledge(s: State, k: JobId, status: Status, id: JobId)
    ensures Undisturbed(s, DoAcknowledge(s, k, status), id)
  {
  }

  lemma ForeignCreate(c: Config, s: State, a: Action, id: JobId)
    requires a.Create? && a.id !in s.usedIds
    ensures Undisturbed(s, DoCreate(c, s, a), id)
  {
  }

  lemma ForeignOther(c: Config, s: State, a: Action, id: JobId)
    requires Can(c, s, a) && !(a.Create? || a.Claim? || a.Remove? || a.Progress? || a.Complete? || a.Fail?)
    requires !(a.FailExhausted? || a.CleanupRetire? || a.CleanupForget? || a.Acknowledge?)
    ensures Undisturbed(s, Do(c, s, a), id)
  {
    hide DoCreate, DoRemove, DoClaim, DoProgress, DoComplete, DoFail, DoRetire, DoForget, DoAcknowledge;
  }

  /** Every other step leaves the measure of a known job alone or ends the job. */
  lemma OthersNeverIncrease(c: Config, s: State, a: Action, id: JobId)
    requires Rows(s) && Leases(s) && Can(c, s, a) && !Effective(s, a, id) && id in s.usedIds
    ensures Effort(Do(c, s, a), id) <= Effort(s, id)
  {
    hide DoCreate, DoRemove, DoClaim, DoProgress, DoComplete, DoFail, DoRetire, DoForget, DoAcknowledge;
    hide Effort, Rows, Leases, Undisturbed;
    match a {
      case Create(_, _, _, _, _, _, _) => ForeignCreate(c, s, a, id);
      case Claim(k, t, at, authorized) => ForeignClaim(c, s, k, t, at, authorized, id);
      case Remove(k, at) => ForeignRemove(s, k, at, id);
      case Progress(t, at) => ForeignProgress(c, s, t, at, id);
      case Complete(t, at, authorized) => ForeignComplete(c, s, t, at, authorized, id);
      case Fail(t, at, code) => ForeignFail(s, t, at, code, id);
      case FailExhausted(k, at) => ForeignExhausted(s, k, at, id);
      case CleanupRetire(k, retired, authorized) => ForeignCleanup(s, k, retired, authorized, id);
      case CleanupForget(k, retired) => ForeignCleanup(s, k, retired, false, id);
      case Acknowledge(k, status) => ForeignAcknowledge(s, k, status, id);
      case _ => ForeignOther(c, s, a, id);
    }
    UndisturbedEffort(s, Do(c, s, a), id);
  }

  // ---------------------------------------------------------------- over a run

  /** How many of the first `n` steps were effective worker writes on job `id`. */
  ghost function Work(states: seq<State>, actions: seq<Action>, id: JobId, n: nat): nat
    requires n <= |actions| < |states|
  {
    if n == 0 then 0
    else Work(states, actions, id, n - 1) + if Effective(states[n - 1], actions[n - 1], id) then 1 else 0
  }

  function Bound(total: nat): nat { MAX_ATTEMPTS * (total + 1) + 1 }

  lemma WorkStep(c: Config, s: State, a: Action, id: JobId)
    requires Rows(s) && Leases(s) && Workers(c, s) && Can(c, s, a) && id in s.usedIds
    ensures Effort(Do(c, s, a), id) + (if Effective(s, a, id) then 1 else 0) <= Effort(s, id)
  {
    hide *;
    if Effective(s, a, id) {
      EffectiveDecreases(c, s, a, id);
    } else {
      OthersNeverIncrease(c, s, a, id);
    }
  }

  lemma FreshEffort(c: Config, s: State, a: Action, id: JobId)
    requires Rows(s) && Leases(s) && Can(c, s, a) && id !in s.usedIds && id in Do(c, s, a).jobs
    requires Rows(Do(c, s, a))
    ensures !Effective(s, a, id) && Effort(Do(c, s, a), id) <= Bound(Do(c, s, a).jobs[id].total)
  {
    assert a.Create? by { StepMoves(c, s, a); }
    Unworked(c, s, a, id);
  }

  lemma {:induction false} NoEarlierWork(c: Config, states: seq<State>, actions: seq<Action>, id: JobId, n: nat)
    requires ValidConfig(c) && Run(c, states, actions) && n <= |actions| && id !in states[n].usedIds
    ensures Work(states, actions, id, n) == 0
  {
    hide Do;
    if n > 0 {
      RunSafe(c, states, actions, n - 1);
      StepMoves(c, states[n - 1], actions[n - 1]);
      Unworked(c, states[n - 1], actions[n - 1], id);
      NoEarlierWork(c, states, actions, id, n - 1);
    }
  }

  lemma Unworked(c: Config, s: State, a: Action, id: JobId)
    requires Rows(s) && Leases(s) && Can(c, s, a) && id !in s.usedIds
    ensures !Effective(s, a, id)
  {
  }

  /** The work one retained job has received never exceeds ten claims, their datasets and one
      final write, whatever crashes, expires or is redelivered. */
  lemma {:induction false} WorkBounded(c: Config, states: seq<State>, actions: seq<Action>, id: JobId, n: nat)
    requires ValidConfig(c) && Run(c, states, actions) && n <= |actions| && id in states[n].jobs
    ensures Work(states, actions, id, n) + Effort(states[n], id) <= Bound(states[n].jobs[id].total)
  {
    hide Do, Effort, Effective;
    RunSafe(c, states, actions, n);
    if n > 0 {
      RunSafe(c, states, actions, n - 1);
      var s, s', a := states[n - 1], states[n], actions[n - 1];
      StepMoves(c, s, a);
      if id in s.usedIds {
        WorkBounded(c, states, actions, id, n - 1);
        WorkStep(c, s, a, id);
      } else {
        NoEarlierWork(c, states, actions, id, n - 1);
        FreshEffort(c, s, a, id);
      }
    }
  }
}
