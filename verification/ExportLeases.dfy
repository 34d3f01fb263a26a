/**
 What a lease buys: the job of an attempt is not taken over before one lease has passed since
 the attempt claimed it or last reported progress.
 */
module ExportLeases {
  import opened ExportJobs
  import opened ExportMachine
  import opened ExportInvariant
  import opened ExportSafety

  /** A step that starts or renews the lease on job `id`. */
  ghost predicate Renews(s: State, a: Action, id: JobId) {
    (a.Claim? && a.id == id && a.authorized)
    || (a.Progress? && a.token in s.workers && s.workers[a.token].job == id && HoldsLease(s.jobs, id, a.token))
  }

  /** The job was claimed before, and while it is running its lease ends at `until`. */
  predicate LeasedUntil(s: State, id: JobId, until: int) {
    id in s.usedIds
    && (id in s.jobs ==> !s.jobs[id].status.Queued?
                         && (s.jobs[id].status.Running? ==> s.jobs[id].lease.Some? && s.jobs[id].lease.value.until == until))
  }

  lemma LeaseStarts(c: Config, s: State, a: Action, id: JobId)
    requires Rows(s) && Can(c, s, a) && Renews(s, a, id)
    ensures LeasedUntil(Do(c, s, a), id, a.at + c.lease)
  {
    assert id in s.usedIds;
  }

  /** A lease is changed only by a step that renews it or ends the attempt. */
  ghost predicate LeaseKept(s: State, s': State, id: JobId) {
    s.usedIds <= s'.usedIds
    && (id in s.usedIds && id in s'.jobs ==>
          id in s.jobs
          && (s'.jobs[id].status.Queued? ==> s.jobs[id].status.Queued?)
          && (s'.jobs[id].status.Running? ==> s.jobs[id].status.Running? && s'.jobs[id].lease == s.jobs[id].lease))
  }

  lemma CreateKeepsLease(c: Config, s: State, a: Action, id: JobId)
    requires a.Create? && a.id !in s.usedIds
    ensures LeaseKept(s, DoCreate(c, s, a), id)
  {
  }

  lemma WorkerKeepsLease(c: Config, s: State, a: Action, id: JobId)
    requires Can(c, s, a) && (a.Claim? || a.Progress? || a.Complete? || a.Fail?) && !Renews(s, a, id)
    ensures LeaseKept(s, Do(c, s, a), id)
  {
    hide DoRemove, DoRetire, DoForget, DoAcknowledge, DoCreate;
  }

  lemma TableKeepsLease(c: Config, s: State, a: Action, id: JobId)
    requires Can(c, s, a) && (a.Remove? || a.FailExhausted? || a.CleanupRetire? || a.CleanupForget? || a.Acknowledge?)
    ensures LeaseKept(s, Do(c, s, a), id)
  {
    hide DoClaim, DoProgress, DoComplete, DoFail, DoCreate;
  }

  lemma OtherKeepsLease(c: Config, s: State, a: Action, id: JobId)
    requires Can(c, s, a) && !(a.Create? || a.Claim? || a.Progress? || a.Complete? || a.Fail?)
    requires !(a.Remove? || a.FailExhausted? || a.CleanupRetire? || a.CleanupForget? || a.Acknowledge?)
    ensures LeaseKept(s, Do(c, s, a), id)
  {
    hide DoCreate, DoRemove, DoClaim, DoProgress, DoComplete, DoFail, DoRetire, DoForget, DoAcknowledge;
  }

  lemma StepKeepsLease(c: Config, s: State, a: Action, id: JobId)
    requires Can(c, s, a) && !Renews(s, a, id)
    ensures LeaseKept(s, Do(c, s, a), id)
  {
    hide LeaseKept;
    if a.Create? {
      CreateKeepsLease(c, s, a, id);
    } else if a.Claim? || a.Progress? || a.Complete? || a.Fail? {
      WorkerKeepsLease(c, s, a, id);
    } else if a.Remove? || a.FailExhausted? || a.CleanupRetire? || a.CleanupForget? || a.Acknowledge? {
      TableKeepsLease(c, s, a, id);
    } else {
      OtherKeepsLease(c, s, a, id);
    }
  }

  lemma {:induction false} LeaseLasts(c: Config, states: seq<State>, actions: seq<Action>, i: nat, j: nat, id: JobId)
    requires ValidConfig(c) && Run(c, states, actions) && i < j < |states|
    requires Renews(states[i], actions[i], id) && forall k :: i < k < j ==> !Renews(states[k], actions[k], id)
    ensures LeasedUntil(states[j], id, actions[i].at + c.lease)
    decreases j
  {
    hide Do, Can, LeasedUntil;
    if j == i + 1 {
      RunSafe(c, states, actions, i);
      LeaseStarts(c, states[i], actions[i], id);
    } else {
      LeaseLasts(c, states, actions, i, j - 1, id);
      StepKeepsLease(c, states[j - 1], actions[j - 1], id);
      KeptUntil(states[j - 1], states[j], id, actions[i].at + c.lease);
    }
  }

  lemma KeptUntil(s: State, s': State, id: JobId, until: int)
    requires LeasedUntil(s, id, until) && LeaseKept(s, s', id)
    ensures LeasedUntil(s', id, until)
  {
  }

  /** Between an attempt's claim or last renewal, at its clock reading, and one lease later nobody
      claims the job again and nobody declares it exhausted. */
  lemma LeaseRespected(c: Config, states: seq<State>, actions: seq<Action>, i: nat, j: nat, id: JobId)
    requires ValidConfig(c) && Run(c, states, actions) && i < j < |actions|
    requires Renews(states[i], actions[i], id) && forall k :: i < k < j ==> !Renews(states[k], actions[k], id)
    requires (actions[j].Claim? || actions[j].FailExhausted?) && actions[j].id == id
    ensures actions[i].at + c.lease <= actions[j].at
  {
    hide Do;
    LeaseLasts(c, states, actions, i, j, id);
  }
}
