/**
 What the export protocol guarantees about whole histories: which status changes happen, that
 one lease token completes a job, and that what it recorded about the archive stays.
 */
module ExportHistory {
  import opened Options
  import opened ExportJobs
  import opened ExportMachine
  import opened ExportInvariant
  import opened ExportSafety

  // ---------------------------------------------------------------- status changes

  predicate LegalMove(from: Status, to: Status) {
    from == to
    || (from.Queued? && (to.Running? || to.Cancelled?))
    || (from.Running? && (to.Ready? || to.Failed? || to.Cancelled?))
    || (from.Ready? && (to.Expired? || to.Cancelled?))
  }

  /** What completion recorded about an archive besides its name. */
  predicate SameArchive(j: Job, j': Job) {
    j'.sha == j.sha && j'.size == j.size && j'.completedAt == j.completedAt
    && j'.expiresAt == j.expiresAt && j'.progress == j.progress
  }

  /** A surviving row keeps what identifies its request and never loses an attempt; a READY row
      keeps everything about its archive. */
  predicate RowMoves(j: Job, j': Job) {
    LegalMove(j.status, j'.status) && (j'.status.Ready? && j.status.Ready? ==> SameArchive(j, j'))
    && SameActor(j', j.group, j.user, j.scope) && j'.key == j.key && j'.hash == j.hash
    && j'.requestedAt == j.requestedAt && j'.total == j.total && j.attempts <= j'.attempts
  }

  ghost predicate TableMoves(s: State, s': State) {
    s.usedIds <= s'.usedIds
    && (forall id <- s.jobs.Keys :: if id in s'.jobs then RowMoves(s.jobs[id], s'.jobs[id]) else Terminal(s.jobs[id].status))
    && (forall id <- s'.jobs.Keys :: id in s.jobs || id !in s.usedIds)
    && (forall id <- s.outcomes.Keys :: id in s'.outcomes && s'.outcomes[id] == s.outcomes[id])
  }

  /** One row changes, and an outcome is recorded only where there was none. */
  ghost predicate OneRow(s: State, s': State, id: JobId) {
    id in s.jobs && id in s'.jobs && s'.jobs == s.jobs[id := s'.jobs[id]] && RowMoves(s.jobs[id], s'.jobs[id])
    && s'.usedIds == s.usedIds
    && (s'.outcomes == s.outcomes
        || (id !in s.outcomes && id in s'.outcomes && s'.outcomes == s.outcomes[id := s'.outcomes[id]]))
  }

  lemma OneRowMoves(s: State, s': State, id: JobId)
    requires OneRow(s, s', id)
    ensures TableMoves(s, s')
  {
  }

  lemma SettleMoves(s: State, id: JobId, j': Job, token: Option<Token>)
    requires Rows(s) && id in s.jobs && Active(s.jobs[id]) && RowMoves(s.jobs[id], j')
    ensures TableMoves(s, Settle(s, id, j', token))
  {
    assert RowHistory(id, s.jobs[id], s.outcomes);
    OneRowMoves(s, Settle(s, id, j', token), id);
  }

  lemma ProgressMoves(c: Config, s: State, t: Token, at: int)
    requires Rows(s) && t in s.workers
    ensures TableMoves(s, DoProgress(c, s, t, at))
  {
    if HoldsLease(s.jobs, s.workers[t].job, t) {
      OneRowMoves(s, DoProgress(c, s, t, at), s.workers[t].job);
    }
  }

  lemma CompleteMoves(c: Config, s: State, t: Token, at: int, authorized: bool)
    requires Rows(s) && t in s.workers
    ensures TableMoves(s, DoComplete(c, s, t, at, authorized))
  {
    var w := s.workers[t];
    if HoldsLease(s.jobs, w.job, t) {
      var j' := if authorized then ReadyRow(s.jobs[w.job], Zip(w.job, t), w.sha, at, c.retention)
                else CancelledRow(s.jobs[w.job], at).(artifact := None);
      SettleMoves(s, w.job, j', if authorized then Some(t) else None);
    }
  }

  lemma FailMoves(s: State, t: Token, at: int, code: ErrorCode)
    requires Rows(s) && t in s.workers
    ensures TableMoves(s, DoFail(s, t, at, code))
  {
    var w := s.workers[t];
    if HoldsLease(s.jobs, w.job, t) {
      SettleMoves(s, w.job, FailedRow(s.jobs[w.job], code, at), Some(t));
    }
  }

  lemma RemoveMoves(s: State, id: JobId, at: int)
    requires Rows(s) && id in s.jobs
    ensures TableMoves(s, DoRemove(s, id, at))
  {
    var j := s.jobs[id];
    if !Terminal(j.status) {
      SettleMoves(s, id, CancelledRow(j, at).(completedAt := if j.completedAt.Some? then j.completedAt else Some(at)), None);
    }
  }

  lemma ClaimMoves(c: Config, s: State, id: JobId, t: Token, at: int, authorized: bool)
    requires Rows(s) && id in s.jobs && Claimable(s.jobs[id], at)
    ensures TableMoves(s, DoClaim(c, s, id, t, at, authorized))
  {
    if authorized {
      OneRowMoves(s, DoClaim(c, s, id, t, at, authorized), id);
    } else {
      SettleMoves(s, id, CancelledRow(s.jobs[id], at).(error := None), None);
    }
  }

  lemma ExhaustedMoves(s: State, id: JobId, at: int)
    requires Rows(s) && id in s.jobs && Exhausted(s.jobs[id], at)
    ensures TableMoves(s, Settle(s, id, FailedRow(s.jobs[id], AttemptsExhausted, at), None))
  {
    assert id in s.jobs ==> RowHistory(id, s.jobs[id], s.outcomes);
  }

  lemma RetireMoves(s: State, k: nat, id: JobId, authorized: bool)
    requires Rows(s) && k in s.cleaners && id in s.cleaners[k].listed
    ensures TableMoves(s, DoRetire(s, k, id, authorized))
  {
    assert id in s.jobs ==> RowHistory(id, s.jobs[id], s.outcomes);
  }

  lemma ForgetMoves(s: State, k: nat, id: JobId)
    requires Rows(s) && k in s.cleaners && id in s.cleaners[k].listed
    ensures TableMoves(s, DoForget(s, k, id))
  {
    assert id in s.jobs ==> RowHistory(id, s.jobs[id], s.outcomes);
  }

  lemma AcknowledgeMoves(s: State, id: JobId, status: Status)
    requires Rows(s)
    ensures TableMoves(s, DoAcknowledge(s, id, status))
  {
    if DoAcknowledge(s, id, status) != s {
      OneRowMoves(s, DoAcknowledge(s, id, status), id);
    }
  }

  lemma OtherActionMoves(c: Config, s: State, a: Action)
    requires Can(c, s, a) && !a.Create?
    requires !(a.Claim? || a.Progress? || a.Complete? || a.Fail?)
    requires !(a.Remove? || a.FailExhausted? || a.CleanupRetire? || a.CleanupForget? || a.Acknowledge?)
    ensures TableMoves(s, Do(c, s, a)) && Do(c, s, a).usedIds == s.usedIds
  {
    hide DoCreate, DoRemove, DoClaim, DoProgress, DoComplete, DoFail, DoRetire, DoForget, DoAcknowledge;
  }

  lemma CreateMoves(c: Config, s: State, a: Action)
    requires Rows(s) && a.Create? && a.id !in s.usedIds
    ensures TableMoves(s, DoCreate(c, s, a))
  {
  }

  lemma WorkerStepMoves(c: Config, s: State, a: Action)
    requires Rows(s) && Can(c, s, a) && (a.Claim? || a.Progress? || a.Complete? || a.Fail?)
    ensures TableMoves(s, Do(c, s, a)) && Do(c, s, a).usedIds == s.usedIds
  {
    hide TableMoves, Rows;
    match a {
      case Claim(id, t, at, authorized) => ClaimMoves(c, s, id, t, at, authorized);
      case Progress(t, at) => ProgressMoves(c, s, t, at);
      case Complete(t, at, authorized) => CompleteMoves(c, s, t, at, authorized);
      case Fail(t, at, code) => FailMoves(s, t, at, code);
    }
  }

  lemma TableStepMoves(c: Config, s: State, a: Action)
    requires Rows(s) && Can(c, s, a)
    requires a.Remove? || a.FailExhausted? || a.CleanupRetire? || a.CleanupForget? || a.Acknowledge?
    ensures TableMoves(s, Do(c, s, a)) && Do(c, s, a).usedIds == s.usedIds
  {
    hide TableMoves, Rows;
    match a {
      case Remove(id, at) => RemoveMoves(s, id, at);
      case FailExhausted(id, at) => ExhaustedMoves(s, id, at);
      case CleanupRetire(k, id, authorized) => RetireMoves(s, k, id, authorized);
      case CleanupForget(k, id) => ForgetMoves(s, k, id);
      case Acknowledge(id, status) => AcknowledgeMoves(s, id, status);
    }
  }

  /** Every step moves every row legally; only terminal rows are ever deleted. */
  lemma StepMoves(c: Config, s: State, a: Action)
    requires Rows(s) && Can(c, s, a)
    ensures TableMoves(s, Do(c, s, a)) && (!a.Create? ==> Do(c, s, a).usedIds == s.usedIds)
  {
    hide TableMoves, Rows;
    if a.Create? {
      CreateMoves(c, s, a);
    } else if a.Claim? || a.Progress? || a.Complete? || a.Fail? {
      WorkerStepMoves(c, s, a);
    } else if a.Remove? || a.FailExhausted? || a.CleanupRetire? || a.CleanupForget? || a.Acknowledge? {
      TableStepMoves(c, s, a);
    } else {
      OtherActionMoves(c, s, a);
    }
  }

  ghost predicate Follows(from: Status, to: Status) {
    from == to || from.Queued? || (from.Running? && !to.Queued?)
    || (from.Ready? && (to.Expired? || to.Cancelled?))
  }

  /** A run seen through its tables only. */
  ghost predicate Chain(states: seq<State>) {
    (forall i :: 0 <= i < |states| ==> Rows(states[i]))
    && (forall i, j :: 0 <= i < |states| && j == i + 1 < |states| ==> TableMoves(states[i], states[j]))
  }

  lemma RunChain(c: Config, states: seq<State>, actions: seq<Action>)
    requires ValidConfig(c) && Run(c, states, actions)
    ensures Chain(states)
  {
    forall i | 0 <= i < |states| ensures Rows(states[i]) {
      RunSafe(c, states, actions, i);
    }
    forall i, j | 0 <= i < |states| && j == i + 1 < |states| ensures TableMoves(states[i], states[j]) {
      StepMoves(c, states[i], actions[i]);
    }
  }

  lemma {:induction false} ChainRemembers(states: seq<State>, i: nat, j: nat)
    requires Chain(states) && i <= j < |states|
    ensures states[i].usedIds <= states[j].usedIds
    ensures forall id <- states[i].outcomes.Keys :: id in states[j].outcomes && states[j].outcomes[id] == states[i].outcomes[id]
    decreases j - i
  {
    if i < j {
      assert TableMoves(states[j - 1], states[j]);
      ChainRemembers(states, i, j - 1);
    }
  }

  /** Over any stretch of a run a surviving job only moves forward and its request columns are
      immutable. */
  lemma {:induction false} ChainMoves(states: seq<State>, i: nat, j: nat, id: JobId)
    requires Chain(states) && i <= j < |states|
    requires id in states[i].jobs && id in states[j].jobs
    ensures var a, b := states[i].jobs[id], states[j].jobs[id];
            Follows(a.status, b.status) && SameActor(b, a.group, a.user, a.scope) && b.key == a.key && b.hash == a.hash
            && b.requestedAt == a.requestedAt && b.total == a.total && a.attempts <= b.attempts
    decreases j - i
  {
    if i < j {
      ChainRemembers(states, i, j - 1);
      assert Rows(states[i]) && TableMoves(states[j - 1], states[j]);
      ChainMoves(states, i, j - 1, id);
    }
  }

  // ---------------------------------------------------------------- one completing write

  /** The step in which attempt `t` writes READY for job `id`. */
  ghost predicate Completes(s: State, a: Action, id: JobId, t: Token) {
    a.Complete? && a.token == t && a.authorized && t in s.workers && s.workers[t].job == id
    && HoldsLease(s.jobs, id, t)
  }

  lemma CompletionSettles(c: Config, s: State, a: Action, id: JobId, t: Token)
    requires Rows(s) && Can(c, s, a) && Completes(s, a, id, t)
    ensures id !in s.outcomes && id in s.usedIds
    ensures id in Do(c, s, a).outcomes && Do(c, s, a).outcomes[id] == Outcome(Ready, Some(t))
  {
    assert RowHistory(id, s.jobs[id], s.outcomes);
  }

  /** At most one step of a run, hence at most one lease token, completes a job. */
  lemma CompletedOnce(c: Config, states: seq<State>, actions: seq<Action>, i: nat, j: nat, id: JobId, t: Token, u: Token)
    requires ValidConfig(c) && Run(c, states, actions) && i < |actions| && j < |actions|
    requires Completes(states[i], actions[i], id, t) && Completes(states[j], actions[j], id, u)
    ensures i == j && t == u
  {
    RunChain(c, states, actions);
    RunSafe(c, states, actions, i);
    RunSafe(c, states, actions, j);
    CompletionSettles(c, states[i], actions[i], id, t);
    CompletionSettles(c, states[j], actions[j], id, u);
    if i < j {
      ChainRemembers(states, i + 1, j);
    } else if j < i {
      ChainRemembers(states, j + 1, i);
    }
  }

  /** For as long as a job stays READY its row says what the completing write recorded: the
      archive of that attempt with its size and digest, and an expiry one retention later. */
  lemma {:induction false} ReadyRecordStable(c: Config, states: seq<State>, actions: seq<Action>, i: nat, j: nat, id: JobId, t: Token)
    requires ValidConfig(c) && Run(c, states, actions) && i < |actions| && i < j < |states|
    requires Completes(states[i], actions[i], id, t) && id in states[j].jobs && states[j].jobs[id].status.Ready?
    ensures var row, content := states[j].jobs[id], states[i].workers[t].sha;
            row.artifact == Some(Zip(id, t)) && row.sha == Some(content) && row.size == Some(|content|)
            && row.completedAt == Some(actions[i].at) && row.expiresAt == Some(actions[i].at + c.retention)
            && row.progress == row.total
    decreases j
  {
    hide Do, TableMoves, Rows;
    RunChain(c, states, actions);
    if j == i + 1 {
      CompletedRow(c, states[i], actions[i], id, t);
    } else {
      assert Rows(states[i]) && Rows(states[j - 1]) && TableMoves(states[j - 1], states[j]);
      CompletionSettles(c, states[i], actions[i], id, t);
      ChainRemembers(states, i + 1, j - 1);
      ChainRemembers(states, i, j - 1);
      ChainRemembers(states, i + 1, j);
      assert Rows(states[j]);
      ReadyBefore(states[j - 1], states[j], id);
      ReadyRecordStable(c, states, actions, i, j - 1, id, t);
      ArtifactIsWinner(states[j], id, t);
    }
  }

  lemma ArtifactIsWinner(s: State, id: JobId, t: Token)
    requires Rows(s) && id in s.jobs && s.jobs[id].status.Ready? && id in s.outcomes && s.outcomes[id].token == Some(t)
    ensures s.jobs[id].artifact == Some(Zip(id, t))
  {
    assert RowShape(s.jobs[id]) && RowHistory(id, s.jobs[id], s.outcomes);
  }

  lemma CompletedRow(c: Config, s: State, a: Action, id: JobId, t: Token)
    requires Can(c, s, a) && Completes(s, a, id, t)
    ensures id in Do(c, s, a).jobs
    ensures Do(c, s, a).jobs[id] == ReadyRow(s.jobs[id], Zip(id, t), s.workers[t].sha, a.at, c.retention)
  {
  }

  /** A settled job that is READY was READY before, with the same archive. */
  lemma ReadyBefore(s: State, s': State, id: JobId)
    requires Rows(s) && TableMoves(s, s') && id in s.outcomes && s.outcomes[id].status.Ready?
    requires id in s.usedIds && id in s'.jobs && s'.jobs[id].status.Ready?
    ensures id in s.jobs && s.jobs[id].status.Ready? && SameArchive(s.jobs[id], s'.jobs[id]) && s'.jobs[id].total == s.jobs[id].total
  {
    assert RowHistory(id, s.jobs[id], s.outcomes);
  }
}
