/**
 Safety of the export protocol over every interleaving of workers, crashed workers, Cleanup
 passes, removals and redeliveries: every action keeps the invariant, so every state of every
 run has it.
 */
module ExportSafety {
  import opened Options
  import opened ExportJobs
  import opened ExportMachine
  import opened ExportInvariant

  // ---------------------------------------------------------------- table actions

  lemma TickKeeps(c: Config, s: State, elapsed: nat)
    requires Inv(c, s)
    ensures Inv(c, DoTick(s, elapsed))
  {
    CleanersKept(c, s, DoTick(s, elapsed));
  }

  lemma CreateKeeps(c: Config, s: State, id: JobId, j: Job)
    requires Inv(c, s) && id !in s.usedIds && RowShape(j) && j.status.Queued? && j.artifact.None?
    ensures Inv(c, s.(jobs := s.jobs[id := j], usedIds := s.usedIds + {id}))
  {
    var s' := s.(jobs := s.jobs[id := j], usedIds := s.usedIds + {id});
    CreateRows(c, s, id, j);
    assert ReadyArtifacts(c, s') && Files(s') && LiveTemporaries(c, s');
    CleanersKept(c, s, s');
  }

  lemma CreateStepKeeps(c: Config, s: State, a: Action)
    requires Inv(c, s) && a.Create? && a.id !in s.usedIds && 0 < a.total
    ensures Inv(c, DoCreate(c, s, a))
  {
    CreateKeeps(c, s, a.id, QueuedRow(a.group, a.user, a.scope, a.key, a.total, a.at));
  }

  lemma CreateRows(c: Config, s: State, id: JobId, j: Job)
    requires Rows(s) && Leases(s) && Outcomes(s) && Workers(c, s)
    requires id !in s.usedIds && RowShape(j) && j.status.Queued? && j.artifact.None?
    ensures var s' := s.(jobs := s.jobs[id := j], usedIds := s.usedIds + {id});
            Rows(s') && Leases(s') && Outcomes(s') && Workers(c, s')
  {
    var s' := s.(jobs := s.jobs[id := j], usedIds := s.usedIds + {id});
    forall t <- s'.workers.Keys ensures WorkerOk(c, s', t, s'.workers[t]) {
      assert WorkerOk(c, s, t, s.workers[t]);
    }
  }

  lemma RemoveKeeps(c: Config, s: State, id: JobId, at: int)
    requires Inv(c, s) && id in s.jobs
    ensures Inv(c, DoRemove(s, id, at))
  {
    var j := s.jobs[id];
    if Terminal(j.status) {
      DeleteRowKeeps(c, s, id);
      if j.artifact.Some? {
        WinnerHalted(c, s, id);
        RemovedUnlinkable(c, s, id);
        UnlinkKeeps(c, s.(jobs := s.jobs - {id}), j.artifact.value);
      }
    } else {
      assert RowShape(j) && RowHistory(id, j, s.outcomes);
      SettleKeeps(c, s, id, CancelledRow(j, at), None);
    }
  }

  lemma RemovedUnlinkable(c: Config, s: State, id: JobId)
    requires Rows(s) && Outcomes(s) && id in s.jobs && s.jobs[id].artifact.Some?
    ensures Unlinkable(c, s.(jobs := s.jobs - {id}), s.jobs[id].artifact.value)
  {
    var s' := s.(jobs := s.jobs - {id});
    var n := s.jobs[id].artifact.value;
    WinnerHalted(c, s, id);
    assert RowHistory(id, s.jobs[id], s.outcomes);
    forall k <- s'.jobs.Keys | s'.jobs[k].status.Ready? ensures s'.jobs[k].artifact != Some(n) {
      assert RowHistory(k, s.jobs[k], s.outcomes);
    }
  }

  lemma DeleteRowKeeps(c: Config, s: State, id: JobId)
    requires Inv(c, s) && id in s.jobs
    ensures Inv(c, s.(jobs := s.jobs - {id}))
  {
    DeleteRowRows(c, s, id);
    DeleteRowCleaners(c, s, id);
  }

  lemma DeleteRowRows(c: Config, s: State, id: JobId)
    requires Rows(s) && Leases(s) && Outcomes(s) && Workers(c, s) && Files(s) && LiveTemporaries(c, s) && ReadyArtifacts(c, s)
    ensures var s' := s.(jobs := s.jobs - {id});
            Rows(s') && Leases(s') && Outcomes(s') && Workers(c, s') && Files(s') && LiveTemporaries(c, s') && ReadyArtifacts(c, s')
  {
    var s' := s.(jobs := s.jobs - {id});
    assert Workers(c, s');
  }

  lemma DeleteRowCleaners(c: Config, s: State, id: JobId)
    requires Cleaners(c, s)
    ensures Cleaners(c, s.(jobs := s.jobs - {id}))
  {
    CleanersKept(c, s, s.(jobs := s.jobs - {id}));
  }

  function NewWorker(s: State, id: JobId): Worker
    requires id in s.jobs
  {
    Worker(id, s.jobs[id].total, Claimed, s.clock, s.clock, 0, [])
  }

  lemma ClaimKeeps(c: Config, s: State, id: JobId, t: Token, at: int, authorized: bool)
    requires Inv(c, s) && id in s.jobs && Claimable(s.jobs[id], at) && t !in s.workers
    ensures Inv(c, DoClaim(c, s, id, t, at, authorized))
  {
    if authorized {
      NewWorkerKeeps(c, s, id, t);
      ClaimRowKeeps(c, s.(workers := s.workers[t := NewWorker(s, id)]), id, t, at);
    } else {
      assert RowShape(s.jobs[id]) && RowHistory(id, s.jobs[id], s.outcomes);
      SettleKeeps(c, s, id, CancelledRow(s.jobs[id], at).(error := None), None);
    }
  }

  lemma ClaimRowKeeps(c: Config, s: State, id: JobId, t: Token, at: int)
    requires Inv(c, s) && id in s.jobs && Claimable(s.jobs[id], at) && t in s.workers && s.workers[t].job == id
    ensures Inv(c, WithRow(s, id, ClaimedRow(s.jobs[id], t, at, c.lease)))
  {
    assert RowShape(s.jobs[id]) && RowHistory(id, s.jobs[id], s.outcomes);
    RowUpdateKeeps(c, s, WithRow(s, id, ClaimedRow(s.jobs[id], t, at, c.lease)), id);
  }

  lemma NewWorkerKeeps(c: Config, s: State, id: JobId, t: Token)
    requires Inv(c, s) && id in s.jobs && t !in s.workers
    ensures Inv(c, s.(workers := s.workers[t := NewWorker(s, id)]))
  {
    var s' := s.(workers := s.workers[t := NewWorker(s, id)]);
    assert Rows(s') && Leases(s') && Outcomes(s');
    NewWorkerWorkers(c, s, id, t);
    CleanersKept(c, s, s');
  }

  lemma NewWorkerWorkers(c: Config, s: State, id: JobId, t: Token)
    requires ValidConfig(c) && Rows(s) && Workers(c, s) && Files(s) && LiveTemporaries(c, s)
    requires id in s.jobs && t !in s.workers
    ensures var s' := s.(workers := s.workers[t := NewWorker(s, id)]);
            Workers(c, s') && Files(s') && LiveTemporaries(c, s')
  {
    var s' := s.(workers := s.workers[t := NewWorker(s, id)]);
    forall i <- s'.workers.Keys ensures WorkerOk(c, s', i, s'.workers[i]) {
      if i != t {
        assert WorkerOk(c, s, i, s.workers[i]);
      }
    }
  }

  // ---------------------------------------------------------------- worker actions

  /** An attempt that only stops, gives up its archive, or seals its file. */
  lemma PhaseKeeps(c: Config, s: State, t: Token, to: Phase)
    requires Inv(c, s) && t in s.workers
    requires to.Halted? || (to.Dropping? && s.workers[t].phase.Published?) || (to.Sealed? && s.workers[t].phase.Generating?)
    ensures Inv(c, WithPhase(s, t, to))
  {
    assert WorkerOk(c, s, t, s.workers[t]);
    PhaseUpdate(c, s, t, to);
    WorkerUpdateKeeps(c, s, WithPhase(s, t, to), t);
  }

  lemma PhaseUpdate(c: Config, s: State, t: Token, to: Phase)
    requires Workers(c, s) && Files(s) && LiveTemporaries(c, s) && t in s.workers
    requires to.Halted? || (to.Dropping? && s.workers[t].phase.Published?) || (to.Sealed? && s.workers[t].phase.Generating?)
    ensures WorkerUpdate(c, s, WithPhase(s, t, to), t)
  {
    assert WorkerOk(c, s, t, s.workers[t]);
  }

  lemma BeginKeeps(c: Config, s: State, t: Token, started: int)
    requires Inv(c, s) && InPhase(s, t, Claimed) && started <= s.clock
    ensures Inv(c, DoBegin(s, t, started))
  {
    BeginUpdate(c, s, t, started);
    WorkerUpdateKeeps(c, s, DoBegin(s, t, started), t);
  }

  lemma BeginUpdate(c: Config, s: State, t: Token, started: int)
    requires ValidConfig(c) && Workers(c, s) && Files(s) && InPhase(s, t, Claimed) && started <= s.clock
    ensures WorkerUpdate(c, s, DoBegin(s, t, started), t)
  {
    assert WorkerOk(c, s, t, s.workers[t]);
  }

  lemma WriteKeeps(c: Config, s: State, t: Token, content: Content)
    requires Inv(c, s) && InPhase(s, t, Generating) && |content| <= c.maxBytes
    ensures Inv(c, DoWrite(s, t, content))
  {
    WriteUpdate(c, s, t, content);
    WorkerUpdateKeeps(c, s, DoWrite(s, t, content), t);
  }

  lemma WriteUpdate(c: Config, s: State, t: Token, content: Content)
    requires Workers(c, s) && Files(s) && LiveTemporaries(c, s)
    requires InPhase(s, t, Generating) && |content| <= c.maxBytes
    ensures WorkerUpdate(c, s, DoWrite(s, t, content), t)
  {
    assert WorkerOk(c, s, t, s.workers[t]);
  }

  lemma HashKeeps(c: Config, s: State, t: Token)
    requires Inv(c, s) && InPhase(s, t, Sealed) && Temp(t) in s.files
    ensures Inv(c, DoHash(s, t))
  {
    HashUpdate(c, s, t);
    WorkerUpdateKeeps(c, s, DoHash(s, t), t);
  }

  lemma HashUpdate(c: Config, s: State, t: Token)
    requires Workers(c, s) && Files(s) && InPhase(s, t, Sealed) && Temp(t) in s.files
    ensures WorkerUpdate(c, s, DoHash(s, t), t)
  {
    assert WorkerOk(c, s, t, s.workers[t]);
  }

  lemma PublishKeeps(c: Config, s: State, t: Token)
    requires Inv(c, s) && InPhase(s, t, Hashed) && Temp(t) in s.files
    ensures Inv(c, DoPublish(s, t))
  {
    PublishUpdate(c, s, t);
    WorkerUpdateKeeps(c, s, DoPublish(s, t), t);
  }

  lemma PublishUpdate(c: Config, s: State, t: Token)
    requires Workers(c, s) && Files(s) && InPhase(s, t, Hashed) && Temp(t) in s.files
    ensures WorkerUpdate(c, s, DoPublish(s, t), t)
  {
    assert WorkerOk(c, s, t, s.workers[t]);
  }

  lemma DropKeeps(c: Config, s: State, t: Token, n: FileName)
    requires Inv(c, s) && t in s.workers
    requires (n == Zip(s.workers[t].job, t) && s.workers[t].phase.Dropping?) || n == Temp(t)
    ensures Inv(c, DoDrop(s, t, n))
  {
    PhaseKeeps(c, s, t, Halted);
    var s1 := WithPhase(s, t, Halted);
    forall id <- s1.jobs.Keys | s1.jobs[id].status.Ready? ensures s1.jobs[id].artifact != Some(n) {
      if s.jobs[id].artifact.Some? {
        WinnerHalted(c, s, id);
        assert RowHistory(id, s.jobs[id], s.outcomes);
      }
    }
    UnlinkKeeps(c, s1, n);
  }

  lemma ProgressKeeps(c: Config, s: State, t: Token, at: int)
    requires Inv(c, s) && InPhase(s, t, Generating) && s.workers[t].done < s.workers[t].total
    ensures Inv(c, DoProgress(c, s, t, at))
  {
    hide Rows, Leases, Outcomes, Workers, Files, LiveTemporaries, ReadyArtifacts, Cleaners;
    var w := s.workers[t];
    if HoldsLease(s.jobs, w.job, t) {
      SameTotal(c, s, t);
      ProgressRowKeeps(c, s, w.job, t, w.done + 1, at);
      var s1 := WithRow(s, w.job, ProgressRow(s.jobs[w.job], w.done + 1, t, at, c.lease));
      assert s1.workers == s.workers;
      assert DoProgress(c, s, t, at) == Counted(s1, t);
      CountKeeps(c, s1, t);
    } else {
      PhaseKeeps(c, s, t, Halted);
    }
  }

  lemma SameTotal(c: Config, s: State, t: Token)
    requires Workers(c, s) && t in s.workers
    ensures s.workers[t].job in s.jobs ==> s.jobs[s.workers[t].job].total == s.workers[t].total
  {
    assert WorkerOk(c, s, t, s.workers[t]);
  }

  lemma ProgressRowKeeps(c: Config, s: State, id: JobId, t: Token, completed: nat, at: int)
    requires Inv(c, s) && HoldsLease(s.jobs, id, t) && completed <= s.jobs[id].total
    ensures Inv(c, WithRow(s, id, ProgressRow(s.jobs[id], completed, t, at, c.lease)))
  {
    var j' := ProgressRow(s.jobs[id], completed, t, at, c.lease);
    assert RowShape(s.jobs[id]) && RowHistory(id, s.jobs[id], s.outcomes);
    assert RowUpdate(s, WithRow(s, id, j'), id);
    RowUpdateKeeps(c, s, WithRow(s, id, j'), id);
  }

  function Counted(s: State, t: Token): State
    requires t in s.workers
  {
    s.(workers := s.workers[t := s.workers[t].(done := s.workers[t].done + 1)])
  }

  lemma CountKeeps(c: Config, s: State, t: Token)
    requires Inv(c, s) && t in s.workers && s.workers[t].done < s.workers[t].total
    ensures Inv(c, Counted(s, t))
  {
    assert WorkerOk(c, s, t, s.workers[t]);
    WorkerUpdateKeeps(c, s, Counted(s, t), t);
  }

  lemma CompleteKeeps(c: Config, s: State, t: Token, at: int, authorized: bool)
    requires Inv(c, s) && InPhase(s, t, Published)
    requires authorized && HoldsLease(s.jobs, s.workers[t].job, t) ==> s.clock <= s.workers[t].lastWrite + c.lease
    ensures Inv(c, DoComplete(c, s, t, at, authorized))
  {
    var w := s.workers[t];
    var s' := DoComplete(c, s, t, at, authorized);
    assert w.job in s.jobs ==> RowShape(s.jobs[w.job]) && RowHistory(w.job, s.jobs[w.job], s.outcomes);
    if !HoldsLease(s.jobs, w.job, t) {
      PhaseKeeps(c, s, t, s'.workers[t].phase);
    } else if !authorized {
      SettleKeeps(c, s, w.job, CancelledRow(s.jobs[w.job], at).(artifact := None), None);
      PhaseKeeps(c, Settle(s, w.job, CancelledRow(s.jobs[w.job], at).(artifact := None), None), t, Dropping);
    } else {
      ReadyRows(c, s, t, at);
      ReadyFiles(c, s, t, at);
      ReadyCleaners(c, s, t, at);
    }
  }

  lemma ReadyRows(c: Config, s: State, t: Token, at: int)
    requires Rows(s) && Leases(s) && Outcomes(s) && Workers(c, s) && InPhase(s, t, Published) && HoldsLease(s.jobs, s.workers[t].job, t)
    ensures var s' := DoComplete(c, s, t, at, true); Rows(s') && Leases(s') && Outcomes(s')
  {
    var id := s.workers[t].job;
    assert RowShape(s.jobs[id]) && RowHistory(id, s.jobs[id], s.outcomes);
    ReadyRowKeeps(c, s, t, at);
    ReadyOutcomes(c, s, t, at);
    assert Leases(DoComplete(c, s, t, at, true));
  }

  lemma ReadyRowKeeps(c: Config, s: State, t: Token, at: int)
    requires Rows(s) && InPhase(s, t, Published) && HoldsLease(s.jobs, s.workers[t].job, t)
    ensures Rows(DoComplete(c, s, t, at, true))
  {
    var id := s.workers[t].job;
    assert RowShape(s.jobs[id]) && RowHistory(id, s.jobs[id], s.outcomes);
  }

  lemma ReadyOutcomes(c: Config, s: State, t: Token, at: int)
    requires Rows(s) && Outcomes(s) && InPhase(s, t, Published) && HoldsLease(s.jobs, s.workers[t].job, t)
    ensures Outcomes(DoComplete(c, s, t, at, true))
  {
    assert s.workers[t].job in s.usedIds;
  }

  lemma ReadyFiles(c: Config, s: State, t: Token, at: int)
    requires Rows(s) && Outcomes(s) && Workers(c, s) && Files(s) && LiveTemporaries(c, s) && ReadyArtifacts(c, s)
    requires InPhase(s, t, Published) && HoldsLease(s.jobs, s.workers[t].job, t)
    requires s.clock <= s.workers[t].lastWrite + c.lease
    ensures var s' := DoComplete(c, s, t, at, true);
            Workers(c, s') && Files(s') && LiveTemporaries(c, s') && ReadyArtifacts(c, s')
  {
    ReadyArtifact(c, s, t, at);
    ReadyWorkers(c, s, t, at);
    var s' := DoComplete(c, s, t, at, true);
    assert Files(s') && LiveTemporaries(c, s');
  }

  lemma ReadyArtifact(c: Config, s: State, t: Token, at: int)
    requires Workers(c, s) && ReadyArtifacts(c, s)
    requires InPhase(s, t, Published) && HoldsLease(s.jobs, s.workers[t].job, t)
    requires s.clock <= s.workers[t].lastWrite + c.lease
    ensures ReadyArtifacts(c, DoComplete(c, s, t, at, true))
  {
    assert WorkerOk(c, s, t, s.workers[t]);
  }

  lemma ReadyWorkers(c: Config, s: State, t: Token, at: int)
    requires Workers(c, s) && InPhase(s, t, Published) && HoldsLease(s.jobs, s.workers[t].job, t)
    ensures Workers(c, DoComplete(c, s, t, at, true))
  {
    var s' := DoComplete(c, s, t, at, true);
    forall i <- s'.workers.Keys ensures WorkerOk(c, s', i, s'.workers[i]) {
      assert WorkerOk(c, s, i, s.workers[i]);
    }
  }

  lemma ReadyCleaners(c: Config, s: State, t: Token, at: int)
    requires Rows(s) && Outcomes(s) && Workers(c, s) && Files(s) && Cleaners(c, s) && InPhase(s, t, Published) && HoldsLease(s.jobs, s.workers[t].job, t)
    requires s.clock <= s.workers[t].lastWrite + c.lease
    ensures Cleaners(c, DoComplete(c, s, t, at, true))
  {
    var s' := DoComplete(c, s, t, at, true);
    var id := s.workers[t].job;
    assert RowHistory(id, s.jobs[id], s.outcomes);
    forall k <- s'.cleaners.Keys ensures CleanerOk(c, s', s'.cleaners[k]) {
      var cl := s.cleaners[k];
      assert CleanerOk(c, s, cl);
      forall n <- cl.condemned ensures Condemned(c, s', n) {
        assert Condemned(c, s, n);
      }
    }
  }

  lemma FailKeeps(c: Config, s: State, t: Token, at: int, code: ErrorCode)
    requires Inv(c, s) && t in s.workers
    ensures Inv(c, DoFail(s, t, at, code))
  {
    var w := s.workers[t];
    if HoldsLease(s.jobs, w.job, t) {
      assert RowShape(s.jobs[w.job]) && RowHistory(w.job, s.jobs[w.job], s.outcomes);
      SettleKeeps(c, s, w.job, FailedRow(s.jobs[w.job], code, at), Some(t));
      PhaseKeeps(c, Settle(s, w.job, FailedRow(s.jobs[w.job], code, at), Some(t)), t, Halted);
    } else {
      PhaseKeeps(c, s, t, Halted);
    }
  }

  // ---------------------------------------------------------------- Cleanup actions

  lemma RetireKeeps(c: Config, s: State, k: nat, id: JobId, authorized: bool)
    requires Inv(c, s) && k in s.cleaners && id in s.cleaners[k].listed
    ensures Inv(c, DoRetire(s, k, id, authorized))
  {
    hide Inv;
    var cl := s.cleaners[k];
    var expired := cl.listed[id].expiresAt <= cl.now;
    if expired || !authorized {
      if id in s.jobs && s.jobs[id].status.Ready? {
        RetireRowKeeps(c, s, id, expired);
        ToDropKeeps(c, WithRow(s, id, RetiredRow(s.jobs[id], expired)), k, id);
      } else {
        ToDropKeeps(c, s, k, id);
      }
    }
  }

  lemma RetireRowKeeps(c: Config, s: State, id: JobId, expired: bool)
    requires Inv(c, s) && id in s.jobs && s.jobs[id].status.Ready?
    ensures Inv(c, WithRow(s, id, RetiredRow(s.jobs[id], expired)))
  {
    assert RowShape(s.jobs[id]) && RowHistory(id, s.jobs[id], s.outcomes);
    RowUpdateKeeps(c, s, WithRow(s, id, RetiredRow(s.jobs[id], expired)), id);
  }

  lemma ToDropKeeps(c: Config, s: State, k: nat, id: JobId)
    requires Inv(c, s) && k in s.cleaners && id in s.cleaners[k].listed && NotReady(s, id)
    ensures var cl := s.cleaners[k]; Inv(c, WithCleaner(s, k, cl.(toDrop := cl.toDrop + {cl.listed[id].name})))
  {
    var cl := s.cleaners[k];
    assert CleanerOk(c, s, cl);
    CleanerUpdateKeeps(c, s, k, cl.(toDrop := cl.toDrop + {cl.listed[id].name}));
  }

  lemma ListingOk(c: Config, s: State, k: Cleaner, ids: set<JobId>)
    requires Rows(s) && CleanerOk(c, s, k) && Listable(s.jobs, ids)
    ensures CleanerOk(c, s, Listing(s, k, ids))
  {
    forall id <- ids ensures WonBy(s, s.jobs[id].artifact.value) && s.jobs[id].artifact.value.job == id {
      assert RowHistory(id, s.jobs[id], s.outcomes);
    }
  }

  /** A stale entry can be condemned: it is too old for a live attempt, and an archive of a
      READY row is either retained or was written less than a lease before the pass began. */
  lemma StaleCondemned(c: Config, s: State, k: Cleaner, n: FileName)
    requires ValidConfig(c) && Rows(s) && Outcomes(s) && Workers(c, s) && Files(s) && CleanerOk(c, s, k)
    requires Stale(c, s, k, n)
    ensures Condemned(c, s, n)
  {
    assert WorkerOk(c, s, n.attempt, s.workers[n.attempt]);
    if n.Zip? && n.job in s.jobs {
      assert RowHistory(n.job, s.jobs[n.job], s.outcomes) && RowShape(s.jobs[n.job]);
    }
  }

  lemma ListingKeeps(c: Config, s: State, k: nat, ids: set<JobId>)
    requires Inv(c, s) && k in s.cleaners && Listable(s.jobs, ids)
    ensures Inv(c, WithCleaner(s, k, Listing(s, s.cleaners[k], ids)))
  {
    assert CleanerOk(c, s, s.cleaners[k]);
    ListingOk(c, s, s.cleaners[k], ids);
    CleanerUpdateKeeps(c, s, k, Listing(s, s.cleaners[k], ids));
  }

  lemma SnapshotKeeps(c: Config, s: State, k: nat)
    requires Inv(c, s) && k in s.cleaners
    ensures Inv(c, WithCleaner(s, k, Snapshot(s, s.cleaners[k])))
  {
    assert CleanerOk(c, s, s.cleaners[k]);
    CleanerUpdateKeeps(c, s, k, Snapshot(s, s.cleaners[k]));
  }

  lemma CondemningKeeps(c: Config, s: State, k: nat, n: FileName)
    requires Inv(c, s) && k in s.cleaners && Stale(c, s, s.cleaners[k], n)
    ensures Inv(c, WithCleaner(s, k, Condemning(s.cleaners[k], n)))
  {
    assert CleanerOk(c, s, s.cleaners[k]);
    StaleCondemned(c, s, s.cleaners[k], n);
    CleanerUpdateKeeps(c, s, k, Condemning(s.cleaners[k], n));
  }

  lemma CleanerStepKeeps(c: Config, s: State, a: Action)
    requires Inv(c, s) && Can(c, s, a)
    requires a.CleanupStart? || a.CleanupList? || a.CleanupSnapshot? || a.CleanupStat?
    ensures Inv(c, Do(c, s, a))
  {
    hide Inv;
    match a {
      case CleanupStart(k, at) => CleanerUpdateKeeps(c, s, k, Cleaner(at, map[], {}, None, {}));
      case CleanupList(k, ids) => ListingKeeps(c, s, k, ids);
      case CleanupSnapshot(k) => SnapshotKeeps(c, s, k);
      case CleanupStat(k, n) => CondemningKeeps(c, s, k, n);
    }
  }

  /** Retiring READY rows, clearing their references, and the two kinds of unlink. */
  lemma CleanerUnlinkKeeps(c: Config, s: State, k: nat, n: FileName)
    requires Inv(c, s) && k in s.cleaners && n in s.cleaners[k].toDrop + s.cleaners[k].condemned
    ensures Inv(c, s.(files := s.files - {n}))
  {
    CleanerUnlinkable(c, s, s.cleaners[k], n);
    UnlinkKeeps(c, s, n);
  }

  lemma CleanerUnlinkable(c: Config, s: State, cl: Cleaner, n: FileName)
    requires Rows(s) && Outcomes(s) && CleanerOk(c, s, cl) && n in cl.toDrop + cl.condemned
    ensures Unlinkable(c, s, n)
  {
    assert n in cl.condemned ==> Condemned(c, s, n);
    forall id <- s.jobs.Keys | s.jobs[id].status.Ready? ensures s.jobs[id].artifact != Some(n) {
      assert RowHistory(id, s.jobs[id], s.outcomes);
    }
  }

  lemma ForgetKeeps(c: Config, s: State, k: nat, id: JobId)
    requires Inv(c, s) && k in s.cleaners && id in s.cleaners[k].listed
    requires s.cleaners[k].listed[id].name in s.cleaners[k].toDrop
    ensures Inv(c, DoForget(s, k, id))
  {
    assert CleanerOk(c, s, s.cleaners[k]);
    if DoForget(s, k, id) != s {
      ForgetRowKeeps(c, s, id);
    }
  }

  lemma ForgetRowKeeps(c: Config, s: State, id: JobId)
    requires Inv(c, s) && id in s.jobs && !s.jobs[id].status.Ready?
    ensures Inv(c, WithRow(s, id, s.jobs[id].(artifact := None)))
  {
    assert RowShape(s.jobs[id]) && RowHistory(id, s.jobs[id], s.outcomes);
    RowUpdateKeeps(c, s, WithRow(s, id, s.jobs[id].(artifact := None)), id);
  }

  lemma AcknowledgeKeeps(c: Config, s: State, id: JobId, status: Status)
    requires Inv(c, s)
    ensures Inv(c, DoAcknowledge(s, id, status))
  {
    if DoAcknowledge(s, id, status) != s {
      assert RowShape(s.jobs[id]) && RowHistory(id, s.jobs[id], s.outcomes);
      assert s.jobs[id].lease.Some? ==> s.jobs[id].lease.value.token in s.workers;
      RowUpdateKeeps(c, s, WithRow(s, id, s.jobs[id].(notified := true)), id);
    }
  }

  lemma ExhaustedKeeps(c: Config, s: State, id: JobId, at: int)
    requires Inv(c, s) && id in s.jobs && Exhausted(s.jobs[id], at)
    ensures Inv(c, Settle(s, id, FailedRow(s.jobs[id], AttemptsExhausted, at), None))
  {
    assert RowShape(s.jobs[id]) && RowHistory(id, s.jobs[id], s.outcomes);
    SettleKeeps(c, s, id, FailedRow(s.jobs[id], AttemptsExhausted, at), None);
  }

  // ---------------------------------------------------------------- every step, every run

  lemma WorkerStepKeeps(c: Config, s: State, a: Action)
    requires Inv(c, s) && Enabled(c, s, a)
    requires !(a.Tick? || a.Create? || a.Remove? || a.Claim? || a.FailExhausted? || a.Acknowledge?)
    requires !(a.CleanupStart? || a.CleanupList? || a.CleanupSnapshot? || a.CleanupStat?)
    requires !(a.CleanupRetire? || a.CleanupUnlink? || a.CleanupForget? || a.CleanupDelete?)
    ensures Inv(c, Do(c, s, a))
  {
    hide Inv;
    match a {
      case Begin(t, started) => BeginKeeps(c, s, t, started);
      case Write(t, content) => WriteKeeps(c, s, t, content);
      case Progress(t, at) => ProgressKeeps(c, s, t, at);
      case Seal(t) => PhaseKeeps(c, s, t, Sealed);
      case Hash(t) => HashKeeps(c, s, t);
      case Publish(t) => PublishKeeps(c, s, t);
      case Complete(t, at, authorized) => CompleteKeeps(c, s, t, at, authorized);
      case CompleteError(t) => PhaseKeeps(c, s, t, Dropping);
      case DropOwn(t) => DropKeeps(c, s, t, Zip(s.workers[t].job, t));
      case Fail(t, at, code) => FailKeeps(c, s, t, at, code);
      case DropTemp(t) => DropKeeps(c, s, t, Temp(t));
    }
  }

  lemma TableStepKeeps(c: Config, s: State, a: Action)
    requires Inv(c, s) && Can(c, s, a)
    requires a.Remove? || a.Claim? || a.FailExhausted?
    ensures Inv(c, Do(c, s, a))
  {
    hide Inv;
    match a {
      case Remove(id, at) => RemoveKeeps(c, s, id, at);
      case Claim(id, t, at, authorized) => ClaimKeeps(c, s, id, t, at, authorized);
      case FailExhausted(id, at) => ExhaustedKeeps(c, s, id, at);
    }
  }

  lemma QuietStepKeeps(c: Config, s: State, a: Action)
    requires Inv(c, s) && Can(c, s, a)
    requires a.Tick? || a.Acknowledge?
    ensures Inv(c, Do(c, s, a))
  {
    hide Inv;
    match a {
      case Tick(elapsed) => TickKeeps(c, s, elapsed);
      case Acknowledge(id, st) => AcknowledgeKeeps(c, s, id, st);
    }
  }

  lemma CleanupStepKeeps(c: Config, s: State, a: Action)
    requires Inv(c, s) && Can(c, s, a)
    requires a.CleanupRetire? || a.CleanupUnlink? || a.CleanupForget? || a.CleanupDelete?
    ensures Inv(c, Do(c, s, a))
  {
    hide Inv;
    match a {
      case CleanupRetire(k, id, authorized) => RetireKeeps(c, s, k, id, authorized);
      case CleanupUnlink(k, n) => CleanerUnlinkKeeps(c, s, k, n);
      case CleanupForget(k, id) => ForgetKeeps(c, s, k, id);
      case CleanupDelete(k, n) => CleanerUnlinkKeeps(c, s, k, n);
    }
  }

  lemma StepKeeps(c: Config, s: State, a: Action)
    requires Inv(c, s) && Enabled(c, s, a)
    ensures Inv(c, Do(c, s, a))
  {
    hide Inv;
    if a.CleanupStart? || a.CleanupList? || a.CleanupSnapshot? || a.CleanupStat? {
      CleanerStepKeeps(c, s, a);
    } else if a.CleanupRetire? || a.CleanupUnlink? || a.CleanupForget? || a.CleanupDelete? {
      CleanupStepKeeps(c, s, a);
    } else if a.Create? {
      CreateStepKeeps(c, s, a);
    } else if a.Tick? || a.Acknowledge? {
      QuietStepKeeps(c, s, a);
    } else if a.Remove? || a.Claim? || a.FailExhausted? {
      TableStepKeeps(c, s, a);
    } else {
      WorkerStepKeeps(c, s, a);
    }
  }

  /** In every state of every run every READY archive is on disk with the recorded size and
      content, and no attempt inside its deadline has lost its temporary file. */
  lemma {:induction false} RunSafe(c: Config, states: seq<State>, actions: seq<Action>, i: nat)
    requires ValidConfig(c) && Run(c, states, actions) && i < |states|
    ensures Inv(c, states[i]) && ReadyArtifacts(c, states[i]) && LiveTemporaries(c, states[i])
  {
    if i > 0 {
      RunSafe(c, states, actions, i - 1);
      StepKeeps(c, states[i - 1], actions[i - 1]);
    }
  }

  /** What an attempt that lost its job does to the directory: giving up removes at most its own
      two files, so every file of a newer attempt and every READY archive stays. */
  lemma StaleAttemptHarmless(c: Config, s: State, t: Token, n: FileName)
    requires Inv(c, s) && (Can(c, s, DropOwn(t)) || Can(c, s, DropTemp(t)))
    requires n in s.files && (n.attempt != t || exists id <- s.jobs.Keys :: s.jobs[id].status.Ready? && s.jobs[id].artifact == Some(n))
    ensures Can(c, s, DropOwn(t)) ==> n in Do(c, s, DropOwn(t)).files
    ensures Can(c, s, DropTemp(t)) ==> n in Do(c, s, DropTemp(t)).files
  {
    if n.attempt == t {
      ReadyOwner(c, s, n);
    }
    GivesUpOwn(c, s, t, n);
  }

  lemma ReadyOwner(c: Config, s: State, n: FileName)
    requires Rows(s) && Outcomes(s) && exists id <- s.jobs.Keys :: s.jobs[id].status.Ready? && s.jobs[id].artifact == Some(n)
    ensures n.Zip? && InPhase(s, n.attempt, Halted)
  {
    var id :| id in s.jobs && s.jobs[id].status.Ready? && s.jobs[id].artifact == Some(n);
    WinnerHalted(c, s, id);
    assert RowHistory(id, s.jobs[id], s.outcomes);
  }

  lemma GivesUpOwn(c: Config, s: State, t: Token, n: FileName)
    requires n in s.files && (n.attempt != t || (n.Zip? && InPhase(s, t, Halted)))
    ensures Can(c, s, DropOwn(t)) ==> n in Do(c, s, DropOwn(t)).files
    ensures Can(c, s, DropTemp(t)) ==> n in Do(c, s, DropTemp(t)).files
  {
  }
}
