/**
 Exactly when the export protocol keeps its promise.  The archive of a READY job can be lost
 in two ways the code does not exclude: a completion that commits more than a lease after the
 archive was written, and a removal whose transaction fails after the archive was unlinked.
 */
module ExportLimits {
  import opened Options
  import opened ExportJobs
  import opened ExportMachine
  import opened ExportInvariant
  import opened ExportReach

  // ---------------------------------------------------------------- completion in time

  /** The state after the completing write has every READY archive exactly when the archive is
      still in the directory. */
  lemma CompletionSafeIff(c: Config, s: State, t: Token, at: int)
    requires Inv(c, s) && InPhase(s, t, Published) && HoldsLease(s.jobs, s.workers[t].job, t)
    ensures ReadyArtifacts(c, DoComplete(c, s, t, at, true)) <==> Zip(s.workers[t].job, t) in s.files
  {
    assert WorkerOk(c, s, t, s.workers[t]);
    assert WorkerOk(c, s, t, s.workers[t]) && s.workers[t].job in s.jobs;
    var s' := DoComplete(c, s, t, at, true);
    assert s'.jobs[s.workers[t].job].status.Ready?;
  }

  /** The reconciler removes a published archive of a job still running only after a lease has
      passed since it was written, and it may do so then: the timing assumption is sharp. */
  lemma ReconcilerWaits(c: Config, s: State, k: nat, t: Token)
    requires Inv(c, s) && k in s.cleaners && InPhase(s, t, Published)
    requires Zip(s.workers[t].job, t) in s.files
    ensures Stale(c, s, s.cleaners[k], Zip(s.workers[t].job, t))
            <==> s.cleaners[k].retained.Some? && Zip(s.workers[t].job, t) !in s.cleaners[k].retained.value
                 && s.workers[t].lastWrite + c.lease < s.cleaners[k].now
  {
    assert WorkerOk(c, s, t, s.workers[t]);
  }

  /** A late completion: in any state where a running attempt published its archive more than a
      lease ago, one whole reconciling pass fits before the completing write. */
  lemma LateCompletion(c: Config, s: State, t: Token, k: nat)
    requires Inv(c, s) && Reachable(c, s, false) && k !in s.cleaners && InPhase(s, t, Published)
    requires HoldsLease(s.jobs, s.workers[t].job, t) && s.workers[t].lastWrite + c.lease < s.clock
    requires Zip(s.workers[t].job, t) in s.files
    ensures exists bad: State :: Reachable(c, bad, false) && !ReadyArtifacts(c, bad)
  {
    hide Do, Can, Inv, ReadyArtifacts, Reachable;
    var n := Zip(s.workers[t].job, t);
    var s1 := LatePass(c, s, t, k);
    LateWrite(c, s1, t);
  }

  lemma LatePass(c: Config, s: State, t: Token, k: nat) returns (s': State)
    requires Inv(c, s) && Reachable(c, s, false) && k !in s.cleaners && InPhase(s, t, Published)
    requires HoldsLease(s.jobs, s.workers[t].job, t) && s.workers[t].lastWrite + c.lease < s.clock
    requires Zip(s.workers[t].job, t) in s.files
    ensures Reachable(c, s', false) && s'.jobs == s.jobs && s'.workers == s.workers && s'.clock == s.clock
    ensures Zip(s.workers[t].job, t) !in s'.files
  {
    hide Reachable;
    var n := Zip(s.workers[t].job, t);
    assert WorkerOk(c, s, t, s.workers[t]);
    assert n !in ReadyNames(s.jobs) by {
      forall id <- s.jobs.Keys | s.jobs[id].status.Ready? && s.jobs[id].artifact.Some? ensures s.jobs[id].artifact.value != n {
        assert RowHistory(id, s.jobs[id], s.outcomes);
      }
    }
    s' := ReconcileOne(c, s, k, n);
  }

  /** One Cleanup pass that finds one stale entry. */
  lemma ReconcileOne(c: Config, s: State, k: nat, n: FileName) returns (s': State)
    requires Reachable(c, s, false) && k !in s.cleaners && n in s.files && n !in ReadyNames(s.jobs)
    requires s.files[n].mtime < s.clock - c.lease
    ensures Reachable(c, s', false) && s'.jobs == s.jobs && s'.workers == s.workers && s'.clock == s.clock && n !in s'.files
  {
    hide Reachable;
    var s1 := WithCleaner(s, k, Cleaner(s.clock, map[], {}, None, {}));
    ReachableStep(c, s, CleanupStart(k, s.clock), false);
    var s2 := WithCleaner(s1, k, Snapshot(s1, s1.cleaners[k]));
    ReachableStep(c, s1, CleanupSnapshot(k), false);
    s' := DeleteStale(c, s2, k, n);
  }

  lemma DeleteStale(c: Config, s: State, k: nat, n: FileName) returns (s': State)
    requires Reachable(c, s, false) && k in s.cleaners && Stale(c, s, s.cleaners[k], n)
    ensures Reachable(c, s', false) && s'.jobs == s.jobs && s'.workers == s.workers && s'.clock == s.clock && n !in s'.files
  {
    hide Reachable;
    var s1 := WithCleaner(s, k, Condemning(s.cleaners[k], n));
    ReachableStep(c, s, CleanupStat(k, n), false);
    s' := s1.(files := s1.files - {n});
    ReachableStep(c, s1, CleanupDelete(k, n), false);
  }

  lemma LateWrite(c: Config, s: State, t: Token)
    requires Reachable(c, s, false) && InPhase(s, t, Published) && HoldsLease(s.jobs, s.workers[t].job, t)
    requires Zip(s.workers[t].job, t) !in s.files
    ensures exists bad: State :: Reachable(c, bad, false) && !ReadyArtifacts(c, bad)
  {
    hide Reachable;
    var a := Complete(t, s.clock, true);
    var bad := DoComplete(c, s, t, s.clock, true);
    ReachableStep(c, s, a, false);
    assert Reachable(c, bad, false);
    assert bad.jobs[s.workers[t].job].status.Ready? && bad.jobs[s.workers[t].job].artifact.value !in bad.files;
    assert !ReadyArtifacts(c, bad);
  }

  /** Without the timing assumption the promise is false, whatever the configuration. */
  lemma LateCompletionExists(c: Config)
    requires ValidConfig(c)
    ensures exists bad: State :: Reachable(c, bad, false) && !ReadyArtifacts(c, bad)
  {
    hide Reachable, ReadyArtifacts, Do;
    var s := CreatedAndClaimed(c, false);
    s := Generated(c, s, false);
    s := PublishedAtZero(c, s, false);
    s := Waited(c, s, false);
    var s' := ReconcileOne(c, s, 0, Zip(0, 7));
    LateWrite(c, s', 7);
  }

  // ---------------------------------------------------------------- aborted removal

  /** Remove unlinks the archive inside its transaction; if the transaction then fails, the row
      stays.  That breaks the promise exactly for the READY jobs. */
  lemma AbortedRemoval(c: Config, s: State, id: JobId)
    requires Inv(c, s) && id in s.jobs && Terminal(s.jobs[id].status) && s.jobs[id].artifact.Some?
    ensures ReadyArtifacts(c, s.(files := s.files - {s.jobs[id].artifact.value})) <==> !s.jobs[id].status.Ready?
  {
    var n := s.jobs[id].artifact.value;
    assert RowHistory(id, s.jobs[id], s.outcomes);
    forall k <- s.jobs.Keys | k != id && s.jobs[k].status.Ready? ensures s.jobs[k].artifact != Some(n) {
      assert RowHistory(k, s.jobs[k], s.outcomes);
    }
    var s' := s.(files := s.files - {n});
    if !s.jobs[id].status.Ready? {
      assert ReadyArtifacts(c, s');
    } else {
      assert s'.jobs[id].status.Ready? && s'.jobs[id].artifact.value !in s'.files;
    }
  }

  /** The failed removal is retryable, as its comment promises: repeating it deletes the row. */
  lemma RemovalRetryable(c: Config, s: State, id: JobId, at: int)
    requires id in s.jobs && Terminal(s.jobs[id].status) && s.jobs[id].artifact.Some?
    ensures var aborted := s.(files := s.files - {s.jobs[id].artifact.value});
            DoRemove(aborted, id, at) == DoRemove(s, id, at)
  {
    var n := s.jobs[id].artifact.value;
    assert (s.files - {n}) - {n} == s.files - {n};
  }
}
