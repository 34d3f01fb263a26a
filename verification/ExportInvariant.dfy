/**
 What holds between any two steps of the export protocol: a READY row's archive is in the
 directory with the recorded content, no stale attempt or Cleanup pass can remove it, and the
 temporary file of an attempt whose deadline has not passed is there.

 The second half proves it for the elementary changes (one row, one attempt, one unlink, one
 Cleanup pass) out of which every action is composed.
 */
module ExportInvariant {
  import opened Options
  import opened ExportJobs
  import opened ExportMachine

  // ---------------------------------------------------------------- the invariant

  /** The CHECK constraints of the table, and what the service maintains beyond them. */
  ghost predicate RowShape(j: Job) {
    (j.status.Running? <==> j.lease.Some?)
    && (Terminal(j.status) <==> j.completedAt.Some?)
    && (j.status.Running? ==> j.startedAt.Some? && 1 <= j.attempts)
    && (j.status.Queued? ==> j.attempts == 0)
    && (j.status.Failed? ==> j.error.Some?)
    && (j.status.Ready? ==> j.expiresAt.Some? && j.sha.Some? && j.size == Some(|j.sha.value|) && j.artifact.Some?)
    && j.attempts <= MAX_ATTEMPTS && 0 < j.total && j.progress <= j.total
    && j.hash == Fingerprint(j.group, j.user, j.scope)
  }

  /** A row agrees with the one recorded outcome of its job. */
  ghost predicate RowHistory(id: JobId, j: Job, outcomes: map<JobId, Outcome>) {
    (id in outcomes <==> Terminal(j.status))
    && (j.status.Ready? || j.status.Expired? ==> outcomes[id].status.Ready?)
    && (j.status.Failed? ==> outcomes[id].status.Failed?)
    && (j.status.Cancelled? ==> outcomes[id].status.Ready? || outcomes[id].status.Cancelled?)
    && (j.artifact.Some? ==> id in outcomes && outcomes[id].status.Ready?
                             && outcomes[id].token.Some? && j.artifact.value == Zip(id, outcomes[id].token.value))
  }

  ghost predicate Rows(s: State) {
    forall id <- s.jobs.Keys :: id in s.usedIds && RowShape(s.jobs[id]) && RowHistory(id, s.jobs[id], s.outcomes)
  }

  ghost predicate Leases(s: State) {
    forall id <- s.jobs.Keys | s.jobs[id].lease.Some? ::
      var t := s.jobs[id].lease.value.token;
      t in s.workers && s.workers[t].job == id
  }

  ghost predicate Outcomes(s: State) {
    forall id <- s.outcomes.Keys ::
      id in s.usedIds
      && (s.outcomes[id].status.Ready? || s.outcomes[id].status.Failed? || s.outcomes[id].status.Cancelled?)
      && (s.outcomes[id].status.Ready? ==>
            s.outcomes[id].token.Some?
            && InPhase(s, s.outcomes[id].token.value, Halted) && s.workers[s.outcomes[id].token.value].job == id)
  }

  ghost predicate WorkerOk(c: Config, s: State, t: Token, w: Worker) {
    w.job in s.usedIds && w.started <= w.lastWrite <= s.clock && w.done <= w.total && |w.sha| <= c.maxBytes
    && (w.job in s.jobs ==> s.jobs[w.job].total == w.total)
    && (Building(w.phase) ==>
          (Temp(t) in s.files ==> s.files[Temp(t)].mtime == w.lastWrite && |s.files[Temp(t)].content| <= c.maxBytes
                                  && (w.phase.Hashed? ==> s.files[Temp(t)].content == w.sha)))
    && (w.phase.Published? ==>
          (Zip(w.job, t) in s.files ==> s.files[Zip(w.job, t)] == File(w.sha, w.lastWrite))
          && (s.clock <= w.lastWrite + c.lease ==> Zip(w.job, t) in s.files))
  }

  ghost predicate Workers(c: Config, s: State) {
    forall t <- s.workers.Keys :: WorkerOk(c, s, t, s.workers[t])
  }

  /** Every file belongs to an attempt that has got far enough to have created it. */
  ghost predicate Files(s: State) {
    forall n <- s.files.Keys ::
      n.attempt in s.workers && !s.workers[n.attempt].phase.Claimed?
      && (n.Zip? ==> n.job == s.workers[n.attempt].job && !Building(s.workers[n.attempt].phase))
  }

  /** The temporary file of an attempt whose generation deadline has not passed is present. */
  ghost predicate LiveTemporaries(c: Config, s: State) {
    forall t <- s.workers.Keys ::
      Building(s.workers[t].phase) && GenerationLive(c, s, s.workers[t]) ==> Temp(t) in s.files
  }

  /** The headline property. */
  ghost predicate ReadyArtifacts(c: Config, s: State) {
    forall id <- s.jobs.Keys | s.jobs[id].status.Ready? ::
      var j := s.jobs[id];
      j.artifact.Some? && j.artifact.value in s.files && j.sha.Some? && j.size == Some(|j.sha.value|)
      && s.files[j.artifact.value].content == j.sha.value && |j.sha.value| <= c.maxBytes
  }

  ghost predicate NotReady(s: State, id: JobId) { id in s.jobs ==> !s.jobs[id].status.Ready? }

  ghost predicate WonBy(s: State, n: FileName) {
    n.Zip? && n.job in s.outcomes && s.outcomes[n.job] == Outcome(Ready, Some(n.attempt))
  }

  /** A condemned entry can no longer become a READY archive or be a live temporary file. */
  ghost predicate Condemned(c: Config, s: State, n: FileName) {
    n.attempt in s.workers && !s.workers[n.attempt].phase.Claimed?
    && (n.Temp? && Building(s.workers[n.attempt].phase) ==> s.workers[n.attempt].started + c.timeout <= s.clock)
    && (n.Zip? ==> n.job == s.workers[n.attempt].job && !Building(s.workers[n.attempt].phase)
                   && (s.workers[n.attempt].phase.Published? ==> s.workers[n.attempt].lastWrite + c.lease < s.clock)
                   && (WonBy(s, n) ==> NotReady(s, n.job)))
  }

  ghost predicate CleanerOk(c: Config, s: State, k: Cleaner) {
    k.now <= s.clock
    && (forall id <- k.listed.Keys :: k.listed[id].name.Zip? && k.listed[id].name.job == id && WonBy(s, k.listed[id].name))
    && (forall n <- k.toDrop :: WonBy(s, n) && NotReady(s, n.job))
    && (k.retained.Some? ==>
          forall id <- s.jobs.Keys | s.jobs[id].status.Ready? && s.jobs[id].artifact.Some? ::
            var n := s.jobs[id].artifact.value;
            n in k.retained.value || (n in s.files && StaleBefore(c, k) <= s.files[n].mtime))
    && (forall n <- k.condemned :: Condemned(c, s, n))
  }

  ghost predicate Cleaners(c: Config, s: State) {
    forall k <- s.cleaners.Keys :: CleanerOk(c, s, s.cleaners[k])
  }

  ghost predicate Inv(c: Config, s: State) {
    ValidConfig(c) && Rows(s) && Leases(s) && Outcomes(s) && Workers(c, s) && Files(s)
    && LiveTemporaries(c, s) && ReadyArtifacts(c, s) && Cleaners(c, s)
  }

  // ---------------------------------------------------------------- elementary changes
  // Every action is a composition of these; each keeps the invariant on its own.

  /** What a Cleanup pass relies on: outcomes are permanent, no row re-enters READY, READY
      archives stay, and attempts neither go back nor change their deadlines. */
  ghost predicate CleanerFrame(s: State, s': State) {
    s.clock <= s'.clock
    && (forall id <- s.outcomes.Keys :: id in s'.outcomes && s'.outcomes[id] == s.outcomes[id])
    && (forall id <- s'.outcomes.Keys :: id in s.outcomes || !s'.outcomes[id].status.Ready?)
    && (forall id <- s'.jobs.Keys | s'.jobs[id].status.Ready? ::
          id in s.jobs && s.jobs[id].status.Ready? && s'.jobs[id].artifact == s.jobs[id].artifact
          && (s.jobs[id].artifact.Some? && s.jobs[id].artifact.value in s.files ==>
                s.jobs[id].artifact.value in s'.files
                && s'.files[s.jobs[id].artifact.value].mtime == s.files[s.jobs[id].artifact.value].mtime))
    && (forall t <- s.workers.Keys :: t in s'.workers && Continues(s.workers[t], s'.workers[t]))
  }

  predicate Continues(w: Worker, w': Worker) {
    w'.job == w.job
    && (!w.phase.Claimed? ==> !w'.phase.Claimed? && w'.started == w.started)
    && (!w.phase.Claimed? && !Building(w.phase) ==> !Building(w'.phase) && w'.lastWrite == w.lastWrite
                                                    && (w'.phase.Published? ==> w.phase.Published?))
  }

  lemma CleanersKept(c: Config, s: State, s': State)
    requires Cleaners(c, s) && CleanerFrame(s, s')
    requires s'.cleaners == s.cleaners
    ensures Cleaners(c, s')
  {
    forall k <- s'.cleaners.Keys ensures CleanerOk(c, s', s'.cleaners[k]) {
      CleanerKept(c, s, s', s.cleaners[k]);
    }
  }

  lemma CleanerKept(c: Config, s: State, s': State, k: Cleaner)
    requires CleanerOk(c, s, k) && CleanerFrame(s, s')
    ensures CleanerOk(c, s', k)
  {
    forall n <- k.condemned ensures Condemned(c, s', n) {
      assert Condemned(c, s, n);
      assert Continues(s.workers[n.attempt], s'.workers[n.attempt]);
    }
  }

  /** One row is rewritten, without entering READY; at most its job's outcome is recorded. */
  ghost predicate RowUpdate(s: State, s': State, id: JobId) {
    id in s.jobs && id in s'.jobs && s' == s.(jobs := s.jobs[id := s'.jobs[id]], outcomes := s'.outcomes)
    && (s'.outcomes == s.outcomes
        || (id !in s.outcomes && id in s'.outcomes && s'.outcomes == s.outcomes[id := s'.outcomes[id]]
            && (s'.outcomes[id].status.Failed? || s'.outcomes[id].status.Cancelled?)))
    && var j, j' := s.jobs[id], s'.jobs[id];
    RowShape(j') && RowHistory(id, j', s'.outcomes) && j'.total == j.total
    && (j'.lease.Some? ==> j'.lease.value.token in s.workers && s.workers[j'.lease.value.token].job == id)
    && (j'.status.Ready? ==> j.status.Ready? && j'.artifact == j.artifact && j'.sha == j.sha && j'.size == j.size)
  }

  lemma RowUpdateKeeps(c: Config, s: State, s': State, id: JobId)
    requires Inv(c, s) && RowUpdate(s, s', id)
    ensures Inv(c, s')
  {
    hide Rows, Leases, Outcomes, Workers, Files, LiveTemporaries, ReadyArtifacts, Cleaners, RowUpdate;
    RowUpdateRows(c, s, s', id);
    RowUpdateFiles(c, s, s', id);
    RowUpdateCleaners(c, s, s', id);
  }

  lemma RowUpdateCleaners(c: Config, s: State, s': State, id: JobId)
    requires Cleaners(c, s) && RowUpdate(s, s', id)
    ensures Cleaners(c, s')
  {
    CleanersKept(c, s, s');
  }

  lemma RowUpdateRows(c: Config, s: State, s': State, id: JobId)
    requires Inv(c, s) && RowUpdate(s, s', id)
    ensures Rows(s') && Leases(s') && Outcomes(s')
  {
    hide RowShape, Workers, Files, LiveTemporaries, ReadyArtifacts, Cleaners;
  }

  lemma RowUpdateFiles(c: Config, s: State, s': State, id: JobId)
    requires Inv(c, s) && RowUpdate(s, s', id)
    ensures Workers(c, s') && Files(s') && LiveTemporaries(c, s') && ReadyArtifacts(c, s')
  {
  }

  /** An active job reaches FAILED or CANCELLED and its outcome is recorded. */
  lemma SettleKeeps(c: Config, s: State, id: JobId, j': Job, token: Option<Token>)
    requires Inv(c, s) && id in s.jobs && Active(s.jobs[id])
    requires RowShape(j') && (j'.status.Failed? || j'.status.Cancelled?)
    requires j'.total == s.jobs[id].total && j'.artifact.None?
    ensures Inv(c, Settle(s, id, j', token))
  {
    assert RowShape(s.jobs[id]) && RowHistory(id, s.jobs[id], s.outcomes);
    RowUpdateKeeps(c, s, Settle(s, id, j', token), id);
  }

  /** A file disappears that is no READY archive, no live temporary and no archive whose
      attempt may still complete in time. */
  ghost predicate Unlinkable(c: Config, s: State, n: FileName) {
    (forall id <- s.jobs.Keys | s.jobs[id].status.Ready? :: s.jobs[id].artifact != Some(n))
    && (n.attempt in s.workers ==>
          var w := s.workers[n.attempt];
          (n.Temp? && Building(w.phase) ==> !GenerationLive(c, s, w))
          && (n.Zip? && w.phase.Published? ==> w.lastWrite + c.lease < s.clock))
  }

  lemma UnlinkKeeps(c: Config, s: State, n: FileName)
    requires Inv(c, s) && Unlinkable(c, s, n)
    ensures Inv(c, s.(files := s.files - {n}))
  {
    var s' := s.(files := s.files - {n});
    assert Rows(s') && Leases(s') && Outcomes(s');
    UnlinkWorkers(c, s, n);
    UnlinkReady(c, s, n);
  }

  lemma UnlinkReady(c: Config, s: State, n: FileName)
    requires ReadyArtifacts(c, s) && Cleaners(c, s) && Unlinkable(c, s, n)
    ensures var s' := s.(files := s.files - {n}); ReadyArtifacts(c, s') && Cleaners(c, s')
  {
    CleanersKept(c, s, s.(files := s.files - {n}));
  }

  lemma UnlinkWorkers(c: Config, s: State, n: FileName)
    requires Workers(c, s) && Files(s) && LiveTemporaries(c, s) && Unlinkable(c, s, n)
    ensures var s' := s.(files := s.files - {n}); Workers(c, s') && Files(s') && LiveTemporaries(c, s')
  {
    var s' := s.(files := s.files - {n});
    forall t <- s'.workers.Keys ensures WorkerOk(c, s', t, s'.workers[t]) {
      assert WorkerOk(c, s, t, s.workers[t]);
    }
  }

  /** One attempt moves on, touching at most its own two files, and a halted attempt
      touches nothing. */
  ghost predicate WorkerUpdate(c: Config, s: State, s': State, t: Token) {
    t in s.workers && t in s'.workers
    && s' == s.(workers := s.workers[t := s'.workers[t]], files := s'.files)
    && var w, w' := s.workers[t], s'.workers[t];
    Continues(w, w') && w'.total == w.total && (w.phase.Halted? ==> w'.phase.Halted? && s'.files == s.files)
    && WorkerOk(c, s', t, w')
    && (Building(w'.phase) && GenerationLive(c, s', w') ==> Temp(t) in s'.files)
    && (forall n <- s'.files.Keys ::
          if n.attempt == t then !w'.phase.Claimed? && (n.Zip? ==> n.job == w.job && !Building(w'.phase))
          else n in s.files && s'.files[n] == s.files[n])
    && (forall n <- s.files.Keys :: n.attempt != t ==> n in s'.files)
  }

  lemma WorkerUpdateKeeps(c: Config, s: State, s': State, t: Token)
    requires Inv(c, s) && WorkerUpdate(c, s, s', t)
    ensures Inv(c, s')
  {
    assert Rows(s') && Leases(s') && Outcomes(s');
    WorkerUpdateWorkers(c, s, s', t);
    WorkerUpdateReady(c, s, s', t);
    WorkerUpdateCleaners(c, s, s', t);
  }

  lemma WorkerUpdateWorkers(c: Config, s: State, s': State, t: Token)
    requires Workers(c, s) && Files(s) && LiveTemporaries(c, s) && WorkerUpdate(c, s, s', t)
    ensures Workers(c, s') && Files(s') && LiveTemporaries(c, s')
  {
    forall i <- s'.workers.Keys ensures WorkerOk(c, s', i, s'.workers[i]) {
      if i != t {
        assert WorkerOk(c, s, i, s.workers[i]);
      }
    }
  }

  /** A READY row's archive belongs to a halted attempt. */
  lemma WinnerHalted(c: Config, s: State, id: JobId)
    requires Rows(s) && Outcomes(s) && id in s.jobs && s.jobs[id].artifact.Some?
    ensures InPhase(s, s.jobs[id].artifact.value.attempt, Halted)
  {
    assert RowHistory(id, s.jobs[id], s.outcomes);
  }

  lemma WorkerUpdateReady(c: Config, s: State, s': State, t: Token)
    requires Rows(s) && Outcomes(s) && ReadyArtifacts(c, s) && WorkerUpdate(c, s, s', t)
    ensures ReadyArtifacts(c, s')
  {
    forall id <- s'.jobs.Keys | s'.jobs[id].status.Ready?
      ensures s'.jobs[id].artifact.value in s'.files
      ensures s'.files[s'.jobs[id].artifact.value] == s.files[s'.jobs[id].artifact.value]
    {
      WinnerHalted(c, s, id);
    }
  }

  lemma WorkerUpdateCleaners(c: Config, s: State, s': State, t: Token)
    requires Rows(s) && Outcomes(s) && Cleaners(c, s) && WorkerUpdate(c, s, s', t)
    ensures Cleaners(c, s')
  {
    forall id <- s'.jobs.Keys | s'.jobs[id].status.Ready? && s'.jobs[id].artifact.Some?
      ensures s.jobs[id].artifact.value.attempt != t || s'.files == s.files
    {
      WinnerHalted(c, s, id);
    }
    CleanersKept(c, s, s');
  }

  lemma CleanerUpdateKeeps(c: Config, s: State, k: nat, cleaner: Cleaner)
    requires Inv(c, s) && CleanerOk(c, s, cleaner)
    ensures Inv(c, WithCleaner(s, k, cleaner))
  {
    var s' := WithCleaner(s, k, cleaner);
    assert Rows(s') && Leases(s') && Outcomes(s');
    assert Workers(c, s') && Files(s') && LiveTemporaries(c, s');
    CleanerUpdateCleaners(c, s, k, cleaner);
  }

  lemma CleanerUpdateCleaners(c: Config, s: State, k: nat, cleaner: Cleaner)
    requires Cleaners(c, s) && CleanerOk(c, s, cleaner)
    ensures Cleaners(c, WithCleaner(s, k, cleaner))
  {
    var s' := WithCleaner(s, k, cleaner);
    forall i <- s'.cleaners.Keys ensures CleanerOk(c, s', s'.cleaners[i]) {
      CleanerKept(c, s, s', s'.cleaners[i]);
    }
  }
}
