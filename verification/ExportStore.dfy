/**
 The export service's own transactions and directory operations, in place on the job table and
 the export directory.  Each is proved to write exactly the row functions and file updates the
 protocol's steps are made of.
 */
module ExportStore {
  import opened Options
  import opened ExportJobs
  import opened ExportMachine
  import opened ExportInvariant

  // ---------------------------------------------------------------- ordered selection

  predicate First(jobs: Table, candidates: set<JobId>, id: JobId) {
    id in candidates && candidates <= jobs.Keys && forall k <- candidates :: Before(jobs[id], id, jobs[k], k)
  }

  /** ORDER BY requested_at, id LIMIT 1. */
  method SelectFirst(jobs: Table, candidates: set<JobId>) returns (r: Option<JobId>)
    requires candidates <= jobs.Keys
    ensures r.None? <==> candidates == {}
    ensures r.Some? ==> First(jobs, candidates, r.value)
  {
    r := None;
    var rest := candidates;
    while rest != {}
      invariant rest <= candidates
      invariant r.None? ==> rest == candidates
      invariant r.Some? ==> r.value in candidates && forall k <- candidates - rest :: Before(jobs[r.value], r.value, jobs[k], k)
      decreases |rest|
    {
      var id: JobId :| id in rest;
      if r.None? || Before(jobs[id], id, jobs[r.value], r.value) {
        r := Some(id);
      }
      rest := rest - {id};
    }
  }

  /** Every row satisfies the constraints of the table. */
  ghost predicate Sound(jobs: Table) { forall id <- jobs.Keys :: RowShape(jobs[id]) }

  /** No attempt can write the job's row any more. */
  ghost predicate Fenced(jobs: Table, id: JobId) { forall u: Token :: !HoldsLease(jobs, id, u) }

  ghost predicate NamedByReady(jobs: Table, name: FileName) {
    exists id <- jobs.Keys :: jobs[id].status.Ready? && jobs[id].artifact == Some(name)
  }

  class JobTable {
    var jobs: Table

    constructor ()
      ensures jobs == map[]
    {
      jobs := map[];
    }

    /** Replays, refuses or queues, in that order of checks. */
    method Create(c: Config, id: JobId, group: nat, user: nat, scope: Scope, key: nat, total: nat, at: int)
      returns (r: CreateResult)
      requires id !in jobs
      modifies this
      ensures jobs == if r == Created(id) then old(jobs)[id := QueuedRow(group, user, scope, key, total, at)] else old(jobs)
      ensures var keyed := KeyHolders(old(jobs), group, user, scope, key);
              var busy := HasActive(old(jobs), group, user, scope);
              var recent := RecentStarts(old(jobs), user, scope, at);
              match r
              case Replayed(e) => e in keyed && old(jobs)[e].hash == Fingerprint(group, user, scope)
              case IdempotencyReuse => exists e <- keyed :: old(jobs)[e].hash != Fingerprint(group, user, scope)
              case Conflict => keyed == {} && busy
              case RateLimited => keyed == {} && !busy && c.hourlyStarts <= recent
              case Created(n) => n == id && keyed == {} && !busy && recent < c.hourlyStarts
      ensures r == Created(id) ==>
                var j := jobs[id];
                j.status == Queued && j.group == group && j.user == user && j.scope == scope && j.key == key && j.requestedAt == at
                && j.attempts == 0 && j.progress == 0 && j.total == total && j.lease == None && j.artifact == None && !j.notified
      ensures forall k <- old(jobs).Keys | r.Created? ::
                old(jobs)[k].group == group && old(jobs)[k].user == user && old(jobs)[k].scope == scope ==>
                  old(jobs)[k].key != key && old(jobs)[k].status != Queued && old(jobs)[k].status != Running
    {
      var keyed := set k <- jobs.Keys | SameActor(jobs[k], group, user, scope) && jobs[k].key == key;
      CreateColumns(jobs, group, user, scope, key, at);
      if keyed != {} {
        var e: JobId :| e in keyed;
        return if jobs[e].hash != Fingerprint(group, user, scope) then IdempotencyReuse else Replayed(e);
      }
      if ActiveJobs(jobs, group, user, scope) != {} {
        return Conflict;
      }
      if c.hourlyStarts <= |StartsSince(jobs, user, scope, at - HOUR)| {
        return RateLimited;
      }
      forall k <- jobs.Keys | SameActor(jobs[k], group, user, scope) ensures jobs[k].key != key && !Active(jobs[k]) {
        assert k !in keyed && k !in ActiveJobs(jobs, group, user, scope);
      }
      jobs := jobs[id := QueuedRow(group, user, scope, key, total, at)];
      r := Created(id);
    }

    /** Claims the oldest claimable job, or cancels it when its requester lost authorization.  A job
        is claimable while it is queued or its lease has ended, as long as it has attempts left. */
    method ClaimNext(token: Token, at: int, lease: int, authorized: JobId -> bool) returns (r: Option<JobId>)
      modifies this
      ensures r.None? <==> forall id <- old(jobs).Keys :: !Claimable(old(jobs)[id], at)
      ensures r.None? ==> jobs == old(jobs)
      ensures r.Some? ==> FirstClaimable(old(jobs), at, r.value)
      ensures r.Some? ==>
                jobs == old(jobs)[r.value := if authorized(r.value) then ClaimedRow(old(jobs)[r.value], token, at, lease)
                                             else CancelledRow(old(jobs)[r.value], at).(error := None)]
      ensures forall id <- old(jobs).Keys ::
                var j := old(jobs)[id];
                j.attempts < 10 && (j.status == Queued || (j.status == Running && j.lease.Some? && j.lease.value.until <= at)) ==>
                  r.Some? && var first := old(jobs)[r.value];
                  first.requestedAt < j.requestedAt || (first.requestedAt == j.requestedAt && r.value <= id)
      ensures r.Some? ==> r.value in old(jobs) && r.value in jobs && old(jobs)[r.value].attempts < 10
      ensures r.Some? ==>
                var before, now := old(jobs)[r.value], jobs[r.value];
                (before.status == Queued || (before.status == Running && before.lease.Some? && before.lease.value.until <= at))
                && if authorized(r.value)
                   then now.status == Running && now.lease == Some(Lease(token, at + lease)) && now.attempts == before.attempts + 1
                        && now.startedAt == (if before.startedAt.Some? then before.startedAt else Some(at))
                   else now.status == Cancelled && now.lease == None && now.completedAt == Some(at) && now.attempts == before.attempts
    {
      var candidates := set id <- jobs.Keys | Claimable(jobs[id], at);
      r := SelectFirst(jobs, candidates);
      if r == None {
        forall id <- jobs.Keys ensures !Claimable(jobs[id], at) { assert id !in candidates; }
        return;
      }
      var j := jobs[r.value];
      if !authorized(r.value) {
        jobs := jobs[r.value := j.(status := Cancelled, completedAt := Some(at), lease := None, error := None)];
        return;
      }
      var startedAt := if j.startedAt.None? then Some(at) else j.startedAt;
      jobs := jobs[r.value := j.(status := Running, startedAt := startedAt, lease := Some(Lease(token, at + lease)),
                                 attempts := j.attempts + 1, error := None)];
    }

    /** Terminates the oldest job whose last allowed attempt let its lease expire. */
    method FailExhaustedAttempt(at: int) returns (r: Option<JobId>)
      modifies this
      ensures r.None? <==> forall id <- old(jobs).Keys :: !Exhausted(old(jobs)[id], at)
      ensures r.None? ==> jobs == old(jobs)
      ensures r.Some? ==> FirstExhausted(old(jobs), at, r.value)
      ensures r.Some? ==> jobs == old(jobs)[r.value := FailedRow(old(jobs)[r.value], AttemptsExhausted, at)]
      ensures forall id <- old(jobs).Keys ::
                var j := old(jobs)[id];
                j.attempts >= 10 && j.status == Running && j.lease.Some? && j.lease.value.until <= at ==>
                  r.Some? && var first := old(jobs)[r.value];
                  first.requestedAt < j.requestedAt || (first.requestedAt == j.requestedAt && r.value <= id)
      ensures r.Some? ==>
                var before, now := old(jobs)[r.value], jobs[r.value];
                before.attempts >= 10 && before.status == Running && before.lease.Some? && before.lease.value.until <= at
                && now.status == Failed && now.error == Some(AttemptsExhausted) && now.lease == None && now.completedAt == Some(at)
    {
      var candidates := set id <- jobs.Keys | Exhausted(jobs[id], at);
      r := SelectFirst(jobs, candidates);
      if r == None {
        forall id <- jobs.Keys ensures !Exhausted(jobs[id], at) { assert id !in candidates; }
        return;
      }
      jobs := jobs[r.value := jobs[r.value].(status := Failed, completedAt := Some(at), error := Some(AttemptsExhausted),
                                             lease := None, artifact := None)];
    }

    /** Reports finished datasets and renews the lease; refused once the lease is lost.  After it the
        same attempt goes on, and nobody can take the job over or give it up for one lease. */
    method UpdateProgress(id: JobId, token: Token, completed: nat, total: nat, at: int, lease: int) returns (ok: bool)
      modifies this
      ensures ok <==> completed <= total && HoldsLease(old(jobs), id, token)
      ensures jobs == if ok then old(jobs)[id := ProgressRow(old(jobs)[id], completed, token, at, lease)] else old(jobs)
      ensures ok ==> HoldsLease(jobs, id, token) && jobs[id].progress == completed && jobs[id].attempts == old(jobs)[id].attempts
      ensures ok <==> completed <= total && id in old(jobs) && old(jobs)[id].status == Running
                      && old(jobs)[id].lease.Some? && old(jobs)[id].lease.value.token == token
      ensures ok ==> forall now: int | now < at + lease :: !Claimable(jobs[id], now) && !Exhausted(jobs[id], now)
      ensures Sound(old(jobs)) && (id in old(jobs) ==> old(jobs)[id].total == total) ==> Sound(jobs)
    {
      if completed > total {
        return false;
      }
      ok := id in jobs && jobs[id].status.Running? && jobs[id].lease.Some? && jobs[id].lease.value.token == token;
      if ok {
        jobs := jobs[id := jobs[id].(progress := completed, lease := Some(Lease(token, at + lease)))];
      }
    }

    /** The completing write: the status afterwards, or None when the row is gone.  Once it took
        effect no attempt can write the row, and an archive that a caller deletes because the
        status is not READY is not the archive of any READY row. */
    method CompleteClaim(id: JobId, token: Token, name: FileName, content: Content, at: int, retention: int, authorized: bool)
      returns (status: Option<Status>)
      modifies this
      ensures jobs == if !HoldsLease(old(jobs), id, token) then old(jobs)
                      else if authorized then old(jobs)[id := ReadyRow(old(jobs)[id], name, content, at, retention)]
                      else old(jobs)[id := CancelledRow(old(jobs)[id], at).(artifact := None)]
      ensures status == if id in jobs then Some(jobs[id].status) else None
      ensures HoldsLease(old(jobs), id, token) ==> Fenced(jobs, id) && (authorized <==> status == Some(Ready))
      ensures HoldsLease(old(jobs), id, token) && authorized ==>
                var j := jobs[id];
                j.artifact == Some(name) && j.sha == Some(content) && j.size == Some(|content|) && j.expiresAt == Some(at + retention)
                && j.completedAt == Some(at) && j.progress == j.total && j.error == None
      ensures HoldsLease(old(jobs), id, token) && !authorized ==>
                jobs[id].status == Cancelled && jobs[id].artifact == None && jobs[id].completedAt == Some(at)
      ensures status != Some(Ready) && !NamedByReady(old(jobs), name) ==> !NamedByReady(jobs, name)
      ensures forall k <- old(jobs).Keys | old(jobs)[k].status.Ready? :: k in jobs && jobs[k] == old(jobs)[k]
      ensures Sound(old(jobs)) ==> Sound(jobs)
    {
      if id !in jobs {
        return None;
      }
      var j := jobs[id];
      if j.status.Running? && j.lease.Some? && j.lease.value.token == token {
        if authorized {
          jobs := jobs[id := j.(status := Ready, progress := j.total, completedAt := Some(at), expiresAt := Some(at + retention),
                                size := Some(|content|), sha := Some(content), artifact := Some(name), lease := None, error := None)];
        } else {
          jobs := jobs[id := j.(status := Cancelled, completedAt := Some(at), lease := None, artifact := None)];
        }
      }
      status := Some(jobs[id].status);
    }

    /** Fails the job for its lease holder; whoever calls, the attempt cannot write the row again,
        and no finished job is touched. */
    method FailClaim(id: JobId, token: Token, code: ErrorCode, at: int) returns (status: Option<Status>)
      modifies this
      ensures jobs == if HoldsLease(old(jobs), id, token) then old(jobs)[id := FailedRow(old(jobs)[id], code, at)] else old(jobs)
      ensures status == if id in jobs then Some(jobs[id].status) else None
      ensures !HoldsLease(jobs, id, token) && (HoldsLease(old(jobs), id, token) ==> Fenced(jobs, id))
      ensures HoldsLease(old(jobs), id, token) ==>
                jobs[id].status == Failed && jobs[id].error == Some(code) && jobs[id].artifact == None && jobs[id].completedAt == Some(at)
      ensures forall k <- old(jobs).Keys | !old(jobs)[k].status.Running? :: k in jobs && jobs[k] == old(jobs)[k]
      ensures Sound(old(jobs)) ==> Sound(jobs)
    {
      if id !in jobs {
        return None;
      }
      var j := jobs[id];
      if j.status.Running? && j.lease.Some? && j.lease.value.token == token {
        jobs := jobs[id := j.(status := Failed, completedAt := Some(at), error := Some(code), lease := None, artifact := None)];
      }
      status := Some(jobs[id].status);
    }
  }

  // ---------------------------------------------------------------- the directory

  /** Entries a pass leaves alone: retained archives and files younger than the horizon. */
  predicate Kept(files: map<FileName, File>, retained: set<FileName>, staleBefore: int, n: FileName) {
    n in files && (n in retained || staleBefore <= files[n].mtime)
  }

  function Reconciled(files: map<FileName, File>, retained: set<FileName>, staleBefore: int): map<FileName, File> {
    map n <- files.Keys | Kept(files, retained, staleBefore, n) :: files[n]
  }

  function Removed(files: map<FileName, File>, retained: set<FileName>, staleBefore: int): set<FileName> {
    set n <- files.Keys | !Kept(files, retained, staleBefore, n)
  }

  class ArtifactDirectory {
    var files: map<FileName, File>

    /** An atomic rename: an existing archive of the same attempt is replaced, no other entry
        changes, and as the modification time travels with the file, the archive is exactly as
        old for the reconciler as the temporary file was. */
    method Publish(job: JobId, token: Token, temporary: FileName) returns (name: Option<FileName>)
      requires temporary.Temp?
      modifies this
      ensures name.None? <==> temporary !in old(files)
      ensures name.None? ==> files == old(files)
      ensures name.Some? ==> name.value == Zip(job, token)
      ensures name.Some? ==> files == (old(files) - {temporary})[Zip(job, token) := old(files)[temporary]]
      ensures name.Some? ==> forall retained: set<FileName>, staleBefore: int ::
                Kept(files, retained, staleBefore, name.value) <==> name.value in retained || staleBefore <= old(files)[temporary].mtime
      ensures name.Some? ==> forall n: FileName, retained: set<FileName>, staleBefore: int | n.attempt != token && n != temporary ::
                Kept(files, retained, staleBefore, n) <==> Kept(old(files), retained, staleBefore, n)
    {
      if temporary !in files {
        return None;
      }
      var file := files[temporary];
      files := files - {temporary};
      files := files[Zip(job, token) := file];
      name := Some(Zip(job, token));
    }

    method Remove(name: FileName)
      modifies this
      ensures files == old(files) - {name}
    {
      files := files - {name};
    }

    /** Lists the directory, then tests and unlinks entry by entry. */
    method Reconcile(retained: set<FileName>, staleBefore: int) returns (removed: nat)
      modifies this
      ensures files == Reconciled(old(files), retained, staleBefore)
      ensures forall n: FileName ::
                (n in files <==> n in old(files) && (n in retained || staleBefore <= old(files)[n].mtime))
                && (n in files ==> files[n] == old(files)[n])
      ensures removed == |Removed(old(files), retained, staleBefore)|
    {
      removed := 0;
      var entries := files.Keys;
      ghost var dropped: set<FileName> := {};
      while entries != {}
        invariant entries <= old(files).Keys
        invariant files == map n <- old(files).Keys | n in entries || Kept(old(files), retained, staleBefore, n) :: old(files)[n]
        invariant removed == |dropped|
        invariant dropped == set n <- old(files).Keys | n !in entries && !Kept(old(files), retained, staleBefore, n)
        decreases |entries|
      {
        var name: FileName :| name in entries;
        entries := entries - {name};
        if name !in retained && files[name].mtime < staleBefore {
          files := files - {name};
          removed := removed + 1;
          dropped := dropped + {name};
        }
      }
      assert dropped == Removed(old(files), retained, staleBefore);
    }
  }

  /** Terminal jobs lose their archive and then their row, active jobs are cancelled; a job of
      another user is not found. */
  method Remove(table: JobTable, directory: ArtifactDirectory, user: nat, id: JobId, at: int) returns (found: bool)
    modifies table, directory
    ensures found <==> id in old(table.jobs) && old(table.jobs)[id].user == user
    ensures !found ==> table.jobs == old(table.jobs) && directory.files == old(directory.files)
    ensures found && Terminal(old(table.jobs)[id].status) ==>
              table.jobs == old(table.jobs) - {id}
              && directory.files == match old(table.jobs)[id].artifact
                                    case None => old(directory.files)
                                    case Some(name) => old(directory.files) - {name}
    ensures found && !Terminal(old(table.jobs)[id].status) ==>
              directory.files == old(directory.files) && table.jobs.Keys == old(table.jobs).Keys
              && table.jobs[id].status.Cancelled? && table.jobs[id].lease.None? && table.jobs[id].completedAt.Some?
              && forall k <- table.jobs.Keys | k != id :: table.jobs[k] == old(table.jobs)[k]
  {
    found := id in table.jobs && table.jobs[id].user == user;
    if !found {
      return;
    }
    var j := table.jobs[id];
    if Terminal(j.status) {
      if j.artifact.Some? {
        directory.Remove(j.artifact.value);
      }
      table.jobs := table.jobs - {id};
    } else {
      var completedAt := if j.completedAt.Some? then j.completedAt else Some(at);
      table.jobs := table.jobs[id := j.(status := Cancelled, completedAt := completedAt, lease := None)];
    }
  }

  // ---------------------------------------------------------------- cleanup

  predicate Outlived(j: Job, now: int) { j.expiresAt.None? || j.expiresAt.value <= now }

  predicate Retires(j: Job, now: int, authorized: bool) { Outlived(j, now) || !authorized }

  /** What one undisturbed pass does to a listed READY row. */
  function CleanedRow(j: Job, now: int, authorized: bool): Job {
    if Retires(j, now, authorized) then RetiredRow(j, Outlived(j, now)).(artifact := None) else j
  }

  /** The archives of the rows it retires. */
  function DroppedNames(jobs: Table, listed: set<JobId>, now: int, authorized: JobId -> bool): set<FileName> {
    set id <- listed | id in jobs && jobs[id].artifact.Some? && Retires(jobs[id], now, authorized(id))
      :: jobs[id].artifact.value
  }

  function CleanedTable(jobs: Table, listed: set<JobId>, now: int, authorized: JobId -> bool): Table {
    map id <- jobs.Keys :: if id in listed then CleanedRow(jobs[id], now, authorized(id)) else jobs[id]
  }

  method RetireOne(table: JobTable, directory: ArtifactDirectory, id: JobId, now: int, authorized: bool)
    requires id in table.jobs && table.jobs[id].status.Ready? && table.jobs[id].artifact.Some?
    modifies table, directory
    ensures table.jobs == old(table.jobs)[id := CleanedRow(old(table.jobs)[id], now, authorized)]
    ensures directory.files == if Retires(old(table.jobs)[id], now, authorized)
                               then old(directory.files) - {old(table.jobs)[id].artifact.value} else old(directory.files)
  {
    var j := table.jobs[id];
    var expired := Outlived(j, now);
    if !expired && authorized {
      assert table.jobs == table.jobs[id := j];
      return;
    }
    table.jobs := table.jobs[id := j.(status := if expired then Expired else Cancelled)];
    directory.Remove(j.artifact.value);
    table.jobs := table.jobs[id := table.jobs[id].(artifact := None)];
  }

  method RetireListed(table: JobTable, directory: ArtifactDirectory, listed: set<JobId>, now: int,
                      authorized: JobId -> bool)
    requires forall id <- listed :: id in table.jobs && table.jobs[id].status.Ready? && table.jobs[id].artifact.Some?
    modifies table, directory
    ensures table.jobs == CleanedTable(old(table.jobs), listed, now, authorized)
    ensures directory.files == old(directory.files) - DroppedNames(old(table.jobs), listed, now, authorized)
  {
    hide CleanedRow, CleanedTable, DroppedNames, Retires;
    ghost var jobs, files := table.jobs, directory.files;
    var done: set<JobId>, rest := {}, listed;
    CleanedNone(jobs, now, authorized);
    while rest != {}
      invariant done + rest == listed && done !! rest
      invariant table.jobs == CleanedTable(jobs, done, now, authorized)
      invariant directory.files == files - DroppedNames(jobs, done, now, authorized)
      decreases |rest|
    {
      var id: JobId :| id in rest;
      CleanedOneMore(jobs, done, id, now, authorized);
      MinusTwice(files, DroppedNames(jobs, done, now, authorized), {jobs[id].artifact.value});
      RetireOne(table, directory, id, now, authorized(id));
      done, rest := done + {id}, rest - {id};
    }
    assert done == listed;
  }

  /** Cleanup without interleaving: retires each listed READY row that expired or lost its
      authorization and unlinks its archive, then reconciles the directory. */
  method Cleanup(table: JobTable, directory: ArtifactDirectory, listed: set<JobId>, now: int, lease: int,
                 authorized: JobId -> bool)
    requires forall id <- listed :: id in table.jobs && table.jobs[id].status.Ready? && table.jobs[id].artifact.Some?
    modifies table, directory
    ensures table.jobs == CleanedTable(old(table.jobs), listed, now, authorized)
    ensures directory.files == Reconciled(old(directory.files) - DroppedNames(old(table.jobs), listed, now, authorized),
                                          ReadyNames(table.jobs), now - lease)
    ensures table.jobs.Keys == old(table.jobs).Keys
    ensures forall id <- table.jobs.Keys :: CleanedRight(old(table.jobs)[id], table.jobs[id], id in listed, now, authorized(id))
    ensures forall id <- table.jobs.Keys | table.jobs[id].status == Ready && table.jobs[id].artifact.Some? ::
              var name := table.jobs[id].artifact.value;
              name in old(directory.files) && (forall k <- listed :: k == id || old(table.jobs)[k].artifact != Some(name)) ==>
                name in directory.files && directory.files[name] == old(directory.files)[name]
    ensures forall id <- listed | table.jobs[id].status != Ready :: old(table.jobs)[id].artifact.value !in directory.files
  {
    hide Reconciled, DroppedNames, CleanedTable, ReadyNames, CleanedRight;
    ghost var jobs, files := table.jobs, directory.files;
    RetireListed(table, directory, listed, now, authorized);
    ghost var remaining := directory.files;
    var retained := ReadyNames(table.jobs);
    var removed := directory.Reconcile(retained, now - lease);
    assert directory.files == Reconciled(remaining, retained, now - lease);
    CleanedMeans(jobs, files, listed, now, lease, authorized);
  }

  /** A listed row stays as it is while it is unexpired and authorized; otherwise it ends EXPIRED or
      CANCELLED, whichever applies first, without its archive.  Rows not listed stay. */
  predicate CleanedRight(j: Job, j': Job, listed: bool, now: int, authorized: bool) {
    var expired := j.expiresAt.None? || j.expiresAt.value <= now;
    if !listed || (!expired && authorized) then j' == j
    else j' == j.(status := j'.status, artifact := None) && j'.status == if expired then Expired else Cancelled
  }

  lemma CleanedMeans(jobs: Table, files: map<FileName, File>, listed: set<JobId>, now: int, lease: int, authorized: JobId -> bool)
    requires forall id <- listed :: id in jobs && jobs[id].status.Ready? && jobs[id].artifact.Some?
    ensures var jobs' := CleanedTable(jobs, listed, now, authorized);
            var files' := Reconciled(files - DroppedNames(jobs, listed, now, authorized), ReadyNames(jobs'), now - lease);
            jobs'.Keys == jobs.Keys
            && (forall id <- jobs.Keys :: CleanedRight(jobs[id], jobs'[id], id in listed, now, authorized(id)))
            && (forall id <- jobs'.Keys | jobs'[id].status == Ready && jobs'[id].artifact.Some? ::
                  var name := jobs'[id].artifact.value;
                  name in files && (forall k <- listed :: k == id || jobs[k].artifact != Some(name)) ==>
                    name in files' && files'[name] == files[name])
            && (forall id <- listed | jobs'[id].status != Ready :: jobs[id].artifact.value !in files')
  {
    var jobs' := CleanedTable(jobs, listed, now, authorized);
    forall id <- listed | jobs'[id].status != Ready ensures jobs[id].artifact.value in DroppedNames(jobs, listed, now, authorized) {
    }
  }

  lemma MinusTwice<K, V>(m: map<K, V>, a: set<K>, b: set<K>)
    ensures (m - a) - b == m - (a + b)
    ensures a + {} == a
  {
  }

  lemma CleanedNone(jobs: Table, now: int, authorized: JobId -> bool)
    ensures CleanedTable(jobs, {}, now, authorized) == jobs && DroppedNames(jobs, {}, now, authorized) == {}
  {
  }

  lemma CleanedOneMore(jobs: Table, done: set<JobId>, id: JobId, now: int, authorized: JobId -> bool)
    requires id in jobs && jobs[id].artifact.Some? && id !in done
    ensures id in CleanedTable(jobs, done, now, authorized) && CleanedTable(jobs, done, now, authorized)[id] == jobs[id]
    ensures CleanedTable(jobs, done + {id}, now, authorized)
            == CleanedTable(jobs, done, now, authorized)[id := CleanedRow(jobs[id], now, authorized(id))]
    ensures DroppedNames(jobs, done + {id}, now, authorized)
            == DroppedNames(jobs, done, now, authorized)
               + if Retires(jobs[id], now, authorized(id)) then {jobs[id].artifact.value} else {}
  {
  }

  // ---------------------------------------------------------------- the size limit

  /** Refuses a write that would pass the limit before any byte of it is written; the
      underlying writer may accept fewer bytes than offered. */
  class LimitedWriter {
    const limit: nat
    var wrote: nat
    var output: Content

    ghost predicate Valid()
      reads this
    {
      wrote == |output| <= limit
    }

    constructor (limit: nat)
      ensures Valid() && this.limit == limit && output == []
    {
      this.limit, wrote, output := limit, 0, [];
    }

    method Write(value: Content, accepted: nat) returns (ok: bool)
      requires Valid() && accepted <= |value|
      modifies this
      ensures Valid()
      ensures ok <==> |old(output)| + |value| <= limit
      ensures output == if ok then old(output) + value[..accepted] else old(output)
    {
      if wrote + |value| > limit {
        return false;
      }
      output := output + value[..accepted];
      wrote := wrote + accepted;
      ok := true;
    }
  }
}
