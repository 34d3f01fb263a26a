/**
 What can still be done, whatever happened before: an undisturbed attempt delivers a free job, a
 cleanup pass retires an expired or revoked one with its archive, and a pass removes any old file
 that no READY row names.  Each is a finite continuation of steps the code can take.
 */
module ExportDelivery {
  import opened Collections
  import opened Options
  import opened ExportJobs
  import opened ExportMachine
  import opened ExportInvariant
  import opened ExportSafety
  import opened ExportQueue

  // ---------------------------------------------------------------- finishing a job

  /** Attempt t works on job id under its lease, within its deadline, and nothing of it is lost. */
  ghost predicate Working(c: Config, s: State, id: JobId, t: Token, phase: Phase, content: Content) {
    InPhase(s, t, phase) && HoldsLease(s.jobs, id, t)
    && s.workers[t].job == id && s.workers[t].started == s.workers[t].lastWrite == s.clock
    && Temp(t) in s.files && s.files[Temp(t)].content == content
  }

  lemma {:induction false} ProgressAll(c: Config, s: State, id: JobId, t: Token) returns (more: seq<Action>, s': State)
    requires Working(c, s, id, t, Generating, []) && s.workers[t].done <= s.workers[t].total
    ensures Leads(c, s, more, s') && Working(c, s', id, t, Generating, []) && s'.clock == s.clock
    ensures s'.workers[t].done == s'.workers[t].total
    decreases s.workers[t].total - s.workers[t].done
  {
    more, s' := [], s;
    if s.workers[t].done < s.workers[t].total {
      var a := Progress(t, s.clock);
      var s1 := Do(c, s, a);
      LeadsOne(c, s, a);
      var rest: seq<Action>;
      rest, s' := ProgressAll(c, s1, id, t);
      LeadsBoth(c, s, [a], s1, rest, s');
      more := [a] + rest;
    }
  }

  lemma BeginWork(c: Config, s: State, id: JobId, t: Token) returns (s1: State)
    requires InPhase(s, t, Claimed) && HoldsLease(s.jobs, id, t) && s.workers[t].job == id && s.workers[t].lastWrite <= s.clock
    requires s.workers[t].done <= s.workers[t].total
    ensures Leads(c, s, [Begin(t, s.clock)], s1) && Working(c, s1, id, t, Generating, []) && s1.clock == s.clock
    ensures s1.workers[t].done <= s1.workers[t].total
  {
    s1 := Do(c, s, Begin(t, s.clock));
    LeadsOne(c, s, Begin(t, s.clock));
  }

  lemma PublishWork(c: Config, s: State, id: JobId, t: Token, content: Content) returns (more: seq<Action>, s': State)
    requires ValidConfig(c) && Working(c, s, id, t, Generating, []) && |content| <= c.maxBytes
    requires s.workers[t].done == s.workers[t].total
    ensures Leads(c, s, more, s') && s'.clock == s.clock && InPhase(s', t, Published) && HoldsLease(s'.jobs, id, t)
    ensures s'.workers[t].job == id && s'.workers[t].lastWrite == s'.clock && s'.workers[t].sha == content
    ensures Zip(id, t) in s'.files && s'.files[Zip(id, t)].content == content
  {
    var s1 := Do(c, s, Write(t, content));
    LeadsOne(c, s, Write(t, content));
    var s2 := Do(c, s1, Seal(t));
    LeadsOne(c, s1, Seal(t));
    LeadsBoth(c, s, [Write(t, content)], s1, [Seal(t)], s2);
    var s3 := Do(c, s2, Hash(t));
    LeadsOne(c, s2, Hash(t));
    LeadsBoth(c, s, [Write(t, content)] + [Seal(t)], s2, [Hash(t)], s3);
    s' := Do(c, s3, Publish(t));
    LeadsOne(c, s3, Publish(t));
    more := [Write(t, content)] + [Seal(t)] + [Hash(t)] + [Publish(t)];
    LeadsBoth(c, s, [Write(t, content)] + [Seal(t)] + [Hash(t)], s3, [Publish(t)], s');
  }

  lemma CompleteWork(c: Config, s: State, id: JobId, t: Token, content: Content) returns (s': State)
    requires ValidConfig(c) && InPhase(s, t, Published) && HoldsLease(s.jobs, id, t) && s.workers[t].job == id
    requires s.workers[t].lastWrite == s.clock && s.workers[t].sha == content
    requires Zip(id, t) in s.files && s.files[Zip(id, t)].content == content
    ensures Leads(c, s, [Complete(t, s.clock, true)], s') && Delivered(c, s', id, t, content)
  {
    var a := Complete(t, s.clock, true);
    s' := Do(c, s, a);
    LeadsOne(c, s, a);
  }

  /** The job is READY for one retention from now, and its archive with that content is on disk. */
  ghost predicate Delivered(c: Config, s: State, id: JobId, t: Token, content: Content) {
    id in s.jobs && s.jobs[id].status == Ready && s.jobs[id].artifact == Some(Zip(id, t)) && s.jobs[id].sha == Some(content)
    && s.jobs[id].expiresAt == Some(s.clock + c.retention) && Zip(id, t) in s.files && s.files[Zip(id, t)].content == content
  }

  lemma FreshClaim(c: Config, s: State, id: JobId, t: Token)
    requires Inv(c, s) && HoldsLease(s.jobs, id, t)
    ensures t in s.workers && s.workers[t].job == id && s.workers[t].lastWrite <= s.clock && s.workers[t].done <= s.workers[t].total
  {
    assert WorkerOk(c, s, t, s.workers[t]);
  }

  lemma {:induction false} LeadsKeeps(c: Config, s: State, more: seq<Action>, s': State)
    requires Inv(c, s) && Leads(c, s, more, s')
    ensures Inv(c, s')
    decreases |more|
  {
    hide Inv, Do, Can, Timely;
    if more != [] {
      StepKeeps(c, s, more[0]);
      LeadsKeeps(c, Do(c, s, more[0]), more[1..], s');
    }
  }

  /** Whatever happened before, a free job with attempts left can still be delivered, with any content
      within the limit, by one more attempt that nobody disturbs. */
  lemma CanBeDelivered(c: Config, states: seq<State>, actions: seq<Action>, i: nat, id: JobId, content: Content)
    returns (more: seq<Action>, s': State, t: Token)
    requires ValidConfig(c) && Run(c, states, actions) && i < |states| && |content| <= c.maxBytes
    requires id in states[i].jobs && Free(states[i].jobs[id], states[i].clock) && states[i].jobs[id].attempts < 10
    ensures Leads(c, states[i], more, s') && Delivered(c, s', id, t, content)
  {
    hide Leads, Enabled, Do, Inv, Working, Run, Delivered;
    var s := states[i];
    RunSafe(c, states, actions, i);
    var claims, s1, u := ClaimsReach(c, s, id, s.clock);
    t := u;
    LeadsKeeps(c, s, claims, s1);
    FreshClaim(c, s1, id, t);
    var s2 := BeginWork(c, s1, id, t);
    LeadsBoth(c, s, claims, s1, [Begin(t, s1.clock)], s2);
    var steps, s3 := ProgressAll(c, s2, id, t);
    LeadsBoth(c, s, claims + [Begin(t, s1.clock)], s2, steps, s3);
    var files, s4 := PublishWork(c, s3, id, t, content);
    LeadsBoth(c, s, claims + [Begin(t, s1.clock)] + steps, s3, files, s4);
    s' := CompleteWork(c, s4, id, t, content);
    more := claims + [Begin(t, s1.clock)] + steps + files + [Complete(t, s4.clock, true)];
    LeadsBoth(c, s, claims + [Begin(t, s1.clock)] + steps + files, s4, [Complete(t, s4.clock, true)], s');
  }

  // ---------------------------------------------------------------- cleaning up

  /** Pass k has listed just job id, with the archive and expiry of its row. */
  ghost predicate ListedOnly(s: State, k: nat, id: JobId) {
    id in s.jobs && s.jobs[id].artifact.Some? && s.jobs[id].expiresAt.Some?
    && k in s.cleaners
    && s.cleaners[k] == Cleaner(s.clock, map[id := Listed(s.jobs[id].artifact.value, s.jobs[id].expiresAt.value)], {}, None, {})
  }

  lemma ListWork(c: Config, s: State, id: JobId, k: nat) returns (more: seq<Action>, s2: State)
    requires id in s.jobs && s.jobs[id].status == Ready && k !in s.cleaners && s.jobs[id].expiresAt.Some? && s.jobs[id].artifact.Some?
    ensures Leads(c, s, more, s2) && ListedOnly(s2, k, id) && s2.jobs == s.jobs && s2.files == s.files && s2.clock == s.clock
  {
    var start, list := CleanupStart(k, s.clock), CleanupList(k, {id});
    var s1 := Do(c, s, start);
    LeadsOne(c, s, start);
    s2 := Do(c, s1, list);
    LeadsOne(c, s1, list);
    LeadsBoth(c, s, [start], s1, [list], s2);
    more := [start] + [list];
  }

  lemma RetireStep(c: Config, s: State, id: JobId, k: nat, authorized: bool) returns (s': State)
    requires ListedOnly(s, k, id) && s.jobs[id].status == Ready && (s.jobs[id].expiresAt.value <= s.clock || !authorized)
    ensures Leads(c, s, [CleanupRetire(k, id, authorized)], s') && k in s'.cleaners && id in s'.jobs && id in s'.cleaners[k].listed
    ensures s'.jobs[id] == s.jobs[id].(status := if s.jobs[id].expiresAt.value <= s.clock then Expired else Cancelled)
    ensures s'.cleaners[k].listed[id].name == s.jobs[id].artifact.value && s'.jobs[id].artifact.value in s'.cleaners[k].toDrop
  {
    var a := CleanupRetire(k, id, authorized);
    s' := Do(c, s, a);
    LeadsOne(c, s, a);
  }

  lemma DropWork(c: Config, s: State, id: JobId, k: nat) returns (more: seq<Action>, s': State)
    requires k in s.cleaners && id in s.jobs && s.jobs[id].artifact.Some? && id in s.cleaners[k].listed
    requires s.cleaners[k].listed[id].name == s.jobs[id].artifact.value && s.jobs[id].artifact.value in s.cleaners[k].toDrop
    ensures Leads(c, s, more, s') && id in s'.jobs && s'.jobs[id] == s.jobs[id].(artifact := None) && s.jobs[id].artifact.value !in s'.files
  {
    var unlink, forget := CleanupUnlink(k, s.jobs[id].artifact.value), CleanupForget(k, id);
    var s1 := Do(c, s, unlink);
    LeadsOne(c, s, unlink);
    s' := Do(c, s1, forget);
    LeadsOne(c, s1, forget);
    LeadsBoth(c, s, [unlink], s1, [forget], s');
    more := [unlink] + [forget];
  }

  lemma RetireWork(c: Config, s: State, id: JobId, k: nat, authorized: bool) returns (more: seq<Action>, s': State)
    requires id in s.jobs && s.jobs[id].status == Ready && k !in s.cleaners
    requires s.jobs[id].expiresAt.Some? && s.jobs[id].artifact.Some? && (s.jobs[id].expiresAt.value <= s.clock || !authorized)
    ensures Leads(c, s, more, s') && id in s'.jobs && s'.jobs[id].artifact == None && s.jobs[id].artifact.value !in s'.files
    ensures s'.jobs[id].status == if s.jobs[id].expiresAt.value <= s.clock then Expired else Cancelled
  {
    hide Leads, Do;
    var xs, s2 := ListWork(c, s, id, k);
    var s3 := RetireStep(c, s2, id, k, authorized);
    LeadsBoth(c, s, xs, s2, [CleanupRetire(k, id, authorized)], s3);
    var ys: seq<Action>;
    ys, s' := DropWork(c, s3, id, k);
    more := xs + [CleanupRetire(k, id, authorized)] + ys;
    LeadsBoth(c, s, xs + [CleanupRetire(k, id, authorized)], s3, ys, s');
  }

  lemma ReadyThere(c: Config, s: State, id: JobId)
    requires Inv(c, s) && id in s.jobs && s.jobs[id].status.Ready?
    ensures s.jobs[id].artifact.Some? && s.jobs[id].artifact.value in s.files && s.jobs[id].expiresAt.Some?
  {
    assert RowShape(s.jobs[id]);
  }

  /** In every reachable state a cleanup pass can retire an expired or revoked READY job: the row ends
      EXPIRED or CANCELLED, names no archive, and the archive is gone. */
  lemma CanBeRetired(c: Config, states: seq<State>, actions: seq<Action>, i: nat, id: JobId, authorized: bool)
    returns (more: seq<Action>, s': State)
    requires ValidConfig(c) && Run(c, states, actions) && i < |states| && id in states[i].jobs && states[i].jobs[id].status == Ready
    ensures states[i].jobs[id].expiresAt.Some? && states[i].jobs[id].artifact.Some?
    ensures states[i].jobs[id].expiresAt.value <= states[i].clock || !authorized ==>
              Leads(c, states[i], more, s') && id in s'.jobs && s'.jobs[id].artifact == None
              && states[i].jobs[id].artifact.value !in s'.files
              && s'.jobs[id].status == if states[i].jobs[id].expiresAt.value <= states[i].clock then Expired else Cancelled
  {
    hide Leads, Do, Inv, Run;
    var s := states[i];
    RunSafe(c, states, actions, i);
    ReadyThere(c, s, id);
    more, s' := [], s;
    if s.jobs[id].expiresAt.value <= s.clock || !authorized {
      var k := Above(s.cleaners.Keys);
      more, s' := RetireWork(c, s, id, k, authorized);
    }
  }

  lemma SnapshotWork(c: Config, s: State, k: nat) returns (more: seq<Action>, s2: State)
    requires k !in s.cleaners
    ensures Leads(c, s, more, s2) && s2 == s.(cleaners := s.cleaners[k := Cleaner(s.clock, map[], {}, Some(ReadyNames(s.jobs)), {})])
  {
    hide ReadyNames;
    var start, snapshot := CleanupStart(k, s.clock), CleanupSnapshot(k);
    var s1 := Do(c, s, start);
    LeadsOne(c, s, start);
    s2 := Do(c, s1, snapshot);
    LeadsOne(c, s1, snapshot);
    LeadsBoth(c, s, [start], s1, [snapshot], s2);
    more := [start] + [snapshot];
  }

  lemma DeleteWork(c: Config, s: State, k: nat, n: FileName) returns (more: seq<Action>, s': State)
    requires k in s.cleaners && Stale(c, s, s.cleaners[k], n)
    ensures Leads(c, s, more, s') && s'.files == s.files - {n} && s'.jobs == s.jobs
  {
    var look, unlink := CleanupStat(k, n), CleanupDelete(k, n);
    var s1 := Do(c, s, look);
    LeadsOne(c, s, look);
    s' := Do(c, s1, unlink);
    LeadsOne(c, s1, unlink);
    LeadsBoth(c, s, [look], s1, [unlink], s');
    more := [look] + [unlink];
  }

  /** In every state a file that no READY row names and that is older than one lease can be removed
      by a pass. */
  lemma CanBeReclaimed(c: Config, s: State, n: FileName) returns (more: seq<Action>, s': State)
    requires n in s.files && s.files[n].mtime < s.clock - c.lease
    requires forall id <- s.jobs.Keys | s.jobs[id].status == Ready :: s.jobs[id].artifact != Some(n)
    ensures Leads(c, s, more, s') && s'.files == s.files - {n} && s'.jobs == s.jobs
  {
    hide Leads, Do;
    var k := Above(s.cleaners.Keys);
    var xs, s2 := SnapshotWork(c, s, k);
    var ys: seq<Action>;
    ys, s' := DeleteWork(c, s2, k, n);
    LeadsBoth(c, s, xs, s2, ys, s');
    more := xs + ys;
  }

  // ---------------------------------------------------------------- removal and lost completions

  /** Removing a finished job takes its archive and its row and nothing else; removing an active one
      cancels it and takes its lease. */
  lemma RemovalEffect(c: Config, s: State, id: JobId, at: int)
    requires Can(c, s, Remove(id, at))
    ensures var j, s' := s.jobs[id], Do(c, s, Remove(id, at));
            s'.workers == s.workers
            && if j.status == Queued || j.status == Running
               then s'.files == s.files && s'.jobs.Keys == s.jobs.Keys
                    && s'.jobs[id].status == Cancelled && s'.jobs[id].lease == None && s'.jobs[id].completedAt.Some?
                    && (forall k <- s.jobs.Keys | k != id :: s'.jobs[k] == s.jobs[k])
               else s'.jobs == s.jobs - {id} && s'.files == if j.artifact.Some? then s.files - {j.artifact.value} else s.files
  {
  }

  /** A completion that lost its lease changes no row and no file; it goes on to delete its own
      archive exactly unless it finds the job READY. */
  lemma LostCompletion(c: Config, s: State, t: Token, at: int, authorized: bool)
    requires Can(c, s, Complete(t, at, authorized))
    requires !HoldsLease(s.jobs, s.workers[t].job, t)
    ensures var id, s' := s.workers[t].job, Do(c, s, Complete(t, at, authorized));
            s'.jobs == s.jobs && s'.files == s.files && t in s'.workers
            && s'.workers[t].phase == if id in s.jobs && s.jobs[id].status == Ready then Halted else Dropping
  {
    hide DoCreate, DoRemove, DoClaim, DoProgress, DoFail, DoRetire, DoForget, DoAcknowledge, DoBegin, DoWrite, DoHash, DoPublish;
    hide FirstClaimable, FirstExhausted, Listable, Stale;
  }
}
