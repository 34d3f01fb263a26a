/**
 The export protocol as a state machine.  Database transactions and single filesystem calls
 are the atomic steps; generation workers, Cleanup passes and acknowledgements interleave
 freely, and any of them may stall for ever at any point (a crash is a process that takes no
 further step).  A generation attempt is identified by the lease token it drew when it claimed.

 `at` parameters are clock readings taken before a transaction started, so they may lie
 arbitrarily far in the past when the transaction commits.
 */
module ExportMachine {
  import opened Options
  import opened ExportJobs

  datatype File = File(content: Content, mtime: int)

  datatype Phase = Claimed | Generating | Sealed | Hashed | Published | Dropping | Halted

  /** One generation attempt: `started` begins its deadline, `lastWrite` is the time of its
      last write to the temporary file, `done` counts finished datasets out of `total`. */
  datatype Worker = Worker(job: JobId, total: nat, phase: Phase, started: int, lastWrite: int, done: nat, sha: Content)

  datatype Listed = Listed(name: FileName, expiresAt: int)

  /** One Cleanup pass: the READY rows it listed, the archives it still has to unlink, the
      names it read as retained, and the directory entries that passed its staleness test. */
  datatype Cleaner = Cleaner(now: int, listed: map<JobId, Listed>, toDrop: set<FileName>,
                             retained: Option<set<FileName>>, condemned: set<FileName>)

  /** History: what the one transition out of QUEUED/RUNNING decided, and for which attempt. */
  datatype Outcome = Outcome(status: Status, token: Option<Token>)

  datatype State = State(
    clock: int, jobs: Table, files: map<FileName, File>, workers: map<Token, Worker>,
    cleaners: map<nat, Cleaner>, usedIds: set<JobId>, outcomes: map<JobId, Outcome>)

  datatype Action =
    | Tick(elapsed: nat)
    | Create(id: JobId, group: nat, user: nat, scope: Scope, key: nat, total: nat, at: int)
    | Remove(id: JobId, at: int)
    | Claim(id: JobId, token: Token, at: int, authorized: bool)
    | FailExhausted(id: JobId, at: int)
    | Begin(token: Token, started: int)
    | Write(token: Token, content: Content)
    | Progress(token: Token, at: int)
    | Seal(token: Token)
    | Hash(token: Token)
    | Publish(token: Token)
    | Complete(token: Token, at: int, authorized: bool)
    | CompleteError(token: Token)
    | DropOwn(token: Token)
    | Fail(token: Token, at: int, code: ErrorCode)
    | DropTemp(token: Token)
    | CleanupStart(cleaner: nat, at: int)
    | CleanupList(cleaner: nat, ids: set<JobId>)
    | CleanupRetire(cleaner: nat, id: JobId, authorized: bool)
    | CleanupUnlink(cleaner: nat, name: FileName)
    | CleanupForget(cleaner: nat, id: JobId)
    | CleanupSnapshot(cleaner: nat)
    | CleanupStat(cleaner: nat, name: FileName)
    | CleanupDelete(cleaner: nat, name: FileName)
    | Acknowledge(id: JobId, status: Status)

  ghost predicate Init(s: State) {
    s.jobs == map[] && s.files == map[] && s.workers == map[] && s.cleaners == map[]
    && s.usedIds == {} && s.outcomes == map[]
  }

  predicate GenerationLive(c: Config, s: State, w: Worker) { s.clock < w.started + c.timeout }

  predicate InPhase(s: State, t: Token, phase: Phase) { t in s.workers && s.workers[t].phase == phase }

  predicate Building(p: Phase) { p.Generating? || p.Sealed? || p.Hashed? }

  function StaleBefore(c: Config, k: Cleaner): int { k.now - c.lease }

  /** When an action can be taken by the code at all. */
  ghost predicate Can(c: Config, s: State, a: Action) {
    match a
    case Tick(_) => true
    case Create(id, _, _, _, _, total, at) => id !in s.usedIds && 0 < total && at <= s.clock
    case Remove(id, at) => id in s.jobs && at <= s.clock
    case Claim(id, t, at, _) => t !in s.workers && FirstClaimable(s.jobs, at, id) && at <= s.clock
    case FailExhausted(id, at) => FirstExhausted(s.jobs, at, id) && at <= s.clock
    case Begin(t, started) => InPhase(s, t, Claimed) && s.workers[t].lastWrite <= started <= s.clock
    case Write(t, content) => InPhase(s, t, Generating) && |content| <= c.maxBytes
    case Progress(t, at) =>
      InPhase(s, t, Generating) && s.workers[t].done < s.workers[t].total && at <= s.clock
    case Seal(t) =>
      InPhase(s, t, Generating) && s.workers[t].done == s.workers[t].total && GenerationLive(c, s, s.workers[t])
    case Hash(t) => InPhase(s, t, Sealed) && Temp(t) in s.files && GenerationLive(c, s, s.workers[t])
    case Publish(t) => InPhase(s, t, Hashed) && Temp(t) in s.files
    case Complete(t, at, _) => InPhase(s, t, Published) && at <= s.clock
    case CompleteError(t) => InPhase(s, t, Published)
    case DropOwn(t) => InPhase(s, t, Dropping)
    case Fail(t, at, _) => t in s.workers && (InPhase(s, t, Claimed) || Building(s.workers[t].phase)) && at <= s.clock
    case DropTemp(t) => t in s.workers && (InPhase(s, t, Halted) || Building(s.workers[t].phase))
    case CleanupStart(k, at) => k !in s.cleaners && at <= s.clock
    case CleanupList(k, ids) => k in s.cleaners && Listable(s.jobs, ids)
    case CleanupRetire(k, id, _) => k in s.cleaners && id in s.cleaners[k].listed
    case CleanupUnlink(k, n) => k in s.cleaners && n in s.cleaners[k].toDrop
    case CleanupForget(k, id) =>
      k in s.cleaners && id in s.cleaners[k].listed && s.cleaners[k].listed[id].name in s.cleaners[k].toDrop - s.files.Keys
    case CleanupSnapshot(k) => k in s.cleaners
    case CleanupStat(k, n) => k in s.cleaners && Stale(c, s, s.cleaners[k], n)
    case CleanupDelete(k, n) => k in s.cleaners && n in s.cleaners[k].condemned
    case Acknowledge(_, _) => true
  }

  /** The one timing assumption: the transaction that makes a job READY commits no later than
      one lease after the attempt last wrote its archive. */
  ghost predicate Timely(c: Config, s: State, a: Action)
    requires Can(c, s, a)
  {
    a.Complete? && a.authorized && HoldsLease(s.jobs, s.workers[a.token].job, a.token)
    ==> s.clock <= s.workers[a.token].lastWrite + c.lease
  }

  ghost predicate Enabled(c: Config, s: State, a: Action) { Can(c, s, a) && Timely(c, s, a) }

  function WithPhase(s: State, t: Token, phase: Phase): State
    requires t in s.workers
  {
    s.(workers := s.workers[t := s.workers[t].(phase := phase)])
  }

  function WithRow(s: State, id: JobId, j: Job): State { s.(jobs := s.jobs[id := j]) }

  function Settle(s: State, id: JobId, j: Job, token: Option<Token>): State {
    s.(jobs := s.jobs[id := j], outcomes := s.outcomes[id := Outcome(j.status, token)])
  }

  function WithCleaner(s: State, k: nat, cleaner: Cleaner): State { s.(cleaners := s.cleaners[k := cleaner]) }

  ghost function DoCreate(c: Config, s: State, a: Action): State
    requires a.Create?
  {
    if CreateDecision(c, s.jobs, a.id, a.group, a.user, a.scope, a.key, a.at) == Created(a.id) then
      s.(jobs := s.jobs[a.id := QueuedRow(a.group, a.user, a.scope, a.key, a.total, a.at)], usedIds := s.usedIds + {a.id})
    else s
  }

  /** Terminal rows lose their archive and then the row; active rows are cancelled. */
  function DoRemove(s: State, id: JobId, at: int): State
    requires id in s.jobs
  {
    var j := s.jobs[id];
    if Terminal(j.status) then
      s.(files := if j.artifact.Some? then s.files - {j.artifact.value} else s.files, jobs := s.jobs - {id})
    else Settle(s, id, CancelledRow(j, at).(completedAt := if j.completedAt.Some? then j.completedAt else Some(at)), None)
  }

  function DoClaim(c: Config, s: State, id: JobId, t: Token, at: int, authorized: bool): State
    requires id in s.jobs
  {
    if authorized then
      WithRow(s, id, ClaimedRow(s.jobs[id], t, at, c.lease))
        .(workers := s.workers[t := Worker(id, s.jobs[id].total, Claimed, s.clock, s.clock, 0, [])])
    else Settle(s, id, CancelledRow(s.jobs[id], at).(error := None), None)
  }

  function DoProgress(c: Config, s: State, t: Token, at: int): State
    requires t in s.workers
  {
    var w := s.workers[t];
    if HoldsLease(s.jobs, w.job, t) then
      WithRow(s, w.job, ProgressRow(s.jobs[w.job], w.done + 1, t, at, c.lease))
        .(workers := s.workers[t := w.(done := w.done + 1)])
    else WithPhase(s, t, Halted)
  }

  /** The generation deadline starts and the (empty) temporary file is created. */
  function DoBegin(s: State, t: Token, started: int): State
    requires t in s.workers
  {
    s.(workers := s.workers[t := s.workers[t].(phase := Generating, started := started, lastWrite := s.clock)],
       files := s.files[Temp(t) := File([], s.clock)])
  }

  /** A write through the open descriptor: it leaves the directory alone if the entry is gone. */
  function DoWrite(s: State, t: Token, content: Content): State
    requires t in s.workers
  {
    s.(workers := s.workers[t := s.workers[t].(lastWrite := s.clock)],
       files := if Temp(t) in s.files then s.files[Temp(t) := File(content, s.clock)] else s.files)
  }

  function DoHash(s: State, t: Token): State
    requires t in s.workers && Temp(t) in s.files
  {
    s.(workers := s.workers[t := s.workers[t].(phase := Hashed, sha := s.files[Temp(t)].content)])
  }

  function DoPublish(s: State, t: Token): State
    requires t in s.workers && Temp(t) in s.files
  {
    WithPhase(s, t, Published)
      .(files := (s.files - {Temp(t)})[Zip(s.workers[t].job, t) := s.files[Temp(t)]])
  }

  /** The completing write, and its two refusals: revoked authorization and a lost lease.  A
      worker that finds the job READY through another attempt leaves its own file behind. */
  function DoComplete(c: Config, s: State, t: Token, at: int, authorized: bool): State
    requires t in s.workers
  {
    var w := s.workers[t];
    if HoldsLease(s.jobs, w.job, t) then
      if authorized then
        Settle(WithPhase(s, t, Halted), w.job, ReadyRow(s.jobs[w.job], Zip(w.job, t), w.sha, at, c.retention), Some(t))
      else Settle(WithPhase(s, t, Dropping), w.job, CancelledRow(s.jobs[w.job], at).(artifact := None), None)
    else if w.job in s.jobs && s.jobs[w.job].status.Ready? then WithPhase(s, t, Halted)
    else WithPhase(s, t, Dropping)
  }

  function DoDrop(s: State, t: Token, name: FileName): State
    requires t in s.workers
  {
    WithPhase(s, t, Halted).(files := s.files - {name})
  }

  function DoFail(s: State, t: Token, at: int, code: ErrorCode): State
    requires t in s.workers
  {
    var w := s.workers[t];
    if HoldsLease(s.jobs, w.job, t) then
      Settle(WithPhase(s, t, Halted), w.job, FailedRow(s.jobs[w.job], code, at), Some(t))
    else WithPhase(s, t, Halted)
  }

  /** The guarded update only touches a READY row, but the archive is queued for unlinking
      whether or not a row was changed. */
  function DoRetire(s: State, k: nat, id: JobId, authorized: bool): State
    requires k in s.cleaners && id in s.cleaners[k].listed
  {
    var cl := s.cleaners[k];
    var expired := cl.listed[id].expiresAt <= cl.now;
    if !expired && authorized then s
    else
      var marked := WithCleaner(s, k, cl.(toDrop := cl.toDrop + {cl.listed[id].name}));
      if id in s.jobs && s.jobs[id].status.Ready? then WithRow(marked, id, RetiredRow(s.jobs[id], expired)) else marked
  }

  function DoForget(s: State, k: nat, id: JobId): State
    requires k in s.cleaners && id in s.cleaners[k].listed
  {
    if id in s.jobs && s.jobs[id].artifact == Some(s.cleaners[k].listed[id].name)
    then WithRow(s, id, s.jobs[id].(artifact := None)) else s
  }

  function DoTick(s: State, elapsed: nat): State { s.(clock := s.clock + elapsed) }

  /** The acknowledging UPDATE: whoever issues it, it is guarded by the status it reported. */
  function DoAcknowledge(s: State, id: JobId, status: Status): State {
    if id in s.jobs && s.jobs[id].status == status && !s.jobs[id].notified
    then WithRow(s, id, s.jobs[id].(notified := true)) else s
  }

  function ReadyNames(jobs: Table): set<FileName> {
    set id <- jobs.Keys | jobs[id].status.Ready? && jobs[id].artifact.Some? :: jobs[id].artifact.value
  }

  predicate Listable(jobs: Table, ids: set<JobId>) {
    ids <= jobs.Keys
    && forall id <- ids :: jobs[id].status.Ready? && jobs[id].artifact.Some? && jobs[id].expiresAt.Some?
  }

  function Listing(s: State, k: Cleaner, ids: set<JobId>): Cleaner
    requires Listable(s.jobs, ids)
  {
    k.(listed := map id | id in ids :: Listed(s.jobs[id].artifact.value, s.jobs[id].expiresAt.value))
  }

  function Snapshot(s: State, k: Cleaner): Cleaner { k.(retained := Some(ReadyNames(s.jobs)), condemned := {}) }

  function Condemning(k: Cleaner, n: FileName): Cleaner { k.(condemned := k.condemned + {n}) }

  /** The staleness test of the reconciler: an unretained entry older than one lease. */
  predicate Stale(c: Config, s: State, k: Cleaner, n: FileName) {
    n in s.files && k.retained.Some? && n !in k.retained.value && s.files[n].mtime < StaleBefore(c, k)
  }

  ghost function Do(c: Config, s: State, a: Action): State
    requires Can(c, s, a)
  {
    match a
    case Tick(elapsed) => DoTick(s, elapsed)
    case Create(_, _, _, _, _, _, _) => DoCreate(c, s, a)
    case Remove(id, at) => DoRemove(s, id, at)
    case Claim(id, t, at, authorized) => DoClaim(c, s, id, t, at, authorized)
    case FailExhausted(id, at) => Settle(s, id, FailedRow(s.jobs[id], AttemptsExhausted, at), None)
    case Begin(t, started) => DoBegin(s, t, started)
    case Write(t, content) => DoWrite(s, t, content)
    case Progress(t, at) => DoProgress(c, s, t, at)
    case Seal(t) => WithPhase(s, t, Sealed)
    case Hash(t) => DoHash(s, t)
    case Publish(t) => DoPublish(s, t)
    case Complete(t, at, authorized) => DoComplete(c, s, t, at, authorized)
    case CompleteError(t) => WithPhase(s, t, Dropping)
    case DropOwn(t) => DoDrop(s, t, Zip(s.workers[t].job, t))
    case Fail(t, at, code) => DoFail(s, t, at, code)
    case DropTemp(t) => DoDrop(s, t, Temp(t))
    case CleanupStart(k, at) => WithCleaner(s, k, Cleaner(at, map[], {}, None, {}))
    case CleanupList(k, ids) =>
      WithCleaner(s, k, Listing(s, s.cleaners[k], ids))
    case CleanupRetire(k, id, authorized) => DoRetire(s, k, id, authorized)
    case CleanupUnlink(k, n) => s.(files := s.files - {n})
    case CleanupForget(k, id) => DoForget(s, k, id)
    case CleanupSnapshot(k) => WithCleaner(s, k, Snapshot(s, s.cleaners[k]))
    case CleanupStat(k, n) => WithCleaner(s, k, Condemning(s.cleaners[k], n))
    case CleanupDelete(k, n) => s.(files := s.files - {n})
    case Acknowledge(id, st) => DoAcknowledge(s, id, st)
  }

  /** A finite run: `states[i+1]` follows from `states[i]` by `actions[i]`. */
  ghost predicate Run(c: Config, states: seq<State>, actions: seq<Action>) {
    |states| == |actions| + 1 && Init(states[0])
    && forall i :: 0 <= i < |actions| ==> Enabled(c, states[i], actions[i]) && states[i + 1] == Do(c, states[i], actions[i])
  }
}
