/**
 The row half of the export protocol: the `export_jobs` table and every guarded UPDATE,
 INSERT and DELETE the export service issues against it.  Each function below is one
 transaction body; a guarded UPDATE that affects no row returns the table unchanged.

 Times are integers (nanoseconds), identifiers and lease tokens are numbers, and a SHA-256
 digest is represented by the content it identifies (the digest is assumed injective).
 */
module ExportJobs {
  import opened Options

  type JobId = nat
  type Token = nat
  type Content = seq<bv8>

  datatype Scope = Group | Personal
  datatype Status = Queued | Running | Ready | Failed | Cancelled | Expired
  datatype ErrorCode = AttemptsExhausted | GenerationTimeout | ArtifactLimit | GenerationFailed
                     | CreateFailed | VerifyFailed | PublishFailed
  datatype Lease = Lease(token: Token, until: int)

  /** A file in the export directory.  The temporary file of an attempt is named by that
      attempt; a published archive is named by its job and the attempt's lease token. */
  datatype FileName = Temp(attempt: Token) | Zip(job: JobId, attempt: Token)

  /** The request fingerprint hashes exactly these three columns. */
  datatype Fingerprint = Fingerprint(group: nat, user: nat, scope: Scope)

  datatype Job = Job(
    group: nat, user: nat, scope: Scope, key: nat, hash: Fingerprint,
    status: Status, requestedAt: int, startedAt: Option<int>, completedAt: Option<int>,
    expiresAt: Option<int>, progress: nat, total: nat, attempts: nat, lease: Option<Lease>,
    artifact: Option<FileName>, sha: Option<Content>, size: Option<nat>,
    error: Option<ErrorCode>, notified: bool)

  type Table = map<JobId, Job>

  const SECOND: int := 1_000_000_000
  const MINUTE: int := 60 * SECOND
  const HOUR: int := 60 * MINUTE
  const MAX_ATTEMPTS: nat := 10

  // ---------------------------------------------------------------- configuration

  datatype Config = Config(retention: int, lease: int, timeout: int, maxBytes: int, hourlyStarts: int)

  function Positive(value: int, default: int): int { if value <= 0 then default else value }

  /** Defaulting in the service constructor.  Whatever the caller passes, one attempt's
      generation deadline is strictly shorter than its lease. */
  function NewConfig(options: Config): (c: Config)
    ensures 0 < c.timeout < c.lease && 0 < c.retention && 0 < c.maxBytes && 0 < c.hourlyStarts
    ensures ValidConfig(options) ==> c == options
  {
    var timeout := Positive(options.timeout, 10 * MINUTE);
    var lease := Positive(options.lease, 11 * MINUTE);
    Config(
      Positive(options.retention, 24 * HOUR),
      if lease <= timeout then timeout + MINUTE else lease,
      timeout,
      Positive(options.maxBytes, 512 * 1024 * 1024),
      Positive(options.hourlyStarts, 5))
  }

  predicate ValidConfig(c: Config) {
    0 < c.timeout < c.lease && 0 < c.retention && 0 < c.maxBytes && 0 < c.hourlyStarts
  }

  // ---------------------------------------------------------------- predicates on rows

  predicate Terminal(status: Status) {
    status.Ready? || status.Failed? || status.Cancelled? || status.Expired?
  }

  predicate Active(j: Job) { j.status.Queued? || j.status.Running? }

  predicate HoldsLease(jobs: Table, id: JobId, token: Token) {
    id in jobs && jobs[id].status.Running? && jobs[id].lease.Some? && jobs[id].lease.value.token == token
  }

  predicate LeaseExpired(j: Job, at: int) {
    j.status.Running? && j.lease.Some? && j.lease.value.until <= at
  }

  predicate Claimable(j: Job, at: int) {
    j.attempts < MAX_ATTEMPTS && (j.status.Queued? || LeaseExpired(j, at))
  }

  predicate Exhausted(j: Job, at: int) { MAX_ATTEMPTS <= j.attempts && LeaseExpired(j, at) }

  /** ORDER BY requested_at, id. */
  predicate Before(a: Job, aId: JobId, b: Job, bId: JobId) {
    a.requestedAt < b.requestedAt || (a.requestedAt == b.requestedAt && aId <= bId)
  }

  predicate FirstClaimable(jobs: Table, at: int, id: JobId) {
    id in jobs && Claimable(jobs[id], at)
    && forall k <- jobs.Keys :: Claimable(jobs[k], at) ==> Before(jobs[id], id, jobs[k], k)
  }

  predicate FirstExhausted(jobs: Table, at: int, id: JobId) {
    id in jobs && Exhausted(jobs[id], at)
    && forall k <- jobs.Keys :: Exhausted(jobs[k], at) ==> Before(jobs[id], id, jobs[k], k)
  }

  // ---------------------------------------------------------------- worker writes

  function ClaimedRow(j: Job, token: Token, at: int, lease: int): Job {
    j.(status := Running, startedAt := if j.startedAt.None? then Some(at) else j.startedAt,
       lease := Some(Lease(token, at + lease)), attempts := j.attempts + 1, error := None)
  }

  function CancelledRow(j: Job, at: int): Job {
    j.(status := Cancelled, completedAt := Some(at), lease := None)
  }

  function ProgressRow(j: Job, completed: nat, token: Token, at: int, lease: int): Job {
    j.(progress := completed, lease := Some(Lease(token, at + lease)))
  }

  function FailedRow(j: Job, code: ErrorCode, at: int): Job {
    j.(status := Failed, completedAt := Some(at), error := Some(code), lease := None, artifact := None)
  }

  function ReadyRow(j: Job, name: FileName, content: Content, at: int, retention: int): Job {
    j.(status := Ready, progress := j.total, completedAt := Some(at), expiresAt := Some(at + retention),
       size := Some(|content|), sha := Some(content), artifact := Some(name), lease := None, error := None)
  }

  function RetiredRow(j: Job, expired: bool): Job {
    j.(status := if expired then Expired else Cancelled)
  }

  // ---------------------------------------------------------------- Create and Remove

  datatype CreateResult = Created(id: JobId) | Replayed(id: JobId) | Conflict | RateLimited | IdempotencyReuse

  predicate SameActor(j: Job, group: nat, user: nat, scope: Scope) {
    j.group == group && j.user == user && j.scope == scope
  }

  function WithKey(jobs: Table, group: nat, user: nat, scope: Scope, key: nat): set<JobId> {
    set id <- jobs.Keys | SameActor(jobs[id], group, user, scope) && jobs[id].key == key
  }

  function ActiveJobs(jobs: Table, group: nat, user: nat, scope: Scope): set<JobId> {
    set id <- jobs.Keys | SameActor(jobs[id], group, user, scope) && Active(jobs[id])
  }

  /** Retained rows of one user and scope, over all groups, requested in the closed window of
      one hour that ends at `to`. */
  function StartsInHourTo(jobs: Table, user: nat, scope: Scope, to: int): set<JobId> {
    set id <- jobs.Keys | jobs[id].user == user && jobs[id].scope == scope && to - HOUR <= jobs[id].requestedAt <= to
  }

  function StartsSince(jobs: Table, user: nat, scope: Scope, from: int): set<JobId> {
    set id <- jobs.Keys | jobs[id].user == user && jobs[id].scope == scope && from <= jobs[id].requestedAt
  }

  function QueuedRow(group: nat, user: nat, scope: Scope, key: nat, total: nat, at: int): Job {
    Job(group, user, scope, key, Fingerprint(group, user, scope), Queued, at, None, None, None, 0, total, 0,
        None, None, None, None, None, false)
  }

  /** The decision part of Create, in the order of the checks inside its transaction. */
  ghost function CreateDecision(c: Config, jobs: Table, id: JobId, group: nat, user: nat, scope: Scope, key: nat, at: int)
    : CreateResult
  {
    var matching := WithKey(jobs, group, user, scope, key);
    if matching != {} then
      var existing :| existing in matching;
      if jobs[existing].hash != Fingerprint(group, user, scope) then IdempotencyReuse else Replayed(existing)
    else if ActiveJobs(jobs, group, user, scope) != {} then Conflict
    else if c.hourlyStarts <= |StartsSince(jobs, user, scope, at - HOUR)| then RateLimited
    else Created(id)
  }

  // ---------------------------------------------------------------- what Create looks at, in columns

  /** The rows that carry this key of this requester. */
  function KeyHolders(jobs: Table, group: nat, user: nat, scope: Scope, key: nat): set<JobId> {
    set k <- jobs.Keys | jobs[k].key == key && jobs[k].group == group && jobs[k].user == user && jobs[k].scope == scope
  }

  /** The requester has a job that is queued or running. */
  predicate HasActive(jobs: Table, group: nat, user: nat, scope: Scope) {
    exists k <- jobs.Keys ::
      (jobs[k].status == Queued || jobs[k].status == Running) && jobs[k].group == group && jobs[k].user == user && jobs[k].scope == scope
  }

  /** How many jobs the user requested in this scope within the last hour or later. */
  function RecentStarts(jobs: Table, user: nat, scope: Scope, at: int): nat {
    |set k <- jobs.Keys | at - 60 * MINUTE <= jobs[k].requestedAt && jobs[k].user == user && jobs[k].scope == scope|
  }

  lemma CreateColumns(jobs: Table, group: nat, user: nat, scope: Scope, key: nat, at: int)
    ensures KeyHolders(jobs, group, user, scope, key) == WithKey(jobs, group, user, scope, key)
    ensures HasActive(jobs, group, user, scope) <==> ActiveJobs(jobs, group, user, scope) != {}
    ensures RecentStarts(jobs, user, scope, at) == |StartsSince(jobs, user, scope, at - HOUR)|
  {
    var active := ActiveJobs(jobs, group, user, scope);
    assert active != {} <==> exists k <- jobs.Keys :: k in active;
    assert StartsSince(jobs, user, scope, at - HOUR)
        == set k <- jobs.Keys | at - 60 * MINUTE <= jobs[k].requestedAt && jobs[k].user == user && jobs[k].scope == scope;
  }
}
