/**
 The export service around the protocol: who reports a finished job and who downloads its
 archive.  A caller of the completion listener holds the row it read back, or one it found in
 the list of unacknowledged rows, and may use it at any later time, however stale.  A download
 reads and checks its row in one transaction and opens the file after that transaction.
 */
module ExportService {
  import opened Options
  import opened ExportJobs
  import opened ExportMachine
  import opened ExportInvariant
  import opened ExportSafety
  import opened ExportHistory

  /** A worker reports the job of its own attempt; a poller reports what it found. */
  datatype CallerId = ByWorker(token: Token) | ByPoller(n: nat)

  /** The record in a caller's hands, and whether the listener has returned success for it. */
  datatype Caller = Caller(job: JobId, status: Status, called: bool)

  /** What the checking transaction of a download read. */
  datatype Held = Held(name: FileName, size: nat, sha: Content)

  datatype Service = Service(base: State, callers: map<CallerId, Caller>, delivered: set<(JobId, Status)>, downloads: map<nat, Held>)

  datatype Step =
    | Protocol(a: Action, poller: nat)
    | FindPending(poller: nat, id: JobId)
    | Call(caller: CallerId)
    | Confirm(caller: CallerId)
    | CheckDownload(d: nat, user: nat, id: JobId, authorized: bool)
    | OpenFile(d: nat)

  ghost predicate Init(x: Service) {
    ExportMachine.Init(x.base) && x.callers == map[] && x.delivered == {} && x.downloads == map[]
  }

  /** The rows the dispatcher lists: READY or FAILED and not acknowledged. */
  predicate Pending(j: Job) { (j.status.Ready? || j.status.Failed?) && !j.notified }

  /** What the acting process reads back and reports: a completing worker a READY row, whoever
      made it READY, a failing worker or the exhaustion check a FAILED one. */
  function ReadBack(s: State, s': State, a: Action, poller: nat): Option<(CallerId, Caller)> {
    match a
    case Complete(t, _, _) =>
      if t in s.workers && s.workers[t].job in s'.jobs && s'.jobs[s.workers[t].job].status.Ready?
      then Some((ByWorker(t), Caller(s.workers[t].job, Ready, false))) else None
    case Fail(t, _, _) =>
      if t in s.workers && s.workers[t].job in s'.jobs && s'.jobs[s.workers[t].job].status.Failed?
      then Some((ByWorker(t), Caller(s.workers[t].job, Failed, false))) else None
    case FailExhausted(id, _) => Some((ByPoller(poller), Caller(id, Failed, false)))
    case _ => None
  }

  /** The row test of a download. */
  predicate Servable(s: State, user: nat, id: JobId) {
    id in s.jobs && s.jobs[id].user == user && s.jobs[id].status.Ready? && s.jobs[id].artifact.Some?
    && s.jobs[id].size.Some? && s.jobs[id].sha.Some? && s.jobs[id].expiresAt.Some? && s.clock < s.jobs[id].expiresAt.value
  }

  ghost predicate CanStep(c: Config, x: Service, step: Step) {
    match step
    case Protocol(a, poller) => Enabled(c, x.base, a) && !a.Acknowledge? && (a.FailExhausted? ==> ByPoller(poller) !in x.callers)
    case FindPending(poller, id) => ByPoller(poller) !in x.callers && id in x.base.jobs && Pending(x.base.jobs[id])
    case Call(k) => k in x.callers
    case Confirm(k) => k in x.callers && x.callers[k].called
    case CheckDownload(d, _, _, _) => d !in x.downloads
    case OpenFile(d) => d in x.downloads
  }

  function Told(x: Service, k: CallerId): Service
    requires k in x.callers
  {
    x.(callers := x.callers[k := x.callers[k].(called := true)], delivered := x.delivered + {(x.callers[k].job, x.callers[k].status)})
  }

  function Acknowledged(x: Service, k: CallerId): Service
    requires k in x.callers
  {
    x.(base := DoAcknowledge(x.base, x.callers[k].job, x.callers[k].status), callers := x.callers - {k})
  }

  function Checked(x: Service, d: nat, user: nat, id: JobId): Service {
    if Servable(x.base, user, id) then
      var j := x.base.jobs[id];
      x.(downloads := x.downloads[d := Held(j.artifact.value, j.size.value, j.sha.value)])
    else x
  }

  function WithRecord(callers: map<CallerId, Caller>, r: Option<(CallerId, Caller)>): map<CallerId, Caller> {
    if r.Some? then callers[r.value.0 := r.value.1] else callers
  }

  ghost function DoStep(c: Config, x: Service, step: Step): Service
    requires CanStep(c, x, step)
  {
    match step
    case Protocol(a, poller) =>
      var s' := Do(c, x.base, a);
      x.(base := s', callers := WithRecord(x.callers, ReadBack(x.base, s', a, poller)))
    case FindPending(poller, id) => x.(callers := x.callers[ByPoller(poller) := Caller(id, x.base.jobs[id].status, false)])
    case Call(k) => Told(x, k)
    case Confirm(k) => Acknowledged(x, k)
    case CheckDownload(d, user, id, authorized) => if authorized then Checked(x, d, user, id) else x
    case OpenFile(d) => x.(downloads := x.downloads - {d})
  }

  ghost predicate ServiceRun(c: Config, states: seq<Service>, steps: seq<Step>) {
    |states| == |steps| + 1 && Init(states[0])
    && forall i :: 0 <= i < |steps| ==> CanStep(c, states[i], steps[i]) && states[i + 1] == DoStep(c, states[i], steps[i])
  }

  /** Every step of the service keeps the protocol's invariant and moves its table legally. */
  lemma StepKeepsBase(c: Config, x: Service, step: Step)
    requires Inv(c, x.base) && CanStep(c, x, step)
    ensures Inv(c, DoStep(c, x, step).base) && TableMoves(x.base, DoStep(c, x, step).base)
  {
    hide Do, Can, Inv, TableMoves;
    assert Rows(x.base) by { InvRows(c, x.base); }
    match step {
      case Protocol(a, poller) =>
        StepKeeps(c, x.base, a);
        StepMoves(c, x.base, a);
      case Confirm(k) =>
        AcknowledgeKeeps(c, x.base, x.callers[k].job, x.callers[k].status);
        AcknowledgeMoves(x.base, x.callers[k].job, x.callers[k].status);
      case FindPending(_, _) => NothingMoves(x.base);
      case Call(_) => NothingMoves(x.base);
      case CheckDownload(_, _, _, _) => NothingMoves(x.base);
      case OpenFile(_) => NothingMoves(x.base);
    }
  }

  lemma InvRows(c: Config, s: State)
    requires Inv(c, s)
    ensures Rows(s) && Outcomes(s)
  {
  }

  lemma NothingMoves(s: State)
    ensures TableMoves(s, s)
  {
  }

  lemma {:induction false} RunKeepsBase(c: Config, states: seq<Service>, steps: seq<Step>, i: nat)
    requires ValidConfig(c) && ServiceRun(c, states, steps) && i < |states|
    ensures Inv(c, states[i].base)
  {
    hide DoStep, CanStep;
    if i > 0 {
      RunKeepsBase(c, states, steps, i - 1);
      StepKeepsBase(c, states[i - 1], steps[i - 1]);
    }
  }
}
