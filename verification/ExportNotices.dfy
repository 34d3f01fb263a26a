/**
 Completion reports: made by completing, failing and polling callers from records that may be
 arbitrarily stale, and repeated at will, yet one notification per job, because a job has one
 outcome and the sink derives the notification's identifier from the job and that outcome.
 */
module ExportNotices {
  import opened ExportJobs
  import opened ExportMachine
  import opened ExportInvariant
  import opened ExportHistory
  import opened ExportService

  // ---------------------------------------------------------------- records and outcomes

  predicate Reports(s: State, id: JobId, status: Status) {
    id in s.outcomes && s.outcomes[id].status == status && (status.Ready? || status.Failed?)
  }

  /** However old, every record in a caller's hands carries its job's one outcome; so does every
      report made; and a row is acknowledged only after its outcome was reported. */
  ghost predicate Informed(x: Service) {
    (forall k <- x.callers.Keys ::
       Reports(x.base, x.callers[k].job, x.callers[k].status)
       && (x.callers[k].called ==> (x.callers[k].job, x.callers[k].status) in x.delivered))
    && (forall d <- x.delivered :: Reports(x.base, d.0, d.1))
    && forall id <- x.base.jobs.Keys | x.base.jobs[id].notified ::
         id in x.base.outcomes && (id, x.base.outcomes[id].status) in x.delivered
  }

  /** A row that is READY or FAILED agrees with its job's outcome. */
  lemma RowReports(s: State, id: JobId)
    requires Rows(s) && id in s.jobs && (s.jobs[id].status.Ready? || s.jobs[id].status.Failed?)
    ensures Reports(s, id, s.jobs[id].status)
  {
    assert RowHistory(id, s.jobs[id], s.outcomes);
  }

  lemma ReadBackReports(c: Config, s: State, a: Action, poller: nat)
    requires Can(c, s, a) && Rows(Do(c, s, a))
    ensures var r := ReadBack(s, Do(c, s, a), a, poller);
            r.Some? ==> Reports(Do(c, s, a), r.value.1.job, r.value.1.status) && !r.value.1.called
  {
    hide DoCreate, DoRemove, DoClaim, DoProgress, DoRetire, DoForget, DoAcknowledge, RowHistory, RowShape;
    var r := ReadBack(s, Do(c, s, a), a, poller);
    if r.Some? {
      RowReports(Do(c, s, a), r.value.1.job);
    }
  }

  /** Only the acknowledging statement sets the acknowledgement. */
  ghost predicate NoneAcknowledged(s: State, s': State) {
    forall id <- s'.jobs.Keys | s'.jobs[id].notified :: id in s.jobs && s.jobs[id].notified
  }

  lemma WorkerAcknowledgesNone(c: Config, s: State, a: Action)
    requires Can(c, s, a) && (a.Claim? || a.Progress?)
    ensures NoneAcknowledged(s, Do(c, s, a))
  {
    hide DoRemove, DoRetire, DoForget, DoAcknowledge, DoCreate, DoComplete, DoFail;
  }

  lemma EndingAcknowledgesNone(c: Config, s: State, a: Action)
    requires Can(c, s, a) && (a.Complete? || a.Fail?)
    ensures NoneAcknowledged(s, Do(c, s, a))
  {
    hide DoRemove, DoRetire, DoForget, DoAcknowledge, DoCreate, DoClaim, DoProgress;
  }

  lemma TableAcknowledgesNone(c: Config, s: State, a: Action)
    requires Can(c, s, a) && (a.Create? || a.Remove? || a.FailExhausted?)
    ensures NoneAcknowledged(s, Do(c, s, a))
  {
    hide DoRetire, DoForget;
    hide DoClaim, DoProgress, DoComplete, DoFail, DoAcknowledge;
  }

  lemma CleanupAcknowledgesNone(c: Config, s: State, a: Action)
    requires Can(c, s, a) && (a.CleanupRetire? || a.CleanupForget?)
    ensures NoneAcknowledged(s, Do(c, s, a))
  {
    hide DoClaim, DoProgress, DoComplete, DoFail, DoAcknowledge, DoCreate, DoRemove;
  }

  lemma OtherAcknowledgesNone(c: Config, s: State, a: Action)
    requires Can(c, s, a) && !a.Acknowledge? && !(a.Claim? || a.Progress? || a.Complete? || a.Fail?)
    requires !(a.Create? || a.Remove? || a.FailExhausted? || a.CleanupRetire? || a.CleanupForget?)
    ensures NoneAcknowledged(s, Do(c, s, a))
  {
    hide DoCreate, DoRemove, DoClaim, DoProgress, DoComplete, DoFail, DoRetire, DoForget, DoAcknowledge;
  }

  lemma ActionAcknowledgesNone(c: Config, s: State, a: Action)
    requires Can(c, s, a) && !a.Acknowledge?
    ensures NoneAcknowledged(s, Do(c, s, a))
  {
    hide NoneAcknowledged, Can, Do;
    if a.Claim? || a.Progress? {
      WorkerAcknowledgesNone(c, s, a);
    } else if a.Complete? || a.Fail? {
      EndingAcknowledgesNone(c, s, a);
    } else if a.Create? || a.Remove? || a.FailExhausted? {
      TableAcknowledgesNone(c, s, a);
    } else if a.CleanupRetire? || a.CleanupForget? {
      CleanupAcknowledgesNone(c, s, a);
    } else {
      OtherAcknowledgesNone(c, s, a);
    }
  }

  // ---------------------------------------------------------------- every step, every run

  lemma ProtocolInforms(c: Config, x: Service, a: Action, poller: nat)
    requires Informed(x) && Inv(c, x.base) && CanStep(c, x, Protocol(a, poller))
    ensures Informed(DoStep(c, x, Protocol(a, poller)))
  {
    hide Do, Can, Inv, Timely, ReadBack;
    var s' := Do(c, x.base, a);
    StepKeepsBase(c, x, Protocol(a, poller));
    InvRows(c, s');
    ReadBackReports(c, x.base, a, poller);
    ActionAcknowledgesNone(c, x.base, a);
    OutcomesStay(x.base, s');
  }

  lemma OutcomesStay(s: State, s': State)
    requires TableMoves(s, s')
    ensures forall id <- s.outcomes.Keys :: id in s'.outcomes && s'.outcomes[id] == s.outcomes[id]
  {
  }

  lemma ConfirmInforms(c: Config, x: Service, k: CallerId)
    requires Informed(x) && CanStep(c, x, Confirm(k))
    ensures Informed(Acknowledged(x, k))
  {
  }

  lemma StepInforms(c: Config, x: Service, step: Step)
    requires Informed(x) && Inv(c, x.base) && CanStep(c, x, step)
    ensures Informed(DoStep(c, x, step))
  {
    hide Do, Can, Inv, Timely, Rows;
    match step {
      case Protocol(a, poller) => ProtocolInforms(c, x, a, poller);
      case FindPending(poller, id) =>
        InvRows(c, x.base);
        RowReports(x.base, id);
      case Call(k) =>
      case Confirm(k) => ConfirmInforms(c, x, k);
      case CheckDownload(_, _, _, _) =>
      case OpenFile(d) =>
    }
  }

  lemma {:induction false} RunInformed(c: Config, states: seq<Service>, steps: seq<Step>, i: nat)
    requires ValidConfig(c) && ServiceRun(c, states, steps) && i < |states|
    ensures Informed(states[i])
  {
    hide DoStep, CanStep;
    if i > 0 {
      RunInformed(c, states, steps, i - 1);
      RunKeepsBase(c, states, steps, i - 1);
      StepInforms(c, states[i - 1], steps[i - 1]);
    }
  }

  /** From any state a finished, unacknowledged job can be found by a poller through the row
      alone, reported and acknowledged, and then is listed no more. */
  lemma PendingCanBeReported(c: Config, x: Service, id: JobId, poller: nat)
    requires id in x.base.jobs && (x.base.jobs[id].status == Ready || x.base.jobs[id].status == Failed) && !x.base.jobs[id].notified
    requires ByPoller(poller) !in x.callers
    ensures var find := FindPending(poller, id);
            CanStep(c, x, find)
            && var y := DoStep(c, x, find);
            CanStep(c, y, Call(ByPoller(poller)))
            && var z := DoStep(c, y, Call(ByPoller(poller)));
            CanStep(c, z, Confirm(ByPoller(poller)))
            && var done := DoStep(c, z, Confirm(ByPoller(poller)));
            id in done.base.jobs && done.base.jobs[id].notified && !Pending(done.base.jobs[id])
            && (id, x.base.jobs[id].status) in done.delivered
  {
  }

  /** A worker that made its job READY, or failed it, or finds it so, holds the record at once and can
      report it. */
  lemma FinisherCanReport(c: Config, x: Service, a: Action, poller: nat)
    requires CanStep(c, x, Protocol(a, poller)) && (a.Complete? || a.Fail?)
    requires a.token in x.base.workers
    requires var j := x.base.workers[a.token].job;
             var s' := Do(c, x.base, a);
             j in s'.jobs && s'.jobs[j].status == if a.Complete? then Ready else Failed
    ensures var y := DoStep(c, x, Protocol(a, poller));
            ByWorker(a.token) in y.callers && CanStep(c, y, Call(ByWorker(a.token)))
            && (x.base.workers[a.token].job, if a.Complete? then Ready else Failed) in DoStep(c, y, Call(ByWorker(a.token))).delivered
  {
    hide Do, Can, Timely;
  }

  // ---------------------------------------------------------------- the dispatcher's list

  /** ORDER BY completed_at, id. */
  predicate FinishedBefore(jobs: Table, a: JobId, b: JobId)
    requires a in jobs && b in jobs
  {
    var x, y := jobs[a].completedAt, jobs[b].completedAt;
    (x.None? && y.Some?) || (x.Some? && y.Some? && x.value < y.value) || (x == y && a < b)
  }

  lemma FinishedTotal(jobs: Table, a: JobId, b: JobId, k: JobId)
    requires a in jobs && b in jobs && k in jobs
    ensures a == b || FinishedBefore(jobs, a, b) || FinishedBefore(jobs, b, a)
    ensures !FinishedBefore(jobs, a, a)
    ensures FinishedBefore(jobs, a, b) && FinishedBefore(jobs, b, k) ==> FinishedBefore(jobs, a, k)
  {
  }

  method FirstFinished(jobs: Table, ids: set<JobId>) returns (first: JobId)
    requires ids != {} && ids <= jobs.Keys
    ensures first in ids && forall k <- ids :: k == first || FinishedBefore(jobs, first, k)
  {
    hide FinishedBefore;
    first :| first in ids;
    var rest := ids - {first};
    while rest != {}
      invariant rest <= ids && first in ids
      invariant forall k <- ids - rest :: k == first || FinishedBefore(jobs, first, k)
      decreases |rest|
    {
      var id: JobId :| id in rest;
      FinishedTotal(jobs, first, id, id);
      forall k <- ids ensures FinishedBefore(jobs, id, first) && FinishedBefore(jobs, first, k) ==> FinishedBefore(jobs, id, k) {
        FinishedTotal(jobs, id, first, k);
      }
      if FinishedBefore(jobs, id, first) {
        first := id;
      }
      rest := rest - {id};
    }
  }

  lemma PendingMeans(jobs: Table)
    ensures forall id <- jobs.Keys :: Pending(jobs[id]) <==> (jobs[id].status == Ready || jobs[id].status == Failed) && !jobs[id].notified
  {
  }

  /** At most `limit` rows, out of range 20: the unacknowledged finished ones, earliest first.
      A row is missing only if that many others finished before it, so none is passed over. */
  method ListPending(jobs: Table, requested: int) returns (listed: seq<JobId>, limit: nat)
    ensures limit == if requested < 1 || requested > 100 then 20 else requested
    ensures |listed| <= limit && forall i :: 0 <= i < |listed| ==>
              listed[i] in jobs && (jobs[listed[i]].status == Ready || jobs[listed[i]].status == Failed) && !jobs[listed[i]].notified
    ensures forall i, j :: 0 <= i < j < |listed| ==> FinishedBefore(jobs, listed[i], listed[j])
    ensures forall id <- jobs.Keys | (jobs[id].status == Ready || jobs[id].status == Failed) && !jobs[id].notified && id !in listed ::
              |listed| == limit && forall i :: 0 <= i < |listed| ==> FinishedBefore(jobs, listed[i], id)
  {
    hide FinishedBefore, Pending;
    limit := if requested < 1 || requested > 100 then 20 else requested;
    listed := [];
    var rest := set id <- jobs.Keys | Pending(jobs[id]);
    while rest != {} && |listed| < limit
      invariant |listed| <= limit && rest <= jobs.Keys
      invariant forall i :: 0 <= i < |listed| ==> listed[i] in jobs && Pending(jobs[listed[i]])
      invariant forall id <- jobs.Keys | Pending(jobs[id]) :: id in listed || id in rest
      invariant forall i, j :: 0 <= i < j < |listed| ==> FinishedBefore(jobs, listed[i], listed[j])
      invariant forall i, id :: 0 <= i < |listed| && id in rest ==> FinishedBefore(jobs, listed[i], id)
      invariant forall id <- rest :: Pending(jobs[id])
      decreases |rest|
    {
      var id := FirstFinished(jobs, rest);
      listed := listed + [id];
      rest := rest - {id};
    }
    PendingMeans(jobs);
  }

  // ---------------------------------------------------------------- the sink

  /** The notification identifier is a digest of the job and the event. */
  datatype NoticeId = NoticeId(job: JobId, status: Status)
  datatype Notice = Notice(group: nat, member: nat, job: JobId)
  datatype Completion = Completion(job: JobId, group: nat, member: nat, status: Status)
  type Notices = map<NoticeId, Notice>

  /** INSERT OR IGNORE, for an active member only; other statuses are no event. */
  function Recorded(rows: Notices, x: Completion, memberActive: bool): Notices {
    var id := NoticeId(x.job, x.status);
    if !(x.status.Ready? || x.status.Failed?) || !memberActive || id in rows then rows
    else rows[id := Notice(x.group, x.member, x.job)]
  }

  class NotificationTable {
    var rows: Notices

    /** A finished export of an active member leaves its notice, addressed to that member of that
        group.  Whatever is recorded stays as it is, and repeating the call later changes nothing
        more. */
    method ExportCompleted(x: Completion, memberActive: bool)
      modifies this
      ensures rows == Recorded(old(rows), x, memberActive)
      ensures memberActive && (x.status == Ready || x.status == Failed) ==>
                NoticeId(x.job, x.status) in rows
                && (NoticeId(x.job, x.status) in old(rows) || rows[NoticeId(x.job, x.status)] == Notice(x.group, x.member, x.job))
      ensures !memberActive || (x.status != Ready && x.status != Failed) ==> rows == old(rows)
      ensures forall id <- old(rows).Keys :: id in rows && rows[id] == old(rows)[id]
      ensures forall id <- rows.Keys - old(rows).Keys :: id == NoticeId(x.job, x.status) && memberActive
      ensures memberActive ==> forall later: bool :: Recorded(rows, x, later) == rows
      ensures Recorded(rows, x, memberActive) == rows
    {
      if x.status.Ready? || x.status.Failed? {
        if memberActive && NoticeId(x.job, x.status) !in rows {
          rows := rows[NoticeId(x.job, x.status) := Notice(x.group, x.member, x.job)];
        }
      }
    }
  }

  /** The table after a sequence of callbacks, each with the membership state it found. */
  function RecordedAll(xs: seq<(Completion, bool)>): Notices {
    if xs == [] then map[]
    else Recorded(RecordedAll(xs[..|xs| - 1]), xs[|xs| - 1].0, xs[|xs| - 1].1)
  }

  /** The callback is about this event and found the member active. */
  predicate Notifies(x: (Completion, bool), id: NoticeId) {
    x.0.job == id.job && x.0.status == id.status && (id.status == Ready || id.status == Failed) && x.1
  }

  /** A notification exists if and only if some callback was made for its event while the member was
      active, and it is addressed as such a callback said. */
  lemma {:induction false} RecordedIff(xs: seq<(Completion, bool)>, id: NoticeId)
    ensures id in RecordedAll(xs) <==> exists x <- xs :: Notifies(x, id)
    ensures id in RecordedAll(xs) ==>
              exists x <- xs :: Notifies(x, id) && RecordedAll(xs)[id] == Notice(x.0.group, x.0.member, id.job)
  {
    if xs != [] {
      var before, last := xs[..|xs| - 1], xs[|xs| - 1];
      RecordedIff(before, id);
      assert xs == before + [last];
      assert last in xs;
      if id in RecordedAll(before) {
        var x :| x in before && Notifies(x, id) && RecordedAll(before)[id] == Notice(x.0.group, x.0.member, id.job);
        assert x in xs;
      }
    }
  }

  /** However often, in whatever order and from however stale records the callbacks of a run are
      made, each job has at most one notification, and it tells the job's outcome. */
  lemma OneNotificationPerJob(c: Config, states: seq<Service>, steps: seq<Step>, i: nat,
                              xs: seq<(Completion, bool)>, a: NoticeId, b: NoticeId)
    requires ValidConfig(c) && ServiceRun(c, states, steps) && i < |states|
    requires forall x <- xs :: (x.0.job, x.0.status) in states[i].delivered
    requires a in RecordedAll(xs) && b in RecordedAll(xs) && a.job == b.job
    ensures a == b && a.job in states[i].base.outcomes && states[i].base.outcomes[a.job].status == a.status
  {
    hide DoStep, CanStep;
    RunInformed(c, states, steps, i);
    RecordedIff(xs, a);
    RecordedIff(xs, b);
  }
}
