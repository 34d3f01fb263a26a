/**
 Downloads in two steps: a transaction checks the row, and after it the archive is opened.  In
 between the job may be removed or retired, so the open can fail; this says exactly when, and
 that it never serves anything but the content whose digest the row recorded.
 */
module ExportDownloads {
  import opened Options
  import opened ExportJobs
  import opened ExportMachine
  import opened ExportInvariant
  import opened ExportService
  import opened ExportReach

  datatype Download = Opened(content: Content) | Unavailable

  /** Opening the archive that was named by the checked row and comparing its size. */
  function Open(s: State, h: Held): Download {
    if h.name !in s.files || |s.files[h.name].content| != h.size then Unavailable else Opened(s.files[h.name].content)
  }

  // ---------------------------------------------------------------- an archive once won

  /** The archive of the attempt that completed its job, and of no other. */
  ghost predicate Won(s: State, n: FileName) { WonBy(s, n) && InPhase(s, n.attempt, Halted) }

  /** The steps that unlink archives of completed jobs: a removal of the job, and a cleanup pass
      that retired it or found it unreferenced. */
  predicate Unlinks(s: State, a: Action, n: FileName) {
    n in s.files
    && ((a.Remove? && a.id in s.jobs && Terminal(s.jobs[a.id].status) && s.jobs[a.id].artifact == Some(n))
        || (a.CleanupUnlink? && a.name == n) || (a.CleanupDelete? && a.name == n))
  }

  /** A completed attempt's archive never changes; it only disappears, by those steps. */
  ghost predicate ArchiveKept(s: State, s': State, a: Action, n: FileName) {
    InPhase(s', n.attempt, Halted)
    && (n in s'.files ==> n in s.files && s'.files[n] == s.files[n])
    && (n in s.files ==> (n !in s'.files <==> Unlinks(s, a, n)))
  }

  lemma WorkerKeepsArchive(c: Config, s: State, a: Action, n: FileName)
    requires Can(c, s, a) && n.Zip? && InPhase(s, n.attempt, Halted)
    requires a.Begin? || a.Write? || a.Seal? || a.Hash? || a.Publish? || a.CompleteError? || a.DropOwn? || a.DropTemp?
    ensures ArchiveKept(s, Do(c, s, a), a, n)
  {
    hide DoProgress, DoComplete, DoFail;
    hide DoCreate, DoRemove, DoClaim, DoRetire, DoForget, DoAcknowledge, FirstClaimable, FirstExhausted, Listable, Stale;
  }

  lemma WriteKeepsArchive(c: Config, s: State, a: Action, n: FileName)
    requires Can(c, s, a) && n.Zip? && InPhase(s, n.attempt, Halted) && (a.Progress? || a.Complete? || a.Fail?)
    ensures ArchiveKept(s, Do(c, s, a), a, n)
  {
    hide DoCreate, DoRemove, DoClaim, DoRetire, DoForget, DoAcknowledge, DoBegin, DoWrite, DoHash, DoPublish, DoDrop;
    hide FirstClaimable, FirstExhausted, Listable, Stale;
  }

  lemma TableKeepsArchive(c: Config, s: State, a: Action, n: FileName)
    requires Can(c, s, a) && n.Zip? && InPhase(s, n.attempt, Halted)
    requires a.Tick? || a.Create? || a.Remove? || a.Claim? || a.FailExhausted? || a.Acknowledge?
    ensures ArchiveKept(s, Do(c, s, a), a, n)
  {
    hide FirstClaimable, FirstExhausted, Listable, Stale, CreateDecision;
  }

  lemma CleanupKeepsArchive(c: Config, s: State, a: Action, n: FileName)
    requires Can(c, s, a) && n.Zip? && InPhase(s, n.attempt, Halted)
    requires a.CleanupStart? || a.CleanupList? || a.CleanupRetire? || a.CleanupUnlink? || a.CleanupForget? || a.CleanupSnapshot?
             || a.CleanupStat? || a.CleanupDelete?
    ensures ArchiveKept(s, Do(c, s, a), a, n)
  {
    hide FirstClaimable, FirstExhausted, Listable, Stale, Snapshot;
  }

  lemma ActionKeepsArchive(c: Config, s: State, a: Action, n: FileName)
    requires Can(c, s, a) && n.Zip? && InPhase(s, n.attempt, Halted)
    ensures ArchiveKept(s, Do(c, s, a), a, n)
  {
    hide Do, Can, ArchiveKept;
    if a.Tick? || a.Create? || a.Remove? || a.Claim? || a.FailExhausted? || a.Acknowledge? {
      TableKeepsArchive(c, s, a, n);
    } else if a.CleanupStart? || a.CleanupList? || a.CleanupRetire? || a.CleanupUnlink? || a.CleanupForget? || a.CleanupSnapshot?
              || a.CleanupStat? || a.CleanupDelete? {
      CleanupKeepsArchive(c, s, a, n);
    } else if a.Progress? || a.Complete? || a.Fail? {
      WriteKeepsArchive(c, s, a, n);
    } else {
      WorkerKeepsArchive(c, s, a, n);
    }
  }

  // ---------------------------------------------------------------- what a checked download holds

  /** The archive it names is a completed attempt's and, while it is there, has the recorded
      size and digest. */
  ghost predicate HeldOk(s: State, h: Held) {
    h.name.Zip? && InPhase(s, h.name.attempt, Halted) && h.size == |h.sha|
    && (h.name in s.files ==> s.files[h.name].content == h.sha)
  }

  predicate StepUnlinks(x: Service, step: Step, n: FileName) { step.Protocol? && Unlinks(x.base, step.a, n) }

  /** What one step of the service does to a held archive. */
  ghost predicate HeldKept(x: Service, y: Service, step: Step, h: Held) {
    HeldOk(y.base, h) && (h.name in y.base.files ==> h.name in x.base.files)
    && (h.name in x.base.files ==> (h.name !in y.base.files <==> StepUnlinks(x, step, h.name)))
  }

  lemma StepKeepsHeld(c: Config, x: Service, step: Step, h: Held)
    requires CanStep(c, x, step) && HeldOk(x.base, h)
    ensures HeldKept(x, DoStep(c, x, step), step, h)
  {
    hide Do, Can, Timely, Unlinks;
    match step {
      case Protocol(a, poller) =>
        ActionKeepsArchive(c, x.base, a, h.name);
      case Confirm(k) => AcknowledgeKeepsHeld(x.base, x.callers[k].job, x.callers[k].status, h);
      case _ =>
    }
  }

  lemma AcknowledgeKeepsHeld(s: State, id: JobId, status: Status, h: Held)
    requires HeldOk(s, h)
    ensures HeldOk(DoAcknowledge(s, id, status), h) && DoAcknowledge(s, id, status).files == s.files
  {
  }

  lemma CheckHolds(c: Config, s: State, user: nat, id: JobId)
    requires Inv(c, s) && Servable(s, user, id)
    ensures var j := s.jobs[id];
            var h := Held(j.artifact.value, j.size.value, j.sha.value);
            HeldOk(s, h) && h.name in s.files
  {
    assert RowShape(s.jobs[id]) && RowHistory(id, s.jobs[id], s.outcomes);
    WinnerHalted(c, s, id);
  }

  /** The step that checks download `d`, and no opening of it before state `j`. */
  ghost predicate Downloading(states: seq<Service>, steps: seq<Step>, i: nat, j: nat, d: nat)
    requires |states| == |steps| + 1
  {
    i < j < |states| && steps[i].CheckDownload? && steps[i].d == d && d in states[i + 1].downloads
    && forall k :: i < k < j ==> !(steps[k].OpenFile? && steps[k].d == d)
  }

  lemma StepKeepsDownload(c: Config, x: Service, step: Step, d: nat)
    requires CanStep(c, x, step) && d in x.downloads && !(step.OpenFile? && step.d == d)
    ensures d in DoStep(c, x, step).downloads && DoStep(c, x, step).downloads[d] == x.downloads[d]
  {
    hide Do, Can, Timely;
  }

  ghost predicate UnlinkedBetween(states: seq<Service>, steps: seq<Step>, i: nat, j: nat, n: FileName)
    requires |states| == |steps| + 1 && j < |states|
  {
    exists k :: i < k < j && StepUnlinks(states[k], steps[k], n)
  }

  lemma {:induction false} HeldUntilOpened(c: Config, states: seq<Service>, steps: seq<Step>, i: nat, j: nat, d: nat)
    requires ValidConfig(c) && ServiceRun(c, states, steps) && Downloading(states, steps, i, j, d)
    ensures d in states[j].downloads && states[j].downloads[d] == states[i + 1].downloads[d]
    ensures var h := states[i + 1].downloads[d];
            HeldOk(states[j].base, h) && (h.name !in states[j].base.files <==> UnlinkedBetween(states, steps, i, j, h.name))
    decreases j
  {
    hide Do, Can, Inv, Timely, HeldOk, StepUnlinks;
    if j == i + 1 {
      RunKeepsBase(c, states, steps, i);
      CheckHolds(c, states[i].base, steps[i].user, steps[i].id);
    } else {
      assert Downloading(states, steps, i, j - 1, d);
      HeldUntilOpened(c, states, steps, i, j - 1, d);
      var h := states[i + 1].downloads[d];
      StepKeepsDownload(c, states[j - 1], steps[j - 1], d);
      StepKeepsHeld(c, states[j - 1], steps[j - 1], h);
      BetweenStep(states, steps, i, j, h.name);
      NoUnlinkOfNothing(states[j - 1], steps[j - 1], h.name);
    }
  }

  lemma BetweenStep(states: seq<Service>, steps: seq<Step>, i: nat, j: nat, n: FileName)
    requires |states| == |steps| + 1 && i + 1 < j < |states|
    ensures UnlinkedBetween(states, steps, i, j, n)
            <==> UnlinkedBetween(states, steps, i, j - 1, n) || StepUnlinks(states[j - 1], steps[j - 1], n)
  {
  }

  lemma NoUnlinkOfNothing(x: Service, step: Step, n: FileName)
    ensures n !in x.base.files ==> !StepUnlinks(x, step, n)
  {
  }

  /** The check lets a download through if and only if the user owns the job and is authorized, and
      the job is READY and has not expired; then it holds what the row records. */
  lemma CheckPassesIff(c: Config, x: Service, d: nat, user: nat, id: JobId, authorized: bool)
    requires Inv(c, x.base) && d !in x.downloads
    ensures var y := DoStep(c, x, CheckDownload(d, user, id, authorized));
            (d in y.downloads <==>
               authorized && id in x.base.jobs && x.base.jobs[id].user == user && x.base.jobs[id].status == Ready
               && x.base.jobs[id].expiresAt.Some? && x.base.clock < x.base.jobs[id].expiresAt.value)
            && (d in y.downloads ==>
                  x.base.jobs[id].artifact == Some(y.downloads[d].name) && x.base.jobs[id].size == Some(y.downloads[d].size)
                  && x.base.jobs[id].sha == Some(y.downloads[d].sha))
  {
    if id in x.base.jobs {
      assert RowShape(x.base.jobs[id]);
    }
  }

  /** A checked download, of an unexpired READY job of the asking user, opens with exactly the
      content the row recorded, or it is unavailable, and that if and only if between check and
      open the archive was unlinked by a removal of the job or a cleanup pass. */
  lemma DownloadServedIff(c: Config, states: seq<Service>, steps: seq<Step>, i: nat, j: nat, d: nat)
    requires ValidConfig(c) && ServiceRun(c, states, steps) && Downloading(states, steps, i, j, d)
    ensures d in states[j].downloads
    ensures var h := states[j].downloads[d];
            var row := states[i].base.jobs[steps[i].id];
            steps[i].id in states[i].base.jobs && row.user == steps[i].user && steps[i].authorized && row.status == Ready
            && row.expiresAt.Some? && states[i].base.clock < row.expiresAt.value
            && row.artifact == Some(h.name) && row.size == Some(h.size) && row.sha == Some(h.sha)
            && (Open(states[j].base, h).Unavailable? <==> UnlinkedBetween(states, steps, i, j, h.name))
            && (Open(states[j].base, h).Opened? ==> Open(states[j].base, h).content == h.sha)
  {
    hide Do, Can, Inv, Timely, StepUnlinks, DoStep, CanStep;
    HeldUntilOpened(c, states, steps, i, j, d);
    RunKeepsBase(c, states, steps, i);
    assert d !in states[i].downloads by { CheckOfNew(c, states[i], steps[i]); }
    CheckPassesIff(c, states[i], d, steps[i].user, steps[i].id, steps[i].authorized);
  }

  lemma CheckOfNew(c: Config, x: Service, step: Step)
    requires CanStep(c, x, step) && step.CheckDownload?
    ensures step.d !in x.downloads
  {
  }

  lemma CheckRead(c: Config, x: Service, step: Step, d: nat)
    requires CanStep(c, x, step) && step.CheckDownload? && step.d == d && d in DoStep(c, x, step).downloads
    ensures Servable(x.base, step.user, step.id)
    ensures var j := x.base.jobs[step.id]; DoStep(c, x, step).downloads[d] == Held(j.artifact.value, j.size.value, j.sha.value)
  {
  }

  lemma ReadyOnDisk(c: Config, s: State, id: JobId)
    requires Inv(c, s) && id in s.jobs && s.jobs[id].status.Ready?
    ensures s.jobs[id].artifact.Some? && s.jobs[id].artifact.value in s.files
  {
  }

  lemma HeldOpens(s: State, h: Held)
    requires HeldOk(s, h) && h.name in s.files
    ensures Open(s, h) == Opened(h.sha)
  {
  }

  /** As long as the row is READY when the file is opened, the download is served. */
  lemma ReadyDownloadServed(c: Config, states: seq<Service>, steps: seq<Step>, i: nat, j: nat, d: nat)
    requires ValidConfig(c) && ServiceRun(c, states, steps) && Downloading(states, steps, i, j, d)
    requires steps[i].id in states[j].base.jobs && states[j].base.jobs[steps[i].id].status.Ready?
    ensures d in states[j].downloads
    ensures Open(states[j].base, states[j].downloads[d]) == Opened(states[j].downloads[d].sha)
  {
    hide Do, Can, Timely, Inv, HeldOk, Open, UnlinkedBetween, StepUnlinks, DoStep, CanStep;
    HeldUntilOpened(c, states, steps, i, j, d);
    RunKeepsBase(c, states, steps, j);
    CheckRead(c, states[i], steps[i], d);
    SameWinner(c, states, steps, i, j, steps[i].id);
    ReadyOnDisk(c, states[j].base, steps[i].id);
    HeldOpens(states[j].base, states[j].downloads[d]);
  }

  lemma {:induction false} OutcomeStays(c: Config, states: seq<Service>, steps: seq<Step>, i: nat, j: nat, id: JobId)
    requires ValidConfig(c) && ServiceRun(c, states, steps) && i <= j < |states| && id in states[i].base.outcomes
    ensures id in states[j].base.outcomes && states[j].base.outcomes[id] == states[i].base.outcomes[id]
    decreases j - i
  {
    hide DoStep, CanStep, Inv;
    if i < j {
      OutcomeStays(c, states, steps, i, j - 1, id);
      RunKeepsBase(c, states, steps, j - 1);
      StepKeepsBase(c, states[j - 1], steps[j - 1]);
    }
  }

  lemma SameWinner(c: Config, states: seq<Service>, steps: seq<Step>, i: nat, j: nat, id: JobId)
    requires ValidConfig(c) && ServiceRun(c, states, steps) && i <= j < |states|
    requires id in states[i].base.jobs && states[i].base.jobs[id].status.Ready?
    requires id in states[j].base.jobs && states[j].base.jobs[id].status.Ready?
    ensures states[i].base.jobs[id].artifact == states[j].base.jobs[id].artifact
  {
    hide DoStep, CanStep;
    RunKeepsBase(c, states, steps, i);
    RunKeepsBase(c, states, steps, j);
    assert RowShape(states[i].base.jobs[id]) && RowHistory(id, states[i].base.jobs[id], states[i].base.outcomes);
    assert RowShape(states[j].base.jobs[id]) && RowHistory(id, states[j].base.jobs[id], states[j].base.outcomes);
    OutcomeStays(c, states, steps, i, j, id);
  }

  // ---------------------------------------------------------------- losing the race

  ghost predicate ServiceReaches(c: Config, x: Service) {
    exists states: seq<Service>, steps: seq<Step> :: ServiceRun(c, states, steps) && states[|steps|] == x
  }

  lemma ServiceNext(c: Config, x: Service, step: Step)
    requires ServiceReaches(c, x) && CanStep(c, x, step)
    ensures ServiceReaches(c, DoStep(c, x, step))
  {
    hide DoStep, CanStep;
    var states: seq<Service>, steps: seq<Step> :| ServiceRun(c, states, steps) && states[|steps|] == x;
    var longer := states + [DoStep(c, x, step)];
    assert ServiceRun(c, longer, steps + [step]);
    assert longer[|steps + [step]|] == DoStep(c, x, step);
  }

  function Plain(s: State): Service { Service(s, map[], {}, map[]) }

  lemma QuietIsPlain(c: Config, s: State, a: Action)
    requires Can(c, s, a) && Quiet(a)
    ensures CanStep(c, Plain(s), Protocol(a, 0)) && DoStep(c, Plain(s), Protocol(a, 0)) == Plain(Do(c, s, a))
  {
    hide Do, Can;
  }

  /** A quiet run of the protocol is a run of the service. */
  lemma QuietReaches(c: Config, s: State)
    requires Reachable(c, s, true)
    ensures ServiceReaches(c, Plain(s))
  {
    hide Do, Can, CanStep, DoStep;
    var states: seq<State>, actions: seq<Action> :| RunOf(c, true, states, actions) && states[|actions|] == s;
    var xs := seq(|states|, i requires 0 <= i < |states| => Plain(states[i]));
    var steps := seq(|actions|, i requires 0 <= i < |actions| => Protocol(actions[i], 0));
    forall i | 0 <= i < |steps| ensures CanStep(c, xs[i], steps[i]) && xs[i + 1] == DoStep(c, xs[i], steps[i]) {
      QuietIsPlain(c, states[i], actions[i]);
    }
    assert ServiceRun(c, xs, steps) && xs[|steps|] == Plain(s);
  }

  /** For every configuration a run exists in which the checked archive is removed before it is
      opened, so that the download is unavailable. */
  lemma LostDownloadReachable(c: Config)
    requires ValidConfig(c)
    ensures exists x: Service, d: nat :: ServiceReaches(c, x) && d in x.downloads && Open(x.base, x.downloads[d]).Unavailable?
  {
    hide ServiceReaches, Reachable, Do, DoStep, CanStep;
    var s := CreatedAndClaimed(c, true);
    s := Generated(c, s, true);
    s := PublishedAtZero(c, s, true);
    QuietReaches(c, s);
    var x := CompletedAndChecked(c, s);
    var y := RemovedUnopened(c, x);
    assert ServiceReaches(c, y) && 0 in y.downloads && Open(y.base, y.downloads[0]).Unavailable?;
  }

  lemma CompletedAndChecked(c: Config, s: State) returns (x: Service)
    requires ValidConfig(c) && ServiceReaches(c, Plain(s)) && s.clock == 0 && InPhase(s, 7, Published) && s.workers[7].job == 0
    requires HoldsLease(s.jobs, 0, 7) && s.workers[7].lastWrite == 0
    ensures ServiceReaches(c, x) && 0 in x.downloads && x.downloads[0].name == Zip(0, 7) && x.base.clock == 0
    ensures 0 in x.base.jobs && x.base.jobs[0].status.Ready? && x.base.jobs[0].artifact == Some(Zip(0, 7))
  {
    hide ServiceReaches;
    var step := Protocol(Complete(7, 0, true), 0);
    ServiceNext(c, Plain(s), step);
    var done := DoStep(c, Plain(s), step);
    ServiceNext(c, done, CheckDownload(0, done.base.jobs[0].user, 0, true));
    x := DoStep(c, done, CheckDownload(0, done.base.jobs[0].user, 0, true));
  }

  lemma RemovedUnopened(c: Config, x: Service) returns (y: Service)
    requires ServiceReaches(c, x) && 0 in x.downloads && x.downloads[0].name == Zip(0, 7) && x.base.clock == 0
    requires 0 in x.base.jobs && x.base.jobs[0].status.Ready? && x.base.jobs[0].artifact == Some(Zip(0, 7))
    ensures ServiceReaches(c, y) && 0 in y.downloads && Open(y.base, y.downloads[0]).Unavailable?
  {
    hide ServiceReaches;
    var step := Protocol(Remove(0, 0), 0);
    ServiceNext(c, x, step);
    y := DoStep(c, x, step);
  }
}
