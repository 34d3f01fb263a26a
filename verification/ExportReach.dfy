/**
 Reachable states of the export protocol without its timing assumption, and the shortest run
 that publishes an archive.
 */
module ExportReach {
  import opened ExportJobs
  import opened ExportMachine

  /** Nobody finishes, fails or acknowledges a job. */
  predicate Quiet(a: Action) { !(a.Complete? || a.Fail? || a.FailExhausted? || a.Acknowledge?) }

  ghost predicate Allowed(c: Config, s: State, a: Action, quiet: bool) { Can(c, s, a) && (quiet ==> Quiet(a)) }

  /** A run without the timing assumption; optionally of quiet steps only, which need none. */
  ghost predicate RunOf(c: Config, quiet: bool, states: seq<State>, actions: seq<Action>) {
    |states| == |actions| + 1 && Init(states[0])
    && forall i :: 0 <= i < |actions| ==>
         Allowed(c, states[i], actions[i], quiet) && states[i + 1] == Do(c, states[i], actions[i])
  }

  ghost predicate Reachable(c: Config, s: State, quiet: bool) {
    exists states: seq<State>, actions: seq<Action> :: RunOf(c, quiet, states, actions) && states[|actions|] == s
  }

  lemma ReachableStep(c: Config, s: State, a: Action, quiet: bool)
    requires Reachable(c, s, quiet) && Allowed(c, s, a, quiet)
    ensures Reachable(c, Do(c, s, a), quiet)
  {
    hide Do, Can;
    var states: seq<State>, actions: seq<Action> :| RunOf(c, quiet, states, actions) && states[|actions|] == s;
    var longer := states + [Do(c, s, a)];
    assert RunOf(c, quiet, longer, actions + [a]);
    assert longer[|actions + [a]|] == Do(c, s, a);
  }

  // The shortest run: one job with one dataset, claimed and published at time zero.

  function FirstRow(): Job { QueuedRow(0, 0, Group, 0, 1, 0) }

  function Only(clock: int, j: Job, files: map<FileName, File>, workers: map<Token, Worker>): State {
    State(clock, map[0 := j], files, workers, map[], {0}, map[])
  }

  lemma CreatedAndClaimed(c: Config, quiet: bool) returns (s: State)
    requires ValidConfig(c)
    ensures s == Only(0, ClaimedRow(FirstRow(), 7, 0, c.lease), map[], map[7 := Worker(0, 1, Claimed, 0, 0, 0, [])])
    ensures Reachable(c, s, quiet)
  {
    var s0 := State(0, map[], map[], map[], map[], {}, map[]);
    var none: seq<Action> := [];
    assert RunOf(c, quiet, [s0], none) && [s0][|none|] == s0;
    var s1 := Only(0, FirstRow(), map[], map[]);
    FirstCreate(c, s0);
    ReachableStep(c, s0, Action.Create(0, 0, 0, Group, 0, 1, 0), quiet);
    s := Only(0, ClaimedRow(FirstRow(), 7, 0, c.lease), map[], map[7 := Worker(0, 1, Claimed, 0, 0, 0, [])]);
    FirstClaim(c, s1, s, quiet);
  }

  lemma FirstCreate(c: Config, s0: State)
    requires ValidConfig(c) && s0 == State(0, map[], map[], map[], map[], {}, map[])
    ensures Do(c, s0, Action.Create(0, 0, 0, Group, 0, 1, 0)) == Only(0, FirstRow(), map[], map[])
  {
    assert WithKey(map[], 0, 0, Group, 0) == {} && ActiveJobs(map[], 0, 0, Group) == {};
    assert StartsSince(map[], 0, Group, 0 - HOUR) == {};
  }

  lemma FirstClaim(c: Config, s1: State, s2: State, quiet: bool)
    requires Reachable(c, s1, quiet) && s1 == Only(0, FirstRow(), map[], map[])
    requires s2 == Only(0, ClaimedRow(FirstRow(), 7, 0, c.lease), map[], map[7 := Worker(0, 1, Claimed, 0, 0, 0, [])])
    ensures Reachable(c, s2, quiet)
  {
    hide Reachable;
    ReachableStep(c, s1, Claim(0, 7, 0, true), quiet);
    assert map[0 := FirstRow()][0 := s2.jobs[0]] == s2.jobs;
  }

  lemma Generated(c: Config, s: State, quiet: bool) returns (s': State)
    requires ValidConfig(c) && Reachable(c, s, quiet)
    requires s == Only(0, ClaimedRow(FirstRow(), 7, 0, c.lease), map[], map[7 := Worker(0, 1, Claimed, 0, 0, 0, [])])
    ensures Reachable(c, s', quiet) && s'.clock == 0 && s'.cleaners == map[] && InPhase(s', 7, Generating)
    ensures s'.workers[7] == Worker(0, 1, Generating, 0, 0, 1, []) && s'.files == map[Temp(7) := File([], 0)]
    ensures s'.jobs.Keys == {0} && HoldsLease(s'.jobs, 0, 7)
  {
    hide Reachable;
    var s1 := DoBegin(s, 7, 0);
    ReachableStep(c, s, Begin(7, 0), quiet);
    s' := DoProgress(c, s1, 7, 0);
    ReachableStep(c, s1, Progress(7, 0), quiet);
  }

  lemma PublishedAtZero(c: Config, s: State, quiet: bool) returns (s': State)
    requires ValidConfig(c) && Reachable(c, s, quiet) && s.clock == 0 && s.cleaners == map[] && 7 in s.workers
    requires s.workers[7] == Worker(0, 1, Generating, 0, 0, 1, []) && s.files == map[Temp(7) := File([], 0)]
    ensures Reachable(c, s', quiet) && s'.clock == 0 && s'.cleaners == map[] && s'.jobs == s.jobs && InPhase(s', 7, Published)
    ensures s'.workers[7].job == 0 && s'.workers[7].lastWrite == 0 && Zip(0, 7) in s'.files && s'.files[Zip(0, 7)].mtime == 0
  {
    hide Reachable;
    var s1 := WithPhase(s, 7, Sealed);
    ReachableStep(c, s, Seal(7), quiet);
    var s2 := DoHash(s1, 7);
    ReachableStep(c, s1, Hash(7), quiet);
    s' := DoPublish(s2, 7);
    ReachableStep(c, s2, Publish(7), quiet);
  }

  lemma Waited(c: Config, s: State, quiet: bool) returns (s': State)
    requires ValidConfig(c) && Reachable(c, s, quiet)
    ensures Reachable(c, s', quiet) && s' == DoTick(s, c.lease + 1)
  {
    hide Reachable;
    s' := DoTick(s, c.lease + 1);
    ReachableStep(c, s, Tick(c.lease + 1), quiet);
  }
}
