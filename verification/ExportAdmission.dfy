/**
 What Create admits over every run with arbitrary replays, cancellations and removals: one
 active job per group, user and scope, one row per idempotency key, and at most
 `hourlyStarts` retained rows of one user and scope in any window of one hour.
 */
module ExportAdmission {
  import opened Collections
  import opened ExportJobs
  import opened ExportMachine
  import opened ExportInvariant
  import opened ExportSafety
  import opened ExportHistory

  predicate SameRequester(i: Job, j: Job) { SameActor(i, j.group, j.user, j.scope) }

  ghost predicate OneActive(jobs: Table) {
    forall i <- jobs.Keys, j <- jobs.Keys ::
      SameRequester(jobs[i], jobs[j]) && Active(jobs[i]) && Active(jobs[j]) ==> i == j
  }

  ghost predicate OnePerKey(jobs: Table) {
    forall i <- jobs.Keys, j <- jobs.Keys ::
      SameRequester(jobs[i], jobs[j]) && jobs[i].key == jobs[j].key ==> i == j
  }

  ghost predicate HourlyBound(c: Config, jobs: Table) {
    forall user: nat, scope: Scope, to: int :: |StartsInHourTo(jobs, user, scope, to)| <= c.hourlyStarts
  }

  ghost predicate Admitted(c: Config, jobs: Table) {
    OneActive(jobs) && OnePerKey(jobs) && HourlyBound(c, jobs)
  }

  /** Steps that add no row keep the bounds: request columns are immutable, nothing re-activates. */
  lemma MovesKeepAdmitted(c: Config, s: State, s': State)
    requires Admitted(c, s.jobs) && TableMoves(s, s') && s'.jobs.Keys <= s.jobs.Keys
    ensures Admitted(c, s'.jobs)
  {
    forall user: nat, scope: Scope, to: int
      ensures |StartsInHourTo(s'.jobs, user, scope, to)| <= c.hourlyStarts
    {
      SubsetSize(StartsInHourTo(s'.jobs, user, scope, to), StartsInHourTo(s.jobs, user, scope, to));
    }
  }

  /** What an accepted Create checked, seen from the table it read. */
  ghost predicate Admissible(c: Config, jobs: Table, j: Job) {
    WithKey(jobs, j.group, j.user, j.scope, j.key) == {} && ActiveJobs(jobs, j.group, j.user, j.scope) == {}
    && |StartsSince(jobs, j.user, j.scope, j.requestedAt - HOUR)| < c.hourlyStarts
  }

  /** The transaction may use a clock reading older than rows committed since: counting every
      later start as well is what makes the bound hold for windows ending after it. */
  lemma CreateKeepsAdmitted(c: Config, jobs: Table, id: JobId, j: Job)
    requires Admitted(c, jobs) && id !in jobs && Admissible(c, jobs, j)
    ensures Admitted(c, jobs[id := j])
  {
    var after := jobs[id := j];
    CreateKeepsHourly(c, jobs, id, j);
    forall k <- jobs.Keys | SameRequester(jobs[k], j) ensures jobs[k].key != j.key && !Active(jobs[k]) {
      assert k !in WithKey(jobs, j.group, j.user, j.scope, j.key) && k !in ActiveJobs(jobs, j.group, j.user, j.scope);
    }
  }

  lemma CreateKeepsHourly(c: Config, jobs: Table, id: JobId, j: Job)
    requires HourlyBound(c, jobs) && id !in jobs && Admissible(c, jobs, j)
    ensures HourlyBound(c, jobs[id := j])
  {
    var after := jobs[id := j];
    forall user: nat, scope: Scope, to: int
      ensures |StartsInHourTo(after, user, scope, to)| <= c.hourlyStarts
    {
      var before := StartsInHourTo(jobs, user, scope, to);
      var now := StartsInHourTo(after, user, scope, to);
      if id in now {
        assert now <= before + {id};
        SubsetSize(before, StartsSince(jobs, j.user, j.scope, j.requestedAt - HOUR));
        SubsetSize(now, before + {id});
      } else {
        SubsetSize(now, before);
      }
    }
  }

  lemma StepKeepsAdmitted(c: Config, s: State, a: Action)
    requires Inv(c, s) && Can(c, s, a) && Rows(Do(c, s, a)) && Admitted(c, s.jobs)
    ensures Admitted(c, Do(c, s, a).jobs)
  {
    if a.Create? {
      if DoCreate(c, s, a) != s {
        CreateKeepsAdmitted(c, s.jobs, a.id, QueuedRow(a.group, a.user, a.scope, a.key, a.total, a.at));
      }
    } else {
      StepMoves(c, s, a);
      MovesKeepAdmitted(c, s, Do(c, s, a));
    }
  }

  lemma EmptyAdmitted(c: Config)
    requires ValidConfig(c)
    ensures Admitted(c, map[])
  {
    forall user: nat, scope: Scope, to: int ensures |StartsInHourTo(map[], user, scope, to)| == 0 {
      assert StartsInHourTo(map[], user, scope, to) == {};
    }
  }

  lemma {:induction false} RunAdmitted(c: Config, states: seq<State>, actions: seq<Action>, i: nat)
    requires ValidConfig(c) && Run(c, states, actions) && i < |states|
    ensures Admitted(c, states[i].jobs)
  {
    hide Do, Admitted;
    if i == 0 {
      EmptyAdmitted(c);
    } else {
      RunAdmitted(c, states, actions, i - 1);
      RunSafe(c, states, actions, i - 1);
      RunSafe(c, states, actions, i);
      StepKeepsAdmitted(c, states[i - 1], actions[i - 1]);
    }
  }

  /** The answer Create gives in a reachable state, completely: the key decides a replay, an
      active job a conflict, the hourly count a refusal, and the fingerprint is never reused,
      because it hashes only columns the key lookup already matched. */
  lemma CreateAnswers(c: Config, s: State, id: JobId, group: nat, user: nat, scope: Scope, key: nat, at: int)
    requires Inv(c, s) && Admitted(c, s.jobs) && id !in s.usedIds
    ensures var r := CreateDecision(c, s.jobs, id, group, user, scope, key, at);
            var keyed := KeyHolders(s.jobs, group, user, scope, key);
            var busy := HasActive(s.jobs, group, user, scope);
            var recent := RecentStarts(s.jobs, user, scope, at);
            !r.IdempotencyReuse?
            && (r.Replayed? <==> keyed != {}) && (r.Replayed? ==> keyed == {r.id})
            && (r.Conflict? <==> keyed == {} && busy)
            && (r.RateLimited? <==> keyed == {} && !busy && c.hourlyStarts <= recent)
            && (r.Created? <==> keyed == {} && !busy && recent < c.hourlyStarts) && (r.Created? ==> r.id == id)
  {
    var keyed := WithKey(s.jobs, group, user, scope, key);
    CreateColumns(s.jobs, group, user, scope, key, at);
    hide KeyHolders, HasActive, RecentStarts;
    forall i <- keyed, j <- keyed ensures i == j && s.jobs[i].hash == Fingerprint(group, user, scope) {
      assert RowShape(s.jobs[i]);
    }
    if keyed != {} {
      var e :| e in keyed;
      assert keyed == {e};
    }
  }

  /** While a job's row is retained, repeating its request at any later time answers that job
      and changes nothing. */
  lemma ReplayAnswersOriginal(c: Config, states: seq<State>, actions: seq<Action>, i: nat, j: nat, id: JobId, a: Action)
    requires ValidConfig(c) && Run(c, states, actions) && i <= j < |states|
    requires id in states[i].jobs && id in states[j].jobs
    requires a.Create? && a.id !in states[j].usedIds
    requires SameActor(states[i].jobs[id], a.group, a.user, a.scope) && states[i].jobs[id].key == a.key
    ensures CreateDecision(c, states[j].jobs, a.id, a.group, a.user, a.scope, a.key, a.at) == Replayed(id)
    ensures DoCreate(c, states[j], a) == states[j]
  {
    RunChain(c, states, actions);
    ChainMoves(states, i, j, id);
    RunSafe(c, states, actions, j);
    RunAdmitted(c, states, actions, j);
    CreateAnswers(c, states[j], a.id, a.group, a.user, a.scope, a.key, a.at);
    assert id in WithKey(states[j].jobs, a.group, a.user, a.scope, a.key);
  }

  /** What a request does to the service: accepted it adds exactly its own row, queued with all
      attempts; replayed or refused it changes nothing. */
  lemma CreateEffect(c: Config, s: State, a: Action)
    requires Inv(c, s) && Admitted(c, s.jobs) && a.Create? && Can(c, s, a)
    ensures var s' := Do(c, s, a);
            var accepted := KeyHolders(s.jobs, a.group, a.user, a.scope, a.key) == {} && !HasActive(s.jobs, a.group, a.user, a.scope)
                            && RecentStarts(s.jobs, a.user, a.scope, a.at) < c.hourlyStarts;
            s'.files == s.files && s'.workers == s.workers
            && (if accepted
                then s'.jobs.Keys == s.jobs.Keys + {a.id} && (forall k <- s.jobs.Keys :: s'.jobs[k] == s.jobs[k])
                     && s'.jobs[a.id].status == Queued && s'.jobs[a.id].attempts == 0 && s'.jobs[a.id].requestedAt == a.at
                     && s'.jobs[a.id].group == a.group && s'.jobs[a.id].user == a.user && s'.jobs[a.id].scope == a.scope
                     && s'.jobs[a.id].key == a.key && s'.jobs[a.id].total == a.total
                else s' == s)
  {
    hide Inv, Admitted, KeyHolders, HasActive, RecentStarts, CreateDecision;
    assert a.id !in s.usedIds && a.id !in s.jobs by { FreshRow(c, s, a.id); }
    CreateAnswers(c, s, a.id, a.group, a.user, a.scope, a.key, a.at);
  }

  lemma FreshRow(c: Config, s: State, id: JobId)
    requires Inv(c, s)
    ensures id !in s.usedIds ==> id !in s.jobs
  {
  }
}
