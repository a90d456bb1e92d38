/** The worker's job functions over the table, each a legal run of the job protocol. */
module BackgroundJobTable {
  import opened BackgroundJobs

  /** What `ORDER BY ... LIMIT limit` may pick among the eligible rows: as many as allowed, none later than a row left out. */
  ghost predicate Selects(jobs: map<Id, Job>, eligible: set<Id>, order: Job -> int, limit: nat, picked: set<Id>) {
    && picked <= eligible <= jobs.Keys
    && |picked| == (if |eligible| < limit then |eligible| else limit)
    && forall p, e :: p in picked && e in eligible - picked ==> order(jobs[p]) <= order(jobs[e])
  }

  function RunAtOf(j: Job): int { j.nextRunAt }

  function UpdatedAtOf(j: Job): int { j.updatedAt }

  ghost function DueIds(jobs: map<Id, Job>, now: int): set<Id> {
    set id | id in jobs && Due(jobs[id], now)
  }

  ghost function DueOf(jobs: map<Id, Job>, key: Key, now: int): set<Id> {
    set id | id in jobs && jobs[id].key == key && Due(jobs[id], now)
  }

  /** Stale rows whose next attempt would be the last (`final`) or would not. */
  ghost function StaleIds(jobs: map<Id, Job>, now: int, final: bool): set<Id> {
    set id | id in jobs && Stale(jobs[id], now) && (jobs[id].attempts + 1 >= MAX_ATTEMPTS <==> final)
  }

  /** One more step at the end of a run. */
  lemma Advance(w: World, steps: seq<Step>, s: Step)
    requires Sound(w) && IsRun(w, steps) && Enabled(After(w, steps), s)
    ensures IsRun(w, steps + [s]) && After(w, steps + [s]) == Next(After(w, steps), s)
    ensures Sound(Next(After(w, steps), s))
  {
    RunsAreSound(w, steps);
    AppendStep(w, steps, s);
    RunsAreSound(w, steps + [s]);
  }

  function Claimed(j: Job, now: int): Job {
    j.(status := Running, updatedAt := now)
  }

  /** The table with the rows in `ids` claimed. */
  function ClaimedRows(jobs: map<Id, Job>, ids: set<Id>, now: int): map<Id, Job> {
    map id | id in jobs :: if id in ids then Claimed(jobs[id], now) else jobs[id]
  }

  lemma ClaimOneMore(jobs: map<Id, Job>, ids: set<Id>, id: Id, now: int)
    requires id in jobs && id !in ids
    ensures ClaimedRows(jobs, ids, now).Keys == jobs.Keys && ClaimedRows(jobs, ids, now)[id] == jobs[id]
    ensures ClaimedRows(jobs, ids, now)[id := Claimed(jobs[id], now)] == ClaimedRows(jobs, ids + {id}, now)
  {
  }

  lemma ClaimKeepsAttempts(jobs: map<Id, Job>, ids: set<Id>, now: int)
    ensures ClaimedRows(jobs, ids, now).Keys == jobs.Keys
    ensures forall id :: id in jobs ==> ClaimedRows(jobs, ids, now)[id].attempts == jobs[id].attempts
  {
  }

  lemma ClaimNone(jobs: map<Id, Job>, now: int)
    ensures ClaimedRows(jobs, {}, now) == jobs
  {
  }

  lemma FinishNone(jobs: map<Id, Job>, failing: set<Id>, now: int)
    ensures FinishedRows(jobs, {}, failing, now) == jobs
  {
  }

  /** The table with the claimed rows in `ids` run to their end. */
  function FinishedRows(jobs: map<Id, Job>, ids: set<Id>, failing: set<Id>, now: int): map<Id, Job> {
    map id | id in jobs ::
      if id in ids then AfterRun(jobs[id], Run(id, jobs[id].attempts), id !in failing, now) else jobs[id]
  }

  lemma FinishOneMore(jobs: map<Id, Job>, ids: set<Id>, failing: set<Id>, id: Id, now: int)
    requires id in jobs && id !in ids
    ensures id in FinishedRows(jobs, ids, failing, now) && FinishedRows(jobs, ids, failing, now)[id] == jobs[id]
    ensures FinishedRows(jobs, ids, failing, now)[id := AfterRun(jobs[id], Run(id, jobs[id].attempts), id !in failing, now)]
            == FinishedRows(jobs, ids + {id}, failing, now)
  {
  }

  /** Each row of `ids` is held by its run, which remembers the row's attempts. */
  ghost predicate HoldsAll(live: map<nat, Run>, runs: map<Id, nat>, ids: set<Id>, jobs: map<Id, Job>) {
    && ids <= runs.Keys && ids <= jobs.Keys
    && forall id :: id in ids ==> runs[id] in live && live[runs[id]] == Run(id, jobs[id].attempts)
  }

  lemma ReleaseOne(live: map<nat, Run>, runs: map<Id, nat>, ids: set<Id>, jobs: map<Id, Job>, id: Id)
    requires HoldsAll(live, runs, ids, jobs) && id in ids
    ensures id in runs && id in jobs && runs[id] in live && live[runs[id]] == Run(id, jobs[id].attempts)
    ensures HoldsAll(live - {runs[id]}, runs, ids - {id}, jobs)
  {
  }

  datatype ReclaimReport = ReclaimReport(requeued: nat, failed: nat)

  class JobTable {
    var jobs: map<Id, Job>
    ghost var world: World
    ghost var nextRun: nat

    ghost predicate Valid()
      reads this
    {
      && world.jobs == jobs
      && Sound(world)
      && (forall r :: r in world.runs ==> r < nextRun)
    }

    constructor ()
      ensures Valid() && world == EMPTY
    {
      jobs, world, nextRun := map[], EMPTY, 0;
    }

    /** The method took the world through these steps. */
    twostate predicate Took(steps: seq<Step>)
      reads this
    {
      IsRun(old(world), steps) && After(old(world), steps) == world
    }

    method SoftEnqueue(id: Id, key: Key, nextRunAt: int, now: int)
      requires Valid()
      modifies this
      ensures Valid() && Took([Enqueue(id, key, nextRunAt, now)])
      ensures id in old(jobs) || HasLive(jobs, key)
      ensures Unique(old(jobs)) ==> Unique(jobs)
    {
      var s := Enqueue(id, key, nextRunAt, now);
      AppendStep(world, [], s);
      StepKeepsHeldOnce(world, s);
      StepKeepsAccounted(world, s);
      if Unique(jobs) {
        StepKeepsUniqueIff(world, s);
      }
      if !HasLive(jobs, key) && id !in jobs {
        jobs := jobs[id := Job(key, Pending, 0, nextRunAt, now)];
        assert jobs[id].key == key && Live(jobs[id]);
      }
      world := Next(world, s);
    }

    method ClaimOne(id: Id, now: int, ghost w0: World, ghost steps0: seq<Step>)
      returns (ghost run: nat, ghost steps: seq<Step>)
      requires Valid() && id in jobs && Due(jobs[id], now)
      requires Sound(w0) && IsRun(w0, steps0) && After(w0, steps0) == world
      modifies this
      ensures Valid() && IsRun(w0, steps) && After(w0, steps) == world
      ensures jobs == old(jobs)[id := Claimed(old(jobs)[id], now)]
      ensures run !in old(world).runs && world.runs == old(world).runs[run := Run(id, old(jobs)[id].attempts)]
    {
      hide Sound;
      hide IsRun;
      hide After;
      run := nextRun;
      ghost var s := Claim(run, id, now);
      steps := steps0 + [s];
      Advance(w0, steps0, s);
      jobs := jobs[id := Claimed(jobs[id], now)];
      world, nextRun := Next(world, s), nextRun + 1;
    }

    /** One conditional UPDATE that marks the picked rows running and returns them. */
    method ClaimRows(picked: set<Id>, now: int) returns (ghost runs: map<Id, nat>, ghost steps: seq<Step>)
      requires Valid() && picked <= DueIds(jobs, now)
      modifies this
      ensures Valid() && Took(steps)
      ensures HoldsAll(world.runs, runs, picked, jobs)
      ensures jobs == ClaimedRows(old(jobs), picked, now)
    {
      hide Sound;
      hide IsRun;
      hide After;
      hide ClaimedRows;
      var todo := picked;
      runs, steps := map[], [];
      StartRun(world);
      ClaimNone(jobs, now);
      assert picked - todo == {};
      while todo != {}
        invariant todo <= picked
        invariant Valid() && IsRun(old(world), steps) && After(old(world), steps) == world
        invariant HoldsAll(world.runs, runs, picked - todo, old(jobs))
        invariant jobs == ClaimedRows(old(jobs), picked - todo, now)
        decreases todo
      {
        var id :| id in todo;
        ClaimOneMore(old(jobs), picked - todo, id, now);
        assert picked - (todo - {id}) == picked - todo + {id};
        todo := todo - {id};
        ghost var run;
        run, steps := ClaimOne(id, now, old(world), steps);
        runs := runs[id := run];
      }
      assert picked - todo == picked;
      ClaimKeepsAttempts(old(jobs), picked, now);
    }

    /** Writes the outcome of one claimed job and reports whether it succeeded. */
    method RunClaimed(id: Id, attempts: int, succeeded: bool, now: int, ghost run: nat,
                      ghost w0: World, ghost steps0: seq<Step>) returns (ok: bool, ghost steps: seq<Step>)
      requires Valid() && run in world.runs && world.runs[run] == Run(id, attempts)
      requires Sound(w0) && IsRun(w0, steps0) && After(w0, steps0) == world
      modifies this
      ensures Valid() && IsRun(w0, steps) && After(w0, steps) == world
      ensures id in old(jobs) && jobs == old(jobs)[id := AfterRun(old(jobs)[id], Run(id, attempts), succeeded, now)]
      ensures world.runs == old(world).runs - {run}
      ensures ok == succeeded
    {
      hide IsRun;
      hide After;
      hide AllAccounted;
      NonNegative(world, run);
      ghost var s := Finish(run, succeeded, now);
      Advance(w0, steps0, s);
      if succeeded {
        jobs := jobs[id := jobs[id].(status := Completed, updatedAt := now)];
      } else {
        var nextAttempts := attempts + 1;
        var status, nextRunAt := Failed, now;
        if nextAttempts < MAX_ATTEMPTS {
          status, nextRunAt := Pending, now + BackoffSecs(nextAttempts);
        }
        jobs := jobs[id := jobs[id].(status := status, attempts := nextAttempts,
                                     nextRunAt := nextRunAt, updatedAt := now)];
      }
      world, steps := Next(world, s), steps0 + [s];
      ok := succeeded;
    }

    /** Runs the claimed jobs one after the other and counts the successes. */
    method RunAll(claimedIds: set<Id>, failing: set<Id>, now: int, ghost runs: map<Id, nat>,
                  ghost w0: World, ghost steps0: seq<Step>) returns (processed: nat, ghost steps: seq<Step>)
      requires Valid() && HoldsAll(world.runs, runs, claimedIds, jobs)
      requires Sound(w0) && IsRun(w0, steps0) && After(w0, steps0) == world
      modifies this
      ensures Valid() && IsRun(w0, steps) && After(w0, steps) == world
      ensures processed == |claimedIds - failing|
      ensures jobs == FinishedRows(old(jobs), claimedIds, failing, now)
    {
      hide Sound;
      hide IsRun;
      hide After;
      hide FinishedRows;
      hide AfterRun;
      hide HoldsAll;
      processed, steps := 0, steps0;
      var todo := claimedIds;
      ghost var ended: set<Id> := {};
      ghost var succeeded: set<Id> := {};
      FinishNone(jobs, failing, now);
      while todo != {}
        invariant todo + ended == claimedIds && todo !! ended
        invariant Valid() && IsRun(w0, steps) && After(w0, steps) == world
        invariant succeeded == ended - failing && processed == |succeeded|
        invariant HoldsAll(world.runs, runs, todo, old(jobs))
        invariant jobs == FinishedRows(old(jobs), ended, failing, now)
        decreases todo
      {
        var id :| id in todo;
        ReleaseOne(world.runs, runs, todo, old(jobs), id);
        FinishOneMore(old(jobs), ended, failing, id, now);
        var ok;
        ok, steps := RunClaimed(id, jobs[id].attempts, id !in failing, now, runs[id], w0, steps);
        todo, ended := todo - {id}, ended + {id};
        if ok {
          processed, succeeded := processed + 1, succeeded + {id};
        }
      }
    }

    /**
     Claims the due rows the database picked and runs them; `failing` are the jobs whose handler returns an error.
     Exactly the picked rows change, and none of them is left running.
     */
    method ProcessDue(limit: nat, now: int, picked: set<Id>, failing: set<Id>)
      returns (processed: nat, ghost steps: seq<Step>)
      requires Valid() && Selects(jobs, DueIds(jobs, now), RunAtOf, ClaimLimit(limit), picked)
      modifies this
      ensures Valid() && Took(steps)
      ensures processed == |picked - failing| <= limit
      ensures |DueIds(old(jobs), now)| <= limit <= 0x7fff_ffff ==> picked == DueIds(old(jobs), now)
      ensures Unique(old(jobs)) ==> Unique(jobs)
      ensures jobs == FinishedRows(ClaimedRows(old(jobs), picked, now), picked, failing, now)
    {
      hide Sound;
      hide IsRun;
      hide After;
      PickedCount(jobs, DueIds(jobs, now), ClaimLimit(limit), picked, failing);
      if |DueIds(jobs, now)| <= limit <= 0x7fff_ffff {
        TakesAll(jobs, DueIds(jobs, now), ClaimLimit(limit), RunAtOf, picked);
      }
      RunningRevivesNone(jobs, picked, failing, now);
      ghost var runs;
      runs, steps := ClaimRows(picked, now);
      processed, steps := RunAll(picked, failing, now, runs, old(world), steps);
    }

    /**
     Claims the earliest due row of one key, if any, and runs it on the spot. While live rows are unique, nothing
     of that key is due afterwards.
     */
    method RunPendingNow(key: Key, now: int, picked: set<Id>, failing: set<Id>) returns (ghost steps: seq<Step>)
      requires Valid() && Selects(jobs, DueOf(jobs, key, now), RunAtOf, 1, picked)
      modifies this
      ensures Valid() && Took(steps)
      ensures jobs == FinishedRows(ClaimedRows(old(jobs), picked, now), picked, failing, now)
      ensures Unique(old(jobs)) ==> Unique(jobs) && DueOf(jobs, key, now) == {}
    {
      hide Sound;
      hide IsRun;
      hide After;
      ghost var runs;
      ghost var processed;
      PickedDue(jobs, key, now, picked, failing);
      RunningRevivesNone(jobs, picked, failing, now);
      runs, steps := ClaimRows(picked, now);
      processed, steps := RunAll(picked, failing, now, runs, old(world), steps);
    }

    /**
     The two reclaim statements: rows whose next attempt would be the last fail, then, within what is left of the
     limit, other stale rows go back to pending. No row is touched twice and no more than `limit` rows are touched.
     */
    method ReclaimStale(limit: nat, now: int, failPicked: set<Id>, requeuePicked: set<Id>)
      returns (report: ReclaimReport, ghost steps: seq<Step>)
      requires Valid()
      requires Selects(jobs, StaleIds(jobs, now, true), UpdatedAtOf, ReclaimLimit(limit), failPicked)
      requires Selects(jobs, StaleIds(jobs, now, false), UpdatedAtOf, ReclaimLimit(limit) - |failPicked|, requeuePicked)
      modifies this
      ensures Valid() && Took(steps)
      ensures report == ReclaimReport(|requeuePicked|, |failPicked|)
      ensures report.requeued + report.failed <= limit && failPicked !! requeuePicked
      ensures limit > 0x7fff_ffff ==> report.requeued + report.failed <= 100
      ensures Unique(old(jobs)) ==> Unique(jobs)
      ensures jobs == ReclaimedRows(ReclaimedRows(old(jobs), failPicked, Failed, now), requeuePicked, Pending, now)
      ensures |StaleIds(old(jobs), now, true)| + |StaleIds(old(jobs), now, false)| <= ReclaimLimit(limit)
              ==> forall id :: id in jobs ==> !Stale(jobs[id], now)
      ensures |StaleIds(old(jobs), now, true)| + |StaleIds(old(jobs), now, false)| <= limit <= 0x7fff_ffff
              ==> forall id :: id in jobs ==> !Stale(jobs[id], now)
    {
      hide Sound;
      hide IsRun;
      hide After;
      StartRun(world);
      ReclaimCounts(jobs, now, ReclaimLimit(limit), failPicked, requeuePicked);
      ReclaimRevivesNone(jobs, failPicked, requeuePicked, now);
      steps := ReclaimRows(failPicked, Failed, now, old(world), []);
      if ReclaimLimit(limit) - |failPicked| <= 0 {
        RequeueNone(jobs, now, requeuePicked);
        return ReclaimReport(0, |failPicked|), steps;
      }
      steps := ReclaimRows(requeuePicked, Pending, now, old(world), steps);
      report := ReclaimReport(|requeuePicked|, |failPicked|);
    }

    /** One reclaim statement over the picked rows. */
    method ReclaimRows(picked: set<Id>, status: Status, now: int, ghost w0: World, ghost steps0: seq<Step>)
      returns (ghost steps: seq<Step>)
      requires Valid() && (status == Failed || status == Pending)
      requires picked <= StaleIds(jobs, now, status == Failed)
      requires Sound(w0) && IsRun(w0, steps0) && After(w0, steps0) == world
      modifies this
      ensures Valid() && IsRun(w0, steps) && After(w0, steps) == world
      ensures jobs == ReclaimedRows(old(jobs), picked, status, now)
    {
      hide Sound;
      hide IsRun;
      hide After;
      hide ReclaimedRows;
      steps := steps0;
      var todo := picked;
      ReclaimNone(jobs, status, now);
      assert picked - todo == {};
      while todo != {}
        invariant todo <= picked
        invariant Valid() && IsRun(w0, steps) && After(w0, steps) == world
        invariant jobs == ReclaimedRows(old(jobs), picked - todo, status, now)
        decreases todo
      {
        var id :| id in todo;
        ReclaimOneMore(old(jobs), picked - todo, id, status, now);
        assert picked - (todo - {id}) == picked - todo + {id};
        todo := todo - {id};
        ghost var s := if status == Failed then ReclaimFailed(id, now) else ReclaimRequeued(id, now);
        Advance(w0, steps, s);
        jobs := jobs[id := Reclaimed(jobs[id], status, now)];
        world, steps := Next(world, s), steps + [s];
      }
      assert picked - todo == picked;
    }
  }

  /** `i32::try_from(limit).unwrap_or(i32::MAX)`. */
  function ClaimLimit(limit: nat): (l: nat)
    ensures l <= limit
  {
    if limit <= 0x7fff_ffff then limit else 0x7fff_ffff
  }

  /** `i32::try_from(limit).unwrap_or(100)`. */
  function ReclaimLimit(limit: nat): (l: nat)
    ensures l <= limit
  {
    if limit <= 0x7fff_ffff then limit else 100
  }

  /** The table with the rows in `ids` reclaimed. */
  function ReclaimedRows(jobs: map<Id, Job>, ids: set<Id>, status: Status, now: int): map<Id, Job> {
    map id | id in jobs :: if id in ids then Reclaimed(jobs[id], status, now) else jobs[id]
  }

  lemma ReclaimOneMore(jobs: map<Id, Job>, ids: set<Id>, id: Id, status: Status, now: int)
    requires id in jobs && id !in ids
    ensures id in ReclaimedRows(jobs, ids, status, now) && ReclaimedRows(jobs, ids, status, now)[id] == jobs[id]
    ensures ReclaimedRows(jobs, ids, status, now)[id := Reclaimed(jobs[id], status, now)]
            == ReclaimedRows(jobs, ids + {id}, status, now)
  {
  }

  lemma ReclaimNone(jobs: map<Id, Job>, status: Status, now: int)
    ensures ReclaimedRows(jobs, {}, status, now) == jobs
  {
  }

  lemma RequeueNone(jobs: map<Id, Job>, now: int, picked: set<Id>)
    requires |picked| == 0
    ensures ReclaimedRows(jobs, picked, Pending, now) == jobs
  {
    assert picked == {};
  }

  /** The same rows about the same keys, and none live that was not. */
  ghost predicate RevivesNone(jobs: map<Id, Job>, jobs': map<Id, Job>) {
    && jobs'.Keys == jobs.Keys
    && forall id :: id in jobs ==> jobs'[id].key == jobs[id].key && (Live(jobs'[id]) ==> Live(jobs[id]))
  }

  lemma StillUnique(jobs: map<Id, Job>, jobs': map<Id, Job>)
    requires RevivesNone(jobs, jobs')
    ensures Unique(jobs) ==> Unique(jobs')
  {
  }

  lemma RunningRevivesNone(jobs: map<Id, Job>, picked: set<Id>, failing: set<Id>, now: int)
    requires picked <= DueIds(jobs, now)
    ensures Unique(jobs) ==> Unique(FinishedRows(ClaimedRows(jobs, picked, now), picked, failing, now))
  {
    StillUnique(jobs, FinishedRows(ClaimedRows(jobs, picked, now), picked, failing, now));
  }

  lemma ReclaimRevivesNone(jobs: map<Id, Job>, failPicked: set<Id>, requeuePicked: set<Id>, now: int)
    requires failPicked <= StaleIds(jobs, now, true) && requeuePicked <= StaleIds(jobs, now, false)
    ensures Unique(jobs) ==>
      Unique(ReclaimedRows(ReclaimedRows(jobs, failPicked, Failed, now), requeuePicked, Pending, now))
    ensures Unique(jobs) ==> Unique(ReclaimedRows(jobs, failPicked, Failed, now))
  {
    StillUnique(jobs, ReclaimedRows(jobs, failPicked, Failed, now));
    StillUnique(jobs, ReclaimedRows(ReclaimedRows(jobs, failPicked, Failed, now), requeuePicked, Pending, now));
  }

  lemma StartRun(w: World)
    ensures IsRun(w, []) && After(w, []) == w
  {
  }

  lemma PickedCount(jobs: map<Id, Job>, eligible: set<Id>, limit: nat, picked: set<Id>, failing: set<Id>)
    requires Selects(jobs, eligible, RunAtOf, limit, picked)
    ensures picked <= eligible && |picked - failing| <= limit
  {
    SubsetSize(picked - failing, picked);
  }

  lemma PickedDue(jobs: map<Id, Job>, key: Key, now: int, picked: set<Id>, failing: set<Id>)
    requires Selects(jobs, DueOf(jobs, key, now), RunAtOf, 1, picked)
    ensures picked <= DueIds(jobs, now)
    ensures Unique(jobs) ==>
      DueOf(FinishedRows(ClaimedRows(jobs, picked, now), picked, failing, now), key, now) == {}
  {
    var due, after := DueOf(jobs, key, now), FinishedRows(ClaimedRows(jobs, picked, now), picked, failing, now);
    if Unique(jobs) {
      forall id | id in due
        ensures id !in DueOf(after, key, now)
      {
        assert due <= {id};
        SubsetSize(due, {id});
        SubsetSize({id}, due);
        TakesAll(jobs, due, 1, RunAtOf, picked);
        NotDueAfterRun(jobs[id], id !in failing, now);
      }
    }
  }

  /** A job that has just run is not due: it is closed or its next attempt lies ahead. */
  lemma NotDueAfterRun(j: Job, succeeded: bool, now: int)
    ensures var claimed := Claimed(j, now);
      !Due(AfterRun(claimed, Run(0, claimed.attempts), succeeded, now), now)
  {
    var next := j.attempts + 1;
    PowPositive(if next < 0 then 0 else if next < 6 then next else 6);
  }

  lemma PowPositive(n: nat)
    ensures Pow2(n) > 0
  {
  }

  lemma SubsetSize(a: set<Id>, b: set<Id>)
    requires a <= b
    ensures |a| <= |b|
  {
    assert b == a + (b - a);
  }

  lemma NonNegative(w: World, run: nat)
    requires Sound(w) && run in w.runs
    ensures w.runs[run].attempts >= 0
  {
    assert Accounted(w.jobs[w.runs[run].job], LogOf(w, w.runs[run].job));
  }

  /** A selection that had room for every eligible row took them all. */
  lemma TakesAll(jobs: map<Id, Job>, eligible: set<Id>, limit: nat, order: Job -> int, picked: set<Id>)
    requires Selects(jobs, eligible, order, limit, picked) && |eligible| <= limit
    ensures picked == eligible
  {
    if x :| x in eligible && x !in picked {
      SubsetSize(picked, eligible - {x});
    }
  }

  lemma ReclaimCounts(jobs: map<Id, Job>, now: int, limit: nat, failPicked: set<Id>, requeuePicked: set<Id>)
    requires Selects(jobs, StaleIds(jobs, now, true), UpdatedAtOf, limit, failPicked)
    requires |failPicked| <= limit
    requires Selects(jobs, StaleIds(jobs, now, false), UpdatedAtOf, limit - |failPicked|, requeuePicked)
    ensures failPicked !! requeuePicked && |failPicked| + |requeuePicked| <= limit
    ensures requeuePicked <= StaleIds(ReclaimedRows(jobs, failPicked, Failed, now), now, false)
    ensures |StaleIds(jobs, now, true)| + |StaleIds(jobs, now, false)| <= limit ==>
      var after := ReclaimedRows(ReclaimedRows(jobs, failPicked, Failed, now), requeuePicked, Pending, now);
      forall id :: id in after ==> !Stale(after[id], now)
  {
    if |StaleIds(jobs, now, true)| + |StaleIds(jobs, now, false)| <= limit {
      TakesAll(jobs, StaleIds(jobs, now, true), limit, UpdatedAtOf, failPicked);
      TakesAll(jobs, StaleIds(jobs, now, false), limit - |failPicked|, UpdatedAtOf, requeuePicked);
    }
  }
}
