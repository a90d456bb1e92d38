/** The background job table as a protocol: each SQL statement is one atomic step on its rows. */
module BackgroundJobs {

  const MAX_ATTEMPTS := 5
  const BASE_BACKOFF_SECS := 60
  const STALE_SECS := 15 * 60

  type Id = nat

  datatype Status = Pending | Running | Completed | Failed

  /** What a job is about: its type and payload text. */
  datatype Key = Key(jobType: string, payload: string)

  /** A row; times are in seconds. */
  datatype Job = Job(key: Key, status: Status, attempts: int, nextRunAt: int, updatedAt: int)

  predicate Live(j: Job) {
    j.status == Pending || j.status == Running
  }

  /** A claimed row as the worker that claimed it remembers it. */
  datatype Run = Run(job: Id, attempts: int)

  /** What has happened to one row since it was inserted. */
  datatype History = History(claims: nat, errors: nat, reclaims: nat, retries: nat)

  /** The table, the runs whose worker is still alive, and the history of each row. */
  datatype World = World(jobs: map<Id, Job>, runs: map<nat, Run>, log: map<Id, History>)

  datatype Step =
    | Enqueue(id: Id, key: Key, nextRunAt: int, now: int)
    | Claim(run: nat, id: Id, now: int)
    | Finish(run: nat, succeeded: bool, now: int)
    | Cancel(run: nat)
    | ReclaimFailed(id: Id, now: int)
    | ReclaimRequeued(id: Id, now: int)
    | AdminRetry(id: Id, now: int)

  // ---- The statements -----------------------------------------------------------------------

  predicate HasLive(jobs: map<Id, Job>, key: Key) {
    exists id :: id in jobs && jobs[id].key == key && Live(jobs[id])
  }

  /** `INSERT OR IGNORE ... WHERE NOT EXISTS`: nothing happens when the key is live or the id is taken. */
  function Enqueued(jobs: map<Id, Job>, id: Id, key: Key, nextRunAt: int, now: int): map<Id, Job> {
    if HasLive(jobs, key) || id in jobs then jobs
    else jobs[id := Job(key, Pending, 0, nextRunAt, now)]
  }

  predicate Due(j: Job, now: int) {
    j.status == Pending && j.nextRunAt <= now
  }

  predicate Stale(j: Job, now: int) {
    j.status == Running && j.updatedAt <= now - STALE_SECS
  }

  function BackoffSecs(nextAttempts: nat): nat {
    BASE_BACKOFF_SECS * Pow2(if nextAttempts < 6 then nextAttempts else 6)
  }

  function Pow2(n: nat): nat {
    if n == 0 then 1 else 2 * Pow2(n - 1)
  }

  function AfterRun(j: Job, run: Run, succeeded: bool, now: int): Job {
    if succeeded then j.(status := Completed, updatedAt := now)
    else
      var next := run.attempts + 1;
      if next >= MAX_ATTEMPTS
      then j.(status := Failed, attempts := next, nextRunAt := now, updatedAt := now)
      else j.(status := Pending, attempts := next,
              nextRunAt := now + BackoffSecs(if next < 0 then 0 else next), updatedAt := now)
  }

  function Reclaimed(j: Job, status: Status, now: int): Job {
    j.(status := status, attempts := j.attempts + 1, nextRunAt := now, updatedAt := now)
  }

  // ---- One step -----------------------------------------------------------------------------

  predicate Enabled(w: World, s: Step) {
    match s
    case Enqueue(_, _, _, _) => true
    case Claim(run, id, now) => run !in w.runs && id in w.jobs && Due(w.jobs[id], now)
    case Finish(run, _, _) => run in w.runs && w.runs[run].job in w.jobs
    case Cancel(run) => run in w.runs
    case ReclaimFailed(id, now) => id in w.jobs && Stale(w.jobs[id], now) && w.jobs[id].attempts + 1 >= MAX_ATTEMPTS
    case ReclaimRequeued(id, now) => id in w.jobs && Stale(w.jobs[id], now) && w.jobs[id].attempts + 1 < MAX_ATTEMPTS
    case AdminRetry(id, _) => id in w.jobs && w.jobs[id].status == Failed
  }

  function LogOf(w: World, id: Id): History {
    if id in w.log then w.log[id] else History(0, 0, 0, 0)
  }

  /** The runs of a reclaimed row were cancelled by the runtime before the row went stale. */
  function WithoutRunsOf(runs: map<nat, Run>, id: Id): map<nat, Run> {
    map r | r in runs && runs[r].job != id :: runs[r]
  }

  function Next(w: World, s: Step): World
    requires Enabled(w, s)
  {
    match s
    case Enqueue(id, key, nextRunAt, now) =>
      w.(jobs := Enqueued(w.jobs, id, key, nextRunAt, now))
    case Claim(run, id, now) =>
      World(w.jobs[id := w.jobs[id].(status := Running, updatedAt := now)],
            w.runs[run := Run(id, w.jobs[id].attempts)],
            w.log[id := LogOf(w, id).(claims := LogOf(w, id).claims + 1)])
    case Finish(run, succeeded, now) =>
      var r := w.runs[run];
      World(w.jobs[r.job := AfterRun(w.jobs[r.job], r, succeeded, now)],
            w.runs - {run},
            if succeeded then w.log else w.log[r.job := LogOf(w, r.job).(errors := LogOf(w, r.job).errors + 1)])
    case Cancel(run) =>
      w.(runs := w.runs - {run})
    case ReclaimFailed(id, now) =>
      World(w.jobs[id := Reclaimed(w.jobs[id], Failed, now)], WithoutRunsOf(w.runs, id),
            w.log[id := LogOf(w, id).(reclaims := LogOf(w, id).reclaims + 1)])
    case ReclaimRequeued(id, now) =>
      World(w.jobs[id := Reclaimed(w.jobs[id], Pending, now)], WithoutRunsOf(w.runs, id),
            w.log[id := LogOf(w, id).(reclaims := LogOf(w, id).reclaims + 1)])
    case AdminRetry(id, now) =>
      World(w.jobs[id := w.jobs[id].(status := Pending, nextRunAt := now, updatedAt := now)], w.runs,
            w.log[id := LogOf(w, id).(retries := LogOf(w, id).retries + 1)])
  }

  const EMPTY := World(map[], map[], map[])

  ghost predicate IsRun(w: World, steps: seq<Step>)
    decreases |steps|
  {
    steps == [] || (Enabled(w, steps[0]) && IsRun(Next(w, steps[0]), steps[1..]))
  }

  ghost function After(w: World, steps: seq<Step>): World
    requires IsRun(w, steps)
    decreases |steps|
  {
    if steps == [] then w else After(Next(w, steps[0]), steps[1..])
  }

  lemma {:induction false} AppendStep(w: World, steps: seq<Step>, s: Step)
    requires IsRun(w, steps) && Enabled(After(w, steps), s)
    ensures IsRun(w, steps + [s]) && After(w, steps + [s]) == Next(After(w, steps), s)
    decreases |steps|
  {
    if steps != [] {
      AppendStep(Next(w, steps[0]), steps[1..], s);
      assert (steps + [s])[1..] == steps[1..] + [s];
    }
  }

  // ---- Who holds a row, and how often it was tried ------------------------------------------

  /** Every live run holds a running row as it was when claimed, and no row is held twice. */
  ghost predicate HeldOnce(w: World) {
    && (forall r :: r in w.runs ==>
          var run := w.runs[r];
          run.job in w.jobs && w.jobs[run.job].status == Running && w.jobs[run.job].attempts == run.attempts)
    && (forall r, q :: r in w.runs && q in w.runs && w.runs[r].job == w.runs[q].job ==> r == q)
  }

  /** The counters of one row: five attempts, plus one for every time an administrator revived it. */
  ghost predicate Accounted(j: Job, h: History) {
    && j.attempts == h.errors + h.reclaims
    && h.claims == j.attempts + (if j.status == Running || j.status == Completed then 1 else 0)
    && (j.status == Failed ==> j.attempts == MAX_ATTEMPTS + h.retries)
    && (j.status != Failed ==> if h.retries == 0 then j.attempts < MAX_ATTEMPTS
                               else j.attempts == MAX_ATTEMPTS + h.retries - 1)
  }

  ghost predicate AllAccounted(w: World) {
    && w.log.Keys <= w.jobs.Keys
    && forall id :: id in w.jobs ==> Accounted(w.jobs[id], LogOf(w, id))
  }

  ghost predicate Sound(w: World) {
    HeldOnce(w) && AllAccounted(w)
  }

  lemma StepKeepsHeldOnce(w: World, s: Step)
    requires HeldOnce(w) && Enabled(w, s)
    ensures HeldOnce(Next(w, s))
  {
  }

  lemma StepKeepsRowAccounted(w: World, s: Step, id: Id)
    requires Sound(w) && Enabled(w, s) && id in Next(w, s).jobs
    ensures Accounted(Next(w, s).jobs[id], LogOf(Next(w, s), id))
  {
    if id in w.jobs {
      assert Accounted(w.jobs[id], LogOf(w, id));
      if s.Finish? {
        FinishKeepsRowAccounted(w, s, id);
      }
    }
  }

  /** A finishing run writes what its row counted when it was claimed, plus one on an error. */
  lemma FinishKeepsRowAccounted(w: World, s: Step, id: Id)
    requires Sound(w) && s.Finish? && Enabled(w, s) && id in w.jobs
    ensures Accounted(Next(w, s).jobs[id], LogOf(Next(w, s), id))
  {
    assert Accounted(w.jobs[id], LogOf(w, id));
    var run := w.runs[s.run];
    assert w.jobs[run.job].status == Running && w.jobs[run.job].attempts == run.attempts;
  }

  lemma StepKeepsAccounted(w: World, s: Step)
    requires Sound(w) && Enabled(w, s)
    ensures AllAccounted(Next(w, s))
  {
    hide Accounted;
    hide HeldOnce;
    forall id | id in Next(w, s).jobs
      ensures Accounted(Next(w, s).jobs[id], LogOf(Next(w, s), id))
    {
      StepKeepsRowAccounted(w, s, id);
    }
    StepKeepsLogKeys(w, s);
  }

  lemma StepKeepsLogKeys(w: World, s: Step)
    requires Sound(w) && Enabled(w, s)
    ensures Next(w, s).log.Keys <= Next(w, s).jobs.Keys
  {
  }

  /** Whatever the interleaving, from an empty table on. */
  lemma {:induction false} RunsAreSound(w: World, steps: seq<Step>)
    requires Sound(w) && IsRun(w, steps)
    ensures Sound(After(w, steps))
    decreases |steps|
  {
    if steps != [] {
      StepKeepsHeldOnce(w, steps[0]);
      StepKeepsAccounted(w, steps[0]);
      RunsAreSound(Next(w, steps[0]), steps[1..]);
    }
  }

  /** A job is claimed, and its handler started, at most five times, plus once per administrator retry. */
  lemma ClaimsAreBounded(steps: seq<Step>, id: Id)
    requires IsRun(EMPTY, steps) && id in After(EMPTY, steps).jobs
    ensures var w := After(EMPTY, steps);
      && LogOf(w, id).claims <= 5 + LogOf(w, id).retries
      && (w.jobs[id].status == Failed ==> w.jobs[id].attempts == 5 + LogOf(w, id).retries)
      && w.jobs[id].attempts == LogOf(w, id).errors + LogOf(w, id).reclaims
  {
    RunsAreSound(EMPTY, steps);
    assert Accounted(After(EMPTY, steps).jobs[id], LogOf(After(EMPTY, steps), id));
  }

  // ---- When a row may be taken again --------------------------------------------------------

  lemma {:induction false} RunAt(w: World, steps: seq<Step>, m: nat)
    requires IsRun(w, steps) && m < |steps|
    ensures IsRun(w, steps[..m]) && Enabled(After(w, steps[..m]), steps[m])
    ensures IsRun(w, steps[..m + 1]) && After(w, steps[..m + 1]) == Next(After(w, steps[..m]), steps[m])
    decreases |steps|
  {
    if m == 0 {
      assert steps[..1][1..] == [] && steps[..1][0] == steps[0];
    } else {
      var rest := steps[1..];
      RunAt(Next(w, steps[0]), rest, m - 1);
      assert steps[..m][1..] == rest[..m - 1] && steps[..m + 1][1..] == rest[..m];
    }
  }

  lemma PrefixIsRun(steps: seq<Step>, m: nat)
    requires IsRun(EMPTY, steps) && m <= |steps|
    ensures IsRun(EMPTY, steps[..m])
  {
    if m < |steps| {
      RunAt(EMPTY, steps, m);
    } else {
      assert steps[..m] == steps;
    }
  }

  /** The world before step m of a run from the empty table. */
  ghost function WorldAt(steps: seq<Step>, m: nat): World
    requires IsRun(EMPTY, steps) && m <= |steps|
  {
    PrefixIsRun(steps, m);
    After(EMPTY, steps[..m])
  }

  lemma OneStepOn(steps: seq<Step>, m: nat)
    requires IsRun(EMPTY, steps) && m < |steps|
    ensures Enabled(WorldAt(steps, m), steps[m]) && Sound(WorldAt(steps, m))
    ensures WorldAt(steps, m + 1) == Next(WorldAt(steps, m), steps[m])
  {
    RunAt(EMPTY, steps, m);
    PrefixIsRun(steps, m);
    RunsAreSound(EMPTY, steps[..m]);
  }

  /** Run r holds the row, which was last written at second t. */
  ghost predicate HoldsSince(w: World, r: nat, id: Id, t: int) {
    r in w.runs && w.runs[r].job == id && id in w.jobs && w.jobs[id].status == Running && w.jobs[id].updatedAt == t
  }

  lemma StepKeepsHold(w: World, s: Step, r: nat, id: Id, t: int)
    requires HeldOnce(w) && Enabled(w, s) && HoldsSince(w, r, id, t) && r in Next(w, s).runs
    ensures HoldsSince(Next(w, s), r, id, t)
  {
  }

  /** The run that step k started is live before each of the steps up to j. */
  ghost predicate LiveUntil(steps: seq<Step>, k: nat, j: nat)
    requires IsRun(EMPTY, steps) && k < j <= |steps| && steps[k].Claim?
  {
    forall m :: k < m <= j ==> steps[k].run in WorldAt(steps, m).runs
  }

  lemma {:induction false} HeldUntil(steps: seq<Step>, k: nat, j: nat)
    requires IsRun(EMPTY, steps) && k < j <= |steps| && steps[k].Claim? && LiveUntil(steps, k, j)
    ensures HoldsSince(WorldAt(steps, j), steps[k].run, steps[k].id, steps[k].now)
    decreases j
  {
    hide Sound;
    hide WorldAt;
    hide IsRun;
    OneStepOn(steps, j - 1);
    if j - 1 > k {
      HeldUntil(steps, k, j - 1);
      SoundHolds(WorldAt(steps, j - 1));
      StepKeepsHold(WorldAt(steps, j - 1), steps[j - 1], steps[k].run, steps[k].id, steps[k].now);
      hide Next;
    }
  }

  lemma SoundHolds(w: World)
    requires Sound(w)
    ensures HeldOnce(w)
  {
  }

  /** In every run: the row of a live run is reclaimed no sooner than fifteen minutes after it was claimed, but then it can be. */
  lemma ReclaimWaits(steps: seq<Step>, k: nat, j: nat, t: int)
    requires IsRun(EMPTY, steps) && k < j <= |steps| && steps[k].Claim? && LiveUntil(steps, k, j)
    ensures var w, id := WorldAt(steps, j), steps[k].id;
      Enabled(w, ReclaimRequeued(id, t)) || Enabled(w, ReclaimFailed(id, t)) <==> t >= steps[k].now + 900
  {
    HeldUntil(steps, k, j);
    hide IsRun;
    hide WorldAt;
    hide LiveUntil;
  }

  /** What is so of a row that no run holds stays so until a step claims it or an administrator revives it. */
  ghost predicate RestsAs(w: World, id: Id, j: Job) {
    id in w.jobs && w.jobs[id] == j && j.status != Running
  }

  predicate Takes(s: Step, id: Id) {
    (s.Claim? && s.id == id) || (s.AdminRetry? && s.id == id)
  }

  lemma StepKeepsResting(w: World, s: Step, id: Id, j: Job)
    requires HeldOnce(w) && Enabled(w, s) && RestsAs(w, id, j) && !Takes(s, id)
    ensures RestsAs(Next(w, s), id, j)
  {
  }

  lemma {:induction false} RestsUntil(steps: seq<Step>, k: nat, j: nat, id: Id, row: Job)
    requires IsRun(EMPTY, steps) && k <= j <= |steps| && RestsAs(WorldAt(steps, k), id, row)
    requires forall m :: k <= m < j ==> !Takes(steps[m], id)
    ensures RestsAs(WorldAt(steps, j), id, row)
    decreases j
  {
    hide Sound;
    hide WorldAt;
    hide IsRun;
    if j > k {
      OneStepOn(steps, j - 1);
      RestsUntil(steps, k, j - 1, id, row);
      SoundHolds(WorldAt(steps, j - 1));
      StepKeepsResting(WorldAt(steps, j - 1), steps[j - 1], id, row);
      hide Next;
    }
  }

  /** The job of the run that step k ends. */
  ghost function EndedJob(steps: seq<Step>, k: nat): Id
    requires IsRun(EMPTY, steps) && k < |steps| && steps[k].Finish?
  {
    OneStepOn(steps, k);
    WorldAt(steps, k).runs[steps[k].run].job
  }

  /** How often it had been tried before. */
  ghost function TriesBefore(steps: seq<Step>, k: nat): int
    requires IsRun(EMPTY, steps) && k < |steps| && steps[k].Finish?
  {
    OneStepOn(steps, k);
    WorldAt(steps, k).jobs[EndedJob(steps, k)].attempts
  }

  lemma PowersOfTwo()
    ensures Pow2(1) == 2 && Pow2(2) == 4 && Pow2(3) == 8 && Pow2(4) == 16
  {
    assert Pow2(1) == 2 * Pow2(0);
    assert Pow2(3) == 2 * Pow2(2);
    assert Pow2(4) == 2 * Pow2(3);
  }

  /** The delay doubles up to the sixth try and stays at 64 minutes. */
  lemma LongestBackoff(n: nat)
    ensures BackoffSecs(5) == 1920 && (n >= 6 ==> BackoffSecs(n) == 3840)
  {
    PowersOfTwo();
    assert Pow2(5) == 2 * Pow2(4) && Pow2(6) == 2 * Pow2(5);
  }

  lemma FailedRowRests(w: World, s: Step)
    requires Sound(w) && s.Finish? && Enabled(w, s) && !s.succeeded
    ensures var id := w.runs[s.run].job;
      var a := w.jobs[id].attempts;
      var wait := if a == 0 then 120 else if a == 1 then 240 else if a == 2 then 480 else 960;
      && 0 <= a && id in Next(w, s).jobs
      && RestsAs(Next(w, s), id, w.jobs[id].(
           status := if a < 4 then Pending else Failed, attempts := a + 1,
           nextRunAt := if a < 4 then s.now + wait else s.now, updatedAt := s.now))
  {
    PowersOfTwo();
    var id := w.runs[s.run].job;
    assert Accounted(w.jobs[id], LogOf(w, id));
    assert w.jobs[id].attempts == w.runs[s.run].attempts;
    hide Pow2;
  }

  /**
   In every run: a job whose run failed can be claimed again 2, 4, 8 and 16 minutes after its first four tries and no
   sooner, and never after its fifth, unless something takes its row before.
   */
  lemma RetryWaits(steps: seq<Step>, k: nat, j: nat, run: nat, t: int)
    requires IsRun(EMPTY, steps) && k < j <= |steps| && steps[k].Finish? && !steps[k].succeeded
    requires forall m :: k < m < j ==> !Takes(steps[m], EndedJob(steps, k))
    requires run !in WorldAt(steps, j).runs
    ensures var id, a := EndedJob(steps, k), TriesBefore(steps, k);
      Enabled(WorldAt(steps, j), Claim(run, id, t)) <==>
        a < 4 && t >= steps[k].now + 60 * (if a == 0 then 2 else if a == 1 then 4 else if a == 2 then 8 else 16)
  {
    var w, s, id := WorldAt(steps, k), steps[k], EndedJob(steps, k);
    OneStepOn(steps, k);
    FailedRowRests(w, s);
    RestsUntil(steps, k + 1, j, id, Next(w, s).jobs[id]);
    hide IsRun;
    hide WorldAt;
    hide Next;
    hide Sound;
  }

  /** Step k adds the row, or puts it back without a run having ended. */
  ghost predicate PutsBack(steps: seq<Step>, k: nat, id: Id)
    requires IsRun(EMPTY, steps) && k < |steps|
  {
    match steps[k]
    case Enqueue(i, _, _, _) => i == id && id !in WorldAt(steps, k).jobs && id in WorldAt(steps, k + 1).jobs
    case ReclaimRequeued(i, _) => i == id
    case AdminRetry(i, _) => i == id
    case _ => false
  }

  /** In every run: such a row can be claimed from the second it was queued for, or put back, on. */
  lemma ReadyFrom(steps: seq<Step>, k: nat, j: nat, id: Id, run: nat, t: int)
    requires IsRun(EMPTY, steps) && k < j <= |steps| && PutsBack(steps, k, id)
    requires forall m :: k < m < j ==> !Takes(steps[m], id)
    requires run !in WorldAt(steps, j).runs
    ensures Enabled(WorldAt(steps, j), Claim(run, id, t)) <==>
      t >= if steps[k].Enqueue? then steps[k].nextRunAt else steps[k].now
  {
    hide IsRun;
    hide WorldAt;
    hide Sound;
    OneStepOn(steps, k);
    var w := WorldAt(steps, k + 1);
    assert id in w.jobs && w.jobs[id].status == Pending;
    assert w.jobs[id].nextRunAt == if steps[k].Enqueue? then steps[k].nextRunAt else steps[k].now;
    RestsUntil(steps, k + 1, j, id, w.jobs[id]);
    hide Next;
  }

  /** In every run: a job that succeeded is never claimed, reclaimed or revived again. */
  lemma {:induction false} CompletedStays(steps: seq<Step>, k: nat, j: nat)
    requires IsRun(EMPTY, steps) && k < j <= |steps| && steps[k].Finish? && steps[k].succeeded
    ensures var id := EndedJob(steps, k); id in WorldAt(steps, j).jobs && WorldAt(steps, j).jobs[id].status == Completed
    ensures forall m :: k < m < j ==> !Takes(steps[m], EndedJob(steps, k))
    decreases j
  {
    hide IsRun;
    hide WorldAt;
    hide Sound;
    var id := EndedJob(steps, k);
    OneStepOn(steps, k);
    if j > k + 1 {
      CompletedStays(steps, k, j - 1);
      OneStepOn(steps, j - 1);
      SoundHolds(WorldAt(steps, j - 1));
      StepKeepsResting(WorldAt(steps, j - 1), steps[j - 1], id, WorldAt(steps, j - 1).jobs[id]);
      hide Next;
    }
  }

  // ---- At most one live row per key ---------------------------------------------------------

  ghost predicate Unique(jobs: map<Id, Job>) {
    forall a, b :: a in jobs && b in jobs && jobs[a].key == jobs[b].key && Live(jobs[a]) && Live(jobs[b]) ==> a == b
  }

  /** The administrator's retry does not look for another live row with the same key. */
  predicate RetriesFreeKey(w: World, s: Step) {
    s.AdminRetry? && s.id in w.jobs ==> !HasLive(w.jobs, w.jobs[s.id].key)
  }

  /** A step keeps live rows unique exactly when it is not a retry of a job whose key is live again. */
  lemma StepKeepsUniqueIff(w: World, s: Step)
    requires HeldOnce(w) && Unique(w.jobs) && Enabled(w, s)
    ensures Unique(Next(w, s).jobs) <==> RetriesFreeKey(w, s)
  {
    var jobs := Next(w, s).jobs;
    if !RetriesFreeKey(w, s) {
      var b :| b in w.jobs && w.jobs[b].key == w.jobs[s.id].key && Live(w.jobs[b]);
      assert jobs[b] == w.jobs[b] && Live(jobs[s.id]);
    }
  }

  ghost predicate RetriesFreeKeys(w: World, steps: seq<Step>)
    requires IsRun(w, steps)
    decreases |steps|
  {
    steps == [] || (RetriesFreeKey(w, steps[0]) && RetriesFreeKeys(Next(w, steps[0]), steps[1..]))
  }

  lemma {:induction false} RunsKeepUnique(w: World, steps: seq<Step>)
    requires HeldOnce(w) && Unique(w.jobs) && IsRun(w, steps) && RetriesFreeKeys(w, steps)
    ensures Unique(After(w, steps).jobs)
    decreases |steps|
  {
    if steps != [] {
      StepKeepsHeldOnce(w, steps[0]);
      StepKeepsUniqueIff(w, steps[0]);
      RunsKeepUnique(Next(w, steps[0]), steps[1..]);
    }
  }

  // ---- Without the assumption that a reclaimed run never writes ------------------------------

  /** The unguarded finishing UPDATE of a run that outlived its reclaim. */
  function LateWrite(jobs: map<Id, Job>, run: Run, succeeded: bool, now: int): map<Id, Job>
    requires run.job in jobs
  {
    jobs[run.job := AfterRun(jobs[run.job], run, succeeded, now)]
  }

  /** A late write keeps live rows unique unless it reopens a closed row whose key is live in another one. */
  lemma LateWriteKeepsUniqueIff(jobs: map<Id, Job>, run: Run, succeeded: bool, now: int)
    requires Unique(jobs) && run.job in jobs
    ensures Unique(LateWrite(jobs, run, succeeded, now))
            <==> !(!succeeded && run.attempts + 1 < MAX_ATTEMPTS && !Live(jobs[run.job])
                   && HasLive(jobs, jobs[run.job].key))
  {
    var jobs' := LateWrite(jobs, run, succeeded, now);
    if !succeeded && run.attempts + 1 < MAX_ATTEMPTS && !Live(jobs[run.job]) && HasLive(jobs, jobs[run.job].key) {
      var b :| b in jobs && jobs[b].key == jobs[run.job].key && Live(jobs[b]);
      assert jobs'[b] == jobs[b] && Live(jobs'[run.job]);
    }
  }

  lemma Prepend(w: World, s: Step, steps: seq<Step>)
    requires Enabled(w, s) && IsRun(Next(w, s), steps)
    requires !s.AdminRetry? && RetriesFreeKeys(Next(w, s), steps)
    ensures IsRun(w, [s] + steps) && After(w, [s] + steps) == After(Next(w, s), steps)
    ensures RetriesFreeKeys(w, [s] + steps)
  {
    assert ([s] + steps)[1..] == steps;
  }

  /** A slow run, its reclaim, a second run that completes the row, and the same key queued anew. */
  function OutlivedRun(key: Key): seq<Step> {
    [Enqueue(1, key, 0, 0), Claim(10, 1, 0), ReclaimRequeued(1, 1000), Claim(11, 1, 1000),
     Finish(11, true, 1000), Enqueue(2, key, 1100, 1100)]
  }

  /** The world before step i of that run. */
  function OutlivedWorld(key: Key, i: nat): World {
    if i == 0 then EMPTY
    else if i == 1 then World(map[1 := Job(key, Pending, 0, 0, 0)], map[], map[])
    else if i == 2 then World(map[1 := Job(key, Running, 0, 0, 0)], map[10 := Run(1, 0)], map[1 := History(1, 0, 0, 0)])
    else if i == 3 then World(map[1 := Job(key, Pending, 1, 1000, 1000)], map[], map[1 := History(1, 0, 1, 0)])
    else if i == 4 then World(map[1 := Job(key, Running, 1, 1000, 1000)], map[11 := Run(1, 1)], map[1 := History(2, 0, 1, 0)])
    else if i == 5 then World(map[1 := Job(key, Completed, 1, 1000, 1000)], map[], map[1 := History(2, 0, 1, 0)])
    else World(map[1 := Job(key, Completed, 1, 1000, 1000), 2 := Job(key, Pending, 0, 1100, 1100)], map[],
               map[1 := History(2, 0, 1, 0)])
  }

  lemma OutlivedStep(key: Key, i: nat)
    requires i < 6
    ensures var s := OutlivedRun(key)[i];
      Enabled(OutlivedWorld(key, i), s) && Next(OutlivedWorld(key, i), s) == OutlivedWorld(key, i + 1)
  {
    assert Next(OutlivedWorld(key, i), OutlivedRun(key)[i]).jobs == OutlivedWorld(key, i + 1).jobs;
    assert Next(OutlivedWorld(key, i), OutlivedRun(key)[i]).runs == OutlivedWorld(key, i + 1).runs;
  }

  lemma {:induction false} OutlivedRunIsARun(key: Key, i: nat)
    requires i <= 6
    ensures var w, rest := OutlivedWorld(key, i), OutlivedRun(key)[i..];
      IsRun(w, rest) && RetriesFreeKeys(w, rest) && After(w, rest) == OutlivedWorld(key, 6)
    decreases 6 - i
  {
    if i < 6 {
      hide Next;
      OutlivedStep(key, i);
      OutlivedRunIsARun(key, i + 1);
      Prepend(OutlivedWorld(key, i), OutlivedRun(key)[i], OutlivedRun(key)[i + 1..]);
      assert [OutlivedRun(key)[i]] + OutlivedRun(key)[i + 1..] == OutlivedRun(key)[i..];
    }
  }

  lemma {:induction false} OutlivedPrefix(key: Key, i: nat)
    requires i <= 6
    ensures IsRun(EMPTY, OutlivedRun(key)[..i]) && After(EMPTY, OutlivedRun(key)[..i]) == OutlivedWorld(key, i)
  {
    if i > 0 {
      hide Next;
      OutlivedPrefix(key, i - 1);
      OutlivedStep(key, i - 1);
      AppendStep(EMPTY, OutlivedRun(key)[..i - 1], OutlivedRun(key)[i - 1]);
      assert OutlivedRun(key)[..i - 1] + [OutlivedRun(key)[i - 1]] == OutlivedRun(key)[..i];
    }
  }

  /** Live run r of the world before step k loses its row to that step, a reclaim. */
  ghost predicate LosesRow(steps: seq<Step>, k: nat, r: nat)
    requires k < |steps| && IsRun(EMPTY, steps[..k])
  {
    var w, s := After(EMPTY, steps[..k]), steps[k];
    (s.ReclaimRequeued? || s.ReclaimFailed?) && r in w.runs && w.runs[r].job == s.id
  }

  /** Duplicates do arise: a run loses its row to a reclaim, and then fails and sets the row to pending again. */
  lemma LateWriteCanDuplicate(key: Key)
    ensures var steps := OutlivedRun(key);
      && IsRun(EMPTY, steps) && RetriesFreeKeys(EMPTY, steps)
      && IsRun(EMPTY, steps[..2]) && LosesRow(steps, 2, 10)
      && var run := After(EMPTY, steps[..2]).runs[10];
         run.job in After(EMPTY, steps).jobs && !Unique(LateWrite(After(EMPTY, steps).jobs, run, false, 2000))
  {
    OutlivedPrefix(key, 2);
    OutlivedRunIsARun(key, 0);
    assert OutlivedRun(key)[0..] == OutlivedRun(key);
    var run, jobs := Run(1, 0), After(EMPTY, OutlivedRun(key)).jobs;
    assert After(EMPTY, OutlivedRun(key)[..2]).runs[10] == run;
    var late := LateWrite(jobs, run, false, 2000);
    assert Live(late[1]) && Live(late[2]) && late[1].key == late[2].key;
  }

  // ---- A retry that finds its key live ------------------------------------------------------

  /** A job that was claimed n times and failed each time. */
  lemma {:induction false} FailedRuns(key: Key, n: nat) returns (steps: seq<Step>)
    requires n <= MAX_ATTEMPTS
    ensures IsRun(EMPTY, steps) && forall i :: 0 <= i < |steps| ==> !steps[i].AdminRetry?
    ensures var w := After(EMPTY, steps);
      && w.runs == map[] && w.jobs.Keys == {1} && w.jobs[1].key == key && w.jobs[1].attempts == n
      && (w.jobs[1].status == if n == MAX_ATTEMPTS then Failed else Pending)
      && w.jobs[1].nextRunAt <= 10_000 * n
  {
    var before: seq<Step>, s;
    if n == 0 {
      before, s := [], Enqueue(1, key, 0, 0);
      AppendStep(EMPTY, before, s);
      assert !HasLive(map[], key);
    } else {
      var failed := FailedRuns(key, n - 1);
      var claim := Claim(0, 1, 10_000 * (n - 1));
      AppendStep(EMPTY, failed, claim);
      before, s := failed + [claim], Finish(0, false, 10_000 * (n - 1));
      FailOnce(After(EMPTY, failed), key, n);
      AppendStep(EMPTY, before, s);
    }
    steps := before + [s];
  }

  lemma FailOnce(w: World, key: Key, n: nat)
    requires 0 < n <= MAX_ATTEMPTS
    requires w.runs == map[] && w.jobs.Keys == {1}
    requires w.jobs[1].key == key && w.jobs[1].attempts == n - 1 && w.jobs[1].status == Pending
    requires w.jobs[1].nextRunAt <= 10_000 * (n - 1)
    ensures var claim, finish := Claim(0, 1, 10_000 * (n - 1)), Finish(0, false, 10_000 * (n - 1));
      && Enabled(w, claim) && Enabled(Next(w, claim), finish)
      && var w' := Next(Next(w, claim), finish);
         && w'.runs == map[] && w'.jobs.Keys == {1} && w'.jobs[1].key == key && w'.jobs[1].attempts == n
         && (w'.jobs[1].status == if n == MAX_ATTEMPTS then Failed else Pending)
         && w'.jobs[1].nextRunAt <= 10_000 * n
  {
    SmallPowers(n);
  }

  lemma SmallPowers(n: nat)
    requires n <= MAX_ATTEMPTS
    ensures Pow2(n) <= 32
  {
    assert Pow2(2) == 4 && Pow2(3) == 2 * Pow2(2) && Pow2(4) == 2 * Pow2(3) && Pow2(5) == 2 * Pow2(4);
  }

  /** Five failures, the same key queued anew, and the retry of the failed job: two live rows for one key. */
  lemma {:induction false} RetryCanDuplicate(key: Key) returns (steps: seq<Step>)
    ensures IsRun(EMPTY, steps + [AdminRetry(1, 60_000)])
    ensures forall i :: 0 <= i < |steps| ==> !steps[i].AdminRetry?
    ensures !Unique(After(EMPTY, steps + [AdminRetry(1, 60_000)]).jobs)
  {
    var failed := FailedRuns(key, MAX_ATTEMPTS);
    var w, again := After(EMPTY, failed), Enqueue(2, key, 60_000, 60_000);
    AppendStep(EMPTY, failed, again);
    steps := failed + [again];
    assert !HasLive(w.jobs, key);
    var w' := Next(w, again);
    assert w'.jobs[2] == Job(key, Pending, 0, 60_000, 60_000) && w'.jobs[1] == w.jobs[1];
    AppendStep(EMPTY, steps, AdminRetry(1, 60_000));
    var jobs := Next(w', AdminRetry(1, 60_000)).jobs;
    assert Live(jobs[1]) && Live(jobs[2]) && jobs[1].key == jobs[2].key;
  }
}
