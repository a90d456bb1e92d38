/** The shared capability cache with its operations taken apart: probing and putting, changing and deleting. */
module AppCacheRaces {
  import opened AppCache
  import opened Wrappers

  const TTL_SECS := 3600

  /** A probe's answer, with the step at which the database was read. */
  datatype Probed = Probed(account: Account, caps: Caps, readAt: nat)

  /** A shared cache entry: the probe it came from, the step and the second at which it was put. */
  datatype Entry = Entry(caps: Caps, readAt: nat, putAt: nat, second: int)

  type Task = nat

  /**
   The shared cache with its operations taken apart; `wroteAt` and `clearedAt` are the last such steps per account,
   `deletedAt` the last step that deleted a status.
   */
  datatype Shared = Shared(db: map<Account, Rows>, kv: map<Account, Entry>, probes: map<Task, Probed>,
                           clearing: map<Task, Account>, wroteAt: map<Account, nat>, clearedAt: map<Account, nat>,
                           deletedAt: nat, clock: nat)

  datatype Move =
    | Look(task: Task, a: Account)
    | Put(task: Task, second: int)
    | Change(task: Task, a: Account, rows: Rows)
    | Clear(task: Task)
    | Vanish(status: Status)

  function At(m: map<Account, nat>, a: Account): nat {
    if a in m then m[a] else 0
  }

  predicate CanMove(s: Shared, m: Move) {
    match m
    case Look(task, _) => task !in s.probes
    case Put(task, _) => task in s.probes
    case Change(task, _, _) => task !in s.clearing
    case Clear(task) => task in s.clearing
    case Vanish(_) => true
  }

  function Moved(s: Shared, m: Move): Shared
    requires CanMove(s, m)
  {
    var t := s.clock + 1;
    match m
    case Look(task, a) =>
      s.(probes := s.probes[task := Probed(a, Probe(RowsOf(s.db, a)), t)], clock := t)
    case Put(task, second) =>
      var p := s.probes[task];
      s.(kv := s.kv[p.account := Entry(p.caps, p.readAt, t, second)], probes := s.probes - {task}, clock := t)
    case Change(task, a, rows) =>
      s.(db := s.db[a := rows], clearing := s.clearing[task := a], wroteAt := s.wroteAt[a := t], clock := t)
    case Clear(task) =>
      var a := s.clearing[task];
      s.(kv := s.kv - {a}, clearing := s.clearing - {task}, clearedAt := s.clearedAt[a := t], clock := t)
    case Vanish(status) =>
      s.(db := WithoutStatus(s.db, status), deletedAt := t, clock := t)
  }

  ghost predicate Clearing(s: Shared, a: Account) {
    exists task :: task in s.clearing && s.clearing[task] == a
  }

  /** Unless the account was written after an answer was read, only a status deletion can have outdated it. */
  ghost predicate Traced(s: Shared, a: Account, caps: Caps, readAt: nat) {
    var now := Probe(RowsOf(s.db, a));
    readAt <= s.clock && (At(s.wroteAt, a) <= readAt ==> Agrees(caps, now) && (s.deletedAt <= readAt ==> caps == now))
  }

  ghost predicate ProbesTraced(s: Shared) {
    forall task :: task in s.probes ==> Traced(s, s.probes[task].account, s.probes[task].caps, s.probes[task].readAt)
  }

  ghost predicate EntriesTraced(s: Shared) {
    forall a :: a in s.kv ==> Traced(s, a, s.kv[a].caps, s.kv[a].readAt) && At(s.clearedAt, a) < s.kv[a].putAt
  }

  ghost predicate StepsPast(s: Shared) {
    s.deletedAt <= s.clock && forall a :: At(s.wroteAt, a) <= s.clock && At(s.clearedAt, a) <= s.clock
  }

  /** Whoever wrote an account last has cleared it, or will. */
  ghost predicate WritesCleared(s: Shared) {
    forall a :: At(s.wroteAt, a) > At(s.clearedAt, a) ==> Clearing(s, a)
  }

  ghost predicate TracedAll(s: Shared) {
    ProbesTraced(s) && EntriesTraced(s) && StepsPast(s) && WritesCleared(s)
  }

  lemma MoveKeepsWritesCleared(s: Shared, m: Move)
    requires TracedAll(s) && CanMove(s, m)
    ensures WritesCleared(Moved(s, m))
  {
    var s' := Moved(s, m);
    forall a | At(s'.wroteAt, a) > At(s'.clearedAt, a)
      ensures Clearing(s', a)
    {
      if m.Change? && m.a == a {
        assert s'.clearing[m.task] == a;
      } else {
        var task :| task in s.clearing && s.clearing[task] == a;
        assert task in s'.clearing && s'.clearing[task] == a;
      }
    }
  }

  /** What was traced stays traced: a write is later than every read before it. */
  lemma MoveKeepsOneTraced(s: Shared, m: Move, a: Account, caps: Caps, readAt: nat)
    requires StepsPast(s) && CanMove(s, m) && Traced(s, a, caps, readAt)
    ensures Traced(Moved(s, m), a, caps, readAt)
  {
    if m.Vanish? && At(s.wroteAt, a) <= readAt {
      DeletionKeepsAgrees(World(s.db, map[], map[]), m.status, a, caps);
    }
  }

  lemma MoveKeepsProbesTraced(s: Shared, m: Move)
    requires ProbesTraced(s) && StepsPast(s) && CanMove(s, m)
    ensures ProbesTraced(Moved(s, m)) && StepsPast(Moved(s, m))
  {
    var s' := Moved(s, m);
    forall task | task in s'.probes
      ensures Traced(s', s'.probes[task].account, s'.probes[task].caps, s'.probes[task].readAt)
    {
      if task in s.probes {
        assert s'.probes[task] == s.probes[task];
        MoveKeepsOneTraced(s, m, s.probes[task].account, s.probes[task].caps, s.probes[task].readAt);
      } else {
        assert m.Look? && m.task == task;
      }
    }
    MoveKeepsStepsPast(s, m);
  }

  lemma MoveKeepsStepsPast(s: Shared, m: Move)
    requires StepsPast(s) && CanMove(s, m)
    ensures StepsPast(Moved(s, m))
  {
    var s' := Moved(s, m);
    forall a
      ensures At(s'.wroteAt, a) <= s'.clock && At(s'.clearedAt, a) <= s'.clock
    {
      assert At(s.wroteAt, a) <= s.clock && At(s.clearedAt, a) <= s.clock;
    }
  }

  lemma MoveKeepsEntriesTraced(s: Shared, m: Move)
    requires ProbesTraced(s) && EntriesTraced(s) && StepsPast(s) && CanMove(s, m)
    ensures EntriesTraced(Moved(s, m))
  {
    var s' := Moved(s, m);
    forall a | a in s'.kv
      ensures Traced(s', a, s'.kv[a].caps, s'.kv[a].readAt) && At(s'.clearedAt, a) < s'.kv[a].putAt
    {
      if m.Put? && a == s.probes[m.task].account {
        MoveKeepsOneTraced(s, m, a, s.probes[m.task].caps, s.probes[m.task].readAt);
      } else {
        assert a in s.kv && s'.kv[a] == s.kv[a];
        MoveKeepsOneTraced(s, m, a, s.kv[a].caps, s.kv[a].readAt);
      }
    }
  }

  lemma MoveKeepsTraced(s: Shared, m: Move)
    requires TracedAll(s) && CanMove(s, m)
    ensures TracedAll(Moved(s, m))
  {
    MoveKeepsProbesTraced(s, m);
    MoveKeepsEntriesTraced(s, m);
    MoveKeepsWritesCleared(s, m);
  }

  ghost predicate CanMoveAll(s: Shared, moves: seq<Move>)
    decreases |moves|
  {
    moves == [] || (CanMove(s, moves[0]) && CanMoveAll(Moved(s, moves[0]), moves[1..]))
  }

  ghost function MovedAll(s: Shared, moves: seq<Move>): Shared
    requires CanMoveAll(s, moves)
    decreases |moves|
  {
    if moves == [] then s else MovedAll(Moved(s, moves[0]), moves[1..])
  }

  lemma {:induction false} MovesKeepTraced(s: Shared, moves: seq<Move>)
    requires TracedAll(s) && CanMoveAll(s, moves)
    ensures TracedAll(MovedAll(s, moves))
    decreases |moves|
  {
    if moves != [] {
      MoveKeepsTraced(s, moves[0]);
      MovesKeepTraced(Moved(s, moves[0]), moves[1..]);
    }
  }

  /** Nothing is cached and no operation is under way. */
  function Start(db: map<Account, Rows>): Shared {
    Shared(db, map[], map[], map[], map[], map[], 0, 0)
  }

  /** What a reader gets from the shared cache: nothing once the entry has expired. */
  function KvGet(s: Shared, a: Account, second: int): Option<Caps> {
    if a in s.kv && second < s.kv[a].second + TTL_SECS then Some(s.kv[a].caps) else None
  }

  /** Probed before the last write of the account and put after its last invalidation. */
  predicate Raced(s: Shared, a: Account) {
    a in s.kv && s.kv[a].readAt < At(s.wroteAt, a) <= At(s.clearedAt, a) < s.kv[a].putAt
  }

  /**
   Whatever the database and the interleaving, a wrong answer that no pending invalidation will remove was raced; or
   else a status was deleted since it was probed, and all it does is report mutes or bookmarks that are gone.
   */
  lemma WrongEntryWasRaced(db: map<Account, Rows>, moves: seq<Move>, a: Account, second: int)
    requires CanMoveAll(Start(db), moves)
    ensures var s := MovedAll(Start(db), moves);
      var now := Probe(RowsOf(s.db, a));
      KvGet(s, a, second).Some? && KvGet(s, a, second).value != now && !Clearing(s, a) ==>
        && second < s.kv[a].second + 3600
        && (Raced(s, a) || (Agrees(s.kv[a].caps, now) && s.kv[a].readAt < s.deletedAt))
  {
    MovesKeepTraced(Start(db), moves);
  }

  /** That race exists for every account that has no blocks yet: look, write, invalidate, put. */
  lemma RaceLeavesWrongEntry(db: map<Account, Rows>, a: Account, domain: string)
    requires RowsOf(db, a).domainBlocks == []
    ensures var moves := [Look(1, a), Change(2, a, NO_ROWS.(domainBlocks := [domain])), Clear(2), Put(1, 0)];
      && CanMoveAll(Start(db), moves)
      && var s := MovedAll(Start(db), moves);
         && KvGet(s, a, 3599).Some? && !KvGet(s, a, 3599).value.domainBlocks && KvGet(s, a, 3600) == None
         && RowsOf(s.db, a).domainBlocks == [domain] && s.clearing == map[]
  {
    var m0, m1 := Look(1, a), Change(2, a, NO_ROWS.(domainBlocks := [domain]));
    var m2, m3 := Clear(2), Put(1, 0);
    var s0 := Start(db);
    var s1 := Moved(s0, m0);
    var s2 := Moved(s1, m1);
    var s3 := Moved(s2, m2);
    assert s3.probes == s1.probes;
    PrependMove(s3, m3, []);
    PrependMove(s2, m2, [m3]);
    PrependMove(s1, m1, [m2, m3]);
    PrependMove(s0, m0, [m1, m2, m3]);
    assert [m0] + [m1, m2, m3] == [m0, m1, m2, m3];
    assert [m1] + [m2, m3] == [m1, m2, m3] && [m2] + [m3] == [m2, m3] && [m3] + [] == [m3];
  }

  lemma PrependMove(s: Shared, m: Move, rest: seq<Move>)
    requires CanMove(s, m) && CanMoveAll(Moved(s, m), rest)
    ensures CanMoveAll(s, [m] + rest) && MovedAll(s, [m] + rest) == MovedAll(Moved(s, m), rest)
  {
    assert ([m] + rest)[1..] == rest;
  }
}
