/** Account capability bits cached over the database, and the queries they guard. */
module AppCache {
  import opened Wrappers

  datatype Account = Account(id: string)

  /** A status of this instance or of another one. */
  datatype Status = Local(id: string) | Remote(id: string)

  /** An account's rows in the five tables the bits summarise; mutes and bookmarks by the status they refer to. */
  datatype Rows = Rows(threadMutes: seq<Status>, followedTags: seq<string>, filters: seq<string>,
                       domainBlocks: seq<string>, bookmarks: seq<Status>)

  datatype Caps = Caps(threadMutes: bool, followedTags: bool, filters: bool, domainBlocks: bool, bookmarks: bool)

  const NO_ROWS := Rows([], [], [], [], [])

  function RowsOf(db: map<Account, Rows>, a: Account): Rows {
    if a in db then db[a] else NO_ROWS
  }

  /** Whether each table has a row of the account. */
  function Probe(r: Rows): Caps {
    Caps(r.threadMutes != [], r.followedTags != [], r.filters != [], r.domainBlocks != [], r.bookmarks != [])
  }

  function Without<T(==, !new)>(s: seq<T>, x: T): (r: seq<T>)
    ensures forall y :: y in r <==> y in s && y != x
  {
    if s == [] then [] else (if s[0] == x then [] else [s[0]]) + Without(s[1..], x)
  }

  /** `ON DELETE CASCADE`: the mutes and bookmarks of a deleted status go with it, for every account. */
  function Remaining(r: Rows, s: Status): Rows {
    r.(threadMutes := Without(r.threadMutes, s), bookmarks := Without(r.bookmarks, s))
  }

  function WithoutStatus(db: map<Account, Rows>, s: Status): map<Account, Rows> {
    map a | a in db :: Remaining(db[a], s)
  }

  type Isolate = nat

  /** The database, the key-value cache all isolates share, and each isolate's own first-level cache. */
  datatype World = World(db: map<Account, Rows>, kv: map<Account, Caps>, l1: map<Isolate, map<Account, Caps>>)

  /** Nothing is cached yet. */
  function Cold(db: map<Account, Rows>): World {
    World(db, map[], map[])
  }

  function L1Of(w: World, iso: Isolate): map<Account, Caps> {
    if iso in w.l1 then w.l1[iso] else map[]
  }

  function Fresh(w: World, a: Account): Caps {
    Probe(RowsOf(w.db, a))
  }

  // ---- Operations ---------------------------------------------------------------------------

  function Load(w: World, iso: Isolate, a: Account): (World, Caps) {
    var l1 := L1Of(w, iso);
    if a in l1 then (w, l1[a])
    else if a in w.kv then (w.(l1 := w.l1[iso := l1[a := w.kv[a]]]), w.kv[a])
    else
      var caps := Fresh(w, a);
      (w.(l1 := w.l1[iso := l1[a := caps]], kv := w.kv[a := caps]), caps)
  }

  function Invalidate(w: World, iso: Isolate, a: Account): World {
    w.(l1 := w.l1[iso := L1Of(w, iso) - {a}], kv := w.kv - {a})
  }

  /** A change of an account's own rows; each of them is followed by an invalidation. */
  function Mutate(w: World, iso: Isolate, a: Account, rows: Rows): World {
    Invalidate(w.(db := w.db[a := rows]), iso, a)
  }

  function ListBlocks(w: World, iso: Isolate, a: Account): (World, seq<string>) {
    var (w', caps) := Load(w, iso, a);
    (w', if caps.domainBlocks then RowsOf(w.db, a).domainBlocks else [])
  }

  /**
   What can happen. Only runs that come through the router clear the isolate's first level; deleting a status drops
   rows of any account and invalidates nothing; a shared entry may expire at any time.
   */
  datatype Event =
    | Begin(iso: Isolate, routed: bool)
    | Read(iso: Isolate, a: Account)
    | List(iso: Isolate, a: Account)
    | Write(iso: Isolate, a: Account, rows: Rows)
    | DeleteStatus(status: Status)
    | Expire(a: Account)

  function Apply(w: World, e: Event): World {
    match e
    case Begin(iso, routed) => if routed then w.(l1 := w.l1[iso := map[]]) else w
    case Read(iso, a) => Load(w, iso, a).0
    case List(iso, a) => ListBlocks(w, iso, a).0
    case Write(iso, a, rows) => Mutate(w, iso, a, rows)
    case DeleteStatus(status) => w.(db := WithoutStatus(w.db, status))
    case Expire(a) => w.(kv := w.kv - {a})
  }

  function After(w: World, events: seq<Event>): World {
    if events == [] then w else Apply(After(w, events[..|events| - 1]), events[|events| - 1])
  }

  lemma AfterOneMore(w: World, events: seq<Event>, e: Event)
    ensures After(w, events + [e]) == Apply(After(w, events), e)
  {
    hide Apply;
    assert (events + [e])[..|events|] == events;
  }

  // ---- What stays true ----------------------------------------------------------------------

  /** Three bits are exact; the two a status deletion may outdate never deny rows there are. */
  predicate Agrees(held: Caps, actual: Caps) {
    && held.followedTags == actual.followedTags && held.filters == actual.filters
    && held.domainBlocks == actual.domainBlocks
    && (actual.threadMutes ==> held.threadMutes) && (actual.bookmarks ==> held.bookmarks)
  }

  ghost predicate KvSound(w: World) {
    forall a :: a in w.kv ==> Agrees(w.kv[a], Fresh(w, a))
  }

  ghost predicate L1Sound(w: World, iso: Isolate, a: Account) {
    a in L1Of(w, iso) ==> Agrees(L1Of(w, iso)[a], Fresh(w, a))
  }

  lemma DeletionKeepsAgrees(w: World, s: Status, a: Account, held: Caps)
    requires Agrees(held, Fresh(w, a))
    ensures Agrees(held, Fresh(Apply(w, DeleteStatus(s)), a))
  {
    var r := RowsOf(w.db, a);
    assert Without(r.threadMutes, s) != [] ==> Without(r.threadMutes, s)[0] in r.threadMutes;
    assert Without(r.bookmarks, s) != [] ==> Without(r.bookmarks, s)[0] in r.bookmarks;
  }

  lemma StepKeepsKvSound(w: World, e: Event)
    requires KvSound(w)
    ensures KvSound(Apply(w, e))
  {
    if e.DeleteStatus? {
      hide WithoutStatus;
      hide Agrees;
      forall a | a in w.kv
        ensures Agrees(w.kv[a], Fresh(Apply(w, e), a))
      {
        DeletionKeepsAgrees(w, e.status, a, w.kv[a]);
      }
    }
  }

  /** An isolate's own bits go wrong only when another isolate changes the account's rows. */
  lemma StepKeepsL1Sound(w: World, e: Event, iso: Isolate, a: Account)
    requires KvSound(w) && L1Sound(w, iso, a)
    requires e.Write? && e.a == a ==> e.iso == iso
    ensures L1Sound(Apply(w, e), iso, a)
  {
    L1Step(w, e, iso, a);
    LoadAgrees(w, iso, a);
    if e.DeleteStatus? {
      if a in L1Of(w, iso) {
        DeletionKeepsAgrees(w, e.status, a, L1Of(w, iso)[a]);
      }
    } else if !(e.Write? && e.a == a) {
      RowsUnchanged(w, e, a);
    }
    hide Apply;
    hide Load;
    hide Agrees;
    hide L1Of;
  }

  lemma LoadAgrees(w: World, iso: Isolate, a: Account)
    requires KvSound(w) && L1Sound(w, iso, a)
    ensures Agrees(Load(w, iso, a).1, Fresh(w, a))
  {
  }

  lemma RowsUnchanged(w: World, e: Event, a: Account)
    requires !e.DeleteStatus? && !(e.Write? && e.a == a)
    ensures RowsOf(Apply(w, e).db, a) == RowsOf(w.db, a)
  {
  }

  /** Whatever happens, the shared cache never denies rows there are, and three of its bits are exact. */
  lemma {:induction false} RunsKeepKvSound(db: map<Account, Rows>, events: seq<Event>)
    ensures KvSound(After(Cold(db), events))
  {
    if events != [] {
      RunsKeepKvSound(db, events[..|events| - 1]);
      StepKeepsKvSound(After(Cold(db), events[..|events| - 1]), events[|events| - 1]);
    }
  }

  lemma {:induction false} RunKeepsL1Sound(db: map<Account, Rows>, before: seq<Event>, run: seq<Event>,
                                           iso: Isolate, a: Account)
    requires L1Sound(After(Cold(db), before), iso, a)
    requires forall i :: 0 <= i < |run| && run[i].Write? && run[i].a == a ==> run[i].iso == iso
    ensures L1Sound(After(Cold(db), before + run), iso, a)
  {
    if run == [] {
      assert before + run == before;
    } else {
      var n := |run| - 1;
      RunKeepsL1Sound(db, before, run[..n], iso, a);
      RunsKeepKvSound(db, before + run[..n]);
      StepKeepsL1Sound(After(Cold(db), before + run[..n]), run[n], iso, a);
      AfterOneMore(Cold(db), before + run[..n], run[n]);
      assert before + run == before + run[..n] + [run[n]];
    }
  }

  /** Three bits say exactly whether there are rows, and no bit denies rows there are. */
  ghost predicate TellsTrue(caps: Caps, rows: Rows) {
    && (caps.followedTags <==> rows.followedTags != []) && (caps.filters <==> rows.filters != [])
    && (caps.domainBlocks <==> rows.domainBlocks != [])
    && (!caps.threadMutes ==> rows.threadMutes == []) && (!caps.bookmarks ==> rows.bookmarks == [])
  }

  /** With nothing cached a load answers, for each of the five tables, whether the account has rows in it. */
  lemma ColdLoad(db: map<Account, Rows>, iso: Isolate, a: Account)
    ensures var caps, rows := Load(Cold(db), iso, a).1, RowsOf(db, a);
      && (caps.threadMutes <==> |rows.threadMutes| > 0) && (caps.followedTags <==> |rows.followedTags| > 0)
      && (caps.filters <==> |rows.filters| > 0) && (caps.domainBlocks <==> |rows.domainBlocks| > 0)
      && (caps.bookmarks <==> |rows.bookmarks| > 0)
  {
  }

  /**
   In a run that came through the router, unless another isolate changes the account's rows meanwhile, every query a
   bit skips would have found nothing, three bits are exact, and the guarded block list is the database's.
   */
  lemma {:induction false} RoutedRunsReadTrue(db: map<Account, Rows>, before: seq<Event>, run: seq<Event>,
                                              iso: Isolate, a: Account)
    requires forall i :: 0 <= i < |run| && run[i].Write? && run[i].a == a ==> run[i].iso == iso
    ensures var now := After(Cold(db), before + [Begin(iso, true)] + run);
      && Agrees(Load(now, iso, a).1, Fresh(now, a))
      && TellsTrue(Load(now, iso, a).1, RowsOf(now.db, a))
      && ListBlocks(now, iso, a).1 == RowsOf(now.db, a).domainBlocks
  {
    var begun := before + [Begin(iso, true)];
    AfterOneMore(Cold(db), before, Begin(iso, true));
    RunKeepsL1Sound(db, begun, run, iso, a);
    RunsKeepKvSound(db, begun + run);
  }

  // ---- When an entry was filled -------------------------------------------------------------

  predicate Clears(e: Event, iso: Isolate, a: Account) {
    || (e.Begin? && e.iso == iso && e.routed)
    || (e.Write? && e.iso == iso && e.a == a)
  }

  predicate Loads(e: Event, iso: Isolate, a: Account) {
    (e.Read? || e.List?) && e.iso == iso && e.a == a
  }

  /** The load from which the isolate holds the account's bits: its first one since it last cleared them. */
  function FilledAt(events: seq<Event>, iso: Isolate, a: Account): (r: Option<nat>)
    ensures r.Some? ==> r.value < |events| && Loads(events[r.value], iso, a)
    ensures r.Some? ==> forall i :: r.value <= i < |events| ==> !Clears(events[i], iso, a)
  {
    if events == [] then None
    else
      var n := |events| - 1;
      var before := FilledAt(events[..n], iso, a);
      if Clears(events[n], iso, a) then None
      else if before.Some? then before
      else if Loads(events[n], iso, a) then Some(n) else None
  }

  /** The load from which the shared cache holds the account's bits. */
  function KvFilledAt(events: seq<Event>, a: Account): (r: Option<nat>)
    ensures r.Some? ==> r.value < |events|
    ensures r.Some? ==> forall i :: r.value <= i < |events| ==> !(events[i].Write? && events[i].a == a)
  {
    if events == [] then None
    else
      var n := |events| - 1;
      var e, before := events[n], KvFilledAt(events[..n], a);
      if (e.Write? || e.Expire?) && e.a == a then None
      else if before.Some? then before
      else if (e.Read? || e.List?) && e.a == a && FilledAt(events[..n], e.iso, a) == None then Some(n) else None
  }

  ghost predicate L1Matches(db: map<Account, Rows>, events: seq<Event>, iso: Isolate, a: Account) {
    var held := L1Of(After(Cold(db), events), iso);
    match FilledAt(events, iso, a)
    case None => a !in held
    case Some(k) => a in held && held[a] == Load(After(Cold(db), events[..k]), iso, a).1
                    && a !in L1Of(After(Cold(db), events[..k]), iso)
  }

  ghost predicate KvMatches(db: map<Account, Rows>, events: seq<Event>, a: Account) {
    var kv := After(Cold(db), events).kv;
    match KvFilledAt(events, a)
    case None => a !in kv
    case Some(k) => a in kv && kv[a] == Fresh(After(Cold(db), events[..k]), a)
  }

  lemma L1Step(w: World, e: Event, iso: Isolate, a: Account)
    ensures var held, held' := L1Of(w, iso), L1Of(Apply(w, e), iso);
      if Clears(e, iso, a) then a !in held'
      else if a in held then a in held' && held'[a] == held[a]
      else if Loads(e, iso, a) then a in held' && held'[a] == Load(w, iso, a).1
      else a !in held'
  {
    if e.Read? || e.List? {
      assert Apply(w, e) == Load(w, e.iso, e.a).0;
      LoadFills(w, e.iso, e.a, iso);
      hide Load;
    }
  }

  /** A load changes at most the bits of that account in that isolate. */
  lemma LoadFills(w: World, iso: Isolate, a: Account, other: Isolate)
    ensures L1Of(Load(w, iso, a).0, other) ==
            if other == iso then L1Of(w, iso)[a := Load(w, iso, a).1] else L1Of(w, other)
  {
  }

  lemma KvStep(w: World, e: Event, a: Account)
    ensures var kv' := Apply(w, e).kv;
      if (e.Write? || e.Expire?) && e.a == a then a !in kv'
      else if a in w.kv then a in kv' && kv'[a] == w.kv[a]
      else if (e.Read? || e.List?) && e.a == a && a !in L1Of(w, e.iso) then a in kv' && kv'[a] == Fresh(w, a)
      else a !in kv'
  {
  }

  lemma {:induction false} L1History(db: map<Account, Rows>, events: seq<Event>, iso: Isolate, a: Account)
    ensures L1Matches(db, events, iso, a)
  {
    if events != [] {
      var n := |events| - 1;
      var w := After(Cold(db), events[..n]);
      L1History(db, events[..n], iso, a);
      L1Step(w, events[n], iso, a);
      hide Apply;
      hide Load;
      hide Clears;
      hide Loads;
      if FilledAt(events, iso, a).Some? && FilledAt(events, iso, a).value < n {
        var k := FilledAt(events, iso, a).value;
        assert events[..n][..k] == events[..k];
      }
    }
  }

  lemma {:induction false} KvHistory(db: map<Account, Rows>, events: seq<Event>, a: Account)
    ensures KvMatches(db, events, a)
  {
    if events != [] {
      var n := |events| - 1;
      var w, e := After(Cold(db), events[..n]), events[n];
      KvHistory(db, events[..n], a);
      if e.Read? || e.List? {
        L1History(db, events[..n], e.iso, a);
      }
      KvStep(w, e, a);
      hide Apply;
      hide FilledAt;
      if KvFilledAt(events, a).Some? && KvFilledAt(events, a).value < n {
        var k := KvFilledAt(events, a).value;
        assert events[..n][..k] == events[..k];
      }
    }
  }

  // ---- The account's rows in any run --------------------------------------------------------

  function RowsAt(db: map<Account, Rows>, events: seq<Event>, a: Account): Rows {
    RowsOf(After(Cold(db), events).db, a)
  }

  function BlocksAt(db: map<Account, Rows>, events: seq<Event>, a: Account): seq<string> {
    RowsAt(db, events, a).domainBlocks
  }

  predicate Writes(e: Event, a: Account) {
    e.Write? && e.a == a
  }

  /** When the account's rows were last changed, from event k on. */
  function LastWrite(events: seq<Event>, k: nat, a: Account): (r: Option<nat>)
    ensures match r
      case None => forall i :: k <= i < |events| ==> !Writes(events[i], a)
      case Some(j) => k <= j < |events| && Writes(events[j], a) && forall i :: j < i < |events| ==> !Writes(events[i], a)
  {
    if |events| <= k then None
    else if Writes(events[|events| - 1], a) then Some(|events| - 1)
    else LastWrite(events[..|events| - 1], k, a)
  }

  /** What the rows were last changed to; those at event k if they were not. */
  function Given(db: map<Account, Rows>, events: seq<Event>, k: nat, a: Account): Rows
    requires k <= |events|
  {
    match LastWrite(events, k, a)
    case None => RowsAt(db, events[..k], a)
    case Some(j) => events[j].rows
  }

  /** The same blocks, filters and followed tags: no deletion of a status drops any. */
  predicate SameOwn(r: Rows, other: Rows) {
    r.followedTags == other.followedTags && r.filters == other.filters && r.domainBlocks == other.domainBlocks
  }

  lemma OwnStep(w: World, e: Event, a: Account)
    ensures SameOwn(RowsOf(Apply(w, e).db, a), if Writes(e, a) then e.rows else RowsOf(w.db, a))
  {
  }

  lemma {:induction false} OwnSince(db: map<Account, Rows>, events: seq<Event>, k: nat, a: Account)
    requires k <= |events|
    ensures SameOwn(RowsAt(db, events, a), Given(db, events, k, a))
  {
    if k < |events| {
      var n := |events| - 1;
      OwnSince(db, events[..n], k, a);
      OwnStep(After(Cold(db), events[..n]), events[n], a);
      hide Apply;
      assert events[..n][..k] == events[..k];
    } else {
      assert events[..k] == events;
    }
  }

  /**
   The isolate has held the account's bits since a load at which the account had no blocks, and its rows have since
   been given some; by another isolate, for its own change would have cleared the bits.
   */
  ghost predicate MissesBlocks(db: map<Account, Rows>, events: seq<Event>, iso: Isolate, a: Account) {
    match FilledAt(events, iso, a)
    case None => false
    case Some(k) => BlocksAt(db, events[..k], a) == [] && Given(db, events, k, a).domainBlocks != []
  }

  /** Whatever happened before and however the run started, the guarded list is the database's exactly unless that. */
  lemma GuardedListRightIff(db: map<Account, Rows>, events: seq<Event>, iso: Isolate, a: Account)
    ensures ListBlocks(After(Cold(db), events), iso, a).1 == BlocksAt(db, events, a)
            <==> !MissesBlocks(db, events, iso, a)
  {
    L1History(db, events, iso, a);
    RunsKeepKvSound(db, events);
    hide After;
    if FilledAt(events, iso, a).Some? {
      var k := FilledAt(events, iso, a).value;
      RunsKeepKvSound(db, events[..k]);
      OwnSince(db, events, k, a);
    }
  }

  lemma AfterFour(w: World, e0: Event, e1: Event, e2: Event, e3: Event)
    ensures After(w, [e0, e1, e2, e3]) == Apply(Apply(Apply(Apply(w, e0), e1), e2), e3)
  {
    AfterOneMore(w, [], e0);
    AfterOneMore(w, [e0], e1);
    AfterOneMore(w, [e0, e1], e2);
    AfterOneMore(w, [e0, e1, e2], e3);
    hide Apply;
    assert [] + [e0] == [e0] && [e0] + [e1] == [e0, e1];
    assert [e0, e1] + [e2] == [e0, e1, e2] && [e0, e1, e2] + [e3] == [e0, e1, e2, e3];
  }

  /** A queue run that reads an account's bits, a request elsewhere that adds a block, and the next queue run. */
  lemma QueueRunMissesBlock(a: Account, domain: string)
    ensures var events := [List(1, a), Begin(2, true), Write(2, a, NO_ROWS.(domainBlocks := [domain])), Begin(1, false)];
      ListBlocks(After(Cold(map[]), events), 1, a).1 == [] && BlocksAt(map[], events, a) == [domain]
  {
    var e1, e2 := Begin(2, true), Write(2, a, NO_ROWS.(domainBlocks := [domain]));
    AfterFour(Cold(map[]), List(1, a), e1, e2, Begin(1, false));
    var w := Apply(Cold(map[]), List(1, a));
    assert a in L1Of(w, 1) && L1Of(w, 1)[a] == Probe(NO_ROWS);
    var w' := Apply(Apply(w, e1), e2);
    assert L1Of(w', 1) == L1Of(w, 1) && RowsOf(w'.db, a).domainBlocks == [domain];
  }

  // ---- All bits, in any run -----------------------------------------------------------------

  ghost predicate DeletedSince(events: seq<Event>, k: nat, s: Status) {
    exists i :: k <= i < |events| && events[i] == DeleteStatus(s)
  }

  lemma DeletedSinceStep(events: seq<Event>, k: nat, s: Status)
    requires k < |events|
    ensures DeletedSince(events, k, s) <==>
      DeletedSince(events[..|events| - 1], k, s) || events[|events| - 1] == DeleteStatus(s)
  {
    var n := |events| - 1;
    if DeletedSince(events[..n], k, s) {
      var i :| k <= i < n && events[..n][i] == DeleteStatus(s);
      assert events[i] == DeleteStatus(s);
    }
    if i :| k <= i < |events| && events[i] == DeleteStatus(s) {
      assert i < n ==> events[..n][i] == DeleteStatus(s);
    }
  }

  lemma RowsStep(w: World, e: Event, a: Account, s: Status)
    requires !Writes(e, a)
    ensures var r, r' := RowsOf(w.db, a), RowsOf(Apply(w, e).db, a);
      && (s in r'.bookmarks <==> s in r.bookmarks && e != DeleteStatus(s))
      && (s in r'.threadMutes <==> s in r.threadMutes && e != DeleteStatus(s))
  {
  }

  /** While nobody changes an account's rows, exactly those of deleted statuses go. */
  lemma {:induction false} RowsSince(db: map<Account, Rows>, events: seq<Event>, k: nat, a: Account, s: Status)
    requires k <= |events|
    requires forall i :: k <= i < |events| ==> !Writes(events[i], a)
    ensures s in RowsAt(db, events, a).bookmarks <==>
      s in RowsAt(db, events[..k], a).bookmarks && !DeletedSince(events, k, s)
    ensures s in RowsAt(db, events, a).threadMutes <==>
      s in RowsAt(db, events[..k], a).threadMutes && !DeletedSince(events, k, s)
  {
    if k < |events| {
      var n := |events| - 1;
      RowsSince(db, events[..n], k, a, s);
      RowsStep(After(Cold(db), events[..n]), events[n], a, s);
      DeletedSinceStep(events, k, s);
      hide Apply;
      hide DeletedSince;
      assert events[..n][..k] == events[..k];
    } else {
      assert events[..k] == events;
    }
  }

  /** The load whose probe the shared entry is; now if there is no entry. */
  function SharedProbe(events: seq<Event>, a: Account): (k: nat)
    ensures k <= |events|
  {
    match KvFilledAt(events, a) case None => |events| case Some(k) => k
  }

  /** The load whose probe an isolate is answered with: that of the shared entry as of when it asked for it. */
  function ProbedAt(events: seq<Event>, iso: Isolate, a: Account): (k: nat)
    ensures k <= |events|
  {
    match FilledAt(events, iso, a) case None => SharedProbe(events, a) case Some(m) => SharedProbe(events[..m], a)
  }

  lemma SharedAnswer(db: map<Account, Rows>, events: seq<Event>, iso: Isolate, a: Account)
    requires a !in L1Of(After(Cold(db), events), iso)
    ensures Load(After(Cold(db), events), iso, a).1 == Probe(RowsAt(db, events[..SharedProbe(events, a)], a))
  {
    KvHistory(db, events, a);
    hide After;
    hide L1Of;
    assert events[..|events|] == events;
  }

  /** Whatever happened before, an isolate is answered with the account's rows as they were at that load. */
  lemma {:induction false} AnswerIsProbe(db: map<Account, Rows>, events: seq<Event>, iso: Isolate, a: Account)
    ensures Load(After(Cold(db), events), iso, a).1 == Probe(RowsAt(db, events[..ProbedAt(events, iso, a)], a))
  {
    L1History(db, events, iso, a);
    hide After;
    hide RowsAt;
    hide Probe;
    hide SharedProbe;
    match FilledAt(events, iso, a)
    case None => SharedAnswer(db, events, iso, a);
    case Some(m) =>
      SharedAnswer(db, events[..m], iso, a);
      assert events[..m][..SharedProbe(events[..m], a)] == events[..SharedProbe(events[..m], a)];
  }

  /** The event behind the last change of the account's rows from event k on; k if there was none. */
  function Since(events: seq<Event>, k: nat, a: Account): (n: nat)
    requires k <= |events|
    ensures k <= n <= |events| && forall i :: n <= i < |events| ==> !Writes(events[i], a)
  {
    match LastWrite(events, k, a) case None => k case Some(j) => j + 1
  }

  lemma GivenAtSince(db: map<Account, Rows>, events: seq<Event>, k: nat, a: Account)
    requires k <= |events|
    ensures RowsAt(db, events[..Since(events, k, a)], a) == Given(db, events, k, a)
  {
    if LastWrite(events, k, a).Some? {
      var j := LastWrite(events, k, a).value;
      AfterOneMore(Cold(db), events[..j], events[j]);
      assert events[..j + 1] == events[..j] + [events[j]];
    }
  }

  /** One of the statuses still exists. */
  ghost predicate SomeLeft(events: seq<Event>, k: nat, statuses: seq<Status>) {
    exists s :: s in statuses && !DeletedSince(events, k, s)
  }

  lemma LeftIff(given: seq<Status>, now: seq<Status>, events: seq<Event>, k: nat)
    requires forall s :: s in now <==> s in given && !DeletedSince(events, k, s)
    ensures now != [] <==> SomeLeft(events, k, given)
  {
    hide DeletedSince;
    if now != [] {
      assert now[0] in given;
    }
  }

  /** Which rows there are now, by what they were given last and which statuses were deleted since. */
  lemma RowsNow(db: map<Account, Rows>, events: seq<Event>, k: nat, a: Account)
    requires k <= |events|
    ensures var now, given, since := RowsAt(db, events, a), Given(db, events, k, a), Since(events, k, a);
      && SameOwn(now, given)
      && (now.bookmarks != [] <==> SomeLeft(events, since, given.bookmarks))
      && (now.threadMutes != [] <==> SomeLeft(events, since, given.threadMutes))
  {
    var now, given, since := RowsAt(db, events, a), Given(db, events, k, a), Since(events, k, a);
    OwnSince(db, events, k, a);
    GivenAtSince(db, events, k, a);
    forall s
      ensures s in now.bookmarks <==> s in given.bookmarks && !DeletedSince(events, since, s)
      ensures s in now.threadMutes <==> s in given.threadMutes && !DeletedSince(events, since, s)
    {
      RowsSince(db, events, since, a, s);
    }
    LeftIff(given.bookmarks, now.bookmarks, events, since);
    LeftIff(given.threadMutes, now.threadMutes, events, since);
    hide *;
  }

  /**
   Every bit an isolate is answered with, in any run and however often it has loaded before, is right exactly when
   there were such rows at the load it goes back to if and only if there are such rows now: the rows the account was
   given last, but for bookmarks and mutes of statuses deleted since.
   */
  lemma {:induction false} BitsRightIff(db: map<Account, Rows>, events: seq<Event>, iso: Isolate, a: Account)
    ensures var k := ProbedAt(events, iso, a);
      var answer, actual := Load(After(Cold(db), events), iso, a).1, Fresh(After(Cold(db), events), a);
      var probed, given, since := RowsAt(db, events[..k], a), Given(db, events, k, a), Since(events, k, a);
      && (answer.domainBlocks == actual.domainBlocks <==> (probed.domainBlocks != [] <==> given.domainBlocks != []))
      && (answer.filters == actual.filters <==> (probed.filters != [] <==> given.filters != []))
      && (answer.followedTags == actual.followedTags <==> (probed.followedTags != [] <==> given.followedTags != []))
      && (answer.bookmarks == actual.bookmarks <==>
          (probed.bookmarks != [] <==> SomeLeft(events, since, given.bookmarks)))
      && (answer.threadMutes == actual.threadMutes <==>
          (probed.threadMutes != [] <==> SomeLeft(events, since, given.threadMutes)))
  {
    var k := ProbedAt(events, iso, a);
    AnswerIsProbe(db, events, iso, a);
    RowsNow(db, events, k, a);
    hide After;
    hide ProbedAt;
    hide Given;
    hide Since;
    hide SomeLeft;
    hide Load;
  }

  /** Bookmark a status, load the bits, delete the status: a later request is still told of bookmarks. */
  lemma DeletedBookmarkIsStillReported(a: Account, s: Status)
    ensures var events := [Write(1, a, NO_ROWS.(bookmarks := [s])), Read(1, a), DeleteStatus(s), Begin(1, true)];
      var now := After(Cold(map[]), events);
      Load(now, 1, a).1.bookmarks && !Fresh(now, a).bookmarks
  {
    var e0 := Write(1, a, NO_ROWS.(bookmarks := [s]));
    AfterFour(Cold(map[]), e0, Read(1, a), DeleteStatus(s), Begin(1, true));
    var w1 := Apply(Cold(map[]), e0);
    assert RowsOf(w1.db, a).bookmarks == [s] && a !in w1.kv && a !in L1Of(w1, 1);
    var w2 := Apply(w1, Read(1, a));
    assert a in w2.kv && w2.kv[a].bookmarks && w2.db == w1.db;
    assert Without([s], s) == [];
    var w3 := Apply(w2, DeleteStatus(s));
    assert w3.kv == w2.kv && RowsOf(w3.db, a).bookmarks == [];
  }

  // ---- The functions as the worker runs them ------------------------------------------------

  class Cache {
    var db: map<Account, Rows>
    var kv: map<Account, Caps>
    var l1: map<Isolate, map<Account, Caps>>

    ghost function Contents(): World
      reads this
    {
      World(db, kv, l1)
    }

    constructor (db: map<Account, Rows>)
      ensures Contents() == Cold(db)
    {
      this.db, kv, l1 := db, map[], map[];
    }

    method ResetRequestState(iso: Isolate)
      modifies this
      ensures Contents() == Apply(old(Contents()), Begin(iso, true))
    {
      l1 := l1[iso := map[]];
    }

    method LoadAccountCapabilities(iso: Isolate, a: Account) returns (caps: Caps)
      modifies this
      ensures (Contents(), caps) == Load(old(Contents()), iso, a)
      ensures KvSound(old(Contents())) && L1Sound(old(Contents()), iso, a) ==> TellsTrue(caps, RowsOf(db, a))
      ensures a !in old(kv) && a !in L1Of(old(Contents()), iso) ==>
        var rows := RowsOf(db, a);
        && (caps.threadMutes <==> rows.threadMutes != []) && (caps.bookmarks <==> rows.bookmarks != [])
        && TellsTrue(caps, rows)
    {
      var mine := if iso in l1 then l1[iso] else map[];
      if a in mine {
        return mine[a];
      }
      if a in kv {
        l1 := l1[iso := mine[a := kv[a]]];
        return kv[a];
      }
      caps := Probe(RowsOf(db, a));
      l1 := l1[iso := mine[a := caps]];
      kv := kv[a := caps];
    }

    method InvalidateAccountCapabilities(iso: Isolate, a: Account)
      modifies `kv, `l1
      ensures Contents() == Invalidate(old(Contents()), iso, a)
    {
      var mine := if iso in l1 then l1[iso] else map[];
      l1 := l1[iso := mine - {a}];
      kv := kv - {a};
    }

    method ListAllAccountDomainBlocks(iso: Isolate, a: Account) returns (domains: seq<string>)
      requires KvSound(Contents())
      modifies this
      ensures (Contents(), domains) == ListBlocks(old(Contents()), iso, a) && KvSound(Contents())
      ensures L1Sound(old(Contents()), iso, a) ==>
        domains == RowsOf(db, a).domainBlocks && L1Sound(Contents(), iso, a)
    {
      StepKeepsKvSound(Contents(), List(iso, a));
      if L1Sound(Contents(), iso, a) {
        StepKeepsL1Sound(Contents(), List(iso, a), iso, a);
      }
      var caps := LoadAccountCapabilities(iso, a);
      domains := if caps.domainBlocks then RowsOf(db, a).domainBlocks else [];
    }

    method InsertAccountDomainBlock(iso: Isolate, a: Account, domain: string)
      requires KvSound(Contents())
      modifies this
      ensures Contents() == Apply(old(Contents()), Write(iso, a, RowsOf(db, a)))
      ensures KvSound(Contents()) && L1Sound(Contents(), iso, a)
      ensures RowsOf(db, a) == RowsOf(old(db), a).(domainBlocks := RowsOf(db, a).domainBlocks)
      ensures forall d :: d in RowsOf(db, a).domainBlocks <==> d == domain || d in RowsOf(old(db), a).domainBlocks
    {
      var rows := RowsOf(db, a);
      if domain !in rows.domainBlocks {
        rows := rows.(domainBlocks := rows.domainBlocks + [domain]);
      }
      StepKeepsKvSound(Contents(), Write(iso, a, rows));
      db := db[a := rows];
      InvalidateAccountCapabilities(iso, a);
    }

    method DeleteAccountDomainBlock(iso: Isolate, a: Account, domain: string)
      requires KvSound(Contents())
      modifies this
      ensures Contents() == Apply(old(Contents()), Write(iso, a, RowsOf(db, a)))
      ensures KvSound(Contents()) && L1Sound(Contents(), iso, a)
      ensures RowsOf(db, a) == RowsOf(old(db), a).(domainBlocks := RowsOf(db, a).domainBlocks)
      ensures forall d :: d in RowsOf(db, a).domainBlocks <==> d != domain && d in RowsOf(old(db), a).domainBlocks
    {
      var rows := RowsOf(db, a);
      rows := rows.(domainBlocks := Without(rows.domainBlocks, domain));
      StepKeepsKvSound(Contents(), Write(iso, a, rows));
      db := db[a := rows];
      InvalidateAccountCapabilities(iso, a);
    }
  }
}
