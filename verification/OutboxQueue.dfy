/** The outbox table under its self-continuing queue drain. */
module OutboxQueue {
  import opened OutboxTargets
  import opened Wrappers
  import Rules = DeliveryRules

  const GENERIC_BATCH := 16
  const TARGET_BATCH := 32

  datatype RowState = Queued | InFlight | Expanded | Delivered | Failed

  /** A row without an inbox is a parent, fanned out into one row per inbox. Rows stand in creation order. */
  datatype Row = Row(activity: nat, account: Account, relayCandidate: bool, inbox: Option<Inbox>,
                     state: RowState, attempts: nat)
  {
    predicate Open() {
      state == Queued || state == InFlight
    }
  }

  // ---- Sums over the table ------------------------------------------------------------------

  function Total(rows: seq<Row>, weight: Row -> nat): nat {
    if rows == [] then 0 else Total(rows[..|rows| - 1], weight) + weight(rows[|rows| - 1])
  }

  function ParentWeight(): Row -> nat {
    (r: Row) => if r.Open() && r.inbox.None? then 1 else 0
  }

  /** Attempts an open target row has left: at least one, for an administrator's retry keeps the count as it is. */
  function AttemptWeight(): Row -> nat {
    (r: Row) => if !r.Open() || r.inbox.None? then 0
                else if r.attempts < Rules.DELIVERY_MAX_ATTEMPTS then Rules.DELIVERY_MAX_ATTEMPTS - r.attempts else 1
  }

  function OpenParents(rows: seq<Row>): nat { Total(rows, ParentWeight()) }

  function AttemptsLeft(rows: seq<Row>): nat { Total(rows, AttemptWeight()) }

  lemma {:induction false} TotalMonotone(rows: seq<Row>, rows': seq<Row>, weight: Row -> nat)
    requires |rows| == |rows'|
    requires forall i :: 0 <= i < |rows| ==> weight(rows'[i]) <= weight(rows[i])
    ensures Total(rows', weight) <= Total(rows, weight)
    ensures (exists i :: 0 <= i < |rows| && weight(rows'[i]) < weight(rows[i]))
            ==> Total(rows', weight) < Total(rows, weight)
  {
    if rows != [] {
      var n := |rows| - 1;
      TotalMonotone(rows[..n], rows'[..n], weight);
      if i :| 0 <= i < |rows| && weight(rows'[i]) < weight(rows[i]) {
        assert i < n ==> weight(rows'[..n][i]) < weight(rows[..n][i]);
      }
    }
  }

  lemma {:induction false} TotalAppend(rows: seq<Row>, more: seq<Row>, weight: Row -> nat)
    ensures Total(rows + more, weight) == Total(rows, weight) + Total(more, weight)
  {
    if more == [] {
      assert rows + more == rows;
    } else {
      var n := |more| - 1;
      TotalAppend(rows, more[..n], weight);
      assert (rows + more)[..|rows| + n] == rows + more[..n];
    }
  }

  // ---- The drain measure --------------------------------------------------------------------

  datatype Measure = Measure(parents: nat, attempts: nat)

  function MeasureOf(rows: seq<Row>): Measure {
    Measure(OpenParents(rows), AttemptsLeft(rows))
  }

  predicate Below(m: Measure, n: Measure) {
    m.parents < n.parents || (m.parents == n.parents && m.attempts < n.attempts)
  }

  predicate NotAbove(m: Measure, n: Measure) {
    m == n || Below(m, n)
  }

  /** Each activity has at most one row per inbox. */
  ghost predicate OneRowPerInbox(rows: seq<Row>) {
    forall i, j :: 0 <= i < j < |rows| && rows[i].inbox.Some? && rows[i].inbox == rows[j].inbox
                   ==> rows[i].activity != rows[j].activity
  }

  /** Closed rows stay as they are. */
  ghost predicate KeepsClosed(rows: seq<Row>, rows': seq<Row>) {
    |rows| <= |rows'| && forall i :: 0 <= i < |rows| && !rows[i].Open() ==> rows'[i] == rows[i]
  }

  // ---- What a batch meets -------------------------------------------------------------------

  datatype SendResult = MissingAccount | BlockedDomain | Sent(outcome: Rules.Outcome)

  /** Everything outside the table that decides one batch: the clock, followers, blocks, relays and remote servers. */
  datatype Env = Env(stale: nat -> bool, due: nat -> bool, followers: map<Account, seq<Inbox>>,
                     blocks: map<Account, seq<string>>, relays: seq<Inbox>, hostOf: Inbox -> Option<string>,
                     result: nat -> SendResult)

  datatype Summary = Summary(expanded: nat, delivered: nat, failed: nat, completedWithoutTargets: nat)

  predicate MadeProgress(s: Summary) {
    s.expanded > 0 || s.delivered > 0 || s.failed > 0 || s.completedWithoutTargets > 0
  }

  predicate PendingWork(rows: seq<Row>, env: Env) {
    exists i :: 0 <= i < |rows| &&
      ((rows[i].state == Queued && env.due(i)) || (rows[i].state == InFlight && env.stale(i)))
  }

  /** `attempt_count.saturating_add(1)` in 32 bits. */
  function OneMore(attempts: nat): nat {
    if attempts >= 0x7fff_ffff then 0x7fff_ffff else attempts + 1
  }

  function Requeued(r: Row, stale: bool): Row {
    if r.state != InFlight || !stale then r
    else r.(attempts := r.attempts + 1,
            state := if r.attempts + 1 >= Rules.DELIVERY_MAX_ATTEMPTS then Failed else Queued)
  }

  /** A claimed target row after its delivery was tried. */
  function AfterSend(r: Row, result: SendResult): Row {
    var next := OneMore(r.attempts);
    match result
    case MissingAccount => r.(state := Failed, attempts := next)
    case BlockedDomain => r.(state := Failed, attempts := next)
    case Sent(Success) => r.(state := Delivered)
    case Sent(PermanentFailure) => r.(state := Failed, attempts := next)
    case Sent(Failure) => r.(attempts := next, state := if next >= Rules.DELIVERY_MAX_ATTEMPTS then Failed else Queued)
  }

  predicate Claimable(r: Row, parents: bool, due: bool) {
    r.state == Queued && due && (r.inbox.None? <==> parents)
  }

  /** The first `limit` due rows of a kind, in creation order; all of them when there are fewer. */
  ghost predicate Picks(rows: seq<Row>, parents: bool, due: nat -> bool, limit: nat, claimed: seq<nat>) {
    && |claimed| <= limit
    && (forall k :: 0 <= k < |claimed| ==> claimed[k] < |rows| && Claimable(rows[claimed[k]], parents, due(claimed[k])))
    && (forall j, k :: 0 <= j < k < |claimed| ==> claimed[j] < claimed[k])
    && (forall i :: 0 <= i < |rows| && i !in claimed && Claimable(rows[i], parents, due(i))
                    ==> |claimed| == limit && forall k :: 0 <= k < |claimed| ==> claimed[k] < i)
  }

  /** A claim puts the rows it picks in flight. */
  ghost predicate Claims(rows: seq<Row>, rows': seq<Row>, parents: bool, due: nat -> bool, limit: nat, claimed: seq<nat>) {
    && Picks(rows, parents, due, limit, claimed)
    && |rows'| == |rows|
    && forall i :: 0 <= i < |rows| ==> rows'[i] == if i in claimed then rows[i].(state := InFlight) else rows[i]
  }

  /** The rows after a fan-out: claimed parents are closed, and everything new is a fresh target row. */
  ghost predicate Expands(rows: seq<Row>, rows': seq<Row>, claimed: seq<nat>, plan: map<Account, seq<Inbox>>) {
    && |rows| <= |rows'|
    && (forall i :: 0 <= i < |rows| ==>
          (rows'[i] == if i !in claimed then rows[i]
                       else rows[i].(state := if TargetsIn(plan, rows[i].account) == [] then Delivered else Expanded)))
    && FreshFrom(rows', |rows|)
  }

  /** From position n on there are only queued target rows that were never attempted. */
  ghost predicate FreshFrom(rows: seq<Row>, n: nat) {
    forall i :: n <= i < |rows| ==> rows[i].inbox.Some? && rows[i].state == Queued && rows[i].attempts == 0
  }

  /** A target row that the fan-out of this parent asks for. */
  ghost predicate PlannedFrom(parent: Row, row: Row, plan: map<Account, seq<Inbox>>) {
    && row.inbox.Some? && row.inbox.value in TargetsIn(plan, parent.account)
    && row.activity == parent.activity && row.account == parent.account && row.relayCandidate == parent.relayCandidate
  }

  /** No row beyond position n that no parent asked for. */
  ghost predicate OnlyPlanned(parents: seq<Row>, ids: seq<nat>, rows: seq<Row>, n: nat, plan: map<Account, seq<Inbox>>)
    requires forall k :: 0 <= k < |ids| ==> ids[k] < |parents|
  {
    forall i :: n <= i < |rows| ==> PlannedFromSome(parents, ids, rows[i], plan)
  }

  ghost predicate PlannedFromSome(parents: seq<Row>, ids: seq<nat>, row: Row, plan: map<Account, seq<Inbox>>)
    requires forall k :: 0 <= k < |ids| ==> ids[k] < |parents|
  {
    exists id :: id in ids && PlannedFrom(parents[id], row, plan)
  }

  lemma MorePlanned(parents: seq<Row>, ids: seq<nat>, id: nat, before: seq<Row>, rows: seq<Row>, n: nat,
                    plan: map<Account, seq<Inbox>>)
    requires (forall k :: 0 <= k < |ids| ==> ids[k] < |parents|) && id < |parents|
    requires n <= |before| <= |rows| && rows[..|before|] == before
    requires OnlyPlanned(parents, ids, before, n, plan)
    requires forall i :: |before| <= i < |rows| ==> PlannedFrom(parents[id], rows[i], plan)
    ensures OnlyPlanned(parents, ids + [id], rows, n, plan)
  {
    hide PlannedFrom;
    var longer := ids + [id];
    forall i | n <= i < |rows|
      ensures PlannedFromSome(parents, longer, rows[i], plan)
    {
      if i < |before| {
        assert rows[i] == rows[..|before|][i];
        var d :| d in ids && PlannedFrom(parents[d], before[i], plan);
        assert d in longer && PlannedFrom(parents[d], rows[i], plan);
      } else {
        assert id in longer && PlannedFrom(parents[id], rows[i], plan);
      }
    }
  }

  lemma StillFresh(before: seq<Row>, rows: seq<Row>, n: nat)
    requires n <= |before| <= |rows| && rows[..|before|] == before
    requires FreshFrom(before, n) && FreshFrom(rows, |before|)
    ensures FreshFrom(rows, n)
  {
    assert forall i :: 0 <= i < |before| ==> rows[i] == rows[..|before|][i];
  }

  // ---- What each part of a batch does to the measure ----------------------------------------

  lemma RequeueMeasure(rows: seq<Row>, rows': seq<Row>, stale: nat -> bool)
    requires |rows'| == |rows|
    requires forall i :: 0 <= i < |rows| ==> rows'[i] == Requeued(rows[i], stale(i))
    ensures NotAbove(MeasureOf(rows'), MeasureOf(rows))
    ensures KeepsClosed(rows, rows') && (OneRowPerInbox(rows) ==> OneRowPerInbox(rows'))
  {
    TotalMonotone(rows, rows', ParentWeight());
    TotalMonotone(rows, rows', AttemptWeight());
  }

  lemma ClaimMeasure(rows: seq<Row>, rows': seq<Row>, parents: bool, due: nat -> bool, limit: nat, claimed: seq<nat>)
    requires Claims(rows, rows', parents, due, limit, claimed)
    ensures MeasureOf(rows') == MeasureOf(rows)
  {
    forall i | 0 <= i < |rows|
      ensures rows'[i] == rows[i] || (rows[i].state == Queued && rows'[i] == rows[i].(state := InFlight))
    {
      if i in claimed {
        var k :| 0 <= k < |claimed| && claimed[k] == i;
        assert Claimable(rows[claimed[k]], parents, due(claimed[k]));
      }
    }
    TotalMonotone(rows, rows', ParentWeight());
    TotalMonotone(rows', rows, ParentWeight());
    TotalMonotone(rows, rows', AttemptWeight());
    TotalMonotone(rows', rows, AttemptWeight());
  }

  /** Fanning out adds rows, yet lowers the measure: it closes parents. */
  lemma ExpandMeasure(rows: seq<Row>, rows': seq<Row>, claimed: seq<nat>, plan: map<Account, seq<Inbox>>)
    requires Expands(rows, rows', claimed, plan)
    requires forall k :: 0 <= k < |claimed| ==>
      claimed[k] < |rows| && rows[claimed[k]].state == InFlight && rows[claimed[k]].inbox.None?
    ensures claimed != [] ==> OpenParents(rows') < OpenParents(rows)
  {
    var kept, added := rows'[..|rows|], rows'[|rows|..];
    assert rows' == kept + added;
    TotalAppend(kept, added, ParentWeight());
    TotalMonotone(rows, kept, ParentWeight());
    NoParents(added);
    if claimed != [] {
      assert kept[claimed[0]] == rows'[claimed[0]];
      assert ParentWeight()(kept[claimed[0]]) < ParentWeight()(rows[claimed[0]]);
    }
  }

  lemma {:induction false} NoParents(rows: seq<Row>)
    requires forall i :: 0 <= i < |rows| ==> rows[i].inbox.Some?
    ensures OpenParents(rows) == 0
  {
    if rows != [] {
      NoParents(rows[..|rows| - 1]);
    }
  }

  lemma SendMeasure(rows: seq<Row>, rows': seq<Row>, claimed: seq<nat>, result: nat -> SendResult)
    requires |rows'| == |rows|
    requires forall k :: 0 <= k < |claimed| ==>
      claimed[k] < |rows| && rows[claimed[k]].state == InFlight && rows[claimed[k]].inbox.Some?
    requires forall i :: 0 <= i < |rows| ==> rows'[i] == if i in claimed then AfterSend(rows[i], result(i)) else rows[i]
    ensures OpenParents(rows') == OpenParents(rows)
    ensures if claimed == [] then AttemptsLeft(rows') == AttemptsLeft(rows) else AttemptsLeft(rows') < AttemptsLeft(rows)
  {
    forall i | 0 <= i < |rows|
      ensures ParentWeight()(rows'[i]) == ParentWeight()(rows[i])
      ensures AttemptWeight()(rows'[i]) <= AttemptWeight()(rows[i])
      ensures i in claimed ==> AttemptWeight()(rows'[i]) < AttemptWeight()(rows[i])
    {
      if i in claimed {
        var k :| 0 <= k < |claimed| && claimed[k] == i;
        assert rows[claimed[k]].state == InFlight;
      }
    }
    TotalMonotone(rows, rows', ParentWeight());
    TotalMonotone(rows', rows, ParentWeight());
    TotalMonotone(rows, rows', AttemptWeight());
    if claimed == [] {
      assert rows' == rows;
    } else {
      assert claimed[0] in claimed;
    }
  }

  /** The worker's bookkeeping of a send is the shared retry rule. */
  lemma SendFollowsRules(r: Row, outcome: Rules.Outcome)
    requires r.Open() && r.attempts <= 0x7fff_ffff
    ensures var next := Rules.SlotAfterAttempt(Rules.Slot(Rules.Queued, r.attempts), outcome);
      && AfterSend(r, Sent(outcome)).attempts == next.attempts
      && AfterSend(r, Sent(outcome)).state ==
           (match next.state case Queued => Queued case Delivered => Delivered case Failed => Failed)
  {
  }

  predicate HasRow(rows: seq<Row>, activity: nat, inbox: Inbox) {
    exists i :: 0 <= i < |rows| && rows[i].activity == activity && rows[i].inbox == Some(inbox)
  }

  lemma AppendKeepsRows(rows: seq<Row>, row: Row)
    requires OneRowPerInbox(rows) && row.inbox.Some? && !HasRow(rows, row.activity, row.inbox.value)
    ensures OneRowPerInbox(rows + [row]) && HasRow(rows + [row], row.activity, row.inbox.value)
    ensures forall a, t :: HasRow(rows, a, t) ==> HasRow(rows + [row], a, t)
  {
    assert (rows + [row])[|rows|] == row;
    forall a, t | HasRow(rows, a, t)
      ensures HasRow(rows + [row], a, t)
    {
      var i :| 0 <= i < |rows| && rows[i].activity == a && rows[i].inbox == Some(t);
      assert (rows + [row])[i] == rows[i];
    }
  }

  lemma KeepsClosedSelf(rows: seq<Row>)
    ensures KeepsClosed(rows, rows)
  {
  }

  lemma KeepsClosedTwice(a: seq<Row>, b: seq<Row>, c: seq<Row>)
    requires KeepsClosed(a, b) && KeepsClosed(b, c)
    ensures KeepsClosed(a, c)
  {
  }

  lemma SameRows(rows: seq<Row>, rows': seq<Row>)
    requires OneRowPerInbox(rows) && |rows'| == |rows|
    requires forall i :: 0 <= i < |rows| ==> rows'[i].activity == rows[i].activity && rows'[i].inbox == rows[i].inbox
    ensures OneRowPerInbox(rows')
  {
  }

  lemma KeepsHasRow(rows: seq<Row>, rows': seq<Row>)
    requires |rows| <= |rows'|
    requires forall i :: 0 <= i < |rows| ==> rows'[i].activity == rows[i].activity && rows'[i].inbox == rows[i].inbox
    ensures forall a, t :: HasRow(rows, a, t) ==> HasRow(rows', a, t)
  {
    forall a, t | HasRow(rows, a, t)
      ensures HasRow(rows', a, t)
    {
      var i :| 0 <= i < |rows| && rows[i].activity == a && rows[i].inbox == Some(t);
      assert rows'[i].activity == a;
    }
  }

  function DeliveriesOf(rows: seq<Row>, claimed: seq<nat>): (r: seq<Delivery>)
    requires forall k :: 0 <= k < |claimed| ==> claimed[k] < |rows|
  {
    if claimed == [] then []
    else
      var n := |claimed| - 1;
      DeliveriesOf(rows, claimed[..n]) + [DeliveryOf(rows, claimed[n])]
  }

  function DeliveryOf(rows: seq<Row>, c: nat): Delivery
    requires c < |rows|
  {
    Delivery(c, rows[c].account, rows[c].relayCandidate)
  }

  function IdsOf(deliveries: seq<Delivery>): (r: seq<nat>)
    ensures |r| == |deliveries| && forall k :: 0 <= k < |r| ==> r[k] == deliveries[k].id
  {
    if deliveries == [] then []
    else
      var n := |deliveries| - 1;
      IdsOf(deliveries[..n]) + [deliveries[n].id]
  }

  lemma IdsSnoc(init: seq<Delivery>, last: Delivery)
    ensures IdsOf(init + [last]) == IdsOf(init) + [last.id]
  {
    assert (init + [last])[..|init|] == init;
  }

  ghost predicate FromTable(rows: seq<Row>, deliveries: seq<Delivery>) {
    forall k :: 0 <= k < |deliveries| ==> deliveries[k].id < |rows| && deliveries[k] == DeliveryOf(rows, deliveries[k].id)
  }

  lemma NothingSelected(rows: seq<Row>, plan: map<Account, seq<Inbox>>, side: bool)
    ensures Selected(DeliveriesOf(rows, []), plan, side) == [] && IdsOf([]) == []
  {
  }

  lemma LastDelivery(rows: seq<Row>, claimed: seq<nat>)
    requires claimed != [] && forall k :: 0 <= k < |claimed| ==> claimed[k] < |rows|
    ensures var n := |claimed| - 1;
      DeliveriesOf(rows, claimed) == DeliveriesOf(rows, claimed[..n]) + [DeliveryOf(rows, claimed[n])]
  {
  }

  /** The ids of the claimed rows whose account has targets in the plan, or of those that have none. */
  ghost predicate IsSide(rows: seq<Row>, claimed: seq<nat>, plan: map<Account, seq<Inbox>>, side: bool, ids: seq<nat>)
    requires forall k :: 0 <= k < |claimed| ==> claimed[k] < |rows|
  {
    forall i :: i in ids <==> i in claimed && ((TargetsIn(plan, rows[i].account) != []) == side)
  }

  lemma SideMeaning(rows: seq<Row>, claimed: seq<nat>, plan: map<Account, seq<Inbox>>, side: bool, ids: seq<nat>)
    requires forall k :: 0 <= k < |claimed| ==> claimed[k] < |rows|
    requires IsSide(rows, claimed, plan, side, ids)
    ensures forall i :: i in ids <==> i in claimed && ((TargetsIn(plan, rows[i].account) != []) == side)
  {
  }

  predicate OnSide(plan: map<Account, seq<Inbox>>, d: Delivery, side: bool) {
    (TargetsIn(plan, d.account) != []) == side
  }

  lemma SideSnoc(rows: seq<Row>, claimed: seq<nat>, c: nat, plan: map<Account, seq<Inbox>>, side: bool, ids: seq<nat>)
    requires c < |rows| && (forall k :: 0 <= k < |claimed| ==> claimed[k] < |rows|)
    requires IsSide(rows, claimed, plan, side, ids)
    ensures IsSide(rows, claimed + [c], plan, side, if OnSide(plan, DeliveryOf(rows, c), side) then ids + [c] else ids)
  {
    hide TargetsIn;
  }

  lemma FromTableSnoc(rows: seq<Row>, deliveries: seq<Delivery>, c: nat)
    requires FromTable(rows, deliveries) && c < |rows|
    ensures FromTable(rows, deliveries + [DeliveryOf(rows, c)])
  {
  }

  lemma NothingFromTable(rows: seq<Row>, plan: map<Account, seq<Inbox>>, side: bool)
    ensures IsSide(rows, [], plan, side, []) && FromTable(rows, [])
  {
  }

  lemma SelectedOneMore(ds: seq<Delivery>, one: Delivery, plan: map<Account, seq<Inbox>>, side: bool)
    ensures Selected(ds + [one], plan, side) ==
            if OnSide(plan, one, side) then Selected(ds, plan, side) + [one] else Selected(ds, plan, side)
  {
    SelectedSnoc(ds, one, plan, side);
    hide Selected;
    hide TargetsIn;
  }

  /** The two sides of the partition as positions in the table. */
  lemma {:induction false} SelectedIds(rows: seq<Row>, claimed: seq<nat>, plan: map<Account, seq<Inbox>>, side: bool)
    requires forall k :: 0 <= k < |claimed| ==> claimed[k] < |rows|
    ensures IsSide(rows, claimed, plan, side, IdsOf(Selected(DeliveriesOf(rows, claimed), plan, side)))
    ensures FromTable(rows, Selected(DeliveriesOf(rows, claimed), plan, side))
  {
    hide *;
    if claimed == [] {
      NothingSelected(rows, plan, side);
      NothingFromTable(rows, plan, side);
    } else {
      var n := |claimed| - 1;
      var init, c := claimed[..n], claimed[n];
      var s := Selected(DeliveriesOf(rows, init), plan, side);
      SelectedIds(rows, init, plan, side);
      LastDelivery(rows, claimed);
      SelectedOneMore(DeliveriesOf(rows, init), DeliveryOf(rows, c), plan, side);
      SideSnoc(rows, init, c, plan, side, IdsOf(s));
      FromTableSnoc(rows, s, c);
      IdsSnoc(s, DeliveryOf(rows, c));
      DeliveryId(rows, c);
      assert claimed == init + [c];
    }
  }

  lemma DeliveryId(rows: seq<Row>, c: nat)
    requires c < |rows|
    ensures DeliveryOf(rows, c).id == c
  {
  }

  lemma SidesCover(rows: seq<Row>, claimed: seq<nat>, plan: map<Account, seq<Inbox>>)
    requires forall k :: 0 <= k < |claimed| ==> claimed[k] < |rows|
    ensures var ds := DeliveriesOf(rows, claimed);
      var withTargets, without := Selected(ds, plan, true), Selected(ds, plan, false);
      && IsSide(rows, claimed, plan, true, IdsOf(withTargets)) && IsSide(rows, claimed, plan, false, IdsOf(without))
      && (forall k :: 0 <= k < |withTargets| ==> withTargets[k].id < |rows|)
      && (forall k :: 0 <= k < |without| ==> without[k].id < |rows|)
      && (forall k :: 0 <= k < |withTargets| ==> TargetsIn(plan, withTargets[k].account) != [])
      && (claimed != [] ==> withTargets != [] || without != [])
  {
    hide Selected;
    hide TargetsIn;
    hide DeliveriesOf;
    SelectedIds(rows, claimed, plan, true);
    SelectedIds(rows, claimed, plan, false);
    SelectedOnSide(DeliveriesOf(rows, claimed), plan, true);
    if claimed != [] {
      var s := Selected(DeliveriesOf(rows, claimed), plan, TargetsIn(plan, rows[claimed[0]].account) != []);
      assert claimed[0] in IdsOf(s);
    }
  }

  /** Closing one side, adding rows, and closing the other side is a fan-out. */
  lemma ExpandedByParts(rows: seq<Row>, closed: seq<Row>, inserted: seq<Row>, done: seq<Row>, claimed: seq<nat>,
                        withIds: seq<nat>, withoutIds: seq<nat>, plan: map<Account, seq<Inbox>>)
    requires forall k :: 0 <= k < |claimed| ==> claimed[k] < |rows|
    requires IsSide(rows, claimed, plan, true, withIds) && IsSide(rows, claimed, plan, false, withoutIds)
    requires |closed| == |rows| <= |inserted| == |done|
    requires forall i :: 0 <= i < |rows| ==>
      closed[i] == if i in withoutIds then rows[i].(state := Delivered) else rows[i]
    requires inserted[..|rows|] == closed && FreshFrom(inserted, |rows|)
    requires forall i :: 0 <= i < |done| ==>
      done[i] == if i in withIds then inserted[i].(state := Expanded) else inserted[i]
    ensures Expands(rows, done, claimed, plan)
  {
    hide TargetsIn;
    assert forall i :: 0 <= i < |rows| ==> inserted[i] == inserted[..|rows|][i];
  }

  /** Those to be marked expanded are still in flight. */
  lemma StillInFlight(rows: seq<Row>, closed: seq<Row>, inserted: seq<Row>, claimed: seq<nat>, withIds: seq<nat>,
                      withoutIds: seq<nat>, plan: map<Account, seq<Inbox>>)
    requires forall k :: 0 <= k < |claimed| ==> claimed[k] < |rows| && rows[claimed[k]].state == InFlight
    requires IsSide(rows, claimed, plan, true, withIds) && IsSide(rows, claimed, plan, false, withoutIds)
    requires |closed| == |rows| <= |inserted| && inserted[..|rows|] == closed
    requires forall i :: 0 <= i < |rows| ==>
      closed[i] == if i in withoutIds then rows[i].(state := Delivered) else rows[i]
    ensures forall i :: i in withIds ==> i < |inserted| && inserted[i].state == InFlight
  {
    hide TargetsIn;
    forall i | i in withIds
      ensures i < |inserted| && inserted[i].state == InFlight
    {
      assert i in claimed && i !in withoutIds;
      var k :| 0 <= k < |claimed| && claimed[k] == i;
      assert rows[claimed[k]].state == InFlight;
      assert inserted[i] == inserted[..|rows|][i] == closed[i];
    }
  }

  /** How many rows a fan-out asks for: distinct inboxes, summed over the deliveries. */
  function TargetCount(deliveries: seq<Delivery>, plan: map<Account, seq<Inbox>>): nat {
    if deliveries == [] then 0
    else
      var n := |deliveries| - 1;
      TargetCount(deliveries[..n], plan) + |set t | t in TargetsIn(plan, deliveries[n].account)|
  }

  lemma OneMoreCounted(init: seq<Delivery>, last: Delivery, plan: map<Account, seq<Inbox>>)
    ensures TargetCount(init + [last], plan) ==
            TargetCount(init, plan) + |set t | t in TargetsIn(plan, last.account)|
  {
    hide TargetsIn;
    assert (init + [last])[..|init|] == init;
  }

  lemma NothingCounted(plan: map<Account, seq<Inbox>>)
    ensures TargetCount([], plan) == 0
  {
  }

  lemma StillFromTable(rows: seq<Row>, rows': seq<Row>, deliveries: seq<Delivery>)
    requires FromTable(rows, deliveries) && |rows'| == |rows|
    requires forall i :: 0 <= i < |rows| ==> rows'[i] == rows[i] || rows'[i] == rows[i].(state := Delivered)
    ensures FromTable(rows', deliveries)
  {
  }

  lemma NoneFresh(rows: seq<Row>)
    ensures FreshFrom(rows, |rows|) && rows[..|rows|] == rows
  {
  }

  lemma {:induction false} EachHasRows(rows: seq<Row>, done: seq<Row>, claimed: seq<nat>, withTargets: seq<Delivery>,
                    plan: map<Account, seq<Inbox>>)
    requires forall k :: 0 <= k < |claimed| ==> claimed[k] < |rows|
    requires FromTable(rows, withTargets) && IsSide(rows, claimed, plan, true, IdsOf(withTargets))
    requires forall k, t :: 0 <= k < |withTargets| && t in TargetsIn(plan, withTargets[k].account)
                            ==> HasRow(done, rows[withTargets[k].id].activity, t)
    ensures forall c, t :: c in claimed && t in TargetsIn(plan, rows[c].account) ==> HasRow(done, rows[c].activity, t)
  {
    forall c, t | c in claimed && t in TargetsIn(plan, rows[c].account)
      ensures HasRow(done, rows[c].activity, t)
    {
      assert TargetsIn(plan, rows[c].account) != [];
      assert c in IdsOf(withTargets);
      var k :| 0 <= k < |withTargets| && IdsOf(withTargets)[k] == c;
      assert withTargets[k].account == rows[c].account;
    }
  }

  lemma TargetPresent(targets: seq<Inbox>)
    ensures targets != [] ==> |set t | t in targets| > 0
  {
    var distinct := set t | t in targets;
    if targets != [] {
      assert targets[0] in distinct;
    }
  }

  lemma SomeCounted(deliveries: seq<Delivery>, plan: map<Account, seq<Inbox>>)
    requires forall k :: 0 <= k < |deliveries| ==> TargetsIn(plan, deliveries[k].account) != []
    ensures deliveries != [] ==> TargetCount(deliveries, plan) > 0
  {
    if deliveries != [] {
      TargetPresent(TargetsIn(plan, deliveries[|deliveries| - 1].account));
    }
  }

  lemma NothingPlanned(parents: seq<Row>, ids: seq<nat>, rows: seq<Row>, plan: map<Account, seq<Inbox>>)
    requires forall k :: 0 <= k < |ids| ==> ids[k] < |parents|
    ensures OnlyPlanned(parents, ids, rows, |rows|, plan)
  {
  }

  lemma PlannedByClaimed(rows: seq<Row>, closed: seq<Row>, claimed: seq<nat>, withIds: seq<nat>, inserted: seq<Row>,
                         done: seq<Row>, plan: map<Account, seq<Inbox>>)
    requires forall k :: 0 <= k < |claimed| ==> claimed[k] < |rows|
    requires |closed| == |rows| <= |inserted| == |done|
    requires IsSide(rows, claimed, plan, true, withIds)
    requires forall k :: 0 <= k < |withIds| ==> withIds[k] < |rows|
    requires forall i :: 0 <= i < |rows| ==> closed[i] == rows[i] || closed[i] == rows[i].(state := Delivered)
    requires forall i :: 0 <= i < |done| ==> done[i] == inserted[i] || done[i] == inserted[i].(state := Expanded)
    requires OnlyPlanned(closed, withIds, inserted, |rows|, plan)
    ensures OnlyPlanned(rows, claimed, done, |rows|, plan)
  {
    hide TargetsIn;
    forall i | |rows| <= i < |done|
      ensures PlannedFromSome(rows, claimed, done[i], plan)
    {
      assert PlannedFromSome(closed, withIds, inserted[i], plan);
      var id :| id in withIds && PlannedFrom(closed[id], inserted[i], plan);
      assert id in claimed && PlannedFrom(rows[id], done[i], plan);
    }
  }

  /** The table with fresh rows for every target of these deliveries, and no others. */
  ghost predicate InsertedFor(orig: seq<Row>, rows: seq<Row>, deliveries: seq<Delivery>, plan: map<Account, seq<Inbox>>)
    requires FromTable(orig, deliveries)
  {
    && |orig| <= |rows| && rows[..|orig|] == orig
    && FreshFrom(rows, |orig|) && OnlyPlanned(orig, IdsOf(deliveries), rows, |orig|, plan)
    && forall k, t :: 0 <= k < |deliveries| && t in TargetsIn(plan, deliveries[k].account)
                      ==> HasRow(rows, orig[deliveries[k].id].activity, t)
  }

  lemma WhatWasInserted(orig: seq<Row>, rows: seq<Row>, deliveries: seq<Delivery>, plan: map<Account, seq<Inbox>>)
    requires FromTable(orig, deliveries) && InsertedFor(orig, rows, deliveries, plan)
    ensures |orig| <= |rows| && rows[..|orig|] == orig && FreshFrom(rows, |orig|)
    ensures (forall k :: 0 <= k < |deliveries| ==> deliveries[k].id < |orig|)
            && OnlyPlanned(orig, IdsOf(deliveries), rows, |orig|, plan)
    ensures forall k, t :: 0 <= k < |deliveries| && t in TargetsIn(plan, deliveries[k].account)
                           ==> HasRow(rows, orig[deliveries[k].id].activity, t)
  {
    hide HasRow;
    hide OnlyPlanned;
    hide TargetsIn;
  }

  lemma NothingInserted(rows: seq<Row>, plan: map<Account, seq<Inbox>>)
    ensures FromTable(rows, []) && InsertedFor(rows, rows, [], plan)
  {
  }

  lemma ParentStays(orig: seq<Row>, rows: seq<Row>, deliveries: seq<Delivery>, k: nat, plan: map<Account, seq<Inbox>>)
    requires FromTable(orig, deliveries) && k < |deliveries|
    requires FromTable(orig, deliveries[..k]) && InsertedFor(orig, rows, deliveries[..k], plan)
    ensures deliveries[k].id < |orig| <= |rows| && rows[deliveries[k].id] == orig[deliveries[k].id]
    ensures FromTable(orig, deliveries[..k + 1])
    ensures deliveries[k].account == orig[deliveries[k].id].account
  {
    assert rows[deliveries[k].id] == rows[..|orig|][deliveries[k].id];
  }

  lemma OneMoreInserted(orig: seq<Row>, before: seq<Row>, rows: seq<Row>, deliveries: seq<Delivery>, d: Delivery,
                        plan: map<Account, seq<Inbox>>)
    requires FromTable(orig, deliveries) && FromTable(orig, deliveries + [d])
    requires d.id < |orig| && d.account == orig[d.id].account
    requires InsertedFor(orig, before, deliveries, plan)
    requires |before| <= |rows| && rows[..|before|] == before && FreshFrom(rows, |before|)
    requires forall i :: |before| <= i < |rows| ==>
      rows[i].inbox.value in TargetsIn(plan, d.account) && rows[i].activity == orig[d.id].activity
      && rows[i].account == orig[d.id].account && rows[i].relayCandidate == orig[d.id].relayCandidate
    requires forall t :: t in TargetsIn(plan, d.account) ==> HasRow(rows, orig[d.id].activity, t)
    ensures InsertedFor(orig, rows, deliveries + [d], plan)
  {
    hide HasRow;
    hide OnlyPlanned;
    hide IdsOf;
    assert rows[..|orig|] == rows[..|before|][..|orig|];
    StillFresh(before, rows, |orig|);
    assert forall i :: 0 <= i < |before| ==> rows[i] == rows[..|before|][i];
    KeepsHasRow(before, rows);
    IdsSnoc(deliveries, d);
    MorePlanned(orig, IdsOf(deliveries), d.id, before, rows, |orig|, plan);
  }

  // ---- What one batch does to the table, as a whole -----------------------------------------

  ghost predicate IsRequeue(rows: seq<Row>, rows': seq<Row>, env: Env) {
    |rows'| == |rows| && forall i :: 0 <= i < |rows| ==> rows'[i] == Requeued(rows[i], env.stale(i))
  }

  /** The inboxes planned for the batch's parents. */
  ghost predicate IsPlan(plan: map<Account, seq<Inbox>>, rows: seq<Row>, claimed: seq<nat>, env: Env)
    requires forall k :: 0 <= k < |claimed| ==> claimed[k] < |rows|
  {
    forall a :: PlanHas(plan, a, PlannedFor(a, DeliveriesOf(rows, claimed), env.followers, env.blocks, env.relays, env.hostOf))
  }

  /** Up to 16 due parents are closed, and there is a row for each of their planned inboxes and none besides. */
  ghost predicate FansOut(rows: seq<Row>, rows': seq<Row>, env: Env, claimed: seq<nat>, plan: map<Account, seq<Inbox>>) {
    && Picks(rows, true, env.due, 16, claimed) && IsPlan(plan, rows, claimed, env)
    && Expands(rows, rows', claimed, plan) && OnlyPlanned(rows, claimed, rows', |rows|, plan)
    && forall c, t :: c in claimed && t in TargetsIn(plan, rows[c].account) ==> HasRow(rows', rows[c].activity, t)
  }

  ghost predicate IsFanOut(rows: seq<Row>, rows': seq<Row>, env: Env) {
    exists claimed, plan :: FansOut(rows, rows', env, claimed, plan)
  }

  /** Up to 32 due target rows are tried once. */
  ghost predicate Sends(rows: seq<Row>, rows': seq<Row>, env: Env, claimed: seq<nat>) {
    && Picks(rows, false, env.due, 32, claimed) && |rows'| == |rows|
    && forall i :: 0 <= i < |rows| ==> rows'[i] == if i in claimed then AfterSend(rows[i], env.result(i)) else rows[i]
  }

  ghost predicate IsSend(rows: seq<Row>, rows': seq<Row>, env: Env) {
    exists claimed :: Sends(rows, rows', env, claimed)
  }

  ghost predicate BatchThrough(rows: seq<Row>, requeued: seq<Row>, fannedOut: seq<Row>, rows': seq<Row>, env: Env) {
    IsRequeue(rows, requeued, env) && IsFanOut(requeued, fannedOut, env) && IsSend(fannedOut, rows', env)
  }

  /** Stale rows go back, parents fan out, targets are tried: in this order. */
  ghost predicate IsBatch(rows: seq<Row>, rows': seq<Row>, env: Env) {
    exists requeued, fannedOut :: BatchThrough(rows, requeued, fannedOut, rows', env)
  }

  /** The tables between batches, one batch for each environment. */
  ghost predicate IsDrain(tables: seq<seq<Row>>, envs: nat -> Env) {
    tables != [] && forall k :: 0 < k < |tables| ==> IsBatch(tables[k - 1], tables[k], envs(k - 1))
  }

  lemma OneMoreBatch(tables: seq<seq<Row>>, rows: seq<Row>, envs: nat -> Env)
    requires IsDrain(tables, envs) && IsBatch(tables[|tables| - 1], rows, envs(|tables| - 1))
    ensures IsDrain(tables + [rows], envs)
  {
    hide IsBatch;
    var longer := tables + [rows];
    forall k | 0 < k < |longer|
      ensures IsBatch(longer[k - 1], longer[k], envs(k - 1))
    {
    }
  }

  lemma {:induction false} SameDeliveries(rows: seq<Row>, inFlight: seq<Row>, claimed: seq<nat>)
    requires |inFlight| == |rows| && forall k :: 0 <= k < |claimed| ==> claimed[k] < |rows|
    requires forall i :: 0 <= i < |rows| ==> inFlight[i] == rows[i] || inFlight[i] == rows[i].(state := InFlight)
    ensures DeliveriesOf(inFlight, claimed) == DeliveriesOf(rows, claimed)
  {
    if claimed != [] {
      SameDeliveries(rows, inFlight, claimed[..|claimed| - 1]);
    }
  }

  lemma ClaimedThenExpanded(rows: seq<Row>, inFlight: seq<Row>, rows': seq<Row>, env: Env, claimed: seq<nat>,
                            plan: map<Account, seq<Inbox>>)
    requires Claims(rows, inFlight, true, env.due, GENERIC_BATCH, claimed)
    requires IsPlan(plan, inFlight, claimed, env)
    requires Expands(inFlight, rows', claimed, plan) && OnlyPlanned(inFlight, claimed, rows', |rows|, plan)
    requires forall c, t :: c in claimed && t in TargetsIn(plan, inFlight[c].account) ==> HasRow(rows', inFlight[c].activity, t)
    ensures IsFanOut(rows, rows', env)
  {
    hide HasRow;
    hide PlanHas;
    hide PlannedFor;
    hide DeliveriesOf;
    SameDeliveries(rows, inFlight, claimed);
    PlannedAfterClaim(rows, inFlight, claimed, rows', plan);
    hide TargetsIn;
    hide OnlyPlanned;
    assert FansOut(rows, rows', env, claimed, plan);
  }

  lemma PlannedAfterClaim(rows: seq<Row>, inFlight: seq<Row>, claimed: seq<nat>, rows': seq<Row>,
                          plan: map<Account, seq<Inbox>>)
    requires |inFlight| == |rows| && forall k :: 0 <= k < |claimed| ==> claimed[k] < |rows|
    requires forall i :: 0 <= i < |rows| ==> inFlight[i] == rows[i] || inFlight[i] == rows[i].(state := InFlight)
    requires OnlyPlanned(inFlight, claimed, rows', |rows|, plan)
    ensures OnlyPlanned(rows, claimed, rows', |rows|, plan)
  {
    hide TargetsIn;
    forall i | |rows| <= i < |rows'|
      ensures PlannedFromSome(rows, claimed, rows'[i], plan)
    {
      assert PlannedFromSome(inFlight, claimed, rows'[i], plan);
      var id :| id in claimed && PlannedFrom(inFlight[id], rows'[i], plan);
      assert PlannedFrom(rows[id], rows'[i], plan);
    }
  }

  lemma ClaimedThenSent(rows: seq<Row>, inFlight: seq<Row>, rows': seq<Row>, env: Env, claimed: seq<nat>)
    requires Claims(rows, inFlight, false, env.due, TARGET_BATCH, claimed) && |rows'| == |rows|
    requires forall i :: 0 <= i < |rows| ==>
      rows'[i] == if i in claimed then AfterSend(inFlight[i], env.result(i)) else inFlight[i]
    ensures IsSend(rows, rows', env)
  {
    assert Sends(rows, rows', env, claimed);
  }

  lemma NothingFansOut(rows: seq<Row>, env: Env)
    requires Picks(rows, true, env.due, GENERIC_BATCH, [])
    ensures IsFanOut(rows, rows, env)
  {
    var deliveries := DeliveriesOf(rows, []);
    var plan: map<Account, seq<Inbox>> :=
      map a | a in env.followers.Keys
              && PlannedFor(a, deliveries, env.followers, env.blocks, env.relays, env.hostOf) != []
        :: PlannedFor(a, deliveries, env.followers, env.blocks, env.relays, env.hostOf);
    assert IsPlan(plan, rows, [], env);
    assert FansOut(rows, rows, env, [], plan);
  }

  // ---- What a batch makes of a row ----------------------------------------------------------

  function BlocksOf(env: Env, a: Account): seq<string> {
    if a in env.blocks then env.blocks[a] else []
  }

  /** Every follower of the account is on a blocked domain, and if the activity may go through relays, there are none. */
  ghost predicate NothingToSend(r: Row, env: Env) {
    && (forall f :: f in TargetsIn(env.followers, r.account) ==> InboxBlocked(env.hostOf, f, BlocksOf(env, r.account)))
    && (r.relayCandidate ==> env.relays == [])
  }

  /** The activity has a row for every follower on no blocked domain, and for every relay if it may go through relays. */
  ghost predicate EveryTargetHasRow(rows: seq<Row>, r: Row, env: Env) {
    && (forall f :: f in TargetsIn(env.followers, r.account) && !InboxBlocked(env.hostOf, f, BlocksOf(env, r.account))
                    ==> HasRow(rows, r.activity, f))
    && (r.relayCandidate ==> forall f :: f in env.relays ==> HasRow(rows, r.activity, f))
  }

  /** Why a batch may have closed row i: sent, nothing to send, fanned out, given up, or rejected. */
  ghost predicate ClosedBy(rows: seq<Row>, env: Env, i: nat)
    requires i < |rows|
  {
    var r := rows[i];
    match r.state
    case Delivered => env.due(i) && (if r.inbox.Some? then env.result(i) == Sent(Rules.Success) else NothingToSend(r, env))
    case Expanded => env.due(i) && r.inbox.None? && EveryTargetHasRow(rows, r, env)
    case Failed => r.attempts >= 5
                   || (env.due(i) && r.inbox.Some?
                       && env.result(i) in {MissingAccount, BlockedDomain, Sent(Rules.PermanentFailure)})
    case _ => true
  }

  /** The inbox of a row is that of a follower on no blocked domain, or a relay. */
  ghost predicate Wanted(r: Row, env: Env) {
    r.inbox.Some? &&
    var inbox := r.inbox.value;
    inbox in env.relays
    || (inbox in TargetsIn(env.followers, r.account) && !InboxBlocked(env.hostOf, inbox, BlocksOf(env, r.account)))
  }

  /** One row by what happened to it: left alone, taken back from a lost worker, or taken back if need be and sent. */
  ghost predicate TargetAfter(r: Row, r': Row, env: Env, i: nat) {
    var lost := r.state == InFlight && env.stale(i);
    var tries := r.attempts + if lost then 1 else 0;
    || (r' == r && !lost)
    || (lost && r' == r.(attempts := tries, state := if r.attempts < 4 then Queued else Failed))
    || ((r.state == Queued || (lost && r.attempts < 4)) && env.due(i) && r' ==
          match env.result(i)
          case MissingAccount => r.(state := Failed, attempts := OneMore(tries))
          case BlockedDomain => r.(state := Failed, attempts := OneMore(tries))
          case Sent(Success) => r.(state := Delivered, attempts := tries)
          case Sent(PermanentFailure) => r.(state := Failed, attempts := OneMore(tries))
          case Sent(Failure) => r.(state := if tries < 4 then Queued else Failed, attempts := OneMore(tries)))
  }

  lemma {:induction false} InDeliveries(rows: seq<Row>, claimed: seq<nat>, c: nat)
    requires (forall k :: 0 <= k < |claimed| ==> claimed[k] < |rows|) && c in claimed
    ensures Delivery(c, rows[c].account, rows[c].relayCandidate) in DeliveriesOf(rows, claimed)
  {
    var n := |claimed| - 1;
    LastDelivery(rows, claimed);
    assert claimed == claimed[..n] + [claimed[n]];
    if c in claimed[..n] {
      InDeliveries(rows, claimed[..n], c);
    }
  }

  /** A claimed candidate makes its account one. */
  lemma ClaimedCandidate(rows: seq<Row>, claimed: seq<nat>, c: nat)
    requires (forall k :: 0 <= k < |claimed| ==> claimed[k] < |rows|) && c in claimed && rows[c].relayCandidate
    ensures HasCandidate(DeliveriesOf(rows, claimed), rows[c].account)
  {
    InDeliveries(rows, claimed, c);
    hide DeliveriesOf;
  }

  lemma UnblockedMember(hostOf: Inbox -> Option<string>, inboxes: seq<Inbox>, blocked: seq<string>, i: Inbox)
    ensures i in Unblocked(hostOf, inboxes, blocked) <==> i in inboxes && !InboxBlocked(hostOf, i, blocked)
  {
    UnblockedCount(hostOf, inboxes, i, blocked);
    hide InboxBlocked;
    hide Unblocked;
    assert i in multiset(inboxes) <==> i in inboxes;
    assert i in multiset(Unblocked(hostOf, inboxes, blocked)) <==> i in Unblocked(hostOf, inboxes, blocked);
  }

  lemma WithRelaysMember(inboxes: seq<Inbox>, relays: seq<Inbox>, i: Inbox)
    ensures i in WithRelays(inboxes, relays) <==> i in inboxes || i in relays
  {
    WithRelaysMeaning(inboxes, relays);
    var r := WithRelays(inboxes, relays);
    assert r == inboxes + r[|inboxes|..];
  }

  /** The inboxes planned for an account, member by member. */
  lemma PlannedMember(rows: seq<Row>, claimed: seq<nat>, env: Env, plan: map<Account, seq<Inbox>>, a: Account, i: Inbox)
    requires (forall k :: 0 <= k < |claimed| ==> claimed[k] < |rows|) && IsPlan(plan, rows, claimed, env)
    ensures i in TargetsIn(plan, a) <==>
      || (i in TargetsIn(env.followers, a) && !InboxBlocked(env.hostOf, i, BlocksOf(env, a)))
      || (HasCandidate(DeliveriesOf(rows, claimed), a) && i in env.relays)
  {
    var deliveries := DeliveriesOf(rows, claimed);
    assert PlanHas(plan, a, PlannedFor(a, deliveries, env.followers, env.blocks, env.relays, env.hostOf));
    var base := Unblocked(env.hostOf, TargetsIn(env.followers, a), BlocksOf(env, a));
    UnblockedMember(env.hostOf, TargetsIn(env.followers, a), BlocksOf(env, a), i);
    WithRelaysMember(base, env.relays, i);
    hide Unblocked;
    hide WithRelays;
    hide HasCandidate;
    hide InboxBlocked;
    hide DeliveriesOf;
  }

  lemma EmptyPlan(rows: seq<Row>, claimed: seq<nat>, env: Env, plan: map<Account, seq<Inbox>>, c: nat)
    requires (forall k :: 0 <= k < |claimed| ==> claimed[k] < |rows|) && IsPlan(plan, rows, claimed, env)
    requires c in claimed && TargetsIn(plan, rows[c].account) == []
    ensures NothingToSend(rows[c], env)
  {
    var a := rows[c].account;
    forall i
      ensures i in TargetsIn(env.followers, a) ==> InboxBlocked(env.hostOf, i, BlocksOf(env, a))
    {
      PlannedMember(rows, claimed, env, plan, a, i);
    }
    if rows[c].relayCandidate && env.relays != [] {
      ClaimedCandidate(rows, claimed, c);
      PlannedMember(rows, claimed, env, plan, a, env.relays[0]);
    }
  }

  lemma PlanHasRows(rows: seq<Row>, claimed: seq<nat>, env: Env, plan: map<Account, seq<Inbox>>, c: nat, rows': seq<Row>)
    requires (forall k :: 0 <= k < |claimed| ==> claimed[k] < |rows|) && IsPlan(plan, rows, claimed, env)
    requires c in claimed && forall t :: t in TargetsIn(plan, rows[c].account) ==> HasRow(rows', rows[c].activity, t)
    ensures EveryTargetHasRow(rows', rows[c], env)
  {
    hide HasRow;
    hide InboxBlocked;
    if rows[c].relayCandidate {
      ClaimedCandidate(rows, claimed, c);
    }
    hide HasCandidate;
    hide DeliveriesOf;
    forall i
      ensures i in TargetsIn(plan, rows[c].account) <==>
        || (i in TargetsIn(env.followers, rows[c].account) && !InboxBlocked(env.hostOf, i, BlocksOf(env, rows[c].account)))
        || (HasCandidate(DeliveriesOf(rows, claimed), rows[c].account) && i in env.relays)
    {
      PlannedMember(rows, claimed, env, plan, rows[c].account, i);
    }
    hide TargetsIn;
    hide IsPlan;
  }

  /** What a fan-out makes of a row that was there. */
  ghost predicate ParentAfter(r: Row, r': Row, rows': seq<Row>, env: Env, i: nat) {
    || r' == r
    || (r.state == Queued && r.inbox.None? && env.due(i) && r' == r.(state := Delivered) && NothingToSend(r, env))
    || (r.state == Queued && r.inbox.None? && env.due(i) && r' == r.(state := Expanded) && EveryTargetHasRow(rows', r, env))
  }

  lemma FannedOutRow(rows: seq<Row>, rows': seq<Row>, env: Env, i: nat)
    requires IsFanOut(rows, rows', env) && i < |rows|
    ensures |rows| <= |rows'| && ParentAfter(rows[i], rows'[i], rows', env, i)
  {
    var claimed, plan :| FansOut(rows, rows', env, claimed, plan);
    if i in claimed {
      var k :| 0 <= k < |claimed| && claimed[k] == i;
      assert Claimable(rows[claimed[k]], true, env.due(claimed[k]));
      if TargetsIn(plan, rows[i].account) == [] {
        EmptyPlan(rows, claimed, env, plan, i);
      } else {
        PlanHasRows(rows, claimed, env, plan, i, rows');
      }
    }
    hide NothingToSend;
    hide EveryTargetHasRow;
    hide IsPlan;
    hide OnlyPlanned;
    hide HasRow;
  }

  lemma NewRow(rows: seq<Row>, rows': seq<Row>, env: Env, i: nat)
    requires IsFanOut(rows, rows', env) && |rows| <= i < |rows'|
    ensures rows'[i].state == Queued && rows'[i].attempts == 0 && Wanted(rows'[i], env)
  {
    var claimed, plan :| FansOut(rows, rows', env, claimed, plan);
    assert PlannedFromSome(rows, claimed, rows'[i], plan);
    var id :| id in claimed && PlannedFrom(rows[id], rows'[i], plan);
    PlannedMember(rows, claimed, env, plan, rows[id].account, rows'[i].inbox.value);
  }

  lemma SentRow(rows: seq<Row>, rows': seq<Row>, env: Env, i: nat)
    requires IsSend(rows, rows', env) && i < |rows|
    ensures |rows'| == |rows|
    ensures rows'[i] == rows[i]
            || (rows[i].state == Queued && rows[i].inbox.Some? && env.due(i) && TargetAfter(rows[i], rows'[i], env, i)
                && rows'[i] != rows[i] && rows'[i] == AfterSend(rows[i], env.result(i)))
  {
    var claimed :| Sends(rows, rows', env, claimed);
    if i in claimed {
      var k :| 0 <= k < |claimed| && claimed[k] == i;
      assert Claimable(rows[claimed[k]], false, env.due(claimed[k]));
    }
  }

  /** A parent by what happened to it: like a target, but for being fanned out instead of sent. */
  ghost predicate ParentAfterBatch(r: Row, r': Row, rows': seq<Row>, env: Env, i: nat) {
    var lost := r.state == InFlight && env.stale(i);
    var tries := r.attempts + if lost then 1 else 0;
    || (r' == r && !lost)
    || (lost && r' == r.(attempts := tries, state := if r.attempts < 4 then Queued else Failed))
    || ((r.state == Queued || (lost && r.attempts < 4)) && env.due(i)
        && ((r' == r.(state := Delivered, attempts := tries) && NothingToSend(r, env))
            || (r' == r.(state := Expanded, attempts := tries) && EveryTargetHasRow(rows', r, env))))
  }

  lemma RequeuedRow(rows: seq<Row>, rows': seq<Row>, env: Env, i: nat)
    requires IsRequeue(rows, rows', env) && i < |rows|
    ensures |rows'| == |rows|
    ensures rows'[i] == if rows[i].state != InFlight || !env.stale(i) then rows[i]
                        else rows[i].(attempts := rows[i].attempts + 1, state := if rows[i].attempts < 4 then Queued else Failed)
  {
  }

  lemma StillHasRows(rows: seq<Row>, rows': seq<Row>, r: Row, r': Row, env: Env)
    requires IsSend(rows, rows', env) && EveryTargetHasRow(rows, r, env)
    requires r'.activity == r.activity && r'.account == r.account && r'.relayCandidate == r.relayCandidate
    ensures EveryTargetHasRow(rows', r', env)
  {
    var claimed :| Sends(rows, rows', env, claimed);
    KeepsHasRow(rows, rows');
    hide InboxBlocked;
    hide HasRow;
    hide TargetsIn;
  }

  lemma SameNothing(r: Row, r': Row, env: Env)
    requires NothingToSend(r, env) && r'.account == r.account && r'.relayCandidate == r.relayCandidate
    ensures NothingToSend(r', env)
  {
    hide InboxBlocked;
    hide TargetsIn;
  }

  /** A row that was there before the batch, by kind. */
  ghost predicate RowAfter(rows: seq<Row>, rows': seq<Row>, env: Env, i: nat)
    requires i < |rows| <= |rows'|
  {
    if rows[i].inbox.Some? then TargetAfter(rows[i], rows'[i], env, i)
    else ParentAfterBatch(rows[i], rows'[i], rows', env, i)
  }

  lemma SentAfterRequeue(r: Row, requeued: Row, r': Row, env: Env, i: nat)
    requires requeued == if r.state != InFlight || !env.stale(i) then r
                         else r.(attempts := r.attempts + 1, state := if r.attempts < 4 then Queued else Failed)
    requires requeued.state == Queued && env.due(i) && TargetAfter(requeued, r', env, i) && r' != requeued
    ensures TargetAfter(r, r', env, i)
  {
  }

  lemma OldRowAfterBatch(rows: seq<Row>, rows': seq<Row>, env: Env, i: nat)
    requires IsBatch(rows, rows', env) && i < |rows|
    ensures |rows| <= |rows'| && RowAfter(rows, rows', env, i)
  {
    var requeued, fannedOut :| BatchThrough(rows, requeued, fannedOut, rows', env);
    RequeuedRow(rows, requeued, env, i);
    FannedOutRow(requeued, fannedOut, env, i);
    SentRow(fannedOut, rows', env, i);
    var r, q, f, r' := rows[i], requeued[i], fannedOut[i], rows'[i];
    if r.inbox.Some? {
      if r' != f {
        SentAfterRequeue(r, q, r', env, i);
      }
    } else {
      if NothingToSend(q, env) {
        SameNothing(q, r, env);
      }
      if EveryTargetHasRow(fannedOut, q, env) {
        StillHasRows(fannedOut, rows', q, r, env);
      }
    }
    hide NothingToSend;
    hide EveryTargetHasRow;
    hide IsRequeue;
    hide IsFanOut;
    hide IsSend;
  }

  lemma SameWanted(r: Row, r': Row, env: Env)
    requires Wanted(r, env) && r'.account == r.account && r'.inbox == r.inbox
    ensures Wanted(r', env)
  {
    hide InboxBlocked;
    hide TargetsIn;
  }

  lemma NewRowSent(r: Row, rows': seq<Row>, env: Env, i: nat)
    requires r.state == Queued && r.inbox.Some? && r.attempts == 0
    requires i < |rows'| && (rows'[i] == r || (env.due(i) && rows'[i] == AfterSend(r, env.result(i))))
    ensures rows'[i].Open() || ClosedBy(rows', env, i)
    ensures rows'[i].account == r.account && rows'[i].inbox == r.inbox
  {
  }

  lemma NewRowAfterBatch(rows: seq<Row>, rows': seq<Row>, env: Env, i: nat)
    requires IsBatch(rows, rows', env) && |rows| <= i < |rows'|
    ensures Wanted(rows'[i], env) && (rows'[i].Open() || ClosedBy(rows', env, i))
  {
    var requeued, fannedOut :| BatchThrough(rows, requeued, fannedOut, rows', env);
    SendKeepsLength(fannedOut, rows', env);
    NewRow(requeued, fannedOut, env, i);
    SentRow(fannedOut, rows', env, i);
    WantedHasInbox(fannedOut[i], env);
    NewRowSent(fannedOut[i], rows', env, i);
    SameWanted(fannedOut[i], rows'[i], env);
    hide *;
  }

  lemma WantedHasInbox(r: Row, env: Env)
    requires Wanted(r, env)
    ensures r.inbox.Some?
  {
    hide InboxBlocked;
  }

  lemma SendKeepsLength(rows: seq<Row>, rows': seq<Row>, env: Env)
    requires IsSend(rows, rows', env)
    ensures |rows'| == |rows|
  {
    var claimed :| Sends(rows, rows', env, claimed);
  }

  lemma OldRowClosed(rows: seq<Row>, rows': seq<Row>, env: Env, i: nat)
    requires i < |rows| <= |rows'| && RowAfter(rows, rows', env, i) && rows[i].Open() && !rows'[i].Open()
    ensures ClosedBy(rows', env, i)
  {
    if rows[i].inbox.None? {
      if NothingToSend(rows[i], env) {
        SameNothing(rows[i], rows'[i], env);
      }
      if EveryTargetHasRow(rows', rows[i], env) {
        SameEvery(rows', rows[i], rows'[i], env);
      }
      hide NothingToSend;
      hide EveryTargetHasRow;
    }
  }

  lemma SameEvery(rows: seq<Row>, r: Row, r': Row, env: Env)
    requires EveryTargetHasRow(rows, r, env)
    requires r'.activity == r.activity && r'.account == r.account && r'.relayCandidate == r.relayCandidate
    ensures EveryTargetHasRow(rows, r', env)
  {
    hide InboxBlocked;
    hide HasRow;
    hide TargetsIn;
  }

  /** All rows of a batch: what happened to those there were, and why each was closed that was open or is new. */
  ghost predicate BatchLaws(rows: seq<Row>, rows': seq<Row>, env: Env) {
    && |rows| <= |rows'|
    && (forall i :: 0 <= i < |rows| ==> RowAfter(rows, rows', env, i))
    && (forall i :: |rows| <= i < |rows'| ==> Wanted(rows'[i], env))
    && (forall i :: 0 <= i < |rows'| && (i >= |rows| || rows[i].Open()) && !rows'[i].Open() ==> ClosedBy(rows', env, i))
  }

  lemma BatchGrows(rows: seq<Row>, rows': seq<Row>, env: Env)
    requires IsBatch(rows, rows', env)
    ensures |rows| <= |rows'|
  {
    var requeued, fannedOut :| BatchThrough(rows, requeued, fannedOut, rows', env);
    var claimed :| Sends(fannedOut, rows', env, claimed);
    var parents, plan :| FansOut(requeued, fannedOut, env, parents, plan);
  }

  lemma RowLaws(rows: seq<Row>, rows': seq<Row>, env: Env, i: nat)
    requires IsBatch(rows, rows', env) && i < |rows'|
    ensures i < |rows| <= |rows'| ==> RowAfter(rows, rows', env, i)
    ensures i >= |rows| ==> Wanted(rows'[i], env)
    ensures (i >= |rows| || rows[i].Open()) && !rows'[i].Open() ==> ClosedBy(rows', env, i)
  {
    hide IsBatch;
    hide RowAfter;
    hide ClosedBy;
    hide Wanted;
    if i < |rows| {
      OldRowAfterBatch(rows, rows', env, i);
      if rows[i].Open() && !rows'[i].Open() {
        OldRowClosed(rows, rows', env, i);
      }
    } else {
      NewRowAfterBatch(rows, rows', env, i);
    }
  }

  lemma BatchObeysLaws(rows: seq<Row>, rows': seq<Row>, env: Env)
    requires IsBatch(rows, rows', env)
    ensures BatchLaws(rows, rows', env)
  {
    BatchGrows(rows, rows', env);
    hide IsBatch;
    hide RowAfter;
    hide ClosedBy;
    hide Wanted;
    forall i | 0 <= i < |rows'|
      ensures i < |rows| ==> RowAfter(rows, rows', env, i)
      ensures i >= |rows| ==> Wanted(rows'[i], env)
      ensures (i >= |rows| || rows[i].Open()) && !rows'[i].Open() ==> ClosedBy(rows', env, i)
    {
      RowLaws(rows, rows', env, i);
    }
  }

  /** Row i was still open, or not there yet, before batch k, which closed it as it is now. */
  ghost predicate ClosedIn(tables: seq<seq<Row>>, envs: nat -> Env, k: nat, i: nat) {
    && k + 1 < |tables| && i < |tables[k + 1]| && (i < |tables[k]| ==> tables[k][i].Open())
    && !tables[k + 1][i].Open() && ClosedBy(tables[k + 1], envs(k), i)
    && i < |tables[|tables| - 1]| && tables[|tables| - 1][i] == tables[k + 1][i]
  }

  lemma ClosedRowStays(rows: seq<Row>, rows': seq<Row>, env: Env, i: nat)
    requires IsBatch(rows, rows', env) && i < |rows| && !rows[i].Open()
    ensures |rows| <= |rows'| && rows'[i] == rows[i]
  {
    OldRowAfterBatch(rows, rows', env, i);
    hide IsBatch;
  }

  lemma {:induction false} ClosedInSome(tables: seq<seq<Row>>, envs: nat -> Env, i: nat)
    requires IsDrain(tables, envs) && i < |tables[|tables| - 1]| && !tables[|tables| - 1][i].Open()
    requires i < |tables[0]| ==> tables[0][i].Open()
    ensures exists k :: ClosedIn(tables, envs, k, i)
  {
    hide IsBatch;
    hide ClosedBy;
    var n := |tables| - 1;
    assert n > 0;
    var before, now := tables[n - 1], tables[n];
    assert IsBatch(before, now, envs(n - 1));
    if i < |before| && !before[i].Open() {
      var shorter := tables[..n];
      assert forall k :: 0 <= k < n ==> shorter[k] == tables[k];
      ClosedInSome(shorter, envs, i);
      var k :| ClosedIn(shorter, envs, k, i);
      ClosedRowStays(before, now, envs(n - 1), i);
      assert ClosedIn(tables, envs, k, i);
    } else {
      RowLaws(before, now, envs(n - 1), i);
      assert ClosedIn(tables, envs, n - 1, i);
    }
  }

  /** Every batch obeys the laws, and every row that is closed at the end but was not at the start was closed by one. */
  ghost predicate DrainLaws(tables: seq<seq<Row>>, envs: nat -> Env)
    requires tables != []
  {
    && (forall k :: 0 < k < |tables| ==> BatchLaws(tables[k - 1], tables[k], envs(k - 1)))
    && (forall i | 0 <= i < |tables[|tables| - 1]| && !tables[|tables| - 1][i].Open()
                   && (i < |tables[0]| ==> tables[0][i].Open()) :: exists k :: ClosedIn(tables, envs, k, i))
  }

  lemma DrainObeysLaws(tables: seq<seq<Row>>, envs: nat -> Env)
    requires IsDrain(tables, envs)
    ensures DrainLaws(tables, envs)
  {
    hide IsBatch;
    hide BatchLaws;
    hide ClosedIn;
    forall k | 0 < k < |tables|
      ensures BatchLaws(tables[k - 1], tables[k], envs(k - 1))
    {
      BatchObeysLaws(tables[k - 1], tables[k], envs(k - 1));
    }
    forall i | 0 <= i < |tables[|tables| - 1]| && !tables[|tables| - 1][i].Open()
               && (i < |tables[0]| ==> tables[0][i].Open())
      ensures exists k :: ClosedIn(tables, envs, k, i)
    {
      ClosedInSome(tables, envs, i);
    }
  }

  class OutboxTable {
    var rows: seq<Row>

    constructor (rows: seq<Row>)
      ensures this.rows == rows
    {
      this.rows := rows;
    }

    method RequeueStale(stale: nat -> bool)
      modifies this
      ensures |rows| == |old(rows)|
      ensures forall i :: 0 <= i < |rows| ==> rows[i] == Requeued(old(rows)[i], stale(i))
      ensures forall i :: 0 <= i < |rows| ==>
        var r := old(rows)[i];
        rows[i] == if r.state == InFlight && stale(i)
                   then r.(attempts := r.attempts + 1, state := if r.attempts < 4 then Queued else Failed) else r
    {
      for k := 0 to |rows|
        invariant |rows| == |old(rows)|
        invariant forall i :: 0 <= i < |rows| ==>
          rows[i] == if i < k then Requeued(old(rows)[i], stale(i)) else old(rows)[i]
      {
        rows := rows[k := Requeued(rows[k], stale(k))];
      }
    }

    /** One UPDATE over a SELECT with ORDER BY created_at and LIMIT. */
    method Claim(parents: bool, due: nat -> bool, limit: nat) returns (claimed: seq<nat>)
      modifies this
      ensures Claims(old(rows), rows, parents, due, limit, claimed)
    {
      claimed := [];
      for k := 0 to |rows|
        invariant |rows| == |old(rows)| && |claimed| <= limit
        invariant forall j :: 0 <= j < |claimed| ==> claimed[j] < k && Claimable(old(rows)[claimed[j]], parents, due(claimed[j]))
        invariant forall j, l :: 0 <= j < l < |claimed| ==> claimed[j] < claimed[l]
        invariant forall i :: 0 <= i < |rows| ==>
          rows[i] == if i in claimed then old(rows)[i].(state := InFlight) else old(rows)[i]
        invariant forall i :: 0 <= i < k && i !in claimed && Claimable(old(rows)[i], parents, due(i)) ==>
          |claimed| == limit && forall j :: 0 <= j < |claimed| ==> claimed[j] < i
      {
        if Claimable(rows[k], parents, due(k)) && |claimed| < limit {
          rows := rows[k := rows[k].(state := InFlight)];
          claimed := claimed + [k];
        }
      }
    }

    /** `UPDATE ... SET state = 'delivered' WHERE id IN (...)`: whatever state they are in. */
    method MarkCompleted(ids: seq<nat>)
      requires forall k :: 0 <= k < |ids| ==> ids[k] < |rows|
      modifies this
      ensures |rows| == |old(rows)|
      ensures forall i :: 0 <= i < |rows| ==>
        rows[i] == if i in ids then old(rows)[i].(state := Delivered) else old(rows)[i]
    {
      for k := 0 to |ids|
        invariant |rows| == |old(rows)|
        invariant forall i :: 0 <= i < |rows| ==>
          rows[i] == if i in ids[..k] then old(rows)[i].(state := Delivered) else old(rows)[i]
      {
        assert ids[..k + 1] == ids[..k] + [ids[k]];
        rows := rows[ids[k] := rows[ids[k]].(state := Delivered)];
      }
      assert ids[..|ids|] == ids;
    }

    /** `UPDATE ... SET state = 'expanded' WHERE id IN (...) AND state = 'in_flight'`. */
    method MarkExpanded(ids: seq<nat>)
      requires forall k :: 0 <= k < |ids| ==> ids[k] < |rows|
      modifies this
      ensures |rows| == |old(rows)|
      ensures forall i :: 0 <= i < |rows| ==>
        rows[i] == if i in ids && old(rows)[i].state == InFlight then old(rows)[i].(state := Expanded) else old(rows)[i]
    {
      for k := 0 to |ids|
        invariant |rows| == |old(rows)|
        invariant forall i :: 0 <= i < |rows| ==>
          rows[i] == if i in ids[..k] && old(rows)[i].state == InFlight then old(rows)[i].(state := Expanded)
                     else old(rows)[i]
      {
        assert ids[..k + 1] == ids[..k] + [ids[k]];
        if rows[ids[k]].state == InFlight {
          rows := rows[ids[k] := rows[ids[k]].(state := Expanded)];
        }
      }
      assert ids[..|ids|] == ids;
    }

    /** `INSERT OR IGNORE` of one row per distinct target; the count includes the ignored ones. */
    method InsertTargets(activity: nat, account: Account, relayCandidate: bool, targets: seq<Inbox>) returns (count: nat)
      requires OneRowPerInbox(rows)
      modifies this
      ensures |old(rows)| <= |rows| && rows[..|old(rows)|] == old(rows) && OneRowPerInbox(rows)
      ensures FreshFrom(rows, |old(rows)|)
      ensures forall i :: |old(rows)| <= i < |rows| ==>
        rows[i].inbox.value in targets && rows[i].activity == activity && rows[i].account == account
        && rows[i].relayCandidate == relayCandidate
      ensures forall t :: t in targets ==> HasRow(rows, activity, t)
      ensures count == |set t | t in targets|
    {
      hide OneRowPerInbox;
      hide HasRow;
      count := 0;
      var seen: set<Inbox> := {};
      for k := 0 to |targets|
        invariant |old(rows)| <= |rows| && rows[..|old(rows)|] == old(rows) && OneRowPerInbox(rows)
        invariant FreshFrom(rows, |old(rows)|)
        invariant forall i :: |old(rows)| <= i < |rows| ==>
          rows[i].inbox.value in targets && rows[i].activity == activity && rows[i].account == account
          && rows[i].relayCandidate == relayCandidate
        invariant forall t :: t in seen <==> t in targets[..k]
        invariant forall t :: t in seen ==> HasRow(rows, activity, t)
        invariant count == |seen|
      {
        var t := targets[k];
        if t !in seen {
          seen, count := seen + {t}, count + 1;
          if !HasRow(rows, activity, t) {
            var row := Row(activity, account, relayCandidate, Some(t), Queued, 0);
            AppendKeepsRows(rows, row);
            rows := rows + [row];
          }
        }
      }
      assert seen == set t | t in targets;
    }

    /** Adds the target rows of deliveries that have targets. */
    method InsertAll(deliveries: seq<Delivery>, plan: map<Account, seq<Inbox>>) returns (count: nat)
      requires OneRowPerInbox(rows) && FromTable(rows, deliveries)
      modifies this
      ensures OneRowPerInbox(rows) && FromTable(old(rows), deliveries)
      ensures InsertedFor(old(rows), rows, deliveries, plan)
      ensures count == TargetCount(deliveries, plan)
    {
      count := 0;
      NothingInserted(rows, plan);
      NothingCounted(plan);
      NothingFromTable(rows, plan, true);
      hide *;
      for k := 0 to |deliveries|
        invariant OneRowPerInbox(rows) && FromTable(old(rows), deliveries[..k])
        invariant InsertedFor(old(rows), rows, deliveries[..k], plan)
        invariant count == TargetCount(deliveries[..k], plan)
      {
        var d := deliveries[k];
        ParentStays(old(rows), rows, deliveries, k, plan);
        var parent := rows[d.id];
        ghost var before := rows;
        var added := InsertTargets(parent.activity, parent.account, parent.relayCandidate, TargetsIn(plan, d.account));
        OneMoreCounted(deliveries[..k], d, plan);
        OneMoreInserted(old(rows), before, rows, deliveries[..k], d, plan);
        assert deliveries[..k + 1] == deliveries[..k] + [d];
        count := count + added;
      }
      assert deliveries[..|deliveries|] == deliveries;
    }

    /**
     Parts the claimed parents into those with targets and those without, closes the latter, adds the target rows of
     the former, and closes those.
     */
    method ExpandParents(claimed: seq<nat>, plan: map<Account, seq<Inbox>>) returns (expanded: nat, completed: nat)
      requires OneRowPerInbox(rows)
      requires forall k :: 0 <= k < |claimed| ==> claimed[k] < |rows| && rows[claimed[k]].state == InFlight
      modifies this
      ensures Expands(old(rows), rows, claimed, plan) && OneRowPerInbox(rows)
      ensures forall c, t :: c in claimed && t in TargetsIn(plan, old(rows)[c].account)
                             ==> HasRow(rows, old(rows)[c].activity, t)
      ensures OnlyPlanned(old(rows), claimed, rows, |old(rows)|, plan)
      ensures expanded == TargetCount(Selected(DeliveriesOf(old(rows), claimed), plan, true), plan)
      ensures completed == |Selected(DeliveriesOf(old(rows), claimed), plan, false)|
      ensures claimed != [] ==> expanded > 0 || completed > 0
    {
      hide *;
      var deliveries := DeliveriesOf(rows, claimed);
      var withTargets, without := PartitionByTargets(deliveries, plan);
      SelectedIds(rows, claimed, plan, true);
      SelectedIds(rows, claimed, plan, false);
      SidesCover(rows, claimed, plan);
      SideMeaning(rows, claimed, plan, true, IdsOf(withTargets));
      SideMeaning(rows, claimed, plan, false, IdsOf(without));
      expanded, completed := 0, |without|;
      MarkCompleted(IdsOf(without));
      SameRows(old(rows), rows);
      ghost var closed := rows;
      NoneFresh(rows);
      NothingPlanned(old(rows), claimed, rows, plan);
      SomeCounted(withTargets, plan);
      NothingCounted(plan);
      if withTargets == [] {
        ExpandedByParts(old(rows), closed, rows, rows, claimed, IdsOf(withTargets), IdsOf(without), plan);
        return;
      }
      StillFromTable(old(rows), rows, withTargets);
      expanded := InsertAll(withTargets, plan);
      ghost var inserted := rows;
      WhatWasInserted(closed, rows, withTargets, plan);
      StillInFlight(old(rows), closed, inserted, claimed, IdsOf(withTargets), IdsOf(without), plan);
      MarkExpanded(IdsOf(withTargets));
      SameRows(inserted, rows);
      KeepsHasRow(inserted, rows);
      ExpandedByParts(old(rows), closed, inserted, rows, claimed, IdsOf(withTargets), IdsOf(without), plan);
      EachHasRows(old(rows), rows, claimed, withTargets, plan);
      PlannedByClaimed(old(rows), closed, claimed, IdsOf(withTargets), inserted, rows, plan);
    }

    /** `UPDATE ... WHERE id = ? AND state = 'in_flight'`, and whether it changed a row. */
    method MarkInFlight(c: nat, row: Row) returns (changed: bool)
      requires c < |rows|
      modifies this
      ensures changed <==> old(rows)[c].state == InFlight
      ensures rows == if changed then old(rows)[c := row] else old(rows)
    {
      changed := rows[c].state == InFlight;
      if changed {
        rows := rows[c := row];
      }
    }

    /**
     Writes the outcome of one delivery; a row no longer in flight is left alone and, except for a missing account, not
     counted.
     */
    method SendOne(c: nat, result: SendResult) returns (delivered: nat, failed: nat)
      requires c < |rows|
      modifies this
      ensures rows == if old(rows)[c].state == InFlight then old(rows)[c := AfterSend(old(rows)[c], result)] else old(rows)
      ensures delivered == (if result == Sent(Rules.Success) && old(rows)[c].state == InFlight then 1 else 0)
      ensures failed == (if result == MissingAccount || (result != Sent(Rules.Success) && old(rows)[c].state == InFlight)
                         then 1 else 0)
    {
      delivered, failed := 0, 0;
      var r := rows[c];
      var nextAttempt := OneMore(r.attempts);
      match result {
        case MissingAccount =>
          var _ := MarkInFlight(c, r.(state := Failed, attempts := nextAttempt));
          failed := 1;
        case BlockedDomain =>
          var changed := MarkInFlight(c, r.(state := Failed, attempts := nextAttempt));
          if changed {
            failed := 1;
          }
        case Sent(outcome) =>
          if outcome == Rules.Success {
            var changed := MarkInFlight(c, r.(state := Delivered));
            if changed {
              delivered := 1;
            }
          } else {
            var terminal := outcome == Rules.PermanentFailure || nextAttempt >= Rules.DELIVERY_MAX_ATTEMPTS;
            var changed := MarkInFlight(c, r.(attempts := nextAttempt, state := if terminal then Failed else Queued));
            if changed {
              failed := 1;
            }
          }
      }
    }

    /** The outcome of each claimed target row is written back. */
    method SendClaimed(claimed: seq<nat>, result: nat -> SendResult) returns (delivered: nat, failed: nat)
      requires forall k :: 0 <= k < |claimed| ==> claimed[k] < |rows| && rows[claimed[k]].state == InFlight
      requires forall j, k :: 0 <= j < k < |claimed| ==> claimed[j] < claimed[k]
      modifies this
      ensures |rows| == |old(rows)|
      ensures forall i :: 0 <= i < |rows| ==>
        rows[i] == if i in claimed then AfterSend(old(rows)[i], result(i)) else old(rows)[i]
      ensures delivered + failed == |claimed|
      ensures forall k :: 0 <= k < |claimed| && delivered == 0 ==> result(claimed[k]) != Sent(Rules.Success)
    {
      hide AfterSend;
      delivered, failed := 0, 0;
      for k := 0 to |claimed|
        invariant |rows| == |old(rows)| && delivered + failed == k
        invariant forall i :: 0 <= i < |rows| ==>
          rows[i] == if i in claimed[..k] then AfterSend(old(rows)[i], result(i)) else old(rows)[i]
        invariant forall j :: 0 <= j < k && delivered == 0 ==> result(claimed[j]) != Sent(Rules.Success)
      {
        var c := claimed[k];
        var sent, unsent := SendOne(c, result(c));
        delivered, failed := delivered + sent, failed + unsent;
        assert claimed[..k + 1] == claimed[..k] + [c];
      }
      assert claimed[..|claimed|] == claimed;
    }

    /** Claims parents and fans them out to the planned inboxes. */
    method ProcessGeneric(env: Env) returns (expanded: nat, completed: nat)
      requires OneRowPerInbox(rows)
      modifies this
      ensures OneRowPerInbox(rows) && KeepsClosed(old(rows), rows)
      ensures IsFanOut(old(rows), rows, env)
      ensures if expanded > 0 || completed > 0 then OpenParents(rows) < OpenParents(old(rows))
              else rows == old(rows) && forall i :: 0 <= i < |rows| ==> !Claimable(rows[i], true, env.due(i))
    {
      var claimed := Claim(true, env.due, GENERIC_BATCH);
      ClaimMeasure(old(rows), rows, true, env.due, GENERIC_BATCH, claimed);
      SameRows(old(rows), rows);
      if claimed == [] {
        assert rows == old(rows);
        NothingFansOut(rows, env);
        return 0, 0;
      }
      var deliveries := DeliveriesOf(rows, claimed);
      var plan := PlanTargets(deliveries, env.followers, env.blocks, env.relays, env.hostOf);
      ghost var inFlight := rows;
      expanded, completed := ExpandParents(claimed, plan);
      ExpandMeasure(inFlight, rows, claimed, plan);
      ClaimedThenExpanded(old(rows), inFlight, rows, env, claimed, plan);
    }

    /** Claims target rows and tries to deliver them. */
    method ProcessTargets(env: Env) returns (delivered: nat, failed: nat)
      requires OneRowPerInbox(rows)
      modifies this
      ensures OneRowPerInbox(rows) && KeepsClosed(old(rows), rows)
      ensures IsSend(old(rows), rows, env)
      ensures OpenParents(rows) == OpenParents(old(rows))
      ensures if delivered > 0 || failed > 0 then AttemptsLeft(rows) < AttemptsLeft(old(rows))
              else rows == old(rows) && forall i :: 0 <= i < |rows| ==> !Claimable(rows[i], false, env.due(i))
    {
      hide OpenParents;
      hide AttemptsLeft;
      var claimed := Claim(false, env.due, TARGET_BATCH);
      ClaimMeasure(old(rows), rows, false, env.due, TARGET_BATCH, claimed);
      SameRows(old(rows), rows);
      ghost var inFlight := rows;
      delivered, failed := SendClaimed(claimed, env.result);
      SendMeasure(inFlight, rows, claimed, env.result);
      SameRows(inFlight, rows);
      ClaimedThenSent(old(rows), inFlight, rows, env, claimed);
    }

    /** One queue batch: it makes progress exactly when it claimed something, and then the measure is lower. */
    method ProcessBatch(env: Env) returns (summary: Summary)
      requires OneRowPerInbox(rows)
      modifies this
      ensures OneRowPerInbox(rows) && KeepsClosed(old(rows), rows)
      ensures IsBatch(old(rows), rows, env) && BatchLaws(old(rows), rows, env)
      ensures if MadeProgress(summary) then Below(MeasureOf(rows), MeasureOf(old(rows)))
              else NotAbove(MeasureOf(rows), MeasureOf(old(rows)))
      ensures !MadeProgress(summary) ==> forall i :: 0 <= i < |rows| ==> !(rows[i].state == Queued && env.due(i))
      ensures !MadeProgress(summary) ==> forall i :: 0 <= i < |rows| ==> !(rows[i].state == InFlight && env.stale(i))
    {
      hide OneRowPerInbox;
      hide KeepsClosed;
      hide Requeued;
      hide OpenParents;
      hide AttemptsLeft;
      hide IsFanOut;
      hide IsSend;
      hide BatchLaws;
      RequeueStale(env.stale);
      ghost var requeued := rows;
      RequeueMeasure(old(rows), rows, env.stale);
      var expanded, completed := ProcessGeneric(env);
      KeepsClosedTwice(old(rows), requeued, rows);
      ghost var fannedOut := rows;
      var delivered, failed := ProcessTargets(env);
      KeepsClosedTwice(old(rows), fannedOut, rows);
      summary := Summary(expanded, delivered, failed, completed);
      assert BatchThrough(old(rows), requeued, fannedOut, rows, env);
      BatchObeysLaws(old(rows), rows, env);
    }

    /**
     The queue consumer keeps enqueueing itself while batches progress and work is pending. Whatever the clock, the
     followers and the remote servers do in each batch, it stops, and then no due row is left queued.
     */
    method Drain(envs: nat -> Env) returns (last: nat, ghost tables: seq<seq<Row>>)
      requires OneRowPerInbox(rows)
      modifies this
      ensures IsDrain(tables, envs) && tables[0] == old(rows) && tables[|tables| - 1] == rows && DrainLaws(tables, envs)
      ensures |tables| - 1 == last || |tables| - 1 == last + 1
      ensures OneRowPerInbox(rows) && KeepsClosed(old(rows), rows)
      ensures NotAbove(MeasureOf(rows), MeasureOf(old(rows)))
      ensures forall i :: 0 <= i < |rows| ==> !(rows[i].state == Queued && envs(last).due(i))
      ensures forall i :: 0 <= i < |rows| ==> !(rows[i].state == InFlight && envs(last).stale(i))
    {
      hide OneRowPerInbox;
      hide KeepsClosed;
      hide OpenParents;
      hide AttemptsLeft;
      hide IsBatch;
      hide BatchLaws;
      hide DrainLaws;
      last, tables := 0, [rows];
      KeepsClosedSelf(rows);
      while PendingWork(rows, envs(last))
        invariant OneRowPerInbox(rows) && KeepsClosed(old(rows), rows)
        invariant NotAbove(MeasureOf(rows), MeasureOf(old(rows)))
        invariant IsDrain(tables, envs) && tables[0] == old(rows) && tables[|tables| - 1] == rows && |tables| == last + 1
        decreases OpenParents(rows), AttemptsLeft(rows)
      {
        ghost var before := rows;
        var summary := ProcessBatch(envs(last));
        KeepsClosedTwice(old(rows), before, rows);
        OneMoreBatch(tables, rows, envs);
        tables := tables + [rows];
        if !MadeProgress(summary) {
          DrainObeysLaws(tables, envs);
          return;
        }
        last := last + 1;
      }
      DrainObeysLaws(tables, envs);
    }
  }
}
