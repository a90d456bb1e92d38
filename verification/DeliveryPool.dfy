/** The histogram of delivery rows by attempt number, and the rows it stands for. */
module DeliveryPool {
  import opened DeliveryRules

  function CountIf(rows: seq<Slot>, p: Slot -> bool): nat {
    if rows == [] then 0 else CountIf(rows[..|rows| - 1], p) + (if p(rows[|rows| - 1]) then 1 else 0)
  }

  function QueuedAt(attempts: int): Slot -> bool {
    (s: Slot) => s.state == Queued && s.attempts == attempts
  }

  function InState(state: ActivityState): Slot -> bool {
    (s: Slot) => s.state == state
  }

  lemma {:induction false} CountAfterUpdate(rows: seq<Slot>, i: nat, s: Slot, p: Slot -> bool)
    requires i < |rows|
    ensures CountIf(rows[i := s], p) == CountIf(rows, p) - (if p(rows[i]) then 1 else 0) + (if p(s) then 1 else 0)
  {
    var n := |rows| - 1;
    if i == n {
      assert rows[i := s][..n] == rows[..n];
    } else {
      CountAfterUpdate(rows[..n], i, s, p);
      assert rows[i := s][..n] == rows[..n][i := s];
    }
  }

  lemma {:induction false} CountZeroOrWitness(rows: seq<Slot>, p: Slot -> bool)
    ensures CountIf(rows, p) <= |rows|
    ensures CountIf(rows, p) > 0 <==> exists i :: 0 <= i < |rows| && p(rows[i])
  {
    if rows != [] {
      var n := |rows| - 1;
      CountZeroOrWitness(rows[..n], p);
      assert forall i :: 0 <= i < n ==> rows[..n][i] == rows[i];
      if CountIf(rows[..n], p) > 0 {
        var i :| 0 <= i < n && p(rows[..n][i]);
        assert p(rows[i]);
      }
    }
  }

  /** A queued row has an attempt number the histogram has a bucket for. */
  ghost predicate Bucketed(rows: seq<Slot>) {
    forall i :: 0 <= i < |rows| && rows[i].state == Queued ==> rows[i].attempts < DELIVERY_MAX_ATTEMPTS
  }

  /** Every row is counted in exactly one bucket. */
  lemma {:induction false} BucketsCoverRows(rows: seq<Slot>)
    requires Bucketed(rows)
    ensures CountIf(rows, QueuedAt(0)) + CountIf(rows, QueuedAt(1)) + CountIf(rows, QueuedAt(2))
            + CountIf(rows, QueuedAt(3)) + CountIf(rows, QueuedAt(4))
            + CountIf(rows, InState(Delivered)) + CountIf(rows, InState(Failed)) == |rows|
  {
    if rows != [] {
      var n := |rows| - 1;
      assert forall i :: 0 <= i < n ==> rows[..n][i] == rows[i];
      BucketsCoverRows(rows[..n]);
    }
  }

  class Pool {
    const queuedAt: array<u8>
    var delivered: u8
    var failed: u8

    ghost predicate Represents(rows: seq<Slot>)
      reads this, queuedAt
    {
      && queuedAt.Length == DELIVERY_MAX_ATTEMPTS
      && Bucketed(rows)
      && (forall a :: 0 <= a < queuedAt.Length ==> queuedAt[a] == CountIf(rows, QueuedAt(a)))
      && delivered == CountIf(rows, InState(Delivered))
      && failed == CountIf(rows, InState(Failed))
    }

    /** All rows queued and never attempted. */
    constructor (size: u8)
      ensures fresh(queuedAt) && Represents(seq(size, _ => QUEUED_SLOT))
    {
      queuedAt := new u8[5](_ => 0);
      delivered, failed := 0, 0;
      new;
      queuedAt[0] := size;
      FreshCounts(size);
    }

    method TotalSlots(ghost rows: seq<Slot>) returns (total: int)
      requires Represents(rows)
      ensures total == |rows|
    {
      BucketsCoverRows(rows);
      total := delivered + failed + queuedAt[0] + queuedAt[1] + queuedAt[2] + queuedAt[3] + queuedAt[4];
    }

    /**
     One attempt on some row of the bucket. Whichever queued row with that attempt number is meant, the
     histogram afterwards is the histogram of the rows with that row attempted.
     */
    method ApplyOutcome(attemptIndex: u8, outcome: Outcome, ghost rows: seq<Slot>) returns (applied: bool)
      requires Represents(rows) && |rows| <= 0xff
      modifies this, queuedAt
      ensures applied <==> exists i :: 0 <= i < |rows| && rows[i] == Slot(Queued, attemptIndex)
      ensures !applied ==> Represents(rows)
      ensures forall i :: 0 <= i < |rows| && rows[i] == Slot(Queued, attemptIndex)
                          ==> Represents(Attempted(rows, Attempt(i, outcome)))
    {
      var index := attemptIndex;
      CountZeroOrWitness(rows, QueuedAt(index));
      if index >= queuedAt.Length || queuedAt[index] == 0 {
        assert forall i :: 0 <= i < |rows| && rows[i] == Slot(Queued, index) ==> QueuedAt(index)(rows[i]);
        return false;
      }
      var slot := Slot(Queued, attemptIndex);
      var next := SlotAfterAttempt(slot, outcome);
      RoomForOne(rows, slot, next);
      queuedAt[index] := queuedAt[index] - 1;
      match next.state {
        case Queued =>
          var nextIndex := next.attempts;
          if nextIndex < queuedAt.Length {
            queuedAt[nextIndex] := queuedAt[nextIndex] + 1;
          }
        case Delivered =>
          delivered := delivered + 1;
        case Failed =>
          failed := failed + 1;
      }
      forall i | 0 <= i < |rows| && rows[i] == slot
        ensures Represents(Attempted(rows, Attempt(i, outcome)))
      {
        RowMoves(rows, i, next);
      }
      applied := true;
    }
  }

  lemma {:induction false} FreshCounts(n: nat)
    ensures Bucketed(seq(n, _ => QUEUED_SLOT))
    ensures forall a :: CountIf(seq(n, _ => QUEUED_SLOT), QueuedAt(a)) == if a == 0 then n else 0
    ensures CountIf(seq(n, _ => QUEUED_SLOT), InState(Delivered)) == 0
    ensures CountIf(seq(n, _ => QUEUED_SLOT), InState(Failed)) == 0
  {
    if n > 0 {
      FreshCounts(n - 1);
      assert seq(n, _ => QUEUED_SLOT)[..n - 1] == seq(n - 1, _ => QUEUED_SLOT);
    }
  }

  /** A row in one bucket leaves room for it in any other, so no counter passes the number of rows. */
  lemma RoomForOne(rows: seq<Slot>, from: Slot, to: Slot)
    requires from.state == Queued && from.attempts < DELIVERY_MAX_ATTEMPTS && from != to
    requires to.state == Queued ==> to.attempts < DELIVERY_MAX_ATTEMPTS
    requires Bucketed(rows) && CountIf(rows, QueuedAt(from.attempts)) > 0
    ensures to.state == Queued ==> CountIf(rows, QueuedAt(to.attempts)) < |rows|
    ensures to.state != Queued ==> CountIf(rows, InState(to.state)) < |rows|
  {
    hide CountIf;
    BucketsCoverRows(rows);
  }

  lemma RowMoves(rows: seq<Slot>, i: nat, next: Slot)
    requires i < |rows| && rows[i].state == Queued
    ensures forall a :: CountIf(rows[i := next], QueuedAt(a))
                        == CountIf(rows, QueuedAt(a)) - (if rows[i].attempts == a then 1 else 0)
                           + (if next.state == Queued && next.attempts == a then 1 else 0)
    ensures forall s :: CountIf(rows[i := next], InState(s))
                        == CountIf(rows, InState(s)) - (if s == Queued then 1 else 0)
                           + (if next.state == s then 1 else 0)
  {
    forall a
      ensures CountIf(rows[i := next], QueuedAt(a))
              == CountIf(rows, QueuedAt(a)) - (if rows[i].attempts == a then 1 else 0)
                 + (if next.state == Queued && next.attempts == a then 1 else 0)
    {
      CountAfterUpdate(rows, i, next, QueuedAt(a));
    }
    forall s
      ensures CountIf(rows[i := next], InState(s))
              == CountIf(rows, InState(s)) - (if s == Queued then 1 else 0) + (if next.state == s then 1 else 0)
    {
      CountAfterUpdate(rows, i, next, InState(s));
    }
  }

  /** Over a whole run the pool keeps counting the rows: it takes each attempt exactly when the row is queued. */
  method RunPool(pool: Pool, rows: seq<Slot>, run: seq<Attempt>) returns (taken: seq<bool>)
    requires pool.Represents(rows) && |rows| <= 0xff
    requires forall k :: 0 <= k < |run| ==> run[k].slot < |rows|
    modifies pool, pool.queuedAt
    ensures pool.Represents(RunAttempts(rows, run))
    ensures |taken| == |run|
    ensures forall k :: 0 <= k < |run| ==>
      (taken[k] <==> RunAttempts(rows, run[..k])[run[k].slot].state == Queued)
  {
    hide CountIf;
    hide Attempted;
    hide RunAttempts;
    taken := [];
    NoAttempts(rows, run);
    for k := 0 to |run|
      invariant |RunAttempts(rows, run[..k])| == |rows| && pool.Represents(RunAttempts(rows, run[..k]))
      invariant |taken| == k
      invariant forall j :: 0 <= j < k ==> (taken[j] <==> RunAttempts(rows, run[..j])[run[j].slot].state == Queued)
    {
      var now := RunAttempts(rows, run[..k]);
      var row := now[run[k].slot];
      OneMoreAttempt(rows, run, k);
      var applied := false;
      if row.state == Queued {
        applied := pool.ApplyOutcome(row.attempts, run[k].outcome, now);
      } else {
        FinishedRowStays(now, run[k]);
      }
      taken := taken + [applied];
    }
    assert run[..|run|] == run;
  }
}
