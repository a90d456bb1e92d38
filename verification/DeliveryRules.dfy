/** Retry rules of one delivery row, and what any sequence of attempts makes of it. */
module DeliveryRules {

  type u8 = x: int | 0 <= x < 0x100
  type u16 = x: int | 0 <= x < 0x1_0000
  type u32 = x: int | 0 <= x < 0x1_0000_0000
  type i32 = x: int | -0x8000_0000 <= x < 0x8000_0000

  const DELIVERY_MAX_ATTEMPTS: u32 := 5

  datatype Outcome = Success | Failure | PermanentFailure

  datatype ActivityState = Queued | Delivered | Failed

  datatype Slot = Slot(state: ActivityState, attempts: u32)

  const QUEUED_SLOT := Slot(Queued, 0)

  /** Reinterpreting 32 bits as signed, and back. */
  function AsI32(x: u32): i32 {
    if x < 0x8000_0000 then x else x - 0x1_0000_0000
  }

  function AsU32(x: i32): u32 {
    if x >= 0 then x else x + 0x1_0000_0000
  }

  function NextAttemptCount(attempts: i32): u32 {
    AsU32(if attempts == 0x7fff_ffff then attempts else attempts + 1)
  }

  predicate IsTerminalAttempt(nextAttempt: u32) {
    nextAttempt >= DELIVERY_MAX_ATTEMPTS
  }

  function StateAfterAttempt(current: ActivityState, nextAttempt: u32, outcome: Outcome): ActivityState {
    match (current, outcome)
    case (_, Success) => Delivered
    case (_, PermanentFailure) => Failed
    case (Queued, Failure) => if IsTerminalAttempt(nextAttempt) then Failed else Queued
    case (_, Failure) => current
  }

  function SlotAfterAttempt(slot: Slot, outcome: Outcome): Slot {
    if slot.state != Queued then slot else
      var nextAttempt := NextAttemptCount(AsI32(slot.attempts));
      Slot(StateAfterAttempt(slot.state, nextAttempt, outcome),
           if outcome != Success then nextAttempt else slot.attempts)
  }

  function DispositionForStatus(status: u16): Outcome {
    if 200 <= status <= 299 then Success
    else if status == 408 || status == 429 then Failure
    else if 400 <= status <= 499 then PermanentFailure
    else Failure
  }

  // ---- One row ------------------------------------------------------------------------------

  /** The row after its attempts had these outcomes, oldest first; attempts on a finished row change nothing. */
  function Replay(outcomes: seq<Outcome>): Slot {
    if outcomes == [] then QUEUED_SLOT
    else SlotAfterAttempt(Replay(outcomes[..|outcomes| - 1]), outcomes[|outcomes| - 1])
  }

  /** How many transient failures come before anything else. */
  function LeadingFailures(outcomes: seq<Outcome>): (k: nat)
    ensures k <= |outcomes|
    ensures forall i :: 0 <= i < k ==> outcomes[i] == Failure
    ensures k < |outcomes| ==> outcomes[k] != Failure
  {
    if outcomes == [] || outcomes[0] != Failure then 0 else 1 + LeadingFailures(outcomes[1..])
  }

  /** What the retry rules amount to: only the leading failures and the outcome after them matter. */
  function Verdict(outcomes: seq<Outcome>): Slot {
    var k := LeadingFailures(outcomes);
    if k >= DELIVERY_MAX_ATTEMPTS then Slot(Failed, DELIVERY_MAX_ATTEMPTS)
    else if k == |outcomes| then Slot(Queued, k)
    else if outcomes[k] == Success then Slot(Delivered, k)
    else Slot(Failed, k + 1)
  }

  lemma LeadingFailuresOfPrefix(outcomes: seq<Outcome>, k: nat, n: nat)
    requires k <= n <= |outcomes|
    requires forall i :: 0 <= i < k ==> outcomes[i] == Failure
    requires k == n || outcomes[k] != Failure
    ensures LeadingFailures(outcomes[..n]) == k
  {
    assert forall i :: 0 <= i < n ==> outcomes[..n][i] == outcomes[i];
  }

  lemma {:induction false} ReplayIsVerdict(outcomes: seq<Outcome>)
    ensures Replay(outcomes) == Verdict(outcomes)
  {
    if outcomes != [] {
      var n := |outcomes| - 1;
      var k := LeadingFailures(outcomes);
      ReplayIsVerdict(outcomes[..n]);
      LeadingFailuresOfPrefix(outcomes, if k <= n then k else n, n);
    }
  }

  /** A queued row has failed fewer than five times and nothing else happened to it; no row passes five attempts. */
  lemma ReplayBounds(outcomes: seq<Outcome>)
    ensures var r := Replay(outcomes);
      && r.attempts <= 5
      && (r.state == Queued <==> |outcomes| < 5
                                 && forall i :: 0 <= i < |outcomes| ==> outcomes[i] == Failure)
      && (r.state == Queued ==> r.attempts == |outcomes|)
  {
    ReplayIsVerdict(outcomes);
  }

  /** A failed row has used all five attempts, unless a permanent rejection ended it earlier. */
  lemma FailedRowsSpentAllAttempts(outcomes: seq<Outcome>)
    requires Replay(outcomes).state == Failed
    ensures var k := LeadingFailures(outcomes);
      Replay(outcomes).attempts >= DELIVERY_MAX_ATTEMPTS
      <==> !(k < DELIVERY_MAX_ATTEMPTS - 1 && k < |outcomes| && outcomes[k] == PermanentFailure)
  {
    ReplayIsVerdict(outcomes);
  }

  /** A first answer of 404 fails a row with one attempt. */
  lemma RejectedRowSpentOneAttempt()
    ensures Replay([DispositionForStatus(404)]) == Slot(Failed, 1)
  {
    assert [PermanentFailure][..0] == [];
  }

  function OutcomesOfStatuses(statuses: seq<u16>): (r: seq<Outcome>)
    ensures |r| == |statuses| && forall i :: 0 <= i < |r| ==> r[i] == DispositionForStatus(statuses[i])
  {
    seq(|statuses|, i requires 0 <= i < |statuses| => DispositionForStatus(statuses[i]))
  }

  /** An answer after which the delivery is tried again. */
  predicate TriedAgain(status: u16) {
    status < 200 || 300 <= status < 400 || 500 <= status || status == 408 || status == 429
  }

  /** A row is delivered exactly when one of its first five answers is in the 200s and every one before asks for a retry. */
  lemma DeliveredIff(statuses: seq<u16>)
    ensures Replay(OutcomesOfStatuses(statuses)).state == Delivered
            <==> exists k :: 0 <= k < |statuses| && k < 5 && 200 <= statuses[k] <= 299
                             && forall i :: 0 <= i < k ==> TriedAgain(statuses[i])
  {
    var outcomes := OutcomesOfStatuses(statuses);
    ReplayIsVerdict(outcomes);
    var n := LeadingFailures(outcomes);
    if Replay(outcomes).state == Delivered {
      assert 200 <= statuses[n] <= 299;
      assert forall i :: 0 <= i < n ==> outcomes[i] == DispositionForStatus(statuses[i]) && TriedAgain(statuses[i]);
    }
    if k :| 0 <= k < |statuses| && k < DELIVERY_MAX_ATTEMPTS && 200 <= statuses[k] <= 299
              && forall i :: 0 <= i < k ==> TriedAgain(statuses[i]) {
      assert forall i :: 0 <= i < k ==> outcomes[i] == Failure;
      assert outcomes[k] == Success;
      assert n == k;
    }
  }

  // ---- Many rows attempted in any order -----------------------------------------------------

  datatype Attempt = Attempt(slot: nat, outcome: Outcome)

  function Attempted(slots: seq<Slot>, a: Attempt): (r: seq<Slot>)
    ensures |r| == |slots|
  {
    if a.slot < |slots| then slots[a.slot := SlotAfterAttempt(slots[a.slot], a.outcome)] else slots
  }

  function RunAttempts(slots: seq<Slot>, run: seq<Attempt>): (r: seq<Slot>)
    ensures |r| == |slots|
  {
    if run == [] then slots else Attempted(RunAttempts(slots, run[..|run| - 1]), run[|run| - 1])
  }

  lemma FinishedRowStays(slots: seq<Slot>, a: Attempt)
    requires a.slot < |slots| && slots[a.slot].state != Queued
    ensures Attempted(slots, a) == slots
  {
  }

  lemma NoAttempts(slots: seq<Slot>, run: seq<Attempt>)
    ensures RunAttempts(slots, run[..0]) == slots
  {
  }

  lemma OneMoreAttempt(slots: seq<Slot>, run: seq<Attempt>, k: nat)
    requires k < |run|
    ensures RunAttempts(slots, run[..k + 1]) == Attempted(RunAttempts(slots, run[..k]), run[k])
  {
    assert run[..k + 1][..k] == run[..k];
  }

  function OutcomesOf(run: seq<Attempt>, slot: nat): seq<Outcome> {
    if run == [] then []
    else
      var last := run[|run| - 1];
      OutcomesOf(run[..|run| - 1], slot) + (if last.slot == slot then [last.outcome] else [])
  }

  /** Rows do not interfere: whatever the interleaving, each row ends as its own outcomes alone decide. */
  lemma {:induction false} SlotsAreIndependent(n: nat, run: seq<Attempt>, i: nat)
    requires i < n
    ensures RunAttempts(seq(n, _ => QUEUED_SLOT), run)[i] == Verdict(OutcomesOf(run, i))
  {
    ReplayIsVerdict(OutcomesOf(run, i));
    if run != [] {
      var init, last := run[..|run| - 1], run[|run| - 1];
      SlotsAreIndependent(n, init, i);
      ReplayIsVerdict(OutcomesOf(init, i));
      if last.slot == i {
        assert OutcomesOf(run, i)[..|OutcomesOf(init, i)|] == OutcomesOf(init, i);
      } else {
        assert OutcomesOf(run, i) == OutcomesOf(init, i);
      }
    }
  }

  /** One attempt on one of the rows held in place; a finished row is refused and left alone. */
  method ApplyAttempt(slots: array<Slot>, index: nat, outcome: Outcome) returns (applied: bool)
    requires index < slots.Length
    modifies slots
    ensures applied <==> old(slots[index]).state == Queued
    ensures slots[..] == Attempted(old(slots[..]), Attempt(index, outcome))
  {
    if slots[index].state != Queued {
      return false;
    }
    slots[index] := SlotAfterAttempt(slots[index], outcome);
    applied := true;
  }
}
