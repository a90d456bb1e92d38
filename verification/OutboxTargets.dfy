/** Which inboxes a claimed outbox activity fans out to. */
module OutboxTargets {
  import opened Text
  import opened Wrappers

  datatype Account = Account(id: string)
  datatype Inbox = Inbox(url: string)

  /** A claimed activity that has not been fanned out yet. */
  datatype Delivery = Delivery(id: nat, account: Account, relayCandidate: bool)

  // ---- Domain blocks ------------------------------------------------------------------------

  /** `hostOf` is URL parsing: the host of an inbox address, if it has one. */
  predicate InboxBlocked(hostOf: Inbox -> Option<string>, inbox: Inbox, blocked: seq<string>) {
    match hostOf(inbox)
    case None => false
    case Some(host) =>
      exists i :: 0 <= i < |blocked| &&
        var domain := Lower(Trim(blocked[i]));
        domain != "" && (Lower(host) == domain || HasSuffix(Lower(host), "." + domain))
  }

  lemma SuffixIff(s: string, suffix: string)
    ensures HasSuffix(s, suffix) <==> exists front :: s == front + suffix
  {
    if HasSuffix(s, suffix) {
      assert s == s[..|s| - |suffix|] + suffix;
    }
  }

  /** A block covers a domain and everything below it, whatever the case, and nothing that only ends the same way. */
  lemma BlockCovers(hostOf: Inbox -> Option<string>, inbox: Inbox, blocked: seq<string>)
    ensures hostOf(inbox) == None ==> !InboxBlocked(hostOf, inbox, blocked)
    ensures hostOf(inbox).Some? ==>
      var host := hostOf(inbox).value;
      InboxBlocked(hostOf, inbox, blocked) <==>
      exists i :: 0 <= i < |blocked| && Trim(blocked[i]) != ""
        && (Lower(host) == Lower(Trim(blocked[i])) || exists front :: Lower(host) == front + "." + Lower(Trim(blocked[i])))
  {
    hide Trim;
    hide Lower;
    if hostOf(inbox).Some? {
      var host := hostOf(inbox).value;
      forall i | 0 <= i < |blocked|
        ensures var domain := Lower(Trim(blocked[i]));
          && (domain != "" <==> Trim(blocked[i]) != "")
          && (HasSuffix(Lower(host), "." + domain) <==> exists front :: Lower(host) == front + "." + domain)
      {
        var domain := Lower(Trim(blocked[i]));
        SuffixIff(Lower(host), "." + domain);
        forall front
          ensures front + ("." + domain) == front + "." + domain
        {
        }
      }
    }
    hide HasSuffix;
  }

  function Unblocked(hostOf: Inbox -> Option<string>, inboxes: seq<Inbox>, blocked: seq<string>): seq<Inbox> {
    if inboxes == [] then [] else
      (if InboxBlocked(hostOf, inboxes[0], blocked) then [] else [inboxes[0]])
      + Unblocked(hostOf, inboxes[1..], blocked)
  }

  lemma UnblockedStep(hostOf: Inbox -> Option<string>, x: Inbox, rest: seq<Inbox>, blocked: seq<string>)
    ensures Unblocked(hostOf, [x] + rest, blocked) ==
            (if InboxBlocked(hostOf, x, blocked) then [] else [x]) + Unblocked(hostOf, rest, blocked)
  {
    hide InboxBlocked;
    assert ([x] + rest)[1..] == rest;
  }

  lemma {:induction false} UnblockedOfConcat(hostOf: Inbox -> Option<string>, a: seq<Inbox>, b: seq<Inbox>,
                                             blocked: seq<string>)
    ensures Unblocked(hostOf, a + b, blocked) == Unblocked(hostOf, a, blocked) + Unblocked(hostOf, b, blocked)
  {
    hide InboxBlocked;
    if a == [] {
      assert a + b == b;
    } else {
      UnblockedOfConcat(hostOf, a[1..], b, blocked);
      UnblockedStep(hostOf, a[0], a[1..], blocked);
      UnblockedStep(hostOf, a[0], a[1..] + b, blocked);
      hide Unblocked;
      assert a == [a[0]] + a[1..] && a + b == [a[0]] + (a[1..] + b);
    }
  }

  lemma {:induction false} UnblockedCount(hostOf: Inbox -> Option<string>, a: seq<Inbox>, i: Inbox, blocked: seq<string>)
    ensures multiset(Unblocked(hostOf, a, blocked))[i] ==
            if InboxBlocked(hostOf, i, blocked) then 0 else multiset(a)[i]
  {
    hide InboxBlocked;
    if a != [] {
      UnblockedCount(hostOf, a[1..], i, blocked);
      assert a == [a[0]] + a[1..];
    }
  }

  /** What is not blocked stays, in order and as often as it was; what is blocked goes. */
  lemma UnblockedMeaning(hostOf: Inbox -> Option<string>, a: seq<Inbox>, b: seq<Inbox>, blocked: seq<string>)
    ensures Unblocked(hostOf, a + b, blocked) == Unblocked(hostOf, a, blocked) + Unblocked(hostOf, b, blocked)
    ensures forall i :: multiset(Unblocked(hostOf, a, blocked))[i] ==
                        if InboxBlocked(hostOf, i, blocked) then 0 else multiset(a)[i]
  {
    UnblockedOfConcat(hostOf, a, b, blocked);
    forall i
      ensures multiset(Unblocked(hostOf, a, blocked))[i] == if InboxBlocked(hostOf, i, blocked) then 0 else multiset(a)[i]
    {
      UnblockedCount(hostOf, a, i, blocked);
    }
  }

  // ---- Relays -------------------------------------------------------------------------------

  /** Appends each relay that is not in the list yet. */
  function WithRelays(inboxes: seq<Inbox>, relays: seq<Inbox>): seq<Inbox> {
    if relays == [] then inboxes
    else
      var rest := WithRelays(inboxes, relays[..|relays| - 1]);
      var relay := relays[|relays| - 1];
      if relay in rest then rest else rest + [relay]
  }

  ghost predicate Distinct(s: seq<Inbox>) {
    forall i, j :: 0 <= i < j < |s| ==> s[i] != s[j]
  }

  /** The followers' inboxes stay in front, and behind them each relay that is not among them stands exactly once. */
  lemma {:induction false} WithRelaysMeaning(inboxes: seq<Inbox>, relays: seq<Inbox>)
    ensures var r := WithRelays(inboxes, relays);
      && inboxes <= r
      && (forall i :: i in r[|inboxes|..] <==> i in relays && i !in inboxes)
      && Distinct(r[|inboxes|..])
  {
    if relays != [] {
      var n := |relays| - 1;
      var rest := WithRelays(inboxes, relays[..n]);
      WithRelaysMeaning(inboxes, relays[..n]);
      assert rest == inboxes + rest[|inboxes|..];
      assert relays == relays[..n] + [relays[n]];
      if relays[n] !in rest {
        assert (rest + [relays[n]])[|inboxes|..] == rest[|inboxes|..] + [relays[n]];
      }
    }
  }

  lemma {:induction false} NothingMissing(inboxes: seq<Inbox>, relays: seq<Inbox>)
    requires forall i :: i in relays ==> i in inboxes
    ensures WithRelays(inboxes, relays) == inboxes
  {
    if relays != [] {
      NothingMissing(inboxes, relays[..|relays| - 1]);
    }
  }

  lemma NonemptyWithRelays(inboxes: seq<Inbox>, relays: seq<Inbox>)
    requires relays != []
    ensures WithRelays(inboxes, relays) != []
  {
    WithRelaysMeaning(inboxes, relays);
    assert relays[0] in relays;
  }

  lemma WithRelaysTwice(inboxes: seq<Inbox>, relays: seq<Inbox>)
    ensures WithRelays(WithRelays(inboxes, relays), relays) == WithRelays(inboxes, relays)
  {
    WithRelaysMeaning(inboxes, relays);
    var r := WithRelays(inboxes, relays);
    assert r == inboxes + r[|inboxes|..];
    NothingMissing(r, relays);
  }

  // ---- The plan -----------------------------------------------------------------------------

  function TargetsIn(plan: map<Account, seq<Inbox>>, a: Account): seq<Inbox> {
    if a in plan then plan[a] else []
  }

  /** Some delivery of the account may go through relays; which one does not matter. */
  ghost predicate HasCandidate(deliveries: seq<Delivery>, a: Account)
    ensures HasCandidate(deliveries, a) <==>
            exists i :: 0 <= i < |deliveries| && deliveries[i].account == a && deliveries[i].relayCandidate
  {
    deliveries != [] &&
    var n := |deliveries| - 1;
    (deliveries[n].account == a && deliveries[n].relayCandidate) || HasCandidate(deliveries[..n], a)
  }

  ghost predicate PlanHas(plan: map<Account, seq<Inbox>>, a: Account, targets: seq<Inbox>) {
    (a in plan <==> targets != []) && TargetsIn(plan, a) == targets
  }

  /** The inboxes an account's deliveries go to. */
  ghost function PlannedFor(a: Account, deliveries: seq<Delivery>, followers: map<Account, seq<Inbox>>,
                            blocks: map<Account, seq<string>>, relays: seq<Inbox>,
                            hostOf: Inbox -> Option<string>): seq<Inbox>
  {
    var base := Unblocked(hostOf, TargetsIn(followers, a), if a in blocks then blocks[a] else []);
    if HasCandidate(deliveries, a) then WithRelays(base, relays) else base
  }

  /** Unblocked follower inboxes per account, then the relays for every account with a relay candidate. */
  method PlanTargets(deliveries: seq<Delivery>, followers: map<Account, seq<Inbox>>,
                     blocks: map<Account, seq<string>>, relays: seq<Inbox>, hostOf: Inbox -> Option<string>)
    returns (plan: map<Account, seq<Inbox>>)
    ensures forall a :: PlanHas(plan, a, PlannedFor(a, deliveries, followers, blocks, relays, hostOf))
  {
    plan := map[];
    var todo := followers.Keys;
    while todo != {}
      invariant todo <= followers.Keys
      invariant forall a :: PlanHas(plan, a,
        if a in todo then [] else PlannedFor(a, [], followers, blocks, relays, hostOf))
      decreases todo
    {
      var a :| a in todo;
      todo := todo - {a};
      var targets := Unblocked(hostOf, followers[a], if a in blocks then blocks[a] else []);
      if targets != [] {
        plan := plan[a := targets];
      }
    }
    if relays == [] {
      NoRelays(deliveries, followers, blocks, hostOf);
      return;
    }
    for i := 0 to |deliveries|
      invariant forall a :: PlanHas(plan, a, PlannedFor(a, deliveries[..i], followers, blocks, relays, hostOf))
    {
      var d := deliveries[i];
      ghost var before, seen := plan, deliveries[..i + 1];
      if d.relayCandidate {
        var entry := AddMissingRelays(TargetsIn(plan, d.account), relays);
        plan := plan[d.account := entry];
      }
      forall a
        ensures PlanHas(plan, a, PlannedFor(a, seen, followers, blocks, relays, hostOf))
      {
        assert PlanHas(before, a, PlannedFor(a, deliveries[..i], followers, blocks, relays, hostOf));
        CandidateSoFar(deliveries, i, a);
        WithRelaysTwice(PlannedFor(a, [], followers, blocks, relays, hostOf), relays);
        NonemptyWithRelays(TargetsIn(before, a), relays);
      }
    }
    assert deliveries[..|deliveries|] == deliveries;
  }

  method AddMissingRelays(entry: seq<Inbox>, relays: seq<Inbox>) returns (added: seq<Inbox>)
    ensures added == WithRelays(entry, relays)
  {
    added := entry;
    for i := 0 to |relays|
      invariant added == WithRelays(entry, relays[..i])
    {
      assert relays[..i + 1][..i] == relays[..i];
      if relays[i] !in added {
        added := added + [relays[i]];
      }
    }
    assert relays[..|relays|] == relays;
  }

  lemma CandidateSoFar(deliveries: seq<Delivery>, i: nat, a: Account)
    requires i < |deliveries|
    ensures HasCandidate(deliveries[..i + 1], a) <==>
      HasCandidate(deliveries[..i], a) || (deliveries[i].relayCandidate && deliveries[i].account == a)
  {
    assert deliveries[..i + 1][..i] == deliveries[..i];
  }

  lemma NoRelays(deliveries: seq<Delivery>, followers: map<Account, seq<Inbox>>, blocks: map<Account, seq<string>>,
                 hostOf: Inbox -> Option<string>)
    ensures forall a :: PlannedFor(a, deliveries, followers, blocks, [], hostOf)
                        == PlannedFor(a, [], followers, blocks, [], hostOf)
  {
  }

  // ---- Which deliveries have targets --------------------------------------------------------

  /** The deliveries whose account has targets, or has none, in order. */
  function Selected(deliveries: seq<Delivery>, plan: map<Account, seq<Inbox>>, withTargets: bool): seq<Delivery> {
    if deliveries == [] then []
    else
      var last := deliveries[|deliveries| - 1];
      Selected(deliveries[..|deliveries| - 1], plan, withTargets)
      + (if (TargetsIn(plan, last.account) != []) == withTargets then [last] else [])
  }

  method PartitionByTargets(deliveries: seq<Delivery>, plan: map<Account, seq<Inbox>>)
    returns (withTargets: seq<Delivery>, completed: seq<Delivery>)
    ensures withTargets == Selected(deliveries, plan, true) && completed == Selected(deliveries, plan, false)
  {
    withTargets, completed := [], [];
    for i := 0 to |deliveries|
      invariant withTargets == Selected(deliveries[..i], plan, true)
      invariant completed == Selected(deliveries[..i], plan, false)
    {
      var d := deliveries[i];
      assert deliveries[..i + 1][..i] == deliveries[..i];
      if d.account in plan && plan[d.account] != [] {
        withTargets := withTargets + [d];
      } else {
        completed := completed + [d];
      }
    }
    assert deliveries[..|deliveries|] == deliveries;
  }

  lemma SelectedSnoc(init: seq<Delivery>, last: Delivery, plan: map<Account, seq<Inbox>>, side: bool)
    ensures Selected(init + [last], plan, side) ==
            if (TargetsIn(plan, last.account) != []) == side then Selected(init, plan, side) + [last]
            else Selected(init, plan, side)
  {
    assert (init + [last])[..|init|] == init;
  }

  lemma NoneSelected(plan: map<Account, seq<Inbox>>)
    ensures Selected([], plan, true) == Selected([], plan, false) == []
  {
  }

  lemma {:induction false} SelectedOnSide(deliveries: seq<Delivery>, plan: map<Account, seq<Inbox>>, side: bool)
    ensures forall d :: d in Selected(deliveries, plan, side) ==> (TargetsIn(plan, d.account) != [] <==> side)
  {
    hide TargetsIn;
    if deliveries != [] {
      SelectedOnSide(deliveries[..|deliveries| - 1], plan, side);
    }
  }

  lemma {:induction false} SelectedSplits(deliveries: seq<Delivery>, plan: map<Account, seq<Inbox>>)
    ensures multiset(Selected(deliveries, plan, true)) + multiset(Selected(deliveries, plan, false)) == multiset(deliveries)
  {
    hide TargetsIn;
    if deliveries == [] {
      NoneSelected(plan);
    } else {
      hide Selected;
      var init, last := deliveries[..|deliveries| - 1], deliveries[|deliveries| - 1];
      SelectedSplits(init, plan);
      assert deliveries == init + [last];
      SelectedSnoc(init, last, plan, true);
      SelectedSnoc(init, last, plan, false);
    }
  }

  /** Every delivery is on exactly one of the two sides: with those whose account has targets, or with the others. */
  lemma PartitionMeaning(deliveries: seq<Delivery>, plan: map<Account, seq<Inbox>>)
    ensures multiset(Selected(deliveries, plan, true)) + multiset(Selected(deliveries, plan, false)) == multiset(deliveries)
    ensures forall d :: d in Selected(deliveries, plan, true) ==> TargetsIn(plan, d.account) != []
    ensures forall d :: d in Selected(deliveries, plan, false) ==> TargetsIn(plan, d.account) == []
  {
    SelectedSplits(deliveries, plan);
    SelectedOnSide(deliveries, plan, true);
    SelectedOnSide(deliveries, plan, false);
  }

  /** Each side keeps the order of the batch. */
  lemma {:induction false} SelectedOfConcat(a: seq<Delivery>, b: seq<Delivery>, plan: map<Account, seq<Inbox>>, side: bool)
    ensures Selected(a + b, plan, side) == Selected(a, plan, side) + Selected(b, plan, side)
  {
    hide TargetsIn;
    hide Selected;
    if b == [] {
      assert a + b == a;
      NoneSelected(plan);
    } else {
      var init, last := b[..|b| - 1], b[|b| - 1];
      SelectedOfConcat(a, init, plan, side);
      assert b == init + [last] && a + b == (a + init) + [last];
      SelectedSnoc(init, last, plan, side);
      SelectedSnoc(a + init, last, plan, side);
    }
  }
}
