/** Cursor paging over the pending follow requests, local and remote ones merged. */
module FollowPaging {
  import opened Wrappers

  const ROWID_SPAN := 1_000_000

  /** A row of either table: when it was made, in seconds, and its number in its own table. */
  datatype Request = Request(remote: bool, second: int, rowid: nat)
  {
    function Cursor(): int {
      second * ROWID_SPAN + rowid
    }
  }

  /** Newer first; the stable sort's comparison. */
  predicate Before(a: Request, b: Request) {
    a.Cursor() > b.Cursor() || (a.Cursor() == b.Cursor() && a.second >= b.second)
  }

  ghost predicate Descending(s: seq<Request>) {
    forall i, j :: 0 <= i < j < |s| ==> s[i].Cursor() >= s[j].Cursor()
  }

  ghost predicate DistinctCursors(s: seq<Request>) {
    forall i, j :: 0 <= i < j < |s| ==> s[i].Cursor() != s[j].Cursor()
  }

  /** Cursors order requests as (second, rowid) does, exactly as long as row numbers stay below a million. */
  lemma CursorOrderIff(bound: nat)
    ensures (forall a: Request, b: Request :: a.rowid <= bound && b.rowid <= bound ==>
               (a.Cursor() < b.Cursor() <==> a.second < b.second || (a.second == b.second && a.rowid < b.rowid)))
            <==> bound < 1_000_000
  {
    if bound >= ROWID_SPAN {
      var a, b := Request(false, 1, 0), Request(false, 0, ROWID_SPAN);
      assert a.Cursor() == b.Cursor() && b.second < a.second;
    }
  }

  // ---- Listing ------------------------------------------------------------------------------

  function Inserted(r: Request, s: seq<Request>): seq<Request> {
    if s == [] || Before(r, s[0]) then [r] + s else [s[0]] + Inserted(r, s[1..])
  }

  /** Local rows, then remote rows, sorted with the newest first. */
  function Sorted(s: seq<Request>): seq<Request> {
    if s == [] then [] else Inserted(s[0], Sorted(s[1..]))
  }

  lemma BeforeOrders(a: Request, b: Request)
    ensures if Before(a, b) then a.Cursor() >= b.Cursor() else a.Cursor() <= b.Cursor()
  {
  }

  lemma {:induction false} InsertedMeaning(r: Request, s: seq<Request>)
    requires Descending(s)
    ensures Descending(Inserted(r, s)) && multiset(Inserted(r, s)) == multiset{r} + multiset(s)
  {
    hide Before;
    hide Request.Cursor;
    if s != [] {
      BeforeOrders(r, s[0]);
      assert s == [s[0]] + s[1..];
      if !Before(r, s[0]) {
        var rest := Inserted(r, s[1..]);
        InsertedMeaning(r, s[1..]);
        InsertedMembers(r, s[1..]);
        assert forall j :: 0 <= j < |rest| ==> rest[j] in rest;
      }
    }
  }

  lemma {:induction false} InsertedMembers(r: Request, s: seq<Request>)
    ensures forall x :: x in Inserted(r, s) <==> x == r || x in s
  {
    if s != [] && !Before(r, s[0]) {
      InsertedMembers(r, s[1..]);
    }
  }

  lemma {:induction false} SortedMeaning(s: seq<Request>)
    ensures Descending(Sorted(s)) && multiset(Sorted(s)) == multiset(s)
  {
    if s != [] {
      SortedMeaning(s[1..]);
      InsertedMeaning(s[0], Sorted(s[1..]));
      assert s == [s[0]] + s[1..];
    }
  }

  /** Where cursors tie, the later second comes first. */
  ghost predicate TiesBySecond(s: seq<Request>) {
    forall i, j :: 0 <= i < j < |s| && s[i].Cursor() == s[j].Cursor() ==> s[i].second >= s[j].second
  }

  lemma {:induction false} InsertedTies(r: Request, s: seq<Request>)
    requires Descending(s) && TiesBySecond(s)
    ensures TiesBySecond(Inserted(r, s))
  {
    hide Request.Cursor;
    if s != [] {
      if Before(r, s[0]) {
        assert forall j :: 0 <= j < |s| ==> s[0].Cursor() >= s[j].Cursor();
      } else {
        var rest := Inserted(r, s[1..]);
        InsertedTies(r, s[1..]);
        InsertedMembers(r, s[1..]);
        forall j | 0 <= j < |rest| && rest[j].Cursor() == s[0].Cursor()
          ensures s[0].second >= rest[j].second
        {
          assert rest[j] in rest;
          if x: nat :| x < |s| - 1 && s[1..][x] == rest[j] {
            assert s[x + 1] == rest[j];
          }
        }
      }
    }
  }

  lemma {:induction false} SortedTies(s: seq<Request>)
    ensures TiesBySecond(Sorted(s))
  {
    if s != [] {
      SortedTies(s[1..]);
      SortedMeaning(s[1..]);
      InsertedTies(s[0], Sorted(s[1..]));
    }
  }

  lemma SortedMembers(s: seq<Request>)
    ensures forall r :: r in Sorted(s) <==> r in s
  {
    SortedMeaning(s);
    hide Sorted;
    forall r
      ensures r in Sorted(s) <==> r in s
    {
      assert r in multiset(Sorted(s)) <==> r in multiset(s);
    }
  }

  // ---- One page -----------------------------------------------------------------------------

  function Clamp(limit: int): (n: nat)
    ensures 1 <= n <= 80
  {
    if limit < 1 then 1 else if limit > 80 then 80 else limit
  }

  predicate Within(r: Request, maxId: Option<int>, sinceId: Option<int>) {
    && (maxId.Some? ==> r.Cursor() < maxId.value)
    && (sinceId.Some? ==> r.Cursor() > sinceId.value)
  }

  function Retained(s: seq<Request>, maxId: Option<int>, sinceId: Option<int>): (r: seq<Request>)
    ensures |r| <= |s|
  {
    if s == [] then []
    else
      var rest, last := Retained(s[..|s| - 1], maxId, sinceId), s[|s| - 1];
      if Within(last, maxId, sinceId) then rest + [last] else rest
  }

  lemma {:induction false} RetainedMembers(s: seq<Request>, maxId: Option<int>, sinceId: Option<int>)
    ensures forall x :: x in Retained(s, maxId, sinceId) <==> x in s && Within(x, maxId, sinceId)
  {
    if s != [] {
      RetainedMembers(s[..|s| - 1], maxId, sinceId);
      assert s == s[..|s| - 1] + [s[|s| - 1]];
    }
  }

  function PageOf(s: seq<Request>, maxId: Option<int>, sinceId: Option<int>, limit: int): seq<Request> {
    var r := Retained(s, maxId, sinceId);
    if |r| > Clamp(limit) then r[..Clamp(limit)] else r
  }

  method FollowRequestsPage(local: seq<Request>, remote: seq<Request>, maxId: Option<int>, sinceId: Option<int>, limit: int)
    returns (page: seq<Request>, firstId: Option<int>, lastId: Option<int>)
    ensures page == PageOf(Sorted(local + remote), maxId, sinceId, limit)
    ensures forall r :: r in page ==>
      && r in local + remote
      && (maxId.Some? ==> r.Cursor() < maxId.value) && (sinceId.Some? ==> r.Cursor() > sinceId.value)
    ensures |page| <= (if limit < 1 then 1 else if limit > 80 then 80 else limit)
    ensures forall r :: r in local + remote && r !in page
                        && (maxId.Some? ==> r.Cursor() < maxId.value) && (sinceId.Some? ==> r.Cursor() > sinceId.value) ==>
      && |page| == (if limit < 1 then 1 else if limit > 80 then 80 else limit)
      && forall p :: p in page ==> p.Cursor() >= r.Cursor()
    ensures page == [] ==> firstId == lastId == None
    ensures page != [] ==> firstId == Some(page[0].Cursor()) && lastId == Some(page[|page| - 1].Cursor())
    ensures forall r :: r in page ==> firstId.Some? && lastId.Some? && firstId.value >= r.Cursor() >= lastId.value
  {
    hide Sorted;
    hide Retained;
    hide Descending;
    hide Request.Cursor;
    var requests := Sorted(local + remote);
    page := Retain(requests, maxId, None);
    page := Retain(page, None, sinceId);
    RetainedTwice(requests, maxId, sinceId);
    if |page| > Clamp(limit) {
      page := page[..Clamp(limit)];
    }
    firstId := if page == [] then None else Some(page[0].Cursor());
    lastId := if page == [] then None else Some(page[|page| - 1].Cursor());
    SortedMeaning(local + remote);
    PageBounds(requests, maxId, sinceId, limit);
    PageHoldsNewest(requests, maxId, sinceId, limit);
    SortedMembers(local + remote);
    hide PageOf;
  }

  lemma DescendingSnoc(s: seq<Request>, last: Request)
    requires Descending(s) && forall x :: x in s ==> x.Cursor() >= last.Cursor()
    ensures Descending(s + [last])
  {
    hide Request.Cursor;
    assert forall i :: 0 <= i < |s| ==> s[i] in s;
  }

  lemma {:induction false} RetainedDescends(s: seq<Request>, maxId: Option<int>, sinceId: Option<int>)
    requires Descending(s)
    ensures Descending(Retained(s, maxId, sinceId))
  {
    hide Request.Cursor;
    if s != [] {
      var init, last := s[..|s| - 1], s[|s| - 1];
      RetainedDescends(init, maxId, sinceId);
      RetainedMembers(init, maxId, sinceId);
      if Within(last, maxId, sinceId) {
        assert forall x :: x in init ==> x.Cursor() >= last.Cursor();
        DescendingSnoc(Retained(init, maxId, sinceId), last);
      }
    }
  }

  lemma PageBounds(s: seq<Request>, maxId: Option<int>, sinceId: Option<int>, limit: int)
    requires Descending(s)
    ensures var page := PageOf(s, maxId, sinceId, limit);
      forall r :: r in page ==> Within(r, maxId, sinceId) && page[0].Cursor() >= r.Cursor() >= page[|page| - 1].Cursor()
  {
    RetainedMembers(s, maxId, sinceId);
    RetainedDescends(s, maxId, sinceId);
    var kept, page := Retained(s, maxId, sinceId), PageOf(s, maxId, sinceId, limit);
    forall r | r in page
      ensures Within(r, maxId, sinceId) && page[0].Cursor() >= r.Cursor() >= page[|page| - 1].Cursor()
    {
      var i :| 0 <= i < |page| && page[i] == r;
      assert kept[i] == r && r in kept;
    }
  }

  /** What lies in the window but not on the page is not newer than anything on it, and the page is full. */
  lemma PageHoldsNewest(s: seq<Request>, maxId: Option<int>, sinceId: Option<int>, limit: int)
    requires Descending(s)
    ensures var page := PageOf(s, maxId, sinceId, limit);
      && |page| <= Clamp(limit)
      && (forall r :: r in page ==> r in s)
      && forall r :: r in s && r !in page && Within(r, maxId, sinceId) ==>
           |page| == Clamp(limit) && forall p :: p in page ==> p.Cursor() >= r.Cursor()
  {
    RetainedMembers(s, maxId, sinceId);
    RetainedDescends(s, maxId, sinceId);
    var kept, page := Retained(s, maxId, sinceId), PageOf(s, maxId, sinceId, limit);
    forall r | r in s && r !in page && Within(r, maxId, sinceId)
      ensures |page| == Clamp(limit) && forall p :: p in page ==> p.Cursor() >= r.Cursor()
    {
      var i :| 0 <= i < |kept| && kept[i] == r;
      assert forall j :: 0 <= j < |page| ==> page[j] == kept[j] && page[j] in page;
    }
  }

  method Retain(s: seq<Request>, maxId: Option<int>, sinceId: Option<int>) returns (kept: seq<Request>)
    ensures kept == Retained(s, maxId, sinceId)
  {
    kept := [];
    for i := 0 to |s|
      invariant kept == Retained(s[..i], maxId, sinceId)
    {
      assert s[..i + 1][..i] == s[..i];
      if Within(s[i], maxId, sinceId) {
        kept := kept + [s[i]];
      }
    }
    assert s[..|s|] == s;
  }

  lemma {:induction false} RetainedTwice(s: seq<Request>, maxId: Option<int>, sinceId: Option<int>)
    ensures Retained(Retained(s, maxId, None), None, sinceId) == Retained(s, maxId, sinceId)
  {
    if s != [] {
      var n := |s| - 1;
      RetainedTwice(s[..n], maxId, sinceId);
      var r := Retained(s[..n], maxId, None);
      assert (r + [s[n]])[..|r|] == r;
    }
  }

  // ---- Walking ------------------------------------------------------------------------------

  /** Continuing behind an entry leaves fewer. */
  lemma {:induction false} RetainedShrinks(s: seq<Request>, maxId: Option<int>, x: Request)
    requires x in s && Within(x, maxId, None)
    ensures |Retained(s, Some(x.Cursor()), None)| < |Retained(s, maxId, None)|
  {
    var n := |s| - 1;
    assert s == s[..n] + [s[n]];
    if x in s[..n] {
      RetainedShrinks(s[..n], maxId, x);
    } else {
      RetainedNoMore(s[..n], maxId, x);
    }
  }

  lemma {:induction false} RetainedNoMore(s: seq<Request>, maxId: Option<int>, x: Request)
    requires Within(x, maxId, None)
    ensures |Retained(s, Some(x.Cursor()), None)| <= |Retained(s, maxId, None)|
  {
    if s != [] {
      RetainedNoMore(s[..|s| - 1], maxId, x);
    }
  }

  /** All pages, one after the other, each asked for with the last cursor of the one before. */
  function Walk(s: seq<Request>, maxId: Option<int>, limit: int): seq<Request>
    decreases |Retained(s, maxId, None)|
  {
    var page := PageOf(s, maxId, None, limit);
    if page == [] then []
    else
      var last := page[|page| - 1];
      RetainedMembers(s, maxId, None);
      assert last in Retained(s, maxId, None);
      RetainedShrinks(s, maxId, last);
      page + Walk(s, Some(last.Cursor()), limit)
  }

  /** Exactly the entries from position k on lie behind the cursor. */
  ghost predicate StartsAt(s: seq<Request>, maxId: Option<int>, k: nat) {
    k <= |s| && forall i :: 0 <= i < |s| ==> (Within(s[i], maxId, None) <==> k <= i)
  }

  lemma RetainedSnoc(s: seq<Request>, last: Request, maxId: Option<int>)
    ensures Retained(s + [last], maxId, None) ==
            if Within(last, maxId, None) then Retained(s, maxId, None) + [last] else Retained(s, maxId, None)
  {
    hide Within;
    assert (s + [last])[..|s|] == s;
  }

  lemma NoneRetained(maxId: Option<int>)
    ensures Retained([], maxId, None) == []
  {
  }

  lemma StartsInFront(s: seq<Request>, last: Request, maxId: Option<int>, k: nat)
    requires StartsAt(s + [last], maxId, k)
    ensures StartsAt(s, maxId, if k <= |s| then k else |s|)
    ensures Within(last, maxId, None) <==> k <= |s|
  {
    hide Within;
    var longer := s + [last];
    assert longer[|s|] == last && forall i :: 0 <= i < |s| ==> longer[i] == s[i];
  }

  lemma {:induction false} RetainedIsSuffix(s: seq<Request>, maxId: Option<int>, k: nat)
    requires StartsAt(s, maxId, k)
    ensures Retained(s, maxId, None) == s[k..]
  {
    if s == [] {
      NoneRetained(maxId);
    } else {
      var n := |s| - 1;
      var init, last := s[..n], s[n];
      assert s == init + [last];
      StartsInFront(init, last, maxId, k);
      RetainedIsSuffix(init, maxId, if k <= n then k else n);
      RetainedSnoc(init, last, maxId);
      hide *;
      if k <= n {
        assert s[k..] == init[k..] + [last];
      } else {
        assert k == |s| ==> s[k..] == [] == init[n..];
      }
    }
  }

  /** In a descending listing, what lies behind a cursor is a rest of it. */
  lemma {:induction false} CursorStarts(s: seq<Request>, cursor: int) returns (k: nat)
    requires Descending(s)
    ensures StartsAt(s, Some(cursor), k)
  {
    hide Request.Cursor;
    k := |s|;
    if s != [] {
      var n := |s| - 1;
      if s[n].Cursor() < cursor {
        assert forall i :: 0 <= i < n ==> s[..n][i] == s[i];
        k := CursorStarts(s[..n], cursor);
        forall i | 0 <= i < n
          ensures Within(s[i], Some(cursor), None) <==> k <= i
        {
          assert s[..n][i] == s[i];
        }
      }
    }
  }

  /** Behind the last entry of a page the listing goes on right there, or later if the next entry has the same cursor. */
  lemma NextStart(s: seq<Request>, last: nat, k: nat)
    requires Descending(s) && last < |s| && StartsAt(s, Some(s[last].Cursor()), k)
    ensures last < k
    ensures k == last + 1 <==> last + 1 == |s| || s[last].Cursor() != s[last + 1].Cursor()
  {
    hide Request.Cursor;
    assert !Within(s[last], Some(s[last].Cursor()), None);
    if last + 1 < |s| {
      assert Within(s[last + 1], Some(s[last].Cursor()), None) <==> k <= last + 1;
    }
  }

  /** From position k on, pages of n entries never end between two entries with one cursor. */
  ghost predicate PagesSeparate(s: seq<Request>, n: nat, k: nat)
    requires n > 0
    decreases |s| - k
  {
    k + n >= |s| || (s[k + n - 1].Cursor() != s[k + n].Cursor() && PagesSeparate(s, n, k + n))
  }

  lemma PageAt(s: seq<Request>, maxId: Option<int>, limit: int, k: nat)
    requires StartsAt(s, maxId, k)
    ensures PageOf(s, maxId, None, limit) == if k + Clamp(limit) <= |s| then s[k..k + Clamp(limit)] else s[k..]
  {
    RetainedIsSuffix(s, maxId, k);
  }

  lemma WalkStep(s: seq<Request>, maxId: Option<int>, limit: int)
    ensures var page := PageOf(s, maxId, None, limit);
      Walk(s, maxId, limit) == if page == [] then [] else page + Walk(s, Some(page[|page| - 1].Cursor()), limit)
  {
  }

  lemma SuffixIff<T>(s: seq<T>, k: nat, next: nat, rest: seq<T>)
    requires k <= next <= |s|
    ensures s[k..next] + rest == s[k..] <==> rest == s[next..]
  {
    assert s[k..] == s[k..next] + s[next..];
    if s[k..next] + rest == s[k..] {
      assert rest == (s[k..next] + rest)[next - k..] == (s[k..next] + s[next..])[next - k..] == s[next..];
    }
  }

  lemma PagesStep(s: seq<Request>, n: nat, k: nat)
    requires n > 0
    ensures PagesSeparate(s, n, k) <==>
      k + n >= |s| || (s[k + n - 1].Cursor() != s[k + n].Cursor() && PagesSeparate(s, n, k + n))
  {
    hide Request.Cursor;
  }

  lemma StartBound(s: seq<Request>, maxId: Option<int>, k: nat)
    requires StartsAt(s, maxId, k)
    ensures k <= |s|
  {
  }

  /** From any cursor on, the pages together are the rest of the listing exactly when they separate it. */
  lemma {:induction false} WalkFromIff(s: seq<Request>, maxId: Option<int>, limit: int, k: nat)
    requires Descending(s) && StartsAt(s, maxId, k)
    ensures |Walk(s, maxId, limit)| <= |s| - k
    ensures Walk(s, maxId, limit) == s[k..] <==> PagesSeparate(s, Clamp(limit), k)
    decreases |s| - k
  {
    hide *;
    var n := Clamp(limit);
    StartBound(s, maxId, k);
    PageAt(s, maxId, limit, k);
    WalkStep(s, maxId, limit);
    PagesStep(s, n, k);
    if k < |s| {
      var next := if k + n <= |s| then k + n else |s|;
      var behind := Some(s[next - 1].Cursor());
      assert PageOf(s, maxId, None, limit) == s[k..next];
      var k' := CursorStarts(s, s[next - 1].Cursor());
      StartBound(s, behind, k');
      NextStart(s, next - 1, k');
      WalkFromIff(s, behind, limit, k');
      SuffixIff(s, k, next, Walk(s, behind, limit));
      if next < |s| {
        assert next == k + n;
      }
    }
  }

  predicate IsMultiple(i: nat, n: nat)
    requires n > 0
  {
    i == 0 || (i >= n && IsMultiple(i - n, n))
  }

  /** No page of n entries ends between two entries with one cursor. */
  ghost predicate NoTieAcrossPages(s: seq<Request>, n: nat)
    requires n > 0
  {
    forall i :: 0 < i < |s| && IsMultiple(i, n) ==> s[i - 1].Cursor() != s[i].Cursor()
  }

  lemma {:induction false} NextMultiple(k: nat, n: nat, i: nat)
    requires n > 0 && IsMultiple(k, n) && k < i <= k + n
    ensures IsMultiple(i, n) <==> i == k + n
  {
    if k > 0 {
      NextMultiple(k - n, n, i - n);
    }
  }

  lemma {:induction false} SeparateIff(s: seq<Request>, n: nat, k: nat)
    requires n > 0 && IsMultiple(k, n)
    ensures PagesSeparate(s, n, k) <==>
      forall i :: k < i < |s| && IsMultiple(i, n) ==> s[i - 1].Cursor() != s[i].Cursor()
    decreases |s| - k
  {
    hide Request.Cursor;
    forall i | k < i <= k + n
      ensures IsMultiple(i, n) <==> i == k + n
    {
      NextMultiple(k, n, i);
    }
    if k + n < |s| {
      SeparateIff(s, n, k + n);
    }
    PagesStep(s, n, k);
    hide *;
  }

  /** For one page size: walking lists every request exactly once, exactly when no tie goes across the end of a page. */
  lemma WalkVisitsAllIff(s: seq<Request>, limit: int)
    requires Descending(s)
    ensures Walk(s, None, limit) == s <==> NoTieAcrossPages(s, Clamp(limit))
  {
    WalkFromIff(s, None, limit, 0);
    assert s[0..] == s;
    SeparateIff(s, Clamp(limit), 0);
    hide Walk;
    hide PagesSeparate;
    hide Request.Cursor;
  }

  lemma DistinctHasNoTie(s: seq<Request>, n: nat)
    requires n > 0 && DistinctCursors(s)
    ensures NoTieAcrossPages(s, n)
  {
    hide Request.Cursor;
  }

  lemma {:induction false} OneDivides(i: nat)
    ensures IsMultiple(i, 1)
  {
    if i > 0 {
      OneDivides(i - 1);
    }
  }

  lemma SinglesAreDistinct(s: seq<Request>)
    requires Descending(s) && NoTieAcrossPages(s, 1)
    ensures DistinctCursors(s)
  {
    hide Request.Cursor;
    forall i, j | 0 <= i < j < |s|
      ensures s[i].Cursor() != s[j].Cursor()
    {
      OneDivides(i + 1);
      assert s[i + 1 - 1].Cursor() != s[i + 1].Cursor();
    }
  }

  /** For every page size: exactly when no two requests share a cursor. */
  lemma WalkVisitsAllForEveryLimitIff(s: seq<Request>)
    requires Descending(s)
    ensures (forall limit :: Walk(s, None, limit) == s) <==> DistinctCursors(s)
  {
    if DistinctCursors(s) {
      forall limit
        ensures Walk(s, None, limit) == s
      {
        DistinctHasNoTie(s, Clamp(limit));
        WalkVisitsAllIff(s, limit);
      }
    } else if NoTieAcrossPages(s, 1) {
      SinglesAreDistinct(s);
    } else {
      var single: int := 1;
      WalkVisitsAllIff(s, single);
      assert Walk(s, None, single) != s;
    }
  }

  lemma DistinctParts(r: Request, s: seq<Request>)
    requires s != [] && DistinctCursors([r] + s)
    ensures DistinctCursors([r] + s[1..]) && r.Cursor() != s[0].Cursor()
    ensures forall x :: x in s[1..] ==> x.Cursor() != s[0].Cursor()
  {
    hide Request.Cursor;
    var all, rest := [r] + s, [r] + s[1..];
    assert all[0] == r && all[1] == s[0];
    assert forall i :: 0 < i < |rest| ==> rest[i] == all[i + 1];
    forall x | x in s[1..]
      ensures x.Cursor() != s[0].Cursor()
    {
      var i :| 0 <= i < |s| - 1 && s[1..][i] == x;
      assert all[i + 2] == x;
    }
  }

  lemma DistinctInFront(x: Request, s: seq<Request>)
    requires DistinctCursors(s) && forall y :: y in s ==> y.Cursor() != x.Cursor()
    ensures DistinctCursors([x] + s)
  {
    hide Request.Cursor;
    assert forall j :: 0 <= j < |s| ==> s[j] in s;
  }

  lemma {:induction false} InsertedKeepsDistinct(r: Request, s: seq<Request>)
    requires DistinctCursors([r] + s)
    ensures DistinctCursors(Inserted(r, s))
  {
    if s != [] && !Before(r, s[0]) {
      hide Before;
      DistinctParts(r, s);
      InsertedKeepsDistinct(r, s[1..]);
      InsertedMembers(r, s[1..]);
      DistinctInFront(s[0], Inserted(r, s[1..]));
      hide DistinctCursors;
    }
  }

  lemma {:induction false} SortedKeepsDistinct(s: seq<Request>)
    requires DistinctCursors(s)
    ensures DistinctCursors(Sorted(s))
  {
    if s != [] {
      var rest := Sorted(s[1..]);
      SortedKeepsDistinct(s[1..]);
      SortedMeaning(s[1..]);
      forall j | 0 <= j < |rest|
        ensures rest[j].Cursor() != s[0].Cursor()
      {
        assert rest[j] in multiset(rest) && rest[j] in s[1..];
      }
      InsertedKeepsDistinct(s[0], rest);
    }
  }

  /** When no two requests share a cursor, walking lists each pending request, local and remote, exactly once. */
  lemma WalkListsEveryRequestOnce(local: seq<Request>, remote: seq<Request>, limit: int)
    requires DistinctCursors(local + remote)
    ensures var walked := Walk(Sorted(local + remote), None, limit);
      Descending(walked) && multiset(walked) == multiset(local) + multiset(remote)
  {
    var s := local + remote;
    SortedMeaning(s);
    SortedKeepsDistinct(s);
    WalkVisitsAllForEveryLimitIff(Sorted(s));
    assert Walk(Sorted(s), None, limit) == Sorted(s);
  }

  lemma SortedPair(local: Request, remote: Request)
    requires local.second == remote.second && local.rowid == remote.rowid
    ensures Sorted([local] + [remote]) == [local, remote]
  {
    assert ([local] + [remote])[1..] == [remote] && [remote][1..] == [];
    assert Sorted([remote]) == [remote];
  }

  /**
   A local and a remote request of the same second with the same row number share a cursor: both are listed when they
   share a page, and only the first when a page ends between them.
   */
  lemma CollidingRequestIsSkipped(second: int, rowid: nat, limit: int)
    ensures var local, remote := Request(false, second, rowid), Request(true, second, rowid);
      && Sorted([local] + [remote]) == [local, remote]
      && Walk([local, remote], None, limit) == if limit >= 2 then [local, remote] else [local]
  {
    var local, remote := Request(false, second, rowid), Request(true, second, rowid);
    var s, n := [local, remote], Clamp(limit);
    SortedPair(local, remote);
    if limit >= 2 {
      assert NoTieAcrossPages(s, n);
      WalkVisitsAllIff(s, limit);
    } else {
      PageAt(s, None, limit, 0);
      assert PageOf(s, None, None, limit) == [local];
      WalkStep(s, None, limit);
      PageAt(s, Some(local.Cursor()), limit, 2);
      WalkStep(s, Some(local.Cursor()), limit);
    }
    hide *;
  }
}
