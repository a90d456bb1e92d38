/** What merging runs of `use` lines does to the paths they import. */
module MergeImports {
  import opened MergeUses
  import opened Sequences
  import opened Text
  import opened UseLines
  import opened UsePrefixes
  import opened Wrappers

  /** An imported path, whole, with the indentation and visibility of its line. */
  datatype FullPath = FullPath(indent: string, visibility: string, path: string)

  function PathsOf(l: Line): set<FullPath> {
    if Simple(l) then GroupPaths(KeyOf(l), ItemsIn(l)) else {}
  }

  function GroupPaths(k: Key, items: seq<string>): set<FullPath> {
    set t | t in items :: FullPath(k.indent, k.visibility, k.prefix + t)
  }

  function Paths(run: seq<Line>): set<FullPath> {
    if run == [] then {} else Paths(run[..|run| - 1]) + PathsOf(run[|run| - 1])
  }

  // ---- One group ----------------------------------------------------------------------------

  /**
   Several items are neither blank nor hold commas; an only item has no blank behind the segments it begins with, and
   if it is blank itself, the prefix has a segment to spare.
   */
  ghost predicate KeepsPaths(k: Key, items: seq<string>) {
    if |items| == 1 then
      if items[0] == "" then Prefix(k.prefix) != "" else Trim(Tail(items[0])) == Tail(items[0])
    else forall i :: 0 <= i < |items| ==> Listable(items[i])
  }

  lemma {:induction false} InAllPieces(items: seq<string>, t: string)
    ensures t in AllPieces(items) <==> exists i :: 0 <= i < |items| && t in Pieces(items[i])
  {
    hide Pieces;
    if items != [] {
      InAllPieces(items[1..], t);
      assert forall i :: 0 <= i < |items| - 1 ==> items[1..][i] == items[i + 1];
      if i :| 0 <= i < |items| && t in Pieces(items[i]) {
        assert i > 0 ==> t in Pieces(items[1..][i - 1]);
      }
    }
  }

  lemma {:induction false} ListablePieces(items: seq<string>)
    requires AreItems(items) && forall i :: 0 <= i < |items| ==> Listable(items[i])
    ensures AllPieces(items) == items
  {
    hide IsItem;
    hide Listable;
    hide Pieces;
    if items != [] {
      ListablePieces(items[1..]);
      PiecesOfItem(items[0], "");
      assert items == [items[0]] + items[1..];
    }
  }

  lemma UnlistableIsLost(items: seq<string>, t: string)
    requires !Listable(t)
    ensures t !in AllPieces(items)
  {
    InAllPieces(items, t);
    hide Pieces;
    hide Listable;
    forall i | 0 <= i < |items|
      ensures t !in Pieces(items[i])
    {
      PiecesOfItem(t, items[i]);
    }
  }

  lemma SamePathsSameItem(k: Key, items: seq<string>, t: string)
    ensures FullPath(k.indent, k.visibility, k.prefix + t) in GroupPaths(k, items) <==> t in items
  {
    if u :| u in items && k.prefix + u == k.prefix + t {
      assert u == (k.prefix + u)[|k.prefix|..] == (k.prefix + t)[|k.prefix|..] == t;
    }
  }

  lemma ListKeepsPathsIff(k: Key, items: seq<string>)
    requires AreItems(items)
    ensures GroupPaths(k, AllPieces(items)) == GroupPaths(k, items)
            <==> forall i :: 0 <= i < |items| ==> Listable(items[i])
  {
    hide IsItem;
    if forall i :: 0 <= i < |items| ==> Listable(items[i]) {
      ListablePieces(items);
    } else {
      var i :| 0 <= i < |items| && !Listable(items[i]);
      UnlistableIsLost(items, items[i]);
      hide AllPieces;
      SamePathsSameItem(k, items, items[i]);
      SamePathsSameItem(k, AllPieces(items), items[i]);
    }
  }

  lemma OnlyPath(k: Key, t: string)
    ensures GroupPaths(k, [t]) == {FullPath(k.indent, k.visibility, k.prefix + t)}
  {
    assert t in [t];
  }

  lemma SameFront(a: string, b: string, c: string)
    ensures a + b == a + c <==> b == c
  {
    if a + b == a + c {
      assert b == (a + b)[|a|..] == (a + c)[|a|..] == c;
    }
  }

  /** What is read from prefix and item, put together again. */
  lemma OnlyItemPathIff(p: string, t: string)
    requires IsPath(p) && p != ""
    ensures t != "" ==> (Prefix(p + t) + Trim(Tail(p + t)) == p + t <==> Trim(Tail(t)) == Tail(t))
    ensures t == "" ==> Prefix(p + t) + Trim(Tail(p + t)) == p + t == p
  {
    TailSplits(p + t);
    if t == "" {
      assert p + t == p;
      TailOfPath(p);
    } else {
      PrefixOfConcat(p, t);
      hide Prefix;
      hide Tail;
      hide Trim;
      hide IsPath;
      SameFront(p + Prefix(t), Trim(Tail(t)), Tail(t));
    }
  }

  lemma OnlyItemPaths(k: Key, t: string)
    requires IsKey(k) && IsItem(t)
    ensures var s := k.prefix + t;
      PathsOf(Merged(k, [t])) ==
        if Prefix(s) != "" then {FullPath(k.indent, k.visibility, Prefix(s) + Trim(Tail(s)))} else {}
  {
    var s := k.prefix + t;
    OnlyItemRead(k, t);
    OnlyPath(Key(k.indent, k.visibility, Prefix(s)), Trim(Tail(s)));
    hide Prefix;
    hide Tail;
    hide Trim;
    hide IsPath;
    hide ItemsIn;
    hide Simple;
    hide KeyOf;
    hide Merged;
    hide GroupPaths;
  }

  lemma OnlyItemKeepsPathsIff(k: Key, t: string)
    requires IsKey(k) && IsItem(t)
    ensures PathsOf(Merged(k, [t])) == GroupPaths(k, [t])
            <==> if t == "" then Prefix(k.prefix) != "" else Trim(Tail(t)) == Tail(t)
  {
    var s := k.prefix + t;
    KeyPrefix(k);
    OnlyItemPaths(k, t);
    OnlyPath(k, t);
    OnlyItemPathIff(k.prefix, t);
    if t == "" {
      assert s == k.prefix;
    } else {
      PrefixOfPath(k.prefix, t);
    }
    hide *;
    assert FullPath(k.indent, k.visibility, s) in {FullPath(k.indent, k.visibility, s)};
  }

  lemma ListPathsIff(k: Key, items: seq<string>)
    requires IsKey(k) && AreItems(items) && |items| != 1
    ensures PathsOf(Merged(k, items)) == GroupPaths(k, items)
            <==> forall i :: 0 <= i < |items| ==> Listable(items[i])
  {
    ListRead(k, items);
    ListKeepsPathsIff(k, items);
    hide AllPieces;
    hide ItemsIn;
    hide Simple;
    hide KeyOf;
    hide Merged;
    hide GroupPaths;
    hide Listable;
  }

  /** The line written for a group imports exactly what the group did if and only if the group is like that. */
  lemma GroupKeepsPathsIff(k: Key, items: seq<string>)
    requires IsKey(k) && AreItems(items)
    ensures PathsOf(Merged(k, items)) == GroupPaths(k, items) <==> KeepsPaths(k, items)
  {
    if |items| == 1 {
      assert items == [items[0]];
      OnlyItemKeepsPathsIff(k, items[0]);
    } else {
      ListPathsIff(k, items);
    }
    hide Prefix;
    hide Tail;
    hide Trim;
    hide Listable;
    hide PathsOf;
    hide GroupPaths;
    hide Merged;
  }

  lemma PrefixOfPath(p: string, t: string)
    requires IsPath(p) && p != "" && t != ""
    ensures Prefix(p + t) != ""
  {
    PrefixOfConcat(p, t);
  }

  // ---- A run --------------------------------------------------------------------------------

  lemma PathsSnoc(run: seq<Line>, l: Line)
    ensures Paths(run + [l]) == Paths(run) + PathsOf(l)
  {
    hide PathsOf;
    assert (run + [l])[..|run|] == run;
  }

  lemma NotSimpleNoPaths(l: Line)
    ensures !Simple(l) ==> PathsOf(l) == {}
  {
  }

  lemma NoPaths()
    ensures Paths([]) == {}
  {
  }

  /** Some key's items import the path. */
  ghost predicate ImportedUnder(run: seq<Line>, k: Key, p: FullPath) {
    k in KeySeq(run) && p in GroupPaths(k, ItemSeq(run, k))
  }

  lemma GroupPathsOfConcat(k: Key, a: seq<string>, b: seq<string>)
    ensures GroupPaths(k, a + b) == GroupPaths(k, a) + GroupPaths(k, b)
  {
    forall p
      ensures p in GroupPaths(k, a + b) <==> p in GroupPaths(k, a) + GroupPaths(k, b)
    {
    }
  }

  lemma ImportedSnoc(run: seq<Line>, l: Line, k: Key, p: FullPath)
    ensures ImportedUnder(run + [l], k, p) <==>
      ImportedUnder(run, k, p) || (Simple(l) && KeyOf(l) == k && p in PathsOf(l))
  {
    RunSnoc(run, l);
    ItemSnoc(run, l, k);
    GroupPathsOfConcat(k, ItemSeq(run, k), ItemsIn(l));
    if k !in KeySeq(run) {
      NoItemsWithoutKey(run, k);
      assert [] + ItemsIn(l) == ItemsIn(l);
    }
    hide KeySeq;
    hide ItemSeq;
    hide GroupPaths;
    hide ItemsIn;
    hide Simple;
    hide KeyOf;
  }

  lemma {:induction false} RunPaths(run: seq<Line>, p: FullPath)
    ensures p in Paths(run) <==> exists k :: ImportedUnder(run, k, p)
  {
    if run == [] {
      EmptyRun();
    } else {
      var init, l := run[..|run| - 1], run[|run| - 1];
      assert run == init + [l];
      RunPaths(init, p);
      PathsSnoc(init, l);
      NotSimpleNoPaths(l);
      forall k
        ensures ImportedUnder(run, k, p) <==>
          ImportedUnder(init, k, p) || (Simple(l) && KeyOf(l) == k && p in PathsOf(l))
      {
        ImportedSnoc(init, l, k, p);
      }
      SimpleIsUse(l);
      hide *;
      if p in PathsOf(l) {
        assert ImportedUnder(run, KeyOf(l), p);
      }
      if k :| ImportedUnder(init, k, p) {
        assert ImportedUnder(run, k, p);
      }
    }
  }

  /** Some written line imports the path. */
  ghost predicate WrittenUnder(run: seq<Line>, keys: seq<Key>, k: Key, p: FullPath) {
    k in keys && p in PathsOf(Merged(k, Group(run, k)))
  }

  lemma {:induction false} WrittenPaths(run: seq<Line>, keys: seq<Key>, p: FullPath)
    ensures p in Paths(GroupLines(run, keys)) <==> exists k :: WrittenUnder(run, keys, k, p)
  {
    if keys == [] {
      NoGroups(run);
      NoPaths();
    } else {
      var init, last := keys[..|keys| - 1], keys[|keys| - 1];
      assert keys == init + [last];
      WrittenPaths(run, init, p);
      LastGroup(run, init, last);
      PathsSnoc(GroupLines(run, init), Merged(last, Group(run, last)));
      hide Paths;
      hide GroupLines;
      hide PathsOf;
      hide Merged;
      hide Group;
      forall k
        ensures WrittenUnder(run, keys, k, p) <==>
          WrittenUnder(run, init, k, p) || (k == last && p in PathsOf(Merged(last, Group(run, last))))
      {
      }
      hide WrittenUnder;
      if p in PathsOf(Merged(last, Group(run, last))) {
        assert WrittenUnder(run, keys, last, p);
      }
    }
  }

  lemma {:induction false} AppendOthers(lines: seq<Line>, others: seq<Line>)
    requires forall i :: 0 <= i < |others| ==> others[i].Use? && !Simple(others[i])
    ensures Paths(lines + others) == Paths(lines)
  {
    hide Simple;
    hide PathsOf;
    hide Paths;
    if others == [] {
      assert lines + others == lines;
    } else {
      var init, last := others[..|others| - 1], others[|others| - 1];
      AppendOthers(lines, init);
      PathsSnoc(lines + init, last);
      NotSimpleNoPaths(last);
      assert lines + others == lines + init + [last];
    }
  }

  lemma SameItemsSamePaths(k: Key, a: seq<string>, b: seq<string>)
    requires forall t :: t in a <==> t in b
    ensures GroupPaths(k, a) == GroupPaths(k, b)
  {
  }

  lemma ImportedInGroup(run: seq<Line>, k: Key, p: FullPath)
    ensures ImportedUnder(run, k, p) <==> k in Keys(run) && p in GroupPaths(k, Group(run, k))
  {
    KeysMeaning(run, k);
    GroupMeaning(run, k);
    SameItemsSamePaths(k, Group(run, k), ItemSeq(run, k));
    hide Keys;
    hide Group;
    hide KeySeq;
    hide ItemSeq;
    hide GroupPaths;
  }

  /** Every group keeps its paths. */
  ghost predicate AllKept(run: seq<Line>) {
    forall k :: k in Keys(run) ==> KeepsPaths(k, Group(run, k))
  }

  lemma KeptGroup(run: seq<Line>, k: Key)
    requires k in Keys(run)
    ensures PathsOf(Merged(k, Group(run, k))) == GroupPaths(k, Group(run, k)) <==> KeepsPaths(k, Group(run, k))
  {
    KeysMeaning(run, k);
    GroupMeaning(run, k);
    GroupKeepsPathsIff(k, Group(run, k));
  }

  lemma MergedPaths(run: seq<Line>, p: FullPath)
    ensures p in Paths(MergedLines(run)) <==> exists k :: WrittenUnder(run, Keys(run), k, p)
  {
    OthersStandAlone(run);
    AppendOthers(GroupLines(run, Keys(run)), Others(run));
    WrittenPaths(run, Keys(run), p);
    MergedLinesAre(run);
    hide *;
  }

  /** When every group keeps its paths, so does the run. */
  lemma RunKeepsPaths(run: seq<Line>)
    requires AllKept(run)
    ensures Paths(MergedLines(run)) == Paths(run)
  {
    forall p
      ensures p in Paths(MergedLines(run)) <==> p in Paths(run)
    {
      RunPaths(run, p);
      MergedPaths(run, p);
      forall k
        ensures WrittenUnder(run, Keys(run), k, p) <==> ImportedUnder(run, k, p)
      {
        ImportedInGroup(run, k, p);
        if k in Keys(run) {
          KeptGroup(run, k);
        }
        hide Keys;
        hide Group;
        hide KeepsPaths;
        hide PathsOf;
        hide GroupPaths;
        hide Merged;
      }
      hide *;
    }
  }

  // ---- Exactly when, for a run of regular items ---------------------------------------------

  /** Not blank, without blanks behind the segments it begins with, and without those if it holds a comma. */
  ghost predicate Regular(t: string) {
    t != "" && Trim(Tail(t)) == Tail(t) && (Occurs(',', t) ==> Prefix(t) == "")
  }

  ghost predicate RegularItems(run: seq<Line>) {
    forall k, t :: k in Keys(run) && t in Group(run, k) ==> Regular(t)
  }

  predicate HasComma(t: string) {
    Occurs(',', t)
  }

  /** One item, or none with a comma. */
  predicate CommaFree(items: seq<string>) {
    |items| == 1 || forall t :: t in items ==> !HasComma(t)
  }

  lemma CommaFreeKeeps(k: Key, items: seq<string>)
    requires forall t :: t in items ==> Regular(t)
    ensures KeepsPaths(k, items) <==> CommaFree(items)
  {
    hide Prefix;
    hide Tail;
    hide Trim;
    hide Occurs;
    if |items| == 1 {
      assert items[0] in items;
    } else {
      forall i | 0 <= i < |items|
        ensures Listable(items[i]) <==> !HasComma(items[i])
      {
        assert items[i] in items;
      }
    }
  }

  lemma AllPiecesComma(items: seq<string>, t: string)
    requires t in AllPieces(items)
    ensures Listable(t)
  {
    if !Listable(t) {
      UnlistableIsLost(items, t);
    }
  }

  lemma CommaBehindPath(p: string, t: string)
    requires IsPath(p)
    ensures HasComma(p + t) <==> HasComma(t)
  {
    PathChars(p);
    hide IsPath;
    if i :| 0 <= i < |t| && t[i] == ',' {
      assert (p + t)[|p| + i] == ',';
    }
    if i :| 0 <= i < |p + t| && (p + t)[i] == ',' {
      assert i >= |p| by {
        assert i < |p| ==> IsPathChar(p[i]);
      }
      assert t[i - |p|] == ',';
    }
  }

  lemma RegularPathOfOne(k: Key, t: string, p: FullPath)
    requires IsKey(k) && IsItem(t) && Regular(t)
    ensures p in PathsOf(Merged(k, [t])) <==> p == FullPath(k.indent, k.visibility, k.prefix + t)
  {
    OnlyItemKeepsPathsIff(k, t);
    OnlyPath(k, t);
    hide *;
  }

  lemma PathOfList(k: Key, pieces: seq<string>, p: FullPath)
    requires IsKey(k) && p in GroupPaths(k, pieces) && forall t :: t in pieces ==> Listable(t)
    ensures !HasComma(p.path)
  {
    var t :| t in pieces && p == FullPath(k.indent, k.visibility, k.prefix + t);
    CommaBehindPath(k.prefix, t);
    hide IsPath;
    hide Occurs;
  }

  lemma ReadPaths(l: Line)
    ensures Simple(l) ==> PathsOf(l) == GroupPaths(KeyOf(l), ItemsIn(l))
  {
  }

  lemma PathOfWrittenList(k: Key, items: seq<string>, p: FullPath)
    requires IsKey(k) && AreItems(items) && |items| != 1 && p in PathsOf(Merged(k, items))
    ensures !HasComma(p.path)
  {
    ListRead(k, items);
    forall t | t in AllPieces(items)
      ensures Listable(t)
    {
      AllPiecesComma(items, t);
    }
    ReadPaths(Merged(k, items));
    PathOfList(k, AllPieces(items), p);
    hide *;
  }

  /** A path with a comma is written only by a line for that one item. */
  lemma CommaPathWrittenAlone(k: Key, items: seq<string>, p: FullPath)
    requires IsKey(k) && AreItems(items) && (forall t :: t in items ==> Regular(t))
    requires p in PathsOf(Merged(k, items)) && HasComma(p.path)
    ensures |items| == 1 && p == FullPath(k.indent, k.visibility, k.prefix + items[0])
  {
    if |items| == 1 {
      assert items == [items[0]] && items[0] in items && IsItem(items[0]);
      hide *;
      RegularPathOfOne(k, items[0], p);
    } else {
      PathOfWrittenList(k, items, p);
    }
  }

  lemma SameSplit(p: string, t: string, q: string, u: string)
    requires IsPath(p) && IsPath(q) && t != "" && u != "" && Prefix(t) == "" && Prefix(u) == ""
    requires p + t == q + u
    ensures p == q && t == u
  {
    PrefixOfConcat(p, t);
    PrefixOfConcat(q, u);
    hide *;
    assert p + "" == p && q + "" == q;
    SameFront(p, t, u);
  }

  lemma RunGroup(run: seq<Line>, k: Key)
    requires RegularItems(run) && k in Keys(run)
    ensures IsKey(k) && AreItems(Group(run, k)) && forall t :: t in Group(run, k) ==> Regular(t)
  {
    KeysMeaning(run, k);
    GroupMeaning(run, k);
    hide Keys;
    hide Group;
    hide KeySeq;
    hide ItemSeq;
    hide Regular;
    hide IsKey;
    hide AreItems;
  }

  lemma CommaHasNoPrefix(t: string)
    requires Regular(t) && HasComma(t)
    ensures t != "" && Prefix(t) == ""
  {
    hide Prefix;
    hide Tail;
    hide Trim;
  }

  /** Two groups with one path that holds a comma are one group. */
  lemma CommaPathHasOneKey(k: Key, t: string, other: Key, u: string)
    requires IsKey(k) && IsKey(other) && Regular(t) && Regular(u) && HasComma(t)
    requires FullPath(k.indent, k.visibility, k.prefix + t) == FullPath(other.indent, other.visibility, other.prefix + u)
    ensures k == other && HasComma(k.prefix + t)
  {
    KeyPrefix(k);
    KeyPrefix(other);
    hide *;
    CommaBehindPath(k.prefix, t);
    CommaBehindPath(other.prefix, u);
    CommaHasNoPrefix(t);
    CommaHasNoPrefix(u);
    SameSplit(k.prefix, t, other.prefix, u);
  }

  lemma CommaPathLost(run: seq<Line>, k: Key, t: string)
    requires RegularItems(run) && k in Keys(run) && t in Group(run, k) && HasComma(t) && |Group(run, k)| != 1
    ensures var p := FullPath(k.indent, k.visibility, k.prefix + t); p in Paths(run) && p !in Paths(MergedLines(run))
  {
    var p := FullPath(k.indent, k.visibility, k.prefix + t);
    SamePathsSameItem(k, Group(run, k), t);
    ImportedInGroup(run, k, p);
    RunPaths(run, p);
    MergedPaths(run, p);
    RunGroup(run, k);
    if p in Paths(MergedLines(run)) {
      var other :| WrittenUnder(run, Keys(run), other, p);
      RunGroup(run, other);
      CommaBehindPath(k.prefix, t);
      CommaPathWrittenAlone(other, Group(run, other), p);
      assert Group(run, other)[0] in Group(run, other);
      CommaPathHasOneKey(k, t, other, Group(run, other)[0]);
      assert false;
    }
  }

  /**
   A run of regular items keeps its paths if and only if every group of several items is free of commas. Lines of
   valid Rust are regular and free of commas.
   */
  lemma RunKeepsPathsIff(run: seq<Line>)
    requires RegularItems(run)
    ensures Paths(MergedLines(run)) == Paths(run) <==> forall k :: k in Keys(run) ==> CommaFree(Group(run, k))
  {
    if forall k :: k in Keys(run) ==> CommaFree(Group(run, k)) {
      forall k | k in Keys(run)
        ensures KeepsPaths(k, Group(run, k))
      {
        RunGroup(run, k);
        CommaFreeKeeps(k, Group(run, k));
      }
      RunKeepsPaths(run);
    } else {
      var k :| k in Keys(run) && !CommaFree(Group(run, k));
      var t :| t in Group(run, k) && HasComma(t);
      CommaPathLost(run, k, t);
    }
  }

  // ---- Tidy lines ---------------------------------------------------------------------------

  /** As rustfmt writes them: no blanks behind segments, and commas only between braces. */
  ghost predicate Tidy(l: Line) {
    Simple(l) ==>
      if StartsWithBrace(Trim(Tail(l.rest))) then forall t :: t in ItemsIn(l) ==> Trim(Tail(t)) == Tail(t)
      else Trim(Tail(l.rest)) == Tail(l.rest) && !HasComma(Tail(l.rest))
  }

  lemma {:induction false} TailHasNoPrefix(s: string)
    ensures Prefix(Tail(s)) == ""
    decreases |s|
  {
    var n := Segment(s);
    if 0 < n < |s| {
      PrefixStep(s);
      TailHasNoPrefix(s[n..]);
      hide Prefix;
      hide Segment;
      assert Tail(s) == Tail(s[n..]);
    }
  }

  lemma LoneItemOf(tail: string)
    requires !StartsWithBrace(Trim(tail))
    ensures ItemsOf(tail) == Some([Trim(tail)])
  {
    hide Trim;
    hide OpenBraces;
    hide Stripped;
    hide SplitAtCommas;
  }

  lemma SimpleHasPrefix(l: Line)
    requires Simple(l)
    ensures l.Use? && Prefix(l.rest) != ""
  {
    hide Prefix;
    hide Tail;
    hide ItemsOf;
  }

  /** The item of a line without braces. */
  lemma LoneItem(l: Line)
    requires Simple(l) && !StartsWithBrace(Trim(Tail(l.rest)))
    ensures ItemsIn(l) == [Trim(Tail(l.rest))] && Tail(l.rest) != ""
  {
    SimpleHasPrefix(l);
    TailSplits(l.rest);
    LoneItemOf(Tail(l.rest));
    ReadSplit(l, Prefix(l.rest), Tail(l.rest));
    hide *;
  }

  lemma TidyItem(l: Line, t: string)
    requires Tidy(l) && t in ItemsIn(l)
    ensures Regular(t) && !HasComma(t)
  {
    var tail := Tail(l.rest);
    if StartsWithBrace(Trim(tail)) {
      BraceListIsListable(l);
      hide Trim;
      hide Tail;
      hide Prefix;
      assert Listable(t) && Trim(Tail(t)) == Tail(t);
    } else {
      LoneItem(l);
      TailHasNoPrefix(l.rest);
      hide Trim;
      hide Prefix;
      hide ItemsOf;
      assert t == tail && Tail(t) == t[0..] == t;
    }
  }

  ghost predicate TidyItems(items: seq<string>) {
    forall t :: t in items ==> Regular(t) && !HasComma(t)
  }

  lemma TidyConcat(a: seq<string>, b: seq<string>)
    requires TidyItems(a) && TidyItems(b)
    ensures TidyItems(a + b)
  {
    hide Regular;
    hide HasComma;
  }

  lemma TidyItemsOfLine(l: Line)
    requires Tidy(l)
    ensures TidyItems(ItemsIn(l))
  {
    forall t | t in ItemsIn(l)
      ensures Regular(t) && !HasComma(t)
    {
      TidyItem(l, t);
    }
    hide Tidy;
    hide ItemsIn;
    hide Regular;
    hide HasComma;
  }

  lemma {:induction false} TidyItemSeq(run: seq<Line>, k: Key)
    requires forall i :: 0 <= i < |run| ==> Tidy(run[i])
    ensures TidyItems(ItemSeq(run, k))
  {
    hide Tidy;
    if run == [] {
      EmptyRun();
    } else {
      var init, l := run[..|run| - 1], run[|run| - 1];
      assert run == init + [l];
      TidyItemSeq(init, k);
      TidyItemsOfLine(l);
      ItemSnoc(init, l, k);
      TidyConcat(ItemSeq(init, k), ItemsIn(l));
      hide *;
    }
  }

  lemma TidyGroup(run: seq<Line>, k: Key)
    requires forall i :: 0 <= i < |run| ==> Tidy(run[i])
    ensures TidyItems(Group(run, k))
  {
    GroupMeaning(run, k);
    TidyItemSeq(run, k);
    hide Tidy;
    hide Group;
    hide ItemSeq;
    hide Regular;
    hide HasComma;
    hide AreItems;
  }

  /** A run of tidy lines keeps its paths. */
  lemma TidyRunKeepsPaths(run: seq<Line>)
    requires forall i :: 0 <= i < |run| ==> Tidy(run[i])
    ensures Paths(MergedLines(run)) == Paths(run)
  {
    forall k
      ensures TidyItems(Group(run, k))
    {
      TidyGroup(run, k);
    }
    hide Tidy;
    hide Keys;
    hide Group;
    hide Regular;
    hide HasComma;
    hide Paths;
    hide MergedLines;
    RunKeepsPathsIff(run);
  }

  ghost predicate AllFrom(blocks: seq<Block>, lines: seq<Line>) {
    forall i, l :: 0 <= i < |blocks| && l in LinesIn(blocks[i]) ==> l in lines
  }

  lemma AllFromSnoc(blocks: seq<Block>, b: Block, lines: seq<Line>)
    requires AllFrom(blocks, lines) && forall l :: l in LinesIn(b) ==> l in lines
    ensures AllFrom(blocks + [b], lines)
  {
    hide LinesIn;
  }

  lemma FlushedFrom(r: Reading, lines: seq<Line>)
    requires AllFrom(r.done, lines) && forall l :: l in r.open ==> l in lines
    ensures AllFrom(Flushed(r), lines)
  {
    if r.open != [] {
      AllFromSnoc(r.done, Run(r.open), lines);
    }
  }

  lemma {:induction false} ReadFrom(lines: seq<Line>)
    ensures AllFrom(ReadAll(lines).done, lines) && forall l :: l in ReadAll(lines).open ==> l in lines
  {
    if lines != [] {
      var init, last := lines[..|lines| - 1], lines[|lines| - 1];
      ReadFrom(init);
      assert lines == init + [last];
      ReadSnoc(init, last);
      assert AllFrom(ReadAll(init).done, lines);
      FlushedFrom(ReadAll(init), lines);
      AllFromSnoc(Flushed(ReadAll(init)), Verbatim(last), lines);
      hide ReadAll;
      hide AllFrom;
      hide Flushed;
    }
  }

  lemma {:induction false} MergedBlockAt(blocks: seq<Block>, i: nat)
    requires i < |blocks|
    ensures MergedBlocks(blocks)[i] == MergedBlock(blocks[i])
  {
    hide MergedBlock;
    var n := |blocks| - 1;
    if i < n {
      MergedBlockAt(blocks[..n], i);
    }
  }
}
