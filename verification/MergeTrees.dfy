/** Merging use lines by what they import: the paths of their use trees, nested lists included. */
module MergeTrees {
  import opened MergeImports
  import opened MergeUses
  import opened Text
  import opened UseLines
  import opened UsePrefixes
  import opened Wrappers
  import T = UseTrees

  /** The text is that of a well-formed use tree. */
  ghost predicate IsTreeText(text: string) {
    exists t :: T.WellFormed(t) && T.Rendered(t) == text
  }

  function WithPaths(indent: string, visibility: string, paths: set<string>): set<FullPath> {
    set p | p in paths :: FullPath(indent, visibility, p)
  }

  /** What a line imports, whether or not it can be merged. */
  function LineImports(l: Line): set<FullPath> {
    if l.Use? then WithPaths(l.indent, l.visibility, T.ImportsOf(l.rest)) else {}
  }

  function RunImports(run: seq<Line>): set<FullPath> {
    if run == [] then {} else RunImports(run[..|run| - 1]) + LineImports(run[|run| - 1])
  }

  // ---- Leaves and flat lists ----------------------------------------------------------------

  function Leaves(items: seq<string>): seq<T.Tree> {
    if items == [] then [] else [T.Path(items[0])] + Leaves(items[1..])
  }

  lemma {:induction false} LeavesAt(items: seq<string>)
    ensures |Leaves(items)| == |items| && forall i :: 0 <= i < |items| ==> Leaves(items)[i] == T.Path(items[i])
  {
    if items != [] {
      LeavesAt(items[1..]);
    }
  }

  lemma {:induction false} LeavesRendered(items: seq<string>)
    ensures T.RenderedAll(Leaves(items)) == Joined(items)
  {
    LeavesAt(items);
    if |items| > 1 {
      LeavesRendered(items[1..]);
      assert Leaves(items)[1..] == Leaves(items[1..]);
    }
  }

  function Fronted(front: string, items: seq<string>): set<string> {
    set t | t in items :: front + t
  }

  lemma {:induction false} LeavesImport(front: string, items: seq<string>)
    ensures T.ImportsAll(front, Leaves(items)) == Fronted(front, items)
  {
    if items != [] {
      LeavesImport(front, items[1..]);
      assert Leaves(items)[0] == T.Path(items[0]) && Leaves(items)[1..] == Leaves(items[1..]);
      assert items == [items[0]] + items[1..];
    }
  }

  ghost predicate AllLeaves(items: seq<string>) {
    forall i :: 0 <= i < |items| ==> T.IsLeaf(items[i])
  }

  lemma FlatImports(front: string, items: seq<string>)
    ensures T.Imports("", T.List(front, Leaves(items))) == Fronted(front, items)
  {
    LeavesImport(front, items);
    assert "" + front == front;
  }

  lemma FlatTree(prefix: string, items: seq<string>)
    requires IsPath(prefix) && AllLeaves(items)
    ensures T.WellFormed(T.List(prefix, Leaves(items)))
  {
    LeavesAt(items);
    hide Leaves;
    hide IsPath;
    hide T.IsLeaf;
  }

  lemma TreeText(t: T.Tree, text: string)
    requires T.WellFormed(t) && T.Rendered(t) == text
    ensures IsTreeText(text) && T.ImportsOf(text) == T.Imports("", t)
  {
    T.TextImportsTree(t);
    hide T.WellFormed;
    hide T.Imports;
    hide T.ImportsOf;
    hide T.Rendered;
  }

  /** A flat list imports its items behind its prefix. */
  lemma FlatText(prefix: string, items: seq<string>)
    requires IsPath(prefix) && AllLeaves(items)
    ensures var text := prefix + ("{" + Joined(items) + "}");
      IsTreeText(text) && T.ImportsOf(text) == Fronted(prefix, items)
  {
    var t := T.List(prefix, Leaves(items));
    FlatTree(prefix, items);
    LeavesRendered(items);
    T.RenderedList(prefix, Leaves(items));
    FlatImports(prefix, items);
    hide *;
    assert "{" + Joined(items) + "}" == "{" + (Joined(items) + "}");
    TreeText(t, prefix + ("{" + Joined(items) + "}"));
  }

  lemma LeafText(text: string)
    requires T.IsLeaf(text)
    ensures IsTreeText(text) && T.ImportsOf(text) == {text}
  {
    var t := T.Path(text);
    assert T.WellFormed(t) && T.Rendered(t) == text;
    T.TextImportsTree(t);
    assert "" + text == text;
    hide T.IsLeaf;
    hide T.ImportsOf;
  }

  lemma PathCharsNotSpecial(p: string)
    requires IsPath(p)
    ensures T.NoneSpecial(p)
  {
    T.PathPlain(p);
  }

  lemma SolidEnds(t: string)
    requires t != ""
    ensures Trim(t) == t <==> !IsSpace(t[0]) && !IsSpace(t[|t| - 1])
  {
    hide IsSpace;
    if !IsSpace(t[0]) {
      assert TrimStart(t) == t;
    } else {
      assert |TrimStart(t)| < |t|;
    }
  }

  lemma NoneSpecialConcat(a: string, b: string)
    requires T.NoneSpecial(a) && T.NoneSpecial(b)
    ensures T.NoneSpecial(a + b)
  {
    hide T.Special;
  }

  lemma LeafParts(t: string)
    ensures T.IsLeaf(t) <==> t != "" && Trim(t) == t && Trim(Tail(t)) == Tail(t) && T.NoneSpecial(t)
  {
    hide Trim;
    hide Tail;
    hide T.NoneSpecial;
  }

  /** A leaf behind a path is a leaf, and the tail of a leaf is one. */
  lemma LeafBehindPath(p: string, t: string)
    requires IsPath(p) && T.IsLeaf(t)
    ensures T.IsLeaf(p + t)
  {
    T.PathPlain(p);
    LeafParts(t);
    LeafParts(p + t);
    NoneSpecialConcat(p, t);
    PrefixOfConcat(p, t);
    SolidEnds(t);
    SolidEnds(p + t);
    EndsOfConcat(p, t);
    hide *;
  }

  lemma EndsOfConcat(p: string, t: string)
    requires t != ""
    ensures p + t != "" && (p + t)[|p + t| - 1] == t[|t| - 1] && (p + t)[0] == if p == "" then t[0] else p[0]
  {
  }

  lemma TailOfLeaf(text: string)
    requires T.IsLeaf(text)
    ensures T.IsLeaf(Tail(text)) && Trim(Tail(text)) == Tail(text) && text == Prefix(text) + Tail(text)
  {
    TailSplits(text);
    TailHasNoPrefix(text);
    hide Prefix;
    hide Trim;
    hide T.Special;
    var t := Tail(text);
    assert Tail(t) == t[0..] == t;
    assert forall i :: 0 <= i < |t| ==> t[i] == text[|Prefix(text)| + i];
  }

  lemma LeafItem(t: string)
    requires T.IsLeaf(t)
    ensures IsItem(t) && Listable(t)
  {
    hide Trim;
    hide Tail;
    assert forall i :: 0 <= i < |t| ==> !T.Special(t[i]);
  }

  lemma LeafItems(items: seq<string>)
    requires AllLeaves(items)
    ensures AreItems(items) && (forall i :: 0 <= i < |items| ==> Listable(items[i])) && AllPieces(items) == items
  {
    forall i | 0 <= i < |items|
      ensures IsItem(items[i]) && Listable(items[i])
    {
      LeafItem(items[i]);
    }
    hide T.IsLeaf;
    hide IsItem;
    hide Listable;
    ListablePieces(items);
  }

  // ---- One line -----------------------------------------------------------------------------

  lemma {:induction false} ListInList(trees: seq<T.Tree>, i: nat)
    requires i < |trees| && trees[i].List?
    ensures Occurs('{', T.RenderedAll(trees))
  {
    var first := T.Rendered(trees[0]);
    if i == 0 {
      T.RenderedList(trees[0].prefix, trees[0].trees);
      assert first[|trees[0].prefix|] == '{';
      if |trees| > 1 {
        FoundInFront('{', first, ", " + T.RenderedAll(trees[1..]));
      }
    } else {
      ListInList(trees[1..], i - 1);
      FoundBehind('{', first + ", ", T.RenderedAll(trees[1..]));
      assert first + ", " + T.RenderedAll(trees[1..]) == first + (", " + T.RenderedAll(trees[1..]));
    }
  }

  lemma FoundInFront(c: char, a: string, b: string)
    requires Occurs(c, a)
    ensures Occurs(c, a + b)
  {
    var i :| 0 <= i < |a| && a[i] == c;
    assert (a + b)[i] == c;
  }

  lemma FoundBehind(c: char, a: string, b: string)
    requires Occurs(c, b)
    ensures Occurs(c, a + b)
  {
    var i :| 0 <= i < |b| && b[i] == c;
    assert (a + b)[|a| + i] == c;
  }

  /** A list with another one inside has two opening braces. */
  lemma NestedHasTwoBraces(prefix: string, trees: seq<T.Tree>, i: nat)
    requires i < |trees| && trees[i].List?
    ensures HasTwoBraces(T.Rendered(T.List(prefix, trees)))
  {
    ListInList(trees, i);
    T.RenderedList(prefix, trees);
    var text, inner := T.Rendered(T.List(prefix, trees)), T.RenderedAll(trees);
    hide T.Rendered;
    hide T.RenderedAll;
    var j :| 0 <= j < |inner| && inner[j] == '{';
    assert text[|prefix|] == '{' && text[|prefix| + 1 + j] == inner[j];
  }

  function TextsOf(trees: seq<T.Tree>): seq<string>
    requires forall i :: 0 <= i < |trees| ==> trees[i].Path?
  {
    if trees == [] then [] else [trees[0].text] + TextsOf(trees[1..])
  }

  lemma {:induction false} FlatTrees(trees: seq<T.Tree>)
    requires forall i :: 0 <= i < |trees| ==> trees[i].Path? && T.WellFormed(trees[i])
    ensures Leaves(TextsOf(trees)) == trees && AllLeaves(TextsOf(trees))
  {
    hide T.IsLeaf;
    if trees != [] {
      assert T.WellFormed(trees[0]);
      FlatTrees(trees[1..]);
      var rest := TextsOf(trees[1..]);
      assert TextsOf(trees) == [trees[0].text] + rest;
      assert ([trees[0].text] + rest)[1..] == rest;
      assert trees == [trees[0]] + trees[1..];
    }
  }

  lemma SamePaths(k: Key, items: seq<string>)
    ensures WithPaths(k.indent, k.visibility, Fronted(k.prefix, items)) == GroupPaths(k, items)
  {
    forall p
      ensures p in WithPaths(k.indent, k.visibility, Fronted(k.prefix, items)) <==> p in GroupPaths(k, items)
    {
      if p in GroupPaths(k, items) {
        var t :| t in items && p == FullPath(k.indent, k.visibility, k.prefix + t);
        assert k.prefix + t in Fronted(k.prefix, items);
      }
    }
  }

  lemma SamePath(k: Key, t: string)
    ensures WithPaths(k.indent, k.visibility, {k.prefix + t}) == GroupPaths(k, [t])
  {
    OnlyPath(k, t);
    hide GroupPaths;
    assert k.prefix + t in {k.prefix + t};
  }

  lemma LineOf(l: Line)
    requires l.Use?
    ensures LineImports(l) == WithPaths(l.indent, l.visibility, T.ImportsOf(l.rest))
  {
  }

  /** What the script reads from a simple line is what the line imports. */
  ghost predicate ReadRight(l: Line) {
    l.Use? && AllLeaves(ItemsIn(l)) && LineImports(l) == GroupPaths(KeyOf(l), ItemsIn(l))
  }

  lemma PathLine(l: Line)
    requires Simple(l) && T.IsLeaf(l.rest)
    ensures ReadRight(l)
  {
    SimpleHasPrefix(l);
    TailOfLeaf(l.rest);
    LeafText(l.rest);
    var t := Tail(l.rest);
    LeafItem(t);
    NotBraced(t);
    LoneItem(l);
    ReadSplit(l, Prefix(l.rest), t);
    SamePath(KeyOf(l), t);
    LineOf(l);
    hide *;
    assert AllLeaves([t]) by {
      OneLeaf(t);
    }
  }

  lemma OneLeaf(t: string)
    requires T.IsLeaf(t)
    ensures AllLeaves([t])
  {
    hide T.IsLeaf;
  }

  lemma NotBraced(t: string)
    requires IsItem(t)
    ensures !StartsWithBrace(Trim(t)) && Trim(t) == t
  {
    hide Trim;
  }

  lemma FlatLine(l: Line, prefix: string, items: seq<string>)
    requires Simple(l) && IsPath(prefix) && AllLeaves(items) && l.rest == prefix + ("{" + Joined(items) + "}")
    ensures ReadRight(l)
  {
    SimpleHasPrefix(l);
    BraceEndsPrefix(prefix, Joined(items));
    LeafItems(items);
    ItemsHaveNoBraces(items);
    ListReadsAs(items);
    ReadSplit(l, prefix, "{" + Joined(items) + "}");
    FlatText(prefix, items);
    SamePaths(KeyOf(l), items);
    LineOf(l);
    hide *;
    RightIs(l);
  }

  lemma RightIs(l: Line)
    requires l.Use? && AllLeaves(ItemsIn(l)) && LineImports(l) == GroupPaths(KeyOf(l), ItemsIn(l))
    ensures ReadRight(l)
  {
  }

  lemma ListParts(prefix: string, trees: seq<T.Tree>)
    requires T.WellFormed(T.List(prefix, trees))
    ensures IsPath(prefix) && forall i :: 0 <= i < |trees| ==> T.WellFormed(trees[i])
  {
    hide IsPath;
  }

  /** The list of a simple line has no list inside. */
  lemma SimpleListIsFlat(l: Line, prefix: string, trees: seq<T.Tree>, i: nat)
    requires Simple(l) && l.rest == T.Rendered(T.List(prefix, trees)) && i < |trees|
    ensures trees[i].Path?
  {
    SimpleHasPrefix(l);
    hide *;
    if trees[i].List? {
      NestedHasTwoBraces(prefix, trees, i);
      NestedIsNotSimple(l);
      assert false;
    }
  }

  lemma FlatListText(prefix: string, trees: seq<T.Tree>)
    requires forall i :: 0 <= i < |trees| ==> trees[i].Path? && T.WellFormed(trees[i])
    ensures AllLeaves(TextsOf(trees)) && T.Rendered(T.List(prefix, trees)) == prefix + ("{" + Joined(TextsOf(trees)) + "}")
  {
    var items := TextsOf(trees);
    T.RenderedList(prefix, trees);
    FlatTrees(trees);
    LeavesRendered(items);
    Regroup("{", Joined(items), "}");
    hide *;
  }

  lemma Regroup(a: string, b: string, c: string)
    ensures a + b + c == a + (b + c)
  {
  }

  lemma ListLine(l: Line, prefix: string, trees: seq<T.Tree>)
    requires Simple(l) && T.WellFormed(T.List(prefix, trees)) && l.rest == T.Rendered(T.List(prefix, trees))
    ensures ReadRight(l)
  {
    ListParts(prefix, trees);
    hide *;
    forall i | 0 <= i < |trees|
      ensures trees[i].Path?
    {
      SimpleListIsFlat(l, prefix, trees, i);
    }
    FlatListText(prefix, trees);
    FlatLine(l, prefix, TextsOf(trees));
  }

  lemma PathParts(text: string)
    requires T.WellFormed(T.Path(text))
    ensures T.IsLeaf(text) && T.Rendered(T.Path(text)) == text
  {
    hide T.IsLeaf;
  }

  lemma SimpleLineReadRight(l: Line)
    requires Simple(l) && IsTreeText(l.rest)
    ensures ReadRight(l)
  {
    SimpleHasPrefix(l);
    var t :| T.WellFormed(t) && T.Rendered(t) == l.rest;
    hide *;
    match t
    case Path(text) =>
      PathParts(text);
      PathLine(l);
    case List(prefix, trees) =>
      ListLine(l, prefix, trees);
  }

  /** The line written for a group of leaves is a use tree again and imports what the group does. */
  lemma WrittenImports(k: Key, items: seq<string>)
    requires IsKey(k) && AllLeaves(items)
    ensures IsTreeText(Merged(k, items).rest) && LineImports(Merged(k, items)) == GroupPaths(k, items)
  {
    KeyPrefix(k);
    if |items| == 1 {
      assert items == [items[0]];
      LeafBehindPath(k.prefix, items[0]);
      LeafText(k.prefix + items[0]);
      OnlyItemWritten(k, items[0]);
      SamePath(k, items[0]);
    } else {
      FlatText(k.prefix, items);
      ListWritten(k, items);
      SamePaths(k, items);
    }
    LineOf(Merged(k, items));
    hide *;
  }

  // ---- A run --------------------------------------------------------------------------------

  lemma ImportsSnoc(run: seq<Line>, l: Line)
    ensures RunImports(run + [l]) == RunImports(run) + LineImports(l)
  {
    hide LineImports;
    assert (run + [l])[..|run|] == run;
  }

  lemma NoImports()
    ensures RunImports([]) == {}
  {
  }

  lemma {:induction false} ImportsOfConcat(a: seq<Line>, b: seq<Line>)
    ensures RunImports(a + b) == RunImports(a) + RunImports(b)
  {
    hide LineImports;
    if b == [] {
      assert a + b == a;
    } else {
      var init, last := b[..|b| - 1], b[|b| - 1];
      ImportsOfConcat(a, init);
      assert a + b == a + init + [last] && b == init + [last];
      ImportsSnoc(a + init, last);
      ImportsSnoc(init, last);
    }
  }

  ghost predicate AllTrees(run: seq<Line>) {
    forall i :: 0 <= i < |run| ==> run[i].Use? && IsTreeText(run[i].rest)
  }

  /** A run imports what its simple lines list and what the others import. */
  lemma {:induction false} RunImportsSplit(run: seq<Line>)
    requires AllTrees(run)
    ensures RunImports(run) == Paths(run) + RunImports(Others(run))
  {
    hide IsTreeText;
    if run == [] {
      EmptyRun();
      NoImports();
      NoPaths();
    } else {
      var init, l := run[..|run| - 1], run[|run| - 1];
      assert run == init + [l];
      RunImportsSplit(init);
      RunSnoc(init, l);
      ImportsSnoc(init, l);
      PathsSnoc(init, l);
      NotSimpleNoPaths(l);
      ImportsSnoc(Others(init), l);
      if Simple(l) {
        SimpleLineReadRight(l);
        ReadPaths(l);
        RightMeans(l);
      }
      hide *;
    }
  }

  lemma RightMeans(l: Line)
    requires ReadRight(l)
    ensures AllLeaves(ItemsIn(l)) && LineImports(l) == GroupPaths(KeyOf(l), ItemsIn(l))
  {
  }

  lemma LeavesConcat(a: seq<string>, b: seq<string>)
    requires AllLeaves(a) && AllLeaves(b)
    ensures AllLeaves(a + b)
  {
    hide T.IsLeaf;
  }

  lemma NoLeaves()
    ensures AllLeaves([])
  {
  }

  lemma {:induction false} ItemSeqLeaves(run: seq<Line>, k: Key)
    requires AllTrees(run)
    ensures AllLeaves(ItemSeq(run, k))
  {
    hide IsTreeText;
    if run == [] {
      EmptyRun();
      NoLeaves();
    } else {
      var init, l := run[..|run| - 1], run[|run| - 1];
      assert run == init + [l];
      ItemSeqLeaves(init, k);
      ItemSnoc(init, l, k);
      if Simple(l) {
        SimpleLineReadRight(l);
        RightMeans(l);
        LeavesConcat(ItemSeq(init, k), ItemsIn(l));
      }
      hide *;
    }
  }

  lemma GroupLeaves(run: seq<Line>, k: Key)
    requires AllTrees(run)
    ensures AllLeaves(Group(run, k))
  {
    ItemSeqLeaves(run, k);
    GroupMeaning(run, k);
    hide AllTrees;
    hide T.IsLeaf;
    hide Group;
    hide ItemSeq;
    hide AreItems;
    forall i | 0 <= i < |Group(run, k)|
      ensures T.IsLeaf(Group(run, k)[i])
    {
      assert Group(run, k)[i] in ItemSeq(run, k);
    }
  }

  lemma WrittenGroup(run: seq<Line>, k: Key)
    requires AllTrees(run) && k in Keys(run)
    ensures Merged(k, Group(run, k)).Use? && IsTreeText(Merged(k, Group(run, k)).rest)
    ensures LineImports(Merged(k, Group(run, k))) == GroupPaths(k, Group(run, k))
  {
    GroupLeaves(run, k);
    KeysMeaning(run, k);
    GroupMeaning(run, k);
    WrittenImports(k, Group(run, k));
    hide *;
  }

  /** The path is one of a group's. */
  ghost predicate InGroup(run: seq<Line>, keys: seq<Key>, k: Key, p: FullPath) {
    k in keys && p in GroupPaths(k, Group(run, k))
  }

  lemma InGroupSnoc(run: seq<Line>, keys: seq<Key>, last: Key, k: Key, p: FullPath)
    ensures InGroup(run, keys + [last], k, p) <==>
      InGroup(run, keys, k, p) || (k == last && p in GroupPaths(last, Group(run, last)))
  {
    hide GroupPaths;
    hide Group;
  }

  lemma {:induction false} GroupLinesImport(run: seq<Line>, keys: seq<Key>, p: FullPath)
    requires AllTrees(run) && forall k :: k in keys ==> k in Keys(run)
    ensures p in RunImports(GroupLines(run, keys)) <==> exists k :: InGroup(run, keys, k, p)
  {
    if keys == [] {
      NoGroups(run);
      NoImports();
    } else {
      var init, last := keys[..|keys| - 1], keys[|keys| - 1];
      assert keys == init + [last];
      GroupLinesImport(run, init, p);
      LastGroup(run, init, last);
      ImportsSnoc(GroupLines(run, init), Merged(last, Group(run, last)));
      WrittenGroup(run, last);
      forall k
        ensures InGroup(run, keys, k, p) <==> InGroup(run, init, k, p) || (k == last && p in GroupPaths(last, Group(run, last)))
      {
        InGroupSnoc(run, init, last, k, p);
      }
      hide *;
      if p in GroupPaths(last, Group(run, last)) {
        assert InGroup(run, keys, last, p);
      }
    }
  }

  lemma GroupsImportPaths(run: seq<Line>, p: FullPath)
    requires AllTrees(run)
    ensures p in RunImports(GroupLines(run, Keys(run))) <==> p in Paths(run)
  {
    GroupLinesImport(run, Keys(run), p);
    RunPaths(run, p);
    forall k
      ensures InGroup(run, Keys(run), k, p) <==> ImportedUnder(run, k, p)
    {
      ImportedInGroup(run, k, p);
      hide Keys;
      hide Group;
      hide GroupPaths;
    }
    hide *;
  }

  /** Merging a run keeps what it imports: every path of every tree, and none besides. */
  lemma RunKeepsImports(run: seq<Line>)
    requires AllTrees(run)
    ensures RunImports(MergedLines(run)) == RunImports(run)
  {
    RunImportsSplit(run);
    MergedLinesAre(run);
    ImportsOfConcat(GroupLines(run, Keys(run)), Others(run));
    forall p
      ensures p in RunImports(GroupLines(run, Keys(run))) <==> p in Paths(run)
    {
      GroupsImportPaths(run, p);
    }
    hide *;
  }

  lemma TreesSnoc(run: seq<Line>, l: Line)
    requires AllTrees(run) && l.Use? && IsTreeText(l.rest)
    ensures AllTrees(run + [l])
  {
    hide IsTreeText;
  }

  lemma NoTrees()
    ensures AllTrees([])
  {
  }

  lemma {:induction false} GroupLinesAreTrees(run: seq<Line>, keys: seq<Key>)
    requires AllTrees(run) && forall k :: k in keys ==> k in Keys(run)
    ensures AllTrees(GroupLines(run, keys))
  {
    hide *;
    if keys == [] {
      NoGroups(run);
      NoTrees();
    } else {
      var init, last := keys[..|keys| - 1], keys[|keys| - 1];
      assert keys == init + [last];
      GroupLinesAreTrees(run, init);
      LastGroup(run, init, last);
      WrittenGroup(run, last);
      TreesSnoc(GroupLines(run, init), Merged(last, Group(run, last)));
    }
  }

  lemma {:induction false} OthersAreTrees(run: seq<Line>)
    requires AllTrees(run)
    ensures AllTrees(Others(run))
  {
    hide IsTreeText;
    hide Simple;
    if run != [] {
      OthersAreTrees(run[..|run| - 1]);
    }
  }

  lemma RunStaysTrees(run: seq<Line>)
    requires AllTrees(run)
    ensures AllTrees(MergedLines(run))
  {
    GroupLinesAreTrees(run, Keys(run));
    OthersAreTrees(run);
    MergedLinesAre(run);
    hide IsTreeText;
    hide Keys;
    hide Others;
    hide GroupLines;
    hide MergedLines;
  }

  // ---- A file -------------------------------------------------------------------------------

  /** Other lines stay, and use lines import what they did and are use trees again. */
  ghost predicate SameImports(b: Block, merged: Block) {
    match b
    case Verbatim(_) => merged == b
    case Run(lines) => merged.Run? && RunImports(merged.lines) == RunImports(lines) && AllTrees(merged.lines)
  }

  lemma BlockKeepsImports(b: Block)
    requires b.Run? ==> AllTrees(b.lines)
    ensures SameImports(b, MergedBlock(b))
  {
    if b.Run? {
      RunKeepsImports(b.lines);
      RunStaysTrees(b.lines);
    }
    hide AllTrees;
    hide RunImports;
    hide MergedLines;
  }

  lemma TreesInBlock(lines: seq<Line>, b: Block)
    requires b.Run? && AllUses(b.lines) && forall l :: l in b.lines ==> l in lines
    requires forall l :: l in lines && l.Use? ==> IsTreeText(l.rest)
    ensures AllTrees(b.lines)
  {
    hide IsTreeText;
    assert forall i :: 0 <= i < |b.lines| ==> b.lines[i] in b.lines;
  }

  /** Read again, a merged file of well-formed use trees imports in every place what it did. */
  lemma {:induction false} MergedFileKeepsImports(lines: seq<Line>, out: seq<Line>)
    requires forall l :: l in lines && l.Use? ==> IsTreeText(l.rest)
    requires Blocks(out) == MergedBlocks(Blocks(lines))
    ensures |Blocks(out)| == |Blocks(lines)|
    ensures forall i :: 0 <= i < |Blocks(lines)| ==> SameImports(Blocks(lines)[i], Blocks(out)[i])
  {
    ReadFrom(lines);
    FlushedFrom(ReadAll(lines), lines);
    ReadRunsAreUses(lines);
    hide ReadAll;
    hide MergedBlocks;
    hide IsTreeText;
    forall i | 0 <= i < |Blocks(lines)|
      ensures SameImports(Blocks(lines)[i], Blocks(out)[i])
    {
      var b := Blocks(lines)[i];
      MergedBlockAt(Blocks(lines), i);
      if b.Run? {
        assert forall l :: l in b.lines ==> l in LinesIn(b);
        TreesInBlock(lines, b);
      }
      BlockKeepsImports(b);
      hide MergedLines;
      hide RunImports;
      hide SameImports;
    }
  }
}
