/** Merging runs of `use` lines that share a prefix. */
module MergeUses {
  import opened Sequences
  import opened Text
  import opened UseLines
  import opened UsePrefixes

  // ---- What a run is merged to --------------------------------------------------------------

  /** The keys of the simple lines. */
  function KeySeq(run: seq<Line>): seq<Key> {
    if run == [] then []
    else
      var last := run[|run| - 1];
      KeySeq(run[..|run| - 1]) + (if Simple(last) then [KeyOf(last)] else [])
  }

  /** The items listed under one key. */
  function ItemSeq(run: seq<Line>, k: Key): seq<string> {
    if run == [] then []
    else
      var last := run[|run| - 1];
      ItemSeq(run[..|run| - 1], k) + (if Simple(last) && KeyOf(last) == k then ItemsIn(last) else [])
  }

  /** The use lines that are left alone. */
  function Others(run: seq<Line>): seq<Line> {
    if run == [] then []
    else
      var last := run[|run| - 1];
      Others(run[..|run| - 1]) + (if last.Use? && !Simple(last) then [last] else [])
  }

  function Keys(run: seq<Line>): seq<Key> {
    FirstOccurrences(KeySeq(run))
  }

  function Group(run: seq<Line>, k: Key): seq<string> {
    FirstOccurrences(ItemSeq(run, k))
  }

  function GroupLines(run: seq<Line>, keys: seq<Key>): (lines: seq<Line>)
    ensures |lines| == |keys|
  {
    if keys == [] then []
    else
      var n := |keys| - 1;
      GroupLines(run, keys[..n]) + [Merged(keys[n], Group(run, keys[n]))]
  }

  /** One line for each key with each of its items once, by first occurrence, then the lines left alone. */
  function MergedLines(run: seq<Line>): seq<Line> {
    GroupLines(run, Keys(run)) + Others(run)
  }

  ghost predicate AllUses(run: seq<Line>) {
    forall i :: 0 <= i < |run| ==> run[i].Use?
  }

  lemma RunSnoc(run: seq<Line>, l: Line)
    ensures KeySeq(run + [l]) == if Simple(l) then KeySeq(run) + [KeyOf(l)] else KeySeq(run)
    ensures Others(run + [l]) == if l.Use? && !Simple(l) then Others(run) + [l] else Others(run)
  {
    hide Simple;
    hide KeyOf;
    assert (run + [l])[..|run|] == run;
  }

  lemma ItemSnoc(run: seq<Line>, l: Line, k: Key)
    ensures ItemSeq(run + [l], k) ==
            if Simple(l) && KeyOf(l) == k then ItemSeq(run, k) + ItemsIn(l) else ItemSeq(run, k)
  {
    hide Simple;
    hide KeyOf;
    hide ItemsIn;
    assert (run + [l])[..|run|] == run;
  }

  lemma EmptyRun()
    ensures KeySeq([]) == [] && Others([]) == [] && Keys([]) == []
    ensures forall k :: ItemSeq([], k) == []
  {
  }

  lemma {:induction false} NoItemsWithoutKey(run: seq<Line>, k: Key)
    requires k !in KeySeq(run)
    ensures ItemSeq(run, k) == []
  {
    if run != [] {
      var init, last := run[..|run| - 1], run[|run| - 1];
      assert run == init + [last];
      RunSnoc(init, last);
      ItemSnoc(init, last, k);
      hide *;
      NoItemsWithoutKey(init, k);
    }
  }

  lemma SimpleIsUse(l: Line)
    ensures Simple(l) ==> l.Use? && IsKey(KeyOf(l))
  {
    if l.Use? {
      PrefixIsPath(l.rest);
    }
    hide Prefix;
    hide Tail;
    hide ItemsOf;
  }

  // ---- Merging one run ----------------------------------------------------------------------

  /** The groups after the lines of a run. */
  ghost predicate Grouped(groups: map<Key, seq<string>>, order: seq<Key>, run: seq<Line>) {
    && order == Keys(run)
    && (forall k :: k in groups <==> k in order)
    && (forall k :: k in groups ==> groups[k] == Group(run, k))
  }

  lemma KeysMeaning(run: seq<Line>, k: Key)
    ensures k in Keys(run) <==> k in KeySeq(run)
  {
    FirstOccurrencesMeaning(KeySeq(run));
  }

  lemma GroupLeftAlone(run: seq<Line>, l: Line, k: Key)
    requires !Simple(l)
    ensures Group(run + [l], k) == Group(run, k)
  {
    ItemSnoc(run, l, k);
    hide ItemSeq;
    hide FirstOccurrences;
    hide Simple;
  }

  lemma KeysLeftAlone(run: seq<Line>, l: Line)
    requires !Simple(l)
    ensures Keys(run + [l]) == Keys(run)
  {
    RunSnoc(run, l);
    hide KeySeq;
    hide FirstOccurrences;
    hide Simple;
  }

  lemma LeaveAlone(groups: map<Key, seq<string>>, order: seq<Key>, run: seq<Line>, l: Line)
    requires Grouped(groups, order, run) && !Simple(l)
    ensures Grouped(groups, order, run + [l])
  {
    KeysLeftAlone(run, l);
    GroupedMeans(groups, order, run);
    hide *;
    forall k
      ensures Group(run + [l], k) == Group(run, k)
    {
      GroupLeftAlone(run, l, k);
    }
    GroupedMeans(groups, order, run + [l]);
  }

  /** The group of a simple line's key before the line: empty if the key is new. */
  lemma GroupBefore(groups: map<Key, seq<string>>, order: seq<Key>, run: seq<Line>, l: Line)
    requires Grouped(groups, order, run) && Simple(l)
    ensures Group(run, KeyOf(l)) == if KeyOf(l) in groups then groups[KeyOf(l)] else []
  {
    var k := KeyOf(l);
    KeysMeaning(run, k);
    if k !in groups {
      NoItemsWithoutKey(run, k);
    }
    hide KeySeq;
    hide ItemSeq;
    hide Simple;
  }

  lemma KeysSnoc(run: seq<Line>, l: Line)
    requires Simple(l)
    ensures Keys(run + [l]) == if KeyOf(l) in Keys(run) then Keys(run) else Keys(run) + [KeyOf(l)]
  {
    RunSnoc(run, l);
    FirstOccurrencesSnoc(KeySeq(run), KeyOf(l));
    hide KeySeq;
    hide FirstOccurrences;
    hide Simple;
    hide KeyOf;
  }

  lemma GroupSnoc(run: seq<Line>, l: Line, k: Key)
    requires Simple(l)
    ensures Group(run + [l], k) ==
            if KeyOf(l) == k then FirstOccurrences(ItemSeq(run, k) + ItemsIn(l)) else Group(run, k)
  {
    ItemSnoc(run, l, k);
    hide ItemSeq;
    hide FirstOccurrences;
    hide Simple;
    hide KeyOf;
  }

  lemma AddedGroup(groups: map<Key, seq<string>>, order: seq<Key>, run: seq<Line>, l: Line, group: seq<string>, k: Key)
    requires Grouped(groups, order, run) && Simple(l)
    requires group == FirstOccurrences(ItemSeq(run, KeyOf(l)) + ItemsIn(l))
    ensures k in groups || k == KeyOf(l) ==> groups[KeyOf(l) := group][k] == Group(run + [l], k)
  {
    GroupSnoc(run, l, k);
    GroupedMeans(groups, order, run);
    hide *;
  }

  lemma AddLine(groups: map<Key, seq<string>>, order: seq<Key>, run: seq<Line>, l: Line, group: seq<string>)
    requires Grouped(groups, order, run) && Simple(l)
    requires group == FirstOccurrences(ItemSeq(run, KeyOf(l)) + ItemsIn(l))
    ensures Grouped(groups[KeyOf(l) := group], if KeyOf(l) in groups then order else order + [KeyOf(l)], run + [l])
  {
    var key, groups' := KeyOf(l), groups[KeyOf(l) := group];
    var order' := if key in groups then order else order + [key];
    KeysSnoc(run, l);
    GroupedMeans(groups, order, run);
    MoreKeys(groups, order, key, group);
    forall k
      ensures k in groups' ==> groups'[k] == Group(run + [l], k)
    {
      AddedGroup(groups, order, run, l, group, k);
    }
    assert order' == Keys(run + [l]);
    hide *;
    GroupedMeans(groups', order', run + [l]);
  }

  lemma GroupedMeans(groups: map<Key, seq<string>>, order: seq<Key>, run: seq<Line>)
    ensures Grouped(groups, order, run) <==>
      && order == Keys(run) && (forall k :: k in groups <==> k in order)
      && forall k :: k in groups ==> groups[k] == Group(run, k)
  {
    hide Keys;
    hide Group;
  }

  lemma MoreKeys<K, V>(groups: map<K, V>, order: seq<K>, key: K, v: V)
    requires forall k :: k in groups <==> k in order
    ensures var order' := if key in groups then order else order + [key];
      forall k :: k in groups[key := v] <==> k in order'
  {
  }

  method AddItems(group: seq<string>, items: seq<string>, ghost listed: seq<string>) returns (added: seq<string>)
    requires group == FirstOccurrences(listed)
    ensures added == FirstOccurrences(listed + items)
  {
    hide FirstOccurrences;
    added := group;
    assert listed + items[..0] == listed;
    for i := 0 to |items|
      invariant added == FirstOccurrences(listed + items[..i])
    {
      var t := items[i];
      assert listed + items[..i + 1] == listed + items[..i] + [t];
      FirstOccurrencesSnoc(listed + items[..i], t);
      if t !in added {
        added := added + [t];
      }
    }
    assert items[..|items|] == items;
  }

  lemma NothingGrouped()
    ensures Grouped(map[], [], [])
  {
    EmptyRun();
  }

  /** Sorts a run into groups by key; lines that are not simple are put aside in order. */
  method GroupRun(run: seq<Line>)
    returns (groups: map<Key, seq<string>>, order: seq<Key>, passthrough: seq<Line>)
    requires AllUses(run)
    ensures Grouped(groups, order, run) && passthrough == Others(run)
  {
    hide Grouped;
    hide Simple;
    hide KeyOf;
    hide Others;
    hide FirstOccurrences;
    hide ItemSeq;
    groups, order, passthrough := map[], [], [];
    NothingGrouped();
    EmptyRun();
    for i := 0 to |run|
      invariant Grouped(groups, order, run[..i]) && passthrough == Others(run[..i])
    {
      var m := run[i];
      assert run[..i + 1] == run[..i] + [m];
      RunSnoc(run[..i], m);
      if !Simple(m) {
        LeaveAlone(groups, order, run[..i], m);
        passthrough := passthrough + [m];
        continue;
      }
      var key := KeyOf(m);
      GroupBefore(groups, order, run[..i], m);
      var group := AddItems(if key in groups then groups[key] else [], ItemsIn(m), ItemSeq(run[..i], key));
      AddLine(groups, order, run[..i], m, group);
      if key !in groups {
        order := order + [key];
      }
      groups := groups[key := group];
    }
    assert run[..|run|] == run;
  }

  lemma LastGroup(run: seq<Line>, keys: seq<Key>, k: Key)
    ensures GroupLines(run, keys + [k]) == GroupLines(run, keys) + [Merged(k, Group(run, k))]
  {
    hide Merged;
    hide Group;
    assert (keys + [k])[..|keys|] == keys;
  }

  lemma NoGroups(run: seq<Line>)
    ensures GroupLines(run, []) == []
  {
  }

  lemma GroupedAt(groups: map<Key, seq<string>>, order: seq<Key>, run: seq<Line>, i: nat)
    requires Grouped(groups, order, run) && i < |order|
    ensures order == Keys(run) && order[i] in groups && groups[order[i]] == Group(run, order[i])
  {
    hide FirstOccurrences;
  }

  lemma GroupedKeys(groups: map<Key, seq<string>>, order: seq<Key>, run: seq<Line>)
    requires Grouped(groups, order, run)
    ensures order == Keys(run)
  {
  }

  /** A run is replaced by one line for each key, then the lines left alone. */
  method MergeRun(run: seq<Line>) returns (merged: seq<Line>)
    requires AllUses(run)
    ensures merged == MergedLines(run)
  {
    hide *;
    var groups, order, passthrough := GroupRun(run);
    GroupedKeys(groups, order, run);
    NoGroups(run);
    merged := [];
    for i := 0 to |order|
      invariant merged == GroupLines(run, order[..i])
    {
      GroupedAt(groups, order, run, i);
      LastGroup(run, order[..i], order[i]);
      assert order[..i + 1] == order[..i] + [order[i]];
      merged := merged + [Merged(order[i], groups[order[i]])];
    }
    assert order[..|order|] == order;
    MergedLinesAre(run);
    merged := merged + passthrough;
  }

  lemma MergedLinesAre(run: seq<Line>)
    ensures MergedLines(run) == GroupLines(run, Keys(run)) + Others(run)
  {
  }

  // ---- How a file reads ---------------------------------------------------------------------

  /** A line that must stay as it is, or a run of use lines. */
  datatype Block = Verbatim(line: Line) | Run(lines: seq<Line>)

  /** The blocks so far, the run that is still open, and whether the last line starts an attribute. */
  datatype Reading = Reading(done: seq<Block>, open: seq<Line>, afterAttribute: bool)

  function Flushed(r: Reading): seq<Block> {
    if r.open == [] then r.done else r.done + [Run(r.open)]
  }

  /** A use line right behind the start of an attribute stands alone. */
  function Read(r: Reading, l: Line): Reading {
    if !l.Use? then Reading(Flushed(r) + [Verbatim(l)], [], l.Attribute?)
    else if r.afterAttribute then Reading(Flushed(r) + [Verbatim(l)], [], false)
    else r.(open := r.open + [l])
  }

  function ReadAll(lines: seq<Line>): Reading {
    if lines == [] then Reading([], [], false)
    else Read(ReadAll(lines[..|lines| - 1]), lines[|lines| - 1])
  }

  function Blocks(lines: seq<Line>): seq<Block> {
    Flushed(ReadAll(lines))
  }

  function MergedBlock(b: Block): Block {
    match b
    case Verbatim(_) => b
    case Run(run) => Run(MergedLines(run))
  }

  function MergedBlocks(blocks: seq<Block>): (merged: seq<Block>)
    ensures |merged| == |blocks|
  {
    if blocks == [] then []
    else MergedBlocks(blocks[..|blocks| - 1]) + [MergedBlock(blocks[|blocks| - 1])]
  }

  lemma MergedOneMore(blocks: seq<Block>, b: Block)
    ensures MergedBlocks(blocks + [b]) == MergedBlocks(blocks) + [MergedBlock(b)]
  {
    hide MergedBlock;
    assert (blocks + [b])[..|blocks|] == blocks;
  }

  lemma ReadSnoc(lines: seq<Line>, l: Line)
    ensures ReadAll(lines + [l]) == Read(ReadAll(lines), l)
  {
    hide Read;
    assert (lines + [l])[..|lines|] == lines;
  }

  lemma AttributeLast(lines: seq<Line>)
    ensures ReadAll(lines).afterAttribute <==> lines != [] && lines[|lines| - 1].Attribute?
    ensures ReadAll(lines).afterAttribute ==> ReadAll(lines).open == []
  {
  }

  lemma UseGrows(r: Reading, l: Line)
    requires l.Use? && !r.afterAttribute
    ensures Read(r, l) == r.(open := r.open + [l])
  {
  }

  /** A run of use lines that no attribute precedes only extends the open run. */
  lemma {:induction false} ReadRun(lines: seq<Line>, run: seq<Line>)
    requires AllUses(run) && !ReadAll(lines).afterAttribute
    ensures ReadAll(lines + run) == ReadAll(lines).(open := ReadAll(lines).open + run)
  {
    hide Read;
    hide ReadAll;
    if run == [] {
      assert lines + run == lines;
      assert ReadAll(lines).open + run == ReadAll(lines).open;
    } else {
      var n := |run| - 1;
      ReadRun(lines, run[..n]);
      UseGrows(ReadAll(lines + run[..n]), run[n]);
      ReadSnoc(lines + run[..n], run[n]);
      assert lines + run == lines + run[..n] + [run[n]];
      assert ReadAll(lines).open + run == ReadAll(lines).open + run[..n] + [run[n]];
    }
  }

  lemma {:induction false} GroupLinesAt(run: seq<Line>, keys: seq<Key>)
    ensures forall i :: 0 <= i < |keys| ==> GroupLines(run, keys)[i] == Merged(keys[i], Group(run, keys[i]))
  {
    hide Merged;
    hide Group;
    if keys != [] {
      var n := |keys| - 1;
      GroupLinesAt(run, keys[..n]);
      var lines := GroupLines(run, keys[..n]);
      assert forall i :: 0 <= i < n ==> lines[i] == Merged(keys[..n][i], Group(run, keys[..n][i]));
    }
  }

  lemma {:induction false} OthersStandAlone(run: seq<Line>)
    ensures forall i :: 0 <= i < |Others(run)| ==> Others(run)[i].Use? && !Simple(Others(run)[i])
  {
    hide Simple;
    if run != [] {
      OthersStandAlone(run[..|run| - 1]);
    }
  }

  lemma GroupLinesAreUses(run: seq<Line>, keys: seq<Key>)
    ensures AllUses(GroupLines(run, keys))
  {
    GroupLinesAt(run, keys);
    hide GroupLines;
    hide Group;
    hide Body;
  }

  lemma OthersAreUses(run: seq<Line>)
    ensures AllUses(Others(run))
  {
    OthersStandAlone(run);
    hide Others;
    hide Simple;
  }

  lemma UsesConcat(a: seq<Line>, b: seq<Line>)
    requires AllUses(a) && AllUses(b)
    ensures AllUses(a + b)
  {
  }

  lemma SomeKey(run: seq<Line>)
    requires KeySeq(run) != []
    ensures Keys(run) != []
  {
    KeysMeaning(run, KeySeq(run)[0]);
    hide KeySeq;
    hide Keys;
  }

  lemma LastStays(run: seq<Line>)
    requires AllUses(run) && run != []
    ensures KeySeq(run) != [] || Others(run) != []
  {
    var n := |run| - 1;
    assert run == run[..n] + [run[n]];
    RunSnoc(run[..n], run[n]);
    hide KeySeq;
    hide Others;
    hide Simple;
    hide KeyOf;
  }

  /** Merging leaves use lines, and at least one. */
  lemma MergedRunIsRun(run: seq<Line>)
    requires AllUses(run) && run != []
    ensures AllUses(MergedLines(run)) && MergedLines(run) != []
  {
    LastStays(run);
    if KeySeq(run) != [] {
      SomeKey(run);
    }
    GroupLinesAreUses(run, Keys(run));
    OthersAreUses(run);
    UsesConcat(GroupLines(run, Keys(run)), Others(run));
    MergedLinesAre(run);
    hide *;
  }

  /** What a block holds. */
  function LinesIn(b: Block): seq<Line> {
    if b.Verbatim? then [b.line] else b.lines
  }

  function Flattened(blocks: seq<Block>): seq<Line> {
    if blocks == [] then [] else Flattened(blocks[..|blocks| - 1]) + LinesIn(blocks[|blocks| - 1])
  }

  lemma FlattenedSnoc(blocks: seq<Block>, b: Block)
    ensures Flattened(blocks + [b]) == Flattened(blocks) + LinesIn(b)
  {
    hide LinesIn;
    assert (blocks + [b])[..|blocks|] == blocks;
  }

  lemma OneLineMore<T>(done: seq<T>, open: seq<T>, l: T)
    ensures done + (open + [l]) == done + open + [l] && (open == [] ==> done + open == done)
  {
  }

  lemma FlattenedRead(r: Reading, l: Line)
    ensures Flattened(Flushed(Read(r, l))) == Flattened(Flushed(r)) + [l]
  {
    FlattenedSnoc(Flushed(r), Verbatim(l));
    FlattenedSnoc(r.done, Run(r.open + [l]));
    FlattenedSnoc(r.done, Run(r.open));
    OneLineMore(Flattened(r.done), r.open, l);
    hide Flattened;
  }

  /** The blocks of a file hold its lines, in order. */
  lemma {:induction false} BlocksHoldLines(lines: seq<Line>)
    ensures Flattened(Blocks(lines)) == lines
  {
    if lines != [] {
      var init, last := lines[..|lines| - 1], lines[|lines| - 1];
      BlocksHoldLines(init);
      assert lines == init + [last];
      ReadSnoc(init, last);
      FlattenedRead(ReadAll(init), last);
      BlocksFlush(init);
      BlocksFlush(lines);
      hide *;
    }
  }

  lemma BlocksFlush(lines: seq<Line>)
    ensures Blocks(lines) == Flushed(ReadAll(lines))
  {
  }

  /** A line no group is written as: no use line, or one with a list in a list. */
  ghost predicate Passes(l: Line) {
    !l.Use? || HasTwoBraces(l.rest)
  }

  lemma WrittenDoesNotPass(k: Key, items: seq<string>)
    requires IsKey(k) && AreItems(items)
    ensures !Passes(Merged(k, items))
  {
    KeyPrefix(k);
    ItemsHaveNoBraces(items);
    WrittenBraces(items);
    PathHasNoBraces(k.prefix, "");
    assert k.prefix + "" == k.prefix;
    NoBraces(k.prefix);
    BracesOfConcat(k.prefix, Body(items));
    hide Body;
    hide OpenBraces;
    if HasTwoBraces(Merged(k, items).rest) {
      TwoBracesCounted(Merged(k, items).rest);
    }
  }

  lemma WrittenBraces(items: seq<string>)
    requires NoneHas(items, '{')
    ensures OpenBraces(Body(items)) <= 1
  {
    if |items| == 1 {
      NoBraces(items[0]);
    } else {
      JoinedHasNoBraces(items);
      BracedBody(Joined(items));
    }
    hide Joined;
    hide OpenBraces;
  }

  lemma {:induction false} ItemsPlain(run: seq<Line>, k: Key)
    ensures AreItems(ItemSeq(run, k)) && (k in KeySeq(run) ==> IsKey(k))
  {
    if run == [] {
      EmptyRun();
    } else {
      var init, l := run[..|run| - 1], run[|run| - 1];
      assert run == init + [l];
      ItemsPlain(init, k);
      RunSnoc(init, l);
      ItemSnoc(init, l, k);
      SimpleIsUse(l);
      ReadItemsAreItems(l);
      hide KeySeq;
      hide ItemSeq;
      hide IsItem;
      hide IsKey;
      hide ItemsIn;
      hide Simple;
      hide KeyOf;
    }
  }

  ghost predicate AreDistinct<T>(s: seq<T>) {
    forall i, j :: 0 <= i < j < |s| ==> s[i] != s[j]
  }

  lemma GroupMeaning(run: seq<Line>, k: Key)
    ensures forall t :: t in Group(run, k) <==> t in ItemSeq(run, k)
    ensures AreDistinct(Group(run, k))
    ensures AreItems(Group(run, k)) && (k in KeySeq(run) ==> IsKey(k))
  {
    FirstOccurrencesMeaning(ItemSeq(run, k));
    ItemsPlain(run, k);
    hide FirstOccurrences;
    hide ItemSeq;
    hide KeySeq;
    hide IsKey;
    hide IsItem;
    hide Precedes;
    forall i | 0 <= i < |Group(run, k)|
      ensures IsItem(Group(run, k)[i])
    {
      assert Group(run, k)[i] in ItemSeq(run, k);
    }
  }

  lemma {:induction false} GroupsDoNotPass(run: seq<Line>, keys: seq<Key>, l: Line)
    requires Passes(l) && forall k :: k in keys ==> k in Keys(run)
    ensures l !in GroupLines(run, keys)
  {
    if keys != [] {
      var init, last := keys[..|keys| - 1], keys[|keys| - 1];
      assert keys == init + [last];
      GroupsDoNotPass(run, init, l);
      LastGroup(run, init, last);
      KeysMeaning(run, last);
      GroupMeaning(run, last);
      WrittenDoesNotPass(last, Group(run, last));
      hide *;
    } else {
      NoGroups(run);
    }
  }

  /** A use line that is not simple is put aside as often as it stands in the run. */
  lemma {:induction false} OthersKept(run: seq<Line>, l: Line)
    requires AllUses(run)
    ensures multiset(Others(run))[l] == if l.Use? && !Simple(l) then multiset(run)[l] else 0
  {
    if run == [] {
      EmptyRun();
    } else {
      var init, last := run[..|run| - 1], run[|run| - 1];
      assert run == init + [last];
      OthersKept(init, l);
      RunSnoc(init, last);
      hide Others;
      hide Simple;
    }
  }

  lemma PassesThroughRun(run: seq<Line>, l: Line)
    requires AllUses(run) && Passes(l)
    ensures multiset(MergedLines(run))[l] == multiset(run)[l]
  {
    GroupsDoNotPass(run, Keys(run), l);
    OthersKept(run, l);
    if l.Use? {
      NestedIsNotSimple(l);
    } else {
      assert l !in run;
    }
    MergedLinesAre(run);
    hide Keys;
    hide GroupLines;
    hide Others;
    hide MergedLines;
    hide Simple;
    hide Passes;
    assert multiset(GroupLines(run, Keys(run)))[l] == 0;
  }

  ghost predicate RunsAreUses(blocks: seq<Block>) {
    forall i :: 0 <= i < |blocks| && blocks[i].Run? ==> AllUses(blocks[i].lines)
  }

  lemma {:induction false} ReadRunsAreUses(lines: seq<Line>)
    ensures RunsAreUses(ReadAll(lines).done) && AllUses(ReadAll(lines).open)
  {
    if lines != [] {
      ReadRunsAreUses(lines[..|lines| - 1]);
    }
  }

  lemma {:induction false} PassesThrough(blocks: seq<Block>, l: Line)
    requires RunsAreUses(blocks) && Passes(l)
    ensures multiset(Flattened(MergedBlocks(blocks)))[l] == multiset(Flattened(blocks))[l]
  {
    if blocks != [] {
      var init, last := blocks[..|blocks| - 1], blocks[|blocks| - 1];
      assert blocks == init + [last];
      PassesThrough(init, l);
      MergedOneMore(init, last);
      FlattenedSnoc(MergedBlocks(init), MergedBlock(last));
      FlattenedSnoc(init, last);
      if last.Run? {
        PassesThroughRun(last.lines, l);
      }
      hide Flattened;
      hide MergedBlocks;
      hide MergedLines;
      hide Passes;
    }
  }

  /** Every line that is no use line, and every use line with a list in a list, stays, as often as it was there. */
  lemma PassesThroughFile(lines: seq<Line>, out: seq<Line>, l: Line)
    requires Blocks(out) == MergedBlocks(Blocks(lines)) && Passes(l)
    ensures multiset(out)[l] == multiset(lines)[l]
  {
    BlocksHoldLines(lines);
    BlocksHoldLines(out);
    BlocksAreUses(lines);
    hide *;
    PassesThrough(Blocks(lines), l);
  }

  lemma BlocksAreUses(lines: seq<Line>)
    ensures RunsAreUses(Blocks(lines))
  {
    ReadRunsAreUses(lines);
    hide ReadAll;
    hide AllUses;
  }

  // ---- The whole file -----------------------------------------------------------------------

  /** The file and its rewriting so far; open runs correspond too. */
  ghost predicate Corresponds(r: Reading, merged: Reading) {
    && merged.done == MergedBlocks(r.done) && r.afterAttribute == merged.afterAttribute
    && (r.open == [] <==> merged.open == [])
    && (r.open != [] ==> merged.open == MergedLines(r.open))
  }

  lemma FlushedCorrespond(r: Reading, merged: Reading)
    requires Corresponds(r, merged)
    ensures Flushed(merged) == MergedBlocks(Flushed(r))
  {
    hide MergedLines;
    hide MergedBlocks;
    if r.open != [] {
      MergedOneMore(r.done, Run(r.open));
    }
  }

  /** A line that stays verbatim keeps the correspondence and closes the open runs. */
  lemma VerbatimKeeps(r: Reading, merged: Reading, l: Line)
    requires Corresponds(r, merged) && (!l.Use? || r.afterAttribute)
    ensures Corresponds(Read(r, l), Read(merged, l)) && Read(r, l).open == []
  {
    FlushedCorrespond(r, merged);
    MergedOneMore(Flushed(r), Verbatim(l));
    hide MergedLines;
    hide MergedBlocks;
    hide Flushed;
  }

  lemma RunKeeps(lines: seq<Line>, out: seq<Line>, run: seq<Line>)
    requires Corresponds(ReadAll(lines), ReadAll(out)) && ReadAll(lines).open == [] && !ReadAll(lines).afterAttribute
    requires AllUses(run) && run != []
    ensures Corresponds(ReadAll(lines + run), ReadAll(out + MergedLines(run)))
  {
    MergedRunIsRun(run);
    hide MergedLines;
    hide MergedBlocks;
    hide ReadAll;
    hide AllUses;
    ReadRun(lines, run);
    ReadRun(out, MergedLines(run));
    assert [] + run == run && [] + MergedLines(run) == MergedLines(run);
  }

  lemma Start()
    ensures Corresponds(ReadAll([]), ReadAll([])) && ReadAll([]).open == []
  {
  }

  lemma SameAttribute(r: Reading, merged: Reading)
    requires Corresponds(r, merged)
    ensures r.afterAttribute == merged.afterAttribute
  {
  }

  /** The use lines from `start` on, up to the next other line. */
  method TakeRun(lines: seq<Line>, start: nat) returns (run: seq<Line>, i: nat)
    requires start < |lines| && lines[start].Use?
    ensures start < i <= |lines| && run == lines[start..i] && AllUses(run)
    ensures i == |lines| || !lines[i].Use?
  {
    run, i := [], start;
    while i < |lines|
      invariant start <= i <= |lines| && run == lines[start..i] && AllUses(run)
      invariant i == start ==> lines[i].Use?
      decreases |lines| - i
    {
      if !lines[i].Use? {
        break;
      }
      run := run + [lines[i]];
      i := i + 1;
      if i < |lines| && lines[i].Attribute? {
        break;
      }
    }
  }

  /** Read again, the result has the blocks of the file: verbatim lines in place, and every run merged. */
  method Merge(lines: seq<Line>) returns (out: seq<Line>)
    ensures Blocks(out) == MergedBlocks(Blocks(lines))
    ensures forall l :: Passes(l) ==> multiset(out)[l] == multiset(lines)[l]
  {
    hide *;
    out := [];
    var i := 0;
    Start();
    while i < |lines|
      invariant i <= |lines| && Corresponds(ReadAll(lines[..i]), ReadAll(out))
      invariant i < |lines| && lines[i].Use? ==> ReadAll(lines[..i]).open == []
      decreases |lines| - i
    {
      AttributeLast(out);
      SameAttribute(ReadAll(lines[..i]), ReadAll(out));
      if !lines[i].Use? || (out != [] && out[|out| - 1].Attribute?) {
        VerbatimKeeps(ReadAll(lines[..i]), ReadAll(out), lines[i]);
        ReadSnoc(lines[..i], lines[i]);
        ReadSnoc(out, lines[i]);
        assert lines[..i + 1] == lines[..i] + [lines[i]];
        out := out + [lines[i]];
        i := i + 1;
        continue;
      }
      ghost var start := i;
      var run;
      run, i := TakeRun(lines, i);
      var merged := MergeRun(run);
      RunKeeps(lines[..start], out, run);
      assert lines[..start] + run == lines[..i];
      out := out + merged;
    }
    assert lines[..|lines|] == lines;
    FlushedCorrespond(ReadAll(lines), ReadAll(out));
    BlocksFlush(lines);
    BlocksFlush(out);
    forall l | Passes(l)
      ensures multiset(out)[l] == multiset(lines)[l]
    {
      PassesThroughFile(lines, out, l);
    }
  }

  // ---- Attributes over several lines, and with comments behind them -------------------------

  /** In Rust an attribute guards the next item, over however many lines it goes and whatever comments stand between. */
  predicate Guarded(lines: seq<Line>, i: nat)
    requires i <= |lines|
  {
    i > 0 && (lines[i - 1].Attribute?
              || ((lines[i - 1].Continuation? || lines[i - 1].Comment?) && Guarded(lines, i - 1)))
  }

  /** The lines of a run, none of which is left alone. */
  function Touched(n: nat): seq<bool> {
    if n == 0 then [] else Touched(n - 1) + [false]
  }

  /** Line by line, whether it is a block of its own that merging does not touch. */
  function Untouched(blocks: seq<Block>): seq<bool> {
    if blocks == [] then []
    else
      var last := blocks[|blocks| - 1];
      Untouched(blocks[..|blocks| - 1]) + (if last.Verbatim? then [true] else Touched(|last.lines|))
  }

  lemma UntouchedSnoc(blocks: seq<Block>, b: Block)
    ensures Untouched(blocks + [b]) == Untouched(blocks) + (if b.Verbatim? then [true] else Touched(|b.lines|))
  {
    hide Touched;
    assert (blocks + [b])[..|blocks|] == blocks;
  }

  /** One more line in the open run. */
  lemma UntouchedLonger(done: seq<Block>, open: seq<Line>, l: Line)
    ensures Untouched(done + [Run(open + [l])]) ==
            (if open == [] then Untouched(done) else Untouched(done + [Run(open)])) + [false]
  {
    UntouchedSnoc(done, Run(open + [l]));
    UntouchedSnoc(done, Run(open));
    var n := |open|;
    assert Touched(n + 1) == Touched(n) + [false];
    hide Untouched;
    hide Touched;
    AppendTwice(Untouched(done), Touched(n), [false]);
    if open == [] {
      NothingTouched();
    }
  }

  lemma AppendTwice<T>(a: seq<T>, b: seq<T>, c: seq<T>)
    ensures a + (b + c) == a + b + c && a + ([] + c) == a + c
  {
  }

  lemma NothingTouched()
    ensures Touched(0) == []
  {
  }

  lemma UntouchedRead(r: Reading, l: Line)
    ensures Untouched(Flushed(Read(r, l))) == Untouched(Flushed(r)) + [!l.Use? || r.afterAttribute]
  {
    UntouchedSnoc(Flushed(r), Verbatim(l));
    UntouchedLonger(r.done, r.open, l);
    hide Untouched;
  }

  /** No use line, or right behind the start of an attribute. */
  predicate StandsAlone(lines: seq<Line>, i: nat)
    requires i < |lines|
  {
    !lines[i].Use? || (i > 0 && lines[i - 1].Attribute?)
  }

  /** Marks for exactly the lines that stand alone. */
  ghost predicate Marked(marks: seq<bool>, lines: seq<Line>) {
    |marks| == |lines| && forall i :: 0 <= i < |lines| ==> marks[i] == StandsAlone(lines, i)
  }

  lemma MarkedSnoc(marks: seq<bool>, lines: seq<Line>, l: Line)
    requires Marked(marks, lines)
    ensures Marked(marks + [!l.Use? || (lines != [] && lines[|lines| - 1].Attribute?)], lines + [l])
  {
    var longer := lines + [l];
    forall i | 0 <= i < |lines|
      ensures StandsAlone(longer, i) == StandsAlone(lines, i)
    {
      assert longer[i] == lines[i] && (i > 0 ==> longer[i - 1] == lines[i - 1]);
    }
    assert lines != [] ==> longer[|lines| - 1] == lines[|lines| - 1];
    assert StandsAlone(longer, |lines|) == (!l.Use? || (lines != [] && lines[|lines| - 1].Attribute?));
    hide StandsAlone;
  }

  lemma {:induction false} UntouchedIff(lines: seq<Line>)
    ensures Marked(Untouched(Blocks(lines)), lines)
  {
    if lines != [] {
      var init, last := lines[..|lines| - 1], lines[|lines| - 1];
      UntouchedIff(init);
      assert lines == init + [last];
      ReadSnoc(init, last);
      AttributeLast(init);
      UntouchedRead(ReadAll(init), last);
      MarkedSnoc(Untouched(Blocks(init)), init, last);
      BlocksFlush(init);
      BlocksFlush(lines);
      hide *;
    }
  }

  /** A guarded use line is left alone exactly when the line right in front of it starts an attribute. */
  lemma GuardSeenIff(lines: seq<Line>, i: nat)
    requires i < |lines| && lines[i].Use? && Guarded(lines, i)
    ensures |Untouched(Blocks(lines))| == |lines|
    ensures Untouched(Blocks(lines))[i] <==> lines[i - 1].Attribute?
  {
    UntouchedIff(lines);
  }

  lemma ReadTwo(l0: Line, l1: Line)
    requires l0.Attribute? && !l1.Use? && !l1.Attribute?
    ensures ReadAll([l0, l1]) == Reading([Verbatim(l0), Verbatim(l1)], [], false)
  {
    ReadSnoc([], l0);
    ReadSnoc([l0], l1);
    assert [] + [l0] == [l0] && [l0] + [l1] == [l0, l1];
    assert ReadAll([l0]) == Reading([Verbatim(l0)], [], true) by {
      assert [] + [Verbatim(l0)] == [Verbatim(l0)];
    }
    hide ReadAll;
    assert [Verbatim(l0)] + [Verbatim(l1)] == [Verbatim(l0), Verbatim(l1)];
  }

  lemma FourLines(l0: Line, l1: Line, u0: Line, u1: Line)
    requires l0.Attribute? && !l1.Use? && !l1.Attribute? && u0.Use? && u1.Use?
    ensures Blocks([l0, l1, u0, u1]) == [Verbatim(l0), Verbatim(l1), Run([u0, u1])]
  {
    ReadTwo(l0, l1);
    ReadRun([l0, l1], [u0, u1]);
    hide ReadAll;
    assert [l0, l1] + [u0, u1] == [l0, l1, u0, u1];
    assert [] + [u0, u1] == [u0, u1];
  }

  /** Behind a comment, and behind an attribute of two lines, a guarded line is merged with the one that follows it. */
  lemma GuardMissed(u0: Line, u1: Line)
    requires u0.Use? && u1.Use?
    ensures var lines := [Attribute("#[cfg(test)]"), Comment("// why"), u0, u1];
      Guarded(lines, 2) && Blocks(lines) == [Verbatim(lines[0]), Verbatim(lines[1]), Run([u0, u1])]
    ensures var lines := [Attribute("#[cfg(any("), Continuation("test))]"), u0, u1];
      Guarded(lines, 2) && Blocks(lines) == [Verbatim(lines[0]), Verbatim(lines[1]), Run([u0, u1])]
  {
    FourLines(Attribute("#[cfg(test)]"), Comment("// why"), u0, u1);
    FourLines(Attribute("#[cfg(any("), Continuation("test))]"), u0, u1);
    hide Blocks;
  }
}
