/** Under which keys merged `use` lines are read again. */
module MergeKeys {
  import opened MergeImports
  import opened MergeUses
  import opened Sequences
  import opened Text
  import opened UseLines
  import opened UsePrefixes
  import opened Wrappers

  // ---- Keys read back -----------------------------------------------------------------------

  /** Several items, none, or one that is neither blank nor begins with segments. */
  predicate KeepsKey(items: seq<string>) {
    |items| == 1 ==> items[0] != "" && Prefix(items[0]) == ""
  }

  lemma {:induction false} FewerKeys(lines: seq<Line>)
    ensures |KeySeq(lines)| <= |lines|
  {
    hide Simple;
    hide KeyOf;
    if lines != [] {
      FewerKeys(lines[..|lines| - 1]);
    }
  }

  lemma SnocEqual<T>(a: seq<T>, x: T, b: seq<T>, y: T)
    ensures a + [x] == b + [y] <==> a == b && x == y
  {
    if a + [x] == b + [y] {
      assert |a + [x]| == |b + [y]|;
      assert a == (a + [x])[..|a|] == (b + [y])[..|b|] == b;
      assert x == (a + [x])[|a|] == (b + [y])[|b|] == y;
    }
  }

  lemma {:induction false} KeysOfOthers(lines: seq<Line>, others: seq<Line>)
    requires forall i :: 0 <= i < |others| ==> others[i].Use? && !Simple(others[i])
    ensures KeySeq(lines + others) == KeySeq(lines)
  {
    hide Simple;
    hide KeySeq;
    if others == [] {
      assert lines + others == lines;
    } else {
      var init, last := others[..|others| - 1], others[|others| - 1];
      KeysOfOthers(lines, init);
      RunSnoc(lines + init, last);
      assert lines + others == lines + init + [last];
    }
  }

  lemma KeysOfMerged(run: seq<Line>)
    ensures KeySeq(MergedLines(run)) == KeySeq(GroupLines(run, Keys(run)))
  {
    OthersStandAlone(run);
    KeysOfOthers(GroupLines(run, Keys(run)), Others(run));
    MergedLinesAre(run);
    hide *;
  }

  /** The key under which the line of a group is read again. */
  function ReadAgain(run: seq<Line>, k: Key): Key {
    ReadKey(k, Group(run, k))
  }

  lemma OneMoreGroup(run: seq<Line>, keys: seq<Key>, k: Key)
    requires k in Keys(run)
    ensures KeySeq(GroupLines(run, keys + [k])) ==
            if ReadAgain(run, k).prefix != "" then KeySeq(GroupLines(run, keys)) + [ReadAgain(run, k)]
            else KeySeq(GroupLines(run, keys))
  {
    KeysMeaning(run, k);
    GroupMeaning(run, k);
    MergedReadsAs(k, Group(run, k));
    LastGroup(run, keys, k);
    RunSnoc(GroupLines(run, keys), Merged(k, Group(run, k)));
    hide KeySeq;
    hide GroupLines;
    hide Merged;
    hide Group;
    hide ReadKey;
    hide Simple;
    hide KeyOf;
  }

  lemma KeyKept(run: seq<Line>, k: Key)
    requires k in Keys(run)
    ensures k.prefix != "" && (ReadAgain(run, k) == k <==> KeepsKey(Group(run, k)))
  {
    KeysMeaning(run, k);
    GroupMeaning(run, k);
    KeyKeptIff(k, Group(run, k));
    hide Group;
    hide Prefix;
    hide ReadKey;
  }

  lemma NoKeys(run: seq<Line>)
    ensures KeySeq(GroupLines(run, [])) == []
  {
  }

  lemma {:induction false} GroupsKeepKeysIff(run: seq<Line>, keys: seq<Key>)
    requires forall k :: k in keys ==> k in Keys(run)
    ensures KeySeq(GroupLines(run, keys)) == keys <==> forall k :: k in keys ==> KeepsKey(Group(run, k))
  {
    if keys == [] {
      NoKeys(run);
    } else {
      var init, last := keys[..|keys| - 1], keys[|keys| - 1];
      assert keys == init + [last];
      GroupsKeepKeysIff(run, init);
      OneMoreGroup(run, init, last);
      KeyKept(run, last);
      FewerKeys(GroupLines(run, init));
      SnocEqual(KeySeq(GroupLines(run, init)), ReadAgain(run, last), init, last);
      hide *;
      assert forall k :: k in keys <==> k in init || k == last;
    }
  }

  /** The written lines are read under the keys they were written for, in order, exactly if every group is like that. */
  lemma KeysReadBackIff(run: seq<Line>)
    ensures KeySeq(MergedLines(run)) == Keys(run) <==> forall k :: k in Keys(run) ==> KeepsKey(Group(run, k))
  {
    KeysOfMerged(run);
    GroupsKeepKeysIff(run, Keys(run));
    hide *;
  }

  /** No two groups are read again under one key. */
  ghost predicate KeysApart(run: seq<Line>, keys: seq<Key>) {
    forall i, j :: 0 <= i < j < |keys| && ReadAgain(run, keys[i]).prefix != "" ==>
      ReadAgain(run, keys[i]) != ReadAgain(run, keys[j])
  }

  predicate ReadBy(run: seq<Line>, keys: seq<Key>, key: Key, k: Key) {
    k in keys && ReadAgain(run, k) == key
  }

  lemma {:induction false} ReadKeys(run: seq<Line>, keys: seq<Key>, key: Key)
    requires forall k :: k in keys ==> k in Keys(run)
    ensures key in KeySeq(GroupLines(run, keys)) <==> key.prefix != "" && exists k :: ReadBy(run, keys, key, k)
  {
    if keys == [] {
      NoKeys(run);
    } else {
      var init, last := keys[..|keys| - 1], keys[|keys| - 1];
      assert keys == init + [last];
      ReadKeys(run, init, key);
      OneMoreGroup(run, init, last);
      forall k
        ensures ReadBy(run, keys, key, k) <==> ReadBy(run, init, key, k) || (k == last && ReadAgain(run, last) == key)
      {
        hide ReadAgain;
      }
      hide *;
      if ReadAgain(run, last) == key {
        assert ReadBy(run, keys, key, last);
      }
    }
  }

  lemma DistinctSnoc<T>(s: seq<T>, x: T)
    ensures AreDistinct(s + [x]) <==> AreDistinct(s) && x !in s
  {
    var longer := s + [x];
    assert forall i :: 0 <= i < |s| ==> longer[i] == s[i];
    if AreDistinct(longer) {
      assert forall i :: 0 <= i < |s| ==> longer[i] != longer[|s|];
    }
  }

  lemma ApartSnoc(run: seq<Line>, keys: seq<Key>, k: Key)
    ensures KeysApart(run, keys + [k]) <==>
      KeysApart(run, keys)
      && (ReadAgain(run, k).prefix == "" || forall other :: !ReadBy(run, keys, ReadAgain(run, k), other))
  {
    hide ReadAgain;
    var longer := keys + [k];
    assert longer[|keys|] == k;
    assert forall i :: 0 <= i < |keys| ==> longer[i] == keys[i];
    var key := ReadAgain(run, k);
    if KeysApart(run, longer) && key.prefix != "" {
      forall other
        ensures !ReadBy(run, keys, key, other)
      {
        if i: nat :| i < |keys| && keys[i] == other {
          assert longer[i] == other && longer[|keys|] == k;
        }
      }
    }
    assert forall i :: 0 <= i < |keys| && ReadAgain(run, keys[i]) == key ==> ReadBy(run, keys, key, keys[i]);
  }

  lemma {:induction false} GroupsApartIff(run: seq<Line>, keys: seq<Key>)
    requires forall k :: k in keys ==> k in Keys(run)
    ensures AreDistinct(KeySeq(GroupLines(run, keys))) <==> KeysApart(run, keys)
  {
    if keys == [] {
      NoKeys(run);
    } else {
      var init, last := keys[..|keys| - 1], keys[|keys| - 1];
      assert keys == init + [last];
      GroupsApartIff(run, init);
      OneMoreGroup(run, init, last);
      ReadKeys(run, init, ReadAgain(run, last));
      DistinctSnoc(KeySeq(GroupLines(run, init)), ReadAgain(run, last));
      ApartSnoc(run, init, last);
      hide *;
    }
  }

  /**
   Read again, there is one line for each key if and only if no two groups are read under one key; that is so when
   every group keeps its own.
   */
  lemma OneLinePerKeyIff(run: seq<Line>)
    ensures AreDistinct(KeySeq(MergedLines(run))) <==> KeysApart(run, Keys(run))
    ensures (forall k :: k in Keys(run) ==> KeepsKey(Group(run, k))) ==> AreDistinct(KeySeq(MergedLines(run)))
  {
    KeysOfMerged(run);
    GroupsApartIff(run, Keys(run));
    KeysReadBackIff(run);
    KeysAreDistinct(run);
    hide *;
  }

  lemma KeysAreDistinct(run: seq<Line>)
    ensures AreDistinct(Keys(run))
  {
    FirstOccurrencesMeaning(KeySeq(run));
    hide FirstOccurrences;
    hide KeySeq;
    hide Precedes;
  }

  lemma DistinctPieces(k: Key, items: seq<string>)
    requires IsKey(k) && AreItems(items) && AreDistinct(items) && KeepsPaths(k, items)
    ensures AreDistinct(ItemsIn(Merged(k, items)))
  {
    MergedReadsAs(k, items);
    if |items| != 1 {
      ListablePieces(items);
    }
    hide *;
  }

  /** The line of a group that keeps its paths lists no item twice. */
  lemma NoItemTwice(run: seq<Line>, k: Key)
    requires k in Keys(run) && KeepsPaths(k, Group(run, k))
    ensures AreDistinct(ItemsIn(Merged(k, Group(run, k))))
  {
    KeysMeaning(run, k);
    GroupMeaning(run, k);
    hide *;
    DistinctPieces(k, Group(run, k));
  }

  // ---- Two lines under one key --------------------------------------------------------------

  lemma FirstAndSecond<T>(a: T, b: T)
    ensures [] + [a] == [a] && [a] + [b] == [a, b]
  {
  }

  lemma KeysOfTwo(l0: Line, l1: Line)
    requires Simple(l0) && Simple(l1)
    ensures KeySeq([l0, l1]) == [KeyOf(l0), KeyOf(l1)] && Others([l0, l1]) == []
  {
    var k0, k1 := KeyOf(l0), KeyOf(l1);
    EmptyRun();
    RunSnoc([], l0);
    RunSnoc([l0], l1);
    FirstAndSecond(l0, l1);
    FirstAndSecond(k0, k1);
    hide *;
  }

  lemma TwoKeys(l0: Line, l1: Line)
    requires Simple(l0) && Simple(l1) && KeyOf(l0) != KeyOf(l1)
    ensures Keys([l0, l1]) == [KeyOf(l0), KeyOf(l1)]
  {
    var k0, k1 := KeyOf(l0), KeyOf(l1);
    KeysOfTwo(l0, l1);
    hide Simple;
    hide KeyOf;
    hide KeySeq;
    FirstAndSecond(k0, k1);
    FirstOccurrencesSnoc<Key>([], k0);
    FirstOccurrencesSnoc([k0], k1);
  }

  lemma EmptySides<T>(s: seq<T>)
    ensures [] + s == s && s + [] == s
  {
  }

  lemma ItemsOfTwo(l0: Line, l1: Line, k: Key)
    requires Simple(l0) && Simple(l1) && KeyOf(l0) != KeyOf(l1)
    ensures k == KeyOf(l0) ==> ItemSeq([l0, l1], k) == ItemsIn(l0)
    ensures k == KeyOf(l1) ==> ItemSeq([l0, l1], k) == ItemsIn(l1)
  {
    EmptyRun();
    ItemSnoc([], l0, k);
    ItemSnoc([l0], l1, k);
    FirstAndSecond(l0, l1);
    EmptySides(ItemsIn(l0));
    EmptySides(ItemsIn(l1));
    hide Simple;
    hide KeyOf;
    hide ItemsIn;
    hide ItemSeq;
  }

  lemma TwoGroups(l0: Line, l1: Line, t: string, u: string)
    requires Simple(l0) && Simple(l1) && KeyOf(l0) != KeyOf(l1) && ItemsIn(l0) == [t] && ItemsIn(l1) == [u]
    ensures Group([l0, l1], KeyOf(l0)) == [t] && Group([l0, l1], KeyOf(l1)) == [u]
  {
    ItemsOfTwo(l0, l1, KeyOf(l0));
    ItemsOfTwo(l0, l1, KeyOf(l1));
    hide Simple;
    hide KeyOf;
    hide ItemsIn;
    hide ItemSeq;
    OneOccurrence(t);
    OneOccurrence(u);
  }

  lemma OneOccurrence(t: string)
    ensures FirstOccurrences([t]) == [t]
  {
    FirstOccurrencesSnoc<string>([], t);
    assert [] + [t] == [t];
  }

  /** Two lines of one item each under different keys are written as two lines. */
  lemma TwoMerged(l0: Line, l1: Line, t: string, u: string)
    requires Simple(l0) && Simple(l1) && KeyOf(l0) != KeyOf(l1) && ItemsIn(l0) == [t] && ItemsIn(l1) == [u]
    ensures MergedLines([l0, l1]) == [Merged(KeyOf(l0), [t]), Merged(KeyOf(l1), [u])]
  {
    var run, k0, k1 := [l0, l1], KeyOf(l0), KeyOf(l1);
    KeysOfTwo(l0, l1);
    TwoKeys(l0, l1);
    TwoGroups(l0, l1, t, u);
    NoGroups(run);
    LastGroup(run, [], k0);
    LastGroup(run, [k0], k1);
    MergedLinesAre(run);
    hide *;
    var m0, m1 := Merged(k0, [t]), Merged(k1, [u]);
    FirstAndSecond(k0, k1);
    FirstAndSecond(m0, m1);
    EmptySides([m0, m1]);
  }

  lemma BracedItem(t: string)
    requires IsItem(t) && Listable(t)
    ensures ItemsOf("{" + t + "}") == Some([t]) && NoneHas([t], '{')
  {
    NoBraces(t);
    BracedBody(t);
    PiecesOfItem(t, t);
    hide Trim;
    hide OpenBraces;
    hide Stripped;
    hide SplitAtCommas;
    hide Listable;
  }

  /** A brace list of one item. */
  lemma BracedItemRead(k: Key, t: string)
    requires IsKey(k) && IsItem(t) && Listable(t)
    ensures var l := Use(k.indent, k.visibility, k.prefix + ("{" + t + "}"));
      KeyOf(l) == k && Simple(l) && ItemsIn(l) == [t]
  {
    KeyPrefix(k);
    BraceEndsPrefix(k.prefix, t);
    BracedItem(t);
    ReadSplit(Use(k.indent, k.visibility, k.prefix + ("{" + t + "}")), k.prefix, "{" + t + "}");
    hide *;
  }

  /** One item behind its prefix. */
  lemma PlainItemRead(k: Key, t: string)
    requires IsKey(k) && IsItem(t) && t != "" && Prefix(t) == ""
    ensures KeyOf(Merged(k, [t])) == k && Simple(Merged(k, [t])) && ItemsIn(Merged(k, [t])) == [t]
  {
    KeyPrefix(k);
    OnlyItemRead(k, t);
    PrefixOfConcat(k.prefix, t);
    PlainTail(t);
    hide *;
    assert k.prefix + "" == k.prefix;
  }

  lemma PlainTail(t: string)
    requires IsItem(t) && Prefix(t) == ""
    ensures Tail(t) == t && Trim(t) == t
  {
    hide Trim;
  }

  lemma {:induction false} PathOfPaths(p: string, q: string)
    requires IsPath(p) && IsPath(q)
    ensures IsPath(p + q)
    decreases |p|
  {
    if p == "" {
      assert p + q == q;
    } else {
      SegmentStays(p, q);
      PathOfPaths(p[Segment(p)..], q);
      hide Segment;
    }
  }

  lemma LongerKey(k: Key, segment: string)
    requires IsKey(k) && IsPath(segment) && segment != ""
    ensures var longer := k.(prefix := k.prefix + segment); IsKey(longer) && longer != k
  {
    PathOfPaths(k.prefix, segment);
    hide IsPath;
    assert |k.prefix + segment| != |k.prefix|;
  }

  /** An only item that begins with a segment is read under the longer prefix. */
  lemma ReadUnderLonger(k: Key, segment: string, t: string)
    requires IsKey(k) && IsPath(segment) && segment != "" && IsItem(segment + t) && t != "" && Prefix(t) == ""
    ensures var l := Merged(k, [segment + t]); Simple(l) && KeyOf(l) == k.(prefix := k.prefix + segment)
  {
    KeyPrefix(k);
    OnlyItemRead(k, segment + t);
    PrefixOfConcat(segment, t);
    PrefixOfConcat(k.prefix, segment + t);
    hide *;
    EmptySides(segment);
    assert k.prefix + segment != "";
  }

  /**
   An item that begins with a segment, alone in a brace list, is written and then read under the longer prefix; if
   that prefix has a group of its own, two lines share it.
   */
  lemma SegmentsCollide(k: Key, segment: string, t: string, u: string)
    requires IsKey(k) && IsPath(segment) && segment != "" && IsItem(segment + t) && Listable(segment + t)
    requires t != "" && Prefix(t) == "" && IsItem(u) && u != "" && Prefix(u) == ""
    ensures var longer := k.(prefix := k.prefix + segment);
      var run := [Use(k.indent, k.visibility, k.prefix + ("{" + (segment + t) + "}")), Merged(longer, [u])];
      MergedLines(run) == [Merged(k, [segment + t]), Merged(longer, [u])] && KeySeq(MergedLines(run)) == [longer, longer]
  {
    var longer := k.(prefix := k.prefix + segment);
    var item := segment + t;
    LongerKey(k, segment);
    BracedItemRead(k, item);
    PlainItemRead(longer, u);
    ReadUnderLonger(k, segment, t);
    hide *;
    TwoMerged(Use(k.indent, k.visibility, k.prefix + ("{" + item + "}")), Merged(longer, [u]), item, u);
    KeysOfTwo(Merged(k, [item]), Merged(longer, [u]));
  }

  lemma LetterPath(c: char)
    requires IsAlpha(c)
    ensures IsPath([c, ':', ':'])
  {
    var p := [c, ':', ':'];
    assert !IsWord(p[1]);
    WordLenIs(p, 1);
    assert p[1..] == "::";
    assert p[3..] == "";
  }

  lemma LetterItem(c: char)
    requires IsAlpha(c)
    ensures IsItem([c]) && Listable([c]) && Prefix([c]) == ""
  {
    SolidTrim([c]);
    hide Trim;
    WordLenIs([c], 1);
    assert [c][1..] == "";
  }

  lemma LetterPathItem(b: char, c: char)
    requires IsAlpha(b) && IsAlpha(c)
    ensures IsItem([b, ':', ':'] + [c]) && Listable([b, ':', ':'] + [c])
  {
    SolidTrim([b, ':', ':'] + [c]);
    hide Trim;
  }

  /** With a letter for each name: `use a::{b::c};` and `use a::b::d;` become `use a::b::c;` and `use a::b::d;`. */
  lemma {:induction false} TwoLinesForOneKey(a: char, b: char, c: char, d: char)
    requires IsAlpha(a) && IsAlpha(b) && IsAlpha(c) && IsAlpha(d)
    ensures var outer, inner := [a, ':', ':'], [b, ':', ':'];
      var merged := [Use("", "", outer + (inner + [c])), Use("", "", outer + inner + [d])];
      && MergedLines([Use("", "", outer + ("{" + (inner + [c]) + "}")), Use("", "", outer + inner + [d])]) == merged
      && KeySeq(merged) == [Key("", "", outer + inner), Key("", "", outer + inner)]
  {
    LetterPath(a);
    LetterPath(b);
    LetterItem(c);
    LetterItem(d);
    LetterPathItem(b, c);
    var k := Key("", "", [a, ':', ':']);
    var segment := [b, ':', ':'];
    assert IsKey(k);
    hide *;
    SegmentsCollide(k, segment, [c], [d]);
    OnlyItemWritten(k, segment + [c]);
    OnlyItemWritten(k.(prefix := k.prefix + segment), [d]);
  }
}
