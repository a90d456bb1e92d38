/** Use lines: what one imports, and how a merged group is written. */
module UseLines {
  import opened Text
  import opened UsePrefixes
  import opened Wrappers

  /** What two use lines must share to be merged. */
  datatype Key = Key(indent: string, visibility: string, prefix: string)

  /**
   A line by its form: one that starts an attribute, one that continues an attribute begun above, a comment or blank
   line, a use line, or any other. `rest` is the text of a use line between `use` and the final semicolon.
   */
  datatype Line =
    | Attribute(text: string)
    | Continuation(text: string)
    | Comment(text: string)
    | Other(text: string)
    | Use(indent: string, visibility: string, rest: string)

  function KeyOf(l: Line): Key
    requires l.Use?
  {
    Key(l.indent, l.visibility, Prefix(l.rest))
  }

  // ---- Reading ------------------------------------------------------------------------------

  function OpenBraces(s: string): nat {
    if s == "" then 0 else (if s[0] == '{' then 1 else 0) + OpenBraces(s[1..])
  }

  function SplitAtCommas(s: string): (parts: seq<string>)
    ensures parts != []
  {
    if s == "" then [""]
    else
      var rest := SplitAtCommas(s[1..]);
      if s[0] == ',' then [""] + rest else [[s[0]] + rest[0]] + rest[1..]
  }

  /** Trims every part and drops those of which nothing is left. */
  function Stripped(parts: seq<string>): seq<string> {
    if parts == [] then []
    else (if Trim(parts[0]) == "" then [] else [Trim(parts[0])]) + Stripped(parts[1..])
  }

  predicate StartsWithBrace(t: string) {
    t != "" && t[0] == '{'
  }

  /** What a line imports from its prefix: one item, or those of a brace list without another one inside. */
  function ItemsOf(tail: string): Option<seq<string>> {
    var t := Trim(tail);
    if !StartsWithBrace(t) then Some([t])
    else if OpenBraces(t) != 1 then None
    else Some(Stripped(SplitAtCommas(if |t| > 1 then t[1..|t| - 1] else "")))
  }

  predicate NoneHas(parts: seq<string>, c: char) {
    forall i :: 0 <= i < |parts| ==> !Occurs(c, parts[i])
  }

  /** A use line with a prefix that lists plain items; any other one is left alone. */
  predicate Simple(l: Line) {
    l.Use? && Prefix(l.rest) != "" && ItemsOf(Tail(l.rest)).Some? && NoneHas(ItemsOf(Tail(l.rest)).value, '{')
  }

  function ItemsIn(l: Line): seq<string> {
    if Simple(l) then ItemsOf(Tail(l.rest)).value else []
  }

  // ---- Writing ------------------------------------------------------------------------------

  function Joined(items: seq<string>): string {
    if items == [] then "" else if |items| == 1 then items[0] else items[0] + (", " + Joined(items[1..]))
  }

  function Body(items: seq<string>): string {
    if |items| == 1 then items[0] else "{" + Joined(items) + "}"
  }

  /** The line written for a group. */
  function Merged(k: Key, items: seq<string>): Line {
    Use(k.indent, k.visibility, k.prefix + Body(items))
  }

  // ---- Splitting and joining ----------------------------------------------------------------

  lemma SplitStep(c: char, s: string)
    ensures SplitAtCommas([c] + s) ==
            var rest := SplitAtCommas(s); if c == ',' then [""] + rest else [[c] + rest[0]] + rest[1..]
  {
    assert ([c] + s)[1..] == s;
  }

  lemma SplitEmpty()
    ensures SplitAtCommas("") == [""]
  {
  }

  lemma {:induction false} SplitOfConcat(a: string, b: string)
    ensures SplitAtCommas(a + ("," + b)) == SplitAtCommas(a) + SplitAtCommas(b)
  {
    hide SplitAtCommas;
    if a == "" {
      SplitStep(',', b);
      SplitEmpty();
      assert a + ("," + b) == "," + b;
    } else {
      SplitOfConcat(a[1..], b);
      SplitStep(a[0], a[1..]);
      SplitStep(a[0], a[1..] + ("," + b));
      assert a == [a[0]] + a[1..] && a + ("," + b) == [a[0]] + (a[1..] + ("," + b));
      var rest := SplitAtCommas(a[1..]);
      assert (rest + SplitAtCommas(b))[1..] == rest[1..] + SplitAtCommas(b);
    }
  }

  lemma StrippedOne(part: string, parts: seq<string>)
    ensures Stripped([part] + parts) == (if Trim(part) == "" then [] else [Trim(part)]) + Stripped(parts)
  {
    hide Trim;
    assert ([part] + parts)[1..] == parts;
  }

  lemma {:induction false} StrippedOfConcat(a: seq<string>, b: seq<string>)
    ensures Stripped(a + b) == Stripped(a) + Stripped(b)
  {
    if a == [] {
      assert a + b == b;
      StrippedNone();
    } else {
      hide Trim;
      hide Stripped;
      var first := if Trim(a[0]) == "" then [] else [Trim(a[0])];
      var rest := a[1..];
      StrippedOfConcat(rest, b);
      StrippedOne(a[0], rest);
      StrippedOne(a[0], rest + b);
      TakeFirst(a, b);
      Associate(first, Stripped(rest), Stripped(b));
    }
  }

  lemma Associate<T>(a: seq<T>, b: seq<T>, c: seq<T>)
    ensures a + (b + c) == (a + b) + c
  {
  }

  lemma TakeFirst<T>(a: seq<T>, b: seq<T>)
    requires a != []
    ensures a == [a[0]] + a[1..] && a + b == [a[0]] + (a[1..] + b)
  {
  }

  lemma StrippedNone()
    ensures Stripped([]) == []
  {
  }

  lemma TrimSpaceInFront(s: string)
    ensures Trim(" " + s) == Trim(s)
  {
    hide TrimEnd;
    assert (" " + s)[1..] == s;
  }

  lemma SpaceInFront(s: string)
    ensures Stripped(SplitAtCommas(" " + s)) == Stripped(SplitAtCommas(s))
  {
    hide Trim;
    var rest := SplitAtCommas(s);
    assert (" " + s)[1..] == s && SplitAtCommas(" " + s) == [" " + rest[0]] + rest[1..];
    TrimSpaceInFront(rest[0]);
  }

  /** What a text is read as inside a brace list. */
  function Pieces(item: string): seq<string> {
    Stripped(SplitAtCommas(item))
  }

  function AllPieces(items: seq<string>): seq<string> {
    if items == [] then [] else Pieces(items[0]) + AllPieces(items[1..])
  }

  lemma TrimNothing()
    ensures Trim("") == ""
  {
  }

  lemma NothingSplit()
    ensures Pieces("") == []
  {
    SplitEmpty();
    TrimNothing();
    hide Trim;
    hide SplitAtCommas;
    StrippedOne("", []);
    StrippedNone();
    hide Stripped;
    assert [""] + [] == [""];
  }

  /** A comma and a blank between two texts separate their pieces. */
  lemma SeparatedPieces(a: string, b: string)
    ensures Pieces(a + (", " + b)) == Pieces(a) + Pieces(b)
  {
    assert a + (", " + b) == a + ("," + (" " + b));
    SplitOfConcat(a, " " + b);
    SpaceInFront(b);
    StrippedOfConcat(SplitAtCommas(a), SplitAtCommas(" " + b));
    hide Stripped;
    hide SplitAtCommas;
  }

  /** A joined list is read as the pieces of its items, one item after the other. */
  lemma {:induction false} JoinedReadsAs(items: seq<string>)
    ensures Pieces(Joined(items)) == AllPieces(items)
  {
    hide Pieces;
    if items == [] {
      NothingSplit();
    } else if |items| == 1 {
      assert AllPieces(items[1..]) == [];
    } else {
      JoinedReadsAs(items[1..]);
      SeparatedPieces(items[0], Joined(items[1..]));
    }
  }

  lemma {:induction false} NoBraces(s: string)
    ensures OpenBraces(s) == 0 <==> !Occurs('{', s)
  {
    if s != "" {
      assert forall i :: 0 <= i < |s| - 1 ==> s[1..][i] == s[i + 1];
      assert forall i :: 0 < i < |s| ==> s[i] == s[1..][i - 1];
      NoBraces(s[1..]);
    }
  }

  lemma {:induction false} BracesOfConcat(a: string, b: string)
    ensures OpenBraces(a + b) == OpenBraces(a) + OpenBraces(b)
  {
    if a == "" {
      assert a + b == b;
    } else {
      BracesOfConcat(a[1..], b);
      TailOfConcat(a, b);
    }
  }

  lemma {:induction false} JoinedHasNoBraces(items: seq<string>)
    requires NoneHas(items, '{')
    ensures OpenBraces(Joined(items)) == 0
  {
    if |items| == 1 {
      NoBraces(items[0]);
    } else if |items| > 1 {
      var rest := Joined(items[1..]);
      assert forall i :: 0 <= i < |items| - 1 ==> items[1..][i] == items[i + 1];
      JoinedHasNoBraces(items[1..]);
      NoBraces(items[0]);
      BracesOfConcat(items[0], ", " + rest);
      BracesOfConcat(", ", rest);
    }
  }

  lemma OneBrace()
    ensures OpenBraces("{") == 1 && OpenBraces("}") == 0
  {
  }

  lemma BracedTrim(t: string)
    requires |t| > 1 && t[0] == '{' && t[|t| - 1] == '}'
    ensures Trim(t) == t
  {
    assert TrimStart(t) == t;
  }

  lemma BracedBody(inner: string)
    requires OpenBraces(inner) == 0
    ensures var t := "{" + inner + "}";
      Trim(t) == t && t[0] == '{' && OpenBraces(t) == 1 && |t| > 1 && t[1..|t| - 1] == inner
  {
    var t := "{" + inner + "}";
    BracedTrim(t);
    hide Trim;
    assert t == "{" + (inner + "}");
    BracesOfConcat("{", inner + "}");
    BracesOfConcat(inner, "}");
    OneBrace();
    hide OpenBraces;
  }

  // ---- What is read back --------------------------------------------------------------------

  /** Trimmed, and without an opening brace: what every item of a simple line is. */
  predicate IsItem(t: string) {
    Trim(t) == t && !Occurs('{', t)
  }

  predicate AreItems(items: seq<string>) {
    forall i :: 0 <= i < |items| ==> IsItem(items[i])
  }

  /** An item that a brace list gives back. */
  predicate Listable(t: string) {
    t != "" && !Occurs(',', t)
  }

  /** A prefix that a use line can have. */
  ghost predicate IsKey(k: Key) {
    k.prefix != "" && IsPath(k.prefix)
  }

  /** The key under which the line written for a group is read. */
  function ReadKey(k: Key, items: seq<string>): Key {
    if |items| == 1 then k.(prefix := Prefix(k.prefix + items[0])) else k
  }

  function ReadItems(k: Key, items: seq<string>): seq<string> {
    if |items| == 1 then [Trim(Tail(k.prefix + items[0]))] else AllPieces(items)
  }

  lemma ItemsHaveNoBraces(items: seq<string>)
    requires AreItems(items)
    ensures NoneHas(items, '{')
  {
    hide Trim;
  }

  lemma OnlyItemReadsAs(t: string)
    requires IsItem(t)
    ensures ItemsOf(t) == Some([t])
  {
    hide Trim;
    assert t != "" ==> Occurs(t[0], t);
  }

  lemma ListReadsAs(items: seq<string>)
    requires NoneHas(items, '{')
    ensures ItemsOf("{" + Joined(items) + "}") == Some(AllPieces(items))
    ensures NoneHas(AllPieces(items), '{')
  {
    JoinedHasNoBraces(items);
    JoinedReadsAs(items);
    BracedBody(Joined(items));
    AllPiecesHaveNone(items, '{');
    hide Trim;
    hide Joined;
    hide OpenBraces;
    hide AllPieces;
    hide Stripped;
    hide SplitAtCommas;
    hide NoneHas;
  }

  /** Reading a use line, given how its text splits. */
  lemma ReadSplit(l: Line, p: string, t: string)
    requires l.Use? && p == Prefix(l.rest) && t == Tail(l.rest)
    ensures KeyOf(l) == Key(l.indent, l.visibility, p)
    ensures Simple(l) <==> p != "" && ItemsOf(t).Some? && NoneHas(ItemsOf(t).value, '{')
    ensures ItemsIn(l) == if Simple(l) then ItemsOf(t).value else []
  {
    hide Prefix;
    hide Tail;
    hide ItemsOf;
    hide NoneHas;
  }

  /** A brace ends the prefix. */
  lemma BraceEndsPrefix(p: string, inner: string)
    requires IsPath(p)
    ensures var body := "{" + inner + "}"; Prefix(p + body) == p && Tail(p + body) == body
  {
    var body := "{" + inner + "}";
    assert body[0] == '{';
    NoPrefix(body);
    PrefixOfConcat(p, body);
    hide *;
    assert p + "" == p;
  }

  lemma ListRead(k: Key, items: seq<string>)
    requires IsKey(k) && AreItems(items) && |items| != 1
    ensures var l := Merged(k, items);
      KeyOf(l) == k && Simple(l) && ItemsIn(l) == AllPieces(items)
  {
    ItemsHaveNoBraces(items);
    ListReadsAs(items);
    var body := "{" + Joined(items) + "}";
    BraceEndsPrefix(k.prefix, Joined(items));
    ListWritten(k, items);
    ReadSplit(Use(k.indent, k.visibility, k.prefix + body), k.prefix, body);
    KeyPrefix(k);
    hide *;
  }

  lemma KeyPrefix(k: Key)
    requires IsKey(k)
    ensures k.prefix != "" && IsPath(k.prefix)
  {
  }

  lemma ListWritten(k: Key, items: seq<string>)
    requires |items| != 1
    ensures Merged(k, items) == Use(k.indent, k.visibility, k.prefix + ("{" + Joined(items) + "}"))
  {
    hide Joined;
  }

  lemma OnlyItemWritten(k: Key, t: string)
    ensures Merged(k, [t]) == Use(k.indent, k.visibility, k.prefix + t)
  {
    hide Joined;
  }

  lemma PathHasNoBraces(p: string, t: string)
    requires IsPath(p) && !Occurs('{', t)
    ensures !Occurs('{', p + t)
  {
    PathChars(p);
    hide IsPath;
  }

  lemma TailHasNone(s: string, c: char)
    requires !Occurs(c, s)
    ensures !Occurs(c, Tail(s))
  {
    hide Prefix;
    assert forall i :: 0 <= i < |Tail(s)| ==> Tail(s)[i] == s[|Prefix(s)| + i];
  }

  lemma ItemsWithoutBrace(t: string)
    requires !Occurs('{', t)
    ensures ItemsOf(t) == Some([Trim(t)]) && NoneHas([Trim(t)], '{')
  {
    TrimmedHasNone(t, '{');
    hide Trim;
    assert Trim(t) != "" ==> Trim(t)[0] != '{';
  }

  /** An only item is read with whatever segments it begins with split off. */
  lemma OnlyItemRead(k: Key, t: string)
    requires IsKey(k) && IsItem(t)
    ensures var l := Merged(k, [t]);
      && KeyOf(l) == Key(k.indent, k.visibility, Prefix(k.prefix + t))
      && (Simple(l) <==> Prefix(k.prefix + t) != "")
      && (Simple(l) ==> ItemsIn(l) == [Trim(Tail(k.prefix + t))])
  {
    var s := k.prefix + t;
    KeyPrefix(k);
    PathHasNoBraces(k.prefix, t);
    TailHasNone(s, '{');
    ItemsWithoutBrace(Tail(s));
    OnlyItemWritten(k, t);
    ReadSplit(Use(k.indent, k.visibility, s), Prefix(s), Tail(s));
    hide *;
  }

  /** How the line written for a group is read: under which key, whether as a simple line, and with which items. */
  lemma MergedReadsAs(k: Key, items: seq<string>)
    requires IsKey(k) && AreItems(items)
    ensures var l := Merged(k, items);
      && l.Use? && KeyOf(l) == ReadKey(k, items)
      && (Simple(l) <==> ReadKey(k, items).prefix != "")
      && ItemsIn(l) == if Simple(l) then ReadItems(k, items) else []
  {
    KeyPrefix(k);
    if |items| == 1 {
      assert items == [items[0]];
      OnlyItemRead(k, items[0]);
    } else {
      ListRead(k, items);
    }
    hide ItemsOf;
    hide Prefix;
    hide Tail;
    hide Trim;
    hide AllPieces;
    hide IsPath;
    hide Body;
    hide KeyOf;
  }

  /** It is read under the key it was written for unless its only item is blank or begins with segments. */
  lemma {:induction false} KeyKeptIff(k: Key, items: seq<string>)
    requires IsKey(k) && AreItems(items)
    ensures ReadKey(k, items) == k <==> |items| != 1 || (items[0] != "" && Prefix(items[0]) == "")
  {
    KeyPrefix(k);
    if |items| == 1 {
      OnlyItemKey(k.prefix, items[0]);
      hide Prefix;
    }
  }

  lemma OnlyItemKey(p: string, t: string)
    requires IsPath(p) && p != ""
    ensures Prefix(p + t) == p <==> t != "" && Prefix(t) == ""
  {
    if t == "" {
      assert p + t == p;
      assert |Prefix(p)| < |p|;
    } else {
      PrefixOfConcat(p, t);
      hide Prefix;
      assert p + "" == p;
      assert |p + Prefix(t)| == |p| + |Prefix(t)|;
    }
  }

  lemma {:induction false} SplitHasNone(s: string, c: char)
    requires c == ',' || !Occurs(c, s)
    ensures NoneHas(SplitAtCommas(s), c)
  {
    if s != "" {
      assert forall i :: 0 <= i < |s| - 1 ==> s[1..][i] == s[i + 1];
      SplitHasNone(s[1..], c);
    }
  }

  lemma TrimTwice(s: string)
    ensures Trim(Trim(s)) == Trim(s)
  {
    hide IsSpace;
    var t := Trim(s);
    if t != "" {
      assert t[0] == TrimStart(s)[0];
      assert TrimStart(t) == t && TrimEnd(t) == t;
    }
  }

  lemma TrimmedHasNone(s: string, c: char)
    requires !Occurs(c, s)
    ensures !Occurs(c, Trim(s))
  {
    hide IsSpace;
    hide TrimStart;
    hide TrimEnd;
    var t := TrimStart(s);
    assert forall i :: 0 <= i < |t| ==> t[i] == s[|s| - |t| + i];
  }

  lemma ConcatHasNone(a: seq<string>, b: seq<string>, c: char)
    requires NoneHas(a, c) && NoneHas(b, c)
    ensures NoneHas(a + b, c)
  {
    hide Occurs;
  }

  lemma {:induction false} StrippedHasNone(parts: seq<string>, c: char)
    requires NoneHas(parts, c)
    ensures NoneHas(Stripped(parts), c)
  {
    if parts != [] {
      hide Trim;
      StrippedHasNone(parts[1..], c);
      TrimmedHasNone(parts[0], c);
      ConcatHasNone(if Trim(parts[0]) == "" then [] else [Trim(parts[0])], Stripped(parts[1..]), c);
    }
  }

  lemma {:induction false} AllPiecesHaveNone(items: seq<string>, c: char)
    requires c == ',' || NoneHas(items, c)
    ensures NoneHas(AllPieces(items), c)
  {
    if items != [] {
      assert forall i :: 0 <= i < |items| - 1 ==> items[1..][i] == items[i + 1];
      AllPiecesHaveNone(items[1..], c);
      SplitHasNone(items[0], c);
      StrippedHasNone(SplitAtCommas(items[0]), c);
      hide NoneHas;
      ConcatHasNone(Pieces(items[0]), AllPieces(items[1..]), c);
    }
  }

  lemma {:induction false} StrippedNotBlank(parts: seq<string>)
    ensures "" !in Stripped(parts)
  {
    hide Trim;
    if parts != [] {
      StrippedNotBlank(parts[1..]);
    }
  }

  lemma {:induction false} SplitWhole(a: string)
    requires !Occurs(',', a)
    ensures SplitAtCommas(a) == [a]
  {
    if a != "" {
      assert forall i :: 0 <= i < |a| - 1 ==> a[1..][i] == a[i + 1];
      SplitWhole(a[1..]);
      assert [a[0]] + a[1..] == a;
    }
  }

  /** A listable item is its own only piece; any other is not among the pieces of any text. */
  lemma PiecesOfItem(t: string, s: string)
    ensures IsItem(t) && Listable(t) ==> Pieces(t) == [t]
    ensures !Listable(t) ==> t !in Pieces(s)
  {
    StrippedNotBlank(SplitAtCommas(s));
    SplitHasNone(s, ',');
    StrippedHasNone(SplitAtCommas(s), ',');
    if IsItem(t) && Listable(t) {
      SplitWhole(t);
      assert Stripped([t][1..]) == [];
    }
  }

  lemma {:induction false} PiecesAreItems(parts: seq<string>)
    requires NoneHas(parts, '{')
    ensures AreItems(Stripped(parts))
  {
    if parts != [] {
      PiecesAreItems(parts[1..]);
      TrimmedHasNone(parts[0], '{');
      TrimTwice(parts[0]);
      hide Trim;
      hide Occurs;
      ItemInFront(Trim(parts[0]), Stripped(parts[1..]));
    }
  }

  lemma ItemInFront(t: string, items: seq<string>)
    requires t != "" ==> IsItem(t)
    requires AreItems(items)
    ensures AreItems((if t == "" then [] else [t]) + items)
  {
    hide IsItem;
  }

  lemma InnerHasNoBraces(t: string)
    requires StartsWithBrace(t) && OpenBraces(t) == 1 && |t| > 1
    ensures !Occurs('{', t[1..|t| - 1])
  {
    var inner, last := t[1..|t| - 1], [t[|t| - 1]];
    assert t == [t[0]] + (inner + last);
    BracesOfConcat([t[0]], inner + last);
    BracesOfConcat(inner, last);
    OneBrace();
    NoBraces(inner);
  }

  /** Whatever the line, its items are trimmed and without braces. */
  lemma ReadItemsAreItems(l: Line)
    ensures AreItems(ItemsIn(l))
  {
    if Simple(l) {
      var tail := Tail(l.rest);
      var t := Trim(tail);
      TrimTwice(tail);
      hide Tail;
      hide Prefix;
      hide Trim;
      if StartsWithBrace(t) {
        var inner := if |t| > 1 then t[1..|t| - 1] else "";
        if |t| > 1 {
          InnerHasNoBraces(t);
        }
        SplitHasNone(inner, '{');
        PiecesAreItems(SplitAtCommas(inner));
      }
    }
  }

  /** Whatever stands in a brace list, the items read from it can stand in one again. */
  lemma BraceListIsListable(l: Line)
    requires Simple(l) && StartsWithBrace(Trim(Tail(l.rest)))
    ensures forall t :: t in ItemsIn(l) ==> Listable(t)
  {
    var t := Trim(Tail(l.rest));
    hide Trim;
    hide Tail;
    hide Prefix;
    var inner := if |t| > 1 then t[1..|t| - 1] else "";
    forall item | item in ItemsIn(l)
      ensures Listable(item)
    {
      PiecesOfItem(item, inner);
    }
  }

  // ---- Nested lists -------------------------------------------------------------------------

  ghost predicate HasTwoBraces(s: string) {
    exists i, j :: 0 <= i < j < |s| && s[i] == '{' && s[j] == '{'
  }

  lemma TwoBracesCounted(s: string)
    requires HasTwoBraces(s)
    ensures OpenBraces(s) >= 2
  {
    var i, j :| 0 <= i < j < |s| && s[i] == '{' && s[j] == '{';
    var a, b := s[..j], s[j..];
    assert s == a + b && a[i] == '{' && b[0] == '{';
    BracesOfConcat(a, b);
    NoBraces(a);
    NoBraces(b);
  }

  lemma {:induction false} TrimStartKeepsBraces(s: string)
    ensures OpenBraces(TrimStart(s)) == OpenBraces(s)
  {
    if s != "" && IsSpace(s[0]) {
      TrimStartKeepsBraces(s[1..]);
    }
  }

  lemma {:induction false} TrimEndKeepsBraces(s: string)
    ensures OpenBraces(TrimEnd(s)) == OpenBraces(s)
  {
    if s != "" && IsSpace(s[|s| - 1]) {
      var init, last := s[..|s| - 1], [s[|s| - 1]];
      TrimEndKeepsBraces(init);
      assert s == init + last;
      BracesOfConcat(init, last);
      assert last[0] != '{' && last[1..] == "";
    }
  }

  lemma ItemsHaveOneBrace(tail: string)
    requires ItemsOf(tail).Some? && NoneHas(ItemsOf(tail).value, '{')
    ensures OpenBraces(tail) <= 1
  {
    TrimStartKeepsBraces(tail);
    TrimEndKeepsBraces(TrimStart(tail));
    var t := Trim(tail);
    hide TrimStart;
    hide TrimEnd;
    if !StartsWithBrace(t) {
      assert !Occurs('{', [t][0]);
      NoBraces(t);
    }
  }

  /** A line with two opening braces is not simple, whatever stands around them. */
  lemma NestedIsNotSimple(l: Line)
    requires l.Use? && HasTwoBraces(l.rest)
    ensures !Simple(l)
  {
    if Simple(l) {
      TwoBracesCounted(l.rest);
      PrefixIsPath(l.rest);
      PathHasNoBraces(Prefix(l.rest), "");
      NoBraces(Prefix(l.rest) + "");
      assert Prefix(l.rest) + "" == Prefix(l.rest);
      TailSplits(l.rest);
      BracesOfConcat(Prefix(l.rest), Tail(l.rest));
      ReadSplit(l, Prefix(l.rest), Tail(l.rest));
      ItemsHaveOneBrace(Tail(l.rest));
      assert false;
    }
  }
}
