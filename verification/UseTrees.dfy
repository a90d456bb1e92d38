/** What a use declaration imports: trees of paths and brace lists, and how their text is read. */
module UseTrees {
  import opened Text
  import opened UsePrefixes

  /** What stands between `use` and the semicolon: a path, or a prefix and the list in its braces. */
  datatype Tree = Path(text: string) | List(prefix: string, trees: seq<Tree>)

  function Rendered(t: Tree): string
    decreases t
  {
    match t
    case Path(text) => text
    case List(prefix, trees) => prefix + ("{" + (RenderedAll(trees) + "}"))
  }

  function RenderedAll(trees: seq<Tree>): string
    decreases trees
  {
    if trees == [] then ""
    else if |trees| == 1 then Rendered(trees[0])
    else Rendered(trees[0]) + (", " + RenderedAll(trees[1..]))
  }

  /** The whole paths, given what stands in front. */
  function Imports(front: string, t: Tree): set<string>
    decreases t
  {
    match t
    case Path(text) => {front + text}
    case List(prefix, trees) => ImportsAll(front + prefix, trees)
  }

  function ImportsAll(front: string, trees: seq<Tree>): set<string>
    decreases trees
  {
    if trees == [] then {} else Imports(front, trees[0]) + ImportsAll(front, trees[1..])
  }

  predicate Special(c: char) {
    c == '{' || c == '}' || c == ','
  }

  predicate NoneSpecial(s: string) {
    forall i :: 0 <= i < |s| ==> !Special(s[i])
  }

  /** Not blank, no blanks around it or behind its segments, no braces and no commas. */
  predicate IsLeaf(text: string) {
    text != "" && Trim(text) == text && Trim(Tail(text)) == Tail(text) && NoneSpecial(text)
  }

  ghost predicate WellFormed(t: Tree)
    decreases t
  {
    match t
    case Path(text) => IsLeaf(text)
    case List(prefix, trees) => IsPath(prefix) && forall i :: 0 <= i < |trees| ==> WellFormed(trees[i])
  }

  // ---- Reading the text ---------------------------------------------------------------------

  /** What stands in front inside the open braces, the path being read, and the paths read so far. */
  datatype Scan = Scan(fronts: seq<string>, current: string, paths: set<string>)

  function Front(s: Scan): string {
    if s.fronts == [] then "" else s.fronts[|s.fronts| - 1]
  }

  function Emit(s: Scan): (r: Scan)
    ensures r.current == "" && r.fronts == s.fronts
  {
    if s.current == "" then s else Scan(s.fronts, "", s.paths + {Front(s) + s.current})
  }

  /** A brace opens a list behind what was read, a comma and a closing brace end a path, blanks in front are skipped. */
  function Read(s: Scan, c: char): Scan {
    if c == '{' then Scan(s.fronts + [Front(s) + s.current], "", s.paths)
    else if c == ',' then Emit(s)
    else if c == '}' then
      var e := Emit(s);
      if e.fronts == [] then e else e.(fronts := e.fronts[..|e.fronts| - 1])
    else if s.current == "" && IsSpace(c) then s
    else s.(current := s.current + [c])
  }

  function ReadAll(s: Scan, text: string): Scan
    decreases |text|
  {
    if text == "" then s else ReadAll(Read(s, text[0]), text[1..])
  }

  /** The whole paths a use declaration imports, by its text. */
  function ImportsOf(text: string): set<string> {
    Emit(ReadAll(Scan([], "", {}), text)).paths
  }

  lemma {:induction false} ReadConcat(s: Scan, a: string, b: string)
    ensures ReadAll(s, a + b) == ReadAll(ReadAll(s, a), b)
    decreases |a|
  {
    hide Read;
    if a == "" {
      assert a + b == b;
    } else {
      ReadConcat(Read(s, a[0]), a[1..], b);
      TailOfConcat(a, b);
    }
  }

  lemma ReadOne(s: Scan, c: char)
    ensures ReadAll(s, [c]) == Read(s, c)
  {
    hide Read;
    assert [c][1..] == "";
  }

  lemma {:induction false} ReadPlain(s: Scan, text: string)
    requires NoneSpecial(text) && (s.current != "" || text == "" || !IsSpace(text[0]))
    ensures ReadAll(s, text) == s.(current := s.current + text)
    decreases |text|
  {
    hide IsSpace;
    if text != "" {
      var next := s.(current := s.current + [text[0]]);
      assert Read(s, text[0]) == next;
      hide Read;
      assert forall i :: 0 <= i < |text| - 1 ==> text[1..][i] == text[i + 1];
      ReadPlain(next, text[1..]);
      assert s.current + [text[0]] + text[1..] == s.current + text;
    } else {
      assert s.current + text == s.current;
    }
  }

  lemma LeafStarts(text: string)
    requires IsLeaf(text)
    ensures !IsSpace(text[0])
  {
    hide IsSpace;
    assert |TrimStart(text)| == |text|;
  }

  lemma PathPlain(p: string)
    requires IsPath(p)
    ensures NoneSpecial(p) && (p != "" ==> !IsSpace(p[0]))
  {
    PathChars(p);
    hide IsPath;
    forall i | 0 <= i < |p|
      ensures !Special(p[i])
    {
      assert IsPathChar(p[i]);
    }
  }

  lemma ReadLeaf(s: Scan, text: string)
    requires IsLeaf(text) && s.current == ""
    ensures Emit(ReadAll(s, text)) == s.(paths := s.paths + {Front(s) + text})
  {
    hide Trim;
    hide Tail;
    hide IsSpace;
    hide ReadAll;
    LeafStarts(text);
    ReadPlain(s, text);
    assert "" + text == text;
  }

  /** A prefix and a brace. */
  lemma OpenList(s: Scan, prefix: string, rest: string)
    requires IsPath(prefix) && s.current == ""
    ensures ReadAll(s, prefix + ("{" + rest)) == ReadAll(Scan(s.fronts + [Front(s) + prefix], "", s.paths), rest)
  {
    PathPlain(prefix);
    ReadPlain(s, prefix);
    ReadConcat(s, prefix, "{" + rest);
    var named := s.(current := prefix);
    assert "" + prefix == prefix;
    ReadConcat(named, "{", rest);
    ReadOne(named, '{');
    hide ReadAll;
    hide IsPath;
  }

  lemma RenderedList(prefix: string, trees: seq<Tree>)
    ensures Rendered(List(prefix, trees)) == prefix + ("{" + (RenderedAll(trees) + "}"))
  {
  }

  /** Reading a tree's text adds its paths, and reading a list's text adds those of its trees. */
  lemma {:induction false} ReadTree(s: Scan, t: Tree)
    requires WellFormed(t) && s.current == ""
    ensures Emit(ReadAll(s, Rendered(t))) == s.(paths := s.paths + Imports(Front(s), t))
    decreases t
  {
    match t
    case Path(text) =>
      ReadLeaf(s, text);
    case List(prefix, trees) =>
      var inner := RenderedAll(trees);
      var inside := Scan(s.fronts + [Front(s) + prefix], "", s.paths);
      ReadTrees(inside, trees);
      assert Front(inside) == Front(s) + prefix;
      hide RenderedAll;
      hide ReadAll;
      hide ImportsAll;
      RenderedList(prefix, trees);
      OpenList(s, prefix, inner + "}");
      ReadConcat(inside, inner, "}");
      CloseList(s, inside, ReadAll(inside, inner), ImportsAll(Front(s) + prefix, trees));
      hide Emit;
  }

  lemma CloseList(s: Scan, inside: Scan, read: Scan, paths: set<string>)
    requires s.current == "" && |inside.fronts| == |s.fronts| + 1 && inside.fronts[..|s.fronts|] == s.fronts
    requires inside.paths == s.paths && Emit(read) == inside.(paths := inside.paths + paths)
    ensures Emit(ReadAll(read, "}")) == s.(paths := s.paths + paths)
  {
    ReadOne(read, '}');
  }

  lemma {:induction false} ReadTrees(s: Scan, trees: seq<Tree>)
    requires (forall i :: 0 <= i < |trees| ==> WellFormed(trees[i])) && s.current == ""
    ensures Emit(ReadAll(s, RenderedAll(trees))) == s.(paths := s.paths + ImportsAll(Front(s), trees))
    decreases trees
  {
    hide WellFormed;
    if trees == [] {
      assert s.paths + {} == s.paths;
    } else if |trees| == 1 {
      ReadTree(s, trees[0]);
      assert ImportsAll(Front(s), trees[1..]) == {};
    } else {
      var first, rest := Rendered(trees[0]), RenderedAll(trees[1..]);
      ReadTree(s, trees[0]);
      var next := s.(paths := s.paths + Imports(Front(s), trees[0]));
      ReadTrees(next, trees[1..]);
      ReadConcat(s, first, ", " + rest);
      BetweenTrees(ReadAll(s, first), rest);
      assert Front(next) == Front(s);
      hide ReadAll;
      hide Imports;
      hide Rendered;
    }
  }

  lemma BetweenTrees(s: Scan, rest: string)
    ensures ReadAll(s, ", " + rest) == ReadAll(Emit(s), rest)
  {
    assert ", " + rest == "," + (" " + rest);
    ReadConcat(s, ",", " " + rest);
    ReadOne(s, ',');
    ReadConcat(Emit(s), " ", rest);
    ReadOne(Emit(s), ' ');
    assert Read(Emit(s), ' ') == Emit(s);
  }

  /** The text of a well-formed tree is read as that tree's paths. */
  lemma TextImportsTree(t: Tree)
    requires WellFormed(t)
    ensures ImportsOf(Rendered(t)) == Imports("", t)
  {
    ReadTree(Scan([], "", {}), t);
    assert {} + Imports("", t) == Imports("", t);
  }
}
