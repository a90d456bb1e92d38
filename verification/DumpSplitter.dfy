/** Splitting a database dump into parts that load in order: referenced tables first, about one megabyte a part. */
module DumpSplitter {
  import opened Graphs

  const PART_LIMIT := 1_000_000

  datatype Table = Table(name: string)

  type Statement = string

  function Elements(s: seq<Table>): set<Table> {
    set t | t in s
  }

  ghost predicate Distinct(s: seq<Table>) {
    forall i, j :: 0 <= i < j < |s| ==> s[i] != s[j]
  }

  // ---- Table order --------------------------------------------------------------------------

  /** A table stands behind every table it references, except for those that reference it back, directly or not. */
  ghost predicate ParentsFirst(deps: Graph<Table>, order: seq<Table>) {
    forall i, d :: 0 <= i < |order| && d in Succs(deps, order[i]) ==> d in order[..i] || Reaches(deps, d, order[i])
  }

  /** What a listed table references is listed too, or is still being visited. */
  ghost predicate Covered(deps: Graph<Table>, order: seq<Table>, stack: seq<Table>) {
    forall t, d :: t in order && d in Succs(deps, t) ==> d in order || d in stack
  }

  ghost predicate Ordered(deps: Graph<Table>, order: seq<Table>, stack: seq<Table>) {
    Distinct(order) && ParentsFirst(deps, order) && Covered(deps, order, stack)
  }

  /** Everything on the stack leads to n. */
  ghost predicate LeadsTo(deps: Graph<Table>, stack: seq<Table>, n: Table) {
    forall s :: s in stack ==> Reaches(deps, s, n)
  }

  ghost predicate FoundFrom(deps: Graph<Table>, from: set<Table>, t: Table) {
    exists n :: n in from && Reaches(deps, n, t)
  }

  lemma PushLeads(deps: Graph<Table>, stack: seq<Table>, n: Table, d: Table)
    requires LeadsTo(deps, stack, n) && d in Succs(deps, n)
    ensures LeadsTo(deps, stack + [n], d)
  {
    ReachesEdge(deps, n, d);
    forall s | s in stack
      ensures Reaches(deps, s, d)
    {
      ReachesTransitive(deps, s, n, d);
    }
  }

  lemma ReferenceIsFound(deps: Graph<Table>, n: Table, d: Table, t: Table)
    requires d in Succs(deps, n) && Reaches(deps, d, t)
    ensures Reaches(deps, n, t)
  {
    ReachesEdge(deps, n, d);
    ReachesTransitive(deps, n, d, t);
  }

  /** Listing n once all it references is listed or leads back to it. */
  lemma ListKeepsOrdered(deps: Graph<Table>, order: seq<Table>, stack: seq<Table>, n: Table)
    requires Ordered(deps, order, stack + [n]) && n !in order && LeadsTo(deps, stack, n)
    requires forall d :: d in Succs(deps, n) ==> d in order || d in stack + [n]
    ensures Ordered(deps, order + [n], stack)
  {
    ReachesSelf(deps, n);
    var order' := order + [n];
    forall i, d | 0 <= i < |order'| && d in Succs(deps, order'[i])
      ensures d in order'[..i] || Reaches(deps, d, order'[i])
    {
      if i < |order| {
        assert order'[..i] == order[..i];
      } else {
        assert order'[..i] == order;
      }
    }
  }

  /** Every table there is. */
  ghost function Universe(deps: Graph<Table>, names: seq<Table>): set<Table> {
    deps.Keys + Elements(names) + set n, d | n in deps && d in deps[n] :: d
  }

  lemma UniverseIsClosed(deps: Graph<Table>, names: seq<Table>)
    ensures Closed(deps, Universe(deps, names)) && Elements(names) <= Universe(deps, names)
  {
  }

  /** With nothing left to visit, all that the listed tables reference is listed. */
  lemma AllListed(deps: Graph<Table>, order: seq<Table>, names: seq<Table>)
    requires Covered(deps, order, []) && forall k :: 0 <= k < |names| ==> names[k] in order
    ensures forall t :: FoundFrom(deps, Elements(names), t) ==> t in order
  {
    hide Reaches;
    forall t | FoundFrom(deps, Elements(names), t)
      ensures t in order
    {
      var n :| n in Elements(names) && Reaches(deps, n, t);
      assert Closed(deps, Elements(order));
      ClosedTraps(deps, Elements(order), n, t);
    }
  }

  class Splitter {
    const deps: Graph<Table>
    var order: seq<Table>
    var seen: set<Table>

    constructor (deps: Graph<Table>)
      ensures this.deps == deps && order == [] && seen == {}
    {
      this.deps, order, seen := deps, [], {};
    }

    /** `universe` is only there to show that the recursion ends: no table is on the stack twice. */
    method Visit(n: Table, stack: seq<Table>, ghost universe: set<Table>)
      requires Closed(deps, universe) && n in universe && Elements(stack) <= universe
      requires seen == Elements(order) && Ordered(deps, order, stack) && LeadsTo(deps, stack, n)
      modifies this
      ensures seen == Elements(order) && Ordered(deps, order, stack)
      ensures old(order) <= order && (n in order || n in stack)
      ensures forall t :: t in order && t !in old(order) ==> t !in stack && Reaches(deps, n, t)
      decreases universe - Elements(stack)
    {
      hide Reaches;
      if n in seen {
        return;
      }
      if n in stack {
        return;
      }
      var todo := Succs(deps, n);
      assert Elements(stack + [n]) == Elements(stack) + {n};
      while todo != {}
        invariant todo <= Succs(deps, n)
        invariant seen == Elements(order) && Ordered(deps, order, stack + [n])
        invariant old(order) <= order && n !in order
        invariant forall t :: t in order && t !in old(order) ==> t !in stack && Reaches(deps, n, t)
        invariant forall d :: d in Succs(deps, n) - todo ==> d in order || d in stack + [n]
        decreases todo
      {
        var d :| d in todo;
        todo := todo - {d};
        ghost var before := order;
        PushLeads(deps, stack, n, d);
        Visit(d, stack + [n], universe);
        forall t | t in order && t !in before
          ensures t !in stack && t != n && Reaches(deps, n, t)
        {
          assert t !in stack + [n];
          ReferenceIsFound(deps, n, d, t);
        }
      }
      ListKeepsOrdered(deps, order, stack, n);
      ReachesSelf(deps, n);
      seen := seen + {n};
      order := order + [n];
    }

    /** The tables and everything they reference, each once. */
    method OrderTables(names: seq<Table>)
      requires order == [] && seen == {}
      modifies this
      ensures Distinct(order) && ParentsFirst(deps, order)
      ensures forall t :: t in order <==> FoundFrom(deps, Elements(names), t)
    {
      hide Reaches;
      ghost var universe := Universe(deps, names);
      UniverseIsClosed(deps, names);
      for i := 0 to |names|
        invariant seen == Elements(order) && Ordered(deps, order, [])
        invariant forall k :: 0 <= k < i ==> names[k] in order
        invariant forall t :: t in order ==> FoundFrom(deps, Elements(names), t)
      {
        ghost var before := order;
        assert names[i] in Elements(names);
        Visit(names[i], [], universe);
        forall t | t in order && t !in before
          ensures FoundFrom(deps, Elements(names), t)
        {
          assert names[i] in Elements(names) && Reaches(deps, names[i], t);
        }
      }
      AllListed(deps, order, names);
    }
  }

  // ---- Parts --------------------------------------------------------------------------------

  function Size(statements: seq<Statement>): nat {
    if statements == [] then 0 else Size(statements[..|statements| - 1]) + |statements[|statements| - 1]|
  }

  function Concat<T>(parts: seq<seq<T>>): seq<T> {
    if parts == [] then [] else Concat(parts[..|parts| - 1]) + parts[|parts| - 1]
  }

  /** A part that was closed because of its size: it passed the limit only with its last statement. */
  ghost predicate Full(part: seq<Statement>) {
    part != [] && Size(part) > 1_000_000 >= Size(part[..|part| - 1])
  }

  function StatementsOf(data: map<Table, seq<Statement>>, t: Table): seq<Statement> {
    if t in data then data[t] else []
  }

  /** All rows in table order. */
  function AllStatements(data: map<Table, seq<Statement>>, tables: seq<Table>): seq<Statement> {
    if tables == [] then []
    else AllStatements(data, tables[..|tables| - 1]) + StatementsOf(data, tables[|tables| - 1])
  }

  /** What is left over once every part that passes the limit has been closed. */
  function Remainder(statements: seq<Statement>): seq<Statement> {
    if statements == [] then []
    else
      var open := Remainder(statements[..|statements| - 1]) + [statements[|statements| - 1]];
      if Size(open) > PART_LIMIT then [] else open
  }

  /** The parts closed because of their size. */
  function FullParts(statements: seq<Statement>): seq<seq<Statement>> {
    if statements == [] then []
    else
      var n := |statements| - 1;
      var open := Remainder(statements[..n]) + [statements[n]];
      FullParts(statements[..n]) + (if Size(open) > PART_LIMIT then [open] else [])
  }

  lemma OneMoreStatement(statements: seq<Statement>, s: Statement)
    ensures var open := Remainder(statements) + [s];
      && Remainder(statements + [s]) == (if Size(open) > PART_LIMIT then [] else open)
      && FullParts(statements + [s]) == FullParts(statements) + (if Size(open) > PART_LIMIT then [open] else [])
  {
    hide Size;
    assert (statements + [s])[..|statements|] == statements;
  }

  /** Full parts, a chunk that is still open, and together what was written so far. */
  ghost predicate Splits(parts: seq<seq<Statement>>, chunk: seq<Statement>, written: seq<Statement>) {
    && parts == FullParts(written) && chunk == Remainder(written)
    && Concat(parts) + chunk == written
    && Size(chunk) <= PART_LIMIT
    && forall i :: 0 <= i < |parts| ==> Full(parts[i])
  }

  lemma AddStatement(parts: seq<seq<Statement>>, chunk: seq<Statement>, written: seq<Statement>, s: Statement)
    requires Splits(parts, chunk, written)
    ensures Size(chunk + [s]) == Size(chunk) + |s|
    ensures if Size(chunk + [s]) > PART_LIMIT then Splits(parts + [chunk + [s]], [], written + [s])
            else Splits(parts, chunk + [s], written + [s])
  {
    var longer := chunk + [s];
    OneMoreStatement(written, s);
    SizeSnoc(chunk, s);
    ConcatSnoc(parts, longer);
    hide Remainder;
    hide FullParts;
    hide Size;
    hide Concat;
    assert Concat(parts) + longer == written + [s];
    assert longer[..|chunk|] == chunk;
    assert Size(longer) > PART_LIMIT ==> Full(longer);
    assert Concat(parts) + longer + [] == Concat(parts) + longer;
  }

  lemma SizeSnoc(chunk: seq<Statement>, s: Statement)
    ensures Size(chunk + [s]) == Size(chunk) + |s| && Size([]) == 0
  {
    assert (chunk + [s])[..|chunk|] == chunk;
  }

  /** The size is the length of the text. */
  lemma {:induction false} SizeIsLength(statements: seq<Statement>)
    ensures Size(statements) == |Concat(statements)|
  {
    if statements != [] {
      SizeIsLength(statements[..|statements| - 1]);
    }
  }

  lemma ConcatSnoc(parts: seq<seq<Statement>>, part: seq<Statement>)
    ensures Concat(parts + [part]) == Concat(parts) + part
  {
    assert (parts + [part])[..|parts|] == parts;
  }

  lemma NextTable(data: map<Table, seq<Statement>>, tables: seq<Table>, k: nat)
    requires k < |tables|
    ensures AllStatements(data, tables[..k + 1]) == AllStatements(data, tables[..k]) + StatementsOf(data, tables[k])
  {
    assert tables[..k + 1][..k] == tables[..k];
  }

  /** Where each table's rows stand in the output: in table order, one after the other, with nothing between them. */
  ghost predicate Placed(data: map<Table, seq<Statement>>, tables: seq<Table>, offsets: seq<nat>, written: seq<Statement>) {
    && |offsets| == |tables| + 1 && offsets[0] == 0 && offsets[|tables|] == |written|
    && forall i :: 0 <= i < |tables| ==>
         if tables[i] in data
         then offsets[i] + |data[tables[i]]| == offsets[i + 1] <= |written|
              && written[offsets[i]..offsets[i + 1]] == data[tables[i]]
         else offsets[i + 1] == offsets[i] <= |written|
  }

  lemma PlacedSnoc(data: map<Table, seq<Statement>>, tables: seq<Table>, offsets: seq<nat>, written: seq<Statement>, t: Table)
    requires Placed(data, tables, offsets, written)
    ensures var more := if t in data then data[t] else [];
      Placed(data, tables + [t], offsets + [|written| + |more|], written + more)
  {
    var more := if t in data then data[t] else [];
    var longer, tables', offsets' := written + more, tables + [t], offsets + [|written| + |more|];
    forall i | 0 <= i < |tables'|
      ensures if tables'[i] in data
              then offsets'[i] + |data[tables'[i]]| == offsets'[i + 1] <= |longer|
                   && longer[offsets'[i]..offsets'[i + 1]] == data[tables'[i]]
              else offsets'[i + 1] == offsets'[i] <= |longer|
    {
      if i < |tables| {
        assert tables'[i] == tables[i] && offsets'[i] == offsets[i] && offsets'[i + 1] == offsets[i + 1];
        if tables[i] in data {
          assert longer[offsets[i]..offsets[i + 1]] == written[offsets[i]..offsets[i + 1]];
        }
      } else {
        assert longer[|written|..] == more;
      }
    }
  }

  lemma {:induction false} AllPlaced(data: map<Table, seq<Statement>>, tables: seq<Table>) returns (offsets: seq<nat>)
    ensures Placed(data, tables, offsets, AllStatements(data, tables))
  {
    offsets := [0];
    if tables != [] {
      var n := |tables| - 1;
      var init := AllPlaced(data, tables[..n]);
      PlacedSnoc(data, tables[..n], init, AllStatements(data, tables[..n]), tables[n]);
      assert tables == tables[..n] + [tables[n]];
      offsets := init + [|AllStatements(data, tables)|];
    }
  }

  /** How many statements the tables have together. */
  function RowCount(data: map<Table, seq<Statement>>, tables: seq<Table>): nat {
    if tables == [] then 0
    else
      var last := tables[|tables| - 1];
      RowCount(data, tables[..|tables| - 1]) + if last in data then |data[last]| else 0
  }

  lemma {:induction false} PlacedCount(data: map<Table, seq<Statement>>, tables: seq<Table>)
    ensures |AllStatements(data, tables)| == RowCount(data, tables)
  {
    if tables != [] {
      PlacedCount(data, tables[..|tables| - 1]);
    }
  }

  lemma {:induction false} CountWithout(data: map<Table, seq<Statement>>, tables: seq<Table>, i: nat)
    requires i < |tables|
    ensures RowCount(data, tables) ==
            RowCount(data, tables[..i] + tables[i + 1..]) + if tables[i] in data then |data[tables[i]]| else 0
  {
    var n := |tables| - 1;
    if i < n {
      CountWithout(data, tables[..n], i);
      assert tables[..n][..i] == tables[..i] && tables[..n][i + 1..] == tables[i + 1..n];
      var rest := tables[..i] + tables[i + 1..];
      assert rest[..|rest| - 1] == tables[..i] + tables[i + 1..n];
    } else {
      assert tables[..i] + tables[i + 1..] == tables[..n];
    }
  }

  function Without(tables: seq<Table>, i: nat): seq<Table>
    requires i < |tables|
  {
    tables[..i] + tables[i + 1..]
  }

  lemma WithoutOne(tables: seq<Table>, i: nat)
    requires i < |tables| && Distinct(tables)
    ensures Distinct(Without(tables, i)) && forall t :: t in Without(tables, i) <==> t in tables && t != tables[i]
  {
    var rest := Without(tables, i);
    forall j | 0 <= j < |rest|
      ensures rest[j] == tables[if j < i then j else j + 1]
    {
    }
    forall t
      ensures t in rest <==> t in tables && t != tables[i]
    {
      if j :| 0 <= j < |tables| && tables[j] == t && t != tables[i] {
        assert rest[if j < i then j else j - 1] == t;
      }
    }
  }

  lemma LastCounted(data: map<Table, seq<Statement>>, init: seq<Table>, last: Table)
    ensures RowCount(data, init + [last]) == RowCount(data, init) + if last in data then |data[last]| else 0
  {
    assert (init + [last])[..|init|] == init;
  }

  lemma {:induction false} NothingToCount(data: map<Table, seq<Statement>>, tables: seq<Table>)
    requires forall t :: t in tables ==> t !in data
    ensures RowCount(data, tables) == 0
  {
    if tables != [] {
      var n := |tables| - 1;
      NothingToCount(data, tables[..n]);
      assert tables[n] in tables;
    }
  }

  lemma DistinctFront(init: seq<Table>, last: Table)
    requires Distinct(init + [last])
    ensures Distinct(init) && last !in init
  {
    var all := init + [last];
    assert all[|init|] == last && forall i :: 0 <= i < |init| ==> all[i] == init[i];
  }

  /** However the tables are ordered, each row is counted once. */
  lemma {:induction false} SameCount(data: map<Table, seq<Statement>>, keys: seq<Table>, tables: seq<Table>)
    requires Distinct(keys) && Distinct(tables)
    requires forall t :: t in data ==> (t in keys <==> t in tables)
    ensures RowCount(data, keys) == RowCount(data, tables)
    decreases |keys|
  {
    hide RowCount;
    hide Distinct;
    if keys == [] {
      NothingToCount(data, keys);
      NothingToCount(data, tables);
    } else {
      var init, last := keys[..|keys| - 1], keys[|keys| - 1];
      assert keys == init + [last];
      DistinctFront(init, last);
      LastCounted(data, init, last);
      if last in data {
        var i :| 0 <= i < |tables| && tables[i] == last;
        CountWithout(data, tables, i);
        WithoutOne(tables, i);
        SameCount(data, init, Without(tables, i));
      } else {
        SameCount(data, init, tables);
      }
    }
  }

  /** The data files, how many of them are full, and the number the script reports: one more than the full ones. */
  method SplitData(data: map<Table, seq<Statement>>, tables: seq<Table>)
    returns (parts: seq<seq<Statement>>, full: nat, reported: nat)
    ensures Concat(parts) == AllStatements(data, tables)
    ensures exists offsets :: Placed(data, tables, offsets, Concat(parts))
    ensures full <= |parts| <= full + 1
    ensures forall i :: 0 <= i < full ==> Full(parts[i])
    ensures full < |parts| ==> parts[full] != [] && Size(parts[full]) <= 1_000_000
    ensures var all := AllStatements(data, tables);
      && parts == FullParts(all) + (if Remainder(all) != [] then [Remainder(all)] else [])
      && reported == |FullParts(all)| + 1
    ensures reported == |parts| <==> Remainder(AllStatements(data, tables)) != []
  {
    parts := [];
    ghost var offsets := AllPlaced(data, tables);
    var chunk: seq<Statement>, size, idx := [], 0, 1;
    NothingWritten(data, tables);
    hide Splits;
    hide Size;
    hide AllStatements;
    hide Placed;
    hide Concat;
    hide Remainder;
    hide FullParts;
    for k := 0 to |tables|
      invariant Splits(parts, chunk, AllStatements(data, tables[..k]))
      invariant size == Size(chunk) && idx == |parts| + 1
    {
      var statements := StatementsOf(data, tables[k]);
      ghost var written := AllStatements(data, tables[..k]);
      NextTable(data, tables, k);
      assert written + statements[..0] == written;
      for j := 0 to |statements|
        invariant Splits(parts, chunk, written + statements[..j])
        invariant size == Size(chunk) && idx == |parts| + 1
      {
        AddStatement(parts, chunk, written + statements[..j], statements[j]);
        assert written + statements[..j + 1] == written + statements[..j] + [statements[j]];
        chunk, size := chunk + [statements[j]], size + |statements[j]|;
        if size > PART_LIMIT {
          parts, idx := parts + [chunk], idx + 1;
          chunk, size := [], 0;
        }
      }
      assert statements[..|statements|] == statements;
    }
    assert tables[..|tables|] == tables;
    full, reported := |parts|, idx;
    LastPart(parts, chunk, AllStatements(data, tables));
    if chunk != [] {
      parts := parts + [chunk];
    }
  }

  lemma NothingWritten(data: map<Table, seq<Statement>>, tables: seq<Table>)
    ensures Splits([], [], AllStatements(data, tables[..0])) && Size([]) == 0
  {
  }

  /** What is left over becomes the last part. */
  lemma LastPart(parts: seq<seq<Statement>>, chunk: seq<Statement>, written: seq<Statement>)
    requires Splits(parts, chunk, written)
    ensures Concat(if chunk != [] then parts + [chunk] else parts) == written
    ensures parts == FullParts(written) && chunk == Remainder(written)
    ensures Size(chunk) <= PART_LIMIT && forall i :: 0 <= i < |parts| ==> Full(parts[i])
  {
    assert (parts + [chunk])[..|parts|] == parts;
    assert Concat(parts) + [] == Concat(parts);
  }

  /** Without data one part is reported where none is written, and with one large row two where there is one. */
  lemma ReportIsOneTooMany(row: Statement)
    requires |row| > PART_LIMIT
    ensures FullParts([]) == [] && Remainder([]) == []
    ensures FullParts([row]) == [[row]] && Remainder([row]) == []
  {
    OneMoreStatement([], row);
    assert [] + [row] == [row] && [row][..0] == [];
    assert Size([row]) == Size([]) + |row|;
  }

  // ---- File names ---------------------------------------------------------------------------

  function Digit(n: nat): char
    requires n < 10
  {
    "0123456789"[n]
  }

  /** Decimal digits, at least two. */
  function Padded(n: nat): (d: string)
    ensures |d| >= 2
  {
    if n < 100 then [Digit(n / 10), Digit(n % 10)] else Padded(n / 10) + [Digit(n % 10)]
  }

  function PartName(index: nat): string {
    "part" + Padded(index) + "_data.sql"
  }

  /** The order of file names. */
  predicate Less(s: string, t: string) {
    t != "" && (s == "" || s[0] < t[0] || (s[0] == t[0] && Less(s[1..], t[1..])))
  }

  lemma {:induction false} LessBehind(common: string, s: string, t: string)
    ensures Less(common + s, common + t) <==> Less(s, t)
  {
    if common == "" {
      assert common + s == s && common + t == t;
    } else {
      LessBehind(common[1..], s, t);
      assert (common + s)[1..] == common[1..] + s && (common + t)[1..] == common[1..] + t;
    }
  }

  lemma TwoDigits(i: nat, j: nat)
    requires i < j < 100
    ensures Less(PartName(i), PartName(j))
  {
    var s, t := Padded(i) + "_data.sql", Padded(j) + "_data.sql";
    assert PartName(i) == "part" + s && PartName(j) == "part" + t;
    LessBehind("part", s, t);
    assert i / 10 < j / 10 || (i / 10 == j / 10 && i % 10 < j % 10);
    assert s[1..][0] == Digit(i % 10) && t[1..][0] == Digit(j % 10);
  }

  /** Files sorted by name are in the order of their parts exactly as long as there are fewer than a hundred. */
  lemma NamesInOrderIff(n: nat)
    ensures (forall i, j :: 0 < i < j <= n ==> Less(PartName(i), PartName(j))) <==> n < 100
  {
    if n < 100 {
      forall i, j | 0 < i < j <= n
        ensures Less(PartName(i), PartName(j))
      {
        TwoDigits(i, j);
      }
    } else {
      var s, t := Padded(99) + "_data.sql", Padded(100) + "_data.sql";
      assert Padded(100)[0] == Padded(10)[0] == '1' && Padded(99)[0] == '9';
      assert PartName(99) == "part" + s && PartName(100) == "part" + t;
      LessBehind("part", s, t);
      assert s[0] == '9' && t[0] == '1';
      assert !Less(PartName(99), PartName(100));
    }
  }

  /** Digits, the first of which is no zero from ten on. */
  lemma {:induction false} PaddedDigits(n: nat)
    ensures forall i :: 0 <= i < |Padded(n)| ==> '0' <= Padded(n)[i] <= '9'
    ensures n >= 10 ==> Padded(n)[0] != '0'
  {
    if n >= 100 {
      PaddedDigits(n / 10);
    }
  }

  lemma FirstDiffers(s: string, t: string)
    requires s != "" && t != "" && s[0] < t[0]
    ensures Less(s, t)
  {
  }

  lemma SecondDiffers(s: string, t: string)
    requires |s| > 1 && |t| > 1 && s[0] == t[0] && s[1] < t[1]
    ensures Less(s, t)
  {
    FirstDiffers(s[1..], t[1..]);
  }

  lemma BehindZero(i: nat, ending: string)
    requires i > 0
    ensures var s := Padded(i) + ending; |s| > 1 && (s[0] > '0' || (s[0] == '0' && s[1] > '0')) && s[0] < 'Z'
  {
    PaddedDigits(i);
  }

  /** However many parts there are, their files come after that of the tables and before that of the rest. */
  lemma DataBetweenTablesAndTail(i: nat)
    requires i > 0
    ensures Less("part" + "00_tables.sql", PartName(i)) && Less(PartName(i), "part" + "ZZ_tail.sql")
  {
    var tables, tail, s := "00_tables.sql", "ZZ_tail.sql", Padded(i) + "_data.sql";
    BehindZero(i, "_data.sql");
    assert PartName(i) == "part" + s;
    hide Less;
    hide Padded;
    LessBehind("part", tables, s);
    LessBehind("part", s, tail);
    if s[0] > '0' {
      FirstDiffers(tables, s);
    } else {
      SecondDiffers(tables, s);
    }
    FirstDiffers(s, tail);
  }

  /** Tables with rows that the schema does not list go last. */
  method WithUnlisted(order: seq<Table>, keys: seq<Table>) returns (tables: seq<Table>)
    requires Distinct(order) && Distinct(keys)
    ensures order <= tables && Distinct(tables)
    ensures forall t :: t in tables <==> t in order || t in keys
  {
    tables := order;
    for i := 0 to |keys|
      invariant order <= tables && Distinct(tables)
      invariant forall t :: t in tables <==> t in order || t in keys[..i]
    {
      assert keys[..i + 1] == keys[..i] + [keys[i]];
      if keys[i] !in order {
        assert keys[i] !in keys[..i];
        tables := tables + [keys[i]];
      }
    }
    assert keys[..|keys|] == keys;
  }

  /** The whole script: `keys` are the tables with rows, in the order their first row was read. */
  method SplitExport(names: seq<Table>, deps: Graph<Table>, data: map<Table, seq<Statement>>, keys: seq<Table>)
    returns (tables: seq<Table>, parts: seq<seq<Statement>>, full: nat, ghost offsets: seq<nat>)
    requires Distinct(keys) && Elements(keys) == data.Keys
    ensures Distinct(tables) && data.Keys <= Elements(tables)
    ensures forall t, d :: t in names && d in Succs(deps, t) && !Reaches(deps, d, t) ==>
      exists i, j :: 0 <= i < j < |tables| && tables[i] == d && tables[j] == t
    ensures Placed(data, tables, offsets, Concat(parts)) && |Concat(parts)| == RowCount(data, keys)
    ensures full <= |parts| <= full + 1 && forall i :: 0 <= i < full ==> Full(parts[i])
  {
    hide Reaches;
    var splitter := new Splitter(deps);
    splitter.OrderTables(names);
    var order := splitter.order;
    tables := WithUnlisted(order, keys);
    forall t, d | t in names && d in Succs(deps, t) && !Reaches(deps, d, t)
      ensures exists i, j :: 0 <= i < j < |tables| && tables[i] == d && tables[j] == t
    {
      ReachesSelf(deps, t);
      assert FoundFrom(deps, Elements(names), t);
      var j :| 0 <= j < |order| && order[j] == t;
      assert d in order[..j];
      var i :| 0 <= i < j && order[..j][i] == d;
      assert tables[i] == d && tables[j] == t;
    }
    assert Elements(keys) <= Elements(tables);
    var reported;
    parts, full, reported := SplitData(data, tables);
    offsets := AllPlaced(data, tables);
    PlacedCount(data, tables);
    SameCount(data, keys, tables);
  }
}
