/** Skipping a leading WITH list so that a query is named after its outer statement. */
module SqlWith {
  import opened Text
  import opened Wrappers

  // ---- What the scanners leave of the text --------------------------------------------------

  function DropSpace(s: string): (r: string)
    ensures |r| <= |s| && IsTail(r, s)
    ensures r != "" ==> !IsAsciiSpace(r[0])
  {
    if s != "" && IsAsciiSpace(s[0]) then DropSpace(s[1..]) else s
  }

  function DropIdent(s: string): (r: string)
    ensures |r| <= |s| && IsTail(r, s)
  {
    if s != "" && IsWord(s[0]) then DropIdent(s[1..]) else s
  }

  predicate StartsWith(s: string, c: char) {
    s != "" && s[0] == c
  }

  /** What follows the parenthesis that brings the depth back to zero. */
  function DropToDepthZero(s: string, depth: nat): (r: Option<string>)
    ensures r.Some? ==> |r.value| < |s| && IsTail(r.value, s)
  {
    if s == "" then None
    else if s[0] == '(' then DropToDepthZero(s[1..], depth + 1)
    else if s[0] == ')' then
      if depth <= 1 then Some(s[1..]) else DropToDepthZero(s[1..], depth - 1)
    else DropToDepthZero(s[1..], depth)
  }

  function DropParens(s: string): (r: Option<string>)
    ensures r.Some? ==> |r.value| < |s| && IsTail(r.value, s)
  {
    if StartsWith(s, '(') then DropToDepthZero(s, 0) else None
  }

  /** The column list of a table expression, if there is one. */
  function DropColumns(s: string): (r: Option<string>)
    ensures r.Some? ==> |r.value| <= |s| && IsTail(r.value, s)
  {
    hide IsTail;
    if !StartsWith(s, '(') then TailOfSelf(s); Some(s)
    else match DropParens(s)
      case None => None
      case Some(t) => TailOfTail(DropSpace(t), t, s); Some(DropSpace(t))
  }

  lemma TailOfSelf(s: string)
    ensures IsTail(s, s)
  {
  }

  /** A keyword and the space behind it. */
  function DropAs(s: string): (r: Option<string>)
    ensures r.Some? ==> |r.value| <= |s| && IsTail(r.value, s)
  {
    if HasPrefix(s, "as") then TailOfTail(DropSpace(s[2..]), s[2..], s); Some(DropSpace(s[2..])) else None
  }

  /** The name of a table expression with the space around it. */
  function DropName(s: string): (r: Option<string>)
    ensures r.Some? ==> |r.value| <= |s| && IsTail(r.value, s)
  {
    hide IsTail;
    var named := DropSpace(s);
    var afterName := DropIdent(named);
    if afterName == named then None
    else
      TailOfTail(afterName, named, s);
      TailOfTail(DropSpace(afterName), afterName, s);
      Some(DropSpace(afterName))
  }

  /** A parenthesised body and the space behind it. */
  function DropBody(s: string): (r: Option<string>)
    ensures r.Some? ==> |r.value| < |s| && IsTail(r.value, s)
  {
    hide IsTail;
    match DropParens(s)
    case None => None
    case Some(t) => TailOfTail(DropSpace(t), t, s); Some(DropSpace(t))
  }

  /** One `name [(columns)] as (body)` with the space around it. */
  function DropCte(s: string): (r: Option<string>)
    ensures r.Some? ==> |r.value| < |s| && IsTail(r.value, s)
  {
    hide IsTail;
    match DropName(s)
    case None => None
    case Some(a) =>
      match DropColumns(a)
      case None => None
      case Some(b) =>
        TailOfTail(b, a, s);
        match DropAs(b)
        case None => None
        case Some(c) =>
          TailOfTail(c, b, s);
          match DropBody(c)
          case None => None
          case Some(d) => TailOfTail(d, c, s); Some(d)
  }

  function DropCtes(s: string): (r: Option<string>)
    ensures r.Some? ==> |r.value| < |s| && IsTail(r.value, s)
    decreases |s|
  {
    match DropCte(s)
    case None => None
    case Some(t) =>
      if StartsWith(t, ',') then
        var r := DropCtes(t[1..]);
        (if r.Some? then TailOfTail(r.value, t[1..], t); TailOfTail(r.value, t, s); r else r)
      else Some(t)
  }

  function WithoutRecursive(s: string): string {
    if HasPrefix(s, "recursive ") then s[10..] else s
  }

  /** The outer statement of a query in lower case with collapsed space, or the query itself. */
  function OuterStatement(sql: string): string {
    if !HasPrefix(sql, "with ") then sql
    else match DropCtes(WithoutRecursive(sql[5..]))
      case None => sql
      case Some(t) => if Trim(t) == "" then sql else Trim(t)
  }

  /** On any text: the text itself, or a shorter tail of it without its outer space. */
  lemma OuterStatementIsTail(sql: string) returns (tail: string)
    ensures OuterStatement(sql) == sql
            || (IsTail(tail, sql) && |tail| < |sql| && OuterStatement(sql) == Trim(tail) != "")
  {
    hide IsTail;
    hide Trim;
    hide DropCtes;
    tail := sql;
    if HasPrefix(sql, "with ") {
      var list := WithoutRecursive(sql[5..]);
      ListIsTail(sql);
      if DropCtes(list).Some? {
        tail := DropCtes(list).value;
        TailOfTail(tail, list, sql);
      }
    }
  }

  lemma ListIsTail(sql: string)
    requires HasPrefix(sql, "with ")
    ensures IsTail(WithoutRecursive(sql[5..]), sql)
  {
  }

  // ---- The scanners as the source runs them -------------------------------------------------

  method SkipSqlWhitespace(sql: string, start: nat) returns (index: nat)
    requires start <= |sql|
    ensures start <= index <= |sql| && sql[index..] == DropSpace(sql[start..])
  {
    index := start;
    while index < |sql| && IsAsciiSpace(sql[index])
      invariant start <= index <= |sql|
      invariant DropSpace(sql[start..]) == DropSpace(sql[index..])
    {
      assert sql[index..][1..] == sql[index + 1..];
      index := index + 1;
    }
  }

  method SkipSqlIdent(sql: string, start: nat) returns (index: nat)
    requires start <= |sql|
    ensures start <= index <= |sql| && sql[index..] == DropIdent(sql[start..])
  {
    index := start;
    while index < |sql|
      invariant start <= index <= |sql|
      invariant DropIdent(sql[start..]) == DropIdent(sql[index..])
      decreases |sql| - index
    {
      if IsWord(sql[index]) {
        assert sql[index..][1..] == sql[index + 1..];
        index := index + 1;
        continue;
      }
      break;
    }
  }

  method SkipBalancedParens(sql: string, openAt: nat) returns (after: Option<nat>)
    requires openAt <= |sql|
    ensures match after
            case None => DropParens(sql[openAt..]) == None
            case Some(end) => openAt < end <= |sql| && DropParens(sql[openAt..]) == Some(sql[end..])
  {
    if openAt == |sql| || sql[openAt] != '(' {
      return None;
    }
    var depth: nat := 0;
    for index := openAt to |sql|
      invariant DropToDepthZero(sql[openAt..], 0) == DropToDepthZero(sql[index..], depth)
    {
      assert sql[index..][1..] == sql[index + 1..];
      if sql[index] == '(' {
        depth := depth + 1;
      } else if sql[index] == ')' {
        depth := if depth > 0 then depth - 1 else 0;
        if depth == 0 {
          return Some(index + 1);
        }
      }
    }
    after := None;
  }

  /** One pass of the loop over the list: the position behind one table expression. */
  method SkipCte(rest: string, start: nat) returns (end: Option<nat>)
    requires start <= |rest|
    ensures match end
            case None => DropCte(rest[start..]) == None
            case Some(i) => start < i <= |rest| && DropCte(rest[start..]) == Some(rest[i..])
  {
    hide IsTail;
    hide DropSpace;
    hide DropIdent;
    hide DropParens;
    var index := SkipSqlWhitespace(rest, start);
    var identStart := index;
    index := SkipSqlIdent(rest, index);
    if index == identStart {
      return None;
    }
    assert |rest[index..]| < |rest[identStart..]|;
    index := SkipSqlWhitespace(rest, index);
    if index < |rest| && rest[index] == '(' {
      var afterColumns := SkipBalancedParens(rest, index);
      if afterColumns.None? {
        return None;
      }
      index := SkipSqlWhitespace(rest, afterColumns.value);
    }
    if !HasPrefix(rest[index..], "as") {
      return None;
    }
    assert rest[index..][2..] == rest[index + 2..];
    index := SkipSqlWhitespace(rest, index + 2);
    var afterBody := SkipBalancedParens(rest, index);
    if afterBody.None? {
      return None;
    }
    index := SkipSqlWhitespace(rest, afterBody.value);
    end := Some(index);
  }

  /** The loop over the list. */
  method SkipCtes(rest: string) returns (end: Option<nat>)
    ensures match end
            case None => DropCtes(rest) == None
            case Some(i) => i <= |rest| && DropCtes(rest) == Some(rest[i..])
  {
    hide DropCte;
    hide IsTail;
    var index := 0;
    assert rest[0..] == rest;
    while true
      invariant index <= |rest|
      invariant DropCtes(rest) == DropCtes(rest[index..])
      decreases |rest| - index
    {
      end := SkipCte(rest, index);
      if end.None? {
        return;
      }
      index := end.value;
      if index < |rest| && rest[index] == ',' {
        AfterComma(rest, index);
        index := index + 1;
        continue;
      }
      return;
    }
  }

  lemma AfterComma(s: string, i: nat)
    requires i < |s|
    ensures s[i..][0] == s[i] && s[i..][1..] == s[i + 1..]
  {
  }

  method SqlAfterWithClause(normalized: string) returns (outer: string)
    ensures outer == OuterStatement(normalized)
  {
    hide DropCtes;
    if !HasPrefix(normalized, "with ") {
      return normalized;
    }
    var rest := WithoutRecursive(normalized[5..]);
    var end := SkipCtes(rest);
    if end.None? {
      return normalized;
    }
    var remainder := Trim(rest[end.value..]);
    outer := if remainder == "" then normalized else remainder;
  }

  // ---- Rendering a WITH list ----------------------------------------------------------------

  ghost predicate SpaceOnly(s: string) {
    forall i :: 0 <= i < |s| ==> IsAsciiSpace(s[i])
  }

  ghost predicate WordOnly(s: string) {
    forall i :: 0 <= i < |s| ==> IsWord(s[i])
  }

  /** Every closing parenthesis closes one, and `depth` more are open at the start than at the end. */
  predicate Closes(s: string, depth: nat) {
    if s == "" then depth == 0
    else if s[0] == '(' then Closes(s[1..], depth + 1)
    else if s[0] == ')' then depth > 0 && Closes(s[1..], depth - 1)
    else Closes(s[1..], depth)
  }

  predicate Balanced(s: string) {
    Closes(s, 0)
  }

  /** A table expression with the space between its tokens; `columns` without their parentheses. */
  datatype Cte = Cte(lead: string, name: string, gap: string, columns: Option<string>, columnGap: string,
                     asGap: string, body: string, trail: string)

  ghost predicate WellFormed(c: Cte) {
    && SpaceOnly(c.lead) && SpaceOnly(c.gap) && SpaceOnly(c.columnGap) && SpaceOnly(c.asGap) && SpaceOnly(c.trail)
    && c.name != "" && WordOnly(c.name) && Balanced(c.body)
    && (if c.columns.Some? then Balanced(c.columns.value) else c.gap != "")
  }

  function Columns(c: Cte): string {
    if c.columns.Some? then "(" + c.columns.value + ")" + c.columnGap else ""
  }

  function Render(c: Cte): string {
    c.lead + c.name + c.gap + Columns(c) + "as" + c.asGap + "(" + c.body + ")" + c.trail
  }

  function RenderList(ctes: seq<Cte>): string
    requires ctes != []
  {
    if |ctes| == 1 then Render(ctes[0]) else Render(ctes[0]) + "," + RenderList(ctes[1..])
  }

  lemma {:induction false} SpaceDropped(gap: string, s: string)
    requires SpaceOnly(gap)
    ensures DropSpace(gap + s) == DropSpace(s)
  {
    if gap == "" {
      assert gap + s == s;
    } else {
      SpaceDropped(gap[1..], s);
      TailOfConcat(gap, s);
    }
  }

  lemma {:induction false} IdentDropped(name: string, s: string)
    requires WordOnly(name) && (s == "" || !IsWord(s[0]))
    ensures DropIdent(name + s) == s
  {
    if name == "" {
      assert name + s == s;
    } else {
      IdentDropped(name[1..], s);
      TailOfConcat(name, s);
    }
  }

  lemma {:induction false} BodyDropped(body: string, depth: nat, s: string)
    requires Closes(body, depth)
    ensures DropToDepthZero(body + ")" + s, depth + 1) == Some(s)
  {
    var t := body + ")" + s;
    if body == "" {
      assert t[1..] == s;
    } else {
      assert t[1..] == body[1..] + ")" + s;
      if body[0] == '(' {
        BodyDropped(body[1..], depth + 1, s);
      } else if body[0] == ')' {
        BodyDropped(body[1..], depth - 1, s);
      } else {
        BodyDropped(body[1..], depth, s);
      }
    }
  }

  lemma ParensDropped(body: string, s: string)
    requires Balanced(body)
    ensures DropParens("(" + body + ")" + s) == Some(s)
  {
    var t := "(" + body + ")" + s;
    BodyDropped(body, 0, s);
    assert t[1..] == body + ")" + s;
  }

  lemma NameDropped(c: Cte, s: string)
    requires WellFormed(c) && s != "" && !IsAsciiSpace(s[0]) && (c.gap == "" ==> s[0] == '(')
    ensures DropName(c.lead + c.name + c.gap + s) == Some(s)
  {
    hide IsTail;
    var fromGap := c.gap + s;
    var fromName := c.name + fromGap;
    assert c.lead + c.name + c.gap + s == c.lead + fromName;
    SpaceDropped(c.lead, fromName);
    assert fromName[0] == c.name[0];
    IdentDropped(c.name, fromGap);
    SpaceDropped(c.gap, s);
  }

  lemma AsDropped(gap: string, s: string)
    requires SpaceOnly(gap) && s != "" && !IsAsciiSpace(s[0])
    ensures DropAs("as" + gap + s) == Some(s)
  {
    var t := "as" + gap + s;
    assert t[..2] == "as" && t[2..] == gap + s;
    SpaceDropped(gap, s);
  }

  lemma BodyAndTrailDropped(body: string, trail: string, s: string)
    requires Balanced(body) && SpaceOnly(trail)
    ensures DropBody("(" + body + ")" + trail + s) == Some(DropSpace(s))
  {
    assert "(" + body + ")" + trail + s == "(" + body + ")" + (trail + s);
    ParensDropped(body, trail + s);
    SpaceDropped(trail, s);
  }

  /** Skipping a rendered table expression leaves exactly what was written behind it. */
  lemma CteDropped(c: Cte, s: string)
    requires WellFormed(c)
    ensures DropCte(Render(c) + s) == Some(DropSpace(s))
  {
    hide IsTail;
    hide DropName;
    hide DropColumns;
    hide DropAs;
    hide DropBody;
    hide DropSpace;
    var fromBody := "(" + c.body + ")" + c.trail + s;
    var fromAs := "as" + c.asGap + fromBody;
    var fromColumns := Columns(c) + fromAs;
    RenderedFromColumns(c, s);
    ColumnsStart(c, fromAs);
    hide Render;
    hide Columns;
    NameDropped(c, fromColumns);
    ColumnsDropped(c, fromAs);
    BodyDroppedBehindAs(c, s);
  }

  lemma BodyDroppedBehindAs(c: Cte, s: string)
    requires WellFormed(c)
    ensures var fromBody := "(" + c.body + ")" + c.trail + s;
      DropAs("as" + c.asGap + fromBody) == Some(fromBody) && DropBody(fromBody) == Some(DropSpace(s))
  {
    hide DropAs;
    hide DropBody;
    hide DropSpace;
    AsDropped(c.asGap, "(" + c.body + ")" + c.trail + s);
    BodyAndTrailDropped(c.body, c.trail, s);
  }

  lemma RenderedFromColumns(c: Cte, s: string)
    ensures Render(c) + s == c.lead + c.name + c.gap + (Columns(c) + ("as" + c.asGap + ("(" + c.body + ")" + c.trail + s)))
  {
    hide Columns;
  }

  lemma ColumnsStart(c: Cte, fromAs: string)
    requires WellFormed(c) && fromAs != "" && fromAs[0] == 'a'
    ensures var t := Columns(c) + fromAs; t != "" && !IsAsciiSpace(t[0]) && (c.gap == "" ==> t[0] == '(')
  {
  }

  lemma ColumnsDropped(c: Cte, s: string)
    requires WellFormed(c) && s != "" && s[0] == 'a'
    ensures DropColumns(Columns(c) + s) == Some(s)
  {
    if c.columns.Some? {
      assert Columns(c) + s == "(" + c.columns.value + ")" + (c.columnGap + s);
      ParensDropped(c.columns.value, c.columnGap + s);
      SpaceDropped(c.columnGap, s);
    } else {
      assert Columns(c) + s == s;
    }
  }

  lemma {:induction false} CtesDropped(ctes: seq<Cte>, outer: string)
    requires ctes != [] && forall i :: 0 <= i < |ctes| ==> WellFormed(ctes[i])
    requires !StartsWith(DropSpace(outer), ',')
    ensures DropCtes(RenderList(ctes) + outer) == Some(DropSpace(outer))
    decreases |ctes|
  {
    hide DropCte;
    hide WellFormed;
    hide Render;
    hide IsTail;
    if |ctes| == 1 {
      CteDropped(ctes[0], outer);
    } else {
      CtesDropped(ctes[1..], outer);
      MoreCtes(ctes[0], RenderList(ctes[1..]) + outer);
      assert RenderList(ctes) + outer == Render(ctes[0]) + ("," + (RenderList(ctes[1..]) + outer));
    }
  }

  lemma MoreCtes(c: Cte, rest: string)
    requires WellFormed(c)
    ensures DropCtes(Render(c) + ("," + rest)) == DropCtes(rest)
  {
    hide DropCte;
    hide WellFormed;
    hide Render;
    hide IsTail;
    CteDropped(c, "," + rest);
    assert ("," + rest)[1..] == rest;
  }

  lemma {:induction false} TrimStartAfterSpace(s: string)
    ensures TrimStart(DropSpace(s)) == TrimStart(s)
  {
    hide IsTail;
    if s != "" && IsAsciiSpace(s[0]) {
      TrimStartAfterSpace(s[1..]);
    }
  }

  lemma TrimAfterSpace(s: string)
    ensures Trim(DropSpace(s)) == Trim(s)
  {
    TrimStartAfterSpace(s);
  }

  // ---- Which rendered lists are skipped -----------------------------------------------------

  function RenderWith(recursive: bool, ctes: seq<Cte>, outer: string): string
    requires ctes != []
  {
    "with " + ((if recursive then "recursive " else "") + (RenderList(ctes) + outer))
  }

  /** A first table expression whose name is taken for the keyword. */
  predicate ReadsAsKeyword(c: Cte) {
    c.lead == "" && c.name == "recursive" && StartsWith(c.gap, ' ')
  }

  /** A text that opens with a word opens with another word and a space only if the words are the same. */
  lemma PrefixWord(name: string, rest: string, word: string)
    requires WordOnly(name) && WordOnly(word) && rest != "" && !IsWord(rest[0])
    ensures HasPrefix(name + rest, word + " ") <==> name == word && rest[0] == ' '
  {
    var t, p := name + rest, word + " ";
    if HasPrefix(t, p) {
      assert forall i :: 0 <= i < |p| ==> t[i] == t[..|p|][i] == p[i];
      assert !IsWord(t[|name|]) && !IsWord(p[|word|]);
      assert |name| == |word|;
      assert name == t[..|p|][..|word|] == word;
    }
    if name == word && rest[0] == ' ' {
      assert t[..|p|] == name + [rest[0]];
    }
  }

  /** The text behind the name of a rendered table expression. */
  function AfterName(c: Cte, s: string): string {
    c.gap + (Columns(c) + ("as" + (c.asGap + ("(" + c.body + ")" + (c.trail + s)))))
  }

  lemma NameInFront(c: Cte, s: string)
    requires WellFormed(c)
    ensures Render(c) + s == c.lead + (c.name + AfterName(c, s))
    ensures AfterName(c, s) != "" && !IsWord(AfterName(c, s)[0])
    ensures AfterName(c, s)[0] == ' ' <==> StartsWith(c.gap, ' ')
  {
    RenderedByParts(c, s);
    hide Render;
    if c.gap == "" {
      assert AfterName(c, s)[0] == Columns(c)[0] == '(';
    } else {
      assert AfterName(c, s)[0] == c.gap[0];
    }
  }

  lemma RenderedByParts(c: Cte, s: string)
    ensures Render(c) + s == c.lead + (c.name + AfterName(c, s))
  {
    hide Columns;
  }

  lemma KeywordIffNamed(c: Cte, s: string)
    requires WellFormed(c)
    ensures HasPrefix(Render(c) + s, "recursive ") <==> ReadsAsKeyword(c)
  {
    hide AfterName;
    NameInFront(c, s);
    var t := Render(c) + s;
    if c.lead != "" {
      assert t[0] == c.lead[0];
      OtherFirst(t, "recursive ");
    } else {
      assert t == c.name + AfterName(c, s);
      PrefixWord(c.name, AfterName(c, s), "recursive");
      assert "recursive" + " " == "recursive ";
    }
  }

  lemma ListStartsWithFirst(ctes: seq<Cte>, outer: string) returns (s: string)
    requires ctes != []
    ensures RenderList(ctes) + outer == Render(ctes[0]) + s
    ensures s == outer || StartsWith(s, ',')
  {
    if |ctes| == 1 {
      s := outer;
    } else {
      s := "," + (RenderList(ctes[1..]) + outer);
      assert RenderList(ctes) + outer == Render(ctes[0]) + s;
    }
  }

  /** The outcome is a shorter tail of what stands behind the first name and columns, which starts with `as`. */
  lemma OutcomeWithin(q: string)
    ensures DropCtes(q).Some? ==>
      && DropName(q).Some? && DropColumns(DropName(q).value).Some?
      && var b := DropColumns(DropName(q).value).value;
         HasPrefix(b, "as") && IsTail(DropCtes(q).value, b) && |DropCtes(q).value| < |b|
  {
    hide IsTail;
    if DropCte(q).Some? {
      var b := DropColumns(DropName(q).value).value;
      var c := DropAs(b).value;
      var d := DropBody(c).value;
      TailOfTail(d, c, b);
      if StartsWith(d, ',') && DropCtes(d[1..]).Some? {
        var r := DropCtes(d[1..]).value;
        TailOfRest(d);
        TailOfTail(r, d[1..], d);
        TailOfTail(r, d, b);
      }
    }
  }

  lemma TailOfRest(d: string)
    requires d != ""
    ensures IsTail(d[1..], d)
  {
  }

  lemma ShorterTailTrimsShorter(r: string, b: string)
    requires IsTail(r, b) && |r| < |b| && HasPrefix(b, "as")
    ensures Trim(r) == "" || |Trim(r)| < |Trim(b)|
  {
    assert b[0] == b[..2][0] == 'a';
    assert TrimStart(b) == b;
    if Trim(r) != "" {
      var k := |b| - |TrimStart(r)|;
      assert TrimStart(r) == b[k..];
      TrimEndOfTail(b, k);
    }
  }

  /** Behind a keyword that was a name, an `as` is read as the name and the body as the column list. */
  lemma MisreadName(c: Cte, s: string)
    requires WellFormed(c) && c.columns.None?
    ensures var q := c.gap[1..] + AfterName(c, s)[|c.gap|..];
      DropName(q).Some? && DropColumns(DropName(q).value) == Some(DropSpace(s))
  {
    hide IsTail;
    var fromBody := "(" + c.body + ")" + (c.trail + s);
    var fromGap := c.asGap + fromBody;
    var fromAs := "as" + fromGap;
    assert AfterName(c, s)[|c.gap|..] == Columns(c) + fromAs == fromAs;
    hide AfterName;
    hide Columns;
    hide DropName;
    hide DropColumns;
    AsTakenForName(c.gap[1..], fromGap);
    SpaceDropped(c.asGap, fromBody);
    BodyTakenForColumns(c, s);
  }

  lemma AsTakenForName(gap: string, s: string)
    requires SpaceOnly(gap) && s != "" && !IsWord(s[0])
    ensures DropName(gap + ("as" + s)) == Some(DropSpace(s))
  {
    hide IsTail;
    var named := "as" + s;
    SpaceDropped(gap, named);
    assert named[0] == 'a' && DropSpace(named) == named;
    hide IsAsciiSpace;
    hide DropSpace;
    IdentDropped("as", s);
    assert |s| < |named|;
  }

  lemma BodyTakenForColumns(c: Cte, s: string)
    requires WellFormed(c)
    ensures DropColumns(DropSpace("(" + c.body + ")" + (c.trail + s))) == Some(DropSpace(s))
  {
    ParensDropped(c.body, c.trail + s);
    SpaceDropped(c.trail, s);
  }

  lemma MisreadColumns(c: Cte, s: string)
    requires WellFormed(c) && c.columns.Some? && c.gap != ""
    ensures DropCtes(c.gap[1..] + AfterName(c, s)[|c.gap|..]) == None
  {
    hide IsTail;
    var rest := AfterName(c, s)[|c.gap|..];
    assert rest[0] == '(';
    SpaceDropped(c.gap[1..], rest);
  }

  /** So the list is not read as it was written. */
  lemma MisreadList(c: Cte, s: string, outer: string)
    requires WellFormed(c) && ReadsAsKeyword(c)
    requires s == outer || StartsWith(s, ',')
    ensures var q := (Render(c) + s)[10..];
      DropCtes(q).Some? ==> Trim(DropCtes(q).value) == "" || |Trim(DropCtes(q).value)| < |Trim(outer)|
  {
    hide IsTail;
    hide Trim;
    hide DropCtes;
    hide DropName;
    hide DropColumns;
    hide AfterName;
    var q := (Render(c) + s)[10..];
    NameInFront(c, s);
    GapInFront(c, s);
    assert q == c.gap[1..] + AfterName(c, s)[|c.gap|..];
    if c.columns.Some? {
      MisreadColumns(c, s);
    } else {
      MisreadName(c, s);
      OutcomeWithin(q);
      if DropCtes(q).Some? {
        assert DropSpace(s)[0] == DropSpace(s)[..2][0] == 'a';
        ShorterTailTrimsShorter(DropCtes(q).value, DropSpace(s));
        TrimAfterSpace(outer);
      }
    }
  }

  lemma GapInFront(c: Cte, s: string)
    ensures |c.gap| <= |AfterName(c, s)| && AfterName(c, s) == c.gap + AfterName(c, s)[|c.gap|..]
  {
  }

  /**
   A rendered list is skipped, whatever balanced text its columns and bodies hold, exactly when its first name is not
   taken for the keyword RECURSIVE.
   */
  lemma WithListSkippedIff(recursive: bool, ctes: seq<Cte>, outer: string)
    requires ctes != [] && forall i :: 0 <= i < |ctes| ==> WellFormed(ctes[i])
    requires !StartsWith(DropSpace(outer), ',') && Trim(outer) != ""
    ensures OuterStatement(RenderWith(recursive, ctes, outer)) == Trim(outer)
            <==> recursive || !ReadsAsKeyword(ctes[0])
  {
    hide DropCte;
    hide WellFormed;
    hide Render;
    hide RenderList;
    hide IsTail;
    hide Trim;
    var sql := RenderWith(recursive, ctes, outer);
    var list := RenderList(ctes) + outer;
    var flagged := (if recursive then "recursive " else "") + list;
    assert sql[..5] == "with " && sql[5..] == flagged;
    assert recursive ==> flagged[..10] == "recursive " && flagged[10..] == list;
    assert !recursive ==> flagged == list;
    var s := ListStartsWithFirst(ctes, outer);
    KeywordIffNamed(ctes[0], s);
    if recursive || !ReadsAsKeyword(ctes[0]) {
      assert WithoutRecursive(flagged) == list;
      CtesDropped(ctes, outer);
      TrimAfterSpace(outer);
    } else {
      MisreadList(ctes[0], s, outer);
      TrimNoLonger(outer);
      assert |sql| > |outer|;
    }
  }

  /** `with recursive as (body) outer`, for one, is not named after its outer statement. */
  lemma RecursiveIsMisread(body: string, outer: string)
    requires Balanced(body) && Trim(outer) != "" && !StartsWith(DropSpace(outer), ',')
    ensures OuterStatement(RenderWith(false, [Cte("", "recursive", " ", None, "", " ", body, " ")], outer)) != Trim(outer)
  {
    var c := Cte("", "recursive", " ", None, "", " ", body, " ");
    RecursiveIsWord();
    hide Balanced;
    hide IsWord;
    hide Trim;
    hide DropSpace;
    assert WellFormed(c) && ReadsAsKeyword(c);
    hide WellFormed;
    hide ReadsAsKeyword;
    hide OuterStatement;
    hide RenderWith;
    WithListSkippedIff(false, [c], outer);
  }

  lemma RecursiveIsWord()
    ensures WordOnly("recursive")
  {
  }

  lemma TrimNoLonger(s: string)
    ensures |Trim(s)| <= |s|
  {
  }
}
