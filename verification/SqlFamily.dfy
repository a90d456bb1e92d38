/** The statement family of a query: its text without literals, with collapsed space, and without a WITH list. */
module SqlFamily {
  import opened Text
  import SqlWith

  const FAMILY_MAX_LEN := 160
  const QUOTE := '\''

  // ---- Literals -----------------------------------------------------------------------------

  /** What follows a literal, given the text behind its opening quote; a doubled quote does not close it. */
  function SkipLiteral(s: string): (r: string)
    ensures |r| <= |s|
  {
    if s == "" then ""
    else if s[0] != QUOTE then SkipLiteral(s[1..])
    else if |s| > 1 && s[1] == QUOTE then SkipLiteral(s[2..])
    else s[1..]
  }

  function Erase(s: string): string
    decreases |s|
  {
    if s == "" then ""
    else if s[0] != QUOTE then [s[0]] + Erase(s[1..])
    else "?" + Erase(SkipLiteral(s[1..]))
  }

  method SkipLiteralAt(sql: string, start: nat) returns (index: nat)
    requires start <= |sql|
    ensures start <= index <= |sql| && sql[index..] == SkipLiteral(sql[start..])
  {
    index := start;
    while index < |sql|
      invariant start <= index <= |sql| && SkipLiteral(sql[start..]) == SkipLiteral(sql[index..])
    {
      Suffix(sql, index);
      if sql[index] != QUOTE {
        index := index + 1;
        continue;
      }
      if index + 1 < |sql| && sql[index + 1] == QUOTE {
        Suffix(sql, index + 1);
        index := index + 2;
        continue;
      }
      return index + 1;
    }
  }

  lemma Suffix(s: string, i: nat)
    requires i < |s|
    ensures s[i..][0] == s[i] && s[i..][1..] == s[i + 1..]
    ensures i + 1 < |s| ==> s[i..][1] == s[i + 1] && s[i..][2..] == s[i + 2..]
  {
  }

  method ReplaceSqlStringLiterals(sql: string) returns (out: string)
    ensures out == Erase(sql)
  {
    hide SkipLiteral;
    hide Erase;
    out := "";
    var index := 0;
    assert sql[0..] == sql;
    while index < |sql|
      invariant index <= |sql| && out + Erase(sql[index..]) == Erase(sql)
      decreases |sql| - index
    {
      EraseStep(sql, index);
      if sql[index] != QUOTE {
        out := out + [sql[index]];
        index := index + 1;
        continue;
      }
      out := out + "?";
      index := SkipLiteralAt(sql, index + 1);
    }
    EraseEnd();
    assert sql[|sql|..] == "" && out + "" == out;
  }

  lemma EraseStep(sql: string, i: nat)
    requires i < |sql|
    ensures Erase(sql[i..]) == if sql[i] != QUOTE then [sql[i]] + Erase(sql[i + 1..])
                               else "?" + Erase(SkipLiteral(sql[i + 1..]))
  {
    Suffix(sql, i);
  }

  lemma EraseEnd()
    ensures Erase("") == ""
  {
  }

  lemma {:induction false} ErasedHasNoQuote(s: string)
    ensures !Occurs(QUOTE, Erase(s))
    decreases |s|
  {
    if s != "" {
      ErasedHasNoQuote(if s[0] != QUOTE then s[1..] else SkipLiteral(s[1..]));
    }
  }

  // ---- Skeletons ----------------------------------------------------------------------------

  /** A query as it is put together: plain text, and string literals by their content. */
  datatype Piece = Plain(text: string) | Literal(content: string)

  function Doubled(s: string): string {
    if s == "" then ""
    else (if s[0] == QUOTE then [QUOTE, QUOTE] else [s[0]]) + Doubled(s[1..])
  }

  function Render(pieces: seq<Piece>): string {
    if pieces == [] then ""
    else match pieces[0]
      case Plain(t) => t + Render(pieces[1..])
      case Literal(c) => [QUOTE] + (Doubled(c) + ([QUOTE] + Render(pieces[1..])))
  }

  ghost predicate PlainHasNoQuote(pieces: seq<Piece>) {
    forall i :: 0 <= i < |pieces| && pieces[i].Plain? ==> !Occurs(QUOTE, pieces[i].text)
  }

  /** The pieces behind a run of literals with nothing between them: SQL reads such a run as one literal. */
  function BehindRun(pieces: seq<Piece>): (r: seq<Piece>)
    ensures |r| <= |pieces| && r == pieces[|pieces| - |r|..]
    ensures r != [] ==> r[0].Plain? && r[0].text != ""
  {
    if pieces != [] && (pieces[0].Literal? || pieces[0].text == "") then BehindRun(pieces[1..]) else pieces
  }

  /** A skeleton's text with one question mark for each run of literals. */
  function Outline(pieces: seq<Piece>): string
    decreases |pieces|
  {
    if pieces == [] then ""
    else match pieces[0]
      case Plain(t) => t + Outline(pieces[1..])
      case Literal(_) => "?" + Outline(BehindRun(pieces[1..]))
  }

  /** The same plain text in the same places, whatever the literals hold. */
  ghost predicate SameSkeleton(a: seq<Piece>, b: seq<Piece>) {
    |a| == |b| && forall i :: 0 <= i < |a| ==> if a[i].Plain? then a[i] == b[i] else b[i].Literal?
  }

  /** A character of a literal's content, as written, is skipped. */
  lemma ContentSkipped(c: char, u: string)
    ensures SkipLiteral((if c == QUOTE then [QUOTE, QUOTE] else [c]) + u) == SkipLiteral(u)
  {
    if c == QUOTE {
      assert ([QUOTE, QUOTE] + u)[2..] == u;
    } else {
      assert ([c] + u)[1..] == u;
    }
  }

  lemma DoubledFirst(c: string)
    requires c != ""
    ensures Doubled(c) == (if c[0] == QUOTE then [QUOTE, QUOTE] else [c[0]]) + Doubled(c[1..])
  {
  }

  lemma {:induction false} LiteralSkipped(c: string, pieces: seq<Piece>)
    requires PlainHasNoQuote(pieces)
    ensures SkipLiteral(Doubled(c) + ([QUOTE] + Render(pieces))) == Render(BehindRun(pieces))
    decreases |pieces|, |c| + 1
  {
    hide SkipLiteral;
    hide Render;
    hide BehindRun;
    hide PlainHasNoQuote;
    var closed := [QUOTE] + Render(pieces);
    if c == "" {
      ClosingQuote(pieces);
      assert Doubled(c) + closed == closed;
    } else {
      LiteralSkipped(c[1..], pieces);
      DoubledFirst(c);
      hide Doubled;
      var first := if c[0] == QUOTE then [QUOTE, QUOTE] else [c[0]];
      assert Doubled(c) + closed == first + (Doubled(c[1..]) + closed);
      ContentSkipped(c[0], Doubled(c[1..]) + closed);
    }
  }

  /** A closing quote ends the literal unless another literal follows at once, which continues it. */
  lemma {:induction false} ClosingQuote(pieces: seq<Piece>)
    requires PlainHasNoQuote(pieces)
    ensures SkipLiteral([QUOTE] + Render(pieces)) == Render(BehindRun(pieces))
    decreases |pieces|, 0
  {
    hide Doubled;
    hide SkipLiteral;
    var rest := Render(pieces);
    QuoteSkipped(rest);
    if pieces != [] {
      var behind := Render(pieces[1..]);
      match pieces[0]
      case Literal(c) =>
        LiteralSkipped(c, pieces[1..]);
        assert rest[1..] == Doubled(c) + ([QUOTE] + behind);
      case Plain(p) =>
        if p == "" {
          ClosingQuote(pieces[1..]);
          QuoteSkipped(behind);
          assert rest == behind;
        } else {
          assert rest[0] == p[0] != QUOTE;
        }
    }
  }

  lemma QuoteSkipped(rest: string)
    ensures SkipLiteral([QUOTE] + rest) ==
            if rest != "" && rest[0] == QUOTE then SkipLiteral(rest[1..]) else rest
  {
    var t := [QUOTE] + rest;
    assert t[1..] == rest;
    assert rest != "" ==> t[1] == rest[0] && t[2..] == rest[1..];
  }

  lemma {:induction false} PlainErased(p: string, s: string)
    requires !Occurs(QUOTE, p)
    ensures Erase(p + s) == p + Erase(s)
  {
    if p == "" {
      assert p + s == s;
    } else {
      assert (p + s)[1..] == p[1..] + s;
      assert forall i :: 0 <= i < |p[1..]| ==> p[1..][i] == p[i + 1];
      PlainErased(p[1..], s);
      assert p == [p[0]] + p[1..];
    }
  }

  /** Erasing literals from a rendered skeleton gives its outline. */
  lemma {:induction false} ErasedRender(pieces: seq<Piece>)
    requires PlainHasNoQuote(pieces)
    ensures Erase(Render(pieces)) == Outline(pieces)
    decreases |pieces|
  {
    if pieces != [] {
      match pieces[0]
      case Plain(t) =>
        PlainErased(t, Render(pieces[1..]));
        ErasedRender(pieces[1..]);
      case Literal(c) =>
        LiteralSkipped(c, pieces[1..]);
        ErasedRender(BehindRun(pieces[1..]));
        assert Render(pieces)[1..] == Doubled(c) + ([QUOTE] + Render(pieces[1..]));
    }
  }

  lemma {:induction false} SameBehindRun(a: seq<Piece>, b: seq<Piece>)
    requires SameSkeleton(a, b)
    ensures SameSkeleton(BehindRun(a), BehindRun(b))
  {
    if a != [] {
      SameBehindRun(a[1..], b[1..]);
    }
  }

  lemma {:induction false} SameOutline(a: seq<Piece>, b: seq<Piece>)
    requires SameSkeleton(a, b)
    ensures Outline(a) == Outline(b)
    decreases |a|
  {
    if a != [] {
      SameOutline(a[1..], b[1..]);
      SameBehindRun(a[1..], b[1..]);
      SameOutline(BehindRun(a[1..]), BehindRun(b[1..]));
    }
  }

  // ---- White space and case -----------------------------------------------------------------

  function Squeeze(s: string, afterSpace: bool): string {
    if s == "" then ""
    else if IsSpace(s[0]) then
      if afterSpace then Squeeze(s[1..], true) else [' '] + Squeeze(s[1..], true)
    else [LowerChar(s[0])] + Squeeze(s[1..], false)
  }

  function Collapse(s: string): string {
    Trim(Squeeze(s, true))
  }

  lemma SqueezeStep(s: string, i: nat, afterSpace: bool)
    requires i < |s|
    ensures Squeeze(s[i..], afterSpace) ==
            (if !IsSpace(s[i]) then [LowerChar(s[i])] else if afterSpace then "" else [' '])
            + Squeeze(s[i + 1..], IsSpace(s[i]))
  {
    Suffix(s, i);
  }

  method CollapseSqlWhitespaceLower(sql: string) returns (out: string)
    ensures out == Collapse(sql)
  {
    hide Squeeze;
    hide Trim;
    var buffer, prevSpace := "", true;
    assert sql[0..] == sql;
    for i := 0 to |sql|
      invariant buffer + Squeeze(sql[i..], prevSpace) == Squeeze(sql, true)
      invariant !prevSpace ==> buffer != ""
    {
      SqueezeStep(sql, i, prevSpace);
      if IsSpace(sql[i]) {
        if !prevSpace && buffer != "" {
          buffer := buffer + [' '];
          prevSpace := true;
        }
        continue;
      }
      buffer := buffer + [LowerChar(sql[i])];
      prevSpace := false;
    }
    SqueezeEnd(prevSpace);
    assert sql[|sql|..] == "" && buffer + "" == buffer;
    out := Trim(buffer);
  }

  lemma SqueezeEnd(afterSpace: bool)
    ensures Squeeze("", afterSpace) == ""
  {
  }

  /** The characters that are not white space. */
  function Ink(s: string): string {
    if s == "" then ""
    else if IsSpace(s[0]) then Ink(s[1..])
    else [s[0]] + Ink(s[1..])
  }

  /** Only single blanks, no capital ASCII letters. */
  ghost predicate Plainly(s: string) {
    && (forall i :: 0 <= i < |s| ==> (IsSpace(s[i]) ==> s[i] == ' ') && !('A' <= s[i] <= 'Z'))
    && (forall i :: 0 <= i < |s| - 1 ==> !(s[i] == ' ' && s[i + 1] == ' '))
  }

  lemma {:induction false} InkOfPieces(a: string, b: string)
    ensures Ink(a + b) == Ink(a) + Ink(b)
  {
    if a == "" {
      assert a + b == b;
    } else {
      hide IsSpace;
      InkOfPieces(a[1..], b);
      TailOfConcat(a, b);
    }
  }

  lemma InkOfOne(c: char, s: string)
    ensures Ink([c] + s) == if IsSpace(c) then Ink(s) else [c] + Ink(s)
  {
    assert ([c] + s)[1..] == s;
  }

  lemma {:induction false} SqueezeKeepsInk(s: string, afterSpace: bool)
    ensures Ink(Squeeze(s, afterSpace)) == Lower(Ink(s))
  {
    if s != "" {
      SqueezeKeepsInk(s[1..], IsSpace(s[0]));
      InkOfOne(if IsSpace(s[0]) then ' ' else LowerChar(s[0]), Squeeze(s[1..], IsSpace(s[0])));
      if !IsSpace(s[0]) {
        LoweredIsInk(s[0]);
        assert Ink(s)[1..] == Ink(s[1..]);
      }
    }
  }

  lemma {:induction false} SqueezeIsPlain(s: string, afterSpace: bool)
    ensures Plainly(Squeeze(s, afterSpace))
    ensures afterSpace && Squeeze(s, afterSpace) != "" ==> Squeeze(s, afterSpace)[0] != ' '
  {
    if s != "" {
      SqueezeIsPlain(s[1..], IsSpace(s[0]));
      if !IsSpace(s[0]) {
        LoweredIsInk(s[0]);
      }
    }
  }

  lemma LoweredIsInk(c: char)
    requires !IsSpace(c)
    ensures !IsSpace(LowerChar(c)) && !('A' <= LowerChar(c) <= 'Z') && LowerChar(c) != ' '
  {
  }

  lemma {:induction false} InkOfTrimEnd(s: string)
    ensures Ink(TrimEnd(s)) == Ink(s)
  {
    if s != "" && IsSpace(s[|s| - 1]) {
      var n := |s| - 1;
      InkOfTrimEnd(s[..n]);
      InkOfPieces(s[..n], s[n..]);
      assert s == s[..n] + s[n..];
    }
  }

  lemma {:induction false} InkOfTrimStart(s: string)
    ensures Ink(TrimStart(s)) == Ink(s)
  {
    if s != "" && IsSpace(s[0]) {
      InkOfTrimStart(s[1..]);
    }
  }

  /** Collapsing keeps the ink, in lower case, and leaves single blanks between it and none around it. */
  lemma CollapseMeaning(s: string)
    ensures Ink(Collapse(s)) == Lower(Ink(s))
    ensures Plainly(Collapse(s))
    ensures Collapse(s) != "" ==> !IsSpace(Collapse(s)[0]) && !IsSpace(Collapse(s)[|Collapse(s)| - 1])
  {
    SqueezeKeepsInk(s, true);
    SqueezeIsPlain(s, true);
    var q := Squeeze(s, true);
    var t := TrimStart(q);
    InkOfTrimStart(q);
    InkOfTrimEnd(t);
    assert IsTail(t, q);
  }

  // ---- The family ---------------------------------------------------------------------------

  function Utf8Len(c: char): nat {
    var n := c as int;
    if n < 0x80 then 1 else if n < 0x800 then 2 else if n < 0x1_0000 then 3 else 4
  }

  function ByteLen(s: string): nat {
    if s == "" then 0 else Utf8Len(s[0]) + ByteLen(s[1..])
  }

  /** The characters that start before the byte limit. */
  function StartingBefore(s: string, offset: nat): (r: string)
    ensures r <= s
  {
    if s == "" || offset >= FAMILY_MAX_LEN then ""
    else [s[0]] + StartingBefore(s[1..], offset + Utf8Len(s[0]))
  }

  function Truncate(s: string): string {
    if ByteLen(s) <= FAMILY_MAX_LEN then s else Trim(StartingBefore(s, 0))
  }

  method D1StatementFamily(sql: string) returns (family: string)
    ensures family == Family(sql)
  {
    var erased := ReplaceSqlStringLiterals(sql);
    var normalized := CollapseSqlWhitespaceLower(erased);
    var afterWith := SqlWith.SqlAfterWithClause(normalized);
    family := Truncate(afterWith);
  }

  function Family(sql: string): string {
    Truncate(SqlWith.OuterStatement(Collapse(Erase(sql))))
  }

  lemma ByteLenFirst(c: char, s: string)
    ensures ByteLen([c] + s) == Utf8Len(c) + ByteLen(s) && ByteLen("") == 0
  {
    hide Utf8Len;
    assert ([c] + s)[1..] == s;
  }

  /** The characters that start before the limit are those up to the one that reaches it. */
  lemma {:induction false} FrontByBytes(s: string, offset: nat) returns (k: nat)
    ensures k <= |s| && StartingBefore(s, offset) == s[..k]
    ensures k > 0 ==> offset + ByteLen(s[..k - 1]) < 160
    ensures k < |s| ==> offset + ByteLen(s[..k]) >= 160
  {
    hide Utf8Len;
    k := 0;
    if s != "" && offset < FAMILY_MAX_LEN {
      var rest := s[1..];
      var j := FrontByBytes(rest, offset + Utf8Len(s[0]));
      k := j + 1;
      assert s[..k] == [s[0]] + rest[..j];
      ByteLenFirst(s[0], rest[..j]);
      if j > 0 {
        assert s[..j] == [s[0]] + rest[..j - 1];
        ByteLenFirst(s[0], rest[..j - 1]);
      } else {
        assert s[..0] == "";
      }
    }
  }

  lemma OuterIsTrimmed(sql: string)
    ensures var outer := SqlWith.OuterStatement(Collapse(sql)); outer != "" ==> !IsSpace(outer[0])
  {
    CollapseMeaning(sql);
    hide Collapse;
    var collapsed := Collapse(sql);
    var outer := SqlWith.OuterStatement(collapsed);
    var tail := SqlWith.OuterStatementIsTail(collapsed);
    hide SqlWith.OuterStatement;
    hide IsSpace;
    if outer != collapsed {
      assert outer[0] == TrimStart(tail)[0];
    }
  }

  lemma TrimOfFront(s: string)
    requires s != "" && !IsSpace(s[0])
    ensures Trim(s) == TrimEnd(s) && TrimEnd(s) != ""
  {
    hide IsSpace;
    assert TrimStart(s) == s;
    if s[1..] == "" {
      assert TrimEnd(s) == s;
    }
    FirstStays(s);
  }

  lemma {:induction false} FirstStays(s: string)
    requires s != "" && !IsSpace(s[0])
    ensures TrimEnd(s) != ""
  {
    hide IsSpace;
    if IsSpace(s[|s| - 1]) {
      FirstStays(s[..|s| - 1]);
    }
  }

  /**
   A family is the outer statement itself if that has at most 160 bytes; otherwise it is the front of it up to the
   character that reaches byte 160, without blanks behind it, and never empty.
   */
  lemma FamilyIsFront(sql: string) returns (k: nat)
    ensures var outer := SqlWith.OuterStatement(Collapse(Erase(sql)));
      if ByteLen(outer) <= 160 then Family(sql) == outer
      else
        && 0 < k <= |outer| && ByteLen(outer[..k - 1]) < 160 <= ByteLen(outer[..k])
        && Family(sql) == TrimEnd(outer[..k]) && Family(sql) != ""
  {
    var outer := SqlWith.OuterStatement(Collapse(Erase(sql)));
    OuterIsTrimmed(Erase(sql));
    hide Collapse;
    hide Erase;
    hide SqlWith.OuterStatement;
    hide IsSpace;
    hide TrimEnd;
    k := FrontByBytes(outer, 0);
    if ByteLen(outer) > 160 {
      assert k == |outer| ==> outer[..k] == outer;
      assert k > 0;
      assert outer[..k][0] == outer[0];
      TrimOfFront(outer[..k]);
    }
  }

  /** How many bytes a character takes in UTF-8, at the ends of each range. */
  lemma ByteLenAtEnds()
    ensures ByteLen("a") == 1 && ByteLen([0x7F as char]) == 1 && ByteLen([0x80 as char]) == 2 && ByteLen([0x7FF as char]) == 2
    ensures ByteLen([0x800 as char]) == 3 && ByteLen([0xFFFF as char]) == 3 && ByteLen([0x1_0000 as char]) == 4
  {
    assert "a"[1..] == "";
  }

  /** Two queries that differ only in what their literals hold belong to one family. */
  lemma FamilyIgnoresLiterals(a: seq<Piece>, b: seq<Piece>)
    requires PlainHasNoQuote(a) && SameSkeleton(a, b)
    ensures Family(Render(a)) == Family(Render(b))
  {
    ErasedRender(a);
    ErasedRender(b);
    SameOutline(a, b);
  }

  lemma {:induction false} SqueezeKeepsQuoteOut(s: string, afterSpace: bool)
    requires !Occurs(QUOTE, s)
    ensures !Occurs(QUOTE, Squeeze(s, afterSpace))
  {
    if s != "" {
      assert forall i :: 0 <= i < |s[1..]| ==> s[1..][i] == s[i + 1];
      SqueezeKeepsQuoteOut(s[1..], IsSpace(s[0]));
      assert LowerChar(s[0]) != QUOTE;
    }
  }

  lemma TrimKeepsOut(s: string)
    requires !Occurs(QUOTE, s)
    ensures !Occurs(QUOTE, Trim(s))
  {
    PartKeepsOut(TrimStart(s), s);
    PartKeepsOut(Trim(s), TrimStart(s));
  }

  lemma PartKeepsOut(part: string, s: string)
    requires !Occurs(QUOTE, s) && (IsTail(part, s) || part <= s)
    ensures !Occurs(QUOTE, part)
  {
    assert IsTail(part, s) ==> forall i :: 0 <= i < |part| ==> part[i] == s[|s| - |part| + i];
  }

  /** A family names no literal at all, not even its quotes. */
  lemma FamilyHasNoQuote(sql: string)
    ensures !Occurs(QUOTE, Family(sql))
  {
    hide Trim;
    hide IsTail;
    hide SqlWith.OuterStatement;
    hide Occurs;
    ErasedHasNoQuote(sql);
    SqueezeKeepsQuoteOut(Erase(sql), true);
    TrimKeepsOut(Squeeze(Erase(sql), true));
    var collapsed := Collapse(Erase(sql));
    var outer := SqlWith.OuterStatement(collapsed);
    var tail := SqlWith.OuterStatementIsTail(collapsed);
    if outer != collapsed {
      PartKeepsOut(tail, collapsed);
      TrimKeepsOut(tail);
    }
    PartKeepsOut(StartingBefore(outer, 0), outer);
    TrimKeepsOut(StartingBefore(outer, 0));
  }
}
