/** Decoding and escaping of HTML entities by chained text replacement. */
module Entities {
  import opened Text

  /** Every occurrence of `from`, left to right and without overlap, becomes `to`. */
  function Replace(s: string, from: string, to: char): string
    requires from != ""
    decreases |s|
  {
    if s == "" then ""
    else if HasPrefix(s, from) then [to] + Replace(s[|from|..], from, to)
    else [s[0]] + Replace(s[1..], from, to)
  }

  /** An entity and the character it stands for. */
  datatype Entity = Entity(name: string, plain: char)

  const ENTITIES: seq<Entity> := [
    Entity("&nbsp;", ' '),
    Entity("&#39;", '\''),
    Entity("&#x27;", '\''),
    Entity("&quot;", '"'),
    Entity("&lt;", '<'),
    Entity("&gt;", '>'),
    Entity("&amp;", '&')
  ]

  predicate NameChar(c: char) {
    IsAlpha(c) || IsDigit(c) || c == '&' || c == '#' || c == ';'
  }

  ghost predicate IsName(s: string) {
    |s| > 1 && s[0] == '&' && forall k :: 0 <= k < |s| ==> NameChar(s[k]) && (s[k] == '&' <==> k == 0)
  }

  /** Names open with their only ampersand, and only the last entity may stand for a character names are made of. */
  ghost predicate Decodable(entities: seq<Entity>) {
    && (forall i :: 0 <= i < |entities| ==> IsName(entities[i].name))
    && (forall i :: 0 <= i < |entities| - 1 ==> !NameChar(entities[i].plain))
  }

  /** None of the entities stands for a character names are made of. */
  ghost predicate Opaque(entities: seq<Entity>) {
    forall i :: 0 <= i < |entities| ==> !NameChar(entities[i].plain)
  }

  /** The replacements one after the other. */
  function Chain(s: string, entities: seq<Entity>): string
    requires Decodable(entities)
  {
    if entities == [] then s
    else
      var n := |entities| - 1;
      Replace(Chain(s, entities[..n]), entities[n].name, entities[n].plain)
  }

  /** The first of these entities that the text starts with. */
  function Match(s: string, entities: seq<Entity>): (r: int)
    ensures -1 <= r < |entities|
    ensures r >= 0 ==> HasPrefix(s, entities[r].name)
    ensures forall i :: 0 <= i < (if r >= 0 then r else |entities|) ==> !HasPrefix(s, entities[i].name)
  {
    if entities == [] then -1
    else
      var n := |entities| - 1;
      var r := Match(s, entities[..n]);
      if r >= 0 then r else if HasPrefix(s, entities[n].name) then n else -1
  }

  /** One pass: at each place the entity found there is decoded, and what it decodes to is not looked at again. */
  function OnePass(s: string, entities: seq<Entity>): string
    requires Decodable(entities)
    decreases |s|
  {
    if s == "" then ""
    else
      var m := Match(s, entities);
      if m >= 0 then [entities[m].plain] + OnePass(s[|entities[m].name|..], entities)
      else [s[0]] + OnePass(s[1..], entities)
  }

  // ---- Chaining the replacements is one pass ------------------------------------------------

  lemma {:induction false} EmptyPass(s: string)
    ensures OnePass(s, []) == s
  {
    if s != "" {
      EmptyPass(s[1..]);
    }
  }

  /** The rest of a name passes through untouched: no entity starts inside it. */
  lemma {:induction false} NamePasses(name: string, k: nat, rest: string, entities: seq<Entity>)
    requires Decodable(entities) && IsName(name) && 0 < k <= |name|
    ensures OnePass(name[k..] + rest, entities) == name[k..] + OnePass(rest, entities)
    decreases |name| - k
  {
    var s := name[k..] + rest;
    if k == |name| {
      assert s == rest;
    } else {
      NoMatchOffAmpersand(s, entities);
      assert s[1..] == name[k + 1..] + rest;
      NamePasses(name, k + 1, rest, entities);
      assert [name[k]] + (name[k + 1..] + OnePass(rest, entities)) == name[k..] + OnePass(rest, entities);
    }
  }

  lemma NoMatchOffAmpersand(s: string, entities: seq<Entity>)
    requires Decodable(entities) && s != "" && s[0] != '&'
    ensures Match(s, entities) == -1
  {
    var m := Match(s, entities);
    if m >= 0 {
      OtherFirst(s, entities[m].name);
    }
  }

  /** Text in the output that no decoded character occurs in stood in the input already. */
  lemma {:induction false} OutputReflects(s: string, word: string, k: nat, entities: seq<Entity>)
    requires Decodable(entities) && Opaque(entities)
    requires k <= |word| && forall i :: 0 <= i < |word| ==> NameChar(word[i])
    requires HasPrefix(OnePass(s, entities), word[k..])
    ensures HasPrefix(s, word[k..])
    decreases |word| - k
  {
    if k < |word| {
      var out, w := OnePass(s, entities), word[k..];
      assert out[0] == out[..|w|][0] == word[k];
      assert Match(s, entities) == -1;
      var rest := OnePass(s[1..], entities);
      assert out == [s[0]] + rest;
      assert rest[..|w| - 1] == out[..|w|][1..] == word[k + 1..];
      OutputReflects(s[1..], word, k + 1, entities);
      assert s[..|w|] == [s[0]] + s[1..][..|w| - 1];
    }
  }

  lemma DecodableParts(entities: seq<Entity>, e: Entity)
    requires Decodable(entities + [e])
    ensures Decodable(entities) && Opaque(entities) && IsName(e.name)
  {
    var all := entities + [e];
    assert all[|entities|] == e && forall j :: 0 <= j < |entities| ==> all[j] == entities[j];
  }

  lemma MatchOneMore(s: string, entities: seq<Entity>, e: Entity)
    ensures Match(s, entities + [e]) ==
            (if Match(s, entities) >= 0 then Match(s, entities)
             else if HasPrefix(s, e.name) then |entities| else -1)
  {
    assert (entities + [e])[..|entities|] == entities;
  }

  lemma {:induction false} OneMoreReplacement(s: string, entities: seq<Entity>, e: Entity)
    requires e.name != "" && Decodable(entities + [e]) && Decodable(entities)
    ensures Replace(OnePass(s, entities), e.name, e.plain) == OnePass(s, entities + [e])
    decreases |s|
  {
    if s != "" {
      DecodableParts(entities, e);
      MatchOneMore(s, entities, e);
      var m := Match(s, entities);
      if m >= 0 {
        var rest := s[|entities[m].name|..];
        OneMoreReplacement(rest, entities, e);
        ReplacePasses(entities[m].plain, OnePass(rest, entities), e);
        assert (entities + [e])[m] == entities[m];
      } else if HasPrefix(s, e.name) {
        var rest := s[|e.name|..];
        OneMoreReplacement(rest, entities, e);
        NameKept(s, entities, e.name);
        ReplaceTakes(OnePass(rest, entities), e);
        assert (entities + [e])[|entities|] == e;
      } else {
        OneMoreReplacement(s[1..], entities, e);
        if s[0] == '&' {
          NotMadeUp(s, entities, e.name);
          assert OnePass(s, entities)[1..] == OnePass(s[1..], entities);
        } else {
          ReplacePasses(s[0], OnePass(s[1..], entities), e);
        }
      }
    }
  }

  lemma ReplacePasses(c: char, s: string, e: Entity)
    requires IsName(e.name) && c != '&'
    ensures Replace([c] + s, e.name, e.plain) == [c] + Replace(s, e.name, e.plain)
  {
    OtherFirst([c] + s, e.name);
    assert ([c] + s)[1..] == s;
  }

  lemma ReplaceTakes(s: string, e: Entity)
    requires IsName(e.name)
    ensures Replace(e.name + s, e.name, e.plain) == [e.plain] + Replace(s, e.name, e.plain)
  {
    var t := e.name + s;
    assert t[..|e.name|] == e.name && t[|e.name|..] == s;
  }

  /** A name that no entity matches comes through whole. */
  lemma NameKept(s: string, entities: seq<Entity>, name: string)
    requires Decodable(entities) && IsName(name) && HasPrefix(s, name) && Match(s, entities) == -1
    ensures OnePass(s, entities) == name + OnePass(s[|name|..], entities)
  {
    var rest := s[|name|..];
    assert s == name + rest && s[1..] == name[1..] + rest;
    NamePasses(name, 1, rest, entities);
    assert name == [s[0]] + name[1..];
  }

  /** A name in the output is not put together from decoded characters. */
  lemma NotMadeUp(s: string, entities: seq<Entity>, name: string)
    requires Decodable(entities) && Opaque(entities) && IsName(name)
    requires s != "" && Match(s, entities) == -1 && !HasPrefix(s, name)
    ensures !HasPrefix(OnePass(s, entities), name)
  {
    if HasPrefix(OnePass(s, entities), name) {
      assert name[0..] == name;
      OutputReflects(s, name, 0, entities);
    }
  }

  lemma {:induction false} ChainIsOnePass(s: string, entities: seq<Entity>)
    requires Decodable(entities)
    ensures Chain(s, entities) == OnePass(s, entities)
  {
    if entities == [] {
      EmptyPass(s);
    } else {
      var n := |entities| - 1;
      ChainIsOnePass(s, entities[..n]);
      assert IsName(entities[n].name);
      assert entities == entities[..n] + [entities[n]];
      OneMoreReplacement(s, entities[..n], entities[n]);
    }
  }

  // ---- Decoding undoes escaping -------------------------------------------------------------

  function DecodeBasicHtmlEntities(s: string): string {
    EntitiesDecodable();
    Chain(s, ENTITIES)
  }

  function DecodedOnce(s: string): string {
    EntitiesDecodable();
    OnePass(s, ENTITIES)
  }

  /** Seven replacements in a row decode each entity once and never look at their own output. */
  lemma DecodeIsOnePass(s: string)
    ensures DecodeBasicHtmlEntities(s) == DecodedOnce(s)
  {
    EntitiesDecodable();
    ChainIsOnePass(s, ENTITIES);
  }

  lemma NameSpelt(s: string)
    requires 1 < |s| <= 6 && s[0] == '&' && NameChar(s[1]) && s[1] != '&'
    requires |s| > 2 ==> NameChar(s[2]) && s[2] != '&'
    requires |s| > 3 ==> NameChar(s[3]) && s[3] != '&'
    requires |s| > 4 ==> NameChar(s[4]) && s[4] != '&'
    requires |s| > 5 ==> NameChar(s[5]) && s[5] != '&'
    ensures IsName(s)
  {
  }

  lemma EntityNames(i: nat)
    requires i < 7
    ensures |ENTITIES| == 7 && IsName(ENTITIES[i].name) && (i < 6 ==> !NameChar(ENTITIES[i].plain))
  {
    hide IsName;
    NameSpelt(ENTITIES[i].name);
  }

  lemma EntitiesDecodable()
    ensures Decodable(ENTITIES)
  {
    hide IsName;
    forall i | 0 <= i < 7
      ensures IsName(ENTITIES[i].name) && (i < 6 ==> !NameChar(ENTITIES[i].plain))
    {
      EntityNames(i);
    }
  }

  /** The entities used for escaping, the ampersand first. */
  const ESCAPES: seq<Entity> := [
    Entity("&amp;", '&'),
    Entity("&lt;", '<'),
    Entity("&gt;", '>'),
    Entity("&quot;", '"'),
    Entity("&#39;", '\'')
  ]

  /** Every c becomes the text t. */
  function ReplaceChar(s: string, c: char, t: string): string {
    if s == "" then "" else Spelt(s[0], c, t) + ReplaceChar(s[1..], c, t)
  }

  function Spelt(x: char, c: char, t: string): string {
    if x == c then t else [x]
  }

  function EscapeChain(s: string, escapes: seq<Entity>): string {
    if escapes == [] then s
    else
      var n := |escapes| - 1;
      ReplaceChar(EscapeChain(s, escapes[..n]), escapes[n].plain, escapes[n].name)
  }

  function EscapeHtml(s: string): string {
    EscapeChain(s, ESCAPES)
  }

  lemma Associate(a: string, b: string, c: string)
    ensures a + (b + c) == (a + b) + c
  {
  }

  lemma {:induction false} ReplaceCharOfConcat(a: string, b: string, c: char, t: string)
    ensures ReplaceChar(a + b, c, t) == ReplaceChar(a, c, t) + ReplaceChar(b, c, t)
  {
    if a == "" {
      assert a + b == b;
    } else {
      hide Spelt;
      ReplaceCharOfConcat(a[1..], b, c, t);
      assert (a + b)[1..] == a[1..] + b;
      Associate(Spelt(a[0], c, t), ReplaceChar(a[1..], c, t), ReplaceChar(b, c, t));
    }
  }

  lemma {:induction false} EscapeChainOfConcat(a: string, b: string, escapes: seq<Entity>)
    ensures EscapeChain(a + b, escapes) == EscapeChain(a, escapes) + EscapeChain(b, escapes)
  {
    if escapes != [] {
      var n := |escapes| - 1;
      EscapeChainOfConcat(a, b, escapes[..n]);
      ReplaceCharOfConcat(EscapeChain(a, escapes[..n]), EscapeChain(b, escapes[..n]),
                          escapes[n].plain, escapes[n].name);
    }
  }

  lemma {:induction false} ReplaceCharAbsent(s: string, c: char, t: string)
    requires !Occurs(c, s)
    ensures ReplaceChar(s, c, t) == s
  {
    if s != "" {
      assert forall i :: 0 <= i < |s[1..]| ==> s[1..][i] == s[i + 1];
      ReplaceCharAbsent(s[1..], c, t);
    }
  }

  /** The names of earlier escapes hold none of the characters escaped later, and no character is escaped twice. */
  ghost predicate Escapable(escapes: seq<Entity>) {
    && (forall i :: 0 <= i < |escapes| ==> IsName(escapes[i].name) && (i > 0 ==> !NameChar(escapes[i].plain)))
    && (forall i, j :: 0 <= i < j < |escapes| ==> escapes[i].plain != escapes[j].plain)
  }

  /** The entity a character is escaped to, if any. */
  function EscapeIndex(c: char, escapes: seq<Entity>): (r: int)
    ensures -1 <= r < |escapes| && (r >= 0 ==> escapes[r].plain == c)
    ensures r < 0 ==> forall i :: 0 <= i < |escapes| ==> escapes[i].plain != c
  {
    if escapes == [] then -1
    else
      var n := |escapes| - 1;
      var r := EscapeIndex(c, escapes[..n]);
      if r >= 0 then r else if escapes[n].plain == c then n else -1
  }

  /** The chained replacements escape each character on its own. */
  lemma {:induction false} EscapeOne(c: char, escapes: seq<Entity>)
    requires Escapable(escapes)
    ensures EscapeChain([c], escapes) ==
            var r := EscapeIndex(c, escapes); if r >= 0 then escapes[r].name else [c]
  {
    if escapes != [] {
      var n := |escapes| - 1;
      assert forall i :: 0 <= i < n ==> escapes[..n][i] == escapes[i];
      EscapeOne(c, escapes[..n]);
      var r := EscapeIndex(c, escapes[..n]);
      if r >= 0 {
        assert IsName(escapes[r].name) && !NameChar(escapes[n].plain);
        ReplaceCharAbsent(escapes[r].name, escapes[n].plain, escapes[n].name);
      } else if escapes[n].plain == c {
        assert ReplaceChar([c], c, escapes[n].name) == escapes[n].name + ReplaceChar([c][1..], c, escapes[n].name);
      } else {
        ReplaceCharAbsent([c], escapes[n].plain, escapes[n].name);
      }
    }
  }

  lemma EscapesEscapable()
    ensures Escapable(ESCAPES)
  {
    hide IsName;
    forall i | 0 <= i < |ESCAPES|
      ensures IsName(ESCAPES[i].name)
    {
      NameSpelt(ESCAPES[i].name);
    }
  }

  /** An escaped character at the front is the one entity that matches there. */
  lemma EscapeMatches(c: char, rest: string)
    ensures var r, s := EscapeIndex(c, ESCAPES), EscapeChain([c], ESCAPES) + rest;
      var m := Match(s, ENTITIES);
      if r >= 0 then m >= 0 && ENTITIES[m] == ESCAPES[r] else m == -1
  {
    EscapesEscapable();
    EscapeOne(c, ESCAPES);
    EntitiesDecodable();
    var r, s := EscapeIndex(c, ESCAPES), EscapeChain([c], ESCAPES) + rest;
    if r < 0 {
      assert c != ESCAPES[0].plain;
      NoMatchOffAmpersand(s, ENTITIES);
    } else {
      EscapeListed(r, s);
    }
  }

  /** The escapes are among the entities, whose names are told apart by their second or third character. */
  lemma EscapeListed(r: nat, s: string)
    requires r < |ESCAPES| && HasPrefix(s, ESCAPES[r].name)
    ensures var m := Match(s, ENTITIES); m >= 0 && ENTITIES[m] == ESCAPES[r]
  {
    var k := if r == 0 then 6 else if r == 1 then 4 else if r == 2 then 5 else if r == 3 then 3 else 1;
    assert ENTITIES[k] == ESCAPES[r];
    var m := Match(s, ENTITIES);
    var a, b := ENTITIES[m].name, ENTITIES[k].name;
    assert s[1] == s[..|a|][1] == a[1] && s[1] == s[..|b|][1] == b[1];
    assert s[2] == s[..|a|][2] == a[2] && s[2] == s[..|b|][2] == b[2];
  }

  /** Escaped text holds no character that opens or closes markup or an attribute value. */
  lemma {:induction false} EscapedHasNoMarkup(s: string)
    ensures forall i :: 0 <= i < |EscapeHtml(s)| ==> EscapeHtml(s)[i] !in "<>\"'"
  {
    if s == "" {
      EscapeNothing(ESCAPES);
    } else {
      EscapedHasNoMarkup(s[1..]);
      assert s == [s[0]] + s[1..];
      EscapeChainOfConcat([s[0]], s[1..], ESCAPES);
      EscapedCharHasNoMarkup(s[0]);
      var one, rest := EscapeHtml([s[0]]), EscapeHtml(s[1..]);
      assert EscapeHtml(s) == one + rest;
    }
  }

  lemma EscapedCharHasNoMarkup(c: char)
    ensures forall i :: 0 <= i < |EscapeHtml([c])| ==> EscapeHtml([c])[i] !in "<>\"'"
  {
    EscapesEscapable();
    EscapeOne(c, ESCAPES);
    var r := EscapeIndex(c, ESCAPES);
    if r >= 0 {
      assert IsName(ESCAPES[r].name);
      assert forall d :: NameChar(d) ==> d !in "<>\"'";
    } else {
      assert ESCAPES[1].plain != c && ESCAPES[2].plain != c && ESCAPES[3].plain != c && ESCAPES[4].plain != c;
    }
  }

  /** Decoding gives back any text that was escaped. */
  lemma {:induction false} DecodeUndoesEscape(s: string)
    ensures DecodeBasicHtmlEntities(EscapeHtml(s)) == s
  {
    EntitiesDecodable();
    DecodeIsOnePass(EscapeHtml(s));
    PassUndoesEscape(s);
  }

  lemma {:induction false} PassUndoesEscape(s: string)
    ensures DecodedOnce(EscapeHtml(s)) == s
  {
    EntitiesDecodable();
    if s == "" {
      EscapeNothing(ESCAPES);
    } else {
      PassUndoesEscape(s[1..]);
      var rest := EscapeHtml(s[1..]);
      assert s == [s[0]] + s[1..];
      EscapeChainOfConcat([s[0]], s[1..], ESCAPES);
      EscapeMatches(s[0], rest);
      EscapesEscapable();
      EscapeOne(s[0], ESCAPES);
      var one := EscapeChain([s[0]], ESCAPES);
      assert (one + rest)[|one|..] == rest;
    }
  }

  lemma {:induction false} EscapeNothing(escapes: seq<Entity>)
    ensures EscapeChain("", escapes) == ""
  {
    if escapes != [] {
      EscapeNothing(escapes[..|escapes| - 1]);
    }
  }

  // ---- Entity by entity ---------------------------------------------------------------------

  /** No two entities can start at one place: their names differ in the second or third character. */
  lemma OnlyMatch(i: nat, s: string)
    requires i < 7 && HasPrefix(s, ENTITIES[i].name)
    ensures Match(s, ENTITIES) == i
  {
    var m := Match(s, ENTITIES);
    var a, b := ENTITIES[m].name, ENTITIES[i].name;
    assert s[1] == s[..|a|][1] == a[1] && s[1] == s[..|b|][1] == b[1];
    assert s[2] == s[..|a|][2] == a[2] && s[2] == s[..|b|][2] == b[2];
  }

  lemma EntityInFront(i: nat, s: string)
    requires i < 7
    ensures DecodeBasicHtmlEntities(ENTITIES[i].name + s) == [ENTITIES[i].plain] + DecodeBasicHtmlEntities(s)
  {
    var name := ENTITIES[i].name;
    var t := name + s;
    EntitiesDecodable();
    EntityNames(i);
    assert t[..|name|] == name && t[|name|..] == s;
    OnlyMatch(i, t);
    DecodeIsOnePass(t);
    DecodeIsOnePass(s);
    hide Match;
    hide IsName;
    hide DecodeBasicHtmlEntities;
  }

  /** What each entity decodes to, whatever follows it; a character that opens none stays. */
  lemma DecodedEntities(s: string, c: char)
    ensures DecodeBasicHtmlEntities("&nbsp;" + s) == " " + DecodeBasicHtmlEntities(s)
    ensures DecodeBasicHtmlEntities("&#39;" + s) == "'" + DecodeBasicHtmlEntities(s)
    ensures DecodeBasicHtmlEntities("&#x27;" + s) == "'" + DecodeBasicHtmlEntities(s)
    ensures DecodeBasicHtmlEntities("&quot;" + s) == "\"" + DecodeBasicHtmlEntities(s)
    ensures DecodeBasicHtmlEntities("&lt;" + s) == "<" + DecodeBasicHtmlEntities(s)
    ensures DecodeBasicHtmlEntities("&gt;" + s) == ">" + DecodeBasicHtmlEntities(s)
    ensures DecodeBasicHtmlEntities("&amp;" + s) == "&" + DecodeBasicHtmlEntities(s)
    ensures c != '&' ==> DecodeBasicHtmlEntities([c] + s) == [c] + DecodeBasicHtmlEntities(s)
  {
    EntityInFront(0, s);
    EntityInFront(1, s);
    EntityInFront(2, s);
    EntityInFront(3, s);
    EntityInFront(4, s);
    EntityInFront(5, s);
    EntityInFront(6, s);
    if c != '&' {
      OtherInFront(c, s);
    }
    hide DecodeBasicHtmlEntities;
  }

  lemma OtherInFront(c: char, s: string)
    requires c != '&'
    ensures DecodeBasicHtmlEntities([c] + s) == [c] + DecodeBasicHtmlEntities(s)
  {
    EntitiesDecodable();
    NoMatchOffAmpersand([c] + s, ENTITIES);
    DecodeIsOnePass([c] + s);
    DecodeIsOnePass(s);
    assert ([c] + s)[1..] == s;
    hide Match;
    hide IsName;
    hide DecodeBasicHtmlEntities;
  }

  /** What each character is escaped to. */
  function EscapedAs(c: char): string {
    if c == '&' then "&amp;" else if c == '<' then "&lt;" else if c == '>' then "&gt;"
    else if c == '"' then "&quot;" else if c == '\'' then "&#39;" else [c]
  }

  lemma OneEscaped(c: char)
    ensures EscapeHtml([c]) == EscapedAs(c)
  {
    EscapesEscapable();
    EscapeOne(c, ESCAPES);
    var r := EscapeIndex(c, ESCAPES);
    if r < 0 {
      assert c != ESCAPES[0].plain && c != ESCAPES[1].plain && c != ESCAPES[2].plain && c != ESCAPES[3].plain
             && c != ESCAPES[4].plain;
    }
    hide EscapeIndex;
    hide EscapeChain;
  }

  /** Escaping works character by character. */
  lemma EscapedCharacters(c: char, s: string)
    ensures EscapeHtml([c] + s) ==
      (if c == '&' then "&amp;" else if c == '<' then "&lt;" else if c == '>' then "&gt;"
       else if c == '"' then "&quot;" else if c == '\'' then "&#39;" else [c]) + EscapeHtml(s)
  {
    EscapeChainOfConcat([c], s, ESCAPES);
    OneEscaped(c);
    hide EscapeChain;
  }
}
