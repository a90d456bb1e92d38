/** Taking the tags out of HTML. */
module HtmlText {
  import opened Text

  function Stripped(s: string, inTag: bool): string {
    if s == "" then ""
    else if s[0] == '<' then Stripped(s[1..], true)
    else if s[0] == '>' then Stripped(s[1..], false)
    else (if inTag then "" else [s[0]]) + Stripped(s[1..], inTag)
  }

  method StripHtmlTags(html: string) returns (output: string)
    ensures output == Stripped(html, false)
  {
    hide Stripped;
    output := "";
    var inTag := false;
    assert html[0..] == html;
    for i := 0 to |html|
      invariant output + Stripped(html[i..], inTag) == Stripped(html, false)
    {
      StrippedStep(html, i, inTag);
      match html[i]
      case '<' => inTag := true;
      case '>' => inTag := false;
      case ch =>
        if !inTag {
          output := output + [ch];
        }
    }
    StrippedEnd(inTag);
    assert html[|html|..] == "" && output + "" == output;
  }

  lemma StrippedStep(s: string, i: nat, inTag: bool)
    requires i < |s|
    ensures Stripped(s[i..], inTag) ==
            if s[i] == '<' then Stripped(s[i + 1..], true)
            else if s[i] == '>' then Stripped(s[i + 1..], false)
            else (if inTag then "" else [s[i]]) + Stripped(s[i + 1..], inTag)
  {
    assert s[i..][1..] == s[i + 1..];
  }

  lemma StrippedEnd(inTag: bool)
    ensures Stripped("", inTag) == ""
  {
  }

  /** Markup as it is put together: text, and tags by what stands between their angle brackets. */
  datatype Piece = Plain(text: string) | Tag(content: string)

  function Render(pieces: seq<Piece>): string {
    if pieces == [] then ""
    else match pieces[0]
      case Plain(t) => t + Render(pieces[1..])
      case Tag(c) => "<" + (c + (">" + Render(pieces[1..])))
  }

  function PlainText(pieces: seq<Piece>): string {
    if pieces == [] then ""
    else (if pieces[0].Plain? then pieces[0].text else "") + PlainText(pieces[1..])
  }

  /** Text holds no angle bracket and a tag none that closes it. */
  ghost predicate WellFormed(p: Piece) {
    match p
    case Plain(t) => !Occurs('<', t) && !Occurs('>', t)
    case Tag(c) => !Occurs('>', c)
  }

  lemma {:induction false} PlainKept(t: string, s: string)
    requires !Occurs('<', t) && !Occurs('>', t)
    ensures Stripped(t + s, false) == t + Stripped(s, false)
  {
    if t == "" {
      assert t + s == s;
    } else {
      assert forall i :: 0 <= i < |t| - 1 ==> t[1..][i] == t[i + 1];
      PlainKept(t[1..], s);
      TailOfConcat(t, s);
      assert [t[0]] + (t[1..] + Stripped(s, false)) == t + Stripped(s, false);
    }
  }

  lemma {:induction false} TagDropped(c: string, s: string)
    requires !Occurs('>', c)
    ensures Stripped(c + (">" + s), true) == Stripped(s, false)
  {
    if c == "" {
      assert c + (">" + s) == ">" + s && (">" + s)[1..] == s;
    } else {
      assert forall i :: 0 <= i < |c| - 1 ==> c[1..][i] == c[i + 1];
      TagDropped(c[1..], s);
      TailOfConcat(c, ">" + s);
    }
  }

  /** Of well-formed markup exactly the text remains, whatever its tags hold. */
  lemma {:induction false} TagsStripped(pieces: seq<Piece>)
    requires forall i :: 0 <= i < |pieces| ==> WellFormed(pieces[i])
    ensures Stripped(Render(pieces), false) == PlainText(pieces)
  {
    if pieces != [] {
      TagsStripped(pieces[1..]);
      var rest := Render(pieces[1..]);
      match pieces[0]
      case Plain(t) => PlainKept(t, rest);
      case Tag(c) =>
        TagDropped(c, rest);
        assert ("<" + (c + (">" + rest)))[1..] == c + (">" + rest);
    }
  }

  /** No angle bracket comes through, well-formed or not. */
  lemma {:induction false} NoBracketLeft(s: string, inTag: bool)
    ensures !Occurs('<', Stripped(s, inTag)) && !Occurs('>', Stripped(s, inTag))
  {
    if s != "" {
      NoBracketLeft(s[1..], if s[0] == '<' then true else if s[0] == '>' then false else inTag);
    }
  }
}
