/** Rendering text as status markup, and making untrusted markup safe through it. */
module StatusHtml {
  import opened Text
  import opened Entities
  import HtmlText

  /** `split("\n\n")`: never empty. */
  function Paragraphs(s: string): (parts: seq<string>)
    ensures parts != []
    decreases |s|
  {
    if s == "" then [""]
    else if HasPrefix(s, "\n\n") then [""] + Paragraphs(s[2..])
    else
      var rest := Paragraphs(s[1..]);
      [[s[0]] + rest[0]] + rest[1..]
  }

  function WithBreaks(s: string): string {
    ReplaceChar(s, '\n', "<br />")
  }

  function Wrapped(paragraphs: seq<string>): string {
    if paragraphs == [] then ""
    else "<p>" + (WithBreaks(paragraphs[0]) + ("</p>" + Wrapped(paragraphs[1..])))
  }

  function RenderStatusHtml(text: string): string {
    Wrapped(Paragraphs(EscapeHtml(Trim(text))))
  }

  function SanitizeRemoteStatusHtml(html: string): string {
    RenderStatusHtml(DecodeBasicHtmlEntities(HtmlText.Stripped(html, false)))
  }

  // ---- No markup but our own ----------------------------------------------------------------

  /** Nothing that could open or close a tag or an attribute value. */
  ghost predicate Harmless(s: string) {
    forall i :: 0 <= i < |s| ==> s[i] !in "<>\"'"
  }

  /** Made of `<p>`, `</p>`, `<br />` and harmless characters. */
  ghost predicate OwnTagsOnly(s: string)
    decreases |s|
  {
    || s == ""
    || (s[0] !in "<>\"'" && OwnTagsOnly(s[1..]))
    || (HasPrefix(s, "<p>") && OwnTagsOnly(s[3..]))
    || (HasPrefix(s, "</p>") && OwnTagsOnly(s[4..]))
    || (HasPrefix(s, "<br />") && OwnTagsOnly(s[6..]))
  }

  lemma TagInFront(tag: string, s: string)
    requires tag == "<p>" || tag == "</p>" || tag == "<br />"
    requires OwnTagsOnly(s)
    ensures OwnTagsOnly(tag + s)
  {
    assert (tag + s)[..|tag|] == tag && (tag + s)[|tag|..] == s;
  }

  lemma CharInFront(c: char, s: string)
    requires c !in "<>\"'" && OwnTagsOnly(s)
    ensures OwnTagsOnly([c] + s)
  {
    assert ([c] + s)[1..] == s;
  }

  lemma BreaksStep(c: char, s: string)
    ensures WithBreaks([c] + s) == (if c == '\n' then "<br />" else [c]) + WithBreaks(s)
  {
    assert ([c] + s)[1..] == s;
  }

  lemma {:induction false} ParagraphInFront(p: string, s: string)
    requires Harmless(p) && OwnTagsOnly(s)
    ensures OwnTagsOnly(WithBreaks(p) + s)
  {
    hide OwnTagsOnly;
    if p == "" {
      assert WithBreaks(p) + s == s;
    } else {
      ParagraphInFront(p[1..], s);
      BreaksStep(p[0], p[1..]);
      hide WithBreaks;
      assert p == [p[0]] + p[1..];
      var rest := WithBreaks(p[1..]) + s;
      if p[0] == '\n' {
        TagInFront("<br />", rest);
        assert WithBreaks(p) + s == "<br />" + rest;
      } else {
        CharInFront(p[0], rest);
        assert WithBreaks(p) + s == [p[0]] + rest;
      }
    }
  }

  ghost predicate AllHarmless(paragraphs: seq<string>) {
    forall i :: 0 <= i < |paragraphs| ==> Harmless(paragraphs[i])
  }

  lemma {:induction false} WrappedOwnTags(paragraphs: seq<string>)
    requires AllHarmless(paragraphs)
    ensures OwnTagsOnly(Wrapped(paragraphs))
  {
    if paragraphs != [] {
      hide OwnTagsOnly;
      hide Harmless;
      hide WithBreaks;
      var rest := Wrapped(paragraphs[1..]);
      WrappedOwnTags(paragraphs[1..]);
      TagInFront("</p>", rest);
      ParagraphInFront(paragraphs[0], "</p>" + rest);
      TagInFront("<p>", WithBreaks(paragraphs[0]) + ("</p>" + rest));
    }
  }

  lemma {:induction false} ParagraphsHarmless(s: string)
    requires Harmless(s)
    ensures AllHarmless(Paragraphs(s))
    decreases |s|
  {
    if s != "" {
      ParagraphsHarmless(if HasPrefix(s, "\n\n") then s[2..] else s[1..]);
    }
  }

  /** Whatever the input, the only markup in the output is `<p>`, `</p>` and `<br />`. */
  lemma RenderedIsSafe(text: string)
    ensures OwnTagsOnly(RenderStatusHtml(text))
  {
    EscapedHasNoMarkup(Trim(text));
    ParagraphsHarmless(EscapeHtml(Trim(text)));
    WrappedOwnTags(Paragraphs(EscapeHtml(Trim(text))));
  }

  lemma SanitizedIsSafe(html: string)
    ensures OwnTagsOnly(SanitizeRemoteStatusHtml(html))
  {
    RenderedIsSafe(DecodeBasicHtmlEntities(HtmlText.Stripped(html, false)));
  }

  // ---- Nothing but line breaks is lost ------------------------------------------------------

  function OneLine(s: string): string {
    ReplaceChar(s, '\n', "")
  }

  lemma OneLineStep(c: char, s: string)
    ensures OneLine([c] + s) == (if c == '\n' then "" else [c]) + OneLine(s)
  {
    assert ([c] + s)[1..] == s;
  }

  lemma TagStripped(tag: string, content: string, s: string)
    requires tag == "<" + (content + ">") && !Occurs('>', content)
    ensures HtmlText.Stripped(tag + s, false) == HtmlText.Stripped(s, false)
  {
    var t := tag + s;
    assert t[0] == '<' && t[1..] == content + (">" + s);
    HtmlText.TagDropped(content, s);
  }

  lemma OwnTagsStripped(s: string)
    ensures HtmlText.Stripped("<p>" + s, false) == HtmlText.Stripped(s, false)
    ensures HtmlText.Stripped("</p>" + s, false) == HtmlText.Stripped(s, false)
    ensures HtmlText.Stripped("<br />" + s, false) == HtmlText.Stripped(s, false)
  {
    TagStripped("<p>", "p", s);
    TagStripped("</p>", "/p", s);
    TagStripped("<br />", "br /", s);
  }

  lemma {:induction false} ParagraphStripped(p: string, s: string)
    requires Harmless(p)
    ensures HtmlText.Stripped(WithBreaks(p) + s, false) == OneLine(p) + HtmlText.Stripped(s, false)
  {
    if p == "" {
      assert WithBreaks(p) + s == s;
    } else {
      ParagraphStripped(p[1..], s);
      BreaksStep(p[0], p[1..]);
      OneLineStep(p[0], p[1..]);
      hide WithBreaks;
      hide OneLine;
      assert p == [p[0]] + p[1..];
      var rest := WithBreaks(p[1..]) + s;
      if p[0] == '\n' {
        OwnTagsStripped(rest);
        assert WithBreaks(p) + s == "<br />" + rest;
      } else {
        assert !Occurs('<', [p[0]]) && !Occurs('>', [p[0]]);
        HtmlText.PlainKept([p[0]], rest);
        assert WithBreaks(p) + s == [p[0]] + rest;
      }
    }
  }

  function AllInOneLine(paragraphs: seq<string>): string {
    if paragraphs == [] then "" else OneLine(paragraphs[0]) + AllInOneLine(paragraphs[1..])
  }

  lemma {:induction false} WrappedStripped(paragraphs: seq<string>)
    requires AllHarmless(paragraphs)
    ensures HtmlText.Stripped(Wrapped(paragraphs), false) == AllInOneLine(paragraphs)
  {
    if paragraphs != [] {
      hide Harmless;
      hide WithBreaks;
      hide OneLine;
      hide HtmlText.Stripped;
      var rest := Wrapped(paragraphs[1..]);
      WrappedStripped(paragraphs[1..]);
      OwnTagsStripped(rest);
      ParagraphStripped(paragraphs[0], "</p>" + rest);
      OwnTagsStripped(WithBreaks(paragraphs[0]) + ("</p>" + rest));
    } else {
      assert HtmlText.Stripped("", false) == "";
    }
  }

  lemma ParagraphGrows(c: char, rest: seq<string>)
    requires rest != []
    ensures AllInOneLine([[c] + rest[0]] + rest[1..]) == (if c == '\n' then "" else [c]) + AllInOneLine(rest)
  {
    OneLineStep(c, rest[0]);
    FirstParagraph([c] + rest[0], rest[1..]);
    FirstParagraph(rest[0], rest[1..]);
    hide OneLine;
    hide AllInOneLine;
    assert rest == [rest[0]] + rest[1..];
    Associate(if c == '\n' then "" else [c], OneLine(rest[0]), AllInOneLine(rest[1..]));
  }

  lemma FirstParagraph(p: string, rest: seq<string>)
    ensures AllInOneLine([p] + rest) == OneLine(p) + AllInOneLine(rest)
  {
    hide OneLine;
    assert ([p] + rest)[1..] == rest;
  }

  lemma {:induction false} ParagraphsInOneLine(s: string)
    ensures AllInOneLine(Paragraphs(s)) == OneLine(s)
    decreases |s|
  {
    if s != "" {
      if HasPrefix(s, "\n\n") {
        ParagraphsInOneLine(s[2..]);
        OneLineStep('\n', s[2..]);
        OneLineStep('\n', "\n" + s[2..]);
        assert s == s[..2] + s[2..] && s == "\n" + ("\n" + s[2..]);
        assert ([""] + Paragraphs(s[2..]))[1..] == Paragraphs(s[2..]);
      } else {
        ParagraphsInOneLine(s[1..]);
        OneLineStep(s[0], s[1..]);
        ParagraphGrows(s[0], Paragraphs(s[1..]));
        hide OneLine;
        hide AllInOneLine;
        assert s == [s[0]] + s[1..];
      }
    }
  }

  /** Escaping does not touch line breaks. */
  lemma {:induction false} EscapedOneLine(s: string)
    ensures OneLine(EscapeHtml(s)) == EscapeHtml(OneLine(s))
  {
    if s == "" {
      EscapeNothing(ESCAPES);
    } else {
      EscapedOneLine(s[1..]);
      assert s == [s[0]] + s[1..];
      EscapeChainOfConcat([s[0]], s[1..], ESCAPES);
      OneLineStep(s[0], s[1..]);
      ReplaceCharOfConcat(EscapeHtml([s[0]]), EscapeHtml(s[1..]), '\n', "");
      EscapedChar(s[0]);
      hide EscapeHtml;
      if s[0] != '\n' {
        EscapedInFront(s[0], OneLine(s[1..]));
      } else {
        assert "" + OneLine(s[1..]) == OneLine(s[1..]);
      }
    }
  }

  lemma EscapedInFront(c: char, s: string)
    ensures EscapeHtml([c] + s) == EscapeHtml([c]) + EscapeHtml(s)
  {
    EscapeChainOfConcat([c], s, ESCAPES);
  }

  lemma EscapedChar(c: char)
    ensures OneLine(EscapeHtml([c])) == if c == '\n' then "" else EscapeHtml([c])
  {
    EscapesEscapable();
    EscapeOne(c, ESCAPES);
    var r := EscapeIndex(c, ESCAPES);
    if r >= 0 {
      assert IsName(ESCAPES[r].name) && !NameChar('\n');
      ReplaceCharAbsent(ESCAPES[r].name, '\n', "");
    } else if c == '\n' {
      assert [c][1..] == "" && ReplaceChar("", '\n', "") == "";
    } else {
      ReplaceCharAbsent([c], '\n', "");
    }
  }

  /** Stripped and decoded, rendered text is the trimmed text without its line breaks. */
  lemma {:induction false} RenderedKeepsText(text: string)
    ensures DecodeBasicHtmlEntities(HtmlText.Stripped(RenderStatusHtml(text), false)) == OneLine(Trim(text))
  {
    var trimmed := Trim(text);
    EscapedHasNoMarkup(trimmed);
    ParagraphsHarmless(EscapeHtml(trimmed));
    WrappedStripped(Paragraphs(EscapeHtml(trimmed)));
    ParagraphsInOneLine(EscapeHtml(trimmed));
    EscapedOneLine(trimmed);
    DecodeUndoesEscape(OneLine(trimmed));
  }

  /** Stripped of its tags, decoded, rendered and read again, untrusted markup keeps its text but for line breaks. */
  lemma SanitizedKeepsText(pieces: seq<HtmlText.Piece>)
    requires forall i :: 0 <= i < |pieces| ==> HtmlText.WellFormed(pieces[i])
    ensures DecodeBasicHtmlEntities(HtmlText.Stripped(SanitizeRemoteStatusHtml(HtmlText.Render(pieces)), false)) ==
            OneLine(Trim(DecodeBasicHtmlEntities(HtmlText.PlainText(pieces))))
  {
    HtmlText.TagsStripped(pieces);
    RenderedKeepsText(DecodeBasicHtmlEntities(HtmlText.PlainText(pieces)));
  }

  // ---- Paragraphs and line breaks -----------------------------------------------------------

  /** A blank line between one paragraph and the next. */
  function WithBlankLines(paragraphs: seq<string>): string {
    if paragraphs == [] then ""
    else if |paragraphs| == 1 then paragraphs[0]
    else paragraphs[0] + ("\n\n" + WithBlankLines(paragraphs[1..]))
  }

  predicate HasBlankLine(s: string) {
    exists i :: 0 <= i < |s| - 1 && s[i] == '\n' && s[i + 1] == '\n'
  }

  lemma LongerFirst(c: char, parts: seq<string>)
    requires parts != []
    ensures WithBlankLines([[c] + parts[0]] + parts[1..]) == [c] + WithBlankLines(parts)
  {
    var longer := [[c] + parts[0]] + parts[1..];
    if |parts| == 1 {
      assert longer == [[c] + parts[0]];
    } else {
      assert longer[1..] == parts[1..];
      var rest := "\n\n" + WithBlankLines(parts[1..]);
      assert [c] + parts[0] + rest == [c] + (parts[0] + rest);
    }
  }

  /** Text is the paragraphs it is split into, with a blank line between each two. */
  lemma {:induction false} ParagraphsJoined(s: string)
    ensures WithBlankLines(Paragraphs(s)) == s
    decreases |s|
  {
    if s != "" {
      if HasPrefix(s, "\n\n") {
        var rest := Paragraphs(s[2..]);
        ParagraphsJoined(s[2..]);
        assert ([""] + rest)[1..] == rest;
        assert s == s[..2] + s[2..] && "" + ("\n\n" + s[2..]) == s;
      } else {
        ParagraphsJoined(s[1..]);
        LongerFirst(s[0], Paragraphs(s[1..]));
        assert s == [s[0]] + s[1..];
      }
    }
  }

  /** The first paragraph is the front of the text. */
  lemma {:induction false} FirstParagraphIsFront(s: string)
    ensures Paragraphs(s)[0] <= s
    decreases |s|
  {
    if s != "" && !HasPrefix(s, "\n\n") {
      FirstParagraphIsFront(s[1..]);
      assert s == [s[0]] + s[1..];
    }
  }

  lemma NoBlankLineInFront(c: char, p: string)
    requires !HasBlankLine(p) && !(c == '\n' && p != "" && p[0] == '\n')
    ensures !HasBlankLine([c] + p)
  {
    var q := [c] + p;
    assert forall i :: 0 <= i < |p| ==> q[i + 1] == p[i];
    forall i | 0 <= i < |q| - 1
      ensures !(q[i] == '\n' && q[i + 1] == '\n')
    {
      if i > 0 {
        assert q[i] == p[i - 1] && q[i + 1] == p[i - 1 + 1];
      }
    }
  }

  ghost predicate NoneHasBlankLine(parts: seq<string>) {
    forall i :: 0 <= i < |parts| ==> !HasBlankLine(parts[i])
  }

  lemma TwoBreaks(s: string)
    requires |s| > 1 && s[0] == '\n' && s[1] == '\n'
    ensures HasPrefix(s, "\n\n")
  {
    assert s[..2] == "\n\n";
  }

  /** No paragraph has a blank line in it. */
  lemma {:induction false} ParagraphsAreSplit(s: string)
    ensures NoneHasBlankLine(Paragraphs(s))
    decreases |s|
  {
    if s != "" {
      if HasPrefix(s, "\n\n") {
        ParagraphsAreSplit(s[2..]);
      } else {
        var rest := Paragraphs(s[1..]);
        ParagraphsAreSplit(s[1..]);
        FirstParagraphIsFront(s[1..]);
        if |s| > 1 && s[0] == '\n' && s[1] == '\n' {
          TwoBreaks(s);
        }
        NoBlankLineInFront(s[0], rest[0]);
        hide HasBlankLine;
      }
    }
  }

  /** What rendered markup says: a line break for `<br />`, a blank line between paragraphs. */
  function ReadBack(s: string): string {
    if s == "" then ""
    else if HasPrefix(s, "<br />") then "\n" + ReadBack(s[6..])
    else if HasPrefix(s, "</p><p>") then "\n\n" + ReadBack(s[7..])
    else if HasPrefix(s, "</p>") then ReadBack(s[4..])
    else if HasPrefix(s, "<p>") then ReadBack(s[3..])
    else [s[0]] + ReadBack(s[1..])
  }

  lemma ReadBreak(s: string)
    ensures ReadBack("<br />" + s) == "\n" + ReadBack(s)
  {
    assert ("<br />" + s)[..6] == "<br />" && ("<br />" + s)[6..] == s;
  }

  lemma ReadBetween(s: string)
    ensures ReadBack("</p>" + ("<p>" + s)) == "\n\n" + ReadBack(s)
  {
    var t := "</p>" + ("<p>" + s);
    assert t[..7] == "</p><p>" && t[7..] == s;
    assert t[1] == '/' && "<br />"[1] == 'b';
    OtherAt(t, "<br />", 1);
  }

  lemma ReadLast()
    ensures ReadBack("</p>") == ""
  {
    assert "</p>"[..4] == "</p>" && "</p>"[4..] == "";
  }

  lemma ReadOpening(s: string)
    ensures ReadBack("<p>" + s) == ReadBack(s)
  {
    var t := "<p>" + s;
    assert t[..3] == "<p>" && t[3..] == s && t[1] == 'p';
    OtherAt(t, "<br />", 1);
    OtherAt(t, "</p><p>", 1);
    OtherAt(t, "</p>", 1);
  }

  lemma ReadPlain(c: char, s: string)
    requires c != '<'
    ensures ReadBack([c] + s) == [c] + ReadBack(s)
  {
    var t := [c] + s;
    assert t[0] == c && t[1..] == s;
    OtherAt(t, "<br />", 0);
    OtherAt(t, "</p><p>", 0);
    OtherAt(t, "</p>", 0);
    OtherAt(t, "<p>", 0);
  }

  lemma {:induction false} ParagraphReadBack(p: string, s: string)
    requires Harmless(p)
    ensures ReadBack(WithBreaks(p) + s) == p + ReadBack(s)
  {
    hide ReadBack;
    if p == "" {
      assert WithBreaks(p) + s == s && p + ReadBack(s) == ReadBack(s);
    } else {
      var rest := WithBreaks(p[1..]) + s;
      ParagraphReadBack(p[1..], s);
      BreaksStep(p[0], p[1..]);
      assert p == [p[0]] + p[1..];
      hide WithBreaks;
      if p[0] == '\n' {
        ReadBreak(rest);
        assert WithBreaks(p) + s == "<br />" + rest;
      } else {
        ReadPlain(p[0], rest);
        assert WithBreaks(p) + s == [p[0]] + rest;
      }
      assert p + ReadBack(s) == [p[0]] + (p[1..] + ReadBack(s));
    }
  }

  lemma {:induction false} WrappedReadBack(paragraphs: seq<string>)
    requires AllHarmless(paragraphs)
    ensures ReadBack(Wrapped(paragraphs)) == WithBlankLines(paragraphs)
  {
    hide Harmless;
    hide ReadBack;
    hide WithBreaks;
    if paragraphs == [] {
      ReadNothing();
    } else {
      var p, rest := paragraphs[0], paragraphs[1..];
      ReadOpening(WithBreaks(p) + ("</p>" + Wrapped(rest)));
      ParagraphReadBack(p, "</p>" + Wrapped(rest));
      if rest == [] {
        ReadLast();
        assert "</p>" + "" == "</p>" && p + "" == p;
      } else {
        WrappedReadBack(rest);
        var behind := WithBreaks(rest[0]) + ("</p>" + Wrapped(rest[1..]));
        ReadOpening(behind);
        ReadBetween(behind);
      }
    }
  }

  lemma ReadNothing()
    ensures ReadBack("") == ""
  {
  }

  /** Read back with its paragraphs and line breaks and decoded, rendered text is the trimmed text. */
  lemma RenderedReadsBack(text: string)
    ensures DecodeBasicHtmlEntities(ReadBack(RenderStatusHtml(text))) == Trim(text)
  {
    var trimmed := Trim(text);
    EscapedHasNoMarkup(trimmed);
    ParagraphsHarmless(EscapeHtml(trimmed));
    WrappedReadBack(Paragraphs(EscapeHtml(trimmed)));
    ParagraphsJoined(EscapeHtml(trimmed));
    DecodeUndoesEscape(trimmed);
    hide *;
    RenderedAre(text);
  }

  lemma RenderedAre(text: string)
    ensures RenderStatusHtml(text) == Wrapped(Paragraphs(EscapeHtml(Trim(text))))
  {
  }
}
