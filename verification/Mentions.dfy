/** Hashtags and account handles in a text. */
module Mentions {
  import opened Text
  import opened Sequences

  // ---- Where a tag or a handle starts -------------------------------------------------------

  /** A marker that does not follow a word character and is followed by one. */
  predicate Starts(text: string, marker: char, i: nat) {
    && i + 1 < |text| && text[i] == marker && IsWord(text[i + 1])
    && (i > 0 ==> !IsWord(text[i - 1]))
  }

  predicate IsDomainChar(c: char) {
    IsAlpha(c) || IsDigit(c) || c == '-' || c == '.'
  }

  /** Letters, digits, hyphens and dots, and no underscore. */
  lemma DomainCharacters(c: char)
    ensures IsDomainChar(c) <==> (IsWord(c) && c != '_') || c in "-."
  {
    assert "-."[0] == '-' && "-."[1] == '.';
  }

  /** The first position from i on that does not hold a word character. */
  function WordEnd(text: string, i: nat): (e: nat)
    requires i <= |text|
    ensures i <= e <= |text|
    ensures forall k :: i <= k < e ==> IsWord(text[k])
    ensures e < |text| ==> !IsWord(text[e])
    decreases |text| - i
  {
    if i < |text| && IsWord(text[i]) then WordEnd(text, i + 1) else i
  }

  function DomainEnd(text: string, i: nat): (e: nat)
    requires i <= |text|
    ensures i <= e <= |text|
    ensures forall k :: i <= k < e ==> IsDomainChar(text[k])
    ensures e < |text| ==> !IsDomainChar(text[e])
    decreases |text| - i
  {
    if i < |text| && IsDomainChar(text[i]) then DomainEnd(text, i + 1) else i
  }

  method SkipWord(text: string, start: nat) returns (end: nat)
    requires start <= |text|
    ensures end == WordEnd(text, start)
  {
    end := start;
    while end < |text| && IsWord(text[end])
      invariant start <= end <= |text| && WordEnd(text, start) == WordEnd(text, end)
    {
      end := end + 1;
    }
  }

  method SkipDomain(text: string, start: nat) returns (end: nat)
    requires start <= |text|
    ensures end == DomainEnd(text, start)
  {
    end := start;
    while end < |text| && IsDomainChar(text[end])
      invariant start <= end <= |text| && DomainEnd(text, start) == DomainEnd(text, end)
    {
      end := end + 1;
    }
  }

  // ---- Hashtags -----------------------------------------------------------------------------

  function TagAt(text: string, i: nat): string
    requires i < |text|
  {
    Lower(text[i + 1..WordEnd(text, i + 1)])
  }

  /** The tag at every place where one starts, up to position n. */
  function TagsBefore(text: string, n: nat): seq<string>
    requires n <= |text|
  {
    if n == 0 then []
    else TagsBefore(text, n - 1) + (if Starts(text, '#', n - 1) then [TagAt(text, n - 1)] else [])
  }

  lemma TagStep(text: string, i: nat)
    requires i < |text|
    ensures TagsBefore(text, i + 1) ==
            if Starts(text, '#', i) then TagsBefore(text, i) + [TagAt(text, i)] else TagsBefore(text, i)
  {
  }

  lemma {:induction false} TagsListed(text: string, n: nat)
    requires n <= |text|
    ensures forall t :: t in TagsBefore(text, n) <==>
                        exists i :: 0 <= i < n && Starts(text, '#', i) && t == TagAt(text, i)
  {
    if n > 0 {
      TagsListed(text, n - 1);
    }
  }

  /** The result lists, each once, exactly the tags at the places where one starts. */
  lemma HashtagsMeaning(text: string)
    ensures var tags := FirstOccurrences(TagsBefore(text, |text|));
      && (forall t :: t in tags <==> exists i :: 0 <= i < |text| && Starts(text, '#', i) && t == TagAt(text, i))
      && InOrder(tags, TagsBefore(text, |text|))
  {
    TagsListed(text, |text|);
    FirstOccurrencesMeaning(TagsBefore(text, |text|));
  }

  lemma {:induction false} NoTagsBetween(text: string, from: nat, to: nat)
    requires from <= to <= |text| && forall k :: from <= k < to ==> !Starts(text, '#', k)
    ensures TagsBefore(text, to) == TagsBefore(text, from)
  {
    if from < to {
      NoTagsBetween(text, from, to - 1);
    }
  }

  /** Taking the tag at i and going on behind it. */
  lemma TagTaken(text: string, i: nat)
    requires Starts(text, '#', i)
    ensures var end := WordEnd(text, i + 1);
      var tag, before := Lower(text[i + 1..end]), FirstOccurrences(TagsBefore(text, i));
      FirstOccurrences(TagsBefore(text, end)) == if tag in before then before else before + [tag]
  {
    var end := WordEnd(text, i + 1);
    TagStep(text, i);
    NoTagsBetween(text, i + 1, end);
    FirstOccurrencesSnoc(TagsBefore(text, i), TagAt(text, i));
  }

  lemma NoTagYet(text: string)
    ensures FirstOccurrences(TagsBefore(text, 0)) == []
  {
  }

  method ExtractHashtagsFromText(text: string) returns (tags: seq<string>)
    ensures tags == FirstOccurrences(TagsBefore(text, |text|))
  {
    hide TagAt;
    hide TagsBefore;
    hide FirstOccurrences;
    NoTagYet(text);
    tags := [];
    var seen: set<string> := {};
    var index := 0;
    while index < |text|
      invariant index <= |text| && tags == FirstOccurrences(TagsBefore(text, index))
      invariant forall t :: t in seen <==> t in tags
    {
      TagStep(text, index);
      if text[index] != '#' {
        index := index + 1;
        continue;
      }
      if index > 0 && IsWord(text[index - 1]) {
        index := index + 1;
        continue;
      }
      var end := SkipWord(text, index + 1);
      if end == index + 1 {
        index := index + 1;
        continue;
      }
      var tag := Lower(text[index + 1..end]);
      TagTaken(text, index);
      if tag !in seen {
        seen, tags := seen + {tag}, tags + [tag];
      }
      index := end;
    }
  }

  // ---- Handles ------------------------------------------------------------------------------

  datatype Handle = Handle(username: string, domain: string)

  /** Where the handle at i ends: behind its domain, if an `@` and at least one domain character follow the name. */
  function HandleEnd(text: string, i: nat): (e: nat)
    requires i < |text|
    ensures i < e <= |text|
  {
    var end := WordEnd(text, i + 1);
    if end < |text| && text[end] == '@' && DomainEnd(text, end + 1) > end + 1
    then DomainEnd(text, end + 1) else end
  }

  /** A handle without a domain belongs to this instance. */
  function HandleAt(text: string, i: nat, host: string): Handle
    requires i < |text|
  {
    var end := WordEnd(text, i + 1);
    Handle(Lower(text[i + 1..end]),
           if HandleEnd(text, i) == end then host else Lower(text[end + 1..HandleEnd(text, i)]))
  }

  function HandlesBefore(text: string, host: string, n: nat): seq<Handle>
    requires n <= |text|
  {
    if n == 0 then []
    else HandlesBefore(text, host, n - 1) + (if Starts(text, '@', n - 1) then [HandleAt(text, n - 1, host)] else [])
  }

  lemma HandleStep(text: string, host: string, i: nat)
    requires i < |text|
    ensures HandlesBefore(text, host, i + 1) ==
            if Starts(text, '@', i) then HandlesBefore(text, host, i) + [HandleAt(text, i, host)]
            else HandlesBefore(text, host, i)
  {
  }

  lemma {:induction false} HandlesListed(text: string, host: string, n: nat)
    requires n <= |text|
    ensures forall h :: h in HandlesBefore(text, host, n) <==>
                        exists i :: 0 <= i < n && Starts(text, '@', i) && h == HandleAt(text, i, host)
  {
    hide HandleAt;
    if n > 0 {
      HandlesListed(text, host, n - 1);
    }
  }

  /** The result lists, each once, exactly the handles at the places where one starts. */
  lemma HandlesMeaning(text: string, host: string)
    ensures var handles := FirstOccurrences(HandlesBefore(text, host, |text|));
      && (forall h :: h in handles <==>
                      exists i :: 0 <= i < |text| && Starts(text, '@', i) && h == HandleAt(text, i, host))
      && InOrder(handles, HandlesBefore(text, host, |text|))
  {
    hide HandleAt;
    HandlesListed(text, host, |text|);
    FirstOccurrencesMeaning(HandlesBefore(text, host, |text|));
  }

  lemma {:induction false} NoHandlesBetween(text: string, host: string, from: nat, to: nat)
    requires from <= to <= |text| && forall k :: from <= k < to ==> !Starts(text, '@', k)
    ensures HandlesBefore(text, host, to) == HandlesBefore(text, host, from)
  {
    if from < to {
      NoHandlesBetween(text, host, from, to - 1);
    }
  }

  /** Jumping over a handle and its domain skips no other handle. */
  lemma NoHandleInside(text: string, i: nat)
    requires Starts(text, '@', i)
    ensures forall k :: i < k < HandleEnd(text, i) ==> !Starts(text, '@', k)
  {
    var end := WordEnd(text, i + 1);
    assert end > i + 1 && IsWord(text[end - 1]);
  }

  /** The text under which a handle is remembered. */
  function Key(h: Handle): string {
    h.username + "@" + h.domain
  }

  lemma KeyIdentifies(g: Handle, h: Handle)
    requires Key(g) == Key(h) && !Occurs('@', g.username) && !Occurs('@', h.username)
    ensures g == h
  {
    MarkerAtEnd(g, h);
    MarkerAtEnd(h, g);
    assert g.username == Key(g)[..|g.username|] == h.username;
    assert g.domain == Key(g)[|g.username| + 1..] == h.domain;
  }

  lemma MarkerAtEnd(g: Handle, h: Handle)
    requires Key(g) == Key(h) && !Occurs('@', h.username)
    ensures |h.username| <= |g.username|
  {
    assert Key(g)[|g.username|] == '@';
    assert forall i :: 0 <= i < |h.username| ==> Key(h)[i] == h.username[i] != '@';
  }

  lemma {:induction false} LowerHasNoMarker(s: string)
    requires forall i :: 0 <= i < |s| ==> IsWord(s[i])
    ensures !Occurs('@', Lower(s))
  {
    if s != "" {
      LowerHasNoMarker(s[1..]);
      assert Lower(s) == [LowerChar(s[0])] + Lower(s[1..]);
    }
  }

  /** The keys under which these handles are remembered. */
  function Remembered(handles: seq<Handle>): set<string> {
    set h | h in handles :: Key(h)
  }

  ghost predicate NamesAreWords(handles: seq<Handle>) {
    forall h :: h in handles ==> !Occurs('@', h.username)
  }

  lemma RememberNone()
    ensures Remembered([]) == {} && NamesAreWords([])
  {
  }

  lemma RememberOne(handles: seq<Handle>, h: Handle)
    requires NamesAreWords(handles) && !Occurs('@', h.username)
    ensures Key(h) in Remembered(handles) <==> h in handles
    ensures Remembered(handles + [h]) == Remembered(handles) + {Key(h)}
    ensures NamesAreWords(handles + [h])
  {
    if Key(h) in Remembered(handles) {
      var g :| g in handles && Key(g) == Key(h);
      KeyIdentifies(g, h);
    }
  }

  /** Reads the handle that starts at i. */
  method ReadHandle(text: string, i: nat, host: string) returns (handle: Handle, next: nat)
    requires Starts(text, '@', i)
    ensures handle == HandleAt(text, i, host) && next == HandleEnd(text, i)
    ensures !Occurs('@', handle.username)
  {
    hide IsDomainChar;
    hide DomainEnd;
    var end := SkipWord(text, i + 1);
    var name := text[i + 1..end];
    assert forall k :: 0 <= k < |name| ==> IsWord(name[k]);
    LowerHasNoMarker(name);
    var domain := host;
    next := end;
    if next < |text| && text[next] == '@' {
      var domainEnd := SkipDomain(text, next + 1);
      if domainEnd > next + 1 {
        domain := Lower(text[next + 1..domainEnd]);
        next := domainEnd;
      }
    }
    handle := Handle(Lower(name), domain);
  }

  method ExtractAccountHandlesFromText(text: string, host: string) returns (mentions: seq<Handle>)
    ensures mentions == FirstOccurrences(HandlesBefore(text, host, |text|))
  {
    hide HandleAt;
    hide HandleEnd;
    hide Key;
    hide Remembered;
    hide NamesAreWords;
    mentions := [];
    var seen: set<string> := {};
    var index := 0;
    RememberNone();
    while index < |text|
      invariant index <= |text| && mentions == FirstOccurrences(HandlesBefore(text, host, index))
      invariant NamesAreWords(mentions) && seen == Remembered(mentions)
    {
      HandleStep(text, host, index);
      if text[index] != '@' {
        index := index + 1;
        continue;
      }
      if index > 0 && IsWord(text[index - 1]) {
        index := index + 1;
        continue;
      }
      var end := SkipWord(text, index + 1);
      if end == index + 1 {
        index := index + 1;
        continue;
      }
      var handle, nextIndex := ReadHandle(text, index, host);
      FirstOccurrencesSnoc(HandlesBefore(text, host, index), handle);
      NoHandleInside(text, index);
      NoHandlesBetween(text, host, index + 1, nextIndex);
      RememberOne(mentions, handle);
      if Key(handle) !in seen {
        seen, mentions := seen + {Key(handle)}, mentions + [handle];
      }
      index := nextIndex;
    }
  }

  // ---- Written tags and handles -------------------------------------------------------------

  ghost predicate AllWord(s: string) {
    forall i :: 0 <= i < |s| ==> IsWord(s[i])
  }

  lemma {:induction false} WordEndIs(text: string, i: nat, e: nat)
    requires i <= e <= |text| && (forall k :: i <= k < e ==> IsWord(text[k])) && (e < |text| ==> !IsWord(text[e]))
    ensures WordEnd(text, i) == e
    decreases e - i
  {
    hide IsWord;
    if i < e {
      WordEndIs(text, i + 1, e);
    }
  }

  lemma {:induction false} DomainEndIs(text: string, i: nat, e: nat)
    requires i <= e <= |text| && (forall k :: i <= k < e ==> IsDomainChar(text[k])) && (e < |text| ==> !IsDomainChar(text[e]))
    ensures DomainEnd(text, i) == e
    decreases e - i
  {
    hide IsDomainChar;
    if i < e {
      DomainEndIs(text, i + 1, e);
    }
  }

  /** A marked word in a text. */
  lemma MarkedWord(before: string, marker: char, word: string, after: string)
    requires word != "" && AllWord(word) && (before != "" ==> !IsWord(before[|before| - 1]))
    requires after != "" ==> !IsWord(after[0])
    ensures var text, i := before + [marker] + word + after, |before|;
      && i + 1 + |word| <= |text| && Starts(text, marker, i) && WordEnd(text, i + 1) == i + 1 + |word|
      && text[i + 1..i + 1 + |word|] == word && text[i + 1 + |word|..] == after
  {
    var text, i := before + [marker] + word + after, |before|;
    hide IsWord;
    assert forall k :: 0 <= k < |word| ==> text[i + 1 + k] == word[k];
    assert i > 0 ==> text[i - 1] == before[i - 1];
    forall k | i + 1 <= k < i + 1 + |word|
      ensures IsWord(text[k])
    {
      assert text[k] == word[k - i - 1];
    }
    assert after != "" ==> text[i + 1 + |word|] == after[0];
    WordEndIs(text, i + 1, i + 1 + |word|);
  }

  /** A marker inside a word, or with no word behind it, starts nothing. */
  lemma NothingStartsInside(before: string, marker: char, after: string)
    requires (before != "" && IsWord(before[|before| - 1])) || after == "" || !IsWord(after[0])
    ensures !Starts(before + [marker] + after, marker, |before|)
  {
    var text, i := before + [marker] + after, |before|;
    assert i > 0 ==> text[i - 1] == before[i - 1];
    assert after != "" ==> text[i + 1] == after[0];
  }

  /** A tag written anywhere is found, in lower case. */
  lemma WrittenTagIsFound(before: string, word: string, after: string)
    requires word != "" && AllWord(word) && (before != "" ==> !IsWord(before[|before| - 1]))
    requires after != "" ==> !IsWord(after[0])
    ensures var text := before + "#" + word + after; Lower(word) in FirstOccurrences(TagsBefore(text, |text|))
  {
    var text := before + "#" + word + after;
    MarkedWord(before, '#', word, after);
    HashtagsMeaning(text);
    hide TagsBefore;
    hide WordEnd;
    hide IsWord;
    hide FirstOccurrences;
    assert Lower(word) == TagAt(text, |before|);
  }

  /** A name without a domain behind it is this instance's. */
  lemma WrittenNameIsFound(before: string, name: string, after: string, host: string)
    requires name != "" && AllWord(name) && (before != "" ==> !IsWord(before[|before| - 1]))
    requires after != "" ==> !IsWord(after[0]) && (after[0] == '@' && |after| > 1 ==> !IsDomainChar(after[1]))
    ensures var text := before + "@" + name + after;
      Handle(Lower(name), host) in FirstOccurrences(HandlesBefore(text, host, |text|))
  {
    var text, end := before + "@" + name + after, |before| + 1 + |name|;
    MarkedWord(before, '@', name, after);
    HandlesMeaning(text, host);
    hide HandlesBefore;
    hide WordEnd;
    hide IsWord;
    hide FirstOccurrences;
    assert after != "" ==> text[end] == after[0];
    assert |after| > 1 ==> text[end + 1] == after[1];
    if end < |text| {
      DomainEndIs(text, end + 1, if end + 1 < |text| && IsDomainChar(text[end + 1]) then DomainEnd(text, end + 1) else end + 1);
    }
    hide IsDomainChar;
    assert HandleEnd(text, |before|) == end;
    assert HandleAt(text, |before|, host) == Handle(Lower(name), host);
  }

  lemma HandleWithDomain(text: string, i: nat, host: string, end: nat, name: string, domain: string)
    requires i < end < |text| && WordEnd(text, i + 1) == end && text[i + 1..end] == name && text[end] == '@'
    requires domain != "" && end + 1 + |domain| <= |text| && text[end + 1..end + 1 + |domain|] == domain
    requires DomainEnd(text, end + 1) == end + 1 + |domain|
    ensures HandleAt(text, i, host) == Handle(Lower(name), Lower(domain))
  {
    hide WordEnd;
    hide DomainEnd;
    hide Lower;
    var next := end + 1 + |domain|;
    assert next > end + 1;
    assert HandleEnd(text, i) == next;
    assert next != end;
  }

  lemma HandleListed(text: string, i: nat, host: string)
    requires Starts(text, '@', i)
    ensures HandleAt(text, i, host) in FirstOccurrences(HandlesBefore(text, host, |text|))
  {
    HandlesMeaning(text, host);
    hide HandleAt;
  }

  /** A name and a domain are found in lower case. */
  lemma WrittenHandleIsFound(before: string, name: string, domain: string, after: string, host: string)
    requires name != "" && AllWord(name) && (before != "" ==> !IsWord(before[|before| - 1]))
    requires domain != "" && (forall i :: 0 <= i < |domain| ==> IsDomainChar(domain[i]))
    requires after != "" ==> !IsDomainChar(after[0])
    ensures var text := before + "@" + name + ("@" + domain + after);
      Handle(Lower(name), Lower(domain)) in FirstOccurrences(HandlesBefore(text, host, |text|))
  {
    var behind := "@" + domain + after;
    var text, end := before + "@" + name + behind, |before| + 1 + |name|;
    assert behind[0] == '@' && !IsWord('@');
    hide *;
    MarkedWord(before, '@', name, behind);
    DomainBehind(text, end, domain, after);
    HandleWithDomain(text, |before|, host, end, name, domain);
    HandleListed(text, |before|, host);
  }

  lemma DomainBehind(text: string, end: nat, domain: string, after: string)
    requires end <= |text| && text[end..] == "@" + domain + after
    requires domain != "" && (forall i :: 0 <= i < |domain| ==> IsDomainChar(domain[i]))
    requires after != "" ==> !IsDomainChar(after[0])
    ensures end < |text| && text[end] == '@' && end + 1 + |domain| <= |text|
    ensures DomainEnd(text, end + 1) == end + 1 + |domain| && text[end + 1..end + 1 + |domain|] == domain
  {
    var rest := text[end..];
    hide IsDomainChar;
    assert forall k :: 0 <= k < |rest| ==> text[end + k] == rest[k];
    assert forall i :: 0 <= i < |domain| ==> rest[1 + i] == domain[i];
    forall k | end + 1 <= k < end + 1 + |domain|
      ensures IsDomainChar(text[k])
    {
      assert text[k] == rest[k - end] == domain[k - end - 1];
    }
    assert after != "" ==> rest[1 + |domain|] == after[0];
    DomainEndIs(text, end + 1, end + 1 + |domain|);
    assert text[end + 1..end + 1 + |domain|] == rest[1..1 + |domain|] == domain;
  }
}
