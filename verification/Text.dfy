/** Character classes and trimming shared by the text scanners. */
module Text {

  predicate IsDigit(c: char) { '0' <= c <= '9' }

  predicate IsAlpha(c: char) { 'a' <= c <= 'z' || 'A' <= c <= 'Z' }

  /** ASCII letters, digits and underscore. */
  predicate IsWord(c: char) { IsAlpha(c) || IsDigit(c) || c == '_' }

  predicate IsAsciiSpace(c: char) {
    c == ' ' || c == '\t' || c == '\n' || c == '\r' || c == 0xC as char
  }

  /** The Unicode White_Space property. */
  predicate IsSpace(c: char) {
    var n := c as int;
    0x9 <= n <= 0xD || n == 0x20 || n == 0x85 || n == 0xA0 || n == 0x1680 || 0x2000 <= n <= 0x200A
    || n == 0x2028 || n == 0x2029 || n == 0x202F || n == 0x205F || n == 0x3000
  }

  /** The white space characters one by one. */
  lemma SpaceCharacters(c: char)
    ensures IsSpace(c) <==> c as int in {
      0x9, 0xA, 0xB, 0xC, 0xD, 0x20, 0x85, 0xA0, 0x1680, 0x2000, 0x2001, 0x2002, 0x2003, 0x2004, 0x2005, 0x2006, 0x2007,
      0x2008, 0x2009, 0x200A, 0x2028, 0x2029, 0x202F, 0x205F, 0x3000}
  {
  }

  function LowerChar(c: char): char {
    if 'A' <= c <= 'Z' then ((c as int) + 32) as char else c
  }

  function Lower(s: string): (r: string)
    ensures |r| == |s|
  {
    if s == "" then "" else [LowerChar(s[0])] + Lower(s[1..])
  }

  predicate HasPrefix(s: string, prefix: string) {
    |prefix| <= |s| && s[..|prefix|] == prefix
  }

  lemma OtherFirst(s: string, prefix: string)
    requires s != "" && prefix != "" && s[0] != prefix[0]
    ensures !HasPrefix(s, prefix)
  {
    assert |prefix| <= |s| ==> s[..|prefix|][0] == s[0];
  }

  lemma OtherAt(s: string, prefix: string, i: nat)
    requires i < |s| && i < |prefix| && s[i] != prefix[i]
    ensures !HasPrefix(s, prefix)
  {
    assert |prefix| <= |s| ==> s[..|prefix|][i] == s[i];
  }

  predicate HasSuffix(s: string, suffix: string) {
    |suffix| <= |s| && s[|s| - |suffix|..] == suffix
  }

  predicate IsTail(r: string, s: string) {
    |r| <= |s| && r == s[|s| - |r|..]
  }

  lemma TailOfTail(r: string, s: string, t: string)
    requires IsTail(r, s) && IsTail(s, t)
    ensures IsTail(r, t)
  {
  }

  lemma TailOfConcat(a: string, b: string)
    requires a != ""
    ensures (a + b)[0] == a[0] && (a + b)[1..] == a[1..] + b
  {
  }

  function TrimStart(s: string): (r: string)
    ensures |r| <= |s| && IsTail(r, s)
    ensures r != "" ==> !IsSpace(r[0])
  {
    if s != "" && IsSpace(s[0]) then TrimStart(s[1..]) else s
  }

  function TrimEnd(s: string): (r: string)
    ensures r <= s
    ensures r != "" ==> !IsSpace(r[|r| - 1])
  {
    if s != "" && IsSpace(s[|s| - 1]) then TrimEnd(s[..|s| - 1]) else s
  }

  function Trim(s: string): string {
    TrimEnd(TrimStart(s))
  }

  predicate Occurs(c: char, s: string) {
    exists i :: 0 <= i < |s| && s[i] == c
  }

  /** What remains of a tail after trimming its end is also the end of the trimmed whole. */
  lemma {:induction false} TrimEndOfTail(s: string, k: nat)
    requires k <= |s| && TrimEnd(s[k..]) != ""
    ensures TrimEnd(s) == s[..k] + TrimEnd(s[k..])
  {
    hide IsSpace;
    assert s[k..][|s| - k - 1] == s[|s| - 1];
    if IsSpace(s[|s| - 1]) {
      assert s[k..][..|s| - k - 1] == s[..|s| - 1][k..];
      TrimEndOfTail(s[..|s| - 1], k);
      assert s[..|s| - 1][..k] == s[..k];
    } else {
      assert s == s[..k] + s[k..];
    }
  }

  const CAPITALS := "ABCDEFGHIJKLMNOPQRSTUVWXYZ"
  const SMALL_LETTERS := "abcdefghijklmnopqrstuvwxyz"

  /** Each capital becomes the small letter in its place. */
  lemma LowerCase(i: nat)
    requires i < 26
    ensures LowerChar(CAPITALS[i]) == SMALL_LETTERS[i]
  {
  }

  /** Nothing else changes. */
  lemma OnlyCapitalsChange(c: char)
    ensures LowerChar(c) == c || c in CAPITALS
  {
    if 'A' <= c <= 'Z' {
      assert CAPITALS[c as int - 65] == c;
    }
  }

  /** The word characters one by one. */
  lemma LettersAreWord(i: nat)
    requires i < 26
    ensures IsWord(CAPITALS[i]) && IsWord(SMALL_LETTERS[i])
  {
  }

  lemma OthersAreWord(i: nat)
    requires i < 11
    ensures IsWord("0123456789_"[i])
  {
  }

  lemma NoOthersAreWord(c: char)
    requires IsWord(c)
    ensures c in CAPITALS || c in SMALL_LETTERS || c in "0123456789_"
  {
    if IsDigit(c) {
      assert "0123456789_"[c as int - 48] == c;
    } else if 'A' <= c <= 'Z' {
      assert CAPITALS[c as int - 65] == c;
    } else if 'a' <= c <= 'z' {
      assert SMALL_LETTERS[c as int - 97] == c;
    } else {
      assert "0123456789_"[10] == c;
    }
  }

  /** Letter by letter. */
  lemma {:induction false} LowerAt(s: string, i: nat)
    requires i < |s|
    ensures Lower(s)[i] == LowerChar(s[i])
  {
    hide LowerChar;
    if i > 0 {
      LowerAt(s[1..], i - 1);
    }
  }
}
