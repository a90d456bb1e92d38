/** The prefix of a use line: its leading `ident::` segments, as the pattern `(ident::)*(.+)` splits it off. */
module UsePrefixes {
  import opened Text

  function WordLen(s: string): (n: nat)
    ensures n <= |s| && forall i :: 0 <= i < n ==> IsWord(s[i])
    ensures n < |s| ==> !IsWord(s[n])
  {
    if s != "" && IsWord(s[0]) then 1 + WordLen(s[1..]) else 0
  }

  /** The length of a leading identifier with two colons behind it, if there is one. */
  function Segment(s: string): (n: nat)
    ensures n <= |s|
  {
    var w := WordLen(s);
    if s != "" && (IsAlpha(s[0]) || s[0] == '_') && HasPrefix(s[w..], "::") then w + 2 else 0
  }

  /** As many segments as there are, as long as something follows them. */
  function Prefix(s: string): (p: string)
    ensures p <= s && (s != "" ==> |p| < |s|)
    decreases |s|
  {
    var n := Segment(s);
    if n == 0 || n == |s| then "" else s[..n] + Prefix(s[n..])
  }

  function Tail(s: string): string {
    s[|Prefix(s)|..]
  }

  /** Nothing but segments. */
  ghost predicate IsPath(p: string)
    decreases |p|
  {
    p == "" || (Segment(p) > 0 && IsPath(p[Segment(p)..]))
  }

  lemma {:induction false} WordLenIs(s: string, n: nat)
    requires n <= |s| && (forall i :: 0 <= i < n ==> IsWord(s[i])) && (n < |s| ==> !IsWord(s[n]))
    ensures WordLen(s) == n
  {
    hide IsWord;
    if n > 0 {
      assert forall i :: 0 <= i < |s| - 1 ==> s[1..][i] == s[i + 1];
      WordLenIs(s[1..], n - 1);
    }
  }

  lemma SegmentColons(s: string)
    requires Segment(s) > 0
    ensures Segment(s) == WordLen(s) + 2 && s[WordLen(s)] == ':' && s[WordLen(s) + 1] == ':'
  {
    var w := WordLen(s);
    assert s[w..][..2] == "::";
    assert s[w..][0] == s[w] && s[w..][1] == s[w + 1];
  }

  /** A segment is found whatever stands behind it, and also when nothing does. */
  lemma SegmentStays(p: string, t: string)
    requires Segment(p) > 0
    ensures Segment(p + t) == Segment(p) && (p + t)[Segment(p)..] == p[Segment(p)..] + t
  {
    var s, w := p + t, WordLen(p);
    SegmentColons(p);
    assert s[w] == ':' && s[w + 1] == ':';
    assert !IsWord(':');
    WordLenIs(s, w);
    assert s[w..][..2] == "::";
  }

  lemma SegmentCut(s: string)
    requires Segment(s) > 0
    ensures Segment(s[..Segment(s)]) == Segment(s)
  {
    var n, w := Segment(s), WordLen(s);
    SegmentColons(s);
    var c := s[..n];
    assert c[w] == ':' && !IsWord(':');
    WordLenIs(c, w);
    assert c[w..] == "::";
  }

  lemma {:induction false} PrefixIsPath(s: string)
    ensures IsPath(Prefix(s))
    decreases |s|
  {
    var n := Segment(s);
    if n > 0 && n < |s| {
      PrefixIsPath(s[n..]);
      SegmentCut(s);
      SegmentStays(s[..n], Prefix(s[n..]));
      assert s[..n][n..] + Prefix(s[n..]) == Prefix(s[n..]);
    }
  }

  lemma PrefixStep(s: string)
    requires 0 < Segment(s) < |s|
    ensures Prefix(s) == s[..Segment(s)] + Prefix(s[Segment(s)..])
  {
    hide Segment;
  }

  lemma Associate(a: string, b: string, c: string)
    ensures (a + b) + c == a + (b + c)
  {
  }

  lemma {:induction false} PrefixBehind(p: string, t: string)
    requires IsPath(p) && t != ""
    ensures Prefix(p + t) == p + Prefix(t)
    decreases |p|
  {
    hide Segment;
    hide Prefix;
    if p == "" {
      assert p + t == t && p + Prefix(t) == Prefix(t);
    } else {
      var n := Segment(p);
      var first, rest := p[..n], p[n..];
      PrefixBehind(rest, t);
      SegmentStays(p, t);
      assert p == first + rest && (p + t)[..n] == first;
      PrefixStep(p + t);
      Associate(first, rest, Prefix(t));
    }
  }

  /** What is put behind a path is split off there, or later if it begins with segments itself. */
  lemma PrefixOfConcat(p: string, t: string)
    requires IsPath(p) && t != ""
    ensures Prefix(p + t) == p + Prefix(t) && Tail(p + t) == Tail(t)
  {
    PrefixBehind(p, t);
    hide Prefix;
    hide IsPath;
    assert (p + t)[|p| + |Prefix(t)|..] == t[|Prefix(t)|..];
  }

  predicate IsPathChar(c: char) {
    IsWord(c) || c == ':'
  }

  lemma {:induction false} PathChars(p: string)
    requires IsPath(p)
    ensures forall i :: 0 <= i < |p| ==> IsPathChar(p[i])
    decreases |p|
  {
    if p != "" {
      var n := Segment(p);
      SegmentColons(p);
      PathChars(p[n..]);
      forall i | 0 <= i < |p|
        ensures IsPathChar(p[i])
      {
        if i >= n {
          assert p[i] == p[n..][i - n];
        }
      }
    }
  }

  /** The last segment of a path is left to the tail. */
  lemma TailOfPath(p: string)
    requires IsPath(p) && p != ""
    ensures Tail(p) != "" && Trim(Tail(p)) == Tail(p) && p == Prefix(p) + Tail(p)
    ensures forall i :: 0 <= i < |Tail(p)| ==> IsPathChar(Tail(p)[i])
  {
    PathChars(p);
    TailSplits(p);
    hide Segment;
    hide Prefix;
    hide Tail;
    hide IsPath;
    hide IsPathChar;
    hide Trim;
    SolidTrim(Tail(p));
  }

  lemma TailSplits(s: string)
    ensures s == Prefix(s) + Tail(s) && (s != "" ==> Tail(s) != "")
    ensures forall i :: 0 <= i < |Tail(s)| ==> Tail(s)[i] in s
  {
    hide Segment;
    var n := |Prefix(s)|;
    assert forall i :: 0 <= i < |Tail(s)| ==> Tail(s)[i] == s[n + i];
  }

  lemma SolidTrim(t: string)
    requires t != "" && IsPathChar(t[0]) && IsPathChar(t[|t| - 1])
    ensures Trim(t) == t
  {
    NotSpace(t[0]);
    NotSpace(t[|t| - 1]);
    hide IsSpace;
    assert TrimStart(t) == t;
  }

  lemma NotSpace(c: char)
    requires IsPathChar(c)
    ensures !IsSpace(c)
  {
  }

  lemma NoPrefix(t: string)
    requires t != "" && !IsWord(t[0])
    ensures Prefix(t) == "" && Tail(t) == t
  {
  }

  /** An identifier: word characters, the first no digit. */
  predicate IsIdent(s: string) {
    s != "" && !IsDigit(s[0]) && forall i :: 0 <= i < |s| ==> IsWord(s[i])
  }

  /** An identifier with two colons behind it is a segment. */
  lemma WrittenSegment(ident: string, rest: string)
    requires IsIdent(ident)
    ensures Segment(ident + "::" + rest) == |ident| + 2
  {
    var s, w := ident + "::" + rest, |ident|;
    assert s[w] == ':' && s[w + 1] == ':' && !IsWord(':');
    WordLenIs(s, w);
    assert s[w..][..2] == "::";
  }

  /** And every segment is one. */
  lemma SegmentIsIdent(s: string)
    requires Segment(s) > 0
    ensures var w := Segment(s) - 2; w > 0 && IsIdent(s[..w]) && s[w..w + 2] == "::"
  {
    SegmentColons(s);
  }
}
