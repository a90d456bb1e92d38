/** Keeping the first occurrence of every element of a sequence. */
module Sequences {

  function FirstOccurrences<T(==)>(s: seq<T>): seq<T> {
    if s == [] then []
    else
      var kept, last := FirstOccurrences(s[..|s| - 1]), s[|s| - 1];
      if last in kept then kept else kept + [last]
  }

  /** x stands somewhere before y first does. */
  ghost predicate Precedes<T>(s: seq<T>, x: T, y: T) {
    exists k :: 0 <= k < |s| && s[k] == x && y !in s[..k]
  }

  lemma PrecedesInLonger<T>(s: seq<T>, z: T, x: T, y: T)
    requires Precedes(s, x, y) || (x in s && y !in s)
    ensures Precedes(s + [z], x, y)
  {
    var k: nat;
    if y in s {
      k :| k < |s| && s[k] == x && y !in s[..k];
    } else {
      k :| k < |s| && s[k] == x;
    }
    assert (s + [z])[..k] == s[..k] && (s + [z])[k] == x;
  }

  ghost predicate InOrder<T>(r: seq<T>, s: seq<T>) {
    forall i, j :: 0 <= i < j < |r| ==> r[i] != r[j] && Precedes(s, r[i], r[j])
  }

  /** The same elements, each once, ordered by where they first stand. */
  lemma {:induction false} FirstOccurrencesMeaning<T(!new)>(s: seq<T>)
    ensures forall x :: x in FirstOccurrences(s) <==> x in s
    ensures InOrder(FirstOccurrences(s), s)
  {
    if s != [] {
      var n := |s| - 1;
      var init := s[..n];
      var kept, r := FirstOccurrences(init), FirstOccurrences(s);
      FirstOccurrencesMeaning(init);
      assert s == init + [s[n]];
      forall i, j | 0 <= i < j < |r|
        ensures r[i] != r[j] && Precedes(s, r[i], r[j])
      {
        assert r[i] == kept[i] && kept[i] in kept;
        PrecedesInLonger(init, s[n], r[i], r[j]);
      }
    }
  }

  lemma FirstOccurrencesSnoc<T>(s: seq<T>, x: T)
    ensures FirstOccurrences(s + [x]) ==
            if x in FirstOccurrences(s) then FirstOccurrences(s) else FirstOccurrences(s) + [x]
  {
    assert (s + [x])[..|s|] == s;
  }
}
