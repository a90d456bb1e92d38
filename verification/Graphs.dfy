/** Reachability in a finite directed graph, shared by the module-layer check and the dump splitter. */
module Graphs {

  /** A graph is the successor set of each node; a node without an entry has no successors. */
  type Graph<T> = map<T, set<T>>

  function Succs<T>(g: Graph<T>, n: T): set<T> {
    if n in g then g[n] else {}
  }

  ghost predicate IsWalk<T>(g: Graph<T>, p: seq<T>) {
    && p != []
    && forall i :: 0 <= i < |p| - 1 ==> p[i + 1] in Succs(g, p[i])
  }

  ghost predicate IsWalkFromTo<T>(g: Graph<T>, p: seq<T>, a: T, b: T) {
    IsWalk(g, p) && p[0] == a && p[|p| - 1] == b
  }

  /** b can be reached from a by following zero or more edges. */
  ghost predicate Reaches<T(!new)>(g: Graph<T>, a: T, b: T) {
    exists p :: IsWalkFromTo(g, p, a, b)
  }

  /** No edge leaves s. */
  ghost predicate Closed<T(!new)>(g: Graph<T>, s: set<T>) {
    forall n, m :: n in s && m in Succs(g, n) ==> m in s
  }

  lemma ReachesSelf<T(!new)>(g: Graph<T>, a: T)
    ensures Reaches(g, a, a)
  {
    assert IsWalkFromTo(g, [a], a, a);
  }

  lemma ReachesEdge<T(!new)>(g: Graph<T>, a: T, b: T)
    requires b in Succs(g, a)
    ensures Reaches(g, a, b)
  {
    assert IsWalkFromTo(g, [a, b], a, b);
  }

  lemma ReachesTransitive<T(!new)>(g: Graph<T>, a: T, b: T, c: T)
    requires Reaches(g, a, b) && Reaches(g, b, c)
    ensures Reaches(g, a, c)
  {
    var p :| IsWalkFromTo(g, p, a, b);
    var q :| IsWalkFromTo(g, q, b, c);
    var r := p + q[1..];
    forall i | 0 <= i < |r| - 1
      ensures r[i + 1] in Succs(g, r[i])
    {
      if i >= |p| - 1 {
        assert r[i] == q[i - |p| + 1] && r[i + 1] == q[i - |p| + 2];
      }
    }
    assert IsWalkFromTo(g, r, a, c);
  }

  /** A closed set traps every walk that enters it. */
  lemma ClosedTraps<T(!new)>(g: Graph<T>, s: set<T>, a: T, b: T)
    requires Closed(g, s) && a in s && Reaches(g, a, b)
    ensures b in s
  {
    var p :| IsWalkFromTo(g, p, a, b);
    var i := 0;
    while i < |p| - 1
      invariant 0 <= i <= |p| - 1
      invariant p[i] in s
    {
      assert p[i + 1] in Succs(g, p[i]);
      i := i + 1;
    }
  }
}
