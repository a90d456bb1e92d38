/** The worker's module-layer guard: the largest strongly connected component of the import graph. */
module ModuleLayers {
  import opened Graphs

  const MAX_CYCLE_MODULES := 33

  datatype Module = Module(name: string)

  /** The import graph restricted to the known modules: imports of anything else are skipped. */
  function Restrict(edges: Graph<Module>, modules: set<Module>): Graph<Module> {
    map m | m in modules :: Succs(edges, m) * modules
  }

  ghost predicate Mutual(g: Graph<Module>, a: Module, b: Module) {
    Reaches(g, a, b) && Reaches(g, b, a)
  }

  /** A nonempty set of nodes that reach each other, and that no further node can join. */
  ghost predicate IsComponent(g: Graph<Module>, c: set<Module>) {
    && c != {}
    && c <= g.Keys
    && (forall a, b :: a in c && b in c ==> Mutual(g, a, b))
    && (forall a, b :: a in c && b in g && Mutual(g, a, b) ==> b in c)
  }

  ghost predicate IsLargestComponent(g: Graph<Module>, c: set<Module>, within: set<Module>) {
    if within == {} then c == {} else
      && IsComponent(g, c)
      && c <= within
      && forall d :: IsComponent(g, d) && d <= within ==> |d| <= |c|
  }

  /** Every edge target is a node again. */
  ghost predicate Total(g: Graph<Module>) {
    Closed(g, g.Keys)
  }

  function Elements(s: seq<Module>): set<Module> {
    set m | m in s
  }

  lemma MutualTransitive(g: Graph<Module>, a: Module, b: Module, c: Module)
    requires Mutual(g, a, b) && Mutual(g, b, c)
    ensures Mutual(g, a, c)
  {
    ReachesTransitive(g, a, b, c);
    ReachesTransitive(g, c, b, a);
  }

  lemma ComponentsOverlapEqual(g: Graph<Module>, c: set<Module>, d: set<Module>, x: Module)
    requires IsComponent(g, c) && IsComponent(g, d) && x in c && x in d
    ensures c == d
  {
    assert forall b | b in c :: Mutual(g, x, b);
    assert forall b | b in d :: Mutual(g, x, b);
  }

  // ---- The invariant of the depth-first search ---------------------------------------------

  /** Stack entries are numbered, oldest lowest. */
  ghost predicate Ascending(index: map<Module, nat>, stack: seq<Module>) {
    && (forall i :: 0 <= i < |stack| ==> stack[i] in index)
    && (forall i, j :: 0 <= i < j < |stack| ==> index[stack[i]] < index[stack[j]])
  }

  /** The bookkeeping of the search: numbering and stack fit together. */
  ghost predicate Numbered(g: Graph<Module>, index: map<Module, nat>, counter: nat, stack: seq<Module>) {
    && index.Keys <= g.Keys
    && (forall m :: m in index ==> index[m] < counter)
    && Ascending(index, stack)
  }

  /** Numbered but popped again: these belong to finished components. */
  function Done(index: map<Module, nat>, stack: seq<Module>): set<Module> {
    index.Keys - Elements(stack)
  }

  /** Older stack entries reach younger ones. */
  ghost predicate Downward(g: Graph<Module>, stack: seq<Module>) {
    forall i, j :: 0 <= i <= j < |stack| ==> Reaches(g, stack[i], stack[j])
  }

  /** y reaches a module of `active` that is not younger. */
  ghost predicate Anchored(g: Graph<Module>, index: map<Module, nat>, active: set<Module>, y: Module)
    requires y in index && active <= index.Keys
  {
    exists a :: a in active && index[a] <= index[y] && Reaches(g, y, a)
  }

  /**
   What holds between any two steps of the search, `active` being the modules whose
   `visit` call has not returned.
   */
  ghost predicate SearchInv(g: Graph<Module>, index: map<Module, nat>, counter: nat,
                            stack: seq<Module>, active: set<Module>)
  {
    && Numbered(g, index, counter, stack)
    && active <= Elements(stack)
    && Closed(g, Done(index, stack))
    && Downward(g, stack)
    && (forall m, s :: m in index && m !in active && s in Succs(g, m) ==> s in index)
    && (forall y {:trigger Anchored(g, index, active, y)} :: y in stack ==> Anchored(g, index, active, y))
  }

  /** A visit may start at x: every active module reaches it. */
  ghost predicate AllReach(g: Graph<Module>, active: set<Module>, x: Module) {
    forall a :: a in active ==> Reaches(g, a, x)
  }

  /** Edges from the part of the stack above `base` into the part below it end no lower than `low`. */
  ghost predicate LowCovers(g: Graph<Module>, index: map<Module, nat>, stack: seq<Module>,
                            base: nat, from: nat, low: nat)
    requires base <= from <= |stack| && Ascending(index, stack)
  {
    forall i, j :: from <= i < |stack| && 0 <= j < base && stack[j] in Succs(g, stack[i])
                   ==> low <= index[stack[j]]
  }

  /** Some stack entry reachable from x carries the number `low`. */
  ghost predicate LowAttained(g: Graph<Module>, index: map<Module, nat>, stack: seq<Module>, x: Module, low: nat)
    requires Ascending(index, stack)
  {
    exists j :: 0 <= j < |stack| && index[stack[j]] == low && Reaches(g, x, stack[j])
  }

  /** Numbering a module that every active module reaches, and pushing it. */
  lemma PushKeepsInv(g: Graph<Module>, index: map<Module, nat>, counter: nat, stack: seq<Module>,
                     active: set<Module>, x: Module)
    requires SearchInv(g, index, counter, stack, active)
    requires x in g && x !in index && AllReach(g, active, x)
    ensures SearchInv(g, index[x := counter], counter + 1, stack + [x], active + {x})
    ensures Done(index[x := counter], stack + [x]) == Done(index, stack)
    ensures Elements(stack + [x]) == Elements(stack) + {x}
    ensures Ascending(index[x := counter], stack + [x])
    ensures forall a :: a in active ==> a in index && index[a] < counter
    ensures AllReach(g, active + {x}, x)
    ensures LowAttained(g, index[x := counter], stack + [x], x, counter)
    ensures LowCovers(g, index[x := counter], stack + [x], |stack|, |stack| + 1, counter)
  {
    hide Reaches;
    var index', stack', active' := index[x := counter], stack + [x], active + {x};
    assert Elements(stack') == Elements(stack) + {x};
    assert Done(index', stack') == Done(index, stack);
    ReachesSelf(g, x);
    assert stack'[|stack|] == x;
    forall i | 0 <= i < |stack|
      ensures Reaches(g, stack[i], x)
    {
      var y := stack[i];
      assert Anchored(g, index, active, y);
      var a :| a in active && index[a] <= index[y] && Reaches(g, y, a);
      ReachesTransitive(g, y, a, x);
    }
    forall y | y in stack'
      ensures Anchored(g, index', active', y)
    {
      if y == x {
        assert x in active' && index'[x] <= index'[y];
      } else {
        assert Anchored(g, index, active, y);
        var a :| a in active && index[a] <= index[y] && Reaches(g, y, a);
        assert a in active' && index'[a] <= index'[y];
      }
    }
  }

  /** Everything above x's position is mutually reachable with x while x is active. */
  lemma SegmentMutual(g: Graph<Module>, index: map<Module, nat>, counter: nat, stack: seq<Module>,
                      active: set<Module>, base: nat, x: Module, i: nat)
    requires SearchInv(g, index, counter, stack, active + {x})
    requires base < |stack| && stack[base] == x && AllReach(g, active, x)
    requires base <= i < |stack|
    ensures Mutual(g, x, stack[i])
  {
    hide Reaches;
    var y := stack[i];
    assert Reaches(g, stack[base], stack[i]);
    assert Anchored(g, index, active + {x}, y);
    var a :| a in active + {x} && index[a] <= index[y] && Reaches(g, y, a);
    ReachesSelf(g, x);
    ReachesTransitive(g, y, a, x);
  }

  /** The search is about to return from x, which sits at position `base` of the stack. */
  ghost predicate Returning(g: Graph<Module>, index: map<Module, nat>, counter: nat, stack: seq<Module>,
                            active: set<Module>, base: nat, x: Module)
  {
    && SearchInv(g, index, counter, stack, active + {x})
    && Ascending(index, stack)
    && base < |stack| && stack[base] == x
    && AllReach(g, active, x)
    && (forall a :: a in active ==> a in index && index[a] < index[x])
    && (forall s :: s in Succs(g, x) ==> s in index)
  }

  /** A stack entry above x is anchored below x when x reaches a lower entry. */
  lemma StayAnchored(g: Graph<Module>, index: map<Module, nat>, counter: nat, stack: seq<Module>,
                     active: set<Module>, base: nat, x: Module, j: nat, i: nat)
    requires Returning(g, index, counter, stack, active, base, x)
    requires j < base <= i < |stack| && Reaches(g, x, stack[j])
    ensures Anchored(g, index, active, stack[i])
  {
    hide Reaches;
    var y, w := stack[i], stack[j];
    assert index[w] < index[x] <= index[y];
    assert Anchored(g, index, active + {x}, w);
    var a :| a in active + {x} && index[a] <= index[w] && Reaches(g, w, a);
    SegmentMutual(g, index, counter, stack, active, base, x, i);
    ReachesTransitive(g, y, x, w);
    ReachesTransitive(g, y, w, a);
    assert a in active && index[a] <= index[y];
  }

  /** Stack entries below x never needed x as their anchor. */
  lemma BelowAnchored(g: Graph<Module>, index: map<Module, nat>, counter: nat, stack: seq<Module>,
                      active: set<Module>, base: nat, x: Module, i: nat)
    requires Returning(g, index, counter, stack, active, base, x)
    requires i < base
    ensures Anchored(g, index, active, stack[i])
  {
    hide Reaches;
    var y := stack[i];
    assert index[y] < index[x];
    assert Anchored(g, index, active + {x}, y);
    var b :| b in active + {x} && index[b] <= index[y] && Reaches(g, y, b);
    assert b in active;
  }

  /** Finishing x with a low-link below its own number leaves it on the stack. */
  lemma StayKeepsInv(g: Graph<Module>, index: map<Module, nat>, counter: nat, stack: seq<Module>,
                     active: set<Module>, base: nat, x: Module, low: nat)
    requires Returning(g, index, counter, stack, active, base, x)
    requires LowAttained(g, index, stack, x, low) && low < index[x]
    ensures SearchInv(g, index, counter, stack, active)
  {
    hide Anchored;
    hide Reaches;
    var j: nat :| j < |stack| && index[stack[j]] == low && Reaches(g, x, stack[j]);
    assert j < base;
    forall y | y in stack
      ensures Anchored(g, index, active, y)
    {
      var i: nat :| i < |stack| && stack[i] == y;
      if i < base {
        BelowAnchored(g, index, counter, stack, active, base, x, i);
      } else {
        StayAnchored(g, index, counter, stack, active, base, x, j, i);
      }
    }
  }

  /** With a low-link equal to x's own number, no edge leaves the part above x except to finished modules. */
  lemma SegmentClosed(g: Graph<Module>, index: map<Module, nat>, counter: nat, stack: seq<Module>,
                      active: set<Module>, base: nat, x: Module)
    requires Returning(g, index, counter, stack, active, base, x)
    requires LowCovers(g, index, stack, base, base, index[x])
    ensures Closed(g, Done(index, stack) + Elements(stack[base..]))
  {
    hide Reaches;
    hide Downward;
    hide Anchored;
    var t := Done(index, stack) + Elements(stack[base..]);
    forall n, m | n in t && m in Succs(g, n)
      ensures m in t
    {
      if n !in Done(index, stack) {
        var i :| 0 <= i < |stack[base..]| && stack[base..][i] == n;
        SegmentEdge(g, index, counter, stack, active, base, x, base + i, m);
      }
    }
  }

  /** An edge from the part above x ends in that part or in a finished module. */
  lemma SegmentEdge(g: Graph<Module>, index: map<Module, nat>, counter: nat, stack: seq<Module>,
                    active: set<Module>, base: nat, x: Module, i: nat, m: Module)
    requires Returning(g, index, counter, stack, active, base, x)
    requires LowCovers(g, index, stack, base, base, index[x])
    requires base <= i < |stack| && m in Succs(g, stack[i])
    ensures m in Done(index, stack) + Elements(stack[base..])
  {
    hide Reaches;
    hide Downward;
    hide Anchored;
    hide Closed;
    assert index[x] <= index[stack[i]];
    assert m in index;
    if m in Elements(stack) {
      var j :| 0 <= j < |stack| && stack[j] == m;
      assert base <= j;
      assert stack[base..][j - base] == m;
    }
  }

  /** The popped part of the stack is one whole component. */
  lemma SegmentIsComponent(g: Graph<Module>, index: map<Module, nat>, counter: nat, stack: seq<Module>,
                           active: set<Module>, base: nat, x: Module)
    requires Returning(g, index, counter, stack, active, base, x)
    requires LowCovers(g, index, stack, base, base, index[x])
    ensures IsComponent(g, Elements(stack[base..]))
  {
    hide Reaches;
    var c := Elements(stack[base..]);
    var done := Done(index, stack);
    assert stack[base..][0] == x;
    assert x in c;
    forall b | b in c
      ensures Mutual(g, x, b)
    {
      var i :| 0 <= i < |stack[base..]| && stack[base..][i] == b;
      SegmentMutual(g, index, counter, stack, active, base, x, base + i);
    }
    forall a, b | a in c && b in c
      ensures Mutual(g, a, b)
    {
      MutualTransitive(g, a, x, b);
    }
    SegmentClosed(g, index, counter, stack, active, base, x);
    forall a, b | a in c && b in g && Mutual(g, a, b)
      ensures b in c
    {
      ClosedTraps(g, done + c, a, b);
      if b in done {
        ClosedTraps(g, done, b, a);
      }
    }
  }

  /** Popping down to x leaves a search that has finished one more component. */
  lemma PopKeepsInv(g: Graph<Module>, index: map<Module, nat>, counter: nat, stack: seq<Module>,
                    active: set<Module>, base: nat, x: Module)
    requires Returning(g, index, counter, stack, active, base, x)
    requires LowCovers(g, index, stack, base, base, index[x])
    ensures Done(index, stack[..base]) == Done(index, stack) + Elements(stack[base..])
    ensures SearchInv(g, index, counter, stack[..base], active)
    ensures Elements(stack[base..]) !! Done(index, stack) && Closed(g, Done(index, stack))
    ensures Ascending(index, stack[..base])
  {
    hide Anchored;
    hide Reaches;
    SegmentClosed(g, index, counter, stack, active, base, x);
    PopSplits(index, stack, base);
    forall y | y in stack[..base]
      ensures Anchored(g, index, active, y)
    {
      var i: nat :| i < base && stack[i] == y;
      BelowAnchored(g, index, counter, stack, active, base, x, i);
    }
    forall a | a in active
      ensures a in stack[..base]
    {
      var i :| 0 <= i < |stack| && stack[i] == a;
      assert stack[..base][i] == a;
    }
  }

  lemma PopSplits(index: map<Module, nat>, stack: seq<Module>, base: nat)
    requires base <= |stack|
    requires Ascending(index, stack)
    ensures Done(index, stack[..base]) == Done(index, stack) + Elements(stack[base..])
    ensures Elements(stack[..base]) !! Elements(stack[base..])
  {
    assert stack == stack[..base] + stack[base..];
    forall i, j | 0 <= i < base <= j < |stack|
      ensures stack[i] != stack[j]
    {
      assert index[stack[i]] < index[stack[j]];
    }
    forall m | m in index
      ensures m in Done(index, stack[..base]) <==> m in Done(index, stack) + Elements(stack[base..])
    {
      assert m in stack <==> m in stack[..base] || m in stack[base..];
    }
  }

  /** Keeping the larger of the best component so far and a newly finished one. */
  lemma BestAfterPop(g: Graph<Module>, done: set<Module>, c: set<Module>, best: set<Module>, best': set<Module>)
    requires IsLargestComponent(g, best, done) && Closed(g, done)
    requires IsComponent(g, c) && c !! done
    requires best' == if |c| > |best| then c else best
    ensures IsLargestComponent(g, best', done + c)
  {
    forall d | IsComponent(g, d) && d <= done + c
      ensures |d| <= |best'|
    {
      if x :| x in d && x in c {
        ComponentsOverlapEqual(g, c, d, x);
      } else {
        assert d <= done;
      }
    }
  }

  /** The finished components, oldest first, are disjoint and cover exactly the finished modules. */
  ghost predicate Partitions(g: Graph<Module>, parts: seq<set<Module>>, done: set<Module>) {
    if parts == [] then done == {} else
      var last := parts[|parts| - 1];
      IsComponent(g, last) && last <= done && Partitions(g, parts[..|parts| - 1], done - last)
  }

  lemma PartitionsAfterPop(g: Graph<Module>, parts: seq<set<Module>>, done: set<Module>, c: set<Module>)
    requires Partitions(g, parts, done) && IsComponent(g, c) && c !! done
    ensures Partitions(g, parts + [c], done + c)
  {
    assert (parts + [c])[..|parts|] == parts;
    assert done + c - c == done;
  }

  /** The top entry of a strictly numbered stack moves from the stack to what was popped. */
  lemma TakeOne(index: map<Module, nat>, full: seq<Module>, n: nat)
    requires 0 < n <= |full|
    requires Ascending(index, full)
    ensures Elements(full[..n - 1]) == Elements(full[..n]) - {full[n - 1]}
    ensures Elements(full[n - 1..]) == Elements(full[n..]) + {full[n - 1]}
  {
    assert full[..n] == full[..n - 1] + [full[n - 1]];
    assert full[n - 1..] == [full[n - 1]] + full[n..];
    forall i | 0 <= i < n - 1
      ensures full[i] != full[n - 1]
    {
      assert index[full[i]] < index[full[n - 1]];
    }
  }

  lemma OnlyAt(index: map<Module, nat>, stack: seq<Module>, i: nat, j: nat)
    requires Ascending(index, stack)
    requires i < |stack| && j < |stack| && stack[i] == stack[j]
    ensures i == j
  {
  }

  ghost predicate Extends(m: map<Module, nat>, m': map<Module, nat>) {
    forall k :: k in m ==> k in m' && m'[k] == m[k]
  }

  /** A child's low-link covers the part of the stack it added; the parent's covers what was there before. */
  lemma MergeCovers(g: Graph<Module>, index: map<Module, nat>, mid: seq<Module>, index': map<Module, nat>,
                    stack: seq<Module>, base: nat, low: nat, childLow: nat)
    requires Ascending(index, mid)
    requires Ascending(index', stack)
    requires base < |mid| <= |stack| && stack[..|mid|] == mid && Extends(index, index')
    requires LowCovers(g, index, mid, base, base + 1, low)
    requires LowCovers(g, index', stack, |mid|, |mid|, childLow)
    ensures LowCovers(g, index', stack, base, base + 1, if childLow < low then childLow else low)
  {
    forall i, j | base + 1 <= i < |stack| && 0 <= j < base && stack[j] in Succs(g, stack[i])
      ensures (if childLow < low then childLow else low) <= index'[stack[j]]
    {
      assert stack[j] == stack[..|mid|][j] == mid[j];
      if i < |mid| {
        assert stack[i] == stack[..|mid|][i] == mid[i];
      }
    }
  }

  /** The parent's low-link is still attained once the child has returned, or the child's is. */
  lemma MergeAttained(g: Graph<Module>, index: map<Module, nat>, mid: seq<Module>, index': map<Module, nat>,
                      stack: seq<Module>, x: Module, s: Module, low: nat, childLow: nat)
    requires Ascending(index, mid)
    requires Ascending(index', stack)
    requires |mid| <= |stack| && stack[..|mid|] == mid && Extends(index, index')
    requires s in Succs(g, x)
    requires LowAttained(g, index, mid, x, low)
    requires childLow < low ==> LowAttained(g, index', stack, s, childLow)
    ensures LowAttained(g, index', stack, x, if childLow < low then childLow else low)
  {
    if childLow < low {
      var j :| 0 <= j < |stack| && index'[stack[j]] == childLow && Reaches(g, s, stack[j]);
      ReachesEdge(g, x, s);
      ReachesTransitive(g, x, s, stack[j]);
    } else {
      var j :| 0 <= j < |mid| && index[mid[j]] == low && Reaches(g, x, mid[j]);
      assert stack[j] == stack[..|mid|][j] == mid[j];
    }
  }

  /** Every successor of x met so far is numbered, and x's low-link does not exceed those below x on the stack. */
  ghost predicate SeenCovered(index: map<Module, nat>, below: seq<Module>, seen: set<Module>, low: nat) {
    forall s :: s in seen ==> s in index && (s in below ==> low <= index[s])
  }

  lemma CoversWithRoot(g: Graph<Module>, index: map<Module, nat>, stack: seq<Module>, base: nat, x: Module, low: nat)
    requires base < |stack| && stack[base] == x
    requires Ascending(index, stack)
    requires LowCovers(g, index, stack, base, base + 1, low)
    requires SeenCovered(index, stack[..base], Succs(g, x), low)
    ensures LowCovers(g, index, stack, base, base, low)
  {
    forall j | 0 <= j < base && stack[j] in Succs(g, x)
      ensures low <= index[stack[j]]
    {
      assert stack[..base][j] == stack[j];
    }
  }

  lemma ReachAllThrough(g: Graph<Module>, active: set<Module>, x: Module, s: Module)
    requires AllReach(g, active + {x}, x) && s in Succs(g, x)
    ensures AllReach(g, active + {x}, s)
  {
    ReachesEdge(g, x, s);
    forall a | a in active + {x}
      ensures Reaches(g, a, s)
    {
      ReachesTransitive(g, a, x, s);
    }
  }

  /** Meeting an import that is still on the stack: its number may become the low-link. */
  lemma LowerToStacked(g: Graph<Module>, index: map<Module, nat>, stack: seq<Module>, base: nat, x: Module,
                       s: Module, low: nat)
    requires Ascending(index, stack) && base < |stack|
    requires s in Succs(g, x) && s in Elements(stack)
    requires LowAttained(g, index, stack, x, low) && LowCovers(g, index, stack, base, base + 1, low)
    ensures s in index
    ensures index[s] < low ==> LowAttained(g, index, stack, x, index[s])
    ensures index[s] < low ==> LowCovers(g, index, stack, base, base + 1, index[s])
  {
    ReachesEdge(g, x, s);
  }

  lemma CoversNothing(g: Graph<Module>, index: map<Module, nat>, stack: seq<Module>, low: nat)
    requires Ascending(index, stack)
    ensures LowCovers(g, index, stack, |stack|, |stack|, low)
  {
  }

  lemma NotBelow(stack: seq<Module>, below: seq<Module>, m: Module)
    requires |below| <= |stack| && stack[..|below|] == below && m !in Elements(stack)
    ensures m !in below
  {
    assert forall i :: 0 <= i < |below| ==> below[i] == stack[..|below|][i] == stack[i];
  }

  class CycleFinder {
    const edges: Graph<Module>
    const modules: set<Module>

    var index: map<Module, nat>
    var low: map<Module, nat>
    var stack: seq<Module>
    var onStack: set<Module>
    var best: set<Module>
    var counter: nat
    ghost var components: seq<set<Module>>

    constructor (edges: Graph<Module>, modules: set<Module>)
      ensures this.edges == edges && this.modules == modules
      ensures index == map[] && Consistent({})
    {
      this.edges, this.modules := edges, modules;
      index, low, stack, onStack, best, counter, components := map[], map[], [], {}, {}, 0, [];
    }

    ghost function Restricted(): Graph<Module> {
      Restrict(edges, modules)
    }

    ghost predicate Consistent(active: set<Module>)
      reads this
    {
      && SearchInv(Restricted(), index, counter, stack, active)
      && low.Keys == index.Keys
      && onStack == Elements(stack)
      && IsLargestComponent(Restricted(), best, Done(index, stack))
      && Partitions(Restricted(), components, Done(index, stack))
    }

    /** What the caller of a visit gets: older entries untouched, and the low-link of the visited module. */
    twostate predicate Visited(node: Module)
      reads this
    {
      && Extends(old(index), index) && Extends(old(low), low)
      && node in index && node in low && index[node] == old(counter) && low[node] <= index[node]
      && old(counter) < counter
      && |old(stack)| <= |stack| && stack[..|old(stack)|] == old(stack)
      && Ascending(index, stack)
      && (low[node] < index[node] ==> LowAttained(Restricted(), index, stack, node, low[node]))
      && LowCovers(Restricted(), index, stack, |old(stack)|, |old(stack)|, low[node])
    }

    /** Between two iterations of the loop over the imports of `node`; `below` is the stack it was pushed on. */
    ghost predicate Exploring(node: Module, below: seq<Module>, active: set<Module>, seen: set<Module>)
      reads this
    {
      && Consistent(active + {node}) && Ascending(index, stack)
      && AllReach(Restricted(), active + {node}, node)
      && node in index && low[node] <= index[node] < counter
      && (forall a :: a in active ==> a in index && index[a] < index[node])
      && |below| < |stack| && stack[..|below|] == below && stack[|below|] == node
      && LowAttained(Restricted(), index, stack, node, low[node])
      && LowCovers(Restricted(), index, stack, |below|, |below| + 1, low[node])
      && SeenCovered(index, below, seen, low[node])
    }

    /** Numbers `node` and pushes it. */
    method Enter(node: Module, ghost active: set<Module>)
      requires Consistent(active)
      requires node in modules && node !in index && AllReach(Restricted(), active, node)
      modifies `index, `low, `counter, `stack, `onStack
      ensures index == old(index)[node := old(counter)] && low == old(low)[node := old(counter)]
      ensures stack == old(stack) + [node] && counter == old(counter) + 1
      ensures Consistent(active + {node}) && Ascending(index, stack)
      ensures AllReach(Restricted(), active + {node}, node)
      ensures LowAttained(Restricted(), index, stack, node, low[node])
      ensures LowCovers(Restricted(), index, stack, |old(stack)|, |old(stack)| + 1, low[node])
      ensures forall a :: a in active ==> a in index && index[a] < index[node]
    {
      hide SearchInv;
      hide Ascending;
      hide Done;
      hide LowAttained;
      hide LowCovers;
      hide AllReach;
      hide IsLargestComponent;
      hide Partitions;
      PushKeepsInv(Restricted(), index, counter, stack, active, node);
      index, low := index[node := counter], low[node := counter];
      counter := counter + 1;
      stack := stack + [node];
      onStack := onStack + {node};
    }

    /** Pops down to and including `node`, which sits at position `base`. */
    method PopDownTo(node: Module, ghost base: nat) returns (component: set<Module>)
      requires base < |stack| && stack[base] == node && Ascending(index, stack)
      requires onStack == Elements(stack)
      modifies `stack, `onStack
      ensures stack == old(stack)[..base]
      ensures onStack == Elements(stack)
      ensures component == Elements(old(stack)[base..])
    {
      hide Ascending;
      ghost var full := stack;
      component := {};
      while true
        invariant base < |stack| <= |full| && stack == full[..|stack|]
        invariant component == Elements(full[|stack|..])
        invariant onStack == Elements(stack)
        decreases |stack|
      {
        var member := stack[|stack| - 1];
        TakeOne(index, full, |stack|);
        stack := stack[..|stack| - 1];
        onStack := onStack - {member};
        component := component + {member};
        if member == node {
          OnlyAt(index, full, base, |stack|);
          break;
        }
      }
    }

    /** The visit of `node` ends a component: pop it and keep it when it is larger than the best so far. */
    method FinishComponent(node: Module, ghost base: nat, ghost active: set<Module>)
      requires Consistent(active + {node}) && node in index
      requires Returning(Restricted(), index, counter, stack, active, base, node)
      requires LowCovers(Restricted(), index, stack, base, base, index[node])
      modifies `stack, `onStack, `best, `components
      ensures stack == old(stack)[..base]
      ensures Consistent(active)
      ensures components == old(components) + [Elements(old(stack)[base..])]
      ensures Ascending(index, stack)
      ensures LowCovers(Restricted(), index, stack, base, base, index[node])
    {
      hide SearchInv;
      hide Done;
      hide Ascending;
      hide LowCovers;
      hide Closed;
      hide Reaches;
      hide Elements;
      hide IsComponent;
      hide IsLargestComponent;
      hide Partitions;
      ghost var g, done, previous := Restricted(), Done(index, stack), best;
      SegmentIsComponent(g, index, counter, stack, active, base, node);
      PopKeepsInv(g, index, counter, stack, active, base, node);
      var component := PopDownTo(node, base);
      if |component| > |best| {
        best := component;
      }
      components := components + [component];
      CoversNothing(g, index, stack, index[node]);
      BestAfterPop(g, done, component, previous, best);
      PartitionsAfterPop(g, old(components), done, component);
    }

    /** All successors of `node` are seen: close its component, or leave it on the stack for an older module. */
    method Leave(node: Module, ghost base: nat, ghost active: set<Module>)
      requires Consistent(active + {node})
      requires Returning(Restricted(), index, counter, stack, active, base, node)
      requires node in low && low[node] <= index[node]
      requires LowAttained(Restricted(), index, stack, node, low[node])
      requires LowCovers(Restricted(), index, stack, base, base + 1, low[node])
      requires SeenCovered(index, stack[..base], Succs(Restricted(), node), low[node])
      modifies `stack, `onStack, `best, `components
      ensures Consistent(active) && Ascending(index, stack)
      ensures base <= |stack| && stack[..base] == old(stack)[..base]
      ensures low[node] < index[node] ==> LowAttained(Restricted(), index, stack, node, low[node])
      ensures LowCovers(Restricted(), index, stack, base, base, low[node])
    {
      hide SearchInv;
      hide Ascending;
      hide Done;
      hide LowAttained;
      hide LowCovers;
      hide AllReach;
      hide IsLargestComponent;
      hide Partitions;
      CoversWithRoot(Restricted(), index, stack, base, node, low[node]);
      if low[node] == index[node] {
        FinishComponent(node, base, active);
      } else {
        StayKeepsInv(Restricted(), index, counter, stack, active, base, node, low[node]);
      }
    }

    method Visit(node: Module, ghost active: set<Module>)
      requires Consistent(active)
      requires node in modules && node !in index && AllReach(Restricted(), active, node)
      modifies this
      ensures Consistent(active)
      ensures Visited(node)
      decreases modules - index.Keys, 0
    {
      hide SearchInv;
      hide Ascending;
      hide Done;
      hide LowAttained;
      hide LowCovers;
      hide AllReach;
      hide IsLargestComponent;
      hide Partitions;
      ghost var g, below := Restricted(), stack;
      Enter(node, active);
      var todo := Succs(edges, node);
      while todo != {}
        invariant todo <= Succs(edges, node)
        invariant Exploring(node, below, active, Succs(g, node) - todo)
        invariant Extends(old(index), index) && Extends(old(low), low)
        invariant index[node] == old(counter)
        decreases todo
      {
        var succ :| succ in todo;
        todo := todo - {succ};
        if succ !in modules {
          assert Succs(g, node) - todo == Succs(g, node) - (todo + {succ});
          continue;
        }
        assert Succs(g, node) - todo == Succs(g, node) - (todo + {succ}) + {succ};
        Follow(node, succ, below, active, Succs(g, node) - (todo + {succ}));
      }
      assert Succs(g, node) - todo == Succs(g, node);
      Leave(node, |below|, active);
    }

    /** One import of `node` inside the graph: visit it, or lower the low-link to its number when it is on the stack. */
    method Follow(node: Module, succ: Module, ghost below: seq<Module>, ghost active: set<Module>, ghost seen: set<Module>)
      requires Exploring(node, below, active, seen)
      requires succ in Succs(Restricted(), node)
      modifies this
      ensures Exploring(node, below, active, seen + {succ})
      ensures Extends(old(index), index) && Extends(old(low) - {node}, low)
      decreases modules - index.Keys, 2
    {
      hide SearchInv;
      hide Ascending;
      hide Done;
      hide LowAttained;
      hide LowCovers;
      hide AllReach;
      hide IsLargestComponent;
      hide Partitions;
      if succ !in index {
        VisitNew(node, succ, below, active, seen);
      } else if succ in onStack {
        LowerToStacked(Restricted(), index, stack, |below|, node, succ, low[node]);
        low := low[node := if index[succ] < low[node] then index[succ] else low[node]];
      } else {
        NotBelow(stack, below, succ);
      }
    }

    /** Visits a module met for the first time and takes over a lower low-link. */
    method VisitNew(node: Module, succ: Module, ghost below: seq<Module>, ghost active: set<Module>, ghost seen: set<Module>)
      requires Exploring(node, below, active, seen)
      requires succ in Succs(Restricted(), node) && succ !in index
      modifies this
      ensures Exploring(node, below, active, seen + {succ})
      ensures Extends(old(index), index) && Extends(old(low) - {node}, low)
      decreases modules - index.Keys, 1
    {
      hide SearchInv;
      hide Ascending;
      hide Done;
      hide LowAttained;
      hide LowCovers;
      hide AllReach;
      hide IsLargestComponent;
      hide Partitions;
      ghost var g := Restricted();
      ReachAllThrough(g, active, node, succ);
      Visit(succ, active + {node});
      MergeCovers(g, old(index), old(stack), index, stack, |below|, old(low[node]), low[succ]);
      MergeAttained(g, old(index), old(stack), index, stack, node, succ, old(low[node]), low[succ]);
      low := low[node := if low[succ] < low[node] then low[succ] else low[node]];
    }

    /** Visits every module and returns the largest component. */
    method LargestCycle() returns (cycle: set<Module>)
      requires index == map[] && Consistent({})
      modifies this
      ensures IsLargestComponent(Restricted(), cycle, modules)
      ensures Partitions(Restricted(), components, modules)
      ensures stack == [] && index.Keys == modules
    {
      hide SearchInv;
      hide IsLargestComponent;
      hide Partitions;
      var todo := modules;
      while todo != {}
        invariant todo <= modules
        invariant Consistent({}) && modules - todo <= index.Keys
        decreases todo
      {
        var module_ :| module_ in todo;
        todo := todo - {module_};
        if module_ !in index {
          Visit(module_, {});
        }
      }
      AllPopped(Restricted(), index, counter, stack);
      assert index.Keys == modules;
      return best;
    }
  }

  /** When no visit is active the stack is empty. */
  lemma AllPopped(g: Graph<Module>, index: map<Module, nat>, counter: nat, stack: seq<Module>)
    requires SearchInv(g, index, counter, stack, {})
    ensures stack == [] && Done(index, stack) == index.Keys && index.Keys <= g.Keys
  {
    if stack != [] {
      var anchored := Anchored(g, index, {}, stack[0]);
      assert false;
    }
  }

  /** No foundation module imports a feature module directly exactly when none depends on one at all. */
  lemma FoundationClosedIff(g: Graph<Module>, foundation: set<Module>)
    ensures Closed(g, foundation) <==> forall a, b :: a in foundation && Reaches(g, a, b) ==> b in foundation
  {
    if Closed(g, foundation) {
      forall a, b | a in foundation && Reaches(g, a, b)
        ensures b in foundation
      {
        ClosedTraps(g, foundation, a, b);
      }
    } else {
      var a, b :| a in foundation && b in Succs(g, a) && b !in foundation;
      ReachesEdge(g, a, b);
    }
  }

  /** No edge from s leaves t. */
  ghost predicate StaysIn(g: Graph<Module>, s: set<Module>, t: set<Module>) {
    forall n, m :: n in s && m in Succs(g, n) ==> m in t
  }

  lemma NoneStays(g: Graph<Module>, t: set<Module>)
    ensures StaysIn(g, {}, t)
  {
  }

  lemma AllStay(g: Graph<Module>, s: set<Module>, t: set<Module>)
    ensures s == t ==> (StaysIn(g, s, t) <==> Closed(g, t))
  {
  }

  lemma OneMoreStays(g: Graph<Module>, s: set<Module>, t: set<Module>, m: Module)
    ensures StaysIn(g, s + {m}, t) <==> StaysIn(g, s, t) && Succs(g, m) <= t
  {
  }

  /** The import check of the foundation: it finds nothing exactly when no foundation module imports a feature module. */
  method CheckFoundation(edges: Graph<Module>, modules: set<Module>, foundation: set<Module>) returns (ok: bool)
    ensures ok <==> foundation <= modules && Closed(Restrict(edges, modules), foundation)
  {
    ghost var g := Restrict(edges, modules);
    hide StaysIn;
    hide Closed;
    NoneStays(g, foundation);
    ok := foundation <= modules;
    var todo := foundation * modules;
    assert foundation * modules - todo == {};
    while todo != {}
      invariant todo <= foundation * modules
      invariant ok <==> foundation <= modules && StaysIn(g, foundation * modules - todo, foundation)
      decreases todo
    {
      var m :| m in todo;
      OneMoreStays(g, foundation * modules - todo, foundation, m);
      assert foundation * modules - (todo - {m}) == foundation * modules - todo + {m};
      todo := todo - {m};
      var upward := Succs(edges, m) * (modules - foundation);
      assert upward == {} <==> Succs(g, m) <= foundation by {
        assert upward == Succs(g, m) - foundation;
        assert Succs(g, m) <= foundation + upward;
      }
      if upward != {} {
        ok := false;
      }
    }
    AllStay(g, foundation * modules - todo, foundation);
    assert foundation <= modules ==> foundation * modules - todo == foundation;
  }

  /**
   `main`'s verdict: it passes exactly when the foundation modules all exist, none of them depends on a feature module
   even through others, nothing is glob-imported from the crate root or re-exported by it, and no component has more
   than 33 modules.
   */
  method CheckLayers(edges: Graph<Module>, modules: set<Module>, foundation: set<Module>, rootGlob: bool,
                     globImporters: set<string>)
    returns (ok: bool, cycle: set<Module>)
    ensures IsLargestComponent(Restrict(edges, modules), cycle, modules)
    ensures ok <==>
      && foundation <= modules && !rootGlob && globImporters == {}
      && (forall a, b :: a in foundation && Reaches(Restrict(edges, modules), a, b) ==> b in foundation)
      && (forall c :: IsComponent(Restrict(edges, modules), c) ==> |c| <= 33)
  {
    FoundationClosedIff(Restrict(edges, modules), foundation);
    hide Partitions;
    hide Reaches;
    hide Closed;
    ok := CheckFoundation(edges, modules, foundation);
    var finder := new CycleFinder(edges, modules);
    cycle := finder.LargestCycle();
    LargestBounds(Restrict(edges, modules), cycle, modules);
    ok := ok && !rootGlob && globImporters == {} && |cycle| <= MAX_CYCLE_MODULES;
  }

  lemma LargestBounds(g: Graph<Module>, c: set<Module>, modules: set<Module>)
    requires IsLargestComponent(g, c, modules) && g.Keys == modules
    ensures |c| <= MAX_CYCLE_MODULES <==> forall d :: IsComponent(g, d) ==> |d| <= MAX_CYCLE_MODULES
  {
  }

  /** Every finished module lies in exactly one of the popped components. */
  lemma {:induction false} PoppedOnce(g: Graph<Module>, parts: seq<set<Module>>, done: set<Module>, m: Module)
    requires Partitions(g, parts, done)
    ensures m in done <==> exists i :: 0 <= i < |parts| && m in parts[i]
    ensures forall i, j :: 0 <= i < j < |parts| ==> m !in parts[i] || m !in parts[j]
    ensures forall i :: 0 <= i < |parts| ==> IsComponent(g, parts[i])
  {
    if parts != [] {
      var n := |parts| - 1;
      PoppedOnce(g, parts[..n], done - parts[n], m);
      assert forall i :: 0 <= i < n ==> parts[..n][i] == parts[i];
    }
  }
}
