/** The order in which a depth-first traversal leaves the nodes of a graph, and what determines it. */
module Postorders {
  import opened Common
  import opened Graphs

  ghost predicate Closed(g: Graph) {
    forall x, d | Edge(g, x, d) :: d in g
  }

  function ToSet(q: seq<nat>): (s: set<nat>)
    ensures forall x :: x in s <==> x in q
  {
    set x | x in q
  }

  // ----- The traversal as a function

  /** What visiting `m` adds to the order when `v` has been entered before. */
  ghost function Added(g: Graph, v: set<nat>, m: nat): seq<nat>
    decreases |g.Keys - v|, 0, 0
  {
    if m in v || m !in g then []
    else
      FewerLeft(g.Keys, v, m);
      AddedBy(g, v + {m}, g[m]) + [m]
  }

  /** What visiting `deps` one after the other adds. */
  ghost function AddedBy(g: Graph, v: set<nat>, deps: seq<nat>): seq<nat>
    decreases |g.Keys - v|, 1, |deps|
  {
    if deps == [] then []
    else
      var front := AddedBy(g, v, deps[..|deps| - 1]);
      SubsetIsSmaller(g.Keys - (v + ToSet(front)), g.Keys - v);
      front + Added(g, v + ToSet(front), deps[|deps| - 1])
  }

  lemma FewerLeft(all: set<nat>, v: set<nat>, m: nat)
    requires m in all && m !in v
    ensures |all - (v + {m})| < |all - v|
  {
    assert all - (v + {m}) == (all - v) - {m};
  }

  lemma AddedNext(g: Graph, v: set<nat>, deps: seq<nat>, d: nat)
    ensures AddedBy(g, v, deps + [d]) == AddedBy(g, v, deps) + Added(g, v + ToSet(AddedBy(g, v, deps)), d)
  {
    assert (deps + [d])[..|deps + [d]| - 1] == deps;
  }

  // ----- Paths that keep clear of some nodes

  ghost predicate Clear(p: seq<nat>, v: set<nat>) {
    forall i | 0 <= i < |p| :: p[i] !in v
  }

  /** A path leads from `a` to `b` without touching `v`. */
  ghost predicate ReachesClear(g: Graph, v: set<nat>, a: nat, b: nat) {
    exists p :: PathFromTo(g, p, a, b) && Clear(p, v)
  }

  lemma ClearSelf(g: Graph, v: set<nat>, a: nat)
    requires a !in v
    ensures ReachesClear(g, v, a, a)
  {
    assert PathFromTo(g, [a], a, a) && Clear([a], v);
  }

  lemma ClearTransitive(g: Graph, v: set<nat>, a: nat, b: nat, c: nat)
    requires ReachesClear(g, v, a, b) && ReachesClear(g, v, b, c)
    ensures ReachesClear(g, v, a, c)
  {
    var p :| PathFromTo(g, p, a, b) && Clear(p, v);
    var q :| PathFromTo(g, q, b, c) && Clear(q, v);
    JoinPaths(g, p, q);
    assert PathFromTo(g, p + q[1..], a, c) && Clear(p + q[1..], v);
  }

  lemma ClearEdge(g: Graph, v: set<nat>, a: nat, b: nat)
    requires Edge(g, a, b) && a !in v && b !in v
    ensures ReachesClear(g, v, a, b)
  {
    EdgePath(g, a, b);
    assert Clear([a, b], v);
  }

  lemma ClearOfMore(g: Graph, v: set<nat>, w: set<nat>, a: nat, b: nat)
    requires v <= w && ReachesClear(g, w, a, b)
    ensures ReachesClear(g, v, a, b)
  {
    var p :| PathFromTo(g, p, a, b) && Clear(p, w);
    assert Clear(p, v);
  }

  /** From any place on a clear path on, it is a clear path. */
  lemma ClearRest(g: Graph, v: set<nat>, p: seq<nat>, k: nat)
    requires IsPath(g, p) && Clear(p, v) && k < |p|
    ensures ReachesClear(g, v, p[k], p[|p| - 1])
  {
    SubPath(g, p, k, |p|);
    assert PathFromTo(g, p[k..|p|], p[k], p[|p| - 1]) && Clear(p[k..|p|], v);
  }

  /** A clear path to somewhere else leaves its first node for good by one of its edges. */
  lemma {:induction false} LeavesForGood(g: Graph, v: set<nat>, p: seq<nat>) returns (d: nat)
    requires IsPath(g, p) && Clear(p, v) && p[|p| - 1] != p[0]
    ensures Edge(g, p[0], d) && ReachesClear(g, v + {p[0]}, d, p[|p| - 1])
    decreases |p|
  {
    if k :| 0 < k < |p| && p[k] == p[0] {
      SubPath(g, p, k, |p|);
      d := LeavesForGood(g, v, p[k..|p|]);
    } else {
      FirstEdge(g, p);
      d := p[1];
      assert Clear(p[1..], v + {p[0]});
      assert PathFromTo(g, p[1..], d, p[|p| - 1]);
    }
  }

  // ----- Which nodes are added

  ghost predicate FromOneOf(g: Graph, v: set<nat>, deps: seq<nat>, x: nat) {
    exists k :: 0 <= k < |deps| && ReachesClear(g, v, deps[k], x)
  }

  lemma FromOneMore(g: Graph, v: set<nat>, deps: seq<nat>, d: nat, x: nat)
    ensures FromOneOf(g, v, deps + [d], x) <==> FromOneOf(g, v, deps, x) || ReachesClear(g, v, d, x)
  {
    hide ReachesClear;
    if FromOneOf(g, v, deps, x) {
      var k :| 0 <= k < |deps| && ReachesClear(g, v, deps[k], x);
      assert (deps + [d])[k] == deps[k];
    }
    assert (deps + [d])[|deps|] == d;
  }

  /** A path that touches what was added before leads to something that was added before. */
  lemma ClearOfAdded(g: Graph, v: set<nat>, deps: seq<nat>, front: set<nat>, d: nat, x: nat)
    requires forall y :: y in front <==> FromOneOf(g, v, deps, y)
    requires ReachesClear(g, v, d, x) && x !in front
    ensures ReachesClear(g, v + front, d, x)
  {
    var p :| PathFromTo(g, p, d, x) && Clear(p, v);
    forall i | 0 <= i < |p| ensures p[i] !in front {
      if p[i] in front {
        var k :| 0 <= k < |deps| && ReachesClear(g, v, deps[k], p[i]);
        ClearRest(g, v, p, i);
        ClearTransitive(g, v, deps[k], p[i], x);
      }
    }
    assert Clear(p, v + front);
  }

  /** Visiting a node adds exactly what can be reached from it without touching what was entered before. */
  lemma {:induction false} AddsWhatIsClear(g: Graph, v: set<nat>, m: nat)
    requires Closed(g) && m in g
    ensures Distinct(Added(g, v, m)) && forall x :: x in Added(g, v, m) <==> ReachesClear(g, v, m, x)
    decreases |g.Keys - v|, 0, 0
  {
    if m in v {
      NothingClear(g, v, m);
    } else {
      FewerLeft(g.Keys, v, m);
      assert forall d | d in g[m] :: Edge(g, m, d);
      AddsWhatIsClearOf(g, v + {m}, g[m]);
      var rest := AddedBy(g, v + {m}, g[m]);
      hide AddedBy, ReachesClear;
      forall x ensures x in rest + [m] <==> ReachesClear(g, v, m, x) {
        ThroughOneDependency(g, v, m, x);
      }
      NotItself(g, v, m);
    }
  }

  lemma NothingClear(g: Graph, v: set<nat>, m: nat)
    requires m in v
    ensures forall x :: !ReachesClear(g, v, m, x)
  {
  }

  lemma NotItself(g: Graph, v: set<nat>, m: nat)
    requires m in g
    ensures !FromOneOf(g, v + {m}, g[m], m)
  {
  }

  lemma ThroughOneDependency(g: Graph, v: set<nat>, m: nat, x: nat)
    requires m in g && m !in v
    ensures ReachesClear(g, v, m, x) <==> x == m || FromOneOf(g, v + {m}, g[m], x)
  {
    ClearSelf(g, v, m);
    if ReachesClear(g, v, m, x) && x != m {
      var p :| PathFromTo(g, p, m, x) && Clear(p, v);
      var d := LeavesForGood(g, v, p);
      var k :| 0 <= k < |g[m]| && g[m][k] == d;
    }
    if FromOneOf(g, v + {m}, g[m], x) {
      var k :| 0 <= k < |g[m]| && ReachesClear(g, v + {m}, g[m][k], x);
      ClearOfMore(g, v, v + {m}, g[m][k], x);
      var p :| PathFromTo(g, p, g[m][k], x) && Clear(p, v);
      ClearEdge(g, v, m, g[m][k]);
      ClearTransitive(g, v, m, g[m][k], x);
    }
  }

  lemma {:induction false} AddsWhatIsClearOf(g: Graph, v: set<nat>, deps: seq<nat>)
    requires Closed(g) && forall d | d in deps :: d in g
    ensures Distinct(AddedBy(g, v, deps)) && forall x :: x in AddedBy(g, v, deps) <==> FromOneOf(g, v, deps, x)
    decreases |g.Keys - v|, 1, |deps|
  {
    if deps != [] {
      var front, d := deps[..|deps| - 1], deps[|deps| - 1];
      assert deps == front + [d];
      AddsWhatIsClearOf(g, v, front);
      var a := AddedBy(g, v, front);
      SubsetIsSmaller(g.Keys - (v + ToSet(a)), g.Keys - v);
      AddsWhatIsClear(g, v + ToSet(a), d);
      AddedNext(g, v, front, d);
      var b := Added(g, v + ToSet(a), d);
      hide Added, AddedBy, FromOneOf, Closed;
      forall x ensures x in a + b <==> FromOneOf(g, v, deps, x) {
        FromOneMore(g, v, front, d, x);
        if x !in a && ReachesClear(g, v, d, x) {
          ClearOfAdded(g, v, front, ToSet(a), d, x);
        }
        if ReachesClear(g, v + ToSet(a), d, x) {
          ClearOfMore(g, v, v + ToSet(a), d, x);
        }
      }
      NewOnesAreNew(g, v, a, b, d);
    }
  }

  lemma NewOnesAreNew(g: Graph, v: set<nat>, a: seq<nat>, b: seq<nat>, d: nat)
    requires Distinct(a) && Distinct(b) && forall x :: x in b <==> ReachesClear(g, v + ToSet(a), d, x)
    ensures Distinct(a + b)
  {
    forall i, j | 0 <= i < j < |a + b| ensures (a + b)[i] != (a + b)[j] {
      if i < |a| <= j {
        var x := b[j - |a|];
        assert x in b && ReachesClear(g, v + ToSet(a), d, x);
        var p :| PathFromTo(g, p, d, x) && Clear(p, v + ToSet(a));
        assert p[|p| - 1] !in v + ToSet(a);
        assert (a + b)[j] !in a;
      }
    }
  }

  // ----- The order

  lemma {:induction false} EarlierFirst(g: Graph, v: set<nat>, deps: seq<nat>, k: nat)
    requires k <= |deps|
    ensures AddedBy(g, v, deps[..k]) <= AddedBy(g, v, deps)
    decreases |deps|
  {
    if k < |deps| {
      EarlierFirst(g, v, deps[..|deps| - 1], k);
      assert deps[..|deps| - 1][..k] == deps[..k];
    } else {
      assert deps[..k] == deps;
    }
  }

  lemma LaterIsAfter(a: seq<nat>, all: seq<nat>, x: nat, y: nat, last: nat)
    requires a <= all && x in a && y in all && y !in a
    ensures Before(all + [last], x, y)
  {
    var k :| 0 <= k < |a| && a[k] == x;
    var l :| 0 <= l < |all| && all[l] == y;
    assert all[..|a|] == a && l >= |a|;
    assert (all + [last])[k] == x && (all + [last])[l] == y;
  }

  lemma ReachedByThen(g: Graph, v: set<nat>, deps: seq<nat>, i: nat, j: nat, x: nat)
    requires Closed(g) && (forall d | d in deps :: d in g) && i < j <= |deps|
    requires ReachesClear(g, v, deps[i], x)
    ensures x in AddedBy(g, v, deps[..j])
  {
    hide ReachesClear, AddedBy, Closed;
    AddsWhatIsClearOf(g, v, deps[..j]);
    assert deps[..j][i] == deps[i];
  }

  lemma NotReachedByThen(g: Graph, v: set<nat>, deps: seq<nat>, j: nat, x: nat)
    requires Closed(g) && (forall d | d in deps :: d in g) && j <= |deps|
    requires forall k | 0 <= k < j :: !ReachesClear(g, v, deps[k], x)
    ensures x !in AddedBy(g, v, deps[..j])
  {
    hide ReachesClear, AddedBy, Closed;
    AddsWhatIsClearOf(g, v, deps[..j]);
  }

  /**
   The order among siblings. Of two nodes that a visit of `m` adds, the one that can be reached from
   an earlier dependency comes first, if the other one cannot be reached from any dependency before
   its own. `v` is what was entered before, and reaching means without touching that, or `m`.
   */
  lemma SiblingsInOrder(g: Graph, v: set<nat>, m: nat, i: nat, j: nat, x: nat, y: nat)
    requires Closed(g) && m in g && m !in v && i < j < |g[m]|
    requires ReachesClear(g, v + {m}, g[m][i], x) && ReachesClear(g, v + {m}, g[m][j], y)
    requires forall k | 0 <= k < j :: !ReachesClear(g, v + {m}, g[m][k], y)
    ensures Before(Added(g, v, m), x, y)
  {
    var deps, w := g[m], v + {m};
    assert forall d | d in deps :: Edge(g, m, d);
    hide ReachesClear;
    EarlierFirst(g, w, deps, j);
    assert deps[..|deps|] == deps;
    hide AddedBy, Closed;
    ReachedByThen(g, w, deps, i, j, x);
    ReachedByThen(g, w, deps, j, |deps|, y);
    NotReachedByThen(g, w, deps, j, y);
    LaterIsAfter(AddedBy(g, w, deps[..j]), AddedBy(g, w, deps), x, y, m);
  }

  /** Each dependency in turn adds what its own visit adds to everything entered before it. */
  lemma PiecesInOrder(g: Graph, v: set<nat>, m: nat, i: nat)
    requires m in g && m !in v && i < |g[m]|
    ensures
      var earlier := AddedBy(g, v + {m}, g[m][..i]);
      earlier + Added(g, v + {m} + ToSet(earlier), g[m][i]) <= Added(g, v, m)
  {
    var deps, w := g[m], v + {m};
    EarlierFirst(g, w, deps, i + 1);
    assert deps[..i + 1] == deps[..i] + [deps[i]];
    AddedNext(g, w, deps[..i], deps[i]);
  }

  /** A node comes after everything else that its visit adds. */
  lemma ItselfLast(g: Graph, v: set<nat>, m: nat, x: nat)
    requires m in g && m !in v && x in Added(g, v, m) && x != m
    ensures Before(Added(g, v, m), x, m)
  {
    var q := Added(g, v, m);
    var k :| 0 <= k < |q| && q[k] == x;
    assert q[|q| - 1] == m;
  }

  /** Without cycles nothing that a dependency reaches leads back, so keeping clear means nothing. */
  lemma AcyclicIsClear(g: Graph, m: nat, d: nat, x: nat)
    requires Acyclic(g) && Edge(g, m, d)
    ensures ReachesClear(g, {m}, d, x) <==> Reaches(g, d, x)
  {
    if Reaches(g, d, x) {
      var p :| PathFromTo(g, p, d, x);
      forall i | 0 <= i < |p| ensures p[i] != m {
        if p[i] == m {
          SubPath(g, p, 0, i + 1);
          assert PathFromTo(g, p[0..i + 1], d, m);
          ReachStep(g, d, m, d);
        }
      }
      assert Clear(p, {m});
    }
  }

  /** Without cycles: what an earlier dependency of the entry needs comes before what only later ones need. */
  lemma EarlierDependenciesFirst(g: Graph, entry: nat, i: nat, j: nat, x: nat, y: nat)
    requires Closed(g) && Acyclic(g) && entry in g && i < j < |g[entry]|
    requires Reaches(g, g[entry][i], x) && Reaches(g, g[entry][j], y)
    requires forall k | 0 <= k < j :: !Reaches(g, g[entry][k], y)
    ensures Before(Added(g, {}, entry), x, y)
  {
    hide Reaches, ReachesClear, Added;
    assert {} + {entry} == {entry};
    forall k, z | 0 <= k < |g[entry]| ensures ReachesClear(g, {entry}, g[entry][k], z) <==> Reaches(g, g[entry][k], z) {
      AcyclicIsClear(g, entry, g[entry][k], z);
    }
    SiblingsInOrder(g, {}, entry, i, j, x, y);
  }
}
