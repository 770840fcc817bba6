/** Finite directed graphs given by successor lists, their paths and cycles. */
module Graphs {
  type Graph = map<nat, seq<nat>>

  ghost predicate Edge(g: Graph, a: nat, b: nat) {
    a in g && b in g[a]
  }

  /** The node at `i` has a successor in `p`, and an edge leads there. */
  ghost predicate Linked(g: Graph, p: seq<nat>, i: int) {
    0 <= i < |p| - 1 && Edge(g, p[i], p[i + 1])
  }

  ghost predicate IsPath(g: Graph, p: seq<nat>) {
    && |p| >= 1
    && forall i {:trigger Linked(g, p, i)} | 0 <= i < |p| - 1 :: Linked(g, p, i)
  }

  /** `p` leads from `a` to `b`; a single node is a path of no edges. */
  ghost predicate PathFromTo(g: Graph, p: seq<nat>, a: nat, b: nat) {
    IsPath(g, p) && p[0] == a && p[|p| - 1] == b
  }

  ghost predicate Reaches(g: Graph, a: nat, b: nat) {
    exists p :: PathFromTo(g, p, a, b)
  }

  /** Like `Reaches`, by a path of at least one edge. */
  ghost predicate ReachesByEdges(g: Graph, a: nat, b: nat) {
    exists p :: PathFromTo(g, p, a, b) && |p| >= 2
  }

  ghost predicate Acyclic(g: Graph) {
    forall a :: !ReachesByEdges(g, a, a)
  }

  lemma ClosedPath(g: Graph, p: seq<nat>)
    requires IsPath(g, p) && |p| >= 2 && p[0] == p[|p| - 1]
    ensures !Acyclic(g)
  {
    assert PathFromTo(g, p, p[0], p[0]);
    assert ReachesByEdges(g, p[0], p[0]);
  }

  /** `h` has every edge of `g`. */
  ghost predicate Extends(h: Graph, g: Graph) {
    forall a, b | Edge(g, a, b) :: Edge(h, a, b)
  }

  /** Every edge of `h` is an edge of `g` turned around. */
  ghost predicate Reverses(h: Graph, g: Graph) {
    forall a, b | Edge(h, a, b) :: Edge(g, b, a)
  }

  lemma PathInExtension(g: Graph, h: Graph, p: seq<nat>)
    requires Extends(h, g) && IsPath(g, p)
    ensures IsPath(h, p)
  {
    forall i | 0 <= i < |p| - 1 ensures Linked(h, p, i) {
      assert Linked(g, p, i);
    }
  }

  lemma SubPath(g: Graph, p: seq<nat>, i: nat, j: nat)
    requires IsPath(g, p) && i < j <= |p|
    ensures IsPath(g, p[i..j])
  {
    forall k | 0 <= k < j - i - 1 ensures Linked(g, p[i..j], k) {
      assert Linked(g, p, i + k);
    }
  }

  lemma EdgePath(g: Graph, a: nat, b: nat)
    requires Edge(g, a, b)
    ensures PathFromTo(g, [a, b], a, b)
  {
    assert Linked(g, [a, b], 0);
  }

  lemma ReachInExtension(g: Graph, h: Graph, a: nat, b: nat)
    requires Extends(h, g)
    ensures ReachesByEdges(g, a, b) ==> ReachesByEdges(h, a, b)
  {
    if ReachesByEdges(g, a, b) {
      var p :| PathFromTo(g, p, a, b) && |p| >= 2;
      PathInExtension(g, h, p);
      assert PathFromTo(h, p, a, b);
    }
  }

  lemma ReachStep(g: Graph, a: nat, b: nat, c: nat)
    requires Reaches(g, a, b) && Edge(g, b, c)
    ensures Reaches(g, a, c) && ReachesByEdges(g, a, c)
  {
    var p :| PathFromTo(g, p, a, b);
    EdgePath(g, b, c);
    JoinPaths(g, p, [b, c]);
    assert PathFromTo(g, p + [b, c][1..], a, c);
  }

  lemma ReachSelf(g: Graph, a: nat)
    ensures Reaches(g, a, a)
  {
    assert PathFromTo(g, [a], a, a);
  }

  lemma ReachTransitive(g: Graph, a: nat, b: nat, c: nat)
    requires Reaches(g, a, b) && Reaches(g, b, c)
    ensures Reaches(g, a, c)
  {
    var p :| PathFromTo(g, p, a, b);
    var q :| PathFromTo(g, q, b, c);
    JoinPaths(g, p, q);
    assert PathFromTo(g, p + q[1..], a, c);
  }

  lemma JoinPaths(g: Graph, p: seq<nat>, q: seq<nat>)
    requires IsPath(g, p) && IsPath(g, q) && p[|p| - 1] == q[0]
    ensures IsPath(g, p + q[1..])
    ensures (p + q[1..])[|p + q[1..]| - 1] == q[|q| - 1]
  {
    var r := p + q[1..];
    forall i | 0 <= i < |r| - 1 ensures Linked(g, r, i) {
      if i < |p| - 1 {
        assert Linked(g, p, i);
      } else {
        assert Linked(g, q, i - (|p| - 1));
        assert r[i] == q[i - (|p| - 1)] && r[i + 1] == q[i - (|p| - 1) + 1];
      }
    }
  }

  function Reversed(p: seq<nat>): (r: seq<nat>)
    ensures |r| == |p|
    ensures forall i | 0 <= i < |p| :: r[i] == p[|p| - 1 - i]
  {
    if p == [] then [] else Reversed(p[1..]) + [p[0]]
  }

  lemma ReversedPath(g: Graph, h: Graph, p: seq<nat>)
    requires Reverses(h, g) && IsPath(h, p)
    ensures PathFromTo(g, Reversed(p), p[|p| - 1], p[0])
  {
    var r := Reversed(p);
    forall i | 0 <= i < |r| - 1 ensures Linked(g, r, i) {
      assert Linked(h, p, |p| - 2 - i);
    }
  }

  /** The graph `g` with one more edge from `a` to `b`, put last in the list of `a`. */
  function AddEdge(g: Graph, a: nat, b: nat): Graph {
    g[a := (if a in g then g[a] else []) + [b]]
  }

  lemma AddedEdges(g: Graph, a: nat, b: nat, x: nat, y: nat)
    ensures Edge(AddEdge(g, a, b), x, y) <==> Edge(g, x, y) || (x == a && y == b)
  {
  }

  /** A path to `a` never needs an added edge that leaves `a`: cut it at its first visit of `a`. */
  lemma {:induction false} PathBeforeAddedEdge(g: Graph, a: nat, b: nat, p: seq<nat>)
    requires IsPath(AddEdge(g, a, b), p) && p[|p| - 1] == a
    ensures Reaches(g, p[0], a)
    decreases |p|
  {
    hide AddEdge, Reaches;
    if p[0] == a {
      ReachSelf(g, a);
    } else {
      FirstEdge(AddEdge(g, a, b), p);
      PathBeforeAddedEdge(g, a, b, p[1..]);
      AddedEdges(g, a, b, p[0], p[1]);
      ReachFromEdge(g, p[0], p[1], a);
    }
  }

  lemma FirstEdge(g: Graph, p: seq<nat>)
    requires IsPath(g, p) && |p| >= 2
    ensures Edge(g, p[0], p[1]) && IsPath(g, p[1..])
  {
    assert Linked(g, p, 0);
    SubPath(g, p, 1, |p|);
    assert p[1..] == p[1..|p|];
  }

  lemma LastEdge(g: Graph, p: seq<nat>)
    requires IsPath(g, p) && |p| >= 2
    ensures Edge(g, p[|p| - 2], p[|p| - 1]) && IsPath(g, p[..|p| - 1])
  {
    assert Linked(g, p, |p| - 2);
    SubPath(g, p, 0, |p| - 1);
    assert p[..|p| - 1] == p[0..|p| - 1];
  }

  lemma ReachFromEdge(g: Graph, a: nat, b: nat, c: nat)
    requires Edge(g, a, b) && Reaches(g, b, c)
    ensures Reaches(g, a, c)
  {
    ReachSelf(g, a);
    ReachStep(g, a, a, b);
    ReachTransitive(g, a, b, c);
  }

  /** A closed path that takes the new edge leads from the end of that edge back to its start. */
  lemma AroundNewEdge(g: Graph, a: nat, b: nat, p: seq<nat>, k: nat)
    requires IsPath(AddEdge(g, a, b), p) && p[0] == p[|p| - 1] && k + 1 < |p| && p[k] == a && p[k + 1] == b
    ensures Reaches(g, b, a)
  {
    hide AddEdge, IsPath, Reaches;
    var h, back, front := AddEdge(g, a, b), p[k + 1..|p|], p[0..k + 1];
    SubPath(h, p, k + 1, |p|);
    SubPath(h, p, 0, k + 1);
    JoinPaths(h, back, front);
    PathBeforeAddedEdge(g, a, b, back + front[1..]);
  }

  /** A path that does not take the new edge was there before. */
  lemma PathWithoutNewEdge(g: Graph, a: nat, b: nat, p: seq<nat>)
    requires IsPath(AddEdge(g, a, b), p) && forall i | 0 <= i < |p| - 1 :: !(p[i] == a && p[i + 1] == b)
    ensures IsPath(g, p)
  {
    hide AddEdge;
    forall i | 0 <= i < |p| - 1 ensures Linked(g, p, i) {
      assert Linked(AddEdge(g, a, b), p, i);
      AddedEdges(g, a, b, p[i], p[i + 1]);
    }
  }

  /** An edge from `a` to `b` closes no cycle when `b` does not already reach `a`. */
  lemma {:induction false} AddEdgeKeepsAcyclic(g: Graph, a: nat, b: nat)
    requires Acyclic(g) && !Reaches(g, b, a)
    ensures Acyclic(AddEdge(g, a, b))
  {
    hide IsPath, AddEdge, Reaches;
    forall x ensures !ReachesByEdges(AddEdge(g, a, b), x, x) {
      if ReachesByEdges(AddEdge(g, a, b), x, x) {
        var p :| PathFromTo(AddEdge(g, a, b), p, x, x) && |p| >= 2;
        if k: nat :| k + 1 < |p| && p[k] == a && p[k + 1] == b {
          AroundNewEdge(g, a, b, p, k);
        } else {
          PathWithoutNewEdge(g, a, b, p);
          ClosedPath(g, p);
        }
      }
    }
  }

  lemma FewerEdgesKeepAcyclic(g: Graph, h: Graph)
    requires Acyclic(h) && Extends(h, g)
    ensures Acyclic(g)
  {
    forall a ensures !ReachesByEdges(g, a, a) {
      ReachInExtension(g, h, a, a);
    }
  }

  lemma {:induction false} NoRepeatIsShort(p: seq<nat>, s: set<nat>)
    requires forall i | 0 <= i < |p| :: p[i] in s
    requires forall i, j | 0 <= i < j < |p| :: p[i] != p[j]
    ensures |p| <= |s|
  {
    if p != [] {
      NoRepeatIsShort(p[1..], s - {p[0]});
    }
  }

  /** In an acyclic graph a path that stays within a finite set is no longer than the set. */
  lemma AcyclicPathIsShort(g: Graph, p: seq<nat>, s: set<nat>)
    requires Acyclic(g) && IsPath(g, p)
    requires forall i | 0 <= i < |p| :: p[i] in s
    ensures |p| <= |s|
  {
    forall i, j | 0 <= i < j < |p| ensures p[i] != p[j] {
      if p[i] == p[j] {
        SubPath(g, p, i, j + 1);
        ClosedPath(g, p[i..j + 1]);
      }
    }
    NoRepeatIsShort(p, s);
  }
}
