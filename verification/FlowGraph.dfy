/** Paths, reachability and cycles over an edge list. Labels and guards play no part here. */
module FlowGraph {
  import opened Prelude
  import opened FlowDsl

  predicate HasEdge(edges: seq<Edge>, a: NodeId, b: NodeId) {
    exists e :: e in edges && e.from == a && e.to == b
  }

  ghost predicate IsPath(edges: seq<Edge>, p: seq<NodeId>) {
    |p| > 0 && forall i :: 0 <= i < |p| - 1 ==> HasEdge(edges, p[i], p[i + 1])
  }

  ghost predicate PathBetween(edges: seq<Edge>, p: seq<NodeId>, a: NodeId, b: NodeId) {
    IsPath(edges, p) && p[0] == a && p[|p| - 1] == b
  }

  ghost predicate Reachable(edges: seq<Edge>, a: NodeId, b: NodeId) {
    exists p :: PathBetween(edges, p, a, b)
  }

  /** No path of at least one edge returns to where it began. */
  ghost predicate Acyclic(edges: seq<Edge>) {
    forall p :: IsPath(edges, p) && |p| > 1 ==> p[0] != p[|p| - 1]
  }

  /** `c` contains the target of every edge that leaves it. */
  ghost predicate ClosedUnder(edges: seq<Edge>, c: set<NodeId>) {
    forall e :: e in edges && e.from in c ==> e.to in c
  }

  lemma ReachableSelf(edges: seq<Edge>, a: NodeId)
    ensures Reachable(edges, a, a)
  {
    assert PathBetween(edges, [a], a, a);
  }

  lemma ReachableStep(edges: seq<Edge>, a: NodeId, b: NodeId, c: NodeId)
    requires Reachable(edges, a, b) && HasEdge(edges, b, c)
    ensures Reachable(edges, a, c)
  {
    var p :| PathBetween(edges, p, a, b);
    assert PathBetween(edges, p + [c], a, c);
  }

  /** A path that starts in a closed set never leaves it. */
  lemma {:induction false} PathStaysClosed(edges: seq<Edge>, c: set<NodeId>, p: seq<NodeId>)
    requires ClosedUnder(edges, c) && IsPath(edges, p) && p[0] in c
    ensures forall i :: 0 <= i < |p| ==> p[i] in c
    decreases |p|
  {
    if |p| > 1 {
      var q := p[..|p| - 1];
      assert IsPath(edges, q);
      PathStaysClosed(edges, c, q);
      assert q[|p| - 2] == p[|p| - 2];
      assert HasEdge(edges, p[|p| - 2], p[|p| - 2 + 1]);
    }
  }

  lemma ReachableStaysClosed(edges: seq<Edge>, c: set<NodeId>, a: NodeId, b: NodeId)
    requires ClosedUnder(edges, c) && a in c && Reachable(edges, a, b)
    ensures b in c
  {
    var p :| PathBetween(edges, p, a, b);
    PathStaysClosed(edges, c, p);
  }

  /** On an acyclic edge list a path visits no node twice. */
  lemma AcyclicPathsAreSimple(edges: seq<Edge>, p: seq<NodeId>)
    requires Acyclic(edges) && IsPath(edges, p)
    ensures NoDuplicates(p)
  {
    forall i, j | 0 <= i < j < |p|
      ensures p[i] != p[j]
    {
      var q := p[i..j + 1];
      forall k | 0 <= k < |q| - 1
        ensures HasEdge(edges, q[k], q[k + 1])
      {
        assert HasEdge(edges, p[i + k], p[i + k + 1]);
      }
      assert IsPath(edges, q);
    }
  }
}
