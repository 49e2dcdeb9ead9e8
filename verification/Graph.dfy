/** Directed graphs of workflow nodes: live edges, paths, reachability and cycles. */
module Graph {
  type Id = string

  datatype Edge = Edge(source: Id, target: Id)

  /** The edges whose two ends are nodes; the others are skipped by every reader of the graph. */
  function Live(nodes: seq<Id>, edges: seq<Edge>): (r: seq<Edge>)
    ensures forall e :: e in r <==> e in edges && e.source in nodes && e.target in nodes
  {
    if edges == [] then []
    else
      var last := edges[|edges| - 1];
      assert forall e :: e in edges <==> e in edges[..|edges| - 1] || e == last;
      Live(nodes, edges[..|edges| - 1]) + (if last.source in nodes && last.target in nodes then [last] else [])
  }

  /** Consecutive nodes of `p` are joined by edges. */
  predicate IsPath(edges: seq<Edge>, p: seq<Id>) {
    p != [] && forall i :: 0 <= i < |p| - 1 ==> Edge(p[i], p[i + 1]) in edges
  }

  predicate Joins(edges: seq<Edge>, p: seq<Id>, u: Id, v: Id) {
    IsPath(edges, p) && |p| > 1 && p[0] == u && p[|p| - 1] == v
  }

  /** There is a path of at least one edge. */
  ghost predicate Reaches(edges: seq<Edge>, u: Id, v: Id) {
    exists p :: Joins(edges, p, u, v)
  }

  ghost predicate Cyclic(edges: seq<Edge>) {
    exists u :: Reaches(edges, u, u)
  }

  lemma ReachesEdge(edges: seq<Edge>, u: Id, v: Id)
    requires Edge(u, v) in edges
    ensures Reaches(edges, u, v)
  {
    assert Joins(edges, [u, v], u, v);
  }

  lemma ReachesTransitive(edges: seq<Edge>, u: Id, v: Id, w: Id)
    requires Reaches(edges, u, v) && Reaches(edges, v, w)
    ensures Reaches(edges, u, w)
  {
    var p :| Joins(edges, p, u, v);
    var q :| Joins(edges, q, v, w);
    var r := p + q[1..];
    forall i | 0 <= i < |r| - 1 ensures Edge(r[i], r[i + 1]) in edges {
      if i >= |p| - 1 {
        assert r[i] == q[i - |p| + 1] && r[i + 1] == q[i - |p| + 2];
      }
    }
    assert Joins(edges, r, u, w);
  }

  /** A path leaves by an edge and goes on from there, or ends there. */
  lemma ReachesFirst(edges: seq<Edge>, p: seq<Id>, u: Id, v: Id)
    requires Joins(edges, p, u, v)
    ensures Edge(u, p[1]) in edges
    ensures p[1] == v || Joins(edges, p[1..], p[1], v)
  {
    assert Edge(p[0], p[0 + 1]) in edges;
    var q := p[1..];
    forall i | 0 <= i < |q| - 1 ensures Edge(q[i], q[i + 1]) in edges {
      assert Edge(p[i + 1], p[i + 2]) in edges;
    }
  }
}
