/**
 Which nodes the queue can never reach: those of a set that feeds all its nodes by more edges than the repeated
 listing of other nodes makes up for. Unless a source is listed twice, a cycle leads to exactly these nodes.
 */
module Starvation {
  import opened Graph
  import opened GraphCounts

  /** How often the queue can hold a node: one that no edge enters as often as it is listed, any other once. */
  function Share(nodes: seq<Id>, live: seq<Edge>, x: Id): nat {
    if x !in nodes then 0 else if Into(live, x) == 0 then Count(nodes, x) else 1
  }

  /** How often the counter of `t` is counted down beyond its edges, by nodes that are queued several times. */
  function Surplus(nodes: seq<Id>, live: seq<Edge>, edges: seq<Edge>, t: Id): int {
    if edges == [] then 0
    else
      var last := edges[|edges| - 1];
      Surplus(nodes, live, edges[..|edges| - 1], t)
        + (if last.target == t then Share(nodes, live, last.source) - 1 else 0)
  }

  /** Into every node of the set lead more edges from the set than its counter is counted down too often. */
  predicate Starving(nodes: seq<Id>, live: seq<Edge>, held: set<Id>) {
    forall t :: t in held ==> Surplus(nodes, live, live, t) < From(live, held, t)
  }

  ghost predicate Starved(nodes: seq<Id>, live: seq<Edge>, v: Id) {
    exists held :: v in held && Starving(nodes, live, held)
  }

  /** No node that no edge enters is listed twice. */
  ghost predicate SourcesOnce(nodes: seq<Id>, live: seq<Edge>) {
    forall x :: x in nodes ==> Share(nodes, live, x) == 1
  }

  /** The node is on a cycle or downstream of one. */
  ghost predicate Blocked(edges: seq<Edge>, v: Id) {
    exists u :: Reaches(edges, u, u) && (u == v || Reaches(edges, u, v))
  }

  lemma {:induction false} FromPositive(edges: seq<Edge>, held: set<Id>, t: Id)
    ensures From(edges, held, t) > 0 <==> exists e :: e in edges && e.target == t && e.source in held
  {
    if edges != [] {
      var front, last := edges[..|edges| - 1], edges[|edges| - 1];
      FromPositive(front, held, t);
      assert forall e :: e in edges <==> e in front || e == last;
    }
  }

  // ----- Cycles -----

  lemma {:induction false} NoSurplus(nodes: seq<Id>, live: seq<Edge>, edges: seq<Edge>, t: Id)
    requires forall e :: e in edges ==> e.source in nodes
    requires SourcesOnce(nodes, live)
    ensures Surplus(nodes, live, edges, t) == 0
  {
    if edges != [] {
      var front, last := edges[..|edges| - 1], edges[|edges| - 1];
      assert last in edges && forall e :: e in front ==> e in edges;
      NoSurplus(nodes, live, front, t);
    }
  }

  lemma {:induction false} SurplusNonNegative(nodes: seq<Id>, live: seq<Edge>, edges: seq<Edge>, t: Id)
    requires forall e :: e in edges ==> e.source in nodes
    ensures Surplus(nodes, live, edges, t) >= 0
  {
    if edges != [] {
      var front, last := edges[..|edges| - 1], edges[|edges| - 1];
      assert last in edges && forall e :: e in front ==> e in edges;
      CountIn(nodes, last.source);
      SurplusNonNegative(nodes, live, front, t);
    }
  }

  /** An edge leads from the set to `v`. */
  ghost predicate Fed(live: seq<Edge>, held: set<Id>, v: Id) {
    exists u :: u in held && Edge(u, v) in live
  }

  /** Into every node of the set leads an edge from the set. */
  ghost predicate Sustained(live: seq<Edge>, held: set<Id>) {
    forall v {:trigger Fed(live, held, v)} :: v in held ==> Fed(live, held, v)
  }

  lemma FedFrom(live: seq<Edge>, held: set<Id>, v: Id)
    ensures From(live, held, v) > 0 <==> Fed(live, held, v)
  {
    FromPositive(live, held, v);
    if e :| e in live && e.target == v && e.source in held {
      assert e == Edge(e.source, v);
    }
  }

  lemma PathCons(edges: seq<Edge>, u: Id, p: seq<Id>)
    requires IsPath(edges, p) && Edge(u, p[0]) in edges
    ensures IsPath(edges, [u] + p)
  {
    var q := [u] + p;
    forall i | 0 <= i < |q| - 1 ensures Edge(q[i], q[i + 1]) in edges {
      if i > 0 {
        assert Edge(p[i - 1], p[i - 1 + 1]) in edges;
      }
    }
  }

  /** A path of any length that ends in a node of the set and never leaves it. */
  lemma {:induction false} BackwardWalk(live: seq<Edge>, held: set<Id>, v: Id, n: nat) returns (p: seq<Id>)
    requires Sustained(live, held) && v in held
    ensures IsPath(live, p) && |p| == n + 1 && p[n] == v
    ensures forall k :: 0 <= k < |p| ==> p[k] in held
  {
    if n == 0 {
      p := [v];
    } else {
      var q := BackwardWalk(live, held, v, n - 1);
      assert Fed(live, held, q[0]);
      var u :| u in held && Edge(u, q[0]) in live;
      PathCons(live, u, q);
      p := [u] + q;
    }
  }

  lemma {:induction false} Pigeonhole(s: seq<Id>, pool: set<Id>) returns (i: nat, j: nat)
    requires forall k :: 0 <= k < |s| ==> s[k] in pool
    requires |s| > |pool|
    ensures i < j < |s| && s[i] == s[j]
    decreases |s|
  {
    var last := s[|s| - 1];
    var front := s[..|s| - 1];
    if last in front {
      i :| 0 <= i < |front| && front[i] == last;
      j := |s| - 1;
    } else {
      i, j := Pigeonhole(front, pool - {last});
    }
  }

  lemma SubPath(edges: seq<Edge>, p: seq<Id>, i: nat, j: nat)
    requires IsPath(edges, p) && i < j < |p|
    ensures Reaches(edges, p[i], p[j])
  {
    var q := p[i..j + 1];
    forall k | 0 <= k < |q| - 1 ensures Edge(q[k], q[k + 1]) in edges {
      assert Edge(p[i + k], p[i + k + 1]) in edges;
    }
    assert Joins(edges, q, p[i], p[j]);
  }

  /** A cycle leads to every node of a set that feeds all its nodes itself. */
  lemma LeftOutBlocked(live: seq<Edge>, held: set<Id>, v: Id)
    requires Sustained(live, held) && v in held
    ensures Blocked(live, v)
  {
    var p := BackwardWalk(live, held, v, |held|);
    var i, j := Pigeonhole(p, held);
    SubPath(live, p, i, j);
    SubPath(live, p, i, |p| - 1);
    assert Reaches(live, p[i], p[i]);
  }

  /** Whatever starves has a cycle leading to it. */
  lemma StarvedBlocked(nodes: seq<Id>, edges: seq<Edge>, v: Id)
    requires Starved(nodes, Live(nodes, edges), v)
    ensures Blocked(Live(nodes, edges), v)
  {
    var live := Live(nodes, edges);
    var held :| v in held && Starving(nodes, live, held);
    forall t | t in held ensures Fed(live, held, t) {
      SurplusNonNegative(nodes, live, live, t);
      FedFrom(live, held, t);
    }
    LeftOutBlocked(live, held, v);
  }

  ghost function BlockedNodes(nodes: seq<Id>, live: seq<Edge>): set<Id> {
    set v | v in nodes && Blocked(live, v)
  }

  /** A blocked node is entered from a blocked node. */
  lemma BlockedFed(nodes: seq<Id>, edges: seq<Edge>, v: Id)
    requires Blocked(Live(nodes, edges), v)
    ensures Fed(Live(nodes, edges), BlockedNodes(nodes, Live(nodes, edges)), v)
  {
    var live := Live(nodes, edges);
    var u :| Reaches(live, u, u) && (u == v || Reaches(live, u, v));
    var p :| Joins(live, p, u, v);
    var n := |p| - 2;
    assert Edge(p[n], p[n + 1]) in live;
    if n > 0 {
      SubPath(live, p, 0, n);
    }
    assert p[n] in BlockedNodes(nodes, live);
  }

  /** When no node that no edge enters is listed twice, the nodes that starve are those a cycle leads to. */
  lemma StarvedExactlyBlocked(nodes: seq<Id>, edges: seq<Edge>, v: Id)
    requires SourcesOnce(nodes, Live(nodes, edges)) && v in nodes
    ensures Starved(nodes, Live(nodes, edges), v) <==> Blocked(Live(nodes, edges), v)
  {
    var live := Live(nodes, edges);
    if Starved(nodes, live, v) {
      StarvedBlocked(nodes, edges, v);
    }
    if Blocked(live, v) {
      var held := BlockedNodes(nodes, live);
      forall t | t in held ensures Surplus(nodes, live, live, t) < From(live, held, t) {
        NoSurplus(nodes, live, live, t);
        BlockedFed(nodes, edges, t);
        FedFrom(live, held, t);
      }
      assert v in held && Starving(nodes, live, held);
    }
  }

  lemma NamedOnce(nodes: seq<Id>, live: seq<Edge>)
    requires NoDuplicates(nodes)
    ensures SourcesOnce(nodes, live)
  {
    forall x | x in nodes ensures Share(nodes, live, x) == 1 {
      CountOnce(nodes, x);
    }
  }

  /** A cycle blocks one of the nodes, and nothing else does. */
  lemma CyclicBlocks(nodes: seq<Id>, edges: seq<Edge>)
    ensures Cyclic(Live(nodes, edges)) <==> exists v :: v in nodes && Blocked(Live(nodes, edges), v)
  {
    var live := Live(nodes, edges);
    if u :| Reaches(live, u, u) {
      var p :| Joins(live, p, u, u);
      assert Edge(p[0], p[0 + 1]) in live;
      assert u in nodes && Blocked(live, u);
    }
  }

  ghost predicate Deadlocked(nodes: seq<Id>, live: seq<Edge>) {
    exists held :: held != {} && Starving(nodes, live, held)
  }

  lemma StarvedDeadlocks(nodes: seq<Id>, live: seq<Edge>, v: Id)
    requires Starved(nodes, live, v)
    ensures Deadlocked(nodes, live)
  {
    var held :| v in held && Starving(nodes, live, held);
    assert held != {};
  }

  lemma StarvingInNodes(nodes: seq<Id>, edges: seq<Edge>, held: set<Id>, t: Id)
    requires Starving(nodes, Live(nodes, edges), held) && t in held
    ensures t in nodes
  {
    var live := Live(nodes, edges);
    SurplusNonNegative(nodes, live, live, t);
    FedFrom(live, held, t);
    var u :| u in held && Edge(u, t) in live;
  }

  /** Only a graph with a cycle is deadlocked, and every one is unless a node no edge enters is listed twice. */
  lemma DeadlockedCyclic(nodes: seq<Id>, edges: seq<Edge>)
    ensures Deadlocked(nodes, Live(nodes, edges)) ==> Cyclic(Live(nodes, edges))
    ensures SourcesOnce(nodes, Live(nodes, edges)) ==>
              (Deadlocked(nodes, Live(nodes, edges)) <==> Cyclic(Live(nodes, edges)))
  {
    var live := Live(nodes, edges);
    CyclicBlocks(nodes, edges);
    if held :| held != {} && Starving(nodes, live, held) {
      var t :| t in held;
      StarvingInNodes(nodes, edges, held, t);
      assert Starved(nodes, live, t);
      StarvedBlocked(nodes, edges, t);
    }
    if SourcesOnce(nodes, live) && Cyclic(live) {
      var v :| v in nodes && Blocked(live, v);
      StarvedExactlyBlocked(nodes, edges, v);
    }
  }
}
