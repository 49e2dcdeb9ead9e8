/**
 The graph diagnostics of a workflow together, and what the cycle check does on ids the id check rejects.
 */
module GraphDiagnostics {
  import opened Graph
  import opened GraphCounts
  import opened Kahn
  import opened Starvation

  /** Where each diagnostic is raised: at which nodes or edges, and for the graph. */
  datatype Findings = Findings(invalidIds: seq<nat>, missingReferences: seq<nat>, selfReferences: seq<nat>, cycle: bool)

  predicate NoFindings(f: Findings) {
    f.invalidIds == [] && f.missingReferences == [] && f.selfReferences == [] && !f.cycle
  }

  predicate InvalidId(nodes: seq<Id>, i: nat)
    requires i < |nodes|
  {
    nodes[i] == "" || nodes[i] in nodes[..i]
  }

  predicate MissingReference(nodes: seq<Id>, e: Edge) {
    e.source !in nodes || e.target !in nodes
  }

  method CheckIds(nodes: seq<Id>) returns (invalid: seq<nat>, ids: set<Id>)
    ensures forall i :: i in invalid <==> 0 <= i < |nodes| && InvalidId(nodes, i)
    ensures forall id :: id in ids <==> id in nodes
  {
    invalid, ids := [], {};
    for n := 0 to |nodes|
      invariant forall i :: i in invalid <==> 0 <= i < n && InvalidId(nodes, i)
      invariant forall id :: id in ids <==> id in nodes[..n]
    {
      if nodes[n] == "" || nodes[n] in ids {
        invalid := invalid + [n];
      }
      assert nodes[..n + 1] == nodes[..n] + [nodes[n]];
      ids := ids + {nodes[n]};
    }
    assert nodes[..|nodes|] == nodes;
  }

  method CheckEdges(nodes: seq<Id>, ids: set<Id>, edges: seq<Edge>) returns (missing: seq<nat>, loops: seq<nat>)
    requires forall id :: id in ids <==> id in nodes
    ensures forall i :: i in missing <==> 0 <= i < |edges| && MissingReference(nodes, edges[i])
    ensures forall i :: i in loops <==> 0 <= i < |edges| && edges[i].source == edges[i].target
  {
    missing, loops := [], [];
    for n := 0 to |edges|
      invariant forall i :: i in missing <==> 0 <= i < n && MissingReference(nodes, edges[i])
      invariant forall i :: i in loops <==> 0 <= i < n && edges[i].source == edges[i].target
    {
      if edges[n].source !in ids || edges[n].target !in ids {
        missing := missing + [n];
      }
      if edges[n].source == edges[n].target {
        loops := loops + [n];
      }
    }
  }

  lemma NoInvalidIds(nodes: seq<Id>, invalid: seq<nat>)
    requires forall i :: i in invalid <==> 0 <= i < |nodes| && InvalidId(nodes, i)
    ensures invalid == [] <==> WellNamed(nodes)
  {
    if invalid == [] {
      forall i, j | 0 <= i < j < |nodes| ensures nodes[i] != nodes[j] {
        assert j !in invalid && nodes[i] in nodes[..j];
      }
      forall i | 0 <= i < |nodes| ensures nodes[i] != "" {
        assert i !in invalid;
      }
    }
    if invalid != [] {
      var i := invalid[0];
      assert i in invalid && InvalidId(nodes, i);
      if nodes[i] != "" {
        var j :| 0 <= j < i && nodes[j] == nodes[i];
      }
    }
  }

  lemma AllReferencesFound(nodes: seq<Id>, edges: seq<Edge>, missing: seq<nat>)
    requires forall i :: i in missing <==> 0 <= i < |edges| && MissingReference(nodes, edges[i])
    ensures missing == [] <==> forall e :: e in edges ==> !MissingReference(nodes, e)
  {
    if missing != [] {
      assert missing[0] in missing;
      assert edges[missing[0]] in edges;
    } else {
      forall e | e in edges ensures !MissingReference(nodes, e) {
        var i :| 0 <= i < |edges| && edges[i] == e;
        assert i !in missing;
      }
    }
  }

  lemma LoopsAreCycles(nodes: seq<Id>, edges: seq<Edge>, loops: seq<nat>)
    requires forall i :: i in loops <==> 0 <= i < |edges| && edges[i].source == edges[i].target
    requires forall e :: e in edges ==> !MissingReference(nodes, e)
    ensures loops != [] ==> Cyclic(Live(nodes, edges))
  {
    if loops != [] {
      assert loops[0] in loops;
      var e := edges[loops[0]];
      assert e in edges && e == Edge(e.source, e.source);
      ReachesEdge(Live(nodes, edges), e.source, e.source);
    }
  }

  /**
   `analyzeAuthoringSources` finds nothing wrong with a graph exactly when its ids are non-empty and unique,
   every edge joins two nodes, and there is no cycle: for any nodes and edges whatever.
   */
  method AnalyzeGraph(nodes: seq<Id>, edges: seq<Edge>) returns (f: Findings)
    ensures forall i :: i in f.invalidIds <==> 0 <= i < |nodes| && InvalidId(nodes, i)
    ensures forall i :: i in f.missingReferences <==> 0 <= i < |edges| && MissingReference(nodes, edges[i])
    ensures forall i :: i in f.selfReferences <==> 0 <= i < |edges| && edges[i].source == edges[i].target
    ensures NoFindings(f) <==>
              WellNamed(nodes) && (forall e :: e in edges ==> !MissingReference(nodes, e))
                && !Cyclic(Live(nodes, edges))
  {
    var invalid, ids := CheckIds(nodes);
    var missing, loops := CheckEdges(nodes, ids, edges);
    var cycle := GraphCycleDiagnostic(nodes, edges);
    f := Findings(invalid, missing, loops, cycle);
    NoInvalidIds(nodes, invalid);
    AllReferencesFound(nodes, edges, missing);
    if forall e :: e in edges ==> !MissingReference(nodes, e) {
      LoopsAreCycles(nodes, edges, loops);
    }
  }

  // ----- The cycle check alone, on ids it is not meant for -----

  const REPEATED: seq<Id> := ["x", "x", "a", "b"]
  const AROUND: seq<Edge> := [Edge("x", "a"), Edge("a", "b"), Edge("b", "a")]

  lemma AroundLive()
    ensures Live(REPEATED, AROUND) == AROUND
  {
    assert AROUND[..2] == [Edge("x", "a"), Edge("a", "b")];
    assert AROUND[..2][..1] == [Edge("x", "a")] && AROUND[..2][..1][..0] == [];
    assert Live(REPEATED, AROUND[..2][..1]) == AROUND[..2][..1];
    assert Live(REPEATED, AROUND[..2]) == AROUND[..2];
    assert AROUND == AROUND[..2] + [Edge("b", "a")];
  }

  lemma AroundListings()
    ensures Count(REPEATED, "x") == 2 && Count(REPEATED, "a") == 1 && Count(REPEATED, "b") == 1
  {
    assert ["x"][..0] == [] && ["x", "x"][..1] == ["x"] && ["x", "x", "a"][..2] == ["x", "x"];
    assert REPEATED[..3] == ["x", "x", "a"];
    assert Count(["x"], "x") == 1 && Count(["x", "x"], "x") == 2;
    assert Count(["x", "x"], "a") == 0 && Count(["x", "x"], "b") == 0 && Count(["x", "x", "a"], "b") == 0;
  }

  lemma AroundInto(t: Id)
    ensures Into(AROUND, t) == if t == "a" then 2 else if t == "b" then 1 else 0
  {
    assert AROUND[..2] == [Edge("x", "a"), Edge("a", "b")];
    assert AROUND[..2][..1] == [Edge("x", "a")] && AROUND[..2][..1][..0] == [];
    assert Into(AROUND[..2][..1], t) == if t == "a" then 1 else 0;
  }

  lemma AroundFrom(held: set<Id>, t: Id)
    requires "x" !in held
    ensures From(AROUND, held, t)
         == if t == "a" then (if "b" in held then 1 else 0) else if t == "b" && "a" in held then 1 else 0
  {
    assert AROUND[..2] == [Edge("x", "a"), Edge("a", "b")];
    assert AROUND[..2][..1] == [Edge("x", "a")] && AROUND[..2][..1][..0] == [];
    assert From(AROUND[..2][..1], held, t) == 0;
  }

  lemma AroundSurplus()
    ensures Surplus(REPEATED, AROUND, AROUND, "a") == 1
  {
    AroundListings();
    AroundInto("x");
    AroundInto("b");
    assert AROUND[..2] == [Edge("x", "a"), Edge("a", "b")];
    assert AROUND[..2][..1] == [Edge("x", "a")] && AROUND[..2][..1][..0] == [];
    assert Surplus(REPEATED, AROUND, AROUND[..2][..1], "a") == 1;
    assert Surplus(REPEATED, AROUND, AROUND[..2], "a") == 1;
  }

  lemma AroundFed(held: set<Id>, t: Id)
    requires Starving(REPEATED, AROUND, held) && t in held
    ensures Fed(AROUND, held, t) && (t == "a" || t == "b")
  {
    AroundLive();
    SurplusNonNegative(REPEATED, AROUND, AROUND, t);
    FedFrom(AROUND, held, t);
  }

  /** The second listing of `x` makes up for the edge that closes the cycle, so nothing starves. */
  lemma AroundNourished(held: set<Id>)
    requires Starving(REPEATED, AROUND, held)
    ensures held == {}
  {
    if t :| t in held {
      AroundFed(held, t);
      if "x" in held {
        AroundFed(held, "x");
      }
      AroundSurplus();
      AroundFrom(held, "a");
      AroundFrom(held, "b");
    }
  }

  lemma AroundCyclic()
    ensures Cyclic(AROUND)
  {
    ReachesEdge(AROUND, "a", "b");
    ReachesEdge(AROUND, "b", "a");
    ReachesTransitive(AROUND, "a", "b", "a");
  }

  lemma AroundNamed()
    ensures !Misnamed(REPEATED, AROUND)
  {
    AroundListings();
    AroundInto("x");
  }

  /** A source listed twice is counted down twice and opens the cycle behind it: nothing is reported. */
  lemma RepeatedIdHidesCycle()
    ensures Cyclic(Live(REPEATED, AROUND)) && |Order(REPEATED, AROUND)| == |REPEATED|
  {
    AroundLive();
    AroundCyclic();
    AroundNamed();
    OrderShortExactly(REPEATED, AROUND);
    if Deadlocked(REPEATED, AROUND) {
      var held :| held != {} && Starving(REPEATED, AROUND, held);
      AroundNourished(held);
    }
  }

  /** An empty id stops the queue, so a graph without any edge is reported as cyclic. */
  lemma EmptyIdRaisesCycle()
    ensures !Cyclic(Live([""], [])) && |Order([""], [])| != |[""]|
  {
    OrderShortExactly([""], []);
    if u :| Reaches([], u, u) {
      var p :| Joins([], p, u, u);
      ReachesFirst([], p, u, u);
    }
  }
}
