/**
 Attaching a registered agent to a workflow: replace a node in place, or insert a new node after it by redirecting
 its outgoing edges, and exactly when that keeps which old node reaches which and whether there is a cycle.
 */
module AttachAgent {
  import opened Prelude
  import opened Graph
  import opened Kahn

  datatype Node = Node(id: Id, kind: string)

  datatype Mode = Replace | InsertAfter

  datatype AttachError = NodeNotFound | KindProtected | NodeIdInvalid

  class WorkflowEdge {
    var source: Id
    const target: Id

    constructor (source: Id, target: Id)
      ensures this.source == source && this.target == target
    {
      this.source := source;
      this.target := target;
    }
  }

  function Ids(nodes: seq<Node>): (r: seq<Id>)
    ensures |r| == |nodes| && forall i :: 0 <= i < |r| ==> r[i] == nodes[i].id
  {
    seq(|nodes|, i requires 0 <= i < |nodes| => nodes[i].id)
  }

  function Values(edges: seq<WorkflowEdge>): (r: seq<Edge>)
    reads edges
    ensures |r| == |edges| && forall i :: 0 <= i < |r| ==> r[i] == Edge(edges[i].source, edges[i].target)
  {
    if edges == [] then [] else [Edge(edges[0].source, edges[0].target)] + Values(edges[1..])
  }

  function Redirect(e: Edge, selected: Id, attached: Id): Edge {
    if e.source == selected then Edge(attached, e.target) else e
  }

  /** The edges after an insertion: the selected node's edges leave from the new node, which follows it. */
  function Redirected(edges: seq<Edge>, selected: Id, attached: Id): (r: seq<Edge>)
    ensures |r| == |edges| + 1
    ensures forall i :: 0 <= i < |edges| ==> r[i] == Redirect(edges[i], selected, attached)
    ensures r[|edges|] == Edge(selected, attached)
  {
    seq(|edges|, i requires 0 <= i < |edges| => Redirect(edges[i], selected, attached)) + [Edge(selected, attached)]
  }

  /** Why an attachment is refused, in the order the checks are made. */
  function Refusal(nodes: seq<Node>, selected: Id, mode: Mode, attached: Id): (r: Option<AttachError>) {
    if selected !in Ids(nodes) then Some(NodeNotFound)
    else
      var kind := nodes[IndexOf(Ids(nodes), selected)].kind;
      if (kind == "input" && mode == Replace) || kind == "output" then Some(KindProtected)
      else if attached == "" || (mode == InsertAfter && attached in Ids(nodes)) then Some(NodeIdInvalid)
      else None
  }

  function IndexOf(ids: seq<Id>, id: Id): (i: nat)
    requires id in ids
    ensures i < |ids| && ids[i] == id && id !in ids[..i]
  {
    if ids[0] == id then 0
    else
      var i := 1 + IndexOf(ids[1..], id);
      assert ids[..i] == [ids[0]] + ids[1..][..i - 1];
      i
  }

  method SelectNode(nodes: seq<Node>, selected: Id) returns (index: int)
    ensures index >= -1 && (index == -1 <==> selected !in Ids(nodes))
    ensures index >= 0 ==> selected in Ids(nodes) && index == IndexOf(Ids(nodes), selected)
  {
    for i := 0 to |nodes|
      invariant selected !in Ids(nodes)[..i]
    {
      if nodes[i].id == selected {
        assert Ids(nodes)[i] == selected;
        return i;
      }
    }
    return -1;
  }

  method OutgoingEdges(edges: seq<WorkflowEdge>, selected: Id) returns (outgoing: seq<WorkflowEdge>)
    ensures forall e :: e in outgoing <==> e in edges && e.source == selected
  {
    outgoing := [];
    for i := 0 to |edges|
      invariant forall e :: e in outgoing <==> e in edges[..i] && e.source == selected
    {
      if edges[i].source == selected {
        outgoing := outgoing + [edges[i]];
      }
    }
  }

  method Retarget(outgoing: seq<WorkflowEdge>, attached: Id)
    modifies outgoing
    ensures forall e :: e in outgoing ==> e.source == attached
  {
    for i := 0 to |outgoing|
      invariant forall j :: 0 <= j < i ==> outgoing[j].source == attached
    {
      outgoing[i].source := attached;
    }
  }

  lemma RedirectedExactly(before: seq<Edge>, after: seq<Edge>, selected: Id, attached: Id)
    requires |after| == |before| + 1 && after[|before|] == Edge(selected, attached)
    requires forall i :: 0 <= i < |before| ==> after[i] == Redirect(before[i], selected, attached)
    ensures after == Redirected(before, selected, attached)
  {
  }

  /** The selected node's outgoing edge objects now leave the new node; all others are as they were. */
  method MoveOutgoing(edges: seq<WorkflowEdge>, selected: Id, attached: Id)
    modifies edges
    ensures forall e :: e in edges ==> e.source == if old(e.source) == selected then attached else old(e.source)
  {
    var outgoing := OutgoingEdges(edges, selected);
    assert forall i :: 0 <= i < |outgoing| ==> outgoing[i] in edges by {
      assert forall i :: 0 <= i < |outgoing| ==> outgoing[i] in outgoing;
    }
    Retarget(outgoing, attached);
  }

  /** Redirect the selected node's edges in place and append the edge to the new node. */
  method RedirectEdges(edges: seq<WorkflowEdge>, selected: Id, attached: Id) returns (edges': seq<WorkflowEdge>)
    modifies edges
    ensures Values(edges') == old(Redirected(Values(edges), selected, attached))
  {
    ghost var before := Values(edges);
    MoveOutgoing(edges, selected, attached);
    var link := new WorkflowEdge(selected, attached);
    edges' := edges + [link];
    ghost var after := Values(edges');
    forall i | 0 <= i < |before| ensures after[i] == Redirect(before[i], selected, attached) {
      assert edges[i] in edges && edges'[i] == edges[i];
    }
    RedirectedExactly(before, after, selected, attached);
  }

  /** The node list with `agent` spliced in behind position `index`. */
  function InsertNode(nodes: seq<Node>, index: nat, agent: Node): (r: seq<Node>)
    requires index < |nodes|
    ensures Ids(r) == InsertId(Ids(nodes), index, agent.id)
  {
    nodes[..index + 1] + [agent] + nodes[index + 1..]
  }

  /** The rewrite of `applyAgentToAuthoringSources`; `attached` is the new node's id, already normalized. */
  method ApplyAgent(nodes: seq<Node>, edges: seq<WorkflowEdge>, selected: Id, mode: Mode, attached: Id)
    returns (r: Result<(seq<Node>, seq<WorkflowEdge>), AttachError>)
    requires mode == Replace ==> attached == selected
    modifies edges
    ensures r.Err? <==> Refusal(nodes, selected, mode, attached).Some?
    ensures r.Err? ==> Refusal(nodes, selected, mode, attached) == Some(r.error)
    ensures r == Err(NodeNotFound) <==> forall i :: 0 <= i < |nodes| ==> nodes[i].id != selected
    ensures selected in Ids(nodes) ==>
              var kind := nodes[IndexOf(Ids(nodes), selected)].kind;
              var protected := kind == "output" || (kind == "input" && mode == Replace);
              && (r == Err(KindProtected) <==> protected)
              && (r == Err(NodeIdInvalid) <==>
                    !protected && (attached == "" || (mode == InsertAfter
                                                      && exists i :: 0 <= i < |nodes| && nodes[i].id == attached)))
    ensures r.Err? || mode == Replace ==> Values(edges) == old(Values(edges))
    ensures r.Ok? && mode == Replace ==>
              r.value == (nodes[IndexOf(Ids(nodes), selected) := Node(selected, "evaluate")], edges)
    ensures r.Ok? && mode == InsertAfter ==>
              && (var next := IndexOf(Ids(nodes), selected) + 1;
                  r.value.0 == nodes[..next] + [Node(attached, "evaluate")] + nodes[next..])
              && Values(r.value.1) == old(Redirected(Values(edges), selected, attached))
  {
    var index := SelectNode(nodes, selected);
    if index < 0 { return Err(NodeNotFound); }
    var kind := nodes[index].kind;
    if (kind == "input" && mode == Replace) || kind == "output" { return Err(KindProtected); }
    if attached == "" || (mode == InsertAfter && attached in Ids(nodes)) { return Err(NodeIdInvalid); }
    var agent := Node(attached, "evaluate");
    if mode == Replace {
      return Ok((nodes[index := agent], edges));
    }
    var edges' := RedirectEdges(edges, selected, attached);
    return Ok((InsertNode(nodes, index, agent), edges'));
  }

  // ----- Meaning -----

  /**
   A rewrite of a graph: the selected node, the new one behind it, the nodes that lead to the new node, those it
   leads to, and whether it has an edge to itself.
   */
  datatype Rewrite = Rewrite(selected: Id, attached: Id, ins: set<Id>, outs: set<Id>, loop: bool)

  /** `after` is `before` rewritten, as sets of edges; the selected node's own edges are gone. */
  ghost predicate Rewired(before: seq<Edge>, after: seq<Edge>, w: Rewrite) {
    && w.selected in w.ins && w.attached !in w.ins && w.attached !in w.outs
    && (forall e :: e in before ==>
          e.source != w.attached && e.target != w.attached && (e.source == w.selected ==> e.target in w.outs))
    && forall e :: e in after
         <==> || (e.source != w.selected && e in before)
              || (e.target == w.attached && e.source in w.ins)
              || (e.source == w.attached && e.target in w.outs)
              || (w.loop && e == Edge(w.attached, w.attached))
  }

  /** Reaches, or is the same node. */
  ghost predicate Leads(edges: seq<Edge>, u: Id, v: Id) {
    u == v || Reaches(edges, u, v)
  }

  /** A way from `u` to `v` through the new node. */
  ghost predicate Crosses(before: seq<Edge>, w: Rewrite, u: Id, v: Id) {
    exists y, x :: y in w.ins && x in w.outs && Leads(before, u, y) && Leads(before, x, v)
  }

  lemma EdgeKept(before: seq<Edge>, after: seq<Edge>, w: Rewrite, e: Edge)
    requires Rewired(before, after, w) && e in before
    ensures Reaches(after, e.source, e.target)
  {
    if e.source == w.selected {
      ReachesEdge(after, w.selected, w.attached);
      ReachesEdge(after, w.attached, e.target);
      ReachesTransitive(after, w.selected, w.attached, e.target);
    } else {
      ReachesEdge(after, e.source, e.target);
    }
  }

  lemma {:induction false} PathKept(before: seq<Edge>, after: seq<Edge>, w: Rewrite, p: seq<Id>, u: Id, v: Id)
    requires Rewired(before, after, w) && Joins(before, p, u, v)
    ensures Reaches(after, u, v)
    decreases |p|
  {
    ReachesFirst(before, p, u, v);
    EdgeKept(before, after, w, Edge(u, p[1]));
    if |p| > 2 {
      PathKept(before, after, w, p[1..], p[1], v);
      ReachesTransitive(after, u, p[1], v);
    }
  }

  lemma LeadsKept(before: seq<Edge>, after: seq<Edge>, w: Rewrite, u: Id, v: Id)
    requires Rewired(before, after, w)
    ensures Leads(before, u, v) ==> Leads(after, u, v)
    ensures Reaches(before, u, v) ==> Reaches(after, u, v)
  {
    if p :| Joins(before, p, u, v) {
      PathKept(before, after, w, p, u, v);
    }
  }

  lemma LeadsOn(edges: seq<Edge>, u: Id, v: Id, w: Id)
    requires Leads(edges, u, v) && Leads(edges, v, w)
    ensures Leads(edges, u, w)
    ensures Reaches(edges, u, v) || Reaches(edges, v, w) ==> Reaches(edges, u, w)
  {
    if u != v && v != w {
      ReachesTransitive(edges, u, v, w);
    } else if Reaches(edges, u, v) && Reaches(edges, v, w) {
      ReachesTransitive(edges, u, v, w);
    }
  }

  /** A path between old nodes stays among them or goes through the new node. */
  lemma {:induction false} OldPath(before: seq<Edge>, after: seq<Edge>, w: Rewrite, p: seq<Id>, u: Id, v: Id)
    requires Rewired(before, after, w) && Joins(after, p, u, v)
    requires u != w.attached && v != w.attached
    ensures Reaches(before, u, v) || Crosses(before, w, u, v)
    decreases |p|
  {
    ReachesFirst(after, p, u, v);
    var n := p[1];
    if n == w.attached {
      var x := FromAttached(before, after, w, p[1..], v);
      assert u in w.ins && Leads(before, u, u);
    } else {
      ReachesEdge(before, u, n);
      if |p| > 2 {
        OldPath(before, after, w, p[1..], n, v);
        if Reaches(before, n, v) {
          ReachesTransitive(before, u, n, v);
        } else {
          var y, x :| y in w.ins && x in w.outs && Leads(before, n, y) && Leads(before, x, v);
          LeadsOn(before, u, n, y);
        }
      }
    }
  }

  /** A path from the new node to an old one goes on from one of the nodes it feeds. */
  lemma {:induction false} FromAttached(before: seq<Edge>, after: seq<Edge>, w: Rewrite, p: seq<Id>, v: Id)
    returns (x: Id)
    requires Rewired(before, after, w) && Joins(after, p, w.attached, v) && v != w.attached
    ensures x in w.outs && Leads(before, x, v)
    decreases |p|
  {
    ReachesFirst(after, p, w.attached, v);
    x := p[1];
    if x == w.attached {
      x := FromAttached(before, after, w, p[1..], v);
    } else if |p| > 2 {
      OldPath(before, after, w, p[1..], x, v);
      if !Reaches(before, x, v) {
        var y, x' :| y in w.ins && x' in w.outs && Leads(before, x, y) && Leads(before, x', v);
        x := x';
      }
    }
  }

  /** A path from an old node to the new one gets to one of the nodes that feed it. */
  lemma {:induction false} ToAttached(before: seq<Edge>, after: seq<Edge>, w: Rewrite, p: seq<Id>, u: Id)
    returns (y: Id)
    requires Rewired(before, after, w) && Joins(after, p, u, w.attached) && u != w.attached
    ensures y in w.ins && Leads(before, u, y)
    decreases |p|
  {
    ReachesFirst(after, p, u, w.attached);
    if p[1] == w.attached {
      y := u;
    } else {
      y := ToAttached(before, after, w, p[1..], p[1]);
      ReachesEdge(before, u, p[1]);
      LeadsOn(before, u, p[1], y);
    }
  }

  /** Between old nodes: what was reached before, and what is reached through the new node. */
  lemma ReachabilityExactly(before: seq<Edge>, after: seq<Edge>, w: Rewrite, u: Id, v: Id)
    requires Rewired(before, after, w) && u != w.attached && v != w.attached
    ensures Reaches(after, u, v) <==> Reaches(before, u, v) || Crosses(before, w, u, v)
  {
    LeadsKept(before, after, w, u, v);
    if Crosses(before, w, u, v) {
      var y, x :| y in w.ins && x in w.outs && Leads(before, u, y) && Leads(before, x, v);
      LeadsKept(before, after, w, u, y);
      LeadsKept(before, after, w, x, v);
      ReachesEdge(after, y, w.attached);
      ReachesEdge(after, w.attached, x);
      LeadsOn(after, u, y, w.attached);
      LeadsOn(after, u, w.attached, x);
      LeadsOn(after, u, x, v);
    }
    if p :| Joins(after, p, u, v) {
      OldPath(before, after, w, p, u, v);
    }
  }

  /** The new node reaches what the nodes it feeds lead to. */
  lemma AttachedReaches(before: seq<Edge>, after: seq<Edge>, w: Rewrite, v: Id)
    requires Rewired(before, after, w) && v != w.attached
    ensures Reaches(after, w.attached, v) <==> exists x :: x in w.outs && Leads(before, x, v)
  {
    if p :| Joins(after, p, w.attached, v) {
      var x := FromAttached(before, after, w, p, v);
    }
    if x :| x in w.outs && Leads(before, x, v) {
      LeadsKept(before, after, w, x, v);
      ReachesEdge(after, w.attached, x);
      LeadsOn(after, w.attached, x, v);
    }
  }

  /** Every node that feeds the new one already reaches every node it feeds. */
  ghost predicate Bridged(before: seq<Edge>, w: Rewrite) {
    forall y, x :: y in w.ins && x in w.outs ==> Reaches(before, y, x)
  }

  /** Some node the new one feeds leads back to one that feeds it. */
  ghost predicate Returns(before: seq<Edge>, w: Rewrite) {
    exists x, y :: x in w.outs && y in w.ins && Leads(before, x, y)
  }

  ghost predicate SameReach(nodes: set<Id>, before: seq<Edge>, after: seq<Edge>) {
    forall u, v :: u in nodes && v in nodes ==> (Reaches(before, u, v) <==> Reaches(after, u, v))
  }

  /** Reachability between old nodes is kept exactly when the new node bridges nothing new. */
  lemma ReachabilityKept(before: seq<Edge>, after: seq<Edge>, w: Rewrite, nodes: set<Id>)
    requires Rewired(before, after, w)
    requires w.attached !in nodes && w.ins <= nodes && w.outs <= nodes
    ensures SameReach(nodes, before, after) <==> Bridged(before, w)
  {
    if SameReach(nodes, before, after) {
      forall y, x | y in w.ins && x in w.outs ensures Reaches(before, y, x) {
        assert Leads(before, y, y) && Leads(before, x, x) && Crosses(before, w, y, x);
        ReachabilityExactly(before, after, w, y, x);
      }
    }
    if Bridged(before, w) {
      forall u, v | u in nodes && v in nodes ensures Reaches(before, u, v) <==> Reaches(after, u, v) {
        ReachabilityExactly(before, after, w, u, v);
        if Crosses(before, w, u, v) {
          var y, x :| y in w.ins && x in w.outs && Leads(before, u, y) && Leads(before, x, v);
          LeadsOn(before, u, y, x);
          LeadsOn(before, u, x, v);
        }
      }
    }
  }

  lemma AttachedCycle(before: seq<Edge>, after: seq<Edge>, w: Rewrite)
    requires Rewired(before, after, w)
    ensures Reaches(after, w.attached, w.attached) <==> w.loop || Returns(before, w)
  {
    if w.loop {
      ReachesEdge(after, w.attached, w.attached);
    }
    if Returns(before, w) {
      var x, y :| x in w.outs && y in w.ins && Leads(before, x, y);
      LeadsKept(before, after, w, x, y);
      ReachesEdge(after, w.attached, x);
      ReachesEdge(after, y, w.attached);
      LeadsOn(after, w.attached, x, y);
      LeadsOn(after, w.attached, y, w.attached);
    }
    if p :| Joins(after, p, w.attached, w.attached) {
      ReachesFirst(after, p, w.attached, w.attached);
      if p[1] != w.attached {
        var y := ToAttached(before, after, w, p[1..], p[1]);
      }
    }
  }

  /** Cycles after the rewrite: the old ones, a loop at the new node, and ways back to what feeds it. */
  lemma CyclicExactly(before: seq<Edge>, after: seq<Edge>, w: Rewrite)
    requires Rewired(before, after, w)
    ensures Cyclic(after) <==> Cyclic(before) || w.loop || Returns(before, w)
  {
    AttachedCycle(before, after, w);
    if u :| Reaches(before, u, u) {
      LeadsKept(before, after, w, u, u);
    }
    if u :| Reaches(after, u, u) {
      if u != w.attached {
        ReachabilityExactly(before, after, w, u, u);
        if Crosses(before, w, u, u) {
          var y, x :| y in w.ins && x in w.outs && Leads(before, u, y) && Leads(before, x, u);
          LeadsOn(before, x, u, y);
        }
      }
    }
  }

  // ----- The rewrite -----

  /** The node ids after an insertion behind position `index`. */
  function InsertId(ids: seq<Id>, index: nat, attached: Id): seq<Id>
    requires index < |ids|
  {
    ids[..index + 1] + [attached] + ids[index + 1..]
  }

  lemma RedirectedMembers(edges: seq<Edge>, selected: Id, attached: Id, e: Edge)
    ensures e in Redirected(edges, selected, attached)
       <==> || e == Edge(selected, attached)
            || (e.source != selected && e in edges)
            || (e.source == attached && Edge(selected, e.target) in edges)
  {
    var r := Redirected(edges, selected, attached);
    if e in r && e != Edge(selected, attached) {
      var i :| 0 <= i < |r| && r[i] == e;
      assert edges[i] in edges;
      assert edges[i].source == selected ==> edges[i] == Edge(selected, e.target);
    }
    if e.source != selected && e in edges {
      var i :| 0 <= i < |edges| && edges[i] == e;
      assert r[i] == e;
    }
    if e.source == attached && Edge(selected, e.target) in edges {
      var i :| 0 <= i < |edges| && edges[i] == Edge(selected, e.target);
      assert r[i] == e;
    }
  }

  function Members(ids: seq<Id>): set<Id> {
    set id | id in ids
  }

  /** The nodes that lead to the new node: the selected one, and those with an edge that already names it. */
  function Feeders(ids: seq<Id>, edges: seq<Edge>, selected: Id, attached: Id): set<Id> {
    set y | y in ids && (y == selected || Edge(y, attached) in edges)
  }

  /** The nodes the new node leads to. */
  function Fed(ids: seq<Id>, edges: seq<Edge>, selected: Id, attached: Id): set<Id> {
    set x | x in ids && (Edge(selected, x) in edges || Edge(attached, x) in edges)
  }

  predicate LoopsBack(edges: seq<Edge>, selected: Id, attached: Id) {
    Edge(attached, attached) in edges || Edge(selected, attached) in edges
  }

  function Insertion(ids: seq<Id>, edges: seq<Edge>, selected: Id, attached: Id): Rewrite {
    Rewrite(selected, attached, Feeders(ids, edges, selected, attached), Fed(ids, edges, selected, attached),
            LoopsBack(edges, selected, attached))
  }

  /** The live graph after the insertion. */
  function Inserted(ids: seq<Id>, edges: seq<Edge>, index: nat, attached: Id): seq<Edge>
    requires index < |ids|
  {
    Live(InsertId(ids, index, attached), Redirected(edges, ids[index], attached))
  }

  /** For any edge list, dangling edges included, the rewrite rewires the live graph. */
  lemma RewriteRewires(ids: seq<Id>, edges: seq<Edge>, index: nat, attached: Id)
    requires index < |ids| && attached !in ids
    ensures Rewired(Live(ids, edges), Inserted(ids, edges, index, attached),
                    Insertion(ids, edges, ids[index], attached))
  {
    var selected := ids[index];
    var ids', edges' := InsertId(ids, index, attached), Redirected(edges, selected, attached);
    forall id ensures id in ids' <==> id in ids || id == attached {
      assert ids == ids[..index + 1] + ids[index + 1..];
    }
    forall e
      ensures e in Live(ids', edges')
         <==> || (e.source != selected && e in Live(ids, edges))
              || (e.target == attached && e.source in Feeders(ids, edges, selected, attached))
              || (e.source == attached && e.target in Fed(ids, edges, selected, attached))
              || (LoopsBack(edges, selected, attached) && e == Edge(attached, attached))
    {
      RedirectedMembers(edges, selected, attached, e);
      assert e == Edge(e.source, e.target);
    }
    forall e | e in Live(ids, edges) && e.source == selected ensures e.target in Fed(ids, edges, selected, attached) {
      assert e == Edge(selected, e.target);
    }
  }

  lemma InsertWellNamed(ids: seq<Id>, index: nat, attached: Id)
    requires index < |ids| && WellNamed(ids) && attached != "" && attached !in ids
    ensures WellNamed(InsertId(ids, index, attached))
  {
  }

  /**
   Inserting an agent under an id no node has. Old nodes reach each other as before exactly when every node
   that feeds the new one already reached every node it feeds; and the new graph has a cycle exactly when
   the old one had, an edge loops back to the new node, or a node it feeds leads back to one that feeds it.
   */
  lemma InsertAfterKeepsMeaning(ids: seq<Id>, edges: seq<Edge>, index: nat, attached: Id)
    requires index < |ids| && attached !in ids
    ensures var before, after := Live(ids, edges), Inserted(ids, edges, index, attached);
            var w := Insertion(ids, edges, ids[index], attached);
            && (SameReach(Members(ids), before, after) <==> Bridged(before, w))
            && (Cyclic(after) <==> Cyclic(before) || w.loop || Returns(before, w))
  {
    var before, after := Live(ids, edges), Inserted(ids, edges, index, attached);
    var w := Insertion(ids, edges, ids[index], attached);
    RewriteRewires(ids, edges, index, attached);
    ReachabilityKept(before, after, w, Members(ids));
    CyclicExactly(before, after, w);
  }

  ghost predicate Mentions(edges: seq<Edge>, id: Id) {
    exists e :: e in edges && (e.source == id || e.target == id)
  }

  lemma FreshFeeds(ids: seq<Id>, edges: seq<Edge>, selected: Id, attached: Id)
    requires selected in ids && attached !in ids && !Mentions(edges, attached)
    ensures Feeders(ids, edges, selected, attached) == {selected} && !LoopsBack(edges, selected, attached)
    ensures forall x :: x in Fed(ids, edges, selected, attached) ==> Edge(selected, x) in Live(ids, edges)
  {
    forall id ensures Edge(id, attached) !in edges && Edge(attached, id) !in edges {
      assert Edge(id, attached).target == attached && Edge(attached, id).source == attached;
    }
  }

  /** A node that alone feeds the new one, and fed all of the new one's targets before, bridges nothing new. */
  lemma OwnTargetsBridge(before: seq<Edge>, w: Rewrite)
    requires w.ins == {w.selected} && forall x :: x in w.outs ==> Edge(w.selected, x) in before
    ensures Bridged(before, w) && (Returns(before, w) ==> Cyclic(before))
  {
    forall y, x | y in w.ins && x in w.outs ensures Reaches(before, y, x) {
      ReachesEdge(before, w.selected, x);
    }
    if Returns(before, w) {
      var x, y :| x in w.outs && y in w.ins && Leads(before, x, y);
      ReachesEdge(before, w.selected, x);
      LeadsOn(before, w.selected, x, w.selected);
    }
  }

  /** Under a fresh id that no edge mentions, the insertion keeps reachability and cycles, and the names stay good. */
  lemma FreshInsertKeepsMeaning(ids: seq<Id>, edges: seq<Edge>, index: nat, attached: Id)
    requires index < |ids| && WellNamed(ids)
    requires attached != "" && attached !in ids && !Mentions(edges, attached)
    ensures WellNamed(InsertId(ids, index, attached))
    ensures var before, after := Live(ids, edges), Inserted(ids, edges, index, attached);
            SameReach(Members(ids), before, after) && (Cyclic(before) <==> Cyclic(after))
  {
    InsertWellNamed(ids, index, attached);
    InsertAfterKeepsMeaning(ids, edges, index, attached);
    FreshFeeds(ids, edges, ids[index], attached);
    OwnTargetsBridge(Live(ids, edges), Insertion(ids, edges, ids[index], attached));
  }

  /**
   The rewrite does not check for dangling edges: one that already names the new id comes to life.
   Here `a` reaches `b` after inserting `n` behind `a`, and did not before.
   */
  lemma DanglingEdgeComesAlive()
    ensures var ids, edges := ["a", "b"], [Edge("n", "b")];
            && WellNamed(ids) && "n" !in ids
            && !Reaches(Live(ids, edges), "a", "b")
            && Reaches(Live(InsertId(ids, 0, "n"), Redirected(edges, "a", "n")), "a", "b")
  {
    var ids, edges := ["a", "b"], [Edge("n", "b")];
    var ids', edges' := InsertId(ids, 0, "n"), Redirected(edges, "a", "n");
    if p :| Joins(Live(ids, edges), p, "a", "b") {
      ReachesFirst(Live(ids, edges), p, "a", "b");
    }
    assert edges'[0] == Edge("n", "b") && edges'[1] == Edge("a", "n");
    assert ids'[0] == "a" && ids'[1] == "n" && ids'[2] == "b";
    ReachesEdge(Live(ids', edges'), "a", "n");
    ReachesEdge(Live(ids', edges'), "n", "b");
    ReachesTransitive(Live(ids', edges'), "a", "n", "b");
  }
}
