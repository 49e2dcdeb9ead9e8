/**
 The workflow check's topological order, Kahn's queue over in-degree counters: for any nodes, which of them it
 orders; for uniquely named ones, those that no cycle leads to, each after every source of its edges.
 */
module Kahn {
  import opened Graph
  import opened GraphCounts
  import opened Starvation

  /** Ids are non-empty and unique, as the check demands of a workflow. */
  predicate WellNamed(nodes: seq<Id>) {
    NoDuplicates(nodes) && "" !in nodes
  }

  /** Every node of the list comes after the sources of all its edges. */
  predicate SourcesFirst(edges: seq<Edge>, order: seq<Id>) {
    forall e, j :: e in edges && 0 <= j < |order| && order[j] == e.target ==> e.source in order[..j]
  }

  predicate IsLive(nodes: seq<Id>, e: Edge) {
    e.source in nodes && e.target in nodes
  }

  /** The two maps hold the counters and target lists of the edges. */
  ghost predicate Counted(nodes: seq<Id>, live: seq<Edge>, incoming: map<Id, int>, outgoing: map<Id, seq<Id>>) {
    && (forall id :: id in incoming <==> id in nodes)
    && (forall id :: id in outgoing <==> id in nodes)
    && (forall id :: id in incoming ==> incoming[id] == Into(live, id))
    && (forall id :: id in outgoing ==> outgoing[id] == Targets(live, id))
  }

  lemma TargetsAppend(live: seq<Edge>, e: Edge, id: Id)
    ensures Targets(live + [e], id) == if id == e.source then Targets(live, id) + [e.target] else Targets(live, id)
  {
    assert (live + [e])[..|live|] == live;
    assert Targets(live, id) + [] == Targets(live, id);
  }

  lemma IntoAppend(live: seq<Edge>, e: Edge, id: Id)
    ensures Into(live + [e], id) == Into(live, id) + if id == e.target then 1 else 0
  {
    assert (live + [e])[..|live|] == live;
  }

  lemma CountedAppend(nodes: seq<Id>, live: seq<Edge>, e: Edge, incoming: map<Id, int>, outgoing: map<Id, seq<Id>>)
    requires Counted(nodes, live, incoming, outgoing) && IsLive(nodes, e)
    ensures Counted(nodes, live + [e], incoming[e.target := incoming[e.target] + 1],
                    outgoing[e.source := outgoing[e.source] + [e.target]])
  {
    var in' := incoming[e.target := incoming[e.target] + 1];
    var out' := outgoing[e.source := outgoing[e.source] + [e.target]];
    forall id | id in in' ensures in'[id] == Into(live + [e], id) {
      IntoAppend(live, e, id);
    }
    forall id | id in out' ensures out'[id] == Targets(live + [e], id) {
      TargetsAppend(live, e, id);
    }
  }

  // ----- The algorithm -----

  method CountEdges(nodes: seq<Id>, edges: seq<Edge>) returns (incoming: map<Id, int>, outgoing: map<Id, seq<Id>>)
    ensures Counted(nodes, Live(nodes, edges), incoming, outgoing)
  {
    incoming := map id | id in nodes :: 0;
    outgoing := map id | id in nodes :: [];
    for n := 0 to |edges|
      invariant Counted(nodes, Live(nodes, edges[..n]), incoming, outgoing)
    {
      var edge := edges[n];
      ghost var live := Live(nodes, edges[..n]);
      assert edges[..n + 1][..n] == edges[..n];
      if edge.target in incoming && edge.source in outgoing {
        CountedAppend(nodes, live, edge, incoming, outgoing);
        incoming := incoming[edge.target := incoming[edge.target] + 1];
        outgoing := outgoing[edge.source := outgoing[edge.source] + [edge.target]];
      } else {
        assert live + [] == live;
      }
    }
    assert edges[..|edges|] == edges;
  }

  ghost function Positive(incoming: map<Id, int>): set<Id> {
    set id | id in incoming && incoming[id] > 0
  }

  lemma PositiveAfterDecrement(previous: map<Id, int>, t: Id)
    requires t in previous
    ensures |Positive(previous[t := previous[t] - 1])| == |Positive(previous)| - (if previous[t] == 1 then 1 else 0)
  {
    var next := previous[t := previous[t] - 1];
    if previous[t] == 1 {
      assert Positive(next) == Positive(previous) - {t};
    } else {
      assert Positive(next) == Positive(previous);
    }
  }

  /** The counter went from positive to zero or below. */
  predicate Crossed(before: map<Id, int>, after: map<Id, int>, t: Id)
    requires before.Keys == after.Keys
  {
    t in before && after[t] <= 0 < before[t]
  }

  /** Counters and queue once the targets are counted down, edge by edge. */
  function Released(targets: seq<Id>, incoming: map<Id, int>, queue: seq<Id>): (r: (map<Id, int>, seq<Id>))
    requires forall t :: t in targets ==> t in incoming
    ensures r.0.Keys == incoming.Keys
    ensures |r.1| + |Positive(r.0)| == |queue| + |Positive(incoming)|
    ensures forall t :: t in r.1 ==> t in queue || t in targets
  {
    if targets == [] then (incoming, queue)
    else
      var t := targets[0];
      var next := incoming[t := incoming[t] - 1];
      PositiveAfterDecrement(incoming, t);
      Released(targets[1..], next, if next[t] == 0 then queue + [t] else queue)
  }

  /** The inner loop: count down the targets of a finished node and queue those that reach zero. */
  method Release(targets: seq<Id>, before: map<Id, int>, queue: seq<Id>)
    returns (incoming: map<Id, int>, queue': seq<Id>)
    requires forall t :: t in targets ==> t in before
    ensures (incoming, queue') == Released(targets, before, queue)
  {
    incoming, queue' := before, queue;
    for n := 0 to |targets|
      invariant incoming.Keys == before.Keys
      invariant forall t :: t in targets[n..] ==> t in incoming
      invariant Released(targets[n..], incoming, queue') == Released(targets, before, queue)
    {
      var target := targets[n];
      assert targets[n..][1..] == targets[n + 1..];
      incoming := incoming[target := incoming[target] - 1];
      if incoming[target] == 0 {
        queue' := queue' + [target];
      }
    }
  }

  /** Each counter drops by its number of targets. */
  lemma {:induction false} ReleasedCounts(targets: seq<Id>, before: map<Id, int>, queue: seq<Id>, t: Id)
    requires forall x :: x in targets ==> x in before
    requires t in before
    ensures Released(targets, before, queue).0[t] == before[t] - Count(targets, t)
  {
    if targets != [] {
      var x := targets[0];
      var next := before[x := before[x] - 1];
      ReleasedCounts(targets[1..], next, if next[x] == 0 then queue + [x] else queue, t);
      CountFirst(targets, t);
    }
  }

  /** The list holds, once each, the nodes whose counter went down to zero. */
  ghost predicate Pushes(before: map<Id, int>, after: map<Id, int>, pushed: seq<Id>)
    requires before.Keys == after.Keys
  {
    NoDuplicates(pushed) && forall t :: t in pushed <==> Crossed(before, after, t)
  }

  lemma PushedFirst(before: map<Id, int>, next: map<Id, int>, after: map<Id, int>, x: Id, rest: seq<Id>)
    requires x in before && next == before[x := before[x] - 1] && after.Keys == before.Keys && after[x] <= next[x]
    requires Pushes(next, after, rest)
    ensures Pushes(before, after, (if next[x] == 0 then [x] else []) + rest)
  {
    assert next[x] <= 0 ==> x !in rest;
  }

  /** Exactly the nodes whose counter reaches zero are queued, once each. */
  lemma {:induction false} ReleasedCrosses(targets: seq<Id>, before: map<Id, int>, queue: seq<Id>)
    returns (pushed: seq<Id>)
    requires forall t :: t in targets ==> t in before
    ensures Released(targets, before, queue).1 == queue + pushed
    ensures Pushes(before, Released(targets, before, queue).0, pushed)
  {
    if targets == [] {
      pushed := [];
    } else {
      var x := targets[0];
      var next := before[x := before[x] - 1];
      var queue' := if next[x] == 0 then queue + [x] else queue;
      var rest := ReleasedCrosses(targets[1..], next, queue');
      ReleasedCounts(targets[1..], next, queue', x);
      PushedFirst(before, next, Released(targets, before, queue).0, x, rest);
      pushed := (if next[x] == 0 then [x] else []) + rest;
      assert queue' + rest == queue + pushed;
    }
  }

  function WithoutEdges(nodes: seq<Id>, incoming: map<Id, int>): (r: seq<Id>)
    requires forall id :: id in nodes ==> id in incoming
    ensures forall id :: id in r <==> id in nodes && incoming[id] == 0
  {
    if nodes == [] then []
    else
      var rest := WithoutEdges(nodes[1..], incoming);
      assert forall id :: id in nodes <==> id == nodes[0] || id in nodes[1..];
      if incoming[nodes[0]] == 0 then [nodes[0]] + rest else rest
  }

  /** Each node without edges into it is queued as often as it is listed. */
  lemma {:induction false} WithoutEdgesCounts(nodes: seq<Id>, incoming: map<Id, int>, t: Id)
    requires forall id :: id in nodes ==> id in incoming
    ensures Count(WithoutEdges(nodes, incoming), t) == if t in nodes && incoming[t] == 0 then Count(nodes, t) else 0
  {
    if nodes != [] {
      WithoutEdgesCounts(nodes[1..], incoming, t);
      CountFirst(nodes, t);
      CountIn(nodes[1..], t);
      var r := WithoutEdges(nodes, incoming);
      if incoming[nodes[0]] == 0 {
        CountFirst(r, t);
      }
    }
  }

  /** Every node has a target list, of nodes. */
  ghost predicate Bounded(outgoing: map<Id, seq<Id>>, ids: set<Id>) {
    outgoing.Keys == ids && forall id, t :: id in outgoing && t in outgoing[id] ==> t in ids
  }

  /** What the queue loop adds to the order from a given point on; an empty id stops it. */
  ghost function Drain(outgoing: map<Id, seq<Id>>, incoming: map<Id, int>, queue: seq<Id>, order: seq<Id>): seq<Id>
    requires Bounded(outgoing, incoming.Keys) && forall id :: id in queue ==> id in outgoing
    decreases |queue| + |Positive(incoming)|
  {
    if queue == [] || queue[0] == "" then order
    else
      var next := Released(outgoing[queue[0]], incoming, queue[1..]);
      Drain(outgoing, next.0, next.1, order + [queue[0]])
  }

  function InDegrees(nodes: seq<Id>, live: seq<Edge>): map<Id, int> {
    map id | id in nodes :: Into(live, id)
  }

  function Successors(nodes: seq<Id>, live: seq<Edge>): map<Id, seq<Id>> {
    map id | id in nodes :: Targets(live, id)
  }

  lemma SuccessorsBounded(nodes: seq<Id>, edges: seq<Edge>)
    ensures Bounded(Successors(nodes, Live(nodes, edges)), InDegrees(nodes, Live(nodes, edges)).Keys)
  {
    var live := Live(nodes, edges);
    forall id, t | id in nodes && t in Targets(live, id) ensures t in nodes {
      TargetsAreTargets(live, id, t);
    }
  }

  /** The order for any nodes whatever, repeated and empty ids included. */
  ghost function Order(nodes: seq<Id>, edges: seq<Edge>): seq<Id> {
    var live := Live(nodes, edges);
    SuccessorsBounded(nodes, edges);
    Drain(Successors(nodes, live), InDegrees(nodes, live), WithoutEdges(nodes, InDegrees(nodes, live)), [])
  }

  // ----- What the queue run keeps, for any nodes -----

  /** A node comes only after its counter has been counted down to zero by the nodes before it. */
  ghost predicate Grounded(live: seq<Edge>, order: seq<Id>) {
    forall j :: 0 <= j < |order| ==> Into(live, order[j]) <= Drops(live, order[..j], order[j])
  }

  ghost predicate Counters(nodes: seq<Id>, live: seq<Edge>, incoming: map<Id, int>, order: seq<Id>) {
    && (forall id :: id in nodes <==> id in incoming)
    && (forall id :: id in incoming ==> incoming[id] == Into(live, id) - Drops(live, order, id))
  }

  /** Queued or done so far are the nodes whose counter is down, each as often as its share. */
  ghost predicate Shared(nodes: seq<Id>, live: seq<Edge>, incoming: map<Id, int>, done: seq<Id>) {
    forall id :: Count(done, id) == if id in incoming && incoming[id] <= 0 then Share(nodes, live, id) else 0
  }

  ghost predicate Progress(nodes: seq<Id>, live: seq<Edge>, incoming: map<Id, int>, order: seq<Id>, queue: seq<Id>) {
    && Counters(nodes, live, incoming, order)
    && Shared(nodes, live, incoming, order + queue)
    && Grounded(live, order)
    && "" !in order
  }

  lemma ProgressStarts(nodes: seq<Id>, live: seq<Edge>)
    ensures var incoming := InDegrees(nodes, live);
            Progress(nodes, live, incoming, [], WithoutEdges(nodes, incoming))
  {
    var incoming := InDegrees(nodes, live);
    forall id ensures Drops(live, [], id) == 0 {
      NothingDropped(live, id);
    }
    var queue := WithoutEdges(nodes, incoming);
    assert [] + queue == queue;
    forall id ensures Count(queue, id) == if id in incoming && incoming[id] <= 0 then Share(nodes, live, id) else 0 {
      WithoutEdgesCounts(nodes, incoming, id);
    }
  }

  /** One turn of the loop keeps the counters, the shares and the order's ground. */
  lemma ProgressKept(nodes: seq<Id>, live: seq<Edge>, incoming: map<Id, int>, order: seq<Id>, queue: seq<Id>,
                     incoming': map<Id, int>, pushed: seq<Id>)
    requires Progress(nodes, live, incoming, order, queue) && queue != [] && queue[0] != ""
    requires incoming'.Keys == incoming.Keys
    requires forall t :: t in incoming ==> incoming'[t] == incoming[t] - Count(Targets(live, queue[0]), t)
    requires Pushes(incoming, incoming', pushed)
    ensures Progress(nodes, live, incoming', order + [queue[0]], queue[1..] + pushed)
  {
    var id := queue[0];
    assert (order + [id]) + (queue[1..] + pushed) == (order + queue) + pushed;
    forall t | t in incoming' ensures incoming'[t] == Into(live, t) - Drops(live, order + [id], t) {
      DropsAfter(live, order, id, t);
    }
    SharesKept(nodes, live, incoming, order, queue, incoming', pushed);
    CountIn(order + queue, id);
    assert (order + queue)[|order|] == id;
    GroundedAppend(live, order, id);
  }

  lemma SharesKept(nodes: seq<Id>, live: seq<Edge>, incoming: map<Id, int>, order: seq<Id>, queue: seq<Id>,
                   incoming': map<Id, int>, pushed: seq<Id>)
    requires Counters(nodes, live, incoming, order) && Shared(nodes, live, incoming, order + queue)
    requires incoming'.Keys == incoming.Keys && forall t :: t in incoming ==> incoming'[t] <= incoming[t]
    requires Pushes(incoming, incoming', pushed)
    ensures Shared(nodes, live, incoming', order + queue + pushed)
  {
    forall t ensures Count(order + queue + pushed, t)
                  == if t in incoming' && incoming'[t] <= 0 then Share(nodes, live, t) else 0 {
      CountConcat(order + queue, pushed, t);
      CountOnce(pushed, t);
    }
  }

  lemma GroundedAppend(live: seq<Edge>, order: seq<Id>, id: Id)
    requires Grounded(live, order) && Into(live, id) <= Drops(live, order, id)
    ensures Grounded(live, order + [id])
  {
    var order' := order + [id];
    forall j | 0 <= j < |order'| ensures Into(live, order'[j]) <= Drops(live, order'[..j], order'[j]) {
      assert order'[..j] == order[..j];
      assert order[..|order|] == order;
    }
  }

  /** The queue run ends with the queue empty or at an empty id, and has kept everything. */
  lemma {:induction false} DrainKeeps(nodes: seq<Id>, live: seq<Edge>, outgoing: map<Id, seq<Id>>,
                                      incoming: map<Id, int>, queue: seq<Id>, order: seq<Id>)
    returns (incoming': map<Id, int>, queue': seq<Id>)
    requires outgoing == Successors(nodes, live) && Bounded(outgoing, incoming.Keys)
    requires forall id :: id in queue ==> id in outgoing
    requires Progress(nodes, live, incoming, order, queue)
    ensures Progress(nodes, live, incoming', Drain(outgoing, incoming, queue, order), queue')
    ensures queue' == [] || queue'[0] == ""
    decreases |queue| + |Positive(incoming)|
  {
    if queue == [] || queue[0] == "" {
      incoming', queue' := incoming, queue;
    } else {
      var next := Released(outgoing[queue[0]], incoming, queue[1..]);
      forall t | t in incoming ensures next.0[t] == incoming[t] - Count(Targets(live, queue[0]), t) {
        ReleasedCounts(outgoing[queue[0]], incoming, queue[1..], t);
      }
      var pushed := ReleasedCrosses(outgoing[queue[0]], incoming, queue[1..]);
      ProgressKept(nodes, live, incoming, order, queue, next.0, pushed);
      incoming', queue' := DrainKeeps(nodes, live, outgoing, next.0, next.1, order + [queue[0]]);
    }
  }

  // ----- What the order holds -----

  lemma {:induction false} DropsAtMost(nodes: seq<Id>, live: seq<Edge>, edges: seq<Edge>, order: seq<Id>,
                                       held: set<Id>, t: Id)
    requires forall e :: e in edges ==> Share(nodes, live, e.source) >= 1
    requires forall e :: e in edges ==>
               Count(order, e.source) <= if e.source in held then 0 else Share(nodes, live, e.source)
    ensures Drops(edges, order, t) + From(edges, held, t) <= Into(edges, t) + Surplus(nodes, live, edges, t)
  {
    if edges != [] {
      var front, last := edges[..|edges| - 1], edges[|edges| - 1];
      assert last in edges && forall e :: e in front ==> e in edges;
      DropsAtMost(nodes, live, front, order, held, t);
    }
  }

  lemma {:induction false} DropsAtLeast(nodes: seq<Id>, live: seq<Edge>, edges: seq<Edge>, order: seq<Id>,
                                        held: set<Id>, t: Id)
    requires forall e :: e in edges && e.source in held ==> Share(nodes, live, e.source) == 1
    requires forall e :: e in edges && e.source !in held ==> Count(order, e.source) == Share(nodes, live, e.source)
    ensures Drops(edges, order, t) + From(edges, held, t) >= Into(edges, t) + Surplus(nodes, live, edges, t)
  {
    if edges != [] {
      var front, last := edges[..|edges| - 1], edges[|edges| - 1];
      assert last in edges && forall e :: e in front ==> e in edges;
      DropsAtLeast(nodes, live, front, order, held, t);
    }
  }

  lemma ShareOfSource(nodes: seq<Id>, edges: seq<Edge>, e: Edge)
    requires e in Live(nodes, edges)
    ensures Share(nodes, Live(nodes, edges), e.source) >= 1
  {
    CountIn(nodes, e.source);
  }

  /** Nothing of a starving set is ever in the order: its first node there would have come too early. */
  lemma {:induction false} StarvedStaysOut(nodes: seq<Id>, edges: seq<Edge>, order: seq<Id>, held: set<Id>, n: nat)
    requires Grounded(Live(nodes, edges), order) && Starving(nodes, Live(nodes, edges), held) && n <= |order|
    requires forall id :: Count(order, id) <= Share(nodes, Live(nodes, edges), id)
    ensures forall x :: x in order[..n] ==> x !in held
  {
    var live := Live(nodes, edges);
    if n > 0 {
      StarvedStaysOut(nodes, edges, order, held, n - 1);
      var before, t := order[..n - 1], order[n - 1];
      assert order[..n] == before + [t];
      if t in held {
        forall e | e in live ensures Share(nodes, live, e.source) >= 1
          && Count(before, e.source) <= if e.source in held then 0 else Share(nodes, live, e.source) {
          ShareOfSource(nodes, edges, e);
          CountPrefix(order, n - 1, e.source);
          CountIn(before, e.source);
        }
        DropsAtMost(nodes, live, live, before, held, t);
        assert false;
      }
    }
  }

  ghost function LeftOut(nodes: seq<Id>, order: seq<Id>): set<Id> {
    set x | x in nodes && x !in order
  }

  /** When the queue has run empty, the nodes it left out starve. */
  lemma LeftOutStarve(nodes: seq<Id>, edges: seq<Edge>, incoming: map<Id, int>, order: seq<Id>)
    requires Progress(nodes, Live(nodes, edges), incoming, order, [])
    ensures Starving(nodes, Live(nodes, edges), LeftOut(nodes, order))
  {
    var live := Live(nodes, edges);
    var held := LeftOut(nodes, order);
    assert order + [] == order;
    forall x | x in nodes ensures x in held ==> incoming[x] > 0 && Share(nodes, live, x) == 1
      ensures x !in held ==> Count(order, x) == Share(nodes, live, x) {
      CountIn(order, x);
      CountIn(nodes, x);
    }
    forall t | t in held ensures Surplus(nodes, live, live, t) < From(live, held, t) {
      DropsAtLeast(nodes, live, live, order, held, t);
    }
  }

  /** The queue never reaches an empty id: there is none, or it starves. */
  ghost predicate NoStop(nodes: seq<Id>, live: seq<Edge>) {
    "" !in nodes || Starved(nodes, live, "")
  }

  lemma OrderedFed(nodes: seq<Id>, edges: seq<Edge>, order: seq<Id>, id: Id)
    requires Grounded(Live(nodes, edges), order) && id in order
    requires forall x :: Count(order, x) <= Share(nodes, Live(nodes, edges), x)
    ensures id in nodes && !Starved(nodes, Live(nodes, edges), id)
  {
    CountIn(order, id);
    if held :| id in held && Starving(nodes, Live(nodes, edges), held) {
      assert order[..|order|] == order;
      StarvedStaysOut(nodes, edges, order, held, |order|);
    }
  }

  lemma QueueRanEmpty(nodes: seq<Id>, edges: seq<Edge>, incoming: map<Id, int>, order: seq<Id>, queue: seq<Id>)
    requires Progress(nodes, Live(nodes, edges), incoming, order, queue) && (queue == [] || queue[0] == "")
    requires NoStop(nodes, Live(nodes, edges))
    ensures queue == []
  {
    var live := Live(nodes, edges);
    if queue != [] {
      assert (order + queue)[|order|] == queue[0];
      CountIn(order + queue, "");
      GroundedAppend(live, order, "");
      forall x ensures Count(order + [""], x) <= Share(nodes, live, x) {
        assert (order + queue)[..|order| + 1] == order + [""];
        CountPrefix(order + queue, |order| + 1, x);
      }
      OrderedFed(nodes, edges, order + [""], "");
    }
  }

  /**
   For any nodes and edges whatever: the order is grounded, holds nothing more often than its share, and
   nothing that starves; and unless it stops at an empty id it holds everything else, exactly as often as its share.
   */
  lemma OrderExactly(nodes: seq<Id>, edges: seq<Edge>)
    ensures var live, order := Live(nodes, edges), Order(nodes, edges);
            && Grounded(live, order)
            && "" !in order
            && (forall id :: Count(order, id) <= Share(nodes, live, id))
            && (forall id :: id in order ==> id in nodes && !Starved(nodes, live, id))
            && (NoStop(nodes, live) ==> forall id :: Count(order, id) == Due(nodes, live, id))
  {
    var live, order := Live(nodes, edges), Order(nodes, edges);
    SuccessorsBounded(nodes, edges);
    ProgressStarts(nodes, live);
    var in0 := InDegrees(nodes, live);
    var incoming, queue := DrainKeeps(nodes, live, Successors(nodes, live), in0, WithoutEdges(nodes, in0), []);
    forall id ensures Count(order, id) <= Share(nodes, live, id) {
      CountConcat(order, queue, id);
    }
    forall id | id in order ensures id in nodes && !Starved(nodes, live, id) {
      OrderedFed(nodes, edges, order, id);
    }
    if NoStop(nodes, live) {
      QueueRanEmpty(nodes, edges, incoming, order, queue);
      LeftOutStarve(nodes, edges, incoming, order);
      forall id ensures Count(order, id) == Due(nodes, live, id) {
        HeldOrShared(nodes, live, incoming, order, id);
      }
    }
  }

  /** How often the order lists a node unless an empty id stops the queue. */
  ghost function Due(nodes: seq<Id>, live: seq<Edge>, id: Id): nat {
    if Starved(nodes, live, id) then 0 else Share(nodes, live, id)
  }

  lemma HeldOrShared(nodes: seq<Id>, live: seq<Edge>, incoming: map<Id, int>, order: seq<Id>, id: Id)
    requires Progress(nodes, live, incoming, order, []) && Starving(nodes, live, LeftOut(nodes, order))
    requires id in order ==> !Starved(nodes, live, id)
    ensures Count(order, id) == Due(nodes, live, id)
  {
    assert order + [] == order;
    CountIn(order, id);
    if id in nodes && id !in order {
      assert id in LeftOut(nodes, order);
    }
  }

  /** The list up to its first empty id. */
  function UpToEmpty(s: seq<Id>): seq<Id> {
    if s == [] || s[0] == "" then [] else [s[0]] + UpToEmpty(s[1..])
  }

  /** An empty id in the queue ends the order with what was queued before it. */
  lemma {:induction false} DrainStops(outgoing: map<Id, seq<Id>>, incoming: map<Id, int>, queue: seq<Id>,
                                      rest: seq<Id>, order: seq<Id>)
    requires Bounded(outgoing, incoming.Keys) && forall id :: id in queue + rest ==> id in outgoing
    requires "" in queue
    ensures Drain(outgoing, incoming, queue + rest, order) == order + UpToEmpty(queue)
    decreases |queue|
  {
    if queue[0] != "" {
      var targets := outgoing[queue[0]];
      var next := Released(targets, incoming, queue[1..] + rest);
      var pushed := ReleasedCrosses(targets, incoming, queue[1..] + rest);
      assert (queue + rest)[1..] == queue[1..] + rest;
      assert queue[1..] + rest + pushed == queue[1..] + (rest + pushed);
      DrainStops(outgoing, next.0, queue[1..], rest + pushed, order + [queue[0]]);
    }
  }

  /** With an empty id that no edge enters, the order is the other such nodes listed before it. */
  lemma OrderStops(nodes: seq<Id>, edges: seq<Edge>)
    requires "" in nodes && Into(Live(nodes, edges), "") == 0
    ensures Order(nodes, edges) == UpToEmpty(WithoutEdges(nodes, InDegrees(nodes, Live(nodes, edges))))
  {
    var live := Live(nodes, edges);
    var queue := WithoutEdges(nodes, InDegrees(nodes, live));
    SuccessorsBounded(nodes, edges);
    assert queue + [] == queue;
    DrainStops(Successors(nodes, live), InDegrees(nodes, live), queue, [], []);
  }

  method TopologicalOrder(nodes: seq<Id>, edges: seq<Edge>) returns (order: seq<Id>)
    ensures order == Order(nodes, edges)
    ensures Grounded(Live(nodes, edges), order) && "" !in order
    ensures forall id :: id in order ==> id in nodes && !Starved(nodes, Live(nodes, edges), id)
    ensures NoStop(nodes, Live(nodes, edges)) ==>
              forall id :: Count(order, id) == Due(nodes, Live(nodes, edges), id)
    ensures "" in nodes && Into(Live(nodes, edges), "") == 0 ==>
              order == UpToEmpty(WithoutEdges(nodes, InDegrees(nodes, Live(nodes, edges))))
    ensures WellNamed(nodes) ==> NoDuplicates(order) && SourcesFirst(Live(nodes, edges), order)
    ensures WellNamed(nodes) ==> forall id :: id in order <==> id in nodes && !Blocked(Live(nodes, edges), id)
  {
    ghost var live := Live(nodes, edges);
    var incoming, outgoing := CountEdges(nodes, edges);
    assert incoming == InDegrees(nodes, live) && outgoing == Successors(nodes, live);
    SuccessorsBounded(nodes, edges);
    var queue := WithoutEdges(nodes, incoming);
    order := [];
    while queue != []
      invariant forall id :: id in queue ==> id in outgoing
      invariant Bounded(outgoing, incoming.Keys) && Drain(outgoing, incoming, queue, order) == Order(nodes, edges)
      decreases |queue| + |Positive(incoming)|
    {
      var id := queue[0];
      if id == "" { break; }
      order := order + [id];
      assert forall t :: t in outgoing[id] ==> t in incoming;
      incoming, queue := Release(outgoing[id], incoming, queue[1..]);
    }
    OrderExactly(nodes, edges);
    if "" in nodes && Into(live, "") == 0 {
      OrderStops(nodes, edges);
    }
    if WellNamed(nodes) {
      NamedOrder(nodes, edges);
    }
  }

  /** A counter that single nodes count down to zero has been counted down by all its sources. */
  lemma {:induction false} AllDropped(edges: seq<Edge>, order: seq<Id>, t: Id)
    requires forall x :: Count(order, x) <= 1
    ensures Drops(edges, order, t) <= Into(edges, t)
    ensures Drops(edges, order, t) == Into(edges, t) ==> forall e :: e in edges && e.target == t ==> e.source in order
  {
    if edges != [] {
      var front, last := edges[..|edges| - 1], edges[|edges| - 1];
      assert forall e :: e in edges <==> e in front || e == last;
      AllDropped(front, order, t);
      CountIn(order, last.source);
    }
  }

  lemma GroundedSourcesFirst(live: seq<Edge>, order: seq<Id>)
    requires Grounded(live, order) && forall x :: Count(order, x) <= 1
    ensures SourcesFirst(live, order)
  {
    forall e, j | e in live && 0 <= j < |order| && order[j] == e.target ensures e.source in order[..j] {
      forall x ensures Count(order[..j], x) <= 1 {
        CountPrefix(order, j, x);
      }
      AllDropped(live, order[..j], e.target);
    }
  }

  lemma NamedOrder(nodes: seq<Id>, edges: seq<Edge>)
    requires WellNamed(nodes)
    ensures var live, order := Live(nodes, edges), Order(nodes, edges);
            && NoDuplicates(order) && SourcesFirst(live, order)
            && forall id :: id in order <==> id in nodes && !Blocked(live, id)
  {
    var live, order := Live(nodes, edges), Order(nodes, edges);
    OrderExactly(nodes, edges);
    NamedOnce(nodes, live);
    NoneTwice(order);
    GroundedSourcesFirst(live, order);
    forall id ensures id in order <==> id in nodes && !Blocked(live, id) {
      CountIn(order, id);
      if id in nodes {
        StarvedExactlyBlocked(nodes, edges, id);
      }
    }
  }

  // ----- The diagnostic -----

  /** An id is empty, or a node that an edge enters is listed twice. */
  predicate Misnamed(nodes: seq<Id>, live: seq<Edge>) {
    "" in nodes || exists t :: t in nodes && Count(nodes, t) > 1 && Into(live, t) > 0
  }

  /**
   The order misses a listing exactly when an id is empty, a node that an edge enters is listed twice, or some
   nodes starve: for any nodes and edges whatever.
   */
  lemma OrderShortExactly(nodes: seq<Id>, edges: seq<Edge>)
    ensures |Order(nodes, edges)| != |nodes| <==>
              Misnamed(nodes, Live(nodes, edges)) || Deadlocked(nodes, Live(nodes, edges))
  {
    var live, order := Live(nodes, edges), Order(nodes, edges);
    OrderExactly(nodes, edges);
    forall id ensures Count(order, id) <= Share(nodes, live, id) <= Count(nodes, id) {
      CountIn(nodes, id);
    }
    if Misnamed(nodes, live) || Deadlocked(nodes, live) {
      var missed := MissedListing(nodes, edges);
      if |order| == |nodes| {
        SameLength(order, nodes, missed);
      }
    } else {
      forall id ensures Count(order, id) == Count(nodes, id) {
        CountIn(nodes, id);
        if Starved(nodes, live, id) {
          StarvedDeadlocks(nodes, live, id);
        }
      }
      SameMultiset(order, nodes);
      assert |multiset(order)| == |order| && |multiset(nodes)| == |nodes|;
    }
  }

  lemma MissedListing(nodes: seq<Id>, edges: seq<Edge>) returns (id: Id)
    requires Misnamed(nodes, Live(nodes, edges)) || Deadlocked(nodes, Live(nodes, edges))
    ensures Count(Order(nodes, edges), id) < Count(nodes, id)
  {
    var live, order := Live(nodes, edges), Order(nodes, edges);
    OrderExactly(nodes, edges);
    if "" in nodes {
      id := "";
    } else if t :| t in nodes && Count(nodes, t) > 1 && Into(live, t) > 0 {
      id := t;
    } else {
      var held :| held != {} && Starving(nodes, live, held);
      id :| id in held;
      StarvingInNodes(nodes, edges, held, id);
      assert Starved(nodes, live, id);
    }
    CountIn(order, id);
    CountIn(nodes, id);
  }

  /**
   The cycle check of `analyzeAuthoringSources`. It is raised falsely exactly on an acyclic graph that is
   misnamed, and misses a cycle exactly when nothing is misnamed and no set of nodes starves, which takes a
   node without edges into it that is listed twice.
   */
  method GraphCycleDiagnostic(nodes: seq<Id>, edges: seq<Edge>) returns (raised: bool)
    ensures raised <==> nodes != [] && |Order(nodes, edges)| != |nodes|
    ensures raised <==> Misnamed(nodes, Live(nodes, edges)) || Deadlocked(nodes, Live(nodes, edges))
    ensures (raised <==> Cyclic(Live(nodes, edges))) <==>
              if Cyclic(Live(nodes, edges))
              then Misnamed(nodes, Live(nodes, edges)) || Deadlocked(nodes, Live(nodes, edges))
              else !Misnamed(nodes, Live(nodes, edges))
    ensures SourcesOnce(nodes, Live(nodes, edges)) && !Misnamed(nodes, Live(nodes, edges)) ==>
              (raised <==> Cyclic(Live(nodes, edges)))
    ensures WellNamed(nodes) ==> (raised <==> Cyclic(Live(nodes, edges)))
  {
    var order := TopologicalOrder(nodes, edges);
    raised := |nodes| > 0 && |order| != |nodes|;
    OrderShortExactly(nodes, edges);
    DeadlockedCyclic(nodes, edges);
    if nodes == [] {
      NothingOrdered(edges);
    }
    if NoDuplicates(nodes) {
      NamedOnce(nodes, Live(nodes, edges));
      forall t { CountOnce(nodes, t); }
    }
  }

  lemma NothingOrdered(edges: seq<Edge>)
    ensures Order([], edges) == []
  {
    assert WithoutEdges([], InDegrees([], Live([], edges))) == [];
  }
}
