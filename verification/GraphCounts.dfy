/** How often a node is listed, how many edges lead into it, and how often finished nodes count it down. */
module GraphCounts {
  import opened Graph

  predicate NoDuplicates(s: seq<Id>) {
    forall i, j :: 0 <= i < j < |s| ==> s[i] != s[j]
  }

  // ----- Counting -----

  /** How often a node is listed. */
  function Count(s: seq<Id>, t: Id): nat {
    if s == [] then 0 else Count(s[..|s| - 1], t) + (if s[|s| - 1] == t then 1 else 0)
  }

  /** How many edges lead into `t`. */
  function Into(edges: seq<Edge>, t: Id): nat {
    if edges == [] then 0
    else
      var last := edges[|edges| - 1];
      Into(edges[..|edges| - 1], t) + (if last.target == t then 1 else 0)
  }

  /** How many edges lead into `t` from the set. */
  function From(edges: seq<Edge>, held: set<Id>, t: Id): nat {
    if edges == [] then 0
    else
      var last := edges[|edges| - 1];
      From(edges[..|edges| - 1], held, t) + (if last.target == t && last.source in held then 1 else 0)
  }

  /** How often the counter of `t` is counted down once the nodes of the order are done. */
  function Drops(edges: seq<Edge>, order: seq<Id>, t: Id): nat {
    if edges == [] then 0
    else
      var last := edges[|edges| - 1];
      Drops(edges[..|edges| - 1], order, t) + (if last.target == t then Count(order, last.source) else 0)
  }

  /** The targets of a node's edges, in edge order. */
  function Targets(edges: seq<Edge>, s: Id): seq<Id> {
    if edges == [] then []
    else
      var last := edges[|edges| - 1];
      Targets(edges[..|edges| - 1], s) + (if last.source == s then [last.target] else [])
  }

  lemma {:induction false} CountAppend(s: seq<Id>, x: Id, t: Id)
    ensures Count(s + [x], t) == Count(s, t) + (if x == t then 1 else 0)
  {
    assert (s + [x])[..|s|] == s;
  }

  lemma {:induction false} CountConcat(a: seq<Id>, b: seq<Id>, t: Id)
    ensures Count(a + b, t) == Count(a, t) + Count(b, t)
  {
    if b == [] {
      assert a + b == a;
    } else {
      CountConcat(a, b[..|b| - 1], t);
      assert (a + b)[..|a + b| - 1] == a + b[..|b| - 1];
    }
  }

  lemma {:induction false} CountFirst(s: seq<Id>, t: Id)
    requires s != []
    ensures Count(s, t) == (if s[0] == t then 1 else 0) + Count(s[1..], t)
  {
    CountConcat([s[0]], s[1..], t);
    assert [s[0]] + s[1..] == s;
    assert [s[0]][..0] == [];
  }

  lemma {:induction false} CountIn(s: seq<Id>, t: Id)
    ensures Count(s, t) > 0 <==> t in s
  {
    if s != [] {
      var n := |s| - 1;
      CountIn(s[..n], t);
      assert s == s[..n] + [s[n]];
    }
  }

  lemma {:induction false} CountOnce(s: seq<Id>, t: Id)
    requires NoDuplicates(s)
    ensures Count(s, t) == if t in s then 1 else 0
  {
    if s != [] {
      var n := |s| - 1;
      CountOnce(s[..n], t);
      assert s == s[..n] + [s[n]];
      assert s[n] !in s[..n];
    }
  }

  lemma CountPrefix(s: seq<Id>, j: nat, t: Id)
    requires j <= |s|
    ensures Count(s[..j], t) <= Count(s, t)
  {
    CountConcat(s[..j], s[j..], t);
    assert s[..j] + s[j..] == s;
  }

  lemma NoneTwice(s: seq<Id>)
    requires forall t :: Count(s, t) <= 1
    ensures NoDuplicates(s)
  {
    forall i, j | 0 <= i < j < |s| ensures s[i] != s[j] {
      CountIn(s[..j], s[j]);
      CountAppend(s[..j], s[j], s[j]);
      assert s[..j] + [s[j]] == s[..j + 1];
      CountPrefix(s, j + 1, s[j]);
      assert s[..j][i] == s[i];
    }
  }

  lemma {:induction false} CountIsMultiplicity(s: seq<Id>, t: Id)
    ensures multiset(s)[t] == Count(s, t)
  {
    if s != [] {
      var n := |s| - 1;
      CountIsMultiplicity(s[..n], t);
      assert s == s[..n] + [s[n]];
    }
  }

  lemma SameMultiset(a: seq<Id>, b: seq<Id>)
    requires forall t :: Count(a, t) == Count(b, t)
    ensures multiset(a) == multiset(b)
  {
    forall t ensures multiset(a)[t] == multiset(b)[t] {
      CountIsMultiplicity(a, t);
      CountIsMultiplicity(b, t);
    }
  }

  /** A list that holds nothing more often than another, and is as long, holds everything as often. */
  lemma SameLength(a: seq<Id>, b: seq<Id>, t: Id)
    requires |a| == |b| && forall x :: Count(a, x) <= Count(b, x)
    ensures Count(a, t) == Count(b, t)
  {
    forall x ensures multiset(a)[x] <= multiset(b)[x] {
      CountIsMultiplicity(a, x);
      CountIsMultiplicity(b, x);
    }
    var rest := multiset(b) - multiset(a);
    assert multiset(b) == multiset(a) + rest;
    assert rest == multiset{};
    CountIsMultiplicity(a, t);
    CountIsMultiplicity(b, t);
  }

  /** Finishing a node counts its own targets down once more. */
  lemma {:induction false} DropsAfter(edges: seq<Edge>, order: seq<Id>, id: Id, t: Id)
    ensures Drops(edges, order + [id], t) == Drops(edges, order, t) + Count(Targets(edges, id), t)
  {
    if edges != [] {
      var last := edges[|edges| - 1];
      var front := Targets(edges[..|edges| - 1], id);
      DropsAfter(edges[..|edges| - 1], order, id, t);
      CountAppend(order, id, last.source);
      CountAppend(front, last.target, t);
      assert front + [] == front;
    }
  }

  lemma {:induction false} NothingDropped(edges: seq<Edge>, t: Id)
    ensures Drops(edges, [], t) == 0
  {
    if edges != [] {
      NothingDropped(edges[..|edges| - 1], t);
    }
  }

  lemma {:induction false} TargetsAreTargets(edges: seq<Edge>, s: Id, t: Id)
    requires t in Targets(edges, s)
    ensures Edge(s, t) in edges
  {
    var front, last := edges[..|edges| - 1], edges[|edges| - 1];
    if t in Targets(front, s) {
      TargetsAreTargets(front, s, t);
    } else {
      assert last == Edge(s, t);
    }
  }
}
