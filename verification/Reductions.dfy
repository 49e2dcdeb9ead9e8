/**
 The runtime's list operations: sort over arbitrary mixes of JSON values, deduplicate, and vote.
 `at` stands for the configured path lookup and `num` for the numeric value of a number token.
 */
module Reductions {
  import opened CodeUnits
  import opened Json
  import opened CanonicalJson

  // ----- The sort comparator -----

  /** Two numbers compare as numbers; any other pair as the strings they stringify to. */
  function Compare(num: Str -> real, a: Value, b: Value): (r: int)
    ensures -1 <= r <= 1
  {
    if a.Number? && b.Number? then
      if num(a.token) < num(b.token) then -1 else if num(a.token) > num(b.token) then 1 else 0
    else ByCodeUnit(Print(a), Print(b))
  }

  /** Numbers print with a digit or a minus sign first, quoted strings before and all others after those. */
  function Band(v: Value): int {
    if v.Text? then 0 else if v.Number? then 1 else 2
  }

  lemma BandsOrder(num: Str -> real, a: Value, b: Value)
    requires Printable(a) && Printable(b) && Band(a) < Band(b)
    ensures Compare(num, a, b) == -1 && Compare(num, b, a) == 1
  {
    assert Print(a) != [] && Print(b) != [];
    assert Print(a)[0] < Print(b)[0];
  }

  lemma CompareSymmetric(num: Str -> real, a: Value, b: Value)
    ensures Compare(num, a, b) == -Compare(num, b, a)
    ensures Compare(num, a, a) == 0
  {
    LexIrreflexive(Print(a));
    if LexLess(Print(a), Print(b)) {
      LexAsymmetric(Print(a), Print(b));
    }
  }

  lemma TextsTransitive(x: Str, y: Str, z: Str)
    requires ByCodeUnit(x, y) <= 0 && ByCodeUnit(y, z) <= 0
    ensures ByCodeUnit(x, z) <= 0
  {
    LexTotal(x, y);
    LexTotal(y, z);
    if LexLess(x, y) && LexLess(y, z) {
      LexTransitive(x, y, z);
    }
    LexIrreflexive(x);
  }

  lemma CompareTransitive(num: Str -> real, a: Value, b: Value, c: Value)
    requires Printable(a) && Printable(b) && Printable(c)
    requires Compare(num, a, b) <= 0 && Compare(num, b, c) <= 0
    ensures Compare(num, a, c) <= 0
  {
    if Band(b) < Band(a) {
      BandsOrder(num, b, a);
    } else if Band(c) < Band(b) {
      BandsOrder(num, c, b);
    } else if Band(a) < Band(c) {
      BandsOrder(num, a, c);
    } else if !a.Number? {
      TextsTransitive(Print(a), Print(b), Print(c));
    }
  }

  // ----- Stable sorting -----

  type Comparator = (Value, Value) -> int

  /** A total preorder on the values of the list. */
  ghost predicate TotalPreorder(cmp: Comparator, xs: seq<Value>) {
    && (forall a, b :: a in xs && b in xs ==> cmp(a, b) == -cmp(b, a))
    && (forall a, b, c :: a in xs && b in xs && c in xs && cmp(a, b) <= 0 && cmp(b, c) <= 0 ==> cmp(a, c) <= 0)
  }

  /** Position `i` of the input goes before position `j`: a smaller value, or an equal one that came first. */
  predicate Before(cmp: Comparator, xs: seq<Value>, i: nat, j: nat)
    requires i < |xs| && j < |xs|
  {
    cmp(xs[i], xs[j]) < 0 || (cmp(xs[i], xs[j]) == 0 && i < j)
  }

  predicate InRange(p: seq<nat>, n: nat) {
    forall k :: 0 <= k < |p| ==> p[k] < n
  }

  predicate Ordered(cmp: Comparator, xs: seq<Value>, p: seq<nat>)
    requires InRange(p, |xs|)
  {
    forall k, l :: 0 <= k < l < |p| ==> Before(cmp, xs, p[k], p[l])
  }

  /** `p` lists every position of the input, in sorted order with ties in input order. */
  predicate StableOrder(cmp: Comparator, xs: seq<Value>, p: seq<nat>) {
    && InRange(p, |xs|)
    && (forall i :: 0 <= i < |xs| ==> i in p)
    && Ordered(cmp, xs, p)
  }

  function InsertPosition(cmp: Comparator, xs: seq<Value>, i: nat, p: seq<nat>): (r: seq<nat>)
    requires i < |xs| && InRange(p, |xs|)
    ensures InRange(r, |xs|)
    ensures forall k :: k in r <==> k == i || k in p
  {
    if p == [] then [i]
    else if cmp(xs[i], xs[p[0]]) <= 0 then [i] + p
    else
      assert forall k :: k in p <==> k == p[0] || k in p[1..];
      [p[0]] + InsertPosition(cmp, xs, i, p[1..])
  }

  /** The positions from `from` on, sorted. */
  function SortedPositions(cmp: Comparator, xs: seq<Value>, from: nat): (r: seq<nat>)
    requires from <= |xs|
    ensures InRange(r, |xs|)
    ensures forall k :: k in r <==> from <= k < |xs|
    decreases |xs| - from
  {
    if from == |xs| then [] else InsertPosition(cmp, xs, from, SortedPositions(cmp, xs, from + 1))
  }

  function Pick(xs: seq<Value>, p: seq<nat>): (r: seq<Value>)
    requires InRange(p, |xs|)
    ensures |r| == |p| && forall k :: 0 <= k < |r| ==> r[k] == xs[p[k]]
  {
    seq(|p|, k requires 0 <= k < |p| => xs[p[k]])
  }

  /** `toSorted`: the values in stable order. */
  function ToSorted(cmp: Comparator, xs: seq<Value>): (r: seq<Value>) {
    Pick(xs, SortedPositions(cmp, xs, 0))
  }

  lemma {:induction false} InsertKeepsOrder(cmp: Comparator, xs: seq<Value>, i: nat, p: seq<nat>)
    requires TotalPreorder(cmp, xs) && i < |xs| && InRange(p, |xs|) && Ordered(cmp, xs, p)
    requires forall k :: 0 <= k < |p| ==> i < p[k]
    ensures Ordered(cmp, xs, InsertPosition(cmp, xs, i, p))
  {
    if p != [] {
      var r := InsertPosition(cmp, xs, i, p);
      if cmp(xs[i], xs[p[0]]) <= 0 {
        forall l | 0 < l < |r| ensures Before(cmp, xs, r[0], r[l]) {
          assert l > 1 ==> Before(cmp, xs, p[0], p[l - 1]);
          assert cmp(xs[i], xs[p[l - 1]]) <= 0;
        }
      } else {
        var tail := InsertPosition(cmp, xs, i, p[1..]);
        InsertKeepsOrder(cmp, xs, i, p[1..]);
        forall l | 0 <= l < |tail| ensures Before(cmp, xs, p[0], tail[l]) {
          assert tail[l] in tail;
          if tail[l] != i {
            var m :| 0 <= m < |p[1..]| && p[1..][m] == tail[l];
            assert Before(cmp, xs, p[0], p[m + 1]);
          } else {
            assert cmp(xs[p[0]], xs[i]) == -cmp(xs[i], xs[p[0]]);
          }
        }
      }
    }
  }

  lemma {:induction false} PositionsOrdered(cmp: Comparator, xs: seq<Value>, from: nat)
    requires TotalPreorder(cmp, xs) && from <= |xs|
    ensures Ordered(cmp, xs, SortedPositions(cmp, xs, from))
    decreases |xs| - from
  {
    if from < |xs| {
      var p := SortedPositions(cmp, xs, from + 1);
      PositionsOrdered(cmp, xs, from + 1);
      forall k | 0 <= k < |p| ensures from < p[k] {
        assert p[k] in p;
      }
      InsertKeepsOrder(cmp, xs, from, p);
    }
  }

  lemma BeforeAsymmetric(cmp: Comparator, xs: seq<Value>, i: nat, j: nat)
    requires TotalPreorder(cmp, xs) && i < |xs| && j < |xs| && Before(cmp, xs, i, j)
    ensures !Before(cmp, xs, j, i) && i != j
  {
    assert xs[i] in xs && xs[j] in xs;
    assert cmp(xs[i], xs[j]) == -cmp(xs[j], xs[i]);
  }

  /** Two sorted lists of the same positions are the same list. */
  lemma {:induction false} OrderedUnique(cmp: Comparator, xs: seq<Value>, p: seq<nat>, q: seq<nat>)
    requires TotalPreorder(cmp, xs) && InRange(p, |xs|) && InRange(q, |xs|)
    requires Ordered(cmp, xs, p) && Ordered(cmp, xs, q)
    requires forall i :: i in p <==> i in q
    ensures p == q
  {
    assert p != [] ==> p[0] in q;
    assert q != [] ==> q[0] in p;
    if p != [] {
      var l :| 0 <= l < |q| && q[l] == p[0];
      var k :| 0 <= k < |p| && p[k] == q[0];
      if k > 0 && l > 0 {
        BeforeAsymmetric(cmp, xs, p[0], p[k]);
      }
      assert p[0] == q[0];
      forall i ensures i in p[1..] <==> i in q[1..] {
        TailPositions(cmp, xs, p, i);
        TailPositions(cmp, xs, q, i);
      }
      OrderedUnique(cmp, xs, p[1..], q[1..]);
    }
  }

  lemma TailPositions(cmp: Comparator, xs: seq<Value>, p: seq<nat>, i: nat)
    requires TotalPreorder(cmp, xs) && InRange(p, |xs|) && Ordered(cmp, xs, p) && p != []
    ensures i in p[1..] <==> i in p && i != p[0]
  {
    forall k | 0 < k < |p| ensures p[k] != p[0] {
      BeforeAsymmetric(cmp, xs, p[0], p[k]);
    }
  }

  /** The sorted list is the one stable ordering of the input, so any stable sort returns it. */
  lemma SortIsTheStableOrder(cmp: Comparator, xs: seq<Value>, p: seq<nat>)
    requires TotalPreorder(cmp, xs)
    ensures StableOrder(cmp, xs, p) <==> p == SortedPositions(cmp, xs, 0)
    ensures StableOrder(cmp, xs, p) ==> ToSorted(cmp, xs) == Pick(xs, p)
  {
    var sorted := SortedPositions(cmp, xs, 0);
    PositionsOrdered(cmp, xs, 0);
    if StableOrder(cmp, xs, p) {
      forall i ensures i in p <==> i in sorted {
        if i in p {
          var k :| 0 <= k < |p| && p[k] == i;
        }
      }
      OrderedUnique(cmp, xs, p, sorted);
    }
  }

  /** ECMAScript orders undefined items last, without asking the comparator (section 23.1.3.30.2 of ECMA-262). */
  function UndefinedLast(a: Value, b: Value): int {
    if a.Undefined? then (if b.Undefined? then 0 else 1) else if b.Undefined? then -1 else 0
  }

  /** The order `toSorted` sorts by, ascending or descending, by the value at the configured path. */
  function SortComparator(num: Str -> real, at: Value -> Value, descending: bool): Comparator {
    (a: Value, b: Value) =>
      if a.Undefined? || b.Undefined? then UndefinedLast(a, b)
      else if descending then -Compare(num, at(a), at(b)) else Compare(num, at(a), at(b))
  }

  /** `sort` is well defined on any mix of values, in both directions. */
  lemma SortOrders(num: Str -> real, at: Value -> Value, descending: bool, xs: seq<Value>)
    requires forall x :: x in xs ==> Printable(at(x))
    ensures TotalPreorder(SortComparator(num, at, descending), xs)
    ensures StableOrder(SortComparator(num, at, descending), xs,
                        SortedPositions(SortComparator(num, at, descending), xs, 0))
  {
    var cmp := SortComparator(num, at, descending);
    forall a, b | a in xs && b in xs ensures cmp(a, b) == -cmp(b, a) {
      CompareSymmetric(num, at(a), at(b));
    }
    forall a, b, c | a in xs && b in xs && c in xs && cmp(a, b) <= 0 && cmp(b, c) <= 0 ensures cmp(a, c) <= 0 {
      if a.Undefined? || b.Undefined? || c.Undefined? {
      } else if descending {
        CompareSymmetric(num, at(a), at(b));
        CompareSymmetric(num, at(b), at(c));
        CompareSymmetric(num, at(a), at(c));
        CompareTransitive(num, at(c), at(b), at(a));
      } else {
        CompareTransitive(num, at(a), at(b), at(c));
      }
    }
    SortIsTheStableOrder(cmp, xs, SortedPositions(cmp, xs, 0));
  }

  /** The values `a` and `b` may stand in this order: numbers by value, any other pair by code units. */
  predicate MayPrecede(num: Str -> real, descending: bool, a: Value, b: Value) {
    if a.Number? && b.Number? then
      if descending then num(b.token) <= num(a.token) else num(a.token) <= num(b.token)
    else
      if descending then !LexLess(Print(a), Print(b)) else !LexLess(Print(b), Print(a))
  }

  /** Ascending puts smaller values first, descending larger ones, and both put undefined items last. */
  lemma SortDirection(num: Str -> real, at: Value -> Value, descending: bool, xs: seq<Value>, i: nat, j: nat)
    requires forall x :: x in xs ==> Printable(at(x))
    requires var r := ToSorted(SortComparator(num, at, descending), xs); i < j < |r|
    ensures var r := ToSorted(SortComparator(num, at, descending), xs);
            && (r[i].Undefined? ==> r[j].Undefined?)
            && (!r[j].Undefined? ==> MayPrecede(num, descending, at(r[i]), at(r[j])))
  {
    var cmp := SortComparator(num, at, descending);
    var p := SortedPositions(cmp, xs, 0);
    SortOrders(num, at, descending, xs);
    var a, b := xs[p[i]], xs[p[j]];
    assert Before(cmp, xs, p[i], p[j]) && cmp(a, b) <= 0;
    LexTotal(Print(at(a)), Print(at(b)));
    LexIrreflexive(Print(at(a)));
    if LexLess(Print(at(a)), Print(at(b))) {
      LexAsymmetric(Print(at(a)), Print(at(b)));
    } else if LexLess(Print(at(b)), Print(at(a))) {
      LexAsymmetric(Print(at(b)), Print(at(a)));
    }
  }

  // ----- deduplicate -----

  type KeyOf = Value -> Str

  /** No earlier item has the key of item `i`. */
  predicate First(items: seq<Value>, key: KeyOf, i: nat)
    requires i < |items|
  {
    forall j :: 0 <= j < i ==> key(items[j]) != key(items[i])
  }

  predicate Ascending(p: seq<nat>) {
    forall k, l :: 0 <= k < l < |p| ==> p[k] < p[l]
  }

  /** `r` are the items at `kept`, which are exactly the positions of first items, in order. */
  predicate Firsts(items: seq<Value>, key: KeyOf, kept: seq<nat>, r: seq<Value>) {
    && InRange(kept, |items|) && Ascending(kept) && r == Pick(items, kept)
    && forall i :: 0 <= i < |items| ==> (i in kept <==> First(items, key, i))
  }

  /** Keeps the first item of each key, in order. */
  method Deduplicate(items: seq<Value>, key: KeyOf) returns (r: seq<Value>)
    ensures exists kept :: Firsts(items, key, kept, r)
  {
    var seen: set<Str> := {};
    ghost var kept: seq<nat> := [];
    r := [];
    for n := 0 to |items|
      invariant InRange(kept, n) && Ascending(kept) && r == Pick(items, kept)
      invariant forall k :: k in seen <==> exists j :: 0 <= j < n && key(items[j]) == k
      invariant forall i :: 0 <= i < n ==> (i in kept <==> First(items, key, i))
    {
      var k := key(items[n]);
      if k !in seen {
        seen := seen + {k};
        r := r + [items[n]];
        kept := kept + [n];
      }
    }
    assert Firsts(items, key, kept, r);
  }

  predicate DistinctKeys(items: seq<Value>, key: KeyOf) {
    forall i, j :: 0 <= i < j < |items| ==> key(items[i]) != key(items[j])
  }

  /** A kept item at or before position `i` has its key. */
  ghost predicate Represented(items: seq<Value>, key: KeyOf, kept: seq<nat>, i: nat)
    requires i < |items| && InRange(kept, |items|)
  {
    exists k :: 0 <= k < |kept| && kept[k] <= i && key(items[kept[k]]) == key(items[i])
  }

  /** What deduplication returns has distinct keys and no key of the input is missing. */
  lemma DeduplicatedKeys(items: seq<Value>, key: KeyOf, kept: seq<nat>, r: seq<Value>)
    requires Firsts(items, key, kept, r)
    ensures DistinctKeys(r, key)
    ensures forall i :: 0 <= i < |items| ==> Represented(items, key, kept, i)
  {
    forall k, l | 0 <= k < l < |kept| ensures key(items[kept[k]]) != key(items[kept[l]]) {
      assert kept[l] in kept && First(items, key, kept[l]);
    }
    forall i | 0 <= i < |items| ensures Represented(items, key, kept, i) {
      var f := FirstWithKey(items, key, i);
      assert f in kept;
      var k :| 0 <= k < |kept| && kept[k] == f;
    }
  }

  lemma {:induction false} FirstWithKey(items: seq<Value>, key: KeyOf, i: nat) returns (f: nat)
    requires i < |items|
    ensures f <= i && First(items, key, f) && key(items[f]) == key(items[i])
  {
    if First(items, key, i) {
      f := i;
    } else {
      var j :| 0 <= j < i && key(items[j]) == key(items[i]);
      f := FirstWithKey(items, key, j);
    }
  }

  lemma DistinctKept(items: seq<Value>, key: KeyOf, kept: seq<nat>, r: seq<Value>)
    requires DistinctKeys(items, key) && Firsts(items, key, kept, r)
    ensures r == items
  {
    forall i | 0 <= i < |items| ensures i in kept {
      assert First(items, key, i);
    }
    AscendingCovers(kept, |items|);
  }

  /** Deduplicating what was deduplicated changes nothing. */
  lemma DeduplicateIdempotent(items: seq<Value>, key: KeyOf, once: seq<Value>, twice: seq<Value>, p: seq<nat>,
                              q: seq<nat>)
    requires Firsts(items, key, p, once) && Firsts(once, key, q, twice)
    ensures twice == once
  {
    DeduplicatedKeys(items, key, p, once);
    DistinctKept(once, key, q, twice);
  }

  lemma {:induction false} AscendingCovers(p: seq<nat>, n: nat)
    requires InRange(p, n) && Ascending(p) && forall i :: 0 <= i < n ==> i in p
    ensures |p| == n && forall k :: 0 <= k < n ==> p[k] == k
  {
    assert n > 0 ==> n - 1 in p;
    if p != [] {
      assert p[0] < n;
      assert forall j :: 0 <= j < |p| ==> p[j] <= p[|p| - 1];
      assert p[|p| - 1] == n - 1;
      var front := p[..|p| - 1];
      forall i | 0 <= i < n - 1 ensures i in front {
        assert i in p;
        var l :| 0 <= l < |p| && p[l] == i;
        assert front[l] == i;
      }
      AscendingCovers(front, n - 1);
    }
  }

  /** The key in use: the digest of the value at the path, or of null. */
  function DigestKey(sha: Str -> Str, at: Value -> Value): KeyOf {
    (v: Value) => StableDigest(sha, if at(v).Undefined? then Null else at(v))
  }

  /** Under digest keys, items share a key exactly when their values are the same JSON, or the hash collides on them. */
  lemma DigestKeysSeparate(sha: Str -> Str, at: Value -> Value, a: Value, b: Value)
    requires WellFormed(at(a)) && WellFormed(at(b))
    ensures var x, y := if at(a).Undefined? then Null else at(a), if at(b).Undefined? then Null else at(b);
            DigestKey(sha, at)(a) == DigestKey(sha, at)(b) <==> Same(x, y) || Collision(sha, x, y)
  {
    var x, y := if at(a).Undefined? then Null else at(a), if at(b).Undefined? then Null else at(b);
    DigestSeparates(sha, x, y);
  }

  // ----- vote -----

  function Votes(items: seq<Value>, key: KeyOf, k: Str): nat {
    if items == [] then 0
    else Votes(items[..|items| - 1], key, k) + (if key(items[|items| - 1]) == k then 1 else 0)
  }

  /** Item `i` is the first of its key, no key has more votes, and no earlier item's key has as many. */
  predicate Wins(items: seq<Value>, key: KeyOf, i: nat)
    requires i < |items|
  {
    && First(items, key, i)
    && forall j :: 0 <= j < |items| ==>
         && Votes(items, key, key(items[j])) <= Votes(items, key, key(items[i]))
         && (j < i ==> Votes(items, key, key(items[j])) < Votes(items, key, key(items[i])))
  }

  datatype Tally = Tally(value: Value, count: nat, first: nat)

  predicate Tallied(items: seq<Value>, key: KeyOf, k: Str, t: Tally) {
    && t.first < |items| && key(items[t.first]) == k && First(items, key, t.first)
    && t.value == items[t.first]
    && t.count == Votes(items, key, k)
  }

  lemma TalliedStep(items: seq<Value>, key: KeyOf, n: nat, k: Str, t: Tally)
    requires n < |items| && Tallied(items[..n], key, k, t)
    ensures Tallied(items[..n + 1], key, k, t.(count := t.count + if key(items[n]) == k then 1 else 0))
  {
    assert items[..n + 1][..n] == items[..n];
  }

  lemma {:induction false} NoVotes(items: seq<Value>, key: KeyOf, k: Str)
    requires forall i :: 0 <= i < |items| ==> key(items[i]) != k
    ensures Votes(items, key, k) == 0
  {
    if items != [] {
      NoVotes(items[..|items| - 1], key, k);
    }
  }

  method CountVotes(items: seq<Value>, key: KeyOf) returns (counts: map<Str, Tally>)
    ensures forall k :: k in counts <==> exists i :: 0 <= i < |items| && key(items[i]) == k
    ensures forall k :: k in counts ==> Tallied(items, key, k, counts[k])
  {
    counts := map[];
    for n := 0 to |items|
      invariant forall k :: k in counts <==> exists i :: 0 <= i < n && key(items[i]) == k
      invariant forall k :: k in counts ==> Tallied(items[..n], key, k, counts[k])
    {
      var k := key(items[n]);
      ghost var before := counts;
      forall q | q in before { TalliedStep(items, key, n, q, before[q]); }
      if k in counts {
        counts := counts[k := counts[k].(count := counts[k].count + 1)];
      } else {
        NoVotes(items[..n], key, k);
        assert items[..n + 1][..n] == items[..n];
        counts := counts[k := Tally(items[n], 1, n)];
      }
    }
    assert items[..|items|] == items;
  }

  /** More votes, or as many and seen earlier. */
  predicate Leads(a: Tally, b: Tally) {
    a.count > b.count || (a.count == b.count && a.first <= b.first)
  }

  /** The earliest value of maximal count; null for no values and for an undefined winner. */
  method Vote(items: seq<Value>, key: KeyOf) returns (r: Value)
    ensures items == [] ==> r == Null
    ensures items != [] ==>
              exists i :: 0 <= i < |items| && Wins(items, key, i)
                          && r == if items[i].Undefined? then Null else items[i]
  {
    if items == [] { return Null; }
    var counts := CountVotes(items, key);
    assert key(items[0]) in counts;
    var best :| best in counts;
    var rest := counts.Keys - {best};
    while rest != {}
      invariant best in counts && rest <= counts.Keys
      invariant forall k :: k in counts && k !in rest ==> Leads(counts[best], counts[k])
      decreases rest
    {
      var k :| k in rest;
      if !Leads(counts[best], counts[k]) { best := k; }
      rest := rest - {k};
    }
    LeaderWins(items, key, counts, best);
    r := if counts[best].value.Undefined? then Null else counts[best].value;
  }

  lemma LeaderWins(items: seq<Value>, key: KeyOf, counts: map<Str, Tally>, best: Str)
    requires forall k :: k in counts <==> exists i :: 0 <= i < |items| && key(items[i]) == k
    requires forall k :: k in counts ==> Tallied(items, key, k, counts[k])
    requires best in counts && forall k :: k in counts ==> Leads(counts[best], counts[k])
    ensures counts[best].first < |items| && Wins(items, key, counts[best].first)
  {
    var i := counts[best].first;
    forall j | 0 <= j < |items|
      ensures Votes(items, key, key(items[j])) <= Votes(items, key, key(items[i]))
      ensures j < i ==> Votes(items, key, key(items[j])) < Votes(items, key, key(items[i]))
    {
      var k := key(items[j]);
      assert k in counts;
      assert counts[k].first <= j;
    }
  }

  /** The winner is unique. */
  lemma WinnerUnique(items: seq<Value>, key: KeyOf, i: nat, j: nat)
    requires i < |items| && j < |items| && Wins(items, key, i) && Wins(items, key, j)
    ensures i == j
  {
    var x, y := Votes(items, key, key(items[i])), Votes(items, key, key(items[j]));
    assert x <= y && y <= x;
  }
}
