/**
 The canonical form the platform digests: members without `undefined` values, sorted by code unit and enumerated by
 JavaScript's own-key order. One text stands for values that differ in member order and undefined parts alone.
 */
module CanonicalJson {
  import opened CodeUnits
  import opened Prelude
  import opened Json
  import opened JsonParser

  // ----- canonicalize -----

  /** The comparator `byCodeUnit`. */
  function ByCodeUnit(left: Str, right: Str): int {
    if LexLess(left, right) then -1 else if LexLess(right, left) then 1 else 0
  }

  function DropUndefined(ms: seq<Member>): (r: seq<Member>)
    ensures forall m :: m in r <==> m in ms && !m.value.Undefined?
    ensures UniqueKeys(ms) ==> UniqueKeys(r)
  {
    if ms == [] then []
    else
      var rest := DropUndefined(ms[1..]);
      assert forall m :: m in ms <==> m == ms[0] || m in ms[1..];
      assert UniqueKeys(ms) ==> forall j :: 0 <= j < |rest| ==> rest[j] in ms[1..] && rest[j].key != ms[0].key;
      if ms[0].value.Undefined? then rest else [ms[0]] + rest
  }

  function InsertByKey(m: Member, sorted: seq<Member>): (r: seq<Member>)
    ensures |r| == |sorted| + 1
    ensures forall x :: x in r <==> x == m || x in sorted
  {
    if sorted == [] then [m]
    else if ByCodeUnit(m.key, sorted[0].key) <= 0 then [m] + sorted
    else
      assert forall x :: x in sorted <==> x == sorted[0] || x in sorted[1..];
      [sorted[0]] + InsertByKey(m, sorted[1..])
  }

  /** `.sort` with `byCodeUnit`. */
  function SortByKey(ms: seq<Member>): (r: seq<Member>)
    ensures |r| == |ms|
    ensures forall x :: x in r <==> x in ms
  {
    if ms == [] then []
    else
      assert forall x :: x in ms <==> x == ms[0] || x in ms[1..];
      InsertByKey(ms[0], SortByKey(ms[1..]))
  }

  /** The largest array index of ECMAScript. */
  const MAX_INDEX: nat := 0xFFFF_FFFE

  function DecimalValue(k: Str): nat
    requires forall i :: 0 <= i < |k| ==> IsDigit(k[i])
  {
    if k == [] then 0 else assert IsDigit(k[|k| - 1]); 10 * DecimalValue(k[..|k| - 1]) + k[|k| - 1] as int - 48
  }

  /** Keys that JavaScript enumerates first, in numeric order: canonical decimal array indices. */
  predicate IsIndexKey(k: Str) {
    && k != []
    && (forall i :: 0 <= i < |k| ==> IsDigit(k[i]))
    && (|k| > 1 ==> k[0] != 48)
    && DecimalValue(k) <= MAX_INDEX
  }

  predicate AllIndexKeys(ms: seq<Member>) {
    forall i :: 0 <= i < |ms| ==> IsIndexKey(ms[i].key)
  }

  function IndexMembers(ms: seq<Member>): (r: seq<Member>)
    ensures AllIndexKeys(r)
  {
    if ms == [] then []
    else if IsIndexKey(ms[0].key) then [ms[0]] + IndexMembers(ms[1..])
    else IndexMembers(ms[1..])
  }

  function NamedMembers(ms: seq<Member>): (r: seq<Member>) {
    if ms == [] then []
    else if IsIndexKey(ms[0].key) then NamedMembers(ms[1..])
    else [ms[0]] + NamedMembers(ms[1..])
  }

  function InsertByIndex(m: Member, sorted: seq<Member>): (r: seq<Member>)
    requires IsIndexKey(m.key) && AllIndexKeys(sorted)
    ensures AllIndexKeys(r)
  {
    if sorted == [] then [m]
    else if DecimalValue(m.key) <= DecimalValue(sorted[0].key) then [m] + sorted
    else [sorted[0]] + InsertByIndex(m, sorted[1..])
  }

  function SortByIndex(ms: seq<Member>): (r: seq<Member>)
    requires AllIndexKeys(ms)
    ensures AllIndexKeys(r)
  {
    if ms == [] then [] else InsertByIndex(ms[0], SortByIndex(ms[1..]))
  }

  /** `Object.fromEntries` followed by enumeration: index keys in numeric order, then the others as inserted. */
  function OwnKeyOrder(ms: seq<Member>): (r: seq<Member>) {
    SortByIndex(IndexMembers(ms)) + NamedMembers(ms)
  }

  function Canonicalize(v: Value): (r: Value)
    decreases v
  {
    match v
    case Array(items) => Array(seq(|items|, i requires 0 <= i < |items| => Canonicalize(items[i])))
    case Object(ms) =>
      var sorted := SortByKey(DropUndefined(ms));
      assert forall i :: 0 <= i < |sorted| ==> sorted[i] in ms;
      Object(OwnKeyOrder(seq(|sorted|, i requires 0 <= i < |sorted| =>
        assert sorted[i] in ms; Member(sorted[i].key, Canonicalize(sorted[i].value)))))
    case _ => v
  }

  /** The text that is hashed; `undefined` itself has none. */
  function CanonicalText(v: Value): (r: Option<Str>)
    ensures r.None? <==> v.Undefined?
  {
    if v.Undefined? then None else Some(Print(Canonicalize(v)))
  }

  // ----- Sameness, without any sorting -----

  /** Equal up to member order, undefined members, and undefined printed as null inside arrays. */
  ghost predicate Same(a: Value, b: Value)
    decreases a, 0
  {
    match (a, b)
    case (Array(x), Array(y)) => |x| == |y| && forall i :: 0 <= i < |x| ==> SameItem(x[i], y[i])
    case (Object(m), Object(n)) =>
      && (forall i :: 0 <= i < |m| && !m[i].value.Undefined? ==> SameMember(m[i], n))
      && (forall j :: 0 <= j < |n| && !n[j].value.Undefined? ==> Defines(m, n[j].key))
    case _ => a == b
  }

  /** The object `n` gives the member's key the same value. */
  ghost predicate SameMember(x: Member, n: seq<Member>)
    decreases x.value, 1
  {
    exists j :: 0 <= j < |n| && n[j].key == x.key && Same(x.value, n[j].value)
  }

  ghost predicate SameItem(a: Value, b: Value)
    decreases a, 1
  {
    (Nullish(a) && Nullish(b)) || Same(a, b)
  }

  predicate Nullish(v: Value) {
    v.Undefined? || v.Null?
  }

  /** The object defines the key. */
  ghost predicate Defines(ms: seq<Member>, key: Str) {
    exists i :: 0 <= i < |ms| && ms[i].key == key && !ms[i].value.Undefined?
  }

  // ----- Sorting by key -----

  predicate SortedKeys(ms: seq<Member>) {
    forall i, j :: 0 <= i < j < |ms| ==> LexLess(ms[i].key, ms[j].key)
  }

  lemma {:induction false} InsertSorted(m: Member, sorted: seq<Member>)
    requires SortedKeys(sorted)
    requires forall i :: 0 <= i < |sorted| ==> sorted[i].key != m.key
    ensures SortedKeys(InsertByKey(m, sorted))
  {
    if sorted != [] {
      LexTotal(m.key, sorted[0].key);
      var r := InsertByKey(m, sorted);
      if LexLess(m.key, sorted[0].key) {
        forall i | 0 < i < |sorted| ensures LexLess(m.key, sorted[i].key) {
          LexTransitive(m.key, sorted[0].key, sorted[i].key);
        }
      } else {
        InsertSorted(m, sorted[1..]);
        var tail := InsertByKey(m, sorted[1..]);
        forall j | 0 <= j < |tail| ensures LexLess(sorted[0].key, tail[j].key) {
          assert tail[j] in tail;
          assert tail[j] == m || tail[j] in sorted[1..];
        }
      }
    }
  }

  lemma {:induction false} SortSorted(ms: seq<Member>)
    requires UniqueKeys(ms)
    ensures SortedKeys(SortByKey(ms))
  {
    if ms != [] {
      var tail := SortByKey(ms[1..]);
      SortSorted(ms[1..]);
      forall i | 0 <= i < |tail| ensures tail[i].key != ms[0].key {
        assert tail[i] in ms[1..];
      }
      InsertSorted(ms[0], tail);
    }
  }

  ghost predicate Lists(ms: seq<Member>, key: Str) {
    exists j :: 0 <= j < |ms| && ms[j].key == key
  }

  ghost predicate KeysWithin(x: seq<Member>, y: seq<Member>) {
    forall i :: 0 <= i < |x| ==> Lists(y, x[i].key)
  }

  lemma SameFirstKey(x: seq<Member>, y: seq<Member>)
    requires SortedKeys(x) && SortedKeys(y) && x != [] && y != []
    requires Lists(y, x[0].key) && Lists(x, y[0].key)
    ensures x[0].key == y[0].key
  {
    var j :| 0 <= j < |y| && y[j].key == x[0].key;
    var k :| 0 <= k < |x| && x[k].key == y[0].key;
    if j > 0 && k > 0 {
      LexAsymmetric(y[0].key, y[j].key);
    }
  }

  /** Two strictly sorted lists with the same keys list them alike. */
  lemma {:induction false} SortedSameKeys(x: seq<Member>, y: seq<Member>)
    requires SortedKeys(x) && SortedKeys(y)
    requires KeysWithin(x, y) && KeysWithin(y, x)
    ensures |x| == |y| && forall i :: 0 <= i < |x| ==> x[i].key == y[i].key
  {
    assert x != [] ==> Lists(y, x[0].key);
    assert y != [] ==> Lists(x, y[0].key);
    if x != [] {
      SameFirstKey(x, y);
      hide LexLess;
      TailKeysWithin(x, y);
      TailKeysWithin(y, x);
      SortedSameKeys(x[1..], y[1..]);
      forall i | 0 <= i < |x| ensures x[i].key == y[i].key {
        if i > 0 {
          assert x[i] == x[1..][i - 1] && y[i] == y[1..][i - 1];
        }
      }
    }
  }

  lemma TailKeysWithin(x: seq<Member>, y: seq<Member>)
    requires SortedKeys(x) && x != [] && y != [] && x[0].key == y[0].key
    requires KeysWithin(x, y)
    ensures KeysWithin(x[1..], y[1..])
  {
    var p, q := x[1..], y[1..];
    LexIrreflexive(x[0].key);
    forall i | 0 <= i < |p| ensures Lists(q, p[i].key) {
      assert Lists(y, x[i + 1].key);
      var j :| 0 <= j < |y| && y[j].key == x[i + 1].key;
      assert LexLess(x[0].key, x[i + 1].key);
      assert q[j - 1].key == p[i].key;
    }
  }

  // ----- Lists that read back alike -----

  predicate AllDefined(ms: seq<Member>) {
    forall i :: 0 <= i < |ms| ==> !ms[i].value.Undefined?
  }

  ghost predicate AlikeMembers(m: Member, n: Member) {
    m.key == n.key && Plain(m.value) == Plain(n.value)
  }

  ghost predicate Alike(x: seq<Member>, y: seq<Member>) {
    |x| == |y| && forall i :: 0 <= i < |x| ==> AlikeMembers(x[i], y[i])
  }

  lemma {:induction false} PlainMembersAt(ms: seq<Member>)
    requires AllDefined(ms)
    ensures |PlainMembers(ms)| == |ms|
    ensures forall i :: 0 <= i < |ms| ==> PlainMembers(ms)[i] == Member(ms[i].key, Plain(ms[i].value))
  {
    if ms != [] {
      PlainMembersAt(ms[1..]);
    }
  }

  lemma AlikeExactly(x: seq<Member>, y: seq<Member>)
    requires AllDefined(x) && AllDefined(y)
    ensures Alike(x, y) <==> PlainMembers(x) == PlainMembers(y)
  {
    PlainMembersAt(x);
    PlainMembersAt(y);
    if PlainMembers(x) == PlainMembers(y) {
      forall i | 0 <= i < |x| ensures AlikeMembers(x[i], y[i]) {
        assert PlainMembers(x)[i] == PlainMembers(y)[i];
      }
    }
    if Alike(x, y) {
      forall i | 0 <= i < |x| ensures PlainMembers(x)[i] == PlainMembers(y)[i] {
        assert AlikeMembers(x[i], y[i]);
      }
      assert PlainMembers(x) == PlainMembers(y);
    }
  }

  lemma {:induction false} AlikeFiltered(x: seq<Member>, y: seq<Member>)
    requires Alike(x, y)
    ensures Alike(IndexMembers(x), IndexMembers(y))
    ensures Alike(NamedMembers(x), NamedMembers(y))
  {
    if x != [] {
      assert AlikeMembers(x[0], y[0]);
      AlikeTails(x, y);
      AlikeFiltered(x[1..], y[1..]);
      AlikeCons(x[0], y[0], IndexMembers(x[1..]), IndexMembers(y[1..]));
      AlikeCons(x[0], y[0], NamedMembers(x[1..]), NamedMembers(y[1..]));
    }
  }

  lemma AlikeTails(x: seq<Member>, y: seq<Member>)
    requires Alike(x, y) && x != []
    ensures Alike(x[1..], y[1..])
  {
    forall i | 0 <= i < |x| - 1 ensures AlikeMembers(x[1..][i], y[1..][i]) {
      assert AlikeMembers(x[i + 1], y[i + 1]);
    }
  }

  lemma AlikeCons(m: Member, n: Member, x: seq<Member>, y: seq<Member>)
    requires AlikeMembers(m, n) && Alike(x, y)
    ensures Alike([m] + x, [n] + y)
  {
  }

  lemma {:induction false} AlikeInserted(m: Member, n: Member, x: seq<Member>, y: seq<Member>)
    requires AlikeMembers(m, n) && Alike(x, y)
    requires IsIndexKey(m.key) && AllIndexKeys(x) && AllIndexKeys(y)
    ensures Alike(InsertByIndex(m, x), InsertByIndex(n, y))
  {
    AlikeCons(m, n, x, y);
    if x != [] {
      assert AlikeMembers(x[0], y[0]);
      AlikeTails(x, y);
      AlikeInserted(m, n, x[1..], y[1..]);
      AlikeCons(x[0], y[0], InsertByIndex(m, x[1..]), InsertByIndex(n, y[1..]));
    }
  }

  lemma {:induction false} AlikeSorted(x: seq<Member>, y: seq<Member>)
    requires Alike(x, y) && AllIndexKeys(x) && AllIndexKeys(y)
    ensures Alike(SortByIndex(x), SortByIndex(y))
  {
    if x != [] {
      assert AlikeMembers(x[0], y[0]);
      AlikeTails(x, y);
      AlikeSorted(x[1..], y[1..]);
      AlikeInserted(x[0], y[0], SortByIndex(x[1..]), SortByIndex(y[1..]));
    }
  }

  lemma AlikeOrdered(x: seq<Member>, y: seq<Member>)
    requires Alike(x, y)
    ensures Alike(OwnKeyOrder(x), OwnKeyOrder(y))
  {
    AlikeFiltered(x, y);
    AlikeSorted(IndexMembers(x), IndexMembers(y));
    var a, b := SortByIndex(IndexMembers(x)), SortByIndex(IndexMembers(y));
    var c, d := NamedMembers(x), NamedMembers(y);
    forall i | 0 <= i < |a| + |c| ensures AlikeMembers((a + c)[i], (b + d)[i]) {
      if i < |a| {
        assert AlikeMembers(a[i], b[i]);
      } else {
        assert AlikeMembers(c[i - |a|], d[i - |a|]);
      }
    }
  }

  // ----- Enumeration keeps the members -----

  lemma {:induction false} InsertByIndexMembers(m: Member, sorted: seq<Member>, x: Member)
    requires IsIndexKey(m.key) && AllIndexKeys(sorted)
    ensures x in InsertByIndex(m, sorted) <==> x == m || x in sorted
  {
    if sorted != [] {
      InsertByIndexMembers(m, sorted[1..], x);
    }
  }

  lemma {:induction false} SortByIndexMembers(ms: seq<Member>, x: Member)
    requires AllIndexKeys(ms)
    ensures x in SortByIndex(ms) <==> x in ms
  {
    if ms != [] {
      SortByIndexMembers(ms[1..], x);
      InsertByIndexMembers(ms[0], SortByIndex(ms[1..]), x);
    }
  }

  lemma {:induction false} PartitionMembers(ms: seq<Member>, x: Member)
    ensures x in IndexMembers(ms) || x in NamedMembers(ms) <==> x in ms
  {
    if ms != [] {
      PartitionMembers(ms[1..], x);
    }
  }

  lemma OwnKeyOrderMembers(ms: seq<Member>, x: Member)
    ensures x in OwnKeyOrder(ms) <==> x in ms
  {
    PartitionMembers(ms, x);
    SortByIndexMembers(IndexMembers(ms), x);
  }

  // ----- The canonical form -----

  /** The members that `Canonicalize` hands to `Object.fromEntries`. */
  function Entries(ms: seq<Member>): (r: seq<Member>)
    ensures |r| == |SortByKey(DropUndefined(ms))|
    ensures forall i :: 0 <= i < |r| ==>
              var m := SortByKey(DropUndefined(ms))[i]; r[i] == Member(m.key, Canonicalize(m.value))
  {
    var sorted := SortByKey(DropUndefined(ms));
    seq(|sorted|, i requires 0 <= i < |sorted| => Member(sorted[i].key, Canonicalize(sorted[i].value)))
  }

  lemma CanonicalObject(ms: seq<Member>)
    ensures Canonicalize(Object(ms)) == Object(OwnKeyOrder(Entries(ms)))
    ensures AllDefined(Entries(ms)) && AllDefined(OwnKeyOrder(Entries(ms)))
  {
    var sorted := SortByKey(DropUndefined(ms));
    var entries := Entries(ms);
    assert Canonicalize(Object(ms)).members == OwnKeyOrder(entries) by {
      assert entries == seq(|sorted|, i requires 0 <= i < |sorted| =>
        Member(sorted[i].key, Canonicalize(sorted[i].value)));
    }
    forall i | 0 <= i < |entries| ensures !entries[i].value.Undefined? {
      assert sorted[i] in DropUndefined(ms);
    }
    var r := OwnKeyOrder(entries);
    forall i | 0 <= i < |r| ensures !r[i].value.Undefined? {
      OwnKeyOrderMembers(entries, r[i]);
    }
  }

  /** `x` is the canonical form of a defined member of `ms`, at index `i`. */
  predicate Canonicalizes(ms: seq<Member>, i: int, x: Member) {
    0 <= i < |ms| && !ms[i].value.Undefined? && x == Member(ms[i].key, Canonicalize(ms[i].value))
  }

  lemma MemberOrigin(ms: seq<Member>, x: Member) returns (i: int)
    requires x in OwnKeyOrder(Entries(ms))
    ensures Canonicalizes(ms, i, x)
  {
    OwnKeyOrderMembers(Entries(ms), x);
    var sorted := SortByKey(DropUndefined(ms));
    var k :| 0 <= k < |sorted| && Entries(ms)[k] == x;
    assert sorted[k] in DropUndefined(ms);
    i :| 0 <= i < |ms| && ms[i] == sorted[k];
  }

  lemma MemberImage(ms: seq<Member>, i: int, x: Member) returns (k: int)
    requires Canonicalizes(ms, i, x)
    ensures 0 <= k < |OwnKeyOrder(Entries(ms))| && OwnKeyOrder(Entries(ms))[k] == x
  {
    var sorted := SortByKey(DropUndefined(ms));
    assert ms[i] in DropUndefined(ms);
    assert ms[i] in sorted;
    var j :| 0 <= j < |sorted| && sorted[j] == ms[i];
    assert Entries(ms)[j] == x;
    OwnKeyOrderMembers(Entries(ms), x);
    k :| 0 <= k < |OwnKeyOrder(Entries(ms))| && OwnKeyOrder(Entries(ms))[k] == x;
  }

  lemma {:induction false} CanonicalPrintable(v: Value)
    requires Printable(v)
    ensures Printable(Canonicalize(v))
    decreases v
  {
    match v
    case Array(items) =>
      forall i | 0 <= i < |items| ensures Printable(Canonicalize(items[i])) {
        CanonicalPrintable(items[i]);
      }
    case Object(ms) =>
      CanonicalObject(ms);
      var r := OwnKeyOrder(Entries(ms));
      forall i | 0 <= i < |r| ensures Printable(r[i].value) {
        var j := MemberOrigin(ms, r[i]);
        CanonicalPrintable(ms[j].value);
      }
    case _ =>
  }

  // ----- The main result -----

  ghost predicate SameReading(a: Value, b: Value) {
    Plain(Canonicalize(a)) == Plain(Canonicalize(b))
  }

  lemma NullishReading(v: Value)
    ensures Plain(Canonicalize(v)).Null? <==> Nullish(v)
  {
  }

  lemma {:induction false} SameFromReading(a: Value, b: Value)
    requires SameReading(a, b) && !a.Undefined? && !b.Undefined?
    ensures Same(a, b)
    decreases a, 1
  {
    NullishReading(a);
    NullishReading(b);
    match (a, b)
    case (Array(x), Array(y)) => SameItemsFromReading(x, y);
    case (Object(m), Object(n)) => SameMembersFromReading(m, n);
    case _ =>
  }

  lemma SameItemsFromReading(x: seq<Value>, y: seq<Value>)
    requires SameReading(Array(x), Array(y))
    ensures Same(Array(x), Array(y))
    decreases x, 0
  {
    var p, q := Canonicalize(Array(x)).items, Canonicalize(Array(y)).items;
    forall i | 0 <= i < |x| ensures SameItem(x[i], y[i]) {
      assert PlainItems(p)[i] == PlainItems(q)[i];
      NullishReading(x[i]);
      NullishReading(y[i]);
      if !Nullish(x[i]) {
        SameFromReading(x[i], y[i]);
      }
    }
  }

  lemma SameMembersFromReading(m: seq<Member>, n: seq<Member>)
    requires SameReading(Object(m), Object(n))
    ensures Same(Object(m), Object(n))
    decreases m, 0
  {
    CanonicalObject(m);
    CanonicalObject(n);
    AlikeExactly(OwnKeyOrder(Entries(m)), OwnKeyOrder(Entries(n)));
    forall i | 0 <= i < |m| && !m[i].value.Undefined? ensures SameMember(m[i], n) {
      var j := Counterpart(m, n, i);
      SameFromReading(m[i].value, n[j].value);
    }
    forall j | 0 <= j < |n| && !n[j].value.Undefined? ensures Defines(m, n[j].key) {
      AlikeSymmetric(OwnKeyOrder(Entries(m)), OwnKeyOrder(Entries(n)));
      var i := Counterpart(n, m, j);
    }
  }

  lemma AlikeSymmetric(x: seq<Member>, y: seq<Member>)
    requires Alike(x, y)
    ensures Alike(y, x)
  {
    forall i | 0 <= i < |x| ensures AlikeMembers(y[i], x[i]) {
      assert AlikeMembers(x[i], y[i]);
    }
  }

  /** The member of `n` that ends up where member `i` of `m` does. */
  lemma Counterpart(m: seq<Member>, n: seq<Member>, i: nat) returns (j: int)
    requires i < |m| && !m[i].value.Undefined?
    requires Alike(OwnKeyOrder(Entries(m)), OwnKeyOrder(Entries(n)))
    ensures 0 <= j < |n| && n[j].key == m[i].key && !n[j].value.Undefined?
    ensures SameReading(m[i].value, n[j].value)
  {
    var p, q := OwnKeyOrder(Entries(m)), OwnKeyOrder(Entries(n));
    var k := MemberImage(m, i, Member(m[i].key, Canonicalize(m[i].value)));
    assert AlikeMembers(p[k], q[k]);
    j := MemberOrigin(n, q[k]);
  }

  lemma {:induction false} ReadingFromSame(a: Value, b: Value)
    requires Keyed(a) && Keyed(b) && Same(a, b)
    ensures SameReading(a, b)
    decreases a, 1
  {
    match (a, b)
    case (Array(x), Array(y)) => ItemReadingsFromSame(x, y);
    case (Object(m), Object(n)) => MemberReadingsFromSame(m, n);
    case _ =>
  }

  lemma ItemReadingsFromSame(x: seq<Value>, y: seq<Value>)
    requires Keyed(Array(x)) && Keyed(Array(y)) && Same(Array(x), Array(y))
    ensures SameReading(Array(x), Array(y))
    decreases x, 0
  {
    var p, q := Canonicalize(Array(x)).items, Canonicalize(Array(y)).items;
    forall i | 0 <= i < |x| ensures PlainItems(p)[i] == PlainItems(q)[i] {
      assert SameItem(x[i], y[i]);
      NullishReading(x[i]);
      NullishReading(y[i]);
      if !(Nullish(x[i]) && Nullish(y[i])) {
        ReadingFromSame(x[i], y[i]);
      }
    }
    assert PlainItems(p) == PlainItems(q);
  }

  lemma MemberReadingsFromSame(m: seq<Member>, n: seq<Member>)
    requires Keyed(Object(m)) && Keyed(Object(n)) && Same(Object(m), Object(n))
    ensures SameReading(Object(m), Object(n))
    decreases m, 0
  {
    CanonicalObject(m);
    CanonicalObject(n);
    SameEntryKeys(m, n);
    var sm, sn := SortByKey(DropUndefined(m)), SortByKey(DropUndefined(n));
    var p, q := Entries(m), Entries(n);
    forall k | 0 <= k < |p| ensures AlikeMembers(p[k], q[k]) {
      var i := DefinedOrigin(m, sm[k]);
      var l := DefinedOrigin(n, sn[k]);
      assert SameMember(m[i], n);
      var j :| 0 <= j < |n| && n[j].key == m[i].key && Same(m[i].value, n[j].value);
      assert j == l;
      ReadingFromSame(m[i].value, n[j].value);
    }
    AlikeOrdered(p, q);
    AlikeExactly(OwnKeyOrder(p), OwnKeyOrder(q));
  }

  lemma DefinedOrigin(ms: seq<Member>, x: Member) returns (i: int)
    requires x in SortByKey(DropUndefined(ms))
    ensures 0 <= i < |ms| && ms[i] == x && !x.value.Undefined?
  {
    assert x in DropUndefined(ms);
    i :| 0 <= i < |ms| && ms[i] == x;
  }

  lemma DefinedImage(ms: seq<Member>, i: int)
    requires 0 <= i < |ms| && !ms[i].value.Undefined?
    ensures Lists(SortByKey(DropUndefined(ms)), ms[i].key)
  {
    assert ms[i] in DropUndefined(ms);
    assert ms[i] in SortByKey(DropUndefined(ms));
  }

  lemma EntryKeyForward(m: seq<Member>, n: seq<Member>, x: Member)
    requires Same(Object(m), Object(n)) && x in SortByKey(DropUndefined(m))
    ensures Lists(SortByKey(DropUndefined(n)), x.key)
  {
    var i := DefinedOrigin(m, x);
    assert SameMember(m[i], n);
    var j :| 0 <= j < |n| && n[j].key == m[i].key && Same(m[i].value, n[j].value);
    DefinedImage(n, j);
  }

  lemma EntryKeyBackward(m: seq<Member>, n: seq<Member>, x: Member)
    requires Same(Object(m), Object(n)) && x in SortByKey(DropUndefined(n))
    ensures Lists(SortByKey(DropUndefined(m)), x.key)
  {
    var j := DefinedOrigin(n, x);
    assert Defines(m, n[j].key);
    var i :| 0 <= i < |m| && m[i].key == n[j].key && !m[i].value.Undefined?;
    DefinedImage(m, i);
  }

  lemma SameEntryKeys(m: seq<Member>, n: seq<Member>)
    requires UniqueKeys(m) && UniqueKeys(n) && Same(Object(m), Object(n))
    ensures |Entries(m)| == |Entries(n)|
    ensures forall k :: 0 <= k < |Entries(m)| ==> Entries(m)[k].key == Entries(n)[k].key
  {
    var sm, sn := SortByKey(DropUndefined(m)), SortByKey(DropUndefined(n));
    SortSorted(DropUndefined(m));
    SortSorted(DropUndefined(n));
    forall k | 0 <= k < |sm| ensures Lists(sn, sm[k].key) {
      EntryKeyForward(m, n, sm[k]);
    }
    forall l | 0 <= l < |sn| ensures Lists(sm, sn[l].key) {
      EntryKeyBackward(m, n, sn[l]);
    }
    SortedSameKeys(sm, sn);
  }

  /**
   Two values share a canonical text exactly when they are the same up to member order and
   undefined members.
   */
  lemma CanonicalTextInjective(a: Value, b: Value)
    requires WellFormed(a) && WellFormed(b) && !a.Undefined? && !b.Undefined?
    ensures CanonicalText(a) == CanonicalText(b) <==> Same(a, b)
  {
    CanonicalPrintable(a);
    CanonicalPrintable(b);
    PrintInjective(Canonicalize(a), Canonicalize(b));
    if SameReading(a, b) {
      SameFromReading(a, b);
    }
    if Same(a, b) {
      ReadingFromSame(a, b);
    }
  }

  // ----- Digests -----

  /** `stableDigest`, over any hash of texts. */
  function StableDigest(sha: Str -> Str, v: Value): (d: Str)
    requires !v.Undefined?
  {
    sha(CanonicalText(v).value)
  }

  /** Two different canonical texts with one hash. */
  predicate Collision(sha: Str -> Str, a: Value, b: Value)
    requires !a.Undefined? && !b.Undefined?
  {
    CanonicalText(a) != CanonicalText(b) && StableDigest(sha, a) == StableDigest(sha, b)
  }

  /** Equal digests mean equal content, unless they exhibit a collision of the hash. */
  lemma DigestSeparates(sha: Str -> Str, a: Value, b: Value)
    requires WellFormed(a) && WellFormed(b) && !a.Undefined? && !b.Undefined?
    ensures StableDigest(sha, a) == StableDigest(sha, b) <==> Same(a, b) || Collision(sha, a, b)
  {
    CanonicalTextInjective(a, b);
  }

  // ----- verifyPlanDigest -----

  const PLAN_DIGEST: Str := Lit("planDigest")
  const PLAN_ID: Str := Lit("planId")

  function WithoutKeys(ms: seq<Member>, keys: set<Str>): (r: seq<Member>)
    ensures forall m :: m in r <==> m in ms && m.key !in keys
  {
    if ms == [] then []
    else
      assert forall m :: m in ms <==> m == ms[0] || m in ms[1..];
      if ms[0].key in keys then WithoutKeys(ms[1..], keys) else [ms[0]] + WithoutKeys(ms[1..], keys)
  }

  lemma {:induction false} WithoutKeysUnique(ms: seq<Member>, keys: set<Str>)
    requires UniqueKeys(ms)
    ensures UniqueKeys(WithoutKeys(ms, keys))
  {
    if ms != [] {
      WithoutKeysUnique(ms[1..], keys);
      var rest := WithoutKeys(ms[1..], keys);
      forall j | 0 <= j < |rest| ensures rest[j].key != ms[0].key {
        assert rest[j] in ms[1..];
      }
    }
  }

  /** What `planDigest` is computed from: the plan without `planDigest` and `planId`. */
  function PlanContent(plan: seq<Member>): (r: Value)
    ensures !r.Undefined?
  {
    Object(WithoutKeys(plan, {PLAN_DIGEST, PLAN_ID}))
  }

  /** The plan carries a `planDigest` member that is the digest of its content. */
  predicate VerifyPlanDigest(sha: Str -> Str, plan: seq<Member>) {
    Claims(plan, PLAN_DIGEST, StableDigest(sha, PlanContent(plan)))
  }

  predicate Claims(ms: seq<Member>, key: Str, text: Str) {
    Member(key, Text(text)) in ms
  }

  /** A plan verifies by the hash of the canonical text of its other members. */
  lemma VerifyExactly(sha: Str -> Str, plan: seq<Member>)
    ensures PlanContent(plan).Object?
    ensures forall m :: m in PlanContent(plan).members
                   <==> m in plan && m.key != Lit("planDigest") && m.key != Lit("planId")
    ensures VerifyPlanDigest(sha, plan)
       <==> Member(Lit("planDigest"), Text(sha(Print(Canonicalize(PlanContent(plan)))))) in plan
  {
  }

  lemma PlanContentWellFormed(plan: seq<Member>)
    requires WellFormed(Object(plan))
    ensures WellFormed(PlanContent(plan))
  {
    var content := WithoutKeys(plan, {PLAN_DIGEST, PLAN_ID});
    WithoutKeysUnique(plan, {PLAN_DIGEST, PLAN_ID});
    forall i | 0 <= i < |content| ensures WellFormed(content[i].value) {
      assert content[i] in plan;
    }
  }

  lemma ClaimsOnce(ms: seq<Member>, key: Str, x: Str, y: Str)
    requires UniqueKeys(ms) && Claims(ms, key, x) && Claims(ms, key, y)
    ensures x == y
  {
    var i :| 0 <= i < |ms| && ms[i] == Member(key, Text(x));
    var j :| 0 <= j < |ms| && ms[j] == Member(key, Text(y));
    assert i == j;
  }

  /**
   A verified plan cannot be swapped for another under the same digest: whatever else verifies
   with that `planDigest` has the same content, or the hash collides on the two contents.
   */
  lemma PlanDigestBinds(sha: Str -> Str, plan: seq<Member>, other: seq<Member>, digest: Str)
    requires WellFormed(Object(plan)) && WellFormed(Object(other))
    requires VerifyPlanDigest(sha, plan) && Claims(plan, PLAN_DIGEST, digest)
    requires Claims(other, PLAN_DIGEST, digest)
    ensures VerifyPlanDigest(sha, other)
       <==> Same(PlanContent(plan), PlanContent(other)) || Collision(sha, PlanContent(plan), PlanContent(other))
  {
    var a, b := PlanContent(plan), PlanContent(other);
    PlanContentWellFormed(plan);
    PlanContentWellFormed(other);
    DigestSeparates(sha, a, b);
    ClaimsOnce(plan, PLAN_DIGEST, digest, StableDigest(sha, a));
    if VerifyPlanDigest(sha, other) {
      ClaimsOnce(other, PLAN_DIGEST, digest, StableDigest(sha, b));
    }
  }
}
