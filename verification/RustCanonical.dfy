/** The Rust compiler's canonical form, and exactly when it equals the TypeScript one. */
module RustCanonical {
  import opened CodeUnits
  import opened Json
  import opened JsonParser
  import opened CanonicalJson
  import opened KeyOrder

  predicate PairedKeys(ms: seq<Member>) {
    forall i :: 0 <= i < |ms| ==> Paired(ms[i].key)
  }

  /** A value both languages have: no `undefined`, and keys a Rust `String` can hold. */
  predicate Shared(v: Value)
    decreases v
  {
    match v
    case Undefined => false
    case Array(items) => forall i :: 0 <= i < |items| ==> Shared(items[i])
    case Object(ms) => PairedKeys(ms) && forall i :: 0 <= i < |ms| ==> Shared(ms[i].value)
    case _ => true
  }

  // ----- canonical (main.rs) -----

  /** The position of a new key in a `BTreeMap`. */
  function InsertByBytes(m: Member, sorted: seq<Member>): (r: seq<Member>)
    requires Paired(m.key) && PairedKeys(sorted)
    ensures PairedKeys(r) && |r| == |sorted| + 1
    ensures forall x :: x in r <==> x == m || x in sorted
  {
    if sorted == [] then [m]
    else if !LexLess(KeyBytes(sorted[0].key), KeyBytes(m.key)) then [m] + sorted
    else
      assert forall x :: x in sorted <==> x == sorted[0] || x in sorted[1..];
      [sorted[0]] + InsertByBytes(m, sorted[1..])
  }

  function SortByBytes(ms: seq<Member>): (r: seq<Member>)
    requires PairedKeys(ms)
    ensures PairedKeys(r) && |r| == |ms|
    ensures forall x :: x in r <==> x in ms
  {
    if ms == [] then []
    else
      assert forall x :: x in ms <==> x == ms[0] || x in ms[1..];
      InsertByBytes(ms[0], SortByBytes(ms[1..]))
  }

  function RustCanonicalize(v: Value): (r: Value)
    requires Shared(v)
    decreases v
  {
    match v
    case Array(items) => Array(seq(|items|, i requires 0 <= i < |items| => RustCanonicalize(items[i])))
    case Object(ms) =>
      Object(SortByBytes(seq(|ms|, i requires 0 <= i < |ms| => Member(ms[i].key, RustCanonicalize(ms[i].value)))))
    case _ => v
  }

  // ----- One object -----

  predicate NoSwappedKeys(ms: seq<Member>)
    requires PairedKeys(ms)
  {
    forall i, j :: 0 <= i < |ms| && 0 <= j < |ms| ==> !SwappedKeys(ms[i].key, ms[j].key)
  }

  predicate SortedBytes(ms: seq<Member>)
    requires PairedKeys(ms)
  {
    forall i, j :: 0 <= i < j < |ms| ==> LexLess(KeyBytes(ms[i].key), KeyBytes(ms[j].key))
  }

  lemma BytesTotal(a: Str, b: Str)
    requires Paired(a) && Paired(b) && a != b
    ensures LexLess(KeyBytes(a), KeyBytes(b)) || LexLess(KeyBytes(b), KeyBytes(a))
  {
    KeyOrdersAgree(a, b);
    LexTotal(KeyBytes(a), KeyBytes(b));
  }

  lemma {:induction false} InsertSortedBytes(m: Member, sorted: seq<Member>)
    requires Paired(m.key) && PairedKeys(sorted) && SortedBytes(sorted)
    requires forall i :: 0 <= i < |sorted| ==> sorted[i].key != m.key
    ensures SortedBytes(InsertByBytes(m, sorted))
  {
    if sorted != [] {
      var bytes := KeyBytes(m.key);
      BytesTotal(m.key, sorted[0].key);
      if !LexLess(KeyBytes(sorted[0].key), bytes) {
        forall i | 0 < i < |sorted| ensures LexLess(bytes, KeyBytes(sorted[i].key)) {
          LexTransitive(bytes, KeyBytes(sorted[0].key), KeyBytes(sorted[i].key));
        }
      } else {
        InsertSortedBytes(m, sorted[1..]);
        var tail := InsertByBytes(m, sorted[1..]);
        forall j | 0 <= j < |tail| ensures LexLess(KeyBytes(sorted[0].key), KeyBytes(tail[j].key)) {
          assert tail[j] in tail;
          assert tail[j] == m || tail[j] in sorted[1..];
        }
      }
    }
  }

  lemma {:induction false} SortSortedBytes(ms: seq<Member>)
    requires PairedKeys(ms) && UniqueKeys(ms)
    ensures SortedBytes(SortByBytes(ms))
  {
    if ms != [] {
      var tail := SortByBytes(ms[1..]);
      SortSortedBytes(ms[1..]);
      forall i | 0 <= i < |tail| ensures tail[i].key != ms[0].key {
        assert tail[i] in ms[1..];
      }
      InsertSortedBytes(ms[0], tail);
    }
  }

  /** Sorting by bytes does nothing to a list that is sorted by bytes. */
  lemma {:induction false} SortSame(x: seq<Member>, y: seq<Member>)
    requires PairedKeys(x) && PairedKeys(y) && SortedBytes(x) && SortedBytes(y)
    requires forall m :: m in x <==> m in y
    ensures x == y
  {
    assert y != [] ==> y[0] in x;
    assert x != [] ==> x[0] in y;
    if x != [] {
      var j :| 0 <= j < |y| && y[j] == x[0];
      var k :| 0 <= k < |x| && x[k] == y[0];
      if j > 0 && k > 0 {
        LexAsymmetric(KeyBytes(y[0].key), KeyBytes(y[j].key));
      }
      assert x[0] == y[0];
      LexIrreflexive(KeyBytes(x[0].key));
      forall m ensures m in x[1..] <==> m in y[1..] {
        TailMembers(x, m);
        TailMembers(y, m);
      }
      SortSame(x[1..], y[1..]);
    }
  }

  lemma TailMembers(x: seq<Member>, m: Member)
    requires x != [] && PairedKeys(x) && SortedBytes(x)
    ensures m in x[1..] <==> m in x && m != x[0]
  {
    LexIrreflexive(KeyBytes(x[0].key));
  }

  /** The byte order and the unit order list the members alike exactly when no two keys are swapped. */
  lemma SortsAgree(ms: seq<Member>)
    requires PairedKeys(ms) && UniqueKeys(ms)
    ensures SortByBytes(ms) == SortByKey(ms) <==> NoSwappedKeys(ms)
  {
    var x, y := SortByBytes(ms), SortByKey(ms);
    SortSortedBytes(ms);
    SortSorted(ms);
    forall i | 0 <= i < |y| ensures Paired(y[i].key) {
      assert y[i] in ms;
    }
    if NoSwappedKeys(ms) {
      forall i, j | 0 <= i < j < |y| ensures LexLess(KeyBytes(y[i].key), KeyBytes(y[j].key)) {
        assert y[i] in ms && y[j] in ms;
        KeyOrdersAgree(y[i].key, y[j].key);
      }
      SortSame(x, y);
    }
    if x == y {
      forall i, j | 0 <= i < |ms| && 0 <= j < |ms| ensures !SwappedKeys(ms[i].key, ms[j].key) {
        assert ms[i] in x && ms[j] in x;
        var p :| 0 <= p < |x| && x[p] == ms[i];
        var q :| 0 <= q < |x| && x[q] == ms[j];
        NotSwapped(x, p, q);
      }
    }
  }

  lemma NotSwapped(x: seq<Member>, p: nat, q: nat)
    requires PairedKeys(x) && SortedBytes(x) && SortedKeys(x) && p < |x| && q < |x|
    ensures !SwappedKeys(x[p].key, x[q].key)
  {
    KeyOrdersAgree(x[p].key, x[q].key);
    if p < q {
      assert LexLess(x[p].key, x[q].key) && LexLess(KeyBytes(x[p].key), KeyBytes(x[q].key));
    } else if p == q {
      LexIrreflexive(x[p].key);
      LexIrreflexive(KeyBytes(x[p].key));
    } else {
      LexAsymmetric(x[q].key, x[p].key);
      LexAsymmetric(KeyBytes(x[q].key), KeyBytes(x[p].key));
    }
  }

  // ----- JavaScript's enumeration order -----

  /** Integer-like keys come first, by value, and the others after them, by code unit. */
  predicate EnumLess(a: Str, b: Str) {
    if IsIndexKey(a) then !IsIndexKey(b) || DecimalValue(a) < DecimalValue(b) else !IsIndexKey(b) && LexLess(a, b)
  }

  /** The two languages list the pair in one order. */
  predicate OrdersAlike(a: Str, b: Str)
    requires Paired(a) && Paired(b)
  {
    EnumLess(a, b) <==> LexLess(KeyBytes(a), KeyBytes(b))
  }

  predicate KeysAlike(ms: seq<Member>)
    requires PairedKeys(ms)
  {
    forall i, j :: 0 <= i < |ms| && 0 <= j < |ms| ==> OrdersAlike(ms[i].key, ms[j].key)
  }

  /** Between keys that are not integer-like, the pairs listed differently are the swapped ones. */
  lemma NamedAlike(a: Str, b: Str)
    requires Paired(a) && Paired(b) && !IsIndexKey(a) && !IsIndexKey(b)
    ensures OrdersAlike(a, b) <==> !SwappedKeys(a, b)
  {
    KeyOrdersAgree(a, b);
  }

  lemma EnumAsymmetric(a: Str, b: Str)
    ensures !EnumLess(a, a)
    ensures EnumLess(a, b) ==> !EnumLess(b, a)
  {
    LexIrreflexive(a);
    if LexLess(a, b) {
      LexAsymmetric(a, b);
    }
  }

  /** Decimal digits without a leading zero. */
  predicate IsDecimal(k: Str) {
    k != [] && (forall i :: 0 <= i < |k| ==> IsDigit(k[i])) && (|k| > 1 ==> k[0] != 48)
  }

  lemma {:induction false} DecimalSize(k: Str)
    requires IsDecimal(k)
    ensures |k| > 1 <==> DecimalValue(k) >= 10
    ensures k[0] != 48 ==> DecimalValue(k) >= 1
  {
    var front := k[..|k| - 1];
    if |k| == 1 {
      assert DecimalValue([]) == 0 && front == [];
    } else {
      DecimalSize(front);
    }
  }

  /** A number has one decimal form. */
  lemma {:induction false} DecimalInjective(a: Str, b: Str)
    requires IsDecimal(a) && IsDecimal(b) && DecimalValue(a) == DecimalValue(b)
    ensures a == b
    decreases |a|
  {
    var m, n := |a| - 1, |b| - 1;
    DecimalSize(a);
    DecimalSize(b);
    assert IsDigit(a[m]) && IsDigit(b[n]);
    assert a == a[..m] + [a[m]] && b == b[..n] + [b[n]];
    if |a| > 1 {
      DecimalInjective(a[..m], b[..n]);
    } else {
      assert a[..m] == [] == b[..n];
    }
  }

  predicate Enumerated(ms: seq<Member>) {
    forall i, j :: 0 <= i < j < |ms| ==> EnumLess(ms[i].key, ms[j].key)
  }

  lemma {:induction false} InsertEnumerated(m: Member, sorted: seq<Member>)
    requires IsIndexKey(m.key) && AllIndexKeys(sorted) && Enumerated(sorted)
    requires forall i :: 0 <= i < |sorted| ==> sorted[i].key != m.key
    ensures Enumerated(InsertByIndex(m, sorted))
  {
    if sorted != [] {
      if DecimalValue(m.key) == DecimalValue(sorted[0].key) {
        DecimalInjective(m.key, sorted[0].key);
      }
      if DecimalValue(m.key) > DecimalValue(sorted[0].key) {
        InsertEnumerated(m, sorted[1..]);
        var tail := InsertByIndex(m, sorted[1..]);
        forall j | 0 <= j < |tail| ensures EnumLess(sorted[0].key, tail[j].key) {
          InsertByIndexMembers(m, sorted[1..], tail[j]);
        }
      }
    }
  }

  lemma {:induction false} IndexEnumerated(ms: seq<Member>)
    requires AllIndexKeys(ms) && UniqueKeys(ms)
    ensures Enumerated(SortByIndex(ms))
  {
    if ms != [] {
      var tail := SortByIndex(ms[1..]);
      IndexEnumerated(ms[1..]);
      forall i | 0 <= i < |tail| ensures tail[i].key != ms[0].key {
        SortByIndexMembers(ms[1..], tail[i]);
      }
      InsertEnumerated(ms[0], tail);
    }
  }

  lemma {:induction false} NamedEnumerated(ms: seq<Member>)
    requires SortedKeys(ms)
    ensures forall x :: x in NamedMembers(ms) ==> x in ms && !IsIndexKey(x.key)
    ensures Enumerated(NamedMembers(ms))
  {
    if ms != [] {
      NamedEnumerated(ms[1..]);
      var rest := NamedMembers(ms[1..]);
      forall j | 0 <= j < |rest| ensures LexLess(ms[0].key, rest[j].key) {
        assert rest[j] in ms[1..];
      }
    }
  }

  lemma {:induction false} IndexUnique(ms: seq<Member>)
    requires UniqueKeys(ms)
    ensures UniqueKeys(IndexMembers(ms))
    ensures forall x :: x in IndexMembers(ms) ==> x in ms
  {
    if ms != [] {
      IndexUnique(ms[1..]);
      var rest := IndexMembers(ms[1..]);
      forall j | 0 <= j < |rest| ensures rest[j].key != ms[0].key {
        assert rest[j] in ms[1..];
      }
    }
  }

  lemma SortedUnique(ms: seq<Member>)
    requires SortedKeys(ms)
    ensures UniqueKeys(ms)
  {
    forall i, j | 0 <= i < j < |ms| ensures ms[i].key != ms[j].key {
      LexIrreflexive(ms[i].key);
    }
  }

  /** An object built from sorted members enumerates them in `EnumLess` order. */
  lemma OwnKeyOrderEnumerated(ms: seq<Member>)
    requires SortedKeys(ms)
    ensures Enumerated(OwnKeyOrder(ms))
  {
    var first, second := SortByIndex(IndexMembers(ms)), NamedMembers(ms);
    SortedUnique(ms);
    IndexUnique(ms);
    IndexEnumerated(IndexMembers(ms));
    NamedEnumerated(ms);
    forall i, j | 0 <= i < |first| && 0 <= j < |second| ensures EnumLess(first[i].key, second[j].key) {
      assert second[j] in second;
    }
  }

  /** The two languages list the members of one object alike exactly when they agree on every two keys. */
  lemma ListingsAgree(ms: seq<Member>)
    requires PairedKeys(ms) && UniqueKeys(ms)
    ensures SortByBytes(ms) == OwnKeyOrder(SortByKey(ms)) <==> KeysAlike(ms)
  {
    var x, y := SortByBytes(ms), OwnKeyOrder(SortByKey(ms));
    SortSortedBytes(ms);
    SortSorted(ms);
    OwnKeyOrderEnumerated(SortByKey(ms));
    forall m ensures m in y <==> m in ms {
      OwnKeyOrderMembers(SortByKey(ms), m);
    }
    if KeysAlike(ms) {
      AlikeSortedBytes(ms, y);
      SortSame(x, y);
    }
    if x == y {
      forall i, j | 0 <= i < |ms| && 0 <= j < |ms| ensures OrdersAlike(ms[i].key, ms[j].key) {
        assert ms[i] in x && ms[j] in x;
        var p :| 0 <= p < |x| && x[p] == ms[i];
        var q :| 0 <= q < |x| && x[q] == ms[j];
        ListedAlike(x, p, q);
      }
    }
  }

  lemma AlikeSortedBytes(ms: seq<Member>, y: seq<Member>)
    requires PairedKeys(ms) && KeysAlike(ms) && Enumerated(y) && forall m :: m in y ==> m in ms
    ensures PairedKeys(y) && SortedBytes(y)
  {
    forall i | 0 <= i < |y| ensures Paired(y[i].key) {
      assert y[i] in ms;
    }
    forall i, j | 0 <= i < j < |y| ensures LexLess(KeyBytes(y[i].key), KeyBytes(y[j].key)) {
      assert y[i] in ms && y[j] in ms;
      assert OrdersAlike(y[i].key, y[j].key);
    }
  }

  lemma ListedAlike(x: seq<Member>, p: nat, q: nat)
    requires PairedKeys(x) && SortedBytes(x) && Enumerated(x) && p < |x| && q < |x|
    ensures OrdersAlike(x[p].key, x[q].key)
  {
    if p == q {
      EnumAsymmetric(x[p].key, x[p].key);
      LexIrreflexive(KeyBytes(x[p].key));
    } else if q < p {
      EnumAsymmetric(x[q].key, x[p].key);
      LexAsymmetric(KeyBytes(x[q].key), KeyBytes(x[p].key));
    }
  }

  // ----- Whole values -----

  /** No object holds two keys that the two languages list differently. */
  predicate AlikeAnywhere(v: Value)
    requires Shared(v)
    decreases v
  {
    match v
    case Array(items) => forall i :: 0 <= i < |items| ==> AlikeAnywhere(items[i])
    case Object(ms) => KeysAlike(ms) && forall i :: 0 <= i < |ms| ==> AlikeAnywhere(ms[i].value)
    case _ => true
  }

  /** Two forms of the members of one object: same keys, values paired by index. */
  function Mapped(ms: seq<Member>, values: seq<Value>): (r: seq<Member>)
    requires |ms| == |values|
    ensures |r| == |ms|
    ensures forall i :: 0 <= i < |r| ==> r[i] == Member(ms[i].key, values[i])
  {
    seq(|ms|, i requires 0 <= i < |ms| => Member(ms[i].key, values[i]))
  }

  function TsValues(ms: seq<Member>): (r: seq<Value>)
    ensures |r| == |ms| && forall i :: 0 <= i < |r| ==> r[i] == Canonicalize(ms[i].value)
  {
    seq(|ms|, i requires 0 <= i < |ms| => Canonicalize(ms[i].value))
  }

  // ----- Numbers -----

  /** JavaScript's own token for a number token it reads: `1.0` reads as `1`. */
  type Reading = Str -> Str

  /** The value JavaScript has after reading the compiler's text. */
  function ReadNumbers(js: Reading, v: Value): (r: Value)
    decreases v
  {
    match v
    case Number(t) => Number(js(t))
    case Array(items) => Array(seq(|items|, i requires 0 <= i < |items| => ReadNumbers(js, items[i])))
    case Object(ms) => Object(seq(|ms|, i requires 0 <= i < |ms| => Member(ms[i].key, ReadNumbers(js, ms[i].value))))
    case _ => v
  }

  /** Every number is written as JavaScript writes it. */
  predicate NumbersKept(js: Reading, v: Value)
    decreases v
  {
    match v
    case Number(t) => js(t) == t
    case Array(items) => forall i :: 0 <= i < |items| ==> NumbersKept(js, items[i])
    case Object(ms) => forall i :: 0 <= i < |ms| ==> NumbersKept(js, ms[i].value)
    case _ => true
  }

  lemma {:induction false} ReadKeyed(js: Reading, v: Value)
    requires Shared(v) && Keyed(v)
    ensures Shared(ReadNumbers(js, v)) && Keyed(ReadNumbers(js, v))
    decreases v
  {
    match v
    case Array(items) =>
      forall i | 0 <= i < |items| ensures Shared(ReadNumbers(js, items[i])) && Keyed(ReadNumbers(js, items[i])) {
        ReadKeyed(js, items[i]);
      }
    case Object(ms) =>
      forall i | 0 <= i < |ms| ensures Shared(ReadNumbers(js, ms[i].value)) && Keyed(ReadNumbers(js, ms[i].value)) {
        ReadKeyed(js, ms[i].value);
      }
    case _ =>
  }

  function RustValues(ms: seq<Member>): (r: seq<Value>)
    requires Shared(Object(ms))
    ensures |r| == |ms| && forall i :: 0 <= i < |r| ==> r[i] == RustCanonicalize(ms[i].value)
  {
    seq(|ms|, i requires 0 <= i < |ms| => RustCanonicalize(ms[i].value))
  }

  lemma RustObject(ms: seq<Member>)
    requires Shared(Object(ms))
    ensures RustCanonicalize(Object(ms)) == Object(SortByBytes(Mapped(ms, RustValues(ms))))
  {
    assert Mapped(ms, RustValues(ms))
        == seq(|ms|, i requires 0 <= i < |ms| => Member(ms[i].key, RustCanonicalize(ms[i].value)));
  }

  lemma {:induction false} DropNothing(ms: seq<Member>)
    requires AllDefined(ms)
    ensures DropUndefined(ms) == ms
  {
    if ms != [] {
      DropNothing(ms[1..]);
    }
  }

  lemma {:induction false} InsertMapped(m: Member, ms: seq<Member>, f: Member -> Member)
    requires forall x :: f(x).key == x.key
    ensures Each(InsertByKey(m, ms), f) == InsertByKey(f(m), Each(ms, f))
  {
    if ms != [] {
      InsertMapped(m, ms[1..], f);
      assert Each(ms, f)[1..] == Each(ms[1..], f);
      var rest := InsertByKey(m, ms[1..]);
      assert Each([ms[0]] + rest, f) == [f(ms[0])] + Each(rest, f);
      assert Each([m] + ms, f) == [f(m)] + Each(ms, f);
    }
  }

  lemma {:induction false} SortMapped(ms: seq<Member>, f: Member -> Member)
    requires forall x :: f(x).key == x.key
    ensures Each(SortByKey(ms), f) == SortByKey(Each(ms, f))
  {
    if ms != [] {
      SortMapped(ms[1..], f);
      InsertMapped(ms[0], SortByKey(ms[1..]), f);
      assert Each(ms, f)[1..] == Each(ms[1..], f);
    }
  }

  function Each(ms: seq<Member>, f: Member -> Member): (r: seq<Member>)
    ensures |r| == |ms| && forall i :: 0 <= i < |r| ==> r[i] == f(ms[i])
  {
    seq(|ms|, i requires 0 <= i < |ms| => f(ms[i]))
  }

  function CanonicalMember(m: Member): (r: Member)
    ensures r.key == m.key && r.value == Canonicalize(m.value)
  {
    Member(m.key, Canonicalize(m.value))
  }

  lemma SortedEntries(ms: seq<Member>)
    requires AllDefined(ms)
    ensures Entries(ms) == SortByKey(Mapped(ms, TsValues(ms)))
  {
    var f := (m: Member) => CanonicalMember(m);
    DropNothing(ms);
    assert Entries(ms) == Each(SortByKey(ms), f);
    SortMapped(ms, f);
    assert Each(ms, f) == Mapped(ms, TsValues(ms));
  }

  lemma TsObject(ms: seq<Member>)
    requires AllDefined(ms)
    ensures Canonicalize(Object(ms)) == Object(OwnKeyOrder(SortByKey(Mapped(ms, TsValues(ms)))))
  {
    CanonicalObject(ms);
    SortedEntries(ms);
  }

  /** The value of each member as JavaScript reads it. */
  function ReadMembers(js: Reading, ms: seq<Member>): (r: seq<Member>)
    ensures Object(r) == ReadNumbers(js, Object(ms)) && |r| == |ms|
    ensures forall i :: 0 <= i < |r| ==> r[i] == Member(ms[i].key, ReadNumbers(js, ms[i].value))
  {
    seq(|ms|, i requires 0 <= i < |ms| => Member(ms[i].key, ReadNumbers(js, ms[i].value)))
  }

  predicate Alike(js: Reading, v: Value)
    requires Shared(v)
  {
    AlikeAnywhere(v) && NumbersKept(js, v)
  }

  /**
   For every value the compiler emits: its canonical form equals the TypeScript form of what JavaScript reads
   exactly when, in each of its objects, every two keys enumerate as their bytes sort, and every number is
   written as JavaScript writes it.
   */
  lemma {:induction false} FormsAgree(js: Reading, v: Value)
    requires Shared(v) && Keyed(v)
    ensures RustCanonicalize(v) == Canonicalize(ReadNumbers(js, v)) <==> AlikeAnywhere(v) && NumbersKept(js, v)
    decreases v, 1
  {
    match v
    case Array(items) =>
      forall i | 0 <= i < |items|
        ensures RustCanonicalize(items[i]) == Canonicalize(ReadNumbers(js, items[i])) <==> Alike(js, items[i])
      {
        FormsAgree(js, items[i]);
      }
      var r, t := RustCanonicalize(v).items, Canonicalize(ReadNumbers(js, v)).items;
      assert forall i :: 0 <= i < |items| ==> t[i] == Canonicalize(ReadNumbers(js, items[i]));
      if r == t {
        forall i | 0 <= i < |items| ensures Alike(js, items[i]) {
          assert r[i] == t[i];
        }
      }
    case Object(ms) => ObjectFormsAgree(js, ms);
    case _ =>
  }

  lemma ObjectFormsAgree(js: Reading, ms: seq<Member>)
    requires Shared(Object(ms)) && Keyed(Object(ms))
    ensures RustCanonicalize(Object(ms)) == Canonicalize(ReadNumbers(js, Object(ms))) <==> Alike(js, Object(ms))
    decreases ms, 0
  {
    var read := ReadMembers(js, ms);
    var rust, ts := RustValues(ms), TsValues(read);
    forall i | 0 <= i < |ms| ensures rust[i] == ts[i] <==> Alike(js, ms[i].value) {
      FormsAgree(js, ms[i].value);
    }
    ReadKeyed(js, Object(ms));
    forall i | 0 <= i < |ms| ensures !read[i].value.Undefined? {
      assert Shared(read[i].value);
    }
    RustObject(ms);
    TsObject(read);
    assert Mapped(read, ts) == Mapped(ms, ts);
    SortedFormsAgree(ms, rust, ts);
    ValuesAlike(js, ms, rust, ts);
  }

  lemma ValuesAlike(js: Reading, ms: seq<Member>, rust: seq<Value>, ts: seq<Value>)
    requires Shared(Object(ms)) && |rust| == |ts| == |ms|
    requires forall i :: 0 <= i < |ms| ==> (rust[i] == ts[i] <==> Alike(js, ms[i].value))
    ensures rust == ts && KeysAlike(ms) <==> Alike(js, Object(ms))
  {
    if Alike(js, Object(ms)) {
      forall i | 0 <= i < |ms| ensures rust[i] == ts[i] {
        assert Alike(js, ms[i].value);
      }
    }
    if rust == ts {
      forall i | 0 <= i < |ms| ensures Alike(js, ms[i].value) {
        assert rust[i] == ts[i];
      }
    }
  }

  lemma SortedFormsAgree(ms: seq<Member>, rust: seq<Value>, ts: seq<Value>)
    requires PairedKeys(ms) && UniqueKeys(ms) && |rust| == |ts| == |ms|
    ensures SortByBytes(Mapped(ms, rust)) == OwnKeyOrder(SortByKey(Mapped(ms, ts))) <==> rust == ts && KeysAlike(ms)
  {
    var r, t := Mapped(ms, rust), Mapped(ms, ts);
    if SortByBytes(r) == OwnKeyOrder(SortByKey(t)) {
      forall i | 0 <= i < |ms| ensures rust[i] == ts[i] {
        assert r[i] in SortByBytes(r);
        OwnKeyOrderMembers(SortByKey(t), r[i]);
        var j :| 0 <= j < |t| && t[j] == r[i];
        assert ms[i].key == ms[j].key;
      }
    }
    if rust == ts {
      ListingsAgree(r);
      SameKeysAlike(ms, r);
    }
  }

  lemma SameKeysAlike(x: seq<Member>, y: seq<Member>)
    requires PairedKeys(x) && |x| == |y| && forall i :: 0 <= i < |x| ==> x[i].key == y[i].key
    ensures PairedKeys(y) && (KeysAlike(x) <==> KeysAlike(y))
  {
    if KeysAlike(x) {
      forall i, j | 0 <= i < |y| && 0 <= j < |y| ensures OrdersAlike(y[i].key, y[j].key) {
        assert OrdersAlike(x[i].key, x[j].key);
      }
    }
    if KeysAlike(y) {
      forall i, j | 0 <= i < |x| && 0 <= j < |x| ensures OrdersAlike(x[i].key, x[j].key) {
        assert OrdersAlike(y[i].key, y[j].key);
      }
    }
  }

  // ----- Texts -----

  /** A value without `undefined` prints as it is. */
  lemma {:induction false} SharedPlain(v: Value)
    requires Shared(v)
    ensures Plain(v) == v
    decreases v
  {
    match v
    case Array(items) =>
      forall i | 0 <= i < |items| ensures Plain(items[i]) == items[i] {
        SharedPlain(items[i]);
      }
    case Object(ms) =>
      forall i | 0 <= i < |ms| ensures Plain(ms[i].value) == ms[i].value && !ms[i].value.Undefined? {
        SharedPlain(ms[i].value);
      }
      PlainMembersAt(ms);
    case _ =>
  }

  lemma {:induction false} RustFormPrints(v: Value)
    requires Shared(v) && Printable(v)
    ensures Shared(RustCanonicalize(v)) && Printable(RustCanonicalize(v))
    decreases v
  {
    match v
    case Array(items) =>
      forall i | 0 <= i < |items| ensures Shared(RustCanonicalize(items[i])) && Printable(RustCanonicalize(items[i])) {
        RustFormPrints(items[i]);
      }
    case Object(ms) =>
      RustObject(ms);
      var sorted := RustCanonicalize(v).members;
      forall k | 0 <= k < |sorted| ensures Shared(sorted[k].value) && Printable(sorted[k].value) {
        assert sorted[k] in sorted;
        var i :| 0 <= i < |ms| && sorted[k] == Member(ms[i].key, RustCanonicalize(ms[i].value));
        RustFormPrints(ms[i].value);
      }
    case _ =>
  }

  lemma {:induction false} TsFormShared(v: Value)
    requires Shared(v)
    ensures Shared(Canonicalize(v))
    decreases v
  {
    match v
    case Array(items) =>
      forall i | 0 <= i < |items| ensures Shared(Canonicalize(items[i])) {
        TsFormShared(items[i]);
      }
    case Object(ms) =>
      var listed := Canonicalize(v).members;
      forall k | 0 <= k < |listed| ensures Shared(listed[k].value) && Paired(listed[k].key) {
        var i := ListedMember(ms, k);
        TsFormShared(ms[i].value);
      }
    case _ =>
  }

  lemma ListedMember(ms: seq<Member>, k: nat) returns (i: nat)
    requires Shared(Object(ms)) && k < |Canonicalize(Object(ms)).members|
    ensures i < |ms| && Canonicalize(Object(ms)).members[k] == Member(ms[i].key, Canonicalize(ms[i].value))
  {
    forall i | 0 <= i < |ms| ensures !ms[i].value.Undefined? {
      assert Shared(ms[i].value);
    }
    TsObject(ms);
    i := ListedAt(Mapped(ms, TsValues(ms)), k);
  }

  lemma ListedAt(ms: seq<Member>, k: nat) returns (i: nat)
    requires k < |OwnKeyOrder(SortByKey(ms))|
    ensures i < |ms| && OwnKeyOrder(SortByKey(ms))[k] == ms[i]
  {
    var m := OwnKeyOrder(SortByKey(ms))[k];
    OwnKeyOrderMembers(SortByKey(ms), m);
    i :| 0 <= i < |ms| && ms[i] == m;
  }

  /** The two texts that are hashed are equal under the same exact condition. */
  lemma TextsAgree(js: Reading, v: Value)
    requires Shared(v) && Keyed(v) && Printable(v) && Printable(ReadNumbers(js, v))
    ensures Print(RustCanonicalize(v)) == Print(Canonicalize(ReadNumbers(js, v)))
       <==> AlikeAnywhere(v) && NumbersKept(js, v)
  {
    var w := ReadNumbers(js, v);
    ReadKeyed(js, v);
    RustFormPrints(v);
    TsFormShared(w);
    CanonicalPrintable(w);
    SharedPlain(RustCanonicalize(v));
    SharedPlain(Canonicalize(w));
    PrintInjective(RustCanonicalize(v), Canonicalize(w));
    FormsAgree(js, v);
  }

  /** The tokens `1.0` and `1`. */
  const ONE_POINT_ZERO: Str := [49, 46, 48]
  const ONE: Str := [49]

  /** A float that is a whole number is enough for two texts of one plan. */
  lemma WholeFloatDisagrees(js: Reading)
    requires js(ONE_POINT_ZERO) == ONE
    ensures Print(RustCanonicalize(Number(ONE_POINT_ZERO)))
         != Print(Canonicalize(ReadNumbers(js, Number(ONE_POINT_ZERO))))
  {
    TextsAgree(js, Number(ONE_POINT_ZERO));
  }

  // ----- Integer-like keys -----

  /** The keys "9" and "10". */
  const NINE: Str := [57]
  const TEN: Str := [49, 48]

  /** A value both languages have, of two members, the integer-like keys "9" and "10". */
  const INDEX_KEYED: Value := Object([Member(NINE, Null), Member(TEN, Null)])

  lemma NineTenValues()
    ensures IsIndexKey(NINE) && DecimalValue(NINE) == 9
    ensures IsIndexKey(TEN) && DecimalValue(TEN) == 10
  {
    assert NINE[..0] == [] && TEN[..1] == [49] && TEN[..1][..0] == [];
    assert DecimalValue(TEN[..1]) == 1;
  }

  lemma NineTenPoints()
    ensures Paired(NINE) && CodePoints(NINE) == NINE
    ensures Paired(TEN) && CodePoints(TEN) == TEN
    ensures KeyBytes(NINE)[0] == 57 && KeyBytes(TEN)[0] == 49
  {
    assert NINE[1..] == [] && TEN[1..] == [48] && TEN[1..][1..] == [];
    assert Paired(TEN[1..]) && CodePoints(TEN[1..]) == [48];
  }

  lemma IndexKeysUnswapped()
    ensures Shared(INDEX_KEYED) && NoSwappedKeys(INDEX_KEYED.members)
  {
    var ms := INDEX_KEYED.members;
    NineTenPoints();
    forall i, j | 0 <= i < |ms| && 0 <= j < |ms| ensures !SwappedKeys(ms[i].key, ms[j].key) {
      BmpNeverSwapped(CodePoints(ms[i].key), CodePoints(ms[j].key));
    }
  }

  lemma NineTenUnlike()
    ensures Paired(NINE) && Paired(TEN) && !OrdersAlike(NINE, TEN)
  {
    NineTenPoints();
    NineTenValues();
    assert LexLess(KeyBytes(TEN), KeyBytes(NINE));
    LexAsymmetric(KeyBytes(TEN), KeyBytes(NINE));
  }

  lemma {:induction false} ReadAsIs(v: Value)
    ensures ReadNumbers(t => t, v) == v
    decreases v
  {
    match v
    case Array(items) =>
      forall i | 0 <= i < |items| ensures ReadNumbers(t => t, items[i]) == items[i] {
        ReadAsIs(items[i]);
      }
    case Object(ms) =>
      forall i | 0 <= i < |ms| ensures ReadNumbers(t => t, ms[i].value) == ms[i].value {
        ReadAsIs(ms[i].value);
      }
    case _ =>
  }

  /** No keys are swapped, and yet the forms differ: only TypeScript lists 9 before 10. */
  lemma IndexKeysDisagree()
    ensures Shared(INDEX_KEYED) && NoSwappedKeys(INDEX_KEYED.members)
    ensures RustCanonicalize(INDEX_KEYED) != Canonicalize(INDEX_KEYED)
  {
    IndexKeysUnswapped();
    NineTenUnlike();
    var ms := INDEX_KEYED.members;
    assert !OrdersAlike(ms[0].key, ms[1].key);
    FormsAgree(t => t, INDEX_KEYED);
    ReadAsIs(INDEX_KEYED);
  }
}
