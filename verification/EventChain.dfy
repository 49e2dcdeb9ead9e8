/**
 The case event chain: envelopes, digests, the ledger verifier, and what a verified chain proves.
 `sha` is the hash of texts; results that need it to be collision free name the colliding pair instead.
 */
module EventChain {
  import opened CodeUnits
  import opened Prelude
  import opened Json
  import opened CanonicalJson

  datatype Event = Event(
    eventId: Str,
    tenantId: Str,
    caseId: Str,
    caseSequence: nat,
    eventType: Str,
    eventSchema: Str,
    occurredAt: Str,
    recordedAt: Str,
    actor: Value,
    commandRef: Str,
    authority: Value,
    payload: Value,
    evidenceRefs: seq<Str>,
    previousEventDigest: Option<Str>,
    eventDigest: Str)

  // ----- The envelope -----

  function Digits(n: nat): (r: Str)
    ensures r != []
  {
    if n < 10 then [48 + n] else Digits(n / 10) + [48 + n % 10]
  }

  lemma {:induction false} DigitsToken(n: nat)
    ensures IsNumberToken(Digits(n)) && forall i :: 0 <= i < |Digits(n)| ==> IsDigit(Digits(n)[i])
    ensures DecimalValue(Digits(n)) == n
  {
    if n < 10 {
      assert Digits(n)[..0] == [];
      assert DecimalValue([]) == 0;
    } else {
      DigitsToken(n / 10);
      assert Digits(n)[..|Digits(n)| - 1] == Digits(n / 10);
    }
  }

  lemma DigitsInjective(m: nat, n: nat)
    ensures Digits(m) == Digits(n) ==> m == n
  {
    DigitsToken(m);
    DigitsToken(n);
  }

  function TextsJson(texts: seq<Str>): (r: Value)
    ensures r.Array? && |r.items| == |texts| && forall i :: 0 <= i < |texts| ==> r.items[i] == Text(texts[i])
  {
    Array(seq(|texts|, i requires 0 <= i < |texts| => Text(texts[i])))
  }

  function OptionalText(text: Option<Str>): Value {
    match text case Some(t) => Text(t) case None => Null
  }

  /** The member names of an envelope, in the order the writer and the verifier list them. */
  const FIELDS: seq<Str> := [
    Lit("eventId"), Lit("tenantId"), Lit("caseId"), Lit("caseSequence"), Lit("eventType"), Lit("eventSchema"),
    Lit("occurredAt"), Lit("recordedAt"), Lit("actor"), Lit("commandRef"), Lit("authority"), Lit("payload"),
    Lit("evidenceRefs"), Lit("previousEventDigest")]

  function FieldValues(e: Event): (r: seq<Value>)
    ensures |r| == 14
  {
    [Text(e.eventId), Text(e.tenantId), Text(e.caseId), Number(Digits(e.caseSequence)), Text(e.eventType),
     Text(e.eventSchema),
     Text(e.occurredAt), Text(e.recordedAt), e.actor, Text(e.commandRef), e.authority, e.payload,
     TextsJson(e.evidenceRefs), OptionalText(e.previousEventDigest)]
  }

  function Zip(keys: seq<Str>, values: seq<Value>): (r: seq<Member>)
    requires |keys| == |values|
    ensures |r| == |keys| && forall i :: 0 <= i < |r| ==> r[i] == Member(keys[i], values[i])
  {
    seq(|keys|, i requires 0 <= i < |keys| => Member(keys[i], values[i]))
  }

  /** What is digested: every column of the event but its own digest. */
  function Envelope(e: Event): (r: Value)
    ensures !r.Undefined?
  {
    Object(Zip(FIELDS, FieldValues(e)))
  }

  /** A name's length and first unit tell the fourteen names apart. */
  function Fingerprint(s: Str): int
    requires s != []
  {
    1000 * |s| + s[0]
  }

  lemma FieldsDistinct()
    ensures forall i, j :: 0 <= i < j < |FIELDS| ==> FIELDS[i] != FIELDS[j]
  {
    var prints := [7101, 8116, 6099, 12099, 9101, 11101, 10111, 10114, 5097, 10099, 9097, 7112, 12101, 19112];
    assert forall i :: 0 <= i < |FIELDS| ==> FIELDS[i] != [] && Fingerprint(FIELDS[i]) == prints[i];
    assert forall i, j :: 0 <= i < j < |prints| ==> prints[i] != prints[j];
  }

  predicate EventWellFormed(e: Event) {
    WellFormed(e.actor) && WellFormed(e.authority) && WellFormed(e.payload)
  }

  lemma EnvelopeWellFormed(e: Event)
    requires EventWellFormed(e)
    ensures WellFormed(Envelope(e))
  {
    var ms := Zip(FIELDS, FieldValues(e));
    FieldsDistinct();
    DigitsToken(e.caseSequence);
    assert UniqueKeys(ms);
    forall i | 0 <= i < |ms| ensures WellFormed(ms[i].value) {
      assert ms[i].value == FieldValues(e)[i];
    }
  }

  // ----- Equal envelopes -----

  /** Equal columns, with the JSON columns equal up to member order and undefined members. */
  ghost predicate SameContent(a: Event, b: Event) {
    && a.eventId == b.eventId && a.tenantId == b.tenantId && a.caseId == b.caseId
    && a.caseSequence == b.caseSequence && a.eventType == b.eventType && a.eventSchema == b.eventSchema
    && a.occurredAt == b.occurredAt && a.recordedAt == b.recordedAt && a.commandRef == b.commandRef
    && a.evidenceRefs == b.evidenceRefs && a.previousEventDigest == b.previousEventDigest
    && SameJson(a.actor, b.actor) && SameJson(a.authority, b.authority) && SameJson(a.payload, b.payload)
  }

  ghost predicate SameJson(a: Value, b: Value) {
    Same(a, b)
  }

  predicate JsonDefined(e: Event) {
    !e.actor.Undefined? && !e.authority.Undefined? && !e.payload.Undefined?
  }

  lemma SameAligned(keys: seq<Str>, x: seq<Value>, y: seq<Value>, i: nat)
    requires |keys| == |x| == |y| && i < |keys| && !x[i].Undefined?
    requires forall i, j :: 0 <= i < j < |keys| ==> keys[i] != keys[j]
    requires Same(Object(Zip(keys, x)), Object(Zip(keys, y)))
    ensures Same(x[i], y[i])
  {
    var m, n := Zip(keys, x), Zip(keys, y);
    assert SameMember(m[i], n);
    var j :| 0 <= j < |n| && n[j].key == m[i].key && Same(m[i].value, n[j].value);
    assert i == j;
  }

  lemma AlignedSame(keys: seq<Str>, x: seq<Value>, y: seq<Value>)
    requires |keys| == |x| == |y|
    requires forall i :: 0 <= i < |x| ==> !x[i].Undefined? && Same(x[i], y[i])
    ensures Same(Object(Zip(keys, x)), Object(Zip(keys, y)))
  {
    var m, n := Zip(keys, x), Zip(keys, y);
    forall i | 0 <= i < |m| ensures SameMember(m[i], n) {
      assert n[i].key == m[i].key && Same(m[i].value, n[i].value);
    }
    forall j | 0 <= j < |n| ensures Defines(m, n[j].key) {
      assert m[j].key == n[j].key;
    }
  }

  lemma TextItemSame(a: Str, b: Str)
    ensures SameItem(Text(a), Text(b)) <==> a == b
  {
    assert Same(Text(a), Text(b)) <==> a == b;
  }

  lemma TextsSame(a: seq<Str>, b: seq<Str>)
    ensures Same(TextsJson(a), TextsJson(b)) <==> a == b
  {
    var x, y := TextsJson(a).items, TextsJson(b).items;
    if |a| == |b| {
      forall i | 0 <= i < |a| ensures SameItem(x[i], y[i]) <==> a[i] == b[i] {
        TextItemSame(a[i], b[i]);
      }
      assert (forall i :: 0 <= i < |a| ==> SameItem(x[i], y[i])) <==> a == b;
    }
  }

  lemma ContentFromEnvelopes(a: Event, b: Event)
    requires JsonDefined(a) && Same(Envelope(a), Envelope(b))
    ensures SameContent(a, b)
  {
    var x, y := FieldValues(a), FieldValues(b);
    FieldsDistinct();
    forall i | 0 <= i < 14 ensures Same(x[i], y[i]) {
      SameAligned(FIELDS, x, y, i);
    }
    DigitsInjective(a.caseSequence, b.caseSequence);
    TextsSame(a.evidenceRefs, b.evidenceRefs);
    FieldsDecide(a, b, x, y);
  }

  lemma FieldsDecide(a: Event, b: Event, x: seq<Value>, y: seq<Value>)
    requires x == FieldValues(a) && y == FieldValues(b)
    requires forall i :: 0 <= i < 14 ==> Same(x[i], y[i])
    requires Digits(a.caseSequence) == Digits(b.caseSequence) ==> a.caseSequence == b.caseSequence
    requires Same(TextsJson(a.evidenceRefs), TextsJson(b.evidenceRefs)) ==> a.evidenceRefs == b.evidenceRefs
    ensures SameContent(a, b)
  {
    assert Same(x[0], y[0]) && Same(x[1], y[1]) && Same(x[2], y[2]) && Same(x[3], y[3]) && Same(x[4], y[4]);
    assert Same(x[5], y[5]) && Same(x[6], y[6]) && Same(x[7], y[7]) && Same(x[8], y[8]) && Same(x[9], y[9]);
    assert Same(x[10], y[10]) && Same(x[11], y[11]) && Same(x[12], y[12]) && Same(x[13], y[13]);
  }

  lemma EnvelopesFromContent(a: Event, b: Event)
    requires JsonDefined(a) && SameContent(a, b)
    ensures Same(Envelope(a), Envelope(b))
  {
    var x, y := FieldValues(a), FieldValues(b);
    TextsSame(a.evidenceRefs, b.evidenceRefs);
    AlignedSame(FIELDS, x, y);
  }

  function EventDigest(sha: Str -> Str, e: Event): Str {
    StableDigest(sha, Envelope(e))
  }

  ghost predicate EventCollision(sha: Str -> Str, a: Event, b: Event) {
    Collision(sha, Envelope(a), Envelope(b))
  }

  /** Two events with one digest have the same content, or their envelopes collide. */
  lemma EventDigestSeparates(sha: Str -> Str, a: Event, b: Event)
    requires EventWellFormed(a) && EventWellFormed(b) && JsonDefined(a)
    ensures EventDigest(sha, a) == EventDigest(sha, b) <==> SameContent(a, b) || EventCollision(sha, a, b)
  {
    EnvelopeWellFormed(a);
    EnvelopeWellFormed(b);
    DigestSeparates(sha, Envelope(a), Envelope(b));
    if Same(Envelope(a), Envelope(b)) {
      ContentFromEnvelopes(a, b);
    }
    if SameContent(a, b) {
      EnvelopesFromContent(a, b);
    }
  }

  // ----- verifyCaseLedger -----

  type EventHash = Event -> Str

  /** The digest the writer computes and the verifier recomputes. */
  function Hashing(sha: Str -> Str): EventHash {
    (e: Event) => EventDigest(sha, e)
  }

  function DigestBefore(events: seq<Event>, i: nat): Option<Str>
    requires i <= |events|
  {
    if i == 0 then None else Some(events[i - 1].eventDigest)
  }

  /** Event `i` links to its predecessor and carries the digest of its own envelope. */
  predicate Linked(hash: EventHash, events: seq<Event>, i: nat)
    requires i < |events|
  {
    events[i].previousEventDigest == DigestBefore(events, i) && events[i].eventDigest == hash(events[i])
  }

  predicate LinkedUpTo(hash: EventHash, events: seq<Event>, n: nat)
    requires n <= |events|
  {
    forall i :: 0 <= i < n ==> Linked(hash, events, i)
  }

  predicate Chained(hash: EventHash, events: seq<Event>) {
    LinkedUpTo(hash, events, |events|)
  }

  function HeadDigest(events: seq<Event>): Option<Str> {
    DigestBefore(events, |events|)
  }

  datatype Verdict = Valid(checked: nat, headDigest: Option<Str>) | Invalid(checked: nat, failedSequence: nat)

  /** The sequence number belongs to the first event that is not linked. */
  ghost predicate FirstBroken(hash: EventHash, events: seq<Event>, sequence: nat) {
    exists i: nat :: i < |events| && LinkedUpTo(hash, events, i) && !Linked(hash, events, i)
      && sequence == events[i].caseSequence
  }

  method VerifyCaseLedger(hash: EventHash, events: seq<Event>) returns (verdict: Verdict)
    ensures verdict.checked == |events|
    ensures verdict.Valid? <==> Chained(hash, events)
    ensures verdict.Valid? ==> verdict.headDigest == HeadDigest(events)
    ensures verdict.Invalid? ==> FirstBroken(hash, events, verdict.failedSequence)
  {
    var previous: Option<Str> := None;
    for i := 0 to |events|
      invariant previous == DigestBefore(events, i)
      invariant LinkedUpTo(hash, events, i)
    {
      var event := events[i];
      if event.previousEventDigest != previous || event.eventDigest != hash(event) {
        assert !Linked(hash, events, i);
        return Invalid(|events|, event.caseSequence);
      }
      previous := Some(event.eventDigest);
    }
    return Valid(|events|, previous);
  }

  // ----- Tamper evidence -----

  ghost predicate SameEvent(a: Event, b: Event) {
    SameContent(a, b) && a.eventDigest == b.eventDigest
  }

  ghost predicate SameEvents(a: seq<Event>, b: seq<Event>) {
    |a| == |b| && forall i :: 0 <= i < |a| ==> SameEvent(a[i], b[i])
  }

  /** Events of the two lists with one hash and different content. */
  ghost predicate Clash(hash: EventHash, a: seq<Event>, b: seq<Event>, i: nat, j: nat) {
    i < |a| && j < |b| && hash(a[i]) == hash(b[j]) && !SameContent(a[i], b[j])
  }

  lemma LinkedFront(hash: EventHash, events: seq<Event>)
    requires events != [] && Chained(hash, events)
    ensures Chained(hash, events[..|events| - 1])
    ensures HeadDigest(events[..|events| - 1]) == events[|events| - 1].previousEventDigest
    ensures hash(events[|events| - 1]) == events[|events| - 1].eventDigest
  {
    var front := events[..|events| - 1];
    forall i | 0 <= i < |front| ensures Linked(hash, front, i) {
      assert Linked(hash, events, i);
    }
    assert Linked(hash, events, |events| - 1);
  }

  lemma {:induction false} ChainsAgree(hash: EventHash, a: seq<Event>, b: seq<Event>) returns (i: nat, j: nat)
    requires Chained(hash, a) && Chained(hash, b) && HeadDigest(a) == HeadDigest(b)
    ensures SameEvents(a, b) || Clash(hash, a, b, i, j)
    decreases |a|
  {
    i, j := 0, 0;
    if a != [] {
      var n, m := |a| - 1, |b| - 1;
      LinkedFront(hash, a);
      LinkedFront(hash, b);
      if !SameContent(a[n], b[m]) {
        i, j := n, m;
      } else {
        i, j := ChainsAgree(hash, a[..n], b[..m]);
        if SameEvents(a[..n], b[..m]) {
          SameEventsAppend(a, b);
        }
      }
    }
  }

  lemma SameEventsAppend(a: seq<Event>, b: seq<Event>)
    requires a != [] && b != []
    requires SameEvents(a[..|a| - 1], b[..|b| - 1]) && SameEvent(a[|a| - 1], b[|b| - 1])
    ensures SameEvents(a, b)
  {
    forall i | 0 <= i < |a| ensures SameEvent(a[i], b[i]) {
      if i < |a| - 1 {
        assert SameEvent(a[..|a| - 1][i], b[..|b| - 1][i]);
      }
    }
  }

  predicate AllWellFormed(events: seq<Event>) {
    forall i :: 0 <= i < |events| ==> EventWellFormed(events[i]) && JsonDefined(events[i])
  }

  ghost predicate SomeCollision(sha: Str -> Str, a: seq<Event>, b: seq<Event>) {
    exists i, j :: 0 <= i < |a| && 0 <= j < |b| && EventCollision(sha, a[i], b[j])
  }

  /**
   Two event lists that both verify with the same head digest are the same event by event, their
   length included, or two of their envelopes collide.
   */
  lemma TamperEvident(sha: Str -> Str, a: seq<Event>, b: seq<Event>)
    requires AllWellFormed(a) && AllWellFormed(b)
    requires Chained(Hashing(sha), a) && Chained(Hashing(sha), b) && HeadDigest(a) == HeadDigest(b)
    ensures SameEvents(a, b) || SomeCollision(sha, a, b)
  {
    var i, j := ChainsAgree(Hashing(sha), a, b);
    if Clash(Hashing(sha), a, b, i, j) {
      EventDigestSeparates(sha, a[i], b[j]);
      assert EventCollision(sha, a[i], b[j]);
    }
  }

  // ----- What is read back -----

  /**
   A stored row and what the query returns for it: the JSON columns come back as the same JSON, and
   the two timestamp columns re-rendered.
   */
  ghost predicate ReadsAs(render: Str -> Str, row: Event, read: Event) {
    && SameContent(row.(occurredAt := render(row.occurredAt), recordedAt := render(row.recordedAt)), read)
    && read.eventDigest == row.eventDigest
  }

  ghost predicate AllReadAs(render: Str -> Str, rows: seq<Event>, read: seq<Event>) {
    |rows| == |read| && forall i :: 0 <= i < |rows| ==> ReadsAs(render, rows[i], read[i])
  }

  lemma {:induction false} SameItself(v: Value)
    ensures Same(v, v)
    decreases v
  {
    match v
    case Array(items) =>
      forall i | 0 <= i < |items| ensures SameItem(items[i], items[i]) {
        SameItself(items[i]);
      }
    case Object(ms) =>
      forall i | 0 <= i < |ms| && !ms[i].value.Undefined? ensures SameMember(ms[i], ms) && Defines(ms, ms[i].key) {
        SameItself(ms[i].value);
      }
    case _ =>
  }

  /** The row itself, with its times re-rendered, is one way it may be read. */
  function Rendered(render: Str -> Str, row: Event): Event {
    row.(occurredAt := render(row.occurredAt), recordedAt := render(row.recordedAt))
  }

  lemma ReadBack(render: Str -> Str, rows: seq<Event>) returns (read: seq<Event>)
    ensures AllReadAs(render, rows, read) && (AllWellFormed(rows) ==> AllWellFormed(read))
  {
    read := seq(|rows|, i requires 0 <= i < |rows| => Rendered(render, rows[i]));
    forall i | 0 <= i < |rows| ensures ReadsAs(render, rows[i], read[i]) {
      SameItself(rows[i].actor);
      SameItself(rows[i].authority);
      SameItself(rows[i].payload);
    }
  }

  /** The row's timestamps are already in the form the store renders. */
  predicate TimesFixed(render: Str -> Str, row: Event) {
    render(row.occurredAt) == row.occurredAt && render(row.recordedAt) == row.recordedAt
  }

  lemma ReadDigest(sha: Str -> Str, render: Str -> Str, row: Event, read: Event)
    requires EventWellFormed(row) && EventWellFormed(read) && JsonDefined(row) && ReadsAs(render, row, read)
    ensures EventDigest(sha, read) == EventDigest(sha, row)
            <==> TimesFixed(render, row) || EventCollision(sha, row, read)
  {
    EventDigestSeparates(sha, row, read);
    if TimesFixed(render, row) {
      assert row.(occurredAt := render(row.occurredAt), recordedAt := render(row.recordedAt)) == row;
    }
  }

  /** The rows the query returns: the first thousand in sequence order. */
  const READ_LIMIT := 1000

  function FirstRows(rows: seq<Event>): (r: seq<Event>)
    ensures |r| <= READ_LIMIT
  {
    if |rows| <= READ_LIMIT then rows else rows[..READ_LIMIT]
  }

  lemma LinkAgrees(sha: Str -> Str, render: Str -> Str, rows: seq<Event>, read: seq<Event>, i: nat)
    requires Chained(Hashing(sha), rows) && AllWellFormed(rows) && AllWellFormed(read)
    requires AllReadAs(render, FirstRows(rows), read) && i < |read|
    ensures Linked(Hashing(sha), read, i) <==> TimesFixed(render, rows[i]) || EventCollision(sha, rows[i], read[i])
  {
    var first := FirstRows(rows);
    assert Linked(Hashing(sha), rows, i);
    assert first[i] == rows[i] && ReadsAs(render, first[i], read[i]);
    assert i > 0 ==> first[i - 1] == rows[i - 1] && ReadsAs(render, first[i - 1], read[i - 1]);
    assert read[i].previousEventDigest == rows[i].previousEventDigest == DigestBefore(read, i);
    ReadDigest(sha, render, rows[i], read[i]);
  }

  /**
   Exactly when the verifier accepts a chain as it was written: every timestamp it reads comes back as
   it was digested, collisions aside. The head it reports is that of the rows it reads.
   */
  lemma VerifierAgrees(sha: Str -> Str, render: Str -> Str, rows: seq<Event>, read: seq<Event>)
    requires Chained(Hashing(sha), rows) && AllWellFormed(rows) && AllWellFormed(read)
    requires AllReadAs(render, FirstRows(rows), read)
    ensures Chained(Hashing(sha), read) <==>
              forall i :: 0 <= i < |read| ==> TimesFixed(render, rows[i]) || EventCollision(sha, rows[i], read[i])
    ensures HeadDigest(read) == HeadDigest(FirstRows(rows))
  {
    forall i | 0 <= i < |read|
      ensures Linked(Hashing(sha), read, i) <==> TimesFixed(render, rows[i]) || EventCollision(sha, rows[i], read[i])
    {
      LinkAgrees(sha, render, rows, read, i);
    }
    if read != [] {
      assert ReadsAs(render, FirstRows(rows)[|read| - 1], read[|read| - 1]);
    }
  }
}
