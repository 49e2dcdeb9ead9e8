/**
 The outbox against the event table, over any run of the case store and the relay: every event is announced
 by one row that carries its digest until the relay has published it and the purge has removed the row.
 The event ids are therefore those in the outbox and those purged from it.
 */
module CaseOutbox {
  import opened CodeUnits
  import opened EventChain
  import opened CaseLedger
  import opened CaseChain

  /** The event of that id, where the row says it is. */
  predicate EventAt(db: Database, key: CaseKey, sequence: nat, eventId: Str) {
    key in db.cases && sequence in db.cases[key].events && db.cases[key].events[sequence].eventId == eventId
  }

  predicate Announces(db: Database, eventId: Str, row: Announcement) {
    && EventAt(db, row.key, row.sequence, eventId)
    && db.cases[row.key].events[row.sequence].eventDigest == row.digest
  }

  ghost predicate HasEvent(db: Database, eventId: Str) {
    exists key, sequence :: EventAt(db, key, sequence, eventId)
  }

  /** Every outbox row announces an event; the recorded ids are those of the events, each of one event. */
  ghost predicate OutboxInv(db: Database) {
    && (forall id :: id in db.outbox ==> Announces(db, id, db.outbox[id]))
    && (forall id :: id in db.eventIds ==> HasEvent(db, id))
    && OnePlace(db) && AllRecorded(db)
  }

  ghost predicate OnePlace(db: Database) {
    forall p, m, q, n, id :: EventAt(db, p, m, id) && EventAt(db, q, n, id) ==> p == q && m == n
  }

  ghost predicate AllRecorded(db: Database) {
    forall key, k, id :: EventAt(db, key, k, id) ==> id in db.eventIds
  }

  function EventsOf(db: Database, key: CaseKey): map<nat, Event> {
    if key in db.cases then db.cases[key].events else map[]
  }

  function PlaceOf(e: Event): CaseKey {
    CaseKey(e.tenantId, e.caseId)
  }

  /** The step writes event `e` and its outbox row, and no other event. */
  ghost predicate Writes(db: Database, after: Database, e: Event) {
    && e.eventId !in db.eventIds && e.caseSequence !in EventsOf(db, PlaceOf(e))
    && after.eventIds == db.eventIds + {e.eventId} && after.outbox == Announced(db.outbox, e)
    && after.cases.Keys == db.cases.Keys + {PlaceOf(e)}
    && (forall key :: key in db.cases && key != PlaceOf(e) ==> after.cases[key] == db.cases[key])
    && after.cases[PlaceOf(e)].events == EventsOf(db, PlaceOf(e))[e.caseSequence := e]
  }

  /** The step leaves the event table alone. */
  predicate Silent(h: Hashes, config: Config, db: Database, op: Op) {
    !((op.CreateCase? || op.SubmitCommand?) && ReplyTo(h, config, db, op).Accepted?)
  }

  lemma CommitWrites(h: Hashes, config: Config, db: Database, op: Op, key: CaseKey) returns (e: Event)
    requires EnvelopeOnly(h.event) && key in db.cases && Commits(h, config, db, op, key) && Numbered(db.cases[key])
    ensures Writes(db, Step(h, config, db, op), e)
  {
    e := CommitAppends(h, config, db, op, key);
    OneCaseWrites(db, Step(h, config, db, op), key, e);
  }

  lemma OneCaseWrites(db: Database, after: Database, key: CaseKey, e: Event)
    requires key in db.cases && key in after.cases && after.cases == db.cases[key := after.cases[key]]
    requires Numbered(db.cases[key]) && Appends(db.cases[key], after.cases[key], e)
             && Placed(key, e, db.cases[key].sequence + 1)
    requires e.eventId !in db.eventIds && after.eventIds == db.eventIds + {e.eventId}
             && after.outbox == Announced(db.outbox, e)
    ensures Writes(db, after, e)
  {
    assert PlaceOf(e) == key;
  }

  lemma CreationWrites(h: Hashes, config: Config, db: Database, op: Op) returns (e: Event)
    requires op.CreateCase? && ReplyTo(h, config, db, op).Accepted?
    ensures Writes(db, Step(h, config, db, op), e)
  {
    var key := CaseKey(op.creation.tenantId, h.caseId(op.creation.tenantId, op.idempotencyKey));
    e := NewEvent(h, CreatedInput(h, op.creation, key, op.idempotencyKey, op.env), op.env);
  }

  lemma WrittenEvents(db: Database, after: Database, e: Event, key: CaseKey, k: nat, id: Str)
    requires Writes(db, after, e)
    ensures EventAt(after, key, k, id)
            <==> EventAt(db, key, k, id) || (key == PlaceOf(e) && k == e.caseSequence && id == e.eventId)
    ensures EventAt(db, key, k, id) ==> after.cases[key].events[k] == db.cases[key].events[k]
  {
  }

  lemma WritesKeepPlaces(db: Database, after: Database, e: Event)
    requires OnePlace(db) && AllRecorded(db) && Writes(db, after, e)
    ensures OnePlace(after) && AllRecorded(after)
  {
    forall p, m, q, n, id | EventAt(after, p, m, id) && EventAt(after, q, n, id) ensures p == q && m == n {
      WrittenEvents(db, after, e, p, m, id);
      WrittenEvents(db, after, e, q, n, id);
    }
    forall key, k, id | EventAt(after, key, k, id) ensures id in after.eventIds {
      WrittenEvents(db, after, e, key, k, id);
    }
  }

  lemma WritesKeep(db: Database, after: Database, e: Event)
    requires OutboxInv(db) && Writes(db, after, e)
    ensures OutboxInv(after)
  {
    WritesKeepPlaces(db, after, e);
    forall id | id in after.outbox ensures Announces(after, id, after.outbox[id]) {
      var row := after.outbox[id];
      assert id != e.eventId ==> Announces(db, id, db.outbox[id]);
      WrittenEvents(db, after, e, row.key, row.sequence, id);
    }
    forall id | id in after.eventIds ensures HasEvent(after, id) {
      if id == e.eventId {
        WrittenEvents(db, after, e, PlaceOf(e), e.caseSequence, id);
      } else {
        var key, k :| EventAt(db, key, k, id);
        WrittenEvents(db, after, e, key, k, id);
      }
    }
  }

  /** The event table stays, and rows are only marked or removed. */
  predicate OnlyRelayed(db: Database, after: Database, purged: set<Str>) {
    && after.cases == db.cases && after.eventIds == db.eventIds && after.outbox.Keys == db.outbox.Keys - purged
    && forall id :: id in after.outbox ==> after.outbox[id] == db.outbox[id].(published := after.outbox[id].published)
  }

  lemma SilentStep(h: Hashes, config: Config, db: Database, op: Op)
    requires Silent(h, config, db, op)
    ensures OnlyRelayed(db, Step(h, config, db, op), PurgedBy(db, op))
  {
  }

  lemma RelayedKeep(db: Database, after: Database, purged: set<Str>)
    requires OutboxInv(db) && OnlyRelayed(db, after, purged)
    ensures OutboxInv(after)
  {
    assert forall key, k, id :: EventAt(after, key, k, id) <==> EventAt(db, key, k, id);
    forall id | id in after.outbox ensures Announces(after, id, after.outbox[id]) {
      assert Announces(db, id, db.outbox[id]);
    }
    forall id | id in after.eventIds ensures HasEvent(after, id) {
      var key, k :| EventAt(db, key, k, id);
      assert EventAt(after, key, k, id);
    }
  }

  // ----- Accounting -----

  /** The ids whose rows the step removes; all of them were published. */
  function PurgedBy(db: Database, op: Op): (r: set<Str>)
    ensures forall id :: id in r ==> id in db.outbox && db.outbox[id].published
  {
    if op.PurgeOutbox? then Purged(db.outbox, op.expired) else {}
  }

  ghost function PurgedIds(states: seq<Database>, ops: seq<Op>, n: nat): set<Str>
    requires n <= |ops| && n < |states|
  {
    if n == 0 then {} else PurgedIds(states, ops, n - 1) + PurgedBy(states[n - 1], ops[n - 1])
  }

  /** Each event id is in the outbox or was purged, never both. */
  predicate Accounts(db: Database, purged: set<Str>) {
    db.eventIds == db.outbox.Keys + purged && db.outbox.Keys !! purged
  }

  lemma WritesAccount(db: Database, after: Database, e: Event, purged: set<Str>, gone: set<Str>)
    requires Accounts(db, purged) && Writes(db, after, e) && gone == {}
    ensures Accounts(after, purged + gone)
  {
    assert after.outbox.Keys == db.outbox.Keys + {e.eventId};
  }

  lemma WritingStep(h: Hashes, config: Config, db: Database, op: Op) returns (e: Event)
    requires EnvelopeOnly(h.event) && LedgersHold(h.event, db) && !Silent(h, config, db, op)
    ensures Writes(db, Step(h, config, db, op), e) && PurgedBy(db, op) == {}
  {
    if op.CreateCase? {
      e := CreationWrites(h, config, db, op);
    } else {
      var key := KeyOf(op.command);
      if key !in db.cases {
        AbsentRefuses(h, config, db, op, key);
      }
      assert LedgerInv(h.event, key, db.cases[key], db.eventIds);
      e := CommitWrites(h, config, db, op, key);
    }
  }

  lemma RelayedAccount(db: Database, after: Database, gone: set<Str>, purged: set<Str>)
    requires Accounts(db, purged) && OnlyRelayed(db, after, gone) && gone <= db.outbox.Keys
    ensures Accounts(after, purged + gone)
  {
  }

  lemma StepAccounts(h: Hashes, config: Config, db: Database, op: Op, purged: set<Str>)
    requires EnvelopeOnly(h.event) && LedgersHold(h.event, db) && Accounts(db, purged)
    ensures Accounts(Step(h, config, db, op), purged + PurgedBy(db, op))
  {
    if Silent(h, config, db, op) {
      SilentStep(h, config, db, op);
      RelayedAccount(db, Step(h, config, db, op), PurgedBy(db, op), purged);
    } else {
      var e := WritingStep(h, config, db, op);
      WritesAccount(db, Step(h, config, db, op), e, purged, PurgedBy(db, op));
    }
  }

  lemma StepKeepsOutbox(h: Hashes, config: Config, db: Database, op: Op)
    requires EnvelopeOnly(h.event) && LedgersHold(h.event, db)
    ensures OutboxInv(db) ==> OutboxInv(Step(h, config, db, op))
  {
    if Silent(h, config, db, op) {
      SilentStep(h, config, db, op);
      if OutboxInv(db) {
        RelayedKeep(db, Step(h, config, db, op), PurgedBy(db, op));
      }
    } else {
      var e := WritingStep(h, config, db, op);
      if OutboxInv(db) {
        WritesKeep(db, Step(h, config, db, op), e);
      }
    }
  }

  lemma {:induction false} IdsAccounted(h: Hashes, config: Config, states: seq<Database>, ops: seq<Op>, n: nat)
    requires EnvelopeOnly(h.event) && FromEmpty(h, config, states, ops) && n < |states|
    ensures Accounts(states[n], PurgedIds(states, ops, n))
  {
    if n > 0 {
      IdsAccounted(h, config, states, ops, n - 1);
      LedgersAlwaysHold(h, config, states, ops, n - 1);
      StepAccounts(h, config, states[n - 1], ops[n - 1], PurgedIds(states, ops, n - 1));
    }
  }

  lemma {:induction false} RowsAnnounce(h: Hashes, config: Config, states: seq<Database>, ops: seq<Op>, n: nat)
    requires EnvelopeOnly(h.event) && FromEmpty(h, config, states, ops) && n < |states|
    ensures OutboxInv(states[n])
  {
    if n > 0 {
      RowsAnnounce(h, config, states, ops, n - 1);
      LedgersAlwaysHold(h, config, states, ops, n - 1);
      StepKeepsOutbox(h, config, states[n - 1], ops[n - 1]);
    }
  }

  /**
   In every reachable state the ids of all events are the ids in the outbox and the ids purged from it, with
   no id in both; and each row in the outbox names its event and carries its digest.
   */
  lemma OutboxAccounts(h: Hashes, config: Config, states: seq<Database>, ops: seq<Op>, n: nat)
    requires EnvelopeOnly(h.event) && FromEmpty(h, config, states, ops) && n < |states|
    ensures Accounts(states[n], PurgedIds(states, ops, n)) && OutboxInv(states[n])
  {
    IdsAccounted(h, config, states, ops, n);
    RowsAnnounce(h, config, states, ops, n);
  }

  /**
   Every event of a reachable case is announced by its own row, with its digest, until the row is purged; and
   then it was published.
   */
  lemma EventsAnnounced(h: Hashes, config: Config, states: seq<Database>, ops: seq<Op>, n: nat, key: CaseKey, k: nat)
    requires EnvelopeOnly(h.event) && FromEmpty(h, config, states, ops) && n < |states|
    requires key in states[n].cases && k in states[n].cases[key].events
    ensures var e := states[n].cases[key].events[k];
            if e.eventId in states[n].outbox
            then
              var row := states[n].outbox[e.eventId];
              row.key == key && row.sequence == k && row.digest == e.eventDigest
            else exists i :: 0 <= i < n && e.eventId in PurgedBy(states[i], ops[i])
  {
    OutboxAccounts(h, config, states, ops, n);
    var id := states[n].cases[key].events[k].eventId;
    assert EventAt(states[n], key, k, id);
    if id in states[n].outbox {
      assert Announces(states[n], id, states[n].outbox[id]);
    } else {
      PurgeStep(states, ops, n, id);
    }
  }

  lemma {:induction false} PurgeStep(states: seq<Database>, ops: seq<Op>, n: nat, id: Str)
    requires n <= |ops| && n < |states| && id in PurgedIds(states, ops, n)
    ensures exists i :: 0 <= i < n && id in PurgedBy(states[i], ops[i])
  {
    if id !in PurgedBy(states[n - 1], ops[n - 1]) {
      PurgeStep(states, ops, n - 1, id);
    }
  }
}
