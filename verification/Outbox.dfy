/**
 The outbox relay: claim a batch, publish it outside the transaction, mark it delivered. Relays interleave; each may
 crash, see its statements fail, or be overtaken, and the sink may stop after any record.
 */
module Outbox {
  import opened Prelude

  type RowId = string
  type ClaimId = string

  datatype Row = Row(createdAt: int, publishedAt: Option<int>, claim: Option<ClaimId>, claimedAt: Option<int>,
                     attempts: nat)

  datatype Phase = Publishing | Marking | Releasing

  /** A relay after its claim committed: what it claimed, and what the sink has not accepted yet. */
  datatype Relay = Relay(records: set<RowId>, pending: set<RowId>, phase: Phase)

  /** `sink` is the log of accepted records; `purged` keeps the rows the purge deleted, `used` the claim ids. */
  datatype State = State(
    now: int,
    rows: map<RowId, Row>,
    purged: map<RowId, Row>,
    relays: map<ClaimId, Relay>,
    used: set<ClaimId>,
    sink: seq<RowId>)

  datatype Op =
    | Tick(now: int)
    | Insert(row: RowId)
    | Claim(c: ClaimId, chosen: set<RowId>, timeout: nat)
    | SinkAccepts(c: ClaimId, row: RowId)
    | SinkReturns(c: ClaimId)
    | SinkThrows(c: ClaimId)
    | Mark(c: ClaimId, durable: bool)
    | Release(c: ClaimId, durable: bool)
    | Crash(c: ClaimId)
    | Purge(retention: nat)

  // ----- Rows -----

  predicate Eligible(row: Row, now: int, timeout: nat) {
    row.publishedAt.None? && (row.claimedAt.None? || row.claimedAt.value < now - timeout)
  }

  function ClaimedRow(row: Row, c: ClaimId, now: int): Row {
    row.(claim := Some(c), claimedAt := Some(now), attempts := row.attempts + 1)
  }

  function MarkedRow(row: Row, now: int): Row {
    row.(publishedAt := Some(now), claim := None, claimedAt := None)
  }

  function ReleasedRow(row: Row): Row {
    row.(claim := None, claimedAt := None)
  }

  predicate Purgeable(row: Row, now: int, retention: nat) {
    row.publishedAt.Some? && row.publishedAt.value < now - retention
  }

  function NewRow(now: int): Row {
    Row(now, None, None, None, 0)
  }

  function AfterClaim(rows: map<RowId, Row>, chosen: set<RowId>, c: ClaimId, now: int): map<RowId, Row> {
    map i | i in rows :: if i in chosen then ClaimedRow(rows[i], c, now) else rows[i]
  }

  function AfterMark(rows: map<RowId, Row>, records: set<RowId>, c: ClaimId, now: int): map<RowId, Row> {
    map i | i in rows :: if rows[i].claim == Some(c) && i in records then MarkedRow(rows[i], now) else rows[i]
  }

  function AfterRelease(rows: map<RowId, Row>, c: ClaimId): map<RowId, Row> {
    map i | i in rows :: if rows[i].claim == Some(c) then ReleasedRow(rows[i]) else rows[i]
  }

  function AfterPurge(rows: map<RowId, Row>, now: int, retention: nat): map<RowId, Row> {
    map i | i in rows && !Purgeable(rows[i], now, retention) :: rows[i]
  }

  function PurgedRows(rows: map<RowId, Row>, now: int, retention: nat): map<RowId, Row> {
    map i | i in rows && Purgeable(rows[i], now, retention) :: rows[i]
  }

  // ----- Steps -----

  predicate InPhase(s: State, c: ClaimId, phase: Phase) {
    c in s.relays && s.relays[c].phase == phase
  }

  predicate Enabled(s: State, op: Op) {
    match op
    case Tick(_) => true
    case Insert(i) => i !in s.rows && i !in s.purged
    case Claim(c, chosen, timeout) =>
      c !in s.used && forall i :: i in chosen ==> i in s.rows && Eligible(s.rows[i], s.now, timeout)
    case SinkAccepts(c, i) => InPhase(s, c, Publishing) && i in s.relays[c].pending
    case SinkReturns(c) => InPhase(s, c, Publishing) && s.relays[c].pending == {}
    case SinkThrows(c) => InPhase(s, c, Publishing)
    case Mark(c, _) => InPhase(s, c, Marking)
    case Release(c, _) => InPhase(s, c, Releasing)
    case Crash(c) => c in s.relays
    case Purge(_) => true
  }

  function SetPhase(s: State, c: ClaimId, phase: Phase): State
    requires c in s.relays
  {
    s.(relays := s.relays[c := s.relays[c].(phase := phase)])
  }

  /** A failed mark falls through to the release; a failed release leaves the claim to its timeout. */
  function Apply(s: State, op: Op): State {
    if !Enabled(s, op) then s
    else match op
      case Tick(now) => s.(now := now)
      case Insert(i) => s.(rows := s.rows[i := NewRow(s.now)])
      case Claim(c, chosen, _) =>
        s.(rows := AfterClaim(s.rows, chosen, c, s.now),
           relays := s.relays[c := Relay(chosen, chosen, Publishing)],
           used := s.used + {c})
      case SinkAccepts(c, i) =>
        s.(relays := s.relays[c := s.relays[c].(pending := s.relays[c].pending - {i})], sink := s.sink + [i])
      case SinkReturns(c) => SetPhase(s, c, Marking)
      case SinkThrows(c) => SetPhase(s, c, Releasing)
      case Mark(c, durable) =>
        if !durable then SetPhase(s, c, Releasing)
        else s.(rows := AfterMark(s.rows, s.relays[c].records, c, s.now), relays := s.relays - {c})
      case Release(c, durable) =>
        s.(rows := if durable then AfterRelease(s.rows, c) else s.rows, relays := s.relays - {c})
      case Crash(c) => s.(relays := s.relays - {c})
      case Purge(retention) =>
        s.(rows := AfterPurge(s.rows, s.now, retention),
           purged := s.purged + PurgedRows(s.rows, s.now, retention))
  }

  predicate Initial(s: State) {
    s.rows == map[] && s.purged == map[] && s.relays == map[] && s.used == {} && s.sink == []
  }

  ghost predicate Behavior(states: seq<State>, ops: seq<Op>) {
    && |states| == |ops| + 1
    && Initial(states[0])
    && forall i :: 0 <= i < |ops| ==> states[i + 1] == Apply(states[i], ops[i])
  }

  // ----- Never lost -----

  predicate Delivered(s: State, i: RowId) {
    i in s.sink
  }

  predicate RelayInv(s: State, relay: Relay) {
    && relay.pending <= relay.records
    && (forall i :: i in relay.records ==> i in relay.pending || Delivered(s, i))
    && (relay.phase.Marking? ==> relay.pending == {})
  }

  predicate RowInv(s: State, row: Row, i: RowId) {
    && (row.publishedAt.Some? ==> Delivered(s, i) && row.claim.None?)
    && (row.claim.Some? <==> row.claimedAt.Some?)
    && (row.claim.Some? ==> row.claim.value in s.used)
  }

  ghost predicate Inv(s: State) {
    && (forall c :: c in s.relays ==> c in s.used && RelayInv(s, s.relays[c]))
    && (forall i :: i in s.rows ==> i !in s.purged && RowInv(s, s.rows[i], i))
    && (forall i :: i in s.purged ==> s.purged[i].publishedAt.Some? && Delivered(s, i))
  }

  lemma StepRelays(s: State, op: Op, c: ClaimId)
    requires Inv(s) && c in Apply(s, op).relays
    ensures c in Apply(s, op).used && RelayInv(Apply(s, op), Apply(s, op).relays[c])
  {
  }

  lemma StepRows(s: State, op: Op, i: RowId)
    requires Inv(s) && i in Apply(s, op).rows
    ensures i !in Apply(s, op).purged && RowInv(Apply(s, op), Apply(s, op).rows[i], i)
  {
    if op.Mark? && Enabled(s, op) {
      assert RelayInv(s, s.relays[op.c]);
    }
  }

  lemma StepPurged(s: State, op: Op, i: RowId)
    requires Inv(s) && i in Apply(s, op).purged
    ensures Apply(s, op).purged[i].publishedAt.Some? && Delivered(Apply(s, op), i)
  {
  }

  lemma InvStep(s: State, op: Op)
    requires Inv(s)
    ensures Inv(Apply(s, op))
  {
    hide Apply, RelayInv, RowInv, Delivered;
    var t := Apply(s, op);
    forall c | c in t.relays ensures c in t.used && RelayInv(t, t.relays[c]) {
      StepRelays(s, op, c);
    }
    forall i | i in t.rows ensures i !in t.purged && RowInv(t, t.rows[i], i) {
      StepRows(s, op, i);
    }
    forall i | i in t.purged ensures t.purged[i].publishedAt.Some? && Delivered(t, i) {
      StepPurged(s, op, i);
    }
  }

  lemma {:induction false} InvAlways(states: seq<State>, ops: seq<Op>, n: nat)
    requires Behavior(states, ops) && n < |states|
    ensures Inv(states[n])
  {
    if n > 0 {
      hide Apply, Inv;
      InvAlways(states, ops, n - 1);
      InvStep(states[n - 1], ops[n - 1]);
    }
  }

  lemma {:induction false} RowsKept(states: seq<State>, ops: seq<Op>, k: nat, n: nat, i: RowId)
    requires Behavior(states, ops) && k <= n < |states|
    requires i in states[k].rows || i in states[k].purged
    ensures i in states[n].rows || i in states[n].purged
    decreases n - k
  {
    if k < n {
      RowsKept(states, ops, k + 1, n, i);
    }
  }

  /**
   An inserted row is, at every later point, still unpublished or has been accepted by the sink; the
   purge has only ever deleted rows that the sink accepted.
   */
  lemma NeverLost(states: seq<State>, ops: seq<Op>, k: nat, n: nat)
    requires Behavior(states, ops) && k < n < |states| && ops[k].Insert? && Enabled(states[k], ops[k])
    ensures var i := ops[k].row;
            || (i in states[n].rows && states[n].rows[i].publishedAt.None?)
            || Delivered(states[n], i)
    ensures forall i :: i in states[n].purged ==> Delivered(states[n], i)
  {
    RowsKept(states, ops, k + 1, n, ops[k].row);
    InvAlways(states, ops, n);
  }

  // ----- Deliveries and attempts -----

  ghost function Deliveries(s: State, i: RowId): nat {
    multiset(s.sink)[i]
  }

  /** The attempts of a row, whether it is still there or was purged. */
  function Attempts(s: State, i: RowId): nat {
    if i in s.rows then s.rows[i].attempts else if i in s.purged then s.purged[i].attempts else 0
  }

  /** The relays that may still deliver the row. */
  ghost function Holders(s: State, i: RowId): set<ClaimId> {
    set c | c in s.relays && i in s.relays[c].pending
  }

  lemma HoldersStep(s: State, op: Op, i: RowId)
    requires Inv(s)
    ensures var before, after := Holders(s, i), Holders(Apply(s, op), i);
            if !Enabled(s, op) then after == before
            else if op.Claim? && i in op.chosen then after == before + {op.c} && op.c !in before
            else if op.SinkAccepts? && op.row == i then after == before - {op.c} && op.c in before
            else after <= before
  {
    var t := Apply(s, op);
    forall c | c in Holders(t, i) && c !in Holders(s, i)
      ensures Enabled(s, op) && op.Claim? && i in op.chosen && c == op.c
    {
    }
  }

  lemma AttemptsStep(s: State, op: Op, i: RowId)
    requires Inv(s)
    ensures Attempts(Apply(s, op), i)
            == Attempts(s, i) + (if op.Claim? && Enabled(s, op) && i in op.chosen then 1 else 0)
  {
  }

  lemma DeliveriesStep(s: State, op: Op, i: RowId)
    ensures Deliveries(Apply(s, op), i)
         == Deliveries(s, i) + (if op.SinkAccepts? && Enabled(s, op) && op.row == i then 1 else 0)
  {
  }

  /** What was delivered, and what may still be, was paid for by an attempt each. */
  lemma {:induction false} DeliveriesBounded(states: seq<State>, ops: seq<Op>, n: nat, i: RowId)
    requires Behavior(states, ops) && n < |states|
    ensures Deliveries(states[n], i) + |Holders(states[n], i)| <= Attempts(states[n], i)
  {
    if n > 0 {
      var s, op := states[n - 1], ops[n - 1];
      DeliveriesBounded(states, ops, n - 1, i);
      InvAlways(states, ops, n - 1);
      HoldersStep(s, op, i);
      AttemptsStep(s, op, i);
      DeliveriesStep(s, op, i);
      if Holders(states[n], i) <= Holders(s, i) {
        SubsetSize(Holders(states[n], i), Holders(s, i));
      }
    } else {
      assert Holders(states[0], i) == {};
    }
  }

  // ----- Overtaken relays -----

  /** The row carries no claim of `c` and never will again. */
  predicate Overtaken(s: State, i: RowId, c: ClaimId) {
    c in s.used && (i in s.rows ==> s.rows[i].claim != Some(c))
  }

  lemma OvertakenStays(s: State, op: Op, i: RowId, c: ClaimId)
    requires Overtaken(s, i, c)
    ensures Overtaken(Apply(s, op), i, c)
    ensures (op.Mark? || op.Release?) && op.c == c && i in s.rows ==>
              i in Apply(s, op).rows && Apply(s, op).rows[i] == s.rows[i]
  {
  }

  lemma {:induction false} AlwaysOvertaken(states: seq<State>, ops: seq<Op>, k: nat, n: nat, i: RowId, c: ClaimId)
    requires Behavior(states, ops) && k <= n < |states| && Overtaken(states[k], i, c)
    ensures Overtaken(states[n], i, c)
    decreases n - k
  {
    if k < n {
      OvertakenStays(states[k], ops[k], i, c);
      AlwaysOvertaken(states, ops, k + 1, n, i, c);
    }
  }

  /** Once another relay has claimed a row, an earlier claimant can neither mark it nor release the new claim. */
  lemma OvertakenCannotTouch(states: seq<State>, ops: seq<Op>, k: nat, n: nat, i: RowId, c: ClaimId)
    requires Behavior(states, ops) && k < n < |ops| && c in states[k].used
    requires ops[k].Claim? && Enabled(states[k], ops[k]) && i in ops[k].chosen
    requires (ops[n].Mark? || ops[n].Release?) && ops[n].c == c
    ensures i in states[n].rows ==> i in states[n + 1].rows && states[n + 1].rows[i] == states[n].rows[i]
  {
    assert Overtaken(states[k + 1], i, c);
    AlwaysOvertaken(states, ops, k + 1, n, i, c);
    OvertakenStays(states[n], ops[n], i, c);
  }

  lemma PublishedStep(s: State, op: Op, i: RowId, row: Row)
    requires Inv(s) && row.publishedAt.Some? && (i in s.rows ==> s.rows[i] == row) && (i in s.rows || i in s.purged)
    ensures i in Apply(s, op).rows ==> Apply(s, op).rows[i] == row
    ensures Attempts(Apply(s, op), i) == Attempts(s, i)
  {
    AttemptsStep(s, op, i);
    assert i in s.rows ==> RowInv(s, s.rows[i], i);
  }

  /** A published row is never claimed, delivered by a new claim, or unpublished again. */
  lemma {:induction false} PublishedStays(states: seq<State>, ops: seq<Op>, k: nat, n: nat, i: RowId)
    requires Behavior(states, ops) && k <= n < |states|
    requires i in states[k].rows && states[k].rows[i].publishedAt.Some?
    ensures i in states[n].rows ==> states[n].rows[i] == states[k].rows[i]
    ensures Attempts(states[n], i) == Attempts(states[k], i)
    decreases n
  {
    InvAlways(states, ops, k);
    if k < n {
      PublishedStays(states, ops, k, n - 1, i);
      InvAlways(states, ops, n - 1);
      RowsKept(states, ops, k, n - 1, i);
      PublishedStep(states[n - 1], ops[n - 1], i, states[k].rows[i]);
    }
  }
}
