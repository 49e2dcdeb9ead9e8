/**
 The event chain of every case in every reachable state: sequences run from 1 without a gap, each event
 links to its predecessor, the head row is the last event, and the verifier agrees with the writer.
 A behavior is any sequence of requests and relay steps, each an atomic transaction.
 */
module CaseChain {
  import opened CodeUnits
  import opened Prelude
  import opened Json
  import opened EventChain
  import opened CaseCommands
  import opened CaseLedger

  // ----- Behaviors -----

  ghost predicate Behavior(h: Hashes, config: Config, states: seq<Database>, ops: seq<Op>) {
    && |states| == |ops| + 1
    && forall i :: 0 <= i < |ops| ==> states[i + 1] == Step(h, config, states[i], ops[i])
  }

  ghost predicate FromEmpty(h: Hashes, config: Config, states: seq<Database>, ops: seq<Op>) {
    Behavior(h, config, states, ops) && states[0] == EMPTY
  }

  /** The step is an accepted command on the case, not a replay. */
  predicate Commits(h: Hashes, config: Config, db: Database, op: Op, key: CaseKey) {
    op.SubmitCommand? && KeyOf(op.command) == key && ReplyTo(h, config, db, op).Accepted?
  }

  /** The mutation of an accepted command. */
  predicate Mutates(config: Config, db: Database, c: Case, command: Command, env: Env, mutation: Mutation) {
    Mutate(SceneOf(config, db.evidence, c, command, env), command.body) == Ok(mutation)
  }

  /** Steps other than commands never change a case that is there. */
  lemma OtherStepsKeep(h: Hashes, config: Config, db: Database, op: Op, key: CaseKey)
    requires key in db.cases && !op.SubmitCommand?
    ensures key in Step(h, config, db, op).cases && Step(h, config, db, op).cases[key] == db.cases[key]
  {
  }

  /** A command changes its case when it is accepted, and nothing else. */
  lemma CommandStep(h: Hashes, config: Config, db: Database, command: Command, env: Env, key: CaseKey)
    requires key in db.cases
    ensures var (after, reply) := Submit(h, config, db, command, env);
            && key in after.cases
            && if reply.Accepted? && KeyOf(command) == key
               then Execute(h, config, db, db.cases[key], command, env) == Ok(after.cases[key])
                    && command.idempotencyKey !in db.cases[key].receipts
               else after.cases[key] == db.cases[key]
  {
    hide Execute;
  }

  /** A step either leaves a case as it is or is an accepted command on it. */
  lemma CaseStep(h: Hashes, config: Config, db: Database, op: Op, key: CaseKey)
    requires key in db.cases
    ensures key in Step(h, config, db, op).cases
    ensures !Commits(h, config, db, op, key) ==> Step(h, config, db, op).cases[key] == db.cases[key]
    ensures Commits(h, config, db, op, key) ==>
              Execute(h, config, db, db.cases[key], op.command, op.env) == Ok(Step(h, config, db, op).cases[key])
              && op.command.idempotencyKey !in db.cases[key].receipts
  {
    if op.SubmitCommand? {
      CommandStep(h, config, db, op.command, op.env, key);
    } else {
      OtherStepsKeep(h, config, db, op, key);
    }
  }

  lemma CommitMutation(h: Hashes, config: Config, db: Database, op: Op, key: CaseKey) returns (mutation: Mutation)
    requires key in db.cases && Commits(h, config, db, op, key)
    ensures var c := db.cases[key];
            && AuthorityRefusal(c, op.command).None?
            && Mutates(config, db, c, op.command, op.env, mutation)
            && Admit(h, c, db.eventIds, op.command, mutation, op.env) == Ok(Step(h, config, db, op).cases[key])
  {
    CaseStep(h, config, db, op, key);
    mutation := Mutate(SceneOf(config, db.evidence, db.cases[key], op.command, op.env), op.command.body).value;
  }

  lemma NewCaseStep(h: Hashes, config: Config, db: Database, op: Op, key: CaseKey)
    requires key !in db.cases && key in Step(h, config, db, op).cases
    ensures op.CreateCase?
    ensures OpenCase(h, db, op.creation, key, op.idempotencyKey, op.env) == Ok(Step(h, config, db, op).cases[key])
    ensures key.tenantId == op.creation.tenantId
  {
  }

  lemma {:induction false} CasePersists(h: Hashes, config: Config, states: seq<Database>, ops: seq<Op>, key: CaseKey,
                                        i: nat, n: nat)
    requires Behavior(h, config, states, ops) && i <= n < |states| && key in states[i].cases
    ensures key in states[n].cases
    decreases n - i
  {
    if i < n {
      CaseStep(h, config, states[i], ops[i], key);
      CasePersists(h, config, states, ops, key, i + 1, n);
    }
  }

  // ----- The invariant -----

  ghost predicate Numbered(c: Case) {
    c.sequence >= 1 && forall k :: k in c.events <==> 1 <= k <= c.sequence
  }

  /** The events in sequence order. */
  ghost function Rows(c: Case): (r: seq<Event>)
    requires Numbered(c)
    ensures |r| == c.sequence && forall i :: 0 <= i < |r| ==> r[i] == c.events[i + 1]
  {
    seq(c.sequence, i requires 0 <= i < c.sequence => c.events[i + 1])
  }

  predicate Placed(key: CaseKey, e: Event, sequence: nat) {
    e.caseSequence == sequence && e.tenantId == key.tenantId && e.caseId == key.caseId && EventWellFormed(e)
      && JsonDefined(e)
  }

  predicate AllPlaced(key: CaseKey, c: Case) {
    forall k :: k in c.events ==> Placed(key, c.events[k], k)
  }

  predicate IdsRecorded(c: Case, eventIds: set<Str>) {
    forall k :: k in c.events ==> c.events[k].eventId in eventIds
  }

  ghost predicate HeadIsLast(c: Case)
    requires Numbered(c)
  {
    c.head == Some(Head(c.sequence, c.events[c.sequence].eventDigest))
  }

  predicate DigestsUnique(c: Case) {
    forall j, k :: j in c.events && k in c.events && j != k ==> c.events[j].eventDigest != c.events[k].eventDigest
  }

  ghost predicate LedgerInv(hash: EventHash, key: CaseKey, c: Case, eventIds: set<Str>) {
    && Numbered(c) && AllPlaced(key, c) && Chained(hash, Rows(c)) && HeadIsLast(c)
    && DigestsUnique(c) && IdsRecorded(c, eventIds)
  }

  /** An event's digest does not depend on the column it is stored in. */
  ghost predicate EnvelopeOnly(hash: EventHash) {
    forall e: Event, d: Str {:trigger e.(eventDigest := d)} :: hash(e.(eventDigest := d)) == hash(e)
  }

  lemma HashingIsEnvelopeOnly(sha: Str -> Str)
    ensures EnvelopeOnly(Hashing(sha))
  {
    forall e: Event, d: Str ensures Hashing(sha)(e.(eventDigest := d)) == Hashing(sha)(e) {
      assert FieldValues(e.(eventDigest := d)) == FieldValues(e);
    }
  }

  lemma DigestedLinks(hash: EventHash, e: Event)
    requires EnvelopeOnly(hash)
    ensures hash(Digested(hash, e)) == Digested(hash, e).eventDigest
  {
  }

  lemma {:induction false} ChainExtends(hash: EventHash, rows: seq<Event>, e: Event)
    requires Chained(hash, rows) && e.previousEventDigest == HeadDigest(rows) && e.eventDigest == hash(e)
    ensures Chained(hash, rows + [e])
  {
    forall i | 0 <= i < |rows| + 1 ensures Linked(hash, rows + [e], i) {
      if i < |rows| {
        assert Linked(hash, rows, i);
      }
    }
  }

  lemma ActorFieldsDistinct()
    ensures forall i, j :: 0 <= i < j < |ACTOR_FIELDS| ==> ACTOR_FIELDS[i] != ACTOR_FIELDS[j]
  {
    assert ACTOR_FIELDS[1][0] == 112 && ACTOR_FIELDS[2][0] == 101;
  }

  lemma NewEventWellFormed(h: Hashes, input: EventInput, env: Env)
    ensures EventWellFormed(NewEvent(h, input, env)) && JsonDefined(NewEvent(h, input, env))
  {
    ActorFieldsDistinct();
    var e := NewEvent(h, input, env);
    assert WellFormed(e.actor) by {
      forall m | m in e.actor.members ensures WellFormed(m.value) { }
    }
    assert WellFormed(e.authority) by {
      forall m | m in e.authority.members ensures WellFormed(m.value) { }
    }
  }

  /** `d` is `c` with `e` appended, as far as the ledger's tables go. */
  ghost predicate Appends(c: Case, d: Case, e: Event) {
    && d.events == c.events[c.sequence + 1 := e] && d.head == Some(Head(c.sequence + 1, e.eventDigest))
    && d.sequence == c.sequence + 1
  }

  lemma AppendNumbered(key: CaseKey, c: Case, d: Case, e: Event)
    requires Numbered(c) && AllPlaced(key, c) && Placed(key, e, c.sequence + 1) && Appends(c, d, e)
    ensures Numbered(d) && AllPlaced(key, d) && HeadIsLast(d) && Rows(d) == Rows(c) + [e]
  {
  }

  /** No event of the case carries the digest yet. */
  predicate NewDigest(c: Case, digest: Str) {
    forall k :: k in c.events ==> c.events[k].eventDigest != digest
  }

  lemma AppendUnique(c: Case, d: Case, e: Event)
    requires Numbered(c) && DigestsUnique(c) && NewDigest(c, e.eventDigest) && Appends(c, d, e)
    ensures DigestsUnique(d)
  {
  }

  /** Appending the next event of a case keeps its ledger. */
  lemma AppendKeeps(hash: EventHash, key: CaseKey, c: Case, d: Case, e: Event, eventIds: set<Str>)
    requires LedgerInv(hash, key, c, eventIds) && NewDigest(c, e.eventDigest) && Appends(c, d, e)
    requires Placed(key, e, c.sequence + 1) && e.previousEventDigest == HeadOf(c) && e.eventDigest == hash(e)
    ensures LedgerInv(hash, key, d, eventIds + {e.eventId})
    ensures Numbered(c) && Numbered(d) && Rows(d) == Rows(c) + [e]
  {
    AppendNumbered(key, c, d, e);
    AppendUnique(c, d, e);
    assert HeadDigest(Rows(c)) == HeadOf(c);
    ChainExtends(hash, Rows(c), e);
  }

  lemma FirstEventKeeps(hash: EventHash, key: CaseKey, d: Case, e: Event, eventIds: set<Str>)
    requires Placed(key, e, 1) && e.previousEventDigest == None && e.eventDigest == hash(e)
    requires d.events == map[1 := e] && d.sequence == 1 && d.head == Some(Head(1, e.eventDigest))
    ensures LedgerInv(hash, key, d, eventIds + {e.eventId})
  {
    assert Rows(d) == [e];
    assert Linked(hash, Rows(d), 0);
  }

  /** `e` is the event an accepted command appends. */
  ghost predicate AppendedBy(hash: EventHash, key: CaseKey, c: Case, command: Command, env: Env, e: Event) {
    && Placed(key, e, c.sequence + 1) && e.previousEventDigest == HeadOf(c) && e.eventDigest == hash(e)
    && e.eventId == env.eventId && e.recordedAt == env.now
    && e.occurredAt == (if command.occurredAt.Some? then command.occurredAt.value else env.now)
  }

  lemma AdmitAppends(h: Hashes, c: Case, eventIds: set<Str>, command: Command, mutation: Mutation, env: Env, d: Case)
      returns (e: Event)
    requires EnvelopeOnly(h.event) && Admit(h, c, eventIds, command, mutation, env) == Ok(d)
    ensures Appends(c, d, e) && e.eventId !in eventIds && NewDigest(c, e.eventDigest)
            && AppendedBy(h.event, KeyOf(command), c, command, env, e)
  {
    var input := CommandInput(c, command, mutation, env);
    e := NewEvent(h, input, env);
    NewEventWellFormed(h, input, env);
    DigestedLinks(h.event, Undigested(input, env));
  }

  /** An accepted command changes its case, the outbox and the event ids, and nothing else. */
  lemma CommitCommits(h: Hashes, config: Config, db: Database, op: Op, key: CaseKey)
    requires key in db.cases && Commits(h, config, db, op, key)
    ensures var after := Step(h, config, db, op);
            && key in after.cases && db.cases[key].sequence + 1 in after.cases[key].events
            && after == Committed(db, key, after.cases[key], after.cases[key].events[db.cases[key].sequence + 1])
  {
    hide Execute;
  }

  lemma CommitAppends(h: Hashes, config: Config, db: Database, op: Op, key: CaseKey) returns (e: Event)
    requires EnvelopeOnly(h.event) && key in db.cases && Commits(h, config, db, op, key)
    ensures var after := Step(h, config, db, op);
            && after.eventIds == db.eventIds + {e.eventId} && after.outbox == Announced(db.outbox, e)
            && key in after.cases && Appends(db.cases[key], after.cases[key], e)
            && e.eventId !in db.eventIds && NewDigest(db.cases[key], e.eventDigest)
            && AppendedBy(h.event, key, db.cases[key], op.command, op.env, e)
  {
    var mutation := CommitMutation(h, config, db, op, key);
    e := AdmitAppends(h, db.cases[key], db.eventIds, op.command, mutation, op.env, Step(h, config, db, op).cases[key]);
    CommitCommits(h, config, db, op, key);
  }

  lemma CommitKeeps(h: Hashes, config: Config, db: Database, op: Op, key: CaseKey)
    requires EnvelopeOnly(h.event) && key in db.cases && Commits(h, config, db, op, key)
    requires LedgerInv(h.event, key, db.cases[key], db.eventIds)
    ensures LedgerInv(h.event, key, Step(h, config, db, op).cases[key], Step(h, config, db, op).eventIds)
  {
    var e := CommitAppends(h, config, db, op, key);
    AppendKeeps(h.event, key, db.cases[key], Step(h, config, db, op).cases[key], e, db.eventIds);
  }

  lemma CreationKeeps(h: Hashes, config: Config, db: Database, op: Op, key: CaseKey)
    requires EnvelopeOnly(h.event) && key !in db.cases && key in Step(h, config, db, op).cases
    ensures LedgerInv(h.event, key, Step(h, config, db, op).cases[key], Step(h, config, db, op).eventIds)
    ensures var d := Step(h, config, db, op).cases[key];
            d.sequence == 1 && d.events.Keys == {1} && d.events[1].occurredAt == d.events[1].recordedAt == op.env.now
  {
    hide LedgerInv, ExternalRefTaken;
    NewCaseStep(h, config, db, op, key);
    var input := CreatedInput(h, op.creation, key, op.idempotencyKey, op.env);
    var e := NewEvent(h, input, op.env);
    NewEventWellFormed(h, input, op.env);
    DigestedLinks(h.event, Undigested(input, op.env));
    FirstEventKeeps(h.event, key, Step(h, config, db, op).cases[key], e, db.eventIds);
  }

  lemma EventIdsGrow(h: Hashes, config: Config, db: Database, op: Op)
    ensures db.eventIds <= Step(h, config, db, op).eventIds
  {
  }

  ghost predicate LedgersHold(hash: EventHash, db: Database) {
    forall key :: key in db.cases ==> LedgerInv(hash, key, db.cases[key], db.eventIds)
  }

  lemma StepKeeps(h: Hashes, config: Config, db: Database, op: Op)
    requires EnvelopeOnly(h.event) && LedgersHold(h.event, db)
    ensures LedgersHold(h.event, Step(h, config, db, op))
  {
    var after := Step(h, config, db, op);
    EventIdsGrow(h, config, db, op);
    forall key | key in after.cases ensures LedgerInv(h.event, key, after.cases[key], after.eventIds) {
      if key !in db.cases {
        CreationKeeps(h, config, db, op, key);
      } else if Commits(h, config, db, op, key) {
        CommitKeeps(h, config, db, op, key);
      } else {
        CaseStep(h, config, db, op, key);
      }
    }
  }

  /** Every reachable case has a whole chain: 1..n, linked, and headed by its last event. */
  lemma {:induction false} LedgersAlwaysHold(h: Hashes, config: Config, states: seq<Database>, ops: seq<Op>, n: nat)
    requires EnvelopeOnly(h.event) && FromEmpty(h, config, states, ops) && n < |states|
    ensures LedgersHold(h.event, states[n])
  {
    if n > 0 {
      hide Step, LedgersHold;
      LedgersAlwaysHold(h, config, states, ops, n - 1);
      StepKeeps(h, config, states[n - 1], ops[n - 1]);
    }
  }

  // ----- The verifier -----

  /** The time a command supplies, if any, is already in the form the store renders. */
  predicate SuppliesFixed(render: Str -> Str, op: Op) {
    op.SubmitCommand? && op.command.occurredAt.Some? ==>
      render(op.command.occurredAt.value) == op.command.occurredAt.value
  }

  predicate Relays(op: Op) {
    op.MarkPublished? || op.PurgeOutbox?
  }

  ghost predicate ClockFixed(render: Str -> Str, ops: seq<Op>) {
    forall i :: 0 <= i < |ops| && !Relays(ops[i]) ==> render(ops[i].env.now) == ops[i].env.now
  }

  /** The next event of the case is one the verifier reads. */
  predicate WithinReach(db: Database, key: CaseKey) {
    key in db.cases && db.cases[key].sequence < READ_LIMIT
  }

  /** Every accepted command whose event the verifier reads supplied a fixed time, or none. */
  ghost predicate CommitsFixed(h: Hashes, config: Config, render: Str -> Str, states: seq<Database>, ops: seq<Op>,
                               n: nat, key: CaseKey)
    requires n <= |ops| && n < |states|
  {
    forall i :: 0 <= i < n && Commits(h, config, states[i], ops[i], key) && WithinReach(states[i], key)
      ==> SuppliesFixed(render, ops[i])
  }

  predicate AllFixed(render: Str -> Str, rows: seq<Event>) {
    forall i :: 0 <= i < |rows| ==> TimesFixed(render, rows[i])
  }

  lemma CommitsFixedStep(h: Hashes, config: Config, render: Str -> Str, states: seq<Database>, ops: seq<Op>, n: nat,
                         key: CaseKey)
    requires 0 < n <= |ops| && n < |states|
    ensures CommitsFixed(h, config, render, states, ops, n, key)
       <==> CommitsFixed(h, config, render, states, ops, n - 1, key)
            && (Commits(h, config, states[n - 1], ops[n - 1], key) && WithinReach(states[n - 1], key)
                ==> SuppliesFixed(render, ops[n - 1]))
  {
    hide Commits, WithinReach, SuppliesFixed;
  }

  lemma FixedAppend(render: Str -> Str, rows: seq<Event>, longer: seq<Event>)
    requires |longer| == |rows| + 1 && rows == longer[..|rows|]
    ensures AllFixed(render, FirstRows(longer))
       <==> AllFixed(render, FirstRows(rows)) && (|rows| < READ_LIMIT ==> TimesFixed(render, longer[|rows|]))
  {
    assert forall i :: 0 <= i < |rows| ==> rows[i] == longer[i];
    if |rows| >= READ_LIMIT {
      assert FirstRows(longer) == FirstRows(rows);
    }
  }

  lemma AppendFixed(hash: EventHash, render: Str -> Str, key: CaseKey, c: Case, d: Case, op: Op, e: Event)
    requires op.SubmitCommand? && Numbered(c) && AllPlaced(key, c)
    requires Appends(c, d, e) && AppendedBy(hash, key, c, op.command, op.env, e) && render(op.env.now) == op.env.now
    ensures Numbered(d)
    ensures AllFixed(render, FirstRows(Rows(d)))
       <==> AllFixed(render, FirstRows(Rows(c))) && (c.sequence < READ_LIMIT ==> SuppliesFixed(render, op))
  {
    AppendNumbered(key, c, d, e);
    FixedAppend(render, Rows(c), Rows(d));
  }

  lemma CommitFixed(h: Hashes, config: Config, render: Str -> Str, db: Database, op: Op, key: CaseKey)
    requires EnvelopeOnly(h.event) && key in db.cases && Commits(h, config, db, op, key)
    requires Numbered(db.cases[key]) && AllPlaced(key, db.cases[key]) && render(op.env.now) == op.env.now
    ensures key in Step(h, config, db, op).cases && Numbered(Step(h, config, db, op).cases[key])
    ensures AllFixed(render, FirstRows(Rows(Step(h, config, db, op).cases[key])))
       <==> AllFixed(render, FirstRows(Rows(db.cases[key]))) && (WithinReach(db, key) ==> SuppliesFixed(render, op))
  {
    var e := CommitAppends(h, config, db, op, key);
    AppendFixed(h.event, render, key, db.cases[key], Step(h, config, db, op).cases[key], op, e);
  }

  lemma CreationFixed(h: Hashes, config: Config, render: Str -> Str, db: Database, op: Op, key: CaseKey)
    requires EnvelopeOnly(h.event) && key !in db.cases && key in Step(h, config, db, op).cases
    requires !Relays(op) && render(op.env.now) == op.env.now
    ensures Numbered(Step(h, config, db, op).cases[key])
            && AllFixed(render, FirstRows(Rows(Step(h, config, db, op).cases[key])))
  {
    CreationKeeps(h, config, db, op, key);
  }

  /** The stored times the verifier reads are fixed exactly when the times supplied for them are. */
  lemma {:induction false} FixedTimes(h: Hashes, config: Config, render: Str -> Str, states: seq<Database>,
                                      ops: seq<Op>, n: nat, key: CaseKey)
    requires EnvelopeOnly(h.event) && FromEmpty(h, config, states, ops) && n < |states| && ClockFixed(render, ops)
    requires key in states[n].cases
    ensures Numbered(states[n].cases[key])
    ensures AllFixed(render, FirstRows(Rows(states[n].cases[key])))
            <==> CommitsFixed(h, config, render, states, ops, n, key)
  {
    var before, op := states[n - 1], ops[n - 1];
    assert states[n] == Step(h, config, before, op) && (!Relays(op) ==> render(op.env.now) == op.env.now);
    if key !in before.cases {
      CreationFixed(h, config, render, before, op, key);
      NeverCommitted(h, config, states, ops, n, key);
    } else {
      FixedTimes(h, config, render, states, ops, n - 1, key);
      CommitsFixedStep(h, config, render, states, ops, n, key);
      if Commits(h, config, before, op, key) {
        LedgersAlwaysHold(h, config, states, ops, n - 1);
        assert LedgerInv(h.event, key, before.cases[key], before.eventIds);
        CommitFixed(h, config, render, before, op, key);
      } else {
        CaseStep(h, config, before, op, key);
      }
    }
  }

  lemma AbsentRefuses(h: Hashes, config: Config, db: Database, op: Op, key: CaseKey)
    requires key !in db.cases
    ensures !Commits(h, config, db, op, key)
  {
  }

  lemma AbsentBefore(h: Hashes, config: Config, states: seq<Database>, ops: seq<Op>, i: nat, n: nat, key: CaseKey)
    requires Behavior(h, config, states, ops) && i <= n < |states| && key !in states[n].cases
    ensures key !in states[i].cases
  {
    if key in states[i].cases {
      CasePersists(h, config, states, ops, key, i, n);
    }
  }

  lemma NeverCommitted(h: Hashes, config: Config, states: seq<Database>, ops: seq<Op>, n: nat, key: CaseKey)
    requires Behavior(h, config, states, ops) && 0 < n < |states| && key !in states[n - 1].cases
    ensures forall i :: 0 <= i < n ==> !Commits(h, config, states[i], ops[i], key)
  {
    forall i | 0 <= i < n ensures !Commits(h, config, states[i], ops[i], key) {
      AbsentBefore(h, config, states, ops, i, n - 1, key);
      AbsentRefuses(h, config, states[i], ops[i], key);
    }
  }

  ghost predicate CollisionFree(sha: Str -> Str, rows: seq<Event>, read: seq<Event>) {
    forall i :: 0 <= i < |rows| && i < |read| ==> !EventCollision(sha, rows[i], read[i])
  }

  lemma RowsWellFormed(key: CaseKey, c: Case)
    requires Numbered(c) && AllPlaced(key, c)
    ensures AllWellFormed(Rows(c))
  {
    forall i | 0 <= i < c.sequence ensures EventWellFormed(Rows(c)[i]) && JsonDefined(Rows(c)[i]) {
      assert Placed(key, c.events[i + 1], i + 1);
    }
  }

  /** What the verifier reports about one whole ledger. */
  lemma VerifierReports(sha: Str -> Str, render: Str -> Str, rows: seq<Event>, read: seq<Event>)
    requires Chained(Hashing(sha), rows) && AllWellFormed(rows)
    requires AllReadAs(render, FirstRows(rows), read) && AllWellFormed(read)
    ensures |read| == |FirstRows(rows)| && HeadDigest(read) == HeadDigest(FirstRows(rows))
    ensures CollisionFree(sha, rows, read) ==> (Chained(Hashing(sha), read) <==> AllFixed(render, FirstRows(rows)))
  {
    hide Chained, AllWellFormed;
    VerifierAgrees(sha, render, rows, read);
  }

  /** The first thousand events end in the head row exactly when there are no more. */
  lemma HeadWithinReach(key: CaseKey, c: Case)
    requires Numbered(c) && AllPlaced(key, c) && HeadIsLast(c) && DigestsUnique(c)
    ensures HeadDigest(FirstRows(Rows(c))) == HeadOf(c) <==> c.sequence <= READ_LIMIT
  {
    var first := FirstRows(Rows(c));
    assert HeadDigest(first) == Some(c.events[|first|].eventDigest);
  }

  /**
   The verifier against the writer, for a case of any reachable state. It reports the digest of the case's
   head row exactly when the case has at most a thousand events. Whatever their number, it accepts exactly
   when no command accepted among the first thousand supplied a time that the store renders differently,
   collisions aside.
   */
  lemma VerifierMatchesWriter(sha: Str -> Str, h: Hashes, config: Config, render: Str -> Str, states: seq<Database>,
                              ops: seq<Op>, n: nat, key: CaseKey, read: seq<Event>)
    requires h.event == Hashing(sha) && FromEmpty(h, config, states, ops) && n < |states| && ClockFixed(render, ops)
    requires key in states[n].cases && Numbered(states[n].cases[key])
    requires AllReadAs(render, FirstRows(Rows(states[n].cases[key])), read) && AllWellFormed(read)
    ensures HeadDigest(read) == HeadOf(states[n].cases[key]) <==> states[n].cases[key].sequence <= 1_000
    ensures CollisionFree(sha, Rows(states[n].cases[key]), read) ==>
              (Chained(Hashing(sha), read) <==> CommitsFixed(h, config, render, states, ops, n, key))
  {
    HashingIsEnvelopeOnly(sha);
    LedgersAlwaysHold(h, config, states, ops, n);
    RowsWellFormed(key, states[n].cases[key]);
    VerifierReports(sha, render, Rows(states[n].cases[key]), read);
    HeadWithinReach(key, states[n].cases[key]);
    FixedTimes(h, config, render, states, ops, n, key);
  }
}
