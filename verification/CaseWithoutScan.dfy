/**
 With the evidence scan not required, evidence becomes a fact and a case is decided: one behavior of the case
 store from its empty start to an approved case.

 - The case is opened and evidence registered for it.
 - The evidence is linked, a claim is proposed on it, and the claim is accepted as a fact.
 - A recommendation to approve is submitted, and a gate authorizes it.
 - The case is suspended and then moved to human review.
 - A human with the role finalizes the disposition.

 `GoesOn` adds one command to the behavior; what each command leaves is said about the rows alone.
 */
module CaseWithoutScan {
  import opened CodeUnits
  import opened Prelude
  import opened Json
  import opened EventChain
  import opened CaseCommands
  import opened CaseLedger
  import opened CaseChain
  import CaseProvenance
  import opened CaseWitnesses

  const REVIEWER := Actor(Human, [], None, [ANALYST])
  const EVIDENCE: Str := [1]
  const CLAIM: Str := [2]
  const FACT: Str := [3]
  const ADVICE: Str := [4]
  const GATE: Str := [5]
  const DECISION: Str := [6]

  /** The ids a case at sequence `n` uses next, longer than all before. */
  function Fresh(n: nat): Str {
    seq(n + 1, i => 0)
  }

  function Next(n: nat, body: Body): Command {
    Command(Fresh(n), [], [], REVIEWER, Authority([], [], []), body, n, Fresh(n), None)
  }

  function Around(n: nat): Env {
    Env(Fresh(n), Fresh(n), [], Object([]))
  }

  ghost predicate Short(ids: set<Str>, n: nat) {
    forall id :: id in ids ==> |id| <= n
  }

  ghost predicate ShortIds(c: Case) {
    Short(c.commandIds, c.sequence) && Short(c.receipts.Keys, c.sequence)
  }

  /**
   The case has these rows and this status, under no particular plan, and no id in use is longer than its
   sequence.
   */
  ghost predicate At(c: Case, t: Tables, status: Status) {
    ShortIds(c) && c.planDigest == [] && c.policyDigest == [] && c.status == status && Rowed(c.tables) == t
  }

  ghost predicate Reached(h: Hashes, db: Database, t: Tables, status: Status) {
    && LedgersHold(h.event, db)
    && KEY in db.cases && At(db.cases[KEY], t, status) && Short(db.eventIds, db.cases[KEY].sequence)
  }

  /** The rows apart from lineage. */
  function Rowed(t: Tables): Tables {
    t.(lineage := multiset{})
  }

  ghost predicate Registered(db: Database) {
    && ([], EVIDENCE) in db.evidence
    && db.evidence[([], EVIDENCE)].caseId == [] && db.evidence[([], EVIDENCE)].digestVerified
  }

  ghost predicate Telling(h: Hashes) {
    EnvelopeOnly(h.event) && IdsTell(h.event) && h.caseId([], CREATION_KEY) == [] && h.commandId([], CREATION_KEY) == []
  }

  lemma AdmitsFresh(h: Hashes, c: Case, eventIds: set<Str>, command: Command, mutation: Mutation, env: Env)
    requires EnvelopeOnly(h.event) && IdsTell(h.event) && LedgerInv(h.event, KEY, c, eventIds)
    requires env.eventId !in eventIds && command.commandId !in c.commandIds && command.idempotencyKey !in c.receipts
    ensures Admit(h, c, eventIds, command, mutation, env).Ok?
  {
    var input := CommandInput(c, command, mutation, env);
    var e := NewEvent(h, input, env);
    NewEventDigested(h, input, env);
    forall k | k in c.events ensures c.events[k].eventDigest != e.eventDigest {
      assert Rows(c)[k - 1] == c.events[k];
      assert Linked(h.event, Rows(c), k - 1);
    }
  }

  /** What an admitted command leaves of ids, rows and status. */
  ghost predicate Continues(c: Case, command: Command, mutation: Mutation, after: Case) {
    && after.sequence == c.sequence + 1 && after.planDigest == c.planDigest && after.policyDigest == c.policyDigest
    && after.commandIds == c.commandIds + {command.commandId}
    && after.receipts.Keys == c.receipts.Keys + {command.idempotencyKey}
    && Rowed(after.tables) == Rowed(mutation.tables)
    && after.status == Then(c.status, mutation)
  }

  function Then(status: Status, mutation: Mutation): Status {
    if mutation.status.Some? then mutation.status.value else status
  }

  lemma AdmittedContinues(h: Hashes, c: Case, eventIds: set<Str>, command: Command, mutation: Mutation, env: Env,
                          after: Case)
    requires Admit(h, c, eventIds, command, mutation, env) == Ok(after)
    ensures Continues(c, command, mutation, after) && after.sequence == c.sequence + 1
    ensures c.sequence + 1 in after.events && after.events[c.sequence + 1].eventId == env.eventId
  {
  }

  lemma SubmitCommits(h: Hashes, db: Database, command: Command, mutation: Mutation, env: Env, after: Case)
    requires KeyOf(command) == KEY && KEY in db.cases && command.idempotencyKey !in db.cases[KEY].receipts
    requires AuthorityRefusal(db.cases[KEY], command).None?
    requires Mutates(SETTINGS, db, db.cases[KEY], command, env, mutation)
    requires Admit(h, db.cases[KEY], db.eventIds, command, mutation, env) == Ok(after)
    requires db.cases[KEY].sequence + 1 in after.events
    ensures Submit(h, SETTINGS, db, command, env).0
         == Committed(db, KEY, after, after.events[db.cases[KEY].sequence + 1])
  {
    hide Admit, Mutate;
  }

  lemma ContinuesAt(c: Case, t: Tables, status: Status, body: Body, mutation: Mutation, after: Case)
    requires At(c, t, status) && Continues(c, Next(c.sequence, body), mutation, after)
    ensures At(after, Rowed(mutation.tables), Then(status, mutation))
  {
  }

  /** The case accepts its next command whatever the mutation leaves. */
  lemma ReachedAdmits(h: Hashes, db: Database, t: Tables, status: Status, command: Command, mutation: Mutation,
                      env: Env)
    returns (d: Case)
    requires Telling(h) && Reached(h, db, t, status)
    requires var n := db.cases[KEY].sequence;
             command == Next(n, command.body) && env == Around(n)
    ensures Admit(h, db.cases[KEY], db.eventIds, command, mutation, env) == Ok(d)
    ensures AuthorityRefusal(db.cases[KEY], command).None?
    ensures command.idempotencyKey !in db.cases[KEY].receipts
  {
    hide Admit, LedgerInv;
    var c := db.cases[KEY];
    assert |Fresh(c.sequence)| == c.sequence + 1;
    AdmitsFresh(h, c, db.eventIds, command, mutation, env);
    assert NormalizeDigest([]) == [];
    d := Admit(h, c, db.eventIds, command, mutation, env).value;
  }

  /** The step of that command leaves the admitted case. */
  lemma StepCommits(h: Hashes, db: Database, command: Command, mutation: Mutation, env: Env, d: Case)
    returns (e: Event)
    requires Telling(h) && LedgersHold(h.event, db) && KeyOf(command) == KEY && KEY in db.cases
    requires command.idempotencyKey !in db.cases[KEY].receipts && AuthorityRefusal(db.cases[KEY], command).None?
    requires Mutates(SETTINGS, db, db.cases[KEY], command, env, mutation)
    requires Admit(h, db.cases[KEY], db.eventIds, command, mutation, env) == Ok(d)
    ensures Step(h, SETTINGS, db, SubmitCommand(command, env)) == Committed(db, KEY, d, e) && e.eventId == env.eventId
    ensures LedgersHold(h.event, Committed(db, KEY, d, e))
  {
    hide Admit, Submit, Mutates, AuthorityRefusal, LedgersHold, Continues, Committed, SceneOf;
    AdmittedContinues(h, db.cases[KEY], db.eventIds, command, mutation, env, d);
    SubmitCommits(h, db, command, mutation, env, d);
    e := d.events[db.cases[KEY].sequence + 1];
    StepKeeps(h, SETTINGS, db, SubmitCommand(command, env));
  }

  lemma StillReached(h: Hashes, db: Database, d: Case, e: Event, t: Tables, status: Status)
    requires KEY in db.cases && Short(db.eventIds, db.cases[KEY].sequence)
    requires d.sequence == db.cases[KEY].sequence + 1 && |e.eventId| == d.sequence && At(d, t, status)
    requires LedgersHold(h.event, Committed(db, KEY, d, e))
    ensures Reached(h, Committed(db, KEY, d, e), t, status) && Committed(db, KEY, d, e).evidence == db.evidence
  {
    hide LedgersHold, At;
  }

  /** The behavior so far ends in this state. */
  ghost predicate EndsIn(h: Hashes, states: seq<Database>, ops: seq<Op>, db: Database) {
    FromEmpty(h, SETTINGS, states, ops) && states[|ops|] == db
  }

  /** It ends with the case at these rows and this status. */
  ghost predicate Stands(h: Hashes, states: seq<Database>, ops: seq<Op>, db: Database, t: Tables, status: Status) {
    Telling(h) && EndsIn(h, states, ops, db) && Reached(h, db, t, status)
  }

  lemma OneMore(h: Hashes, states: seq<Database>, ops: seq<Op>, db: Database, op: Op, after: Database)
    requires EndsIn(h, states, ops, db) && after == Step(h, SETTINGS, db, op)
    ensures EndsIn(h, states + [after], ops + [op], after)
  {
    hide Step;
  }

  /** The behavior goes on with the next command on the case, which its rows allow. */
  lemma GoesOn(h: Hashes, states: seq<Database>, ops: seq<Op>, db: Database, t: Tables, status: Status, body: Body,
               mutation: Mutation)
    returns (states': seq<Database>, ops': seq<Op>, after: Database)
    requires Stands(h, states, ops, db, t, status)
    requires var n := db.cases[KEY].sequence;
             Mutates(SETTINGS, db, db.cases[KEY], Next(n, body), Around(n), mutation)
    ensures Stands(h, states', ops', after, Rowed(mutation.tables), Then(status, mutation))
    ensures KEY in after.cases && At(after.cases[KEY], Rowed(mutation.tables), Then(status, mutation))
  {
    hide Step, Admit, Mutates, AuthorityRefusal, LedgersHold, Continues, At, Committed, EndsIn, Telling, Then;
    var c := db.cases[KEY];
    var command, env := Next(c.sequence, body), Around(c.sequence);
    var d := ReachedAdmits(h, db, t, status, command, mutation, env);
    AdmittedContinues(h, c, db.eventIds, command, mutation, env, d);
    ContinuesAt(c, t, status, body, mutation, d);
    var e := StepCommits(h, db, command, mutation, env, d);
    var op := SubmitCommand(command, env);
    after := Step(h, SETTINGS, db, op);
    StillReached(h, db, d, e, Rowed(mutation.tables), Then(status, mutation));
    OneMore(h, states, ops, db, op, after);
    states', ops' := states + [after], ops + [op];
  }

  // ----- The rows each command leaves -----

  const LINKED: Tables := NO_ROWS.(linked := {EVIDENCE})
  const CLAIMED: Tables := LINKED.(claims := map[CLAIM := Claim([EVIDENCE], false)])
  const ACCEPTED: Tables :=
    LINKED.(claims := map[CLAIM := Claim([EVIDENCE], true)], facts := map[FACT := Fact([CLAIM])])

  /** The command, as the next one on the case, leaves the mutation. */
  ghost predicate Leaves(db: Database, c: Case, body: Body, mutation: Mutation) {
    Mutates(SETTINGS, db, c, Next(c.sequence, body), Around(c.sequence), mutation)
  }

  lemma Linking(db: Database, c: Case) returns (mutation: Mutation)
    requires At(c, NO_ROWS, Intake) && Registered(db)
    ensures Leaves(db, c, LinkEvidence(EVIDENCE), mutation)
    ensures Rowed(mutation.tables) == LINKED && mutation.status.None?
  {
    assert c.tables.linked == Rowed(c.tables).linked;
    assert c.tables.linked + {EVIDENCE} == {EVIDENCE};
    mutation := NoLineage(c.tables.(linked := {EVIDENCE}), [EVIDENCE], EVIDENCE).value;
  }

  lemma OneFound(id: Str, ids: set<Str>)
    requires id in ids
    ensures AllFound([id], ids)
  {
    AllFoundExactly([id], ids);
  }

  lemma Proposing(db: Database, c: Case) returns (mutation: Mutation)
    requires At(c, LINKED, Intake)
    ensures Leaves(db, c, ProposeClaim(Some(CLAIM), [EVIDENCE]), mutation)
    ensures Rowed(mutation.tables) == CLAIMED && mutation.status.None?
  {
    assert c.tables.linked == Rowed(c.tables).linked && c.tables.claims == Rowed(c.tables).claims;
    OneFound(EVIDENCE, {EVIDENCE});
    mutation := DoProposeClaim(c.tables, CLAIM, [EVIDENCE]).value;
  }

  lemma AcceptedFact(t: Tables) returns (mutation: Mutation)
    requires Rowed(t) == CLAIMED
    ensures DoAcceptClaim(t, FACT, [CLAIM]) == Ok(mutation)
    ensures Rowed(mutation.tables) == ACCEPTED && mutation.status.None?
  {
    assert t.claims == Rowed(t).claims && t.claims.Keys == {CLAIM} && t.facts == Rowed(t).facts;
    OneFound(CLAIM, {CLAIM});
    mutation := DoAcceptClaim(t, FACT, [CLAIM]).value;
    assert mutation.tables.claims == ACCEPTED.claims;
  }

  lemma Accepting(db: Database, c: Case) returns (mutation: Mutation)
    requires At(c, CLAIMED, Intake)
    ensures Leaves(db, c, AcceptClaimAsFact(Some(FACT), [CLAIM]), mutation)
    ensures Rowed(mutation.tables) == ACCEPTED && mutation.status.None?
  {
    hide DoAcceptClaim;
    mutation := AcceptedFact(c.tables);
  }

  const ADVISE: Body := SubmitDecisionRecommendation(Some(ADVICE), Approve, [], [EVIDENCE])

  lemma Advising(db: Database, c: Case, t: Tables) returns (mutation: Mutation, row: Recommendation)
    requires At(c, t, Intake) && t.recommendations == map[]
    ensures Leaves(db, c, ADVISE, mutation)
    ensures Rowed(mutation.tables) == t.(recommendations := map[ADVICE := row]) && mutation.status.None?
  {
    assert c.tables.recommendations == Rowed(c.tables).recommendations;
    row := Recommendation(Approve, c.sequence, [], [EVIDENCE], REVIEWER);
    mutation := DoRecommend(c.tables, ADVICE, row).value;
  }

  const AUTHORIZE: Body := RecordGateResult(Some(GATE), ADVICE, true)

  lemma Authorizing(db: Database, c: Case, t: Tables) returns (mutation: Mutation)
    requires At(c, t, Intake) && ADVICE in t.recommendations && t.gates == map[]
    ensures Leaves(db, c, AUTHORIZE, mutation) && mutation.status.None?
    ensures Rowed(mutation.tables) == t.(gates := mutation.tables.gates)
    ensures GateAuthorizes(mutation.tables, GATE, ADVICE)
  {
    assert c.tables.recommendations == Rowed(c.tables).recommendations && c.tables.gates == Rowed(c.tables).gates;
    mutation := DoGate(c.tables, GATE, CaseCommands.Gate(ADVICE, true, c.sequence)).value;
  }

  lemma MovedRows(scene: CaseCommands.Scene, to: Status)
    requires to in AllowedTransitions(scene.status) && to != Approved && to != Declined
    ensures Mutate(scene, TransitionCaseStatus(to)) == Ok(Mutation(scene.tables, Some(to), [], None, []))
  {
  }

  lemma Moving(db: Database, c: Case, t: Tables, from: Status, to: Status) returns (mutation: Mutation)
    requires At(c, t, from) && to in AllowedTransitions(from) && to != Approved && to != Declined
    ensures Leaves(db, c, TransitionCaseStatus(to), mutation)
    ensures Rowed(mutation.tables) == t && mutation.status == Some(to)
  {
    hide Mutate;
    MovedRows(SceneOf(SETTINGS, db.evidence, c, Next(c.sequence, TransitionCaseStatus(to)), Around(c.sequence)), to);
    mutation := Mutation(c.tables, Some(to), [], None, []);
  }

  const FINAL := Disposition(ToApproved, ADVICE, GATE, REVIEWER)

  const DECIDE: Body := FinalizeDisposition(Some(DECISION), ADVICE, GATE, ToApproved, [])

  /** The authorizing gate is there, nothing contradicts, and nothing is decided yet. */
  predicate Decidable(t: Tables) {
    GateAuthorizes(t, GATE, ADVICE) && t.contradictions == map[] && t.dispositions == map[]
  }

  lemma DecidedRows(rows: Tables, t: Tables) returns (mutation: Mutation)
    requires Rowed(rows) == t && Decidable(t)
    ensures DoFinalize(rows, HumanReview, DECISION, FINAL, []) == Ok(mutation) && mutation.status == Some(Approved)
    ensures Rowed(mutation.tables) == t.(dispositions := map[DECISION := FINAL])
  {
    assert ANALYST in REVIEWER.roles;
    assert rows.contradictions == Rowed(rows).contradictions && rows.gates == Rowed(rows).gates;
    assert !Blocked(rows);
    mutation := DoFinalize(rows, HumanReview, DECISION, FINAL, []).value;
  }

  lemma Deciding(db: Database, c: Case, t: Tables) returns (mutation: Mutation)
    requires At(c, t, HumanReview) && Decidable(t)
    ensures Leaves(db, c, DECIDE, mutation)
    ensures Rowed(mutation.tables) == t.(dispositions := map[DECISION := FINAL]) && mutation.status == Some(Approved)
  {
    hide DoFinalize, Decidable;
    mutation := DecidedRows(c.tables, t);
  }

  // ----- Opening the case and registering evidence -----

  lemma Opens(h: Hashes) returns (op: Op, after: Database)
    requires Telling(h)
    ensures after == Step(h, SETTINGS, EMPTY, op) && Reached(h, after, NO_ROWS, Intake)
    ensures after.evidence == map[] && after.registrations == map[]
  {
    hide LedgerInv;
    op := Opening([]);
    after := Step(h, SETTINGS, EMPTY, op);
    CreationOpens(h, []);
    StepKeeps(h, SETTINGS, EMPTY, op);
  }

  const FIRST := Registration([], [], Some([0]), None)

  const REGISTERED_AT := Env(EVIDENCE, [], [], Object([]))

  lemma RegistersFirst(h: Hashes, db: Database)
    requires KEY in db.cases && db.evidence == map[] && db.registrations == map[]
    ensures Register(h, SETTINGS, db, FIRST, EVIDENCE, REGISTERED_AT).0
         == WithEvidence(h, db, FIRST, [0], EVIDENCE, REGISTERED_AT)
  {
  }

  lemma StoresFirst(h: Hashes, db: Database)
    ensures var after := WithEvidence(h, db, FIRST, [0], EVIDENCE, REGISTERED_AT);
            Registered(after) && after.cases == db.cases && after.eventIds == db.eventIds
  {
  }

  lemma Registers(h: Hashes, db: Database, t: Tables, status: Status) returns (op: Op, after: Database)
    requires Telling(h) && Reached(h, db, t, status) && db.evidence == map[] && db.registrations == map[]
    ensures after == Step(h, SETTINGS, db, op) && Reached(h, after, t, status) && Registered(after)
  {
    hide Register, WithEvidence, Registered, LedgerInv, At;
    op := RegisterEvidence(FIRST, EVIDENCE, REGISTERED_AT);
    after := Step(h, SETTINGS, db, op);
    RegistersFirst(h, db);
    StoresFirst(h, db);
  }

  // ----- The behavior -----

  /** A case with evidence registered for it. */
  lemma RegisteredCase(h: Hashes) returns (states: seq<Database>, ops: seq<Op>, db: Database)
    requires Telling(h)
    ensures Stands(h, states, ops, db, NO_ROWS, Intake) && Registered(db)
    ensures KEY in db.cases && At(db.cases[KEY], NO_ROWS, Intake)
  {
    hide Step, LedgersHold, At, Registered;
    states, ops := [EMPTY], [];
    var op, d1 := Opens(h);
    OneMore(h, states, ops, EMPTY, op, d1);
    states, ops := states + [d1], ops + [op];
    op, db := Registers(h, d1, NO_ROWS, Intake);
    OneMore(h, states, ops, d1, op, db);
    states, ops := states + [db], ops + [op];
  }

  /** From an empty store to a fact that rests on linked evidence. */
  lemma FactWithoutScan(h: Hashes) returns (states: seq<Database>, ops: seq<Op>, db: Database)
    requires Telling(h)
    ensures Stands(h, states, ops, db, ACCEPTED, Intake) && KEY in db.cases && At(db.cases[KEY], ACCEPTED, Intake)
  {
    hide Stands, At, Registered, Mutates, Rowed;
    states, ops, db := RegisteredCase(h);
    var mutation := Linking(db, db.cases[KEY]);
    states, ops, db := GoesOn(h, states, ops, db, NO_ROWS, Intake, LinkEvidence(EVIDENCE), mutation);
    mutation := Proposing(db, db.cases[KEY]);
    states, ops, db := GoesOn(h, states, ops, db, LINKED, Intake, ProposeClaim(Some(CLAIM), [EVIDENCE]), mutation);
    mutation := Accepting(db, db.cases[KEY]);
    states, ops, db := GoesOn(h, states, ops, db, CLAIMED, Intake, AcceptClaimAsFact(Some(FACT), [CLAIM]), mutation);
  }

  /** The case is approved, and its rows still hold the fact and what it rests on. */
  predicate ApprovedOnFact(c: Case) {
    && c.status == Approved && DECISION in c.tables.dispositions
    && EVIDENCE in c.tables.linked
    && CaseProvenance.AssertedBy(c.tables, EVIDENCE, CLAIM) && CaseProvenance.BasisOf(c.tables, CLAIM, FACT)
  }

  lemma StillOnFact(c: Case, t: Tables)
    requires At(c, t, Approved) && DECISION in t.dispositions
    requires t.linked == ACCEPTED.linked && t.claims == ACCEPTED.claims && t.facts == ACCEPTED.facts
    ensures ApprovedOnFact(c)
  {
    assert c.tables.linked == t.linked && c.tables.dispositions == t.dispositions;
    assert c.tables.claims == t.claims && c.tables.facts == t.facts;
  }

  /** From there to the human review of an authorized recommendation. */
  lemma UpForReview(h: Hashes) returns (states: seq<Database>, ops: seq<Op>, db: Database, t: Tables)
    requires Telling(h)
    ensures Stands(h, states, ops, db, t, HumanReview) && KEY in db.cases && At(db.cases[KEY], t, HumanReview)
    ensures Decidable(t)
    ensures t.linked == ACCEPTED.linked && t.claims == ACCEPTED.claims && t.facts == ACCEPTED.facts
  {
    hide Stands, At, Mutates, Rowed;
    states, ops, db := FactWithoutScan(h);
    var mutation, row := Advising(db, db.cases[KEY], ACCEPTED);
    states, ops, db := GoesOn(h, states, ops, db, ACCEPTED, Intake, ADVISE, mutation);
    t := ACCEPTED.(recommendations := map[ADVICE := row]);
    mutation := Authorizing(db, db.cases[KEY], t);
    states, ops, db := GoesOn(h, states, ops, db, t, Intake, AUTHORIZE, mutation);
    t := t.(gates := mutation.tables.gates);
    mutation := Moving(db, db.cases[KEY], t, Intake, Suspended);
    states, ops, db := GoesOn(h, states, ops, db, t, Intake, TransitionCaseStatus(Suspended), mutation);
    mutation := Moving(db, db.cases[KEY], t, Suspended, HumanReview);
    states, ops, db := GoesOn(h, states, ops, db, t, Suspended, TransitionCaseStatus(HumanReview), mutation);
  }

  /**
   Without the scan requirement some behavior links evidence, accepts a claim on it as a fact, and ends with
   the case approved.
   */
  lemma DecidedWithoutScan() returns (states: seq<Database>, ops: seq<Op>)
    ensures !SETTINGS.requireScan && FromEmpty(SampleHashes(), SETTINGS, states, ops)
    ensures KEY in states[|ops|].cases && ApprovedOnFact(states[|ops|].cases[KEY])
  {
    hide Step, Reached, At, Mutates, Rowed, Decidable, ApprovedOnFact;
    var h := SampleHashes();
    IdentityTells();
    var db, t;
    states, ops, db, t := UpForReview(h);
    var mutation := Deciding(db, db.cases[KEY], t);
    states, ops, db := GoesOn(h, states, ops, db, t, HumanReview, DECIDE, mutation);
    StillOnFact(db.cases[KEY], t.(dispositions := map[DECISION := FINAL]));
  }
}
