/**
 Runs of the case store that end in what its users would not expect.

 - `LateTimeAccepted`: a command whose time the store renders differently is accepted, and then the ledger
   does not verify. `WholeSecondAccepted` names such a time.
 - `RetryRefused`: a case write that a run's first attempt made is refused in its second.

 The runs start from the empty store, under an event hash that gives its input back: no collision is
 involved.
 */
module CaseWitnesses {
  import opened CodeUnits
  import opened Prelude
  import opened Json
  import opened EventChain
  import CaseCommands
  import opened CaseLedger
  import opened CaseChain
  import opened CaseReplay

  /** A hash that cannot collide. */
  function Identity(): Str -> Str {
    (text: Str) => text
  }

  lemma NoCollision(a: Event, b: Event)
    ensures !EventCollision(Identity(), a, b)
  {
  }

  lemma IdsSeparate(a: Event, b: Event)
    requires EventWellFormed(a) && EventWellFormed(b) && JsonDefined(a) && a.eventId != b.eventId
    ensures Hashing(Identity())(a) != Hashing(Identity())(b)
  {
    EventDigestSeparates(Identity(), a, b);
    NoCollision(a, b);
  }

  function SampleHashes(): Hashes {
    Hashes(Hashing(Identity()), (c: Command) => [], (c: Creation) => [], (r: Registration) => [], (b: Bytes) => [],
           (a: CaseCommands.Actor) => [], (t: Str, k: Str) => [], (c: Str, k: Str) => [])
  }

  const SETTINGS := Config(false, 1)
  const KEY := CaseKey([], [])
  const ACTOR := CaseCommands.Actor(CaseCommands.System, [], None, [])
  const CREATION_KEY: Str := [0]

  function At(eventId: Str, now: Str): Env {
    Env(eventId, eventId, now, Object([]))
  }

  function Opening(now: Str): Op {
    CreateCase(Creation([], None, [], [], ACTOR), CREATION_KEY, At([0], now))
  }

  /** The one case after its creation. */
  ghost predicate JustOpened(hash: EventHash, db: Database) {
    && KEY in db.cases && db.eventIds == {[0]}
    && var c := db.cases[KEY];
       && c.sequence == 1 && c.status == CaseCommands.Intake && c.planDigest == [] && c.policyDigest == []
       && c.tables == CaseCommands.NO_ROWS
       && c.receipts.Keys == {CREATION_KEY} && c.commandIds == {[]} && c.events.Keys == {1}
         && FirstEvent(hash, c.events[1])
  }

  ghost predicate FirstEvent(hash: EventHash, e: Event) {
    e.eventId == [0] && EventWellFormed(e) && JsonDefined(e) && e.eventDigest == hash(e)
  }

  lemma NewEventDigested(h: Hashes, input: EventInput, env: Env)
    requires EnvelopeOnly(h.event)
    ensures var e := NewEvent(h, input, env);
            EventWellFormed(e) && JsonDefined(e) && e.eventDigest == h.event(e) && e.eventId == env.eventId
              && e.caseSequence == input.sequence
  {
    NewEventWellFormed(h, input, env);
    DigestedLinks(h.event, Undigested(input, env));
  }

  lemma CreationOpens(h: Hashes, now: Str)
    requires EnvelopeOnly(h.event) && h.caseId([], CREATION_KEY) == [] && h.commandId([], CREATION_KEY) == []
    ensures ReplyTo(h, SETTINGS, EMPTY, Opening(now)).Accepted?
            && JustOpened(h.event, Step(h, SETTINGS, EMPTY, Opening(now)))
  {
    NewEventDigested(h, CreatedInput(h, Opening(now).creation, KEY, CREATION_KEY, At([0], now)), At([0], now));
    assert NormalizeDigest([]) == [];
  }

  /** A command on the new case, under a key and an id it has not seen. */
  predicate Fits(command: Command) {
    && KeyOf(command) == KEY && command.expectedSequence == 1 && command.body == CaseCommands.AddSubject(None)
    && command.authority.planDigest == [] && command.authority.policyDigest == []
    && command.commandId != [] && command.idempotencyKey != CREATION_KEY
  }

  /** Events with different ids have different digests. */
  ghost predicate IdsTell(hash: EventHash) {
    forall a, b :: EventWellFormed(a) && EventWellFormed(b) && JsonDefined(a) && a.eventId != b.eventId
      ==> hash(a) != hash(b)
  }

  lemma IdentityTells()
    ensures IdsTell(Hashing(Identity())) && EnvelopeOnly(Hashing(Identity()))
  {
    HashingIsEnvelopeOnly(Identity());
    forall a, b | EventWellFormed(a) && EventWellFormed(b) && JsonDefined(a) && a.eventId != b.eventId
      ensures Hashing(Identity())(a) != Hashing(Identity())(b)
    {
      IdsSeparate(a, b);
    }
  }

  lemma FirstAdmitted(h: Hashes, c: Case, command: Command, mutation: CaseCommands.Mutation, env: Env)
    requires EnvelopeOnly(h.event) && IdsTell(h.event) && env.eventId == [1] && Fits(command)
    requires c.sequence == 1 && c.receipts.Keys == {CREATION_KEY} && c.commandIds == {[]}
    requires c.events.Keys == {1} && FirstEvent(h.event, c.events[1])
    ensures Admit(h, c, {[0]}, command, mutation, env).Ok?
  {
    var e := NewEvent(h, CommandInput(c, command, mutation, env), env);
    NewEventDigested(h, CommandInput(c, command, mutation, env), env);
    assert EventFits(c, {[0]}, e);
  }

  lemma FirstCommandAccepted(h: Hashes, db: Database, command: Command, env: Env)
    requires EnvelopeOnly(h.event) && IdsTell(h.event) && env.eventId == [1] && Fits(command) && JustOpened(h.event, db)
    ensures Commits(h, SETTINGS, db, SubmitCommand(command, env), KEY)
  {
    var c := db.cases[KEY];
    var scene := SceneOf(SETTINGS, db.evidence, c, command, env);
    var mutation :=
        CaseCommands.NoLineage(c.tables.(objects := {(CaseCommands.SubjectObject, env.opaqueId)}), [],
                               env.opaqueId).value;
    assert CaseCommands.Mutate(scene, command.body) == Ok(mutation) by {
      assert c.tables.objects + {(CaseCommands.SubjectObject, env.opaqueId)}
             == {(CaseCommands.SubjectObject, env.opaqueId)};
    }
    FirstAdmitted(h, c, command, mutation, env);
    assert NormalizeDigest([]) == [] && AuthorityRefusal(c, command).None?;
  }

  /** Creation and one command, as a behavior. */
  lemma TwoSteps(h: Hashes, now: Str, command: Command) returns (states: seq<Database>, ops: seq<Op>)
    requires EnvelopeOnly(h.event) && IdsTell(h.event) && Fits(command)
    requires h.caseId([], CREATION_KEY) == [] && h.commandId([], CREATION_KEY) == []
    ensures ops == [Opening(now), SubmitCommand(command, At([1], now))] && FromEmpty(h, SETTINGS, states, ops)
    ensures JustOpened(h.event, states[1]) && Commits(h, SETTINGS, states[1], ops[1], KEY)
  {
    var first := Step(h, SETTINGS, EMPTY, Opening(now));
    CreationOpens(h, now);
    FirstCommandAccepted(h, first, command, At([1], now));
    states, ops := Behave(h, Opening(now), SubmitCommand(command, At([1], now)));
  }

  lemma Behave(h: Hashes, first: Op, second: Op) returns (states: seq<Database>, ops: seq<Op>)
    ensures ops == [first, second] && FromEmpty(h, SETTINGS, states, ops)
            && states[1] == Step(h, SETTINGS, EMPTY, first)
  {
    var s1 := Step(h, SETTINGS, EMPTY, first);
    var s2 := Step(h, SETTINGS, s1, second);
    states, ops := [EMPTY, s1, s2], [first, second];
  }

  // ----- A time the store renders differently -----

  function LateCommand(at: Str): Command {
    Command([1], [], [], ACTOR, Authority([], [], []), CaseCommands.AddSubject(None), 1, [1], Some(at))
  }

  /** A list the query may return for the rows. */
  ghost predicate MayRead(render: Str -> Str, rows: seq<Event>, read: seq<Event>) {
    AllReadAs(render, FirstRows(rows), read) && AllWellFormed(read)
  }

  /** Something is read back for the rows, and nothing that may be passes the verifier. */
  ghost predicate NeverVerifies(render: Str -> Str, rows: seq<Event>) {
    && (exists read :: MayRead(render, rows, read))
    && (forall read :: MayRead(render, rows, read) ==> !Chained(Hashing(Identity()), read))
  }

  lemma LateReadFails(h: Hashes, render: Str -> Str, states: seq<Database>, ops: seq<Op>, read: seq<Event>)
    requires h.event == Hashing(Identity())
    requires FromEmpty(h, SETTINGS, states, ops) && |ops| == 2 && ClockFixed(render, ops) && KEY in states[2].cases
    requires !CommitsFixed(h, SETTINGS, render, states, ops, 2, KEY)
    requires Numbered(states[2].cases[KEY]) && MayRead(render, Rows(states[2].cases[KEY]), read)
    ensures !Chained(Hashing(Identity()), read)
  {
    hide Step;
    var rows := Rows(states[2].cases[KEY]);
    forall i | 0 <= i < |rows| && i < |read| ensures !EventCollision(Identity(), rows[i], read[i]) {
      NoCollision(rows[i], read[i]);
    }
    VerifierMatchesWriter(Identity(), h, SETTINGS, render, states, ops, 2, KEY, read);
  }

  /** Some list can be read back for the rows of a ledger. */
  lemma MayBeRead(hash: EventHash, render: Str -> Str, c: Case, eventIds: set<Str>)
    requires LedgerInv(hash, KEY, c, eventIds)
    ensures exists read :: MayRead(render, Rows(c), read)
  {
    forall i | 0 <= i < |Rows(c)| ensures EventWellFormed(Rows(c)[i]) && JsonDefined(Rows(c)[i]) {
      assert Rows(c)[i] == c.events[i + 1];
    }
    var read := ReadBack(render, FirstRows(Rows(c)));
    assert MayRead(render, Rows(c), read);
  }

  lemma LateNeverVerifies(h: Hashes, render: Str -> Str, states: seq<Database>, ops: seq<Op>)
    requires h.event == Hashing(Identity())
    requires FromEmpty(h, SETTINGS, states, ops) && |ops| == 2 && ClockFixed(render, ops) && KEY in states[2].cases
    requires !CommitsFixed(h, SETTINGS, render, states, ops, 2, KEY)
    ensures Numbered(states[2].cases[KEY]) && NeverVerifies(render, Rows(states[2].cases[KEY]))
  {
    hide Step, MayRead, ClockFixed, CommitsFixed;
    IdentityTells();
    LedgersAlwaysHold(h, SETTINGS, states, ops, 2);
    assert LedgerInv(Hashing(Identity()), KEY, states[2].cases[KEY], states[2].eventIds);
    MayBeRead(Hashing(Identity()), render, states[2].cases[KEY], states[2].eventIds);
    forall read | MayRead(render, Rows(states[2].cases[KEY]), read) ensures !Chained(Hashing(Identity()), read) {
      LateReadFails(h, render, states, ops, read);
    }
  }

  lemma LateBehavior(h: Hashes, render: Str -> Str, now: Str, at: Str) returns (states: seq<Database>, ops: seq<Op>)
    requires EnvelopeOnly(h.event) && IdsTell(h.event) && render(now) == now && render(at) != at
    requires h.caseId([], CREATION_KEY) == [] && h.commandId([], CREATION_KEY) == []
    ensures FromEmpty(h, SETTINGS, states, ops) && |ops| == 2 && ClockFixed(render, ops)
    ensures ops[1] == SubmitCommand(LateCommand(at), At([1], now))
    ensures ReplyTo(h, SETTINGS, states[1], ops[1]).Accepted? && KEY in states[2].cases
    ensures !CommitsFixed(h, SETTINGS, render, states, ops, 2, KEY)
  {
    states, ops := TwoSteps(h, now, LateCommand(at));
    hide Transact, Commits, CommitsFixed, ClockFixed, JustOpened, WithinReach, SuppliesFixed, Opening;
    LateClock(render, now, at, ops);
    LateStep(h, render, states[1], at, now);
    LateUnfixed(h, render, states, ops);
  }

  lemma LateClock(render: Str -> Str, now: Str, at: Str, ops: seq<Op>)
    requires render(now) == now && ops == [Opening(now), SubmitCommand(LateCommand(at), At([1], now))]
    ensures ClockFixed(render, ops)
  {
  }

  lemma LateStep(h: Hashes, render: Str -> Str, db: Database, at: Str, now: Str)
    requires JustOpened(h.event, db) && render(at) != at
    requires Commits(h, SETTINGS, db, SubmitCommand(LateCommand(at), At([1], now)), KEY)
    ensures var op := SubmitCommand(LateCommand(at), At([1], now));
            && ReplyTo(h, SETTINGS, db, op).Accepted? && KEY in Step(h, SETTINGS, db, op).cases
            && WithinReach(db, KEY) && !SuppliesFixed(render, op)
  {
    hide Transact;
    CaseStep(h, SETTINGS, db, SubmitCommand(LateCommand(at), At([1], now)), KEY);
  }

  lemma LateUnfixed(h: Hashes, render: Str -> Str, states: seq<Database>, ops: seq<Op>)
    requires |states| > 2 && |ops| == 2 && Commits(h, SETTINGS, states[1], ops[1], KEY)
    requires WithinReach(states[1], KEY) && !SuppliesFixed(render, ops[1])
    ensures !CommitsFixed(h, SETTINGS, render, states, ops, 2, KEY)
  {
    hide Commits, WithinReach, SuppliesFixed;
    assert Commits(h, SETTINGS, states[1], ops[1], KEY);
  }

  /**
   Whenever the store renders some time differently from how it may be supplied, a command with that time
   is accepted on a new case, and the case's ledger then fails verification, without any collision.
   */
  lemma LateTimeAccepted(render: Str -> Str, now: Str, at: Str) returns (states: seq<Database>, ops: seq<Op>)
    requires render(now) == now && render(at) != at
    ensures FromEmpty(SampleHashes(), SETTINGS, states, ops) && |ops| == 2 && ClockFixed(render, ops)
    ensures ops[1].SubmitCommand? && ops[1].command.occurredAt == Some(at)
    ensures ReplyTo(SampleHashes(), SETTINGS, states[1], ops[1]).Accepted?
    ensures KEY in states[2].cases && Numbered(states[2].cases[KEY])
            && NeverVerifies(render, Rows(states[2].cases[KEY]))
  {
    var h := SampleHashes();
    IdentityTells();
    states, ops := LateBehavior(h, render, now, at);
    LateNeverVerifies(h, render, states, ops);
  }

  const WHOLE_SECOND: Str := Lit("2026-01-01T00:00:00Z")
  const WITH_MILLIS: Str := Lit("2026-01-01T00:00:00.000Z")

  /** A time without milliseconds, which the command schema accepts and the store renders with them, is enough. */
  lemma WholeSecondAccepted(render: Str -> Str) returns (states: seq<Database>, ops: seq<Op>)
    requires render(WHOLE_SECOND) == WITH_MILLIS && render(WITH_MILLIS) == WITH_MILLIS
    ensures FromEmpty(SampleHashes(), SETTINGS, states, ops) && |ops| == 2 && ClockFixed(render, ops)
    ensures ops[1].SubmitCommand? && ops[1].command.occurredAt == Some(WHOLE_SECOND)
    ensures ReplyTo(SampleHashes(), SETTINGS, states[1], ops[1]).Accepted?
    ensures KEY in states[2].cases && Numbered(states[2].cases[KEY])
            && NeverVerifies(render, Rows(states[2].cases[KEY]))
  {
    assert |WHOLE_SECOND| != |WITH_MILLIS|;
    states, ops := LateTimeAccepted(render, WITH_MILLIS, WHOLE_SECOND);
  }

  // ----- A case write in two attempts -----

  function Attempt(digest: Str -> Str, write: Write, attempt: nat, sequence: nat): Command {
    Command(WriteId(digest, write), [], [], ACTOR, Authority([], [], []), CaseCommands.AddSubject(None), sequence,
            WriteKey(KEY, write, attempt), None)
  }

  lemma WriteFits(digest: Str -> Str, write: Write, attempt: nat)
    ensures Fits(Attempt(digest, write, attempt, 1)) && WriteKey(KEY, write, attempt) != CREATION_KEY
  {
    assert WriteKey(KEY, write, attempt)[0] == SEPARATOR[0];
  }

  lemma SecondAttemptRefused(h: Hashes, db: Database, first: Op, second: Op, digest: Str -> Str, write: Write)
    requires JustOpened(h.event, db) && Commits(h, SETTINGS, db, first, KEY)
    requires IsWrite(digest, KEY, write, 1, first) && IsWrite(digest, KEY, write, 2, second)
    ensures ReplyTo(h, SETTINGS, Step(h, SETTINGS, db, first), second).Refused?
  {
    var after := Step(h, SETTINGS, db, first);
    CommitSpendsId(h, SETTINGS, db, first, KEY);
    var e, receipt := CommitReceipt(h, SETTINGS, db, first, KEY);
    AttemptsSeparateKeys(KEY, write, 1, 2);
    WriteFits(digest, write, 2);
    assert second.command.idempotencyKey !in after.cases[KEY].receipts;
    SpentAnswer(h, SETTINGS, after, second, KEY);
  }

  lemma {:induction false} GoesOn(h: Hashes, states: seq<Database>, ops: seq<Op>, op: Op)
    requires FromEmpty(h, SETTINGS, states, ops)
    ensures FromEmpty(h, SETTINGS, states + [Step(h, SETTINGS, states[|ops|], op)], ops + [op])
  {
  }

  lemma RetryBehavior(h: Hashes, digest: Str -> Str, write: Write, now: Str)
    returns (states: seq<Database>, ops: seq<Op>)
    requires EnvelopeOnly(h.event) && IdsTell(h.event)
    requires h.caseId([], CREATION_KEY) == [] && h.commandId([], CREATION_KEY) == []
    ensures FromEmpty(h, SETTINGS, states, ops) && |ops| == 3
    ensures IsWrite(digest, KEY, write, 1, ops[1]) && ReplyTo(h, SETTINGS, states[1], ops[1]).Accepted?
    ensures IsWrite(digest, KEY, write, 2, ops[2]) && ReplyTo(h, SETTINGS, states[2], ops[2]).Refused?
  {
    WriteFits(digest, write, 1);
    states, ops := TwoSteps(h, now, Attempt(digest, write, 1, 1));
    var again := SubmitCommand(Attempt(digest, write, 2, 2), At([2], now));
    SecondAttemptRefused(h, states[1], ops[1], again, digest, write);
    GoesOn(h, states, ops, again);
    states, ops := states + [Step(h, SETTINGS, states[2], again)], ops + [again];
  }

  /** The first attempt's write is accepted, the run is retried, and the second attempt's is refused. */
  lemma RetryRefused(digest: Str -> Str, write: Write, now: Str) returns (states: seq<Database>, ops: seq<Op>)
    ensures FromEmpty(SampleHashes(), SETTINGS, states, ops) && |ops| == 3
    ensures IsWrite(digest, KEY, write, 1, ops[1]) && ReplyTo(SampleHashes(), SETTINGS, states[1], ops[1]).Accepted?
    ensures IsWrite(digest, KEY, write, 2, ops[2]) && ReplyTo(SampleHashes(), SETTINGS, states[2], ops[2]).Refused?
  {
    IdentityTells();
    states, ops := RetryBehavior(SampleHashes(), digest, write, now);
  }
}
