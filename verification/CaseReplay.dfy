/**
 Retries against the case store: a log with duplicates and refusals ends where its accepted requests alone
 end, an accepted key is answered the same way for ever, and each accepted command advances the case once.
 A run's case writes use one command id and, in each attempt, another key.
 */
module CaseReplay {
  import opened CodeUnits
  import opened Prelude
  import opened EventChain
  import opened CaseCommands
  import opened CaseLedger
  import opened CaseChain

  // ----- The log and its accepted requests -----

  /** The reply of a request that wrote something; the relay's steps count as such. */
  predicate Wrote(reply: Reply) {
    reply.Accepted? || reply.Relayed? || (reply.EvidenceReply? && reply.created)
  }

  /** A refused or replayed request leaves every table unchanged. */
  lemma UnwrittenUnchanged(h: Hashes, config: Config, db: Database, op: Op)
    ensures !Wrote(ReplyTo(h, config, db, op)) ==> Step(h, config, db, op) == db
  {
  }

  function Final(h: Hashes, config: Config, db: Database, ops: seq<Op>): Database
    decreases |ops|
  {
    if ops == [] then db else Final(h, config, Step(h, config, db, ops[0]), ops[1..])
  }

  /** The requests of the log that write when the whole log is submitted. */
  function Kept(h: Hashes, config: Config, db: Database, ops: seq<Op>): (r: seq<Op>)
    ensures |r| <= |ops| && forall op :: op in r ==> op in ops
    decreases |ops|
  {
    if ops == [] then []
    else
      var rest := Kept(h, config, Step(h, config, db, ops[0]), ops[1..]);
      if Wrote(ReplyTo(h, config, db, ops[0])) then [ops[0]] + rest else rest
  }

  /** Each request writes when the list is submitted in order. */
  predicate AllWrite(h: Hashes, config: Config, db: Database, ops: seq<Op>)
    decreases |ops|
  {
    ops == [] || (Wrote(ReplyTo(h, config, db, ops[0])) && AllWrite(h, config, Step(h, config, db, ops[0]), ops[1..]))
  }

  /**
   A log ends in the state its accepted requests and the relay's steps alone end in, and on their own all of
   them are accepted.
   */
  lemma {:induction false} RetriesCollapse(h: Hashes, config: Config, db: Database, ops: seq<Op>)
    ensures Final(h, config, db, Kept(h, config, db, ops)) == Final(h, config, db, ops)
    ensures AllWrite(h, config, db, Kept(h, config, db, ops))
    decreases |ops|
  {
    if ops != [] {
      var after := Step(h, config, db, ops[0]);
      RetriesCollapse(h, config, after, ops[1..]);
      var rest := Kept(h, config, after, ops[1..]);
      if Wrote(ReplyTo(h, config, db, ops[0])) {
        assert ([ops[0]] + rest)[1..] == rest;
      } else {
        UnwrittenUnchanged(h, config, db, ops[0]);
      }
    }
  }

  // ----- Receipts -----

  predicate Receipted(db: Database, key: CaseKey, idempotencyKey: Str, receipt: Receipt) {
    key in db.cases && idempotencyKey in db.cases[key].receipts && db.cases[key].receipts[idempotencyKey] == receipt
  }

  lemma ReceiptStep(h: Hashes, config: Config, db: Database, op: Op, key: CaseKey, idempotencyKey: Str,
                    receipt: Receipt)
    requires Receipted(db, key, idempotencyKey, receipt)
    ensures Receipted(Step(h, config, db, op), key, idempotencyKey, receipt)
  {
    CaseStep(h, config, db, op, key);
    if Commits(h, config, db, op, key) {
      var mutation := CommitMutation(h, config, db, op, key);
    }
  }

  lemma {:induction false} ReceiptPersists(h: Hashes, config: Config, states: seq<Database>, ops: seq<Op>, i: nat,
                                           n: nat, key: CaseKey, idempotencyKey: Str, receipt: Receipt)
    requires Behavior(h, config, states, ops) && i <= n < |states| && Receipted(states[i], key, idempotencyKey, receipt)
    ensures Receipted(states[n], key, idempotencyKey, receipt)
    decreases n - i
  {
    if i < n {
      ReceiptStep(h, config, states[i], ops[i], key, idempotencyKey, receipt);
      ReceiptPersists(h, config, states, ops, i + 1, n, key, idempotencyKey, receipt);
    }
  }

  /** Requests that leave a command receipt. */
  predicate Ticketed(op: Op) {
    op.CreateCase? || op.SubmitCommand?
  }

  /** What a request is accepted under: the case, the key and the digest of the request. */
  function Ticket(h: Hashes, op: Op): (CaseKey, Str, Str)
    requires Ticketed(op)
  {
    match op
    case CreateCase(creation, key, _) =>
      (CaseKey(creation.tenantId, h.caseId(creation.tenantId, key)), key, h.creation(creation))
    case SubmitCommand(command, _) => (KeyOf(command), command.idempotencyKey, h.command(command))
  }

  lemma AcceptedReceipt(h: Hashes, config: Config, db: Database, op: Op)
    requires Ticketed(op) && ReplyTo(h, config, db, op).Accepted?
    ensures var (key, idempotencyKey, digest) := Ticket(h, op);
            && Receipted(Step(h, config, db, op), key, idempotencyKey,
                         Receipt(digest, ReplyTo(h, config, db, op).response))
            && (key in db.cases ==> idempotencyKey !in db.cases[key].receipts)
  {
    hide Mutate, EventFits, NewEvent;
    if op.SubmitCommand? {
      var key := KeyOf(op.command);
      CaseStep(h, config, db, op, key);
      var mutation := CommitMutation(h, config, db, op, key);
    }
  }

  /** How the store answers a request whose key already has a receipt. */
  lemma ReceiptAnswers(h: Hashes, config: Config, db: Database, op: Op, receipt: Receipt)
    requires Ticketed(op) && (op.CreateCase? ==> op.idempotencyKey != [])
    requires Receipted(db, Ticket(h, op).0, Ticket(h, op).1, receipt)
    ensures ReplyTo(h, config, db, op)
         == if Ticket(h, op).2 == receipt.requestDigest then Replayed(receipt.response)
           else Refused(IdempotencyConflict)
  {
  }

  /**
   Once a request is accepted, any later request under its key gets the same response for ever when the
   request digests agree, and is refused otherwise. (For a creation that is the event id; the case row that
   goes with it is read anew.)
   */
  lemma AnswersAreForever(h: Hashes, config: Config, states: seq<Database>, ops: seq<Op>, i: nat, n: nat)
    requires Behavior(h, config, states, ops) && i < n < |ops|
    requires Ticketed(ops[i]) && Ticketed(ops[n]) && ReplyTo(h, config, states[i], ops[i]).Accepted?
    requires Ticket(h, ops[n]).0 == Ticket(h, ops[i]).0 && Ticket(h, ops[n]).1 == Ticket(h, ops[i]).1
    requires ops[n].CreateCase? ==> ops[n].idempotencyKey != []
    ensures ReplyTo(h, config, states[n], ops[n])
         == if Ticket(h, ops[n]).2 == Ticket(h, ops[i]).2 then Replayed(ReplyTo(h, config, states[i], ops[i]).response)
            else Refused(IdempotencyConflict)
  {
    var (key, idempotencyKey, digest) := Ticket(h, ops[i]);
    var receipt := Receipt(digest, ReplyTo(h, config, states[i], ops[i]).response);
    AcceptedReceipt(h, config, states[i], ops[i]);
    ReceiptPersists(h, config, states, ops, i + 1, n, key, idempotencyKey, receipt);
    ReceiptAnswers(h, config, states[n], ops[n], receipt);
  }

  predicate RegisteredAs(db: Database, tenantId: Str, idempotencyKey: Str, row: Registered) {
    (tenantId, idempotencyKey) in db.registrations && db.registrations[(tenantId, idempotencyKey)] == row
  }

  lemma {:induction false} RegistrationPersists(h: Hashes, config: Config, states: seq<Database>, ops: seq<Op>,
                                                i: nat, n: nat, tenantId: Str, idempotencyKey: Str, row: Registered)
    requires Behavior(h, config, states, ops) && i <= n < |states|
             && RegisteredAs(states[i], tenantId, idempotencyKey, row)
    ensures RegisteredAs(states[n], tenantId, idempotencyKey, row)
    decreases n - i
  {
    if i < n {
      assert RegisteredAs(Step(h, config, states[i], ops[i]), tenantId, idempotencyKey, row);
      RegistrationPersists(h, config, states, ops, i + 1, n, tenantId, idempotencyKey, row);
    }
  }

  /** A registration that created evidence names that evidence to every later request with its key and digest. */
  lemma RegistrationsAreForever(h: Hashes, config: Config, states: seq<Database>, ops: seq<Op>, i: nat, n: nat)
    requires Behavior(h, config, states, ops) && i < n < |ops|
    requires ops[i].RegisterEvidence? && ops[n].RegisterEvidence? && Wrote(ReplyTo(h, config, states[i], ops[i]))
    requires ops[n].registration.tenantId == ops[i].registration.tenantId
             && ops[n].idempotencyKey == ops[i].idempotencyKey
    requires ContentRefusal(h, config, ops[n].registration).None?
    ensures ReplyTo(h, config, states[n], ops[n])
         == if h.registration(ops[n].registration) == h.registration(ops[i].registration)
            then EvidenceReply(false, ReplyTo(h, config, states[i], ops[i]).evidenceId)
            else Refused(IdempotencyConflict)
  {
    var op := ops[i];
    RegistrationPersists(h, config, states, ops, i + 1, n, op.registration.tenantId, op.idempotencyKey,
                         Registered(h.registration(op.registration), op.env.opaqueId));
  }

  // ----- Receipts against events -----

  /** The receipt's response names an event of the case by sequence and id. */
  predicate NamesEvent(c: Case, receipt: Receipt) {
    var sequence := receipt.response.sequence;
    && sequence in c.events && c.events[sequence].eventId == receipt.response.eventId
    && (receipt.response.eventDigest.Some? ==> c.events[sequence].eventDigest == receipt.response.eventDigest.value)
  }

  predicate AllNameEvents(c: Case) {
    forall k :: k in c.receipts ==> 1 <= c.receipts[k].response.sequence <= c.sequence && NamesEvent(c, c.receipts[k])
  }

  predicate NamesDiffer(c: Case) {
    forall j, k :: j in c.receipts && k in c.receipts && j != k
      ==> c.receipts[j].response.sequence != c.receipts[k].response.sequence
  }

  /** Receipts, command ids and events correspond one to one. */
  ghost predicate ReceiptsMatch(c: Case) {
    Numbered(c) && AllNameEvents(c) && NamesDiffer(c) && |c.receipts| == |c.commandIds| == c.sequence
  }

  /** `d` is `c` after one more event, with its receipt and command id. */
  predicate Receipts(c: Case, d: Case, idempotencyKey: Str, commandId: Str, e: Event, receipt: Receipt) {
    && idempotencyKey !in c.receipts && commandId !in c.commandIds
    && d.receipts == c.receipts[idempotencyKey := receipt] && d.commandIds == c.commandIds + {commandId}
    && d.events == c.events[c.sequence + 1 := e] && d.sequence == c.sequence + 1
    && receipt.response.sequence == c.sequence + 1 && receipt.response.eventId == e.eventId
    && receipt.response.eventDigest == Some(e.eventDigest)
  }

  lemma AdmitReceipt(h: Hashes, c: Case, eventIds: set<Str>, command: Command, mutation: Mutation, env: Env, d: Case)
      returns (e: Event, receipt: Receipt)
    requires Admit(h, c, eventIds, command, mutation, env) == Ok(d)
    ensures Receipts(c, d, command.idempotencyKey, command.commandId, e, receipt)
  {
    e := NewEvent(h, CommandInput(c, command, mutation, env), env);
    receipt := Receipt(h.command(command), ResponseOf(c, e, mutation));
  }

  /** What an accepted command does to the receipts, the command ids and the events. */
  lemma CommitReceipt(h: Hashes, config: Config, db: Database, op: Op, key: CaseKey)
    returns (e: Event, receipt: Receipt)
    requires key in db.cases && Commits(h, config, db, op, key)
    ensures key in Step(h, config, db, op).cases
    ensures Receipts(db.cases[key], Step(h, config, db, op).cases[key], op.command.idempotencyKey,
                     op.command.commandId, e, receipt)
  {
    var mutation := CommitMutation(h, config, db, op, key);
    e, receipt :=
        AdmitReceipt(h, db.cases[key], db.eventIds, op.command, mutation, op.env, Step(h, config, db, op).cases[key]);
  }

  lemma AppendMatches(c: Case, d: Case, idempotencyKey: Str, commandId: Str, e: Event, receipt: Receipt)
    requires ReceiptsMatch(c) && Receipts(c, d, idempotencyKey, commandId, e, receipt)
    ensures ReceiptsMatch(d)
  {
    assert Numbered(d);
    forall k | k in d.receipts
      ensures 1 <= d.receipts[k].response.sequence <= d.sequence && NamesEvent(d, d.receipts[k])
    {
      assert k != idempotencyKey ==> NamesEvent(c, c.receipts[k]);
    }
  }

  lemma CommitMatches(h: Hashes, config: Config, db: Database, op: Op, key: CaseKey)
    requires key in db.cases && Commits(h, config, db, op, key) && ReceiptsMatch(db.cases[key])
    ensures key in Step(h, config, db, op).cases && ReceiptsMatch(Step(h, config, db, op).cases[key])
  {
    var e, receipt := CommitReceipt(h, config, db, op, key);
    AppendMatches(db.cases[key], Step(h, config, db, op).cases[key], op.command.idempotencyKey, op.command.commandId,
                  e, receipt);
  }

  lemma OpenedMatches(h: Hashes, db: Database, request: Creation, key: CaseKey, idempotencyKey: Str, env: Env, d: Case)
    requires OpenCase(h, db, request, key, idempotencyKey, env) == Ok(d)
    ensures ReceiptsMatch(d)
  {
    hide OpenCase, ReceiptsMatch;
    var e, receipt := OpenedRows(h, db, request, key, idempotencyKey, env, d);
    OneReceiptMatches(d, idempotencyKey, e, receipt);
  }

  /** A new case has one event, one receipt that names it, and one command id. */
  predicate OneReceipt(d: Case, idempotencyKey: Str, e: Event, receipt: Receipt) {
    && d.sequence == 1 && d.events == map[1 := e] && d.receipts == map[idempotencyKey := receipt]
    && |d.commandIds| == 1 && e.caseSequence == 1 && NamesEvent(d, receipt)
  }

  lemma OpenedRows(h: Hashes, db: Database, request: Creation, key: CaseKey, idempotencyKey: Str, env: Env, d: Case)
    returns (e: Event, receipt: Receipt)
    requires OpenCase(h, db, request, key, idempotencyKey, env) == Ok(d)
    ensures OneReceipt(d, idempotencyKey, e, receipt)
  {
    e := d.events[1];
    receipt := d.receipts[idempotencyKey];
  }

  lemma OneReceiptMatches(d: Case, idempotencyKey: Str, e: Event, receipt: Receipt)
    requires OneReceipt(d, idempotencyKey, e, receipt)
    ensures ReceiptsMatch(d)
  {
    assert d.receipts.Keys == {idempotencyKey};
  }

  lemma CreationMatches(h: Hashes, config: Config, db: Database, op: Op, key: CaseKey)
    requires key !in db.cases && key in Step(h, config, db, op).cases
    ensures ReceiptsMatch(Step(h, config, db, op).cases[key])
  {
    NewCaseStep(h, config, db, op, key);
    OpenedMatches(h, db, op.creation, key, op.idempotencyKey, op.env, Step(h, config, db, op).cases[key]);
  }

  ghost predicate AllReceiptsMatch(db: Database) {
    forall key :: key in db.cases ==> ReceiptsMatch(db.cases[key])
  }

  /** In every reachable state each event of a case has exactly one receipt, and each receipt names its event. */
  lemma {:induction false} ReceiptsAlwaysMatch(h: Hashes, config: Config, states: seq<Database>, ops: seq<Op>, n: nat)
    requires FromEmpty(h, config, states, ops) && n < |states|
    ensures AllReceiptsMatch(states[n])
  {
    if n > 0 {
      hide Step, Commits, ReceiptsMatch;
      var db, op := states[n - 1], ops[n - 1];
      ReceiptsAlwaysMatch(h, config, states, ops, n - 1);
      assert states[n] == Step(h, config, db, op);
      forall key | key in states[n].cases ensures ReceiptsMatch(states[n].cases[key]) {
        if key !in db.cases {
          CreationMatches(h, config, db, op, key);
        } else if Commits(h, config, db, op, key) {
          CommitMatches(h, config, db, op, key);
        } else {
          CaseStep(h, config, db, op, key);
        }
      }
    }
  }

  // ----- Sequences -----

  /** How many commands on the case are accepted from step `i` up to step `n`. */
  ghost function Accepts(h: Hashes, config: Config, states: seq<Database>, ops: seq<Op>, key: CaseKey, i: nat,
                         n: nat): nat
    requires i <= n <= |ops| && n < |states|
    decreases n
  {
    if i == n then 0
    else
      Accepts(h, config, states, ops, key, i, n - 1)
      + if Commits(h, config, states[n - 1], ops[n - 1], key) then 1 else 0
  }

  lemma CommitCounts(h: Hashes, config: Config, db: Database, op: Op, key: CaseKey)
    requires key in db.cases && Commits(h, config, db, op, key)
    ensures key in Step(h, config, db, op).cases
    ensures op.command.expectedSequence == db.cases[key].sequence
    ensures Step(h, config, db, op).cases[key].sequence == db.cases[key].sequence + 1
  {
    var mutation := CommitMutation(h, config, db, op, key);
  }

  /** Every accepted command moves its case on by one, and nothing else moves it. */
  lemma {:induction false} SequenceCountsAccepts(h: Hashes, config: Config, states: seq<Database>, ops: seq<Op>,
                                                 key: CaseKey, i: nat, n: nat)
    requires Behavior(h, config, states, ops) && i <= n < |states| && key in states[i].cases
    ensures key in states[n].cases
    ensures states[n].cases[key].sequence == states[i].cases[key].sequence + Accepts(h, config, states, ops, key, i, n)
    decreases n
  {
    if i < n {
      SequenceCountsAccepts(h, config, states, ops, key, i, n - 1);
      CaseStep(h, config, states[n - 1], ops[n - 1], key);
      if Commits(h, config, states[n - 1], ops[n - 1], key) {
        CommitCounts(h, config, states[n - 1], ops[n - 1], key);
      }
    }
  }

  /** Accepted commands on one case carry increasing preconditions, so no two share one. */
  lemma OneAcceptPerPrecondition(h: Hashes, config: Config, states: seq<Database>, ops: seq<Op>, key: CaseKey, i: nat,
                                 n: nat)
    requires Behavior(h, config, states, ops) && i < n < |ops|
    requires Commits(h, config, states[i], ops[i], key)
    ensures Commits(h, config, states[n], ops[n], key)
            ==> ops[i].command.expectedSequence < ops[n].command.expectedSequence
  {
    CommitCounts(h, config, states[i], ops[i], key);
    SequenceCountsAccepts(h, config, states, ops, key, i + 1, n);
    if Commits(h, config, states[n], ops[n], key) {
      CommitCounts(h, config, states[n], ops[n], key);
    }
  }

  // ----- Command ids -----

  predicate IdSpent(db: Database, key: CaseKey, commandId: Str) {
    key in db.cases && commandId in db.cases[key].commandIds
  }

  lemma CommitSpendsId(h: Hashes, config: Config, db: Database, op: Op, key: CaseKey)
    requires key in db.cases && Commits(h, config, db, op, key)
    ensures !IdSpent(db, key, op.command.commandId)
    ensures key in Step(h, config, db, op).cases
    ensures Step(h, config, db, op).cases[key].commandIds == db.cases[key].commandIds + {op.command.commandId}
  {
    var mutation := CommitMutation(h, config, db, op, key);
  }

  lemma {:induction false} SpentStays(h: Hashes, config: Config, states: seq<Database>, ops: seq<Op>, i: nat, n: nat,
                                      key: CaseKey, commandId: Str)
    requires Behavior(h, config, states, ops) && i <= n < |states| && IdSpent(states[i], key, commandId)
    ensures IdSpent(states[n], key, commandId)
    decreases n - i
  {
    if i < n {
      CaseStep(h, config, states[i], ops[i], key);
      if Commits(h, config, states[i], ops[i], key) {
        CommitSpendsId(h, config, states[i], ops[i], key);
      }
      SpentStays(h, config, states, ops, i + 1, n, key, commandId);
    }
  }

  /** A command id is accepted at most once on a case, under whatever keys it is sent. */
  lemma IdAcceptedOnce(h: Hashes, config: Config, states: seq<Database>, ops: seq<Op>, key: CaseKey, i: nat, n: nat)
    requires Behavior(h, config, states, ops) && i < n < |ops|
    requires Commits(h, config, states[i], ops[i], key)
    ensures Commits(h, config, states[n], ops[n], key) ==> ops[i].command.commandId != ops[n].command.commandId
  {
    CommitSpendsId(h, config, states[i], ops[i], key);
    SpentStays(h, config, states, ops, i + 1, n, key, ops[i].command.commandId);
    if Commits(h, config, states[n], ops[n], key) {
      CommitSpendsId(h, config, states[n], ops[n], key);
    }
  }

  // ----- The runtime's case writes -----

  const SEPARATOR: Str := [58]
  const CMD: Str := Lit("cmd_")

  /** A case write of a workflow node: which run, which node, and which of the node's writes. */
  datatype Write = Write(runId: Str, nodeId: Str, index: nat)

  /** The id of a case write: its digested name, without the attempt. */
  function WriteId(digest: Str -> Str, write: Write): Str {
    var text := digest(write.runId + SEPARATOR + write.nodeId + SEPARATOR + Digits(write.index));
    CMD + if |text| <= 24 then text else text[..24]
  }

  /** The idempotency key of a case write: it names the attempt. */
  function WriteKey(key: CaseKey, write: Write, attempt: nat): Str {
    key.tenantId + SEPARATOR + key.caseId + SEPARATOR + write.runId + SEPARATOR + Digits(attempt)
    + (SEPARATOR + write.nodeId + SEPARATOR + Digits(write.index))
  }

  /** A write's id and key spelled out: the key names tenant, case, run, attempt, node and index, the id no attempt. */
  lemma NamesExactly(digest: Str -> Str, key: CaseKey, write: Write, attempt: nat)
    ensures WriteKey(key, write, attempt)
         == key.tenantId + Lit(":") + key.caseId + Lit(":") + write.runId + Lit(":") + Digits(attempt)
            + Lit(":") + write.nodeId + Lit(":") + Digits(write.index)
    ensures var text := digest(write.runId + Lit(":") + write.nodeId + Lit(":") + Digits(write.index));
            |text| >= 24 ==> WriteId(digest, write) == Lit("cmd_") + text[..24]
  {
    var before := key.tenantId + Lit(":") + key.caseId + Lit(":") + write.runId + Lit(":") + Digits(attempt);
    assert Lit(":") == SEPARATOR && Lit("cmd_") == CMD;
    assert before + (SEPARATOR + write.nodeId + SEPARATOR + Digits(write.index))
        == before + Lit(":") + write.nodeId + Lit(":") + Digits(write.index);
    var text := digest(write.runId + SEPARATOR + write.nodeId + SEPARATOR + Digits(write.index));
    if |text| == 24 {
      assert text[..24] == text;
    }
  }

  predicate IsWrite(digest: Str -> Str, key: CaseKey, write: Write, attempt: nat, op: Op) {
    && op.SubmitCommand? && KeyOf(op.command) == key
    && op.command.commandId == WriteId(digest, write) && op.command.idempotencyKey == WriteKey(key, write, attempt)
  }

  lemma MiddleDecides(before: Str, after: Str, x: Str, y: Str)
    requires before + x + after == before + y + after
    ensures x == y
  {
    assert |x| == |y|;
    assert (before + x + after)[|before|..|before| + |x|] == x;
    assert (before + y + after)[|before|..|before| + |y|] == y;
  }

  /** The keys of one write in two attempts are equal only when the attempts are. */
  lemma AttemptsSeparateKeys(key: CaseKey, write: Write, a: nat, b: nat)
    ensures WriteKey(key, write, a) == WriteKey(key, write, b) ==> a == b
  {
    var before := key.tenantId + SEPARATOR + key.caseId + SEPARATOR + write.runId + SEPARATOR;
    var after := SEPARATOR + write.nodeId + SEPARATOR + Digits(write.index);
    assert WriteKey(key, write, a) == before + Digits(a) + after
           && WriteKey(key, write, b) == before + Digits(b) + after;
    if WriteKey(key, write, a) == WriteKey(key, write, b) {
      MiddleDecides(before, after, Digits(a), Digits(b));
      DigitsInjective(a, b);
    }
  }

  // ----- Where receipts come from -----

  predicate AcceptedUnder(h: Hashes, config: Config, db: Database, op: Op, ticket: (CaseKey, Str, Str)) {
    Ticketed(op) && ReplyTo(h, config, db, op).Accepted? && Ticket(h, op) == ticket
  }

  lemma ReceiptFromCreation(h: Hashes, config: Config, db: Database, op: Op, key: CaseKey, idempotencyKey: Str)
    requires key !in db.cases
    requires key in Step(h, config, db, op).cases && idempotencyKey in Step(h, config, db, op).cases[key].receipts
    ensures var receipt := Step(h, config, db, op).cases[key].receipts[idempotencyKey];
            AcceptedUnder(h, config, db, op, (key, idempotencyKey, receipt.requestDigest))
  {
    NewCaseStep(h, config, db, op, key);
  }

  lemma ReceiptFromCommit(h: Hashes, config: Config, db: Database, op: Op, key: CaseKey, idempotencyKey: Str)
    requires key in db.cases && Commits(h, config, db, op, key) && idempotencyKey !in db.cases[key].receipts
    requires key in Step(h, config, db, op).cases && idempotencyKey in Step(h, config, db, op).cases[key].receipts
    ensures var receipt := Step(h, config, db, op).cases[key].receipts[idempotencyKey];
            AcceptedUnder(h, config, db, op, (key, idempotencyKey, receipt.requestDigest))
  {
    var e, receipt := CommitReceipt(h, config, db, op, key);
    assert op.command.idempotencyKey == idempotencyKey;
    AcceptedReceipt(h, config, db, op);
  }

  lemma ReceiptFromStep(h: Hashes, config: Config, db: Database, op: Op, key: CaseKey, idempotencyKey: Str)
    requires key in Step(h, config, db, op).cases && idempotencyKey in Step(h, config, db, op).cases[key].receipts
    ensures var receipt := Step(h, config, db, op).cases[key].receipts[idempotencyKey];
            Receipted(db, key, idempotencyKey, receipt)
              || AcceptedUnder(h, config, db, op, (key, idempotencyKey, receipt.requestDigest))
  {
    if key !in db.cases {
      ReceiptFromCreation(h, config, db, op, key, idempotencyKey);
    } else if idempotencyKey in db.cases[key].receipts {
      ReceiptStep(h, config, db, op, key, idempotencyKey, db.cases[key].receipts[idempotencyKey]);
    } else {
      CaseStep(h, config, db, op, key);
      ReceiptFromCommit(h, config, db, op, key, idempotencyKey);
    }
  }

  /** A request accepted earlier left the receipt. */
  ghost predicate Taken(h: Hashes, config: Config, states: seq<Database>, ops: seq<Op>, n: nat,
                        ticket: (CaseKey, Str, Str))
    requires n <= |ops| && n < |states|
  {
    exists j :: 0 <= j < n && AcceptedUnder(h, config, states[j], ops[j], ticket)
  }

  lemma {:induction false} ReceiptOrigin(h: Hashes, config: Config, states: seq<Database>, ops: seq<Op>, n: nat,
                                         key: CaseKey, idempotencyKey: Str)
    requires FromEmpty(h, config, states, ops) && n < |states|
    requires key in states[n].cases && idempotencyKey in states[n].cases[key].receipts
    ensures Taken(h, config, states, ops, n,
                  (key, idempotencyKey, states[n].cases[key].receipts[idempotencyKey].requestDigest))
  {
    var ticket := (key, idempotencyKey, states[n].cases[key].receipts[idempotencyKey].requestDigest);
    var db, op := states[n - 1], ops[n - 1];
    assert states[n] == Step(h, config, db, op);
    ReceiptFromStep(h, config, db, op, key, idempotencyKey);
    if !AcceptedUnder(h, config, db, op, ticket) {
      ReceiptOrigin(h, config, states, ops, n - 1, key, idempotencyKey);
      var j :| 0 <= j < n - 1 && AcceptedUnder(h, config, states[j], ops[j], ticket);
    }
  }

  /** A ticket is taken exactly when the case has a receipt with its key and digest. */
  lemma TakenExactly(h: Hashes, config: Config, states: seq<Database>, ops: seq<Op>, n: nat, key: CaseKey,
                     idempotencyKey: Str, digest: Str)
    requires FromEmpty(h, config, states, ops) && n < |states| && key in states[n].cases
    ensures Taken(h, config, states, ops, n, (key, idempotencyKey, digest))
       <==> (idempotencyKey in states[n].cases[key].receipts
             && states[n].cases[key].receipts[idempotencyKey].requestDigest == digest)
  {
    if j :| 0 <= j < n && AcceptedUnder(h, config, states[j], ops[j], (key, idempotencyKey, digest)) {
      var receipt := Receipt(digest, ReplyTo(h, config, states[j], ops[j]).response);
      AcceptedReceipt(h, config, states[j], ops[j]);
      ReceiptPersists(h, config, states, ops, j + 1, n, key, idempotencyKey, receipt);
    }
    if idempotencyKey in states[n].cases[key].receipts {
      ReceiptOrigin(h, config, states, ops, n, key, idempotencyKey);
    }
  }

  /** A command whose id is spent is replayed when a receipt has its key and digest, and refused otherwise. */
  lemma SpentAnswer(h: Hashes, config: Config, db: Database, op: Op, key: CaseKey)
    requires op.SubmitCommand? && KeyOf(op.command) == key && IdSpent(db, key, op.command.commandId)
    ensures var receipts, k := db.cases[key].receipts, op.command.idempotencyKey;
            if k in receipts && receipts[k].requestDigest == h.command(op.command)
            then ReplyTo(h, config, db, op).Replayed? else ReplyTo(h, config, db, op).Refused?
  {
    if Commits(h, config, db, op, key) {
      CommitSpendsId(h, config, db, op, key);
    }
  }

  /**
   A case write accepted in one attempt of a run is never accepted in another one: the attempt changes its
   key but not its command id. It is refused there, for ever, unless some other request was accepted under
   exactly that key and digest.
   */
  lemma RetriedWriteRefused(h: Hashes, config: Config, digest: Str -> Str, states: seq<Database>, ops: seq<Op>,
                            key: CaseKey, write: Write, a: nat, b: nat, i: nat, n: nat)
    requires FromEmpty(h, config, states, ops) && i < n < |ops| && a != b
    requires IsWrite(digest, key, write, a, ops[i]) && IsWrite(digest, key, write, b, ops[n])
    ensures Ticket(h, ops[i]) != Ticket(h, ops[n])
    ensures ReplyTo(h, config, states[i], ops[i]).Accepted? ==>
              if Taken(h, config, states, ops, n, Ticket(h, ops[n]))
                then ReplyTo(h, config, states[n], ops[n]).Replayed?
              else ReplyTo(h, config, states[n], ops[n]).Refused?
  {
    AttemptsSeparateKeys(key, write, a, b);
    if Commits(h, config, states[i], ops[i], key) {
      CommitSpendsId(h, config, states[i], ops[i], key);
      SpentStays(h, config, states, ops, i + 1, n, key, WriteId(digest, write));
      SpentAnswer(h, config, states[n], ops[n], key);
      TakenExactly(h, config, states, ops, n, key, ops[n].command.idempotencyKey, h.command(ops[n].command));
    }
  }
}
