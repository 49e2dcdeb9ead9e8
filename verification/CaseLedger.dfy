/**
 The case store's transactions: creating a case, registering evidence, and submitting a command.
 Each is one atomic step that either commits a new state or leaves every table as it was.
 */
module CaseLedger {
  import opened CodeUnits
  import opened Prelude
  import opened Json
  import opened EventChain
  import opened CaseCommands

  type Bytes = seq<bv8>

  // ----- Requests -----

  datatype Authority = Authority(planDigest: Str, permissionDigest: Str, policyDigest: Str)

  datatype Command = Command(
    commandId: Str,
    tenantId: Str,
    caseId: Str,
    actor: Actor,
    authority: Authority,
    body: Body,
    expectedSequence: nat,
    idempotencyKey: Str,
    occurredAt: Option<Str>)

  datatype Creation = Creation(tenantId: Str, externalRef: Option<Str>, policyDigest: Str, planDigest: Str,
                               actor: Actor)

  /** The content is absent when it is not base64. */
  datatype Registration = Registration(tenantId: Str, caseId: Str, content: Option<Bytes>, declaredDigest: Option<Str>)

  /** A JSON object. */
  type Document = v: Value | WellFormed(v) && v.Object? witness Object([])

  /** What a transaction draws from outside: a random id, an event id, the clock, and the event's payload. */
  datatype Env = Env(opaqueId: Str, eventId: Str, now: Str, payload: Document)

  /** The digests the store takes. Nothing here assumes that any of them is injective. */
  datatype Hashes = Hashes(
    event: EventHash,
    command: Command -> Str,
    creation: Creation -> Str,
    registration: Registration -> Str,
    content: Bytes -> Str,
    permission: Actor -> Str,
    caseId: (Str, Str) -> Str,
    commandId: (Str, Str) -> Str)

  /** The settings read at start-up. */
  datatype Config = Config(requireScan: bool, maxBytes: nat)

  // ----- Rows -----

  datatype Response = Response(sequence: nat, eventId: Str, eventDigest: Option<Str>, created: Option<Str>)

  datatype Receipt = Receipt(requestDigest: Str, response: Response)

  datatype Head = Head(sequence: nat, digest: Str)

  /** A case row with the rows of the other tables that carry its key. */
  datatype Case = Case(
    status: Status,
    sequence: nat,
    externalRef: Option<Str>,
    policyDigest: Str,
    planDigest: Str,
    tables: Tables,
    events: map<nat, Event>,
    head: Option<Head>,
    receipts: map<Str, Receipt>,
    commandIds: set<Str>)

  datatype CaseKey = CaseKey(tenantId: Str, caseId: Str)

  datatype Registered = Registered(requestDigest: Str, evidenceId: Str)

  /** An outbox row: the event it announces, that event's digest, and whether the relay has published it. */
  datatype Announcement = Announcement(key: CaseKey, sequence: nat, digest: Str, published: bool)

  /**
   Evidence, artifacts and registrations are keyed by tenant and id, digest or idempotency key; the outbox
   by event id. `eventIds` are the ids in the event table, which nothing ever leaves.
   */
  datatype Database = Database(
    cases: map<CaseKey, Case>,
    evidence: map<(Str, Str), Evidence>,
    artifacts: map<(Str, Str), Bytes>,
    registrations: map<(Str, Str), Registered>,
    outbox: map<Str, Announcement>,
    eventIds: set<Str>)

  const EMPTY := Database(map[], map[], map[], map[], map[], {})

  datatype Reply =
    | Accepted(response: Response)
    | Replayed(response: Response)
    | EvidenceReply(created: bool, evidenceId: Str)
    | Refused(error: Error)
    | Relayed

  // ----- appendCaseEvent -----

  const SHA_PREFIX: Str := Lit("sha256:")

  function NormalizeDigest(digest: Str): Str {
    if SHA_PREFIX <= digest then digest[|SHA_PREFIX|..] else digest
  }

  const ACTOR_FIELDS: seq<Str> := [Lit("type"), Lit("principalId"), Lit("executionId"), Lit("roles")]

  function KindText(kind: ActorKind): Str {
    match kind
    case Agent => Lit("AGENT")
    case Human => Lit("HUMAN")
    case System => Lit("SYSTEM")
    case Integration => Lit("INTEGRATION")
  }

  function ActorJson(actor: Actor): (r: Value)
    ensures !r.Undefined?
  {
    var execution := match actor.executionId case Some(id) => Text(id) case None => Undefined;
    Object(Zip(ACTOR_FIELDS, [Text(KindText(actor.kind)), Text(actor.principalId), execution, TextsJson(actor.roles)]))
  }

  const AUTHORITY_FIELDS: seq<Str> := [Lit("planDigest"), Lit("permissionEnvelopeDigest"), Lit("policySnapshotDigest")]

  function AuthorityJson(authority: Authority): (r: Value)
    ensures !r.Undefined?
  {
    Object(Zip(AUTHORITY_FIELDS,
               [Text(authority.planDigest), Text(authority.permissionDigest), Text(authority.policyDigest)]))
  }

  /** What `appendCaseEvent` is given besides the case. */
  datatype EventInput = EventInput(
    key: CaseKey,
    sequence: nat,
    eventType: Str,
    occurredAt: Str,
    actor: Actor,
    commandId: Str,
    authority: Authority,
    evidenceRefs: seq<Str>,
    previous: Option<Str>)

  const KYC: Str := Lit("kyc.")
  const HARNESS: Str := Lit("harness.")
  const V1: Str := Lit(".v1")
  const WORK_ITEM: Str := Lit("work_item.")
  const EXECUTION: Str := Lit("execution.")

  function Schema(eventType: Str): Str {
    (if WORK_ITEM <= eventType || EXECUTION <= eventType then HARNESS else KYC) + eventType + V1
  }

  function Undigested(input: EventInput, env: Env): Event {
    Event(env.eventId, input.key.tenantId, input.key.caseId, input.sequence, input.eventType, Schema(input.eventType),
          input.occurredAt, env.now, ActorJson(input.actor), input.commandId, AuthorityJson(input.authority),
          env.payload, input.evidenceRefs, input.previous, [])
  }

  function Digested(hash: EventHash, e: Event): Event {
    e.(eventDigest := hash(e))
  }

  function NewEvent(h: Hashes, input: EventInput, env: Env): (r: Event) {
    Digested(h.event, Undigested(input, env))
  }

  /** The event row's unique keys are free: its sequence and its digest in the case, its id everywhere. */
  predicate EventFits(c: Case, eventIds: set<Str>, e: Event) {
    && e.caseSequence !in c.events
    && e.eventId !in eventIds
    && forall k :: k in c.events ==> c.events[k].eventDigest != e.eventDigest
  }

  /** Event and chain head. */
  function WithEvent(c: Case, e: Event): Case {
    c.(events := c.events[e.caseSequence := e], head := Some(Head(e.caseSequence, e.eventDigest)))
  }

  /** The outbox row of an event, which is inserted with it. */
  function Announced(outbox: map<Str, Announcement>, e: Event): map<Str, Announcement> {
    outbox[e.eventId := Announcement(CaseKey(e.tenantId, e.caseId), e.caseSequence, e.eventDigest, false)]
  }

  function AppendEvent(h: Hashes, c: Case, eventIds: set<Str>, input: EventInput, env: Env): Result<Case, Error> {
    var e := NewEvent(h, input, env);
    if EventFits(c, eventIds, e) then Ok(WithEvent(c, e)) else Err(Conflict)
  }

  /** The receipt row's unique keys are free. */
  predicate ReceiptFits(c: Case, commandId: Str, idempotencyKey: Str) {
    commandId !in c.commandIds && idempotencyKey !in c.receipts
  }

  function WithReceipt(c: Case, commandId: Str, idempotencyKey: Str, receipt: Receipt): Case {
    c.(receipts := c.receipts[idempotencyKey := receipt], commandIds := c.commandIds + {commandId})
  }

  // ----- createKycCase -----

  function NewCase(request: Creation): Case {
    Case(Intake, 1, request.externalRef, NormalizeDigest(request.policyDigest), NormalizeDigest(request.planDigest),
         NO_ROWS, map[], None, map[], {})
  }

  predicate ExternalRefTaken(cases: map<CaseKey, Case>, tenantId: Str, externalRef: Option<Str>) {
    externalRef.Some? && exists k :: k in cases && k.tenantId == tenantId && cases[k].externalRef == externalRef
  }

  function CreatedInput(h: Hashes, request: Creation, key: CaseKey, idempotencyKey: Str, env: Env): EventInput {
    EventInput(key, 1, Lit("case.created"), env.now, request.actor, h.commandId(key.caseId, idempotencyKey),
               Authority(NormalizeDigest(request.planDigest), h.permission(request.actor),
                         NormalizeDigest(request.policyDigest)),
               [], None)
  }

  /** The case row with its first event and its receipt, when every unique key is free. */
  function OpenCase(h: Hashes, db: Database, request: Creation, key: CaseKey, idempotencyKey: Str,
                    env: Env): Result<Case, Error>
  {
    if key in db.cases || ExternalRefTaken(db.cases, request.tenantId, request.externalRef) then Err(Conflict)
    else
      var input := CreatedInput(h, request, key, idempotencyKey, env);
      match AppendEvent(h, NewCase(request), db.eventIds, input, env)
      case Err(error) => Err(error)
      case Ok(c) =>
        Ok(WithReceipt(c, input.commandId, idempotencyKey,
                       Receipt(h.creation(request), Response(1, env.eventId, None, None))))
  }

  function Create(h: Hashes, db: Database, request: Creation, idempotencyKey: Str, env: Env): (Database, Reply) {
    if idempotencyKey == [] then (db, Refused(IdempotencyKeyRequired))
    else
      var key := CaseKey(request.tenantId, h.caseId(request.tenantId, idempotencyKey));
      if key in db.cases && idempotencyKey in db.cases[key].receipts then
        var prior := db.cases[key].receipts[idempotencyKey];
        (db, if prior.requestDigest == h.creation(request) then Replayed(prior.response)
         else Refused(IdempotencyConflict))
      else
        match OpenCase(h, db, request, key, idempotencyKey, env)
        case Err(error) => (db, Refused(error))
        case Ok(c) =>
          (Committed(db, key, c, NewEvent(h, CreatedInput(h, request, key, idempotencyKey, env), env)),
           Accepted(c.receipts[idempotencyKey].response))
  }

  /** What a transaction that wrote event `e` on a case leaves. */
  function Committed(db: Database, key: CaseKey, c: Case, e: Event): Database {
    db.(cases := db.cases[key := c], outbox := Announced(db.outbox, e), eventIds := db.eventIds + {e.eventId})
  }

  // ----- registerEvidence -----

  function ContentRefusal(h: Hashes, config: Config, request: Registration): Option<Error> {
    match request.content
    case None => Some(ContentInvalid)
    case Some(content) =>
      if content == [] then Some(ContentInvalid)
      else if |content| > config.maxBytes then Some(ContentTooLarge)
      else if request.declaredDigest.Some?
        && NormalizeDigest(request.declaredDigest.value) != h.content(content) then Some(DigestMismatch)
      else None
  }

  /** `on conflict do nothing`: the first content stored under a digest stays. */
  function Stored(artifacts: map<(Str, Str), Bytes>, tenantId: Str, digest: Str, content: Bytes)
    : map<(Str, Str), Bytes>
  {
    if (tenantId, digest) in artifacts then artifacts else artifacts[(tenantId, digest) := content]
  }

  function WithEvidence(h: Hashes, db: Database, request: Registration, content: Bytes, idempotencyKey: Str,
                        env: Env): Database
  {
    var digest := h.content(content);
    db.(artifacts := Stored(db.artifacts, request.tenantId, digest, content),
        evidence := db.evidence[(request.tenantId, env.opaqueId) := Evidence(request.caseId, digest, true, false)],
        registrations :=
            db.registrations[(request.tenantId, idempotencyKey) := Registered(h.registration(request), env.opaqueId)])
  }

  function Register(h: Hashes, config: Config, db: Database, request: Registration, idempotencyKey: Str,
                    env: Env): (Database, Reply)
  {
    if idempotencyKey == [] then (db, Refused(IdempotencyKeyRequired))
    else if ContentRefusal(h, config, request).Some? then (db, Refused(ContentRefusal(h, config, request).value))
    else if (request.tenantId, idempotencyKey) in db.registrations then
      var prior := db.registrations[(request.tenantId, idempotencyKey)];
      (db, if prior.requestDigest == h.registration(request) then EvidenceReply(false, prior.evidenceId)
       else Refused(IdempotencyConflict))
    else if CaseKey(request.tenantId, request.caseId) !in db.cases then (db, Refused(CaseNotFound))
    else if (request.tenantId, env.opaqueId) in db.evidence then (db, Refused(Conflict))
    else (WithEvidence(h, db, request, request.content.value, idempotencyKey, env), EvidenceReply(true, env.opaqueId))
  }

  // ----- submitBusinessCommand -----

  function KeyOf(command: Command): CaseKey {
    CaseKey(command.tenantId, command.caseId)
  }

  /** The evidence object a command names, if it is registered for the command's case. */
  function Found(evidence: map<(Str, Str), Evidence>, key: CaseKey, body: Body): Option<Evidence> {
    if body.LinkEvidence? && (key.tenantId, body.evidenceId) in evidence
      && evidence[(key.tenantId, body.evidenceId)].caseId == key.caseId
    then Some(evidence[(key.tenantId, body.evidenceId)])
    else None
  }

  const SUBJECT_CREATED: Str := Lit("subject.created")
  const ASSUMPTION_RECORDED: Str := Lit("assumption.recorded")
  const REVIEW_RECORDED: Str := Lit("review.recorded")
  const EXECUTION_LINKED: Str := Lit("execution.linked")
  const EVIDENCE_LINKED: Str := Lit("evidence.linked")
  const CLAIM_PROPOSED: Str := Lit("claim.proposed")
  const CLAIM_ACCEPTED: Str := Lit("claim.accepted_as_fact")
  const FINDING_CREATED: Str := Lit("finding.created")
  const CONTRADICTION_RAISED: Str := Lit("contradiction.raised")
  const CONTRADICTION_RESOLVED: Str := Lit("contradiction.resolved")
  const WORK_CREATED: Str := Lit("work_item.created")
  const WORK_COMPLETED: Str := Lit("work_item.completed")
  const RECOMMENDED: Str := Lit("decision.recommendation_submitted")
  const GATE_RECORDED: Str := Lit("decision.gate_recorded")
  const QA_RECORDED: Str := Lit("qa.result_recorded")
  const REVIEW_REQUESTED: Str := Lit("human_review.requested")
  const TRANSITIONED: Str := Lit("case.status_transitioned")
  const DISPOSITIONED: Str := Lit("case.dispositioned")

  function EventType(body: Body): Str {
    match body
    case Unparsable => []
    case AddSubject(_) => SUBJECT_CREATED
    case RecordAssumption(_) => ASSUMPTION_RECORDED
    case RecordReview(_, _) => REVIEW_RECORDED
    case LinkExecution(_) => EXECUTION_LINKED
    case LinkEvidence(_) => EVIDENCE_LINKED
    case ProposeClaim(_, _) => CLAIM_PROPOSED
    case AcceptClaimAsFact(_, _) => CLAIM_ACCEPTED
    case RecordScreeningFinding(_, _, _) => FINDING_CREATED
    case RaiseContradiction(_, _, _) => CONTRADICTION_RAISED
    case ResolveContradiction(_, _, _) => CONTRADICTION_RESOLVED
    case ProposeWorkItem(_) => WORK_CREATED
    case CompleteWorkItem(_) => WORK_COMPLETED
    case SubmitDecisionRecommendation(_, _, _, _) => RECOMMENDED
    case RecordGateResult(_, _, _) => GATE_RECORDED
    case RecordQAResult(_, _, _) => QA_RECORDED
    case RequestHumanReview(_) => REVIEW_REQUESTED
    case TransitionCaseStatus(_) => TRANSITIONED
    case FinalizeDisposition(_, _, _, _, _) => DISPOSITIONED
  }

  function HeadOf(c: Case): Option<Str> {
    match c.head case Some(head) => Some(head.digest) case None => None
  }

  function CommandInput(c: Case, command: Command, mutation: Mutation, env: Env): EventInput {
    var occurredAt := match command.occurredAt case Some(at) => at case None => env.now;
    EventInput(KeyOf(command), c.sequence + 1, EventType(command.body), occurredAt, command.actor, command.commandId,
               command.authority, mutation.evidenceRefs, HeadOf(c))
  }

  /** The checks between the receipt lookup and the mutation. */
  function AuthorityRefusal(c: Case, command: Command): Option<Error> {
    if command.expectedSequence != c.sequence then Some(SequenceConflict)
    else if NormalizeDigest(command.authority.planDigest) != NormalizeDigest(c.planDigest)
      then Some(PlanAuthorityMismatch)
    else if NormalizeDigest(command.authority.policyDigest) != NormalizeDigest(c.policyDigest)
      then Some(PolicyAuthorityMismatch)
    else None
  }

  function SceneOf(config: Config, evidence: map<(Str, Str), Evidence>, c: Case, command: Command, env: Env): Scene {
    Scene(c.tables, c.status, c.sequence, Found(evidence, KeyOf(command), command.body), config.requireScan,
          command.actor, env.opaqueId)
  }

  /** Lineage rows and the case row's own update. */
  function Advanced(c: Case, mutation: Mutation): Case {
    c.(tables := c.tables.(lineage := c.tables.lineage + multiset(mutation.edges)),
       sequence := c.sequence + 1,
       status := if mutation.status.Some? then mutation.status.value else c.status)
  }

  function ResponseOf(c: Case, e: Event, mutation: Mutation): Response {
    Response(c.sequence + 1, e.eventId, Some(e.eventDigest), mutation.created)
  }

  /** The case once event, lineage, case row and receipt of an accepted command are written. */
  function Finished(h: Hashes, c: Case, command: Command, mutation: Mutation, e: Event): Case {
    var moved := Advanced(WithEvent(c.(tables := mutation.tables), e), mutation);
    var receipt := Receipt(h.command(command), ResponseOf(c, e, mutation));
    WithReceipt(moved, command.commandId, command.idempotencyKey, receipt)
  }

  /** The case after an accepted mutation and its event, when every unique key is free. */
  function Admitted(h: Hashes, c: Case, eventIds: set<Str>, command: Command, mutation: Mutation,
                    e: Event): Result<Case, Error>
  {
    if !EventFits(c, eventIds, e) then Err(Conflict)
    else if !ReceiptFits(c, command.commandId, command.idempotencyKey) then Err(Conflict)
    else Ok(Finished(h, c, command, mutation, e))
  }

  function Admit(h: Hashes, c: Case, eventIds: set<Str>, command: Command, mutation: Mutation,
                 env: Env): (r: Result<Case, Error>)
    ensures r.Ok? ==> c.sequence + 1 in r.value.events && command.idempotencyKey in r.value.receipts
  {
    Admitted(h, c, eventIds, command, mutation, NewEvent(h, CommandInput(c, command, mutation, env), env))
  }

  /** The case after the mutation, if there is one, and everything that follows it. */
  function Close(h: Hashes, c: Case, eventIds: set<Str>, command: Command, applied: Result<Mutation, Error>,
                 env: Env): (r: Result<Case, Error>)
    ensures r.Ok? ==> c.sequence + 1 in r.value.events && command.idempotencyKey in r.value.receipts
  {
    match applied
    case Err(error) => Err(error)
    case Ok(mutation) => Admit(h, c, eventIds, command, mutation, env)
  }

  function Execute(h: Hashes, config: Config, db: Database, c: Case, command: Command,
                   env: Env): (r: Result<Case, Error>)
    ensures r.Ok? ==> c.sequence + 1 in r.value.events && command.idempotencyKey in r.value.receipts
  {
    if AuthorityRefusal(c, command).Some? then Err(AuthorityRefusal(c, command).value)
    else Close(h, c, db.eventIds, command, Mutate(SceneOf(config, db.evidence, c, command, env), command.body), env)
  }

  function Submit(h: Hashes, config: Config, db: Database, command: Command, env: Env): (Database, Reply) {
    var key := KeyOf(command);
    if key !in db.cases then (db, Refused(CaseNotFound))
    else
      var c := db.cases[key];
      if command.idempotencyKey in c.receipts then
        var prior := c.receipts[command.idempotencyKey];
        (db, if prior.requestDigest == h.command(command) then Replayed(prior.response)
         else Refused(IdempotencyConflict))
      else
        match Execute(h, config, db, c, command, env)
        case Err(error) => (db, Refused(error))
        case Ok(after) =>
          (Committed(db, key, after, after.events[c.sequence + 1]),
           Accepted(after.receipts[command.idempotencyKey].response))
  }

  // ----- The relay -----

  /** The relay marks the rows that the sink accepted. */
  function Published(outbox: map<Str, Announcement>, ids: set<Str>): map<Str, Announcement> {
    map id | id in outbox :: if id in ids then outbox[id].(published := true) else outbox[id]
  }

  /** The published rows among those past retention. */
  function Purged(outbox: map<Str, Announcement>, expired: set<Str>): set<Str> {
    set id | id in outbox && id in expired && outbox[id].published
  }

  // ----- Steps -----

  /** `PurgeOutbox` names the rows past retention; which they are is up to the clock. */
  datatype Op =
    | CreateCase(creation: Creation, idempotencyKey: Str, env: Env)
    | RegisterEvidence(registration: Registration, idempotencyKey: Str, env: Env)
    | SubmitCommand(command: Command, env: Env)
    | MarkPublished(ids: set<Str>)
    | PurgeOutbox(expired: set<Str>)

  function Transact(h: Hashes, config: Config, db: Database, op: Op): (Database, Reply) {
    match op
    case CreateCase(creation, key, env) => Create(h, db, creation, key, env)
    case RegisterEvidence(registration, key, env) => Register(h, config, db, registration, key, env)
    case SubmitCommand(command, env) => Submit(h, config, db, command, env)
    case MarkPublished(ids) => (db.(outbox := Published(db.outbox, ids)), Relayed)
    case PurgeOutbox(expired) => (db.(outbox := db.outbox - Purged(db.outbox, expired)), Relayed)
  }

  function Step(h: Hashes, config: Config, db: Database, op: Op): Database {
    Transact(h, config, db, op).0
  }

  function ReplyTo(h: Hashes, config: Config, db: Database, op: Op): Reply {
    Transact(h, config, db, op).1
  }
}
