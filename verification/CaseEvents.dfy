/**
 What the case store writes: the columns of each event, the row of a new case, and the rows of registered
 evidence, said of the requests that caused them.
 An event's type and schema are compared with the names the source writes, letter by letter.
 */
module CaseEvents {
  import opened CodeUnits
  import opened Prelude
  import opened Json
  import opened EventChain
  import opened CaseCommands
  import opened CaseLedger
  import opened CaseGuards

  // ----- Events -----

  /** A field of a JSON object. */
  predicate Field(v: Value, i: nat, name: Str, value: Value) {
    v.Object? && i < |v.members| && v.members[i] == Member(name, value)
  }

  /** The actor as JSON; one that belongs to no execution has no member for it. */
  lemma ActorExactly(actor: Actor)
    ensures ActorJson(actor).Object? && |ActorJson(actor).members| == 4
    ensures Field(ActorJson(actor), 0, Lit("type"),
                  Text(match actor.kind
                       case Agent => Lit("AGENT")
                       case Human => Lit("HUMAN")
                       case System => Lit("SYSTEM")
                       case Integration => Lit("INTEGRATION")))
    ensures Field(ActorJson(actor), 1, Lit("principalId"), Text(actor.principalId))
    ensures Field(ActorJson(actor), 2, Lit("executionId"),
                  if actor.executionId.Some? then Text(actor.executionId.value) else Undefined)
    ensures Field(ActorJson(actor), 3, Lit("roles"),
                  Array(seq(|actor.roles|, i requires 0 <= i < |actor.roles| => Text(actor.roles[i]))))
  {
  }

  lemma AuthorityFields(authority: Authority)
    ensures AuthorityJson(authority).Object? && |AuthorityJson(authority).members| == 3
    ensures Field(AuthorityJson(authority), 0, Lit("planDigest"), Text(authority.planDigest))
    ensures Field(AuthorityJson(authority), 1, Lit("permissionEnvelopeDigest"), Text(authority.permissionDigest))
    ensures Field(AuthorityJson(authority), 2, Lit("policySnapshotDigest"), Text(authority.policyDigest))
  {
  }

  /** The type of a command's event. */
  function TypeName(body: Body): string {
    match body
    case Unparsable => ""
    case AddSubject(_) => "subject.created"
    case RecordAssumption(_) => "assumption.recorded"
    case RecordReview(_, _) => "review.recorded"
    case LinkExecution(_) => "execution.linked"
    case LinkEvidence(_) => "evidence.linked"
    case ProposeClaim(_, _) => "claim.proposed"
    case AcceptClaimAsFact(_, _) => "claim.accepted_as_fact"
    case RecordScreeningFinding(_, _, _) => "finding.created"
    case RaiseContradiction(_, _, _) => "contradiction.raised"
    case ResolveContradiction(_, _, _) => "contradiction.resolved"
    case ProposeWorkItem(_) => "work_item.created"
    case CompleteWorkItem(_) => "work_item.completed"
    case SubmitDecisionRecommendation(_, _, _, _) => "decision.recommendation_submitted"
    case RecordGateResult(_, _, _) => "decision.gate_recorded"
    case RecordQAResult(_, _, _) => "qa.result_recorded"
    case RequestHumanReview(_) => "human_review.requested"
    case TransitionCaseStatus(_) => "case.status_transitioned"
    case FinalizeDisposition(_, _, _, _, _) => "case.dispositioned"
  }

  /** The text is this name. */
  predicate Spells(text: Str, name: string) {
    |text| == |name| && forall i :: 0 <= i < |name| ==> text[i] as int == name[i] as int
  }

  predicate OfObjects(body: Body) {
    body.AddSubject? || body.RecordAssumption? || body.RecordReview? || body.LinkExecution? || body.LinkEvidence?
    || body.Unparsable?
  }

  predicate OfFindings(body: Body) {
    body.ProposeClaim? || body.AcceptClaimAsFact? || body.RecordScreeningFinding? || body.RaiseContradiction?
    || body.ResolveContradiction?
  }

  lemma LitSpells(name: string)
    requires Ascii(name)
    ensures Spells(Lit(name), name)
  {
  }

  lemma ObjectTypes(body: Body)
    requires OfObjects(body)
    ensures Spells(EventType(body), TypeName(body))
  {
    hide Spells;
    match body
    case AddSubject(_) => LitSpells("subject.created");
    case RecordAssumption(_) => LitSpells("assumption.recorded");
    case RecordReview(_, _) => LitSpells("review.recorded");
    case LinkExecution(_) => LitSpells("execution.linked");
    case LinkEvidence(_) => LitSpells("evidence.linked");
    case Unparsable => LitSpells("");
  }

  lemma FindingTypes(body: Body)
    requires OfFindings(body)
    ensures Spells(EventType(body), TypeName(body))
  {
    hide Spells;
    match body
    case ProposeClaim(_, _) => LitSpells("claim.proposed");
    case AcceptClaimAsFact(_, _) => LitSpells("claim.accepted_as_fact");
    case RecordScreeningFinding(_, _, _) => LitSpells("finding.created");
    case RaiseContradiction(_, _, _) => LitSpells("contradiction.raised");
    case ResolveContradiction(_, _, _) => LitSpells("contradiction.resolved");
  }

  lemma WorkTypes(body: Body)
    requires body.ProposeWorkItem? || body.CompleteWorkItem? || body.RequestHumanReview? || body.TransitionCaseStatus?
    ensures Spells(EventType(body), TypeName(body))
  {
    hide Spells;
    match body
    case ProposeWorkItem(_) => LitSpells("work_item.created");
    case CompleteWorkItem(_) => LitSpells("work_item.completed");
    case RequestHumanReview(_) => LitSpells("human_review.requested");
    case TransitionCaseStatus(_) => LitSpells("case.status_transitioned");
  }

  lemma DecisionTypes(body: Body)
    requires body.SubmitDecisionRecommendation? || body.RecordGateResult? || body.RecordQAResult?
             || body.FinalizeDisposition?
    ensures Spells(EventType(body), TypeName(body))
  {
    hide Spells;
    match body
    case SubmitDecisionRecommendation(_, _, _, _) => LitSpells("decision.recommendation_submitted");
    case RecordGateResult(_, _, _) => LitSpells("decision.gate_recorded");
    case RecordQAResult(_, _, _) => LitSpells("qa.result_recorded");
    case FinalizeDisposition(_, _, _, _, _) => LitSpells("case.dispositioned");
  }

  lemma TypeExactly(body: Body)
    ensures Spells(EventType(body), TypeName(body))
  {
    hide EventType, TypeName, Spells;
    if OfObjects(body) {
      ObjectTypes(body);
    } else if OfFindings(body) {
      FindingTypes(body);
    } else if body.ProposeWorkItem? || body.CompleteWorkItem? || body.RequestHumanReview?
              || body.TransitionCaseStatus? {
      WorkTypes(body);
    } else {
      DecisionTypes(body);
    }
  }

  /** The envelope's members, by name. */
  const ENVELOPE: seq<string> :=
    ["eventId", "tenantId", "caseId", "caseSequence", "eventType", "eventSchema", "occurredAt", "recordedAt", "actor",
     "commandRef", "authority", "payload", "evidenceRefs", "previousEventDigest"]

  lemma FieldNames()
    ensures |FIELDS| == 14 && forall i :: 0 <= i < 14 ==> Spells(FIELDS[i], ENVELOPE[i])
  {
  }

  /** What an event's digest is taken of: its other columns under these names. */
  lemma EnvelopeExactly(e: Event)
    ensures Envelope(e).Object? && |Envelope(e).members| == 14
    ensures forall i :: 0 <= i < 14 ==> Spells(Envelope(e).members[i].key, ENVELOPE[i])
    ensures forall i :: 0 <= i < 14 ==>
              Envelope(e).members[i].value
              == [Text(e.eventId), Text(e.tenantId), Text(e.caseId), Number(Digits(e.caseSequence)), Text(e.eventType),
                  Text(e.eventSchema), Text(e.occurredAt), Text(e.recordedAt), e.actor, Text(e.commandRef),
                  e.authority, e.payload,
                  Array(seq(|e.evidenceRefs|, j requires 0 <= j < |e.evidenceRefs| => Text(e.evidenceRefs[j]))),
                  if e.previousEventDigest.Some? then Text(e.previousEventDigest.value) else Null][i]
  {
    FieldNames();
    hide FIELDS, ENVELOPE;
  }

  /** Work and executions are the harness's events, all others the case's own. */
  function SchemaName(body: Body): string {
    (if OfHarness(body) then "harness." else "kyc.") + TypeName(body) + ".v1"
  }

  predicate OfHarness(body: Body) {
    body.ProposeWorkItem? || body.CompleteWorkItem? || body.LinkExecution?
  }

  lemma NamesStart(body: Body)
    ensures OfHarness(body) ==> "work_item." <= TypeName(body) || "execution." <= TypeName(body)
    ensures !OfHarness(body) ==> !("w" <= TypeName(body)) && !("ex" <= TypeName(body))
  {
    var w, ex, name := "w", "ex", TypeName(body);
    if !OfHarness(body) && name != "" {
      assert w[0] == 'w' && name[0] != 'w';
      assert ex[0] == 'e' && ex[1] == 'x' && (name[0] != 'e' || name[1] != 'x');
    }
  }

  /** The types that start as the harness's do are exactly those of its commands. */
  lemma HarnessTypes(body: Body)
    ensures WORK_ITEM <= EventType(body) || EXECUTION <= EventType(body) <==> OfHarness(body)
  {
    TypeExactly(body);
    NamesStart(body);
    var text, name := EventType(body), TypeName(body);
    hide EventType, TypeName, OfHarness;
    StartsAlike(text, name, WORK_ITEM, "work_item.");
    StartsAlike(text, name, EXECUTION, "execution.");
    if WORK_ITEM <= text {
      assert name[0] == 'w' && "w" <= name;
    } else if EXECUTION <= text {
      assert name[0] == 'e' && name[1] == 'x' && "ex" <= name;
    }
  }

  lemma StartsAlike(text: Str, name: string, start: Str, prefix: string)
    requires Spells(text, name) && Spells(start, prefix)
    ensures start <= text <==> prefix <= name
  {
    if prefix <= name {
      assert forall i :: 0 <= i < |prefix| ==> prefix[i] == name[i] && start[i] as int == text[i] as int;
    }
    if start <= text {
      assert forall i :: 0 <= i < |prefix| ==> start[i] == text[i] && prefix[i] as int == name[i] as int;
    }
  }

  lemma SchemaExactly(body: Body)
    requires !body.Unparsable?
    ensures Spells(Schema(EventType(body)), SchemaName(body))
  {
    HarnessTypes(body);
    TypeExactly(body);
    hide EventType, TypeName;
    SpellsAround(EventType(body), TypeName(body), OfHarness(body));
  }

  lemma SpellsAround(text: Str, name: string, harness: bool)
    requires Spells(text, name) && (WORK_ITEM <= text || EXECUTION <= text <==> harness)
    ensures Spells(Schema(text), (if harness then "harness." else "kyc.") + name + ".v1")
  {
  }

  /** The event of an accepted command: where it stands, what caused it, and what it follows. */
  lemma EventExactly(h: Hashes, c: Case, command: Command, mutation: Mutation, env: Env)
    ensures var e := NewEvent(h, CommandInput(c, command, mutation, env), env);
            && e.eventId == env.eventId && e.tenantId == command.tenantId && e.caseId == command.caseId
            && e.caseSequence == c.sequence + 1
            && e.eventType == EventType(command.body) && e.eventSchema == Schema(EventType(command.body))
            && e.recordedAt == env.now
            && e.occurredAt == (if command.occurredAt.Some? then command.occurredAt.value else env.now)
            && e.actor == ActorJson(command.actor) && e.authority == AuthorityJson(command.authority)
            && e.commandRef == command.commandId && e.payload == env.payload
            && e.evidenceRefs == mutation.evidenceRefs
            && (if c.head.Some? then e.previousEventDigest == Some(c.head.value.digest)
                else e.previousEventDigest.None?)
            && e.eventDigest == h.event(e.(eventDigest := []))
  {
  }

  /** The case after an accepted command: its rows, one event and receipt more, the next sequence and the new head. */
  lemma AdmitExactly(h: Hashes, c: Case, eventIds: set<Str>, command: Command, mutation: Mutation, env: Env)
    ensures var e := NewEvent(h, CommandInput(c, command, mutation, env), env);
            var response := Response(c.sequence + 1, env.eventId, Some(e.eventDigest), mutation.created);
            if && c.sequence + 1 !in c.events && env.eventId !in eventIds
               && (forall k :: k in c.events ==> c.events[k].eventDigest != e.eventDigest)
               && command.commandId !in c.commandIds && command.idempotencyKey !in c.receipts
            then Admit(h, c, eventIds, command, mutation, env)
              == Ok(c.(status := if mutation.status.Some? then mutation.status.value else c.status,
                       sequence := c.sequence + 1,
                       tables := mutation.tables.(lineage := mutation.tables.lineage + multiset(mutation.edges)),
                       events := c.events[c.sequence + 1 := e],
                       head := Some(Head(c.sequence + 1, e.eventDigest)),
                       receipts := c.receipts[command.idempotencyKey := Receipt(h.command(command), response)],
                       commandIds := c.commandIds + {command.commandId}))
            else Admit(h, c, eventIds, command, mutation, env) == Err(Conflict)
  {
    hide NewEvent;
    EventExactly(h, c, command, mutation, env);
  }

  // ----- Creating a case -----

  /** Another case of the tenant has the external reference. */
  ghost predicate ReferenceUsed(db: Database, request: Creation) {
    && request.externalRef.Some?
    && exists key :: key in db.cases && key.tenantId == request.tenantId
                     && db.cases[key].externalRef == request.externalRef
  }

  /** The first event of a case. */
  lemma FirstEventExactly(h: Hashes, request: Creation, key: CaseKey, idempotencyKey: Str, env: Env)
    ensures var e := NewEvent(h, CreatedInput(h, request, key, idempotencyKey, env), env);
            && e.eventId == env.eventId && e.tenantId == key.tenantId && e.caseId == key.caseId && e.caseSequence == 1
            && Spells(e.eventType, "case.created") && Spells(e.eventSchema, "kyc.case.created.v1")
            && e.recordedAt == env.now && e.occurredAt == env.now && e.actor == ActorJson(request.actor)
            && e.authority == AuthorityJson(Authority(NormalizeDigest(request.planDigest), h.permission(request.actor),
                                                      NormalizeDigest(request.policyDigest)))
            && e.commandRef == h.commandId(key.caseId, idempotencyKey) && e.payload == env.payload
            && e.evidenceRefs == [] && e.previousEventDigest.None?
            && e.eventDigest == h.event(e.(eventDigest := []))
  {
    var text := Lit("case.created");
    assert WORK_ITEM[0] != text[0] && EXECUTION[0] != text[0];
    SpellsAround(text, "case.created", false);
  }

  /** A creation is replayed for its key, refused on a used reference or id, and otherwise opens the case in intake. */
  lemma CreateExactly(h: Hashes, db: Database, request: Creation, idempotencyKey: Str, env: Env)
    requires idempotencyKey != []
    ensures var key := CaseKey(request.tenantId, h.caseId(request.tenantId, idempotencyKey));
            var e := NewEvent(h, CreatedInput(h, request, key, idempotencyKey, env), env);
            var response := Response(1, env.eventId, None, None);
            var (after, reply) := Create(h, db, request, idempotencyKey, env);
            if key in db.cases && idempotencyKey in db.cases[key].receipts then
              && after == db
              && reply == if db.cases[key].receipts[idempotencyKey].requestDigest == h.creation(request)
                          then Replayed(db.cases[key].receipts[idempotencyKey].response)
                          else Refused(IdempotencyConflict)
            else if key in db.cases || ReferenceUsed(db, request) || env.eventId in db.eventIds then
              after == db && reply == Refused(Conflict)
            else
              && reply == Accepted(response)
              && after == db.(
                   cases := db.cases[key := Case(
                       Intake, 1, request.externalRef, NormalizeDigest(request.policyDigest),
                       NormalizeDigest(request.planDigest),
                       Tables({}, map[], map[], map[], map[], map[], map[], map[], {}, multiset{}),
                       map[1 := e], Some(Head(1, e.eventDigest)),
                       map[idempotencyKey := Receipt(h.creation(request), response)],
                       {h.commandId(key.caseId, idempotencyKey)})],
                   outbox := db.outbox[env.eventId := Announcement(key, 1, e.eventDigest, false)],
                   eventIds := db.eventIds + {env.eventId})
  {
    var key := CaseKey(request.tenantId, h.caseId(request.tenantId, idempotencyKey));
    FirstEventExactly(h, request, key, idempotencyKey, env);
    var e := NewEvent(h, CreatedInput(h, request, key, idempotencyKey, env), env);
    hide NewEvent;
    assert {} + {h.commandId(key.caseId, idempotencyKey)} == {h.commandId(key.caseId, idempotencyKey)};
    assert map[][1 := e] == map[1 := e];
    var input := CreatedInput(h, request, key, idempotencyKey, env);
    var first := AppendEvent(h, NewCase(request), db.eventIds, input, env);
    if first.Ok? {
      assert first.value.events == map[1 := e] && first.value.receipts == map[];
    }
  }

  lemma KeylessRefused(h: Hashes, config: Config, db: Database, creation: Creation, registration: Registration,
                       env: Env)
    ensures Create(h, db, creation, [], env) == (db, Refused(IdempotencyKeyRequired))
    ensures Register(h, config, db, registration, [], env) == (db, Refused(IdempotencyKeyRequired))
  {
  }

  // ----- Registering evidence -----

  /** A registration is replayed for its key; otherwise its bytes are stored under their digest, unless some are. */
  lemma RegisterExactly(h: Hashes, config: Config, db: Database, request: Registration, idempotencyKey: Str, env: Env)
    requires idempotencyKey != [] && ContentRefusal(h, config, request).None?
    ensures var tenant, digest := request.tenantId, h.content(request.content.value);
            var (after, reply) := Register(h, config, db, request, idempotencyKey, env);
            if (tenant, idempotencyKey) in db.registrations then
              && after == db
              && var prior := db.registrations[(tenant, idempotencyKey)];
                 reply == if prior.requestDigest == h.registration(request) then EvidenceReply(false, prior.evidenceId)
                          else Refused(IdempotencyConflict)
            else if CaseKey(tenant, request.caseId) !in db.cases then after == db && reply == Refused(CaseNotFound)
            else if (tenant, env.opaqueId) in db.evidence then after == db && reply == Refused(Conflict)
            else
              && reply == EvidenceReply(true, env.opaqueId)
              && after == db.(
                   artifacts := if (tenant, digest) in db.artifacts then db.artifacts
                                else db.artifacts[(tenant, digest) := request.content.value],
                   evidence := db.evidence[(tenant, env.opaqueId) := Evidence(request.caseId, digest, true, false)],
                   registrations := db.registrations[(tenant, idempotencyKey) := Registered(h.registration(request),
                                                                                            env.opaqueId)])
  {
  }
}
