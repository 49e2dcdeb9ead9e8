/**
 The case store's transactions statement by statement. A refusal rolls back to the rows the transaction
 began with, so each method's new state and reply are those of its step.
 */
module CaseStore {
  import opened CodeUnits
  import opened Prelude
  import opened EventChain
  import opened CaseCommands
  import opened CaseLedger

  /** How a command's transaction ends: everything as before, or one case changed and one event announced. */
  ghost predicate Ends(before: Database, command: Command, closed: Result<Case, Error>, r: Result<Response, Error>,
                       after: Database)
  {
    KeyOf(command) in before.cases &&
    match closed
    case Err(error) => r == Err(error) && after == before
    case Ok(c) =>
      && command.idempotencyKey in c.receipts && r == Ok(c.receipts[command.idempotencyKey].response)
      && before.cases[KeyOf(command)].sequence + 1 in c.events
      && after == Committed(before, KeyOf(command), c, c.events[before.cases[KeyOf(command)].sequence + 1])
  }

  lemma EndsSubmit(h: Hashes, config: Config, before: Database, command: Command, env: Env, closed: Result<Case, Error>,
                   r: Result<Response, Error>, after: Database)
    requires Ends(before, command, closed, r, after)
             && closed == Execute(h, config, before, before.cases[KeyOf(command)], command, env)
    requires command.idempotencyKey !in before.cases[KeyOf(command)].receipts
    ensures Submit(h, config, before, command, env)
         == (after, match r case Ok(response) => Accepted(response) case Err(error) => Refused(error))
  {
  }

  lemma FinishedRows(h: Hashes, c: Case, command: Command, mutation: Mutation, env: Env)
    ensures var e := NewEvent(h, CommandInput(c, command, mutation, env), env);
            var d := Finished(h, c, command, mutation, e);
            && e.eventId == env.eventId
            && command.idempotencyKey in d.receipts
            && d.receipts[command.idempotencyKey].response == ResponseOf(c, e, mutation)
            && c.sequence + 1 in d.events && d.events[c.sequence + 1] == e
  {
  }

  /** The mutation touches the command's own case alone, so what it leaves is overwritten by the close. */
  lemma CommittedEnds(before: Database, halfway: Case, command: Command, c: Case, after: Database)
    requires KeyOf(command) in before.cases && command.idempotencyKey in c.receipts
    requires before.cases[KeyOf(command)].sequence + 1 in c.events
    requires after == Committed(before.(cases := before.cases[KeyOf(command) := halfway]), KeyOf(command), c,
                                c.events[before.cases[KeyOf(command)].sequence + 1])
    ensures Ends(before, command, Ok(c), Ok(c.receipts[command.idempotencyKey].response), after)
  {
    assert before.cases[KeyOf(command) := halfway][KeyOf(command) := c] == before.cases[KeyOf(command) := c];
  }

  class Store {
    const h: Hashes
    const config: Config
    var cases: map<CaseKey, Case>
    var evidence: map<(Str, Str), Evidence>
    var artifacts: map<(Str, Str), Bytes>
    var registrations: map<(Str, Str), Registered>
    var outbox: map<Str, Announcement>
    var eventIds: set<Str>

    function View(): Database
      reads this
    {
      Database(cases, evidence, artifacts, registrations, outbox, eventIds)
    }

    constructor (h: Hashes, config: Config)
      ensures View() == EMPTY && this.h == h && this.config == config
    {
      this.h, this.config := h, config;
      cases, evidence, artifacts, registrations, outbox, eventIds := map[], map[], map[], map[], map[], {};
    }

    /** Event row, chain head, outbox row; a taken unique key stops the transaction. */
    method AppendCaseEvent(key: CaseKey, input: EventInput, env: Env) returns (appended: Option<Event>)
      requires key in cases
      modifies this`cases, this`outbox, this`eventIds
      ensures appended == if EventFits(old(cases[key]), old(eventIds), NewEvent(h, input, env))
              then Some(NewEvent(h, input, env)) else None
      ensures appended.Some? ==>
                && cases == old(cases)[key := WithEvent(old(cases[key]), appended.value)]
                && outbox == Announced(old(outbox), appended.value) && eventIds == old(eventIds) + {env.eventId}
    {
      var event := Digested(h.event, Undigested(input, env));
      var c := cases[key];
      if event.caseSequence in c.events || event.eventId in eventIds
         || exists k :: k in c.events && c.events[k].eventDigest == event.eventDigest
      {
        return None;
      }
      c := c.(events := c.events[event.caseSequence := event]);
      c := c.(head := Some(Head(event.caseSequence, event.eventDigest)));
      cases := cases[key := c];
      outbox := outbox[event.eventId := Announcement(input.key, event.caseSequence, event.eventDigest, false)];
      eventIds := eventIds + {event.eventId};
      return Some(event);
    }

    method WriteReceipt(key: CaseKey, commandId: Str, idempotencyKey: Str, receipt: Receipt) returns (written: bool)
      requires key in cases
      modifies this`cases
      ensures written <==> ReceiptFits(old(cases[key]), commandId, idempotencyKey)
      ensures written ==> cases == old(cases)[key := WithReceipt(old(cases[key]), commandId, idempotencyKey, receipt)]
      ensures !written ==> cases == old(cases)
    {
      var c := cases[key];
      if commandId in c.commandIds || idempotencyKey in c.receipts {
        return false;
      }
      cases := cases[key :=
                     c.(commandIds := c.commandIds + {commandId}, receipts := c.receipts[idempotencyKey := receipt])];
      return true;
    }

    method CreateKycCase(request: Creation, idempotencyKey: Str, env: Env) returns (reply: Reply)
      modifies this`cases, this`outbox, this`eventIds
      ensures View() == Create(h, old(View()), request, idempotencyKey, env).0
      ensures reply == Create(h, old(View()), request, idempotencyKey, env).1
    {
      if idempotencyKey == [] {
        return Refused(IdempotencyKeyRequired);
      }
      var key := CaseKey(request.tenantId, h.caseId(request.tenantId, idempotencyKey));
      if key in cases && idempotencyKey in cases[key].receipts {
        var prior := cases[key].receipts[idempotencyKey];
        return if prior.requestDigest != h.creation(request) then Refused(IdempotencyConflict)
               else Replayed(prior.response);
      }
      if key in cases || ExternalRefTaken(cases, request.tenantId, request.externalRef) {
        return Refused(Conflict);
      }
      var before, outboxBefore, idsBefore := cases, outbox, eventIds;
      cases := cases[key := NewCase(request)];
      var input := CreatedInput(h, request, key, idempotencyKey, env);
      var appended := AppendCaseEvent(key, input, env);
      if appended.None? {
        cases, outbox, eventIds := before, outboxBefore, idsBefore;
        return Refused(Conflict);
      }
      var response := Response(1, env.eventId, None, None);
      var written := WriteReceipt(key, input.commandId, idempotencyKey, Receipt(h.creation(request), response));
      assert cases == before[key := cases[key]];
      return Accepted(response);
    }

    method RegisterEvidence(request: Registration, idempotencyKey: Str, env: Env) returns (reply: Reply)
      modifies this`evidence, this`artifacts, this`registrations
      ensures View() == Register(h, config, old(View()), request, idempotencyKey, env).0
      ensures reply == Register(h, config, old(View()), request, idempotencyKey, env).1
    {
      if idempotencyKey == [] {
        return Refused(IdempotencyKeyRequired);
      }
      if request.content.None? || request.content.value == [] {
        return Refused(ContentInvalid);
      }
      var content := request.content.value;
      if |content| > config.maxBytes {
        return Refused(ContentTooLarge);
      }
      var digest := h.content(content);
      if request.declaredDigest.Some? && NormalizeDigest(request.declaredDigest.value) != digest {
        return Refused(DigestMismatch);
      }
      if (request.tenantId, idempotencyKey) in registrations {
        var prior := registrations[(request.tenantId, idempotencyKey)];
        return if prior.requestDigest != h.registration(request) then Refused(IdempotencyConflict)
               else EvidenceReply(false, prior.evidenceId);
      }
      if CaseKey(request.tenantId, request.caseId) !in cases {
        return Refused(CaseNotFound);
      }
      var before := artifacts;
      if (request.tenantId, digest) !in artifacts {
        artifacts := artifacts[(request.tenantId, digest) := content];
      }
      if (request.tenantId, env.opaqueId) in evidence {
        artifacts := before;
        return Refused(Conflict);
      }
      evidence := evidence[(request.tenantId, env.opaqueId) := Evidence(request.caseId, digest, true, false)];
      registrations :=
          registrations[(request.tenantId, idempotencyKey) := Registered(h.registration(request), env.opaqueId)];
      return EvidenceReply(true, env.opaqueId);
    }

    /** As many linked rows as references: none repeated, all of them linked. */
    method EnsureLinkedEvidence(key: CaseKey, refs: seq<Str>) returns (linked: bool)
      requires key in cases
      ensures linked <==> Distinct(refs) && forall r :: r in refs ==> r in cases[key].tables.linked
    {
      if |refs| == 0 {
        return true;
      }
      var found: set<Str> := {};
      for i := 0 to |refs|
        invariant found == Hits(refs[..i], cases[key].tables.linked)
      {
        assert refs[..i + 1] == refs[..i] + [refs[i]];
        if refs[i] in cases[key].tables.linked {
          found := found + {refs[i]};
        }
      }
      assert refs[..|refs|] == refs;
      AllFoundExactly(refs, cases[key].tables.linked);
      return |found| == |refs|;
    }

    method InsertClaim(key: CaseKey, id: Str, refs: seq<Str>) returns (r: Result<Mutation, Error>)
      requires key in cases
      modifies this`cases
      ensures r == DoProposeClaim(old(cases[key].tables), id, refs)
      ensures r.Ok? ==> cases == old(cases)[key := old(cases[key]).(tables := r.value.tables)]
    {
      var t := cases[key].tables;
      if refs == [] {
        return Err(PayloadInvalid);
      }
      var linked := EnsureLinkedEvidence(key, refs);
      AllFoundExactly(refs, t.linked);
      if !linked {
        return Err(EvidenceNotLinked);
      }
      if id in t.claims {
        return Err(Conflict);
      }
      t := t.(claims := t.claims[id := Claim(refs, false)]);
      cases := cases[key := cases[key].(tables := t)];
      return Ok(Mutation(t, None, refs, Some(id), AssertsEdges(refs, id)));
    }

    /** The fact goes in first; the claims it rests on are marked after it. */
    method InsertFact(key: CaseKey, id: Str, refs: seq<Str>) returns (r: Result<Mutation, Error>)
      requires key in cases
      modifies this`cases
      ensures r == DoAcceptClaim(old(cases[key].tables), id, refs)
      ensures r.Ok? ==> cases == old(cases)[key := old(cases[key]).(tables := r.value.tables)]
    {
      var t := cases[key].tables;
      if refs == [] {
        return Err(PayloadInvalid);
      }
      if |Hits(refs, t.claims.Keys)| != |refs| {
        return Err(ClaimNotFound);
      }
      if id in t.facts {
        return Err(Conflict);
      }
      cases := cases[key := cases[key].(tables := t.(facts := t.facts[id := Fact(refs)]))];
      t := cases[key].tables;
      cases := cases[key := cases[key].(tables := t.(claims := Accept(t.claims, refs)))];
      return Ok(Mutation(cases[key].tables, None, [], Some(id), AcceptedAsEdges(refs, id)));
    }

    method InsertDisposition(key: CaseKey, id: Str, row: Disposition, refs: seq<Str>)
      returns (r: Result<Mutation, Error>)
      requires key in cases
      modifies this`cases
      ensures r == DoFinalize(old(cases[key].tables), old(cases[key].status), id, row, refs)
      ensures r.Ok? ==> cases == old(cases)[key := old(cases[key]).(tables := r.value.tables)]
      ensures r.Ok? ==>
                && row.actor.kind == Human
                && (Lit("KYC.Analyst") in row.actor.roles || Lit("KYC.SeniorReviewer") in row.actor.roles)
                && old(cases[key].status) == HumanReview
                && var t := old(cases[key].tables);
                   && row.gate in t.gates && t.gates[row.gate].authorized
                   && t.gates[row.gate].recommendation == row.recommendation
                   && forall k :: k in t.contradictions && !t.contradictions[k].state.Settled? ==>
                        t.contradictions[k].materiality != Lit("HIGH")
                        && t.contradictions[k].materiality != Lit("MATERIAL")
    {
      var c := cases[key];
      if row.actor.kind != Human || !(ANALYST in row.actor.roles || SENIOR_REVIEWER in row.actor.roles) {
        return Err(HumanAuthorityRequired);
      }
      if c.status != HumanReview {
        return Err(NotUnderReview);
      }
      if row.gate !in c.tables.gates || !c.tables.gates[row.gate].authorized
        || c.tables.gates[row.gate].recommendation != row.recommendation
      {
        return Err(GateNotAuthorized);
      }
      if Blocked(c.tables) {
        return Err(MaterialContradictionOpen);
      }
      if id in c.tables.dispositions {
        return Err(Conflict);
      }
      var t := c.tables.(dispositions := c.tables.dispositions[id := row]);
      cases := cases[key := c.(tables := t)];
      return Ok(Mutation(t, Some(StatusOf(row.outcome)), refs, Some(id), [Authorizes(row.gate, id)]));
    }

    /** The row is read for the tenant and the case; linking twice leaves the first row. */
    method InsertLink(key: CaseKey, id: Str) returns (r: Result<Mutation, Error>)
      requires key in cases
      modifies this`cases
      ensures r == DoLinkEvidence(old(cases[key].tables), Found(evidence, key, LinkEvidence(id)), config.requireScan,
                                  id)
      ensures r.Ok? ==> cases == old(cases)[key := old(cases[key]).(tables := r.value.tables)]
    {
      if (key.tenantId, id) !in evidence || evidence[(key.tenantId, id)].caseId != key.caseId {
        return Err(EvidenceNotFound);
      }
      var row := evidence[(key.tenantId, id)];
      if !row.digestVerified {
        return Err(EvidenceNotVerified);
      }
      if config.requireScan && !row.verifiedClean {
        return Err(ScanRequired);
      }
      var t := cases[key].tables;
      t := t.(linked := t.linked + {id});
      cases := cases[key := cases[key].(tables := t)];
      return NoLineage(t, [id], id);
    }

    method InsertFinding(key: CaseKey, id: Str, refs: seq<Str>, facts: seq<Str>) returns (r: Result<Mutation, Error>)
      requires key in cases
      modifies this`cases
      ensures r == DoRecordFinding(old(cases[key].tables), id, refs, facts)
      ensures r.Ok? ==> cases == old(cases)[key := old(cases[key]).(tables := r.value.tables)]
    {
      var t := cases[key].tables;
      if |refs| + |facts| == 0 {
        return Err(BasisRequired);
      }
      var linked := EnsureLinkedEvidence(key, refs);
      AllFoundExactly(refs, t.linked);
      if !linked {
        return Err(EvidenceNotLinked);
      }
      if (FindingObject, id) in t.objects {
        return Err(Conflict);
      }
      t := t.(objects := t.objects + {(FindingObject, id)});
      cases := cases[key := cases[key].(tables := t)];
      return Ok(Mutation(t, None, refs, Some(id), SupportEdges(refs, facts, id)));
    }

    method InsertGate(key: CaseKey, id: Str, row: Gate) returns (r: Result<Mutation, Error>)
      requires key in cases
      modifies this`cases
      ensures r == DoGate(old(cases[key].tables), id, row)
      ensures r.Ok? ==> cases == old(cases)[key := old(cases[key]).(tables := r.value.tables)]
    {
      var t := cases[key].tables;
      if row.recommendation !in t.recommendations {
        return Err(RecommendationNotFound);
      }
      if id in t.gates {
        return Err(Conflict);
      }
      t := t.(gates := t.gates[id := row]);
      cases := cases[key := cases[key].(tables := t)];
      return Ok(Mutation(t, None, [], Some(id), [EvaluatedBy(row.recommendation, id)]));
    }

    /** The author of a recommendation does not review it. */
    method InsertQaResult(key: CaseKey, id: Str, recommendation: Str, actor: Actor, refs: seq<Str>)
      returns (r: Result<Mutation, Error>)
      requires key in cases
      modifies this`cases
      ensures r == DoQa(old(cases[key].tables), id, recommendation, actor, refs)
      ensures r.Ok? ==> cases == old(cases)[key := old(cases[key]).(tables := r.value.tables)]
    {
      var t := cases[key].tables;
      if recommendation !in t.recommendations {
        return Err(RecommendationNotFound);
      }
      if t.recommendations[recommendation].createdBy.principalId == actor.principalId {
        return Err(SeparationOfDuties);
      }
      if (ReviewObject, id) in t.objects {
        return Err(Conflict);
      }
      t := t.(objects := t.objects + {(ReviewObject, id)});
      cases := cases[key := cases[key].(tables := t)];
      return NoLineage(t, refs, id);
    }

    /**
     `applyMutation`. The commands that look at other rows before they write are carried out above; the
     others write at most one of the rows modelled here, and are applied as their specification says.
     */
    method ApplyMutation(key: CaseKey, command: Command, env: Env) returns (r: Result<Mutation, Error>)
      requires key in cases && key == KeyOf(command)
      modifies this`cases
      ensures r == Mutate(SceneOf(config, evidence, old(cases[key]), command, env), command.body)
      ensures r.Ok? ==> cases == old(cases)[key := old(cases[key]).(tables := r.value.tables)]
    {
      match command.body
      case LinkEvidence(id) => r := InsertLink(key, id);
      case ProposeClaim(id, refs) => r := InsertClaim(key, IdOr(id, env.opaqueId), refs);
      case AcceptClaimAsFact(id, refs) => r := InsertFact(key, IdOr(id, env.opaqueId), refs);
      case RecordScreeningFinding(id, refs, facts) => r := InsertFinding(key, IdOr(id, env.opaqueId), refs, facts);
      case RecordGateResult(id, recommendation, authorized) =>
        r := InsertGate(key, IdOr(id, env.opaqueId), Gate(recommendation, authorized, cases[key].sequence));
      case RecordQAResult(id, recommendation, refs) =>
        r := InsertQaResult(key, IdOr(id, env.opaqueId), recommendation, command.actor, refs);
      case FinalizeDisposition(id, recommendation, gate, outcome, refs) =>
        r := InsertDisposition(key, IdOr(id, env.opaqueId), Disposition(outcome, recommendation, gate, command.actor),
                               refs);
      case _ =>
        r := Mutate(SceneOf(config, evidence, cases[key], command, env), command.body);
        if r.Ok? {
          cases := cases[key := cases[key].(tables := r.value.tables)];
        }
    }

    method InsertLineage(key: CaseKey, edges: seq<Edge>)
      requires key in cases
      modifies this`cases
      ensures var t := old(cases[key].tables);
              cases == old(cases)[key := old(cases[key]).(tables := t.(lineage := t.lineage + multiset(edges)))]
    {
      var c := cases[key];
      var lineage := c.tables.lineage;
      for i := 0 to |edges|
        invariant lineage == c.tables.lineage + multiset(edges[..i])
      {
        assert edges[..i + 1] == edges[..i] + [edges[i]];
        lineage := lineage + multiset{edges[i]};
      }
      assert edges[..|edges|] == edges;
      cases := cases[key := c.(tables := c.tables.(lineage := lineage))];
    }

    /** Lineage, case row and receipt, once the event is written. */
    method FinishCase(command: Command, c: Case, mutation: Mutation, event: Event) returns (response: Option<Response>)
      requires KeyOf(command) in cases && cases[KeyOf(command)] == WithEvent(c.(tables := mutation.tables), event)
      modifies this`cases
      ensures response.Some? <==> ReceiptFits(c, command.commandId, command.idempotencyKey)
      ensures response.Some? ==> response.value == ResponseOf(c, event, mutation)
      ensures response.Some? ==>
                cases == old(cases)[KeyOf(command) := Finished(h, c, command, mutation, event)]
    {
      var key := KeyOf(command);
      InsertLineage(key, mutation.edges);
      var row := cases[key];
      var status := if mutation.status.Some? then mutation.status.value else row.status;
      cases := cases[key := row.(sequence := c.sequence + 1, status := status)];
      var answer := Response(c.sequence + 1, event.eventId, Some(event.eventDigest), mutation.created);
      var written := WriteReceipt(key, command.commandId, command.idempotencyKey, Receipt(h.command(command), answer));
      return if written then Some(answer) else None;
    }

    /** Everything after the mutation: event, lineage, case row, receipt. */
    method CloseTransaction(command: Command, c: Case, mutation: Mutation, env: Env)
      returns (response: Option<Response>, ghost admitted: Result<Case, Error>)
      requires KeyOf(command) in cases && cases[KeyOf(command)] == c.(tables := mutation.tables)
      modifies this`cases, this`outbox, this`eventIds
      ensures admitted == Admit(h, c, old(eventIds), command, mutation, env)
      ensures if admitted.Err? then response.None? && admitted.error == Conflict
              else && command.idempotencyKey in admitted.value.receipts && c.sequence + 1 in admitted.value.events
                   && response == Some(admitted.value.receipts[command.idempotencyKey].response)
                   && View() == Committed(old(View()), KeyOf(command), admitted.value,
                                          admitted.value.events[c.sequence + 1])
    {
      ghost var e := NewEvent(h, CommandInput(c, command, mutation, env), env);
      FinishedRows(h, c, command, mutation, env);
      hide NewEvent, Finished;
      admitted := Admitted(h, c, eventIds, command, mutation, e);
      var appended := AppendCaseEvent(KeyOf(command), CommandInput(c, command, mutation, env), env);
      if appended.None? {
        return None, admitted;
      }
      response := FinishCase(command, c, mutation, appended.value);
    }

    /** The checks between the receipt lookup and the mutation, in order. */
    method CheckAuthority(current: Case, command: Command) returns (refusal: Option<Error>)
      ensures refusal == AuthorityRefusal(current, command)
    {
      if command.expectedSequence != current.sequence {
        return Some(SequenceConflict);
      }
      if NormalizeDigest(command.authority.planDigest) != NormalizeDigest(current.planDigest) {
        return Some(PlanAuthorityMismatch);
      }
      if NormalizeDigest(command.authority.policyDigest) != NormalizeDigest(current.policyDigest) {
        return Some(PolicyAuthorityMismatch);
      }
      return None;
    }

    /** What is left of the transaction that began on `before` once it has mutated: the close, or the rollback. */
    method CloseOrRollBack(before: map<CaseKey, Case>, command: Command, mutation: Mutation, env: Env)
      returns (r: Result<Response, Error>, ghost closed: Result<Case, Error>)
      requires KeyOf(command) in before
      requires cases == before[KeyOf(command) := before[KeyOf(command)].(tables := mutation.tables)]
      modifies this`cases, this`outbox, this`eventIds
      ensures closed == Admit(h, before[KeyOf(command)], old(eventIds), command, mutation, env)
      ensures Ends(old(View()).(cases := before), command, closed, r, View())
    {
      hide Admit;
      ghost var start, halfway := View().(cases := before), cases[KeyOf(command)];
      var outboxBefore, idsBefore := outbox, eventIds;
      var response;
      response, closed := CloseTransaction(command, before[KeyOf(command)], mutation, env);
      if response.None? {
        cases, outbox, eventIds := before, outboxBefore, idsBefore;
        assert View() == start;
        return Err(Conflict), closed;
      }
      CommittedEnds(start, halfway, command, closed.value, View());
      return Ok(response.value), closed;
    }

    /** The transaction of a command that passed the checks. */
    method Transact(command: Command, env: Env) returns (r: Result<Response, Error>, ghost closed: Result<Case, Error>)
      requires KeyOf(command) in cases
      modifies this`cases, this`outbox, this`eventIds
      ensures closed == old(Close(h, cases[KeyOf(command)], eventIds, command,
                                  Mutate(SceneOf(config, evidence, cases[KeyOf(command)], command, env),
                                         command.body), env))
      ensures Ends(old(View()), command, closed, r, View())
    {
      var before := cases;
      var applied := ApplyMutation(KeyOf(command), command, env);
      if applied.Err? {
        cases := before;
        return Err(applied.error), Err(applied.error);
      }
      r, closed := CloseOrRollBack(before, command, applied.value, env);
    }

    method SubmitBusinessCommand(command: Command, env: Env) returns (reply: Reply)
      modifies this`cases, this`outbox, this`eventIds
      ensures View() == Submit(h, config, old(View()), command, env).0
      ensures reply == Submit(h, config, old(View()), command, env).1
    {
      var key := KeyOf(command);
      if key !in cases {
        return Refused(CaseNotFound);
      }
      if command.idempotencyKey in cases[key].receipts {
        var prior := cases[key].receipts[command.idempotencyKey];
        return if prior.requestDigest != h.command(command) then Refused(IdempotencyConflict)
               else Replayed(prior.response);
      }
      var refusal := CheckAuthority(cases[key], command);
      if refusal.Some? {
        return Refused(refusal.value);
      }
      ghost var before := View();
      var r, closed := Transact(command, env);
      EndsSubmit(h, config, before, command, env, closed, r, View());
      return match r case Ok(response) => Accepted(response) case Err(error) => Refused(error);
    }

    // ----- The relay's statements over the case outbox -----

    method MarkOutboxPublished(ids: set<Str>)
      modifies this`outbox
      ensures View() == Step(h, config, old(View()), Op.MarkPublished(ids))
    {
      outbox := map id | id in outbox :: outbox[id].(published := outbox[id].published || id in ids);
    }

    /** Deletes the published rows among those past retention, and says how many. */
    method PurgeOutboxRows(expired: set<Str>) returns (count: nat)
      modifies this`outbox
      ensures View() == Step(h, config, old(View()), Op.PurgeOutbox(expired))
      ensures count == |Purged(old(outbox), expired)|
    {
      var gone := set id | id in outbox && id in expired && outbox[id].published;
      outbox := outbox - gone;
      count := |gone|;
    }
  }
}
