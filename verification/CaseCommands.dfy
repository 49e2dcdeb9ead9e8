/**
 The business commands of a case: what each one asks of the case's tables and what it writes there.
 A row keeps the columns some guard, some other command or some property reads.
 */
module CaseCommands {
  import opened CodeUnits
  import opened Prelude

  datatype Status =
    | Intake | Validating | Screening | Investigating | ReadyForDecision | QaReview
    | HumanReview | NeedsInformation | Suspended | Approved | Declined | Closed

  function AllowedTransitions(from: Status): set<Status> {
    match from
    case Intake => {Validating, NeedsInformation, Suspended}
    case Validating => {Screening, NeedsInformation, Suspended}
    case Screening => {Investigating, ReadyForDecision, NeedsInformation, Suspended}
    case Investigating => {Screening, ReadyForDecision, NeedsInformation, HumanReview, Suspended}
    case ReadyForDecision => {QaReview, HumanReview, Investigating, Suspended}
    case QaReview => {HumanReview, ReadyForDecision, Investigating, Suspended}
    case HumanReview => {Approved, Declined, Investigating, NeedsInformation, Suspended}
    case NeedsInformation => {Validating, Screening, Investigating, Suspended}
    case Suspended => {Validating, Screening, Investigating, HumanReview, Closed}
    case Approved => {Closed}
    case Declined => {Closed}
    case Closed => {}
  }

  datatype ActorKind = Agent | Human | System | Integration

  datatype Actor = Actor(kind: ActorKind, principalId: Str, executionId: Option<Str>, roles: seq<Str>)

  const ANALYST: Str := Lit("KYC.Analyst")
  const SENIOR_REVIEWER: Str := Lit("KYC.SeniorReviewer")

  predicate MayDispose(actor: Actor) {
    actor.kind == Human && (ANALYST in actor.roles || SENIOR_REVIEWER in actor.roles)
  }

  // ----- Rows -----

  /** An evidence object, registered for one case of the tenant. */
  datatype Evidence = Evidence(caseId: Str, rawDigest: Str, digestVerified: bool, verifiedClean: bool)

  datatype Claim = Claim(evidence: seq<Str>, accepted: bool)

  datatype Fact = Fact(claims: seq<Str>)

  datatype Resolution = Resolved | AcceptedRisk | Superseded

  datatype ContradictionState = Open | UnderInvestigation | Settled(resolution: Resolution)

  datatype Contradiction = Contradiction(materiality: Str, state: ContradictionState)

  datatype Advice = Approve | Decline | Review

  datatype Recommendation = Recommendation(advice: Advice, sequence: nat, findings: seq<Str>, evidence: seq<Str>,
                                           createdBy: Actor)

  datatype Gate = Gate(recommendation: Str, authorized: bool, sequence: nat)

  datatype Outcome = ToApproved | ToDeclined

  datatype Disposition = Disposition(outcome: Outcome, recommendation: Str, gate: Str, actor: Actor)

  datatype ObjectKind = SubjectObject | FindingObject | AssumptionObject | ReviewObject | ExecutionObject

  datatype Edge =
    | Asserts(evidence: Str, claim: Str)
    | AcceptedAs(claim: Str, fact: Str)
    | EvidenceSupports(evidence: Str, finding: Str)
    | FactSupports(fact: Str, finding: Str)
    | FindingSupports(finding: Str, recommendation: Str)
    | EvaluatedBy(recommendation: Str, gate: Str)
    | Authorizes(gate: Str, disposition: Str)

  /** A case's rows in every table but the ledger's. Lineage rows have random keys, so equal edges may repeat. */
  datatype Tables = Tables(
    linked: set<Str>,
    claims: map<Str, Claim>,
    facts: map<Str, Fact>,
    contradictions: map<Str, Contradiction>,
    recommendations: map<Str, Recommendation>,
    gates: map<Str, Gate>,
    dispositions: map<Str, Disposition>,
    openWork: map<Str, bool>,
    objects: set<(ObjectKind, Str)>,
    lineage: multiset<Edge>)

  const NO_ROWS := Tables({}, map[], map[], map[], map[], map[], map[], map[], {}, multiset{})

  // ----- Commands -----

  /** The payload of a command once it is parsed. An absent id is filled with a random one. */
  datatype Body =
    | Unparsable
    | AddSubject(id: Option<Str>)
    | RecordAssumption(id: Option<Str>)
    | RecordReview(id: Option<Str>, evidence: seq<Str>)
    | LinkExecution(runId: Str)
    | LinkEvidence(evidenceId: Str)
    | ProposeClaim(id: Option<Str>, evidence: seq<Str>)
    | AcceptClaimAsFact(id: Option<Str>, claims: seq<Str>)
    | RecordScreeningFinding(id: Option<Str>, evidence: seq<Str>, facts: seq<Str>)
    | RaiseContradiction(id: Option<Str>, objects: seq<Str>, materiality: Str)
    | ResolveContradiction(contradictionId: Str, resolution: Resolution, evidence: seq<Str>)
    | ProposeWorkItem(id: Option<Str>)
    | CompleteWorkItem(workItemId: Str)
    | SubmitDecisionRecommendation(id: Option<Str>, advice: Advice, findings: seq<Str>, evidence: seq<Str>)
    | RecordGateResult(id: Option<Str>, recommendation: Str, authorized: bool)
    | RecordQAResult(id: Option<Str>, recommendation: Str, evidence: seq<Str>)
    | RequestHumanReview(evidence: seq<Str>)
    | TransitionCaseStatus(to: Status)
    | FinalizeDisposition(id: Option<Str>, recommendation: Str, gate: Str, outcome: Outcome, evidence: seq<Str>)

  datatype Error =
    | IdempotencyKeyRequired | CaseNotFound | IdempotencyConflict | SequenceConflict
    | PlanAuthorityMismatch | PolicyAuthorityMismatch | PayloadInvalid | Conflict
    | EvidenceNotFound | EvidenceNotVerified | ScanRequired | EvidenceNotLinked
    | ClaimNotFound | BasisRequired | ContradictionNotOpen | WorkItemNotOpen
    | RecommendationNotFound | SeparationOfDuties | TransitionNotAllowed | DispositionCommandRequired
    | HumanAuthorityRequired | NotUnderReview | GateNotAuthorized | MaterialContradictionOpen
    | ContentInvalid | ContentTooLarge | DigestMismatch

  /** What `applyMutation` returns, with the tables as it leaves them; the edges are inserted later. */
  datatype Mutation = Mutation(tables: Tables, status: Option<Status>, evidenceRefs: seq<Str>, created: Option<Str>,
                               edges: seq<Edge>)

  function IdOr(id: Option<Str>, opaqueId: Str): Str {
    if id.Some? then id.value else opaqueId
  }

  // ----- Row counts against list lengths -----

  function Hits(refs: seq<Str>, ids: set<Str>): set<Str> {
    set r | r in refs && r in ids
  }

  predicate Distinct(refs: seq<Str>) {
    forall i, j :: 0 <= i < j < |refs| ==> refs[i] != refs[j]
  }

  /** `id = any(refs)` finds as many rows as the list is long. */
  predicate AllFound(refs: seq<Str>, ids: set<Str>) {
    |Hits(refs, ids)| == |refs|
  }

  lemma HitsStep(front: seq<Str>, last: Str, ids: set<Str>)
    ensures |Hits(front + [last], ids)| == |Hits(front, ids)| + if last in ids && last !in front then 1 else 0
  {
    if last in ids {
      assert Hits(front + [last], ids) == Hits(front, ids) + {last};
    } else {
      assert Hits(front + [last], ids) == Hits(front, ids);
    }
  }

  lemma DistinctStep(front: seq<Str>, last: Str)
    ensures Distinct(front + [last]) <==> Distinct(front) && last !in front
  {
    var refs := front + [last];
    if Distinct(refs) {
      assert forall i :: 0 <= i < |front| ==> refs[i] == front[i] && refs[i] != refs[|front|];
    }
  }

  predicate AllIn(refs: seq<Str>, ids: set<Str>) {
    forall i :: 0 <= i < |refs| ==> refs[i] in ids
  }

  lemma {:induction false} HitsBound(refs: seq<Str>, ids: set<Str>)
    ensures |Hits(refs, ids)| <= |refs|
    ensures |Hits(refs, ids)| == |refs| <==> Distinct(refs) && AllIn(refs, ids)
  {
    if refs == [] {
      assert Hits(refs, ids) == {};
    } else {
      var n := |refs| - 1;
      var front, last := refs[..n], refs[n];
      assert refs == front + [last];
      HitsBound(front, ids);
      HitsStep(front, last, ids);
      DistinctStep(front, last);
      assert AllIn(refs, ids) <==> AllIn(front, ids) && last in ids;
    }
  }

  /** The count check passes exactly when every reference names a row and none is repeated. */
  lemma AllFoundExactly(refs: seq<Str>, ids: set<Str>)
    ensures AllFound(refs, ids) <==> Distinct(refs) && forall r :: r in refs ==> r in ids
  {
    HitsBound(refs, ids);
  }

  // ----- One function per command -----

  function Refuse(error: Error): Result<Mutation, Error> {
    Err(error)
  }

  function NoLineage(t: Tables, evidenceRefs: seq<Str>, created: Str): Result<Mutation, Error> {
    Ok(Mutation(t, None, evidenceRefs, Some(created), []))
  }

  function DoAddObject(t: Tables, kind: ObjectKind, id: Str, evidence: seq<Str>): Result<Mutation, Error> {
    if (kind, id) in t.objects then Refuse(Conflict)
    else NoLineage(t.(objects := t.objects + {(kind, id)}), evidence, id)
  }

  function DoLinkEvidence(t: Tables, found: Option<Evidence>, requireScan: bool, id: Str): Result<Mutation, Error> {
    if found.None? then Refuse(EvidenceNotFound)
    else if !found.value.digestVerified then Refuse(EvidenceNotVerified)
    else if requireScan && !found.value.verifiedClean then Refuse(ScanRequired)
    else NoLineage(t.(linked := t.linked + {id}), [id], id)
  }

  function AssertsEdges(evidence: seq<Str>, claim: Str): seq<Edge> {
    seq(|evidence|, i requires 0 <= i < |evidence| => Asserts(evidence[i], claim))
  }

  function DoProposeClaim(t: Tables, id: Str, evidence: seq<Str>): Result<Mutation, Error> {
    if evidence == [] then Refuse(PayloadInvalid)
    else if !AllFound(evidence, t.linked) then Refuse(EvidenceNotLinked)
    else if id in t.claims then Refuse(Conflict)
    else Ok(Mutation(t.(claims := t.claims[id := Claim(evidence, false)]), None, evidence, Some(id),
                     AssertsEdges(evidence, id)))
  }

  function Accept(claims: map<Str, Claim>, refs: seq<Str>): (r: map<Str, Claim>)
    ensures r.Keys == claims.Keys
    ensures forall k :: k in r ==> r[k] == claims[k].(accepted := claims[k].accepted || k in refs)
  {
    map k | k in claims :: claims[k].(accepted := claims[k].accepted || k in refs)
  }

  function AcceptedAsEdges(claims: seq<Str>, fact: Str): seq<Edge> {
    seq(|claims|, i requires 0 <= i < |claims| => AcceptedAs(claims[i], fact))
  }

  function DoAcceptClaim(t: Tables, id: Str, claims: seq<Str>): Result<Mutation, Error> {
    if claims == [] then Refuse(PayloadInvalid)
    else if !AllFound(claims, t.claims.Keys) then Refuse(ClaimNotFound)
    else if id in t.facts then Refuse(Conflict)
    else Ok(Mutation(t.(facts := t.facts[id := Fact(claims)], claims := Accept(t.claims, claims)), None, [], Some(id),
                     AcceptedAsEdges(claims, id)))
  }

  function SupportEdges(evidence: seq<Str>, facts: seq<Str>, finding: Str): seq<Edge> {
    seq(|evidence|, i requires 0 <= i < |evidence| => EvidenceSupports(evidence[i], finding))
    + seq(|facts|, i requires 0 <= i < |facts| => FactSupports(facts[i], finding))
  }

  /** The evidence has to be linked; fact references are taken as they come. */
  function DoRecordFinding(t: Tables, id: Str, evidence: seq<Str>, facts: seq<Str>): Result<Mutation, Error> {
    if |evidence| + |facts| == 0 then Refuse(BasisRequired)
    else if evidence != [] && !AllFound(evidence, t.linked) then Refuse(EvidenceNotLinked)
    else if (FindingObject, id) in t.objects then Refuse(Conflict)
    else Ok(Mutation(t.(objects := t.objects + {(FindingObject, id)}), None, evidence, Some(id),
                     SupportEdges(evidence, facts, id)))
  }

  function DoRaise(t: Tables, id: Str, objects: seq<Str>, materiality: Str): Result<Mutation, Error> {
    if |objects| < 2 then Refuse(PayloadInvalid)
    else if id in t.contradictions then Refuse(Conflict)
    else NoLineage(t.(contradictions := t.contradictions[id := Contradiction(materiality, Open)]), [], id)
  }

  predicate Unsettled(c: Contradiction) {
    c.state.Open? || c.state.UnderInvestigation?
  }

  function DoResolve(t: Tables, id: Str, resolution: Resolution, evidence: seq<Str>): Result<Mutation, Error> {
    if id !in t.contradictions || !Unsettled(t.contradictions[id]) then Refuse(ContradictionNotOpen)
    else
      var settled := t.contradictions[id].(state := Settled(resolution));
      NoLineage(t.(contradictions := t.contradictions[id := settled]), evidence, id)
  }

  function DoProposeWork(t: Tables, id: Str): Result<Mutation, Error> {
    if id in t.openWork then Refuse(Conflict) else NoLineage(t.(openWork := t.openWork[id := true]), [], id)
  }

  function DoCompleteWork(t: Tables, id: Str): Result<Mutation, Error> {
    if id !in t.openWork || !t.openWork[id] then Refuse(WorkItemNotOpen)
    else NoLineage(t.(openWork := t.openWork[id := false]), [], id)
  }

  function FindingEdges(findings: seq<Str>, recommendation: Str): seq<Edge> {
    seq(|findings|, i requires 0 <= i < |findings| => FindingSupports(findings[i], recommendation))
  }

  function DoRecommend(t: Tables, id: Str, row: Recommendation): Result<Mutation, Error> {
    if |row.findings| + |row.evidence| == 0 then Refuse(BasisRequired)
    else if id in t.recommendations then Refuse(Conflict)
    else Ok(Mutation(t.(recommendations := t.recommendations[id := row]), None, row.evidence, Some(id),
                     FindingEdges(row.findings, id)))
  }

  function DoGate(t: Tables, id: Str, row: Gate): Result<Mutation, Error> {
    if row.recommendation !in t.recommendations then Refuse(RecommendationNotFound)
    else if id in t.gates then Refuse(Conflict)
    else Ok(Mutation(t.(gates := t.gates[id := row]), None, [], Some(id), [EvaluatedBy(row.recommendation, id)]))
  }

  function DoQa(t: Tables, id: Str, recommendation: Str, actor: Actor, evidence: seq<Str>): Result<Mutation, Error> {
    if recommendation !in t.recommendations then Refuse(RecommendationNotFound)
    else if t.recommendations[recommendation].createdBy.principalId == actor.principalId then Refuse(SeparationOfDuties)
    else if (ReviewObject, id) in t.objects then Refuse(Conflict)
    else NoLineage(t.(objects := t.objects + {(ReviewObject, id)}), evidence, id)
  }

  function DoRequestReview(t: Tables, status: Status, opaqueId: Str, evidence: seq<Str>): Result<Mutation, Error> {
    if HumanReview !in AllowedTransitions(status) then Refuse(TransitionNotAllowed)
    else Ok(Mutation(t, Some(HumanReview), evidence, Some(opaqueId), []))
  }

  function DoTransition(t: Tables, status: Status, to: Status): Result<Mutation, Error> {
    if to !in AllowedTransitions(status) then Refuse(TransitionNotAllowed)
    else if to == Approved || to == Declined then Refuse(DispositionCommandRequired)
    else Ok(Mutation(t, Some(to), [], None, []))
  }

  const HIGH: Str := Lit("HIGH")
  const MATERIAL: Str := Lit("MATERIAL")

  predicate Blocking(c: Contradiction) {
    Unsettled(c) && (c.materiality == HIGH || c.materiality == MATERIAL)
  }

  predicate Blocked(t: Tables) {
    exists k :: k in t.contradictions && Blocking(t.contradictions[k])
  }

  predicate GateAuthorizes(t: Tables, gate: Str, recommendation: Str) {
    gate in t.gates && t.gates[gate].authorized && t.gates[gate].recommendation == recommendation
  }

  function StatusOf(outcome: Outcome): Status {
    match outcome
    case ToApproved => Approved
    case ToDeclined => Declined
  }

  function DoFinalize(t: Tables, status: Status, id: Str, row: Disposition,
                      evidence: seq<Str>): Result<Mutation, Error>
  {
    if !MayDispose(row.actor) then Refuse(HumanAuthorityRequired)
    else if status != HumanReview then Refuse(NotUnderReview)
    else if !GateAuthorizes(t, row.gate, row.recommendation) then Refuse(GateNotAuthorized)
    else if Blocked(t) then Refuse(MaterialContradictionOpen)
    else if id in t.dispositions then Refuse(Conflict)
    else Ok(Mutation(t.(dispositions := t.dispositions[id := row]), Some(StatusOf(row.outcome)), evidence, Some(id),
                     [Authorizes(row.gate, id)]))
  }

  /** What a command can see: the case before it, the evidence it names, and who sends it. */
  datatype Scene = Scene(tables: Tables, status: Status, sequence: nat, found: Option<Evidence>, requireScan: bool,
                         actor: Actor, opaqueId: Str)

  /** `applyMutation`. */
  function Mutate(scene: Scene, body: Body): Result<Mutation, Error> {
    var t, status, opaqueId := scene.tables, scene.status, scene.opaqueId;
    match body
    case Unparsable => Refuse(PayloadInvalid)
    case AddSubject(id) => DoAddObject(t, SubjectObject, IdOr(id, opaqueId), [])
    case RecordAssumption(id) => DoAddObject(t, AssumptionObject, IdOr(id, opaqueId), [])
    case RecordReview(id, evidence) => DoAddObject(t, ReviewObject, IdOr(id, opaqueId), evidence)
    case LinkExecution(runId) => NoLineage(t.(objects := t.objects + {(ExecutionObject, runId)}), [], runId)
    case LinkEvidence(id) => DoLinkEvidence(t, scene.found, scene.requireScan, id)
    case ProposeClaim(id, evidence) => DoProposeClaim(t, IdOr(id, opaqueId), evidence)
    case AcceptClaimAsFact(id, claims) => DoAcceptClaim(t, IdOr(id, opaqueId), claims)
    case RecordScreeningFinding(id, evidence, facts) => DoRecordFinding(t, IdOr(id, opaqueId), evidence, facts)
    case RaiseContradiction(id, objects, materiality) => DoRaise(t, IdOr(id, opaqueId), objects, materiality)
    case ResolveContradiction(id, resolution, evidence) => DoResolve(t, id, resolution, evidence)
    case ProposeWorkItem(id) => DoProposeWork(t, IdOr(id, opaqueId))
    case CompleteWorkItem(id) => DoCompleteWork(t, id)
    case SubmitDecisionRecommendation(id, advice, findings, evidence) =>
      DoRecommend(t, IdOr(id, opaqueId), Recommendation(advice, scene.sequence, findings, evidence, scene.actor))
    case RecordGateResult(id, recommendation, authorized) =>
      DoGate(t, IdOr(id, opaqueId), Gate(recommendation, authorized, scene.sequence))
    case RecordQAResult(id, recommendation, evidence) =>
      DoQa(t, IdOr(id, opaqueId), recommendation, scene.actor, evidence)
    case RequestHumanReview(evidence) => DoRequestReview(t, status, opaqueId, evidence)
    case TransitionCaseStatus(to) => DoTransition(t, status, to)
    case FinalizeDisposition(id, recommendation, gate, outcome, evidence) =>
      DoFinalize(t, status, IdOr(id, opaqueId), Disposition(outcome, recommendation, gate, scene.actor), evidence)
  }
}
