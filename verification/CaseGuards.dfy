/**
 What each command of a case asks for and leaves, on the columns of the rows it reads and writes, and what the
 checks before it compare. References count as found when they are distinct and each one names a row.
 */
module CaseGuards {
  import opened CodeUnits
  import opened Prelude
  import opened CaseCommands
  import opened CaseLedger
  import opened CaseChain
  import CaseDecisions

  /** The given id, or the random one. */
  function Named(id: Option<Str>, scene: Scene): Str {
    match id case Some(given) => given case None => scene.opaqueId
  }

  /** The references are distinct and name rows. */
  predicate AllThere(refs: seq<Str>, ids: set<Str>) {
    Distinct(refs) && forall r :: r in refs ==> r in ids
  }

  // ----- Claims, facts and findings -----

  /** Evidence is linked when it is registered for the case, verified, and clean if the scan is required. */
  lemma LinkExactly(scene: Scene, id: Str)
    ensures var t := scene.tables;
            if scene.found.Some? && scene.found.value.digestVerified
               && (scene.requireScan ==> scene.found.value.verifiedClean)
            then Mutate(scene, LinkEvidence(id))
              == Ok(Mutation(t.(linked := t.linked + {id}), None, [id], Some(id), []))
            else Mutate(scene, LinkEvidence(id)).Err?
  {
  }

  lemma FoundExactly(evidence: map<(Str, Str), Evidence>, key: CaseKey, id: Str)
    ensures Found(evidence, key, LinkEvidence(id))
         == if (key.tenantId, id) in evidence && evidence[(key.tenantId, id)].caseId == key.caseId
            then Some(evidence[(key.tenantId, id)]) else None
  {
  }

  /** A claim rests on at least one piece of evidence; its lineage names each of them, in order. */
  lemma ClaimExactly(scene: Scene, id: Option<Str>, refs: seq<Str>)
    ensures var t, name := scene.tables, Named(id, scene);
            if refs != [] && AllThere(refs, t.linked) && name !in t.claims
            then Mutate(scene, ProposeClaim(id, refs))
              == Ok(Mutation(t.(claims := t.claims[name := Claim(refs, false)]), None, refs, Some(name),
                             seq(|refs|, i requires 0 <= i < |refs| => Asserts(refs[i], name))))
            else Mutate(scene, ProposeClaim(id, refs)).Err?
  {
    AllFoundExactly(refs, scene.tables.linked);
  }

  /** A fact rests on at least one claim of the case; those become accepted and no other claim changes. */
  lemma FactExactly(scene: Scene, id: Option<Str>, refs: seq<Str>)
    ensures var t, name := scene.tables, Named(id, scene);
            if refs != [] && AllThere(refs, t.claims.Keys) && name !in t.facts
            then Mutate(scene, AcceptClaimAsFact(id, refs))
              == Ok(Mutation(t.(facts := t.facts[name := Fact(refs)],
                                claims := map k | k in t.claims ::
                                    if k in refs then t.claims[k].(accepted := true) else t.claims[k]),
                             None, [], Some(name),
                             seq(|refs|, i requires 0 <= i < |refs| => AcceptedAs(refs[i], name))))
            else Mutate(scene, AcceptClaimAsFact(id, refs)).Err?
  {
    AllFoundExactly(refs, scene.tables.claims.Keys);
    assert Accept(scene.tables.claims, refs)
        == map k | k in scene.tables.claims ::
             if k in refs then scene.tables.claims[k].(accepted := true) else scene.tables.claims[k];
  }

  /** A finding rests on evidence or facts; the evidence has to be there, the facts are not looked up. */
  lemma FindingExactly(scene: Scene, id: Option<Str>, refs: seq<Str>, facts: seq<Str>)
    ensures var t, name := scene.tables, Named(id, scene);
            if (refs != [] || facts != []) && AllThere(refs, t.linked) && (FindingObject, name) !in t.objects
            then Mutate(scene, RecordScreeningFinding(id, refs, facts))
              == Ok(Mutation(t.(objects := t.objects + {(FindingObject, name)}), None, refs, Some(name),
                             seq(|refs|, i requires 0 <= i < |refs| => EvidenceSupports(refs[i], name))
                             + seq(|facts|, i requires 0 <= i < |facts| => FactSupports(facts[i], name))))
            else Mutate(scene, RecordScreeningFinding(id, refs, facts)).Err?
  {
    AllFoundExactly(refs, scene.tables.linked);
  }

  // ----- Contradictions, work and other objects -----

  /** A contradiction is between at least two objects, and starts open. */
  lemma RaiseExactly(scene: Scene, id: Option<Str>, objects: seq<Str>, materiality: Str)
    ensures var t, name := scene.tables, Named(id, scene);
            if |objects| > 1 && name !in t.contradictions
            then Mutate(scene, RaiseContradiction(id, objects, materiality))
              == Ok(Mutation(t.(contradictions := t.contradictions[
                                    name := Contradiction(materiality, ContradictionState.Open)]),
                             None, [], Some(name), []))
            else (Mutate(scene, RaiseContradiction(id, objects, materiality))
                  == Err(if |objects| < 2 then PayloadInvalid else Conflict))
  {
  }

  /** It is settled once, from open or under investigation, and keeps its materiality. */
  lemma ResolveExactly(scene: Scene, id: Str, resolution: Resolution, refs: seq<Str>)
    ensures var t := scene.tables;
            if id in t.contradictions && !t.contradictions[id].state.Settled?
            then Mutate(scene, ResolveContradiction(id, resolution, refs))
              == Ok(Mutation(t.(contradictions := t.contradictions[
                                    id := Contradiction(t.contradictions[id].materiality, Settled(resolution))]),
                             None, refs, Some(id), []))
            else Mutate(scene, ResolveContradiction(id, resolution, refs)) == Err(ContradictionNotOpen)
  {
  }

  /** Work is proposed once and completed once. */
  lemma WorkExactly(scene: Scene, id: Option<Str>, done: Str)
    ensures var t, name := scene.tables, Named(id, scene);
            if name !in t.openWork
            then Mutate(scene, ProposeWorkItem(id))
              == Ok(Mutation(t.(openWork := t.openWork[name := true]), None, [], Some(name), []))
            else Mutate(scene, ProposeWorkItem(id)) == Err(Conflict)
    ensures var t := scene.tables;
            if done in t.openWork && t.openWork[done]
            then Mutate(scene, CompleteWorkItem(done))
              == Ok(Mutation(t.(openWork := t.openWork[done := false]), None, [], Some(done), []))
            else Mutate(scene, CompleteWorkItem(done)) == Err(WorkItemNotOpen)
  {
  }

  /** Subjects, assumptions and reviews are new; linking a run twice changes nothing. */
  lemma ObjectsExactly(scene: Scene, id: Option<Str>, refs: seq<Str>, runId: Str)
    ensures var t, name := scene.tables, Named(id, scene);
            && (Mutate(scene, AddSubject(id)) == if (SubjectObject, name) in t.objects then Err(Conflict)
                else Ok(Mutation(t.(objects := t.objects + {(SubjectObject, name)}), None, [], Some(name), [])))
            && (Mutate(scene, RecordAssumption(id)) == if (AssumptionObject, name) in t.objects then Err(Conflict)
                else Ok(Mutation(t.(objects := t.objects + {(AssumptionObject, name)}), None, [], Some(name), [])))
            && (Mutate(scene, RecordReview(id, refs)) == if (ReviewObject, name) in t.objects then Err(Conflict)
                else Ok(Mutation(t.(objects := t.objects + {(ReviewObject, name)}), None, refs, Some(name), [])))
            && Mutate(scene, LinkExecution(runId))
               == Ok(Mutation(t.(objects := t.objects + {(ExecutionObject, runId)}), None, [], Some(runId), []))
  {
  }

  // ----- Recommendations, gates and reviews -----

  /** A recommendation rests on findings or evidence, and records its author and the sequence it was made at. */
  lemma RecommendExactly(scene: Scene, id: Option<Str>, advice: Advice, findings: seq<Str>, refs: seq<Str>)
    ensures var t, name := scene.tables, Named(id, scene);
            var row := Recommendation(advice, scene.sequence, findings, refs, scene.actor);
            if (findings != [] || refs != []) && name !in t.recommendations
            then Mutate(scene, SubmitDecisionRecommendation(id, advice, findings, refs))
              == Ok(Mutation(t.(recommendations := t.recommendations[name := row]), None, refs, Some(name),
                             seq(|findings|, i requires 0 <= i < |findings| => FindingSupports(findings[i], name))))
            else (Mutate(scene, SubmitDecisionRecommendation(id, advice, findings, refs))
                  == Err(if findings == [] && refs == [] then BasisRequired else Conflict))
  {
  }

  /** A gate judges a recommendation of the case. */
  lemma GateExactly(scene: Scene, id: Option<Str>, recommendation: Str, authorized: bool)
    ensures var t, name := scene.tables, Named(id, scene);
            if recommendation in t.recommendations && name !in t.gates
            then Mutate(scene, RecordGateResult(id, recommendation, authorized))
              == Ok(Mutation(t.(gates := t.gates[name := CaseCommands.Gate(recommendation, authorized,
                                                                           scene.sequence)]),
                             None, [], Some(name), [EvaluatedBy(recommendation, name)]))
            else Mutate(scene, RecordGateResult(id, recommendation, authorized)).Err?
  {
  }

  /** Its author does not review a recommendation for quality. */
  lemma QaExactly(scene: Scene, id: Option<Str>, recommendation: Str, refs: seq<Str>)
    ensures var t, name := scene.tables, Named(id, scene);
            if recommendation in t.recommendations
               && t.recommendations[recommendation].createdBy.principalId != scene.actor.principalId
               && (ReviewObject, name) !in t.objects
            then Mutate(scene, RecordQAResult(id, recommendation, refs))
              == Ok(Mutation(t.(objects := t.objects + {(ReviewObject, name)}), None, refs, Some(name), []))
            else Mutate(scene, RecordQAResult(id, recommendation, refs)).Err?
  {
  }

  // ----- Statuses -----

  /** The statuses a case can come from. */
  function Sources(to: Status): set<Status> {
    match to
    case Intake => {}
    case Validating => {Intake, NeedsInformation, Suspended}
    case Screening => {Validating, Investigating, NeedsInformation, Suspended}
    case Investigating => {Screening, ReadyForDecision, QaReview, HumanReview, NeedsInformation, Suspended}
    case ReadyForDecision => {Screening, Investigating, QaReview}
    case QaReview => {ReadyForDecision}
    case HumanReview => {Investigating, ReadyForDecision, QaReview, Suspended}
    case NeedsInformation => {Intake, Validating, Screening, Investigating, HumanReview}
    case Suspended =>
      {Intake, Validating, Screening, Investigating, ReadyForDecision, QaReview, HumanReview, NeedsInformation}
    case Approved => {HumanReview}
    case Declined => {HumanReview}
    case Closed => {Suspended, Approved, Declined}
  }

  lemma SourcesExactly(from: Status, to: Status)
    ensures to in AllowedTransitions(from) <==> from in Sources(to)
  {
  }

  /** A transition goes along the table but never decides; a review is asked for wherever one may begin. */
  lemma TransitionExactly(scene: Scene, to: Status, refs: seq<Str>)
    ensures if scene.status in Sources(to) && to != Approved && to != Declined
            then Mutate(scene, TransitionCaseStatus(to)) == Ok(Mutation(scene.tables, Some(to), [], None, []))
            else (Mutate(scene, TransitionCaseStatus(to))
                  == Err(if scene.status in Sources(to) then DispositionCommandRequired else TransitionNotAllowed))
    ensures if scene.status in {Investigating, ReadyForDecision, QaReview, Suspended}
            then Mutate(scene, RequestHumanReview(refs))
              == Ok(Mutation(scene.tables, Some(HumanReview), refs, Some(scene.opaqueId), []))
            else Mutate(scene, RequestHumanReview(refs)) == Err(TransitionNotAllowed)
  {
    SourcesExactly(scene.status, to);
    SourcesExactly(scene.status, HumanReview);
  }

  /** Over any step a case's status stays or moves along the table, and it is new in intake. */
  lemma StatusStep(h: Hashes, config: Config, db: Database, op: Op, key: CaseKey)
    requires key in Step(h, config, db, op).cases
    ensures var after := Step(h, config, db, op).cases[key].status;
            if key in db.cases then after == db.cases[key].status || db.cases[key].status in Sources(after)
            else after == Intake
  {
    if key !in db.cases {
      CaseDecisions.CreationUndecided(h, config, db, op, key);
    } else {
      CaseStep(h, config, db, op, key);
      if Commits(h, config, db, op, key) {
        var scene, mutation := CaseDecisions.CommitTables(h, config, db, op, key);
        CaseDecisions.StatusMoves(scene, op.command.body, mutation);
        SourcesExactly(scene.status, CaseDecisions.After(mutation, scene.status));
      }
    }
  }

  // ----- The checks before the mutation -----

  /** The digest is `bare`, with or without the `sha256:` prefix. */
  predicate Denotes(digest: Str, bare: Str) {
    digest == Lit("sha256:") + bare || (digest == bare && !(Lit("sha256:") <= digest))
  }

  lemma NormalizeExactly(digest: Str, bare: Str)
    ensures NormalizeDigest(digest) == bare <==> Denotes(digest, bare)
  {
    var prefix := Lit("sha256:");
    if prefix <= digest {
      assert digest == prefix + digest[|prefix|..];
    }
    assert (prefix + bare)[|prefix|..] == bare;
  }

  /** Both digests denote the same one. */
  ghost predicate SameDigest(a: Str, b: Str) {
    exists bare :: Denotes(a, bare) && Denotes(b, bare)
  }

  lemma SameDigestExactly(a: Str, b: Str)
    ensures NormalizeDigest(a) == NormalizeDigest(b) <==> SameDigest(a, b)
  {
    NormalizeExactly(a, NormalizeDigest(a));
    NormalizeExactly(b, NormalizeDigest(b));
    if SameDigest(a, b) {
      var bare :| Denotes(a, bare) && Denotes(b, bare);
      NormalizeExactly(a, bare);
      NormalizeExactly(b, bare);
    }
  }

  /** A command passes with the case's sequence and with digests that denote its plan and its policy. */
  lemma AuthorityExactly(c: Case, command: Command)
    ensures AuthorityRefusal(c, command)
         == if command.expectedSequence != c.sequence then Some(SequenceConflict)
            else if !SameDigest(command.authority.planDigest, c.planDigest) then Some(PlanAuthorityMismatch)
            else if !SameDigest(command.authority.policyDigest, c.policyDigest) then Some(PolicyAuthorityMismatch)
            else None
  {
    SameDigestExactly(command.authority.planDigest, c.planDigest);
    SameDigestExactly(command.authority.policyDigest, c.policyDigest);
  }

  /** Content is taken when it is there, not empty, not too large, and of the declared digest if one is declared. */
  lemma ContentExactly(h: Hashes, config: Config, request: Registration)
    ensures ContentRefusal(h, config, request)
         == if request.content.None? || |request.content.value| == 0 then Some(ContentInvalid)
            else if |request.content.value| >= config.maxBytes + 1 then Some(ContentTooLarge)
            else if request.declaredDigest.Some?
                 && !Denotes(request.declaredDigest.value, h.content(request.content.value)) then Some(DigestMismatch)
            else None
  {
    if request.content.Some? && request.declaredDigest.Some? {
      NormalizeExactly(request.declaredDigest.value, h.content(request.content.value));
    }
  }
}
