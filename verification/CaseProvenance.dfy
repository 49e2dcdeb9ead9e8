/**
 Provenance: in every reachable state each fact rests on accepted claims, each claim on evidence linked to
 the case, each piece of evidence on stored bytes with its digest, and the lineage rows are those relations.
 With the evidence scan required nothing is ever linked.
 */
module CaseProvenance {
  import opened CodeUnits
  import opened Prelude
  import opened CaseCommands
  import opened CaseLedger
  import opened CaseChain
  import CaseDecisions

  // ----- Evidence -----

  /** Every artifact is stored under the digest of its bytes. */
  predicate ContentAddressed(h: Hashes, db: Database) {
    forall k :: k in db.artifacts ==> h.content(db.artifacts[k]) == k.1
  }

  /** The evidence is verified, and its digest names stored bytes of the tenant. */
  predicate Intact(db: Database, k: (Str, Str)) {
    k in db.evidence && db.evidence[k].digestVerified && (k.0, db.evidence[k].rawDigest) in db.artifacts
  }

  predicate EvidenceHolds(h: Hashes, db: Database) {
    ContentAddressed(h, db) && forall k :: k in db.evidence ==> Intact(db, k) && !db.evidence[k].verifiedClean
  }

  predicate EvidenceKept(db: Database, after: Database) {
    && (forall k :: k in db.evidence ==> k in after.evidence && after.evidence[k] == db.evidence[k])
    && forall k :: k in db.artifacts ==> k in after.artifacts && after.artifacts[k] == db.artifacts[k]
  }

  /** Evidence and artifacts are only ever added. */
  lemma EvidenceOnlyGrows(h: Hashes, config: Config, db: Database, op: Op)
    ensures EvidenceKept(db, Step(h, config, db, op))
  {
    if op.RegisterEvidence? {
      RegistrationGrows(h, config, db, op.registration, op.idempotencyKey, op.env);
    } else {
      OthersLeaveEvidence(h, config, db, op);
    }
  }

  lemma RegistrationGrows(h: Hashes, config: Config, db: Database, request: Registration, idempotencyKey: Str, env: Env)
    ensures EvidenceKept(db, Register(h, config, db, request, idempotencyKey, env).0)
  {
  }

  /** Only a registration touches evidence and artifacts. */
  lemma OthersLeaveEvidence(h: Hashes, config: Config, db: Database, op: Op)
    requires !op.RegisterEvidence?
    ensures Step(h, config, db, op).evidence == db.evidence && Step(h, config, db, op).artifacts == db.artifacts
  {
    hide OpenCase, Execute;
  }

  lemma SameEvidenceHolds(h: Hashes, db: Database, after: Database)
    requires EvidenceHolds(h, db) && after.evidence == db.evidence && after.artifacts == db.artifacts
    ensures EvidenceHolds(h, after)
  {
    forall k | k in after.evidence ensures Intact(after, k) && !after.evidence[k].verifiedClean {
      assert Intact(db, k);
    }
  }

  lemma NewEvidenceHolds(h: Hashes, db: Database, request: Registration, content: Bytes, idempotencyKey: Str, env: Env)
    requires EvidenceHolds(h, db)
    ensures EvidenceHolds(h, WithEvidence(h, db, request, content, idempotencyKey, env))
  {
    var after := WithEvidence(h, db, request, content, idempotencyKey, env);
    forall k | k in after.evidence ensures Intact(after, k) && !after.evidence[k].verifiedClean {
      assert k != (request.tenantId, env.opaqueId) ==> Intact(db, k);
    }
  }

  lemma RegistrationHolds(h: Hashes, config: Config, db: Database, request: Registration, idempotencyKey: Str, env: Env)
    requires EvidenceHolds(h, db)
    ensures EvidenceHolds(h, Register(h, config, db, request, idempotencyKey, env).0)
  {
    if request.content.Some? {
      NewEvidenceHolds(h, db, request, request.content.value, idempotencyKey, env);
    }
  }

  lemma EvidenceStep(h: Hashes, config: Config, db: Database, op: Op)
    requires EvidenceHolds(h, db)
    ensures EvidenceHolds(h, Step(h, config, db, op))
  {
    if op.RegisterEvidence? {
      RegistrationHolds(h, config, db, op.registration, op.idempotencyKey, op.env);
    } else {
      OthersLeaveEvidence(h, config, db, op);
      SameEvidenceHolds(h, db, Step(h, config, db, op));
    }
  }

  // ----- The invariant -----

  /** Linked evidence belongs to the case and is intact. */
  predicate LinkedHolds(db: Database, key: CaseKey, t: Tables) {
    forall e :: e in t.linked ==> Intact(db, (key.tenantId, e)) && db.evidence[(key.tenantId, e)].caseId == key.caseId
  }

  predicate RestsOn(refs: seq<Str>, ids: set<Str>) {
    refs != [] && Distinct(refs) && forall r :: r in refs ==> r in ids
  }

  predicate ClaimsHold(t: Tables) {
    forall c :: c in t.claims ==> RestsOn(t.claims[c].evidence, t.linked)
  }

  function AcceptedClaims(t: Tables): set<Str> {
    set c | c in t.claims && t.claims[c].accepted
  }

  predicate FactsHold(t: Tables) {
    forall f :: f in t.facts ==> RestsOn(t.facts[f].claims, AcceptedClaims(t))
  }

  predicate AssertedBy(t: Tables, evidence: Str, claim: Str) {
    claim in t.claims && evidence in t.claims[claim].evidence
  }

  predicate BasisOf(t: Tables, claim: Str, fact: Str) {
    fact in t.facts && claim in t.facts[fact].claims
  }

  /** One `ASSERTS` row per claim and piece of its evidence, and no other. */
  ghost predicate AssertsExact(t: Tables) {
    forall e, c :: t.lineage[Asserts(e, c)] == if AssertedBy(t, e, c) then 1 else 0
  }

  /** One `ACCEPTED_AS` row per fact and claim it rests on, and no other. */
  ghost predicate AcceptedAsExact(t: Tables) {
    forall c, f :: t.lineage[AcceptedAs(c, f)] == if BasisOf(t, c, f) then 1 else 0
  }

  ghost predicate Provenance(config: Config, db: Database, key: CaseKey, t: Tables) {
    && LinkedHolds(db, key, t) && ClaimsHold(t) && FactsHold(t) && AssertsExact(t) && AcceptedAsExact(t)
    && (config.requireScan ==> t.linked == {})
  }

  // ----- Edges of one command -----

  lemma {:induction false} AssertsCount(refs: seq<Str>, id: Str, e: Str, c: Str)
    requires Distinct(refs)
    ensures multiset(AssertsEdges(refs, id))[Asserts(e, c)] == if c == id && e in refs then 1 else 0
  {
    var edges := AssertsEdges(refs, id);
    if refs == [] {
      assert edges == [];
    } else {
      var n := |refs| - 1;
      AssertsCount(refs[..n], id, e, c);
      assert edges == AssertsEdges(refs[..n], id) + [Asserts(refs[n], id)];
      assert refs == refs[..n] + [refs[n]];
      assert refs[n] !in refs[..n];
    }
  }

  lemma {:induction false} AcceptedAsCount(refs: seq<Str>, id: Str, c: Str, f: Str)
    requires Distinct(refs)
    ensures multiset(AcceptedAsEdges(refs, id))[AcceptedAs(c, f)] == if f == id && c in refs then 1 else 0
  {
    var edges := AcceptedAsEdges(refs, id);
    if refs == [] {
      assert edges == [];
    } else {
      var n := |refs| - 1;
      AcceptedAsCount(refs[..n], id, c, f);
      assert edges == AcceptedAsEdges(refs[..n], id) + [AcceptedAs(refs[n], id)];
      assert refs == refs[..n] + [refs[n]];
      assert refs[n] !in refs[..n];
    }
  }

  /** None of the edges is an `ASSERTS` or an `ACCEPTED_AS` row. */
  predicate NoTracedEdge(edges: seq<Edge>) {
    forall i :: 0 <= i < |edges| ==> !edges[i].Asserts? && !edges[i].AcceptedAs?
  }

  lemma NoTracedCount(edges: seq<Edge>)
    requires NoTracedEdge(edges)
    ensures forall e, c :: multiset(edges)[Asserts(e, c)] == 0
    ensures forall c, f :: multiset(edges)[AcceptedAs(c, f)] == 0
  {
    forall e, c ensures multiset(edges)[Asserts(e, c)] == 0 {
      assert Asserts(e, c) !in edges;
    }
    forall c, f ensures multiset(edges)[AcceptedAs(c, f)] == 0 {
      assert AcceptedAs(c, f) !in edges;
    }
  }

  // ----- Each command -----

  function WithEdges(mutation: Mutation): Tables {
    mutation.tables.(lineage := mutation.tables.lineage + multiset(mutation.edges))
  }

  /** The command leaves linked evidence, claims and facts alone. */
  predicate SameRecords(t: Tables, u: Tables) {
    u.linked == t.linked && u.claims == t.claims && u.facts == t.facts && u.lineage == t.lineage
  }

  lemma OthersLeaveRecords(scene: Scene, body: Body, mutation: Mutation)
    requires Mutate(scene, body) == Ok(mutation)
    requires !body.LinkEvidence? && !body.ProposeClaim? && !body.AcceptClaimAsFact?
    ensures SameRecords(scene.tables, mutation.tables) && NoTracedEdge(mutation.edges)
  {
  }

  lemma SameRecordsKeep(config: Config, db: Database, key: CaseKey, t: Tables, mutation: Mutation)
    requires Provenance(config, db, key, t) && SameRecords(t, mutation.tables) && NoTracedEdge(mutation.edges)
    ensures Provenance(config, db, key, WithEdges(mutation))
  {
    var u := WithEdges(mutation);
    NoTracedCount(mutation.edges);
    assert AcceptedClaims(u) == AcceptedClaims(t);
    forall e, c ensures u.lineage[Asserts(e, c)] == if AssertedBy(u, e, c) then 1 else 0 {
      assert t.lineage[Asserts(e, c)] == if AssertedBy(t, e, c) then 1 else 0;
    }
    forall c, f ensures u.lineage[AcceptedAs(c, f)] == if BasisOf(u, c, f) then 1 else 0 {
      assert t.lineage[AcceptedAs(c, f)] == if BasisOf(t, c, f) then 1 else 0;
    }
  }

  lemma LinkKeeps(h: Hashes, config: Config, db: Database, key: CaseKey, t: Tables, id: Str, mutation: Mutation)
    requires EvidenceHolds(h, db) && Provenance(config, db, key, t)
    requires DoLinkEvidence(t, Found(db.evidence, key, LinkEvidence(id)), config.requireScan, id) == Ok(mutation)
    ensures Provenance(config, db, key, WithEdges(mutation))
  {
    var u := WithEdges(mutation);
    assert u == t.(linked := t.linked + {id}) by {
      assert t.lineage + multiset([]) == t.lineage;
    }
    assert Intact(db, (key.tenantId, id));
    assert AcceptedClaims(u) == AcceptedClaims(t);
    forall c | c in u.claims ensures RestsOn(u.claims[c].evidence, u.linked) {
      assert RestsOn(t.claims[c].evidence, t.linked);
    }
    LineageByTables(t, u);
  }

  lemma LineageByTables(t: Tables, u: Tables)
    requires AssertsExact(t) && AcceptedAsExact(t) && u.claims == t.claims && u.facts == t.facts
             && u.lineage == t.lineage
    ensures AssertsExact(u) && AcceptedAsExact(u)
  {
    forall e, c ensures u.lineage[Asserts(e, c)] == if AssertedBy(u, e, c) then 1 else 0 {
      assert t.lineage[Asserts(e, c)] == if AssertedBy(t, e, c) then 1 else 0;
    }
    forall c, f ensures u.lineage[AcceptedAs(c, f)] == if BasisOf(u, c, f) then 1 else 0 {
      assert t.lineage[AcceptedAs(c, f)] == if BasisOf(t, c, f) then 1 else 0;
    }
  }

  lemma ProposeKeeps(config: Config, db: Database, key: CaseKey, t: Tables, id: Str, evidence: seq<Str>,
                     mutation: Mutation)
    requires Provenance(config, db, key, t) && DoProposeClaim(t, id, evidence) == Ok(mutation)
    ensures Provenance(config, db, key, WithEdges(mutation))
  {
    var u := WithEdges(mutation);
    AllFoundExactly(evidence, t.linked);
    assert AcceptedClaims(u) == AcceptedClaims(t);
    forall c | c in u.claims ensures RestsOn(u.claims[c].evidence, u.linked) {
      assert c != id ==> RestsOn(t.claims[c].evidence, t.linked);
    }
    forall e, c ensures u.lineage[Asserts(e, c)] == if AssertedBy(u, e, c) then 1 else 0 {
      AssertsCount(evidence, id, e, c);
      assert t.lineage[Asserts(e, c)] == if AssertedBy(t, e, c) then 1 else 0;
    }
    forall c, f ensures u.lineage[AcceptedAs(c, f)] == if BasisOf(u, c, f) then 1 else 0 {
      assert AcceptedAs(c, f) !in mutation.edges;
      assert t.lineage[AcceptedAs(c, f)] == if BasisOf(t, c, f) then 1 else 0;
    }
  }

  lemma AcceptKeepsRecords(t: Tables, id: Str, claims: seq<Str>, mutation: Mutation)
    requires ClaimsHold(t) && FactsHold(t) && DoAcceptClaim(t, id, claims) == Ok(mutation)
    ensures ClaimsHold(WithEdges(mutation)) && FactsHold(WithEdges(mutation)) && Distinct(claims)
  {
    var u := WithEdges(mutation);
    AllFoundExactly(claims, t.claims.Keys);
    forall c | c in u.claims ensures RestsOn(u.claims[c].evidence, u.linked) {
      assert RestsOn(t.claims[c].evidence, t.linked);
    }
    forall f | f in u.facts ensures RestsOn(u.facts[f].claims, AcceptedClaims(u)) {
      assert f != id ==> RestsOn(t.facts[f].claims, AcceptedClaims(t));
    }
  }

  lemma AcceptKeepsLineage(t: Tables, id: Str, claims: seq<Str>, mutation: Mutation)
    requires AssertsExact(t) && AcceptedAsExact(t) && Distinct(claims) && DoAcceptClaim(t, id, claims) == Ok(mutation)
    ensures AssertsExact(WithEdges(mutation)) && AcceptedAsExact(WithEdges(mutation))
  {
    var u := WithEdges(mutation);
    forall e, c ensures u.lineage[Asserts(e, c)] == if AssertedBy(u, e, c) then 1 else 0 {
      assert Asserts(e, c) !in mutation.edges;
      assert t.lineage[Asserts(e, c)] == if AssertedBy(t, e, c) then 1 else 0;
    }
    forall c, f ensures u.lineage[AcceptedAs(c, f)] == if BasisOf(u, c, f) then 1 else 0 {
      AcceptedAsCount(claims, id, c, f);
      assert t.lineage[AcceptedAs(c, f)] == if BasisOf(t, c, f) then 1 else 0;
    }
  }

  lemma MutationKeepsProvenance(h: Hashes, config: Config, db: Database, key: CaseKey, c: Case, command: Command,
                                env: Env, mutation: Mutation)
    requires EvidenceHolds(h, db) && Provenance(config, db, key, c.tables) && KeyOf(command) == key
    requires Mutates(config, db, c, command, env, mutation)
    ensures Provenance(config, db, key, WithEdges(mutation))
  {
    var scene := SceneOf(config, db.evidence, c, command, env);
    match command.body
    case LinkEvidence(id) => LinkKeeps(h, config, db, key, c.tables, id, mutation);
    case ProposeClaim(id, evidence) =>
      ProposeKeeps(config, db, key, c.tables, IdOr(id, env.opaqueId), evidence, mutation);
    case AcceptClaimAsFact(id, claims) =>
      AcceptKeepsRecords(c.tables, IdOr(id, env.opaqueId), claims, mutation);
      AcceptKeepsLineage(c.tables, IdOr(id, env.opaqueId), claims, mutation);
    case _ =>
      OthersLeaveRecords(scene, command.body, mutation);
      SameRecordsKeep(config, db, key, c.tables, mutation);
  }

  // ----- Every reachable state -----

  ghost predicate ProvenanceHolds(h: Hashes, config: Config, db: Database) {
    EvidenceHolds(h, db) && forall key :: key in db.cases ==> Provenance(config, db, key, db.cases[key].tables)
  }

  lemma ProvenanceGrows(config: Config, db: Database, after: Database, key: CaseKey, t: Tables)
    requires Provenance(config, db, key, t) && EvidenceKept(db, after)
    ensures Provenance(config, after, key, t)
  {
    forall e | e in t.linked
      ensures Intact(after, (key.tenantId, e)) && after.evidence[(key.tenantId, e)].caseId == key.caseId
    {
      assert Intact(db, (key.tenantId, e));
    }
  }

  lemma CommitKeepsProvenance(h: Hashes, config: Config, db: Database, op: Op, key: CaseKey)
    requires key in db.cases && Commits(h, config, db, op, key)
    requires EvidenceHolds(h, db) && Provenance(config, db, key, db.cases[key].tables)
    ensures key in Step(h, config, db, op).cases
            && Provenance(config, db, key, Step(h, config, db, op).cases[key].tables)
  {
    var mutation := CommitMutation(h, config, db, op, key);
    MutationKeepsProvenance(h, config, db, key, db.cases[key], op.command, op.env, mutation);
  }

  lemma StepKeepsProvenance(h: Hashes, config: Config, db: Database, op: Op)
    requires ProvenanceHolds(h, config, db)
    ensures ProvenanceHolds(h, config, Step(h, config, db, op))
  {
    var after := Step(h, config, db, op);
    EvidenceOnlyGrows(h, config, db, op);
    EvidenceStep(h, config, db, op);
    forall key | key in after.cases ensures Provenance(config, after, key, after.cases[key].tables) {
      if key !in db.cases {
        CaseDecisions.CreationUndecided(h, config, db, op, key);
      } else {
        if Commits(h, config, db, op, key) {
          CommitKeepsProvenance(h, config, db, op, key);
        } else {
          CaseStep(h, config, db, op, key);
        }
        ProvenanceGrows(config, db, after, key, after.cases[key].tables);
      }
    }
  }

  /** Provenance is closed in every reachable state, and the lineage rows are exactly its relations. */
  lemma {:induction false} ProvenanceAlwaysHolds(h: Hashes, config: Config, states: seq<Database>, ops: seq<Op>, n: nat)
    requires FromEmpty(h, config, states, ops) && n < |states|
    ensures ProvenanceHolds(h, config, states[n])
  {
    if n > 0 {
      hide Step, ProvenanceHolds;
      ProvenanceAlwaysHolds(h, config, states, ops, n - 1);
      StepKeepsProvenance(h, config, states[n - 1], ops[n - 1]);
    }
  }

  /**
   From a fact to the bytes it rests on: any claim in its basis and any evidence of that claim lead to an
   accepted claim, evidence linked to this case, one lineage row for each of the two steps, and stored bytes
   whose digest is the evidence's.
   */
  lemma FactsReachBytes(h: Hashes, config: Config, states: seq<Database>, ops: seq<Op>, n: nat, key: CaseKey, fact: Str,
                        claim: Str, evidence: Str)
    requires FromEmpty(h, config, states, ops) && n < |states| && key in states[n].cases
    requires BasisOf(states[n].cases[key].tables, claim, fact)
             && AssertedBy(states[n].cases[key].tables, evidence, claim)
    ensures var db, t := states[n], states[n].cases[key].tables;
            && t.claims[claim].accepted && evidence in t.linked
            && t.lineage[AcceptedAs(claim, fact)] == 1 && t.lineage[Asserts(evidence, claim)] == 1
            && Intact(db, (key.tenantId, evidence)) && db.evidence[(key.tenantId, evidence)].caseId == key.caseId
            && h.content(db.artifacts[(key.tenantId, db.evidence[(key.tenantId, evidence)].rawDigest)])
               == db.evidence[(key.tenantId, evidence)].rawDigest
  {
    ProvenanceAlwaysHolds(h, config, states, ops, n);
    var t := states[n].cases[key].tables;
    assert Provenance(config, states[n], key, t);
    assert RestsOn(t.facts[fact].claims, AcceptedClaims(t));
    assert RestsOn(t.claims[claim].evidence, t.linked);
  }

  lemma NothingRests()
    ensures forall refs: seq<Str> :: !RestsOn(refs, {})
  {
    forall refs: seq<Str> ensures !RestsOn(refs, {}) {
      if refs != [] {
        assert refs[0] in refs;
      }
    }
  }

  lemma NothingWithoutLinks(t: Tables)
    requires ClaimsHold(t) && FactsHold(t) && t.linked == {}
    ensures t.claims == map[] && t.facts == map[]
  {
    assert forall c :: c in t.claims ==> RestsOn(t.claims[c].evidence, {});
    assert forall f :: f in t.facts ==> RestsOn(t.facts[f].claims, AcceptedClaims(t));
    NothingRests();
    assert AcceptedClaims(t) == {};
  }

  /** With the scan required, nothing in the store ever becomes linked evidence, a claim or a fact. */
  lemma ScanFailsClosed(h: Hashes, config: Config, states: seq<Database>, ops: seq<Op>, n: nat, key: CaseKey)
    requires FromEmpty(h, config, states, ops) && n < |states| && key in states[n].cases && config.requireScan
    ensures var t := states[n].cases[key].tables;
            t.linked == {} && t.claims == map[] && t.facts == map[]
  {
    ProvenanceAlwaysHolds(h, config, states, ops, n);
    var t := states[n].cases[key].tables;
    assert Provenance(config, states[n], key, t);
    assert ClaimsHold(t) && FactsHold(t);
    NothingWithoutLinks(t);
  }
}
