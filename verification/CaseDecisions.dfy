/**
 Dispositions: a case has at most one, it is made from human review by a human with the authority to, over
 an authorized gate on a recommendation that rests on something, and afterwards the case can only close.
 A contradiction that was open before it has been resolved by a command in between.
 */
module CaseDecisions {
  import opened CodeUnits
  import opened Prelude
  import opened CaseCommands
  import opened CaseLedger
  import opened CaseChain

  predicate Decided(status: Status) {
    status == Approved || status == Declined
  }

  /** The recommendation exists and names at least one finding or piece of evidence. */
  predicate Grounded(t: Tables, recommendation: Str) {
    recommendation in t.recommendations
    && (t.recommendations[recommendation].findings != [] || t.recommendations[recommendation].evidence != [])
  }

  predicate AllGrounded(t: Tables) {
    && (forall r :: r in t.recommendations ==> Grounded(t, r))
    && forall g :: g in t.gates ==> Grounded(t, t.gates[g].recommendation)
  }

  /** What stands behind a disposition. */
  predicate Backed(t: Tables, row: Disposition) {
    MayDispose(row.actor) && GateAuthorizes(t, row.gate, row.recommendation) && Grounded(t, row.recommendation)
  }

  predicate AllBacked(t: Tables) {
    forall d :: d in t.dispositions ==> Backed(t, t.dispositions[d])
  }

  predicate AtMostOne(t: Tables) {
    forall a, b :: a in t.dispositions && b in t.dispositions ==> a == b
  }

  predicate HasOutcome(t: Tables, status: Status) {
    exists d :: d in t.dispositions && StatusOf(t.dispositions[d].outcome) == status
  }

  /** How the status and the disposition table go together. */
  predicate Agree(t: Tables, status: Status) {
    && AtMostOne(t)
    && (Decided(status) ==> HasOutcome(t, status))
    && (!Decided(status) && status != Closed ==> t.dispositions == map[])
  }

  predicate DecisionInv(t: Tables, status: Status) {
    AllGrounded(t) && AllBacked(t) && Agree(t, status)
  }

  // ----- One command -----

  /** The command leaves the decision tables alone. */
  predicate SameDecisions(t: Tables, u: Tables) {
    u.recommendations == t.recommendations && u.gates == t.gates && u.dispositions == t.dispositions
  }

  predicate Decides(body: Body) {
    body.SubmitDecisionRecommendation? || body.RecordGateResult? || body.FinalizeDisposition?
  }

  lemma OthersLeaveDecisions(scene: Scene, body: Body, mutation: Mutation)
    requires Mutate(scene, body) == Ok(mutation) && !Decides(body)
    ensures SameDecisions(scene.tables, mutation.tables)
    ensures mutation.status.Some?
            ==> mutation.status.value in AllowedTransitions(scene.status) && !Decided(mutation.status.value)
  {
  }

  function After(mutation: Mutation, status: Status): Status {
    if mutation.status.Some? then mutation.status.value else status
  }

  lemma SameDecisionsKeep(t: Tables, u: Tables, from: Status, to: Status)
    requires DecisionInv(t, from) && SameDecisions(t, u)
    requires to == from || (to in AllowedTransitions(from) && !Decided(to))
    ensures DecisionInv(u, to)
  {
    forall r | r in u.recommendations ensures Grounded(u, r) {
      assert Grounded(t, r);
    }
    forall g | g in u.gates ensures Grounded(u, u.gates[g].recommendation) {
      assert Grounded(t, t.gates[g].recommendation);
    }
    forall d | d in u.dispositions ensures Backed(u, u.dispositions[d]) {
      assert Backed(t, t.dispositions[d]);
    }
    if Decided(to) {
      var d :| d in t.dispositions && StatusOf(t.dispositions[d].outcome) == from;
      assert d in u.dispositions;
    }
  }

  lemma RecommendKeeps(t: Tables, id: Str, row: Recommendation, status: Status, mutation: Mutation)
    requires DecisionInv(t, status) && DoRecommend(t, id, row) == Ok(mutation)
    ensures DecisionInv(mutation.tables, status)
  {
    var u := mutation.tables;
    forall r | r in u.recommendations ensures Grounded(u, r) {
      if r != id { assert Grounded(t, r); }
    }
    forall g | g in u.gates ensures Grounded(u, u.gates[g].recommendation) {
      assert Grounded(t, t.gates[g].recommendation);
    }
    forall d | d in u.dispositions ensures Backed(u, u.dispositions[d]) {
      assert Backed(t, t.dispositions[d]);
    }
    if Decided(status) {
      assert HasOutcome(t, status);
    }
  }

  lemma GateKeeps(t: Tables, id: Str, row: Gate, status: Status, mutation: Mutation)
    requires DecisionInv(t, status) && DoGate(t, id, row) == Ok(mutation)
    ensures DecisionInv(mutation.tables, status)
  {
    var u := mutation.tables;
    forall r | r in u.recommendations ensures Grounded(u, r) {
      assert Grounded(t, r);
    }
    forall g | g in u.gates ensures Grounded(u, u.gates[g].recommendation) {
      assert Grounded(t, if g == id then row.recommendation else t.gates[g].recommendation);
    }
    forall d | d in u.dispositions ensures Backed(u, u.dispositions[d]) {
      assert Backed(t, t.dispositions[d]);
    }
    if Decided(status) {
      assert HasOutcome(t, status);
    }
  }

  lemma FinalizeKeeps(t: Tables, status: Status, id: Str, row: Disposition, evidence: seq<Str>, mutation: Mutation)
    requires DecisionInv(t, status) && DoFinalize(t, status, id, row, evidence) == Ok(mutation)
    ensures DecisionInv(mutation.tables, StatusOf(row.outcome))
    ensures mutation.status == Some(StatusOf(row.outcome)) && mutation.tables.dispositions == map[id := row]
    ensures status == HumanReview && Backed(t, row) && !Blocked(t)
  {
    var u := mutation.tables;
    assert Grounded(t, t.gates[row.gate].recommendation);
    assert u.dispositions == map[id := row];
    forall r | r in u.recommendations ensures Grounded(u, r) {
      assert Grounded(t, r);
    }
    forall g | g in u.gates ensures Grounded(u, u.gates[g].recommendation) {
      assert Grounded(t, t.gates[g].recommendation);
    }
    assert Backed(u, row);
    assert id in u.dispositions && StatusOf(u.dispositions[id].outcome) == StatusOf(row.outcome);
  }

  lemma DecidingKeeps(scene: Scene, body: Body, mutation: Mutation)
    requires DecisionInv(scene.tables, scene.status) && Mutate(scene, body) == Ok(mutation) && Decides(body)
    ensures DecisionInv(mutation.tables, After(mutation, scene.status))
  {
    var t, status := scene.tables, scene.status;
    match body
    case SubmitDecisionRecommendation(id, advice, findings, evidence) =>
      RecommendKeeps(t, IdOr(id, scene.opaqueId),
                     Recommendation(advice, scene.sequence, findings, evidence, scene.actor), status, mutation);
    case RecordGateResult(id, recommendation, authorized) =>
      GateKeeps(t, IdOr(id, scene.opaqueId), Gate(recommendation, authorized, scene.sequence), status, mutation);
    case FinalizeDisposition(id, recommendation, gate, outcome, evidence) =>
      FinalizeKeeps(t, status, IdOr(id, scene.opaqueId), Disposition(outcome, recommendation, gate, scene.actor),
                    evidence, mutation);
  }

  lemma MutationKeepsDecisions(scene: Scene, body: Body, mutation: Mutation)
    requires DecisionInv(scene.tables, scene.status) && Mutate(scene, body) == Ok(mutation)
    ensures DecisionInv(mutation.tables, After(mutation, scene.status))
  {
    var t, status := scene.tables, scene.status;
    if !Decides(body) {
      OthersLeaveDecisions(scene, body, mutation);
      SameDecisionsKeep(t, mutation.tables, status, After(mutation, status));
    } else {
      DecidingKeeps(scene, body, mutation);
    }
  }

  // ----- Every reachable state -----

  ghost predicate CaseDecisionInv(c: Case) {
    DecisionInv(c.tables, c.status)
  }

  ghost predicate DecisionsHold(db: Database) {
    forall key :: key in db.cases ==> CaseDecisionInv(db.cases[key])
  }

  /** What the case looks like after an accepted command, in terms of its mutation. */
  lemma CommitTables(h: Hashes, config: Config, db: Database, op: Op, key: CaseKey)
    returns (scene: Scene, mutation: Mutation)
    requires key in db.cases && Commits(h, config, db, op, key)
    ensures scene == SceneOf(config, db.evidence, db.cases[key], op.command, op.env)
    ensures scene.tables == db.cases[key].tables && scene.status == db.cases[key].status
    ensures Mutate(scene, op.command.body) == Ok(mutation)
    ensures key in Step(h, config, db, op).cases
    ensures var d := Step(h, config, db, op).cases[key];
            d.status == After(mutation, scene.status)
            && d.tables == mutation.tables.(lineage := mutation.tables.lineage + multiset(mutation.edges))
  {
    mutation := CommitMutation(h, config, db, op, key);
    scene := SceneOf(config, db.evidence, db.cases[key], op.command, op.env);
  }

  lemma CommitKeepsDecisions(h: Hashes, config: Config, db: Database, op: Op, key: CaseKey)
    requires key in db.cases && Commits(h, config, db, op, key) && CaseDecisionInv(db.cases[key])
    ensures key in Step(h, config, db, op).cases && CaseDecisionInv(Step(h, config, db, op).cases[key])
  {
    var scene, mutation := CommitTables(h, config, db, op, key);
    MutationKeepsDecisions(scene, op.command.body, mutation);
    var d := Step(h, config, db, op).cases[key];
    SameDecisionsKeep(mutation.tables, d.tables, d.status, d.status);
  }

  lemma CreationUndecided(h: Hashes, config: Config, db: Database, op: Op, key: CaseKey)
    requires key !in db.cases && key in Step(h, config, db, op).cases
    ensures Step(h, config, db, op).cases[key].tables == NO_ROWS && Step(h, config, db, op).cases[key].status == Intake
  {
    NewCaseStep(h, config, db, op, key);
  }

  lemma {:induction false} DecisionsAlwaysHold(h: Hashes, config: Config, states: seq<Database>, ops: seq<Op>, n: nat)
    requires FromEmpty(h, config, states, ops) && n < |states|
    ensures DecisionsHold(states[n])
  {
    hide Step, Commits;
    if n > 0 {
      var db, op := states[n - 1], ops[n - 1];
      DecisionsAlwaysHold(h, config, states, ops, n - 1);
      assert states[n] == Step(h, config, db, op);
      forall key | key in states[n].cases ensures CaseDecisionInv(states[n].cases[key]) {
        if key !in db.cases {
          CreationUndecided(h, config, db, op, key);
        } else if Commits(h, config, db, op, key) {
          CommitKeepsDecisions(h, config, db, op, key);
        } else {
          CaseStep(h, config, db, op, key);
        }
      }
    }
  }

  // ----- The step that decides -----

  /** Nobody has to settle the row before a disposition: it is settled, or neither high nor material. */
  predicate Harmless(row: Contradiction) {
    match row.state
    case Settled(_) => true
    case Open => row.materiality != Lit("HIGH") && row.materiality != Lit("MATERIAL")
    case UnderInvestigation => row.materiality != Lit("HIGH") && row.materiality != Lit("MATERIAL")
  }

  predicate AllHarmless(t: Tables) {
    forall k :: k in t.contradictions ==> Harmless(t.contradictions[k])
  }

  /** A human in one of the two roles. */
  predicate HasAuthority(actor: Actor) {
    match actor.kind
    case Human => Lit("KYC.Analyst") in actor.roles || Lit("KYC.SeniorReviewer") in actor.roles
    case _ => false
  }

  /** The case's rows allow the disposition: its gate is there, authorized and for its recommendation. */
  predicate RowsAllow(t: Tables, gate: Str, recommendation: Str) {
    gate in t.gates && t.gates[gate].authorized && t.gates[gate].recommendation == recommendation && AllHarmless(t)
  }

  /** The command asks for the disposition on a case that allows it. */
  predicate Deserved(t: Tables, status: Status, actor: Actor, opaqueId: Str, body: Body, id: Str, row: Disposition) {
    && body.FinalizeDisposition?
    && id == (match body.id case Some(given) => given case None => opaqueId)
    && row == Disposition(body.outcome, body.recommendation, body.gate, actor)
    && status == HumanReview && HasAuthority(actor) && RowsAllow(t, row.gate, row.recommendation)
    && Grounded(t, row.recommendation)
  }

  lemma AuthorityExactly(actor: Actor)
    ensures MayDispose(actor) <==> HasAuthority(actor)
  {
  }

  lemma AllowedExactly(t: Tables, gate: Str, recommendation: Str)
    ensures GateAuthorizes(t, gate, recommendation) && !Blocked(t) <==> RowsAllow(t, gate, recommendation)
  {
    HarmlessExactly(t);
  }

  lemma HarmlessExactly(t: Tables)
    ensures AllHarmless(t) <==> !Blocked(t)
  {
    if Blocked(t) {
      var k :| k in t.contradictions && Blocking(t.contradictions[k]);
      assert !Harmless(t.contradictions[k]);
    } else {
      forall k | k in t.contradictions ensures Harmless(t.contradictions[k]) {
        assert !Blocking(t.contradictions[k]);
      }
    }
  }

  /**
   A disposition is made from human review, by a human in one of the two roles, over a gate that is authorized for
   its recommendation, with no open high or material contradiction and under a free id: exactly then.
   */
  lemma FinalizeExactly(scene: Scene, body: Body)
    requires body.FinalizeDisposition?
    ensures var id := match body.id case Some(given) => given case None => scene.opaqueId;
            var row := Disposition(body.outcome, body.recommendation, body.gate, scene.actor);
            var t := scene.tables;
            if && scene.status == HumanReview && HasAuthority(scene.actor)
               && RowsAllow(t, body.gate, body.recommendation) && id !in t.dispositions
            then Mutate(scene, body)
              == Ok(Mutation(t.(dispositions := t.dispositions[id := row]),
                             Some(if body.outcome == ToApproved then Approved else Declined), body.evidence, Some(id),
                             [Authorizes(body.gate, id)]))
            else Mutate(scene, body).Err?
  {
    AuthorityExactly(scene.actor);
    AllowedExactly(scene.tables, body.gate, body.recommendation);
  }

  /** The step is the accepted command that makes the disposition, from a state that allows it. */
  predicate Makes(h: Hashes, config: Config, db: Database, op: Op, key: CaseKey, id: Str, row: Disposition) {
    && key in db.cases && Commits(h, config, db, op, key)
    && Deserved(db.cases[key].tables, db.cases[key].status, op.command.actor, op.env.opaqueId, op.command.body, id, row)
  }

  /** Once made, a disposition is the case's only one, and the case has its status or is closed. */
  predicate Settled(c: Case, id: Str, row: Disposition) {
    c.tables.dispositions == map[id := row] && (c.status == StatusOf(row.outcome) || c.status == Closed)
  }

  lemma StatusMoves(scene: Scene, body: Body, mutation: Mutation)
    requires Mutate(scene, body) == Ok(mutation)
    ensures After(mutation, scene.status) == scene.status
            || After(mutation, scene.status) in AllowedTransitions(scene.status)
  {
    if Decides(body) {
    } else {
      OthersLeaveDecisions(scene, body, mutation);
    }
  }

  lemma FinalizeNeedsReview(scene: Scene, body: Body, mutation: Mutation)
    requires Mutate(scene, body) == Ok(mutation) && scene.status != HumanReview
    ensures !body.FinalizeDisposition? && mutation.tables.dispositions == scene.tables.dispositions
  {
    if Decides(body) {
    } else {
      OthersLeaveDecisions(scene, body, mutation);
    }
  }

  lemma SettledKept(scene: Scene, body: Body, mutation: Mutation, c: Case, d: Case, id: Str, row: Disposition)
    requires Mutate(scene, body) == Ok(mutation) && scene.tables == c.tables && scene.status == c.status
    requires d.status == After(mutation, c.status) && d.tables.dispositions == mutation.tables.dispositions
    requires Settled(c, id, row)
    ensures Settled(d, id, row)
  {
    StatusMoves(scene, body, mutation);
    FinalizeNeedsReview(scene, body, mutation);
  }

  lemma SettledStays(h: Hashes, config: Config, db: Database, op: Op, key: CaseKey, id: Str, row: Disposition)
    requires key in db.cases && Settled(db.cases[key], id, row)
    ensures key in Step(h, config, db, op).cases && Settled(Step(h, config, db, op).cases[key], id, row)
  {
    CaseStep(h, config, db, op, key);
    if Commits(h, config, db, op, key) {
      var scene, mutation := CommitTables(h, config, db, op, key);
      SettledKept(scene, op.command.body, mutation, db.cases[key], Step(h, config, db, op).cases[key], id, row);
    }
  }

  lemma {:induction false} SettledForever(h: Hashes, config: Config, states: seq<Database>, ops: seq<Op>, key: CaseKey,
                                          id: Str, row: Disposition, i: nat, n: nat)
    requires Behavior(h, config, states, ops) && i <= n < |states|
    requires key in states[i].cases && Settled(states[i].cases[key], id, row)
    ensures key in states[n].cases && Settled(states[n].cases[key], id, row)
    decreases n - i
  {
    if i < n {
      SettledStays(h, config, states[i], ops[i], key, id, row);
      SettledForever(h, config, states, ops, key, id, row, i + 1, n);
    }
  }

  lemma MutationDecides(scene: Scene, body: Body, mutation: Mutation, id: Str)
    requires DecisionInv(scene.tables, scene.status) && Mutate(scene, body) == Ok(mutation)
    requires id in mutation.tables.dispositions
    ensures var before, after := scene.tables.dispositions, mutation.tables.dispositions;
            if id in before then after[id] == before[id]
            else Deserved(scene.tables, scene.status, scene.actor, scene.opaqueId, body, id, after[id])
                 && after == map[id := after[id]] && mutation.status == Some(StatusOf(after[id].outcome))
  {
    if body.FinalizeDisposition? {
      var row := Disposition(body.outcome, body.recommendation, body.gate, scene.actor);
      AuthorityExactly(scene.actor);
      AllowedExactly(scene.tables, body.gate, body.recommendation);
      FinalizeKeeps(scene.tables, scene.status, IdOr(body.id, scene.opaqueId), row, body.evidence, mutation);
    } else if !Decides(body) {
      OthersLeaveDecisions(scene, body, mutation);
    }
  }

  /** An accepted command either leaves the dispositions alone or makes the only one. */
  lemma CommitDecides(h: Hashes, config: Config, db: Database, op: Op, key: CaseKey, id: Str)
    requires key in db.cases && Commits(h, config, db, op, key) && CaseDecisionInv(db.cases[key])
    requires key in Step(h, config, db, op).cases && id in Step(h, config, db, op).cases[key].tables.dispositions
    ensures var c, d := db.cases[key], Step(h, config, db, op).cases[key];
            if id in c.tables.dispositions then d.tables.dispositions[id] == c.tables.dispositions[id]
            else
              Makes(h, config, db, op, key, id, d.tables.dispositions[id])
              && Settled(d, id, d.tables.dispositions[id])
  {
    var scene, mutation := CommitTables(h, config, db, op, key);
    MutationDecides(scene, op.command.body, mutation, id);
  }

  predicate HasDisposition(db: Database, key: CaseKey, id: Str) {
    key in db.cases && id in db.cases[key].tables.dispositions
  }

  /** A disposition seen after a step was there before it, or the step made it. */
  lemma DispositionStep(h: Hashes, config: Config, db: Database, op: Op, key: CaseKey, id: Str)
    requires DecisionsHold(db) && HasDisposition(Step(h, config, db, op), key, id)
    ensures var row := Step(h, config, db, op).cases[key].tables.dispositions[id];
            if HasDisposition(db, key, id) then db.cases[key].tables.dispositions[id] == row
            else Makes(h, config, db, op, key, id, row) && Settled(Step(h, config, db, op).cases[key], id, row)
  {
    if key !in db.cases {
      CreationUndecided(h, config, db, op, key);
    } else if Commits(h, config, db, op, key) {
      assert CaseDecisionInv(db.cases[key]);
      CommitDecides(h, config, db, op, key, id);
    } else {
      CaseStep(h, config, db, op, key);
    }
  }

  /** The step after which a disposition is first there is the one that makes it. */
  lemma NewDispositionIsMade(h: Hashes, config: Config, states: seq<Database>, ops: seq<Op>, n: nat, key: CaseKey,
                             id: Str)
    requires FromEmpty(h, config, states, ops) && n < |ops|
    requires HasDisposition(states[n + 1], key, id) && !HasDisposition(states[n], key, id)
    ensures Makes(h, config, states[n], ops[n], key, id, states[n + 1].cases[key].tables.dispositions[id])
  {
    hide Step, Makes;
    DecisionsAlwaysHold(h, config, states, ops, n);
    DispositionStep(h, config, states[n], ops[n], key, id);
  }

  /**
   Every disposition of a reachable case was made at one step, by a command accepted from human review, sent
   by a human with the role, over a gate that authorizes an existing grounded recommendation, with no high
   or material contradiction open. From that step on it is the case's only disposition.
   */
  lemma {:induction false} DispositionWasMade(h: Hashes, config: Config, states: seq<Database>, ops: seq<Op>, n: nat,
                                              key: CaseKey, id: Str)
      returns (i: nat)
    requires FromEmpty(h, config, states, ops) && n < |states|
    requires key in states[n].cases && id in states[n].cases[key].tables.dispositions
    ensures i < n && Makes(h, config, states[i], ops[i], key, id, states[n].cases[key].tables.dispositions[id])
    ensures Settled(states[n].cases[key], id, states[n].cases[key].tables.dispositions[id])
    decreases n
  {
    var db, op := states[n - 1], ops[n - 1];
    assert states[n] == Step(h, config, db, op);
    DecisionsAlwaysHold(h, config, states, ops, n - 1);
    DispositionStep(h, config, db, op, key, id);
    if HasDisposition(db, key, id) {
      i := DispositionWasMade(h, config, states, ops, n - 1, key, id);
      SettledStays(h, config, db, op, key, id, db.cases[key].tables.dispositions[id]);
    } else {
      i := n - 1;
    }
  }

  /** A reachable case that is approved or declined was decided so, and whatever follows only closes it. */
  lemma DecidedCasesOnlyClose(h: Hashes, config: Config, states: seq<Database>, ops: seq<Op>, n: nat, m: nat,
                              key: CaseKey)
      returns (i: nat, id: Str, row: Disposition)
    requires FromEmpty(h, config, states, ops) && n <= m < |states|
    requires key in states[n].cases && Decided(states[n].cases[key].status)
    ensures i < n && Makes(h, config, states[i], ops[i], key, id, row)
            && StatusOf(row.outcome) == states[n].cases[key].status
    ensures key in states[m].cases && Settled(states[m].cases[key], id, row)
  {
    DecisionsAlwaysHold(h, config, states, ops, n);
    var c := states[n].cases[key];
    assert CaseDecisionInv(c);
    id :| id in c.tables.dispositions && StatusOf(c.tables.dispositions[id].outcome) == c.status;
    row := c.tables.dispositions[id];
    i := DispositionWasMade(h, config, states, ops, n, key, id);
    SettledForever(h, config, states, ops, key, id, row, n, m);
  }

  // ----- Contradictions -----

  predicate HasContradiction(db: Database, key: CaseKey, k: Str, row: Contradiction) {
    key in db.cases && k in db.cases[key].tables.contradictions && db.cases[key].tables.contradictions[k] == row
  }

  /** The step is an accepted command that resolves the contradiction. */
  predicate Resolves(h: Hashes, config: Config, db: Database, op: Op, key: CaseKey, k: Str) {
    Commits(h, config, db, op, key) && op.command.body.ResolveContradiction? && op.command.body.contradictionId == k
  }

  lemma ResolveActs(scene: Scene, body: Body, mutation: Mutation, k: Str)
    requires Mutate(scene, body) == Ok(mutation) && k in scene.tables.contradictions
    ensures k in mutation.tables.contradictions
    ensures var row := scene.tables.contradictions[k];
            if body.ResolveContradiction? && body.contradictionId == k
            then Unsettled(row)
              && mutation.tables.contradictions[k] == row.(state := ContradictionState.Settled(body.resolution))
            else mutation.tables.contradictions[k] == row
  {
  }

  /** A step changes a contradiction only by resolving it, and only while it is open. */
  lemma ContradictionStep(h: Hashes, config: Config, db: Database, op: Op, key: CaseKey, k: Str, row: Contradiction)
    requires HasContradiction(db, key, k, row)
    ensures Resolves(h, config, db, op, key, k) ==>
              Unsettled(row)
                && HasContradiction(Step(h, config, db, op), key, k,
                                    row.(state := ContradictionState.Settled(op.command.body.resolution)))
    ensures !Resolves(h, config, db, op, key, k) ==> HasContradiction(Step(h, config, db, op), key, k, row)
  {
    CaseStep(h, config, db, op, key);
    if Commits(h, config, db, op, key) {
      var scene, mutation := CommitTables(h, config, db, op, key);
      ResolveActs(scene, op.command.body, mutation, k);
    }
  }

  lemma {:induction false} ContradictionWaits(h: Hashes, config: Config, states: seq<Database>, ops: seq<Op>, i: nat,
                                              n: nat, key: CaseKey, k: Str, row: Contradiction)
    requires Behavior(h, config, states, ops) && i <= n < |states| && HasContradiction(states[i], key, k, row)
    requires forall j :: i <= j < n ==> !Resolves(h, config, states[j], ops[j], key, k)
    ensures HasContradiction(states[n], key, k, row)
    decreases n - i
  {
    if i < n {
      ContradictionStep(h, config, states[i], ops[i], key, k, row);
      ContradictionWaits(h, config, states, ops, i + 1, n, key, k, row);
    }
  }

  /** An open high or material contradiction keeps the case undecided until a command resolves that very one. */
  lemma BlockedUntilResolved(h: Hashes, config: Config, states: seq<Database>, ops: seq<Op>, i: nat, n: nat,
                             key: CaseKey, k: Str, row: Contradiction, id: Str, disposition: Disposition)
    requires Behavior(h, config, states, ops) && i <= n < |ops|
    requires HasContradiction(states[i], key, k, row) && !Harmless(row)
    ensures Makes(h, config, states[n], ops[n], key, id, disposition) ==>
              exists j :: i <= j < n && Resolves(h, config, states[j], ops[j], key, k)
  {
    if forall j :: i <= j < n ==> !Resolves(h, config, states[j], ops[j], key, k) {
      ContradictionWaits(h, config, states, ops, i, n, key, k, row);
      assert !AllHarmless(states[n].cases[key].tables);
    }
  }

  /** A resolved contradiction is never reopened or resolved again. */
  lemma {:induction false} ResolvedForever(h: Hashes, config: Config, states: seq<Database>, ops: seq<Op>, i: nat,
                                           n: nat, key: CaseKey, k: Str, row: Contradiction)
    requires Behavior(h, config, states, ops) && i <= n < |states|
    requires HasContradiction(states[i], key, k, row) && !Unsettled(row)
    ensures HasContradiction(states[n], key, k, row)
    decreases n - i
  {
    if i < n {
      ContradictionStep(h, config, states[i], ops[i], key, k, row);
      ResolvedForever(h, config, states, ops, i + 1, n, key, k, row);
    }
  }
}
