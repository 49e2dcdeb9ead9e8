/** Exactly-once invocation, budget conservation and the cost bound, over every interleaving. */
module GatewayTheorems {
  import opened Prelude
  import opened Gateway

  ghost predicate Behavior(states: seq<State>, ops: seq<Op>) {
    && |states| == |ops| + 1
    && states[0] == EMPTY
    && forall i :: 0 <= i < |ops| ==> states[i + 1] == Apply(states[i], ops[i])
  }

  // ----- The invariant -----

  predicate HandlerInv(s: State, handler: Handler) {
    && handler.request.invocationId in s.receipts
    && handler.request.runId in s.runs
    && var receipt := s.receipts[handler.request.invocationId];
       && receipt.runId == handler.request.runId
       && receipt.requestDigest == handler.request.requestDigest
       && receipt.result == (if handler.phase.Stored? then Some(handler.phase.result) else None)
  }

  predicate RunInv(run: Counters, budget: Budget) {
    && run.modelCalls <= run.capabilityCalls <= budget.maxCapabilityCalls
    && run.modelCalls <= budget.maxModelCalls
  }

  ghost predicate HandlersInv(s: State) {
    forall h :: h in s.handlers ==> HandlerInv(s, s.handlers[h])
  }

  ghost predicate RunsInv(s: State) {
    s.runs.Keys == s.budgets.Keys && forall r :: r in s.runs ==> RunInv(s.runs[r], s.budgets[r])
  }

  predicate SameInvocation(a: Handler, b: Handler) {
    a.request.invocationId == b.request.invocationId
  }

  /** At most one live handler holds an invocation. */
  ghost predicate OneHolder(s: State) {
    forall g, h :: g in s.handlers && h in s.handlers && SameInvocation(s.handlers[g], s.handlers[h]) ==> g == h
  }

  ghost predicate Inv(s: State) {
    HandlersInv(s) && OneHolder(s) && RunsInv(s)
  }

  lemma StepHolders(s: State, op: Op)
    requires HandlersInv(s) && OneHolder(s)
    ensures OneHolder(Apply(s, op))
  {
    var t := Apply(s, op);
    forall g | g in s.handlers ensures s.handlers[g].request.invocationId in s.receipts {
      assert HandlerInv(s, s.handlers[g]);
    }
    forall g, h | g in t.handlers && h in t.handlers && SameInvocation(t.handlers[g], t.handlers[h]) ensures g == h {
      if g in s.handlers && h in s.handlers {
        assert SameInvocation(s.handlers[g], s.handlers[h]);
      }
    }
  }

  lemma StepHandlers(s: State, op: Op)
    requires HandlersInv(s) && OneHolder(s)
    ensures HandlersInv(Apply(s, op))
  {
    var t := Apply(s, op);
    forall g | g in t.handlers ensures HandlerInv(t, t.handlers[g]) {
      if g in s.handlers {
        assert HandlerInv(s, s.handlers[g]);
        if Enabled(s, op) && (op.CompleteReceipt? || op.AbandonReceipt?) {
          OthersUntouched(s, op, op.h, g);
        }
      }
    }
  }

  /** A handler's own statements leave the receipts of other handlers alone. */
  lemma OthersUntouched(s: State, op: Op, h: HandlerId, g: HandlerId)
    requires HandlersInv(s) && OneHolder(s) && Enabled(s, op) && g in s.handlers
    requires (op.CompleteReceipt? || op.AbandonReceipt?) && op.h == h
    ensures g != h ==> HandlerInv(Apply(s, op), s.handlers[g])
    ensures g == h && g in Apply(s, op).handlers ==> HandlerInv(Apply(s, op), Apply(s, op).handlers[g])
  {
    assert HandlerInv(s, s.handlers[g]) && HandlerInv(s, s.handlers[h]);
    if g != h {
      assert !SameInvocation(s.handlers[g], s.handlers[h]);
    }
  }

  lemma StepRuns(s: State, op: Op)
    requires RunsInv(s)
    ensures RunsInv(Apply(s, op))
  {
    var t := Apply(s, op);
    forall r | r in t.runs ensures RunInv(t.runs[r], t.budgets[r]) {
      if r in s.runs {
        assert RunInv(s.runs[r], s.budgets[r]);
      }
    }
  }

  lemma {:induction false} InvAlways(states: seq<State>, ops: seq<Op>, n: nat)
    requires Behavior(states, ops) && n < |states|
    ensures Inv(states[n])
  {
    if n > 0 {
      InvAlways(states, ops, n - 1);
      StepHolders(states[n - 1], ops[n - 1]);
      StepHandlers(states[n - 1], ops[n - 1]);
      StepRuns(states[n - 1], ops[n - 1]);
    }
  }

  /** Call counts stay within the plan's limits, and model calls within capability calls. */
  lemma BudgetsHold(states: seq<State>, ops: seq<Op>, n: nat, r: RunId)
    requires Behavior(states, ops) && n < |states| && r in states[n].runs
    ensures r in states[n].budgets && RunInv(states[n].runs[r], states[n].budgets[r])
  {
    InvAlways(states, ops, n);
  }

  // ----- Exactly once -----

  /** A provider success observed for an invocation at this step. */
  predicate SucceedsFor(s: State, op: Op, i: InvocationId) {
    op.ProviderSucceeds? && Enabled(s, op) && s.handlers[op.h].request.invocationId == i
  }

  ghost function Successes(states: seq<State>, ops: seq<Op>, n: nat, i: InvocationId): nat
    requires Behavior(states, ops) && n < |states|
  {
    if n == 0 then 0
    else Successes(states, ops, n - 1, i) + (if SucceedsFor(states[n - 1], ops[n - 1], i) then 1 else 0)
  }

  predicate Carries(phase: Phase, result: string) {
    (phase.Returned? || phase.Stored?) && phase.result == result
  }

  /** The receipt is bound to this run, digest and result for good: nobody is left who could call or abandon. */
  ghost predicate Sealed(s: State, i: InvocationId, r: RunId, digest: string, result: string) {
    && i in s.receipts
    && s.receipts[i].runId == r && s.receipts[i].requestDigest == digest
    && (s.receipts[i].result == None || s.receipts[i].result == Some(result))
    && forall h :: h in s.handlers && s.handlers[h].request.invocationId == i ==> Carries(s.handlers[h].phase, result)
  }

  lemma SealedStays(s: State, op: Op, i: InvocationId, r: RunId, digest: string, result: string)
    requires Sealed(s, i, r, digest, result)
    ensures Sealed(Apply(s, op), i, r, digest, result)
    ensures s.receipts[i].result.Some? ==> Apply(s, op).receipts[i].result.Some?
    ensures !SucceedsFor(s, op, i)
  {
    var t := Apply(s, op);
    forall h | h in t.handlers && t.handlers[h].request.invocationId == i ensures Carries(t.handlers[h].phase, result) {
      if h in s.handlers {
        assert s.handlers[h].request.invocationId == i ==> Carries(s.handlers[h].phase, result);
      }
    }
  }

  lemma SuccessSeals(s: State, op: Op, i: InvocationId)
    requires Inv(s) && SucceedsFor(s, op, i)
    ensures var request := s.handlers[op.h].request;
            Sealed(Apply(s, op), i, request.runId, request.requestDigest, op.result)
  {
    var t := Apply(s, op);
    assert HandlerInv(s, s.handlers[op.h]);
    forall h | h in t.handlers && t.handlers[h].request.invocationId == i
      ensures Carries(t.handlers[h].phase, op.result)
    {
      assert SameInvocation(s.handlers[h], s.handlers[op.h]);
    }
  }

  lemma {:induction false} SealedAlways(states: seq<State>, ops: seq<Op>, k: nat, n: nat, i: InvocationId)
    requires Behavior(states, ops) && k < n < |states| && SucceedsFor(states[k], ops[k], i)
    ensures var request := states[k].handlers[ops[k].h].request;
            Sealed(states[n], i, request.runId, request.requestDigest, ops[k].result)
    decreases n
  {
    if n == k + 1 {
      InvAlways(states, ops, k);
      SuccessSeals(states[k], ops[k], i);
    } else {
      SealedAlways(states, ops, k, n - 1, i);
      var request := states[k].handlers[ops[k].h].request;
      SealedStays(states[n - 1], ops[n - 1], i, request.runId, request.requestDigest, ops[k].result);
    }
  }

  /**
   After a provider success the receipt stays; every later reservation of the invocation is refused a
   call: it gets the one result or "in progress" for the same request, and a conflict for any other.
   */
  lemma SuccessIsFinal(states: seq<State>, ops: seq<Op>, k: nat, n: nat, i: InvocationId, again: Request)
    requires Behavior(states, ops) && k < n < |states| && SucceedsFor(states[k], ops[k], i)
    requires again.invocationId == i
    ensures i in states[n].receipts
    ensures var first := states[k].handlers[ops[k].h].request;
            var outcome :=
                ReservationOutcome(states[n].runs, states[n].receipts, BudgetOf(states[n], again.runId), again);
            if again.runId == first.runId && again.requestDigest == first.requestDigest
            then outcome == InProgress || outcome == Replayed(ops[k].result)
            else outcome == Conflict
  {
    SealedAlways(states, ops, k, n, i);
  }

  lemma NoSecondSuccess(states: seq<State>, ops: seq<Op>, k: nat, n: nat, i: InvocationId)
    requires Behavior(states, ops) && k < n < |ops| && SucceedsFor(states[k], ops[k], i)
    ensures !SucceedsFor(states[n], ops[n], i)
  {
    SealedAlways(states, ops, k, n, i);
    var request := states[k].handlers[ops[k].h].request;
    SealedStays(states[n], ops[n], i, request.runId, request.requestDigest, ops[k].result);
  }

  /** Over any interleaving an invocation has at most one provider success. */
  lemma {:induction false} AtMostOneSuccess(states: seq<State>, ops: seq<Op>, n: nat, i: InvocationId)
    requires Behavior(states, ops) && n < |states|
    ensures Successes(states, ops, n, i) <= 1
    ensures Successes(states, ops, n, i) == 1 ==> exists k :: 0 <= k < n && SucceedsFor(states[k], ops[k], i)
  {
    if n > 0 {
      AtMostOneSuccess(states, ops, n - 1, i);
      if Successes(states, ops, n - 1, i) == 1 {
        var k :| 0 <= k < n - 1 && SucceedsFor(states[k], ops[k], i);
        NoSecondSuccess(states, ops, k, n - 1, i);
      }
    }
  }

  /** A result that was stored is what every later request for the invocation is answered with. */
  lemma {:induction false} StoredResultStays(states: seq<State>, ops: seq<Op>, m: nat, n: nat, i: InvocationId)
    requires Behavior(states, ops) && m <= n < |states|
    requires i in states[m].receipts && states[m].receipts[i].result.Some?
    ensures i in states[n].receipts && states[n].receipts[i] == states[m].receipts[i]
    decreases n - m
  {
    if m < n {
      InvAlways(states, ops, m);
      StoredStep(states[m], ops[m], i);
      StoredResultStays(states, ops, m + 1, n, i);
    }
  }

  lemma StoredStep(s: State, op: Op, i: InvocationId)
    requires Inv(s) && i in s.receipts && s.receipts[i].result.Some?
    ensures i in Apply(s, op).receipts && Apply(s, op).receipts[i] == s.receipts[i]
  {
    if op.CompleteReceipt? && Enabled(s, op) {
      assert HandlerInv(s, s.handlers[op.h]);
    }
  }

  // ----- Conservation of calls -----

  ghost function LiveReceipts(s: State, r: RunId): set<InvocationId> {
    set i | i in s.receipts && s.receipts[i].runId == r
  }

  /** The step gives up a reservation of run `r`. */
  predicate GivesUp(s: State, op: Op, r: RunId) {
    && op.AbandonReceipt? && Enabled(s, op) && op.durable
    && s.handlers[op.h].request.runId == r
  }

  ghost function GivenUp(states: seq<State>, ops: seq<Op>, n: nat, r: RunId): nat
    requires Behavior(states, ops) && n < |states|
  {
    if n == 0 then 0 else GivenUp(states, ops, n - 1, r) + (if GivesUp(states[n - 1], ops[n - 1], r) then 1 else 0)
  }

  lemma LiveAdded(s: State, t: State, i: InvocationId, row: Receipt)
    requires i !in s.receipts && t.receipts == s.receipts[i := row]
    ensures |LiveReceipts(t, row.runId)| == |LiveReceipts(s, row.runId)| + 1
  {
    assert LiveReceipts(t, row.runId) == LiveReceipts(s, row.runId) + {i};
  }

  lemma LiveAfterReserve(s: State, op: Op)
    requires op.Reserve? && Enabled(s, op)
    ensures |LiveReceipts(Apply(s, op), op.request.runId)| == |LiveReceipts(s, op.request.runId)| + 1
  {
    var request := op.request;
    LiveAdded(s, Apply(s, op), request.invocationId, Receipt(request.runId, request.requestDigest, None));
  }

  lemma LiveAfterGivingUp(s: State, op: Op, r: RunId)
    requires Inv(s) && GivesUp(s, op, r)
    ensures |LiveReceipts(Apply(s, op), r)| == |LiveReceipts(s, r)| - 1
  {
    var handler := s.handlers[op.h];
    assert HandlerInv(s, handler);
    assert Apply(s, op).receipts == s.receipts - {handler.request.invocationId};
    assert LiveReceipts(Apply(s, op), r) == LiveReceipts(s, r) - {handler.request.invocationId};
  }

  predicate Reserves(s: State, op: Op, r: RunId) {
    op.Reserve? && Enabled(s, op) && op.request.runId == r
  }

  lemma LiveOtherwise(s: State, op: Op, r: RunId)
    requires Inv(s) && !Reserves(s, op, r) && !GivesUp(s, op, r)
    ensures LiveReceipts(Apply(s, op), r) == LiveReceipts(s, r)
  {
    var t := Apply(s, op);
    if op.AbandonReceipt? && Enabled(s, op) {
      assert HandlerInv(s, s.handlers[op.h]);
    }
    forall i ensures i in LiveReceipts(t, r) <==> i in LiveReceipts(s, r) {
      if op.Reserve? && Enabled(s, op) {
        assert t.receipts
               == s.receipts[op.request.invocationId := Receipt(op.request.runId, op.request.requestDigest, None)];
      }
    }
  }

  lemma CallsStep(s: State, op: Op, r: RunId)
    requires Inv(s) && r in s.runs
    ensures r in Apply(s, op).runs
    ensures Apply(s, op).runs[r].capabilityCalls - s.runs[r].capabilityCalls
         == |LiveReceipts(Apply(s, op), r)| - |LiveReceipts(s, r)| + (if GivesUp(s, op, r) then 1 else 0)
  {
    CallCounterStep(s, op, r);
    if Reserves(s, op, r) {
      LiveAfterReserve(s, op);
    } else if GivesUp(s, op, r) {
      LiveAfterGivingUp(s, op, r);
    } else {
      LiveOtherwise(s, op, r);
    }
  }

  lemma CallCounterStep(s: State, op: Op, r: RunId)
    requires r in s.runs
    ensures r in Apply(s, op).runs
    ensures Apply(s, op).runs[r].capabilityCalls == s.runs[r].capabilityCalls + (if Reserves(s, op, r) then 1 else 0)
  {
  }

  ghost predicate ReceiptsOwned(s: State) {
    forall i :: i in s.receipts ==> s.receipts[i].runId in s.runs
  }

  lemma {:induction false} ReceiptsAlwaysOwned(states: seq<State>, ops: seq<Op>, n: nat)
    requires Behavior(states, ops) && n < |states|
    ensures ReceiptsOwned(states[n])
  {
    if n > 0 {
      ReceiptsAlwaysOwned(states, ops, n - 1);
    }
  }

  /** A run's capability calls are its live receipts and its abandoned reservations: nothing is refunded. */
  lemma {:induction false} CallsConserved(states: seq<State>, ops: seq<Op>, n: nat, r: RunId)
    requires Behavior(states, ops) && n < |states|
    ensures r in states[n].runs ==>
              states[n].runs[r].capabilityCalls == |LiveReceipts(states[n], r)| + GivenUp(states, ops, n, r)
    ensures r !in states[n].runs ==> GivenUp(states, ops, n, r) == 0
  {
    if n > 0 {
      CallsConserved(states, ops, n - 1, r);
      InvAlways(states, ops, n - 1);
      var s, op := states[n - 1], ops[n - 1];
      if r in s.runs {
        CallsStep(s, op, r);
      } else {
        if op.AbandonReceipt? && Enabled(s, op) {
          assert HandlerInv(s, s.handlers[op.h]);
        }
        ReceiptsAlwaysOwned(states, ops, n - 1);
        assert r in states[n].runs ==> LiveReceipts(states[n], r) == {};
      }
    }
  }

  // ----- Costs -----

  /** The cost the step adds to run `r`, if it records one. */
  function CostAt(s: State, op: Op, r: RunId): Option<Option<nat>> {
    if op.RecordCost? && Enabled(s, op) && op.durable && s.handlers[op.h].request.runId == r
    then Some(s.handlers[op.h].phase.cost) else None
  }

  function Extended(costs: seq<Option<nat>>, cost: Option<Option<nat>>): seq<Option<nat>> {
    match cost case Some(c) => costs + [c] case None => costs
  }

  ghost function Recorded(states: seq<State>, ops: seq<Op>, n: nat, r: RunId): seq<Option<nat>>
    requires Behavior(states, ops) && n < |states|
  {
    if n == 0 then [] else Extended(Recorded(states, ops, n - 1, r), CostAt(states[n - 1], ops[n - 1], r))
  }

  function Sum(costs: seq<Option<nat>>): nat {
    if costs == [] then 0
    else
      Sum(costs[..|costs| - 1]) + (match costs[|costs| - 1] case Some(c) => c case None => 0)
  }

  lemma SumAppend(costs: seq<Option<nat>>, cost: Option<nat>)
    ensures Sum(costs + [cost]) == Sum(costs) + (match cost case Some(c) => c case None => 0)
  {
    assert (costs + [cost])[..|costs|] == costs;
  }

  lemma RunStep(s: State, op: Op, r: RunId)
    requires Inv(s) && r in s.runs
    ensures r in Apply(s, op).runs && Apply(s, op).budgets[r] == s.budgets[r]
    ensures var run := Apply(s, op).runs[r];
            match CostAt(s, op, r)
            case Some(cost) => run == WithCost(s.runs[r], cost)
            case None => run.cost == s.runs[r].cost && run.costComplete == s.runs[r].costComplete
  {
  }

  predicate Totals(run: Counters, costs: seq<Option<nat>>) {
    run.cost == Sum(costs) && (run.costComplete <==> None !in costs)
  }

  lemma TotalsExtend(run: Counters, costs: seq<Option<nat>>, cost: Option<nat>)
    requires Totals(run, costs)
    ensures Totals(WithCost(run, cost), costs + [cost])
  {
    SumAppend(costs, cost);
    assert None in costs + [cost] <==> None in costs || cost == None;
  }

  lemma TotalsStep(s: State, op: Op, r: RunId, costs: seq<Option<nat>>)
    requires Inv(s) && r in s.runs && Totals(s.runs[r], costs)
    ensures r in Apply(s, op).runs && Totals(Apply(s, op).runs[r], Extended(costs, CostAt(s, op, r)))
  {
    RunStep(s, op, r);
    if CostAt(s, op, r).Some? {
      TotalsExtend(s.runs[r], costs, CostAt(s, op, r).value);
    }
  }

  lemma FirstStep(s: State, op: Op, r: RunId)
    requires Inv(s) && r !in s.runs
    ensures CostAt(s, op, r).None?
    ensures r in Apply(s, op).runs ==> Apply(s, op).runs[r] == Counters(0, 0, 0, true)
  {
    if op.RecordCost? && op.h in s.handlers {
      assert HandlerInv(s, s.handlers[op.h]);
    }
  }

  /** `cost_usd` is the sum of the recorded costs, and `cost_complete` says that none of them was missing. */
  lemma {:induction false} CostIsSum(states: seq<State>, ops: seq<Op>, n: nat, r: RunId)
    requires Behavior(states, ops) && n < |states|
    ensures r in states[n].runs ==> Totals(states[n].runs[r], Recorded(states, ops, n, r))
    ensures r !in states[n].runs ==> Recorded(states, ops, n, r) == []
  {
    if n > 0 {
      CostIsSum(states, ops, n - 1, r);
      InvAlways(states, ops, n - 1);
      var s, op := states[n - 1], ops[n - 1];
      if r in s.runs {
        TotalsStep(s, op, r, Recorded(states, ops, n - 1, r));
      } else {
        FirstStep(s, op, r);
      }
    }
  }

  // ----- The cost bound -----

  ghost function InFlight(s: State, r: RunId): set<HandlerId> {
    set h | h in s.handlers && s.handlers[h].request.runId == r
  }

  predicate CostsAtMost(op: Op, c: nat) {
    op.ProviderSucceeds? && op.cost.Some? ==> op.cost.value <= c
  }

  /** Every call costs at most `c`, and a run never has more than `k` reserved calls in flight. */
  ghost predicate Throttled(states: seq<State>, ops: seq<Op>, r: RunId, c: nat, k: nat)
    requires Behavior(states, ops)
  {
    && (forall i :: 0 <= i < |ops| ==> CostsAtMost(ops[i], c))
    && (forall i :: 0 <= i < |states| ==> |InFlight(states[i], r)| <= k)
  }

  predicate PhaseCosts(phase: Phase, c: nat) {
    (phase.Returned? || phase.Stored?) && phase.cost.Some? ==> phase.cost.value <= c
  }

  ghost predicate HandlersCost(s: State, c: nat) {
    forall h :: h in s.handlers ==> PhaseCosts(s.handlers[h].phase, c)
  }

  lemma {:induction false} HandlersAlwaysCost(states: seq<State>, ops: seq<Op>, n: nat, c: nat)
    requires Behavior(states, ops) && n < |states| && forall i :: 0 <= i < |ops| ==> CostsAtMost(ops[i], c)
    ensures HandlersCost(states[n], c)
  {
    if n > 0 {
      HandlersAlwaysCost(states, ops, n - 1, c);
      assert CostsAtMost(ops[n - 1], c);
    }
  }

  /** One more in flight when a call is reserved, one fewer when its cost is recorded, never more otherwise. */
  lemma InFlightStep(s: State, op: Op, r: RunId)
    ensures var before, after := |InFlight(s, r)|, |InFlight(Apply(s, op), r)|;
            if Reserves(s, op, r) then after == before + 1
            else if CostAt(s, op, r).Some? then after == before - 1
            else after <= before
  {
    var before, after := InFlight(s, r), InFlight(Apply(s, op), r);
    if Reserves(s, op, r) {
      assert after == before + {op.h};
    } else if CostAt(s, op, r).Some? {
      assert Apply(s, op).handlers == s.handlers - {op.h};
      assert after == before - {op.h};
    } else {
      InFlightShrinks(s, op, r);
      SubsetSize(after, before);
    }
  }

  lemma InFlightShrinks(s: State, op: Op, r: RunId)
    requires !Reserves(s, op, r)
    ensures InFlight(Apply(s, op), r) <= InFlight(s, r)
  {
  }

  lemma Scaled(c: nat, a: nat, b: nat)
    requires a <= b
    ensures c * a <= c * b
    ensures c * (a + 1) == c * a + c
  {
  }

  ghost predicate Bounded(s: State, r: RunId, c: nat, k: nat) {
    r in s.runs && r in s.budgets && s.runs[r].cost + c * |InFlight(s, r)| <= s.budgets[r].maxCost + c * k
  }

  lemma BoundedStep(s: State, op: Op, r: RunId, c: nat, k: nat)
    requires Inv(s) && Bounded(s, r, c, k) && HandlersCost(s, c) && |InFlight(Apply(s, op), r)| <= k
    ensures Bounded(Apply(s, op), r, c, k)
  {
    var before, after := |InFlight(s, r)|, |InFlight(Apply(s, op), r)|;
    RunStep(s, op, r);
    InFlightStep(s, op, r);
    StepRuns(s, op);
    if Reserves(s, op, r) {
      Scaled(c, after, k);
    } else {
      Scaled(c, after, before);
      assert CostAt(s, op, r).Some? ==> PhaseCosts(s.handlers[op.h].phase, c);
    }
  }

  lemma FirstBounded(s: State, op: Op, r: RunId, c: nat, k: nat)
    requires Inv(s) && r !in s.runs && r in Apply(s, op).runs && |InFlight(Apply(s, op), r)| <= k
    ensures Bounded(Apply(s, op), r, c, k)
  {
    FirstStep(s, op, r);
    StepRuns(s, op);
    Scaled(c, |InFlight(Apply(s, op), r)|, k);
  }

  /**
   At every point, recorded cost and `c` per call in flight stay within the plan's limit plus `c` per allowed
   call.
   */
  lemma {:induction false} CostBound(states: seq<State>, ops: seq<Op>, n: nat, r: RunId, c: nat, k: nat)
    requires Behavior(states, ops) && n < |states| && Throttled(states, ops, r, c, k)
    ensures r in states[n].runs ==> Bounded(states[n], r, c, k)
  {
    hide Apply, Inv, Bounded, HandlersCost;
    if n > 0 && r in states[n].runs {
      var s, op := states[n - 1], ops[n - 1];
      InvAlways(states, ops, n - 1);
      if r in s.runs {
        CostBound(states, ops, n - 1, r, c, k);
        HandlersAlwaysCost(states, ops, n - 1, c);
        BoundedStep(s, op, r, c, k);
      } else {
        FirstBounded(s, op, r, c, k);
      }
    }
  }

  /** Costs are not reserved: a single call may carry `cost_usd` past the plan's limit. */
  lemma CostLimitCanBePassed() returns (states: seq<State>, ops: seq<Op>)
    ensures Behavior(states, ops)
    ensures var last := states[|ops|];
            "run" in last.runs && "run" in last.budgets && last.runs["run"].cost > last.budgets["run"].maxCost
  {
    var request := Request("inv", "run", "digest", false);
    ops := [Admit("run", Budget(1, 1, 1)), Reserve(0, request), ProviderSucceeds(0, "out", Some(5)),
            CompleteReceipt(0, true), RecordCost(0, true)];
    var s1 := Apply(EMPTY, ops[0]);
    var s2 := Apply(s1, ops[1]);
    var s3 := Apply(s2, ops[2]);
    var s4 := Apply(s3, ops[3]);
    var s5 := Apply(s4, ops[4]);
    assert s4.handlers[0] == Handler(request, Stored("out", Some(5)));
    assert s5.runs["run"] == Counters(1, 0, 5, true);
    states := [EMPTY, s1, s2, s3, s4, s5];
  }
}
