/** The gateway's statements over its tables, and the invoke handler that strings them together. */
module GatewayStore {
  import opened Prelude
  import opened Gateway

  datatype ProviderOutcome = Succeeded(result: string, cost: Option<nat>) | Failed

  /** Which of the handler's own statements fail. */
  datatype Faults = Faults(complete: bool, cost: bool, abandon: bool)

  /** One of the budget's three limits is reached; that on model calls matters for a model call alone. */
  predicate Exhausted(run: Counters, budget: Budget, modelCall: bool) {
    || run.capabilityCalls >= budget.maxCapabilityCalls
    || (modelCall && run.modelCalls >= budget.maxModelCalls)
    || run.cost >= budget.maxCost
  }

  datatype Reply = Result(result: string) | InvocationInProgress | Denied(code: string)

  class Store {
    var budgets: map<RunId, Budget>
    var runs: map<RunId, Counters>
    var receipts: map<InvocationId, Receipt>
    ghost var handlers: map<HandlerId, Handler>

    ghost function View(): State
      reads this
    {
      State(budgets, runs, receipts, handlers)
    }

    /** One transaction: claim the invocation, then charge the budget, or leave both as they were. */
    method ReserveGatewayReceipt(ghost h: HandlerId, request: Request, budget: Budget) returns (r: Reservation)
      requires h !in handlers && budget == BudgetOf(View(), request.runId)
      modifies this`runs, this`receipts, this`handlers
      ensures r == ReservationOutcome(old(runs), old(receipts), budget, request)
      ensures View() == Apply(old(View()), Op.Reserve(h, request))
      ensures r == Created <==>
                && request.invocationId !in old(receipts) && request.runId in old(runs)
                && !Exhausted(old(runs)[request.runId], budget, request.modelCall)
      ensures receipts == if r == Created
                          then old(receipts)[request.invocationId :=
                                 Receipt(request.runId, request.requestDigest, None)]
                          else old(receipts)
      ensures r == Created ==>
                var run := old(runs)[request.runId];
                runs == old(runs)[request.runId := run.(
                            capabilityCalls := run.capabilityCalls + 1,
                            modelCalls := if request.modelCall then run.modelCalls + 1 else run.modelCalls)]
      ensures r != Created ==> runs == old(runs)
    {
      if request.invocationId in receipts || request.runId !in runs {
        if request.invocationId !in receipts { return Conflict; }
        var existing := receipts[request.invocationId];
        if existing.runId != request.runId || existing.requestDigest != request.requestDigest { return Conflict; }
        return match existing.result case Some(result) => Replayed(result) case None => InProgress;
      }
      var before := receipts;
      receipts := receipts[request.invocationId := Receipt(request.runId, request.requestDigest, None)];
      if !WithinBudget(runs[request.runId], budget, request.modelCall) {
        receipts := before;
        return BudgetDenied;
      }
      runs := runs[request.runId := Charged(runs[request.runId], request.modelCall)];
      handlers := handlers[h := Handler(request, Calling)];
      return Created;
    }

    method CompleteGatewayReceipt(ghost h: HandlerId, request: Request, result: string)
      requires h in handlers && handlers[h].request == request
      requires handlers[h].phase.Returned? && handlers[h].phase.result == result
      modifies this`receipts, this`handlers
      ensures View() == Apply(old(View()), Op.CompleteReceipt(h, true))
      ensures var i := request.invocationId;
              receipts == if i in old(receipts) && old(receipts)[i].runId == request.runId
                          then old(receipts)[i := old(receipts)[i].(result := Some(result))] else old(receipts)
    {
      var i := request.invocationId;
      if i in receipts && receipts[i].runId == request.runId {
        receipts := receipts[i := receipts[i].(result := Some(result))];
      }
      handlers := handlers[h := Handler(request, Stored(result, handlers[h].phase.cost))];
    }

    method RecordCapabilityCost(ghost h: HandlerId, r: RunId, cost: Option<nat>)
      requires h in handlers && handlers[h].request.runId == r
      requires handlers[h].phase.Stored? && handlers[h].phase.cost == cost
      modifies this`runs, this`handlers
      ensures View() == Apply(old(View()), Op.RecordCost(h, true))
      ensures runs == if r !in old(runs) then old(runs)
                      else if cost.Some? then old(runs)[r := old(runs)[r].(cost := old(runs)[r].cost + cost.value)]
                      else old(runs)[r := old(runs)[r].(costComplete := false)]
    {
      if r in runs {
        var run := runs[r];
        runs := runs[r := run.(cost := run.cost + (match cost case Some(c) => c case None => 0),
                               costComplete := run.costComplete && cost.Some?)];
      }
      handlers := handlers - {h};
    }

    method AbandonGatewayReceipt(ghost h: HandlerId, request: Request)
      requires h in handlers && handlers[h] == Handler(request, Failing)
      modifies this`receipts, this`handlers
      ensures View() == Apply(old(View()), Op.AbandonReceipt(h, true))
      ensures var i := request.invocationId;
              receipts == if i in old(receipts) && old(receipts)[i].runId == request.runId
                             && old(receipts)[i].result.None?
                          then old(receipts) - {i} else old(receipts)
    {
      var i := request.invocationId;
      if i in receipts && receipts[i].runId == request.runId && receipts[i].result.None? {
        receipts := receipts - {i};
      }
      handlers := handlers - {h};
    }

    /**
     The handler once it has reserved: call the provider and settle. It gives its claim up only while
     the provider has not returned; whatever fails later leaves the claim in place.
     */
    method Settle(ghost h: HandlerId, request: Request, provider: ProviderOutcome, faults: Faults)
      returns (reply: Reply)
      requires h in handlers && handlers[h] == Handler(request, Calling)
      requires request.runId in runs
      requires request.invocationId in receipts
      requires receipts[request.invocationId] == Receipt(request.runId, request.requestDigest, None)
      modifies this`runs, this`receipts, this`handlers
      ensures handlers == old(handlers) - {h}
      ensures reply == SettledReply(provider, faults)
      ensures receipts == SettledReceipts(old(receipts), request, provider, faults)
      ensures runs == SettledRuns(old(runs), request, provider, faults)
    {
      var providerReturned := false;
      match provider {
        case Failed =>
          handlers := handlers[h := Handler(request, Failing)];
        case Succeeded(result, cost) =>
          handlers := handlers[h := Handler(request, Returned(result, cost))];
          providerReturned := true;
          if !faults.complete {
            CompleteGatewayReceipt(h, request, result);
            if !faults.cost {
              RecordCapabilityCost(h, request.runId, cost);
              return Result(result);
            }
          }
      }
      if !providerReturned && !faults.abandon {
        AbandonGatewayReceipt(h, request);
      }
      handlers := handlers - {h};
      return Denied("gateway.unknown");
    }

    /** The handler of `/v1/invoke` after authorization, with nothing else running. */
    method Invoke(ghost h: HandlerId, request: Request, budget: Budget, provider: ProviderOutcome, faults: Faults)
      returns (reply: Reply)
      requires h !in handlers && budget == BudgetOf(View(), request.runId)
      modifies this`runs, this`receipts, this`handlers
      ensures handlers == old(handlers)
      ensures reply == Answer(old(View()), request, provider, faults)
      ensures request.invocationId in old(receipts) ==>
                && receipts == old(receipts) && runs == old(runs)
                && var receipt := old(receipts)[request.invocationId];
                   reply == if receipt.runId != request.runId || receipt.requestDigest != request.requestDigest
                            then Denied("gateway.idempotency_conflict")
                            else if receipt.result.Some? then Result(receipt.result.value)
                            else InvocationInProgress
      ensures request.invocationId !in old(receipts) && request.runId !in old(runs) ==>
                receipts == old(receipts) && runs == old(runs) && reply == Denied("gateway.idempotency_conflict")
      ensures request.invocationId !in old(receipts) && request.runId in old(runs)
              && Exhausted(old(runs)[request.runId], budget, request.modelCall) ==>
                receipts == old(receipts) && runs == old(runs) && reply == Denied("gateway.budget_denied")
      ensures request.invocationId !in old(receipts) && request.runId in old(runs)
              && !Exhausted(old(runs)[request.runId], budget, request.modelCall) ==>
                && (reply == if provider.Succeeded? && !faults.complete && !faults.cost then Result(provider.result)
                             else Denied("gateway.unknown"))
                && (receipts == if provider.Failed? && !faults.abandon then old(receipts)
                                else old(receipts)[request.invocationId := Receipt(
                                         request.runId, request.requestDigest,
                                         if provider.Succeeded? && !faults.complete then Some(provider.result)
                                         else None)])
                && var run := old(runs)[request.runId];
                   var paid := provider.Succeeded? && !faults.complete && !faults.cost;
                   runs == old(runs)[request.runId := Counters(
                               run.capabilityCalls + 1,
                               if request.modelCall then run.modelCalls + 1 else run.modelCalls,
                               if paid && provider.cost.Some? then run.cost + provider.cost.value else run.cost,
                               run.costComplete && (paid ==> provider.cost.Some?))]
    {
      var outcome := ReserveGatewayReceipt(h, request, budget);
      if outcome != Created {
        return RefusedReply(outcome);
      }
      reply := Settle(h, request, provider, faults);
    }
  }

  // ----- Where one handler leaves the tables -----

  /** The reply to an invocation that reserves in this state. */
  function Answer(s: State, request: Request, provider: ProviderOutcome, faults: Faults): Reply {
    var outcome := ReservationOutcome(s.runs, s.receipts, BudgetOf(s, request.runId), request);
    if outcome == Created then SettledReply(provider, faults) else RefusedReply(outcome)
  }

  function RefusedReply(outcome: Reservation): Reply {
    match outcome
    case Replayed(result) => Result(result)
    case InProgress => InvocationInProgress
    case Conflict => Denied("gateway.idempotency_conflict")
    case _ => Denied("gateway.budget_denied")
  }

  function SettledReply(provider: ProviderOutcome, faults: Faults): Reply {
    if provider.Succeeded? && !faults.complete && !faults.cost then Result(provider.result)
    else Denied("gateway.unknown")
  }

  /** The receipt is gone after a provider failure, and stays after a provider success. */
  function SettledReceipts(receipts: map<InvocationId, Receipt>, request: Request, provider: ProviderOutcome,
                           faults: Faults):
    (r: map<InvocationId, Receipt>)
    requires request.invocationId in receipts
    ensures request.invocationId in r <==> provider.Succeeded? || faults.abandon
  {
    var i := request.invocationId;
    if provider.Succeeded? then
      if faults.complete then receipts else receipts[i := receipts[i].(result := Some(provider.result))]
    else if faults.abandon then receipts
    else receipts - {i}
  }

  /** The reserved calls stay counted whatever happens; a cost is added when a success is recorded. */
  function SettledRuns(runs: map<RunId, Counters>, request: Request, provider: ProviderOutcome, faults: Faults):
    (r: map<RunId, Counters>)
    requires request.runId in runs
    ensures request.runId in r && r[request.runId].capabilityCalls == runs[request.runId].capabilityCalls
    ensures provider.Failed? ==> r == runs
  {
    if provider.Succeeded? && !faults.complete && !faults.cost
    then runs[request.runId := WithCost(runs[request.runId], provider.cost)]
    else runs
  }
}
