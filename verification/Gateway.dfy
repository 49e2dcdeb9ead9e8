/**
 The capability gateway: receipts that claim an invocation, budgets that count it, and handlers that reserve, call a
 provider and settle, interleaving and crashing between any two atomic steps. Costs are whole numeric units.
 */
module Gateway {
  import opened Prelude

  type InvocationId = string
  type RunId = string
  type HandlerId = nat

  /** The admitted plan's budgets for a run. */
  datatype Budget = Budget(maxCapabilityCalls: nat, maxModelCalls: nat, maxCost: nat)

  datatype Counters = Counters(capabilityCalls: nat, modelCalls: nat, cost: nat, costComplete: bool)

  datatype Receipt = Receipt(runId: RunId, requestDigest: string, result: Option<string>)

  /** An invocation that passed authorization, as the reservation sees it. */
  datatype Request = Request(invocationId: InvocationId, runId: RunId, requestDigest: string, modelCall: bool)

  /** Where a handler that created a receipt stands. */
  datatype Phase =
    | Calling
    | Failing
    | Returned(result: string, cost: Option<nat>)
    | Stored(result: string, cost: Option<nat>)

  datatype Handler = Handler(request: Request, phase: Phase)

  datatype State = State(
    budgets: map<RunId, Budget>,
    runs: map<RunId, Counters>,
    receipts: map<InvocationId, Receipt>,
    handlers: map<HandlerId, Handler>)

  /** `durable` is false when the statement fails, as on a lost connection. */
  datatype Op =
    | Admit(runId: RunId, budget: Budget)
    | Reserve(h: HandlerId, request: Request)
    | ProviderSucceeds(h: HandlerId, result: string, cost: Option<nat>)
    | ProviderFails(h: HandlerId)
    | CompleteReceipt(h: HandlerId, durable: bool)
    | RecordCost(h: HandlerId, durable: bool)
    | AbandonReceipt(h: HandlerId, durable: bool)
    | Crash(h: HandlerId)

  // ----- reserveGatewayReceipt -----

  datatype Reservation = Created | Replayed(result: string) | InProgress | Conflict | BudgetDenied

  predicate WithinBudget(run: Counters, budget: Budget, modelCall: bool) {
    && run.capabilityCalls < budget.maxCapabilityCalls
    && (!modelCall || run.modelCalls < budget.maxModelCalls)
    && run.cost < budget.maxCost
  }

  /** How a reservation ends; a conflicting receipt is read back by invocation and run. */
  function ReservationOutcome(runs: map<RunId, Counters>, receipts: map<InvocationId, Receipt>, budget: Budget,
                              request: Request): (r: Reservation)
  {
    if request.invocationId in receipts then
      var receipt := receipts[request.invocationId];
      if receipt.runId != request.runId || receipt.requestDigest != request.requestDigest then Conflict
      else match receipt.result case Some(result) => Replayed(result) case None => InProgress
    else if request.runId !in runs then Conflict
    else if !WithinBudget(runs[request.runId], budget, request.modelCall) then BudgetDenied
    else Created
  }

  function Charged(run: Counters, modelCall: bool): Counters {
    run.(capabilityCalls := run.capabilityCalls + 1, modelCalls := run.modelCalls + if modelCall then 1 else 0)
  }

  function WithCost(run: Counters, cost: Option<nat>): Counters {
    match cost
    case Some(c) => run.(cost := run.cost + c)
    case None => run.(costComplete := false)
  }

  function BudgetOf(s: State, r: RunId): Budget {
    if r in s.budgets then s.budgets[r] else Budget(0, 0, 0)
  }

  // ----- Steps -----

  predicate InPhase(s: State, h: HandlerId, phase: Phase) {
    h in s.handlers && s.handlers[h].phase == phase
  }

  /** The step can be taken: the handler is where the step starts. */
  predicate Enabled(s: State, op: Op) {
    match op
    case Admit(r, _) => r !in s.runs
    case Reserve(h, request) =>
      h !in s.handlers && ReservationOutcome(s.runs, s.receipts, BudgetOf(s, request.runId), request) == Created
    case ProviderSucceeds(h, _, _) => InPhase(s, h, Calling)
    case ProviderFails(h) => InPhase(s, h, Calling)
    case CompleteReceipt(h, _) => h in s.handlers && s.handlers[h].phase.Returned?
    case RecordCost(h, _) => h in s.handlers && s.handlers[h].phase.Stored?
    case AbandonReceipt(h, _) => InPhase(s, h, Failing)
    case Crash(h) => h in s.handlers
  }

  /** The update of `completeGatewayReceipt`. */
  function Completed(receipts: map<InvocationId, Receipt>, request: Request, result: string)
    : map<InvocationId, Receipt>
  {
    if request.invocationId in receipts && receipts[request.invocationId].runId == request.runId
    then receipts[request.invocationId := receipts[request.invocationId].(result := Some(result))]
    else receipts
  }

  /** The delete of `abandonGatewayReceipt`: only a receipt without a result. */
  function Abandoned(receipts: map<InvocationId, Receipt>, request: Request): map<InvocationId, Receipt> {
    if request.invocationId in receipts && receipts[request.invocationId].runId == request.runId
       && receipts[request.invocationId].result.None?
    then receipts - {request.invocationId}
    else receipts
  }

  /** The update of `recordCapabilityCost`. */
  function Costed(runs: map<RunId, Counters>, r: RunId, cost: Option<nat>): map<RunId, Counters> {
    if r in runs then runs[r := WithCost(runs[r], cost)] else runs
  }

  function Apply(s: State, op: Op): State {
    if !Enabled(s, op) then s
    else match op
      case Admit(r, budget) =>
        s.(budgets := s.budgets[r := budget], runs := s.runs[r := Counters(0, 0, 0, true)])
      case Reserve(h, request) =>
        s.(runs := s.runs[request.runId := Charged(s.runs[request.runId], request.modelCall)],
           receipts := s.receipts[request.invocationId := Receipt(request.runId, request.requestDigest, None)],
           handlers := s.handlers[h := Handler(request, Calling)])
      case ProviderSucceeds(h, result, cost) =>
        s.(handlers := s.handlers[h := s.handlers[h].(phase := Returned(result, cost))])
      case ProviderFails(h) => s.(handlers := s.handlers[h := s.handlers[h].(phase := Failing)])
      case CompleteReceipt(h, durable) =>
        var handler := s.handlers[h];
        if !durable then s.(handlers := s.handlers - {h})
        else s.(receipts := Completed(s.receipts, handler.request, handler.phase.result),
                handlers := s.handlers[h := handler.(phase := Stored(handler.phase.result, handler.phase.cost))])
      case RecordCost(h, durable) =>
        var handler := s.handlers[h];
        s.(runs := if durable then Costed(s.runs, handler.request.runId, handler.phase.cost) else s.runs,
           handlers := s.handlers - {h})
      case AbandonReceipt(h, durable) =>
        s.(receipts := if durable then Abandoned(s.receipts, s.handlers[h].request) else s.receipts,
           handlers := s.handlers - {h})
      case Crash(h) => s.(handlers := s.handlers - {h})
  }

  const EMPTY := State(map[], map[], map[], map[])
}
