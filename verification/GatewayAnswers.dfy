/** What an invocation is answered over whole behaviors of the gateway, once its provider has succeeded. */
module GatewayAnswers {
  import opened Prelude
  import opened Gateway
  import opened GatewayTheorems
  import opened GatewayStore

  /** The handler has the provider's result and writes it to the receipt. */
  predicate StoresResult(s: State, op: Op, request: Request, result: string) {
    && op.CompleteReceipt? && op.durable && op.h in s.handlers
    && s.handlers[op.h].request == request
    && s.handlers[op.h].phase.Returned? && s.handlers[op.h].phase.result == result
  }

  /** Only what names the invocation is compared. */
  predicate SameRequest(a: Request, b: Request) {
    a.invocationId == b.invocationId && a.runId == b.runId && a.requestDigest == b.requestDigest
  }

  /** Once a result is stored, every later invocation with the request is answered with it, whatever else goes on. */
  lemma StoredResultAnswers(states: seq<State>, ops: seq<Op>, k: nat, n: nat, request: Request, again: Request,
                            result: string, provider: ProviderOutcome, faults: Faults)
    requires Behavior(states, ops) && k < n < |states| && StoresResult(states[k], ops[k], request, result)
    requires again.invocationId == request.invocationId
    ensures Answer(states[n], again, provider, faults)
         == if SameRequest(again, request) then Result(result) else Denied("gateway.idempotency_conflict")
  {
    InvAlways(states, ops, k);
    assert HandlerInv(states[k], states[k].handlers[ops[k].h]);
    assert states[k + 1] == Apply(states[k], ops[k]);
    StoredResultStays(states, ops, k + 1, n, request.invocationId);
  }

  /** From the provider's success on, no other result is ever answered and no provider called again. */
  lemma SuccessAnswers(states: seq<State>, ops: seq<Op>, k: nat, n: nat, i: InvocationId, again: Request,
                       provider: ProviderOutcome, faults: Faults)
    requires Behavior(states, ops) && k < n < |states| && SucceedsFor(states[k], ops[k], i)
    requires again.invocationId == i
    ensures var answer := Answer(states[n], again, provider, faults);
            if SameRequest(again, states[k].handlers[ops[k].h].request)
            then answer == InvocationInProgress || answer == Result(ops[k].result)
            else answer == Denied("gateway.idempotency_conflict")
  {
    SuccessIsFinal(states, ops, k, n, i, again);
  }

  /** A crash, or a write that fails after the reservation, ends the handler and leaves every table as it was. */
  lemma FailedWrites(s: State, h: HandlerId)
    requires h in s.handlers
    ensures var ended := s.(handlers := s.handlers - {h});
            && Apply(s, Crash(h)) == ended
            && match s.handlers[h].phase
               case Calling => true
               case Failing => Apply(s, AbandonReceipt(h, false)) == ended
               case Returned(_, _) => Apply(s, CompleteReceipt(h, false)) == ended
               case Stored(_, _) => Apply(s, RecordCost(h, false)) == ended
  {
  }
}
