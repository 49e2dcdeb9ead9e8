/**
 The run ledger: one row per run, and what each statement of the persistence layer does to a row.
 A statement is one atomic step; the clock (in milliseconds), the workers and the sweeps interleave freely.
 */
module RunLedger {
  import opened Prelude

  type RunId = string

  datatype Status = Queued | Running | Retrying | Completed | ManualReview | Denied | Failed | Cancelled

  datatype Run = Run(
    tenant: string,
    idempotencyKey: string,
    requestDigest: string,
    planDigest: string,
    status: Status,
    terminalOutcome: Option<string>,
    output: Option<string>,
    errorCode: Option<string>,
    attempt: int,
    attemptLimit: int,
    epoch: int,
    leaseOwner: Option<string>,
    leaseExpiresAt: Option<int>,
    availableAt: Option<int>,
    cancellationRequestedAt: Option<int>,
    currentNode: Option<string>,
    checkpoint: Option<string>,
    traceId: Option<string>,
    createdAt: int,
    startedAt: Option<int>,
    completedAt: Option<int>,
    events: seq<string>)

  datatype Ledger = Ledger(now: int, runs: map<RunId, Run>)

  /** The authority a claim hands to a worker, and every later write presents. */
  datatype Fence = Fence(worker: string, epoch: int)

  datatype Closing = Closing(status: Status, outcome: string, output: string, errorCode: Option<string>)

  datatype Op =
    | Tick(now: int)
    | CreateRun(newId: RunId, tenant: string, key: string, requestDigest: string, planDigest: string)
    | ClaimRun(worker: string, leaseSeconds: int, chosen: Option<RunId>)
    | RenewLease(runId: RunId, fence: Fence, leaseSeconds: int)
    | ScheduleRetry(runId: RunId, fence: Fence, backoff: int, retryCode: string)
    | FailExhausted
    | RequestCancellation(runId: RunId, tenant: string)
    | CompleteCancelled(runId: RunId, cancelCode: Option<string>)
    | FinalizeAbandoned
    | UpdateNode(runId: RunId, fence: Fence, node: Option<string>, mark: Option<string>)
    | BindTrace(runId: RunId, fence: Fence, attempt: int, trace: string)
    | CompleteRun(runId: RunId, fence: Fence, closing: Closing)
    | AppendEvent(runId: RunId, eventKey: string)

  // ----- Guards -----

  predicate Open(s: Status) {
    s == Queued || s == Running || s == Retrying
  }

  predicate Terminal(s: Status) {
    !Open(s)
  }

  predicate Past(at: Option<int>, now: int) {
    at.Some? && at.value < now
  }

  /** The candidate query of `claimRun`. */
  predicate Claimable(run: Run, now: int) {
    && ( || ((run.status == Queued || run.status == Retrying)
             && (run.availableAt.None? || run.availableAt.value <= now))
         || (run.status == Running && Past(run.leaseExpiresAt, now)))
    && run.cancellationRequestedAt.None?
    && run.attempt < run.attemptLimit
  }

  /** The guard of every fenced update: the current owner, under the current epoch, of a running run. */
  predicate Holds(run: Run, fence: Fence) {
    run.status == Running && run.leaseOwner == Some(fence.worker) && run.epoch == fence.epoch
  }

  predicate Exhausted(run: Run) {
    (run.status == Queued || run.status == Retrying) && run.attempt >= run.attemptLimit
  }

  predicate Abandoned(run: Run, now: int) {
    && run.status == Running
    && run.cancellationRequestedAt.Some?
    && (run.leaseExpiresAt.None? || run.leaseExpiresAt.value < now)
  }

  function Coalesce<T>(first: Option<T>, second: Option<T>): Option<T> {
    if first.Some? then first else second
  }

  // ----- Updates of one row -----

  function Claimed(run: Run, now: int, worker: string, leaseSeconds: int): Run {
    run.(status := Running, leaseOwner := Some(worker), leaseExpiresAt := Some(now + 1000 * leaseSeconds),
         epoch := run.epoch + 1, attempt := run.attempt + 1, availableAt := None,
         startedAt := Coalesce(run.startedAt, Some(now)))
  }

  function Max(a: int, b: int): int {
    if a < b then b else a
  }

  function Rescheduled(run: Run, now: int, backoff: int, code: string): Run {
    run.(status := Retrying, leaseOwner := None, leaseExpiresAt := None,
         availableAt := Some(now + Max(0, backoff)), errorCode := Some(code))
  }

  function Closed(run: Run, now: int, closing: Closing): Run {
    run.(status := closing.status, terminalOutcome := Some(closing.outcome), output := Some(closing.output),
         errorCode := closing.errorCode, leaseOwner := None, leaseExpiresAt := None, completedAt := Some(now))
  }

  function ClosedAs(run: Run, now: int, status: Status, outcome: string, code: Option<string>): Run {
    run.(status := status, terminalOutcome := Some(outcome), errorCode := code,
         leaseOwner := None, leaseExpiresAt := None, completedAt := Some(now))
  }

  function CancellationRequested(run: Run, now: int): Run {
    var marked := run.(cancellationRequestedAt := Some(now), epoch := run.epoch + 1);
    if run.status == Running then marked
    else marked.(status := Cancelled, terminalOutcome := Some("cancelled"), completedAt := Some(now),
                 leaseOwner := None, leaseExpiresAt := None)
  }

  /** What a step does to the row of run `r`. */
  function RowStep(now: int, op: Op, r: RunId, run: Run): Run {
    match op
    case Tick(_) => run
    case CreateRun(_, _, _, _, _) => run
    case ClaimRun(worker, seconds, chosen) =>
      if chosen == Some(r) && Claimable(run, now) then Claimed(run, now, worker, seconds) else run
    case RenewLease(id, fence, seconds) =>
      if id == r && Holds(run, fence) then run.(leaseExpiresAt := Some(now + 1000 * seconds)) else run
    case ScheduleRetry(id, fence, backoff, code) =>
      if id == r && Holds(run, fence) && run.attempt < run.attemptLimit then Rescheduled(run, now, backoff, code)
      else run
    case FailExhausted =>
      if Exhausted(run) then
        ClosedAs(run, now, Failed, "failed", Coalesce(run.errorCode, Some("runtime.attempts_exhausted")))
      else run
    case RequestCancellation(id, tenant) =>
      if id == r && run.tenant == tenant && Open(run.status) then CancellationRequested(run, now) else run
    case CompleteCancelled(id, code) =>
      if id == r && run.status == Running && run.cancellationRequestedAt.Some? then
        ClosedAs(run, now, Cancelled, "cancelled", Coalesce(code, Coalesce(run.errorCode, Some("runtime.cancelled"))))
      else run
    case FinalizeAbandoned =>
      if Abandoned(run, now) then
        ClosedAs(run, now, Cancelled, "cancelled", Coalesce(run.errorCode, Some("runtime.cancelled_lease_expired")))
      else run
    case UpdateNode(id, fence, node, mark) =>
      if id == r && Holds(run, fence) then run.(currentNode := node, checkpoint := Coalesce(mark, run.checkpoint))
      else run
    case BindTrace(id, fence, attempt, trace) =>
      if id == r && Holds(run, fence)
        && run.attempt == attempt then run.(traceId := Coalesce(run.traceId, Some(trace))) else run
    case CompleteRun(id, fence, closing) =>
      if id == r && Holds(run, fence) then Closed(run, now, closing) else run
    case AppendEvent(id, key) =>
      if id == r && key !in run.events then run.(events := run.events + [key]) else run
  }

  // ----- Creation -----

  /** The column default of `attempt_limit`. */
  const DEFAULT_ATTEMPT_LIMIT := 3

  function NewRun(now: int, tenant: string, key: string, requestDigest: string, planDigest: string): Run {
    Run(tenant, key, requestDigest, planDigest, Queued, None, None, None, 0, DEFAULT_ATTEMPT_LIMIT, 0,
        None, None, None, None, None, None, None, now, None, None, [])
  }

  /** The unique constraint on (tenant, idempotency key). */
  predicate KeyTaken(runs: map<RunId, Run>, tenant: string, key: string) {
    exists r :: r in runs && runs[r].tenant == tenant && runs[r].idempotencyKey == key
  }

  function Inserted(s: Ledger, op: Op): map<RunId, Run> {
    match op
    case CreateRun(newId, tenant, key, requestDigest, planDigest) =>
      if newId in s.runs || KeyTaken(s.runs, tenant, key) then map[]
      else map[newId := NewRun(s.now, tenant, key, requestDigest, planDigest)]
    case _ => map[]
  }

  /** One step of the whole ledger. */
  function Apply(s: Ledger, op: Op): Ledger {
    Ledger(if op.Tick? then op.now else s.now,
           (map r | r in s.runs :: RowStep(s.now, op, r, s.runs[r])) + Inserted(s, op))
  }

  /** The statement matched the row, so it reports success. */
  predicate Accepted(s: Ledger, op: Op, r: RunId) {
    && r in s.runs
    && var run := s.runs[r];
       match op
       case ClaimRun(_, _, chosen) => chosen == Some(r) && Claimable(run, s.now)
       case RenewLease(id, fence, _) => id == r && Holds(run, fence)
       case ScheduleRetry(id, fence, _, _) => id == r && Holds(run, fence) && run.attempt < run.attemptLimit
       case FailExhausted => Exhausted(run)
       case RequestCancellation(id, tenant) => id == r && run.tenant == tenant && Open(run.status)
       case CompleteCancelled(id, _) => id == r && run.status == Running && run.cancellationRequestedAt.Some?
       case FinalizeAbandoned => Abandoned(run, s.now)
       case UpdateNode(id, fence, _, _) => id == r && Holds(run, fence)
       case BindTrace(id, fence, attempt, _) => id == r && Holds(run, fence) && run.attempt == attempt
       case CompleteRun(id, fence, _) => id == r && Holds(run, fence)
       case _ => false
  }

  // ----- Authority checked against the live row -----

  /** `currentFencingEpoch`. */
  function CurrentFencingEpoch(s: Ledger, r: RunId): Option<int> {
    if r in s.runs && s.runs[r].status == Running then Some(s.runs[r].epoch) else None
  }

  /** A runtime grant, minted by the dispatcher from a claim. */
  datatype Grant = Grant(runId: RunId, attempt: int, worker: string, planDigest: string, epoch: int)

  /** The envelope broker's guards over live state, in order. */
  function IssueEnvelope(s: Ledger, grant: Grant, runId: RunId, attempt: int): (r: Result<int, string>) {
    if grant.runId != runId then Err("broker.run_mismatch")
    else if grant.attempt != attempt then Err("broker.attempt_mismatch")
    else if runId !in s.runs then Err("broker.run_not_found")
    else if s.runs[runId].status != Running then Err("broker.run_not_running")
    else if s.runs[runId].planDigest != grant.planDigest then Err("broker.plan_mismatch")
    else if CurrentFencingEpoch(s, runId) != Some(grant.epoch) then Err("broker.stale_fence")
    else Ok(grant.epoch)
  }

  /** The journal's guards over live state, in order. */
  function AuthorizeStateWrite(s: Ledger, grant: Grant, runId: RunId, attempt: int,
                               fence: Fence): (r: Result<(), string>)
  {
    if grant.runId != runId then Err("runtime_state.run_mismatch")
    else if grant.attempt != attempt then Err("runtime_state.attempt_mismatch")
    else if grant.worker != fence.worker then Err("runtime_state.worker_mismatch")
    else if grant.epoch != fence.epoch then Err("runtime_state.grant_fence_mismatch")
    else if runId !in s.runs then Err("runtime_state.run_not_found")
    else if s.runs[runId].status != Running then Err("runtime_state.run_not_running")
    else if CurrentFencingEpoch(s, runId) != Some(fence.epoch) then Err("runtime_state.stale_fence")
    else Ok(())
  }

  /** The gateway's fence check of an execution envelope. */
  predicate GatewayAdmits(s: Ledger, runId: RunId, epoch: int) {
    CurrentFencingEpoch(s, runId) == Some(epoch)
  }
}
