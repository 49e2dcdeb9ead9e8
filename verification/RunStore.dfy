/** The persistence layer's run functions over the table they update, each tied to its ledger step. */
module RunStore {
  import opened Prelude
  import opened RunLedger

  // ----- The statements' conditions and effects, on the columns -----

  predicate Keyed(run: Run, tenant: string, key: string) {
    run.tenant == tenant && run.idempotencyKey == key
  }

  /** The row an insert leaves: the given columns, and the table's defaults in the others. */
  predicate FreshRow(run: Run, now: int, tenant: string, key: string, requestDigest: string, planDigest: string) {
    && Keyed(run, tenant, key) && run.requestDigest == requestDigest && run.planDigest == planDigest
    && run.status == Queued && run.attempt == 0 && run.attemptLimit == 3 && run.epoch == 0 && run.events == []
    && run.createdAt == now
    && run.terminalOutcome.None? && run.output.None? && run.errorCode.None?
    && run.leaseOwner.None? && run.leaseExpiresAt.None? && run.availableAt.None? && run.cancellationRequestedAt.None?
    && run.currentNode.None? && run.checkpoint.None? && run.traceId.None?
    && run.startedAt.None? && run.completedAt.None?
  }

  /** A claim may take the run: it waits and is available, or its lease has run out. */
  predicate Free(run: Run, now: int) {
    && run.cancellationRequestedAt.None? && run.attempt < run.attemptLimit
    && match run.status
       case Queued => run.availableAt.Some? ==> run.availableAt.value <= now
       case Retrying => run.availableAt.Some? ==> run.availableAt.value <= now
       case Running => run.leaseExpiresAt.Some? && run.leaseExpiresAt.value < now
       case _ => false
  }

  /** The fence's worker and epoch are those of the running row. */
  predicate Owned(runs: map<RunId, Run>, r: RunId, fence: Fence) {
    && r in runs && runs[r].status == Running
    && runs[r].leaseOwner == Some(fence.worker) && runs[r].epoch == fence.epoch
  }

  predicate Spent(run: Run) {
    run.attempt >= run.attemptLimit && match run.status case Queued => true case Retrying => true case _ => false
  }

  predicate Lapsed(run: Run, now: int) {
    && run.status == Running && run.cancellationRequestedAt.Some?
    && (run.leaseExpiresAt.Some? ==> run.leaseExpiresAt.value < now)
  }

  function Postponed(run: Run, now: int, backoff: int, code: string): Run {
    run.(status := Retrying, leaseOwner := None, leaseExpiresAt := None, errorCode := Some(code),
         availableAt := Some(if backoff < 0 then now else now + backoff))
  }

  /** A sweep closes the run; an error code that is already there stays. */
  function Finished(run: Run, now: int, status: Status, outcome: string, code: string): Run {
    run.(status := status, terminalOutcome := Some(outcome), leaseOwner := None, leaseExpiresAt := None,
         completedAt := Some(now), errorCode := if run.errorCode.Some? then run.errorCode else Some(code))
  }

  lemma SweepFails(s: Ledger)
    ensures Apply(s, Op.FailExhausted)
         == s.(runs := map r | r in s.runs ::
                   if Spent(s.runs[r]) then Finished(s.runs[r], s.now, Failed, "failed", "runtime.attempts_exhausted")
                   else s.runs[r])
  {
  }

  lemma SweepCancels(s: Ledger)
    ensures Apply(s, Op.FinalizeAbandoned)
         == s.(runs := map r | r in s.runs ::
                   if Lapsed(s.runs[r], s.now)
                   then Finished(s.runs[r], s.now, Cancelled, "cancelled", "runtime.cancelled_lease_expired")
                   else s.runs[r])
  {
  }

  class Store {
    var now: int
    var runs: map<RunId, Run>

    ghost function View(): Ledger
      reads this
    {
      Ledger(now, runs)
    }

    constructor (now: int)
      ensures View() == Ledger(now, map[])
    {
      this.now, runs := now, map[];
    }

    /** The database clock moves. */
    method Advance(to: int)
      modifies this
      ensures View() == Apply(old(View()), Op.Tick(to))
    {
      now := to;
    }

    /** Update the one matching row, as `update ... where run_id = $1 and ...` does. */
    method UpdateRow(r: RunId, row: Run)
      requires r in runs
      modifies this`runs
      ensures runs == old(runs)[r := row]
    {
      runs := runs[r := row];
    }

    method CreateRun(newId: RunId, tenant: string, key: string, requestDigest: string, planDigest: string)
      returns (r: Result<(bool, RunId), string>)
      modifies this`runs
      ensures View() == Apply(old(View()), Op.CreateRun(newId, tenant, key, requestDigest, planDigest))
      ensures r == Ok((true, newId)) <==>
                newId !in old(runs)
                && forall id :: id in old(runs) ==> !Keyed(old(runs)[id], tenant, key)
      ensures r == Ok((true, newId)) ==>
                && newId in runs && FreshRow(runs[newId], now, tenant, key, requestDigest, planDigest)
                && runs == old(runs)[newId := runs[newId]]
      ensures r != Ok((true, newId)) ==> runs == old(runs)
      ensures r.Ok? && !r.value.0 ==>
                && r.value.1 in old(runs)
                && Keyed(old(runs)[r.value.1], tenant, key) && old(runs)[r.value.1].requestDigest == requestDigest
      ensures r == Err("run.idempotency_conflict") ==>
                exists id :: id in old(runs) && Keyed(old(runs)[id], tenant, key)
                             && old(runs)[id].requestDigest != requestDigest
      ensures r.Err? && r.error != "run.idempotency_conflict" ==> newId in old(runs)
    {
      if id :| id in runs && runs[id].tenant == tenant && runs[id].idempotencyKey == key {
        if runs[id].requestDigest == requestDigest {
          r := Ok((false, id));
        } else {
          r := Err("run.idempotency_conflict");
        }
      } else if newId in runs {
        r := Err("unique_violation");
      } else {
        runs := runs[newId := NewRun(now, tenant, key, requestDigest, planDigest)];
        r := Ok((true, newId));
      }
    }

    /** The oldest claimable row that no other transaction holds locked. */
    method OldestClaimable(locked: set<RunId>) returns (chosen: Option<RunId>)
      ensures chosen.None? <==> forall r :: r in runs && r !in locked ==> !Claimable(runs[r], now)
      ensures chosen.Some? ==> chosen.value in runs && chosen.value !in locked && Claimable(runs[chosen.value], now)
      ensures chosen.Some? ==> forall r :: r in runs && r !in locked && Claimable(runs[r], now) ==>
                                 runs[chosen.value].createdAt <= runs[r].createdAt
    {
      var candidates := set r | r in runs && r !in locked && Claimable(runs[r], now);
      assert forall r :: r in runs && r !in locked && Claimable(runs[r], now) ==> r in candidates;
      if candidates == {} { return None; }
      var best :| best in candidates;
      var rest := candidates - {best};
      while rest != {}
        invariant best in candidates && rest <= candidates
        invariant forall r :: r in candidates && r !in rest ==> runs[best].createdAt <= runs[r].createdAt
        decreases rest
      {
        var r :| r in rest;
        if runs[r].createdAt < runs[best].createdAt { best := r; }
        rest := rest - {r};
      }
      return Some(best);
    }

    method ClaimRun(worker: string, leaseSeconds: int, locked: set<RunId>)
      returns (chosen: Option<RunId>, fence: Fence)
      modifies this`runs
      ensures View() == Apply(old(View()), Op.ClaimRun(worker, leaseSeconds, chosen))
      ensures chosen.None? ==>
                runs == old(runs) && forall r :: r in old(runs) && r !in locked ==> !Free(old(runs)[r], now)
      ensures chosen.Some? ==>
                && chosen.value in old(runs) && chosen.value !in locked && Free(old(runs)[chosen.value], now)
                && (forall r :: r in old(runs) && r !in locked && Free(old(runs)[r], now) ==>
                      old(runs)[chosen.value].createdAt <= old(runs)[r].createdAt)
                && var run := old(runs)[chosen.value];
                   && fence == Fence(worker, run.epoch + 1)
                   && runs == old(runs)[chosen.value := run.(
                                status := Running, leaseOwner := Some(worker),
                                leaseExpiresAt := Some(now + 1000 * leaseSeconds), epoch := run.epoch + 1,
                                attempt := run.attempt + 1, availableAt := None,
                                startedAt := if run.startedAt.Some? then run.startedAt else Some(now))]
    {
      chosen := OldestClaimable(locked);
      fence := Fence(worker, 0);
      if chosen.Some? {
        var run := Claimed(runs[chosen.value], now, worker, leaseSeconds);
        UpdateRow(chosen.value, run);
        fence := Fence(worker, run.epoch);
      }
    }

    method RenewLease(r: RunId, fence: Fence, leaseSeconds: int) returns (held: bool)
      modifies this`runs
      ensures View() == Apply(old(View()), Op.RenewLease(r, fence, leaseSeconds))
      ensures held <==> Owned(old(runs), r, fence)
      ensures runs == if held then old(runs)[r := old(runs)[r].(leaseExpiresAt := Some(now + 1000 * leaseSeconds))]
                      else old(runs)
    {
      held := r in runs && Holds(runs[r], fence);
      if held {
        UpdateRow(r, runs[r].(leaseExpiresAt := Some(now + 1000 * leaseSeconds)));
      }
    }

    method ScheduleRunRetry(r: RunId, fence: Fence, backoff: int, code: string) returns (scheduled: bool)
      modifies this`runs
      ensures View() == Apply(old(View()), Op.ScheduleRetry(r, fence, backoff, code))
      ensures scheduled <==> Owned(old(runs), r, fence) && old(runs)[r].attempt < old(runs)[r].attemptLimit
      ensures runs == if scheduled then old(runs)[r := Postponed(old(runs)[r], now, backoff, code)] else old(runs)
    {
      scheduled := r in runs && Holds(runs[r], fence) && runs[r].attempt < runs[r].attemptLimit;
      if scheduled {
        UpdateRow(r, Rescheduled(runs[r], now, backoff, code));
      }
    }

    method FailExhaustedRuns() returns (count: nat)
      modifies this`runs
      ensures View() == Apply(old(View()), Op.FailExhausted)
      ensures count == |set r | r in old(runs) && Spent(old(runs)[r])|
      ensures runs.Keys == old(runs).Keys
      ensures forall r :: r in runs ==>
                runs[r] == if Spent(old(runs)[r])
                           then Finished(old(runs)[r], now, Failed, "failed", "runtime.attempts_exhausted")
                           else old(runs)[r]
    {
      ghost var before := View();
      var hit := set r | r in runs && Exhausted(runs[r]);
      count := |hit|;
      assert hit == set r | r in before.runs && Spent(before.runs[r]);
      SweepFails(before);
      hide Apply, Exhausted, Spent;
      runs := map r | r in runs :: if r in hit then
        ClosedAs(runs[r], now, Failed, "failed", Coalesce(runs[r].errorCode, Some("runtime.attempts_exhausted")))
        else runs[r];
    }

    method RequestRunCancellation(r: RunId, tenant: string) returns (outcome: string)
      modifies this`runs
      ensures View() == Apply(old(View()), Op.RequestCancellation(r, tenant))
      ensures outcome == if r !in old(runs) || old(runs)[r].tenant != tenant then "not_found"
                         else match old(runs)[r].status
                           case Running => "requested"
                           case Queued => "cancelled"
                           case Retrying => "cancelled"
                           case _ => "already_terminal"
      ensures outcome == "requested" ==>
                runs == old(runs)[r := old(runs)[r].(cancellationRequestedAt := Some(now),
                                                     epoch := old(runs)[r].epoch + 1)]
      ensures outcome == "cancelled" ==>
                runs == old(runs)[r := old(runs)[r].(cancellationRequestedAt := Some(now),
                                                     epoch := old(runs)[r].epoch + 1, status := Cancelled,
                                                     terminalOutcome := Some("cancelled"), completedAt := Some(now),
                                                     leaseOwner := None, leaseExpiresAt := None)]
      ensures outcome == "not_found" || outcome == "already_terminal" ==> runs == old(runs)
    {
      if r !in runs || runs[r].tenant != tenant { return "not_found"; }
      if !Open(runs[r].status) { return "already_terminal"; }
      outcome := if runs[r].status == Running then "requested" else "cancelled";
      UpdateRow(r, CancellationRequested(runs[r], now));
    }

    method CompleteCancelledRun(r: RunId, code: Option<string>) returns (done: bool)
      modifies this`runs
      ensures View() == Apply(old(View()), Op.CompleteCancelled(r, code))
      ensures done <==> r in old(runs) && old(runs)[r].status == Running
                        && old(runs)[r].cancellationRequestedAt.Some?
      ensures runs == if done then old(runs)[r := Finished(old(runs)[r].(
                                errorCode := if code.Some? then code else old(runs)[r].errorCode), now, Cancelled,
                                                           "cancelled", "runtime.cancelled")]
                      else old(runs)
    {
      done := r in runs && runs[r].status == Running && runs[r].cancellationRequestedAt.Some?;
      if done {
        var reason := Coalesce(code, Coalesce(runs[r].errorCode, Some("runtime.cancelled")));
        UpdateRow(r, ClosedAs(runs[r], now, Cancelled, "cancelled", reason));
      }
    }

    method FinalizeAbandonedCancellations() returns (count: nat)
      modifies this`runs
      ensures View() == Apply(old(View()), Op.FinalizeAbandoned)
      ensures count == |set r | r in old(runs) && Lapsed(old(runs)[r], now)|
      ensures runs.Keys == old(runs).Keys
      ensures forall r :: r in runs ==>
                runs[r] == if Lapsed(old(runs)[r], now)
                           then Finished(old(runs)[r], now, Cancelled, "cancelled",
                                         "runtime.cancelled_lease_expired")
                           else old(runs)[r]
    {
      ghost var before := View();
      var hit := set r | r in runs && Abandoned(runs[r], now);
      count := |hit|;
      assert hit == set r | r in before.runs && Lapsed(before.runs[r], now);
      SweepCancels(before);
      hide Apply, Abandoned, Lapsed;
      runs := map r | r in runs :: if r in hit then
        ClosedAs(runs[r], now, Cancelled, "cancelled",
                 Coalesce(runs[r].errorCode, Some("runtime.cancelled_lease_expired")))
        else runs[r];
    }

    method UpdateRunNode(r: RunId, fence: Fence, node: Option<string>, mark: Option<string>)
      returns (result: Result<(), string>)
      modifies this`runs
      ensures View() == Apply(old(View()), Op.UpdateNode(r, fence, node, mark))
      ensures result.Ok? <==> Owned(old(runs), r, fence)
      ensures runs == if result.Ok?
                      then old(runs)[r := old(runs)[r].(
                             currentNode := node,
                             checkpoint := if mark.Some? then mark else old(runs)[r].checkpoint)]
                      else old(runs)
    {
      if r !in runs || !Holds(runs[r], fence) { return Err("runtime.stale_fence"); }
      UpdateRow(r, runs[r].(currentNode := node, checkpoint := Coalesce(mark, runs[r].checkpoint)));
      return Ok(());
    }

    method BindRunTrace(r: RunId, fence: Fence, attempt: int, trace: string) returns (result: Result<(), string>)
      modifies this`runs
      ensures View() == Apply(old(View()), Op.BindTrace(r, fence, attempt, trace))
      ensures result.Ok? <==> Owned(old(runs), r, fence) && old(runs)[r].attempt == attempt
      ensures runs == if result.Ok? && old(runs)[r].traceId.None?
                      then old(runs)[r := old(runs)[r].(traceId := Some(trace))] else old(runs)
    {
      if r !in runs || !Holds(runs[r], fence) || runs[r].attempt != attempt { return Err("runtime.stale_fence"); }
      UpdateRow(r, runs[r].(traceId := Coalesce(runs[r].traceId, Some(trace))));
      return Ok(());
    }

    method CompleteRun(r: RunId, fence: Fence, closing: Closing) returns (result: Result<(), string>)
      modifies this`runs
      ensures View() == Apply(old(View()), Op.CompleteRun(r, fence, closing))
      ensures result.Ok? <==> Owned(old(runs), r, fence)
      ensures runs == if result.Ok?
                      then old(runs)[r := old(runs)[r].(
                             status := closing.status, terminalOutcome := Some(closing.outcome),
                             output := Some(closing.output), errorCode := closing.errorCode,
                             leaseOwner := None, leaseExpiresAt := None, completedAt := Some(now))]
                      else old(runs)
    {
      if r !in runs || !Holds(runs[r], fence) { return Err("runtime.stale_fence"); }
      UpdateRow(r, Closed(runs[r], now, closing));
      return Ok(());
    }

    /** Returns the event's sequence number; a repeated key returns the number it already has. */
    method AppendEvent(r: RunId, key: string) returns (sequence: Result<nat, string>)
      modifies this`runs
      ensures View() == Apply(old(View()), Op.AppendEvent(r, key))
      ensures sequence.Ok? <==> r in old(runs)
      ensures sequence.Ok? ==> 0 < sequence.value <= |runs[r].events| && runs[r].events[sequence.value - 1] == key
      ensures runs == if r in old(runs) && key !in old(runs)[r].events
                      then old(runs)[r := old(runs)[r].(events := old(runs)[r].events + [key])] else old(runs)
    {
      if r !in runs { return Err("event.run_missing"); }
      var events := runs[r].events;
      for i := 0 to |events|
        invariant key !in events[..i]
      {
        if events[i] == key { return Ok(i + 1); }
      }
      assert events[..|events|] == events;
      UpdateRow(r, runs[r].(events := events + [key]));
      return Ok(|events| + 1);
    }

    /**
     The dispatcher's failure path: schedule a retry if the failure is worth one and the ledger
     allows it, and otherwise record the failure. A worker that no longer holds the run changes nothing.
     */
    method HandleFailure(r: RunId, fence: Fence, attempt: int, code: string, denied: bool)
      returns (outcome: FailureOutcome)
      modifies this`runs
      ensures outcome == Refused <==> !Owned(old(runs), r, fence)
      ensures outcome == Retried <==>
                Owned(old(runs), r, fence) && !denied && Retryable(code)
                && old(runs)[r].attempt < old(runs)[r].attemptLimit
      ensures outcome == Refused ==> runs == old(runs)
      ensures outcome == Retried ==>
                runs == old(runs)[r := Postponed(old(runs)[r], now, BackoffMs(attempt), code)]
      ensures outcome == Recorded ==>
                runs == old(runs)[r := old(runs)[r].(
                          status := if denied then Denied else Failed,
                          terminalOutcome := Some(if denied then "denied" else "failed"),
                          output := Some(code), errorCode := Some(code),
                          leaseOwner := None, leaseExpiresAt := None, completedAt := Some(now))]
    {
      if !denied && Retryable(code) {
        var scheduled := ScheduleRunRetry(r, fence, BackoffMs(attempt), code);
        if scheduled {
          return Retried;
        }
      }
      var result := CompleteRun(r, fence, FailureClosing(code, denied));
      return if result.Ok? then Recorded else Refused;
    }
  }

  // ----- The dispatcher's decisions -----

  datatype FailureOutcome = Retried | Recorded | Refused

  predicate Includes(s: string, part: string) {
    exists i :: 0 <= i <= |s| && part <= s[i..]
  }

  /** A denial, a plan problem or a contract problem is not worth another attempt. */
  predicate Retryable(code: string) {
    && !Includes(code, "denied") && !Includes(code, "authorization") && !Includes(code, "stale_fence")
    && !("runtime.plan_" <= code) && !("langgraph." <= code) && !Includes(code, "contract")
  }

  ghost predicate Contains(code: string, part: string) {
    exists before, after :: code == before + part + after
  }

  ghost predicate StartsWith(code: string, part: string) {
    exists after :: code == part + after
  }

  lemma IncludesExactly(code: string, part: string)
    ensures Includes(code, part) <==> Contains(code, part)
  {
    if Includes(code, part) {
      var i :| 0 <= i <= |code| && part <= code[i..];
      assert code == code[..i] + part + code[i + |part|..];
    }
    if Contains(code, part) {
      var before, after :| code == before + part + after;
      assert code[|before|..] == part + after;
    }
  }

  /** Another attempt is made unless the code holds one of four words or starts with one of two. */
  lemma RetryableExactly(code: string)
    ensures Retryable(code) <==>
              && (forall word :: word in {"denied", "authorization", "stale_fence", "contract"} ==>
                    !Contains(code, word))
              && forall word :: word in {"runtime.plan_", "langgraph."} ==> !StartsWith(code, word)
  {
    IncludesExactly(code, "denied");
    IncludesExactly(code, "authorization");
    IncludesExactly(code, "stale_fence");
    IncludesExactly(code, "contract");
    StartsExactly(code, "runtime.plan_");
    StartsExactly(code, "langgraph.");
  }

  lemma StartsExactly(code: string, part: string)
    ensures part <= code <==> StartsWith(code, part)
  {
    if part <= code {
      assert code == part + code[|part|..];
    }
  }

  function FailureClosing(code: string, denied: bool): Closing {
    if denied then Closing(Denied, "denied", code, Some(code)) else Closing(Failed, "failed", code, Some(code))
  }

  const RETRY_BASE_MS := 2_000
  const RETRY_MAX_MS := 60_000

  function Pow2(n: nat): nat {
    if n == 0 then 1 else 2 * Pow2(n - 1)
  }

  function BackoffMs(attempt: int): (r: nat)
    ensures 0 < r <= 60_000
  {
    var exponent := if attempt < 1 then 0 else attempt - 1;
    PowPositive(exponent);
    var delay := RETRY_BASE_MS * Pow2(exponent);
    if delay < RETRY_MAX_MS then delay else RETRY_MAX_MS
  }

  /** The first backoff is the base, and each further attempt doubles it until the maximum is reached. */
  lemma BackoffDoubles(attempt: int)
    ensures attempt <= 1 ==> BackoffMs(attempt) == 2_000
    ensures attempt >= 1 ==>
              BackoffMs(attempt + 1) == if 2 * BackoffMs(attempt) < 60_000 then 2 * BackoffMs(attempt) else 60_000
  {
    if attempt >= 1 {
      assert Pow2(attempt) == 2 * Pow2(attempt - 1);
    }
  }

  lemma {:induction false} PowPositive(n: nat)
    ensures Pow2(n) > 0
  {
    if n > 0 {
      PowPositive(n - 1);
    }
  }
}
