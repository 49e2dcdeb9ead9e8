/**
 Leases and backoffs over whole runs, on the columns of the row: nobody takes a run from a worker before its lease
 has run out or before its backoff has passed, and from then on anybody can.
 */
module RunLeases {
  import opened Prelude
  import opened RunLedger
  import opened RunTheorems

  /** The fence's worker and epoch are those of the running row. */
  predicate Presented(s: Ledger, r: RunId, fence: Fence) {
    && r in s.runs && s.runs[r].status == Running
    && s.runs[r].leaseOwner == Some(fence.worker) && s.runs[r].epoch == fence.epoch
  }

  /** The run's own worker renews, retries or closes it, or its tenant asks for its cancellation. */
  predicate Handles(s: Ledger, op: Op, r: RunId) {
    match op
    case RenewLease(id, fence, _) => id == r && Presented(s, r, fence)
    case ScheduleRetry(id, fence, _, _) => id == r && Presented(s, r, fence)
    case CompleteRun(id, fence, _) => id == r && Presented(s, r, fence)
    case RequestCancellation(id, tenant) => id == r && r in s.runs && s.runs[r].tenant == tenant
    case _ => false
  }

  /** From step `i` up to `n` nobody does that, and nobody tries to claim the run from `until` on. */
  ghost predicate Rests(states: seq<Ledger>, ops: seq<Op>, r: RunId, i: nat, n: nat, until: int)
    requires Behavior(states, ops) && n < |states|
  {
    forall k :: i <= k < n ==>
      !Handles(states[k], ops[k], r) && (ops[k].ClaimRun? && ops[k].chosen == Some(r) ==> states[k].now < until)
  }

  /** The columns of a lease and of the attempts agree. */
  predicate SameLease(a: Run, b: Run) {
    && a.status == b.status && a.leaseOwner == b.leaseOwner && a.leaseExpiresAt == b.leaseExpiresAt
    && a.availableAt == b.availableAt && a.epoch == b.epoch && a.startedAt == b.startedAt
    && a.attempt == b.attempt && a.attemptLimit == b.attemptLimit
    && a.cancellationRequestedAt == b.cancellationRequestedAt
  }

  /** The row of a run that nobody may take before `until`: its lease or its backoff lasts so long. */
  predicate Reserved(run: Run, until: int) {
    && run.cancellationRequestedAt.None?
    && match run.status
       case Running => run.leaseExpiresAt == Some(until - 1)
       case Retrying => run.availableAt == Some(until) && run.attempt < run.attemptLimit
       case _ => false
  }

  lemma ReservedStep(s: Ledger, op: Op, r: RunId, until: int)
    requires r in s.runs && Reserved(s.runs[r], until) && !Handles(s, op, r)
    requires op.ClaimRun? && op.chosen == Some(r) ==> s.now < until
    ensures r in Apply(s, op).runs && SameLease(Apply(s, op).runs[r], s.runs[r])
  {
    StepOnRow(s, op, r);
  }

  lemma {:induction false} ReservedLasts(states: seq<Ledger>, ops: seq<Op>, r: RunId, i: nat, n: nat, until: int)
    requires Behavior(states, ops) && i <= n < |states| && Rests(states, ops, r, i, n, until)
    requires r in states[i].runs && Reserved(states[i].runs[r], until)
    ensures r in states[n].runs && SameLease(states[n].runs[r], states[i].runs[r]) && Reserved(states[n].runs[r], until)
    decreases n - i
  {
    if i < n {
      ReservedStep(states[i], ops[i], r, until);
      ReservedLasts(states, ops, r, i + 1, n, until);
    }
  }

  /** What a claim that goes through leaves of the row. */
  function Taken(run: Run, now: int, worker: string, seconds: int): Run {
    run.(status := Running, leaseOwner := Some(worker), leaseExpiresAt := Some(now + 1000 * seconds),
         availableAt := None, epoch := run.epoch + 1, attempt := run.attempt + 1,
         startedAt := if run.startedAt.Some? then run.startedAt else Some(now))
  }

  /** A claim of the run goes through in this state, whoever makes it, or it leaves the row alone. */
  ghost predicate CanTake(s: Ledger, r: RunId) {
    && r in s.runs
    && forall worker, seconds :: Apply(s, ClaimRun(worker, seconds, Some(r))).runs[r]
                                 == Taken(s.runs[r], s.now, worker, seconds)
  }

  ghost predicate CannotTake(s: Ledger, r: RunId) {
    && r in s.runs
    && forall worker, seconds :: Apply(s, ClaimRun(worker, seconds, Some(r))).runs[r] == s.runs[r]
  }

  lemma ReservedClaim(s: Ledger, r: RunId, until: int, worker: string, seconds: int)
    requires r in s.runs && Reserved(s.runs[r], until)
    ensures r in Apply(s, ClaimRun(worker, seconds, Some(r))).runs
    ensures Apply(s, ClaimRun(worker, seconds, Some(r))).runs[r]
            == if s.now >= until && s.runs[r].attempt < s.runs[r].attemptLimit
               then Taken(s.runs[r], s.now, worker, seconds) else s.runs[r]
  {
    StepOnRow(s, ClaimRun(worker, seconds, Some(r)), r);
  }

  lemma ReservedUntil(s: Ledger, r: RunId, until: int)
    requires r in s.runs && Reserved(s.runs[r], until)
    ensures if s.now >= until && s.runs[r].attempt < s.runs[r].attemptLimit then CanTake(s, r) else CannotTake(s, r)
  {
    hide Reserved, Taken;
    forall worker: string, seconds: int
      ensures Apply(s, ClaimRun(worker, seconds, Some(r))).runs[r]
              == if s.now >= until && s.runs[r].attempt < s.runs[r].attemptLimit
                 then Taken(s.runs[r], s.now, worker, seconds) else s.runs[r]
    {
      ReservedClaim(s, r, until, worker, seconds);
    }
  }

  /**
   A claim that went through is respected until its lease has run out: up to then the run cannot be taken, and
   at every later instant it can while attempts are left.
   */
  lemma ClaimRespected(states: seq<Ledger>, ops: seq<Op>, i: nat, n: nat, r: RunId)
    requires Behavior(states, ops) && i < n < |states| && r in states[i].runs
    requires ops[i].ClaimRun? && ops[i].chosen == Some(r) && states[i + 1].runs != states[i].runs
    requires Rests(states, ops, r, i + 1, n, states[i].now + 1000 * ops[i].leaseSeconds + 1)
    ensures if states[n].now > states[i].now + 1000 * ops[i].leaseSeconds
               && states[i].runs[r].attempt + 1 < states[i].runs[r].attemptLimit
            then CanTake(states[n], r) else CannotTake(states[n], r)
    ensures states[n].runs[r].status == Running && states[n].runs[r].leaseOwner == Some(ops[i].worker)
    ensures states[n].runs[r].epoch == states[i].runs[r].epoch + 1
  {
    var until := states[i].now + 1000 * ops[i].leaseSeconds + 1;
    StepOnRow(states[i], ops[i], r);
    OnlyRowChanged(states[i], ops[i], r);
    assert states[i].runs[r := states[i].runs[r]] == states[i].runs;
    assert Reserved(states[i + 1].runs[r], until);
    hide Apply, Reserved, CanTake, CannotTake;
    ReservedLasts(states, ops, r, i + 1, n, until);
    ReservedUntil(states[n], r, until);
  }

  /** A claim changes no other row. */
  lemma OnlyRowChanged(s: Ledger, op: Op, r: RunId)
    requires op.ClaimRun? && op.chosen == Some(r) && r in s.runs
    ensures Apply(s, op).runs == s.runs[r := Apply(s, op).runs[r]]
  {
  }

  /** The same from a renewal on, for the renewal's seconds. */
  lemma RenewalRespected(states: seq<Ledger>, ops: seq<Op>, i: nat, n: nat, r: RunId)
    requires Behavior(states, ops) && i < n < |states| && ops[i].RenewLease? && ops[i].runId == r
    requires Presented(states[i], r, ops[i].fence) && states[i].runs[r].cancellationRequestedAt.None?
    requires Rests(states, ops, r, i + 1, n, states[i].now + 1000 * ops[i].leaseSeconds + 1)
    ensures if states[n].now > states[i].now + 1000 * ops[i].leaseSeconds
               && states[i].runs[r].attempt < states[i].runs[r].attemptLimit
            then CanTake(states[n], r) else CannotTake(states[n], r)
    ensures r in states[n].runs && Presented(states[n], r, ops[i].fence)
  {
    var until := states[i].now + 1000 * ops[i].leaseSeconds + 1;
    StepOnRow(states[i], ops[i], r);
    assert Reserved(states[i + 1].runs[r], until);
    hide Apply, Reserved, CanTake, CannotTake;
    ReservedLasts(states, ops, r, i + 1, n, until);
    ReservedUntil(states[n], r, until);
  }

  /** A scheduled retry cannot be claimed before its backoff has passed, and can at every instant from then on. */
  lemma BackoffRespected(states: seq<Ledger>, ops: seq<Op>, i: nat, n: nat, r: RunId)
    requires Behavior(states, ops) && i < n < |states| && ops[i].ScheduleRetry? && ops[i].runId == r
    requires Presented(states[i], r, ops[i].fence) && states[i].runs[r].attempt < states[i].runs[r].attemptLimit
    requires states[i].runs[r].cancellationRequestedAt.None?
    requires Rests(states, ops, r, i + 1, n, states[i].now + if ops[i].backoff < 0 then 0 else ops[i].backoff)
    ensures if states[n].now >= states[i].now + (if ops[i].backoff < 0 then 0 else ops[i].backoff)
            then CanTake(states[n], r) else CannotTake(states[n], r)
    ensures r in states[n].runs && states[n].runs[r].status == Retrying && states[n].runs[r].leaseOwner.None?
  {
    var until := states[i].now + if ops[i].backoff < 0 then 0 else ops[i].backoff;
    StepOnRow(states[i], ops[i], r);
    assert Reserved(states[i + 1].runs[r], until);
    hide Apply, Reserved, CanTake, CannotTake;
    ReservedLasts(states, ops, r, i + 1, n, until);
    ReservedUntil(states[n], r, until);
  }

  /** A new run can be claimed at once, and at any later instant until somebody does or it is cancelled. */
  lemma NewRunFree(states: seq<Ledger>, ops: seq<Op>, i: nat, n: nat, r: RunId)
    requires Behavior(states, ops) && i < n < |states| && r !in states[i].runs && r in states[i + 1].runs
    requires forall k :: i < k < n ==>
               !(ops[k].ClaimRun? && ops[k].chosen == Some(r)) && !(ops[k].RequestCancellation? && ops[k].runId == r)
    ensures CanTake(states[n], r)
    decreases n
  {
    NewRunWaits(states, ops, i, n, r);
    forall worker: string, seconds: int
      ensures Apply(states[n], ClaimRun(worker, seconds, Some(r))).runs[r]
              == Taken(states[n].runs[r], states[n].now, worker, seconds)
    {
      StepOnRow(states[n], ClaimRun(worker, seconds, Some(r)), r);
    }
  }

  predicate Waiting(run: Run) {
    && run.status == Queued && run.attempt == 0 && run.attemptLimit == 3
    && run.availableAt.None? && run.cancellationRequestedAt.None?
  }

  lemma {:induction false} NewRunWaits(states: seq<Ledger>, ops: seq<Op>, i: nat, n: nat, r: RunId)
    requires Behavior(states, ops) && i < n < |states| && r !in states[i].runs && r in states[i + 1].runs
    requires forall k :: i < k < n ==>
               !(ops[k].ClaimRun? && ops[k].chosen == Some(r)) && !(ops[k].RequestCancellation? && ops[k].runId == r)
    ensures r in states[n].runs && Waiting(states[n].runs[r])
    decreases n
  {
    if i + 1 == n {
      assert r in Inserted(states[i], ops[i]);
    } else {
      NewRunWaits(states, ops, i, n - 1, r);
      StepOnRow(states[n - 1], ops[n - 1], r);
    }
  }

  /** A run marked for cancellation can never be taken again. */
  lemma CancelledNotTaken(states: seq<Ledger>, ops: seq<Op>, i: nat, n: nat, r: RunId)
    requires Behavior(states, ops) && i <= n < |states|
    requires r in states[i].runs && states[i].runs[r].cancellationRequestedAt.Some?
    ensures CannotTake(states[n], r)
  {
    MarkStays(states, ops, r, i, n);
    forall worker: string, seconds: int
      ensures Apply(states[n], ClaimRun(worker, seconds, Some(r))).runs[r] == states[n].runs[r]
    {
      StepOnRow(states[n], ClaimRun(worker, seconds, Some(r)), r);
    }
  }
}
