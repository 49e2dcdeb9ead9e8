/**
 What the ledger guarantees over whole runs: fencing, cancellation, termination, and the one way a
 run can be stuck. A behavior is any sequence of steps by any number of workers and sweeps.
 */
module RunTheorems {
  import opened Prelude
  import opened RunLedger

  ghost predicate Behavior(states: seq<Ledger>, ops: seq<Op>) {
    && |states| == |ops| + 1
    && forall i :: 0 <= i < |ops| ==> states[i + 1] == Apply(states[i], ops[i])
  }

  ghost predicate FromEmpty(states: seq<Ledger>, ops: seq<Op>) {
    Behavior(states, ops) && states[0].runs == map[]
  }

  /** Rows persist, and each step acts on a row by `RowStep`. */
  lemma StepOnRow(s: Ledger, op: Op, r: RunId)
    requires r in s.runs
    ensures r in Apply(s, op).runs && Apply(s, op).runs[r] == RowStep(s.now, op, r, s.runs[r])
  {
  }

  lemma {:induction false} RowPersists(states: seq<Ledger>, ops: seq<Op>, r: RunId, i: nat, n: nat)
    requires Behavior(states, ops) && i <= n < |states| && r in states[i].runs
    ensures r in states[n].runs
    decreases n - i
  {
    if i < n {
      StepOnRow(states[i], ops[i], r);
      RowPersists(states, ops, r, i + 1, n);
    }
  }

  // ----- Fencing -----

  /** The step is a claim of `r` that hands out `fence`. */
  predicate Grants(s: Ledger, op: Op, r: RunId, fence: Fence) {
    op.ClaimRun? && Accepted(s, op, r) && fence == Fence(op.worker, s.runs[r].epoch + 1)
  }

  /** The step ends whatever authority over `r` was handed out before. */
  predicate Supersedes(s: Ledger, op: Op, r: RunId) {
    Accepted(s, op, r)
    && (op.ClaimRun? || op.ScheduleRetry? || op.RequestCancellation? || op.CompleteCancelled?
        || op.FinalizeAbandoned? || op.CompleteRun?)
  }

  ghost predicate Undisturbed(states: seq<Ledger>, ops: seq<Op>, r: RunId, i: nat, n: nat)
    requires Behavior(states, ops) && n < |states|
  {
    forall k :: i <= k < n ==> !Supersedes(states[k], ops[k], r)
  }

  /** The epoch can no longer be presented: the row has moved on, or stopped under it. */
  predicate Dead(run: Run, epoch: int) {
    run.epoch > epoch || (run.epoch == epoch && run.status != Running)
  }

  predicate Alive(run: Run, fence: Fence) {
    run.status == Running && run.leaseOwner == Some(fence.worker) && run.epoch == fence.epoch
    && run.cancellationRequestedAt.None?
  }

  lemma DeadStays(now: int, op: Op, r: RunId, run: Run, epoch: int)
    requires Dead(run, epoch) && Closes(op)
    ensures Dead(RowStep(now, op, r, run), epoch)
  {
  }

  /** `completeRun` is only asked for a final status. */
  predicate Closes(op: Op) {
    op.CompleteRun? ==> Terminal(op.closing.status)
  }

  ghost predicate AllClose(ops: seq<Op>) {
    forall i :: 0 <= i < |ops| ==> Closes(ops[i])
  }

  lemma AliveOrDead(s: Ledger, op: Op, r: RunId, fence: Fence)
    requires r in s.runs && Alive(s.runs[r], fence) && Closes(op)
    ensures var run := RowStep(s.now, op, r, s.runs[r]);
            if Supersedes(s, op, r) then Dead(run, fence.epoch) else Alive(run, fence)
  {
  }

  lemma {:induction false} FenceHistory(states: seq<Ledger>, ops: seq<Op>, i: nat, n: nat, r: RunId, fence: Fence)
    requires Behavior(states, ops) && AllClose(ops) && i < n < |states|
    requires Grants(states[i], ops[i], r, fence)
    ensures r in states[n].runs
    ensures if Undisturbed(states, ops, r, i + 1, n) then Alive(states[n].runs[r], fence)
            else Dead(states[n].runs[r], fence.epoch)
    decreases n
  {
    StepOnRow(states[n - 1], ops[n - 1], r) by { RowPersists(states, ops, r, i, n - 1); }
    if i + 1 < n {
      FenceHistory(states, ops, i, n - 1, r, fence);
      var run := states[n - 1].runs[r];
      if Undisturbed(states, ops, r, i + 1, n - 1) {
        AliveOrDead(states[n - 1], ops[n - 1], r, fence);
        assert Undisturbed(states, ops, r, i + 1, n) <==> !Supersedes(states[n - 1], ops[n - 1], r);
      } else {
        DeadStays(states[n - 1].now, ops[n - 1], r, run, fence.epoch);
      }
    }
  }

  /**
   A fence handed out by a claim passes the fenced writes, and its epoch passes the live checks,
   exactly until the next accepted claim, retry, cancellation or closing of the run.
   */
  lemma FencedExactly(states: seq<Ledger>, ops: seq<Op>, i: nat, n: nat, r: RunId, fence: Fence)
    requires Behavior(states, ops) && AllClose(ops) && i < n < |states|
    requires Grants(states[i], ops[i], r, fence)
    ensures r in states[n].runs
    ensures Holds(states[n].runs[r], fence) <==> Undisturbed(states, ops, r, i + 1, n)
    ensures CurrentFencingEpoch(states[n], r) == Some(fence.epoch) <==> Undisturbed(states, ops, r, i + 1, n)
  {
    FenceHistory(states, ops, i, n, r, fence);
  }

  /** A step that is not accepted leaves the row alone, and what the cancelling and tracing steps ask of it. */
  lemma AcceptedExactly(s: Ledger, op: Op, r: RunId)
    requires r in s.runs
    ensures !Accepted(s, op, r) && !op.AppendEvent? ==> RowStep(s.now, op, r, s.runs[r]) == s.runs[r]
    ensures op.CompleteCancelled? ==>
              (Accepted(s, op, r) <==>
                 op.runId == r && s.runs[r].status == Running && s.runs[r].cancellationRequestedAt.Some?)
    ensures op.BindTrace? ==>
              (Accepted(s, op, r) <==>
                 && op.runId == r && s.runs[r].status == Running && s.runs[r].leaseOwner == Some(op.fence.worker)
                 && s.runs[r].epoch == op.fence.epoch && s.runs[r].attempt == op.attempt)
  {
  }

  /** The live row is running under this epoch. */
  predicate RunsUnder(s: Ledger, r: RunId, epoch: int) {
    r in s.runs && s.runs[r].status == Running && s.runs[r].epoch == epoch
  }

  /** What broker, journal and gateway compare: the run and attempt asked for, and the live row. */
  lemma GuardsExactly(s: Ledger, grant: Grant, r: RunId, attempt: int, fence: Fence, epoch: int)
    ensures IssueEnvelope(s, grant, r, attempt).Ok? <==>
              && grant.runId == r && grant.attempt == attempt
              && RunsUnder(s, r, grant.epoch) && s.runs[r].planDigest == grant.planDigest
    ensures IssueEnvelope(s, grant, r, attempt).Ok? ==> IssueEnvelope(s, grant, r, attempt).value == s.runs[r].epoch
    ensures grant.runId == r && grant.attempt == attempt ==>
              match IssueEnvelope(s, grant, r, attempt)
              case Ok(_) => true
              case Err(code) =>
                code == if r !in s.runs then "broker.run_not_found"
                        else if s.runs[r].status != Running then "broker.run_not_running"
                        else if s.runs[r].planDigest != grant.planDigest then "broker.plan_mismatch"
                        else "broker.stale_fence"
    ensures AuthorizeStateWrite(s, grant, r, attempt, fence).Ok? <==>
              && grant.runId == r && grant.attempt == attempt
              && fence == Fence(grant.worker, grant.epoch) && RunsUnder(s, r, grant.epoch)
    ensures grant.runId == r && grant.attempt == attempt && fence == Fence(grant.worker, grant.epoch) ==>
              match AuthorizeStateWrite(s, grant, r, attempt, fence)
              case Ok(_) => true
              case Err(code) =>
                code == if r !in s.runs then "runtime_state.run_not_found"
                        else if s.runs[r].status != Running then "runtime_state.run_not_running"
                        else "runtime_state.stale_fence"
    ensures grant.runId != r ==>
              && IssueEnvelope(s, grant, r, attempt) == Err("broker.run_mismatch")
              && AuthorizeStateWrite(s, grant, r, attempt, fence) == Err("runtime_state.run_mismatch")
    ensures grant.runId == r && grant.attempt != attempt ==>
              && IssueEnvelope(s, grant, r, attempt) == Err("broker.attempt_mismatch")
              && AuthorizeStateWrite(s, grant, r, attempt, fence) == Err("runtime_state.attempt_mismatch")
    ensures grant.runId == r && grant.attempt == attempt && fence != Fence(grant.worker, grant.epoch) ==>
              AuthorizeStateWrite(s, grant, r, attempt, fence)
              == Err(if grant.worker != fence.worker then "runtime_state.worker_mismatch"
                     else "runtime_state.grant_fence_mismatch")
    ensures GatewayAdmits(s, r, epoch) <==> RunsUnder(s, r, epoch)
  {
  }

  /** The grant the dispatcher mints from the claim at step `i`. */
  function GrantOf(s: Ledger, r: RunId, fence: Fence): Grant
    requires r in s.runs
  {
    Grant(r, s.runs[r].attempt, fence.worker, s.runs[r].planDigest, fence.epoch)
  }

  lemma {:induction false} PlanFixed(states: seq<Ledger>, ops: seq<Op>, r: RunId, i: nat, n: nat)
    requires Behavior(states, ops) && i <= n < |states| && r in states[i].runs
    ensures r in states[n].runs
    ensures states[n].runs[r].planDigest == states[i].runs[r].planDigest
    ensures states[n].runs[r].epoch >= states[i].runs[r].epoch
    ensures states[n].runs[r].attempt >= states[i].runs[r].attempt
    ensures states[n].runs[r].attemptLimit == states[i].runs[r].attemptLimit
    decreases n - i
  {
    if i < n {
      StepOnRow(states[i], ops[i], r);
      PlanFixed(states, ops, r, i + 1, n);
    }
  }

  /** Broker, journal and gateway accept the grant of a claim, and what derives from it, just as long. */
  lemma GrantedExactly(states: seq<Ledger>, ops: seq<Op>, i: nat, n: nat, r: RunId, fence: Fence)
    requires Behavior(states, ops) && AllClose(ops) && i < n < |states|
    requires Grants(states[i], ops[i], r, fence) && r in states[i + 1].runs
    ensures var grant := GrantOf(states[i + 1], r, fence);
            && (IssueEnvelope(states[n], grant, r, grant.attempt).Ok? <==> Undisturbed(states, ops, r, i + 1, n))
            && (AuthorizeStateWrite(states[n], grant, r, grant.attempt, fence).Ok?
                <==> Undisturbed(states, ops, r, i + 1, n))
            && (GatewayAdmits(states[n], r, fence.epoch) <==> Undisturbed(states, ops, r, i + 1, n))
  {
    FencedExactly(states, ops, i, n, r, fence);
    PlanFixed(states, ops, r, i + 1, n);
  }

  /** No epoch of a run is handed out twice: later claims hand out larger epochs. */
  lemma FencesIncrease(states: seq<Ledger>, ops: seq<Op>, i: nat, j: nat, r: RunId, first: Fence, second: Fence)
    requires Behavior(states, ops) && i < j < |ops|
    requires Grants(states[i], ops[i], r, first) && Grants(states[j], ops[j], r, second)
    ensures first.epoch < second.epoch
  {
    StepOnRow(states[i], ops[i], r);
    PlanFixed(states, ops, r, i + 1, j);
  }

  // ----- Honest fences -----

  function FencedOn(op: Op): (r: Option<(RunId, Fence)>) {
    match op
    case RenewLease(id, fence, _) => Some((id, fence))
    case ScheduleRetry(id, fence, _, _) => Some((id, fence))
    case UpdateNode(id, fence, _, _) => Some((id, fence))
    case BindTrace(id, fence, _, _) => Some((id, fence))
    case CompleteRun(id, fence, _) => Some((id, fence))
    case _ => None
  }

  ghost predicate WasGranted(states: seq<Ledger>, ops: seq<Op>, n: nat, r: RunId, fence: Fence)
    requires Behavior(states, ops) && n < |states|
  {
    exists i :: 0 <= i < n && Grants(states[i], ops[i], r, fence)
  }

  /** Workers present only fences that a claim handed out before; `completeRun` asks for final statuses. */
  ghost predicate Honest(states: seq<Ledger>, ops: seq<Op>) {
    && FromEmpty(states, ops)
    && AllClose(ops)
    && forall n :: 0 <= n < |ops| ==>
         match FencedOn(ops[n]) case Some((r, fence)) => WasGranted(states, ops, n, r, fence) case None => true
  }

  // ----- Row invariant -----

  predicate RowInv(run: Run) {
    && 0 <= run.attempt <= run.epoch
    && (run.attempt <= run.attemptLimit || run.attempt == 0)
    && (run.status == Running <==> run.leaseOwner.Some?)
    && (run.status == Running <==> run.leaseExpiresAt.Some?)
    && (run.status == Running ==> run.attempt > 0)
    && (run.status == Queued ==> run.attempt == 0)
    && (run.status == Retrying ==> 0 < run.attempt < run.attemptLimit)
    && (run.cancellationRequestedAt.Some? ==> run.status == Running || run.status == Cancelled)
    && (run.cancellationRequestedAt.None? ==> run.epoch == run.attempt)
    && (Terminal(run.status) <==> run.completedAt.Some?)
  }

  ghost predicate Inv(s: Ledger) {
    forall r :: r in s.runs ==> RowInv(s.runs[r])
  }

  /** A fenced update of the row, if the step is one, presents a fence that is not a cancelled run's epoch. */
  predicate FenceFits(op: Op, r: RunId, run: Run) {
    match FencedOn(op)
    case Some((id, fence)) => id == r && run.cancellationRequestedAt.Some? ==> fence.epoch != run.epoch
    case None => true
  }

  lemma StepKeepsRow(now: int, op: Op, r: RunId, run: Run)
    requires RowInv(run) && Closes(op) && FenceFits(op, r, run)
    ensures RowInv(RowStep(now, op, r, run))
  {
  }

  lemma NewRunInv(s: Ledger, op: Op, r: RunId)
    requires r in Inserted(s, op)
    ensures RowInv(Inserted(s, op)[r])
  {
  }

  lemma HonestFenceFits(states: seq<Ledger>, ops: seq<Op>, n: nat, r: RunId)
    requires Honest(states, ops) && n < |ops| && r in states[n].runs
    ensures FenceFits(ops[n], r, states[n].runs[r])
  {
    match FencedOn(ops[n])
    case Some((id, fence)) =>
      if id == r {
        var i :| 0 <= i < n && Grants(states[i], ops[i], r, fence);
        FenceHistory(states, ops, i, n, r, fence);
        if states[n].runs[r].cancellationRequestedAt.Some? && states[n].runs[r].epoch == fence.epoch {
          MarkedMeansNewer(states, ops, i, n, r, fence);
        }
      }
    case None =>
  }

  predicate PastWhenMarked(run: Run, epoch: int) {
    run.epoch >= epoch && (run.cancellationRequestedAt.Some? ==> run.epoch > epoch)
  }

  lemma PastStays(now: int, op: Op, r: RunId, run: Run, epoch: int)
    requires PastWhenMarked(run, epoch)
    ensures PastWhenMarked(RowStep(now, op, r, run), epoch)
  {
  }

  lemma GrantIsPast(s: Ledger, op: Op, r: RunId, fence: Fence)
    requires Grants(s, op, r, fence)
    ensures PastWhenMarked(RowStep(s.now, op, r, s.runs[r]), fence.epoch)
  {
  }

  /** Once a granted fence's run is marked for cancellation, its epoch has moved past the fence. */
  lemma {:induction false} MarkedMeansNewer(states: seq<Ledger>, ops: seq<Op>, i: nat, n: nat, r: RunId, fence: Fence)
    requires Behavior(states, ops) && i < n < |states| && Grants(states[i], ops[i], r, fence)
    ensures r in states[n].runs && PastWhenMarked(states[n].runs[r], fence.epoch)
    decreases n
  {
    StepOnRow(states[n - 1], ops[n - 1], r) by { RowPersists(states, ops, r, i, n - 1); }
    if i + 1 == n {
      GrantIsPast(states[i], ops[i], r, fence);
    } else {
      MarkedMeansNewer(states, ops, i, n - 1, r, fence);
      PastStays(states[n - 1].now, ops[n - 1], r, states[n - 1].runs[r], fence.epoch);
    }
  }

  lemma {:induction false} InvAlways(states: seq<Ledger>, ops: seq<Op>, n: nat)
    requires Honest(states, ops) && n < |states|
    ensures Inv(states[n])
  {
    if n > 0 {
      InvAlways(states, ops, n - 1);
      var s, op := states[n - 1], ops[n - 1];
      forall r | r in states[n].runs ensures RowInv(states[n].runs[r]) {
        if r in Inserted(s, op) {
          NewRunInv(s, op, r);
        } else {
          HonestFenceFits(states, ops, n - 1, r);
          StepKeepsRow(s.now, op, r, s.runs[r]);
        }
      }
    }
  }

  // ----- Cancellation and final statuses -----

  lemma {:induction false} MarkStays(states: seq<Ledger>, ops: seq<Op>, r: RunId, i: nat, n: nat)
    requires Behavior(states, ops) && i <= n < |states|
    requires r in states[i].runs && states[i].runs[r].cancellationRequestedAt.Some?
    ensures r in states[n].runs && states[n].runs[r].cancellationRequestedAt.Some?
    decreases n - i
  {
    if i < n {
      StepOnRow(states[i], ops[i], r);
      MarkStays(states, ops, r, i + 1, n);
    }
  }

  /** After an accepted cancellation the run is running or cancelled, and never claimed, retried or completed. */
  lemma CancellationWins(states: seq<Ledger>, ops: seq<Op>, k: nat, n: nat, r: RunId)
    requires Honest(states, ops) && k < n < |states|
    requires ops[k].RequestCancellation? && Accepted(states[k], ops[k], r)
    ensures r in states[n].runs && states[n].runs[r].status in {Running, Cancelled}
    ensures n < |ops| && Accepted(states[n], ops[n], r) ==>
              ops[n].RequestCancellation? || ops[n].CompleteCancelled? || ops[n].FinalizeAbandoned?
  {
    StepOnRow(states[k], ops[k], r);
    MarkStays(states, ops, r, k + 1, n);
    InvAlways(states, ops, n);
    if n < |ops| {
      HonestFenceFits(states, ops, n, r);
    }
  }

  lemma FinalRowFrozen(now: int, op: Op, r: RunId, run: Run)
    requires Terminal(run.status)
    ensures RowStep(now, op, r, run) == run.(events := RowStep(now, op, r, run).events)
  {
  }

  /** From a final status nothing of the row changes any more but its event list, which only grows. */
  lemma {:induction false} FinalIsFinal(states: seq<Ledger>, ops: seq<Op>, r: RunId, i: nat, n: nat)
    requires Behavior(states, ops) && i <= n < |states|
    requires r in states[i].runs && Terminal(states[i].runs[r].status)
    ensures r in states[n].runs
    ensures states[n].runs[r] == states[i].runs[r].(events := states[n].runs[r].events)
    ensures states[i].runs[r].events <= states[n].runs[r].events
    decreases n - i
  {
    if i < n {
      StepOnRow(states[i], ops[i], r);
      FinalRowFrozen(states[i].now, ops[i], r, states[i].runs[r]);
      FinalIsFinal(states, ops, r, i + 1, n);
    }
  }

  // ----- Accounting -----

  predicate ClaimAt(s: Ledger, op: Op, r: RunId) {
    op.ClaimRun? && Accepted(s, op, r)
  }

  predicate CancelAt(s: Ledger, op: Op, r: RunId) {
    op.RequestCancellation? && Accepted(s, op, r)
  }

  ghost function Claims(states: seq<Ledger>, ops: seq<Op>, n: nat, r: RunId): nat
    requires Behavior(states, ops) && n < |states|
  {
    if n == 0 then 0 else Claims(states, ops, n - 1, r) + (if ClaimAt(states[n - 1], ops[n - 1], r) then 1 else 0)
  }

  ghost function Cancels(states: seq<Ledger>, ops: seq<Op>, n: nat, r: RunId): nat
    requires Behavior(states, ops) && n < |states|
  {
    if n == 0 then 0 else Cancels(states, ops, n - 1, r) + (if CancelAt(states[n - 1], ops[n - 1], r) then 1 else 0)
  }

  /** The attempt counts the claims, and the epoch counts the claims and the accepted cancellations. */
  lemma {:induction false} EpochCounts(states: seq<Ledger>, ops: seq<Op>, n: nat, r: RunId)
    requires FromEmpty(states, ops) && n < |states|
    ensures r in states[n].runs ==>
              && states[n].runs[r].attempt == Claims(states, ops, n, r)
              && states[n].runs[r].epoch == Claims(states, ops, n, r) + Cancels(states, ops, n, r)
    ensures r !in states[n].runs ==> Claims(states, ops, n, r) == Cancels(states, ops, n, r) == 0
  {
    if n > 0 {
      EpochCounts(states, ops, n - 1, r);
      var s, op := states[n - 1], ops[n - 1];
      if r in s.runs {
        CountersStep(s, op, r);
      } else {
        assert r in states[n].runs ==> r in Inserted(s, op);
      }
    }
  }

  lemma CountersStep(s: Ledger, op: Op, r: RunId)
    requires r in s.runs
    ensures var run := Apply(s, op).runs[r];
            && run.attempt == s.runs[r].attempt + (if ClaimAt(s, op, r) then 1 else 0)
            && run.epoch
              == s.runs[r].epoch + (if ClaimAt(s, op, r) then 1 else 0) + (if CancelAt(s, op, r) then 1 else 0)
  {
    StepOnRow(s, op, r);
  }

  function Rank(s: Status): nat {
    if s == Running then 2 else if Open(s) then 1 else 0
  }

  /** How much work the run can still cause. */
  function Measure(run: Run): int {
    3 * (run.attemptLimit - run.attempt) + Rank(run.status)
  }

  predicate Moves(s: Ledger, op: Op, r: RunId)
    requires r in s.runs
  {
    ClaimAt(s, op, r) || RowStep(s.now, op, r, s.runs[r]).status != s.runs[r].status
  }

  /** Every claim and every status change uses up measure; no other step changes it. */
  lemma MeasureDrops(s: Ledger, op: Op, r: RunId)
    requires r in s.runs && Closes(op)
    ensures var run := RowStep(s.now, op, r, s.runs[r]);
            if Moves(s, op, r) then Measure(run) < Measure(s.runs[r]) else Measure(run) == Measure(s.runs[r])
  {
  }

  /** One when the step moves the run. */
  function Move(s: Ledger, op: Op, r: RunId): nat {
    if r in s.runs && Moves(s, op, r) then 1 else 0
  }

  ghost function Sum(f: nat -> nat, i: nat, n: nat): nat
    requires i <= n
    decreases n - i
  {
    if i == n then 0 else f(i) + Sum(f, i + 1, n)
  }

  /** Steps that are each paid for out of what is left are paid for together. */
  lemma {:induction false} Telescopes(f: nat -> nat, left: nat -> int, i: nat, n: nat)
    requires i <= n && forall k: nat :: i <= k < n ==> f(k) + left(k + 1) <= left(k)
    ensures Sum(f, i, n) + left(n) <= left(i)
    decreases n - i
  {
    if i < n {
      Telescopes(f, left, i + 1, n);
    }
  }

  function MovesOf(states: seq<Ledger>, ops: seq<Op>, r: RunId): nat -> nat {
    (k: nat) => if k < |ops| && k < |states| then Move(states[k], ops[k], r) else 0
  }

  function MeasureOf(states: seq<Ledger>, r: RunId): nat -> int {
    (k: nat) => if k < |states| && r in states[k].runs then Measure(states[k].runs[r]) else 0
  }

  /** How often the run is claimed or changes status from state `i` to state `n`. */
  ghost function MoveCount(states: seq<Ledger>, ops: seq<Op>, i: nat, n: nat, r: RunId): nat
    requires i <= n
  {
    Sum(MovesOf(states, ops, r), i, n)
  }

  lemma MovePaid(s: Ledger, op: Op, r: RunId)
    requires r in s.runs && Closes(op)
    ensures r in Apply(s, op).runs && Move(s, op, r) + Measure(Apply(s, op).runs[r]) <= Measure(s.runs[r])
  {
    StepOnRow(s, op, r);
    MeasureDrops(s, op, r);
  }

  lemma MovesBounded(states: seq<Ledger>, ops: seq<Op>, i: nat, n: nat, r: RunId)
    requires Behavior(states, ops) && AllClose(ops) && i <= n < |states| && r in states[i].runs
    ensures r in states[n].runs
    ensures MoveCount(states, ops, i, n, r) + Measure(states[n].runs[r]) <= Measure(states[i].runs[r])
  {
    var moves, left := MovesOf(states, ops, r), MeasureOf(states, r);
    forall k: nat | i <= k < n ensures moves(k) + left(k + 1) <= left(k) {
      RowPersists(states, ops, r, i, k);
      assert states[k + 1] == Apply(states[k], ops[k]) && Closes(ops[k]);
      MovePaid(states[k], ops[k], r);
    }
    RowPersists(states, ops, r, i, n);
    Telescopes(moves, left, i, n);
  }

  /**
   A run is claimed or changes status at most 3 * limit + 1 times once created, 3 * limit + 2 times from any
   point.
   */
  lemma RunsSettle(states: seq<Ledger>, ops: seq<Op>, i: nat, n: nat, r: RunId)
    requires Honest(states, ops) && i <= n < |states| && r in states[i].runs
    requires states[i].runs[r].attemptLimit > 0
    ensures MoveCount(states, ops, i, n, r) <= 3 * states[i].runs[r].attemptLimit + 2
    ensures states[i].runs[r].status == Queued
            ==> MoveCount(states, ops, i, n, r) <= 3 * states[i].runs[r].attemptLimit + 1
  {
    MovesBounded(states, ops, i, n, r);
    PlanFixed(states, ops, r, i, n);
    InvAlways(states, ops, i);
    InvAlways(states, ops, n);
  }

  // ----- The stuck run -----

  /** Some dispatcher, with no worker's help, can move the run on. */
  predicate DispatcherEnabled(run: Run, now: int) {
    Claimable(run, now) || Exhausted(run) || Abandoned(run, now)
  }

  /** Any lease has expired and any backoff has passed. */
  predicate Due(run: Run, now: int) {
    && (run.status == Running ==> run.leaseExpiresAt.None? || run.leaseExpiresAt.value < now)
    && (run.availableAt.None? || run.availableAt.value <= now)
  }

  predicate SpentAndLost(run: Run) {
    run.status == Running && run.cancellationRequestedAt.None? && run.attempt == run.attemptLimit
  }

  /** A due run that is still open can be moved on by a dispatcher, except exactly on its lost last attempt. */
  lemma StuckExactly(run: Run, now: int)
    requires RowInv(run) && run.attemptLimit > 0 && Open(run.status) && Due(run, now)
    ensures DispatcherEnabled(run, now) <==> !SpentAndLost(run)
  {
  }

  /** With a positive limit the sweep for exhausted runs never finds one: a retry is only scheduled below the limit. */
  lemma ExhaustedSweepIdle(states: seq<Ledger>, ops: seq<Op>, n: nat, r: RunId)
    requires Honest(states, ops) && n < |states| && r in states[n].runs && states[n].runs[r].attemptLimit > 0
    ensures !Exhausted(states[n].runs[r])
  {
    InvAlways(states, ops, n);
  }

  /** A step that does not come from the run's own worker and does not request its cancellation. */
  predicate Unaided(s: Ledger, op: Op, r: RunId)
    requires r in s.runs
  {
    && (match FencedOn(op) case Some((id, fence)) => id == r ==> !Holds(s.runs[r], fence) case None => true)
    && !CancelAt(s, op, r)
  }

  /**
   A worker lost on the last attempt leaves the run as it is forever, whatever the dispatchers do and however
   late it gets.
   */
  lemma {:induction false} StuckForever(states: seq<Ledger>, ops: seq<Op>, i: nat, n: nat, r: RunId)
    requires Behavior(states, ops) && i <= n < |states| && r in states[i].runs
    requires SpentAndLost(states[i].runs[r])
    requires forall k :: i <= k < n && r in states[k].runs ==> Unaided(states[k], ops[k], r)
    ensures r in states[n].runs
    ensures states[n].runs[r] == states[i].runs[r].(events := states[n].runs[r].events)
    decreases n - i
  {
    if i < n {
      StepOnRow(states[i], ops[i], r);
      StuckForever(states, ops, i + 1, n, r);
    }
  }

  // ----- Idempotent creation -----

  predicate SameKey(a: Run, b: Run) {
    a.tenant == b.tenant && a.idempotencyKey == b.idempotencyKey
  }

  ghost predicate KeysUnique(s: Ledger) {
    forall q, r :: q in s.runs && r in s.runs && SameKey(s.runs[q], s.runs[r]) ==> q == r
  }

  lemma KeyOrigin(s: Ledger, op: Op, r: RunId)
    requires r in Apply(s, op).runs
    ensures r in s.runs ==> SameKey(s.runs[r], Apply(s, op).runs[r])
    ensures r !in s.runs ==>
              op.CreateRun? && r == op.newId
                && !KeyTaken(s.runs, Apply(s, op).runs[r].tenant, Apply(s, op).runs[r].idempotencyKey)
  {
    if r in s.runs {
      StepOnRow(s, op, r);
    } else {
      assert r in Inserted(s, op);
    }
  }

  lemma {:induction false} KeysStayUnique(states: seq<Ledger>, ops: seq<Op>, n: nat)
    requires FromEmpty(states, ops) && n < |states|
    ensures KeysUnique(states[n])
  {
    if n > 0 {
      KeysStayUnique(states, ops, n - 1);
      var s, op := states[n - 1], ops[n - 1];
      forall q, r | q in states[n].runs && r in states[n].runs && SameKey(states[n].runs[q], states[n].runs[r])
        ensures q == r
      {
        KeyOrigin(s, op, q);
        KeyOrigin(s, op, r);
        if q in s.runs && r in s.runs {
          assert SameKey(s.runs[q], s.runs[r]);
        }
      }
    }
  }

  /** However often a key is submitted, it names the run first created for it. */
  lemma CreationReplays(states: seq<Ledger>, ops: seq<Op>, i: nat, n: nat, r: RunId, q: RunId)
    requires FromEmpty(states, ops) && i < n < |states|
    requires ops[i].CreateRun? && r in Inserted(states[i], ops[i])
    requires q in states[n].runs && states[n].runs[q].tenant == ops[i].tenant
             && states[n].runs[q].idempotencyKey == ops[i].key
    ensures q == r && states[n].runs[q].requestDigest == ops[i].requestDigest
  {
    IdentityFixed(states, ops, r, i + 1, n);
    KeysStayUnique(states, ops, n);
  }

  lemma {:induction false} IdentityFixed(states: seq<Ledger>, ops: seq<Op>, r: RunId, i: nat, n: nat)
    requires Behavior(states, ops) && i <= n < |states| && r in states[i].runs
    ensures r in states[n].runs
    ensures states[n].runs[r].tenant == states[i].runs[r].tenant
    ensures states[n].runs[r].idempotencyKey == states[i].runs[r].idempotencyKey
    ensures states[n].runs[r].requestDigest == states[i].runs[r].requestDigest
    decreases n - i
  {
    if i < n {
      StepOnRow(states[i], ops[i], r);
      IdentityFixed(states, ops, r, i + 1, n);
    }
  }
}
