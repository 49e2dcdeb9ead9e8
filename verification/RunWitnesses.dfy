/**
 Runs that show the ledger's gaps can be reached: a run lost on its last attempt, and a call admitted before a
 takeover.
 */
module RunWitnesses {
  import opened Prelude
  import opened RunLedger
  import opened RunTheorems

  const RUN: RunId := "run"

  predicate Only(s: Ledger, run: Run) {
    s.runs == map[RUN := run]
  }

  lemma OneRow(s: Ledger, run: Run, op: Op)
    requires Only(s, run) && !op.CreateRun?
    ensures Only(Apply(s, op), RowStep(s.now, op, RUN, run))
  {
  }

  function Claiming(worker: string): Op {
    ClaimRun(worker, 1, Some(RUN))
  }

  /** The row after `attempt` claims, the last one `attempt - 1` leases after the first. */
  predicate Attempted(run: Run, attempt: int, lastClaim: int) {
    && run.status == Running && run.cancellationRequestedAt.None? && run.attemptLimit == DEFAULT_ATTEMPT_LIMIT
    && run.attempt == run.epoch == attempt && run.leaseExpiresAt == Some(lastClaim + 1000) && run.availableAt.None?
  }

  lemma ClaimAgain(s: Ledger, run: Run, attempt: int, worker: string) returns (claimed: Run)
    requires Only(s, run) && attempt < DEFAULT_ATTEMPT_LIMIT
    requires if attempt == 0 then run == NewRun(0, "tenant", "key", "request", "plan") && s.now == 0
             else exists lastClaim :: Attempted(run, attempt, lastClaim) && lastClaim + 1000 < s.now
    ensures Only(Apply(s, Claiming(worker)), claimed) && Attempted(claimed, attempt + 1, s.now)
    ensures claimed.leaseOwner == Some(worker) && Grants(s, Claiming(worker), RUN, Fence(worker, attempt + 1))
  {
    OneRow(s, run, Claiming(worker));
    claimed := RowStep(s.now, Claiming(worker), RUN, run);
  }

  function Create(): Op {
    CreateRun(RUN, "tenant", "key", "request", "plan")
  }

  /** An honest behavior goes on honestly with any step that presents no fence. */
  lemma HonestGoesOn(states: seq<Ledger>, ops: seq<Op>, op: Op)
    requires Honest(states, ops) && FencedOn(op).None?
    ensures Honest(states + [Apply(states[|ops|], op)], ops + [op])
  {
    var longer, more := states + [Apply(states[|ops|], op)], ops + [op];
    assert FromEmpty(longer, more);
    forall n | 0 <= n < |more| && FencedOn(more[n]).Some?
      ensures WasGranted(longer, more, n, FencedOn(more[n]).value.0, FencedOn(more[n]).value.1)
    {
      var (r, fence) := FencedOn(ops[n]).value;
      assert WasGranted(states, ops, n, r, fence);
      var i :| 0 <= i < n && Grants(states[i], ops[i], r, fence);
      assert Grants(longer[i], more[i], r, fence);
    }
  }

  /** One after another, workers claim the run and vanish: the state right after the claim of attempt `n`. */
  lemma {:induction false} Attempts(n: nat) returns (states: seq<Ledger>, ops: seq<Op>, run: Run)
    requires 1 <= n <= DEFAULT_ATTEMPT_LIMIT
    ensures Honest(states, ops) && Only(states[|ops|], run) && Attempted(run, n, states[|ops|].now)
  {
    if n == 1 {
      states, ops := [Ledger(0, map[])], [];
      HonestGoesOn(states, ops, Create());
      states, ops := states + [Apply(states[0], Create())], ops + [Create()];
      run := NewRun(0, "tenant", "key", "request", "plan");
      assert Only(states[1], run);
    } else {
      states, ops, run := Attempts(n - 1);
      states, ops := Lapse(states, ops, run, n - 1);
    }
    var s := states[|ops|];
    run := ClaimAgain(s, run, n - 1, "worker");
    HonestGoesOn(states, ops, Claiming("worker"));
    states, ops := states + [Apply(s, Claiming("worker"))], ops + [Claiming("worker")];
  }

  /** The lease runs out. */
  lemma Lapse(states: seq<Ledger>, ops: seq<Op>, run: Run, attempt: int) returns (longer: seq<Ledger>, more: seq<Op>)
    requires Honest(states, ops) && Only(states[|ops|], run) && Attempted(run, attempt, states[|ops|].now)
    ensures Honest(longer, more) && Only(longer[|more|], run) && states <= longer
    ensures Attempted(run, attempt, states[|ops|].now) && states[|ops|].now + 1000 < longer[|more|].now
  {
    var s := states[|ops|];
    OneRow(s, run, Tick(s.now + 2000));
    HonestGoesOn(states, ops, Tick(s.now + 2000));
    longer, more := states + [Apply(s, Tick(s.now + 2000))], ops + [Tick(s.now + 2000)];
  }

  /**
   Three workers in turn claim the run and vanish: an honest behavior that ends on its lost last attempt,
   everything due.
   */
  lemma LastAttemptLost() returns (states: seq<Ledger>, ops: seq<Op>)
    ensures Honest(states, ops)
    ensures var last := states[|ops|];
            RUN in last.runs && SpentAndLost(last.runs[RUN]) && Due(last.runs[RUN], last.now)
            && !DispatcherEnabled(last.runs[RUN], last.now)
  {
    var run;
    states, ops, run := Attempts(DEFAULT_ATTEMPT_LIMIT);
    states, ops := Lapse(states, ops, run, DEFAULT_ATTEMPT_LIMIT);
  }

  // ----- Between the fence check and the reservation -----

  /**
   The gateway checks an envelope's fence at state `m` and reserves the call at state `n`. The call starts
   under a live fence exactly when nothing superseded the run in between.
   */
  lemma FenceWindow(states: seq<Ledger>, ops: seq<Op>, i: nat, m: nat, n: nat, r: RunId, fence: Fence)
    requires Behavior(states, ops) && AllClose(ops) && i < m <= n < |states|
    requires Grants(states[i], ops[i], r, fence) && GatewayAdmits(states[m], r, fence.epoch)
    ensures GatewayAdmits(states[n], r, fence.epoch) <==> Undisturbed(states, ops, r, m, n)
  {
    FencedExactly(states, ops, i, m, r, fence);
    FencedExactly(states, ops, i, n, r, fence);
  }

  /**
   And it can be superseded: a call of the first attempt is admitted, the lease lapses, and the second attempt
   begins.
   */
  lemma AdmittedThenSuperseded() returns (states: seq<Ledger>, ops: seq<Op>, m: nat)
    ensures Honest(states, ops) && m < |ops|
    ensures GatewayAdmits(states[m], RUN, 1) && !GatewayAdmits(states[|ops|], RUN, 1)
  {
    var run;
    states, ops, run := Attempts(1);
    m := |ops|;
    states, ops := Lapse(states, ops, run, 1);
    var s := states[|ops|];
    var again := ClaimAgain(s, run, 1, "worker");
    HonestGoesOn(states, ops, Claiming("worker"));
    states, ops := states + [Apply(s, Claiming("worker"))], ops + [Claiming("worker")];
  }
}
