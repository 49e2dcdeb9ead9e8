/**
 When a run's recorded cost stays within its plan's limit: exactly when each call is reserved with room for
 itself and for what the calls in flight can still cost. `c` is the most a call can cost.
 */
module GatewayBudget {
  import opened Prelude
  import opened Gateway
  import opened GatewayTheorems

  /** Whatever is in flight fits into what the run has left. */
  ghost predicate Covered(s: State, r: RunId, c: nat) {
    r in s.runs && r in s.budgets && s.runs[r].cost + c * |InFlight(s, r)| <= s.budgets[r].maxCost
  }

  /** One more call fits as well. */
  ghost predicate HasHeadroom(s: State, r: RunId, c: nat) {
    r in s.runs && r in s.budgets && s.runs[r].cost + c * (|InFlight(s, r)| + 1) <= s.budgets[r].maxCost
  }

  ghost predicate InFlightCosts(s: State, r: RunId, c: nat) {
    forall h :: h in InFlight(s, r) ==> PhaseCosts(s.handlers[h].phase, c)
  }

  lemma InFlightCostsStep(s: State, op: Op, r: RunId, c: nat)
    requires InFlightCosts(s, r, c) && CostsAtMost(op, c)
    ensures InFlightCosts(Apply(s, op), r, c)
  {
    var t := Apply(s, op);
    forall h | h in InFlight(t, r) ensures PhaseCosts(t.handlers[h].phase, c) {
      assert h in s.handlers && s.handlers[h].request.runId == r ==> h in InFlight(s, r);
    }
  }

  lemma CoveredStep(s: State, op: Op, r: RunId, c: nat)
    requires Inv(s) && InFlightCosts(s, r, c) && Covered(s, r, c)
    requires Reserves(s, op, r) ==> HasHeadroom(s, r, c)
    ensures Covered(Apply(s, op), r, c)
  {
    var before, after := |InFlight(s, r)|, |InFlight(Apply(s, op), r)|;
    RunStep(s, op, r);
    InFlightStep(s, op, r);
    BudgetsKept(s, op, r);
    if CostAt(s, op, r).Some? {
      assert op.h in InFlight(s, r);
      Scaled(c, after, before);
    } else if !Reserves(s, op, r) {
      Scaled(c, after, before);
    }
  }

  lemma BudgetsKept(s: State, op: Op, r: RunId)
    requires Inv(s) && r in s.runs
    ensures r in Apply(s, op).runs && r in Apply(s, op).budgets && Apply(s, op).budgets[r] == s.budgets[r]
  {
  }

  ghost predicate Cheap(ops: seq<Op>, c: nat) {
    forall i :: 0 <= i < |ops| ==> CostsAtMost(ops[i], c)
  }

  /** The steps reserve no call of the run. */
  predicate NoReservation(ops: seq<Op>, r: RunId) {
    forall i :: 0 <= i < |ops| && ops[i].Reserve? ==> ops[i].request.runId != r
  }

  ghost predicate AlwaysHeadroom(states: seq<State>, ops: seq<Op>, r: RunId, c: nat)
    requires Behavior(states, ops)
  {
    forall i :: 0 <= i < |ops| && Reserves(states[i], ops[i], r) ==> HasHeadroom(states[i], r, c)
  }

  lemma AdmittedCovered(s: State, op: Op, r: RunId, c: nat)
    requires Inv(s) && r !in s.runs && r in Apply(s, op).runs
    ensures Covered(Apply(s, op), r, c)
  {
    forall h | h in s.handlers ensures s.handlers[h].request.runId != r {
      assert HandlerInv(s, s.handlers[h]);
    }
    assert InFlight(Apply(s, op), r) == {};
  }

  lemma {:induction false} InFlightAlwaysCosts(states: seq<State>, ops: seq<Op>, n: nat, r: RunId, c: nat)
    requires Behavior(states, ops) && n < |states| && Cheap(ops, c)
    ensures InFlightCosts(states[n], r, c)
  {
    if n > 0 {
      InFlightAlwaysCosts(states, ops, n - 1, r, c);
      InFlightCostsStep(states[n - 1], ops[n - 1], r, c);
    }
  }

  /** With headroom at every reservation of the run, its cost and what is in flight never exceed the limit. */
  lemma {:induction false} HeadroomKeepsLimit(states: seq<State>, ops: seq<Op>, n: nat, r: RunId, c: nat)
    requires Behavior(states, ops) && n < |states| && Cheap(ops, c) && AlwaysHeadroom(states, ops, r, c)
    ensures r in states[n].runs ==> Covered(states[n], r, c)
  {
    if n > 0 && r in states[n].runs {
      var s, op := states[n - 1], ops[n - 1];
      InvAlways(states, ops, n - 1);
      if r in s.runs {
        HeadroomKeepsLimit(states, ops, n - 1, r, c);
        InFlightAlwaysCosts(states, ops, n - 1, r, c);
        CoveredStep(s, op, r, c);
      } else {
        AdmittedCovered(s, op, r, c);
      }
    }
  }

  // ----- What the calls in flight can still cost -----

  /** The most a handler can still add to its run: `c` at its provider, the known cost after it. */
  function Due(phase: Phase, c: nat): nat {
    match phase
    case Calling => c
    case Failing => 0
    case Returned(_, cost) => if cost.Some? then cost.value else 0
    case Stored(_, cost) => if cost.Some? then cost.value else 0
  }

  ghost function Pick(hs: set<HandlerId>): (h: HandlerId)
    requires hs != {}
    ensures h in hs
  {
    var h :| h in hs; h
  }

  ghost function Owed(handlers: map<HandlerId, Handler>, hs: set<HandlerId>, c: nat): nat
    requires hs <= handlers.Keys
  {
    if hs == {} then 0
    else
      Due(handlers[Pick(hs)].phase, c) + Owed(handlers, hs - {Pick(hs)}, c)
  }

  lemma {:induction false} OwedSplit(handlers: map<HandlerId, Handler>, hs: set<HandlerId>, g: HandlerId, c: nat)
    requires hs <= handlers.Keys && g in hs
    ensures Owed(handlers, hs, c) == Due(handlers[g].phase, c) + Owed(handlers, hs - {g}, c)
    decreases hs
  {
    var h := Pick(hs);
    if h != g {
      OwedSplit(handlers, hs - {h}, g, c);
      OwedSplit(handlers, hs - {g}, h, c);
      assert hs - {h} - {g} == hs - {g} - {h};
    }
  }

  lemma {:induction false} OwedAlike(a: map<HandlerId, Handler>, b: map<HandlerId, Handler>, hs: set<HandlerId>, c: nat)
    requires hs <= a.Keys && hs <= b.Keys && forall h :: h in hs ==> a[h] == b[h]
    ensures Owed(a, hs, c) == Owed(b, hs, c)
    decreases hs
  {
    if hs != {} {
      OwedAlike(a, b, hs - {Pick(hs)}, c);
    }
  }

  /** What the calls of the run in flight can still cost in all. */
  ghost function Debt(s: State, r: RunId, c: nat): nat {
    Owed(s.handlers, InFlight(s, r), c)
  }

  lemma {:induction false} OwedPerCall(handlers: map<HandlerId, Handler>, hs: set<HandlerId>, c: nat)
    requires hs <= handlers.Keys && forall h :: h in hs ==> handlers[h].phase == Calling
    ensures Owed(handlers, hs, c) == c * |hs|
    decreases hs
  {
    if hs != {} {
      OwedPerCall(handlers, hs - {Pick(hs)}, c);
      assert |hs| == |hs - {Pick(hs)}| + 1;
      Scaled(c, |hs - {Pick(hs)}|, |hs|);
    }
  }

  /** The two states differ in the handler `h` of the run alone. */
  ghost predicate OnlyMoved(s: State, t: State, r: RunId, h: HandlerId) {
    && h in s.handlers && s.handlers[h].request.runId == r
    && (h in t.handlers ==> t.handlers[h].request.runId == r)
    && (forall g :: g != h ==> (g in s.handlers <==> g in t.handlers))
    && (forall g :: g != h && g in s.handlers ==> t.handlers[g] == s.handlers[g])
  }

  lemma OnlyMovedInFlight(s: State, t: State, r: RunId, h: HandlerId)
    requires OnlyMoved(s, t, r, h)
    ensures InFlight(t, r) == if h in t.handlers then InFlight(s, r) else InFlight(s, r) - {h}
  {
  }

  /** One handler of the run steps: the debt changes by what that handler is due. */
  lemma DebtStep(s: State, t: State, r: RunId, h: HandlerId, c: nat)
    requires OnlyMoved(s, t, r, h)
    ensures Debt(t, r, c) + Due(s.handlers[h].phase, c)
         == Debt(s, r, c) + if h in t.handlers then Due(t.handlers[h].phase, c) else 0
  {
    OnlyMovedInFlight(s, t, r, h);
    OwedSplit(s.handlers, InFlight(s, r), h, c);
    OwedAlike(s.handlers, t.handlers, InFlight(s, r) - {h}, c);
    if h in t.handlers {
      OwedSplit(t.handlers, InFlight(t, r), h, c);
    }
  }

  /** A step that touches no handler of the run leaves its debt alone. */
  lemma DebtKept(s: State, t: State, r: RunId, c: nat)
    requires InFlight(t, r) == InFlight(s, r) && forall h :: h in InFlight(s, r) ==> t.handlers[h] == s.handlers[h]
    ensures Debt(t, r, c) == Debt(s, r, c)
  {
    OwedAlike(s.handlers, t.handlers, InFlight(s, r), c);
  }

  /** The handler whose step it is. */
  predicate Moves(s: State, op: Op, h: HandlerId) {
    !op.Admit? && !op.Reserve? && op.h == h && h in s.handlers && Enabled(s, op)
  }

  lemma MoveTouchesOne(s: State, op: Op, h: HandlerId)
    requires Moves(s, op, h)
    ensures OnlyMoved(s, Apply(s, op), s.handlers[h].request.runId, h)
  {
  }

  lemma MovePays(s: State, op: Op, h: HandlerId, c: nat)
    requires Inv(s) && Moves(s, op, h) && CostsAtMost(op, c) && s.handlers[h].request.runId in s.runs
    ensures var t, r := Apply(s, op), s.handlers[h].request.runId;
            r in t.runs && t.runs[r].cost + (if h in t.handlers then Due(t.handlers[h].phase, c) else 0)
                           <= s.runs[r].cost + Due(s.handlers[h].phase, c)
  {
  }

  lemma OtherRunsCost(s: State, op: Op, r: RunId)
    requires Inv(s) && r in s.runs && forall h :: Moves(s, op, h) ==> s.handlers[h].request.runId != r
    ensures r in Apply(s, op).runs && Apply(s, op).runs[r].cost == s.runs[r].cost
  {
    RunStep(s, op, r);
    if CostAt(s, op, r).Some? {
      assert Moves(s, op, op.h);
    }
  }

  /** Without a reservation of the run, its cost and its debt together never grow. */
  lemma DebtOnlyFalls(s: State, op: Op, r: RunId, c: nat)
    requires Inv(s) && r in s.runs && !Reserves(s, op, r) && CostsAtMost(op, c)
    ensures r in Apply(s, op).runs
            && Apply(s, op).runs[r].cost + Debt(Apply(s, op), r, c) <= s.runs[r].cost + Debt(s, r, c)
  {
    var t := Apply(s, op);
    if h :| Moves(s, op, h) && s.handlers[h].request.runId == r {
      MoveTouchesOne(s, op, h);
      MovePays(s, op, h, c);
      DebtStep(s, t, r, h, c);
    } else {
      OtherRunsCost(s, op, r);
      OthersInFlight(s, op, r);
      DebtKept(s, t, r, c);
    }
  }

  lemma OthersInFlight(s: State, op: Op, r: RunId)
    requires !Reserves(s, op, r) && forall h :: Moves(s, op, h) ==> s.handlers[h].request.runId != r
    ensures InFlight(Apply(s, op), r) == InFlight(s, r)
    ensures forall h :: h in InFlight(s, r) ==> Apply(s, op).handlers[h] == s.handlers[h]
  {
    if !op.Admit? && !op.Reserve? && Enabled(s, op) {
      assert Moves(s, op, op.h);
    }
  }

  /** A reservation adds `c` to the debt and nothing to the cost. */
  lemma ReserveOwes(s: State, op: Op, r: RunId, c: nat)
    requires Inv(s) && Reserves(s, op, r)
    ensures var t := Apply(s, op);
            && Inv(t) && r in t.runs && r in t.budgets
            && t.runs[r].cost == s.runs[r].cost && t.budgets == s.budgets && Debt(t, r, c) == Debt(s, r, c) + c
  {
    var t := Apply(s, op);
    InvStep(s, op);
    assert InFlight(t, r) - {op.h} == InFlight(s, r);
    OwedSplit(t.handlers, InFlight(t, r), op.h, c);
    OwedAlike(s.handlers, t.handlers, InFlight(s, r), c);
  }

  /** Cost and debt fit into the limit. */
  ghost predicate Solvent(s: State, r: RunId, c: nat) {
    r in s.runs && r in s.budgets && s.runs[r].cost + Debt(s, r, c) <= s.budgets[r].maxCost
  }

  /** One more call fits as well. */
  ghost predicate HasRoom(s: State, r: RunId, c: nat) {
    r in s.runs && r in s.budgets && s.runs[r].cost + Debt(s, r, c) + c <= s.budgets[r].maxCost
  }

  lemma SolventStep(s: State, op: Op, r: RunId, c: nat)
    requires Inv(s) && Solvent(s, r, c) && CostsAtMost(op, c) && (Reserves(s, op, r) ==> HasRoom(s, r, c))
    ensures Solvent(Apply(s, op), r, c)
  {
    BudgetsKept(s, op, r);
    if Reserves(s, op, r) {
      ReserveOwes(s, op, r, c);
    } else {
      DebtOnlyFalls(s, op, r, c);
    }
  }

  ghost predicate AlwaysRoom(states: seq<State>, ops: seq<Op>, r: RunId, c: nat)
    requires Behavior(states, ops)
  {
    forall i :: 0 <= i < |ops| && Reserves(states[i], ops[i], r) ==> HasRoom(states[i], r, c)
  }

  /** With room at every reservation of the run, its cost and debt never exceed the limit. */
  lemma {:induction false} RoomKeepsLimit(states: seq<State>, ops: seq<Op>, n: nat, r: RunId, c: nat)
    requires Behavior(states, ops) && n < |states| && Cheap(ops, c) && AlwaysRoom(states, ops, r, c)
    ensures r in states[n].runs ==> Solvent(states[n], r, c)
  {
    if n > 0 && r in states[n].runs {
      var s, op := states[n - 1], ops[n - 1];
      InvAlways(states, ops, n - 1);
      if r in s.runs {
        RoomKeepsLimit(states, ops, n - 1, r, c);
        SolventStep(s, op, r, c);
      } else {
        AdmittedCovered(s, op, r, c);
        assert |InFlight(states[n], r)| == 0;
      }
    }
  }

  // ----- Without room -----

  function Run(s: State, ops: seq<Op>): State
    decreases |ops|
  {
    if ops == [] then s else Run(Apply(s, ops[0]), ops[1..])
  }

  ghost predicate AllCalling(s: State, r: RunId) {
    forall h :: h in InFlight(s, r) ==> s.handlers[h].phase == Calling
  }

  lemma InvStep(s: State, op: Op)
    requires Inv(s)
    ensures Inv(Apply(s, op))
  {
    StepHolders(s, op);
    StepHandlers(s, op);
    StepRuns(s, op);
  }

  lemma RunOne(s: State, op: Op)
    ensures Run(s, [op]) == Apply(s, op)
  {
    assert [op][1..] == [];
  }

  lemma {:induction false} RunAppend(s: State, first: seq<Op>, second: seq<Op>)
    ensures Run(s, first + second) == Run(Run(s, first), second)
    decreases |first|
  {
    if first == [] {
      assert first + second == second;
    } else {
      assert (first + second)[1..] == first[1..] + second;
      RunAppend(Apply(s, first[0]), first[1..], second);
    }
  }

  /** The next step of a handler whose statements all succeed. */
  function NextOp(h: HandlerId, phase: Phase, c: nat): Op {
    match phase
    case Calling => ProviderSucceeds(h, "", Some(c))
    case Failing => AbandonReceipt(h, true)
    case Returned(_, _) => CompleteReceipt(h, true)
    case Stored(_, _) => RecordCost(h, true)
  }

  function StepsLeft(phase: Phase): nat {
    match phase case Calling => 3 case Failing => 1 case Returned(_, _) => 2 case Stored(_, _) => 1
  }

  lemma NextMoves(s: State, h: HandlerId, c: nat)
    requires h in s.handlers
    ensures var op := NextOp(h, s.handlers[h].phase, c); var t := Apply(s, op);
            Moves(s, op, h) && t.budgets == s.budgets
            && (h in t.handlers ==> StepsLeft(t.handlers[h].phase) < StepsLeft(s.handlers[h].phase))
  {
  }

  lemma NextCosts(s: State, h: HandlerId, c: nat)
    requires h in s.handlers && s.handlers[h].request.runId in s.runs
    ensures var t, r := Apply(s, NextOp(h, s.handlers[h].phase, c)), s.handlers[h].request.runId;
            r in t.runs && t.runs[r].cost + (if h in t.handlers then Due(t.handlers[h].phase, c) else 0)
                           == s.runs[r].cost + Due(s.handlers[h].phase, c)
  {
  }

  /** Such a step pays all of what it takes off the debt. */
  lemma NextPays(s: State, h: HandlerId, r: RunId, c: nat)
    requires r in s.runs && h in InFlight(s, r)
    ensures var t := Apply(s, NextOp(h, s.handlers[h].phase, c));
            && r in t.runs && t.runs[r].cost + Debt(t, r, c) == s.runs[r].cost + Debt(s, r, c)
            && InFlight(t, r) == if h in t.handlers then InFlight(s, r) else InFlight(s, r) - {h}
  {
    var op := NextOp(h, s.handlers[h].phase, c);
    var t := Apply(s, op);
    NextMoves(s, h, c);
    NextCosts(s, h, c);
    MoveTouchesOne(s, op, h);
    OnlyMovedInFlight(s, t, r, h);
    DebtStep(s, t, r, h, c);
  }

  /** Handler `h` finishes. */
  lemma {:induction false} SpendOne(s: State, h: HandlerId, r: RunId, c: nat) returns (t: State, ops: seq<Op>)
    requires Inv(s) && r in s.runs && h in InFlight(s, r)
    ensures Cheap(ops, c) && NoReservation(ops, r) && t == Run(s, ops)
    ensures Inv(t) && r in t.runs && InFlight(t, r) == InFlight(s, r) - {h}
    ensures t.runs[r].cost + Debt(t, r, c) == s.runs[r].cost + Debt(s, r, c)
    decreases StepsLeft(s.handlers[h].phase)
  {
    var op := NextOp(h, s.handlers[h].phase, c);
    NextMoves(s, h, c);
    NextPays(s, h, r, c);
    InvStep(s, op);
    RunOne(s, op);
    t, ops := Apply(s, op), [op];
    if h in InFlight(t, r) {
      var rest;
      var mid := t;
      t, rest := SpendOne(mid, h, r, c);
      RunJoins(s, [op], rest, r, c);
      ops := [op] + rest;
    }
  }

  lemma RunJoins(s: State, first: seq<Op>, rest: seq<Op>, r: RunId, c: nat)
    requires Cheap(first, c) && NoReservation(first, r) && Cheap(rest, c) && NoReservation(rest, r)
    ensures Cheap(first + rest, c) && NoReservation(first + rest, r) && Run(s, first + rest) == Run(Run(s, first), rest)
  {
    RunAppend(s, first, rest);
  }

  /** The continuation in which every call in flight finishes as dearly as it can. */
  lemma {:induction false} SpendAll(s: State, r: RunId, c: nat) returns (more: seq<Op>)
    requires Inv(s) && r in s.runs
    ensures Cheap(more, c) && NoReservation(more, r)
    ensures r in Run(s, more).runs && Run(s, more).runs[r].cost == s.runs[r].cost + Debt(s, r, c)
    decreases |InFlight(s, r)|
  {
    if InFlight(s, r) == {} {
      more := [];
    } else {
      var h :| h in InFlight(s, r);
      var t, first := SpendOne(s, h, r, c);
      assert |InFlight(s, r)| == |InFlight(t, r)| + 1;
      var rest := SpendAll(t, r, c);
      more := first + rest;
      RunJoins(s, first, rest, r, c);
    }
  }

  lemma {:induction false} RunSolvent(s: State, more: seq<Op>, r: RunId, c: nat)
    requires Inv(s) && Solvent(s, r, c) && Cheap(more, c) && NoReservation(more, r)
    ensures Solvent(Run(s, more), r, c) && Run(s, more).budgets[r] == s.budgets[r]
    decreases |more|
  {
    if more != [] {
      assert CostsAtMost(more[0], c);
      SolventStep(s, more[0], r, c);
      BudgetsKept(s, more[0], r);
      InvStep(s, more[0]);
      RunSolvent(Apply(s, more[0]), more[1..], r, c);
    }
  }

  /** The recorded cost passes the limit `max` at the end of the continuation. */
  predicate Passes(s: State, more: seq<Op>, r: RunId, max: nat) {
    r in Run(s, more).runs && Run(s, more).runs[r].cost > max
  }

  /**
   No continuation without another reservation of the run, each call costing `c` at most, takes it past its
   limit.
   */
  ghost predicate Safe(s: State, r: RunId, c: nat)
    requires r in s.budgets
  {
    forall more :: Cheap(more, c) && NoReservation(more, r) ==> !Passes(s, more, r, s.budgets[r].maxCost)
  }

  /** In any state, wherever the calls in flight stand. */
  lemma SafeExactly(s: State, r: RunId, c: nat)
    requires Inv(s) && r in s.runs && r in s.budgets
    ensures Safe(s, r, c) <==> Solvent(s, r, c)
  {
    if Solvent(s, r, c) {
      forall more | Cheap(more, c) && NoReservation(more, r)
        ensures !Passes(s, more, r, s.budgets[r].maxCost)
      {
        RunSolvent(s, more, r, c);
      }
    } else {
      var more := SpendAll(s, r, c);
      assert Passes(s, more, r, s.budgets[r].maxCost);
    }
  }

  /**
   What a reservation has to check. Wherever the earlier calls of the run stand, no way of finishing the calls
   in flight passes the limit exactly when the cost, `c` for the new call and for each one at its provider, and
   the known cost of each one after it fit into the limit.
   */
  lemma HeadroomExactly(s: State, op: Op, r: RunId, c: nat)
    requires Inv(s) && Reserves(s, op, r)
    ensures r in Apply(s, op).budgets
    ensures Safe(Apply(s, op), r, c) <==> HasRoom(s, r, c)
    ensures AllCalling(s, r) ==> (Safe(Apply(s, op), r, c) <==> HasHeadroom(s, r, c))
  {
    hide Apply, Inv, Safe;
    ReserveOwes(s, op, r, c);
    SafeExactly(Apply(s, op), r, c);
    if AllCalling(s, r) {
      OwedPerCall(s.handlers, InFlight(s, r), c);
      Scaled(c, |InFlight(s, r)|, |InFlight(s, r)|);
    }
  }

  lemma {:induction false} Extend(states: seq<State>, ops: seq<Op>, more: seq<Op>) returns (longer: seq<State>)
    requires Behavior(states, ops)
    ensures Behavior(longer, ops + more) && states <= longer
    ensures longer[|longer| - 1] == Run(states[|states| - 1], more)
    decreases |more|
  {
    if more == [] {
      longer := states;
      assert ops + more == ops;
    } else {
      var next := Apply(states[|states| - 1], more[0]);
      longer := Extend(states + [next], ops + [more[0]], more[1..]);
      assert (ops + [more[0]]) + more[1..] == ops + more;
    }
  }

  /** A behavior that ends in a reservation without room can go on past the limit. */
  lemma PassedWithoutHeadroom(states: seq<State>, ops: seq<Op>, r: RunId, c: nat)
    returns (longer: seq<State>, more: seq<Op>)
    requires Behavior(states, ops) && ops != [] && Cheap(ops, c)
    requires var n := |ops| - 1; Reserves(states[n], ops[n], r) && !HasRoom(states[n], r, c)
    ensures Behavior(longer, ops + more) && states <= longer && Cheap(ops + more, c)
    ensures var last := longer[|longer| - 1];
            r in last.runs && r in states[|ops|].budgets && last.runs[r].cost > states[|ops|].budgets[r].maxCost
  {
    var n := |ops| - 1;
    InvAlways(states, ops, n);
    ReserveOwes(states[n], ops[n], r, c);
    more := SpendAll(states[|ops|], r, c);
    longer := Extend(states, ops, more);
  }
}
