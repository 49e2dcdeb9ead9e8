/**
 Claims on the outbox rows' columns: a claim is respected for the timeout, a row whose claim has timed out can be
 claimed again, and so one pass after any crashes publishes whatever was left behind.
 */
module OutboxRecovery {
  import opened Prelude
  import opened Outbox

  // ----- When a row can be claimed -----

  /** The claim of these rows under id `c` stamps them and leaves the others alone. */
  ghost predicate Stamps(s: State, c: ClaimId, chosen: set<RowId>, timeout: nat) {
    var t := Apply(s, Claim(c, chosen, timeout));
    && c in t.relays && t.relays[c] == Relay(chosen, chosen, Publishing)
    && t.rows.Keys == s.rows.Keys
    && forall i :: i in s.rows ==>
         t.rows[i] == if i in chosen
                      then s.rows[i].(claim := Some(c), claimedAt := Some(s.now), attempts := s.rows[i].attempts + 1)
                      else s.rows[i]
  }

  /** Unpublished, and unclaimed or claimed longer ago than the timeout. */
  predicate Free(s: State, i: RowId, timeout: nat) {
    && i in s.rows && s.rows[i].publishedAt.None?
    && (s.rows[i].claimedAt.Some? ==> s.rows[i].claimedAt.value + timeout < s.now)
  }

  /** Rows can be claimed under an unused id exactly when each one is free; otherwise nothing changes. */
  lemma ClaimExactly(s: State, c: ClaimId, chosen: set<RowId>, timeout: nat)
    requires c !in s.used
    ensures if forall i :: i in chosen ==> Free(s, i, timeout) then Stamps(s, c, chosen, timeout)
            else Apply(s, Claim(c, chosen, timeout)) == s
  {
    if forall i :: i in chosen ==> Free(s, i, timeout) {
      assert Enabled(s, Claim(c, chosen, timeout));
    }
  }

  // ----- A claim is respected -----

  /** While the row carries the claim it is unpublished and stamped with the claim's time. */
  predicate Stamped(s: State, i: RowId, c: ClaimId, at: int) {
    && c in s.used
    && (i in s.rows && s.rows[i].claim == Some(c) ==> s.rows[i].claimedAt == Some(at))
  }

  lemma StampedStep(s: State, op: Op, i: RowId, c: ClaimId, at: int)
    requires Stamped(s, i, c, at)
    ensures Stamped(Apply(s, op), i, c, at)
  {
  }

  lemma {:induction false} StampedAlways(states: seq<State>, ops: seq<Op>, k: nat, n: nat, i: RowId, c: ClaimId,
                                         at: int)
    requires Behavior(states, ops) && k <= n < |states| && Stamped(states[k], i, c, at)
    ensures Stamped(states[n], i, c, at)
    decreases n - k
  {
    if k < n {
      StampedStep(states[k], ops[k], i, c, at);
      StampedAlways(states, ops, k + 1, n, i, c, at);
    }
  }

  /**
   As long as a row carries a relay's claim, no other relay takes it over at or before the claim's time plus its
   own timeout.
   */
  lemma ClaimRespected(states: seq<State>, ops: seq<Op>, k: nat, n: nat, i: RowId, chosen: set<RowId>, c: ClaimId,
                       timeout: nat)
    requires Behavior(states, ops) && k < n < |states| && ops[k].Claim? && i in ops[k].chosen
    requires states[k + 1] != states[k]
    requires i in states[n].rows && states[n].rows[i].claim == Some(ops[k].c)
    requires i in chosen && states[n].now <= states[k].now + timeout
    ensures Apply(states[n], Claim(c, chosen, timeout)) == states[n]
  {
    StampedAlways(states, ops, k + 1, n, i, ops[k].c, states[k].now);
    if c !in states[n].used {
      ClaimExactly(states[n], c, chosen, timeout);
      assert !Free(states[n], i, timeout);
    }
  }

  /** Afterwards any relay can. */
  lemma TimedOutIsFree(states: seq<State>, ops: seq<Op>, k: nat, n: nat, i: RowId, c: ClaimId, timeout: nat)
    requires Behavior(states, ops) && k < n < |states| && ops[k].Claim? && i in ops[k].chosen
    requires states[k + 1] != states[k]
    requires i in states[n].rows && states[n].rows[i].claim == Some(ops[k].c)
    requires c !in states[n].used && states[n].now > states[k].now + timeout
    ensures Stamps(states[n], c, {i}, timeout)
  {
    StampedAlways(states, ops, k + 1, n, i, ops[k].c, states[k].now);
    InvAlways(states, ops, n);
    assert RowInv(states[n], states[n].rows[i], i);
    ClaimExactly(states[n], c, {i}, timeout);
  }

  /** A crash, or a mark or release that fails, leaves the rows to the timeout; a failed mark goes on to the release. */
  lemma FailedWrites(s: State, c: ClaimId)
    requires c in s.relays
    ensures Apply(s, Crash(c)) == s.(relays := s.relays - {c})
    ensures s.relays[c].phase == Releasing ==> Apply(s, Release(c, false)) == s.(relays := s.relays - {c})
    ensures s.relays[c].phase == Marking ==>
              Apply(s, Mark(c, false)) == s.(relays := s.relays[c := s.relays[c].(phase := Releasing)])
    ensures s.relays[c].phase == Publishing ==>
              Apply(s, SinkThrows(c)) == s.(relays := s.relays[c := s.relays[c].(phase := Releasing)])
  {
  }

  // ----- One pass recovers -----

  function Run(s: State, ops: seq<Op>): State
    decreases |ops|
  {
    if ops == [] then s else Run(Apply(s, ops[0]), ops[1..])
  }

  lemma {:induction false} RunAppend(s: State, first: seq<Op>, second: seq<Op>)
    ensures Run(s, first + second) == Run(Run(s, first), second)
    decreases |first|
  {
    if first == [] {
      assert first + second == second;
    } else {
      assert (first + second)[1..] == first[1..] + second;
      RunAppend(Apply(s, first[0]), first[1..], second);
    }
  }

  /** The sink accepts what is pending, in some order. */
  lemma {:induction false} SinkTakesAll(s: State, c: ClaimId) returns (ops: seq<Op>, t: State)
    requires c in s.relays && s.relays[c].phase == Publishing
    ensures t == Run(s, ops) && t.rows == s.rows && t.now == s.now && s.sink <= t.sink
    ensures t.relays == s.relays[c := Relay(s.relays[c].records, {}, Publishing)]
    ensures forall i :: i in s.relays[c].pending ==> i in t.sink
    decreases |s.relays[c].pending|
  {
    var pending := s.relays[c].pending;
    if pending == {} {
      ops, t := [], s;
    } else {
      var i :| i in pending;
      var next := Apply(s, SinkAccepts(c, i));
      assert next.relays[c].pending == pending - {i};
      ops, t := SinkTakesAll(next, c);
      assert forall j :: j in pending ==> j == i || j in next.relays[c].pending;
      assert i in next.sink by { assert next.sink[|next.sink| - 1] == i; }
      assert t.relays == s.relays[c := Relay(s.relays[c].records, {}, Publishing)];
      ops := [SinkAccepts(c, i)] + ops;
    }
  }

  /** Every row that no live claim holds. */
  function Left(s: State, timeout: nat): (r: set<RowId>)
    ensures forall i :: i in r <==> Free(s, i, timeout)
  {
    set i | i in s.rows && Free(s, i, timeout)
  }

  predicate Published(s: State, i: RowId) {
    i in s.rows && s.rows[i].publishedAt == Some(s.now) && s.rows[i].claim.None? && i in s.sink
  }

  /** One undisturbed pass whose batch holds them publishes all rows that no live claim holds, and no others. */
  lemma PassPublishes(s: State, c: ClaimId, timeout: nat) returns (ops: seq<Op>, t: State)
    requires c !in s.used
    ensures t == Run(s, ops) && t.now == s.now && t.rows.Keys == s.rows.Keys && s.sink <= t.sink
    ensures forall i :: i in s.rows ==> if Free(s, i, timeout) then Published(t, i) else t.rows[i] == s.rows[i]
  {
    var chosen := Left(s, timeout);
    ClaimExactly(s, c, chosen, timeout);
    var claimed := Apply(s, Claim(c, chosen, timeout));
    var accepts, taken := SinkTakesAll(claimed, c);
    var marking := Apply(taken, SinkReturns(c));
    t := Apply(marking, Mark(c, true));
    MarkPublishes(s, c, chosen, timeout, taken);
    RunAppend(claimed, accepts, [SinkReturns(c), Mark(c, true)]);
    RunTwo(taken, SinkReturns(c), Mark(c, true));
    ops := [Claim(c, chosen, timeout)] + (accepts + [SinkReturns(c), Mark(c, true)]);
  }

  lemma RunTwo(s: State, first: Op, second: Op)
    ensures Run(s, [first, second]) == Apply(Apply(s, first), second)
  {
    var rest := [first, second][1..];
    assert rest == [second] && rest[1..] == [];
    assert Run(Apply(s, first), rest) == Run(Apply(Apply(s, first), second), rest[1..]);
  }

  lemma MarkPublishes(s: State, c: ClaimId, chosen: set<RowId>, timeout: nat, taken: State)
    requires c !in s.used && Stamps(s, c, chosen, timeout) && chosen == Left(s, timeout)
    requires taken.rows == Apply(s, Claim(c, chosen, timeout)).rows && taken.now == s.now
    requires c in taken.relays && taken.relays[c] == Relay(chosen, {}, Publishing)
    requires forall i :: i in chosen ==> i in taken.sink
    ensures var t := Apply(Apply(taken, SinkReturns(c)), Mark(c, true));
            && t.now == s.now && t.rows.Keys == s.rows.Keys
            && forall i :: i in s.rows ==> if Free(s, i, timeout) then Published(t, i) else t.rows[i] == s.rows[i]
  {
  }

  /** No event is lost to a crash: once every claim has timed out, one pass publishes every row that was not. */
  lemma Recovers(states: seq<State>, ops: seq<Op>, n: nat, c: ClaimId, timeout: nat, now: int)
    returns (more: seq<Op>, t: State)
    requires Behavior(states, ops) && n < |states| && c !in states[n].used
    requires forall i :: i in states[n].rows && states[n].rows[i].claimedAt.Some? ==>
                           states[n].rows[i].claimedAt.value + timeout < now
    ensures t == Run(states[n], more) && t.rows.Keys == states[n].rows.Keys
    ensures forall i :: i in t.rows ==> t.rows[i].publishedAt.Some? && i in t.sink
  {
    var later := Apply(states[n], Tick(now));
    var pass;
    pass, t := PassPublishes(later, c, timeout);
    forall i | i in t.rows ensures t.rows[i].publishedAt.Some? && i in t.sink {
      if !Free(later, i, timeout) {
        InvAlways(states, ops, n);
        assert RowInv(states[n], states[n].rows[i], i) && i in later.sink;
      }
    }
    more := [Tick(now)] + pass;
  }
}
