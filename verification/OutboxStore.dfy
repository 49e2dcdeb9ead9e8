/** The relay's statements over one outbox table, and the drain that strings them together. */
module OutboxStore {
  import opened Prelude
  import opened Outbox

  /** The claim timeout in effect, in the clock's milliseconds: whole seconds, rounded up, at least five. */
  function ClaimTimeout(timeoutMs: Option<int>): (r: nat)
    ensures r >= 5_000 && r % 1000 == 0
    ensures timeoutMs.None? ==> r == 300_000
    ensures timeoutMs.Some? ==> timeoutMs.value <= r
    ensures timeoutMs.Some? && timeoutMs.value <= 5_000 ==> r == 5_000
    ensures timeoutMs.Some? && timeoutMs.value > 5_000 ==> r < timeoutMs.value + 1000
  {
    var ms := if timeoutMs.Some? then timeoutMs.value else 300_000;
    var seconds := (ms + 999) / 1000;
    1000 * (if seconds < 5 then 5 else seconds)
  }

  function BatchSize(requested: Option<int>): (r: nat)
    ensures 1 <= r <= 500
    ensures requested.Some? && 1 <= requested.value <= 500 ==> r == requested.value
    ensures requested.Some? && requested.value > 500 ==> r == 500
    ensures requested.Some? && requested.value < 1 ==> r == 1
    ensures requested.None? ==> r == 100
  {
    var size := if requested.Some? then requested.value else 100;
    if size < 1 then 1 else if size > 500 then 500 else size
  }

  function Ids(records: seq<RowId>): set<RowId> {
    set i | i in records
  }

  /** `chosen` are the oldest of the candidates, as many as the batch holds. */
  ghost predicate OldestFirst(rows: map<RowId, Row>, candidates: set<RowId>, chosen: set<RowId>, batch: nat)
    requires candidates <= rows.Keys
  {
    && chosen <= candidates
    && |chosen| <= batch
    && (|chosen| < batch ==> chosen == candidates)
    && forall i, j :: i in chosen && j in candidates && j !in chosen ==> rows[i].createdAt <= rows[j].createdAt
  }

  class Store {
    var now: int
    var rows: map<RowId, Row>
    var sink: seq<RowId>
    ghost var purged: map<RowId, Row>
    ghost var relays: map<ClaimId, Relay>
    ghost var used: set<ClaimId>

    ghost function View(): State
      reads this
    {
      State(now, rows, purged, relays, used, sink)
    }

    function Candidates(timeout: nat, locked: set<RowId>): (r: set<RowId>)
      reads this
      ensures forall i :: i in r <==>
                && i in rows && i !in locked && rows[i].publishedAt.None?
                && (rows[i].claimedAt.Some? ==> rows[i].claimedAt.value + timeout < now)
    {
      set i | i in rows && i !in locked && Eligible(rows[i], now, timeout)
    }

    method Oldest(candidates: set<RowId>) returns (best: RowId)
      requires candidates != {} && candidates <= rows.Keys
      ensures best in candidates && forall i :: i in candidates ==> rows[best].createdAt <= rows[i].createdAt
    {
      best :| best in candidates;
      var rest := candidates - {best};
      while rest != {}
        invariant best in candidates && rest <= candidates
        invariant forall i :: i in candidates && i !in rest ==> rows[best].createdAt <= rows[i].createdAt
        decreases rest
      {
        var i :| i in rest;
        if rows[i].createdAt < rows[best].createdAt { best := i; }
        rest := rest - {i};
      }
    }

    /** The oldest eligible rows that no other transaction holds locked. */
    method Select(timeout: nat, locked: set<RowId>, batch: nat) returns (chosen: seq<RowId>)
      ensures |chosen| == |Ids(chosen)|
      ensures OldestFirst(rows, Candidates(timeout, locked), Ids(chosen), batch)
    {
      chosen := [];
      var candidates := Candidates(timeout, locked);
      var rest := candidates;
      ghost var taken := {};
      while rest != {} && |chosen| < batch
        invariant taken == Ids(chosen) && |taken| == |chosen| <= batch
        invariant rest == candidates - taken && taken <= candidates
        invariant forall i, j :: i in taken && j in rest ==> rows[i].createdAt <= rows[j].createdAt
        decreases rest
      {
        var best := Oldest(rest);
        assert best !in taken;
        chosen := chosen + [best];
        taken := taken + {best};
        rest := rest - {best};
      }
    }

    /** One transaction: select candidates and stamp them with the claim. */
    method ClaimBatch(c: ClaimId, timeout: nat, locked: set<RowId>, batch: nat) returns (records: seq<RowId>)
      requires c !in used
      modifies this`rows, this`relays, this`used
      ensures OldestFirst(old(rows), old(Candidates(timeout, locked)), Ids(records), batch)
      ensures |records| == |Ids(records)|
      ensures View() == Apply(old(View()), Op.Claim(c, Ids(records), timeout))
      ensures rows == AfterClaim(old(rows), Ids(records), c, now)
      ensures rows.Keys == old(rows).Keys
      ensures forall i :: i in rows ==>
                rows[i] == if i in records
                           then old(rows)[i].(claim := Some(c), claimedAt := Some(now),
                                              attempts := old(rows)[i].attempts + 1)
                           else old(rows)[i]
      ensures relays == old(relays)[c := Relay(Ids(records), Ids(records), Publishing)]
    {
      records := Select(timeout, locked, batch);
      var chosen := Ids(records);
      rows := map i | i in rows :: if i in chosen then ClaimedRow(rows[i], c, now) else rows[i];
      relays := relays[c := Relay(chosen, chosen, Publishing)];
      used := used + {c};
    }

    /** The mark's update after the sink returned. */
    method MarkPublished(c: ClaimId, records: set<RowId>)
      requires c in relays && relays[c].phase == Marking && relays[c].records == records
      modifies this`rows, this`relays
      ensures View() == Apply(old(View()), Op.Mark(c, true))
      ensures rows.Keys == old(rows).Keys
      ensures forall i :: i in rows ==>
                rows[i] == if i in records && old(rows)[i].claim == Some(c)
                           then old(rows)[i].(publishedAt := Some(now), claim := None, claimedAt := None)
                           else old(rows)[i]
    {
      rows := map i | i in rows ::
          if rows[i].claim == Some(c) && i in records then MarkedRow(rows[i], now) else rows[i];
      relays := relays - {c};
    }

    /** The release's update after the sink or the mark threw. */
    method ReleaseClaim(c: ClaimId)
      requires c in relays && relays[c].phase == Releasing
      modifies this`rows, this`relays
      ensures View() == Apply(old(View()), Op.Release(c, true))
      ensures rows.Keys == old(rows).Keys
      ensures forall i :: i in rows ==>
                rows[i] == if old(rows)[i].claim == Some(c) then old(rows)[i].(claim := None, claimedAt := None)
                           else old(rows)[i]
    {
      rows := map i | i in rows :: if rows[i].claim == Some(c) then ReleasedRow(rows[i]) else rows[i];
      relays := relays - {c};
    }

    /** Deletes the delivered rows that are past retention, and says how many. */
    method PurgePublished(retention: nat) returns (count: nat)
      modifies this`rows, this`purged
      ensures View() == Apply(old(View()), Op.Purge(retention))
      ensures forall i :: i in rows <==>
                i in old(rows)
                && (old(rows)[i].publishedAt.Some? ==> old(rows)[i].publishedAt.value + retention >= now)
      ensures forall i :: i in rows ==> rows[i] == old(rows)[i]
      ensures count == |old(rows)| - |rows|
    {
      var gone := PurgedRows(rows, now, retention);
      PurgeSplits(rows, now, retention);
      count := |gone|;
      purged := purged + gone;
      rows := AfterPurge(rows, now, retention);
    }

    /** The sink writes the records in order and stops before record `stop`, if there is one. */
    method Publish(records: seq<RowId>, stop: Option<nat>) returns (ok: bool)
      modifies this`sink
      ensures ok <==> stop.None? || stop.value >= |records|
      ensures sink == old(sink) + (if ok then records else records[..stop.value])
    {
      for n := 0 to |records|
        invariant sink == old(sink) + records[..n]
        invariant stop.Some? ==> n <= stop.value
      {
        if stop == Some(n) { return false; }
        sink := sink + [records[n]];
      }
      assert records[..|records|] == records;
      return true;
    }

    /** After the sink: mark what it took, or release the claim. */
    method Finish(c: ClaimId, records: seq<RowId>, taken: bool, markFails: bool) returns (ok: bool)
      requires c in relays && relays[c].records == Ids(records)
      modifies this`rows, this`relays
      ensures ok <==> taken && !markFails
      ensures rows == if ok then AfterMark(old(rows), Ids(records), c, now) else AfterRelease(old(rows), c)
      ensures relays == old(relays) - {c}
    {
      ok := taken && !markFails;
      if ok {
        relays := relays[c := Relay(Ids(records), {}, Marking)];
        MarkPublished(c, Ids(records));
      } else {
        relays := relays[c := relays[c].(phase := Releasing)];
        ReleaseClaim(c);
      }
    }

    /** Publish the claimed records, then mark or release them. */
    method Deliver(c: ClaimId, records: seq<RowId>, stop: Option<nat>, markFails: bool) returns (ok: bool)
      requires c in relays && relays[c].records == Ids(records)
      modifies this`rows, this`relays, this`sink
      ensures ok <==> (stop.None? || stop.value >= |records|) && !markFails
      ensures old(sink) <= sink && (ok ==> sink == old(sink) + records)
      ensures rows == if ok then AfterMark(old(rows), Ids(records), c, now) else AfterRelease(old(rows), c)
      ensures relays == old(relays) - {c}
    {
      var taken := Publish(records, stop);
      ok := Finish(c, records, taken, markFails);
    }

    /**
     One pass of the drain over the table, with no other relay running: the claimed rows end up
     published when the sink takes them all and the mark goes through, and unclaimed otherwise, each
     one attempt dearer.
     */
    method DrainTable(c: ClaimId, requestedBatch: Option<int>, timeoutMs: Option<int>, stop: Option<nat>,
                      markFails: bool)
      returns (published: nat, ok: bool, ghost records: seq<RowId>)
      requires c !in used && c !in relays
      requires forall i :: i in rows ==> rows[i].claim != Some(c)
      modifies this
      ensures now == old(now) && purged == old(purged) && relays == old(relays)
      ensures OldestFirst(old(rows), old(Candidates(ClaimTimeout(timeoutMs), {})), Ids(records),
                          BatchSize(requestedBatch))
      ensures ok <==> records == [] || ((stop.None? || stop.value >= |records|) && !markFails)
      ensures published == if ok then |records| else 0
      ensures old(sink) <= sink && (ok ==> sink == old(sink) + records)
      ensures rows == DrainedRows(old(rows), Ids(records), c, now, ok)
      ensures |records| < BatchSize(requestedBatch) ==>
                forall i :: i in records <==>
                  && i in old(rows) && old(rows)[i].publishedAt.None?
                  && (old(rows)[i].claimedAt.Some? ==> old(rows)[i].claimedAt.value + ClaimTimeout(timeoutMs) < now)
    {
      hide Apply, OldestFirst, AfterClaim, AfterMark, AfterRelease, DrainedRows;
      var claimed := ClaimBatch(c, ClaimTimeout(timeoutMs), {}, BatchSize(requestedBatch));
      records := claimed;
      DrainOutcome(old(rows), Ids(records), c, now);
      if claimed == [] {
        assert Ids(records) == {};
        relays := relays - {c};
        return 0, true, records;
      }
      ok := Deliver(c, claimed, stop, markFails);
      published := if ok then |claimed| else 0;
    }
  }

  // ----- Where one drain leaves the rows -----

  function DrainedRows(rows: map<RowId, Row>, chosen: set<RowId>, c: ClaimId, now: int, ok: bool): (r: map<RowId, Row>)
    ensures r.Keys == rows.Keys
    ensures forall i :: i in rows && i !in chosen ==> r[i] == rows[i]
    ensures forall i :: i in rows && i in chosen ==>
              r[i] == rows[i].(publishedAt := if ok then Some(now) else rows[i].publishedAt,
                               claim := None, claimedAt := None, attempts := rows[i].attempts + 1)
  {
    map i | i in rows ::
      if i !in chosen then rows[i]
      else if ok then MarkedRow(ClaimedRow(rows[i], c, now), now)
      else ReleasedRow(ClaimedRow(rows[i], c, now))
  }

  lemma DrainOutcome(rows: map<RowId, Row>, chosen: set<RowId>, c: ClaimId, now: int)
    requires forall i :: i in rows ==> rows[i].claim != Some(c)
    ensures AfterMark(AfterClaim(rows, chosen, c, now), chosen, c, now) == DrainedRows(rows, chosen, c, now, true)
    ensures AfterRelease(AfterClaim(rows, chosen, c, now), c) == DrainedRows(rows, chosen, c, now, false)
    ensures chosen == {} ==> AfterClaim(rows, chosen, c, now) == DrainedRows(rows, chosen, c, now, true)
  {
  }

  lemma PurgeSplits(rows: map<RowId, Row>, now: int, retention: nat)
    ensures |rows| == |PurgedRows(rows, now, retention)| + |AfterPurge(rows, now, retention)|
  {
    var gone, kept := PurgedRows(rows, now, retention), AfterPurge(rows, now, retention);
    assert rows.Keys == gone.Keys + kept.Keys;
    assert |gone.Keys + kept.Keys| == |gone.Keys| + |kept.Keys|;
  }
}
