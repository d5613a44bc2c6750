/** `EngineHandle::sweep_expired_adjudications`: two lists, and one reversion at a time. */
module EngineHandle {
  import opened Ledger
  import opened LedgerReadings
  import opened StableSort
  import opened Store
  import opened SqliteStore
  import opened SubmitAdjudication
  import opened SweepAdjudications

  class EngineHandle {
    const persistence: SqlitePersistenceStore
    const sweeper: SweepAdjudicationsUseCase
    const hasPendingStore: bool

    constructor (store: SqlitePersistenceStore, hasPendingStore: bool)
      ensures persistence == store && sweeper.persistence == store && this.hasPendingStore == hasPendingStore
    {
      this.persistence, this.hasPendingStore := store, hasPendingStore;
      sweeper := new SweepAdjudicationsUseCase(store);
    }

    /** A sweep that meets no other writer. Whatever happens it only appends expiry entries. When it
        succeeds in a quiet store it has reverted each stranded claim once and nothing else, and none
        is left; when there was none, or there is no pending store, it changes nothing. */
    method SweepExpiredAdjudications(now: Instant) returns (r: SweepResult)
      requires persistence.Valid() && sweeper.persistence == persistence
      modifies persistence, persistence.home
      ensures persistence.Valid()
      ensures Extends(old(persistence.Committed()), persistence.Committed(), now)
      ensures r == SweepFailed ==> old(persistence.state) != Idle || persistence.Failures() > old(persistence.Failures())
      // Of each challenger that awaits an answer the first of its due rows is set to expired, and no other
      // row changes.
      ensures hasPendingStore && r.Swept? && Quiet(old(persistence.Committed()), now) ==>
                var before, after := old(persistence.Committed()), persistence.Committed();
                && |after.pending| == |before.pending|
                && forall k :: 0 <= k < |before.pending| ==>
                     after.pending[k] == if DueFirst(before.pending, k, now) && Awaits(before, before.pending[k].challenger)
                                         then before.pending[k].(status := ExpiredRow) else before.pending[k]
      ensures hasPendingStore && r.Swept? && Quiet(old(persistence.Committed()), now) ==>
                var before, after := old(persistence.Committed()), persistence.Committed();
                && r.count == |StrandedClaims(before, now)| == |after.ledger| - |before.ledger|
                && StrandedClaims(after, now) == {}
                && forall c :: LatestDispositionFromLedger(after.ledger, c)
                               == if c in StrandedClaims(before, now) then Some(Contested)
                                  else LatestDispositionFromLedger(before.ledger, c)
      ensures !hasPendingStore ==> r == Swept(0)
      ensures r.Swept? && (!hasPendingStore || StrandedClaims(old(persistence.Committed()), now) == {}) ==>
                r.count == 0 && persistence.Committed() == old(persistence.Committed())
    {
      if !hasPendingStore {
        return Swept(0);
      }
      ghost var t0 := persistence.Committed();
      var listed := persistence.Query();
      if listed.None? {
        return SweepFailed;
      }
      var expired := ListExpired(listed.value, now);
      var ok: bool, first: nat;
      ghost var reverted;
      ok, first, reverted := ExpireRows(expired, now, t0);
      if !ok {
        return SweepFailed;
      }
      ghost var t1 := persistence.Committed();
      listed := persistence.Query();
      if listed.None? {
        return SweepFailed;
      }
      var orphans := ListOrphanedClaims(listed.value);
      var second: nat;
      ghost var flips;
      ok, second, flips := RevertOrphans(orphans, now, t0, t1, reverted);
      if !ok {
        return SweepFailed;
      }
      if Quiet(t0, now) {
        RowsAreMarked(t0, t1, reverted, expired, now);
        SweepComplete(t0, t1, reverted, persistence.Committed(), flips, expired, ListQueuedOrphans(t1), now);
      }
      return Swept(first + second);
    }

    /** The first loop. `reverted` lists the claims it flipped. */
    method ExpireRows(expired: seq<Pending>, now: Instant, ghost t0: Tables) returns (ok: bool, swept: nat, ghost reverted: seq<ClaimRef>)
      requires persistence.Valid() && sweeper.persistence == persistence
      requires persistence.Committed() == t0 && expired == ListExpired(t0, now)
      modifies persistence, persistence.home
      ensures persistence.Valid() && Extends(t0, persistence.Committed(), now)
      ensures persistence.Failures() >= old(persistence.Failures()) && (ok ==> old(persistence.state) == Idle ==> persistence.state == Idle)
      ensures !ok ==> old(persistence.state) != Idle || persistence.Failures() > old(persistence.Failures())
      ensures ok ==> RowsDone(t0, persistence.Committed(), reverted, expired, |expired|, now) && swept == |reverted|
    {
      hide RowsDone, Progress, RevertStep, Extends, Awaits, Marked, ListExpired, IsQueued;
      ok, swept, reverted := true, 0, [];
      BeforeTheRows(t0, expired, now);
      for n := 0 to |expired|
        invariant persistence.Valid() && ok && swept == |reverted|
        invariant persistence.Failures() >= old(persistence.Failures())
        invariant old(persistence.state) == Idle ==> persistence.state == Idle
        invariant RowsDone(t0, persistence.Committed(), reverted, expired, n, now)
      {
        ghost var t := persistence.Committed();
        var result := sweeper.RevertExpiredRow(expired[n], now);
        if result == RevertFailed {
          ok := false;
          ProgressOfRows(t0, t, reverted, expired, n, now);
          StaysAppended(t0, t, reverted, expired[n].challenger, persistence.Committed(), now);
          return;
        }
        AfterExpiredRow(t0, t, reverted, expired, n, now, persistence.Committed(), result.yes);
        if result.yes {
          swept, reverted := swept + 1, reverted + [expired[n].challenger];
        }
      }
      ProgressOfRows(t0, persistence.Committed(), reverted, expired, |expired|, now);
      StaysAppended(t0, persistence.Committed(), reverted, 0, persistence.Committed(), now);
    }

    /** The second loop. */
    method RevertOrphans(orphans: seq<OrphanedClaim>, now: Instant, ghost t0: Tables, ghost t1: Tables, ghost first: seq<ClaimRef>)
      returns (ok: bool, swept: nat, ghost reverted: seq<ClaimRef>)
      requires persistence.Valid() && sweeper.persistence == persistence
      requires persistence.Committed() == t1 && Progress(t0, t1, first, now) && orphans == ListOrphanedClaims(t1)
      modifies persistence, persistence.home
      ensures persistence.Valid() && Extends(t0, persistence.Committed(), now)
      ensures persistence.Failures() >= old(persistence.Failures())
      ensures !ok ==> old(persistence.state) != Idle || persistence.Failures() > old(persistence.Failures())
      ensures ok ==> OrphansDone(t0, t1, first, persistence.Committed(), reverted, ListQueuedOrphans(t1), |orphans|, now)
                     && swept == |reverted| - |first|
    {
      hide OrphansDone, Progress, RevertStep, Extends, Awaits, Marked, ListOrphanedClaims, ListQueuedOrphans, IsQueued;
      ok, swept, reverted := true, 0, first;
      BeforeTheOrphans(t0, t1, first, now);
      ghost var challengers := ListQueuedOrphans(t1);
      for n := 0 to |orphans|
        invariant persistence.Valid() && ok && swept == |reverted| - |first|
        invariant persistence.Failures() >= old(persistence.Failures())
        invariant old(persistence.state) == Idle ==> persistence.state == Idle
        invariant OrphansDone(t0, t1, first, persistence.Committed(), reverted, challengers, n, now)
      {
        ghost var t := persistence.Committed();
        var result := sweeper.RevertOrphan(orphans[n], now);
        if result == RevertFailed {
          ok := false;
          ProgressOfOrphans(t0, t1, first, t, reverted, challengers, n, now);
          StaysAppended(t0, t, reverted, orphans[n].challenger, persistence.Committed(), now);
          return;
        }
        AfterOrphan(t0, t1, first, t, reverted, challengers, n, now, persistence.Committed(), result.yes);
        if result.yes {
          swept, reverted := swept + 1, reverted + [challengers[n]];
        }
      }
      ProgressOfOrphans(t0, t1, first, persistence.Committed(), reverted, challengers, |orphans|, now);
      StaysAppended(t0, persistence.Committed(), reverted, 0, persistence.Committed(), now);
    }
  }

  /** Contested entries of expired claims are all that is appended, and no row is added or removed. */
  ghost predicate Extends(t0: Tables, t: Tables, now: Instant) {
    && t0.claims == t.claims && t0.assertions == t.assertions && t0.edges == t.edges
    && |t.pending| == |t0.pending| && t0.ledger <= t.ledger
    && forall k :: |t0.ledger| <= k < |t.ledger| ==>
         t.ledger[k] == Entry(t.ledger[k].claim, AdjudicationExpired, Contested, None, now)
  }

  /** The loops' common invariant. */
  ghost predicate Progress(t0: Tables, t: Tables, flips: seq<ClaimRef>, now: Instant) {
    && Reverted(t0, t, flips, now)
    && (StrandedClaims(t0, now) == {} ==> flips == [])
  }

  /** The first `n` overdue rows have been worked off: the claims among them that were queued have been
      reverted, each with the first of its rows. */
  ghost predicate RowsDone(t0: Tables, t: Tables, flips: seq<ClaimRef>, expired: seq<Pending>, n: nat, now: Instant)
    requires n <= |expired|
  {
    && Progress(t0, t, flips, now)
    && (Quiet(t0, now) ==>
          && (forall k :: 0 <= k < n ==> !IsQueued(t, expired[k].challenger))
          && (forall c :: c in flips ==> exists k :: 0 <= k < n && expired[k].challenger == c)
          && LeadersMarked(t0, t.pending, expired, n))
  }

  ghost predicate LeadersMarked(t0: Tables, pending: seq<Pending>, expired: seq<Pending>, n: nat) {
    && |pending| == |t0.pending|
    && forall k :: 0 <= k < |pending| ==>
         pending[k] == if LedBy(t0, expired, n, t0.pending[k]) then t0.pending[k].(status := ExpiredRow) else t0.pending[k]
  }

  /** One more row, which leads the list or does not. */
  lemma LeadersAfterRow(t0: Tables, pending: seq<Pending>, expired: seq<Pending>, n: nat)
    requires HandlesDiffer(t0.pending) && LeadersMarked(t0, pending, expired, n) && n < |expired| && expired[n] in t0.pending
    ensures LeadersMarked(t0, if LeadsList(t0, expired, n) then WithStatus(pending, expired[n].handle, ExpiredRow) else pending, expired, n + 1)
  {
    hide IsQueued;
    forall k | 0 <= k < |pending|
      ensures LedBy(t0, expired, n + 1, t0.pending[k])
              <==> LedBy(t0, expired, n, t0.pending[k]) || (LeadsList(t0, expired, n) && expired[n] == t0.pending[k])
    {
    }
    var r :| 0 <= r < |t0.pending| && t0.pending[r] == expired[n];
    forall k | 0 <= k < |pending| && pending[k].handle == expired[n].handle ensures k == r {
    }
  }

  lemma BeforeTheRows(t0: Tables, expired: seq<Pending>, now: Instant)
    ensures RowsDone(t0, t0, [], expired, 0, now)
  {
    assert t0.ledger + Expiries([], now) == t0.ledger;
  }

  lemma BeforeTheOrphans(t0: Tables, t1: Tables, first: seq<ClaimRef>, now: Instant)
    requires Progress(t0, t1, first, now)
    ensures OrphansDone(t0, t1, first, t1, first, ListQueuedOrphans(t1), 0, now)
  {
  }

  lemma ProgressOfOrphans(t0: Tables, t1: Tables, first: seq<ClaimRef>, t: Tables, flips: seq<ClaimRef>,
                          orphans: seq<ClaimRef>, n: nat, now: Instant)
    requires n <= |orphans| && OrphansDone(t0, t1, first, t, flips, orphans, n, now)
    ensures Progress(t0, t, flips, now)
  {
  }

  lemma ProgressOfRows(t0: Tables, t: Tables, flips: seq<ClaimRef>, expired: seq<Pending>, n: nat, now: Instant)
    requires n <= |expired| && RowsDone(t0, t, flips, expired, n, now)
    ensures Progress(t0, t, flips, now)
  {
  }

  lemma RowsAreMarked(t0: Tables, t: Tables, flips: seq<ClaimRef>, expired: seq<Pending>, now: Instant)
    requires Quiet(t0, now) && expired == ListExpired(t0, now) && RowsDone(t0, t, flips, expired, |expired|, now)
    ensures |t.pending| == |t0.pending|
    ensures forall k :: 0 <= k < |t0.pending| ==>
              t.pending[k] == if DueFirst(t0.pending, k, now) && Awaits(t0, t0.pending[k].challenger)
                              then t0.pending[k].(status := ExpiredRow) else t0.pending[k]
  {
    forall k | 0 <= k < |t0.pending|
      ensures LedBy(t0, expired, |expired|, t0.pending[k]) <==> DueFirst(t0.pending, k, now) && Awaits(t0, t0.pending[k].challenger)
    {
      LeadsExactly(t0, now, k);
    }
  }

  /** The first `n` orphans have been worked off, after `first` had been reverted. */
  ghost predicate OrphansDone(t0: Tables, t1: Tables, first: seq<ClaimRef>, t: Tables, flips: seq<ClaimRef>,
                              orphans: seq<ClaimRef>, n: nat, now: Instant)
    requires n <= |orphans|
  {
    && Progress(t0, t, flips, now) && first <= flips && t.pending == t1.pending
    && (Quiet(t0, now) ==> forall k :: 0 <= k < n ==> !IsQueued(t, orphans[k]))
  }

  lemma StaysAppended(t0: Tables, t: Tables, flips: seq<ClaimRef>, c: ClaimRef, t': Tables, now: Instant)
    requires Progress(t0, t, flips, now)
    requires t' == t || t' == AppendEntry(t, ExpiredEntry(c, now))
    ensures Extends(t0, t', now)
  {
    ExpiriesAre(flips, now);
  }

  lemma {:induction false} ExpiriesAre(flips: seq<ClaimRef>, now: Instant)
    ensures forall k :: 0 <= k < |Expiries(flips, now)| ==>
              Expiries(flips, now)[k] == Entry(Expiries(flips, now)[k].claim, AdjudicationExpired, Contested, None, now)
  {
    if flips != [] {
      ExpiriesAre(flips[..|flips| - 1], now);
    }
  }

  /** The re-check finds the challenger queued exactly when its row leads the list. */
  lemma QueuedLeads(t0: Tables, t: Tables, flips: seq<ClaimRef>, expired: seq<Pending>, n: nat, now: Instant)
    requires n < |expired| && Quiet(t0, now) && RowsDone(t0, t, flips, expired, n, now)
    ensures IsQueued(t, expired[n].challenger) <==> LeadsList(t0, expired, n)
  {
    hide IsQueued, LeadersMarked, Reverted, Quiet, StrandedClaims;
    var c := expired[n].challenger;
    ReadingsAfterRevert(t0, t, flips, now, c);
    if c in flips {
      var k :| 0 <= k < n && expired[k].challenger == c;
    }
  }

  lemma RowReverted(t0: Tables, t: Tables, flips: seq<ClaimRef>, row: Pending, now: Instant, t': Tables)
    requires Progress(t0, t, flips, now) && row in ListExpired(t0, now)
    requires RevertStep(t, t', row.challenger, Some(row), now, true)
    ensures Progress(t0, t', flips + [row.challenger], now)
  {
    OverdueRowStrands(t0, t, flips, row, now);
    RevertOneMore(t0, t, flips, now, row.challenger, Some(row));
    assert flips == [] ==> row.challenger in StrandedClaims(t0, now);
  }

  lemma AfterExpiredRow(t0: Tables, t: Tables, flips: seq<ClaimRef>, expired: seq<Pending>, n: nat, now: Instant,
                        t': Tables, flipped: bool)
    requires n < |expired| && expired == ListExpired(t0, now) && RowsDone(t0, t, flips, expired, n, now)
    requires RevertStep(t, t', expired[n].challenger, Some(expired[n]), now, flipped)
    ensures RowsDone(t0, t', if flipped then flips + [expired[n].challenger] else flips, expired, n + 1, now)
  {
    hide IsQueued, LeadersMarked, Reverted, StrandedClaims, ListExpired, LeadsList;
    var row := expired[n];
    assert row in expired;
    if flipped {
      RowReverted(t0, t, flips, row, now, t');
    }
    if Quiet(t0, now) {
      QueuedLeads(t0, t, flips, expired, n, now);
      ListedWhenDue(t0, now, row);
      LeadersAfterRow(t0, t.pending, expired, n);
      if flipped {
        NoneRequeued(t0, t, flips, t', flips + [row.challenger], now);
        assert (flips + [row.challenger])[|flips|] == row.challenger;
      }
    }
  }

  lemma AfterOrphan(t0: Tables, t1: Tables, first: seq<ClaimRef>, t: Tables, flips: seq<ClaimRef>, orphans: seq<ClaimRef>,
                    n: nat, now: Instant, t': Tables, flipped: bool)
    requires Progress(t0, t1, first, now) && orphans == ListQueuedOrphans(t1)
    requires n < |orphans| && OrphansDone(t0, t1, first, t, flips, orphans, n, now)
    requires RevertStep(t, t', orphans[n], None, now, flipped)
    ensures OrphansDone(t0, t1, first, t', if flipped then flips + [orphans[n]] else flips, orphans, n + 1, now)
  {
    var c := orphans[n];
    if flipped {
      OrphanStrands(t0, t1, first, t, flips, c, now);
      RevertOneMore(t0, t, flips, now, c, None);
      if Quiet(t0, now) {
        NoneRequeued(t0, t, flips, t', flips + [c], now);
      }
      assert flips == [] ==> c in StrandedClaims(t0, now);
    }
  }

  lemma OverdueRowStrands(t0: Tables, t: Tables, flips: seq<ClaimRef>, row: Pending, now: Instant)
    requires Reverted(t0, t, flips, now) && row in ListExpired(t0, now) && IsQueued(t, row.challenger)
    ensures Quiet(t0, now) ==> Stranded(t0, row.challenger, now) && row.challenger !in flips
    ensures flips == [] ==> Stranded(t0, row.challenger, now)
  {
    assert HasOverdueRow(t0, row.challenger, now);
    if Quiet(t0, now) {
      ReadingsAfterRevert(t0, t, flips, now, row.challenger);
    }
  }

  lemma OrphanStrands(t0: Tables, t1: Tables, first: seq<ClaimRef>, t: Tables, flips: seq<ClaimRef>, c: ClaimRef, now: Instant)
    requires Reverted(t0, t1, first, now) && c in ListQueuedOrphans(t1)
    requires Reverted(t0, t, flips, now) && first <= flips && IsQueued(t, c)
    ensures Quiet(t0, now) ==> Stranded(t0, c, now) && c !in flips
    ensures flips == [] ==> Stranded(t0, c, now)
  {
    if Quiet(t0, now) {
      ReadingsAfterRevert(t0, t, flips, now, c);
      ReadingsAfterRevert(t0, t1, first, now, c);
    }
  }

  /** A claim that has left the queue stays out of it while more are reverted. */
  lemma NoneRequeued(t0: Tables, t: Tables, was: seq<ClaimRef>, t': Tables, flips: seq<ClaimRef>, now: Instant)
    requires Quiet(t0, now) && Reverted(t0, t, was, now) && Reverted(t0, t', flips, now) && was <= flips
    ensures forall c :: !IsQueued(t, c) ==> !IsQueued(t', c)
    ensures forall c :: c in flips ==> !IsQueued(t', c)
  {
    forall c ensures (!IsQueued(t, c) ==> !IsQueued(t', c)) && (c in flips ==> !IsQueued(t', c)) {
      ReadingsAfterRevert(t0, t, was, now, c);
      ReadingsAfterRevert(t0, t', flips, now, c);
    }
  }

  lemma QueuedOrphanIsListed(t: Tables, c: ClaimRef)
    requires c in t.claims && IsQueued(t, c) && !HasPendingRow(t, c)
    ensures c in ListQueuedOrphans(t)
  {
    QueuedInLog(t, c);
    LastLatestIsLast(t.ledger, c);
    var i :| LastLatestAt(t.ledger, c, i) && t.ledger[i] == LastLatest(t.ledger, c).value;
    assert OrphanEntry(t, t.ledger[i]);
  }

  /** A queued claim without a pending row is listed and due for reversion even when its line has no
      claim that reads CommittedCheap. */
  lemma OrphanWithoutIncumbentIsListed(t: Tables, c: ClaimRef, now: Instant)
    requires c in t.claims && IsQueued(t, c) && !HasPendingRow(t, c) && FindCommittedCheap(t, t.claims[c].line).None?
    ensures OrphanedClaim(c, None) in ListOrphanedClaims(t) && c in StrandedClaims(t, now)
  {
    QueuedOrphanIsListed(t, c);
    var k :| 0 <= k < |ListQueuedOrphans(t)| && ListQueuedOrphans(t)[k] == c;
    assert ListOrphanedClaims(t)[k] == OrphanedClaim(c, None);
  }

  /** A claim that is still queued then is waiting for its answer. */
  lemma QueuedAfterSweep(t0: Tables, t1: Tables, first: seq<ClaimRef>, t2: Tables, flips: seq<ClaimRef>,
                         expired: seq<Pending>, orphans: seq<ClaimRef>, now: Instant, c: ClaimRef)
    requires Quiet(t0, now)
    requires Reverted(t0, t1, first, now) && Reverted(t0, t2, flips, now) && first <= flips && t2.pending == t1.pending
    requires expired == ListExpired(t0, now) && orphans == ListQueuedOrphans(t1)
    requires forall k :: 0 <= k < |expired| ==> !IsQueued(t1, expired[k].challenger)
    requires forall k :: 0 <= k < |orphans| ==> !IsQueued(t2, orphans[k])
    requires c in t0.claims && IsQueued(t2, c)
    ensures !HasOverdueRow(t0, c, now) && HasPendingRow(t2, c)
  {
    hide IsQueued, LatestDispositionFromLedger;
    ReadingsAfterRevert(t0, t1, first, now, c);
    ReadingsAfterRevert(t0, t2, flips, now, c);
    forall k | 0 <= k < |t0.pending| && t0.pending[k].status == PendingRow && t0.pending[k].Overdue(now)
      ensures t0.pending[k] in expired
    {
    }
    if !HasPendingRow(t1, c) {
      QueuedOrphanIsListed(t1, c);
    }
  }

  /** Once both lists have been worked off, no stranded claim is left and `flips` is all of them. */
  lemma SweepComplete(t0: Tables, t1: Tables, first: seq<ClaimRef>, t2: Tables, flips: seq<ClaimRef>,
                      expired: seq<Pending>, orphans: seq<ClaimRef>, now: Instant)
    requires Quiet(t0, now)
    requires Reverted(t0, t1, first, now) && Reverted(t0, t2, flips, now) && first <= flips && t2.pending == t1.pending
    requires expired == ListExpired(t0, now) && orphans == ListQueuedOrphans(t1)
    requires forall k :: 0 <= k < |expired| ==> !IsQueued(t1, expired[k].challenger)
    requires forall k :: 0 <= k < |orphans| ==> !IsQueued(t2, orphans[k])
    ensures StrandedClaims(t2, now) == {}
    ensures |flips| == |StrandedClaims(t0, now)| == |t2.ledger| - |t0.ledger|
    ensures forall c :: LatestDispositionFromLedger(t2.ledger, c)
                        == if c in StrandedClaims(t0, now) then Some(Contested) else LatestDispositionFromLedger(t0.ledger, c)
  {
    hide IsQueued, HasPendingRow, HasOverdueRow, LatestDispositionFromLedger, ListQueuedOrphans, ListExpired;
    forall c | c in t0.claims && IsQueued(t2, c)
      ensures !HasOverdueRow(t0, c, now) && HasPendingRow(t2, c)
    {
      QueuedAfterSweep(t0, t1, first, t2, flips, expired, orphans, now, c);
    }
    forall c ensures c in flips <==> c in StrandedClaims(t0, now) {
      ReadingsAfterRevert(t0, t2, flips, now, c);
    }
    forall c ensures LatestDispositionFromLedger(t2.ledger, c)
                     == if c in StrandedClaims(t0, now) then Some(Contested) else LatestDispositionFromLedger(t0.ledger, c)
    {
      ReadingsAfterRevert(t0, t2, flips, now, c);
    }
    forall c | c in t2.claims ensures !Stranded(t2, c, now) {
      ReadingsAfterRevert(t0, t2, flips, now, c);
    }
    DistinctCount(flips, StrandedClaims(t0, now));
    ExpiriesLength(flips, now);
  }

  lemma {:induction false} ExpiriesLength(flips: seq<ClaimRef>, now: Instant)
    ensures |Expiries(flips, now)| == |flips|
  {
    if flips != [] {
      ExpiriesLength(flips[..|flips| - 1], now);
    }
  }
}
