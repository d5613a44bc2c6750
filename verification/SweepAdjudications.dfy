/** The sweep: overdue rows and orphaned queued claims go back to Contested. */
module SweepAdjudications {
  import opened Ledger
  import opened LedgerReadings
  import opened StableSort
  import opened Store
  import opened SqliteStore
  import opened SubmitAdjudication

  datatype RevertResult = Flipped(yes: bool) | RevertFailed

  datatype SweepResult = Swept(count: nat) | SweepFailed

  /** The entries a sweep appends, one for each claim it flips. */
  function Expiries(flips: seq<ClaimRef>, now: Instant): seq<Entry> {
    if flips == [] then [] else Expiries(flips[..|flips| - 1], now) + [ExpiredEntry(flips[|flips| - 1], now)]
  }

  /** What a reversion without a failure does: the re-check decides, and a flip appends the entry and
      marks the row, if one led to it. */
  predicate RevertStep(before: Tables, after: Tables, c: ClaimRef, row: Option<Pending>, now: Instant, flipped: bool) {
    && flipped == IsQueued(before, c)
    && if flipped then
         var t := AppendEntry(before, ExpiredEntry(c, now));
         c in before.claims && after == if row.Some? then MarkStatus(t, row.value.handle, ExpiredRow) else t
       else after == before
  }

  class SweepAdjudicationsUseCase {
    const persistence: SqlitePersistenceStore

    constructor (store: SqlitePersistenceStore)
      ensures persistence == store
    {
      persistence := store;
    }

    /** The re-check and the entry, shared by both kinds of reversion. */
    method Revert(challenger: ClaimRef, now: Instant) returns (r: RevertResult)
      requires persistence.Valid()
      modifies persistence, persistence.home
      ensures persistence.Valid()
      ensures r != RevertFailed ==> persistence.state == Idle
      ensures persistence.Failures() >= old(persistence.Failures())
      ensures r == RevertFailed ==> old(persistence.state) != Idle || persistence.Failures() > old(persistence.Failures())
      ensures var before, after := old(persistence.Committed()), persistence.Committed();
              if r.Flipped? then RevertStep(before, after, challenger, None, now, r.yes) else after == before
    {
      var tables := persistence.Query();
      if tables.None? {
        return RevertFailed;
      }
      if !IsQueued(tables.value, challenger) {
        return Flipped(false);
      }
      var ok := CommitExpiry(challenger, now);
      r := if ok then Flipped(true) else RevertFailed;
    }

    /** The Contested entry, in a transaction of its own. */
    method CommitExpiry(challenger: ClaimRef, now: Instant) returns (ok: bool)
      requires persistence.Valid() && persistence.state == Idle
      modifies persistence, persistence.home
      ensures persistence.Valid() && (ok ==> persistence.state == Idle)
      ensures persistence.Failures() >= old(persistence.Failures()) + if ok then 0 else 1
      ensures if ok then challenger in old(persistence.Committed()).claims
                         && persistence.Committed() == AppendEntry(old(persistence.Committed()), ExpiredEntry(challenger, now))
              else persistence.Committed() == old(persistence.Committed())
    {
      var txn := persistence.BeginAtomic();
      if txn == null {
        return false;
      }
      ok := persistence.Append(txn, InsertEntry(ExpiredEntry(challenger, now)));
      if !ok {
        var _ := persistence.Rollback(txn);
        return;
      }
      ok := persistence.Commit(txn);
    }

    /** `revert_expired_row`: the row is marked after the commit, and only if its challenger was
        flipped by this call. */
    method RevertExpiredRow(row: Pending, now: Instant) returns (r: RevertResult)
      requires persistence.Valid()
      modifies persistence, persistence.home
      ensures persistence.Valid() && (r != RevertFailed ==> persistence.state == Idle)
      ensures var before, after := old(persistence.Committed()), persistence.Committed();
              if r.Flipped? then RevertStep(before, after, row.challenger, Some(row), now, r.yes)
              else after == before || RevertStep(before, after, row.challenger, None, now, true)
      // A reversion appends one Contested entry and sets the row to expired; it happens exactly when the
      // challenger awaits an answer, and only a failing store can prevent it or part the two writes.
      ensures var before, after := old(persistence.Committed()), persistence.Committed();
              match r
              case Flipped(yes) =>
                && yes == Awaits(before, row.challenger)
                && if yes then
                     && after == before.(ledger := before.ledger + [Entry(row.challenger, AdjudicationExpired, Contested, None, now)],
                                         pending := after.pending)
                     && Marked(before.pending, after.pending, row.handle, ExpiredRow)
                   else after == before
              case RevertFailed =>
                && (old(persistence.state) != Idle || persistence.Failures() > old(persistence.Failures()))
                && (after == before
                    || after == before.(ledger := before.ledger + [Entry(row.challenger, AdjudicationExpired, Contested, None, now)]))
      ensures persistence.Failures() >= old(persistence.Failures())
    {
      AwaitsIsQueued(persistence.Committed(), row.challenger);
      r := Revert(row.challenger, now);
      if r == Flipped(true) {
        var ok := persistence.ExecuteNow(UpdateStatus(row.handle, ExpiredRow));
        if !ok {
          r := RevertFailed;
        }
      }
    }

    /** `revert_orphan`: with an incumbent or without one. */
    method RevertOrphan(orphan: OrphanedClaim, now: Instant) returns (r: RevertResult)
      requires persistence.Valid()
      modifies persistence, persistence.home
      ensures persistence.Valid() && (r != RevertFailed ==> persistence.state == Idle)
      ensures var before, after := old(persistence.Committed()), persistence.Committed();
              if r.Flipped? then RevertStep(before, after, orphan.challenger, None, now, r.yes) else after == before
      ensures var before, after := old(persistence.Committed()), persistence.Committed();
              match r
              case Flipped(yes) =>
                && yes == Awaits(before, orphan.challenger)
                && after == if yes then before.(ledger := before.ledger + [Entry(orphan.challenger, AdjudicationExpired, Contested, None, now)])
                            else before
              case RevertFailed => old(persistence.state) != Idle || persistence.Failures() > old(persistence.Failures())
      ensures persistence.Failures() >= old(persistence.Failures())
    {
      AwaitsIsQueued(persistence.Committed(), orphan.challenger);
      r := Revert(orphan.challenger, now);
    }
  }

  // ---- What a whole sweep does --------------------------------------------------------------

  predicate HasOverdueRow(t: Tables, claim: ClaimRef, now: Instant) {
    exists k :: 0 <= k < |t.pending|
             && t.pending[k].challenger == claim && t.pending[k].status == PendingRow && t.pending[k].Overdue(now)
  }

  /** A queued claim that a sweep at `now` is there to revert. */
  predicate Stranded(t: Tables, claim: ClaimRef, now: Instant) {
    IsQueued(t, claim) && (HasOverdueRow(t, claim, now) || !HasPendingRow(t, claim))
  }

  function StrandedClaims(t: Tables, now: Instant): set<ClaimRef> {
    set c | c in t.claims && Stranded(t, c, now)
  }

  /** The sweep's clock reading is later than every recorded time, and row handles are keys. */
  ghost predicate Quiet(t: Tables, now: Instant) {
    && (forall e :: e in t.ledger ==> e.recordedAt < now)
    && (forall i, j :: 0 <= i < j < |t.pending| ==> t.pending[i].handle != t.pending[j].handle)
  }

  /** `p` is `p0` with some rows of reverted challengers marked expired. */
  ghost predicate RowsMarked(p0: seq<Pending>, p: seq<Pending>, flips: seq<ClaimRef>) {
    && |p| == |p0|
    && forall k :: 0 <= k < |p| ==>
         p[k] == p0[k] || (p[k] == p0[k].(status := ExpiredRow) && p0[k].challenger in flips)
  }

  /** `t` is `t0` with the entries of `flips` appended and nothing else but row marks changed; in a
      quiet store each of them is a different stranded claim, and only rows of theirs are marked. */
  ghost predicate Reverted(t0: Tables, t: Tables, flips: seq<ClaimRef>, now: Instant) {
    && t == t0.(ledger := t0.ledger + Expiries(flips, now), pending := t.pending) && |t.pending| == |t0.pending|
    && (flips == [] ==> t == t0)
    && (Quiet(t0, now) ==>
          && RowsMarked(t0.pending, t.pending, flips) && Distinct(flips)
          && forall c :: c in flips ==> c in t0.claims && Stranded(t0, c, now))
  }

  lemma {:induction false} LatestAfterExpiries(t0: Tables, flips: seq<ClaimRef>, now: Instant, c: ClaimRef)
    requires forall e :: e in t0.ledger ==> e.recordedAt < now
    ensures var l := LastLatest(t0.ledger + Expiries(flips, now), c);
            if c in flips then l == Some(ExpiredEntry(c, now)) else l == LastLatest(t0.ledger, c)
  {
    if flips == [] {
      assert t0.ledger + Expiries(flips, now) == t0.ledger;
    } else {
      var p, x := flips[..|flips| - 1], flips[|flips| - 1];
      assert flips == p + [x];
      LatestAfterExpiries(t0, p, now, c);
      assert t0.ledger + Expiries(flips, now) == (t0.ledger + Expiries(p, now)) + [ExpiredEntry(x, now)];
      LastLatestAfterAppend(t0.ledger + Expiries(p, now), ExpiredEntry(x, now), c);
      LatestIsStored(t0.ledger, c);
    }
  }

  lemma LatestIsStored(ledger: seq<Entry>, c: ClaimRef)
    ensures LastLatest(ledger, c).Some? ==> LastLatest(ledger, c).value in ledger
  {
    LastLatestIsLast(ledger, c);
  }

  /** In a quiet store a reverted claim is Contested and every other claim keeps its reading. */
  lemma ReadingsAfterRevert(t0: Tables, t: Tables, flips: seq<ClaimRef>, now: Instant, c: ClaimRef)
    requires Reverted(t0, t, flips, now) && Quiet(t0, now)
    ensures LatestDispositionFromLedger(t.ledger, c)
            == if c in flips then Some(Contested) else LatestDispositionFromLedger(t0.ledger, c)
    ensures IsQueued(t, c) <==> IsQueued(t0, c) && c !in flips
    ensures c !in flips ==> HasPendingRow(t, c) == HasPendingRow(t0, c) && HasOverdueRow(t, c, now) == HasOverdueRow(t0, c, now)
  {
    LatestAfterExpiries(t0, flips, now, c);
    QueuedInLog(t, c);
    QueuedInLog(t0, c);
    if c !in flips {
      forall k | 0 <= k < |t.pending| && t0.pending[k].challenger == c ensures t.pending[k] == t0.pending[k] {
      }
      forall k | 0 <= k < |t.pending| ensures t.pending[k].challenger == t0.pending[k].challenger {
      }
    }
  }

  lemma MarkOneMore(p0: seq<Pending>, p: seq<Pending>, flips: seq<ClaimRef>, row: Pending)
    requires RowsMarked(p0, p, flips) && row in p0
    requires forall i, j :: 0 <= i < j < |p0| ==> p0[i].handle != p0[j].handle
    ensures RowsMarked(p0, WithStatus(p, row.handle, ExpiredRow), flips + [row.challenger])
  {
    var r :| 0 <= r < |p0| && p0[r] == row;
    forall k | 0 <= k < |p0| && p0[k].handle == row.handle ensures k == r {
    }
  }

  /** One more claim reverted, with the row that led to it, if any. */
  lemma RevertOneMore(t0: Tables, t: Tables, flips: seq<ClaimRef>, now: Instant, c: ClaimRef, row: Option<Pending>)
    requires Reverted(t0, t, flips, now) && c in t.claims
    requires row.Some? ==> row.value in t0.pending && row.value.challenger == c
    requires Quiet(t0, now) ==> Stranded(t0, c, now) && c !in flips
    ensures var t1 := AppendEntry(t, ExpiredEntry(c, now));
            Reverted(t0, if row.Some? then MarkStatus(t1, row.value.handle, ExpiredRow) else t1, flips + [c], now)
  {
    assert (flips + [c])[..|flips|] == flips;
    assert t0.ledger + Expiries(flips + [c], now) == (t0.ledger + Expiries(flips, now)) + [ExpiredEntry(c, now)];
    if Quiet(t0, now) {
      if row.Some? {
        MarkOneMore(t0.pending, t.pending, flips, row.value);
      }
      assert Distinct(flips + [c]);
    }
  }

  lemma {:induction false} DistinctCount(flips: seq<ClaimRef>, s: set<ClaimRef>)
    requires Distinct(flips) && forall c :: c in flips <==> c in s
    ensures |flips| == |s|
  {
    if flips == [] {
      assert s == {};
    } else {
      var p, x := flips[..|flips| - 1], flips[|flips| - 1];
      assert flips == p + [x];
      forall c ensures c in p <==> c in s - {x} {
        if c in p {
          var i :| 0 <= i < |p| && p[i] == c;
          assert flips[i] != x;
        }
      }
      DistinctCount(p, s - {x});
      assert x in flips;
    }
  }

  // ---- Which rows a sweep marks -------------------------------------------------------------

  predicate Due(row: Pending, now: Instant) {
    row.status == PendingRow && row.expiresAt.Some? && row.expiresAt.value <= now
  }

  /** Row `k` is due, and ahead of every other due row of its challenger: by its deadline, or by its
      place when the deadlines tie. */
  ghost predicate DueFirst(pending: seq<Pending>, k: int, now: Instant) {
    && 0 <= k < |pending| && Due(pending[k], now)
    && forall m :: 0 <= m < |pending| && m != k && Due(pending[m], now) && pending[m].challenger == pending[k].challenger ==>
         pending[k].expiresAt.value < pending[m].expiresAt.value
         || (pending[k].expiresAt.value == pending[m].expiresAt.value && k < m)
  }

  /** With one row for each challenger, as on every run, the first due row is the due one. */
  lemma OnlyRowIsFirst(pending: seq<Pending>, k: int, now: Instant)
    requires forall i, j :: 0 <= i < j < |pending| ==> pending[i].challenger != pending[j].challenger
    ensures DueFirst(pending, k, now) <==> 0 <= k < |pending| && Due(pending[k], now)
  {
  }

  /** With two it is not: the second is due, but its challenger has left the queue when it is reached. */
  lemma SecondRowIsNotFirst(c: ClaimRef, i: ClaimRef)
    ensures var pending := [Pending(1, c, i, 0, Some(1), PendingRow), Pending(2, c, i, 0, Some(2), PendingRow)];
            Due(pending[1], 3) && DueFirst(pending, 0, 3) && !DueFirst(pending, 1, 3)
  {
    var pending := [Pending(1, c, i, 0, Some(1), PendingRow), Pending(2, c, i, 0, Some(2), PendingRow)];
    assert Due(pending[0], 3);
  }

  ghost predicate HandlesDiffer(pending: seq<Pending>) {
    forall i, j :: 0 <= i < j < |pending| ==> pending[i].handle != pending[j].handle
  }

  lemma DeadlinesOrder()
    ensures OrdersByKey(DeadlineFirst)
  {
  }

  lemma {:induction false} OverdueHandlesDiffer(pending: seq<Pending>, now: Instant)
    requires HandlesDiffer(pending)
    ensures HandlesDiffer(OverdueRows(pending, now))
  {
    if pending != [] {
      OverdueHandlesDiffer(pending[..|pending| - 1], now);
    }
  }

  lemma {:induction false} OverdueInOrder(pending: seq<Pending>, now: Instant, k: nat, m: nat) returns (i: nat, j: nat)
    requires k < m < |pending| && Due(pending[k], now) && Due(pending[m], now)
    ensures var rows := OverdueRows(pending, now); i < j < |rows| && rows[i] == pending[k] && rows[j] == pending[m]
  {
    var p := pending[..|pending| - 1];
    if m < |p| {
      i, j := OverdueInOrder(p, now, k, m);
    } else {
      assert p[k] in OverdueRows(p, now);
      i :| 0 <= i < |OverdueRows(p, now)| && OverdueRows(p, now)[i] == p[k];
      j := |OverdueRows(p, now)|;
    }
  }

  /** Row `k` is listed ahead of row `m`. */
  lemma ListedInOrder(t: Tables, now: Instant, k: nat, m: nat) returns (p: nat, q: nat)
    requires k < |t.pending| && m < |t.pending| && k != m && Due(t.pending[k], now) && Due(t.pending[m], now)
    requires t.pending[k].expiresAt.value < t.pending[m].expiresAt.value
             || (t.pending[k].expiresAt.value == t.pending[m].expiresAt.value && k < m)
    ensures var l := ListExpired(t, now); p < q < |l| && l[p] == t.pending[k] && l[q] == t.pending[m]
  {
    DeadlinesOrder();
    hide OrdersByKey, Sort, OverdueRows;
    var rows := OverdueRows(t.pending, now);
    if k < m {
      var i, j := OverdueInOrder(t.pending, now, k, m);
      p, q := SortIsStable(rows, i, j, DeadlineFirst);
    } else {
      var j, i := OverdueInOrder(t.pending, now, m, k);
      p, q := SortPutsAhead(rows, i, j, DeadlineFirst);
    }
  }

  /** No row is listed twice. */
  lemma ListedOnce(t: Tables, now: Instant)
    requires HandlesDiffer(t.pending)
    ensures HandlesDiffer(ListExpired(t, now))
  {
    OverdueHandlesDiffer(t.pending, now);
    hide OverdueRows, Sort;
    var rows, l := OverdueRows(t.pending, now), ListExpired(t, now);
    DistinctPermutation(rows, l);
    forall i, j | 0 <= i < j < |l| ensures l[i].handle != l[j].handle {
      assert l[i] in multiset(rows) && l[j] in multiset(rows);
      var a :| 0 <= a < |rows| && rows[a] == l[i];
      var b :| 0 <= b < |rows| && rows[b] == l[j];
      assert a < b || b < a;
    }
  }

  /** The list's `i`-th row is the first of its challenger, which is queued. */
  ghost predicate LeadsList(t: Tables, l: seq<Pending>, i: int) {
    && 0 <= i < |l| && IsQueued(t, l[i].challenger)
    && forall j :: 0 <= j < i ==> l[j].challenger != l[i].challenger
  }

  ghost predicate LedBy(t: Tables, l: seq<Pending>, n: nat, row: Pending) {
    exists i :: 0 <= i < n && LeadsList(t, l, i) && l[i] == row
  }

  lemma TwoPlaces(l: seq<Pending>, i: int, j: int)
    requires HandlesDiffer(l) && 0 <= i < j < |l|
    ensures l[i] != l[j]
  {
  }

  lemma SamePositions(l: seq<Pending>, p: int, q: int, i: int, j: int)
    requires HandlesDiffer(l) && 0 <= p < q < |l| && 0 <= i < |l| && 0 <= j < |l| && l[p] == l[i] && l[q] == l[j]
    ensures i < j
  {
  }

  lemma ListedWhenDue(t: Tables, now: Instant, row: Pending)
    ensures row in ListExpired(t, now) <==> row in t.pending && Due(row, now)
  {
  }

  lemma LeaderIsFirst(t: Tables, now: Instant, k: nat, i: nat)
    requires HandlesDiffer(t.pending) && k < |t.pending|
    requires var l := ListExpired(t, now); LeadsList(t, l, i) && l[i] == t.pending[k]
    ensures DueFirst(t.pending, k, now)
  {
    hide ListExpired, IsQueued;
    var l := ListExpired(t, now);
    ListedOnce(t, now);
    assert l[i] in l;
    ListedWhenDue(t, now, l[i]);
    forall m | 0 <= m < |t.pending| && m != k && Due(t.pending[m], now) && t.pending[m].challenger == t.pending[k].challenger
      ensures t.pending[k].expiresAt.value < t.pending[m].expiresAt.value
              || (t.pending[k].expiresAt.value == t.pending[m].expiresAt.value && k < m)
    {
      if !(t.pending[k].expiresAt.value < t.pending[m].expiresAt.value
           || (t.pending[k].expiresAt.value == t.pending[m].expiresAt.value && k < m)) {
        var p, q := ListedInOrder(t, now, m, k);
        SamePositions(l, p, q, p, i);
      }
    }
  }

  lemma FirstLeads(t: Tables, now: Instant, k: nat) returns (i: nat)
    requires HandlesDiffer(t.pending) && DueFirst(t.pending, k, now) && IsQueued(t, t.pending[k].challenger)
    ensures var l := ListExpired(t, now); LeadsList(t, l, i) && l[i] == t.pending[k]
  {
    hide ListExpired, IsQueued, HandlesDiffer;
    var l := ListExpired(t, now);
    ListedOnce(t, now);
    ListedWhenDue(t, now, t.pending[k]);
    i :| 0 <= i < |l| && l[i] == t.pending[k];
    forall j | 0 <= j < i ensures l[j].challenger != l[i].challenger {
      assert l[j] in l;
      ListedWhenDue(t, now, l[j]);
      if l[j].challenger == l[i].challenger {
        var m :| 0 <= m < |t.pending| && t.pending[m] == l[j];
        TwoPlaces(l, j, i);
        var p, q := ListedInOrder(t, now, k, m);
        SamePositions(l, p, q, i, j);
      }
    }
  }

  /** A row leads the list exactly when it is due, ahead of its challenger's other due rows, and its
      challenger awaits an answer. */
  lemma LeadsExactly(t: Tables, now: Instant, k: nat)
    requires HandlesDiffer(t.pending) && k < |t.pending|
    ensures LedBy(t, ListExpired(t, now), |ListExpired(t, now)|, t.pending[k])
            <==> DueFirst(t.pending, k, now) && Awaits(t, t.pending[k].challenger)
  {
    hide HandlesDiffer, IsQueued, Awaits, ListExpired, DueFirst;
    var l, row := ListExpired(t, now), t.pending[k];
    AwaitsIsQueued(t, row.challenger);
    if LedBy(t, l, |l|, row) {
      var i :| 0 <= i < |l| && LeadsList(t, l, i) && l[i] == row;
      LeaderIsFirst(t, now, k, i);
    }
    if DueFirst(t.pending, k, now) && IsQueued(t, row.challenger) {
      var i := FirstLeads(t, now, k);
    }
  }
}
