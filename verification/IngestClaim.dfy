/** `ingest_claim`, from the gate's decision on: the atomic commit, then the pending row. */
module IngestClaim {
  import opened Ledger
  import opened Store
  import opened SqliteStore

  /** The dispositions the gate can emit. */
  predicate GateDisposition(d: Disposition) {
    d in {CommittedCheap, CommittedInferred, Quarantined, Contested, QueuedForAdjudication}
  }

  datatype Firewall = CorroborateByIdentity(existing: ClaimRef) | Park | Admit

  /** The oracle's answer to a request, when one is configured. */
  datatype Oracle = NoOracle | Accepts(handle: Uuid) | Refuses

  datatype IngestError = PersistenceFailure | OracleError | PendingStoreError

  datatype IngestResult =
    | Committed(claim: ClaimRef, disposition: Disposition, contestedWith: Option<ClaimRef>)
    | Failed(error: IngestError)

  function CommitEntry(ref: ClaimRef, d: Disposition, now: Instant): Entry {
    Entry(ref, ClaimCommitted, d, None, now)
  }

  function LineageEdge(ref: ClaimRef, parent: ClaimRef, now: Instant): Edge {
    Edge(ref, parent, DerivedFrom, now)
  }

  function LineageEdges(ref: ClaimRef, parents: seq<ClaimRef>, now: Instant): (r: seq<Edge>)
    ensures |r| == |parents| && forall k :: 0 <= k < |r| ==> r[k] == Edge(ref, parents[k], DerivedFrom, now)
  {
    if parents == [] then []
    else LineageEdges(ref, parents[..|parents| - 1], now) + [LineageEdge(ref, parents[|parents| - 1], now)]
  }

  /** All that one ingest commits. */
  function CommitClaim(t: Tables, ref: ClaimRef, claim: Claim, d: Disposition, now: Instant): Tables {
    t.(claims := t.claims[ref := claim],
       ledger := t.ledger + [CommitEntry(ref, d, now)],
       edges := t.edges + LineageEdges(ref, claim.derivedFrom, now))
  }

  /** One claim, its entry, and an edge to each parent in order; the rest stays as it is. */
  lemma CommitWrites(t: Tables, ref: ClaimRef, claim: Claim, d: Disposition, now: Instant)
    ensures var t' := CommitClaim(t, ref, claim, d, now);
            && t'.claims == t.claims[ref := claim]
            && t'.ledger == t.ledger + [Entry(ref, ClaimCommitted, d, None, now)]
            && t'.assertions == t.assertions && t'.pending == t.pending
            && |t'.edges| == |t.edges| + |claim.derivedFrom|
            && (forall k :: 0 <= k < |t.edges| ==> t'.edges[k] == t.edges[k])
            && forall k :: 0 <= k < |claim.derivedFrom| ==> t'.edges[|t.edges| + k] == Edge(ref, claim.derivedFrom[k], DerivedFrom, now)
  {
  }

  class IngestClaimUseCase {
    const persistence: SqlitePersistenceStore
    const hasPendingStore: bool
    const ttl: Option<nat>

    constructor (store: SqlitePersistenceStore, hasPendingStore: bool, ttl: Option<nat>)
      ensures persistence == store && this.hasPendingStore == hasPendingStore && this.ttl == ttl
    {
      this.persistence, this.hasPendingStore, this.ttl := store, hasPendingStore, ttl;
    }

    /** `execute_with_time`. `ref` is the minted claim reference; the firewall's verdict, the gate's
        disposition and the incumbent are whatever the earlier stages make of the stored claims. */
    method ExecuteWithTime(ref: ClaimRef, claim: Claim, firewall: Firewall, d: Disposition,
                           incumbent: Option<ClaimRef>, oracle: Oracle, now: Instant) returns (r: IngestResult)
      requires persistence.Valid()
      modifies persistence, persistence.home
      ensures persistence.Valid()
      // A corroborated claim is answered by the existing one, a parked one is quarantined unwritten.
      ensures firewall.CorroborateByIdentity? ==> r == Committed(firewall.existing, CommittedCheap, None)
      ensures firewall.Park? ==> r == Committed(ref, Quarantined, None)
      ensures !firewall.Admit? ==> persistence.Committed() == old(persistence.Committed())
      // Otherwise claim, ledger entry and lineage edges appear together or not at all, and the answer
      // says which. Without a failure of the store they appear, and a claim that was queued with success
      // has its pending row.
      ensures firewall.Admit? ==>
                var before, after := old(persistence.Committed()), persistence.Committed();
                var committed := CommitClaim(before, ref, claim, d, now);
                var asked := d == QueuedForAdjudication && !oracle.NoOracle? && hasPendingStore && incumbent.Some?;
                var failed := persistence.Failures() > old(persistence.Failures());
                match r
                case Failed(PersistenceFailure) => after == before && (failed || old(persistence.state) != Idle)
                case Failed(OracleError) => after == committed && asked && oracle.Refuses?
                case Failed(PendingStoreError) => after == committed && asked && oracle.Accepts? && failed
                case Committed(c, e, other) =>
                  && c == ref && e == d && ref !in before.claims && (asked ==> oracle.Accepts?)
                  && other == (if d == Contested || d == QueuedForAdjudication then incumbent else None)
                  && after == committed.(pending := before.pending +
                       if asked then
                         [Pending(oracle.handle, ref, incumbent.value, now, if ttl.Some? then Some(now + ttl.value) else None, PendingRow)]
                       else [])
    {
      hide CommitClaim, RowIndex;
      CommitWrites(persistence.Committed(), ref, claim, d, now);
      assert persistence.Committed().pending + [] == persistence.Committed().pending;
      match firewall {
        case CorroborateByIdentity(existing) => return Committed(existing, CommittedCheap, None);
        case Park => return Committed(ref, Quarantined, None);
        case Admit =>
      }
      var txn := persistence.BeginAtomic();
      if txn == null {
        return Failed(PersistenceFailure);
      }
      var ok := AppendWithinTxn(txn, ref, claim, d, now);
      if !ok {
        var _ := persistence.Rollback(txn);
        return Failed(PersistenceFailure);
      }
      ok := persistence.Commit(txn);
      if !ok {
        return Failed(PersistenceFailure);
      }

      // The queue is told after the commit, in a write of its own.
      if d == QueuedForAdjudication && hasPendingStore && incumbent.Some? {
        match oracle {
          case NoOracle =>
          case Accepts(handle) =>
            var expiresAt := if ttl.Some? then Some(now + ttl.value) else None;
            ok := persistence.ExecuteNow(InsertPendingRow(Pending(handle, ref, incumbent.value, now, expiresAt, PendingRow)));
            if !ok {
              return Failed(PendingStoreError);
            }
          case Refuses =>
            return Failed(OracleError);
        }
      }
      return Committed(ref, d, if d == Contested || d == QueuedForAdjudication then incumbent else None);
    }

    /** `append_within_txn`. */
    method AppendWithinTxn(txn: SqliteTxn, ref: ClaimRef, claim: Claim, d: Disposition, now: Instant) returns (ok: bool)
      requires persistence.Holds(txn)
      modifies persistence.home
      ensures persistence.Holds(txn) && persistence.Committed() == old(persistence.Committed())
      ensures ok ==> ref !in old(persistence.Working()).claims
                     && persistence.Working() == CommitClaim(old(persistence.Working()), ref, claim, d, now)
      ensures !ok ==> persistence.Failures() > old(persistence.Failures())
      ensures persistence.Failures() >= old(persistence.Failures())
    {
      ok := persistence.Append(txn, InsertClaim(ref, claim));
      if ok {
        ok := persistence.Append(txn, InsertEntry(CommitEntry(ref, d, now)));
      }
      if !ok {
        return;
      }
      ok := AppendLineage(txn, ref, claim.derivedFrom, now);
    }

    /** The DerivedFrom edges, one for each parent. */
    method AppendLineage(txn: SqliteTxn, ref: ClaimRef, parents: seq<ClaimRef>, now: Instant) returns (ok: bool)
      requires persistence.Holds(txn)
      modifies persistence.home
      ensures persistence.Holds(txn) && persistence.Committed() == old(persistence.Committed())
      ensures ok ==> var t := old(persistence.Working());
                     persistence.Working() == t.(edges := t.edges + LineageEdges(ref, parents, now))
      ensures persistence.Failures() == old(persistence.Failures()) + if ok then 0 else 1
    {
      ok := true;
      for n := 0 to |parents|
        invariant ok && persistence.Holds(txn) && persistence.Committed() == old(persistence.Committed())
        invariant persistence.Failures() == old(persistence.Failures())
        invariant var t := old(persistence.Working());
                  persistence.Working() == t.(edges := t.edges + LineageEdges(ref, parents[..n], now))
      {
        assert parents[..n + 1][..n] == parents[..n];
        ok := persistence.Append(txn, InsertEdge(LineageEdge(ref, parents[n], now)));
        if !ok {
          return;
        }
      }
      assert parents[..|parents|] == parents;
    }
  }
}
