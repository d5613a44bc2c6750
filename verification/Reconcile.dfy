/** `reconcile`: one pass appends an outcome for each live claim of the requested lines. It reads
    everything before it writes and never supersedes. */
module Reconcile {
  import opened Ledger
  import opened LedgerReadings
  import opened Validity
  import opened Store
  import opened IngestClaim

  /** Raw-live for the fold: not bound, and no disposition that excludes it. */
  predicate Live(t: Tables, c: ClaimRef, now: Instant) {
    && ActiveBoundAt(AssertionsFor(t.assertions, c), now).None?
    && DispositionOf(FirstLatest(LoadLedger(t, c), c)) !in {Some(Quarantined), Some(Superseded), Some(Invalidated), Some(Rejected)}
  }

  /** The gate's rationale carries no verdict. */
  function ReconcileEntry(c: ClaimRef, d: Disposition, now: Instant): Entry {
    Entry(c, AdjudicationResolved, d, None, now)
  }

  /** The pass may record `d` for `c`: any disposition the gate emits, Queued included. */
  predicate MayReconcile(t: Tables, c: ClaimRef, d: Disposition, now: Instant) {
    c in t.claims && Live(t, c, now) && GateDisposition(d)
  }

  lemma FirstOfLatest(es: seq<Entry>, c: ClaimRef, k: int)
    requires FirstLatestAt(es, c, k)
    ensures FirstLatest(es, c) == Some(es[k])
  {
    FirstLatestIsFirst(es, c);
    assert es[k] in EntriesOf(es, c);
    var i :| FirstLatestAt(es, c, i) && es[i] == FirstLatest(es, c).value;
    assert !(i < k) && !(k < i);
  }

  /** A pass leaves every claim alone that is bound, or whose latest outcome keeps it from being believed,
      and records only what the gate can decide. */
  lemma ReconcileSpares(t: Tables, c: ClaimRef, d: Disposition, now: Instant)
    requires MayReconcile(t, c, d, now)
    ensures c in t.claims && ActiveBoundAt(AssertionsFor(t.assertions, c), now).None?
    ensures forall k :: 0 <= k < |LoadLedger(t, c)| && FirstLatestAt(LoadLedger(t, c), c, k) ==>
              LoadLedger(t, c)[k].disposition !in {Quarantined, Superseded, Invalidated, Rejected}
    ensures d in {CommittedCheap, CommittedInferred, Quarantined, Contested, QueuedForAdjudication}
  {
    hide LoadLedger, ActiveBoundAt, FirstLatest, FirstLatestAt;
    var es := LoadLedger(t, c);
    forall k | 0 <= k < |es| && FirstLatestAt(es, c, k)
      ensures es[k].disposition !in {Quarantined, Superseded, Invalidated, Rejected}
    {
      FirstOfLatest(es, c, k);
    }
  }
}
