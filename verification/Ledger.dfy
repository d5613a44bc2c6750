/** The values the engine keeps in its append-only logs. Identifiers are compared for equality
    only (assertion identifiers also for order, as a tie-breaker), and an instant is a number of
    nanoseconds on the UTC time line. A claim's identifier also fixes the agent it belongs to. */
module Ledger {

  type ClaimRef = nat
  type Uuid = nat
  type Instant = int

  datatype Option<+T> = None | Some(value: T)

  datatype Disposition =
    | CommittedCheap
    | CommittedInferred
    | QueuedForAdjudication
    | Contested
    | PendingConflict
    | PendingReview
    | PendingLowConfidence
    | Quarantined
    | Superseded
    | Invalidated
    | Reinstated
    | Rejected

  datatype EventKind =
    | ClaimCommitted
    | ValidityAsserted
    | AdjudicationRequested
    | AdjudicationResolved
    | RecallReEntryDetected
    | QuarantineEvent
    | DependentFlaggedPendingReview
    | ServedAsInjected
    | AdjudicationExpired

  /** One ledger entry. `verdict` is the string found under "verdict" in the entry's rationale,
      or `None` when the rationale has no such string. */
  datatype Entry = Entry(claim: ClaimRef, event: EventKind, disposition: Disposition,
                         verdict: Option<string>, recordedAt: Instant)

  const VERDICT_DENY := "deny"
  const VERDICT_AFFIRM := "affirm"
  const VERDICT_HOST_BOUND := "host_bound"

  predicate Earlier(a: Entry, b: Entry) {
    a.recordedAt < b.recordedAt
  }

  /** The entries of one claim, in the order they stand in the log. */
  function EntriesOf(ledger: seq<Entry>, claim: ClaimRef): (r: seq<Entry>)
    ensures forall e :: e in r <==> e in ledger && e.claim == claim
  {
    if ledger == [] then []
    else
      var rest := EntriesOf(ledger[..|ledger| - 1], claim);
      var last := ledger[|ledger| - 1];
      if last.claim == claim then rest + [last] else rest
  }

  lemma {:induction false} EntriesOfConcat(a: seq<Entry>, b: seq<Entry>, claim: ClaimRef)
    ensures EntriesOf(a + b, claim) == EntriesOf(a, claim) + EntriesOf(b, claim)
  {
    if b == [] {
      assert a + b == a;
    } else {
      var n := |a + b| - 1;
      assert (a + b)[..n] == a + b[..|b| - 1];
      EntriesOfConcat(a, b[..|b| - 1], claim);
    }
  }

  lemma {:induction false} EntriesOfMultiset(a: seq<Entry>, b: seq<Entry>, claim: ClaimRef)
    requires multiset(a) == multiset(b)
    ensures multiset(EntriesOf(a, claim)) == multiset(EntriesOf(b, claim))
  {
    forall e ensures multiset(EntriesOf(a, claim))[e] == multiset(EntriesOf(b, claim))[e] {
      EntriesOfCount(a, claim, e);
      EntriesOfCount(b, claim, e);
    }
  }

  lemma {:induction false} EntriesOfCount(a: seq<Entry>, claim: ClaimRef, e: Entry)
    ensures multiset(EntriesOf(a, claim))[e] == if e.claim == claim then multiset(a)[e] else 0
  {
    if a != [] {
      assert a == a[..|a| - 1] + [a[|a| - 1]];
      EntriesOfCount(a[..|a| - 1], claim, e);
    }
  }

  /** Every two entries of a claim carry different times. */
  ghost predicate DistinctTimes(ledger: seq<Entry>, claim: ClaimRef) {
    var es := EntriesOf(ledger, claim);
    forall i, j :: 0 <= i < j < |es| ==> es[i].recordedAt != es[j].recordedAt
  }
}
