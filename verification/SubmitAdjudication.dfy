/** `submit_adjudication`: applies an oracle verdict to a queued challenger, or expires it lazily. */
module SubmitAdjudication {
  import opened Ledger
  import opened LedgerReadings
  import opened Validity
  import opened Store
  import opened SqliteStore

  datatype Verdict = Affirm | Deny | Unknown

  datatype SubmitError = HandleNotFound | ClaimMissing | PersistenceFailure | PendingStoreError

  datatype SubmitResult = Applied(claim: ClaimRef, disposition: Disposition) | Failed(error: SubmitError)

  function ExpiredEntry(claim: ClaimRef, now: Instant): Entry {
    Entry(claim, AdjudicationExpired, Contested, None, now)
  }

  function FlagEntry(dependent: ClaimRef, now: Instant): Entry {
    Entry(dependent, DependentFlaggedPendingReview, PendingReview, None, now)
  }

  /** The DependsOn cascade: one flag for each direct dependent, in edge order. */
  function Cascade(edges: seq<Edge>, target: ClaimRef, now: Instant): (r: seq<Entry>)
    ensures forall e :: e in r <==> exists k :: 0 <= k < |edges| && edges[k].kind == DependsOn && edges[k].to == target
                                                && e == Entry(edges[k].from, DependentFlaggedPendingReview, PendingReview, None, now)
    ensures forall i, j :: 0 <= i < j < |r| ==> r[i].claim != r[j].claim
  {
    if edges == [] then []
    else
      var rest, e := Cascade(edges[..|edges| - 1], target, now), edges[|edges| - 1];
      var flag := FlagEntry(e.from, now);
      assert forall x :: x in rest ==> x == FlagEntry(x.claim, now);
      if e.kind == DependsOn && e.to == target && flag !in rest then rest + [flag] else rest
  }

  lemma {:induction false} NoCascade(edges: seq<Edge>, target: ClaimRef, now: Instant)
    requires forall e :: e in edges ==> e.kind == DerivedFrom
    ensures Cascade(edges, target, now) == []
  {
    if edges != [] {
      NoCascade(edges[..|edges| - 1], target, now);
      assert edges[|edges| - 1] in edges;
    }
  }

  function BoundEntry(target: ClaimRef, verdict: string, now: Instant): Entry {
    Entry(target, ValidityAsserted, Superseded, Some(verdict), now)
  }

  /** `bound_claim`: a Bound, its Superseded entry, and the cascade. */
  function BoundClaim(t: Tables, target: ClaimRef, at: Instant, g: Option<DateGranularity>, verdict: string,
                      now: Instant, ref: Uuid): Tables
  {
    AppendEntries(AppendAssertion(t, Assertion(ref, target, Bound(at, g), now)),
                  [BoundEntry(target, verdict, now)] + Cascade(t.edges, target, now))
  }

  /** The outcome of an Affirm, for the challenger, or of an Unknown, for either claim. */
  function ResolvedEntry(claim: ClaimRef, d: Disposition, now: Instant): Entry {
    Entry(claim, AdjudicationResolved, d, Some(if d == CommittedCheap then "Affirm" else "Unknown"), now)
  }

  /** Where an Affirm closes the incumbent: at the challenger's start if that is to be trusted. */
  function AffirmBound(challenger: ValidTime, now: Instant): (Instant, Option<DateGranularity>) {
    if challenger.confident && challenger.start.Some? then (challenger.start.value, challenger.startGranularity)
    else (now, None)
  }

  function ApplyVerdict(t: Tables, row: Pending, verdict: Verdict, now: Instant, ref: Uuid): Tables
    requires row.challenger in t.claims
  {
    match verdict
    case Affirm =>
      var (at, g) := AffirmBound(t.claims[row.challenger].validTime, now);
      AppendEntry(BoundClaim(t, row.incumbent, at, g, VERDICT_AFFIRM, now, ref), ResolvedEntry(row.challenger, CommittedCheap, now))
    case Deny =>
      BoundClaim(t, row.challenger, now, None, VERDICT_DENY, now, ref)
    case Unknown =>
      AppendEntry(AppendEntry(t, ResolvedEntry(row.challenger, Contested, now)), ResolvedEntry(row.incumbent, Contested, now))
  }

  function FinalDisposition(verdict: Verdict): Disposition {
    match verdict
    case Affirm => CommittedCheap
    case Deny => Superseded
    case Unknown => Contested
  }

  /** How the use case treats a handle, before it writes anything. */
  datatype Plan = Reject(error: SubmitError) | Expire(row: Pending) | Resolve(row: Pending)

  function PlanFor(t: Tables, handle: Uuid, now: Instant): (p: Plan)
    ensures p.Expire? || p.Resolve? ==> p.row in t.pending && p.row.handle == handle && IsQueued(t, p.row.challenger)
    ensures p.Resolve? ==> p.row.challenger in t.claims
  {
    var found := GetPending(t, handle);
    if found.None? then Reject(HandleNotFound)
    else
      var row := found.value;
      if !IsQueued(t, row.challenger) then Reject(HandleNotFound)
      else if row.Overdue(now) then Expire(row)
      else if row.challenger !in t.claims then Reject(ClaimMissing)
      else Resolve(row)
  }

  /** The tables after the transaction, and after the row has been marked too. */
  function Commits(t: Tables, p: Plan, verdict: Verdict, now: Instant, ref: Uuid): Tables
    requires p.Resolve? ==> p.row.challenger in t.claims
  {
    match p
    case Reject(_) => t
    case Expire(row) => AppendEntry(t, ExpiredEntry(row.challenger, now))
    case Resolve(row) => ApplyVerdict(t, row, verdict, now, ref)
  }

  function Submit(t: Tables, handle: Uuid, verdict: Verdict, now: Instant, ref: Uuid): (Tables, SubmitResult) {
    var p := PlanFor(t, handle, now);
    var t' := Commits(t, p, verdict, now, ref);
    match p
    case Reject(error) => (t', Failed(error))
    case Expire(_) => (MarkStatus(t', handle, ExpiredRow), Failed(HandleNotFound))
    case Resolve(row) => (MarkStatus(t', handle, ResolvedRow), Applied(row.challenger, FinalDisposition(verdict)))
  }

  // ---- What an answer means -----------------------------------------------------------------

  /** `p` is `p0` with the rows of the handle set to `status`. */
  ghost predicate Marked(p0: seq<Pending>, p: seq<Pending>, handle: Uuid, status: Status) {
    && |p| == |p0|
    && forall k :: 0 <= k < |p| ==> p[k] == if p0[k].handle == handle then p0[k].(status := status) else p0[k]
  }

  /** The latest of the entries, the last one on ties, is a Queued entry. */
  ghost predicate LatestIsQueued(es: seq<Entry>) {
    exists i :: 0 <= i < |es| && es[i].disposition == QueuedForAdjudication
                && forall j :: 0 <= j < |es| ==> es[j].recordedAt <= es[i].recordedAt && (i < j ==> es[j].recordedAt < es[i].recordedAt)
  }

  /** So reads the claim's loaded slice. */
  ghost predicate Awaits(t: Tables, c: ClaimRef) {
    LatestIsQueued(LoadLedger(t, c))
  }

  lemma LatestOfSlice(es: seq<Entry>, c: ClaimRef)
    requires forall k :: 0 <= k < |es| ==> es[k].claim == c
    requires forall i, j :: 0 <= i < j < |es| ==> es[i].recordedAt <= es[j].recordedAt
    ensures LatestIsQueued(es) <==> LatestDispositionFromLedger(es, c) == Some(QueuedForAdjudication)
  {
    LastLatestOfSorted(es, c);
    if es != [] && es[|es| - 1].disposition == QueuedForAdjudication {
      var i := |es| - 1;
      assert forall j :: 0 <= j < |es| ==> es[j].recordedAt <= es[i].recordedAt && !(i < j);
    }
  }

  lemma AwaitsIsQueued(t: Tables, c: ClaimRef)
    ensures Awaits(t, c) <==> IsQueued(t, c)
  {
    hide LatestIsQueued;
    SliceInOrder(t.ledger, c);
    LatestOfSlice(LoadLedger(t, c), c);
  }

  /** A submission for a handle that names no row, or a row whose challenger awaits nothing, is refused
      and changes nothing. */
  lemma NothingToAnswer(t: Tables, handle: Uuid, verdict: Verdict, now: Instant, ref: Uuid)
    requires forall k :: 0 <= k < |t.pending| && t.pending[k].handle == handle ==> !Awaits(t, t.pending[k].challenger)
    ensures Submit(t, handle, verdict, now, ref) == (t, Failed(HandleNotFound))
  {
    var found := GetPending(t, handle);
    if found.Some? {
      AwaitsIsQueued(t, found.value.challenger);
    }
  }

  /** Past its deadline a row takes no verdict: the answer is that there is no such handle, the
      challenger gets one Contested entry and the row is set to expired. Nothing is asserted. */
  lemma TooLate(t: Tables, row: Pending, verdict: Verdict, now: Instant, ref: Uuid)
    requires GetPending(t, row.handle) == Some(row) && Awaits(t, row.challenger)
    requires row.expiresAt.Some? && row.expiresAt.value <= now
    ensures var (t', r) := Submit(t, row.handle, verdict, now, ref);
            && r == Failed(HandleNotFound)
            && t' == t.(ledger := t.ledger + [Entry(row.challenger, AdjudicationExpired, Contested, None, now)], pending := t'.pending)
            && Marked(t.pending, t'.pending, row.handle, ExpiredRow)
  {
    AwaitsIsQueued(t, row.challenger);
  }

  /** Before it, or without one, the verdict is carried out: its entries, its assertion and the flags of
      the dependents are appended, the row is set to resolved and the challenger is reported. An Affirm
      closes the incumbent at the challenger's start, if there is one that is to be trusted. */
  lemma InTimeAnswer(t: Tables, row: Pending, verdict: Verdict, now: Instant, ref: Uuid)
    requires GetPending(t, row.handle) == Some(row) && Awaits(t, row.challenger)
    requires (row.expiresAt.Some? ==> now < row.expiresAt.value) && row.challenger in t.claims
    ensures var (t', r) := Submit(t, row.handle, verdict, now, ref);
            var c, i, vt := row.challenger, row.incumbent, t.claims[row.challenger].validTime;
            && r == Applied(c, match verdict case Affirm => CommittedCheap case Deny => Superseded case Unknown => Contested)
            && Marked(t.pending, t'.pending, row.handle, ResolvedRow)
            && t'.claims == t.claims && t'.edges == t.edges
            && match verdict
               case Affirm =>
                 && t'.assertions == t.assertions +
                      [Assertion(ref, i, if vt.start.Some? && vt.confident then Bound(vt.start.value, vt.startGranularity) else Bound(now, None), now)]
                 && t'.ledger == t.ledger + [Entry(i, ValidityAsserted, Superseded, Some("affirm"), now)]
                                 + Cascade(t.edges, i, now) + [Entry(c, AdjudicationResolved, CommittedCheap, Some("Affirm"), now)]
               case Deny =>
                 && t'.assertions == t.assertions + [Assertion(ref, c, Bound(now, None), now)]
                 && t'.ledger == t.ledger + [Entry(c, ValidityAsserted, Superseded, Some("deny"), now)] + Cascade(t.edges, c, now)
               case Unknown =>
                 && t'.assertions == t.assertions
                 && t'.ledger == t.ledger + [Entry(c, AdjudicationResolved, Contested, Some("Unknown"), now)]
                                 + [Entry(i, AdjudicationResolved, Contested, Some("Unknown"), now)]
  {
    AwaitsIsQueued(t, row.challenger);
    hide IsQueued, Awaits, RowIndex, Cascade, WithStatus;
  }

  /** A verdict on a challenger whose claim is not stored is refused. */
  lemma ClaimIsMissing(t: Tables, row: Pending, verdict: Verdict, now: Instant, ref: Uuid)
    requires GetPending(t, row.handle) == Some(row) && Awaits(t, row.challenger)
    requires (row.expiresAt.Some? ==> now < row.expiresAt.value) && row.challenger !in t.claims
    ensures Submit(t, row.handle, verdict, now, ref) == (t, Failed(ClaimMissing))
  {
    AwaitsIsQueued(t, row.challenger);
  }

  lemma NoneLatest(es: seq<Entry>, c: ClaimRef)
    requires forall e :: e in es ==> e.claim != c
    ensures LastLatest(es, c).None?
  {
    LastLatestIsLast(es, c);
  }

  lemma OneLatest(e: Entry)
    ensures LastLatest([e], e.claim) == Some(e)
  {
    assert [e][..0] == [];
  }

  /** What a verdict appends last for its challenger is the challenger's own outcome. */
  lemma OutcomeIsLast(t: Tables, row: Pending, verdict: Verdict, now: Instant, ref: Uuid) returns (added: seq<Entry>, e: Entry)
    requires row.challenger in t.claims
    requires verdict == Deny ==> forall e :: e in t.edges && e.kind == DependsOn && e.to == row.challenger ==> e.from != row.challenger
    ensures ApplyVerdict(t, row, verdict, now, ref).ledger == t.ledger + added
    ensures LastLatest(added, row.challenger) == Some(e) && e.recordedAt == now && e.disposition == FinalDisposition(verdict)
  {
    var c, i := row.challenger, row.incumbent;
    match verdict
    case Affirm =>
      var p := [BoundEntry(i, VERDICT_AFFIRM, now)] + Cascade(t.edges, i, now);
      e := ResolvedEntry(c, CommittedCheap, now);
      added := p + [e];
      LastLatestIsLast(p, c);
      LastLatestConcat(p, [e], c);
      OneLatest(e);
      assert t.ledger + p + [e] == t.ledger + added;
    case Deny =>
      e := BoundEntry(c, VERDICT_DENY, now);
      added := [e] + Cascade(t.edges, c, now);
      NoneLatest(Cascade(t.edges, c, now), c);
      LastLatestConcat([e], Cascade(t.edges, c, now), c);
      OneLatest(e);
    case Unknown =>
      var f := ResolvedEntry(i, Contested, now);
      e := if i == c then f else ResolvedEntry(c, Contested, now);
      added := [ResolvedEntry(c, Contested, now)] + [f];
      LastLatestConcat([ResolvedEntry(c, Contested, now)], [f], c);
      OneLatest(ResolvedEntry(c, Contested, now));
      OneLatest(f);
      if i != c {
        NoneLatest([f], c);
      }
      assert t.ledger + [ResolvedEntry(c, Contested, now)] + [f] == t.ledger + added;
  }

  /** A verdict that is reported as applied is what its challenger then reads, if and only if the clock
      reading was not before the challenger's latest entry. */
  lemma ReportedIsRead(t: Tables, handle: Uuid, verdict: Verdict, now: Instant, ref: Uuid)
    requires Submit(t, handle, verdict, now, ref).1.Applied?
    requires var c := Submit(t, handle, verdict, now, ref).1.claim;
             verdict == Deny ==> forall e :: e in t.edges && e.kind == DependsOn && e.to == c ==> e.from != c
    ensures var (t', r) := Submit(t, handle, verdict, now, ref);
            LatestDispositionFromLedger(t'.ledger, r.claim) == Some(r.disposition)
            <==> forall e :: e in t.ledger && e.claim == r.claim ==> e.recordedAt <= now
  {
    var row := GetPending(t, handle).value;
    var c := row.challenger;
    var added, e := OutcomeIsLast(t, row, verdict, now, ref);
    LastLatestConcat(t.ledger, added, c);
    LastLatestIsLast(t.ledger, c);
    QueuedInLog(t, c);
  }

  class SubmitAdjudicationUseCase {
    const persistence: SqlitePersistenceStore

    constructor (store: SqlitePersistenceStore)
      ensures persistence == store
    {
      persistence := store;
    }

    /** `execute`: what is committed is the whole plan with its row marked, the plan without the mark,
        or nothing; only a full success reports a verdict as applied. */
    method Execute(handle: Uuid, verdict: Verdict, now: Instant, assertionRef: Uuid) returns (r: SubmitResult)
      requires persistence.Valid()
      modifies persistence, persistence.home
      ensures persistence.Valid()
      ensures var before, after := old(persistence.Committed()), persistence.Committed();
              var p := PlanFor(before, handle, now);
              var failed := persistence.Failures() > old(persistence.Failures());
              if old(persistence.state) != Idle then r == Failed(PendingStoreError) && after == before
              else if r == Failed(PersistenceFailure) then failed && after == before
              else
                || (after, r) == Submit(before, handle, verdict, now, assertionRef)
                || (&& failed && after == Commits(before, p, verdict, now, assertionRef)
                    && ((p.Resolve? && r == Failed(PendingStoreError)) || (p.Expire? && r == Failed(HandleNotFound))))
    {
      hide IsQueued, ApplyVerdict, RowIndex, WithStatus;
      var tables := persistence.Query();
      if tables.None? {
        return Failed(PendingStoreError);
      }
      var t := tables.value;
      var found := GetPending(t, handle);
      if found.None? {
        return Failed(HandleNotFound);
      }
      var row := found.value;
      var queued := IsQueued(t, row.challenger);
      if row.Overdue(now) {
        if queued {
          var ok := ExpireLazily(row, now);
          if !ok {
            return Failed(PersistenceFailure);
          }
        }
        return Failed(HandleNotFound);
      }
      if !queued {
        return Failed(HandleNotFound);
      }
      if row.challenger !in t.claims {
        return Failed(ClaimMissing);
      }
      r := ResolveRow(row, verdict, now, assertionRef);
    }

    /** The lazy expiry: the entry in a transaction, then the mark, whose failure is ignored. */
    method ExpireLazily(row: Pending, now: Instant) returns (ok: bool)
      requires persistence.Valid() && persistence.state == Idle
      modifies persistence, persistence.home
      ensures persistence.Valid()
      ensures var after, expired := persistence.Committed(), AppendEntry(old(persistence.Committed()), ExpiredEntry(row.challenger, now));
              var failed := persistence.Failures() > old(persistence.Failures());
              if ok then after == MarkStatus(expired, row.handle, ExpiredRow) || (failed && after == expired)
              else failed && after == old(persistence.Committed())
    {
      var txn := persistence.BeginAtomic();
      if txn == null {
        return false;
      }
      ok := persistence.Append(txn, InsertEntry(ExpiredEntry(row.challenger, now)));
      if !ok {
        var _ := persistence.Rollback(txn);
        return;
      }
      ok := persistence.Commit(txn);
      if ok {
        var _ := persistence.ExecuteNow(UpdateStatus(row.handle, ExpiredRow));
      }
    }

    /** The verdict in a transaction, then the mark. */
    method ResolveRow(row: Pending, verdict: Verdict, now: Instant, ref: Uuid) returns (r: SubmitResult)
      requires persistence.Valid() && persistence.state == Idle && row.challenger in persistence.Committed().claims
      modifies persistence, persistence.home
      ensures persistence.Valid()
      ensures var after, applied := persistence.Committed(), ApplyVerdict(old(persistence.Committed()), row, verdict, now, ref);
              var failed := persistence.Failures() > old(persistence.Failures());
              match r
              case Failed(PersistenceFailure) => failed && after == old(persistence.Committed())
              case Failed(PendingStoreError) => failed && after == applied
              case Failed(_) => false
              case Applied(c, d) => after == MarkStatus(applied, row.handle, ResolvedRow)
                                    && c == row.challenger && d == FinalDisposition(verdict)
    {
      var txn := persistence.BeginAtomic();
      if txn == null {
        return Failed(PersistenceFailure);
      }
      var ok := ApplyVerdictWithinTxn(txn, row, verdict, now, ref);
      if !ok {
        var _ := persistence.Rollback(txn);
        return Failed(PersistenceFailure);
      }
      ok := persistence.Commit(txn);
      if !ok {
        return Failed(PersistenceFailure);
      }
      ok := persistence.ExecuteNow(UpdateStatus(row.handle, ResolvedRow));
      r := if ok then Applied(row.challenger, FinalDisposition(verdict)) else Failed(PendingStoreError);
    }

    /** `apply_verdict_within_txn`. */
    method ApplyVerdictWithinTxn(txn: SqliteTxn, row: Pending, verdict: Verdict, now: Instant, ref: Uuid) returns (ok: bool)
      requires persistence.Holds(txn) && row.challenger in persistence.Working().claims
      modifies persistence.home
      ensures persistence.Holds(txn) && persistence.Committed() == old(persistence.Committed())
      ensures ok ==> persistence.Working() == ApplyVerdict(old(persistence.Working()), row, verdict, now, ref)
      ensures persistence.Failures() == old(persistence.Failures()) + if ok then 0 else 1
    {
      match verdict {
        case Affirm =>
          var (at, g) := AffirmBound(txn.conn.working.claims[row.challenger].validTime, now);
          ok := BoundClaimWithinTxn(txn, row.incumbent, at, g, VERDICT_AFFIRM, now, ref);
          if ok {
            ok := persistence.Append(txn, InsertEntry(ResolvedEntry(row.challenger, CommittedCheap, now)));
          }
        case Deny =>
          ok := BoundClaimWithinTxn(txn, row.challenger, now, None, VERDICT_DENY, now, ref);
        case Unknown =>
          ok := persistence.Append(txn, InsertEntry(ResolvedEntry(row.challenger, Contested, now)));
          if ok {
            ok := persistence.Append(txn, InsertEntry(ResolvedEntry(row.incumbent, Contested, now)));
          }
      }
    }

    /** `bound_claim`. */
    method BoundClaimWithinTxn(txn: SqliteTxn, target: ClaimRef, at: Instant, g: Option<DateGranularity>, verdict: string,
                               now: Instant, ref: Uuid) returns (ok: bool)
      requires persistence.Holds(txn)
      modifies persistence.home
      ensures persistence.Holds(txn) && persistence.Committed() == old(persistence.Committed())
      ensures ok ==> persistence.Working() == BoundClaim(old(persistence.Working()), target, at, g, verdict, now, ref)
      ensures persistence.Failures() == old(persistence.Failures()) + if ok then 0 else 1
    {
      ok := persistence.Append(txn, InsertAssertion(Assertion(ref, target, Bound(at, g), now)));
      if ok {
        ok := persistence.Append(txn, InsertEntry(BoundEntry(target, verdict, now)));
      }
      if !ok {
        return;
      }
      ok := FlagDependents(txn, target, now);
      assert forall a: seq<Entry>, b, c :: a + [b] + c == a + ([b] + c);
    }

    /** The cascade: one flag for each direct dependent. */
    method FlagDependents(txn: SqliteTxn, target: ClaimRef, now: Instant) returns (ok: bool)
      requires persistence.Holds(txn)
      modifies persistence.home
      ensures persistence.Holds(txn) && persistence.Committed() == old(persistence.Committed())
      ensures ok ==> persistence.Working()
                     == AppendEntries(old(persistence.Working()), Cascade(old(persistence.Working()).edges, target, now))
      ensures persistence.Failures() == old(persistence.Failures()) + if ok then 0 else 1
    {
      var edges := txn.conn.working.edges;
      var flagged: seq<Entry> := [];
      ok := true;
      for n := 0 to |edges|
        invariant ok && persistence.Holds(txn) && persistence.Committed() == old(persistence.Committed())
        invariant persistence.Failures() == old(persistence.Failures())
        invariant flagged == Cascade(edges[..n], target, now)
        invariant persistence.Working() == AppendEntries(old(persistence.Working()), flagged)
      {
        assert edges[..n + 1][..n] == edges[..n];
        var flag := FlagEntry(edges[n].from, now);
        if edges[n].kind == DependsOn && edges[n].to == target && flag !in flagged {
          ok := persistence.Append(txn, InsertEntry(flag));
          if !ok {
            return;
          }
          flagged := flagged + [flag];
        }
      }
      assert edges[..|edges|] == edges;
    }
  }
}
