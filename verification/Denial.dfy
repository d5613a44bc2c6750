/** What "denied by adjudication" means over whole runs of the engine, and why the answer does not
    depend on the verdict markers. */
module Denial {
  import opened Ledger
  import opened LedgerReadings
  import opened StableSort
  import opened Validity
  import opened Store
  import opened IngestClaim
  import opened SubmitAdjudication
  import opened Reconcile
  import AV = AssertValidity

  // ---- Runs ---------------------------------------------------------------------------------

  /** The committed effects of the engine's write paths. A verdict's row mark is a step of its own,
      so that a crash between the two is a run too; `Reconcile` is one entry of a reconcile pass. */
  datatype Step =
    | Ingest(ref: ClaimRef, claim: Claim, d: Disposition, now: Instant)
    | Enqueue(row: Pending)
    | HostAssert(req: AV.Request, now: Instant, uuid: Uuid)
    | Verdict(handle: Uuid, verdict: SubmitAdjudication.Verdict, now: Instant, uuid: Uuid)
    | Revert(ref: ClaimRef, now: Instant)
    | Mark(handle: Uuid, status: Status)
    | Reconcile(ref: ClaimRef, d: Disposition, now: Instant)

  function Do(t: Tables, s: Step): Tables {
    match s
    case Ingest(ref, claim, d, now) =>
      if ref in t.claims || !GateDisposition(d) then t else CommitClaim(t, ref, claim, d, now)
    case Enqueue(row) =>
      if row.challenger != row.incumbent && row.challenger in t.claims && row.incumbent in t.claims then InsertPending(t, row) else t
    case HostAssert(req, now, ref) => AV.Assert(t, req, now, ref).0
    case Verdict(handle, verdict, now, ref) => Commits(t, PlanFor(t, handle, now), verdict, now, ref)
    case Revert(c, now) => if IsQueued(t, c) then AppendEntry(t, ExpiredEntry(c, now)) else t
    case Mark(handle, status) => MarkStatus(t, handle, status)
    case Reconcile(c, d, now) =>
      if MayReconcile(t, c, d, now) then AppendEntry(t, ReconcileEntry(c, d, now)) else t
  }

  const EMPTY := Tables(map[], [], [], [], [])

  function After(steps: seq<Step>): Tables {
    if steps == [] then EMPTY else Do(After(steps[..|steps| - 1]), steps[|steps| - 1])
  }

  /** The step applies a Deny to `c`. */
  predicate Denies(t: Tables, s: Step, c: ClaimRef) {
    s.Verdict? && DeniesByPlan(PlanFor(t, s.handle, s.now), s.verdict, c)
  }

  predicate DeniesByPlan(p: Plan, verdict: SubmitAdjudication.Verdict, c: ClaimRef) {
    verdict == Deny && p.Resolve? && p.row.challenger == c
  }

  /** The step is a Reopen of `c` that has an effect. */
  predicate Reopens(t: Tables, s: Step, c: ClaimRef) {
    s.HostAssert? && s.req.input.ReopenInput? && AV.WritesTo(t, s.req, s.now, c)
  }

  function DeniedNext(denied: bool, t: Tables, s: Step, c: ClaimRef): bool {
    if Denies(t, s, c) then true else if Reopens(t, s, c) then false else denied
  }

  /** The intended meaning, read off the run alone: the last Deny of `c` was not followed by an
      effective Reopen. */
  function DeniedByRun(steps: seq<Step>, c: ClaimRef): bool {
    if steps == [] then false
    else
      var p := steps[..|steps| - 1];
      DeniedNext(DeniedByRun(p, c), After(p), steps[|steps| - 1], c)
  }

  // ---- Erasing markers ----------------------------------------------------------------------

  /** `e'` is `e`, or a Superseded `e` without its marker. */
  predicate Erased(e: Entry, e': Entry) {
    e' == e || (e.disposition == Superseded && e' == e.(verdict := None))
  }

  ghost predicate Erasure(es: seq<Entry>, es': seq<Entry>) {
    && |es'| == |es|
    && forall k :: 0 <= k < |es| ==> Erased(es[k], es'[k])
  }

  /** The claim reads as `denied`, whichever markers have been erased from the ledger. */
  ghost predicate Sound(ledger: seq<Entry>, c: ClaimRef, denied: bool) {
    forall ledger' :: Erasure(ledger, ledger') ==> Denied(ledger', c) == denied
  }

  lemma {:induction false} ErasureOfEntries(ledger: seq<Entry>, ledger': seq<Entry>, c: ClaimRef)
    requires Erasure(ledger, ledger')
    ensures Erasure(EntriesOf(ledger, c), EntriesOf(ledger', c))
  {
    if ledger != [] {
      var n := |ledger| - 1;
      ErasureOfEntries(ledger[..n], ledger'[..n], c);
    }
  }

  lemma ErasureGrows(p: seq<Entry>, p': seq<Entry>, e: Entry, e': Entry)
    requires Erasure(p, p') && Erased(e, e')
    ensures Erasure(p + [e], p' + [e'])
  {
  }

  lemma ErasureShrinks(p: seq<Entry>, e: Entry, es': seq<Entry>)
    requires Erasure(p + [e], es')
    ensures |es'| == |p| + 1 && Erasure(p, es'[..|p|]) && Erased(e, es'[|p|])
  {
    assert Erased((p + [e])[|p|], es'[|p|]);
    forall k | 0 <= k < |p| ensures Erased(p[k], es'[k]) {
      assert Erased((p + [e])[k], es'[k]);
    }
  }

  lemma LiftOne(p: seq<Entry>, p': seq<Entry>, e: Entry, e': Entry, es: seq<Entry>, c: ClaimRef)
    requires Erasure(p, p') && Erased(e, e') && EntriesOf(p', c) == es
    ensures Erasure(p + [e], p' + [e'])
    ensures EntriesOf(p' + [e'], c) == es + if e.claim == c then [e'] else []
  {
    ErasureGrows(p, p', e, e');
    AppendOne(p', e', c);
  }

  lemma ErasureSplits(p: seq<Entry>, e: Entry, es': seq<Entry>, c: ClaimRef) returns (es: seq<Entry>, e': Entry)
    requires Erasure(EntriesOf(p + [e], c), es')
    ensures Erasure(EntriesOf(p, c), es) && Erased(e, e')
    ensures es' == es + if e.claim == c then [e'] else []
  {
    AppendOne(p, e, c);
    if e.claim == c {
      ErasureShrinks(EntriesOf(p, c), e, es');
      es, e' := es'[..|es'| - 1], es'[|es'| - 1];
    } else {
      es, e' := es', e;
    }
  }

  /** An erasure of one claim's entries extends to one of the whole ledger. */
  lemma {:induction false} EntriesErasureLifts(ledger: seq<Entry>, es': seq<Entry>, c: ClaimRef) returns (ledger': seq<Entry>)
    requires Erasure(EntriesOf(ledger, c), es')
    ensures Erasure(ledger, ledger') && EntriesOf(ledger', c) == es'
  {
    if ledger == [] {
      ledger' := [];
    } else {
      var p, e := ledger[..|ledger| - 1], ledger[|ledger| - 1];
      assert ledger == p + [e];
      var es, e' := ErasureSplits(p, e, es', c);
      var p' := EntriesErasureLifts(p, es, c);
      LiftOne(p, p', e, e', es, c);
      ledger' := p' + [e'];
    }
  }

  /** Written at strictly increasing times. */
  ghost predicate Increasing(es: seq<Entry>) {
    forall i, j :: 0 <= i < j < |es| ==> es[i].recordedAt < es[j].recordedAt
  }

  predicate EndsQueued(es: seq<Entry>) {
    es != [] && es[|es| - 1].disposition == QueuedForAdjudication
  }

  /** Whatever markers are erased, the automaton stands at the same state. */
  ghost predicate Tame(es: seq<Entry>, denied: bool) {
    forall es' :: Erasure(es, es') ==> Watched(es') == Watch(denied, EndsQueued(es), denied)
  }

  lemma TameIsSound(ledger: seq<Entry>, c: ClaimRef, denied: bool)
    requires Increasing(EntriesOf(ledger, c)) && Tame(EntriesOf(ledger, c), denied)
    ensures Sound(ledger, c, denied) && Denied(ledger, c) == denied
  {
    forall ledger' | Erasure(ledger, ledger') ensures Denied(ledger', c) == denied {
      var es' := EntriesOf(ledger', c);
      ErasureOfEntries(ledger, ledger', c);
      SortOfSorted(es', Earlier);
    }
    assert Erasure(ledger, ledger);
  }

  /** The entries a run may put after a history that is in state `denied`. */
  predicate Expected(es: seq<Entry>, denied: bool, e: Entry) {
    match e.disposition
    case Reinstated => true
    case Superseded =>
      if e.verdict == Some(VERDICT_DENY) then EndsQueued(es) else e.verdict.Some? && !EndsQueued(es) && !denied
    case _ => !denied
  }

  /** An expected entry keeps a history tame, and an unexpected one that carries a marker does not. */
  lemma TameExactly(es: seq<Entry>, denied: bool, e: Entry)
    requires Tame(es, denied)
    requires e.disposition == Superseded ==> e.verdict.Some? && (e.verdict.value == VERDICT_DENY ==> EndsQueued(es))
    ensures Expected(es, denied, e) ==>
              Tame(es + [e], if e.disposition == Reinstated then false else e.disposition == Superseded && e.verdict == Some(VERDICT_DENY))
    ensures !Expected(es, denied, e) ==>
              exists es' :: Erasure(es + [e], es') && Watched(es').denied != denied
  {
    assert Erasure(es, es);
    var w := Watch(denied, EndsQueued(es), denied);
    forall es' | Erasure(es + [e], es')
      ensures Watched(es') == Observe(w, es'[|es|]) && Erased(e, es'[|es|])
    {
      var p' := es'[..|es|];
      forall k | 0 <= k < |es| ensures Erased(es[k], p'[k]) {
        assert Erased((es + [e])[k], es'[k]);
      }
      assert Erasure(es, p');
      assert Erased((es + [e])[|es|], es'[|es|]);
    }
    if !Expected(es, denied, e) {
      var e' := if e.disposition == Superseded && !denied then e.(verdict := None) else e;
      assert Erasure(es + [e], es + [e']);
      assert Watched(es + [e']) == Observe(w, e');
    }
  }

  // ---- What a step writes -------------------------------------------------------------------

  /** The entry a step appends to the history of `c`, if any. */
  function NewFor(t: Tables, s: Step, c: ClaimRef): seq<Entry> {
    match s
    case Ingest(ref, _, d, now) => if ref == c && ref !in t.claims && GateDisposition(d) then [CommitEntry(c, d, now)] else []
    case HostAssert(req, now, _) => if AV.WritesTo(t, req, now, c) then [AV.WrittenEntry(req, now)] else []
    case Verdict(handle, verdict, now, _) => PlanEntry(PlanFor(t, handle, now), verdict, now, c)
    case Revert(ref, now) => if ref == c && IsQueued(t, c) then [ExpiredEntry(c, now)] else []
    case Reconcile(ref, d, now) => if ref == c && MayReconcile(t, c, d, now) then [ReconcileEntry(c, d, now)] else []
    case _ => []
  }

  function PlanEntry(p: Plan, verdict: SubmitAdjudication.Verdict, now: Instant, c: ClaimRef): seq<Entry> {
    match p
    case Reject(_) => []
    case Expire(row) => if row.challenger == c then [ExpiredEntry(c, now)] else []
    case Resolve(row) => VerdictEntry(row, verdict, now, c)
  }

  function VerdictEntry(row: Pending, verdict: SubmitAdjudication.Verdict, now: Instant, c: ClaimRef): seq<Entry> {
    match verdict
    case Affirm =>
      if c == row.incumbent then [BoundEntry(c, VERDICT_AFFIRM, now)]
      else if c == row.challenger then [ResolvedEntry(c, CommittedCheap, now)] else []
    case Deny => if c == row.challenger then [BoundEntry(c, VERDICT_DENY, now)] else []
    case Unknown => if c == row.challenger || c == row.incumbent then [ResolvedEntry(c, Contested, now)] else []
  }

  /** Held by every state of a run: entries and rows name stored claims, a row's two claims differ,
      and no edge is a DependsOn edge, which no write path of the engine creates. */
  ghost predicate WellFormed(t: Tables) {
    && (forall e :: e in t.ledger ==> e.claim in t.claims)
    && (forall p :: p in t.pending ==> p.challenger != p.incumbent && p.challenger in t.claims && p.incumbent in t.claims)
    && (forall e :: e in t.edges ==> e.kind == DerivedFrom)
  }

  lemma AppendOne(ledger: seq<Entry>, e: Entry, c: ClaimRef)
    ensures EntriesOf(ledger + [e], c) == EntriesOf(ledger, c) + (if e.claim == c then [e] else [])
  {
    assert (ledger + [e])[..|ledger|] == ledger;
  }

  lemma AppendTwo(ledger: seq<Entry>, e1: Entry, e2: Entry, c: ClaimRef)
    requires e1.claim != e2.claim
    ensures EntriesOf(ledger + [e1] + [e2], c)
            == EntriesOf(ledger, c) + (if e1.claim == c then [e1] else if e2.claim == c then [e2] else [])
  {
    AppendOne(ledger, e1, c);
    AppendOne(ledger + [e1], e2, c);
  }

  lemma VerdictAppends(t: Tables, row: Pending, verdict: SubmitAdjudication.Verdict, now: Instant, ref: Uuid)
    requires row.challenger in t.claims && forall e :: e in t.edges ==> e.kind == DerivedFrom
    ensures var t' := ApplyVerdict(t, row, verdict, now, ref);
            t' == t.(assertions := t'.assertions, ledger := t'.ledger)
            && t'.ledger == match verdict
                            case Affirm => t.ledger + [BoundEntry(row.incumbent, VERDICT_AFFIRM, now)] + [ResolvedEntry(row.challenger, CommittedCheap, now)]
                            case Deny => t.ledger + [BoundEntry(row.challenger, VERDICT_DENY, now)]
                            case Unknown => t.ledger + [ResolvedEntry(row.challenger, Contested, now)] + [ResolvedEntry(row.incumbent, Contested, now)]
  {
    NoCascade(t.edges, row.challenger, now);
    NoCascade(t.edges, row.incumbent, now);
  }

  lemma VerdictOnEntries(t: Tables, row: Pending, verdict: SubmitAdjudication.Verdict, now: Instant, ref: Uuid, c: ClaimRef)
    requires WellFormed(t) && row in t.pending
    ensures EntriesOf(ApplyVerdict(t, row, verdict, now, ref).ledger, c) == EntriesOf(t.ledger, c) + VerdictEntry(row, verdict, now, c)
  {
    VerdictAppends(t, row, verdict, now, ref);
    match verdict {
      case Affirm =>
        AppendTwo(t.ledger, BoundEntry(row.incumbent, VERDICT_AFFIRM, now), ResolvedEntry(row.challenger, CommittedCheap, now), c);
      case Deny =>
        AppendOne(t.ledger, BoundEntry(row.challenger, VERDICT_DENY, now), c);
      case Unknown =>
        AppendTwo(t.ledger, ResolvedEntry(row.challenger, Contested, now), ResolvedEntry(row.incumbent, Contested, now), c);
    }
  }

  lemma VerdictKeepsWellFormed(t: Tables, row: Pending, verdict: SubmitAdjudication.Verdict, now: Instant, ref: Uuid)
    requires WellFormed(t) && row in t.pending
    ensures WellFormed(ApplyVerdict(t, row, verdict, now, ref))
  {
    VerdictAppends(t, row, verdict, now, ref);
  }

  lemma HostAssertKeepsWellFormed(t: Tables, req: AV.Request, now: Instant, ref: Uuid)
    requires WellFormed(t)
    ensures WellFormed(AV.Assert(t, req, now, ref).0)
  {
    AV.CallOnLogs(t, req, now, ref, req.target);
    AV.GatesPassed(t, req, now);
  }

  lemma QueuedIsStored(t: Tables, c: ClaimRef)
    requires WellFormed(t) && IsQueued(t, c)
    ensures c in t.claims && EntriesOf(t.ledger, c) != []
  {
    QueuedInLog(t, c);
    LastLatestIsLast(t.ledger, c);
  }

  lemma MaybeAppendOne(ledger: seq<Entry>, e: Entry, c: ClaimRef, happens: bool)
    ensures EntriesOf(if happens then ledger + [e] else ledger, c)
            == EntriesOf(ledger, c) + (if happens && e.claim == c then [e] else [])
  {
    AppendOne(ledger, e, c);
  }

  lemma OtherStepOnEntries(t: Tables, s: Step, c: ClaimRef)
    requires !s.HostAssert? && !s.Verdict?
    ensures EntriesOf(Do(t, s).ledger, c) == EntriesOf(t.ledger, c) + NewFor(t, s, c)
  {
    hide IsQueued, Live, EntriesOf, LineageEdges;
    assert EntriesOf(t.ledger, c) + [] == EntriesOf(t.ledger, c);
    match s {
      case Ingest(ref, claim, d, now) =>
        MaybeAppendOne(t.ledger, CommitEntry(ref, d, now), c, ref !in t.claims && GateDisposition(d));
      case Revert(ref, now) =>
        MaybeAppendOne(t.ledger, ExpiredEntry(ref, now), c, IsQueued(t, ref));
      case Reconcile(ref, d, now) =>
        MaybeAppendOne(t.ledger, ReconcileEntry(ref, d, now), c, MayReconcile(t, ref, d, now));
      case _ =>
    }
  }

  lemma VerdictStepOnEntries(t: Tables, p: Plan, verdict: SubmitAdjudication.Verdict, now: Instant, ref: Uuid, c: ClaimRef)
    requires WellFormed(t) && (p.Expire? || p.Resolve? ==> p.row in t.pending)
    ensures WellFormed(Commits(t, p, verdict, now, ref))
    ensures EntriesOf(Commits(t, p, verdict, now, ref).ledger, c) == EntriesOf(t.ledger, c) + PlanEntry(p, verdict, now, c)
  {
    if p.Expire? {
      AppendOne(t.ledger, ExpiredEntry(p.row.challenger, now), c);
    }
    if p.Resolve? {
      VerdictOnEntries(t, p.row, verdict, now, ref, c);
      VerdictKeepsWellFormed(t, p.row, verdict, now, ref);
    }
  }

  lemma OtherStepKeepsWellFormed(t: Tables, s: Step)
    requires WellFormed(t) && !s.HostAssert? && !s.Verdict?
    ensures WellFormed(Do(t, s))
  {
    match s {
      case Revert(ref, now) =>
        if IsQueued(t, ref) {
          QueuedIsStored(t, ref);
        }
      case _ =>
    }
  }

  /** Every step keeps the tables well formed and appends to each history what `NewFor` says. */
  lemma StepOnEntries(t: Tables, s: Step, c: ClaimRef)
    requires WellFormed(t)
    ensures WellFormed(Do(t, s))
    ensures EntriesOf(Do(t, s).ledger, c) == EntriesOf(t.ledger, c) + NewFor(t, s, c)
  {
    match s {
      case HostAssert(req, now, ref) =>
        AV.CallOnLogs(t, req, now, ref, c);
        HostAssertKeepsWellFormed(t, req, now, ref);
      case Verdict(handle, verdict, now, ref) =>
        VerdictStepOnEntries(t, PlanFor(t, handle, now), verdict, now, ref, c);
      case _ =>
        OtherStepOnEntries(t, s, c);
        OtherStepKeepsWellFormed(t, s);
    }
  }

  // ---- The meaning, on every run ------------------------------------------------------------

  function TimeOf(s: Step): Instant {
    match s
    case Enqueue(row) => row.queuedAt
    case Mark(_, _) => 0
    case _ => s.now
  }

  /** The step's clock reading is later than all that is recorded for the claims it writes to. */
  ghost predicate Later(t: Tables, s: Step) {
    forall c :: NewFor(t, s, c) != [] ==> forall e :: e in EntriesOf(t.ledger, c) ==> e.recordedAt < TimeOf(s)
  }

  /** What the caller can check before a verdict is delivered: an Affirm must not close an incumbent
      that is itself queued or denied, an Unknown must not contest one that is denied. */
  predicate VerdictSafe(t: Tables, s: Step) {
    s.Verdict? ==>
      var p := PlanFor(t, s.handle, s.now);
      p.Resolve? ==>
        && (s.verdict != Deny ==> !Denied(t.ledger, p.row.incumbent))
        && (s.verdict == Affirm ==> !IsQueued(t, p.row.incumbent))
  }

  /** The history of `c` is in time order and tame. */
  ghost predicate InState(t: Tables, c: ClaimRef, denied: bool) {
    Increasing(EntriesOf(t.ledger, c)) && Tame(EntriesOf(t.ledger, c), denied)
  }

  /** The guards read what the history says. */
  ghost predicate GuardsAgree(t: Tables, c: ClaimRef, denied: bool) {
    && IsQueued(t, c) == EndsQueued(EntriesOf(t.ledger, c))
    && Denied(t.ledger, c) == denied
    && AV.UnderAdjudication(LoadLedger(t, c), c) == (EndsQueued(EntriesOf(t.ledger, c)) || denied)
    && (denied ==> DispositionOf(FirstLatest(LoadLedger(t, c), c)) == Some(Superseded) && EntriesOf(t.ledger, c) != [])
  }

  lemma GuardsReadNothing(t: Tables, c: ClaimRef)
    requires EntriesOf(t.ledger, c) == []
    ensures GuardsAgree(t, c, false) && !IsQueued(t, c)
  {
    SortOfSorted(EntriesOf(t.ledger, c), Earlier);
    QueuedInLog(t, c);
    LastLatestIsLast(t.ledger, c);
  }

  /** What the automaton's state says of the last entry. */
  lemma LastOfTame(es: seq<Entry>, denied: bool)
    requires es != [] && Tame(es, denied)
    ensures Watched(es).denied == denied
    ensures denied ==> es[|es| - 1].disposition == Superseded
  {
    assert Erasure(es, es);
  }

  lemma GuardsReadHistory(t: Tables, c: ClaimRef, denied: bool)
    requires EntriesOf(t.ledger, c) != [] && Increasing(EntriesOf(t.ledger, c))
    requires Watched(EntriesOf(t.ledger, c)).denied == denied
    requires var es := EntriesOf(t.ledger, c); denied ==> es[|es| - 1].disposition == Superseded
    ensures GuardsAgree(t, c, denied) && (denied ==> !IsQueued(t, c))
  {
    hide IsQueued, Denied, LoadLedger, FirstLatest, Watched;
    var es := EntriesOf(t.ledger, c);
    AV.LoadedInOrder(t, c, es[|es| - 1].recordedAt);
  }

  lemma GuardsRead(t: Tables, c: ClaimRef, denied: bool)
    requires InState(t, c, denied)
    ensures GuardsAgree(t, c, denied)
    ensures denied ==> !IsQueued(t, c)
  {
    hide GuardsAgree, IsQueued;
    var es := EntriesOf(t.ledger, c);
    if es == [] {
      assert Erasure(es, es);
      GuardsReadNothing(t, c);
    } else {
      LastOfTame(es, denied);
      GuardsReadHistory(t, c, denied);
    }
  }

  /** `e` is what a history `es` in state `denied` may go on with, and leads to state `next`. */
  predicate GoesOn(es: seq<Entry>, denied: bool, e: Entry, now: Instant, next: bool) {
    && Expected(es, denied, e)
    && e.recordedAt == now
    && (e.disposition == Superseded ==> e.verdict.Some?)
    && next == (e.disposition == Superseded && e.verdict == Some(VERDICT_DENY))
  }

  predicate Continues(t: Tables, s: Step, c: ClaimRef, denied: bool, e: Entry) {
    GoesOn(EntriesOf(t.ledger, c), denied, e, TimeOf(s), DeniedNext(denied, t, s, c))
  }

  /** What a verdict's plan writes for `c`, when the claim's guards read as they do. */
  lemma PlanGoesOn(es: seq<Entry>, denied: bool, p: Plan, verdict: SubmitAdjudication.Verdict, now: Instant, c: ClaimRef)
    requires p.Expire? || p.Resolve? ==> p.row.challenger != p.row.incumbent && (c == p.row.challenger ==> EndsQueued(es) && !denied)
    requires p.Resolve? && c == p.row.incumbent ==> (verdict != Deny ==> !denied) && (verdict == Affirm ==> !EndsQueued(es))
    requires PlanEntry(p, verdict, now, c) != []
    ensures |PlanEntry(p, verdict, now, c)| == 1
    ensures GoesOn(es, denied, PlanEntry(p, verdict, now, c)[0], now, DeniesByPlan(p, verdict, c) || denied)
  {
    assert VERDICT_AFFIRM[0] != VERDICT_DENY[0];
  }

  lemma VerdictContinues(t: Tables, s: Step, c: ClaimRef, denied: bool)
    requires WellFormed(t) && GuardsAgree(t, c, denied) && (denied ==> !IsQueued(t, c))
    requires VerdictSafe(t, s) && s.Verdict? && NewFor(t, s, c) != []
    ensures |NewFor(t, s, c)| == 1 && Continues(t, s, c, denied, NewFor(t, s, c)[0])
  {
    PlanGoesOn(EntriesOf(t.ledger, c), denied, PlanFor(t, s.handle, s.now), s.verdict, s.now, c);
  }

  lemma HostGoesOn(es: seq<Entry>, denied: bool, req: AV.Request, now: Instant)
    requires req.input.BoundInput? ==> !EndsQueued(es) && !denied
    ensures GoesOn(es, denied, AV.WrittenEntry(req, now), now, false)
  {
    assert VERDICT_HOST_BOUND[0] != VERDICT_DENY[0];
  }

  lemma HostContinues(t: Tables, s: Step, c: ClaimRef, denied: bool)
    requires GuardsAgree(t, c, denied) && s.HostAssert? && NewFor(t, s, c) != []
    ensures |NewFor(t, s, c)| == 1 && Continues(t, s, c, denied, NewFor(t, s, c)[0])
  {
    AV.GatesPassed(t, s.req, s.now);
    HostGoesOn(EntriesOf(t.ledger, c), denied, s.req, s.now);
  }

  lemma CommitContinues(t: Tables, s: Step, c: ClaimRef, denied: bool)
    requires WellFormed(t) && GuardsAgree(t, c, denied) && s.Ingest? && NewFor(t, s, c) != []
    ensures |NewFor(t, s, c)| == 1 && Continues(t, s, c, denied, NewFor(t, s, c)[0])
  {
    NoEntriesOf(t.ledger, c);
  }

  lemma {:induction false} NoEntriesOf(ledger: seq<Entry>, c: ClaimRef)
    requires forall e :: e in ledger ==> e.claim != c
    ensures EntriesOf(ledger, c) == []
  {
    if ledger != [] {
      NoEntriesOf(ledger[..|ledger| - 1], c);
      assert ledger[|ledger| - 1] in ledger;
    }
  }

  lemma NotDeniedGoesOn(es: seq<Entry>, e: Entry)
    requires e.disposition != Superseded
    ensures GoesOn(es, false, e, e.recordedAt, false)
  {
  }

  lemma LiveIsNotDenied(t: Tables, c: ClaimRef, now: Instant, denied: bool)
    requires GuardsAgree(t, c, denied) && Live(t, c, now)
    ensures !denied
  {
  }

  lemma RevertContinues(t: Tables, s: Step, c: ClaimRef, denied: bool)
    requires GuardsAgree(t, c, denied) && (denied ==> !IsQueued(t, c))
    requires (s.Revert? || s.Reconcile?) && NewFor(t, s, c) != []
    ensures |NewFor(t, s, c)| == 1 && Continues(t, s, c, denied, NewFor(t, s, c)[0])
  {
    if s.Reconcile? {
      LiveIsNotDenied(t, c, s.now, denied);
    }
    NotDeniedGoesOn(EntriesOf(t.ledger, c), NewFor(t, s, c)[0]);
  }

  lemma StepContinues(t: Tables, s: Step, c: ClaimRef, denied: bool)
    requires WellFormed(t) && InState(t, c, denied) && VerdictSafe(t, s) && NewFor(t, s, c) != []
    ensures |NewFor(t, s, c)| == 1 && Continues(t, s, c, denied, NewFor(t, s, c)[0])
  {
    GuardsRead(t, c, denied);
    if s.Ingest? {
      CommitContinues(t, s, c, denied);
    } else if s.HostAssert? {
      HostContinues(t, s, c, denied);
    } else if s.Verdict? {
      VerdictContinues(t, s, c, denied);
    } else {
      RevertContinues(t, s, c, denied);
    }
  }

  lemma NothingNew(t: Tables, s: Step, c: ClaimRef, denied: bool)
    requires NewFor(t, s, c) == []
    ensures DeniedNext(denied, t, s, c) == denied
  {
    if s.Verdict? {
      NoEntryNoDeny(PlanFor(t, s.handle, s.now), s.verdict, s.now, c);
    }
  }

  lemma NoEntryNoDeny(p: Plan, verdict: SubmitAdjudication.Verdict, now: Instant, c: ClaimRef)
    requires PlanEntry(p, verdict, now, c) == []
    ensures !DeniesByPlan(p, verdict, c)
  {
  }

  /** A tame history in order stays so as it goes on. */
  lemma StateGoesOn(es: seq<Entry>, denied: bool, e: Entry, now: Instant, next: bool)
    requires Increasing(es) && Tame(es, denied) && GoesOn(es, denied, e, now, next)
    requires forall x :: x in es ==> x.recordedAt < now
    ensures Increasing(es + [e]) && Tame(es + [e], next)
  {
    TameExactly(es, denied, e);
  }

  /** One step takes a claim's state to the state the meaning asks for. */
  lemma StepKeepsState(t: Tables, s: Step, c: ClaimRef, denied: bool)
    requires WellFormed(t) && InState(t, c, denied) && Later(t, s) && VerdictSafe(t, s)
    ensures InState(Do(t, s), c, DeniedNext(denied, t, s, c))
  {
    hide Do, NewFor, DeniedNext, VerdictSafe, WellFormed, Tame, Increasing, Continues;
    StepOnEntries(t, s, c);
    var es, added := EntriesOf(t.ledger, c), NewFor(t, s, c);
    if added == [] {
      NothingNew(t, s, c, denied);
      assert es + [] == es;
    } else {
      StepContinues(t, s, c, denied);
      StateGoesOn(es, denied, added[0], TimeOf(s), DeniedNext(denied, t, s, c));
      assert added == [added[0]];
    }
  }

  ghost predicate Admissible(steps: seq<Step>) {
    forall k :: 0 <= k < |steps| ==> Later(After(steps[..k]), steps[k]) && VerdictSafe(After(steps[..k]), steps[k])
  }

  lemma {:induction false} RunState(steps: seq<Step>, c: ClaimRef)
    requires Admissible(steps)
    ensures WellFormed(After(steps)) && InState(After(steps), c, DeniedByRun(steps, c))
  {
    if steps == [] {
      assert EntriesOf([], c) == [];
    } else {
      var n := |steps| - 1;
      var p := steps[..n];
      forall k | 0 <= k < n ensures Later(After(p[..k]), p[k]) && VerdictSafe(After(p[..k]), p[k]) {
        assert p[..k] == steps[..k] && p[k] == steps[k];
      }
      RunState(p, c);
      StepOnEntries(After(p), steps[n], c);
      StepKeepsState(After(p), steps[n], c, DeniedByRun(p, c));
    }
  }

  /** On every admissible run a claim is in the denied set exactly when its last Deny was not followed
      by an effective Reopen, and erasing the markers of any Superseded entries changes no answer. */
  lemma DeniedMeansDenied(steps: seq<Step>, c: ClaimRef)
    requires Admissible(steps)
    ensures Denied(After(steps).ledger, c) == DeniedByRun(steps, c)
    ensures Sound(After(steps).ledger, c, DeniedByRun(steps, c))
  {
    RunState(steps, c);
    TameIsSound(After(steps).ledger, c, DeniedByRun(steps, c));
  }

  // ---- When a verdict breaks it -------------------------------------------------------------

  lemma ErasureKeepsTimes(es: seq<Entry>, es': seq<Entry>)
    requires Erasure(es, es') && Increasing(es)
    ensures Increasing(es')
  {
    forall i, j | 0 <= i < j < |es'| ensures es'[i].recordedAt < es'[j].recordedAt {
      assert Erased(es[i], es'[i]) && Erased(es[j], es'[j]);
    }
  }

  lemma UnsoundWitness(ledger: seq<Entry>, c: ClaimRef, es': seq<Entry>, denied: bool)
    requires Increasing(EntriesOf(ledger, c)) && Erasure(EntriesOf(ledger, c), es') && Watched(es').denied != denied
    ensures !Sound(ledger, c, denied)
  {
    var ledger' := EntriesErasureLifts(ledger, es', c);
    ErasureKeepsTimes(EntriesOf(ledger, c), es');
    SortOfSorted(es', Earlier);
    assert Denied(ledger', c) != denied;
  }

  function IncumbentEntry(row: Pending, verdict: SubmitAdjudication.Verdict, now: Instant): Entry
    requires verdict != Deny
  {
    if verdict == Affirm then BoundEntry(row.incumbent, VERDICT_AFFIRM, now) else ResolvedEntry(row.incumbent, Contested, now)
  }

  lemma IncumbentEntryExpected(es: seq<Entry>, denied: bool, row: Pending, verdict: SubmitAdjudication.Verdict, now: Instant)
    requires verdict != Deny
    ensures VerdictEntry(row, verdict, now, row.incumbent) == [IncumbentEntry(row, verdict, now)]
    ensures var e := IncumbentEntry(row, verdict, now);
            && e.recordedAt == now && e.disposition != Reinstated
            && (e.disposition == Superseded ==> e.verdict.Some? && e.verdict.value != VERDICT_DENY)
            && (Expected(es, denied, e) <==> !denied && (verdict == Affirm ==> !EndsQueued(es)))
  {
    assert VERDICT_AFFIRM[0] != VERDICT_DENY[0];
  }

  /** An entry that is not a Deny keeps the claim's meaning exactly when it was to be expected. */
  lemma SoundExactly(ledger: seq<Entry>, c: ClaimRef, es: seq<Entry>, denied: bool, e: Entry)
    requires EntriesOf(ledger, c) == es + [e] && Increasing(es + [e]) && Tame(es, denied)
    requires e.disposition != Reinstated
    requires e.disposition == Superseded ==> e.verdict.Some? && e.verdict.value != VERDICT_DENY
    ensures Sound(ledger, c, denied) <==> Expected(es, denied, e)
  {
    TameExactly(es, denied, e);
    if Expected(es, denied, e) {
      TameIsSound(ledger, c, denied);
    } else {
      var es' :| Erasure(es + [e], es') && Watched(es').denied != denied;
      UnsoundWitness(ledger, c, es', denied);
    }
  }

  /** The condition, with the plan at hand. */
  lemma VerdictSafeIs(t: Tables, s: Step, row: Pending)
    requires s.Verdict? && s.verdict != Deny && PlanFor(t, s.handle, s.now) == Resolve(row)
    ensures VerdictSafe(t, s) <==>
            !Denied(t.ledger, row.incumbent) && (s.verdict == Affirm ==> !IsQueued(t, row.incumbent))
  {
  }

  lemma IncumbentEntryIsNew(t: Tables, s: Step, row: Pending)
    requires s.Verdict? && s.verdict != Deny && PlanFor(t, s.handle, s.now) == Resolve(row)
    ensures NewFor(t, s, row.incumbent) == [IncumbentEntry(row, s.verdict, s.now)]
  {
    IncumbentEntryExpected([], false, row, s.verdict, s.now);
  }

  lemma VerdictOnIncumbent(t: Tables, s: Step, row: Pending)
    requires WellFormed(t) && Later(t, s) && Increasing(EntriesOf(t.ledger, row.incumbent))
    requires s.Verdict? && s.verdict != Deny && PlanFor(t, s.handle, s.now) == Resolve(row)
    ensures var es, e := EntriesOf(t.ledger, row.incumbent), IncumbentEntry(row, s.verdict, s.now);
            EntriesOf(Do(t, s).ledger, row.incumbent) == es + [e] && Increasing(es + [e])
  {
    IncumbentEntryIsNew(t, s, row);
    StepOnEntries(t, s, row.incumbent);
    InOrderAfter(EntriesOf(t.ledger, row.incumbent), IncumbentEntry(row, s.verdict, s.now));
  }

  lemma InOrderAfter(es: seq<Entry>, e: Entry)
    requires Increasing(es) && forall x :: x in es ==> x.recordedAt < e.recordedAt
    ensures Increasing(es + [e])
  {
  }

  /** An Affirm or Unknown that is carried out leaves the incumbent's meaning intact exactly when it
      is safe: otherwise some reading of the ledger, with or without its markers, contradicts it. */
  lemma VerdictSafeExactly(t: Tables, s: Step, row: Pending, denied: bool)
    requires WellFormed(t) && Later(t, s)
    requires s.Verdict? && s.verdict != Deny && PlanFor(t, s.handle, s.now) == Resolve(row)
    requires InState(t, row.incumbent, denied)
    ensures Sound(Do(t, s).ledger, row.incumbent, denied) <==> VerdictSafe(t, s)
  {
    var c, es, e := row.incumbent, EntriesOf(t.ledger, row.incumbent), IncumbentEntry(row, s.verdict, s.now);
    GuardsRead(t, c, denied);
    VerdictSafeIs(t, s, row);
    IncumbentEntryExpected(es, denied, row, s.verdict, s.now);
    VerdictOnIncumbent(t, s, row);
    SoundExactly(Do(t, s).ledger, c, es, denied, e);
  }
}
