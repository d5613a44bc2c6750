/** `assert_validity`: the host bounds or reopens a claim's valid-time window. The gates and writes
    of the use case, and what its receipts and its two logs promise over whole runs. */
module AssertValidity {
  import opened Ledger
  import opened LedgerReadings
  import opened StableSort
  import opened Validity
  import opened Store
  import opened SqliteStore

  datatype Input = BoundInput(at: Instant, granularity: Option<DateGranularity>) | ReopenInput

  /** `external` says that the request's provenance is one of the `External` labels. */
  datatype Request = Request(target: ClaimRef, input: Input, external: bool)

  datatype Error =
    | InsufficientProvenanceForOverturn
    | ClaimNotFound(claim: ClaimRef)
    | TargetUnderAdjudication(claim: ClaimRef)
    | IncoherentTemporalWindow(start: Instant, end: Instant)
    | AlreadyBound(claim: ClaimRef, existingBoundAt: Instant)
    | PersistenceFailure

  datatype Response = Response(claim: ClaimRef, assertionRef: Option<Uuid>, kind: AssertionKind,
                               effectiveAt: Option<Instant>, disposition: Disposition, noOp: bool)

  datatype Outcome = Ok(response: Response) | Err(error: Error)

  /** What the gates make of a request: refuse it, answer without a write, or write one assertion
      and one ledger entry. */
  datatype Decision =
    | Refuse(error: Error)
    | NoChange(response: Response)
    | Write(kind: AssertionKind, entry: Entry)

  /** Gate 2.5, on the target's own ledger slice: the oracle owns the claim, or has rejected it. */
  predicate UnderAdjudication(slice: seq<Entry>, target: ClaimRef) {
    || DispositionOf(FirstLatest(slice, target)) == Some(QueuedForAdjudication)
    || Denied(slice, target)
  }

  function HostBoundEntry(target: ClaimRef, now: Instant): Entry {
    Entry(target, ValidityAsserted, Superseded, Some(VERDICT_HOST_BOUND), now)
  }

  function ReopenEntry(target: ClaimRef, now: Instant): Entry {
    Entry(target, ValidityAsserted, Reinstated, None, now)
  }

  /** The Bound arm: gates 2.5 to 5. */
  function DecideBound(vt: ValidTime, slice: seq<Entry>, active: Option<BoundState>, target: ClaimRef,
                       at: Instant, granularity: Option<DateGranularity>, now: Instant): Decision
  {
    if UnderAdjudication(slice, target) then
      Refuse(TargetUnderAdjudication(target))
    else if vt.start.Some? && at < vt.start.value then
      Refuse(IncoherentTemporalWindow(vt.start.value, at))
    else if active.Some? then
      if active.value.boundAt == at then
        NoChange(Response(target, Some(active.value.assertionRef), Bound(active.value.boundAt, active.value.granularity),
                          Some(active.value.boundAt), Superseded, true))
      else
        Refuse(AlreadyBound(target, active.value.boundAt))
    else if vt.end.Some? && vt.end.value <= at then
      NoChange(Response(target, None, Bound(vt.end.value, vt.endGranularity), vt.end, Superseded, true))
    else
      Write(Bound(at, granularity), HostBoundEntry(target, now))
  }

  function DecideReopen(active: Option<BoundState>, target: ClaimRef, now: Instant): Decision {
    if active.None? then NoChange(Response(target, None, Reopen(now), None, Reinstated, true))
    else Write(Reopen(now), ReopenEntry(target, now))
  }

  /** All gates: provenance, target, then those of the arm. */
  function Decide(t: Tables, req: Request, now: Instant): Decision {
    if !req.external then Refuse(InsufficientProvenanceForOverturn)
    else if req.target !in t.claims then Refuse(ClaimNotFound(req.target))
    else
      var active := ActiveBoundAt(AssertionsFor(t.assertions, req.target), now);
      match req.input
      case BoundInput(at, g) =>
        DecideBound(t.claims[req.target].validTime, LoadLedger(t, req.target), active, req.target, at, g, now)
      case ReopenInput => DecideReopen(active, req.target, now)
  }

  /** The atomic unit: the assertion and its ledger entry. */
  function WriteValidityAndLedger(t: Tables, a: Assertion, e: Entry): Tables {
    AppendEntry(AppendAssertion(t, a), e)
  }

  /** Carries a decision out. */
  function Apply(t: Tables, req: Request, d: Decision, now: Instant, ref: Uuid): (Tables, Outcome) {
    match d
    case Refuse(error) => (t, Err(error))
    case NoChange(response) => (t, Ok(response))
    case Write(kind, entry) =>
      (WriteValidityAndLedger(t, Assertion(ref, req.target, kind, now), entry),
       Ok(Response(req.target, Some(ref), kind, Some(kind.At()), entry.disposition, false)))
  }

  /** The use case on tables, when the store does not fail. */
  function Assert(t: Tables, req: Request, now: Instant, ref: Uuid): (Tables, Outcome) {
    Apply(t, req, Decide(t, req, now), now, ref)
  }

  // ---- Which requests succeed ---------------------------------------------------------------

  /** The oracle is at work on the claim, or has rejected it, as the loaded slice reads. */
  predicate OracleOwns(t: Tables, c: ClaimRef) {
    var slice := LoadLedger(t, c);
    DispositionOf(FirstLatest(slice, c)) == Some(QueuedForAdjudication) || Denied(slice, c)
  }

  /** A Bound succeeds exactly when the host may ask for it, the claim is stored and not the oracle's,
      the instant is not before the window, and no other instant bounds it already. It then answers with
      the active Bound, with the claim's own end where that comes first, or with what it has written: one
      assertion and one entry. */
  lemma BoundSucceedsExactly(t: Tables, c: ClaimRef, at: Instant, g: Option<DateGranularity>, external: bool, now: Instant, ref: Uuid)
    ensures var (t', o) := Assert(t, Request(c, BoundInput(at, g), external), now, ref);
            && (o.Ok? <==>
                  && external && c in t.claims && !OracleOwns(t, c)
                  && (t.claims[c].validTime.start.Some? ==> t.claims[c].validTime.start.value <= at)
                  && var active := ActiveBoundAt(AssertionsFor(t.assertions, c), now);
                     (active.Some? ==> active.value.boundAt == at))
            && (o.Err? ==> t' == t)
            && (o.Ok? ==>
                  var vt, active := t.claims[c].validTime, ActiveBoundAt(AssertionsFor(t.assertions, c), now);
                  if active.Some? then
                    && t' == t
                    && o.response == Response(c, Some(active.value.assertionRef), Bound(at, active.value.granularity), Some(at), Superseded, true)
                  else if vt.end.Some? && vt.end.value <= at then
                    && t' == t
                    && o.response == Response(c, None, Bound(vt.end.value, vt.endGranularity), Some(vt.end.value), Superseded, true)
                  else
                    && t' == t.(assertions := t.assertions + [Assertion(ref, c, Bound(at, g), now)],
                                ledger := t.ledger + [Entry(c, ValidityAsserted, Superseded, Some("host_bound"), now)])
                    && o.response == Response(c, Some(ref), Bound(at, g), Some(at), Superseded, false))
  {
  }

  /** The error of a Bound that fails names the first reason it fails for, and what is stored. */
  lemma BoundErrors(t: Tables, c: ClaimRef, at: Instant, g: Option<DateGranularity>, external: bool, now: Instant, ref: Uuid)
    requires Assert(t, Request(c, BoundInput(at, g), external), now, ref).1.Err?
    ensures match Assert(t, Request(c, BoundInput(at, g), external), now, ref).1.error
            case InsufficientProvenanceForOverturn => !external
            case ClaimNotFound(d) => external && d == c && c !in t.claims
            case TargetUnderAdjudication(d) => external && d == c && c in t.claims && OracleOwns(t, c)
            case IncoherentTemporalWindow(start, end) =>
              && external && c in t.claims && !OracleOwns(t, c)
              && t.claims[c].validTime.start == Some(start) && end == at < start
            case AlreadyBound(d, existing) =>
              && external && d == c && c in t.claims && !OracleOwns(t, c)
              && (t.claims[c].validTime.start.Some? ==> t.claims[c].validTime.start.value <= at)
              && existing != at
              && exists a :: a in AssertionsFor(t.assertions, c) && a.kind.Bound? && a.kind.boundAt == existing && Effective(a, now)
            case PersistenceFailure => false
  {
    hide LoadLedger, Denied, FirstLatest, ActiveBoundAt, AssertionsFor;
    ActiveBoundIsStored(AssertionsFor(t.assertions, c), now);
  }

  /** A Reopen succeeds exactly when the host may ask for it and the claim is stored; of an open claim it
      says so and writes nothing. */
  lemma ReopenSucceedsExactly(t: Tables, c: ClaimRef, external: bool, now: Instant, ref: Uuid)
    ensures var (t', o) := Assert(t, Request(c, ReopenInput, external), now, ref);
            if !external then (t', o) == (t, Err(InsufficientProvenanceForOverturn))
            else if c !in t.claims then (t', o) == (t, Err(ClaimNotFound(c)))
            else if ActiveBoundAt(AssertionsFor(t.assertions, c), now).None? then
              (t', o) == (t, Ok(Response(c, None, Reopen(now), None, Reinstated, true)))
            else
              && t' == t.(assertions := t.assertions + [Assertion(ref, c, Reopen(now), now)],
                          ledger := t.ledger + [Entry(c, ValidityAsserted, Reinstated, None, now)])
              && o == Ok(Response(c, Some(ref), Reopen(now), Some(now), Reinstated, false))
  {
  }

  // ---- One claim's logs, written in time order ----------------------------------------------

  /** Written at strictly increasing times, none of them after `last`. */
  ghost predicate EntriesInOrder(es: seq<Entry>, last: Instant) {
    && (forall i, j :: 0 <= i < j < |es| ==> es[i].recordedAt < es[j].recordedAt)
    && (forall i :: 0 <= i < |es| ==> es[i].recordedAt <= last)
  }

  ghost predicate AssertionsInOrder(aas: seq<Assertion>, last: Instant) {
    && (forall i, j :: 0 <= i < j < |aas| ==> aas[i].assertedAt < aas[j].assertedAt)
    && (forall i :: 0 <= i < |aas| ==> aas[i].assertedAt <= last)
  }

  /** `c` is committed and both of its logs are in time order. */
  ghost predicate Timeline(t: Tables, c: ClaimRef, last: Instant) {
    && c in t.claims && EntriesOf(t.ledger, c) != []
    && EntriesInOrder(EntriesOf(t.ledger, c), last)
    && AssertionsInOrder(AssertionsFor(t.assertions, c), last)
  }

  lemma {:induction false} EntriesOfOneClaim(s: seq<Entry>, c: ClaimRef)
    requires forall e :: e in s ==> e.claim == c
    ensures EntriesOf(s, c) == s
  {
    if s != [] {
      var p, e := s[..|s| - 1], s[|s| - 1];
      assert s == p + [e];
      assert e in s;
      EntriesOfOneClaim(p, c);
    }
  }

  /** On entries in time order every reading looks at the last entry. */
  lemma {:induction false} LatestIsLastEntry(es: seq<Entry>, c: ClaimRef)
    requires es != [] && forall e :: e in es ==> e.claim == c
    requires forall i, j :: 0 <= i < j < |es| ==> es[i].recordedAt < es[j].recordedAt
    ensures FirstLatest(es, c) == LastLatest(es, c) == Some(es[|es| - 1])
  {
    var p, e := es[..|es| - 1], es[|es| - 1];
    assert e in es;
    if p != [] {
      assert forall x :: x in p ==> x in es;
      LatestIsLastEntry(p, c);
      assert p[|p| - 1] == es[|es| - 2];
    }
  }

  lemma LoadedInOrder(t: Tables, c: ClaimRef, last: Instant)
    requires EntriesOf(t.ledger, c) != [] && EntriesInOrder(EntriesOf(t.ledger, c), last)
    ensures LoadLedger(t, c) == EntriesOf(t.ledger, c)
    ensures var es := EntriesOf(t.ledger, c);
            && FirstLatest(LoadLedger(t, c), c) == LastLatest(LoadLedger(t, c), c) == Some(es[|es| - 1])
            && Denied(LoadLedger(t, c), c) == Denied(t.ledger, c) == Watched(es).denied
            && IsQueued(t, c) == (es[|es| - 1].disposition == QueuedForAdjudication)
  {
    var es := EntriesOf(t.ledger, c);
    SortOfSorted(es, Earlier);
    EntriesOfOneClaim(es, c);
    LatestIsLastEntry(es, c);
  }

  lemma ActiveInOrder(aas: seq<Assertion>, last: Instant, asOf: Instant)
    requires AssertionsInOrder(aas, last)
    ensures ActiveBoundAt(aas, asOf) == Walk(aas, asOf)
  {
    SortOfSorted(aas, AssertedBefore);
  }

  lemma ActiveAfterAppend(aas: seq<Assertion>, a: Assertion, asOf: Instant, last: Instant)
    requires AssertionsInOrder(aas, last) && last < a.assertedAt
    ensures AssertionsInOrder(aas + [a], a.assertedAt)
    ensures ActiveBoundAt(aas + [a], asOf) == Toggle(ActiveBoundAt(aas, asOf), a, asOf)
  {
    ActiveInOrder(aas, last, asOf);
    ActiveInOrder(aas + [a], a.assertedAt, asOf);
    assert (aas + [a])[..|aas|] == aas;
  }

  lemma AppendToLogs(t: Tables, a: Assertion, e: Entry, c: ClaimRef)
    ensures var t' := WriteValidityAndLedger(t, a, e);
            && EntriesOf(t'.ledger, c) == EntriesOf(t.ledger, c) + (if e.claim == c then [e] else [])
            && AssertionsFor(t'.assertions, c) == AssertionsFor(t.assertions, c) + (if a.target == c then [a] else [])
  {
    assert (t.ledger + [e])[..|t.ledger|] == t.ledger;
    assert (t.assertions + [a])[..|t.assertions|] == t.assertions;
  }

  /** The call appends to the logs of `c`. */
  predicate WritesTo(t: Tables, req: Request, now: Instant, c: ClaimRef) {
    Decide(t, req, now).Write? && req.target == c
  }

  function WrittenKind(req: Request, now: Instant): AssertionKind {
    match req.input
    case BoundInput(at, g) => Bound(at, g)
    case ReopenInput => Reopen(now)
  }

  function WrittenEntry(req: Request, now: Instant): Entry {
    if req.input.BoundInput? then HostBoundEntry(req.target, now) else ReopenEntry(req.target, now)
  }

  /** What the gates let through. */
  lemma GatesPassed(t: Tables, req: Request, now: Instant)
    ensures var d := Decide(t, req, now);
            d.Write? ==>
              && d.kind == WrittenKind(req, now) && d.entry == WrittenEntry(req, now)
              && req.external && req.target in t.claims
              && var vt, active := t.claims[req.target].validTime, ActiveBoundAt(AssertionsFor(t.assertions, req.target), now);
                 match req.input
                 case BoundInput(at, _) =>
                   && !UnderAdjudication(LoadLedger(t, req.target), req.target)
                   && (vt.start.Some? ==> vt.start.value <= at) && active.None?
                   && (vt.end.Some? ==> at < vt.end.value)
                 case ReopenInput => active.Some?
  {
  }

  lemma DecisionOnLogs(t: Tables, req: Request, d: Decision, now: Instant, ref: Uuid, c: ClaimRef)
    requires d.Write? ==> d.entry.claim == req.target
    ensures var t' := Apply(t, req, d, now, ref).0;
            && t'.claims == t.claims && t'.pending == t.pending && t'.edges == t.edges
            && if d.Write? && req.target == c then
                 && AssertionsFor(t'.assertions, c) == AssertionsFor(t.assertions, c) + [Assertion(ref, c, d.kind, now)]
                 && EntriesOf(t'.ledger, c) == EntriesOf(t.ledger, c) + [d.entry]
               else
                 && AssertionsFor(t'.assertions, c) == AssertionsFor(t.assertions, c)
                 && EntriesOf(t'.ledger, c) == EntriesOf(t.ledger, c)
  {
    if d.Write? {
      AppendToLogs(t, Assertion(ref, req.target, d.kind, now), d.entry, c);
    }
  }

  /** What a call does to the logs of `c`: it appends one matching pair, or nothing. */
  lemma CallOnLogs(t: Tables, req: Request, now: Instant, ref: Uuid, c: ClaimRef)
    ensures var t' := Assert(t, req, now, ref).0;
            && t'.claims == t.claims && t'.pending == t.pending && t'.edges == t.edges
            && if WritesTo(t, req, now, c) then
                 && AssertionsFor(t'.assertions, c) == AssertionsFor(t.assertions, c) + [Assertion(ref, c, WrittenKind(req, now), now)]
                 && EntriesOf(t'.ledger, c) == EntriesOf(t.ledger, c) + [WrittenEntry(req, now)]
               else
                 && AssertionsFor(t'.assertions, c) == AssertionsFor(t.assertions, c)
                 && EntriesOf(t'.ledger, c) == EntriesOf(t.ledger, c)
  {
    GatesPassed(t, req, now);
    DecisionOnLogs(t, req, Decide(t, req, now), now, ref, c);
  }

  /** The entry a call appends, if any. */
  function CallEntries(t: Tables, req: Request, now: Instant): seq<Entry> {
    if WritesTo(t, req, now, req.target) then [WrittenEntry(req, now)] else []
  }

  lemma CallAppends(t: Tables, req: Request, now: Instant, ref: Uuid)
    ensures var t' := Assert(t, req, now, ref).0;
            && t'.ledger == t.ledger + CallEntries(t, req, now)
            && t'.claims == t.claims && t'.pending == t.pending && t'.edges == t.edges
    ensures forall e :: e in CallEntries(t, req, now) ==>
              e.claim == req.target && e.claim in t.claims && e.disposition in {Superseded, Reinstated}
  {
    GatesPassed(t, req, now);
    assert t.ledger + [] == t.ledger;
  }

  lemma LogsStayInOrder(es: seq<Entry>, e: Entry, aas: seq<Assertion>, a: Assertion, last: Instant)
    requires EntriesInOrder(es, last) && AssertionsInOrder(aas, last) && last < e.recordedAt == a.assertedAt
    ensures EntriesInOrder(es + [e], e.recordedAt) && AssertionsInOrder(aas + [a], a.assertedAt)
  {
  }

  lemma StillInOrder(es: seq<Entry>, aas: seq<Assertion>, last: Instant, now: Instant)
    requires EntriesInOrder(es, last) && AssertionsInOrder(aas, last) && last <= now
    ensures EntriesInOrder(es, now) && AssertionsInOrder(aas, now)
  {
  }

  lemma CallKeepsTimeline(t: Tables, req: Request, now: Instant, ref: Uuid, c: ClaimRef, last: Instant)
    requires Timeline(t, c, last) && last < now
    ensures Timeline(Assert(t, req, now, ref).0, c, now)
  {
    var es, aas := EntriesOf(t.ledger, c), AssertionsFor(t.assertions, c);
    CallOnLogs(t, req, now, ref, c);
    LogsStayInOrder(es, WrittenEntry(req, now), aas, Assertion(ref, c, WrittenKind(req, now), now), last);
    StillInOrder(es, aas, last, now);
  }

  // ---- Receipts -----------------------------------------------------------------------------

  predicate Inside(vt: ValidTime, a: Assertion) {
    a.kind.Bound? ==>
      && (vt.start.Some? ==> vt.start.value <= a.kind.boundAt)
      && (vt.end.Some? ==> a.kind.boundAt < vt.end.value)
  }

  /** Every stored Bound of `c` lies in the window the claim was committed with. */
  ghost predicate BoundsInsideWindow(t: Tables, c: ClaimRef) {
    && c in t.claims
    && forall a :: a in AssertionsFor(t.assertions, c) ==> Inside(t.claims[c].validTime, a)
  }

  lemma BoundsStayInside(t: Tables, req: Request, now: Instant, ref: Uuid, c: ClaimRef)
    requires BoundsInsideWindow(t, c)
    ensures BoundsInsideWindow(Assert(t, req, now, ref).0, c)
  {
    CallOnLogs(t, req, now, ref, c);
    if WritesTo(t, req, now, c) {
      GatesPassed(t, req, now);
      assert Inside(t.claims[c].validTime, Assertion(ref, c, WrittenKind(req, now), now));
    }
  }

  lemma ActiveBoundIsStored(aas: seq<Assertion>, asOf: Instant)
    ensures var b := ActiveBoundAt(aas, asOf);
            b.Some? ==> b.value.boundAt <= asOf
                        && exists a :: a in aas && a.kind == Bound(b.value.boundAt, b.value.granularity) && a.ref == b.value.assertionRef
                                    && Effective(a, asOf)
  {
    var sorted := Sort(aas, AssertedBefore);
    var b := ActiveBoundAt(aas, asOf);
    WalkFindsLastEffective(sorted, asOf);
    if b.Some? {
      var i :| LastEffectiveAt(sorted, asOf, i) && sorted[i].kind.Bound?
            && b.value == BoundState(sorted[i].kind.boundAt, sorted[i].ref, sorted[i].kind.granularity);
      assert sorted[i] in multiset(aas);
    }
  }

  lemma WindowEndAfterBound(vt: ValidTime, aas: seq<Assertion>, a: Assertion, asOf: Instant, last: Instant)
    requires AssertionsInOrder(aas, last) && last < a.assertedAt <= asOf
    requires a.kind.Bound? && Inside(vt, a)
    ensures a.kind.boundAt <= asOf ==> WindowEnd(vt, aas + [a], asOf) == Some(a.kind.boundAt)
    ensures asOf < a.kind.boundAt ==> WindowEnd(vt, aas + [a], asOf) == WindowEnd(vt, aas, asOf)
  {
    ActiveAfterAppend(aas, a, asOf, last);
  }

  lemma ActiveBoundIsInside(vt: ValidTime, aas: seq<Assertion>, asOf: Instant)
    requires forall a :: a in aas ==> Inside(vt, a)
    ensures ActiveBoundAt(aas, asOf).Some? && vt.end.Some? ==> ActiveBoundAt(aas, asOf).value.boundAt < vt.end.value
  {
    ActiveBoundIsStored(aas, asOf);
  }

  lemma WindowEndIs(vt: ValidTime, aas: seq<Assertion>, asOf: Instant)
    ensures var b := ActiveBoundAt(aas, asOf);
            WindowEnd(vt, aas, asOf) == NarrowedValidEnd(vt, if b.Some? then Some(b.value.boundAt) else None, None).0
  {
  }

  lemma UnboundWindow(t: Tables, c: ClaimRef, now: Instant)
    requires c in t.claims && ActiveBoundAt(AssertionsFor(t.assertions, c), now).None?
    ensures WindowEnd(t.claims[c].validTime, AssertionsFor(t.assertions, c), now) == t.claims[c].validTime.end
  {
  }

  /** Read off the store before the call: a Bound at `at` that succeeds will report the claim's window
      as it then is. Where a bound is active this asks that it lies within the claim's own window; where
      none is, that `at` does not, or that its instant has come. `Overtaken` needs two assertions in one
      instant. */
  ghost predicate WillBeHonest(t: Tables, c: ClaimRef, at: Instant, now: Instant, ref: Uuid)
    requires c in t.claims
  {
    var end, aas := t.claims[c].validTime.end, AssertionsFor(t.assertions, c);
    if ActiveBoundAt(aas, now).Some? then end.Some? ==> at <= end.value
    else (end.Some? && end.value <= at) || (at <= now && !Overtaken(aas, ref, now))
  }

  predicate ReportsWindow(t: Tables, c: ClaimRef, r: Response, now: Instant)
    requires c in t.claims
  {
    r.effectiveAt == WindowEnd(t.claims[c].validTime, AssertionsFor(t.assertions, c), now)
  }

  /** The Bound arm on values, when it succeeds. */
  lemma BoundSucceeds(vt: ValidTime, slice: seq<Entry>, active: Option<BoundState>, c: ClaimRef, at: Instant,
                      g: Option<DateGranularity>, now: Instant)
    requires !DecideBound(vt, slice, active, c, at, g, now).Refuse?
    ensures var d := DecideBound(vt, slice, active, c, at, g, now);
            if active.Some? then d.NoChange? && d.response.noOp && active.value.boundAt == at && d.response.effectiveAt == Some(at)
            else if vt.end.Some? && vt.end.value <= at then d.NoChange? && d.response.noOp && d.response.effectiveAt == vt.end
            else d == Write(Bound(at, g), HostBoundEntry(c, now))
  {
  }

  lemma WrittenIsHonest(vt: ValidTime, aas: seq<Assertion>, a: Assertion, now: Instant)
    requires a.kind.Bound? && a.assertedAt == now && ActiveBoundAt(aas, now).None?
    requires vt.end.Some? ==> a.kind.boundAt < vt.end.value
    ensures WindowEnd(vt, aas + [a], now) == Some(a.kind.boundAt) <==> a.kind.boundAt <= now && !Overtaken(aas, a.ref, now)
  {
    if a.kind.boundAt <= now {
      BoundOnOpenClaim(aas, a, now);
    } else {
      PendingBoundChangesNothing(aas, a, now);
    }
  }

  lemma PendingBoundChangesNothing(aas: seq<Assertion>, a: Assertion, now: Instant)
    requires !Effective(a, now)
    ensures ActiveBoundAt(aas + [a], now) == ActiveBoundAt(aas, now)
  {
    var pre, post := WalkedBetween(aas, a, now);
    WalkWithout(pre, a, post, now);
  }

  lemma {:induction false} WalkWithout(pre: seq<Assertion>, a: Assertion, post: seq<Assertion>, asOf: Instant)
    requires !Effective(a, asOf)
    ensures Walk(pre + [a] + post, asOf) == Walk(pre + post, asOf)
  {
    if post == [] {
      assert pre + [a] + post == pre + [a] && (pre + [a])[..|pre|] == pre && pre + post == pre;
    } else {
      var q := post[..|post| - 1];
      assert (pre + post)[..|pre + post| - 1] == pre + q;
      assert (pre + [a] + post)[..|pre + [a] + post| - 1] == pre + [a] + q;
      WalkWithout(pre, a, q, asOf);
    }
  }

  /** On every store, a successful Bound reports the end of the claim's window as it is after the call
      exactly under that condition. */
  lemma ReceiptHonestExactly(t: Tables, c: ClaimRef, at: Instant, g: Option<DateGranularity>, now: Instant, ref: Uuid)
    requires c in t.claims && Assert(t, Request(c, BoundInput(at, g), true), now, ref).1.Ok?
    ensures var (t', o) := Assert(t, Request(c, BoundInput(at, g), true), now, ref);
            && c in t'.claims && (o.response.noOp ==> t' == t)
            && (ReportsWindow(t', c, o.response, now) <==> WillBeHonest(t, c, at, now, ref))
  {
    hide DecideBound, UnderAdjudication, LoadLedger, AssertionsFor, ActiveBoundAt, Overtaken;
    var req := Request(c, BoundInput(at, g), true);
    var vt, aas := t.claims[c].validTime, AssertionsFor(t.assertions, c);
    var active := ActiveBoundAt(aas, now);
    BoundSucceeds(vt, LoadLedger(t, c), active, c, at, g, now);
    CallOnLogs(t, req, now, ref, c);
    WindowEndIs(vt, aas, now);
    if active.None? {
      UnboundWindow(t, c, now);
      if !(vt.end.Some? && vt.end.value <= at) {
        WrittenIsHonest(vt, aas, Assertion(ref, c, Bound(at, g), now), now);
      }
    }
  }

  /** A written Bound takes hold when its instant comes, if nothing more is asserted. */
  lemma WrittenBoundTakesHold(t: Tables, c: ClaimRef, at: Instant, g: Option<DateGranularity>, now: Instant, ref: Uuid, last: Instant)
    requires AssertionsInOrder(AssertionsFor(t.assertions, c), last) && last < now
    requires WritesTo(t, Request(c, BoundInput(at, g), true), now, c)
    ensures var t' := Assert(t, Request(c, BoundInput(at, g), true), now, ref).0;
            c in t.claims
            && forall asOf :: now <= asOf && at <= asOf ==>
                 WindowEnd(t.claims[c].validTime, AssertionsFor(t'.assertions, c), asOf) == Some(at)
  {
    var req, a := Request(c, BoundInput(at, g), true), Assertion(ref, c, Bound(at, g), now);
    CallOnLogs(t, req, now, ref, c);
    GatesPassed(t, req, now);
    forall asOf | now <= asOf && at <= asOf
      ensures WindowEnd(t.claims[c].validTime, AssertionsFor(t.assertions, c) + [a], asOf) == Some(at)
    {
      WindowEndAfterBound(t.claims[c].validTime, AssertionsFor(t.assertions, c), a, asOf, last);
    }
  }

  // ---- The two logs over a run --------------------------------------------------------------

  datatype Call = Call(req: Request, now: Instant, ref: Uuid)

  /** The tables after a run of calls. */
  function After(t: Tables, calls: seq<Call>): Tables {
    if calls == [] then t
    else
      var k := calls[|calls| - 1];
      Assert(After(t, calls[..|calls| - 1]), k.req, k.now, k.ref).0
  }

  /** The time of the last call, or the time before the run. */
  function LastTime(t0: Instant, calls: seq<Call>): Instant {
    if calls == [] then t0 else calls[|calls| - 1].now
  }

  ghost predicate TimesIncrease(t0: Instant, calls: seq<Call>) {
    forall k :: 0 <= k < |calls| ==> LastTime(t0, calls[..k]) < calls[k].now
  }

  function ValidityEntries(es: seq<Entry>): seq<Entry> {
    if es == [] then []
    else
      var rest, last := ValidityEntries(es[..|es| - 1]), es[|es| - 1];
      if last.event == ValidityAsserted then rest + [last] else rest
  }

  ghost predicate Alternate(aas: seq<Assertion>) {
    forall i :: 0 <= i < |aas| ==> (aas[i].kind.Bound? <==> i % 2 == 0)
  }

  ghost predicate Matches(a: Assertion, v: Entry) {
    && v.recordedAt == a.assertedAt
    && v.disposition == if a.kind.Bound? then Superseded else Reinstated
  }

  ghost predicate OneForOne(aas: seq<Assertion>, vs: seq<Entry>) {
    && |vs| == |aas|
    && forall i :: 0 <= i < |aas| ==> Matches(aas[i], vs[i])
  }

  /** The same, of a claim's two logs in time order. */
  ghost predicate SameStory(es: seq<Entry>, aas: seq<Assertion>, asOf: Instant) {
    && Alternate(aas)
    && OneForOne(aas, ValidityEntries(es))
    && es != []
    && (es[|es| - 1].disposition == Superseded <==> ActiveBoundAt(aas, asOf).Some?)
  }

  lemma SameStoryInOrder(t: Tables, c: ClaimRef, asOf: Instant, last: Instant)
    requires Timeline(t, c, last)
    ensures LogsAgree(t, c, asOf) <==> SameStory(EntriesOf(t.ledger, c), AssertionsFor(t.assertions, c), asOf)
  {
    LoadedInOrder(t, c, last);
  }

  /** The assertion log and the ledger tell the same story about `c`, read at `asOf`: assertions
      alternate, each has its ledger entry, and the claim reads Superseded when it is bound. */
  ghost predicate LogsAgree(t: Tables, c: ClaimRef, asOf: Instant) {
    var es, aas := EntriesOf(t.ledger, c), AssertionsFor(t.assertions, c);
    && Alternate(aas)
    && OneForOne(aas, ValidityEntries(es))
    && (DispositionOf(FirstLatest(LoadLedger(t, c), c)) == Some(Superseded) <==> ActiveBoundAt(aas, asOf).Some?)
  }

  /** Every assertion of `c` is about an instant that has come. */
  ghost predicate NothingPending(t: Tables, c: ClaimRef, asOf: Instant) {
    forall a :: a in AssertionsFor(t.assertions, c) ==> Effective(a, asOf)
  }

  /** `c` as its ingest commits it: one entry, no assertion, and not Superseded. */
  ghost predicate JustCommitted(t: Tables, c: ClaimRef, t0: Instant) {
    && c in t.claims && AssertionsFor(t.assertions, c) == []
    && var es := EntriesOf(t.ledger, c);
       |es| == 1 && es[0].event == ClaimCommitted && es[0].disposition != Superseded && es[0].recordedAt == t0
  }

  /** Read off the store before the call: it is a Bound of `c` at an instant after the call that every
      gate lets through, within the claim's own window and with no bound active. */
  predicate WritesFutureBound(t: Tables, k: Call, c: ClaimRef) {
    && k.req.external && k.req.target == c && c in t.claims
    && k.req.input.BoundInput? && k.now < k.req.input.at
    && !UnderAdjudication(LoadLedger(t, c), c)
    && ActiveBoundAt(AssertionsFor(t.assertions, c), k.now).None?
    && var vt := t.claims[c].validTime;
       && (vt.start.Some? ==> vt.start.value <= k.req.input.at)
       && (vt.end.Some? ==> k.req.input.at < vt.end.value)
  }

  /** Such a call is written, and no other Bound at a later instant is. */
  lemma FutureBoundIsWritten(t: Tables, k: Call, c: ClaimRef)
    ensures WritesFutureBound(t, k, c) <==> WritesTo(t, k.req, k.now, c) && k.req.input.BoundInput? && k.now < k.req.input.at
  {
    GatesPassed(t, k.req, k.now);
  }

  lemma CommittedReadsItsEntry(t: Tables, c: ClaimRef, t0: Instant)
    requires JustCommitted(t, c, t0)
    ensures Timeline(t, c, t0) && FirstLatest(LoadLedger(t, c), c) == Some(EntriesOf(t.ledger, c)[0])
  {
    hide LoadLedger, Denied, IsQueued, FirstLatest;
    LoadedInOrder(t, c, t0);
  }

  lemma CommittedClaimAgrees(t: Tables, c: ClaimRef, t0: Instant)
    requires JustCommitted(t, c, t0)
    ensures Timeline(t, c, t0) && NothingPending(t, c, t0) && LogsAgree(t, c, t0)
  {
    hide LoadLedger, FirstLatest, Timeline;
    CommittedReadsItsEntry(t, c, t0);
    assert ValidityEntries(EntriesOf(t.ledger, c)) == [];
  }

  /** With nothing pending, the claim is bound exactly when its last assertion is a Bound. */
  lemma BoundWhenLastIsBound(aas: seq<Assertion>, last: Instant, asOf: Instant)
    requires AssertionsInOrder(aas, last) && last <= asOf && forall a :: a in aas ==> Effective(a, last)
    ensures ActiveBoundAt(aas, asOf).Some? <==> aas != [] && aas[|aas| - 1].kind.Bound?
    ensures ActiveBoundAt(aas, asOf) == ActiveBoundAt(aas, last)
  {
    ActiveInOrder(aas, last, asOf);
    ActiveInOrder(aas, last, last);
    if aas != [] {
      assert aas[|aas| - 1] in aas;
    }
  }

  lemma AlternateAfterAppend(aas: seq<Assertion>, a: Assertion)
    requires Alternate(aas) && (a.kind.Bound? <==> aas == [] || aas[|aas| - 1].kind.Reopen?)
    ensures Alternate(aas + [a])
  {
    if aas != [] {
      assert aas[|aas| - 1].kind.Bound? <==> (|aas| - 1) % 2 == 0;
    }
  }

  lemma OneForOneAfterAppend(aas: seq<Assertion>, a: Assertion, es: seq<Entry>, e: Entry)
    requires OneForOne(aas, ValidityEntries(es)) && e.event == ValidityAsserted && Matches(a, e)
    ensures OneForOne(aas + [a], ValidityEntries(es + [e]))
  {
    assert (es + [e])[..|es|] == es;
  }

  /** A matching pair keeps the story, unless it is a Bound at a future instant. */
  lemma StoryAfterAppend(es: seq<Entry>, aas: seq<Assertion>, a: Assertion, e: Entry, last: Instant)
    requires AssertionsInOrder(aas, last) && (forall b :: b in aas ==> Effective(b, last)) && last < a.assertedAt
    requires SameStory(es, aas, last)
    requires e.event == ValidityAsserted && Matches(a, e)
    requires a.kind.Reopen? ==> a.kind.reopenAt == a.assertedAt
    requires a.kind.Bound? <==> ActiveBoundAt(aas, a.assertedAt).None?
    ensures SameStory(es + [e], aas + [a], a.assertedAt) <==> Effective(a, a.assertedAt)
  {
    BoundWhenLastIsBound(aas, last, a.assertedAt);
    ActiveAfterAppend(aas, a, a.assertedAt, last);
    AlternateAfterAppend(aas, a);
    OneForOneAfterAppend(aas, a, es, e);
  }

  lemma WrittenPair(t: Tables, k: Call, c: ClaimRef)
    requires WritesTo(t, k.req, k.now, c)
    ensures var a := Assertion(k.ref, c, WrittenKind(k.req, k.now), k.now);
            && Matches(a, WrittenEntry(k.req, k.now)) && WrittenEntry(k.req, k.now).event == ValidityAsserted
            && (a.kind.Reopen? ==> a.kind.reopenAt == k.now)
            && (a.kind.Bound? <==> ActiveBoundAt(AssertionsFor(t.assertions, c), k.now).None?)
            && (Effective(a, k.now) <==> !WritesFutureBound(t, k, c))
  {
    hide WritesFutureBound;
    GatesPassed(t, k.req, k.now);
    FutureBoundIsWritten(t, k, c);
  }

  /** The same story, before and after a call. */
  lemma StoryAfterCall(t: Tables, k: Call, c: ClaimRef, es: seq<Entry>, aas: seq<Assertion>, last: Instant)
    requires Timeline(t, c, last) && NothingPending(t, c, last) && last < k.now
    requires es == EntriesOf(t.ledger, c) && aas == AssertionsFor(t.assertions, c) && SameStory(es, aas, last)
    ensures WritesTo(t, k.req, k.now, c) ==>
              (SameStory(es + [WrittenEntry(k.req, k.now)], aas + [Assertion(k.ref, c, WrittenKind(k.req, k.now), k.now)], k.now)
               <==> !WritesFutureBound(t, k, c))
    ensures SameStory(es, aas, k.now)
  {
    BoundWhenLastIsBound(aas, last, k.now);
    if WritesTo(t, k.req, k.now, c) {
      WrittenPair(t, k, c);
      StoryAfterAppend(es, aas, Assertion(k.ref, c, WrittenKind(k.req, k.now), k.now), WrittenEntry(k.req, k.now), last);
    }
  }

  lemma PendingAfterCall(t: Tables, k: Call, c: ClaimRef, last: Instant)
    requires NothingPending(t, c, last) && last < k.now && !WritesFutureBound(t, k, c)
    ensures NothingPending(Assert(t, k.req, k.now, k.ref).0, c, k.now)
  {
    CallOnLogs(t, k.req, k.now, k.ref, c);
    if WritesTo(t, k.req, k.now, c) {
      WrittenPair(t, k, c);
    }
  }

  /** One call keeps the two logs in agreement, unless it writes a Bound at a future instant, and
      then they disagree right after it. */
  lemma OneCall(t: Tables, k: Call, c: ClaimRef, last: Instant)
    requires Timeline(t, c, last) && NothingPending(t, c, last) && LogsAgree(t, c, last) && last < k.now
    ensures var t' := Assert(t, k.req, k.now, k.ref).0;
            && Timeline(t', c, k.now)
            && (LogsAgree(t', c, k.now) <==> !WritesFutureBound(t, k, c))
            && (!WritesFutureBound(t, k, c) ==> NothingPending(t', c, k.now))
  {
    SameStoryInOrder(t, c, last, last);
    StoryAfterCall(t, k, c, EntriesOf(t.ledger, c), AssertionsFor(t.assertions, c), last);
    CallKeepsTimeline(t, k.req, k.now, k.ref, c, last);
    SameStoryInOrder(Assert(t, k.req, k.now, k.ref).0, c, k.now, k.now);
    CallOnLogs(t, k.req, k.now, k.ref, c);
    if !WritesFutureBound(t, k, c) {
      PendingAfterCall(t, k, c, last);
    }
  }

  /** No call among the first `n` writes `c` a Bound at a future instant. */
  ghost predicate NoFutureBound(t: Tables, c: ClaimRef, calls: seq<Call>, n: nat)
    requires n <= |calls|
  {
    forall k :: 0 <= k < n ==> !WritesFutureBound(After(t, calls[..k]), calls[k], c)
  }

  lemma {:induction false} RunKeepsAgreement(t: Tables, c: ClaimRef, t0: Instant, calls: seq<Call>, n: nat)
    requires JustCommitted(t, c, t0) && TimesIncrease(t0, calls) && n <= |calls|
    requires NoFutureBound(t, c, calls, n)
    ensures var t', last := After(t, calls[..n]), LastTime(t0, calls[..n]);
            Timeline(t', c, last) && NothingPending(t', c, last) && LogsAgree(t', c, last)
  {
    if n == 0 {
      CommittedClaimAgrees(t, c, t0);
    } else {
      RunKeepsAgreement(t, c, t0, calls, n - 1);
      AfterOneMore(t, t0, calls, n - 1);
      OneCall(After(t, calls[..n - 1]), calls[n - 1], c, LastTime(t0, calls[..n - 1]));
    }
  }

  /** Over any run of calls at increasing times, on any targets, the two logs of a claim agree after
      every call exactly when no call writes it a Bound whose instant is still to come. */
  lemma LogsAgreeExactly(t: Tables, c: ClaimRef, t0: Instant, calls: seq<Call>)
    requires JustCommitted(t, c, t0) && TimesIncrease(t0, calls)
    ensures (forall n :: 0 <= n <= |calls| ==> LogsAgree(After(t, calls[..n]), c, LastTime(t0, calls[..n])))
            <==> NoFutureBound(t, c, calls, |calls|)
  {
    if NoFutureBound(t, c, calls, |calls|) {
      forall n | 0 <= n <= |calls| ensures LogsAgree(After(t, calls[..n]), c, LastTime(t0, calls[..n])) {
        RunKeepsAgreement(t, c, t0, calls, n);
      }
    } else {
      var k := FirstFutureBound(t, c, calls, |calls|);
      RunKeepsAgreement(t, c, t0, calls, k);
      FutureBoundBreaks(t, c, t0, calls, k);
    }
  }

  lemma FutureBoundBreaks(t: Tables, c: ClaimRef, t0: Instant, calls: seq<Call>, k: nat)
    requires k < |calls| && LastTime(t0, calls[..k]) < calls[k].now
    requires var t', last := After(t, calls[..k]), LastTime(t0, calls[..k]);
             Timeline(t', c, last) && NothingPending(t', c, last) && LogsAgree(t', c, last)
    requires WritesFutureBound(After(t, calls[..k]), calls[k], c)
    ensures !LogsAgree(After(t, calls[..k + 1]), c, LastTime(t0, calls[..k + 1]))
  {
    OneCall(After(t, calls[..k]), calls[k], c, LastTime(t0, calls[..k]));
    AfterOneMore(t, t0, calls, k);
  }

  lemma AfterOneMore(t: Tables, t0: Instant, calls: seq<Call>, k: nat)
    requires k < |calls|
    ensures After(t, calls[..k + 1]) == Assert(After(t, calls[..k]), calls[k].req, calls[k].now, calls[k].ref).0
    ensures LastTime(t0, calls[..k + 1]) == calls[k].now
  {
    assert calls[..k + 1][..k] == calls[..k];
  }

  lemma {:induction false} FirstFutureBound(t: Tables, c: ClaimRef, calls: seq<Call>, n: nat) returns (k: nat)
    requires n <= |calls| && !NoFutureBound(t, c, calls, n)
    ensures k < n && WritesFutureBound(After(t, calls[..k]), calls[k], c) && NoFutureBound(t, c, calls, k)
  {
    if NoFutureBound(t, c, calls, n - 1) {
      k := n - 1;
    } else {
      k := FirstFutureBound(t, c, calls, n - 1);
    }
  }

  // ---- Receipts over a run ------------------------------------------------------------------

  lemma {:induction false} RunKeepsTimeline(t: Tables, c: ClaimRef, t0: Instant, calls: seq<Call>, n: nat)
    requires JustCommitted(t, c, t0) && TimesIncrease(t0, calls) && n <= |calls|
    ensures var t', last := After(t, calls[..n]), LastTime(t0, calls[..n]);
            && Timeline(t', c, last) && BoundsInsideWindow(t', c) && t'.claims == t.claims
  {
    hide LogsAgree, NothingPending;
    if n == 0 {
      CommittedClaimAgrees(t, c, t0);
    } else {
      RunKeepsTimeline(t, c, t0, calls, n - 1);
      AfterOneMore(t, t0, calls, n - 1);
      var k, before := calls[n - 1], After(t, calls[..n - 1]);
      CallKeepsTimeline(before, k.req, k.now, k.ref, c, LastTime(t0, calls[..n - 1]));
      BoundsStayInside(before, k.req, k.now, k.ref, c);
      CallOnLogs(before, k.req, k.now, k.ref, c);
    }
  }

  /** If the call is a Bound of `c` that succeeds, its receipt reports the window after the call. */
  predicate ReceiptHonest(t: Tables, k: Call, c: ClaimRef)
    requires c in t.claims
  {
    k.req.target == c && k.req.input.BoundInput? ==>
      var (t', o) := Assert(t, k.req, k.now, k.ref);
      o.Ok? ==> c in t'.claims && ReportsWindow(t', c, o.response, k.now)
  }

  lemma NotOvertaken(aas: seq<Assertion>, last: Instant, ref: Uuid, now: Instant)
    requires AssertionsInOrder(aas, last) && last < now
    ensures !Overtaken(aas, ref, now)
  {
  }

  /** Of a claim whose Bounds lie inside its window, and at a later clock reading. */
  lemma ReceiptInRun(t: Tables, k: Call, c: ClaimRef, last: Instant)
    requires Timeline(t, c, last) && BoundsInsideWindow(t, c) && last < k.now
    ensures ReceiptHonest(t, k, c) <==> !WritesFutureBound(t, k, c)
  {
    hide WritesFutureBound;
    FutureBoundIsWritten(t, k, c);
    if k.req.target == c && k.req.input.BoundInput? && Assert(t, k.req, k.now, k.ref).1.Ok? {
      SuccessIsExternal(t, k);
      ReceiptOfSuccess(t, k, c, last);
    } else {
      WrittenSucceeds(t, k, c);
    }
  }

  lemma SuccessIsExternal(t: Tables, k: Call)
    requires k.req.input.BoundInput? && Assert(t, k.req, k.now, k.ref).1.Ok?
    ensures k.req == Request(k.req.target, BoundInput(k.req.input.at, k.req.input.granularity), true)
  {
  }

  lemma WrittenSucceeds(t: Tables, k: Call, c: ClaimRef)
    ensures WritesTo(t, k.req, k.now, c) ==> Assert(t, k.req, k.now, k.ref).1.Ok?
  {
  }

  lemma ReceiptOfSuccess(t: Tables, k: Call, c: ClaimRef, last: Instant)
    requires Timeline(t, c, last) && BoundsInsideWindow(t, c) && last < k.now
    requires k.req.target == c && k.req.external && k.req.input.BoundInput? && Assert(t, k.req, k.now, k.ref).1.Ok?
    ensures ReceiptHonest(t, k, c) <==> !(WritesTo(t, k.req, k.now, c) && k.now < k.req.input.at)
  {
    hide DecideBound, UnderAdjudication, LoadLedger;
    var vt, aas := t.claims[c].validTime, AssertionsFor(t.assertions, c);
    var at, g := k.req.input.at, k.req.input.granularity;
    ReceiptHonestExactly(t, c, at, g, k.now, k.ref);
    NotOvertaken(aas, last, k.ref, k.now);
    ActiveBoundIsInside(vt, aas, k.now);
    BoundSucceeds(vt, LoadLedger(t, c), ActiveBoundAt(aas, k.now), c, at, g, k.now);
  }

  /** Over any run of calls at increasing times, on any targets, every successful Bound of a claim
      reports its window as it is after that call exactly when no call writes the claim a Bound whose
      instant is still to come: the same condition as for the two logs. */
  lemma ReceiptsHonestExactly(t: Tables, c: ClaimRef, t0: Instant, calls: seq<Call>)
    requires JustCommitted(t, c, t0) && TimesIncrease(t0, calls)
    ensures (forall k :: 0 <= k < |calls| ==> c in After(t, calls[..k]).claims && ReceiptHonest(After(t, calls[..k]), calls[k], c))
            <==> NoFutureBound(t, c, calls, |calls|)
  {
    hide ReceiptHonest, WritesFutureBound;
    forall k | 0 <= k < |calls|
      ensures c in After(t, calls[..k]).claims
      ensures ReceiptHonest(After(t, calls[..k]), calls[k], c) <==> !WritesFutureBound(After(t, calls[..k]), calls[k], c)
    {
      RunKeepsTimeline(t, c, t0, calls, k);
      ReceiptInRun(After(t, calls[..k]), calls[k], c, LastTime(t0, calls[..k]));
    }
  }

  /** Over such a run every stored Bound of the claim lies in the window it was committed with. */
  lemma BoundsInsideOverRun(t: Tables, c: ClaimRef, t0: Instant, calls: seq<Call>)
    requires JustCommitted(t, c, t0) && TimesIncrease(t0, calls)
    ensures BoundsInsideWindow(After(t, calls), c) && After(t, calls).claims == t.claims
  {
    RunKeepsTimeline(t, c, t0, calls, |calls|);
    assert calls[..|calls|] == calls;
  }

  // ---- How the active bound moves -----------------------------------------------------------

  /** While nothing is written, the active bound stays what it is at every later reading exactly
      when the claim's last assertion is about an instant that has come. */
  lemma ActiveBoundSettledExactly(aas: seq<Assertion>, now: Instant)
    requires AssertionsInOrder(aas, now)
    requires forall i :: 0 <= i < |aas| && aas[i].kind.Reopen? ==> aas[i].kind.reopenAt == aas[i].assertedAt
    ensures (forall asOf :: now <= asOf ==> ActiveBoundAt(aas, asOf) == ActiveBoundAt(aas, now))
            <==> (aas == [] || Effective(aas[|aas| - 1], now))
  {
    forall asOf ensures ActiveBoundAt(aas, asOf) == Walk(aas, asOf) {
      ActiveInOrder(aas, now, asOf);
    }
    if aas != [] && !Effective(aas[|aas| - 1], now) {
      ActiveBoundIsStored(aas, now);
      var late := aas[|aas| - 1].kind.At();
      assert ActiveBoundAt(aas, late).value.boundAt == late;
    }
  }

  /** When nothing is pending, a call moves a claim's active bound exactly when it is a Reopen of
      that claim. */
  lemma ActiveBoundMovesOnlyByReopen(t: Tables, k: Call, c: ClaimRef, last: Instant)
    requires Timeline(t, c, last) && NothingPending(t, c, last) && last < k.now
    requires ActiveBoundAt(AssertionsFor(t.assertions, c), last).Some?
    ensures var t' := Assert(t, k.req, k.now, k.ref).0;
            ActiveBoundAt(AssertionsFor(t'.assertions, c), k.now) != ActiveBoundAt(AssertionsFor(t.assertions, c), last)
            <==> k.req.external && k.req.target == c && k.req.input.ReopenInput?
  {
    var aas := AssertionsFor(t.assertions, c);
    CallOnLogs(t, k.req, k.now, k.ref, c);
    BoundWhenLastIsBound(aas, last, k.now);
    ReopenOfActive(t, k, c);
    if WritesTo(t, k.req, k.now, c) {
      ReopenClears(aas, k.ref, c, k.now, last);
    }
  }

  /** Against an active bound only a Reopen is written, and it is. */
  lemma ReopenOfActive(t: Tables, k: Call, c: ClaimRef)
    requires c in t.claims && ActiveBoundAt(AssertionsFor(t.assertions, c), k.now).Some?
    ensures WritesTo(t, k.req, k.now, c) <==> k.req.external && k.req.target == c && k.req.input.ReopenInput?
  {
    GatesPassed(t, k.req, k.now);
  }

  lemma ReopenClears(aas: seq<Assertion>, ref: Uuid, c: ClaimRef, now: Instant, last: Instant)
    requires AssertionsInOrder(aas, last) && last < now
    ensures ActiveBoundAt(aas + [Assertion(ref, c, Reopen(now), now)], now).None?
  {
    ActiveAfterAppend(aas, Assertion(ref, c, Reopen(now), now), now, last);
  }

  /** So over a run: as long as no Bound at a future instant has been written, an active bound is moved
      by the calls that are an external Reopen of the claim, and by no other. */
  lemma ActiveBoundMovesOverRun(t: Tables, c: ClaimRef, t0: Instant, calls: seq<Call>, k: nat)
    requires JustCommitted(t, c, t0) && TimesIncrease(t0, calls) && k < |calls| && NoFutureBound(t, c, calls, k)
    requires ActiveBoundAt(AssertionsFor(After(t, calls[..k]).assertions, c), LastTime(t0, calls[..k])).Some?
    ensures ActiveBoundAt(AssertionsFor(After(t, calls[..k + 1]).assertions, c), LastTime(t0, calls[..k + 1]))
            != ActiveBoundAt(AssertionsFor(After(t, calls[..k]).assertions, c), LastTime(t0, calls[..k]))
            <==> calls[k].req.external && calls[k].req.target == c && calls[k].req.input.ReopenInput?
  {
    hide Assert, ActiveBoundAt;
    RunKeepsAgreement(t, c, t0, calls, k);
    AfterOneMore(t, t0, calls, k);
    ActiveBoundMovesOnlyByReopen(After(t, calls[..k]), calls[k], c, LastTime(t0, calls[..k]));
  }

  lemma NoneEffectiveNoneActive(aas: seq<Assertion>, asOf: Instant)
    requires forall a :: a in aas && a.kind.Bound? ==> !Effective(a, asOf)
    ensures ActiveBoundAt(aas, asOf).None?
  {
    var sorted := Sort(aas, AssertedBefore);
    WalkFindsLastEffective(sorted, asOf);
    forall i | 0 <= i < |sorted| ensures sorted[i] in aas {
      assert sorted[i] in multiset(sorted);
    }
  }

  /** Gate 4 counts only Bounds that are effective at the call's own clock reading. When every stored
      Bound is still to come, or was asserted by a call that read its clock later, one more Bound at
      any other instant of the window is written beside them instead of being refused. */
  lemma UnseenBoundsAreNotCounted(t: Tables, c: ClaimRef, at: Instant, g: Option<DateGranularity>, now: Instant, ref: Uuid)
    requires c in t.claims && !UnderAdjudication(LoadLedger(t, c), c)
    requires Inside(t.claims[c].validTime, Assertion(ref, c, Bound(at, g), now))
    requires forall a :: a in AssertionsFor(t.assertions, c) && a.kind.Bound? ==> now < a.kind.boundAt || now < a.assertedAt
    ensures var t' := Assert(t, Request(c, BoundInput(at, g), true), now, ref).0;
            AssertionsFor(t'.assertions, c) == AssertionsFor(t.assertions, c) + [Assertion(ref, c, Bound(at, g), now)]
  {
    NoneEffectiveNoneActive(AssertionsFor(t.assertions, c), now);
    CallOnLogs(t, Request(c, BoundInput(at, g), true), now, ref, c);
  }

  // ---- The use case -------------------------------------------------------------------------

  class AssertValidityUseCase {
    const persistence: SqlitePersistenceStore

    constructor (store: SqlitePersistenceStore)
      ensures persistence == store
    {
      persistence := store;
    }

    /** `execute`: either the store fails and neither log changes, or both logs and the answer are
        those of `Assert`. */
    method Execute(req: Request, now: Instant, assertionRef: Uuid) returns (r: Outcome)
      requires persistence.Valid()
      modifies persistence, persistence.home
      ensures persistence.Valid()
      ensures if r == Err(PersistenceFailure) then
                persistence.Committed() == old(persistence.Committed())
              else
                (persistence.Committed(), r) == Assert(old(persistence.Committed()), req, now, assertionRef)
      ensures r == Err(PersistenceFailure) ==> old(persistence.state) != Idle || persistence.Failures() > old(persistence.Failures())
    {
      if !req.external {
        return Err(InsufficientProvenanceForOverturn);
      }
      var tables := persistence.Query();
      if tables.None? {
        return Err(PersistenceFailure);
      }
      var t := tables.value;
      if req.target !in t.claims {
        return Err(ClaimNotFound(req.target));
      }
      var active := ComputeActiveBoundAt(AssertionsFor(t.assertions, req.target), now);
      match req.input {
        case BoundInput(at, granularity) =>
          r := ExecuteBound(t.claims[req.target].validTime, LoadLedger(t, req.target), active, req, now, assertionRef);
        case ReopenInput =>
          if active.None? {
            return Ok(Response(req.target, None, Reopen(now), None, Reinstated, true));
          }
          r := WriteUnit(Assertion(assertionRef, req.target, Reopen(now), now), ReopenEntry(req.target, now));
      }
    }

    /** The Bound arm. */
    method ExecuteBound(vt: ValidTime, slice: seq<Entry>, active: Option<BoundState>, req: Request, now: Instant, ref: Uuid)
      returns (r: Outcome)
      requires persistence.Valid() && persistence.state == Idle && req.input.BoundInput?
      modifies persistence, persistence.home
      ensures persistence.Valid()
      ensures if r == Err(PersistenceFailure) then
                persistence.Committed() == old(persistence.Committed())
              else
                (persistence.Committed(), r)
                == Apply(old(persistence.Committed()), req,
                         DecideBound(vt, slice, active, req.target, req.input.at, req.input.granularity, now), now, ref)
      ensures r == Err(PersistenceFailure) ==> persistence.Failures() > old(persistence.Failures())
    {
      var at := req.input.at;
      var held := HeldByAdjudication(slice, req.target);
      if held {
        return Err(TargetUnderAdjudication(req.target));
      }
      if vt.start.Some? && at < vt.start.value {
        return Err(IncoherentTemporalWindow(vt.start.value, at));
      }
      if active.Some? {
        var b := active.value;
        if b.boundAt == at {
          return Ok(Response(req.target, Some(b.assertionRef), Bound(b.boundAt, b.granularity), Some(b.boundAt), Superseded, true));
        }
        return Err(AlreadyBound(req.target, b.boundAt));
      }
      if vt.end.Some? && vt.end.value <= at {
        return Ok(Response(req.target, None, Bound(vt.end.value, vt.endGranularity), vt.end, Superseded, true));
      }
      r := WriteUnit(Assertion(ref, req.target, Bound(at, req.input.granularity), now), HostBoundEntry(req.target, now));
    }

    /** Gate 2.5, on the two readings of the target's slice. */
    method HeldByAdjudication(slice: seq<Entry>, target: ClaimRef) returns (held: bool)
      ensures held == UnderAdjudication(slice, target)
    {
      var latest := BuildLatestDispositionMap(slice);
      var denied := BuildDeniedViaAdjudicationSet(slice);
      held := (target in latest && latest[target] == QueuedForAdjudication) || target in denied;
    }

    /** One transaction with the assertion and its ledger entry: both are committed, or neither. */
    method WriteUnit(a: Assertion, e: Entry) returns (r: Outcome)
      requires persistence.Valid() && persistence.state == Idle
      requires e.claim == a.target
      modifies persistence, persistence.home
      ensures persistence.Valid()
      ensures if r == Err(PersistenceFailure) then
                persistence.Committed() == old(persistence.Committed())
              else
                && persistence.Committed() == WriteValidityAndLedger(old(persistence.Committed()), a, e)
                && r == Ok(Response(a.target, Some(a.ref), a.kind, Some(a.kind.At()), e.disposition, false))
      ensures r == Err(PersistenceFailure) ==> persistence.Failures() > old(persistence.Failures())
    {
      var txn := persistence.BeginAtomic();
      if txn == null {
        return Err(PersistenceFailure);
      }
      var ok := persistence.Append(txn, InsertAssertion(a));
      if ok {
        ok := persistence.Append(txn, InsertEntry(e));
      }
      if !ok {
        var _ := persistence.Rollback(txn);
        return Err(PersistenceFailure);
      }
      ok := persistence.Commit(txn);
      r := if ok then Ok(Response(a.target, Some(a.ref), a.kind, Some(a.kind.At()), e.disposition, false))
           else Err(PersistenceFailure);
    }
  }
}
