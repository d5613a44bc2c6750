/** The readings of a ledger slice: three ways the code asks for a claim's latest disposition,
    and the set of claims denied by adjudication. */
module LedgerReadings {
  import opened Ledger
  import opened StableSort

  // ---- Latest disposition -------------------------------------------------------------------

  /** Position `i` holds an entry of `claim` that no other entry of the claim outdates. */
  ghost predicate LatestAt(ledger: seq<Entry>, claim: ClaimRef, i: int) {
    && 0 <= i < |ledger| && ledger[i].claim == claim
    && forall j :: 0 <= j < |ledger| && ledger[j].claim == claim ==> ledger[j].recordedAt <= ledger[i].recordedAt
  }

  /** The fold's reading: an entry replaces the kept one only when it is strictly later. */
  function FirstLatest(ledger: seq<Entry>, claim: ClaimRef): (r: Option<Entry>)
  {
    if ledger == [] then None
    else
      var kept, e := FirstLatest(ledger[..|ledger| - 1], claim), ledger[|ledger| - 1];
      if e.claim == claim && (kept.None? || e.recordedAt > kept.value.recordedAt) then Some(e) else kept
  }

  /** The `max_by_key` reading: of several maximal entries, the last one. */
  function LastLatest(ledger: seq<Entry>, claim: ClaimRef): (r: Option<Entry>)
  {
    if ledger == [] then None
    else
      var kept, e := LastLatest(ledger[..|ledger| - 1], claim), ledger[|ledger| - 1];
      if e.claim == claim && (kept.None? || e.recordedAt >= kept.value.recordedAt) then Some(e) else kept
  }

  function DispositionOf(e: Option<Entry>): (r: Option<Disposition>) {
    if e.None? then None else Some(e.value.disposition)
  }

  /** `latest_disposition_from_ledger`. */
  function LatestDispositionFromLedger(ledger: seq<Entry>, claim: ClaimRef): (r: Option<Disposition>) {
    DispositionOf(LastLatest(ledger, claim))
  }

  /** The SQL reading: some entry at `MAX(recorded_at)` carries the disposition. */
  ghost predicate SqlLatest(ledger: seq<Entry>, claim: ClaimRef, d: Disposition) {
    exists i :: LatestAt(ledger, claim, i) && ledger[i].disposition == d
  }

  /** Position `i` is the first, or the last, of the positions that hold a latest entry. */
  ghost predicate FirstLatestAt(ledger: seq<Entry>, claim: ClaimRef, i: int) {
    && LatestAt(ledger, claim, i)
    && forall j :: 0 <= j < i && ledger[j].claim == claim ==> ledger[j].recordedAt < ledger[i].recordedAt
  }

  ghost predicate LastLatestAt(ledger: seq<Entry>, claim: ClaimRef, i: int) {
    && LatestAt(ledger, claim, i)
    && forall j :: i < j < |ledger| && ledger[j].claim == claim ==> ledger[j].recordedAt < ledger[i].recordedAt
  }

  lemma LatestInExtension(p: seq<Entry>, e: Entry, claim: ClaimRef, i: int)
    requires LatestAt(p, claim, i)
    ensures e.claim != claim || e.recordedAt <= p[i].recordedAt ==> LatestAt(p + [e], claim, i)
    ensures e.claim == claim && e.recordedAt >= p[i].recordedAt ==> LatestAt(p + [e], claim, |p|)
  {
  }

  lemma FirstOfItsClaim(p: seq<Entry>, e: Entry, claim: ClaimRef)
    requires EntriesOf(p, claim) == [] && e.claim == claim
    ensures FirstLatestAt(p + [e], claim, |p|) && LastLatestAt(p + [e], claim, |p|)
  {
    NoEntries(p, claim);
  }

  lemma {:induction false} FirstLatestIsFirst(ledger: seq<Entry>, claim: ClaimRef)
    ensures FirstLatest(ledger, claim).None? <==> EntriesOf(ledger, claim) == []
    ensures FirstLatest(ledger, claim).Some? ==>
              exists i :: FirstLatestAt(ledger, claim, i) && ledger[i] == FirstLatest(ledger, claim).value
  {
    if ledger != [] {
      var p, e := ledger[..|ledger| - 1], ledger[|ledger| - 1];
      assert ledger == p + [e];
      FirstLatestIsFirst(p, claim);
      var kept := FirstLatest(p, claim);
      if kept.Some? {
        var i :| FirstLatestAt(p, claim, i) && p[i] == kept.value;
        LatestInExtension(p, e, claim, i);
        assert FirstLatestAt(ledger, claim, if e.claim == claim && e.recordedAt > kept.value.recordedAt then |p| else i);
      } else if e.claim == claim {
        FirstOfItsClaim(p, e, claim);
      }
    }
  }

  lemma {:induction false} LastLatestIsLast(ledger: seq<Entry>, claim: ClaimRef)
    ensures LastLatest(ledger, claim).None? <==> EntriesOf(ledger, claim) == []
    ensures LastLatest(ledger, claim).Some? ==>
              exists i :: LastLatestAt(ledger, claim, i) && ledger[i] == LastLatest(ledger, claim).value
  {
    if ledger != [] {
      var p, e := ledger[..|ledger| - 1], ledger[|ledger| - 1];
      assert ledger == p + [e];
      LastLatestIsLast(p, claim);
      var kept := LastLatest(p, claim);
      if kept.Some? {
        var i :| LastLatestAt(p, claim, i) && p[i] == kept.value;
        LatestInExtension(p, e, claim, i);
        assert LastLatestAt(ledger, claim, if e.claim == claim && e.recordedAt >= kept.value.recordedAt then |p| else i);
      } else if e.claim == claim {
        FirstOfItsClaim(p, e, claim);
      }
    }
  }

  lemma NoEntries(ledger: seq<Entry>, claim: ClaimRef)
    requires EntriesOf(ledger, claim) == []
    ensures forall j :: 0 <= j < |ledger| ==> ledger[j].claim != claim
  {
    forall j | 0 <= j < |ledger| ensures ledger[j].claim != claim {
      assert ledger[j] in ledger;
    }
  }

  ghost predicate ReadingsAgree(ledger: seq<Entry>, claim: ClaimRef) {
    && DispositionOf(FirstLatest(ledger, claim)) == DispositionOf(LastLatest(ledger, claim))
    && forall d :: SqlLatest(ledger, claim, d) <==> DispositionOf(FirstLatest(ledger, claim)) == Some(d)
  }

  /** Entries that tie for the latest time carry one disposition. */
  ghost predicate LatestUnambiguous(ledger: seq<Entry>, claim: ClaimRef) {
    forall i, j :: LatestAt(ledger, claim, i) && LatestAt(ledger, claim, j) ==> ledger[i].disposition == ledger[j].disposition
  }

  /** The three readings agree exactly when ties for the latest time are harmless. */
  lemma ReadingsAgreeExactly(ledger: seq<Entry>, claim: ClaimRef)
    ensures ReadingsAgree(ledger, claim) <==> LatestUnambiguous(ledger, claim)
  {
    FirstLatestIsFirst(ledger, claim);
    LastLatestIsLast(ledger, claim);
    if ReadingsAgree(ledger, claim) {
      forall i, j | LatestAt(ledger, claim, i) && LatestAt(ledger, claim, j)
        ensures ledger[i].disposition == ledger[j].disposition
      {
        assert SqlLatest(ledger, claim, ledger[i].disposition);
        assert SqlLatest(ledger, claim, ledger[j].disposition);
      }
    }
    if LatestUnambiguous(ledger, claim) {
      if EntriesOf(ledger, claim) == [] {
        NoEntries(ledger, claim);
      } else {
        var f :| LatestAt(ledger, claim, f) && ledger[f] == FirstLatest(ledger, claim).value;
        assert SqlLatest(ledger, claim, ledger[f].disposition);
      }
    }
  }

  lemma DistinctTimesAreUnambiguous(ledger: seq<Entry>, claim: ClaimRef)
    requires DistinctTimes(ledger, claim)
    ensures LatestUnambiguous(ledger, claim)
  {
    forall i, j | LatestAt(ledger, claim, i) && LatestAt(ledger, claim, j)
      ensures ledger[i].disposition == ledger[j].disposition
    {
      var es := EntriesOf(ledger, claim);
      assert ledger[i] in es && ledger[j] in es;
      var a :| 0 <= a < |es| && es[a] == ledger[i];
      var b :| 0 <= b < |es| && es[b] == ledger[j];
      assert a == b;
    }
  }

  /** Reordering a slice changes none of the readings, as long as the latest entry is unambiguous. */
  lemma ReadingsIgnoreInputOrder(a: seq<Entry>, b: seq<Entry>, claim: ClaimRef)
    requires multiset(a) == multiset(b) && LatestUnambiguous(a, claim)
    ensures ReadingsAgree(b, claim)
    ensures DispositionOf(FirstLatest(a, claim)) == DispositionOf(FirstLatest(b, claim))
    ensures LatestDispositionFromLedger(a, claim) == LatestDispositionFromLedger(b, claim)
  {
    forall i | LatestAt(b, claim, i) ensures exists k :: LatestAt(a, claim, k) && a[k] == b[i] {
      LatestCarriesOver(b, a, claim, i);
    }
    forall i, j | LatestAt(b, claim, i) && LatestAt(b, claim, j) ensures b[i].disposition == b[j].disposition {
      var k :| LatestAt(a, claim, k) && a[k] == b[i];
      var l :| LatestAt(a, claim, l) && a[l] == b[j];
    }
    ReadingsAgreeExactly(a, claim);
    ReadingsAgreeExactly(b, claim);
    FirstLatestIsFirst(a, claim);
    FirstLatestIsFirst(b, claim);
    EntriesOfMultiset(a, b, claim);
    if FirstLatest(b, claim).Some? {
      var i :| LatestAt(b, claim, i) && b[i] == FirstLatest(b, claim).value;
      var k :| LatestAt(a, claim, k) && a[k] == b[i];
      assert SqlLatest(a, claim, a[k].disposition);
    } else {
      assert |EntriesOf(a, claim)| == |multiset(EntriesOf(a, claim))| == |multiset(EntriesOf(b, claim))| == 0;
    }
  }

  lemma LatestCarriesOver(b: seq<Entry>, a: seq<Entry>, claim: ClaimRef, i: int)
    requires multiset(a) == multiset(b) && LatestAt(b, claim, i)
    ensures exists k :: LatestAt(a, claim, k) && a[k] == b[i]
  {
    assert b[i] in multiset(a);
    var k :| 0 <= k < |a| && a[k] == b[i];
    forall j | 0 <= j < |a| && a[j].claim == claim ensures a[j].recordedAt <= a[k].recordedAt {
      assert a[j] in multiset(b);
      var m :| 0 <= m < |b| && b[m] == a[j];
    }
    assert LatestAt(a, claim, k);
  }

  lemma {:induction false} LastLatestConcat(a: seq<Entry>, b: seq<Entry>, claim: ClaimRef)
    ensures var l, r := LastLatest(a, claim), LastLatest(b, claim);
            LastLatest(a + b, claim) == if r.None? || (l.Some? && r.value.recordedAt < l.value.recordedAt) then l else r
  {
    if b == [] {
      assert a + b == a;
    } else {
      assert (a + b)[..|a + b| - 1] == a + b[..|b| - 1];
      LastLatestConcat(a, b[..|b| - 1], claim);
    }
  }

  /** `build_latest_disposition_map`: one pass that keeps a time and a disposition for each claim. */
  method BuildLatestDispositionMap(ledger: seq<Entry>) returns (latest: map<ClaimRef, Disposition>)
    ensures forall c :: c in latest <==> FirstLatest(ledger, c).Some?
    ensures forall c :: c in latest ==> Some(latest[c]) == DispositionOf(FirstLatest(ledger, c))
  {
    var kept: map<ClaimRef, (Instant, Disposition)> := map[];
    for n := 0 to |ledger|
      invariant forall c :: c in kept <==> FirstLatest(ledger[..n], c).Some?
      invariant forall c :: c in kept ==>
                  var e := FirstLatest(ledger[..n], c).value;
                  kept[c] == (e.recordedAt, e.disposition)
    {
      var e := ledger[n];
      assert ledger[..n + 1][..n] == ledger[..n];
      var shouldInsert := if e.claim in kept then e.recordedAt > kept[e.claim].0 else true;
      if shouldInsert {
        kept := kept[e.claim := (e.recordedAt, e.disposition)];
      }
    }
    assert ledger[..|ledger|] == ledger;
    latest := map c | c in kept :: kept[c].1;
  }

  // ---- Denied by adjudication ---------------------------------------------------------------

  /** One past the last `Reinstated` entry, or 0. */
  function ScanFrom(entries: seq<Entry>): (r: nat)
    ensures r <= |entries|
  {
    if entries == [] then 0
    else if entries[|entries| - 1].disposition == Reinstated then |entries|
    else ScanFrom(entries[..|entries| - 1])
  }

  predicate HasQueuedThenSuperseded(entries: seq<Entry>) {
    exists k :: 0 <= k < |entries| - 1
             && entries[k].disposition == QueuedForAdjudication && entries[k + 1].disposition == Superseded
  }

  /** The marker read and the legacy scan, on one claim's entries in time order. */
  predicate DeniedByScan(entries: seq<Entry>) {
    && entries != []
    && var last := entries[|entries| - 1];
       last.disposition == Superseded &&
       match last.verdict
       case Some(v) => v == VERDICT_DENY
       case None => HasQueuedThenSuperseded(entries[ScanFrom(entries)..])
  }

  /** A one-pass automaton over a claim's entries: was there a Queued-to-Superseded step since the
      last `Reinstated`, was the last entry Queued, and is the claim denied now? */
  datatype Watch = Watch(pairSeen: bool, afterQueued: bool, denied: bool)

  function Observe(w: Watch, e: Entry): Watch {
    match e.disposition
    case Reinstated => Watch(false, false, false)
    case QueuedForAdjudication => Watch(w.pairSeen, true, false)
    case Superseded =>
      var pair := w.pairSeen || w.afterQueued;
      Watch(pair, false, if e.verdict.Some? then e.verdict.value == VERDICT_DENY else pair)
    case _ => Watch(w.pairSeen, false, false)
  }

  function Watched(entries: seq<Entry>): Watch {
    if entries == [] then Watch(false, false, false)
    else Observe(Watched(entries[..|entries| - 1]), entries[|entries| - 1])
  }

  lemma PairInExtension(s: seq<Entry>, e: Entry)
    ensures HasQueuedThenSuperseded(s + [e]) <==>
            HasQueuedThenSuperseded(s)
            || (s != [] && s[|s| - 1].disposition == QueuedForAdjudication && e.disposition == Superseded)
  {
    var t := s + [e];
    if HasQueuedThenSuperseded(s) {
      var k :| 0 <= k < |s| - 1 && s[k].disposition == QueuedForAdjudication && s[k + 1].disposition == Superseded;
      assert t[k] == s[k] && t[k + 1] == s[k + 1];
    }
    if HasQueuedThenSuperseded(t) {
      var k :| 0 <= k < |t| - 1 && t[k].disposition == QueuedForAdjudication && t[k + 1].disposition == Superseded;
      if k + 1 < |s| {
        assert s[k] == t[k] && s[k + 1] == t[k + 1];
      }
    }
    if s != [] && s[|s| - 1].disposition == QueuedForAdjudication && e.disposition == Superseded {
      assert t[|s| - 1] == s[|s| - 1] && t[|s| - 1 + 1] == e;
    }
  }

  predicate LastIsQueued(entries: seq<Entry>) {
    entries != [] && entries[|entries| - 1].disposition == QueuedForAdjudication
  }

  lemma ScanFromExtension(p: seq<Entry>, e: Entry)
    ensures ScanFrom(p + [e]) == if e.disposition == Reinstated then |p| + 1 else ScanFrom(p)
  {
    assert (p + [e])[..|p|] == p;
  }

  lemma AfterReinstated(p: seq<Entry>)
    requires ScanFrom(p) == |p|
    ensures !LastIsQueued(p)
  {
  }

  /** How one more entry changes what the window holds. */
  lemma WindowExtension(p: seq<Entry>, e: Entry)
    ensures var t := p + [e];
            HasQueuedThenSuperseded(t[ScanFrom(t)..]) <==>
            e.disposition != Reinstated
            && (HasQueuedThenSuperseded(p[ScanFrom(p)..]) || (LastIsQueued(p) && e.disposition == Superseded))
  {
    var k, t := ScanFrom(p), p + [e];
    ScanFromExtension(p, e);
    if e.disposition != Reinstated {
      assert t[k..] == p[k..] + [e];
      PairInExtension(p[k..], e);
      if k < |p| {
        assert p[k..][|p[k..]| - 1] == p[|p| - 1];
      } else {
        AfterReinstated(p);
      }
    }
  }

  /** The windowed scan and the automaton are the same reading of any entry sequence. */
  lemma {:induction false} ScanIsAutomaton(entries: seq<Entry>)
    ensures Watched(entries).denied == DeniedByScan(entries)
    ensures Watched(entries).pairSeen == HasQueuedThenSuperseded(entries[ScanFrom(entries)..])
    ensures Watched(entries).afterQueued == LastIsQueued(entries)
  {
    hide HasQueuedThenSuperseded, ScanFrom;
    if entries == [] {
      NothingSeen(entries[ScanFrom(entries)..]);
    } else {
      var p, e := entries[..|entries| - 1], entries[|entries| - 1];
      assert entries == p + [e];
      ScanIsAutomaton(p);
      WindowExtension(p, e);
    }
  }

  lemma NothingSeen(entries: seq<Entry>)
    requires entries == []
    ensures !HasQueuedThenSuperseded(entries)
  {
  }

  /** A claim's entries as the code sorts them before it reads them. */
  function TimeOrdered(ledger: seq<Entry>, claim: ClaimRef): seq<Entry> {
    Sort(EntriesOf(ledger, claim), Earlier)
  }

  predicate Denied(ledger: seq<Entry>, claim: ClaimRef) {
    Watched(TimeOrdered(ledger, claim)).denied
  }

  /** `build_denied_via_adjudication_set`: group, sort, read the marker, fall back to the scan. */
  method BuildDeniedViaAdjudicationSet(ledger: seq<Entry>) returns (denied: set<ClaimRef>)
    ensures forall c :: c in denied <==> Denied(ledger, c)
  {
    var perClaim: map<ClaimRef, seq<Entry>> := map[];
    for n := 0 to |ledger|
      invariant forall c :: c in perClaim <==> EntriesOf(ledger[..n], c) != []
      invariant forall c :: c in perClaim ==> perClaim[c] == EntriesOf(ledger[..n], c)
    {
      var e := ledger[n];
      assert ledger[..n + 1][..n] == ledger[..n];
      var group := if e.claim in perClaim then perClaim[e.claim] else [];
      perClaim := perClaim[e.claim := group + [e]];
    }
    assert ledger[..|ledger|] == ledger;

    denied := {};
    var left := perClaim.Keys;
    while left != {}
      invariant left <= perClaim.Keys
      invariant forall c :: c in denied <==> c in perClaim.Keys - left && Denied(ledger, c)
      decreases left
    {
      var c :| c in left;
      var entries := Sort(perClaim[c], Earlier);
      ScanIsAutomaton(entries);
      if DeniedByScan(entries) {
        denied := denied + {c};
      }
      left := left - {c};
    }
  }

  lemma EarlierOrders()
    ensures OrdersByKey(Earlier)
  {
  }

  /** With distinct times the answer for a claim depends on that claim's entries only, and not on
      where in the slice they stand. */
  lemma DeniedIgnoresInputOrder(a: seq<Entry>, b: seq<Entry>, claim: ClaimRef)
    requires multiset(EntriesOf(a, claim)) == multiset(EntriesOf(b, claim))
    requires DistinctTimes(a, claim)
    ensures TimeOrdered(a, claim) == TimeOrdered(b, claim)
    ensures Denied(a, claim) == Denied(b, claim)
  {
    EarlierOrders();
    SortIgnoresInputOrder(EntriesOf(a, claim), EntriesOf(b, claim), Earlier);
  }
}
