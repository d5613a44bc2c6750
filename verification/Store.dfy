/** The tables, and each statement the engine runs on them. */
module Store {
  import opened Ledger
  import opened LedgerReadings
  import opened StableSort
  import opened Validity

  /** `line` stands for the claim's agent, subject and predicate. */
  datatype Claim = Claim(line: nat, validTime: ValidTime, txTime: Instant, derivedFrom: seq<ClaimRef>)

  datatype EdgeKind = DerivedFrom | Supersedes | DependsOn | MutualExclusion

  datatype Edge = Edge(from: ClaimRef, to: ClaimRef, kind: EdgeKind, createdAt: Instant)

  datatype Status = PendingRow | ResolvedRow | ExpiredRow

  datatype Pending = Pending(handle: Uuid, challenger: ClaimRef, incumbent: ClaimRef,
                             queuedAt: Instant, expiresAt: Option<Instant>, status: Status)
  {
    /** The row's deadline has passed. */
    predicate Overdue(now: Instant) {
      expiresAt.Some? && expiresAt.value <= now
    }
  }

  datatype Tables = Tables(claims: map<ClaimRef, Claim>, assertions: seq<Assertion>, ledger: seq<Entry>,
                           edges: seq<Edge>, pending: seq<Pending>)

  // ---- Reads --------------------------------------------------------------------------------

  /** `load_validity_assertions_for`, in log order: the walk sorts them itself. */
  function AssertionsFor(assertions: seq<Assertion>, target: ClaimRef): (r: seq<Assertion>)
    ensures forall a :: a in r <==> a in assertions && a.target == target
  {
    if assertions == [] then []
    else
      var rest, last := AssertionsFor(assertions[..|assertions| - 1], target), assertions[|assertions| - 1];
      if last.target == target then rest + [last] else rest
  }

  /** `load_ledger_for_claims` for a single claim: its entries by `recorded_at`. */
  function LoadLedger(t: Tables, claim: ClaimRef): seq<Entry> {
    TimeOrdered(t.ledger, claim)
  }

  /** The state guard of every path that takes a claim out of the queue. */
  predicate IsQueued(t: Tables, claim: ClaimRef) {
    LatestDispositionFromLedger(LoadLedger(t, claim), claim) == Some(QueuedForAdjudication)
  }

  lemma SliceInOrder(ledger: seq<Entry>, claim: ClaimRef)
    ensures var es := TimeOrdered(ledger, claim);
            && (forall k :: 0 <= k < |es| ==> es[k].claim == claim)
            && (forall i, j :: 0 <= i < j < |es| ==> es[i].recordedAt <= es[j].recordedAt)
  {
    EarlierOrders();
    SortSorts(EntriesOf(ledger, claim), Earlier);
    var es := TimeOrdered(ledger, claim);
    forall k | 0 <= k < |es| ensures es[k].claim == claim {
      assert es[k] in multiset(EntriesOf(ledger, claim));
    }
    forall i, j | 0 <= i < j < |es| ensures es[i].recordedAt <= es[j].recordedAt {
      assert !Earlier(es[j], es[i]);
    }
  }

  function LastOf(es: seq<Entry>): Option<Entry> {
    if es == [] then None else Some(es[|es| - 1])
  }

  lemma TimeOrderedAfterAppend(p: seq<Entry>, e: Entry, claim: ClaimRef)
    ensures LastOf(TimeOrdered(p + [e], claim))
            == if e.claim == claim && (TimeOrdered(p, claim) == [] || LastOf(TimeOrdered(p, claim)).value.recordedAt <= e.recordedAt)
               then Some(e) else LastOf(TimeOrdered(p, claim))
  {
    assert (p + [e])[..|p|] == p;
    if e.claim == claim {
      SortOneMore(EntriesOf(p, claim), e, Earlier);
      SliceInOrder(p, claim);
      InsertLast(e, TimeOrdered(p, claim));
    }
  }

  /** Sorting keeps the `max_by_key` reading: it is the last of the sorted entries. */
  lemma {:induction false} LastLatestIsLastSorted(ledger: seq<Entry>, claim: ClaimRef)
    ensures LastLatest(ledger, claim) == LastOf(TimeOrdered(ledger, claim))
  {
    if ledger != [] {
      var p, e := ledger[..|ledger| - 1], ledger[|ledger| - 1];
      assert ledger == p + [e];
      LastLatestIsLastSorted(p, claim);
      TimeOrderedAfterAppend(p, e, claim);
    }
  }

  lemma {:induction false} InsertLast(e: Entry, es: seq<Entry>)
    requires forall k :: 0 <= k < |es| ==> es[k].recordedAt <= es[|es| - 1].recordedAt
    ensures var r := Insert(e, es, Earlier);
            r[|r| - 1] == if es == [] || es[|es| - 1].recordedAt <= e.recordedAt then e else es[|es| - 1]
  {
    if es != [] && !Earlier(e, es[0]) {
      if |es| > 1 {
        assert es[1..][|es| - 2] == es[|es| - 1];
        InsertLast(e, es[1..]);
      }
    }
  }

  lemma {:induction false} LastLatestOfSorted(es: seq<Entry>, claim: ClaimRef)
    requires forall k :: 0 <= k < |es| ==> es[k].claim == claim
    requires forall i, j :: 0 <= i < j < |es| ==> es[i].recordedAt <= es[j].recordedAt
    ensures LastLatest(es, claim) == if es == [] then None else Some(es[|es| - 1])
  {
    if es != [] {
      LastLatestOfSorted(es[..|es| - 1], claim);
    }
  }

  /** The state guard may be read off the log as it stands. */
  lemma QueuedInLog(t: Tables, claim: ClaimRef)
    ensures IsQueued(t, claim) <==> LatestDispositionFromLedger(t.ledger, claim) == Some(QueuedForAdjudication)
  {
    LastLatestIsLastSorted(t.ledger, claim);
    SliceInOrder(t.ledger, claim);
    LastLatestOfSorted(LoadLedger(t, claim), claim);
  }

  lemma LastLatestAfterAppend(ledger: seq<Entry>, e: Entry, claim: ClaimRef)
    ensures LastLatest(ledger + [e], claim)
            == if e.claim == claim && (LastLatest(ledger, claim).None? || LastLatest(ledger, claim).value.recordedAt <= e.recordedAt)
               then Some(e) else LastLatest(ledger, claim)
  {
    assert (ledger + [e])[..|ledger|] == ledger;
  }

  function RowIndex(pending: seq<Pending>, handle: Uuid): (r: Option<nat>)
    ensures r.Some? ==> r.value < |pending| && pending[r.value].handle == handle
    ensures r.None? ==> forall k :: 0 <= k < |pending| ==> pending[k].handle != handle
  {
    if pending == [] then None
    else if pending[|pending| - 1].handle == handle then Some(|pending| - 1)
    else RowIndex(pending[..|pending| - 1], handle)
  }

  function GetPending(t: Tables, handle: Uuid): Option<Pending> {
    var i := RowIndex(t.pending, handle);
    if i.None? then None else Some(t.pending[i.value])
  }

  /** ORDER BY expires_at ASC; NULL sorts first. */
  predicate DeadlineFirst(a: Pending, b: Pending) {
    b.expiresAt.Some? && (a.expiresAt.Some? ==> a.expiresAt.value < b.expiresAt.value)
  }

  function OverdueRows(pending: seq<Pending>, now: Instant): (r: seq<Pending>)
    ensures forall p :: p in r <==> p in pending && p.Overdue(now) && p.status == PendingRow
  {
    if pending == [] then []
    else
      var rest, last := OverdueRows(pending[..|pending| - 1], now), pending[|pending| - 1];
      if last.Overdue(now) && last.status == PendingRow then rest + [last] else rest
  }

  /** `list_expired`. */
  function ListExpired(t: Tables, now: Instant): (r: seq<Pending>)
    ensures forall p :: p in r <==> p in t.pending && p.Overdue(now) && p.status == PendingRow
  {
    var r := Sort(OverdueRows(t.pending, now), DeadlineFirst);
    assert forall p :: p in r <==> p in multiset(r);
    r
  }

  predicate HasPendingRow(t: Tables, claim: ClaimRef) {
    exists k :: 0 <= k < |t.pending| && t.pending[k].challenger == claim && t.pending[k].status == PendingRow
  }

  /** Entry `e` is at `MAX(recorded_at)` of its claim. */
  predicate AtMaxTime(ledger: seq<Entry>, e: Entry) {
    forall k :: 0 <= k < |ledger| && ledger[k].claim == e.claim ==> ledger[k].recordedAt <= e.recordedAt
  }

  predicate OrphanEntry(t: Tables, e: Entry) {
    && e.disposition == QueuedForAdjudication && e.claim in t.claims
    && AtMaxTime(t.ledger, e) && !HasPendingRow(t, e.claim)
  }

  function OrphansAmong(t: Tables, n: nat): (r: seq<ClaimRef>)
    requires n <= |t.ledger|
    ensures forall c :: c in r <==> exists k :: 0 <= k < n && t.ledger[k].claim == c && OrphanEntry(t, t.ledger[k])
  {
    if n == 0 then []
    else
      var rest, e := OrphansAmong(t, n - 1), t.ledger[n - 1];
      if OrphanEntry(t, e) then rest + [e.claim] else rest
  }

  /** The challengers of `list_queued_orphan_claims`: one row for each Queued entry at its claim's
      maximal time, when the claim is no pending row's challenger. */
  function ListQueuedOrphans(t: Tables): (r: seq<ClaimRef>)
    ensures forall c :: c in r <==> exists k :: 0 <= k < |t.ledger| && t.ledger[k].claim == c && OrphanEntry(t, t.ledger[k])
  {
    OrphansAmong(t, |t.ledger|)
  }

  predicate CheapEntry(t: Tables, e: Entry, line: nat) {
    && e.disposition == CommittedCheap && e.claim in t.claims && t.claims[e.claim].line == line
    && AtMaxTime(t.ledger, e)
  }

  function CheapAmong(t: Tables, line: nat, n: nat): (r: Option<Entry>)
    requires n <= |t.ledger|
    ensures r.Some? ==> r.value in t.ledger && CheapEntry(t, r.value, line)
    ensures forall k :: 0 <= k < n && CheapEntry(t, t.ledger[k], line) ==>
              r.Some? && t.ledger[k].recordedAt <= r.value.recordedAt
  {
    if n == 0 then None
    else
      var kept, e := CheapAmong(t, line, n - 1), t.ledger[n - 1];
      if CheapEntry(t, e, line) && (kept.None? || kept.value.recordedAt < e.recordedAt) then Some(e) else kept
  }

  /** `find_committed_cheap_claim`: the line's most recent claim that reads CommittedCheap. */
  function FindCommittedCheap(t: Tables, line: nat): (r: Option<ClaimRef>)
    ensures r.Some? ==>
              exists e :: e in t.ledger && e.claim == r.value && CheapEntry(t, e, line)
                          && forall k :: 0 <= k < |t.ledger| && CheapEntry(t, t.ledger[k], line) ==> t.ledger[k].recordedAt <= e.recordedAt
    ensures r.None? ==> forall k :: 0 <= k < |t.ledger| ==> !CheapEntry(t, t.ledger[k], line)
  {
    var e := CheapAmong(t, line, |t.ledger|);
    if e.None? then None else Some(e.value.claim)
  }

  datatype OrphanedClaim = OrphanedClaim(challenger: ClaimRef, incumbent: Option<ClaimRef>)

  function WithIncumbents(t: Tables, challengers: seq<ClaimRef>): (r: seq<OrphanedClaim>)
    requires forall c :: c in challengers ==> c in t.claims
    ensures |r| == |challengers|
    ensures forall k :: 0 <= k < |r| ==>
              r[k] == OrphanedClaim(challengers[k], FindCommittedCheap(t, t.claims[challengers[k]].line))
  {
    if challengers == [] then []
    else
      var c := challengers[|challengers| - 1];
      WithIncumbents(t, challengers[..|challengers| - 1]) + [OrphanedClaim(c, FindCommittedCheap(t, t.claims[c].line))]
  }

  /** `list_queued_orphan_claims`, with the incumbent of each orphan, if there is one. */
  function ListOrphanedClaims(t: Tables): (r: seq<OrphanedClaim>)
    ensures |r| == |ListQueuedOrphans(t)|
    ensures forall k :: 0 <= k < |r| ==> r[k].challenger == ListQueuedOrphans(t)[k]
  {
    WithIncumbents(t, ListQueuedOrphans(t))
  }

  // ---- Writes -------------------------------------------------------------------------------

  function AppendEntry(t: Tables, e: Entry): Tables {
    t.(ledger := t.ledger + [e])
  }

  function AppendEntries(t: Tables, es: seq<Entry>): Tables {
    t.(ledger := t.ledger + es)
  }

  function AppendAssertion(t: Tables, a: Assertion): Tables {
    t.(assertions := t.assertions + [a])
  }

  function InsertPending(t: Tables, row: Pending): Tables {
    t.(pending := t.pending + [row])
  }

  function WithStatus(pending: seq<Pending>, handle: Uuid, status: Status): (r: seq<Pending>)
    ensures |r| == |pending|
    ensures forall k :: 0 <= k < |r| ==>
              r[k] == if pending[k].handle == handle then pending[k].(status := status) else pending[k]
  {
    if pending == [] then []
    else
      var last := pending[|pending| - 1];
      WithStatus(pending[..|pending| - 1], handle, status)
      + [if last.handle == handle then last.(status := status) else last]
  }

  /** `mark_resolved` and `mark_expired`. */
  function MarkStatus(t: Tables, handle: Uuid, status: Status): Tables {
    t.(pending := WithStatus(t.pending, handle, status))
  }

  // ---- Write statements, with the schema's constraints --------------------------------------

  function InsertClaim(ref: ClaimRef, claim: Claim): Tables -> Option<Tables> {
    (t: Tables) => if ref in t.claims then None else Some(t.(claims := t.claims[ref := claim]))
  }

  function InsertEntry(e: Entry): Tables -> Option<Tables> {
    (t: Tables) => if e.claim in t.claims then Some(AppendEntry(t, e)) else None
  }

  function InsertAssertion(a: Assertion): Tables -> Option<Tables> {
    (t: Tables) => if a.target in t.claims then Some(AppendAssertion(t, a)) else None
  }

  predicate SameEdge(a: Edge, b: Edge) {
    a.from == b.from && a.to == b.to && a.kind == b.kind
  }

  predicate EdgeAllowed(t: Tables, e: Edge) {
    && e.from in t.claims && e.to in t.claims
    && forall k :: 0 <= k < |t.edges| ==> !SameEdge(t.edges[k], e)
  }

  function InsertEdge(e: Edge): Tables -> Option<Tables> {
    (t: Tables) => if EdgeAllowed(t, e) then Some(t.(edges := t.edges + [e])) else None
  }

  function InsertPendingRow(row: Pending): Tables -> Option<Tables> {
    (t: Tables) => if RowIndex(t.pending, row.handle).Some? then None else Some(InsertPending(t, row))
  }

  function UpdateStatus(handle: Uuid, status: Status): Tables -> Option<Tables> {
    (t: Tables) => Some(MarkStatus(t, handle, status))
  }

  // ---- The schema ---------------------------------------------------------------------------

  /** References name stored claims, no two edges link the same claims in the same way, and row handles
      are keys. That claim references are keys is in the type. */
  ghost predicate Schema(t: Tables) {
    && (forall k :: 0 <= k < |t.assertions| ==> t.assertions[k].target in t.claims)
    && (forall k :: 0 <= k < |t.ledger| ==> t.ledger[k].claim in t.claims)
    && (forall k :: 0 <= k < |t.edges| ==> t.edges[k].from in t.claims && t.edges[k].to in t.claims)
    && (forall i, j :: 0 <= i < j < |t.edges| ==>
          t.edges[i].from != t.edges[j].from || t.edges[i].to != t.edges[j].to || t.edges[i].kind != t.edges[j].kind)
    && (forall i, j :: 0 <= i < j < |t.pending| ==> t.pending[i].handle != t.pending[j].handle)
  }

  lemma ClaimInserted(t: Tables, ref: ClaimRef, claim: Claim)
    requires Schema(t)
    ensures var r := InsertClaim(ref, claim)(t);
            if ref in t.claims then r.None? else r == Some(t.(claims := t.claims[ref := claim])) && Schema(r.value)
  {
  }

  /** Each of the other statements adds one row behind the stored ones, exactly when the schema allows it. */
  lemma EntryInserted(t: Tables, e: Entry)
    requires Schema(t)
    ensures var t' := t.(ledger := t.ledger + [e]); InsertEntry(e)(t) == if Schema(t') then Some(t') else None
  {
    assert (t.ledger + [e])[|t.ledger|] == e;
  }

  lemma AssertionInserted(t: Tables, a: Assertion)
    requires Schema(t)
    ensures var t' := t.(assertions := t.assertions + [a]); InsertAssertion(a)(t) == if Schema(t') then Some(t') else None
  {
    assert (t.assertions + [a])[|t.assertions|] == a;
  }

  lemma EdgeInserted(t: Tables, e: Edge)
    requires Schema(t)
    ensures var t' := t.(edges := t.edges + [e]); InsertEdge(e)(t) == if Schema(t') then Some(t') else None
  {
    var t', n := t.(edges := t.edges + [e]), |t.edges|;
    assert t'.edges[n] == e;
    forall k | 0 <= k < n ensures t'.edges[k] == t.edges[k] {
    }
    if !EdgeAllowed(t, e) && e.from in t.claims && e.to in t.claims {
      var k :| 0 <= k < n && SameEdge(t.edges[k], e);
      assert SameEdge(t'.edges[k], t'.edges[n]);
    }
  }

  lemma RowInserted(t: Tables, row: Pending)
    requires Schema(t)
    ensures var t' := t.(pending := t.pending + [row]); InsertPendingRow(row)(t) == if Schema(t') then Some(t') else None
  {
    var t', n := t.(pending := t.pending + [row]), |t.pending|;
    assert t'.pending[n] == row;
    forall k | 0 <= k < n ensures t'.pending[k] == t.pending[k] {
    }
    var found := RowIndex(t.pending, row.handle);
    if found.Some? {
      assert t'.pending[found.value].handle == t'.pending[n].handle;
    }
  }

  lemma StatusUpdated(t: Tables, handle: Uuid, status: Status)
    requires Schema(t)
    ensures UpdateStatus(handle, status)(t).Some? && Schema(UpdateStatus(handle, status)(t).value)
  {
  }
}
