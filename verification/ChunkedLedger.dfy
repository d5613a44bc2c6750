/** `load_ledger_for_claims` of the SQLite store: one statement for each block of 900 claims, since
    a statement can bind at most 999 parameters. */
module ChunkedLedger {
  import opened Ledger
  import opened LedgerReadings
  import opened StableSort

  const CHUNK: nat := 900
  const VARIABLE_LIMIT: nat := 999

  // ---- One statement ------------------------------------------------------------------------

  datatype Param = AgentParam | ClaimParam(ref: ClaimRef) | TimeParam(at: Instant)

  /** A statement names its parameters by number, counting from 1. */
  datatype Statement = Statement(claimSlots: seq<nat>, asOfSlot: Option<nat>, params: seq<Param>)

  function BuildStatement(chunk: seq<ClaimRef>, asOf: Option<Instant>): Statement {
    var idStart := 2;
    Statement(seq(|chunk|, i requires 0 <= i => i + idStart),
              if asOf.Some? then Some(|chunk| + idStart) else None,
              Params(chunk, asOf))
  }

  function Params(chunk: seq<ClaimRef>, asOf: Option<Instant>): (r: seq<Param>)
    ensures |r| == 1 + |chunk| + if asOf.Some? then 1 else 0
    ensures r[0] == AgentParam
    ensures forall i :: 1 <= i <= |chunk| ==> r[i] == ClaimParam(chunk[i - 1])
    ensures asOf.Some? ==> r[|chunk| + 1] == TimeParam(asOf.value)
  {
    [AgentParam] + seq(|chunk|, i requires 0 <= i < |chunk| => ClaimParam(chunk[i]))
    + if asOf.Some? then [TimeParam(asOf.value)] else []
  }

  /** Every number names a parameter of the right kind, and no parameter is bound that no number names. */
  ghost predicate WellBound(s: Statement) {
    && |s.params| <= VARIABLE_LIMIT
    && (forall k :: 0 <= k < |s.claimSlots| ==> 1 <= s.claimSlots[k] <= |s.params| && s.params[s.claimSlots[k] - 1].ClaimParam?)
    && (s.asOfSlot.Some? ==> 1 <= s.asOfSlot.value <= |s.params| && s.params[s.asOfSlot.value - 1].TimeParam?)
    && (forall p :: 0 <= p < |s.params| ==>
          match s.params[p]
          case AgentParam => p + 1 == 1
          case ClaimParam(_) => p + 1 in s.claimSlots
          case TimeParam(_) => s.asOfSlot == Some(p + 1))
  }

  /** The statement's WHERE clause, evaluated on the bound parameters. */
  predicate Matches(s: Statement, e: Entry) {
    && (exists k :: 0 <= k < |s.claimSlots| && 1 <= s.claimSlots[k] <= |s.params|
                    && s.params[s.claimSlots[k] - 1] == ClaimParam(e.claim))
    && (s.asOfSlot.Some? ==>
          && 1 <= s.asOfSlot.value <= |s.params|
          && s.params[s.asOfSlot.value - 1].TimeParam?
          && e.recordedAt <= s.params[s.asOfSlot.value - 1].at)
  }

  predicate Wanted(chunk: seq<ClaimRef>, asOf: Option<Instant>, e: Entry) {
    e.claim in chunk && (asOf.Some? ==> e.recordedAt <= asOf.value)
  }

  ghost predicate SelectsOnly(s: Statement, chunk: seq<ClaimRef>, asOf: Option<Instant>) {
    forall e :: Matches(s, e) <==> Wanted(chunk, asOf, e)
  }

  lemma StatementBinds(chunk: seq<ClaimRef>, asOf: Option<Instant>)
    requires |chunk| <= CHUNK
    ensures WellBound(BuildStatement(chunk, asOf)) && |BuildStatement(chunk, asOf).params| <= 902
  {
    var s := BuildStatement(chunk, asOf);
    forall p | 1 <= p <= |chunk| ensures s.params[p].ClaimParam? && p + 1 in s.claimSlots {
      assert s.claimSlots[p - 1] == p + 1;
    }
  }

  lemma StatementMatches(chunk: seq<ClaimRef>, asOf: Option<Instant>, e: Entry)
    ensures Matches(BuildStatement(chunk, asOf), e) <==> Wanted(chunk, asOf, e)
  {
    var s := BuildStatement(chunk, asOf);
    if e.claim in chunk {
      var k :| 0 <= k < |chunk| && chunk[k] == e.claim;
      assert s.claimSlots[k] == k + 2;
    }
  }

  /** The numbers match the positions: the statement binds what it names, within the limit, and
      selects what is wanted. */
  lemma StatementSelectsWanted(chunk: seq<ClaimRef>, asOf: Option<Instant>)
    requires |chunk| <= CHUNK
    ensures WellBound(BuildStatement(chunk, asOf)) && |BuildStatement(chunk, asOf).params| <= 902
    ensures SelectsOnly(BuildStatement(chunk, asOf), chunk, asOf)
  {
    StatementBinds(chunk, asOf);
    forall e ensures Matches(BuildStatement(chunk, asOf), e) <==> Wanted(chunk, asOf, e) {
      StatementMatches(chunk, asOf, e);
    }
  }

  function Selected(ledger: seq<Entry>, s: Statement): (r: seq<Entry>)
    ensures forall e :: e in r <==> e in ledger && Matches(s, e)
  {
    if ledger == [] then []
    else
      var rest, e := Selected(ledger[..|ledger| - 1], s), ledger[|ledger| - 1];
      if Matches(s, e) then rest + [e] else rest
  }

  /** The rows a statement may return: ORDER BY leaves ties in any order. */
  ghost predicate IsAnswer(rows: seq<Entry>, ledger: seq<Entry>, s: Statement) {
    multiset(rows) == multiset(Selected(ledger, s)) && Sorted(rows, Earlier)
  }

  method RunStatement(ledger: seq<Entry>, s: Statement) returns (rows: seq<Entry>)
    ensures IsAnswer(rows, ledger, s)
  {
    rows := [];
    for n := 0 to |ledger|
      invariant IsAnswer(rows, ledger[..n], s)
    {
      assert ledger[..n + 1][..n] == ledger[..n];
      if Matches(s, ledger[n]) {
        EarlierOrders();
        InsertKeepsSorted(ledger[n], rows, Earlier);
        rows := Insert(ledger[n], rows, Earlier);
      }
    }
    assert ledger[..|ledger|] == ledger;
  }

  // ---- The chunk loop -----------------------------------------------------------------------

  function FirstChunk(refs: seq<ClaimRef>): seq<ClaimRef> {
    if |refs| <= CHUNK then refs else refs[..CHUNK]
  }

  function OtherChunks(refs: seq<ClaimRef>): (r: seq<ClaimRef>)
    ensures refs == FirstChunk(refs) + r
    ensures refs != [] ==> |r| < |refs|
  {
    if |refs| <= CHUNK then [] else refs[CHUNK..]
  }

  /** What the chunked load may return. */
  ghost predicate IsChunkedAnswer(all: seq<Entry>, ledger: seq<Entry>, refs: seq<ClaimRef>, asOf: Option<Instant>)
    decreases |refs|
  {
    if refs == [] then all == []
    else exists n :: 0 <= n <= |all|
           && IsAnswer(all[..n], ledger, BuildStatement(FirstChunk(refs), asOf))
           && IsChunkedAnswer(all[n..], ledger, OtherChunks(refs), asOf)
  }

  lemma OneMoreChunk(rows: seq<Entry>, tail: seq<Entry>, ledger: seq<Entry>, refs: seq<ClaimRef>, asOf: Option<Instant>)
    requires refs != [] && IsAnswer(rows, ledger, BuildStatement(FirstChunk(refs), asOf))
    requires IsChunkedAnswer(tail, ledger, OtherChunks(refs), asOf)
    ensures IsChunkedAnswer(rows + tail, ledger, refs, asOf)
  {
    var all := rows + tail;
    assert all[..|rows|] == rows && all[|rows|..] == tail;
  }

  /** `all` followed by any answer to the remaining chunks answers the whole. */
  ghost predicate Underway(all: seq<Entry>, rest: seq<ClaimRef>, ledger: seq<Entry>, refs: seq<ClaimRef>, asOf: Option<Instant>) {
    forall tail :: IsChunkedAnswer(tail, ledger, rest, asOf) ==> IsChunkedAnswer(all + tail, ledger, refs, asOf)
  }

  lemma StaysUnderway(all: seq<Entry>, rows: seq<Entry>, rest: seq<ClaimRef>, ledger: seq<Entry>, refs: seq<ClaimRef>, asOf: Option<Instant>)
    requires Underway(all, rest, ledger, refs, asOf) && rest != []
    requires IsAnswer(rows, ledger, BuildStatement(FirstChunk(rest), asOf))
    ensures Underway(all + rows, OtherChunks(rest), ledger, refs, asOf)
  {
    forall tail | IsChunkedAnswer(tail, ledger, OtherChunks(rest), asOf)
      ensures IsChunkedAnswer((all + rows) + tail, ledger, refs, asOf)
    {
      OneMoreChunk(rows, tail, ledger, rest, asOf);
      assert all + (rows + tail) == (all + rows) + tail;
    }
  }

  lemma NotBegun(ledger: seq<Entry>, refs: seq<ClaimRef>, asOf: Option<Instant>)
    ensures Underway([], refs, ledger, refs, asOf)
  {
    forall tail: seq<Entry> ensures [] + tail == tail {}
  }

  method LoadLedgerForClaims(ledger: seq<Entry>, refs: seq<ClaimRef>, asOf: Option<Instant>) returns (all: seq<Entry>)
    ensures IsChunkedAnswer(all, ledger, refs, asOf)
  {
    all := [];
    var rest := refs;
    NotBegun(ledger, refs, asOf);
    while rest != []
      invariant Underway(all, rest, ledger, refs, asOf)
      decreases |rest|
    {
      var rows := RunStatement(ledger, BuildStatement(FirstChunk(rest), asOf));
      StaysUnderway(all, rows, rest, ledger, refs, asOf);
      all, rest := all + rows, OtherChunks(rest);
    }
    assert all + [] == all;
  }

  // ---- Chunking is invisible to the readings ------------------------------------------------

  /** In how many chunks the claim stands. */
  function Holding(refs: seq<ClaimRef>, c: ClaimRef): (n: nat)
    ensures n == 0 <==> c !in refs
    decreases |refs|
  {
    if refs == [] then 0 else (if c in FirstChunk(refs) then 1 else 0) + Holding(OtherChunks(refs), c)
  }

  lemma {:induction false} DistinctRefsHeldOnce(refs: seq<ClaimRef>, c: ClaimRef)
    requires Distinct(refs)
    ensures Holding(refs, c) <= 1
    decreases |refs|
  {
    if refs != [] {
      var first, rest := FirstChunk(refs), OtherChunks(refs);
      assert forall j :: 0 <= j < |rest| ==> rest[j] == refs[|first| + j];
      DistinctRefsHeldOnce(rest, c);
      assert forall i :: 0 <= i < |first| ==> first[i] == refs[i];
    }
  }

  function Within(es: seq<Entry>, asOf: Option<Instant>): seq<Entry> {
    if es == [] then []
    else
      var rest, e := Within(es[..|es| - 1], asOf), es[|es| - 1];
      if asOf.Some? ==> e.recordedAt <= asOf.value then rest + [e] else rest
  }

  function Due(ledger: seq<Entry>, chunk: seq<ClaimRef>, asOf: Option<Instant>, c: ClaimRef): seq<Entry> {
    if c in chunk then Within(EntriesOf(ledger, c), asOf) else []
  }

  lemma DueAfterAppend(p: seq<Entry>, e: Entry, chunk: seq<ClaimRef>, asOf: Option<Instant>, c: ClaimRef)
    ensures Due(p + [e], chunk, asOf, c) == Due(p, chunk, asOf, c) + if e.claim == c && Wanted(chunk, asOf, e) then [e] else []
  {
    assert (p + [e])[..|p|] == p;
    if e.claim == c {
      assert (EntriesOf(p, c) + [e])[..|EntriesOf(p, c)|] == EntriesOf(p, c);
    }
  }

  lemma {:induction false} SelectedEntries(ledger: seq<Entry>, chunk: seq<ClaimRef>, asOf: Option<Instant>, s: Statement, c: ClaimRef)
    requires SelectsOnly(s, chunk, asOf)
    ensures EntriesOf(Selected(ledger, s), c) == Due(ledger, chunk, asOf, c)
  {
    if ledger != [] {
      var p, e := ledger[..|ledger| - 1], ledger[|ledger| - 1];
      assert ledger == p + [e];
      SelectedEntries(p, chunk, asOf, s, c);
      DueAfterAppend(p, e, chunk, asOf, c);
      if Matches(s, e) {
        assert (Selected(p, s) + [e])[..|Selected(p, s)|] == Selected(p, s);
      }
    }
  }

  lemma {:induction false} EntriesStaySorted(rows: seq<Entry>, c: ClaimRef)
    requires Sorted(rows, Earlier)
    ensures Sorted(EntriesOf(rows, c), Earlier)
  {
    if rows != [] {
      var p, e := rows[..|rows| - 1], rows[|rows| - 1];
      assert rows == p + [e];
      NothingAfterLast(p, e, Earlier);
      assert Sorted(p, Earlier) by {
        assert forall i :: 0 <= i < |p| ==> p[i] == rows[i];
      }
      EntriesStaySorted(p, c);
    }
  }

  /** The claim's entries among `rows` are those that are due, in time order. */
  ghost predicate EntriesInOrder(rows: seq<Entry>, c: ClaimRef, due: seq<Entry>) {
    Sorted(EntriesOf(rows, c), Earlier) && multiset(EntriesOf(rows, c)) == multiset(due)
  }

  lemma AnswerInOrder(rows: seq<Entry>, ledger: seq<Entry>, chunk: seq<ClaimRef>, asOf: Option<Instant>, s: Statement, c: ClaimRef)
    requires IsAnswer(rows, ledger, s) && SelectsOnly(s, chunk, asOf)
    ensures EntriesInOrder(rows, c, Due(ledger, chunk, asOf, c))
  {
    EntriesStaySorted(rows, c);
    EntriesOfMultiset(rows, Selected(ledger, s), c);
    SelectedEntries(ledger, chunk, asOf, s, c);
  }

  lemma EmptyByCount(es: seq<Entry>)
    requires multiset(es) == multiset{}
    ensures es == []
  {
    assert |es| == |multiset(es)|;
  }

  /** Two blocks of rows of which at most one has entries of the claim. */
  lemma BlocksInOrder(rows: seq<Entry>, tail: seq<Entry>, c: ClaimRef, a: seq<Entry>, b: seq<Entry>)
    requires EntriesInOrder(rows, c, a) && EntriesInOrder(tail, c, b) && (a == [] || b == [])
    ensures EntriesInOrder(rows + tail, c, a + b)
  {
    EntriesOfConcat(rows, tail, c);
    if a == [] {
      EmptyByCount(EntriesOf(rows, c));
    } else {
      EmptyByCount(EntriesOf(tail, c));
    }
    assert EntriesOf(rows, c) + [] == EntriesOf(rows, c);
  }

  lemma ChunkStep(rows: seq<Entry>, tail: seq<Entry>, ledger: seq<Entry>, refs: seq<ClaimRef>, asOf: Option<Instant>, s: Statement, c: ClaimRef)
    requires refs != [] && Holding(refs, c) <= 1
    requires SelectsOnly(s, FirstChunk(refs), asOf) && IsAnswer(rows, ledger, s)
    requires EntriesInOrder(tail, c, Due(ledger, OtherChunks(refs), asOf, c))
    ensures EntriesInOrder(rows + tail, c, Due(ledger, refs, asOf, c))
  {
    AnswerInOrder(rows, ledger, FirstChunk(refs), asOf, s, c);
    DueSplits(ledger, refs, asOf, c);
    BlocksInOrder(rows, tail, c, Due(ledger, FirstChunk(refs), asOf, c), Due(ledger, OtherChunks(refs), asOf, c));
  }

  lemma DueSplits(ledger: seq<Entry>, refs: seq<ClaimRef>, asOf: Option<Instant>, c: ClaimRef)
    requires refs != [] && Holding(refs, c) <= 1
    ensures var a, b := Due(ledger, FirstChunk(refs), asOf, c), Due(ledger, OtherChunks(refs), asOf, c);
            (a == [] || b == []) && a + b == Due(ledger, refs, asOf, c)
  {
    assert c in refs <==> c in FirstChunk(refs) || c in OtherChunks(refs);
  }

  /** A chunked answer, taken apart. */
  lemma FirstBlock(all: seq<Entry>, ledger: seq<Entry>, refs: seq<ClaimRef>, asOf: Option<Instant>)
    returns (rows: seq<Entry>, tail: seq<Entry>)
    requires refs != [] && IsChunkedAnswer(all, ledger, refs, asOf)
    ensures all == rows + tail
    ensures IsAnswer(rows, ledger, BuildStatement(FirstChunk(refs), asOf)) && IsChunkedAnswer(tail, ledger, OtherChunks(refs), asOf)
  {
    hide IsAnswer, BuildStatement, FirstChunk, OtherChunks;
    var n :| 0 <= n <= |all|
          && IsAnswer(all[..n], ledger, BuildStatement(FirstChunk(refs), asOf))
          && IsChunkedAnswer(all[n..], ledger, OtherChunks(refs), asOf);
    rows, tail := all[..n], all[n..];
  }

  lemma {:induction false} ChunkedInOrder(all: seq<Entry>, ledger: seq<Entry>, refs: seq<ClaimRef>, asOf: Option<Instant>, c: ClaimRef)
    requires IsChunkedAnswer(all, ledger, refs, asOf) && Holding(refs, c) <= 1
    ensures EntriesInOrder(all, c, Due(ledger, refs, asOf, c))
    decreases |refs|
  {
    if refs != [] {
      var rows, tail := FirstBlock(all, ledger, refs, asOf);
      ChunkedInOrder(tail, ledger, OtherChunks(refs), asOf, c);
      StatementSelectsWanted(FirstChunk(refs), asOf);
      ChunkStep(rows, tail, ledger, refs, asOf, BuildStatement(FirstChunk(refs), asOf), c);
    }
  }

  lemma {:induction false} LatestOfEntries(ledger: seq<Entry>, c: ClaimRef)
    ensures FirstLatest(ledger, c) == FirstLatest(EntriesOf(ledger, c), c)
  {
    if ledger != [] {
      var p, e := ledger[..|ledger| - 1], ledger[|ledger| - 1];
      LatestOfEntries(p, c);
      if e.claim == c {
        assert EntriesOf(ledger, c)[..|EntriesOf(p, c)|] == EntriesOf(p, c);
      }
    }
  }

  /** Of a claim that stands in one chunk at most, as every claim does when the references are
      distinct, the chunked load returns the very subsequence that a single statement without a limit
      would, so neither reading can tell the two apart. */
  lemma ChunkingIsInvisible(ledger: seq<Entry>, refs: seq<ClaimRef>, asOf: Option<Instant>,
                            all: seq<Entry>, single: Statement, rows: seq<Entry>, c: ClaimRef)
    requires IsChunkedAnswer(all, ledger, refs, asOf) && Holding(refs, c) <= 1
    requires SelectsOnly(single, refs, asOf) && IsAnswer(rows, ledger, single)
    requires DistinctTimes(rows, c)
    ensures EntriesOf(all, c) == EntriesOf(rows, c)
    ensures FirstLatest(all, c) == FirstLatest(rows, c)
    ensures Denied(all, c) == Denied(rows, c)
  {
    ChunkedInOrder(all, ledger, refs, asOf, c);
    AnswerInOrder(rows, ledger, refs, asOf, single, c);
    SortedPermutationsAgree(EntriesOf(rows, c), EntriesOf(all, c), Earlier);
    LatestOfEntries(all, c);
    LatestOfEntries(rows, c);
  }

  lemma {:induction false} WithinNone(es: seq<Entry>)
    ensures Within(es, None) == es
  {
    if es != [] {
      WithinNone(es[..|es| - 1]);
      assert es == es[..|es| - 1] + [es[|es| - 1]];
    }
  }

  lemma DueIsAnswered(rows: seq<Entry>, ledger: seq<Entry>, refs: seq<ClaimRef>, e: Entry)
    requires EntriesInOrder(rows, e.claim, Due(ledger, refs, None, e.claim))
    requires e in ledger && e.claim in refs
    ensures e in rows
  {
    WithinNone(EntriesOf(ledger, e.claim));
    assert e in multiset(EntriesOf(rows, e.claim));
  }

  /** The answer to no more than 900 references comes from one statement, and is in time order. */
  lemma OneBlockIsSorted(ledger: seq<Entry>, refs: seq<ClaimRef>, asOf: Option<Instant>, all: seq<Entry>)
    requires |refs| <= 900 && IsChunkedAnswer(all, ledger, refs, asOf)
    ensures Sorted(all, Earlier)
  {
    if refs != [] {
      var rows, tail := FirstBlock(all, ledger, refs, asOf);
      assert OtherChunks(refs) == [];
      assert rows + tail == rows;
    }
  }

  /** The whole result, though, is not in time order: an older entry of a later chunk stands behind a
      newer one of an earlier chunk. */
  lemma WholeResultIsNotSorted(ledger: seq<Entry>, refs: seq<ClaimRef>, all: seq<Entry>, newer: Entry, older: Entry)
    requires Distinct(refs) && newer in ledger && older in ledger && older.recordedAt < newer.recordedAt
    requires |refs| > 900 && newer.claim in refs[..900] && older.claim in refs[900..]
    requires IsChunkedAnswer(all, ledger, refs, None)
    ensures !Sorted(all, Earlier)
  {
    var rows, tail := FirstBlock(all, ledger, refs, None);
    FirstBlockHolds(rows, ledger, FirstChunk(refs), newer);
    DistinctRefsHeldOnce(refs, older.claim);
    LaterBlocksHold(tail, ledger, OtherChunks(refs), older);
    NotSorted(rows, tail, newer, older);
  }

  lemma FirstBlockHolds(rows: seq<Entry>, ledger: seq<Entry>, first: seq<ClaimRef>, e: Entry)
    requires |first| <= CHUNK && IsAnswer(rows, ledger, BuildStatement(first, None)) && e in ledger && e.claim in first
    ensures e in rows
  {
    StatementSelectsWanted(first, None);
    AnswerInOrder(rows, ledger, first, None, BuildStatement(first, None), e.claim);
    DueIsAnswered(rows, ledger, first, e);
  }

  lemma LaterBlocksHold(tail: seq<Entry>, ledger: seq<Entry>, rest: seq<ClaimRef>, e: Entry)
    requires IsChunkedAnswer(tail, ledger, rest, None) && Holding(rest, e.claim) <= 1 && e in ledger && e.claim in rest
    ensures e in tail
  {
    ChunkedInOrder(tail, ledger, rest, None, e.claim);
    DueIsAnswered(tail, ledger, rest, e);
  }

  lemma NotSorted(rows: seq<Entry>, tail: seq<Entry>, newer: Entry, older: Entry)
    requires newer in rows && older in tail && older.recordedAt < newer.recordedAt
    ensures !Sorted(rows + tail, Earlier)
  {
    var i :| 0 <= i < |rows| && rows[i] == newer;
    var j :| 0 <= j < |tail| && tail[j] == older;
    assert (rows + tail)[i] == newer && (rows + tail)[|rows| + j] == older;
  }
}
