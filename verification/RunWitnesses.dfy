/** Concrete runs from the empty store on which a promise of the engine fails: the inputs behind the
    conditions of `Denial`, `AssertValidity` and `Agreement`. */
module RunWitnesses {
  import opened Ledger
  import opened LedgerReadings
  import opened StableSort
  import opened Validity
  import opened Store
  import opened IngestClaim
  import opened SubmitAdjudication
  import opened Denial
  import opened Agreement
  import opened SweepAdjudications
  import opened EngineHandle
  import AV = AssertValidity

  /** The run leads to `t`, on time and with safe verdicts only. */
  ghost predicate Leads(steps: seq<Step>, t: Tables) {
    After(steps) == t && Admissible(steps) && InTimeOrder(steps)
  }

  lemma Nowhere()
    ensures Leads([], EMPTY)
  {
  }

  lemma Further(steps: seq<Step>, t: Tables, s: Step, t': Tables)
    requires Leads(steps, t) && Do(t, s) == t' && VerdictSafe(t, s)
    requires forall e :: e in t.ledger ==> e.recordedAt < TimeOf(s) || NewFor(t, s, e.claim) == []
    ensures Leads(steps + [s], t')
  {
    hide Do, VerdictSafe, NewFor;
    var all := steps + [s];
    assert all[..|all| - 1] == steps;
    assert Later(t, s);
    forall k | 0 <= k < |all| ensures Later(After(all[..k]), all[k]) && VerdictSafe(After(all[..k]), all[k]) {
      if k < |steps| {
        assert all[..k] == steps[..k];
      } else {
        assert all[..k] == steps;
      }
    }
  }

  function Claimed(end: Option<Instant>, start: Option<Instant>): Store.Claim {
    Store.Claim(0, ValidTime(start, end, true, None, None), 0, [])
  }

  const CLAIM := Claimed(None, None)

  function Row(handle: Uuid, challenger: ClaimRef, incumbent: ClaimRef, now: Instant): Pending {
    Pending(handle, challenger, incumbent, now, None, PendingRow)
  }

  /** What the guards read of a claim whose entries stand in time order. */
  lemma Reads(t: Tables, c: ClaimRef, es: seq<Entry>)
    requires EntriesOf(t.ledger, c) == es && es != [] && AV.EntriesInOrder(es, es[|es| - 1].recordedAt)
    ensures IsQueued(t, c) == (es[|es| - 1].disposition == QueuedForAdjudication)
    ensures Denied(t.ledger, c) == Denied(LoadLedger(t, c), c) == Watched(es).denied
    ensures DispositionOf(FirstLatest(LoadLedger(t, c), c)) == Some(es[|es| - 1].disposition)
  {
    hide IsQueued, Denied, LoadLedger;
    AV.LoadedInOrder(t, c, es[|es| - 1].recordedAt);
  }

  // ---- A verdict that undoes a denial -------------------------------------------------------

  // Claim 1 challenges claim 0, claim 2 challenges claim 1, and claim 1 is denied.

  const E0 := CommitEntry(0, CommittedCheap, 1)
  const E1 := CommitEntry(1, QueuedForAdjudication, 2)
  const E2 := CommitEntry(2, QueuedForAdjudication, 3)
  const E3 := BoundEntry(1, VERDICT_DENY, 4)
  const ROW1 := Row(1, 1, 0, 2)
  const ROW2 := Row(2, 2, 1, 3)

  const CHALLENGES: seq<Step> :=
    [Ingest(0, CLAIM, CommittedCheap, 1), Ingest(1, CLAIM, QueuedForAdjudication, 2), Enqueue(ROW1),
     Ingest(2, CLAIM, QueuedForAdjudication, 3), Enqueue(ROW2)]

  const CHALLENGED := Tables(map[0 := CLAIM, 1 := CLAIM, 2 := CLAIM], [], [E0, E1, E2], [], [ROW1, ROW2])

  lemma ChallengesLead()
    ensures Leads(CHALLENGES, CHALLENGED)
  {
    hide Leads;
    Nowhere();
    var t1 := Tables(map[0 := CLAIM], [], [E0], [], []);
    var t2 := Tables(map[0 := CLAIM, 1 := CLAIM], [], [E0, E1], [], []);
    var t3 := t2.(pending := [ROW1]);
    var t4 := CHALLENGED.(pending := [ROW1]);
    assert map[0 := CLAIM][1 := CLAIM] == map[0 := CLAIM, 1 := CLAIM];
    assert map[0 := CLAIM, 1 := CLAIM][2 := CLAIM] == map[0 := CLAIM, 1 := CLAIM, 2 := CLAIM];
    Further([], EMPTY, CHALLENGES[0], t1);
    Further([] + [CHALLENGES[0]], t1, CHALLENGES[1], t2);
    Further([] + [CHALLENGES[0]] + [CHALLENGES[1]], t2, CHALLENGES[2], t3);
    Further([] + [CHALLENGES[0]] + [CHALLENGES[1]] + [CHALLENGES[2]], t3, CHALLENGES[3], t4);
    Further([] + [CHALLENGES[0]] + [CHALLENGES[1]] + [CHALLENGES[2]] + [CHALLENGES[3]], t4, CHALLENGES[4], CHALLENGED);
    assert [] + [CHALLENGES[0]] + [CHALLENGES[1]] + [CHALLENGES[2]] + [CHALLENGES[3]] + [CHALLENGES[4]] == CHALLENGES;
  }

  lemma FourEntries(a: Entry, b: Entry, c: Entry, d: Entry, x: ClaimRef)
    ensures EntriesOf([a, b, c], x) == (if a.claim == x then [a] else []) + (if b.claim == x then [b] else []) + (if c.claim == x then [c] else [])
    ensures EntriesOf([a, b, c, d], x) == EntriesOf([a, b, c], x) + (if d.claim == x then [d] else [])
  {
    assert [a, b] == [a] + [b] && [a, b, c] == [a, b] + [c] && [a, b, c, d] == [a, b, c] + [d] && [a] == [] + [a];
    AppendOne([], a, x);
    AppendOne([a], b, x);
    AppendOne([a, b], c, x);
    AppendOne([a, b, c], d, x);
  }

  const DENY := Step.Verdict(1, Deny, 4, 1)
  const DENIAL := Assertion(1, 1, Bound(4, None), 4)
  const DENIED := CHALLENGED.(assertions := [DENIAL], ledger := [E0, E1, E2, E3])

  lemma RowsFound(t: Tables)
    requires t.pending == [ROW1, ROW2]
    ensures GetPending(t, 1) == Some(ROW1) && GetPending(t, 2) == Some(ROW2)
  {
    assert t.pending[0].handle == 1 && t.pending[1].handle == 2;
  }

  lemma OneIsPlanned()
    ensures PlanFor(CHALLENGED, 1, 4) == Resolve(ROW1)
  {
    hide IsQueued, Denied, EntriesOf, LoadLedger;
    FourEntries(E0, E1, E2, E3, 1);
    Reads(CHALLENGED, 1, [E1]);
    RowsFound(CHALLENGED);
  }

  lemma DenyIsDone()
    ensures Do(CHALLENGED, DENY) == DENIED && VerdictSafe(CHALLENGED, DENY)
  {
    hide IsQueued, Denied, EntriesOf, PlanFor;
    OneIsPlanned();
    VerdictAppends(CHALLENGED, ROW1, Deny, 4, 1);
  }

  const DENIED_RUN := CHALLENGES + [DENY]

  lemma DenialLeads()
    ensures Leads(DENIED_RUN, DENIED)
  {
    hide Leads, Do, VerdictSafe;
    ChallengesLead();
    DenyIsDone();
    Further(CHALLENGES, CHALLENGED, DENY, DENIED);
  }

  const AFFIRM := Step.Verdict(2, Affirm, 5, 2)

  lemma WatchedOne(a: Entry)
    ensures Watched([a]) == Observe(Watch(false, false, false), a)
  {
    assert [a][..0] == [];
  }

  lemma WatchedEntries(a: Entry, b: Entry, c: Entry)
    ensures Watched([a, b]) == Observe(Observe(Watch(false, false, false), a), b)
    ensures Watched([a, b, c]) == Observe(Watched([a, b]), c)
  {
    assert [a, b][..1] == [a] && [a, b, c][..2] == [a, b];
    assert Watched([a]) == Observe(Watched([]), a);
  }

  lemma DeniedEntries()
    ensures EntriesOf(DENIED.ledger, 1) == [E1, E3] && EntriesOf(DENIED.ledger, 2) == [E2]
  {
    hide EntriesOf;
    FourEntries(E0, E1, E2, E3, 1);
    FourEntries(E0, E1, E2, E3, 2);
  }

  lemma OneIsDenied()
    ensures Denied(DENIED.ledger, 1)
  {
    hide IsQueued, Denied, EntriesOf, LoadLedger, Watched;
    DeniedEntries();
    Reads(DENIED, 1, [E1, E3]);
    WatchedEntries(E1, E3, E3);
  }

  lemma TwoIsPlanned()
    ensures IsQueued(DENIED, 2) && PlanFor(DENIED, 2, 5) == Resolve(ROW2)
  {
    hide IsQueued, Denied, EntriesOf, LoadLedger;
    DeniedEntries();
    Reads(DENIED, 2, [E2]);
    RowsFound(DENIED);
  }

  const AFFIRMED: Entry := BoundEntry(1, VERDICT_AFFIRM, 5)

  lemma AffirmIsDone()
    ensures Do(DENIED, AFFIRM).ledger == DENIED.ledger + [AFFIRMED] + [ResolvedEntry(2, CommittedCheap, 5)]
  {
    hide IsQueued, Denied, EntriesOf, PlanFor;
    TwoIsPlanned();
    VerdictAppends(DENIED, ROW2, Affirm, 5, 2);
  }

  lemma EntriesAfterAffirm()
    ensures EntriesOf(Do(DENIED, AFFIRM).ledger, 1) == [E1, E3, AFFIRMED]
  {
    hide EntriesOf, Do;
    DeniedEntries();
    AffirmIsDone();
    AppendTwo(DENIED.ledger, AFFIRMED, ResolvedEntry(2, CommittedCheap, 5), 1);
    assert [E1, E3] + [AFFIRMED] == [E1, E3, AFFIRMED];
  }

  lemma OneAfterAffirm()
    ensures !Denied(Do(DENIED, AFFIRM).ledger, 1)
  {
    hide IsQueued, Denied, Watched, EntriesOf, Do, LoadLedger;
    EntriesAfterAffirm();
    Reads(Do(DENIED, AFFIRM), 1, [E1, E3, AFFIRMED]);
    assert VERDICT_AFFIRM[0] != VERDICT_DENY[0];
    WatchedEntries(E1, E3, AFFIRMED);
  }

  lemma OneAssertion()
    ensures AssertionsFor(DENIED.assertions, 1) == [DENIAL]
    ensures ActiveBoundAt([DENIAL], 4).Some? && ActiveBoundAt([DENIAL], 5).Some?
  {
    assert [] + [DENIAL] == [DENIAL];
    AssertOne([], DENIAL, 1);
    AV.ActiveInOrder([DENIAL], 4, 4);
    AV.ActiveInOrder([DENIAL], 4, 5);
    assert [DENIAL][..0] == [];
  }

  lemma OneIsTold()
    ensures ToldOf(DENIED, 1) && ActiveBoundAt(AssertionsFor(DENIED.assertions, 1), 5).Some?
  {
    hide IsQueued, Denied, EntriesOf, AssertionsFor, ActiveBoundAt;
    DeniedEntries();
    OneAssertion();
    assert [E1, E3][..1] == [E1] && [E1][..0] == [];
    assert AV.ValidityEntries([E1]) == AV.ValidityEntries([]);
    assert AV.ValidityEntries([E1, E3]) == [E3];
  }

  lemma OneMore(steps: seq<Step>, s: Step, c: ClaimRef)
    ensures After(steps + [s]) == Do(After(steps), s)
    ensures DeniedByRun(steps + [s], c) == DeniedNext(DeniedByRun(steps, c), After(steps), s, c)
  {
    assert (steps + [s])[..|steps|] == steps;
  }

  lemma OneIsStillDeniedByRun()
    ensures After(DENIED_RUN + [AFFIRM]) == Do(DENIED, AFFIRM) && DeniedByRun(DENIED_RUN + [AFFIRM], 1)
  {
    hide Do, PlanFor, After, DeniedByRun, Admissible, InTimeOrder;
    DenialLeads();
    ChallengesLead();
    OneMore(CHALLENGES, DENY, 1);
    OneMore(DENIED_RUN, AFFIRM, 1);
    OneIsPlanned();
    assert Denies(CHALLENGED, DENY, 1);
  }

  lemma AffirmIsUnsafe()
    ensures Later(DENIED, AFFIRM) && !VerdictSafe(DENIED, AFFIRM) && !Fits(DENIED, AFFIRM, 1)
  {
    hide PlanFor, Denied, EntriesOf, AssertionsFor, ActiveBoundAt, ToldOf;
    TwoIsPlanned();
    OneIsDenied();
    OneIsTold();
  }

  /** Safe verdicts lead to a denied claim with an open challenger; Affirming the challenger, on time,
      takes the denial back though nobody reopened the claim, and its logs no longer agree. */
  lemma AffirmUndoesDenial()
    ensures Admissible(DENIED_RUN) && InTimeOrder(DENIED_RUN)
    ensures Later(After(DENIED_RUN), AFFIRM) && !VerdictSafe(After(DENIED_RUN), AFFIRM) && !Fits(After(DENIED_RUN), AFFIRM, 1)
    ensures Denied(After(DENIED_RUN).ledger, 1)
    ensures var all := DENIED_RUN + [AFFIRM];
            DeniedByRun(all, 1) && !Denied(After(all).ledger, 1) && !Agrees(After(all), 1)
  {
    hide Do, VerdictSafe, Later, Fits, IsQueued, Denied, ToldOf, Agrees, ActiveBoundAt, DeniedByRun, Admissible, InTimeOrder;
    DenialLeads();
    OneIsDenied();
    OneAfterAffirm();
    OneIsStillDeniedByRun();
    OneIsTold();
    AffirmIsUnsafe();
    RunIsDocumented(DENIED_RUN, |DENIED_RUN|);
    assert DENIED_RUN[..|DENIED_RUN|] == DENIED_RUN;
    StepAgreesExactly(DENIED, AFFIRM, 1);
  }

  // ---- A receipt beyond the window ----------------------------------------------------------

  // Claim 0 ends at 10 by its own valid time; the claim that challenges it starts at 20, to be trusted.

  const OLD := Claimed(Some(10), None)
  const YOUNG := Claimed(None, Some(20))
  const ROW := Row(1, 1, 0, 31)

  const SUCCESSION: seq<Step> :=
    [Ingest(0, OLD, CommittedCheap, 30), Ingest(1, YOUNG, QueuedForAdjudication, 31), Enqueue(ROW)]

  const SUCCEEDED := Tables(map[0 := OLD, 1 := YOUNG], [],
                            [CommitEntry(0, CommittedCheap, 30), CommitEntry(1, QueuedForAdjudication, 31)], [], [ROW])

  lemma SuccessionLeads()
    ensures Leads(SUCCESSION, SUCCEEDED)
  {
    hide Leads;
    Nowhere();
    var t1 := Tables(map[0 := OLD], [], [CommitEntry(0, CommittedCheap, 30)], [], []);
    var t2 := SUCCEEDED.(pending := []);
    assert map[0 := OLD][1 := YOUNG] == map[0 := OLD, 1 := YOUNG];
    Further([], EMPTY, SUCCESSION[0], t1);
    Further([] + [SUCCESSION[0]], t1, SUCCESSION[1], t2);
    Further([] + [SUCCESSION[0]] + [SUCCESSION[1]], t2, SUCCESSION[2], SUCCEEDED);
    assert [] + [SUCCESSION[0]] + [SUCCESSION[1]] + [SUCCESSION[2]] == SUCCESSION;
  }

  const CLOSE := Step.Verdict(1, Affirm, 32, 1)
  const CLOSURE := Assertion(1, 0, Bound(20, None), 32)
  const CLOSED := SUCCEEDED.(assertions := [CLOSURE],
                             ledger := SUCCEEDED.ledger + [BoundEntry(0, VERDICT_AFFIRM, 32)] + [ResolvedEntry(1, CommittedCheap, 32)])

  lemma TwoEntries(a: Entry, b: Entry, x: ClaimRef)
    ensures EntriesOf([a, b], x) == (if a.claim == x then [a] else []) + (if b.claim == x then [b] else [])
  {
    FourEntries(a, b, a, a, x);
    assert [a] == [] + [a] && [a, b] == [a] + [b];
    AppendOne([], a, x);
    AppendOne([a], b, x);
  }

  lemma SuccessionReads()
    ensures EntriesOf(SUCCEEDED.ledger, 0) == [CommitEntry(0, CommittedCheap, 30)]
    ensures !IsQueued(SUCCEEDED, 0) && !Denied(SUCCEEDED.ledger, 0)
    ensures PlanFor(SUCCEEDED, 1, 32) == Resolve(ROW)
  {
    hide IsQueued, Denied, EntriesOf, LoadLedger, Watched;
    var e, q := CommitEntry(0, CommittedCheap, 30), CommitEntry(1, QueuedForAdjudication, 31);
    TwoEntries(e, q, 0);
    TwoEntries(e, q, 1);
    Reads(SUCCEEDED, 0, [e]);
    Reads(SUCCEEDED, 1, [q]);
    WatchedOne(e);
    assert SUCCEEDED.pending[0].handle == 1;
  }

  lemma CloseIsDone()
    ensures Do(SUCCEEDED, CLOSE) == CLOSED && VerdictSafe(SUCCEEDED, CLOSE)
  {
    hide IsQueued, Denied, EntriesOf;
    SuccessionReads();
    VerdictAppends(SUCCEEDED, ROW, Affirm, 32, 1);
  }

  lemma CloseLeads()
    ensures Leads(SUCCESSION + [CLOSE], CLOSED)
  {
    hide Leads, Do, VerdictSafe;
    SuccessionLeads();
    CloseIsDone();
    Further(SUCCESSION, SUCCEEDED, CLOSE, CLOSED);
  }

  lemma ClosedLogs()
    ensures AssertionsFor(CLOSED.assertions, 0) == [CLOSURE] && ActiveBoundAt([CLOSURE], 33) == Some(BoundState(20, 1, None))
    ensures EntriesOf(CLOSED.ledger, 0) == [CommitEntry(0, CommittedCheap, 30), BoundEntry(0, VERDICT_AFFIRM, 32)]
  {
    hide EntriesOf;
    assert [] + [CLOSURE] == [CLOSURE] && [CLOSURE][..0] == [];
    AssertOne([], CLOSURE, 0);
    AV.ActiveInOrder([CLOSURE], 32, 33);
    SuccessionReads();
    AppendTwo(SUCCEEDED.ledger, BoundEntry(0, VERDICT_AFFIRM, 32), ResolvedEntry(1, CommittedCheap, 32), 0);
  }

  lemma NotUnderAdjudication()
    ensures !AV.UnderAdjudication(LoadLedger(CLOSED, 0), 0)
  {
    hide EntriesOf, Denied, LoadLedger, Watched;
    ClosedLogs();
    var e, b := CommitEntry(0, CommittedCheap, 30), BoundEntry(0, VERDICT_AFFIRM, 32);
    Reads(CLOSED, 0, [e, b]);
    WatchedEntries(e, b, b);
    assert VERDICT_AFFIRM[0] != VERDICT_DENY[0];
  }

  /** A safe Affirm, on time, closes a claim after its own end. The host's next Bound at that instant is
      answered without a write, by an instant at which the claim's window has long ended. */
  lemma ReceiptBeyondWindow()
    ensures Leads(SUCCESSION + [CLOSE], CLOSED) && !AV.BoundsInsideWindow(CLOSED, 0)
    ensures var (t', o) := AV.Assert(CLOSED, AV.Request(0, AV.BoundInput(20, None), true), 33, 2);
            && t' == CLOSED && o.Ok? && o.response.noOp && o.response.effectiveAt == Some(20)
            && WindowEnd(OLD.validTime, AssertionsFor(CLOSED.assertions, 0), 33) == Some(10)
            && !AV.WillBeHonest(CLOSED, 0, 20, 33, 2) && !AV.ReportsWindow(CLOSED, 0, o.response, 33)
  {
    hide EntriesOf, AssertionsFor, LoadLedger, Denied, ActiveBoundAt, AV.UnderAdjudication, Leads;
    CloseLeads();
    ClosedLogs();
    NotUnderAdjudication();
    assert CLOSURE in [CLOSURE];
  }

  // ---- A Bound that is still to come --------------------------------------------------------

  const STORED := Tables(map[0 := CLAIM], [], [E0], [], [])
  const LATER_BOUND := AV.Call(AV.Request(0, AV.BoundInput(9, None), true), 2, 1)

  lemma StoredIsJustCommitted()
    ensures Leads([Ingest(0, CLAIM, CommittedCheap, 1)], STORED) && AV.JustCommitted(STORED, 0, 1)
  {
    hide Leads;
    Nowhere();
    Further([], EMPTY, Ingest(0, CLAIM, CommittedCheap, 1), STORED);
    assert [] + [E0] == [E0] && [] + [Ingest(0, CLAIM, CommittedCheap, 1)] == [Ingest(0, CLAIM, CommittedCheap, 1)];
    AppendOne([], E0, 0);
  }

  lemma LaterBoundIsWritten()
    ensures AV.WritesFutureBound(STORED, LATER_BOUND, 0)
  {
    hide LoadLedger, Denied, ActiveBoundAt, Leads, EntriesOf;
    StoredIsJustCommitted();
    Reads(STORED, 0, [EntriesOf(STORED.ledger, 0)[0]]);
    assert EntriesOf(STORED.ledger, 0) == [EntriesOf(STORED.ledger, 0)[0]];
    AV.NoneEffectiveNoneActive([], 2);
  }

  /** A Bound at a later instant of a fresh claim is written: the ledger calls the claim Superseded while
      no Bound is active, and the receipt names an end that the window does not have yet. */
  lemma FutureBoundSplitsTheLogs()
    ensures Leads([Ingest(0, CLAIM, CommittedCheap, 1)], STORED)
    ensures var t' := AV.Assert(STORED, LATER_BOUND.req, 2, 1).0;
            !AV.LogsAgree(t', 0, 2) && !AV.ReceiptHonest(STORED, LATER_BOUND, 0)
  {
    hide AV.LogsAgree, AV.ReceiptHonest, AV.WritesFutureBound, AV.JustCommitted, Leads, AV.Assert;
    StoredIsJustCommitted();
    LaterBoundIsWritten();
    AV.CommittedClaimAgrees(STORED, 0, 1);
    AV.OneCall(STORED, LATER_BOUND, 0, 1);
    AV.RunKeepsTimeline(STORED, 0, 1, [], 0);
    AV.ReceiptInRun(STORED, LATER_BOUND, 0, 1);
  }

  // ---- An orphan without an incumbent -------------------------------------------------------

  const ORPHANED: seq<Step> := [Ingest(0, CLAIM, CommittedInferred, 1), Ingest(1, CLAIM, QueuedForAdjudication, 2)]
  const ORPHAN := Tables(map[0 := CLAIM, 1 := CLAIM], [], [CommitEntry(0, CommittedInferred, 1), E1], [], [])

  lemma OrphanLeads()
    ensures Leads(ORPHANED, ORPHAN)
  {
    hide Leads;
    Nowhere();
    var t1 := Tables(map[0 := CLAIM], [], [CommitEntry(0, CommittedInferred, 1)], [], []);
    assert map[0 := CLAIM][1 := CLAIM] == map[0 := CLAIM, 1 := CLAIM];
    Further([], EMPTY, ORPHANED[0], t1);
    Further([] + [ORPHANED[0]], t1, ORPHANED[1], ORPHAN);
    assert [] + [ORPHANED[0]] + [ORPHANED[1]] == ORPHANED;
  }

  /** A crash after the commit of a challenger whose incumbent is not CommittedCheap leaves an orphan
      without an incumbent. It is on the sweep's list and is one of the claims a sweep reverts. */
  lemma OrphanHasNoIncumbent(now: Instant)
    ensures Leads(ORPHANED, ORPHAN) && IsQueued(ORPHAN, 1)
    ensures OrphanedClaim(1, None) in ListOrphanedClaims(ORPHAN) && 1 in StrandedClaims(ORPHAN, now)
  {
    hide IsQueued, EntriesOf, Leads, Denied, LoadLedger;
    OrphanLeads();
    TwoEntries(CommitEntry(0, CommittedInferred, 1), E1, 1);
    Reads(ORPHAN, 1, [E1]);
    OrphanWithoutIncumbentIsListed(ORPHAN, 1, now);
  }
}
