/** Concrete runs of the adjudication queue, each from the empty store, that show which hypotheses of
    the theorems on runs are needed. Claim 0 is the incumbent, claim 1 its challenger. */
module LifecycleWitnesses {
  import opened Ledger
  import opened LedgerReadings
  import opened StableSort
  import opened Validity
  import opened Store
  import opened IngestClaim
  import opened SubmitAdjudication
  import opened Reconcile
  import opened Lifecycle
  import opened LifecycleRuns

  const CLAIM := Store.Claim(0, ValidTime(None, None, false, None, None), 0, [])
  const HANDLE: Uuid := 7

  function Everyone(): ClaimRef -> AgentId {
    (c: ClaimRef) => 0
  }

  const INITIAL := World(Tables(map[], [], [], [], []), map[], map[], [], [], Everyone())

  /** Both claims are stored, and these tasks are about. */
  function Stored(ledger: seq<Entry>, pending: seq<Pending>, tasks: map<TaskId, Task>, held: map<AgentId, TaskId>,
                  exits: seq<ClaimRef>, requeues: seq<ClaimRef>): World
  {
    World(Tables(map[0 := CLAIM, 1 := CLAIM], [], ledger, [], pending), tasks, held, exits, requeues, Everyone())
  }

  function Row(q: Instant, expiresAt: Option<Instant>, status: Status): Pending {
    Pending(HANDLE, 1, 0, q, expiresAt, status)
  }

  function Opening(q: Instant): seq<Entry> {
    [CommitEntry(0, CommittedCheap, 0), CommitEntry(1, QueuedForAdjudication, q)]
  }

  /** The claims are ingested, the challenger's row is still to be inserted. */
  function Setup(q: Instant, expiresAt: Option<Instant>): seq<Action> {
    [IngestOther(0, CLAIM, CommittedCheap, 0), StartIngest(0, Ingest(1, 0, HANDLE, q, expiresAt, Idle)), Acquire(0),
     Action.Commit(0, CLAIM, 0)]
  }

  /** The steps lead from one state to the other, and they do so on time. */
  ghost predicate Leads(w: World, steps: seq<Action>, w': World) {
    IsRun(w, steps) && After(w, steps) == w'
  }

  ghost predicate LeadsOnTime(w: World, steps: seq<Action>, w': World) {
    IsRun(w, steps) && OnTime(w, steps) && After(w, steps) == w'
  }

  lemma Nowhere(w: World)
    ensures LeadsOnTime(w, [], w)
  {
  }

  lemma Further(w: World, steps: seq<Action>, w1: World, a: Action, w2: World)
    requires Leads(w, steps, w1) && Enabled(w1, a) && Next(w1, a) == w2
    ensures Leads(w, steps + [a], w2)
    ensures LeadsOnTime(w, steps, w1) && ClockOk(w1, a) ==> LeadsOnTime(w, steps + [a], w2)
  {
    hide Enabled, Next, ClockOk;
    OneStep(w, steps, a);
  }

  lemma {:induction false} Joined(w: World, s1: seq<Action>, w1: World, s2: seq<Action>, w2: World)
    requires Leads(w, s1, w1) && Leads(w1, s2, w2)
    ensures Leads(w, s1 + s2, w2)
    ensures LeadsOnTime(w, s1, w1) && LeadsOnTime(w1, s2, w2) ==> LeadsOnTime(w, s1 + s2, w2)
  {
    hide Enabled, Next, ClockOk;
    if s2 == [] {
      assert s1 + s2 == s1;
    } else {
      var p, a := s2[..|s2| - 1], s2[|s2| - 1];
      Joined(w, s1, w1, p, After(w1, p));
      Further(w, s1 + p, After(w1, p), a, w2);
      assert s1 + p + [a] == s1 + s2;
    }
  }

  lemma JoinedOnTime(w: World, s1: seq<Action>, w1: World, s2: seq<Action>, w2: World)
    requires LeadsOnTime(w, s1, w1) && LeadsOnTime(w1, s2, w2)
    ensures LeadsOnTime(w, s1 + s2, w2)
  {
    Joined(w, s1, w1, s2, w2);
  }

  lemma FurtherOnTime(w: World, steps: seq<Action>, w1: World, a: Action, w2: World)
    requires LeadsOnTime(w, steps, w1) && Enabled(w1, a) && ClockOk(w1, a) && Next(w1, a) == w2
    ensures LeadsOnTime(w, steps + [a], w2)
  {
    hide Enabled, Next, ClockOk;
    Further(w, steps, w1, a, w2);
  }

  // ---- The set-up ---------------------------------------------------------------------------

  lemma IncumbentStored()
    ensures Enabled(INITIAL, IngestOther(0, CLAIM, CommittedCheap, 0))
    ensures Next(INITIAL, IngestOther(0, CLAIM, CommittedCheap, 0))
            == World(Tables(map[0 := CLAIM], [], [CommitEntry(0, CommittedCheap, 0)], [], []), map[], map[], [], [], Everyone())
  {
  }

  lemma ChallengerCommitted(q: Instant, expiresAt: Option<Instant>)
    requires expiresAt.Some? ==> q <= expiresAt.value
    ensures var k := Ingest(1, 0, HANDLE, q, expiresAt, Idle);
            var w0 := World(Tables(map[0 := CLAIM], [], [CommitEntry(0, CommittedCheap, 0)], [], []), map[], map[], [], [], Everyone());
            && Enabled(w0, StartIngest(0, k))
            && var w1 := Next(w0, StartIngest(0, k));
               && Enabled(w1, Acquire(0))
               && var w2 := Next(w1, Acquire(0));
                  && Enabled(w2, Action.Commit(0, CLAIM, 0))
                  && Next(w2, Action.Commit(0, CLAIM, 0))
                     == Stored(Opening(q), [], map[0 := k.WithPhase(Written)], map[0 := 0], [], [])
  {
    assert map[0 := CLAIM][1 := CLAIM] == map[0 := CLAIM, 1 := CLAIM];
  }

  lemma SetupLeads(q: Instant, expiresAt: Option<Instant>)
    requires expiresAt.Some? ==> q <= expiresAt.value
    ensures LeadsOnTime(INITIAL, Setup(q, expiresAt),
                        Stored(Opening(q), [], map[0 := Ingest(1, 0, HANDLE, q, expiresAt, Written)], map[0 := 0], [], []))
  {
    hide Enabled, Next, ClockOk, LeadsOnTime;
    var k := Ingest(1, 0, HANDLE, q, expiresAt, Idle);
    var a1, a2, a3, a4 := IngestOther(0, CLAIM, CommittedCheap, 0), StartIngest(0, k), Acquire(0), Action.Commit(0, CLAIM, 0);
    IncumbentStored();
    ChallengerCommitted(q, expiresAt);
    var w1 := Next(INITIAL, a1);
    var w2 := Next(w1, a2);
    var w3 := Next(w2, a3);
    IngestsNeedNoClock(w1, w2, w3, q, expiresAt);
    Nowhere(INITIAL);
    FurtherOnTime(INITIAL, [], INITIAL, a1, w1);
    FurtherOnTime(INITIAL, [] + [a1], w1, a2, w2);
    FurtherOnTime(INITIAL, [] + [a1] + [a2], w2, a3, w3);
    FurtherOnTime(INITIAL, [] + [a1] + [a2] + [a3], w3, a4, Next(w3, a4));
    assert [] + [a1] + [a2] + [a3] + [a4] == Setup(q, expiresAt);
  }

  lemma IngestsNeedNoClock(w1: World, w2: World, w3: World, q: Instant, expiresAt: Option<Instant>)
    requires var a1, a2 := IngestOther(0, CLAIM, CommittedCheap, 0), StartIngest(0, Ingest(1, 0, HANDLE, q, expiresAt, Idle));
             && Enabled(INITIAL, a1) && w1 == Next(INITIAL, a1) && Enabled(w1, a2) && w2 == Next(w1, a2)
             && Enabled(w2, Acquire(0)) && w3 == Next(w2, Acquire(0)) && Enabled(w3, Action.Commit(0, CLAIM, 0))
    ensures ClockOk(INITIAL, IngestOther(0, CLAIM, CommittedCheap, 0))
    ensures ClockOk(w1, StartIngest(0, Ingest(1, 0, HANDLE, q, expiresAt, Idle)))
    ensures ClockOk(w2, Acquire(0)) && ClockOk(w3, Action.Commit(0, CLAIM, 0))
  {
  }

  /** The row is there, and nothing is running. */
  function Resting(ledger: seq<Entry>, row: Pending, exits: seq<ClaimRef>, requeues: seq<ClaimRef>): World {
    Stored(ledger, [row], map[], map[], exits, requeues)
  }

  function FullSetup(q: Instant, expiresAt: Option<Instant>): seq<Action> {
    Setup(q, expiresAt) + [Finish(0)]
  }

  lemma RowInserted(q: Instant, expiresAt: Option<Instant>)
    ensures var w := Stored(Opening(q), [], map[0 := Ingest(1, 0, HANDLE, q, expiresAt, Written)], map[0 := 0], [], []);
            && Enabled(w, Finish(0)) && ClockOk(w, Finish(0))
            && Next(w, Finish(0)) == Resting(Opening(q), Row(q, expiresAt, PendingRow), [], [])
  {
  }

  lemma FullSetupLeads(q: Instant, expiresAt: Option<Instant>)
    requires expiresAt.Some? ==> q <= expiresAt.value
    ensures LeadsOnTime(INITIAL, FullSetup(q, expiresAt), Resting(Opening(q), Row(q, expiresAt, PendingRow), [], []))
  {
    hide Enabled, Next;
    SetupLeads(q, expiresAt);
    RowInserted(q, expiresAt);
    var w := Stored(Opening(q), [], map[0 := Ingest(1, 0, HANDLE, q, expiresAt, Written)], map[0 := 0], [], []);
    Further(INITIAL, Setup(q, expiresAt), w, Finish(0), Next(w, Finish(0)));
  }

  // ---- One round of a worker ----------------------------------------------------------------

  /** A worker takes the row's handle, with an Unknown verdict, and commits. */
  function Serve(now: Instant): seq<Action> {
    [StartWorker(1, now), TakeHandle(1, HANDLE, Unknown), Acquire(1), Check(1), Action.Commit(1, CLAIM, 0)]
  }

  /** The same, and it marks the row and ends. */
  function Round(now: Instant): seq<Action> {
    Serve(now) + [Finish(1)] + [Crash(1)]
  }

  function Served(now: Instant, row: Pending, phase: Phase): Task {
    Worker(now, [Answer(row, Unknown)], phase)
  }

  lemma ServerBegins(ledger: seq<Entry>, row: Pending, exits: seq<ClaimRef>, requeues: seq<ClaimRef>, now: Instant)
    requires row.handle == HANDLE && row.challenger == 1
    ensures var w := Resting(ledger, row, exits, requeues);
            && Enabled(w, StartWorker(1, now)) && ClockOk(w, StartWorker(1, now))
            && var w1 := Next(w, StartWorker(1, now));
               && Enabled(w1, TakeHandle(1, HANDLE, Unknown)) && ClockOk(w1, TakeHandle(1, HANDLE, Unknown))
               && var w2 := Next(w1, TakeHandle(1, HANDLE, Unknown));
                  && w2 == Stored(ledger, [row], map[1 := Served(now, row, Idle)], map[], exits, requeues)
                  && Enabled(w2, Acquire(1)) && ClockOk(w2, Acquire(1))
                  && Next(w2, Acquire(1)) == Stored(ledger, [row], map[1 := Served(now, row, Locked)], map[0 := 1], exits, requeues)
  {
  }

  lemma ServerCommits(ledger: seq<Entry>, row: Pending, exits: seq<ClaimRef>, requeues: seq<ClaimRef>, now: Instant)
    requires row.handle == HANDLE && row.challenger == 1 && row.incumbent == 0 && Queued(ledger, 1)
    ensures var w := Stored(ledger, [row], map[1 := Served(now, row, Locked)], map[0 := 1], exits, requeues);
            && Enabled(w, Check(1)) && ClockOk(w, Check(1))
            && var w1 := Next(w, Check(1));
               && w1 == Stored(ledger, [row], map[1 := Served(now, row, Checked)], map[0 := 1], exits, requeues)
               && Enabled(w1, Action.Commit(1, CLAIM, 0))
               && (InTime(ledger, 1, now) ==> ClockOk(w1, Action.Commit(1, CLAIM, 0)))
               && Next(w1, Action.Commit(1, CLAIM, 0))
                  == Stored(ledger + CommitEntries(Answer(row, Unknown), now), [row], map[1 := Served(now, row, Written)],
                            map[0 := 1], exits + [1], requeues)
  {
    hide InTime, IsQueued;
    var w := Stored(ledger, [row], map[1 := Served(now, row, Locked)], map[0 := 1], exits, requeues);
    QueuedInLog(w.t, 1);
    ItemCommitAppends(w.t, Answer(row, Unknown), now, 0);
    assert ItemCommit(w.t, Answer(row, Unknown), now, 0).assertions == [];
  }

  function MarkFor(row: Pending, now: Instant): Pending {
    row.(status := if row.Overdue(now) then ExpiredRow else ResolvedRow)
  }

  lemma ServerEnds(ledger: seq<Entry>, row: Pending, exits: seq<ClaimRef>, requeues: seq<ClaimRef>, now: Instant)
    requires row.handle == HANDLE && row.challenger == 1
    ensures var w := Stored(ledger, [row], map[1 := Served(now, row, Written)], map[0 := 1], exits, requeues);
            && Enabled(w, Finish(1)) && ClockOk(w, Finish(1))
            && var w1 := Next(w, Finish(1));
               && Enabled(w1, Crash(1)) && ClockOk(w1, Crash(1))
               && Next(w1, Crash(1)) == Resting(ledger, MarkFor(row, now), exits, requeues)
  {
    assert MarkStatus(Tables(map[0 := CLAIM, 1 := CLAIM], [], ledger, [], [row]), HANDLE, MarkFor(row, now).status).pending
        == [MarkFor(row, now)];
  }

  lemma ServerCrashes(ledger: seq<Entry>, row: Pending, exits: seq<ClaimRef>, requeues: seq<ClaimRef>, now: Instant)
    ensures var w := Stored(ledger, [row], map[1 := Served(now, row, Written)], map[0 := 1], exits, requeues);
            Enabled(w, Crash(1)) && ClockOk(w, Crash(1)) && Next(w, Crash(1)) == Resting(ledger, row, exits, requeues)
  {
  }

  lemma ServeLeads(ledger: seq<Entry>, row: Pending, exits: seq<ClaimRef>, requeues: seq<ClaimRef>, now: Instant)
    requires row.handle == HANDLE && row.challenger == 1 && row.incumbent == 0 && Queued(ledger, 1)
    ensures var w := Resting(ledger, row, exits, requeues);
            var w' := Stored(ledger + CommitEntries(Answer(row, Unknown), now), [row], map[1 := Served(now, row, Written)],
                             map[0 := 1], exits + [1], requeues);
            Leads(w, Serve(now), w') && (InTime(ledger, 1, now) ==> LeadsOnTime(w, Serve(now), w'))
  {
    hide Enabled, Next, ClockOk, Queued, InTime;
    var w := Resting(ledger, row, exits, requeues);
    var a1, a2, a3, a4, a5 := StartWorker(1, now), TakeHandle(1, HANDLE, Unknown), Acquire(1), Check(1), Action.Commit(1, CLAIM, 0);
    ServerBegins(ledger, row, exits, requeues, now);
    ServerCommits(ledger, row, exits, requeues, now);
    var w1 := Next(w, a1);
    var w2 := Next(w1, a2);
    var w3 := Next(w2, a3);
    var w4 := Next(w3, a4);
    Nowhere(w);
    Further(w, [], w, a1, w1);
    Further(w, [] + [a1], w1, a2, w2);
    Further(w, [] + [a1] + [a2], w2, a3, w3);
    Further(w, [] + [a1] + [a2] + [a3], w3, a4, w4);
    Further(w, [] + [a1] + [a2] + [a3] + [a4], w4, a5, Next(w4, a5));
    assert [] + [a1] + [a2] + [a3] + [a4] + [a5] == Serve(now);
  }

  lemma RoundLeads(ledger: seq<Entry>, row: Pending, exits: seq<ClaimRef>, requeues: seq<ClaimRef>, now: Instant)
    requires row.handle == HANDLE && row.challenger == 1 && row.incumbent == 0 && Queued(ledger, 1)
    ensures var w := Resting(ledger, row, exits, requeues);
            var w' := Resting(ledger + CommitEntries(Answer(row, Unknown), now), MarkFor(row, now), exits + [1], requeues);
            Leads(w, Round(now), w') && (InTime(ledger, 1, now) ==> LeadsOnTime(w, Round(now), w'))
  {
    hide Enabled, Next, ClockOk, Queued, InTime;
    var w := Resting(ledger, row, exits, requeues);
    var es := ledger + CommitEntries(Answer(row, Unknown), now);
    var w5 := Stored(es, [row], map[1 := Served(now, row, Written)], map[0 := 1], exits + [1], requeues);
    ServeLeads(ledger, row, exits, requeues, now);
    ServerEnds(es, row, exits + [1], requeues, now);
    Further(w, Serve(now), w5, Finish(1), Next(w5, Finish(1)));
    Further(w, Serve(now) + [Finish(1)], Next(w5, Finish(1)), Crash(1), Next(Next(w5, Finish(1)), Crash(1)));
  }

  // ---- Reading the logs of these runs -------------------------------------------------------

  lemma LatestOf(ledger: seq<Entry>, e: Entry)
    requires LastLatest(ledger, e.claim).None? || LastLatest(ledger, e.claim).value.recordedAt <= e.recordedAt
    ensures LastLatest(ledger + [e], e.claim) == Some(e)
  {
    LastLatestAfterAppend(ledger, e, e.claim);
  }

  lemma OpeningIsQueued(q: Instant)
    ensures LastLatest(Opening(q), 1) == Some(CommitEntry(1, QueuedForAdjudication, q))
    ensures Queued(Opening(q), 1) && QueuedCount(Opening(q), 1) == 1
  {
    var e0, e1 := CommitEntry(0, CommittedCheap, 0), CommitEntry(1, QueuedForAdjudication, q);
    assert Opening(q) == [] + [e0] + [e1];
    LastLatestAfterAppend([], e0, 1);
    LatestOf([] + [e0], e1);
    CountAfterAppend([], e0, 1);
    CountAfterAppend([] + [e0], e1, 1);
  }

  /** The log after the overdue row has been worked off, and after reconcile has queued the claim. */
  function Reverted(): seq<Entry> {
    Opening(1) + [ExpiredEntry(1, 5)]
  }

  function Requeued(): seq<Entry> {
    Reverted() + [ReconcileEntry(1, QueuedForAdjudication, 6)]
  }

  lemma RequeuedLog()
    ensures !Queued(Reverted(), 1) && Queued(Requeued(), 1)
    ensures LastLatest(Requeued(), 1) == Some(ReconcileEntry(1, QueuedForAdjudication, 6))
  {
    OpeningIsQueued(1);
    LatestOf(Opening(1), ExpiredEntry(1, 5));
    LatestOf(Reverted(), ReconcileEntry(1, QueuedForAdjudication, 6));
  }

  lemma RevertedEntries()
    ensures EntriesOf(Reverted(), 1) == [CommitEntry(1, QueuedForAdjudication, 1), ExpiredEntry(1, 5)]
  {
    var e0, e1, e2 := CommitEntry(0, CommittedCheap, 0), CommitEntry(1, QueuedForAdjudication, 1), ExpiredEntry(1, 5);
    assert Reverted() == [e0] + [e1] + [e2];
    EntriesOfOne(e0, 1);
    EntriesOfOne(e1, 1);
    EntriesOfOne(e2, 1);
    EntriesOfConcat([e0], [e1], 1);
    EntriesOfConcat([e0] + [e1], [e2], 1);
  }

  lemma EntriesOfOne(e: Entry, c: ClaimRef)
    ensures EntriesOf([e], c) == if e.claim == c then [e] else []
  {
    assert [e][..0] == [];
  }

  lemma RevertedReadsContested(t: Tables)
    requires t.ledger == Reverted()
    ensures FirstLatest(LoadLedger(t, 1), 1) == Some(ExpiredEntry(1, 5))
  {
    hide LoadLedger, Denied, IsQueued;
    RevertedEntries();
    AV.LoadedInOrder(t, 1, 5);
  }

  lemma RevertedIsLive(row: Pending, exits: seq<ClaimRef>)
    ensures MayReconcile(Resting(Reverted(), row, exits, []).t, 1, QueuedForAdjudication, 6)
  {
    hide LoadLedger, FirstLatest;
    var t := Resting(Reverted(), row, exits, []).t;
    RevertedReadsContested(t);
    assert AssertionsFor(t.assertions, 1) == [];
  }

  // ---- Reconcile can queue a claim again ----------------------------------------------------

  function RequeueRun(): seq<Action> {
    FullSetup(1, Some(2)) + Round(5) + [Action.Reconcile(1, QueuedForAdjudication, 6)]
  }

  /** The challenger's overdue row is worked off and marked, and reconcile queues it again: a queued
      claim has a marked row and no pending one. */
  lemma RequeuedHasMarkedRow()
    ensures LeadsOnTime(INITIAL, RequeueRun(), Resting(Requeued(), Row(1, Some(2), ExpiredRow), [1], [1]))
    ensures IsQueued(After(INITIAL, RequeueRun()).t, 1) && !HasPendingRow(After(INITIAL, RequeueRun()).t, 1)
  {
    hide Enabled, Next, ClockOk, IsQueued;
    RequeueRunLeads();
    LatestIsQueued(After(INITIAL, RequeueRun()));
  }

  lemma RequeueRunLeads()
    ensures LeadsOnTime(INITIAL, RequeueRun(), Resting(Requeued(), Row(1, Some(2), ExpiredRow), [1], [1]))
  {
    hide Enabled, Next, ClockOk, LeadsOnTime;
    var row, a := Row(1, Some(2), ExpiredRow), Action.Reconcile(1, QueuedForAdjudication, 6);
    OverdueWorkedOff();
    ReconcileQueues(row);
    FurtherOnTime(INITIAL, FullSetup(1, Some(2)) + Round(5), Resting(Reverted(), row, [1], []), a,
                  Resting(Requeued(), row, [1], [1]));
  }

  lemma OverdueWorkedOff()
    ensures LeadsOnTime(INITIAL, FullSetup(1, Some(2)) + Round(5), Resting(Reverted(), Row(1, Some(2), ExpiredRow), [1], []))
  {
    hide Enabled, Next, ClockOk, LeadsOnTime, Leads, Queued;
    var row := Row(1, Some(2), PendingRow);
    FullSetupLeads(1, Some(2));
    OpeningIsQueued(1);
    RoundLeads(Opening(1), row, [], [], 5);
    assert [] + [1] == [1];
    assert CommitEntries(Answer(row, Unknown), 5) == [ExpiredEntry(1, 5)];
    JoinedOnTime(INITIAL, FullSetup(1, Some(2)), Resting(Opening(1), row, [], []), Round(5),
                 Resting(Reverted(), Row(1, Some(2), ExpiredRow), [1], []));
  }

  lemma LatestIsQueued(w: World)
    requires w.t.ledger == Requeued()
    ensures IsQueued(w.t, 1)
  {
    RequeuedLog();
    QueuedInLog(w.t, 1);
  }

  lemma ReconcileQueues(row: Pending)
    ensures var w, a := Resting(Reverted(), row, [1], []), Action.Reconcile(1, QueuedForAdjudication, 6);
            && Enabled(w, a) && ClockOk(w, a)
            && Next(w, a) == Resting(Requeued(), row, [1], [1])
  {
    hide MayReconcile;
    RevertedIsLive(row, [1]);
    assert [] + [1] == [1];
  }

  /** And it leaves the queue a second time. */
  lemma RequeuedLeavesTwice()
    ensures IsRun(INITIAL, RequeueRun() + Round(7)) && OnTime(INITIAL, RequeueRun() + Round(7))
    ensures After(INITIAL, RequeueRun() + Round(7)).exits == [1, 1]
  {
    hide Enabled, Next, ClockOk;
    SecondRoundLeads();
  }

  lemma SecondRoundLeads()
    ensures var row := Row(1, Some(2), ExpiredRow);
            LeadsOnTime(INITIAL, RequeueRun() + Round(7),
                        Resting(Requeued() + CommitEntries(Answer(row, Unknown), 7), MarkFor(row, 7), [1, 1], [1]))
  {
    hide Enabled, Next, ClockOk, LeadsOnTime, Leads, Queued;
    var row := Row(1, Some(2), ExpiredRow);
    RequeueRunLeads();
    RequeuedLog();
    RoundLeads(Requeued(), row, [1], [1], 7);
    assert [1] + [1] == [1, 1];
    JoinedOnTime(INITIAL, RequeueRun(), Resting(Requeued(), row, [1], [1]), Round(7),
                 Resting(Requeued() + CommitEntries(Answer(row, Unknown), 7), MarkFor(row, 7), [1, 1], [1]));
  }

  // ---- A clock that is behind ---------------------------------------------------------------

  /** The log after one exit, and after a second, that were written with a reading before the Queued
      entry's time. */
  function StaleEntries(): seq<Entry> {
    [ResolvedEntry(1, Contested, 5), ResolvedEntry(0, Contested, 5)]
  }

  lemma StaleStaysQueued(ledger: seq<Entry>)
    requires LastLatest(ledger, 1) == Some(CommitEntry(1, QueuedForAdjudication, 10))
    ensures LastLatest(ledger + StaleEntries(), 1) == Some(CommitEntry(1, QueuedForAdjudication, 10))
    ensures QueuedCount(ledger + StaleEntries(), 1) == QueuedCount(ledger, 1)
  {
    var e1, e2 := ResolvedEntry(1, Contested, 5), ResolvedEntry(0, Contested, 5);
    assert ledger + StaleEntries() == ledger + [e1] + [e2];
    LastLatestAfterAppend(ledger, e1, 1);
    LastLatestAfterAppend(ledger + [e1], e2, 1);
    CountAfterAppend(ledger, e1, 1);
    CountAfterAppend(ledger + [e1], e2, 1);
  }

  function StaleRun(): seq<Action> {
    FullSetup(10, None) + Round(5) + Round(5)
  }

  /** Two workers that read their clocks before the claim was queued both take it out, and it is still
      queued, though its row is marked and it has the one Queued entry of its ingest. */
  lemma StaleClocksLeaveTwice()
    ensures IsRun(INITIAL, StaleRun())
    ensures var w := After(INITIAL, StaleRun());
            && w.exits == [1, 1] && w.requeues == [] && QueuedCount(w.t.ledger, 1) == 1
            && IsQueued(w.t, 1) && w.t.pending == [Row(10, None, ResolvedRow)]
  {
    hide Enabled, Next, ClockOk;
    var row, row' := Row(10, None, PendingRow), Row(10, None, ResolvedRow);
    var l1 := Opening(10) + StaleEntries();
    var l2 := l1 + StaleEntries();
    FullSetupLeads(10, None);
    OpeningIsQueued(10);
    StaleStaysQueued(Opening(10));
    StaleStaysQueued(l1);
    RoundLeads(Opening(10), row, [], [], 5);
    RoundLeads(l1, row', [1], [], 5);
    assert [] + [1] == [1] && [1] + [1] == [1, 1];
    assert CommitEntries(Answer(row, Unknown), 5) == StaleEntries() == CommitEntries(Answer(row', Unknown), 5);
    var w1, w2, w3 := Resting(Opening(10), row, [], []), Resting(l1, row', [1], []), Resting(l2, row', [1, 1], []);
    Joined(INITIAL, FullSetup(10, None), w1, Round(5), w2);
    Joined(INITIAL, FullSetup(10, None) + Round(5), w2, Round(5), w3);
    QueuedInLog(w3.t, 1);
  }

  // ---- An orphan that was not one -----------------------------------------------------------

  function RaceRun(): seq<Action> {
    Setup(10, None) + [StartWorker(1, 20)] + [ListOrphans(1)] + [Finish(0)] + [Acquire(1)] + [Check(1)] + [Action.Commit(1, CLAIM, 0)]
  }

  lemma ChallengerListed(w: World)
    requires w.t == Tables(map[0 := CLAIM, 1 := CLAIM], [], Opening(10), [], [])
    ensures ListQueuedOrphans(w.t) == [1]
  {
    var t := w.t;
    assert OrphanEntry(t, t.ledger[1]) && !OrphanEntry(t, t.ledger[0]);
    assert OrphansAmong(t, 0) == [] && OrphansAmong(t, 1) == [] && OrphansAmong(t, 2) == [] + [1];
  }

  lemma ListedWhileIngested(w: World)
    requires w.t == Tables(map[0 := CLAIM, 1 := CLAIM], [], Opening(10), [], [])
    requires 0 in w.tasks && w.tasks[0] == Ingest(1, 0, HANDLE, 10, None, Written)
    ensures OrphanItems(w, ListQueuedOrphans(w.t)) == [Orphan(1, false)]
  {
    hide ListQueuedOrphans;
    ChallengerListed(w);
    assert BeingIngested(w, 1);
    assert OrphanItems(w, [1]) == [Orphan(1, false)];
  }

  /** The sweeper's list, read before the ingest's insert. */
  lemma RaceListed()
    ensures var k := Ingest(1, 0, HANDLE, 10, None, Written);
            var w := Stored(Opening(10), [], map[0 := k], map[0 := 0], [], []);
            && Enabled(w, StartWorker(1, 20)) && ClockOk(w, StartWorker(1, 20))
            && var w1 := Next(w, StartWorker(1, 20));
               && Enabled(w1, ListOrphans(1)) && ClockOk(w1, ListOrphans(1))
               && Next(w1, ListOrphans(1))
                  == Stored(Opening(10), [], map[0 := k, 1 := Worker(20, [Orphan(1, false)], Idle)], map[0 := 0], [], [])
  {
    hide BeingIngested, OrphanItems, ListQueuedOrphans;
    var k := Ingest(1, 0, HANDLE, 10, None, Written);
    var w := Stored(Opening(10), [], map[0 := k], map[0 := 0], [], []);
    ListedWhileIngested(Next(w, StartWorker(1, 20)));
  }

  /** The insert, and the sweeper's re-check, which passes. */
  lemma RaceChecked()
    ensures var k := Ingest(1, 0, HANDLE, 10, None, Written);
            var w := Stored(Opening(10), [], map[0 := k, 1 := Worker(20, [Orphan(1, false)], Idle)], map[0 := 0], [], []);
            && Enabled(w, Finish(0)) && ClockOk(w, Finish(0))
            && var w1 := Next(w, Finish(0));
               && Enabled(w1, Acquire(1)) && ClockOk(w1, Acquire(1))
               && var w2 := Next(w1, Acquire(1));
                  && Enabled(w2, Check(1)) && ClockOk(w2, Check(1))
                  && Next(w2, Check(1)) == Stored(Opening(10), [Row(10, None, PendingRow)],
                                                  map[1 := Worker(20, [Orphan(1, false)], Checked)], map[0 := 1], [], [])
  {
    hide IsQueued, Queued;
    var w := Stored(Opening(10), [Row(10, None, PendingRow)], map[1 := Worker(20, [Orphan(1, false)], Locked)], map[0 := 1], [], []);
    OpeningIsQueued(10);
    QueuedInLogOf(w);
  }

  lemma QueuedInLogOf(w: World)
    requires Queued(w.t.ledger, 1)
    ensures IsQueued(w.t, 1)
  {
    QueuedInLog(w.t, 1);
  }

  lemma RaceCommitted()
    ensures var w := Stored(Opening(10), [Row(10, None, PendingRow)], map[1 := Worker(20, [Orphan(1, false)], Checked)], map[0 := 1], [], []);
            var a := Action.Commit(1, CLAIM, 0);
            && Enabled(w, a) && ClockOk(w, a)
            && var w' := Next(w, a);
               w'.t.ledger == Opening(10) + [ExpiredEntry(1, 20)] && w'.t.pending == w.t.pending && w'.exits == [1]
  {
    OpeningIsQueued(10);
  }

  /** A sweep lists the challenger while its ingest is between commit and insert, the ingest finishes,
      and the sweep reverts the challenger, whose row is pending: the re-check reads the disposition
      only. */
  lemma RaceFromStart()
    ensures IsRun(INITIAL, RaceRun()) && OnTime(INITIAL, RaceRun())
    ensures var w := After(INITIAL, RaceRun()); w.exits == [1] && !IsQueued(w.t, 1) && HasPendingRow(w.t, 1)
  {
    hide Enabled, Next, ClockOk, IsQueued, HasPendingRow;
    SetupLeads(10, None);
    RaceListed();
    RaceChecked();
    RaceCommitted();
    var w0 := Stored(Opening(10), [], map[0 := Ingest(1, 0, HANDLE, 10, None, Written)], map[0 := 0], [], []);
    var w1 := Next(w0, StartWorker(1, 20));
    var w2 := Next(w1, ListOrphans(1));
    var w3 := Next(w2, Finish(0));
    var w4 := Next(w3, Acquire(1));
    var w5 := Next(w4, Check(1));
    var s := Setup(10, None);
    Further(INITIAL, s, w0, StartWorker(1, 20), w1);
    Further(INITIAL, s + [StartWorker(1, 20)], w1, ListOrphans(1), w2);
    Further(INITIAL, s + [StartWorker(1, 20)] + [ListOrphans(1)], w2, Finish(0), w3);
    var s3 := s + [StartWorker(1, 20)] + [ListOrphans(1)] + [Finish(0)];
    Further(INITIAL, s3, w3, Acquire(1), w4);
    Further(INITIAL, s3 + [Acquire(1)], w4, Check(1), w5);
    Further(INITIAL, s3 + [Acquire(1)] + [Check(1)], w5, Action.Commit(1, CLAIM, 0), Next(w5, Action.Commit(1, CLAIM, 0)));
    RevertedWithRow(Next(w5, Action.Commit(1, CLAIM, 0)));
  }

  lemma RevertedWithRow(w: World)
    requires w.t.ledger == Opening(10) + [ExpiredEntry(1, 20)] && w.t.pending == [Row(10, None, PendingRow)]
    ensures !IsQueued(w.t, 1) && HasPendingRow(w.t, 1)
  {
    OpeningIsQueued(10);
    LatestOf(Opening(10), ExpiredEntry(1, 20));
    QueuedInLog(w.t, 1);
    assert w.t.pending[0].challenger == 1 && w.t.pending[0].status == PendingRow;
  }

  // ---- A row that stays pending -------------------------------------------------------------

  function CrashRun(): seq<Action> {
    FullSetup(1, Some(2)) + Serve(5) + [Crash(1)]
  }

  /** A worker crashes between its Contested commit and its mark. The row stays pending, whatever else
      runs, until reconcile queues the challenger. */
  lemma CrashLeavesRowPending()
    ensures IsRun(INITIAL, CrashRun()) && OnTime(INITIAL, CrashRun())
    ensures var w := After(INITIAL, CrashRun());
            && w == Resting(Reverted(), Row(1, Some(2), PendingRow), [1], [])
            && !CanBeMarked(w, 0)
  {
    hide Enabled, Next, ClockOk, Queued;
    var row := Row(1, Some(2), PendingRow);
    FullSetupLeads(1, Some(2));
    OpeningIsQueued(1);
    ServeLeads(Opening(1), row, [], [], 5);
    ServerCrashes(Reverted(), row, [1], [], 5);
    assert [] + [1] == [1];
    assert CommitEntries(Answer(row, Unknown), 5) == [ExpiredEntry(1, 5)];
    var w1 := Resting(Opening(1), row, [], []);
    var w2 := Stored(Reverted(), [row], map[1 := Served(5, row, Written)], map[0 := 1], [1], []);
    Joined(INITIAL, FullSetup(1, Some(2)), w1, Serve(5), w2);
    Further(INITIAL, FullSetup(1, Some(2)) + Serve(5), w2, Crash(1), Next(w2, Crash(1)));
    RunKeepsInv(INITIAL, CrashRun());
    RowIsStuck();
  }

  lemma RowIsStuck()
    requires Inv(Resting(Reverted(), Row(1, Some(2), PendingRow), [1], []))
    ensures !CanBeMarked(Resting(Reverted(), Row(1, Some(2), PendingRow), [1], []), 0)
  {
    hide Inv, CanBeMarked;
    RequeuedLog();
    var w := Resting(Reverted(), Row(1, Some(2), PendingRow), [1], []);
    assert !BeingMarked(w, HANDLE);
    QueuedInLog(w.t, 1);
    CanBeMarkedExactly(w, 0);
  }

  /** Once reconcile has queued the challenger again, the row can be marked after all. */
  lemma RequeueFreesRow()
    ensures IsRun(INITIAL, CrashRun() + [Action.Reconcile(1, QueuedForAdjudication, 6)])
    ensures var w := After(INITIAL, CrashRun() + [Action.Reconcile(1, QueuedForAdjudication, 6)]);
            w.t.pending == [Row(1, Some(2), PendingRow)] && CanBeMarked(w, 0)
  {
    hide Enabled, Next, ClockOk, CanBeMarked, Inv;
    var row, a := Row(1, Some(2), PendingRow), Action.Reconcile(1, QueuedForAdjudication, 6);
    CrashLeavesRowPending();
    ReconcileQueues(row);
    var w := Resting(Reverted(), row, [1], []);
    Further(INITIAL, CrashRun(), w, a, Next(w, a));
    RunKeepsInv(INITIAL, CrashRun() + [a]);
    LatestIsQueued(Next(w, a));
    CanBeMarkedExactly(Next(w, a), 0);
  }
}
