/** What holds over whole runs of the adjudication queue, and what can still happen from a state. */
module LifecycleRuns {
  import opened Ledger
  import opened LedgerReadings
  import opened Store
  import opened IngestClaim
  import opened SubmitAdjudication
  import opened Reconcile
  import opened Lifecycle
  import EngineHandle

  ghost predicate IsRun(w: World, steps: seq<Action>)
    decreases |steps|, 0
  {
    steps != [] ==>
      var p := steps[..|steps| - 1];
      IsRun(w, p) && Enabled(After(w, p), steps[|steps| - 1])
  }

  ghost function After(w: World, steps: seq<Action>): World
    requires IsRun(w, steps)
    decreases |steps|, 1
  {
    if steps == [] then w else Next(After(w, steps[..|steps| - 1]), steps[|steps| - 1])
  }

  /** No worker commits with a clock reading before its claim's latest entry; see `ClockOk`. */
  ghost predicate OnTime(w: World, steps: seq<Action>)
    requires IsRun(w, steps)
  {
    steps != [] ==>
      var p := steps[..|steps| - 1];
      OnTime(w, p) && ClockOk(After(w, p), steps[|steps| - 1])
  }

  ghost predicate Start(w: World) {
    w.t == Tables(map[], [], [], [], []) && w.tasks == map[] && w.held == map[] && w.exits == [] && w.requeues == []
  }

  lemma {:induction false} RunKeepsInv(w: World, steps: seq<Action>)
    requires (Start(w) || Inv(w)) && IsRun(w, steps) && OnTime(w, steps)
    ensures Inv(After(w, steps))
  {
    if steps != [] {
      RunKeepsInv(w, steps[..|steps| - 1]);
      StepKeepsInv(After(w, steps[..|steps| - 1]), steps[|steps| - 1]);
    }
  }

  lemma OneStep(w: World, steps: seq<Action>, a: Action)
    requires IsRun(w, steps) && Enabled(After(w, steps), a)
    ensures IsRun(w, steps + [a]) && After(w, steps + [a]) == Next(After(w, steps), a)
    ensures OnTime(w, steps) && ClockOk(After(w, steps), a) ==> OnTime(w, steps + [a])
  {
    assert (steps + [a])[..|steps|] == steps;
  }

  // ---- Safety -------------------------------------------------------------------------------

  /** However ingests, sweepers, submitters, host calls, reconcile passes and crashes interleave, a
      claim is taken out of the queue at most once for each Queued entry it has, one entry being left
      over while it is queued; and besides its ingest's own these are the entries of reconcile. */
  lemma LeavesOncePerQueuing(w: World, steps: seq<Action>, c: ClaimRef)
    requires Start(w) && IsRun(w, steps) && OnTime(w, steps)
    ensures var w' := After(w, steps);
            && multiset(w'.exits)[c] + (if IsQueued(w'.t, c) then 1 else 0) <= QueuedCount(w'.t.ledger, c)
            && QueuedCount(w'.t.ledger, c) <= 1 + multiset(w'.requeues)[c]
  {
    RunKeepsInv(w, steps);
    assert ExitsOkFor(After(w, steps), c);
    QueuedInLog(After(w, steps).t, c);
  }

  /** So a claim that reconcile has not queued again leaves at most once, and stays out. */
  lemma EachLeavesAtMostOnce(w: World, steps: seq<Action>, c: ClaimRef)
    requires Start(w) && IsRun(w, steps) && OnTime(w, steps) && c !in After(w, steps).requeues
    ensures var w' := After(w, steps);
            multiset(w'.exits)[c] <= 1 && (c in w'.exits ==> !IsQueued(w'.t, c))
  {
    LeavesOncePerQueuing(w, steps, c);
  }

  /** At every point of every run, and so at every crash: each row names a committed challenger with a
      Queued entry at the row's time, and no challenger has two rows. The challenger of a marked row is
      queued only if reconcile has queued it, and without that a queued claim that has no pending row
      has no row at all. */
  lemma RowsMatchTheQueue(w: World, steps: seq<Action>)
    requires Start(w) && IsRun(w, steps) && OnTime(w, steps)
    ensures var w' := After(w, steps);
            && (forall k :: 0 <= k < |w'.t.pending| ==>
                  && w'.t.pending[k].challenger in w'.t.claims
                  && QueuedAt(w', w'.t.pending[k].challenger, w'.t.pending[k].queuedAt)
                  && (w'.t.pending[k].status != PendingRow && IsQueued(w'.t, w'.t.pending[k].challenger) ==>
                        w'.t.pending[k].challenger in w'.requeues))
            && (forall i, j :: 0 <= i < j < |w'.t.pending| ==> w'.t.pending[i].challenger != w'.t.pending[j].challenger)
            && (forall c :: IsQueued(w'.t, c) && !HasPendingRow(w'.t, c) && c !in w'.requeues ==> !HasRow(w'.t, c))
  {
    RunKeepsInv(w, steps);
    var w' := After(w, steps);
    forall k | 0 <= k < |w'.t.pending|
      ensures RowOk(w', w'.t.pending[k])
      ensures w'.t.pending[k].status != PendingRow && IsQueued(w'.t, w'.t.pending[k].challenger) ==>
                w'.t.pending[k].challenger in w'.requeues
    {
      assert MarkOk(w', w'.t.pending[k]);
      QueuedInLog(w'.t, w'.t.pending[k].challenger);
    }
  }

  /** A claim listed as an orphan while no ingest of it was running has no pending row when a sweep
      reverts it, whatever has run in between. */
  lemma UnclaimedOrphanHasNoPendingRow(w: World, steps: seq<Action>, id: TaskId, claim: Store.Claim, uuid: Uuid)
    requires Start(w) && IsRun(w, steps) && OnTime(w, steps) && Enabled(After(w, steps), Commit(id, claim, uuid))
    requires var k := After(w, steps).tasks[id]; k.Worker? && k.todo[0].Orphan? && k.todo[0].unclaimed
    ensures var w' := After(w, steps); !HasPendingRow(w'.t, w'.tasks[id].Target())
  {
    RunKeepsInv(w, steps);
    var w' := After(w, steps);
    assert TaskOk(w', id) && w'.tasks[id].todo[0] in w'.tasks[id].todo;
  }

  /** The hypothesis on clocks, exactly: a commit of a worker takes its claim out of the queue if and
      only if the worker's clock reading is not before the claim's latest entry. */
  lemma ExitTakesEffectExactly(w: World, id: TaskId, claim: Store.Claim, uuid: Uuid)
    requires Inv(w) && Enabled(w, Commit(id, claim, uuid)) && w.tasks[id].Worker?
    ensures !IsQueued(Next(w, Commit(id, claim, uuid)).t, w.tasks[id].Target()) <==>
            InTime(w.t.ledger, w.tasks[id].Target(), w.tasks[id].now)
  {
    CommitTakesOut(w, Commit(id, claim, uuid));
    QueuedInLog(Next(w, Commit(id, claim, uuid)).t, w.tasks[id].Target());
  }

  // ---- Rows to come -------------------------------------------------------------------------

  lemma {:induction false} NoRowAppears(w: World, steps: seq<Action>, c: ClaimRef)
    requires Inv(w) && IsRun(w, steps) && OnTime(w, steps) && c in w.t.claims && !HasRow(w.t, c) && !BeingIngested(w, c)
    ensures var w' := After(w, steps); c in w'.t.claims && !HasRow(w'.t, c) && !BeingIngested(w', c)
  {
    if steps != [] {
      var p, a := steps[..|steps| - 1], steps[|steps| - 1];
      NoRowAppears(w, p, c);
      RunKeepsInv(w, p);
      NoRowInStep(After(w, p), a, c);
    }
  }

  lemma NoRowInStep(w: World, a: Action, c: ClaimRef)
    requires Inv(w) && Enabled(w, a) && c in w.t.claims && !HasRow(w.t, c) && !BeingIngested(w, c)
    ensures var w' := Next(w, a); c in w'.t.claims && !HasRow(w'.t, c) && !BeingIngested(w', c)
  {
    hide Inv, Enabled, Next, BeingIngested;
    StepGrows(w, a);
    forall r | 0 <= r < |Next(w, a).t.pending| ensures Next(w, a).t.pending[r].challenger != c {
      assert r < |w.t.pending| ==> SameRow(w.t.pending[r], Next(w, a).t.pending[r]);
    }
  }

  /** Some continuation gives the claim a row. */
  ghost predicate RowCanAppear(w: World, c: ClaimRef) {
    exists steps :: IsRun(w, steps) && OnTime(w, steps) && HasRow(After(w, steps).t, c)
  }

  lemma RowAppears(w: World, steps: seq<Action>, c: ClaimRef)
    requires IsRun(w, steps) && OnTime(w, steps) && HasRow(After(w, steps).t, c)
    ensures RowCanAppear(w, c)
  {
  }

  lemma RowNeverAppears(w: World, c: ClaimRef)
    requires Inv(w) && c in w.t.claims && !HasRow(w.t, c) && !BeingIngested(w, c)
    ensures !RowCanAppear(w, c)
  {
    hide Inv, HasRow, BeingIngested;
    forall steps | IsRun(w, steps) && OnTime(w, steps) ensures !HasRow(After(w, steps).t, c) {
      NoRowAppears(w, steps, c);
    }
  }

  lemma IngestBringsRow(w: World, id: TaskId)
    requires Inv(w) && id in w.tasks && w.tasks[id].Ingest? && w.tasks[id].ref in w.t.claims
    ensures RowCanAppear(w, w.tasks[id].ref)
  {
    assert TaskOk(w, id);
    OneStep(w, [], Finish(id));
    var w' := Next(w, Finish(id));
    assert w'.t.pending[|w.t.pending|].challenger == w.tasks[id].ref;
    RowAppears(w, [] + [Finish(id)], w.tasks[id].ref);
  }

  /** A committed claim can come to have a row exactly when it has one already or its ingest is between
      the commit and the insert. */
  lemma RowCanAppearExactly(w: World, c: ClaimRef)
    requires Inv(w) && c in w.t.claims
    ensures RowCanAppear(w, c) <==> HasRow(w.t, c) || BeingIngested(w, c)
  {
    hide Inv, HasRow, RowCanAppear;
    if HasRow(w.t, c) {
      RowAppears(w, [], c);
    } else if BeingIngested(w, c) {
      var id :| id in w.tasks && w.tasks[id].Ingest? && w.tasks[id].ref == c;
      IngestBringsRow(w, id);
    } else {
      RowNeverAppears(w, c);
    }
  }

  /** The claim is queued and heads the list of an idle worker as an orphan. */
  ghost predicate Raced(w: World, j: TaskId, c: ClaimRef, phase: Phase) {
    && j in w.tasks && w.tasks[j].Worker? && w.tasks[j].todo != [] && w.tasks[j].phase == phase
    && w.tasks[j].todo[0].Orphan? && w.tasks[j].todo[0].ref == c
    && c in w.t.claims && Queued(w.t.ledger, c) && InTime(w.t.ledger, c, w.tasks[j].now)
  }

  lemma IngestFinishesFirst(w: World, i: TaskId, j: TaskId, c: ClaimRef)
    requires Inv(w) && i in w.tasks && w.tasks[i].Ingest? && w.tasks[i].ref == c && w.tasks[i].phase == Written
    requires Raced(w, j, c, Idle)
    ensures Enabled(w, Finish(i)) && ClockOk(w, Finish(i))
    ensures var w' := Next(w, Finish(i));
            Raced(w', j, c, Idle) && HasPendingRow(w'.t, c) && w'.owner(c) !in w'.held && w'.exits == w.exits
  {
    hide RowsOk, TasksOk, IngestsDistinct, ExitsOk, LedgerOk, IsQueued, Queued, InTime;
    var w' := Next(w, Finish(i));
    assert w'.t.pending[|w.t.pending|].challenger == c;
  }

  lemma SweeperPassesCheck(w: World, j: TaskId, c: ClaimRef)
    requires Raced(w, j, c, Idle) && w.owner(c) !in w.held
    ensures Enabled(w, Acquire(j)) && ClockOk(w, Acquire(j))
    ensures var w1 := Next(w, Acquire(j));
            && Enabled(w1, Check(j)) && ClockOk(w1, Check(j))
            && var w2 := Next(w1, Check(j));
               && w2 == w.(tasks := w.tasks[j := w.tasks[j].WithPhase(Checked)], held := w.held[w.owner(c) := j])
               && Raced(w2, j, c, Checked)
  {
    hide InTime, IsQueued;
    QueuedInLog(w.t, c);
  }

  lemma SweeperReverts(w: World, j: TaskId, c: ClaimRef, claim: Store.Claim, uuid: Uuid)
    requires Raced(w, j, c, Checked)
    ensures var a := Commit(j, claim, uuid);
            && Enabled(w, a) && ClockOk(w, a)
            && var w' := Next(w, a);
               && w' == w.(t := AppendEntry(w.t, ExpiredEntry(c, w.tasks[j].now)), tasks := w.tasks[j := w.tasks[j].WithPhase(Written)],
                           exits := w.exits + [c])
               && !IsQueued(w'.t, c) && HasPendingRow(w'.t, c) == HasPendingRow(w.t, c)
  {
    hide IsQueued;
    CommitOnLog(w.t.ledger, w.tasks[j].todo[0], w.tasks[j].now);
    QueuedInLog(Next(w, Commit(j, claim, uuid)).t, c);
  }

  /** Without that condition it fails, from every state in which an ingest is between its commit and its
      insert while a sweeper has its claim at the head of its list: the ingest finishes, and the sweep
      reverts a claim whose row is pending, since the re-check reads the disposition only. */
  lemma RaceReverts(w: World, i: TaskId, j: TaskId, c: ClaimRef, claim: Store.Claim, uuid: Uuid)
    requires Inv(w) && i in w.tasks && w.tasks[i].Ingest? && w.tasks[i].ref == c && w.tasks[i].phase == Written
    requires Raced(w, j, c, Idle)
    ensures var steps := [Finish(i)] + [Acquire(j), Check(j)] + [Commit(j, claim, uuid)];
            && IsRun(w, steps) && OnTime(w, steps)
            && var w' := After(w, steps); w'.exits == w.exits + [c] && !IsQueued(w'.t, c) && HasPendingRow(w'.t, c)
  {
    hide Inv, Raced, Enabled, Next, ClockOk, HasPendingRow, IsQueued;
    IngestFinishesFirst(w, i, j, c);
    OneStep(w, [], Finish(i));
    assert [] + [Finish(i)] == [Finish(i)];
    var w1 := After(w, [Finish(i)]);
    SweeperPassesCheck(w1, j, c);
    TwoSteps(w1, Acquire(j), Check(j));
    RunConcat(w, [Finish(i)], [Acquire(j), Check(j)]);
    SweeperReverts(After(w1, [Acquire(j), Check(j)]), j, c, claim, uuid);
    OneStep(w, [Finish(i)] + [Acquire(j), Check(j)], Commit(j, claim, uuid));
  }

  // ---- Out of the queue, and not queued again -----------------------------------------------

  /** Reconcile has not queued the claim between the two states. */
  ghost predicate NotRequeued(w: World, w': World, c: ClaimRef) {
    multiset(w'.requeues)[c] == multiset(w.requeues)[c]
  }

  lemma {:induction false} RequeuesGrow(w: World, steps: seq<Action>, c: ClaimRef)
    requires IsRun(w, steps)
    ensures multiset(After(w, steps).requeues)[c] >= multiset(w.requeues)[c]
  {
    if steps != [] {
      RequeuesGrow(w, steps[..|steps| - 1], c);
      RequeuesInStep(After(w, steps[..|steps| - 1]), steps[|steps| - 1], c);
    }
  }

  lemma RequeuesInStep(w: World, a: Action, c: ClaimRef)
    requires Enabled(w, a)
    ensures multiset(Next(w, a).requeues)[c]
            == multiset(w.requeues)[c] + if a.Reconcile? && a.ref == c && a.d == QueuedForAdjudication then 1 else 0
  {
    hide AV.Assert, CommitClaim, ItemCommit, IsQueued, Enabled;
  }

  /** A step that does not queue the claim anew leaves it out, and does not take it out again. */
  lemma StaysOutInStep(w: World, a: Action, c: ClaimRef)
    requires Inv(w) && Enabled(w, a) && c in w.t.claims && !Queued(w.t.ledger, c) && NotRequeued(w, Next(w, a), c)
    ensures var w' := Next(w, a);
            c in w'.t.claims && !Queued(w'.t.ledger, c) && multiset(w'.exits)[c] == multiset(w.exits)[c]
  {
    hide RowsOk, LocksOk, IngestsDistinct, ExitsOk, IsQueued, Queued, AV.Assert, AV.CallEntries, ItemCommit, CommitClaim;
    RequeuesInStep(w, a, c);
    StepGrows(w, a);
    NoneQueuesInStep(w, a, c);
    OutStaysOut(w.t.ledger, NewEntries(w, a), c);
    if a.Commit? && w.tasks[a.id].Worker? {
      assert TaskOk(w, a.id);
    }
  }

  lemma NoneQueuesInStep(w: World, a: Action, c: ClaimRef)
    requires Inv(w) && Enabled(w, a) && c in w.t.claims
    requires a.Reconcile? && a.ref == c ==> a.d != QueuedForAdjudication
    ensures NoneQueues(NewEntries(w, a), c)
  {
    hide RowsOk, TasksOk, LocksOk, IngestsDistinct, ExitsOk, IsQueued, Queued, AV.CallEntries;
    if a.Commit? && w.tasks[a.id].Worker? {
      WorkerCommitAppends(w, a);
    } else if a.HostAssert? {
      AV.CallAppends(w.t, a.req, a.now, a.uuid);
    }
  }

  lemma {:induction false} StaysOut(w: World, steps: seq<Action>, c: ClaimRef)
    requires Inv(w) && IsRun(w, steps) && OnTime(w, steps)
    requires c in w.t.claims && !Queued(w.t.ledger, c) && NotRequeued(w, After(w, steps), c)
    ensures var w' := After(w, steps);
            c in w'.t.claims && !Queued(w'.t.ledger, c) && multiset(w'.exits)[c] == multiset(w.exits)[c]
  {
    hide Inv, Queued, Enabled, Next;
    if steps != [] {
      var p, a := steps[..|steps| - 1], steps[|steps| - 1];
      RequeuesGrow(w, p, c);
      RequeuesInStep(After(w, p), a, c);
      StaysOut(w, p, c);
      RunKeepsInv(w, p);
      StaysOutInStep(After(w, p), a, c);
    }
  }

  // ---- Delivering a verdict -----------------------------------------------------------------

  lemma {:induction false} FreshTask(ids: set<TaskId>) returns (id: TaskId)
    ensures id !in ids && forall i :: i in ids ==> i < id
  {
    if ids == {} {
      id := 0;
    } else {
      var i :| i in ids;
      var m := FreshTask(ids - {i});
      id := if i < m then m else i + 1;
      assert forall j :: j in ids ==> j == i || j in ids - {i};
    }
  }

  lemma {:induction false} RowFound(pending: seq<Pending>, k: nat)
    requires k < |pending| && forall i, j :: 0 <= i < j < |pending| ==> pending[i].handle != pending[j].handle
    ensures RowIndex(pending, pending[k].handle) == Some(k)
  {
    if k < |pending| - 1 {
      RowFound(pending[..|pending| - 1], k);
    }
  }

  /** Worker `j` is about to answer row `k`, whose challenger is queued, and its clock is in time. */
  ghost predicate Answering(w: World, j: TaskId, k: nat, phase: Phase) {
    && k < |w.t.pending| && Queued(w.t.ledger, w.t.pending[k].challenger)
    && j in w.tasks && w.tasks[j].Worker? && w.tasks[j].phase == phase
    && w.tasks[j].todo == [Answer(w.t.pending[k], Unknown)]
    && InTime(w.t.ledger, w.t.pending[k].challenger, w.tasks[j].now)
  }

  ghost predicate Unchanged(w: World, w': World) {
    w'.t == w.t && w'.exits == w.exits && w'.requeues == w.requeues && w'.owner == w.owner
  }

  ghost predicate HoldsNone(w: World, j: TaskId) {
    forall g :: g in w.held ==> w.held[g] != j
  }

  /** The lock of an agent can always be freed: its holder may crash. */
  lemma FreeLock(w: World, g: AgentId) returns (steps: seq<Action>)
    requires Inv(w)
    ensures IsRun(w, steps) && OnTime(w, steps)
    ensures var w' := After(w, steps);
            && Unchanged(w, w') && g !in w'.held
            && forall j :: j in w.tasks && HoldsNone(w, j) ==> j in w'.tasks && w'.tasks[j] == w.tasks[j] && HoldsNone(w', j)
  {
    if g in w.held {
      var a := Crash(w.held[g]);
      assert LocksOk(w);
      OneStep(w, [], a);
      steps := [] + [a];
    } else {
      steps := [];
    }
  }

  lemma WorkerBegins(w: World, j: TaskId, k: nat, now: Instant)
    requires Inv(w) && k < |w.t.pending| && Queued(w.t.ledger, w.t.pending[k].challenger)
    requires InTime(w.t.ledger, w.t.pending[k].challenger, now) && j !in w.tasks
    ensures var a, b := StartWorker(j, now), TakeHandle(j, w.t.pending[k].handle, Unknown);
            && Enabled(w, a) && ClockOk(w, a)
            && var w1 := Next(w, a);
               && Enabled(w1, b) && ClockOk(w1, b)
               && var w2 := Next(w1, b); Unchanged(w, w2) && w2.held == w.held && Answering(w2, j, k, Idle)
  {
    hide LedgerOk, TasksOk, IngestsDistinct, LocksOk, ExitsOk, Queued, InTime, IsQueued;
    RowFound(w.t.pending, k);
  }

  lemma WorkerTakesLock(w: World, j: TaskId, k: nat)
    requires Answering(w, j, k, Idle) && w.owner(w.t.pending[k].challenger) !in w.held
    ensures Enabled(w, Acquire(j)) && ClockOk(w, Acquire(j))
    ensures Unchanged(w, Next(w, Acquire(j))) && Answering(Next(w, Acquire(j)), j, k, Locked)
  {
    hide Queued, InTime;
  }

  lemma WorkerPassesCheck(w: World, j: TaskId, k: nat)
    requires Answering(w, j, k, Locked)
    ensures Enabled(w, Check(j)) && ClockOk(w, Check(j))
    ensures Unchanged(w, Next(w, Check(j))) && Answering(Next(w, Check(j)), j, k, Checked)
  {
    hide InTime, IsQueued;
    QueuedInLog(w.t, w.t.pending[k].challenger);
  }

  lemma WorkerAnswers(w: World, j: TaskId, k: nat, claim: Store.Claim, uuid: Uuid)
    requires Inv(w) && Answering(w, j, k, Checked)
    ensures var a := Commit(j, claim, uuid);
            && Enabled(w, a) && ClockOk(w, a)
            && var w1 := Next(w, a);
               && w1.exits == w.exits + [w.t.pending[k].challenger] && w1.requeues == w.requeues
               && w1.t.pending == w.t.pending
               && Enabled(w1, Finish(j)) && ClockOk(w1, Finish(j))
               && var w2 := Next(w1, Finish(j));
                  && w2.exits == w1.exits && w2.requeues == w.requeues && k < |w2.t.pending|
                  && w2.t.pending[k].status != PendingRow
  {
    hide RowsOk, IngestsDistinct, LocksOk, ExitsOk, LedgerOk, Queued, InTime, IsQueued, ItemCommit, QueuedAt;
    assert TaskOk(w, j) && w.tasks[j].todo[0] in w.tasks[j].todo;
    CommitGrows(w, Commit(j, claim, uuid));
  }

  lemma {:induction false} RunConcat(w: World, s1: seq<Action>, s2: seq<Action>)
    requires IsRun(w, s1) && OnTime(w, s1) && IsRun(After(w, s1), s2) && OnTime(After(w, s1), s2)
    ensures IsRun(w, s1 + s2) && OnTime(w, s1 + s2) && After(w, s1 + s2) == After(After(w, s1), s2)
  {
    hide Enabled, Next, ClockOk;
    if s2 == [] {
      assert s1 + s2 == s1;
    } else {
      var p, a := s2[..|s2| - 1], s2[|s2| - 1];
      RunConcat(w, s1, p);
      OneStep(w, s1 + p, a);
      assert s1 + p + [a] == s1 + s2;
    }
  }

  lemma TwoSteps(w: World, a: Action, b: Action)
    requires Enabled(w, a) && ClockOk(w, a) && Enabled(Next(w, a), b) && ClockOk(Next(w, a), b)
    ensures IsRun(w, [a, b]) && OnTime(w, [a, b]) && After(w, [a, b]) == Next(Next(w, a), b)
  {
    hide Enabled, Next, ClockOk;
    OneStep(w, [], a);
    assert [] + [a] == [a];
    OneStep(w, [a], b);
    assert [a] + [b] == [a, b];
  }

  /** A queued claim that has a row can always be taken out, and its row be marked, without its being
      queued anew. */
  lemma VerdictCanBeDelivered(w: World, k: nat, claim: Store.Claim, uuid: Uuid) returns (steps: seq<Action>)
    requires Inv(w) && k < |w.t.pending| && Queued(w.t.ledger, w.t.pending[k].challenger)
    ensures IsRun(w, steps) && OnTime(w, steps)
    ensures var w' := After(w, steps);
            && w'.exits == w.exits + [w.t.pending[k].challenger] && w'.requeues == w.requeues
            && k < |w'.t.pending| && w'.t.pending[k].status != PendingRow
  {
    hide Inv, Enabled, Next, ClockOk, Answering;
    var c := w.t.pending[k].challenger;
    var s0 := FreeLock(w, w.owner(c));
    var w0 := After(w, s0);
    RunKeepsInv(w, s0);
    var e := QueuedEntry(w.t.ledger, c);
    var j := FreshTask(w0.tasks.Keys);
    WorkerBegins(w0, j, k, e.recordedAt);
    var s1 := [StartWorker(j, e.recordedAt), TakeHandle(j, w.t.pending[k].handle, Unknown)];
    TwoSteps(w0, s1[0], s1[1]);
    var w1 := After(w0, s1);
    WorkerTakesLock(w1, j, k);
    WorkerPassesCheck(Next(w1, Acquire(j)), j, k);
    TwoSteps(w1, Acquire(j), Check(j));
    var s2 := [Acquire(j), Check(j)];
    var w2 := After(w1, s2);
    RunKeepsInv(w0, s1);
    RunKeepsInv(w1, s2);
    WorkerAnswers(w2, j, k, claim, uuid);
    TwoSteps(w2, Commit(j, claim, uuid), Finish(j));
    var s3 := [Commit(j, claim, uuid), Finish(j)];
    RunConcat(w1, s2, s3);
    RunConcat(w0, s1, s2 + s3);
    RunConcat(w, s0, s1 + (s2 + s3));
    steps := s0 + (s1 + (s2 + s3));
  }

  // ---- Sweeping an orphan -------------------------------------------------------------------

  ghost predicate NoneAfter(ledger: seq<Entry>, now: Instant) {
    forall e :: e in ledger ==> e.recordedAt <= now
  }

  lemma {:induction false} LatestTime(ledger: seq<Entry>) returns (now: Instant)
    ensures NoneAfter(ledger, now)
  {
    if ledger == [] {
      now := 0;
    } else {
      var p, e := ledger[..|ledger| - 1], ledger[|ledger| - 1];
      var m := LatestTime(p);
      now := if m < e.recordedAt then e.recordedAt else m;
      assert ledger == p + [e];
    }
  }

  lemma QueuedIsInTime(ledger: seq<Entry>, c: ClaimRef, now: Instant)
    requires NoneAfter(ledger, now) && Queued(ledger, c)
    ensures InTime(ledger, c, now)
  {
    var e := QueuedEntry(ledger, c);
  }

  /** An idle sweeper whose clock is ahead of the log has the queued claim as the `n`-th orphan of its
      list. */
  ghost predicate Sweeping(w: World, j: TaskId, c: ClaimRef, n: nat) {
    && j in w.tasks && w.tasks[j].Worker? && w.tasks[j].phase == Idle && HoldsNone(w, j)
    && n < |w.tasks[j].todo| && (forall item :: item in w.tasks[j].todo ==> item.Orphan?) && w.tasks[j].todo[n].ref == c
    && c in w.t.claims && Queued(w.t.ledger, c) && NoneAfter(w.t.ledger, w.tasks[j].now)
  }

  lemma SweeperLists(w: World, j: TaskId, c: ClaimRef, now: Instant) returns (n: nat)
    requires Inv(w) && c in w.t.claims && Queued(w.t.ledger, c) && !HasPendingRow(w.t, c)
    requires NoneAfter(w.t.ledger, now) && j !in w.tasks
    ensures var a, b := StartWorker(j, now), ListOrphans(j);
            && Enabled(w, a) && ClockOk(w, a)
            && var w1 := Next(w, a);
               && Enabled(w1, b) && ClockOk(w1, b)
               && var w2 := Next(w1, b); Unchanged(w, w2) && Sweeping(w2, j, c, n)
  {
    hide LedgerOk, RowsOk, TasksOk, IngestsDistinct, ExitsOk, IsQueued, HasPendingRow, BeingIngested, ListQueuedOrphans;
    assert IsQueued(w.t, c) by {
      QueuedInLog(w.t, c);
    }
    EngineHandle.QueuedOrphanIsListed(w.t, c);
    n :| 0 <= n < |ListQueuedOrphans(w.t)| && ListQueuedOrphans(w.t)[n] == c;
    assert LocksOk(w);
    var w2 := Next(Next(w, StartWorker(j, now)), ListOrphans(j));
    forall item | item in w2.tasks[j].todo ensures item.Orphan? {
      var i :| 0 <= i < |w2.tasks[j].todo| && w2.tasks[j].todo[i] == item;
    }
  }

  /** The head of the list is out of the queue already, and is dropped. */
  lemma SweeperSkips(w: World, j: TaskId, c: ClaimRef, n: nat)
    requires Sweeping(w, j, c, n) && n > 0
    requires var d := w.tasks[j].todo[0].ref; w.owner(d) !in w.held && !Queued(w.t.ledger, d)
    ensures Enabled(w, Acquire(j)) && ClockOk(w, Acquire(j))
    ensures var w1 := Next(w, Acquire(j));
            && Enabled(w1, Check(j)) && ClockOk(w1, Check(j))
            && var w2 := Next(w1, Check(j)); Unchanged(w, w2) && Sweeping(w2, j, c, n - 1)
  {
    hide IsQueued, NoneAfter;
    QueuedInLog(w.t, w.tasks[j].todo[0].ref);
    assert w.tasks[j].todo[0] in w.tasks[j].todo;
    assert forall item :: item in w.tasks[j].todo[1..] ==> item in w.tasks[j].todo;
  }

  lemma SweepsHead(w: World, j: TaskId, c: ClaimRef, n: nat)
    requires Inv(w) && Sweeping(w, j, c, n) && Queued(w.t.ledger, w.tasks[j].todo[0].ref)
    ensures Raced(w, j, w.tasks[j].todo[0].ref, Idle)
  {
    hide Queued, InTime, LedgerOk, RowsOk, IngestsDistinct, LocksOk, ExitsOk;
    assert TaskOk(w, j);
    assert w.tasks[j].todo[0] in w.tasks[j].todo;
    QueuedIsInTime(w.t.ledger, w.tasks[j].todo[0].ref, w.tasks[j].now);
  }

  /** The head is reverted: `c`, or another claim. */
  lemma SweeperRevertsHead(w: World, j: TaskId, d: ClaimRef, claim: Store.Claim) returns (steps: seq<Action>)
    requires Raced(w, j, d, Idle) && w.owner(d) !in w.held
    ensures IsRun(w, steps) && OnTime(w, steps)
    ensures After(w, steps)
            == w.(t := AppendEntry(w.t, ExpiredEntry(d, w.tasks[j].now)), tasks := w.tasks[j := w.tasks[j].WithPhase(Written)],
                  held := w.held[w.owner(d) := j], exits := w.exits + [d])
  {
    hide Enabled, Next, ClockOk, Queued, InTime, IsQueued;
    SweeperPassesCheck(w, j, d);
    TwoSteps(w, Acquire(j), Check(j));
    var w2 := After(w, [Acquire(j), Check(j)]);
    SweeperReverts(w2, j, d, claim, 0);
    OneStep(w, [Acquire(j), Check(j)], Commit(j, claim, 0));
    steps := [Acquire(j), Check(j)] + [Commit(j, claim, 0)];
    ReadyAndWritten(w, w2, j, d);
  }

  lemma ReadyAndWritten(w: World, w2: World, j: TaskId, d: ClaimRef)
    requires j in w.tasks && w.tasks[j].Worker?
    requires w2 == w.(tasks := w.tasks[j := w.tasks[j].WithPhase(Checked)], held := w.held[w.owner(d) := j])
    ensures j in w2.tasks && w2.tasks[j].now == w.tasks[j].now
    ensures w2.tasks[j := w2.tasks[j].WithPhase(Written)] == w.tasks[j := w.tasks[j].WithPhase(Written)]
  {
  }

  /** After another claim was reverted the sweeper goes on with its list. */
  lemma SweeperGoesOn(w: World, j: TaskId, c: ClaimRef, n: nat, w': World)
    requires Sweeping(w, j, c, n) && n > 0
    requires var d := w.tasks[j].todo[0].ref;
             && d != c
             && w' == w.(t := AppendEntry(w.t, ExpiredEntry(d, w.tasks[j].now)), tasks := w.tasks[j := w.tasks[j].WithPhase(Written)],
                         held := w.held[w.owner(d) := j], exits := w.exits + [d])
    ensures Enabled(w', Finish(j)) && ClockOk(w', Finish(j))
    ensures var w2 := Next(w', Finish(j)); Sweeping(w2, j, c, n - 1) && w2.exits == w'.exits && w2.requeues == w.requeues
  {
    var e := ExpiredEntry(w.tasks[j].todo[0].ref, w.tasks[j].now);
    LastLatestAfterAppend(w.t.ledger, e, c);
    hide Queued, LastLatest;
    var w2 := Next(w', Finish(j));
    assert w.tasks[j].todo[0] in w.tasks[j].todo;
    assert w2.t.ledger == w.t.ledger + [e];
  }

  /** The sweeper works its list off up to `c`. */
  lemma {:induction false} SweeperReaches(w: World, j: TaskId, c: ClaimRef, n: nat, claim: Store.Claim) returns (steps: seq<Action>)
    requires Inv(w) && Sweeping(w, j, c, n)
    ensures IsRun(w, steps) && OnTime(w, steps) && After(w, steps).requeues == w.requeues
    ensures multiset(After(w, steps).exits)[c] > multiset(w.exits)[c]
    decreases n
  {
    hide Inv, Enabled, Next, ClockOk, Raced, Queued, NoneAfter;
    var d := w.tasks[j].todo[0].ref;
    var s0 := FreeLock(w, w.owner(d));
    var w0 := After(w, s0);
    RunKeepsInv(w, s0);
    var s1, w1 := [], w0;
    if Queued(w0.t.ledger, d) {
      SweepsHead(w0, j, c, n);
      s1 := SweeperRevertsHead(w0, j, d, claim);
      w1 := After(w0, s1);
      RunConcat(w, s0, s1);
      if d == c {
        return s0 + s1;
      }
      RunKeepsInv(w0, s1);
      SweeperGoesOn(w0, j, c, n, w1);
      OneStep(w0, s1, Finish(j));
      s1, w1 := s1 + [Finish(j)], Next(w1, Finish(j));
    } else {
      SweeperSkips(w0, j, c, n);
      TwoSteps(w0, Acquire(j), Check(j));
      s1 := [Acquire(j), Check(j)];
      w1 := After(w0, s1);
    }
    RunKeepsInv(w0, s1);
    var s2 := SweeperReaches(w1, j, c, n - 1, claim);
    RunConcat(w0, s1, s2);
    RunConcat(w, s0, s1 + s2);
    steps := s0 + (s1 + s2);
  }

  /** A queued claim without a pending row can always be swept. */
  lemma OrphanCanBeSwept(w: World, c: ClaimRef) returns (steps: seq<Action>)
    requires Inv(w) && c in w.t.claims && Queued(w.t.ledger, c) && !HasPendingRow(w.t, c)
    ensures IsRun(w, steps) && OnTime(w, steps) && After(w, steps).requeues == w.requeues
    ensures multiset(After(w, steps).exits)[c] > multiset(w.exits)[c]
  {
    hide Inv, Enabled, Next, ClockOk, Sweeping, Queued, HasPendingRow;
    var now := LatestTime(w.t.ledger);
    var j := FreshTask(w.tasks.Keys);
    var n := SweeperLists(w, j, c, now);
    var s := [StartWorker(j, now), ListOrphans(j)];
    TwoSteps(w, s[0], s[1]);
    RunKeepsInv(w, s);
    var s' := SweeperReaches(After(w, s), j, c, n, w.t.claims[c]);
    RunConcat(w, s, s');
    steps := s + s';
  }

  // ---- Exactly when a claim can leave, and a row be marked ------------------------------------

  ghost predicate Leaves(w: World, steps: seq<Action>, c: ClaimRef) {
    && IsRun(w, steps) && OnTime(w, steps) && NotRequeued(w, After(w, steps), c)
    && multiset(After(w, steps).exits)[c] > multiset(w.exits)[c]
  }

  /** Some continuation takes the claim out without its being queued anew. */
  ghost predicate CanLeave(w: World, c: ClaimRef) {
    exists steps :: Leaves(w, steps, c)
  }

  /** From any state, a committed claim can be taken out of the queue, for the first time or once more,
      exactly when it is queued; and once it has left that takes a Queued entry of reconcile. */
  lemma CanLeaveExactly(w: World, c: ClaimRef)
    requires Inv(w) && c in w.t.claims
    ensures CanLeave(w, c) <==> IsQueued(w.t, c)
    ensures CanLeave(w, c) && c in w.exits ==> c in w.requeues
  {
    hide Leaves;
    QueuedInLog(w.t, c);
    assert ExitsOkFor(w, c);
    if Queued(w.t.ledger, c) {
      QueuedLeaves(w, c);
    } else {
      OutNeverLeaves(w, c);
    }
  }

  lemma QueuedLeaves(w: World, c: ClaimRef)
    requires Inv(w) && c in w.t.claims && Queued(w.t.ledger, c)
    ensures CanLeave(w, c)
  {
    hide Inv, Queued;
    var steps;
    if HasRow(w.t, c) {
      var k :| 0 <= k < |w.t.pending| && w.t.pending[k].challenger == c;
      steps := VerdictCanBeDelivered(w, k, w.t.claims[c], 0);
    } else {
      steps := OrphanCanBeSwept(w, c);
    }
    assert Leaves(w, steps, c);
  }

  lemma OutNeverLeaves(w: World, c: ClaimRef)
    requires Inv(w) && c in w.t.claims && !Queued(w.t.ledger, c)
    ensures !CanLeave(w, c)
  {
    hide Inv, Queued;
    forall steps | IsRun(w, steps) && OnTime(w, steps) && NotRequeued(w, After(w, steps), c)
      ensures multiset(After(w, steps).exits)[c] == multiset(w.exits)[c]
    {
      StaysOut(w, steps, c);
    }
  }

  /** A worker has committed for the row and is about to mark it. */
  ghost predicate BeingMarked(w: World, handle: Uuid) {
    exists id :: id in w.tasks && Marks(w.tasks[id], handle)
  }

  predicate Marks(k: Task, handle: Uuid) {
    k.Worker? && k.phase == Written && k.todo != [] && !k.todo[0].Orphan? && k.todo[0].row.handle == handle
  }

  /** Row `k` is pending, its challenger is out of the queue, and nobody is about to mark it. */
  ghost predicate Stuck(w: World, k: nat) {
    && k < |w.t.pending| && w.t.pending[k].status == PendingRow
    && !Queued(w.t.ledger, w.t.pending[k].challenger) && !BeingMarked(w, w.t.pending[k].handle)
  }

  /** Items with the row's handle are about the row's challenger. */
  lemma HandleNamesChallenger(w: World, item: Item, k: nat)
    requires Inv(w) && ItemOk(w, item) && !item.Orphan? && k < |w.t.pending| && item.row.handle == w.t.pending[k].handle
    ensures item.Claim() == w.t.pending[k].challenger
  {
  }

  lemma NobodyBeginsToMark(w: World, a: Action, k: nat)
    requires Inv(w) && Enabled(w, a) && Stuck(w, k)
    ensures !BeingMarked(Next(w, a), w.t.pending[k].handle)
  {
    hide RowsOk, LocksOk, IngestsDistinct, ExitsOk, LedgerOk, IsQueued, Queued, AV.Assert, ItemCommit, CommitClaim;
    forall id | id in Next(w, a).tasks ensures !Marks(Next(w, a).tasks[id], w.t.pending[k].handle) {
      if id in w.tasks {
        assert TaskOk(w, id);
        assert !Marks(w.tasks[id], w.t.pending[k].handle);
        if a.Commit? && a.id == id && w.tasks[id].Worker? && !w.tasks[id].todo[0].Orphan?
           && w.tasks[id].todo[0].row.handle == w.t.pending[k].handle {
          assert w.tasks[id].todo[0] in w.tasks[id].todo;
          HandleNamesChallenger(w, w.tasks[id].todo[0], k);
        }
      }
    }
  }

  lemma RowUnmarkedInStep(w: World, a: Action, k: nat)
    requires Inv(w) && Enabled(w, a) && Stuck(w, k)
    ensures k < |Next(w, a).t.pending| && Next(w, a).t.pending[k] == w.t.pending[k]
  {
    hide RowsOk, LocksOk, IngestsDistinct, ExitsOk, LedgerOk, IsQueued, Queued, Live, AV.Assert, ItemCommit;
    if a.Commit? {
      CommitGrows(w, a);
    } else if a.HostAssert? {
      AV.CallAppends(w.t, a.req, a.now, a.uuid);
    } else if a.Finish? && w.tasks[a.id].Worker? {
      assert TaskOk(w, a.id) && !Marks(w.tasks[a.id], w.t.pending[k].handle);
    }
  }

  lemma {:induction false} StaysStuck(w: World, steps: seq<Action>, k: nat)
    requires Inv(w) && Stuck(w, k) && IsRun(w, steps) && OnTime(w, steps)
    requires NotRequeued(w, After(w, steps), w.t.pending[k].challenger)
    ensures Stuck(After(w, steps), k) && After(w, steps).t.pending[k] == w.t.pending[k]
  {
    hide Inv, Queued, Enabled, Next, BeingMarked;
    if steps != [] {
      var p, a := steps[..|steps| - 1], steps[|steps| - 1];
      var c := w.t.pending[k].challenger;
      RequeuesGrow(w, p, c);
      RequeuesInStep(After(w, p), a, c);
      StaysStuck(w, p, k);
      RunKeepsInv(w, p);
      RowIsStored(w, k);
      StaysOut(w, steps, c);
      NobodyBeginsToMark(After(w, p), a, k);
      RowUnmarkedInStep(After(w, p), a, k);
    }
  }

  lemma RowIsStored(w: World, k: nat)
    requires Inv(w) && k < |w.t.pending|
    ensures w.t.pending[k].challenger in w.t.claims
  {
    assert RowOk(w, w.t.pending[k]);
  }

  /** The run marks row `k` without its challenger being queued anew. */
  ghost predicate MarksRow(w: World, steps: seq<Action>, k: nat)
    requires k < |w.t.pending|
  {
    && IsRun(w, steps) && OnTime(w, steps) && NotRequeued(w, After(w, steps), w.t.pending[k].challenger)
    && k < |After(w, steps).t.pending| && After(w, steps).t.pending[k].status != PendingRow
  }

  ghost predicate CanBeMarked(w: World, k: nat)
    requires k < |w.t.pending|
  {
    exists steps :: MarksRow(w, steps, k)
  }

  lemma MarkerFinishes(w: World, id: TaskId, k: nat)
    requires Inv(w) && k < |w.t.pending| && id in w.tasks && Marks(w.tasks[id], w.t.pending[k].handle)
    ensures MarksRow(w, [] + [Finish(id)], k)
  {
    OneStep(w, [], Finish(id));
  }

  /** A pending row can still be marked, without its challenger being queued anew, exactly when the
      challenger is queued or a worker has committed for the row and lives. So after a crash between a
      worker's commit and its mark the row stays pending until reconcile queues its challenger. */
  lemma CanBeMarkedExactly(w: World, k: nat)
    requires Inv(w) && k < |w.t.pending| && w.t.pending[k].status == PendingRow
    ensures CanBeMarked(w, k) <==> IsQueued(w.t, w.t.pending[k].challenger) || BeingMarked(w, w.t.pending[k].handle)
  {
    hide Inv, MarksRow;
    var c := w.t.pending[k].challenger;
    QueuedInLog(w.t, c);
    if BeingMarked(w, w.t.pending[k].handle) {
      var id :| id in w.tasks && Marks(w.tasks[id], w.t.pending[k].handle);
      MarkerFinishes(w, id, k);
    } else if Queued(w.t.ledger, c) {
      QueuedIsMarked(w, k);
    } else {
      StuckIsNotMarked(w, k);
    }
  }

  lemma QueuedIsMarked(w: World, k: nat)
    requires Inv(w) && k < |w.t.pending| && Queued(w.t.ledger, w.t.pending[k].challenger)
    ensures CanBeMarked(w, k)
  {
    hide Inv, Queued;
    var claim :| true;
    var steps := VerdictCanBeDelivered(w, k, claim, 0);
    assert MarksRow(w, steps, k);
  }

  lemma StuckIsNotMarked(w: World, k: nat)
    requires Inv(w) && Stuck(w, k)
    ensures !CanBeMarked(w, k)
  {
    hide Inv;
    forall steps | IsRun(w, steps) && OnTime(w, steps) && NotRequeued(w, After(w, steps), w.t.pending[k].challenger)
      ensures k < |After(w, steps).t.pending| && After(w, steps).t.pending[k].status == PendingRow
    {
      StaysStuck(w, steps, k);
    }
  }
}
