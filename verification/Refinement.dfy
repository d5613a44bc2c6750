/** What the use cases commit, and the steps that the runs of `Denial` and `Lifecycle` are made of: the
    same effects. */
module Refinement {
  import opened Ledger
  import opened Store
  import opened LedgerReadings
  import opened IngestClaim
  import opened Reconcile
  import opened SubmitAdjudication
  import opened SweepAdjudications
  import A = Agreement
  import AV = AssertValidity
  import D = Denial
  import L = Lifecycle
  import R = LifecycleRuns

  /** A submission without a failure is the verdict's step and the row's mark, or a step that changes
      nothing. */
  lemma SubmitIsSteps(t: Tables, handle: Uuid, verdict: Verdict, now: Instant, ref: Uuid)
    ensures var (t', r) := Submit(t, handle, verdict, now, ref);
            var decided := D.Do(t, D.Step.Verdict(handle, verdict, now, ref));
            t' == if t' == t then decided else D.Do(decided, D.Mark(handle, if r.Applied? then ResolvedRow else ExpiredRow))
  {
    hide RowIndex, IsQueued, Cascade;
    var p := PlanFor(t, handle, now);
    if !p.Reject? {
      assert |Commits(t, p, verdict, now, ref).ledger| > |t.ledger|;
    }
  }

  /** For a row whose challenger is queued it is what a worker of `Lifecycle` commits and then marks. */
  lemma SubmitIsWorker(t: Tables, row: Pending, verdict: Verdict, now: Instant, ref: Uuid)
    requires GetPending(t, row.handle) == Some(row) && IsQueued(t, row.challenger) && row.challenger in t.claims
    ensures Submit(t, row.handle, verdict, now, ref).0
            == L.ItemMark(L.ItemCommit(t, L.Answer(row, verdict), now, ref), L.Answer(row, verdict), now)
  {
    hide RowIndex, IsQueued, Cascade;
  }

  /** So it is with a row that a sweep reverts. */
  lemma SweepIsWorker(t: Tables, t': Tables, row: Pending, now: Instant, ref: Uuid)
    requires RevertStep(t, t', row.challenger, Some(row), now, true)
    ensures t' == L.ItemMark(L.ItemCommit(t, L.Overdue(row), now, ref), L.Overdue(row), now)
    ensures t' == D.Do(D.Do(t, D.Revert(row.challenger, now)), D.Mark(row.handle, ExpiredRow))
  {
    hide IsQueued;
  }

  /** And with an orphan. */
  lemma OrphanIsWorker(t: Tables, t': Tables, c: ClaimRef, unclaimed: bool, now: Instant, ref: Uuid)
    requires RevertStep(t, t', c, None, now, true)
    ensures t' == L.ItemMark(L.ItemCommit(t, L.Orphan(c, unclaimed), now, ref), L.Orphan(c, unclaimed), now)
    ensures t' == D.Do(t, D.Revert(c, now))
  {
    hide IsQueued;
  }

  /** An ingest's two writes, the claim with its entry and edges and then the row, are the ingest's step
      and the enqueueing of its row, and what an ingest of `Lifecycle` commits and then finishes with. */
  lemma IngestIsSteps(t: Tables, ref: ClaimRef, claim: Claim, d: Disposition, row: Pending, now: Instant)
    requires ref !in t.claims && GateDisposition(d) && row.challenger == ref && row.incumbent in t.claims
    ensures var committed := D.Do(t, D.Ingest(ref, claim, d, now));
            && committed == CommitClaim(t, ref, claim, d, now)
            && D.Do(committed, D.Enqueue(row)) == committed.(pending := t.pending + [row])
  {
  }

  lemma IngestIsTask(w: L.World, id: L.TaskId, claim: Claim, uuid: Uuid)
    requires L.Enabled(w, L.Commit(id, claim, uuid)) && w.tasks[id].Ingest?
    ensures var k := w.tasks[id];
            var w1 := L.Next(w, L.Commit(id, claim, uuid));
            && w1.t == CommitClaim(w.t, k.ref, claim, QueuedForAdjudication, k.now)
            && L.Enabled(w1, L.Finish(id))
            && L.Next(w1, L.Finish(id)).t
               == w1.t.(pending := w.t.pending + [Pending(k.handle, k.ref, k.incumbent, k.now, k.expiresAt, PendingRow)])
  {
    hide LineageEdges;
  }

  // ---- Interleaved runs are runs of steps ---------------------------------------------------

  /** The step an action takes on the tables; the others only move tasks and locks. */
  ghost function StepOf(w: L.World, a: L.Action): Option<D.Step>
    requires L.Enabled(w, a)
  {
    match a
    case Commit(id, claim, uuid) =>
      var k := w.tasks[id];
      if k.Ingest? then Some(D.Step.Ingest(k.ref, claim, QueuedForAdjudication, k.now))
      else if k.todo[0].Answer? then Some(D.Step.Verdict(k.todo[0].row.handle, k.todo[0].verdict, k.now, uuid))
      else Some(D.Step.Revert(k.todo[0].Claim(), k.now))
    case Finish(id) =>
      var k := w.tasks[id];
      if k.Ingest? then Some(D.Step.Enqueue(Pending(k.handle, k.ref, k.incumbent, k.now, k.expiresAt, PendingRow)))
      else if k.todo[0].Orphan? then None
      else Some(D.Step.Mark(k.todo[0].row.handle,
                            if k.todo[0].Answer? && !k.todo[0].row.Overdue(k.now) then ResolvedRow else ExpiredRow))
    case IngestOther(ref, claim, d, now) => Some(D.Step.Ingest(ref, claim, d, now))
    case HostAssert(req, now, uuid) => Some(D.Step.HostAssert(req, now, uuid))
    case Reconcile(c, d, now) => Some(D.Step.Reconcile(c, d, now))
    case _ => None
  }

  lemma StoredRow(w: L.World, row: Pending) returns (stored: Pending)
    requires L.RowsOk(w) && L.InTable(w.t, row)
    ensures GetPending(w.t, row.handle) == Some(stored) && stored.(status := row.status) == row
  {
    var k :| 0 <= k < |w.t.pending| && w.t.pending[k].(status := row.status) == row;
    stored := w.t.pending[k];
    hide L.RowOk, L.MarkOk;
    R.RowFound(w.t.pending, k);
  }

  lemma WorkerCommits(w: L.World, id: L.TaskId, claim: Claim, uuid: Uuid)
    requires L.Inv(w) && L.Enabled(w, L.Commit(id, claim, uuid)) && w.tasks[id].Worker?
    ensures L.Next(w, L.Commit(id, claim, uuid)).t == D.Do(w.t, StepOf(w, L.Commit(id, claim, uuid)).value)
  {
    hide IsQueued, RowIndex, L.RowOk, Cascade;
    assert L.TaskOk(w, id);
    var item := w.tasks[id].todo[0];
    assert item in w.tasks[id].todo;
    QueuedInLog(w.t, item.Claim());
    if item.Answer? {
      var stored := StoredRow(w, item.row);
    }
  }

  lemma OtherActionIsStep(w: L.World, a: L.Action)
    requires L.Inv(w) && L.Enabled(w, a) && !(a.Commit? && w.tasks[a.id].Worker?)
    ensures L.Next(w, a).t == match StepOf(w, a) case Some(s) => D.Do(w.t, s) case None => w.t
  {
    hide IsQueued, L.RowOk, L.RowsOk, L.LedgerOk, L.LocksOk, L.ExitsOk, L.ItemOk, AV.Assert, LineageEdges, MayReconcile;
    if a.Finish? {
      assert L.TaskOk(w, a.id);
    }
  }

  lemma ActionIsStep(w: L.World, a: L.Action)
    requires L.Inv(w) && L.Enabled(w, a)
    ensures L.Next(w, a).t == match StepOf(w, a) case Some(s) => D.Do(w.t, s) case None => w.t
  {
    hide L.Inv, L.Next, D.Do;
    if a.Commit? && w.tasks[a.id].Worker? {
      WorkerCommits(w, a.id, a.claim, a.uuid);
    } else {
      OtherActionIsStep(w, a);
    }
  }

  /** The steps that an interleaved run takes on the tables, in order. */
  ghost function Steps(w: L.World, actions: seq<L.Action>): seq<D.Step>
    requires R.IsRun(w, actions)
  {
    if actions == [] then []
    else
      var p := actions[..|actions| - 1];
      match StepOf(R.After(w, p), actions[|actions| - 1])
      case Some(s) => Steps(w, p) + [s]
      case None => Steps(w, p)
  }

  /** However tasks interleave, wait and crash, the tables are those of their steps taken one after the
      other. */
  lemma {:induction false} InterleavedIsSerial(w: L.World, actions: seq<L.Action>)
    requires R.Start(w) && R.IsRun(w, actions) && R.OnTime(w, actions)
    ensures R.After(w, actions).t == D.After(Steps(w, actions))
  {
    hide L.Enabled, L.Next, L.ClockOk, L.Inv, D.Do, StepOf;
    if actions != [] {
      var p, a := actions[..|actions| - 1], actions[|actions| - 1];
      InterleavedIsSerial(w, p);
      R.RunKeepsInv(w, p);
      ActionIsStep(R.After(w, p), a);
      if s :| StepOf(R.After(w, p), a) == Some(s) {
        assert (Steps(w, p) + [s])[..|Steps(w, p)|] == Steps(w, p);
      }
    }
  }

  /** So what is proved of runs of steps holds under concurrency: what "denied" means, */
  lemma DeniedUnderConcurrency(w: L.World, actions: seq<L.Action>, c: ClaimRef)
    requires R.Start(w) && R.IsRun(w, actions) && R.OnTime(w, actions) && D.Admissible(Steps(w, actions))
    ensures Denied(R.After(w, actions).t.ledger, c) == D.DeniedByRun(Steps(w, actions), c)
  {
    InterleavedIsSerial(w, actions);
    D.DeniedMeansDenied(Steps(w, actions), c);
  }

  /** and when the two logs of a claim agree. */
  lemma AgreementUnderConcurrency(w: L.World, actions: seq<L.Action>, c: ClaimRef)
    requires R.Start(w) && R.IsRun(w, actions) && R.OnTime(w, actions) && A.InTimeOrder(Steps(w, actions))
    requires A.AllFit(Steps(w, actions), c, |Steps(w, actions)|)
    ensures A.Agrees(R.After(w, actions).t, c)
  {
    InterleavedIsSerial(w, actions);
    A.RunTellsOneStory(Steps(w, actions), c, |Steps(w, actions)|);
    assert Steps(w, actions)[..|Steps(w, actions)|] == Steps(w, actions);
  }
}
