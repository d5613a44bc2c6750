/** The adjudication queue under concurrency: ingests, sweepers and verdict submitters interleave,
    any of them may crash between two writes, lists are stale by the time they are worked off, and
    every task reads its clock before it takes a lock. Only the per-agent lock orders them. */
module Lifecycle {
  import opened Ledger
  import opened LedgerReadings
  import opened Store
  import opened IngestClaim
  import opened SubmitAdjudication
  import opened Reconcile
  import AV = AssertValidity

  type TaskId = nat
  type AgentId = nat

  /** What a sweeper or submitter has to do for one claim. `unclaimed` notes, of an orphan, that no
      ingest of it was still running when it was listed. */
  datatype Item =
    | Overdue(row: Pending)
    | Orphan(ref: ClaimRef, unclaimed: bool)
    | Answer(row: Pending, verdict: Verdict)
  {
    function Claim(): ClaimRef {
      if Orphan? then ref else row.challenger
    }
  }

  datatype Phase = Idle | Locked | Checked | Written

  datatype Task =
    | Ingest(ref: ClaimRef, incumbent: ClaimRef, handle: Uuid, now: Instant, expiresAt: Option<Instant>, phase: Phase)
    | Worker(now: Instant, todo: seq<Item>, phase: Phase)
  {
    function WithPhase(p: Phase): Task {
      match this
      case Ingest(ref, incumbent, handle, now, expiresAt, _) => Ingest(ref, incumbent, handle, now, expiresAt, p)
      case Worker(now, todo, _) => Worker(now, todo, p)
    }

    predicate HasWork() {
      Ingest? || todo != []
    }

    function Target(): ClaimRef
      requires HasWork()
    {
      if Ingest? then ref else todo[0].Claim()
    }
  }

  /** `exits` lists the claims that a guarded path has taken out of the queue, one for each commit;
      `requeues` those that reconcile has put into it, one for each Queued entry. */
  datatype World = World(t: Tables, tasks: map<TaskId, Task>, held: map<AgentId, TaskId>,
                         exits: seq<ClaimRef>, requeues: seq<ClaimRef>, owner: ClaimRef -> AgentId)

  datatype Action =
    | StartIngest(id: TaskId, task: Task)
    | StartWorker(id: TaskId, now: Instant)
    | ListOverdue(id: TaskId)
    | ListOrphans(id: TaskId)
    | TakeHandle(id: TaskId, handle: Uuid, verdict: Verdict)
    | Acquire(id: TaskId)
    | Check(id: TaskId)
    | Commit(id: TaskId, claim: Store.Claim, uuid: Uuid)
    | Finish(id: TaskId)
    | Crash(id: TaskId)
    | IngestOther(ref: ClaimRef, claim: Store.Claim, d: Disposition, now: Instant)
    | HostAssert(req: AV.Request, now: Instant, uuid: Uuid)
    | Reconcile(ref: ClaimRef, d: Disposition, now: Instant)

  /** The tasks that are ingests of `c`. */
  predicate BeingIngested(w: World, c: ClaimRef) {
    exists id :: id in w.tasks && w.tasks[id].Ingest? && w.tasks[id].ref == c
  }

  predicate HandleReserved(w: World, handle: Uuid) {
    || (exists k :: 0 <= k < |w.t.pending| && w.t.pending[k].handle == handle)
    || (exists id :: id in w.tasks && w.tasks[id].Ingest? && w.tasks[id].handle == handle)
  }

  function OverdueItems(rows: seq<Pending>): (r: seq<Item>)
    ensures |r| == |rows| && forall k :: 0 <= k < |r| ==> r[k] == Overdue(rows[k])
  {
    if rows == [] then [] else OverdueItems(rows[..|rows| - 1]) + [Overdue(rows[|rows| - 1])]
  }

  function OrphanItems(w: World, refs: seq<ClaimRef>): (r: seq<Item>)
    ensures |r| == |refs| && forall k :: 0 <= k < |r| ==> r[k] == Orphan(refs[k], !BeingIngested(w, refs[k]))
  {
    if refs == [] then []
    else
      var c := refs[|refs| - 1];
      OrphanItems(w, refs[..|refs| - 1]) + [Orphan(c, !BeingIngested(w, c))]
  }

  /** What a worker's transaction commits for an item that passed the re-check. */
  function ItemCommit(t: Tables, item: Item, now: Instant, ref: Uuid): Tables
    requires item.Claim() in t.claims
  {
    if item.Answer? && !item.row.Overdue(now) then ApplyVerdict(t, item.row, item.verdict, now, ref)
    else AppendEntry(t, ExpiredEntry(item.Claim(), now))
  }

  /** The mark after the commit; an orphan has no row. */
  function ItemMark(t: Tables, item: Item, now: Instant): Tables {
    if item.Orphan? then t
    else MarkStatus(t, item.row.handle, if item.Answer? && !item.row.Overdue(now) then ResolvedRow else ExpiredRow)
  }

  predicate Enabled(w: World, a: Action) {
    match a
    case StartIngest(id, task) =>
      && id !in w.tasks && task.Ingest? && task.phase == Idle
      && task.ref !in w.t.claims && !BeingIngested(w, task.ref) && !HandleReserved(w, task.handle)
      && task.incumbent in w.t.claims && w.owner(task.incumbent) == w.owner(task.ref)
      // The time to live is an unsigned duration, zero included.
      && (task.expiresAt.Some? ==> task.now <= task.expiresAt.value)
    case StartWorker(id, _) => id !in w.tasks
    case ListOverdue(id) => id in w.tasks && w.tasks[id].Worker? && w.tasks[id].phase == Idle && w.tasks[id].todo == []
    case ListOrphans(id) => id in w.tasks && w.tasks[id].Worker? && w.tasks[id].phase == Idle && w.tasks[id].todo == []
    case TakeHandle(id, handle, _) =>
      id in w.tasks && w.tasks[id].Worker? && w.tasks[id].phase == Idle && w.tasks[id].todo == [] && GetPending(w.t, handle).Some?
    case Acquire(id) =>
      && id in w.tasks && w.tasks[id].phase == Idle && w.tasks[id].HasWork()
      && w.owner(w.tasks[id].Target()) !in w.held
    case Check(id) => id in w.tasks && w.tasks[id].Worker? && w.tasks[id].todo != [] && w.tasks[id].phase == Locked
    case Commit(id, _, _) =>
      && id in w.tasks && w.tasks[id].HasWork()
      && if w.tasks[id].Ingest? then w.tasks[id].phase == Locked && w.tasks[id].ref !in w.t.claims
         else w.tasks[id].phase == Checked && w.tasks[id].Target() in w.t.claims
    case Finish(id) => id in w.tasks && w.tasks[id].HasWork() && w.tasks[id].phase == Written
    case Crash(id) => id in w.tasks
    // The other writers, each as one critical section: an ingest that queues nothing, a host call, and
    // one entry of a reconcile pass.
    case IngestOther(ref, _, d, _) =>
      && ref !in w.t.claims && !BeingIngested(w, ref) && w.owner(ref) !in w.held
      && GateDisposition(d) && d != QueuedForAdjudication
    case HostAssert(req, _, _) => w.owner(req.target) !in w.held
    case Reconcile(c, d, now) => MayReconcile(w.t, c, d, now) && w.owner(c) !in w.held
  }

  function Unlock(w: World, id: TaskId): map<AgentId, TaskId> {
    map g | g in w.held && w.held[g] != id :: w.held[g]
  }

  /** The worker is done with its first item. */
  function NextItem(w: World, id: TaskId, t: Tables): World
    requires id in w.tasks && w.tasks[id].Worker? && w.tasks[id].todo != []
  {
    var k := w.tasks[id];
    w.(t := t, tasks := w.tasks[id := k.(todo := k.todo[1..], phase := Idle)], held := Unlock(w, id))
  }

  function Next(w: World, a: Action): World
    requires Enabled(w, a)
  {
    match a
    case StartIngest(id, task) => w.(tasks := w.tasks[id := task])
    case StartWorker(id, now) => w.(tasks := w.tasks[id := Worker(now, [], Idle)])
    case ListOverdue(id) =>
      var k := w.tasks[id];
      w.(tasks := w.tasks[id := k.(todo := OverdueItems(ListExpired(w.t, k.now)))])
    case ListOrphans(id) =>
      var k := w.tasks[id];
      w.(tasks := w.tasks[id := k.(todo := OrphanItems(w, ListQueuedOrphans(w.t)))])
    case TakeHandle(id, handle, verdict) =>
      var k := w.tasks[id];
      w.(tasks := w.tasks[id := k.(todo := [Answer(GetPending(w.t, handle).value, verdict)])])
    case Acquire(id) =>
      var k := w.tasks[id];
      w.(tasks := w.tasks[id := k.WithPhase(Locked)], held := w.held[w.owner(k.Target()) := id])
    case Check(id) =>
      var k := w.tasks[id];
      if IsQueued(w.t, k.Target()) then w.(tasks := w.tasks[id := k.WithPhase(Checked)]) else NextItem(w, id, w.t)
    case Commit(id, claim, uuid) =>
      var k := w.tasks[id];
      if k.Ingest? then
        w.(t := CommitClaim(w.t, k.ref, claim, QueuedForAdjudication, k.now), tasks := w.tasks[id := k.WithPhase(Written)])
      else
        w.(t := ItemCommit(w.t, k.todo[0], k.now, uuid), tasks := w.tasks[id := k.WithPhase(Written)],
           exits := w.exits + [k.Target()])
    case Finish(id) =>
      var k := w.tasks[id];
      if k.Ingest? then
        w.(t := InsertPending(w.t, Pending(k.handle, k.ref, k.incumbent, k.now, k.expiresAt, PendingRow)),
           tasks := w.tasks - {id}, held := Unlock(w, id))
      else NextItem(w, id, ItemMark(w.t, k.todo[0], k.now))
    case Crash(id) => w.(tasks := w.tasks - {id}, held := Unlock(w, id))
    case IngestOther(ref, claim, d, now) => w.(t := CommitClaim(w.t, ref, claim, d, now))
    case HostAssert(req, now, uuid) => w.(t := AV.Assert(w.t, req, now, uuid).0)
    case Reconcile(c, d, now) =>
      w.(t := AppendEntry(w.t, ReconcileEntry(c, d, now)),
         requeues := if d == QueuedForAdjudication then w.requeues + [c] else w.requeues)
  }

  /** What the two listings of a sweep put on its list. */
  lemma ListedExactly(w: World, a: Action)
    requires Enabled(w, a)
    ensures a.ListOverdue? ==>
              forall item :: item in Next(w, a).tasks[a.id].todo <==>
                item.Overdue? && item.row in w.t.pending && item.row.status == PendingRow
                && item.row.expiresAt.Some? && item.row.expiresAt.value <= w.tasks[a.id].now
    ensures a.ListOrphans? ==>
              forall item :: item in Next(w, a).tasks[a.id].todo <==>
                item.Orphan? && item.ref in ListQueuedOrphans(w.t)
                && (item.unclaimed <==> forall id :: id in w.tasks && w.tasks[id].Ingest? ==> w.tasks[id].ref != item.ref)
  {
    if a.ListOverdue? {
      var rows, todo := ListExpired(w.t, w.tasks[a.id].now), Next(w, a).tasks[a.id].todo;
      forall k | 0 <= k < |rows| ensures Overdue(rows[k]) in todo {
        assert todo[k] == Overdue(rows[k]);
      }
    }
    if a.ListOrphans? {
      var refs, todo := ListQueuedOrphans(w.t), Next(w, a).tasks[a.id].todo;
      forall k | 0 <= k < |refs| ensures Orphan(refs[k], !BeingIngested(w, refs[k])) in todo {
        assert todo[k] == Orphan(refs[k], !BeingIngested(w, refs[k]));
      }
    }
  }

  // ---- Entering and leaving the queue -------------------------------------------------------

  /** The claim's latest entry is a Queued entry. */
  predicate Queued(ledger: seq<Entry>, c: ClaimRef) {
    LatestDispositionFromLedger(ledger, c) == Some(QueuedForAdjudication)
  }

  predicate Queues(e: Entry, c: ClaimRef) {
    e.claim == c && e.disposition == QueuedForAdjudication
  }

  function QueuedCount(ledger: seq<Entry>, c: ClaimRef): nat {
    if ledger == [] then 0
    else QueuedCount(ledger[..|ledger| - 1], c) + if Queues(ledger[|ledger| - 1], c) then 1 else 0
  }

  ghost predicate NoneQueues(es: seq<Entry>, c: ClaimRef) {
    forall e :: e in es ==> !Queues(e, c)
  }

  /** The claim has an entry, and none of its entries is later than `now`. */
  predicate InTime(ledger: seq<Entry>, c: ClaimRef, now: Instant) {
    LastLatest(ledger, c).Some? && LastLatest(ledger, c).value.recordedAt <= now
  }

  lemma CountAfterAppend(ledger: seq<Entry>, e: Entry, c: ClaimRef)
    ensures QueuedCount(ledger + [e], c) == QueuedCount(ledger, c) + if Queues(e, c) then 1 else 0
  {
    assert (ledger + [e])[..|ledger|] == ledger;
  }

  /** Without a Queued entry of its own a claim does not come to be queued. */
  lemma {:induction false} OutStaysOut(ledger: seq<Entry>, es: seq<Entry>, c: ClaimRef)
    requires NoneQueues(es, c)
    ensures Queued(ledger + es, c) ==> Queued(ledger, c)
    ensures QueuedCount(ledger + es, c) == QueuedCount(ledger, c)
  {
    if es == [] {
      assert ledger + es == ledger;
    } else {
      var p, e := es[..|es| - 1], es[|es| - 1];
      assert ledger + es == (ledger + p) + [e] && e in es;
      OutStaysOut(ledger, p, c);
      LastLatestAfterAppend(ledger + p, e, c);
      CountAfterAppend(ledger + p, e, c);
    }
  }

  lemma {:induction false} OthersUntouched(ledger: seq<Entry>, es: seq<Entry>, c: ClaimRef)
    requires forall e :: e in es ==> e.claim != c
    ensures LastLatest(ledger + es, c) == LastLatest(ledger, c)
  {
    if es == [] {
      assert ledger + es == ledger;
    } else {
      var p, e := es[..|es| - 1], es[|es| - 1];
      assert ledger + es == (ledger + p) + [e];
      assert e in es;
      OthersUntouched(ledger, p, c);
      LastLatestAfterAppend(ledger + p, e, c);
    }
  }

  lemma {:induction false} LatestAfterSame(ledger: seq<Entry>, es: seq<Entry>, c: ClaimRef, e: Entry)
    requires EntriesOf(es, c) == [e]
    ensures LastLatest(ledger + es, c)
            == if LastLatest(ledger, c).None? || LastLatest(ledger, c).value.recordedAt <= e.recordedAt then Some(e)
               else LastLatest(ledger, c)
  {
    var p, last := es[..|es| - 1], es[|es| - 1];
    assert ledger + es == (ledger + p) + [last] && es == p + [last];
    LastLatestAfterAppend(ledger + p, last, c);
    if last.claim == c {
      assert EntriesOf(p, c) + [last] == [e];
      assert EntriesOf(p, c) == [];
      OthersUntouched(ledger, p, c);
    } else {
      LatestAfterSame(ledger, p, c, e);
    }
  }

  /** A claim that reads as queued does so for one of its Queued entries. */
  lemma QueuedEntry(ledger: seq<Entry>, c: ClaimRef) returns (e: Entry)
    requires Queued(ledger, c)
    ensures e in ledger && Queues(e, c) && LastLatest(ledger, c) == Some(e)
  {
    LastLatestIsLast(ledger, c);
    e := LastLatest(ledger, c).value;
  }

  lemma {:induction false} NoneStoredNoneQueued(ledger: seq<Entry>, c: ClaimRef)
    requires forall e :: e in ledger ==> e.claim != c
    ensures QueuedCount(ledger, c) == 0 && !Queued(ledger, c)
  {
    if ledger != [] {
      var p, e := ledger[..|ledger| - 1], ledger[|ledger| - 1];
      assert ledger == p + [e] && e in ledger;
      NoneStoredNoneQueued(p, c);
      LastLatestAfterAppend(p, e, c);
    }
  }

  // ---- What a worker's commit appends -------------------------------------------------------

  function CommitEntries(item: Item, now: Instant): seq<Entry> {
    if item.Answer? && !item.row.Overdue(now) then
      match item.verdict
      case Affirm => [BoundEntry(item.row.incumbent, VERDICT_AFFIRM, now), ResolvedEntry(item.row.challenger, CommittedCheap, now)]
      case Deny => [BoundEntry(item.row.challenger, VERDICT_DENY, now)]
      case Unknown => [ResolvedEntry(item.row.challenger, Contested, now), ResolvedEntry(item.row.incumbent, Contested, now)]
    else [ExpiredEntry(item.Claim(), now)]
  }

  lemma ItemCommitAppends(t: Tables, item: Item, now: Instant, ref: Uuid)
    requires item.Claim() in t.claims && forall e :: e in t.edges ==> e.kind == DerivedFrom
    ensures var t', es := ItemCommit(t, item, now, ref), CommitEntries(item, now);
            t' == t.(ledger := t.ledger + es, assertions := t'.assertions)
    ensures forall e :: e in CommitEntries(item, now) ==>
              && e.disposition != QueuedForAdjudication
              && (e.claim == item.Claim() || (!item.Orphan? && e.claim == item.row.incumbent))
  {
    var es := CommitEntries(item, now);
    assert es[|es| - 1] in es && es[0] in es;
    if item.Answer? && !item.row.Overdue(now) {
      NoCascade(t.edges, item.row.challenger, now);
      NoCascade(t.edges, item.row.incumbent, now);
      assert t.ledger + es[..1] + es[1..] == t.ledger + es;
    }
  }

  lemma CommitEntriesOfTarget(item: Item, now: Instant) returns (e: Entry)
    requires !item.Orphan? ==> item.row.challenger != item.row.incumbent
    ensures EntriesOf(CommitEntries(item, now), item.Claim()) == [e]
    ensures e.recordedAt == now && e.disposition != QueuedForAdjudication
  {
    var es := CommitEntries(item, now);
    if |es| == 2 {
      EntriesOfConcat(es[..1], es[1..], item.Claim());
      assert es == es[..1] + es[1..];
      e := if es[0].claim == item.Claim() then es[0] else es[1];
    } else {
      e := es[0];
    }
  }

  /** The commit takes a queued claim out exactly when its clock reading is in time. */
  lemma CommitOnLog(ledger: seq<Entry>, item: Item, now: Instant)
    requires !item.Orphan? ==> item.row.challenger != item.row.incumbent
    requires Queued(ledger, item.Claim())
    ensures !Queued(ledger + CommitEntries(item, now), item.Claim()) <==> InTime(ledger, item.Claim(), now)
  {
    var e := CommitEntriesOfTarget(item, now);
    LatestAfterSame(ledger, CommitEntries(item, now), item.Claim(), e);
  }

  // ---- The invariant ------------------------------------------------------------------------

  ghost predicate LedgerOk(w: World) {
    && (forall e :: e in w.t.ledger ==> e.claim in w.t.claims)
    && (forall e :: e in w.t.edges ==> e.kind == DerivedFrom)
    && (forall c :: c in w.requeues ==> c in w.t.claims)
  }

  /** `c` has a Queued entry at `q`, and no other unless reconcile wrote it. */
  ghost predicate QueuedAt(w: World, c: ClaimRef, q: Instant) {
    && (exists e :: e in w.t.ledger && Queues(e, c) && e.recordedAt == q)
    && (c !in w.requeues ==> forall e :: e in w.t.ledger && Queues(e, c) ==> e.recordedAt == q)
  }

  /** The row names a challenger that was queued, and another claim of the same agent, and its
      deadline, if any, is not before the moment of queueing. */
  ghost predicate RowOk(w: World, row: Pending) {
    && row.challenger in w.t.claims && row.incumbent in w.t.claims && row.challenger != row.incumbent
    && w.owner(row.incumbent) == w.owner(row.challenger)
    && QueuedAt(w, row.challenger, row.queuedAt)
    && (row.expiresAt.Some? ==> row.queuedAt <= row.expiresAt.value)
  }

  /** The challenger of a marked row is out of the queue, unless reconcile has queued it. */
  ghost predicate MarkOk(w: World, row: Pending) {
    row.status != PendingRow && row.challenger !in w.requeues ==> !Queued(w.t.ledger, row.challenger)
  }

  ghost predicate RowsOk(w: World) {
    && (forall k :: 0 <= k < |w.t.pending| ==> RowOk(w, w.t.pending[k]) && MarkOk(w, w.t.pending[k]))
    && (forall i, j :: 0 <= i < j < |w.t.pending| ==>
          w.t.pending[i].handle != w.t.pending[j].handle && w.t.pending[i].challenger != w.t.pending[j].challenger)
  }

  predicate HasRow(t: Tables, c: ClaimRef) {
    exists k :: 0 <= k < |t.pending| && t.pending[k].challenger == c
  }

  /** The row is stored, with the status it had or another. */
  ghost predicate InTable(t: Tables, row: Pending) {
    exists k :: 0 <= k < |t.pending| && t.pending[k].(status := row.status) == row
  }

  ghost predicate ItemOk(w: World, item: Item) {
    && item.Claim() in w.t.claims
    && (!item.Orphan? ==> RowOk(w, item.row) && InTable(w.t, item.row))
    && (item.Orphan? && item.unclaimed ==> !HasPendingRow(w.t, item.ref) && !BeingIngested(w, item.ref))
  }

  ghost predicate IngestOk(w: World, k: Task)
    requires k.Ingest?
  {
    && k.incumbent in w.t.claims && w.owner(k.incumbent) == w.owner(k.ref) && k.ref != k.incumbent
    && (k.expiresAt.Some? ==> k.now <= k.expiresAt.value)
    && !HasRow(w.t, k.ref)
    && k.phase != Checked
    && if k.phase == Written then k.ref in w.t.claims && QueuedAt(w, k.ref, k.now) else k.ref !in w.t.claims
  }

  ghost predicate WorkerOk(w: World, k: Task)
    requires k.Worker?
  {
    && (forall item :: item in k.todo ==> ItemOk(w, item))
    && (k.phase != Idle ==> k.todo != [])
    && (k.phase == Checked ==> Queued(w.t.ledger, k.todo[0].Claim()))
    && (k.phase == Written ==> !Queued(w.t.ledger, k.todo[0].Claim()))
  }

  ghost predicate TaskOk(w: World, id: TaskId)
    requires id in w.tasks
  {
    if w.tasks[id].Ingest? then IngestOk(w, w.tasks[id]) else WorkerOk(w, w.tasks[id])
  }

  ghost predicate TasksOk(w: World) {
    forall id :: id in w.tasks ==> TaskOk(w, id)
  }

  ghost predicate IngestsDistinct(w: World) {
    && (forall a, b :: a in w.tasks && b in w.tasks && a != b && w.tasks[a].Ingest? && w.tasks[b].Ingest? ==>
          w.tasks[a].ref != w.tasks[b].ref && w.tasks[a].handle != w.tasks[b].handle)
    && (forall a, k :: a in w.tasks && w.tasks[a].Ingest? && 0 <= k < |w.t.pending| ==> w.t.pending[k].handle != w.tasks[a].handle)
  }

  /** A task between its lock and its release holds the lock of its target's agent, and locks are
      held by tasks. */
  ghost predicate LocksOk(w: World) {
    && (forall id :: id in w.tasks && w.tasks[id].phase != Idle ==>
          && w.tasks[id].HasWork()
          && w.owner(w.tasks[id].Target()) in w.held && w.held[w.owner(w.tasks[id].Target())] == id)
    && (forall g :: g in w.held ==> w.held[g] in w.tasks)
  }

  /** Each exit is paid for by a Queued entry, one more is owed while the claim is queued, and beyond
      its ingest's own a claim has the Queued entries that reconcile wrote. */
  ghost predicate ExitsOkFor(w: World, c: ClaimRef) {
    && multiset(w.exits)[c] + (if Queued(w.t.ledger, c) then 1 else 0) <= QueuedCount(w.t.ledger, c)
    && QueuedCount(w.t.ledger, c) <= 1 + multiset(w.requeues)[c]
  }

  ghost predicate ExitsOk(w: World) {
    forall c :: ExitsOkFor(w, c)
  }

  ghost predicate Inv(w: World) {
    LedgerOk(w) && RowsOk(w) && TasksOk(w) && IngestsDistinct(w) && LocksOk(w) && ExitsOk(w)
  }

  /** A worker that commits has read its clock no earlier than its claim's latest entry. Of an overdue
      row whose challenger reconcile has not queued again this need not be asked: it follows from the
      deadline. */
  ghost predicate ClockOk(w: World, a: Action)
    requires Enabled(w, a)
  {
    a.Commit? && w.tasks[a.id].Worker? ==>
      var k := w.tasks[a.id];
      k.todo[0].Orphan? || !k.todo[0].row.Overdue(k.now) || k.Target() in w.requeues ==> InTime(w.t.ledger, k.Target(), k.now)
  }

  // ---- What stays true of everything a step does not touch ----------------------------------

  /** The entries a step appends. */
  function NewEntries(w: World, a: Action): seq<Entry>
    requires Enabled(w, a)
  {
    match a
    case Commit(id, _, _) =>
      var k := w.tasks[id];
      if k.Ingest? then [CommitEntry(k.ref, QueuedForAdjudication, k.now)] else CommitEntries(k.todo[0], k.now)
    case IngestOther(ref, _, d, now) => [CommitEntry(ref, d, now)]
    case HostAssert(req, now, _) => AV.CallEntries(w.t, req, now)
    case Reconcile(c, d, now) => [ReconcileEntry(c, d, now)]
    case _ => []
  }

  /** Claims stay, the log grows by `es`, and a stored claim gets a Queued entry only from reconcile. */
  ghost predicate Grows(w: World, w': World, es: seq<Entry>) {
    && w'.owner == w.owner
    && (forall c :: c in w.t.claims ==> c in w'.t.claims)
    && w'.t.ledger == w.t.ledger + es
    && (forall c :: c in w.requeues ==> c in w'.requeues)
    && (forall e :: e in es && e.claim in w.t.claims && e.disposition == QueuedForAdjudication ==> e.claim in w'.requeues)
    && (forall e :: e in es ==> e.claim in w'.t.claims)
  }

  /** The same rows, none pending again, and possibly one more, for a claim whose ingest ends here. */
  ghost predicate RowsGrow(w: World, w': World) {
    && |w.t.pending| <= |w'.t.pending| <= |w.t.pending| + 1
    && (forall k :: 0 <= k < |w.t.pending| ==> SameRow(w.t.pending[k], w'.t.pending[k]))
    && (forall k :: |w.t.pending| <= k < |w'.t.pending| ==> BeingIngested(w, w'.t.pending[k].challenger))
    && (forall c :: c in w.t.claims && BeingIngested(w', c) ==> BeingIngested(w, c))
  }

  predicate SameRow(row: Pending, row': Pending) {
    row' == row.(status := row'.status) && (row'.status == PendingRow ==> row.status == PendingRow)
  }

  lemma WorkerCommitAppends(w: World, a: Action)
    requires Inv(w) && Enabled(w, a) && a.Commit? && w.tasks[a.id].Worker?
    ensures var k := w.tasks[a.id];
            && ItemOk(w, k.todo[0])
            && Next(w, a).t == w.t.(ledger := w.t.ledger + NewEntries(w, a), assertions := Next(w, a).t.assertions)
            && (forall e :: e in NewEntries(w, a) ==>
                  && e.disposition != QueuedForAdjudication
                  && e.claim in w.t.claims && w.owner(e.claim) == w.owner(k.Target()))
  {
    var k := w.tasks[a.id];
    assert TaskOk(w, a.id) && k.todo[0] in k.todo;
    ItemCommitAppends(w.t, k.todo[0], k.now, a.uuid);
  }

  lemma CommitGrows(w: World, a: Action)
    requires Inv(w) && Enabled(w, a) && a.Commit?
    ensures Grows(w, Next(w, a), NewEntries(w, a)) && Next(w, a).t.pending == w.t.pending
  {
    if w.tasks[a.id].Worker? {
      WorkerCommitAppends(w, a);
    }
  }

  lemma OtherGrows(w: World, a: Action)
    requires Inv(w) && Enabled(w, a) && !a.Commit?
    ensures Grows(w, Next(w, a), NewEntries(w, a))
  {
    hide RowsOk, TasksOk, IngestsDistinct, LocksOk, ExitsOk, IsQueued, Live, BeingIngested, HandleReserved, AV.Assert, AV.CallEntries;
    assert w.t.ledger + [] == w.t.ledger;
    if a.HostAssert? {
      AV.CallAppends(w.t, a.req, a.now, a.uuid);
    }
  }

  lemma IngestsEnd(w: World, a: Action)
    requires Enabled(w, a)
    ensures forall c :: c in w.t.claims && BeingIngested(Next(w, a), c) ==> BeingIngested(w, c)
  {
    hide AppendEntry, CommitClaim, MarkStatus, InsertPending, ItemCommit, ItemMark, IsQueued, AV.Assert;
    forall c | c in w.t.claims && BeingIngested(Next(w, a), c) ensures BeingIngested(w, c) {
      var id :| id in Next(w, a).tasks && Next(w, a).tasks[id].Ingest? && Next(w, a).tasks[id].ref == c;
      assert id in w.tasks && w.tasks[id].Ingest? && w.tasks[id].ref == c;
    }
  }

  lemma RowsOfStep(w: World, a: Action)
    requires Inv(w) && Enabled(w, a)
    ensures RowsGrow(w, Next(w, a))
  {
    hide LedgerOk, RowsOk, IngestsDistinct, ExitsOk, LocksOk, TasksOk, IsQueued, Live, AV.Assert;
    IngestsEnd(w, a);
    if a.Commit? {
      CommitGrows(w, a);
    } else if a.HostAssert? {
      AV.CallAppends(w.t, a.req, a.now, a.uuid);
    } else if a.Finish? && w.tasks[a.id].Ingest? {
      assert BeingIngested(w, w.tasks[a.id].ref);
    }
  }

  lemma StepGrows(w: World, a: Action)
    requires Inv(w) && Enabled(w, a)
    ensures Grows(w, Next(w, a), NewEntries(w, a)) && RowsGrow(w, Next(w, a))
  {
    RowsOfStep(w, a);
    if a.Commit? {
      CommitGrows(w, a);
    } else {
      OtherGrows(w, a);
    }
  }

  lemma QueuedAtStays(w: World, w': World, es: seq<Entry>, c: ClaimRef, q: Instant)
    requires Grows(w, w', es) && c in w.t.claims && QueuedAt(w, c, q)
    ensures QueuedAt(w', c, q)
  {
    var e :| e in w.t.ledger && Queues(e, c) && e.recordedAt == q;
    assert e in w'.t.ledger;
  }

  lemma RowStays(w: World, w': World, es: seq<Entry>, row: Pending)
    requires Grows(w, w', es) && RowOk(w, row)
    ensures RowOk(w', row)
  {
    hide QueuedAt;
    QueuedAtStays(w, w', es, row.challenger, row.queuedAt);
  }

  lemma ItemStays(w: World, w': World, es: seq<Entry>, item: Item)
    requires Grows(w, w', es) && RowsGrow(w, w') && ItemOk(w, item)
    ensures ItemOk(w', item)
  {
    hide QueuedAt, RowOk;
    if item.Orphan? {
      forall r | 0 <= r < |w'.t.pending| && w'.t.pending[r].status == PendingRow && w'.t.pending[r].challenger == item.ref
        ensures HasPendingRow(w.t, item.ref) || BeingIngested(w, item.ref)
      {
        assert r < |w.t.pending| ==> SameRow(w.t.pending[r], w'.t.pending[r]);
      }
    } else {
      RowStays(w, w', es, item.row);
      var k :| 0 <= k < |w.t.pending| && w.t.pending[k].handle == item.row.handle && w.t.pending[k].challenger == item.row.challenger;
      assert SameRow(w.t.pending[k], w'.t.pending[k]);
    }
  }

  /** A task inside its critical section is not interfered with by the others. */
  lemma StepSparesLocked(w: World, a: Action, id: TaskId)
    requires Inv(w) && Enabled(w, a) && id in w.tasks && w.tasks[id].phase != Idle && (a.Commit? ==> a.id != id)
    ensures w.tasks[id].HasWork() && forall e :: e in NewEntries(w, a) ==> e.claim != w.tasks[id].Target()
  {
    hide RowsOk, TasksOk, IngestsDistinct, ExitsOk, IsQueued, Live, AV.CallEntries;
    if a.Commit? && w.tasks[a.id].Worker? {
      WorkerCommitAppends(w, a);
    } else if a.HostAssert? {
      AV.CallAppends(w.t, a.req, a.now, a.uuid);
    }
  }

  /** A new row is that of the ingest that ends here. */
  lemma RowsComeFrom(w: World, a: Action, r: nat)
    requires Inv(w) && Enabled(w, a) && r < |Next(w, a).t.pending|
    ensures var row := Next(w, a).t.pending[r];
            if r < |w.t.pending| then row.handle == w.t.pending[r].handle && row.challenger == w.t.pending[r].challenger
            else a.Finish? && w.tasks[a.id].Ingest? && row.handle == w.tasks[a.id].handle && row.challenger == w.tasks[a.id].ref
  {
    hide LedgerOk, RowsOk, TasksOk, LocksOk, ExitsOk, IsQueued, Live, AV.Assert;
    RowsOfStep(w, a);
    if a.Commit? {
      CommitGrows(w, a);
    } else if a.HostAssert? {
      AV.CallAppends(w.t, a.req, a.now, a.uuid);
    }
    assert r < |w.t.pending| ==> SameRow(w.t.pending[r], Next(w, a).t.pending[r]);
  }

  /** An unfinished ingest's claim gets no row from elsewhere. */
  lemma IngestGetsNoRow(w: World, a: Action, id: TaskId)
    requires Inv(w) && Enabled(w, a) && id in w.tasks && w.tasks[id].Ingest? && (a.Finish? ==> a.id != id)
    ensures !HasRow(Next(w, a).t, w.tasks[id].ref)
  {
    hide LedgerOk, LocksOk, ExitsOk, QueuedAt, Next, IsQueued;
    assert TaskOk(w, id);
    forall r | 0 <= r < |Next(w, a).t.pending| ensures Next(w, a).t.pending[r].challenger != w.tasks[id].ref {
      RowsComeFrom(w, a, r);
    }
  }

  /** Only its own commit stores an ingest's claim. */
  lemma IngestStaysUnstored(w: World, a: Action, id: TaskId)
    requires Inv(w) && Enabled(w, a) && id in w.tasks && w.tasks[id].Ingest? && (a.Commit? ==> a.id != id)
    requires w.tasks[id].ref !in w.t.claims
    ensures w.tasks[id].ref !in Next(w, a).t.claims
  {
    hide LedgerOk, RowsOk, LocksOk, ExitsOk, IsQueued, Live, AV.Assert;
    assert BeingIngested(w, w.tasks[id].ref);
    if a.Commit? && w.tasks[a.id].Worker? {
      WorkerCommitAppends(w, a);
    } else if a.HostAssert? {
      AV.CallAppends(w.t, a.req, a.now, a.uuid);
    }
  }

  lemma OtherIngest(w: World, a: Action, id: TaskId)
    requires Inv(w) && Enabled(w, a) && id in w.tasks && w.tasks[id].Ingest? && (a.Commit? || a.Finish? ==> a.id != id)
    ensures IngestOk(Next(w, a), w.tasks[id])
  {
    hide Next, LedgerOk, RowsOk, LocksOk, ExitsOk, IngestsDistinct, QueuedAt, Enabled;
    var k := w.tasks[id];
    assert TaskOk(w, id);
    StepGrows(w, a);
    IngestGetsNoRow(w, a, id);
    if k.phase == Written {
      QueuedAtStays(w, Next(w, a), NewEntries(w, a), k.ref, k.now);
    } else {
      IngestStaysUnstored(w, a, id);
    }
  }

  lemma ItemsStay(w: World, a: Action, todo: seq<Item>)
    requires Inv(w) && Enabled(w, a) && forall item :: item in todo ==> ItemOk(w, item)
    ensures forall item :: item in todo ==> ItemOk(Next(w, a), item)
  {
    hide Next, Enabled, Inv, ItemOk;
    StepGrows(w, a);
    forall item | item in todo ensures ItemOk(Next(w, a), item) {
      ItemStays(w, Next(w, a), NewEntries(w, a), item);
    }
  }

  lemma LatestUntouched(ledger: seq<Entry>, es: seq<Entry>, c: ClaimRef)
    requires forall e :: e in es ==> e.claim != c
    ensures Queued(ledger + es, c) == Queued(ledger, c)
  {
    OthersUntouched(ledger, es, c);
  }

  lemma OtherWorker(w: World, a: Action, id: TaskId)
    requires Inv(w) && Enabled(w, a) && id in w.tasks && w.tasks[id].Worker? && (a.Commit? ==> a.id != id)
    ensures WorkerOk(Next(w, a), w.tasks[id])
  {
    hide Next, Enabled, ItemOk, LedgerOk, RowsOk, LocksOk, ExitsOk, IngestsDistinct, Queued;
    var k := w.tasks[id];
    StepGrows(w, a);
    assert TaskOk(w, id);
    ItemsStay(w, a, k.todo);
    if k.phase != Idle {
      StepSparesLocked(w, a, id);
      LatestUntouched(w.t.ledger, NewEntries(w, a), k.Target());
    }
  }

  // ---- The step's own task ------------------------------------------------------------------

  /** A claim on the orphan list has no pending row. */
  lemma OrphanHasNoPendingRow(w: World, c: ClaimRef)
    requires c in ListQueuedOrphans(w.t)
    ensures c in w.t.claims && !HasPendingRow(w.t, c)
  {
    var k :| 0 <= k < |w.t.ledger| && w.t.ledger[k].claim == c && OrphanEntry(w.t, w.t.ledger[k]);
  }

  lemma ListedRowOk(w: World, a: Action, row: Pending)
    requires Inv(w) && Enabled(w, a) && Next(w, a).t == w.t && row in w.t.pending
    ensures RowOk(Next(w, a), row) && InTable(Next(w, a).t, row) && row.challenger in Next(w, a).t.claims
  {
    hide LedgerOk, TasksOk, LocksOk, ExitsOk, IngestsDistinct, QueuedAt, IsQueued, Next;
    var r :| 0 <= r < |w.t.pending| && w.t.pending[r] == row;
    assert RowOk(w, row);
    StepGrows(w, a);
    assert Next(w, a).t.ledger == w.t.ledger + NewEntries(w, a);
    RowStays(w, Next(w, a), NewEntries(w, a), row);
  }

  lemma ListedItems(w: World, a: Action)
    requires Enabled(w, a) && (a.ListOverdue? || a.TakeHandle?)
    ensures Next(w, a).t == w.t && a.id in Next(w, a).tasks
    ensures var k := Next(w, a).tasks[a.id];
            && k.Worker? && k.phase == Idle
            && forall item :: item in k.todo ==> !item.Orphan? && item.row in w.t.pending && item.Claim() == item.row.challenger
  {
    forall item | item in Next(w, a).tasks[a.id].todo
      ensures !item.Orphan? && item.row in w.t.pending && item.Claim() == item.row.challenger
    {
      var todo := Next(w, a).tasks[a.id].todo;
      var n :| 0 <= n < |todo| && todo[n] == item;
    }
  }

  lemma ListedRowsOk(w: World, a: Action)
    requires Inv(w) && Enabled(w, a) && (a.ListOverdue? || a.TakeHandle?)
    ensures TaskOk(Next(w, a), a.id)
  {
    hide Next, Enabled, Inv, RowOk, InTable;
    ListedItems(w, a);
    forall item | item in Next(w, a).tasks[a.id].todo ensures ItemOk(Next(w, a), item) {
      ListedRowOk(w, a, item.row);
    }
  }

  lemma ListedOrphansOk(w: World, a: Action)
    requires Inv(w) && Enabled(w, a) && a.ListOrphans?
    ensures TaskOk(Next(w, a), a.id)
  {
    hide LedgerOk, RowsOk, TasksOk, LocksOk, ExitsOk, IngestsDistinct, IsQueued, Queued, BeingIngested;
    var todo := Next(w, a).tasks[a.id].todo;
    IngestsEnd(w, a);
    forall item | item in todo ensures ItemOk(Next(w, a), item) {
      var n :| 0 <= n < |todo| && todo[n] == item;
      assert ListQueuedOrphans(w.t)[n] == item.ref;
      OrphanHasNoPendingRow(w, item.ref);
    }
  }

  lemma LockedItemsOk(w: World, a: Action)
    requires Inv(w) && Enabled(w, a) && (a.Acquire? || a.Check?)
    ensures TaskOk(Next(w, a), a.id)
  {
    hide LedgerOk, RowsOk, LocksOk, ExitsOk, IngestsDistinct, QueuedAt, ItemOk, IsQueued;
    var k := w.tasks[a.id];
    assert TaskOk(w, a.id);
    if k.Worker? {
      ItemsStay(w, a, k.todo);
      QueuedInLog(w.t, k.Target());
    } else {
      StepGrows(w, a);
    }
  }

  lemma IngestCommitOk(w: World, a: Action)
    requires Inv(w) && Enabled(w, a) && a.Commit? && w.tasks[a.id].Ingest?
    ensures TaskOk(Next(w, a), a.id)
  {
    var k, w' := w.tasks[a.id], Next(w, a);
    assert TaskOk(w, a.id);
    assert CommitEntry(k.ref, QueuedForAdjudication, k.now) in w'.t.ledger;
  }

  /** The commit of an overdue row is in time by itself, unless reconcile has queued its challenger
      again since. */
  lemma OverdueInTime(w: World, a: Action)
    requires Inv(w) && Enabled(w, a) && a.Commit? && w.tasks[a.id].Worker?
    requires var k := w.tasks[a.id]; !k.todo[0].Orphan? && k.todo[0].row.Overdue(k.now) && k.Target() !in w.requeues
    ensures InTime(w.t.ledger, w.tasks[a.id].Target(), w.tasks[a.id].now)
  {
    hide LocksOk, ExitsOk, IngestsDistinct, RowsOk, LedgerOk;
    var k := w.tasks[a.id];
    assert TaskOk(w, a.id) && k.todo[0] in k.todo;
    assert RowOk(w, k.todo[0].row);
    var e := QueuedEntry(w.t.ledger, k.Target());
  }

  lemma CommitInTime(w: World, a: Action)
    requires Inv(w) && Enabled(w, a) && ClockOk(w, a) && a.Commit? && w.tasks[a.id].Worker?
    ensures InTime(w.t.ledger, w.tasks[a.id].Target(), w.tasks[a.id].now)
  {
    var k := w.tasks[a.id];
    if !k.todo[0].Orphan? && k.todo[0].row.Overdue(k.now) && k.Target() !in w.requeues {
      OverdueInTime(w, a);
    }
  }

  /** A worker's commit takes its claim out of the queue exactly when it is in time. */
  lemma CommitTakesOut(w: World, a: Action)
    requires Inv(w) && Enabled(w, a) && a.Commit? && w.tasks[a.id].Worker?
    ensures var k := w.tasks[a.id];
            && Queued(w.t.ledger, k.Target())
            && (!Queued(Next(w, a).t.ledger, k.Target()) <==> InTime(w.t.ledger, k.Target(), k.now))
  {
    hide LocksOk, ExitsOk, IngestsDistinct, RowsOk, LedgerOk, Queued, InTime;
    var k := w.tasks[a.id];
    assert TaskOk(w, a.id);
    WorkerCommitAppends(w, a);
    CommitOnLog(w.t.ledger, k.todo[0], k.now);
  }

  lemma WorkerCommitOk(w: World, a: Action)
    requires Inv(w) && Enabled(w, a) && ClockOk(w, a) && a.Commit? && w.tasks[a.id].Worker?
    ensures TaskOk(Next(w, a), a.id)
  {
    hide LocksOk, ExitsOk, IngestsDistinct, RowsOk, LedgerOk, Queued, InTime, ItemOk;
    assert TaskOk(w, a.id);
    ItemsStay(w, a, w.tasks[a.id].todo);
    CommitInTime(w, a);
    CommitTakesOut(w, a);
  }

  lemma WorkerFinishOk(w: World, a: Action)
    requires Inv(w) && Enabled(w, a) && a.Finish? && w.tasks[a.id].Worker?
    ensures TaskOk(Next(w, a), a.id)
  {
    hide LocksOk, ExitsOk, IngestsDistinct, RowsOk, LedgerOk, Queued, ItemOk;
    assert TaskOk(w, a.id);
    ItemsStay(w, a, w.tasks[a.id].todo[1..]);
  }

  predicate OwnsTask(a: Action) {
    !a.IngestOther? && !a.HostAssert? && !a.Reconcile?
  }

  lemma OwnTaskOk(w: World, a: Action)
    requires Inv(w) && Enabled(w, a) && ClockOk(w, a) && OwnsTask(a) && a.id in Next(w, a).tasks
    ensures TaskOk(Next(w, a), a.id)
  {
    if a.ListOverdue? || a.TakeHandle? {
      ListedRowsOk(w, a);
    } else if a.ListOrphans? {
      ListedOrphansOk(w, a);
    } else if a.Acquire? || a.Check? {
      LockedItemsOk(w, a);
    } else if a.Commit? {
      if w.tasks[a.id].Ingest? {
        IngestCommitOk(w, a);
      } else {
        WorkerCommitOk(w, a);
      }
    } else if a.Finish? {
      WorkerFinishOk(w, a);
    } else {
      StartedTaskOk(w, a);
    }
  }

  lemma StartedTaskOk(w: World, a: Action)
    requires Inv(w) && Enabled(w, a) && (a.StartIngest? || a.StartWorker?)
    ensures TaskOk(Next(w, a), a.id)
  {
    hide TasksOk, LocksOk, ExitsOk, IngestsDistinct, LedgerOk, QueuedAt, IsQueued;
    forall r | 0 <= r < |w.t.pending| ensures w.t.pending[r].challenger in w.t.claims {
      assert RowOk(w, w.t.pending[r]);
    }
  }

  // ---- The invariant is kept ----------------------------------------------------------------

  lemma LedgerStaysOk(w: World, a: Action)
    requires Inv(w) && Enabled(w, a)
    ensures LedgerOk(Next(w, a))
  {
    hide RowsOk, TasksOk, IngestsDistinct, LocksOk, ExitsOk, IsQueued, Live, AV.Assert, BeingIngested;
    StepGrows(w, a);
    if a.Commit? && w.tasks[a.id].Worker? {
      WorkerCommitAppends(w, a);
    } else if a.Commit? {
    } else if a.IngestOther? {
    } else if a.HostAssert? {
      AV.CallAppends(w.t, a.req, a.now, a.uuid);
    }
  }

  lemma NewRowOk(w: World, a: Action)
    requires Inv(w) && Enabled(w, a) && a.Finish? && w.tasks[a.id].Ingest?
    ensures RowsOk(Next(w, a))
  {
    hide LedgerOk, LocksOk, ExitsOk, QueuedAt, IsQueued, Queued;
    var k, w' := w.tasks[a.id], Next(w, a);
    assert TaskOk(w, a.id);
    StepGrows(w, a);
    QueuedAtStays(w, w', [], k.ref, k.now);
    forall r | 0 <= r < |w.t.pending| ensures RowOk(w', w.t.pending[r]) && MarkOk(w', w.t.pending[r]) {
      RowStays(w, w', [], w.t.pending[r]);
    }
  }

  lemma MarkedRowsOk(w: World, a: Action)
    requires Inv(w) && Enabled(w, a) && a.Finish? && w.tasks[a.id].Worker?
    ensures RowsOk(Next(w, a))
  {
    hide LedgerOk, IngestsDistinct, LocksOk, ExitsOk, QueuedAt, IsQueued, Queued;
    var k, w' := w.tasks[a.id], Next(w, a);
    assert TaskOk(w, a.id) && k.todo[0] in k.todo;
    assert ItemOk(w, k.todo[0]);
    StepGrows(w, a);
    forall r | 0 <= r < |w'.t.pending| ensures RowOk(w', w'.t.pending[r]) && MarkOk(w', w'.t.pending[r]) {
      RowStays(w, w', [], w.t.pending[r]);
    }
  }

  lemma MarkStays(w: World, w': World, es: seq<Entry>, row: Pending)
    requires Grows(w, w', es) && MarkOk(w, row) && row.challenger in w.t.claims
    ensures MarkOk(w', row)
  {
    if row.challenger !in w'.requeues {
      assert NoneQueues(es, row.challenger);
      OutStaysOut(w.t.ledger, es, row.challenger);
    }
  }

  lemma OldRowsOk(w: World, a: Action)
    requires Inv(w) && Enabled(w, a) && !a.Finish?
    ensures RowsOk(Next(w, a))
  {
    hide TasksOk, IngestsDistinct, LocksOk, ExitsOk, QueuedAt, MarkOk, IsQueued, Live, AV.Assert;
    var w' := Next(w, a);
    StepGrows(w, a);
    if a.Commit? {
      CommitGrows(w, a);
    } else if a.HostAssert? {
      AV.CallAppends(w.t, a.req, a.now, a.uuid);
    }
    forall r | 0 <= r < |w'.t.pending| ensures RowOk(w', w'.t.pending[r]) && MarkOk(w', w'.t.pending[r]) {
      assert RowOk(w, w.t.pending[r]);
      RowStays(w, w', NewEntries(w, a), w.t.pending[r]);
      MarkStays(w, w', NewEntries(w, a), w.t.pending[r]);
    }
  }

  lemma OtherTaskUntouched(w: World, a: Action, id: TaskId)
    requires Enabled(w, a) && id in Next(w, a).tasks && (OwnsTask(a) ==> a.id != id)
    ensures id in w.tasks && Next(w, a).tasks[id] == w.tasks[id]
  {
    hide AV.Assert, CommitClaim, ItemCommit, IsQueued, Live;
  }

  lemma TasksStayOk(w: World, a: Action)
    requires Inv(w) && Enabled(w, a) && ClockOk(w, a)
    ensures TasksOk(Next(w, a))
  {
    hide Next, Enabled, ClockOk, LedgerOk, RowsOk, LocksOk, ExitsOk, IsQueued, ItemOk;
    var w' := Next(w, a);
    forall id | id in w'.tasks ensures TaskOk(w', id) {
      if OwnsTask(a) && a.id == id {
        OwnTaskOk(w, a);
      } else {
        OtherTaskUntouched(w, a, id);
        if w.tasks[id].Ingest? {
          OtherIngest(w, a, id);
        } else {
          OtherWorker(w, a, id);
        }
      }
    }
  }

  ghost predicate SameIngest(w: World, a: Action, id: TaskId)
    requires Enabled(w, a) && id in Next(w, a).tasks && Next(w, a).tasks[id].Ingest?
  {
    var k' := Next(w, a).tasks[id];
    if a.StartIngest? && a.id == id then k' == a.task
    else
      && id in w.tasks && w.tasks[id].Ingest? && w.tasks[id].ref == k'.ref && w.tasks[id].handle == k'.handle
      && (a.Finish? ==> a.id != id)
  }

  lemma IngestsComeFrom(w: World, a: Action, id: TaskId)
    requires Enabled(w, a) && id in Next(w, a).tasks && Next(w, a).tasks[id].Ingest?
    ensures SameIngest(w, a, id)
  {
    hide AV.Assert, CommitClaim, ItemCommit, IsQueued, Live;
  }

  lemma StartedIsNew(w: World, a: Action, id: TaskId)
    requires Enabled(w, a) && a.StartIngest? && id in w.tasks && w.tasks[id].Ingest?
    ensures w.tasks[id].ref != a.task.ref && w.tasks[id].handle != a.task.handle
  {
    assert BeingIngested(w, w.tasks[id].ref) && HandleReserved(w, w.tasks[id].handle);
  }

  lemma IngestsStayDistinct(w: World, a: Action)
    requires Inv(w) && Enabled(w, a)
    ensures IngestsDistinct(Next(w, a))
  {
    hide LedgerOk, RowsOk, TasksOk, LocksOk, ExitsOk, Next;
    var w' := Next(w, a);
    forall x, y | x in w'.tasks && y in w'.tasks && x != y && w'.tasks[x].Ingest? && w'.tasks[y].Ingest?
      ensures w'.tasks[x].ref != w'.tasks[y].ref && w'.tasks[x].handle != w'.tasks[y].handle
    {
      IngestsComeFrom(w, a, x);
      IngestsComeFrom(w, a, y);
      if a.StartIngest? && y == a.id {
        StartedIsNew(w, a, x);
      }
      if a.StartIngest? && x == a.id {
        StartedIsNew(w, a, y);
      }
    }
    forall x, r | x in w'.tasks && w'.tasks[x].Ingest? && 0 <= r < |w'.t.pending|
      ensures w'.t.pending[r].handle != w'.tasks[x].handle
    {
      IngestsComeFrom(w, a, x);
      RowsComeFrom(w, a, r);
    }
  }

  /** The lock of a task inside its critical section is not released by another. */
  lemma LockStaysHeld(w: World, a: Action, id: TaskId)
    requires LocksOk(w) && Enabled(w, a) && id in w.tasks && w.tasks[id].phase != Idle
    requires id in Next(w, a).tasks && Next(w, a).tasks[id] == w.tasks[id] && (a.Finish? ==> a.id != id)
    ensures w.tasks[id].HasWork()
    ensures var g := w.owner(w.tasks[id].Target()); g in Next(w, a).held && Next(w, a).held[g] == id
  {
    hide AV.Assert, CommitClaim, ItemCommit, IsQueued, Live;
  }

  lemma OwnLockHeld(w: World, a: Action)
    requires LocksOk(w) && Enabled(w, a) && (a.Acquire? || a.Check? || a.Commit?)
    requires a.id in Next(w, a).tasks && Next(w, a).tasks[a.id].phase != Idle
    ensures var k, g := Next(w, a).tasks[a.id], Next(w, a).held;
            k.HasWork() && w.owner(k.Target()) in g && g[w.owner(k.Target())] == a.id
  {
    hide CommitClaim, ItemCommit, IsQueued;
  }

  lemma HoldersStay(w: World, a: Action, g: AgentId)
    requires LocksOk(w) && Enabled(w, a) && g in Next(w, a).held
    ensures Next(w, a).held[g] in Next(w, a).tasks
  {
    hide AV.Assert, CommitClaim, ItemCommit, IsQueued, Live;
  }

  lemma LocksStayOk(w: World, a: Action)
    requires Inv(w) && Enabled(w, a)
    ensures LocksOk(Next(w, a))
  {
    hide LedgerOk, RowsOk, TasksOk, IngestsDistinct, ExitsOk, CommitClaim, MarkStatus, InsertPending, ItemCommit, IsQueued,
         Live, AV.Assert;
    var w' := Next(w, a);
    forall id | id in w'.tasks && w'.tasks[id].phase != Idle
      ensures w'.tasks[id].HasWork()
      ensures w.owner(w'.tasks[id].Target()) in w'.held && w'.held[w.owner(w'.tasks[id].Target())] == id
    {
      if id in w.tasks && w'.tasks[id] == w.tasks[id] {
        LockStaysHeld(w, a, id);
      } else {
        OwnLockHeld(w, a);
      }
    }
    forall g | g in w'.held ensures w'.held[g] in w'.tasks {
      HoldersStay(w, a, g);
    }
  }

  /** The first entry of a claim, a Queued one, pays for one exit of it and changes nothing for others. */
  lemma FirstQueuedPays(ledger: seq<Entry>, e: Entry, c: ClaimRef, left: nat, requeued: nat)
    requires e.disposition == QueuedForAdjudication && forall x :: x in ledger ==> x.claim != e.claim
    requires left + (if Queued(ledger, c) then 1 else 0) <= QueuedCount(ledger, c) <= 1 + requeued
    ensures left + (if Queued(ledger + [e], c) then 1 else 0) <= QueuedCount(ledger + [e], c) <= 1 + requeued
  {
    hide Queued;
    CountAfterAppend(ledger, e, c);
    if c == e.claim {
      NoneStoredNoneQueued(ledger, c);
    } else {
      OutStaysOut(ledger, [e], c);
    }
  }

  lemma ExitsOfIngest(w: World, a: Action, c: ClaimRef)
    requires Inv(w) && Enabled(w, a) && a.Commit? && w.tasks[a.id].Ingest?
    ensures ExitsOkFor(Next(w, a), c)
  {
    hide RowsOk, TasksOk, IngestsDistinct, LocksOk, CommitClaim, IsQueued, Queued, QueuedCount;
    var k := w.tasks[a.id];
    assert ExitsOkFor(w, c);
    CommitGrows(w, a);
    FirstQueuedPays(w.t.ledger, CommitEntry(k.ref, QueuedForAdjudication, k.now), c, multiset(w.exits)[c], multiset(w.requeues)[c]);
  }

  lemma ExitsOfWorker(w: World, a: Action, c: ClaimRef)
    requires Inv(w) && Enabled(w, a) && ClockOk(w, a) && a.Commit? && w.tasks[a.id].Worker?
    ensures ExitsOkFor(Next(w, a), c)
  {
    hide RowsOk, TasksOk, IngestsDistinct, LocksOk, LedgerOk, ItemCommit, IsQueued, Queued, InTime;
    assert ExitsOkFor(w, c);
    WorkerCommitAppends(w, a);
    CommitInTime(w, a);
    CommitTakesOut(w, a);
    OutStaysOut(w.t.ledger, NewEntries(w, a), c);
  }

  lemma ExitsOfReconcile(w: World, a: Action, c: ClaimRef)
    requires Inv(w) && Enabled(w, a) && a.Reconcile?
    ensures ExitsOkFor(Next(w, a), c)
  {
    hide RowsOk, TasksOk, IngestsDistinct, LocksOk, LedgerOk, IsQueued, Queued, Live;
    assert ExitsOkFor(w, c);
    var e := ReconcileEntry(a.ref, a.d, a.now);
    CountAfterAppend(w.t.ledger, e, c);
    if c != a.ref || a.d != QueuedForAdjudication {
      OutStaysOut(w.t.ledger, [e], c);
    }
  }

  lemma ExitsOfOthers(w: World, a: Action, c: ClaimRef)
    requires Inv(w) && Enabled(w, a) && !a.Commit? && !a.Reconcile?
    ensures ExitsOkFor(Next(w, a), c)
  {
    hide RowsOk, TasksOk, IngestsDistinct, LocksOk, LedgerOk, IsQueued, Queued, AV.Assert;
    assert ExitsOkFor(w, c);
    OtherGrows(w, a);
    if a.HostAssert? {
      AV.CallAppends(w.t, a.req, a.now, a.uuid);
    }
    OutStaysOut(w.t.ledger, NewEntries(w, a), c);
  }

  lemma ExitsStayOk(w: World, a: Action)
    requires Inv(w) && Enabled(w, a) && ClockOk(w, a)
    ensures ExitsOk(Next(w, a))
  {
    hide Inv, ClockOk, Next, ExitsOkFor, IsQueued, Live;
    forall c ensures ExitsOkFor(Next(w, a), c) {
      if a.Reconcile? {
        ExitsOfReconcile(w, a, c);
      } else if !a.Commit? {
        ExitsOfOthers(w, a, c);
      } else if CommitsIngest(w, a) {
        ExitsOfIngest(w, a, c);
      } else {
        ExitsOfWorker(w, a, c);
      }
    }
  }

  predicate CommitsIngest(w: World, a: Action)
    requires Enabled(w, a)
  {
    a.Commit? && w.tasks[a.id].Ingest?
  }

  lemma StepKeepsInv(w: World, a: Action)
    requires Inv(w) && Enabled(w, a) && ClockOk(w, a)
    ensures Inv(Next(w, a))
  {
    hide LedgerOk, RowsOk, TasksOk, IngestsDistinct, LocksOk, ExitsOk;
    LedgerStaysOk(w, a);
    if a.Finish? {
      if w.tasks[a.id].Ingest? {
        NewRowOk(w, a);
      } else {
        MarkedRowsOk(w, a);
      }
    } else {
      OldRowsOk(w, a);
    }
    TasksStayOk(w, a);
    IngestsStayDistinct(w, a);
    LocksStayOk(w, a);
    ExitsStayOk(w, a);
  }
}
