/** The sequence numbers of the PostgreSQL store: each entry gets MAX + 1 of its agent's numbers, in a
    transaction that holds an advisory lock on a hash of the agent. Any number of transactions run
    at once; the hash is arbitrary, and different agents may share a lock. */
module StreamSeq {
  type AgentId = nat
  type TxnId = nat
  type LockKey = int

  datatype Row = Row(agent: AgentId, streamSeq: nat, tag: nat)

  datatype Open = Open(agent: AgentId, locked: bool, rows: seq<Row>)

  /** What one append did, and in which transaction; kept for the specification's sake. */
  datatype Logged = Logged(txn: TxnId, row: Row)

  /** `ended` holds the transactions that committed. */
  datatype Server = Server(committed: seq<Row>, open: map<TxnId, Open>, locks: map<LockKey, TxnId>,
                           log: seq<Logged>, ended: set<TxnId>, used: set<TxnId>)

  datatype Action =
    | Begin(id: TxnId, agent: AgentId)
    | Lock(id: TxnId)
    | Append(id: TxnId, tag: nat)
    | Commit(id: TxnId)
    | Rollback(id: TxnId)

  // ---- The numbers --------------------------------------------------------------------------

  function RowsOf(rows: seq<Row>, a: AgentId): seq<Row> {
    if rows == [] then []
    else
      var rest, r := RowsOf(rows[..|rows| - 1], a), rows[|rows| - 1];
      if r.agent == a then rest + [r] else rest
  }

  /** COALESCE(MAX(stream_seq), 0) over the agent's rows. */
  function MaxSeq(rows: seq<Row>, a: AgentId): nat {
    if rows == [] then 0
    else
      var rest, r := MaxSeq(rows[..|rows| - 1], a), rows[|rows| - 1];
      if r.agent == a && r.streamSeq > rest then r.streamSeq else rest
  }

  /** The agent's rows carry 1, 2, 3 and so on, in the order they stand. */
  ghost predicate Numbered(rows: seq<Row>, a: AgentId) {
    var own := RowsOf(rows, a);
    forall k :: 0 <= k < |own| ==> own[k].streamSeq == k + 1
  }

  lemma {:induction false} RowsOfConcat(p: seq<Row>, q: seq<Row>, a: AgentId)
    ensures RowsOf(p + q, a) == RowsOf(p, a) + RowsOf(q, a)
  {
    if q == [] {
      assert p + q == p;
    } else {
      var q', r := q[..|q| - 1], q[|q| - 1];
      assert (p + q)[..|p + q| - 1] == p + q';
      RowsOfConcat(p, q', a);
    }
  }

  lemma {:induction false} MaxOfNumbered(rows: seq<Row>, a: AgentId)
    requires Numbered(rows, a)
    ensures MaxSeq(rows, a) == |RowsOf(rows, a)|
  {
    if rows != [] {
      var p, r := rows[..|rows| - 1], rows[|rows| - 1];
      var own := RowsOf(rows, a);
      if r.agent == a {
        assert own[|own| - 1] == r;
        assert forall k :: 0 <= k < |RowsOf(p, a)| ==> RowsOf(p, a)[k] == own[k];
      }
      MaxOfNumbered(p, a);
    }
  }

  /** Numbering goes on where it stands. */
  lemma NextIsNumbered(rows: seq<Row>, a: AgentId, b: AgentId, tag: nat)
    requires Numbered(rows, a)
    ensures Numbered(rows + [Row(b, MaxSeq(rows, b) + 1, tag)], a)
  {
    var r := Row(b, MaxSeq(rows, b) + 1, tag);
    RowsOfConcat(rows, [r], a);
    assert RowsOf([r], a) == if b == a then [r] else [];
    if b == a {
      MaxOfNumbered(rows, a);
    }
  }

  // ---- The transition system ----------------------------------------------------------------

  predicate InTxn(s: Server, id: TxnId) {
    id in s.open && s.open[id].locked
  }

  /** What a client can do; a Lock is let through whether or not the key is free. */
  predicate Possible(s: Server, a: Action) {
    match a
    case Begin(id, _) => id !in s.used
    case Lock(id) => id in s.open && !s.open[id].locked
    case Append(id, _) => InTxn(s, id)
    case Commit(id) => InTxn(s, id)
    case Rollback(id) => id in s.open
  }

  /** What the server lets happen: an advisory lock is waited for. */
  predicate Enabled(s: Server, hash: AgentId -> LockKey, a: Action) {
    Possible(s, a) && (a.Lock? ==> hash(s.open[a.id].agent) !in s.locks)
  }

  /** What a statement of the transaction sees: the committed rows and its own. */
  function Visible(s: Server, id: TxnId): seq<Row>
    requires id in s.open
  {
    s.committed + s.open[id].rows
  }

  function NewRow(s: Server, id: TxnId, tag: nat): Row
    requires id in s.open
  {
    var agent := s.open[id].agent;
    Row(agent, MaxSeq(Visible(s, id), agent) + 1, tag)
  }

  function Release(s: Server, id: TxnId): map<LockKey, TxnId> {
    map k | k in s.locks && s.locks[k] != id :: s.locks[k]
  }

  function Next(s: Server, hash: AgentId -> LockKey, a: Action): Server
    requires Possible(s, a)
  {
    match a
    case Begin(id, agent) => s.(open := s.open[id := Open(agent, false, [])], used := s.used + {id})
    case Lock(id) =>
      s.(open := s.open[id := s.open[id].(locked := true)], locks := s.locks[hash(s.open[id].agent) := id])
    case Append(id, tag) =>
      var r := NewRow(s, id, tag);
      s.(open := s.open[id := s.open[id].(rows := s.open[id].rows + [r])], log := s.log + [Logged(id, r)])
    case Commit(id) =>
      s.(committed := s.committed + s.open[id].rows, open := s.open - {id}, locks := Release(s, id), ended := s.ended + {id})
    case Rollback(id) => s.(open := s.open - {id}, locks := Release(s, id))
  }

  const EMPTY := Server([], map[], map[], [], {}, {})

  ghost predicate IsRun(hash: AgentId -> LockKey, steps: seq<Action>)
    decreases |steps|, 0
  {
    steps != [] ==>
      var p := steps[..|steps| - 1];
      IsRun(hash, p) && Enabled(After(hash, p), hash, steps[|steps| - 1])
  }

  ghost function After(hash: AgentId -> LockKey, steps: seq<Action>): Server
    requires IsRun(hash, steps)
    decreases |steps|, 1
  {
    if steps == [] then EMPTY else Next(After(hash, steps[..|steps| - 1]), hash, steps[|steps| - 1])
  }

  // ---- Append order -------------------------------------------------------------------------

  /** The rows that the log says were appended for the agent by one of `txns`, in append order. */
  function Appended(log: seq<Logged>, a: AgentId, txns: set<TxnId>): seq<Row> {
    if log == [] then []
    else
      var rest, e := Appended(log[..|log| - 1], a, txns), log[|log| - 1];
      if e.row.agent == a && e.txn in txns then rest + [e.row] else rest
  }

  lemma AppendedNext(log: seq<Logged>, e: Logged, a: AgentId, txns: set<TxnId>)
    ensures Appended(log + [e], a, txns)
            == Appended(log, a, txns) + if e.row.agent == a && e.txn in txns then [e.row] else []
  {
    assert (log + [e])[..|log|] == log;
  }

  /** The transaction has nothing in the log for the agent. */
  ghost predicate Absent(log: seq<Logged>, a: AgentId, id: TxnId) {
    forall k :: 0 <= k < |log| && log[k].txn == id ==> log[k].row.agent != a
  }

  lemma {:induction false} AbsentAddsNothing(log: seq<Logged>, a: AgentId, txns: set<TxnId>, id: TxnId)
    requires Absent(log, a, id)
    ensures Appended(log, a, txns + {id}) == Appended(log, a, txns)
  {
    if log != [] {
      AbsentAddsNothing(log[..|log| - 1], a, txns, id);
    }
  }

  // ---- The invariant ------------------------------------------------------------------------

  /** The committed rows of every agent are numbered, and are those of the ended transactions in
      append order. */
  ghost predicate CommittedOk(s: Server) {
    forall a :: InAppendOrder(s.committed, s.log, a, s.ended)
  }

  /** So would they be if the open transaction committed now; its rows are its own agent's. */
  ghost predicate OpenOk(s: Server, id: TxnId)
    requires id in s.open
  {
    TxnOk(s.open[id], s.committed, s.log, s.ended + {id}, id)
  }

  ghost predicate TxnOk(t: Open, committed: seq<Row>, log: seq<Logged>, txns: set<TxnId>, id: TxnId) {
    && OwnRows(t.rows, t.agent)
    && (t.locked ==> InAppendOrder(committed + t.rows, log, t.agent, txns))
    && (!t.locked ==> t.rows == [])
    && OwnLog(log, t, id)
  }

  ghost predicate OwnRows(rows: seq<Row>, a: AgentId) {
    forall k :: 0 <= k < |rows| ==> rows[k].agent == a
  }

  ghost predicate OwnLog(log: seq<Logged>, t: Open, id: TxnId) {
    forall k :: 0 <= k < |log| && log[k].txn == id ==> t.locked && log[k].row.agent == t.agent
  }

  /** The agent's rows are numbered, and are what the transactions appended, in that order. */
  ghost predicate InAppendOrder(rows: seq<Row>, log: seq<Logged>, a: AgentId, txns: set<TxnId>) {
    Numbered(rows, a) && RowsOf(rows, a) == Appended(log, a, txns)
  }

  ghost predicate LocksOk(s: Server, hash: AgentId -> LockKey) {
    && (forall id :: InTxn(s, id) ==> hash(s.open[id].agent) in s.locks && s.locks[hash(s.open[id].agent)] == id)
    && (forall k :: k in s.locks ==> InTxn(s, s.locks[k]) && hash(s.open[s.locks[k]].agent) == k)
  }

  ghost predicate UsedOk(s: Server) {
    && (forall id :: id in s.open ==> id in s.used)
    && (forall k :: 0 <= k < |s.log| ==> s.log[k].txn in s.used)
    && (forall id :: id in s.ended ==> id in s.used && id !in s.open)
  }

  ghost predicate Inv(s: Server, hash: AgentId -> LockKey) {
    && CommittedOk(s) && LocksOk(s, hash) && UsedOk(s)
    && (forall id :: id in s.open ==> OpenOk(s, id))
  }

  /** Two transactions inside their locks have different agents. */
  lemma DifferentAgents(s: Server, hash: AgentId -> LockKey, i: TxnId, j: TxnId)
    requires Inv(s, hash) && InTxn(s, i) && InTxn(s, j) && i != j
    ensures s.open[i].agent != s.open[j].agent
  {
  }

  lemma {:induction false} NoRowsOf(rows: seq<Row>, a: AgentId)
    requires forall k :: 0 <= k < |rows| ==> rows[k].agent != a
    ensures RowsOf(rows, a) == []
  {
    if rows != [] {
      NoRowsOf(rows[..|rows| - 1], a);
    }
  }

  lemma CommittedStays(s: Server, hash: AgentId -> LockKey, act: Action, a: AgentId)
    requires Inv(s, hash) && Enabled(s, hash, act)
    ensures var s' := Next(s, hash, act); InAppendOrder(s'.committed, s'.log, a, s'.ended)
  {
    assert InAppendOrder(s.committed, s.log, a, s.ended);
    match act {
      case Append(id, tag) =>
        AppendedNext(s.log, Logged(id, NewRow(s, id, tag)), a, s.ended);
      case Commit(id) =>
        assert OpenOk(s, id);
        if a != s.open[id].agent {
          RowsOfConcat(s.committed, s.open[id].rows, a);
          NoRowsOf(s.open[id].rows, a);
          AbsentAddsNothing(s.log, a, s.ended, id);
        }
      case _ =>
    }
  }

  lemma CommitElsewhere(committed: seq<Row>, rows: seq<Row>, own: seq<Row>, a: AgentId)
    requires forall k :: 0 <= k < |rows| ==> rows[k].agent != a
    ensures RowsOf(committed + rows + own, a) == RowsOf(committed + own, a)
  {
    RowsOfConcat(committed, rows, a);
    NoRowsOf(rows, a);
    RowsOfConcat(committed, own, a);
    RowsOfConcat(committed + rows, own, a);
  }

  lemma OpenStaysOnCommit(s: Server, hash: AgentId -> LockKey, id: TxnId, j: TxnId)
    requires Inv(s, hash) && InTxn(s, id) && InTxn(s, j) && id != j
    ensures OpenOk(Next(s, hash, Commit(id)), j)
  {
    var a := s.open[j].agent;
    var s' := Next(s, hash, Commit(id));
    assert OpenOk(s, j) && OpenOk(s, id);
    DifferentAgents(s, hash, id, j);
    CommitElsewhere(s.committed, s.open[id].rows, s.open[j].rows, a);
    assert RowsOf(Visible(s', j), a) == RowsOf(Visible(s, j), a);
    AbsentAddsNothing(s.log, a, s.ended + {j}, id);
    assert s.ended + {j} + {id} == s.ended + {id} + {j};
    assert Numbered(Visible(s, j), a);
  }

  /** What another transaction does leaves a locked transaction's view alone. */
  lemma OpenStays(s: Server, hash: AgentId -> LockKey, act: Action, j: TxnId)
    requires Inv(s, hash) && Enabled(s, hash, act) && j in s.open && act.id != j
    ensures OpenOk(Next(s, hash, act), j)
  {
    assert OpenOk(s, j);
    match act {
      case Append(id, tag) =>
        AppendedNext(s.log, Logged(id, NewRow(s, id, tag)), s.open[j].agent, s.ended + {j});
      case Commit(id) =>
        if s.open[j].locked {
          OpenStaysOnCommit(s, hash, id, j);
        }
      case _ =>
    }
  }

  lemma OwnStaysOnLock(s: Server, hash: AgentId -> LockKey, id: TxnId)
    requires Inv(s, hash) && Enabled(s, hash, Lock(id))
    ensures OpenOk(Next(s, hash, Lock(id)), id)
  {
    var a := s.open[id].agent;
    assert OpenOk(s, id) && InAppendOrder(s.committed, s.log, a, s.ended);
    assert s.committed + [] == s.committed;
    AbsentAddsNothing(s.log, a, s.ended, id);
  }

  lemma OneMoreRow(rows: seq<Row>, rows': seq<Row>, log: seq<Logged>, a: AgentId, id: TxnId, txns: set<TxnId>, r: Row)
    requires InAppendOrder(rows, log, a, txns) && id in txns
    requires r.agent == a && r.streamSeq == MaxSeq(rows, a) + 1 && rows' == rows + [r]
    ensures InAppendOrder(rows', log + [Logged(id, r)], a, txns)
  {
    NextIsNumbered(rows, a, a, r.tag);
    assert rows'[..|rows|] == rows;
    AppendedNext(log, Logged(id, r), a, txns);
  }

  lemma OwnGrows(rows: seq<Row>, log: seq<Logged>, t: Open, id: TxnId, r: Row)
    requires OwnRows(rows, t.agent) && OwnLog(log, t, id) && t.locked && r.agent == t.agent
    ensures OwnRows(rows + [r], t.agent) && OwnLog(log + [Logged(id, r)], t.(rows := rows + [r]), id)
  {
  }

  lemma TxnAppends(t: Open, committed: seq<Row>, log: seq<Logged>, txns: set<TxnId>, id: TxnId, r: Row)
    requires TxnOk(t, committed, log, txns, id) && t.locked && id in txns
    requires r.agent == t.agent && r.streamSeq == MaxSeq(committed + t.rows, t.agent) + 1
    ensures TxnOk(t.(rows := t.rows + [r]), committed, log + [Logged(id, r)], txns, id)
  {
    var t' := t.(rows := t.rows + [r]);
    assert committed + t'.rows == committed + t.rows + [r];
    OneMoreRow(committed + t.rows, committed + t'.rows, log, t.agent, id, txns, r);
    OwnGrows(t.rows, log, t, id, r);
  }

  lemma OwnStaysOnAppend(s: Server, hash: AgentId -> LockKey, id: TxnId, tag: nat)
    requires Inv(s, hash) && InTxn(s, id)
    ensures OpenOk(Next(s, hash, Append(id, tag)), id)
  {
    assert OpenOk(s, id);
    TxnAppends(s.open[id], s.committed, s.log, s.ended + {id}, id, NewRow(s, id, tag));
  }

  lemma OwnStays(s: Server, hash: AgentId -> LockKey, act: Action)
    requires Inv(s, hash) && Enabled(s, hash, act) && act.id in Next(s, hash, act).open
    ensures OpenOk(Next(s, hash, act), act.id)
  {
    match act {
      case Begin(id, agent) =>
      case Lock(id) => OwnStaysOnLock(s, hash, id);
      case Append(id, tag) => OwnStaysOnAppend(s, hash, id, tag);
      case Commit(_) =>
      case Rollback(_) =>
    }
  }

  lemma LocksStay(s: Server, hash: AgentId -> LockKey, act: Action)
    requires Inv(s, hash) && Enabled(s, hash, act)
    ensures LocksOk(Next(s, hash, act), hash)
  {
    var s' := Next(s, hash, act);
    forall id | InTxn(s', id) ensures hash(s'.open[id].agent) in s'.locks && s'.locks[hash(s'.open[id].agent)] == id {
      assert InTxn(s, id) || act == Lock(id);
    }
    forall k | k in s'.locks ensures InTxn(s', s'.locks[k]) && hash(s'.open[s'.locks[k]].agent) == k {
      assert k in s.locks || act.Lock?;
    }
  }

  lemma UsedStays(s: Server, hash: AgentId -> LockKey, act: Action)
    requires UsedOk(s) && Enabled(s, hash, act)
    ensures UsedOk(Next(s, hash, act))
  {
  }

  lemma StepKeepsInv(s: Server, hash: AgentId -> LockKey, act: Action)
    requires Inv(s, hash) && Enabled(s, hash, act)
    ensures Inv(Next(s, hash, act), hash)
  {
    var s' := Next(s, hash, act);
    forall a ensures InAppendOrder(s'.committed, s'.log, a, s'.ended) {
      CommittedStays(s, hash, act, a);
    }
    forall id | id in s'.open ensures OpenOk(s', id) {
      if id == act.id {
        OwnStays(s, hash, act);
      } else {
        OpenStays(s, hash, act, id);
      }
    }
    LocksStay(s, hash, act);
    UsedStays(s, hash, act);
  }

  lemma {:induction false} RunKeepsInv(hash: AgentId -> LockKey, steps: seq<Action>)
    requires IsRun(hash, steps)
    ensures Inv(After(hash, steps), hash)
  {
    if steps != [] {
      RunKeepsInv(hash, steps[..|steps| - 1]);
      StepKeepsInv(After(hash, steps[..|steps| - 1]), hash, steps[|steps| - 1]);
    }
  }

  /** However transactions interleave, commit and roll back, and however agents hash to locks, the
      committed entries of each agent carry exactly 1 to n, in the order they were appended. */
  lemma NumbersAreGapless(hash: AgentId -> LockKey, steps: seq<Action>, a: AgentId)
    requires IsRun(hash, steps)
    ensures var s := After(hash, steps);
            var own := RowsOf(s.committed, a);
            && own == Appended(s.log, a, s.ended)
            && forall k :: 0 <= k < |own| ==> own[k].streamSeq == k + 1
  {
    RunKeepsInv(hash, steps);
    var s := After(hash, steps);
    assert InAppendOrder(s.committed, s.log, a, s.ended);
  }

  // ---- Without the lock ---------------------------------------------------------------------

  /** A run in which no transaction waits for its lock. */
  ghost predicate IsUnlockedRun(hash: AgentId -> LockKey, steps: seq<Action>)
    decreases |steps|, 0
  {
    steps != [] ==>
      var p := steps[..|steps| - 1];
      IsUnlockedRun(hash, p) && Possible(AfterUnlocked(hash, p), steps[|steps| - 1])
  }

  ghost function AfterUnlocked(hash: AgentId -> LockKey, steps: seq<Action>): Server
    requires IsUnlockedRun(hash, steps)
    decreases |steps|, 1
  {
    if steps == [] then EMPTY else Next(AfterUnlocked(hash, steps[..|steps| - 1]), hash, steps[|steps| - 1])
  }

  lemma OneUnlockedStep(hash: AgentId -> LockKey, p: seq<Action>, a: Action)
    requires IsUnlockedRun(hash, p) && Possible(AfterUnlocked(hash, p), a)
    ensures IsUnlockedRun(hash, p + [a]) && AfterUnlocked(hash, p + [a]) == Next(AfterUnlocked(hash, p), hash, a)
  {
    assert (p + [a])[..|p|] == p;
  }

  /** Two transactions of agent `a` that both begin before either commits. */
  function Overlapping(a: AgentId, t0: nat, t1: nat): seq<Action> {
    [Begin(0, a), Begin(1, a), Lock(0), Lock(1), Append(0, t0), Append(1, t1), Commit(0), Commit(1)]
  }

  lemma TwoOpen(hash: AgentId -> LockKey, a: AgentId)
    ensures var p := [Begin(0, a), Begin(1, a), Lock(0), Lock(1)];
            && IsUnlockedRun(hash, p)
            && var s := AfterUnlocked(hash, p);
               s.committed == [] && 0 in s.open && 1 in s.open && s.open[0] == Open(a, true, []) && s.open[1] == Open(a, true, [])
  {
    var p1, p2, p3 := [Begin(0, a)], [Begin(0, a), Begin(1, a)], [Begin(0, a), Begin(1, a), Lock(0)];
    OneUnlockedStep(hash, [], Begin(0, a));
    assert [] + [Begin(0, a)] == p1;
    OneUnlockedStep(hash, p1, Begin(1, a));
    assert p1 + [Begin(1, a)] == p2;
    OneUnlockedStep(hash, p2, Lock(0));
    assert p2 + [Lock(0)] == p3;
    OneUnlockedStep(hash, p3, Lock(1));
    assert p3 + [Lock(1)] == [Begin(0, a), Begin(1, a), Lock(0), Lock(1)];
  }

  lemma BothAppend(s: Server, hash: AgentId -> LockKey, a: AgentId, t0: nat, t1: nat)
    requires s.committed == [] && 0 in s.open && 1 in s.open && s.open[0] == Open(a, true, []) && s.open[1] == Open(a, true, [])
    ensures Possible(s, Append(0, t0))
    ensures var s' := Next(s, hash, Append(0, t0));
            && Possible(s', Append(1, t1))
            && var s'' := Next(s', hash, Append(1, t1));
               && s''.committed == [] && 0 in s''.open && 1 in s''.open
               && s''.open[0] == Open(a, true, [Row(a, 1, t0)]) && s''.open[1] == Open(a, true, [Row(a, 1, t1)])
  {
    assert s.committed + s.open[0].rows == [] && s.committed + s.open[1].rows == [];
  }

  lemma BothCommit(s: Server, hash: AgentId -> LockKey, a: AgentId, t0: nat, t1: nat)
    requires s.committed == [] && 0 in s.open && 1 in s.open
    requires s.open[0] == Open(a, true, [Row(a, 1, t0)]) && s.open[1] == Open(a, true, [Row(a, 1, t1)])
    ensures Possible(s, Commit(0))
    ensures var s' := Next(s, hash, Commit(0));
            Possible(s', Commit(1)) && Next(s', hash, Commit(1)).committed == [Row(a, 1, t0), Row(a, 1, t1)]
  {
  }

  lemma RepeatedIsNotNumbered(a: AgentId, t0: nat, t1: nat)
    ensures !Numbered([Row(a, 1, t0), Row(a, 1, t1)], a)
  {
    var r0, r1 := Row(a, 1, t0), Row(a, 1, t1);
    assert [r0, r1][..1] == [r0] && [r0][..0] == [];
    assert RowsOf([r0], a) == [r0];
    assert RowsOf([r0, r1], a) == [r0, r1];
    assert RowsOf([r0, r1], a)[1].streamSeq == 1;
  }

  /** The lock is needed: when nobody waits for it, two overlapping transactions of one agent both
      commit an entry numbered 1. */
  lemma WithoutLockNumbersRepeat(hash: AgentId -> LockKey, a: AgentId, t0: nat, t1: nat)
    ensures IsUnlockedRun(hash, Overlapping(a, t0, t1))
    ensures var s := AfterUnlocked(hash, Overlapping(a, t0, t1));
            s.committed == [Row(a, 1, t0), Row(a, 1, t1)] && !Numbered(s.committed, a)
  {
    var p4 := [Begin(0, a), Begin(1, a), Lock(0), Lock(1)];
    var p5, p6 := p4 + [Append(0, t0)], p4 + [Append(0, t0)] + [Append(1, t1)];
    TwoOpen(hash, a);
    BothAppend(AfterUnlocked(hash, p4), hash, a, t0, t1);
    OneUnlockedStep(hash, p4, Append(0, t0));
    OneUnlockedStep(hash, p5, Append(1, t1));
    BothCommit(AfterUnlocked(hash, p6), hash, a, t0, t1);
    OneUnlockedStep(hash, p6, Commit(0));
    OneUnlockedStep(hash, p6 + [Commit(0)], Commit(1));
    assert p6 + [Commit(0)] + [Commit(1)] == Overlapping(a, t0, t1);
    RepeatedIsNotNumbered(a, t0, t1);
  }

  // ---- The transaction handle ---------------------------------------------------------------

  /** The database server that all pooled connections talk to. */
  class Database {
    const hash: AgentId -> LockKey
    var state: Server

    constructor (hash: AgentId -> LockKey)
      ensures this.hash == hash && state == EMPTY
    {
      this.hash, state := hash, EMPTY;
    }
  }

  /** `PostgresTxn`: owns its connection until it is committed, rolled back or dropped. */
  class PostgresTxn {
    const agent: AgentId
    const id: TxnId
    const server: Database
    var connected: bool

    ghost predicate Holds()
      reads this, server
    {
      connected && InTxn(server.state, id) && server.state.open[id].agent == agent
    }

    /** BEGIN, then the advisory lock, which is waited for. */
    constructor Begin(db: Database, txn: TxnId, agentId: AgentId)
      requires txn !in db.state.used && db.hash(agentId) !in db.state.locks
      modifies db
      ensures server == db && id == txn && agent == agentId && Holds()
      ensures db.state == Next(Next(old(db.state), db.hash, Action.Begin(txn, agentId)), db.hash, Lock(txn))
    {
      agent, id, server, connected := agentId, txn, db, true;
      new;
      server.state := Next(server.state, server.hash, Action.Begin(id, agent));
      server.state := Next(server.state, server.hash, Lock(id));
    }

    /** SELECT COALESCE(MAX(stream_seq), 0) + 1 over the rows of the agent that the transaction sees. */
    method SelectNextSeq() returns (next: nat)
      requires Holds()
      ensures next == MaxSeq(Visible(server.state, id), agent) + 1
    {
      var rows := Visible(server.state, id);
      var max := 0;
      for n := 0 to |rows|
        invariant max == MaxSeq(rows[..n], agent)
      {
        assert rows[..n + 1][..n] == rows[..n];
        if rows[n].agent == agent && rows[n].streamSeq > max {
          max := rows[n].streamSeq;
        }
      }
      assert rows[..|rows|] == rows;
      next := max + 1;
    }

    /** `append_ledger_entry`, for an entry of the transaction's own agent. */
    method AppendLedgerEntry(tag: nat)
      requires Holds()
      modifies server
      ensures Holds() && server.state == Next(old(server.state), server.hash, Append(id, tag))
    {
      var streamSeq := SelectNextSeq();
      var row := Row(agent, streamSeq, tag);
      var t := server.state.open[id];
      server.state := server.state.(open := server.state.open[id := t.(rows := t.rows + [row])],
                                    log := server.state.log + [Logged(id, row)]);
    }

    /** `commit_and_drop`: when COMMIT fails the server has rolled the transaction back. */
    method CommitAndDrop() returns (ok: bool)
      requires Holds()
      modifies this`connected, server
      ensures !connected
      ensures server.state == Next(old(server.state), server.hash, if ok then Commit(id) else Rollback(id))
    {
      connected := false;
      ok := *;
      server.state := Next(server.state, server.hash, if ok then Commit(id) else Rollback(id));
    }

    /** `rollback_and_drop`, and dropping the handle. */
    method RollbackAndDrop()
      requires Holds()
      modifies this`connected, server
      ensures !connected && server.state == Next(old(server.state), server.hash, Rollback(id))
    {
      connected := false;
      server.state := Next(server.state, server.hash, Rollback(id));
    }
  }
}
