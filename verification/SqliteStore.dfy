/** The SQLite adapter's connection hand-off. One connection sits in the store's slot; a transaction
    takes it out and puts it back when it ends. */
module SqliteStore {
  import opened Ledger
  import opened Store

  /** A write statement: new tables, or `None` when a constraint of the schema refuses it. */
  type Statement = Tables -> Option<Tables>

  /** The slot's three conditions: the connection is in it, a transaction holds it, it is gone. */
  datatype Slot = Idle | Taken | Lost

  // ---- The hand-off as a state machine ------------------------------------------------------

  datatype Machine = Machine(slot: Slot, committed: Tables, working: Tables)

  /** What can happen at the store, with its success or failure; a statement that succeeded was let
      through by the schema. `DropTxn` is a transaction given up without commit or rollback. */
  datatype Event =
    | BeginEvent(ok: bool)
    | AppendEvent(statement: Statement, ok: bool)
    | CommitEvent(ok: bool)
    | RollbackEvent(ok: bool)
    | DropTxn

  function RunStatement(t: Tables, statement: Statement): Tables {
    var next := statement(t);
    if next.Some? then next.value else t
  }

  function Step(m: Machine, e: Event): Machine {
    match (m.slot, e)
    case (Idle, BeginEvent(ok)) => m.(slot := if ok then Taken else Lost)
    case (Taken, AppendEvent(statement, ok)) => if ok then m.(working := RunStatement(m.working, statement)) else m
    case (Taken, CommitEvent(ok)) =>
      if ok then Machine(Idle, m.working, m.working) else Machine(Lost, m.committed, m.committed)
    case (Taken, RollbackEvent(ok)) => Machine(if ok then Idle else Lost, m.committed, m.committed)
    case (Taken, DropTxn) => Machine(Lost, m.committed, m.committed)
    case _ => m
  }

  function Run(m: Machine, trace: seq<Event>): Machine {
    if trace == [] then m else Step(Run(m, trace[..|trace| - 1]), trace[|trace| - 1])
  }

  /** What a query answers. */
  function Answer(m: Machine): Option<Tables> {
    if m.slot == Idle then Some(m.committed) else None
  }

  function Replay(t: Tables, batch: seq<Statement>): Tables {
    if batch == [] then t else RunStatement(Replay(t, batch[..|batch| - 1]), batch[|batch| - 1])
  }

  function ReplayAll(t: Tables, batches: seq<seq<Statement>>): Tables {
    if batches == [] then t else Replay(ReplayAll(t, batches[..|batches| - 1]), batches[|batches| - 1])
  }

  /** A trace read as transactions, without any tables: the batches of the committed ones, in order,
      and the batch of the open one. */
  datatype History = History(slot: Slot, done: seq<seq<Statement>>, open: seq<Statement>)

  function Note(h: History, e: Event): History {
    match (h.slot, e)
    case (Idle, BeginEvent(ok)) => History(if ok then Taken else Lost, h.done, [])
    case (Taken, AppendEvent(statement, ok)) => if ok then h.(open := h.open + [statement]) else h
    case (Taken, CommitEvent(ok)) => if ok then History(Idle, h.done + [h.open], []) else History(Lost, h.done, [])
    case (Taken, RollbackEvent(ok)) => History(if ok then Idle else Lost, h.done, [])
    case (Taken, DropTxn) => History(Lost, h.done, [])
    case _ => h
  }

  function Transactions(trace: seq<Event>): History {
    if trace == [] then History(Idle, [], []) else Note(Transactions(trace[..|trace| - 1]), trace[|trace| - 1])
  }

  /** Over every trace, with any failures: the committed tables are the committed transactions'
      statements replayed whole and in order, the open transaction's work is visible to it alone, and
      a query is answered, with committed rows only, exactly when no transaction is open and the
      connection has not been lost. */
  lemma {:induction false} CommittedIsWholeTransactions(t0: Tables, trace: seq<Event>)
    ensures var m, h := Run(Machine(Idle, t0, t0), trace), Transactions(trace);
            && m.slot == h.slot
            && m.committed == ReplayAll(t0, h.done)
            && m.working == Replay(m.committed, h.open)
            && (h.slot != Taken ==> h.open == [])
            && Answer(m) == if h.slot == Idle then Some(ReplayAll(t0, h.done)) else None
  {
    if trace != [] {
      var p, e := trace[..|trace| - 1], trace[|trace| - 1];
      CommittedIsWholeTransactions(t0, p);
      var h := Transactions(p);
      if h.slot == Taken && e.AppendEvent? {
        assert (h.open + [e.statement])[..|h.open|] == h.open;
      }
      if h.slot == Taken && e.CommitEvent? {
        assert (h.done + [h.open])[..|h.done|] == h.done;
      }
    }
  }

  /** The connection is lost by a failed BEGIN, COMMIT or ROLLBACK or by a transaction that is dropped,
      by nothing else; and nothing but a COMMIT that succeeds changes what is committed. */
  lemma LostExactly(m: Machine, e: Event)
    ensures Step(m, e).slot == Lost <==>
              || m.slot == Lost
              || (m.slot == Idle && e == BeginEvent(false))
              || (m.slot == Taken && (e == CommitEvent(false) || e == RollbackEvent(false) || e == DropTxn))
    ensures Step(m, e).committed == if m.slot == Taken && e == CommitEvent(true) then m.working else m.committed
  {
  }

  /** A connection that is lost stays lost: no query is answered any more, and nothing is committed. */
  lemma {:induction false} LostForGood(m: Machine, trace: seq<Event>)
    requires m.slot == Lost
    ensures Run(m, trace) == m && Answer(Run(m, trace)).None?
  {
    if trace != [] {
      LostForGood(m, trace[..|trace| - 1]);
    }
  }

  // ---- The classes --------------------------------------------------------------------------

  /** A database connection. Any operation on the database may fail; a failing one changes nothing but
      the count of failures. */
  class Connection {
    var committed: Tables
    var working: Tables
    var inTransaction: bool
    ghost var failures: nat

    ghost predicate Valid()
      reads this
    {
      !inTransaction ==> working == committed
    }

    constructor (t: Tables)
      ensures Valid() && !inTransaction && committed == t && failures == 0
    {
      committed, working, inTransaction, failures := t, t, false, 0;
    }

    method Begin() returns (ok: bool)
      requires Valid() && !inTransaction
      modifies this
      ensures Valid() && committed == old(committed) == working
      ensures inTransaction == ok && failures == old(failures) + if ok then 0 else 1
    {
      ok := *;
      inTransaction := ok;
      failures := failures + if ok then 0 else 1;
    }

    method Execute(statement: Statement) returns (ok: bool)
      requires Valid()
      modifies this
      ensures Valid() && inTransaction == old(inTransaction)
      ensures ok ==> statement(old(working)) == Some(working)
      ensures !ok ==> working == old(working)
      ensures committed == if inTransaction then old(committed) else working
      ensures failures == old(failures) + if ok then 0 else 1
    {
      ok := *;
      if ok {
        var next := statement(working);
        if next.Some? {
          working := next.value;
          if !inTransaction {
            committed := working;
          }
        } else {
          ok := false;
        }
      }
      failures := failures + if ok then 0 else 1;
    }

    method Commit() returns (ok: bool)
      requires Valid() && inTransaction
      modifies this
      ensures Valid() && working == old(working) && inTransaction == !ok
      ensures committed == if ok then old(working) else old(committed)
      ensures failures == old(failures) + if ok then 0 else 1
    {
      ok := *;
      if ok {
        committed, inTransaction := working, false;
      }
      failures := failures + if ok then 0 else 1;
    }

    method Rollback() returns (ok: bool)
      requires Valid() && inTransaction
      modifies this
      ensures Valid() && committed == old(committed) && inTransaction == !ok
      ensures working == if ok then old(committed) else old(working)
      ensures failures == old(failures) + if ok then 0 else 1
    {
      ok := *;
      if ok {
        working, inTransaction := committed, false;
      }
      failures := failures + if ok then 0 else 1;
    }

    /** Closing a connection rolls an open transaction back. */
    method Close()
      modifies this
      ensures Valid() && committed == old(committed) == working && !inTransaction && failures == old(failures)
    {
      working, inTransaction := committed, false;
    }
  }

  /** Owns the connection while a transaction is open. */
  class SqliteTxn {
    var conn: Connection?

    constructor (c: Connection)
      ensures conn == c
    {
      conn := c;
    }

    /** `commit_and_return`: on failure the connection is dropped, not returned. */
    method CommitAndReturn() returns (c: Connection?)
      requires conn != null && conn.Valid() && conn.inTransaction
      modifies this, conn
      ensures conn == null && old(conn).Valid() && !old(conn).inTransaction
      ensures c == null || c == old(conn)
      ensures old(conn).failures == old(conn.failures) + if c != null then 0 else 1
      ensures old(conn).committed == if c != null then old(conn.working) else old(conn.committed)
    {
      c := conn;
      conn := null;
      var ok := c.Commit();
      if !ok {
        c.Close();
        c := null;
      }
    }

    /** `rollback_and_return`. */
    method RollbackAndReturn() returns (c: Connection?)
      requires conn != null && conn.Valid() && conn.inTransaction
      modifies this, conn
      ensures conn == null && old(conn).Valid() && !old(conn).inTransaction
      ensures c == null || c == old(conn)
      ensures old(conn).failures == old(conn.failures) + if c != null then 0 else 1
      ensures old(conn).committed == old(conn.committed)
    {
      c := conn;
      conn := null;
      var ok := c.Rollback();
      if !ok {
        c.Close();
        c := null;
      }
    }
  }

  class SqlitePersistenceStore {
    var slot: Connection?
    ghost var state: Slot
    ghost const home: Connection

    ghost predicate Valid()
      reads this, home
    {
      && home.Valid()
      && (slot == if state == Idle then home else null)
      && home.inTransaction == (state == Taken)
    }

    /** `txn` is this store's open transaction. */
    ghost predicate Holds(txn: SqliteTxn)
      reads this, home, txn
    {
      Valid() && state == Taken && txn.conn == home
    }

    ghost function Snapshot(): Machine
      reads this, home
    {
      Machine(state, home.committed, home.working)
    }

    ghost function Committed(): Tables
      reads this, home
    {
      home.committed
    }

    ghost function Working(): Tables
      reads this, home
    {
      home.working
    }

    /** How many database operations have failed so far. */
    ghost function Failures(): nat
      reads this, home
    {
      home.failures
    }

    constructor (c: Connection)
      requires c.Valid() && !c.inTransaction
      ensures Valid() && state == Idle && home == c && Committed() == c.committed
    {
      slot, state, home := c, Idle, c;
    }

    /** `begin_atomic`: `null` stands for the two errors, an empty slot and a failed BEGIN. */
    method BeginAtomic() returns (txn: SqliteTxn?)
      requires Valid()
      modifies this, home
      ensures Valid() && Snapshot() == Step(old(Snapshot()), BeginEvent(txn != null))
      ensures txn != null ==> old(state) == Idle && Holds(txn) && fresh(txn)
      ensures txn == null ==> state == if old(state) == Idle then Lost else old(state)
      ensures Committed() == old(Committed())
      ensures Failures() == old(Failures()) + if txn != null || old(state) != Idle then 0 else 1
    {
      txn := null;
      if slot != null {
        var c := slot;
        slot := null;
        var ok := c.Begin();
        if ok {
          state := Taken;
          txn := new SqliteTxn(c);
        } else {
          state := Lost;
        }
      }
    }

    /** An `append_*` method: one statement on the transaction's connection. */
    method Append(txn: SqliteTxn, statement: Statement) returns (ok: bool)
      requires Holds(txn)
      modifies home
      ensures Holds(txn) && Snapshot() == Step(old(Snapshot()), AppendEvent(statement, ok))
      ensures ok ==> statement(old(Working())).Some?
      ensures Failures() == old(Failures()) + if ok then 0 else 1
    {
      ok := txn.conn.Execute(statement);
    }

    method Commit(txn: SqliteTxn) returns (ok: bool)
      requires Holds(txn)
      modifies this, home, txn
      ensures Valid() && Snapshot() == Step(old(Snapshot()), CommitEvent(ok))
      ensures state == (if ok then Idle else Lost) && Committed() == if ok then old(Working()) else old(Committed())
      ensures Failures() == old(Failures()) + if ok then 0 else 1
    {
      var c := txn.CommitAndReturn();
      ok := c != null;
      slot := c;
      state := if ok then Idle else Lost;
    }

    method Rollback(txn: SqliteTxn) returns (ok: bool)
      requires Holds(txn)
      modifies this, home, txn
      ensures Valid() && Snapshot() == Step(old(Snapshot()), RollbackEvent(ok))
      ensures state == (if ok then Idle else Lost) && Committed() == old(Committed())
      ensures Failures() == old(Failures()) + if ok then 0 else 1
    {
      var c := txn.RollbackAndReturn();
      ok := c != null;
      slot := c;
      state := if ok then Idle else Lost;
    }

    /** Every `load_*` and `list_*` method: a query on the slot's connection, or `TxnAlreadyOpen`.
        What it reads is committed. */
    method Query() returns (r: Option<Tables>)
      requires Valid()
      ensures r == Answer(Snapshot()) == if state == Idle then Some(Committed()) else None
    {
      r := if slot == null then None else Some(slot.working);
    }

    /** A write of the pending store, outside any transaction. */
    method ExecuteNow(statement: Statement) returns (ok: bool)
      requires Valid()
      modifies home
      ensures Valid() && state == old(state)
      ensures ok ==> state == Idle && statement(old(Committed())) == Some(Committed())
      ensures !ok ==> Committed() == old(Committed())
      ensures Failures() == old(Failures()) + if ok || state != Idle then 0 else 1
    {
      ok := false;
      if slot != null {
        ok := slot.Execute(statement);
      }
    }
  }
}
