/** The locks around every write: the store lock, where the adapter asks for it, then one mutex per
    agent, made on first use. Tasks run interleaved; a write path visits one agent, a sweep one after
    the other. Looking a mutex up and making a missing one are separate steps. */
module WriteLocks {
  import opened Ledger

  type AgentId = nat
  type TaskId = nat
  type MutexId = nat

  datatype Stage =
    | Outside
    | Entered
    | LookedUp(found: Option<MutexId>)
    | Waiting(mutex: MutexId)
    | Writing(mutex: MutexId)

  /** The agents still to be written for, the current one first. */
  datatype Task = Task(todo: seq<AgentId>, stage: Stage)

  datatype State = State(tasks: seq<Task>, store: Option<TaskId>, locks: map<AgentId, MutexId>,
                         held: map<MutexId, TaskId>, made: nat)

  datatype Action = Enter(id: TaskId) | Lookup(id: TaskId) | Resolve(id: TaskId) | Lock(id: TaskId) | Finish(id: TaskId)

  // ---- The lock map -------------------------------------------------------------------------

  /** `entry(agent).or_insert_with(new mutex)`; mutexes are numbered as they are made. */
  function OrInsert(locks: map<AgentId, MutexId>, made: nat, agent: AgentId): (map<AgentId, MutexId>, nat, MutexId) {
    if agent in locks then (locks, made, locks[agent]) else (locks[agent := made], made + 1, made)
  }

  class AgentWriteLockMap {
    var locks: map<AgentId, MutexId>
    var made: nat

    ghost predicate Valid()
      reads this
    {
      LocksMade(locks, made)
    }

    constructor ()
      ensures Valid() && locks == map[]
    {
      locks, made := map[], 0;
    }

    /** The part of `acquire` that runs under the map's read lock. */
    method Get(agent: AgentId) returns (found: Option<MutexId>)
      ensures found == if agent in locks then Some(locks[agent]) else None
    {
      found := if agent in locks then Some(locks[agent]) else None;
    }

    /** The part that runs under its write lock, with the re-check: no mutex is ever replaced, and
        each agent gets its own. */
    method GetOrInsert(agent: AgentId) returns (mutex: MutexId)
      requires Valid()
      modifies this
      ensures Valid() && agent in locks && locks[agent] == mutex
      ensures (locks, made, mutex) == OrInsert(old(locks), old(made), agent)
      ensures forall a :: a in old(locks) ==> a in locks && locks[a] == old(locks)[a]
      ensures forall a :: a in locks && a != agent ==> locks[a] != mutex
    {
      if agent !in locks {
        locks, made := locks[agent := made], made + 1;
      }
      mutex := locks[agent];
    }
  }

  /** The mutexes in the map are different ones, and have been made. */
  ghost predicate LocksMade(locks: map<AgentId, MutexId>, made: nat) {
    && (forall a :: a in locks ==> locks[a] < made)
    && (forall a, b :: a in locks && b in locks && a != b ==> locks[a] != locks[b])
  }

  // ---- The transition system ----------------------------------------------------------------

  predicate Active(s: State, id: TaskId) {
    id < |s.tasks| && s.tasks[id].todo != []
  }

  predicate Enabled(s: State, global: bool, a: Action) {
    && Active(s, a.id)
    && var stage := s.tasks[a.id].stage;
       match a
       case Enter(_) => stage.Outside? && (global ==> s.store.None?)
       case Lookup(_) => stage.Entered?
       case Resolve(_) => stage.LookedUp?
       case Lock(_) => stage.Waiting? && stage.mutex !in s.held
       case Finish(_) => stage.Writing?
  }

  function At(s: State, id: TaskId, stage: Stage): seq<Task>
    requires id < |s.tasks|
  {
    s.tasks[id := Task(s.tasks[id].todo, stage)]
  }

  function Next(s: State, global: bool, a: Action): State
    requires Enabled(s, global, a)
  {
    var k := s.tasks[a.id];
    match a
    case Enter(id) => s.(tasks := At(s, id, Entered), store := if global then Some(id) else s.store)
    case Lookup(id) =>
      s.(tasks := At(s, id, LookedUp(if k.todo[0] in s.locks then Some(s.locks[k.todo[0]]) else None)))
    case Resolve(id) =>
      if k.stage.found.Some? then s.(tasks := At(s, id, Waiting(k.stage.found.value)))
      else
        var (locks, made, mutex) := OrInsert(s.locks, s.made, k.todo[0]);
        s.(tasks := At(s, id, Waiting(mutex)), locks := locks, made := made)
    case Lock(id) => s.(tasks := At(s, id, Writing(k.stage.mutex)), held := s.held[k.stage.mutex := id])
    // The guards are dropped when the iteration, or the method, ends.
    case Finish(id) =>
      s.(tasks := s.tasks[id := Task(k.todo[1..], Outside)],
         held := map m | m in s.held && m != k.stage.mutex :: s.held[m],
         store := if global then None else s.store)
  }

  ghost predicate Start(s: State) {
    && s.store.None? && s.locks == map[] && s.held == map[] && s.made == 0
    && forall id :: 0 <= id < |s.tasks| ==> s.tasks[id].stage.Outside?
  }

  ghost predicate IsRun(s: State, global: bool, steps: seq<Action>)
    decreases |steps|, 0
  {
    steps != [] ==>
      var p := steps[..|steps| - 1];
      IsRun(s, global, p) && Enabled(After(s, global, p), global, steps[|steps| - 1])
  }

  ghost function After(s: State, global: bool, steps: seq<Action>): State
    requires IsRun(s, global, steps)
    decreases |steps|, 1
  {
    if steps == [] then s else Next(After(s, global, steps[..|steps| - 1]), global, steps[|steps| - 1])
  }

  // ---- The invariant ------------------------------------------------------------------------

  /** A mutex that a task knows is its agent's. */
  ghost predicate KnowsItsMutex(s: State, id: TaskId)
    requires id < |s.tasks|
  {
    var k := s.tasks[id];
    && (k.todo == [] ==> k.stage.Outside?)
    && (k.todo != [] ==>
          match k.stage
          case LookedUp(found) => found.Some? ==> k.todo[0] in s.locks && s.locks[k.todo[0]] == found.value
          case Waiting(mutex) => k.todo[0] in s.locks && s.locks[k.todo[0]] == mutex
          case Writing(mutex) => k.todo[0] in s.locks && s.locks[k.todo[0]] == mutex && mutex in s.held && s.held[mutex] == id
          case _ => true)
  }

  /** A held mutex is held by a task that writes under it. */
  ghost predicate HeldByWriter(s: State, m: MutexId)
    requires m in s.held
  {
    s.held[m] < |s.tasks| && s.tasks[s.held[m]].stage == Writing(m)
  }

  /** Where the store lock is used, its holder is the one task that is not outside. */
  ghost predicate StoreOk(s: State, global: bool) {
    && (!global ==> s.store.None?)
    && (global ==> forall id :: 0 <= id < |s.tasks| ==> (!s.tasks[id].stage.Outside? <==> s.store == Some(id)))
    && (global && s.store.Some? ==> s.store.value < |s.tasks|)
  }

  ghost predicate Inv(s: State, global: bool) {
    && LocksMade(s.locks, s.made)
    && (forall id :: 0 <= id < |s.tasks| ==> KnowsItsMutex(s, id))
    && (forall m :: m in s.held ==> HeldByWriter(s, m))
    && StoreOk(s, global)
  }

  lemma LocksOnlyGrow(s: State, global: bool, a: Action)
    requires Inv(s, global) && Enabled(s, global, a)
    ensures LocksMade(Next(s, global, a).locks, Next(s, global, a).made)
    ensures forall g :: g in s.locks ==> g in Next(s, global, a).locks && Next(s, global, a).locks[g] == s.locks[g]
  {
  }

  lemma TaskStaysOk(s: State, global: bool, a: Action, id: TaskId)
    requires Inv(s, global) && Enabled(s, global, a) && id < |s.tasks|
    ensures KnowsItsMutex(Next(s, global, a), id)
  {
    LocksOnlyGrow(s, global, a);
    assert KnowsItsMutex(s, id) && KnowsItsMutex(s, a.id);
  }

  lemma HeldStaysOk(s: State, global: bool, a: Action, m: MutexId)
    requires Inv(s, global) && Enabled(s, global, a) && m in Next(s, global, a).held
    ensures HeldByWriter(Next(s, global, a), m)
  {
    assert m in s.held ==> HeldByWriter(s, m);
  }

  lemma StepKeepsInv(s: State, global: bool, a: Action)
    requires Inv(s, global) && Enabled(s, global, a)
    ensures Inv(Next(s, global, a), global)
  {
    LocksOnlyGrow(s, global, a);
    forall id | 0 <= id < |s.tasks| ensures KnowsItsMutex(Next(s, global, a), id) {
      TaskStaysOk(s, global, a, id);
    }
    forall m | m in Next(s, global, a).held ensures HeldByWriter(Next(s, global, a), m) {
      HeldStaysOk(s, global, a, m);
    }
  }

  lemma {:induction false} RunKeepsInv(s: State, global: bool, steps: seq<Action>)
    requires (Start(s) || Inv(s, global)) && IsRun(s, global, steps)
    ensures Inv(After(s, global, steps), global)
  {
    if steps != [] {
      RunKeepsInv(s, global, steps[..|steps| - 1]);
      StepKeepsInv(After(s, global, steps[..|steps| - 1]), global, steps[|steps| - 1]);
    }
  }

  // ---- Exclusion ----------------------------------------------------------------------------

  predicate Writes(s: State, id: TaskId, agent: AgentId) {
    Active(s, id) && s.tasks[id].stage.Writing? && s.tasks[id].todo[0] == agent
  }

  /** Never do two tasks write for one agent, nor at all when the store lock is required; and no task,
      a sweep included, holds the mutexes of two agents. */
  lemma WritersExclude(s: State, global: bool, steps: seq<Action>)
    requires Start(s) && IsRun(s, global, steps)
    ensures var s' := After(s, global, steps);
            && (forall i, j, g :: Writes(s', i, g) && Writes(s', j, g) ==> i == j)
            && (global ==> forall i, j, g, h :: Writes(s', i, g) && Writes(s', j, h) ==> i == j)
            && (forall m, n :: m in s'.held && n in s'.held && s'.held[m] == s'.held[n] ==> m == n)
  {
    RunKeepsInv(s, global, steps);
    var s' := After(s, global, steps);
    forall i, g | Writes(s', i, g) ensures g in s'.locks && s'.locks[g] in s'.held && s'.held[s'.locks[g]] == i {
      assert KnowsItsMutex(s', i);
    }
    forall m, n | m in s'.held && n in s'.held && s'.held[m] == s'.held[n] ensures m == n {
      assert HeldByWriter(s', m) && HeldByWriter(s', n);
    }
  }

  /** The map never replaces a mutex: an agent keeps the one it was first given. */
  lemma {:induction false} MutexesAreForever(s: State, global: bool, steps: seq<Action>, agent: AgentId)
    requires Inv(s, global) && IsRun(s, global, steps) && agent in s.locks
    ensures agent in After(s, global, steps).locks && After(s, global, steps).locks[agent] == s.locks[agent]
  {
    if steps != [] {
      var p := steps[..|steps| - 1];
      MutexesAreForever(s, global, p, agent);
      RunKeepsInv(s, global, p);
      LocksOnlyGrow(After(s, global, p), global, steps[|steps| - 1]);
    }
  }

  // ---- Progress -----------------------------------------------------------------------------

  predicate Writer(s: State, id: TaskId) {
    Active(s, id) && s.tasks[id].stage.Writing?
  }

  predicate OnItsWay(s: State, id: TaskId) {
    Active(s, id) && !s.tasks[id].stage.Writing? && !s.tasks[id].stage.Outside?
  }

  lemma HolderWrites(s: State, global: bool, m: MutexId)
    requires Inv(s, global)
    ensures m in s.held ==> Writer(s, s.held[m])
  {
    if m in s.held {
      assert HeldByWriter(s, m) && KnowsItsMutex(s, s.held[m]);
    }
  }

  lemma StoreHolderIsBusy(s: State, global: bool)
    requires Inv(s, global) && global && s.store.Some?
    ensures Writer(s, s.store.value) || OnItsWay(s, s.store.value)
  {
    assert KnowsItsMutex(s, s.store.value);
  }

  /** With no writer about, no mutex is held, so a task on its way can go on. */
  lemma WayIsFree(s: State, global: bool, i: TaskId) returns (a: Action)
    requires Inv(s, global) && OnItsWay(s, i) && forall j: TaskId :: !Writer(s, j)
    ensures Enabled(s, global, a)
  {
    match s.tasks[i].stage {
      case Entered => a := Lookup(i);
      case LookedUp(_) => a := Resolve(i);
      case Waiting(m) =>
        HolderWrites(s, global, m);
        a := Lock(i);
      case Outside => assert false;
      case Writing(_) => assert false;
    }
  }

  lemma SomeStepIsEnabled(s: State, global: bool, id: TaskId) returns (a: Action)
    requires Inv(s, global) && Active(s, id)
    ensures Enabled(s, global, a)
  {
    if i: TaskId :| Writer(s, i) {
      a := Finish(i);
    } else if global && s.store.Some? {
      StoreHolderIsBusy(s, global);
      a := WayIsFree(s, global, s.store.value);
    } else if i: TaskId :| OnItsWay(s, i) {
      a := WayIsFree(s, global, i);
    } else {
      assert !Writer(s, id) && !OnItsWay(s, id);
      a := Enter(id);
    }
  }

  /** No run gets stuck: while a task is unfinished, some task can take a step. */
  lemma NoDeadlock(s: State, global: bool, steps: seq<Action>, id: TaskId)
    requires Start(s) && IsRun(s, global, steps) && Active(After(s, global, steps), id)
    ensures exists a :: Enabled(After(s, global, steps), global, a)
  {
    RunKeepsInv(s, global, steps);
    var a := SomeStepIsEnabled(After(s, global, steps), global, id);
  }

  function StepsIn(stage: Stage): nat {
    match stage
    case Outside => 0
    case Entered => 1
    case LookedUp(_) => 2
    case Waiting(_) => 3
    case Writing(_) => 4
  }

  function StepsLeft(k: Task): int {
    5 * |k.todo| - StepsIn(k.stage)
  }

  function AllStepsLeft(tasks: seq<Task>): int {
    if tasks == [] then 0 else AllStepsLeft(tasks[..|tasks| - 1]) + StepsLeft(tasks[|tasks| - 1])
  }

  lemma {:induction false} OneTaskMoves(tasks: seq<Task>, id: TaskId, k: Task)
    requires id < |tasks|
    ensures AllStepsLeft(tasks[id := k]) == AllStepsLeft(tasks) - StepsLeft(tasks[id]) + StepsLeft(k)
  {
    var n := |tasks| - 1;
    if id == n {
      assert tasks[id := k][..n] == tasks[..n];
    } else {
      OneTaskMoves(tasks[..n], id, k);
      assert tasks[id := k][..n] == tasks[..n][id := k];
    }
  }

  lemma StepCounts(s: State, global: bool, a: Action)
    requires Enabled(s, global, a)
    ensures AllStepsLeft(Next(s, global, a).tasks) == AllStepsLeft(s.tasks) - 1
  {
    OneTaskMoves(s.tasks, a.id, Next(s, global, a).tasks[a.id]);
  }

  /** Every run is finite, and it can only end with all tasks finished: each takes five steps for each
      of its agents, whatever the others do. */
  lemma {:induction false} RunsEnd(s: State, global: bool, steps: seq<Action>)
    requires Start(s) && IsRun(s, global, steps)
    ensures AllStepsLeft(After(s, global, steps).tasks) == AllStepsLeft(s.tasks) - |steps|
    ensures |steps| <= AllStepsLeft(s.tasks)
    ensures |steps| == AllStepsLeft(s.tasks) <==> forall id :: !Active(After(s, global, steps), id)
  {
    if steps != [] {
      RunsEnd(s, global, steps[..|steps| - 1]);
      StepCounts(After(s, global, steps[..|steps| - 1]), global, steps[|steps| - 1]);
    }
    RunKeepsInv(s, global, steps);
    FinishedExactly(After(s, global, steps), global);
  }

  lemma FinishedExactly(s: State, global: bool)
    requires Inv(s, global)
    ensures AllStepsLeft(s.tasks) >= 0
    ensures AllStepsLeft(s.tasks) == 0 <==> forall id :: !Active(s, id)
  {
    forall id | 0 <= id < |s.tasks|
      ensures StepsLeft(s.tasks[id]) >= 0 && (StepsLeft(s.tasks[id]) == 0 <==> !Active(s, id))
    {
      assert KnowsItsMutex(s, id);
    }
    ZeroExactly(s.tasks);
  }

  lemma {:induction false} ZeroExactly(tasks: seq<Task>)
    requires forall id :: 0 <= id < |tasks| ==> StepsLeft(tasks[id]) >= 0
    ensures AllStepsLeft(tasks) >= 0
    ensures AllStepsLeft(tasks) == 0 <==> forall id :: 0 <= id < |tasks| ==> StepsLeft(tasks[id]) == 0
  {
    if tasks != [] {
      var p := tasks[..|tasks| - 1];
      assert forall id :: 0 <= id < |p| ==> p[id] == tasks[id];
      ZeroExactly(p);
    }
  }
}
