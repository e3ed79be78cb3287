/**
 The two tables behind system tasks, `system_tasks` and `system_task_locks`, and the SQL
 statements that model/system_task.go issues against them.  Every function below is one
 statement, so it is one atomic step of any interleaving.
 */
module TaskTables {
  import opened Options

  // Identifiers are only ever compared for equality.
  type TaskId = nat
  type TaskType = nat
  type Runner = nat

  datatype Status = Pending | Running | Succeeded | Failed

  datatype Task = Task(
    kind: TaskType,
    status: Status,
    activeKey: Option<TaskType>,
    lockedBy: Option<Runner>,
    state: string,
    result: string,
    error: string,
    createdAt: int)

  datatype Lock = Lock(taskId: TaskId, lockedBy: Runner, lockedUntil: int)

  /** Tasks by identifier; locks by task type, their primary key. */
  datatype Store = Store(tasks: map<TaskId, Task>, locks: map<TaskType, Lock>)

  predicate Active(t: Task) {
    t.status == Pending || t.status == Running
  }

  predicate Terminal(t: Task) {
    !Active(t)
  }

  /** The unique index on `active_key` rejects a second row carrying the same key. */
  ghost predicate KeyTaken(s: Store, kind: TaskType) {
    exists id :: id in s.tasks && s.tasks[id].activeKey == Some(kind)
  }

  ghost function InsertTask(s: Store, id: TaskId, kind: TaskType, state: string, now: int): Option<Store> {
    if id in s.tasks || KeyTaken(s, kind) then None
    else Some(s.(tasks := s.tasks[id := Task(kind, Pending, Some(kind), None, state, "", "", now)]))
  }

  predicate IsPending(s: Store, id: TaskId, kind: TaskType) {
    id in s.tasks && s.tasks[id].kind == kind && s.tasks[id].status == Pending
  }

  predicate CanTakeOver(s: Store, kind: TaskType, now: int) {
    kind in s.locks && s.locks[kind].lockedUntil < now
  }

  function PutLock(s: Store, kind: TaskType, lock: Lock): Store {
    s.(locks := s.locks[kind := lock])
  }

  function MarkLeaseExpired(s: Store, id: TaskId): Store {
    if id in s.tasks && s.tasks[id].status == Running
    then s.(tasks := s.tasks[id := s.tasks[id].(status := Failed, activeKey := None, error := "task lease expired")])
    else s
  }

  function MarkRunning(s: Store, id: TaskId, runner: Runner): Store
    requires id in s.tasks
  {
    s.(tasks := s.tasks[id := s.tasks[id].(status := Running, lockedBy := Some(runner))])
  }

  function ReleaseLock(s: Store, id: TaskId, runner: Runner): Store {
    s.(locks := map k | k in s.locks && !(s.locks[k].taskId == id && s.locks[k].lockedBy == runner) :: s.locks[k])
  }

  function DeleteStaleLock(s: Store, kind: TaskType, lock: Lock, now: int): Store {
    if kind in s.locks && s.locks[kind].taskId == lock.taskId && s.locks[kind].lockedBy == lock.lockedBy
       && s.locks[kind].lockedUntil < now
    then s.(locks := s.locks - {kind})
    else s
  }

  /** The EXISTS condition: some lock row names this task and runner and has not run out at `now`. */
  predicate LeaseRow(s: Store, id: TaskId, runner: Runner, now: int) {
    exists k :: k in s.locks && s.locks[k].taskId == id && s.locks[k].lockedBy == runner && s.locks[k].lockedUntil >= now
  }

  /** The WHERE clause shared by the state update and the finishing update. */
  predicate MayWrite(s: Store, id: TaskId, runner: Runner, now: int) {
    && id in s.tasks && s.tasks[id].status == Running && s.tasks[id].lockedBy == Some(runner)
    && LeaseRow(s, id, runner, now)
  }

  function WriteState(s: Store, id: TaskId, runner: Runner, now: int, state: string): Store {
    if MayWrite(s, id, runner, now) then s.(tasks := s.tasks[id := s.tasks[id].(state := state)]) else s
  }

  function FinishRow(s: Store, id: TaskId, runner: Runner, now: int, status: Status, result: string, error: string): Store {
    if MayWrite(s, id, runner, now)
    then s.(tasks := s.tasks[id := s.tasks[id].(status := status, activeKey := None, result := result, error := error)])
    else s
  }

  function RenewRows(s: Store, id: TaskId, runner: Runner, now: int, until: int): Store {
    s.(locks := map k | k in s.locks ::
         if s.locks[k].taskId == id && s.locks[k].lockedBy == runner && s.locks[k].lockedUntil >= now
         then s.locks[k].(lockedUntil := until) else s.locks[k])
  }
}
