/**
 Every interleaving of the operations of model/system_task.go.  An operation in flight is a
 program counter plus the values it has read so far; each step of the system executes one
 SQL statement of one operation, lets the clock advance, starts an operation, or drops one
 (a database error whose statement had no effect, or a crash).
 */
module TaskProtocol {
  import opened Options
  import opened TaskTables

  /** Where a call of ClaimSystemTask stands; the comment names its next statement. */
  datatype ClaimPc =
    | Began                  // SELECT the pending task
    | Selected               // INSERT the lock row
    | Conflicted             // SELECT the lock row in the way
    | SawExpired             // UPDATE that row, provided it is still expired
    | Acquired               // mark the task named by the replaced row
    | Ready                  // UPDATE pending -> running
    | Losing                 // release, return false
    | Won                    // re-read, return true

  datatype Claim = Claim(pc: ClaimPc, id: TaskId, kind: TaskType, now: int, until: int, expired: Option<TaskId>)

  /** Update, Renew and Finish read the clock (`now`) first and run their statement later. */
  datatype Op =
    | UpdateOp(id: TaskId, runner: Runner, now: int, state: string)
    | RenewOp(id: TaskId, runner: Runner, now: int, until: int)
    | FinishOp(id: TaskId, runner: Runner, now: int, status: Status, result: string, error: string)
    | ReleaseOp(id: TaskId, runner: Runner)

  /** ExpireStaleSystemTaskLocks: the rows it read and has yet to process; `marked` once the first one's task was marked. */
  datatype Sweep = Sweep(now: int, read: bool, rows: seq<(TaskType, Lock)>, marked: bool)

  /** The database and the clock; `startedAt` and `won` are history: when a task turned running, and which claims returned true. */
  datatype World = World(store: Store, clock: int, startedAt: map<TaskId, int>, won: seq<(TaskId, Runner)>)

  datatype System = System(x: World, claims: map<Runner, Claim>, ops: map<nat, Op>, sweeps: map<nat, Sweep>)

  datatype Action =
    | Tick(to: int)
    | Create(id: TaskId, kind: TaskType, state: string)
    | BeginClaim(runner: Runner, id: TaskId, kind: TaskType, until: int)
    | ClaimStep(runner: Runner)
    | ClaimError(runner: Runner)
    | ClaimCrash(runner: Runner)
    | BeginOp(slot: nat, op: Op)
    | OpStep(slot: nat)
    | OpLost(slot: nat)
    | BeginSweep(slot: nat)
    | SweepRead(slot: nat, rows: seq<(TaskType, Lock)>)
    | SweepStep(slot: nat)
    | SweepLost(slot: nat)

  ghost predicate Init(y: System) {
    y.x.store == Store(map[], map[]) && y.x.startedAt == map[] && y.x.won == [] && y.claims == map[] && y.ops == map[] && y.sweeps == map[]
  }

  /** What the callers in service/system_task.go respect when they start an operation. */
  ghost predicate CallerMayBegin(x: World, op: Op) {
    && !op.ReleaseOp? && op.now == x.clock
    && (op.id, op.runner) in x.won
    && (op.RenewOp? ==> op.until >= op.now)
    && (op.FinishOp? ==> op.status == Succeeded || op.status == Failed)
  }

  /** The SELECT of the sweep returns every expired row, and no other. */
  ghost predicate ExpiredRows(s: Store, now: int, rows: seq<(TaskType, Lock)>) {
    && (forall row :: row in rows ==> row.0 in s.locks && s.locks[row.0] == row.1 && row.1.lockedUntil < now)
    && (forall k :: CanTakeOver(s, k, now) ==> (k, s.locks[k]) in rows)
  }

  ghost predicate Enabled(y: System, a: Action) {
    match a
    case Tick(to) => to >= y.x.clock
    case Create(_, _, _) => true
    case BeginClaim(r, id, _, until) => r !in y.claims && id in y.x.store.tasks && until >= y.x.clock
    case ClaimStep(r) => r in y.claims
    case ClaimError(r) => r in y.claims
    case ClaimCrash(r) => r in y.claims
    case BeginOp(n, op) => n !in y.ops && CallerMayBegin(y.x, op)
    case OpStep(n) => n in y.ops
    case OpLost(n) => n in y.ops
    case BeginSweep(n) => n !in y.sweeps
    case SweepRead(n, rows) => n in y.sweeps && !y.sweeps[n].read && ExpiredRows(y.x.store, y.sweeps[n].now, rows)
    case SweepStep(n) => n in y.sweeps && y.sweeps[n].read
    case SweepLost(n) => n in y.sweeps
  }

  /** The explicit timing assumption: a claim's pending -> running update runs within its own lease. */
  ghost predicate Timely(y: System, a: Action) {
    a.ClaimStep? && a.runner in y.claims && y.claims[a.runner].pc == Ready ==> y.x.clock <= y.claims[a.runner].until
  }

  ghost function CreateTask(x: World, id: TaskId, kind: TaskType, state: string): World {
    var inserted := InsertTask(x.store, id, kind, state, x.clock);
    if inserted.Some? then x.(store := inserted.value) else x
  }

  /** The next statement of a claim: the new world, and the claim unless the call returns. */
  function AdvanceClaim(x: World, r: Runner, c: Claim): (World, Option<Claim>) {
    match c.pc
    case Began => (x, if IsPending(x.store, c.id, c.kind) then Some(c.(pc := Selected)) else None)
    case Selected =>
      if c.kind in x.store.locks then (x, Some(c.(pc := Conflicted)))
      else (x.(store := PutLock(x.store, c.kind, Lock(c.id, r, c.until))), Some(c.(pc := Acquired)))
    case Conflicted =>
      if CanTakeOver(x.store, c.kind, c.now)
      then (x, Some(c.(pc := SawExpired, expired := Some(x.store.locks[c.kind].taskId))))
      else (x, None)
    case SawExpired =>
      if CanTakeOver(x.store, c.kind, c.now)
      then (x.(store := PutLock(x.store, c.kind, Lock(c.id, r, c.until))), Some(c.(pc := Acquired)))
      else (x, None)
    case Acquired =>
      (if c.expired.Some? && c.expired.value != c.id then x.(store := MarkLeaseExpired(x.store, c.expired.value)) else x,
       Some(c.(pc := Ready)))
    case Ready =>
      if IsPending(x.store, c.id, c.kind)
      then (x.(store := MarkRunning(x.store, c.id, r), startedAt := x.startedAt[c.id := x.clock]), Some(c.(pc := Won)))
      else (x, Some(c.(pc := Losing)))
    case Losing => (x.(store := ReleaseLock(x.store, c.id, r)), None)
    case Won => (x.(won := x.won + [(c.id, r)]), None)
  }

  /** A statement that failed without effect: the call reads the row in the way, releases, or returns. */
  function FailClaim(c: Claim): Option<Claim> {
    match c.pc
    case Selected => Some(c.(pc := Conflicted))
    case Acquired => Some(c.(pc := Losing))
    case Ready => Some(c.(pc := Losing))
    case _ => None
  }

  /** Only a finishing update that took effect is followed by a second statement. */
  function AdvanceOp(x: World, op: Op): (World, Option<Op>) {
    match op
    case UpdateOp(id, r, now, text) => (x.(store := WriteState(x.store, id, r, now, text)), None)
    case RenewOp(id, r, now, until) => (x.(store := RenewRows(x.store, id, r, now, until)), None)
    case FinishOp(id, r, now, status, result, error) =>
      if MayWrite(x.store, id, r, now)
      then (x.(store := FinishRow(x.store, id, r, now, status, result, error)), Some(ReleaseOp(id, r)))
      else (x, None)
    case ReleaseOp(id, r) => (x.(store := ReleaseLock(x.store, id, r)), None)
  }

  function AdvanceSweep(x: World, w: Sweep): (World, Option<Sweep>) {
    if w.rows == [] then (x, None)
    else if !w.marked then (x.(store := MarkLeaseExpired(x.store, w.rows[0].1.taskId)), Some(w.(marked := true)))
    else
      (x.(store := DeleteStaleLock(x.store, w.rows[0].0, w.rows[0].1, w.now)),
       Some(w.(marked := false, rows := w.rows[1..])))
  }

  function Put<V>(m: map<nat, V>, k: nat, v: Option<V>): map<nat, V> {
    if v.Some? then m[k := v.value] else m - {k}
  }

  ghost function Apply(y: System, a: Action): System
    requires Enabled(y, a)
  {
    match a
    case Tick(to) => y.(x := y.x.(clock := to))
    case Create(id, kind, state) => y.(x := CreateTask(y.x, id, kind, state))
    case BeginClaim(r, id, kind, until) => y.(claims := y.claims[r := Claim(Began, id, kind, y.x.clock, until, None)])
    case ClaimStep(r) => var (x', c') := AdvanceClaim(y.x, r, y.claims[r]); y.(x := x', claims := Put(y.claims, r, c'))
    case ClaimError(r) => y.(claims := Put(y.claims, r, FailClaim(y.claims[r])))
    case ClaimCrash(r) => y.(claims := y.claims - {r})
    case BeginOp(n, op) => y.(ops := y.ops[n := op])
    case OpStep(n) => var (x', op') := AdvanceOp(y.x, y.ops[n]); y.(x := x', ops := Put(y.ops, n, op'))
    case OpLost(n) => y.(ops := y.ops - {n})
    case BeginSweep(n) => y.(sweeps := y.sweeps[n := Sweep(y.x.clock, false, [], false)])
    case SweepRead(n, rows) => y.(sweeps := y.sweeps[n := Sweep(y.sweeps[n].now, true, rows, false)])
    case SweepStep(n) => var (x', w') := AdvanceSweep(y.x, y.sweeps[n]); y.(x := x', sweeps := Put(y.sweeps, n, w'))
    case SweepLost(n) => y.(sweeps := y.sweeps - {n})
  }

  ghost predicate Step(y: System, a: Action, y': System) {
    Enabled(y, a) && Timely(y, a) && y' == Apply(y, a)
  }

  /** A run: each state follows from the one before by some timely step. */
  ghost predicate Run(ys: seq<System>) {
    |ys| > 0 && Init(ys[0]) && forall i :: 0 <= i < |ys| - 1 ==> Follows(ys[i], ys[i + 1])
  }

  ghost predicate Follows(y: System, y': System) {
    exists a :: Step(y, a, y')
  }

  // ---------- the invariant ----------

  type Tasks = map<TaskId, Task>
  type Locks = map<TaskType, Lock>

  predicate RowOk(t: Task) {
    && t.activeKey == (if Active(t) then Some(t.kind) else None)
    && (t.status == Pending <==> t.lockedBy == None)
  }

  /** Active rows carry their type as unique key, terminal rows none; a task is owned exactly once it left pending. */
  ghost predicate RowsOk(tasks: Tasks, clock: int) {
    forall t :: t in tasks ==> RowOk(tasks[t]) && tasks[t].createdAt <= clock
  }

  predicate IsActive(tasks: Tasks, t: TaskId) {
    t in tasks && Active(tasks[t])
  }

  predicate IsRunning(tasks: Tasks, t: TaskId) {
    t in tasks && tasks[t].status == Running
  }

  ghost predicate OneActive(tasks: Tasks) {
    forall t, u :: IsActive(tasks, t) && IsActive(tasks, u) && tasks[t].kind == tasks[u].kind ==> t == u
  }

  /** A lock row names a task of its own type, and runs at least until that task was created. */
  predicate LockFits(tasks: Tasks, kind: TaskType, lock: Lock) {
    lock.taskId in tasks && tasks[lock.taskId].kind == kind && lock.lockedUntil >= tasks[lock.taskId].createdAt
  }

  ghost predicate LocksOk(tasks: Tasks, locks: Locks) {
    forall k :: k in locks ==> LockFits(tasks, k, locks[k])
  }

  /** The lock row of a running task names exactly that task and its owner, and runs past the task's start. */
  predicate Leased(t: TaskId, task: Task, locks: Locks, startedAt: map<TaskId, int>) {
    && task.kind in locks && locks[task.kind].taskId == t && Some(locks[task.kind].lockedBy) == task.lockedBy
    && t in startedAt && locks[task.kind].lockedUntil >= startedAt[t]
  }

  ghost predicate RunningLeased(tasks: Tasks, locks: Locks, startedAt: map<TaskId, int>) {
    forall t :: IsRunning(tasks, t) ==> Leased(t, tasks[t], locks, startedAt)
  }

  ghost predicate StartsOk(tasks: Tasks, startedAt: map<TaskId, int>, clock: int) {
    forall t :: IsRunning(tasks, t) ==> t in startedAt && tasks[t].createdAt <= startedAt[t] <= clock
  }

  ghost predicate WonOk(tasks: Tasks, won: seq<(TaskId, Runner)>) {
    && (forall i :: 0 <= i < |won| ==> won[i].0 in tasks && tasks[won[i].0].lockedBy == Some(won[i].1))
    && (forall i, j :: 0 <= i < j < |won| ==> won[i].0 != won[j].0)
  }

  ghost predicate WorldOk(x: World) {
    && RowsOk(x.store.tasks, x.clock) && OneActive(x.store.tasks) && LocksOk(x.store.tasks, x.store.locks)
    && RunningLeased(x.store.tasks, x.store.locks, x.startedAt) && StartsOk(x.store.tasks, x.startedAt, x.clock)
    && WonOk(x.store.tasks, x.won)
  }

  predicate HasSelected(c: Claim) {
    c.pc != Began && c.pc != Won
  }

  /** No task of the claim's type began running before the claim read its clock; any other active one is younger. */
  ghost predicate SinceRead(x: World, c: Claim) {
    forall t :: IsActive(x.store.tasks, t) && x.store.tasks[t].kind == c.kind ==>
      && (x.store.tasks[t].status == Running ==> t in x.startedAt && x.startedAt[t] >= c.now)
      && (t != c.id ==> x.store.tasks[t].createdAt >= c.now)
  }

  ghost predicate ClaimOk(x: World, r: Runner, c: Claim) {
    && c.now <= x.clock && c.until >= c.now
    && c.id in x.store.tasks && x.store.tasks[c.id].createdAt <= c.now
    && (HasSelected(c) ==> x.store.tasks[c.id].kind == c.kind && x.store.tasks[c.id].lockedBy != Some(r) && SinceRead(x, c))
    && (c.pc == Acquired || c.pc == Ready ==> HoldsUnexpired(x, r, c))
    && (HasSelected(c) && c.expired.Some? && c.expired.value != c.id ==>
          c.expired.value in x.store.tasks && Terminal(x.store.tasks[c.expired.value]))
    && (c.pc == Began ==> c.expired == None)
    && (c.pc == SawExpired ==> c.expired.Some?)
    && (c.pc == Won ==> x.store.tasks[c.id].lockedBy == Some(r) && !Returned(x, c.id))
  }

  predicate HoldsUnexpired(x: World, r: Runner, c: Claim) {
    x.clock <= c.until ==> c.kind in x.store.locks && x.store.locks[c.kind] == Lock(c.id, r, c.until)
  }

  ghost predicate Returned(x: World, id: TaskId) {
    exists i :: 0 <= i < |x.won| && x.won[i].0 == id
  }

  ghost predicate OpOk(x: World, op: Op) {
    && op.id in x.store.tasks && x.store.tasks[op.id].lockedBy == Some(op.runner)
    && (!op.ReleaseOp? ==> op.now <= x.clock)
    && (op.RenewOp? ==> op.until >= op.now && x.store.tasks[op.id].createdAt <= op.now)
    && (op.RenewOp? && x.store.tasks[op.id].status == Running ==> op.id in x.startedAt && x.startedAt[op.id] <= op.now)
    && (op.FinishOp? ==> op.status == Succeeded || op.status == Failed)
    && (op.ReleaseOp? ==> Terminal(x.store.tasks[op.id]))
  }

  ghost predicate SweepOk(x: World, w: Sweep) {
    && w.now <= x.clock
    && (w.marked ==> w.rows != [])
    && (forall i :: 0 <= i < |w.rows| ==> w.rows[i].1.lockedUntil < w.now)
    && (w.marked && IsRunning(x.store.tasks, w.rows[0].1.taskId) ==>
          w.rows[0].1.taskId in x.startedAt && x.startedAt[w.rows[0].1.taskId] >= w.now)
  }

  ghost predicate Inv(y: System) {
    && WorldOk(y.x)
    && (forall r :: r in y.claims ==> ClaimOk(y.x, r, y.claims[r]))
    && (forall n :: n in y.ops ==> OpOk(y.x, y.ops[n]))
    && (forall n :: n in y.sweeps ==> SweepOk(y.x, y.sweeps[n]))
  }

  // ---------- what every step guarantees to the operations it does not belong to ----------

  /** A row moves forward only: pending to running, running to terminal, and never otherwise. */
  predicate Moves(t: Task, t': Task) {
    && t'.kind == t.kind && t'.createdAt == t.createdAt
    && (t.status == Pending ==> t' == t || (t'.status == Running && t'.lockedBy.Some?))
    && (t.status == Running ==> t'.status != Pending && t'.lockedBy == t.lockedBy)
    && (Terminal(t) ==> t' == t)
  }

  ghost predicate TasksMove(x: World, x': World) {
    && x.clock <= x'.clock
    && (forall t :: t in x.store.tasks ==> t in x'.store.tasks && Moves(x.store.tasks[t], x'.store.tasks[t]))
    && (forall t :: t in x'.store.tasks && t !in x.store.tasks ==> x'.store.tasks[t].status == Pending && x'.store.tasks[t].createdAt >= x.clock)
    && (forall t :: t in x.store.tasks && IsRunning(x'.store.tasks, t) ==>
          if IsRunning(x.store.tasks, t) then t in x.startedAt ==> t in x'.startedAt && x'.startedAt[t] == x.startedAt[t]
          else t in x'.startedAt && x'.startedAt[t] >= x.clock)
  }

  predicate Unstarted(x: World, lock: Lock, clock: int) {
    clock <= lock.lockedUntil && lock.taskId in x.store.tasks && x.store.tasks[lock.taskId].lockedBy != Some(lock.lockedBy)
  }

  /** A live lease whose task its holder has not started stays in place, unless `mover` holds it. */
  ghost predicate UnstartedLeasesStay(x: World, x': World, mover: Option<Runner>) {
    forall k :: k in x.store.locks && Unstarted(x, x.store.locks[k], x'.clock) && mover != Some(x.store.locks[k].lockedBy) ==>
      k in x'.store.locks && x'.store.locks[k] == x.store.locks[k]
  }

  lemma ClaimKept(x: World, x': World, mover: Option<Runner>, r: Runner, c: Claim)
    requires RowsOk(x.store.tasks, x.clock) && ClaimOk(x, r, c) && TasksMove(x, x') && UnstartedLeasesStay(x, x', mover) && mover != Some(r)
    requires HasSelected(c) ==> x'.store.tasks[c.id].lockedBy != Some(r)
    requires c.pc == Won ==> !Returned(x', c.id)
    ensures ClaimOk(x', r, c)
  {
    if HasSelected(c) {
      assert SinceRead(x', c);
    }
  }

  lemma OpKept(x: World, x': World, op: Op)
    requires OpOk(x, op) && TasksMove(x, x') && RowsOk(x.store.tasks, x.clock)
    ensures OpOk(x', op)
  {
  }

  lemma SweepKept(x: World, x': World, w: Sweep)
    requires SweepOk(x, w) && TasksMove(x, x')
    ensures SweepOk(x', w)
  {
  }

  /** The in-flight operations a step leaves alone keep their invariants. */
  lemma OthersKept(y: System, x': World, mover: Option<Runner>)
    requires Inv(y) && TasksMove(y.x, x') && UnstartedLeasesStay(y.x, x', mover) && x'.won == y.x.won
    requires forall t, r :: t in y.x.store.tasks && y.x.store.tasks[t].status == Pending && x'.store.tasks[t].lockedBy == Some(r) ==> mover == Some(r)
    ensures forall r :: r in y.claims && mover != Some(r) ==> ClaimOk(x', r, y.claims[r])
    ensures forall n :: n in y.ops ==> OpOk(x', y.ops[n])
    ensures forall n :: n in y.sweeps ==> SweepOk(x', y.sweeps[n])
    ensures WonOk(x'.store.tasks, x'.won)
  {
    forall r | r in y.claims && mover != Some(r) ensures ClaimOk(x', r, y.claims[r]) {
      ClaimKept(y.x, x', mover, r, y.claims[r]);
    }
    forall n | n in y.ops ensures OpOk(x', y.ops[n]) {
      OpKept(y.x, x', y.ops[n]);
    }
    forall n | n in y.sweeps ensures SweepOk(x', y.sweeps[n]) {
      SweepKept(y.x, x', y.sweeps[n]);
    }
  }

  // ---------- one lemma per kind of step ----------

  lemma TickOk(y: System, to: int)
    requires Inv(y) && to >= y.x.clock
    ensures Inv(y.(x := y.x.(clock := to)))
  {
    OthersKept(y, y.x.(clock := to), None);
  }

  /** What one statement must establish for the invariant to survive it. */
  ghost predicate SafeMove(x: World, x': World, mover: Option<Runner>) {
    && WorldOk(x') && TasksMove(x, x') && UnstartedLeasesStay(x, x', mover) && x'.won == x.won
    && (forall t, r :: t in x.store.tasks && x.store.tasks[t].status == Pending && x'.store.tasks[t].lockedBy == Some(r) ==> mover == Some(r))
  }

  lemma CreateWorldOk(x: World, id: TaskId, kind: TaskType, state: string)
    requires WorldOk(x)
    ensures WorldOk(CreateTask(x, id, kind, state))
  {
    if id !in x.store.tasks && !KeyTaken(x.store, kind) {
      forall t | t in x.store.tasks && x.store.tasks[t].kind == kind ensures !Active(x.store.tasks[t]) {
        assert x.store.tasks[t].activeKey != Some(kind);
      }
    }
  }

  lemma CreateMoves(x: World, id: TaskId, kind: TaskType, state: string)
    requires StartsOk(x.store.tasks, x.startedAt, x.clock)
    ensures TasksMove(x, CreateTask(x, id, kind, state)) && UnstartedLeasesStay(x, CreateTask(x, id, kind, state), None)
  {
  }

  lemma CreateSafe(x: World, id: TaskId, kind: TaskType, state: string)
    requires WorldOk(x)
    ensures SafeMove(x, CreateTask(x, id, kind, state), None)
  {
    CreateWorldOk(x, id, kind, state);
    CreateMoves(x, id, kind, state);
  }

  function WithRow(x: World, id: TaskId, t: Task): World {
    x.(store := x.store.(tasks := x.store.tasks[id := t]))
  }

  /** Rewriting one row, without starting a task, is safe when the row moves forward and keeps its own shape. */
  lemma RowWorldOk(x: World, id: TaskId, t: Task)
    requires WorldOk(x) && id in x.store.tasks && Moves(x.store.tasks[id], t) && (t.status == Running ==> IsRunning(x.store.tasks, id))
    requires RowOk(t)
    ensures WorldOk(WithRow(x, id, t))
  {
  }

  lemma RowSafe(x: World, id: TaskId, t: Task)
    requires WorldOk(x) && id in x.store.tasks && Moves(x.store.tasks[id], t) && (t.status == Running ==> IsRunning(x.store.tasks, id))
    requires RowOk(t)
    ensures SafeMove(x, WithRow(x, id, t), None)
  {
    RowWorldOk(x, id, t);
  }

  lemma MarkExpiredSafe(x: World, id: TaskId)
    requires WorldOk(x)
    ensures SafeMove(x, x.(store := MarkLeaseExpired(x.store, id)), None)
  {
    if IsRunning(x.store.tasks, id) {
      RowSafe(x, id, MarkLeaseExpired(x.store, id).tasks[id]);
    } else {
      assert x.(store := MarkLeaseExpired(x.store, id)) == x;
    }
  }

  lemma WriteStateSafe(x: World, id: TaskId, r: Runner, now: int, state: string)
    requires WorldOk(x)
    ensures SafeMove(x, x.(store := WriteState(x.store, id, r, now, state)), None)
  {
    if MayWrite(x.store, id, r, now) {
      RowSafe(x, id, x.store.tasks[id].(state := state));
    } else {
      assert x.(store := WriteState(x.store, id, r, now, state)) == x;
    }
  }

  lemma FinishRowSafe(x: World, id: TaskId, r: Runner, now: int, status: Status, result: string, error: string)
    requires WorldOk(x) && (status == Succeeded || status == Failed)
    ensures SafeMove(x, x.(store := FinishRow(x.store, id, r, now, status, result, error)), None)
  {
    if MayWrite(x.store, id, r, now) {
      RowSafe(x, id, x.store.tasks[id].(status := status, activeKey := None, result := result, error := error));
    } else {
      assert x.(store := FinishRow(x.store, id, r, now, status, result, error)) == x;
    }
  }

  lemma MarkRunningWorldOk(x: World, id: TaskId, kind: TaskType, r: Runner, until: int)
    requires WorldOk(x) && IsPending(x.store, id, kind) && x.clock <= until
    requires kind in x.store.locks && x.store.locks[kind] == Lock(id, r, until)
    ensures WorldOk(x.(store := MarkRunning(x.store, id, r), startedAt := x.startedAt[id := x.clock]))
  {
  }

  lemma MarkRunningSafe(x: World, id: TaskId, kind: TaskType, r: Runner, until: int)
    requires WorldOk(x) && IsPending(x.store, id, kind) && x.clock <= until
    requires kind in x.store.locks && x.store.locks[kind] == Lock(id, r, until)
    ensures SafeMove(x, x.(store := MarkRunning(x.store, id, r), startedAt := x.startedAt[id := x.clock]), Some(r))
  {
    MarkRunningWorldOk(x, id, kind, r, until);
  }

  function WithLocks(x: World, locks: map<TaskType, Lock>): World {
    x.(store := x.store.(locks := locks))
  }

  /** A change of lock rows is safe when it keeps each running task's lease and moves no unstarted one. */
  lemma LocksSafe(x: World, locks: Locks, mover: Option<Runner>)
    requires WorldOk(x) && LocksOk(x.store.tasks, locks) && RunningLeased(x.store.tasks, locks, x.startedAt)
    requires UnstartedLeasesStay(x, WithLocks(x, locks), mover)
    ensures SafeMove(x, WithLocks(x, locks), mover)
  {
  }

  /** Inserting or replacing the lock row is safe when no task of that type is running. */
  lemma PutLockSafe(x: World, kind: TaskType, lock: Lock)
    requires WorldOk(x) && LockFits(x.store.tasks, kind, lock)
    requires kind in x.store.locks ==> x.store.locks[kind].lockedUntil < x.clock
    requires forall t :: IsRunning(x.store.tasks, t) ==> x.store.tasks[t].kind != kind
    ensures SafeMove(x, x.(store := PutLock(x.store, kind, lock)), None)
  {
    LocksSafe(x, x.store.locks[kind := lock], None);
  }

  /** Releasing is safe for a runner that is not running the task. */
  lemma ReleaseSafe(x: World, id: TaskId, r: Runner, mover: Option<Runner>)
    requires WorldOk(x) && id in x.store.tasks
    requires IsRunning(x.store.tasks, id) ==> x.store.tasks[id].lockedBy != Some(r)
    requires mover == Some(r) || (mover == None && x.store.tasks[id].lockedBy == Some(r))
    ensures SafeMove(x, x.(store := ReleaseLock(x.store, id, r)), mover)
  {
    LocksSafe(x, ReleaseLock(x.store, id, r).locks, mover);
  }

  lemma RenewSafe(x: World, op: Op)
    requires WorldOk(x) && op.RenewOp? && OpOk(x, op)
    ensures SafeMove(x, x.(store := RenewRows(x.store, op.id, op.runner, op.now, op.until)), None)
  {
    LocksSafe(x, RenewRows(x.store, op.id, op.runner, op.now, op.until).locks, None);
  }

  lemma DeleteStaleSafe(x: World, kind: TaskType, lock: Lock, now: int)
    requires WorldOk(x) && now <= x.clock
    requires IsRunning(x.store.tasks, lock.taskId) ==> lock.taskId in x.startedAt && x.startedAt[lock.taskId] >= now
    ensures SafeMove(x, x.(store := DeleteStaleLock(x.store, kind, lock, now)), None)
  {
    LocksSafe(x, DeleteStaleLock(x.store, kind, lock, now).locks, None);
  }

  // ---------- the invariant survives every step ----------

  /** An expired row is never the lease of a running task of the claim's type: the step that would displace one cannot occur. */
  lemma NothingRunsBehindExpiredLock(x: World, c: Claim)
    requires WorldOk(x) && SinceRead(x, c) && CanTakeOver(x.store, c.kind, c.now)
    ensures forall t :: IsRunning(x.store.tasks, t) ==> x.store.tasks[t].kind != c.kind
    ensures x.store.locks[c.kind].taskId != c.id ==> Terminal(x.store.tasks[x.store.locks[c.kind].taskId])
  {
  }

  /** The claim that moved is well placed again, whichever statement it ran. */
  lemma OwnClaimOk(x: World, r: Runner, c: Claim)
    requires WorldOk(x) && ClaimOk(x, r, c)
    requires c.pc == Ready ==> x.clock <= c.until
    ensures var (x', c') := AdvanceClaim(x, r, c); c'.Some? ==> ClaimOk(x', r, c'.value)
  {
    var (x', c') := AdvanceClaim(x, r, c);
    if c'.Some? && HasSelected(c'.value) {
      assert SinceRead(x', c'.value);
      if c.pc == Conflicted {
        NothingRunsBehindExpiredLock(x, c);
      }
    }
  }

  lemma ClaimWorldSafe(x: World, r: Runner, c: Claim)
    requires WorldOk(x) && ClaimOk(x, r, c) && c.pc != Won
    requires c.pc == Ready ==> x.clock <= c.until
    ensures SafeMove(x, AdvanceClaim(x, r, c).0, Some(r))
  {
    match c.pc
    case Selected => if c.kind !in x.store.locks { PutLockSafe(x, c.kind, Lock(c.id, r, c.until)); }
    case SawExpired =>
      if CanTakeOver(x.store, c.kind, c.now) {
        NothingRunsBehindExpiredLock(x, c);
        PutLockSafe(x, c.kind, Lock(c.id, r, c.until));
      }
    case Acquired => if c.expired.Some? { MarkExpiredSafe(x, c.expired.value); }
    case Ready => if IsPending(x.store, c.id, c.kind) { MarkRunningSafe(x, c.id, c.kind, r, c.until); }
    case Losing => ReleaseSafe(x, c.id, r, Some(r));
    case _ =>
  }

  /** A safe statement keeps the invariant when the operation that ran it is well placed again. */
  lemma SafeMoveKeepsInv(y: System, y': System, mover: Option<Runner>)
    requires Inv(y) && SafeMove(y.x, y'.x, mover)
    requires forall r :: r in y'.claims ==> ClaimOk(y'.x, r, y'.claims[r]) || (r in y.claims && y'.claims[r] == y.claims[r] && mover != Some(r))
    requires forall n :: n in y'.ops ==> OpOk(y'.x, y'.ops[n]) || (n in y.ops && y'.ops[n] == y.ops[n])
    requires forall n :: n in y'.sweeps ==> SweepOk(y'.x, y'.sweeps[n]) || (n in y.sweeps && y'.sweeps[n] == y.sweeps[n])
    ensures Inv(y')
  {
    OthersKept(y, y'.x, mover);
  }

  lemma ClaimStepKeepsInv(y: System, r: Runner)
    requires Inv(y) && r in y.claims && Timely(y, ClaimStep(r))
    ensures Inv(Apply(y, ClaimStep(r)))
  {
    var c := y.claims[r];
    if c.pc == Won {
      ReturnKeepsInv(y, r);
    } else {
      OwnClaimOk(y.x, r, c);
      ClaimWorldSafe(y.x, r, c);
      SafeMoveKeepsInv(y, Apply(y, ClaimStep(r)), Some(r));
    }
  }

  lemma RecordWin(x: World, r: Runner, c: Claim)
    requires WorldOk(x) && ClaimOk(x, r, c) && c.pc == Won
    ensures var x' := AdvanceClaim(x, r, c).0;
      WorldOk(x') && TasksMove(x, x') && UnstartedLeasesStay(x, x', Some(r)) && x'.won == x.won + [(c.id, r)]
  {
  }

  /** The task just won is not another claim's. */
  lemma WinIsNotAnothers(x: World, x': World, r: Runner, c: Claim, q: Runner, d: Claim)
    requires ClaimOk(x, r, c) && c.pc == Won && ClaimOk(x, q, d) && q != r && x'.won == x.won + [(c.id, r)]
    ensures d.pc == Won ==> !Returned(x', d.id)
    ensures HasSelected(d) ==> x.store.tasks[d.id].lockedBy != Some(q)
  {
  }

  /** A claim returning true records the task's first and only success. */
  lemma ReturnKeepsInv(y: System, r: Runner)
    requires Inv(y) && r in y.claims && y.claims[r].pc == Won
    ensures Inv(Apply(y, ClaimStep(r)))
  {
    hide WorldOk, OpOk, SweepOk, TasksMove, UnstartedLeasesStay;
    var c := y.claims[r];
    var x' := AdvanceClaim(y.x, r, c).0;
    RecordWin(y.x, r, c);
    forall q | q in y.claims && q != r ensures ClaimOk(x', q, y.claims[q]) {
      WinIsNotAnothers(y.x, x', r, c, q, y.claims[q]);
      ClaimKept(y.x, x', Some(r), q, y.claims[q]);
    }
    forall n | n in y.ops ensures OpOk(x', y.ops[n]) { OpKept(y.x, x', y.ops[n]); }
    forall n | n in y.sweeps ensures SweepOk(x', y.sweeps[n]) { SweepKept(y.x, x', y.sweeps[n]); }
  }

  lemma OpWorldSafe(x: World, op: Op)
    requires WorldOk(x) && OpOk(x, op)
    ensures var (x', op') := AdvanceOp(x, op); SafeMove(x, x', None) && (op'.Some? ==> OpOk(x', op'.value))
  {
    match op {
      case UpdateOp(id, r, now, text) => WriteStateSafe(x, id, r, now, text);
      case RenewOp(_, _, _, _) => RenewSafe(x, op);
      case FinishOp(id, r, now, status, result, error) => FinishRowSafe(x, id, r, now, status, result, error);
      case ReleaseOp(id, r) => ReleaseSafe(x, id, r, None);
    }
  }

  lemma OpStepKeepsInv(y: System, n: nat)
    requires Inv(y) && n in y.ops
    ensures Inv(Apply(y, OpStep(n)))
  {
    hide WorldOk, OpOk, ClaimOk, SweepOk, SafeMove, AdvanceOp;
    OpWorldSafe(y.x, y.ops[n]);
    SafeMoveKeepsInv(y, Apply(y, OpStep(n)), None);
  }

  lemma SweepWorldSafe(x: World, w: Sweep)
    requires WorldOk(x) && SweepOk(x, w)
    ensures var (x', w') := AdvanceSweep(x, w); SafeMove(x, x', None) && (w'.Some? ==> SweepOk(x', w'.value))
  {
    if w.rows != [] {
      if w.marked {
        DeleteStaleSafe(x, w.rows[0].0, w.rows[0].1, w.now);
      } else {
        MarkExpiredSafe(x, w.rows[0].1.taskId);
      }
    }
  }

  lemma SweepStepKeepsInv(y: System, n: nat)
    requires Inv(y) && n in y.sweeps && y.sweeps[n].read
    ensures Inv(Apply(y, SweepStep(n)))
  {
    hide WorldOk, OpOk, ClaimOk, SweepOk, SafeMove, AdvanceSweep;
    SweepWorldSafe(y.x, y.sweeps[n]);
    SafeMoveKeepsInv(y, Apply(y, SweepStep(n)), None);
  }

  lemma FailClaimOk(x: World, r: Runner, c: Claim)
    requires ClaimOk(x, r, c) && FailClaim(c).Some?
    ensures ClaimOk(x, r, FailClaim(c).value)
  {
    assert SinceRead(x, FailClaim(c).value);
  }

  lemma BeginOpOk(x: World, op: Op)
    requires WorldOk(x) && CallerMayBegin(x, op)
    ensures OpOk(x, op)
  {
  }

  lemma BeginClaimOk(x: World, r: Runner, id: TaskId, kind: TaskType, until: int)
    requires WorldOk(x) && id in x.store.tasks && until >= x.clock
    ensures ClaimOk(x, r, Claim(Began, id, kind, x.clock, until, None))
  {
  }

  lemma CreateKeepsInv(y: System, id: TaskId, kind: TaskType, state: string)
    requires Inv(y)
    ensures Inv(y.(x := CreateTask(y.x, id, kind, state)))
  {
    CreateSafe(y.x, id, kind, state);
    SafeMoveKeepsInv(y, y.(x := CreateTask(y.x, id, kind, state)), None);
  }

  predicate Quiet(a: Action) {
    a.BeginClaim? || a.ClaimError? || a.ClaimCrash? || a.BeginOp? || a.OpLost? || a.BeginSweep? || a.SweepRead? || a.SweepLost?
  }

  /** Steps that touch neither table. */
  lemma QuietStepKeepsInv(y: System, a: Action)
    requires Inv(y) && Enabled(y, a) && Quiet(a)
    ensures Inv(Apply(y, a))
  {
    hide WorldOk, OpOk, ClaimOk, FailClaim, CallerMayBegin;
    if a.BeginClaim? {
      BeginClaimOk(y.x, a.runner, a.id, a.kind, a.until);
    } else if a.ClaimError? && FailClaim(y.claims[a.runner]).Some? {
      FailClaimOk(y.x, a.runner, y.claims[a.runner]);
    } else if a.BeginOp? {
      BeginOpOk(y.x, a.op);
    }
  }

  lemma StepKeepsInv(y: System, a: Action, y': System)
    requires Inv(y) && Step(y, a, y')
    ensures Inv(y')
  {
    if Quiet(a) {
      QuietStepKeepsInv(y, a);
    } else {
      match a
      case Tick(to) => TickOk(y, to);
      case Create(id, kind, state) => CreateKeepsInv(y, id, kind, state);
      case ClaimStep(r) => ClaimStepKeepsInv(y, r);
      case OpStep(n) => OpStepKeepsInv(y, n);
      case SweepStep(n) => SweepStepKeepsInv(y, n);
    }
  }

  /** Every state of every run satisfies the invariant. */
  lemma {:induction false} RunKeepsInv(ys: seq<System>, i: nat)
    requires Run(ys) && i < |ys|
    ensures Inv(ys[i])
  {
    if i > 0 {
      RunKeepsInv(ys, i - 1);
      assert Follows(ys[i - 1], ys[i - 1 + 1]);
      var a :| Step(ys[i - 1], a, ys[i]);
      StepKeepsInv(ys[i - 1], a, ys[i]);
    }
  }
}
