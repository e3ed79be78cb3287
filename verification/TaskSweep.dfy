/**
 When ExpireStaleSystemTaskLocks (model/system_task.go) fails a running task whose lease is alive: only if,
 since it read the lock rows, that task was started or its lease renewed.
 */
module TaskSweep {
  import opened Options
  import opened TaskTables
  import opened TaskProtocol
  import opened TaskGuarantees

  predicate RowIn(s: Store, row: (TaskType, Lock), clock: int) {
    row.0 in s.locks && s.locks[row.0] == row.1 && row.1.lockedUntil < clock
  }

  /** In the step from state `i` sweep `n` read the lock rows, this one among them. */
  ghost predicate ReadAt(ys: seq<System>, i: nat, n: nat, row: (TaskType, Lock)) {
    && i + 1 < |ys| && n in ys[i].sweeps && !ys[i].sweeps[n].read
    && n in ys[i + 1].sweeps && ys[i + 1].sweeps[n].read && row in ys[i + 1].sweeps[n].rows
    && RowIn(ys[i].x.store, row, ys[i].x.clock)
  }

  /** A row a sweep still has to process was there before this step, or is read by it and was in the table, expired. */
  lemma RowsAreRead(y: System, a: Action, y': System, n: nat, row: (TaskType, Lock))
    requires Step(y, a, y') && n in y'.sweeps && y'.sweeps[n].read && row in y'.sweeps[n].rows
    requires forall m :: m in y.sweeps ==> y.sweeps[m].now <= y.x.clock
    ensures n in y.sweeps
    ensures if y.sweeps[n].read then row in y.sweeps[n].rows else RowIn(y.x.store, row, y.x.clock)
  {
    if a.SweepStep? && a.slot == n {
      var rows := y.sweeps[n].rows;
      assert forall r :: r in rows[1..] ==> r in rows;
    }
  }

  /** Every row that a sweep has to process was read at some state of the run, where it was in the table and expired. */
  lemma {:induction false} RowsWereRead(ys: seq<System>, j: nat, n: nat, row: (TaskType, Lock)) returns (i: nat)
    requires Run(ys) && j < |ys| && n in ys[j].sweeps && ys[j].sweeps[n].read && row in ys[j].sweeps[n].rows
    ensures i < j && ReadAt(ys, i, n, row)
  {
    hide WorldOk, ClaimOk, OpOk, RowIn;
    i := 0;
    if j > 0 {
      RunKeepsInv(ys, j - 1);
      assert Follows(ys[j - 1], ys[j - 1 + 1]);
      var a :| Step(ys[j - 1], a, ys[j]);
      RowsAreRead(ys[j - 1], a, ys[j], n, row);
      if ys[j - 1].sweeps[n].read {
        i := RowsWereRead(ys, j - 1, n, row);
      } else {
        i := j - 1;
      }
    }
  }

  predicate Live(s: Store, t: TaskId, clock: int) {
    t in s.tasks && s.tasks[t].kind in s.locks && s.locks[s.tasks[t].kind].taskId == t && s.locks[s.tasks[t].kind].lockedUntil >= clock
  }

  /** The step is a renewal of this task that takes effect. */
  predicate Renews(y: System, a: Action, t: TaskId) {
    a.OpStep? && a.slot in y.ops && y.ops[a.slot].RenewOp? && y.ops[a.slot].id == t && OpTakesEffect(y.x.store, y.ops[a.slot])
  }

  lemma ClaimRevivesNone(x: World, r: Runner, c: Claim, t: TaskId)
    requires WorldOk(x) && ClaimOk(x, r, c) && IsRunning(x.store.tasks, t) && !Live(x.store, t, x.clock)
    ensures !Live(AdvanceClaim(x, r, c).0.store, t, x.clock) && AdvanceClaim(x, r, c).0.clock == x.clock
  {
    if c.pc == SawExpired && CanTakeOver(x.store, c.kind, c.now) {
      NothingRunsBehindExpiredLock(x, c);
    }
  }

  lemma OpRevives(x: World, op: Op, t: TaskId)
    requires WorldOk(x) && OpOk(x, op) && IsRunning(x.store.tasks, t) && !Live(x.store, t, x.clock)
    requires Live(AdvanceOp(x, op).0.store, t, AdvanceOp(x, op).0.clock)
    ensures op.RenewOp? && op.id == t && OpTakesEffect(x.store, op)
  {
  }

  lemma SweepRevivesNone(x: World, w: Sweep, t: TaskId)
    requires IsRunning(x.store.tasks, t) && !Live(x.store, t, x.clock)
    ensures !Live(AdvanceSweep(x, w).0.store, t, x.clock) && AdvanceSweep(x, w).0.clock == x.clock
  {
  }

  /** Only an effective renewal brings the dead lease of a running task back to life. */
  lemma StepRevives(y: System, a: Action, y': System, t: TaskId)
    requires Inv(y) && Step(y, a, y') && IsRunning(y.x.store.tasks, t)
    requires !Live(y.x.store, t, y.x.clock) && Live(y'.x.store, t, y'.x.clock)
    ensures Renews(y, a, t)
  {
    hide WorldOk, ClaimOk, OpOk, AdvanceClaim, AdvanceOp, AdvanceSweep;
    match a
    case ClaimStep(r) => ClaimRevivesNone(y.x, r, y.claims[r], t);
    case OpStep(n) => OpRevives(y.x, y.ops[n], t);
    case SweepStep(n) => SweepRevivesNone(y.x, y.sweeps[n], t);
    case _ =>
  }

  /** The step from state `m` starts the task, or is an effective renewal of its lease. */
  ghost predicate StartedOrRenewedAt(ys: seq<System>, m: nat, t: TaskId) {
    && m + 1 < |ys|
    && ((!IsRunning(ys[m].x.store.tasks, t) && IsRunning(ys[m + 1].x.store.tasks, t))
        || exists a :: Step(ys[m], a, ys[m + 1]) && Renews(ys[m], a, t))
  }

  /** A task that is running on a live lease, though its lock row had expired before, was started or renewed in between. */
  lemma {:induction false} RevivedInBetween(ys: seq<System>, i: nat, j: nat, row: (TaskType, Lock)) returns (m: nat)
    requires Run(ys) && i <= j < |ys| && RowIn(ys[i].x.store, row, ys[i].x.clock)
    requires IsRunning(ys[j].x.store.tasks, row.1.taskId) && Live(ys[j].x.store, row.1.taskId, ys[j].x.clock)
    ensures i <= m < j && StartedOrRenewedAt(ys, m, row.1.taskId)
    decreases j
  {
    hide WorldOk, ClaimOk, OpOk, SweepOk, Step, Live, RowIn, Renews;
    var t := row.1.taskId;
    RunKeepsInv(ys, i);
    ExpiredRowIsNotLive(ys[i].x, row);
    if i < j {
      m := j - 1;
      if IsRunning(ys[j - 1].x.store.tasks, t) {
        if Live(ys[j - 1].x.store, t, ys[j - 1].x.clock) {
          m := RevivedInBetween(ys, i, j - 1, row);
        } else {
          RunKeepsInv(ys, j - 1);
          assert Follows(ys[j - 1], ys[j - 1 + 1]);
          var a :| Step(ys[j - 1], a, ys[j]);
          StepRevives(ys[j - 1], a, ys[j], t);
        }
      }
    }
  }

  lemma ExpiredRowIsNotLive(x: World, row: (TaskType, Lock))
    requires WorldOk(x) && RowIn(x.store, row, x.clock)
    ensures !Live(x.store, row.1.taskId, x.clock)
  {
  }

  /** When a sweep fails a running task whose lease is alive, the task was started, or its lease renewed, after the sweep read the row. */
  lemma SweepFailsLiveTaskOnlyIfRevived(ys: seq<System>, j: nat, n: nat) returns (i: nat, m: nat)
    requires Run(ys) && j < |ys| && n in ys[j].sweeps && ys[j].sweeps[n].read && ys[j].sweeps[n].rows != []
    requires var t := ys[j].sweeps[n].rows[0].1.taskId; IsRunning(ys[j].x.store.tasks, t) && Live(ys[j].x.store, t, ys[j].x.clock)
    ensures ReadAt(ys, i, n, ys[j].sweeps[n].rows[0])
    ensures i <= m < j && StartedOrRenewedAt(ys, m, ys[j].sweeps[n].rows[0].1.taskId)
  {
    hide Run, Live;
    var row := ys[j].sweeps[n].rows[0];
    i := RowsWereRead(ys, j, n, row);
    m := RevivedInBetween(ys, i, j, row);
  }
}
