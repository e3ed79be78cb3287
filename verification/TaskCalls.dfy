/**
 Whole calls of model/system_task.go in TaskProtocol: what the statements of one call do run back to back, and
 what becomes of a call's later statements when others run in between.
 */
module TaskCalls {
  import opened Options
  import opened TaskTables
  import opened TaskProtocol
  import opened TaskGuarantees
  import opened TaskStore

  // ---------- update, renewal, finish ----------

  /** The statements of one call, back to back until it returns. */
  function OpToEnd(x: World, op: Op): World
    decreases if op.FinishOp? then 1 else 0
  {
    var (x', op') := AdvanceOp(x, op);
    if op'.Some? then OpToEnd(x', op'.value) else x'
  }

  /** The lock rows without those that name the task and the runner. */
  ghost predicate Released(locks: Locks, locks': Locks, id: TaskId, r: Runner) {
    && (forall k :: k in locks' <==> k in locks && !(locks[k].taskId == id && locks[k].lockedBy == r))
    && (forall k :: k in locks' ==> locks'[k] == locks[k])
  }

  ghost predicate OthersStay(tasks: Tasks, tasks': Tasks, id: TaskId) {
    tasks'.Keys == tasks.Keys && forall t :: t in tasks && t != id ==> tasks'[t] == tasks[t]
  }

  ghost predicate FinishEffect(s: Store, op: Op, tasks': Tasks)
    requires op.FinishOp? && op.id in s.tasks
  {
    && OthersStay(s.tasks, tasks', op.id)
    && tasks'[op.id].status == op.status && tasks'[op.id].result == op.result && tasks'[op.id].error == op.error
    && tasks'[op.id].activeKey == None && tasks'[op.id].state == s.tasks[op.id].state
    && tasks'[op.id].kind == s.tasks[op.id].kind && tasks'[op.id].lockedBy == s.tasks[op.id].lockedBy
    && tasks'[op.id].createdAt == s.tasks[op.id].createdAt
  }

  /** A finish that nothing interrupts writes its outcome into the row and removes the lease, or does nothing. */
  lemma UninterruptedFinish(x: World, op: Op)
    requires op.FinishOp?
    ensures var x' := OpToEnd(x, op);
      && x' == x.(store := x'.store)
      && (!MayWrite(x.store, op.id, op.runner, op.now) ==> x' == x)
      && (MayWrite(x.store, op.id, op.runner, op.now) ==>
            FinishEffect(x.store, op, x'.store.tasks) && Released(x.store.locks, x'.store.locks, op.id, op.runner))
  {
    var (x1, op1) := AdvanceOp(x, op);
    if op1.Some? {
      assert OpToEnd(x, op) == OpToEnd(x1, op1.value) == AdvanceOp(x1, op1.value).0;
    }
  }

  /** A state update is one statement: it writes the state of a row whose lease is held, and nothing else. */
  lemma UninterruptedUpdate(x: World, op: Op)
    requires op.UpdateOp?
    ensures var x' := OpToEnd(x, op);
      && x' == x.(store := x'.store) && x'.store.locks == x.store.locks
      && (!MayWrite(x.store, op.id, op.runner, op.now) ==> x' == x)
      && (MayWrite(x.store, op.id, op.runner, op.now) ==>
            OthersStay(x.store.tasks, x'.store.tasks, op.id) && x'.store.tasks[op.id] == x.store.tasks[op.id].(state := op.state))
  {
  }

  /** A renewal is one statement: it moves the end of the rows that name task and runner and have not run out, and nothing else. */
  lemma UninterruptedRenewal(x: World, op: Op)
    requires op.RenewOp?
    ensures var x' := OpToEnd(x, op);
      && x' == x.(store := x'.store) && x'.store.tasks == x.store.tasks && x'.store.locks.Keys == x.store.locks.Keys
      && forall k :: k in x.store.locks ==>
           var l := x.store.locks[k];
           x'.store.locks[k] == if l.taskId == op.id && l.lockedBy == op.runner && l.lockedUntil >= op.now then l.(lockedUntil := op.until) else l
  {
  }

  /** The step from state `m` is this one. */
  ghost predicate StepBy(ys: seq<System>, m: nat, a: Action) {
    m + 1 < |ys| && Step(ys[m], a, ys[m + 1])
  }

  /** In the step from state `m` the call releases: no lock row names the task and runner any more. */
  ghost predicate ReleasesAt(ys: seq<System>, m: nat, n: nat, id: TaskId, r: Runner) {
    StepBy(ys, m, OpStep(n)) && Released(ys[m].x.store.locks, ys[m + 1].x.store.locks, id, r)
  }

  /** A finish that takes effect writes its outcome, and goes on to its release. */
  lemma FinishStep(y: System, n: nat)
    requires n in y.ops && y.ops[n].FinishOp? && MayWrite(y.x.store, y.ops[n].id, y.ops[n].runner, y.ops[n].now)
    ensures var y' := Apply(y, OpStep(n));
      && FinishEffect(y.x.store, y.ops[n], y'.x.store.tasks) && y'.x.store.locks == y.x.store.locks
      && n in y'.ops && y'.ops[n] == ReleaseOp(y.ops[n].id, y.ops[n].runner)
  {
  }

  lemma ReleaseStays(y: System, a: Action, n: nat)
    requires Enabled(y, a) && n in y.ops && y.ops[n].ReleaseOp? && a != OpStep(n) && a != OpLost(n)
    ensures n in Apply(y, a).ops && Apply(y, a).ops[n] == y.ops[n]
  {
    hide AdvanceClaim, AdvanceOp, AdvanceSweep, CreateTask;
  }

  lemma ReleaseReleases(y: System, n: nat)
    requires n in y.ops && y.ops[n].ReleaseOp?
    ensures Released(y.x.store.locks, Apply(y, OpStep(n)).x.store.locks, y.ops[n].id, y.ops[n].runner)
  {
  }

  /**
   Over runs: once a finish took effect its release is still to come, or has been made, or was lost.
   */
  lemma {:induction false} FinishIsReleased(ys: seq<System>, i: nat, j: nat, n: nat) returns (m: nat)
    requires Run(ys) && i < j < |ys| && StepBy(ys, i, OpStep(n)) && n in ys[i].ops && ys[i].ops[n].FinishOp?
    requires MayWrite(ys[i].x.store, ys[i].ops[n].id, ys[i].ops[n].runner, ys[i].ops[n].now)
    ensures var op := ys[i].ops[n];
      || (m == j && n in ys[j].ops && ys[j].ops[n] == ReleaseOp(op.id, op.runner))
      || (i < m < j && (ReleasesAt(ys, m, n, op.id, op.runner) || StepBy(ys, m, OpLost(n))))
    decreases j
  {
    hide Step, Apply, Released, MayWrite, Enabled, Timely;
    if j == i + 1 {
      StepIs(ys[i], OpStep(n), ys[j]);
      FinishStep(ys[i], n);
      m := j;
    } else {
      m := FinishIsReleased(ys, i, j - 1, n);
      if m == j - 1 {
        assert Follows(ys[j - 1], ys[j - 1 + 1]);
        var a :| Step(ys[j - 1], a, ys[j]);
        StepIs(ys[j - 1], a, ys[j]);
        if a == OpStep(n) {
          ReleaseReleases(ys[j - 1], n);
        } else if a != OpLost(n) {
          ReleaseStays(ys[j - 1], a, n);
          m := j;
        }
      }
    }
  }

  lemma StepIs(y: System, a: Action, y': System)
    requires Step(y, a, y')
    ensures Enabled(y, a) && y' == Apply(y, a)
  {
  }

  // ---------- claims that meet an error ----------

  /** A claim that holds the lock row and meets an error goes on to release it, and does not return true. */
  lemma FailedClaimReleases(x: World, r: Runner, c: Claim)
    requires c.pc == Acquired || c.pc == Ready
    ensures FailClaim(c).Some?
    ensures var x' := ClaimToEnd(x, r, FailClaim(c).value);
      x' == x.(store := x'.store) && x'.store.tasks == x.store.tasks && Released(x.store.locks, x'.store.locks, c.id, r)
  {
    var c1 := FailClaim(c).value;
    var (x', c') := AdvanceClaim(x, r, c1);
    assert ClaimToEnd(x, r, c1) == x';
  }

  /** One whose insert met an error looks for a row in the way: with none it changes nothing, with one it goes on as if the row had stopped it. */
  lemma FailedInsertLooks(x: World, r: Runner, c: Claim)
    requires c.pc == Selected
    ensures FailClaim(c).Some?
    ensures ClaimToEnd(x, r, FailClaim(c).value) == if c.kind in x.store.locks then ClaimToEnd(x, r, c) else x
  {
  }

  /** Any other error ends the call. */
  lemma OtherErrorsEndTheCall(c: Claim)
    ensures FailClaim(c) == None <==> c.pc !in [Selected, Acquired, Ready]
  {
  }

  predicate HoldsRow(c: Claim) {
    c.pc == Acquired || c.pc == Ready || c.pc == Losing || c.pc == Won
  }

  /**
   In the step from state `m` a claim that had put its lock row ends: it returns true, or it has released the row, or the
   statement that was to do so failed, or the runner crashed.
   */
  ghost predicate EndsAt(ys: seq<System>, m: nat, r: Runner, id: TaskId)
    requires m < |ys| && r in ys[m].claims
  {
    var pc := ys[m].claims[r].pc;
    || (StepBy(ys, m, ClaimStep(r)) && pc == Won && ys[m + 1].x.won == ys[m].x.won + [(id, r)])
    || (StepBy(ys, m, ClaimStep(r)) && pc == Losing && Released(ys[m].x.store.locks, ys[m + 1].x.store.locks, id, r))
    || (StepBy(ys, m, ClaimError(r)) && (pc == Losing || pc == Won))
    || StepBy(ys, m, ClaimCrash(r))
  }

  ghost predicate InFlight(y: System, r: Runner, id: TaskId) {
    r in y.claims && y.claims[r].id == id && HoldsRow(y.claims[r])
  }

  lemma ClaimGoesOn(ys: seq<System>, m: nat, a: Action, r: Runner, id: TaskId)
    requires StepBy(ys, m, a) && InFlight(ys[m], r, id)
    ensures InFlight(ys[m + 1], r, id) || EndsAt(ys, m, r, id)
  {
    hide AdvanceOp, AdvanceSweep, CreateTask, MarkRunning, MarkLeaseExpired;
  }

  /** Over runs: a claim that has put its lock row is still in flight, or has ended in one of those ways. */
  lemma {:induction false} ClaimIsResolved(ys: seq<System>, i: nat, j: nat, r: Runner) returns (m: nat)
    requires Run(ys) && i <= j < |ys| && r in ys[i].claims && HoldsRow(ys[i].claims[r])
    ensures var id := ys[i].claims[r].id;
      || (m == j && InFlight(ys[j], r, id))
      || (i <= m < j && InFlight(ys[m], r, id) && EndsAt(ys, m, r, id))
    decreases j
  {
    hide Step, EndsAt;
    m := j;
    if i < j {
      m := ClaimIsResolved(ys, i, j - 1, r);
      if m == j - 1 {
        assert Follows(ys[j - 1], ys[j - 1 + 1]);
        var a :| Step(ys[j - 1], a, ys[j]);
        ClaimGoesOn(ys, j - 1, a, r, ys[i].claims[r].id);
        if InFlight(ys[j], r, ys[i].claims[r].id) { m := j; }
      }
    }
  }

  /** In flight: an error at the insert leads to the look at the row in the way, one while the row is held to its release, and any other ends the call. */
  lemma ErrorStep(y: System, r: Runner)
    requires r in y.claims
    ensures var c := y.claims[r]; var y' := Apply(y, ClaimError(r));
      && y'.x == y.x
      && (if c.pc == Selected then r in y'.claims && y'.claims[r] == c.(pc := Conflicted)
          else if c.pc == Acquired || c.pc == Ready then r in y'.claims && y'.claims[r] == c.(pc := Losing)
          else r !in y'.claims)
  {
  }

  // ---------- the sweep ----------

  /** A running task whose lease is marked expired fails with that error and gives up its key; any other row stays. */
  lemma MarkedTaskReads(s: Store, id: TaskId)
    ensures var s' := MarkLeaseExpired(s, id);
      && s'.locks == s.locks && s'.tasks.Keys == s.tasks.Keys && (forall t :: t in s.tasks && t != id ==> s'.tasks[t] == s.tasks[t])
      && (id in s.tasks ==>
            var t, t' := s.tasks[id], s'.tasks[id];
            if t.status == Running
            then t' == Task(t.kind, Failed, None, t.lockedBy, t.state, t.result, "task lease expired", t.createdAt)
            else t' == t)
  {
  }

  /** The statements of one sweep, back to back until it returns. */
  function SweepToEnd(x: World, w: Sweep): World
    decreases |w.rows|, if w.marked then 0 else 1
  {
    var (x', w') := AdvanceSweep(x, w);
    if w'.Some? then SweepToEnd(x', w'.value) else x'
  }

  function TasksOf(rows: seq<(TaskType, Lock)>): set<TaskId> {
    set i | 0 <= i < |rows| :: rows[i].1.taskId
  }

  function TypesOf(rows: seq<(TaskType, Lock)>): set<TaskType> {
    set i | 0 <= i < |rows| :: rows[i].0
  }

  lemma RowsCons(rows: seq<(TaskType, Lock)>)
    requires rows != []
    ensures TasksOf(rows) == {rows[0].1.taskId} + TasksOf(rows[1..]) && TypesOf(rows) == {rows[0].0} + TypesOf(rows[1..])
  {
    forall t | t in TasksOf(rows) ensures t in {rows[0].1.taskId} + TasksOf(rows[1..]) {
      var i :| 0 <= i < |rows| && rows[i].1.taskId == t;
      if i > 0 { assert rows[1..][i - 1] == rows[i]; }
    }
    forall k | k in TypesOf(rows) ensures k in {rows[0].0} + TypesOf(rows[1..]) {
      var i :| 0 <= i < |rows| && rows[i].0 == k;
      if i > 0 { assert rows[1..][i - 1] == rows[i]; }
    }
    forall i | 0 <= i < |rows| - 1 ensures rows[1..][i].1.taskId in TasksOf(rows) && rows[1..][i].0 in TypesOf(rows) {
      assert rows[1..][i] == rows[i + 1];
    }
  }

  /** The table once the tasks in `failed` were marked and the rows of the types in `gone` deleted. */
  function Swept(s: Store, failed: set<TaskId>, gone: set<TaskType>): Store {
    Store(FailRunning(s.tasks, failed), map k | k in s.locks && k !in gone :: s.locks[k])
  }

  predicate RowsExpired(s: Store, now: int, rows: seq<(TaskType, Lock)>) {
    forall i :: 0 <= i < |rows| ==> rows[i].0 in s.locks && s.locks[rows[i].0] == rows[i].1 && rows[i].1.lockedUntil < now
  }

  lemma OneRow(s: Store, now: int, failed: set<TaskId>, gone: set<TaskType>, row: (TaskType, Lock))
    requires row.0 in s.locks && s.locks[row.0] == row.1 && row.1.lockedUntil < now
    ensures DeleteStaleLock(MarkLeaseExpired(Swept(s, failed, gone), row.1.taskId), row.0, row.1, now)
      == Swept(s, failed + {row.1.taskId}, gone + {row.0})
  {
    FailOneMore(Swept(s, failed, gone), s.tasks, failed, row.1.taskId);
    var s' := DeleteStaleLock(MarkLeaseExpired(Swept(s, failed, gone), row.1.taskId), row.0, row.1, now);
    assert s'.locks == Swept(s, failed + {row.1.taskId}, gone + {row.0}).locks;
  }

  lemma {:induction false} SweepRest(s: Store, x: World, now: int, rows: seq<(TaskType, Lock)>, failed: set<TaskId>, gone: set<TaskType>)
    requires x.store == Swept(s, failed, gone) && RowsExpired(s, now, rows)
    ensures SweepToEnd(x, Sweep(now, true, rows, false)) == x.(store := Swept(s, failed + TasksOf(rows), gone + TypesOf(rows)))
    decreases |rows|
  {
    hide Swept, MarkLeaseExpired, DeleteStaleLock;
    if rows == [] {
      assert failed + TasksOf(rows) == failed && gone + TypesOf(rows) == gone;
    } else {
      var row, rest := rows[0], rows[1..];
      var x1 := x.(store := MarkLeaseExpired(x.store, row.1.taskId));
      var x2 := x.(store := DeleteStaleLock(x1.store, row.0, row.1, now));
      assert SweepToEnd(x, Sweep(now, true, rows, false)) == SweepToEnd(x1, Sweep(now, true, rows, true));
      assert SweepToEnd(x1, Sweep(now, true, rows, true)) == SweepToEnd(x2, Sweep(now, true, rest, false));
      OneRow(s, now, failed, gone, row);
      SweepRest(s, x2, now, rest, failed + {row.1.taskId}, gone + {row.0});
      RowsCons(rows);
      assert failed + {row.1.taskId} + TasksOf(rest) == failed + TasksOf(rows);
      assert gone + {row.0} + TypesOf(rest) == gone + TypesOf(rows);
    }
  }

  /** A sweep that nothing interrupts fails exactly the running tasks named by expired rows and deletes exactly those rows. */
  lemma UninterruptedSweep(x: World, now: int, rows: seq<(TaskType, Lock)>)
    requires ExpiredRows(x.store, now, rows)
    ensures var x' := SweepToEnd(x, Sweep(now, true, rows, false));
      x' == x.(store := x'.store) && SweepEffect(x.store, now, x'.store)
  {
    hide SweepEffect;
    var s := x.store;
    assert Swept(s, {}, {}) == s;
    assert RowsExpired(s, now, rows) by {
      forall i | 0 <= i < |rows| ensures rows[i] in rows {
      }
    }
    SweepRest(s, x, now, rows, {}, {});
    AllExpired(s, now, rows);
    assert {} + TasksOf(rows) == TasksOf(rows) && {} + TypesOf(rows) == TypesOf(rows);
    AllSwept(s, now, Swept(s, TasksOf(rows), TypesOf(rows)), TasksOf(rows));
  }

  lemma AllExpired(s: Store, now: int, rows: seq<(TaskType, Lock)>)
    requires ExpiredRows(s, now, rows)
    ensures forall k :: k in TypesOf(rows) <==> Expired(s.locks, k, now)
    ensures forall k :: Expired(s.locks, k, now) ==> s.locks[k].taskId in TasksOf(rows)
    ensures forall t :: t in TasksOf(rows) ==> ExpiredFor(s.locks, t, now)
  {
    forall k | Expired(s.locks, k, now) ensures k in TypesOf(rows) && s.locks[k].taskId in TasksOf(rows) {
      assert CanTakeOver(s, k, now);
      var i :| 0 <= i < |rows| && rows[i] == (k, s.locks[k]);
      assert rows[i].0 == k && rows[i].1.taskId == s.locks[k].taskId;
    }
    forall i | 0 <= i < |rows| ensures Expired(s.locks, rows[i].0, now) && s.locks[rows[i].0] == rows[i].1 {
      assert rows[i] in rows;
    }
  }

  /** With others in between, the deletion still removes the row it read exactly if it names the same task and runner and has run out. */
  lemma SweepDeletesOnlyItsRow(x: World, w: Sweep, k: TaskType)
    requires w.rows != [] && w.marked
    ensures var (x', w') := AdvanceSweep(x, w); var (kind, read) := w.rows[0];
      && x' == x.(store := x'.store) && x'.store.tasks == x.store.tasks
      && (k in x'.store.locks ==> k in x.store.locks && x'.store.locks[k] == x.store.locks[k])
      && (k in x.store.locks && k !in x'.store.locks <==>
            k == kind && k in x.store.locks && Names(x.store.locks[k], read.taskId, read.lockedBy) && x.store.locks[k].lockedUntil < w.now)
      && w' == Some(Sweep(w.now, w.read, w.rows[1..], false))
  {
  }
}
