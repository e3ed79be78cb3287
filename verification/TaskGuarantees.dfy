/**
 What model/system_task.go promises about system tasks, over every interleaving of
 TaskProtocol in which each claim's pending -> running update runs within its own lease.
 */
module TaskGuarantees {
  import opened Options
  import opened TaskTables
  import opened TaskProtocol

  /** In every reachable state a running task has a lock row naming exactly it and its owner. */
  lemma RunningTaskHoldsItsLock(ys: seq<System>, i: nat, t: TaskId)
    requires Run(ys) && i < |ys| && IsRunning(ys[i].x.store.tasks, t)
    ensures var s := ys[i].x.store; var task := s.tasks[t];
      task.kind in s.locks && s.locks[task.kind].taskId == t && task.lockedBy == Some(s.locks[task.kind].lockedBy)
  {
    RunKeepsInv(ys, i);
  }

  /** At most one task per type is pending or running, and a task is active exactly when its unique key is its type. */
  lemma OneActiveTaskPerType(ys: seq<System>, i: nat, t: TaskId, u: TaskId)
    requires Run(ys) && i < |ys| && t in ys[i].x.store.tasks && u in ys[i].x.store.tasks
    ensures var tasks := ys[i].x.store.tasks;
      && (Active(tasks[t]) <==> tasks[t].activeKey == Some(tasks[t].kind))
      && (Terminal(tasks[t]) <==> tasks[t].activeKey == None)
      && (Active(tasks[t]) && Active(tasks[u]) && tasks[t].kind == tasks[u].kind ==> t == u)
  {
    RunKeepsInv(ys, i);
    assert IsActive(ys[i].x.store.tasks, t) ==> Active(ys[i].x.store.tasks[t]);
    assert IsActive(ys[i].x.store.tasks, u) ==> Active(ys[i].x.store.tasks[u]);
  }

  /** No two claims of one task ever return true, and the one that did is the task's owner. */
  lemma ClaimSucceedsAtMostOnce(ys: seq<System>, i: nat, a: nat, b: nat)
    requires Run(ys) && i < |ys| && a < |ys[i].x.won| && b < |ys[i].x.won| && ys[i].x.won[a].0 == ys[i].x.won[b].0
    ensures a == b
    ensures var (t, r) := ys[i].x.won[a]; t in ys[i].x.store.tasks && ys[i].x.store.tasks[t].lockedBy == Some(r)
  {
    RunKeepsInv(ys, i);
  }

  // ---------- rows only move forward ----------

  lemma StepMoves(y: System, a: Action, y': System)
    requires Inv(y) && Step(y, a, y')
    ensures TasksMove(y.x, y'.x)
  {
    hide WorldOk, ClaimOk, OpOk, SweepOk, AdvanceClaim, AdvanceOp, AdvanceSweep;
    match a
    case Create(id, kind, state) => CreateSafe(y.x, id, kind, state);
    case ClaimStep(r) =>
      if y.claims[r].pc == Won { RecordWin(y.x, r, y.claims[r]); } else { ClaimWorldSafe(y.x, r, y.claims[r]); }
    case OpStep(n) => OpWorldSafe(y.x, y.ops[n]);
    case SweepStep(n) => SweepWorldSafe(y.x, y.sweeps[n]);
    case _ =>
  }

  lemma RunMoves(ys: seq<System>, i: nat)
    requires Run(ys) && i + 1 < |ys|
    ensures RowsOk(ys[i].x.store.tasks, ys[i].x.clock) && TasksMove(ys[i].x, ys[i + 1].x)
  {
    hide Step, TasksMove, RowsOk;
    RunKeepsInv(ys, i);
    assert Follows(ys[i], ys[i + 1]);
    var a :| Step(ys[i], a, ys[i + 1]);
    StepMoves(ys[i], a, ys[i + 1]);
  }

  function Rank(s: Status): nat {
    match s
    case Pending => 0
    case Running => 1
    case _ => 2
  }

  /** Status moves pending -> running -> terminal, the owner is written once, a terminal row never changes. */
  predicate Evolves(t: Task, t': Task) {
    && t'.kind == t.kind && t'.createdAt == t.createdAt && Rank(t.status) <= Rank(t'.status)
    && (t.lockedBy.Some? ==> t'.lockedBy == t.lockedBy)
    && (Terminal(t) ==> t' == t)
  }

  lemma {:induction false} RowsEvolve(ys: seq<System>, i: nat, j: nat, t: TaskId)
    requires Run(ys) && i <= j < |ys| && t in ys[i].x.store.tasks
    ensures t in ys[j].x.store.tasks && Evolves(ys[i].x.store.tasks[t], ys[j].x.store.tasks[t])
  {
    hide Run;
    if i < j {
      RowsEvolve(ys, i, j - 1, t);
      RunMoves(ys, j - 1);
    }
  }

  /** Between two states of a run, the same task cannot go from running to terminal to anything else, nor skip running. */
  lemma NoStatusIsSkipped(y: System, a: Action, y': System, t: TaskId)
    requires Inv(y) && Step(y, a, y') && t in y.x.store.tasks
    ensures t in y'.x.store.tasks && Rank(y'.x.store.tasks[t].status) <= Rank(y.x.store.tasks[t].status) + 1
  {
    StepMoves(y, a, y');
  }

  // ---------- leases ----------

  predicate Names(l: Lock, t: TaskId, r: Runner) {
    l.taskId == t && l.lockedBy == r
  }

  predicate SameHolder(l: Lock, m: Lock) {
    l.taskId == m.taskId && l.lockedBy == m.lockedBy
  }

  /** The step is the release a lock's own holder performs. */
  predicate ReleasedByHolder(y: System, a: Action, l: Lock) {
    || (a.ClaimStep? && a.runner == l.lockedBy && a.runner in y.claims && y.claims[a.runner].pc == Losing && y.claims[a.runner].id == l.taskId)
    || (a.OpStep? && a.slot in y.ops && y.ops[a.slot] == ReleaseOp(l.taskId, l.lockedBy))
  }

  /** Only three kinds of step write lock rows. */
  predicate WritesLocks(a: Action) {
    a.ClaimStep? || a.OpStep? || a.SweepStep?
  }

  lemma OtherStepsKeepLocks(y: System, a: Action, y': System)
    requires Step(y, a, y') && !WritesLocks(a)
    ensures y'.x.store.locks == y.x.store.locks && y'.x.clock >= y.x.clock
  {
  }

  predicate KeptOrExpired(x: World, locks': Locks, k: TaskType)
    requires k in x.store.locks
  {
    (k in locks' && SameHolder(x.store.locks[k], locks'[k])) || x.store.locks[k].lockedUntil < x.clock
  }

  lemma ClaimOnLock(x: World, q: Runner, c: Claim, k: TaskType)
    requires ClaimOk(x, q, c) && k in x.store.locks && !(c.pc == Losing && Names(x.store.locks[k], c.id, q))
    ensures KeptOrExpired(x, AdvanceClaim(x, q, c).0.store.locks, k)
  {
  }

  lemma OpOnLock(x: World, op: Op, k: TaskType)
    requires k in x.store.locks && op != ReleaseOp(x.store.locks[k].taskId, x.store.locks[k].lockedBy)
    ensures KeptOrExpired(x, AdvanceOp(x, op).0.store.locks, k)
  {
  }

  lemma SweepOnLock(x: World, w: Sweep, k: TaskType)
    requires k in x.store.locks && w.now <= x.clock
    ensures KeptOrExpired(x, AdvanceSweep(x, w).0.store.locks, k)
  {
  }

  /** A lock row changes hands, or is deleted by anyone but its holder, only after `locked_until` has passed. */
  lemma LockChangesHandsOnlyAfterExpiry(y: System, a: Action, y': System, k: TaskType)
    requires Inv(y) && Step(y, a, y') && k in y.x.store.locks
    ensures
      || (k in y'.x.store.locks && SameHolder(y.x.store.locks[k], y'.x.store.locks[k]))
      || y.x.store.locks[k].lockedUntil < y.x.clock
      || ReleasedByHolder(y, a, y.x.store.locks[k])
  {
    hide WorldOk, ClaimOk, OpOk, AdvanceClaim, AdvanceOp, AdvanceSweep;
    if !WritesLocks(a) {
      OtherStepsKeepLocks(y, a, y');
    } else if !ReleasedByHolder(y, a, y.x.store.locks[k]) {
      match a
      case ClaimStep(r) => ClaimOnLock(y.x, r, y.claims[r], k);
      case OpStep(n) => OpOnLock(y.x, y.ops[n], k);
      case SweepStep(n) => SweepOnLock(y.x, y.sweeps[n], k);
    }
  }

  /** Taking over an expired row never displaces a running task: none of that type is running ... */
  lemma TakeoverDisplacesNothing(ys: seq<System>, i: nat, r: Runner)
    requires Run(ys) && i < |ys| && r in ys[i].claims
    requires var c := ys[i].claims[r]; c.pc == SawExpired && CanTakeOver(ys[i].x.store, c.kind, c.now)
    ensures forall t :: IsRunning(ys[i].x.store.tasks, t) ==> ys[i].x.store.tasks[t].kind != ys[i].claims[r].kind
  {
    RunKeepsInv(ys, i);
    NothingRunsBehindExpiredLock(ys[i].x, ys[i].claims[r]);
  }

  /** ... so the mark that follows a takeover changes no row. */
  lemma TakeoverMarkIsNoOp(ys: seq<System>, i: nat, r: Runner)
    requires Run(ys) && i < |ys| && r in ys[i].claims && ys[i].claims[r].pc == Acquired
    ensures AdvanceClaim(ys[i].x, r, ys[i].claims[r]).0 == ys[i].x
  {
    RunKeepsInv(ys, i);
  }

  /** Of one type, at most one (task, runner) pair can write its state or finish. */
  lemma OneWriterPerType(ys: seq<System>, i: nat, t: TaskId, r: Runner, now: int, u: TaskId, q: Runner, now': int)
    requires Run(ys) && i < |ys|
    requires MayWrite(ys[i].x.store, t, r, now) && MayWrite(ys[i].x.store, u, q, now')
    requires ys[i].x.store.tasks[t].kind == ys[i].x.store.tasks[u].kind
    ensures t == u && r == q
  {
    RunKeepsInv(ys, i);
    assert IsActive(ys[i].x.store.tasks, t) && IsActive(ys[i].x.store.tasks, u);
  }

  // ---------- fencing ----------

  predicate OpTakesEffect(s: Store, op: Op) {
    match op
    case RenewOp(id, r, now, _) => LeaseRow(s, id, r, now)
    case UpdateOp(id, r, now, _) => MayWrite(s, id, r, now)
    case FinishOp(id, r, now, _, _, _) => MayWrite(s, id, r, now)
    case ReleaseOp(_, _) => false
  }

  predicate OpOf(op: Op, t: TaskId, r: Runner) {
    op.id == t && op.runner == r && !op.ReleaseOp?
  }

  /**
   Exactly when a statement in flight takes effect: its type's lock row names its task and runner and had not run out
   when the operation read its clock, which may be long before the statement runs; writing also needs a running task.
   */
  lemma OpTakesEffectExactly(y: System, n: nat)
    requires Inv(y) && n in y.ops && !y.ops[n].ReleaseOp?
    ensures var op := y.ops[n]; var s := y.x.store;
      op.id in s.tasks && (OpTakesEffect(s, op) <==>
        var kind := s.tasks[op.id].kind;
        && kind in s.locks && Names(s.locks[kind], op.id, op.runner) && s.locks[kind].lockedUntil >= op.now
        && (op.RenewOp? || IsRunning(s.tasks, op.id)))
  {
    assert OpOk(y.x, y.ops[n]);
  }

  /** Every lock row naming task and runner ran out before any operation they have in flight read its clock. */
  ghost predicate LeaseRanOut(y: System, t: TaskId, r: Runner) {
    && (forall k :: k in y.x.store.locks && Names(y.x.store.locks[k], t, r) ==> y.x.store.locks[k].lockedUntil < y.x.clock)
    && (forall k, n :: k in y.x.store.locks && Names(y.x.store.locks[k], t, r) && n in y.ops && OpOf(y.ops[n], t, r) ==>
          y.x.store.locks[k].lockedUntil < y.ops[n].now)
  }

  /** `r` is out of the race for `t`: the task left pending, and `r` does not own it or its lease ran out or is gone. */
  ghost predicate Out(y: System, t: TaskId, r: Runner) {
    && t in y.x.store.tasks && y.x.store.tasks[t].status != Pending
    && (y.x.store.tasks[t].lockedBy == Some(r) ==> LeaseRanOut(y, t, r))
  }

  /** The owner of a running task is out exactly when no statement it has in flight, nor one begun now, would take effect. */
  lemma OutIsExact(y: System, t: TaskId, r: Runner)
    requires Inv(y) && IsRunning(y.x.store.tasks, t) && y.x.store.tasks[t].lockedBy == Some(r)
    ensures Out(y, t, r) <==>
      !LeaseRow(y.x.store, t, r, y.x.clock) && forall n :: n in y.ops && OpOf(y.ops[n], t, r) ==> !OpTakesEffect(y.x.store, y.ops[n])
  {
    hide WorldOk, ClaimOk, SweepOk;
    forall n | n in y.ops && OpOf(y.ops[n], t, r)
      ensures !OpTakesEffect(y.x.store, y.ops[n]) <==>
        forall k :: k in y.x.store.locks && Names(y.x.store.locks[k], t, r) ==> y.x.store.locks[k].lockedUntil < y.ops[n].now
    {
      OwnersOpTakesEffect(y.x.store, y.ops[n], t, r);
    }
  }

  lemma OwnersOpTakesEffect(s: Store, op: Op, t: TaskId, r: Runner)
    requires OpOf(op, t, r) && IsRunning(s.tasks, t) && s.tasks[t].lockedBy == Some(r)
    ensures OpTakesEffect(s, op) <==> exists k :: k in s.locks && Names(s.locks[k], t, r) && s.locks[k].lockedUntil >= op.now
  {
  }

  /** Whoever is out cannot update, renew or finish: no statement of theirs takes effect ... */
  lemma OutOpsFail(y: System, t: TaskId, r: Runner, n: nat)
    requires Inv(y) && Out(y, t, r) && n in y.ops && OpOf(y.ops[n], t, r)
    ensures !OpTakesEffect(y.x.store, y.ops[n]) && AdvanceOp(y.x, y.ops[n]).0 == y.x
  {
    assert OpOk(y.x, y.ops[n]);
    if y.ops[n].RenewOp? {
      assert RenewRows(y.x.store, t, r, y.ops[n].now, y.ops[n].until).locks == y.x.store.locks;
    }
  }

  /** A statement leaves every lease of `t` and `r` as it was, or removes it. */
  ghost predicate KeepsOrDrops(locks: Locks, locks': Locks, t: TaskId, r: Runner) {
    forall k :: k in locks' && Names(locks'[k], t, r) ==> k in locks && locks'[k] == locks[k]
  }

  lemma ClaimKeepsOrDrops(x: World, q: Runner, c: Claim, t: TaskId, r: Runner)
    requires ClaimOk(x, q, c) && t in x.store.tasks && x.store.tasks[t].lockedBy == Some(r)
    ensures KeepsOrDrops(x.store.locks, AdvanceClaim(x, q, c).0.store.locks, t, r)
  {
  }

  lemma OutOpKeepsOrDrops(x: World, op: Op, t: TaskId, r: Runner)
    requires OpOf(op, t, r) ==> !OpTakesEffect(x.store, op)
    ensures KeepsOrDrops(x.store.locks, AdvanceOp(x, op).0.store.locks, t, r)
  {
  }

  lemma SweepKeepsOrDrops(x: World, w: Sweep, t: TaskId, r: Runner)
    ensures KeepsOrDrops(x.store.locks, AdvanceSweep(x, w).0.store.locks, t, r)
  {
  }

  lemma OutStepKeepsOrDrops(y: System, a: Action, y': System, t: TaskId, r: Runner)
    requires Inv(y) && Step(y, a, y') && Out(y, t, r) && y.x.store.tasks[t].lockedBy == Some(r)
    ensures KeepsOrDrops(y.x.store.locks, y'.x.store.locks, t, r)
  {
    if !WritesLocks(a) {
      OtherStepsKeepLocks(y, a, y');
    } else if a.ClaimStep? {
      ClaimKeepsOrDrops(y.x, a.runner, y.claims[a.runner], t, r);
    } else if a.OpStep? {
      if OpOf(y.ops[a.slot], t, r) { OutOpsFail(y, t, r, a.slot); }
      OutOpKeepsOrDrops(y.x, y.ops[a.slot], t, r);
    } else {
      SweepKeepsOrDrops(y.x, y.sweeps[a.slot], t, r);
    }
  }

  /** An operation begun in this step reads the present clock; all others were in flight before. */
  lemma NewOpsReadTheClock(y: System, a: Action, y': System, n: nat)
    requires Step(y, a, y') && n in y'.ops && !y'.ops[n].ReleaseOp?
    ensures (n in y.ops && y.ops[n] == y'.ops[n]) || y'.ops[n].now == y.x.clock
    ensures y.x.clock <= y'.x.clock
  {
  }

  lemma OutPersists(y: System, a: Action, y': System, t: TaskId, r: Runner)
    requires Inv(y) && Step(y, a, y') && Out(y, t, r)
    ensures Out(y', t, r)
  {
    StepMoves(y, a, y');
    assert RowOk(y.x.store.tasks[t]);
    if y.x.store.tasks[t].lockedBy == Some(r) {
      OutStepKeepsOrDrops(y, a, y', t, r);
      forall n | n in y'.ops && OpOf(y'.ops[n], t, r)
        ensures (n in y.ops && y.ops[n] == y'.ops[n]) || y'.ops[n].now == y.x.clock
      {
        NewOpsReadTheClock(y, a, y', n);
      }
      RanOutPersists(y, y', t, r);
    }
  }

  lemma RanOutPersists(y: System, y': System, t: TaskId, r: Runner)
    requires LeaseRanOut(y, t, r) && KeepsOrDrops(y.x.store.locks, y'.x.store.locks, t, r) && y.x.clock <= y'.x.clock
    requires forall n :: n in y'.ops && OpOf(y'.ops[n], t, r) ==> (n in y.ops && y.ops[n] == y'.ops[n]) || y'.ops[n].now == y.x.clock
    ensures LeaseRanOut(y', t, r)
  {
  }

  lemma RunKeepsOut(ys: seq<System>, i: nat, t: TaskId, r: Runner)
    requires Run(ys) && i + 1 < |ys| && Out(ys[i], t, r)
    ensures Out(ys[i + 1], t, r)
  {
    hide Inv, Step, Out;
    RunKeepsInv(ys, i);
    assert Follows(ys[i], ys[i + 1]);
    var a :| Step(ys[i], a, ys[i + 1]);
    OutPersists(ys[i], a, ys[i + 1], t, r);
  }

  /** ... and it is out for the rest of the run. */
  lemma {:induction false} OutForever(ys: seq<System>, i: nat, j: nat, t: TaskId, r: Runner)
    requires Run(ys) && i <= j < |ys| && Out(ys[i], t, r)
    ensures Out(ys[j], t, r)
  {
    hide *;
    if i < j {
      OutForever(ys, i, j - 1, t, r);
      RunKeepsOut(ys, j - 1, t, r);
    }
  }

  // ---------- the sweep ----------

  /** Once the sweep marked a row's task, that task is not running; if it was, its type is free for a new task. */
  lemma SweepFreesTheType(y: System, n: nat, newId: TaskId, state: string)
    requires Inv(y) && n in y.sweeps && y.sweeps[n].read && y.sweeps[n].rows != [] && !y.sweeps[n].marked
    ensures var t := y.sweeps[n].rows[0].1.taskId; var s' := AdvanceSweep(y.x, y.sweeps[n]).0.store;
      && !IsRunning(s'.tasks, t)
      && (IsRunning(y.x.store.tasks, t) && newId !in s'.tasks ==> InsertTask(s', newId, y.x.store.tasks[t].kind, state, y.x.clock).Some?)
  {
    var t := y.sweeps[n].rows[0].1.taskId;
    var x' := AdvanceSweep(y.x, y.sweeps[n]).0;
    if IsRunning(y.x.store.tasks, t) {
      MarkExpiredSafe(y.x, t);
      forall u | u in x'.store.tasks ensures x'.store.tasks[u].activeKey != Some(y.x.store.tasks[t].kind) {
        assert IsActive(y.x.store.tasks, u) && y.x.store.tasks[u].kind == y.x.store.tasks[t].kind ==> u == t by {
          assert IsActive(y.x.store.tasks, t);
        }
      }
    }
  }
}
