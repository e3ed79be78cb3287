/**
 The operations of model/system_task.go as methods that rewrite the two tables in place, each run
 without interference.  Their statements are the ones TaskProtocol interleaves.
 */
module TaskStore {
  import opened Options
  import opened TaskTables
  import opened TaskProtocol

  predicate Expired(locks: map<TaskType, Lock>, k: TaskType, now: int) {
    k in locks && locks[k].lockedUntil < now
  }

  /** Some expired row names the task. */
  ghost predicate ExpiredFor(locks: map<TaskType, Lock>, t: TaskId, now: int) {
    exists k :: Expired(locks, k, now) && locks[k].taskId == t
  }

  function LeaseExpired(t: Task): Task {
    t.(status := Failed, activeKey := None, error := "task lease expired")
  }

  /** The rows of `tasks` after the leases of `ids` were marked expired. */
  function FailRunning(tasks: map<TaskId, Task>, ids: set<TaskId>): map<TaskId, Task> {
    map t | t in tasks :: if t in ids && tasks[t].status == Running then LeaseExpired(tasks[t]) else tasks[t]
  }

  lemma FailOneMore(s: Store, tasks: map<TaskId, Task>, ids: set<TaskId>, id: TaskId)
    requires s.tasks == FailRunning(tasks, ids)
    ensures MarkLeaseExpired(s, id).tasks == FailRunning(tasks, ids + {id})
  {
  }

  /** A claim succeeds exactly when the task is pending and its type's lock row is absent or expired; it touches nothing else. */
  ghost predicate ClaimEffect(s: Store, id: TaskId, kind: TaskType, runner: Runner, now: int, until: int, s': Store, ok: bool) {
    && (ok <==> IsPending(s, id, kind) && (kind in s.locks ==> s.locks[kind].lockedUntil < now))
    && (!ok ==> s' == s)
    && (ok ==>
          && s'.locks == s.locks[kind := Lock(id, runner, until)] && s'.tasks.Keys == s.tasks.Keys
          && s'.tasks[id] == s.tasks[id].(status := Running, lockedBy := Some(runner))
          && forall t :: t in s.tasks && t != id ==>
               s'.tasks[t] == if kind in s.locks && s.locks[kind].taskId == t && s.tasks[t].status == Running
                              then LeaseExpired(s.tasks[t]) else s.tasks[t])
  }

  /** The steps of one claim of TaskProtocol, back to back until the call returns. */
  function ClaimToEnd(x: World, r: Runner, c: Claim): World
    decreases match c.pc case Began => 7 case Selected => 6 case Conflicted => 5 case SawExpired => 4 case Acquired => 3 case Ready => 2 case _ => 1
  {
    var (x', c') := AdvanceClaim(x, r, c);
    if c'.Some? then ClaimToEnd(x', r, c'.value) else x'
  }

  /** A claim that no other step interrupts does in TaskProtocol what the method below does in place. */
  lemma UninterruptedClaim(x: World, r: Runner, id: TaskId, kind: TaskType, now: int, until: int)
    ensures var x' := ClaimToEnd(x, r, Claim(Began, id, kind, now, until, None));
      ClaimEffect(x.store, id, kind, r, now, until, x'.store, x'.won == x.won + [(id, r)])
  {
    var c := Claim(Began, id, kind, now, until, None);
    if IsPending(x.store, id, kind) {
      var c1 := c.(pc := Selected);
      assert ClaimToEnd(x, r, c) == ClaimToEnd(x, r, c1);
      if kind !in x.store.locks {
        var x2, c2 := x.(store := PutLock(x.store, kind, Lock(id, r, until))), c.(pc := Acquired);
        assert ClaimToEnd(x, r, c1) == ClaimToEnd(x2, r, c2);
        LastSteps(x2, r, c2);
      } else {
        var c2 := c.(pc := Conflicted);
        assert ClaimToEnd(x, r, c1) == ClaimToEnd(x, r, c2);
        if CanTakeOver(x.store, kind, now) {
          var c3 := c.(pc := SawExpired, expired := Some(x.store.locks[kind].taskId));
          var x4, c4 := x.(store := PutLock(x.store, kind, Lock(id, r, until))), c3.(pc := Acquired);
          assert ClaimToEnd(x, r, c2) == ClaimToEnd(x, r, c3) == ClaimToEnd(x4, r, c4);
          LastSteps(x4, r, c4);
        } else {
          assert ClaimToEnd(x, r, c2) == x;
          assert |x.won| < |x.won + [(id, r)]|;
        }
      }
    } else {
      assert |x.won| < |x.won + [(id, r)]|;
    }
  }

  lemma LastSteps(x: World, r: Runner, c: Claim)
    requires c.pc == Acquired && IsPending(x.store, c.id, c.kind)
    ensures var s := if c.expired.Some? && c.expired.value != c.id then MarkLeaseExpired(x.store, c.expired.value) else x.store;
      ClaimToEnd(x, r, c) == World(MarkRunning(s, c.id, r), x.clock, x.startedAt[c.id := x.clock], x.won + [(c.id, r)])
  {
    var (x1, c1) := AdvanceClaim(x, r, c);
    var (x2, c2) := AdvanceClaim(x1, r, c1.value);
    var (x3, c3) := AdvanceClaim(x2, r, c2.value);
    assert ClaimToEnd(x, r, c) == ClaimToEnd(x1, r, c1.value) == ClaimToEnd(x2, r, c2.value) == x3;
  }

  // ---------- consistent tables ----------

  /** What both tables hold between any two operations: the part of TaskProtocol's invariant that is about them alone. */
  ghost predicate Consistent(s: Store) {
    && (forall t :: t in s.tasks ==> RowOk(s.tasks[t]))
    && OneActive(s.tasks)
    && (forall k :: k in s.locks ==> s.locks[k].taskId in s.tasks && s.tasks[s.locks[k].taskId].kind == k)
    && (forall t :: IsRunning(s.tasks, t) ==> OwnsLock(t, s.tasks[t], s.locks))
  }

  predicate OwnsLock(t: TaskId, task: Task, locks: Locks) {
    task.kind in locks && locks[task.kind].taskId == t && Some(locks[task.kind].lockedBy) == task.lockedBy
  }

  /** In every state of every timely interleaving the tables are consistent. */
  lemma RunsAreConsistent(ys: seq<System>, i: nat)
    requires Run(ys) && i < |ys|
    ensures Consistent(ys[i].x.store)
  {
    RunKeepsInv(ys, i);
    assert WorldOk(ys[i].x);
  }

  ghost predicate TypeActive(s: Store, kind: TaskType) {
    exists t :: IsActive(s.tasks, t) && s.tasks[t].kind == kind
  }

  /** Pending, with its type as unique key, nobody's, with the given state and neither result nor error. */
  predicate NewRow(tasks: Tasks, id: TaskId, kind: TaskType, state: string, now: int) {
    && id in tasks && tasks[id].kind == kind && tasks[id].status == Pending && tasks[id].activeKey == Some(kind)
    && tasks[id].lockedBy == None && tasks[id].state == state && tasks[id].result == "" && tasks[id].error == ""
    && tasks[id].createdAt == now
  }

  /** The unique index rejects a new task exactly when its type has an active one; a created task is then the type's only one. */
  lemma CreateNeedsIdleType(s: Store, id: TaskId, kind: TaskType, state: string, now: int)
    requires Consistent(s)
    ensures var s' := InsertTask(s, id, kind, state, now);
      && (s'.Some? <==> id !in s.tasks && !TypeActive(s, kind))
      && (s'.Some? ==> Consistent(s'.value) && s'.value.locks == s.locks)
      && (s'.Some? ==> NewRow(s'.value.tasks, id, kind, state, now) && s'.value.tasks - {id} == s.tasks)
      && (s'.Some? ==> forall t :: IsActive(s'.value.tasks, t) && s'.value.tasks[t].kind == kind <==> t == id)
  {
    if TypeActive(s, kind) {
      var t :| IsActive(s.tasks, t) && s.tasks[t].kind == kind;
      assert s.tasks[t].activeKey == Some(kind);
    }
    if KeyTaken(s, kind) {
      var t :| t in s.tasks && s.tasks[t].activeKey == Some(kind);
      assert IsActive(s.tasks, t) && s.tasks[t].kind == kind;
    }
    var s' := InsertTask(s, id, kind, state, now);
    if s'.Some? {
      forall t | IsRunning(s'.value.tasks, t) ensures OwnsLock(t, s'.value.tasks[t], s'.value.locks) {
        assert IsRunning(s.tasks, t);
      }
    }
  }

  /** The runner holds the lease of this task: its type's lock row names both and has not run out. */
  predicate Holds(s: Store, id: TaskId, runner: Runner, now: int) {
    && id in s.tasks && s.tasks[id].kind in s.locks
    && s.locks[s.tasks[id].kind].taskId == id && s.locks[s.tasks[id].kind].lockedBy == runner
    && s.locks[s.tasks[id].kind].lockedUntil >= now
  }

  /** The EXISTS condition over all lock rows comes down to the one row of the task's own type. */
  lemma LeaseIsOwnRow(s: Store, id: TaskId, runner: Runner, now: int)
    requires Consistent(s)
    ensures LeaseRow(s, id, runner, now) <==> Holds(s, id, runner, now)
    ensures MayWrite(s, id, runner, now) <==> Holds(s, id, runner, now) && IsRunning(s.tasks, id)
  {
  }

  /** A renewal moves the end of that one row, and no other; the lease then lasts exactly until the new end. */
  lemma RenewalExtendsOwnRow(s: Store, id: TaskId, runner: Runner, now: int, until: int, later: int)
    requires Consistent(s)
    ensures var s' := RenewRows(s, id, runner, now, until);
      && Consistent(s')
      && s'.tasks == s.tasks
      && s'.locks == (if Holds(s, id, runner, now) then s.locks[s.tasks[id].kind := Lock(id, runner, until)] else s.locks)
      && (Holds(s, id, runner, now) ==> (LeaseRow(s', id, runner, later) <==> later <= until))
  {
    LeaseIsOwnRow(s, id, runner, now);
    var s' := RenewRows(s, id, runner, now, until);
    assert Consistent(s');
    LeaseIsOwnRow(s', id, runner, later);
  }

  /** A state write by whoever holds the lease changes one field of one row and loses nothing: the runner can write on. */
  lemma StateWriteKeepsLease(s: Store, id: TaskId, runner: Runner, now: int, state: string, later: int)
    requires Consistent(s) && Holds(s, id, runner, now) && IsRunning(s.tasks, id)
    ensures var s' := WriteState(s, id, runner, now, state);
      && Consistent(s') && s'.locks == s.locks && s'.tasks.Keys == s.tasks.Keys
      && s'.tasks[id].state == state && s'.tasks[id] == s.tasks[id].(state := state)
      && (forall t :: t in s.tasks && t != id ==> s'.tasks[t] == s.tasks[t])
      && (MayWrite(s', id, runner, later) <==> MayWrite(s, id, runner, later))
  {
    LeaseIsOwnRow(s, id, runner, now);
    var s' := WriteState(s, id, runner, now, state);
    forall t | IsRunning(s'.tasks, t) ensures OwnsLock(t, s'.tasks[t], s'.locks) {
      assert IsRunning(s.tasks, t);
    }
    assert Consistent(s');
    LeaseIsOwnRow(s, id, runner, later);
    LeaseIsOwnRow(s', id, runner, later);
  }

  lemma WriteKeepsConsistent(s: Store, id: TaskId, runner: Runner, now: int, state: string)
    requires Consistent(s)
    ensures MayWrite(s, id, runner, now) <==> Holds(s, id, runner, now) && IsRunning(s.tasks, id)
    ensures Consistent(WriteState(s, id, runner, now, state))
  {
    LeaseIsOwnRow(s, id, runner, now);
    if MayWrite(s, id, runner, now) { StateWriteKeepsLease(s, id, runner, now, state, now); }
  }

  /** Anybody else's write changes nothing. */
  lemma StrangersWriteNothing(s: Store, id: TaskId, runner: Runner, now: int, state: string)
    requires Consistent(s) && !(Holds(s, id, runner, now) && IsRunning(s.tasks, id))
    ensures WriteState(s, id, runner, now, state) == s
  {
    LeaseIsOwnRow(s, id, runner, now);
  }

  /** A finished row is terminal, its type idle, and its lease gone, so that a second finish or write finds nothing. */
  lemma FinishFreesTheType(s: Store, id: TaskId, runner: Runner, now: int, status: Status, result: string, error: string, later: int)
    requires Consistent(s) && MayWrite(s, id, runner, now) && (status == Succeeded || status == Failed)
    ensures var s' := ReleaseLock(FinishRow(s, id, runner, now, status, result, error), id, runner);
      && Consistent(s') && Terminal(s'.tasks[id]) && !TypeActive(s', s.tasks[id].kind)
      && s'.locks == s.locks - {s.tasks[id].kind} && !MayWrite(s', id, runner, later)
  {
    LeaseIsOwnRow(s, id, runner, now);
    assert IsActive(s.tasks, id);
    var s' := ReleaseLock(FinishRow(s, id, runner, now, status, result, error), id, runner);
    assert s'.locks == s.locks - {s.tasks[id].kind};
    forall t | IsRunning(s'.tasks, t) ensures OwnsLock(t, s'.tasks[t], s'.locks) {
      assert IsRunning(s.tasks, t) && IsActive(s.tasks, t);
    }
  }

  /** A claim run alone keeps the tables consistent: what it displaces it also fails. */
  lemma ClaimKeepsConsistent(s: Store, id: TaskId, kind: TaskType, runner: Runner, now: int, until: int, s': Store, ok: bool)
    requires Consistent(s) && ClaimEffect(s, id, kind, runner, now, until, s', ok)
    ensures Consistent(s')
    ensures ok ==> IsRunning(s'.tasks, id) && (Holds(s', id, runner, now) <==> now <= until)
  {
    if ok {
      assert IsActive(s.tasks, id);
      forall t | IsRunning(s'.tasks, t) ensures OwnsLock(t, s'.tasks[t], s'.locks) {
        if t != id { assert IsRunning(s.tasks, t) && OwnsLock(t, s.tasks[t], s.locks); }
      }
      forall t, u | IsActive(s'.tasks, t) && IsActive(s'.tasks, u) && s'.tasks[t].kind == s'.tasks[u].kind ensures t == u {
        assert IsActive(s.tasks, t) && IsActive(s.tasks, u);
      }
    }
  }

  /** Exactly the running tasks named by expired rows fail, exactly those rows go. */
  ghost predicate SweepEffect(s: Store, now: int, s': Store) {
    && s'.tasks.Keys == s.tasks.Keys
    && (forall t :: t in s.tasks ==>
          s'.tasks[t] == if s.tasks[t].status == Running && ExpiredFor(s.locks, t, now) then LeaseExpired(s.tasks[t]) else s.tasks[t])
    && s'.locks == map k | k in s.locks && s.locks[k].lockedUntil >= now :: s.locks[k]
  }

  lemma AllSwept(s: Store, now: int, s': Store, failed: set<TaskId>)
    requires s'.tasks == FailRunning(s.tasks, failed)
    requires s'.locks == map k | k in s.locks && !Expired(s.locks, k, now) :: s.locks[k]
    requires forall k :: Expired(s.locks, k, now) ==> s.locks[k].taskId in failed
    requires forall t :: t in failed ==> ExpiredFor(s.locks, t, now)
    ensures SweepEffect(s, now, s')
  {
  }

  lemma SurvivorsHoldLeases(s: Store, now: int, s': Store, t: TaskId)
    requires Consistent(s) && SweepEffect(s, now, s') && IsRunning(s'.tasks, t)
    ensures s'.tasks[t] == s.tasks[t] && OwnsLock(t, s'.tasks[t], s'.locks) && s'.locks[s'.tasks[t].kind].lockedUntil >= now
  {
    assert IsRunning(s.tasks, t) && OwnsLock(t, s.tasks[t], s.locks);
    assert !Expired(s.locks, s.tasks[t].kind, now);
  }

  lemma SweepKeepsRows(s: Store, now: int, s': Store)
    requires Consistent(s) && SweepEffect(s, now, s')
    ensures (forall t :: t in s'.tasks ==> RowOk(s'.tasks[t])) && OneActive(s'.tasks)
    ensures forall k :: k in s'.locks ==> s'.locks[k].taskId in s'.tasks && s'.tasks[s'.locks[k].taskId].kind == k
  {
    hide ExpiredFor;
    forall t, u | IsActive(s'.tasks, t) && IsActive(s'.tasks, u) && s'.tasks[t].kind == s'.tasks[u].kind ensures t == u {
      assert IsActive(s.tasks, t) && IsActive(s.tasks, u);
    }
  }

  /** So does the sweep run alone: afterwards every running task holds a lease that has not run out. */
  lemma SweepKeepsConsistent(s: Store, now: int, s': Store)
    requires Consistent(s) && SweepEffect(s, now, s')
    ensures Consistent(s')
    ensures forall t :: IsRunning(s'.tasks, t) ==> Holds(s', t, s'.locks[s'.tasks[t].kind].lockedBy, now)
  {
    hide SweepEffect, RowOk, OneActive;
    SweepKeepsRows(s, now, s');
    forall t | IsRunning(s'.tasks, t) ensures OwnsLock(t, s'.tasks[t], s'.locks) && s'.locks[s'.tasks[t].kind].lockedUntil >= now {
      SurvivorsHoldLeases(s, now, s', t);
    }
  }

  class SystemTasks {
    var tasks: map<TaskId, Task>
    var locks: map<TaskType, Lock>

    constructor ()
      ensures Contents() == Store(map[], map[])
    {
      tasks, locks := map[], map[];
    }

    function Contents(): Store
      reads this
    {
      Store(tasks, locks)
    }

    /** CreateSystemTask: on consistent tables, fails exactly when the type has an active task or the identifier is taken. */
    method Create(id: TaskId, kind: TaskType, state: string, now: int) returns (ok: bool)
      modifies this
      ensures old(Consistent(Contents())) ==> (ok <==> id !in old(tasks) && !TypeActive(old(Contents()), kind)) && Consistent(Contents())
      ensures locks == old(locks)
      ensures !ok ==> tasks == old(tasks)
      ensures ok ==> tasks == old(tasks)[id := Task(kind, Pending, Some(kind), None, state, "", "", now)]
    {
      if Consistent(Contents()) { CreateNeedsIdleType(Contents(), id, kind, state, now); }
      ok := id !in tasks && forall t :: t in tasks ==> tasks[t].activeKey != Some(kind);
      if ok {
        tasks := tasks[id := Task(kind, Pending, Some(kind), None, state, "", "", now)];
      }
    }

    /** acquireSystemTaskLock: insert, or replace a row that has expired; also the task the replaced row named. */
    method AcquireLock(kind: TaskType, id: TaskId, runner: Runner, now: int, until: int) returns (ok: bool, displaced: Option<TaskId>)
      modifies this`locks
      ensures ok <==> (kind in old(locks) ==> old(locks)[kind].lockedUntil < now)
      ensures !ok ==> locks == old(locks)
      ensures ok ==> locks == old(locks)[kind := Lock(id, runner, until)]
      ensures displaced == if ok && kind in old(locks) then Some(old(locks)[kind].taskId) else None
    {
      if kind !in locks {
        locks := locks[kind := Lock(id, runner, until)];
        return true, None;
      }
      var existing := locks[kind];
      if existing.lockedUntil >= now {
        return false, None;
      }
      locks := locks[kind := Lock(id, runner, until)];
      return true, Some(existing.taskId);
    }

    method MarkLeaseExpired(id: TaskId)
      modifies this`tasks
      ensures Contents() == TaskTables.MarkLeaseExpired(old(Contents()), id)
    {
      if id in tasks && tasks[id].status == Running {
        tasks := tasks[id := LeaseExpired(tasks[id])];
      }
    }

    method ReleaseLock(id: TaskId, runner: Runner)
      modifies this`locks
      ensures Contents() == TaskTables.ReleaseLock(old(Contents()), id, runner)
    {
      locks := TaskTables.ReleaseLock(Contents(), id, runner).locks;
    }

    /** ClaimSystemTask: succeeds exactly when the task is pending and its type's lock is free or expired. */
    method Claim(id: TaskId, kind: TaskType, runner: Runner, now: int, until: int) returns (ok: bool)
      modifies this
      ensures ClaimEffect(old(Contents()), id, kind, runner, now, until, Contents(), ok)
    {
      if !IsPending(Contents(), id, kind) {
        return false;
      }
      var displaced;
      ok, displaced := AcquireLock(kind, id, runner, now, until);
      if !ok {
        return;
      }
      if displaced.Some? && displaced.value != id {
        MarkLeaseExpired(displaced.value);
      }
      // Run alone, the last UPDATE finds its row still pending; TaskProtocol has the branch that loses.
      assert IsPending(Contents(), id, kind);
      tasks := tasks[id := tasks[id].(status := Running, lockedBy := Some(runner))];
    }

    method UpdateState(id: TaskId, runner: Runner, now: int, state: string) returns (held: bool)
      modifies this`tasks
      ensures old(Consistent(Contents())) ==> (held <==> Holds(old(Contents()), id, runner, now) && IsRunning(old(tasks), id)) && Consistent(Contents())
      ensures Contents() == WriteState(old(Contents()), id, runner, now, state)
    {
      if Consistent(Contents()) { WriteKeepsConsistent(Contents(), id, runner, now, state); }
      held := MayWrite(Contents(), id, runner, now);
      if held {
        tasks := tasks[id := tasks[id].(state := state)];
      }
    }

    method Renew(id: TaskId, runner: Runner, now: int, until: int) returns (held: bool)
      modifies this`locks
      ensures old(Consistent(Contents())) ==>
        && held == Holds(old(Contents()), id, runner, now) && Consistent(Contents())
        && locks == if held then old(locks)[old(tasks)[id].kind := Lock(id, runner, until)] else old(locks)
    {
      if Consistent(Contents()) {
        LeaseIsOwnRow(Contents(), id, runner, now);
        RenewalExtendsOwnRow(Contents(), id, runner, now, until, now);
      }
      held := LeaseRow(Contents(), id, runner, now);
      locks := RenewRows(Contents(), id, runner, now, until).locks;
    }

    /** FinishSystemTask: the row turns terminal and gives up its key, then the lease is released; or nothing happens. */
    method Finish(id: TaskId, runner: Runner, now: int, status: Status, result: string, error: string) returns (held: bool)
      modifies this
      ensures held == MayWrite(old(Contents()), id, runner, now)
      ensures !held ==> Contents() == old(Contents())
      ensures held ==> tasks == old(tasks)[id := old(tasks)[id].(status := status, activeKey := None, result := result, error := error)]
      ensures held ==> forall k :: k in locks <==> k in old(locks) && !(old(locks)[k].taskId == id && old(locks)[k].lockedBy == runner)
      ensures held ==> forall k :: k in locks ==> locks[k] == old(locks)[k]
    {
      held := MayWrite(Contents(), id, runner, now);
      if held {
        tasks := tasks[id := tasks[id].(status := status, activeKey := None, result := result, error := error)];
        ReleaseLock(id, runner);
      }
    }

    /** ExpireStaleSystemTaskLocks. */
    method ExpireStale(now: int)
      modifies this
      ensures SweepEffect(old(Contents()), now, Contents())
    {
      hide SweepEffect;
      ghost var before := Contents();
      var rows := set k | k in locks && locks[k].lockedUntil < now;
      var todo := rows;
      ghost var failed: set<TaskId> := {};
      while todo != {}
        invariant todo <= rows
        invariant locks == map k | k in before.locks && (k in todo || k !in rows) :: before.locks[k]
        invariant tasks == FailRunning(before.tasks, failed)
        invariant forall k :: k in rows - todo ==> before.locks[k].taskId in failed
        invariant forall t :: t in failed ==> ExpiredFor(before.locks, t, now)
        decreases todo
      {
        var k :| k in todo;
        var lock := locks[k];
        FailOneMore(Contents(), before.tasks, failed, lock.taskId);
        MarkLeaseExpired(lock.taskId);
        locks := DeleteStaleLock(Contents(), k, lock, now).locks;
        assert Expired(before.locks, k, now);
        todo, failed := todo - {k}, failed + {lock.taskId};
      }
      AllSwept(before, now, Contents(), failed);
    }
  }
}
