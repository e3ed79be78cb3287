/**
 Three races in model/system_task.go, as concrete schedules.  The first shows that the timing
 assumption of TaskProtocol is needed, with what follows from it; the others respect it.
 */
module TaskRaces {
  import opened Options
  import opened TaskTables
  import opened TaskProtocol

  const START := System(World(Store(map[], map[]), 0, map[], []), map[], map[], map[])

  /** A schedule, each step recorded with the state it started from. */
  datatype Schedule = Empty | Then(prior: Schedule, before: System, action: Action)

  /** `y` is what the schedule makes of the empty system; with `timely`, every step is timely. */
  ghost predicate Reaches(schedule: Schedule, y: System, timely: bool) {
    match schedule
    case Empty => y == START
    case Then(prior, before, a) => Reaches(prior, before, timely) && Enabled(before, a) && (timely ==> Timely(before, a)) && y == Apply(before, a)
  }

  ghost predicate Reachable(y: System, timely: bool) {
    exists schedule :: Reaches(schedule, y, timely)
  }

  lemma Extend(y: System, a: Action, timely: bool)
    requires Reachable(y, timely) && Enabled(y, a) && (timely ==> Timely(y, a))
    ensures Reachable(Apply(y, a), timely)
  {
    var schedule :| Reaches(schedule, y, timely);
    assert Reaches(Then(schedule, y, a), Apply(y, a), timely);
  }

  /** The row of task 1, the only task, of type 0. */
  function Row(status: Status, owner: Option<Runner>): Task {
    Task(0, status, if status == Failed then None else Some(0), owner, "", "", if status == Failed then "task lease expired" else "", 0)
  }

  function At(clock: int, row: Task, locks: Locks, startedAt: map<TaskId, int>, claims: map<Runner, Claim>): System {
    System(World(Store(map[1 := row], locks), clock, startedAt, []), claims, map[], map[])
  }

  /** Runner 1 inserted its lock row, expiring at 5, and is about to mark task 1 running. */
  function FirstReady(): System {
    At(0, Row(Pending, None), map[0 := Lock(1, 1, 5)], map[], map[1 := Claim(Ready, 1, 0, 0, 5, None)])
  }

  lemma ReachFirstReady(timely: bool)
    ensures Reachable(FirstReady(), timely)
  {
    assert Reaches(Empty, START, timely);
    Extend(START, Create(1, 0, ""), timely);
    var y1 := At(0, Row(Pending, None), map[], map[], map[]);
    assert Apply(START, Create(1, 0, "")) == y1;
    Extend(y1, BeginClaim(1, 1, 0, 5), timely);
    var y2 := Apply(y1, BeginClaim(1, 1, 0, 5));
    Extend(y2, ClaimStep(1), timely);
    var y3 := Apply(y2, ClaimStep(1));
    Extend(y3, ClaimStep(1), timely);
    var y4 := Apply(y3, ClaimStep(1));
    Extend(y4, ClaimStep(1), timely);
    assert Apply(y4, ClaimStep(1)) == FirstReady();
  }

  /** The clock reads 10; runner 2 took the expired row over and is about to mark the same task running. */
  function SecondReady(claims: map<Runner, Claim>): System {
    At(10, Row(Pending, None), map[0 := Lock(1, 2, 70)], map[], claims[2 := Claim(Ready, 1, 0, 10, 70, Some(1))])
  }

  /** Runner 2's claim, begun at 10, found the row of runner 1 expired. */
  function SecondSaw(claims: map<Runner, Claim>): System {
    At(10, Row(Pending, None), map[0 := Lock(1, 1, 5)], map[], claims[2 := Claim(SawExpired, 1, 0, 10, 70, Some(1))])
  }

  lemma ReachSecondSaw(y: System, timely: bool)
    requires Reachable(y, timely) && 2 !in y.claims
    requires y == At(10, Row(Pending, None), map[0 := Lock(1, 1, 5)], map[], y.claims).(sweeps := y.sweeps)
    ensures Reachable(SecondSaw(y.claims).(sweeps := y.sweeps), timely)
  {
    hide Reachable;
    Extend(y, BeginClaim(2, 1, 0, 70), timely);
    var y1 := y.(claims := y.claims[2 := Claim(Began, 1, 0, 10, 70, None)]);
    Extend(y1, ClaimStep(2), timely);
    var y2 := y.(claims := y.claims[2 := Claim(Selected, 1, 0, 10, 70, None)]);
    assert Apply(y1, ClaimStep(2)) == y2;
    Extend(y2, ClaimStep(2), timely);
    var y3 := y.(claims := y.claims[2 := Claim(Conflicted, 1, 0, 10, 70, None)]);
    assert Apply(y2, ClaimStep(2)) == y3;
    Extend(y3, ClaimStep(2), timely);
    assert Apply(y3, ClaimStep(2)) == SecondSaw(y.claims).(sweeps := y.sweeps);
  }

  lemma ReachSecondReady(y: System, timely: bool)
    requires Reachable(y, timely) && 2 !in y.claims
    requires y == At(10, Row(Pending, None), map[0 := Lock(1, 1, 5)], map[], y.claims).(sweeps := y.sweeps)
    ensures Reachable(SecondReady(y.claims).(sweeps := y.sweeps), timely)
  {
    hide Reachable;
    ReachSecondSaw(y, timely);
    var y1 := SecondSaw(y.claims).(sweeps := y.sweeps);
    Extend(y1, ClaimStep(2), timely);
    var y2 := SecondReady(y.claims).(sweeps := y.sweeps);
    var y3 := y2.(claims := y2.claims[2 := y2.claims[2].(pc := Acquired)]);
    assert Apply(y1, ClaimStep(2)) == y3;
    Extend(y3, ClaimStep(2), timely);
    assert Apply(y3, ClaimStep(2)) == y2;
  }

  /**
   Without the timing assumption: runner 1 marks the task running after its lease ran out, so runner 2,
   which holds the row by now, loses and releases it.  The task runs with no lock row at all, for good.
   */
  lemma LateClaimStrandsARunningTask()
    ensures exists y :: Reachable(y, false) && y.x.store.locks == map[] && Stranded(y, 1)
  {
    hide Reachable;
    ReachFirstReady(false);
    Extend(FirstReady(), Tick(10), false);
    var y0 := Apply(FirstReady(), Tick(10));
    ReachSecondReady(y0, false);
    var y1 := SecondReady(y0.claims);
    assert y1 == SecondReady(y0.claims).(sweeps := y0.sweeps);
    Extend(y1, ClaimStep(1), false);
    var y2 := Apply(y1, ClaimStep(1));
    Extend(y2, ClaimStep(2), false);
    var y3 := Apply(y2, ClaimStep(2));
    assert y3.claims[2].pc == Losing;
    Extend(y3, ClaimStep(2), false);
    var y4 := Apply(y3, ClaimStep(2));
    assert y4.x.store.locks == map[];
  }

  /**
   Within the timing assumption: the sweep read the expired row of a task that was still pending (its claimer
   had crashed); before it marks that task, another runner takes the row over and starts the same task.
   The sweep then fails a running task whose lease is alive.
   */
  lemma SweepCanFailALiveTask()
    ensures exists y, n ::
      && Reachable(y, true) && n in y.sweeps && y.sweeps[n].read && y.sweeps[n].rows != [] && !y.sweeps[n].marked
      && (var t := y.sweeps[n].rows[0].1.taskId;
          && IsRunning(y.x.store.tasks, t)
          && (exists k :: k in y.x.store.locks && y.x.store.locks[k].taskId == t && y.x.store.locks[k].lockedUntil > y.x.clock)
          && t in AdvanceSweep(y.x, y.sweeps[n]).0.store.tasks
          && AdvanceSweep(y.x, y.sweeps[n]).0.store.tasks[t].status == Failed)
  {
    hide Reachable;
    ReachSweepHasRead();
    var y3 := SweepHasRead();
    ReachSecondReady(y3, true);
    var y4 := SecondReady(y3.claims).(sweeps := y3.sweeps);
    Extend(y4, ClaimStep(2), true);
    var y5 := Apply(y4, ClaimStep(2));
    assert y5.sweeps[0] == y3.sweeps[0] && y5.sweeps[0].rows[0].1.taskId == 1;
    assert 0 in y5.x.store.locks && y5.x.store.locks[0].lockedUntil > y5.x.clock;
  }

  /** Runner 1 crashed; the sweep begun at 10 has read its expired row. */
  function SweepHasRead(): System {
    At(10, Row(Pending, None), map[0 := Lock(1, 1, 5)], map[], map[]).(sweeps := map[0 := Sweep(10, true, [(0, Lock(1, 1, 5))], false)])
  }

  lemma ReachSweepHasRead()
    ensures Reachable(SweepHasRead(), true)
  {
    hide Reachable;
    ReachFirstReady(true);
    Extend(FirstReady(), ClaimCrash(1), true);
    var y0 := At(0, Row(Pending, None), map[0 := Lock(1, 1, 5)], map[], map[]);
    assert Apply(FirstReady(), ClaimCrash(1)) == y0;
    Extend(y0, Tick(10), true);
    var y1 := At(10, Row(Pending, None), map[0 := Lock(1, 1, 5)], map[], map[]);
    assert Apply(y0, Tick(10)) == y1;
    Extend(y1, BeginSweep(0), true);
    var y2 := Apply(y1, BeginSweep(0));
    var rows := [(0, Lock(1, 1, 5))];
    assert rows[0] in rows;
    Extend(y2, SweepRead(0, rows), true);
    assert Apply(y2, SweepRead(0, rows)) == SweepHasRead();
  }

  /** A claim that could neither put a lock row on the task any more nor mark it as displaced. */
  predicate Harmless(c: Claim, t: TaskId) {
    && (c.id == t ==> c.pc == Began || c.pc == Ready || c.pc == Losing || c.pc == Won)
    && c.expired != Some(t)
  }

  /** Running, but nothing in the tables or in flight refers to it, so that nobody can write it or expire its lease. */
  ghost predicate Stranded(y: System, t: TaskId) {
    && IsRunning(y.x.store.tasks, t) && RowOk(y.x.store.tasks[t])
    && (forall k :: k in y.x.store.locks ==> y.x.store.locks[k].taskId != t)
    && (forall r :: r in y.claims ==> Harmless(y.claims[r], t))
    && (forall n :: n in y.sweeps ==> SweepSpares(y.sweeps[n], t))
  }

  predicate SweepSpares(w: Sweep, t: TaskId) {
    forall i :: 0 <= i < |w.rows| ==> w.rows[i].1.taskId != t
  }

  /** What a statement must leave alone. */
  predicate Untouched(s: Store, s': Store, t: TaskId) {
    && t in s.tasks && t in s'.tasks && s'.tasks[t] == s.tasks[t]
    && forall k :: k in s'.locks ==> s'.locks[k].taskId != t
  }

  lemma ClaimSpares(x: World, r: Runner, c: Claim, t: TaskId)
    requires IsRunning(x.store.tasks, t) && Harmless(c, t) && forall k :: k in x.store.locks ==> x.store.locks[k].taskId != t
    ensures var (x', c') := AdvanceClaim(x, r, c); Untouched(x.store, x'.store, t) && (c'.Some? ==> Harmless(c'.value, t))
  {
  }

  lemma OpSpares(x: World, op: Op, t: TaskId)
    requires IsRunning(x.store.tasks, t) && forall k :: k in x.store.locks ==> x.store.locks[k].taskId != t
    ensures Untouched(x.store, AdvanceOp(x, op).0.store, t)
  {
  }

  lemma SweepStepSpares(x: World, w: Sweep, t: TaskId)
    requires t in x.store.tasks && SweepSpares(w, t) && forall k :: k in x.store.locks ==> x.store.locks[k].taskId != t
    ensures var (x', w') := AdvanceSweep(x, w); Untouched(x.store, x'.store, t) && (w'.Some? ==> SweepSpares(w'.value, t))
  {
  }

  /** No step, timely or not, changes the row of a stranded task or frees its type. */
  lemma StrandedStays(y: System, a: Action, t: TaskId)
    requires Stranded(y, t) && Enabled(y, a)
    ensures Stranded(Apply(y, a), t) && Apply(y, a).x.store.tasks[t] == y.x.store.tasks[t]
    ensures forall id, state, now :: InsertTask(y.x.store, id, y.x.store.tasks[t].kind, state, now) == None
  {
    hide AdvanceClaim, AdvanceOp, AdvanceSweep, MarkRunning;
    assert y.x.store.tasks[t].activeKey == Some(y.x.store.tasks[t].kind);
    match a
    case ClaimStep(r) => ClaimSpares(y.x, r, y.claims[r], t);
    case OpStep(n) => OpSpares(y.x, y.ops[n], t);
    case SweepStep(n) => SweepStepSpares(y.x, y.sweeps[n], t);
    case _ =>
  }

  lemma StrandedBlocks(y: System, t: TaskId)
    requires Stranded(y, t)
    ensures t in y.x.store.tasks
    ensures forall id, state, now :: InsertTask(y.x.store, id, y.x.store.tasks[t].kind, state, now) == None
  {
    assert y.x.store.tasks[t].activeKey == Some(y.x.store.tasks[t].kind);
  }

  ghost predicate AnyStep(y: System, y': System) {
    exists a :: Enabled(y, a) && y' == Apply(y, a)
  }

  lemma AnyStepStays(y: System, y': System, t: TaskId)
    requires Stranded(y, t) && AnyStep(y, y')
    ensures Stranded(y', t) && y'.x.store.tasks[t] == y.x.store.tasks[t]
  {
    hide Stranded, Enabled, Apply;
    var a :| Enabled(y, a) && y' == Apply(y, a);
    StrandedStays(y, a, t);
  }

  /** So from then on the task runs for ever and its type accepts no new one, whatever anybody does. */
  lemma {:induction false} StrandedForever(ys: seq<System>, t: TaskId, i: nat)
    requires i < |ys| && Stranded(ys[0], t)
    requires forall j :: 0 <= j < |ys| - 1 ==> AnyStep(ys[j], ys[j + 1])
    ensures Stranded(ys[i], t) && ys[i].x.store.tasks[t] == ys[0].x.store.tasks[t]
    ensures forall id, state, now :: InsertTask(ys[i].x.store, id, ys[0].x.store.tasks[t].kind, state, now) == None
  {
    hide AnyStep, InsertTask, Active;
    if i > 0 {
      StrandedForever(ys, t, i - 1);
      assert AnyStep(ys[i - 1], ys[i - 1 + 1]);
      AnyStepStays(ys[i - 1], ys[i], t);
    }
    StrandedBlocks(ys[i], t);
  }

  /** Runner 1 runs task 1, has been told so, and its renewal, begun at 0, has not reached the database at 10. */
  function RenewalInFlight(): System {
    System(World(Store(map[1 := Row(Running, Some(1))], map[0 := Lock(1, 1, 5)]), 10, map[1 := 0], [(1, 1)]),
           map[], map[0 := RenewOp(1, 1, 0, 70)], map[])
  }

  lemma ReachRenewalInFlight()
    ensures Reachable(RenewalInFlight(), true)
  {
    hide Reachable;
    ReachFirstReady(true);
    Extend(FirstReady(), ClaimStep(1), true);
    var y1 := Apply(FirstReady(), ClaimStep(1));
    assert y1 == At(0, Row(Running, Some(1)), map[0 := Lock(1, 1, 5)], map[1 := 0], map[1 := Claim(Won, 1, 0, 0, 5, None)]);
    Extend(y1, ClaimStep(1), true);
    var y2 := Apply(y1, ClaimStep(1));
    assert y2.x.won == [(1, 1)] && y2.claims == map[];
    assert (1, 1) in y2.x.won;
    Extend(y2, BeginOp(0, RenewOp(1, 1, 0, 70)), true);
    var y3 := Apply(y2, BeginOp(0, RenewOp(1, 1, 0, 70)));
    Extend(y3, Tick(10), true);
    assert Apply(y3, Tick(10)) == RenewalInFlight();
  }

  /**
   Within the timing assumption: a renewal that read its clock in time but runs late revives a lease that has run out.
   */
  lemma LateRenewalRevivesALease()
    ensures exists y, n ::
      && Reachable(y, true) && n in y.ops && y.ops[n].RenewOp?
      && IsRunning(y.x.store.tasks, y.ops[n].id)
      && !LeaseRow(y.x.store, y.ops[n].id, y.ops[n].runner, y.x.clock)
      && LeaseRow(AdvanceOp(y.x, y.ops[n]).0.store, y.ops[n].id, y.ops[n].runner, y.x.clock)
  {
    ReachRenewalInFlight();
    var y := RenewalInFlight();
    var s' := AdvanceOp(y.x, y.ops[0]).0.store;
    assert 0 in s'.locks && s'.locks[0] == Lock(1, 1, 70);
    assert 0 in y.ops;
  }
}
