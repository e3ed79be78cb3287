/**
 The bounded worker pool of controller/channel-test.go (runChannelTestWorkers): a feeder, the
 workers and the reducer meet over two unbuffered channels, and may be cancelled at any time.
 A step is one of those meetings, or one goroutine's move to its next blocking point.
 */
module WorkerPool {
  datatype Summary = Summary(tested: int, succeeded: int, failed: int, disabled: int, enabled: int)

  const ZERO := Summary(0, 0, 0, 0, 0)

  function Add(a: Summary, b: Summary): Summary {
    Summary(a.tested + b.tested, a.succeeded + b.succeeded, a.failed + b.failed, a.disabled + b.disabled, a.enabled + b.enabled)
  }

  /**
   A job is a position in the list of channels; `eligible` says which are neither nil nor manually disabled.
   `outcome` is what `run` returns for each: since no job runs twice, any behaviour of `run` is such a function.
   */
  datatype Setup = Setup(total: nat, concurrency: nat, eligible: nat -> bool, outcome: nat -> Summary, delay: bool)

  /** The normalised concurrency is at least 1. */
  predicate SetupOk(p: Setup) {
    p.concurrency >= 1
  }

  function WorkerCount(p: Setup): nat {
    if p.concurrency < p.total then p.concurrency else p.total
  }

  /** Where a worker stands: waiting for a job, before its cancellation check, in `run`, sending, pausing, gone. */
  datatype Worker = Idle | Got(job: nat) | Running(job: nat) | Sending(job: nat, result: Summary) | Resting | Exited

  datatype Reducer = Receiving | Reporting | Done

  /** The last three fields are history: jobs started, jobs whose run returned, jobs whose result was received. */
  datatype Pool = Pool(
    cancelled: bool,
    next: nat,
    closed: bool,
    workers: seq<Worker>,
    reducer: Reducer,
    resultsClosed: bool,
    summary: Summary,
    processed: nat,
    reports: seq<nat>,
    started: seq<nat>,
    returned: seq<nat>,
    collected: seq<nat>)

  datatype Action =
    | Cancel
    | Send(w: nat)
    | CloseJobs
    | SeeCancel(w: nat)
    | SeeClosed(w: nat)
    | Check(w: nat)
    | Return(w: nat)
    | Deliver(w: nat)
    | Wake(w: nat)
    | Report
    | CloseResults
    | Finish

  function Init(p: Setup): Pool {
    Pool(false, 0, false, seq(WorkerCount(p), _ => Idle), if p.total == 0 then Done else Receiving, p.total == 0, ZERO, 0, [0], [], [], [])
  }

  predicate Enabled(p: Setup, x: Pool, a: Action) {
    match a
    case Cancel => !x.cancelled
    case Send(w) => w < |x.workers| && x.workers[w].Idle? && !x.closed && x.next < p.total
    case CloseJobs => !x.closed && (x.cancelled || x.next == p.total)
    case SeeCancel(w) => w < |x.workers| && (x.workers[w].Idle? || x.workers[w].Resting?) && x.cancelled
    case SeeClosed(w) => w < |x.workers| && x.workers[w].Idle? && x.closed
    case Check(w) => w < |x.workers| && x.workers[w].Got?
    case Return(w) => w < |x.workers| && x.workers[w].Running?
    case Deliver(w) => w < |x.workers| && x.workers[w].Sending? && x.reducer == Receiving
    case Wake(w) => w < |x.workers| && x.workers[w].Resting?
    case Report => x.reducer == Reporting
    case CloseResults => !x.resultsClosed && forall w :: 0 <= w < |x.workers| ==> x.workers[w].Exited?
    case Finish => x.reducer == Receiving && x.resultsClosed
  }

  function Move(x: Pool, w: nat, to: Worker): Pool
    requires w < |x.workers|
  {
    x.(workers := x.workers[w := to])
  }

  function Apply(p: Setup, x: Pool, a: Action): Pool
    requires Enabled(p, x, a)
  {
    match a
    case Cancel => x.(cancelled := true)
    case Send(w) => Move(x, w, Got(x.next)).(next := x.next + 1)
    case CloseJobs => x.(closed := true)
    case SeeCancel(w) => Move(x, w, Exited)
    case SeeClosed(w) => Move(x, w, Exited)
    case Check(w) =>
      var j := x.workers[w].job;
      if x.cancelled then Move(x, w, Exited)
      else if p.eligible(j) then Move(x, w, Running(j)).(started := x.started + [j])
      else Move(x, w, Sending(j, ZERO))
    case Return(w) =>
      var j := x.workers[w].job;
      Move(x, w, Sending(j, p.outcome(j))).(returned := x.returned + [j])
    case Deliver(w) =>
      Move(x, w, if p.delay then Resting else Idle)
        .(summary := Add(x.summary, x.workers[w].result), processed := x.processed + 1, reducer := Reporting,
          collected := x.collected + [x.workers[w].job])
    case Wake(w) => Move(x, w, Idle)
    case Report => x.(reducer := Receiving, reports := if x.cancelled then x.reports else x.reports + [x.processed])
    case CloseResults => x.(resultsClosed := true)
    case Finish => x.(reducer := Done)
  }

  ghost predicate Step(p: Setup, x: Pool, y: Pool) {
    exists a :: Enabled(p, x, a) && y == Apply(p, x, a)
  }

  ghost predicate Run(p: Setup, xs: seq<Pool>) {
    xs != [] && xs[0] == Init(p) && forall i :: 0 <= i < |xs| - 1 ==> Step(p, xs[i], xs[i + 1])
  }

  // ---------- the invariant ----------

  predicate Distinct(s: seq<nat>) {
    forall i, j :: 0 <= i < j < |s| ==> s[i] != s[j]
  }

  predicate Holds(k: Worker) {
    k.Got? || k.Running? || k.Sending?
  }

  /** What a job contributes. */
  function Value(p: Setup, j: nat): Summary {
    if p.eligible(j) then p.outcome(j) else ZERO
  }

  function Sum(p: Setup, jobs: seq<nat>): Summary {
    if jobs == [] then ZERO else Add(Sum(p, jobs[..|jobs| - 1]), Value(p, jobs[|jobs| - 1]))
  }

  /** Every job handed out is with at most one worker, or collected once. */
  predicate JobsOnce(workers: seq<Worker>, next: nat, collected: seq<nat>) {
    && (forall w :: 0 <= w < |workers| && Holds(workers[w]) ==> workers[w].job < next && workers[w].job !in collected)
    && (forall v, w :: 0 <= v < w < |workers| && Holds(workers[v]) && Holds(workers[w]) ==> workers[v].job != workers[w].job)
    && (forall j :: j in collected ==> j < next)
    && Distinct(collected)
  }

  predicate Held(workers: seq<Worker>, j: nat) {
    exists w :: 0 <= w < |workers| && Holds(workers[w]) && workers[w].job == j
  }

  /** Unless cancelled, no job handed out gets lost. */
  predicate NoneLost(workers: seq<Worker>, next: nat, collected: seq<nat>) {
    forall j :: 0 <= j < next ==> Held(workers, j) || j in collected
  }

  predicate RunsOnce(p: Setup, workers: seq<Worker>, next: nat, started: seq<nat>) {
    && (forall j :: j in started ==> j < next && p.eligible(j))
    && (forall w :: 0 <= w < |workers| && workers[w].Got? ==> workers[w].job !in started)
    && Distinct(started)
  }

  /** A result that counts comes from a run that was started and returned. */
  predicate ResultsFromRuns(p: Setup, workers: seq<Worker>, started: seq<nat>, returned: seq<nat>, collected: seq<nat>) {
    && (forall w :: 0 <= w < |workers| && workers[w].Running? ==> workers[w].job in started)
    && (forall w :: 0 <= w < |workers| && workers[w].Sending? && p.eligible(workers[w].job) ==> workers[w].job in returned)
    && (forall j :: j in collected && p.eligible(j) ==> j in returned)
    && (forall j :: j in returned ==> j in started)
  }

  predicate ResultsOk(p: Setup, workers: seq<Worker>) {
    forall w :: 0 <= w < |workers| ==>
      (workers[w].Running? ==> p.eligible(workers[w].job)) && (workers[w].Sending? ==> workers[w].result == Value(p, workers[w].job))
  }

  function Busy(workers: seq<Worker>): nat {
    if workers == [] then 0
    else Busy(workers[..|workers| - 1]) + if workers[|workers| - 1].Running? then 1 else 0
  }

  predicate Counts(p: Setup, x: Pool) {
    && x.summary == Sum(p, x.collected) && x.processed == |x.collected|
    && |x.started| == |x.returned| + Busy(x.workers)
  }

  /** Progress is reported as 0, 1, 2, ..., and up to date unless cancelled. */
  predicate ReportsOk(x: Pool) {
    && |x.reports| >= 1 && (forall i :: 0 <= i < |x.reports| ==> x.reports[i] == i)
    && |x.reports| + (if x.reducer == Reporting then 1 else 0) <= x.processed + 1
    && (!x.cancelled ==> |x.reports| + (if x.reducer == Reporting then 1 else 0) == x.processed + 1)
  }

  predicate AllExited(workers: seq<Worker>) {
    forall w :: 0 <= w < |workers| ==> workers[w].Exited?
  }

  predicate PhasesOk(p: Setup, x: Pool) {
    && x.next <= p.total && |x.workers| == WorkerCount(p)
    && (x.closed && !x.cancelled ==> x.next == p.total)
    && (!x.cancelled && !x.closed ==> forall w :: 0 <= w < |x.workers| ==> !x.workers[w].Exited?)
    && (x.resultsClosed ==> AllExited(x.workers))
    && (x.reducer == Done ==> x.resultsClosed)
  }

  predicate Inv(p: Setup, x: Pool) {
    && JobsOnce(x.workers, x.next, x.collected)
    && (!x.cancelled ==> NoneLost(x.workers, x.next, x.collected))
    && RunsOnce(p, x.workers, x.next, x.started) && ResultsOk(p, x.workers)
    && ResultsFromRuns(p, x.workers, x.started, x.returned, x.collected)
    && Counts(p, x) && ReportsOk(x) && PhasesOk(p, x)
  }

  lemma {:induction false} BusyIdle(n: nat)
    ensures Busy(seq(n, _ => Idle)) == 0
  {
    if n > 0 {
      assert seq(n, _ => Idle)[..n - 1] == seq(n - 1, _ => Idle);
      BusyIdle(n - 1);
    }
  }

  lemma {:induction false} BusyMove(workers: seq<Worker>, w: nat, to: Worker)
    requires w < |workers|
    ensures Busy(workers[w := to]) == Busy(workers) - (if workers[w].Running? then 1 else 0) + (if to.Running? then 1 else 0)
  {
    var n := |workers| - 1;
    if w < n {
      assert workers[w := to][..n] == workers[..n][w := to];
      BusyMove(workers[..n], w, to);
    } else {
      assert workers[w := to][..n] == workers[..n];
    }
  }

  lemma {:induction false} BusyBound(workers: seq<Worker>)
    ensures Busy(workers) <= |workers|
  {
    if workers != [] { BusyBound(workers[..|workers| - 1]); }
  }

  lemma InitInv(p: Setup)
    ensures Inv(p, Init(p))
  {
    BusyIdle(WorkerCount(p));
  }

  /** A worker that keeps its job, or drops one it never held, leaves the others' jobs alone. */
  lemma MoveKeepsJobs(workers: seq<Worker>, w: nat, to: Worker, next: nat, collected: seq<nat>)
    requires w < |workers| && JobsOnce(workers, next, collected)
    requires Holds(to) ==> Holds(workers[w]) && to.job == workers[w].job
    ensures JobsOnce(workers[w := to], next, collected)
  {
  }

  lemma MoveLosesNone(workers: seq<Worker>, w: nat, to: Worker, next: nat, collected: seq<nat>)
    requires w < |workers| && NoneLost(workers, next, collected)
    requires Holds(workers[w]) ==> Holds(to) && to.job == workers[w].job
    ensures NoneLost(workers[w := to], next, collected)
  {
    forall j | 0 <= j < next && j !in collected ensures Held(workers[w := to], j) {
      HeldAfter(workers, w, to, j);
    }
  }

  lemma HeldAfter(workers: seq<Worker>, w: nat, to: Worker, j: nat)
    requires w < |workers| && Held(workers, j) && (Holds(workers[w]) && workers[w].job == j ==> Holds(to) && to.job == j)
    ensures Held(workers[w := to], j)
  {
    var v :| 0 <= v < |workers| && Holds(workers[v]) && workers[v].job == j;
    assert Holds(workers[w := to][v]) && workers[w := to][v].job == j;
  }

  /** Moves in which a worker gets no job and hands none in. */
  lemma QuietMoveKeepsInv(p: Setup, x: Pool, w: nat, to: Worker)
    requires Inv(p, x) && w < |x.workers| && !x.workers[w].Running? && !to.Running? && !to.Got? && !x.workers[w].Exited?
    requires Holds(to) ==> Holds(x.workers[w]) && to.job == x.workers[w].job
    requires !x.cancelled ==> (Holds(x.workers[w]) ==> Holds(to)) && (to.Exited? ==> x.closed)
    requires to.Sending? ==> !p.eligible(to.job) && to.result == ZERO
    ensures Inv(p, Move(x, w, to))
  {
    hide JobsOnce, NoneLost;
    MoveKeepsJobs(x.workers, w, to, x.next, x.collected);
    if !x.cancelled { MoveLosesNone(x.workers, w, to, x.next, x.collected); }
    BusyMove(x.workers, w, to);
    assert x.resultsClosed ==> AllExited(x.workers);
  }

  lemma SendKeepsJobs(x: Pool, w: nat)
    requires JobsOnce(x.workers, x.next, x.collected) && w < |x.workers| && x.workers[w].Idle?
    ensures JobsOnce(x.workers[w := Got(x.next)], x.next + 1, x.collected)
    ensures NoneLost(x.workers, x.next, x.collected) ==> NoneLost(x.workers[w := Got(x.next)], x.next + 1, x.collected)
  {
    var workers := x.workers[w := Got(x.next)];
    if NoneLost(x.workers, x.next, x.collected) {
      forall j | 0 <= j < x.next + 1 && j !in x.collected ensures Held(workers, j) {
        if j == x.next { assert Holds(workers[w]); } else { HeldAfter(x.workers, w, Got(x.next), j); }
      }
    }
  }

  lemma SendKeepsInv(p: Setup, x: Pool, w: nat)
    requires Inv(p, x) && Enabled(p, x, Send(w))
    ensures Inv(p, Apply(p, x, Send(w)))
  {
    hide JobsOnce, NoneLost;
    SendKeepsJobs(x, w);
    BusyMove(x.workers, w, Got(x.next));
  }

  lemma StartKeepsRuns(p: Setup, x: Pool, w: nat)
    requires JobsOnce(x.workers, x.next, x.collected) && RunsOnce(p, x.workers, x.next, x.started)
    requires w < |x.workers| && x.workers[w].Got? && p.eligible(x.workers[w].job)
    ensures var j := x.workers[w].job; RunsOnce(p, x.workers[w := Running(j)], x.next, x.started + [j])
  {
  }

  lemma StartKeepsResults(p: Setup, x: Pool, w: nat)
    requires ResultsOk(p, x.workers) && ResultsFromRuns(p, x.workers, x.started, x.returned, x.collected)
    requires w < |x.workers| && x.workers[w].Got? && p.eligible(x.workers[w].job)
    ensures var j := x.workers[w].job; var workers := x.workers[w := Running(j)];
      ResultsOk(p, workers) && ResultsFromRuns(p, workers, x.started + [j], x.returned, x.collected)
  {
  }

  lemma ReturnKeepsResults(p: Setup, x: Pool, w: nat)
    requires ResultsOk(p, x.workers) && ResultsFromRuns(p, x.workers, x.started, x.returned, x.collected)
    requires w < |x.workers| && x.workers[w].Running?
    ensures var j := x.workers[w].job; var workers := x.workers[w := Sending(j, p.outcome(j))];
      ResultsOk(p, workers) && ResultsFromRuns(p, workers, x.started, x.returned + [j], x.collected)
  {
  }

  lemma DeliverKeepsResults(p: Setup, x: Pool, w: nat, to: Worker)
    requires ResultsOk(p, x.workers) && ResultsFromRuns(p, x.workers, x.started, x.returned, x.collected)
    requires w < |x.workers| && x.workers[w].Sending? && (to.Idle? || to.Resting?)
    ensures var j := x.workers[w].job; var workers := x.workers[w := to];
      ResultsOk(p, workers) && ResultsFromRuns(p, workers, x.started, x.returned, x.collected + [j])
    ensures x.workers[w].result == Value(p, x.workers[w].job)
  {
  }

  lemma StartKeepsInv(p: Setup, x: Pool, w: nat)
    requires Inv(p, x) && Enabled(p, x, Check(w)) && !x.cancelled && p.eligible(x.workers[w].job)
    ensures Inv(p, Apply(p, x, Check(w)))
  {
    hide JobsOnce, NoneLost, RunsOnce, ResultsOk, ResultsFromRuns;
    var to := Running(x.workers[w].job);
    StartKeepsRuns(p, x, w);
    StartKeepsResults(p, x, w);
    MoveKeepsJobs(x.workers, w, to, x.next, x.collected);
    MoveLosesNone(x.workers, w, to, x.next, x.collected);
    BusyMove(x.workers, w, to);
  }

  lemma ReturnKeepsInv(p: Setup, x: Pool, w: nat)
    requires Inv(p, x) && Enabled(p, x, Return(w))
    ensures Inv(p, Apply(p, x, Return(w)))
  {
    hide JobsOnce, NoneLost, ResultsOk, ResultsFromRuns;
    var j := x.workers[w].job;
    var to := Sending(j, p.outcome(j));
    ReturnKeepsResults(p, x, w);
    MoveKeepsJobs(x.workers, w, to, x.next, x.collected);
    if !x.cancelled { MoveLosesNone(x.workers, w, to, x.next, x.collected); }
    BusyMove(x.workers, w, to);
  }

  lemma DeliverKeepsJobs(x: Pool, w: nat, to: Worker)
    requires JobsOnce(x.workers, x.next, x.collected) && w < |x.workers| && Holds(x.workers[w]) && !Holds(to)
    ensures JobsOnce(x.workers[w := to], x.next, x.collected + [x.workers[w].job])
  {
  }

  lemma DeliverLosesNone(x: Pool, w: nat, to: Worker)
    requires NoneLost(x.workers, x.next, x.collected) && w < |x.workers| && Holds(x.workers[w])
    ensures NoneLost(x.workers[w := to], x.next, x.collected + [x.workers[w].job])
  {
    var collected := x.collected + [x.workers[w].job];
    assert collected[|x.collected|] == x.workers[w].job;
    forall j | 0 <= j < x.next && j !in collected ensures Held(x.workers[w := to], j) {
      HeldAfter(x.workers, w, to, j);
    }
  }

  lemma SumAppend(p: Setup, jobs: seq<nat>, j: nat)
    ensures Sum(p, jobs + [j]) == Add(Sum(p, jobs), Value(p, j))
  {
    assert (jobs + [j])[..|jobs|] == jobs;
  }

  lemma DeliverKeepsInv(p: Setup, x: Pool, w: nat)
    requires Inv(p, x) && Enabled(p, x, Deliver(w))
    ensures Inv(p, Apply(p, x, Deliver(w)))
  {
    hide JobsOnce, NoneLost, ResultsOk, ResultsFromRuns, Sum, Value;
    var to := if p.delay then Resting else Idle;
    DeliverKeepsResults(p, x, w, to);
    DeliverKeepsJobs(x, w, to);
    if !x.cancelled { DeliverLosesNone(x, w, to); }
    SumAppend(p, x.collected, x.workers[w].job);
    BusyMove(x.workers, w, to);
  }

  lemma StepKeepsInv(p: Setup, x: Pool, a: Action)
    requires Inv(p, x) && Enabled(p, x, a)
    ensures Inv(p, Apply(p, x, a))
  {
    hide JobsOnce, NoneLost, Counts, RunsOnce;
    match a
    case Send(w) => SendKeepsInv(p, x, w);
    case SeeCancel(w) => QuietMoveKeepsInv(p, x, w, Exited);
    case SeeClosed(w) => QuietMoveKeepsInv(p, x, w, Exited);
    case Wake(w) => QuietMoveKeepsInv(p, x, w, Idle);
    case Check(w) =>
      var j := x.workers[w].job;
      if x.cancelled { QuietMoveKeepsInv(p, x, w, Exited); }
      else if p.eligible(j) { StartKeepsInv(p, x, w); }
      else { QuietMoveKeepsInv(p, x, w, Sending(j, ZERO)); }
    case Return(w) => ReturnKeepsInv(p, x, w);
    case Deliver(w) => DeliverKeepsInv(p, x, w);
    case _ => CentralStepKeepsInv(p, x, a);
  }

  /** The steps that move no worker. */
  lemma CentralStepKeepsInv(p: Setup, x: Pool, a: Action)
    requires Inv(p, x) && Enabled(p, x, a) && (a.Cancel? || a.CloseJobs? || a.Report? || a.CloseResults? || a.Finish?)
    ensures Inv(p, Apply(p, x, a))
  {
    hide JobsOnce, NoneLost, RunsOnce;
  }

  lemma {:induction false} RunKeepsInv(p: Setup, xs: seq<Pool>, i: nat)
    requires Run(p, xs) && i < |xs|
    ensures Inv(p, xs[i])
  {
    if i == 0 {
      InitInv(p);
    } else {
      RunKeepsInv(p, xs, i - 1);
      assert Step(p, xs[i - 1], xs[i - 1 + 1]);
      var a :| Enabled(p, xs[i - 1], a) && xs[i] == Apply(p, xs[i - 1], a);
      StepKeepsInv(p, xs[i - 1], a);
    }
  }

  // ---------- what the pool promises, whatever the schedule ----------

  /** No channel is run twice, and none but the eligible ones given. */
  lemma NoChannelRunsTwice(p: Setup, xs: seq<Pool>, i: nat, a: nat, b: nat)
    requires Run(p, xs) && i < |xs| && a < b < |xs[i].started|
    ensures xs[i].started[a] != xs[i].started[b]
    ensures xs[i].started[a] < p.total && p.eligible(xs[i].started[a])
  {
    RunKeepsInv(p, xs, i);
    assert xs[i].started[a] in xs[i].started;
  }

  /** There are as many workers as the concurrency allows, but no more than channels, and never more runs in flight. */
  lemma InFlightIsBounded(p: Setup, xs: seq<Pool>, i: nat)
    requires Run(p, xs) && i < |xs|
    ensures |xs[i].returned| <= |xs[i].started|
    ensures |xs[i].started| - |xs[i].returned| <= p.concurrency && |xs[i].started| - |xs[i].returned| <= p.total
    ensures |xs[i].workers| <= p.concurrency && |xs[i].workers| <= p.total
    ensures |xs[i].workers| == p.concurrency || |xs[i].workers| == p.total
  {
    RunKeepsInv(p, xs, i);
    BusyBound(xs[i].workers);
  }

  function SumTo(p: Setup, n: nat): Summary {
    if n == 0 then ZERO else Add(SumTo(p, n - 1), Value(p, n - 1))
  }

  function Drop(s: seq<nat>, i: nat): seq<nat>
    requires i < |s|
  {
    s[..i] + s[i + 1..]
  }

  lemma AddSwap(a: Summary, b: Summary, c: Summary)
    ensures Add(Add(a, b), c) == Add(Add(a, c), b)
  {
  }

  lemma DropLast(s: seq<nat>, i: nat)
    requires i < |s| - 1
    ensures Drop(s, i) == Drop(s[..|s| - 1], i) + [s[|s| - 1]]
  {
  }

  lemma {:induction false} SumDrop(p: Setup, s: seq<nat>, i: nat)
    requires i < |s|
    ensures Sum(p, s) == Add(Sum(p, Drop(s, i)), Value(p, s[i]))
  {
    hide Value, Add;
    var n := |s| - 1;
    var t := s[..n];
    if i < n {
      SumDrop(p, t, i);
      hide Drop, Sum;
      DropLast(s, i);
      SumAppend(p, Drop(t, i), s[n]);
      assert t + [s[n]] == s && t[i] == s[i];
      SumAppend(p, t, s[n]);
      AddSwap(Sum(p, Drop(t, i)), Value(p, s[i]), Value(p, s[n]));
    } else {
      assert Drop(s, i) == t;
    }
  }

  /** `s` lists the numbers below `n`. */
  predicate Covers(s: seq<nat>, n: nat) {
    (forall i :: 0 <= i < |s| ==> s[i] < n) && (forall j :: 0 <= j < n ==> j in s)
  }

  lemma FirstIsNat(s: seq<nat>)
    ensures s == [] || s[0] >= 0
  {
  }

  /** The order of collection does not matter to the sum. */
  lemma {:induction false} SumOfAll(p: Setup, s: seq<nat>, n: nat)
    requires Distinct(s) && Covers(s, n)
    ensures Sum(p, s) == SumTo(p, n) && |s| == n
  {
    if n > 0 {
      assert n - 1 in s;
      var i :| 0 <= i < |s| && s[i] == n - 1;
      DropDistinct(s, i, n);
      SumDrop(p, s, i);
      SumOfAll(p, Drop(s, i), n - 1);
    } else {
      FirstIsNat(s);
    }
  }

  lemma DropDistinct(s: seq<nat>, i: nat, n: nat)
    requires Distinct(s) && i < |s| && s[i] == n - 1 && Covers(s, n)
    ensures Distinct(Drop(s, i)) && Covers(Drop(s, i), n - 1)
  {
    forall j | 0 <= j < n - 1 ensures j in Drop(s, i) {
      assert j in s;
      var k :| 0 <= k < |s| && s[k] == j;
      assert Drop(s, i)[if k < i then k else k - 1] == j;
    }
    forall k | 0 <= k < |Drop(s, i)| ensures Drop(s, i)[k] < n - 1 {
      assert Drop(s, i)[k] == s[if k < i then k else k + 1] != s[i];
    }
  }

  /** A finished pool that was not cancelled: the sum over all channels, and reports 0, 1, ..., total. */
  lemma UncancelledOutcome(p: Setup, xs: seq<Pool>)
    requires Run(p, xs) && SetupOk(p)
    requires var x := xs[|xs| - 1]; x.reducer == Done && !x.cancelled
    ensures var x := xs[|xs| - 1];
      && x.summary == SumTo(p, p.total)
      && x.reports == seq(p.total + 1, i => i)
      && (forall j :: 0 <= j < p.total && p.eligible(j) ==> j in x.returned)
  {
    var x := xs[|xs| - 1];
    RunKeepsInv(p, xs, |xs| - 1);
    EverythingHandedOut(p, x);
    forall j | 0 <= j < p.total ensures j in x.collected {
      assert !Held(x.workers, j);
    }
    forall i | 0 <= i < |x.collected| ensures x.collected[i] < p.total {
      assert x.collected[i] in x.collected;
    }
    SumOfAll(p, x.collected, p.total);
  }

  /** The sum of a number over the first `n` channels. */
  function TotalOf(f: nat -> int, n: nat): int {
    if n == 0 then 0 else TotalOf(f, n - 1) + f(n - 1)
  }

  /** What each channel contributes to a number of the summary. */
  function Contribution(p: Setup, of: Summary -> int): nat -> int {
    (j: nat) => if p.eligible(j) then of(p.outcome(j)) else 0
  }

  lemma {:induction false} SumToFields(p: Setup, n: nat)
    ensures var s := SumTo(p, n);
      && s.tested == TotalOf(Contribution(p, (o: Summary) => o.tested), n)
      && s.succeeded == TotalOf(Contribution(p, (o: Summary) => o.succeeded), n)
      && s.failed == TotalOf(Contribution(p, (o: Summary) => o.failed), n)
      && s.disabled == TotalOf(Contribution(p, (o: Summary) => o.disabled), n)
      && s.enabled == TotalOf(Contribution(p, (o: Summary) => o.enabled), n)
  {
    if n > 0 { SumToFields(p, n - 1); }
  }

  /** Number by number: each of the five is the sum of that number over the eligible channels. */
  lemma UncancelledNumbers(p: Setup, xs: seq<Pool>)
    requires Run(p, xs) && SetupOk(p)
    requires var x := xs[|xs| - 1]; x.reducer == Done && !x.cancelled
    ensures var s := xs[|xs| - 1].summary;
      && s.tested == TotalOf(Contribution(p, (o: Summary) => o.tested), p.total)
      && s.succeeded == TotalOf(Contribution(p, (o: Summary) => o.succeeded), p.total)
      && s.failed == TotalOf(Contribution(p, (o: Summary) => o.failed), p.total)
      && s.disabled == TotalOf(Contribution(p, (o: Summary) => o.disabled), p.total)
      && s.enabled == TotalOf(Contribution(p, (o: Summary) => o.enabled), p.total)
  {
    hide Run;
    UncancelledOutcome(p, xs);
    SumToFields(p, p.total);
  }

  // ---------- cancellation and pauses ----------

  lemma StepAfterCancel(p: Setup, x: Pool, a: Action)
    requires Enabled(p, x, a) && x.cancelled
    ensures var y := Apply(p, x, a); y.cancelled && y.started == x.started && y.reports == x.reports
  {
  }

  /** Once cancelled, no further run is started and no progress reported. */
  lemma {:induction false} NothingStartsAfterCancel(p: Setup, xs: seq<Pool>, i: nat, j: nat)
    requires Run(p, xs) && i <= j < |xs| && xs[i].cancelled
    ensures xs[j].cancelled && xs[j].started == xs[i].started && xs[j].reports == xs[i].reports
    decreases j
  {
    hide Enabled, Apply;
    if i < j {
      NothingStartsAfterCancel(p, xs, i, j - 1);
      assert Step(p, xs[j - 1], xs[j - 1 + 1]);
      var a :| Enabled(p, xs[j - 1], a) && xs[j] == Apply(p, xs[j - 1], a);
      StepAfterCancel(p, xs[j - 1], a);
    }
  }

  lemma OnlyDeliveryEndsSending(p: Setup, x: Pool, a: Action, w: nat)
    requires Enabled(p, x, a) && w < |x.workers| && x.workers[w].Sending?
    ensures |Apply(p, x, a).workers| == |x.workers|
    ensures Apply(p, x, a).workers[w] == if a != Deliver(w) then x.workers[w] else if p.delay then Resting else Idle
  {
    hide Add;
  }

  /** With a request interval a worker that has handed in a result pauses before it takes another job, and without one it does not. */
  lemma WorkersPause(p: Setup, x: Pool, y: Pool, w: nat)
    requires Step(p, x, y) && w < |x.workers| && x.workers[w].Sending?
    ensures w < |y.workers|
    ensures y.workers[w] != x.workers[w] ==> y.workers[w] == if p.delay then Resting else Idle
  {
    hide Enabled, Apply;
    var a :| Enabled(p, x, a) && y == Apply(p, x, a);
    OnlyDeliveryEndsSending(p, x, a, w);
  }

  lemma EverythingHandedOut(p: Setup, x: Pool)
    requires Inv(p, x) && SetupOk(p) && x.reducer == Done && !x.cancelled
    ensures x.next == p.total
  {
    if p.total > 0 {
      assert x.workers[0].Exited?;
    }
  }

  /** Cancelled or not, at any moment: the sum over distinct channels, each ineligible or run to its end; reports are 0, 1, 2, ... */
  lemma OutcomeSoFar(p: Setup, xs: seq<Pool>, i: nat)
    requires Run(p, xs) && i < |xs|
    ensures var x := xs[i];
      && x.summary == Sum(p, x.collected) && Distinct(x.collected)
      && (forall j :: j in x.collected ==> j < p.total && (p.eligible(j) ==> j in x.returned && j in x.started))
      && x.processed == |x.collected| && |x.reports| <= x.processed + 1
      && (forall k :: 0 <= k < |x.reports| ==> x.reports[k] == k)
  {
    RunKeepsInv(p, xs, i);
  }

  // ---------- the pool always drains ----------

  function Weight(k: Worker): nat {
    match k
    case Exited => 0
    case Idle => 1
    case Resting => 2
    case Sending(_, _) => 5
    case Running(_) => 6
    case Got(_) => 7
  }

  function Weights(workers: seq<Worker>): nat {
    if workers == [] then 0 else Weights(workers[..|workers| - 1]) + Weight(workers[|workers| - 1])
  }

  function Measure(p: Setup, x: Pool): nat
    requires x.next <= p.total
  {
    7 * (p.total - x.next) + Weights(x.workers)
    + (if x.cancelled then 0 else 1) + (if x.closed then 0 else 1) + (if x.resultsClosed then 0 else 1)
    + (match x.reducer case Done => 0 case Receiving => 1 case Reporting => 2)
  }

  lemma {:induction false} WeightsMove(workers: seq<Worker>, w: nat, to: Worker)
    requires w < |workers|
    ensures Weights(workers[w := to]) == Weights(workers) - Weight(workers[w]) + Weight(to)
  {
    var n := |workers| - 1;
    if w < n {
      assert workers[w := to][..n] == workers[..n][w := to];
      WeightsMove(workers[..n], w, to);
    } else {
      assert workers[w := to][..n] == workers[..n];
    }
  }

  lemma StepShrinks(p: Setup, x: Pool, a: Action)
    requires Enabled(p, x, a) && x.next <= p.total
    ensures Apply(p, x, a).next <= p.total && Measure(p, Apply(p, x, a)) < Measure(p, x)
  {
    hide Weights;
    if a.Send? || a.SeeCancel? || a.SeeClosed? || a.Check? || a.Return? || a.Deliver? || a.Wake? {
      WeightsMove(x.workers, a.w, Apply(p, x, a).workers[a.w]);
      assert Apply(p, x, a).workers == x.workers[a.w := Apply(p, x, a).workers[a.w]];
    }
  }

  /** No run is longer than the measure of the initial state ... */
  lemma {:induction false} RunsAreBounded(p: Setup, xs: seq<Pool>)
    requires Run(p, xs)
    ensures xs[|xs| - 1].next <= p.total
    ensures |xs| - 1 + Measure(p, xs[|xs| - 1]) <= Measure(p, Init(p))
    decreases |xs|
  {
    var n := |xs| - 1;
    if n > 0 {
      var before := xs[..n];
      assert Run(p, before) by {
        forall i | 0 <= i < |before| - 1 ensures Step(p, before[i], before[i + 1]) {
          assert Step(p, xs[i], xs[i + 1]);
        }
      }
      RunsAreBounded(p, before);
      assert Step(p, xs[n - 1], xs[n - 1 + 1]);
      var a :| Enabled(p, xs[n - 1], a) && xs[n] == Apply(p, xs[n - 1], a);
      StepShrinks(p, xs[n - 1], a);
    }
  }

  /** ... and until the reducer is done some goroutine can move without anyone cancelling: there is no deadlock. */
  lemma SomeoneCanMove(p: Setup, xs: seq<Pool>, i: nat) returns (a: Action)
    requires Run(p, xs) && i < |xs| && xs[i].reducer != Done
    ensures a != Cancel && Enabled(p, xs[i], a)
  {
    RunKeepsInv(p, xs, i);
    a := NextMove(p, xs[i]);
  }

  lemma NextMove(p: Setup, x: Pool) returns (a: Action)
    requires PhasesOk(p, x) && x.reducer != Done
    ensures a != Cancel && Enabled(p, x, a)
  {
    if x.reducer == Reporting {
      a := Report;
    } else if w: nat :| w < |x.workers| && !x.workers[w].Exited? {
      var k := x.workers[w];
      a := if k.Got? then Check(w) else if k.Running? then Return(w) else if k.Sending? then Deliver(w)
        else if k.Resting? then Wake(w) else if x.closed then SeeClosed(w) else if x.next < p.total then Send(w) else CloseJobs;
    } else {
      a := if x.resultsClosed then Finish else CloseResults;
    }
  }
}
