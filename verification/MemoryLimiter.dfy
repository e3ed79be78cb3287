/**
 The shared in-memory rate limiter (common/rate-limit.go): a queue of admission times per key,
 dropped by a sweep once its newest entry is older than the expiration.
 */
module MemoryLimiter {
  import opened Options
  import opened Sets

  type Queue = seq<int>

  /** One request: the queue afterwards and whether it is admitted. */
  function Requested(q: Option<Queue>, limit: nat, duration: int, now: int): (Option<Queue>, bool)
    requires q.Some? ==> q.value != []
  {
    match q
    case None => (Some([now]), true)
    case Some(times) =>
      if |times| < limit then (Some(times + [now]), true)
      else if now - times[0] >= duration then (Some(times[1..] + [now]), true)
      else (q, false)
  }

  /** One key's part of a sweep. */
  function Swept(q: Option<Queue>, expiration: int, now: int): Option<Queue>
    requires q.Some? ==> q.value != []
  {
    if q.Some? && now - q.value[|q.value| - 1] > expiration then None else q
  }

  // ---------- whole runs of one key ----------

  datatype Event = Request(now: int) | Sweep(now: int)

  /** History beside the queue: all admission times, how many precede the present queue's creation, and the last event's time. */
  datatype Run = Run(q: Option<Queue>, admitted: seq<int>, cut: nat, last: int)

  datatype Limits = Limits(limit: nat, duration: int, expiration: int)

  /** The limits that hold in every run: whatever a sweep forgets is at least the duration old by then, or nothing is ever swept. */
  predicate LimitsOk(l: Limits) {
    l.duration <= l.expiration + 1 || l.expiration <= 0
  }

  /** A limit of 0 acts as 1: the first request of a key is always admitted. */
  function Effective(l: Limits): nat {
    if l.limit == 0 then 1 else l.limit
  }

  predicate QueueOk(r: Run) {
    r.q.Some? ==> r.q.value != []
  }

  function Next(l: Limits, r: Run, e: Event): Run
    requires QueueOk(r)
  {
    match e
    case Request(now) =>
      var (q', ok) := Requested(r.q, l.limit, l.duration, now);
      Run(q', if ok then r.admitted + [now] else r.admitted, r.cut, now)
    case Sweep(now) =>
      var q' := Swept(r.q, l.expiration, now);
      Run(q', r.admitted, if q' == None then |r.admitted| else r.cut, now)
  }

  function After(l: Limits, start: int, events: seq<Event>): (r: Run)
    ensures QueueOk(r)
  {
    if events == [] then Run(None, [], 0, start) else Next(l, After(l, start, events[..|events| - 1]), events[|events| - 1])
  }

  /** The clock does not go back, and there is a sweep only if the expiration is positive. */
  predicate Valid(l: Limits, start: int, events: seq<Event>) {
    events == []
    || (Valid(l, start, events[..|events| - 1]) && May(l, After(l, start, events[..|events| - 1]), events[|events| - 1]))
  }

  predicate May(l: Limits, r: Run, e: Event) {
    r.last <= e.now && (e.Sweep? ==> l.expiration > 0)
  }

  /** What was admitted before the present queue was made has expired. */
  predicate Forgotten(l: Limits, admitted: seq<int>, cut: nat, last: int)
    requires cut <= |admitted|
  {
    (cut > 0 ==> l.expiration > 0) && forall j :: 0 <= j < cut ==> last - admitted[j] > l.expiration
  }

  lemma StaysForgotten(l: Limits, admitted: seq<int>, cut: nat, last: int, now: int)
    requires cut <= |admitted| && Forgotten(l, admitted, cut, last) && last <= now
    ensures Forgotten(l, admitted, cut, now) && Forgotten(l, admitted + [now], cut, now)
  {
  }

  /** The queue is the latest part of the admissions since `cut`, all of it while it is not full. */
  predicate IsTail(m: nat, times: Queue, admitted: seq<int>, cut: nat) {
    var n := |admitted|;
    && |times| <= n - cut && |times| <= m && times == admitted[n - |times|..]
    && (|times| < m ==> |times| == n - cut)
  }

  lemma PushKeepsTail(m: nat, times: Queue, admitted: seq<int>, cut: nat, now: int)
    requires IsTail(m, times, admitted, cut)
    ensures |times| < m ==> IsTail(m, times + [now], admitted + [now], cut)
    ensures times != [] && |times| == m ==> IsTail(m, times[1..] + [now], admitted + [now], cut)
  {
    var n := |admitted|;
    assert (admitted + [now])[n - |times|..] == times + [now];
    if times != [] {
      assert (admitted + [now])[n + 1 - |times|..] == times[1..] + [now];
    }
  }

  /**
   The queue holds the latest admissions since it was made, all of them while it is not full;
   everything admitted before it was made has expired.
   */
  predicate Inv(l: Limits, r: Run) {
    && QueueOk(r) && r.cut <= |r.admitted| && Forgotten(l, r.admitted, r.cut, r.last)
    && (r.q == None ==> r.cut == |r.admitted|)
    && (r.q.Some? ==> IsTail(Effective(l), r.q.value, r.admitted, r.cut))
    && (forall j :: 0 <= j < |r.admitted| ==> r.admitted[j] <= r.last)
  }

  lemma RequestKeepsInv(l: Limits, r: Run, now: int)
    requires Inv(l, r) && r.last <= now
    ensures Inv(l, Next(l, r, Request(now)))
  {
    StaysForgotten(l, r.admitted, r.cut, r.last, now);
    hide Forgotten, IsTail;
    if r.q.Some? {
      PushKeepsTail(Effective(l), r.q.value, r.admitted, r.cut, now);
      TailFits(Effective(l), r.q.value, r.admitted, r.cut);
    } else {
      assert r.admitted + [now] == r.admitted[..r.cut] + [now];
      NewTail(Effective(l), r.admitted, now);
    }
  }

  lemma TailFits(m: nat, times: Queue, admitted: seq<int>, cut: nat)
    requires IsTail(m, times, admitted, cut)
    ensures |times| <= m
  {
  }

  lemma NewTail(m: nat, admitted: seq<int>, now: int)
    requires m > 0
    ensures IsTail(m, [now], admitted + [now], |admitted|)
  {
  }

  /** Admissions before the newest are no later, so a sweep expires them all. */
  lemma SweepKeepsInv(l: Limits, r: Run, now: int)
    requires Inv(l, r) && r.last <= now && Ordered(r.admitted) && l.expiration > 0
    ensures Inv(l, Next(l, r, Sweep(now)))
  {
    if r.q.Some? {
      var n := |r.admitted|;
      assert r.q.value[|r.q.value| - 1] == r.admitted[n - 1];
      assert forall j :: 0 <= j < n ==> r.admitted[j] <= r.admitted[n - 1];
    }
  }

  predicate Ordered(s: seq<int>) {
    forall i, j :: 0 <= i < j < |s| ==> s[i] <= s[j]
  }

  lemma StaysOrdered(l: Limits, r: Run, e: Event)
    requires Inv(l, r) && Ordered(r.admitted) && r.last <= e.now
    ensures Ordered(Next(l, r, e).admitted)
  {
    hide IsTail, Forgotten;
  }

  lemma FreshIsOk(l: Limits, start: int)
    ensures Inv(l, Run(None, [], 0, start)) && Ordered([])
  {
  }

  lemma {:induction false} RunKeepsInv(l: Limits, start: int, events: seq<Event>)
    requires Valid(l, start, events)
    ensures Inv(l, After(l, start, events)) && Ordered(After(l, start, events).admitted)
  {
    hide Inv, Next, Ordered;
    FreshIsOk(l, start);
    if events != [] {
      var before := After(l, start, events[..|events| - 1]);
      var e := events[|events| - 1];
      RunKeepsInv(l, start, events[..|events| - 1]);
      StaysOrdered(l, before, e);
      if e.Request? { RequestKeepsInv(l, before, e.now); } else { SweepKeepsInv(l, before, e.now); }
    }
  }

  /** A request is admitted exactly when the one that many admissions ago is at least the duration old; sweeps make no difference. */
  lemma RequestIsExact(l: Limits, start: int, events: seq<Event>, now: int)
    requires Valid(l, start, events) && LimitsOk(l) && After(l, start, events).last <= now
    ensures var r := After(l, start, events); var n := |r.admitted|; var m := Effective(l);
      Requested(r.q, l.limit, l.duration, now).1 <==> n < m || now - r.admitted[n - m] >= l.duration
  {
    hide After, Inv, Requested;
    RunKeepsInv(l, start, events);
    CheckIsExact(l, After(l, start, events), now);
  }

  lemma CheckIsExact(l: Limits, r: Run, now: int)
    requires Inv(l, r) && LimitsOk(l) && r.last <= now
    ensures var n := |r.admitted|; var m := Effective(l);
      Requested(r.q, l.limit, l.duration, now).1 <==> n < m || now - r.admitted[n - m] >= l.duration
  {
    var n, m := |r.admitted|, Effective(l);
    if r.q.Some? && |r.q.value| == m {
      assert r.q.value[0] == r.admitted[n - m];
    } else if n >= m {
      assert n - m < r.cut;
    }
  }

  predicate Spaced(l: Limits, admitted: seq<int>) {
    forall i :: 0 <= i < |admitted| - Effective(l) ==> admitted[i + Effective(l)] - admitted[i] >= l.duration
  }

  /** Across any interleaving of requests and sweeps, an admission and the one that many later are at least the duration apart. */
  lemma {:induction false} AdmissionsAreSpaced(l: Limits, start: int, events: seq<Event>)
    requires Valid(l, start, events) && LimitsOk(l)
    ensures Spaced(l, After(l, start, events).admitted)
  {
    if events != [] {
      var e := events[|events| - 1];
      AdmissionsAreSpaced(l, start, events[..|events| - 1]);
      if e.Request? { RequestIsExact(l, start, events[..|events| - 1], e.now); }
    }
  }

  lemma Extend(l: Limits, start: int, events: seq<Event>, e: Event)
    ensures After(l, start, events + [e]) == Next(l, After(l, start, events), e)
    ensures Valid(l, start, events + [e]) <==> Valid(l, start, events) && May(l, After(l, start, events), e)
  {
    assert (events + [e])[..|events|] == events;
  }

  /** The same request a number of times over. */
  function Burst(n: nat, now: int): (events: seq<Event>)
    ensures |events| == n && forall i :: 0 <= i < n ==> events[i] == Request(now)
  {
    if n == 0 then [] else Burst(n - 1, now) + [Request(now)]
  }

  predicate Same(s: seq<int>, x: int) {
    forall i :: 0 <= i < |s| ==> s[i] == x
  }

  /** Up to the limit, all requests of one moment are admitted. */
  lemma {:induction false} BurstIsAdmitted(l: Limits, n: nat)
    requires n <= Effective(l)
    ensures var r := After(l, 0, Burst(n, 0));
      && Valid(l, 0, Burst(n, 0)) && |r.admitted| == n && Same(r.admitted, 0)
      && r.last == 0 && (if n == 0 then r.q == None else r.q == Some(r.admitted))
  {
    if n > 0 {
      BurstIsAdmitted(l, n - 1);
      Extend(l, 0, Burst(n - 1, 0), Request(0));
      assert [0] == [] + [0];
    }
  }

  /** The failing schedule: as many requests as are allowed, a sweep one second after they expire, and one more request. */
  function Forgetful(l: Limits): seq<Event> {
    Burst(Effective(l), 0) + [Sweep(l.expiration + 1)] + [Request(l.expiration + 1)]
  }

  lemma SweepForgets(l: Limits)
    requires !LimitsOk(l)
    ensures Valid(l, 0, Forgetful(l)) && !Spaced(l, After(l, 0, Forgetful(l)).admitted)
  {
    var t, m := l.expiration + 1, Effective(l);
    var r0 := After(l, 0, Burst(m, 0));
    BurstIsAdmitted(l, m);
    Extend(l, 0, Burst(m, 0), Sweep(t));
    var r1 := After(l, 0, Burst(m, 0) + [Sweep(t)]);
    assert r1.q == None && r1.admitted == r0.admitted;
    Extend(l, 0, Burst(m, 0) + [Sweep(t)], Request(t));
    var a := After(l, 0, Forgetful(l)).admitted;
    assert a == r0.admitted + [t];
    assert a[0 + m] - a[0] < l.duration;
  }

  /**
   In every run an admission and the one that many later are at least the duration apart, if and only if the duration
   exceeds the expiration by no more than a second or there is no sweep.
   */
  lemma SpacedIffLimitsOk(l: Limits)
    ensures LimitsOk(l) <==> forall start, events :: Valid(l, start, events) ==> Spaced(l, After(l, start, events).admitted)
  {
    if LimitsOk(l) {
      forall start, events | Valid(l, start, events) ensures Spaced(l, After(l, start, events).admitted) {
        AdmissionsAreSpaced(l, start, events);
      }
    } else {
      SweepForgets(l);
    }
  }

  // ---------- the limiter object ----------

  class InMemoryRateLimiter {
    var store: map<string, Queue>
    const expiration: int

    ghost predicate Filled()
      reads this
    {
      forall k :: k in store ==> store[k] != []
    }

    constructor (expiration: int)
      ensures store == map[] && this.expiration == expiration
    {
      store, this.expiration := map[], expiration;
    }

    function Queue(key: string): Option<seq<int>>
      reads this
    {
      if key in store then Some(store[key]) else None
    }

    method Request(key: string, limit: nat, duration: int, now: int) returns (ok: bool)
      requires Filled()
      modifies this
      ensures Filled() && (Queue(key), ok) == Requested(old(Queue(key)), limit, duration, now)
      ensures forall k :: k != key ==> Queue(k) == old(Queue(k))
    {
      if key in store {
        if |store[key]| < limit {
          store := store[key := store[key] + [now]];
          return true;
        }
        if now - store[key][0] >= duration {
          store := store[key := store[key][1..] + [now]];
          return true;
        }
        return false;
      }
      store := store[key := [now]];
      return true;
    }

    /** One round of the background sweep over every key. */
    method ClearExpiredItems(now: int)
      requires Filled()
      modifies this
      ensures Filled() && forall k :: Queue(k) == Swept(old(Queue(k)), expiration, now)
    {
      var todo := store.Keys;
      while todo != {}
        invariant Filled() && todo <= old(store).Keys
        invariant forall k :: k in todo ==> Queue(k) == old(Queue(k))
        invariant forall k :: k !in todo ==> Queue(k) == Swept(old(Queue(k)), expiration, now)
        decreases |todo|
      {
        ghost var some := SomeElement(todo);
        var key :| key in todo;
        var queue := store[key];
        if |queue| == 0 || now - queue[|queue| - 1] > expiration {
          store := store - {key};
        }
        todo := todo - {key};
      }
    }
  }

}
