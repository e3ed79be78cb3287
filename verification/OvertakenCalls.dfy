/**
 Calls of the per-key limiter (middleware/pbr_client_auth.go) that were overtaken between reading the clock
 and taking the lock: schedules in which they break the bound, which make the bound of KeyLimiter exact.
 */
module OvertakenCalls {
  import opened KeyLimiter

  // ---------- schedules ----------

  /** As many calls as the limit, each done at once. */
  function Filled(n: nat): seq<Event> {
    if n == 0 then [] else Filled(n - 1) + [Call(0)] + [Done]
  }

  /** Then one that finds them all a minute old, and one that it overtook. */
  function Overtaking(l: Limits): seq<Event> {
    if l.rpm <= 0 then [] else Filled(l.rpm) + [Call(WINDOW)] + [Done] + [Call(Span(l))]
  }

  predicate Same(s: seq<int>, x: int) {
    forall i :: 0 <= i < |s| ==> s[i] == x
  }

  lemma {:induction false} KeptSame(s: seq<int>, x: int, now: int)
    requires Same(s, x)
    ensures Kept(s, now) == if now - x < WINDOW then s else []
  {
    if s != [] {
      KeptSame(s[..|s| - 1], x, now);
      assert s == s[..|s| - 1] + [s[|s| - 1]];
    }
  }

  /** What the schedules need to know of the state of a run. */
  predicate Stands(r: Run, recent: seq<int>, inflight: nat, times: seq<int>, latest: int) {
    r.s == State(recent, inflight) && Times(r.admitted) == times && r.released + inflight == |r.admitted| && r.latest == latest
  }

  /** An admitted call, given what the window keeps. */
  lemma Admits(l: Limits, start: int, events: seq<Event>, recent: seq<int>, inflight: nat, times: seq<int>, latest: int, now: int, kept: seq<int>)
    requires l.rpm > 0 && Valid(l, start, events) && Stands(After(l, start, events), recent, inflight, times, latest)
    requires latest - l.lag <= now && kept == Kept(recent, now) && |kept| < l.rpm && (l.cap > 0 ==> inflight < l.cap)
    ensures Valid(l, start, events + [Call(now)])
    ensures Stands(After(l, start, events + [Call(now)]), kept + [now], inflight + 1, times + [now], Max(latest, now))
  {
    hide Kept, Valid, After;
    Extend(l, start, events, Call(now));
    CallAdmits(l, After(l, start, events), now);
  }

  lemma Finishes(l: Limits, start: int, events: seq<Event>, recent: seq<int>, inflight: nat, times: seq<int>, latest: int)
    requires inflight > 0 && Valid(l, start, events) && Stands(After(l, start, events), recent, inflight, times, latest)
    ensures Valid(l, start, events + [Done])
    ensures Stands(After(l, start, events + [Done]), recent, inflight - 1, times, latest)
  {
    hide Valid, After;
    Extend(l, start, events, Done);
  }

  function Zeros(n: nat): (s: seq<int>)
    ensures |s| == n && Same(s, 0)
  {
    seq(n, _ => 0)
  }

  lemma StartStands(l: Limits, start: int)
    ensures Valid(l, start, []) && Stands(After(l, start, []), [], 0, [], start)
  {
  }

  lemma {:induction false} FilledStands(l: Limits, n: nat)
    requires n <= l.rpm
    ensures Valid(l, 0, Filled(n)) && Stands(After(l, 0, Filled(n)), Zeros(n), 0, Zeros(n), 0)
  {
    hide After, Valid, Kept, Stands, Acquired, Next, Enabled, Same;
    StartStands(l, 0);
    assert Zeros(0) == [];
    if n > 0 {
      FilledStands(l, n - 1);
      KeptSame(Zeros(n - 1), 0, 0);
      Admits(l, 0, Filled(n - 1), Zeros(n - 1), 0, Zeros(n - 1), 0, 0, Zeros(n - 1));
      OneMoreZero(n - 1);
      Finishes(l, 0, Filled(n - 1) + [Call(0)], Zeros(n), 1, Zeros(n), 0);
    }
  }

  lemma OneMoreZero(n: nat)
    ensures Zeros(n) + [0] == Zeros(n + 1)
  {
  }

  /** With a limit of two or more an overtaken call slips through once a later one has emptied the window. */
  lemma OvertakenSlipsThrough(l: Limits)
    requires l.rpm > 1
    ensures Valid(l, 0, Overtaking(l)) && AdmittedIn(l, 0, Overtaking(l), 0, Span(l) + 1) > l.rpm
  {
    var zeros, v := Zeros(l.rpm), Span(l);
    assert 0 <= v <= WINDOW && WINDOW - l.lag <= v;
    hide After, Valid, Kept, Stands, Filled, AdmittedIn, Count, Zeros, Span;
    OvertakingStands(l, v);
    StandsAdmitted(l, Overtaking(l), [WINDOW] + [v], 1, zeros + [WINDOW] + [v], WINDOW, 0, v + 1);
    CountSnoc(zeros + [WINDOW], v, 0, v + 1);
    CountSnoc(zeros, WINDOW, 0, v + 1);
    CountZeros(l.rpm, v + 1);
  }

  lemma CountZeros(n: nat, until: int)
    requires until > 0
    ensures Count(Zeros(n), 0, until) == n
  {
    CountAll(Zeros(n), 0, until);
  }

  lemma OvertakingStands(l: Limits, v: int)
    requires l.rpm > 1 && 0 <= v <= WINDOW && WINDOW - l.lag <= v
    ensures var zeros := Zeros(l.rpm); var events := Filled(l.rpm) + [Call(WINDOW)] + [Done] + [Call(v)];
      Valid(l, 0, events) && Stands(After(l, 0, events), [WINDOW] + [v], 1, zeros + [WINDOW] + [v], WINDOW)
  {
    hide After, Valid, Kept, Stands, Acquired, Next, Enabled, Filled, Same, Zeros;
    var zeros, e0 := Zeros(l.rpm), Filled(l.rpm);
    FilledStands(l, l.rpm);
    KeptSame(zeros, 0, WINDOW);
    KeptOne(WINDOW, v);
    Admits(l, 0, e0, zeros, 0, zeros, 0, WINDOW, []);
    assert [] + [WINDOW] == [WINDOW];
    Finishes(l, 0, e0 + [Call(WINDOW)], [WINDOW], 1, zeros + [WINDOW], WINDOW);
    Admits(l, 0, e0 + [Call(WINDOW)] + [Done], [WINDOW], 0, zeros + [WINDOW], WINDOW, v, [WINDOW]);
  }

  lemma StandsAdmitted(l: Limits, events: seq<Event>, recent: seq<int>, inflight: nat, times: seq<int>, latest: int, t: int, width: nat)
    requires Stands(After(l, 0, events), recent, inflight, times, latest)
    ensures AdmittedIn(l, 0, events, t, width) == Count(times, t, t + width)
  {
    hide After, Count;
  }

  /** Calls a minute apart until the cap is reached. */
  function Minutes(n: nat): seq<Event> {
    if n == 0 then [] else Minutes(n - 1) + [Call(WINDOW * (n - 1))]
  }

  function MinuteTimes(n: nat): (s: seq<int>)
    ensures |s| == n && (n > 0 ==> s[n - 1] == WINDOW * (n - 1))
  {
    if n == 0 then [] else MinuteTimes(n - 1) + [WINDOW * (n - 1)]
  }

  function LastMinute(n: nat): seq<int> {
    if n == 0 then [] else [WINDOW * (n - 1)]
  }

  /** Then one that the cap refuses after it has emptied the window, and one that it overtook. */
  function RefusedOvertaking(l: Limits): seq<Event> {
    if l.cap <= 0 then [] else Minutes(l.cap) + [Call(WINDOW * l.cap)] + [Done] + [Call(WINDOW * (l.cap - 1) + Span(l))]
  }

  lemma {:induction false} MinutesStand(l: Limits, n: nat)
    requires l.rpm == 1 && n <= l.cap
    ensures Valid(l, 0, Minutes(n)) && Stands(After(l, 0, Minutes(n)), LastMinute(n), n, MinuteTimes(n), if n == 0 then 0 else WINDOW * (n - 1))
  {
    if n > 0 {
      var now := WINDOW * (n - 1);
      MinutesStand(l, n - 1);
      KeptLastMinute(n - 1);
      hide After, Valid, Kept, Stands;
      Admits(l, 0, Minutes(n - 1), LastMinute(n - 1), n - 1, MinuteTimes(n - 1), if n == 1 then 0 else WINDOW * (n - 2), now, []);
      assert [] + [now] == [now];
    }
  }

  lemma KeptLastMinute(n: nat)
    ensures Kept(LastMinute(n), WINDOW * n) == []
  {
    if n > 0 { KeptOne(WINDOW * (n - 1), WINDOW * n); }
  }

  lemma CapRefuses(l: Limits, events: seq<Event>, n: nat, times: seq<int>)
    requires l.rpm == 1 && n == l.cap > 0 && Valid(l, 0, events)
    requires Stands(After(l, 0, events), LastMinute(n), n, times, WINDOW * (n - 1))
    ensures Valid(l, 0, events + [Call(WINDOW * n)]) && Stands(After(l, 0, events + [Call(WINDOW * n)]), [], n, times, WINDOW * n)
  {
    KeptLastMinute(n);
    hide Kept, Valid, After;
    Extend(l, 0, events, Call(WINDOW * n));
    CallAdmits(l, After(l, 0, events), WINDOW * n);
  }

  /** With a limit of one and a cap, a call that the cap refuses empties the window for one that it overtook. */
  lemma RefusedCallForgets(l: Limits)
    requires l.rpm == 1 && l.cap > 0
    ensures Valid(l, 0, RefusedOvertaking(l)) && AdmittedIn(l, 0, RefusedOvertaking(l), WINDOW * (l.cap - 1), Span(l) + 1) > 1
  {
    var v := WINDOW * (l.cap - 1) + Span(l);
    assert WINDOW * (l.cap - 1) <= v && WINDOW * l.cap - l.lag <= v;
    hide After, Valid, Kept, Stands, Minutes, AdmittedIn, Count, MinuteTimes, Max, Span;
    RefusedStands(l, v);
    StandsAdmitted(l, RefusedOvertaking(l), [] + [v], l.cap, MinuteTimes(l.cap) + [v], Max(WINDOW * l.cap, v), WINDOW * (l.cap - 1), Span(l) + 1);
    CountLastTwo(l.cap, v);
  }

  lemma CountLastTwo(n: nat, v: int)
    requires n > 0 && WINDOW * (n - 1) <= v
    ensures Count(MinuteTimes(n) + [v], WINDOW * (n - 1), v + 1) > 1
  {
    hide Count;
    CountSnoc(MinuteTimes(n), v, WINDOW * (n - 1), v + 1);
    CountSnoc(MinuteTimes(n - 1), WINDOW * (n - 1), WINDOW * (n - 1), v + 1);
  }

  lemma RefusedStands(l: Limits, v: int)
    requires l.rpm == 1 && l.cap > 0 && WINDOW * l.cap - l.lag <= v
    ensures var events := Minutes(l.cap) + [Call(WINDOW * l.cap)] + [Done] + [Call(v)];
      Valid(l, 0, events) && Stands(After(l, 0, events), [] + [v], l.cap, MinuteTimes(l.cap) + [v], Max(WINDOW * l.cap, v))
  {
    var c, times, e0 := l.cap, MinuteTimes(l.cap), Minutes(l.cap);
    MinutesStand(l, c);
    KeptNone(v);
    hide After, Valid, Kept, Stands, Acquired, Next, Enabled, Minutes, MinuteTimes;
    CapRefuses(l, e0, c, times);
    Finishes(l, 0, e0 + [Call(WINDOW * c)], [], c, times, WINDOW * c);
    Admits(l, 0, e0 + [Call(WINDOW * c)] + [Done], [], c - 1, times, WINDOW * c, v, []);
  }

  /** With a limit of one and no cap, two calls a minute apart. */
  lemma TwoCalls(l: Limits)
    requires l.rpm == 1 && l.cap <= 0
    ensures Valid(l, 0, [Call(0)] + [Call(WINDOW)]) && AdmittedIn(l, 0, [Call(0)] + [Call(WINDOW)], 0, WINDOW + 1) > 1
  {
    StartStands(l, 0);
    KeptNone(0);
    KeptOne(0, WINDOW);
    assert [] + [Call(0)] == [Call(0)];
    assert [] + [0] == [0] && [] + [WINDOW] == [WINDOW];
    hide After, Kept, Stands;
    Admits(l, 0, [], [], 0, [], 0, 0, []);
    Admits(l, 0, [Call(0)], [0], 1, [0], 0, WINDOW, []);
    StandsAdmitted(l, [Call(0)] + [Call(WINDOW)], [WINDOW], 2, [0] + [WINDOW], WINDOW, 0, WINDOW + 1);
    CountSnoc([0], WINDOW, 0, WINDOW + 1);
    CountSnoc([], 0, 0, WINDOW + 1);
  }

  // ---------- the exact bound ----------

  lemma BeyondSpan(l: Limits) returns (events: seq<Event>, t: int)
    requires l.rpm > 0
    ensures Valid(l, 0, events) && AdmittedIn(l, 0, events, t, Span(l) + 1) > l.rpm
  {
    hide Valid, AdmittedIn, Overtaking, RefusedOvertaking;
    if l.rpm > 1 {
      OvertakenSlipsThrough(l);
      events, t := Overtaking(l), 0;
    } else if l.cap > 0 {
      RefusedCallForgets(l);
      events, t := RefusedOvertaking(l), WINDOW * (l.cap - 1);
    } else {
      TwoCalls(l);
      events, t := [Call(0)] + [Call(WINDOW)], 0;
    }
  }

  /** For every width: no stretch of that many seconds holds more admissions than the limit, in any run, exactly up to the span. */
  lemma BoundedIffWithinSpan(l: Limits, width: nat)
    requires l.rpm > 0
    ensures Bounded(l, width) <==> width <= Span(l)
  {
    hide Valid, Span;
    if width <= Span(l) {
      forall start, events, t | Valid(l, start, events) ensures AdmittedIn(l, start, events, t, width) <= l.rpm {
        WithinSpan(l, start, events, t, width);
      }
    } else {
      var events, t := BeyondSpan(l);
      CountWider(Times(After(l, 0, events).admitted), t, t + (Span(l) + 1), t + width);
      assert AdmittedIn(l, 0, events, t, width) > l.rpm;
    }
  }

  /** So 60 seconds hold no more than the limit, in every run, if and only if no call is overtaken or the limit is one without a cap. */
  lemma WindowBound(l: Limits)
    requires l.rpm > 0
    ensures Bounded(l, 60) <==> l.lag == 0 || (l.rpm == 1 && l.cap <= 0)
  {
    BoundedIffWithinSpan(l, 60);
    hide Bounded;
  }

  // ---------- waits ----------

  /** A run with an overtaken call after which a shorter wait would do. */
  lemma OvertakenWaitIsTooLong()
    ensures var l := Limits(2, 0, 1); var events := [Call(1)] + [Call(0)];
      Valid(l, 1, events) && After(l, 1, events).s == State([1] + [0], 2)
    ensures Acquired(State([1] + [0], 2), 2, 0, 1).1 == Refused(60) && Passes([1] + [0], 2, 1 + 59)
  {
    OvertakenOnce();
    WaitOfTwo();
  }

  lemma OvertakenOnce()
    ensures var l := Limits(2, 0, 1); var events := [Call(1)] + [Call(0)];
      Valid(l, 1, events) && After(l, 1, events).s == State([1] + [0], 2)
  {
    var l := Limits(2, 0, 1);
    StartStands(l, 1);
    KeptNone(1);
    KeptOne(1, 0);
    assert [] + [Call(1)] == [Call(1)] && [] + [1] == [1];
    hide Kept, After, Valid, Acquired, Next, Times;
    Admits(l, 1, [], [], 0, [], 1, 1, []);
    Admits(l, 1, [Call(1)], [1], 1, [1], 1, 0, [1]);
  }

  lemma WaitOfTwo()
    ensures Acquired(State([1] + [0], 2), 2, 0, 1).1 == Refused(60) && Passes([1] + [0], 2, 60)
  {
    KeptOne(1, 1);
    KeptOne(1, 60);
    KeptSnoc([1], 0, 1);
    KeptSnoc([1], 0, 60);
    hide Kept;
  }

  /** The first call of a limiter with a limit of one, and one that it overtook, which is told to wait longer than a minute. */
  lemma OvertakenCallWaitsLong(cap: int, now: int, stale: int)
    requires stale < now
    ensures var s := Acquired(FRESH, 1, cap, now).0; Acquired(s, 1, cap, stale).1 == Refused(60 + (now - stale))
  {
    hide Kept;
    KeptNone(now);
    KeptOne(now, stale);
    assert [] + [now] == [now];
  }
}
