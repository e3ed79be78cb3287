/**
 The per-key limiter of the model face (middleware/pbr_client_auth.go): a requests-per-minute
 window and a concurrency cap, over whole runs of calls and releases.  A call reads the clock before it
 takes the lock, so clock values reach the limiter out of order.
 */
module KeyLimiter {
  const WINDOW := 60

  /** The limiter's two fields. */
  datatype State = State(recent: seq<int>, inflight: nat)

  datatype Outcome = Admitted | Refused(wait: int)

  /** The times still inside the window at `now`. */
  function Kept(recent: seq<int>, now: int): seq<int> {
    if recent == [] then []
    else
      var rest := Kept(recent[..|recent| - 1], now);
      if now - recent[|recent| - 1] < WINDOW then rest + [recent[|recent| - 1]] else rest
  }

  function AtLeastOne(wait: int): int {
    if wait < 1 then 1 else wait
  }

  /** A limit of 0 or less is no limit. */
  function Acquired(s: State, rpm: int, cap: int, now: int): (State, Outcome) {
    var recent := if rpm > 0 then Kept(s.recent, now) else s.recent;
    if rpm > 0 && |recent| >= rpm then (State(recent, s.inflight), Refused(AtLeastOne(WINDOW - (now - recent[0]))))
    else if cap > 0 && s.inflight >= cap then (State(recent, s.inflight), Refused(1))
    else (State(if rpm > 0 then recent + [now] else recent, s.inflight + 1), Admitted)
  }

  function Released(s: State): State {
    if s.inflight > 0 then s.(inflight := s.inflight - 1) else s
  }

  // ---------- counting times ----------

  /** How many of the times are not before `t`. */
  function CountFrom(s: seq<int>, t: int): (n: nat)
    ensures n <= |s|
  {
    if s == [] then 0 else CountFrom(s[..|s| - 1], t) + if s[|s| - 1] >= t then 1 else 0
  }

  /** How many of the times lie in [from, until). */
  function Count(s: seq<int>, from: int, until: int): (n: nat)
    ensures n <= |s|
  {
    if s == [] then 0 else Count(s[..|s| - 1], from, until) + if from <= s[|s| - 1] < until then 1 else 0
  }

  lemma CountSnoc(s: seq<int>, x: int, from: int, until: int)
    ensures Count(s + [x], from, until) == Count(s, from, until) + if from <= x < until then 1 else 0
  {
    assert (s + [x])[..|s|] == s;
  }

  lemma {:induction false} CountNone(s: seq<int>, from: int, until: int)
    requires forall i :: 0 <= i < |s| ==> !(from <= s[i] < until)
    ensures Count(s, from, until) == 0
  {
    if s != [] { CountNone(s[..|s| - 1], from, until); }
  }

  lemma {:induction false} CountAll(s: seq<int>, from: int, until: int)
    requires forall i :: 0 <= i < |s| ==> from <= s[i] < until
    ensures Count(s, from, until) == |s|
  {
    if s != [] { CountAll(s[..|s| - 1], from, until); }
  }

  lemma {:induction false} CountWider(s: seq<int>, from: int, until: int, later: int)
    requires until <= later
    ensures Count(s, from, until) <= Count(s, from, later)
  {
    if s != [] { CountWider(s[..|s| - 1], from, until, later); }
  }

  lemma {:induction false} CountFromEarlier(s: seq<int>, t: int, later: int)
    requires t <= later
    ensures CountFrom(s, later) <= CountFrom(s, t)
  {
    if s != [] { CountFromEarlier(s[..|s| - 1], t, later); }
  }

  lemma {:induction false} KeptSize(s: seq<int>, now: int)
    ensures |Kept(s, now)| == CountFrom(s, now - WINDOW + 1)
  {
    if s != [] { KeptSize(s[..|s| - 1], now); }
  }

  lemma {:induction false} AllFrom(s: seq<int>, t: int)
    ensures CountFrom(s, t) == |s| <==> forall i :: 0 <= i < |s| ==> s[i] >= t
  {
    if s != [] { AllFrom(s[..|s| - 1], t); }
  }

  lemma {:induction false} KeptTwice(s: seq<int>, now: int, later: int)
    requires now <= later
    ensures Kept(Kept(s, now), later) == Kept(s, later)
  {
    if s != [] {
      var n := |s| - 1;
      KeptTwice(s[..n], now, later);
      if now - s[n] < WINDOW { KeptSnoc(Kept(s[..n], now), s[n], later); }
    }
  }

  lemma KeptSnoc(s: seq<int>, x: int, now: int)
    ensures Kept(s + [x], now) == if now - x < WINDOW then Kept(s, now) + [x] else Kept(s, now)
  {
    assert (s + [x])[..|s|] == s;
  }

  lemma {:induction false} KeptMember(s: seq<int>, now: int, x: int)
    ensures x in Kept(s, now) <==> x in s && now - x < WINDOW
  {
    if s != [] {
      KeptMember(s[..|s| - 1], now, x);
      assert s == s[..|s| - 1] + [s[|s| - 1]];
    }
  }

  // ---------- whole runs ----------

  datatype Event = Call(now: int) | Done

  /** An admitted call: its clock value, and the latest clock value of any call since, itself included. */
  datatype Admission = Admission(at: int, seen: int)

  /** History beside the limiter: the admitted calls, how many of them are done, and the latest clock value so far. */
  datatype Run = Run(s: State, admitted: seq<Admission>, released: nat, latest: int)

  /** A call reads the clock before it takes the lock, so it may be overtaken: its value lies at most `lag` behind the latest one. */
  datatype Limits = Limits(rpm: int, cap: int, lag: nat)

  const FRESH := State([], 0)

  function Max(a: int, b: int): int {
    if a < b then b else a
  }

  /** A call at `now` has seen them all. */
  function Seen(admitted: seq<Admission>, now: int): (r: seq<Admission>)
    ensures |r| == |admitted|
    ensures forall i :: 0 <= i < |r| ==> r[i] == Admission(admitted[i].at, Max(admitted[i].seen, now))
  {
    seq(|admitted|, i requires 0 <= i < |admitted| => Admission(admitted[i].at, Max(admitted[i].seen, now)))
  }

  function Times(admitted: seq<Admission>): (r: seq<int>)
    ensures |r| == |admitted| && forall i :: 0 <= i < |r| ==> r[i] == admitted[i].at
  {
    seq(|admitted|, i requires 0 <= i < |admitted| => admitted[i].at)
  }

  predicate Enabled(l: Limits, r: Run, e: Event) {
    match e
    case Call(now) => r.latest - l.lag <= now
    case Done => r.released < |r.admitted|
  }

  function Next(l: Limits, r: Run, e: Event): Run {
    match e
    case Call(now) =>
      var (s', outcome) := Acquired(r.s, l.rpm, l.cap, now);
      var before := Seen(r.admitted, now);
      Run(s', if outcome == Admitted then before + [Admission(now, now)] else before, r.released, Max(r.latest, now))
    case Done => r.(s := Released(r.s), released := r.released + 1)
  }

  function After(l: Limits, start: int, events: seq<Event>): Run {
    if events == [] then Run(FRESH, [], 0, start) else Next(l, After(l, start, events[..|events| - 1]), events[|events| - 1])
  }

  predicate Valid(l: Limits, start: int, events: seq<Event>) {
    events == []
    || (Valid(l, start, events[..|events| - 1]) && Enabled(l, After(l, start, events[..|events| - 1]), events[|events| - 1]))
  }

  lemma Extend(l: Limits, start: int, events: seq<Event>, e: Event)
    ensures After(l, start, events + [e]) == Next(l, After(l, start, events), e)
    ensures Valid(l, start, events + [e]) <==> Valid(l, start, events) && Enabled(l, After(l, start, events), e)
  {
    assert (events + [e])[..|events|] == events;
  }

  /** Only an admitted call that is not yet done can be done; clock values are in any order. */
  predicate Matched(l: Limits, start: int, events: seq<Event>) {
    events == []
    || (var before := After(l, start, events[..|events| - 1]);
        Matched(l, start, events[..|events| - 1]) && (events[|events| - 1].Done? ==> before.released < |before.admitted|))
  }

  /** Calls in flight are those admitted and not yet done, and never exceed the cap. */
  lemma {:induction false} InflightIsExact(l: Limits, start: int, events: seq<Event>)
    requires Matched(l, start, events)
    ensures var r := After(l, start, events);
      r.released <= |r.admitted| && r.s.inflight == |r.admitted| - r.released && (l.cap > 0 ==> r.s.inflight <= l.cap)
  {
    hide Kept;
    if events != [] { InflightIsExact(l, start, events[..|events| - 1]); }
  }

  // ---------- what the window remembers ----------

  /** The times of the admitted calls that no call since found a minute old. */
  function Remembered(admitted: seq<Admission>): seq<int> {
    if admitted == [] then []
    else
      var a := admitted[|admitted| - 1];
      var rest := Remembered(admitted[..|admitted| - 1]);
      if a.seen - a.at < WINDOW then rest + [a.at] else rest
  }

  lemma {:induction false} KeptRemembered(admitted: seq<Admission>, now: int)
    ensures Kept(Remembered(admitted), now) == Remembered(Seen(admitted, now))
  {
    if admitted != [] {
      var init, a := admitted[..|admitted| - 1], admitted[|admitted| - 1];
      KeptRemembered(init, now);
      assert Seen(admitted, now)[..|init|] == Seen(init, now);
      if a.seen - a.at < WINDOW { KeptSnoc(Remembered(init), a.at, now); }
    }
  }

  predicate Inv(l: Limits, r: Run) {
    && (forall i :: 0 <= i < |r.admitted| ==> r.admitted[i].at <= r.admitted[i].seen <= r.latest)
    && (l.rpm > 0 ==> r.s.recent == Remembered(r.admitted) && |r.s.recent| <= l.rpm)
  }

  lemma RememberedSnoc(admitted: seq<Admission>, now: int)
    ensures Remembered(admitted + [Admission(now, now)]) == Remembered(admitted) + [now]
  {
    assert (admitted + [Admission(now, now)])[..|admitted|] == admitted;
  }

  lemma CallKeepsInv(l: Limits, r: Run, now: int)
    requires Inv(l, r)
    ensures Inv(l, Next(l, r, Call(now)))
  {
    hide Kept, Remembered;
    KeptRemembered(r.admitted, now);
    RememberedSnoc(Seen(r.admitted, now), now);
    if l.rpm > 0 {
      KeptSize(r.s.recent, now);
    }
  }

  lemma FreshIsOk(l: Limits, start: int)
    ensures Inv(l, Run(FRESH, [], 0, start))
  {
  }

  /** In every run, overtaken calls or not, the window holds exactly what it should remember, and no more than the limit. */
  lemma {:induction false} RunKeepsInv(l: Limits, start: int, events: seq<Event>)
    ensures Inv(l, After(l, start, events))
  {
    FreshIsOk(l, start);
    if events != [] {
      var before := After(l, start, events[..|events| - 1]);
      var e := events[|events| - 1];
      RunKeepsInv(l, start, events[..|events| - 1]);
      if e.Call? { CallKeepsInv(l, before, e.now); }
    }
  }

  /** The window would let a call through at `t` if none came before. */
  predicate Passes(recent: seq<int>, rpm: int, t: int) {
    |Kept(recent, t)| < rpm
  }

  /** The window lets a call through exactly when fewer calls than the limit were admitted that neither it nor any call since finds a minute old. */
  lemma CheckIsExact(l: Limits, start: int, events: seq<Event>, now: int)
    requires l.rpm > 0
    ensures var r := After(l, start, events);
      Passes(r.s.recent, l.rpm, now) <==> |Remembered(Seen(r.admitted, now))| < l.rpm
  {
    hide Kept;
    RunKeepsInv(l, start, events);
    KeptRemembered(After(l, start, events).admitted, now);
  }

  /** For a call that was not overtaken these are the calls of the last minute, whatever happened before. */
  lemma CheckInOrder(l: Limits, start: int, events: seq<Event>, now: int)
    requires l.rpm > 0 && After(l, start, events).latest <= now
    ensures var r := After(l, start, events);
      Passes(r.s.recent, l.rpm, now) <==> Count(Times(r.admitted), now - WINDOW + 1, now + 1) < l.rpm
  {
    hide Kept, Remembered;
    var r := After(l, start, events);
    RunKeepsInv(l, start, events);
    KeptRemembered(r.admitted, now);
    RememberedIsCount(r.admitted, now);
  }

  lemma {:induction false} RememberedIsCount(admitted: seq<Admission>, now: int)
    requires forall i :: 0 <= i < |admitted| ==> admitted[i].at <= admitted[i].seen <= now
    ensures |Remembered(Seen(admitted, now))| == Count(Times(admitted), now - WINDOW + 1, now + 1)
  {
    if admitted != [] {
      var init := admitted[..|admitted| - 1];
      RememberedIsCount(init, now);
      assert Seen(admitted, now)[..|init|] == Seen(init, now);
      assert Times(admitted)[..|init|] == Times(init);
    }
  }

  // ---------- the bound ----------

  /** How many calls of a run with a clock value in [t, t + width) were admitted. */
  function AdmittedIn(l: Limits, start: int, events: seq<Event>, t: int, width: nat): nat {
    Count(Times(After(l, start, events).admitted), t, t + width)
  }

  /** In every run no stretch of that width holds more admissions than the limit. */
  ghost predicate Bounded(l: Limits, width: nat) {
    forall start, events, t :: Valid(l, start, events) ==> AdmittedIn(l, start, events, t, width) <= l.rpm
  }

  /** The widest stretch for which that is so. */
  function Span(l: Limits): nat {
    if l.rpm == 1 && l.cap <= 0 then WINDOW else if l.lag < WINDOW then WINDOW - l.lag else 0
  }

  lemma CallAdmits(l: Limits, r: Run, now: int)
    ensures var r' := Next(l, r, Call(now));
      Times(r'.admitted) == if Acquired(r.s, l.rpm, l.cap, now).1 == Admitted then Times(r.admitted) + [now] else Times(r.admitted)
  {
    hide Acquired;
    assert Times(Seen(r.admitted, now)) == Times(r.admitted);
  }

  /** What lies within a stretch shorter than a minute is still remembered if no call has seen further. */
  lemma {:induction false} CountRemembered(admitted: seq<Admission>, now: int, latest: int, from: int, until: int)
    requires now <= latest < from + WINDOW && forall i :: 0 <= i < |admitted| ==> admitted[i].seen <= latest
    ensures Count(Times(admitted), from, until) <= |Remembered(Seen(admitted, now))|
  {
    if admitted != [] {
      var init := admitted[..|admitted| - 1];
      CountRemembered(init, now, latest, from, until);
      assert Seen(admitted, now)[..|init|] == Seen(init, now);
      assert Times(admitted)[..|init|] == Times(init);
    }
  }

  lemma {:induction false} WithinLag(l: Limits, start: int, events: seq<Event>, t: int)
    requires Valid(l, start, events) && l.rpm > 0 && l.lag < WINDOW
    ensures AdmittedIn(l, start, events, t, WINDOW - l.lag) <= l.rpm
  {
    hide Acquired, Remembered, Kept, Count, Passes, Seen;
    if events != [] {
      var init, e := events[..|events| - 1], events[|events| - 1];
      var r := After(l, start, init);
      WithinLag(l, start, init, t);
      RunKeepsInv(l, start, init);
      if e.Call? {
        CallAdmits(l, r, e.now);
        CountSnoc(Times(r.admitted), e.now, t, t + WINDOW - l.lag);
        if t <= e.now < t + WINDOW - l.lag && Acquired(r.s, l.rpm, l.cap, e.now).1 == Admitted {
          AdmittedPasses(r.s, l.rpm, l.cap, e.now);
          CheckIsExact(l, start, init, e.now);
          CountRemembered(r.admitted, e.now, e.now + l.lag, t, t + WINDOW - l.lag);
        }
      }
    }
  }

  lemma AdmittedPasses(s: State, rpm: int, cap: int, now: int)
    requires rpm > 0 && Acquired(s, rpm, cap, now).1 == Admitted
    ensures Passes(s.recent, rpm, now)
  {
  }

  predicate Apart(times: seq<int>) {
    forall i, j :: 0 <= i < j < |times| ==> times[j] - times[i] >= WINDOW
  }

  /** With a limit of one and no cap the last admission is never forgotten, so that no overtaken call slips through. */
  lemma {:induction false} LastIsRemembered(l: Limits, start: int, events: seq<Event>)
    requires l.rpm == 1 && l.cap <= 0
    ensures var r := After(l, start, events); var times := Times(r.admitted);
      Apart(times) && r.s.recent == if times == [] then [] else [times[|times| - 1]]
  {
    if events != [] {
      var init, e := events[..|events| - 1], events[|events| - 1];
      var r := After(l, start, init);
      LastIsRemembered(l, start, init);
      if e.Call? {
        CallAdmits(l, r, e.now);
        KeptNone(e.now);
        if r.admitted != [] { KeptOne(Times(r.admitted)[|r.admitted| - 1], e.now); }
        hide Kept, Seen, Times;
        ApartSnoc(Times(r.admitted), e.now);
      }
    }
  }

  lemma ApartSnoc(times: seq<int>, x: int)
    requires Apart(times)
    ensures Apart(times + [x]) <== times == [] || x - times[|times| - 1] >= WINDOW
  {
    if times != [] && x - times[|times| - 1] >= WINDOW {
      forall i | 0 <= i < |times| ensures x - times[i] >= WINDOW {
        if i < |times| - 1 { assert times[|times| - 1] - times[i] >= WINDOW; }
      }
    }
  }

  lemma KeptNone(now: int)
    ensures Kept([], now) == []
  {
  }

  lemma KeptOne(x: int, now: int)
    ensures Kept([x], now) == if now - x < WINDOW then [x] else []
  {
    assert [x][..0] == [];
  }

  lemma ApartBound(times: seq<int>, t: int)
    requires Apart(times)
    ensures Count(times, t, t + WINDOW) <= 1
    decreases |times|
  {
    if times != [] {
      var init, x := times[..|times| - 1], times[|times| - 1];
      if t <= x < t + WINDOW {
        CountNone(init, t, t + WINDOW);
      } else {
        ApartBound(init, t);
      }
    }
  }

  lemma WithinSpan(l: Limits, start: int, events: seq<Event>, t: int, width: nat)
    requires Valid(l, start, events) && l.rpm > 0 && width <= Span(l)
    ensures AdmittedIn(l, start, events, t, width) <= l.rpm
  {
    hide After, Valid;
    var times := Times(After(l, start, events).admitted);
    if width == 0 {
      CountNone(times, t, t);
    } else {
      CountWider(times, t, t + width, t + Span(l));
      if l.rpm == 1 && l.cap <= 0 {
        LastIsRemembered(l, start, events);
        ApartBound(times, t);
      } else {
        WithinLag(l, start, events, t);
      }
    }
  }

  // ---------- refusals ----------

  /** Nothing less than a minute old at `later` was a minute old at `now`. */
  predicate NothingLost(s: seq<int>, now: int, later: int) {
    forall x :: x in s && later - x < WINDOW ==> now - x < WINDOW
  }

  lemma {:induction false} NothingLostKept(s: seq<int>, now: int, later: int)
    requires NothingLost(s, now, later)
    ensures Kept(Kept(s, now), later) == Kept(s, later)
  {
    if s != [] {
      var init, last := s[..|s| - 1], s[|s| - 1];
      assert last in s && forall x :: x in init ==> x in s;
      NothingLostKept(init, now, later);
      KeptSnoc(Kept(init, now), last, later);
    }
  }

  lemma KeptAgain(s: seq<int>, now: int, later: int)
    ensures Kept(Kept(s, now), later) == Kept(s, later) <==> NothingLost(s, now, later)
  {
    hide Kept;
    if NothingLost(s, now, later) {
      NothingLostKept(s, now, later);
    } else {
      var x :| x in s && later - x < WINDOW && now - x >= WINDOW;
      KeptMember(s, later, x);
      KeptMember(Kept(s, now), later, x);
      KeptMember(s, now, x);
    }
  }

  /**
   A refused call consumes nothing: whatever calls are done in between, a later call leaves the same state and gets the
   same answer as if it had not been made, if and only if it finds no time less than a minute old that the refused one
   found older.  That holds of every call that was not overtaken.
   */
  lemma RefusalCostsNothing(s: State, rpm: int, cap: int, now: int, later: int, inflight: nat)
    requires Acquired(s, rpm, cap, now).1.Refused?
    ensures var s' := Acquired(s, rpm, cap, now).0;
      && s'.inflight == s.inflight
      && (Acquired(s'.(inflight := inflight), rpm, cap, later) == Acquired(s.(inflight := inflight), rpm, cap, later) <==>
            rpm <= 0 || NothingLost(s.recent, now, later))
      && (now <= later ==> Acquired(s'.(inflight := inflight), rpm, cap, later) == Acquired(s.(inflight := inflight), rpm, cap, later))
  {
    hide Kept;
    KeptAgain(s.recent, now, later);
    if now <= later { KeptTwice(s.recent, now, later); }
    var a, b := Kept(Kept(s.recent, now), later), Kept(s.recent, later);
    assert a + [later] == b + [later] ==> a == (a + [later])[..|a|] == (b + [later])[..|b|] == b;
  }

  /** Such a refusal: of two calls at 60, for one that they overtook. */
  lemma RefusalForgets()
    ensures var s := State([0], 1); var s' := Acquired(s, 1, 1, 60).0;
      && Acquired(s, 1, 1, 60).1 == Refused(1)
      && Acquired(Released(s'), 1, 1, 59).1 == Admitted && Acquired(Released(s), 1, 1, 59).1 == Refused(1)
  {
    KeptOne(0, 60);
    KeptOne(0, 59);
    KeptNone(59);
    hide Kept;
  }

  // ---------- the advised wait ----------

  /**
   The wait advised to a call that the window refuses, in any state and at any clock value.  It is at least a second, and
   more than a minute exactly when the first time kept is later than the call's.  It is enough exactly when fewer
   times than the limit are later than the first, and no shorter one is enough exactly when as many as the limit are not earlier.
   */
  lemma WaitIsExact(s: State, rpm: int, cap: int, now: int)
    requires rpm > 0 && !Passes(s.recent, rpm, now)
    ensures var (s', outcome) := Acquired(s, rpm, cap, now); var kept := Kept(s.recent, now);
      && s'.recent == kept != [] && outcome.Refused? && outcome.wait >= 1
      && (outcome.wait > 60 <==> kept[0] > now)
      && (Passes(kept, rpm, now + outcome.wait) <==> CountFrom(kept, kept[0] + 1) < rpm)
      && ((forall t :: now <= t < now + outcome.wait ==> !Passes(kept, rpm, t)) <==> CountFrom(kept, kept[0]) >= rpm)
  {
    var kept := Kept(s.recent, now);
    KeptMember(s.recent, now, kept[0]);
    hide Kept, CountFrom;
    var wait := WINDOW - (now - kept[0]);
    KeptSize(kept, now + wait);
    KeptSize(kept, now + wait - 1);
    if CountFrom(kept, kept[0]) >= rpm {
      forall t | now <= t < now + wait ensures !Passes(kept, rpm, t) {
        KeptSize(kept, t);
        CountFromEarlier(kept, t - WINDOW + 1, kept[0]);
      }
    } else {
      assert Passes(kept, rpm, now + wait - 1);
    }
  }

  /** With a limit lowered to 1 two admitted calls may still be in the window, and the wait is enough for one of them only. */
  lemma LoweredLimitNeedsLonger()
    ensures Acquired(State([0, 30], 0), 1, 0, 40) == (State([0, 30], 0), Refused(20)) && !Passes([0, 30], 1, 60)
  {
    assert [0, 30] == [0] + [30];
    KeptSnoc([0], 30, 40);
    KeptSnoc([0], 30, 60);
    KeptOne(0, 40);
    KeptOne(0, 60);
    hide Kept;
  }

  lemma {:induction false} RememberedSince(admitted: seq<Admission>, latest: int)
    requires forall i :: 0 <= i < |admitted| ==> admitted[i].at <= admitted[i].seen <= latest
    ensures forall x :: x in Remembered(admitted) ==> x <= latest
  {
    if admitted != [] { RememberedSince(admitted[..|admitted| - 1], latest); }
  }

  /**
   In a run with fixed limits the advised wait is enough, overtaken calls or not, and never longer than a minute and the
   lag.  No shorter one is enough exactly when no time that is kept is earlier than the first one.
   */
  lemma AdvisedWaitIsEnough(l: Limits, start: int, events: seq<Event>, now: int)
    requires l.rpm > 0 && After(l, start, events).latest - l.lag <= now
    requires !Passes(After(l, start, events).s.recent, l.rpm, now)
    ensures var (s', outcome) := Acquired(After(l, start, events).s, l.rpm, l.cap, now);
      && s'.recent != [] && outcome.Refused? && 1 <= outcome.wait <= 60 + l.lag
      && Passes(s'.recent, l.rpm, now + outcome.wait)
      && ((forall t :: now <= t < now + outcome.wait ==> !Passes(s'.recent, l.rpm, t))
          <==> forall i :: 0 <= i < |s'.recent| ==> s'.recent[i] >= s'.recent[0])
  {
    var r := After(l, start, events);
    var kept := Kept(r.s.recent, now);
    hide After, Kept, Remembered;
    RunKeepsInv(l, start, events);
    WaitIsExact(r.s, l.rpm, l.cap, now);
    KeptSize(r.s.recent, now);
    AllFrom(kept, kept[0]);
    AllFrom(kept, kept[0] + 1);
    KeptMember(r.s.recent, now, kept[0]);
    RememberedSince(r.admitted, r.latest);
  }

  predicate Sorted(s: seq<int>) {
    forall i, j :: 0 <= i < j < |s| ==> s[i] <= s[j]
  }

  lemma {:induction false} KeptIsSorted(s: seq<int>, now: int)
    requires Sorted(s)
    ensures Sorted(Kept(s, now))
  {
    if s != [] {
      var init := s[..|s| - 1];
      KeptIsSorted(init, now);
      var rest := Kept(init, now);
      forall i | 0 <= i < |rest| ensures rest[i] <= s[|s| - 1] {
        KeptMember(init, now, rest[i]);
      }
    }
  }

  predicate InOrder(recent: seq<int>, latest: int) {
    Sorted(recent) && forall i :: 0 <= i < |recent| ==> recent[i] <= latest
  }

  lemma AcquiredInOrder(s: State, rpm: int, cap: int, now: int, latest: int)
    requires InOrder(s.recent, latest) && latest <= now
    ensures InOrder(Acquired(s, rpm, cap, now).0.recent, now)
  {
    var kept := Kept(s.recent, now);
    KeptIsSorted(s.recent, now);
    forall i | 0 <= i < |kept| ensures kept[i] <= now {
      KeptMember(s.recent, now, kept[i]);
    }
    hide Kept;
  }

  /** Without overtaken calls the window is in order. */
  lemma {:induction false} RunIsInOrder(l: Limits, start: int, events: seq<Event>)
    requires Valid(l, start, events) && l.lag == 0
    ensures var r := After(l, start, events); InOrder(r.s.recent, r.latest)
  {
    if events != [] {
      var init, e := events[..|events| - 1], events[|events| - 1];
      var r := After(l, start, init);
      RunIsInOrder(l, start, init);
      hide InOrder, Acquired, Seen;
      if e.Call? { AcquiredInOrder(r.s, l.rpm, l.cap, e.now, r.latest); }
    }
  }

  /** Then the wait is the least that lets a call through the window, and at most a minute. */
  lemma AdvisedWaitIsLeast(l: Limits, start: int, events: seq<Event>, now: int)
    requires Valid(l, start, events) && l.lag == 0 && l.rpm > 0 && After(l, start, events).latest <= now
    requires !Passes(After(l, start, events).s.recent, l.rpm, now)
    ensures var (s', outcome) := Acquired(After(l, start, events).s, l.rpm, l.cap, now);
      && outcome.Refused? && 1 <= outcome.wait <= 60
      && Passes(s'.recent, l.rpm, now + outcome.wait)
      && forall t :: now <= t < now + outcome.wait ==> !Passes(s'.recent, l.rpm, t)
  {
    var r := After(l, start, events);
    hide After, Kept, Valid;
    AdvisedWaitIsEnough(l, start, events, now);
    RunIsInOrder(l, start, events);
    KeptIsSorted(r.s.recent, now);
  }

  // ---------- the limiter object ----------

  class Limiter {
    var recent: seq<int>
    var inflight: nat

    ghost function Contents(): State
      reads this
    {
      State(recent, inflight)
    }

    constructor ()
      ensures Contents() == FRESH
    {
      recent, inflight := [], 0;
    }

    method Acquire(rpm: int, cap: int, now: int) returns (outcome: Outcome)
      modifies this
      ensures (Contents(), outcome) == Acquired(old(Contents()), rpm, cap, now)
    {
      if rpm > 0 {
        var kept := [];
        for i := 0 to |recent|
          invariant kept == Kept(recent[..i], now)
        {
          assert recent[..i + 1][..i] == recent[..i];
          if now - recent[i] < WINDOW {
            kept := kept + [recent[i]];
          }
        }
        assert recent[..|recent|] == recent;
        recent := kept;
        if |recent| >= rpm {
          var wait := WINDOW - (now - recent[0]);
          if wait < 1 {
            wait := 1;
          }
          return Refused(wait);
        }
      }
      if cap > 0 && inflight >= cap {
        return Refused(1);
      }
      if rpm > 0 {
        recent := recent + [now];
      }
      inflight := inflight + 1;
      return Admitted;
    }

    method Release()
      modifies this
      ensures Contents() == Released(old(Contents()))
    {
      if inflight > 0 {
        inflight := inflight - 1;
      }
    }
  }

  /** The limiters of all keys, made when first asked for. */
  class Registry {
    var limiters: map<int, Limiter>

    constructor ()
      ensures limiters == map[]
    {
      limiters := map[];
    }

    /** The same object every time, until it is dropped. */
    method LimiterFor(id: int) returns (limiter: Limiter)
      modifies this
      ensures id in old(limiters) ==> limiter == old(limiters)[id] && limiters == old(limiters)
      ensures id !in old(limiters) ==> fresh(limiter) && limiter.Contents() == FRESH && limiters == old(limiters)[id := limiter]
    {
      if id in limiters {
        return limiters[id];
      }
      limiter := new Limiter();
      limiters := limiters[id := limiter];
    }

    /** Forgets one key's limiter; calls in flight keep the object they were admitted by. */
    method Drop(id: int)
      modifies this
      ensures limiters == old(limiters) - {id}
    {
      limiters := limiters - {id};
    }
  }
}
