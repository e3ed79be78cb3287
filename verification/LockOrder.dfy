/**
 The mutexes around the channel cache, the pricing cache and channel status (model/channel_cache.go,
 model/pricing.go, model/channel.go, controller/channel.go).  Every operation takes them in one order,
 so threads running any of them can never all wait for each other.
 */
module LockOrder {
  datatype Lock =
    | MetadataMutation
    | PricingMutation
    | ChannelStatus
    | Polling(channel: int)
    | UpdatePricing
    | SupportEndpoints
    | ChannelSync
    | EnableGroups

  const TOP := 8

  function Rank(l: Lock): (r: nat)
    ensures r < TOP
  {
    match l
    case MetadataMutation => 0
    case PricingMutation => 1
    case ChannelStatus => 2
    case Polling(_) => 3
    case UpdatePricing => 4
    case SupportEndpoints => 5
    case ChannelSync => 6
    case EnableGroups => 7
  }

  // ---------- the operations ----------

  /** What a piece of code does with locks: nothing, one thing after another, or something while holding one. */
  datatype Code = Nothing | Then(first: Code, second: Code) | With(lock: Lock, write: bool, body: Code)

  /** The operations, with what their branches depend on. */
  datatype Operation =
    | InitChannelCache(cacheOn: bool)
    | CacheUpdateChannel(cacheOn: bool, isNil: bool)
    | CacheGetChannel(cacheOn: bool)
    | CacheUpdateChannelStatus(cacheOn: bool)
    | InvalidatePricingCache
    | GetPricing(stale: bool, staleInside: bool, failed: bool, advanced: bool, cacheOn: bool)
    | RefreshPricing(failed: bool, advanced: bool, cacheOn: bool)
    | SupportEndpointTypes
    | QuotaTypes(pricing: Operation)
    | GetNextEnabledKey(channel: int, polling: bool, cacheOn: bool)
    | UpdateChannelStatus(channel: int, cacheOn: bool, changes: bool)
    | ManageMultiKeys(channel: int, saves: bool, cacheOn: bool)
    | SavePricing(refresh: Operation)
    | DeleteModels(removePricing: bool, updated: bool, refresh: Operation, cacheOn: bool)

  function Guarded(l: Lock): Code {
    With(l, true, Nothing)
  }

  function Read(l: Lock): Code {
    With(l, false, Nothing)
  }

  function When(c: bool, code: Code): Code {
    if c then code else Nothing
  }

  /** updatePricing: an early return, or the channel configurations and then the published maps. */
  function UpdatePricingBody(failed: bool, advanced: bool, cacheOn: bool): Code {
    When(!failed, Then(When(advanced && cacheOn, Read(ChannelSync)), Guarded(EnableGroups)))
  }

  function InitCache(cacheOn: bool): Code {
    Then(When(cacheOn, Guarded(ChannelSync)), Guarded(UpdatePricing))
  }

  function CodeOf(op: Operation): Code {
    match op
    case InitChannelCache(on) => InitCache(on)
    case CacheUpdateChannel(on, isNil) => When(on, Then(Guarded(ChannelSync), When(!isNil, Guarded(UpdatePricing))))
    case CacheGetChannel(on) => When(on, Read(ChannelSync))
    case CacheUpdateChannelStatus(on) => When(on, Guarded(ChannelSync))
    case InvalidatePricingCache => Guarded(UpdatePricing)
    case GetPricing(stale, inside, failed, advanced, on) =>
      When(stale, With(UpdatePricing, true, When(inside, With(SupportEndpoints, true, UpdatePricingBody(failed, advanced, on)))))
    case RefreshPricing(failed, advanced, on) =>
      With(UpdatePricing, true, With(SupportEndpoints, true, UpdatePricingBody(failed, advanced, on)))
    case SupportEndpointTypes => Read(SupportEndpoints)
    case QuotaTypes(pricing) => Then(When(pricing.GetPricing?, CodeOf(pricing)), Read(EnableGroups))
    case GetNextEnabledKey(id, polling, on) => With(Polling(id), true, When(polling && on, Read(ChannelSync)))
    case UpdateChannelStatus(id, on, changes) =>
      var locked := With(Polling(id), true, When(on, Then(Read(ChannelSync), When(changes, Guarded(ChannelSync)))));
      if on then With(ChannelStatus, true, locked) else locked
    case ManageMultiKeys(id, saves, on) => With(Polling(id), true, When(saves, InitCache(on)))
    case SavePricing(refresh) => With(PricingMutation, true, When(refresh.RefreshPricing?, CodeOf(refresh)))
    case DeleteModels(removePricing, updated, refresh, on) =>
      var after := Then(When(updated, InitCache(on)), When(refresh.RefreshPricing?, CodeOf(refresh)));
      if removePricing
      then With(MetadataMutation, true, Then(With(PricingMutation, true, When(refresh.RefreshPricing?, CodeOf(refresh))), after))
      else Then(Guarded(MetadataMutation), after)
  }

  /** Each lock is taken only while locks of lower rank are held. */
  predicate Ordered(c: Code, above: int) {
    match c
    case Nothing => true
    case Then(a, b) => Ordered(a, above) && Ordered(b, above)
    case With(l, _, body) => Rank(l) > above && Ordered(body, Rank(l))
  }

  lemma PricingIsOrdered(failed: bool, advanced: bool, cacheOn: bool, above: int)
    requires above < 4
    ensures Ordered(With(UpdatePricing, true, With(SupportEndpoints, true, UpdatePricingBody(failed, advanced, cacheOn))), above)
  {
    var body := UpdatePricingBody(failed, advanced, cacheOn);
    assert Ordered(Guarded(EnableGroups), 5) && Ordered(Read(ChannelSync), 5);
    assert Ordered(body, 5);
  }

  lemma CacheIsOrdered(cacheOn: bool, above: int)
    requires above < 4
    ensures Ordered(InitCache(cacheOn), above)
  {
    assert Ordered(Guarded(ChannelSync), above) && Ordered(Guarded(UpdatePricing), above);
  }

  lemma OneLock(l: Lock, write: bool, above: int)
    requires Rank(l) > above
    ensures Ordered(With(l, write, Nothing), above)
  {
  }

  lemma StatusIsOrdered(id: int, cacheOn: bool, changes: bool)
    ensures Ordered(CodeOf(UpdateChannelStatus(id, cacheOn, changes)), -1)
  {
    var update := Then(Read(ChannelSync), When(changes, Guarded(ChannelSync)));
    OneLock(ChannelSync, true, 3);
    OneLock(ChannelSync, false, 3);
    assert Ordered(update, 3);
    assert Ordered(With(Polling(id), true, When(cacheOn, update)), 2);
    assert !cacheOn ==> Ordered(With(Polling(id), true, When(cacheOn, update)), -1);
  }

  lemma DeleteIsOrdered(removePricing: bool, updated: bool, refresh: Operation, cacheOn: bool)
    requires refresh.RefreshPricing? ==> forall above: int {:trigger Ordered(CodeOf(refresh), above)} :: above < 4 ==> Ordered(CodeOf(refresh), above)
    ensures Ordered(CodeOf(DeleteModels(removePricing, updated, refresh, cacheOn)), -1)
  {
    hide InitCache;
    var republish := When(refresh.RefreshPricing?, CodeOf(refresh));
    var after := Then(When(updated, InitCache(cacheOn)), republish);
    CacheIsOrdered(cacheOn, 0);
    CacheIsOrdered(cacheOn, -1);
    OneLock(MetadataMutation, true, -1);
    assert Ordered(republish, 1) && Ordered(republish, 0) && Ordered(republish, -1);
    assert Ordered(after, 0) && Ordered(after, -1);
    assert Ordered(With(PricingMutation, true, republish), 0);
  }

  lemma RefreshIsOrdered(refresh: Operation, above: int)
    requires refresh.RefreshPricing? && above < 4
    ensures Ordered(CodeOf(refresh), above)
  {
    PricingIsOrdered(refresh.failed, refresh.advanced, refresh.cacheOn, above);
  }

  /** Every operation respects the order. */
  lemma {:induction false} OperationsAreOrdered(op: Operation)
    ensures Ordered(CodeOf(op), -1)
  {
    hide InitCache, UpdatePricingBody;
    match op
    case InitChannelCache(on) => CacheIsOrdered(on, -1);
    case CacheUpdateChannel(_, _) => OneLock(ChannelSync, true, -1); OneLock(UpdatePricing, true, -1);
    case GetPricing(stale, inside, failed, advanced, on) => GetPricingIsOrdered(stale, inside, failed, advanced, on);
    case RefreshPricing(_, _, _) => RefreshIsOrdered(op, -1);
    case QuotaTypes(pricing) => OperationsAreOrdered(pricing); OneLock(EnableGroups, false, -1);
    case GetNextEnabledKey(_, _, _) => OneLock(ChannelSync, false, 3);
    case UpdateChannelStatus(id, on, changes) => StatusIsOrdered(id, on, changes);
    case ManageMultiKeys(_, _, on) => CacheIsOrdered(on, 3);
    case SavePricing(refresh) => if refresh.RefreshPricing? { RefreshIsOrdered(refresh, 1); }
    case DeleteModels(removePricing, updated, refresh, on) =>
      forall above: int | refresh.RefreshPricing? && above < 4 ensures Ordered(CodeOf(refresh), above) {
        RefreshIsOrdered(refresh, above);
      }
      DeleteIsOrdered(removePricing, updated, refresh, on);
    case _ =>
  }

  lemma GetPricingIsOrdered(stale: bool, inside: bool, failed: bool, advanced: bool, cacheOn: bool)
    ensures Ordered(CodeOf(GetPricing(stale, inside, failed, advanced, cacheOn)), -1)
  {
    PricingIsOrdered(failed, advanced, cacheOn, -1);
    hide UpdatePricingBody;
  }

  // ---------- threads ----------

  datatype Op = Acquire(lock: Lock, write: bool) | Release(lock: Lock)

  function Flatten(c: Code): seq<Op> {
    match c
    case Nothing => []
    case Then(a, b) => Flatten(a) + Flatten(b)
    case With(l, w, body) => [Acquire(l, w)] + Flatten(body) + [Release(l)]
  }

  /** What a thread has yet to do, and the locks it holds, each for writing or only for reading. */
  datatype Thread = Thread(todo: seq<Op>, held: map<Lock, bool>)

  predicate HeldBelow(held: map<Lock, bool>, r: int) {
    forall h :: h in held ==> Rank(h) < r
  }

  /** What remains keeps to the order and releases what it holds. */
  predicate Safe(todo: seq<Op>, held: map<Lock, bool>)
    decreases |todo|
  {
    if todo == [] then held == map[]
    else match todo[0]
      case Acquire(l, w) => HeldBelow(held, Rank(l)) && Safe(todo[1..], held[l := w])
      case Release(l) => l in held && Safe(todo[1..], held - {l})
  }

  lemma {:induction false} FlattenIsSafe(c: Code, above: int, rest: seq<Op>, held: map<Lock, bool>)
    requires Ordered(c, above) && HeldBelow(held, above + 1) && Safe(rest, held)
    ensures Safe(Flatten(c) + rest, held)
    decreases c
  {
    hide Safe;
    match c
    case Nothing => assert Flatten(c) + rest == rest;
    case Then(a, b) =>
      FlattenIsSafe(b, above, rest, held);
      FlattenIsSafe(a, above, Flatten(b) + rest, held);
      assert Flatten(c) + rest == Flatten(a) + (Flatten(b) + rest);
    case With(l, w, body) =>
      var end := [Release(l)] + rest;
      ReleaseIsSafe(l, w, rest, held);
      FlattenIsSafe(body, Rank(l), end, held[l := w]);
      AcquireIsSafe(l, w, Flatten(body) + end, held);
      assert Flatten(c) + rest == [Acquire(l, w)] + (Flatten(body) + end);
  }

  lemma ReleaseIsSafe(l: Lock, w: bool, rest: seq<Op>, held: map<Lock, bool>)
    requires l !in held && Safe(rest, held)
    ensures Safe([Release(l)] + rest, held[l := w])
  {
    assert held[l := w] - {l} == held;
    assert ([Release(l)] + rest)[1..] == rest;
  }

  lemma AcquireIsSafe(l: Lock, w: bool, rest: seq<Op>, held: map<Lock, bool>)
    requires HeldBelow(held, Rank(l)) && Safe(rest, held[l := w])
    ensures Safe([Acquire(l, w)] + rest, held)
  {
    assert ([Acquire(l, w)] + rest)[1..] == rest;
  }

  /** A thread that is to run some operations one after another. */
  function Script(ops: seq<Operation>): seq<Op> {
    if ops == [] then [] else Flatten(CodeOf(ops[0])) + Script(ops[1..])
  }

  lemma {:induction false} ScriptIsSafe(ops: seq<Operation>)
    ensures Safe(Script(ops), map[])
  {
    if ops != [] {
      ScriptIsSafe(ops[1..]);
      OperationsAreOrdered(ops[0]);
      FlattenIsSafe(CodeOf(ops[0]), -1, Script(ops[1..]), map[]);
    }
  }

  predicate Waits(t: Thread, l: Lock, write: bool) {
    t.todo != [] && t.todo[0] == Acquire(l, write)
  }

  /** Writing needs the lock free; reading needs no writer on it, nor any waiting for it. */
  predicate CanStep(ts: seq<Thread>, i: nat)
    requires i < |ts|
  {
    ts[i].todo != [] &&
    match ts[i].todo[0]
    case Release(_) => true
    case Acquire(l, write) =>
      if write then forall j :: 0 <= j < |ts| ==> l !in ts[j].held
      else forall j :: 0 <= j < |ts| ==> !(l in ts[j].held && ts[j].held[l]) && !Waits(ts[j], l, true)
  }

  function Stepped(t: Thread): Thread
    requires t.todo != []
  {
    match t.todo[0]
    case Acquire(l, w) => Thread(t.todo[1..], t.held[l := w])
    case Release(l) => Thread(t.todo[1..], t.held - {l})
  }

  ghost predicate Follows(ts: seq<Thread>, ts': seq<Thread>) {
    exists i: nat :: i < |ts| && CanStep(ts, i) && ts' == ts[i := Stepped(ts[i])]
  }

  predicate AllSafe(ts: seq<Thread>) {
    forall i :: 0 <= i < |ts| ==> Safe(ts[i].todo, ts[i].held)
  }

  /** Any number of threads, each with any operations to run, and every state they reach. */
  ghost predicate Run(scripts: seq<seq<Operation>>, run: seq<seq<Thread>>) {
    && run != [] && run[0] == Initial(scripts)
    && forall k :: 0 <= k < |run| - 1 ==> Follows(run[k], run[k + 1])
  }

  function Initial(scripts: seq<seq<Operation>>): seq<Thread> {
    seq(|scripts|, i requires 0 <= i < |scripts| => Thread(Script(scripts[i]), map[]))
  }

  lemma {:induction false} RunIsSafe(scripts: seq<seq<Operation>>, run: seq<seq<Thread>>, k: nat)
    requires Run(scripts, run) && k < |run|
    ensures AllSafe(run[k])
  {
    if k == 0 {
      forall i | 0 <= i < |scripts| ensures Safe(run[0][i].todo, run[0][i].held) {
        ScriptIsSafe(scripts[i]);
      }
    } else {
      RunIsSafe(scripts, run, k - 1);
      assert Follows(run[k - 1], run[k - 1 + 1]);
    }
  }

  /** Following a blocked thread to who holds its lock leads to ever higher ranks, and so to one that can move. */
  lemma {:induction false} FindMover(ts: seq<Thread>, i: nat) returns (m: nat)
    requires AllSafe(ts) && i < |ts| && ts[i].todo != []
    ensures m < |ts| && CanStep(ts, m)
    decreases if ts[i].todo[0].Acquire? then TOP - Rank(ts[i].todo[0].lock) else 0
  {
    m := i;
    if !CanStep(ts, i) {
      var l := ts[i].todo[0].lock;
      if h: nat :| h < |ts| && l in ts[h].held {
        HolderGoesOn(ts[h], l);
        m := FindMover(ts, h);
      } else {
        var w: nat :| w < |ts| && Waits(ts[w], l, true);
        m := w;
      }
    }
  }

  /** A thread holding a lock is not done, and waits only for locks above it. */
  lemma HolderGoesOn(t: Thread, l: Lock)
    requires Safe(t.todo, t.held) && l in t.held
    ensures t.todo != [] && (t.todo[0].Acquire? ==> Rank(t.todo[0].lock) > Rank(l))
  {
  }

  /** No circular wait: as long as some thread is not done, some thread can move. */
  lemma NoDeadlock(scripts: seq<seq<Operation>>, run: seq<seq<Thread>>, k: nat)
    requires Run(scripts, run) && k < |run| && exists i :: 0 <= i < |run[k]| && run[k][i].todo != []
    ensures exists m: nat :: m < |run[k]| && CanStep(run[k], m)
  {
    RunIsSafe(scripts, run, k);
    var i: nat :| i < |run[k]| && run[k][i].todo != [];
    var m := FindMover(run[k], i);
  }

  // ---------- what holding a lock means ----------

  /** No two threads hold a lock unless both hold it for reading. */
  predicate Exclusive(ts: seq<Thread>) {
    forall i, j, l :: 0 <= i < |ts| && 0 <= j < |ts| && i != j && l in ts[i].held && l in ts[j].held ==> !ts[i].held[l] && !ts[j].held[l]
  }

  lemma StepKeepsExclusive(ts: seq<Thread>, i: nat)
    requires Exclusive(ts) && i < |ts| && CanStep(ts, i)
    ensures Exclusive(ts[i := Stepped(ts[i])])
  {
  }

  /** In every reachable state a lock held for writing is held by one thread alone. */
  lemma {:induction false} LocksExclude(scripts: seq<seq<Operation>>, run: seq<seq<Thread>>, k: nat)
    requires Run(scripts, run) && k < |run|
    ensures Exclusive(run[k])
  {
    if k > 0 {
      LocksExclude(scripts, run, k - 1);
      assert Follows(run[k - 1], run[k - 1 + 1]);
      var i: nat :| i < |run[k - 1]| && CanStep(run[k - 1], i) && run[k] == run[k - 1][i := Stepped(run[k - 1][i])];
      StepKeepsExclusive(run[k - 1], i);
    }
  }

  /** Readers share a lock, but a new reader waits behind a waiting writer: reading it twice can block for good. */
  lemma NestedReadDeadlocks(l: Lock, first: seq<Op>, second: seq<Op>)
    ensures Stuck([Thread([Acquire(l, false)] + first, map[l := false]), Thread([Acquire(l, true)] + second, map[])])
    ensures var ts := [Thread([Acquire(l, false)] + first, map[]), Thread(second, map[l := false])];
      !Waits(ts[1], l, true) ==> CanStep(ts, 0)
  {
    var ts := [Thread([Acquire(l, false)] + first, map[l := false]), Thread([Acquire(l, true)] + second, map[])];
    assert Waits(ts[1], l, true);
    assert l in ts[0].held;
  }

  // ---------- what the operations take ----------

  function Writing(l: Lock): seq<Op> {
    [Acquire(l, true), Release(l)]
  }

  function Reading(l: Lock): seq<Op> {
    [Acquire(l, false), Release(l)]
  }

  function Inside(l: Lock, ops: seq<Op>): seq<Op> {
    [Acquire(l, true)] + ops + [Release(l)]
  }

  function Only(c: bool, ops: seq<Op>): seq<Op> {
    if c then ops else []
  }

  /** The channel cache is rebuilt before prices are invalidated, and its lock is released first. */
  function Rebuilding(on: bool): seq<Op> {
    Only(on, Writing(ChannelSync)) + Writing(UpdatePricing)
  }

  /** A refresh of prices holds both pricing locks while it reads channels and publishes groups. */
  function Refreshing(failed: bool, advanced: bool, on: bool): seq<Op> {
    Inside(UpdatePricing, Inside(SupportEndpoints, Only(!failed, Only(advanced && on, Reading(ChannelSync)) + Writing(EnableGroups))))
  }

  lemma FlattenNothing()
    ensures Flatten(Nothing) == []
  {
  }

  lemma FlattenThen(a: Code, b: Code)
    ensures Flatten(Then(a, b)) == Flatten(a) + Flatten(b)
  {
  }

  lemma FlattenInside(l: Lock, body: Code)
    ensures Flatten(With(l, true, body)) == Inside(l, Flatten(body))
  {
  }

  lemma FlattenOne(l: Lock, w: bool)
    ensures Flatten(With(l, w, Nothing)) == [Acquire(l, w), Release(l)]
  {
  }

  lemma RebuildingIs(on: bool)
    ensures Flatten(InitCache(on)) == Rebuilding(on)
  {
    FlattenOne(ChannelSync, true);
    FlattenOne(UpdatePricing, true);
  }

  lemma RefreshingIs(failed: bool, advanced: bool, on: bool)
    ensures Flatten(CodeOf(RefreshPricing(failed, advanced, on))) == Refreshing(failed, advanced, on)
  {
    FlattenOne(ChannelSync, false);
    FlattenOne(EnableGroups, true);
    var body := UpdatePricingBody(failed, advanced, on);
    assert Flatten(body) == Only(!failed, Only(advanced && on, Reading(ChannelSync)) + Writing(EnableGroups));
    hide UpdatePricingBody;
    assert Flatten(With(SupportEndpoints, true, body)) == Inside(SupportEndpoints, Flatten(body));
  }

  /** The locks that the cache operations take, in order. */
  lemma CacheOperationsTake(on: bool, isNil: bool)
    ensures Flatten(CodeOf(InitChannelCache(on))) == Rebuilding(on)
    ensures Flatten(CodeOf(CacheUpdateChannel(on, isNil))) == Only(on, Writing(ChannelSync) + Only(!isNil, Writing(UpdatePricing)))
    ensures Flatten(CodeOf(CacheGetChannel(on))) == Only(on, Reading(ChannelSync))
    ensures Flatten(CodeOf(CacheUpdateChannelStatus(on))) == Only(on, Writing(ChannelSync))
    ensures Flatten(CodeOf(InvalidatePricingCache)) == Writing(UpdatePricing)
  {
    RebuildingIs(on);
    FlattenOne(ChannelSync, true);
    FlattenOne(ChannelSync, false);
    FlattenOne(UpdatePricing, true);
    hide InitCache;
  }

  /** Those of pricing: a second look under the lock decides whether a refresh goes on. */
  lemma PricingOperationsTake(stale: bool, inside: bool, failed: bool, advanced: bool, on: bool)
    ensures Flatten(CodeOf(RefreshPricing(failed, advanced, on))) == Refreshing(failed, advanced, on)
    ensures Flatten(CodeOf(GetPricing(stale, inside, failed, advanced, on))) ==
      Only(stale, if inside then Refreshing(failed, advanced, on) else Writing(UpdatePricing))
  {
    RefreshingIs(failed, advanced, on);
    FlattenOne(UpdatePricing, true);
    FlattenNothing();
    hide UpdatePricingBody, Refreshing, Flatten;
  }

  lemma PricingReadersTake(pricing: Operation)
    ensures Flatten(CodeOf(SupportEndpointTypes)) == Reading(SupportEndpoints)
    ensures Flatten(CodeOf(QuotaTypes(pricing))) == Only(pricing.GetPricing?, Flatten(CodeOf(pricing))) + Reading(EnableGroups)
  {
    FlattenOne(SupportEndpoints, false);
    FlattenOne(EnableGroups, false);
  }

  /** Those of channels with many keys: each holds the channel's own lock, and a change of status the status lock around it. */
  lemma ChannelOperationsTake(id: int, polling: bool, on: bool, changes: bool, saves: bool)
    ensures Flatten(CodeOf(GetNextEnabledKey(id, polling, on))) == Inside(Polling(id), Only(polling && on, Reading(ChannelSync)))
    ensures Flatten(CodeOf(ManageMultiKeys(id, saves, on))) == Inside(Polling(id), Only(saves, Rebuilding(on)))
    ensures Flatten(CodeOf(UpdateChannelStatus(id, on, changes))) ==
      if on then Inside(ChannelStatus, Inside(Polling(id), Reading(ChannelSync) + Only(changes, Writing(ChannelSync))))
      else Writing(Polling(id))
  {
    RebuildingIs(on);
    FlattenOne(ChannelSync, true);
    FlattenOne(ChannelSync, false);
    FlattenOne(Polling(id), true);
    hide InitCache, Rebuilding;
    var update := Then(Read(ChannelSync), When(changes, Guarded(ChannelSync)));
    assert Flatten(update) == Reading(ChannelSync) + Only(changes, Writing(ChannelSync));
    assert Flatten(With(Polling(id), true, update)) == Inside(Polling(id), Flatten(update));
  }

  /** Those of the catalogue: prices are saved, and models deleted, under a mutation lock around the refresh. */
  lemma CatalogueOperationsTake(refresh: Operation, removePricing: bool, updated: bool, on: bool)
    ensures var republish := Only(refresh.RefreshPricing?, Flatten(CodeOf(refresh)));
      && Flatten(CodeOf(SavePricing(refresh))) == Inside(PricingMutation, republish)
      && Flatten(CodeOf(DeleteModels(removePricing, updated, refresh, on))) ==
           if removePricing then Inside(MetadataMutation, Inside(PricingMutation, republish) + (Only(updated, Rebuilding(on)) + republish))
           else Writing(MetadataMutation) + (Only(updated, Rebuilding(on)) + republish)
  {
    hide InitCache, Rebuilding, Flatten, Inside;
    var republish := When(refresh.RefreshPricing?, CodeOf(refresh));
    var saving, cache := With(PricingMutation, true, republish), When(updated, InitCache(on));
    RebuildingIs(on);
    FlattenNothing();
    FlattenOne(MetadataMutation, true);
    FlattenInside(PricingMutation, republish);
    FlattenThen(cache, republish);
    FlattenThen(saving, Then(cache, republish));
    FlattenInside(MetadataMutation, Then(saving, Then(cache, republish)));
    FlattenThen(Guarded(MetadataMutation), Then(cache, republish));
  }

  function Work(ts: seq<Thread>): nat {
    if ts == [] then 0 else Work(ts[..|ts| - 1]) + |ts[|ts| - 1].todo|
  }

  lemma {:induction false} StepIsWork(ts: seq<Thread>, i: nat)
    requires i < |ts| && ts[i].todo != []
    ensures Work(ts[i := Stepped(ts[i])]) == Work(ts) - 1
  {
    var n := |ts| - 1;
    var ts' := ts[i := Stepped(ts[i])];
    if i < n {
      assert ts'[..n] == ts[..n][i := Stepped(ts[i])];
      StepIsWork(ts[..n], i);
    } else {
      assert ts'[..n] == ts[..n];
    }
  }

  /** Every step brings the threads nearer to the end, so with the above every run can be, and must be, run to its end. */
  lemma {:induction false} RunsEnd(scripts: seq<seq<Operation>>, run: seq<seq<Thread>>, k: nat)
    requires Run(scripts, run) && k < |run|
    ensures Work(run[k]) + k == Work(Initial(scripts))
  {
    if k > 0 {
      RunsEnd(scripts, run, k - 1);
      assert Follows(run[k - 1], run[k - 1 + 1]);
      var i: nat :| i < |run[k - 1]| && CanStep(run[k - 1], i) && run[k] == run[k - 1][i := Stepped(run[k - 1][i])];
      StepIsWork(run[k - 1], i);
    }
  }

  // ---------- why the cache lock is released first ----------

  /** Invalidating the pricing cache while still holding the channel lock. */
  function Careless(): Code {
    With(ChannelSync, true, Guarded(UpdatePricing))
  }

  function CarelessStart(): seq<Thread> {
    [Thread(Flatten(Careless()), map[]), Thread(Flatten(CodeOf(RefreshPricing(false, true, true))), map[])]
  }

  /** No thread is done and none can move. */
  predicate Stuck(ts: seq<Thread>) {
    forall i :: 0 <= i < |ts| ==> ts[i].todo != [] && !CanStep(ts, i)
  }

  /** Beside a pricing refresh, each thread comes to wait for the other. */
  lemma CarelessOrderDeadlocks() returns (a: seq<Thread>, b: seq<Thread>, c: seq<Thread>)
    ensures !Ordered(Careless(), -1)
    ensures Follows(CarelessStart(), a) && Follows(a, b) && Follows(b, c) && |c| == 2 && Stuck(c)
  {
    var start := CarelessStart();
    CarelessText();
    RefreshText();
    a := start[0 := Stepped(start[0])];
    assert CanStep(start, 0);
    b := a[1 := Stepped(a[1])];
    assert CanStep(a, 1);
    c := b[1 := Stepped(b[1])];
    assert CanStep(b, 1);
    assert UpdatePricing in c[1].held && !CanStep(c, 0);
    assert ChannelSync in c[0].held && c[0].held[ChannelSync] && !CanStep(c, 1);
  }

  lemma CarelessText()
    ensures Flatten(Careless()) == [Acquire(ChannelSync, true), Acquire(UpdatePricing, true), Release(UpdatePricing), Release(ChannelSync)]
  {
    assert Flatten(Guarded(UpdatePricing)) == [Acquire(UpdatePricing, true), Release(UpdatePricing)];
  }

  lemma RefreshText()
    ensures var text := Flatten(CodeOf(RefreshPricing(false, true, true)));
      |text| >= 3 && text[0] == Acquire(UpdatePricing, true) && text[1] == Acquire(SupportEndpoints, true) && text[2] == Acquire(ChannelSync, false)
  {
    var body := UpdatePricingBody(false, true, true);
    assert Flatten(Read(ChannelSync)) == [Acquire(ChannelSync, false), Release(ChannelSync)];
    assert Flatten(body)[0] == Acquire(ChannelSync, false);
    var inner := With(SupportEndpoints, true, body);
    assert Flatten(inner)[0] == Acquire(SupportEndpoints, true) && Flatten(inner)[1] == Acquire(ChannelSync, false);
  }
}
