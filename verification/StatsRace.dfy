/**
 Filling in the combined dimension (BackfillPBRChannelModelStats in model/pbr_request_log.go) while requests
 are being logged: the scan and every insert are steps among those of the writers, and the process may die
 and start over.
 */
module StatsRace {
  import opened HourlyStats
  import opened StatsBackfill

  /** Where the backfill stands; `at` is the world its scan saw, `left` the groups still to insert. */
  datatype Phase = Waiting | Inserting(at: World, left: seq<Group>) | Finished

  /** What an inserted row was computed from. */
  datatype Origin = Origin(at: World, group: Group)

  /** `former` are the entries from before the dimension; `origin` is history: the rows the backfill inserted. */
  datatype System = System(former: seq<Entry>, w: World, phase: Phase, origin: map<Slot, Origin>)

  datatype Move =
    | Live(step: Step)
    | Scan(groups: seq<Group>)
    | Insert
    | Finish
    | Restart

  function Scannable(y: System): seq<Entry> {
    y.former + y.w.log
  }

  predicate Enabled(y: System, m: Move) {
    match m
    case Live(_) => true
    case Scan(groups) => y.phase == Waiting && Scannable(y) != [] && IsScan(Scannable(y), groups)
    case Insert => y.phase.Inserting? && y.phase.left != []
    case Finish => y.phase.Inserting? && y.phase.left == []
    case Restart => y.phase.Inserting?
  }

  function Next(y: System, m: Move): System
    requires Enabled(y, m)
  {
    match m
    case Live(a) => y.(w := After(y.w, a))
    case Scan(groups) => y.(phase := Inserting(y.w, groups))
    case Insert =>
      var Inserting(at, left) := y.phase;
      var row := RowFor(y.former + at.log, left[0]);
      var y' := y.(phase := Inserting(at, left[1..]), w := y.w.(rows := InsertMissing(y.w.rows, row)));
      if HasSlot(y.w.rows, row.slot) then y' else y'.(origin := y.origin[row.slot := Origin(at, left[0])])
    case Finish => y.(phase := Finished)
    case Restart => y.(phase := Waiting)
  }

  function Start(former: seq<Entry>): System {
    System(former, EMPTY, Waiting, map[])
  }

  ghost predicate Follows(y: System, y': System) {
    exists m :: Enabled(y, m) && y' == Next(y, m)
  }

  ghost predicate Run(former: seq<Entry>, ys: seq<System>) {
    ys != [] && ys[0] == Start(former) && forall i :: 0 <= i < |ys| - 1 ==> Follows(ys[i], ys[i + 1])
  }

  // ---------- one slot ----------

  function InLog(log: seq<Entry>, s: Slot): Totals {
    SumLog(log, ForSlot(s))
  }

  function At(rows: Rows, s: Slot): Totals {
    Sum(rows, IsSlot(s))
  }

  /** What the index holds, is about to hold or has missed for a slot. */
  function Held(w: World, s: Slot): Totals {
    Add(At(w.rows, s), Add(At(w.pending, s), At(w.lost, s)))
  }

  lemma ItemsAt(e: Entry, kinds: seq<Kind>, s: Slot)
    requires AllKinds(kinds)
    ensures At(Items(e, kinds), s) == if ForSlot(s)(e) then One(e) else ZERO
  {
    ItemsAtSlot(e, kinds, s);
  }

  lemma Regroup(a: Totals, b: Totals, c: Totals, d: Totals)
    ensures Add(a, Add(Add(b, d), c)) == Add(Add(a, Add(b, c)), d)
    ensures Add(Add(a, d), Add(b, c)) == Add(a, Add(Add(b, d), c)) == Add(a, Add(b, Add(c, d)))
  {
  }

  /** A writer's step adds the same to the log and to what is held. */
  lemma StepAdds(w: World, a: Step, s: Slot) returns (d: Totals)
    ensures Held(After(w, a), s) == Add(Held(w, s), d) && InLog(After(w, a).log, s) == Add(InLog(w.log, s), d)
  {
    hide Sum, SumLog, Items, Upsert, Add, ForSlot, IsSlot;
    d := ZERO;
    AddZero(Held(w, s));
    AddZero(InLog(w.log, s));
    match a
    case Write(e, kinds) =>
      if AllKinds(kinds) {
        d := At(Items(e, kinds), s);
        ItemsAt(e, kinds, s);
        SumConcat(w.pending, Items(e, kinds), IsSlot(s));
        SumLogSnoc(w.log, e, ForSlot(s));
        Regroup(At(w.rows, s), At(w.pending, s), At(w.lost, s), d);
        AddZero(InLog(w.log, s));
      }
    case Apply(at) =>
      if at < |w.pending| {
        var r := w.pending[at];
        var t := if IsSlot(s)(r.slot) then r.totals else ZERO;
        DropSum(w.pending, at, IsSlot(s));
        UpsertAdds(w.rows, r, IsSlot(s));
        Regroup(At(w.rows, s), At(Drop(w.pending, at), s), At(w.lost, s), t);
      }
    case Lose(at) =>
      if at < |w.pending| {
        var r := w.pending[at];
        var t := if IsSlot(s)(r.slot) then r.totals else ZERO;
        DropSum(w.pending, at, IsSlot(s));
        SumSnoc(w.lost, r, IsSlot(s));
        Regroup(At(w.rows, s), At(Drop(w.pending, at), s), At(w.lost, s), t);
      }
  }

  // ---------- the invariant ----------

  /** What the backfill put into a slot. */
  function Inserted(y: System, s: Slot): Totals {
    if s in y.origin then SumLog(y.former + y.origin[s].at.log, InGroup(y.origin[s].group)) else ZERO
  }

  /** `at` is an earlier world of the same run. */
  predicate Before(at: World, w: World) {
    at.log <= w.log && |at.lost| <= |w.lost|
  }

  /** In this world all entries of the slot are pending or lost. */
  predicate AllPending(at: World, s: Slot) {
    Add(At(at.pending, s), At(at.lost, s)) == InLog(at.log, s)
  }

  predicate Counted(rows: Rows) {
    forall i :: 0 <= i < |rows| ==> rows[i].totals.requests > 0
  }

  predicate ScanOk(former: seq<Entry>, w: World, at: World, left: seq<Group>, s: Slot) {
    && Before(at, w) && Counted(at.pending)
    && (HasSlot(at.rows, s) ==> HasSlot(w.rows, s))
    && (!HasSlot(at.rows, s) ==> AllPending(at, s))
    && (forall k :: 0 <= k < |left| ==> HasEntry(former + at.log, left[k]))
  }

  predicate OriginOk(former: seq<Entry>, w: World, o: Origin, s: Slot) {
    && Before(o.at, w) && Counted(o.at.pending) && AllPending(o.at, s)
    && SlotFor(o.group) == s && HasEntry(former + o.at.log, o.group)
  }

  predicate WorldOk(w: World) {
    Unique(w.rows) && Counted(w.pending)
  }

  predicate Balanced(y: System, s: Slot) {
    Held(y.w, s) == Add(InLog(y.w.log, s), Inserted(y, s))
  }

  predicate Inv(y: System, s: Slot) {
    && WorldOk(y.w) && Balanced(y, s)
    && (y.phase.Inserting? ==> ScanOk(y.former, y.w, y.phase.at, y.phase.left, s))
    && (s in y.origin ==> HasSlot(y.w.rows, s) && OriginOk(y.former, y.w, y.origin[s], s))
  }

  lemma StartInv(former: seq<Entry>, s: Slot)
    ensures Inv(Start(former), s)
  {
    hide Add;
    HasSlotEmpty();
    AddZero(ZERO);
    NothingAt(s);
    hide Sum, SumLog, ScanOk, OriginOk;
  }

  lemma NothingAt(s: Slot)
    ensures At([], s) == ZERO && InLog([], s) == ZERO
  {
  }

  lemma {:induction false} ItemsCounted(e: Entry, kinds: seq<Kind>)
    ensures Counted(Items(e, kinds))
  {
    hide Blank, KeyOf, HourOf;
    if kinds != [] { ItemsCounted(e, kinds[..|kinds| - 1]); }
  }

  /** What a writer's step leaves as it must be. */
  lemma LiveKeepsWorld(w: World, a: Step, s: Slot)
    requires WorldOk(w)
    ensures WorldOk(After(w, a)) && Before(w, After(w, a)) && (HasSlot(w.rows, s) ==> HasSlot(After(w, a).rows, s))
  {
    hide Unique, HasSlot;
    match a
    case Write(e, kinds) => ItemsCounted(e, kinds);
    case Apply(at) => if at < |w.pending| { UpsertKeepsUnique(w.rows, w.pending[at]); }
    case Lose(_) =>
  }

  lemma BeforeTwice(a: World, b: World, c: World)
    requires Before(a, b) && Before(b, c)
    ensures Before(a, c)
  {
  }

  lemma LiveKeepsInv(y: System, a: Step, s: Slot)
    requires Inv(y, s)
    ensures Inv(Next(y, Live(a)), s)
  {
    hide WorldOk, Held, InLog, Add, Before, AllPending, Counted, HasEntry, HasSlot, After;
    var w' := After(y.w, a);
    var d := StepAdds(y.w, a, s);
    AddSwap(InLog(y.w.log, s), Inserted(y, s), d);
    LiveKeepsWorld(y.w, a, s);
    if y.phase.Inserting? { BeforeTwice(y.phase.at, y.w, w'); }
    if s in y.origin { BeforeTwice(y.origin[s].at, y.w, w'); }
  }

  /** A slot without a row has nothing in the index, so its entries are pending or lost. */
  lemma AbsentIsPending(y: System, s: Slot)
    requires Balanced(y, s) && !HasSlot(y.w.rows, s) && s !in y.origin
    ensures AllPending(y.w, s)
  {
    hide Sum, SumLog, Add;
    SumOfAbsent(y.w.rows, s);
    AddZero(InLog(y.w.log, s));
    AddZero(Add(At(y.w.pending, s), At(y.w.lost, s)));
  }

  lemma ScanKeepsInv(y: System, groups: seq<Group>, s: Slot)
    requires Inv(y, s) && Enabled(y, Scan(groups))
    ensures Inv(Next(y, Scan(groups)), s)
  {
    hide Held, InLog, Add, AllPending, HasSlot, Unique, InGroup, SumLog;
    if !HasSlot(y.w.rows, s) { AbsentIsPending(y, s); }
    assert forall k :: 0 <= k < |groups| ==> HasEntry(Scannable(y), groups[k]);
  }

  /** The insert of another slot's row does not touch this one. */
  lemma OtherInsert(w: World, row: Row, s: Slot)
    requires Unique(w.rows) && row.slot != s
    ensures var w' := w.(rows := InsertMissing(w.rows, row));
      Unique(w'.rows) && Held(w', s) == Held(w, s) && (HasSlot(w'.rows, s) <==> HasSlot(w.rows, s))
  {
    hide HasSlot, Unique, Sum, Add;
    UniqueSnoc(w.rows, row);
    HasSlotSnoc(w.rows, row, s);
    SumSnoc(w.rows, row, IsSlot(s));
    AddZero(At(w.rows, s));
  }

  /** The insert of this slot's own row, where there is none, adds its totals. */
  lemma OwnInsert(w: World, row: Row, s: Slot)
    requires Unique(w.rows) && row.slot == s && !HasSlot(w.rows, s)
    ensures var w' := w.(rows := InsertMissing(w.rows, row));
      Unique(w'.rows) && HasSlot(w'.rows, s) && Held(w', s) == Add(Held(w, s), row.totals)
  {
    hide HasSlot, Unique, Sum, Add;
    UniqueSnoc(w.rows, row);
    HasSlotSnoc(w.rows, row, s);
    SumSnoc(w.rows, row, IsSlot(s));
    Regroup(row.totals, At(w.rows, s), Add(At(w.pending, s), At(w.lost, s)), ZERO);
    AddRight(At(w.rows, s), row.totals, Add(At(w.pending, s), At(w.lost, s)));
  }

  lemma AddRight(a: Totals, t: Totals, b: Totals)
    ensures Add(Add(a, t), b) == Add(Add(a, b), t)
  {
  }

  lemma InsertKeepsInv(y: System, s: Slot)
    requires Inv(y, s) && Enabled(y, Insert)
    ensures Inv(Next(y, Insert), s)
  {
    hide Held, InLog, Add, AllPending, HasEntry, HasSlot, Unique, InGroup, SumLog, SlotFor;
    var Inserting(at, left) := y.phase;
    var row := RowFor(y.former + at.log, left[0]);
    if row.slot != s {
      OtherInsert(y.w, row, s);
    } else if !HasSlot(y.w.rows, s) {
      OwnInsert(y.w, row, s);
      AddZero(InLog(y.w.log, s));
    }
  }

  lemma MoveKeepsInv(y: System, m: Move, s: Slot)
    requires Inv(y, s) && Enabled(y, m)
    ensures Inv(Next(y, m), s)
  {
    hide WorldOk, ScanOk, OriginOk, Held, InLog, After, IsScan, HasSlot;
    match m
    case Live(a) => LiveKeepsInv(y, a, s);
    case Scan(groups) => ScanKeepsInv(y, groups, s);
    case Insert => InsertKeepsInv(y, s);
    case _ =>
  }

  lemma {:induction false} RunKeepsInv(former: seq<Entry>, ys: seq<System>, i: nat, s: Slot)
    requires Run(former, ys) && i < |ys|
    ensures Inv(ys[i], s) && ys[i].former == former
  {
    hide Inv;
    StartInv(former, s);
    if i > 0 {
      RunKeepsInv(former, ys, i - 1, s);
      assert Follows(ys[i - 1], ys[i - 1 + 1]);
      var m :| Enabled(ys[i - 1], m) && ys[i] == Next(ys[i - 1], m);
      MoveKeepsInv(ys[i - 1], m, s);
    }
  }

  // ---------- the results ----------

  /** What the slot should hold. */
  function Truth(y: System, s: Slot): Totals {
    InLog(y.former + y.w.log, s)
  }

  /** What was pending for the slot when the row the backfill inserted there was scanned. */
  function PendingAtScan(y: System, s: Slot): Totals
    requires s in y.origin
  {
    At(y.origin[s].at.pending, s)
  }

  /** The names seen so far are clear: no key spelled in two ways, no white space that SQL and Go disagree on. */
  predicate Clear(y: System) {
    Unambiguous(y.former + y.w.log) && BlanksAgree(y.former + y.w.log)
  }

  lemma ClearPrefix(former: seq<Entry>, log: seq<Entry>, shorter: seq<Entry>)
    requires shorter <= log && Unambiguous(former + log) && BlanksAgree(former + log)
    ensures Unambiguous(former + shorter) && BlanksAgree(former + shorter)
  {
    hide Clash, Scanned, Blank;
    var a, b := former + log, former + shorter;
    assert forall i :: 0 <= i < |b| ==> b[i] == a[i];
    forall i, j | 0 <= i < |b| && 0 <= j < |b| ensures !Clash(b[i], b[j]) {
      assert !Clash(a[i], a[j]);
    }
  }

  lemma QuietHeld(w: World, s: Slot)
    requires Quiet(w)
    ensures Held(w, s) == At(w.rows, s)
  {
    hide Sum, Add;
    NothingAt(s);
    AddZero(ZERO);
    AddZero(At(w.rows, s));
  }

  /** When all is done, an inserted row holds the truth plus what was pending for it at the scan ... */
  lemma InsertedRowHolds(y: System, s: Slot)
    requires Inv(y, s) && s in y.origin && Clear(y) && Quiet(y.w)
    ensures At(y.w.rows, s) == Add(Truth(y, s), PendingAtScan(y, s))
  {
    hide Sum, SumLog, Add, Clear, IsSlot, ForSlot, HasEntry, Counted, Unambiguous, BlanksAgree;
    var o := y.origin[s];
    QuietHeld(y.w, s);
    SplitTruth(y, s);
    assert Unambiguous(y.former + o.at.log) && BlanksAgree(y.former + o.at.log) by {
      ClearIs(y);
      ClearPrefix(y.former, y.w.log, o.at.log);
    }
    GroupIsSlot(y.former + o.at.log, o.group, s);
    SumLogConcat(y.former, o.at.log, ForSlot(s));
    NothingAt(s);
    assert o.at.lost == [];
    AddZero(At(o.at.pending, s));
    AddSwap(InLog(y.w.log, s), InLog(y.former, s), At(o.at.pending, s));
    AddComm(InLog(y.w.log, s), InLog(y.former, s));
  }

  lemma ClearIs(y: System)
    requires Clear(y)
    ensures Unambiguous(y.former + y.w.log) && BlanksAgree(y.former + y.w.log)
  {
  }

  lemma AddComm(a: Totals, b: Totals)
    ensures Add(a, b) == Add(b, a)
  {
  }

  lemma SplitTruth(y: System, s: Slot)
    ensures Truth(y, s) == Add(InLog(y.former, s), InLog(y.w.log, s))
  {
    SumLogConcat(y.former, y.w.log, ForSlot(s));
  }

  /** ... and any other slot holds the truth less the entries from before the dimension. */
  lemma OtherRowHolds(y: System, s: Slot)
    requires Inv(y, s) && s !in y.origin && Quiet(y.w)
    ensures Truth(y, s) == Add(InLog(y.former, s), At(y.w.rows, s))
  {
    hide Sum, SumLog, Add;
    QuietHeld(y.w, s);
    SplitTruth(y, s);
    AddZero(InLog(y.w.log, s));
  }

  /** Rows that each count at least one request sum to nothing only where there are none. */
  lemma {:induction false} SumIsZeroIffAbsent(rows: Rows, s: Slot)
    requires Counted(rows)
    ensures At(rows, s).requests >= 0 && (At(rows, s) == ZERO <==> !HasSlot(rows, s))
  {
    if rows == [] {
    } else {
      var init, last := rows[..|rows| - 1], rows[|rows| - 1];
      assert rows == init + [last];
      assert forall i :: 0 <= i < |init| ==> init[i] == rows[i];
      SumIsZeroIffAbsent(init, s);
      HasSlotSnoc(init, last, s);
    }
  }

  predicate InFormer(log: seq<Entry>, s: Slot) {
    exists i :: 0 <= i < |log| && ForSlot(s)(log[i])
  }

  lemma LogIsZeroIffAbsent(log: seq<Entry>, s: Slot)
    ensures InLog(log, s) == ZERO <==> !InFormer(log, s)
  {
    if InFormer(log, s) {
      var i :| 0 <= i < |log| && ForSlot(s)(log[i]);
      SumLogCounts(log, ForSlot(s), i);
    } else {
      SumOfNone(log, ForSlot(s));
    }
  }

  lemma AddIsSame(a: Totals, b: Totals)
    ensures Add(a, b) == a <==> b == ZERO
    ensures Add(b, a) == a <==> b == ZERO
  {
  }

  /**
   In every run, among clear names and once all writers are done, a slot holds the truth if and only if nothing was
   pending for it when the row the backfill inserted there was scanned, or, where the backfill inserted none, no entry
   from before the dimension belongs to it.
   */
  lemma ExactIffNothingWasPending(former: seq<Entry>, ys: seq<System>, s: Slot)
    requires Run(former, ys)
    requires var y := ys[|ys| - 1]; Clear(y) && Quiet(y.w)
    ensures var y := ys[|ys| - 1];
      At(y.w.rows, s) == Truth(y, s) <==>
      if s in y.origin then !HasSlot(y.origin[s].at.pending, s) else !InFormer(former, s)
  {
    hide Inv, Clear, At, InLog, InFormer, HasSlot, Quiet;
    RunKeepsInv(former, ys, |ys| - 1, s);
    ExactAt(ys[|ys| - 1], s);
  }

  lemma ExactAt(y: System, s: Slot)
    requires Inv(y, s) && Clear(y) && Quiet(y.w)
    ensures At(y.w.rows, s) == Truth(y, s) <==>
      if s in y.origin then !HasSlot(y.origin[s].at.pending, s) else !InFormer(y.former, s)
  {
    hide Sum, SumLog, Add, Clear, InFormer, Balanced, ScanOk, HasSlot, WorldOk;
    if s in y.origin {
      InsertedRowHolds(y, s);
      SumIsZeroIffAbsent(y.origin[s].at.pending, s);
      AddIsSame(Truth(y, s), PendingAtScan(y, s));
    } else {
      OtherRowHolds(y, s);
      LogIsZeroIffAbsent(y.former, s);
      AddIsSame(At(y.w.rows, s), InLog(y.former, s));
    }
  }

  /** How far off it is: never below the truth where the backfill inserted, never above it elsewhere. */
  lemma BackfillIsOffBy(former: seq<Entry>, ys: seq<System>, s: Slot)
    requires Run(former, ys)
    requires var y := ys[|ys| - 1]; Clear(y) && Quiet(y.w)
    ensures var y := ys[|ys| - 1];
      if s in y.origin then At(y.w.rows, s) == Add(Truth(y, s), PendingAtScan(y, s)) && At(y.w.rows, s).requests >= Truth(y, s).requests
      else Truth(y, s) == Add(InLog(former, s), At(y.w.rows, s)) && At(y.w.rows, s).requests <= Truth(y, s).requests
  {
    hide Inv, Clear, At, InLog, InFormer, HasSlot, Quiet;
    RunKeepsInv(former, ys, |ys| - 1, s);
    OffBy(ys[|ys| - 1], s);
  }

  lemma OffBy(y: System, s: Slot)
    requires Inv(y, s) && Clear(y) && Quiet(y.w)
    ensures
      if s in y.origin then At(y.w.rows, s) == Add(Truth(y, s), PendingAtScan(y, s)) && At(y.w.rows, s).requests >= Truth(y, s).requests
      else Truth(y, s) == Add(InLog(y.former, s), At(y.w.rows, s)) && At(y.w.rows, s).requests <= Truth(y, s).requests
  {
    hide Sum, SumLog, Clear, Balanced, ScanOk, HasSlot, WorldOk;
    if s in y.origin {
      InsertedRowHolds(y, s);
      SumIsZeroIffAbsent(y.origin[s].at.pending, s);
    } else {
      OtherRowHolds(y, s);
      SumLogNonNegative(y.former, ForSlot(s));
    }
  }

  // ---------- once it is done ----------

  /** Once the backfill is marked as done it inserts nothing more. */
  lemma {:induction false} FinishedInsertsNothing(former: seq<Entry>, ys: seq<System>, i: nat, j: nat)
    requires Run(former, ys) && i <= j < |ys| && ys[i].phase == Finished
    ensures ys[j].phase == Finished && ys[j].origin == ys[i].origin
    decreases j
  {
    hide After, IsScan;
    if i < j {
      FinishedInsertsNothing(former, ys, i, j - 1);
      assert Follows(ys[j - 1], ys[j - 1 + 1]);
    }
  }

  /** A scan that finds all its groups inserted ends the backfill for good; one that dies leaves it to start over. */
  lemma EndsOfAScan(y: System)
    requires y.phase.Inserting?
    ensures y.phase.left == [] ==> Next(y, Finish) == y.(phase := Finished)
    ensures Next(y, Restart) == y.(phase := Waiting)
  {
  }

  /** It is marked as done only by the step that finds every group of its last scan inserted, and nothing is scanned on an empty log. */
  lemma FinishesWhenAllInserted(y: System, y': System)
    requires Follows(y, y') && y.phase != Finished && y'.phase == Finished
    ensures y.phase.Inserting? && y.phase.left == [] && y'.w == y.w && y'.origin == y.origin
  {
    hide After, IsScan;
  }

  // ---------- an over-count ----------

  lemma Extend(former: seq<Entry>, ys: seq<System>, m: Move) returns (more: seq<System>)
    requires Run(former, ys) && Enabled(ys[|ys| - 1], m)
    ensures Run(former, more) && |more| == |ys| + 1 && more[|ys|] == Next(ys[|ys| - 1], m)
  {
    hide Enabled, Next;
    var y := Next(ys[|ys| - 1], m);
    more := ys + [y];
    assert Follows(ys[|ys| - 1], y);
    forall i | 0 <= i < |more| - 1 ensures Follows(more[i], more[i + 1]) {
      if i < |ys| - 1 { assert Follows(ys[i], ys[i + 1]); }
    }
  }

  /** The writers can always be run to their end. */
  lemma {:induction false} Drain(former: seq<Entry>, ys: seq<System>) returns (more: seq<System>)
    requires Run(former, ys) && ys[|ys| - 1].w.lost == []
    ensures Run(former, more)
    ensures var (y, y') := (ys[|ys| - 1], more[|more| - 1]); Quiet(y'.w) && y'.w.log == y.w.log && y'.origin == y.origin && y'.former == y.former
    decreases |ys[|ys| - 1].w.pending|
  {
    more := ys;
    if ys[|ys| - 1].w.pending != [] {
      more := Extend(former, ys, Live(Apply(0)));
      more := Drain(former, more);
    }
  }

  /**
   Any entry with both its names: logged, scanned and inserted by the backfill before its own upserts are made, it is
   counted twice.
   */
  lemma BackfillCountsTwice(e: Entry, kinds: seq<Kind>) returns (ys: seq<System>)
    requires !Blank(e.channel) && !Blank(e.model) && AllKinds(kinds)
    ensures Run([], ys)
    ensures var y := ys[|ys| - 1]; var s := SlotOf(e, ChannelModel);
      && y.w.log == [e] && Quiet(y.w) && Clear(y)
      && Truth(y, s) == One(e) && At(y.w.rows, s) == Add(One(e), One(e))
  {
    hide Clear, Truth, At, Items, AllKinds, SlotOf, Blank, Add, One, Quiet;
    ys := InsertBeforeUpsert(e, kinds);
    ys := Drain([], ys);
    CountedTwice(e, kinds, ys);
  }

  lemma CountedTwice(e: Entry, kinds: seq<Kind>, ys: seq<System>)
    requires !Blank(e.channel) && !Blank(e.model) && AllKinds(kinds) && Run([], ys)
    requires var y := ys[|ys| - 1]; var s := SlotOf(e, ChannelModel);
      && y.former == [] && y.w.log == [e] && Quiet(y.w) && s in y.origin && y.origin[s].at.pending == Items(e, kinds)
    ensures var y := ys[|ys| - 1]; var s := SlotOf(e, ChannelModel);
      Clear(y) && Truth(y, s) == One(e) && At(y.w.rows, s) == Add(One(e), One(e))
  {
    hide Follows, Clear, At, Items, AllKinds, Blank, Add, One, Quiet, SumLog, KeyOf, HourOf;
    var y, s := ys[|ys| - 1], SlotOf(e, ChannelModel);
    OneIsClear(y, e);
    ItemsAt(e, kinds, s);
    OneInLog(e, s);
    assert [] + [e] == [e];
    BackfillIsOffBy([], ys, s);
  }

  lemma OneInLog(e: Entry, s: Slot)
    requires ForSlot(s)(e)
    ensures InLog([e], s) == One(e)
  {
    SumLogSnoc([], e, ForSlot(s));
    AddZero(One(e));
    assert [] + [e] == [e];
  }

  lemma OneIsClear(y: System, e: Entry)
    requires y.former == [] && y.w.log == [e] && !Blank(e.channel) && !Blank(e.model)
    ensures Clear(y) && Scanned(e) && ForSlot(SlotOf(e, ChannelModel))(e) && SlotFor(GroupOf(e)) == SlotOf(e, ChannelModel)
  {
    hide Blank, SqlBlank, HourOf;
    NonblankIsScanned(e.channel);
    NonblankIsScanned(e.model);
    CombinedKeyNotBlank(e);
    assert [] + [e] == [e];
  }

  /** The first three moves. */
  lemma InsertBeforeUpsert(e: Entry, kinds: seq<Kind>) returns (ys: seq<System>)
    requires !Blank(e.channel) && !Blank(e.model) && AllKinds(kinds)
    ensures Run([], ys)
    ensures var y := ys[|ys| - 1]; var s := SlotOf(e, ChannelModel);
      && y.former == [] && y.w.log == [e] && y.w.lost == [] && s in y.origin && y.origin[s].at.pending == Items(e, kinds)
  {
    hide Blank, SqlBlank, HourOf, Items, AllKinds;
    var g := GroupOf(e);
    var y0 := Start([]);
    assert Run([], [y0]);
    ys := Extend([], [y0], Live(Write(e, kinds)));
    var y1 := ys[1];
    assert y1.w.log == [e] && y1.w.pending == Items(e, kinds);
    OneIsClear(y1, e);
    OneIsScanned(e);
    assert Scannable(y1) == [e];
    ys := Extend([], ys, Scan([g]));
    ys := Extend([], ys, Insert);
    assert !HasSlot(y1.w.rows, SlotFor(g));
  }

  lemma OneIsScanned(e: Entry)
    requires Scanned(e)
    ensures IsScan([e], [GroupOf(e)])
  {
    assert InGroup(GroupOf(e))([e][0]);
  }
}
