/**
 The hourly statistics of model/pbr_request_log.go: an index table kept up to date entry by
 entry (upsertPBRHourlyStat), and the queries that read it or the log itself.
 */
module HourlyStats {
  import opened GoStrings

  datatype Entry = Entry(ts: nat, lane: string, channel: string, key: string, model: string,
                         success: bool, prompt: int, completion: int, cost: real)

  /** The five summed columns. */
  datatype Totals = Totals(requests: int, successes: int, prompt: int, completion: int, cost: real)

  const ZERO := Totals(0, 0, 0, 0, 0.0)

  function Add(a: Totals, b: Totals): Totals {
    Totals(a.requests + b.requests, a.successes + b.successes, a.prompt + b.prompt, a.completion + b.completion, a.cost + b.cost)
  }

  /** What one entry counts for. */
  function One(e: Entry): Totals {
    Totals(1, if e.success then 1 else 0, e.prompt, e.completion, e.cost)
  }

  datatype Kind = Lane | Channel | Key | Model | ChannelModel

  /** The primary key of the index. */
  datatype Slot = Slot(bucket: nat, kind: Kind, key: string)

  datatype Row = Row(slot: Slot, totals: Totals)

  type Rows = seq<Row>
  type Pick = Slot -> bool

  const SEPARATOR := "\U{241f}"

  function HourOf(ts: nat): nat {
    ts / 3600 * 3600
  }

  function DayOf(ts: nat): nat {
    ts / 86400 * 86400
  }

  predicate Blank(s: string) {
    TrimSpace(s) == ""
  }

  /** The key of an entry in a dimension; the combined one needs both its parts. */
  function KeyOf(e: Entry, kind: Kind): string {
    match kind
    case Lane => e.lane
    case Channel => e.channel
    case Key => e.key
    case Model => e.model
    case ChannelModel => if Blank(e.channel) || Blank(e.model) then "" else e.channel + SEPARATOR + e.model
  }

  function SlotOf(e: Entry, kind: Kind): Slot {
    Slot(HourOf(e.ts), kind, KeyOf(e, kind))
  }

  // ---------- the index ----------

  /** INSERT ... ON CONFLICT DO UPDATE: adds to the row of that slot, or inserts it. */
  function Upsert(rows: Rows, r: Row): Rows {
    if rows == [] then [r]
    else
      var last := rows[|rows| - 1];
      if last.slot == r.slot then rows[..|rows| - 1] + [Row(last.slot, Add(last.totals, r.totals))]
      else Upsert(rows[..|rows| - 1], r) + [last]
  }

  /** The upserts one entry makes, in the order its dimensions are visited. */
  function Items(e: Entry, kinds: seq<Kind>): Rows {
    if kinds == [] then []
    else
      var kind := kinds[|kinds| - 1];
      var rest := Items(e, kinds[..|kinds| - 1]);
      if Blank(KeyOf(e, kind)) then rest else rest + [Row(SlotOf(e, kind), One(e))]
  }

  function UpsertAll(rows: Rows, items: Rows): Rows {
    if items == [] then rows else Upsert(UpsertAll(rows, items[..|items| - 1]), items[|items| - 1])
  }

  function Sum(rows: Rows, p: Pick): Totals {
    if rows == [] then ZERO
    else
      var rest := Sum(rows[..|rows| - 1], p);
      if p(rows[|rows| - 1].slot) then Add(rest, rows[|rows| - 1].totals) else rest
  }

  /** The same over the entries of the log, taken as rows of a dimension. */
  function SumLog(log: seq<Entry>, q: Entry -> bool): Totals {
    if log == [] then ZERO
    else
      var rest := SumLog(log[..|log| - 1], q);
      if q(log[|log| - 1]) then Add(rest, One(log[|log| - 1])) else rest
  }

  /** The entries that a pick of slots of one dimension selects. */
  function Selects(kind: Kind, p: Pick): Entry -> bool {
    e => !Blank(KeyOf(e, kind)) && p(SlotOf(e, kind))
  }

  function OfKind(kind: Kind, p: Pick): Pick {
    (s: Slot) => s.kind == kind && p(s)
  }

  lemma {:induction false} SumConcat(a: Rows, b: Rows, p: Pick)
    ensures Sum(a + b, p) == Add(Sum(a, p), Sum(b, p))
  {
    if b == [] {
      assert a + b == a;
    } else {
      var n := |b| - 1;
      assert (a + b)[..|a| + n] == a + b[..n];
      SumConcat(a, b[..n], p);
    }
  }

  lemma SumOne(r: Row, p: Pick)
    ensures Sum([r], p) == if p(r.slot) then r.totals else ZERO
  {
    assert [r][..0] == [];
  }

  lemma SumSnoc(rows: Rows, r: Row, p: Pick)
    ensures Sum(rows + [r], p) == Add(Sum(rows, p), if p(r.slot) then r.totals else ZERO)
  {
    SumConcat(rows, [r], p);
    SumOne(r, p);
  }

  /** An upsert adds its totals to every sum that includes its slot, and to no other. */
  lemma {:induction false} UpsertAdds(rows: Rows, r: Row, p: Pick)
    ensures Sum(Upsert(rows, r), p) == Add(Sum(rows, p), if p(r.slot) then r.totals else ZERO)
  {
    if rows == [] {
      SumOne(r, p);
    } else {
      var init, last := rows[..|rows| - 1], rows[|rows| - 1];
      assert rows == init + [last];
      SumSnoc(init, last, p);
      if last.slot == r.slot {
        SumSnoc(init, Row(last.slot, Add(last.totals, r.totals)), p);
      } else {
        UpsertAdds(init, r, p);
        SumSnoc(Upsert(init, r), last, p);
      }
    }
  }

  /** No two rows share a primary key. */
  predicate Unique(rows: Rows) {
    forall i, j :: 0 <= i < j < |rows| ==> rows[i].slot != rows[j].slot
  }

  predicate HasSlot(rows: Rows, s: Slot) {
    exists i :: 0 <= i < |rows| && rows[i].slot == s
  }

  lemma HasSlotSnoc(rows: Rows, r: Row, s: Slot)
    ensures HasSlot(rows + [r], s) <==> HasSlot(rows, s) || r.slot == s
  {
    var all := rows + [r];
    assert all[|rows|] == r;
    if HasSlot(rows, s) {
      var i :| 0 <= i < |rows| && rows[i].slot == s;
      assert all[i] == rows[i];
    }
  }

  lemma UniqueSnoc(rows: Rows, r: Row)
    ensures Unique(rows + [r]) <==> Unique(rows) && !HasSlot(rows, r.slot)
  {
    var all := rows + [r];
    assert forall i :: 0 <= i < |rows| ==> all[i] == rows[i];
    assert all[|rows|] == r;
  }

  lemma {:induction false} UpsertKeepsUnique(rows: Rows, r: Row)
    requires Unique(rows)
    ensures Unique(Upsert(rows, r))
    ensures forall s :: HasSlot(Upsert(rows, r), s) <==> HasSlot(rows, s) || s == r.slot
  {
    hide Unique, HasSlot;
    if rows == [] {
      HasSlotEmpty();
      assert [r] == [] + [r];
      UniqueSnoc([], r);
      forall s ensures HasSlot([r], s) <==> s == r.slot {
        HasSlotSnoc([], r, s);
      }
    } else {
      var init, last := rows[..|rows| - 1], rows[|rows| - 1];
      assert rows == init + [last];
      UniqueSnoc(init, last);
      var changed := Row(last.slot, Add(last.totals, r.totals));
      if last.slot == r.slot {
        UniqueSnoc(init, changed);
      } else {
        UpsertKeepsUnique(init, r);
        UniqueSnoc(Upsert(init, r), last);
      }
      forall s ensures HasSlot(Upsert(rows, r), s) <==> HasSlot(rows, s) || s == r.slot {
        HasSlotSnoc(init, last, s);
        if last.slot == r.slot { HasSlotSnoc(init, changed, s); } else { HasSlotSnoc(Upsert(init, r), last, s); }
      }
    }
  }

  lemma HasSlotEmpty()
    ensures Unique([]) && forall s :: !HasSlot([], s)
  {
  }

  /** Recording an entry adds it, in each dimension, to exactly the sums that its slot belongs to. */
  lemma {:induction false} UpsertAllAdds(rows: Rows, items: Rows, p: Pick)
    ensures Sum(UpsertAll(rows, items), p) == Add(Sum(rows, p), Sum(items, p))
  {
    if items == [] {
      AddZero(Sum(rows, p));
    } else {
      var init, last := items[..|items| - 1], items[|items| - 1];
      assert items == init + [last];
      hide Sum, Upsert, Add;
      UpsertAllAdds(rows, init, p);
      UpsertAdds(UpsertAll(rows, init), last, p);
      SumSnoc(init, last, p);
      AddSwap(Sum(rows, p), Sum(init, p), if p(last.slot) then last.totals else ZERO);
    }
  }

  // ---------- every interleaving of writers ----------

  /** Entries logged, upserts that their writers have yet to make, upserts that failed, and the index. */
  datatype World = World(log: seq<Entry>, pending: Rows, lost: Rows, rows: Rows)

  datatype Step =
    | Write(e: Entry, kinds: seq<Kind>)
    | Apply(at: nat)
    | Lose(at: nat)

  predicate Distinct(kinds: seq<Kind>) {
    forall i, j :: 0 <= i < j < |kinds| ==> kinds[i] != kinds[j]
  }

  lemma DistinctInit(kinds: seq<Kind>, kind: Kind)
    requires kinds != [] && Distinct(kinds)
    ensures var init, last := kinds[..|kinds| - 1], kinds[|kinds| - 1];
      Distinct(init) && last !in init && (kind in kinds <==> kind in init || kind == last)
  {
    assert kinds == kinds[..|kinds| - 1] + [kinds[|kinds| - 1]];
  }

  /** Each of the five dimensions once, in any order. */
  predicate AllKinds(kinds: seq<Kind>) {
    Distinct(kinds) && forall k: Kind :: k in kinds
  }

  function Drop(rows: Rows, at: nat): Rows
    requires at < |rows|
  {
    rows[..at] + rows[at + 1..]
  }

  /** A step that is not possible changes nothing. */
  function After(w: World, a: Step): World {
    match a
    case Write(e, kinds) => if AllKinds(kinds) then w.(log := w.log + [e], pending := w.pending + Items(e, kinds)) else w
    case Apply(at) =>
      if at < |w.pending| then w.(pending := Drop(w.pending, at), rows := Upsert(w.rows, w.pending[at])) else w
    case Lose(at) =>
      if at < |w.pending| then w.(pending := Drop(w.pending, at), lost := w.lost + [w.pending[at]]) else w
  }

  function AfterAll(w: World, acts: seq<Step>): World {
    if acts == [] then w else After(AfterAll(w, acts[..|acts| - 1]), acts[|acts| - 1])
  }

  const EMPTY := World([], [], [], [])

  lemma AddZero(a: Totals)
    ensures Add(a, ZERO) == a && Add(ZERO, a) == a
  {
  }

  lemma ItemsStep(e: Entry, kinds: seq<Kind>, kind: Kind, p: Pick)
    requires kinds != []
    ensures var last := kinds[|kinds| - 1];
      Sum(Items(e, kinds), OfKind(kind, p))
      == Add(Sum(Items(e, kinds[..|kinds| - 1]), OfKind(kind, p)), if last == kind && Selects(kind, p)(e) then One(e) else ZERO)
  {
    hide Blank, KeyOf, Add, HourOf, Sum;
    var last := kinds[|kinds| - 1];
    var rest := Items(e, kinds[..|kinds| - 1]);
    AddZero(Sum(rest, OfKind(kind, p)));
    if !Blank(KeyOf(e, last)) {
      SumSnoc(rest, Row(SlotOf(e, last), One(e)), OfKind(kind, p));
    }
  }

  /** Of the upserts of one entry, exactly one is for each dimension in which it has a key. */
  lemma {:induction false} ItemsSum(e: Entry, kinds: seq<Kind>, kind: Kind, p: Pick)
    requires Distinct(kinds)
    ensures Sum(Items(e, kinds), OfKind(kind, p)) == if kind in kinds && Selects(kind, p)(e) then One(e) else ZERO
  {
    hide *;
    if kinds == [] {
      ItemsOfNone(e, OfKind(kind, p));
    } else {
      DistinctInit(kinds, kind);
      ItemsSum(e, kinds[..|kinds| - 1], kind, p);
      ItemsStep(e, kinds, kind, p);
      AddZero(One(e));
      AddZero(ZERO);
    }
  }

  lemma ItemsOfNone(e: Entry, p: Pick)
    ensures Sum(Items(e, []), p) == ZERO
  {
  }

  /** Rows, upserts still to come and upserts lost: together what the log holds. */
  predicate Conserved(w: World, kind: Kind, p: Pick) {
    Add(Sum(w.rows, OfKind(kind, p)), Add(Sum(w.pending, OfKind(kind, p)), Sum(w.lost, OfKind(kind, p))))
    == SumLog(w.log, Selects(kind, p))
  }

  lemma DropSum(rows: Rows, at: nat, p: Pick)
    requires at < |rows|
    ensures Sum(rows, p) == Add(Sum(Drop(rows, at), p), if p(rows[at].slot) then rows[at].totals else ZERO)
  {
    hide Sum, Add;
    var a, b := rows[..at], rows[at + 1..];
    assert rows == a + [rows[at]] + b;
    SumConcat(a + [rows[at]], b, p);
    SumSnoc(a, rows[at], p);
    SumConcat(a, b, p);
    AddSwap(Sum(a, p), if p(rows[at].slot) then rows[at].totals else ZERO, Sum(b, p));
  }

  lemma AddSwap(a: Totals, b: Totals, c: Totals)
    ensures Add(Add(a, b), c) == Add(Add(a, c), b) == Add(a, Add(b, c))
  {
  }

  lemma SumLogSnoc(log: seq<Entry>, e: Entry, q: Entry -> bool)
    ensures SumLog(log + [e], q) == if q(e) then Add(SumLog(log, q), One(e)) else SumLog(log, q)
  {
    assert (log + [e])[..|log|] == log;
  }

  lemma StepConserves(w: World, a: Step, kind: Kind, p: Pick)
    requires Conserved(w, kind, p)
    ensures Conserved(After(w, a), kind, p)
  {
    hide Sum, SumLog, Upsert, Items, Selects, OfKind;
    match a
    case Write(e, kinds) =>
      if AllKinds(kinds) {
        ItemsSum(e, kinds, kind, p);
        SumConcat(w.pending, Items(e, kinds), OfKind(kind, p));
        SumLogSnoc(w.log, e, Selects(kind, p));
      }
    case Apply(at) =>
      if at < |w.pending| {
        DropSum(w.pending, at, OfKind(kind, p));
        UpsertAdds(w.rows, w.pending[at], OfKind(kind, p));
      }
    case Lose(at) =>
      if at < |w.pending| {
        DropSum(w.pending, at, OfKind(kind, p));
        SumSnoc(w.lost, w.pending[at], OfKind(kind, p));
      }
  }

  lemma EmptyConserves(kind: Kind, p: Pick)
    ensures Conserved(EMPTY, kind, p)
  {
  }

  lemma {:induction false} RunConserves(acts: seq<Step>, kind: Kind, p: Pick)
    ensures Conserved(AfterAll(EMPTY, acts), kind, p)
  {
    hide Conserved, After;
    EmptyConserves(kind, p);
    if acts != [] {
      RunConserves(acts[..|acts| - 1], kind, p);
      StepConserves(AfterAll(EMPTY, acts[..|acts| - 1]), acts[|acts| - 1], kind, p);
    }
  }

  lemma {:induction false} RunKeepsUnique(acts: seq<Step>)
    ensures Unique(AfterAll(EMPTY, acts).rows)
  {
    if acts != [] {
      var w := AfterAll(EMPTY, acts[..|acts| - 1]);
      var a := acts[|acts| - 1];
      RunKeepsUnique(acts[..|acts| - 1]);
      if a.Apply? && a.at < |w.pending| { UpsertKeepsUnique(w.rows, w.pending[a.at]); }
    }
  }

  /** All writers are done and no upsert failed. */
  predicate Quiet(w: World) {
    w.pending == [] && w.lost == []
  }

  /** The index agrees with the log: any sum over slots of one dimension is the sum over the entries they stand for. */
  lemma IndexIsLog(acts: seq<Step>, kind: Kind, p: Pick)
    requires Quiet(AfterAll(EMPTY, acts))
    ensures Sum(AfterAll(EMPTY, acts).rows, OfKind(kind, p)) == SumLog(AfterAll(EMPTY, acts).log, Selects(kind, p))
  {
    hide AfterAll, Selects, OfKind, Add, SumLog;
    RunConserves(acts, kind, p);
    AddZero(ZERO);
    AddZero(Sum(AfterAll(EMPTY, acts).rows, OfKind(kind, p)));
  }

  // ---------- the queries ----------

  /** `from` and `until` bound the window only when positive. */
  datatype Window = Window(from: int, until: int)

  datatype Granularity = Hour | Day

  function Width(g: Granularity): nat {
    if g == Hour then 3600 else 86400
  }

  function BucketOf(g: Granularity, ts: nat): nat {
    if g == Hour then HourOf(ts) else DayOf(ts)
  }

  /** The WHERE clause on the index: the lower bound looks at the bucket shown, the upper bound at the hour. */
  function Selected(w: Window, g: Granularity): Pick {
    (s: Slot) =>
      && (w.from > 0 ==> (if g == Hour then s.bucket else DayOf(s.bucket)) + Width(g) > w.from)
      && (w.until > 0 ==> s.bucket < w.until)
  }

  /** The slots grouped under one bucket and key. */
  function Grouped(w: Window, g: Granularity, bucket: nat, key: string): Pick {
    (s: Slot) => s.key == key && Selected(w, g)(s) && (if g == Hour then s.bucket else DayOf(s.bucket)) == bucket
  }

  /** One group of AggregatePBRStatsFromHourly; the group is returned when it has a row. */
  function IndexGroup(rows: Rows, w: Window, g: Granularity, kind: Kind, bucket: nat, key: string): Totals {
    Sum(rows, OfKind(kind, Grouped(w, g, bucket, key)))
  }

  predicate InWindow(w: Window, ts: nat) {
    (w.from > 0 ==> ts >= w.from) && (w.until > 0 ==> ts <= w.until)
  }

  function Matches(w: Window, g: Granularity, kind: Kind, bucket: nat, key: string): Entry -> bool {
    (e: Entry) => InWindow(w, e.ts) && BucketOf(g, e.ts) == bucket && KeyOf(e, kind) == key
  }

  /** One group of AggregatePBRStats, which reads the log and includes the end of the window. */
  function DetailGroup(log: seq<Entry>, w: Window, g: Granularity, kind: Kind, bucket: nat, key: string): Totals {
    SumLog(log, Matches(w, g, kind, bucket, key))
  }

  lemma {:induction false} SumLogSame(log: seq<Entry>, q: Entry -> bool, r: Entry -> bool)
    requires forall i :: 0 <= i < |log| ==> q(log[i]) == r(log[i])
    ensures SumLog(log, q) == SumLog(log, r)
  {
    if log != [] { SumLogSame(log[..|log| - 1], q, r); }
  }

  predicate HourAligned(t: int) {
    t % 3600 == 0
  }

  predicate DayAligned(t: int) {
    t % 86400 == 0
  }

  /** The day of an entry's hour is the day of the entry. */
  lemma HourFacts(ts: nat)
    ensures HourOf(ts) <= ts < HourOf(ts) + 3600 && HourAligned(HourOf(ts))
    ensures DayOf(HourOf(ts)) == DayOf(ts)
  {
    assert HourOf(ts) / 86400 == ts / 86400;
  }

  lemma DayFacts(ts: nat)
    ensures DayOf(ts) <= ts < DayOf(ts) + 86400 && DayAligned(DayOf(ts))
  {
  }

  lemma AlignedHours(a: int, b: int)
    requires HourAligned(a) && HourAligned(b)
    ensures a + 3600 > b <==> a >= b
  {
  }

  lemma AlignedDays(a: int, b: int)
    requires DayAligned(a) && DayAligned(b)
    ensures a + 86400 > b <==> a >= b
  {
  }

  /** The index query over a window is the sum of the log over the entries whose own bucket it selects. */
  lemma IndexGroupIsLog(acts: seq<Step>, w: Window, g: Granularity, kind: Kind, bucket: nat, key: string)
    requires Quiet(AfterAll(EMPTY, acts))
    ensures var x := AfterAll(EMPTY, acts);
      IndexGroup(x.rows, w, g, kind, bucket, key) == SumLog(x.log, Selects(kind, Grouped(w, g, bucket, key)))
  {
    hide AfterAll, Sum, SumLog, Selects, Grouped, OfKind, Quiet;
    IndexIsLog(acts, kind, Grouped(w, g, bucket, key));
  }

  /** The end of the hour before `t`'s last second: the first full hour at or after `t`. */
  function RoundUp(t: nat): nat {
    (t + 3599) / 3600 * 3600
  }

  lemma RoundUpFacts(t: nat, ts: nat)
    ensures HourAligned(RoundUp(t)) && t <= RoundUp(t) < t + 3600
    ensures HourOf(ts) < t <==> ts < RoundUp(t)
  {
    HourFacts(ts);
    var r := RoundUp(t);
    assert HourAligned(r) && t <= r < t + 3600;
    hide RoundUp, HourOf;
    AlignedHours(HourOf(ts), r);
    AlignedHours(r, HourOf(ts));
  }

  /** What an index query covers: whole buckets at the start, whole hours at the end; both ends included. */
  function Covered(w: Window, g: Granularity): Window {
    Window(if w.from > 0 then BucketOf(g, w.from) else w.from, (if w.until > 0 then RoundUp(w.until) else w.until) - 1)
  }

  lemma SameOrLaterHour(ts: nat, from: nat)
    ensures HourOf(ts) + 3600 > from <==> (HourOf(from) > 0 ==> ts >= HourOf(from))
  {
    HourFacts(ts);
    HourFacts(from);
    AlignedHours(HourOf(ts), HourOf(from));
  }

  lemma SameOrLaterDay(ts: nat, from: nat)
    ensures DayOf(ts) + 86400 > from <==> (DayOf(from) > 0 ==> ts >= DayOf(from))
  {
    DayFacts(ts);
    DayFacts(from);
    AlignedDays(DayOf(ts), DayOf(from));
  }

  /** One entry: its slot is selected exactly when its second is covered. */
  lemma SelectedIffCovered(w: Window, g: Granularity, kind: Kind, e: Entry)
    ensures Selected(w, g)(SlotOf(e, kind)) == InWindow(Covered(w, g), e.ts)
  {
    hide KeyOf, HourOf, DayOf, RoundUp;
    HourFacts(e.ts);
    if w.until > 0 { RoundUpFacts(w.until, e.ts); }
    if w.from > 0 {
      SameOrLaterHour(e.ts, w.from);
      SameOrLaterDay(e.ts, w.from);
    }
  }

  lemma EntryMatches(w: Window, g: Granularity, kind: Kind, bucket: nat, key: string, e: Entry)
    requires !Blank(key)
    ensures Selects(kind, Grouped(w, g, bucket, key))(e) == Matches(Covered(w, g), g, kind, bucket, key)(e)
  {
    hide Blank, KeyOf, HourOf, DayOf, RoundUp, Selected, InWindow, Covered;
    SelectedIffCovered(w, g, kind, e);
    HourFacts(e.ts);
  }

  /** The index query over any window is the log query over the seconds it covers, grouped by the entries' own hours or days. */
  lemma IndexQueryIsDetailQuery(acts: seq<Step>, w: Window, g: Granularity, kind: Kind, bucket: nat, key: string)
    requires Quiet(AfterAll(EMPTY, acts)) && !Blank(key)
    ensures var x := AfterAll(EMPTY, acts);
      IndexGroup(x.rows, w, g, kind, bucket, key) == DetailGroup(x.log, Covered(w, g), g, kind, bucket, key)
  {
    hide Blank, IndexGroup, AfterAll, SumLog, Matches, Selects, Grouped, Covered;
    var log := AfterAll(EMPTY, acts).log;
    IndexGroupIsLog(acts, w, g, kind, bucket, key);
    forall i | 0 <= i < |log|
      ensures Selects(kind, Grouped(w, g, bucket, key))(log[i]) == Matches(Covered(w, g), g, kind, bucket, key)(log[i])
    {
      EntryMatches(w, g, kind, bucket, key, log[i]);
    }
    SumLogSame(log, Selects(kind, Grouped(w, g, bucket, key)), Matches(Covered(w, g), g, kind, bucket, key));
  }

  /** For hour-aligned bounds the hourly query over [from, until) is the log query over [from, until - 1]. */
  lemma HourlyQueryIsDetailQuery(acts: seq<Step>, w: Window, kind: Kind, bucket: nat, key: string)
    requires Quiet(AfterAll(EMPTY, acts)) && HourAligned(w.from) && HourAligned(w.until) && !Blank(key)
    ensures var x := AfterAll(EMPTY, acts);
      IndexGroup(x.rows, w, Hour, kind, bucket, key) == DetailGroup(x.log, Window(w.from, w.until - 1), Hour, kind, bucket, key)
  {
    hide Blank, IndexGroup, AfterAll, DetailGroup;
    IndexQueryIsDetailQuery(acts, w, Hour, kind, bucket, key);
    assert Covered(w, Hour) == Window(w.from, w.until - 1);
  }

  /** Rolling hours up to days is grouping the log by day directly, from the start of the first day. */
  lemma DayRollUpIsDetailByDay(acts: seq<Step>, w: Window, kind: Kind, bucket: nat, key: string)
    requires Quiet(AfterAll(EMPTY, acts)) && !Blank(key)
    ensures var x := AfterAll(EMPTY, acts);
      IndexGroup(x.rows, w, Day, kind, bucket, key)
      == SumLog(x.log, (e: Entry) => InWindow(Covered(w, Day), e.ts) && DayOf(e.ts) == bucket && KeyOf(e, kind) == key)
  {
    hide Blank, IndexGroup, AfterAll, Covered, SumLog, KeyOf, DayOf;
    var log := AfterAll(EMPTY, acts).log;
    IndexQueryIsDetailQuery(acts, w, Day, kind, bucket, key);
    SumLogSame(log, Matches(Covered(w, Day), Day, kind, bucket, key),
               (e: Entry) => InWindow(Covered(w, Day), e.ts) && DayOf(e.ts) == bucket && KeyOf(e, kind) == key);
  }

  predicate InHour(bucket: nat, t: nat) {
    bucket <= t < bucket + 3600
  }

  predicate InSpan(w: Window, t: nat) {
    w.from <= t < w.until
  }

  /** An hour is selected exactly when some second of it lies in [from, until). */
  lemma HourSelectedIffItMeetsWindow(w: Window, s: Slot)
    requires 0 < w.from < w.until
    ensures Selected(w, Hour)(s) <==> exists t: nat :: InHour(s.bucket, t) && InSpan(w, t)
  {
    if Selected(w, Hour)(s) {
      var t: nat := if s.bucket >= w.from then s.bucket else w.from;
      assert InHour(s.bucket, t) && InSpan(w, t);
    }
  }

  lemma {:induction false} SumLogSplit(log: seq<Entry>, p: Entry -> bool, q: Entry -> bool, r: Entry -> bool)
    requires forall i :: 0 <= i < |log| ==> (p(log[i]) <==> q(log[i]) || r(log[i])) && !(q(log[i]) && r(log[i]))
    ensures SumLog(log, p) == Add(SumLog(log, q), SumLog(log, r))
  {
    hide Add, One;
    AddZero(ZERO);
    if log != [] {
      var init, last := log[..|log| - 1], log[|log| - 1];
      assert forall i :: 0 <= i < |init| ==> init[i] == log[i];
      SumLogSplit(init, p, q, r);
      AddSwap(SumLog(init, q), SumLog(init, r), One(last));
    }
  }

  /** Adjacent hour-aligned windows add up, group by group. */
  lemma AdjacentWindowsAdd(acts: seq<Step>, a: int, b: int, c: int, kind: Kind, bucket: nat, key: string)
    requires Quiet(AfterAll(EMPTY, acts)) && 0 < a <= b <= c && HourAligned(a) && HourAligned(b) && HourAligned(c) && !Blank(key)
    ensures var rows := AfterAll(EMPTY, acts).rows;
      IndexGroup(rows, Window(a, c), Hour, kind, bucket, key)
      == Add(IndexGroup(rows, Window(a, b), Hour, kind, bucket, key), IndexGroup(rows, Window(b, c), Hour, kind, bucket, key))
  {
    hide Blank, IndexGroup, AfterAll, SumLog, Add;
    var log := AfterAll(EMPTY, acts).log;
    HourlyQueryIsDetailQuery(acts, Window(a, c), kind, bucket, key);
    HourlyQueryIsDetailQuery(acts, Window(a, b), kind, bucket, key);
    HourlyQueryIsDetailQuery(acts, Window(b, c), kind, bucket, key);
    SumLogSplit(log, Matches(Window(a, c - 1), Hour, kind, bucket, key),
                Matches(Window(a, b - 1), Hour, kind, bucket, key), Matches(Window(b, c - 1), Hour, kind, bucket, key));
  }

  // ---------- single rows ----------

  function IsSlot(s: Slot): Pick {
    (t: Slot) => t == s
  }

  function ForSlot(s: Slot): Entry -> bool {
    e => !Blank(KeyOf(e, s.kind)) && SlotOf(e, s.kind) == s
  }

  lemma {:induction false} SumSame(rows: Rows, p: Pick, q: Pick)
    requires forall i :: 0 <= i < |rows| ==> p(rows[i].slot) == q(rows[i].slot)
    ensures Sum(rows, p) == Sum(rows, q)
  {
    if rows != [] { SumSame(rows[..|rows| - 1], p, q); }
  }

  lemma SlotSumIsLog(acts: seq<Step>, s: Slot)
    requires Quiet(AfterAll(EMPTY, acts))
    ensures Sum(AfterAll(EMPTY, acts).rows, IsSlot(s)) == SumLog(AfterAll(EMPTY, acts).log, ForSlot(s))
  {
    var w := AfterAll(EMPTY, acts);
    IndexIsLog(acts, s.kind, IsSlot(s));
    hide AfterAll, Blank, KeyOf, Sum, SumLog;
    SumSame(w.rows, IsSlot(s), OfKind(s.kind, IsSlot(s)));
    SumLogSame(w.log, ForSlot(s), Selects(s.kind, IsSlot(s)));
  }

  lemma {:induction false} SumOfAbsent(rows: Rows, s: Slot)
    requires !HasSlot(rows, s)
    ensures Sum(rows, IsSlot(s)) == ZERO
  {
    if rows != [] {
      assert rows == rows[..|rows| - 1] + [rows[|rows| - 1]];
      HasSlotSnoc(rows[..|rows| - 1], rows[|rows| - 1], s);
      hide HasSlot;
      SumOfAbsent(rows[..|rows| - 1], s);
    }
  }

  lemma {:induction false} SumOfRow(rows: Rows, i: nat)
    requires Unique(rows) && i < |rows|
    ensures Sum(rows, IsSlot(rows[i].slot)) == rows[i].totals
  {
    var init, last := rows[..|rows| - 1], rows[|rows| - 1];
    assert rows == init + [last];
    UniqueSnoc(init, last);
    if i < |init| {
      assert last.slot != rows[i].slot;
      hide Unique;
      SumOfRow(init, i);
    } else {
      SumOfAbsent(init, last.slot);
      AddZero(last.totals);
    }
  }

  lemma {:induction false} SumLogCounts(log: seq<Entry>, q: Entry -> bool, i: nat)
    requires i < |log| && q(log[i])
    ensures SumLog(log, q).requests > 0
  {
    SumLogNonNegative(log[..|log| - 1], q);
    if i < |log| - 1 { SumLogCounts(log[..|log| - 1], q, i); }
  }

  lemma {:induction false} SumLogNonNegative(log: seq<Entry>, q: Entry -> bool)
    ensures SumLog(log, q).requests >= 0
  {
    if log != [] { SumLogNonNegative(log[..|log| - 1], q); }
  }

  /** Each row of the index is the count and sums of exactly the entries of its hour and key ... */
  lemma RowIsExact(acts: seq<Step>, i: nat)
    requires Quiet(AfterAll(EMPTY, acts)) && i < |AfterAll(EMPTY, acts).rows|
    ensures var w := AfterAll(EMPTY, acts); w.rows[i].totals == SumLog(w.log, ForSlot(w.rows[i].slot))
  {
    hide AfterAll, Sum, SumLog;
    RunKeepsUnique(acts);
    SumOfRow(AfterAll(EMPTY, acts).rows, i);
    SlotSumIsLog(acts, AfterAll(EMPTY, acts).rows[i].slot);
  }

  /** ... and each entry has its row in every dimension in which its key is not blank. */
  lemma EntryHasRow(acts: seq<Step>, i: nat, kind: Kind)
    requires Quiet(AfterAll(EMPTY, acts)) && i < |AfterAll(EMPTY, acts).log| && !Blank(KeyOf(AfterAll(EMPTY, acts).log[i], kind))
    ensures HasSlot(AfterAll(EMPTY, acts).rows, SlotOf(AfterAll(EMPTY, acts).log[i], kind))
  {
    hide AfterAll, Sum, SumLog, Blank, HasSlot;
    var w := AfterAll(EMPTY, acts);
    var s := SlotOf(w.log[i], kind);
    SlotSumIsLog(acts, s);
    SumLogCounts(w.log, ForSlot(s), i);
    if !HasSlot(w.rows, s) { SumOfAbsent(w.rows, s); }
  }

  /** What the upserts of one entry add to a slot. */
  lemma ItemsAtSlot(e: Entry, kinds: seq<Kind>, s: Slot)
    requires AllKinds(kinds)
    ensures Sum(Items(e, kinds), IsSlot(s)) == if ForSlot(s)(e) then One(e) else ZERO
  {
    ItemsSum(e, kinds, s.kind, IsSlot(s));
    hide Items, Sum, Blank, KeyOf;
    SumSame(Items(e, kinds), IsSlot(s), OfKind(s.kind, IsSlot(s)));
  }
}
