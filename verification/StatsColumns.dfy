/**
 The columns of the hourly statistics (model/pbr_request_log.go) one by one: rows, queries and the upserts of an
 entry, told by the entries' own fields, hours and keys.
 */
module StatsColumns {
  import opened GoStrings
  import opened HourlyStats

  // ---------- columns of a part of the log ----------

  function Requests(log: seq<Entry>, q: Entry -> bool): nat {
    if log == [] then 0 else Requests(log[..|log| - 1], q) + if q(log[|log| - 1]) then 1 else 0
  }

  function Successes(log: seq<Entry>, q: Entry -> bool): nat {
    if log == [] then 0 else Successes(log[..|log| - 1], q) + if q(log[|log| - 1]) && log[|log| - 1].success then 1 else 0
  }

  function PromptTokens(log: seq<Entry>, q: Entry -> bool): int {
    if log == [] then 0 else PromptTokens(log[..|log| - 1], q) + if q(log[|log| - 1]) then log[|log| - 1].prompt else 0
  }

  function CompletionTokens(log: seq<Entry>, q: Entry -> bool): int {
    if log == [] then 0 else CompletionTokens(log[..|log| - 1], q) + if q(log[|log| - 1]) then log[|log| - 1].completion else 0
  }

  function Costs(log: seq<Entry>, q: Entry -> bool): real {
    if log == [] then 0.0 else Costs(log[..|log| - 1], q) + if q(log[|log| - 1]) then log[|log| - 1].cost else 0.0
  }

  /** How many entries are selected, how many of them succeeded, and the sums of their tokens and costs. */
  predicate AreColumns(t: Totals, log: seq<Entry>, q: Entry -> bool) {
    && t.requests == Requests(log, q) && t.successes == Successes(log, q)
    && t.prompt == PromptTokens(log, q) && t.completion == CompletionTokens(log, q) && t.cost == Costs(log, q)
  }

  lemma {:induction false} SumLogColumns(log: seq<Entry>, q: Entry -> bool)
    ensures AreColumns(SumLog(log, q), log, q)
  {
    if log != [] { SumLogColumns(log[..|log| - 1], q); }
  }

  // ---------- which entries ----------

  /** The entry's key in a dimension; the combined key needs both its parts. */
  predicate HasKey(e: Entry, kind: Kind, key: string) {
    match kind
    case Lane => e.lane == key
    case Channel => e.channel == key
    case Key => e.key == key
    case Model => e.model == key
    case ChannelModel => !Blank(e.channel) && !Blank(e.model) && e.channel + "\U{241f}" + e.model == key
  }

  /** The entry lies in the hour of the slot and has its key, which is not blank. */
  predicate Belongs(e: Entry, s: Slot) {
    s.bucket % 3600 == 0 && s.bucket <= e.ts < s.bucket + 3600 && !Blank(s.key) && HasKey(e, s.kind, s.key)
  }

  function Belonging(s: Slot): Entry -> bool {
    e => Belongs(e, s)
  }

  lemma EmptyIsBlank()
    ensures Blank("")
  {
  }

  lemma KeyIs(e: Entry, kind: Kind, key: string)
    requires !Blank(key)
    ensures KeyOf(e, kind) == key <==> HasKey(e, kind, key)
  {
    EmptyIsBlank();
    hide Blank;
  }

  lemma HourIs(ts: nat, bucket: nat)
    ensures HourOf(ts) == bucket <==> bucket % 3600 == 0 && bucket <= ts < bucket + 3600
  {
  }

  lemma DayIs(ts: nat, bucket: nat)
    ensures DayOf(ts) == bucket <==> bucket % 86400 == 0 && bucket <= ts < bucket + 86400
  {
  }

  lemma BelongsIs(e: Entry, s: Slot)
    ensures ForSlot(s)(e) == Belongs(e, s)
  {
    hide Blank, KeyOf, HourOf, HasKey;
    HourIs(e.ts, s.bucket);
    if !Blank(s.key) { KeyIs(e, s.kind, s.key); }
  }

  // ---------- rows and queries ----------

  /** Once the writers are done, each column of a row counts or sums that field of exactly the entries of its hour and key. */
  lemma RowColumns(acts: seq<Step>, i: nat)
    requires Quiet(AfterAll(EMPTY, acts)) && i < |AfterAll(EMPTY, acts).rows|
    ensures var w := AfterAll(EMPTY, acts); AreColumns(w.rows[i].totals, w.log, Belonging(w.rows[i].slot))
  {
    hide AfterAll, Quiet, Belongs, ForSlot, AreColumns, SumLog;
    var w := AfterAll(EMPTY, acts);
    var s := w.rows[i].slot;
    RowIsExact(acts, i);
    forall k | 0 <= k < |w.log| ensures ForSlot(s)(w.log[k]) == Belonging(s)(w.log[k]) {
      BelongsIs(w.log[k], s);
    }
    SumLogSame(w.log, ForSlot(s), Belonging(s));
    SumLogColumns(w.log, Belonging(s));
  }

  /** The bucket of the entry is not before that of `from`, and its hour begins before `until`; bounds count only when positive. */
  predicate Asked(e: Entry, w: Window, g: Granularity) {
    && (w.from > 0 ==> if g == Hour then e.ts / 3600 >= w.from / 3600 else e.ts / 86400 >= w.from / 86400)
    && (w.until > 0 ==> e.ts - e.ts % 3600 < w.until)
  }

  predicate InBucket(e: Entry, g: Granularity, bucket: nat) {
    if g == Hour then bucket % 3600 == 0 && bucket <= e.ts < bucket + 3600 else bucket % 86400 == 0 && bucket <= e.ts < bucket + 86400
  }

  function Reported(w: Window, g: Granularity, kind: Kind, bucket: nat, key: string): Entry -> bool {
    e => Asked(e, w, g) && InBucket(e, g, bucket) && HasKey(e, kind, key)
  }

  lemma FromHour(ts: nat, from: nat)
    ensures ts >= HourOf(from) <==> ts / 3600 >= from / 3600
  {
  }

  lemma FromDay(ts: nat, from: nat)
    ensures ts >= DayOf(from) <==> ts / 86400 >= from / 86400
  {
  }

  lemma UntilHour(ts: nat, until: nat)
    ensures ts <= RoundUp(until) - 1 <==> ts - ts % 3600 < until
  {
    RoundUpFacts(until, ts);
    hide RoundUp;
    assert HourOf(ts) == ts - ts % 3600;
  }

  lemma AskedIs(e: Entry, w: Window, g: Granularity)
    ensures InWindow(Covered(w, g), e.ts) == Asked(e, w, g)
  {
    hide HourOf, DayOf, RoundUp;
    if w.from > 0 {
      FromHour(e.ts, w.from);
      FromDay(e.ts, w.from);
    }
    if w.until > 0 {
      UntilHour(e.ts, w.until);
      RoundUpFacts(w.until, e.ts);
    }
  }

  lemma ReportedIs(e: Entry, w: Window, g: Granularity, kind: Kind, bucket: nat, key: string)
    requires !Blank(key)
    ensures Matches(Covered(w, g), g, kind, bucket, key)(e) == Reported(w, g, kind, bucket, key)(e)
  {
    hide Blank, KeyOf, HourOf, DayOf, HasKey, InWindow, Covered, Asked;
    AskedIs(e, w, g);
    HourIs(e.ts, bucket);
    DayIs(e.ts, bucket);
    KeyIs(e, kind, key);
  }

  /** So does each column of an index query, over the entries of the bucket and key that were asked for. */
  lemma IndexQueryColumns(acts: seq<Step>, w: Window, g: Granularity, kind: Kind, bucket: nat, key: string)
    requires Quiet(AfterAll(EMPTY, acts)) && !Blank(key)
    ensures var x := AfterAll(EMPTY, acts);
      AreColumns(IndexGroup(x.rows, w, g, kind, bucket, key), x.log, Reported(w, g, kind, bucket, key))
  {
    hide Blank, IndexGroup, AfterAll, Quiet, SumLog, Matches, Covered, AreColumns, Reported;
    var log := AfterAll(EMPTY, acts).log;
    IndexQueryIsDetailQuery(acts, w, g, kind, bucket, key);
    forall k | 0 <= k < |log| ensures Matches(Covered(w, g), g, kind, bucket, key)(log[k]) == Reported(w, g, kind, bucket, key)(log[k]) {
      ReportedIs(log[k], w, g, kind, bucket, key);
    }
    SumLogSame(log, Matches(Covered(w, g), g, kind, bucket, key), Reported(w, g, kind, bucket, key));
    SumLogColumns(log, Reported(w, g, kind, bucket, key));
  }

  /** The entries a log query selects: both ends of the window are included. */
  function Listed(w: Window, g: Granularity, kind: Kind, bucket: nat, key: string): Entry -> bool {
    (e: Entry) => (w.from > 0 ==> e.ts >= w.from) && (w.until > 0 ==> e.ts <= w.until) && InBucket(e, g, bucket) && HasKey(e, kind, key)
  }

  /** And each column of a log query. */
  lemma DetailQueryColumns(log: seq<Entry>, w: Window, g: Granularity, kind: Kind, bucket: nat, key: string)
    requires !Blank(key)
    ensures AreColumns(DetailGroup(log, w, g, kind, bucket, key), log, Listed(w, g, kind, bucket, key))
  {
    hide Blank, KeyOf, HasKey, SumLog, AreColumns;
    forall k | 0 <= k < |log| ensures Matches(w, g, kind, bucket, key)(log[k]) == Listed(w, g, kind, bucket, key)(log[k]) {
      HourIs(log[k].ts, bucket);
      DayIs(log[k].ts, bucket);
      KeyIs(log[k], kind, key);
    }
    SumLogSame(log, Matches(w, g, kind, bucket, key), Listed(w, g, kind, bucket, key));
    SumLogColumns(log, Listed(w, g, kind, bucket, key));
  }

  /** One more entry in each column. */
  predicate CountsOne(before: Totals, after: Totals, e: Entry) {
    && after.requests == before.requests + 1
    && after.successes == before.successes + (if e.success then 1 else 0)
    && after.prompt == before.prompt + e.prompt && after.completion == before.completion + e.completion
    && after.cost == before.cost + e.cost
  }

  /** Recording an entry adds it to the slots it belongs to, in every column, and to no other. */
  lemma RecordingCounts(rows: Rows, e: Entry, kinds: seq<Kind>, s: Slot)
    requires AllKinds(kinds)
    ensures var before := Sum(rows, IsSlot(s)); var after := Sum(UpsertAll(rows, Items(e, kinds)), IsSlot(s));
      if Belongs(e, s) then CountsOne(before, after, e) else after == before
  {
    hide Sum, Items, UpsertAll, Belongs, ForSlot, AllKinds;
    UpsertAllAdds(rows, Items(e, kinds), IsSlot(s));
    ItemsAtSlot(e, kinds, s);
    BelongsIs(e, s);
    AddZero(Sum(rows, IsSlot(s)));
  }

  // ---------- the table object ----------

  class StatsTable {
    var rows: Rows

    constructor ()
      ensures rows == []
    {
      rows := [];
    }

    /** The upserts of one log entry; `kinds` is the order in which a map of dimensions happens to be visited. */
    method UpsertHourlyStat(e: Entry, kinds: seq<Kind>)
      modifies this
      ensures rows == UpsertAll(old(rows), Items(e, kinds))
      ensures AllKinds(kinds) ==> forall s ::
        var before := Sum(old(rows), IsSlot(s)); var after := Sum(rows, IsSlot(s));
        if Belongs(e, s) then CountsOne(before, after, e) else after == before
    {
      for i := 0 to |kinds|
        invariant rows == UpsertAll(old(rows), Items(e, kinds[..i]))
      {
        assert kinds[..i + 1][..i] == kinds[..i];
        if Blank(KeyOf(e, kinds[i])) {
          continue;
        }
        ghost var before := Items(e, kinds[..i]);
        var item := Row(SlotOf(e, kinds[i]), One(e));
        assert (before + [item])[..|before|] == before;
        rows := Upsert(rows, item);
      }
      assert kinds[..|kinds|] == kinds;
      if AllKinds(kinds) {
        forall s ensures
          var before := Sum(old(rows), IsSlot(s)); var after := Sum(rows, IsSlot(s));
          if Belongs(e, s) then CountsOne(before, after, e) else after == before
        {
          RecordingCounts(old(rows), e, kinds, s);
        }
      }
    }
  }
}
