/**
 Filling in the combined channel-and-model dimension for entries logged before it existed
 (BackfillPBRChannelModelStats in model/pbr_request_log.go): group the log, insert what is missing.
 */
module StatsBackfill {
  import opened GoStrings
  import opened HourlyStats

  /** SQL's TRIM strips spaces only. */
  predicate SqlBlank(s: string) {
    forall i :: 0 <= i < |s| ==> s[i] == ' '
  }

  /** One row of the GROUP BY. */
  datatype Group = Group(bucket: nat, channel: string, model: string)

  predicate Scanned(e: Entry) {
    !SqlBlank(e.channel) && !SqlBlank(e.model)
  }

  function GroupOf(e: Entry): Group {
    Group(HourOf(e.ts), e.channel, e.model)
  }

  function InGroup(g: Group): Entry -> bool {
    e => Scanned(e) && GroupOf(e) == g
  }

  function SlotFor(g: Group): Slot {
    Slot(g.bucket, ChannelModel, g.channel + SEPARATOR + g.model)
  }

  predicate HasEntry(log: seq<Entry>, g: Group) {
    exists i :: 0 <= i < |log| && InGroup(g)(log[i])
  }

  /** The groups the scan returns, in whatever order. */
  predicate IsScan(log: seq<Entry>, groups: seq<Group>) {
    && (forall i, j :: 0 <= i < j < |groups| ==> groups[i] != groups[j])
    && (forall k :: 0 <= k < |groups| ==> HasEntry(log, groups[k]))
    && (forall i :: 0 <= i < |log| && Scanned(log[i]) ==> GroupOf(log[i]) in groups)
  }

  /** INSERT ... ON CONFLICT DO NOTHING. */
  function InsertMissing(rows: Rows, r: Row): Rows {
    if HasSlot(rows, r.slot) then rows else rows + [r]
  }

  function RowFor(log: seq<Entry>, g: Group): Row {
    Row(SlotFor(g), SumLog(log, InGroup(g)))
  }

  function Backfilled(rows: Rows, log: seq<Entry>, groups: seq<Group>): Rows {
    if groups == [] then rows
    else InsertMissing(Backfilled(rows, log, groups[..|groups| - 1]), RowFor(log, groups[|groups| - 1]))
  }

  predicate SomeGroup(groups: seq<Group>, s: Slot) {
    exists k :: 0 <= k < |groups| && SlotFor(groups[k]) == s
  }

  lemma SomeGroupLast(groups: seq<Group>, s: Slot)
    requires groups != []
    ensures SomeGroup(groups, s) <==> SomeGroup(groups[..|groups| - 1], s) || SlotFor(groups[|groups| - 1]) == s
  {
    var init := groups[..|groups| - 1];
    if SomeGroup(init, s) {
      var k :| 0 <= k < |init| && SlotFor(init[k]) == s;
      assert groups[k] == init[k];
    }
    if SomeGroup(groups, s) {
      var k :| 0 <= k < |groups| && SlotFor(groups[k]) == s;
      if k < |init| { assert init[k] == groups[k]; }
    }
  }

  lemma EmptyHasNoGroup(groups: seq<Group>, s: Slot)
    ensures SomeGroup(groups, s) ==> groups != []
  {
  }

  /** A slot that was there keeps its row, ... */
  lemma {:induction false} BackfillKeeps(rows: Rows, log: seq<Entry>, groups: seq<Group>, s: Slot)
    ensures HasSlot(Backfilled(rows, log, groups), s) <==> HasSlot(rows, s) || SomeGroup(groups, s)
    ensures HasSlot(rows, s) || !SomeGroup(groups, s) ==> Sum(Backfilled(rows, log, groups), IsSlot(s)) == Sum(rows, IsSlot(s))
  {
    EmptyHasNoGroup(groups, s);
    hide Sum, SumLog, HasSlot, SomeGroup, Add;
    if groups != [] {
      var init := Backfilled(rows, log, groups[..|groups| - 1]);
      var r := RowFor(log, groups[|groups| - 1]);
      BackfillKeeps(rows, log, groups[..|groups| - 1], s);
      SomeGroupLast(groups, s);
      HasSlotSnoc(init, r, s);
      SumSnoc(init, r, IsSlot(s));
      AddZero(Sum(init, IsSlot(s)));
    }
  }

  /** ... and one that was missing gets the totals of one of its groups. */
  lemma {:induction false} BackfillFills(rows: Rows, log: seq<Entry>, groups: seq<Group>, s: Slot) returns (k: nat)
    requires !HasSlot(rows, s) && SomeGroup(groups, s)
    ensures k < |groups| && SlotFor(groups[k]) == s
    ensures Sum(Backfilled(rows, log, groups), IsSlot(s)) == SumLog(log, InGroup(groups[k]))
  {
    EmptyHasNoGroup(groups, s);
    hide Sum, SumLog, HasSlot, SomeGroup, Add;
    var n := |groups| - 1;
    var init := Backfilled(rows, log, groups[..n]);
    var r := RowFor(log, groups[n]);
    SomeGroupLast(groups, s);
    BackfillKeeps(rows, log, groups[..n], s);
    if SomeGroup(groups[..n], s) {
      k := BackfillFills(rows, log, groups[..n], s);
      SumSnoc(init, r, IsSlot(s));
      AddZero(Sum(init, IsSlot(s)));
    } else {
      k := n;
      SumOfAbsent(init, s);
      SumSnoc(init, r, IsSlot(s));
      AddZero(r.totals);
    }
  }

  /** Running it again over the same log changes nothing. */
  lemma {:induction false} BackfillTwice(rows: Rows, log: seq<Entry>, groups: seq<Group>, log': seq<Entry>, again: seq<Group>)
    requires forall k :: 0 <= k < |again| ==> again[k] in groups
    ensures Backfilled(Backfilled(rows, log, groups), log', again) == Backfilled(rows, log, groups)
  {
    if again != [] {
      var last := again[|again| - 1];
      BackfillTwice(rows, log, groups, log', again[..|again| - 1]);
      var k :| 0 <= k < |groups| && groups[k] == last;
      assert SomeGroup(groups, SlotFor(last));
      BackfillKeeps(rows, log, groups, SlotFor(last));
    }
  }

  // ---------- exactness on an empty dimension ----------

  predicate Clash(e: Entry, f: Entry) {
    Scanned(e) && Scanned(f) && SlotFor(GroupOf(e)) == SlotFor(GroupOf(f)) && GroupOf(e) != GroupOf(f)
  }

  /** No two scanned entries of an hour spell the same key from different parts. */
  predicate Unambiguous(log: seq<Entry>) {
    forall i, j :: 0 <= i < |log| && 0 <= j < |log| ==> !Clash(log[i], log[j])
  }

  /** No name consists of white space other than spaces alone, which SQL and Go disagree on. */
  predicate BlanksAgree(log: seq<Entry>) {
    forall i :: 0 <= i < |log| ==> (Scanned(log[i]) <==> !Blank(log[i].channel) && !Blank(log[i].model))
  }

  predicate EmptyDimension(rows: Rows) {
    forall i :: 0 <= i < |rows| ==> rows[i].slot.kind != ChannelModel
  }

  /** Every row of the dimension holds what recording the entries one by one would have put there. */
  ghost predicate Exact(rows: Rows, log: seq<Entry>) {
    forall s: Slot :: s.kind == ChannelModel ==> Sum(rows, IsSlot(s)) == SumLog(log, ForSlot(s))
  }

  lemma CombinedKeyNotBlank(e: Entry)
    requires !Blank(e.channel) && !Blank(e.model)
    ensures KeyOf(e, ChannelModel) == e.channel + SEPARATOR + e.model && !Blank(KeyOf(e, ChannelModel))
  {
    hide TrimSpace, IsSpace, HourOf;
    var key := e.channel + SEPARATOR + e.model;
    SeparatorIsNoSpace();
    assert key[|e.channel|] == SEPARATOR[0];
    NotAllSpaces(key, |e.channel|);
  }

  lemma SeparatorIsNoSpace()
    ensures |SEPARATOR| == 1 && !IsSpace(SEPARATOR[0])
  {
  }

  lemma NotAllSpaces(s: string, i: nat)
    requires i < |s| && !IsSpace(s[i])
    ensures TrimSpace(s) != ""
  {
    var cut := c => IsSpace(c);
    var t := TrimLeft(s, cut);
    var u := TrimRight(t, cut);
    assert i >= |s| - |t|;
    var j := i - (|s| - |t|);
    assert t[j] == s[i];
    assert j < |u|;
  }

  /** Recording and scanning put an entry under the same slot. */
  lemma SameSlot(log: seq<Entry>, i: nat, s: Slot)
    requires BlanksAgree(log) && i < |log| && s.kind == ChannelModel
    ensures ForSlot(s)(log[i]) <==> Scanned(log[i]) && SlotFor(GroupOf(log[i])) == s
  {
    var e := log[i];
    if Scanned(e) { CombinedKeyNotBlank(e); }
    hide Scanned;
  }

  lemma ScanSlots(log: seq<Entry>, groups: seq<Group>, s: Slot)
    requires IsScan(log, groups)
    ensures SomeGroup(groups, s) <==> exists i :: 0 <= i < |log| && Scanned(log[i]) && SlotFor(GroupOf(log[i])) == s
  {
    if SomeGroup(groups, s) {
      var k :| 0 <= k < |groups| && SlotFor(groups[k]) == s;
      var i :| 0 <= i < |log| && InGroup(groups[k])(log[i]);
      assert Scanned(log[i]) && SlotFor(GroupOf(log[i])) == s;
    }
    if i :| 0 <= i < |log| && Scanned(log[i]) && SlotFor(GroupOf(log[i])) == s {
      var k :| 0 <= k < |groups| && groups[k] == GroupOf(log[i]);
    }
  }

  lemma {:induction false} SumOfNone(log: seq<Entry>, q: Entry -> bool)
    requires forall i :: 0 <= i < |log| ==> !q(log[i])
    ensures SumLog(log, q) == ZERO
  {
    if log != [] { SumOfNone(log[..|log| - 1], q); }
  }

  lemma SlotMissing(rows: Rows, s: Slot)
    requires EmptyDimension(rows) && s.kind == ChannelModel
    ensures !HasSlot(rows, s)
  {
  }

  /** A slot filled from an unambiguous log holds all its entries. */
  lemma SlotExact(rows: Rows, log: seq<Entry>, groups: seq<Group>, s: Slot)
    requires EmptyDimension(rows) && IsScan(log, groups) && BlanksAgree(log) && Unambiguous(log) && s.kind == ChannelModel
    ensures Sum(Backfilled(rows, log, groups), IsSlot(s)) == SumLog(log, ForSlot(s))
  {
    hide Backfilled, Sum, SumLog, EmptyDimension, HasSlot, ForSlot, BlanksAgree;
    SlotMissing(rows, s);
    ScanSlots(log, groups, s);
    if SomeGroup(groups, s) {
      var k := BackfillFills(rows, log, groups, s);
      assert HasEntry(log, groups[k]);
      GroupIsSlot(log, groups[k], s);
    } else {
      BackfillKeeps(rows, log, groups, s);
      SumOfAbsent(rows, s);
      forall i | 0 <= i < |log| ensures !ForSlot(s)(log[i]) {
        SameSlot(log, i, s);
      }
      SumOfNone(log, ForSlot(s));
    }
  }

  /** Among clear names a scanned group is its whole slot. */
  lemma GroupIsSlot(log: seq<Entry>, g: Group, s: Slot)
    requires BlanksAgree(log) && Unambiguous(log) && HasEntry(log, g) && SlotFor(g) == s
    ensures SumLog(log, InGroup(g)) == SumLog(log, ForSlot(s))
  {
    hide BlanksAgree, ForSlot, SumLog;
    var w :| 0 <= w < |log| && InGroup(g)(log[w]);
    forall i | 0 <= i < |log| ensures InGroup(g)(log[i]) == ForSlot(s)(log[i]) {
      SameSlot(log, i, s);
      assert !Clash(log[i], log[w]);
    }
    SumLogSame(log, InGroup(g), ForSlot(s));
  }

  lemma {:induction false} FewerCounted(log: seq<Entry>, q: Entry -> bool, r: Entry -> bool, i: nat)
    requires forall j :: 0 <= j < |log| && q(log[j]) ==> r(log[j])
    requires i < |log| && r(log[i]) && !q(log[i])
    ensures SumLog(log, q).requests < SumLog(log, r).requests
  {
    var init := log[..|log| - 1];
    if i < |init| {
      assert init[i] == log[i];
      FewerCounted(init, q, r, i);
    } else {
      NoMoreCounted(init, q, r);
    }
  }

  lemma {:induction false} NoMoreCounted(log: seq<Entry>, q: Entry -> bool, r: Entry -> bool)
    requires forall j :: 0 <= j < |log| && q(log[j]) ==> r(log[j])
    ensures SumLog(log, q).requests <= SumLog(log, r).requests
  {
    if log != [] { NoMoreCounted(log[..|log| - 1], q, r); }
  }

  /** A clash leaves the slot short of entries. */
  lemma ClashFallsShort(rows: Rows, log: seq<Entry>, groups: seq<Group>, i: nat, j: nat)
    requires EmptyDimension(rows) && IsScan(log, groups) && BlanksAgree(log) && i < |log| && j < |log| && Clash(log[i], log[j])
    ensures var s := SlotFor(GroupOf(log[i])); Sum(Backfilled(rows, log, groups), IsSlot(s)) != SumLog(log, ForSlot(s))
  {
    hide Backfilled, Sum, SumLog, EmptyDimension, HasSlot, ForSlot, BlanksAgree, IsScan;
    var s := SlotFor(GroupOf(log[i]));
    SlotMissing(rows, s);
    ScanSlots(log, groups, s);
    var k := BackfillFills(rows, log, groups, s);
    forall a | 0 <= a < |log| && InGroup(groups[k])(log[a]) ensures ForSlot(s)(log[a]) {
      SameSlot(log, a, s);
    }
    SameSlot(log, i, s);
    SameSlot(log, j, s);
    FewerCounted(log, InGroup(groups[k]), ForSlot(s), if groups[k] == GroupOf(log[i]) then j else i);
  }

  /** Filling an empty dimension is exact if and only if no two entries of an hour spell one key in two ways. */
  lemma BackfillExactIffUnambiguous(rows: Rows, log: seq<Entry>, groups: seq<Group>)
    requires EmptyDimension(rows) && IsScan(log, groups) && BlanksAgree(log)
    ensures Exact(Backfilled(rows, log, groups), log) <==> Unambiguous(log)
  {
    hide Backfilled, Sum, SumLog, EmptyDimension, ForSlot, BlanksAgree, IsScan;
    if Unambiguous(log) {
      forall s: Slot | s.kind == ChannelModel ensures Sum(Backfilled(rows, log, groups), IsSlot(s)) == SumLog(log, ForSlot(s)) {
        SlotExact(rows, log, groups, s);
      }
    } else {
      var i, j :| 0 <= i < |log| && 0 <= j < |log| && Clash(log[i], log[j]);
      ClashFallsShort(rows, log, groups, i, j);
    }
  }

  /** Two entries of an hour whose different names spell the same key, and so one row for both. */
  lemma AmbiguousNamesAreInexact(e: Entry, f: Entry, rows: Rows, groups: seq<Group>)
    requires e.channel == "a" + SEPARATOR + "b" && e.model == "c" && f.channel == "a" && f.model == "b" + SEPARATOR + "c"
    requires HourOf(e.ts) == HourOf(f.ts) && EmptyDimension(rows) && IsScan([e, f], groups)
    ensures !Exact(Backfilled(rows, [e, f], groups), [e, f])
  {
    hide EmptyDimension, IsScan, HourOf, Blank;
    forall s | s in [e.channel, e.model, f.channel, f.model] ensures !Blank(s) && !SqlBlank(s) {
      NoSpaceFirst(s);
      NonblankIsScanned(s);
    }
    hide SqlBlank;
    assert e.channel[1] == SEPARATOR[0];
    assert e.channel + SEPARATOR + e.model == f.channel + SEPARATOR + f.model;
    assert Clash([e, f][0], [e, f][1]);
    BackfillExactIffUnambiguous(rows, [e, f], groups);
  }

  lemma NoSpaceFirst(s: string)
    requires s != "" && s[0] in "abc"
    ensures !Blank(s)
  {
    hide TrimSpace;
    NotAllSpaces(s, 0);
  }

  /** Where SQL and Go disagree: an entry that recording skips gets a row. */
  lemma OddBlankGetsRow(rows: Rows, log: seq<Entry>, groups: seq<Group>, i: nat)
    requires EmptyDimension(rows) && IsScan(log, groups) && i < |log| && Scanned(log[i]) && (Blank(log[i].channel) || Blank(log[i].model))
    ensures HasSlot(Backfilled(rows, log, groups), SlotFor(GroupOf(log[i]))) && Blank(KeyOf(log[i], ChannelModel))
  {
    hide Backfilled, EmptyDimension, IsScan, HasSlot, SqlBlank, TrimSpace, HourOf, Sum;
    var s := SlotFor(GroupOf(log[i]));
    ScanSlots(log, groups, s);
    BackfillKeeps(rows, log, groups, s);
    EmptyIsBlank();
  }

  lemma EmptyIsBlank()
    ensures Blank("")
  {
  }

  lemma NonblankIsScanned(s: string)
    ensures !Blank(s) ==> !SqlBlank(s)
  {
    if SqlBlank(s) {
      SpacesTrim(s);
    }
  }

  lemma {:induction false} SpacesTrim(s: string)
    requires SqlBlank(s)
    ensures TrimLeft(s, c => IsSpace(c)) == "" && Blank(s)
  {
    var cut := c => IsSpace(c);
    if s != "" {
      assert s[0] == ' ';
      SpacesLeft(s, cut);
    }
  }

  lemma {:induction false} SpacesLeft(s: string, cut: char -> bool)
    requires SqlBlank(s) && cut(' ')
    ensures TrimLeft(s, cut) == ""
  {
    if s != "" { SpacesLeft(s[1..], cut); }
  }

  /** An entry the scan counts but live recording skips leaves its slot holding more than recording would. */
  lemma OddBlankIsInexact(rows: Rows, log: seq<Entry>, groups: seq<Group>, i: nat)
    requires EmptyDimension(rows) && IsScan(log, groups) && Unambiguous(log)
    requires i < |log| && Scanned(log[i]) && (Blank(log[i].channel) || Blank(log[i].model))
    ensures var s := SlotFor(GroupOf(log[i])); Sum(Backfilled(rows, log, groups), IsSlot(s)) != SumLog(log, ForSlot(s))
  {
    hide Backfilled, Sum, SumLog, EmptyDimension, HasSlot, SqlBlank, TrimSpace, Blank, HourOf;
    var s := SlotFor(GroupOf(log[i]));
    SlotMissing(rows, s);
    ScanSlots(log, groups, s);
    var k := BackfillFills(rows, log, groups, s);
    assert HasEntry(log, groups[k]);
    var w :| 0 <= w < |log| && InGroup(groups[k])(log[w]);
    SumLogCounts(log, InGroup(groups[k]), w);
    forall j | 0 <= j < |log| ensures !ForSlot(s)(log[j]) {
      SkippedSlot(log, i, j);
    }
    SumOfNone(log, ForSlot(s));
  }

  lemma SkippedSlot(log: seq<Entry>, i: nat, j: nat)
    requires Unambiguous(log) && i < |log| && j < |log| && Scanned(log[i]) && (Blank(log[i].channel) || Blank(log[i].model))
    ensures !ForSlot(SlotFor(GroupOf(log[i])))(log[j])
  {
    hide SqlBlank, TrimSpace, HourOf;
    EmptyIsBlank();
    NonblankIsScanned(log[j].channel);
    NonblankIsScanned(log[j].model);
    assert !Clash(log[i], log[j]);
    hide Blank;
  }

  /** Among keys spelled in one way only, filling an empty dimension is exact if and only if SQL and Go agree on every blank name. */
  lemma BackfillExactIffBlanksAgree(rows: Rows, log: seq<Entry>, groups: seq<Group>)
    requires EmptyDimension(rows) && IsScan(log, groups) && Unambiguous(log)
    ensures Exact(Backfilled(rows, log, groups), log) <==> BlanksAgree(log)
  {
    hide Backfilled, Sum, SumLog, EmptyDimension, ForSlot, IsScan, Unambiguous, SqlBlank, Blank;
    if BlanksAgree(log) {
      BackfillExactIffUnambiguous(rows, log, groups);
    } else {
      var i :| 0 <= i < |log| && !(Scanned(log[i]) <==> !Blank(log[i].channel) && !Blank(log[i].model));
      NonblankIsScanned(log[i].channel);
      NonblankIsScanned(log[i].model);
      OddBlankIsInexact(rows, log, groups, i);
    }
  }

  lemma {:induction false} SumLogConcat(a: seq<Entry>, b: seq<Entry>, q: Entry -> bool)
    ensures SumLog(a + b, q) == Add(SumLog(a, q), SumLog(b, q))
  {
    if b == [] {
      assert a + b == a;
      AddZero(SumLog(a, q));
    } else {
      var n := |b| - 1;
      assert (a + b)[..|a| + n] == a + b[..n];
      SumLogConcat(a, b[..n], q);
      AddSwap(SumLog(a, q), SumLog(b[..n], q), One(b[n]));
    }
  }

  // ---------- the loop ----------

  class Database {
    var log: seq<Entry>
    var rows: Rows
    var marked: bool

    constructor (log: seq<Entry>, rows: Rows)
      ensures this.log == log && this.rows == rows && !marked
    {
      this.log, this.rows, marked := log, rows, false;
    }

    /** `groups` is the order in which the database happens to return the groups. */
    method Backfill(groups: seq<Group>)
      requires IsScan(log, groups)
      modifies `rows, `marked
      ensures rows == if old(marked) || log == [] then old(rows) else Backfilled(old(rows), log, groups)
      ensures marked == (old(marked) || log != [])
    {
      if marked || log == [] {
        return;
      }
      for i := 0 to |groups|
        invariant rows == Backfilled(old(rows), log, groups[..i]) && marked == old(marked)
      {
        assert groups[..i + 1][..i] == groups[..i];
        var row := RowFor(log, groups[i]);
        if !HasSlot(rows, row.slot) {
          rows := rows + [row];
        }
      }
      assert groups[..|groups|] == groups;
      marked := true;
    }
  }
}
