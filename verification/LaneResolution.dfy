/**
 Resolving a requested model to the member chain of a lane (model/lane.go): at run time, for
 display in the console, and as suggestions for a lane that does not exist yet.
 */
module LaneResolution {
  import opened GoStrings
  import opened MemberMigration
  import opened Options

  datatype Row = Row(id: int, laneId: int, channelId: int, model: string, alias: string, priority: int, overrides: string, disabled: bool)

  datatype LaneRow = LaneRow(id: int, name: string, mode: string, enabled: bool, active: string, config: string, version: int)

  datatype Source = ChannelRow(id: int, name: string, enabled: bool, models: seq<string>, mapping: Mapping)

  datatype Store = Store(lanes: seq<LaneRow>, rows: seq<Row>, channels: map<int, Source>)

  datatype RouteMember = RouteMember(
    channelId: int, channel: string, channelEnabled: bool, model: string, upstream: string,
    alias: string, priority: int, memberId: int, overrides: string, disabled: bool)

  datatype Kind = Explicit | DisabledLane | Unconfigured

  datatype Route = Route(
    model: string, routeKey: string, source: Kind, mode: string, config: string, active: string, version: int,
    pinned: int, members: seq<RouteMember>)

  // ---------- the order of members ----------

  /** priority desc, id asc. */
  predicate Precedes(a: Row, b: Row) {
    a.priority > b.priority || (a.priority == b.priority && a.id < b.id)
  }

  function InsertRow(s: seq<Row>, x: Row): seq<Row> {
    if s == [] then [x] else if Precedes(x, s[0]) then [x] + s else [s[0]] + InsertRow(s[1..], x)
  }

  /** SELECT ... ORDER BY priority desc, id asc. */
  function OrderBy(rows: seq<Row>): seq<Row> {
    if rows == [] then [] else InsertRow(OrderBy(rows[..|rows| - 1]), rows[|rows| - 1])
  }

  predicate InOrder(s: seq<Row>) {
    forall i, j :: 0 <= i < j < |s| ==> Precedes(s[i], s[j])
  }

  predicate UniqueIds(s: seq<Row>) {
    forall i, j :: 0 <= i < j < |s| ==> s[i].id != s[j].id
  }

  lemma {:induction false} InsertRowMultiset(s: seq<Row>, x: Row)
    ensures multiset(InsertRow(s, x)) == multiset(s) + multiset{x}
  {
    if s != [] && !Precedes(x, s[0]) {
      InsertRowMultiset(s[1..], x);
      assert s == [s[0]] + s[1..];
    }
  }

  lemma {:induction false} OrderByMultiset(rows: seq<Row>)
    ensures multiset(OrderBy(rows)) == multiset(rows)
  {
    if rows != [] {
      var init, last := rows[..|rows| - 1], rows[|rows| - 1];
      assert rows == init + [last];
      OrderByMultiset(init);
      InsertRowMultiset(OrderBy(init), last);
    }
  }

  lemma InOrderCons(x: Row, s: seq<Row>)
    ensures InOrder([x] + s) <==> InOrder(s) && forall i :: 0 <= i < |s| ==> Precedes(x, s[i])
  {
    var t := [x] + s;
    if InOrder(t) {
      forall i, j | 0 <= i < j < |s| ensures Precedes(s[i], s[j]) {
        assert Precedes(t[i + 1], t[j + 1]);
      }
      forall i | 0 <= i < |s| ensures Precedes(x, s[i]) {
        assert Precedes(t[0], t[i + 1]);
      }
    }
  }

  lemma {:induction false} InsertRowInOrder(s: seq<Row>, x: Row)
    requires InOrder(s) && forall i :: 0 <= i < |s| ==> s[i].id != x.id
    ensures InOrder(InsertRow(s, x))
  {
    if s == [] {
    } else if Precedes(x, s[0]) {
      InOrderCons(x, s);
    } else {
      var rest := InsertRow(s[1..], x);
      InsertRowInOrder(s[1..], x);
      InsertRowMultiset(s[1..], x);
      forall i | 0 <= i < |rest| ensures Precedes(s[0], rest[i]) {
        assert rest[i] in multiset(rest);
        if rest[i] != x {
          assert rest[i] in s[1..];
          var k :| 0 <= k < |s| - 1 && s[1..][k] == rest[i];
          assert s[k + 1] == rest[i];
        }
      }
      InOrderCons(s[0], rest);
    }
  }

  lemma {:induction false} OrderByInOrder(rows: seq<Row>)
    requires UniqueIds(rows)
    ensures InOrder(OrderBy(rows))
  {
    if rows != [] {
      var init, last := rows[..|rows| - 1], rows[|rows| - 1];
      var s := OrderBy(init);
      OrderByInOrder(init);
      OrderByMultiset(init);
      forall i | 0 <= i < |s| ensures s[i].id != last.id {
        assert s[i] in multiset(s);
        assert s[i] in init;
      }
      InsertRowInOrder(s, last);
    }
  }

  /** Rows already in order stay as they are. */
  lemma {:induction false} OrderByOrdered(rows: seq<Row>)
    requires InOrder(rows)
    ensures OrderBy(rows) == rows
  {
    if rows != [] {
      var init, last := rows[..|rows| - 1], rows[|rows| - 1];
      OrderByOrdered(init);
      InsertRowLast(init, last);
      assert rows == init + [last];
    }
  }

  lemma {:induction false} InsertRowLast(s: seq<Row>, x: Row)
    requires forall i :: 0 <= i < |s| ==> Precedes(s[i], x)
    ensures InsertRow(s, x) == s + [x]
  {
    if s != [] {
      InsertRowLast(s[1..], x);
      assert s == [s[0]] + s[1..];
    }
  }

  // ---------- run time ----------

  function MappingFor(st: Store, id: int): Mapping {
    if id in st.channels then st.channels[id].mapping else map[]
  }

  /** A row as a route member: the upstream name depends on the row's own model and its channel, not on the route. */
  function MemberOf(st: Store, r: Row): RouteMember {
    RouteMember(
      r.channelId,
      if r.channelId in st.channels then st.channels[r.channelId].name else "",
      r.channelId in st.channels && st.channels[r.channelId].enabled,
      r.model, Upstream(MappingFor(st, r.channelId), r.model), r.alias, r.priority, r.id, r.overrides, r.disabled)
  }

  function MembersOf(st: Store, rows: seq<Row>): (ms: seq<RouteMember>)
    ensures |ms| == |rows| && forall i :: 0 <= i < |ms| ==> ms[i] == MemberOf(st, rows[i])
  {
    seq(|rows|, i requires 0 <= i < |rows| => MemberOf(st, rows[i]))
  }

  function InsertStable(s: seq<RouteMember>, m: RouteMember): seq<RouteMember> {
    if s == [] then [m] else if m.priority > s[0].priority then [m] + s else [s[0]] + InsertStable(s[1..], m)
  }

  /** sort.SliceStable by descending priority. */
  function StableByPriority(ms: seq<RouteMember>): seq<RouteMember> {
    if ms == [] then [] else InsertStable(StableByPriority(ms[..|ms| - 1]), ms[|ms| - 1])
  }

  lemma {:induction false} InsertStableLast(s: seq<RouteMember>, m: RouteMember)
    requires forall i :: 0 <= i < |s| ==> s[i].priority >= m.priority
    ensures InsertStable(s, m) == s + [m]
  {
    if s != [] {
      InsertStableLast(s[1..], m);
      assert s == [s[0]] + s[1..];
    }
  }

  predicate Descending(ms: seq<RouteMember>) {
    forall i, j :: 0 <= i < j < |ms| ==> ms[i].priority >= ms[j].priority
  }

  lemma {:induction false} StableOfSorted(ms: seq<RouteMember>)
    requires Descending(ms)
    ensures StableByPriority(ms) == ms
  {
    if ms != [] {
      var init, last := ms[..|ms| - 1], ms[|ms| - 1];
      StableOfSorted(init);
      InsertStableLast(init, last);
      assert ms == init + [last];
    }
  }

  function RowsOf(rows: seq<Row>, lane: int): seq<Row> {
    if rows == [] then []
    else
      var rest := RowsOf(rows[..|rows| - 1], lane);
      if rows[|rows| - 1].laneId == lane then rest + [rows[|rows| - 1]] else rest
  }

  /** A lane's members as loaded. */
  function Loaded(st: Store, lane: LaneRow): seq<Row> {
    OrderBy(RowsOf(st.rows, lane.id))
  }

  function ChainOf(st: Store, lane: LaneRow): seq<RouteMember> {
    StableByPriority(MembersOf(st, Loaded(st, lane)))
  }

  /** The loop that both run-time resolution and display contain. */
  method MembersForLane(st: Store, lane: LaneRow) returns (members: seq<RouteMember>)
    ensures members == ChainOf(st, lane)
  {
    hide OrderBy, RowsOf, MemberOf, StableByPriority;
    var rows := Loaded(st, lane);
    members := [];
    for i := 0 to |rows|
      invariant members == MembersOf(st, rows[..i])
    {
      members := members + [MemberOf(st, rows[i])];
    }
    assert rows[..|rows|] == rows;
    members := StableByPriority(members);
  }

  function FindLane(lanes: seq<LaneRow>, hit: LaneRow -> bool): Option<LaneRow> {
    if lanes == [] then None else if hit(lanes[0]) then Some(lanes[0]) else FindLane(lanes[1..], hit)
  }

  function Named(name: string): LaneRow -> bool {
    (l: LaneRow) => l.name == name
  }

  function Numbered(id: int): LaneRow -> bool {
    (l: LaneRow) => l.id == id
  }

  function LaneByName(st: Store, name: string): Option<LaneRow> {
    FindLane(st.lanes, Named(name))
  }

  /** The first row by primary key that carries the alias. */
  function FindRow(rows: seq<Row>, alias: string): Option<Row> {
    if rows == [] then None
    else
      var rest := FindRow(rows[1..], alias);
      if rows[0].alias == alias && (rest == None || rows[0].id < rest.value.id) then Some(rows[0]) else rest
  }

  /** The lane of the first member carrying the alias, and that member. */
  function LaneByAlias(st: Store, alias: string): Option<(LaneRow, Row)> {
    if TrimSpace(alias) == "" then None
    else match FindRow(st.rows, alias)
      case None => None
      case Some(row) =>
        match FindLane(st.lanes, Numbered(row.laneId))
        case None => None
        case Some(lane) => Some((lane, row))
  }

  function NoRoute(model: string, defaults: string): Route {
    Route(model, model, Unconfigured, "failover", defaults, "", 0, 0, [])
  }

  function LaneRoute(st: Store, model: string, lane: LaneRow, pinned: int): Route {
    Route(model, lane.name, Explicit, lane.mode, lane.config, lane.active, lane.version, pinned, ChainOf(st, lane))
  }

  /** resolveExactRoute: the enabled lane of that name, or else the enabled lane of a member of that alias. */
  function ResolveExact(st: Store, model: string, defaults: string): Route {
    if TrimSpace(model) == "" then NoRoute(model, defaults)
    else match LaneByName(st, model)
      case Some(lane) => if lane.enabled then LaneRoute(st, model, lane, 0) else NoRoute(model, defaults)
      case None =>
        match LaneByAlias(st, model)
        case None => NoRoute(model, defaults)
        case Some((lane, row)) => if lane.enabled then LaneRoute(st, model, lane, row.id) else NoRoute(model, defaults)
  }

  /** ResolveRoute; the name normaliser is not part of this model. */
  function Resolve(st: Store, model: string, defaults: string, normalise: string -> string): Route {
    var route := ResolveExact(st, model, defaults);
    if |route.members| > 0 || route.source == Explicit then route
    else
      var normalised := normalise(model);
      if normalised == "" || normalised == model then route
      else
        var fallback := ResolveExact(st, normalised, defaults);
        if fallback.members == [] && fallback.source != Explicit then route else fallback.(model := model)
  }

  predicate StoreOk(st: Store) {
    UniqueIds(st.rows)
  }

  lemma {:induction false} RowsOfFacts(rows: seq<Row>, lane: int)
    requires UniqueIds(rows)
    ensures UniqueIds(RowsOf(rows, lane))
    ensures forall r :: r in RowsOf(rows, lane) <==> r in rows && r.laneId == lane
  {
    if rows != [] {
      var init, last := rows[..|rows| - 1], rows[|rows| - 1];
      assert rows == init + [last];
      RowsOfFacts(init, lane);
      var rest := RowsOf(init, lane);
      forall i | 0 <= i < |rest| ensures rest[i].id != last.id {
        assert rest[i] in init;
      }
    }
  }

  /** The chain is the lane's rows, every one once, in the order priority desc, id asc. */
  lemma ChainIsOrdered(st: Store, lane: LaneRow)
    requires StoreOk(st)
    ensures ChainOf(st, lane) == MembersOf(st, Loaded(st, lane))
    ensures InOrder(Loaded(st, lane)) && multiset(Loaded(st, lane)) == multiset(RowsOf(st.rows, lane.id))
    ensures var ms := ChainOf(st, lane);
      forall i, j :: 0 <= i < j < |ms| ==>
        ms[i].priority > ms[j].priority || (ms[i].priority == ms[j].priority && ms[i].memberId < ms[j].memberId)
  {
    RowsOfFacts(st.rows, lane.id);
    OrderByInOrder(RowsOf(st.rows, lane.id));
    OrderByMultiset(RowsOf(st.rows, lane.id));
    hide OrderBy, RowsOf;
    var ms := MembersOf(st, Loaded(st, lane));
    forall i, j | 0 <= i < j < |ms| ensures ms[i].priority >= ms[j].priority {
      assert Precedes(Loaded(st, lane)[i], Loaded(st, lane)[j]);
    }
    StableOfSorted(ms);
  }

  /** The fallback name is tried exactly when the name itself has no enabled lane; then the original name is kept. */
  lemma FallbackNeverOverrides(st: Store, model: string, defaults: string, normalise: string -> string)
    ensures var exact := ResolveExact(st, model, defaults); var r := Resolve(st, model, defaults, normalise);
      var other := ResolveExact(st, normalise(model), defaults);
      && (exact.source == Explicit ==> r == exact)
      && (exact.source != Explicit ==>
            r == if normalise(model) != model && other.source == Explicit then other.(model := model) else NoRoute(model, defaults))
  {
    ExactFacts(st, model, defaults);
    ExactFacts(st, normalise(model), defaults);
    ExactFacts(st, "", defaults);
    hide ResolveExact;
  }

  lemma ExactFacts(st: Store, model: string, defaults: string)
    ensures var r := ResolveExact(st, model, defaults);
      (r.source == Explicit && TrimSpace(model) != "") || r == NoRoute(model, defaults)
    ensures TrimSpace("") == ""
  {
    hide LaneByName, LaneByAlias, ChainOf;
  }

  // ---------- what a route shows ----------

  predicate ShowsLane(r: Route, st: Store, lane: LaneRow) {
    && r.source == Explicit && r.routeKey == lane.name && r.mode == lane.mode && r.config == lane.config
    && r.active == lane.active && r.version == lane.version && r.members == ChainOf(st, lane)
  }

  predicate ShowsNothing(r: Route, model: string, defaults: string) {
    && r.source == Unconfigured && r.model == model && r.routeKey == model && r.mode == "failover" && r.config == defaults
    && r.active == "" && r.version == 0 && r.pinned == 0 && r.members == []
  }

  predicate UniqueLanes(lanes: seq<LaneRow>) {
    forall i, j :: 0 <= i < j < |lanes| ==> lanes[i].name != lanes[j].name && lanes[i].id != lanes[j].id
  }

  lemma {:induction false} FindsIt(lanes: seq<LaneRow>, hit: LaneRow -> bool, i: nat)
    requires i < |lanes| && hit(lanes[i]) && forall j :: 0 <= j < |lanes| && j != i ==> !hit(lanes[j])
    ensures FindLane(lanes, hit) == Some(lanes[i])
  {
    if i > 0 {
      assert !hit(lanes[0]);
      FindsIt(lanes[1..], hit, i - 1);
    }
  }

  lemma {:induction false} FindsNone(lanes: seq<LaneRow>, hit: LaneRow -> bool)
    requires forall j :: 0 <= j < |lanes| ==> !hit(lanes[j])
    ensures FindLane(lanes, hit) == None
  {
    if lanes != [] { FindsNone(lanes[1..], hit); }
  }

  /** A lane's own name resolves to it, with nobody pinned, exactly while it is enabled. */
  lemma NameResolves(st: Store, i: nat, defaults: string)
    requires UniqueLanes(st.lanes) && i < |st.lanes| && TrimSpace(st.lanes[i].name) != ""
    ensures var r := ResolveExact(st, st.lanes[i].name, defaults);
      if st.lanes[i].enabled then ShowsLane(r, st, st.lanes[i]) && r.model == st.lanes[i].name && r.pinned == 0
      else ShowsNothing(r, st.lanes[i].name, defaults)
  {
    hide TrimSpace, FindLane, ChainOf;
    forall j | 0 <= j < |st.lanes| && j != i ensures !Named(st.lanes[i].name)(st.lanes[j]) {
    }
    FindsIt(st.lanes, Named(st.lanes[i].name), i);
  }

  /** Row `k` carries the alias, and no row of a smaller identifier does. */
  predicate FirstOfAlias(rows: seq<Row>, alias: string, k: nat) {
    k < |rows| && rows[k].alias == alias && forall j :: 0 <= j < |rows| && rows[j].alias == alias && j != k ==> rows[k].id < rows[j].id
  }

  lemma {:induction false} FindsRow(rows: seq<Row>, alias: string, k: nat)
    requires FirstOfAlias(rows, alias, k)
    ensures FindRow(rows, alias) == Some(rows[k])
  {
    var rest := rows[1..];
    RowIsIn(rest, alias);
    assert forall j :: 0 <= j < |rest| ==> rest[j] == rows[j + 1];
    if k > 0 {
      assert forall j :: 0 <= j < |rest| && rest[j].alias == alias && j != k - 1 ==> rows[j + 1].alias == alias && j + 1 != k;
      FindsRow(rest, alias, k - 1);
    }
  }

  lemma {:induction false} RowIsIn(rows: seq<Row>, alias: string)
    ensures var found := FindRow(rows, alias);
      if found == None then forall j :: 0 <= j < |rows| ==> rows[j].alias != alias
      else exists j :: 0 <= j < |rows| && rows[j] == found.value && rows[j].alias == alias
  {
    if rows != [] {
      var rest := rows[1..];
      RowIsIn(rest, alias);
      assert forall j :: 0 <= j < |rest| ==> rest[j] == rows[j + 1];
    }
  }

  /** A name with no lane of its own resolves to the lane of its alias's first member, which is pinned, exactly while that lane is enabled. */
  lemma AliasResolves(st: Store, name: string, k: nat, i: nat, defaults: string)
    requires UniqueLanes(st.lanes) && TrimSpace(name) != "" && forall j :: 0 <= j < |st.lanes| ==> st.lanes[j].name != name
    requires FirstOfAlias(st.rows, name, k) && i < |st.lanes| && st.lanes[i].id == st.rows[k].laneId
    ensures var r := ResolveExact(st, name, defaults);
      if st.lanes[i].enabled then ShowsLane(r, st, st.lanes[i]) && r.model == name && r.pinned == st.rows[k].id
      else ShowsNothing(r, name, defaults)
  {
    hide TrimSpace, FindLane, FindRow, ChainOf;
    FindsNone(st.lanes, Named(name));
    FindsRow(st.rows, name, k);
    forall j | 0 <= j < |st.lanes| && j != i ensures !Numbered(st.rows[k].laneId)(st.lanes[j]) {
    }
    FindsIt(st.lanes, Numbered(st.rows[k].laneId), i);
  }

  /** A name without lane and alias, or a blank one, resolves to nothing. */
  lemma UnknownResolvesToNothing(st: Store, name: string, defaults: string)
    requires TrimSpace(name) != "" ==>
      (forall j :: 0 <= j < |st.lanes| ==> st.lanes[j].name != name) && (forall j :: 0 <= j < |st.rows| ==> st.rows[j].alias != name)
    ensures ShowsNothing(ResolveExact(st, name, defaults), name, defaults)
  {
    hide TrimSpace, FindLane, FindRow, ChainOf;
    if TrimSpace(name) != "" {
      FindsNone(st.lanes, Named(name));
      RowIsIn(st.rows, name);
    }
  }

  /** A member shows a row, field by field, with its channel's name and state, and the mapped name of its model. */
  predicate ShowsRow(st: Store, m: RouteMember, r: Row) {
    && m.memberId == r.id && m.channelId == r.channelId && m.model == r.model && m.alias == r.alias
    && m.priority == r.priority && m.overrides == r.overrides && m.disabled == r.disabled
    && (if r.channelId in st.channels then ShowsChannel(m, st.channels[r.channelId])
        else m.channel == "" && !m.channelEnabled && m.upstream == TrimSpace(r.model))
  }

  predicate ShowsChannel(m: RouteMember, ch: Source) {
    var name := TrimSpace(m.model);
    && m.channel == ch.name && m.channelEnabled == ch.enabled
    && m.upstream == if name != "" && name in ch.mapping && TrimSpace(ch.mapping[name]) != "" then TrimSpace(ch.mapping[name]) else name
  }

  lemma MemberOfShows(st: Store, r: Row)
    ensures ShowsRow(st, MemberOf(st, r), r)
  {
    hide TrimSpace;
  }

  /** Each member of a chain shows a row of the lane. */
  lemma MemberShowsRow(st: Store, lane: LaneRow, i: nat) returns (r: Row)
    requires StoreOk(st) && i < |ChainOf(st, lane)|
    ensures r in st.rows && r.laneId == lane.id && ShowsRow(st, ChainOf(st, lane)[i], r)
  {
    hide OrderBy, RowsOf, ChainOf, ShowsRow, MemberOf;
    ChainIsOrdered(st, lane);
    RowsOfFacts(st.rows, lane.id);
    r := Loaded(st, lane)[i];
    assert r in multiset(Loaded(st, lane));
    MemberOfShows(st, r);
  }

  // ---------- suggestions ----------

  /** Declares the model, or maps it. */
  predicate Serves(ch: Source, model: string) {
    model in ch.models || (model in ch.mapping && TrimSpace(ch.mapping[model]) != "")
  }

  function InsertById(s: seq<Source>, x: Source): seq<Source> {
    if s == [] then [x] else if x.id < s[0].id then [x] + s else [s[0]] + InsertById(s[1..], x)
  }

  /** The enabled channels that serve a model, sorted by id. */
  function Candidates(channels: seq<Source>, model: string): seq<Source> {
    if channels == [] then []
    else
      var rest := Candidates(channels[..|channels| - 1], model);
      var last := channels[|channels| - 1];
      if last.enabled && Serves(last, model) then InsertById(rest, last) else rest
  }

  predicate AscendingIds(s: seq<Source>) {
    forall i, j :: 0 <= i < j < |s| ==> s[i].id < s[j].id
  }

  predicate DistinctIds(s: seq<Source>) {
    forall i, j :: 0 <= i < j < |s| ==> s[i].id != s[j].id
  }

  lemma AscendingIdsCons(x: Source, s: seq<Source>)
    ensures AscendingIds([x] + s) <==> AscendingIds(s) && forall i :: 0 <= i < |s| ==> x.id < s[i].id
  {
    var t := [x] + s;
    if AscendingIds(t) {
      forall i, j | 0 <= i < j < |s| ensures s[i].id < s[j].id {
        assert t[i + 1].id < t[j + 1].id;
      }
      forall i | 0 <= i < |s| ensures x.id < s[i].id {
        assert t[0].id < t[i + 1].id;
      }
    }
  }

  lemma {:induction false} InsertByIdMember(s: seq<Source>, x: Source, y: Source)
    ensures y in InsertById(s, x) <==> y in s || y == x
  {
    if s != [] && x.id >= s[0].id {
      InsertByIdMember(s[1..], x, y);
      assert s == [s[0]] + s[1..];
    }
  }

  lemma {:induction false} InsertByIdAscends(s: seq<Source>, x: Source)
    requires AscendingIds(s) && forall i :: 0 <= i < |s| ==> s[i].id != x.id
    ensures AscendingIds(InsertById(s, x))
  {
    if s == [] {
    } else if x.id < s[0].id {
      AscendingIdsCons(x, s);
    } else {
      var rest := InsertById(s[1..], x);
      InsertByIdAscends(s[1..], x);
      forall i | 0 <= i < |rest| ensures s[0].id < rest[i].id {
        InsertByIdMember(s[1..], x, rest[i]);
      }
      AscendingIdsCons(s[0], rest);
    }
  }

  lemma {:induction false} CandidatesFacts(channels: seq<Source>, model: string)
    requires DistinctIds(channels)
    ensures AscendingIds(Candidates(channels, model))
    ensures forall ch :: ch in Candidates(channels, model) <==> ch in channels && ch.enabled && Serves(ch, model)
  {
    if channels != [] {
      var init, last := channels[..|channels| - 1], channels[|channels| - 1];
      assert channels == init + [last];
      CandidatesFacts(init, model);
      hide Serves;
      var rest := Candidates(init, model);
      if last.enabled && Serves(last, model) {
        forall i | 0 <= i < |rest| ensures rest[i].id != last.id {
          assert rest[i] in init;
        }
        InsertByIdAscends(rest, last);
        forall ch ensures ch in InsertById(rest, last) <==> ch in rest || ch == last {
          InsertByIdMember(rest, last, ch);
        }
      }
    }
  }

  /** suggestedMembers: the first candidate gets the highest priority. */
  function Suggested(channels: seq<Source>, model: string): (ms: seq<RouteMember>)
    ensures |ms| == |Candidates(channels, model)|
  {
    var c := Candidates(channels, model);
    seq(|c|, i requires 0 <= i < |c| =>
      RouteMember(c[i].id, c[i].name, true, model, Upstream(c[i].mapping, model), "", |c| - i, 0, "", false))
  }

  /**
   A channel is suggested exactly when it is enabled and declares the model or maps it to a name that is not blank; each
   suggestion shows its channel and the mapped name, the first one with the highest priority.
   */
  lemma SuggestedExactly(channels: seq<Source>, model: string, ch: Source)
    requires DistinctIds(channels) && ch in channels
    ensures var ms := Suggested(channels, model);
      (exists i :: 0 <= i < |ms| && ms[i].channelId == ch.id) <==>
        ch.enabled && (model in ch.models || (model in ch.mapping && TrimSpace(ch.mapping[model]) != ""))
    ensures var ms := Suggested(channels, model);
      forall i :: 0 <= i < |ms| && ms[i].channelId == ch.id ==>
        && ShowsChannel(ms[i], ch) && ms[i].model == model && ms[i].priority == |ms| - i
        && ms[i].memberId == 0 && ms[i].alias == "" && ms[i].overrides == "" && !ms[i].disabled
  {
    CandidatesFacts(channels, model);
    hide Candidates, TrimSpace, DistinctIds, Upstream, ShowsChannel;
    var c, ms := Candidates(channels, model), Suggested(channels, model);
    forall i | 0 <= i < |ms| && ms[i].channelId == ch.id
      ensures c[i] == ch && ShowsChannel(ms[i], ch)
    {
      assert c[i] in c;
      SameId(channels, c[i], ch);
      SuggestionShows(channels, model, i);
    }
    if ch in c {
      var i :| 0 <= i < |c| && c[i] == ch;
      assert ms[i].channelId == ch.id;
    }
  }

  lemma SuggestionShows(channels: seq<Source>, model: string, i: nat)
    requires i < |Suggested(channels, model)| && Candidates(channels, model)[i].enabled
    ensures ShowsChannel(Suggested(channels, model)[i], Candidates(channels, model)[i])
  {
    hide Candidates, TrimSpace;
  }

  lemma SameId(channels: seq<Source>, a: Source, b: Source)
    requires DistinctIds(channels) && a in channels && b in channels && a.id == b.id
    ensures a == b
  {
    var i :| 0 <= i < |channels| && channels[i] == a;
    var j :| 0 <= j < |channels| && channels[j] == b;
    assert i == j;
  }

  /** A suggested chain saved as the members of a lane, numbered from `base`. */
  function Saved(ms: seq<RouteMember>, lane: int, base: int): (rows: seq<Row>)
    ensures |rows| == |ms|
    ensures forall i :: 0 <= i < |rows| ==>
      rows[i] == Row(base + i, lane, ms[i].channelId, ms[i].model, ms[i].alias, ms[i].priority, ms[i].overrides, ms[i].disabled)
  {
    seq(|ms|, i requires 0 <= i < |ms| =>
      Row(base + i, lane, ms[i].channelId, ms[i].model, ms[i].alias, ms[i].priority, ms[i].overrides, ms[i].disabled))
  }

  lemma SavedInOrder(channels: seq<Source>, model: string, lane: int, base: int)
    ensures InOrder(Saved(Suggested(channels, model), lane, base))
  {
    hide Candidates, Upstream;
  }

  /** Saving the suggestion and resolving the lane gives the candidates in the order of their ids, with the same upstream names. */
  lemma SavedSuggestionResolves(st: Store, lane: LaneRow, channels: seq<Source>, model: string, base: int)
    requires RowsOf(st.rows, lane.id) == Saved(Suggested(channels, model), lane.id, base)
    requires DistinctIds(channels) && forall ch :: ch in channels ==> ch.id in st.channels && st.channels[ch.id] == ch
    ensures var chain := ChainOf(st, lane); var wanted := Suggested(channels, model);
      && |chain| == |wanted|
      && (forall i :: 0 <= i < |chain| ==> chain[i] == wanted[i].(memberId := base + i))
      && (forall i, j :: 0 <= i < j < |chain| ==> chain[i].channelId < chain[j].channelId)
  {
    hide *;
    SavedInOrder(channels, model, lane.id, base);
    OrderByOrdered(Saved(Suggested(channels, model), lane.id, base));
    SavedMembers(st, lane.id, channels, model, base);
    StableOfSorted(MembersOf(st, Saved(Suggested(channels, model), lane.id, base)));
    ChainIs(st, lane);
  }

  lemma ChainIs(st: Store, lane: LaneRow)
    ensures ChainOf(st, lane) == StableByPriority(MembersOf(st, OrderBy(RowsOf(st.rows, lane.id))))
  {
  }

  lemma SavedMembers(st: Store, lane: int, channels: seq<Source>, model: string, base: int)
    requires DistinctIds(channels) && forall ch :: ch in channels ==> ch.id in st.channels && st.channels[ch.id] == ch
    ensures var wanted := Suggested(channels, model); var ms := MembersOf(st, Saved(wanted, lane, base));
      && |ms| == |wanted| && Descending(ms)
      && (forall i :: 0 <= i < |ms| ==> ms[i] == wanted[i].(memberId := base + i))
      && (forall i, j :: 0 <= i < j < |ms| ==> ms[i].channelId < ms[j].channelId)
  {
    hide Suggested, MemberOf;
    var wanted := Suggested(channels, model);
    forall i | 0 <= i < |wanted| ensures MemberOf(st, Saved(wanted, lane, base)[i]) == wanted[i].(memberId := base + i) {
      SavedMember(st, lane, channels, model, base, i);
    }
    forall i, j | 0 <= i < j < |wanted| ensures wanted[i].channelId < wanted[j].channelId && wanted[i].priority >= wanted[j].priority {
      SuggestedOrder(channels, model, i, j);
    }
  }

  lemma SuggestedOrder(channels: seq<Source>, model: string, i: nat, j: nat)
    requires DistinctIds(channels) && i < j < |Suggested(channels, model)|
    ensures Suggested(channels, model)[i].channelId < Suggested(channels, model)[j].channelId
    ensures Suggested(channels, model)[i].priority > Suggested(channels, model)[j].priority
  {
    CandidatesFacts(channels, model);
    hide Candidates, Upstream, Serves;
  }

  lemma SavedMember(st: Store, lane: int, channels: seq<Source>, model: string, base: int, i: nat)
    requires DistinctIds(channels) && i < |Suggested(channels, model)|
    requires forall ch :: ch in channels ==> ch.id in st.channels && st.channels[ch.id] == ch
    ensures var wanted := Suggested(channels, model); MemberOf(st, Saved(wanted, lane, base)[i]) == wanted[i].(memberId := base + i)
  {
    CandidatesFacts(channels, model);
    hide Candidates, Upstream, Serves;
    var ch := Candidates(channels, model)[i];
    assert ch in Candidates(channels, model);
  }

  // ---------- display ----------

  /** ResolveRouteForDisplay; `channels` are the enabled channels as the database lists them. */
  function Display(st: Store, model: string, defaults: string, normalise: string -> string, channels: seq<Source>): Route {
    var resolved := Resolve(st, model, defaults, normalise);
    if resolved.source == Explicit then resolved
    else
      var lane := LaneByName(st, resolved.routeKey);
      if lane.Some? && !lane.value.enabled
      then resolved.(source := DisabledLane, mode := lane.value.mode, config := lane.value.config,
                     active := lane.value.active, version := lane.value.version, members := ChainOf(st, lane.value))
      else resolved.(members := Suggested(channels, resolved.routeKey))
  }

  /** A name that resolves to nothing and has no lane shows the suggestions for it. */
  lemma DisplaySuggests(st: Store, model: string, defaults: string, normalise: string -> string, channels: seq<Source>)
    requires Resolve(st, model, defaults, normalise).source != Explicit && forall j :: 0 <= j < |st.lanes| ==> st.lanes[j].name != model
    ensures var shown := Display(st, model, defaults, normalise, channels);
      ShowsNothing(shown.(members := []), model, defaults) && shown.members == Suggested(channels, model)
  {
    hide ResolveExact, Resolve, Suggested, FindLane, TrimSpace;
    FallbackNeverOverrides(st, model, defaults, normalise);
    FindsNone(st.lanes, Named(model));
  }

  /** The table with the first lane of that name enabled. */
  function EnableLane(lanes: seq<LaneRow>, name: string): seq<LaneRow> {
    if lanes == [] then []
    else if lanes[0].name == name then [lanes[0].(enabled := true)] + lanes[1..]
    else [lanes[0]] + EnableLane(lanes[1..], name)
  }

  lemma {:induction false} EnabledIsFound(lanes: seq<LaneRow>, name: string)
    ensures var found := FindLane(lanes, Named(name));
      FindLane(EnableLane(lanes, name), Named(name)) == if found.Some? then Some(found.value.(enabled := true)) else None
  {
    if lanes != [] && lanes[0].name != name { EnabledIsFound(lanes[1..], name); }
  }

  predicate UniqueNames(lanes: seq<LaneRow>) {
    forall i, j :: 0 <= i < j < |lanes| ==> lanes[i].name != lanes[j].name
  }

  /**
   The chain shown for a disabled lane is what run-time resolution would give if it were enabled, if and only if
   the fallback name resolves to no enabled lane.  If it does, that other lane is shown instead.
   */
  lemma DisplayIsRunTimeIfEnabled(st: Store, model: string, defaults: string, normalise: string -> string, channels: seq<Source>)
    requires UniqueNames(st.lanes)
    requires TrimSpace(model) != "" && LaneByName(st, model).Some? && !LaneByName(st, model).value.enabled
    ensures var shown := Display(st, model, defaults, normalise, channels);
      var enabled := ResolveExact(st.(lanes := EnableLane(st.lanes, model)), model, defaults);
      var other := ResolveExact(st, normalise(model), defaults);
      && enabled.source == Explicit && enabled.routeKey == model
      && (shown.(source := Explicit) == enabled <==> other.source != Explicit)
      && (other.source != Explicit ==> shown.source == DisabledLane)
      && (other.source == Explicit ==> shown == other.(model := model) && shown.routeKey != model)
  {
    var st' := st.(lanes := EnableLane(st.lanes, model));
    EnabledIsFound(st.lanes, model);
    FallbackNeverOverrides(st, model, defaults, normalise);
    LaneFound(st.lanes, model);
    assert LaneByName(st', model) == Some(LaneByName(st, model).value.(enabled := true));
    SameChain(st, st', LaneByName(st, model).value);
    ExplicitIsEnabled(st, normalise(model), defaults);
    DisabledNameIsTaken(st, model);
    hide UniqueNames, EnableLane, ChainOf;
  }

  lemma {:induction false} FoundIsIn(lanes: seq<LaneRow>, hit: LaneRow -> bool)
    ensures var found := FindLane(lanes, hit); found.Some? ==> found.value in lanes && hit(found.value)
  {
    if lanes != [] && !hit(lanes[0]) { FoundIsIn(lanes[1..], hit); }
  }

  /** A run-time route is that of an enabled lane. */
  lemma ExplicitIsEnabled(st: Store, name: string, defaults: string)
    ensures var r := ResolveExact(st, name, defaults);
      r.source == Explicit ==> exists l :: l in st.lanes && l.enabled && l.name == r.routeKey
  {
    hide FindRow, ChainOf, FindLane, TrimSpace, Numbered;
    FoundIsIn(st.lanes, Named(name));
    if FindRow(st.rows, name).Some? {
      FoundIsIn(st.lanes, Numbered(FindRow(st.rows, name).value.laneId));
    }
  }

  /** No enabled lane has the name of a disabled one. */
  lemma DisabledNameIsTaken(st: Store, model: string)
    requires UniqueNames(st.lanes) && LaneByName(st, model).Some? && !LaneByName(st, model).value.enabled
    ensures forall l :: l in st.lanes && l.enabled ==> l.name != model
  {
    hide FindLane;
    FoundIsIn(st.lanes, Named(model));
    var lane := LaneByName(st, model).value;
    forall l | l in st.lanes && l.enabled ensures l.name != model {
      var i :| 0 <= i < |st.lanes| && st.lanes[i] == l;
      var j :| 0 <= j < |st.lanes| && st.lanes[j] == lane;
      assert i < j || j < i;
    }
  }

  const FULL := "gpt-4-gizmo-7"
  const SHORT := "gpt-4-gizmo-*"
  const SHADOWED := [LaneRow(1, FULL, "manual", false, "a/b", "", 5), LaneRow(2, SHORT, "failover", true, "", "", 6)]

  /** Such a store: a disabled lane of the full name, and an enabled one of the name it is normalised to. */
  lemma DisabledLaneDisappears(defaults: string, channels: seq<Source>, normalise: string -> string)
    requires normalise(FULL) == SHORT
    ensures var shown := Display(Store(SHADOWED, [], map[]), FULL, defaults, normalise, channels);
      UniqueNames(SHADOWED) && shown.source == Explicit && shown.model == FULL && shown.routeKey == SHORT && shown.mode == "failover"
  {
    var st := Store(SHADOWED, [], map[]);
    NamesDiffer();
    assert LaneByName(st, FULL) == Some(SHADOWED[0]);
    assert LaneByName(st, SHORT) == Some(SHADOWED[1]) by {
      assert SHADOWED[1..] == [SHADOWED[1]];
      assert FindLane(SHADOWED, Named(SHORT)) == FindLane(SHADOWED[1..], Named(SHORT));
    }
    hide ChainOf, TrimSpace, FULL, SHORT, LaneByName, LaneByAlias, Suggested;
    FallbackNeverOverrides(st, FULL, defaults, normalise);
  }

  lemma NamesDiffer()
    ensures FULL != SHORT && TrimSpace(FULL) == FULL != "" && TrimSpace(SHORT) == SHORT != ""
  {
    hide TrimSpace;
    assert FULL[12] == '7' && SHORT[12] == '*';
    TrimSpaceKeeps(FULL);
    TrimSpaceKeeps(SHORT);
  }

  lemma {:induction false} LaneFound(lanes: seq<LaneRow>, name: string)
    ensures var found := FindLane(lanes, Named(name)); found.Some? ==> found.value.name == name
  {
    if lanes != [] && lanes[0].name != name { LaneFound(lanes[1..], name); }
  }

  lemma SameChain(st: Store, st': Store, lane: LaneRow)
    requires st'.rows == st.rows && st'.channels == st.channels
    ensures ChainOf(st', lane.(enabled := true)) == ChainOf(st, lane)
  {
    hide OrderBy, RowsOf, StableByPriority, Upstream;
    var rows := OrderBy(RowsOf(st.rows, lane.id));
    assert MembersOf(st', rows) == MembersOf(st, rows);
  }
}
