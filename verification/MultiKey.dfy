/**
 Multi-key channels: the key-management actions of controller/channel.go (ManageMultiKeys), the
 Update they end with and the polling of model/channel.go (GetNextEnabledKey), with the memory
 cache off.  A channel's key text and sparse status maps implement a list of entries.
 */
module MultiKey {
  import opened Options
  import opened GoStrings
  import opened KeyList
  import opened KeyRotation
  import opened Sets

  datatype Action =
    | DisableKey(index: Option<int>)
    | EnableKey(index: Option<int>)
    | EnableAllKeys
    | DisableAllKeys
    | DeleteKey(index: Option<int>)
    | DeleteDisabledKeys

  // ---------- the actions on a list of entries ----------

  predicate InRange(index: Option<int>, size: nat) {
    index.Some? && 0 <= index.value < size
  }

  function RemoveAt(es: seq<Entry>, i: nat): seq<Entry> {
    if i < |es| then es[..i] + es[i + 1..] else es
  }

  /** Those not disabled automatically; an enabled one loses the trace of an earlier disabling. */
  function Survivors(es: seq<Entry>): seq<Entry> {
    if es == [] then []
    else Survivors(es[..|es| - 1]) + Survivor(es[|es| - 1])
  }

  function Survivor(e: Entry): seq<Entry> {
    if e.status == AUTO_DISABLED then []
    else if e.status == ENABLED then [Entry(e.key, ENABLED, None, None)]
    else [e]
  }

  function Disabled(e: Entry): Entry {
    if e.status == ENABLED then e.(status := MANUALLY_DISABLED) else e
  }

  function AllDisabled(es: seq<Entry>): (r: seq<Entry>)
    ensures |r| == |es| && forall i :: 0 <= i < |r| ==> r[i] == Disabled(es[i])
  {
    seq(|es|, i requires 0 <= i < |es| => Disabled(es[i]))
  }

  predicate Holds(es: seq<Entry>, status: int) {
    exists i :: 0 <= i < |es| && es[i].status == status
  }

  /** Whether an action is carried out; the other outcome is an error message. */
  predicate Allowed(es: seq<Entry>, a: Action) {
    match a
    case DisableKey(index) => InRange(index, |es|)
    case EnableKey(index) => InRange(index, |es|)
    case EnableAllKeys => true
    case DisableAllKeys => Holds(es, ENABLED)
    case DeleteKey(index) => InRange(index, |es|) && |es| > 1
    case DeleteDisabledKeys => Holds(es, AUTO_DISABLED)
  }

  function Target(es: seq<Entry>, a: Action): seq<Entry>
    requires Allowed(es, a)
  {
    match a
    case DisableKey(index) => es[index.value := es[index.value].(status := MANUALLY_DISABLED)]
    case EnableKey(index) => es[index.value := Entry(es[index.value].key, ENABLED, None, None)]
    case EnableAllKeys => Reenabled(es)
    case DisableAllKeys => AllDisabled(es)
    case DeleteKey(index) => RemoveAt(es, index.value)
    case DeleteDisabledKeys => Survivors(es)
  }

  function Spec(es: seq<Entry>, a: Action): seq<Entry> {
    if Allowed(es, a) then Target(es, a) else es
  }

  predicate Deletes(a: Action) {
    a.DeleteKey? || a.DeleteDisabledKeys?
  }

  // ---------- the actions on a row ----------

  ghost predicate RowOk(row: Row, parse: Parser) {
    row.info.size == CountedKeys(row.key, parse) && forall i :: i in row.info.status ==> 0 <= i < row.info.size
  }

  function Enabled(info: Info, i: int): bool {
    StatusOf(info, i) == ENABLED
  }

  /** Every enabled key among the first `n` turned manually disabled. */
  function StatusesDisabled(info: Info, n: nat): map<int, int> {
    if n == 0 then info.status
    else if Enabled(info, n - 1) then StatusesDisabled(info, n - 1)[n - 1 := MANUALLY_DISABLED]
    else StatusesDisabled(info, n - 1)
  }

  /** The status maps after an action that keeps the keys; indices are checked against the recorded size. */
  function AfterInfo(info: Info, a: Action): Info
    requires !Deletes(a)
  {
    match a
    case DisableKey(index) =>
      if InRange(index, info.size) then info.(status := info.status[index.value := MANUALLY_DISABLED]) else info
    case EnableKey(index) =>
      if InRange(index, info.size)
      then info.(status := info.status - {index.value}, time := info.time - {index.value}, reason := info.reason - {index.value})
      else info
    case EnableAllKeys => info.(status := map[], time := map[], reason := map[])
    case DisableAllKeys => info.(status := StatusesDisabled(info, info.size))
  }

  /** The row after a call of ManageMultiKeys. */
  function After(row: Row, a: Action, parse: Parser): Row {
    match a
    case DeleteKey(index) =>
      var es := Contents(row, parse);
      if InRange(index, row.info.size) && RemoveAt(es, index.value) != [] then Rewritten(row, RemoveAt(es, index.value), parse) else row
    case DeleteDisabledKeys =>
      var es := Contents(row, parse);
      if Holds(es, AUTO_DISABLED) then Rewritten(row, Survivors(es), parse) else row
    case _ => row.(info := AfterInfo(row.info, a))
  }

  lemma {:induction false} DisabledStatus(info: Info, n: nat, i: int)
    ensures i in StatusesDisabled(info, n) <==> i in info.status || (0 <= i < n && Enabled(info, i))
    ensures i in StatusesDisabled(info, n) ==>
              StatusesDisabled(info, n)[i] == if 0 <= i < n && Enabled(info, i) then MANUALLY_DISABLED else info.status[i]
  {
    if n > 0 { DisabledStatus(info, n - 1, i); }
  }

  lemma HoldsLast(es: seq<Entry>, status: int)
    requires es != []
    ensures Holds(es, status) <==> Holds(es[..|es| - 1], status) || es[|es| - 1].status == status
  {
    var init := es[..|es| - 1];
    if Holds(es, status) {
      var i :| 0 <= i < |es| && es[i].status == status;
      if i < |init| { assert init[i].status == status; }
    }
    if Holds(init, status) {
      var i :| 0 <= i < |init| && init[i].status == status;
      assert es[i].status == status;
    }
  }

  lemma {:induction false} SurvivorsShrink(es: seq<Entry>)
    ensures |Survivors(es)| <= |es|
    ensures |Survivors(es)| < |es| <==> Holds(es, AUTO_DISABLED)
  {
    if es != [] {
      SurvivorsShrink(es[..|es| - 1]);
      HoldsLast(es, AUTO_DISABLED);
    }
  }

  /** A row whose recorded size is the number of its keys: any but a channel whose key text is an empty JSON array. */
  predicate Regular(row: Row, parse: Parser) {
    row.key == "" || ArrayOf(row.key, parse) != Some([])
  }

  lemma RewrittenIsOk(row: Row, es: seq<Entry>, parse: Parser)
    ensures RowOk(Rewritten(row, es, parse), parse)
  {
  }

  lemma AfterIsOk(row: Row, a: Action, parse: Parser)
    requires RowOk(row, parse)
    ensures RowOk(After(row, a, parse), parse)
  {
    hide Rewritten, Contents, CountedKeys;
    if Deletes(a) {
      if a.DeleteKey? && a.index.Some? && a.index.value >= 0 { RewrittenIsOk(row, RemoveAt(Contents(row, parse), a.index.value), parse); }
      RewrittenIsOk(row, Survivors(Contents(row, parse)), parse);
    } else if a.DisableAllKeys? {
      forall i | i in StatusesDisabled(row.info, row.info.size) ensures 0 <= i < row.info.size {
        DisabledStatus(row.info, row.info.size, i);
      }
    }
  }

  /**
   One action: the row's entries change as the list does, except when a deletion leaves keys that
   do not survive being joined by newlines, and then they do not.
   */
  lemma ActionRefines(row: Row, a: Action, parse: Parser)
    requires RowOk(row, parse) && ArrayParser(parse)
    ensures var es := Contents(row, parse);
      Contents(After(row, a, parse), parse) == Spec(es, a)
      <==> !(Deletes(a) && Allowed(es, a) && !Storable(Keys(Target(es, a)), parse))
  {
    hide ArrayParser, Storable;
    SizeIsKeyCount(row.key, parse);
    if !Regular(row, parse) {
      NoKeysNoChange(row, a, parse);
    } else if Deletes(a) {
      DeletionRefines(row, a, parse);
    } else {
      hide Contents, After, Spec;
      StatusActionRefines(row, a, parse);
    }
  }

  /** A row without keys stays without keys. */
  lemma NoKeysNoChange(row: Row, a: Action, parse: Parser)
    requires Contents(row, parse) == []
    ensures Contents(After(row, a, parse), parse) == [] == Spec([], a)
    ensures Allowed([], a) ==> !Deletes(a)
  {
    hide KeysOf;
  }

  lemma DeletionRefines(row: Row, a: Action, parse: Parser)
    requires Deletes(a) && ArrayParser(parse) && |Contents(row, parse)| == row.info.size
    ensures var es := Contents(row, parse);
      if Allowed(es, a) then Contents(After(row, a, parse), parse) == Target(es, a) <==> Storable(Keys(Target(es, a)), parse)
      else After(row, a, parse) == row
  {
    hide Storable, Rewritten, ArrayParser, Survivors, KeysOf;
    var es := Contents(row, parse);
    if Allowed(es, a) {
      SurvivorsShrink(es);
      RewrittenContents(row, Target(es, a), parse);
    }
  }

  lemma StatusActionRefines(row: Row, a: Action, parse: Parser)
    requires RowOk(row, parse) && !Deletes(a) && |Contents(row, parse)| == row.info.size
    ensures Contents(After(row, a, parse), parse) == Spec(Contents(row, parse), a)
  {
    hide KeysOf, CountedKeys;
    var es := Contents(row, parse);
    var es' := Contents(After(row, a, parse), parse);
    AllowedByInfo(row, a, parse);
    forall i | 0 <= i < |es| ensures es'[i] == Spec(es, a)[i] {
      EntryAfter(row, a, parse, i);
    }
    assert es' == Spec(es, a);
  }

  /** Only disabling all keys looks at the entries to decide, and there refusing and doing nothing are the same. */
  lemma AllowedByInfo(row: Row, a: Action, parse: Parser)
    requires !Deletes(a) && |Contents(row, parse)| == row.info.size
    ensures |Spec(Contents(row, parse), a)| == |Contents(After(row, a, parse), parse)|
    ensures !Allowed(Contents(row, parse), a) ==> AllDisabled(Contents(row, parse)) == Contents(row, parse) || !a.DisableAllKeys?
  {
    var es := Contents(row, parse);
    if a.DisableAllKeys? && !Allowed(es, a) {
      forall i | 0 <= i < |es| ensures Disabled(es[i]) == es[i] {
        assert es[i].status != ENABLED;
      }
    }
  }

  lemma EntryAfter(row: Row, a: Action, parse: Parser, i: nat)
    requires !Deletes(a) && i < |Contents(row, parse)| == row.info.size
    requires !Allowed(Contents(row, parse), a) ==> AllDisabled(Contents(row, parse)) == Contents(row, parse) || !a.DisableAllKeys?
    ensures |Spec(Contents(row, parse), a)| == |Contents(row, parse)|
    ensures EntryAt(KeysOf(row.key, parse)[i], AfterInfo(row.info, a), i) == Spec(Contents(row, parse), a)[i]
  {
    hide KeysOf;
    if a.DisableAllKeys? {
      DisabledStatus(row.info, row.info.size, i);
      assert AllDisabled(Contents(row, parse))[i] == Disabled(Contents(row, parse)[i]);
    }
  }

  /** No action moves the polling cursor. */
  lemma ActionKeepsCursor(row: Row, a: Action, parse: Parser)
    ensures After(row, a, parse).info.cursor == row.info.cursor
  {
  }

  // ---------- the actions entry by entry ----------

  /** How many of the first `n` keys are not automatically disabled. */
  function StayingBefore(es: seq<Entry>, n: nat): (c: nat)
    requires n <= |es|
    ensures c <= n
  {
    if n == 0 then 0 else StayingBefore(es, n - 1) + if es[n - 1].status != 3 then 1 else 0
  }

  /** What remains of an entry whose key stays when the automatically disabled ones are deleted. */
  predicate Remains(e: Entry, e': Entry) {
    e' == if e.status == 1 then Entry(e.key, 1, None, None) else e
  }

  /** The list after an action that is carried out, entry by entry. */
  predicate ActsOn(es: seq<Entry>, a: Action, r: seq<Entry>) {
    match a
    case DisableKey(Some(i)) =>
      |r| == |es| && forall j :: 0 <= j < |es| ==> r[j] == if j == i then Entry(es[j].key, 2, es[j].time, es[j].reason) else es[j]
    case EnableKey(Some(i)) =>
      |r| == |es| && forall j :: 0 <= j < |es| ==> r[j] == if j == i then Entry(es[j].key, 1, None, None) else es[j]
    case EnableAllKeys => |r| == |es| && forall j :: 0 <= j < |es| ==> r[j] == Entry(es[j].key, 1, None, None)
    case DisableAllKeys =>
      |r| == |es| && forall j :: 0 <= j < |es| ==> r[j] == if es[j].status == 1 then Entry(es[j].key, 2, es[j].time, es[j].reason) else es[j]
    case DeleteKey(Some(i)) => |r| == |es| - 1 && forall j :: 0 <= j < |r| ==> r[j] == if j < i then es[j] else es[j + 1]
    case DeleteDisabledKeys => Stand(es, r)
    case _ => false
  }

  lemma {:induction false} StayingPrefix(es: seq<Entry>, m: nat, n: nat)
    requires n <= m <= |es|
    ensures StayingBefore(es[..m], n) == StayingBefore(es, n)
  {
    if n > 0 { StayingPrefix(es, m, n - 1); }
  }

  predicate Stand(es: seq<Entry>, r: seq<Entry>) {
    && |r| == StayingBefore(es, |es|)
    && forall j :: 0 <= j < |es| && es[j].status != 3 ==> StayingBefore(es, j) < |r| && Remains(es[j], r[StayingBefore(es, j)])
  }

  lemma StayingSnoc(es: seq<Entry>, e: Entry)
    ensures StayingBefore(es + [e], |es| + 1) == StayingBefore(es, |es|) + if e.status != 3 then 1 else 0
    ensures forall j :: 0 <= j <= |es| ==> StayingBefore(es + [e], j) == StayingBefore(es, j)
  {
    var all := es + [e];
    assert all[..|es|] == es;
    forall j | 0 <= j <= |es| ensures StayingBefore(all, j) == StayingBefore(es, j) {
      StayingPrefix(all, |es|, j);
    }
  }

  lemma StandSnoc(es: seq<Entry>, r: seq<Entry>, e: Entry)
    requires Stand(es, r)
    ensures Stand(es + [e], r + Survivor(e))
  {
    hide StayingBefore;
    var all, n := es + [e], |es|;
    StayingSnoc(es, e);
    forall j | 0 <= j < |all| && all[j].status != 3
      ensures StayingBefore(all, j) < |r + Survivor(e)| && Remains(all[j], (r + Survivor(e))[StayingBefore(all, j)])
    {
      if j < n { assert all[j] == es[j]; }
    }
  }

  lemma {:induction false} SurvivorsStand(es: seq<Entry>)
    ensures Stand(es, Survivors(es))
  {
    hide Stand, Survivor;
    if es == [] {
      NothingStands();
    } else {
      var n := |es| - 1;
      SurvivorsStand(es[..n]);
      StandSnoc(es[..n], Survivors(es[..n]), es[n]);
      assert es == es[..n] + [es[n]];
    }
  }

  lemma NothingStands()
    ensures Stand([], [])
  {
  }

  lemma KeepingActionsActOn(es: seq<Entry>, a: Action)
    requires Allowed(es, a) && !a.DeleteDisabledKeys?
    ensures ActsOn(es, a, Target(es, a))
  {
    hide Survivors, StayingBefore;
  }

  /** Each action that is carried out does that; a refused one changes nothing. */
  lemma ActionsActOn(es: seq<Entry>, a: Action)
    ensures if Allowed(es, a) then ActsOn(es, a, Spec(es, a)) else Spec(es, a) == es
  {
    hide Survivors, Stand, Allowed;
    if a.DeleteDisabledKeys? { SurvivorsStand(es); } else if Allowed(es, a) { KeepingActionsActOn(es, a); }
  }

  /** Which actions are refused. */
  lemma RefusedActions(es: seq<Entry>, a: Action)
    ensures !Allowed(es, a) <==>
      match a
      case DisableKey(index) => index == None || index.value < 0 || index.value >= |es|
      case EnableKey(index) => index == None || index.value < 0 || index.value >= |es|
      case EnableAllKeys => false
      case DisableAllKeys => forall i :: 0 <= i < |es| ==> es[i].status != 1
      case DeleteKey(index) => index == None || index.value < 0 || index.value >= |es| || |es| == 1
      case DeleteDisabledKeys => forall i :: 0 <= i < |es| ==> es[i].status != 3
  {
  }

  // ---------- whole runs ----------

  function AfterAll(row: Row, acts: seq<Action>, parse: Parser): Row {
    if acts == [] then row else After(AfterAll(row, acts[..|acts| - 1], parse), acts[|acts| - 1], parse)
  }

  function SpecAll(es: seq<Entry>, acts: seq<Action>): seq<Entry> {
    if acts == [] then es else Spec(SpecAll(es, acts[..|acts| - 1]), acts[|acts| - 1])
  }

  /** Along the run, no deletion leaves keys that cannot be stored. */
  predicate StorableRun(es: seq<Entry>, acts: seq<Action>, parse: Parser) {
    acts == []
    || (var before := SpecAll(es, acts[..|acts| - 1]);
        var a := acts[|acts| - 1];
        && StorableRun(es, acts[..|acts| - 1], parse)
        && (Deletes(a) && Allowed(before, a) ==> Storable(Keys(Target(before, a)), parse)))
  }

  lemma {:induction false} StorableRunRefines(row: Row, acts: seq<Action>, parse: Parser)
    requires RowOk(row, parse) && ArrayParser(parse)
    requires StorableRun(Contents(row, parse), acts, parse)
    ensures var row' := AfterAll(row, acts, parse);
      RowOk(row', parse) && Contents(row', parse) == SpecAll(Contents(row, parse), acts)
  {
    if acts != [] {
      var before := AfterAll(row, acts[..|acts| - 1], parse);
      var a := acts[|acts| - 1];
      StorableRunRefines(row, acts[..|acts| - 1], parse);
      ActionRefines(before, a, parse);
      AfterIsOk(before, a, parse);
    }
  }

  /** After every action so far, the row holds what the list of entries has become. */
  predicate InStep(row: Row, acts: seq<Action>, parse: Parser) {
    forall k :: 0 <= k <= |acts| ==> Contents(AfterAll(row, acts[..k], parse), parse) == SpecAll(Contents(row, parse), acts[..k])
  }

  lemma {:induction false} StorablePrefix(es: seq<Entry>, acts: seq<Action>, parse: Parser, k: nat)
    requires StorableRun(es, acts, parse) && k <= |acts|
    ensures StorableRun(es, acts[..k], parse)
  {
    if k < |acts| {
      assert acts[..|acts| - 1][..k] == acts[..k];
      StorablePrefix(es, acts[..|acts| - 1], parse, k);
    } else {
      assert acts[..k] == acts;
    }
  }

  /** Every sequence of actions acts on the list of entries, in step all along, if and only if no deletion leaves keys that cannot be stored. */
  lemma {:induction false} RunRefines(row: Row, acts: seq<Action>, parse: Parser)
    requires RowOk(row, parse) && ArrayParser(parse)
    ensures InStep(row, acts, parse) <==> StorableRun(Contents(row, parse), acts, parse)
  {
    hide ArrayParser, RowOk, Contents, After, Spec, Allowed, Target, Storable, Deletes;
    var es := Contents(row, parse);
    assert acts[..|acts|] == acts;
    if StorableRun(es, acts, parse) {
      forall k | 0 <= k <= |acts| ensures Contents(AfterAll(row, acts[..k], parse), parse) == SpecAll(es, acts[..k]) {
        StorablePrefix(es, acts, parse, k);
        StorableRunRefines(row, acts[..k], parse);
      }
    } else if InStep(row, acts, parse) {
      var init := acts[..|acts| - 1];
      forall k | 0 <= k <= |init| ensures Contents(AfterAll(row, init[..k], parse), parse) == SpecAll(es, init[..k]) {
        assert init[..k] == acts[..k];
      }
      RunRefines(row, init, parse);
      StorableRunRefines(row, init, parse);
      ActionRefines(AfterAll(row, init, parse), acts[|acts| - 1], parse);
    }
  }

  /** Deleting the automatically disabled keys when every key is such: none is deleted, and all of them are enabled. */
  lemma DeletingAllDisabledReenablesThem(row: Row, parse: Parser)
    requires var es := Contents(row, parse); es != [] && forall i :: 0 <= i < |es| ==> es[i].status == AUTO_DISABLED
    ensures Contents(After(row, DeleteDisabledKeys, parse), parse) == Reenabled(Contents(row, parse))
  {
    hide Rewritten, KeysOf, Survivors;
    var es := Contents(row, parse);
    assert es[0].status == AUTO_DISABLED;
    NoSurvivors(es);
    RewrittenToNothing(row, parse);
  }

  lemma {:induction false} NoSurvivors(es: seq<Entry>)
    requires forall i :: 0 <= i < |es| ==> es[i].status == AUTO_DISABLED
    ensures Survivors(es) == []
  {
    if es != [] { NoSurvivors(es[..|es| - 1]); }
  }

  // ---------- the channel object ----------

  datatype Mode = Random | Polling | Other

  method PruneStatuses(all: map<int, int>, size: nat) returns (status: map<int, int>)
    ensures status == Pruned(all, size)
  {
    status := all;
    var todo: set<int> := all.Keys;
    ghost var gone: set<int> := {};
    while todo != {}
      invariant todo !! gone && todo + gone == all.Keys
      invariant status == all - (set i | i in gone && i >= size)
      decreases |todo|
    {
      ghost var some := SomeElement(todo);
      var i: int :| i in todo;
      if i >= size {
        status := status - {i};
      }
      todo, gone := todo - {i}, gone + {i};
    }
  }

  method DisableStatuses(info: Info) returns (status: map<int, int>, count: nat)
    ensures status == StatusesDisabled(info, info.size)
    ensures count > 0 <==> exists i :: 0 <= i < info.size && Enabled(info, i)
    ensures count == 0 ==> status == info.status
  {
    status, count := info.status, 0;
    for i := 0 to info.size
      invariant status == StatusesDisabled(info, i)
      invariant count > 0 <==> exists j :: 0 <= j < i && Enabled(info, j)
      invariant count == 0 ==> status == info.status
    {
      DisabledStatus(info, i, i);
      if i !in status || status[i] == ENABLED {
        status, count := status[i := MANUALLY_DISABLED], count + 1;
      }
    }
  }

  lemma ResizedOk(row: Row, parse: Parser)
    requires RowOk(row, parse)
    ensures Resized(row.info, CountedKeys(row.key, parse)) == row.info
  {
    assert Pruned(row.info.status, row.info.size) == row.info.status;
  }

  /** Appending an entry to a list appends its parts to the sparse maps. */
  lemma SparseAppend(es: seq<Entry>, e: Entry, cursor: int)
    ensures var (m, m') := (Sparse(es, cursor), Sparse(es + [e], cursor));
      && m'.status == (if e.status != ENABLED then m.status[|es| := e.status] else m.status)
      && m'.time == (if e.time.Some? then m.time[|es| := e.time.value] else m.time)
      && m'.reason == (if e.reason.Some? then m.reason[|es| := e.reason.value] else m.reason)
  {
  }

  /** One round of the re-indexing loop: carries what the maps say about key `i` over to position `at`. */
  method CarryOver(info: Info, i: nat, m: Info, at: nat, ghost es: seq<Entry>, key: string) returns (m': Info)
    requires m == Sparse(es, info.cursor) && at == |es|
    ensures m' == Sparse(es + [EntryAt(key, info, i)], info.cursor)
  {
    SparseAppend(es, EntryAt(key, info, i), info.cursor);
    m' := m.(size := at + 1);
    if i in info.status && info.status[i] != ENABLED {
      m' := m'.(status := m'.status[at := info.status[i]]);
    }
    if i in info.time {
      m' := m'.(time := m'.time[at := info.time[i]]);
    }
    if i in info.reason {
      m' := m'.(reason := m'.reason[at := info.reason[i]]);
    }
  }

  lemma RemoveAtStep(es: seq<Entry>, i: nat, n: nat)
    requires n < |es|
    ensures RemoveAt(es[..n + 1], i) == RemoveAt(es[..n], i) + if n == i then [] else [es[n]]
  {
  }

  lemma LastKeyStays(row: Row, parse: Parser, i: nat)
    requires RowOk(row, parse) && i < row.info.size
    ensures RemoveAt(Contents(row, parse), i) == [] <==> |Contents(row, parse)| <= 1
    ensures |Keys(RemoveAt(Contents(row, parse), i))| == |RemoveAt(Contents(row, parse), i)|
  {
  }

  lemma Nothing(cursor: int, i: nat)
    ensures RemoveAt([], i) == [] && Keys([]) == [] && Sparse([], cursor) == Info(0, map[], map[], map[], cursor)
  {
  }

  lemma KeysAppend(es: seq<Entry>, e: Entry)
    ensures Keys(es + [e]) == Keys(es) + [e.key]
  {
  }

  /** The keys but one, with the maps re-indexed. */
  method DropKey(keys: seq<string>, info: Info, index: nat) returns (remaining: seq<string>, m: Info)
    ensures var es := RemoveAt(Entries(keys, info), index); remaining == Keys(es) && m == Sparse(es, info.cursor)
  {
    hide RemoveAt, Sparse, Keys;
    ghost var es := Entries(keys, info);
    ghost var kept := [];
    remaining, m := [], Info(0, map[], map[], map[], info.cursor);
    Nothing(info.cursor, index);
    for i := 0 to |keys|
      invariant kept == RemoveAt(es[..i], index) && |remaining| == |kept|
      invariant remaining == Keys(kept) && m == Sparse(kept, info.cursor)
    {
      RemoveAtStep(es, index, i);
      if i == index {
        continue;
      }
      KeysAppend(kept, es[i]);
      m := CarryOver(info, i, m, |remaining|, kept, keys[i]);
      remaining := remaining + [keys[i]];
      kept := kept + [es[i]];
    }
    assert es[..|keys|] == es;
  }

  lemma SurvivorsStep(es: seq<Entry>, n: nat)
    requires n < |es|
    ensures Survivors(es[..n + 1]) == Survivors(es[..n]) + Survivor(es[n])
  {
    assert es[..n + 1][..n] == es[..n];
  }

  /** The keys not disabled automatically, with the maps re-indexed; an enabled one carries nothing over. */
  method DropDisabled(keys: seq<string>, info: Info) returns (remaining: seq<string>, m: Info, deleted: nat)
    ensures var es := Survivors(Entries(keys, info)); remaining == Keys(es) && m == Sparse(es, info.cursor)
    ensures deleted == |keys| - |remaining|
  {
    hide Sparse, Keys;
    ghost var es := Entries(keys, info);
    ghost var kept := [];
    remaining, m, deleted := [], Info(0, map[], map[], map[], info.cursor), 0;
    Nothing(info.cursor, 0);
    for i := 0 to |keys|
      invariant kept == Survivors(es[..i]) && |remaining| == |kept| && deleted == i - |kept|
      invariant remaining == Keys(kept) && m == Sparse(kept, info.cursor)
    {
      SurvivorsStep(es, i);
      var status := StatusOf(info, i);
      if status == AUTO_DISABLED {
        deleted := deleted + 1;
      } else {
        m := KeepOn(info, i, m, |remaining|, kept, keys[i]);
        KeysAppend(kept, Survivor(es[i])[0]);
        remaining := remaining + [keys[i]];
        kept := kept + Survivor(es[i]);
      }
    }
    assert es[..|keys|] == es;
  }

  method KeepOn(info: Info, i: nat, m: Info, at: nat, ghost es: seq<Entry>, key: string) returns (m': Info)
    requires m == Sparse(es, info.cursor) && at == |es| && StatusOf(info, i) != AUTO_DISABLED
    ensures m' == Sparse(es + Survivor(EntryAt(key, info, i)), info.cursor)
  {
    if StatusOf(info, i) != ENABLED {
      m' := CarryOver(info, i, m, at, es, key);
    } else {
      SparseAppend(es, Entry(key, ENABLED, None, None), info.cursor);
      m' := m.(size := at + 1);
    }
  }

  function FlagsOf(row: Row, parse: Parser): (on: seq<bool>)
    ensures |on| == |KeysOf(row.key, parse)| && forall i :: 0 <= i < |on| ==> on[i] == Enabled(row.info, i)
  {
    seq(|KeysOf(row.key, parse)|, i requires 0 <= i => Enabled(row.info, i))
  }

  /** The cursor has no part in which keys are enabled. */
  lemma CursorIsNoFlag(row: Row, cursor: int, parse: Parser)
    ensures FlagsOf(row.(info := row.info.(cursor := cursor)), parse) == FlagsOf(row, parse)
  {
  }

  class Channel {
    const parse: Parser
    var key: string
    var info: Info
    /** The stored row. */
    var row: Row

    /** As read from the database: the fields are the row's. */
    ghost predicate Loaded()
      reads this
    {
      row == Row(key, info) && RowOk(row, parse)
    }

    constructor (parse: Parser, row: Row)
      requires RowOk(row, parse)
      ensures Loaded() && this.row == row && this.parse == parse
    {
      this.parse, this.key, this.info, this.row := parse, row.key, row.info, row;
    }

    /** Recounts the keys, drops the statuses beyond them, writes the row without an empty key, and reads it back. */
    method Update()
      requires forall i :: i in info.status ==> 0 <= i
      modifies this
      ensures var k := if old(key) != "" then old(key) else old(row.key);
        row == Row(k, Resized(old(info), CountedKeys(k, parse)))
      ensures Loaded()
    {
      var keyStr := if key != "" then key else row.key;
      var size := CountedKeys(keyStr, parse);
      var status := PruneStatuses(info.status, size);
      info := info.(size := size, status := status);
      row := Row(if key != "" then key else row.key, info);
      key, info := row.key, row.info;
    }

    /** Writes back status maps for the keys the row already has. */
    method Store(info': Info)
      requires Loaded() && RowOk(Row(key, info'), parse)
      modifies this
      ensures Loaded() && row == Row(old(key), info')
    {
      ResizedOk(Row(key, info'), parse);
      info := info';
      Update();
    }

    method DisableKey(index: Option<int>) returns (ok: bool)
      requires Loaded()
      modifies this
      ensures Loaded() && ok == InRange(index, old(info.size)) && row == After(old(row), Action.DisableKey(index), parse)
    {
      if index.None? || index.value < 0 || index.value >= info.size {
        return false;
      }
      AfterIsOk(row, Action.DisableKey(index), parse);
      Store(info.(status := info.status[index.value := MANUALLY_DISABLED]));
      return true;
    }

    method EnableKey(index: Option<int>) returns (ok: bool)
      requires Loaded()
      modifies this
      ensures Loaded() && ok == InRange(index, old(info.size)) && row == After(old(row), Action.EnableKey(index), parse)
    {
      if index.None? || index.value < 0 || index.value >= info.size {
        return false;
      }
      AfterIsOk(row, Action.EnableKey(index), parse);
      Store(info.(status := info.status - {index.value}, time := info.time - {index.value}, reason := info.reason - {index.value}));
      return true;
    }

    method EnableAll()
      requires Loaded()
      modifies this
      ensures Loaded() && row == After(old(row), EnableAllKeys, parse)
    {
      Store(info.(status := map[], time := map[], reason := map[]));
    }

    method DisableAll() returns (ok: bool)
      requires Loaded()
      modifies this
      ensures Loaded() && row == After(old(row), DisableAllKeys, parse)
      ensures ok <==> exists i :: 0 <= i < old(info.size) && Enabled(old(info), i)
    {
      var status, count := DisableStatuses(info);
      ok := count > 0;
      if ok {
        AfterIsOk(row, DisableAllKeys, parse);
        Store(info.(status := status));
      }
    }

    /** The end of both deletions: joins the keys, replaces the maps and updates. */
    method Rewrite(ks: seq<string>, info': Info, ghost es: seq<Entry>)
      requires Loaded() && ks == Keys(es) && info' == Sparse(es, info.cursor)
      modifies this
      ensures Loaded() && row == Rewritten(old(row), es, parse)
    {
      key := Join(ks, '\n');
      info := info';
      Update();
    }

    method DeleteKey(index: Option<int>) returns (ok: bool)
      requires Loaded()
      modifies this
      ensures Loaded() && row == After(old(row), Action.DeleteKey(index), parse)
      ensures ok == (InRange(index, old(info.size)) && |old(Contents(row, parse))| > 1)
    {
      if index.None? || index.value < 0 || index.value >= info.size {
        return false;
      }
      ghost var es := Contents(row, parse);
      var keys, kept := DropKey(KeysOf(key, parse), info, index.value);
      LastKeyStays(row, parse, index.value);
      if keys == [] {
        return false;
      }
      Rewrite(keys, kept, RemoveAt(es, index.value));
      return true;
    }

    method DeleteDisabledKeys() returns (ok: bool)
      requires Loaded()
      modifies this
      ensures Loaded() && row == After(old(row), Action.DeleteDisabledKeys, parse)
      ensures ok == Holds(old(Contents(row, parse)), AUTO_DISABLED)
    {
      hide Survivors, Sparse, KeysOf, CountedKeys, Rewritten, Holds;
      ghost var es := Contents(row, parse);
      var keys, kept, deleted := DropDisabled(KeysOf(key, parse), info);
      SurvivorsShrink(es);
      if deleted == 0 {
        return false;
      }
      Rewrite(keys, kept, Survivors(es));
      return true;
    }

    /** ManageMultiKeys: one action on a channel just read from the database. */
    method Manage(a: Action) returns (ok: bool)
      requires Loaded()
      modifies this
      ensures Loaded() && row == After(old(row), a, parse)
    {
      match a
      case DisableKey(index) => ok := DisableKey(index);
      case EnableKey(index) => ok := EnableKey(index);
      case EnableAllKeys => EnableAll(); ok := true;
      case DisableAllKeys => ok := DisableAll();
      case DeleteKey(index) => ok := DeleteKey(index);
      case DeleteDisabledKeys => ok := DeleteDisabledKeys();
    }

    /** GetNextEnabledKey: a key and its index, or nothing when no key is enabled; `draw` is the random number. */
    method NextEnabledKey(mode: Mode, draw: nat) returns (picked: Option<(string, nat)>)
      requires Loaded()
      modifies this
      ensures Loaded() && row == old(row).(info := old(info).(cursor := info.cursor)) && FlagsOf(row, parse) == old(FlagsOf(row, parse))
      ensures picked == None <==> EnabledIdx(FlagsOf(row, parse)) == []
      ensures picked.Some? ==> IsKey(picked.value)
      ensures mode != Polling || picked == None ==> row == old(row)
      ensures mode == Polling && picked.Some? ==>
        var on := FlagsOf(row, parse);
        IsNext(on, Start(|on|, old(info.cursor)), picked.value.1) && info.cursor == Advance(picked.value.1, |on|)
      ensures mode == Polling && picked.Some? ==>
        info.cursor == if picked.value.1 + 1 < |FlagsOf(row, parse)| then picked.value.1 + 1 else 0
      ensures mode == Random && picked.Some? ==> IsDrawn(FlagsOf(row, parse), draw, picked.value.1)
      ensures mode == Other && picked.Some? ==> forall i :: 0 <= i < picked.value.1 ==> !FlagsOf(row, parse)[i]
    {
      hide KeysOf, RowOk, Start;
      var keys := KeysOf(key, parse);
      var on := FlagsOf(row, parse);
      var enabled := CollectEnabled(on);
      EnabledIdxLists(on);
      EnabledIdxCounts(on);
      if enabled == [] {
        return None;
      }
      assert on[enabled[0]];
      match mode
      case Random =>
        var i := enabled[draw % |enabled|];
        return Some((keys[i], i));
      case Polling =>
        var idx := FindFrom(on, info.cursor);
        AdvanceWraps(idx, |keys|);
        SetCursor(Advance(idx, |keys|));
        return Some((keys[idx], idx));
      case Other =>
        return Some((keys[enabled[0]], enabled[0]));
    }

    /** SaveChannelInfo with a new cursor. */
    method SetCursor(cursor: int)
      requires Loaded()
      modifies this
      ensures Loaded() && row == old(row).(info := old(info).(cursor := cursor))
      ensures FlagsOf(row, parse) == old(FlagsOf(row, parse)) && KeysOf(key, parse) == old(KeysOf(key, parse))
    {
      CursorIsNoFlag(row, cursor, parse);
      info := info.(cursor := cursor);
      row := row.(info := info);
    }

    ghost predicate IsKey(pick: (string, nat))
      reads this
    {
      pick.1 < |KeysOf(key, parse)| && pick.0 == KeysOf(key, parse)[pick.1] && Enabled(info, pick.1)
    }

    /** A series of polling calls while the statuses stay as they are. */
    method Poll(count: nat) returns (picks: seq<nat>)
      requires Loaded() && EnabledIdx(FlagsOf(row, parse)) != []
      modifies this
      ensures Loaded() && FlagsOf(row, parse) == old(FlagsOf(row, parse)) && |picks| == count
      ensures forall i :: 0 <= i < count ==> picks[i] == Call(old(FlagsOf(row, parse)), old(info.cursor), i)
    {
      hide KeysOf, RowOk, Start, EnabledIdx, IsNext, Call;
      ghost var on := FlagsOf(row, parse);
      ghost var cursor := info.cursor;
      picks := [];
      for c := 0 to count
        invariant Loaded() && FlagsOf(row, parse) == on && |picks| == c
        invariant info.cursor == Cursor(on, cursor, c)
        invariant forall i :: 0 <= i < c ==> picks[i] == Call(on, cursor, i)
      {
        var picked := NextEnabledKey(Polling, 0);
        CallIsNext(on, cursor, c, picked.value.1);
        picks := picks + [picked.value.1];
      }
    }
  }
}
