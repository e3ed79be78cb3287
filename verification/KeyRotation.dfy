/**
 Polling of a multi-key channel (GetNextEnabledKey in model/channel.go): which key each of a
 series of calls picks while the statuses stay fixed and the cursor is written back every time.
 */
module KeyRotation {

  /** The indices of the enabled keys, in order. */
  function EnabledIdx(on: seq<bool>): seq<nat> {
    if on == [] then []
    else
      var n := |on| - 1;
      EnabledIdx(on[..n]) + if on[n] then [n] else []
  }

  /** `e` lists exactly the enabled indices, in order. */
  predicate Lists(e: seq<nat>, on: seq<bool>) {
    && (forall k :: 0 <= k < |e| ==> e[k] < |on| && on[e[k]])
    && (forall j, k :: 0 <= j < k < |e| ==> e[j] < e[k])
    && (forall i :: 0 <= i < |on| && on[i] ==> i in e)
  }

  lemma {:induction false} EnabledIdxLists(on: seq<bool>)
    ensures Lists(EnabledIdx(on), on)
  {
    if on != [] {
      var n := |on| - 1;
      var before := EnabledIdx(on[..n]);
      EnabledIdxLists(on[..n]);
      forall i | 0 <= i < |on| && on[i] ensures i in EnabledIdx(on) {
        if i < n { assert on[..n][i]; } else { assert EnabledIdx(on)[|before|] == n; }
      }
    }
  }

  /** How many of the first `n` keys are enabled. */
  function EnabledBefore(on: seq<bool>, n: nat): (c: nat)
    requires n <= |on|
    ensures c <= n
  {
    if n == 0 then 0 else EnabledBefore(on, n - 1) + if on[n - 1] then 1 else 0
  }

  lemma {:induction false} EnabledBeforePrefix(on: seq<bool>, m: nat, n: nat)
    requires n <= m <= |on|
    ensures EnabledBefore(on[..m], n) == EnabledBefore(on, n)
  {
    if n > 0 { EnabledBeforePrefix(on, m, n - 1); }
  }

  /** The list of enabled indices has one for each enabled key, and as many before each as keys are enabled before it. */
  lemma {:induction false} EnabledIdxCounts(on: seq<bool>)
    ensures |EnabledIdx(on)| == EnabledBefore(on, |on|)
    ensures forall k :: 0 <= k < |EnabledIdx(on)| ==> EnabledIdx(on)[k] < |on| && EnabledBefore(on, EnabledIdx(on)[k]) == k
  {
    if on != [] {
      var n := |on| - 1;
      var before := EnabledIdx(on[..n]);
      EnabledIdxCounts(on[..n]);
      EnabledBeforePrefix(on, n, n);
      forall k | 0 <= k < |before| ensures EnabledBefore(on, before[k]) == k {
        EnabledBeforePrefix(on, n, before[k]);
      }
    }
  }

  /** What a random draw picks: the enabled key with as many enabled ones before it as the draw, modulo their number. */
  predicate IsDrawn(on: seq<bool>, draw: nat, idx: nat) {
    && idx < |on| && on[idx] && EnabledBefore(on, |on|) > 0
    && EnabledBefore(on, idx) == draw % EnabledBefore(on, |on|)
  }

  lemma {:induction false} EnabledBeforeGrows(on: seq<bool>, i: nat, n: nat)
    requires i < n <= |on|
    ensures EnabledBefore(on, n) >= EnabledBefore(on, i) + if on[i] then 1 else 0
  {
    if i < n - 1 { EnabledBeforeGrows(on, i, n - 1); }
  }

  lemma SmallModulo(a: nat, b: nat)
    requires a < b
    ensures a % b == a
  {
  }

  /** Every enabled key is picked by a draw below their number, and that draw picks no other. */
  lemma EveryEnabledKeyIsDrawn(on: seq<bool>, idx: nat)
    requires idx < |on| && on[idx]
    ensures var draw := EnabledBefore(on, idx);
      draw < EnabledBefore(on, |on|) && IsDrawn(on, draw, idx) && forall j: nat :: IsDrawn(on, draw, j) ==> j == idx
  {
    hide EnabledBefore;
    EnabledBeforeGrows(on, idx, |on|);
    SmallModulo(EnabledBefore(on, idx), EnabledBefore(on, |on|));
    forall j: nat | IsDrawn(on, EnabledBefore(on, idx), j) ensures j == idx {
      if j < idx { EnabledBeforeGrows(on, j, idx); }
      if idx < j { EnabledBeforeGrows(on, idx, j); }
    }
  }

  function Start(n: nat, cursor: int): nat {
    if 0 <= cursor < n then cursor else 0
  }

  /** `idx` is the first enabled index at or after `start`, going round once. */
  predicate IsNext(on: seq<bool>, start: nat, idx: nat) {
    && idx < |on| && on[idx]
    && (start <= idx ==> forall i :: start <= i < idx ==> !on[i])
    && (idx < start ==> forall i :: 0 <= i < |on| && (start <= i || i < idx) ==> !on[i])
  }

  method CollectEnabled(on: seq<bool>) returns (enabled: seq<nat>)
    ensures enabled == EnabledIdx(on)
  {
    enabled := [];
    for i := 0 to |on|
      invariant enabled == EnabledIdx(on[..i])
    {
      assert on[..i + 1][..i] == on[..i];
      if on[i] {
        enabled := enabled + [i];
      }
    }
    assert on[..|on|] == on;
  }

  /** Position `start + i`, going round. */
  function Around(start: nat, i: nat, n: nat): (r: nat)
    requires start < n && i <= n
    ensures i < n ==> r == if start + i < n then start + i else start + i - n
  {
    (start + i) % n
  }

  /** The inverse of Around. */
  function Distance(start: nat, j: nat, n: nat): (i: nat)
    requires start < n && j < n
    ensures i < n && Around(start, i, n) == j
  {
    if j >= start then j - start else n + j - start
  }

  /** The search loop: from the cursor, or from 0 when it is out of range. */
  method FindFrom(on: seq<bool>, cursor: int) returns (idx: nat)
    requires EnabledIdx(on) != []
    ensures IsNext(on, Start(|on|, cursor), idx)
  {
    hide EnabledIdx;
    EnabledIdxLists(on);
    ghost var some := EnabledIdx(on)[0];
    var start := if cursor < 0 || cursor >= |on| then 0 else cursor;
    var i := 0;
    idx := start;
    while !on[idx]
      invariant i < |on| && idx == Around(start, i, |on|) && i <= Distance(start, some, |on|)
      invariant forall j :: 0 <= j < |on| && Distance(start, j, |on|) < i ==> !on[j]
      decreases |on| - i
    {
      assert i != Distance(start, some, |on|);
      assert forall j :: 0 <= j < |on| && Distance(start, j, |on|) == i ==> j == idx;
      i := i + 1;
      idx := (start + i) % |on|;
    }
    assert Distance(start, idx, |on|) == i;
    assert forall j :: 0 <= j < |on| && Distance(start, j, |on|) < i ==> !on[j];
  }

  lemma NextIsUnique(on: seq<bool>, start: nat, i: nat, j: nat)
    requires IsNext(on, start, i) && IsNext(on, start, j)
    ensures i == j
  {
  }

  /** The position, in the list `e`, of the first index at or after `start`, or 0 when there is none. */
  function Seek(e: seq<nat>, start: nat): (p: nat)
    requires e != []
    ensures p < |e|
  {
    if forall k :: 0 <= k < |e| ==> e[k] < start then 0 else SeekFrom(e, start, 0)
  }

  function SeekFrom(e: seq<nat>, start: nat, k: nat): (p: nat)
    requires k < |e| && exists j :: k <= j < |e| && start <= e[j]
    ensures k <= p < |e| && start <= e[p] && forall j :: k <= j < p ==> e[j] < start
    decreases |e| - k
  {
    if start <= e[k] then k else SeekFrom(e, start, k + 1)
  }

  lemma SeekIsNext(on: seq<bool>, e: seq<nat>, start: nat)
    requires Lists(e, on) && e != []
    ensures IsNext(on, start, e[Seek(e, start)])
  {
    var p := Seek(e, start);
    forall i | 0 <= i < |on| && on[i] ensures start <= i ==> e[p] <= i {
      var k :| 0 <= k < |e| && e[k] == i;
      assert k < p ==> e[k] < start;
    }
    forall i | 0 <= i < |on| && on[i] ensures e[p] < start ==> i < start && e[p] <= i {
      var k :| 0 <= k < |e| && e[k] == i;
    }
  }

  /** The cursor before the `i`-th call, counting from 0. */
  function Cursor(on: seq<bool>, cursor: int, i: nat): int
    requires EnabledIdx(on) != []
    decreases i, 0
  {
    if i == 0 then cursor else Advance(Call(on, cursor, i - 1), |on|)
  }

  /** The index the `i`-th call picks. */
  function Call(on: seq<bool>, cursor: int, i: nat): nat
    requires EnabledIdx(on) != []
    decreases i, 1
  {
    EnabledIdx(on)[Seek(EnabledIdx(on), Start(|on|, Cursor(on, cursor, i)))]
  }

  function Advance(idx: nat, n: nat): int {
    if n == 0 then 0 else (idx + 1) % n
  }

  lemma AdvanceWraps(idx: nat, n: nat)
    requires idx < n
    ensures Advance(idx, n) == if idx + 1 == n then 0 else idx + 1
  {
  }

  /** Positions in a list of `n`, going round. */
  function Bump(p: nat, n: nat): nat {
    if p + 1 < n then p + 1 else 0
  }

  function Position(p: nat, n: nat, i: nat): nat {
    if i == 0 then p else Bump(Position(p, n, i - 1), n)
  }

  lemma {:induction false} PositionShift(p: nat, n: nat, i: nat)
    requires p < n && i < n
    ensures Position(p, n, i) == if p + i < n then p + i else p + i - n
  {
    if i > 0 { PositionShift(p, n, i - 1); }
  }

  lemma {:induction false} PositionAdd(p: nat, n: nat, i: nat, k: nat)
    ensures Position(p, n, i + k) == Position(Position(p, n, i), n, k)
  {
    if k > 0 { PositionAdd(p, n, i, k - 1); }
  }

  lemma {:induction false} PositionBound(p: nat, n: nat, i: nat)
    requires p < n
    ensures Position(p, n, i) < n
  {
    if i > 0 { PositionBound(p, n, i - 1); }
  }

  lemma SeekPast(e: seq<nat>, p: nat)
    requires p + 1 < |e| && forall j, k :: 0 <= j < k < |e| ==> e[j] < e[k]
    ensures Seek(e, e[p] + 1) == p + 1
  {
    assert e[p] + 1 <= e[p + 1];
    forall j | 0 <= j <= p ensures e[j] < e[p] + 1 {
      if j < p { assert e[j] < e[p]; }
    }
  }

  /** Moving the cursor past an enabled index moves the pick to the next one in the list. */
  lemma SeekAfter(on: seq<bool>, e: seq<nat>, p: nat)
    requires Lists(e, on) && p < |e|
    ensures Seek(e, Start(|on|, Advance(e[p], |on|))) == Bump(p, |e|)
  {
    AdvanceWraps(e[p], |on|);
    if p + 1 < |e| {
      assert e[p] < e[p + 1] < |on|;
      SeekPast(e, p);
    } else if e[p] + 1 < |on| {
      forall j | 0 <= j < |e| ensures e[j] < e[p] + 1 {
        if j < p { assert e[j] < e[p]; }
      }
    }
  }

  lemma {:induction false} CallByPosition(on: seq<bool>, cursor: int, i: nat)
    requires EnabledIdx(on) != []
    ensures var e := EnabledIdx(on); var p := Position(Seek(e, Start(|on|, cursor)), |e|, i);
      p < |e| && Call(on, cursor, i) == e[p]
  {
    hide Lists, EnabledIdx, Seek, Start;
    var e := EnabledIdx(on);
    PositionBound(Seek(e, Start(|on|, cursor)), |e|, i);
    if i > 0 {
      CallByPosition(on, cursor, i - 1);
      EnabledIdxLists(on);
      SeekAfter(on, e, Position(Seek(e, Start(|on|, cursor)), |e|, i - 1));
    }
  }

  /** The index a call picks is the only one that is next from its cursor. */
  lemma CallIsNext(on: seq<bool>, cursor: int, i: nat, idx: nat)
    requires EnabledIdx(on) != []
    ensures IsNext(on, Start(|on|, Cursor(on, cursor, i)), idx) <==> idx == Call(on, cursor, i)
  {
    EnabledIdxLists(on);
    var start := Start(|on|, Cursor(on, cursor, i));
    SeekIsNext(on, EnabledIdx(on), start);
    if IsNext(on, start, idx) { NextIsUnique(on, start, idx, Call(on, cursor, i)); }
  }

  /** Any window of as many consecutive calls as there are enabled keys picks that many different ones ... */
  lemma WindowIsDistinct(on: seq<bool>, cursor: int, i: nat, j: nat)
    requires EnabledIdx(on) != [] && i < j < i + |EnabledIdx(on)|
    ensures Call(on, cursor, i) != Call(on, cursor, j)
  {
    var e := EnabledIdx(on);
    var p0 := Seek(e, Start(|on|, cursor));
    EnabledIdxLists(on);
    CallByPosition(on, cursor, i);
    CallByPosition(on, cursor, j);
    PositionAdd(p0, |e|, i, j - i);
    PositionShift(Position(p0, |e|, i), |e|, j - i);
  }

  /** From any position, every position is reached within one round. */
  lemma PositionReaches(p: nat, n: nat, k: nat) returns (d: nat)
    requires p < n && k < n
    ensures d < n && Position(p, n, d) == k
  {
    d := if p <= k then k - p else n + k - p;
    PositionShift(p, n, d);
  }

  lemma WindowReaches(on: seq<bool>, cursor: int, i: nat, k: nat) returns (j: nat)
    requires k < |EnabledIdx(on)|
    ensures i <= j < i + |EnabledIdx(on)| && Call(on, cursor, j) == EnabledIdx(on)[k]
  {
    var n := |EnabledIdx(on)|;
    var p0 := Seek(EnabledIdx(on), Start(|on|, cursor));
    PositionBound(p0, n, i);
    var d := PositionReaches(Position(p0, n, i), n, k);
    j := i + d;
    PositionAdd(p0, n, i, d);
    CallByPosition(on, cursor, j);
  }

  lemma CallIsEnabled(on: seq<bool>, cursor: int, i: nat)
    requires EnabledIdx(on) != []
    ensures Call(on, cursor, i) < |on| && on[Call(on, cursor, i)]
  {
    EnabledIdxLists(on);
  }

  /** ... and so picks every enabled key, and no other. */
  lemma WindowCovers(on: seq<bool>, cursor: int, i: nat, idx: nat)
    requires EnabledIdx(on) != []
    ensures (idx < |on| && on[idx]) <==> exists j :: i <= j < i + |EnabledIdx(on)| && Call(on, cursor, j) == idx
  {
    hide Call, EnabledIdx;
    if idx < |on| && on[idx] {
      EnabledIdxLists(on);
      var k :| 0 <= k < |EnabledIdx(on)| && EnabledIdx(on)[k] == idx;
      var j := WindowReaches(on, cursor, i, k);
    }
    forall j | Call(on, cursor, j) == idx ensures idx < |on| && on[idx] {
      CallIsEnabled(on, cursor, j);
    }
  }
}
