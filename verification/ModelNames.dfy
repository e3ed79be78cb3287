/**
 The model-name list algebra of controller/channel_upstream_update.go, and the comma-joined
 text a channel stores its models in (GetModels in model/channel.go).
 */
module ModelNames {
  import opened GoStrings

  type Names = seq<string>

  function Filter(s: Names, keep: string -> bool): Names {
    if s == [] then []
    else
      var rest := Filter(s[..|s| - 1], keep);
      if keep(s[|s| - 1]) then rest + [s[|s| - 1]] else rest
  }

  function In(names: Names): string -> bool {
    x => x in names
  }

  function NotIn(names: Names): string -> bool {
    x => x !in names
  }

  /** Trims every name, drops blanks, and keeps the first of equal names. */
  function Normalize(s: Names): Names {
    if s == [] then []
    else
      var r := Normalize(s[..|s| - 1]);
      var name := TrimSpace(s[|s| - 1]);
      if name == "" || name in r then r else r + [name]
  }

  function Merge(base: Names, appended: Names): Names {
    var merged := Normalize(base);
    merged + Filter(Normalize(appended), NotIn(merged))
  }

  function Subtract(base: Names, removed: Names): Names {
    var gone := Normalize(removed);
    Filter(Normalize(base), NotIn(gone))
  }

  function Intersect(base: Names, allowed: Names): Names {
    var kept := Normalize(allowed);
    Filter(Normalize(base), In(kept))
  }

  /** Adding wins over removing. */
  function ApplySelected(origin: Names, add: Names, remove: Names): Names {
    Subtract(Merge(origin, Normalize(add)), Subtract(Normalize(remove), Normalize(add)))
  }

  function GetModels(text: string): Names {
    if text == "" then [] else Normalize(Split(text, ','))
  }

  // ---------- the loops that compute them ----------

  method NormalizeModelNames(models: Names) returns (out: Names)
    ensures out == Normalize(models)
  {
    out := [];
    for i := 0 to |models|
      invariant out == Normalize(models[..i])
    {
      assert models[..i + 1][..i] == models[..i];
      var name := TrimSpace(models[i]);
      if name != "" && name !in out {
        out := out + [name];
      }
    }
    assert models[..|models|] == models;
  }

  method MergeModelNames(base: Names, appended: Names) returns (merged: Names)
    ensures merged == Merge(base, appended)
  {
    hide Normalize, Clean;
    merged := NormalizeModelNames(base);
    var more := NormalizeModelNames(appended);
    ghost var first := merged;
    NormalizeIsClean(appended);
    for i := 0 to |more|
      invariant merged == first + Filter(more[..i], NotIn(first))
    {
      assert more[..i + 1][..i] == more[..i];
      FilterMember(more[..i], NotIn(first), more[i]);
      FirstOccurrence(more, i);
      if more[i] !in merged {
        merged := merged + [more[i]];
      }
    }
    assert more[..|more|] == more;
  }

  lemma FirstOccurrence(s: Names, i: nat)
    requires Clean(s) && i < |s|
    ensures s[i] !in s[..i]
  {
  }

  // ---------- their laws ----------

  /** Trimmed, not blank, and no two equal. */
  predicate Clean(s: Names) {
    && (forall i :: 0 <= i < |s| ==> s[i] != "" && TrimSpace(s[i]) == s[i])
    && (forall i, j :: 0 <= i < j < |s| ==> s[i] != s[j])
  }

  lemma CleanAppend(s: Names, x: string)
    ensures Clean(s + [x]) <==> Clean(s) && x != "" && TrimSpace(x) == x && x !in s
  {
    hide TrimSpace;
    var t := s + [x];
    assert forall i :: 0 <= i < |s| ==> t[i] == s[i];
    assert t[|s|] == x;
  }

  lemma {:induction false} FilterMember(s: Names, keep: string -> bool, x: string)
    ensures x in Filter(s, keep) <==> x in s && keep(x)
  {
    if s != [] {
      FilterMember(s[..|s| - 1], keep, x);
      assert s == s[..|s| - 1] + [s[|s| - 1]];
    }
  }

  lemma {:induction false} FilterIsClean(s: Names, keep: string -> bool)
    requires Clean(s)
    ensures Clean(Filter(s, keep))
  {
    if s != [] {
      var init := s[..|s| - 1];
      assert s == init + [s[|s| - 1]];
      CleanAppend(init, s[|s| - 1]);
      hide Clean;
      FilterIsClean(init, keep);
      FilterMember(init, keep, s[|s| - 1]);
      CleanAppend(Filter(init, keep), s[|s| - 1]);
    }
  }

  lemma {:induction false} FilterSame(s: Names, p: string -> bool, q: string -> bool)
    requires forall i :: 0 <= i < |s| ==> p(s[i]) == q(s[i])
    ensures Filter(s, p) == Filter(s, q)
  {
    if s != [] { FilterSame(s[..|s| - 1], p, q); }
  }

  function Both(p: string -> bool, q: string -> bool): string -> bool {
    x => p(x) && q(x)
  }

  lemma {:induction false} FilterTwice(s: Names, p: string -> bool, q: string -> bool)
    ensures Filter(Filter(s, p), q) == Filter(s, Both(p, q))
  {
    if s != [] {
      var init, last := s[..|s| - 1], s[|s| - 1];
      FilterTwice(init, p, q);
      assert [last][..0] == [];
      if p(last) { FilterAppend(Filter(init, p), [last], q); }
    }
  }

  lemma {:induction false} FilterAppend(a: Names, b: Names, p: string -> bool)
    ensures Filter(a + b, p) == Filter(a, p) + Filter(b, p)
  {
    if b == [] {
      assert a + b == a;
    } else {
      var n := |b| - 1;
      assert (a + b)[..|a| + n] == a + b[..n];
      FilterAppend(a, b[..n], p);
    }
  }

  lemma {:induction false} NormalizeIsClean(s: Names)
    ensures Clean(Normalize(s))
  {
    if s != [] {
      hide Clean;
      var r := Normalize(s[..|s| - 1]);
      NormalizeIsClean(s[..|s| - 1]);
      TrimTwice(s[|s| - 1], c => IsSpace(c));
      CleanAppend(r, TrimSpace(s[|s| - 1]));
    }
  }

  /** Normalising a clean list changes nothing. */
  lemma {:induction false} NormalizeClean(s: Names)
    requires Clean(s)
    ensures Normalize(s) == s
  {
    if s != [] {
      hide Clean, TrimSpace;
      assert s == s[..|s| - 1] + [s[|s| - 1]];
      CleanAppend(s[..|s| - 1], s[|s| - 1]);
      NormalizeClean(s[..|s| - 1]);
    }
  }

  lemma FilterSnoc(s: Names, x: string, keep: string -> bool)
    ensures Filter(s + [x], keep) == if keep(x) then Filter(s, keep) + [x] else Filter(s, keep)
  {
    assert (s + [x])[..|s|] == s;
  }

  lemma NormalizeSnoc(s: Names, x: string)
    ensures var r, name := Normalize(s), TrimSpace(x); Normalize(s + [x]) == if name == "" || name in r then r else r + [name]
  {
    assert (s + [x])[..|s|] == s;
  }

  /** Normalising one list after another is merging them. */
  lemma {:induction false} NormalizeConcat(a: Names, b: Names)
    ensures Normalize(a + b) == Merge(a, b)
  {
    hide Normalize, Filter, TrimSpace;
    if b == [] {
      assert a + b == a;
      assert Normalize([]) == [] && Filter([], NotIn(Normalize(a))) == [] by { EmptyNames(NotIn(Normalize(a))); }
    } else {
      var init, last := b[..|b| - 1], b[|b| - 1];
      assert a + b == a + init + [last] && b == init + [last];
      NormalizeConcat(a, init);
      NormalizeSnoc(a + init, last);
      NormalizeSnoc(init, last);
      FilterMember(Normalize(init), NotIn(Normalize(a)), TrimSpace(last));
      FilterSnoc(Normalize(init), TrimSpace(last), NotIn(Normalize(a)));
    }
  }

  lemma EmptyNames(keep: string -> bool)
    ensures Normalize([]) == [] && Filter([], keep) == []
  {
  }

  lemma SubtractClean(base: Names, removed: Names)
    requires Clean(base) && Clean(removed)
    ensures Subtract(base, removed) == Filter(base, NotIn(removed)) && Clean(Subtract(base, removed))
  {
    NormalizeClean(base);
    NormalizeClean(removed);
    FilterIsClean(base, NotIn(removed));
  }

  lemma IntersectClean(base: Names, allowed: Names)
    requires Clean(allowed)
    ensures Clean(Intersect(base, allowed))
    ensures forall x :: x in Intersect(base, allowed) <==> x in Normalize(base) && x in allowed
  {
    NormalizeIsClean(base);
    NormalizeClean(allowed);
    FilterIsClean(Normalize(base), In(allowed));
    forall x ensures x in Intersect(base, allowed) <==> x in Normalize(base) && x in allowed {
      FilterMember(Normalize(base), In(allowed), x);
    }
  }

  lemma MergeClean(base: Names, appended: Names)
    requires Clean(base) && Clean(appended)
    ensures Merge(base, appended) == base + Filter(appended, NotIn(base)) && Clean(Merge(base, appended))
  {
    NormalizeClean(base);
    NormalizeClean(appended);
    FilterIsClean(appended, NotIn(base));
    var more := Filter(appended, NotIn(base));
    forall i | 0 <= i < |more| ensures more[i] !in base {
      FilterMember(appended, NotIn(base), more[i]);
    }
  }

  /** A model is selected exactly when it is added, or was there and is not removed; the result is clean. */
  lemma ApplySelectedMember(origin: Names, add: Names, remove: Names, x: string)
    requires Clean(origin) && Clean(add) && Clean(remove)
    ensures x in ApplySelected(origin, add, remove) <==> x in add || (x in origin && x !in remove)
    ensures Clean(ApplySelected(origin, add, remove))
  {
    NormalizeClean(add);
    NormalizeClean(remove);
    SubtractClean(remove, add);
    MergeClean(origin, add);
    SubtractClean(Merge(origin, add), Subtract(remove, add));
    FilterMember(remove, NotIn(add), x);
    FilterMember(add, NotIn(origin), x);
    var gone := Subtract(remove, add);
    FilterMember(Merge(origin, add), NotIn(gone), x);
  }

  /** The stored text reads back as the list it was joined from exactly when no name holds a comma. */
  lemma ModelsReadBack(s: Names)
    requires Clean(s)
    ensures GetModels(Join(s, ',')) == s <==> Unbroken(s, ',')
  {
    if Unbroken(s, ',') {
      NormalizeClean(s);
      if s != [] {
        SplitJoin(s, ',');
        assert Join(s, ',') == "" ==> Split("", ',') == s;
      }
    } else if GetModels(Join(s, ',')) == s {
      forall i | 0 <= i < |s| ensures ',' !in s[i] {
        ModelsHoldNoComma(Join(s, ','), s[i]);
      }
    }
  }

  /** Models without a comma joined with any others read back before them. */
  lemma ModelsReadBackFront(front: Names, back: Names)
    requires Clean(front) && Clean(back) && Unbroken(front, ',')
    ensures var more := GetModels(Join(back, ',')); GetModels(Join(front + back, ',')) == front + Filter(more, NotIn(front))
  {
    if back == [] {
      assert front + back == front;
      ModelsReadBack(front);
    } else {
      JoinEnds(back, ',');
      JoinEnds(front + back, ',');
      SplitJoinFront(front, back, ',');
      NormalizeConcat(front, Split(Join(back, ','), ','));
      NormalizeClean(front);
    }
  }

  /** The name is not blank, and one of these trimmed. */
  predicate Yields(s: Names, x: string) {
    x != "" && exists p :: p in s && TrimSpace(p) == x
  }

  /** Exactly the trimmed names that are not blank. */
  lemma {:induction false} NormalizeMember(s: Names, x: string)
    ensures x in Normalize(s) <==> Yields(s, x)
  {
    hide TrimSpace, Normalize, Yields;
    if s == [] {
      EmptyNames(y => true);
      YieldsNothing(x);
    } else {
      var init, last := s[..|s| - 1], s[|s| - 1];
      NormalizeMember(init, x);
      assert s == init + [last];
      NormalizeSnoc(init, last);
      YieldsSnoc(init, last, x);
    }
  }

  lemma YieldsNothing(x: string)
    ensures !Yields([], x)
  {
  }

  lemma YieldsSnoc(s: Names, last: string, x: string)
    ensures Yields(s + [last], x) <==> Yields(s, x) || (x != "" && TrimSpace(last) == x)
  {
    hide TrimSpace;
    assert forall p :: p in s + [last] <==> p in s || p == last;
  }

  /** A text reads as the trimmed pieces between its commas that are not blank. */
  lemma GetModelsMember(text: string, x: string)
    ensures x in GetModels(text) <==> Yields(Split(text, ','), x)
  {
    NormalizeMember(Split(text, ','), x);
    if text == "" { BlankReadsAsNothing(); }
  }

  lemma BlankReadsAsNothing()
    ensures Split("", ',') == [""] && TrimSpace("") == ""
  {
  }

  /** Names joined by commas read back as what each of them reads as. */
  lemma JoinedReadsAs(s: Names, x: string)
    requires s != []
    ensures x in GetModels(Join(s, ',')) <==> exists y :: y in s && x in GetModels(y)
  {
    hide Split, Join, GetModels, TrimSpace;
    var pieces := Split(Join(s, ','), ',');
    GetModelsMember(Join(s, ','), x);
    if x in GetModels(Join(s, ',')) {
      var piece :| piece in pieces && TrimSpace(piece) == x;
      JoinedPiece(s, piece, ',');
      var i :| 0 <= i < |s| && piece in Split(s[i], ',');
      GetModelsMember(s[i], x);
      assert s[i] in s;
    }
    if y :| y in s && x in GetModels(y) {
      GetModelsMember(y, x);
      var piece :| piece in Split(y, ',') && TrimSpace(piece) == x;
      JoinedPiece(s, piece, ',');
    }
  }

  /** A clean name without a comma reads as itself. */
  lemma NameReadsAsItself(x: string, y: string)
    requires x != "" && TrimSpace(x) == x && ',' !in x
    ensures y in GetModels(x) <==> y == x
  {
    hide TrimSpace, Split, GetModels;
    SplitNone(x, ',');
    GetModelsMember(x, y);
  }

  lemma TrimIsSlice(s: string)
    ensures forall c :: c in TrimSpace(s) ==> c in s
  {
  }

  lemma ModelsHoldNoComma(text: string, x: string)
    requires x in GetModels(text)
    ensures ',' !in x
  {
    NormalizedHasSource(Split(text, ','), x);
  }

  lemma {:induction false} NormalizedHasSource(s: Names, x: string)
    requires x in Normalize(s)
    ensures exists i :: 0 <= i < |s| && TrimSpace(s[i]) == x && forall c :: c in x ==> c in s[i]
  {
    var init := s[..|s| - 1];
    TrimIsSlice(s[|s| - 1]);
    if x in Normalize(init) {
      NormalizedHasSource(init, x);
      var i :| 0 <= i < |init| && TrimSpace(init[i]) == x && forall c :: c in x ==> c in init[i];
      assert s[i] == init[i];
    } else {
      assert TrimSpace(s[|s| - 1]) == x;
    }
  }
}
