/**
 Detecting and applying the differences between a channel's models and its upstream's
 (controller/channel_upstream_update.go).  What is stored after applying any selection
 should be what a fresh detection against the same upstream list finds.
 */
module UpstreamSync {
  import opened GoStrings
  import opened ModelNames

  /** Whether a regular expression compiles and matches; regular expressions are a library's. */
  type Matcher = (string, string) -> bool

  /** A normalised redirection: source name to target name. */
  type Mapping = map<string, string>

  /** What a detection is run against. */
  datatype Upstream = Upstream(names: Names, mapping: Mapping, matches: Matcher)

  const REGEX := "regex:"

  predicate IsRule(name: string) {
    REGEX <= name
  }

  predicate Covers(rule: string, name: string, matches: Matcher) {
    if IsRule(rule) then matches(TrimSpace(rule[|REGEX|..]), name) else rule == name
  }

  predicate Ignored(rules: Names, name: string, matches: Matcher) {
    exists i :: 0 <= i < |rules| && Covers(rules[i], name, matches)
  }

  /** A name `regex:` and a body ignores exactly what the body, trimmed, matches; any other name just itself. */
  lemma RuleIgnores(body: string, name: string, matches: Matcher)
    ensures Ignored(["regex:" + body], name, matches) <==> matches(TrimSpace(body), name)
    ensures !IsRule(body) ==> (Ignored([body], name, matches) <==> body == name)
  {
    hide TrimSpace;
    var rule := "regex:" + body;
    assert IsRule(rule) && rule[|REGEX|..] == body;
    assert Covers([rule][0], name, matches) <==> matches(TrimSpace(body), name);
    assert !IsRule(body) ==> (Covers([body][0], name, matches) <==> body == name);
  }

  /** A list ignores what any of its names does. */
  lemma ListIgnores(rules: Names, rule: string, name: string, matches: Matcher)
    ensures Ignored(rules + [rule], name, matches) <==> Ignored(rules, name, matches) || Ignored([rule], name, matches)
    ensures !Ignored([], name, matches)
  {
    hide Covers;
    var all := rules + [rule];
    assert all[|rules|] == rule && [rule][0] == rule;
    if Ignored(rules, name, matches) {
      var i :| 0 <= i < |rules| && Covers(rules[i], name, matches);
      assert Covers(all[i], name, matches);
    }
    if Ignored(all, name, matches) {
      var i :| 0 <= i < |all| && Covers(all[i], name, matches);
      if i < |rules| { assert Covers(rules[i], name, matches); }
    }
  }

  function Addable(local: Names, rules: Names, u: Upstream): string -> bool {
    x => x !in local && x !in u.mapping.Values && !Ignored(rules, x, u.matches)
  }

  function Removable(upstream: Names, mapping: Mapping): string -> bool {
    x => x !in mapping && x !in upstream
  }

  datatype Pending = Pending(add: Names, remove: Names)

  function Detect(local: Names, ignored: Names, u: Upstream): Pending {
    Pending(
      Normalize(Filter(Normalize(u.names), Addable(Normalize(local), Normalize(ignored), u))),
      Normalize(Filter(Normalize(local), Removable(Normalize(u.names), u.mapping))))
  }

  /** The columns of a channel that take part: the models text and three lists of the settings. */
  datatype State = State(models: string, ignored: Names, detected: Names, removed: Names)

  function Redetected(st: State, u: Upstream): Pending {
    Detect(GetModels(st.models), st.ignored, u)
  }

  /** The stored lists are what detection finds. */
  predicate Settled(st: State, u: Upstream) {
    Pending(st.detected, st.removed) == Redetected(st, u)
  }

  /** What a caller asks to add, ignore and remove. */
  datatype Choice = Choice(add: Names, ignore: Names, remove: Names)

  /** The part of it that is pending. */
  function Granted(st: State, c: Choice): Choice {
    var add := Intersect(c.add, Normalize(st.detected));
    var remove := Intersect(c.remove, Normalize(st.removed));
    Choice(add, Intersect(c.ignore, Normalize(st.detected)), Subtract(remove, add))
  }

  function NextModels(st: State, g: Choice): Names {
    ApplySelected(Normalize(GetModels(st.models)), g.add, g.remove)
  }

  function NextIgnored(st: State, g: Choice): Names {
    var merged := Merge(st.ignored, g.ignore);
    if g.add != [] then Subtract(merged, g.add) else merged
  }

  /** The stored state after applying, when no lane refers to a removed model. */
  function Applied(st: State, c: Choice): State {
    var g := Granted(st, c);
    var origin := Normalize(GetModels(st.models));
    var next := NextModels(st, g);
    State(
      if next != origin then Join(next, ',') else st.models,
      NextIgnored(st, g),
      Subtract(Normalize(st.detected), g.add + g.ignore),
      Subtract(Normalize(st.removed), g.remove))
  }

  /** Exactly what is granted: of the selected names, those that are pending; a name to be added is not removed. */
  lemma GrantedExactly(st: State, c: Choice, x: string)
    ensures x in Granted(st, c).add <==> x in Normalize(c.add) && x in Normalize(st.detected)
    ensures x in Granted(st, c).ignore <==> x in Normalize(c.ignore) && x in Normalize(st.detected)
    ensures x in Granted(st, c).remove <==> x in Normalize(c.remove) && x in Normalize(st.removed) && x !in Granted(st, c).add
  {
    hide Normalize, Clean, Filter;
    NormalizeIsClean(st.detected);
    NormalizeIsClean(st.removed);
    NormalizeClean(Normalize(st.detected));
    NormalizeClean(Normalize(st.removed));
    IntersectClean(c.add, Normalize(st.detected));
    IntersectClean(c.ignore, Normalize(st.detected));
    IntersectClean(c.remove, Normalize(st.removed));
    var add, remove := Intersect(c.add, Normalize(st.detected)), Intersect(c.remove, Normalize(st.removed));
    SubtractClean(remove, add);
    FilterMember(remove, NotIn(add), x);
  }

  // ---------- detection ----------

  lemma DetectedAre(local: Names, ignored: Names, u: Upstream)
    ensures Detect(local, ignored, u).add == Filter(Normalize(u.names), Addable(Normalize(local), Normalize(ignored), u))
    ensures Detect(local, ignored, u).remove == Filter(Normalize(local), Removable(Normalize(u.names), u.mapping))
    ensures Clean(Detect(local, ignored, u).add) && Clean(Detect(local, ignored, u).remove)
  {
    hide Clean, Addable, Removable;
    NormalizeIsClean(u.names);
    NormalizeIsClean(local);
    FilterIsClean(Normalize(u.names), Addable(Normalize(local), Normalize(ignored), u));
    FilterIsClean(Normalize(local), Removable(Normalize(u.names), u.mapping));
    NormalizeClean(Filter(Normalize(u.names), Addable(Normalize(local), Normalize(ignored), u)));
    NormalizeClean(Filter(Normalize(local), Removable(Normalize(u.names), u.mapping)));
  }

  /** Exactly what is pending: sources of a redirection are never to be removed, its targets and ignored names never to be added. */
  lemma PendingExactly(local: Names, ignored: Names, u: Upstream, x: string)
    ensures x in Detect(local, ignored, u).add <==>
      x in Normalize(u.names) && x !in Normalize(local) && x !in u.mapping.Values && !Ignored(Normalize(ignored), x, u.matches)
    ensures x in Detect(local, ignored, u).remove <==> x in Normalize(local) && x !in Normalize(u.names) && x !in u.mapping
  {
    DetectedAre(local, ignored, u);
    FilterMember(Normalize(u.names), Addable(Normalize(local), Normalize(ignored), u), x);
    FilterMember(Normalize(local), Removable(Normalize(u.names), u.mapping), x);
  }

  // ---------- applying ----------

  /** What is granted from a settled state is clean, pending, and adds nothing it removes. */
  predicate Grants(st: State, u: Upstream, g: Choice) {
    && Clean(g.add) && Clean(g.ignore) && Clean(g.remove)
    && (forall i :: 0 <= i < |g.add| ==> g.add[i] in st.detected)
    && (forall i :: 0 <= i < |g.ignore| ==> g.ignore[i] in st.detected)
    && (forall i :: 0 <= i < |g.remove| ==> g.remove[i] in st.removed)
  }

  lemma GrantedGrants(st: State, u: Upstream, c: Choice)
    requires Settled(st, u)
    ensures Grants(st, u, Granted(st, c)) && Clean(st.detected) && Clean(st.removed)
  {
    DetectedAre(GetModels(st.models), st.ignored, u);
    NormalizeClean(st.detected);
    NormalizeClean(st.removed);
    IntersectClean(c.add, st.detected);
    IntersectClean(c.ignore, st.detected);
    IntersectClean(c.remove, st.removed);
    var add := Intersect(c.add, st.detected);
    var remove := Intersect(c.remove, st.removed);
    SubtractClean(remove, add);
    forall x | x in Subtract(remove, add) ensures x in remove {
      FilterMember(remove, NotIn(add), x);
    }
  }

  predicate NoRules(names: Names) {
    forall i :: 0 <= i < |names| ==> !IsRule(names[i])
  }

  lemma IgnoredByMember(rules: Names, name: string, matches: Matcher)
    ensures Ignored(rules, name, matches) <==> exists y :: y in rules && Covers(y, name, matches)
  {
  }

  lemma NextIgnoredMember(st: State, g: Choice, y: string)
    requires Clean(g.add) && Clean(g.ignore)
    ensures y in Normalize(NextIgnored(st, g)) <==> (y in Normalize(st.ignored) || y in g.ignore) && y !in g.add
  {
    hide Clean, Normalize, Filter;
    var old' := Normalize(st.ignored);
    NormalizeIsClean(st.ignored);
    NormalizeClean(old');
    MergeClean(old', g.ignore);
    var merged := Merge(st.ignored, g.ignore);
    assert merged == Merge(old', g.ignore);
    FilterMember(g.ignore, NotIn(old'), y);
    SubtractClean(merged, g.add);
    FilterMember(merged, NotIn(g.add), y);
    NormalizeClean(NextIgnored(st, g));
  }

  /** Among names not added, exactly those that the chosen ones cover become ignored. */
  lemma IgnoredAfter(st: State, g: Choice, x: string, matches: Matcher)
    requires Clean(g.add) && Clean(g.ignore) && NoRules(g.add) && x !in g.add
    ensures Ignored(Normalize(NextIgnored(st, g)), x, matches) <==> Ignored(Normalize(st.ignored), x, matches) || Ignored(g.ignore, x, matches)
  {
    hide NextIgnored, Normalize, Clean;
    var rules, rules' := Normalize(st.ignored), Normalize(NextIgnored(st, g));
    forall y ensures y in rules' <==> (y in rules || y in g.ignore) && y !in g.add {
      NextIgnoredMember(st, g, y);
    }
    IgnoredByMember(rules, x, matches);
    IgnoredByMember(rules', x, matches);
    IgnoredByMember(g.ignore, x, matches);
    hide Ignored;
    if y :| (y in rules || y in g.ignore) && Covers(y, x, matches) { assert y !in g.add; }
  }

  /** A name that was not ignored is ignored afterwards exactly by the chosen names that are not added. */
  lemma NextIgnoredCovers(st: State, g: Choice, x: string, matches: Matcher)
    requires Clean(g.add) && Clean(g.ignore) && !Ignored(Normalize(st.ignored), x, matches)
    ensures Ignored(Normalize(NextIgnored(st, g)), x, matches) <==> Ignored(Subtract(g.ignore, g.add), x, matches)
  {
    hide NextIgnored, Normalize, Clean;
    var rules, rules', chosen := Normalize(st.ignored), Normalize(NextIgnored(st, g)), Subtract(g.ignore, g.add);
    IgnoredByMember(rules, x, matches);
    IgnoredByMember(rules', x, matches);
    IgnoredByMember(chosen, x, matches);
    SubtractClean(g.ignore, g.add);
    hide Ignored, Subtract;
    forall y ensures (y in rules' && Covers(y, x, matches)) <==> (y in chosen && Covers(y, x, matches)) {
      NextIgnoredMember(st, g, y);
      FilterMember(g.ignore, NotIn(g.add), y);
    }
  }

  lemma GetModelsIsClean(text: string)
    ensures Clean(GetModels(text)) && Normalize(GetModels(text)) == GetModels(text)
  {
    NormalizeIsClean(Split(text, ','));
    NormalizeClean(GetModels(text));
  }

  /** What is pending in a settled state, for the names of a granted choice. */
  lemma GrantedArePending(st: State, u: Upstream, g: Choice, x: string)
    requires Settled(st, u) && Grants(st, u, g)
    ensures x in g.add || x in g.ignore ==>
      x in Normalize(u.names) && x !in GetModels(st.models) && x !in u.mapping.Values && !Ignored(Normalize(st.ignored), x, u.matches)
    ensures x in g.remove ==> x in GetModels(st.models) && x !in Normalize(u.names) && x !in u.mapping
  {
    hide Clean, Normalize, Filter, Ignored, GetModels;
    PendingExactly(GetModels(st.models), st.ignored, u, x);
    GetModelsIsClean(st.models);
  }

  lemma NextModelsMember(st: State, g: Choice, x: string)
    requires Clean(g.add) && Clean(g.remove)
    ensures x in NextModels(st, g) <==> x in g.add || (x in GetModels(st.models) && x !in g.remove)
    ensures Clean(NextModels(st, g))
  {
    hide Clean, Normalize, GetModels, ApplySelected;
    GetModelsIsClean(st.models);
    ApplySelectedMember(GetModels(st.models), g.add, g.remove, x);
  }

  lemma {:induction false} FilterNone(s: Names, keep: string -> bool)
    requires forall i :: 0 <= i < |s| ==> !keep(s[i])
    ensures Filter(s, keep) == []
  {
    if s != [] { FilterNone(s[..|s| - 1], keep); }
  }

  lemma {:induction false} FilterAll(s: Names, keep: string -> bool)
    requires forall i :: 0 <= i < |s| ==> keep(s[i])
    ensures Filter(s, keep) == s
  {
    if s != [] {
      FilterAll(s[..|s| - 1], keep);
      assert s == s[..|s| - 1] + [s[|s| - 1]];
    }
  }

  // ---------- what was not selected ----------

  lemma NextModelReads(st: State, c: Choice, x: string)
    requires NextModels(st, Granted(st, c)) != Normalize(GetModels(st.models))
    ensures x in GetModels(Applied(st, c).models) <==> exists y :: y in NextModels(st, Granted(st, c)) && x in GetModels(y)
  {
    hide Normalize, GetModels, Granted, NextModels, NextIgnored;
    var next := NextModels(st, Granted(st, c));
    if next != [] {
      JoinedReadsAs(next, x);
    } else {
      NothingReads(x);
    }
  }

  lemma NothingReads(x: string)
    ensures x !in GetModels(Join([], ','))
  {
  }

  lemma GrantedClean(st: State, c: Choice)
    ensures Clean(Granted(st, c).add) && Clean(Granted(st, c).remove)
  {
    hide Normalize, Clean, Filter;
    NormalizeIsClean(st.detected);
    NormalizeIsClean(st.removed);
    NormalizeClean(Normalize(st.detected));
    NormalizeClean(Normalize(st.removed));
    IntersectClean(c.add, Normalize(st.detected));
    IntersectClean(c.remove, Normalize(st.removed));
    SubtractClean(Intersect(c.remove, Normalize(st.removed)), Intersect(c.add, Normalize(st.detected)));
  }

  lemma ModelIsClean(text: string, x: string)
    requires x in GetModels(text)
    ensures x != "" && TrimSpace(x) == x && ',' !in x
  {
    hide GetModels, TrimSpace;
    GetModelsIsClean(text);
    ModelsHoldNoComma(text, x);
    hide Clean;
    var i :| 0 <= i < |GetModels(text)| && GetModels(text)[i] == x;
    CleanAt(GetModels(text), i);
  }

  lemma CleanAt(s: Names, i: nat)
    requires Clean(s) && i < |s|
    ensures s[i] != "" && TrimSpace(s[i]) == s[i]
  {
  }

  /** From any state: a model that was not selected for removal stays, ... */
  lemma UnselectedStays(st: State, c: Choice, x: string)
    requires x in GetModels(st.models) && x !in Normalize(c.remove)
    ensures x in GetModels(Applied(st, c).models)
  {
    hide Normalize, GetModels, Granted, NextModels, NextIgnored, Clean, TrimSpace;
    GetModelsIsClean(st.models);
    if NextModels(st, Granted(st, c)) != GetModels(st.models) {
      GrantedClean(st, c);
      NextModelsMember(st, Granted(st, c), x);
      GrantedExactly(st, c, x);
      ModelIsClean(st.models, x);
      NameReadsAsItself(x, x);
      NextModelReads(st, c, x);
    }
  }

  /** ... and whatever is new is read from a name selected for adding. */
  lemma NewIsSelected(st: State, c: Choice, x: string) returns (y: string)
    requires x in GetModels(Applied(st, c).models) && x !in GetModels(st.models)
    ensures y in Normalize(c.add) && y in Normalize(st.detected) && x in GetModels(y)
  {
    hide Normalize, GetModels, Granted, NextModels, NextIgnored, Clean, TrimSpace;
    GetModelsIsClean(st.models);
    NextModelReads(st, c, x);
    y :| y in NextModels(st, Granted(st, c)) && x in GetModels(y);
    GrantedClean(st, c);
    NextModelsMember(st, Granted(st, c), y);
    GrantedExactly(st, c, y);
    if y in GetModels(st.models) {
      ModelIsClean(st.models, y);
      NameReadsAsItself(y, x);
    }
  }

  // ---------- what the new models read back as ----------

  /** The text of some names, read back as models: the names themselves unless some hold commas. */
  function ReadBack(names: Names): Names {
    GetModels(Join(names, ','))
  }

  /** Applying to a settled channel adds and removes only what was pending, and adds nothing that it removes. */
  lemma GrantedApart(st: State, u: Upstream, c: Choice)
    requires Settled(st, u)
    ensures Grants(st, u, Granted(st, c))
    ensures forall x :: x in Granted(st, c).add ==> x !in Granted(st, c).remove
  {
    hide Clean, Normalize, GetModels, Filter, Ignored, Settled;
    GrantedGrants(st, u, c);
    forall x | x in Granted(st, c).add ensures x !in Granted(st, c).remove {
      GrantedArePending(st, u, Granted(st, c), x);
    }
  }

  /** The models that stay. */
  function Kept(st: State, g: Choice): Names {
    Filter(GetModels(st.models), NotIn(g.remove))
  }

  lemma KeptMember(st: State, g: Choice, x: string)
    ensures x in Kept(st, g) <==> x in GetModels(st.models) && x !in g.remove
    ensures Clean(Kept(st, g))
  {
    GetModelsIsClean(st.models);
    FilterMember(GetModels(st.models), NotIn(g.remove), x);
    FilterIsClean(GetModels(st.models), NotIn(g.remove));
  }

  lemma NextModelsAre(st: State, u: Upstream, c: Choice)
    requires Settled(st, u)
    ensures var g := Granted(st, c); NextModels(st, g) == Kept(st, g) + g.add
  {
    hide Normalize, GetModels, Clean, Filter, Ignored, Settled, Granted;
    var g := Granted(st, c);
    var local := GetModels(st.models);
    GrantedApart(st, u, c);
    GetModelsIsClean(st.models);
    NormalizeClean(g.add);
    NormalizeClean(g.remove);
    SubtractClean(g.remove, g.add);
    FilterAll(g.remove, NotIn(g.add));
    MergeClean(local, g.add);
    forall i | 0 <= i < |g.add| ensures g.add[i] !in local {
      GrantedArePending(st, u, g, g.add[i]);
    }
    FilterAll(g.add, NotIn(local));
    SubtractClean(local + g.add, g.remove);
    FilterAppend(local, g.add, NotIn(g.remove));
    FilterAll(g.add, NotIn(g.remove));
  }

  /** The stored models afterwards: those that stay, and whatever else the added names read back as. */
  lemma ModelsAfter(st: State, u: Upstream, c: Choice)
    requires Settled(st, u)
    ensures var g := Granted(st, c);
      GetModels(Applied(st, c).models) == Kept(st, g) + Filter(ReadBack(g.add), NotIn(Kept(st, g)))
  {
    hide Normalize, GetModels, Clean, Filter, Ignored, Settled, Granted, NextModels, Kept, NextIgnored;
    var g := Granted(st, c);
    GrantedApart(st, u, c);
    GetModelsIsClean(st.models);
    NextModelsAre(st, u, c);
    KeptMember(st, g, "");
    forall i | 0 <= i < |Kept(st, g)| ensures ',' !in Kept(st, g)[i] {
      KeptMember(st, g, Kept(st, g)[i]);
      ModelsHoldNoComma(st.models, Kept(st, g)[i]);
    }
    ModelsReadBackFront(Kept(st, g), g.add);
    if NextModels(st, g) == GetModels(st.models) {
      forall i | 0 <= i < |NextModels(st, g)| ensures ',' !in NextModels(st, g)[i] {
        ModelsHoldNoComma(st.models, NextModels(st, g)[i]);
      }
      ModelsReadBack(GetModels(st.models));
    }
  }

  // ---------- when what is stored afterwards is what a detection finds ----------

  /** An upstream name that is neither a model of the channel nor the target of a redirection. */
  predicate Candidate(st: State, u: Upstream, x: string) {
    x in Normalize(u.names) && x !in GetModels(st.models) && x !in u.mapping.Values
  }

  /**
   Every such name is a model or ignored afterwards exactly when it was ignored or is chosen to be added or
   ignored.  It fails for an added name with a comma, and for names that read as rules and cover other names,
   or do not cover themselves.
   */
  ghost predicate Heeded(st: State, u: Upstream, g: Choice) {
    forall x :: Candidate(st, u, x) ==>
      (x in ReadBack(g.add) || Ignored(Normalize(NextIgnored(st, g)), x, u.matches)
       <==> Ignored(Normalize(st.ignored), x, u.matches) || x in g.add || x in g.ignore)
  }

  /** The added names read back as models that stay, exist upstream, or are redirected. */
  ghost predicate PartsKnown(st: State, u: Upstream, g: Choice) {
    forall x :: x in ReadBack(g.add) ==> x in Kept(st, g) || x in u.mapping || x in Normalize(u.names)
  }

  lemma SameFilter(s: Names, p: string -> bool, q: string -> bool)
    ensures Filter(s, p) == Filter(s, q) <==> forall i :: 0 <= i < |s| ==> p(s[i]) == q(s[i])
  {
    if Filter(s, p) == Filter(s, q) {
      forall i | 0 <= i < |s| ensures p(s[i]) == q(s[i]) {
        FilterMember(s, p, s[i]);
        FilterMember(s, q, s[i]);
      }
    } else if forall i :: 0 <= i < |s| ==> p(s[i]) == q(s[i]) {
      FilterSame(s, p, q);
    }
  }

  lemma AddSideIsFilter(st: State, u: Upstream, c: Choice)
    requires Settled(st, u)
    ensures var g := Granted(st, c); var st' := Applied(st, c); var taken := Normalize(g.add + g.ignore);
      && st'.detected == Filter(Normalize(u.names), Both(Addable(GetModels(st.models), Normalize(st.ignored), u), NotIn(taken)))
      && Redetected(st', u).add == Filter(Normalize(u.names), Addable(GetModels(st'.models), Normalize(st'.ignored), u))
  {
    hide Normalize, GetModels, Clean, Filter, Ignored, Granted, NextModels, NextIgnored, Addable, Removable;
    var st' := Applied(st, c);
    GrantedGrants(st, u, c);
    NormalizeClean(st.detected);
    GetModelsIsClean(st.models);
    GetModelsIsClean(st'.models);
    DetectedAre(GetModels(st.models), st.ignored, u);
    DetectedAre(GetModels(st'.models), st'.ignored, u);
    FilterTwice(Normalize(u.names), Addable(GetModels(st.models), Normalize(st.ignored), u), NotIn(Normalize(Granted(st, c).add + Granted(st, c).ignore)));
  }

  lemma ConcatMember(a: Names, b: Names, x: string)
    requires Clean(a) && Clean(b)
    ensures x in Normalize(a + b) <==> x in a || x in b
  {
    NormalizeConcat(a, b);
    MergeClean(a, b);
    FilterMember(b, NotIn(a), x);
  }

  /** For one upstream name, found again exactly when stored as remaining, unless the choice is not heeded. */
  lemma FoundAgain(st: State, u: Upstream, c: Choice, x: string)
    requires Settled(st, u) && x in Normalize(u.names)
    ensures var g := Granted(st, c); var st' := Applied(st, c);
      (Addable(GetModels(st'.models), Normalize(st'.ignored), u)(x)
       <==> Both(Addable(GetModels(st.models), Normalize(st.ignored), u), NotIn(Normalize(g.add + g.ignore)))(x))
      <==> (Candidate(st, u, x) ==>
             (x in ReadBack(g.add) || Ignored(Normalize(NextIgnored(st, g)), x, u.matches)
              <==> Ignored(Normalize(st.ignored), x, u.matches) || x in g.add || x in g.ignore))
  {
    hide Normalize, GetModels, Clean, Filter, Ignored, Granted, NextModels, NextIgnored, Kept, Settled, ReadBack;
    var g := Granted(st, c);
    GrantedApart(st, u, c);
    ModelsAfter(st, u, c);
    KeptMember(st, g, x);
    FilterMember(ReadBack(g.add), NotIn(Kept(st, g)), x);
    ConcatMember(g.add, g.ignore, x);
    GrantedArePending(st, u, g, x);
  }

  lemma AddSide(st: State, u: Upstream, c: Choice)
    requires Settled(st, u)
    ensures Applied(st, c).detected == Redetected(Applied(st, c), u).add <==> Heeded(st, u, Granted(st, c))
  {
    hide Normalize, GetModels, Clean, Filter, Ignored, Granted, NextModels, NextIgnored, Kept, Settled, ReadBack, Applied, Redetected, Addable, Both, Candidate;
    var g := Granted(st, c);
    var st' := Applied(st, c);
    var names := Normalize(u.names);
    var stored, found := Both(Addable(GetModels(st.models), Normalize(st.ignored), u), NotIn(Normalize(g.add + g.ignore))), Addable(GetModels(st'.models), Normalize(st'.ignored), u);
    AddSideIsFilter(st, u, c);
    SameFilter(names, stored, found);
    forall x | x in names
      ensures stored(x) == found(x) <==>
        (Candidate(st, u, x) ==>
          (x in ReadBack(g.add) || Ignored(Normalize(NextIgnored(st, g)), x, u.matches)
           <==> Ignored(Normalize(st.ignored), x, u.matches) || x in g.add || x in g.ignore)) {
      FoundAgain(st, u, c, x);
    }
    CandidatesAreUpstream(st, u);
  }

  lemma CandidatesAreUpstream(st: State, u: Upstream)
    ensures forall x :: Candidate(st, u, x) ==> x in Normalize(u.names)
  {
  }

  lemma RemoveSide(st: State, u: Upstream, c: Choice)
    requires Settled(st, u)
    ensures Applied(st, c).removed == Redetected(Applied(st, c), u).remove <==> PartsKnown(st, u, Granted(st, c))
  {
    hide Normalize, GetModels, Clean, Filter, Ignored, Granted, NextModels, NextIgnored, ReadBack, Addable;
    var g := Granted(st, c);
    var st' := Applied(st, c);
    var stray := Removable(Normalize(u.names), u.mapping);
    var kept := Kept(st, g);
    var more := Filter(ReadBack(g.add), NotIn(kept));
    GrantedGrants(st, u, c);
    NormalizeClean(st.removed);
    NormalizeClean(g.remove);
    GetModelsIsClean(st.models);
    GetModelsIsClean(st'.models);
    DetectedAre(GetModels(st.models), st.ignored, u);
    DetectedAre(GetModels(st'.models), st'.ignored, u);
    ModelsAfter(st, u, c);
    FilterAppend(kept, more, stray);
    FilterTwice(GetModels(st.models), NotIn(g.remove), stray);
    FilterTwice(GetModels(st.models), stray, NotIn(g.remove));
    FilterSame(GetModels(st.models), Both(NotIn(g.remove), stray), Both(stray, NotIn(g.remove)));
    assert st'.removed == Filter(kept, stray);
    NoStrays(ReadBack(g.add), kept, stray);
  }

  lemma NoStrays(s: Names, kept: Names, stray: string -> bool)
    ensures Filter(Filter(s, NotIn(kept)), stray) == [] <==> forall x :: x in s ==> x in kept || !stray(x)
  {
    var more := Filter(s, NotIn(kept));
    forall x ensures x in Filter(more, stray) <==> x in s && x !in kept && stray(x) {
      FilterMember(s, NotIn(kept), x);
      FilterMember(more, stray, x);
    }
    if Filter(more, stray) != [] {
      assert Filter(more, stray)[0] in Filter(more, stray);
    }
  }

  /**
   Applying any selection to a settled channel leaves it settled, what is stored as remaining being exactly what a
   new detection finds, if and only if the choice is heeded and the added names leave no stray parts.
   */
  lemma ApplySettles(st: State, u: Upstream, c: Choice)
    requires Settled(st, u)
    ensures Settled(Applied(st, c), u) <==> Heeded(st, u, Granted(st, c)) && PartsKnown(st, u, Granted(st, c))
  {
    hide Applied, Redetected, Heeded, PartsKnown, Granted;
    AddSide(st, u, c);
    RemoveSide(st, u, c);
  }

  lemma PartsOfUnbroken(st: State, u: Upstream, g: Choice)
    requires Settled(st, u) && Grants(st, u, g) && Unbroken(g.add, ',')
    ensures ReadBack(g.add) == g.add && PartsKnown(st, u, g)
  {
    hide Normalize, GetModels, Clean, Filter, Ignored, Settled, Kept;
    ModelsReadBack(g.add);
    forall x | x in g.add ensures x in Normalize(u.names) {
      GrantedArePending(st, u, g, x);
    }
  }

  /** What was ignored stays ignored by the rules that are not added as models. */
  ghost predicate RulesStay(st: State, u: Upstream, g: Choice) {
    forall x :: Candidate(st, u, x) && Ignored(Normalize(st.ignored), x, u.matches) ==>
      Ignored(Normalize(NextIgnored(st, g)), x, u.matches)
  }

  /** The names chosen to be ignored and not added cover, of what is pending and not added, just themselves. */
  predicate ChosenCoverThemselves(st: State, u: Upstream, g: Choice) {
    forall x :: x in st.detected && x !in g.add ==> (Ignored(Subtract(g.ignore, g.add), x, u.matches) <==> x in g.ignore)
  }

  /**
   Adding no commas, a channel settles exactly when the chosen names cover just themselves and whatever was ignored
   stays ignored without the rules that are added.
   */
  lemma SettlesIfRulesStay(st: State, u: Upstream, c: Choice)
    requires Settled(st, u) && Unbroken(Granted(st, c).add, ',')
    ensures Settled(Applied(st, c), u) <==> ChosenCoverThemselves(st, u, Granted(st, c)) && RulesStay(st, u, Granted(st, c))
  {
    hide Normalize, GetModels, Clean, Filter, Ignored, Granted, NextIgnored, ReadBack, PartsKnown, Settled, Applied, Subtract, Candidate;
    var g := Granted(st, c);
    ApplySettles(st, u, c);
    GrantedApart(st, u, c);
    PartsOfUnbroken(st, u, g);
    forall x ensures x in st.detected <==> Candidate(st, u, x) && !Ignored(Normalize(st.ignored), x, u.matches) {
      DetectedAreCandidates(st, u, x);
    }
    forall x ensures !Ignored(Normalize(st.ignored), x, u.matches) ==>
      (Ignored(Normalize(NextIgnored(st, g)), x, u.matches) <==> Ignored(Subtract(g.ignore, g.add), x, u.matches)) {
      if !Ignored(Normalize(st.ignored), x, u.matches) { NextIgnoredCovers(st, g, x, u.matches); }
    }
  }

  /** Adding no commas and no rules, a channel settles exactly when the chosen rules cover of what is pending just the chosen names. */
  lemma RulesSettleIfTheyCoverThemselves(st: State, u: Upstream, c: Choice)
    requires Settled(st, u) && Unbroken(Granted(st, c).add, ',') && NoRules(Granted(st, c).add)
    ensures var g := Granted(st, c);
      Settled(Applied(st, c), u) <==>
        forall x :: x in st.detected && x !in g.add ==> (Ignored(g.ignore, x, u.matches) <==> x in g.ignore)
  {
    hide Normalize, GetModels, Clean, Filter, Ignored, Granted, Settled, Applied, Subtract, RulesStay;
    var g := Granted(st, c);
    SettlesIfRulesStay(st, u, c);
    GrantedApart(st, u, c);
    RulesStayUnlessAdded(st, u, g);
    forall x | x !in g.add ensures Ignored(Subtract(g.ignore, g.add), x, u.matches) <==> Ignored(g.ignore, x, u.matches) {
      AddedCoverNothingElse(g, x, u.matches);
    }
  }

  lemma AddedCoverNothingElse(g: Choice, x: string, matches: Matcher)
    requires Clean(g.add) && Clean(g.ignore) && NoRules(g.add) && x !in g.add
    ensures Ignored(Subtract(g.ignore, g.add), x, matches) <==> Ignored(g.ignore, x, matches)
  {
    hide Clean, Filter;
    var chosen := Subtract(g.ignore, g.add);
    SubtractClean(g.ignore, g.add);
    IgnoredByMember(g.ignore, x, matches);
    IgnoredByMember(chosen, x, matches);
    hide Ignored, Subtract;
    forall y ensures (y in chosen && Covers(y, x, matches)) <==> (y in g.ignore && Covers(y, x, matches)) {
      FilterMember(g.ignore, NotIn(g.add), y);
    }
  }

  /** If no added name reads as a rule, whatever was ignored stays ignored. */
  lemma RulesStayUnlessAdded(st: State, u: Upstream, g: Choice)
    requires Settled(st, u) && Grants(st, u, g) && NoRules(g.add)
    ensures RulesStay(st, u, g)
  {
    hide Clean, Normalize, GetModels, Filter, Ignored, NextIgnored, Settled, Candidate;
    forall x | Candidate(st, u, x) && Ignored(Normalize(st.ignored), x, u.matches)
      ensures Ignored(Normalize(NextIgnored(st, g)), x, u.matches) {
      DetectedAreCandidates(st, u, x);
      IgnoredAfter(st, g, x, u.matches);
    }
  }

  lemma DetectedAreCandidates(st: State, u: Upstream, x: string)
    requires Settled(st, u)
    ensures x in st.detected <==> Candidate(st, u, x) && !Ignored(Normalize(st.ignored), x, u.matches)
  {
    hide Normalize, Ignored, Filter, Clean;
    PendingExactly(GetModels(st.models), st.ignored, u, x);
    GetModelsIsClean(st.models);
  }

  /** An added name with a comma is found to be missing again, unless a chosen rule covers it. */
  lemma CommaUnsettles(st: State, u: Upstream, c: Choice, x: string)
    requires Settled(st, u) && x in Granted(st, c).add && ',' in x && !Ignored(Subtract(Granted(st, c).ignore, Granted(st, c).add), x, u.matches)
    ensures !Settled(Applied(st, c), u)
  {
    hide Normalize, GetModels, Clean, Filter, Ignored, Granted, NextIgnored, PartsKnown, Settled, Applied;
    var g := Granted(st, c);
    ApplySettles(st, u, c);
    GrantedApart(st, u, c);
    GrantedArePending(st, u, g, x);
    NextIgnoredCovers(st, g, x, u.matches);
    if x in ReadBack(g.add) { ModelsHoldNoComma(Join(g.add, ','), x); }
    assert Candidate(st, u, x);
  }

  /** If no selected name reads as a rule: exactly when no added name holds a comma. */
  lemma SettlesWithoutRules(st: State, u: Upstream, c: Choice)
    requires Settled(st, u) && NoRules(Granted(st, c).add) && NoRules(Granted(st, c).ignore)
    ensures Settled(Applied(st, c), u) <==> Unbroken(Granted(st, c).add, ',')
  {
    hide Normalize, GetModels, Clean, Filter, Granted, Settled, Applied, Ignored, Subtract;
    var g := Granted(st, c);
    GrantedApart(st, u, c);
    forall x ensures Ignored(g.ignore, x, u.matches) <==> x in g.ignore { NamesCoverThemselves(g.ignore, x, u.matches); }
    if Unbroken(g.add, ',') {
      RulesSettleIfTheyCoverThemselves(st, u, c);
    } else {
      var i :| 0 <= i < |g.add| && ',' in g.add[i];
      NothingElseIgnored(g, g.add[i], u.matches);
      CommaUnsettles(st, u, c, g.add[i]);
    }
  }

  lemma NamesCoverThemselves(names: Names, x: string, matches: Matcher)
    requires NoRules(names)
    ensures Ignored(names, x, matches) <==> x in names
  {
    if x in names { assert Covers(x, x, matches); }
  }

  lemma NothingElseIgnored(g: Choice, x: string, matches: Matcher)
    requires Clean(g.add) && Clean(g.ignore) && NoRules(g.ignore) && x in g.add
    ensures !Ignored(Subtract(g.ignore, g.add), x, matches)
  {
    hide Clean, Filter, Ignored, Subtract;
    var chosen := Subtract(g.ignore, g.add);
    SubtractClean(g.ignore, g.add);
    forall i | 0 <= i < |chosen| ensures chosen[i] in g.ignore && chosen[i] !in g.add {
      FilterMember(g.ignore, NotIn(g.add), chosen[i]);
    }
    NamesCoverThemselves(chosen, x, matches);
  }

  // ---------- applying everything ----------

  /** Everything pending, as the apply-all endpoint asks for. */
  function Everything(st: State): Choice {
    Choice(st.detected, [], st.removed)
  }

  lemma EverythingApart(st: State, u: Upstream)
    requires Settled(st, u)
    ensures forall i :: 0 <= i < |st.removed| ==> st.removed[i] !in st.detected
  {
    hide Clean, Normalize, GetModels, Filter, Ignored;
    forall i | 0 <= i < |st.removed| ensures st.removed[i] !in st.detected {
      PendingExactly(GetModels(st.models), st.ignored, u, st.removed[i]);
    }
  }

  lemma EverythingIsGranted(st: State, u: Upstream)
    requires Settled(st, u)
    ensures Granted(st, Everything(st)) == Everything(st)
    ensures Applied(st, Everything(st)).detected == [] && Applied(st, Everything(st)).removed == []
  {
    hide Normalize, GetModels, Ignored, Clean, Filter, Settled, Redetected;
    GrantedGrants(st, u, Everything(st));
    EmptyNames(In(st.detected));
    NormalizeClean(st.detected);
    NormalizeClean(st.removed);
    FilterAll(st.detected, In(st.detected));
    FilterAll(st.removed, In(st.removed));
    EverythingApart(st, u);
    FilterAll(st.removed, NotIn(st.detected));
    assert st.detected + [] == st.detected;
    FilterNone(st.detected, NotIn(st.detected));
    FilterNone(st.removed, NotIn(st.removed));
  }

  /**
   Applying everything pending leaves nothing pending, if and only if no name to add holds a comma and whatever was
   ignored stays ignored without the rules that are themselves added.
   */
  lemma ApplyingEverythingConverges(st: State, u: Upstream)
    requires Settled(st, u)
    ensures Redetected(Applied(st, Everything(st)), u) == Pending([], []) <==> Unbroken(st.detected, ',') && RulesStay(st, u, Everything(st))
  {
    hide Clean, Normalize, GetModels, Filter, Ignored, NextModels, Granted, NextIgnored, Detect, Subtract, Applied, RulesStay;
    EverythingIsGranted(st, u);
    forall x ensures !Ignored(Subtract([], st.detected), x, u.matches) {
      NothingCovers(x, u.matches, st.detected);
    }
    if Unbroken(st.detected, ',') {
      SettlesIfRulesStay(st, u, Everything(st));
    } else {
      var i :| 0 <= i < |st.detected| && ',' in st.detected[i];
      CommaUnsettles(st, u, Everything(st), st.detected[i]);
    }
  }

  lemma NothingCovers(x: string, matches: Matcher, gone: Names)
    ensures !Ignored(Subtract([], gone), x, matches)
  {
  }

  // ---------- the channel object ----------

  datatype ApplyResult =
    | Done(added: Names, removed: Names, remaining: Names, remainingRemove: Names, changed: bool)
    | LaneReferences(lanes: Names)

  class SyncedChannel {
    var models: string
    var ignored: Names
    var detected: Names
    var removed: Names

    ghost function Stored(): State
      reads this
    {
      State(models, ignored, detected, removed)
    }

    constructor (models: string, ignored: Names)
      ensures Stored() == State(models, ignored, [], [])
    {
      this.models, this.ignored, this.detected, this.removed := models, ignored, [], [];
    }

    /** A detection without automatic synchronisation. */
    method Refresh(u: Upstream)
      modifies this
      ensures Stored() == old(Stored()).(detected := detected, removed := removed) && Settled(Stored(), u)
    {
      var pending := Detect(GetModels(models), ignored, u);
      detected, removed := pending.add, pending.remove;
    }

    /** Applies a selection, unless a lane refers to a removed model; `laneRefs` is that look-up. */
    method Apply(c: Choice, laneRefs: Names -> Names) returns (r: ApplyResult)
      modifies this
      ensures var st := old(Stored()); var g := Granted(st, c);
        var changed := NextModels(st, g) != Normalize(GetModels(st.models));
        if changed && g.remove != [] && laneRefs(g.remove) != []
        then r == LaneReferences(laneRefs(g.remove)) && Stored() == st
        else r == Done(g.add, g.remove, detected, removed, changed) && Stored() == Applied(st, c)
      ensures r.LaneReferences? ==> r.lanes != [] && NextModels(old(Stored()), Granted(old(Stored()), c)) != Normalize(GetModels(models))
      ensures forall x :: x in GetModels(old(models)) && x !in Normalize(c.remove) ==> x in GetModels(models)
      ensures forall x :: x in GetModels(models) && x !in GetModels(old(models)) ==> exists y :: y in Normalize(c.add) && x in GetModels(y)
    {
      hide Normalize, Filter, GetModels, ApplySelected, Merge, Intersect, Subtract;
      ghost var st := Stored();
      forall x | x in GetModels(st.models) && x !in Normalize(c.remove) ensures x in GetModels(Applied(st, c).models) {
        UnselectedStays(st, c, x);
      }
      forall x | x in GetModels(Applied(st, c).models) && x !in GetModels(st.models) ensures exists y :: y in Normalize(c.add) && x in GetModels(y) {
        var y := NewIsSelected(st, c, x);
      }
      var pendingAdd := NormalizeModelNames(detected);
      var pendingRemove := NormalizeModelNames(removed);
      var add := Intersect(c.add, pendingAdd);
      var ignore := Intersect(c.ignore, pendingAdd);
      var remove := Subtract(Intersect(c.remove, pendingRemove), add);
      var origin := NormalizeModelNames(GetModels(models));
      var next := ApplySelected(origin, add, remove);
      var changed := next != origin;
      if changed && |remove| > 0 {
        var lanes := laneRefs(remove);
        if |lanes| > 0 {
          return LaneReferences(lanes);
        }
      }
      if changed {
        models := Join(next, ',');
      }
      ignored := Merge(ignored, ignore);
      if |add| > 0 {
        ignored := Subtract(ignored, add);
      }
      detected := Subtract(pendingAdd, add + ignore);
      removed := Subtract(pendingRemove, remove);
      return Done(add, remove, detected, removed, changed);
    }

    /** Detect, apply everything, detect again: unless a lane refers to a removed model, when nothing is pending. */
    method Synchronise(u: Upstream, laneRefs: Names -> Names) returns (first: Pending, r: ApplyResult)
      modifies this
      ensures var st := State(old(models), old(ignored), first.add, first.remove);
        r.Done? ==> (Pending(detected, removed) == Pending([], []) <==> Unbroken(first.add, ',') && RulesStay(st, u, Everything(st)))
    {
      hide Normalize, Filter, GetModels, NextModels, Granted, NextIgnored, Applied;
      Refresh(u);
      ghost var st := Stored();
      first := Pending(detected, removed);
      r := Apply(Choice(detected, [], removed), laneRefs);
      Refresh(u);
      if r.Done? {
        ApplyingEverythingConverges(st, u);
      }
    }
  }
}
