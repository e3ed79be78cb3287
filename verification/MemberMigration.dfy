/**
 The rewrite of lane members from upstream names to model names
 (model/lane_member_model_migration.go): it should leave unchanged what each member resolves to.
 */
module MemberMigration {
  import opened GoStrings
  import opened NameOrder
  import opened Sets

  type Mapping = map<string, string>

  /** A channel's model mapping as the repository reads it: trimmed, with no blank name on either side. */
  predicate Normal(m: Mapping) {
    forall k :: k in m ==> k != "" && m[k] != "" && TrimSpace(k) == k && TrimSpace(m[k]) == m[k]
  }

  /** effectiveUpstreamModelByMapping: the upstream name of a chosen model; a missing channel has the empty mapping. */
  function Upstream(m: Mapping, model: string): string {
    var name := TrimSpace(model);
    if name == "" then ""
    else if name in m && TrimSpace(m[name]) != "" then TrimSpace(m[name])
    else name
  }

  /** What a stored value resolved to before the migration: itself, or for a blank one the lane's name through the mapping. */
  function FormerUpstream(m: Mapping, stored: string, lane: string): string {
    if TrimSpace(stored) != "" then TrimSpace(stored) else Upstream(m, lane)
  }

  predicate IsKeyFor(m: Mapping, value: string, k: string) {
    k in m && TrimSpace(m[k]) == value
  }

  /** The first, in string order, of the names mapped to the value; blank when there is none. */
  predicate IsFirstKey(m: Mapping, value: string, k: string) {
    if k == "" then forall j :: j in m ==> !IsKeyFor(m, value, j)
    else IsKeyFor(m, value, k) && forall j :: j in m && IsKeyFor(m, value, j) ==> j == k || Less(k, j)
  }

  /** The reverse look-up visits the mapping in any order. */
  method MappingKeyForValue(m: Mapping, value: string) returns (best: string)
    requires Normal(m)
    ensures IsFirstKey(m, value, best)
  {
    hide TrimSpace, Less;
    best := "";
    var todo := m.Keys;
    while todo != {}
      invariant todo <= m.Keys
      invariant if best == "" then forall j :: j in m && j !in todo ==> !IsKeyFor(m, value, j)
                else IsKeyFor(m, value, best) && forall j :: j in m && j !in todo && IsKeyFor(m, value, j) ==> j == best || Less(best, j)
      decreases |todo|
    {
      ghost var some := SomeElement(todo);
      var model :| model in todo;
      todo := todo - {model};
      if TrimSpace(m[model]) != value {
        continue;
      }
      if best == "" || Less(model, best) {
        forall j | j in m && j !in todo && IsKeyFor(m, value, j) ensures j == model || Less(model, j) {
          if best != "" && j != model && j != best { LessTransitive(model, best, j); }
        }
        best := model;
      } else {
        LessTotal(model, best);
      }
    }
  }

  /** Its answer does not depend on that order. */
  lemma FirstKeyIsUnique(m: Mapping, value: string, j: string, k: string)
    requires Normal(m) && IsFirstKey(m, value, j) && IsFirstKey(m, value, k)
    ensures j == k
  {
    if j != k && j != "" && k != "" {
      LessTransitive(j, k, j);
      LessIrreflexive(j);
    }
  }

  /** The value written for a member; `key` is the answer of the reverse look-up. */
  function Migrated(stored: string, lane: string, key: string): string {
    if TrimSpace(stored) == "" then lane else if key != "" then key else TrimSpace(stored)
  }

  /** The one collision: the stored upstream name is itself a mapped name, but nothing is mapped to it. */
  predicate Collides(m: Mapping, stored: string) {
    var value := TrimSpace(stored);
    value != "" && value in m && forall j :: j in m ==> !IsKeyFor(m, value, j)
  }

  /** The migrated member resolves to the former upstream name, except in a collision. */
  lemma MigrationPreserves(m: Mapping, stored: string, lane: string, key: string)
    requires Normal(m) && IsFirstKey(m, TrimSpace(stored), key)
    ensures Upstream(m, Migrated(stored, lane, key)) == FormerUpstream(m, stored, lane) <==> !Collides(m, stored)
  {
    var value := TrimSpace(stored);
    TrimTwice(stored, c => IsSpace(c));
    if value != "" && value in m && key == "" {
      assert !IsKeyFor(m, value, value);
    }
  }

  /** Such a member, where one model `a` is mapped to another: it resolved to `a`, and resolves to `b` once migrated. */
  lemma CollidingMemberChanges(a: string, b: string, lane: string)
    requires a != b && a != "" && b != "" && TrimSpace(a) == a && TrimSpace(b) == b
    ensures var m := map[a := b];
      Normal(m) && IsFirstKey(m, a, "") && FormerUpstream(m, a, lane) == a && Upstream(m, Migrated(a, lane, "")) == b
  {
    hide TrimSpace, Less;
  }

  // ---------- the rows ----------

  datatype Member = Member(id: int, channelId: int, model: string)

  datatype Channel = Channel(name: string, mapping: Mapping)

  function MappingOf(channels: map<int, Channel>, id: int): Mapping {
    if id in channels then channels[id].mapping else map[]
  }

  function NameOf(channels: map<int, Channel>, id: int): string {
    if id in channels then channels[id].name else ""
  }

  predicate ChannelsOk(channels: map<int, Channel>) {
    forall id :: id in channels ==> Normal(channels[id].mapping)
  }

  /** How one row is rewritten: only its model changes. */
  ghost predicate Rewritten(channels: map<int, Channel>, lane: string, former: Member, now: Member) {
    && now == former.(model := now.model)
    && exists key :: IsFirstKey(MappingOf(channels, former.channelId), TrimSpace(former.model), key) && now.model == Migrated(former.model, lane, key)
  }

  /** What the label of a member's row resolves to after the rewrite. */
  lemma RewrittenPreserves(channels: map<int, Channel>, lane: string, former: Member, now: Member)
    requires ChannelsOk(channels) && Rewritten(channels, lane, former, now)
    ensures var m := MappingOf(channels, former.channelId);
      Upstream(m, now.model) == FormerUpstream(m, former.model, lane) <==> !Collides(m, former.model)
  {
    var m := MappingOf(channels, former.channelId);
    var key :| IsFirstKey(m, TrimSpace(former.model), key) && now.model == Migrated(former.model, lane, key);
    MigrationPreserves(m, former.model, lane, key);
  }

  // ---------- the labels of manually chosen members ----------

  /** strings.Cut at the first slash, for a text that holds one: what stands before it and after it. */
  function CutAt(s: string): (r: (string, string))
    requires '/' in s
    ensures s == r.0 + "/" + r.1 && '/' !in r.0
  {
    if s[0] == '/' then ("", s[1..])
    else
      var (a, b) := CutAt(s[1..]);
      ([s[0]] + a, b)
  }

  lemma {:induction false} CutConcat(a: string, b: string)
    requires '/' !in a
    ensures '/' in a + "/" + b && CutAt(a + "/" + b) == (a, b)
  {
    var s := a + "/" + b;
    assert s[|a|] == '/';
    if a == "" {
      assert s[1..] == b;
    } else {
      CutConcat(a[1..], b);
      assert s[1..] == a[1..] + "/" + b;
      assert [a[0]] + a[1..] == a;
    }
  }

  /** Whether a label in use names this member: by its channel's name and its upstream name. */
  predicate Names(channels: map<int, Channel>, active: string, member: Member) {
    var shown := TrimSpace(active);
    '/' in shown
    && NameOf(channels, member.channelId) == CutAt(shown).0
    && Upstream(MappingOf(channels, member.channelId), member.model) == CutAt(shown).1
  }

  function LabelOf(channels: map<int, Channel>, member: Member): string {
    NameOf(channels, member.channelId) + "/" + member.model
  }

  /** `j` is the first member that a label names. */
  predicate FirstNamed(channels: map<int, Channel>, active: string, members: seq<Member>, j: nat) {
    j < |members| && Names(channels, active, members[j]) && forall i :: 0 <= i < j ==> !Names(channels, active, members[i])
  }

  /** The label, cut at its first slash, is the name of the member's channel and the member's stored model. */
  predicate SpellsMember(channels: map<int, Channel>, text: string, member: Member) {
    '/' in text && CutAt(text) == (if member.channelId in channels then channels[member.channelId].name else "", member.model)
  }

  lemma LabelSpells(channels: map<int, Channel>, active: string, member: Member)
    requires Names(channels, active, member)
    ensures SpellsMember(channels, LabelOf(channels, member), member)
  {
    hide TrimSpace, Upstream, MappingOf;
    CutConcat(CutAt(TrimSpace(active)).0, member.model);
    hide CutAt;
  }

  predicate LabelReads(name: string) {
    '/' !in name && (name == "" || !IsSpace(name[0]))
  }

  lemma UpstreamIsTrimmed(m: Mapping, stored: string, lane: string)
    ensures TrimSpace(FormerUpstream(m, stored, lane)) == FormerUpstream(m, stored, lane)
  {
    hide TrimSpace;
    TrimSpaceTwice(stored);
    TrimSpaceTwice(lane);
    if TrimSpace(lane) in m { TrimSpaceTwice(m[TrimSpace(lane)]); }
  }

  /**
   A label spelled from a member's channel and former upstream name still finds that member after the rewrite, outside
   collisions, exactly when the channel's name holds no slash and does not begin with white space.
   */
  lemma FormerLabelFindsMember(channels: map<int, Channel>, lane: string, former: Member, now: Member)
    requires ChannelsOk(channels) && Rewritten(channels, lane, former, now)
    requires var m := MappingOf(channels, former.channelId); !Collides(m, former.model) && FormerUpstream(m, former.model, lane) != ""
    ensures var name := NameOf(channels, former.channelId);
      var up := FormerUpstream(MappingOf(channels, former.channelId), former.model, lane);
      Names(channels, name + "/" + up, now) <==> LabelReads(name)
  {
    hide Rewritten, Collides, FormerUpstream, IsSpace;
    var name := NameOf(channels, former.channelId);
    var up := FormerUpstream(MappingOf(channels, former.channelId), former.model, lane);
    RewrittenPreserves(channels, lane, former, now);
    assert now.channelId == former.channelId by { RewrittenKeepsChannel(channels, lane, former, now); }
    UpstreamIsTrimmed(MappingOf(channels, former.channelId), former.model, lane);
    LabelCuts(name, up);
  }

  /** A channel whose name holds a slash: the label of its member does not name the member. */
  lemma SlashedLabelIsLost(a: string, b: string, member: Member)
    requires a != "" && !IsSpace(a[0]) && '/' !in a && member.model != "" && TrimSpace(member.model) == member.model
    ensures var channels := map[member.channelId := Channel(a + "/" + b, map[])];
      !Names(channels, LabelOf(channels, member), member)
  {
    hide IsSpace, TrimSpace;
    var channels := map[member.channelId := Channel(a + "/" + b, map[])];
    LabelIsTrimmed(a + "/" + b, member.model);
    assert LabelOf(channels, member) == a + "/" + (b + "/" + member.model);
    CutConcat(a, b + "/" + member.model);
    hide CutAt;
    assert |a| != |a + "/" + b|;
  }

  lemma RewrittenKeepsChannel(channels: map<int, Channel>, lane: string, former: Member, now: Member)
    requires Rewritten(channels, lane, former, now)
    ensures now.channelId == former.channelId && now.id == former.id
  {
  }

  lemma LabelCuts(name: string, up: string)
    requires up != "" && TrimSpace(up) == up
    ensures var shown := TrimSpace(name + "/" + up); LabelReads(name) <==> '/' in shown && CutAt(shown) == (name, up)
  {
    var shown := TrimSpace(name + "/" + up);
    if LabelReads(name) {
      LabelIsTrimmed(name, up);
      CutConcat(name, up);
    }
    if '/' in shown && CutAt(shown) == (name, up) {
      CutIsReadable(name, up);
    }
  }

  lemma LabelIsTrimmed(name: string, up: string)
    requires up != "" && TrimSpace(up) == up && (name == "" || !IsSpace(name[0]))
    ensures TrimSpace(name + "/" + up) == name + "/" + up
  {
    hide IsSpace;
    var text := name + "/" + up;
    SlashIsNoSpace();
    assert text[|text| - 1] == up[|up| - 1];
    assert text[0] == if name == "" then '/' else name[0];
  }

  lemma CutIsReadable(name: string, up: string)
    requires var shown := TrimSpace(name + "/" + up); '/' in shown && CutAt(shown) == (name, up)
    ensures LabelReads(name)
  {
    hide IsSpace, TrimSpace;
    var text := name + "/" + up;
    TrimSpaceEnds(text);
    assert text[0] == if name == "" then '/' else name[0];
  }

  class Lane {
    const name: string
    var activeMember: string
    var members: seq<Member>

    constructor (name: string, activeMember: string, members: seq<Member>)
      ensures this.name == name && this.activeMember == activeMember && this.members == members
    {
      this.name, this.activeMember, this.members := name, activeMember, members;
    }

    static method Rewrite(channels: map<int, Channel>, name: string, member: Member) returns (now: Member)
      requires ChannelsOk(channels)
      ensures Rewritten(channels, name, member, now)
    {
      hide TrimSpace, IsFirstKey;
      var value := TrimSpace(member.model);
      var key := MappingKeyForValue(MappingOf(channels, member.channelId), value);
      if value == "" {
        value := name;
      } else if key != "" {
        value := key;
      }
      now := member.(model := value);
      assert now.model == Migrated(member.model, name, key);
    }

    /** Rewrites the members one by one. */
    method Backfill(channels: map<int, Channel>)
      requires ChannelsOk(channels)
      modifies `members
      ensures |members| == old(|members|)
      ensures forall j :: 0 <= j < |members| ==> Rewritten(channels, name, old(members)[j], members[j])
    {
      hide Rewritten, ChannelsOk;
      for i := 0 to |members|
        invariant |members| == old(|members|)
        invariant forall j :: 0 <= j < i ==> Rewritten(channels, name, old(members)[j], members[j])
        invariant forall j :: i <= j < |members| ==> members[j] == old(members)[j]
      {
        var now := Rewrite(channels, name, members[i]);
        members := members[i := now];
      }
    }

    /** Rewrites the label to that of the first member it names, if any. */
    method RewriteActiveMember(channels: map<int, Channel>)
      modifies `activeMember
      ensures (forall j :: 0 <= j < |members| ==> !Names(channels, old(activeMember), members[j])) ==> activeMember == old(activeMember)
      ensures forall j: nat :: FirstNamed(channels, old(activeMember), members, j) ==>
        || activeMember == LabelOf(channels, members[j])
        || (activeMember == old(activeMember) && TrimSpace(activeMember) == LabelOf(channels, members[j]))
      ensures forall j: nat :: FirstNamed(channels, old(activeMember), members, j) ==>
        || SpellsMember(channels, activeMember, members[j])
        || (activeMember == old(activeMember) && SpellsMember(channels, TrimSpace(activeMember), members[j]))
    {
      hide TrimSpace, Upstream, NameOf, MappingOf, SpellsMember, CutAt;
      var active := TrimSpace(activeMember);
      if '/' !in active {
        return;
      }
      var (channelName, upstream) := CutAt(active);
      for j := 0 to |members|
        invariant activeMember == old(activeMember)
        invariant forall i :: 0 <= i < j ==> !Names(channels, old(activeMember), members[i])
      {
        var member := members[j];
        if NameOf(channels, member.channelId) == channelName
           && Upstream(MappingOf(channels, member.channelId), member.model) == upstream {
          var newLabel := channelName + "/" + member.model;
          LabelSpells(channels, old(activeMember), member);
          if newLabel != active {
            activeMember := newLabel;
          }
          assert Names(channels, old(activeMember), members[j]);
          return;
        }
      }
    }
  }
}
