/**
 What happens to lanes when a channel stops declaring models, or is gone (model/lane.go):
 RemovedModelLaneRefs, CleanupLanesForRemovedModels and CleanupOrphanLaneMembers.
 */
module LaneCleanup {
  import opened GoStrings
  import opened NameOrder
  import opened Sets

  datatype Member = Member(laneId: int, channelId: int)

  /** The two tables by primary key; a lane's row is represented by its unique name. */
  datatype Db = Db(lanes: map<int, string>, members: map<int, Member>)

  predicate UniqueNames(lanes: map<int, string>) {
    forall a, b :: a in lanes && b in lanes && lanes[a] == lanes[b] ==> a == b
  }

  predicate HasMember(members: map<int, Member>, lane: int) {
    exists m :: m in members && members[m].laneId == lane
  }

  predicate HasMemberOf(members: map<int, Member>, lane: int, channel: int) {
    exists m :: m in members && members[m] == Member(lane, channel)
  }

  predicate IsRemoved(removed: seq<string>, lane: string) {
    var name := TrimSpace(lane);
    name != "" && exists i :: 0 <= i < |removed| && TrimSpace(removed[i]) == name
  }

  /** The lanes that lose a member when the channel drops these models. */
  predicate Hit(db: Db, channel: int, removed: seq<string>, lane: int) {
    lane in db.lanes && IsRemoved(removed, db.lanes[lane]) && HasMemberOf(db.members, lane, channel)
  }

  /** A lane is hit exactly when some removed name, trimmed, is its own, and the channel has a member in it. */
  lemma HitExactly(db: Db, channel: int, removed: seq<string>, lane: int)
    ensures Hit(db, channel, removed, lane) <==>
      && lane in db.lanes && TrimSpace(db.lanes[lane]) != ""
      && (exists i :: 0 <= i < |removed| && TrimSpace(removed[i]) == TrimSpace(db.lanes[lane]))
      && (exists m :: m in db.members && db.members[m].laneId == lane && db.members[m].channelId == channel)
  {
    hide TrimSpace;
    if m :| m in db.members && db.members[m].laneId == lane && db.members[m].channelId == channel {
      assert db.members[m] == Member(lane, channel);
    }
  }

  /** An ascending list of exactly the names of the lanes hit. */
  ghost predicate AreRefs(db: Db, channel: int, removed: seq<string>, names: seq<string>) {
    Ascending(names) && forall n :: n in names <==> exists l :: Hit(db, channel, removed, l) && db.lanes[l] == n
  }

  lemma NoneAscends()
    ensures Ascending([])
  {
  }

  /** RemovedModelLaneRefs. */
  method LaneRefs(db: Db, channel: int, removed: seq<string>) returns (names: seq<string>)
    ensures AreRefs(db, channel, removed, names)
  {
    hide IsRemoved, HasMemberOf, Insert, Ascending, Less;
    names := [];
    NoneAscends();
    var todo: set<int> := db.lanes.Keys;
    ghost var seen: set<int> := {};
    while todo != {}
      invariant todo + seen == db.lanes.Keys && Ascending(names)
      invariant forall n :: n in names <==> exists l :: l in seen && Hit(db, channel, removed, l) && db.lanes[l] == n
      decreases |todo|
    {
      ghost var some := SomeElement(todo);
      var l: int :| l in todo;
      if Hit(db, channel, removed, l) {
        InsertAscending(names, db.lanes[l]);
        forall n ensures n in Insert(names, db.lanes[l]) <==> n in names || n == db.lanes[l] {
          InsertMember(names, db.lanes[l], n);
        }
        names := Insert(names, db.lanes[l]);
      }
      todo, seen := todo - {l}, seen + {l};
    }
  }

  // ---------- dropping models ----------

  /** The channel's members in the given lanes are gone, and so are those of the lanes that this emptied. */
  function Cleaned(db: Db, channel: int, hit: set<int>): Db {
    var members := map m | m in db.members && !(db.members[m].channelId == channel && db.members[m].laneId in hit) :: db.members[m];
    Db(map l | l in db.lanes && (l !in hit || HasMember(members, l)) :: db.lanes[l], members)
  }

  /** One lane of the loop. */
  function CleanedLane(db: Db, channel: int, lane: int): Db {
    var members := map m | m in db.members && db.members[m] != Member(lane, channel) :: db.members[m];
    Db(if HasMember(members, lane) then db.lanes else db.lanes - {lane}, members)
  }

  lemma CleanOneMore(db: Db, channel: int, hit: set<int>, lane: int)
    requires lane !in hit
    ensures CleanedLane(Cleaned(db, channel, hit), channel, lane) == Cleaned(db, channel, hit + {lane})
  {
    var a := CleanedLane(Cleaned(db, channel, hit), channel, lane);
    var b := Cleaned(db, channel, hit + {lane});
    assert a.members == b.members;
    forall l | l in hit ensures HasMember(Cleaned(db, channel, hit).members, l) <==> HasMember(b.members, l) {
      OthersUntouched(Cleaned(db, channel, hit).members, b.members, lane, l, channel);
    }
    assert a.lanes == b.lanes;
  }

  lemma OthersUntouched(before: map<int, Member>, after: map<int, Member>, lane: int, other: int, channel: int)
    requires other != lane && after == map m | m in before && before[m] != Member(lane, channel) :: before[m]
    ensures HasMember(before, other) <==> HasMember(after, other)
  {
    if HasMember(before, other) {
      var m :| m in before && before[m].laneId == other;
      assert m in after;
    }
    if HasMember(after, other) {
      var m :| m in after && after[m].laneId == other;
      assert m in before;
    }
  }

  ghost function HitLanes(db: Db, channel: int, removed: seq<string>): set<int> {
    set l | l in db.lanes && Hit(db, channel, removed, l)
  }

  lemma NotHitAgain(db: Db, channel: int, removed: seq<string>, lane: int)
    ensures !Hit(Cleaned(db, channel, HitLanes(db, channel, removed)), channel, removed, lane)
  {
  }

  lemma FirstIsIn(names: seq<string>)
    ensures names == [] || names[0] in names
  {
  }

  /** After the clean-up the guard finds nothing. */
  lemma GuardIsSatisfied(db: Db, channel: int, removed: seq<string>, names: seq<string>)
    requires AreRefs(Cleaned(db, channel, HitLanes(db, channel, removed)), channel, removed, names)
    ensures names == []
  {
    hide Hit, Cleaned, HitLanes;
    forall l ensures !Hit(Cleaned(db, channel, HitLanes(db, channel, removed)), channel, removed, l) {
      NotHitAgain(db, channel, removed, l);
    }
    FirstIsIn(names);
  }

  /** Exactly the hit lanes left without members are gone, exactly the channel's members in hit lanes are gone, nothing else changed. */
  lemma CleanUpIsExact(db: Db, channel: int, removed: seq<string>, lane: int, member: int)
    requires lane in db.lanes && member in db.members
    ensures var db' := Cleaned(db, channel, HitLanes(db, channel, removed));
      && (lane !in db'.lanes <==>
            Hit(db, channel, removed, lane) && forall m :: m in db.members && db.members[m].laneId == lane ==> db.members[m].channelId == channel)
      && (lane in db'.lanes ==> db'.lanes[lane] == db.lanes[lane])
      && (member !in db'.members <==>
            db.members[member].channelId == channel && Hit(db, channel, removed, db.members[member].laneId))
      && (member in db'.members ==> db'.members[member] == db.members[member])
  {
    var db' := Cleaned(db, channel, HitLanes(db, channel, removed));
    if HasMember(db'.members, lane) {
      var m :| m in db'.members && db'.members[m].laneId == lane;
      assert db.members[m].laneId == lane;
    }
    if Hit(db, channel, removed, lane) && !HasMember(db'.members, lane) {
      forall m | m in db.members && db.members[m].laneId == lane ensures db.members[m].channelId == channel {
        assert m !in db'.members;
      }
    }
  }

  // ---------- members of channels that are gone ----------

  predicate HasOrphan(db: Db, channels: set<int>, lane: int) {
    exists m :: m in db.members && db.members[m].laneId == lane && db.members[m].channelId !in channels
  }

  /** Every member of a missing channel is gone, and every lane that this emptied. */
  function OrphansCleaned(db: Db, channels: set<int>): Db {
    var members := map m | m in db.members && db.members[m].channelId in channels :: db.members[m];
    Db(map l | l in db.lanes && (!HasOrphan(db, channels, l) || HasMember(members, l)) :: db.lanes[l], members)
  }

  /** What remains has an existing channel; a lane goes exactly when it had members and all of them were orphans. */
  lemma OrphanCleanUpIsExact(db: Db, channels: set<int>, lane: int, member: int)
    requires lane in db.lanes && member in db.members
    ensures var db' := OrphansCleaned(db, channels);
      && (member in db'.members <==> db.members[member].channelId in channels)
      && (member in db'.members ==> db'.members[member] == db.members[member])
      && (lane !in db'.lanes <==>
            HasMember(db.members, lane) && forall m :: m in db.members && db.members[m].laneId == lane ==> db.members[m].channelId !in channels)
      && (lane in db'.lanes ==> db'.lanes[lane] == db.lanes[lane])
  {
    var db' := OrphansCleaned(db, channels);
    if HasMember(db'.members, lane) {
      var m :| m in db'.members && db'.members[m].laneId == lane;
      assert db.members[m].laneId == lane && db.members[m].channelId in channels;
    }
    if !HasMember(db'.members, lane) {
      forall m | m in db.members && db.members[m].laneId == lane ensures db.members[m].channelId !in channels {
        assert m !in db'.members;
      }
    }
    if HasMember(db.members, lane) {
      var m :| m in db.members && db.members[m].laneId == lane;
      assert HasOrphan(db, channels, lane) || m in db'.members;
    }
  }

  /** Doing it again changes nothing. */
  lemma OrphanCleanUpTwice(db: Db, channels: set<int>)
    ensures OrphansCleaned(OrphansCleaned(db, channels), channels) == OrphansCleaned(db, channels)
  {
    var db' := OrphansCleaned(db, channels);
    assert OrphansCleaned(db', channels).members == db'.members;
    forall l ensures !HasOrphan(db', channels, l) {
    }
    assert OrphansCleaned(db', channels).lanes == db'.lanes;
  }

  function OrphanLanes(db: Db, channels: set<int>): set<int> {
    set l | l in db.lanes && HasOrphan(db, channels, l)
  }

  /** The lanes once those visited that have no member left are gone. */
  function OrphansGone(db: Db, members: map<int, Member>, visited: set<int>): map<int, string> {
    map l | l in db.lanes && (l !in visited || HasMember(members, l)) :: db.lanes[l]
  }

  lemma OrphanStep(db: Db, members: map<int, Member>, visited: set<int>, lane: int)
    requires lane in db.lanes && lane !in visited
    ensures var before := OrphansGone(db, members, visited); var now := OrphansGone(db, members, visited + {lane});
      lane in before && before[lane] == db.lanes[lane] && now == if HasMember(members, lane) then before else before - {lane}
  {
  }

  lemma AllOrphansGone(db: Db, channels: set<int>)
    ensures OrphansGone(db, OrphansCleaned(db, channels).members, OrphanLanes(db, channels)) == OrphansCleaned(db, channels).lanes
  {
  }

  lemma NothingListed(db: Db, members: map<int, Member>)
    ensures OrphansGone(db, members, {}) == db.lanes
    ensures forall now, present :: Lists([], db, {}, now, present)
  {
  }

  lemma ListsInserted(names: seq<string>, db: Db, hit: set<int>, before: map<int, string>, lane: int, now: map<int, string>, present: bool)
    requires Lists(names, db, hit, before, present) && lane !in hit && lane in db.lanes
    requires now == before || now == before - {lane}
    ensures Lists(if (lane in now) == present then Insert(names, db.lanes[lane]) else names, db, hit + {lane}, now, present)
  {
    hide Insert;
    forall n ensures n in Insert(names, db.lanes[lane]) <==> n in names || n == db.lanes[lane] {
      InsertMember(names, db.lanes[lane], n);
    }
  }

  /** The state of the loop once some of the lanes with orphans are visited. */
  ghost predicate Progress(db: Db, members: map<int, Member>, visited: set<int>, now: map<int, string>, cleaned: seq<string>, deleted: seq<string>) {
    && now == OrphansGone(db, members, visited)
    && Lists(cleaned, db, visited, now, true) && Lists(deleted, db, visited, now, false)
    && Ascending(cleaned) && Ascending(deleted)
  }

  lemma OrphansStart(db: Db, channels: set<int>)
    ensures OrphansCleaned(db, channels).members == map m | m in db.members && db.members[m].channelId in channels :: db.members[m]
    ensures Progress(db, OrphansCleaned(db, channels).members, {}, db.lanes, [], []) && OrphanLanes(db, channels) <= db.lanes.Keys
  {
    NothingListed(db, OrphansCleaned(db, channels).members);
    NoneAscends();
  }

  lemma ProgressMeans(db: Db, members: map<int, Member>, visited: set<int>, now: map<int, string>, cleaned: seq<string>, deleted: seq<string>)
    requires Progress(db, members, visited, now, cleaned, deleted)
    ensures now == OrphansGone(db, members, visited) && Ascending(cleaned) && Ascending(deleted)
    ensures Lists(cleaned, db, visited, now, true) && Lists(deleted, db, visited, now, false)
  {
  }

  lemma ProgressStep(db: Db, members: map<int, Member>, visited: set<int>, lane: int, now: map<int, string>, cleaned: seq<string>, deleted: seq<string>)
    requires Progress(db, members, visited, now, cleaned, deleted) && lane in db.lanes && lane !in visited
    ensures lane in now
    ensures var now' := if HasMember(members, lane) then now else now - {lane};
      Progress(db, members, visited + {lane}, now',
        if lane in now' then Insert(cleaned, now[lane]) else cleaned, if lane in now' then deleted else Insert(deleted, now[lane]))
  {
    hide Lists, Ascending, Insert, HasMember, OrphansGone;
    var now' := if HasMember(members, lane) then now else now - {lane};
    OrphanStep(db, members, visited, lane);
    ListsInserted(cleaned, db, visited, now, lane, now', true);
    ListsInserted(deleted, db, visited, now, lane, now', false);
    InsertAscending(cleaned, now[lane]);
    InsertAscending(deleted, now[lane]);
  }

  // ---------- the tables as an object ----------

  class LaneTables {
    var lanes: map<int, string>
    var members: map<int, Member>

    ghost function Contents(): Db
      reads this
    {
      Db(lanes, members)
    }

    constructor (lanes: map<int, string>, members: map<int, Member>)
      ensures Contents() == Db(lanes, members)
    {
      this.lanes, this.members := lanes, members;
    }

    /** The body of the loop: removes the channel's members of a lane, and the lane if none are left. */
    method CleanLane(lane: int, channel: int) returns (kept: bool)
      requires lane in lanes
      modifies this
      ensures Contents() == CleanedLane(old(Contents()), channel, lane)
      ensures lanes == (if kept then old(lanes) else old(lanes) - {lane})
    {
      members := map m | m in members && members[m] != Member(lane, channel) :: members[m];
      kept := HasMember(members, lane);
      if !kept {
        lanes := lanes - {lane};
      }
    }

    /** CleanupOrphanLaneMembers, given which channels exist. */
    method CleanupOrphans(channels: set<int>) returns (cleaned: seq<string>, deleted: seq<string>)
      modifies this
      ensures Contents() == OrphansCleaned(old(Contents()), channels)
      ensures Lists(cleaned, old(Contents()), OrphanLanes(old(Contents()), channels), lanes, true)
      ensures Lists(deleted, old(Contents()), OrphanLanes(old(Contents()), channels), lanes, false)
      ensures Ascending(cleaned) && Ascending(deleted)
    {
      hide Progress, Lists, Ascending, Insert, Less, HasMember, HasOrphan, OrphanLanes, OrphansCleaned, OrphansGone;
      ghost var db := Contents();
      var todo: set<int> := OrphanLanes(Db(lanes, members), channels);
      OrphansStart(db, channels);
      members := map m | m in members && members[m].channelId in channels :: members[m];
      cleaned, deleted := [], [];
      ghost var done: set<int> := {};
      while todo != {}
        invariant todo + done == OrphanLanes(db, channels) && todo !! done && members == OrphansCleaned(db, channels).members
        invariant Progress(db, members, done, lanes, cleaned, deleted)
        decreases |todo|
      {
        ghost var some := SomeElement(todo);
        var lane: int :| lane in todo;
        ProgressStep(db, members, done, lane, lanes, cleaned, deleted);
        var name := lanes[lane];
        if !HasMember(members, lane) {
          lanes := lanes - {lane};
        }
        if lane in lanes {
          cleaned := Insert(cleaned, name);
        } else {
          deleted := Insert(deleted, name);
        }
        todo, done := todo - {lane}, done + {lane};
      }
      AllOrphansGone(db, channels);
      ProgressMeans(db, members, done, lanes, cleaned, deleted);
    }

    method LaneByName(name: string) returns (lane: int)
      requires exists l :: l in lanes && lanes[l] == name
      ensures lane in lanes && lanes[lane] == name
    {
      lane :| lane in lanes && lanes[lane] == name;
    }

    /** CleanupLanesForRemovedModels; the two results part the guard's list. */
    method CleanupForRemovedModels(channel: int, removed: seq<string>) returns (cleaned: seq<string>, deleted: seq<string>)
      requires UniqueNames(lanes)
      modifies this
      ensures Contents() == Cleaned(old(Contents()), channel, HitLanes(old(Contents()), channel, removed))
      ensures Lists(cleaned, old(Contents()), HitLanes(old(Contents()), channel, removed), lanes, true)
      ensures Lists(deleted, old(Contents()), HitLanes(old(Contents()), channel, removed), lanes, false)
      ensures Ascending(cleaned) && Ascending(deleted)
    {
      ghost var db := Contents();
      var names := LaneRefs(Db(lanes, members), channel, removed);
      cleaned, deleted := [], [];
      ghost var done: set<int> := {};
      NothingCleaned(db, channel);
      NoneAscends();
      assert Ascending(names);
      hide Cleaned, CleanedLane, HitLanes, Lists, Hit, UniqueNames, Visited, AreRefs, Ascending, Less;
      for i := 0 to |names|
        invariant Contents() == Cleaned(db, channel, done)
        invariant Visited(db, channel, removed, names[..i], done)
        invariant done <= db.lanes.Keys
        invariant Lists(cleaned, db, done, lanes, true) && Lists(deleted, db, done, lanes, false)
        invariant AscendingIn(cleaned, names[..i]) && AscendingIn(deleted, names[..i])
      {
        ghost var before := lanes;
        AscendingAppend(cleaned, names, i);
        AscendingAppend(deleted, names, i);
        StillThere(db, channel, removed, names, i, done);
        var lane := LaneByName(names[i]);
        var kept := CleanLane(lane, channel);
        CleanedKeepsNames(db, channel, done, lane);
        CleanOneMore(db, channel, done, lane);
        ListsOneMore(cleaned, db, done, before, lane, lanes, true);
        ListsOneMore(deleted, db, done, before, lane, lanes, false);
        if kept {
          cleaned := cleaned + [names[i]];
        } else {
          deleted := deleted + [names[i]];
        }
        VisitOneMore(db, channel, removed, names, i, done, lane);
        done := done + {lane};
      }
      assert names[..|names|] == names;
      AllHit(db, channel, removed, names, done);
    }
  }

  /** The names, in the original table, of those lanes among `hit` that are, or are not, in the table now. */
  ghost predicate Lists(names: seq<string>, db: Db, hit: set<int>, now: map<int, string>, present: bool) {
    forall n :: n in names <==> exists l :: l in hit && l in db.lanes && db.lanes[l] == n && (l in now) == present
  }

  predicate AscendingIn(s: seq<string>, names: seq<string>) {
    Ascending(s) && forall i :: 0 <= i < |s| ==> s[i] in names
  }

  lemma AscendingAppend(s: seq<string>, names: seq<string>, i: nat)
    requires i < |names| && Ascending(names) && AscendingIn(s, names[..i])
    ensures AscendingIn(s, names[..i + 1]) && AscendingIn(s + [names[i]], names[..i + 1])
  {
    hide Less;
    assert names[..i + 1] == names[..i] + [names[i]];
    forall k | 0 <= k < |s| ensures Less(s[k], names[i]) {
      var j :| 0 <= j < i && names[j] == s[k];
    }
  }

  lemma ListsOneMore(names: seq<string>, db: Db, hit: set<int>, before: map<int, string>, lane: int, now: map<int, string>, present: bool)
    requires Lists(names, db, hit, before, present) && lane !in hit && lane in db.lanes
    requires now == before || now == before - {lane}
    ensures Lists(if (lane in now) == present then names + [db.lanes[lane]] else names, db, hit + {lane}, now, present)
  {
  }

  lemma AllHit(db: Db, channel: int, removed: seq<string>, names: seq<string>, done: set<int>)
    requires AreRefs(db, channel, removed, names)
    requires Visited(db, channel, removed, names, done)
    ensures done == HitLanes(db, channel, removed)
  {
    hide IsRemoved, HasMemberOf;
    forall l | l in HitLanes(db, channel, removed) ensures l in done {
      assert Hit(db, channel, removed, l) && db.lanes[l] in names;
    }
    assert HitLanes(db, channel, removed) <= done;
    forall l | l in done ensures l in HitLanes(db, channel, removed) {
    }
    assert done <= HitLanes(db, channel, removed);
  }

  /** The lanes hit whose names are in the list. */
  ghost predicate Visited(db: Db, channel: int, removed: seq<string>, names: seq<string>, done: set<int>) {
    forall l :: l in done <==> Hit(db, channel, removed, l) && db.lanes[l] in names
  }

  lemma VisitOneMore(db: Db, channel: int, removed: seq<string>, names: seq<string>, i: nat, done: set<int>, lane: int)
    requires UniqueNames(db.lanes) && i < |names| && Visited(db, channel, removed, names[..i], done)
    requires Hit(db, channel, removed, lane) && db.lanes[lane] == names[i]
    ensures Visited(db, channel, removed, names[..i + 1], done + {lane})
  {
    hide IsRemoved, HasMemberOf;
    assert names[..i + 1] == names[..i] + [names[i]];
  }

  lemma NothingCleaned(db: Db, channel: int)
    ensures Cleaned(db, channel, {}) == db && forall now, present :: Lists([], db, {}, now, present)
    ensures forall removed :: Visited(db, channel, removed, [], {})
  {
  }

  lemma CleanedKeepsNames(db: Db, channel: int, hit: set<int>, lane: int)
    requires lane in Cleaned(db, channel, hit).lanes
    ensures lane in db.lanes && db.lanes[lane] == Cleaned(db, channel, hit).lanes[lane]
  {
  }

  /** The lane of a name not yet visited is still in the table. */
  lemma StillThere(db: Db, channel: int, removed: seq<string>, names: seq<string>, i: nat, done: set<int>)
    requires UniqueNames(db.lanes) && AreRefs(db, channel, removed, names) && i < |names|
    requires Visited(db, channel, removed, names[..i], done)
    ensures exists l :: l in Cleaned(db, channel, done).lanes && Cleaned(db, channel, done).lanes[l] == names[i]
    ensures forall l :: l in db.lanes && db.lanes[l] == names[i] ==> l !in done && Hit(db, channel, removed, l)
  {
    assert names[i] in names;
    var l :| Hit(db, channel, removed, l) && db.lanes[l] == names[i];
    assert names[i] !in names[..i] by {
      LessIrreflexive(names[i]);
    }
    assert l in Cleaned(db, channel, done).lanes;
  }
}
