/** Notification counts of the spaces: an index recursion over the rooms, against sums. */
module SpaceCounter {
  import opened Basics
  import PushRules

  // ---------- The counters ----------

  datatype State = State(favourite: nat, favouriteHighlight: nat, direct: nat, directHighlight: nat,
                         group: nat, groupHighlight: nat) {
    function AllCount(): nat { favourite + direct + group }
    function AllHighlightCount(): nat { favouriteHighlight + directHighlight + groupHighlight }

    function Get(c: Counter): nat {
      match c
      case Favourite => favourite
      case FavouriteHighlight => favouriteHighlight
      case Direct => direct
      case DirectHighlight => directHighlight
      case Group => group
      case GroupHighlight => groupHighlight
    }
  }

  datatype Counter = Favourite | FavouriteHighlight | Direct | DirectHighlight | Group | GroupHighlight

  const ZERO := State(0, 0, 0, 0, 0, 0)

  function Plus(l: State, r: State): (s: State)
    ensures forall c :: s.Get(c) == l.Get(c) + r.Get(c)
  {
    State(l.favourite + r.favourite, l.favouriteHighlight + r.favouriteHighlight,
          l.direct + r.direct, l.directHighlight + r.directHighlight,
          l.group + r.group, l.groupHighlight + r.groupHighlight)
  }

  // `+` is a commutative monoid, so `+=` may run in any order.
  lemma PlusLaws(a: State, b: State, d: State)
    ensures Plus(a, b) == Plus(b, a)
    ensures Plus(Plus(a, b), d) == Plus(a, Plus(b, d))
    ensures Plus(a, ZERO) == a
    ensures Plus(a, b).AllCount() == a.AllCount() + b.AllCount()
    ensures Plus(a, b).AllHighlightCount() == a.AllHighlightCount() + b.AllHighlightCount()
  {
  }

  // ---------- Sums ----------

  function Total<T>(f: T -> nat, items: seq<T>): nat {
    if items == [] then 0 else f(items[0]) + Total(f, items[1..])
  }

  lemma TotalOne<T>(f: T -> nat, x: T)
    ensures Total(f, [x]) == f(x)
  {
  }

  lemma {:induction false} TotalConcat<T>(f: T -> nat, a: seq<T>, b: seq<T>)
    ensures Total(f, a + b) == Total(f, a) + Total(f, b)
  {
    if a == [] {
      assert a + b == b;
    } else {
      assert (a + b)[1..] == a[1..] + b;
      TotalConcat(f, a[1..], b);
    }
  }

  lemma TotalSplit<T>(f: T -> nat, items: seq<T>, i: nat)
    requires i < |items|
    ensures Total(f, items) == f(items[i]) + Total(f, items[..i] + items[i+1..])
  {
    assert items == items[..i] + ([items[i]] + items[i+1..]);
    TotalConcat(f, items[..i], [items[i]] + items[i+1..]);
    TotalConcat(f, items[..i], items[i+1..]);
    assert ([items[i]] + items[i+1..])[1..] == items[i+1..];
  }

  lemma Without<T>(b: seq<T>, i: nat)
    requires i < |b|
    ensures multiset(b[..i] + b[i+1..]) == multiset(b) - multiset{b[i]}
  {
    assert b == b[..i] + ([b[i]] + b[i+1..]);
  }

  lemma TakeOut<T>(a: seq<T>, b: seq<T>) returns (i: nat)
    requires multiset(a) == multiset(b) && a != []
    ensures i < |b| && b[i] == a[0]
    ensures multiset(a[1..]) == multiset(b[..i] + b[i+1..])
  {
    assert a[0] in multiset(b);
    i :| 0 <= i < |b| && b[i] == a[0];
    Without(b, i);
    assert a == [a[0]] + a[1..];
    assert multiset(a[1..]) == multiset(a) - multiset{a[0]};
  }

  // A sum does not depend on the order of its terms.
  lemma {:induction false} TotalPermutation<T>(f: T -> nat, a: seq<T>, b: seq<T>)
    requires multiset(a) == multiset(b)
    ensures Total(f, a) == Total(f, b)
    decreases |a|
  {
    if a == [] {
      assert |multiset(b)| == |b|;
    } else {
      var i := TakeOut(a, b);
      TotalPermutation(f, a[1..], b[..i] + b[i+1..]);
      TotalSplit(f, b, i);
    }
  }

  lemma {:induction false} TotalAdds<T>(f: T -> nat, g: T -> nat, h: T -> nat, items: seq<T>)
    requires forall x | x in items :: h(x) == f(x) + g(x)
    ensures Total(h, items) == Total(f, items) + Total(g, items)
  {
    if items != [] { TotalAdds(f, g, h, items[1..]); }
  }

  lemma {:induction false} TotalSame<T>(f: T -> nat, g: T -> nat, items: seq<T>)
    requires forall x | x in items :: f(x) == g(x)
    ensures Total(f, items) == Total(g, items)
  {
    if items != [] { TotalSame(f, g, items[1..]); }
  }

  lemma {:induction false} TotalOfZeros<T>(f: T -> nat, items: seq<T>)
    requires forall x | x in items :: f(x) == 0
    ensures Total(f, items) == 0
  {
    if items != [] { TotalOfZeros(f, items[1..]); }
  }

  lemma {:induction false} TotalMonotone<T>(f: T -> nat, g: T -> nat, items: seq<T>)
    requires forall x | x in items :: f(x) <= g(x)
    ensures Total(f, items) <= Total(g, items)
  {
    if items != [] { TotalMonotone(f, g, items[1..]); }
  }

  // ---------- The rooms ----------

  const FAVOURITE := "m.favourite"

  // A room with its summary.
  datatype Room = Room(isSpace: bool, tags: Option<set<string>>, highlights: nat, notifications: nat,
                       isDirect: bool, invited: bool)

  // What the session answers during one computation.
  datatype Snapshot = Snapshot(rooms: map<string, Room>, rules: Option<seq<PushRules.Rule>>,
                               ancestors: map<string, set<string>>)

  predicate Counted(snap: Snapshot, roomId: string) {
    roomId in snap.rooms && !snap.rooms[roomId].isSpace
  }

  predicate IsFavourite(room: Room) { room.tags.Some? && FAVOURITE in room.tags.value }

  predicate Untagged(room: Room) { room.tags.None? || room.tags.value == {} }

  predicate Unread(room: Room, mentionsOnly: bool) {
    (if mentionsOnly then room.highlights else room.notifications) > 0
  }

  // What one room adds, category by category.
  function RoomState(room: Room, mentionsOnly: bool): State {
    var unread := Unread(room, mentionsOnly);
    var n := if unread then room.notifications else if room.invited then 1 else 0;
    var h := if unread then room.highlights else if room.invited then 1 else 0;
    var favourite := unread && IsFavourite(room);
    var group := !room.isDirect && (unread ==> Untagged(room) || IsFavourite(room));
    State(if favourite then n else 0, if favourite then h else 0,
          if room.isDirect then n else 0, if room.isDirect then h else 0,
          if group then n else 0, if group then h else 0)
  }

  // Category by category: a room counts by its notifications, or by its highlights when it is mentions-only; only a
  // positive count adds anything, but for an invite, which adds one.
  lemma RoomCategories(room: Room, mentionsOnly: bool)
    ensures
      var s := RoomState(room, mentionsOnly);
      var n, h := room.notifications, room.highlights;
      var favourite := room.tags.Some? && "m.favourite" in room.tags.value;
      if (if mentionsOnly then h else n) == 0 then
        s == if !room.invited then State(0, 0, 0, 0, 0, 0)
             else if room.isDirect then State(0, 0, 1, 1, 0, 0) else State(0, 0, 0, 0, 1, 1)
      else
        && (s.favourite, s.favouriteHighlight) == (if favourite then (n, h) else (0, 0))
        && (s.direct, s.directHighlight) == (if room.isDirect then (n, h) else (0, 0))
        && (s.group, s.groupHighlight) ==
             (if !room.isDirect && (room.tags.None? || room.tags.value == {} || favourite) then (n, h) else (0, 0))
    ensures mentionsOnly && room.highlights == 0 && !room.invited ==> RoomState(room, mentionsOnly) == ZERO
  {
  }

  // A room adds its notifications to the overall count once, twice when it is a favourite, and never when it is
  // an unread group with other tags only; an unread-free invite adds one.
  lemma RoomCounts(room: Room, mentionsOnly: bool)
    ensures Unread(room, mentionsOnly) ==>
      RoomState(room, mentionsOnly).AllCount() ==
        if IsFavourite(room) then room.notifications + room.notifications
        else if room.isDirect || Untagged(room) then room.notifications else 0
    ensures Unread(room, mentionsOnly) ==>
      RoomState(room, mentionsOnly).AllHighlightCount() ==
        if IsFavourite(room) then room.highlights + room.highlights
        else if room.isDirect || Untagged(room) then room.highlights else 0
    ensures !Unread(room, mentionsOnly) ==>
      && RoomState(room, mentionsOnly).favourite == 0
      && RoomState(room, mentionsOnly).AllCount() == RoomState(room, mentionsOnly).AllHighlightCount()
      && RoomState(room, mentionsOnly).AllCount() == if room.invited then 1 else 0
    ensures RoomState(room, mentionsOnly).direct > 0 ==> room.isDirect
    ensures RoomState(room, mentionsOnly).group > 0 ==> !room.isDirect
    ensures RoomState(room, mentionsOnly).favourite > 0 ==> IsFavourite(room)
  {
  }

  function Contribution(snap: Snapshot, roomId: string): State
    requires Counted(snap, roomId)
  {
    RoomState(snap.rooms[roomId], PushRules.CounterMentionsOnly(snap.rules, roomId))
  }

  predicate Under(snap: Snapshot, roomId: string, spaceId: string) {
    Counted(snap, roomId) && roomId in snap.ancestors && spaceId in snap.ancestors[roomId]
  }

  function HomeShare(snap: Snapshot, c: Counter, roomId: string): nat {
    if Counted(snap, roomId) then Contribution(snap, roomId).Get(c) else 0
  }

  function SpaceShare(snap: Snapshot, c: Counter, spaceId: string, roomId: string): nat {
    if Under(snap, roomId, spaceId) then Contribution(snap, roomId).Get(c) else 0
  }

  // A room the session does not know, and a space, add nothing anywhere; any other room adds the same to the home
  // state and to each of its ancestors, and nothing to any other space.
  lemma SharesIff(snap: Snapshot, c: Counter, spaceId: string, roomId: string)
    ensures roomId !in snap.rooms || snap.rooms[roomId].isSpace ==>
      HomeShare(snap, c, roomId) == 0 && SpaceShare(snap, c, spaceId, roomId) == 0
    ensures roomId in snap.rooms && !snap.rooms[roomId].isSpace ==>
      && HomeShare(snap, c, roomId) ==
           RoomState(snap.rooms[roomId], PushRules.CounterMentionsOnly(snap.rules, roomId)).Get(c)
      && SpaceShare(snap, c, spaceId, roomId) ==
           if roomId in snap.ancestors && spaceId in snap.ancestors[roomId] then HomeShare(snap, c, roomId) else 0
  {
  }

  // The counters, as sums over the rooms.
  function HomeTotal(snap: Snapshot, c: Counter, roomIds: seq<string>): nat {
    Total(roomId => HomeShare(snap, c, roomId), roomIds)
  }

  function SpaceTotal(snap: Snapshot, c: Counter, spaceId: string, roomIds: seq<string>): nat {
    Total(roomId => SpaceShare(snap, c, spaceId, roomId), roomIds)
  }

  predicate Populated(snap: Snapshot, spaceId: string, roomIds: seq<string>) {
    exists roomId :: roomId in roomIds && Under(snap, roomId, spaceId)
  }

  function Occurrences(ids: seq<string>, id: string): nat {
    if ids == [] then 0 else (if ids[0] == id then 1 else 0) + Occurrences(ids[1..], id)
  }

  lemma TotalsOfConcat(snap: Snapshot, c: Counter, spaceId: string, a: seq<string>, b: seq<string>)
    ensures HomeTotal(snap, c, a + b) == HomeTotal(snap, c, a) + HomeTotal(snap, c, b)
    ensures SpaceTotal(snap, c, spaceId, a + b) == SpaceTotal(snap, c, spaceId, a) + SpaceTotal(snap, c, spaceId, b)
    ensures Populated(snap, spaceId, a + b) <==> Populated(snap, spaceId, a) || Populated(snap, spaceId, b)
  {
    TotalConcat(roomId => HomeShare(snap, c, roomId), a, b);
    TotalConcat(roomId => SpaceShare(snap, c, spaceId, roomId), a, b);
    assert forall x :: x in a + b <==> x in a || x in b;
  }

  lemma TotalsOfOne(snap: Snapshot, c: Counter, spaceId: string, roomId: string)
    ensures HomeTotal(snap, c, [roomId]) == HomeShare(snap, c, roomId)
    ensures SpaceTotal(snap, c, spaceId, [roomId]) == SpaceShare(snap, c, spaceId, roomId)
    ensures Populated(snap, spaceId, [roomId]) <==> Under(snap, roomId, spaceId)
  {
    TotalOne(r => HomeShare(snap, c, r), roomId);
    TotalOne(r => SpaceShare(snap, c, spaceId, r), roomId);
    assert roomId in [roomId];
  }

  // ---------- Order independence, conservation ----------

  lemma OrderOfRoomsIsInvisible(snap: Snapshot, c: Counter, spaceId: string, a: seq<string>, b: seq<string>)
    requires multiset(a) == multiset(b)
    ensures HomeTotal(snap, c, a) == HomeTotal(snap, c, b)
    ensures SpaceTotal(snap, c, spaceId, a) == SpaceTotal(snap, c, spaceId, b)
    ensures Populated(snap, spaceId, a) == Populated(snap, spaceId, b)
  {
    TotalPermutation(roomId => HomeShare(snap, c, roomId), a, b);
    TotalPermutation(roomId => SpaceShare(snap, c, spaceId, roomId), a, b);
    forall id ensures id in a <==> id in b { assert id in a <==> id in multiset(a); }
  }

  // How many of the listed spaces are ancestors of a counted room.
  function Listed(snap: Snapshot, spaceIds: seq<string>, roomId: string): nat {
    if spaceIds == [] then 0
    else (if Under(snap, roomId, spaceIds[0]) then 1 else 0) + Listed(snap, spaceIds[1..], roomId)
  }

  // All spaces, space by space.
  function BySpace(snap: Snapshot, c: Counter, spaceIds: seq<string>, roomIds: seq<string>): nat {
    if spaceIds == [] then 0
    else SpaceTotal(snap, c, spaceIds[0], roomIds) + BySpace(snap, c, spaceIds[1..], roomIds)
  }

  // All spaces, room by room: each room once per listed ancestor.
  function ByRoom(snap: Snapshot, c: Counter, spaceIds: seq<string>, roomIds: seq<string>): nat {
    Total(roomId => Times(Listed(snap, spaceIds, roomId), HomeShare(snap, c, roomId)), roomIds)
  }

  lemma ByRoomSplits(snap: Snapshot, c: Counter, spaceIds: seq<string>, roomIds: seq<string>)
    requires spaceIds != []
    ensures ByRoom(snap, c, spaceIds, roomIds) ==
            SpaceTotal(snap, c, spaceIds[0], roomIds) + ByRoom(snap, c, spaceIds[1..], roomIds)
  {
    var first := roomId => SpaceShare(snap, c, spaceIds[0], roomId);
    var others := roomId => Times(Listed(snap, spaceIds[1..], roomId), HomeShare(snap, c, roomId));
    var all := roomId => Times(Listed(snap, spaceIds, roomId), HomeShare(snap, c, roomId));
    forall roomId | roomId in roomIds ensures all(roomId) == first(roomId) + others(roomId) {
      var one := if Under(snap, roomId, spaceIds[0]) then 1 else 0;
      Distribute(one, Listed(snap, spaceIds[1..], roomId), HomeShare(snap, c, roomId));
    }
    TotalAdds(first, others, all, roomIds);
  }

  // Both ways of counting give the same.
  lemma {:induction false} SpacesTotal(snap: Snapshot, c: Counter, spaceIds: seq<string>, roomIds: seq<string>)
    ensures BySpace(snap, c, spaceIds, roomIds) == ByRoom(snap, c, spaceIds, roomIds)
  {
    if spaceIds == [] {
      TotalOfZeros(roomId => Times(Listed(snap, spaceIds, roomId), HomeShare(snap, c, roomId)), roomIds);
    } else {
      SpacesTotal(snap, c, spaceIds[1..], roomIds);
      ByRoomSplits(snap, c, spaceIds, roomIds);
    }
  }

  function Times(n: nat, x: nat): nat { if n == 0 then 0 else x + Times(n - 1, x) }

  lemma {:induction false} Distribute(m: nat, n: nat, x: nat)
    ensures Times(m + n, x) == Times(m, x) + Times(n, x)
  {
    if m > 0 { Distribute(m - 1, n, x); }
  }

  lemma {:induction false} DistributeOver(n: nat, x: nat, y: nat)
    ensures Times(n, x + y) == Times(n, x) + Times(n, y)
  {
    if n > 0 { DistributeOver(n - 1, x, y); }
  }

  lemma TimesZero(n: nat)
    ensures Times(n, 0) == 0
  {
  }

  function Highlights(c: Counter): Counter {
    match c
    case Favourite => FavouriteHighlight
    case Direct => DirectHighlight
    case Group => GroupHighlight
    case _ => c
  }

  // Highlights stay among the notifications, in every category and overall.
  lemma TotalsAreSane(snap: Snapshot, c: Counter, roomIds: seq<string>, spaceId: string)
    requires forall id | id in snap.rooms :: snap.rooms[id].highlights <= snap.rooms[id].notifications
    ensures HomeTotal(snap, Highlights(c), roomIds) <= HomeTotal(snap, c, roomIds)
    ensures SpaceTotal(snap, Highlights(c), spaceId, roomIds) <= SpaceTotal(snap, c, spaceId, roomIds)
  {
    TotalMonotone(id => HomeShare(snap, Highlights(c), id), id => HomeShare(snap, c, id), roomIds);
    TotalMonotone(id => SpaceShare(snap, Highlights(c), spaceId, id), id => SpaceShare(snap, c, spaceId, id), roomIds);
  }

  // ---------- The counter ----------

  class ComputeDataResult {
    var homeNotificationState: State
    var notificationStatePerSpaceId: map<string, State>

    constructor ()
      ensures homeNotificationState == ZERO && notificationStatePerSpaceId == map[]
    {
      homeNotificationState, notificationStatePerSpaceId := ZERO, map[];
    }
  }

  function Entry(m: map<string, State>, s: string, c: Counter): nat {
    if s in m then m[s].Get(c) else 0
  }

  // `after` has the entries of `before`, and one for each listed space that the rooms populate.
  ghost predicate Entered(snap: Snapshot, spaceIds: seq<string>, roomIds: seq<string>,
                          before: map<string, State>, after: map<string, State>) {
    forall s :: s in after <==> s in before || (s in spaceIds && Populated(snap, s, roomIds))
  }

  // Each entry grew by what the rooms add to the space, per occurrence of the space in the list.
  ghost predicate Grown(snap: Snapshot, spaceIds: seq<string>, roomIds: seq<string>,
                        before: map<string, State>, after: map<string, State>) {
    forall s, c :: Entry(after, s, c) ==
      Entry(before, s, c) + Times(Occurrences(spaceIds, s), SpaceTotal(snap, c, s, roomIds))
  }

  ghost predicate Accumulated(snap: Snapshot, spaceIds: seq<string>, roomIds: seq<string>,
                              before: map<string, State>, after: map<string, State>) {
    Entered(snap, spaceIds, roomIds, before, after) && Grown(snap, spaceIds, roomIds, before, after)
  }

  method ComputeNotificationState(room: Room, isMentionOnly: bool) returns (state: State)
    ensures state == RoomState(room, isMentionOnly)
  {
    state := ZERO;
    var notificationCount := if isMentionOnly then room.highlights else room.notifications;
    if notificationCount > 0 {
      if room.tags.Some? && FAVOURITE in room.tags.value {
        state := state.(favourite := state.favourite + room.notifications,
                        favouriteHighlight := state.favouriteHighlight + room.highlights);
      }
      if room.isDirect {
        state := state.(direct := state.direct + room.notifications,
                        directHighlight := state.directHighlight + room.highlights);
      } else if room.tags.None? || room.tags.value == {} || FAVOURITE in room.tags.value {
        state := state.(group := state.group + room.notifications,
                        groupHighlight := state.groupHighlight + room.highlights);
      }
    } else if room.invited {
      if room.isDirect {
        state := state.(direct := state.direct + 1, directHighlight := state.directHighlight + 1);
      } else {
        state := state.(group := state.group + 1, groupHighlight := state.groupHighlight + 1);
      }
    }
  }

  // What the loop body does to the map for one space.
  function WithSpace(snap: Snapshot, roomId: string, spaceId: string, m: map<string, State>): map<string, State>
    requires Counted(snap, roomId)
  {
    if Under(snap, roomId, spaceId)
    then m[spaceId := Plus(if spaceId in m then m[spaceId] else ZERO, Contribution(snap, roomId))] else m
  }

  lemma WithSpaceEntry(snap: Snapshot, roomId: string, spaceId: string, m: map<string, State>, s: string, c: Counter)
    requires Counted(snap, roomId)
    ensures Entry(WithSpace(snap, roomId, spaceId, m), s, c) ==
            Entry(m, s, c) + Times(if s == spaceId then 1 else 0, SpaceTotal(snap, c, s, [roomId]))
  {
    TotalsOfOne(snap, c, s, roomId);
  }

  lemma EnteredNextSpace(snap: Snapshot, spaceIds: seq<string>, i: nat, roomId: string,
                         before: map<string, State>, middle: map<string, State>)
    requires i < |spaceIds| && Counted(snap, roomId)
    requires Entered(snap, spaceIds[..i], [roomId], before, middle)
    ensures Entered(snap, spaceIds[..i+1], [roomId], before, WithSpace(snap, roomId, spaceIds[i], middle))
  {
    assert spaceIds[..i+1] == spaceIds[..i] + [spaceIds[i]];
    forall s ensures Populated(snap, s, [roomId]) <==> Under(snap, roomId, s) { TotalsOfOne(snap, Direct, s, roomId); }
  }

  lemma GrownNextSpace(snap: Snapshot, spaceIds: seq<string>, i: nat, roomId: string,
                       before: map<string, State>, middle: map<string, State>)
    requires i < |spaceIds| && Counted(snap, roomId)
    requires Grown(snap, spaceIds[..i], [roomId], before, middle)
    ensures Grown(snap, spaceIds[..i+1], [roomId], before, WithSpace(snap, roomId, spaceIds[i], middle))
  {
    forall s, c
      ensures Entry(WithSpace(snap, roomId, spaceIds[i], middle), s, c) ==
        Entry(before, s, c) + Times(Occurrences(spaceIds[..i+1], s), SpaceTotal(snap, c, s, [roomId]))
    {
      WithSpaceEntry(snap, roomId, spaceIds[i], middle, s, c);
      OccurrencesNext(spaceIds, i, s);
      Distribute(Occurrences(spaceIds[..i], s), if s == spaceIds[i] then 1 else 0, SpaceTotal(snap, c, s, [roomId]));
    }
  }

  // One room: the loop over the spaces.
  method AddRoom(snap: Snapshot, spaceIds: seq<string>, roomId: string, output: ComputeDataResult)
    requires Counted(snap, roomId)
    modifies output
    ensures output.homeNotificationState == Plus(old(output.homeNotificationState), Contribution(snap, roomId))
    ensures Accumulated(snap, spaceIds, [roomId],
                        old(output.notificationStatePerSpaceId), output.notificationStatePerSpaceId)
  {
    var room := snap.rooms[roomId];
    var isMentionOnly := PushRules.IsRoomMentionsOnlyInCounter(snap.rules, roomId);
    var state := ComputeNotificationState(room, isMentionOnly);
    output.homeNotificationState := Plus(output.homeNotificationState, state);
    ghost var before := output.notificationStatePerSpaceId;
    for i := 0 to |spaceIds|
      invariant output.homeNotificationState == Plus(old(output.homeNotificationState), Contribution(snap, roomId))
      invariant Accumulated(snap, spaceIds[..i], [roomId], before, output.notificationStatePerSpaceId)
    {
      var spaceId := spaceIds[i];
      ghost var middle := output.notificationStatePerSpaceId;
      if roomId in snap.ancestors && spaceId in snap.ancestors[roomId] {
        var storedState := if spaceId in output.notificationStatePerSpaceId
          then output.notificationStatePerSpaceId[spaceId] else ZERO;
        output.notificationStatePerSpaceId := output.notificationStatePerSpaceId[spaceId := Plus(storedState, state)];
      }
      EnteredNextSpace(snap, spaceIds, i, roomId, before, middle);
      GrownNextSpace(snap, spaceIds, i, roomId, before, middle);
    }
    assert spaceIds[..|spaceIds|] == spaceIds;
  }

  lemma OccurrencesConcat(a: seq<string>, b: seq<string>, id: string)
    ensures Occurrences(a + b, id) == Occurrences(a, id) + Occurrences(b, id)
  {
    if a == [] {
      assert a + b == b;
    } else {
      assert (a + b)[1..] == a[1..] + b;
      OccurrencesConcat(a[1..], b, id);
    }
  }

  lemma OccurrencesNext(ids: seq<string>, i: nat, id: string)
    requires i < |ids|
    ensures Occurrences(ids[..i+1], id) == Occurrences(ids[..i], id) + if id == ids[i] then 1 else 0
  {
    assert ids[..i+1] == ids[..i] + [ids[i]];
    OccurrencesConcat(ids[..i], [ids[i]], id);
    assert [ids[i]][1..] == [];
  }

  lemma {:induction false} OnceListed(ids: seq<string>, id: string)
    requires NoDup(ids)
    ensures Occurrences(ids, id) == if id in ids then 1 else 0
  {
    if ids != [] { OnceListed(ids[1..], id); }
  }

  // A room, counted or not, and then the rooms after it.
  lemma EnteredNextRoom(snap: Snapshot, spaceIds: seq<string>, roomId: string, rest: seq<string>,
                        before: map<string, State>, middle: map<string, State>, after: map<string, State>)
    requires if Counted(snap, roomId) then Entered(snap, spaceIds, [roomId], before, middle) else middle == before
    requires Entered(snap, spaceIds, rest, middle, after)
    ensures Entered(snap, spaceIds, [roomId] + rest, before, after)
  {
  }

  lemma GrownNextRoom(snap: Snapshot, spaceIds: seq<string>, roomId: string, rest: seq<string>,
                      before: map<string, State>, middle: map<string, State>, after: map<string, State>)
    requires if Counted(snap, roomId) then Grown(snap, spaceIds, [roomId], before, middle) else middle == before
    requires Grown(snap, spaceIds, rest, middle, after)
    ensures Grown(snap, spaceIds, [roomId] + rest, before, after)
  {
    forall s, c
      ensures Entry(after, s, c) ==
        Entry(before, s, c) + Times(Occurrences(spaceIds, s), SpaceTotal(snap, c, s, [roomId] + rest))
    {
      var n := Occurrences(spaceIds, s);
      TotalsOfConcat(snap, c, s, [roomId], rest);
      DistributeOver(n, SpaceTotal(snap, c, s, [roomId]), SpaceTotal(snap, c, s, rest));
      if !Counted(snap, roomId) {
        TotalsOfOne(snap, c, s, roomId);
        TimesZero(n);
      }
    }
  }

  class SpaceNotificationCounter {
    var homeNotificationState: State
    var notificationStatePerSpaceId: map<string, State>

    constructor ()
      ensures homeNotificationState == ZERO && notificationStatePerSpaceId == map[]
    {
      homeNotificationState, notificationStatePerSpaceId := ZERO, map[];
    }

    // The recursion over the index of the room.
    method ComputeAt(snap: Snapshot, spaceIds: seq<string>, roomIds: seq<string>, index: nat, output: ComputeDataResult)
      requires index <= |roomIds|
      modifies output
      ensures forall c :: output.homeNotificationState.Get(c) ==
                old(output.homeNotificationState).Get(c) + HomeTotal(snap, c, roomIds[index..])
      ensures Accumulated(snap, spaceIds, roomIds[index..],
                          old(output.notificationStatePerSpaceId), output.notificationStatePerSpaceId)
      decreases |roomIds| - index
    {
      if index >= |roomIds| {
        assert roomIds[index..] == [];
        forall s { TimesZero(Occurrences(spaceIds, s)); }
        return;
      }
      var roomId := roomIds[index];
      assert roomIds[index..] == [roomId] + roomIds[index+1..];
      ghost var before := output.notificationStatePerSpaceId;
      if roomId in snap.rooms && !snap.rooms[roomId].isSpace {
        AddRoom(snap, spaceIds, roomId, output);
      }
      ghost var middle := output.notificationStatePerSpaceId;
      ComputeAt(snap, spaceIds, roomIds, index + 1, output);
      EnteredNextRoom(snap, spaceIds, roomId, roomIds[index+1..], before, middle, output.notificationStatePerSpaceId);
      GrownNextRoom(snap, spaceIds, roomId, roomIds[index+1..], before, middle, output.notificationStatePerSpaceId);
      forall c
        ensures HomeTotal(snap, c, roomIds[index..]) ==
                HomeShare(snap, c, roomId) + HomeTotal(snap, c, roomIds[index+1..])
      {
        TotalsOfConcat(snap, c, "", [roomId], roomIds[index+1..]);
        TotalsOfOne(snap, c, "", roomId);
      }
    }

    // For every list of rooms and spaces: the home state sums all rooms; a space has an entry exactly when a
    // counted room lies under it, and the entry sums those rooms, once per occurrence of the space in the list.
    method ComputeNotificationCount(snap: Snapshot, spaceIds: seq<string>, roomIds: seq<string>)
      modifies this
      ensures forall c :: homeNotificationState.Get(c) == HomeTotal(snap, c, roomIds)
      ensures forall s :: s in notificationStatePerSpaceId <==> s in spaceIds && Populated(snap, s, roomIds)
      ensures forall s, c | s in notificationStatePerSpaceId ::
                notificationStatePerSpaceId[s].Get(c) ==
                  Times(Occurrences(spaceIds, s), SpaceTotal(snap, c, s, roomIds))
      ensures NoDup(spaceIds) ==>
                forall s, c | s in notificationStatePerSpaceId ::
                  notificationStatePerSpaceId[s].Get(c) == SpaceTotal(snap, c, s, roomIds)
    {
      var output := new ComputeDataResult();
      ComputeAt(snap, spaceIds, roomIds, 0, output);
      assert roomIds[0..] == roomIds;
      homeNotificationState := output.homeNotificationState;
      notificationStatePerSpaceId := output.notificationStatePerSpaceId;
      forall s, c | s in notificationStatePerSpaceId
        ensures notificationStatePerSpaceId[s].Get(c) ==
                Times(Occurrences(spaceIds, s), SpaceTotal(snap, c, s, roomIds))
        ensures NoDup(spaceIds) ==> notificationStatePerSpaceId[s].Get(c) == SpaceTotal(snap, c, s, roomIds)
      {
        assert notificationStatePerSpaceId[s].Get(c) == Entry(notificationStatePerSpaceId, s, c);
        if NoDup(spaceIds) { OnceListed(spaceIds, s); }
      }
    }

    // `order` is whatever order the dictionary is enumerated in.
    method StateForAllSpacesExcept(spaceId: Option<string>, order: seq<string>) returns (state: State)
      requires multiset(order) == multiset(notificationStatePerSpaceId.Keys)
      ensures forall c :: state.Get(c) == TotalExcept(notificationStatePerSpaceId, spaceId, c, order)
    {
      state := ZERO;
      for i := 0 to |order|
        invariant forall c :: state.Get(c) == TotalExcept(notificationStatePerSpaceId, spaceId, c, order[..i])
      {
        assert order[i] in multiset(order);
        assert order[..i+1] == order[..i] + [order[i]];
        forall c { TotalExceptNext(notificationStatePerSpaceId, spaceId, c, order[..i], order[i]); }
        if Some(order[i]) != spaceId {
          state := Plus(state, notificationStatePerSpaceId[order[i]]);
        }
      }
      assert order[..|order|] == order;
    }
  }

  function EntryExcept(m: map<string, State>, spaceId: Option<string>, c: Counter, s: string): nat {
    if Some(s) != spaceId then Entry(m, s, c) else 0
  }

  function TotalExcept(m: map<string, State>, spaceId: Option<string>, c: Counter, order: seq<string>): nat {
    Total(s => EntryExcept(m, spaceId, c, s), order)
  }

  lemma TotalExceptNext(m: map<string, State>, spaceId: Option<string>, c: Counter, order: seq<string>, s: string)
    ensures TotalExcept(m, spaceId, c, order + [s]) == TotalExcept(m, spaceId, c, order) + EntryExcept(m, spaceId, c, s)
  {
    TotalConcat(s => EntryExcept(m, spaceId, c, s), order, [s]);
    TotalOne(s => EntryExcept(m, spaceId, c, s), s);
  }

  // However the dictionary is enumerated: one space and all the others make up everything.
  lemma StatesAreConserved(m: map<string, State>, spaceId: string, c: Counter, order: seq<string>, other: seq<string>)
    requires multiset(order) == multiset(m.Keys) && multiset(other) == multiset(m.Keys)
    ensures TotalExcept(m, None, c, order) == Entry(m, spaceId, c) + TotalExcept(m, Some(spaceId), c, other)
  {
    var all, but := s => EntryExcept(m, None, c, s), s => EntryExcept(m, Some(spaceId), c, s);
    TotalPermutation(but, order, other);
    if spaceId in m {
      assert spaceId in multiset(order);
      var i :| 0 <= i < |order| && order[i] == spaceId;
      TotalSplit(all, order, i);
      TotalSplit(but, order, i);
      var rest := order[..i] + order[i+1..];
      OnlyOnce(order, i);
      TotalSame(all, but, rest);
    } else {
      forall s | s in order ensures all(s) == but(s) { assert s in multiset(order); }
      TotalSame(all, but, order);
    }
  }

  lemma OnlyOnce(order: seq<string>, i: nat)
    requires i < |order| && multiset(order)[order[i]] == 1
    ensures order[i] !in order[..i] + order[i+1..]
  {
    assert order == order[..i] + ([order[i]] + order[i+1..]);
    assert multiset(order) == multiset(order[..i]) + multiset{order[i]} + multiset(order[i+1..]);
    assert order[i] !in multiset(order[..i]) && order[i] !in multiset(order[i+1..]);
  }

  // ---------- All spaces together ----------

  function EntryOf(snap: Snapshot, c: Counter, spaceIds: seq<string>, roomIds: seq<string>, s: string): nat {
    Times(Occurrences(spaceIds, s), SpaceTotal(snap, c, s, roomIds))
  }

  lemma {:induction false} TotalPicks(order: seq<string>, x: string, n: nat)
    requires NoDup(order)
    ensures Total(s => if s == x then n else 0, order) == if x in order then n else 0
  {
    if order != [] { TotalPicks(order[1..], x, n); }
  }

  lemma EntryOfNext(snap: Snapshot, c: Counter, spaceIds: seq<string>, roomIds: seq<string>, s: string)
    requires spaceIds != []
    ensures EntryOf(snap, c, spaceIds, roomIds, s) ==
            (if s == spaceIds[0] then SpaceTotal(snap, c, spaceIds[0], roomIds) else 0)
            + EntryOf(snap, c, spaceIds[1..], roomIds, s)
  {
  }

  lemma {:induction false} EntriesAddUp(snap: Snapshot, c: Counter, spaceIds: seq<string>, roomIds: seq<string>,
                                        order: seq<string>)
    requires NoDup(order)
    requires forall s | s in spaceIds :: s in order || SpaceTotal(snap, c, s, roomIds) == 0
    ensures Total(s => EntryOf(snap, c, spaceIds, roomIds, s), order) == BySpace(snap, c, spaceIds, roomIds)
  {
    var all := s => EntryOf(snap, c, spaceIds, roomIds, s);
    if spaceIds == [] {
      TotalOfZeros(all, order);
    } else {
      var x, rest := spaceIds[0], spaceIds[1..];
      var n := SpaceTotal(snap, c, x, roomIds);
      var pick, others := s => if s == x then n else 0, s => EntryOf(snap, c, rest, roomIds, s);
      EntriesAddUp(snap, c, rest, roomIds, order);
      TotalPicks(order, x, n);
      forall s | s in order ensures all(s) == pick(s) + others(s) { EntryOfNext(snap, c, spaceIds, roomIds, s); }
      TotalAdds(pick, others, all, order);
    }
  }

  lemma UnpopulatedIsZero(snap: Snapshot, c: Counter, spaceId: string, roomIds: seq<string>)
    requires !Populated(snap, spaceId, roomIds)
    ensures SpaceTotal(snap, c, spaceId, roomIds) == 0
  {
    TotalOfZeros(roomId => SpaceShare(snap, c, spaceId, roomId), roomIds);
  }

  // The state for all spaces, over the computed dictionary in any order, is the sum over the rooms of each
  // room's state times the number of its listed ancestors.
  lemma AllSpacesCountEachRoomPerAncestor(snap: Snapshot, c: Counter, spaceIds: seq<string>, roomIds: seq<string>,
                                          m: map<string, State>, order: seq<string>)
    requires forall s :: s in m <==> s in spaceIds && Populated(snap, s, roomIds)
    requires forall s, c | s in m :: m[s].Get(c) == Times(Occurrences(spaceIds, s), SpaceTotal(snap, c, s, roomIds))
    requires NoDup(order) && forall s :: s in order <==> s in m
    ensures TotalExcept(m, None, c, order) == ByRoom(snap, c, spaceIds, roomIds)
  {
    forall s | s in spaceIds && s !in order ensures SpaceTotal(snap, c, s, roomIds) == 0 {
      UnpopulatedIsZero(snap, c, s, roomIds);
    }
    TotalSame(s => EntryExcept(m, None, c, s), s => EntryOf(snap, c, spaceIds, roomIds, s), order);
    EntriesAddUp(snap, c, spaceIds, roomIds, order);
    SpacesTotal(snap, c, spaceIds, roomIds);
  }
}
