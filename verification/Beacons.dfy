/** Live location sharing: the summary of a beacon, the list of a room, and the messages that start and stop one. */
module Beacons {
  import opened Basics

  datatype BeaconInfo = BeaconInfo(userId: Option<string>, roomId: Option<string>, desc: Option<string>,
                                   timeout: nat, isLive: bool, timestamp: nat, eventId: Option<string>) {
    function Stopped(): BeaconInfo { this.(isLive := false) }
  }

  datatype Beacon = Beacon(beaconInfoEventId: string, timestamp: nat)

  datatype Summary = Summary(id: string, userId: string, roomId: string, deviceId: Option<string>,
                             beaconInfo: BeaconInfo, lastBeacon: Option<Beacon>) {
    function ExpiryTimestamp(): nat { beaconInfo.timestamp + beaconInfo.timeout }
    predicate HasExpired(now: nat) { now > ExpiryTimestamp() }
    predicate HasStopped() { !beaconInfo.isLive }
    predicate IsActive(now: nat) { !(HasStopped() || HasExpired(now)) }
  }

  predicate SameSharing(a: BeaconInfo, b: BeaconInfo) {
    a.desc == b.desc && a.timeout == b.timeout && a.timestamp == b.timestamp
  }

  // ---------- One summary ----------

  datatype Update = Info(info: BeaconInfo) | LastBeacon(beacon: Beacon) | Device(deviceId: string)

  // A stop of another event: same user and sharing, while this one is live.
  predicate StoppedBy(s: Summary, info: BeaconInfo) {
    && info.eventId.Some? && info.eventId != Some(s.id) && info.userId == Some(s.userId)
    && s.beaconInfo.isLive && !info.isLive && SameSharing(info, s.beaconInfo)
  }

  function WithInfo(s: Summary, info: BeaconInfo): Summary {
    if info.userId == Some(s.userId) && info.eventId == Some(s.id) then s.(beaconInfo := info)
    else if StoppedBy(s, info) then s.(beaconInfo := s.beaconInfo.Stopped())
    else s
  }

  function Updated(s: Summary, u: Update): Summary {
    match u
    case Info(info) => WithInfo(s, info)
    case LastBeacon(beacon) => if beacon.beaconInfoEventId == s.id then s.(lastBeacon := Some(beacon)) else s
    case Device(deviceId) => if s.deviceId.None? then s.(deviceId := Some(deviceId)) else s
  }

  function Run(s: Summary, updates: seq<Update>): Summary {
    if updates == [] then s else Updated(Run(s, updates[..|updates|-1]), updates[|updates|-1])
  }

  predicate NotOwn(s: Summary, updates: seq<Update>) {
    forall u | u in updates && u.Info? :: u.info.eventId != Some(s.id)
  }

  // In every run without an event of the summary's own id: its expiry and identity never change, stopping is
  // final, the device is set once, and the last beacon is one of its own.
  lemma {:induction false} LifeOfSummary(s: Summary, updates: seq<Update>)
    requires NotOwn(s, updates)
    requires s.lastBeacon.Some? ==> s.lastBeacon.value.beaconInfoEventId == s.id
    ensures
      var t := Run(s, updates);
      && t.id == s.id && t.userId == s.userId && t.roomId == s.roomId
      && t.beaconInfo.desc == s.beaconInfo.desc && t.beaconInfo.timeout == s.beaconInfo.timeout
      && t.beaconInfo.timestamp == s.beaconInfo.timestamp
      && (!s.beaconInfo.isLive ==> !t.beaconInfo.isLive)
      && (s.deviceId.Some? ==> t.deviceId == s.deviceId)
      && (t.lastBeacon.Some? ==> t.lastBeacon.value.beaconInfoEventId == s.id)
  {
    if updates != [] {
      assert updates[|updates|-1] in updates;
      LifeOfSummary(s, updates[..|updates|-1]);
    }
  }

  // In every run the device is the first one named.
  lemma {:induction false} DeviceIsFirst(s: Summary, updates: seq<Update>)
    ensures
      var first := First(updates, (u: Update) => u.Device?);
      Run(s, updates).deviceId ==
        if s.deviceId.Some? then s.deviceId else if first.Some? then Some(first.value.deviceId) else None
  {
    if updates != [] {
      var init, u := updates[..|updates|-1], updates[|updates|-1];
      DeviceIsFirst(s, init);
      assert updates == init + [u];
      FirstOfAppend(init, u, (x: Update) => x.Device?);
    }
  }

  predicate IsOwnBeacon(id: string, u: Update) { u.LastBeacon? && u.beacon.beaconInfoEventId == id }

  // The last of its own beacons stands at this place.
  ghost predicate LastOwnAt(id: string, updates: seq<Update>, k: int) {
    0 <= k < |updates| && IsOwnBeacon(id, updates[k]) && forall j | k < j < |updates| :: !IsOwnBeacon(id, updates[j])
  }

  // In every run the last beacon is the last one of its own to come.
  lemma {:induction false} LastBeaconIsLast(s: Summary, updates: seq<Update>)
    ensures Run(s, updates).id == s.id
    ensures forall k | LastOwnAt(s.id, updates, k) :: Run(s, updates).lastBeacon == Some(updates[k].beacon)
    ensures (forall u | u in updates :: !IsOwnBeacon(s.id, u)) ==> Run(s, updates).lastBeacon == s.lastBeacon
  {
    if updates != [] {
      var n := |updates| - 1;
      var init, u := updates[..n], updates[n];
      LastBeaconIsLast(s, init);
      assert u in updates && forall x | x in init :: x in updates;
      forall k | LastOwnAt(s.id, updates, k) ensures Run(s, updates).lastBeacon == Some(updates[k].beacon) {
        if k < n {
          assert forall j | 0 <= j < n :: init[j] == updates[j];
          assert LastOwnAt(s.id, init, k) && !IsOwnBeacon(s.id, updates[n]);
        }
      }
    }
  }

  // A summary is active while it is live and its timeout has not passed since it began; once inactive, it is so at any
  // later time, whatever happens to it.
  lemma NeverActiveAgain(s: Summary, updates: seq<Update>, now: nat, later: nat)
    requires NotOwn(s, updates) && now <= later
    ensures s.IsActive(now) <==> s.beaconInfo.isLive && now <= s.beaconInfo.timestamp + s.beaconInfo.timeout
    ensures !s.IsActive(now) ==> !Run(s, updates).IsActive(later)
  {
    LifeOfSummary(s.(lastBeacon := None), updates);
    LastBeaconDoesNotMatter(s, updates);
  }

  lemma {:induction false} LastBeaconDoesNotMatter(s: Summary, updates: seq<Update>)
    ensures Run(s, updates).beaconInfo == Run(s.(lastBeacon := None), updates).beaconInfo
    ensures Run(s, updates).id == s.id && Run(s.(lastBeacon := None), updates).id == s.id
    ensures Run(s, updates).userId == s.userId && Run(s.(lastBeacon := None), updates).userId == s.userId
  {
    if updates != [] { LastBeaconDoesNotMatter(s, updates[..|updates|-1]); }
  }

  class BeaconInfoSummary {
    const id: string
    const userId: string
    const roomId: string
    var deviceId: Option<string>
    var beaconInfo: BeaconInfo
    var lastBeacon: Option<Beacon>

    function State(): Summary
      reads this
    {
      Summary(id, userId, roomId, deviceId, beaconInfo, lastBeacon)
    }

    constructor (identifier: string, userId: string, roomId: string, beaconInfo: BeaconInfo)
      ensures State() == Summary(identifier, userId, roomId, None, beaconInfo, None)
    {
      id, this.userId, this.roomId, this.beaconInfo := identifier, userId, roomId, beaconInfo;
      deviceId, lastBeacon := None, None;
    }

    method UpdateWithBeaconInfo(info: BeaconInfo) returns (updated: bool)
      modifies this`beaconInfo
      ensures State() == Updated(old(State()), Info(info))
      ensures info.userId == Some(userId) && info.eventId == Some(id) ==> beaconInfo == info
      ensures !(info.userId == Some(userId) && info.eventId == Some(id)) ==>
                beaconInfo == old(beaconInfo).(isLive := old(beaconInfo.isLive) && !updated)
      ensures updated <==>
                && info.userId == Some(userId) && info.eventId.Some?
                && (info.eventId == Some(id) ||
                    (old(beaconInfo.isLive) && !info.isLive && info.desc == old(beaconInfo.desc)
                     && info.timeout == old(beaconInfo.timeout) && info.timestamp == old(beaconInfo.timestamp)))
    {
      if info.eventId.None? { return false; }
      if info.userId != Some(userId) { return false; }
      if info.eventId.value == id {
        beaconInfo := info;
        return true;
      } else if beaconInfo.isLive && !info.isLive && info.desc == beaconInfo.desc
                && info.timeout == beaconInfo.timeout && info.timestamp == beaconInfo.timestamp {
        beaconInfo := beaconInfo.Stopped();
        return true;
      }
      return false;
    }

    method UpdateWithLastBeacon(beacon: Beacon) returns (updated: bool)
      modifies this`lastBeacon
      ensures State() == Updated(old(State()), LastBeacon(beacon))
      ensures updated <==> beacon.beaconInfoEventId == id
    {
      if beacon.beaconInfoEventId != id { return false; }
      lastBeacon := Some(beacon);
      return true;
    }

    method UpdateWithDeviceId(deviceId: string) returns (updated: bool)
      modifies this`deviceId
      ensures State() == Updated(old(State()), Device(deviceId))
      ensures updated <==> old(this.deviceId).None?
    {
      if this.deviceId.Some? { return false; }
      this.deviceId := Some(deviceId);
      return true;
    }
  }

  // ---------- The summaries of a room ----------

  // Ids are distinct, and each summary holds the info of its own event and user.
  ghost predicate WellFormed(room: seq<Summary>) {
    && (forall i, j | 0 <= i < j < |room| :: room[i].id != room[j].id)
    && (forall s | s in room :: s.beaconInfo.eventId == Some(s.id) && s.beaconInfo.userId == Some(s.userId))
  }

  // One live beacon per user.
  ghost predicate OneLive(room: seq<Summary>) {
    forall i, j | 0 <= i < j < |room| && room[i].beaconInfo.isLive && room[j].beaconInfo.isLive ::
      room[i].userId != room[j].userId
  }

  function ById(room: seq<Summary>, id: string): Option<Summary> { First(room, (s: Summary) => s.id == id) }

  // The lookup for a stop: by user and sharing, the first one wins.
  function BySharing(room: seq<Summary>, info: BeaconInfo): Option<Summary> {
    if info.userId.None? then None
    else First(room, (s: Summary) => s.beaconInfo.userId == info.userId && SameSharing(s.beaconInfo, info))
  }

  function Put(room: seq<Summary>, s: Summary): seq<Summary> {
    var i := FirstIndex(room, (x: Summary) => x.id == s.id);
    if i < |room| then room[i := s] else room + [s]
  }

  // The last element of the stable sort by timestamp.
  function Latest(summaries: seq<Summary>): Option<Summary> {
    if summaries == [] then None
    else
      var before, s := Latest(summaries[..|summaries|-1]), summaries[|summaries|-1];
      if before.None? || before.value.beaconInfo.timestamp <= s.beaconInfo.timestamp then Some(s) else before
  }

  lemma LatestIsLatest(summaries: seq<Summary>)
    ensures Latest(summaries).None? <==> summaries == []
    ensures Latest(summaries).Some? ==> Latest(summaries).value in summaries
    ensures forall s | s in summaries :: s.beaconInfo.timestamp <= Latest(summaries).value.beaconInfo.timestamp
  {
  }

  function OfUser(room: seq<Summary>, userId: string): seq<Summary> {
    Keep(room, (s: Summary) => s.userId == userId)
  }

  // A new live info older than a known one of its user comes in stopped.
  predicate ComesTooLate(room: seq<Summary>, info: BeaconInfo)
    requires info.userId.Some?
  {
    var latest := Latest(OfUser(room, info.userId.value));
    latest.Some? && info.timestamp < latest.value.beaconInfo.timestamp
  }

  predicate MustStop(room: seq<Summary>, info: BeaconInfo, s: Summary)
    requires info.userId.Some?
  {
    && s.userId == info.userId.value
    && (ComesTooLate(room, info) ==> s.id != Latest(OfUser(room, info.userId.value)).value.id)
  }

  function StopOthers(room: seq<Summary>, info: BeaconInfo): seq<Summary>
    requires info.userId.Some?
  {
    seq(|room|, i requires 0 <= i < |room| =>
      if MustStop(room, info, room[i]) then WithInfo(room[i], room[i].beaconInfo.Stopped()) else room[i])
  }

  function AfterStop(room: seq<Summary>, info: BeaconInfo): seq<Summary> {
    var existing := BySharing(room, info);
    if existing.Some? && !existing.value.HasStopped() then Put(room, WithInfo(existing.value, info)) else room
  }

  function AfterAgain(room: seq<Summary>, existing: Summary, info: BeaconInfo): seq<Summary> {
    if info.timestamp > existing.beaconInfo.timestamp then Put(room, WithInfo(existing, info)) else room
  }

  function AfterNew(room: seq<Summary>, info: BeaconInfo): seq<Summary>
    requires info.eventId.Some?
  {
    if info.userId.None? then room
    else
      var others := StopOthers(room, info);
      if info.roomId.None? then others
      else
        var final := if ComesTooLate(room, info) then info.Stopped() else info;
        Put(others, Summary(info.eventId.value, info.userId.value, info.roomId.value, None, final, None))
  }

  function AfterInfo(room: seq<Summary>, info: BeaconInfo): seq<Summary> {
    if info.eventId.None? then room
    else if !info.isLive then AfterStop(room, info)
    else if ById(room, info.eventId.value).Some? then AfterAgain(room, ById(room, info.eventId.value).value, info)
    else AfterNew(room, info)
  }

  // The branch that lets a second event under a known id make its summary live again.
  predicate Revives(room: seq<Summary>, info: BeaconInfo) {
    && info.eventId.Some? && info.isLive
    && var existing := ById(room, info.eventId.value);
    && existing.Some? && info.userId == Some(existing.value.userId)
    && info.timestamp > existing.value.beaconInfo.timestamp
    && exists s :: s in room && s.id != existing.value.id && s.userId == existing.value.userId && s.beaconInfo.isLive
  }

  lemma PutAt(room: seq<Summary>, s: Summary)
    requires WellFormed(room) && ById(room, s.id).Some?
    ensures exists i :: 0 <= i < |room| && room[i] == ById(room, s.id).value && Put(room, s) == room[i := s]
  {
  }

  lemma StopKeepsOneLive(room: seq<Summary>, info: BeaconInfo)
    requires WellFormed(room) && OneLive(room) && info.eventId.Some? && !info.isLive
    ensures WellFormed(AfterStop(room, info)) && OneLive(AfterStop(room, info))
  {
    var existing := BySharing(room, info);
    if existing.Some? && !existing.value.HasStopped() {
      var updated := WithInfo(existing.value, info);
      IdFindsIt(room, existing.value);
      PutAt(room, updated);
      var i :| 0 <= i < |room| && room[i] == existing.value && Put(room, updated) == room[i := updated];
      ReplacedAt(room, i, updated);
    }
  }

  lemma IdFindsIt(room: seq<Summary>, s: Summary)
    requires WellFormed(room) && s in room
    ensures ById(room, s.id) == Some(s)
  {
  }

  lemma ReplacedAt(room: seq<Summary>, i: nat, s: Summary)
    requires WellFormed(room) && OneLive(room) && i < |room|
    requires s.id == room[i].id && s.userId == room[i].userId
    requires s.beaconInfo.eventId == Some(s.id) && s.beaconInfo.userId == Some(s.userId)
    ensures WellFormed(room[i := s])
    ensures OneLive(room[i := s]) <==>
      !(s.beaconInfo.isLive &&
        exists j :: 0 <= j < |room| && j != i && room[j].userId == s.userId && room[j].beaconInfo.isLive)
  {
    var after := room[i := s];
    assert forall j | 0 <= j < |room| && j != i :: after[j] == room[j];
    if j :| 0 <= j < |room| && j != i && room[j].userId == s.userId && room[j].beaconInfo.isLive {
      assert after[j].userId == after[i].userId;
    }
  }

  lemma AgainKeepsOneLiveIff(room: seq<Summary>, info: BeaconInfo)
    requires WellFormed(room) && OneLive(room) && info.eventId.Some? && info.isLive
    requires ById(room, info.eventId.value).Some?
    ensures WellFormed(AfterInfo(room, info))
    ensures OneLive(AfterInfo(room, info)) <==> !Revives(room, info)
  {
    var existing := ById(room, info.eventId.value).value;
    var updated := WithInfo(existing, info);
    IdFindsIt(room, existing);
    PutAt(room, updated);
    var i :| 0 <= i < |room| && room[i] == existing && Put(room, updated) == room[i := updated];
    ReplacedAt(room, i, updated);
    assert forall j | 0 <= j < |room| && j != i :: room[j] in room && room[j].id != existing.id;
    if existing.beaconInfo.isLive {
      assert !Revives(room, info) by { OthersNotLive(room, i); }
    }
  }

  lemma OthersNotLive(room: seq<Summary>, i: nat)
    requires WellFormed(room) && OneLive(room) && i < |room| && room[i].beaconInfo.isLive
    ensures forall s | s in room && s.id != room[i].id && s.userId == room[i].userId :: !s.beaconInfo.isLive
  {
  }

  // Stopping the others changes nothing but their liveness.
  lemma StoppedOthers(room: seq<Summary>, info: BeaconInfo, i: nat)
    requires WellFormed(room) && info.userId.Some? && i < |room|
    ensures StopOthers(room, info)[i] ==
      if MustStop(room, info, room[i]) then room[i].(beaconInfo := room[i].beaconInfo.Stopped()) else room[i]
  {
  }

  lemma StoppedOthersWellFormed(room: seq<Summary>, info: BeaconInfo)
    requires WellFormed(room) && info.userId.Some?
    ensures WellFormed(StopOthers(room, info))
    ensures OneLive(room) ==> OneLive(StopOthers(room, info))
    ensures forall i | 0 <= i < |room| :: StopOthers(room, info)[i].id == room[i].id
    ensures forall s | s in StopOthers(room, info) && s.beaconInfo.isLive :: s in room && !MustStop(room, info, s)
  {
    forall i | 0 <= i < |room|
      ensures StopOthers(room, info)[i] ==
        if MustStop(room, info, room[i]) then room[i].(beaconInfo := room[i].beaconInfo.Stopped()) else room[i]
    {
      StoppedOthers(room, info, i);
      assert room[i] in room;
    }
  }

  lemma AppendKeepsOneLive(room: seq<Summary>, s: Summary)
    requires WellFormed(room) && OneLive(room) && ById(room, s.id).None?
    requires s.beaconInfo.eventId == Some(s.id) && s.beaconInfo.userId == Some(s.userId)
    requires s.beaconInfo.isLive ==> forall x | x in room && x.beaconInfo.isLive :: x.userId != s.userId
    ensures Put(room, s) == room + [s] && WellFormed(room + [s]) && OneLive(room + [s])
  {
    forall i | 0 <= i < |room| ensures room[i].id != s.id { assert room[i] in room; }
  }

  lemma NewKeepsOneLive(room: seq<Summary>, info: BeaconInfo)
    requires WellFormed(room) && OneLive(room) && info.eventId.Some? && info.isLive
    requires ById(room, info.eventId.value).None?
    ensures WellFormed(AfterNew(room, info)) && OneLive(AfterNew(room, info))
  {
    if info.userId.Some? {
      var others := StopOthers(room, info);
      StoppedOthersWellFormed(room, info);
      if info.roomId.Some? {
        var final := if ComesTooLate(room, info) then info.Stopped() else info;
        var s := Summary(info.eventId.value, info.userId.value, info.roomId.value, None, final, None);
        OthersHaveOtherIds(room, info, s.id);
        AppendKeepsOneLive(others, s);
      }
    }
  }

  // One step keeps "one live beacon per user" exactly when it is not the reviving one.
  lemma OneLiveIff(room: seq<Summary>, info: BeaconInfo)
    requires WellFormed(room) && OneLive(room)
    ensures WellFormed(AfterInfo(room, info))
    ensures OneLive(AfterInfo(room, info)) <==> !Revives(room, info)
  {
    if info.eventId.Some? {
      if !info.isLive { StopKeepsOneLive(room, info); }
      else if ById(room, info.eventId.value).Some? { AgainKeepsOneLiveIff(room, info); }
      else { NewKeepsOneLive(room, info); }
    }
  }

  function AfterAll(room: seq<Summary>, infos: seq<BeaconInfo>): seq<Summary> {
    if infos == [] then room else AfterInfo(AfterAll(room, infos[..|infos|-1]), infos[|infos|-1])
  }

  // Events are immutable: two live infos under one event id are the same info.
  ghost predicate Immutable(infos: seq<BeaconInfo>) {
    forall a, b |
      a in infos && b in infos && a.eventId.Some? && a.eventId == b.eventId && a.isLive && b.isLive ::
      a == b
  }

  // Each summary carries the timestamp of the live info that made it.
  ghost predicate MadeBy(room: seq<Summary>, infos: seq<BeaconInfo>) {
    forall s | s in room ::
      exists a :: a in infos && a.isLive && a.eventId == Some(s.id) && a.timestamp == s.beaconInfo.timestamp
  }

  // Where a summary after a step comes from.
  lemma Origin(room: seq<Summary>, info: BeaconInfo, s: Summary)
    requires WellFormed(room) && s in AfterInfo(room, info)
    ensures || (exists t :: t in room && t.id == s.id && t.beaconInfo.timestamp == s.beaconInfo.timestamp)
            || (info.isLive && info.eventId == Some(s.id) && info.timestamp == s.beaconInfo.timestamp)
  {
    if s !in room && info.eventId.Some? {
      if !info.isLive {
        OriginOfPut(room, BySharing(room, info).value, info, s);
      } else if ById(room, info.eventId.value).Some? {
        OriginOfPut(room, ById(room, info.eventId.value).value, info, s);
      } else if info.eventId != Some(s.id) {
        OriginOfStopped(room, info, s);
      } else {
        OnlyTheNewOne(room, info, s);
      }
    }
  }

  lemma OriginOfPut(room: seq<Summary>, existing: Summary, info: BeaconInfo, s: Summary)
    requires WellFormed(room) && existing in room && s !in room && s in Put(room, WithInfo(existing, info))
    ensures s == WithInfo(existing, info)
  {
  }

  lemma OriginOfStopped(room: seq<Summary>, info: BeaconInfo, s: Summary)
    requires WellFormed(room) && info.eventId.Some? && info.eventId != Some(s.id) && s in AfterNew(room, info)
    ensures exists t :: t in room && t.id == s.id && t.beaconInfo.timestamp == s.beaconInfo.timestamp
  {
    if info.userId.Some? {
      var others := StopOthers(room, info);
      assert s in others;
      var i :| 0 <= i < |others| && others[i] == s;
      StoppedOthers(room, info, i);
      assert room[i] in room;
    }
  }

  lemma OnlyTheNewOne(room: seq<Summary>, info: BeaconInfo, s: Summary)
    requires WellFormed(room) && info.eventId == Some(s.id) && ById(room, s.id).None?
    requires s in AfterNew(room, info) && s !in room
    ensures info.timestamp == s.beaconInfo.timestamp
  {
    if info.userId.Some? {
      OthersHaveOtherIds(room, info, s.id);
      assert s !in StopOthers(room, info);
    }
  }

  lemma OthersHaveOtherIds(room: seq<Summary>, info: BeaconInfo, id: string)
    requires WellFormed(room) && info.userId.Some? && ById(room, id).None?
    ensures forall x | x in StopOthers(room, info) :: x.id != id
  {
  }

  lemma SummariesMade(room: seq<Summary>, infos: seq<BeaconInfo>, info: BeaconInfo)
    requires WellFormed(room) && MadeBy(room, infos) && Immutable(infos + [info])
    ensures MadeBy(AfterInfo(room, info), infos + [info])
    ensures !Revives(room, info)
  {
    var all := infos + [info];
    assert info in all && forall a | a in infos :: a in all;
    forall s | s in AfterInfo(room, info)
      ensures exists a :: a in all && a.isLive && a.eventId == Some(s.id) && a.timestamp == s.beaconInfo.timestamp
    {
      Origin(room, info, s);
      if t :| t in room && t.id == s.id && t.beaconInfo.timestamp == s.beaconInfo.timestamp {
        var a :| a in infos && a.isLive && a.eventId == Some(t.id) && a.timestamp == t.beaconInfo.timestamp;
        assert a in all;
      }
    }
    if info.isLive && info.eventId.Some? && ById(room, info.eventId.value).Some? {
      var existing := ById(room, info.eventId.value).value;
      var a :| a in infos && a.isLive && a.eventId == Some(existing.id) && a.timestamp == existing.beaconInfo.timestamp;
      assert a in all && a == info;
    }
  }

  // From an empty room, for every sequence of immutable events: never two live beacons of one user.
  lemma {:induction false} OneLiveInEveryRun(infos: seq<BeaconInfo>)
    requires Immutable(infos)
    ensures WellFormed(AfterAll([], infos)) && OneLive(AfterAll([], infos))
    ensures MadeBy(AfterAll([], infos), infos)
  {
    if infos != [] {
      var init, info := infos[..|infos|-1], infos[|infos|-1];
      assert infos == init + [info];
      assert forall a | a in init :: a in infos;
      OneLiveInEveryRun(init);
      SummariesMade(AfterAll([], init), init, info);
      OneLiveIff(AfterAll([], init), info);
    }
  }

  // ---------- Stopping ----------

  // The content of a stop message: the initial one, no longer live.
  function StopMessage(info: BeaconInfo): BeaconInfo {
    BeaconInfo(None, None, info.desc, info.timeout, false, info.timestamp, None)
  }

  // The message as it comes back: the state key is the user, and the server gives it an id.
  function Echo(message: BeaconInfo, userId: string, roomId: string, eventId: string): BeaconInfo {
    message.(userId := Some(userId), roomId := Some(roomId), eventId := Some(eventId))
  }

  // The echo of a stop reaches a summary iff it is the user's, live, and of the same sharing; it only ends it.
  lemma StopReaches(s: Summary, t: Summary, roomId: string, eventId: string)
    requires s.beaconInfo.isLive && eventId != t.id
    ensures
      var echo := Echo(StopMessage(s.beaconInfo), s.userId, roomId, eventId);
      && (WithInfo(t, echo) != t <==>
            && t.userId == s.userId && t.beaconInfo.isLive && t.beaconInfo.desc == s.beaconInfo.desc
            && t.beaconInfo.timeout == s.beaconInfo.timeout && t.beaconInfo.timestamp == s.beaconInfo.timestamp)
      && (WithInfo(t, echo) != t ==> WithInfo(t, echo) == t.(beaconInfo := t.beaconInfo.Stopped()))
  {
  }

  // getStoppedBeaconInfo: from the summary to the stop event, in the beacon infos of the room.
  function StoppedInfo(summary: Option<Summary>, infos: seq<BeaconInfo>): Option<BeaconInfo> {
    if summary.None? || summary.value.beaconInfo.isLive then None
    else
      var original := summary.value.beaconInfo;
      First(infos, (info: BeaconInfo) => !info.isLive && info.userId == original.userId && SameSharing(info, original))
  }

  // Round trip: stop a live summary, let the message come back, and the stop event is found again; the first
  // stop of that sharing in the room is the one returned.
  lemma StopRoundTrip(s: Summary, infos: seq<BeaconInfo>, eventId: string)
    requires s.beaconInfo.isLive && s.beaconInfo.userId == Some(s.userId) && eventId != s.id
    ensures
      var echo := Echo(StopMessage(s.beaconInfo), s.userId, s.roomId, eventId);
      var stopped := WithInfo(s, echo);
      && stopped.HasStopped() && SameSharing(stopped.beaconInfo, s.beaconInfo)
      && StoppedInfo(Some(s), infos + [echo]) == None
      && StoppedInfo(Some(stopped), infos + [echo]) ==
           if StoppedInfo(Some(stopped), infos).Some? then StoppedInfo(Some(stopped), infos) else Some(echo)
  {
    var echo := Echo(StopMessage(s.beaconInfo), s.userId, s.roomId, eventId);
    var original := WithInfo(s, echo).beaconInfo;
    FirstOfAppend(infos, echo,
      (info: BeaconInfo) => !info.isLive && info.userId == original.userId && SameSharing(info, original));
  }

  // In the list of the room, the stop ends its summary iff no other of the user, with the same description, timeout and
  // timestamp, stands before it; and then it changes nothing else.
  lemma StopEndsItsSummaryIff(room: seq<Summary>, i: nat, eventId: string)
    requires WellFormed(room) && i < |room| && room[i].beaconInfo.isLive && ById(room, eventId).None?
    ensures
      var after := AfterInfo(room, Echo(StopMessage(room[i].beaconInfo), room[i].userId, room[i].roomId, eventId));
      var first := forall j | 0 <= j < i :: !Alike(room[j], room[i]);
      && |after| == |room|
      && (first ==> after == room[i := room[i].(beaconInfo := room[i].beaconInfo.(isLive := false))])
      && (!first ==> after[i] == room[i])
  {
    var s := room[i];
    var echo := Echo(StopMessage(s.beaconInfo), s.userId, s.roomId, eventId);
    var existing := BySharing(room, echo);
    assert s in room;
    assert existing.Some?;
    var n := FirstIndex(room, (x: Summary) => x.beaconInfo.userId == echo.userId && SameSharing(x.beaconInfo, echo));
    assert existing == Some(room[n]) && n <= i;
    assert forall j | 0 <= j < |room| ::
      Alike(room[j], s) <==> room[j].beaconInfo.userId == echo.userId && SameSharing(room[j].beaconInfo, echo);
    StopAt(room, n, echo);
  }

  // Two summaries of one user's sharing, told apart by their ids alone.
  predicate Alike(a: Summary, b: Summary) {
    && a.beaconInfo.userId == b.beaconInfo.userId && a.beaconInfo.desc == b.beaconInfo.desc
    && a.beaconInfo.timeout == b.beaconInfo.timeout && a.beaconInfo.timestamp == b.beaconInfo.timestamp
  }

  lemma StopAt(room: seq<Summary>, n: nat, echo: BeaconInfo)
    requires WellFormed(room) && n < |room| && BySharing(room, echo) == Some(room[n])
    requires echo.eventId.Some? && !echo.isLive && ById(room, echo.eventId.value).None?
    requires room[n].beaconInfo.userId == echo.userId && SameSharing(room[n].beaconInfo, echo)
    ensures AfterInfo(room, echo) == if room[n].beaconInfo.isLive
      then room[n := room[n].(beaconInfo := room[n].beaconInfo.(isLive := false))] else room
  {
    var existing := room[n];
    assert existing in room && existing.id != echo.eventId.value;
    FoundAt(room, existing.id, n);
  }

  // Timestamps of started beacons are whole seconds, so two starts in one second with the same description and
  // timeout share everything but their ids: the second one then survives its own stop.
  lemma TwinCannotBeStopped(userId: string, roomId: string, desc: Option<string>, timeout: nat, timestamp: nat)
    ensures
      var first := BeaconInfo(Some(userId), Some(roomId), desc, timeout, true, timestamp, Some("a"));
      var second := first.(eventId := Some("b"));
      var room := AfterInfo(AfterInfo([], first), second);
      && |room| == 2 && room[1].id == "b" && room[1].beaconInfo.isLive
      && AfterInfo(room, Echo(StopMessage(room[1].beaconInfo), userId, roomId, "c")) == room
  {
    var first := BeaconInfo(Some(userId), Some(roomId), desc, timeout, true, timestamp, Some("a"));
    var second := first.(eventId := Some("b"));
    var one := Summary("a", userId, roomId, None, first, None);
    var two := Summary("b", userId, roomId, None, second, None);
    FirstStart(one);
    SecondStart(one, two);
    StopFindsTheFirst(one.(beaconInfo := first.Stopped()), two, Echo(StopMessage(second), userId, roomId, "c"));
  }

  lemma StopFindsTheFirst(one: Summary, two: Summary, echo: BeaconInfo)
    requires one.HasStopped() && one.beaconInfo.userId == echo.userId && SameSharing(one.beaconInfo, echo)
    requires echo.userId.Some? && !echo.isLive
    ensures AfterInfo([one, two], echo) == [one, two]
  {
  }

  lemma FirstStart(one: Summary)
    requires one == Summary(one.id, one.userId, one.roomId, None,
      BeaconInfo(Some(one.userId), Some(one.roomId), one.beaconInfo.desc, one.beaconInfo.timeout, true,
                 one.beaconInfo.timestamp, Some(one.id)), None)
    ensures AfterInfo([], one.beaconInfo) == [one]
  {
    assert OfUser([], one.userId) == [];
    assert StopOthers([], one.beaconInfo) == [];
  }

  lemma SecondStart(one: Summary, two: Summary)
    requires one.id != two.id && two == one.(id := two.id, beaconInfo := one.beaconInfo.(eventId := Some(two.id)))
    requires one == Summary(one.id, one.userId, one.roomId, None,
      BeaconInfo(Some(one.userId), Some(one.roomId), one.beaconInfo.desc, one.beaconInfo.timeout, true,
                 one.beaconInfo.timestamp, Some(one.id)), None)
    ensures AfterInfo([one], two.beaconInfo) == [one.(beaconInfo := one.beaconInfo.Stopped()), two]
  {
    assert [one][1..] == [] && [one][..0] == [];
    assert OfUser([one], one.userId) == [one];
    assert Latest([one]) == Some(one);
    assert StopOthers([one], two.beaconInfo) == [one.(beaconInfo := one.beaconInfo.Stopped())];
    assert ById([one], two.id).None?;
    var others := [one.(beaconInfo := one.beaconInfo.Stopped())];
    assert others[1..] == [];
    assert FirstIndex(others, (x: Summary) => x.id == two.id) == 1;
  }

  // ---------- The services ----------

  function StoppedAmong(room: seq<Summary>, stop: seq<Summary>): seq<Summary> {
    seq(|room|, i requires 0 <= i < |room| =>
      if room[i] in stop then WithInfo(room[i], room[i].beaconInfo.Stopped()) else room[i])
  }

  lemma FoundAt(room: seq<Summary>, id: string, n: nat)
    requires n < |room| && room[n].id == id
    requires forall i, j | 0 <= i < j < |room| :: room[i].id != room[j].id
    ensures FirstIndex(room, (x: Summary) => x.id == id) == n
  {
  }

  lemma StopOneMore(room: seq<Summary>, toStop: seq<Summary>, k: nat)
    requires WellFormed(room) && k < |toStop| && toStop[k] in room
    ensures Put(StoppedAmong(room, toStop[..k]), WithInfo(toStop[k], toStop[k].beaconInfo.Stopped())) ==
            StoppedAmong(room, toStop[..k+1])
  {
    var s, before, after := toStop[k], StoppedAmong(room, toStop[..k]), StoppedAmong(room, toStop[..k+1]);
    var n :| 0 <= n < |room| && room[n] == s;
    assert toStop[..k+1] == toStop[..k] + [s];
    forall i | 0 <= i < |room| && i != n ensures before[i] == after[i] { assert room[i] != s; }
    StoppedIds(room, toStop[..k]);
    FoundAt(before, s.id, n);
    assert before[n := after[n]] == after;
  }

  lemma StoppedIds(room: seq<Summary>, stop: seq<Summary>)
    requires WellFormed(room)
    ensures forall i | 0 <= i < |room| :: StoppedAmong(room, stop)[i].id == room[i].id
    ensures forall i, j | 0 <= i < j < |room| :: StoppedAmong(room, stop)[i].id != StoppedAmong(room, stop)[j].id
  {
  }

  class BeaconAggregations {
    var summaries: seq<Summary>   // of one room

    constructor ()
      ensures summaries == []
    {
      summaries := [];
    }

    method AddOrUpdateSummary(s: Summary)
      modifies this
      ensures summaries == Put(old(summaries), s)
    {
      var existingIndex := FirstIndex(summaries, (x: Summary) => x.id == s.id);
      if existingIndex < |summaries| {
        summaries := summaries[existingIndex := s];
      } else {
        summaries := summaries + [s];
      }
    }

    // Stops the given summaries one after the other.
    method StopAll(toStop: seq<Summary>)
      requires WellFormed(summaries) && forall s | s in toStop :: s in summaries
      requires forall i, j | 0 <= i < j < |toStop| :: toStop[i].id != toStop[j].id
      modifies this
      ensures summaries == StoppedAmong(old(summaries), toStop)
    {
      var room := summaries;
      assert summaries == StoppedAmong(room, toStop[..0]);
      for k := 0 to |toStop|
        invariant summaries == StoppedAmong(room, toStop[..k])
      {
        assert toStop[k] in toStop;
        StopOneMore(room, toStop, k);
        AddOrUpdateSummary(WithInfo(toStop[k], toStop[k].beaconInfo.Stopped()));
      }
      assert toStop[..|toStop|] == toStop;
    }

    method AddOrUpdateBeaconInfo(info: BeaconInfo)
      requires WellFormed(summaries)
      modifies this
      ensures summaries == AfterInfo(old(summaries), info)
    {
      if info.eventId.None? { return; }
      if !info.isLive {
        var existing := BySharing(summaries, info);
        if existing.Some? && !existing.value.HasStopped() {
          AddOrUpdateSummary(WithInfo(existing.value, info));
        }
        return;
      }
      var existing := ById(summaries, info.eventId.value);
      if existing.Some? {
        if info.timestamp > existing.value.beaconInfo.timestamp {
          AddOrUpdateSummary(WithInfo(existing.value, info));
        }
        return;
      }
      if info.userId.None? { return; }
      AddNew(info);
    }

    // The branch for a live info under an unknown id.
    method AddNew(info: BeaconInfo)
      requires WellFormed(summaries) && info.eventId.Some? && info.userId.Some?
      modifies this
      ensures summaries == AfterNew(old(summaries), info)
    {
      var known := OfUser(summaries, info.userId.value);
      var last := Latest(known);
      var shouldStopNewBeaconInfo := last.Some? && info.timestamp < last.value.beaconInfo.timestamp;
      var toStop := if shouldStopNewBeaconInfo then Keep(known, (s: Summary) => s.id != last.value.id) else known;
      ToStop(summaries, info, toStop);
      StopAll(toStop);
      if info.roomId.None? { return; }
      var finalBeaconInfo := if shouldStopNewBeaconInfo then info.Stopped() else info;
      var summary := Summary(info.eventId.value, info.userId.value, info.roomId.value, None, finalBeaconInfo, None);
      AddOrUpdateSummary(summary);
    }
  }

  // The filtered list names the summaries to stop, each once.
  lemma ToStop(room: seq<Summary>, info: BeaconInfo, toStop: seq<Summary>)
    requires WellFormed(room) && info.userId.Some?
    requires
      var known := OfUser(room, info.userId.value);
      toStop == if ComesTooLate(room, info) then Keep(known, (s: Summary) => s.id != Latest(known).value.id) else known
    ensures forall s | s in toStop :: s in room
    ensures forall i, j | 0 <= i < j < |toStop| :: toStop[i].id != toStop[j].id
    ensures StoppedAmong(room, toStop) == StopOthers(room, info)
  {
    var known := OfUser(room, info.userId.value);
    DistinctKept(room, (s: Summary) => s.userId == info.userId.value);
    if ComesTooLate(room, info) {
      DistinctKept(known, (s: Summary) => s.id != Latest(known).value.id);
    }
    forall i | 0 <= i < |room| ensures room[i] in toStop <==> MustStop(room, info, room[i]) { assert room[i] in room; }
  }

  lemma DistinctKept(room: seq<Summary>, p: Summary -> bool)
    requires forall i, j | 0 <= i < j < |room| :: room[i].id != room[j].id
    ensures forall i, j | 0 <= i < j < |Keep(room, p)| :: Keep(room, p)[i].id != Keep(room, p)[j].id
  {
    if room != [] {
      DistinctKept(room[1..], p);
      forall s | s in Keep(room[1..], p) ensures s.id != room[0].id {
        var i :| 0 <= i < |room[1..]| && room[1..][i] == s;
        assert room[i+1] == s;
      }
    }
  }

  datatype LocationError = MissingUserId | BeaconInfoNotFound | DoesNotBelongToUser | AlreadyStopped

  class LocationService {
    const aggregations: BeaconAggregations
    const myUserId: Option<string>
    var sent: seq<BeaconInfo>   // state events handed to the server

    constructor (aggregations: BeaconAggregations, myUserId: Option<string>)
      ensures this.aggregations == aggregations && this.myUserId == myUserId && sent == []
    {
      this.aggregations, this.myUserId, sent := aggregations, myUserId, [];
    }

    method StopUserLocationSharing(eventId: string) returns (error: Option<LocationError>)
      modifies this`sent
      ensures error.Some? ==> sent == old(sent)
      ensures error.None? <==>
                && myUserId.Some? && ById(aggregations.summaries, eventId).Some?
                && ById(aggregations.summaries, eventId).value.userId == myUserId.value
                && !ById(aggregations.summaries, eventId).value.HasStopped()
      ensures error.None? ==> sent == old(sent) + [StopMessage(ById(aggregations.summaries, eventId).value.beaconInfo)]
    {
      if myUserId.None? { return Some(MissingUserId); }
      var summary := ById(aggregations.summaries, eventId);
      if summary.None? { return Some(BeaconInfoNotFound); }
      if summary.value.userId != myUserId.value { return Some(DoesNotBelongToUser); }
      if summary.value.HasStopped() { return Some(AlreadyStopped); }
      var initial := summary.value.beaconInfo;
      sent := sent + [BeaconInfo(None, None, initial.desc, initial.timeout, false, initial.timestamp, None)];
      return None;
    }

    method StopUserLocationSharingInRoom(sorted: seq<Summary>) returns (error: Option<LocationError>)
      requires WellFormed(aggregations.summaries)
      requires myUserId.Some? ==> LiveByExpiry(aggregations.summaries, myUserId.value, sorted)
      modifies this`sent
      ensures error.None? <==> myUserId.Some? && LiveOf(aggregations.summaries, myUserId.value) != []
      ensures error.None? ==>
                exists s :: ExpiresLast(aggregations.summaries, myUserId.value, s)
                  && sent == old(sent) + [StopMessage(s.beaconInfo)]
      ensures error.Some? ==> sent == old(sent)
    {
      if myUserId.None? { return Some(MissingUserId); }
      LastExpires(aggregations.summaries, myUserId.value, sorted);
      if sorted == [] { return Some(BeaconInfoNotFound); }
      var last := sorted[|sorted|-1];
      IdFindsIt(aggregations.summaries, last);
      error := StopUserLocationSharing(last.id);
    }

    // The reply to the stop is ignored: the new sharing starts whether or not there was one to stop.
    method StartUserLocationSharing(desc: Option<string>, timeout: nat, nowInSeconds: nat, sorted: seq<Summary>)
      returns (error: Option<LocationError>)
      requires WellFormed(aggregations.summaries)
      requires myUserId.Some? ==> LiveByExpiry(aggregations.summaries, myUserId.value, sorted)
      modifies this`sent
      ensures myUserId.None? ==> error == Some(MissingUserId) && sent == old(sent)
      ensures myUserId.Some? ==>
                && error.None?
                && |sent| == |old(sent)| + (if LiveOf(aggregations.summaries, myUserId.value) != [] then 2 else 1)
                && old(sent) <= sent
                && sent[|sent|-1] == BeaconInfo(None, None, desc, timeout, true, nowInSeconds * 1000, None)
    {
      var ignored := StopUserLocationSharingInRoom(sorted);
      if myUserId.None? { return Some(MissingUserId); }
      sent := sent + [BeaconInfo(None, None, desc, timeout, true, nowInSeconds * 1000, None)];
      return None;
    }
  }

  function LiveOf(room: seq<Summary>, userId: string): seq<Summary> {
    Keep(Keep(room, (s: Summary) => s.beaconInfo.isLive), (s: Summary) => s.userId == userId)
  }

  // The user's live summaries, as the library sorts them by expiry.
  ghost predicate LiveByExpiry(room: seq<Summary>, userId: string, sorted: seq<Summary>) {
    && (forall s :: s in sorted <==> s in LiveOf(room, userId))
    && (forall i, j | 0 <= i < j < |sorted| :: sorted[i].ExpiryTimestamp() <= sorted[j].ExpiryTimestamp())
  }

  ghost predicate ExpiresLast(room: seq<Summary>, userId: string, s: Summary) {
    s in LiveOf(room, userId) && forall t | t in LiveOf(room, userId) :: t.ExpiryTimestamp() <= s.ExpiryTimestamp()
  }

  lemma LastExpires(room: seq<Summary>, userId: string, sorted: seq<Summary>)
    requires LiveByExpiry(room, userId, sorted)
    ensures sorted == [] <==> LiveOf(room, userId) == []
    ensures sorted == [] <==> forall s | s in room :: !(s.userId == userId && s.beaconInfo.isLive)
    ensures sorted != [] ==>
      var last := sorted[|sorted|-1];
      && ExpiresLast(room, userId, last)
      && last in room && last.userId == userId && last.beaconInfo.isLive
      && forall s | s in room && s.userId == userId && s.beaconInfo.isLive ::
           s.beaconInfo.timestamp + s.beaconInfo.timeout <= last.beaconInfo.timestamp + last.beaconInfo.timeout
  {
    var live := LiveOf(room, userId);
    if live != [] { assert live[0] in live; }
    forall s ensures s in live <==> s in room && s.userId == userId && s.beaconInfo.isLive {
      LiveIsMine(room, userId, s);
    }
    if sorted != [] { assert sorted[|sorted|-1] in sorted; }
  }

  lemma LiveIsMine(room: seq<Summary>, userId: string, s: Summary)
    ensures s in LiveOf(room, userId) <==> s in room && s.userId == userId && s.beaconInfo.isLive
  {
  }

  // ---------- Deleting ----------

  // MXBeaconInfoSummaryMemoryStore keeps the summary it is asked to delete and drops all the others.
  function MemoryDelete(room: seq<Summary>, id: string): seq<Summary> { Keep(room, (s: Summary) => s.id == id) }

  function Delete(room: seq<Summary>, id: string): seq<Summary> { Keep(room, (s: Summary) => s.id != id) }

  lemma MemoryDeleteIsDeleteIff(room: seq<Summary>, id: string)
    ensures forall s :: s in MemoryDelete(room, id) <==> s in room && s.id == id
    ensures forall s :: s in Delete(room, id) <==> s in room && s.id != id
    ensures MemoryDelete(room, id) == Delete(room, id) <==> room == []
  {
  }
}
