/** Which start of a live location wins: for one start, and over every run of a room. */
module BeaconStarts {
  import opened Basics
  import opened Beacons

  // ---------- The newest summary of a user ----------

  // At this index stands a summary of the user; none of the user's is newer, and those behind it are older.
  ghost predicate Newest(room: seq<Summary>, userId: string, i: int) {
    && 0 <= i < |room| && room[i].userId == userId
    && (forall j | 0 <= j < |room| && room[j].userId == userId ::
          room[j].beaconInfo.timestamp <= room[i].beaconInfo.timestamp)
    && (forall j | i < j < |room| && room[j].userId == userId ::
          room[j].beaconInfo.timestamp < room[i].beaconInfo.timestamp)
  }

  lemma {:induction false} LatestIsNewest(room: seq<Summary>, userId: string) returns (i: int)
    ensures OfUser(room, userId) == [] <==> forall s | s in room :: s.userId != userId
    ensures OfUser(room, userId) != [] ==>
      Newest(room, userId, i) && Latest(OfUser(room, userId)) == Some(room[i])
  {
    i := 0;
    if room != [] {
      var init, s := room[..|room|-1], room[|room|-1];
      i := LatestIsNewest(init, userId);
      assert room == init + [s];
      LatestNext(init, s, userId);
      if s.userId == userId && (OfUser(init, userId) == [] || init[i].beaconInfo.timestamp <= s.beaconInfo.timestamp) {
        NewestLast(init, userId, i, s);
        i := |init|;
      } else if OfUser(init, userId) != [] {
        NewestKept(init, userId, i, s);
      }
    }
  }

  lemma LatestNext(init: seq<Summary>, s: Summary, userId: string)
    ensures OfUser(init + [s], userId) == OfUser(init, userId) + if s.userId == userId then [s] else []
    ensures s.userId != userId ==> Latest(OfUser(init + [s], userId)) == Latest(OfUser(init, userId))
    ensures s.userId == userId ==>
      var before := Latest(OfUser(init, userId));
      Latest(OfUser(init + [s], userId)) ==
        if before.None? || before.value.beaconInfo.timestamp <= s.beaconInfo.timestamp then Some(s) else before
  {
    KeepDistributes(init, [s], (x: Summary) => x.userId == userId);
    assert [s][1..] == [];
    var known := OfUser(init, userId);
    assert (known + [s])[..|known + [s]|-1] == known;
    assert known + [] == known;
  }

  lemma NewestKept(init: seq<Summary>, userId: string, i: int, s: Summary)
    requires Newest(init, userId, i)
    requires s.userId != userId || s.beaconInfo.timestamp < init[i].beaconInfo.timestamp
    ensures Newest(init + [s], userId, i)
  {
  }

  lemma NewestLast(init: seq<Summary>, userId: string, i: int, s: Summary)
    requires s.userId == userId
    requires (forall x | x in init :: x.userId != userId)
      || (Newest(init, userId, i) && init[i].beaconInfo.timestamp <= s.beaconInfo.timestamp)
    ensures Newest(init + [s], userId, |init|)
  {
    forall j | 0 <= j < |init + [s]| && (init + [s])[j].userId == userId
      ensures (init + [s])[j].beaconInfo.timestamp <= s.beaconInfo.timestamp
    {
      if j < |init| { assert init[j] in init; }
    }
  }

  // ---------- One start ----------

  predicate Complete(a: BeaconInfo) { a.isLive && a.eventId.Some? && a.userId.Some? && a.roomId.Some? }

  // A complete start under an id the room does not know.
  predicate Starts(room: seq<Summary>, info: BeaconInfo) {
    Complete(info) && forall s | s in room :: s.id != info.eventId.value
  }

  function SummaryOf(info: BeaconInfo): Summary
    requires info.eventId.Some? && info.userId.Some? && info.roomId.Some?
  {
    Summary(info.eventId.value, info.userId.value, info.roomId.value, None, info, None)
  }

  lemma LateIff(room: seq<Summary>, info: BeaconInfo)
    requires info.userId.Some?
    ensures ComesTooLate(room, info) <==>
      exists s :: s in room && s.userId == info.userId.value && info.timestamp < s.beaconInfo.timestamp
  {
    LatestIsLatest(OfUser(room, info.userId.value));
  }

  // The list after a start: the others, some of them stopped, and the new summary behind them.
  lemma AfterStart(room: seq<Summary>, info: BeaconInfo)
    requires WellFormed(room) && Starts(room, info)
    ensures
      var final := if ComesTooLate(room, info) then info.(isLive := false) else info;
      AfterInfo(room, info) == StopOthers(room, info) + [SummaryOf(info).(beaconInfo := final)]
  {
    var final := if ComesTooLate(room, info) then info.(isLive := false) else info;
    StoppedOthersWellFormed(room, info);
    OthersHaveOtherIds(room, info, info.eventId.value);
    assert ById(StopOthers(room, info), info.eventId.value).None?;
    assert FirstIndex(StopOthers(room, info), (x: Summary) => x.id == info.eventId.value) == |room|;
  }

  // If no summary of the user is newer, the start is the user's only live beacon, and the others are as they were,
  // but for the user's own, which have stopped.
  lemma NewestStartWins(room: seq<Summary>, info: BeaconInfo)
    requires WellFormed(room) && Starts(room, info)
    requires forall s | s in room && s.userId == info.userId.value :: s.beaconInfo.timestamp <= info.timestamp
    ensures
      var after := AfterInfo(room, info);
      && |after| == |room| + 1 && after[|room|] == SummaryOf(info)
      && forall i | 0 <= i < |room| ::
           after[i] == if room[i].userId != info.userId.value then room[i]
                       else room[i].(beaconInfo := room[i].beaconInfo.(isLive := false))
    ensures forall s | s in AfterInfo(room, info) && s.userId == info.userId.value ::
      s.beaconInfo.isLive <==> s.id == info.eventId.value
  {
    LateIff(room, info);
    AfterStart(room, info);
    forall i | 0 <= i < |room| ensures StopOthers(room, info)[i] ==
      if room[i].userId != info.userId.value then room[i]
      else room[i].(beaconInfo := room[i].beaconInfo.(isLive := false))
    {
      StoppedOthers(room, info, i);
    }
  }

  // If some summary of the user is newer, the start is stored stopped; a newest one is left as it was, and the user's
  // others have stopped.
  lemma LateStartComesStopped(room: seq<Summary>, info: BeaconInfo) returns (n: int)
    requires WellFormed(room) && Starts(room, info)
    requires exists s :: s in room && s.userId == info.userId.value && info.timestamp < s.beaconInfo.timestamp
    ensures Newest(room, info.userId.value, n)
    ensures
      var after := AfterInfo(room, info);
      && |after| == |room| + 1 && after[|room|] == SummaryOf(info.(isLive := false))
      && forall i | 0 <= i < |room| ::
           after[i] == if room[i].userId != info.userId.value || i == n then room[i]
                       else room[i].(beaconInfo := room[i].beaconInfo.(isLive := false))
  {
    LateIff(room, info);
    AfterStart(room, info);
    n := LatestIsNewest(room, info.userId.value);
    forall i | 0 <= i < |room| ensures StopOthers(room, info)[i] ==
      if room[i].userId != info.userId.value || i == n then room[i]
      else room[i].(beaconInfo := room[i].beaconInfo.(isLive := false))
    {
      StoppedOthers(room, info, i);
    }
  }

  // ---------- Every run ----------

  // No summary of a user is newer than a live one.
  ghost predicate LiveIsNewest(room: seq<Summary>) {
    forall i, j | 0 <= i < |room| && 0 <= j < |room| && room[i].beaconInfo.isLive && room[i].userId == room[j].userId ::
      room[j].beaconInfo.timestamp <= room[i].beaconInfo.timestamp
  }

  ghost predicate NewestIsLive(room: seq<Summary>) {
    forall i, userId | Newest(room, userId, i) :: room[i].beaconInfo.isLive
  }

  // Every complete start has its summary.
  ghost predicate Recorded(room: seq<Summary>, infos: seq<BeaconInfo>) {
    forall a | a in infos && Complete(a) :: HasSummary(room, a)
  }

  ghost predicate HasSummary(room: seq<Summary>, a: BeaconInfo)
    requires Complete(a)
  {
    exists i :: 0 <= i < |room| && room[i].id == a.eventId.value && room[i].userId == a.userId.value
      && room[i].beaconInfo.timestamp == a.timestamp
  }

  // The summaries keep id, user and timestamp, and none comes to life.
  ghost predicate NoneRevived(room: seq<Summary>, after: seq<Summary>) {
    && |after| >= |room|
    && forall i | 0 <= i < |room| ::
         && after[i].id == room[i].id && after[i].userId == room[i].userId
         && after[i].beaconInfo.timestamp == room[i].beaconInfo.timestamp
         && (after[i].beaconInfo.isLive ==> room[i].beaconInfo.isLive)
  }

  lemma StopRevivesNone(room: seq<Summary>, info: BeaconInfo)
    requires WellFormed(room) && info.eventId.Some? && !info.isLive
    ensures NoneRevived(room, AfterInfo(room, info)) && |AfterInfo(room, info)| == |room|
  {
    var existing := BySharing(room, info);
    if existing.Some? && !existing.value.HasStopped() {
      var updated := WithInfo(existing.value, info);
      IdFindsIt(room, existing.value);
      PutAt(room, updated);
    }
  }

  // A known live info changes nothing, since it is the one its summary was made of.
  lemma KnownChangesNothing(room: seq<Summary>, infos: seq<BeaconInfo>, info: BeaconInfo)
    requires WellFormed(room) && MadeBy(room, infos) && Immutable(infos + [info])
    requires info.isLive && info.eventId.Some? && ById(room, info.eventId.value).Some?
    ensures AfterInfo(room, info) == room && info in infos
  {
    var existing := ById(room, info.eventId.value).value;
    var a :| a in infos && a.isLive && a.eventId == Some(existing.id) && a.timestamp == existing.beaconInfo.timestamp;
    assert a in infos + [info] && info in infos + [info];
    assert a == info;
  }

  lemma StoppedKeep(room: seq<Summary>, after: seq<Summary>, infos: seq<BeaconInfo>)
    requires NoneRevived(room, after) && Recorded(room, infos)
    ensures Recorded(after, infos)
    ensures |after| == |room| && LiveIsNewest(room) ==> LiveIsNewest(after)
  {
    forall a | a in infos && Complete(a) ensures HasSummary(after, a) {
      assert HasSummary(room, a);
      var i :| 0 <= i < |room| && room[i].id == a.eventId.value && room[i].userId == a.userId.value
        && room[i].beaconInfo.timestamp == a.timestamp;
      assert after[i].id == room[i].id;
    }
  }

  lemma StartKeeps(room: seq<Summary>, info: BeaconInfo)
    requires WellFormed(room) && Starts(room, info)
    ensures NoneRevived(room, AfterInfo(room, info)) && HasSummary(AfterInfo(room, info), info)
    ensures LiveIsNewest(room) ==> LiveIsNewest(AfterInfo(room, info))
    ensures NewestIsLive(room) ==> NewestIsLive(AfterInfo(room, info))
  {
    var after := AfterInfo(room, info);
    if late :| late in room && late.userId == info.userId.value && info.timestamp < late.beaconInfo.timestamp {
      var n := LateStartComesStopped(room, info);
      LateKeepsNewest(room, after, info, n);
    } else {
      NewestStartWins(room, info);
      WinnerKeepsNewest(room, after, info);
    }
  }

  lemma LateKeepsNewest(room: seq<Summary>, after: seq<Summary>, info: BeaconInfo, n: int)
    requires Complete(info) && Newest(room, info.userId.value, n)
    requires info.timestamp < room[n].beaconInfo.timestamp
    requires |after| == |room| + 1 && after[|room|] == SummaryOf(info.(isLive := false))
    requires forall i | 0 <= i < |room| ::
      after[i] == if room[i].userId != info.userId.value || i == n then room[i]
                  else room[i].(beaconInfo := room[i].beaconInfo.(isLive := false))
    ensures NoneRevived(room, after) && HasSummary(after, info)
    ensures LiveIsNewest(room) ==> LiveIsNewest(after)
    ensures NewestIsLive(room) ==> NewestIsLive(after)
  {
    assert after[|room|].id == info.eventId.value;
    if NewestIsLive(room) {
      forall i, userId | Newest(after, userId, i) ensures after[i].beaconInfo.isLive {
        assert userId == info.userId.value ==> after[n].beaconInfo.timestamp <= after[i].beaconInfo.timestamp;
        assert i < |room|;
        NewestBefore(room, after, userId, i);
      }
    }
  }

  lemma WinnerKeepsNewest(room: seq<Summary>, after: seq<Summary>, info: BeaconInfo)
    requires Complete(info)
    requires forall s | s in room && s.userId == info.userId.value :: s.beaconInfo.timestamp <= info.timestamp
    requires |after| == |room| + 1 && after[|room|] == SummaryOf(info)
    requires forall i | 0 <= i < |room| ::
      after[i] == if room[i].userId != info.userId.value then room[i]
                  else room[i].(beaconInfo := room[i].beaconInfo.(isLive := false))
    ensures NoneRevived(room, after) && HasSummary(after, info)
    ensures LiveIsNewest(room) ==> LiveIsNewest(after)
    ensures NewestIsLive(room) ==> NewestIsLive(after)
  {
    assert after[|room|].id == info.eventId.value;
    assert forall i | 0 <= i < |room| :: room[i] in room;
    if NewestIsLive(room) {
      forall i, userId | Newest(after, userId, i) ensures after[i].beaconInfo.isLive {
        if i < |room| {
          assert userId != info.userId.value by { assert after[|room|].userId == info.userId.value; }
          NewestBefore(room, after, userId, i);
        }
      }
    }
  }

  lemma NewestBefore(room: seq<Summary>, after: seq<Summary>, userId: string, i: int)
    requires Newest(after, userId, i) && i < |room| && NoneRevived(room, after)
    ensures Newest(room, userId, i)
  {
    forall j | 0 <= j < |room| && room[j].userId == userId
      ensures room[j].beaconInfo.timestamp <= room[i].beaconInfo.timestamp
      ensures j > i ==> room[j].beaconInfo.timestamp < room[i].beaconInfo.timestamp
    {
      assert after[j].userId == userId;
    }
  }

  lemma StepKeeps(room: seq<Summary>, infos: seq<BeaconInfo>, info: BeaconInfo)
    requires WellFormed(room) && MadeBy(room, infos) && Immutable(infos + [info])
    requires LiveIsNewest(room) && Recorded(room, infos)
    ensures LiveIsNewest(AfterInfo(room, info)) && Recorded(AfterInfo(room, info), infos + [info])
    ensures NewestIsLive(room) && Complete(info) ==> NewestIsLive(AfterInfo(room, info))
  {
    var after := AfterInfo(room, info);
    if info.eventId.Some? {
      if !info.isLive {
        StopRevivesNone(room, info);
        StoppedKeep(room, after, infos);
      } else if ById(room, info.eventId.value).Some? {
        KnownChangesNothing(room, infos, info);
      } else if info.userId.Some? && info.roomId.None? {
        OthersNotRevived(room, info);
        StoppedKeep(room, after, infos);
      } else if info.userId.Some? {
        StartKeeps(room, info);
        StoppedKeep(room, after, infos);
      }
    }
  }

  lemma OthersNotRevived(room: seq<Summary>, info: BeaconInfo)
    requires WellFormed(room) && info.userId.Some?
    ensures NoneRevived(room, StopOthers(room, info)) && |StopOthers(room, info)| == |room|
  {
    forall i | 0 <= i < |room|
      ensures StopOthers(room, info)[i] ==
        if MustStop(room, info, room[i]) then room[i].(beaconInfo := room[i].beaconInfo.Stopped()) else room[i]
    {
      StoppedOthers(room, info, i);
    }
  }

  lemma {:induction false} RunKeeps(infos: seq<BeaconInfo>)
    requires Immutable(infos)
    ensures LiveIsNewest(AfterAll([], infos)) && Recorded(AfterAll([], infos), infos)
    ensures (forall a | a in infos :: Complete(a)) ==> NewestIsLive(AfterAll([], infos))
  {
    if infos != [] {
      var init, info := infos[..|infos|-1], infos[|infos|-1];
      assert infos == init + [info];
      assert forall a | a in init :: a in infos;
      assert info in infos;
      RunKeeps(init);
      OneLiveInEveryRun(init);
      StepKeeps(AfterAll([], init), init, info);
    }
  }

  // From an empty room, for every sequence of events that never change, in any order of arrival, stops among them: a
  // live beacon is that of its user's newest start. When nothing is stopped, each user who started has one.
  lemma NewestStartLivesInEveryRun(infos: seq<BeaconInfo>)
    requires Immutable(infos)
    ensures
      var room := AfterAll([], infos);
      && (forall s, a | s in room && s.beaconInfo.isLive && a in infos && Complete(a) && a.userId == Some(s.userId) ::
            a.timestamp <= s.beaconInfo.timestamp)
      && ((forall a | a in infos :: Complete(a)) ==>
            forall a | a in infos :: exists s :: s in room && a.userId == Some(s.userId) && s.beaconInfo.isLive)
  {
    var room := AfterAll([], infos);
    RunKeeps(infos);
    forall s, a | s in room && s.beaconInfo.isLive && a in infos && Complete(a) && a.userId == Some(s.userId)
      ensures a.timestamp <= s.beaconInfo.timestamp
    {
      assert HasSummary(room, a);
    }
    if forall a | a in infos :: Complete(a) {
      forall a | a in infos ensures exists s :: s in room && a.userId == Some(s.userId) && s.beaconInfo.isLive {
        assert HasSummary(room, a);
        var n := LatestIsNewest(room, a.userId.value);
        assert room[n] in room;
      }
    }
  }
}
