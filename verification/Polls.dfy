/** Back-filling the events of a poll into the store. */
module Polls {
  import opened Basics

  datatype Event = Event(id: string, roomId: string, body: string)

  type Timelines = map<string, seq<Event>>

  // Messages of a room, oldest first.
  function Messages(t: Timelines, roomId: string): seq<Event> { if roomId in t then t[roomId] else [] }

  predicate Exists(t: Timelines, id: string, roomId: string) {
    exists e :: e in Messages(t, roomId) && e.id == id
  }

  function Reverse(s: seq<Event>): seq<Event> { if s == [] then [] else Reverse(s[1..]) + [s[0]] }

  // The response, in reverse chronological order: the chunk, then the event it relates to.
  datatype Response = Response(chunk: seq<Event>, originalEvent: Option<Event>)

  function AllEvents(r: Response): seq<Event> {
    r.chunk + if r.originalEvent.Some? then [r.originalEvent.value] else []
  }

  function Missing(t: Timelines, events: seq<Event>): seq<Event> {
    Keep(events, (e: Event) => !Exists(t, e.id, e.roomId))
  }

  function OfRoom(events: seq<Event>, roomId: string): seq<Event> { Keep(events, (e: Event) => e.roomId == roomId) }

  // `after` holds, in each room, the reversed new events in front of the old messages.
  ghost predicate BackFilled(before: Timelines, events: seq<Event>, after: Timelines) {
    forall r :: RoomBackFilled(before, events, after, r)
  }

  ghost predicate RoomBackFilled(before: Timelines, events: seq<Event>, after: Timelines, r: string) {
    Messages(after, r) == Reverse(OfRoom(events, r)) + Messages(before, r)
  }

  ghost predicate DistinctEvents(events: seq<Event>) {
    forall i, j | 0 <= i < j < |events| :: events[i].id != events[j].id || events[i].roomId != events[j].roomId
  }

  ghost predicate DistinctIds(messages: seq<Event>) {
    forall i, j | 0 <= i < j < |messages| :: messages[i].id != messages[j].id
  }

  lemma ReverseOfConcat(a: seq<Event>, b: seq<Event>)
    ensures Reverse(a + b) == Reverse(b) + Reverse(a)
  {
    if a == [] {
      assert a + b == b;
    } else {
      assert (a + b)[1..] == a[1..] + b;
      ReverseOfConcat(a[1..], b);
    }
  }

  lemma ReverseMembers(s: seq<Event>, e: Event)
    ensures e in Reverse(s) <==> e in s
  {
  }

  lemma OneOfRoom(e: Event, roomId: string)
    ensures OfRoom([e], roomId) == if e.roomId == roomId then [e] else []
  {
  }

  lemma RoomBackFilledNext(before: Timelines, events: seq<Event>, middle: Timelines, e: Event, r: string)
    requires RoomBackFilled(before, events, middle, r)
    ensures RoomBackFilled(before, events + [e], middle[e.roomId := [e] + Messages(middle, e.roomId)], r)
  {
    var mine := OfRoom(events, r);
    assert OfRoom(events + [e], r) == mine + OfRoom([e], r) by {
      KeepDistributes(events, [e], (x: Event) => x.roomId == r);
    }
    OneOfRoom(e, r);
    if e.roomId == r {
      ReversePush(mine, e, Messages(before, r));
    } else {
      assert mine + [] == mine;
    }
  }

  lemma ReversePush(s: seq<Event>, e: Event, tail: seq<Event>)
    ensures Reverse(s + [e]) + tail == [e] + (Reverse(s) + tail)
  {
    ReverseOfConcat(s, [e]);
    assert [e][1..] == [];
  }

  lemma BackFilledNext(before: Timelines, events: seq<Event>, middle: Timelines, e: Event)
    requires BackFilled(before, events, middle)
    ensures BackFilled(before, events + [e], middle[e.roomId := [e] + Messages(middle, e.roomId)])
  {
    var all, after := events + [e], middle[e.roomId := [e] + Messages(middle, e.roomId)];
    forall r ensures RoomBackFilled(before, all, after, r) {
      RoomBackFilledNext(before, events, middle, e, r);
    }
  }

  // An event is missing exactly when no message of its room has its id.
  lemma MissingIff(t: Timelines, events: seq<Event>, e: Event)
    ensures e in Missing(t, events) <==> e in events && forall m | m in Messages(t, e.roomId) :: m.id != e.id
  {
  }

  // In front of the old messages of the room stand events that were missing in it, and nothing else.
  ghost predicate OnlyMissingCame(before: Timelines, events: seq<Event>, after: Timelines, r: string) {
    exists new' ::
      && Messages(after, r) == new' + Messages(before, r)
      && forall e | e in new' :: e in events && e.roomId == r && forall m | m in Messages(before, r) :: m.id != e.id
  }

  // Afterwards each event of the response has a message of its id in its room, so a second identical run finds nothing
  // to store; the old messages are still there, in order and last; and any other message is a missing event.
  lemma EverythingExists(before: Timelines, events: seq<Event>, after: Timelines)
    requires BackFilled(before, Missing(before, events), after)
    ensures forall e | e in events :: exists m :: m in Messages(after, e.roomId) && m.id == e.id
    ensures forall r :: OnlyMissingCame(before, events, after, r)
    ensures Missing(after, events) == []
  {
    forall r ensures OnlyMissingCame(before, events, after, r) { OnlyMissingCome(before, events, after, r); }
    forall e | e in events ensures Exists(after, e.id, e.roomId) {
      assert RoomBackFilled(before, Missing(before, events), after, e.roomId);
      EventExists(before, events, after, e);
    }
    KeepNone(events, (e: Event) => !Exists(after, e.id, e.roomId));
  }

  lemma OnlyMissingCome(before: Timelines, events: seq<Event>, after: Timelines, r: string)
    requires BackFilled(before, Missing(before, events), after)
    ensures OnlyMissingCame(before, events, after, r)
  {
    assert RoomBackFilled(before, Missing(before, events), after, r);
    var new' := Reverse(OfRoom(Missing(before, events), r));
    forall e | e in new'
      ensures e in events && e.roomId == r && forall m | m in Messages(before, r) :: m.id != e.id
    {
      ReverseMembers(OfRoom(Missing(before, events), r), e);
      MissingIff(before, events, e);
    }
    assert Messages(after, r) == new' + Messages(before, r);
  }

  // The event that the response relates to comes first of all messages of its room, if it was missing.
  lemma OriginalComesFirst(before: Timelines, response: Response, after: Timelines, original: Event)
    requires BackFilled(before, Missing(before, AllEvents(response)), after)
    requires response.originalEvent == Some(original)
    requires forall m | m in Messages(before, original.roomId) :: m.id != original.id
    ensures Messages(after, original.roomId) != [] && Messages(after, original.roomId)[0] == original
  {
    var p, q := (e: Event) => !Exists(before, e.id, e.roomId), (e: Event) => e.roomId == original.roomId;
    KeepLast(response.chunk, original, p);
    KeepLast(Keep(response.chunk, p), original, q);
    ReversePush(Keep(Keep(response.chunk, p), q), original, Messages(before, original.roomId));
    assert RoomBackFilled(before, Missing(before, AllEvents(response)), after, original.roomId);
  }

  lemma KeepLast(s: seq<Event>, e: Event, p: Event -> bool)
    requires p(e)
    ensures Keep(s + [e], p) == Keep(s, p) + [e]
  {
    KeepDistributes(s, [e], p);
    assert [e][1..] == [];
  }

  lemma EventExists(before: Timelines, events: seq<Event>, after: Timelines, e: Event)
    requires RoomBackFilled(before, Missing(before, events), after, e.roomId) && e in events
    ensures Exists(after, e.id, e.roomId)
  {
    var mine := OfRoom(Missing(before, events), e.roomId);
    assert Messages(after, e.roomId) == Reverse(mine) + Messages(before, e.roomId);
    if Exists(before, e.id, e.roomId) {
      var m :| m in Messages(before, e.roomId) && m.id == e.id;
      assert m in Messages(after, e.roomId);
    } else {
      assert e in Missing(before, events);
      assert e in mine;
      ReverseMembers(mine, e);
      assert e in Messages(after, e.roomId);
    }
  }

  lemma RunTwice(before: Timelines, events: seq<Event>, after: Timelines, again: Timelines)
    requires BackFilled(before, Missing(before, events), after)
    requires BackFilled(after, Missing(after, events), again)
    ensures forall r :: Messages(again, r) == Messages(after, r)
  {
    EverythingExists(before, events, after);
    forall r ensures Messages(again, r) == Messages(after, r) {
      assert RoomBackFilled(after, [], again, r);
    }
  }

  lemma ReverseAt(s: seq<Event>)
    ensures |Reverse(s)| == |s|
    ensures forall i | 0 <= i < |s| :: Reverse(s)[i] == s[|s| - 1 - i]
  {
  }

  // Events of the room, at two places of the list, with one id that none of its messages has.
  ghost predicate Twins(before: Timelines, events: seq<Event>, roomId: string, i: int, j: int) {
    && 0 <= i < j < |events| && events[i].roomId == roomId && events[j].roomId == roomId
    && events[i].id == events[j].id && forall m | m in Messages(before, roomId) :: m.id != events[i].id
  }

  // A room without duplicates stays so exactly when the response has no two events of one id that the room lacks.
  lemma NoDuplicatesIff(before: Timelines, events: seq<Event>, after: Timelines, roomId: string)
    requires BackFilled(before, Missing(before, events), after) && DistinctIds(Messages(before, roomId))
    ensures DistinctIds(Messages(after, roomId)) <==> forall i, j :: !Twins(before, events, roomId, i, j)
  {
    var p, q := (e: Event) => !Exists(before, e.id, e.roomId), (e: Event) => e.roomId == roomId;
    var both := (e: Event) => p(e) && q(e);
    NewEventsDistinct(before, events, after, roomId);
    KeepTwice(events, p, q, both);
    DistinctKeepIff(events, both);
    TwinsClash(before, events, roomId, both);
  }

  lemma TwinsClash(before: Timelines, events: seq<Event>, roomId: string, both: Event -> bool)
    requires forall e | e in events :: both(e) <==> !Exists(before, e.id, e.roomId) && e.roomId == roomId
    ensures NoClash(events, both) <==> forall i, j :: !Twins(before, events, roomId, i, j)
  {
    forall i, j ensures Twins(before, events, roomId, i, j) <==> Clash(events, both, i, j) {
      if 0 <= i < j < |events| { TwinsIff(before, events, roomId, i, j); }
    }
  }

  lemma TwinsIff(before: Timelines, events: seq<Event>, roomId: string, i: int, j: int)
    requires 0 <= i < j < |events|
    ensures Twins(before, events, roomId, i, j) <==>
      && events[i].roomId == roomId && !Exists(before, events[i].id, events[i].roomId)
      && events[j].roomId == roomId && !Exists(before, events[j].id, events[j].roomId)
      && events[i].id == events[j].id
  {
  }

  lemma KeepTwice(s: seq<Event>, p: Event -> bool, q: Event -> bool, both: Event -> bool)
    requires forall e :: both(e) == (p(e) && q(e))
    ensures Keep(Keep(s, p), q) == Keep(s, both)
  {
    if s != [] {
      KeepTwice(s[1..], p, q, both);
      KeepDistributes(if p(s[0]) then [s[0]] else [], Keep(s[1..], p), q);
    }
  }

  // Two events of the list that are kept, and have one id.
  predicate Clash(s: seq<Event>, p: Event -> bool, i: int, j: int) {
    0 <= i < j < |s| && p(s[i]) && p(s[j]) && s[i].id == s[j].id
  }

  ghost predicate NoClash(s: seq<Event>, p: Event -> bool) { forall i, j :: !Clash(s, p, i, j) }

  lemma {:induction false} DistinctKeepIff(s: seq<Event>, p: Event -> bool)
    ensures DistinctIds(Keep(s, p)) <==> NoClash(s, p)
  {
    if s == [] {
      assert Keep(s, p) == [];
    } else {
      DistinctKeepIff(s[1..], p);
      ClashFirst(s, p);
      DistinctCons(s[0], Keep(s[1..], p));
      assert Keep(s, p) == if p(s[0]) then [s[0]] + Keep(s[1..], p) else Keep(s[1..], p);
    }
  }

  lemma ClashFirst(s: seq<Event>, p: Event -> bool)
    requires s != []
    ensures NoClash(s, p) <==>
            NoClash(s[1..], p) && (p(s[0]) ==> forall e | e in Keep(s[1..], p) :: e.id != s[0].id)
  {
    var t := s[1..];
    if i, j :| Clash(t, p, i, j) { assert Clash(s, p, i + 1, j + 1); }
    if i, j :| Clash(s, p, i, j) {
      assert s[j] == t[j-1];
      if i > 0 { assert Clash(t, p, i - 1, j - 1); } else { assert s[j] in Keep(t, p); }
    }
    if e :| e in Keep(t, p) && e.id == s[0].id && p(s[0]) {
      var k :| 0 <= k < |t| && t[k] == e;
      assert Clash(s, p, 0, k + 1);
    }
  }

  lemma DistinctCons(e: Event, s: seq<Event>)
    ensures DistinctIds([e] + s) <==> DistinctIds(s) && forall x | x in s :: x.id != e.id
  {
    var all := [e] + s;
    assert forall i | 0 <= i < |s| :: all[i+1] == s[i];
    if DistinctIds(all) {
      forall i, j | 0 <= i < j < |s| ensures s[i].id != s[j].id { assert all[i+1].id != all[j+1].id; }
      forall x | x in s ensures x.id != e.id { var k :| 0 <= k < |s| && s[k] == x; assert all[0].id != all[k+1].id; }
    }
  }

  lemma NewEventsDistinct(before: Timelines, events: seq<Event>, after: Timelines, roomId: string)
    requires BackFilled(before, Missing(before, events), after) && DistinctIds(Messages(before, roomId))
    ensures DistinctIds(Messages(after, roomId)) <==> DistinctIds(OfRoom(Missing(before, events), roomId))
  {
    var new', known := OfRoom(Missing(before, events), roomId), Messages(before, roomId);
    assert RoomBackFilled(before, Missing(before, events), after, roomId);
    forall e, k | e in new' && k in known ensures e.id != k.id { assert !Exists(before, e.id, roomId); }
    ReverseMembersAll(new');
    DistinctConcat(Reverse(new'), known);
    ReverseDistinct(new');
    DistinctPrefix(Reverse(new'), known);
  }

  lemma ReverseMembersAll(s: seq<Event>)
    ensures forall e | e in Reverse(s) :: e in s
  {
  }

  lemma DistinctConcat(a: seq<Event>, b: seq<Event>)
    requires DistinctIds(b) && forall x, y | x in a && y in b :: x.id != y.id
    ensures DistinctIds(a) ==> DistinctIds(a + b)
  {
  }

  lemma DistinctPrefix(a: seq<Event>, b: seq<Event>)
    ensures DistinctIds(a + b) ==> DistinctIds(a)
  {
    assert forall i | 0 <= i < |a| :: (a + b)[i] == a[i];
  }

  lemma ReverseDistinct(s: seq<Event>)
    ensures DistinctIds(Reverse(s)) <==> DistinctIds(s)
  {
    ReverseAt(s);
    var r, n := Reverse(s), |s|;
    if DistinctIds(s) {
      forall i, j | 0 <= i < j < n ensures r[i].id != r[j].id { assert s[n-1-j].id != s[n-1-i].id; }
    }
    if DistinctIds(r) {
      forall i, j | 0 <= i < j < n ensures s[i].id != s[j].id {
        assert r[n-1-i] == s[i] && r[n-1-j] == s[j];
        assert r[n-1-j].id != r[n-1-i].id;
      }
    }
  }

  // Distinct events in the response are enough.
  lemma DistinctResponseNoDuplicates(before: Timelines, events: seq<Event>, after: Timelines, roomId: string)
    requires BackFilled(before, Missing(before, events), after) && DistinctIds(Messages(before, roomId))
    requires DistinctEvents(events)
    ensures DistinctIds(Messages(after, roomId))
  {
    NoDuplicatesIff(before, events, after, roomId);
  }

  class Session {
    var timelines: Timelines
    var commits: nat

    constructor (timelines: Timelines)
      ensures this.timelines == timelines && commits == 0
    {
      this.timelines, commits := timelines, 0;
    }

    method StoreEventBackwards(roomId: string, event: Event)
      modifies this`timelines
      ensures timelines == old(timelines)[roomId := [event] + Messages(old(timelines), roomId)]
    {
      timelines := timelines[roomId := [event] + Messages(timelines, roomId)];
    }

    method StoreIfNeeded(events: seq<Event>)
      modifies this
      ensures BackFilled(old(timelines), Missing(old(timelines), events), timelines)
      ensures commits == old(commits) +
                if forall e | e in events :: exists m :: m in Messages(old(timelines), e.roomId) && m.id == e.id
                then 0 else 1
    {
      var before := timelines;
      var eventsToStore := Missing(timelines, events);
      for i := 0 to |eventsToStore|
        invariant BackFilled(before, eventsToStore[..i], timelines) && commits == old(commits)
      {
        var event := eventsToStore[i];
        BackFilledNext(before, eventsToStore[..i], timelines, event);
        assert eventsToStore[..i+1] == eventsToStore[..i] + [event];
        StoreEventBackwards(event.roomId, event);
      }
      assert eventsToStore[..|eventsToStore|] == eventsToStore;
      assert forall e | e in events :: e in eventsToStore <==> !Exists(before, e.id, e.roomId);
      if eventsToStore != [] {
        assert eventsToStore[0] in eventsToStore;
        commits := commits + 1;
      }
    }

    method StoreResponse(response: Response)
      modifies this
      ensures BackFilled(old(timelines), Missing(old(timelines), AllEvents(response)), timelines)
      ensures commits == old(commits) +
                if (forall e | e in AllEvents(response) ::
                      exists m :: m in Messages(old(timelines), e.roomId) && m.id == e.id)
                then 0 else 1
    {
      var allEvents := response.chunk + if response.originalEvent.Some? then [response.originalEvent.value] else [];
      StoreIfNeeded(allEvents);
    }
  }
}
