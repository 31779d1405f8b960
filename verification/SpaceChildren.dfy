/** Children of a space: the fold over the child events, and moving, flagging and removing a child. */
module SpaceChildren {
  import opened Basics

  datatype Value = Flag(b: bool) | Other(text: string)

  type Content = map<string, Value>

  // A space-child state event; the state list of a room is append-only.
  datatype ChildEvent = ChildEvent(stateKey: string, content: Option<Content>)

  const SUGGESTED := "suggested"

  predicate Adds(e: ChildEvent) { e.content.Some? && e.content.value != map[] }

  predicate Suggests(e: ChildEvent) {
    Adds(e) && SUGGESTED in e.content.value && e.content.value[SUGGESTED] == Flag(true)
  }

  // ---------- What the events mean ----------

  // The last event of a key.
  function Last(events: seq<ChildEvent>, key: string): Option<ChildEvent> {
    if events == [] then None
    else if events[|events|-1].stateKey == key then Some(events[|events|-1])
    else Last(events[..|events|-1], key)
  }

  predicate IsChild(events: seq<ChildEvent>, key: string) {
    Last(events, key).Some? && Adds(Last(events, key).value)
  }

  predicate IsSuggested(events: seq<ChildEvent>, key: string) {
    Last(events, key).Some? && Suggests(Last(events, key).value)
  }

  // Position `k` holds the first adding event of `key` since its last removal.
  ghost predicate IsBirth(events: seq<ChildEvent>, key: string, k: nat) {
    && k < |events| && events[k].stateKey == key
    && (forall j | k <= j < |events| && events[j].stateKey == key :: Adds(events[j]))
    && (forall j | 0 <= j < k && events[j].stateKey == key :: RemovedBetween(events, key, j, k))
  }

  ghost predicate RemovedBetween(events: seq<ChildEvent>, key: string, lo: nat, hi: nat) {
    exists m :: lo <= m < hi <= |events| && events[m].stateKey == key && !Adds(events[m])
  }

  // ---------- The fold ----------

  datatype Children = Children(ids: seq<string>, suggested: set<string>)

  function Remove(ids: seq<string>, key: string): seq<string> {
    var i := FirstIndex(ids, (id: string) => id == key);
    if i < |ids| then ids[..i] + ids[i+1..] else ids
  }

  function AfterEvent(c: Children, e: ChildEvent): Children {
    if Adds(e) then
      Children(if e.stateKey in c.ids then c.ids else c.ids + [e.stateKey],
               if Suggests(e) then c.suggested + {e.stateKey} else c.suggested - {e.stateKey})
    else if e.stateKey in c.ids then Children(Remove(c.ids, e.stateKey), c.suggested - {e.stateKey})
    else c
  }

  function Fold(events: seq<ChildEvent>): Children {
    if events == [] then Children([], {})
    else AfterEvent(Fold(events[..|events|-1]), events[|events|-1])
  }

  lemma FoldNext(events: seq<ChildEvent>, i: nat)
    requires i < |events|
    ensures Fold(events[..i+1]) == AfterEvent(Fold(events[..i]), events[i])
  {
    assert events[..i+1][..i] == events[..i];
  }

  lemma RemoveMembers(ids: seq<string>, key: string)
    requires NoDup(ids)
    ensures NoDup(Remove(ids, key))
    ensures forall id :: id in Remove(ids, key) <==> id in ids && id != key
  {
  }

  lemma AfterEventMembers(c: Children, e: ChildEvent)
    requires NoDup(c.ids) && forall key | key in c.suggested :: key in c.ids
    ensures NoDup(AfterEvent(c, e).ids)
    ensures forall key :: key in AfterEvent(c, e).ids <==> if key == e.stateKey then Adds(e) else key in c.ids
    ensures forall key ::
      key in AfterEvent(c, e).suggested <==> if key == e.stateKey then Suggests(e) else key in c.suggested
  {
    RemoveMembers(c.ids, e.stateKey);
  }

  // The fold refines the last write of each key.
  lemma {:induction false} FoldIsLastWrite(events: seq<ChildEvent>)
    ensures NoDup(Fold(events).ids)
    ensures forall key :: key in Fold(events).ids <==> IsChild(events, key)
    ensures forall key :: key in Fold(events).suggested <==> IsSuggested(events, key)
  {
    if events != [] {
      var init, e := events[..|events|-1], events[|events|-1];
      FoldIsLastWrite(init);
      AfterEventMembers(Fold(init), e);
    }
  }

  // The last event of the key stands here.
  ghost predicate LastAt(events: seq<ChildEvent>, key: string, k: int) {
    0 <= k < |events| && events[k].stateKey == key && forall j | k < j < |events| :: events[j].stateKey != key
  }

  lemma {:induction false} LastIsLastAt(events: seq<ChildEvent>, key: string) returns (k: int)
    ensures Last(events, key).Some? ==> LastAt(events, key, k) && Last(events, key) == Some(events[k])
    ensures Last(events, key).None? ==> forall j | 0 <= j < |events| :: events[j].stateKey != key
  {
    k := 0;
    if events != [] {
      var n := |events| - 1;
      if events[n].stateKey == key {
        k := n;
      } else {
        k := LastIsLastAt(events[..n], key);
        assert forall j | 0 <= j < n :: events[..n][j] == events[j];
      }
    }
  }

  // A room is a child exactly when its last event has a content that is not empty, and a suggested one exactly when
  // that content has the flag, and it is true.
  lemma ChildIff(events: seq<ChildEvent>, key: string)
    ensures key in Fold(events).ids <==>
      exists k :: LastAt(events, key, k) && events[k].content.Some? && events[k].content.value != map[]
    ensures key in Fold(events).suggested <==>
      exists k ::
        && LastAt(events, key, k) && events[k].content.Some?
        && "suggested" in events[k].content.value && events[k].content.value["suggested"] == Flag(true)
  {
    FoldIsLastWrite(events);
    var n := LastIsLastAt(events, key);
    forall k | LastAt(events, key, k) ensures k == n && Last(events, key) == Some(events[n]) {
    }
  }

  // Ranks rise along the list and stay below n.
  ghost predicate Ascending(ids: seq<string>, rank: string -> nat, n: nat) {
    && (forall i | 0 <= i < |ids| :: rank(ids[i]) < n)
    && (forall i, j | 0 <= i < j < |ids| :: rank(ids[i]) < rank(ids[j]))
  }

  lemma AscendingRemove(ids: seq<string>, key: string, rank: string -> nat, n: nat)
    requires Ascending(ids, rank, n)
    ensures Ascending(Remove(ids, key), rank, n)
  {
  }

  lemma AscendingSame(ids: seq<string>, rank: string -> nat, other: string -> nat, n: nat, m: nat)
    requires Ascending(ids, rank, n) && n <= m && forall id | id in ids :: rank(id) == other(id)
    ensures Ascending(ids, other, m)
  {
  }

  lemma AscendingAppend(ids: seq<string>, key: string, rank: string -> nat, n: nat)
    requires Ascending(ids, rank, n) && rank(key) == n
    ensures Ascending(ids + [key], rank, n + 1)
  {
  }

  // The children come in the order of their births.
  lemma {:induction false} FoldIsOrdered(events: seq<ChildEvent>)
    ensures Ascending(Fold(events).ids, key => Birth(events, key), |events|)
  {
    if events != [] {
      var init, e := events[..|events|-1], events[|events|-1];
      var before, rank := Fold(init).ids, key => Birth(init, key);
      var next := key => Birth(events, key);
      FoldIsOrdered(init);
      FoldIsLastWrite(init);
      if Adds(e) && e.stateKey !in before {
        AscendingSame(before, rank, next, |init|, |init|);
        AscendingAppend(before, e.stateKey, next, |init|);
      } else if Adds(e) {
        AscendingSame(before, rank, next, |init|, |events|);
      } else {
        AscendingRemove(before, e.stateKey, rank, |init|);
        AscendingSame(Fold(events).ids, rank, next, |init|, |events|);
      }
    }
  }

  function Birth(events: seq<ChildEvent>, key: string): nat {
    if events == [] then 0
    else
      var init, e := events[..|events|-1], events[|events|-1];
      if e.stateKey == key && Adds(e) && !IsChild(init, key) then |init| else Birth(init, key)
  }

  lemma RemovedLater(init: seq<ChildEvent>, e: ChildEvent, key: string, lo: nat, hi: nat)
    requires RemovedBetween(init, key, lo, hi)
    ensures RemovedBetween(init + [e], key, lo, hi)
  {
    var m :| lo <= m < hi <= |init| && init[m].stateKey == key && !Adds(init[m]);
    assert (init + [e])[m] == init[m];
  }

  lemma {:induction false} BirthSinceRemoval(events: seq<ChildEvent>, key: string)
    requires IsChild(events, key)
    ensures IsBirth(events, key, Birth(events, key))
  {
    var init, e := events[..|events|-1], events[|events|-1];
    assert events == init + [e];
    var k := Birth(events, key);
    if e.stateKey != key || IsChild(init, key) {
      BirthSinceRemoval(init, key);
      assert k == Birth(init, key);
      forall j | 0 <= j < k && events[j].stateKey == key ensures RemovedBetween(events, key, j, k) {
        assert init[j].stateKey == key;
        RemovedLater(init, e, key, j, k);
      }
    } else {
      forall j | 0 <= j < |init| && events[j].stateKey == key ensures RemovedBetween(events, key, j, |init|) {
        NotChildRemoved(init, key, j);
        RemovedLater(init, e, key, j, |init|);
      }
    }
  }

  lemma {:induction false} NotChildRemoved(events: seq<ChildEvent>, key: string, j: nat)
    requires !IsChild(events, key) && j < |events| && events[j].stateKey == key
    ensures RemovedBetween(events, key, j, |events|)
  {
    var n := |events| - 1;
    if events[n].stateKey == key {
      assert !Adds(events[n]);
    } else {
      NotChildRemoved(events[..n], key, j);
      var m :| j <= m < n && events[..n][m].stateKey == key && !Adds(events[..n][m]);
      assert events[m] == events[..n][m];
    }
  }

  lemma BirthIsUnique(events: seq<ChildEvent>, key: string, k: nat, l: nat)
    requires IsBirth(events, key, k) && IsBirth(events, key, l)
    ensures k == l
  {
  }

  // For every pair of children: the one listed first was born first.
  lemma ChildrenInBirthOrder(events: seq<ChildEvent>, i: nat, j: nat)
    requires i < j < |Fold(events).ids|
    ensures exists k, l :: k < l && IsBirth(events, Fold(events).ids[i], k) && IsBirth(events, Fold(events).ids[j], l)
  {
    var ids := Fold(events).ids;
    FoldIsLastWrite(events);
    FoldIsOrdered(events);
    assert ids[i] in ids && ids[j] in ids;
    BirthSinceRemoval(events, ids[i]);
    BirthSinceRemoval(events, ids[j]);
    assert Birth(events, ids[i]) < Birth(events, ids[j]);
  }

  // ---------- Moving a child ----------

  // What became of a message: refused, or accepted with its reply received or lost.
  datatype Send = Refused | Accepted | AcceptedUnheard

  function AfterSend(events: seq<ChildEvent>, key: string, content: Content, send: Send): seq<ChildEvent> {
    if send.Refused? then events else events + [ChildEvent(key, Some(content))]
  }

  function LastContent(events: seq<ChildEvent>, key: string): Content {
    var e := Last(events, key);
    if e.Some? && e.value.content.Some? then e.value.content.value else map[]
  }

  lemma LastOfAppend(events: seq<ChildEvent>, e: ChildEvent, key: string)
    ensures Last(events + [e], key) == if e.stateKey == key then Some(e) else Last(events, key)
    ensures Fold(events + [e]) == AfterEvent(Fold(events), e)
  {
  }

  // The state list after the first and after the second message of a move.
  function AfterCopy(events: seq<ChildEvent>, oldId: string, newId: string, copy: Send): seq<ChildEvent> {
    AfterSend(events, newId, LastContent(events, oldId), copy)
  }

  function AfterMove(events: seq<ChildEvent>, oldId: string, newId: string, copy: Send, clear: Send): seq<ChildEvent> {
    if copy.Accepted? then AfterSend(AfterCopy(events, oldId, newId, copy), oldId, map[], clear)
    else AfterCopy(events, oldId, newId, copy)
  }

  // At every moment of a move, whatever the server does with its messages, one of the two rooms is a child.
  lemma MoveKeepsOne(events: seq<ChildEvent>, oldId: string, newId: string, copy: Send, clear: Send)
    requires oldId != newId && IsChild(events, oldId)
    ensures IsChild(AfterCopy(events, oldId, newId, copy), oldId)
    ensures IsChild(AfterMove(events, oldId, newId, copy, clear), oldId) ||
            IsChild(AfterMove(events, oldId, newId, copy, clear), newId)
  {
    var copied := ChildEvent(newId, Some(LastContent(events, oldId)));
    var cleared := ChildEvent(oldId, Some(map[]));
    LastOfAppend(events, copied, oldId);
    LastOfAppend(events, copied, newId);
    LastOfAppend(events + [copied], cleared, oldId);
    LastOfAppend(events + [copied], cleared, newId);
  }

  // A complete move puts the new room in, with the flag of the old one, takes the old one out, and changes
  // nothing else. It keeps a child exactly when the two ids differ.
  lemma CompleteMove(events: seq<ChildEvent>, oldId: string, newId: string, clear: Send)
    requires IsChild(events, oldId) && !clear.Refused?
    ensures
      var before, after := Fold(events), Fold(AfterMove(events, oldId, newId, Accepted, clear));
      && after.ids == Remove(if newId in before.ids then before.ids else before.ids + [newId], oldId)
      && oldId !in after.ids
      && (newId in after.ids <==> oldId != newId)
      && (oldId != newId ==> (newId in after.suggested <==> oldId in before.suggested))
      && (forall id | id != oldId && id != newId ::
            (id in after.ids <==> id in before.ids) && (id in after.suggested <==> id in before.suggested))
  {
    var copied := ChildEvent(newId, Some(LastContent(events, oldId)));
    var cleared := ChildEvent(oldId, Some(map[]));
    LastOfAppend(events, copied, oldId);
    LastOfAppend(events + [copied], cleared, oldId);
    FoldIsLastWrite(events);
    FoldIsLastWrite(events + [copied]);
    RemoveMembers(Fold(events + [copied]).ids, oldId);
  }

  // What is sent: the new room gets the whole content of the old one, and the old one an empty content.
  lemma MoveCopiesContent(events: seq<ChildEvent>, oldId: string, newId: string, clear: Send, k: int, m: int, n: int)
    requires oldId != newId && !clear.Refused? && LastAt(events, oldId, k) && events[k].content.Some?
    requires LastAt(AfterMove(events, oldId, newId, Accepted, clear), newId, m)
    requires LastAt(AfterMove(events, oldId, newId, Accepted, clear), oldId, n)
    ensures AfterMove(events, oldId, newId, Accepted, clear)[m].content == events[k].content
    ensures AfterMove(events, oldId, newId, Accepted, clear)[n].content == Some(map[])
  {
    var l := LastIsLastAt(events, oldId);
    assert k == l;
    var after := AfterMove(events, oldId, newId, Accepted, clear);
    assert after == (events + [ChildEvent(newId, events[k].content)]) + [ChildEvent(oldId, Some(map[]))];
    assert after[|events|].stateKey == newId && after[|events|+1].stateKey == oldId;
    assert m == |events| && n == |events| + 1;
  }

  // Setting the flag of a child changes that flag and nothing else, not even the order.
  lemma FlagOnly(events: seq<ChildEvent>, key: string, suggested: bool)
    requires IsChild(events, key)
    ensures
      var after := Fold(AfterSend(events, key, LastContent(events, key)[SUGGESTED := Flag(suggested)], Accepted));
      && after.ids == Fold(events).ids
      && after.suggested == if suggested then Fold(events).suggested + {key} else Fold(events).suggested - {key}
  {
    var content := LastContent(events, key)[SUGGESTED := Flag(suggested)];
    assert SUGGESTED in content;
    LastOfAppend(events, ChildEvent(key, Some(content)), key);
    FoldIsLastWrite(events);
  }

  // ---------- The space ----------

  datatype SpaceError = SpaceRoomNotFound | ValidStateEventNotFound | SendFailed

  class Space {
    var hasRoom: bool
    var stateEvents: seq<ChildEvent>     // the room state, as the server accepts it
    var childRoomIds: seq<string>
    var suggestedRoomIds: set<string>
    var childSpaces: seq<string>

    constructor (hasRoom: bool, stateEvents: seq<ChildEvent>)
      ensures this.hasRoom == hasRoom && this.stateEvents == stateEvents
      ensures childRoomIds == [] && suggestedRoomIds == {} && childSpaces == []
    {
      this.hasRoom, this.stateEvents := hasRoom, stateEvents;
      childRoomIds, suggestedRoomIds, childSpaces := [], {}, [];
    }

    method ReadChildRooms()
      modifies this`childRoomIds, this`suggestedRoomIds
      ensures if hasRoom then Children(childRoomIds, suggestedRoomIds) == Fold(stateEvents)
              else childRoomIds == old(childRoomIds) && suggestedRoomIds == old(suggestedRoomIds)
    {
      if !hasRoom { return; }
      var ids: seq<string> := [];
      var suggested: set<string> := {};
      for i := 0 to |stateEvents|
        invariant Children(ids, suggested) == Fold(stateEvents[..i])
      {
        FoldNext(stateEvents, i);
        ghost var before := Children(ids, suggested);
        var event := stateEvents[i];
        if event.content.Some? && event.content.value != map[] {
          if event.stateKey !in ids {
            ids := ids + [event.stateKey];
          }
          var content := event.content.value;
          if SUGGESTED in content && content[SUGGESTED] == Flag(true) {
            suggested := suggested + {event.stateKey};
          } else {
            suggested := suggested - {event.stateKey};
          }
        } else {
          var index := FirstIndex(ids, (id: string) => id == event.stateKey);
          if index < |ids| {
            ids := ids[..index] + ids[index+1..];
            suggested := suggested - {event.stateKey};
          }
        }
        assert Children(ids, suggested) == AfterEvent(before, event);
      }
      assert stateEvents[..|stateEvents|] == stateEvents;
      childRoomIds := ids;
      suggestedRoomIds := suggested;
    }

    method SendStateEvent(key: string, content: Content, send: Send) returns (r: Response<(), SpaceError>)
      modifies this`stateEvents
      ensures stateEvents == AfterSend(old(stateEvents), key, content, send)
      ensures r.Success? <==> send.Accepted?
    {
      if !send.Refused? {
        stateEvents := stateEvents + [ChildEvent(key, Some(content))];
      }
      r := if send.Accepted? then Success(()) else Failure(SendFailed);
    }

    method MoveChild(roomId: string, newRoomId: string, copy: Send, clear: Send) returns (r: Response<(), SpaceError>)
      modifies this`stateEvents
      ensures hasRoom && IsChild(old(stateEvents), roomId) ==>
                && stateEvents == AfterMove(old(stateEvents), roomId, newRoomId, copy, clear)
                && (r.Success? <==> copy.Accepted? && clear.Accepted?)
      ensures !hasRoom ==> r == Failure(SpaceRoomNotFound) && stateEvents == old(stateEvents)
      ensures hasRoom && !IsChild(old(stateEvents), roomId) ==>
                r == Failure(ValidStateEventNotFound) && stateEvents == old(stateEvents)
    {
      if !hasRoom { return Failure(SpaceRoomNotFound); }
      var eventContent := LastContent(stateEvents, roomId);
      if eventContent == map[] { return Failure(ValidStateEventNotFound); }
      r := SendStateEvent(newRoomId, eventContent, copy);
      if r.Success? {
        r := SendStateEvent(roomId, map[], clear);
      }
    }

    method SetChild(roomId: string, suggested: bool, send: Send) returns (r: Response<(), SpaceError>)
      modifies this`stateEvents
      ensures hasRoom && IsChild(old(stateEvents), roomId) ==>
                && stateEvents == AfterSend(old(stateEvents), roomId,
                     LastContent(old(stateEvents), roomId)[SUGGESTED := Flag(suggested)], send)
                && (r.Success? <==> send.Accepted?)
      ensures !hasRoom ==> r == Failure(SpaceRoomNotFound) && stateEvents == old(stateEvents)
      ensures hasRoom && !IsChild(old(stateEvents), roomId) ==>
                r == Failure(ValidStateEventNotFound) && stateEvents == old(stateEvents)
    {
      if !hasRoom { return Failure(SpaceRoomNotFound); }
      var eventContent := LastContent(stateEvents, roomId);
      if eventContent == map[] { return Failure(ValidStateEventNotFound); }
      eventContent := eventContent[SUGGESTED := Flag(suggested)];
      r := SendStateEvent(roomId, eventContent, send);
    }

    method UpdateChildSpaces(spaceIds: set<string>)
      modifies this`childSpaces
      ensures childSpaces == Keep(childRoomIds, (id: string) => id in spaceIds)
    {
      var spaces: seq<string> := [];
      var known := (id: string) => id in spaceIds;
      for i := 0 to |childRoomIds|
        invariant spaces == Keep(childRoomIds[..i], known)
      {
        assert childRoomIds[..i+1] == childRoomIds[..i] + [childRoomIds[i]] && [childRoomIds[i]][1..] == [];
        KeepDistributes(childRoomIds[..i], [childRoomIds[i]], known);
        if childRoomIds[i] in spaceIds {
          spaces := spaces + [childRoomIds[i]];
        }
      }
      assert childRoomIds[..|childRoomIds|] == childRoomIds;
      childSpaces := spaces;
    }
  }
}
