/** What the session makes of a room part, and when reading a merge equals reading the responses one by one. */
module RoomReplay {
  import opened Basics
  import opened SyncMerge

  // `state` holds the last event of each key; `timeline` the stored messages, oldest first.
  datatype RoomView = RoomView(invited: bool, state: map<string, Event>, timeline: seq<Event>)

  const FRESH := RoomView(false, map[], [])

  predicate IsJoined(s: Option<RoomView>) { s.Some? && !s.value.invited }

  function Written(state: map<string, Event>, e: Event): map<string, Event> {
    if e.stateKey.Some? then state[e.stateKey.value := e] else state
  }

  function WriteAll(state: map<string, Event>, events: seq<Event>): map<string, Event> {
    if events == [] then state else Written(WriteAll(state, events[..|events|-1]), events[|events|-1])
  }

  predicate Knows(timeline: seq<Event>, id: string) { exists x :: x in timeline && x.id == id }

  // An event already stored is skipped; a state event updates the state.
  function AddEvent(v: RoomView, e: Event): RoomView {
    if Knows(v.timeline, e.id) then v else v.(state := Written(v.state, e), timeline := v.timeline + [e])
  }

  function AddAll(v: RoomView, events: seq<Event>): RoomView {
    if events == [] then v else AddEvent(AddAll(v, events[..|events|-1]), events[|events|-1])
  }

  // The state section first; a limited timeline, or joining after an invite, flushes the stored messages.
  function ApplyJoin(r: RoomSync, s: Option<RoomView>): RoomView {
    var v := if s.Some? then s.value else FRESH;
    var kept := if IsJoined(s) && !r.limited then v.timeline else [];
    AddAll(RoomView(false, WriteAll(v.state, r.state), kept), r.timeline)
  }

  // Invite events go through the timeline.
  function ApplyInvite(events: seq<Event>, s: Option<RoomView>): RoomView {
    AddAll((if s.Some? then s.value else FRESH).(invited := true), events)
  }

  // Joined rooms first, then invites, then left rooms, which are removed.
  function Apply(p: RoomPart, s: Option<RoomView>): Option<RoomView> {
    var afterJoin := if p.join.Some? then Some(ApplyJoin(p.join.value, s)) else s;
    var afterInvite := if p.invite.Some? then Some(ApplyInvite(p.invite.value, afterJoin)) else afterJoin;
    if p.leave.Some? then None else afterInvite
  }

  function Replay(parts: seq<RoomPart>, s: Option<RoomView>): Option<RoomView> {
    if parts == [] then s else Apply(parts[|parts|-1], Replay(parts[..|parts|-1], s))
  }

  lemma {:induction false} ReplayConcat(a: seq<RoomPart>, b: seq<RoomPart>, s: Option<RoomView>)
    ensures Replay(a + b, s) == Replay(b, Replay(a, s))
  {
    if b == [] {
      assert a + b == a;
    } else {
      assert (a + b)[..|a + b|-1] == a + b[..|b|-1];
      ReplayConcat(a, b[..|b|-1], s);
    }
  }

  // ---------- Membership ----------

  function StandingOf(s: Option<RoomView>): Standing {
    if s.None? then Left else if s.value.invited then Invited else Joined
  }

  lemma {:induction false} AddAllKeepsInvited(v: RoomView, events: seq<Event>)
    ensures AddAll(v, events).invited == v.invited
  {
    if events != [] { AddAllKeepsInvited(v, events[..|events|-1]); }
  }

  lemma ApplyStanding(p: RoomPart, s: Option<RoomView>)
    ensures StandingOf(Apply(p, s)) ==
      if p.leave.Some? then Left else if p.invite.Some? then Invited else if p.join.Some? then Joined else StandingOf(s)
  {
    var v := if s.Some? then s.value else FRESH;
    if p.join.Some? {
      var r := p.join.value;
      var kept := if IsJoined(s) && !r.limited then v.timeline else [];
      AddAllKeepsInvited(RoomView(false, WriteAll(v.state, r.state), kept), r.timeline);
    }
    if p.invite.Some? {
      var afterJoin := if p.join.Some? then ApplyJoin(p.join.value, s) else v;
      AddAllKeepsInvited(afterJoin.(invited := true), p.invite.value);
    }
  }

  lemma {:induction false} ReplayStanding(parts: seq<RoomPart>, s: Option<RoomView>)
    ensures StandingOf(Replay(parts, s)) == if LastWord(parts).Unmentioned? then StandingOf(s) else LastWord(parts)
  {
    if parts != [] {
      ReplayStanding(parts[..|parts|-1], s);
      ApplyStanding(parts[|parts|-1], Replay(parts[..|parts|-1], s));
    }
  }

  lemma {:induction false} LeftIsMentioned(parts: seq<RoomPart>)
    requires EverLeft(parts)
    ensures !LastWord(parts).Unmentioned?
  {
    if parts[|parts|-1] == NOTHING {
      LeftIsMentioned(parts[..|parts|-1]);
    }
  }

  lemma {:induction false} NeverLeftNotLast(parts: seq<RoomPart>)
    requires !EverLeft(parts)
    ensures !LastWord(parts).Left?
  {
    if parts != [] {
      assert parts[|parts|-1] in parts;
      NeverLeftNotLast(parts[..|parts|-1]);
    }
  }

  // For every list of responses and every bracketing, the merged response leaves the session with the
  // membership of the one-by-one replay exactly when the room was never left or leaving was the last word.
  lemma MergedMembership(plan: Plan, s: Option<RoomView>)
    ensures StandingOf(Apply(Eval(plan), s)) == StandingOf(Replay(Parts(plan), s)) <==>
            !EverLeft(Parts(plan)) || LastWord(Parts(plan)).Left?
  {
    EvalStanding(plan);
    ApplyStanding(Eval(plan), s);
    ReplayStanding(Parts(plan), s);
    if EverLeft(Parts(plan)) {
      LeftIsMentioned(Parts(plan));
    } else {
      NeverLeftNotLast(Parts(plan));
    }
  }

  // Neither the chunk size limit nor the moment of merging can be observed by the session.
  lemma GroupingIsInvisible(plan: Plan, other: Plan, s: Option<RoomView>)
    requires Parts(plan) == Parts(other)
    ensures Apply(Eval(plan), s) == Apply(Eval(other), s)
  {
    EvalStanding(plan);
    EvalStanding(other);
    if !EverLeft(Parts(plan)) {
      EvalIsShape(plan);
      EvalIsShape(other);
    }
  }

  // ---------- The last event of a key ----------

  function LastWrite(events: seq<Event>, key: string): Option<Event> {
    if events == [] then None
    else if events[|events|-1].stateKey == Some(key) then Some(events[|events|-1])
    else LastWrite(events[..|events|-1], key)
  }

  function Lookup(state: map<string, Event>, key: string): Option<Event> {
    if key in state then Some(state[key]) else None
  }

  lemma {:induction false} LastWriteOfConcat(a: seq<Event>, b: seq<Event>, key: string)
    ensures LastWrite(a + b, key) == OrElse(LastWrite(b, key), LastWrite(a, key))
  {
    if b == [] {
      assert a + b == a;
    } else {
      assert (a + b)[..|a + b|-1] == a + b[..|b|-1];
      LastWriteOfConcat(a, b[..|b|-1], key);
    }
  }

  lemma {:induction false} WriteAllLookup(state: map<string, Event>, events: seq<Event>, key: string)
    ensures Lookup(WriteAll(state, events), key) == OrElse(LastWrite(events, key), Lookup(state, key))
  {
    if events != [] { WriteAllLookup(state, events[..|events|-1], key); }
  }

  lemma SameLookups(a: map<string, Event>, b: map<string, Event>)
    requires forall key :: Lookup(a, key) == Lookup(b, key)
    ensures a == b
  {
    assert forall key :: key in a <==> Lookup(a, key).Some?;
    assert forall key :: key in b <==> Lookup(b, key).Some?;
    assert forall key | key in a :: Lookup(a, key) == Some(a[key]);
    assert forall key | key in b :: Lookup(b, key) == Some(b[key]);
  }

  // ---------- Whatever is sent, once or twice ----------

  ghost predicate DistinctIds(events: seq<Event>) {
    forall i, j | 0 <= i < j < |events| :: events[i].id != events[j].id
  }

  // Those events whose id is neither stored nor that of an earlier one.
  function FirstSeen(timeline: seq<Event>, events: seq<Event>): seq<Event> {
    if events == [] then []
    else
      var init, e := events[..|events|-1], events[|events|-1];
      FirstSeen(timeline, init) +
      if exists x :: x in timeline + init && x.id == e.id then [] else [e]
  }

  // For any events: those seen for the first time are stored, in order and behind what was there, and write the state;
  // the others change neither.
  lemma {:induction false} StoresFirstSeen(v: RoomView, events: seq<Event>)
    ensures
      var seen := FirstSeen(v.timeline, events);
      AddAll(v, events) == RoomView(v.invited, WriteAll(v.state, seen), v.timeline + seen)
  {
    if events == [] {
      assert v.timeline + [] == v.timeline;
    } else {
      var init, e := events[..|events|-1], events[|events|-1];
      StoresFirstSeen(v, init);
      KnownAfter(v, init);
      var seen := FirstSeen(v.timeline, init);
      assert Knows(v.timeline + init, e.id) <==> Knows(AddAll(v, init).timeline, e.id);
      assert seen + [] == seen;
      assert (seen + [e])[..|seen + [e]|-1] == seen;
      assert v.timeline + (seen + [e]) == (v.timeline + seen) + [e];
    }
  }

  // The ids stored are the old ones and those of the events.
  lemma {:induction false} KnownAfter(v: RoomView, events: seq<Event>)
    ensures forall id :: Knows(AddAll(v, events).timeline, id) <==> Knows(v.timeline + events, id)
  {
    if events == [] {
      assert v.timeline + [] == v.timeline;
    } else {
      var init, e := events[..|events|-1], events[|events|-1];
      KnownAfter(v, init);
      assert v.timeline + events == (v.timeline + init) + [e];
      forall id ensures Knows(AddAll(v, events).timeline, id) <==> Knows(v.timeline + events, id) {
        KnowsNext(AddAll(v, init).timeline, e, id);
        KnowsNext(v.timeline + init, e, id);
      }
    }
  }

  lemma KnowsNext(events: seq<Event>, e: Event, id: string)
    ensures Knows(events + [e], id) <==> Knows(events, id) || e.id == id
  {
    if x :| x in events && x.id == id { assert x in events + [e]; }
    assert e in events + [e];
  }

  // So no id is ever stored twice.
  lemma {:induction false} StoresOnce(v: RoomView, events: seq<Event>)
    requires DistinctIds(v.timeline)
    ensures DistinctIds(AddAll(v, events).timeline)
  {
    if events != [] {
      StoresOnce(v, events[..|events|-1]);
      var before := AddAll(v, events[..|events|-1]).timeline;
      assert forall x | x in before && !Knows(before, events[|events|-1].id) :: x.id != events[|events|-1].id;
    }
  }

  // A view stays the same exactly when every event sent is stored already.
  lemma OnlyKnownIff(v: RoomView, events: seq<Event>)
    ensures AddAll(v, events) == v <==> forall e | e in events :: exists x :: x in v.timeline && x.id == e.id
  {
    StoresFirstSeen(v, events);
    KnownAfter(v, events);
    if forall e | e in events :: exists x :: x in v.timeline && x.id == e.id {
      NothingFirstSeen(v.timeline, events);
      assert v.timeline + [] == v.timeline;
    } else {
      var e :| e in events && !Knows(v.timeline, e.id);
      assert e in v.timeline + events;
    }
  }

  lemma {:induction false} NothingFirstSeen(timeline: seq<Event>, events: seq<Event>)
    requires forall e | e in events :: exists x :: x in timeline && x.id == e.id
    ensures FirstSeen(timeline, events) == []
  {
    if events != [] {
      assert events[|events|-1] in events;
      NothingFirstSeen(timeline, events[..|events|-1]);
    }
  }

  // No response makes a room store two messages of one id.
  lemma ApplyStoresOnce(p: RoomPart, s: Option<RoomView>)
    requires DistinctIds(Held(s))
    ensures DistinctIds(Held(Apply(p, s)))
  {
    var v := if s.Some? then s.value else FRESH;
    var afterJoin := if p.join.Some? then ApplyJoin(p.join.value, s) else v;
    if p.join.Some? {
      var r := p.join.value;
      var kept := if IsJoined(s) && !r.limited then v.timeline else [];
      StoresOnce(RoomView(false, WriteAll(v.state, r.state), kept), r.timeline);
    }
    if p.invite.Some? { StoresOnce(afterJoin.(invited := true), p.invite.value); }
  }

  // For every list of responses, overlapping ones and repeated ones included.
  lemma {:induction false} ReplayStoresOnce(parts: seq<RoomPart>, s: Option<RoomView>)
    requires DistinctIds(Held(s))
    ensures DistinctIds(Held(Replay(parts, s)))
  {
    if parts != [] {
      ReplayStoresOnce(parts[..|parts|-1], s);
      ApplyStoresOnce(parts[|parts|-1], Replay(parts[..|parts|-1], s));
    }
  }

  // A response that brings a joined room a gapless timeline and nothing else leaves it as it is exactly when every
  // message of it is stored already.
  lemma OverlapChangesNothingIff(p: RoomPart, s: Option<RoomView>)
    requires IsJoined(s) && p.join.Some? && p.invite.None? && p.leave.None?
    requires !p.join.value.limited && p.join.value.state == []
    ensures Apply(p, s) == s <==> forall e | e in p.join.value.timeline :: exists x :: x in Held(s) && x.id == e.id
  {
    OnlyKnownIff(s.value, p.join.value.timeline);
  }

  // ---------- Every event comes once ----------

  function Held(s: Option<RoomView>): seq<Event> { if s.Some? then s.value.timeline else [] }

  function StateOf(s: Option<RoomView>): map<string, Event> { if s.Some? then s.value.state else map[] }

  // The timeline and invite events of the responses, in order.
  function Texts(parts: seq<RoomPart>): seq<Event> {
    if parts == [] then []
    else Texts(parts[..|parts|-1]) + (JoinOf(parts[|parts|-1]).timeline + InviteOf(parts[|parts|-1]))
  }

  // The server sends each message of a room once, and none that the session already stores.
  ghost predicate SentOnce(parts: seq<RoomPart>, s: Option<RoomView>) {
    DistinctIds(Held(s) + Texts(parts))
  }

  ghost predicate New(timeline: seq<Event>, events: seq<Event>) {
    DistinctIds(events) && forall x, y | x in timeline && y in events :: x.id != y.id
  }

  lemma NewSplit(timeline: seq<Event>, a: seq<Event>, b: seq<Event>)
    requires New(timeline, a + b)
    ensures New(timeline, a) && New(timeline + a, b)
  {
    var all := a + b;
    assert forall i | 0 <= i < |a| :: all[i] == a[i];
    assert forall i | 0 <= i < |b| :: all[|a| + i] == b[i];
    assert forall x | x in a :: x in all;
    assert forall x | x in b :: x in all;
    forall x, y | x in timeline + a && y in b ensures x.id != y.id {
      if x in a {
        var i :| 0 <= i < |a| && a[i] == x;
        var j :| 0 <= j < |b| && b[j] == y;
        assert all[i].id != all[|a| + j].id;
      }
    }
  }

  lemma {:induction false} AddNew(v: RoomView, events: seq<Event>)
    requires New(v.timeline, events)
    ensures AddAll(v, events) == v.(state := WriteAll(v.state, events), timeline := v.timeline + events)
  {
    if events == [] {
      assert v.timeline + [] == v.timeline;
    } else {
      var init, e := events[..|events|-1], events[|events|-1];
      assert events == init + [e];
      NewSplit(v.timeline, init, [e]);
      AddNew(v, init);
      assert e in [e];
      assert v.timeline + events == (v.timeline + init) + [e];
    }
  }

  lemma NewAfter(held: seq<Event>, before: seq<Event>, events: seq<Event>, timeline: seq<Event>)
    requires DistinctIds((held + before) + events)
    requires forall x | x in timeline :: x in held || x in before
    ensures New(timeline, events)
  {
    var all, n := (held + before) + events, |held + before|;
    forall i, j | 0 <= i < j < |events| ensures events[i].id != events[j].id {
      assert all[n + i].id != all[n + j].id;
    }
    forall x, y | x in timeline && y in events ensures x.id != y.id {
      assert x in held + before;
      var i :| 0 <= i < n && (held + before)[i] == x;
      var j :| 0 <= j < |events| && events[j] == y;
      assert all[i].id != all[n + j].id;
    }
  }

  lemma SentOncePrefix(parts: seq<RoomPart>, s: Option<RoomView>)
    requires parts != [] && SentOnce(parts, s)
    ensures SentOnce(parts[..|parts|-1], s)
  {
    var init := parts[..|parts|-1];
    assert forall i | 0 <= i < |Held(s) + Texts(init)| :: (Held(s) + Texts(parts))[i] == (Held(s) + Texts(init))[i];
  }

  function Text(p: RoomPart): seq<Event> { JoinOf(p).timeline + InviteOf(p) }

  // Everything a response says, in the order the session takes it in.
  function Says(p: RoomPart): seq<Event> { JoinOf(p).state + Text(p) }

  function KeptBy(p: RoomPart, s: Option<RoomView>): seq<Event> {
    if p.join.None? then Held(s) else if IsJoined(s) && !p.join.value.limited then Held(s) else []
  }

  predicate Mentions(p: RoomPart) { p.join.Some? || p.invite.Some? }

  // Reading a part whose messages are all new.
  function Read(p: RoomPart, s: Option<RoomView>): Option<RoomView> {
    if Mentions(p) then Some(RoomView(p.invite.Some?, WriteAll(StateOf(s), Says(p)), KeptBy(p, s) + Text(p))) else s
  }

  lemma JoinNew(p: RoomPart, s: Option<RoomView>)
    requires p.join.Some? && New(KeptBy(p, s), p.join.value.timeline)
    ensures
      var j := p.join.value;
      ApplyJoin(j, s) ==
        RoomView(false, WriteAll(StateOf(s), j.state + j.timeline), KeptBy(p, s) + j.timeline)
  {
    var j := p.join.value;
    AddNew(RoomView(false, WriteAll(StateOf(s), j.state), KeptBy(p, s)), j.timeline);
    WriteConcat(StateOf(s), j.state, j.timeline);
  }

  lemma InviteNew(events: seq<Event>, s: Option<RoomView>)
    requires New(Held(s), events)
    ensures ApplyInvite(events, s) == RoomView(true, WriteAll(StateOf(s), events), Held(s) + events)
  {
    AddNew((if s.Some? then s.value else FRESH).(invited := true), events);
  }

  // What reading new messages comes to.
  lemma ApplyNew(p: RoomPart, s: Option<RoomView>)
    requires p.leave.None? && New(KeptBy(p, s), Text(p))
    ensures Apply(p, s) == Read(p, s)
  {
    var j, kept, invite := JoinOf(p), KeptBy(p, s), InviteOf(p);
    NewSplit(kept, j.timeline, invite);
    assert kept + Text(p) == (kept + j.timeline) + invite;
    assert Says(p) == (j.state + j.timeline) + invite;
    WriteConcat(StateOf(s), j.state + j.timeline, invite);
    if p.join.Some? {
      JoinNew(p, s);
    } else {
      assert kept + j.timeline == kept;
    }
    if p.invite.Some? {
      InviteNew(invite, if p.join.Some? then Some(ApplyJoin(p.join.value, s)) else s);
    } else {
      assert (kept + j.timeline) + invite == kept + j.timeline;
    }
  }

  lemma {:induction false} WriteConcat(state: map<string, Event>, a: seq<Event>, b: seq<Event>)
    ensures WriteAll(state, a + b) == WriteAll(WriteAll(state, a), b)
  {
    if b == [] {
      assert a + b == a;
    } else {
      assert (a + b)[..|a + b|-1] == a + b[..|b|-1];
      WriteConcat(state, a, b[..|b|-1]);
    }
  }

  // ---------- Both readings, key by key ----------

  // Everything the responses say, in the order of the replay.
  function All(parts: seq<RoomPart>): seq<Event> {
    if parts == [] then [] else All(parts[..|parts|-1]) + Says(parts[|parts|-1])
  }

  lemma {:induction false} NeverLeft(parts: seq<RoomPart>)
    requires !EverLeft(parts) && parts != []
    ensures !EverLeft(parts[..|parts|-1]) && parts[|parts|-1].leave.None?
  {
    assert parts[|parts|-1] in parts;
    assert forall p | p in parts[..|parts|-1] :: p in parts;
  }

  lemma {:induction false} ReplayHolds(parts: seq<RoomPart>, s: Option<RoomView>)
    requires !EverLeft(parts) && SentOnce(parts, s)
    ensures forall x | x in Held(Replay(parts, s)) :: x in Held(s) || x in Texts(parts)
  {
    if parts != [] {
      var init, p := parts[..|parts|-1], parts[|parts|-1];
      NeverLeft(parts);
      SentOncePrefix(parts, s);
      ReplayHolds(init, s);
      LastIsNew(parts, s);
      ApplyNew(p, Replay(init, s));
    }
  }

  lemma {:induction false} LastIsNew(parts: seq<RoomPart>, s: Option<RoomView>)
    requires parts != [] && !EverLeft(parts) && SentOnce(parts, s)
    requires forall x | x in Held(Replay(parts[..|parts|-1], s)) :: x in Held(s) || x in Texts(parts[..|parts|-1])
    ensures New(KeptBy(parts[|parts|-1], Replay(parts[..|parts|-1], s)), Text(parts[|parts|-1]))
  {
    var init, p := parts[..|parts|-1], parts[|parts|-1];
    assert Held(s) + Texts(parts) == (Held(s) + Texts(init)) + Text(p);
    NewAfter(Held(s), Texts(init), Text(p), KeptBy(p, Replay(init, s)));
  }

  // One more response, read after the others.
  lemma ReplayNext(parts: seq<RoomPart>, s: Option<RoomView>)
    requires parts != [] && !EverLeft(parts) && SentOnce(parts, s)
    ensures Replay(parts, s) == Read(parts[|parts|-1], Replay(parts[..|parts|-1], s))
  {
    NeverLeft(parts);
    SentOncePrefix(parts, s);
    ReplayHolds(parts[..|parts|-1], s);
    LastIsNew(parts, s);
    ApplyNew(parts[|parts|-1], Replay(parts[..|parts|-1], s));
  }

  lemma {:induction false} ReplayLookup(parts: seq<RoomPart>, s: Option<RoomView>, key: string)
    requires !EverLeft(parts) && SentOnce(parts, s)
    ensures Lookup(StateOf(Replay(parts, s)), key) == OrElse(LastWrite(All(parts), key), Lookup(StateOf(s), key))
  {
    if parts != [] {
      var init, p := parts[..|parts|-1], parts[|parts|-1];
      NeverLeft(parts);
      SentOncePrefix(parts, s);
      ReplayLookup(init, s, key);
      ReplayNext(parts, s);
      WriteAllLookup(StateOf(Replay(init, s)), Says(p), key);
      LastWriteOfConcat(All(init), Says(p), key);
    }
  }

  // The messages of the merge are among those sent.
  lemma {:induction false} ShapeIsNew(parts: seq<RoomPart>, s: Option<RoomView>)
    requires !EverLeft(parts) && SentOnce(parts, s)
    ensures New(Held(s), Uncut(parts) + Trailing(parts))
    ensures forall x | x in Uncut(parts) + Trailing(parts) :: x in Texts(parts)
  {
    if parts != [] {
      var init, p := parts[..|parts|-1], parts[|parts|-1];
      NeverLeft(parts);
      SentOncePrefix(parts, s);
      ShapeIsNew(init, s);
      NoJoinNoEvents(init);
      assert Held(s) + Texts(parts) == (Held(s) + Texts(init)) + Text(p);
      var cut := if p.join.None? then Uncut(init) + Trailing(init) else if JoinOf(p).limited then [] else Uncut(init);
      TextsNext(parts, cut);
      NewAfter(Held(s), Texts(init), Text(p), Held(s) + cut);
      NewJoined(Held(s), Uncut(init) + Trailing(init), cut, Text(p));
    }
  }

  lemma TextsNext(parts: seq<RoomPart>, cut: seq<Event>)
    requires parts != []
    requires
      var init, p := parts[..|parts|-1], parts[|parts|-1];
      cut == if p.join.None? then Uncut(init) + Trailing(init) else if JoinOf(p).limited then [] else Uncut(init)
    ensures Uncut(parts) + Trailing(parts) == cut + Text(parts[|parts|-1])
  {
    var init, p := parts[..|parts|-1], parts[|parts|-1];
    if p.join.None? {
      assert Uncut(parts) == Uncut(init) && Text(p) == InviteOf(p);
      assert Uncut(init) + (Trailing(init) + InviteOf(p)) == cut + InviteOf(p);
    } else {
      assert Trailing(parts) == InviteOf(p);
      assert (cut + JoinOf(p).timeline) + InviteOf(p) == cut + Text(p);
    }
  }

  lemma NewJoined(held: seq<Event>, all: seq<Event>, cut: seq<Event>, events: seq<Event>)
    requires New(held, all) && cut <= all && New(held + cut, events)
    ensures New(held, cut + events)
  {
    assert forall x | x in cut :: x in all && x in held + cut;
    assert forall x | x in held :: x in held + cut;
  }

  // The merge, read at once.
  lemma ShapeReading(parts: seq<RoomPart>, s: Option<RoomView>)
    requires !EverLeft(parts) && SentOnce(parts, s)
    ensures Apply(Shape(parts), s) == Read(Shape(parts), s)
    ensures Says(Shape(parts)) == Moved(parts) + (Uncut(parts) + Trailing(parts))
  {
    NoJoinNoEvents(parts);
    ShapeIsNew(parts, s);
    ApplyNew(Shape(parts), s);
  }

  lemma ShapeLookup(parts: seq<RoomPart>, s: Option<RoomView>, key: string)
    requires !EverLeft(parts) && SentOnce(parts, s)
    ensures Lookup(StateOf(Apply(Shape(parts), s)), key) ==
      OrElse(LastWrite(Trailing(parts), key),
        OrElse(LastWrite(Uncut(parts), key), OrElse(LastWrite(Moved(parts), key), Lookup(StateOf(s), key))))
  {
    ShapeReading(parts, s);
    NoJoinNoEvents(parts);
    WriteAllLookup(StateOf(s), Moved(parts) + (Uncut(parts) + Trailing(parts)), key);
    LastWriteOfConcat(Moved(parts), Uncut(parts) + Trailing(parts), key);
    LastWriteOfConcat(Uncut(parts), Trailing(parts), key);
  }

  // ---------- When the two readings agree ----------

  // The last thing the responses say about a key, and what the merge makes of it.
  datatype Word =
    | Silent
    | InTimeline(event: Event, cut: bool)      // cut: a later timeline is limited
    | InSection(event: Event, moved: bool)     // moved: the merge reads it before the timelines

  function WordOn(parts: seq<RoomPart>, key: string, joined: bool, cut: bool): Word {
    if parts == [] then Silent
    else
      var init, p := parts[..|parts|-1], parts[|parts|-1];
      NextWord(WordOn(init, key, joined || p.join.Some?, cut || JoinOf(p).limited),
        LastWrite(InviteOf(p), key), LastWrite(JoinOf(p).timeline, key), LastWrite(JoinOf(p).state, key), joined, cut)
  }

  // One response more: what it says counts before what was said earlier.
  function NextWord(earlier: Word, invite: Option<Event>, text: Option<Event>, state: Option<Event>,
                    joined: bool, cut: bool): Word
  {
    if invite.Some? then InSection(invite.value, joined)
    else if text.Some? then InTimeline(text.value, cut)
    else if state.Some? then InSection(state.value, true)
    else earlier
  }

  // The merge keeps the last word on a key, unless a limited timeline cut it off while neither a section nor the
  // session has the same, or it stands in a section and an uncut timeline has said otherwise.
  predicate KeyKept(parts: seq<RoomPart>, s: Option<RoomView>, key: string) {
    match WordOn(parts, key, false, false)
    case Silent => true
    case InTimeline(e, cut) => cut ==> OrElse(LastWrite(Moved(parts), key), Lookup(StateOf(s), key)) == Some(e)
    case InSection(e, moved) => moved ==> LastWrite(Uncut(parts), key) in {None, Some(e)}
  }

  function EventOf(w: Word): Option<Event> {
    match w
    case Silent => None
    case InTimeline(e, _) => Some(e)
    case InSection(e, _) => Some(e)
  }

  lemma SaysLast(p: RoomPart, key: string)
    ensures LastWrite(Says(p), key) ==
      OrElse(LastWrite(InviteOf(p), key), OrElse(LastWrite(JoinOf(p).timeline, key), LastWrite(JoinOf(p).state, key)))
  {
    LastWriteOfConcat(JoinOf(p).state, Text(p), key);
    LastWriteOfConcat(JoinOf(p).timeline, InviteOf(p), key);
  }

  lemma {:induction false} WordIsLast(parts: seq<RoomPart>, key: string, joined: bool, cut: bool)
    ensures EventOf(WordOn(parts, key, joined, cut)) == LastWrite(All(parts), key)
  {
    if parts != [] {
      var init, p := parts[..|parts|-1], parts[|parts|-1];
      WordIsLast(init, key, joined || p.join.Some?, cut || JoinOf(p).limited);
      LastWriteOfConcat(All(init), Says(p), key);
      SaysLast(p, key);
    }
  }

  // Where the merge has the last word.
  lemma {:induction false} WordInUncut(parts: seq<RoomPart>, key: string, joined: bool, cut: bool)
    ensures
      var w := WordOn(parts, key, joined, cut);
      && (w.Silent? ==> LastWrite(Uncut(parts), key).None?)
      && (w.InTimeline? && !cut ==> LastWrite(Uncut(parts), key) == if w.cut then None else Some(w.event))
      && (w.InTimeline? && cut ==> w.cut)
  {
    if parts != [] {
      var init, p := parts[..|parts|-1], parts[|parts|-1];
      WordInUncut(init, key, joined || p.join.Some?, cut || JoinOf(p).limited);
      LastWriteOfConcat(if JoinOf(p).limited then [] else Uncut(init), JoinOf(p).timeline, key);
    }
  }

  lemma TrailingWrite(parts: seq<RoomPart>, key: string)
    requires parts != []
    ensures
      var init, p := parts[..|parts|-1], parts[|parts|-1];
      LastWrite(Trailing(parts), key) ==
        OrElse(LastWrite(InviteOf(p), key), if p.join.Some? then None else LastWrite(Trailing(init), key))
  {
    var init, p := parts[..|parts|-1], parts[|parts|-1];
    LastWriteOfConcat(if p.join.Some? then [] else Trailing(init), InviteOf(p), key);
  }

  lemma MovedWrite(parts: seq<RoomPart>, key: string)
    requires parts != []
    ensures
      var init, p := parts[..|parts|-1], parts[|parts|-1];
      LastWrite(Moved(parts), key) ==
        if p.join.None? then LastWrite(Moved(init), key)
        else OrElse(LastWrite(p.join.value.state, key),
                    OrElse(LastWrite(Trailing(init), key), LastWrite(Moved(init), key)))
  {
    var init, p := parts[..|parts|-1], parts[|parts|-1];
    if p.join.Some? {
      LastWriteOfConcat(Moved(init), Trailing(init) + p.join.value.state, key);
      LastWriteOfConcat(Trailing(init), p.join.value.state, key);
    } else {
      assert Moved(parts) == Moved(init);
    }
  }

  // Where a word stands among the trailing invites and the moved sections.
  predicate Placed(w: Word, trailing: Option<Event>, moved: Option<Event>, joined: bool) {
    match w
    case Silent => trailing.None? && moved.None?
    case InTimeline(_, _) => trailing.None?
    case InSection(e, m) =>
      if joined then m && OrElse(trailing, moved) == Some(e)
      else if m then trailing.None? && moved == Some(e)
      else trailing == Some(e)
  }

  lemma PlacedNext(earlier: Word, trailing: Option<Event>, moved: Option<Event>, join: bool, joined: bool, cut: bool,
                   invite: Option<Event>, text: Option<Event>, state: Option<Event>)
    requires Placed(earlier, trailing, moved, joined || join)
    requires !join ==> text.None? && state.None?
    ensures Placed(NextWord(earlier, invite, text, state, joined, cut),
                   OrElse(invite, if join then None else trailing),
                   if join then OrElse(state, OrElse(trailing, moved)) else moved, joined)
  {
  }

  lemma {:induction false} WordInSections(parts: seq<RoomPart>, key: string, joined: bool, cut: bool)
    ensures Placed(WordOn(parts, key, joined, cut), LastWrite(Trailing(parts), key),
                   LastWrite(Moved(parts), key), joined)
  {
    if parts != [] {
      var init, p := parts[..|parts|-1], parts[|parts|-1];
      WordInSections(init, key, joined || p.join.Some?, cut || JoinOf(p).limited);
      TrailingWrite(parts, key);
      MovedWrite(parts, key);
      PlacedNext(WordOn(init, key, joined || p.join.Some?, cut || JoinOf(p).limited),
        LastWrite(Trailing(init), key), LastWrite(Moved(init), key), p.join.Some?, joined, cut,
        LastWrite(InviteOf(p), key), LastWrite(JoinOf(p).timeline, key), LastWrite(JoinOf(p).state, key));
    }
  }

  lemma KeyKeptIff(parts: seq<RoomPart>, s: Option<RoomView>, key: string)
    requires !EverLeft(parts) && SentOnce(parts, s)
    ensures Lookup(StateOf(Apply(Shape(parts), s)), key) == Lookup(StateOf(Replay(parts, s)), key) <==>
            KeyKept(parts, s, key)
  {
    ShapeLookup(parts, s, key);
    ReplayLookup(parts, s, key);
    WordIsLast(parts, key, false, false);
    WordInUncut(parts, key, false, false);
    WordInSections(parts, key, false, false);
  }

  // ---------- The timeline ----------

  predicate JoinedAfter(parts: seq<RoomPart>, s: Option<RoomView>) {
    LastWord(parts).Joined? || (LastWord(parts).Unmentioned? && IsJoined(s))
  }

  // The messages the merge would still show.
  function StillShown(parts: seq<RoomPart>, s: Option<RoomView>): seq<Event> {
    (if IsJoined(s) && !AnyLimited(parts) then Held(s) else []) + Uncut(parts)
  }

  // Whenever a room that is only invited is joined without a limited timeline, nothing uncut stands before;
  // a limited timeline settles everything before it.
  predicate TimelineKept(parts: seq<RoomPart>, s: Option<RoomView>) {
    parts == [] ||
    var init, p := parts[..|parts|-1], parts[|parts|-1];
    if p.join.None? then TimelineKept(init, s)
    else if p.join.value.limited then true
    else if JoinedAfter(init, s) then TimelineKept(init, s)
    else StillShown(init, s) == []
  }

  function MergedTimeline(parts: seq<RoomPart>, s: Option<RoomView>): seq<Event> {
    (if AnyJoin(parts) then StillShown(parts, s) else Held(s)) + Trailing(parts)
  }

  lemma {:induction false} LastWordFlags(parts: seq<RoomPart>)
    requires !EverLeft(parts)
    ensures LastWord(parts).Invited? <==> Pending(parts)
    ensures LastWord(parts).Joined? ==> AnyJoin(parts) && !Pending(parts)
    ensures LastWord(parts).Unmentioned? ==> !AnyJoin(parts) && !Pending(parts)
    ensures !LastWord(parts).Left?
  {
    if parts != [] {
      NeverLeft(parts);
      LastWordFlags(parts[..|parts|-1]);
    }
  }

  lemma JoinedShows(parts: seq<RoomPart>, s: Option<RoomView>)
    requires !EverLeft(parts) && JoinedAfter(parts, s)
    ensures MergedTimeline(parts, s) == StillShown(parts, s)
  {
    LastWordFlags(parts);
    NoJoinNoEvents(parts);
  }

  function MergeKeeps(init: seq<RoomPart>, p: RoomPart, s: Option<RoomView>): seq<Event> {
    if p.join.None? then MergedTimeline(init, s) else if p.join.value.limited then [] else StillShown(init, s)
  }

  lemma MergedTimelineNext(parts: seq<RoomPart>, s: Option<RoomView>)
    requires parts != []
    ensures
      var init, p := parts[..|parts|-1], parts[|parts|-1];
      MergedTimeline(parts, s) ==
        MergeKeeps(init, p, s) + Text(p)
  {
    var init, p := parts[..|parts|-1], parts[|parts|-1];
    assert Uncut(parts) == (if JoinOf(p).limited then [] else Uncut(init)) + JoinOf(p).timeline;
    if p.join.None? {
      RegroupText(if AnyJoin(init) then StillShown(init, s) else Held(s), Trailing(init), Text(p));
      assert Uncut(parts) == Uncut(init) && Text(p) == InviteOf(p);
    } else {
      var base := if IsJoined(s) && !AnyLimited(parts) then Held(s) else [];
      assert Trailing(parts) == InviteOf(p);
      Regroup(base, if p.join.value.limited then [] else Uncut(init), p.join.value.timeline, InviteOf(p));
    }
  }

  lemma RegroupText(shown: seq<Event>, trailing: seq<Event>, text: seq<Event>)
    ensures shown + (trailing + text) == (shown + trailing) + text
  {
  }

  lemma Regroup(base: seq<Event>, uncut: seq<Event>, timeline: seq<Event>, invite: seq<Event>)
    ensures (base + (uncut + timeline)) + invite == (base + uncut) + (timeline + invite)
    ensures base == [] && uncut == [] ==> base + uncut == []
  {
  }

  lemma {:induction false} TimelineKeptIff(parts: seq<RoomPart>, s: Option<RoomView>)
    requires !EverLeft(parts) && SentOnce(parts, s)
    ensures MergedTimeline(parts, s) == Held(Replay(parts, s)) <==> TimelineKept(parts, s)
  {
    if parts == [] {
      assert MergedTimeline(parts, s) == Held(s);
    } else {
      var init, p := parts[..|parts|-1], parts[|parts|-1];
      NeverLeft(parts);
      SentOncePrefix(parts, s);
      TimelineKeptIff(init, s);
      MergedTimelineNext(parts, s);
      ReplayedTimelineNext(parts, s);
      if JoinedAfter(init, s) { JoinedShows(init, s); }
      SameSuffix(MergeKeeps(init, p, s), ReplayKeeps(init, p, s), Text(p));
    }
  }

  function ReplayKeeps(init: seq<RoomPart>, p: RoomPart, s: Option<RoomView>): seq<Event> {
    if p.join.None? || (JoinedAfter(init, s) && !p.join.value.limited) then Held(Replay(init, s)) else []
  }

  lemma ReplayedTimelineNext(parts: seq<RoomPart>, s: Option<RoomView>)
    requires parts != [] && !EverLeft(parts) && SentOnce(parts, s)
    ensures
      var init, p := parts[..|parts|-1], parts[|parts|-1];
      Held(Replay(parts, s)) == ReplayKeeps(init, p, s) + Text(p)
  {
    var init, p := parts[..|parts|-1], parts[|parts|-1];
    NeverLeft(parts);
    ReplayNext(parts, s);
    ReplayStanding(init, s);
    LastWordFlags(init);
    assert Mentions(p) || Text(p) == [];
    assert Held(Replay(init, s)) + [] == Held(Replay(init, s));
  }

  lemma SameSuffix(a: seq<Event>, b: seq<Event>, c: seq<Event>)
    ensures a + c == b + c <==> a == b
  {
    if a + c == b + c {
      assert |a| == |b|;
      assert a == (a + c)[..|a|] && b == (b + c)[..|b|];
    }
  }

  // ---------- The merge against the replay ----------

  ghost predicate Kept(parts: seq<RoomPart>, s: Option<RoomView>) {
    if EverLeft(parts) then LastWord(parts).Left?
    else TimelineKept(parts, s) && forall key :: KeyKept(parts, s, key)
  }

  lemma MergedHolds(parts: seq<RoomPart>, s: Option<RoomView>)
    requires !EverLeft(parts) && SentOnce(parts, s)
    ensures Held(Apply(Shape(parts), s)) == MergedTimeline(parts, s)
  {
    ShapeReading(parts, s);
    NoJoinNoEvents(parts);
    if AnyJoin(parts) {
      var base := if IsJoined(s) && !AnyLimited(parts) then Held(s) else [];
      assert (base + Uncut(parts)) + Trailing(parts) == base + (Uncut(parts) + Trailing(parts));
    } else {
      assert Text(Shape(parts)) == Trailing(parts);
      assert !Pending(parts) ==> Held(s) + Trailing(parts) == Held(s);
    }
  }

  lemma SameView(a: Option<RoomView>, b: Option<RoomView>)
    requires StandingOf(a) == StandingOf(b)
    ensures a == b <==> Held(a) == Held(b) && forall key :: Lookup(StateOf(a), key) == Lookup(StateOf(b), key)
  {
    if forall key :: Lookup(StateOf(a), key) == Lookup(StateOf(b), key) {
      SameLookups(StateOf(a), StateOf(b));
    }
  }

  // For every list of responses and every bracketing: the merge leaves the room with the membership, timeline and
  // state of the one-by-one replay exactly when it is kept.
  lemma MergedReplay(plan: Plan, s: Option<RoomView>)
    requires EverLeft(Parts(plan)) || SentOnce(Parts(plan), s)
    ensures Apply(Eval(plan), s) == Replay(Parts(plan), s) <==> Kept(Parts(plan), s)
  {
    var parts := Parts(plan);
    MergedMembership(plan, s);
    if EverLeft(parts) {
      EvalStanding(plan);
      ReplayStanding(parts, s);
    } else {
      EvalIsShape(plan);
      MergedHolds(parts, s);
      TimelineKeptIff(parts, s);
      forall key
        ensures Lookup(StateOf(Apply(Shape(parts), s)), key) == Lookup(StateOf(Replay(parts, s)), key) <==>
                KeyKept(parts, s, key)
      {
        KeyKeptIff(parts, s, key);
      }
      SameView(Apply(Shape(parts), s), Replay(parts, s));
    }
  }

  lemma MergeTwo(later: RoomPart, earlier: RoomPart, s: Option<RoomView>)
    requires EverLeft([earlier, later]) || SentOnce([earlier, later], s)
    ensures Apply(MergeRoom(later, earlier), s) == Apply(later, Apply(earlier, s)) <==> Kept([earlier, later], s)
  {
    assert [earlier] + [later] == [earlier, later];
    var plan := Merge(Leaf(earlier), Leaf(later));
    assert Parts(plan) == [earlier, later];
    MergedReplay(plan, s);
    assert [earlier, later][..1] == [earlier] && [earlier][..0] == [];
    assert Replay([earlier], s) == Apply(earlier, s);
  }

  // Ordinary responses to a joined room: a timeline without a gap, no state section, no invite, no leaving.
  predicate Ordinary(p: RoomPart) {
    p.leave.None? && p.invite.None? && !JoinOf(p).limited && JoinOf(p).state == []
  }

  lemma {:induction false} OrdinaryIsKept(parts: seq<RoomPart>, s: Option<RoomView>)
    requires IsJoined(s) && forall p | p in parts :: Ordinary(p)
    ensures Kept(parts, s)
  {
    OrdinaryTimeline(parts, s);
    forall key ensures KeyKept(parts, s, key) { OrdinaryWord(parts, key, false); }
  }

  lemma {:induction false} OrdinaryTimeline(parts: seq<RoomPart>, s: Option<RoomView>)
    requires IsJoined(s) && forall p | p in parts :: Ordinary(p)
    ensures !EverLeft(parts) && JoinedAfter(parts, s) && TimelineKept(parts, s)
  {
    if parts != [] {
      assert parts[|parts|-1] in parts && forall p | p in parts[..|parts|-1] :: p in parts;
      OrdinaryTimeline(parts[..|parts|-1], s);
    }
  }

  lemma {:induction false} OrdinaryWord(parts: seq<RoomPart>, key: string, joined: bool)
    requires forall p | p in parts :: Ordinary(p)
    ensures var w := WordOn(parts, key, joined, false); w.Silent? || (w.InTimeline? && !w.cut)
  {
    if parts != [] {
      var p := parts[|parts|-1];
      assert p in parts && forall q | q in parts[..|parts|-1] :: q in parts;
      OrdinaryWord(parts[..|parts|-1], key, joined || p.join.Some?);
    }
  }

  // ---------- Where the readings part ----------

  function Joins(state: seq<Event>, timeline: seq<Event>, limited: bool): RoomPart {
    NOTHING.(join := Some(RoomSync(state, timeline, limited, [])))
  }

  // A name that came in a timeline is lost to the merge when a limited timeline follows.
  lemma LimitedLosesName(name: Event, message: Event, key: string, s: Option<RoomView>)
    requires name.stateKey == Some(key) && message.stateKey.None? && Lookup(StateOf(s), key) != Some(name)
    requires SentOnce([Joins([], [name], false), Joins([], [message], true)], s)
    ensures
      var first, second := Joins([], [name], false), Joins([], [message], true);
      && Lookup(StateOf(Apply(second, Apply(first, s))), key) == Some(name)
      && Lookup(StateOf(Apply(MergeRoom(second, first), s)), key) == Lookup(StateOf(s), key)
  {
    var first, second := Joins([], [name], false), Joins([], [message], true);
    TwoReplayed(first, second, s, key);
    TwoMerged(first, second, s, key);
    assert LastWrite([name], key) == Some(name) && LastWrite([message], key).None?;
  }

  // A state section is overruled by the timeline before it.
  lemma OldNameOverrules(old': Event, name: Event, key: string, s: Option<RoomView>)
    requires old'.stateKey == Some(key) && name.stateKey == Some(key)
    requires SentOnce([Joins([], [old'], false), Joins([name], [], false)], s)
    ensures
      var first, second := Joins([], [old'], false), Joins([name], [], false);
      && Lookup(StateOf(Apply(second, Apply(first, s))), key) == Some(name)
      && Lookup(StateOf(Apply(MergeRoom(second, first), s)), key) == Some(old')
  {
    var first, second := Joins([], [old'], false), Joins([name], [], false);
    TwoReplayed(first, second, s, key);
    TwoMerged(first, second, s, key);
    assert LastWrite([name], key) == Some(name) && LastWrite([old'], key) == Some(old');
  }

  // Two joins and no invite.
  predicate TwoJoins(first: RoomPart, second: RoomPart) {
    && first.join.Some? && first.invite.None? && first.leave.None?
    && second.join.Some? && second.invite.None? && second.leave.None?
  }

  lemma ReplayOfTwo(first: RoomPart, second: RoomPart, s: Option<RoomView>)
    ensures Replay([first, second], s) == Apply(second, Apply(first, s))
  {
    assert [first, second][..1] == [first] && [first][..0] == [];
    assert Replay([first], s) == Apply(first, s);
  }

  // What two joins leave under a key, read one by one, and merged.
  lemma TwoReplayed(first: RoomPart, second: RoomPart, s: Option<RoomView>, key: string)
    requires TwoJoins(first, second) && SentOnce([first, second], s)
    ensures
      var a, b := first.join.value, second.join.value;
      Lookup(StateOf(Apply(second, Apply(first, s))), key) ==
        OrElse(LastWrite(b.timeline, key), OrElse(LastWrite(b.state, key),
          OrElse(LastWrite(a.timeline, key), OrElse(LastWrite(a.state, key), Lookup(StateOf(s), key)))))
  {
    ReplayOfTwo(first, second, s);
    AllOfTwo(first, second, key);
    ReplayLookup([first, second], s, key);
  }

  lemma TwoMerged(first: RoomPart, second: RoomPart, s: Option<RoomView>, key: string)
    requires TwoJoins(first, second) && SentOnce([first, second], s)
    ensures
      var a, b := first.join.value, second.join.value;
      Lookup(StateOf(Apply(MergeRoom(second, first), s)), key) ==
        OrElse(LastWrite(b.timeline, key), OrElse(if b.limited then None else LastWrite(a.timeline, key),
          OrElse(LastWrite(b.state, key), OrElse(LastWrite(a.state, key), Lookup(StateOf(s), key)))))
  {
    assert MergeRoom(second, first) == Shape([first, second]) by {
      ShapeOfOne(first);
      ShapeOfOne(second);
      ShapeOfMerge([first], [second]);
      assert [first] + [second] == [first, second];
    }
    UncutOfTwo(first, second, key);
    ShapeLookup([first, second], s, key);
  }

  lemma AllOfTwo(first: RoomPart, second: RoomPart, key: string)
    requires TwoJoins(first, second)
    ensures
      var a, b := first.join.value, second.join.value;
      LastWrite(All([first, second]), key) ==
        OrElse(LastWrite(b.timeline, key), OrElse(LastWrite(b.state, key),
          OrElse(LastWrite(a.timeline, key), LastWrite(a.state, key))))
  {
    assert [first, second][..1] == [first] && [first][..0] == [];
    assert All([first]) == Says(first);
    SaysLast(first, key);
    SaysLast(second, key);
    LastWriteOfConcat(All([first]), Says(second), key);
  }

  lemma UncutOfTwo(first: RoomPart, second: RoomPart, key: string)
    requires TwoJoins(first, second)
    ensures
      var parts, a, b := [first, second], first.join.value, second.join.value;
      && LastWrite(Uncut(parts), key) ==
           OrElse(LastWrite(b.timeline, key), if b.limited then None else LastWrite(a.timeline, key))
      && LastWrite(Moved(parts), key) == OrElse(LastWrite(b.state, key), LastWrite(a.state, key))
      && LastWrite(Trailing(parts), key).None?
  {
    var parts := [first, second];
    assert parts[..1] == [first] && [first][..0] == [];
    assert Uncut([first]) == first.join.value.timeline;
    LastWriteOfConcat(if second.join.value.limited then [] else Uncut([first]), second.join.value.timeline, key);
    MovedWrite(parts, key);
    MovedWrite([first], key);
    TrailingWrite(parts, key);
    TrailingWrite([first], key);
  }

  // Invited while joined: joining again flushes the messages of the replay, and none of the merge.
  lemma InviteFlushes(held: Event, message: Event, state: map<string, Event>)
    requires held.id != message.id
    ensures
      var s := Some(RoomView(false, state, [held]));
      var invite, join := NOTHING.(invite := Some([])), Joins([], [message], false);
      && Held(Apply(join, Apply(invite, s))) == [message]
      && Held(Apply(MergeRoom(join, invite), s)) == [held, message]
  {
    var s := Some(RoomView(false, state, [held]));
    var invite, join := NOTHING.(invite := Some([])), Joins([], [message], false);
    InvitedThenJoined(join, s);
    assert MergeRoom(join, invite) == join by { assert [] + join.join.value.state == []; }
    JoinNew(join, s);
    assert [held] + [message] == [held, message];
  }

  lemma InvitedThenJoined(join: RoomPart, s: Option<RoomView>)
    requires join.join.Some? && join.invite.None? && join.leave.None? && DistinctIds(join.join.value.timeline)
    ensures Held(Apply(join, Apply(NOTHING.(invite := Some([])), s))) == join.join.value.timeline
  {
    var invited := Apply(NOTHING.(invite := Some([])), s);
    InviteNew([], s);
    JoinNew(join, invited);
    assert [] + join.join.value.timeline == join.join.value.timeline;
  }
}
