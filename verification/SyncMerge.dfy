/** The in-cache merge of two /sync responses, room by room, and the normal form of a merged list. */
module SyncMerge {
  import opened Basics

  // A state event has a key, its type and state key taken together.
  datatype Event = Event(id: string, encrypted: bool, decrypted: bool, stateKey: Option<string>)

  datatype RoomSync = RoomSync(state: seq<Event>, timeline: seq<Event>, limited: bool, accountData: seq<Event>)

  // What one response says about one room, section by section.
  datatype RoomPart = RoomPart(join: Option<RoomSync>, invite: Option<seq<Event>>, leave: Option<RoomSync>)

  const NOTHING := RoomPart(None, None, None)

  function Append(earlier: RoomSync, later: RoomSync): RoomSync {
    RoomSync(earlier.state + later.state, earlier.timeline + later.timeline, later.limited,
             earlier.accountData + later.accountData)
  }

  // NSDictionary `+` on an optional entry.
  function AppendOption(earlier: Option<RoomSync>, later: Option<RoomSync>): Option<RoomSync> {
    if earlier.None? then later else if later.None? then earlier else Some(Append(earlier.value, later.value))
  }

  function JoinedOrLeft(p: RoomPart): Option<RoomSync> {
    if p.join.Some? then p.join else p.leave
  }

  predicate Limited(p: RoomPart) {
    JoinedOrLeft(p).Some? && JoinedOrLeft(p).value.limited
  }

  // A limited new timeline empties the old one and marks it limited.
  function FlushOld(later: RoomPart, earlier: RoomPart): RoomPart {
    if Limited(later) && earlier.join.Some?
    then earlier.(join := Some(earlier.join.value.(timeline := [], limited := true)))
    else earlier
  }

  // A limited old timeline marks the new one limited.
  function KeepLimited(later: RoomPart, earlier: RoomPart): RoomPart {
    if Limited(earlier) && later.join.Some?
    then later.(join := Some(later.join.value.(limited := true)))
    else later
  }

  function WithState(state: seq<Event>, r: RoomSync): RoomSync { r.(state := state + r.state) }

  // Joining or leaving moves the old invite state in front of the new state events.
  function TakeInvite(later: RoomPart, earlier: RoomPart): RoomPart {
    if earlier.invite.None? then later
    else if later.join.Some? then later.(join := Some(WithState(earlier.invite.value, later.join.value)))
    else if later.leave.Some? then later.(leave := Some(WithState(earlier.invite.value, later.leave.value)))
    else later
  }

  // Leaving moves the old joined state and timeline in front of the new ones.
  function TakeJoined(later: RoomPart, earlier: RoomPart): RoomPart {
    if later.leave.None? || earlier.join.None? then later
    else later.(leave := Some(later.leave.value.(
      state := earlier.join.value.state + later.leave.value.state,
      timeline := earlier.join.value.timeline + later.leave.value.timeline)))
  }

  function MergeRoom(later: RoomPart, earlier: RoomPart): RoomPart {
    var o := FlushOld(later, earlier);
    var n := TakeJoined(TakeInvite(KeepLimited(later, o), o), o);
    RoomPart(
      if later.leave.Some? then n.join else AppendOption(o.join, n.join),
      if JoinedOrLeft(later).Some? || o.invite.None? then n.invite
      else if n.invite.None? then o.invite else Some(o.invite.value + n.invite.value),
      AppendOption(o.leave, n.leave))
  }

  // ---------- Which events a lookup can still find ----------

  function OptionalEvents(r: Option<RoomSync>): seq<Event> {
    if r.None? then [] else r.value.state + r.value.timeline + r.value.accountData
  }

  function AllEvents(p: RoomPart): seq<Event> {
    OptionalEvents(p.join) + (if p.invite.None? then [] else p.invite.value) + OptionalEvents(p.leave)
  }

  function FindIn(p: RoomPart, id: string): Option<Event> {
    First(AllEvents(p), (e: Event) => e.id == id)
  }

  predicate InSync(r: Option<RoomSync>, e: Event) {
    r.Some? && (e in r.value.state || e in r.value.timeline || e in r.value.accountData)
  }

  // The part has the event in one of its sections.
  predicate Holds(p: RoomPart, e: Event) {
    InSync(p.join, e) || (p.invite.Some? && e in p.invite.value) || InSync(p.leave, e)
  }

  lemma AllEventsAreHeld(p: RoomPart, e: Event)
    ensures e in AllEvents(p) <==> Holds(p, e)
  {
  }

  // The event found has the id asked for, and is the first of them: joined before invited before left, state before
  // timeline before account data. None is found only when no section has one.
  lemma FoundIff(p: RoomPart, id: string, e: Event)
    ensures FindIn(p, id) == Some(e) ==> Holds(p, e) && e.id == id
    ensures FindIn(p, id) == Some(e) ==>
      exists k :: 0 <= k < |AllEvents(p)| && AllEvents(p)[k] == e && forall j | 0 <= j < k :: AllEvents(p)[j].id != id
    ensures FindIn(p, id).None? <==> forall x | Holds(p, x) :: x.id != id
  {
    var i := FirstIndex(AllEvents(p), (x: Event) => x.id == id);
    assert i < |AllEvents(p)| ==> FindIn(p, id) == Some(AllEvents(p)[i]);
    forall x ensures x in AllEvents(p) <==> Holds(p, x) { AllEventsAreHeld(p, x); }
  }

  lemma MergedEvents(later: RoomPart, earlier: RoomPart, e: Event)
    ensures Holds(MergeRoom(later, earlier), e) <==>
      || Holds(later, e)
      || (earlier.invite.Some? && e in earlier.invite.value)
      || InSync(earlier.leave, e)
      || (earlier.join.Some? && e in earlier.join.value.state)
      || (earlier.join.Some? && e in earlier.join.value.timeline && !Limited(later))
      || (earlier.join.Some? && e in earlier.join.value.accountData && later.leave.None?)
  {
    var o := FlushOld(later, earlier);
    var n := TakeJoined(TakeInvite(KeepLimited(later, o), o), o);
    TakenEvents(later, o, e);
    if later.leave.Some? {
      AppendedEvents(o.leave, n.leave, e);
    } else {
      AppendedEvents(o.join, n.join, e);
    }
  }

  // What the new part holds once it has taken over the old invite and the old joined room.
  lemma TakenEvents(later: RoomPart, o: RoomPart, e: Event)
    ensures
      var n := TakeJoined(TakeInvite(KeepLimited(later, o), o), o);
      && n.invite == later.invite && (n.join.Some? <==> later.join.Some?) && (n.leave.Some? <==> later.leave.Some?)
      && (InSync(n.join, e) <==> InSync(later.join, e) || (later.join.Some? && e in InviteOf(o)))
      && (InSync(n.leave, e) <==>
            || InSync(later.leave, e)
            || (later.leave.Some? && later.join.None? && e in InviteOf(o))
            || (later.leave.Some? && o.join.Some? && e in o.join.value.state + o.join.value.timeline))
  {
  }

  lemma AppendedEvents(a: Option<RoomSync>, b: Option<RoomSync>, e: Event)
    ensures InSync(AppendOption(a, b), e) <==> InSync(a, e) || InSync(b, e)
  {
  }

  // A room that is left keeps what was said before, in order; only a limited timeline cuts off the old one.
  lemma LeavingKeepsOrder(later: RoomPart, earlier: RoomPart)
    requires later.leave.Some? && later.join.None?
    ensures
      var merged, left := MergeRoom(later, earlier), OptionalRoom(earlier.leave);
      var joined := OptionalRoom(earlier.join);
      && merged.join.None? && merged.invite == later.invite && merged.leave.Some?
      && merged.leave.value.state ==
           left.state + (joined.state + (InviteOf(earlier) + later.leave.value.state))
      && merged.leave.value.timeline ==
           left.timeline + ((if Limited(later) then [] else joined.timeline) + later.leave.value.timeline)
      && merged.leave.value.accountData == left.accountData + later.leave.value.accountData
      && merged.leave.value.limited == later.leave.value.limited
  {
    var merged, left, joined := MergeRoom(later, earlier), OptionalRoom(earlier.leave), OptionalRoom(earlier.join);
    var state := joined.state + (InviteOf(earlier) + later.leave.value.state);
    var timeline := (if Limited(later) then [] else joined.timeline) + later.leave.value.timeline;
    assert left.state + state == merged.leave.value.state;
    assert left.timeline + timeline == merged.leave.value.timeline;
    assert [] + later.leave.value.accountData == later.leave.value.accountData;
  }

  function OptionalRoom(r: Option<RoomSync>): RoomSync {
    if r.Some? then r.value else RoomSync([], [], false, [])
  }

  // ---------- Lists of responses and bracketings ----------

  // One way of merging a list of responses: any bracketing of it.
  datatype Plan = Leaf(part: RoomPart) | Merge(older: Plan, newer: Plan)

  function Eval(plan: Plan): RoomPart {
    match plan
    case Leaf(p) => p
    case Merge(older, newer) => MergeRoom(Eval(newer), Eval(older))
  }

  function Parts(plan: Plan): seq<RoomPart> {
    match plan
    case Leaf(p) => [p]
    case Merge(older, newer) => Parts(older) + Parts(newer)
  }

  datatype Standing = Unmentioned | Joined | Invited | Left

  // The last section that names the room.
  function LastWord(parts: seq<RoomPart>): Standing {
    if parts == [] then Unmentioned
    else
      var p := parts[|parts|-1];
      if p.leave.Some? then Left else if p.invite.Some? then Invited else if p.join.Some? then Joined
      else LastWord(parts[..|parts|-1])
  }

  predicate EverLeft(parts: seq<RoomPart>) {
    exists p :: p in parts && p.leave.Some?
  }

  lemma LastWordConcat(a: seq<RoomPart>, b: seq<RoomPart>)
    ensures LastWord(a + b) == if LastWord(b).Unmentioned? then LastWord(a) else LastWord(b)
  {
    if b == [] {
      assert a + b == a;
    } else {
      assert (a + b)[..|a + b|-1] == a + b[..|b|-1];
      LastWordConcat(a, b[..|b|-1]);
    }
  }

  // Leaving is never forgotten by a merge; without it the merged sections tell the last word.
  lemma {:induction false} EvalStanding(plan: Plan)
    ensures Eval(plan).leave.Some? <==> EverLeft(Parts(plan))
    ensures !EverLeft(Parts(plan)) ==>
      && (Eval(plan).invite.Some? <==> LastWord(Parts(plan)).Invited?)
      && (Eval(plan) == NOTHING <==> LastWord(Parts(plan)).Unmentioned?)
  {
    match plan
    case Leaf(p) =>
      assert Parts(plan)[..0] == [];
    case Merge(older, newer) =>
      EvalStanding(older);
      EvalStanding(newer);
      LastWordConcat(Parts(older), Parts(newer));
      assert forall p :: p in Parts(plan) <==> p in Parts(older) || p in Parts(newer);
  }

  // ---------- The normal form of a merge without leaving ----------

  function InviteOf(p: RoomPart): seq<Event> { if p.invite.Some? then p.invite.value else [] }

  function JoinOf(p: RoomPart): RoomSync { OptionalRoom(p.join) }

  predicate AnyJoin(parts: seq<RoomPart>) {
    parts != [] && (parts[|parts|-1].join.Some? || AnyJoin(parts[..|parts|-1]))
  }

  predicate AnyLimited(parts: seq<RoomPart>) {
    parts != [] && (JoinOf(parts[|parts|-1]).limited || AnyLimited(parts[..|parts|-1]))
  }

  // An invite after the last join, or in the same response.
  predicate Pending(parts: seq<RoomPart>) {
    parts != [] && (parts[|parts|-1].invite.Some? || (parts[|parts|-1].join.None? && Pending(parts[..|parts|-1])))
  }

  // The invite events after the last join.
  function Trailing(parts: seq<RoomPart>): seq<Event> {
    if parts == [] then []
    else
      var p := parts[|parts|-1];
      (if p.join.Some? then [] else Trailing(parts[..|parts|-1])) + InviteOf(p)
  }

  // The state sections, each join with the invites before it in front.
  function Moved(parts: seq<RoomPart>): seq<Event> {
    if parts == [] then []
    else
      var init, p := parts[..|parts|-1], parts[|parts|-1];
      Moved(init) + if p.join.Some? then Trailing(init) + p.join.value.state else []
  }

  // The timelines since the last limited one.
  function Uncut(parts: seq<RoomPart>): seq<Event> {
    if parts == [] then []
    else
      var p := parts[|parts|-1];
      (if JoinOf(p).limited then [] else Uncut(parts[..|parts|-1])) + JoinOf(p).timeline
  }

  function AccountData(parts: seq<RoomPart>): seq<Event> {
    if parts == [] then [] else AccountData(parts[..|parts|-1]) + JoinOf(parts[|parts|-1]).accountData
  }

  function Shape(parts: seq<RoomPart>): RoomPart {
    RoomPart(
      if AnyJoin(parts)
      then Some(RoomSync(Moved(parts), Uncut(parts), AnyLimited(parts), AccountData(parts))) else None,
      if Pending(parts) then Some(Trailing(parts)) else None,
      None)
  }

  lemma {:induction false} NoJoinNoEvents(parts: seq<RoomPart>)
    ensures !AnyJoin(parts) ==>
      Moved(parts) == [] && Uncut(parts) == [] && AccountData(parts) == [] && !AnyLimited(parts)
    ensures !Pending(parts) ==> Trailing(parts) == []
  {
    if parts != [] { NoJoinNoEvents(parts[..|parts|-1]); }
  }

  lemma {:induction false} FlagsOfConcat(a: seq<RoomPart>, b: seq<RoomPart>)
    ensures AnyJoin(a + b) <==> AnyJoin(a) || AnyJoin(b)
    ensures AnyLimited(a + b) <==> AnyLimited(a) || AnyLimited(b)
    ensures Pending(a + b) <==> Pending(b) || (!AnyJoin(b) && Pending(a))
  {
    if b == [] {
      assert a + b == a;
    } else {
      var init := b[..|b|-1];
      LastOfConcat(a, b);
      FlagsOfConcat(a, init);
    }
  }

  lemma LastOfConcat<T>(a: seq<T>, b: seq<T>)
    requires b != []
    ensures a + b != [] && (a + b)[..|a + b|-1] == a + b[..|b|-1] && (a + b)[|a + b|-1] == b[|b|-1]
  {
  }

  lemma Regrouped<T>(a: seq<T>, b: seq<T>, c: seq<T>)
    ensures (a + b) + c == a + (b + c)
  {
  }

  lemma {:induction false} TrailingOfConcat(a: seq<RoomPart>, b: seq<RoomPart>)
    ensures Trailing(a + b) == (if AnyJoin(b) then [] else Trailing(a)) + Trailing(b)
  {
    if b == [] {
      assert a + b == a && Trailing(a) + [] == Trailing(a);
    } else {
      var init, p := b[..|b|-1], b[|b|-1];
      LastOfConcat(a, b);
      TrailingOfConcat(a, init);
      if p.join.Some? {
        assert [] + ([] + InviteOf(p)) == [] + InviteOf(p);
      } else {
        Regrouped(if AnyJoin(init) then [] else Trailing(a), Trailing(init), InviteOf(p));
      }
    }
  }

  lemma {:induction false} MovedOfConcat(a: seq<RoomPart>, b: seq<RoomPart>)
    ensures Moved(a + b) == Moved(a) + MovedAfter(Trailing(a), b)
  {
    if b == [] {
      assert a + b == a;
    } else {
      var init, p := b[..|b|-1], b[|b|-1];
      LastOfConcat(a, b);
      MovedOfConcat(a, init);
      TrailingOfConcat(a, init);
      NoJoinNoEvents(init);
      if p.join.Some? {
        MovedNext(Moved(a), Trailing(a), init, p.join.value.state);
      }
    }
  }

  function MovedAfter(pending: seq<Event>, b: seq<RoomPart>): seq<Event> {
    if AnyJoin(b) then pending + Moved(b) else []
  }

  lemma MovedNext(moved: seq<Event>, pending: seq<Event>, init: seq<RoomPart>, state: seq<Event>)
    requires AnyJoin(init) || Moved(init) == []
    ensures (moved + MovedAfter(pending, init)) + (((if AnyJoin(init) then [] else pending) + Trailing(init)) + state)
            == moved + (pending + (Moved(init) + (Trailing(init) + state)))
  {
  }

  lemma {:induction false} UncutOfConcat(a: seq<RoomPart>, b: seq<RoomPart>)
    ensures Uncut(a + b) == (if AnyLimited(b) then [] else Uncut(a)) + Uncut(b)
  {
    if b == [] {
      assert a + b == a && Uncut(a) + [] == Uncut(a);
    } else {
      var init, j := b[..|b|-1], JoinOf(b[|b|-1]);
      LastOfConcat(a, b);
      UncutOfConcat(a, init);
      if j.limited {
        assert [] + ([] + j.timeline) == [] + j.timeline;
      } else {
        Regrouped(if AnyLimited(init) then [] else Uncut(a), Uncut(init), j.timeline);
      }
    }
  }

  lemma {:induction false} AccountDataOfConcat(a: seq<RoomPart>, b: seq<RoomPart>)
    ensures AccountData(a + b) == AccountData(a) + AccountData(b)
  {
    if b == [] {
      assert a + b == a && AccountData(a) + [] == AccountData(a);
    } else {
      LastOfConcat(a, b);
      AccountDataOfConcat(a, b[..|b|-1]);
      Regrouped(AccountData(a), AccountData(b[..|b|-1]), JoinOf(b[|b|-1]).accountData);
    }
  }

  lemma JoinOfShape(a: seq<RoomPart>, b: seq<RoomPart>)
    requires AnyJoin(b)
    ensures AnyJoin(a + b)
    ensures
      var l, e := Shape(b).join.value, JoinOf(Shape(a));
      Shape(a + b).join.value ==
        RoomSync(e.state + (InviteOf(Shape(a)) + l.state), (if l.limited then [] else e.timeline) + l.timeline,
                 e.limited || l.limited, e.accountData + l.accountData)
  {
    FlagsOfConcat(a, b);
    MovedOfConcat(a, b);
    UncutOfConcat(a, b);
    AccountDataOfConcat(a, b);
    NoJoinNoEvents(a);
  }

  lemma JoinKept(a: seq<RoomPart>, b: seq<RoomPart>)
    requires !AnyJoin(b)
    ensures Shape(a + b).join == Shape(a).join
  {
    FlagsOfConcat(a, b);
    MovedOfConcat(a, b);
    UncutOfConcat(a, b);
    AccountDataOfConcat(a, b);
    NoJoinNoEvents(b);
    assert Moved(a) + [] == Moved(a) && Uncut(a) + [] == Uncut(a) && AccountData(a) + [] == AccountData(a);
  }

  // A join on top of a part in which the room is not left.
  lemma MergeOntoShape(later: RoomPart, earlier: RoomPart)
    requires later.join.Some? && later.leave.None? && earlier.leave.None?
    ensures
      var l, e := later.join.value, JoinOf(earlier);
      MergeRoom(later, earlier) == RoomPart(
        Some(RoomSync(e.state + (InviteOf(earlier) + l.state), (if l.limited then [] else e.timeline) + l.timeline,
                      e.limited || l.limited, e.accountData + l.accountData)),
        later.invite, None)
  {
    var l, e := later.join.value, JoinOf(earlier);
    assert InviteOf(earlier) == [] ==> InviteOf(earlier) + l.state == l.state;
    assert [] + l.timeline == l.timeline && [] + l.accountData == l.accountData;
    assert [] + (InviteOf(earlier) + l.state) == InviteOf(earlier) + l.state;
  }

  // Anything but a join on top of such a part.
  lemma MergeNoJoin(later: RoomPart, earlier: RoomPart)
    requires later.join.None? && later.leave.None? && earlier.leave.None?
    ensures MergeRoom(later, earlier) == RoomPart(earlier.join, Both(earlier.invite, later.invite), None)
  {
  }

  function Both(a: Option<seq<Event>>, b: Option<seq<Event>>): Option<seq<Event>> {
    if a.None? then b else if b.None? then a else Some(a.value + b.value)
  }

  lemma InviteOfShape(a: seq<RoomPart>, b: seq<RoomPart>)
    ensures Shape(a + b).invite == if AnyJoin(b) then Shape(b).invite else Both(Shape(a).invite, Shape(b).invite)
  {
    FlagsOfConcat(a, b);
    TrailingOfConcat(a, b);
    NoJoinNoEvents(a);
    NoJoinNoEvents(b);
    assert [] + Trailing(b) == Trailing(b) && Trailing(a) + [] == Trailing(a);
  }

  lemma ShapeOfMerge(a: seq<RoomPart>, b: seq<RoomPart>)
    ensures MergeRoom(Shape(b), Shape(a)) == Shape(a + b)
  {
    InviteOfShape(a, b);
    var earlier, later, both := Shape(a), Shape(b), Shape(a + b);
    if AnyJoin(b) {
      JoinOfShape(a, b);
      MergeOntoShape(later, earlier);
    } else {
      JoinKept(a, b);
      MergeNoJoin(later, earlier);
    }
    assert MergeRoom(later, earlier).join == both.join;
  }

  lemma ShapeOfOne(p: RoomPart)
    requires p.leave.None?
    ensures Shape([p]) == p
  {
    assert [p][..0] == [];
    assert AnyJoin([p]) == p.join.Some? && Pending([p]) == p.invite.Some? && AnyLimited([p]) == JoinOf(p).limited;
    assert Trailing([p]) == InviteOf(p);
    assert Uncut([p]) == JoinOf(p).timeline;
    assert AccountData([p]) == JoinOf(p).accountData;
    assert Moved([]) == [] && Trailing([]) == [];
    assert p.join.Some? ==> Moved([p]) == p.join.value.state;
  }

  // For every bracketing, the merge of responses in which the room is never left is this one.
  lemma {:induction false} EvalIsShape(plan: Plan)
    requires !EverLeft(Parts(plan))
    ensures Eval(plan) == Shape(Parts(plan))
  {
    match plan
    case Leaf(p) =>
      assert p in Parts(plan);
      ShapeOfOne(p);
    case Merge(older, newer) =>
      assert forall p | p in Parts(older) || p in Parts(newer) :: p in Parts(plan);
      EvalIsShape(older);
      EvalIsShape(newer);
      ShapeOfMerge(Parts(older), Parts(newer));
  }
}
