/** Threads: the keyed event map, its counters, and the orders on events and threads. */
module Threads {
  import opened Basics

  datatype Event = Event(id: string, sender: Option<string>, originServerTs: nat, age: nat,
                         inThread: bool, encrypted: bool, decrypted: bool)

  const UNDEFINED_TIMESTAMP: nat := 0xFFFF_FFFF_FFFF_FFFF

  predicate Dated(e: Event) { e.originServerTs != UNDEFINED_TIMESTAMP }

  // ---------- Orders ----------

  // MXEvent `<`: the left event is the newer one.
  predicate Newer(l: Event, r: Event) {
    if Dated(l) && Dated(r) then l.originServerTs > r.originServerTs else l.age < r.age
  }

  // MXThread `<`, on the last messages.
  predicate ThreadLess(l: Option<Event>, r: Option<Event>) {
    if l.Some? then (if r.Some? then Newer(l.value, r.value) else false) else r.Some?
  }

  // MXThreadModel `<`, on the last messages.
  predicate ModelLess(l: Option<Event>, r: Option<Event>) {
    if l.Some? then (if r.Some? then Newer(l.value, r.value) else true) else false
  }

  ghost predicate StrictWeakOrder<T(!new)>(less: (T, T) -> bool, on: T -> bool) {
    && (forall x | on(x) :: !less(x, x))
    && (forall x, y, z | on(x) && on(y) && on(z) && less(x, y) && less(y, z) :: less(x, z))
    && (forall x, y, z | on(x) && on(y) && on(z) && !less(x, y) && !less(y, x) && !less(y, z) && !less(z, y) ::
          !less(x, z) && !less(z, x))
  }

  lemma NewerOnDated()
    ensures StrictWeakOrder(Newer, (e: Event) => Dated(e))
  {
  }

  // On any set where timestamps and ages tell the same story, undated events may join in.
  lemma NewerOnConsistent(events: iset<Event>)
    requires forall x, y | x in events && y in events && Dated(x) && Dated(y) ::
      x.originServerTs > y.originServerTs <==> x.age < y.age
    ensures StrictWeakOrder(Newer, (e: Event) => e in events)
  {
  }

  ghost predicate Cycle(a: Event, b: Event, c: Event) { Newer(a, b) && Newer(b, c) && Newer(c, a) }

  // Two dated events form a cycle with some undated one exactly when the older one by timestamp is the
  // younger one by age, with room between.
  lemma CycleIff(a: Event, c: Event)
    requires Dated(a) && Dated(c)
    ensures (exists b :: !Dated(b) && Cycle(a, b, c)) <==> a.originServerTs < c.originServerTs && a.age + 1 < c.age
  {
    if a.originServerTs < c.originServerTs && a.age + 1 < c.age {
      var b := Event("", None, UNDEFINED_TIMESTAMP, a.age + 1, false, false, false);
      assert !Dated(b) && Cycle(a, b, c);
    }
  }

  predicate DatedOrEmpty(m: Option<Event>) { m.Some? ==> Dated(m.value) }

  lemma ThreadOrders()
    ensures StrictWeakOrder(ThreadLess, (m: Option<Event>) => DatedOrEmpty(m))
    ensures StrictWeakOrder(ModelLess, (m: Option<Event>) => DatedOrEmpty(m))
  {
  }

  // The two thread orders disagree exactly on pairs with one empty thread, and there they are opposite.
  lemma ThreadOrdersDisagree(l: Option<Event>, r: Option<Event>)
    ensures ThreadLess(l, r) != ModelLess(l, r) <==> l.None? != r.None?
    ensures l.None? && r.Some? ==> ThreadLess(l, r) && !ThreadLess(r, l) && ModelLess(r, l) && !ModelLess(l, r)
    ensures l.Some? && r.Some? ==> (ThreadLess(l, r) <==> Newer(l.value, r.value))
  {
  }

  // What `sorted(by: >)` may return: no element is followed by one it is newer than.
  ghost predicate OldestFirst(sorted: seq<Event>) {
    forall i, j | 0 <= i < j < |sorted| :: !Newer(sorted[i], sorted[j])
  }

  predicate IsNewest(events: map<string, Event>, e: Event) {
    (exists k :: k in events && events[k] == e) &&
    forall k | k in events :: events[k].originServerTs <= e.originServerTs
  }

  // Whatever the enumeration and the sort do with ties, the last element is an event of greatest timestamp.
  lemma LastMessageIsNewest(events: map<string, Event>, sorted: seq<Event>)
    requires forall e :: e in sorted <==> exists k :: k in events && events[k] == e
    requires forall e | e in sorted :: Dated(e)
    requires OldestFirst(sorted)
    ensures sorted == [] <==> events == map[]
    ensures sorted != [] ==> IsNewest(events, sorted[|sorted|-1])
  {
    assert forall k | k in events :: events[k] in sorted;
    if sorted != [] {
      var last := sorted[|sorted|-1];
      assert last in sorted;
      forall k | k in events ensures events[k].originServerTs <= last.originServerTs {
        var i :| 0 <= i < |sorted| && sorted[i] == events[k];
      }
    }
  }

  // ---------- The event map ----------

  // What the thread sees of its session when it looks: the store's counts, if there is a store.
  datatype Counts = Counts(unread: nat, highlights: nat)

  datatype Session = Session(myUserId: Option<string>, counts: Option<Counts>)

  datatype ThreadState = ThreadState(events: map<string, Event>, notificationCount: nat, highlightCount: nat)

  datatype Op =
    | Add(event: Event, forwards: bool, session: Option<Session>)
    | Replace(oldId: string, event: Event)
    | Redact(id: string)
    | MarkAsRead

  predicate Refreshes(session: Option<Session>) { session.Some? && session.value.counts.Some? }

  predicate OwnMessage(op: Op)
    requires op.Add?
  {
    op.forwards && op.session.Some? && op.event.sender.Some? && op.event.sender == op.session.value.myUserId
  }

  function AfterAdd(s: ThreadState, op: Op): ThreadState
    requires op.Add?
  {
    if op.event.id in s.events then s
    else
      var added := s.(events := s.events[op.event.id := op.event]);
      var counted :=
        if !Refreshes(op.session) then added
        else
          var counts := op.session.value.counts.value;
          added.(notificationCount := counts.unread,
                 highlightCount := if counts.highlights > 0 then counts.highlights else added.highlightCount);
      if OwnMessage(op) then counted.(notificationCount := 0, highlightCount := 0) else counted
  }

  function Step(s: ThreadState, op: Op): ThreadState {
    match op
    case Add(_, _, _) => AfterAdd(s, op)
    case Replace(oldId, event) =>
      if oldId in s.events && !(event.encrypted && !event.decrypted) then s.(events := s.events[oldId := event]) else s
    case Redact(id) => s.(events := s.events - {id})
    case MarkAsRead => s.(notificationCount := 0, highlightCount := 0)
  }

  function Run(s: ThreadState, ops: seq<Op>): ThreadState {
    if ops == [] then s else Step(Run(s, ops[..|ops|-1]), ops[|ops|-1])
  }

  // The last operation that adds or redacts the id.
  function LastOn(ops: seq<Op>, id: string): Option<Op> {
    if ops == [] then None
    else
      var op := ops[|ops|-1];
      if (op.Add? && op.event.id == id) || (op.Redact? && op.id == id) then Some(op)
      else LastOn(ops[..|ops|-1], id)
  }

  // For every run: an id is a key iff the last operation on it adds it, or there is none and it was a key.
  lemma {:induction false} KeysAreAddedNotRedacted(s: ThreadState, ops: seq<Op>, id: string)
    ensures id in Run(s, ops).events <==>
            if LastOn(ops, id).Some? then LastOn(ops, id).value.Add? else id in s.events
  {
    if ops != [] {
      KeysAreAddedNotRedacted(s, ops[..|ops|-1], id);
    }
  }

  ghost predicate KeyedById(s: ThreadState) {
    forall k | k in s.events :: s.events[k].id == k
  }

  // A step breaks the keying exactly when it replaces a present event by a readable one with another id.
  lemma StepKeepsKeyingIff(s: ThreadState, op: Op)
    requires KeyedById(s)
    ensures KeyedById(Step(s, op)) <==>
      !(op.Replace? && op.oldId in s.events && !(op.event.encrypted && !op.event.decrypted) && op.event.id != op.oldId)
  {
    if op.Replace? && op.oldId in s.events {
      assert op.oldId in Step(s, op).events;
    }
  }

  lemma {:induction false} RunKeepsKeying(s: ThreadState, ops: seq<Op>)
    requires KeyedById(s) && forall op | op in ops && op.Replace? :: op.event.id == op.oldId
    ensures KeyedById(Run(s, ops))
  {
    if ops != [] {
      assert ops[|ops|-1] in ops;
      RunKeepsKeying(s, ops[..|ops|-1]);
      StepKeepsKeyingIff(Run(s, ops[..|ops|-1]), ops[|ops|-1]);
    }
  }

  function Replies(threadId: string, events: map<string, Event>): set<string> {
    set k | k in events && k != threadId && events[k].inThread
  }

  function NumberOfReplies(threadId: string, s: ThreadState): nat { |Replies(threadId, s.events)| }

  // A new event in the thread that is not its root adds one reply, a redacted one takes one away, and a replacement
  // counts as it is; nothing else moves the number.
  lemma RepliesMoveByOne(threadId: string, s: ThreadState, op: Op)
    ensures
      var before, after := NumberOfReplies(threadId, s), NumberOfReplies(threadId, Step(s, op));
      match op
      case Add(e, _, _) =>
        after == before + if e.id !in s.events && e.id != threadId && e.inThread then 1 else 0
      case Redact(id) =>
        after == before - if id in s.events && id != threadId && s.events[id].inThread then 1 else 0
      case Replace(id, e) =>
        var replaced := id in s.events && id != threadId && (e.encrypted ==> e.decrypted);
        after == before + if !replaced || e.inThread == s.events[id].inThread then 0 else if e.inThread then 1 else -1
      case MarkAsRead => after == before
  {
    var before, after := Replies(threadId, s.events), Replies(threadId, Step(s, op).events);
    var key := match op case Add(e, _, _) => e.id case Replace(id, _) => id case Redact(id) => id case MarkAsRead => "";
    assert Step(s, op).events - {key} == s.events - {key};
    forall k | k != key ensures k in before <==> k in after {
      assert k in s.events <==> k in s.events - {key};
      assert k in Step(s, op).events <==> k in Step(s, op).events - {key};
      assert k in s.events ==> (s.events - {key})[k] == s.events[k];
      assert k in Step(s, op).events ==> (Step(s, op).events - {key})[k] == Step(s, op).events[k];
    }
    DifferByOne(before, after, key);
  }

  lemma DifferByOne(a: set<string>, b: set<string>, key: string)
    requires forall k | k != key :: k in a <==> k in b
    ensures |b| - |a| == (if key in b then 1 else 0) - (if key in a then 1 else 0)
  {
    assert a - {key} == b - {key};
    assert a == if key in a then (a - {key}) + {key} else a - {key};
    assert b == if key in b then (b - {key}) + {key} else b - {key};
  }

  // ---------- Highlights ----------

  // What reaches the counters: a refresh with the store's counts, or a reset.
  datatype Signal = Refresh(unread: nat, highlights: nat) | Read

  function Signals(s: ThreadState, op: Op): seq<Signal> {
    match op
    case MarkAsRead => [Read]
    case Add(event, _, session) =>
      if event.id in s.events then [] else (
        (if Refreshes(session)
         then [Refresh(session.value.counts.value.unread, session.value.counts.value.highlights)] else [])
        + (if OwnMessage(op) then [Read] else []))
    case _ => []
  }

  function AllSignals(s: ThreadState, ops: seq<Op>): seq<Signal> {
    if ops == [] then []
    else AllSignals(s, ops[..|ops|-1]) + Signals(Run(s, ops[..|ops|-1]), ops[|ops|-1])
  }

  predicate Silent(x: Signal) { x.Refresh? && x.highlights == 0 }

  // The last signal that was not an empty refresh decides; none leaves the initial count.
  ghost predicate Decided(signals: seq<Signal>, initial: nat, count: nat) {
    || (count == initial && forall x | x in signals :: Silent(x))
    || (exists k :: 0 <= k < |signals| && !Silent(signals[k])
          && (forall j | k < j < |signals| :: Silent(signals[j]))
          && count == if signals[k].Read? then 0 else signals[k].highlights)
  }

  lemma DecidedNext(signals: seq<Signal>, initial: nat, count: nat, x: Signal)
    requires Decided(signals, initial, count)
    ensures Decided(signals + [x], initial, if Silent(x) then count else if x.Read? then 0 else x.highlights)
  {
    var all := signals + [x];
    if !Silent(x) {
      assert !Silent(all[|signals|]);
    } else if !(count == initial && forall y | y in signals :: Silent(y)) {
      var k :| 0 <= k < |signals| && !Silent(signals[k])
          && (forall j | k < j < |signals| :: Silent(signals[j]))
          && count == if signals[k].Read? then 0 else signals[k].highlights;
      assert !Silent(all[k]);
      assert forall j | k < j < |all| :: Silent(all[j]);
    }
  }

  // For every run: the highlight count is the last positive refresh since the last reading, or zero.
  lemma {:induction false} HighlightIsLastPositive(s: ThreadState, ops: seq<Op>)
    ensures Decided(AllSignals(s, ops), s.highlightCount, Run(s, ops).highlightCount)
  {
    if ops != [] {
      var init, op := ops[..|ops|-1], ops[|ops|-1];
      HighlightIsLastPositive(s, init);
      var before, all := Run(s, init), AllSignals(s, init);
      if op.MarkAsRead? {
        DecidedNext(all, s.highlightCount, before.highlightCount, Read);
      } else if op.Add? && op.event.id !in before.events {
        var middle := before.highlightCount;
        if Refreshes(op.session) {
          var x := Refresh(op.session.value.counts.value.unread, op.session.value.counts.value.highlights);
          DecidedNext(all, s.highlightCount, middle, x);
          all, middle := all + [x], if Silent(x) then middle else x.highlights;
        }
        if OwnMessage(op) {
          DecidedNext(all, s.highlightCount, middle, Read);
        }
        var own := if OwnMessage(op) then [Read] else [];
        assert AllSignals(s, init) + Signals(before, op) == all + own;
        assert own == [] ==> all + own == all;
      } else {
        assert all + [] == all;
      }
    }
  }

  // For every run: the notification count is that of the last signal, whatever it says.
  lemma {:induction false} NotificationIsLastSignal(s: ThreadState, ops: seq<Op>)
    ensures
      var signals := AllSignals(s, ops);
      Run(s, ops).notificationCount ==
        if signals == [] then s.notificationCount
        else if signals[|signals|-1].Read? then 0 else signals[|signals|-1].unread
  {
    if ops != [] {
      var init, op := ops[..|ops|-1], ops[|ops|-1];
      NotificationIsLastSignal(s, init);
      var all, more := AllSignals(s, init), Signals(Run(s, init), op);
      if more == [] {
        assert all + more == all;
      } else {
        assert (all + more)[|all + more|-1] == more[|more|-1];
      }
    }
  }

  // ---------- The thread ----------

  class Thread {
    const id: string
    var session: Option<Session>
    var eventsMap: map<string, Event>
    var notificationCount: nat
    var highlightCount: nat

    function State(): ThreadState
      reads this
    {
      ThreadState(eventsMap, notificationCount, highlightCount)
    }

    constructor (session: Option<Session>, rootEvent: Event)
      ensures id == rootEvent.id && this.session == session
      ensures State() == ThreadState(map[rootEvent.id := rootEvent], 0, 0) && KeyedById(State())
    {
      id := rootEvent.id;
      this.session := session;
      eventsMap, notificationCount, highlightCount := map[rootEvent.id := rootEvent], 0, 0;
    }

    method AddEvent(event: Event, forwards: bool) returns (handled: bool)
      modifies this`eventsMap, this`notificationCount, this`highlightCount
      ensures State() == Step(old(State()), Add(event, forwards, session))
      ensures handled <==> event.id !in old(eventsMap)
      ensures eventsMap == if handled then old(eventsMap)[event.id := event] else old(eventsMap)
      ensures
        var own := session.Some? && event.sender.Some? && event.sender == session.value.myUserId && forwards;
        var counted := session.Some? && session.value.counts.Some?;
        && (handled && own ==> notificationCount == 0 && highlightCount == 0)
        && (handled && !own && counted ==>
              && notificationCount == session.value.counts.value.unread
              && highlightCount == (if session.value.counts.value.highlights > 0
                                    then session.value.counts.value.highlights else old(highlightCount)))
        && (!handled || (!own && !counted) ==>
              notificationCount == old(notificationCount) && highlightCount == old(highlightCount))
    {
      if event.id in eventsMap { return false; }
      eventsMap := eventsMap[event.id := event];
      UpdateNotificationsCount();
      if event.sender.Some? && session.Some? && event.sender == session.value.myUserId && forwards {
        DoMarkAsRead();
      }
      return true;
    }

    method ReplaceEvent(oldEventId: string, newEvent: Event) returns (handled: bool)
      modifies this`eventsMap
      ensures State() == Step(old(State()), Replace(oldEventId, newEvent))
      ensures eventsMap.Keys == old(eventsMap).Keys
      ensures handled <==> oldEventId in old(eventsMap) && (newEvent.encrypted ==> newEvent.decrypted)
    {
      if oldEventId !in eventsMap { return false; }
      if newEvent.encrypted && !newEvent.decrypted { return false; }
      eventsMap := eventsMap[oldEventId := newEvent];
      return true;
    }

    method RedactEvent(eventId: string) returns (handled: bool)
      modifies this`eventsMap
      ensures State() == Step(old(State()), Redact(eventId))
      ensures handled <==> eventId in old(eventsMap)
    {
      if eventId !in eventsMap {
        assert eventsMap - {eventId} == eventsMap;
        return false;
      }
      eventsMap := eventsMap - {eventId};
      return true;
    }

    method DoMarkAsRead()
      modifies this`notificationCount, this`highlightCount
      ensures State() == Step(old(State()), MarkAsRead)
    {
      notificationCount := 0;
      highlightCount := 0;
    }

    method UpdateNotificationsCount()
      modifies this`notificationCount, this`highlightCount
      ensures !Refreshes(session) ==> State() == old(State())
      ensures Refreshes(session) ==>
                && notificationCount == session.value.counts.value.unread
                && highlightCount == if session.value.counts.value.highlights > 0
                     then session.value.counts.value.highlights else old(highlightCount)
    {
      if session.None? || session.value.counts.None? { return; }
      notificationCount := session.value.counts.value.unread;
      var highlights := session.value.counts.value.highlights;
      if highlights > 0 {
        highlightCount := highlights;
      }
    }
  }
}
