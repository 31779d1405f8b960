/** What the session has taken in over a run, against the responses the server gave. */
module SyncHistory {
  import opened Basics
  import opened SyncMerge
  import opened RoomReplay
  import opened SyncStore
  import opened SyncReplay
  import opened SyncService
  import opened SyncSystem

  // A response and the chunk it went to.
  datatype Filed = Filed(entry: Entry, chunk: nat)

  // A run with its responses written down.
  datatype Trace = Trace(
    sys: Sys,
    count: nat,                     // responses the server gave
    stored: map<nat, Filed>,        // those a service put into the cache, by number
    origins: Origins,               // those behind each chunk
    loading: seq<Entry>,            // those behind the merged response the session holds
    batches: seq<seq<Entry>>)       // those the session has taken in, each batch as one response

  function After(t: Trace, input: Input): Trace
    requires Enabled(t.sys, input)
  {
    var next := t.(sys := Step(t.sys, input));
    match input
    case SyncReply(rid, reply, fits) =>
      if reply.Failure? || !t.sys.service.alive then next
      else
        var e := Entry(t.count, reply.value, Some(t.sys.service.pending[rid].from));
        next.(count := t.count + 1, stored := t.stored[t.count := Filed(e, Target(t.sys.cache, fits))],
              origins := WithEntry(t.sys.cache, t.origins, e, fits))
    case SessionSync(r) => next.(count := t.count + 1, batches := t.batches + [[Entry(t.count, r, t.sys.token)]])
    case SessionLoad => next.(loading := OriginOf(t.origins, t.sys.phase.toMerge))
    case SessionHandle => if t.sys.phase.merged.None? then next else next.(batches := t.batches + [t.loading])
    case SessionClean => next.(origins := Remaining(t.origins, next.sys.cache))
    case SessionWipe => next.(origins := Remaining(t.origins, next.sys.cache))
    case _ => next
  }

  function Remaining(origins: Origins, cache: Cache): Origins {
    map id | id in origins && id in cache.files :: origins[id]
  }

  function Trail(t: Trace, inputs: seq<Input>): (r: Trace)
    requires Runs(t.sys, inputs)
    ensures r.sys == Run(t.sys, inputs)
    decreases |inputs|
  {
    if inputs == [] then t else Trail(After(t, inputs[0]), inputs[1..])
  }

  predicate Leads(t: Trace, inputs: seq<Input>, next: Trace) {
    Runs(t.sys, inputs) && Trail(t, inputs) == next
  }

  lemma LeadsOne(t: Trace, input: Input)
    requires Enabled(t.sys, input)
    ensures Leads(t, [input], After(t, input))
  {
    assert [input][1..] == [];
    assert Runs(After(t, input).sys, []);
  }

  lemma {:induction false} LeadsOn(t: Trace, a: seq<Input>, middle: Trace, b: seq<Input>, next: Trace)
    requires Leads(t, a, middle) && Leads(middle, b, next)
    ensures Leads(t, a + b, next)
    decreases |a|
  {
    if a == [] {
      assert a + b == b;
    } else {
      assert (a + b)[0] == a[0] && (a + b)[1..] == a[1..] + b;
      LeadsOn(After(t, a[0]), a[1..], middle, b, next);
    }
  }

  function Begun(token: Option<Token>, rooms: map<string, RoomView>): Trace {
    Trace(Initial(token, rooms), 0, map[], map[], [], [])
  }

  // ---------- The chunks hold what was stored ----------

  // A response from this token stands for these.
  ghost predicate FromEntries(r: SyncResponse, from: Option<Token>, entries: seq<Entry>) {
    && entries != [] && Consecutive(entries)
    && entries[0].from == from && entries[|entries|-1].response.nextBatch == r.nextBatch
    && r.toDevice == ToDevice(entries)
    && (forall roomId, s :: ReadsAs(r, entries, roomId, s))
  }

  ghost predicate ReadsAs(r: SyncResponse, entries: seq<Entry>, roomId: string, s: Option<RoomView>) {
    Apply(PartOf(r, roomId), s) == ReadMerged(Said(entries, roomId), s)
  }

  ghost predicate ChunkInv(cache: Cache, origins: Origins) {
    && origins.Keys == cache.files.Keys
    && (forall id | id in cache.files :: Made(cache.files[id], origins[id]) && Consecutive(origins[id]))
  }

  ghost predicate ContentInv(t: Trace) {
    && ChunkInv(t.sys.cache, t.origins)
    && (t.sys.phase.Loaded? && t.sys.phase.merged.Some? ==>
          var c := t.sys.phase.merged.value; FromEntries(c.response, Some(c.syncToken), t.loading))
  }

  lemma StoredChunks(cache: Cache, origins: Origins, e: Entry, fits: bool)
    requires CacheInv(cache) && ChunkInv(cache, origins)
    requires e.from.Some? && (cache.ids != [] ==> cache.NextSyncToken() == e.from)
    ensures ChunkInv(cache.Updated(e.response, e.from.value, fits), WithEntry(cache, origins, e, fits))
  {
    var id := Target(cache, fits);
    if cache.ids != [] && fits {
      assert id in cache.ids;
      MadeNext(cache.files[id], origins[id], e);
      FoldedEnds(origins[id]);
      JoinConsecutive(origins[id], [e]);
    } else {
      assert cache.nextId !in cache.files;
      assert [] + [e] == [e];
    }
  }

  lemma ContiguousPrefix(cache: Cache, chunkIds: seq<nat>)
    requires Contiguous(cache, chunkIds) && chunkIds != []
    ensures Contiguous(cache, chunkIds[..|chunkIds|-1]) && chunkIds[|chunkIds|-1] in cache.files
  {
    assert forall id | id in chunkIds[..|chunkIds|-1] :: id in chunkIds;
  }

  lemma {:induction false} OriginsConsecutive(cache: Cache, origins: Origins, chunkIds: seq<nat>)
    requires ChunkInv(cache, origins) && Contiguous(cache, chunkIds)
    ensures Consecutive(OriginOf(origins, chunkIds))
  {
    if chunkIds != [] {
      var init, last := chunkIds[..|chunkIds|-1], chunkIds[|chunkIds|-1];
      ContiguousPrefix(cache, chunkIds);
      OriginsConsecutive(cache, origins, init);
      if init == [] {
        assert [] + origins[last] == origins[last];
      } else {
        MergedEnds(cache, origins, init);
        MergedSpans(cache, init);
        assert cache.files[init[|init|-1]].response.nextBatch == cache.files[last].syncToken;
        JoinConsecutive(OriginOf(origins, init), origins[last]);
      }
    }
  }

  lemma JoinConsecutive(a: seq<Entry>, b: seq<Entry>)
    requires Consecutive(a) && Consecutive(b)
    requires a != [] && b != [] ==> b[0].from == Some(a[|a|-1].response.nextBatch)
    ensures Consecutive(a + b)
  {
    var all := a + b;
    forall i | 0 <= i < |all| - 1 ensures all[i+1].from == Some(all[i].response.nextBatch) {
      if i + 1 < |a| {
        assert a[i+1].from == Some(a[i].response.nextBatch);
      } else if i >= |a| {
        assert b[i+1-|a|].from == Some(b[i-|a|].response.nextBatch);
      }
    }
  }

  lemma LoadedEntries(cache: Cache, origins: Origins, chunkIds: seq<nat>)
    requires ChunkInv(cache, origins) && Contiguous(cache, chunkIds) && chunkIds != []
    ensures cache.Merged(chunkIds).Some?
    ensures
      var c := cache.Merged(chunkIds).value;
      FromEntries(c.response, Some(c.syncToken), OriginOf(origins, chunkIds))
  {
    OriginsConsecutive(cache, origins, chunkIds);
    MergedEnds(cache, origins, chunkIds);
    forall roomId, s ensures ReadsAs(cache.Merged(chunkIds).value.response, OriginOf(origins, chunkIds), roomId, s) {
      MergedReading(cache, origins, chunkIds, roomId, s);
    }
  }

  // A step that neither stores nor deletes a chunk, nor loads.
  predicate Quiet(t: Trace, input: Input) {
    match input
    case SyncReply(_, reply, _) => reply.Failure? || !t.sys.service.alive
    case SessionLoad => false
    case SessionClean => false
    case SessionWipe => false
    case _ => true
  }

  lemma QuietFiles(t: Trace, input: Input)
    requires Enabled(t.sys, input) && Quiet(t, input)
    ensures After(t, input).origins == t.origins && After(t, input).loading == t.loading
    ensures After(t, input).sys.cache.files == t.sys.cache.files
    ensures After(t, input).sys.phase.Loaded? ==> After(t, input).sys.phase == t.sys.phase
  {
  }

  lemma ContentStep(t: Trace, input: Input)
    requires GapFree(t.sys) && ContentInv(t) && Enabled(t.sys, input)
    ensures ContentInv(After(t, input))
  {
    if Quiet(t, input) {
      QuietFiles(t, input);
    } else if input.SyncReply? {
      var e := Entry(t.count, input.reply.value, Some(t.sys.service.pending[input.rid].from));
      StoredChunks(t.sys.cache, t.origins, e, input.fits);
    } else if input.SessionLoad? {
      if t.sys.phase.toMerge != [] { LoadedEntries(t.sys.cache, t.origins, t.sys.phase.toMerge); }
    }
  }

  // ---------- What the session has taken in ----------

  function SaidBy(batches: seq<seq<Entry>>, roomId: string): seq<seq<RoomPart>> {
    seq(|batches|, i requires 0 <= i < |batches| => Said(batches[i], roomId))
  }

  // The responses taken in so far join end to end, from the session's first token to its present one.
  ghost predicate Ends(token: Option<Token>, entries: seq<Entry>, now: Option<Token>) {
    && Consecutive(entries)
    && (if entries == [] then now == token
        else entries[0].from == token && now == Some(entries[|entries|-1].response.nextBatch))
  }

  // A room is as its batches leave it.
  ghost predicate RoomAs(rooms: map<string, RoomView>, batches: seq<seq<Entry>>, before: map<string, RoomView>,
                         roomId: string) {
    RoomOf(rooms, roomId) == ReadAll(SaidBy(batches, roomId), RoomOf(before, roomId))
  }

  // The stretches of the stream that the batches cover.
  function Spans(batches: seq<seq<Entry>>): seq<Span> {
    if batches == [] then []
    else
      var b := batches[|batches|-1];
      Spans(batches[..|batches|-1]) +
      if b != [] && b[0].from.Some? then [Span(b[0].from.value, b[|b|-1].response.nextBatch)] else []
  }

  ghost predicate TakenInv(t: Trace, token: Option<Token>, rooms: map<string, RoomView>) {
    && Ends(token, Flat(t.batches), t.sys.token)
    && t.sys.inbox == ToDevice(Flat(t.batches))
    && t.sys.consumed == Spans(t.batches)
    && (forall roomId :: RoomAs(t.sys.rooms, t.batches, rooms, roomId))
  }

  lemma TakeInRoom(rooms: map<string, RoomView>, r: SyncResponse, roomId: string)
    ensures RoomOf(TakeIn(rooms, r), roomId) == Apply(PartOf(r, roomId), RoomOf(rooms, roomId))
  {
  }

  lemma RoomNext(rooms: map<string, RoomView>, batches: seq<seq<Entry>>, before: map<string, RoomView>, roomId: string,
                 r: SyncResponse, batch: seq<Entry>)
    requires RoomAs(rooms, batches, before, roomId) && ReadsAs(r, batch, roomId, RoomOf(rooms, roomId))
    ensures RoomAs(TakeIn(rooms, r), batches + [batch], before, roomId)
  {
    TakeInRoom(rooms, r, roomId);
    assert SaidBy(batches + [batch], roomId)[..|batches|] == SaidBy(batches, roomId);
  }

  lemma EndsNext(token: Option<Token>, entries: seq<Entry>, now: Option<Token>, batch: seq<Entry>)
    requires Ends(token, entries, now) && batch != [] && Consecutive(batch) && batch[0].from == now
    ensures Ends(token, entries + batch, Some(batch[|batch|-1].response.nextBatch))
  {
    JoinConsecutive(entries, batch);
    assert entries == [] ==> entries + batch == batch;
  }

  lemma SpansNext(batches: seq<seq<Entry>>, batch: seq<Entry>, from: Option<Token>, next: Token)
    requires batch != [] && batch[0].from == from && batch[|batch|-1].response.nextBatch == next
    ensures Spans(batches + [batch]) == if from.Some? then Spans(batches) + [Span(from.value, next)] else Spans(batches)
  {
    assert (batches + [batch])[..|batches|] == batches;
    assert Spans(batches) + [] == Spans(batches);
  }

  lemma TakenNext(t: Trace, token: Option<Token>, rooms: map<string, RoomView>, r: SyncResponse, batch: seq<Entry>)
    requires TakenInv(t, token, rooms) && FromEntries(r, t.sys.token, batch)
    ensures TakenInv(t.(sys := Consume(t.sys, t.sys.token, r), batches := t.batches + [batch]), token, rooms)
  {
    var batches := t.batches + [batch];
    assert Flat(batches) == Flat(t.batches) + batch by { assert batches[..|t.batches|] == t.batches; }
    ToDeviceOfConcat(Flat(t.batches), batch);
    EndsNext(token, Flat(t.batches), t.sys.token, batch);
    SpansNext(t.batches, batch, t.sys.token, r.nextBatch);
    forall roomId ensures RoomAs(TakeIn(t.sys.rooms, r), batches, rooms, roomId) {
      assert ReadsAs(r, batch, roomId, RoomOf(t.sys.rooms, roomId));
      RoomNext(t.sys.rooms, t.batches, rooms, roomId, r, batch);
    }
  }

  lemma OwnEntries(e: Entry)
    ensures FromEntries(e.response, e.from, [e])
  {
    assert [e][..0] == [] && ToDevice([e]) == e.response.toDevice;
    forall roomId, s ensures ReadsAs(e.response, [e], roomId, s) {
      assert Said([e], roomId) == [PartOf(e.response, roomId)];
    }
  }

  predicate Takes(t: Trace, input: Input)
    requires Enabled(t.sys, input)
  {
    input.SessionSync? || (input.SessionHandle? && t.sys.phase.merged.Some?)
  }

  function BatchOf(t: Trace, input: Input): seq<Entry>
    requires Enabled(t.sys, input) && Takes(t, input)
  {
    if input.SessionSync? then [Entry(t.count, input.response, t.sys.token)] else t.loading
  }

  lemma TakesBatch(t: Trace, input: Input)
    requires Enabled(t.sys, input) && Takes(t, input)
    ensures
      var next := After(t, input);
      && next.batches == t.batches + [BatchOf(t, input)]
      && next.stored == t.stored && next.origins == t.origins && next.loading == t.loading
  {
  }

  // The chunks a clean-up deletes.
  function Gone(t: Trace, input: Input): seq<nat>
    requires Enabled(t.sys, input) && (input.SessionClean? || input.SessionWipe?)
  {
    if input.SessionClean? then t.sys.phase.toDelete else t.sys.cache.outdated + t.sys.cache.ids
  }

  lemma DeletesGone(t: Trace, input: Input)
    requires ContentInv(t) && Enabled(t.sys, input) && (input.SessionClean? || input.SessionWipe?)
    ensures
      var next := After(t, input);
      && next.origins == (map id | id in t.origins && id !in Gone(t, input) :: t.origins[id])
      && next.stored == t.stored && next.batches == t.batches && next.loading == t.loading && next.count == t.count
      && (next.sys.phase.Resting? || next.sys.phase.Wiping?)
  {
  }

  lemma TakesNothing(t: Trace, input: Input)
    requires Enabled(t.sys, input) && !Takes(t, input)
    ensures
      var next := After(t, input);
      && next.batches == t.batches && next.sys.token == t.sys.token && next.sys.rooms == t.sys.rooms
      && next.sys.inbox == t.sys.inbox && next.sys.consumed == t.sys.consumed
  {
  }

  lemma TakenSame(t: Trace, other: Trace, token: Option<Token>, rooms: map<string, RoomView>)
    requires TakenInv(t, token, rooms)
    requires other.batches == t.batches && other.sys.token == t.sys.token && other.sys.rooms == t.sys.rooms
    requires other.sys.inbox == t.sys.inbox && other.sys.consumed == t.sys.consumed
    ensures TakenInv(other, token, rooms)
  {
  }

  lemma TakenOwn(t: Trace, r: SyncResponse, token: Option<Token>, rooms: map<string, RoomView>)
    requires TakenInv(t, token, rooms) && Enabled(t.sys, SessionSync(r))
    ensures TakenInv(After(t, SessionSync(r)), token, rooms)
  {
    var e := Entry(t.count, r, t.sys.token);
    OwnEntries(e);
    TakenNext(t, token, rooms, r, [e]);
    var taken := t.(sys := Consume(t.sys, t.sys.token, r), batches := t.batches + [[e]]);
    TakenSame(taken, After(t, SessionSync(r)), token, rooms);
  }

  lemma TakenCached(t: Trace, token: Option<Token>, rooms: map<string, RoomView>)
    requires GapFree(t.sys) && ContentInv(t) && TakenInv(t, token, rooms)
    requires Enabled(t.sys, SessionHandle) && t.sys.phase.merged.Some?
    ensures TakenInv(After(t, SessionHandle), token, rooms)
  {
    var c := t.sys.phase.merged.value;
    assert t.sys.token == Some(c.syncToken);
    TakenNext(t, token, rooms, c.response, t.loading);
    var taken := t.(sys := Consume(t.sys, t.sys.token, c.response), batches := t.batches + [t.loading]);
    TakenSame(taken, After(t, SessionHandle), token, rooms);
  }

  lemma TakenStep(t: Trace, input: Input, token: Option<Token>, rooms: map<string, RoomView>)
    requires GapFree(t.sys) && ContentInv(t) && TakenInv(t, token, rooms) && Enabled(t.sys, input)
    ensures TakenInv(After(t, input), token, rooms)
  {
    if !Takes(t, input) {
      TakesNothing(t, input);
      TakenSame(t, After(t, input), token, rooms);
    } else if input.SessionSync? {
      TakenOwn(t, input.response, token, rooms);
    } else {
      TakenCached(t, token, rooms);
    }
  }

  lemma {:induction false} TrailInv(t: Trace, inputs: seq<Input>, token: Option<Token>, rooms: map<string, RoomView>)
    requires GapFree(t.sys) && ContentInv(t) && TakenInv(t, token, rooms) && Runs(t.sys, inputs)
    ensures ContentInv(Trail(t, inputs)) && TakenInv(Trail(t, inputs), token, rooms)
    decreases |inputs|
  {
    if inputs != [] {
      ContentStep(t, inputs[0]);
      TakenStep(t, inputs[0], token, rooms);
      StepGapFree(t.sys, inputs[0]);
      TrailInv(After(t, inputs[0]), inputs[1..], token, rooms);
    }
  }

  lemma BegunInv(token: Option<Token>, rooms: map<string, RoomView>)
    ensures GapFree(Begun(token, rooms).sys) && ContentInv(Begun(token, rooms))
    ensures TakenInv(Begun(token, rooms), token, rooms)
  {
    forall roomId ensures RoomAs(rooms, [], rooms, roomId) { assert SaidBy([], roomId) == []; }
  }

  // For every run: the responses the session has taken in, its own and those of the cache, join end to end from its
  // first token to its present one and cover the stretches it logged; it has every one of their to-device events, in
  // order; and each room is as reading them batch by batch leaves it.
  lemma SessionTookIn(token: Option<Token>, rooms: map<string, RoomView>, inputs: seq<Input>, roomId: string)
    requires Runs(Initial(token, rooms), inputs)
    ensures
      var t := Trail(Begun(token, rooms), inputs);
      && Ends(token, Flat(t.batches), t.sys.token)
      && t.sys.inbox == ToDevice(Flat(t.batches))
      && t.sys.consumed == Spans(t.batches)
      && RoomOf(t.sys.rooms, roomId) == ReadAll(SaidBy(t.batches, roomId), RoomOf(rooms, roomId))
  {
    BegunInv(token, rooms);
    TrailInv(Begun(token, rooms), inputs, token, rooms);
    var t := Trail(Begun(token, rooms), inputs);
    assert RoomAs(t.sys.rooms, t.batches, rooms, roomId);
  }

  lemma {:induction false} SaidByFlat(batches: seq<seq<Entry>>, roomId: string)
    ensures Flat(SaidBy(batches, roomId)) == Said(Flat(batches), roomId)
  {
    if batches != [] {
      var init := batches[..|batches|-1];
      SaidByFlat(init, roomId);
      assert SaidBy(batches, roomId)[..|init|] == SaidBy(init, roomId);
      SaidOfConcat(Flat(init), batches[|init|], roomId);
    }
  }

  // For every run and room: the session's room is that of a replay of these responses one by one. Its membership
  // agrees exactly when the last batch that names the room tells it; everything agrees, after every batch, exactly
  // when every batch is kept.
  lemma SessionIsReplay(token: Option<Token>, rooms: map<string, RoomView>, inputs: seq<Input>, roomId: string)
    requires Runs(Initial(token, rooms), inputs)
    ensures
      var t := Trail(Begun(token, rooms), inputs);
      var read, before := SaidBy(t.batches, roomId), RoomOf(rooms, roomId);
      var replayed := Replay(Said(Flat(t.batches), roomId), before);
      && (StandingOf(RoomOf(t.sys.rooms, roomId)) == StandingOf(replayed) <==> TellsStanding(read))
      && (AllSentOnce(read, before) ==> (InStep(read, before) <==> AllKept(read, before)))
      && (AllSentOnce(read, before) && AllKept(read, before) ==> RoomOf(t.sys.rooms, roomId) == replayed)
  {
    var t := Trail(Begun(token, rooms), inputs);
    var read, before := SaidBy(t.batches, roomId), RoomOf(rooms, roomId);
    SessionTookIn(token, rooms, inputs, roomId);
    SaidByFlat(t.batches, roomId);
    BatchesTellStanding(read, before);
    if AllSentOnce(read, before) { BatchesInStep(read, before); }
  }
}
