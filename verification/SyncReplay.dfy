/** What the session reads from the cache, against the responses that went into it. */
module SyncReplay {
  import opened Basics
  import opened SyncMerge
  import opened RoomReplay
  import opened SyncStore

  // A response of the server, its number, and the token it was asked from.
  datatype Entry = Entry(serial: nat, response: SyncResponse, from: Option<Token>)

  // What the responses say about one room, one by one.
  function Said(entries: seq<Entry>, roomId: string): seq<RoomPart> {
    seq(|entries|, i requires 0 <= i < |entries| => PartOf(entries[i].response, roomId))
  }

  function ToDevice(entries: seq<Entry>): seq<string> {
    if entries == [] then [] else ToDevice(entries[..|entries|-1]) + entries[|entries|-1].response.toDevice
  }

  lemma {:induction false} ToDeviceOfConcat(a: seq<Entry>, b: seq<Entry>)
    ensures ToDevice(a + b) == ToDevice(a) + ToDevice(b)
  {
    if b == [] {
      assert a + b == a;
    } else {
      assert (a + b)[..|a + b|-1] == a + b[..|b|-1];
      ToDeviceOfConcat(a, b[..|b|-1]);
    }
  }

  // Each response was asked from the token the one before it ended at.
  predicate Consecutive(entries: seq<Entry>) {
    forall i | 0 <= i < |entries| - 1 :: entries[i+1].from == Some(entries[i].response.nextBatch)
  }

  // ---------- One merged response for a list ----------

  function LeftPlan(parts: seq<RoomPart>): Plan
    requires parts != []
  {
    if |parts| == 1 then Leaf(parts[0]) else Merge(LeftPlan(parts[..|parts|-1]), Leaf(parts[|parts|-1]))
  }

  lemma {:induction false} LeftPlanParts(parts: seq<RoomPart>)
    requires parts != []
    ensures Parts(LeftPlan(parts)) == parts
  {
    if |parts| > 1 { LeftPlanParts(parts[..|parts|-1]); }
  }

  function Folded(entries: seq<Entry>): SyncResponse
    requires entries != []
  {
    if |entries| == 1 then entries[0].response
    else MergeResponses(entries[|entries|-1].response, Folded(entries[..|entries|-1]))
  }

  lemma MergedPart(later: SyncResponse, earlier: SyncResponse, roomId: string)
    ensures PartOf(MergeResponses(later, earlier), roomId) == MergeRoom(PartOf(later, roomId), PartOf(earlier, roomId))
  {
  }

  lemma {:induction false} FoldedPart(entries: seq<Entry>, roomId: string)
    requires entries != []
    ensures PartOf(Folded(entries), roomId) == Eval(LeftPlan(Said(entries, roomId)))
  {
    if |entries| > 1 {
      var init := entries[..|entries|-1];
      FoldedPart(init, roomId);
      assert Said(entries, roomId)[..|entries|-1] == Said(init, roomId);
      MergedPart(entries[|entries|-1].response, Folded(init), roomId);
    }
  }

  lemma {:induction false} FoldedEnds(entries: seq<Entry>)
    requires entries != []
    ensures Folded(entries).nextBatch == entries[|entries|-1].response.nextBatch
    ensures Folded(entries).toDevice == ToDevice(entries)
  {
    if |entries| == 1 {
      assert ToDevice(entries[..0]) == [];
      assert [] + entries[0].response.toDevice == entries[0].response.toDevice;
    } else {
      FoldedEnds(entries[..|entries|-1]);
    }
  }

  // How the session reads the merge of these parts, whatever the bracketing.
  function ReadMerged(parts: seq<RoomPart>, s: Option<RoomView>): Option<RoomView> {
    if parts == [] then s else Apply(Eval(LeftPlan(parts)), s)
  }

  lemma ReadMergedByAnyPlan(plan: Plan, s: Option<RoomView>)
    ensures Parts(plan) != [] && ReadMerged(Parts(plan), s) == Apply(Eval(plan), s)
  {
    PartsNotEmpty(plan);
    LeftPlanParts(Parts(plan));
    GroupingIsInvisible(plan, LeftPlan(Parts(plan)), s);
  }

  lemma {:induction false} PartsNotEmpty(plan: Plan)
    ensures Parts(plan) != []
  {
    if plan.Merge? { PartsNotEmpty(plan.older); }
  }

  // ---------- Where the chunks come from ----------

  type Origins = map<nat, seq<Entry>>

  predicate Made(c: Cached, entries: seq<Entry>) {
    entries != [] && entries[0].from == Some(c.syncToken) && c.response == Folded(entries)
  }

  ghost predicate Provenance(cache: Cache, origins: Origins, chunkIds: seq<nat>) {
    forall id | id in chunkIds :: id in cache.files && id in origins && Made(cache.files[id], origins[id])
  }

  // The chunk a new response goes to.
  function Target(cache: Cache, fits: bool): nat {
    if cache.ids != [] && fits && cache.ids[|cache.ids|-1] in cache.files then cache.ids[|cache.ids|-1]
    else cache.nextId
  }

  function WithEntry(cache: Cache, origins: Origins, e: Entry, fits: bool): Origins {
    var id := Target(cache, fits);
    origins[id := (if id in cache.files && id in origins then origins[id] else []) + [e]]
  }

  // The responses behind a list of chunks.
  function OriginOf(origins: Origins, chunkIds: seq<nat>): seq<Entry> {
    if chunkIds == [] then []
    else
      var last := chunkIds[|chunkIds|-1];
      OriginOf(origins, chunkIds[..|chunkIds|-1]) + if last in origins then origins[last] else []
  }

  lemma MadeNext(c: Cached, entries: seq<Entry>, e: Entry)
    requires Made(c, entries)
    ensures Made(Cached(c.syncToken, MergeResponses(e.response, c.response)), entries + [e])
  {
    assert (entries + [e])[..|entries|] == entries;
  }

  lemma UpdatedProvenance(cache: Cache, origins: Origins, chunkIds: seq<nat>, e: Entry, fits: bool)
    requires cache.Valid() && Provenance(cache, origins, chunkIds) && Provenance(cache, origins, cache.ids)
    requires e.from.Some?
    ensures
      var after := cache.Updated(e.response, e.from.value, fits);
      Provenance(after, WithEntry(cache, origins, e, fits), chunkIds + [Target(cache, fits)])
  {
    var id := Target(cache, fits);
    if cache.ids != [] && fits {
      assert id in cache.ids;
      MadeNext(cache.files[id], origins[id], e);
    } else {
      assert [] + [e] == [e];
      assert Made(Cached(e.from.value, e.response), [e]);
      assert id !in cache.files;
    }
  }

  lemma {:induction false} MergedEnds(cache: Cache, origins: Origins, chunkIds: seq<nat>)
    requires chunkIds != [] && Provenance(cache, origins, chunkIds)
    ensures cache.Merged(chunkIds).Some? && OriginOf(origins, chunkIds) != []
    ensures cache.Merged(chunkIds).value.response.toDevice == ToDevice(OriginOf(origins, chunkIds))
    ensures cache.Merged(chunkIds).value.response.nextBatch ==
            OriginOf(origins, chunkIds)[|OriginOf(origins, chunkIds)|-1].response.nextBatch
    ensures OriginOf(origins, chunkIds)[0].from == Some(cache.Merged(chunkIds).value.syncToken)
  {
    var init, last := chunkIds[..|chunkIds|-1], chunkIds[|chunkIds|-1];
    FoldedEnds(origins[last]);
    if init == [] {
      assert [] + origins[last] == origins[last];
    } else {
      MergedEnds(cache, origins, init);
      ToDeviceOfConcat(OriginOf(origins, init), origins[last]);
    }
  }

  lemma ChunkPlan(c: Cached, entries: seq<Entry>, roomId: string) returns (plan: Plan)
    requires Made(c, entries)
    ensures PartOf(c.response, roomId) == Eval(plan) && Parts(plan) == Said(entries, roomId)
  {
    FoldedPart(entries, roomId);
    LeftPlanParts(Said(entries, roomId));
    plan := LeftPlan(Said(entries, roomId));
  }

  lemma SaidOfConcat(a: seq<Entry>, b: seq<Entry>, roomId: string)
    ensures Said(a + b, roomId) == Said(a, roomId) + Said(b, roomId)
  {
  }

  // For each room, the merged response is one bracketing of what the responses behind the chunks say.
  lemma {:induction false} MergedPlan(cache: Cache, origins: Origins, chunkIds: seq<nat>, roomId: string)
    returns (plan: Plan)
    requires chunkIds != [] && Provenance(cache, origins, chunkIds)
    ensures cache.Merged(chunkIds).Some?
    ensures PartOf(cache.Merged(chunkIds).value.response, roomId) == Eval(plan)
    ensures Parts(plan) == Said(OriginOf(origins, chunkIds), roomId)
  {
    var init, last := chunkIds[..|chunkIds|-1], chunkIds[|chunkIds|-1];
    var chunk := ChunkPlan(cache.files[last], origins[last], roomId);
    if init == [] {
      assert OriginOf(origins, chunkIds) == origins[last] by { assert [] + origins[last] == origins[last]; }
      plan := chunk;
    } else {
      var before := MergedPlan(cache, origins, init, roomId);
      MergedPart(cache.files[last].response, cache.Merged(init).value.response, roomId);
      SaidOfConcat(OriginOf(origins, init), origins[last], roomId);
      plan := Merge(before, chunk);
    }
  }

  lemma MergedReading(cache: Cache, origins: Origins, chunkIds: seq<nat>, roomId: string, s: Option<RoomView>)
    requires chunkIds != [] && Provenance(cache, origins, chunkIds)
    ensures cache.Merged(chunkIds).Some? && OriginOf(origins, chunkIds) != []
    ensures Apply(PartOf(cache.Merged(chunkIds).value.response, roomId), s) ==
            ReadMerged(Said(OriginOf(origins, chunkIds), roomId), s)
  {
    var plan := MergedPlan(cache, origins, chunkIds, roomId);
    MergedEnds(cache, origins, chunkIds);
    ReadMergedByAnyPlan(plan, s);
  }

  // ---------- A cache nobody disturbs ----------

  predicate Asked(entries: seq<Entry>) { forall e | e in entries :: e.from.Some? }

  // Storing responses one after the other; `fits` says whether the last chunk was still under the size limit.
  function Stored(cache: Cache, entries: seq<Entry>, fits: seq<bool>): Cache
    requires |fits| == |entries| && Asked(entries)
  {
    if entries == [] then cache
    else
      var n := |entries| - 1;
      Stored(cache, entries[..n], fits[..n]).Updated(entries[n].response, entries[n].from.value, fits[n])
  }

  lemma UpdatedValid(cache: Cache, r: SyncResponse, from: Token, fits: bool)
    requires cache.Valid()
    ensures cache.Updated(r, from, fits).Valid()
  {
    InsertedNoDup(cache.ids, cache.nextId, cache.outdated);
  }

  lemma {:induction false} SameOrigins(origins: Origins, other: Origins, chunkIds: seq<nat>)
    requires forall id | id in chunkIds :: id in origins && id in other && origins[id] == other[id]
    ensures OriginOf(origins, chunkIds) == OriginOf(other, chunkIds)
  {
    if chunkIds != [] {
      assert chunkIds[|chunkIds|-1] in chunkIds;
      SameOrigins(origins, other, chunkIds[..|chunkIds|-1]);
    }
  }

  // A response stored is one more behind the live chunks.
  lemma UpdatedOrigin(cache: Cache, origins: Origins, e: Entry, fits: bool)
    requires cache.Valid() && Provenance(cache, origins, cache.ids) && e.from.Some?
    ensures
      var after := cache.Updated(e.response, e.from.value, fits);
      OriginOf(WithEntry(cache, origins, e, fits), after.ids) == OriginOf(origins, cache.ids) + [e]
  {
    var next := WithEntry(cache, origins, e, fits);
    assert forall x | x in cache.ids :: x in cache.ids + cache.outdated;
    if cache.ids != [] && fits {
      LastIsOnce(cache);
      MergedOrigin(origins, next, cache.ids, e);
    } else {
      AddedOrigin(origins, next, cache.ids, cache.nextId, e);
    }
  }

  lemma MergedOrigin(origins: Origins, next: Origins, ids: seq<nat>, e: Entry)
    requires ids != [] && forall id | id in ids :: id in origins
    requires forall i | 0 <= i < |ids| - 1 :: ids[i] != ids[|ids|-1]
    requires next == origins[ids[|ids|-1] := origins[ids[|ids|-1]] + [e]]
    ensures OriginOf(next, ids) == OriginOf(origins, ids) + [e]
  {
    var init, last := ids[..|ids|-1], ids[|ids|-1];
    SameOrigins(next, origins, init);
    assert OriginOf(origins, init) + (origins[last] + [e]) == (OriginOf(origins, init) + origins[last]) + [e];
  }

  lemma AddedOrigin(origins: Origins, next: Origins, ids: seq<nat>, id: nat, e: Entry)
    requires id !in ids && forall x | x in ids :: x in origins
    requires next == origins[id := [] + [e]]
    ensures OriginOf(next, ids + [id]) == OriginOf(origins, ids) + [e]
  {
    SameOrigins(next, origins, ids);
    assert (ids + [id])[..|ids|] == ids;
  }

  ghost predicate StoredWell(stored: Cache, origins: Origins, entries: seq<Entry>) {
    && stored.Valid() && (entries != [] ==> stored.ids != [])
    && Provenance(stored, origins, stored.ids) && OriginOf(origins, stored.ids) == entries
  }

  lemma StoredNext(cache: Cache, origins: Origins, entries: seq<Entry>, e: Entry, fits: bool)
    requires StoredWell(cache, origins, entries) && e.from.Some?
    ensures StoredWell(cache.Updated(e.response, e.from.value, fits), WithEntry(cache, origins, e, fits), entries + [e])
  {
    UpdatedProvenance(cache, origins, cache.ids, e, fits);
    UpdatedOrigin(cache, origins, e, fits);
    UpdatedValid(cache, e.response, e.from.value, fits);
  }

  lemma {:induction false} StoredProvenance(cache: Cache, entries: seq<Entry>, fits: seq<bool>)
    returns (origins: Origins)
    requires cache.Valid() && cache.ids == [] && |fits| == |entries| && Asked(entries)
    ensures StoredWell(Stored(cache, entries, fits), origins, entries)
  {
    if entries == [] {
      origins := map[];
    } else {
      var n := |entries| - 1;
      var init, last := entries[..n], entries[n];
      assert last in entries && entries == init + [last];
      var earlier := StoredProvenance(cache, init, fits[..n]);
      var before := Stored(cache, init, fits[..n]);
      StoredNext(before, earlier, init, last, fits[n]);
      origins := WithEntry(before, earlier, last, fits[n]);
    }
  }

  // What the session reads back for a room, from a cache that was empty before these responses.
  function ReadBack(cache: Cache, entries: seq<Entry>, fits: seq<bool>, roomId: string): RoomPart
    requires |fits| == |entries| && Asked(entries)
  {
    var stored := Stored(cache, entries, fits);
    var merged := stored.Merged(stored.ids);
    if merged.Some? then PartOf(merged.value.response, roomId) else NOTHING
  }

  lemma ReadBackIsBracketing(cache: Cache, entries: seq<Entry>, fits: seq<bool>, roomId: string) returns (plan: Plan)
    requires cache.Valid() && cache.ids == [] && entries != [] && |fits| == |entries| && Asked(entries)
    ensures ReadBack(cache, entries, fits, roomId) == Eval(plan) && Parts(plan) == Said(entries, roomId)
  {
    var origins := StoredProvenance(cache, entries, fits);
    var stored := Stored(cache, entries, fits);
    plan := MergedPlan(stored, origins, stored.ids, roomId);
  }

  // End to end, for every room and every list of server responses: whatever the size limit did, reading the
  // cache back leaves the room as replaying the responses one by one does, exactly when the merge keeps it; its
  // membership already when the room was never left or leaving was the last word.
  lemma CacheRefinesReplay(cache: Cache, entries: seq<Entry>, fits: seq<bool>, roomId: string, s: Option<RoomView>)
    requires cache.Valid() && cache.ids == [] && entries != [] && |fits| == |entries| && Asked(entries)
    ensures
      var read, said := ReadBack(cache, entries, fits, roomId), Said(entries, roomId);
      && (StandingOf(Apply(read, s)) == StandingOf(Replay(said, s)) <==> !EverLeft(said) || LastWord(said).Left?)
      && (EverLeft(said) || SentOnce(said, s) ==> (Apply(read, s) == Replay(said, s) <==> Kept(said, s)))
  {
    var plan := ReadBackIsBracketing(cache, entries, fits, roomId);
    MergedMembership(plan, s);
    if EverLeft(Parts(plan)) || SentOnce(Parts(plan), s) { MergedReplay(plan, s); }
  }

  // The session reads back every to-device event once, in order.
  lemma ToDeviceConserved(cache: Cache, entries: seq<Entry>, fits: seq<bool>)
    requires cache.Valid() && cache.ids == [] && entries != [] && |fits| == |entries| && Asked(entries)
    ensures
      var stored := Stored(cache, entries, fits);
      stored.Merged(stored.ids).Some? && stored.Merged(stored.ids).value.response.toDevice == ToDevice(entries)
  {
    var origins := StoredProvenance(cache, entries, fits);
    MergedEnds(Stored(cache, entries, fits), origins, Stored(cache, entries, fits).ids);
  }

  // Two caches fed the same responses under different size limits read back alike.
  lemma SizeLimitIsInvisible(cache: Cache, entries: seq<Entry>, fits: seq<bool>, other: seq<bool>, roomId: string,
                             s: Option<RoomView>)
    requires cache.Valid() && cache.ids == [] && entries != [] && Asked(entries)
    requires |fits| == |entries| && |other| == |entries|
    ensures Apply(ReadBack(cache, entries, fits, roomId), s) == Apply(ReadBack(cache, entries, other, roomId), s)
  {
    var plan := ReadBackIsBracketing(cache, entries, fits, roomId);
    var plan' := ReadBackIsBracketing(cache, entries, other, roomId);
    GroupingIsInvisible(plan, plan', s);
  }

  // ---------- Batch after batch ----------

  function Flat<T>(batches: seq<seq<T>>): seq<T> {
    if batches == [] then [] else Flat(batches[..|batches|-1]) + batches[|batches|-1]
  }

  // The session reads each batch as one merged response.
  function ReadAll(batches: seq<seq<RoomPart>>, s: Option<RoomView>): Option<RoomView> {
    if batches == [] then s else ReadMerged(batches[|batches|-1], ReadAll(batches[..|batches|-1], s))
  }

  // The last batch that names the room never leaves it, or ends with leaving it.
  predicate TellsStanding(batches: seq<seq<RoomPart>>) {
    batches == [] ||
    var last := batches[|batches|-1];
    if LastWord(last).Unmentioned? then TellsStanding(batches[..|batches|-1])
    else !EverLeft(last) || LastWord(last).Left?
  }

  lemma ReadMergedStanding(parts: seq<RoomPart>, s: Option<RoomView>)
    ensures StandingOf(ReadMerged(parts, s)) ==
      if LastWord(parts).Unmentioned? then StandingOf(s) else if EverLeft(parts) then Left else LastWord(parts)
  {
    if parts != [] {
      var plan := LeftPlan(parts);
      LeftPlanParts(parts);
      EvalStanding(plan);
      ApplyStanding(Eval(plan), s);
      if EverLeft(parts) { LeftIsMentioned(parts); } else { NeverLeftNotLast(parts); }
    }
  }

  // For every list of batches: the session's membership of a room is that of the one-by-one replay exactly when
  // the last batch that names the room tells it.
  lemma {:induction false} BatchesTellStanding(batches: seq<seq<RoomPart>>, s: Option<RoomView>)
    ensures StandingOf(ReadAll(batches, s)) == StandingOf(Replay(Flat(batches), s)) <==> TellsStanding(batches)
  {
    if batches != [] {
      var init, last := batches[..|batches|-1], batches[|batches|-1];
      BatchesTellStanding(init, s);
      ReadMergedStanding(last, ReadAll(init, s));
      ReplayConcat(Flat(init), last, s);
      ReplayStanding(last, Replay(Flat(init), s));
      if EverLeft(last) { LeftIsMentioned(last); } else { NeverLeftNotLast(last); }
    }
  }

  // Each batch comes to a room that is in step with the replay, and keeps it.
  ghost predicate AllKept(batches: seq<seq<RoomPart>>, s: Option<RoomView>) {
    batches == [] ||
    var init, last := batches[..|batches|-1], batches[|batches|-1];
    AllKept(init, s) && Kept(last, Replay(Flat(init), s))
  }

  ghost predicate AllSentOnce(batches: seq<seq<RoomPart>>, s: Option<RoomView>) {
    batches == [] ||
    var init, last := batches[..|batches|-1], batches[|batches|-1];
    AllSentOnce(init, s) && (EverLeft(last) || SentOnce(last, Replay(Flat(init), s)))
  }

  // In step at the end, and after every batch on the way.
  ghost predicate InStep(batches: seq<seq<RoomPart>>, s: Option<RoomView>) {
    && ReadAll(batches, s) == Replay(Flat(batches), s)
    && (batches != [] ==> InStep(batches[..|batches|-1], s))
  }

  // For every list of batches: the session's view of a room is that of the one-by-one replay after each batch,
  // exactly when every batch is kept.
  lemma {:induction false} BatchesInStep(batches: seq<seq<RoomPart>>, s: Option<RoomView>)
    requires AllSentOnce(batches, s)
    ensures InStep(batches, s) <==> AllKept(batches, s)
  {
    if batches != [] {
      var init, last := batches[..|batches|-1], batches[|batches|-1];
      BatchesInStep(init, s);
      ReplayConcat(Flat(init), last, s);
      MergedIsKept(last, Replay(Flat(init), s));
    }
  }

  lemma MergedIsKept(parts: seq<RoomPart>, s: Option<RoomView>)
    requires EverLeft(parts) || SentOnce(parts, s)
    ensures ReadMerged(parts, s) == Replay(parts, s) <==> Kept(parts, s)
  {
    if parts == [] {
      assert Kept([], s) by { forall key ensures KeyKept([], s, key) {} }
    } else {
      LeftPlanParts(parts);
      MergedReplay(LeftPlan(parts), s);
    }
  }
}
