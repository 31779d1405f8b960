/** What becomes of a response a service stored: read once, waiting in its chunk, or deleted unread. */
module SyncDelivery {
  import opened Basics
  import opened SyncMerge
  import opened RoomReplay
  import opened SyncStore
  import opened SyncReplay
  import opened SyncService
  import opened SyncSystem
  import opened SyncHistory

  type Files = map<nat, Filed>

  predicate Has(read: seq<Entry>, n: nat) { exists x :: x in read && x.serial == n }

  // Where each stored response is.
  predicate Waiting(t: Trace, n: nat) {
    n in t.stored && InOwnChunk(t.stored, t.origins, n)
  }

  predicate Read(t: Trace, n: nat) { Has(Flat(t.batches), n) }

  predicate Lost(t: Trace, n: nat) { n in t.stored && !Waiting(t, n) && !Read(t, n) }

  // ---------- Each response is in one place ----------

  ghost predicate Distinct(entries: seq<Entry>) {
    forall i, j | 0 <= i < j < |entries| :: entries[i].serial != entries[j].serial
  }

  predicate At(stored: Files, e: Entry, id: nat) { e.serial in stored && stored[e.serial] == Filed(e, id) }

  ghost predicate ChunkOk(stored: Files, entries: seq<Entry>, id: nat) {
    Distinct(entries) && forall e | e in entries :: At(stored, e, id)
  }

  ghost predicate NoneRead(entries: seq<Entry>, read: seq<Entry>) {
    forall e | e in entries :: !Has(read, e.serial)
  }

  ghost predicate ReadAre(entries: seq<Entry>, read: seq<Entry>, loading: seq<Entry>) {
    forall e | e in entries :: Has(read, e.serial) <==> e in loading
  }

  ghost predicate LoadingOk(stored: Files, loading: seq<Entry>, toDelete: seq<nat>) {
    && Distinct(loading)
    && (forall e | e in loading ::
          e.serial in stored && stored[e.serial].entry == e && stored[e.serial].chunk in toDelete)
  }

  // Nothing loaded has been deleted yet.
  ghost predicate StillThere(stored: Files, origins: Origins, loading: seq<Entry>) {
    forall e | e in loading && e.serial in stored :: InOwnChunk(stored, origins, e.serial)
  }

  predicate InOwnChunk(stored: Files, origins: Origins, n: nat)
    requires n in stored
  {
    stored[n].chunk in origins && stored[n].entry in origins[stored[n].chunk]
  }

  ghost predicate Numbered(stored: Files, read: seq<Entry>, count: nat) {
    && (forall n | n in stored :: n < count && stored[n].entry.serial == n)
    && (forall e | e in read :: e.serial < count)
    && Distinct(read)
  }

  ghost predicate Filing(stored: Files, origins: Origins) {
    forall id | id in origins :: ChunkOk(stored, origins[id], id)
  }

  ghost predicate AllUnread(origins: Origins, read: seq<Entry>) {
    forall id | id in origins :: NoneRead(origins[id], read)
  }

  // Until the session hands a merged response over, no cached one is read; then exactly those it handed over are,
  // and their chunks are about to be deleted.
  ghost predicate Places(stored: Files, origins: Origins, read: seq<Entry>, loading: seq<Entry>, phase: SessionPhase) {
    match phase
    case Checked(toMerge, toDelete) =>
      AllUnread(origins, read) && NoDup(toMerge) && forall id | id in toMerge :: id in toDelete
    case Loaded(merged, toDelete) =>
      && AllUnread(origins, read) && NoneRead(loading, read) && LoadingOk(stored, loading, toDelete)
      && StillThere(stored, origins, loading)
      && (merged.None? ==> loading == [])
    case Cleaning(toDelete) =>
      && LoadingOk(stored, loading, toDelete)
      && (forall id | id in origins :: ReadAre(origins[id], read, loading))
    case _ => AllUnread(origins, read)
  }

  ghost predicate DeliveryInv(t: Trace) {
    && Numbered(t.stored, Flat(t.batches), t.count)
    && Filing(t.stored, t.origins)
    && Places(t.stored, t.origins, Flat(t.batches), t.loading, t.sys.phase)
  }

  // ---------- Storing ----------

  lemma FreshSerial(read: seq<Entry>, count: nat)
    requires forall e | e in read :: e.serial < count
    ensures !Has(read, count)
  {
  }

  lemma DistinctNext(entries: seq<Entry>, e: Entry)
    requires Distinct(entries) && !Has(entries, e.serial)
    ensures Distinct(entries + [e])
  {
    assert forall i | 0 <= i < |entries| :: entries[i] in entries;
  }

  lemma StoreFiling(stored: Files, origins: Origins, id: nat, e: Entry, before: seq<Entry>)
    requires Filing(stored, origins) && e.serial !in stored
    requires before == if id in origins then origins[id] else []
    ensures Filing(stored[e.serial := Filed(e, id)], origins[id := before + [e]])
  {
    var next := stored[e.serial := Filed(e, id)];
    forall x, other | other in origins && x in origins[other] ensures At(next, x, other) {
      assert At(stored, x, other);
    }
    assert forall x | x in before :: x.serial in stored;
    DistinctNext(before, e);
  }

  lemma StorePlaces(stored: Files, origins: Origins, read: seq<Entry>, loading: seq<Entry>, phase: SessionPhase,
                    id: nat, e: Entry, before: seq<Entry>)
    requires Places(stored, origins, read, loading, phase) && e.serial !in stored && !Has(read, e.serial)
    requires before == if id in origins then origins[id] else []
    ensures Places(stored[e.serial := Filed(e, id)], origins[id := before + [e]], read, loading, phase)
  {
    var next, after := stored[e.serial := Filed(e, id)], origins[id := before + [e]];
    if phase.Cleaning? {
      forall other | other in after ensures ReadAre(after[other], read, loading) {
        assert e !in loading;
      }
    } else {
      forall other | other in after ensures NoneRead(after[other], read) {}
    }
  }

  // ---------- Loading, handing over, deleting ----------

  lemma {:induction false} LoadedBehind(stored: Files, origins: Origins, read: seq<Entry>, chunkIds: seq<nat>)
    requires Filing(stored, origins) && AllUnread(origins, read)
    requires NoDup(chunkIds) && forall id | id in chunkIds :: id in origins
    ensures LoadingOk(stored, OriginOf(origins, chunkIds), chunkIds) && NoneRead(OriginOf(origins, chunkIds), read)
    ensures StillThere(stored, origins, OriginOf(origins, chunkIds))
  {
    if chunkIds != [] {
      var init, last := chunkIds[..|chunkIds|-1], chunkIds[|chunkIds|-1];
      assert forall id | id in init :: id in chunkIds && id != last;
      LoadedBehind(stored, origins, read, init);
      DistinctJoin(stored, OriginOf(origins, init), origins[last], init, last);
      assert forall e | e in origins[last] :: At(stored, e, last);
    }
  }

  lemma DistinctJoin(stored: Files, a: seq<Entry>, b: seq<Entry>, others: seq<nat>, id: nat)
    requires LoadingOk(stored, a, others) && id !in others && ChunkOk(stored, b, id)
    ensures Distinct(a + b)
  {
    var all := a + b;
    forall i, j | 0 <= i < j < |all| ensures all[i].serial != all[j].serial {
      if i < |a| <= j {
        assert a[i] in a && b[j-|a|] in b;
        assert At(stored, b[j-|a|], id);
      }
    }
  }

  lemma HasInConcat(a: seq<Entry>, b: seq<Entry>, n: nat)
    ensures Has(a + b, n) <==> Has(a, n) || Has(b, n)
  {
    if x :| x in a && x.serial == n { assert x in a + b; }
    if x :| x in b && x.serial == n { assert x in a + b; }
  }

  lemma DistinctRead(read: seq<Entry>, loading: seq<Entry>)
    requires Distinct(read) && Distinct(loading) && NoneRead(loading, read)
    ensures Distinct(read + loading)
  {
    var all := read + loading;
    forall i, j | 0 <= i < j < |all| ensures all[i].serial != all[j].serial {
      if i < |read| <= j {
        assert read[i] in read && loading[j-|read|] in loading;
      }
    }
  }

  lemma HandedOver(stored: Files, entries: seq<Entry>, id: nat, read: seq<Entry>, loading: seq<Entry>,
                   toDelete: seq<nat>)
    requires ChunkOk(stored, entries, id) && NoneRead(entries, read) && LoadingOk(stored, loading, toDelete)
    ensures ReadAre(entries, read + loading, loading)
  {
    forall e | e in entries ensures Has(read + loading, e.serial) <==> e in loading {
      HasInConcat(read, loading, e.serial);
      assert At(stored, e, id);
    }
  }

  lemma Deleted(stored: Files, entries: seq<Entry>, id: nat, read: seq<Entry>, loading: seq<Entry>, toDelete: seq<nat>)
    requires ChunkOk(stored, entries, id) && ReadAre(entries, read, loading) && LoadingOk(stored, loading, toDelete)
    requires id !in toDelete
    ensures NoneRead(entries, read)
  {
    forall e | e in entries ensures !Has(read, e.serial) { assert At(stored, e, id); }
  }

  // ---------- Every step ----------

  lemma FlatNext(batches: seq<seq<Entry>>, batch: seq<Entry>)
    ensures Flat(batches + [batch]) == Flat(batches) + batch
  {
    assert (batches + [batch])[..|batches|] == batches;
  }

  lemma StoreDelivery(t: Trace, input: Input)
    requires ContentInv(t) && DeliveryInv(t) && Enabled(t.sys, input)
    requires input.SyncReply? && !Quiet(t, input)
    ensures DeliveryInv(After(t, input))
  {
    var id := Target(t.sys.cache, input.fits);
    var e := Entry(t.count, input.reply.value, Some(t.sys.service.pending[input.rid].from));
    var before := if id in t.origins then t.origins[id] else [];
    FreshSerial(Flat(t.batches), t.count);
    StoreFiling(t.stored, t.origins, id, e, before);
    StorePlaces(t.stored, t.origins, Flat(t.batches), t.loading, t.sys.phase, id, e, before);
  }

  lemma OwnDelivery(t: Trace, r: SyncResponse)
    requires DeliveryInv(t) && Enabled(t.sys, SessionSync(r))
    ensures DeliveryInv(After(t, SessionSync(r)))
  {
    var e := Entry(t.count, r, t.sys.token);
    FlatNext(t.batches, [e]);
    FreshSerial(Flat(t.batches), t.count);
    DistinctNext(Flat(t.batches), e);
    forall id | id in t.origins ensures NoneRead(t.origins[id], Flat(t.batches) + [e]) {
      forall x | x in t.origins[id] ensures !Has(Flat(t.batches) + [e], x.serial) {
        assert At(t.stored, x, id);
        HasInConcat(Flat(t.batches), [e], x.serial);
      }
    }
  }

  lemma CheckDelivery(t: Trace)
    requires GapFree(t.sys) && DeliveryInv(t) && Enabled(t.sys, SessionCheck)
    ensures DeliveryInv(After(t, SessionCheck))
  {
    var cache := t.sys.cache;
    assert forall i | 0 <= i < |cache.ids| :: (cache.ids + cache.outdated)[i] == cache.ids[i];
  }

  lemma LoadDelivery(t: Trace)
    requires GapFree(t.sys) && ContentInv(t) && DeliveryInv(t) && Enabled(t.sys, SessionLoad)
    ensures DeliveryInv(After(t, SessionLoad))
  {
    var toMerge := t.sys.phase.toMerge;
    assert forall id | id in toMerge :: id in t.sys.cache.files;
    LoadedBehind(t.stored, t.origins, Flat(t.batches), toMerge);
    if toMerge != [] { MergedSpans(t.sys.cache, toMerge); }
  }

  lemma HandleDelivery(t: Trace)
    requires DeliveryInv(t) && Enabled(t.sys, SessionHandle)
    ensures DeliveryInv(After(t, SessionHandle))
  {
    var read, toDelete := Flat(t.batches), t.sys.phase.toDelete;
    DistinctRead(read, t.loading);
    forall id | id in t.origins ensures ReadAre(t.origins[id], read + t.loading, t.loading) {
      HandedOver(t.stored, t.origins[id], id, read, t.loading, toDelete);
    }
    if t.sys.phase.merged.Some? {
      FlatNext(t.batches, t.loading);
    } else {
      assert read + t.loading == read;
    }
  }

  lemma DeleteDelivery(t: Trace, input: Input)
    requires ContentInv(t) && DeliveryInv(t) && Enabled(t.sys, input) && (input.SessionClean? || input.SessionWipe?)
    ensures DeliveryInv(After(t, input))
  {
    DeletesGone(t, input);
    var read, gone := Flat(t.batches), Gone(t, input);
    forall id | id in t.origins && id !in gone ensures NoneRead(t.origins[id], read) {
      if input.SessionClean? { Deleted(t.stored, t.origins[id], id, read, t.loading, gone); }
    }
  }

  lemma DeliveryStep(t: Trace, input: Input)
    requires GapFree(t.sys) && ContentInv(t) && DeliveryInv(t) && Enabled(t.sys, input)
    ensures DeliveryInv(After(t, input))
  {
    match input
    case SyncReply(_, _, _) => if !Quiet(t, input) { StoreDelivery(t, input); }
    case SessionSync(r) => OwnDelivery(t, r);
    case SessionCheck => CheckDelivery(t);
    case SessionLoad => LoadDelivery(t);
    case SessionHandle => HandleDelivery(t);
    case SessionClean => DeleteDelivery(t, input);
    case SessionWipe => DeleteDelivery(t, input);
    case _ =>
  }

  lemma {:induction false} TrailDelivery(t: Trace, inputs: seq<Input>)
    requires GapFree(t.sys) && ContentInv(t) && DeliveryInv(t) && Runs(t.sys, inputs)
    ensures GapFree(Trail(t, inputs).sys) && ContentInv(Trail(t, inputs)) && DeliveryInv(Trail(t, inputs))
    decreases |inputs|
  {
    if inputs != [] {
      DeliveryStep(t, inputs[0]);
      ContentStep(t, inputs[0]);
      StepGapFree(t.sys, inputs[0]);
      TrailDelivery(After(t, inputs[0]), inputs[1..]);
    }
  }

  // For every run: the session takes no response in twice, a cached response is in one chunk only, and unless the
  // session is about to clean up, none that it has read is still in the cache.
  lemma EveryResponseOnce(token: Option<Token>, rooms: map<string, RoomView>, inputs: seq<Input>)
    requires Runs(Initial(token, rooms), inputs)
    ensures
      var t := Trail(Begun(token, rooms), inputs);
      && Distinct(Flat(t.batches))
      && (forall id, e | id in t.origins && e in t.origins[id] :: At(t.stored, e, id))
      && (!t.sys.phase.Cleaning? ==> forall n | Waiting(t, n) :: !Read(t, n))
  {
    BegunInv(token, rooms);
    TrailDelivery(Begun(token, rooms), inputs);
    var t := Trail(Begun(token, rooms), inputs);
    forall n | Waiting(t, n) && !t.sys.phase.Cleaning? ensures !Read(t, n) {
      assert NoneRead(t.origins[t.stored[n].chunk], Flat(t.batches));
    }
  }

  // ---------- What is never read ----------

  // The session cleans up a chunk that holds a response it has not handed over: the chunk was outdated when the
  // session looked, or the response was merged into it after the session had loaded it. Or the session wipes what
  // was stored after it had found the cache empty.
  predicate DeletesUnread(t: Trace, input: Input, n: nat)
    requires Enabled(t.sys, input)
  {
    && Waiting(t, n)
    && (|| (input.SessionClean? && t.stored[n].chunk in t.sys.phase.toDelete && t.stored[n].entry !in t.loading)
        || (input.SessionWipe? && t.stored[n].chunk in t.sys.cache.outdated + t.sys.cache.ids))
  }

  lemma StoreLoses(t: Trace, input: Input, n: nat)
    requires DeliveryInv(t) && ContentInv(t) && Enabled(t.sys, input) && n in t.stored
    requires input.SyncReply? && !Quiet(t, input)
    ensures Lost(After(t, input), n) <==> Lost(t, n)
  {
    assert n < t.count;
  }

  lemma TakingLoses(t: Trace, input: Input, n: nat)
    requires DeliveryInv(t) && Enabled(t.sys, input) && n in t.stored && Takes(t, input)
    ensures Lost(After(t, input), n) <==> Lost(t, n)
  {
    var batch := BatchOf(t, input);
    TakesBatch(t, input);
    FlatNext(t.batches, batch);
    HasInConcat(Flat(t.batches), batch, n);
    if Has(batch, n) { TakenIsWaiting(t, input, n); }
  }

  lemma TakenIsWaiting(t: Trace, input: Input, n: nat)
    requires DeliveryInv(t) && Enabled(t.sys, input) && n in t.stored && Takes(t, input) && Has(BatchOf(t, input), n)
    ensures Waiting(t, n)
  {
    var e :| e in BatchOf(t, input) && e.serial == n;
    if input.SessionHandle? { assert e in t.loading; }
  }

  lemma DeletingLoses(t: Trace, input: Input, n: nat)
    requires DeliveryInv(t) && ContentInv(t) && Enabled(t.sys, input) && n in t.stored
    requires input.SessionClean? || input.SessionWipe?
    ensures Lost(After(t, input), n) <==> Lost(t, n) || DeletesUnread(t, input, n)
  {
    DeletesGone(t, input);
    if Waiting(t, n) { ReadWhere(t, input, t.stored[n].entry, t.stored[n].chunk); }
  }

  // What is read of a chunk when the session cleans up.
  lemma ReadWhere(t: Trace, input: Input, e: Entry, id: nat)
    requires DeliveryInv(t) && Enabled(t.sys, input) && (input.SessionClean? || input.SessionWipe?)
    requires id in t.origins && e in t.origins[id]
    ensures Read(t, e.serial) <==> input.SessionClean? && e in t.loading
  {
    if input.SessionClean? {
      assert ReadAre(t.origins[id], Flat(t.batches), t.loading);
    } else {
      assert NoneRead(t.origins[id], Flat(t.batches));
    }
  }

  lemma KeepsPlaces(t: Trace, input: Input)
    requires Enabled(t.sys, input) && !Takes(t, input) && !input.SessionClean? && !input.SessionWipe?
    requires input.SyncReply? ==> Quiet(t, input)
    ensures
      var next := After(t, input);
      next.origins == t.origins && next.stored == t.stored && next.batches == t.batches
  {
  }

  // For every step: a stored response is lost by it exactly when it is deleted unread, and lost for good.
  lemma LostIff(t: Trace, input: Input, n: nat)
    requires ContentInv(t) && DeliveryInv(t) && Enabled(t.sys, input) && n in t.stored
    ensures Lost(After(t, input), n) <==> Lost(t, n) || DeletesUnread(t, input, n)
  {
    if input.SessionClean? || input.SessionWipe? {
      DeletingLoses(t, input, n);
    } else if Takes(t, input) {
      TakingLoses(t, input, n);
    } else if input.SyncReply? && !Quiet(t, input) {
      StoreLoses(t, input, n);
    } else {
      KeepsPlaces(t, input);
    }
  }

  lemma {:induction false} BehindChunks(origins: Origins, chunkIds: seq<nat>, id: nat, e: Entry)
    requires id in chunkIds && id in origins && e in origins[id]
    ensures e in OriginOf(origins, chunkIds)
  {
    var init, last := chunkIds[..|chunkIds|-1], chunkIds[|chunkIds|-1];
    if id != last { BehindChunks(origins, init, id, e); }
  }

  // Checking and loading, with nothing in between.
  lemma LoadedAtOnce(t: Trace)
    requires GapFree(t.sys) && ContentInv(t) && t.sys.phase.Resting?
    requires t.sys.cache.SyncToken().Some? && t.sys.cache.SyncToken() == t.sys.token
    ensures Enabled(t.sys, SessionCheck) && Enabled(After(t, SessionCheck).sys, SessionLoad)
    ensures
      var loaded := After(After(t, SessionCheck), SessionLoad);
      && loaded.sys.phase.Loaded? && loaded.sys.phase.merged.Some? && loaded.batches == t.batches
      && loaded.loading == OriginOf(t.origins, t.sys.cache.ids)
  {
    MergedSpans(t.sys.cache, t.sys.cache.ids);
  }

  lemma HandedAtOnce(t: Trace, n: nat)
    requires GapFree(t.sys) && ContentInv(t) && DeliveryInv(t) && t.sys.phase.Resting?
    requires t.sys.cache.SyncToken().Some? && t.sys.cache.SyncToken() == t.sys.token
    requires Waiting(t, n) && t.stored[n].chunk in t.sys.cache.ids
    ensures Enabled(t.sys, SessionCheck) && Enabled(After(t, SessionCheck).sys, SessionLoad)
    ensures
      var loaded := After(After(t, SessionCheck), SessionLoad);
      Enabled(loaded.sys, SessionHandle) && Read(After(loaded, SessionHandle), n)
  {
    LoadedAtOnce(t);
    var loaded := After(After(t, SessionCheck), SessionLoad);
    BehindChunks(t.origins, t.sys.cache.ids, t.stored[n].chunk, t.stored[n].entry);
    assert t.stored[n].entry.serial == n;
    TakesBatch(loaded, SessionHandle);
    FlatNext(t.batches, loaded.loading);
    HasInConcat(Flat(t.batches), loaded.loading, n);
  }

  // A session that finds its token in the cache, and is left alone until it has cleaned up, loses nothing live.
  lemma QuietHandlingReadsAll(t: Trace, n: nat)
    requires GapFree(t.sys) && ContentInv(t) && DeliveryInv(t) && t.sys.phase.Resting?
    requires t.sys.cache.SyncToken().Some? && t.sys.cache.SyncToken() == t.sys.token
    requires Waiting(t, n) && t.stored[n].chunk in t.sys.cache.ids
    ensures exists next ::
      Leads(t, [SessionCheck] + [SessionLoad] + [SessionHandle] + [SessionClean], next) && Read(next, n)
  {
    HandedAtOnce(t, n);
    var checked := After(t, SessionCheck);
    var loaded := After(checked, SessionLoad);
    var handed := After(loaded, SessionHandle);
    var cleaned := After(handed, SessionClean);
    LeadsOne(t, SessionCheck);
    LeadsOne(checked, SessionLoad);
    LeadsOne(loaded, SessionHandle);
    LeadsOne(handed, SessionClean);
    LeadsOn(t, [SessionCheck], checked, [SessionLoad], loaded);
    LeadsOn(t, [SessionCheck] + [SessionLoad], loaded, [SessionHandle], handed);
    LeadsOn(t, ([SessionCheck] + [SessionLoad]) + [SessionHandle], handed, [SessionClean], cleaned);
    assert cleaned.batches == handed.batches;
  }

  // ---------- A key that nobody reads ----------

  const NO_KEYS := Keys(false, false)

  const SECRET := Event("e", true, false, None)

  const FIRST := SyncResponse(1, ["a"], map["r" := NOTHING.(join := Some(RoomSync([], [SECRET], false, [])))])

  const SECOND := SyncResponse(2, ["key"], map[])

  function Hunting(pending: map<nat, Pending>): Service {
    Fresh(Some(0)).(pending := pending, busy := Some(0), started := {0})
  }

  // The event is cached and cannot be read: the service syncs on from where the chain ends.
  lemma HuntGoesOn(cache: Cache, request: Request, next: Token)
    requires request == Request("e", "r") && cache.ids == [0] && 0 in cache.files
    requires cache.files[0].response.nextBatch == next
    requires FindIn(PartOf(cache.files[0].response, "r"), "e") == Some(SECRET)
    ensures AfterDigest(Hunting(map[0 := Digesting(request, 1)]), cache, 0, NO_KEYS, NO_KEYS) ==
            Hunting(map[0 := Syncing(request, next)])
  {
    assert cache.ids[..0] == [];
    assert cache.Event("e", "r") == Some(SECRET);
    assert map[0 := Digesting(request, 1)][0 := Syncing(request, next)] == map[0 := Syncing(request, next)];
  }

  const ASKED := Request("e", "r")

  const BOTH := MergeResponses(SECOND, FIRST)

  const ENTRY0 := Entry(0, FIRST, Some(0))

  const ENTRY1 := Entry(1, SECOND, Some(1))

  // The service has one chunk, and has just cached its last response, or syncs on.
  ghost predicate Chased(t: Trace, pending: Pending, r: SyncResponse, entries: seq<Entry>, phase: SessionPhase) {
    && t.sys.service == Hunting(map[0 := pending])
    && t.sys.cache == Cache(map[0 := Cached(0, r)], [0], [], 1) && t.origins == map[0 := entries]
    && t.sys.phase == phase
    && t.sys.token == Some(0) && t.sys.inbox == [] && t.batches == []
  }

  lemma FirstStored() returns (t: Trace, inputs: seq<Input>)
    ensures Leads(Begun(Some(0), map[]), inputs, t)
    ensures Chased(t, Digesting(ASKED, 1), FIRST, [ENTRY0], Resting)
    ensures t.stored == map[0 := Filed(ENTRY0, 0)] && t.count == 1
  {
    var begin, reply := Begin(0, ASKED, true, true, NO_KEYS), SyncReply(0, Success(FIRST), true);
    var t0 := Begun(Some(0), map[]);
    var t1 := After(t0, begin);
    assert t1.sys.service == Hunting(map[0 := Syncing(ASKED, 0)]);
    t := After(t1, reply);
    assert t.sys.service == Hunting(map[0 := Digesting(ASKED, 1)]);
    assert [] + [ENTRY0] == [ENTRY0];
    LeadsOne(t0, begin);
    LeadsOne(t1, reply);
    LeadsOn(t0, [begin], t1, [reply], t);
    inputs := [begin] + [reply];
  }

  lemma FirstLoaded(t: Trace) returns (next: Trace, inputs: seq<Input>)
    requires Chased(t, Digesting(ASKED, 1), FIRST, [ENTRY0], Resting)
    ensures Leads(t, inputs, next)
    ensures Chased(next, Digesting(ASKED, 1), FIRST, [ENTRY0], Loaded(Some(Cached(0, FIRST)), [0]))
    ensures next.loading == [ENTRY0] && next.stored == t.stored && next.count == t.count
  {
    var checked := After(t, SessionCheck);
    assert checked.sys.phase == Checked([0], [0]);
    assert [0][..0] == [] && [] + [ENTRY0] == [ENTRY0];
    assert t.sys.cache.Merged([]) == None && t.sys.cache.Merged([0]) == Some(Cached(0, FIRST));
    assert OriginOf(t.origins, [0]) == [ENTRY0];
    next := After(checked, SessionLoad);
    LeadsOne(t, SessionCheck);
    LeadsOne(checked, SessionLoad);
    LeadsOn(t, [SessionCheck], checked, [SessionLoad], next);
    inputs := [SessionCheck] + [SessionLoad];
  }

  lemma ChasedOn(t: Trace, r: SyncResponse, entries: seq<Entry>, phase: SessionPhase) returns (next: Trace)
    requires Chased(t, Digesting(ASKED, 1), r, entries, phase) && (r == FIRST || r == BOTH)
    ensures Leads(t, [CryptoDone(0, NO_KEYS, NO_KEYS)], next)
    ensures Chased(next, Syncing(ASKED, r.nextBatch), r, entries, phase)
    ensures next.loading == t.loading && next.stored == t.stored && next.count == t.count
  {
    FoundFirst(r);
    HuntGoesOn(t.sys.cache, ASKED, r.nextBatch);
    LeadsOne(t, CryptoDone(0, NO_KEYS, NO_KEYS));
    next := After(t, CryptoDone(0, NO_KEYS, NO_KEYS));
  }

  lemma SecondStored(t: Trace, phase: SessionPhase) returns (next: Trace)
    requires Chased(t, Syncing(ASKED, 1), FIRST, [ENTRY0], phase)
    requires t.stored == map[0 := Filed(ENTRY0, 0)] && t.count == 1
    ensures Leads(t, [SyncReply(0, Success(SECOND), true)], next)
    ensures Chased(next, Digesting(ASKED, 1), BOTH, [ENTRY0, ENTRY1], phase) && next.loading == t.loading
    ensures next.stored == map[0 := Filed(ENTRY0, 0), 1 := Filed(ENTRY1, 0)]
  {
    LeadsOne(t, SyncReply(0, Success(SECOND), true));
    next := After(t, SyncReply(0, Success(SECOND), true));
    assert next.sys.service == Hunting(map[0 := Digesting(ASKED, 1)]);
    assert [ENTRY0] + [ENTRY1] == [ENTRY0, ENTRY1];
  }

  lemma CleanedUp(t: Trace) returns (next: Trace, inputs: seq<Input>)
    requires Chased(t, Syncing(ASKED, 2), BOTH, [ENTRY0, ENTRY1], Loaded(Some(Cached(0, FIRST)), [0]))
    requires t.loading == [ENTRY0] && t.stored == map[0 := Filed(ENTRY0, 0), 1 := Filed(ENTRY1, 0)]
    ensures Leads(t, inputs, next)
    ensures next.stored == t.stored && Lost(next, 1) && next.sys.inbox == ["a"]
    ensures next.sys.service == t.sys.service && next.sys.token == Some(1)
  {
    var handed := After(t, SessionHandle);
    FlatNext([], [ENTRY0]);
    assert [] + [ENTRY0] == [ENTRY0];
    next := After(handed, SessionClean);
    LeadsOne(t, SessionHandle);
    LeadsOne(handed, SessionClean);
    LeadsOn(t, [SessionHandle], handed, [SessionClean], next);
    inputs := [SessionHandle] + [SessionClean];
  }

  lemma HuntedOn(t: Trace) returns (next: Trace, inputs: seq<Input>)
    requires Chased(t, Digesting(ASKED, 1), FIRST, [ENTRY0], Loaded(Some(Cached(0, FIRST)), [0]))
    requires t.stored == map[0 := Filed(ENTRY0, 0)] && t.count == 1
    ensures Leads(t, inputs, next) && next.loading == t.loading
    ensures Chased(next, Syncing(ASKED, 2), BOTH, [ENTRY0, ENTRY1], Loaded(Some(Cached(0, FIRST)), [0]))
    ensures next.stored == map[0 := Filed(ENTRY0, 0), 1 := Filed(ENTRY1, 0)]
  {
    var loaded := Loaded(Some(Cached(0, FIRST)), [0]);
    var chase, store := [CryptoDone(0, NO_KEYS, NO_KEYS)], [SyncReply(0, Success(SECOND), true)];
    var chased := ChasedOn(t, FIRST, [ENTRY0], loaded);
    var stored := SecondStored(chased, loaded);
    next := ChasedOn(stored, BOTH, [ENTRY0, ENTRY1], loaded);
    LeadsOn(t, chase, chased, store, stored);
    LeadsOn(t, chase + store, stored, chase, next);
    inputs := chase + store + chase;
  }

  // A run in which the session never reads a key that the server will not send again: the service stores it in the
  // chunk the session has already loaded, and syncs on from behind it, before the session deletes the chunk.
  lemma KeyIsLost() returns (inputs: seq<Input>, t: Trace)
    ensures Leads(Begun(Some(0), map[]), inputs, t)
    ensures t.stored == map[0 := Filed(ENTRY0, 0), 1 := Filed(ENTRY1, 0)] && ENTRY1.response.toDevice == ["key"]
    ensures Lost(t, 1) && "key" !in t.sys.inbox
    ensures t.sys.service.pending == map[0 := Syncing(ASKED, ENTRY1.response.nextBatch)] && t.sys.token == Some(1)
  {
    var stored, opening := FirstStored();
    var loaded, loading := FirstLoaded(stored);
    LeadsOn(Begun(Some(0), map[]), opening, stored, loading, loaded);
    var hunted, hunting := HuntedOn(loaded);
    LeadsOn(Begun(Some(0), map[]), opening + loading, loaded, hunting, hunted);
    var cleaned, closing := CleanedUp(hunted);
    LeadsOn(Begun(Some(0), map[]), opening + loading + hunting, hunted, closing, cleaned);
    inputs, t := opening + loading + hunting + closing, cleaned;
  }

  lemma FoundFirst(r: SyncResponse)
    requires r == FIRST || r == BOTH
    ensures FindIn(PartOf(r, "r"), "e") == Some(SECRET)
  {
    assert PartOf(r, "r").join.value.timeline == [SECRET];
    assert AllEvents(PartOf(r, "r")) == [SECRET];
  }
}
