/** The cache of /sync responses: an abstract value, the file store that keeps it, and its manager. */
module SyncStore {
  import opened Basics
  import opened SyncMerge

  type Token = nat

  datatype SyncResponse = SyncResponse(nextBatch: Token, toDevice: seq<string>, rooms: map<string, RoomPart>)

  datatype Cached = Cached(syncToken: Token, response: SyncResponse)

  function PartOf(r: SyncResponse, roomId: string): RoomPart {
    if roomId in r.rooms then r.rooms[roomId] else NOTHING
  }

  function MergeResponses(later: SyncResponse, earlier: SyncResponse): SyncResponse {
    SyncResponse(later.nextBatch, earlier.toDevice + later.toDevice,
      map roomId | roomId in earlier.rooms.Keys + later.rooms.Keys
        :: MergeRoom(PartOf(later, roomId), PartOf(earlier, roomId)))
  }

  // ---------- The cache as a value ----------

  datatype Cache = Cache(files: map<nat, Cached>, ids: seq<nat>, outdated: seq<nat>, nextId: nat) {

    ghost predicate Valid() {
      && NoDup(ids + outdated)
      && (forall id | id in ids + outdated :: id in files)
      && (forall id | id in files :: id < nextId)
    }

    function SyncToken(): Option<Token> {
      if ids != [] && ids[0] in files then Some(files[ids[0]].syncToken) else None
    }

    function NextSyncToken(): Option<Token> {
      if ids != [] && ids[|ids|-1] in files then Some(files[ids[|ids|-1]].response.nextBatch) else None
    }

    function Added(c: Cached): Cache {
      Cache(files[nextId := c], ids + [nextId], outdated, nextId + 1)
    }

    // `fits`: the last chunk is still under the size limit.
    function Updated(r: SyncResponse, token: Token, fits: bool): Cache {
      if ids != [] && fits && ids[|ids|-1] in files then
        var last := ids[|ids|-1];
        this.(files := files[last := Cached(files[last].syncToken, MergeResponses(r, files[last].response))])
      else Added(Cached(token, r))
    }

    function AllOutdated(): Cache {
      this.(ids := [], outdated := outdated + ids)
    }

    function OneOutdated(id: nat): Cache {
      var i := FirstIndex(ids, (x: nat) => x == id);
      if i < |ids| then this.(ids := ids[..i] + ids[i+1..], outdated := outdated + [id]) else this
    }

    function MarkedOutdated(gone: seq<nat>): Cache {
      if gone == [] then this else MarkedOutdated(gone[..|gone|-1]).OneOutdated(gone[|gone|-1])
    }

    function Deleted(gone: seq<nat>): Cache {
      this.(files := map id | id in files && id !in gone :: files[id],
            ids := Keep(ids, (id: nat) => id !in gone),
            outdated := Keep(outdated, (id: nat) => id !in gone))
    }

    // Newest chunk first.
    function Event(eventId: string, roomId: string): Option<Event> {
      EventIn(ids, eventId, roomId)
    }

    function EventAt(id: nat, eventId: string, roomId: string): Option<Event> {
      if id in files then FindIn(PartOf(files[id].response, roomId), eventId) else None
    }

    function EventIn(chunkIds: seq<nat>, eventId: string, roomId: string): Option<Event> {
      if chunkIds == [] then None
      else OrElse(EventAt(chunkIds[|chunkIds|-1], eventId, roomId), EventIn(chunkIds[..|chunkIds|-1], eventId, roomId))
    }

    // The response the session reads for a list of chunks; missing files are skipped.
    function Merged(chunkIds: seq<nat>): Option<Cached> {
      if chunkIds == [] then None
      else
        var last := chunkIds[|chunkIds|-1];
        var before := Merged(chunkIds[..|chunkIds|-1]);
        if last !in files then before
        else if before.None? then Some(files[last])
        else Some(Cached(before.value.syncToken, MergeResponses(files[last].response, before.value.response)))
    }
  }

  const EMPTY := Cache(map[], [], [], 0)

  // Each chunk starts where the one before it ends.
  predicate Contiguous(cache: Cache, chunkIds: seq<nat>) {
    && (forall id | id in chunkIds :: id in cache.files)
    && (forall i | 0 <= i < |chunkIds| - 1 ::
          cache.files[chunkIds[i]].response.nextBatch == cache.files[chunkIds[i+1]].syncToken)
  }

  lemma LastIsOnce(cache: Cache)
    requires cache.Valid() && cache.ids != []
    ensures forall i | 0 <= i < |cache.ids| - 1 :: cache.ids[i] != cache.ids[|cache.ids|-1]
  {
    forall i | 0 <= i < |cache.ids| - 1 ensures cache.ids[i] != cache.ids[|cache.ids|-1] {
      assert (cache.ids + cache.outdated)[i] == cache.ids[i];
      assert (cache.ids + cache.outdated)[|cache.ids|-1] == cache.ids[|cache.ids|-1];
    }
  }

  // Where a lookup finds an event: in the newest live chunk that has one with this id.
  ghost predicate FoundAt(cache: Cache, chunkIds: seq<nat>, eventId: string, roomId: string, i: nat, e: Event) {
    && i < |chunkIds| && cache.EventAt(chunkIds[i], eventId, roomId) == Some(e)
    && (forall j | i < j < |chunkIds| :: cache.EventAt(chunkIds[j], eventId, roomId).None?)
  }

  lemma {:induction false} FoundInNewest(cache: Cache, chunkIds: seq<nat>, eventId: string, roomId: string)
    returns (i: nat)
    requires cache.EventIn(chunkIds, eventId, roomId).Some?
    ensures FoundAt(cache, chunkIds, eventId, roomId, i, cache.EventIn(chunkIds, eventId, roomId).value)
  {
    var n := |chunkIds| - 1;
    if cache.EventAt(chunkIds[n], eventId, roomId).Some? {
      i := n;
    } else {
      var init := chunkIds[..n];
      i := FoundInNewest(cache, init, eventId, roomId);
      forall j | i < j < |chunkIds| ensures cache.EventAt(chunkIds[j], eventId, roomId).None? {
        assert j < n ==> init[j] == chunkIds[j];
      }
    }
  }

  ghost predicate ChunkHolds(cache: Cache, id: nat, roomId: string, e: Event) {
    id in cache.files && Holds(PartOf(cache.files[id].response, roomId), e)
  }

  // The chunk at this place has the event, and no later one has any with its id.
  ghost predicate NewestAt(cache: Cache, roomId: string, e: Event, i: nat) {
    && i < |cache.ids| && ChunkHolds(cache, cache.ids[i], roomId, e)
    && (forall j, x | i < j < |cache.ids| && ChunkHolds(cache, cache.ids[j], roomId, x) :: x.id != e.id)
  }

  lemma ChunkFound(cache: Cache, id: nat, eventId: string, roomId: string)
    ensures cache.EventAt(id, eventId, roomId).Some? ==>
      var e := cache.EventAt(id, eventId, roomId).value; ChunkHolds(cache, id, roomId, e) && e.id == eventId
    ensures cache.EventAt(id, eventId, roomId).None? <==> forall x | ChunkHolds(cache, id, roomId, x) :: x.id != eventId
  {
    var found := cache.EventAt(id, eventId, roomId);
    if id in cache.files {
      FoundIff(PartOf(cache.files[id].response, roomId), eventId,
               if found.Some? then found.value else Event("", false, false, None));
    }
  }

  // A lookup gives an event with the id asked for, in the room asked for, from the newest live chunk that has one;
  // and nothing exactly when no live chunk has one.
  lemma EventIsNewest(cache: Cache, eventId: string, roomId: string)
    ensures cache.Event(eventId, roomId).Some? ==>
      var e := cache.Event(eventId, roomId).value; e.id == eventId && exists i :: NewestAt(cache, roomId, e, i)
    ensures cache.Event(eventId, roomId).None? <==>
      forall i, x | 0 <= i < |cache.ids| && ChunkHolds(cache, cache.ids[i], roomId, x) :: x.id != eventId
  {
    forall id ensures
      cache.EventAt(id, eventId, roomId).None? <==> forall x | ChunkHolds(cache, id, roomId, x) :: x.id != eventId
    {
      ChunkFound(cache, id, eventId, roomId);
    }
    if cache.Event(eventId, roomId).Some? {
      var i := FoundInNewest(cache, cache.ids, eventId, roomId);
      ChunkFound(cache, cache.ids[i], eventId, roomId);
      assert NewestAt(cache, roomId, cache.Event(eventId, roomId).value, i);
    } else {
      NoneInAny(cache, cache.ids, eventId, roomId);
    }
  }

  lemma {:induction false} NoneInAny(cache: Cache, chunkIds: seq<nat>, eventId: string, roomId: string)
    requires cache.EventIn(chunkIds, eventId, roomId).None?
    ensures forall i | 0 <= i < |chunkIds| :: cache.EventAt(chunkIds[i], eventId, roomId).None?
  {
    if chunkIds != [] {
      var n := |chunkIds| - 1;
      NoneInAny(cache, chunkIds[..n], eventId, roomId);
      forall i | 0 <= i < n ensures cache.EventAt(chunkIds[i], eventId, roomId).None? {
        assert chunkIds[i] == chunkIds[..n][i];
      }
    }
  }

  // Marking the whole live list, id by id, empties it into the outdated list in order.
  lemma {:induction false} MarkWholeList(cache: Cache, n: nat)
    requires n <= |cache.ids|
    ensures cache.MarkedOutdated(cache.ids[..n]) ==
            cache.(ids := cache.ids[n..], outdated := cache.outdated + cache.ids[..n])
  {
    if n > 0 {
      assert cache.ids[..n][..n-1] == cache.ids[..n-1];
      MarkWholeList(cache, n - 1);
      assert cache.ids[n-1..][0] == cache.ids[n-1];
    }
  }

  // Merging a contiguous list spans it from its first token to its last.
  lemma {:induction false} MergedSpans(cache: Cache, chunkIds: seq<nat>)
    requires chunkIds != [] && Contiguous(cache, chunkIds)
    ensures cache.Merged(chunkIds).Some?
    ensures cache.Merged(chunkIds).value.syncToken == cache.files[chunkIds[0]].syncToken
    ensures cache.Merged(chunkIds).value.response.nextBatch == cache.files[chunkIds[|chunkIds|-1]].response.nextBatch
  {
    if |chunkIds| > 1 {
      MergedSpans(cache, chunkIds[..|chunkIds|-1]);
    } else {
      assert chunkIds[..0] == [];
    }
  }

  // ---------- Files on disk ----------

  class FileStore {
    var files: map<nat, Cached>
    var ids: seq<nat>
    var outdatedIds: seq<nat>
    var nextId: nat

    function State(): Cache reads this { Cache(files, ids, outdatedIds, nextId) }

    ghost predicate Valid() reads this { State().Valid() }

    constructor ()
      ensures Valid() && State() == EMPTY
    {
      files, ids, outdatedIds, nextId := map[], [], [], 0;
    }

    method AddSyncResponse(c: Cached) returns (id: nat)
      requires Valid()
      modifies this
      ensures Valid() && State() == old(State()).Added(c)
      ensures id !in old(files) && id in files && files[id] == c
    {
      id := nextId;
      InsertedNoDup(ids, id, outdatedIds);
      nextId := nextId + 1;
      files := files[id := c];
      ids := ids + [id];
    }

    method UpdateSyncResponse(id: nat, c: Cached)
      requires Valid() && id in files
      modifies this`files
      ensures Valid() && State() == old(State()).(files := old(files)[id := c])
    {
      files := files[id := c];
    }

    method MarkOneOutdated(id: nat)
      requires Valid()
      modifies this`ids, this`outdatedIds
      ensures Valid() && State() == old(State()).OneOutdated(id)
    {
      var index := FirstIndex(ids, (x: nat) => x == id);
      if index < |ids| {
        MovedNoDup(ids, index, outdatedIds);
        ids := ids[..index] + ids[index+1..];
        outdatedIds := outdatedIds + [id];
      }
    }

    // Moves the given ids, one after the other, from the live list to the outdated list.
    method MarkOutdated(syncResponseIds: seq<nat>)
      requires Valid()
      modifies this`ids, this`outdatedIds
      ensures Valid() && State() == old(State()).MarkedOutdated(syncResponseIds)
    {
      for i := 0 to |syncResponseIds|
        invariant Valid() && State() == old(State()).MarkedOutdated(syncResponseIds[..i])
      {
        assert syncResponseIds[..i+1][..i] == syncResponseIds[..i];
        MarkOneOutdated(syncResponseIds[i]);
      }
      assert syncResponseIds[..|syncResponseIds|] == syncResponseIds;
    }

    method DeleteSyncResponses(gone: seq<nat>)
      requires Valid()
      modifies this`files, this`ids, this`outdatedIds
      ensures Valid() && State() == old(State()).Deleted(gone)
    {
      files := map id | id in files && id !in gone :: files[id];
      DeletedValid(State().(files := old(files)), gone);
      ids := Keep(ids, (id: nat) => id !in gone);
      outdatedIds := Keep(outdatedIds, (id: nat) => id !in gone);
    }
  }

  lemma InsertedNoDup(a: seq<nat>, x: nat, b: seq<nat>)
    requires NoDup(a + b) && x !in a + b
    ensures NoDup((a + [x]) + b)
  {
    var s, t := a + b, (a + [x]) + b;
    forall i, j | 0 <= i < j < |t| ensures t[i] != t[j] {
      assert i < |a| ==> t[i] == s[i];
      assert i > |a| ==> t[i] == s[i-1];
      assert j < |a| ==> t[j] == s[j];
      assert j > |a| ==> t[j] == s[j-1];
    }
  }

  lemma MovedNoDup(a: seq<nat>, i: nat, b: seq<nat>)
    requires i < |a| && NoDup(a + b)
    ensures NoDup((a[..i] + a[i+1..]) + (b + [a[i]]))
    ensures forall x :: x in (a[..i] + a[i+1..]) + (b + [a[i]]) ==> x in a + b
  {
    var s, t := a + b, (a[..i] + a[i+1..]) + (b + [a[i]]);
    forall j | 0 <= j < |t| ensures t[j] == s[if j < i then j else if j < |s| - 1 then j + 1 else i] {
    }
  }

  lemma DeletedValid(cache: Cache, gone: seq<nat>)
    requires cache.Valid()
    ensures cache.Deleted(gone).Valid()
  {
    var p := (id: nat) => id !in gone;
    KeepNoDup(cache.ids + cache.outdated, p);
    KeepDistributes(cache.ids, cache.outdated, p);
  }

  // ---------- The manager ----------

  class StoreManager {
    const syncResponseStore: FileStore
    const jsonSize: Cached -> nat
    var syncResponseCacheSizeLimit: nat

    constructor (store: FileStore, jsonSize: Cached -> nat)
      ensures syncResponseStore == store && this.jsonSize == jsonSize
      ensures syncResponseCacheSizeLimit == 512 * 1024
    {
      syncResponseStore := store;
      this.jsonSize := jsonSize;
      syncResponseCacheSizeLimit := 512 * 1024;
    }

    predicate Fits()
      reads this, syncResponseStore
    {
      var s := syncResponseStore;
      s.ids != [] && s.ids[|s.ids|-1] in s.files && jsonSize(s.files[s.ids[|s.ids|-1]]) < syncResponseCacheSizeLimit
    }

    method MarkDataOutdated()
      requires syncResponseStore.Valid()
      modifies syncResponseStore
      ensures syncResponseStore.Valid()
      ensures syncResponseStore.State() == old(syncResponseStore.State()).AllOutdated()
    {
      var syncResponseIds := syncResponseStore.ids;
      if |syncResponseIds| == 0 {
        assert syncResponseStore.outdatedIds + syncResponseIds == syncResponseStore.outdatedIds;
        return;
      }
      MarkWholeList(syncResponseStore.State(), |syncResponseIds|);
      assert syncResponseIds[..|syncResponseIds|] == syncResponseIds;
      syncResponseStore.MarkOutdated(syncResponseIds);
    }

    method UpdateStore(newSyncResponse: SyncResponse, syncToken: Token)
      requires syncResponseStore.Valid()
      modifies syncResponseStore
      ensures syncResponseStore.Valid()
      ensures syncResponseStore.State() ==
              old(syncResponseStore.State()).Updated(newSyncResponse, syncToken, old(Fits()))
      ensures old(Fits()) <==>
              var s := old(syncResponseStore.State());
              && s.ids != [] && s.ids[|s.ids|-1] in s.files
              && jsonSize(s.files[s.ids[|s.ids|-1]]) < syncResponseCacheSizeLimit
    {
      var s := syncResponseStore;
      if s.ids != [] {
        var id := s.ids[|s.ids|-1];
        assert id in s.ids + s.outdatedIds;
        var cached := s.files[id];
        if jsonSize(cached) < syncResponseCacheSizeLimit {
          var updated := MergeResponses(newSyncResponse, cached.response);
          s.UpdateSyncResponse(id, Cached(cached.syncToken, updated));
        } else {
          var _ := s.AddSyncResponse(Cached(syncToken, newSyncResponse));
        }
      } else {
        var _ := s.AddSyncResponse(Cached(syncToken, newSyncResponse));
      }
    }

    method FindEvent(eventId: string, roomId: string) returns (r: Option<Event>)
      requires syncResponseStore.Valid()
      ensures r == syncResponseStore.State().Event(eventId, roomId)
      ensures r.Some? ==> r.value.id == eventId && exists i :: NewestAt(syncResponseStore.State(), roomId, r.value, i)
      ensures r.None? ==>
                forall i, x | 0 <= i < |syncResponseStore.ids| &&
                  ChunkHolds(syncResponseStore.State(), syncResponseStore.ids[i], roomId, x) :: x.id != eventId
    {
      EventIsNewest(syncResponseStore.State(), eventId, roomId);
      var s := syncResponseStore;
      var i := |s.ids|;
      assert s.ids[..i] == s.ids;
      while i > 0
        invariant 0 <= i <= |s.ids|
        invariant s.State().EventIn(s.ids, eventId, roomId) == s.State().EventIn(s.ids[..i], eventId, roomId)
      {
        assert s.ids[..i][..i-1] == s.ids[..i-1];
        i := i - 1;
        assert s.ids[i] in s.ids + s.outdatedIds;
        r := FindIn(PartOf(s.files[s.ids[i]].response, roomId), eventId);
        if r.Some? { return; }
      }
      r := None;
    }

    // Read on a queue of its own, so a chunk may be gone by then.
    method MergedSyncResponse(responseIds: seq<nat>) returns (result: Option<Cached>)
      ensures result == syncResponseStore.State().Merged(responseIds)
    {
      var s := syncResponseStore;
      result := None;
      for i := 0 to |responseIds|
        invariant result == s.State().Merged(responseIds[..i])
      {
        assert responseIds[..i+1][..i] == responseIds[..i];
        if responseIds[i] in s.files {
          var response := s.files[responseIds[i]];
          result := if result.Some?
            then Some(Cached(result.value.syncToken, MergeResponses(response.response, result.value.response)))
            else Some(response);
        }
      }
      assert responseIds[..|responseIds|] == responseIds;
    }
  }
}
