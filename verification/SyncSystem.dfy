/** The background service, the session that consumes its cache, and the server, interleaved in any order. */
module SyncSystem {
  import opened Basics
  import opened SyncMerge
  import opened RoomReplay
  import opened SyncStore
  import opened SyncService

  // Where the session is in handling the background cache.
  datatype SessionPhase =
    | Resting
    | Checked(toMerge: seq<nat>, toDelete: seq<nat>)
    | Loaded(merged: Option<Cached>, toDelete: seq<nat>)
    | Cleaning(toDelete: seq<nat>)
    | Wiping

  // A stretch of the event stream that the session has taken in.
  datatype Span = Span(from: Token, to: Token)

  datatype Sys = Sys(
    service: Service,
    cache: Cache,
    token: Option<Token>,            // the session's
    phase: SessionPhase,
    consumed: seq<Span>,
    rooms: map<string, RoomView>,    // the session's
    inbox: seq<string>,              // to-device events the session has taken in
    retired: set<nat>,               // requests of earlier services
    reported: seq<Outcome>)          // and what they were told

  // One atomic step of the system, with the environment's answers.
  datatype Input =
    | Begin(rid: nat, request: Request, queued: bool, allowSync: bool, keys: Keys)
    | SyncReply(rid: nat, reply: Response<SyncResponse, ServiceError>, fits: bool)
    | CryptoDone(rid: nat, test: Keys, keys: Keys)
    | EventReply(rid: nat, event: Reply, keys: Keys)
    | Dealloc
    | Restart
    | SessionSync(response: SyncResponse)
    | SessionCheck
    | SessionLoad
    | SessionHandle
    | SessionClean
    | SessionWipe

  predicate Enabled(sys: Sys, input: Input) {
    var s := sys.service;
    match input
    case Begin(rid, _, queued, allowSync, _) =>
      // Requests that may sync come through the serial queue.
      s.alive && rid !in s.started && rid !in sys.retired && (allowSync ==> queued) && (queued ==> s.busy.None?)
    case SyncReply(rid, _, _) => rid in s.pending && s.pending[rid].Syncing?
    case CryptoDone(rid, _, _) => rid in s.pending && s.pending[rid].Digesting?
    case EventReply(rid, _, _) => rid in s.pending && s.pending[rid].Fetching?
    case Dealloc => forall rid | rid in s.pending :: !s.pending[rid].Digesting?
    case Restart => true   // the process of the service may end at any time, and another one begin
    case SessionSync(_) => sys.phase.Resting?
    case SessionCheck => sys.phase.Resting? && sys.cache.ids + sys.cache.outdated != []
    case SessionLoad => sys.phase.Checked?
    case SessionHandle => sys.phase.Loaded?
    case SessionClean => sys.phase.Cleaning?
    case SessionWipe => sys.phase.Wiping?
  }

  // The session compares tokens before it trusts the live list.
  function Check(sys: Sys): SessionPhase {
    Checked(if sys.cache.SyncToken().Some? && sys.cache.SyncToken() == sys.token then sys.cache.ids else [],
            sys.cache.outdated + sys.cache.ids)
  }

  function RoomOf(rooms: map<string, RoomView>, roomId: string): Option<RoomView> {
    if roomId in rooms then Some(rooms[roomId]) else None
  }

  function TakeIn(rooms: map<string, RoomView>, r: SyncResponse): map<string, RoomView> {
    map roomId | roomId in rooms.Keys + r.rooms.Keys && Apply(PartOf(r, roomId), RoomOf(rooms, roomId)).Some?
      :: Apply(PartOf(r, roomId), RoomOf(rooms, roomId)).value
  }

  // Handling a response: its to-device events, its rooms, and then the token; the stretch it covers is logged.
  function Consume(sys: Sys, from: Option<Token>, r: SyncResponse): Sys {
    sys.(token := Some(r.nextBatch), rooms := TakeIn(sys.rooms, r), inbox := sys.inbox + r.toDevice,
         consumed := if from.Some? then sys.consumed + [Span(from.value, r.nextBatch)] else sys.consumed)
  }

  // A new service loads the session's token and finds the cache as it is.
  function Fresh(token: Option<Token>): Service {
    Service(token, map[], map[], None, [], {}, {}, true)
  }

  function Step(sys: Sys, input: Input): Sys
    requires Enabled(sys, input)
  {
    match input
    case Begin(rid, request, queued, allowSync, keys) =>
      var (s, c) := AfterBegin(sys.service, sys.cache, rid, request, queued, allowSync, sys.token, keys);
      sys.(service := s, cache := c)
    case SyncReply(rid, reply, fits) =>
      var (s, c) := AfterSyncReply(sys.service, sys.cache, rid, reply, fits);
      sys.(service := s, cache := c)
    case CryptoDone(rid, test, keys) => sys.(service := AfterDigest(sys.service, sys.cache, rid, test, keys))
    case EventReply(rid, event, keys) => sys.(service := AfterEventReply(sys.service, sys.cache, rid, event, keys))
    case Dealloc => sys.(service := sys.service.(alive := false))
    case Restart =>
      sys.(service := Fresh(sys.token), retired := sys.retired + sys.service.started,
           reported := sys.reported + sys.service.outcomes)
    case SessionSync(r) => Consume(sys, sys.token, r)
    case SessionCheck => sys.(phase := Check(sys))
    case SessionLoad => sys.(phase := Loaded(sys.cache.Merged(sys.phase.toMerge), sys.phase.toDelete))
    case SessionHandle =>
      var merged := sys.phase.merged;
      (if merged.None? then sys else Consume(sys, Some(merged.value.syncToken), merged.value.response))
        .(phase := Cleaning(sys.phase.toDelete))
    case SessionClean =>
      var cache := sys.cache.Deleted(sys.phase.toDelete);
      sys.(cache := cache, phase := if cache.ids + cache.outdated == [] then Wiping else Resting)
    case SessionWipe => sys.(cache := sys.cache.Deleted(sys.cache.outdated + sys.cache.ids), phase := Resting)
  }

  predicate Runs(sys: Sys, inputs: seq<Input>)
    decreases |inputs|
  {
    inputs == [] || (Enabled(sys, inputs[0]) && Runs(Step(sys, inputs[0]), inputs[1..]))
  }

  function Run(sys: Sys, inputs: seq<Input>): Sys
    requires Runs(sys, inputs)
    decreases |inputs|
  {
    if inputs == [] then sys else Run(Step(sys, inputs[0]), inputs[1..])
  }

  function Initial(token: Option<Token>, rooms: map<string, RoomView>): Sys {
    Sys(Fresh(token), EMPTY, token, Resting, [], rooms, [], {}, [])
  }

  // ---------- Exactly once, readable ----------

  lemma FreshAccounted(token: Option<Token>)
    ensures Accounted(Fresh(token)) && Completed(Fresh(token)) == {}
  {
  }

  // Requests are never shared between services; what earlier ones reported is settled.
  ghost predicate Settled(sys: Sys) {
    && Accounted(sys.service)
    && sys.service.started !! sys.retired
    && (forall o | o in sys.reported :: o.rid in sys.retired)
    && OncePerRequest(sys.reported)
    && AllReadable(sys.reported)
  }

  lemma StepAccounted(sys: Sys, input: Input)
    requires Accounted(sys.service) && Enabled(sys, input)
    ensures Accounted(Step(sys, input).service)
  {
    var s := sys.service;
    match input
    case Begin(rid, request, queued, allowSync, keys) =>
      BeginAccounted(s, sys.cache, rid, request, queued, allowSync, sys.token, keys);
    case SyncReply(rid, reply, fits) => SyncReplyAccounted(s, sys.cache, rid, reply, fits);
    case CryptoDone(rid, test, keys) => DigestAccounted(s, sys.cache, rid, test, keys);
    case EventReply(rid, event, keys) => EventReplyAccounted(s, sys.cache, rid, event, keys);
    case Dealloc => assert Completed(s.(alive := false)) == Completed(s);
    case Restart => FreshAccounted(sys.token);
    case _ =>
  }

  lemma RestartSettled(sys: Sys)
    requires Settled(sys)
    ensures Settled(Step(sys, Restart))
  {
    var s := sys.service;
    FreshAccounted(sys.token);
    forall o | o in s.outcomes ensures o.rid in s.started { assert o.rid in Completed(s); }
    var all, n := sys.reported + s.outcomes, |sys.reported|;
    forall i, j | 0 <= i < j < |all| ensures all[i].rid != all[j].rid {
      if i < n { assert all[i] in sys.reported; }
      if j >= n { assert all[j] in s.outcomes; }
    }
  }

  lemma StepSettled(sys: Sys, input: Input)
    requires Settled(sys) && Enabled(sys, input)
    ensures Settled(Step(sys, input))
  {
    StepAccounted(sys, input);
    match input
    case Restart => RestartSettled(sys);
    case Begin(_, _, _, _, _) => BeginServesOne(sys, input);
    case CryptoDone(_, _, _) => CallbackServesOne(sys, input);
    case EventReply(_, _, _) => CallbackServesOne(sys, input);
    case _ =>
  }

  lemma {:induction false} RunSettled(sys: Sys, inputs: seq<Input>)
    requires Settled(sys) && Runs(sys, inputs)
    ensures Settled(Run(sys, inputs))
    decreases |inputs|
  {
    if inputs != [] {
      StepSettled(sys, inputs[0]);
      RunSettled(Step(sys, inputs[0]), inputs[1..]);
    }
  }

  // For every run, over any number of services: no completion is called twice, every success is readable, and a
  // request that the living service no longer waits for has been completed.
  lemma EveryRunCompletesOnce(token: Option<Token>, rooms: map<string, RoomView>, inputs: seq<Input>)
    requires Runs(Initial(token, rooms), inputs)
    ensures
      var sys := Run(Initial(token, rooms), inputs);
      var s := sys.service;
      && OncePerRequest(sys.reported + s.outcomes)
      && AllReadable(sys.reported + s.outcomes)
      && Completed(s) <= s.started
      && (s.alive ==> s.started == s.pending.Keys + Completed(s) && s.pending.Keys !! Completed(s))
  {
    FreshAccounted(token);
    RunSettled(Initial(token, rooms), inputs);
    RestartSettled(Run(Initial(token, rooms), inputs));
  }

  // ---------- No gap in what the session consumes ----------

  ghost predicate Chained(spans: seq<Span>) {
    forall i | 0 <= i < |spans| - 1 :: spans[i].to == spans[i+1].from
  }

  ghost predicate ChunksIn(cache: Cache, chunkIds: seq<nat>) {
    forall id | id in chunkIds :: id in cache.ids || id in cache.outdated
  }

  // The cache is well formed, and its live list is one contiguous chain.
  ghost predicate CacheInv(cache: Cache) { cache.Valid() && Contiguous(cache, cache.ids) }

  // A snapshot stays readable and contiguous from the session's token: the live list still begins with it,
  // or none of its chunks is live any more.
  ghost predicate Snapshot(cache: Cache, token: Option<Token>, chunkIds: seq<nat>) {
    && Contiguous(cache, chunkIds)
    && ChunksIn(cache, chunkIds)
    && (chunkIds != [] ==> Some(cache.files[chunkIds[0]].syncToken) == token)
    && (chunkIds <= cache.ids || (forall id | id in chunkIds :: id !in cache.ids))
  }

  // Deleting these ids removes a prefix of the live list; chunks to come are not among them.
  ghost predicate PrefixDeleted(cache: Cache, gone: seq<nat>) {
    && (forall i, j | 0 <= i <= j < |cache.ids| && cache.ids[j] in gone :: cache.ids[i] in gone)
    && (forall id | id in gone :: id < cache.nextId)
  }

  ghost predicate PhaseInv(cache: Cache, token: Option<Token>, phase: SessionPhase) {
    match phase
    case Checked(toMerge, toDelete) => Snapshot(cache, token, toMerge) && PrefixDeleted(cache, toDelete)
    case Loaded(merged, toDelete) =>
      (merged.Some? ==> Some(merged.value.syncToken) == token) && PrefixDeleted(cache, toDelete)
    case Cleaning(toDelete) => PrefixDeleted(cache, toDelete)
    case _ => true
  }

  // A request that syncs holds the queue, and syncs from where the live chain ends.
  ghost predicate ServiceInv(s: Service, cache: Cache) {
    && (forall rid | rid in s.pending && !s.pending[rid].Fetching? :: s.busy == Some(rid))
    && (forall rid | rid in s.pending && s.pending[rid].Syncing? && cache.ids != [] ::
          cache.NextSyncToken() == Some(s.pending[rid].from))
  }

  ghost predicate LogInv(consumed: seq<Span>, token: Option<Token>) {
    && Chained(consumed)
    && (consumed != [] ==> token == Some(consumed[|consumed|-1].to))
  }

  ghost predicate GapFree(sys: Sys) {
    && CacheInv(sys.cache)
    && PhaseInv(sys.cache, sys.token, sys.phase)
    && ServiceInv(sys.service, sys.cache)
    && LogInv(sys.consumed, sys.token)
  }

  // Serving a request touches no other request, and a new /sync starts at the stream token.
  ghost predicate ServedOne(s: Service, t: Service, cache: Cache, rid: nat, maySync: bool) {
    && (forall r :: r != rid ==> (r in t.pending <==> r in s.pending))
    && (forall r | r in t.pending && r != rid :: t.pending[r] == s.pending[r])
    && t.storeToken == s.storeToken && t.alive == s.alive && t.started == s.started
    && (t.busy == s.busy || (s.busy == Some(rid) && t.busy.None? && rid !in t.pending))
    && (t.alive && rid !in t.pending ==> t.busy != Some(rid))
    && (rid in t.pending ==>
          || t.pending[rid].Fetching?
          || (maySync && t.pending[rid].Syncing? && Some(t.pending[rid].from) == StreamToken(s, cache)))
  }

  lemma CompleteServesOne(s: Service, cache: Cache, rid: nat, reply: Reply, maySync: bool)
    ensures ServedOne(s, Complete(s, rid, reply), cache, rid, maySync)
  {
  }

  lemma LaunchServesOne(s: Service, cache: Cache, rid: nat, request: Request)
    ensures ServedOne(s, Launch(s, cache, rid, request), cache, rid, true)
  {
  }

  lemma EncryptionServesOne(s: Service, cache: Cache, rid: nat, request: Request, allowSync: bool, event: Event,
                            keys: Keys)
    ensures ServedOne(s, AfterEncryption(s, cache, rid, request, allowSync, event, keys), cache, rid, allowSync)
  {
    if Readable(event) {
      CompleteServesOne(s, cache, rid, Success(event), allowSync);
    } else if keys.canDecrypt && keys.decrypts {
      var clear := event.(decrypted := true);
      var s' := s.(cachedEvents := s.cachedEvents[request.eventId := clear]);
      CompleteServesOne(s', cache, rid, Success(clear), allowSync);
    } else if allowSync {
      LaunchServesOne(s, cache, rid, request);
    } else {
      CompleteServesOne(s, cache, rid, Failure(if keys.canDecrypt then CryptoFailure else DecryptionFailure), false);
    }
  }

  lemma LookupServesOne(s: Service, cache: Cache, rid: nat, request: Request, allowSync: bool, keys: Keys)
    ensures ServedOne(s, AfterLookup(s, cache, rid, request, allowSync, keys), cache, rid, allowSync)
  {
    var event := cache.Event(request.eventId, request.roomId);
    if request.eventId in s.cachedEvents {
      EncryptionServesOne(s, cache, rid, request, allowSync, s.cachedEvents[request.eventId], keys);
    } else if event.Some? {
      var s' := s.(cachedEvents := s.cachedEvents[request.eventId := event.value]);
      EncryptionServesOne(s', cache, rid, request, allowSync, event.value, keys);
    } else if allowSync {
      LaunchServesOne(s, cache, rid, request);
    }
  }

  lemma {:induction false} KeptSuffix(ids: seq<nat>, gone: seq<nat>) returns (k: nat)
    requires forall i, j | 0 <= i <= j < |ids| && ids[j] in gone :: ids[i] in gone
    ensures k <= |ids| && Keep(ids, (id: nat) => id !in gone) == ids[k..]
  {
    if ids == [] || ids[0] !in gone {
      k := 0;
      KeepAll(ids, (id: nat) => id !in gone);
    } else {
      var rest := KeptSuffix(ids[1..], gone);
      k := rest + 1;
    }
  }

  // Serving a request keeps the service in line with the cache.
  lemma ServedInv(s: Service, t: Service, cache: Cache, rid: nat, maySync: bool)
    requires ServedOne(s, t, cache, rid, maySync)
    requires forall r | r in s.pending && r != rid && !s.pending[r].Fetching? :: s.busy == Some(r)
    requires forall r | r in s.pending && r != rid && s.pending[r].Syncing? && cache.ids != [] ::
      cache.NextSyncToken() == Some(s.pending[r].from)
    requires maySync ==> s.busy == Some(rid)
    requires CacheInv(cache)
    ensures ServiceInv(t, cache)
  {
  }

  lemma UpdatedChain(cache: Cache, r: SyncResponse, from: Token, fits: bool)
    requires CacheInv(cache)
    requires cache.ids != [] ==> cache.NextSyncToken() == Some(from)
    ensures CacheInv(cache.Updated(r, from, fits))
    ensures cache.Updated(r, from, fits).NextSyncToken() == Some(r.nextBatch)
    ensures cache.Updated(r, from, fits).SyncToken() == if cache.ids == [] then Some(from) else cache.SyncToken()
  {
    if cache.ids != [] && fits {
      LastIsOnce(cache);
    } else {
      InsertedNoDup(cache.ids, cache.nextId, cache.outdated);
    }
  }

  // A snapshot holding the last live chunk is the whole live list, and may only grow at its end.
  lemma UpdatedSnapshot(cache: Cache, token: Option<Token>, chunkIds: seq<nat>, r: SyncResponse, from: Token,
                        fits: bool)
    requires CacheInv(cache) && Snapshot(cache, token, chunkIds)
    ensures Snapshot(cache.Updated(r, from, fits), token, chunkIds)
  {
    if cache.ids != [] && fits {
      LastIsOnce(cache);
      var last := cache.ids[|cache.ids|-1];
      if last in chunkIds {
        var i :| 0 <= i < |chunkIds| && chunkIds[i] == last;
        assert chunkIds == cache.ids;
      }
    } else {
      assert cache.nextId !in cache.files;
    }
  }

  lemma UpdatedPhase(cache: Cache, token: Option<Token>, phase: SessionPhase, r: SyncResponse, from: Token, fits: bool)
    requires CacheInv(cache) && PhaseInv(cache, token, phase)
    ensures PhaseInv(cache.Updated(r, from, fits), token, phase)
  {
    if phase.Checked? { UpdatedSnapshot(cache, token, phase.toMerge, r, from, fits); }
  }

  lemma OutdatedInv(cache: Cache, token: Option<Token>, phase: SessionPhase)
    requires CacheInv(cache) && PhaseInv(cache, token, phase)
    ensures CacheInv(cache.AllOutdated()) && PhaseInv(cache.AllOutdated(), token, phase)
  {
    SwapNoDup(cache.ids, cache.outdated);
    assert [] + (cache.outdated + cache.ids) == cache.outdated + cache.ids;
  }

  lemma SwapNoDup(a: seq<nat>, b: seq<nat>)
    requires NoDup(a + b)
    ensures NoDup(b + a)
  {
    forall i, j | 0 <= i < j < |b + a| ensures (b + a)[i] != (b + a)[j] {
      var i' := if i < |b| then i + |a| else i - |b|;
      var j' := if j < |b| then j + |a| else j - |b|;
      assert (a + b)[i'] == (b + a)[i] && (a + b)[j'] == (b + a)[j];
    }
  }

  lemma DeletedInv(cache: Cache, gone: seq<nat>)
    requires CacheInv(cache)
    requires forall i, j | 0 <= i <= j < |cache.ids| && cache.ids[j] in gone :: cache.ids[i] in gone
    ensures CacheInv(cache.Deleted(gone))
    ensures cache.Deleted(gone).ids != [] ==> cache.Deleted(gone).NextSyncToken() == cache.NextSyncToken()
  {
    DeletedValid(cache, gone);
    var k := KeptSuffix(cache.ids, gone);
  }

  lemma BeginGapFree(sys: Sys, input: Input)
    requires GapFree(sys) && input.Begin? && Enabled(sys, input)
    ensures GapFree(Step(sys, input))
  {
    var Begin(rid, request, queued, allowSync, keys) := input;
    var s, cache := sys.service, sys.cache;
    var cache' := if allowSync then Refreshed(s, cache, sys.token) else cache;
    var s' := s.(started := s.started + {rid},
                 busy := if queued then Some(rid) else s.busy,
                 storeToken := if allowSync then sys.token else s.storeToken);
    OutdatedInv(cache, sys.token, sys.phase);
    LookupServesOne(s', cache', rid, request, allowSync, keys);
    ServedInv(s', AfterLookup(s', cache', rid, request, allowSync, keys), cache', rid, allowSync);
  }

  lemma SyncReplyGapFree(sys: Sys, input: Input)
    requires GapFree(sys) && input.SyncReply? && Enabled(sys, input)
    ensures GapFree(Step(sys, input))
  {
    if input.reply.Success? && sys.service.alive {
      var from := sys.service.pending[input.rid].from;
      UpdatedChain(sys.cache, input.reply.value, from, input.fits);
      UpdatedPhase(sys.cache, sys.token, sys.phase, input.reply.value, from, input.fits);
    }
  }

  lemma CheckedSnapshot(cache: Cache, token: Option<Token>)
    requires CacheInv(cache)
    ensures PrefixDeleted(cache, cache.outdated + cache.ids)
    ensures cache.SyncToken() == token && cache.ids != [] ==> Snapshot(cache, token, cache.ids)
    ensures Snapshot(cache, token, [])
  {
    assert forall id | id in cache.outdated + cache.ids :: id in cache.ids + cache.outdated;
  }

  lemma SessionGapFree(sys: Sys, input: Input)
    requires GapFree(sys) && Enabled(sys, input)
    requires input.SessionSync? || input.SessionCheck? || input.SessionLoad? || input.SessionHandle?
    ensures GapFree(Step(sys, input))
  {
    match input
    case SessionCheck => CheckedSnapshot(sys.cache, sys.token);
    case SessionLoad => if sys.phase.toMerge != [] { MergedSpans(sys.cache, sys.phase.toMerge); }
    case _ =>
  }

  lemma CleanGapFree(sys: Sys, input: Input)
    requires GapFree(sys) && Enabled(sys, input) && (input.SessionClean? || input.SessionWipe?)
    ensures GapFree(Step(sys, input))
  {
    DeletedInv(sys.cache, if input.SessionClean? then sys.phase.toDelete else sys.cache.outdated + sys.cache.ids);
  }

  // What the service does on a callback that leaves the cache alone.
  lemma CallbackServesOne(sys: Sys, input: Input)
    requires Enabled(sys, input) && (input.CryptoDone? || input.EventReply?)
    ensures Step(sys, input) == sys.(service := Step(sys, input).service)
    ensures ServedOne(sys.service, Step(sys, input).service, sys.cache, input.rid, input.CryptoDone?)
  {
    var s := sys.service;
    var request := s.pending[input.rid].request;
    if input.CryptoDone? {
      LookupServesOne(s, sys.cache, input.rid, request, false, input.keys);
      LaunchServesOne(s, sys.cache, input.rid, request);
    } else if s.alive && input.event.Success? {
      var s' := s.(cachedEvents := s.cachedEvents[request.eventId := input.event.value]);
      EncryptionServesOne(s', sys.cache, input.rid, request, false, input.event.value, input.keys);
    }
  }

  lemma StepGapFree(sys: Sys, input: Input)
    requires GapFree(sys) && Enabled(sys, input)
    ensures GapFree(Step(sys, input))
  {
    match input
    case Begin(_, _, _, _, _) => BeginGapFree(sys, input);
    case SyncReply(_, _, _) => SyncReplyGapFree(sys, input);
    case CryptoDone(rid, _, _) =>
      CallbackServesOne(sys, input);
      ServedInv(sys.service, Step(sys, input).service, sys.cache, rid, true);
    case EventReply(rid, _, _) =>
      CallbackServesOne(sys, input);
      ServedInv(sys.service, Step(sys, input).service, sys.cache, rid, false);
    case Dealloc =>
    case Restart =>
    case SessionClean => CleanGapFree(sys, input);
    case SessionWipe => CleanGapFree(sys, input);
    case _ => SessionGapFree(sys, input);
  }

  lemma {:induction false} RunGapFree(sys: Sys, inputs: seq<Input>)
    requires GapFree(sys) && Runs(sys, inputs)
    ensures GapFree(Run(sys, inputs))
    decreases |inputs|
  {
    if inputs != [] {
      StepGapFree(sys, inputs[0]);
      RunGapFree(Step(sys, inputs[0]), inputs[1..]);
    }
  }

  lemma {:induction false} ConsumedGrows(sys: Sys, inputs: seq<Input>)
    requires Runs(sys, inputs)
    ensures sys.consumed <= Run(sys, inputs).consumed
    decreases |inputs|
  {
    if inputs != [] {
      ConsumedGrows(Step(sys, inputs[0]), inputs[1..]);
    }
  }

  // For every interleaving of the service, the session and the server: the stretches the session takes in
  // join end to end and end at its token, the live chunks form one chain, and a /sync in flight starts at its end.
  lemma NoGapInAnyRun(token: Option<Token>, rooms: map<string, RoomView>, inputs: seq<Input>)
    requires Runs(Initial(token, rooms), inputs)
    ensures
      var sys := Run(Initial(token, rooms), inputs);
      && Chained(sys.consumed)
      && (sys.consumed != [] ==> sys.token == Some(sys.consumed[|sys.consumed|-1].to))
      && Contiguous(sys.cache, sys.cache.ids)
      && (forall rid | rid in sys.service.pending && sys.service.pending[rid].Syncing? && sys.cache.ids != [] ::
            sys.cache.NextSyncToken() == Some(sys.service.pending[rid].from))
  {
    RunGapFree(Initial(token, rooms), inputs);
  }

  // ---------- The queue is never stuck ----------

  // The request that holds the queue is still waiting for something, as long as the service lives.
  ghost predicate QueueInUse(s: Service) { s.alive && s.busy.Some? ==> s.busy.value in s.pending }

  lemma StepQueue(sys: Sys, input: Input)
    requires QueueInUse(sys.service) && Enabled(sys, input)
    ensures QueueInUse(Step(sys, input).service)
  {
    var s, cache := sys.service, sys.cache;
    match input
    case Begin(rid, request, queued, allowSync, keys) =>
      var s' := s.(started := s.started + {rid},
                   busy := if queued then Some(rid) else s.busy,
                   storeToken := if allowSync then sys.token else s.storeToken);
      LookupServesOne(s', if allowSync then Refreshed(s, cache, sys.token) else cache, rid, request, allowSync, keys);
    case CryptoDone(_, _, _) => CallbackServesOne(sys, input);
    case EventReply(_, _, _) => CallbackServesOne(sys, input);
    case _ =>
  }

  // For every run: each completion gives the queue back.
  lemma {:induction false} QueueIsNeverStuck(sys: Sys, inputs: seq<Input>)
    requires QueueInUse(sys.service) && Runs(sys, inputs)
    ensures QueueInUse(Run(sys, inputs).service)
    decreases |inputs|
  {
    if inputs != [] {
      StepQueue(sys, inputs[0]);
      QueueIsNeverStuck(Step(sys, inputs[0]), inputs[1..]);
    }
  }

  // ---------- No message stored twice ----------

  ghost predicate StoredOnce(rooms: map<string, RoomView>) {
    forall roomId | roomId in rooms :: DistinctIds(rooms[roomId].timeline)
  }

  lemma TakenInOnce(rooms: map<string, RoomView>, r: SyncResponse)
    requires StoredOnce(rooms)
    ensures StoredOnce(TakeIn(rooms, r))
  {
    forall roomId | roomId in TakeIn(rooms, r) ensures DistinctIds(TakeIn(rooms, r)[roomId].timeline) {
      ApplyStoresOnce(PartOf(r, roomId), RoomOf(rooms, roomId));
    }
  }

  // For every run, whatever the server sends again and however much cached responses overlap what the session has:
  // no room stores two messages of one id.
  lemma {:induction false} EveryRunStoresOnce(sys: Sys, inputs: seq<Input>)
    requires Runs(sys, inputs) && StoredOnce(sys.rooms)
    ensures StoredOnce(Run(sys, inputs).rooms)
    decreases |inputs|
  {
    if inputs != [] {
      match inputs[0] {
        case SessionSync(r) => TakenInOnce(sys.rooms, r);
        case SessionHandle =>
          if sys.phase.merged.Some? { TakenInOnce(sys.rooms, sys.phase.merged.value.response); }
        case _ =>
      }
      EveryRunStoresOnce(Step(sys, inputs[0]), inputs[1..]);
    }
  }

  // ---------- Anchoring: the session moves between requests only ----------

  predicate IsSessionStep(input: Input) {
    || input.SessionSync? || input.SessionCheck? || input.SessionLoad? || input.SessionHandle?
    || input.SessionClean? || input.SessionWipe?
  }

  // The session leaves the service alone while a queued request is running.
  predicate SessionBetweenRequests(sys: Sys, inputs: seq<Input>)
    requires Runs(sys, inputs)
    decreases |inputs|
  {
    inputs != [] ==>
      && (IsSessionStep(inputs[0]) ==> sys.service.busy.None?)
      && SessionBetweenRequests(Step(sys, inputs[0]), inputs[1..])
  }

  // The /sync from this token skips nothing: it starts at the session's token, or at the end of a contiguous
  // chain of cached responses that begins there.
  ghost predicate SyncsFromSession(sys: Sys, from: Token) {
    if sys.cache.ids == [] then sys.token == Some(from)
    else
      && Contiguous(sys.cache, sys.cache.ids)
      && sys.cache.SyncToken() == sys.token && sys.cache.NextSyncToken() == Some(from)
  }

  ghost predicate Anchored(sys: Sys) {
    forall rid | rid in sys.service.pending && !sys.service.pending[rid].Fetching? ::
      && sys.service.storeToken == sys.token
      && (sys.cache.ids != [] ==> sys.cache.SyncToken() == sys.token)
      && (sys.service.pending[rid].Syncing? ==> SyncsFromSession(sys, sys.service.pending[rid].from))
  }

  lemma StepAnchored(sys: Sys, input: Input)
    requires GapFree(sys) && Anchored(sys) && Enabled(sys, input)
    requires IsSessionStep(input) ==> sys.service.busy.None?
    ensures Anchored(Step(sys, input))
  {
    var s, cache := sys.service, sys.cache;
    StepGapFree(sys, input);
    match input
    case Begin(rid, request, queued, allowSync, keys) =>
      var cache' := if allowSync then Refreshed(s, cache, sys.token) else cache;
      var s' := s.(started := s.started + {rid},
                   busy := if queued then Some(rid) else s.busy,
                   storeToken := if allowSync then sys.token else s.storeToken);
      LookupServesOne(s', cache', rid, request, allowSync, keys);
    case SyncReply(rid, reply, fits) =>
      if reply.Success? && s.alive { UpdatedChain(cache, reply.value, s.pending[rid].from, fits); }
    case CryptoDone(_, _, _) => CallbackServesOne(sys, input);
    case EventReply(_, _, _) => CallbackServesOne(sys, input);
    case _ =>
  }

  // In every run where the session moves between requests, every /sync in flight skips no stretch of the stream.
  lemma {:induction false} EverySyncAnchored(sys: Sys, inputs: seq<Input>)
    requires GapFree(sys) && Anchored(sys) && Runs(sys, inputs) && SessionBetweenRequests(sys, inputs)
    ensures Anchored(Run(sys, inputs))
    decreases |inputs|
  {
    if inputs != [] {
      StepAnchored(sys, inputs[0]);
      StepGapFree(sys, inputs[0]);
      EverySyncAnchored(Step(sys, inputs[0]), inputs[1..]);
    }
  }

  lemma SyncsSkipNothing(token: Option<Token>, rooms: map<string, RoomView>, inputs: seq<Input>, rid: nat)
    requires Runs(Initial(token, rooms), inputs) && SessionBetweenRequests(Initial(token, rooms), inputs)
    ensures
      var sys := Run(Initial(token, rooms), inputs);
      rid in sys.service.pending && sys.service.pending[rid].Syncing? ==>
        SyncsFromSession(sys, sys.service.pending[rid].from)
  {
    EverySyncAnchored(Initial(token, rooms), inputs);
  }

  // The supposition is needed: a session that syncs during a request leaves its /sync behind. What that /sync
  // brings is then outdated rather than consumed, so the session still skips nothing.
  lemma SessionMayOvertake(request: Request, keys: Keys)
    ensures
      var start := Initial(Some(0), map[]);
      var inputs := [Begin(0, request, true, true, keys), SessionSync(SyncResponse(5, [], map[]))];
      && Runs(start, inputs)
      && var sys := Run(start, inputs);
      && 0 in sys.service.pending && sys.service.pending[0].Syncing?
      && !SyncsFromSession(sys, sys.service.pending[0].from)
  {
    var start, begin := Initial(Some(0), map[]), Begin(0, request, true, true, keys);
    var sync := SessionSync(SyncResponse(5, [], map[]));
    var inputs := [begin, sync];
    assert inputs[1..] == [sync] && [sync][1..] == [];
    var next := Step(start, begin);
    assert next.service.pending[0] == Syncing(request, 0);
    assert Runs(Step(next, sync), []) && Runs(next, [sync]);
    assert Run(start, inputs) == Run(next, [sync]) == Step(next, sync);
  }

  // A request leaves the live chunks alone exactly when it may not sync, or there are none, or both the store the
  // service has loaded and the first chunk are at the session's token; otherwise it outdates them all.
  lemma BeginKeepsCacheIff(sys: Sys, begin: Input)
    requires begin.Begin? && Enabled(sys, begin) && sys.cache.Valid()
    ensures
      var cache, after := sys.cache, Step(sys, begin).cache;
      && (after == cache <==>
            || !begin.allowSync || cache.ids == []
            || (sys.service.storeToken == sys.token && Some(cache.files[cache.ids[0]].syncToken) == sys.token))
      && (after != cache ==> after == cache.(ids := [], outdated := cache.outdated + cache.ids))
      && (begin.allowSync ==> Step(sys, begin).service.storeToken == sys.token)
  {
    BeginServesOne(sys, begin);
    if sys.cache.ids != [] { assert sys.cache.ids[0] in sys.cache.ids + sys.cache.outdated; }
  }

  // A new service goes on with the chunks it finds exactly when they begin at the session's token.
  lemma RestartUsesCache(sys: Sys, begin: Input)
    requires begin.Begin? && begin.allowSync && Enabled(Step(sys, Restart), begin)
    requires sys.cache.Valid() && sys.cache.ids != []
    ensures Step(Step(sys, Restart), begin).cache == sys.cache <==>
            Some(sys.cache.files[sys.cache.ids[0]].syncToken) == sys.token
  {
    BeginKeepsCacheIff(Step(sys, Restart), begin);
  }

  // ---------- Hunting for keys terminates ----------

  // The server's stream: true marks a to-device event. A token is a position in it.
  function Backlog(stream: seq<bool>): nat {
    if stream == [] then 0 else (if stream[0] then 1 else 0) + Backlog(stream[1..])
  }

  function BacklogFrom(stream: seq<bool>, from: Token): nat {
    if from <= |stream| then Backlog(stream[from..]) else 0
  }

  // A reply to a /sync from a token acknowledges everything before it and delivers what follows, up to its next token.
  predicate Serves(stream: seq<bool>, from: Token, r: SyncResponse) {
    from <= r.nextBatch <= |stream| && |r.toDevice| == Backlog(stream[from..r.nextBatch])
  }

  predicate Served(sys: Sys, inputs: seq<Input>, stream: seq<bool>)
    requires Runs(sys, inputs)
    decreases |inputs|
  {
    inputs != [] ==>
      && (inputs[0].SyncReply? && inputs[0].reply.Success? ==>
            Serves(stream, sys.service.pending[inputs[0].rid].from, inputs[0].reply.value))
      && Served(Step(sys, inputs[0]), inputs[1..], stream)
  }

  // Replies to the /sync requests of one request.
  function SyncsOf(inputs: seq<Input>, rid: nat): nat {
    if inputs == [] then 0 else (if IsSyncOf(inputs[0], rid) then 1 else 0) + SyncsOf(inputs[1..], rid)
  }

  // One pass over the stream for each time the session clears the cache.
  function Allowance(inputs: seq<Input>, stream: seq<bool>): nat {
    if inputs == [] then 0
    else (if TouchesCache(inputs[0]) then 1 + Backlog(stream) else 0) + Allowance(inputs[1..], stream)
  }

  predicate CacheUntouched(inputs: seq<Input>) { forall i | i in inputs :: !TouchesCache(i) }

  lemma {:induction false} NoAllowance(inputs: seq<Input>, stream: seq<bool>)
    requires CacheUntouched(inputs)
    ensures Allowance(inputs, stream) == 0
  {
    if inputs != [] {
      assert inputs[0] in inputs;
      NoAllowance(inputs[1..], stream);
    }
  }

  // /sync requests the pending request can still make, if nobody touches the cache.
  function SyncsLeft(sys: Sys, rid: nat, stream: seq<bool>): nat {
    var s := sys.service;
    if rid !in s.pending then 0
    else match s.pending[rid]
      case Fetching(_) => 0
      case Syncing(_, from) => 1 + BacklogFrom(stream, from)
      case Digesting(_, toDeviceCount) =>
        if toDeviceCount == 0 || StreamToken(s, sys.cache).None? then 0
        else 1 + BacklogFrom(stream, StreamToken(s, sys.cache).value)
  }

  lemma BacklogSplit(stream: seq<bool>, k: nat)
    requires k <= |stream|
    ensures Backlog(stream) == Backlog(stream[..k]) + Backlog(stream[k..])
  {
    if k > 0 {
      BacklogSplit(stream[1..], k - 1);
      assert stream[..k][1..] == stream[1..][..k-1];
      assert stream[k..] == stream[1..][k-1..];
    }
  }

  lemma BacklogBounded(stream: seq<bool>, from: Token)
    ensures BacklogFrom(stream, from) <= Backlog(stream)
  {
    if from <= |stream| { BacklogSplit(stream, from); }
  }

  lemma ServedBacklog(stream: seq<bool>, from: Token, r: SyncResponse)
    requires Serves(stream, from, r)
    ensures BacklogFrom(stream, from) == |r.toDevice| + BacklogFrom(stream, r.nextBatch)
  {
    BacklogSplit(stream[from..], r.nextBatch - from);
    assert stream[from..][..r.nextBatch - from] == stream[from..r.nextBatch];
    assert stream[from..][r.nextBatch - from..] == stream[r.nextBatch..];
  }

  predicate IsSyncOf(input: Input, rid: nat) { input.SyncReply? && input.rid == rid }

  predicate TouchesCache(input: Input) { input.SessionClean? || input.SessionWipe? }

  // A request that begins leaves the others alone; one that has begun may sync from where the stream token is.
  lemma BeginServesOne(sys: Sys, input: Input)
    requires input.Begin? && Enabled(sys, input)
    ensures
      var t := Step(sys, input).service;
      && t.started == sys.service.started + {input.rid}
      && (forall r :: r != input.rid ==> (r in t.pending <==> r in sys.service.pending))
      && (forall r | r in t.pending && r != input.rid :: t.pending[r] == sys.service.pending[r])
      && (!input.allowSync ==> Step(sys, input).cache == sys.cache && t.storeToken == sys.service.storeToken)
      && (input.rid in t.pending && input.rid !in sys.service.pending ==> !t.pending[input.rid].Digesting?)
  {
    var Begin(rid, request, queued, allowSync, keys) := input;
    var s, cache := sys.service, sys.cache;
    var cache' := if allowSync then Refreshed(s, cache, sys.token) else cache;
    var s' := s.(started := s.started + {rid},
                 busy := if queued then Some(rid) else s.busy,
                 storeToken := if allowSync then sys.token else s.storeToken);
    LookupServesOne(s', cache', rid, request, allowSync, keys);
  }

  lemma HuntBegin(sys: Sys, input: Input, rid: nat, stream: seq<bool>)
    requires GapFree(sys) && Enabled(sys, input) && Known(sys, rid) && input.Begin?
    ensures SyncsLeft(Step(sys, input), rid, stream) == SyncsLeft(sys, rid, stream)
  {
    BeginServesOne(sys, input);
  }

  lemma HuntSyncReply(sys: Sys, input: Input, rid: nat, stream: seq<bool>)
    requires GapFree(sys) && Enabled(sys, input) && input.SyncReply?
    requires input.reply.Success? ==> Serves(stream, sys.service.pending[input.rid].from, input.reply.value)
    ensures (if input.rid == rid then 1 else 0) + SyncsLeft(Step(sys, input), rid, stream)
            <= SyncsLeft(sys, rid, stream)
  {
    var s := sys.service;
    if input.reply.Success? && s.alive {
      var from := s.pending[input.rid].from;
      UpdatedChain(sys.cache, input.reply.value, from, input.fits);
      ServedBacklog(stream, from, input.reply.value);
    }
  }

  lemma HuntDigest(sys: Sys, input: Input, rid: nat, stream: seq<bool>)
    requires Enabled(sys, input) && input.CryptoDone?
    ensures SyncsLeft(Step(sys, input), rid, stream) <= SyncsLeft(sys, rid, stream)
  {
    var s := sys.service;
    CallbackServesOne(sys, input);
    if s.pending[input.rid].toDeviceCount == 0 {
      LookupServesOne(s, sys.cache, input.rid, s.pending[input.rid].request, false, input.keys);
    }
  }

  lemma HuntFetch(sys: Sys, input: Input, rid: nat, stream: seq<bool>)
    requires Enabled(sys, input) && input.EventReply?
    ensures SyncsLeft(Step(sys, input), rid, stream) <= SyncsLeft(sys, rid, stream)
  {
    CallbackServesOne(sys, input);
  }

  lemma HuntRestart(sys: Sys, rid: nat, stream: seq<bool>)
    ensures SyncsLeft(Step(sys, Restart), rid, stream) == 0
  {
  }

  // A request that some service was given.
  predicate Known(sys: Sys, rid: nat) { rid in sys.service.started || rid in sys.retired }

  lemma HuntTouched(sys: Sys, input: Input, rid: nat, stream: seq<bool>)
    requires Enabled(sys, input) && TouchesCache(input)
    ensures SyncsLeft(Step(sys, input), rid, stream) <= SyncsLeft(sys, rid, stream) + 1 + Backlog(stream)
  {
    var t := Step(sys, input);
    if StreamToken(t.service, t.cache).Some? {
      BacklogBounded(stream, StreamToken(t.service, t.cache).value);
    }
  }

  lemma StepHunt(sys: Sys, input: Input, rid: nat, stream: seq<bool>)
    requires GapFree(sys) && Enabled(sys, input) && Known(sys, rid)
    requires input.SyncReply? && input.reply.Success? ==>
               Serves(stream, sys.service.pending[input.rid].from, input.reply.value)
    ensures (if IsSyncOf(input, rid) then 1 else 0) + SyncsLeft(Step(sys, input), rid, stream)
            <= SyncsLeft(sys, rid, stream) + (if TouchesCache(input) then 1 + Backlog(stream) else 0)
  {
    match input
    case Begin(_, _, _, _, _) => HuntBegin(sys, input, rid, stream);
    case SyncReply(_, _, _) => HuntSyncReply(sys, input, rid, stream);
    case CryptoDone(_, _, _) => HuntDigest(sys, input, rid, stream);
    case EventReply(_, _, _) => HuntFetch(sys, input, rid, stream);
    case SessionClean => HuntTouched(sys, input, rid, stream);
    case SessionWipe => HuntTouched(sys, input, rid, stream);
    case Restart => HuntRestart(sys, rid, stream);
    case _ =>
  }

  // The syncs a request has made since, and those it may still make, one of them perhaps in flight, are bounded by
  // the to-device events still to come and one more; each time the session clears the cache under it, it may have to
  // go through the stream again.
  lemma {:induction false} HuntTerminates(sys: Sys, inputs: seq<Input>, rid: nat, stream: seq<bool>)
    requires GapFree(sys) && Known(sys, rid)
    requires Runs(sys, inputs) && Served(sys, inputs, stream)
    ensures SyncsOf(inputs, rid) + SyncsLeft(Run(sys, inputs), rid, stream)
            <= SyncsLeft(sys, rid, stream) + Allowance(inputs, stream)
    decreases |inputs|
  {
    if inputs != [] {
      var next := Step(sys, inputs[0]);
      StepHunt(sys, inputs[0], rid, stream);
      StepGapFree(sys, inputs[0]);
      StaysKnown(sys, inputs[0], rid);
      HuntTerminates(next, inputs[1..], rid, stream);
    }
  }

  lemma StaysKnown(sys: Sys, input: Input, rid: nat)
    requires Enabled(sys, input) && Known(sys, rid)
    ensures Known(Step(sys, input), rid)
  {
    match input
    case Begin(_, _, _, _, _) => BeginServesOne(sys, input);
    case CryptoDone(_, _, _) => CallbackServesOne(sys, input);
    case EventReply(_, _, _) => CallbackServesOne(sys, input);
    case _ =>
  }

  function InFlight(sys: Sys, rid: nat): nat {
    if rid in sys.service.pending && sys.service.pending[rid].Syncing? then 1 else 0
  }

  // From the moment a request begins: with D to-device events in the stream and nobody touching the cache, it
  // makes at most D + 1 syncs, the one in flight included.
  lemma RequestSyncsBounded(sys: Sys, begin: Input, inputs: seq<Input>, stream: seq<bool>)
    requires GapFree(sys)
    requires begin.Begin? && Enabled(sys, begin)
    requires Runs(Step(sys, begin), inputs) && Served(Step(sys, begin), inputs, stream)
    requires CacheUntouched(inputs)
    ensures SyncsOf(inputs, begin.rid) + InFlight(Run(Step(sys, begin), inputs), begin.rid) <= Backlog(stream) + 1
  {
    var next := Step(sys, begin);
    StepGapFree(sys, begin);
    BeginServesOne(sys, begin);
    HuntTerminates(next, inputs, begin.rid, stream);
    NoAllowance(inputs, stream);
    var s := next.service;
    if begin.rid in s.pending && s.pending[begin.rid].Syncing? {
      BacklogBounded(stream, s.pending[begin.rid].from);
    }
    if StreamToken(s, next.cache).Some? {
      BacklogBounded(stream, StreamToken(s, next.cache).value);
    }
  }

  // ---------- Every answered request completes ----------

  predicate IsCallbackOf(input: Input, rid: nat) {
    || (input.SyncReply? && input.rid == rid)
    || (input.CryptoDone? && input.rid == rid)
    || (input.EventReply? && input.rid == rid)
  }

  function CallbacksOf(inputs: seq<Input>, rid: nat): nat {
    if inputs == [] then 0 else (if IsCallbackOf(inputs[0], rid) then 1 else 0) + CallbacksOf(inputs[1..], rid)
  }

  // Callbacks the pending request can still receive before its completion is called.
  function CallbacksLeft(sys: Sys, rid: nat, stream: seq<bool>): nat {
    if rid !in sys.service.pending then 0
    else match sys.service.pending[rid]
      case Fetching(_) => 1
      case Syncing(_, _) => 2 * SyncsLeft(sys, rid, stream) + 1
      case Digesting(_, _) => 2 * SyncsLeft(sys, rid, stream) + 2
  }

  lemma StepCallbacks(sys: Sys, input: Input, rid: nat, stream: seq<bool>)
    requires GapFree(sys) && Enabled(sys, input) && Known(sys, rid)
    requires input.SyncReply? && input.reply.Success? ==>
               Serves(stream, sys.service.pending[input.rid].from, input.reply.value)
    requires !TouchesCache(input)
    ensures (if IsCallbackOf(input, rid) then 1 else 0) + CallbacksLeft(Step(sys, input), rid, stream)
            <= CallbacksLeft(sys, rid, stream)
  {
    StepHunt(sys, input, rid, stream);
    match input
    case Begin(_, _, _, _, _) => BeginServesOne(sys, input);
    case CryptoDone(_, _, _) => CallbackServesOne(sys, input);
    case EventReply(_, _, _) => CallbackServesOne(sys, input);
    case _ =>
  }

  lemma {:induction false} CallbacksTerminate(sys: Sys, inputs: seq<Input>, rid: nat, stream: seq<bool>)
    requires GapFree(sys) && Known(sys, rid)
    requires Runs(sys, inputs) && Served(sys, inputs, stream)
    requires CacheUntouched(inputs)
    ensures CallbacksOf(inputs, rid) + CallbacksLeft(Run(sys, inputs), rid, stream)
            <= CallbacksLeft(sys, rid, stream)
    decreases |inputs|
  {
    if inputs != [] {
      assert inputs[0] in inputs && forall i | i in inputs[1..] :: i in inputs;
      StepCallbacks(sys, inputs[0], rid, stream);
      StepGapFree(sys, inputs[0]);
      StaysKnown(sys, inputs[0], rid);
      CallbacksTerminate(Step(sys, inputs[0]), inputs[1..], rid, stream);
    }
  }

  // Once as many callbacks were answered as the bound allows, the service has completed the request, if it lives
  // and is still the one that was given it.
  lemma AnsweredRequestCompletes(sys: Sys, inputs: seq<Input>, rid: nat, stream: seq<bool>)
    requires GapFree(sys) && Settled(sys) && Known(sys, rid)
    requires Runs(sys, inputs) && Served(sys, inputs, stream)
    requires CacheUntouched(inputs)
    requires CallbacksOf(inputs, rid) >= CallbacksLeft(sys, rid, stream)
    requires Run(sys, inputs).service.alive && rid in Run(sys, inputs).service.started
    ensures rid in Completed(Run(sys, inputs).service)
  {
    CallbacksTerminate(sys, inputs, rid, stream);
    RunSettled(sys, inputs);
  }
}
