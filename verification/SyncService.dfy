/** The background sync service: one step per callback, over its own fields and the cache. */
module SyncService {
  import opened Basics
  import opened SyncMerge
  import opened SyncStore

  datatype ServiceError = Unknown | DecryptionFailure | CryptoFailure | RequestFailure(code: int)

  type Reply = Response<Event, ServiceError>

  datatype Request = Request(eventId: string, roomId: string)

  // What an unfinished request is waiting for.
  datatype Pending =
    | Syncing(request: Request, from: Token)            // the reply to /sync
    | Digesting(request: Request, toDeviceCount: nat)   // crypto, after the reply was cached
    | Fetching(request: Request)                        // the reply to /event

  datatype Outcome = Outcome(rid: nat, reply: Reply)

  // The answers of the crypto module at one moment.
  datatype Keys = Keys(canDecrypt: bool, decrypts: bool)

  predicate CanDecrypt(e: Event, keys: Keys) { !e.encrypted || keys.canDecrypt }

  predicate Readable(e: Event) { !e.encrypted || e.decrypted }

  datatype Service = Service(
    storeToken: Option<Token>,
    cachedEvents: map<string, Event>,
    pending: map<nat, Pending>,
    busy: Option<nat>,            // the request holding the serial task queue
    outcomes: seq<Outcome>,       // every call of a completion block
    started: set<nat>,
    dropped: set<nat>,            // requests whose completion block was thrown away
    alive: bool)

  // ---------- Steps as functions ----------

  function Waiting(s: Service, rid: nat, p: Pending): Service {
    s.(pending := s.pending[rid := p])
  }

  function Complete(s: Service, rid: nat, reply: Reply): Service {
    s.(pending := s.pending - {rid},
       busy := if s.busy == Some(rid) then None else s.busy,
       outcomes := s.outcomes + [Outcome(rid, reply)])
  }

  function StreamToken(s: Service, cache: Cache): Option<Token> {
    if cache.NextSyncToken().Some? then cache.NextSyncToken() else s.storeToken
  }

  function Launch(s: Service, cache: Cache, rid: nat, request: Request): Service {
    var token := StreamToken(s, cache);
    if token.None? then Complete(s, rid, Failure(Unknown)) else Waiting(s, rid, Syncing(request, token.value))
  }

  function AfterDecryptionFailure(s: Service, cache: Cache, rid: nat, request: Request, allowSync: bool,
                                  error: Option<ServiceError>): Service {
    if allowSync then Launch(s, cache, rid, request)
    else Complete(s, rid, Failure(if error.Some? then error.value else DecryptionFailure))
  }

  function AfterEncryption(s: Service, cache: Cache, rid: nat, request: Request, allowSync: bool,
                           event: Event, keys: Keys): Service {
    if Readable(event) then Complete(s, rid, Success(event))
    else if !keys.canDecrypt then AfterDecryptionFailure(s, cache, rid, request, allowSync, None)
    else if !keys.decrypts then AfterDecryptionFailure(s, cache, rid, request, allowSync, Some(CryptoFailure))
    else
      var clear := event.(decrypted := true);   // in place, so the cached event is now clear too
      Complete(s.(cachedEvents := s.cachedEvents[request.eventId := clear]), rid, Success(clear))
  }

  function AfterLookup(s: Service, cache: Cache, rid: nat, request: Request, allowSync: bool, keys: Keys): Service {
    if request.eventId in s.cachedEvents then
      AfterEncryption(s, cache, rid, request, allowSync, s.cachedEvents[request.eventId], keys)
    else
      var event := cache.Event(request.eventId, request.roomId);
      if event.Some? then
        AfterEncryption(s.(cachedEvents := s.cachedEvents[request.eventId := event.value]),
                        cache, rid, request, allowSync, event.value, keys)
      else if allowSync then Launch(s, cache, rid, request)
      else Waiting(s, rid, Fetching(request))
  }

  function Refreshed(s: Service, cache: Cache, upToDate: Option<Token>): Cache {
    if cache.SyncToken().Some? && (s.storeToken != upToDate || cache.SyncToken() != upToDate)
    then cache.AllOutdated() else cache
  }

  function AfterBegin(s: Service, cache: Cache, rid: nat, request: Request, queued: bool, allowSync: bool,
                      upToDate: Option<Token>, keys: Keys): (Service, Cache) {
    var cache' := if allowSync then Refreshed(s, cache, upToDate) else cache;
    var s' := s.(started := s.started + {rid},
                 busy := if queued then Some(rid) else s.busy,
                 storeToken := if allowSync then upToDate else s.storeToken);
    (AfterLookup(s', cache', rid, request, allowSync, keys), cache')
  }

  function AfterSyncReply(s: Service, cache: Cache, rid: nat, reply: Response<SyncResponse, ServiceError>, fits: bool)
    : (Service, Cache)
    requires rid in s.pending && s.pending[rid].Syncing?
  {
    match reply
    case Failure(error) => (Complete(s, rid, Failure(error)), cache)
    case Success(r) =>
      if !s.alive then (Complete(s, rid, Failure(Unknown)), cache)
      else (Waiting(s, rid, Digesting(s.pending[rid].request, |r.toDevice|)),
            cache.Updated(r, s.pending[rid].from, fits))
  }

  // `test` is crypto's answer for the relaunch test, `keys` its answer for the final lookup.
  function AfterDigest(s: Service, cache: Cache, rid: nat, test: Keys, keys: Keys): Service
    requires rid in s.pending && s.pending[rid].Digesting?
  {
    var request := s.pending[rid].request;
    var event := cache.Event(request.eventId, request.roomId);
    if event.Some? && !CanDecrypt(event.value, test) && s.pending[rid].toDeviceCount > 0
    then Launch(s, cache, rid, request)
    else AfterLookup(s, cache, rid, request, false, keys)
  }

  function AfterEventReply(s: Service, cache: Cache, rid: nat, reply: Reply, keys: Keys): Service
    requires rid in s.pending && s.pending[rid].Fetching?
  {
    var request := s.pending[rid].request;
    if !s.alive then s.(pending := s.pending - {rid}, dropped := s.dropped + {rid})
    else match reply
      case Failure(error) => Complete(s, rid, Failure(error))
      case Success(event) =>
        AfterEncryption(s.(cachedEvents := s.cachedEvents[request.eventId := event]),
                        cache, rid, request, false, event, keys)
  }

  // ---------- What a request comes to ----------

  // Where a new /sync starts: at the end of the cached chain, else at the token of the store; without either there is
  // none, and the request fails.
  ghost predicate SyncsOn(s: Service, t: Service, cache: Cache, rid: nat, request: Request) {
    var end := if cache.ids == [] || cache.ids[|cache.ids|-1] !in cache.files then None
               else Some(cache.files[cache.ids[|cache.ids|-1]].response.nextBatch);
    if end.None? && s.storeToken.None? then
      t.outcomes == s.outcomes + [Outcome(rid, Failure(Unknown))] && t.pending == s.pending - {rid}
    else
      && t.outcomes == s.outcomes
      && t.pending == s.pending[rid := Syncing(request, if end.Some? then end.value else s.storeToken.value)]
  }

  // An event that is at hand is handed on as it is when it can be read. Otherwise it is handed on clear exactly when
  // crypto has the keys and decrypts it; when not, there is another /sync, or the reason why not.
  lemma AnswersIff(s: Service, cache: Cache, rid: nat, request: Request, allowSync: bool, event: Event, keys: Keys)
    ensures
      var t, clear := AfterEncryption(s, cache, rid, request, allowSync, event, keys), event.(decrypted := true);
      if !event.encrypted || event.decrypted then t.outcomes == s.outcomes + [Outcome(rid, Success(event))]
      else
        && (t.outcomes == s.outcomes + [Outcome(rid, Success(clear))] <==> keys.canDecrypt && keys.decrypts)
        && (keys.canDecrypt && keys.decrypts ==> t.cachedEvents == s.cachedEvents[request.eventId := clear])
        && (!keys.canDecrypt && !allowSync ==>
              t.outcomes == s.outcomes + [Outcome(rid, Failure(DecryptionFailure))])
        && (keys.canDecrypt && !keys.decrypts && !allowSync ==>
              t.outcomes == s.outcomes + [Outcome(rid, Failure(CryptoFailure))])
        && (!(keys.canDecrypt && keys.decrypts) && allowSync ==> SyncsOn(s, t, cache, rid, request))
  {
    var t := AfterEncryption(s, cache, rid, request, allowSync, event, keys);
    if !(keys.canDecrypt && keys.decrypts) && !Readable(event) {
      assert t.outcomes == s.outcomes || t.outcomes[|s.outcomes|].reply.Failure?;
    }
  }

  // Some live chunk has an event of this id in the room.
  ghost predicate InCache(cache: Cache, request: Request) {
    exists i, x :: 0 <= i < |cache.ids| && ChunkHolds(cache, cache.ids[i], request.roomId, x) && x.id == request.eventId
  }

  lemma CachedIff(cache: Cache, request: Request)
    ensures var event := cache.Event(request.eventId, request.roomId);
      (event.Some? <==> InCache(cache, request)) && (event.Some? ==> event.value.id == request.eventId)
  {
    EventIsNewest(cache, request.eventId, request.roomId);
  }

  // /event is asked exactly when the event is neither in memory nor in the cache and no sync is allowed any more;
  // a /sync for an event that is nowhere, exactly when it is.
  lemma NextMoveIff(s: Service, cache: Cache, rid: nat, request: Request, allowSync: bool, keys: Keys)
    ensures
      var t := AfterLookup(s, cache, rid, request, allowSync, keys);
      var missing := request.eventId !in s.cachedEvents && !InCache(cache, request);
      && (rid in t.pending && t.pending[rid].Fetching? <==> missing && !allowSync)
      && (missing && !allowSync ==> t == s.(pending := s.pending[rid := Fetching(request)]))
      && (missing && allowSync ==> SyncsOn(s, t, cache, rid, request))
      && (request.eventId !in s.cachedEvents && InCache(cache, request) ==>
            request.eventId in t.cachedEvents && t.cachedEvents[request.eventId].id == request.eventId)
  {
    CachedIff(cache, request);
  }

  // After the reply to a /sync was cached, the request syncs again exactly when the cache has the event, encrypted,
  // crypto lacks its keys, and the reply brought to-device events.
  lemma RelaunchIff(s: Service, cache: Cache, rid: nat, test: Keys, keys: Keys)
    requires rid in s.pending && s.pending[rid].Digesting?
    ensures
      var t, request := AfterDigest(s, cache, rid, test, keys), s.pending[rid].request;
      var event := cache.Event(request.eventId, request.roomId);
      var again := event.Some? && event.value.encrypted && !test.canDecrypt && s.pending[rid].toDeviceCount > 0;
      && (event.Some? <==> InCache(cache, request)) && (event.Some? ==> event.value.id == request.eventId)
      && (again ==> SyncsOn(s, t, cache, rid, request))
      && (!again ==> (rid in t.pending ==> t.pending[rid].Fetching?))
  {
    CachedIff(cache, s.pending[rid].request);
  }

  // From the reply on: a living service stores the response, and syncs again exactly when that makes an encrypted
  // event of this id the one to be found, crypto lacks its keys, and this response brought to-device events.
  lemma RelaunchAfterReplyIff(s: Service, cache: Cache, rid: nat, r: SyncResponse, fits: bool, test: Keys, keys: Keys)
    requires rid in s.pending && s.pending[rid].Syncing? && s.alive
    ensures
      var (replied, stored) := AfterSyncReply(s, cache, rid, Success(r), fits);
      var request := s.pending[rid].request;
      var event := stored.Event(request.eventId, request.roomId);
      && rid in replied.pending && replied.pending[rid].Digesting?
      && var t := AfterDigest(replied, stored, rid, test, keys);
      var again := event.Some? && event.value.encrypted && !test.canDecrypt && r.toDevice != [];
      && stored == cache.Updated(r, s.pending[rid].from, fits)
      && (again ==> SyncsOn(replied, t, stored, rid, request))
      && (!again ==> (rid in t.pending ==> t.pending[rid].Fetching?))
  {
    var (replied, stored) := AfterSyncReply(s, cache, rid, Success(r), fits);
    RelaunchIff(replied, stored, rid, test, keys);
  }

  // ---------- Exactly one completion ----------

  function Completed(s: Service): set<nat> { set o | o in s.outcomes :: o.rid }

  ghost predicate OncePerRequest(outcomes: seq<Outcome>) {
    forall i, j | 0 <= i < j < |outcomes| :: outcomes[i].rid != outcomes[j].rid
  }

  ghost predicate AllReadable(outcomes: seq<Outcome>) {
    forall o | o in outcomes && o.reply.Success? :: Readable(o.reply.value)
  }

  // Every started request is in exactly one of three places: pending, completed (once) or dropped.
  // Only a deallocated service drops; a success is always readable.
  ghost predicate Accounted(s: Service) {
    && s.started == s.pending.Keys + Completed(s) + s.dropped
    && s.pending.Keys !! Completed(s) !! s.dropped
    && OncePerRequest(s.outcomes)
    && AllReadable(s.outcomes)
    && (s.dropped != {} ==> !s.alive)
  }

  // The same, while the code that serves `rid` is running.
  ghost predicate InHand(s: Service, rid: nat) {
    && s.started == s.pending.Keys + {rid} + Completed(s) + s.dropped
    && s.pending.Keys + {rid} !! Completed(s) !! s.dropped
    && OncePerRequest(s.outcomes)
    && AllReadable(s.outcomes)
    && (s.dropped != {} ==> !s.alive)
  }

  lemma CompleteAccounted(s: Service, rid: nat, reply: Reply)
    requires InHand(s, rid)
    requires reply.Success? ==> Readable(reply.value)
    ensures Accounted(Complete(s, rid, reply))
  {
  }

  lemma LookupAccounted(s: Service, cache: Cache, rid: nat, request: Request, allowSync: bool, keys: Keys)
    requires InHand(s, rid)
    ensures Accounted(AfterLookup(s, cache, rid, request, allowSync, keys))
  {
    var event := cache.Event(request.eventId, request.roomId);
    if request.eventId in s.cachedEvents {
      EncryptionAccounted(s, cache, rid, request, allowSync, s.cachedEvents[request.eventId], keys);
    } else if event.Some? {
      EncryptionAccounted(s.(cachedEvents := s.cachedEvents[request.eventId := event.value]),
        cache, rid, request, allowSync, event.value, keys);
    } else if allowSync {
      LaunchAccounted(s, cache, rid, request);
    } else {
      WaitingAccounted(s, rid, Fetching(request));
    }
  }

  lemma WaitingAccounted(s: Service, rid: nat, p: Pending)
    requires InHand(s, rid)
    ensures Accounted(Waiting(s, rid, p))
  {
  }

  lemma LaunchAccounted(s: Service, cache: Cache, rid: nat, request: Request)
    requires InHand(s, rid)
    ensures Accounted(Launch(s, cache, rid, request))
  {
    var token := StreamToken(s, cache);
    if token.None? { CompleteAccounted(s, rid, Failure(Unknown)); }
    else { WaitingAccounted(s, rid, Syncing(request, token.value)); }
  }

  lemma EncryptionAccounted(s: Service, cache: Cache, rid: nat, request: Request, allowSync: bool, event: Event,
                            keys: Keys)
    requires InHand(s, rid)
    ensures Accounted(AfterEncryption(s, cache, rid, request, allowSync, event, keys))
  {
    if Readable(event) {
      CompleteAccounted(s, rid, Success(event));
    } else if keys.canDecrypt && keys.decrypts {
      var clear := event.(decrypted := true);
      CompleteAccounted(s.(cachedEvents := s.cachedEvents[request.eventId := clear]), rid, Success(clear));
    } else if allowSync {
      LaunchAccounted(s, cache, rid, request);
    } else {
      CompleteAccounted(s, rid, Failure(if keys.canDecrypt then CryptoFailure else DecryptionFailure));
    }
  }

  lemma BeginAccounted(s: Service, cache: Cache, rid: nat, request: Request, queued: bool, allowSync: bool,
                       upToDate: Option<Token>, keys: Keys)
    requires Accounted(s) && rid !in s.started
    ensures Accounted(AfterBegin(s, cache, rid, request, queued, allowSync, upToDate, keys).0)
  {
    var s' := s.(started := s.started + {rid},
                 busy := if queued then Some(rid) else s.busy,
                 storeToken := if allowSync then upToDate else s.storeToken);
    var cache' := if allowSync then Refreshed(s, cache, upToDate) else cache;
    assert Completed(s') == Completed(s);
    LookupAccounted(s', cache', rid, request, allowSync, keys);
  }

  lemma PendingInHand(s: Service, rid: nat)
    requires Accounted(s) && rid in s.pending
    ensures InHand(s, rid)
  {
  }

  lemma SyncReplyAccounted(s: Service, cache: Cache, rid: nat, reply: Response<SyncResponse, ServiceError>, fits: bool)
    requires Accounted(s) && rid in s.pending && s.pending[rid].Syncing?
    ensures Accounted(AfterSyncReply(s, cache, rid, reply, fits).0)
  {
    PendingInHand(s, rid);
    if reply.Failure? {
      CompleteAccounted(s, rid, Failure(reply.error));
    } else if !s.alive {
      CompleteAccounted(s, rid, Failure(Unknown));
    } else {
      WaitingAccounted(s, rid, Digesting(s.pending[rid].request, |reply.value.toDevice|));
    }
  }

  lemma DigestAccounted(s: Service, cache: Cache, rid: nat, test: Keys, keys: Keys)
    requires Accounted(s) && rid in s.pending && s.pending[rid].Digesting?
    ensures Accounted(AfterDigest(s, cache, rid, test, keys))
  {
    PendingInHand(s, rid);
    LaunchAccounted(s, cache, rid, s.pending[rid].request);
    LookupAccounted(s, cache, rid, s.pending[rid].request, false, keys);
  }

  lemma EventReplyAccounted(s: Service, cache: Cache, rid: nat, reply: Reply, keys: Keys)
    requires Accounted(s) && rid in s.pending && s.pending[rid].Fetching?
    ensures Accounted(AfterEventReply(s, cache, rid, reply, keys))
  {
    PendingInHand(s, rid);
    var request := s.pending[rid].request;
    if !s.alive {
      assert Completed(AfterEventReply(s, cache, rid, reply, keys)) == Completed(s);
    } else if reply.Success? {
      EncryptionAccounted(s.(cachedEvents := s.cachedEvents[request.eventId := reply.value]),
        cache, rid, request, false, reply.value, keys);
    } else {
      CompleteAccounted(s, rid, reply);
    }
  }

  // ---------- The service itself ----------

  class BackgroundSyncService {
    const syncResponseStoreManager: StoreManager
    var storeToken: Option<Token>
    var cachedEvents: map<string, Event>
    var pending: map<nat, Pending>
    var busy: Option<nat>
    var outcomes: seq<Outcome>
    var started: set<nat>
    var dropped: set<nat>
    var alive: bool

    function State(): Service
      reads this
    {
      Service(storeToken, cachedEvents, pending, busy, outcomes, started, dropped, alive)
    }

    function CacheState(): Cache
      reads syncResponseStoreManager.syncResponseStore
    {
      syncResponseStoreManager.syncResponseStore.State()
    }

    ghost predicate Valid()
      reads syncResponseStoreManager.syncResponseStore
    {
      syncResponseStoreManager.syncResponseStore.Valid()
    }

    constructor (manager: StoreManager, fileToken: Option<Token>)
      requires manager.syncResponseStore.Valid()
      ensures Valid() && syncResponseStoreManager == manager
      ensures State() == Service(fileToken, map[], map[], None, [], {}, {}, true)
    {
      syncResponseStoreManager := manager;
      storeToken, cachedEvents, pending, busy := fileToken, map[], map[], None;
      outcomes, started, dropped, alive := [], {}, {}, true;
    }

    method CallCompletion(rid: nat, reply: Reply)
      modifies this
      ensures State() == Complete(old(State()), rid, reply)
    {
      pending := pending - {rid};
      outcomes := outcomes + [Outcome(rid, reply)];
      if busy == Some(rid) { busy := None; }
    }

    method LaunchBackgroundSync(rid: nat, request: Request)
      requires Valid()
      modifies this
      ensures State() == Launch(old(State()), CacheState(), rid, request)
    {
      var store := syncResponseStoreManager.syncResponseStore;
      var eventStreamToken := storeToken;
      if store.ids != [] {
        assert store.ids[|store.ids|-1] in store.ids + store.outdatedIds;
        eventStreamToken := Some(store.files[store.ids[|store.ids|-1]].response.nextBatch);
      }
      if eventStreamToken.None? {
        CallCompletion(rid, Failure(Unknown));
      } else {
        pending := pending[rid := Syncing(request, eventStreamToken.value)];
      }
    }

    method HandleDecryptionFailure(rid: nat, request: Request, allowSync: bool, error: Option<ServiceError>)
      requires Valid()
      modifies this
      ensures State() == AfterDecryptionFailure(old(State()), CacheState(), rid, request, allowSync, error)
    {
      if allowSync {
        LaunchBackgroundSync(rid, request);
      } else {
        CallCompletion(rid, Failure(if error.Some? then error.value else DecryptionFailure));
      }
    }

    method HandleEncryption(rid: nat, request: Request, allowSync: bool, event: Event, keys: Keys)
      requires Valid()
      modifies this
      ensures State() == AfterEncryption(old(State()), CacheState(), rid, request, allowSync, event, keys)
    {
      if !event.encrypted {
        CallCompletion(rid, Success(event));
        return;
      }
      if event.decrypted {
        CallCompletion(rid, Success(event));
        return;
      }
      if keys.canDecrypt {
        if keys.decrypts {
          var clear := event.(decrypted := true);
          cachedEvents := cachedEvents[request.eventId := clear];
          CallCompletion(rid, Success(clear));
        } else {
          HandleDecryptionFailure(rid, request, allowSync, Some(CryptoFailure));
        }
      } else {
        HandleDecryptionFailure(rid, request, allowSync, None);
      }
    }

    method UpdateBackgroundServiceStoresIfNeeded(upToDateEventStreamToken: Option<Token>)
      requires Valid()
      modifies this`storeToken, syncResponseStoreManager.syncResponseStore
      ensures Valid()
      ensures storeToken == upToDateEventStreamToken
      ensures CacheState() == Refreshed(old(State()), old(CacheState()), upToDateEventStreamToken)
    {
      var outdatedStore := false;
      if storeToken != upToDateEventStreamToken {
        storeToken := upToDateEventStreamToken;
        outdatedStore := true;
      }
      var store := syncResponseStoreManager.syncResponseStore;
      if store.ids != [] {
        assert store.ids[0] in store.ids + store.outdatedIds;
        var cachedSyncToken := store.files[store.ids[0]].syncToken;
        if upToDateEventStreamToken != Some(cachedSyncToken) {
          outdatedStore := true;
        }
        if outdatedStore {
          syncResponseStoreManager.MarkDataOutdated();
        }
      }
    }

    // `_event` after the stores were refreshed.
    method LookUp(rid: nat, request: Request, allowSync: bool, keys: Keys)
      requires Valid()
      modifies this
      ensures State() == AfterLookup(old(State()), CacheState(), rid, request, allowSync, keys)
    {
      if request.eventId in cachedEvents {
        HandleEncryption(rid, request, allowSync, cachedEvents[request.eventId], keys);
      } else {
        var event := syncResponseStoreManager.FindEvent(request.eventId, request.roomId);
        if event.Some? {
          cachedEvents := cachedEvents[request.eventId := event.value];
          HandleEncryption(rid, request, allowSync, event.value, keys);
        } else if allowSync {
          LaunchBackgroundSync(rid, request);
        } else {
          pending := pending[rid := Fetching(request)];
        }
      }
    }

    method FetchEvent(rid: nat, request: Request, queued: bool, allowSync: bool, upToDate: Option<Token>, keys: Keys)
      requires Valid()
      modifies this, syncResponseStoreManager.syncResponseStore
      ensures Valid()
      ensures (State(), CacheState()) ==
              AfterBegin(old(State()), old(CacheState()), rid, request, queued, allowSync, upToDate, keys)
    {
      started := started + {rid};
      if queued { busy := Some(rid); }
      if allowSync {
        UpdateBackgroundServiceStoresIfNeeded(upToDate);
      }
      LookUp(rid, request, allowSync, keys);
    }

    method OnSyncReply(rid: nat, reply: Response<SyncResponse, ServiceError>)
      requires Valid() && rid in pending && pending[rid].Syncing?
      modifies this, syncResponseStoreManager.syncResponseStore
      ensures Valid()
      ensures (State(), CacheState()) ==
              AfterSyncReply(old(State()), old(CacheState()), rid, reply, old(syncResponseStoreManager.Fits()))
    {
      match reply
      case Success(syncResponse) =>
        if !alive {
          CallCompletion(rid, Failure(Unknown));
        } else {
          syncResponseStoreManager.UpdateStore(syncResponse, pending[rid].from);
          pending := pending[rid := Digesting(pending[rid].request, |syncResponse.toDevice|)];
        }
      case Failure(error) =>
        CallCompletion(rid, Failure(error));
    }

    method OnCryptoDone(rid: nat, test: Keys, keys: Keys)
      requires Valid() && rid in pending && pending[rid].Digesting?
      modifies this
      ensures State() == AfterDigest(old(State()), CacheState(), rid, test, keys)
    {
      var request := pending[rid].request;
      var event := syncResponseStoreManager.FindEvent(request.eventId, request.roomId);
      if event.Some? && !CanDecrypt(event.value, test) && pending[rid].toDeviceCount > 0 {
        LaunchBackgroundSync(rid, request);
      } else {
        LookUp(rid, request, false, keys);
      }
    }

    method OnEventReply(rid: nat, reply: Reply, keys: Keys)
      requires Valid() && rid in pending && pending[rid].Fetching?
      modifies this
      ensures State() == AfterEventReply(old(State()), CacheState(), rid, reply, keys)
    {
      var request := pending[rid].request;
      if !alive {
        pending := pending - {rid};
        dropped := dropped + {rid};
        return;
      }
      match reply
      case Success(event) =>
        cachedEvents := cachedEvents[request.eventId := event];
        HandleEncryption(rid, request, false, event, keys);
      case Failure(error) =>
        CallCompletion(rid, Failure(error));
    }
  }
}
