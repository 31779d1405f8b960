/** Where answers come from: over any run, every success was brought by the server and every failure has its reason. */
module SyncAnswers {
  import opened Basics
  import opened SyncMerge
  import RoomReplay
  import opened SyncStore
  import opened SyncService
  import opened SyncSystem

  // The server brings an event in a reply to /sync, in some section of some room, or in a reply to /event.
  ghost predicate Brings(input: Input, e: Event) {
    || (input.SyncReply? && input.reply.Success? && exists roomId :: Holds(PartOf(input.reply.value, roomId), e))
    || (input.EventReply? && input.event == Success(e))
  }

  // In this step crypto has the keys and decrypts.
  predicate Opens(input: Input) {
    match input
    case Begin(_, _, _, _, keys) => keys.canDecrypt && keys.decrypts
    case CryptoDone(_, _, keys) => keys.canDecrypt && keys.decrypts
    case EventReply(_, _, keys) => keys.canDecrypt && keys.decrypts
    case _ => false
  }

  // Crypto has no keys, or has them and fails.
  predicate CryptoFails(keys: Keys, error: ServiceError) {
    || (error.DecryptionFailure? && !keys.canDecrypt)
    || (error.CryptoFailure? && keys.canDecrypt && !keys.decrypts)
  }

  // The step serves this request, and is the reason for this error.
  predicate Explains(input: Input, rid: nat, error: ServiceError) {
    match input
    case SyncReply(r, reply, _) => r == rid && (reply == Failure(error) || (reply.Success? && error.Unknown?))
    case EventReply(r, reply, keys) => r == rid && (reply == Failure(error) || CryptoFails(keys, error))
    case Begin(r, _, _, allowSync, keys) => r == rid && if allowSync then error.Unknown? else CryptoFails(keys, error)
    case CryptoDone(r, _, keys) => r == rid && (CryptoFails(keys, error) || error.Unknown?)
    case _ => false
  }

  ghost predicate Came(past: seq<Input>, e: Event) {
    exists i :: 0 <= i < |past| && Brings(past[i], e)
  }

  // It came as it is, or it came unreadable and was decrypted by crypto, then or later.
  ghost predicate Sourced(past: seq<Input>, e: Event) {
    || Came(past, e)
    || (e.encrypted && e.decrypted && Opened(past, e.(decrypted := false)))
  }

  ghost predicate Opened(past: seq<Input>, e: Event) {
    exists i, j :: 0 <= i <= j < |past| && Brings(past[i], e) && Opens(past[j])
  }

  // The request was for this event, or for the id under which a reply to /event brought it.
  ghost predicate AskedFor(past: seq<Input>, eventId: string, e: Event) {
    || e.id == eventId
    || exists i, k ::
         && 0 <= i < k < |past| && past[i].Begin? && past[i].request.eventId == eventId
         && past[k].EventReply? && past[k].rid == past[i].rid && past[k].event.Success?
         && past[k].event.value.id == e.id
  }

  ghost predicate Asked(past: seq<Input>, rid: nat, eventId: string) {
    exists i :: 0 <= i < |past| && past[i].Begin? && past[i].rid == rid && past[i].request.eventId == eventId
  }

  ghost predicate Justified(past: seq<Input>, o: Outcome) {
    match o.reply
    case Success(e) =>
      && (!e.encrypted || e.decrypted) && Sourced(past, e)
      && exists eventId :: Asked(past, o.rid, eventId) && AskedFor(past, eventId, e)
    case Failure(error) => exists i :: 0 <= i < |past| && Explains(past[i], o.rid, error)
  }

  ghost predicate CacheFrom(past: seq<Input>, cache: Cache) {
    forall id, roomId, e | id in cache.files && Holds(PartOf(cache.files[id].response, roomId), e) :: Came(past, e)
  }

  ghost predicate ServiceFrom(past: seq<Input>, s: Service) {
    && (forall id | id in s.cachedEvents :: Sourced(past, s.cachedEvents[id]) && AskedFor(past, id, s.cachedEvents[id]))
    && (forall rid | rid in s.pending :: Asked(past, rid, s.pending[rid].request.eventId))
    && (forall o | o in s.outcomes :: Justified(past, o))
  }

  ghost predicate From(past: seq<Input>, sys: Sys) {
    && CacheFrom(past, sys.cache) && ServiceFrom(past, sys.service)
    && (forall o | o in sys.reported :: Justified(past, o))
  }

  // ---------- More past changes nothing ----------

  lemma Earlier(past: seq<Input>, input: Input)
    ensures forall i | 0 <= i < |past| :: (past + [input])[i] == past[i]
  {
  }

  lemma SourcedLater(past: seq<Input>, input: Input, e: Event)
    ensures Came(past, e) ==> Came(past + [input], e)
    ensures Sourced(past, e) ==> Sourced(past + [input], e)
  {
    var all := past + [input];
    Earlier(past, input);
    if i :| 0 <= i < |past| && Brings(past[i], e) { assert Brings(all[i], e); }
    var closed := e.(decrypted := false);
    if i, j :| 0 <= i <= j < |past| && Brings(past[i], closed) && Opens(past[j]) {
      assert Brings(all[i], closed) && Opens(all[j]);
    }
  }

  lemma AskedLater(past: seq<Input>, input: Input, rid: nat, eventId: string, e: Event)
    ensures Asked(past, rid, eventId) ==> Asked(past + [input], rid, eventId)
    ensures AskedFor(past, eventId, e) ==> AskedFor(past + [input], eventId, e)
  {
    var all := past + [input];
    Earlier(past, input);
    if i :| 0 <= i < |past| && past[i].Begin? && past[i].rid == rid && past[i].request.eventId == eventId {
      assert all[i] == past[i];
    }
    if AskedFor(past, eventId, e) && e.id != eventId {
      var i, k :|
        && 0 <= i < k < |past| && past[i].Begin? && past[i].request.eventId == eventId
        && past[k].EventReply? && past[k].rid == past[i].rid && past[k].event.Success?
        && past[k].event.value.id == e.id;
      assert all[i] == past[i] && all[k] == past[k];
    }
  }

  lemma JustifiedLater(past: seq<Input>, input: Input, o: Outcome)
    requires Justified(past, o)
    ensures Justified(past + [input], o)
  {
    match o.reply
    case Success(e) =>
      SourcedLater(past, input, e);
      var eventId :| Asked(past, o.rid, eventId) && AskedFor(past, eventId, e);
      AskedLater(past, input, o.rid, eventId, e);
    case Failure(error) =>
      var i :| 0 <= i < |past| && Explains(past[i], o.rid, error);
      assert (past + [input])[i] == past[i];
  }

  lemma FromLater(past: seq<Input>, input: Input, sys: Sys)
    requires From(past, sys)
    ensures From(past + [input], sys)
  {
    var s := sys.service;
    forall id, roomId, e | id in sys.cache.files && Holds(PartOf(sys.cache.files[id].response, roomId), e)
      ensures Came(past + [input], e)
    {
      SourcedLater(past, input, e);
    }
    forall id | id in s.cachedEvents
      ensures Sourced(past + [input], s.cachedEvents[id]) && AskedFor(past + [input], id, s.cachedEvents[id])
    {
      SourcedLater(past, input, s.cachedEvents[id]);
      AskedLater(past, input, 0, id, s.cachedEvents[id]);
    }
    forall rid | rid in s.pending ensures Asked(past + [input], rid, s.pending[rid].request.eventId) {
      AskedLater(past, input, rid, s.pending[rid].request.eventId, Event("", false, false, None));
    }
    forall o | o in s.outcomes || o in sys.reported ensures Justified(past + [input], o) {
      JustifiedLater(past, input, o);
    }
  }

  // ---------- One step ----------

  // The last input of `past` is the one being served, for this request.
  ghost predicate Serves(past: seq<Input>, rid: nat, request: Request, allowSync: bool, keys: Keys) {
    && past != [] && Asked(past, rid, request.eventId)
    && var input := past[|past|-1];
    && (keys.canDecrypt && keys.decrypts ==> Opens(input))
    && (allowSync ==> Explains(input, rid, Unknown))
    && (!allowSync ==> forall error | CryptoFails(keys, error) :: Explains(input, rid, error))
  }

  lemma CompleteFrom(past: seq<Input>, s: Service, rid: nat, reply: Reply)
    requires ServiceFrom(past, s) && Justified(past, Outcome(rid, reply))
    ensures ServiceFrom(past, Complete(s, rid, reply))
  {
  }

  lemma LaunchFrom(past: seq<Input>, s: Service, cache: Cache, rid: nat, request: Request)
    requires ServiceFrom(past, s) && Asked(past, rid, request.eventId)
    requires past != [] && Explains(past[|past|-1], rid, Unknown)
    ensures ServiceFrom(past, Launch(s, cache, rid, request))
  {
    if StreamToken(s, cache).None? { CompleteFrom(past, s, rid, Failure(Unknown)); }
  }

  lemma FailureFrom(past: seq<Input>, s: Service, cache: Cache, rid: nat, request: Request, allowSync: bool, keys: Keys)
    requires ServiceFrom(past, s) && Serves(past, rid, request, allowSync, keys) && !(keys.canDecrypt && keys.decrypts)
    ensures
      var error := if keys.canDecrypt then Some(CryptoFailure) else None;
      ServiceFrom(past, AfterDecryptionFailure(s, cache, rid, request, allowSync, error))
  {
    if allowSync {
      LaunchFrom(past, s, cache, rid, request);
    } else {
      var error := if keys.canDecrypt then CryptoFailure else DecryptionFailure;
      assert CryptoFails(keys, error);
      CompleteFrom(past, s, rid, Failure(error));
    }
  }

  lemma EncryptionFrom(past: seq<Input>, s: Service, cache: Cache, rid: nat, request: Request, allowSync: bool,
                       event: Event, keys: Keys)
    requires ServiceFrom(past, s) && Serves(past, rid, request, allowSync, keys)
    requires Sourced(past, event) && AskedFor(past, request.eventId, event)
    ensures ServiceFrom(past, AfterEncryption(s, cache, rid, request, allowSync, event, keys))
  {
    if Readable(event) {
      CompleteFrom(past, s, rid, Success(event));
    } else if keys.canDecrypt && keys.decrypts {
      var clear := event.(decrypted := true);
      ClearSourced(past, event);
      CompleteFrom(past, s.(cachedEvents := s.cachedEvents[request.eventId := clear]), rid, Success(clear));
    } else {
      FailureFrom(past, s, cache, rid, request, allowSync, keys);
    }
  }

  lemma ClearSourced(past: seq<Input>, event: Event)
    requires Sourced(past, event) && event.encrypted && !event.decrypted && past != [] && Opens(past[|past|-1])
    ensures Sourced(past, event.(decrypted := true))
  {
    var i :| 0 <= i < |past| && Brings(past[i], event);
    assert event.(decrypted := true).(decrypted := false) == event;
    assert i <= |past| - 1;
  }

  lemma LookupFrom(past: seq<Input>, s: Service, cache: Cache, rid: nat, request: Request, allowSync: bool, keys: Keys)
    requires CacheFrom(past, cache) && ServiceFrom(past, s)
    requires Serves(past, rid, request, allowSync, keys)
    ensures ServiceFrom(past, AfterLookup(s, cache, rid, request, allowSync, keys))
  {
    if request.eventId in s.cachedEvents {
      EncryptionFrom(past, s, cache, rid, request, allowSync, s.cachedEvents[request.eventId], keys);
    } else {
      var event := cache.Event(request.eventId, request.roomId);
      EventIsNewest(cache, request.eventId, request.roomId);
      if event.Some? {
        var i :| NewestAt(cache, request.roomId, event.value, i);
        assert Came(past, event.value);
        var s' := s.(cachedEvents := s.cachedEvents[request.eventId := event.value]);
        EncryptionFrom(past, s', cache, rid, request, allowSync, event.value, keys);
      } else if allowSync {
        LaunchFrom(past, s, cache, rid, request);
      }
    }
  }

  lemma BeginFrom(past: seq<Input>, sys: Sys, input: Input)
    requires From(past + [input], sys) && Enabled(sys, input) && input.Begin?
    ensures From(past + [input], Step(sys, input))
  {
    var Begin(rid, request, queued, allowSync, keys) := input;
    var s, cache := sys.service, sys.cache;
    var cache' := if allowSync then Refreshed(s, cache, sys.token) else cache;
    var s' := s.(started := s.started + {rid},
                 busy := if queued then Some(rid) else s.busy,
                 storeToken := if allowSync then sys.token else s.storeToken);
    assert (past + [input])[|past|] == input;
    LookupFrom(past + [input], s', cache', rid, request, allowSync, keys);
  }

  // The events of a merge were in one of the two parts.
  lemma StoredFrom(past: seq<Input>, input: Input, cache: Cache)
    requires input.SyncReply? && input.reply.Success? && CacheFrom(past + [input], cache)
    ensures forall from :: CacheFrom(past + [input], cache.Updated(input.reply.value, from, input.fits))
  {
    var all, r := past + [input], input.reply.value;
    assert all[|past|] == input;
    forall from, id, roomId, e |
      && id in cache.Updated(r, from, input.fits).files
      && Holds(PartOf(cache.Updated(r, from, input.fits).files[id].response, roomId), e)
      ensures Came(all, e)
    {
      if id in cache.files {
        MergedEvents(PartOf(r, roomId), PartOf(cache.files[id].response, roomId), e);
      }
      if Holds(PartOf(r, roomId), e) { assert Brings(all[|past|], e); }
    }
  }

  lemma SyncReplyFrom(past: seq<Input>, sys: Sys, input: Input)
    requires From(past + [input], sys) && Enabled(sys, input) && input.SyncReply?
    ensures From(past + [input], Step(sys, input))
  {
    var all, s, rid := past + [input], sys.service, input.rid;
    assert all[|past|] == input;
    match input.reply
    case Failure(error) => CompleteFrom(all, s, rid, Failure(error));
    case Success(r) =>
      if !s.alive { CompleteFrom(all, s, rid, Failure(Unknown)); }
      else { StoredFrom(past, input, sys.cache); }
  }

  lemma CryptoDoneFrom(past: seq<Input>, sys: Sys, input: Input)
    requires From(past + [input], sys) && Enabled(sys, input) && input.CryptoDone?
    ensures From(past + [input], Step(sys, input))
  {
    var all, s, rid := past + [input], sys.service, input.rid;
    assert all[|past|] == input;
    LaunchFrom(all, s, sys.cache, rid, s.pending[rid].request);
    LookupFrom(all, s, sys.cache, rid, s.pending[rid].request, false, input.keys);
  }

  lemma EventReplyFrom(past: seq<Input>, sys: Sys, input: Input)
    requires From(past + [input], sys) && From(past, sys) && Enabled(sys, input) && input.EventReply?
    ensures From(past + [input], Step(sys, input))
  {
    var all, s, rid := past + [input], sys.service, input.rid;
    assert all[|past|] == input;
    var request := s.pending[rid].request;
    if s.alive {
      match input.event
      case Failure(error) => CompleteFrom(all, s, rid, Failure(error));
      case Success(event) =>
        FetchedAskedFor(past, input, request.eventId);
        assert Brings(all[|past|], event);
        EncryptionFrom(all, s.(cachedEvents := s.cachedEvents[request.eventId := event]),
                       sys.cache, rid, request, false, event, input.keys);
    }
  }

  lemma FetchedAskedFor(past: seq<Input>, input: Input, eventId: string)
    requires input.EventReply? && input.event.Success? && Asked(past, input.rid, eventId)
    ensures AskedFor(past + [input], eventId, input.event.value)
  {
    var all := past + [input];
    var i :| 0 <= i < |past| && past[i].Begin? && past[i].rid == input.rid && past[i].request.eventId == eventId;
    assert all[i] == past[i] && all[|past|] == input;
  }

  lemma StepFrom(past: seq<Input>, sys: Sys, input: Input)
    requires From(past, sys) && Enabled(sys, input)
    ensures From(past + [input], Step(sys, input))
  {
    FromLater(past, input, sys);
    match input
    case Begin(_, _, _, _, _) => BeginFrom(past, sys, input);
    case SyncReply(_, _, _) => SyncReplyFrom(past, sys, input);
    case CryptoDone(_, _, _) => CryptoDoneFrom(past, sys, input);
    case EventReply(_, _, _) => EventReplyFrom(past, sys, input);
    case _ =>
  }

  // ---------- Every run ----------

  lemma {:induction false} RunFrom(past: seq<Input>, sys: Sys, inputs: seq<Input>)
    requires From(past, sys) && Runs(sys, inputs)
    ensures From(past + inputs, Run(sys, inputs))
    decreases |inputs|
  {
    if inputs == [] {
      assert past + inputs == past;
    } else {
      StepFrom(past, sys, inputs[0]);
      RunFrom(past + [inputs[0]], Step(sys, inputs[0]), inputs[1..]);
      assert past + inputs == (past + [inputs[0]]) + inputs[1..];
    }
  }

  // For every run, over any number of services. A success is not encrypted or decrypted; the server brought it as it
  // is, or brought it unreadable and crypto decrypted it; and it has the id asked for, or that of a reply to /event
  // for it. A failure has its reason in a step that served the request: the server's own error, a lack of keys or a
  // failed decryption once no sync was allowed, or, for an unknown one, a /sync that was to start or came too late.
  lemma EveryAnswerIsJustified(token: Option<Token>, rooms: map<string, RoomReplay.RoomView>, inputs: seq<Input>,
                               o: Outcome)
    requires Runs(Initial(token, rooms), inputs)
    requires o in Run(Initial(token, rooms), inputs).reported + Run(Initial(token, rooms), inputs).service.outcomes
    ensures Justified(inputs, o)
  {
    RunFrom([], Initial(token, rooms), inputs);
    assert [] + inputs == inputs;
  }
}
