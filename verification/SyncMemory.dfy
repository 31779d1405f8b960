/** What the service remembers: a request answered with success is answered again from memory. */
module SyncMemory {
  import opened Basics
  import opened SyncMerge
  import opened SyncStore
  import opened SyncService
  import opened SyncSystem

  ghost predicate Remembers(s: Service, eventId: string, e: Event) {
    eventId in s.cachedEvents && s.cachedEvents[eventId] == e && Readable(e)
  }

  // Serving a request either waits or reports one outcome; a success is remembered under the event id.
  ghost predicate Remembered(s: Service, t: Service, rid: nat, eventId: string) {
    && (t.outcomes == s.outcomes ||
        exists reply ::
          && t.outcomes == s.outcomes + [Outcome(rid, reply)]
          && (reply.Success? ==> Remembers(t, eventId, reply.value)))
    && (forall id, e | id in s.cachedEvents && Remembers(s, id, e) :: Remembers(t, id, e))
  }

  lemma EncryptionRemembers(s: Service, cache: Cache, rid: nat, request: Request, allowSync: bool, event: Event,
                            keys: Keys)
    requires request.eventId in s.cachedEvents && s.cachedEvents[request.eventId] == event
    ensures Remembered(s, AfterEncryption(s, cache, rid, request, allowSync, event, keys), rid, request.eventId)
  {
    var t := AfterEncryption(s, cache, rid, request, allowSync, event, keys);
    if t.outcomes != s.outcomes {
      var reply := t.outcomes[|s.outcomes|].reply;
      assert t.outcomes == s.outcomes + [Outcome(rid, reply)];
      assert reply.Success? ==> Remembers(t, request.eventId, reply.value);
    }
  }

  lemma LookupRemembers(s: Service, cache: Cache, rid: nat, request: Request, allowSync: bool, keys: Keys)
    ensures Remembered(s, AfterLookup(s, cache, rid, request, allowSync, keys), rid, request.eventId)
  {
    var event := cache.Event(request.eventId, request.roomId);
    if request.eventId in s.cachedEvents {
      EncryptionRemembers(s, cache, rid, request, allowSync, s.cachedEvents[request.eventId], keys);
    } else if event.Some? {
      var s' := s.(cachedEvents := s.cachedEvents[request.eventId := event.value]);
      EncryptionRemembers(s', cache, rid, request, allowSync, event.value, keys);
      assert forall id, e | id in s.cachedEvents && Remembers(s, id, e) :: Remembers(s', id, e);
    } else if allowSync && StreamToken(s, cache).None? {
      assert AfterLookup(s, cache, rid, request, allowSync, keys).outcomes ==
             s.outcomes + [Outcome(rid, Failure(Unknown))];
    }
  }

  // ---------- Over a run ----------

  // The steps that serve a request.
  predicate Serving(input: Input) {
    input.Begin? || input.SyncReply? || input.CryptoDone? || input.EventReply?
  }

  function RequestOf(sys: Sys, input: Input): Request
    requires Serving(input) && Enabled(sys, input)
  {
    if input.Begin? then input.request else sys.service.pending[input.rid].request
  }

  // The service takes in another copy of the event: a second request was already waiting for it.
  predicate Refetches(sys: Sys, input: Input, eventId: string)
    requires Enabled(sys, input)
  {
    input.EventReply? && input.event.Success? && RequestOf(sys, input).eventId == eventId
  }

  lemma ServingRemembers(sys: Sys, input: Input)
    requires Serving(input) && Enabled(sys, input)
    ensures
      var s, t := sys.service, Step(sys, input).service;
      && (t.outcomes == s.outcomes ||
          exists reply ::
            && t.outcomes == s.outcomes + [Outcome(input.rid, reply)]
            && (reply.Success? ==> Remembers(t, RequestOf(sys, input).eventId, reply.value)))
      && (forall id, e | Remembers(s, id, e) && !Refetches(sys, input, id) :: Remembers(t, id, e))
  {
    var s, cache, t := sys.service, sys.cache, Step(sys, input).service;
    match input
    case Begin(rid, request, queued, allowSync, keys) =>
      var s' := s.(started := s.started + {rid},
                   busy := if queued then Some(rid) else s.busy,
                   storeToken := if allowSync then sys.token else s.storeToken);
      LookupRemembers(s', if allowSync then Refreshed(s, cache, sys.token) else cache, rid, request, allowSync, keys);
      assert forall id, e :: Remembers(s, id, e) ==> Remembers(s', id, e);
    case SyncReply(rid, reply, _) =>
      if reply.Failure? || !s.alive {
        assert t.outcomes == s.outcomes + [Outcome(rid, Failure(if reply.Failure? then reply.error else Unknown))];
      }
    case CryptoDone(rid, _, keys) =>
      LookupRemembers(s, cache, rid, s.pending[rid].request, false, keys);
      LaunchRemembers(s, cache, rid, s.pending[rid].request);
    case EventReply(rid, reply, keys) =>
      FetchRemembers(s, cache, rid, reply, keys);
  }

  lemma LaunchRemembers(s: Service, cache: Cache, rid: nat, request: Request)
    ensures Remembered(s, Launch(s, cache, rid, request), rid, request.eventId)
  {
  }

  lemma FetchRemembers(s: Service, cache: Cache, rid: nat, reply: Reply, keys: Keys)
    requires rid in s.pending && s.pending[rid].Fetching?
    ensures
      var t, eventId := AfterEventReply(s, cache, rid, reply, keys), s.pending[rid].request.eventId;
      && (t.outcomes == s.outcomes ||
          exists answer ::
            && t.outcomes == s.outcomes + [Outcome(rid, answer)]
            && (answer.Success? ==> Remembers(t, eventId, answer.value)))
      && (forall id, e | Remembers(s, id, e) && !(reply.Success? && id == eventId) :: Remembers(t, id, e))
  {
  }

  // The same service goes on, and does not fetch the event again.
  predicate NeverRefetched(sys: Sys, inputs: seq<Input>, eventId: string)
    requires Runs(sys, inputs)
    decreases |inputs|
  {
    inputs != [] ==>
      && !inputs[0].Restart? && !Refetches(sys, inputs[0], eventId)
      && NeverRefetched(Step(sys, inputs[0]), inputs[1..], eventId)
  }

  lemma {:induction false} RunRemembers(sys: Sys, inputs: seq<Input>, eventId: string, e: Event)
    requires Runs(sys, inputs) && Remembers(sys.service, eventId, e) && NeverRefetched(sys, inputs, eventId)
    ensures Remembers(Run(sys, inputs).service, eventId, e)
    decreases |inputs|
  {
    if inputs != [] {
      if Serving(inputs[0]) { ServingRemembers(sys, inputs[0]); }
      RunRemembers(Step(sys, inputs[0]), inputs[1..], eventId, e);
    }
  }

  // Once a request for an event was answered with success, and after any run that does not fetch that event
  // again, a new request for it is answered in the same step with the same event: no /sync, no /event. The room
  // it is asked for in plays no part.
  lemma AnsweredFromMemory(sys: Sys, answer: Input, inputs: seq<Input>, again: Input, e: Event)
    requires Serving(answer) && Enabled(sys, answer)
    requires Step(sys, answer).service.outcomes == sys.service.outcomes + [Outcome(answer.rid, Success(e))]
    requires Runs(Step(sys, answer), inputs)
    requires NeverRefetched(Step(sys, answer), inputs, RequestOf(sys, answer).eventId)
    requires again.Begin? && again.request.eventId == RequestOf(sys, answer).eventId
    requires Enabled(Run(Step(sys, answer), inputs), again)
    ensures
      var before := Run(Step(sys, answer), inputs);
      var after := Step(before, again);
      && after.service.outcomes == before.service.outcomes + [Outcome(again.rid, Success(e))]
      && after.service.pending == before.service.pending - {again.rid}
  {
    ServingRemembers(sys, answer);
    var next := Step(sys, answer);
    var reply :| next.service.outcomes == sys.service.outcomes + [Outcome(answer.rid, reply)]
      && (reply.Success? ==> Remembers(next.service, RequestOf(sys, answer).eventId, reply.value));
    assert next.service.outcomes[|sys.service.outcomes|] == Outcome(answer.rid, reply);
    assert next.service.outcomes[|sys.service.outcomes|] == Outcome(answer.rid, Success(e));
    RunRemembers(next, inputs, RequestOf(sys, answer).eventId, e);
  }
}
