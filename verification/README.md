# A verified model of the SDN client SDK's stateful cores

This project models, in Dafny, the parts of the SDK whose correctness depends on several calls working
together, and proves what those parts are for.

* **Background sync** (`SyncMerge`, `RoomReplay`, `SyncStore`, `SyncService`, `SyncSystem`, `SyncMemory`,
  `SyncAnswers`, `SyncReplay`, `SyncHistory`, `SyncDelivery`). A notification extension fetches one event at a time. It looks in memory, in a cache
  of `/sync` responses, syncs, hunts for the decryption key in further syncs, and finally asks `/event`. Meanwhile the
  main session syncs on its own and consumes the cache. `SyncService` has one step per callback, as functions and as a
  class proved equal to them. `SyncSystem` interleaves those steps in any order with the session's handling of the
  cache, with services that end and begin anew, and with arbitrary answers of the server and the crypto module. Every
  statement there is about every run. `SyncMerge` and `RoomReplay` say what a merged response is and what a room makes
  of it; `SyncAnswers` follows each answer back to what the server brought and crypto did; `SyncHistory` and
  `SyncDelivery` follow each response from the server to the session's rooms, or to its loss.
* **Chunked key download** (`ChunkedKeys`): concurrent requests, folded in order of arrival.
* **Push rules** (`EventMatch`, `PushRules`): which field of an event a rule is tested against, and how; a flattened first-match search against the priority cascade of section 13.13 of the
  Matrix Client-Server API r0.6.1, and two separately written mentions-only checks.
* **Space counters and children** (`SpaceCounter`, `SpaceChildren`): an index recursion against sums; an event fold
  against the last write of each key, and a two-message move on top of it.
* **Threads** (`Threads`): the keyed event map, its counters, and three orders.
* **Live location** (`Beacons`, `BeaconStarts`): the life of a beacon, one live beacon per user, that of the newest start, and stop messages that come back.
* **Polls** and **Aliases**: back-filling a poll, and building and taking apart room aliases.

`Basics` holds the shared vocabulary. Where the SDK changes an object in place there is a class with its fields, and
each method is proved against a function of the old state; the lemmas are about that function.

## Where the code and the obvious claim part ways

Each of these is proved as an exact condition, or with a concrete witness.

* Merging cached responses before handing them to the session gives the membership of a one-by-one replay exactly
  when the room was never left in them, or leaving is the last word about it.
* The merge loses room state: the state events of a timeline go with it when a later timeline is limited, and those it
  keeps are read after all state sections, so an old name can overrule a new one. And a room joined again after an
  invite keeps messages that the replay flushes. `MergedReplay` has the exact condition.
* A response merged into a chunk that the session has already loaded is deleted unread. Its rooms come again, because
  the session syncs on from its own token; its to-device events do not, once the service has synced on from behind it.
* An unknown push condition does not reject a rule for good: a later satisfied one overwrites the verdict.
* Sender rules are tested against a field that events do not have, so they match nothing.
* Room rules are tested like words in a text: the rule of a room also matches a room whose id goes on after a delimiter.
* The order on events cycles when dated and undated events mix; the two thread orders put empty threads at opposite ends.
* `replaceEvent` may file an event under an id that is not its own.
* Moving a child onto itself removes it.
* "Only one live beacon per user and per room" holds after a step exactly when that step does not bring an already
  known event id back to life with a newer timestamp. Events that never change cannot do that.
* Timestamps of new beacons are whole seconds, so two starts in one second make a beacon that cannot be stopped.
* The in-memory beacon store keeps the summary it is asked to delete and drops the others.
* A negative chunk size sends no key request and reports an empty success.
* A reply to `/event` that arrives after the service was deallocated drops the completion block.

## Model

| member | source | states |
|---|---|---|
| SyncMerge.MergedEvents | SDNSDK/Background/Store/MXSyncResponseStoreManager.swift:258-308 | An event can be found in a merged room part iff it was in the new part, or in the old one and not cut off by a limited new timeline or by leaving |
| SyncMerge.FoundIff | SDNSDK/Background/Store/MXSyncResponseStoreManager.swift:204-226 | A search in a room part gives the first event with the id asked for, section by section, and none iff no section has one |
| SyncMerge.LeavingKeepsOrder | SDNSDK/Background/Store/MXSyncResponseStoreManager.swift:280-303 | A left room keeps earlier state and timeline in chronological order in front of the new ones |
| SyncMerge.EvalStanding | SDNSDK/Background/Store/MXSyncResponseStoreManager.swift:258-308 | A merge never forgets that a room was left; without it, the merged sections tell the last word |
| SyncMerge.EvalIsShape | SDNSDK/Background/Store/MXSyncResponseStoreManager.swift:258-308 | Merging responses in which a room is never left gives one normal form, whatever the bracketing: which sections end up where, which timelines are cut, which invites stay |
| RoomReplay.ApplyNew | SDNSDK/Data/EventTimeline/Room/MXRoomEventTimeline.m:429-581 | What the session makes of a part of new messages: sections, then the timeline with its state events, then invite events; flushes included |
| RoomReplay.StoresFirstSeen | SDNSDK/Data/EventTimeline/Room/MXRoomEventTimeline.m:674-715 | Whatever events come: those seen for the first time are stored in order and write the state, and an event already stored, or sent twice, changes neither |
| RoomReplay.OnlyKnownIff | SDNSDK/Data/EventTimeline/Room/MXRoomEventTimeline.m:676-680 | A timeline of events changes nothing iff each of them is stored already |
| RoomReplay.OverlapChangesNothingIff | SDNSDK/Data/EventTimeline/Room/MXRoomEventTimeline.m:509-523 | A gapless response to a joined room leaves it as it is iff all its messages are stored already |
| RoomReplay.ReplayStoresOnce | SDNSDK/Data/EventTimeline/Room/MXRoomEventTimeline.m:676-680 | For every list of responses, overlapping and repeated ones included, no id is stored twice |
| RoomReplay.ReplayStanding | SDNSDK/MXSession.m:619-760 | One-by-one replay ends with the membership of the last section naming the room |
| RoomReplay.MergedMembership | SDNSDK/Background/Store/MXSyncResponseStoreManager.swift:258-308 | For every list of responses and every way of bracketing the merges, the merged response leaves the room where a one-by-one replay does iff the room was never left or leaving is the last word |
| RoomReplay.MergedReplay | SDNSDK/Data/EventTimeline/Room/MXRoomEventTimeline.m:490-523 | For every list and bracketing: the merged response leaves membership, timeline and room state of the one-by-one replay iff it is kept: no last word on a state key is cut off with a limited timeline or, standing in a section, overruled by an uncut timeline, and nothing uncut stands before a join after an invite |
| RoomReplay.KeyKeptIff | SDNSDK/Data/EventTimeline/Room/MXRoomEventTimeline.m:682-688 | The same for one state key: where its last word stands decides whether the merge has it |
| RoomReplay.TimelineKeptIff | SDNSDK/Data/EventTimeline/Room/MXRoomEventTimeline.m:432-440 | The same for the timeline: only a room joined again after an invite, without a limited timeline, can differ |
| RoomReplay.MergeTwo | SDNSDK/Background/Store/MXSyncResponseStoreManager.swift:258-308 | The condition for one merge of two parts |
| RoomReplay.OrdinaryIsKept | SDNSDK/Data/EventTimeline/Room/MXRoomEventTimeline.m:509-523 | Gapless responses without a state section to a joined room are always kept |
| RoomReplay.GroupingIsInvisible | SDNSDK/Background/Store/MXSyncResponseStoreManager.swift:84-123 | Two bracketings of the same responses give the session the same room, always |
| RoomReplay.LimitedLosesName | SDNSDK/Background/Store/MXSyncResponseStoreManager.swift:262-269 | Witness: a name that came in a timeline is lost to the merge when a limited timeline follows |
| RoomReplay.OldNameOverrules | SDNSDK/Background/Store/MXSyncResponseStoreManager.swift:301-307 | Witness: a name in a state section is overruled by an older one in the timeline before it |
| RoomReplay.InviteFlushes | SDNSDK/Data/EventTimeline/Room/MXRoomEventTimeline.m:435-440 | Witness: invited while joined and joined again, the replay flushes the messages and the merge keeps them |
| SyncStore.EventIsNewest | SDNSDK/Background/Store/MXSyncResponseStoreManager.swift:185-226 | An event found has the id asked for and is held by the room asked for, in the newest live chunk that has one of this id; none is found iff no live chunk has one |
| SyncStore.MarkWholeList | SDNSDK/Background/Store/MXSyncResponseStoreManager.swift:74-82 | Marking the live list id by id moves it, in order, behind the outdated ones |
| SyncStore.MergedSpans | SDNSDK/Background/Store/MXSyncResponseStoreManager.swift:84-123 | Merging contiguous chunks gives one response from the first chunk's token to the last chunk's next token |
| SyncStore.DeletedValid | SDNSDK/Background/Store/SyncResponseFileStore/MXSyncResponseFileStore.swift:182-187 | Deleting ids leaves no dangling or duplicate id in either list |
| SyncStore.FileStore.AddSyncResponse | SDNSDK/Background/Store/SyncResponseFileStore/MXSyncResponseFileStore.swift:194-199 | Stores a chunk under an id never used before, at the end of the live list |
| SyncStore.FileStore.MarkOneOutdated | SDNSDK/Background/Store/SyncResponseFileStore/MXSyncResponseFileStore.swift:242-247 | Moves a live id to the end of the outdated list; unknown ids change nothing |
| SyncStore.FileStore.MarkOutdated | SDNSDK/Background/Store/SyncResponseFileStore/MXSyncResponseFileStore.swift:240-249 | Does so for each id in turn, keeping both lists free of duplicates |
| SyncStore.FileStore.DeleteSyncResponses | SDNSDK/Background/Store/SyncResponseFileStore/MXSyncResponseFileStore.swift:225-230 | Removes the files and their ids from both lists, and nothing else |
| SyncStore.StoreManager.MarkDataOutdated | SDNSDK/Background/Store/MXSyncResponseStoreManager.swift:74-82 | Empties the live list into the outdated one |
| SyncStore.StoreManager.UpdateStore | SDNSDK/Background/Store/MXSyncResponseStoreManager.swift:129-163 | Merges into the last chunk, keeping its first token, while it is under the limit; otherwise adds a chunk |
| SyncStore.StoreManager.FindEvent | SDNSDK/Background/Store/MXSyncResponseStoreManager.swift:185-226 | The backwards loop returns such an event, or none when no live chunk has one |
| SyncStore.StoreManager.MergedSyncResponse | SDNSDK/Background/Store/MXSyncResponseStoreManager.swift:84-123 | The loop merges the chunks still present, from the first one's token; none gives none |
| SyncService.CompleteAccounted | SDNSDK/Background/MXBackgroundSyncService.swift:114-121 | Calling a completion keeps every request in exactly one of: waiting, completed once, dropped |
| SyncService.LookupAccounted | SDNSDK/Background/MXBackgroundSyncService.swift:309-361 | Looking up ends in one completion or one thing to wait for, and succeeds only with a readable event |
| SyncService.LaunchAccounted | SDNSDK/Background/MXBackgroundSyncService.swift:363-381 | Launching waits for one reply, or completes once with an error when there is no token |
| SyncService.EncryptionAccounted | SDNSDK/Background/MXBackgroundSyncService.swift:268-307 | Whatever crypto answers: one completion or one relaunch; success means unencrypted or decrypted |
| SyncService.AnswersIff | SDNSDK/Background/MXBackgroundSyncService.swift:254-307 | A readable event is handed on as it is; an unreadable one is handed on clear iff crypto has the keys and decrypts it, and otherwise comes to another sync or to the reason why not |
| SyncService.NextMoveIff | SDNSDK/Background/MXBackgroundSyncService.swift:309-333 | /event is asked iff the event is neither in memory nor in the cache and no sync is allowed; a sync is launched for such an event iff one is |
| SyncService.RelaunchAfterReplyIff | SDNSDK/Background/MXBackgroundSyncService.swift:381-404 | After a reply to /sync the request syncs again iff the cache then has the event encrypted, crypto lacks its keys and the response brought to-device events |
| SyncService.BeginAccounted | SDNSDK/Background/MXBackgroundSyncService.swift:242-251 | A new request is accounted for from its first step |
| SyncService.SyncReplyAccounted | SDNSDK/Background/MXBackgroundSyncService.swift:381-418 | A reply to /sync completes once or goes on, also after deallocation |
| SyncService.DigestAccounted | SDNSDK/Background/MXBackgroundSyncService.swift:393-404 | The relaunch test leaves one request in hand, whatever crypto answers twice |
| SyncService.EventReplyAccounted | SDNSDK/Background/MXBackgroundSyncService.swift:335-358 | A reply to /event completes once while the service lives; only a deallocated service drops |
| SyncService.BackgroundSyncService.LaunchBackgroundSync | SDNSDK/Background/MXBackgroundSyncService.swift:363-381 | Syncs from the end of the cached chain, else from the store's token, else fails |
| SyncService.BackgroundSyncService.HandleDecryptionFailure | SDNSDK/Background/MXBackgroundSyncService.swift:254-264 | Relaunches if syncing is allowed, else fails with the error given or the default one |
| SyncService.BackgroundSyncService.HandleEncryption | SDNSDK/Background/MXBackgroundSyncService.swift:268-307 | Follows the encryption cases; a decrypted event stays decrypted in memory |
| SyncService.BackgroundSyncService.UpdateBackgroundServiceStoresIfNeeded | SDNSDK/Background/MXBackgroundSyncService.swift:458-486 | Takes the session's token, and outdates the live chunks iff its token or the chain's start differs from it |
| SyncService.BackgroundSyncService.LookUp | SDNSDK/Background/MXBackgroundSyncService.swift:309-361 | Memory, then cache, then sync if allowed, then /event |
| SyncService.BackgroundSyncService.FetchEvent | SDNSDK/Background/MXBackgroundSyncService.swift:109-122 | A queued request refreshes the stores and is looked up; the whole new state of service and cache |
| SyncService.BackgroundSyncService.OnSyncReply | SDNSDK/Background/MXBackgroundSyncService.swift:381-418 | Caches the response under the token it was asked from; reports errors and late replies |
| SyncService.BackgroundSyncService.OnCryptoDone | SDNSDK/Background/MXBackgroundSyncService.swift:393-404 | Relaunches iff the event is cached, unreadable, and the batch held to-device events |
| SyncService.BackgroundSyncService.OnEventReply | SDNSDK/Background/MXBackgroundSyncService.swift:335-358 | Remembers and decrypts the fetched event, reports the error, or drops when deallocated |
| SyncSystem.StepAccounted | SDNSDK/Background/MXBackgroundSyncService.swift:242-419 | Every step of the whole system keeps the accounting |
| SyncSystem.EveryRunCompletesOnce | SDNSDK/Background/MXBackgroundSyncService.swift:242-419 | For every run, over any number of services: no completion twice, every success readable, and each request of the living service is waiting or completed, never both |
| SyncSystem.QueueIsNeverStuck | SDNSDK/Background/MXBackgroundSyncService.swift:112-122 | For every run: the request that holds the task queue of a living service is still waiting for something, so each completion gives it back |
| SyncSystem.EveryRunStoresOnce | SDNSDK/Data/EventTimeline/Room/MXRoomEventTimeline.m:676-680 | For every run: no room of the session stores two messages of one id |
| SyncSystem.UpdatedChain | SDNSDK/Background/Store/MXSyncResponseStoreManager.swift:129-163 | Storing a response asked from the chain's end keeps one contiguous chain with the same start |
| SyncSystem.UpdatedSnapshot | SDNSDK/MXSession.m:2094-2111 | Responses stored while the session works keep its snapshot contiguous from its token |
| SyncSystem.OutdatedInv | SDNSDK/Background/MXBackgroundSyncService.swift:475-486 | Outdating the cache under a working session harms neither its snapshot nor its clean-up |
| SyncSystem.DeletedInv | SDNSDK/MXSession.m:2141-2148 | The session's clean-up deletes a prefix of the live chain, so the rest is still one chain |
| SyncSystem.StepGapFree | SDNSDK/MXSession.m:2062-2166 | Every step of service, session and server keeps the system free of gaps |
| SyncSystem.NoGapInAnyRun | SDNSDK/MXSession.m:2062-2166 | For every interleaving, new services over a persisted cache included: the stretches the session takes in join end to end and end at its token, and a /sync in flight starts where the cached chain ends |
| SyncSystem.ConsumedGrows | SDNSDK/MXSession.m:802 | What the session took in is never taken back |
| SyncSystem.StepAnchored | SDNSDK/Background/MXBackgroundSyncService.swift:458-486 | A step keeps every request that syncs anchored at the session's token |
| SyncSystem.EverySyncAnchored | SDNSDK/Background/MXBackgroundSyncService.swift:367-393 | Over every run in which the session moves between requests, the anchoring holds |
| SyncSystem.SyncsSkipNothing | SDNSDK/Background/MXBackgroundSyncService.swift:367-393 | In such a run every /sync starts at the session's token, or at the end of a contiguous chain of cached responses that begins there |
| SyncSystem.SessionMayOvertake | SDNSDK/Background/MXBackgroundSyncService.swift:248-251 | Witness: when the session syncs during a request, the /sync of that request is left behind the session's token |
| SyncSystem.BeginKeepsCacheIff | SDNSDK/Background/MXBackgroundSyncService.swift:458-486 | A request leaves the live chunks alone iff it may not sync, or there are none, or both the loaded store and the first chunk are at the session's token; otherwise it outdates them all |
| SyncSystem.RestartUsesCache | SDNSDK/Background/MXBackgroundSyncService.swift:79-91 | A new service goes on with the chunks it finds in the persisted cache iff they begin at the session's token |
| SyncSystem.StepHunt | SDNSDK/Background/MXBackgroundSyncService.swift:395-403 | Each sync of a request uses up its allowance, measured by the to-device events still to come |
| SyncSystem.HuntTerminates | SDNSDK/Background/MXBackgroundSyncService.swift:363-404 | The syncs a request has made and may still make, one perhaps in flight, are bounded by its allowance, plus one pass over the stream for each clean-up by the session |
| SyncSystem.RequestSyncsBounded | SDNSDK/Background/MXBackgroundSyncService.swift:254-264 | With D to-device events in the stream and an undisturbed cache, a request makes at most D + 1 syncs, the one in flight included |
| SyncSystem.CallbacksTerminate | SDNSDK/Background/MXBackgroundSyncService.swift:363-419 | The callbacks a request can still receive shrink with each one |
| SyncSystem.AnsweredRequestCompletes | SDNSDK/Background/MXBackgroundSyncService.swift:242-419 | Once that many callbacks were answered, a living service that was given the request has completed it |
| SyncMemory.ServingRemembers | SDNSDK/Background/MXBackgroundSyncService.swift:309-351 | A step reports at most one outcome; a success is remembered under the event id, and nothing remembered is lost unless fetched anew |
| SyncMemory.AnsweredFromMemory | SDNSDK/Background/MXBackgroundSyncService.swift:309-312 | After a success and any run that does not fetch the event again, a new request for it is answered at once with the same event |
| SyncAnswers.StepFrom | SDNSDK/Background/MXBackgroundSyncService.swift:242-361 | Every step keeps every event in memory and in the cache one that the server brought, or brought unreadable and crypto decrypted |
| SyncAnswers.EveryAnswerIsJustified | SDNSDK/Background/MXBackgroundSyncService.swift:242-419 | For every run, over any number of services: a success is unencrypted or decrypted, was brought by the server or decrypted from what it brought, and is for the id asked for; a failure is the server's own, crypto's when no sync is allowed, or that of a sync that could not start or came too late |
| SyncReplay.ReadBackIsBracketing | SDNSDK/MXSession.m:2123-2139 | What the session reads back of an undisturbed cache is some bracketing of exactly the responses stored |
| SyncReplay.CacheRefinesReplay | SDNSDK/MXSession.m:2123-2139 | For every room and list of responses: reading an undisturbed cache back equals replaying them, with the exact condition for membership and for the whole room |
| SyncReplay.SizeLimitIsInvisible | SDNSDK/Background/Store/MXSyncResponseStoreManager.swift:23-26 | Two caches fed the same responses under different size limits give the session the same room |
| SyncReplay.ToDeviceConserved | SDNSDK/Background/Store/MXSyncResponseStoreManager.swift:84-123 | From an undisturbed cache the session reads every to-device event once and in order |
| SyncReplay.MergedPlan | SDNSDK/Background/Store/MXSyncResponseStoreManager.swift:84-123 | For any list of chunks, the merged response says of each room one bracketing of what the responses behind the chunks say |
| SyncReplay.UpdatedOrigin | SDNSDK/Background/Store/MXSyncResponseStoreManager.swift:129-163 | A response stored is one more behind the live chunks, at their end |
| SyncReplay.BatchesTellStanding | SDNSDK/MXSession.m:2123-2139 | For every list of batches: the session's membership of a room is that of the replay iff the last batch that names the room tells it |
| SyncReplay.BatchesInStep | SDNSDK/MXSession.m:2123-2139 | For every list of batches: the session's room is in step with the replay after each batch iff every batch is kept |
| SyncHistory.ContentStep | SDNSDK/Background/Store/MXSyncResponseStoreManager.swift:129-163 | Every step keeps each chunk the merge of the responses stored in it, asked for one after the other |
| SyncHistory.TakenStep | SDNSDK/MXSession.m:585-830 | Every step keeps the session's rooms, to-device events, log and token those of the responses it has taken in |
| SyncHistory.SessionTookIn | SDNSDK/MXSession.m:2062-2166 | For every interleaving: the responses taken in join end to end from the first token to the present one and cover the logged stretches; every to-device event of theirs has arrived, in order; each room is as reading them batch by batch leaves it |
| SyncHistory.SessionIsReplay | SDNSDK/MXSession.m:2062-2166 | For every interleaving and room: its membership is that of replaying those responses iff the last batch naming it tells it, and the whole room is in step after every batch iff every batch is kept |
| SyncDelivery.DeliveryStep | SDNSDK/MXSession.m:2113-2165 | Every step keeps each cached response in one chunk, and what is read apart from what is cached until the clean-up |
| SyncDelivery.EveryResponseOnce | SDNSDK/MXSession.m:2113-2165 | For every interleaving: the session takes no response in twice, and none it has read survives the clean-up |
| SyncDelivery.LostIff | SDNSDK/MXSession.m:2141-2158 | A step loses a stored response iff it deletes it unread: its chunk was outdated, or it was merged into a chunk after the session had loaded it, or stored just before the final wipe; and then for good |
| SyncDelivery.QuietHandlingReadsAll | SDNSDK/MXSession.m:2094-2148 | A session that finds its token and is left alone until it has cleaned up reads every live response |
| SyncDelivery.KeyIsLost | SDNSDK/MXSession.m:2141-2148 | Witness: a key merged into a chunk already loaded is deleted unread, while a /sync that acknowledges it is on its way |
| ChunkedKeys.ReducedOutcome | SDNSDK/Contrib/Swift/MXResponse.swift:129-141 | The fold succeeds iff every reply did; otherwise it is the first failure to have arrived |
| ChunkedKeys.LastReplyWins | SDNSDK/Categories/MXKeysQueryResponse+Extensions.swift:22-40 | Each merged entry, device or cross-signing, is that of the last reply to have one |
| ChunkedKeys.PlusCommutesIff | SDNSDK/Utils/Categories/NSDictionary.swift:26-45 | Two replies may be merged in either order iff they agree wherever both have an entry |
| ChunkedKeys.PlusEntries | SDNSDK/Categories/MXKeysQueryResponse+Extensions.swift:22-40 | The merge is a per-user, per-device union in which the right side wins |
| ChunkedKeys.AnswersAdd | SDNSDK/Categories/MXKeysQueryResponse+Extensions.swift:22-40 | Merging the answers for two lists is the answer for both |
| ChunkedKeys.ChunksPartition | SDNSDK/Utils/Categories/Array.swift:27-31 | The chunks concatenate to the list, none is empty and none too long |
| ChunkedKeys.StepInv | SDNSDK/Categories/MXRestClient+Extensions.swift:55-88 | Every callback keeps: what is gathered is the answer for the users of the chunks that replied |
| ChunkedKeys.ChunksRefineOneRequest | SDNSDK/Categories/MXRestClient+Extensions.swift:49-88 | For every order of arrival: at most one callback, after the last chunk; success iff all chunks succeeded, with the answer of one request for the whole list |
| ChunkedKeys.CancelledStaysSilent | SDNSDK/Categories/MXRestClient+Extensions.swift:75-78 | A cancelled download never calls back |
| ChunkedKeys.WholeAnswerIffPositive | SDNSDK/Categories/MXRestClient+Extensions.swift:31-91 | When all goes well the caller gets the whole answer iff the list fits in one request or the chunk size is positive |
| ChunkedKeys.ChunkedDownload.OnReply | SDNSDK/Categories/MXRestClient+Extensions.swift:57-70 | A reply is passed on directly, or appended in order of arrival |
| ChunkedKeys.ChunkedDownload.OnGroupEmpty | SDNSDK/Categories/MXRestClient+Extensions.swift:72-88 | Folds the replies and calls back once, unless cancelled |
| PushRules.VerdictDiffersIff | SDNSDK/Background/MXBackgroundPushRulesManager.swift:135-153 | The verdict on a condition list differs from "all hold" iff an unknown condition is followed by a known last one and all known ones hold |
| PushRules.UnknownConditionIsOverwritten | SDNSDK/Background/MXBackgroundPushRulesManager.swift:141-152 | Witness: an unknown condition before a satisfied one is accepted, after it is not |
| PushRules.FirstMatchIsFirst | SDNSDK/Background/MXBackgroundPushRulesManager.swift:128-186 | The result matches and no earlier rule does; none iff no rule matches |
| PushRules.FlatRefinesCascade | SDNSDK/Background/MXBackgroundPushRulesManager.swift:23-47 | The flat first match is the priority cascade: override, content, room, sender, underride |
| PushRules.FlatMeetsSpecification | SDNSDK/Background/MXBackgroundPushRulesManager.swift:107-187 | The rule chosen is that of the specification's cascade iff it has forgotten no unknown condition and names the room, if it is for one, and each sender rule for the sender, or room rule that fails to match its own room, stands behind a rule that matches |
| PushRules.RoomRuleIff | SDNSDK/Background/MXBackgroundPushRulesManager.swift:160-165 | A room rule matches iff it is enabled and its id stands in the room id of the event as a word |
| PushRules.RoomRuleMatchesItsRoom | SDNSDK/Background/MXBackgroundPushRulesManager.swift:160-165 | An enabled room rule matches every event of the room it names |
| PushRules.RoomRuleReachesIff | SDNSDK/NotificationCenter/Checker/MXPushRuleEventMatchConditionChecker.m:83-92 | Among room ids, it matches exactly those that begin like its own and end there or go on with a delimiter |
| PushRules.RoomRuleReachesLongerDomain | SDNSDK/NotificationCenter/Checker/MXPushRuleEventMatchConditionChecker.m:83-92 | Witness: the rule for "!r:x" matches a message in "!r:x.org", which the specification does not ask for |
| PushRules.SenderRuleMatchesNothing | SDNSDK/JSONModels/MXEvent.m:426-461 | A sender rule matches no event, since the dictionary of an event has no user id |
| PushRules.ContentRuleIff | SDNSDK/Background/MXBackgroundPushRulesManager.swift:154-159 | A content rule matches iff it is enabled and its pattern is found in the body: "@room" to the letter, others as words |
| PushRules.FieldConditionIff | SDNSDK/NotificationCenter/Checker/MXPushRuleEventMatchConditionChecker.m:27-81 | A condition on a field of the event holds iff its pattern stands in that field as a word |
| PushRules.ChosenTestsItsField | SDNSDK/Background/MXBackgroundPushRulesManager.swift:128-187 | A chosen rule is enabled and meets its own field or conditions, and is never a sender rule |
| PushRules.RoomRuleIsChosen | SDNSDK/Background/MXBackgroundPushRulesManager.swift:128-187 | An enabled room rule is chosen for every event of its room unless an earlier rule matches |
| PushRules.MentionsOnlyIff | SDNSDK/Background/MXBackgroundPushRulesManager.swift:79-99 | Each check says mentions-only iff the first rule of the room it looks at is enabled and has no action, or one not to notify |
| PushRules.LastResponseIsLast | SDNSDK/Background/MXBackgroundPushRulesManager.swift:65-74 | The push rules after some account data are those of its last push-rules event with a content, or the former ones |
| EventMatch.GlobOfConcat | SDNSDK/NotificationCenter/Checker/MXPushRuleEventMatchConditionChecker.m:83-92 | Two globs in a row match two pieces in a row, cut anywhere |
| EventMatch.GlobOfOne | SDNSDK/NotificationCenter/Checker/MXPushRuleEventMatchConditionChecker.m:83-92 | A star matches any text on one line, a question mark or a dot one character of it, any other character itself in either case |
| EventMatch.PlainFoundIff | SDNSDK/NotificationCenter/Checker/MXPushRuleEventMatchConditionChecker.m:76-79 | A pattern without stars and operators is found iff it stands somewhere in the value with no word character beside it |
| PushRules.ChecksAgree | SDNSDK/Space/MXSpaceNotificationCounter.swift:218-241 | The two mentions-only checks agree iff the room has no rule, or its first rule is well typed, or has the verdict of the first well-typed one |
| PushRules.ParsedChecksAgree | SDNSDK/JSONModels/MXJSONModels.m:714-756 | Parsed rules have no action of another class, so on them the two checks always agree |
| PushRules.BackgroundPushRulesManager.SetPushRulesResponse | SDNSDK/Background/MXBackgroundPushRulesManager.swift:23-47 | After an assignment the flat list is the five kinds in priority order, failed casts left out |
| PushRules.BackgroundPushRulesManager.HandleAccountData | SDNSDK/Background/MXBackgroundPushRulesManager.swift:65-74 | The last push-rules event with a content wins, and the flat list follows it |
| PushRules.BackgroundPushRulesManager.ConditionsOk | SDNSDK/Background/MXBackgroundPushRulesManager.swift:135-153 | The loop accepts iff every condition with a checker holds and the list does not end on one without |
| PushRules.BackgroundPushRulesManager.RuleApplies | SDNSDK/Background/MXBackgroundPushRulesManager.swift:132-179 | Conditions for override and underride; the body, the room id or the user id against the pattern or the rule id for the others; never for an unknown kind |
| PushRules.BackgroundPushRulesManager.FirstApplicable | SDNSDK/Background/MXBackgroundPushRulesManager.swift:128-186 | The loop over the enabled rules returns the first match |
| PushRules.BackgroundPushRulesManager.PushRule | SDNSDK/Background/MXBackgroundPushRulesManager.swift:107-187 | None for the user's own events, otherwise the first enabled match |
| PushRules.BackgroundPushRulesManager.IsRoomMentionsOnly | SDNSDK/Background/MXBackgroundPushRulesManager.swift:79-99 | The enabled flag of the first rule with the room's id, if it has no action or a dont-notify one |
| PushRules.IsRoomMentionsOnlyInCounter | SDNSDK/Space/MXSpaceNotificationCounter.swift:218-241 | The same for the first rule of the room whose actions are all well typed |
| SpaceCounter.PlusLaws | SDNSDK/Space/MXSpaceNotificationState.swift:35-56 | The counters form a commutative monoid, and the overall counts add up |
| SpaceCounter.RoomCategories | SDNSDK/Space/MXSpaceNotificationCounter.swift:186-216 | Each category of an unread room; a room without a count that matters, by highlights when it is mentions-only, adds nothing unless it is an invite |
| SpaceCounter.RoomCounts | SDNSDK/Space/MXSpaceNotificationCounter.swift:186-216 | An unread room counts twice if favourite, once if direct or untagged, and not at all as a group with other tags only; an invite counts one |
| SpaceCounter.SharesIff | SDNSDK/Space/MXSpaceNotificationCounter.swift:153-183 | Unknown rooms and spaces add nothing; any other room adds the same to the home state and to each of its ancestors, and nothing elsewhere |
| SpaceCounter.OrderOfRoomsIsInvisible | SDNSDK/Space/MXSpaceNotificationCounter.swift:137-184 | Permuting the rooms changes no counter and no entry |
| SpaceCounter.SpacesTotal | SDNSDK/Space/MXSpaceNotificationCounter.swift:174-180 | Summing space by space equals summing room by room, each as often as it has listed ancestors |
| SpaceCounter.TotalsAreSane | SDNSDK/Space/MXSpaceNotificationCounter.swift:186-216 | If every room has no more highlights than notifications, so has every reachable state |
| SpaceCounter.ComputeNotificationState | SDNSDK/Space/MXSpaceNotificationCounter.swift:186-216 | The step-by-step counters of one room are its declared contribution |
| SpaceCounter.AddRoom | SDNSDK/Space/MXSpaceNotificationCounter.swift:164-183 | One room adds its contribution to the home state and to each listed ancestor, once per occurrence |
| SpaceCounter.SpaceNotificationCounter.ComputeAt | SDNSDK/Space/MXSpaceNotificationCounter.swift:137-184 | From any index the recursion adds the sums over the remaining rooms |
| SpaceCounter.SpaceNotificationCounter.ComputeNotificationCount | SDNSDK/Space/MXSpaceNotificationCounter.swift:81-106 | The home state sums all counted rooms; a space has an entry iff one lies under it, and the entry is their sum |
| SpaceCounter.SpaceNotificationCounter.StateForAllSpacesExcept | SDNSDK/Space/MXSpaceNotificationCounter.swift:120-128 | In any enumeration order, the sum of all entries but one |
| SpaceCounter.StatesAreConserved | SDNSDK/Space/MXSpaceNotificationCounter.swift:112-128 | One space plus all the others make up everything, whatever the enumeration orders |
| SpaceCounter.AllSpacesCountEachRoomPerAncestor | SDNSDK/Space/MXSpaceNotificationCounter.swift:120-184 | The state of all spaces is each room's state times its listed ancestors |
| SpaceChildren.FoldIsLastWrite | SDNSDK/Space/MXSpace.swift:101-121 | For every event sequence: no duplicate child; the children are the keys whose last event adds, the suggested ones those whose last event says so |
| SpaceChildren.ChildIff | SDNSDK/Space/MXSpace.swift:101-121 | A room is a child iff its last event has a content that is not empty, and a suggested one iff that content has the flag and it is true |
| SpaceChildren.BirthSinceRemoval | SDNSDK/Space/MXSpace.swift:101-121 | Each child has a birth: its first adding event since its last removal |
| SpaceChildren.BirthIsUnique | SDNSDK/Space/MXSpace.swift:101-121 | A key has one birth at most |
| SpaceChildren.ChildrenInBirthOrder | SDNSDK/Space/MXSpace.swift:101-121 | The children are listed in the order of their births |
| SpaceChildren.MoveKeepsOne | SDNSDK/Space/MXSpace.swift:218-242 | At every moment of a move between two rooms, with any message refused or its reply lost, one of them is a child |
| SpaceChildren.CompleteMove | SDNSDK/Space/MXSpace.swift:218-242 | A complete move puts the new room in with the old flag, takes the old one out and changes nothing else; it keeps the new room iff the ids differ |
| SpaceChildren.MoveCopiesContent | SDNSDK/Space/MXSpace.swift:218-242 | The last event of the new room has the whole content of the old one's, and that of the old room an empty one |
| SpaceChildren.FlagOnly | SDNSDK/Space/MXSpace.swift:253-271 | Setting the flag of a child changes that flag alone, not even the order |
| SpaceChildren.Space.ReadChildRooms | SDNSDK/Space/MXSpace.swift:91-121 | The in-place loop computes the fold; without a room nothing changes |
| SpaceChildren.Space.MoveChild | SDNSDK/Space/MXSpace.swift:218-242 | Errors without sending when there is no room or no valid child; otherwise the two-message move |
| SpaceChildren.Space.SetChild | SDNSDK/Space/MXSpace.swift:253-271 | Errors without sending when there is no room or no valid child; otherwise one message |
| SpaceChildren.Space.UpdateChildSpaces | SDNSDK/Space/MXSpace.swift:276-284 | The child spaces are the children that are spaces, in order |
| Threads.NewerOnDated | SDNSDK/Threads/MXThread.swift:254-260 | On events with a timestamp the order is a strict weak order |
| Threads.NewerOnConsistent | SDNSDK/Threads/MXThread.swift:254-260 | It stays one on any set where timestamps and ages tell the same story |
| Threads.CycleIff | SDNSDK/Threads/MXThread.swift:254-260 | Two dated events form a cycle with some undated one iff the one with the older timestamp is the younger by age, with room between |
| Threads.ThreadOrders | SDNSDK/Threads/MXThread.swift:226-241 | On dated or empty threads both thread orders are strict weak orders |
| Threads.ThreadOrdersDisagree | SDNSDK/Threads/MXThreadModel.swift:81-96 | They differ exactly on pairs with one empty thread: the one puts it first, the other last |
| Threads.LastMessageIsNewest | SDNSDK/Threads/MXThread.swift:125-128 | Whatever the sort does with ties, the last message has a greatest timestamp; none iff there is no event |
| Threads.KeysAreAddedNotRedacted | SDNSDK/Threads/MXThread.swift:64-103 | For every run an id is a key iff the last operation on it adds it, or there is none and it was a key |
| Threads.StepKeepsKeyingIff | SDNSDK/Threads/MXThread.swift:83-94 | A step breaks "filed under its own id" iff it replaces a present event by a readable one with another id |
| Threads.RunKeepsKeying | SDNSDK/Threads/MXThread.swift:64-103 | Every run whose replacements keep ids keeps the keying |
| Threads.RepliesMoveByOne | SDNSDK/Threads/MXThread.swift:131-133 | A new event in the thread that is not its root adds one reply, a redacted one takes one away, a replacement counts as it is, and nothing else moves the number |
| Threads.HighlightIsLastPositive | SDNSDK/Threads/MXThread.swift:194-210 | For every run the highlight count is the last positive refresh since the last reading, else zero, else the initial one |
| Threads.NotificationIsLastSignal | SDNSDK/Threads/MXThread.swift:194-210 | For every run the notification count is that of the last refresh or reading |
| Threads.Thread.AddEvent | SDNSDK/Threads/MXThread.swift:64-80 | Adds an unknown event; the counts become the store's, or zero when the user wrote the event live, and stay otherwise |
| Threads.Thread.ReplaceEvent | SDNSDK/Threads/MXThread.swift:83-94 | Replaces a known event by a readable one; the key set never changes |
| Threads.Thread.RedactEvent | SDNSDK/Threads/MXThread.swift:97-103 | Removes a known event and says whether it was known |
| Threads.Thread.UpdateNotificationsCount | SDNSDK/Threads/MXThread.swift:199-210 | Takes the store's unread count, and its highlight count only when positive |
| Beacons.LifeOfSummary | SDNSDK/LocationSharing/MXBeaconInfoSummary.swift:73-124 | For every run without an event of its own id: expiry and sharing are fixed, stopping is final, the device is set once, the last beacon is its own |
| Beacons.DeviceIsFirst | SDNSDK/LocationSharing/MXBeaconInfoSummary.swift:116-124 | For every run the device is the first one named |
| Beacons.LastBeaconIsLast | SDNSDK/LocationSharing/MXBeaconInfoSummary.swift:104-114 | For every run the last beacon is the last of its own to come |
| Beacons.NeverActiveAgain | SDNSDK/LocationSharing/MXBeaconInfoSummary.swift:32-46 | Once inactive it is inactive at every later time, whatever happens |
| Beacons.BeaconInfoSummary.UpdateWithBeaconInfo | SDNSDK/LocationSharing/MXBeaconInfoSummary.swift:73-102 | Takes an info of its own event, or a stop of the same sharing; says whether it did |
| Beacons.OneLiveIff | SDNSDK/Aggregations/LocationSharing/MXBeaconAggregations.swift:244-327 | A step keeps one live beacon per user iff it does not revive a known event id beside another live one |
| Beacons.OneLiveInEveryRun | SDNSDK/Aggregations/LocationSharing/MXBeaconAggregations.swift:312-318 | From an empty room and immutable events, never two live beacons of one user |
| Beacons.AgainKeepsOneLiveIff | SDNSDK/Aggregations/LocationSharing/MXBeaconAggregations.swift:266-272 | The exact condition for the branch of a known event id |
| Beacons.StopKeepsOneLive | SDNSDK/Aggregations/LocationSharing/MXBeaconAggregations.swift:253-264 | A stop never makes a second live beacon |
| Beacons.NewKeepsOneLive | SDNSDK/Aggregations/LocationSharing/MXBeaconAggregations.swift:273-321 | A start never leaves a second live beacon, even when it comes in late |
| BeaconStarts.NewestStartWins | SDNSDK/Aggregations/LocationSharing/MXBeaconAggregations.swift:299-321 | A start that no summary of its user is newer than becomes the user's only live beacon; the user's others stop, and nobody else's change |
| BeaconStarts.LateStartComesStopped | SDNSDK/Aggregations/LocationSharing/MXBeaconAggregations.swift:288-316 | A start that some summary of its user is newer than is stored stopped; a newest one stays as it was, and the user's others stop |
| BeaconStarts.NewestStartLivesInEveryRun | SDNSDK/Aggregations/LocationSharing/MXBeaconAggregations.swift:244-327 | From an empty room and events that never change, in any order, with stops: a live beacon is that of its user's newest start; without stops, each user who started has one |
| Beacons.LatestIsLatest | SDNSDK/Aggregations/LocationSharing/MXBeaconAggregations.swift:279-286 | The last of the sorted summaries has the greatest timestamp |
| Beacons.StopReaches | SDNSDK/LocationSharing/MXBeaconInfoSummary.swift:83-98 | The echo of a stop changes a summary iff it is the user's, live and of the same sharing, and only ends it |
| Beacons.StopRoundTrip | SDNSDK/LocationSharing/MXLocationService.swift:275-302 | Stop, echo, look up: the sharing is unchanged and the stop event is found again, unless an earlier stop of that sharing is there first |
| Beacons.StopEndsItsSummaryIff | SDNSDK/Aggregations/LocationSharing/MXBeaconAggregations.swift:253-264 | In the room's list the stop ends its own summary iff no other of that user, description, timeout and timestamp stands before it; and then it changes nothing else |
| Beacons.TwinCannotBeStopped | SDNSDK/JSONModels/Location/MXBeaconInfo.m:62-74 | Witness: two starts within one second, and the second one survives its own stop |
| Beacons.BeaconAggregations.StopAll | SDNSDK/Aggregations/LocationSharing/MXBeaconAggregations.swift:301-307 | The loop stops exactly the listed summaries, in place |
| Beacons.BeaconAggregations.AddOrUpdateBeaconInfo | SDNSDK/Aggregations/LocationSharing/MXBeaconAggregations.swift:244-327 | The whole list after an info, branch by branch |
| Beacons.BeaconAggregations.AddNew | SDNSDK/Aggregations/LocationSharing/MXBeaconAggregations.swift:273-326 | The branch of a new live info: others stopped, late ones stored stopped |
| Beacons.LocationService.StopUserLocationSharing | SDNSDK/LocationSharing/MXLocationService.swift:99-134 | Sends one stop message iff the beacon is known, the user's and live; errors send nothing |
| Beacons.LocationService.StopUserLocationSharingInRoom | SDNSDK/LocationSharing/MXLocationService.swift:143-158 | Stops the user's live beacon that expires last, iff there is one |
| Beacons.LocationService.StartUserLocationSharing | SDNSDK/LocationSharing/MXLocationService.swift:46-89 | Sends the start whether or not there was a beacon to stop, and the stop first |
| Beacons.LastExpires | SDNSDK/LocationSharing/MXLocationService.swift:335-354 | The last of the sorted live summaries is the user's, live, and expires last; none iff the user has none |
| Beacons.MemoryDeleteIsDeleteIff | SDNSDK/Aggregations/LocationSharing/Store/MXBeaconInfoSummaryMemoryStore.swift:86-97 | The memory store's delete does what its name says iff the room has no summary |
| Polls.EverythingExists | SDNSDK/Aggregations/MXAggregatedPollsUpdater.swift:74-87 | After back-filling, each event of the response has a message of its id in its room; in front of the old messages stand missing events and nothing else |
| Polls.OriginalComesFirst | SDNSDK/Aggregations/MXAggregatedPollsUpdater.swift:68-72 | The event the response relates to becomes the first message of its room, if it was missing |
| Polls.RunTwice | SDNSDK/Aggregations/MXAggregatedPollsUpdater.swift:74-87 | A second identical run changes nothing |
| Polls.NoDuplicatesIff | SDNSDK/Aggregations/MXAggregatedPollsUpdater.swift:75-82 | A room without duplicates stays so iff the response has no two events of one id that the room lacks |
| Polls.DistinctResponseNoDuplicates | SDNSDK/Aggregations/MXAggregatedPollsUpdater.swift:68-82 | A response of distinct events brings in no duplicate |
| Polls.Session.StoreIfNeeded | SDNSDK/Aggregations/MXAggregatedPollsUpdater.swift:74-87 | Each room becomes its reversed missing events before its old messages; commits iff some event had no message of its id |
| Polls.Session.StoreResponse | SDNSDK/Aggregations/MXAggregatedPollsUpdater.swift:68-72 | The same for the chunk followed by the original event |
| Aliases.NodeSuffix | SDNSDK/MXRestClient.m:475-494 | There is a suffix iff the user id has a colon, and it is what begins at the first one |
| Aliases.FullAliasShape | SDNSDK/Space/MXRoomAliasAvailabilityChecker.swift:75-81 | The alias of a user of some domain is a hash, the local part, a colon and that domain |
| Aliases.ExtractLocalAliasPart | SDNSDK/Space/MXRoomAliasAvailabilityChecker.swift:95-104 | The loop strips the leading hashes and cuts at the first colon |
| Aliases.ExtractedShape | SDNSDK/Space/MXRoomAliasAvailabilityChecker.swift:95-104 | What is extracted stands between the leading hashes and the next colon, and has neither |
| Aliases.ExtractedTwice | SDNSDK/Space/MXRoomAliasAvailabilityChecker.swift:95-104 | Extraction is idempotent on every string |
| Aliases.AliasRoundTrip | SDNSDK/Space/MXRoomAliasAvailabilityChecker.swift:75-81 | For strings taken character by character, and every user: the local part comes back iff it has no colon and no leading hash; every accepted one does |
| Aliases.ValidPartOfChar | SDNSDK/Space/MXRoomAliasAvailabilityChecker.swift:87-89 | Capitals become small, spaces dashes, accepted characters stay and others go |
| Aliases.ValidPartOfConcat | SDNSDK/Space/MXRoomAliasAvailabilityChecker.swift:87-89 | The cleaning works character by character |
| Aliases.ValidPartIsValid | SDNSDK/Space/MXRoomAliasAvailabilityChecker.swift:87-89 | For every string the cleaned part has accepted characters only, no capitals, and cleaning again changes nothing |
| Aliases.ValidPartRoundTrip | SDNSDK/Space/MXRoomAliasAvailabilityChecker.swift:75-104 | A cleaned part survives building and extracting for every user |
| Aliases.AvailabilityIff | SDNSDK/Space/MXRoomAliasAvailabilityChecker.swift:45-66 | Invalid iff the part is empty or has a character other than letters, digits, dash and underscore; for others, available iff the server answers 404 for the full alias, not available iff it resolves, and an error otherwise |

## Left out

- Requests, replies, queues, notifications, logging and file paths: they become inputs and steps. One step, such as reading the two id lists of the cache, is atomic.
- Decryption, key storage and the reset of the legacy crypto store: two answers of an oracle. That decryption changes the event object in place is modelled on the copy the service remembers.
- Room summaries, profiles, account data in the cache, read markers' account data, and auto-accepted invites: easy members.
- Ephemeral events, pagination tokens and unread counts in the merge of two responses: they do not reach the room state or the timeline.
- The session's state machine outside the handling of the background cache: it syncs, checks, loads, handles and cleans up in any order its phases allow.
- RoomReplay.MergedReplay: for a room that is never left, supposes that the server sends each message of it once and none the session already stores. Membership has no such supposition.
- SyncReplay.BatchesInStep: makes the same supposition, batch by batch.
- Room state is the last event of each key; redactions of stored events, and the code that keeps every event of a type, are not modelled.
- A session that is killed while it handles the cache, and requests of a service still unanswered when another one begins.
- SyncSystem.SyncsSkipNothing: supposes that the session moves only between requests that hold the queue; NoGapInAnyRun does not.
- SyncSystem.RequestSyncsBounded: supposes that the session does not clear the cache during the request; HuntTerminates counts each time it does.
- The `failures` map of a key query: merged by the same dictionary operator as the other two.
- The checkers of display names, member counts and sender permissions: uninterpreted answers for one event.
- Regular expressions: which characters make words and differ in case only is a parameter, one character at a time; a pattern with regular-expression operators other than star, question mark and dot gets an uninterpreted answer.
- A content rule without a pattern, and a condition without a key: taken not to match; what the code's empty values do there is not modelled.
- PushRules.BackgroundPushRulesManager.IsRoomMentionsOnly: requires the global rule set that the code force-unwraps.
- ChunkedKeys.WholeAnswerIffPositive: excludes a chunk size of zero for a non-empty list, on which the stride traps.
- Overflow of the unsigned counters and of the expiry sum: natural numbers are unbounded here, where the code traps.
- Rooms and ancestors that change during a count of the spaces: a count reads one snapshot.
- The member list of a space, its direct rooms, adding and removing a child, power levels and hierarchy requests: one message or a pure lookup each.
- The timelines and listeners of a thread, its participation flag, and the change of an event's age with time: an event is a fixed snapshot.
- Sharing of beacon summaries between the store and its readers: the summaries of a room are values in a list, and reading one copies it. The sort by timestamp is taken to be stable.
- Redacted beacon infos, the filter on incoming beacons, the database-backed store, and sending locations.
- The request for the relations of a poll, and the check that its start is unknown.
- Aliases.AliasRoundTrip: strings are sequences of characters, not of grapheme clusters: a local part that begins with a combining mark, which fuses with the hash before it, is not captured; nor is case mapping outside ASCII.
