# Verified model of the io_uring web server

A Dafny model of the parts of this server whose correctness rests on bookkeeping across threads, callbacks and
partial I/O. `dafny verify dfyconfig.toml` checks all of it.

**Broadcast lifetime.** The central thread stores a frame with one use per server thread and posts it to each of
them; a thread fans it out to the send queues of its websocket clients; the kernel completes writes partially, fully
or not at all while connections come and go; the last write on a thread reports back, and the last report frees the
slot. `ServerThread` says what every handler does to a thread; `TcpServer` runs the same handlers in place;
`ThreadInvariant`, `ThreadProofs` and `ThreadProperties` prove what each turn keeps, and `ThreadEffects` what it does
to each connection; `DataStore`, `Broadcast` and `CentralServer` put any number of threads together with the central
one, interleaved step by step, `Delivery` follows the frames from the timer to the websocket clients, and
`BroadcastCases` has the runs that go wrong.

**File cache.** `Cache` gives the operations on the slots, links, maps and locks; `FileCache` runs them on an array;
`CacheList`, `CacheInvariant`, `CacheProofs` and `CacheRuns` prove that they refine a recency sequence and a map from
paths to the bytes last inserted; `CacheEffects` says which operation of a run decides whether a fetch hits, and what
a fetch of an outdated file leaves; `CacheServing` adds the writes in flight that read from the slots, `CacheCases` has
the runs that go wrong, and `CacheRepair` says what would hold if a fetch took outdated slots apart in full.

**Websocket input.** `WsFrames` covers lengths, encoding, masking and decoding (sections 5.2 and 5.3 of RFC 6455),
`WsExamples` ties them to bits, digits, opcodes and the examples of section 5.7,
`WsStream` the cutting of a stream into frames whole or read by read, `WsMessages` fragments and control frames
(sections 5.4 and 5.5), `WsClient` the receiving code as it runs, and `WsConversation` the path from a client's
messages to what the server hears.

**File reads.** `FileRead` covers the chain of short reads behind the response headers.

Classes hold the fields the source mutates; each method's contract equates the new state with a function of the old
one, and the properties are proved about those functions over all runs. Addresses are numbers given to allocations,
bytes are integers below 256, and the kernel is an environment that picks completion sizes, failures, wake-ups and
watch ids, or refuses a watch. Which file a path leads to is any function of the path, so two paths may lead to one file.

## Where the code misses a property

The code is modelled as it is written. Where it does not have a property that its structure is plainly for, there is
a lemma with a failing case, reached from the start of the program or an empty cache where the case is a state, and
one that says exactly when the property holds.

| code | holds exactly when | failing case |
|---|---|---|
| timer sweep empties a queue with a write in flight (server_base.tcc:77-98) | `ThreadProperties.TurnExact`, `Broadcast.RunExact`: no write is in flight | `BroadcastCases.SweepFreesBufferInUse` |
| responses are written to a slot that may be free (callbacks.tcc:59-69) | `ThreadProperties.TurnExact`, `Broadcast.RunExact`: the slot is live | `BroadcastCases.StrayWriteReached` |
| a file read is cached under the last path its slot asked for (callbacks.tcc:59-66) | `ThreadProperties.FiledExact`: the slot's present connection last named that path | `BroadcastCases.FiledUnderOther` |
| a file read keeps the slot of its asker, not the generation (server_base.tcc:308-315) | `ThreadProperties.ResponseReachesAsker`: the slot still carries the connection that asked | `BroadcastCases.ResponseToStranger` |
| slot 0 is exempt from the generation test, and generations repeat (server_base.tcc:34, 177) | `ThreadProperties.CompletionMeetsItsConnection` for writes: always; `LateReadExact` for reads: another slot, not a multiple of 100 reuses later | same lemma |
| posts before a thread has started are skipped (web_server.h:121) | `Broadcast.QuiescentFreesAll`: no post of the item was skipped | `BroadcastCases.SkippedPost` |
| one wake-up takes one message (callbacks.tcc:35, central_web_server.cpp:262-267) | `ThreadProperties.CoalescingStrands`, `Broadcast.CoalescingStrandsReports`: no eventfd read collects two signals | `BroadcastCases.CoalescedPost`, `CoalescedReport` |
| outdated slots are wiped but stay in the path map and at the list's head (cache.h:64-97) | `CacheRuns.FetchExact`, `RunExact`: the slot is not outdated; `CacheRepair.RunExact`: a full unlink would need no condition | `CacheCases.OutdatedFetchReachable`; `CacheRuns.OutdatedFetchThenEmptyHit`, `OutdatedTopLinksToItself` |
| outdated slots are wiped whoever uses them (cache.h:64-74, 90-97) | `CacheRuns.UsedSlotKept`, `CacheServing.ActExact`: no fetch finds a slot in use outdated | `CacheCases.OutdatedBufferRefilled` |
| two paths of one file share a watch id (cache.h:148-149) | `CacheProofs.InsertWatchesExact`, `CacheRuns.RunExact`: the id is not kept for another path | `CacheCases.SharedWatchServesStale` |
| a watch may be refused (cache.h:148) | `CacheProofs.InsertWatchesExact`, `CacheRuns.RunExact`: it is not | `CacheProofs.UnwatchedNeverOutdated` |
| locks are miscounted by a client that fetches twice, or is replaced while using a file, or fetches an outdated one (cache.h:54-74, web_server.tcc:136-141) | `CacheRuns.DisciplinedStep`: the client is not using a file, and the file is not outdated | `CacheCases.LockLeaksOnSecondFetch`, `LockLeaksOnNewConnection`, `LockBelowZero` |
| kill_client gives the lock back with a write in flight (web_server.tcc:143-161) | `CacheServing.ActExact`, `RunExact`: the client has no write in flight | `CacheCases.KilledClientsBufferRefilled` |
| new bytes are spliced before the pending header (websockets.tcc:271-274) | `WsStream.SplittingExact`: the spliced bytes state the same size | `WsStream.SplitHeaderMisread`; `SplittingInOrder` has the other order |
| short reads close the connection (websockets.tcc:267-269) | `WsStream.ReadableInOrder`: header and read have ten bytes | `WsStream.ShortReadCloses` |
| non-final fragments are prepended (websockets.tcc:51-53) | `WsMessages.FragmentsInOrderExact`: at most one is non-empty | same lemma, for every other list of sizes |
| every file read asks for 8192 bytes, whatever room is left (server_base.tcc:320, 335) | `FileRead.ReadsLandInsideExact`: the file has not grown | `FileRead.GrownFile`, `TwoEventsOverrun` |
| a chain of reads trusts the size taken first (server_base.tcc:70-76) | `FileRead.FileArrivesExact`: the file kept its size | `FileRead.GrownFile`, `ShrunkFileNeverArrives` |
| the result of a failed file read is added to the bytes read (server_base.tcc:32, 71-74, 327) | `FileRead.AstrayExact`: it takes back no more than has been read | `FileRead.FailedFirstRead` |

A run of `Broadcast` may take every step the code may take; the theorems about runs are about guarded ones, which
`Broadcast.RunExact` shows are exactly those that keep the invariant. The same holds for the orderly runs of
`CacheRuns` and `CacheServing`. The repository's own README says that a message is freed once every web server has
notified; by the row about skipped posts that holds only for messages posted after all threads have started.

## Model

| member | source | states |
|---|---|---|
| `Broadcast.BuffersOutliveReaders` | src/web_server/central_web_server.cpp:248-270 | In every guarded run, whatever waits in a thread's inbox, stands in a send queue or is being written by the kernel points to a live store slot that still holds the buffer and bytes posted: no release and no slot reuse under a reader |
| `Broadcast.RunExact` | src/tcp_server/server_base.tcc:23-107 | A run of any steps the code can take keeps the whole-system invariant in every state if and only if every write goes to a live slot and every sweep meets a connection with no write in flight |
| `Broadcast.StepExact` | src/web_server/central_web_server.cpp:222-290 | One step (tick, post, thread turn, eventfd read, central wake-up) keeps the whole-system invariant if and only if it is guarded so |
| `Broadcast.UsesConserved` | src/web_server/central_web_server.cpp:251-265 | Conservation: a live slot's use count is the reports owed by all threads, plus posts still to be made, plus the posts of it the run skipped, and at least 1; no thread owes more than one report per item |
| `Broadcast.QuiescentFreesAll` | src/header/web_server/web_server.h:120-130 | With nothing under way a slot is free if and only if the run skipped no post of its message because a thread had not started; otherwise it keeps exactly one use per skipped post |
| `Broadcast.ThreadReportsOnce` | src/web_server/callbacks.tcc:31-50 | No turn of a thread changes how many reports it owes for an item, and that is at most one, so each thread reports once |
| `Broadcast.SocketsGetPrefixes` | src/tcp_server/server_non_tls.cpp:40-58 | In every guarded run every socket has accepted a prefix of what was queued for it, all of it once an open connection's queue is empty, with num_write_reqs counting the at most one write in flight |
| `Broadcast.WakeUpsFindMessages` | src/header/web_server/web_server.h:132-142 | In every guarded run a wake-up, on either side, finds its queue non-empty although eventfd signals coalesce |
| `Delivery.FramesArePosted` | src/web_server/central_web_server.cpp:248-261 | From any state in which a thread has started and the posting loop rests, in any run: the messages posted to that thread carry exactly the frames the timer stores, each once and in order, but for the one under way |
| `Delivery.PostsTakenInOrder` | src/header/web_server/web_server.h:138-142 | In every guarded run the messages posted to a thread are those it has taken, in that order, followed by those in its inbox |
| `Delivery.SocketGetsEachMessage` | src/web_server/callbacks.tcc:31-50 | In every guarded run, as long as a slot carries a websocket client, it is handed exactly the messages its thread takes, each once and in order, among its own replies, and nothing else is added to its stream |
| `Delivery.TakenIsHandedOn` | src/web_server/callbacks.tcc:31-50 | In every guarded run a wake-up takes the oldest message and puts it at the back of the queue of every websocket client, however much is queued there, leaves every other connection as it is, and reports the message if there is no websocket client |
| `Broadcast.CoalescingStrandsReports` | src/web_server/central_web_server.cpp:262-270 | A report is left without a pending wake-up of the central thread exactly when one read of a thread's communication eventfd collects more than one signal, and then one for each surplus signal |
| `Broadcast.StrandedKeepsBuffer` | src/web_server/central_web_server.cpp:262-270 | A report that waits keeps its store slot occupied |
| `BroadcastCases.SweepFreesBufferInUse` | src/tcp_server/server_base.tcc:77-98 | A run from the start of the program, guarded but for one sweep: the central thread frees and refills the slot of a buffer the kernel is still writing from |
| `BroadcastCases.ResponseToStranger` | src/web_server/callbacks.tcc:59-69 | A guarded run from the start of the program: a client asks for a file and is reaped, and the next client in its slot gets the file |
| `BroadcastCases.CoalescedPost` | src/web_server/callbacks.tcc:30-36 | A run from the start of the program: two posts, one eventfd read, and one message left without a wake-up |
| `BroadcastCases.CoalescedReport` | src/web_server/central_web_server.cpp:262-270 | A guarded run from the start of the program: two reports, one eventfd read, one slot freed, and the other left occupied without a wake-up |
| `BroadcastCases.SkippedPost` | src/header/web_server/web_server.h:120-124 | A run from the start of the program: a message ticked before the thread has started is posted to nobody, and its slot stays occupied in a quiet system |
| `BroadcastCases.StrayWriteReached` | src/web_server/callbacks.tcc:59-69 | A run from the start of the program: a response is written to a freed slot, and its write is in flight, of the old generation, under the next connection |
| `BroadcastCases.FiledUnderOther` | src/web_server/callbacks.tcc:59-66 | A guarded run from the start of the program: the file one client asked for is about to be cached under the path the next client in its slot asked for |
| `CentralServer.TimerIsRun` | src/web_server/central_web_server.cpp:248-261 | The timer case done in one go is the run of the state machine "tick, then one post per thread" |
| `CentralServer.TimerExact` | src/web_server/central_web_server.cpp:248-261 | The timer case leaves the frame in a slot of its own with one use per thread, the other slots as they were, and one message with that frame, and one signal, at the back of the inbox of every started thread and of no other |
| `CentralServer.ReportTaken` | src/web_server/central_web_server.cpp:262-270 | A wake-up of the central thread takes the oldest report of that thread, costs its slot, and no other, one use, and frees it exactly with the last |
| `CentralServer.Central.OnTimer` | src/web_server/central_web_server.cpp:248-261 | Insert with one use per thread, then the posting loop over all threads, ends in the state of the fully run posting steps |
| `CentralServer.Central.OnReport` | src/web_server/central_web_server.cpp:262-270 | One finished message is dequeued and its item freed once |
| `DataStore.Buffers.Insert` | src/header/data_store.h:101-113 | A free slot is reused or a new one appended; nothing else changes |
| `DataStore.Buffers.Free` | src/header/data_store.h:79-85 | One use fewer; at zero the slot is wiped and becomes free |
| `ThreadProofs.TurnKeeps` | src/tcp_server/server_base.tcc:23-107 | Every guarded event the loop handles keeps the thread invariant (slots, one write per slot, use counts, signals, generations) and the reports owed |
| `ThreadProperties.TurnExact` | src/tcp_server/server_base.tcc:23-107 | For every event the loop can be given, handling it keeps the thread invariant if and only if what it writes to is a live slot and what it reaps has no write in flight |
| `ThreadEffects.TurnFollows` | src/tcp_server/server_base.tcc:23-107 | For every guarded event and every slot: exactly the messages the event is about are added at the back of the queue, exactly the written or given-up ones leave its front, the socket accepts exactly the bytes completed, and the slot is in use, and a websocket client, afterwards exactly if nothing ends its connection: a finished response that closes frees the slot exactly when nothing else is queued |
| `ThreadEffects.WakeHandsOn` | src/web_server/callbacks.tcc:31-50 | A wake-up hands the oldest message to exactly the websocket clients, whatever else is queued on them, and reports it exactly when there is none |
| `ThreadEffects.ConnectExact` | src/tcp_server/server_base.tcc:168-188 | A connection gets the smallest index that carries none, with empty queue and stream and the next generation |
| `ThreadEffects.StaleCompletion` | src/tcp_server/server_base.tcc:29-38 | A completion from an older connection of the slot changes nothing but that the request is gone, except in the first slot, where it takes a write off the present connection's count, and closes that connection if the callback closes and no other write is counted |
| `ThreadEffects.FilesFollow` | src/tcp_server/server_base.tcc:308-315 | A connection's requested paths are those it asked for, in order, from none, and a file read is under way exactly from its request to its response, with the slot, connection and path of who asked |
| `ThreadProperties.ResponseReachesAsker` | src/web_server/callbacks.tcc:59-69 | A response read from a file reaches the connection that asked if and only if slot and connection are still the same; another one if and only if the slot is live with another; and it breaks the invariant if and only if the slot is free |
| `ThreadProperties.FiledExact` | src/web_server/callbacks.tcc:59-66 | A finished file read is cached under the path its asker named if and only if that is the last path the slot's present connection named; so it is if the asker is still there and named no other, and if the connection named at most one, only then or when it named the same |
| `ThreadProperties.GenerationTells` | src/tcp_server/server_base.tcc:177-179 | Comparing generations, had the file read one, would tell two connections of a slot apart except a multiple of 100 reuses apart |
| `ThreadProperties.LateReadExact` | src/tcp_server/server_base.tcc:29-38 | The bytes of a late socket read are taken for a later connection's if and only if the slot is the first, or was reused a multiple of 100 times since |
| `ThreadProperties.CoalescingStrands` | src/tcp_server/server_base.tcc:67-69 | A message is left without a pending wake-up of its thread exactly when one read of the notification eventfd collects more than one signal, and then one for each surplus signal; Broadcast.CoalescingStrandsReports is the other direction |
| `ThreadProofs.CompleteWriteKeeps` | src/tcp_server/server_non_tls.cpp:105-132 | A write completion of any size, partial, full or failed, keeps slots, requests, use counts and reports owed |
| `ThreadEffects.FinishReports` | src/web_server/callbacks.tcc:120-128 | A finished write posts a report if and only if it was the last queue entry for a broadcast message on its thread, and then with the buffer recorded at the fan-out |
| `ThreadProofs.EventCbKeeps` | src/web_server/callbacks.tcc:31-50 | Fanning out a posted message, or reporting it at once when there are no websocket clients, keeps the invariant and the reports owed |
| `ThreadProofs.FanOutOwed` | src/header/server.h:252-262 | A fan-out adds to the queue entries for its item exactly the number of receivers, and none for any other item |
| `ThreadProofs.DrainKeepsAccounts` | src/tcp_server/server_base.tcc:43-51 | Giving up every queued item of a failed connection keeps every use count equal to the entries left, and the reports owed |
| `ThreadProofs.AcceptKeeps` | src/tcp_server/server_base.tcc:168-188 | Accepting into the smallest freed slot, or a new one, keeps the invariant |
| `ThreadProperties.OneWriteInFlight` | src/tcp_server/server_base.tcc:289-305 | num_write_reqs is the number of writes in flight, at most one, one exactly when the queue is non-empty, and that one covers the unwritten rest of the queue's front |
| `ThreadProperties.StreamIsPrefix` | src/tcp_server/server_non_tls.cpp:73-84 | Bytes accepted are a prefix of the messages queued, in order; callbacks fired are those of the first messages; both complete when the queue is empty |
| `ThreadProperties.CloseDiscardsNothing` | src/tcp_server/server_non_tls.cpp:60-71 | close_connection frees a slot exactly when no write is in flight, then with an empty queue; otherwise it changes nothing |
| `ThreadProperties.CompletionMeetsItsConnection` | src/tcp_server/server_base.tcc:29-38 | Every write in flight belongs to the live connection with the same generation, so the exemption of slot 0 from the generation test makes no difference to writes |
| `ThreadProperties.UsesAreQueueEntries` | src/web_server/callbacks.tcc:123-128 | While any queue entry for an item remains, its per-thread use count equals the number of such entries |
| `ThreadProperties.FanOutOverwritesFinished` | src/web_server/callbacks.tcc:38-46 | The use-count entry a new broadcast overwrites is always a finished one |
| `ThreadProperties.StrayWriteOutlivesSlot` | src/web_server/callbacks.tcc:59-69 | A write queued on a freed slot is still in flight, with the old generation, after the slot is reused by a connection that counts no writes |
| `ServerThread.Drain` | src/tcp_server/server_base.tcc:43-51 | The sweeping loop empties that queue only, touches no other slot, and posts at most one signalled report per step |
| `TcpServer.ServeOneMore` | src/header/server.h:252-262 | Serving receivers in any order gives the same fan-out |
| `TcpServer.Server.BroadcastMessage` | src/header/server.h:252-262 | The loop over the receivers, in arbitrary order, performs exactly the fan-out |
| `TcpServer.Server.CompleteWrite` | src/tcp_server/server_non_tls.cpp:105-132 | The WRITE completion with its dispatch and failure branches, in place |
| `TcpServer.Server.GiveUp` | src/tcp_server/server_base.tcc:43-57 | The popping loop, final close callback and close, in place |
| `TcpServer.Server.EventCb` | src/web_server/callbacks.tcc:31-50 | Dequeue one message, grow and set its entry, fan out or report, in place |
| `TcpServer.Server.ReportUse` | src/web_server/callbacks.tcc:20-25 | One use fewer; the last use posts the finished message |
| `TcpServer.Server.WriteConnection` | src/tcp_server/server_non_tls.cpp:40-58 | Push, and start a write only if the queue was empty |
| `TcpServer.Server.CloseConnection` | src/tcp_server/server_non_tls.cpp:60-71 | Free the slot only with no active write |
| `TcpServer.Server.SetupClient` | src/tcp_server/server_base.tcc:168-188 | Smallest freed index with the next generation, or a new slot |
| `TcpServer.Server.Accept` | src/tcp_server/server_non_tls.cpp:87-96 | Set up the slot and make it active |
| `TcpServer.Server.AskFile` | src/tcp_server/server_base.tcc:308-315 | The file read remembers the slot of the connection that asked, and no generation |
| `TcpServer.Server.CustomReadCb` | src/web_server/callbacks.tcc:59-69 | The response is queued for the slot the file read names |
| `CacheRuns.FetchReturnsLatest` | src/header/web_server/cache.h:49-109 | After any orderly run a fetch returns exactly the bytes last inserted under its path, or misses; it always misses once the file was modified since, even if that makes it the fetch that ends such runs |
| `CacheEffects.HitExact` | src/header/web_server/cache.h:49-109 | When a fetch hits: after a run of orderly operations it returns the bytes of the path's last insertion if no slot filled under the path was refilled since and the kernel has not reported its file modified since, and misses otherwise |
| `CacheEffects.PathsExact` | src/header/web_server/cache.h:111-155 | After such a run a path is found if and only if it was inserted and no slot last filled under it has been refilled since, and then in the slot of its last insertion |
| `CacheEffects.InsertedPaths` | src/header/web_server/cache.h:131-146 | An insertion loses the path the slot taken held, gains its own, and leaves every other path where it was |
| `CacheEffects.TakesExact` | src/header/web_server/cache.h:111-137 | After such a run an insertion may take exactly the slots that hold no file, or, if there is none, the one used longest ago unless it is locked; it is refused exactly when there is no slot to take |
| `CacheRuns.InsertedThenFetched` | src/web_server/callbacks.tcc:64-66 | The fetch right after a successful insertion returns the inserted bytes, also for a path already cached, and whatever watch the kernel gave |
| `CacheRuns.RunExact` | src/header/web_server/cache.h:49-176 | A run of any operations keeps list, maps, locks, contents and watches in order in every state if and only if no fetch meets an outdated slot, and every insertion gets a watch, of an id that no other slot remembers for another path |
| `CacheRuns.UsedSlotKept` | src/header/web_server/cache.h:54-97 | While a client uses a file, any operation of others leaves its slot in place, locked and with its bytes, if and only if it is not a fetch that finds that slot outdated |
| `CacheRuns.DisciplinedStep` | src/web_server/web_server.tcc:136-146 | lock_number keeps counting exactly the clients using the slot, whatever is done to the cache, if and only if no client fetches while using a file, or a file that is outdated, and no client slot gets a new connection while using one |
| `CacheCases.LockBelowZero` | src/header/web_server/cache.h:64-74 | A run from an empty cache: a client that uses no file fetches an outdated one and gives the lock back, and the slot is refilled with lock -1, never to be evicted |
| `CacheServing.RunExact` | src/web_server/web_server.tcc:143-161 | With writes in flight that read from slots: in a run of any operations the cache stays in order and each write backed by a client using its locked slot and the bytes it was queued with, in every state, if and only if each step is orderly and careful |
| `CacheServing.ActExact` | src/web_server/web_server.tcc:143-161 | In order and backed before, each write stays backed if and only if no client loses its lock or moves to another file while its write is in flight, and no fetch finds the slot of a write, or for the client of one any slot, outdated; and the cache stays in order if and only if the step is orderly |
| `CacheServing.WritesExact` | src/web_server/callbacks.tcc:64-66 | The writes in flight after a step are those before it, less the one that is over, and one for a hit, which reads from the slot its path is found in the bytes that hit returned |
| `CacheServing.CachedBytesOutliveWrites` | src/web_server/callbacks.tcc:64-66 | In every run of orderly and careful steps, every write in flight finds in its slot exactly the bytes it was queued with, through evictions and refills |
| `CacheCases.OutdatedBufferRefilled` | src/header/web_server/cache.h:90-97 | A run from an empty cache, no lock given back: a file is modified while it is written to one client and fetched by another, and its slot is wiped and refilled under the write |
| `CacheProofs.InsertExact` | src/header/web_server/cache.h:111-155 | An insertion appends its slot to the recency sequence, in place of the front if none was free, and keeps the whole invariant, if and only if the kernel watches the file by an id no other slot remembers for another path |
| `CacheProofs.InsertWatchesExact` | src/header/web_server/cache.h:148-149 | After an insertion every path found is watched through its own slot if and only if the kernel watches the file, by an id that is not the one of another path found in the cache |
| `CacheProofs.InsertOneName` | src/header/web_server/cache.h:148-149 | Slots that remember the same watch in use hold the same path if and only if the watch was refused or no other slot remembers it for another path |
| `CacheProofs.UnwatchedNeverOutdated` | src/header/web_server/cache.h:148-168 | A file cached without a watch is returned as inserted after any modification event |
| `CacheRepair.RunExact` | src/header/web_server/cache.h:121-136 | If a fetch took an outdated slot that is unlocked apart as an eviction does, and left a locked one, the cache would stay in order all along a run if and only if every insertion is watched so: outdated files would be no condition |
| `CacheRepair.RefetchReturnsLatest` | src/header/web_server/cache.h:64-97 | Then every fetch of every such run would return the bytes last inserted under its path, or miss, and miss whenever the file was modified since |
| `CacheRepair.UsedSlotAlwaysKept` | src/header/web_server/cache.h:64-97 | And no operation of others would take a slot a client is using |
| `CacheRuns.StepExact` | src/header/web_server/cache.h:49-176 | One operation keeps the cache in order if and only if it is orderly so |
| `CacheCases.OutdatedFetchReachable` | src/header/web_server/cache.h:161-168 | A fetch that meets an outdated slot is reached from an empty cache: insert, modify, fetch |
| `CacheCases.SharedWatchServesStale` | src/header/web_server/cache.h:148-149 | A run from an empty cache: one file inserted under two paths is watched by one id, and once it is modified a fetch of the first path returns the old bytes |
| `CacheCases.LockLeaksOnSecondFetch` | src/header/web_server/cache.h:54-57 | A run from an empty cache: a client fetches twice, gives back one lock, and the slot stays locked by nobody |
| `CacheCases.LockLeaksOnNewConnection` | src/web_server/web_server.tcc:136-141 | A run from an empty cache: a new connection in the client's slot forgets the lock its predecessor took |
| `CacheCases.KilledClientsBufferRefilled` | src/web_server/web_server.tcc:157-161 | A run from an empty cache: kill_client gives the lock back while the write is in flight, and the slot is refilled with another file under it |
| `CacheProofs.ModifiedKeeps` | src/header/web_server/cache.h:161-168 | A modification event keeps the invariant and makes stale every path that leads to the file |
| `CacheRuns.EvictsLeastRecentlyUsed` | src/header/web_server/cache.h:120-136 | The slot evicted is the one used longest ago among all occupied slots |
| `CacheRuns.RunLinks` | src/header/web_server/cache.h:34-40 | After any run following next from lowest_idx visits every occupied slot once and ends at highest_idx, prev gives the reverse, and the free set is the complement |
| `CacheRuns.RunIndexed` | src/header/web_server/cache.h:49-168 | After any run no operation follows an index outside the array |
| `CacheRuns.FetchExact` | src/header/web_server/cache.h:64-97 | A fetch leaves list and lookup maps consistent if and only if it does not meet an outdated slot |
| `CacheEffects.OutdatedLeavesList` | src/header/web_server/cache.h:64-97 | A fetch that meets an outdated slot takes exactly that slot out of the list, wherever it stands, and leaves it blank and free; lowest_idx is then the first of the rest, exactly the slot's own watch is forgotten, the path maps are left, and highest_idx stays, even if it was the slot |
| `CacheEffects.OutdatedThenRefilled` | src/header/web_server/cache.h:79-97 | If the slot was not the most recent one the list is whole without it, and refilling it puts it at the back, with the least recently used of the others at the front |
| `CacheRuns.OutdatedFetchThenEmptyHit` | src/header/web_server/cache.h:64-74 | After a fetch that meets an outdated slot, the next fetch of that path reports a hit with no bytes |
| `CacheRuns.OutdatedTopLinksToItself` | src/header/web_server/cache.h:64-74 | If the outdated slot was the most recent one, refilling it makes it its own predecessor |
| `CacheProofs.FetchKeeps` | src/header/web_server/cache.h:54-105 | A hit moves its slot to the back of the recency sequence, locks it, and keeps every other part of the invariant |
| `CacheProofs.FetchMoves` | src/header/web_server/cache.h:77-105 | A hit changes only links, the one lock and the client's entry; the list becomes the old one with that slot moved to the back |
| `CacheProofs.FetchLocksExact` | src/header/web_server/cache.h:54-57 | A hit keeps the lock count exact if and only if the client was not using a file |
| `CacheProofs.FinishedKeeps` | src/header/web_server/cache.h:170-176 | Finishing gives back one lock and keeps the invariant |
| `CacheEffects.FinishedGivesBack` | src/header/web_server/cache.h:170-176 | Finishing takes one lock off the slot of a client that uses a file, clears its flag, and changes nothing else |
| `CacheInvariant.WalksVisitAll` | src/header/web_server/cache.h:34-40 | The two walks through the links are the recency sequence and its reverse |
| `FileCache.FileCache.FetchItem` | src/header/web_server/cache.h:49-109 | fetch_item in place, all branches, outdated ones included |
| `FileCache.FileCache.TryInsertItem` | src/header/web_server/cache.h:111-159 | try_insert_item in place; refused exactly when nothing is free and the front is locked, and then nothing changes |
| `FileCache.FileCache.InotifyEvent` | src/header/web_server/cache.h:161-168 | The watched slot is marked outdated |
| `FileCache.FileCache.FinishedWithItem` | src/header/web_server/cache.h:170-176 | The client's lock is given back once |
| `FileCache.FileCache.NewTcpClient` | src/web_server/web_server.tcc:136-141 | The using_file flag is cleared, and nothing else |
| `WsConversation.ClientHeard` | src/web_server/websockets.tcc:22-82 | End to end: masked, fragmented messages with control frames in between, split into reads anywhere the size of a split header is read right, are delivered whole and in order, and pings answered in order |
| `WsConversation.ReadsDeliverFrames` | src/web_server/websockets.tcc:256-331 | For such splittings the reads deliver exactly the client's frames, in order, with nothing left over, and each decodes to what was sent |
| `WsStream.SplittingExact` | src/web_server/websockets.tcc:263-328 | For every splitting of a stream into reads: each prefix gives the frames and tail of the whole-stream parser if and only if each read starts at a frame, or at least ten bytes into one, or has with it ten bytes off which the right size is read |
| `WsStream.ReceiveExact` | src/web_server/websockets.tcc:266-298 | One read gives the frames and tail of the whole-stream parser if and only if nothing is pending, its size was known, or it is read right off the spliced bytes |
| `WsStream.AllKnowLate` | src/web_server/websockets.tcc:319-328 | In every run of reads a pending size is known only once ten bytes of the frame are there |
| `WsStream.SplitHeaderMisread` | src/web_server/websockets.tcc:271-274 | Concrete stream of one frame of 11 bytes: read as 2 and 9 bytes it is cut after six |
| `WsStream.SplitAfterTwoBytes` | src/web_server/websockets.tcc:271-274 | Any frame of 4 to 125 payload bytes, read as two bytes and the rest: the size is taken from the second byte of the masking key, so it is understood if and only if that byte states the length (for key bytes that state a length below 126) |
| `WsConversation.ReadsAddUp` | src/web_server/websockets.tcc:36-77 | Handling frames read by read comes to the same as handling them all at once |
| `WsStream.SplittingInOrder` | src/web_server/websockets.tcc:271-274 | With the pending bytes spliced in front, every splitting that is not closed for a short read gives the whole stream's frames and tail |
| `WsStream.ReadableInOrder` | src/web_server/websockets.tcc:267-274 | In that order a read is readable if and only if header and read together have ten bytes; a carried header of exactly ten bytes is readable in either order |
| `WsStream.ReceiveConserves` | src/web_server/websockets.tcc:278-328 | Every read that does not close conserves bytes: pending and new bytes are the frames cut and the new pending bytes |
| `WsStream.BytesConserved` | src/web_server/websockets.tcc:304-317 | Cutting conserves bytes, every frame cut has the size its header states, and no whole frame is left |
| `WsStream.CutInTwo` | src/web_server/websockets.tcc:304-328 | Cutting may stop anywhere and resume with the tail |
| `WsStream.ShortReadCloses` | src/web_server/websockets.tcc:267-269 | Concrete stream: a whole ping read as 3 and 3 bytes closes the connection |
| `WsClient.Client.GetWsFrames` | src/web_server/websockets.tcc:256-331 | get_ws_frames in place, with the code's splice order |
| `WsClient.Client.CutFrames` | src/web_server/websockets.tcc:305-317 | The cutting loop terminates and yields the frames and tail of the whole-stream parser |
| `WsClient.Client.FrameLengthAt` | src/web_server/websockets.tcc:140-148 | With 6 to 9 bytes available the decision to cut does not depend on the missing length bytes |
| `WsClient.Client.ProcessRead` | src/web_server/websockets.tcc:22-82 | One read, from bytes to messages delivered and frames sent |
| `WsClient.RemoveFirst` | src/header/utility.h:33-40 | The rest moves to the front and a copy of it is returned |
| `WsClient.NoWrap` | src/web_server/websockets.tcc:140-148 | The 64-bit length sum does not wrap when the top length bit is clear |
| `WsStream.ToIntWraps` | src/header/web_server/web_server.h:30-33 | A 64-bit size is kept as the one int that differs from it by a multiple of 2^32 |
| `WsFrames.EchoedFrame` | src/web_server/websockets.tcc:151-190 | Any frame made by make_ws_frame, masked with any key, decodes to its payload and class, and its stated length is its size |
| `Bytes.XorExact` | src/web_server/websockets.tcc:244-244 | The exclusive or of two bytes is the one byte whose bits are set exactly where theirs differ |
| `WsExamples.DecodedBits` | src/web_server/websockets.tcc:220-253 | The payload decoded is as long as the frame behind its 6, 8 or 14 header bytes, and each of its bytes has set exactly the bits in which the byte received differs from its byte of the masking key, taken in turn |
| `WsExamples.DecodedKind` | src/web_server/websockets.tcc:220-253 | A frame counts as unmasked, close, ping or pong exactly by mask bit and opcodes 8, 9 and 10, and otherwise as a fragment or final by its fin bit |
| `WsExamples.BigEndianFront` | src/web_server/websockets.tcc:140-148 | The extended lengths are read with their first byte as the most significant one |
| `WsExamples.UnmaskedExamples` | src/web_server/websockets.tcc:151-190 | The text and ping examples of section 5.7 of RFC 6455, byte by byte |
| `WsExamples.LongExamples` | src/web_server/websockets.tcc:151-190 | Its examples of 256 bytes and 64 KiB |
| `WsFrames.DecodeInverts` | src/web_server/websockets.tcc:220-253 | Decoding undoes masking for every opcode, fin bit, payload and key |
| `WsFrames.DecodeWebsocketFrame` | src/web_server/websockets.tcc:220-253 | The decoder in place over its own input buffer |
| `WsFrames.Unmask` | src/web_server/websockets.tcc:243-247 | The overlapping loop reads each byte before overwriting it: the front of the buffer becomes the unmasked payload |
| `WsFrames.MakeWsFrame` | src/web_server/websockets.tcc:151-190 | The buffer filled field by field is the frame of section 5.2, across the 126 and 65536 boundaries |
| `WsFrames.ClientHeader` | src/web_server/websockets.tcc:140-148 | A client frame's stated length is its size, for all three length forms |
| `WsMessages.FragmentsInOrderExact` | src/web_server/websockets.tcc:51-53 | For given fragment sizes every message is delivered as sent if and only if at most one non-final fragment is non-empty |
| `WsMessages.FragmentedMessage` | src/web_server/websockets.tcc:42-53 | A fragmented message is delivered with its non-final fragments in reverse order |
| `WsMessages.ConversationDelivered` | src/web_server/websockets.tcc:36-77 | Any number of messages interleaved with control frames are delivered whole and in order, each having at most one non-empty non-final fragment |
| `WsMessages.ControlFramesTransparent` | src/web_server/websockets.tcc:54-62 | Control frames leave messages and collected fragments unchanged |
| `WsMessages.PingsAnswered` | src/web_server/websockets.tcc:58-62 | Every ping is answered by one pong with the same body, in order |
| `WsMessages.NothingAfterClose` | src/web_server/websockets.tcc:54-76 | A close frame is answered and ends the loop; later frames are ignored |
| `FileRead.ReadsLandInsideExact` | src/tcp_server/server_base.tcc:308-338 | Every chain of reads the kernel may do, failed ones included, stays inside the buffer if and only if the file has not grown since its size was taken |
| `FileRead.FileArrivesExact` | src/tcp_server/server_base.tcc:326-338 | Every chain of short reads that is long enough, and in which no failure takes back more than has been read, hands over exactly headers ++ file if and only if the file kept its size |
| `FileRead.AstrayExact` | src/tcp_server/server_base.tcc:70-76 | A chain asks for a negative file offset if and only if some failed read takes back more bytes than had been read, before the file was there |
| `FileRead.FailureTakesBack` | src/tcp_server/server_base.tcc:326-335 | A failed read moves file and buffer offset back by the error number, and the bytes are read again |
| `FileRead.FailedFirstRead` | src/tcp_server/server_base.tcc:29-34 | The first read of an unchanged file fails: the next one is asked for at a negative offset |
| `FileRead.WhatArrives` | src/tcp_server/server_base.tcc:70-76 | For a file of any size: what a chain hands over is headers ++ as much of the file as there was room for, and after enough completions only a file that shrank, or a failed read, keeps it waiting |
| `FileRead.ReadsNeeded` | src/tcp_server/server_base.tcc:308-338 | A file is handed over after n reads only if it has at most 8192 n bytes, and one of at most 8192 bytes can be after one |
| `FileRead.CustomRead.Completed` | src/tcp_server/server_base.tcc:70-76 | The completion in place, for any result: overrun, astray, whole buffer, or the next read of the chain |
| `FileRead.ShrunkFileNeverArrives` | src/tcp_server/server_base.tcc:70-76 | A file that shrank after its size was taken is never handed over, however long the chain |
| `FileRead.GrownFile` | src/tcp_server/server_base.tcc:320-320 | A file of two bytes with room for one: one read of two overruns the buffer, one read of one hands over half the file |
| `FileRead.TwoEventsOverrun` | src/web_server/callbacks.tcc:56-58 | Two inotify events queued: one read brings 32 bytes into the 16 there is room for |

## Left out

- WsStream.SplittingExact: streams keep the top bit of 64-bit lengths clear, as section 5.2 of RFC 6455 demands, and state frame sizes below 2^31, because the pending size is kept in an int; the conversion to int is modelled, but beyond it the code subtracts past the ten header bytes, which is the outcome `Overrun`.
- WsClient.Client.GetWsFrames: needs the top length bit clear where a new frame starts, with it set the 64-bit sum can wrap and the loop need not end; and not more than ten bytes pending without a size, which is the outcome `Overrun`.
- WsConversation.ClientHeard: payloads up to 0x7FFFFFEF bytes, for the same int.
- WsClient.Client.ProcessRead: asks that every frame cut is as long as its own header, which misread sizes can violate; the decoder then reads past its buffer.
- ServerThread.CompleteWrite: no contract of its own; the queue must be non-empty when a write completes, which the invariant provides and the unguarded sweep breaks.
- Broadcast.QuiescentFreesAll: at least one server thread; with none configured every frame's slot is kept for ever.
- ServerThread.Handle: socket reads are environment events (a request upgrades, answers, retires, asks or hangs up); which connection a late one is taken for is `ThreadProperties.LateReadExact`.
- CacheServing.ActExact: one cache per server thread, with the clients' writes but not their queues; in `Broadcast` the bytes of a cached file are queued by value.
- CacheRuns.RunExact: runs are followed up to the first operation that is not orderly; after a fetch of an outdated slot the list no longer has the shape the operations rely on. What comes next is said by the lemmas about it and the runs of `CacheCases`; that all could be well is said by `CacheRepair`, which is not the code.
- ServerThread.AddWriteReq: owned bytes are carried by value. That `clients` may be moved in memory when it grows, and whether its queues' bytes stay where a write in flight reads them, depends on the standard library's containers and is not modelled.
- FileRead.AstrayExact: what the kernel does with a negative file offset is not modelled; the chain is followed up to there.
- The TLS server and its wolfSSL callbacks: they depend on record buffering inside that library.
- io_uring, sockets, eventfd, timerfd and inotify themselves; submission order among different connections is free.
- The lock-free queue library: a FIFO sequence, with each message visible before its signal.
- The closing handshake counters of a websocket client and its slot ids; whether a write callback closes the connection is an environment choice.
- multi_write, data_store_raw, make_item and the central thread's file reads and writes: not used by the flows modelled.
- HTTP parsing, content types, configuration, SHA-1 and base64, start-up, signals and shutdown.
- Liveness: nothing is proved about when messages or writes complete, only what holds whenever they do.
