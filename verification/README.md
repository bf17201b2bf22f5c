# Verification of the AAMP core components

This project models six stateful components of AAMP (the Advanced Adaptive Media Player) in Dafny and proves
what they promise their users.

| component | source | modules |
|---|---|---|
| task scheduler | AampScheduler.cpp | SchedulerCore, Scheduler, SchedulerProtocol, SchedulerGuarantees, SchedulerExecution |
| event manager | AampEventManager.cpp, AampEventManager.h | EventHandshake, EventManager, EventDelivery, EventListeners |
| playlist and init-fragment caches | AampCacheHandler.cpp, AampMemoryUtils.cpp | GrowableBuffers, CacheBuffers, PlaylistCache, PlaylistRules, PlaylistLeaks, PlaylistCacheHandler, InitFragCache, InitFragRuns, InitFragCollisions, InitFragCacheHandler |
| curl handle pool | AampCurlStore.cpp | CurlPool, CurlStoreModel, CurlConservation, CurlProvenance, CurlRecency, CurlStores |
| configuration layering | AampConfig.cpp | ConfigLayering |
| codecs | _base64.cpp, base16.cpp, AampUtils.cpp | ByteLoops, Base64, Base64Url, Base16, Alphabets |

How it is built:

- **Objects are classes.** `AampScheduler`, `AampEventManager`, `ListenerList`, `GrowableBuffer`,
  `AampPlaylistCache`, `AampInitFragCache`, `CurlSocketStore`, `CurlStore` and `AampConfig` have the source's
  fields, loops and branches. Each method is proved against a function on values; the lemmas are about those
  functions.
- **Concurrency is a state machine.** The scheduler has explicit program counters for its worker, a client
  that suspends, resumes and stops it, and any number of callers of ScheduleTask. The event manager has any
  number of senders, the main loop, and flushes that can cut in between. A step ends wherever another thread
  may interfere; runs are sequences of labels, and every guarantee is about all reachable states or all runs.
  History fields (what was issued, taken, begun, removed; which source ids were marked; outstanding Gets) exist
  for the statements; guards read them only to say that a new source id is unused and that a Keep follows a Get.
- **Buffers are heap objects.** A cache heap records the live buffers with their bytes and the freed ones;
  freeing a buffer twice is impossible by precondition, so a method that verifies never does it.

## What is proved

- *Suspend barrier* (the DELIA-57121 comments): after SuspendScheduler and RemoveAllTasks, no task scheduled
  before that point runs or continues, in any interleaving. *Stop gets through* (DELIA-57122): the worker and
  the stopper need at most 17 more steps, and one of them can always move. Every task is in exactly one place
  and tasks begin in schedule order. While the player is playable every task taken begins; in ERROR or RELEASED
  none does, and none is queued.
- *No stranded event*: queued events never outnumber the callbacks still to come, and events leave in push
  order. Without flushes, releases and missing listeners every event of every sender is sent; to a released
  player none is. The two asserts of the pending/dispatched handshake never fail.
- *The playlist cache is a simple map with omissions*; no entry names a freed buffer, and the bytes of the
  buffers that entries name never exceed the counter or the limit, although the counter is not maintained by
  removals. A buffer whose only owning entry is overwritten by a redirect entry is leaked, and no other is.
  *The init-fragment cache* is a FIFO per media type that frees each buffer once although its duplicate flag
  sits on the wrong entry.
- *No curl handle is lost or duplicated*; one that a Get finds was kept for that host under that id, 300 seconds
  ago at most; user counts are outstanding Gets; and eviction takes the host whose last use is the oldest among
  those without users.
- *One level of undo* in the configuration, with the AuthToken exception; *codec round trips*, and every
  character and byte the codecs write, on any input.

Where the code does not meet an expectation for every input, the exact condition is proved:

| member | expectation | holds exactly when |
|---|---|---|
| PlaylistCache.RemoveSoundIff | removing one URL leaves no entry with a freed buffer | the entry is absent, a redirect, or alone with its buffer |
| PlaylistLeaks.ClearFreesAllIff | a clear frees every buffer that was allocated | no redirect entry overwrote an entry that owned a buffer |
| InitFragCache.InsertSoundIff | an insert keeps queues, redirects and buffers consistent | the redirect URL is no key of the cache left after the eviction |
| GrowableBuffers.RefillIff | a refilled buffer holds what was appended | it has its block, or the data is empty or larger than the old capacity |
| CurlStoreModel.KeepSingleTightIff | above its maximum the pool holds busy hosts only, after a single Keep | the pool is not too large, or the host has other users |
| EventHandshake.RestIff | the map of pending callbacks is empty at rest | no flush ended, or when the last one did no source had exactly one of its two marks behind it |
| ConfigLayering.RestoreUndoesIff | a restore undoes an owner's writes | no later write came from a higher owner |
| ConfigLayering.DropIsRestore | ignoring the application's live offset is a restore of that setting | not both owners are the application, or the two values agree |
| Base64.StringWritesFitIff | decoding a C string writes within its block | the length is not 1 modulo 4, or some whole group decodes short |
| Base64Url.RoundTripIff | base64url decoding undoes encoding | the length is not a multiple of 3, or the block happened to hold a NUL there |
| Base64Url.UrlWritesFitIff | ... and writes within its block | the length is not a multiple of 3, or the first stray byte is a NUL, or the second is not |
| Base16.WritesFitIff | base16_Decode writes within its block | the length is even |
| Base16.EncodeDecodeIff | encoding a decoded text gives it back, in lower case | the text is all hexadecimal digits |

Concrete inputs for the other side are PlaylistCache.RemoveMainWithRedirect, PlaylistLeaks.RedirectLeaks,
InitFragCollisions.CollisionDangles and CollisionLeaks, CurlStoreModel.SingleKeepLoosens and
EventHandshake.FlushLeavesStaleEntry.

Two comments in the source disagree with the code, and the model follows the code. AampCacheHandler.cpp:63 says
that eviction makes room among files of the same type, but it drops every file of that type, and every
playlist type if that is not enough. AampCacheHandler.cpp:466-469 and 557-560 call the redirect the duplicate
entry, but mDuplicateEntry is set on the main entry.

## Model

| member | source | states |
|---|---|---|
| Scheduler.AampScheduler.ScheduleTask | AampScheduler.cpp:64-97 | a call made without interference queues the task under the next id, with the wrap at INT_MAX, or is refused when stopped, locked out, or in ERROR or RELEASED |
| Scheduler.AampScheduler.TakeTask | AampScheduler.cpp:125-129 | the worker's dequeue: the front leaves the queue and becomes the current task |
| Scheduler.AampScheduler.RemoveTask | AampScheduler.cpp:218-240 | removes the first queued task with the id and reports it, unless the id is invalid or that of the current task |
| Scheduler.AampScheduler.RemoveAllTasks | AampScheduler.cpp:156-168 | empties the queue and touches nothing else |
| SchedulerCore.IdOfDistinct | AampScheduler.cpp:76-81 | tasks queued less than INT_MAX-1 apart have different ids |
| SchedulerProtocol.LocksKept | AampScheduler.cpp:102-151 | every step of every thread keeps both mutexes with exactly the threads whose program counters say so, and a sleeping worker has an empty queue and, once stopping, a notify still to come |
| SchedulerProtocol.FifoKept | AampScheduler.cpp:74-85 | what was taken followed by what is queued is always in schedule order |
| SchedulerProtocol.IdsKept | AampScheduler.cpp:76-83 | ids and the current id are the wrapped schedule numbers |
| SchedulerProtocol.ReachableInv | AampScheduler.cpp:102-240 | every reachable state of every interleaving satisfies all scheduler invariants |
| SchedulerGuarantees.ExactlyOnePlace | AampScheduler.cpp:123-141 | every task ever queued is, once, queued, held, done, skipped or removed |
| SchedulerGuarantees.ReachableConserves | AampScheduler.cpp:74-141 | the same over every run, with tasks taken and begun in schedule order |
| SchedulerGuarantees.HeldOnlyUnderExecLock | AampScheduler.cpp:118-140 | a task taken and not finished exists only while the worker holds mExMutex |
| SchedulerGuarantees.SuspendedMeansIdle | AampScheduler.cpp:198-203 | once SuspendScheduler has returned no task is held and every begun task has finished |
| SchedulerGuarantees.NothingRunsWhileSuspended | AampScheduler.cpp:198-213 | until ResumeScheduler or StopScheduler begins, nothing is queued, taken, begun or finished |
| SchedulerGuarantees.SuspendBarrier | AampScheduler.cpp:113-140 | after SuspendScheduler and RemoveAllTasks no task queued before is executing, and none begins or goes on in any continuation |
| SchedulerGuarantees.RemovedNeverRuns | AampScheduler.cpp:218-240 | a task RemoveTask reports removed never runs, in any continuation |
| SchedulerGuarantees.RemoveTaskExact | AampScheduler.cpp:218-240 | within one id period queued ids are distinct and RemoveTask succeeds iff a queued task has the id, taking out that one task |
| SchedulerGuarantees.IdsStayValid | AampScheduler.cpp:76-81 | ids stay in [1, INT_MAX-1] and the branch for an invalid id at line 145 is never taken |
| SchedulerGuarantees.NeverStuck | AampScheduler.cpp:102-213 | no thread waits for mExMutex while holding mQMutex, and somebody can move unless the client is between calls and the worker has nothing it may do |
| SchedulerGuarantees.QueuedTaskNotStranded | AampScheduler.cpp:105-121 | with a task queued and nobody suspending, the worker can move |
| SchedulerGuarantees.StopCompletes | AampScheduler.cpp:173-193 | StopScheduler returns: worker and stopper take at most 17 more steps under any interleaving and one of them can move until then |
| SchedulerGuarantees.NothingRunsAfterStop | AampScheduler.cpp:173-193 | after StopScheduler has returned no task is taken or run |
| SchedulerGuarantees.UninterruptedCall | AampScheduler.cpp:64-97 | the steps of one call alone, with its unlocked reads, do what the method above does, and the id returned is that of the task queued |
| SchedulerExecution.EveryTakenTaskBegins | AampScheduler.cpp:123-141 | in a run in which the player stays playable nothing is skipped: what was taken is what has begun, in order, then the task just being judged, if any |
| SchedulerExecution.NothingBeginsWhileBlocked | AampScheduler.cpp:131-138 | from a state in ERROR or RELEASED no task begins until the player becomes playable again |
| SchedulerExecution.ScheduleRule | AampScheduler.cpp:64-97 | which calls are refused, and the id, queue and next id of those that are not, with INT_MAX in figures |
| SchedulerExecution.StoppedQueuesNothing | AampScheduler.cpp:64-97 | a stopped scheduler queues nothing in any continuation once no call is past its check of mSchedulerRunning |
| SchedulerExecution.BlockedQueuesNothing | AampScheduler.cpp:64-97 | nor does one in ERROR or RELEASED, until the player becomes playable, once no call is past its check of the state |
| SchedulerExecution.CurrentNeverRemoved | AampScheduler.cpp:218-240 | RemoveTask refuses id 0 and the id of the current task |
| SchedulerExecution.RemoveAllDiscards | AampScheduler.cpp:156-168 | RemoveAllTasks, whoever calls it, leaves the queue empty, and none of the tasks that were in it begins in any continuation |
| SchedulerExecution.StopEmptiesQueue | AampScheduler.cpp:173-193 | in every run the queue is empty from StopScheduler's RemoveAllTasks until the lockout is lifted |
| EventManager.AampEventManager.PushEvent | AampEventManager.cpp:345-351 | the locked section of SendEventAsync: the event is appended unless the player is released |
| EventManager.AampEventManager.PopEvent | AampEventManager.cpp:324-332 | the locked section of AsyncEvent: the oldest event is popped if there is one |
| EventManager.AampEventManager.SetCallbackAsPending | AampEventManager.cpp:460-476 | the first of the two marks leaves an entry, the second removes it, under the source's assert |
| EventManager.AampEventManager.SetCallbackAsDispatched | AampEventManager.cpp:439-455 | the mirror image of the above |
| EventManager.AampEventManager.FlushPendingEvents | AampEventManager.cpp:85-111 | drops all events in order, removes exactly the nonzero ids marked pending, clears the map and the statistics |
| EventHandshake.InvKept | AampEventManager.cpp:322-362 | every step of senders, main loop and flushes keeps the five invariants |
| EventHandshake.NoStrandedEvent | AampEventManager.cpp:342-362 | queued events never outnumber outstanding callbacks, and at rest the queue is empty |
| EventHandshake.PushOrder | AampEventManager.cpp:327-350 | events leave the queue and are sent in push order |
| EventDelivery.EveryEventIsSent | AampEventManager.cpp:322-362 | in runs without flushes, releases and missing listeners: every event that entered SendEventAsync is still on its way in or queued, what left the queue is what was sent and the event in hand, and at rest all events have been sent in push order |
| EventDelivery.NothingSentWhileReleased | AampEventManager.cpp:322-351 | while the player is released no event is sent and none is queued, in any run |
| EventDelivery.NothingSentUnheard | AampEventManager.cpp:334-336 | in a run in which no listener is registered when events are popped, none is sent |
| EventHandshake.AssertsHold | AampEventManager.cpp:439-476 | neither assert fails in any run, flushes included, when source ids are not reused |
| EventHandshake.FlushFreeHandshake | AampEventManager.cpp:439-476 | without flushes the map holds true for pending and not dispatched, false for the reverse, nothing else; at rest it is empty |
| EventHandshake.RestIff | AampEventManager.cpp:85-107 | at rest after any run the map holds exactly the sources that had one mark made and the other to come when the last flush ended, so it is empty iff there were none |
| EventHandshake.FlushLeavesStaleEntry | AampEventManager.cpp:94-107 | a concrete run in which a flush between the two marks leaves an entry at rest |
| EventHandshake.SourceRunsOnce | AampEventManager.h:98-105 | a source is dispatched at most once and never after a flush removed it |
| EventListeners.ListenerList.AddEventListener | AampEventManager.cpp:155-174 | one more registration, at the end of the registration order; NULL is ignored |
| EventListeners.ListenerList.RemoveEventListener | AampEventManager.cpp:179-201 | drops the newest registration of the listener and keeps the others in order |
| EventListeners.RemoveNewestExact | AampEventManager.cpp:186-198 | the newest registration is the last match, and nothing else goes; an absent listener changes nothing |
| EventListeners.SendEventSync | AampEventManager.cpp:368-429 | calls the "all events" listeners and then the type's, both in registration order as they were on entry, whatever handlers and other threads add or remove between the calls, and counts the event; nothing when released |
| GrowableBuffers.GrowableBuffer.AppendBytes | AampMemoryUtils.cpp:46-69 | appends the bytes within the block, with the source's growth of avail; for a buffer released with its length left too |
| GrowableBuffers.GrowableBuffer.Free | AampMemoryUtils.cpp:34-41 | releases the block and keeps len and avail |
| GrowableBuffers.GrowthPolicy | AampMemoryUtils.cpp:46-69 | over any appends and resets: contents are what was appended since the last reset, avail is at most twice the peak, bytes moved never exceed avail nor twice all bytes appended |
| GrowableBuffers.Doubling | AampMemoryUtils.cpp:46-69 | after n appends of one byte to a new buffer avail is the least power of two from n and 2 on, and the reallocations moved avail - 2 bytes |
| GrowableBuffers.CapacityRule | AampMemoryUtils.cpp:51-62 | avail after one append: unchanged if the bytes fit, else the larger of twice avail and twice the bytes needed |
| GrowableBuffers.RefillIff | AampMemoryUtils.cpp:34-69 | exactly when a buffer refilled from length 0 holds the new bytes |
| PlaylistCacheHandler.AampPlaylistCache.InsertToPlaylistCache | AampCacheHandler.cpp:31-105 | live playlists and known URLs are ignored; a new manifest flushes; size checks, eviction and the redirect entry as on values |
| PlaylistCacheHandler.AampPlaylistCache.AllocatePlaylistCacheSlot | AampCacheHandler.cpp:189-255 | the two eviction passes with their byte counts equal one drop of a key set |
| PlaylistCacheHandler.AampPlaylistCache.RetrieveFromPlaylistCache | AampCacheHandler.cpp:111-136 | a hit refills the caller's buffer and sets the effective URL, a miss changes nothing; the exact condition for the caller to get the bytes |
| PlaylistCacheHandler.AampPlaylistCache.RemoveFromPlaylistCache | AampCacheHandler.cpp:141-163 | erases one entry and frees its buffer if the entry owns it; the cache stays sound iff no other entry names that buffer |
| PlaylistCacheHandler.AampPlaylistCache.ClearPlaylistCache | AampCacheHandler.cpp:168-184 | frees every owned buffer once, empties the map and the counter |
| PlaylistCache.InsertKeeps | AampCacheHandler.cpp:31-105 | an insert keeps the cache sound and within budget, whatever it evicts and whatever redirect key it overwrites |
| PlaylistCache.InsertHits | AampCacheHandler.cpp:31-136 | an accepted insert is found under both URLs; every other entry left was there before, with the same bytes and effective URL |
| PlaylistCache.HitIsLastInsert | AampCacheHandler.cpp:31-184 | over any run from any sound cache a hit returns what the last insert stored under that key |
| PlaylistCache.EvictionRule | AampCacheHandler.cpp:204-252 | eviction spares the manifest, and other types if the playlist's own type frees enough; there is room iff all playlists together free enough |
| PlaylistRules.NewManifestFlushes | AampCacheHandler.cpp:41-57 | a manifest not cached yet frees every owned buffer; only its own one or two keys are left, or none if it is not smaller than the limit; the counter is its size or 0 |
| PlaylistRules.InsertStoresIff | AampCacheHandler.cpp:41-70 | exactly when an insert stores, in terms of the limit, the counter, the size and the bytes that playlist entries own |
| PlaylistRules.PlaylistInsertRule | AampCacheHandler.cpp:58-252 | the whole cache after the insert of a playlist: which entries go and what is freed, the one or two entries added with their flags, and the counter |
| PlaylistCache.TwoPasses | AampCacheHandler.cpp:204-247 | the second pass over what the first left is one pass over all playlist types, with the bytes adding up |
| PlaylistCache.RemoveSoundIff | AampCacheHandler.cpp:141-163 | removal keeps the cache sound iff the entry is absent, a redirect, or alone with its buffer |
| PlaylistCache.RemoveMainWithRedirect | AampCacheHandler.cpp:141-163 | removing a main entry whose redirect is cached leaves an entry with a freed buffer |
| PlaylistCache.RemoveKeeps | AampCacheHandler.cpp:141-163 | any other removal keeps the cache sound and within budget although the counter stays |
| PlaylistCache.CacheIsSimpleMap | AampCacheHandler.cpp:31-255 | over all runs from the empty cache: hits are last inserts, no entry names a freed buffer, distinct reachable bytes never exceed the counter or a finite limit |
| PlaylistLeaks.StepNoLeakIff | AampCacheHandler.cpp:77-96 | a step keeps every live buffer owned by an entry iff it does not overwrite, with a redirect entry, an owning one |
| PlaylistLeaks.ClearFreesAllIff | AampCacheHandler.cpp:31-255 | over all runs: a clear has freed every buffer ever allocated iff no redirect entry overwrote an owning one |
| PlaylistLeaks.RedirectLeaks | AampCacheHandler.cpp:77-96 | two inserts after which a clear leaves a buffer |
| InitFragCacheHandler.AampInitFragCache.InsertToInitFragCache | AampCacheHandler.cpp:423-501 | a new URL is stored and queued, an overflow evicts, the redirect entry shares the buffer; the cache stays sound iff the redirect URL collides with no key left |
| InitFragCacheHandler.AampInitFragCache.RetrieveFromInitFragCache | AampCacheHandler.cpp:506-532 | as for playlists |
| InitFragCacheHandler.AampInitFragCache.RemoveInitFragCacheEntry | AampCacheHandler.cpp:538-582 | the oldest main entry of the type, its redirect and its buffer go |
| InitFragCacheHandler.AampInitFragCache.ClearInitFragCache | AampCacheHandler.cpp:587-613 | every live buffer is freed once and both tables are empty |
| InitFragCache.InsertSoundIff | AampCacheHandler.cpp:436-493 | an insert keeps queues, redirects and heap consistent iff its redirect collides with no key left after the eviction |
| InitFragCache.InsertIsFifo | AampCacheHandler.cpp:451-491 | the new URL goes to the back of its queue; a full queue loses its front, and exactly that URL, its redirect and its buffer leave |
| InitFragCache.InsertEntries | AampCacheHandler.cpp:436-493 | the main entry is flagged and a redirect added iff the effective URL is neither empty nor the URL; every other entry was there before, unchanged |
| InitFragCache.InsertBounded | AampCacheHandler.cpp:470-473 | no queue outgrows MaxInitCacheSlot (or one entry when that is 0) |
| InitFragCache.ClearFreesEachOnce | AampCacheHandler.cpp:587-601 | the unflagged entries name every live buffer, each once, so the clear frees all and none twice |
| InitFragRuns.HitIsLastInsert | AampCacheHandler.cpp:423-532 | a hit returns what the last insert stored under that key, as main or as redirect URL |
| InitFragRuns.RunOrder | AampCacheHandler.cpp:451-473 | over any run each queue stays the last MaxInitCacheSlot main URLs stored, in insertion order |
| InitFragRuns.CacheIsFifo | AampCacheHandler.cpp:423-613 | over all runs from the empty cache: hits are last inserts, each queue is the last mains stored since the last clear, in order and within the limit, and exactly the cached mains, and a final clear has freed every buffer ever allocated |
| InitFragCollisions.CollisionDangles | AampCacheHandler.cpp:483-491 | three inserts, one colliding, after which an entry names a freed buffer |
| InitFragCollisions.CollisionLeaks | AampCacheHandler.cpp:561-572 | three inserts, one colliding, after which a clear leaves a buffer |
| CurlStores.CurlSocketStore.GetCurlHandleFromFreeQ | AampCurlStore.cpp:545-584 | the lookup on one host's queue, and which handles it cleans up |
| CurlStores.CurlStore.FindVictim | AampCurlStore.cpp:812-827 | the scan, in any order, arrives at an idle host used no later than any other idle one, or at none when all are busy |
| CurlStores.CurlStore.RemoveCurlSock | AampCurlStore.cpp:812-867 | removes that host and cleans up its queue |
| CurlStores.CurlStore.GetFromCurlStoreBulk | AampCurlStore.cpp:590-663 | the new store, slots and cleaned-up handles; for slots NULL before, HOST_SOCK_AVAILABLE iff the host was known and every slot is filled |
| CurlStores.CurlStore.GetFromCurlStore | AampCurlStore.cpp:669-723 | one handle from the host's queue, with HOST_SOCK_AVAILABLE, or a new one, with one of the other two codes; an unknown host is created |
| CurlStores.CurlStore.KeepInCurlStoreBulk | AampCurlStore.cpp:729-776 | slots move to the host's queue, the unsigned user count goes down by one, and a table that is too large shrinks; an unknown host changes nothing |
| CurlStores.CurlStore.KeepInCurlStore | AampCurlStore.cpp:782-806 | the same for one handle, without shrinking |
| CurlStores.CurlStore.CreateCurlStore | AampCurlStore.cpp:238-270 | a full table first evicts, then the host is added with one user |
| CurlStores.CurlStore.InitSlots | AampCurlStore.cpp:441-460 | each slot still NULL gets a new handle |
| CurlPool.LookupExact | AampCurlStore.cpp:545-584 | in timestamp order: exactly the expired prefix is cleaned up, one entry of the right id and age is taken with the rest in order, or none and no strictly younger match was there |
| CurlPool.LookupConserves | AampCurlStore.cpp:545-584 | a lookup neither loses nor duplicates a handle |
| CurlStoreModel.AvailableMeansFilled | AampCurlStore.cpp:608-638 | the bulk loop reports success iff it filled every slot asked for |
| CurlStoreModel.InvKept | AampCurlStore.cpp:590-806 | every step keeps user counts equal to outstanding Gets, queues in timestamp order, and the size bound |
| CurlStoreModel.EvictsOnlyVictim | AampCurlStore.cpp:260-264 | a host leaves only as the victim of the step's scan, so at most one per step and none below the maximum |
| CurlStoreModel.AlwaysEnabled | AampCurlStore.cpp:812-867 | whatever the store, a step that follows the protocol has an outcome |
| CurlStoreModel.TightKept | AampCurlStore.cpp:642-768 | every step but a single Keep leaves a store above its maximum with busy hosts only |
| CurlStoreModel.KeepSingleTightIff | AampCurlStore.cpp:782-806 | exactly when a single Keep does so too |
| CurlStoreModel.SingleKeepLoosens | AampCurlStore.cpp:782-806 | two Gets and a single Keep after which it does not |
| CurlConservation.EffectConserves | AampCurlStore.cpp:590-806 | every step keeps each handle in exactly one queue, slot, client or among those cleaned up |
| CurlConservation.PoolKeepsItsPromises | AampCurlStore.cpp:590-867 | over all runs in which clients follow the protocol and the clock does not go back: every handle made is in one place, a host with Gets to match is in the store with that many users, so Keep finds it, size at most the larger of the maximum and the peak of busy hosts, and with no single Keeps above the maximum only if all are busy |
| CurlProvenance.KeepThenGet | AampCurlStore.cpp:590-776 | a bulk Keep into an empty pool and a bulk Get give every slot its own handle back, if not expired, and leave the pool empty |
| CurlProvenance.BulkHandleWasKept | AampCurlStore.cpp:590-806 | over all runs: a handle a bulk Get finds for a slot was kept for that host under that slot's id, 300000 ms before at most |
| CurlProvenance.SingleHandleWasKept | AampCurlStore.cpp:669-806 | the same for a single Get, which makes one new handle if it finds none |
| CurlProvenance.BulkReuses | AampCurlStore.cpp:608-638 | a bulk Get fills every slot for whose id the pool has a handle younger than the limit |
| CurlProvenance.SingleReuses | AampCurlStore.cpp:669-723 | a single Get makes no new handle if the pool has a young one for its id |
| CurlRecency.EvictsLeastRecentlyUsed | AampCurlStore.cpp:812-827 | over all runs: a host that leaves has no Gets to match, the store is over its maximum, or at it with a new host to come, and no other such host was last used earlier |
| CurlRecency.FillsMissing | AampCurlStore.cpp:441-460 | the NULL slots of the range get handles made then, all different; every other slot keeps what it holds |
| ConfigLayering.SetValue | AampConfig.cpp:2055-2074 | one write against the array of settings |
| ConfigLayering.AampConfig.RestoreConfiguration | AampConfig.cpp:2140-2207 | the five loops restore exactly the settings of that owner, slot 0 of four arrays excepted |
| ConfigLayering.AampConfig.DoCustomSetting | AampConfig.cpp:2019-2046 | the AuthToken and LiveOffset blocks |
| ConfigLayering.HighestPriorityWins | AampConfig.cpp:2055-2074 | after any writes there is one last write of highest priority, and the setting holds it |
| ConfigLayering.RestoreUndoesIff | AampConfig.cpp:2140-2207 | RestoreConfiguration(o) undoes o's writes iff no later write came from above o |
| ConfigLayering.SecondRestoreIdle | AampConfig.cpp:2145-2150 | after a restore that changed something no further restore changes anything |
| ConfigLayering.AlwaysLayered | AampConfig.cpp:2055-2207 | lastowner never exceeds owner, over any writes, restores and custom settings |
| ConfigLayering.AuthTokenRestored | AampConfig.cpp:2019-2033 | an application's AuthToken passed through DoCustomSetting is restored by TUNE to its value before the application's first write; a plain TUNE write would restore the application's |
| ConfigLayering.OnlyApplicationsCustom | AampConfig.cpp:2019-2046 | after any writes: both blocks change a setting iff its winning write is the application's (3), and then the token goes to 4 with its value and undo level, the live offset to its undo level |
| ConfigLayering.DropIsRestore | AampConfig.cpp:2034-2046 | the LiveOffset block does what RestoreConfiguration for the application would, unless the application is both owner and last owner with two values |
| Base64.Base64Encode | _base64.cpp:37-84 | the loop writes exactly the encoding, in a block of 4*((len+2)/3) characters |
| Base64.Base64Decode | _base64.cpp:91-164 | for a source of any length and the memory behind it: the loop writes exactly the decoding, from the start of its block, and nothing else |
| Base64.WritesFitIff | _base64.cpp:127-156 | the writes stay within the (srcLen*3)/4 bytes iff the source is of whole groups, or one decodes short, or the partial one does |
| Base64.StringWritesFitIff | _base64.cpp:127-174 | for a C string: iff its length is not 1 modulo 4, or some whole group decodes short |
| Base64.EncodedLength | _base64.cpp:44 | four characters for every three bytes begun |
| Base64.RoundTrip | _base64.cpp:37-164 | decoding undoes encoding, for every byte string |
| Base64Url.Base64UrlEncode | AampUtils.cpp:304-332 | the C string made is the encoding in the URL alphabet without padding, whatever malloc left behind it |
| Base64Url.Base64UrlDecode | AampUtils.cpp:340-361 | decodes the string in the block it rebuilds, whatever the uninitialised bytes in it |
| Base64Url.BufferIsEncoding | AampUtils.cpp:343-356 | the rebuilt block is the padded encoding, followed after whole groups by two stray bytes and "==" |
| Base64Url.RoundTripIff | AampUtils.cpp:304-361 | the round trip holds iff the length is not a multiple of 3 or the first stray byte was a NUL |
| Base64Url.UrlWritesFitIff | AampUtils.cpp:340-361 | on an encoding, base64_Decode writes within its block iff the length is not a multiple of 3, or the first stray byte was a NUL, or the second was not |
| Base16.Base16Encode | base16.cpp:39-58 | the loop writes two digits per byte |
| Base16.Base16Decode | base16.cpp:67-105 | for a source of any length: the loop writes one byte per two characters begun, and nothing else |
| Base16.WritesFitIff | base16.cpp:87-97 | the writes stay within the srcLen/2 bytes iff srcLen is even |
| Base16.Stream2Hex | AampUtils.cpp:1003-1013 | the loop with its look-ahead writes the arithmetic digits |
| Base16.StreamIsEncode | AampUtils.cpp:1003-1013 | stream2hex in lower case is base16_Encode |
| Base16.DecodeStream | base16.cpp:67-105 | base16_Decode inverts stream2hex in both cases |
| Base16.DecodeEncode | base16.cpp:39-105 | base16_Decode inverts base16_Encode |
| Base16.EncodeDecodeIff | base16.cpp:39-105 | encoding a decoded text gives it back in lower case iff it is all hexadecimal digits |
| Alphabets.CharacterLaw | _base64.cpp:37-84 | every character of every encoding: '=' behind a short group, else the one of the spelled-out alphabet at the position its six bits give |
| Alphabets.UrlCharacterLaw | AampUtils.cpp:304-332 | the same for base64url with '-' and '_', and the length, without padding |
| Alphabets.DecodeReaches | _base64.cpp:127-164 | exactly how many bytes a decoding has, for any source: which characters must be in the alphabet ('-' included) for byte k to be written |
| Alphabets.DecodedByteLaw | _base64.cpp:127-164 | every byte of a decoding from the positions of its two characters, '-' standing where '/' does |
| Alphabets.StrayByteLaw | _base64.cpp:127-164 | the bytes that come from a first or second character outside the alphabet, which does not stop the decoder |
| Alphabets.DigitLaw | AampUtils.cpp:1003-1013 | every character of stream2hex in both cases, and of base16_Encode, from the spelled-out digits |
| Alphabets.HexByteLaw | base16.cpp:67-105 | every byte of base16_Decode, digits of either case and other characters |

## Left out

Scheduler:

- Memory model: reads of mSchedulerRunning and mState are atomic and sequentially consistent.
- One client suspends, resumes and stops, in alternation; EnableScheduleTask during a suspension, Resume without Suspend, and a restart after Stop are not in the state machine.
- Task bodies terminate and do not call Suspend, Resume or Stop.
- Fairness: that a waiting Suspend is eventually granted is not stated; only that no state is stuck and that Stop needs finitely many steps.

Event manager:

- g_idle_add_full never returns 0 and never reuses an id; the rest of AsyncEvent after the pop is one step.
- SendEvent's routing between synchronous and asynchronous mode, the fake-tune filter and the event-type range checks.

Caches:

- AsyncCacheCleanUpTask and its thread: cache operations are atomic.
- PlaylistCache.CacheIsSimpleMap: its runs contain no removal that frees a buffer another entry names; PlaylistCache.RemoveSoundIff says exactly when that breaks the cache.
- InitFragRuns.CacheIsFifo: its runs contain no colliding redirect; InitFragCache.InsertSoundIff says exactly when that breaks the cache.
- Changing a limit in the middle of a run, and overflow of mCacheStoredSize and of size_t sums.
- The bytes to insert come as a sequence, and the object that `new GrowableBuffer()` yields comes as a parameter.
- aamp_MoveBytes, aamp_AppendNulTerminator, and allocation failure.

Curl pool:

- Share handles, their locks, and curl options; MaxCurlSockStore negative; CurlTerm without a store.
- More than 2^32 - 2 Gets to match on one host.
- The clock never goes backwards.

Configuration:

- SetConfigValue's range checks and index dispatch, the JSON and text readers, and the other blocks of DoCustomSetting.

Codecs:

- What the bytes are that lie behind a source or a block: they are arbitrary, and the fit of the writes is stated for them.

Also left out: GStreamer, Thunder, downloading, ABR, profiling and logging.
