# rayd, verified

rayd is a task, actor and object runtime in the style of Ray: a control service that tracks
nodes, a raylet per node, a shared-memory object store with spilling to disk, a driver that dispatches
tasks to worker processes, and actors in subprocesses of their own. This project models its state-heavy
parts in Dafny and proves what they keep over every run.

Concurrent parts are step machines: a state, a total `Next` (a step that is not enabled changes nothing)
and a `Run` over any sequence of steps, so that a theorem about `Run(steps)` covers every interleaving,
including failures at any point. Code that updates fields in place is a class whose methods are proved
against the same functions. `dafny verify dfyconfig.toml` checks the whole project.

| module | part of rayd |
|---|---|
| `Registry`, `WatchStream`, `WatchClient` | node registry, replay buffer and broadcast; one watch stream; the resuming client and its node index |
| `RegistryServer`, `WatchLoop` | the same registry and client as objects with loops |
| `WatchOrder`, `WatchLimits`, `WatchRuns`, `Publishers` | what overtaking in publication can lead to; the limits of resuming; how such runs are built; publish calls that overlap |
| `Tiers`, `Alone`, `CoreWorker`, `ObjectManager` | plasma, spill files and index under concurrent seal, spill, resolve and Pull; whole operations from any state the others left; the core worker's methods and its pressure pass; the spill manager down to bytes |
| `RefCounter`, `Lifecycle`, `Borrowing`, `Frees`, `LateHolds` | reference counts; puts, releases, registrations and frees interleaved with all of the above; when directory and counter agree; when a freed object is gone; holds that come too late |
| `Arena`, `Plasma`, `PullStream` | the bump allocator; the object table and read handles over shared bytes; a Pull over an open handle |
| `TaskManager`, `Dispatch`, `Attempts` | lineage records; the job queue, its handlers and shutdown; one attempt per task |
| `Actor` | an actor's subprocess: calls in flight, crashes, restarts |
| `SpillFormat`, `SpillFiles`, `Transport`, `Framing`, `ErrorPayload`, `Bytes`, `Enumeration` | names, file layout and concurrent writers; chunked transfer; socket frames; the error codec |

## Where the code falls short of what one would like

Each of these has a lemma that shows it happen, and one that says exactly when it does.

- A stream resumed at event k repeats event k when that event was replayed from the buffer before it was
  broadcast (`ReplayedBeforeBroadcastIsDuplicated`; exactly when: `ResumedStreamIsContiguous`).
- A resume rejected while the stream is being opened keeps its token for ever, although the module's
  comment says the token is dropped (`StuckIsReached`, `RejectedResumeIsForever`; exactly when:
  `CatchesUpIff`).
- Registration and sweep publish after releasing the lock. If the newest event about a node overtakes an
  older one that says something else, a caught-up index may show the older (`OvertakingGoesWrong`,
  `OvertakenPublishIsStale`); it never shows anything but the registry's status or the newest event published
  (`IndexShowsNewest`), and without such overtaking it is right (`IndexConverges`; exactly when the two
  differ: `StatusInvStep`).
- Two overlapping publish calls may push in the order opposite to their numbers, and a client that resumes with
  the larger number never gets the smaller one (`LateEventIsSkipped`; exactly when: `NumberedIff`).
- `restore` reports any read error as corruption, so one failed read of a good file makes the object
  unreadable (`FailedReadLosesObject`; exactly when: `StoreRefinesMap`).
- A Pull may answer "not found" for an object that was readable all along (`PullMayMissReadable`; exactly
  when: `PullLookupMissesIff`, `PullReopenMissesIff`).
- A spill or a read that holds the bytes when the object is freed brings it back afterwards
  (`SpillOutlivesFree`; exactly when: `GoneForGoodIff`). A free whose plasma delete fails leaves
  everything but the index entry, and one of an object whose spill entry was purged leaves the file
  (`FreeAloneDoes`).
- A peer's removal that begins and ends inside its registration leaves it pinning an object it is not listed
  for; a registration inside a removal leaves it listed for an object that may be freed under it
  (`RemovalInsideRegistration`, `RegistrationInsideRemoval`; exactly when: `HoldersAreBorrowersIff`).
- A registration half done when the object's free completes ends with a borrower that pins nothing
  (`BorrowerOfNothing`; exactly how long there is something to pin: `KeptUntilDropped`).
- A spill that fails leaves its temporary file behind (`GivenUpForEver`; exactly which are left: `TempNamesIff`).
- Two creations of one id may overlap, and a seal goes by id: it may seal a slot its creator has not written
  yet (`ForeignSealExposesUnwritten`; exactly when: `SealedIsWrittenIff`; what clients can do about it:
  `WellBehavedIsDisciplined`).
- A submit that races shutdown, or a send that fails after it, can leave a job nobody will take
  (`SubmitRacingShutdownIsStranded`, `BuildingStrands`; exactly when: `NothingStrandedIff`; which jobs:
  `StrandedArePushedLate`).
- A job whose worker disconnects, whose frame cannot be built, whose completion cannot be ingested, or whose
  submitter finds the flag set is never offered for resubmission (`LostIsForever`; exactly when: `LostIff`).
- An actor that exits after sealing a result and before its completion is read interrupts its own crash
  handler: other calls are lost and the actor is neither restarted nor declared dead
  (`CrashAfterSealLosesCalls`, `AbandonedHangs`; exactly when: `CrashHandled`).
- The driver sends frames between 64 MiB and 4 GiB that every receiver refuses (`WriteFrame`).

## Model

| member | source | states |
|---|---|---|
| `Registry.LivenessOverRuns` | crates/rayd-gcs/src/service.rs:129-347 | Over every run of register, drain, heartbeat, sweep and publish actions: the alive gauge equals the number of alive nodes; no node is forgotten, becomes alive again, or leaves draining. |
| `Registry.AliveIffHeartbeatsInTime` | crates/rayd-gcs/src/service.rs:129-160 | From any state in which a node is alive, after every run it is draining if and only if it was asked to drain, and otherwise dead if and only if some sweep's deadline was later than its latest heartbeat. |
| `Registry.NodeSinceRegistration` | crates/rayd-gcs/src/service.rs:199-240 | In every run a node keeps the address and time of its first accepted registration; it is draining if and only if asked to drain since, and otherwise dead if and only if some later sweep's deadline exceeded the latest of its registration and its heartbeats. |
| `Registry.KnownIffRegistered` | crates/rayd-gcs/src/service.rs:199-240 | In every run exactly the nodes that registered with a non-empty host are known. |
| `Registry.LogInvStep` | crates/rayd-gcs/src/service.rs:90-104 | Every action keeps the event log numbered 1, 2, 3, ..., the replay buffer its newest stretch of bounded length, and the broadcast channel its sent prefix. |
| `Registry.StatusInvStep` | crates/rayd-gcs/src/service.rs:129-270 | An action keeps the newest record of each node, published or waiting, equal to the registry's status for it if and only if it does not publish that record ahead of an older one that says something else. |
| `Publishers.NumberedIff` | crates/rayd-gcs/src/service.rs:90-104 | However publish calls overlap, what has been pushed is numbered 1, 2, 3, ... in order if and only if no call ever pushed while one with a smaller number had yet to. |
| `Publishers.LateEventIsSkipped` | crates/rayd-gcs/src/service.rs:90-121 | A run of two overlapping calls after which no resume with a token from the larger number on ever replays the other event, whatever is published later. |
| `WatchStream.CatchupReplays` | crates/rayd-gcs/src/service.rs:106-121 | A resume from token k > 0 that passes the floor check replays exactly the events pushed after k, in order. |
| `WatchStream.BelowFloorIff` | crates/rayd-gcs/src/service.rs:296-306 | A resume is below the floor if and only if its token is not 0 and more events than the replay buffer holds have been pushed since, so that the event after it has been evicted. |
| `WatchStream.ComesBackIff` | crates/rayd-gcs/src/service.rs:280-327 | A subscriber may leave at any time and come back with any token: it gets a fresh stream if and only if the event after the token has not been evicted. |
| `WatchStream.FailsIffLagged` | crates/rayd-gcs/src/service.rs:308-327 | A stream fails if and only if it comes to the next broadcast event with more of them unread than the channel holds. |
| `WatchStream.ResumedStreamIsContiguous` | crates/rayd-gcs/src/service.rs:280-327 | Whatever the interleaving, a stream opened with token k > 0 delivers one gapless, duplicate-free stretch of the log; it starts right after k if and only if a later event was buffered at catch-up or k was the newest event broadcast at subscription. |
| `WatchClient.IndexShowsNewest` | crates/rayd-raylet/src/watch_nodes.rs:33-141 | Over any run with disconnects, lag, resets and resumes, in whatever order records are published, a client that has consumed everything published lists exactly the nodes whose address parses, each at that address and with the registry's status or with that of the newest record published about it. |
| `WatchClient.IndexConverges` | crates/rayd-raylet/src/watch_nodes.rs:33-141 | Over any run in which no newest record about a node is published ahead of an older, different one, such a client caches exactly the registry's status of every node whose address parses. |
| `WatchClient.DeathsAreReported` | crates/rayd-raylet/src/node_index.rs:51-95 | Over any run, caught up or not and in whatever order records are published, every node the index shows dead has been reported, and no alive node has. |
| `WatchClient.ReportsEachDeath` | crates/rayd-raylet/src/watch_nodes.rs:121-137 | Consuming an event reports its node if and only if the record is usable and the index turns to dead by it. |
| `WatchClient.TokenIsHonest` | crates/rayd-raylet/src/watch_nodes.rs:97-141 | Over any run, in whatever order records are published, the resume token never exceeds what was pushed, and an open stream still holds what the token asks for, at most one event early. |
| `WatchClient.RejectedResumeIsForever` | crates/rayd-raylet/src/watch_nodes.rs:42-55 | A client without a stream that has seen an event, and has missed more since than the replay buffer holds, never changes again in any continuation. |
| `WatchLimits.CatchesUpIff` | crates/rayd-raylet/src/watch_nodes.rs:33-88 | From every reachable state some continuation ends with the client caught up if and only if it has a stream, has seen nothing yet, or has missed no more events than the replay buffer holds; after a run without overtaking, caught up and right. |
| `WatchLimits.StuckIsReached` | crates/rayd-raylet/src/watch_nodes.rs:42-55 | A run that gets there: one event seen, the stream lost, and one event more than the replay buffer holds published since. |
| `WatchLimits.ReplayedBeforeBroadcastIsDuplicated` | crates/rayd-gcs/src/service.rs:90-104 | A run of registry, server and raylet in which the client receives an event by replay, resumes with its number, and receives it again live. |
| `WatchOrder.OvertakingGoesWrong` | crates/rayd-gcs/src/service.rs:129-160 | From every state reached without overtaking, with a stream open, every step that overtakes has a continuation that ends with the client caught up and wrong. |
| `WatchOrder.OvertakenPublishIsStale` | crates/rayd-gcs/src/service.rs:129-160 | A run, with a sweep overtaking a registration, after which a caught-up index and the registry disagree. |
| `RegistryServer.NodeRegistry.Publish` | crates/rayd-gcs/src/service.rs:90-104 | Takes a number, evicts the oldest buffered event when full, pushes and sends: the registry after publishing that one record. |
| `RegistryServer.NodeRegistry.Register` | crates/rayd-gcs/src/service.rs:199-240 | Rejects an empty host and changes nothing; otherwise the node is there, alive, with that host, port and id and both times now, and that record is the next event. |
| `RegistryServer.NodeRegistry.Drain` | crates/rayd-gcs/src/service.rs:245-270 | Rejects malformed and unknown ids and changes nothing; otherwise only the node's status changes, to draining, and its record is the next event. |
| `RegistryServer.NodeRegistry.Heartbeat` | crates/rayd-gcs/src/service.rs:329-347 | Rejects malformed and unknown ids; otherwise only the heartbeat time moves, and nothing is published. |
| `RegistryServer.NodeRegistry.FlipStale` | crates/rayd-gcs/src/service.rs:129-150 | The in-place loop over the node map flips exactly the stale alive nodes and collects each once. |
| `RegistryServer.NodeRegistry.ExpireStale` | crates/rayd-gcs/src/service.rs:129-160 | A whole sweep: the stale nodes are dead, each is published, and their number is returned. |
| `RegistryServer.NodeRegistry.BufferedAfter` | crates/rayd-gcs/src/service.rs:114-121 | The filter loop returns the buffered events after a sequence number. |
| `RegistryServer.NodeRegistry.Snapshot` | crates/rayd-gcs/src/service.rs:180-195 | One event per node, each node once. |
| `RegistryServer.NodeRegistry.WatchNodes` | crates/rayd-gcs/src/service.rs:280-327 | A subscription is refused if and only if more events than the replay buffer holds were broadcast after its token; otherwise it starts with everything broadcast after the token, or, without a token, with one event per node. |
| `RegistryServer.PublishAllIsRun` | crates/rayd-gcs/src/service.rs:90-104 | Publishing everything that waits is a run of the registry's actions that takes the oldest record every time, so the objects' behaviour is among the runs the theorems cover. |
| `WatchLoop.Subscriber.ApplyEvent` | crates/rayd-raylet/src/node_index.rs:51-81 | Skips records without a usable address or id; otherwise the entry becomes the record's status and address, and the answer is inserted, unchanged or changed by what was there. |
| `WatchLoop.Subscriber.ConsumeStream` | crates/rayd-raylet/src/watch_nodes.rs:97-141 | The stream loop: the token becomes the largest number seen, the index absorbs every event, deaths are reported. |
| `WatchLoop.Subscriber.Run` | crates/rayd-raylet/src/watch_nodes.rs:33-88 | The reconnect loop: a refused open keeps the token, an out-of-range end resets it, shutdown stops. |
| `WatchLoop.LoopFollowsProtocol` | crates/rayd-raylet/src/watch_nodes.rs:33-141 | Every run of registry, server and client is, for the client, the reconnect loop over the attempts it contains: their items are what the streams delivered, and the client at the end is the same. |
| `WatchLoop.TokenIsLargestSeen` | crates/rayd-raylet/src/watch_nodes.rs:97-141 | Within a stream the token never falls and ends at the largest sequence number seen. |
| `WatchLoop.LoopConsumesDelivered` | crates/rayd-raylet/src/watch_nodes.rs:33-88 | However its streams end, the loop's index and reports are those of consuming, in order, everything delivered until it notices shutdown. |
| `WatchLoop.TokenAfterAttempt` | crates/rayd-raylet/src/watch_nodes.rs:42-88 | A refused open keeps the token, an expired one drops it, and any other end leaves the largest number seen. |
| `Tiers.BytesStep` | crates/rayd-core/src/core_worker.rs:368-700 | Each single action of any thread, failed or not, keeps every copy of an object, and every copy a thread holds, equal to the bytes first sealed. |
| `Tiers.CopyStep` | crates/rayd-core/src/core_worker.rs:368-700 | Each single action keeps a copy of every sealed object in plasma or in a file, and what each thread knows of files and entries true. |
| `Tiers.StoreRefinesMap` | crates/rayd-core/src/core_worker.rs:580-700 | In every reachable intermediate state each indexed object has an intact copy in plasma or on disk; every finished resolve or Pull returned the bytes first sealed; and the object is readable if and only if plasma holds it or no failed read purged its entry. |
| `Alone.ReadAloneIff` | crates/rayd-core/src/core_worker.rs:580-700 | From every reachable store, a resolve or Pull that nobody interrupts returns the bytes first sealed if and only if plasma holds the object or its entry is there and its file can be read; answers "not found" if and only if neither is there; and otherwise drops the entry. Nothing else changes. |
| `Alone.HitReturnsSealed` | crates/rayd-core/src/core_worker.rs:596-606 | In every reachable store a reader that finds its object in plasma returns the bytes first sealed. |
| `Alone.PutThenReadIff` | crates/rayd-core/src/core_worker.rs:580-700 | After a put and any steps of any threads, a resolve returns what was put if plasma has it or no failed read purged it, and "not found" otherwise. |
| `Alone.SpillAloneDoes` | crates/rayd-core/src/core_worker.rs:368-424 | From every state a spill that nobody interrupts moves the object from plasma to file and entry, or changes nothing if plasma does not have it. |
| `Alone.FailEnds` | crates/rayd-core/src/core_worker.rs:368-424 | An operation that fails frees its thread and leaves what it did so far. |
| `Alone.SpillIsRun` | crates/rayd-core/src/core_worker.rs:368-424 | The core worker's spill is that run of single actions; a fault at any step leaves what the steps before it did. |
| `Alone.ReadIsRun` | crates/rayd-core/src/core_worker.rs:639-700 | Its read is that run too, answer for answer. |
| `Tiers.ResolveFindsSpilled` | crates/rayd-core/src/core_worker.rs:639-700 | A resolve that missed plasma finds no spill entry if and only if the entry was purged. |
| `Tiers.FailedReadLosesObject` | crates/rayd-raylet/src/object_manager.rs:101-115 | A reachable state with an intact spill file and an object nobody can read. |
| `Tiers.PullMayMissReadable` | crates/rayd-raylet/src/service.rs:357-426 | A reachable state in which a Pull has answered "not found" for a readable object. |
| `Tiers.PullLookupMissesIff` | crates/rayd-raylet/src/service.rs:357-399 | A Pull that missed plasma answers "not found" at its lookup, whatever happened in between: if the object was sealed at the miss, exactly when its entry has been purged; if not, exactly when no entry is there yet. |
| `Tiers.PullReopenMissesIff` | crates/rayd-raylet/src/service.rs:401-426 | A Pull that has restored the object answers "not found" at its reopen exactly when a spill has deleted it since the reseal and nobody put it back; otherwise it returns the bytes first sealed. |
| `CoreWorker.SpillKeepsStore` | crates/rayd-core/src/core_worker.rs:368-424 | A spill, with a failure at any of its steps, keeps every object's bytes right and a copy of it. |
| `CoreWorker.ReadReturnsSealed` | crates/rayd-core/src/core_worker.rs:580-700 | A read does too, returns only the bytes first sealed, and misses a sealed object exactly when it was purged and is not in plasma. |
| `CoreWorker.SpillThenRead` | crates/rayd-core/src/core_worker.rs:639-700 | Reading back after a spill gives the same object. |
| `CoreWorker.Worker.SpillToRecoverer` | crates/rayd-core/src/core_worker.rs:368-424 | Needs a recoverer and plasma; reads, stores, then deletes, and says which of moved, absent or failed it was. |
| `CoreWorker.Worker.ResolveNow` | crates/rayd-core/src/core_worker.rs:580-626 | Inline entries come from the index, plasma entries from plasma or, after a miss, from the recoverer with a reseal; metadata is the index's. |
| `CoreWorker.Worker.PlasmaEntries` | crates/rayd-core/src/store.rs:303-313 | Lists every plasma-resident entry once with its size, and no other. |
| `CoreWorker.Worker.MaybeSpillForPressure` | crates/rayd-core/src/core_worker.rs:443-479 | After a pass the indexed bytes in plasma are at most the threshold or the total of attempted entries that were bound to fail; the running estimate is exact; nothing is attempted once it is at or under the threshold; the count returned is the number of objects moved, each of which is in the spill directory with its bytes. |
| `CoreWorker.SumSizes` | crates/rayd-core/src/core_worker.rs:454-456 | The loop's sum is the total of the listed sizes. |
| `ObjectManager.LocalObjectManager.Spill` | crates/rayd-raylet/src/object_manager.rs:81-90 | A successful spill makes exactly that object restorable and leaves every other as it was; a failed one changes nothing. |
| `ObjectManager.LocalObjectManager.Recover` | crates/rayd-raylet/src/object_manager.rs:101-115 | Returns what was spilled; a missing or undecodable file drops the entry, an error on opening keeps it. |
| `ObjectManager.LocalObjectManager.Forget` | crates/rayd-raylet/src/object_manager.rs:120-126 | Drops the entry always and the file when the removal succeeds; other objects keep theirs; unknown ids are a no-op. |
| `RefCounter.PresentIffPinned` | crates/rayd-core/src/ref_counter.rs:46-156 | In every run an entry exists only while something pins it. |
| `RefCounter.FreesAlternate` | crates/rayd-core/src/ref_counter.rs:71-156 | Over every run, frees of an id and its creations balance up to the entry now present. |
| `RefCounter.CountsAreBalances` | crates/rayd-core/src/ref_counter.rs:46-156 | Over every run an id has an entry if and only if something holds it, and its counts are the balances of creations, clones, drops, borrowers and submit-deps read off the operations. |
| `RefCounter.PlainBalance` | crates/rayd-core/src/ref_counter.rs:71-106 | As long as nobody drops more than was taken or clones what is not held, the local count is creations plus clones minus drops. |
| `RefCounter.TakeThenRelease` | crates/rayd-core/src/ref_counter.rs:71-156 | Taking a pin and giving it back leaves the table as it was, and frees if and only if there was no entry and the taking made one. |
| `RefCounter.FreedExactlyByLastRelease` | crates/rayd-core/src/ref_counter.rs:94-156 | With L local refs, borrowers B and D submit-deps, any ordering of exactly L decrements, one removal per borrower and D completions, interleaved with anything on other ids, returns true once, on the last, and removes the entry. |
| `RefCounter.Counter.AddOwned` | crates/rayd-core/src/ref_counter.rs:71-74 | Creates or finds the entry and adds a local ref. |
| `RefCounter.Counter.IncLocal` | crates/rayd-core/src/ref_counter.rs:78-88 | Counts a clone; unknown ids stay unknown and give 0. |
| `RefCounter.Counter.DecLocal` | crates/rayd-core/src/ref_counter.rs:94-106 | Saturating decrement; true exactly when it removes the entry. |
| `RefCounter.Counter.AddBorrower` | crates/rayd-core/src/ref_counter.rs:111-115 | Adds a borrower; says whether it was new. |
| `RefCounter.Counter.RemoveBorrower` | crates/rayd-core/src/ref_counter.rs:119-131 | Removes a borrower; true exactly when it removes the entry. |
| `RefCounter.Counter.CompleteSubmitDep` | crates/rayd-core/src/ref_counter.rs:144-156 | Saturating decrement of the submit-deps; true exactly when it removes the entry. |
| `RefCounter.Counter.DrainIds` | crates/rayd-core/src/ref_counter.rs:184-189 | Hands out every tracked id and leaves nothing for later releases to find. |
| `Lifecycle.KeptUntilLastHold` | crates/rayd-core/src/core_worker.rs:332-355 | In every interleaving of puts, releases, registrations, frees, spills, resolves and Pulls: from the end of its put until a free of it begins, an object is indexed, pinned by a local ref or a borrower, listed for peers, has an intact copy, and is readable unless purged; its local count is one for the put plus clones less drops; a free begins if and only if a step gives up the last hold. |
| `Lifecycle.PutAloneDoes` | crates/rayd-core/src/core_worker.rs:249-278 | A put of a fresh id that nobody interrupts: in plasma and indexed with its metadata and size, one local reference more, offered to peers, nothing else changed. |
| `Lifecycle.TiersRunInside` | crates/rayd-core/src/core_worker.rs:368-700 | Every run of spills, resolves and Pulls is possible beside whatever else the owner is doing, and touches nothing but the tiers. |
| `Lifecycle.ReadsAreFaithful` | crates/rayd-core/src/core_worker.rs:580-700 | In every interleaving, frees included, whatever a resolve or a Pull returns is what was first sealed. |
| `LateHolds.KeptUntilDropped` | crates/rayd-core/src/core_worker.rs:531-558 | From the end of a put that no free has interfered with, in every continuation and whoever pins the object by then, it is indexed and has an intact copy if and only if no free has dropped its index entry yet. |
| `LateHolds.BorrowerOfNothing` | crates/rayd-raylet/src/service.rs:245-262 | A run in which a registration is half done when the free completes: it ends with the peer listed and counted for an object that nothing leads to, for good. |
| `Borrowing.HoldersAreBorrowersIff` | crates/rayd-raylet/src/service.rs:245-280 | In every interleaving the directory lists a peer if and only if its call that last began is a registration, and the counter counts it if and only if the one that last ended is; so they agree if and only if those are of one kind. |
| `Borrowing.HoldersAreBorrowers` | crates/rayd-raylet/src/service.rs:245-280 | In every interleaving in which a registration and a removal by the same peer do not cross, whenever none is in progress the directory lists the peer if and only if the counter counts it; calls of one kind may overlap. |
| `Borrowing.RemovalInsideRegistration` | crates/rayd-raylet/src/service.rs:245-280 | After every run, a removal that begins and ends inside a registration of the same peer leaves the peer counted and not listed. |
| `Borrowing.RegistrationInsideRemoval` | crates/rayd-raylet/src/service.rs:245-280 | After every run, a registration inside a removal leaves it listed and not counted, with the object's free begun if nothing else pinned it. |
| `Frees.GoneForGoodIff` | crates/rayd-core/src/core_worker.rs:531-558 | A sealed object that no tier leads to stays so in every continuation if and only if nobody holds it: no spill past its read, no read that has restored it or is about to read its file, no put half done. |
| `Frees.FreedIsGone` | crates/rayd-core/src/core_worker.rs:531-558 | A free interleaved with anything, whose steps succeed and during which nobody holds the object, ends with no tier leading to it, for good; nor is there a file, if it found a spill entry, nor the owner's own location, if the put was over. |
| `Frees.FreeAloneDoes` | crates/rayd-core/src/core_worker.rs:531-558 | What an uninterrupted free removes and leaves, when the plasma delete fails, when the file removal fails, and when the spill entry was purged before. |
| `Frees.SpillOutlivesFree` | crates/rayd-core/src/core_worker.rs:368-424 | A run in which a free completes without a failure and a spill then leaves a file and a spill entry for the freed object. |
| `Lifecycle.ObjectDirectory.RegisterHolder` | crates/rayd-raylet/src/directory.rs:31-39 | Adds one holder of one object; no entry is empty. |
| `Lifecycle.ObjectDirectory.RemoveHolder` | crates/rayd-raylet/src/directory.rs:41-53 | Removes one holder of one object and drops an entry that becomes empty. |
| `Arena.PlacementsDisjoint` | crates/rayd-plasma/src/arena.rs:194-209 | Over any sequence of allocations, offsets are 16-aligned and in bounds, and a later allocation starts at or after the end of an earlier one. |
| `Arena.AllFitIff` | crates/rayd-plasma/src/arena.rs:194-209 | A sequence of allocations all succeed if and only if each ends within the capacity, the earlier ones counted at sizes rounded up to 16. |
| `Arena.RefusedTakesNothing` | crates/rayd-plasma/src/arena.rs:194-209 | An allocation that does not fit changes the result of no other. |
| `Arena.RoundedSumFits` | crates/rayd-plasma/src/arena.rs:194-209 | Sizes whose rounded sum is at most the capacity never fail. |
| `Arena.MaskRoundsDown` | crates/rayd-plasma/src/arena.rs:196-196 | On 64-bit words the alignment mask is division by 16 and multiplication back. |
| `Arena.Arena.Alloc` | crates/rayd-plasma/src/arena.rs:194-209 | In 64-bit arithmetic that would fail to verify if the unchecked sum could wrap, returns the placement or nothing, and moves the bump mark only on success. |
| `Arena.CreateArena` | crates/rayd-plasma/src/arena.rs:128-153 | Succeeds exactly for capacities that fit a signed 64-bit offset. |
| `Plasma.HandleShowsCreatedBytes` | crates/rayd-plasma/src/client.rs:128-150 | In every run a handle onto a written slot shows the bytes passed to create, now and after any continuation. |
| `Plasma.SealedIsWrittenIff` | crates/rayd-plasma/src/server.rs:356-376 | Throughout a run every object that can be got is fully written if and only if every seal request finds the id's current slot written. |
| `Plasma.DisciplinedHandlesStable` | crates/rayd-plasma/src/client.rs:298-373 | Under that discipline every handle ever got shows the created bytes for the rest of the run, whatever is deleted or created later. |
| `Plasma.WellBehavedIsDisciplined` | crates/rayd-plasma/src/client.rs:128-150 | If each creator seals once, after its own two writes, and creations of one id do not overlap from their beginning to their seal, every seal request finds the id's current slot written. |
| `Plasma.ForeignSealExposesUnwritten` | crates/rayd-plasma/src/server.rs:279-376 | A run in which, of two overlapping creations of one id, the first to seal seals the other's slot and a reader sees unwritten bytes. |
| `Plasma.TableIsHistory` | crates/rayd-plasma/src/server.rs:279-471 | After every run an id stands for the creation inserted last and not deleted since, sealed if and only if it was sealed since. |
| `Plasma.GetAndCreateFollowHistory` | crates/rayd-plasma/src/server.rs:279-413 | After every run a get hands out that slot if and only if it is sealed, and a creation is let in if and only if there is none. |
| `Plasma.DeletedUntilInserted` | crates/rayd-plasma/src/server.rs:444-471 | A delete removes that entry and no other; until the id is inserted again, gets find nothing and creations are let in. |
| `Plasma.CreatedIsGot` | crates/rayd-plasma/src/client.rs:128-150 | From every reachable store a creation for which there is room, carried through to its seal, makes the next get show the bytes passed to it, then and ever after. |
| `Plasma.CopyInto` | crates/rayd-plasma/src/client.rs:298-309 | Copies the bytes into the mapped array at the offset and touches nothing else. |
| `Plasma.Server.HandleCreate` | crates/rayd-plasma/src/server.rs:279-354 | An uninterrupted creation is the machine's four steps, existence test, two allocations, insertion: refused for an existing id, out of memory when either allocation does not fit (the first is then lost all the same), otherwise an unsealed entry at those offsets. |
| `Plasma.Server.HandleSeal` | crates/rayd-plasma/src/server.rs:356-376 | Seals the id's current entry; distinguishes unknown and already sealed. |
| `Plasma.Server.HandleGet` | crates/rayd-plasma/src/server.rs:378-413 | Answers with the slot exactly for sealed entries; distinguishes unknown and unsealed. |
| `Plasma.Server.HandleDelete` | crates/rayd-plasma/src/server.rs:444-471 | Removes exactly that table entry, present or not, and leaves the arena alone. |
| `PullStream.PullStreamsCreatedObject` | crates/rayd-raylet/src/service.rs:91-156 | However the chunk reads of a Pull are spread over the rest of a run, the stream is exactly the frames of the object its creator sealed. |
| `TaskManager.Tracker.RecordTask` | crates/rayd-py/src/task_manager.rs:82-104 | Every listed output gets the same fresh record with the full budget; other records stay. |
| `TaskManager.Tracker.CompleteTask` | crates/rayd-py/src/task_manager.rs:110-117 | Marks every record of that task completed and no other. |
| `TaskManager.Tracker.GetStatus` | crates/rayd-py/src/task_manager.rs:122-134 | Each of the four answers, exactly when it applies. |
| `TaskManager.Tracker.TryResubmit` | crates/rayd-py/src/task_manager.rs:146-174 | Returns a job if and only if the status is ReadyToResubmit; then it is the recorded job, and all outputs of the task have lost one retry and their completion mark. |
| `Dispatch.NoLostWakeup` | crates/rayd-py/src/dispatcher.rs:130-136 | In every reachable state: with a handler parked, the queue is no longer than the pending notifies plus the woken handlers; after shutdown's broadcast none is parked; a stopped handler means the flag is set. |
| `Dispatch.StopsOnlyWhenDrained` | crates/rayd-py/src/dispatcher.rs:336-347 | A step tells a handler to stop if and only if it held the lock with the flag set and the queue empty. |
| `Dispatch.GoneIff` | crates/rayd-py/src/dispatcher.rs:296-309 | A handler is gone for good if and only if it cannot send its job or loses the worker that has it. |
| `Dispatch.ReadyAgainIff` | crates/rayd-py/src/dispatcher.rs:279-321 | A handler asks for another job if and only if its frame could not be built or its worker has answered. |
| `Dispatch.WokenIff` | crates/rayd-py/src/dispatcher.rs:336-347 | A parked handler wakes if and only if it is notified, everyone is, or it wakes spuriously. |
| `Dispatch.JobsConserved` | crates/rayd-py/src/dispatcher.rs:296-347 | In every run what was taken plus what is queued is what was pushed plus what was put back, as multisets. |
| `Dispatch.FirstInFirstOut` | crates/rayd-py/src/dispatcher.rs:336-347 | In every run in which no job was put back, jobs are taken in the order in which they were pushed. |
| `Dispatch.SubmitRacingShutdownIsStranded` | crates/rayd-py/src/dispatcher.rs:130-136 | A run that ends with a queued job, every notify spent and the only handler stopped. |
| `Dispatch.StrandedArePushedLate` | crates/rayd-py/src/dispatcher.rs:130-167 | In every run in which a handler was told to stop, workers lost or not, what was taken since the last stop plus what is queued is what was pushed plus what was put back since, as multisets; with only stopped handlers left, the queue is what was pushed since, in order. |
| `Dispatch.NothingStrandedIff` | crates/rayd-py/src/dispatcher.rs:130-167 | From any state, no continuation leaves a job beside a stopped handler if and only if the flag is set, no submitter is past its check, the queue is empty and no handler has a job yet to send. |
| `Dispatch.NoSubmitterStrandsIff` | crates/rayd-py/src/dispatcher.rs:130-167 | With the flag set and a handler alive, no continuation without a failed send leaves a job beside a stopped handler if and only if no submitter is past its flag check. |
| `Dispatch.BuildingStrands` | crates/rayd-py/src/dispatcher.rs:296-302 | From every state with the flag set and a handler about to send, a continuation in which the send fails leaves its job beside a stopped handler. |
| `Dispatch.WorkQueue.Submit` | crates/rayd-py/src/dispatcher.rs:130-136 | An uninterrupted submission is the flag check and the push of the step machine; it is dropped after shutdown. |
| `Dispatch.WorkQueue.Poll` | crates/rayd-py/src/dispatcher.rs:336-347 | Under the lock: the front job, else stop after shutdown, else wait. |
| `Dispatch.WorkQueue.Requeue` | crates/rayd-py/src/dispatcher.rs:296-302 | A job that could not be sent goes back to the front. |
| `Dispatch.WorkQueue.BeginShutdown` | crates/rayd-py/src/dispatcher.rs:159-167 | Sets the flag of the step machine and leaves the queue alone. |
| `Attempts.OneAttemptPerTask` | crates/rayd-py/src/dispatcher.rs:265-321 | In every run, across submitters, queue and handlers, a task has at most one outstanding attempt and none while its record says completed; it is submitted at most 1 + 3 times; all its outputs share one record and status; and an attempt in hand is the job first recorded. |
| `Attempts.OutstandingAfter` | crates/rayd-py/src/dispatcher.rs:265-334 | Each step's exact effect on the number of attempts at a task: a submission adds one, a completion or one of four losses ends one, nothing else changes it. |
| `Attempts.LostIff` | crates/rayd-py/src/dispatcher.rs:265-321 | In every run a step leaves a task recorded, not completed and with no attempt anywhere if and only if it was so before or the step is one of four on its attempt: a disconnect, a frame that cannot be built, a completion that cannot be ingested, a submission that finds the flag set. |
| `Attempts.CompletesIff` | crates/rayd-py/src/dispatcher.rs:265-347 | After every run a recorded task has a continuation in which it is completed if and only if it is completed now or its attempt is somewhere other than with a submitter that will find the flag set. |
| `Attempts.ResubmitsIff` | crates/rayd-py/src/task_manager.rs:146-174 | After every run a recorded task is resubmitted when asked if and only if it is completed and was submitted fewer than 1 + 3 times; there is then one attempt at it and it counts as not completed. |
| `Attempts.DisconnectLoses` | crates/rayd-py/src/dispatcher.rs:305-309 | In every run, a worker that disconnects with a job leaves its task recorded, not completed, and with no attempt anywhere. |
| `Attempts.LostIsForever` | crates/rayd-py/src/task_manager.rs:122-174 | Such a task stays NotYetCompleted in every continuation. |
| `Actor.EveryCallAccountedFor` | python/rayd/_actor.py:298-503 | In every run each accepted call is in exactly one of in flight, being recorded, recorded, died, lost; it reaches at most one incarnation; what is recorded was sealed by the subprocess and what died was not; restarts stay within the budget. |
| `Actor.CrashHandled` | python/rayd/_actor.py:332-381 | A handled crash leaves nothing in flight; it loses calls if and only if some call in flight is already sealed, and then the actor is neither up nor dead; otherwise all are sealed as died and the actor restarts or is dead by the budget, which the attempt uses up either way. |
| `Actor.RecordedIff` | python/rayd/_actor.py:298-331 | In every run an accepted call has a continuation in which its result is recorded if and only if it is recorded already, or the driver still reads from the incarnation it was accepted for and that has executed it, or is up and has been sent it or can be. |
| `Actor.FailedSendIsNeverRecorded` | python/rayd/_actor.py:424-472 | A call whose frame could not be sent is recorded in no continuation. |
| `Actor.TerminateIsFinal` | python/rayd/_actor.py:473-503 | After terminate no continuation accepts a call. |
| `Actor.ClosedAfterTerminate` | python/rayd/_actor.py:332-345 | A socket that closes after terminate ends the reading and seals nothing. |
| `Actor.DeadAcceptsNothing` | python/rayd/_actor.py:424-472 | Once dead or terminated, no continuation accepts a call. |
| `Actor.CrashAfterSealLosesCalls` | python/rayd/_actor.py:383-392 | A run with one restart left that ends with two calls lost and the actor neither up nor dead. |
| `Actor.AbandonedHangs` | python/rayd/_actor.py:424-472 | From such a state every call accepted later stays in flight for ever. |
| `Actor.ActorSubprocess.DispatchCall` | python/rayd/_actor.py:424-472 | Accepts and tracks the id unless terminated or dead. |
| `Actor.ActorSubprocess.SealAllDied` | python/rayd/_actor.py:332-392 | Seals the ids in order up to the first that is already sealed, where it raises. |
| `Actor.ActorSubprocess.OnSocketClosed` | python/rayd/_actor.py:332-381 | The crash handler as a whole: clear, seal, then restart, give up, or mark dead. |
| `SpillFormat.NamesDistinct` | crates/rayd-raylet/src/spill/local_fs.rs:49-57 | File names identify objects, temporary names identify calls, and the two kinds never meet. |
| `SpillFormat.NameLayout` | crates/rayd-raylet/src/spill/local_fs.rs:49-57 | A final name is two hexadecimal digits per byte, high digit first, and the suffix; a temporary one adds the call's number in decimal. |
| `SpillFormat.PathFor` | crates/rayd-raylet/src/spill/local_fs.rs:49-57 | The loop builds the object's file name. |
| `SpillFormat.DecodeInvertsEncode` | crates/rayd-raylet/src/spill/local_fs.rs:86-151 | Restoring inverts spilling for every encodable object, whatever follows in the file. |
| `SpillFormat.DecodesIff` | crates/rayd-raylet/src/spill/local_fs.rs:118-151 | A file restores to an object if and only if it starts with that object's encoding. |
| `SpillFormat.CutShortIsCorrupt` | crates/rayd-raylet/src/spill/local_fs.rs:118-151 | Every strict prefix of an encoding is reported corrupt. |
| `SpillFormat.Restore` | crates/rayd-raylet/src/spill/local_fs.rs:118-151 | The reads in sequence give the decoded object or corruption. |
| `SpillFiles.FinalFileIsOneSpill` | crates/rayd-raylet/src/spill/local_fs.rs:86-116 | Under any interleaving of concurrent spills at write granularity, a final name leads to the complete encoding of one spill of that object, and restores to it. |
| `SpillFiles.RenameTakesEffect` | crates/rayd-raylet/src/spill/local_fs.rs:114-114 | A completed writer's rename makes the final name lead to its own file. |
| `SpillFiles.NameIsLastRename` | crates/rayd-raylet/src/spill/local_fs.rs:86-116 | In every run a final name leads to the spill renamed last, and is there if and only if that has not been removed since. |
| `SpillFiles.SpillThenRestore` | crates/rayd-raylet/src/spill/local_fs.rs:86-151 | After every run a spill carried through and then a restore carried through give back the object. |
| `SpillFiles.TempNamesIff` | crates/rayd-raylet/src/spill/local_fs.rs:86-116 | In every run the temporary names are exactly those of the spills not renamed, so one that fails leaves its file behind. |
| `SpillFiles.GivenUpForEver` | crates/rayd-raylet/src/spill/local_fs.rs:86-116 | A spill that gives up takes effect in no continuation. |
| `SpillFiles.TooLongIsAbandoned` | crates/rayd-raylet/src/spill/local_fs.rs:86-100 | Metadata too long for its length field is published in no continuation. |
| `SpillFiles.ReaderSeesOneSpill` | crates/rayd-raylet/src/spill/local_fs.rs:118-151 | A reader, reading in any pieces, sees one spill's bytes whatever is renamed over or removed meanwhile: all of them decode to its object, fewer are corrupt. |
| `Transport.ServePull` | crates/rayd-raylet/src/service.rs:122-152 | The chunk loop sends the metadata frame and then the data cut at 64 KiB. |
| `Transport.PullRoundTrip` | crates/rayd-raylet/src/service.rs:122-152 | For data of any length the frames form a valid Pull that reassembles to the object, with ceil(n / 65536) data frames, none empty. |
| `Transport.Reassemble` | crates/rayd-raylet/src/client.rs:93-145 | Accepts if and only if one metadata frame is followed by data frames only, of the announced total, and returns their concatenation; a short read exactly when only the total is wrong; a transport failure exactly when that is the first frame that cannot belong. |
| `Transport.AcceptPush` | crates/rayd-raylet/src/service.rs:158-219 | Accepts if and only if one header with a 28-byte id is followed by data frames only, totalling exactly the announced size, and returns their concatenation. |
| `Transport.ReceivePush` | crates/rayd-raylet/src/service.rs:158-243 | An accepted push stores the object unless the id is there, which also counts as success; a rejected one stores nothing. |
| `Transport.PushRoundTrip` | crates/rayd-raylet/src/client.rs:151-187 | What the client pushes is accepted and stored as it was. |
| `Framing.Socket.RecvExact` | python/rayd/_worker.py:50-60 | However the socket splits reads, the next n bytes, or nothing if the peer closed first. |
| `Framing.Socket.ReadExact` | crates/rayd-py/src/wire.rs:69-87 | The same, filling a buffer in place. |
| `Framing.Socket.RecvFrame` | python/rayd/_worker.py:63-76 | One receive on the worker's side: a body, the end, too large, or cut off. |
| `Framing.Socket.ReadFrame` | crates/rayd-py/src/wire.rs:69-87 | One receive on the driver's side, with the same outcome on the same bytes. |
| `Framing.Socket.RecvAll` | python/rayd/_worker.py:63-76 | Receiving until something other than a body comes, however the socket splits reads. |
| `Framing.ReceivesWhatWasSent` | python/rayd/_worker.py:41-76 | For any list of bodies within the cap, receiving yields that list and then the end. |
| `Framing.ReceivesIff` | python/rayd/_worker.py:63-76 | A body is received if and only if its frame, within the cap, comes next. |
| `Framing.BreaksCleanly` | crates/rayd-py/src/wire.rs:69-87 | A connection cut anywhere yields exactly the bodies sent completely before the cut, in order, and then the end if the cut is between frames or in a length prefix, and a cut-off body otherwise. |
| `Framing.SendFrame` | python/rayd/_worker.py:41-47 | The worker frames bodies up to the cap and refuses larger ones. |
| `Framing.WriteFrame` | crates/rayd-py/src/wire.rs:54-65 | The driver frames every body whose length fits 32 bits; it is received if and only if it is within the cap. |
| `Bytes.LittleEndian` | crates/rayd-core/src/error_payload.rs:158-176 | Byte i of an integer field holds the digit of weight 256 to the i. |
| `ErrorPayload.DecodeInvertsEncode` | crates/rayd-core/src/error_payload.rs:101-156 | Decoding inverts encoding for every payload within the limits and ignores trailing bytes. |
| `ErrorPayload.DecodesIff` | crates/rayd-core/src/error_payload.rs:136-212 | Bytes decode to a payload if and only if they start with its encoding, its strings are strings and its lengths fit. |
| `ErrorPayload.EncodeLayout` | crates/rayd-core/src/error_payload.rs:34-50 | Where each section of an encoding is. |
| `ErrorPayload.OptionalLayout` | crates/rayd-core/src/error_payload.rs:40-50 | An optional section is the byte 0, or the byte 1, its length in four bytes, and its bytes. |
| `ErrorPayload.WrongIsNamed` | crates/rayd-core/src/error_payload.rs:178-203 | A message that is no string and a flag that is neither 0 nor 1 are reported as such. |
| `ErrorPayload.CutShortIsRejected` | crates/rayd-core/src/error_payload.rs:136-212 | Every strict prefix of an encoding is rejected with the error that names what is missing: bytes of a fixed field, or the length a section claims and what is left. |
| `ErrorPayload.BuildErrorPayload` | python/rayd/_worker.py:94-126 | The Python worker's bytes are the driver's encoding of the same payload, and decode to it. |

## Left out

- WatchClient.IndexConverges: assumes that no newest event about a node overtakes an older one that says something else, which the code does not enforce; `IndexShowsNewest` says what holds without, and `OvertakingGoesWrong` that every such step can go wrong.
- WatchStream.ResumedStreamIsContiguous: takes the floor check and the buffer read as one step; the code takes the buffer lock twice.
- Registry.LogInvStep: calls of `publish` are serialised, here and in everything about streams and clients: records may be published in any order, but one call finishes before the next takes its number. The code does not enforce that; `Publishers` says what overlapping calls do to the log, and leaves out what they do to streams that are open.
- Registry.LivenessOverRuns: covers one control-service instance, since sequence numbers restart with it.
- Attempts.OneAttemptPerTask: task ids are fresh at submission, as the id generator provides.
- Actor.EveryCallAccountedFor: result ids are fresh, completion frames are well formed, and a closed socket means that subprocess executes nothing more.
- LateHolds.KeptUntilDropped: does not say how long a copy survives when a free of the id acts before its put has finished, which takes a peer that names an id nobody has been given yet.
- Dispatch.NothingStrandedIff: handlers may start at any time; in the code a connection accepted before the flag was set may still become one after it, later ones are refused.
- Lifecycle.KeptUntilLastHold: objects come from `put` with fresh ids, and peers never name the owner's own node in their calls.
- Tiers.StoreRefinesMap: create-and-seal of one object is one step and plasma never fills up; slots and capacity are in `Plasma` and `Arena`.
- CoreWorker.Worker.MaybeSpillForPressure: the threshold is an input instead of a product of floats, and the sum of sizes does not wrap at 64 bits.
- SpillFormat.DecodeInvertsEncode: data lengths are below 2^64, as they are on the machines rayd supports.
- ErrorPayload.DecodeInvertsEncode: which byte strings are UTF-8 is a parameter.
- Arena.Arena.Alloc: the mask is written as division and multiplication; `MaskRoundsDown` is the bridge on 64-bit words.
- Blocking, time-outs, back-off lengths, thread joins and process reaping: only their effects on state are steps.
- `evict_local`, the Evict call, `free`, and the reference counts of results ingested by the dispatcher.
- The store's byte gauge, `wait` and blocking `get`: they would add only easy members.
- Parsing and containment checks of spill URLs, since every URL the manager keeps is one it built.
- Pickle, bincode, gRPC, file-descriptor passing and memory mapping: bodies are opaque bytes and the mapping is one byte array.
- Metrics, tracing, command line, health calls, named-actor registration and cross-driver calls.
