# HandShaker, modelled and proved

HandShaker is a phone-sync client. Its application layer runs transfers, sync jobs, sessions and media queries concurrently under small locks, flags and slots; around it sit a few sequential cores with strong promises. This project models that code in Dafny 4.11 and proves what those devices promise, in every run.

| file | what it models | form |
|---|---|---|
| `Cancellation.dfy` | the cancellation token's wake-up protocol | step relation, all interleavings |
| `MediaCache.dfy` | cached media getters against invalidations | step relation |
| `SessionLifecycle.dfy` | connect, disconnect, loss reports, shutdown: one verdict per session | step relation |
| `ShutdownProtocol.dfy` | shutdown against everybody who starts work | step relation |
| `SyncJobs.dfy` | sync-job registry: run against watch | step relation |
| `TaskJoins.dfy` | who waits for the transfer tasks of a closing session | step relation |
| `TaskSlot.dfy` | handover of a run's task handle | step relation |
| `TransferModel.dfy`, `TransferRuns.dfy` | critical sections of the transfer registry, and whole runs of them | functions, step relation |
| `TransferRegistry.dfy` | the registry itself, in place | class proved against `TransferModel` |
| `MediaPaging.dfy` | keyset pagination | methods proved against functions |
| `MediaMerge.dfy` | merging change events into a library | class proved against functions |
| `CivilDate.dfy` | civil dates and EXIF timestamps | functions |
| `RemotePath.dfy`, `Separated.dfy` | both path resolvers; splitting and joining | methods proved against functions |
| `Bytes.dfy`, `Protobuf.dfy`, `SspFrames.dfy` | varints, protobuf fields, SSP frames | methods and a class proved against functions |
| `DnsNames.dfy` | DNS names and messages | methods proved against functions |
| `Wrappers.dfy` | `Option`, `Result` | |

The protocols share one shape. A state holds what the actors share and a sequence of actors, each at a program point; a step lets one actor make its next shared access; `Legal` traces are arbitrary interleavings of any length with any number of actors. An inductive invariant is proved step by step, and the results are statements about every reachable state or every continuation of one. Environment choices (a session is missing, a request fails, a task finishes, time passes) are steps or parameters. Beside what no interleaving breaks, each protocol states what every call achieves when nobody interferes (the lemmas ending in `Alone`): its exact effect on the shared state, also where it is turned away.

What a function computes is pinned from outside it as well: normalisation by the laws of going down and up (`DownAndUp`, `NothingAboveRoot`, `SameDirectory`), reaping by finish time and slot (`ReapByAge`), registry updates by the fields of the entry, paging by the run of sorted items (`PageIsARun`), merging field by field (`UpsertSetsFields`), varints by base 128 (`VarintIsBase128`). The histories of the protocols tie flags and events to what they stand for: a cached library to its key (`OwnKeyOnly`), a flag to work under way (`FlagsTellTheTruth`), a verdict to its publication (`EveryVerdictIsTold`).

Some promises turned out not to hold everywhere. They are stated with the condition under which the code keeps them:

- no handle of a live task is lost exactly if every publish finds its entry registered or its task over (`HandlesConservedIff`); a close in the middle of a launch can break that (`UndisciplinedTakeLosesHandle`);
- `start_batch_plan` takes no launch gate: exactly the batch transfers registered after shutdown's listing escape its sweep (`SweepCoversListed`, `ShutdownLeavesLater`, `BatchLaunchEscapes`);
- a taker's empty hand means what it should exactly if no timeout fallback meets a slot reserved by a launcher still at work (`MissesOutIff`);
- no transfer task of a drained session outlives shutdown unless the session had failed first (`OnlyFailedOutlive`), and then one can (`FailedOutlives`): a close leaves a failed session alone, and the loss report drops the handles it takes;
- the SSP reader's comment says a length prefix may span frames, but the code then does not count the frames that complete it: a message is consumed exactly if and only if its first chunk has at least 8 bytes and no empty chunk ends it (`ReceivedIff`);
- DNS names read back exactly when all labels have 1 to 191 bytes (`NameBackIff`), and compression keeps a name exactly when the replaced tail is not empty or nothing precedes the pointer (`PointerKeepsNameIff`);
- the two path resolvers agree exactly when the base has no "." or ".." component (`CliAgreesIff`), and a root that is not normalised pins every relative input to itself (`UnnormalRootPinsAll`);
- among merge changes that use no path as a key, exactly those whose upserted items all carry ids are idempotent (`TwiceIsOnceIff`); an item without any key always repeats (`KeylessRepeats`), and keys by path are safe while nothing rewrites or deletes them (`SteadyKeysSettle`) but can fail in two ways (`RenamedPathRepeats`, `DeletedPathReturns`);
- an EXIF timestamp that the range checks accept collides with another, real one exactly when it is not real itself and lands among the real ones (`CollidesIff`): days past the end of a month do, and hours, minutes and seconds past theirs (`DayPastTheMonth`, `TimePastItsRange`);
- a normal path resolves to itself under every root exactly when trimming leaves it alone and it does not start with the alias (`ResolvedStaysIff`);
- a protobuf message cut short is an error exactly when the cut is in the middle of a tag, number or length (`CutMessage`).

## Model

| member | source | states |
|---|---|---|
| `Cancellation.NoLostWakeUp` | crates/handshaker-core/src/cancellation.rs:26-43 | In every reachable state of any number of `cancel` calls and waiters: after the first canceller has sent, every blocked waiter can wake; a raised flag without a message has a sender about to send; whoever returned did so after cancellation |
| `Cancellation.EveryWaiterReturns` | crates/handshaker-core/src/cancellation.rs:26-43 | Every run is finite (at most two steps per canceller and four per waiter), and a run that cannot go on has released every waiter as soon as anybody cancelled |
| `Cancellation.StepKeepsInv` | crates/handshaker-core/src/cancellation.rs:26-43 | Each swap, send, subscribe, value check, flag check and wake keeps the invariant: one message at most, sent by a unique canceller, and every waiter past the value check subscribed before it |
| `Cancellation.RunKeepsInv` | crates/handshaker-core/src/cancellation.rs:26-43 | The invariant holds after every legal run |
| `Cancellation.StepWorks` | crates/handshaker-core/src/cancellation.rs:26-43 | Every step uses up part of a finite amount of work |
| `MediaCache.CacheIsFresh` | crates/handshaker-application/src/runtime.rs:174-180 | In every interleaving of getters and invalidations, once an invalidation of a session has returned, each snapshot cached for that session comes from a fetch that loaded a later epoch and is at least as recent as the bump; pending invalidations are what closes the gap between bump and clear |
| `MediaCache.ServedIsFresh` | crates/handshaker-application/src/runtime.rs:1424-1466 | A getter not yet started when an invalidation of its session has returned never serves a library older than that invalidation, cached or fetched, along any continuation |
| `MediaCache.StepKeepsInv` | crates/handshaker-application/src/runtime.rs:1480-1569 | Every step of the photo, video and audio getters and of invalidations keeps the invariant |
| `MediaCache.RunKeepsInv` | crates/handshaker-application/src/runtime.rs:1480-1569 | The invariant holds after every legal run |
| `MediaCache.OwnKeyOnly` | crates/handshaker-application/src/runtime.rs:1424-1466 | In every reachable state whatever is cached under a key, and whatever a getter has served, was fetched from the phone for exactly that session and kind |
| `MediaCache.HitsAreYoung` | crates/handshaker-application/src/runtime.rs:1429-1436 | A lookup serves what is cached under its key if and only if that is less than 30000 ms old, and renews nothing |
| `MediaCache.FetchedOnceIsCached` | crates/handshaker-application/src/runtime.rs:1437-1466 | A getter that misses and returns with no invalidation begun leaves its key cached, not older than the miss, until an invalidation of its session begins |
| `MediaCache.StaysCached` | crates/handshaker-application/src/runtime.rs:174-180 | An invalidation drops the entries of its own session only |
| `MediaCache.InsertsItsOwn` | crates/handshaker-application/src/runtime.rs:1447-1463 | A fetch that passes the epoch check leaves exactly its own library under its own key, with the time of the insertion, and touches no other key |
| `MediaCache.GetterAlone` | crates/handshaker-application/src/runtime.rs:1424-1466 | Undisturbed, a getter that finds nothing young enough fetches its key's library, caches it now, serves it and gives the lock back |
| `MediaCache.StaleAlone` | crates/handshaker-application/src/runtime.rs:1447-1466 | A fetch that fails the epoch check is served, not cached, and the lock given back |
| `MediaCache.InvalidateAlone` | crates/handshaker-application/src/runtime.rs:174-180 | Undisturbed, an invalidation moves the epoch on by one, drops exactly the entries of its session and gives the lock back |
| `SessionLifecycle.OneVerdict` | crates/handshaker-application/src/runtime.rs:3235-3274 | In every interleaving of connects, disconnects, loss reports and shutdowns: at most one `ConnectionLost` or `Closed` event per session, never both, and it agrees with the session state |
| `SessionLifecycle.VerdictIsFinal` | crates/handshaker-application/src/runtime.rs:646-749 | Along any continuation of any reachable state `Failed` is never left and `Disconnecting` never turns into `Failed` |
| `SessionLifecycle.ShutdownSettles` | crates/handshaker-application/src/runtime.rs:304-376 | When shutdown closes the event hub, every session it took from the registry was already failed or has had its `Closed` event published |
| `SessionLifecycle.DrainedForGood` | crates/handshaker-application/src/runtime.rs:597-615 | Once shutdown has drained the sessions, no connect, however far it had come, ever registers one again |
| `SessionLifecycle.ActKeepsInv` | crates/handshaker-application/src/runtime.rs:542-615 | Every shared access of a connect, close, loss report or shutdown keeps the invariant: one owner per session being closed, the lock held by one, and the event log matching the states |
| `SessionLifecycle.SpawnKeepsInv` | crates/handshaker-application/src/runtime.rs:330-362 | Handing a drained session to its close task keeps exactly one actor answerable for it |
| `SessionLifecycle.CloserSettles` | crates/handshaker-application/src/runtime.rs:646-749 | Whoever answers for closing a session lets go of it only when it is failed or its `Closed` event is out |
| `SessionLifecycle.EveryVerdictIsTold` | crates/handshaker-application/src/runtime.rs:646-749 | Nobody's verdict is lost: in every reachable state with the hub open a failed session has exactly one `ConnectionLost` or a report about to publish it, then a `Failed` event or the same report about to publish that; and a session that has left the registry, by disconnect or shutdown, is failed, has exactly one `Closed`, or has an actor answering for it |
| `SessionLifecycle.ConnectAlone` | crates/handshaker-application/src/runtime.rs:542-615 | Undisturbed, a connect to an open runtime registers one new ready session and announces it |
| `SessionLifecycle.LossAlone` | crates/handshaker-application/src/runtime.rs:3235-3274 | Undisturbed, a loss report of a ready session fails it and publishes loss and new state once each; of any other it changes nothing |
| `SessionLifecycle.DisconnectAlone` | crates/handshaker-application/src/runtime.rs:624-684 | Undisturbed, a disconnect unregisters the session and publishes `Closed` once unless it had failed |
| `SessionLifecycle.ShutdownAlone` | crates/handshaker-application/src/runtime.rs:304-376 | Undisturbed, a first shutdown flags, drains every session and answers for all, and closes the hub when none is left |
| `SessionLifecycle.RefusedAlone` | crates/handshaker-application/src/runtime.rs:304-316 | Calls turned away, by the flag at whatever point they check it or for a missing session, change nothing and keep no lock; a new runtime is open |
| `ShutdownProtocol.SweepCoversLaunches` | crates/handshaker-application/src/runtime.rs:1724-1799 | After shutdown's cancel loop, in every interleaving, each transfer registered by `start_download` or `start_upload` is terminal and its task handle has been published |
| `ShutdownProtocol.NoLaunchAfterClose` | crates/handshaker-application/src/runtime.rs:304-330 | No such transfer is registered after shutdown has closed the gate, not even when shutdown has returned and the gate is free again |
| `ShutdownProtocol.JobsDrain` | crates/handshaker-application/src/runtime.rs:2533-2574 | No sync job is registered once shutdown has listed them; the clear drops none whose cancellation was not requested; the job map then stays empty for ever |
| `ShutdownProtocol.UnpublishedIsLaunched` | crates/handshaker-application/src/runtime.rs:1745-1796 | A gated transfer without a published handle always has its launch at work under the read guard |
| `ShutdownProtocol.SweepCoversListed` | crates/handshaker-application/src/runtime.rs:317-328 | After the cancel loop every transfer, gated or not, that was registered when shutdown listed the transfers is terminal |
| `ShutdownProtocol.ShutdownLeavesLater` | crates/handshaker-application/src/runtime.rs:317-328 | No step of a shutdown, in any reachable state, touches a transfer that was not registered at the listing, and after the listing such a transfer is never gated: exactly the batch transfers registered later escape |
| `ShutdownProtocol.BatchLaunchEscapes` | crates/handshaker-application/src/runtime.rs:1111-1142 | A concrete run with such a transfer of `start_batch_plan`, still queued after the cancel loop |
| `ShutdownProtocol.ActKeepsInv` | crates/handshaker-application/src/runtime.rs:1802-1875 | Every shared access of launchers, transfer tasks, sync starters, stoppers and shutdown keeps the invariant |
| `ShutdownProtocol.SweepStepKeepsInv` | crates/handshaker-application/src/runtime.rs:318-330 | Each single cancellation inside shutdown's loops keeps what remains to be swept accounted for |
| `ShutdownProtocol.StepGoesLater` | crates/handshaker-application/src/runtime.rs:304-376 | From the close of the gate on, no step adds a gated transfer; from the listing of the jobs on, none adds a job |
| `ShutdownProtocol.EndedIsTerminal` | crates/handshaker-application/src/runtime.rs:1745-1794 | In every reachable state the transfer of a task that is over is terminal, that of a task at work is not queued, and a published handle belongs to a task |
| `ShutdownProtocol.LaunchAlone` | crates/handshaker-application/src/runtime.rs:1724-1799 | Undisturbed, a launch on an open runtime with its session there registers one queued transfer, spawns its task and publishes the handle |
| `ShutdownProtocol.SyncStartAlone` | crates/handshaker-application/src/runtime.rs:2533-2574 | Undisturbed, a sync start with no live job registers one |
| `ShutdownProtocol.SyncStopAlone` | crates/handshaker-application/src/runtime.rs:2768-2845 | Undisturbed, a sync stop cancels the job and removes it |
| `ShutdownProtocol.ShutdownAlone` | crates/handshaker-application/src/runtime.rs:304-376 | Undisturbed, a first shutdown flags, closes the gate, lists all transfers, then all jobs, then empties the map and frees the gate |
| `ShutdownProtocol.RefusedAlone` | crates/handshaker-application/src/runtime.rs:304-316 | Calls turned away by the flag at whatever point they check it, and a sync start that meets a live job, change nothing and keep neither gate nor lock |
| `ShutdownProtocol.OneAtATime` | crates/handshaker-application/src/runtime.rs:318-343 | Each single cancellation makes that transfer terminal, or that job cancelled, nothing else, and brings its loop one nearer to its end; exactly terminal transfers can be evicted |
| `TaskJoins.OnlyFailedOutlive` | crates/handshaker-application/src/runtime.rs:646-684 | In every interleaving of gated launches, disconnects, loss reports, evictions and shutdowns: once shutdown has returned, a transfer task of a session it drained is over, joined or aborted, unless that session had failed first |
| `TaskJoins.FailedOutlives` | crates/handshaker-application/src/runtime.rs:3235-3274 | The exception is real: a concrete run in which a loss report marks the session failed, so that its close joins nothing, and the task is alive after shutdown |
| `TaskJoins.StepKeepsInv` | crates/handshaker-application/src/runtime.rs:304-376 | Every step keeps each live task of a usable session stored or with its launch, and each of a drained session that has not failed with somebody who will join it |
| `TaskJoins.RunKeepsInv` | crates/handshaker-application/src/runtime.rs:304-376 | The invariant holds after every legal run |
| `TaskJoins.DisconnectAlone` | crates/handshaker-application/src/runtime.rs:624-684 | Undisturbed, a disconnect of a ready session unregisters it, empties every slot of its entries, joins each task whose handle was there, and ends |
| `TaskJoins.ClosesAlone` | crates/handshaker-application/src/runtime.rs:646-684 | So does a close task of shutdown from its swap on |
| `TaskJoins.LossAlone` | crates/handshaker-application/src/runtime.rs:3235-3274 | Undisturbed, a loss report of a usable session fails it, empties every slot of its entries and waits for nobody |
| `TaskJoins.EndsAndEvictions` | crates/handshaker-application/src/transfer.rs:256-330 | An entry leaves the registry exactly if its slot is empty or its stored task over; a task's end ends that task only |
| `SyncJobs.RunExcludesWatch` | crates/handshaker-application/src/sync.rs:131-206 | Over all histories of starts, watches, stops, falling flags and the shutdown clear, no job is ever running and monitoring at once, and a replaced job is neither |
| `SyncJobs.FlagsRiseOnlyForCurrent` | crates/handshaker-application/src/runtime.rs:2846-2872 | A flag rises only for the job registered at that moment, `running` only at creation and `monitoring` only on an idle job; only an idle job is replaced |
| `SyncJobs.ReplacedForGood` | crates/handshaker-application/src/runtime.rs:2533-2574 | A replaced job never becomes running, monitoring or registered again along any continuation |
| `SyncJobs.EntryLeaves` | crates/handshaker-application/src/runtime.rs:2768-2845 | A registry entry goes only by a stop that found that very job, by a registration that found it idle, or by the shutdown clear |
| `SyncJobs.StaleStopIsHarmless` | crates/handshaker-application/src/runtime.rs:2827-2845 | In every reachable state, the removal step of a stop whose job is no longer the registered one changes nothing shared |
| `SyncJobs.ActKeepsInv` | crates/handshaker-application/src/runtime.rs:2879-2892 | Every shared access, reservations and their release included, keeps the invariant |
| `SyncJobs.StepKeepsInv` | crates/handshaker-application/src/runtime.rs:2894-2971 | So do the flags falling outside the lock and the shutdown clear |
| `SyncJobs.FlagsTellTheTruth` | crates/handshaker-application/src/runtime.rs:2533-2574 | In every reachable state `running` is up exactly from a job's registration to its run's end and `monitoring` exactly from a reservation to its release or end; so no job is at work in both ways and none that is has been replaced |
| `SyncJobs.LiveJobsRefuse` | crates/handshaker-application/src/runtime.rs:2846-2874 | In every reachable state a registration or reservation that meets a job at work gives the lock back, changes nothing else and ends |
| `SyncJobs.InsertsOverIdle` | crates/handshaker-application/src/runtime.rs:2552-2573 | A registration past its check never inserts over a job at work |
| `SyncJobs.RegisterAlone` | crates/handshaker-application/src/runtime.rs:2533-2574 | Undisturbed, a registration makes a new running job and replaces the idle one, if any |
| `SyncJobs.WatchAlone` | crates/handshaker-application/src/runtime.rs:2894-2971 | Undisturbed, a watch of an idle job raises its flag |
| `SyncJobs.ReleaseAlone` | crates/handshaker-application/src/runtime.rs:2879-2888 | Undisturbed, a rejected watch whose job is still registered lowers it again |
| `SyncJobs.StopAlone` | crates/handshaker-application/src/runtime.rs:2827-2839 | Undisturbed, a stop takes the job out of the registry |
| `SyncJobs.StaleWatchRefuses` | crates/handshaker-application/src/runtime.rs:2846-2858 | A watch whose job has been replaced gives the lock back and changes nothing else |
| `SyncJobs.EndsLowerFlags` | crates/handshaker-application/src/runtime.rs:2640-2686 | The end of a run and of a watch lower that one flag of that one job |
| `TaskSlot.Handover` | crates/handshaker-application/src/runtime.rs:2586-2618 | In every reachable state: the run does no work before its handle is published and released, and once done has left the slot finished or taken; at most one taker has the handle; a stored handle of an unfinished run is in the slot or with that taker; an empty-handed taker means the run ended or another owns it, unless a timeout hit a reserved slot |
| `TaskSlot.HandedOutOnce` | crates/handshaker-application/src/runtime.rs:3575-3606 | No two takers receive the handle, not even at different moments of a run |
| `TaskSlot.MissesOutIff` | crates/handshaker-application/src/runtime.rs:3575-3606 | In every state of a run an empty-handed taker means that the run is over, was given up with its launch, or is owned by another taker, if and only if no timeout fallback of the run finds the slot reserved by a launcher still at work |
| `TaskSlot.TooEarlyMissesOut` | crates/handshaker-application/src/runtime.rs:3594-3604 | Every fallback on a slot reserved by a launcher still at work leaves its taker with nothing while the run is neither over, nor given up, nor owned |
| `TaskSlot.TimeoutLosesTheRun` | crates/handshaker-application/src/runtime.rs:3575-3606 | A concrete run of that kind in which the run then starts with its handle in the slot |
| `TaskSlot.StepKeepsInv` | crates/handshaker-application/src/runtime.rs:2684-2686 | Storing, releasing, dropping the launch, the run's end and every take keep the slot telling where the handle is |
| `TaskSlot.EverybodyReturns` | crates/handshaker-application/src/runtime.rs:3575-3606 | Every run takes at most five steps of launcher and task, three per taker and two per notification; when no step is left the launch is released or dropped, the run done or never started accordingly, and every taker has returned |
| `TaskSlot.StepWorks` | crates/handshaker-application/src/runtime.rs:3575-3606 | Every step but a notification uses up work |
| `TaskSlot.TakeOutcome` | crates/handshaker-application/src/runtime.rs:3580-3604 | A look waits at a reserved slot; otherwise, and always after a timeout, the slot ends taken and its taker has the handle exactly if it was stored |
| `TaskSlot.DropAlone` | crates/handshaker-application/src/runtime.rs:2600-2612 | A launch can be dropped at any moment before the release, and the run then never starts |
| `TransferModel.ReapByAge` | crates/handshaker-application/src/transfer.rs:247-290 | In fields: a reap evicts every finished entry without a live task once finish time plus TTL has come; it keeps, unchanged, every entry not finished, reserved or with a live task, and within capacity every entry younger than the TTL |
| `TransferModel.ReapPromises` | crates/handshaker-application/src/transfer.rs:291-330 | What is left is within capacity or cannot go; an entry younger than the TTL goes only for capacity, and then nothing that could go and finished earlier stays |
| `TransferModel.UpdatesAreBounded` | crates/handshaker-application/src/transfer.rs:547-607 | Any number of progress reports for a fresh transfer, clock and bytes never going back, publish at most 1 + elapsed/100 + bytes/262144 updates; the first at 100 ms or later is published with its own numbers |
| `TransferModel.ThrottleBound` | crates/handshaker-application/src/transfer.rs:547-568 | For a clock and byte counts that never go back, any sequence of progress calls emits at most 1 + elapsed/100 ms + bytes/256 KiB updates |
| `TransferModel.EmitsArePaidFor` | crates/handshaker-application/src/transfer.rs:188-189 | After an emit, the later ones split into some paid for by 100 ms each and some by 256 KiB each |
| `TransferRuns.LifecycleIsOneWay` | crates/handshaker-application/src/transfer.rs:369-399 | Along every run the rank Queued < Running < terminal never falls, `finished_at_ms` is set exactly when terminal, and the terminal state, finish time and batch result are frozen under late progress, batch and cancel calls |
| `TransferRuns.OpAdvances` | crates/handshaker-application/src/transfer.rs:570-671 | No single operation lowers a rank or touches the frozen fields of a terminal entry |
| `TransferRuns.OpKeepsLifecycle` | crates/handshaker-application/src/transfer.rs:570-671 | No single operation separates "finished" from "terminal" |
| `TransferRuns.EvictionIsFinal` | crates/handshaker-application/src/transfer.rs:341-354 | A transfer that `get` no longer finds is never found again |
| `TransferRuns.OpEffects` | crates/handshaker-application/src/transfer.rs:369-671 | In fields: what each registry operation does to an entry, terminal states left alone where the code does, and that it touches no other |
| `TransferRuns.HandlesConservedIff` | crates/handshaker-application/src/transfer.rs:155-165 | With tasks that may end at any time after their spawn, also before their handle is stored: at every moment of a run each published handle of an unfinished task is in the slot of an entry or was handed out exactly once, if and only if each publish of the run finds its entry registered or its task already over |
| `TransferRuns.DisciplineConserves` | crates/handshaker-application/src/transfer.rs:429-489 | That is so for every run in which no handle is taken from an entry whose launch has still to publish |
| `TransferRuns.OpConserves` | crates/handshaker-application/src/transfer.rs:494-509 | Eviction, reaping, taking, publishing into a registered entry and publishing the handle of a finished task lose no live handle and hand out none twice |
| `TransferRuns.MissedPublishLoses` | crates/handshaker-application/src/runtime.rs:1765-1794 | Publishing the handle of a live task into an evicted entry does lose it |
| `TransferRuns.UndisciplinedTakeLosesHandle` | crates/handshaker-application/src/transfer.rs:480-484 | A concrete run: a close in the middle of a launch writes `Taken` over `Reserved`, the entry is evicted, the handle of the working task is lost |
| `TransferRegistry.TransferRegistry.constructor` | crates/handshaker-application/src/transfer.rs:202-214 | Capacity is at least one; the registry starts empty |
| `TransferRegistry.TransferRegistry.SnapshotFor` | crates/handshaker-application/src/transfer.rs:511-545 | Ids are handed out in order; the snapshot is queued and not finished |
| `TransferRegistry.TransferRegistry.Register` | crates/handshaker-application/src/transfer.rs:216-246 | The table is a reap of the old one with the new entry, and the new entry itself is never evicted |
| `TransferRegistry.TransferRegistry.ReapLocked` | crates/handshaker-application/src/transfer.rs:247-330 | The two phases evict by age as `ReapByAge` says and then oldest-finished first, no more than needed; the loop ends |
| `TransferRegistry.TransferRegistry.OldestFinished` | crates/handshaker-application/src/transfer.rs:296-330 | None exactly when nothing is evictable, otherwise an evictable entry that finished no later than any other |
| `TransferRegistry.TransferRegistry.TransitionTo` | crates/handshaker-application/src/transfer.rs:369-399 | New table and result of `transition`, terminal states left alone |
| `TransferRegistry.TransferRegistry.Cancel` | crates/handshaker-application/src/transfer.rs:405-424 | Fails exactly for a missing id; otherwise the entry is terminal with its token cancelled and its update has been published |
| `TransferRegistry.TransferRegistry.CancelForSession` | crates/handshaker-application/src/transfer.rs:429-489 | Exactly the entries of the session are closed, in some order; exactly the handles their slots held are returned and exactly the updates of the non-terminal ones are published |
| `TransferRegistry.TransferRegistry.CloseEntry` | crates/handshaker-application/src/transfer.rs:465-489 | One entry: token cancelled, state terminal, slot taken, its handle returned if there was one |
| `TransferRegistry.TransferRegistry.ReapSlots` | crates/handshaker-application/src/transfer.rs:494-509 | Every slot whose task has finished, and no other, becomes `Finished` |
| `TransferRegistry.TransferRegistry.ThrottleAllows` | crates/handshaker-application/src/transfer.rs:547-568 | A suppressed call is less than 100 ms and less than 256 KiB past the last recorded emit and records nothing; an emit records its time and bytes |
| `TransferRegistry.TransferRegistry.UpdateProgress` | crates/handshaker-application/src/transfer.rs:570-607 | Late progress leaves a terminal state alone; an update is published exactly when the throttle allows it |
| `TransferRegistry.TransferRegistry.UpdateBatchItems` | crates/handshaker-application/src/transfer.rs:609-650 | The same for batch item counts, throttled by time only |
| `TransferRegistry.TransferRegistry.AttachBatchResult` | crates/handshaker-application/src/transfer.rs:652-671 | The result is attached only before the terminal state |
| `TransferRegistry.TransferRegistry.RecordError` | crates/handshaker-application/src/transfer.rs:673-688 | The error is recorded whatever the state |
| `TransferRegistry.ClosedByThreeSections` | crates/handshaker-application/src/transfer.rs:465-489 | Closing an entry in one piece is cancelling, transitioning and taking in three critical sections |
| `TransferRegistry.HandlesAreAll` | crates/handshaker-application/src/transfer.rs:429-489 | The returned handles are exactly those stored in some slot of the session |
| `MediaPaging.WalkReturnsEachIdOnce` | crates/handshaker-application/src/media.rs:165-215 | With a limit of at least one and distinct ids in each snapshot, a walk over refreshed libraries returns no id twice, and a completed walk returns each id present in every snapshot exactly once |
| `MediaPaging.PageCovers` | crates/handshaker-application/src/media.rs:176-214 | A page holds exactly the ids between its cursor and the next one, each as often as the library; the next cursor is past the old one and names an item of the page, id-less pages included |
| `MediaPaging.CursorsIncrease` | crates/handshaker-application/src/media.rs:165-215 | Cursors strictly increase |
| `MediaPaging.AheadShrinks` | crates/handshaker-application/src/media.rs:186-211 | The ids ahead of the next cursor are a proper subset of those ahead of the old one |
| `MediaPaging.FixedWalkIsSorted` | crates/handshaker-application/src/media.rs:165-215 | On a fixed library in which all items have ids the pages concatenate to the sorted list |
| `MediaPaging.PageIsFromLibrary` | crates/handshaker-application/src/media.rs:185-214 | A page has at most `limit` items, all from the library |
| `MediaPaging.PageIsARun` | crates/handshaker-application/src/media.rs:165-215 | For any library, ids or none: the page is the run of sorted items past the cursor, as many as fit; a next cursor exists exactly if items remain and some item past the old one has an id, and it is the last id on the page; only a page without ids gives its last slot to the first item that has one |
| `MediaPaging.IdlessFirst` | crates/handshaker-application/src/media.rs:174 | Items without an id sort first, among any whose id is 0 |
| `MediaPaging.SortIsStable` | crates/handshaker-application/src/media.rs:174 | Ordering by id is a stable sorted permutation |
| `MediaPaging.SliceItems` | crates/handshaker-application/src/media.rs:165-215 | The in-place slicing computes the specified page and cursor for every input, limit zero included |
| `MediaMerge.ApplyRefinesMap` | crates/handshaker-core/src/media_merge.rs:64-107 | When every item carries an id the merge is a keyed map: under each id the old entry overlaid by the added and then the updated items with that id, or one made from the first of them; nothing under a deleted id |
| `MediaMerge.LastFieldWins` | crates/handshaker-core/src/media_merge.rs:122-159 | Field by field the last item that carries the field wins, otherwise the old value stays |
| `MediaMerge.TwiceIsOnceIff` | crates/handshaker-core/src/media_merge.rs:64-107 | For a change that uses no path as a key, on any library: applying it twice gives the same list, order included, as applying it once, if and only if every upserted item carries an id |
| `MediaMerge.SteadyKeysSettle` | crates/handshaker-core/src/media_merge.rs:64-107 | With keys by path: if every upserted item has a key, none keyed by its id carries a path, and nothing is deleted, applying the change twice is applying it once, on any library |
| `MediaMerge.UpsertSetsFields` | crates/handshaker-core/src/media_merge.rs:109-378 | One upsert, keyed in any way, field by field and family by family: carried and merged fields from the item, the rest, the id and the snapshot-only fields from the match or empty; all other entries stay |
| `MediaMerge.ApplyTwiceIsOnce` | crates/handshaker-core/src/media_merge.rs:64-107 | The positive half: upserted items with ids, deletions not by path, any library, repeated ids included |
| `MediaMerge.KeylessRepeats` | crates/handshaker-core/src/media_merge.rs:109-120 | The negative half holds for any change: an upserted item with neither id nor path makes the second application differ, on any library |
| `MediaMerge.ApplyCountsBares` | crates/handshaker-core/src/media_merge.rs:109-120 | Every application of any change adds exactly one entry without id and path per upserted item without a key |
| `MediaMerge.RenamedPathRepeats` | crates/handshaker-core/src/media_merge.rs:23-28 | A key by path alone is no substitute: if the same change gives the entry another path, the second application appends |
| `MediaMerge.DeletedPathReturns` | crates/handshaker-core/src/media_merge.rs:180-185 | Nor is deleting by path: an entry deleted by a path its update does not carry comes back the second time |
| `MediaMerge.ApplyKeepsDistinct` | crates/handshaker-core/src/media_merge.rs:109-185 | Any change, keyed by id, by path or not at all, keeps present ids distinct and leaves no entry matching a deleted key |
| `MediaMerge.ApplyKeepsOrder` | crates/handshaker-core/src/media_merge.rs:122-185 | Survivors keep their order, ids, snapshot-only fields and the fields their family cannot overlay; new entries follow with empty snapshot-only fields |
| `MediaMerge.ApplyIsKeptUpsert` | crates/handshaker-core/src/media_merge.rs:73-75 | With ids everywhere, upserting then deleting equals deleting first and upserting what no deletion names |
| `MediaMerge.UpsertThenSurvive` | crates/handshaker-core/src/media_merge.rs:180-185 | One upsert commutes with the deletions |
| `MediaMerge.RemoveAllIsFilter` | crates/handshaker-core/src/media_merge.rs:180-185 | Removing item by item is one order-keeping filter |
| `MediaMerge.Library.UpsertItem` | crates/handshaker-core/src/media_merge.rs:109-120 | In place: the first matching entry is overlaid where it stands, otherwise an entry is appended |
| `MediaMerge.Library.RemoveItem` | crates/handshaker-core/src/media_merge.rs:180-185 | In place: every matching entry goes; an item without a key removes nothing |
| `MediaMerge.Library.ApplyChange` | crates/handshaker-core/src/media_merge.rs:51-107 | Fails exactly on a kind mismatch, then changing nothing; otherwise added, updated and deleted are applied in that order |
| `MediaMerge.Library.UpsertEach` | crates/handshaker-core/src/media_merge.rs:187-204 | One upsert per item, in order (the video family; photo and audio alike) |
| `CivilDate.CountsDays` | crates/handshaker-core/src/exif_parser.rs:94-103 | On every real Gregorian date, of any year, the arithmetic equals a naive day count from 1970-01-01 |
| `CivilDate.NextIsOneMore` | crates/handshaker-core/src/exif_parser.rs:94-103 | The naive count starts at zero and the next day is one more |
| `CivilDate.FourHundredYears` | crates/handshaker-core/src/exif_parser.rs:97-102 | Four hundred years later is 146097 days later |
| `CivilDate.EveryDayHasADate` | crates/handshaker-core/src/exif_parser.rs:94-103 | Every day number, negative ones included, is that of some real date |
| `CivilDate.DatesInOrder` | crates/handshaker-core/src/exif_parser.rs:94-103 | Day numbers order real dates as the calendar does, so with the row above dates and days correspond one to one |
| `CivilDate.EraSplit` | crates/handshaker-core/src/exif_parser.rs:96-97 | The truncating division with its correction splits years into eras of 400 without loss on both sides of year 0 |
| `CivilDate.UnixTimeIsOrdered` | crates/handshaker-core/src/exif_parser.rs:76-92 | Timestamps from 1970 on, real dates and times in range, convert to numbers in the same order, both ways |
| `CivilDate.FitsInAWord` | crates/handshaker-core/src/exif_parser.rs:91 | Up to the year 290 billion the sum fits in 63 bits and the conversion returns it unchanged |
| `CivilDate.AcceptedIff` | crates/handshaker-core/src/exif_parser.rs:76-91 | Accepted are exactly six or more pieces of which the first six are numbers, a year from 1970 on, one of its months, a day that some month has; later pieces do not matter |
| `CivilDate.CollidesIff` | crates/handshaker-core/src/exif_parser.rs:76-92 | Collisions, exactly: an accepted timestamp converts to the value of some other real timestamp in range if and only if it is not one of those itself and its seconds, modulo 2^64, lie before their end |
| `CivilDate.DayPastTheMonth` | crates/handshaker-core/src/exif_parser.rs:87-89 | The range checks let a day past the end of its month through, which then collides with a day of the next month |
| `CivilDate.TimePastItsRange` | crates/handshaker-core/src/exif_parser.rs:84-91 | Hours, minutes and seconds are not checked: 24 hours, 60 minutes or 60 seconds too many collide with the next day, hour or minute |
| `RemotePath.NormalizeIsNormal` | crates/handshaker-application/src/runtime.rs:3547-3561 | Normalising is idempotent, and a path is its own normal form exactly if it is "/" or absolute with no empty, "." or ".." component |
| `RemotePath.DownAndUp` | crates/handshaker-application/src/runtime.rs:3547-3561 | A clean name leads to the child of that name, a name and ".." lead back, "." and "" stay, for every path |
| `RemotePath.NothingAboveRoot` | crates/handshaker-application/src/runtime.rs:3547-3561 | At the root ".." is dropped, whatever follows; the empty path, "/", ".." and "/.." are the root |
| `RemotePath.SameDirectory` | crates/handshaker-application/src/runtime.rs:3547-3561 | Where a path leads depends on where its beginning leads |
| `RemotePath.CliDownAndUp` | crates/handshaker-cli/src/cli.rs:3094-3110 | The same laws for the input of the command line |
| `RemotePath.CliLeavesBase` | crates/handshaker-cli/src/cli.rs:3094-3110 | ".." takes off the last name of the base, whatever it is, and nothing from an empty base; a name goes below it |
| `RemotePath.ResolvesToNormal` | crates/handshaker-application/src/runtime.rs:3510-3543 | Under a normalised root everything resolves to a normal form; an absolute path outside the alias to its own |
| `RemotePath.BlankIsRoot` | crates/handshaker-application/src/runtime.rs:3511-3514 | Blanks, or a dot alone, resolve to the root as it is |
| `RemotePath.TrimTakesWhite` | crates/handshaker-application/src/runtime.rs:3511 | Trimming takes all white space off both ends and nothing else |
| `RemotePath.NormalizeRemotePath` | crates/handshaker-application/src/runtime.rs:3547-3561 | The push and pop loop computes the normal form |
| `RemotePath.ResolveRemote` | crates/handshaker-cli/src/cli.rs:3094-3110 | The command line's loop computes its resolution |
| `RemotePath.CliAgreesIff` | crates/handshaker-cli/src/cli.rs:3094-3110 | The second implementation agrees with normalising the absolute input, and with normalising base + "/" + input for all relative inputs exactly when the base has no "." or ".." component, as every normalised base |
| `RemotePath.CliAgreesOnPlainBase` | crates/handshaker-cli/src/cli.rs:3094-3110 | One direction for each relative input: without dot components in the base both resolutions are equal |
| `RemotePath.CliMissesDots` | crates/handshaker-cli/src/cli.rs:3096-3098 | The other: with one, the empty input already resolves differently, because the command line filters its base instead of walking it |
| `RemotePath.ClampIsByComponents` | crates/handshaker-application/src/runtime.rs:3531-3542 | Under a normalised root the clamp keeps a relative input exactly when the walk from the root's components still has them all in front, and otherwise yields the root |
| `RemotePath.ResolvesBelowRoot` | crates/handshaker-application/src/runtime.rs:3510-3543 | A relative input that, trimmed, never climbs above its start resolves to the root joined with its own normal form, without clamping |
| `RemotePath.AliasMeansRoot` | crates/handshaker-application/src/runtime.rs:3515-3530 | `/sdcard/` followed by anything that never climbs, white space around the path ignored, resolves below the root |
| `RemotePath.AliasExpands` | crates/handshaker-application/src/runtime.rs:3524-3528 | Anything after the alias, or nothing, is normalised together with the root |
| `RemotePath.RelativeStaysBelow` | crates/handshaker-application/src/runtime.rs:3531-3542 | Every resolved relative input lies at or below the normalised root, by components |
| `RemotePath.ResolvedStays` | crates/handshaker-application/src/runtime.rs:3510-3543 | A normal path resolves to itself under any root unless trimming shortens it or it starts with the alias |
| `RemotePath.ResolvedStaysIff` | crates/handshaker-application/src/runtime.rs:3510-3543 | Fixed points, exactly: a normal path resolves to itself under every root if and only if trimming leaves it alone and its first component is not the alias |
| `RemotePath.NormalizeNotLonger` | crates/handshaker-application/src/runtime.rs:3547-3561 | Normalising an absolute path never lengthens it |
| `RemotePath.UnnormalRootPinsAll` | crates/handshaker-application/src/runtime.rs:3535-3542 | Under a root other than "/" and "" some relative input resolves elsewhere than to the root exactly when the root is normalised |
| `RemotePath.PrefixMeansParts` | crates/handshaker-application/src/runtime.rs:3538-3541 | Being the root or starting with the root and a slash is being at or below it by components |
| `Protobuf.VarintIsBase128` | tools/capture/ssp_capture.py:81-90 | An encoding is its number in base 128, least significant digit first, with the high bit on every byte but the last |
| `Protobuf.TagInFront` | tools/capture/ssp_capture.py:93-114 | The tag in front of a field is eight times its number plus its wire type |
| `Protobuf.VarintBack` | tools/capture/ssp_capture.py:81-90 | Whatever stands before and after, parsing at an encoded number gives the number and the offset just past it |
| `Protobuf.ReencodesIff` | tools/capture/ssp_capture.py:117-126 | What was parsed is the encoding of its value exactly when it is one byte long or its last byte is not zero |
| `Protobuf.EncodeVarint` | tools/capture/ssp_capture.py:81-90 | The loop over seven-bit groups computes the encoding |
| `Protobuf.ParseVarint` | tools/capture/ssp_capture.py:117-126 | Or-ing shifted groups computes the number, or the index error when the buffer ends first |
| `Protobuf.FieldsBack` | tools/capture/ssp_capture.py:93-114 | Parsing any concatenation of encoded fields, of wire types 0, 1, 2 and 5, gives exactly those fields to the end |
| `Protobuf.ParseFields` | tools/capture/ssp_capture.py:129-147 | The generator loop yields the specified fields and ends as specified: finished, index error or unsupported wire type |
| `Protobuf.ParseValue` | tools/capture/ssp_capture.py:135-146 | One value per wire type, slices clamped to the buffer |
| `Protobuf.AlienWireEnds` | tools/capture/ssp_capture.py:143-144 | Wire type 3, 4, 6 or 7 behind any fields: they are yielded, then the error names the type and the place behind the tag |
| `Protobuf.CutMessage` | tools/capture/ssp_capture.py:129-147 | A message cut at any byte parses to its end without an error if and only if the cut is not in the middle of a field's tag, number or length, and ends in the index error otherwise; the fields yielded are those before the cut and a field cut in its bytes with the bytes that are left |
| `Protobuf.CutField` | tools/capture/ssp_capture.py:135-144 | The same for one field behind any bytes, wire types 0, 1, 2 and 5 |
| `Protobuf.VarintCut` | tools/capture/ssp_capture.py:117-126 | A number cut short is the index error |
| `Protobuf.CutPayloadPasses` | tools/capture/ssp_capture.py:137-140 | In particular one length-delimited field may lose any part of its payload unnoticed |
| `Protobuf.OrIsSum` | tools/capture/ssp_capture.py:123 | Or-ing a number below 2^k with a multiple of 2^k adds them |
| `SspFrames.ReceivedIff` | tools/capture/ssp_capture.py:208-233 | However a message is cut into frames and whatever follows, it is consumed exactly if and only if its first chunk has at least 8 bytes and no idle frame ends it; with such a first chunk decoding returns the payload in any case, and with a shorter one and nothing behind it the call is an error |
| `SspFrames.MessageBack` | tools/capture/ssp_capture.py:190-240 | With 8 bytes in the first chunk the reader takes exactly the frames that hold the message, leaves idle frames behind them and whatever follows, and decoding returns the payload |
| `SspFrames.RawBack` | tools/capture/ssp_capture.py:229-232 | A raw stream of a given size, cut in any way: exactly the frames that hold it are taken and decode to it; it is consumed exactly if and only if no idle frame ends it |
| `SspFrames.UntilExact` | tools/capture/ssp_capture.py:224-232 | Reading on until the missing bytes are there takes exactly the frames up to the last that carries some |
| `SspFrames.ShortFirstOvershoots` | tools/capture/ssp_capture.py:211-222 | With a shorter first chunk the chunks completing the prefix are not counted: the reader takes bytes of what follows the message, or fails |
| `SspFrames.PrefixTakesSome` | tools/capture/ssp_capture.py:211-222 | Completing a short prefix takes some frames off the stream, in order, and leaves the others |
| `SspFrames.UntilOvershoots` | tools/capture/ssp_capture.py:224-232 | If more is needed than the frames hold, reading goes on past them or ends in the end-of-stream error |
| `SspFrames.DecodeIsBounded` | tools/capture/ssp_capture.py:236-240 | Decoding drops the eight bytes in front and whatever is behind the announced length, and returns everything when nothing was announced |
| `SspFrames.FrameBack` | tools/capture/ssp_capture.py:202-205 | A framed chunk is read back with its session id, leaving exactly what follows |
| `SspFrames.Ssp.RecvFrames` | tools/capture/ssp_capture.py:190-233 | The read loop returns the specified frames and length and leaves the specified rest of the stream, or fails exactly when specified |
| `SspFrames.Ssp.RecvFirst` | tools/capture/ssp_capture.py:202-223 | The first turn of that loop |
| `SspFrames.Ssp.RecvHeader` | tools/capture/ssp_capture.py:208-222 | The length prefix, from the first chunk or from as many frames as complete it |
| `SspFrames.Ssp.RecvFrame` | tools/capture/ssp_capture.py:202-207 | One frame, or the end-of-stream error |
| `SspFrames.Ssp.ReadExact` | tools/capture/ssp_capture.py:181-188 | Exactly the next bytes, or the end-of-stream error with everything consumed |
| `DnsNames.NameBackIff` | tools/capture/ssp_mdns.py:40-55 | Wherever an encoded name stands and whatever follows, parsing stops just past it exactly when every label has 1 to 191 bytes, and then returns the name without trailing dots |
| `DnsNames.CompressionKeepsName` | tools/capture/ssp_mdns.py:47-51 | A name whose non-empty tail is replaced by a pointer to a copy of the tail parses to the same name as when stored whole |
| `DnsNames.PointerKeepsNameIff` | tools/capture/ssp_mdns.py:47-55 | Replacing a tail by a pointer to a copy of it keeps the parsed name if and only if the tail is not empty or no label precedes the pointer |
| `DnsNames.PointerToRoot` | tools/capture/ssp_mdns.py:47-55 | Behind any labels a pointer to the root adds a trailing dot |
| `DnsNames.CompressedBack` | tools/capture/ssp_mdns.py:47-51 | Labels and a pointer parse to the labels and the name at the target, and the offset is just past the pointer |
| `DnsNames.StopsShort` | tools/capture/ssp_mdns.py:43-54 | An empty label, or one of 192 bytes or more, makes the parser stop before the end of the encoded name |
| `DnsNames.QueryBack` | tools/capture/ssp_mdns.py:34-37 | Parsing the query for a name with labels of 1 to 191 bytes gives exactly that question, class 1, no flags, no records |
| `DnsNames.RecordBack` | tools/capture/ssp_mdns.py:71-77 | A record laid out as in section 4.1.3 of RFC 1035 is read back, and the next offset is where the next record starts |
| `DnsNames.PacketBack` | tools/capture/ssp_mdns.py:58-78 | A whole message laid out as in section 4 of RFC 1035, any number of questions and of records in its three sections, names with labels of 1 to 191 bytes stored whole, is read back: flags, questions and records in order, whatever follows |
| `DnsNames.QuestionsRead` | tools/capture/ssp_mdns.py:63-68 | A laid-out question section is read back, names included, up to where the next section starts |
| `DnsNames.RecordsRead` | tools/capture/ssp_mdns.py:69-77 | So is a laid-out section of records, names, fixed fields and data |
| `DnsNames.ShortIsNothing` | tools/capture/ssp_mdns.py:58-60 | Nothing is returned exactly for data shorter than a header |
| `DnsNames.FixedBytesNeeded` | tools/capture/ssp_mdns.py:64-77 | A question needs four bytes behind its name and a record ten, or unpacking fails; a record's own data may be cut short |
| `DnsNames.EncodeName` | tools/capture/ssp_mdns.py:26-31 | The loop encodes every label behind its length, or fails exactly when a label exceeds 255 bytes |
| `DnsNames.ParseName` | tools/capture/ssp_mdns.py:40-55 | Loop and recursion compute the specified name and offset, or the specified error |
| `DnsNames.ParsePacket` | tools/capture/ssp_mdns.py:58-78 | The whole message, nothing for one shorter than a header, or the first error |
| `DnsNames.ParseQuestions` | tools/capture/ssp_mdns.py:63-68 | The question section in order, or its first error |
| `DnsNames.ParseRecords` | tools/capture/ssp_mdns.py:69-77 | The three record sections in order, or their first error |
| `DnsNames.ParseQuestion` | tools/capture/ssp_mdns.py:65-67 | One question, or the error of its name or of too few bytes |
| `DnsNames.ParseRecord` | tools/capture/ssp_mdns.py:71-77 | One record, or the error of its name or of too few bytes |

## Left out

- Sockets, ADB, USB, the mDNS daemon, the file system, JSON contracts, cryptography, argument parsing, translations, terminal output and the FFI layer: input and output, or library wrappers.
- The core protocol client, session, sync engine, journal and store: their calls are abstract steps that may succeed or fail.
- Discovery, DTO conversions, error-code tables, thumbnail naming and stripping, duration parsing: easy members.
- Tokio, std mutexes, `RwLock`, `oneshot`, `watch` and join handles: simple abstract objects; mutex poisoning and fairness are not modelled, and `send` and `borrow` on the watch channel are single steps.
- Aliasing of `Arc<ActiveTransfer>`: entries are values in a map. What it hides, a launcher writing to an entry that has left the registry, is an explicit lost publish.
- The clock of the transfer registry, `is_finished` of its join handles during one reap, and the number of cached fetchers are parameters; u64 and usize overflow of clocks and counters is not modelled.
- Text of errors and events, event sequence numbers and the order of events from different publishers.
- SessionLifecycle: joins of a closing session's tasks and the QUIT exchange lie between two of its steps; joins of transfer tasks are the subject of TaskJoins.
- ShutdownProtocol: joins of sync tasks and closing of sessions are not steps here; sessions are the subject of SessionLifecycle and handles of TaskSlot.
- TaskJoins: gated launches only, batch launches are the subject of ShutdownProtocol; the cancel loop and the sync jobs of shutdown change no handle and are no steps here; a joined task is one that is over, whether it ended or was aborted after the deadline; tasks of sessions closed by `disconnect` and of connects that were never registered are in the runs, but nothing is claimed about them.
- SyncJobs: a watch reservation is not rolled back when the session lookup fails, so nothing is claimed about a flag left up; exclusion is about the flags, not about tasks whose handles a timed-out taker missed; a release lowers the reservation of its job that is in force, its own or, after an end in between, a later one, so the histories are per job; `reconciliation_required` is not modelled.
- TaskSlot: the run slot only; after a re-watch the watch slot is not reserved again and the handover does not apply to it.
- MediaPaging: the standard library's stable sort is a specified function, not an algorithm; limits above the page cap are rejected by the caller and not part of this model; nothing is promised about items without an id.
- MediaPaging.SliceItems: the branch that pushes to an empty page cannot be reached with a limit of at least one and is left out.
- MediaMerge.TwiceIsOnceIff: among changes keyed by path, `SteadyKeysSettle` covers those that leave path keys alone; the others are not decided in general, because whether they repeat depends on the paths the rest of the change writes.
- MediaMerge: the three families differ in their field tables only and share one model; albums in a library are untouched by a change and are not part of it.
- CivilDate: splitting the text and parsing its integers; a debug build's overflow panics, where the model has the release build's wrap-around.
- RemotePath: paths are sequences of Unicode scalar values; splitting is a specified function.
- Protobuf: encoding of a negative number, on which the source does not end; decoding of strings.
- SspFrames: how the socket cuts the byte stream inside one exact read, the capture log, and the upstream direction.
- DnsNames: names are their UTF-8 bytes, so replacement of invalid UTF-8 is not modelled; the interpreter's recursion limit is the parameter `depth`; typed record data is not interpreted.
