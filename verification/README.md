# Durable actors: a verified model

A durable actor runtime keeps each actor's state in SQLite, ships its write log to object storage,
routes invocations to whichever host holds the actor's lease, and restarts it elsewhere from the
newest snapshot. This project models the protocols that make that safe and proves what they promise,
over every input and every run. `dafny verify dfyconfig.toml` checks all of it.

What the source does by changing state step by step is modelled by classes and loops here, each
method proved equal to a specification function of the old state; the promises are then proved about
runs of those functions. What the source computes with expressions is functions and lemmas.

## Files

- `Ltx`, `StateLog`, `Capture`, `Recovery`, `Chains`, `SnapshotRuns`, `Commits`, `SkippedCommits`: the
  snapshot chain. A commit carries the gap-free log files since its parent; a restore walks parents
  backwards and may be cut short by checkpoints; sessions overlap, and their commits land late or never.
  Main results: `Recovery.ResolutionTransparent`, `Chains.ResolutionExactly`,
  `SnapshotRuns.EveryRestoreIsExact`, `SnapshotRuns.CommitsRestoreExactly`.
- `Routes`, `Targets`, `Deployments`, `RedisRoutes`, `RedisDeployments`: the route cache against
  shutdowns and deployments, and its second implementation in Lua. Main results:
  `Routes.ReportedShutdownHolds`, `Targets.TargetExactly`, `Deployments.CacheFollowsDeployment`,
  `RedisRoutes.StoresAgreeExactly`, `RedisDeployments.ScriptedCacheFollowsDeployment`.
- `Driver`, `Mailbox`, `Admission`, `Calls`, `Outcomes`, `Service`, `Completions`, `Settle`: one
  invocation at a time unless admitted, first come first started, executed at most once, and told what
  became of it. Main results: `Admission.StartsNeedAdmission`, `Admission.OneFatePerRequest`,
  `Calls.PeerMovesExactly`, `Outcomes.HandedLearns`, `Service.ArrivalExactly`,
  `Completions.PublishesInOrder`, `Settle.Settle`.
- `Leases`, `Renewals`: the fence and the renewal loop in time, down to the nanosecond. Main results:
  `Leases.FencingIsAbsorbing`, `Leases.FullMarginExactly`, `Leases.LossIsReportedByExpiry`,
  `Renewals.LoopEndsExactly`.
- `Alarms`, `Schedules`: claims, slots and retries. Main results: `Alarms.ExclusiveExactly`,
  `Alarms.SchedulesSurvive`, `Schedules.RecordedNeverRepeats`.
- `Residency`, `Usage`, `Reconciliation`: the residency timeline and usage revisions. Main results:
  `Residency.HistoryMeansStatus`, `Usage.RevisionsConverge`, `Reconciliation.OnlyNewsIsSent`.
- `SocketBus`, `Bucket`: subscription counting and immutable objects. Main results:
  `SocketBus.SubscriptionsConverge`, `Bucket.SuccessfulPutsStay`, `Bucket.SwapsAreExclusive`.
- `Base64`, `Text`, `Paths`: identities printed into keys and paths and read back.
- `Actors`, `Wrappers`, `Sorting`: identities, options, results, and the stable sort used for listings,
  reports and alarms.

## Where the code does less than it says

- `src/host/lease_maintenance.rs:171-174` says the local window always lapses at or before the stamped
  expiry. Clocks are read in whole milliseconds, so it can lapse later, by less than two milliseconds:
  `Leases.LocalDeadlineCanBeLate`, with the exact condition in `Leases.LocalDeadlineByExpiryExactly`.
- The five-second margin of the lease fence can be short by less than a millisecond for the same
  reason: `Leases.MarginCanFallShort`, with the exact condition in `Leases.FullMarginExactly`.
- The Lua scripts compare epochs as doubles, so beyond 2^53 the two route stores part ways:
  `RedisRoutes.StoresDisagreeBeyondDoubles`, with the exact condition in
  `RedisRoutes.StoresAgreeExactly`. Hosts refuse such epochs (`src/host/http.rs:318`).
- `src/control_plane/alarms.rs:24` asks that a live delivery finish before its claim expires. Its
  attempts and pauses take at most 186 of the 300 seconds, but nothing bounds how long after the claim
  it begins. It must begin within 114 seconds, exactly: `Alarms.ExclusiveExactly`.
- A capture moves a session's position before its commit is stored. Invocations settle a pending commit
  first (`src/host/actor_database/session.rs:68`); an immediate write (`:178-194`) captures without
  doing so. When the pending commit never arrived, the next one then begins after a gap and cannot be
  restored: `SkippedCommits.SkippingLosesState`, with the exact condition in
  `SnapshotRuns.CommitsRestoreExactly`.

## What is taken as given

- Channels are queues and `select!` is any choice, so the runs here include those that a biased
  `select!` would not take. The executor process, the network, hosts' timing and the order in which
  hash maps list their keys are arbitrary.
- An LTX file is its transaction range, its header magic, its length and the page versions it writes;
  compaction is the merge of the newest page versions. Where a run writes and reads snapshots, decoding
  undoes encoding; `Recovery` itself does not assume even that, and nothing is assumed about the
  checksum. SHA-256 is a parameter in `Paths`.
- In `SnapshotRuns` the replica directory holds what Litestream promises: each delta and each full
  copy carries the pages of its transactions.
- Clocks run at one rate; their offset is arbitrary. Time passes in events or is a parameter, and timers
  fire when they are due.
- Actor ids, session keys, object keys and contents that are only compared are natural numbers.

## Model

| member | source | states |
|---|---|---|
| Ltx.MergeIsNewest | src/litestream/compaction.rs:27-52 | the k-way merge holds, for every page number, exactly the version of the newest file that writes it, and no other page |
| Ltx.ReplayIsMerge | src/litestream/compaction.rs:27-52 | replaying any list of files onto an empty database gives the merge of the list |
| Ltx.CompactPreserves | src/litestream/compaction.rs:27-52 | compacting a gap-free history from transaction 1 succeeds, covers the same transactions and restores the same database as the history |
| StateLog.ValidateSqlite | src/state_log.rs:38-69 | the validation loop accepts a commit if and only if its files are valid, gap-free up to its transaction, start at 1 exactly when it has no parent, and its parent has a smaller state version |
| StateLog.Validate | src/state_log.rs:133-144 | a snapshot is accepted if and only if version and epoch are positive, the request id fits and its commit is well formed |
| StateLog.Utf8IsShortest | src/state_log.rs:133-144 | the length the request id is held to counts each character as its shortest UTF-8 sequence |
| Capture.ReadLtxFiles | src/litestream/storage.rs:225-255 | the listing loop yields the files ending inside the window, by range, and of full copies only the last |
| Capture.AssembleFiles | src/litestream/storage.rs:190-223 | the joining loop computes the specified result for every input, including each gap and overflow error |
| Capture.CollectLtxFiles | src/litestream/storage.rs:190-223 | collection over both directories computes the specified result for every input |
| Capture.CollectedCovers | src/litestream/storage.rs:190-223 | a collected list that is not empty is gap-free up to the requested transaction and starts right after the last published one or at 1; an empty one means nothing was committed |
| Capture.ListingKeepsNewest | src/litestream/storage.rs:225-255 | of the full copies that end inside the window none has a later range than the one kept, and there is one whenever any does |
| Capture.CollectedSucceeds | src/litestream/storage.rs:190-223 | collection succeeds whenever the deltas are gap-free and no full copy ends inside one of them |
| Capture.PruneLevel | src/litestream/storage.rs:123-140 | cleanup of one level removes spent files in listing order until it stops |
| Capture.PruneInvisible | src/litestream/storage.rs:111-140 | however far cleanup gets before it fails, no later capture collects anything different |
| Capture.SqliteCapture.constructor | src/litestream/storage.rs:60-77 | a capture starts with its position both captured and published |
| Capture.SqliteCapture.Capture | src/litestream/storage.rs:111-121 | a capture refuses to go backwards, otherwise returns the collected list, moves both positions on success and changes nothing on failure |
| Recovery.DecodeSnapshot | src/state_log.rs:101-113 | decoding succeeds exactly when the bytes parse to a well-formed snapshot |
| Recovery.ReadCheckpoint | src/bucket/recovery.rs:120-136 | a checkpoint is accepted exactly when it names the asked-for source and transaction and is a complete, well-formed commit |
| Recovery.ReadParent | src/bucket/recovery.rs:67-91 | a parent is followed exactly when it is there, decodes, has the recorded digest, version and request, belongs to the same actor and ends where its child begins |
| Recovery.Walk | src/bucket/recovery.rs:52-92 | the backward walk terminates on every history and computes the specified trail of segments, or fails exactly when there is none |
| Recovery.Resolve | src/bucket/recovery.rs:38-110 | resolution computes the specified result for every history and prefetched checkpoint, or fails exactly when there is none |
| Recovery.BaseWithinTotal | src/bucket/recovery.rs:93-97 | the base segment never exceeds the total, so the byte accounting cannot underflow |
| Recovery.TraceCovers | src/bucket/recovery.rs:52-92 | whatever checkpoints cut the walk short, the segments found are together gap-free from transaction 1 |
| Recovery.ResolutionStandsAlone | src/bucket/recovery.rs:38-110 | a resolved commit has no parent, keeps the transaction asked for, is gap-free from 1, is itself well formed, and its base and log bytes add up to its total |
| Recovery.TraceTransparent | src/bucket/recovery.rs:52-92 | with any checkpoints that compact their own source's history, the walk restores the database that the walk without checkpoints restores, and it succeeds if no checkpoint is unreadable |
| Recovery.ResolutionTransparent | src/bucket/recovery.rs:38-136 | restore transparency: any subset of faithful checkpoints, read or prefetched, leaves the restored database and transaction unchanged |
| Chains.ResolutionExactly | src/bucket/recovery.rs:38-110 | over the stored objects alone: a snapshot resolves to a result if and only if its parent links lead, over unaltered commits without a checkpoint, to one with an acceptable checkpoint or no parent, and the result is the files found there with the others replayed on them, the bytes of both counted apart, the version where the walk ended, whether that was a checkpoint, and the number of links |
| SnapshotRuns.CheckpointFileRestores | src/bucket/rapid/checkpoint.rs:54-121 | the file a checkpoint stores covers the whole history and restores the same database |
| SnapshotRuns.CaptureLinks | src/host/actor_database/session.rs:625-644 | from a session whose head is where its capture stands, linking a non-empty capture to the head, unless it begins at 1, always yields a well-formed commit |
| SnapshotRuns.CaptureReplays | src/host/actor_database/session.rs:625-644 | replaying a captured commit on top of what was captured before gives the database of the captured transaction |
| SnapshotRuns.CaptureRestores | src/host/actor_database/session.rs:409-467 | a commit captured there, or beginning at 1, restores through its whole chain exactly the database it was captured from |
| SnapshotRuns.RestoreIsExact | src/bucket/recovery.rs:38-110 | while the store is sound, every stored snapshot restores to the database and transaction it was captured from, by any route |
| SnapshotRuns.CaptureKeepsInv | src/host/actor_database/session.rs:409-467 | a capture that does not skip past its head keeps everything handed to the store restorable, also when its commit cannot be made |
| SnapshotRuns.LandKeepsInv | src/host/actor_database/session.rs:468-473 | a commit landing late, repeatedly, from a session long gone, or against a name already taken, keeps every stored snapshot restorable |
| SnapshotRuns.AcknowledgeKeepsInv | src/host/actor_database/session.rs:541-578 | moving the head once the store holds the pending commit keeps it sound |
| SnapshotRuns.CheckpointKeepsInv | src/bucket/rapid/checkpoint.rs:54-121 | writing a checkpoint keeps every stored snapshot restorable |
| SnapshotRuns.RestartKeepsInv | src/host/actor_database/session.rs:323-360 | restarting from any stored snapshot, beside any other session, succeeds and resumes with exactly its database |
| SnapshotRuns.RunKeepsInv | src/bucket/recovery.rs:38-136 | the chain invariant holds after every run of captures, landings, acknowledgements, checkpoints, restarts and drops of any number of sessions, as long as no capture skips |
| SnapshotRuns.EveryRestoreIsExact | src/bucket/recovery.rs:38-136 | capture to restore: after any such run, resolving any stored snapshot succeeds, is gap-free from 1 to the stored transaction and gives exactly the database captured, with or without prefetched checkpoints |
| SnapshotRuns.AcknowledgedIsDurable | src/host/actor_database/session.rs:541-578 | what a session has acknowledged is stored, with the database the session captured |
| SnapshotRuns.CommittedStateIsPermanent | src/bucket/snapshots.rs:230-236 | what a stored snapshot holds and restores to never changes for the rest of the run |
| SnapshotRuns.CommitsRestoreExactly | src/host/actor_database/session.rs:409-578 | in every honest run, every commit handed to the store restores what it was captured from if and only if no capture that continued the log was taken while its session had moved past its head |
| Commits.CommitsTakeEffect | src/host/actor_database/session.rs:409-578 | a commit that reaches the store under a free name and is acknowledged is stored with the captured database under the next version, and the session rests on it |
| Commits.UnmadeCommitsMove | src/host/actor_database/session.rs:409-467 | a capture that finds files moves the session on whether or not a commit can be made of them |
| Commits.RestartsRestore | src/host/actor_database/session.rs:323-360 | after any gap-free run, a session restored from any stored snapshot has its database and version and either goes on from its transaction on top of it or starts a history of its own |
| Commits.CheckpointsEndWalks | src/bucket/rapid/checkpoint.rs:54-121 | a checkpoint written for any stored dependent commit makes every walk from there end at once with one file, nothing to replay, and the same database |
| SkippedCommits.SkippingLosesState | src/host/actor_database/session.rs:178-194 | a capture taken while a commit is unsettled can store a commit that cannot be restored: a concrete run |
| Routes.MemoryRoutes.constructor | src/control_plane/routes.rs:87-97 | the cache starts empty at generation 0 |
| Routes.MemoryRoutes.Get | src/control_plane/routes.rs:101-104 | a lookup answers the live entry that is visible under the current generation |
| Routes.MemoryRoutes.Write | src/control_plane/routes.rs:139-155 | a write lands only if the observed generation is current and the entry supersedes the visible one |
| Routes.MemoryRoutes.Put | src/control_plane/routes.rs:117-119 | reports are written without an observed generation |
| Routes.MemoryRoutes.Remember | src/control_plane/routes.rs:110-115 | resolved routes are written only under the generation they were resolved in |
| Routes.MemoryRoutes.Renew | src/control_plane/routes.rs:121-123 | renewal extends only the active route of that activation |
| Routes.MemoryRoutes.Remove | src/control_plane/routes.rs:125-127 | removal drops only the active route of that activation |
| Routes.MemoryRoutes.RemoveProject | src/control_plane/routes.rs:129-131 | retiring a project moves the generation on and nothing else |
| Routes.MemoryRoutes.Tick | src/control_plane/routes.rs:190-204 | time passing is what expires entries |
| Routes.ShutdownStep | src/control_plane/routes.rs:41-79 | one operation ends a visible shutdown entry if and only if it overtakes it with a greater epoch or lets it expire; otherwise neither its rank nor its deadline goes back |
| Routes.ShutdownHolds | src/control_plane/routes.rs:139-187 | over any run that is not overtaken and stays within the deadline, a shutdown entry holds |
| Routes.ReportedShutdownHolds | src/control_plane/service.rs:585-604 | once a shutdown report is taken, it holds for the whole retention against every run of operations that does not bring a greater epoch |
| Routes.ShutdownIsNeverTargeted | src/control_plane/service.rs:847-883 | while it holds, no lookup returns an active route and the host is never chosen as a target |
| Targets.ShutDownExactly | src/control_plane/routes.rs:41-187 | in every run the cache says an activation is shutting down if and only if it was reported and neither overtaken nor forgotten since |
| Targets.HostsMatchTheirDeployment | src/control_plane/service.rs:1436-1438 | a launched host counts as one of a deployment if and only if it was launched for it |
| Targets.TargetExactly | src/control_plane/service.rs:847-883 | after every run of the cache, a recorded owner is chosen if and only if it holds its own unexpired lease, is a host of the deployment asked for and has no shutdown in force, and the shutdown is answered if and only if only that last is missing |
| Deployments.StepKeepsInv | src/control_plane/service.rs:660-733 | every step of resolvers and deployers keeps cached and in-flight routes tied to the generation that read their specification |
| Deployments.RunKeepsInv | src/control_plane/service.rs:660-733 | the tie holds after every interleaving |
| Deployments.CacheFollowsDeployment | src/control_plane/service.rs:154-171 | in every interleaving whose last change of the registry is followed by a retirement of the routes, no lookup returns an active route resolved from another specification |
| Deployments.WindowBeforeLastRetirement | src/control_plane/service.rs:248-249 | before that retirement the stale route can be returned: a concrete interleaving |
| RedisDeployments.StepSimulates | src/control_plane/routes.rs:207-323 | over the scripted store, for epochs of any size, each step does what some step over the in-memory cache does |
| RedisDeployments.RunSimulates | src/control_plane/routes.rs:207-323 | so every interleaving over the scripted store is one over the cache that changes and retires at the same places |
| RedisDeployments.ScriptedCacheFollowsDeployment | src/control_plane/service.rs:660-733 | the scripted store promises of deployments what the cache promises, for epochs of any size |
| RedisRoutes.ToNumberMonotone | src/control_plane/routes.rs:215-228 | Lua's conversion of epochs to doubles never reverses an order |
| RedisRoutes.ToNumberExact | src/control_plane/routes.rs:215-228 | epochs up to 2^53 are converted exactly |
| RedisRoutes.RoundToNearest | src/control_plane/routes.rs:215-228 | beyond 2^53 the conversion takes a nearest multiple of the last place, and of two an even one |
| RedisRoutes.StepAgrees | src/control_plane/routes.rs:207-323 | one operation keeps the scripted and the in-memory store in agreement if and only if it does not write over an epoch that is smaller but the same double |
| RedisRoutes.StoresAgree | src/control_plane/routes.rs:207-323 | for one project, every run that never conflates two epochs gives the same lookups from both stores |
| RedisRoutes.StoresAgreeExactly | src/control_plane/routes.rs:207-323 | the two stores answer alike throughout a run if and only if no write of it conflates two epochs |
| RedisRoutes.StoresAgreeOnServedEpochs | src/host/http.rs:311-323 | for the epochs a host serves the two stores always agree |
| RedisRoutes.StoresDisagreeBeyondDoubles | src/control_plane/routes.rs:215-228 | beyond 2^53 they do not: a concrete run |
| RedisRoutes.ScriptsRefine | src/control_plane/routes.rs:214-232 | for epochs of any size a script does what the in-memory store does or refuses the write |
| RedisRoutes.ScriptedShutdownStep | src/control_plane/routes.rs:214-232 | one script ends a visible shutdown entry if and only if it brings an epoch that is the greater double or lets it expire; otherwise neither its rank nor its deadline goes back |
| RedisRoutes.ScriptedShutdownHolds | src/control_plane/routes.rs:208-232 | for epochs of any size, over every run without a write of a greater epoch and within the deadline, a shutdown entry in the scripted store holds |
| Driver.ExecutorDriver.constructor | src/actor/executor_connection.rs:576-598 | a connection starts with message id 1 and nothing outstanding |
| Driver.ExecutorDriver.Enqueue | src/actor/executor_connection.rs:872-891 | a command gets a fresh message id, is awaited if it could be encoded, and id exhaustion ends the connection |
| Driver.ExecutorDriver.AllowNextInvocation | src/actor/executor_connection.rs:717-736 | admission is granted at most once per awaited invocation or socket event; anything else ends the connection |
| Driver.ExecutorDriver.CallDatabase | src/actor/executor_connection.rs:738-763 | an awaited command has at most one database call at a time, and calls for other ids run in no command's name |
| Driver.ExecutorDriver.DatabaseCalled | src/actor/executor_connection.rs:765-785 | a finished call frees its command |
| Driver.ExecutorDriver.LoadConnections | src/actor/executor_connection.rs:800-825 | an awaited command other than an eviction has at most one lookup at a time |
| Driver.ExecutorDriver.Deliver | src/actor/executor_connection.rs:902-917 | a reply is taken only for an awaited command with nothing outstanding |
| Calls.OutstandingExactly | src/actor/executor_connection.rs:738-825 | in every run the connection remembers, for an awaited command, exactly the database call and the lookup that have not come back |
| Calls.PeerMovesExactly | src/actor/executor_connection.rs:632-683 | in every run a message ends the connection if and only if it answers or admits for what is not awaited, answers with something outstanding, asks twice at once or admits twice; any other completes or admits exactly the invocation it names |
| Calls.SendsExactly | src/actor/executor_connection.rs:872-891 | a command goes out under an id of its own as what its request asks for and is awaited from then on, fails if it cannot be encoded, and ends the connection when the ids run out |
| Calls.IdsAreFresh | src/actor/executor_connection.rs:872-891 | no message id is given out twice in a run |
| Mailbox.Actor.constructor | src/host/actor_host.rs:76-111 | a mailbox starts empty and serving |
| Mailbox.Actor.Receive | src/host/actor_host.rs:193-332 | a request is queued, refused by the mailbox, or refused by its sender when the mailbox is gone |
| Mailbox.Actor.Launch | src/host/actor_host.rs:345-364 | starting numbers the invocation, marks the admission signal as seen and blocks on the new invocation |
| Mailbox.Actor.StartReady | src/host/actor_host.rs:334-343 | the starting loop pops the front of the queue for as long as nothing blocks |
| Mailbox.Actor.Admitted | src/host/actor_host.rs:303-307 | an admission unblocks the mailbox and marks the activation as interleaved |
| Mailbox.Actor.Dropped | src/host/actor_host.rs:486-504 | dropping the mailbox refuses everything that still waits |
| Mailbox.Actor.Executed | src/host/actor_host.rs:366-425 | a completion answers its request, unblocks the mailbox if it blocked, or stops it when recovery demands |
| Mailbox.ArrivedKeepsValid | src/host/actor_host.rs:317-332 | receiving keeps every request in exactly one place and the queue in order of arrival |
| Mailbox.ReadiedKeepsValid | src/host/actor_host.rs:334-364 | starting keeps the same, and starts requests in order of arrival |
| Mailbox.DropKeepsValid | src/host/actor_host.rs:486-504 | dropping keeps the same |
| Mailbox.SettledKeepsValid | src/host/actor_host.rs:366-400 | completing keeps the same |
| Mailbox.ExecutedIsNeverUnavailable | src/host/actor_host.rs:550-785 | a request counts as executed exactly when it was handed to the executor, and then it is never answered as host unavailable |
| Admission.ReadiedShape | src/host/actor_host.rs:334-364 | waking starts at most one request, only when nothing blocks, and answers only requests that never started |
| Admission.SettledShape | src/host/actor_host.rs:366-400 | completing answers the completed request, leaves earlier answers alone and refuses only what never started |
| Admission.AdmitKeeps | src/host/actor_host.rs:303-307 | a signal the mailbox has not looked at came from the invocation that blocks, so unblocking on it is right |
| Admission.StartKeeps | src/host/actor_host.rs:345-364 | a start keeps every other running invocation among those that admitted one |
| Admission.GrantKeeps | src/actor/executor_connection.rs:717-736 | whatever the executor sends as a grant, the invariants of mailbox and connection hold |
| Admission.ReplyKeeps | src/actor/executor_connection.rs:902-917 | whatever it sends as a reply, they hold |
| Admission.EnqueueKeeps | src/actor/executor_connection.rs:872-891 | handing a command over keeps them |
| Admission.DispatchKeeps | src/host/actor_host.rs:550-612 | an invocation about to be handed over was not handed over before |
| Admission.RunKeepsInv | src/host/actor_host.rs:281-315 | the invariants hold after every interleaving of mailbox, connection and an arbitrary executor |
| Admission.OneInvocationUnlessAdmitted | src/host/actor_host.rs:281-400 | at any moment at most one running invocation has not admitted another, and it is the one the mailbox waits for |
| Admission.StartsNeedAdmission | src/host/actor_host.rs:281-364 | interleaving exclusion: a move starts at most one invocation, and then every other one still running has admitted it |
| Admission.UnavailableMeansNotHanded | src/host/actor_host.rs:193-222 | a request answered as host unavailable was never handed to the executor, and no request is handed over twice |
| Admission.OneFatePerRequest | src/host/actor_host.rs:281-504 | every received request is in exactly one of queue, running set and answers; starts follow the order of arrival; a stopped mailbox leaves no caller without an answer |
| Admission.DrainingStartsOnlyDisconnects | src/host/actor_host.rs:324-343 | once draining, a mailbox stays so and starts nothing but socket disconnects, in every run |
| Admission.AnswersArePermanent | src/host/actor_host.rs:444-448 | no answer ever changes, so no request is answered twice |
| Outcomes.RecoveryExactly | src/host/actor_host.rs:402-425 | when a completion stops the mailbox, evicts, resets or keeps the activation, each if and only if a condition on the reply, the publication and earlier interleaving holds |
| Outcomes.LearnedExactly | src/host/actor_host.rs:193-222 | in every run the caller of a request that started learns an outcome if and only if a completion of that request says so, or the outcome is unknown and the mailbox stopped without one |
| Outcomes.HandedLearns | src/host/actor_host.rs:724-817 | in every run a request the executor had is reported completed if and only if its reply was acceptable, stored and confirmed under a lease still held and the mailbox survived; unknown if and only if the storing was in doubt or the mailbox stopped; a host error if and only if it was not stored; and never as host unavailable |
| Outcomes.FlagsExactly | src/host/actor_host.rs:281-315 | a mailbox lives until it is stopped or a completion stops it, and counts as interleaved from the first admission or interleaved completion on |
| Outcomes.OthersStarted | src/host/actor_host.rs:317-343 | whoever never started is told nothing but a refusal |
| Service.WaitingMeansBlocked | src/host/actor_host.rs:334-343 | in every run a request waits only while an invocation that blocks the mailbox runs |
| Service.ArrivalExactly | src/host/actor_host.rs:317-364 | in every run an arriving request is refused as unavailable, refused as invalid, started at once or queued, each if and only if its condition holds |
| Service.ValidIsServed | src/host/actor_host.rs:324-343 | a valid request of a mailbox that still serves its kind has started or waits; invalid ones never start; refusals have no other cause |
| Service.UnblockingStarts | src/host/actor_host.rs:303-364 | whoever is next in line starts when the blocking invocation admits it or is completed without stopping the mailbox, and the admission is used up |
| Completions.DatabaseWorker.constructor | src/host/actor_database.rs:90-113 | the worker starts by expecting completion 1 |
| Completions.DatabaseWorker.Complete | src/host/actor_database.rs:455-474 | the reorder loop buffers, drains or stops as specified for every completion and buffer |
| Completions.DrainTakesRun | src/host/actor_database.rs:467-472 | draining takes exactly the consecutive run from the next number on and stops exactly at one that cannot be confirmed |
| Completions.PublishesInOrder | src/host/actor_database.rs:455-497 | for every arrival order, what is published is 1, 2, 3 and so on without a gap, the rest is buffered, and the worker keeps running if and only if no number is zero or repeated and none that cannot be confirmed has all smaller ones there |
| Completions.EveryOrderDrains | src/host/actor_database.rs:455-474 | in whatever order the numbers one to n arrive, all are published in order and nothing stays buffered |
| Settle.RefusalIsGenuine | src/host/http.rs:203-205 | by the mailbox's guarantee, a host that replies that it executed nothing started nothing and never will, however it runs on |
| Settle.RefusedNeverStarted | src/control_plane/invocation.rs:273-333 | a refused attempt, first or dispatched, did not start the invocation |
| Settle.OutcomeExactly | src/control_plane/invocation.rs:273-333 | what an attempt comes back with, over its own fields: completed if and only if a host served it, its mailbox answered so and the effects went out; a failure code if and only if the mailbox answered it, the effects did not go out or the state was unavailable; unknown if and only if the exchange was lost or the answer missing or malformed |
| Settle.CompletedIsDurable | src/host/http.rs:173-217 | what a caller is told has completed was completed in the run of the host that answered |
| Settle.Settle | src/control_plane/invocation.rs:147-200 | one settle run starts the invocation at most once, reports a refusal only if nothing started it, repeats only after refusals before the deadline, removes exactly the routes that refused or left the outcome open, and returns what the last attempt yields |
| Leases.LeaseFence.constructor | src/control_plane/client.rs:174-178 | a fence starts unconfirmed and open |
| Leases.LeaseFence.Check | src/control_plane/client.rs:209-217 | a check fences from the deadline on, and a fenced host never passes |
| Leases.LeaseFence.Begin | src/control_plane/client.rs:181-187 | a registration may begin only while the last lease is still safe |
| Leases.LeaseFence.Confirm | src/control_plane/client.rs:189-207 | a confirmation that comes after the safe window fences the host; otherwise the deadline is five seconds before the end of the window that began with the request |
| Leases.RunKeepsInv | src/host/storage.rs:352-391 | in every run the deadline in force is that of the last confirmed registration |
| Leases.FencingIsAbsorbing | src/control_plane/client.rs:174-217 | once the deadline has passed or the host is fenced, no begin, confirm or check ever succeeds again, however late and in whatever order |
| Leases.AskedExactly | src/control_plane/client.rs:181-217 | a check succeeds if and only if a confirmed lease is safe, a begin or confirm if and only if none became unsafe and the confirmed one is safe itself, all on a host never fenced |
| Leases.FencedExactly | src/control_plane/client.rs:174-217 | a host is fenced if and only if some event of its run fenced it |
| Leases.RegistrationsAreTraced | src/host/storage.rs:352-391 | the lease a host goes by was begun and then stamped in its run at the times it is recorded with |
| Leases.CheckLeavesMargin | src/host/storage.rs:261-270 | a check that succeeds leaves more than 4.999 seconds of the last confirmed lease, whatever the clock offset |
| Leases.FullMarginExactly | src/control_plane/client.rs:196-197 | every successful check leaves the full five seconds if and only if the stamp, in whole milliseconds, is at most one nanosecond before the start of the registration |
| Leases.MarginCanFallShort | src/control_plane/client.rs:196-197 | a check can succeed with less than five seconds left: a concrete run |
| Leases.RenewUntilStopped | src/host/lease_maintenance.rs:93-168 | the renewal loop computes the specified outcome for every sequence of rounds |
| Leases.LocalDeadlineByExpiryExactly | src/host/lease_maintenance.rs:170-211 | the local deadline is by the stamped expiry if and only if the fractions of a millisecond dropped by the readings are covered by the time the renewal took, and it is never two milliseconds late |
| Leases.LocalDeadlineCanBeLate | src/host/lease_maintenance.rs:170-211 | it can be late: a concrete renewal |
| Leases.LossIsReportedByExpiry | src/host/lease_maintenance.rs:93-168 | however the rounds go, loss is reported less than two milliseconds after the expiry of the last confirmed renewal, and failed renewals postpone nothing |
| Renewals.LoopEndsExactly | src/host/lease_maintenance.rs:93-168 | the loop is stopped if and only if in some round a shutdown comes before the confirmed window runs out, and reports loss if and only if in some round the window runs out first |
| Renewals.EndsInTime | src/host/lease_maintenance.rs:113-168 | a stopped loop had a shutdown no later than the local deadline of the last confirmed renewal; loss is reported at that deadline, or at once when the renewal came back after it |
| Renewals.RefusalsLoseTheLease | src/host/lease_maintenance.rs:137-168 | without a shutdown, refused renewals cost the lease at the very end of the window confirmed first |
| Renewals.ConfirmedRenewalsKeepTheLease | src/host/lease_maintenance.rs:93-168 | renewals accepted in time with time remaining keep the loop going for as long as they come, and the last of them is the one confirmed |
| Alarms.SelectionIsDue | src/control_plane/alarms.rs:448-478 | everything selected is due and unclaimed or expired, and the limit is kept |
| Alarms.SelectionIsEarliest | src/control_plane/alarms.rs:448-478 | the selection is in order of time; something due is passed over only when the limit is reached, and is then not earlier than anything selected |
| Alarms.MemoryAlarmStore.constructor | src/control_plane/alarms.rs:406-415 | the store starts empty |
| Alarms.MemoryAlarmStore.Update | src/control_plane/alarms.rs:428-446 | a new schedule gets the next revision and no claim, unless the revision is exhausted |
| Alarms.MemoryAlarmStore.CollectDue | src/control_plane/alarms.rs:455-465 | the filter loop collects exactly the due alarms in listing order |
| Alarms.MemoryAlarmStore.Mark | src/control_plane/alarms.rs:467-477 | the marking loop claims each selected alarm at its current revision |
| Alarms.MemoryAlarmStore.ClaimDue | src/control_plane/alarms.rs:448-478 | claiming returns and marks exactly the selection |
| Alarms.MemoryAlarmStore.Finish | src/control_plane/alarms.rs:480-488 | finishing clears a schedule only at the revision that was claimed |
| Alarms.StepKeepsInv | src/control_plane/alarms.rs:68-94 | every step of scheduling, polling, attempting, pausing and finishing keeps claims spaced, remembered and within slots |
| Alarms.ClaimsAreSpaced | src/control_plane/alarms.rs:109-116 | in every run two claims of one schedule are at least the queue timeout apart |
| Alarms.SlotsSuffice | src/control_plane/alarms.rs:74-92 | at most 100 deliveries hold a slot, and whenever a claimed alarm asks for one there is one |
| Alarms.DeliveriesConclude | src/control_plane/alarms.rs:130-147 | in every run, with each attempt cut off after 60 seconds and two pauses that double from one second and may be stretched by their own length, a delivery not concluded began at most 186 seconds ago |
| Alarms.DeliveriesNeverOverlap | src/control_plane/alarms.rs:118-147 | when deliveries begin within 114 seconds of their claim, every earlier delivery of a schedule has concluded by the time the schedule is claimed again |
| Alarms.AttemptsNeverOverlap | src/control_plane/alarms.rs:118-147 | so attempts of one schedule never overlap, in any run |
| Alarms.LateRunOverlaps | src/control_plane/alarms.rs:24-25 | with a delivery that begins 114 seconds after its claim and uses all its attempts and pauses, they do: a concrete run within every cut-off |
| Alarms.ExclusiveExactly | src/control_plane/alarms.rs:24-25 | attempts of one schedule never overlap in any run if and only if every delivery begins less than 114 seconds after its claim |
| Alarms.SchedulesSurvive | src/control_plane/alarms.rs:480-488 | a schedule stays as set through any run that neither replaces it nor finishes that very revision, so finishing an old revision never erases a newer one |
| Schedules.ScheduleTakesEffect | src/control_plane/alarms.rs:428-446 | a new schedule takes effect unclaimed under a greater revision unless revisions have run out, and touches no other alarm |
| Schedules.RecordedNeverRepeats | src/control_plane/alarms.rs:118-128 | once a delivery of the current revision is recorded, no poll in any run ever claims that revision again |
| Schedules.PollClaimsExactly | src/control_plane/alarms.rs:96-116 | a poll claims only alarms that are due and not claimed within five minutes, and all of those unless it fills every free slot with none later |
| Residency.DropRepeats | src/actor_lifecycle/residency.rs:21-21 | the in-place removal of repeated keys keeps the first of each run |
| Residency.RetainOrdered | src/actor_lifecycle/residency.rs:22-27 | the retaining loop drops what claims a time before one already seen |
| Residency.KeptExactly | src/actor_lifecycle/residency.rs:20-27 | a report is kept if and only if it is the first listed with its epoch and sequence and no report so listed with a smaller key claims a later time |
| Residency.KeptAdvances | src/actor_lifecycle/residency.rs:20-27 | kept reports advance in key and never go back in time |
| Residency.Push | src/actor_lifecycle/residency.rs:60-84 | an empty period is dropped, one that continues the last is merged into it, any other is appended |
| Residency.PushKeepsTiling | src/actor_lifecycle/residency.rs:60-84 | pushing at the end of a tiling gives a tiling |
| Residency.Group | src/actor_lifecycle/residency.rs:11-17 | grouping collects each actor's reports in order |
| Residency.ForActorIsOwn | src/actor_lifecycle/residency.rs:11-17 | an actor's group holds exactly the reports that name it, each as often as it was reported |
| Residency.ForActorConcat | src/actor_lifecycle/residency.rs:11-17 | grouping keeps the order of reports |
| Residency.Report | src/actor_lifecycle/residency.rs:19-56 | one actor's loop adds exactly its own timeline behind the periods of others |
| Residency.History | src/actor_lifecycle/residency.rs:8-58 | the history is the timelines of all reported actors, computed from at most 10 000 reports, and says whether some were cut off |
| Residency.TimelineMeansStatus | src/actor_lifecycle/residency.rs:28-55 | a timeline tiles the window from its first report on, neighbours differing, and shows at each instant the status of the last kept report, gone stale after 35 seconds unless it is a stop |
| Residency.HistoryMeansStatus | src/actor_lifecycle/residency.rs:8-84 | the same for every actor of a whole history; an actor keeps a report exactly when it has one, and one without reports has no periods |
| Usage.MemoryUsageSessions.constructor | src/actor_lifecycle/reconciliation.rs:22-33 | no session is tracked at first |
| Usage.MemoryUsageSessions.Observe | src/actor_lifecycle/reconciliation.rs:36-57 | a report replaces an older one of a session not yet stopped, and tells whether it corrects an estimate |
| Usage.MemoryUsageSessions.Expire | src/actor_lifecycle/reconciliation.rs:59-76 | the batch loop estimates the stop of the first stale sessions listed, at most 128 |
| Usage.ObserveKeepsInv | src/actor_lifecycle.rs:228-244 | observing a report keeps every estimate either current or corrected by something sent later |
| Usage.ReconcileKeepsInv | src/actor_lifecycle.rs:246-251 | so does a reconciliation |
| Usage.RevisionsAreDistinct | src/actor_lifecycle.rs:75-100 | in every run two updates of a session with the same revision are the same update, and revisions stay below 2^53 |
| Usage.RevisionsConverge | src/actor_lifecycle.rs:184-251 | when nothing is under way, the greatest published revision of a session carries an end time if and only if the session is stopped or estimated, and it is that of the last report |
| Reconciliation.ExpiringExactly | src/actor_lifecycle/reconciliation.rs:59-76 | a reconciliation picks only running sessions last heard of 35 seconds ago or earlier, and all of those listed unless the batch is full |
| Reconciliation.EstimatesFollowSilence | src/actor_lifecycle.rs:246-251 | in every run each estimate sent was made of a session silent at the time, with the time of its last report |
| Reconciliation.OnlyNewsIsSent | src/actor_lifecycle.rs:184-244 | in every run what is sent starts or stops a session, estimates its end, or corrects an estimate sent before |
| Reconciliation.EveryRunCanRest | src/actor_lifecycle.rs:184-251 | every run has a continuation after which nothing is under way |
| SocketBus.RedisSocketBus.constructor | src/control_plane/socket_bus.rs:221-245 | a bus starts watching nothing |
| SocketBus.RedisSocketBus.Watch | src/control_plane/socket_bus.rs:472-491 | a watch is refused while disconnected; otherwise it counts up, lists a new actor for renewal and queues its subscription |
| SocketBus.RedisSocketBus.Unwatch | src/control_plane/socket_bus.rs:502-519 | the last unwatch unlists the actor and queues its removal |
| SocketBus.RedisSocketBus.Resubscribe | src/control_plane/socket_bus.rs:372-384 | a session renews everything listed when it began, or is lost |
| SocketBus.RedisSocketBus.Handle | src/control_plane/socket_bus.rs:392-406 | a command takes effect, or is lost together with the session |
| SocketBus.StepKeepsInv | src/control_plane/socket_bus.rs:366-409 | every step keeps the last command queued for an actor, or with none its subscription, in line with its watch count |
| SocketBus.SubscriptionsConverge | src/control_plane/socket_bus.rs:366-519 | across any interleaving, a connected bus with an empty queue subscribes exactly the watched actors |
| SocketBus.QueueSettles | src/control_plane/socket_bus.rs:386-408 | from any connected state, once the queued commands are accepted the subscriptions are exactly the watched actors |
| SocketBus.WatchesBalance | src/control_plane/socket_bus.rs:472-519 | in every run an actor is watched, and as often, as watches of it are not undone |
| SocketBus.SessionsSettle | src/control_plane/socket_bus.rs:366-384 | a new session that renews everything ends connected and subscribed to the watched actors; a refused renewal leaves the bus as it was before |
| Bucket.FileBucket.constructor | src/bucket/file.rs:16-21 | a bucket starts empty |
| Bucket.FileBucket.CompareAndSwap | src/bucket/file.rs:58-85 | a swap is applied exactly when the generation is as expected and can grow, and says so |
| Bucket.FileBucket.Replace | src/bucket.rs:40-63 | undisturbed, a replacement reports success exactly when the key then holds the content |
| Bucket.FileBucket.Put | src/bucket/snapshots.rs:230-236 | an immutable write succeeds exactly when the key was free or held the same content, and never overwrites |
| Bucket.Latest | src/bucket/snapshots.rs:216-228 | the newest object has the greatest version spelled by any name, and of several the one listed last |
| Bucket.ImmutableObjectsStay | src/bucket.rs:40-63 | whatever writers do and replies claim, an immutable object never changes once it is there |
| Bucket.SuccessfulPutsStay | src/bucket/snapshots.rs:230-236 | a successful write leaves its key holding its content for the rest of the run, and no write of other content to it ever succeeds |
| Bucket.RecoveryChangesNothing | src/bucket/snapshots.rs:184-190 | writing back what was read changes nothing whenever it lands, and checking on it finds it done |
| Bucket.GenerationsFit | src/bucket/file.rs:58-85 | generations start at 1 and never pass the largest |
| Bucket.SwapsAreExclusive | src/bucket/file.rs:58-85 | in every run each swap of a key expects a greater generation than every earlier one, so no two with the same expectation are both applied |
| Bucket.AppliedExactly | src/bucket.rs:40-63 | an operation counts as applied if and only if the bucket swapped for it in its run |
| Bucket.LostRepliesAreSettled | src/bucket.rs:40-63 | an immutable write whose reply is lost is found to have succeeded if and only if the key was free or held the content |
| Base64.DecodeInvertsEncode | src/storage_paths.rs:85-90 | unpadded base64url (sections 5 and 3.2 of RFC 4648): decoding inverts encoding, and only encodings decode |
| Text.SplitInvertsJoin | src/storage_paths.rs:31-37 | splitting inverts joining for pieces without the separator |
| Text.DigitValueExactly | src/bucket/runtime.rs:455-460 | a digit is read as its value and nothing else is read, letters in either case |
| Text.PrintedNumbersParse | src/bucket/runtime.rs:455-460 | every 64-bit number is read back from its decimal and from its 32-digit hexadecimal form |
| Paths.StorageKeyFits | src/actor/protocol.rs:21-34 | valid components always make a valid storage key, of at most 252 of the 255 bytes |
| Paths.ActorFromKeyInvertsStorageKey | src/storage_paths.rs:53-70 | reading a key inverts printing it, and only printed keys of valid actors can be read |
| Paths.ActorFromSnapshotInverts | src/storage_paths.rs:30-51 | a snapshot's name gives its actor back, for every actor, version and nonce |
| Paths.SnapshotPositionInverts | src/bucket/runtime.rs:455-460 | a snapshot's name gives its epoch and version back |
| Paths.SnapshotPrefixesAreFree | src/storage_paths.rs:7-10 | no actor's snapshot prefix begins another's |
| Paths.OwnerPathsAreFree | src/storage_paths.rs:12-15 | no actor's owner path begins another's |

## Left out

- Ltx.MergeIsNewest: does not model page counts and the truncation of a shrinking database; the LTX library is not part of this model.
- Ltx.ReplayIsMerge: replays page versions and not the commit size of each file, for the same reason.
- Ltx.CompactPreserves: does not model the page count, the checksum, the time limit and cancellation of a compaction.
- Parsing replica file names into ranges (`src/litestream/storage.rs:269-277`), which would only add easy members.
- Capture.PruneLevel: lets each of the two levels fail on its own, where the source stops at the first failure; every failure of the source is covered.
- SnapshotRuns.CaptureKeepsInv: does not model the write ticket; commits of one actor may take any of its names, and the store refuses those taken.
- The schedule that decides when a checkpoint is due and the Rapid log, archive and index formats (`src/bucket/rapid`).
- Ownership records, activation, drain and release in `src/bucket/runtime`: their compare-and-swap is modelled in `Bucket`, their contents are not.
- Redis failures, which the scripted route store answers as a miss, and the capacity limits of the in-memory caches.
- Provisioning hosts, regions and admission limits in `src/control_plane/service.rs`, apart from the route cache they act on.
- Mailbox.Actor.Receive: does not model the status watch, activity times and request tracing.
- Mailbox.Actor.Executed: does not model the eviction and the database reset that precede the next start; evictions appear in `Admission` as commands of their own.
- Socket effects, logs and calls to other actors sent by the executor, which change none of the state modelled in `Driver`.
- Settle.Settle: takes what the network, hosts and resolver do as a list; that a resolver error other than an unknown outcome started nothing is not used.
- Leases.RenewUntilStopped: timers fire exactly when due; scheduling delay of the process is not modelled.
- Leases.LossIsReportedByExpiry: for the same reason says nothing of a process that is not scheduled.
- The Postgres and SQLite alarm stores, whose behaviour lies in the database, and the Redis usage sessions.
- Alarms.ExclusiveExactly: counts time in whole milliseconds and lets a pause be stretched by its full length, where the backoff library stops just short of it.
- Publishing usage updates can time out; the results speak of updates handed to the publisher.
- SocketBus.RedisSocketBus.Watch: does not model the wait for the subscription and its timeout, after which the source calls unwatch; runs contain that unwatch as any other.
- Ranged reads, listing and invalid object paths of the file bucket.
- Checking an object name against its commit (`src/storage.rs:40-53`), tokens and credentials, configuration, telemetry, the SDK and the observer, which would only add easy members.
- Targets.TargetExactly: does not model the wait until a chosen host is ready, which can fail, nor a Redis store that cannot be reached.
