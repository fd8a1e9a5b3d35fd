# Verified models of Hive's stateful cores

Hive is a FastAPI service in which agents delegate work to each other, talk to users over several
channels, and keep desktop clients in step with a server. This project models the parts of it that
keep state over many calls, and proves what they keep, over every run and every input. Run
`dafny verify dfyconfig.toml` to check all of it.

The files follow the components:

| component | files |
|---|---|
| asynchronous delegation: registry, durable records, cancel, crash and restart | `RuntimeTasks`, `TaskValues`, `DelegationProtocol`, `DelegationInvariant`, `DelegationRuns`, `DelegationTheorems`, `DelegationFinality`, `DelegationRestart`, `DelegationBacklog`, `DelegationWitnesses`, `Orchestrator`, `DelegationAnswers` |
| desktop sync: version-stamped reads and the writers that bump the version | `DesktopSync`, `DesktopEffects`, `DesktopWriters` |
| sliding-window rate limiter over a shared sorted set | `RateLimiter`, `RateLimiterBounds` |
| department forest built by linking rows in place | `DepartmentForest`, `DepartmentTree` |
| bounded table of WebSocket runtime sessions | `RuntimeSessions` |
| merging and listing MCP tools | `McpMerge`, `ToolListing` |
| WeCom message codec | `WecomCodec`, `WecomFormat` |
| directory view over flat skill file paths | `SkillBrowser`, `Slashes` |
| gateway message machine and reply routing | `Gateway`, `GatewayContents` |
| Redis Streams event bus | `EventBus` |
| collision-free upload names | `UploadNames` |
| migration of agent-to-agent messages into sessions | `ParticipantMigration` |

`Common` holds an option type and a few facts about sequences and sets.

## How the models are built

Where calls interleave, the model is a labelled transition system: a state, labels, `Enabled`,
`Effect`, and `IsRun` over sequences of states. Every `await` between two reads or writes is a point
where another label may come. Code that changes state without an `await` in between is also given in
its own form, as a class whose methods assign the same fields and run the same loops; each method's
postcondition equates the new state with the transition system's `Effect`, or with a function whose
properties are proved beside it. What these functions themselves do is stated field by field, without
their names: who is refused and what is answered in `DelegationAnswers`, what a write stores and a
reader sees in `DesktopEffects`, where a message comes from in `GatewayContents`, the wire format in
`WecomFormat`, which tools are the same in `McpMerge.SameTool`.

### Delegation

A cell per task id holds the durable record, the writes issued for it that the store has not applied
yet, the asyncio task, the registry entry, and the callers that are launching or cancelling it. Writes
can be lost. Assumed: one worker, and a store that applies the writes of one task in the order they
were issued (`State.ordered`). `UnorderedStoreReruns` is a run that shows the second assumption is
needed. A record read by the resume loop is read when its turn comes; between the snapshot and that
moment nothing writes to a record of an earlier life. A cancellation that arrives while the child's
wait is already over is swallowed (`MissCancel`), as `asyncio.wait_for` can do.

What the code does and its descriptions do not say:

- `reconcile_orphaned_runtime_tasks` closes records with status `running` only. A record that was
  still `pending` at the crash and cannot be rebuilt stays pending for good
  (`PendingOrphanIsReachable`, `OrphanForever`).
- The resume loads at most 50 active records, oldest first (`InSnapshotIff`). A later running one is
  closed as an orphan although it could have been resumed (`StartupFate`). A later pending one waits,
  and since orphans are never closed, 50 of them keep every younger pending record from ever running
  again: one that is pending when a worker starts can run again, at this or any later restart, exactly
  when it can be rebuilt and fewer than 50 older ones are orphans (`RunsAgainIff`).
- When the active records cannot be loaded, nothing is resumed and the reconcile still closes every
  running record (`LoadFails`, a case of `StartupFate`). An exception in the look-up of a target ends
  the resume loop and skips the reconcile (`StartupFails`); the worker serves all the same.
- A cancel that arrives just as the child finishes makes a check answer `completed` first and `killed`
  later (`CancelRaceFlipsAnswer`). The answer about a finished and stored child is final, over every
  continuation and restart: while it is registered, exactly when no cancel was requested for it or the
  child was cancelled (`FinalIff`); once it is popped or evicted, exactly when it is `killed` or no
  canceller waits and no write is on its way (`PoppedFinalIff`). A canceller that waits can overturn it
  (`WaitingOverturns`), and only after the pop: the registry itself never disagrees with the record
  (`CacheIsInvisible`).
- Requests and background jobs start after the restart, so during it only the child of a resumed
  delegation can launch (`LaunchNeedsResumed`). Such a task is closed by the reconcile although it is
  live, if its record says running by then (`ReconcileCanCloseLive`, and exactly then by
  `ReconcileClosesLive`).
- `list_async_delegations` calls a failed child `completed`.
- A check or cancel is refused exactly when launcher and caller are both named, both by UUIDs, and
  differ. A check of a delegation that is no longer registered has no such test and answers anyone
  (`StrangersAreRefused`).

### Desktop sync

Writers commit their change and the version bump in one transaction (`get_db` commits at the end of
the request); readers see each committed value (READ COMMITTED), so the parts of one read may be torn.
For a user without a tenant the version is always 0 and is never bumped, so polling is sound exactly
for users of a tenant (`SyncSoundIffTenant`). A user's tenant does not change during a run.

### Rate limiter

Times are reals, stamps are distinct and not negative. A request has the stamp its worker took and the
store's time at which its block runs. `WindowBound` needs two things of the clocks: no request runs
more than `delta` behind one already executed, and no expiry comes between two requests stamped within
`window - delta`. The second is not implied by the first: the key expires `window + 1` seconds after
the last block, by the store's clock, and a request that is stalled between taking its stamp and
running its block can find the key gone (`ExpiryCutsWindow`). Expiry is harmless exactly for clocks
within one second of the store in all (`ExpiryHarmlessIff`): then it drops only what the request would
prune, and with any more it admits a request that the history rejects. In stamp order the
full window is bounded exactly for the same clocks (`FullWindowIff`); out of order `window - delta` is the best length
for every positive limit and all clocks that differ by `delta` in all (`WindowBoundIsSharp`).
`Inv` in the hypotheses of the refinement lemmas holds in every state of every run (`RunInv`).

### Smaller notes

- `dedup_mcp_tools` says it groups by display name and tenant; the code keys on server and tool name and
  falls back on the display name.
- The merge starts from unique (agent, tool) rows, which a unique constraint guarantees
  (`backend/alembic/versions/add_unique_agent_tool_assignment_0402.py`).
- `list_tools` without a tenant scope can hide a tool behind another tenant's (`UnscopedListHides`).
- The event bus comments that it reads pending and new messages; it reads `>`, which is new ones only
  (`StrandedForever`). Handler calls follow publishing order in every run exactly when at most one
  consumer reads (`InOrderIffOneReader`).
- A gateway poll selects, awaits and commits at the end, so other requests may come between. Statuses
  move forward over a run exactly when no report completes a message while a poll that selected it is
  under way (`StatusForwardIff`), and two polls hand out a message in common exactly when they overlap
  and both selected it (`HandedOutTwiceIff`). What prevents both is not the status test but the row of
  the agent: a poll, a report and a send write `openclaw_last_seen`, the poll before its SELECT because
  the session flushes before a query, and PostgreSQL keeps a written row from other writers until the
  commit. With `World.locking` the machine contains that lock, and both promises hold over all runs
  exactly then (`LockingDecides`). A report and its reply are two transactions, so a crash between them
  loses the reply (`EveryReportReplies` counts it).
- The skill browser needs no condition on files that share a name with a directory. It needs paths
  without an empty directory part; following directory entries comes to an end exactly then. A shown
  file can be opened exactly when its path does not end in a slash (`ShownFileReadsBack`).
- A runtime session key is injective because agent ids are UUIDs and hold no colon.

## Model

| member | source | states |
|---|---|---|
| `RuntimeTasks.RecordRoundTrip` | backend/app/agents/orchestrator.py:706-746 | from a row that still belongs to a request, the resume path rebuilds exactly that request if and only if the request meets `RoundTrips`: no tool executor, JSON-safe messages, a target, default `max_depth`, non-zero timeout and depth, non-empty session and trace, a canonical parent id |
| `RuntimeTasks.ApplyAllKeepsRecordFor` | backend/app/services/runtime_task_service.py:88-124 | partial updates that merge metadata never lose what a launch stored, however many are applied |
| `RuntimeTasks.RestartRoundTrip` | backend/app/agents/orchestrator.py:135-157 | building the metadata, storing it, any updates of the protocol over any number of restarts, and reading it back give the launched request, if and only if `RoundTrips` |
| `RuntimeTasks.RebuiltRequest` | backend/app/agents/orchestrator.py:715-750 | what a restart rebuilds from the row of any request it can resume, defaults included: `max_depth` 2, depth 1 for 0, timeout 120 seconds for 0 |
| `RuntimeTasks.RebuildsRequest` | backend/app/agents/orchestrator.py:715-727 | a row can be rebuilt if and only if its request had no tool executor, messages that JSON can hold, and a target |
| `TaskValues.JsonSafeIff` | backend/app/agents/orchestrator.py:109-116 | JSON can hold a value if and only if nothing inside it, at any depth, is refused |
| `TaskValues.UuidShape` | backend/app/agents/orchestrator.py:69-86 | a canonical UUID is five groups of hexadecimal digits, of 8, 4, 4, 4 and 12, joined by dashes |
| `TaskValues.FalsyValues` | backend/app/agents/orchestrator.py:716-717 | the flags of a row count as unset for Python's falsy values and for no others |
| `TaskValues.DefaultsRead` | backend/app/agents/orchestrator.py:736-750 | the restart reads a metadata entry as it is, and the default in place of a missing or falsy one |
| `DelegationProtocol.Delegate` | backend/app/agents/orchestrator.py:233-370 | a delegation past its maximum depth always fails and is marked so; below it, it fails exactly when the child timed out or raised, is marked timed out exactly in the first case, and a reply is passed on as it is; trace and session are the request's own when it has them |
| `DelegationInvariant.ActKeepsCellInv` | backend/app/agents/orchestrator.py:379-440 | every step of launch, child, write, cancel and loss keeps the cell invariant: at most the first write in flight can make a record active, the child's result is in its write or agrees with the record, an acknowledged cancel left a killed record, and all of it belongs to the launching request |
| `DelegationRuns.CrashKeepsInv` | backend/app/agents/orchestrator.py:42-43 | a crash forgets registry, tasks and writes under way and leaves only records that satisfy the invariant |
| `DelegationRuns.ReconcileKeepsInv` | backend/app/services/runtime_task_service.py:183-220 | closing the running records that were not resumed keeps the invariant of every cell |
| `DelegationRuns.ResumeNextKeepsInv` | backend/app/agents/orchestrator.py:706-768 | each round of the resume loop keeps the invariant: what it still has to look at is untouched by this worker life |
| `DelegationRuns.RunInv` | backend/app/agents/orchestrator.py:373-768 | the worker invariant holds in every state of every run of launch, progress, check, cancel, clean-up, crash and restart |
| `DelegationTheorems.EndedForever` | backend/app/agents/orchestrator.py:379-429 | over every run, a record that is completed, failed or killed never becomes pending or running again, and no task is spawned for it |
| `DelegationTheorems.CancelIsForever` | backend/app/agents/orchestrator.py:633-671 | once a cancel call has returned killed and its write was not lost, the record is killed at every later moment and no restart runs the delegation again |
| `DelegationTheorems.SpawnedOncePerLife` | backend/app/agents/orchestrator.py:431-437 | between two crashes at most one asyncio task is created for a task id |
| `DelegationTheorems.CacheIsInvisible` | backend/app/agents/orchestrator.py:526-584 | for the owner, a finished and stored delegation gives the same answer from the registry, after a pop and after an eviction, whatever cancels are under way |
| `DelegationTheorems.RunMirrors` | backend/app/agents/orchestrator.py:638-653 | in every run, while a task is registered no canceller's write is under way and every canceller still waits, and the record of a finished child whose result was stored says what its outcome says |
| `DelegationTheorems.QuietForever` | backend/app/agents/orchestrator.py:520-594 | nothing later changes the record, or revives the entry, of a finished delegation with no cancel in progress |
| `DelegationTheorems.AnswerIsForever` | backend/app/agents/orchestrator.py:520-594 | such a delegation gives its owner the same terminal answer at every later moment, popped, evicted or after any restart |
| `DelegationFinality.RunSeenWaits` | backend/app/agents/orchestrator.py:597-637 | in every run, a registered task whose cancellation was requested has a canceller that still waits for it |
| `DelegationFinality.WaitingOverturns` | backend/app/agents/orchestrator.py:633-653 | while a canceller waits for a finished child, some continuation tells every caller killed |
| `DelegationFinality.FinalIff` | backend/app/agents/orchestrator.py:520-653 | the answer about a registered, finished and stored child is the same after every continuation, restarts included, if and only if no cancel was requested for it or the child was cancelled |
| `DelegationFinality.PoppedFinalIff` | backend/app/agents/orchestrator.py:555-653 | once its entry is gone, the answer is the same after every continuation if and only if it is killed, or no write is on its way and no canceller still waits |
| `DelegationTheorems.CleanupDropsFinishedOnly` | backend/app/agents/orchestrator.py:89-97 | clean-up never drops a running task, acts only above the cap, and then drops every finished one |
| `DelegationTheorems.RequestSurvives` | backend/app/agents/orchestrator.py:715-750 | whenever a task runs, in its first life or after any number of restarts, it runs the launched request if that request round-trips; and the row would rebuild it if and only if it does |
| `DelegationAnswers.StrangersAreRefused` | backend/app/agents/orchestrator.py:541-547 | in every run, after any number of restarts, a check of a registered delegation, and a cancel of a registered or recorded one, is forbidden if and only if the launcher's and the caller's agent ids are both given, both UUIDs, and different; a check of a mere record is never forbidden; a caller with a UUID is listed exactly its own |
| `DelegationAnswers.CheckTells` | backend/app/agents/orchestrator.py:526-584 | in every run a check answers forbidden, running, the child's outcome, the record's status, result and timed-out flag, or not found, each in exactly its own case |
| `DelegationAnswers.CancelTells` | backend/app/agents/orchestrator.py:605-640 | in every run a cancel call answers not found, forbidden, a terminal record's status and result, not running here, what a check says of a finished child, or awaits a live one, each in exactly its own case |
| `DelegationAnswers.CheckPops` | backend/app/agents/orchestrator.py:548-550 | in every run a check takes a finished child's entry out of the registry when it tells the outcome, and changes nothing otherwise |
| `DelegationAnswers.LaunchIsTold` | backend/app/agents/orchestrator.py:460-494 | a launch leaves a pending row without a result |
| `DelegationAnswers.SpawnIsTold` | backend/app/agents/orchestrator.py:496-507 | the spawn's write sets status, trace and session, keeps the result, and marks exactly a resumed row as resumed |
| `DelegationAnswers.TurnIsTold` | backend/app/agents/orchestrator.py:379-429 | registry and row tell a child's turn alike: completed with the reply exactly when there was one within the depth limit, failed otherwise, timed out and depth-limited exactly when it was, under the request's trace and session |
| `DelegationAnswers.KillIsTold` | backend/app/agents/orchestrator.py:648-655 | a cancelled child's write and its canceller's write leave the same killed row, not timed out |
| `DelegationAnswers.SettlesAsTurns` | backend/app/agents/orchestrator.py:233-370 | a child settles with exactly the outcomes some turn ends with, the text of a failure being free |
| `DelegationAnswers.LaunchSteps` | backend/app/agents/orchestrator.py:460-494 | a launch goes on whether or not its row was inserted; the spawn makes one task for the launched request, registers it and starts its write |
| `DelegationAnswers.ChildSteps` | backend/app/agents/orchestrator.py:379-429 | the store applies or loses one write; the child settles with its write, and is done once that is through; nothing else changes |
| `DelegationAnswers.CancelSteps` | backend/app/agents/orchestrator.py:636-671 | a cancel call marks the task and waits, then pops the entry and starts its write, and returns once that is through; nothing else changes |
| `DelegationAnswers.DeliverSteps` | backend/app/agents/orchestrator.py:391-429 | a delivered cancellation is spent: it replaces the child's result and write by the killed ones, or ends a child that was already writing them |
| `DelegationAnswers.ResumeSpawns` | backend/app/agents/orchestrator.py:736-750 | a resumed child runs the launched request with the row's own session and trace, or fresh ones where the row has none, and a restart's defaults |
| `DelegationAnswers.StartupSteps` | backend/app/main.py:189-197 | start-up loads, loops and reconciles; a failed load leaves the loop nothing to do, and an exception in the loop goes straight to serving |
| `DelegationAnswers.CrashDrops` | backend/app/agents/orchestrator.py:42-43 | a crash leaves the record, and nothing of registry, task, writes and callers |
| `DelegationAnswers.OrphanIsTold` | backend/app/services/runtime_task_service.py:203-214 | after start-up every caller is told that an orphan failed, with the result it had or else the reason, and with its old timed-out flag |
| `DelegationAnswers.UnavailableIsTold` | backend/app/agents/orchestrator.py:729-743 | after start-up every caller is told that a delegation whose target is gone failed, with that reason |
| `DelegationAnswers.RebuildsLaunch` | backend/app/agents/orchestrator.py:715-727 | in every run a record can be rebuilt exactly when its launch had no tool executor, messages that JSON can hold, and a target |
| `DelegationRestart.ResumedIff` | backend/app/agents/orchestrator.py:697-768 | a restart resumes exactly the records that its load returned, whose row can be rebuilt and whose target was available when the loop came to them |
| `DelegationRestart.EveryListedIsReached` | backend/app/agents/orchestrator.py:706-713 | the resume loop comes to exactly the active records that the load returned: no round, write or launch between makes it skip or repeat one |
| `DelegationRestart.InSnapshotIff` | backend/app/services/runtime_task_service.py:162-180 | an active record is loaded exactly when fewer than 50 active ones were created before it |
| `DelegationRestart.StartupFate` | backend/app/main.py:189-197 | every record that is active when start-up begins ends it with exactly one new task, or closed as unavailable, or closed as an orphan, or still pending and as it was; the load, the row, the target and the loss of one write decide which; and a closed row is failed, with the literal reason where it has no result of its own, one flag set in its metadata, and otherwise as it was |
| `DelegationRestart.AfterStartup` | backend/app/main.py:189-197 | after resume and reconcile an active record with a task, running or pending, has exactly one, spawned once in this life, live and registered unless its result was lost; a running record was resumed and has its task; an active record without a task is a pending one that was pending before |
| `DelegationRestart.LaunchNeedsResumed` | backend/app/main.py:189-273 | until start-up is over nothing is launched before something has been resumed |
| `DelegationRestart.ReconcileClosesLive` | backend/app/main.py:189-197 | the reconcile changes the record of a live task exactly when the task was launched after this life's load and its record says running |
| `DelegationBacklog.OrphanForever` | backend/app/services/runtime_task_service.py:183-220 | a pending record whose row cannot be rebuilt stays as it is at every later moment of every run |
| `DelegationBacklog.StuckForever` | backend/app/services/runtime_task_service.py:162-180 | so does a pending record that at a worker's start has 50 such records before it |
| `DelegationBacklog.PickedUp` | backend/app/agents/orchestrator.py:697-768 | for any other record that is pending at a worker's start some continuation of the run, restarts included, spawns it again |
| `DelegationBacklog.RunsAgainIff` | backend/app/agents/orchestrator.py:697-768 | a record that is pending when a worker starts can run again if and only if its row can be rebuilt and fewer than 50 records before it are pending ones that cannot |
| `DelegationWitnesses.PendingOrphanIsReachable` | backend/app/services/runtime_task_service.py:197-200 | a concrete run reaches such a record |
| `DelegationWitnesses.UnorderedStoreReruns` | backend/app/agents/orchestrator.py:496-507 | a concrete run, with a store that reorders the writes of one task, in which a completed delegation becomes running again and is spawned a second time |
| `DelegationWitnesses.CancelRaceFlipsAnswer` | backend/app/agents/orchestrator.py:633-655 | a concrete run in which a check answers completed and later killed |
| `DelegationWitnesses.ReconcileCanCloseLive` | backend/app/main.py:189-197 | a run in which a resumed child launches and the reconcile closes the record of that live task |
| `Orchestrator.Worker.CleanupStaleTasks` | backend/app/agents/orchestrator.py:89-97 | the collect-then-pop loop does exactly the protocol's clean-up |
| `Orchestrator.Worker.DelegateAsync` | backend/app/agents/orchestrator.py:460-494 | the launch up to its first await is the protocol's `Begin`: clean up, then start the insert |
| `Orchestrator.Worker.SpawnAsyncDelegationTask` | backend/app/agents/orchestrator.py:431-437 | spawning registers the task, starts its running write and touches no other cell |
| `Orchestrator.Worker.CheckAsyncDelegation` | backend/app/agents/orchestrator.py:520-594 | the answer is the cell's, as `DelegationAnswers.CheckTells` spells it out, and the only change is the pop of a finished task |
| `Orchestrator.Worker.CancelAsyncDelegation` | backend/app/agents/orchestrator.py:597-637 | each of the refusals and early answers, from the record or the registry, changes nothing; a finished task is checked; a live one is cancelled and awaited |
| `Orchestrator.Worker.FinishCancel` | backend/app/agents/orchestrator.py:638-653 | after the await the entry is popped and the killed write is started |
| `Orchestrator.Worker.ListAsyncDelegations` | backend/app/agents/orchestrator.py:674-694 | exactly the tracked tasks the caller may see are listed, each once, with its status word and trace |
| `Orchestrator.Worker.ResumeNextRecord` | backend/app/agents/orchestrator.py:706-768 | one round of the resume loop is the protocol's `ResumeNext`: skip, close as unavailable, or spawn again and remember the id |
| `Orchestrator.Worker.ReconcileOrphaned` | backend/app/services/runtime_task_service.py:183-220 | exactly the running records that are not excluded are closed, each as `DelegationRestart.StartupFate` spells out, and the count returned is their number |
| `DesktopSync.CommitBumps` | backend/app/api/guard_policies.py:89-98 | a transaction leaves all that a user of a tenant sees as it was, or raises that tenant's version |
| `DesktopSync.RunInv` | backend/app/api/desktop_sync.py:148-189 | over every interleaving of part reads and commits, whatever a client or a read under way holds is current or has an older version than the server |
| `DesktopSync.NotModifiedIsCurrent` | backend/app/api/desktop_sync.py:174-177 | whenever a poll of a user of a tenant is answered not_modified, the client's agents and guards equal the server's at that moment, although writers may commit between part reads |
| `DesktopSync.ClientNeverAhead` | backend/app/api/desktop_sync.py:125-131 | the version a client holds never exceeds the server's |
| `DesktopSync.TenantlessGoesStale` | backend/app/api/desktop_agents.py:99-100 | for a user without a tenant a concrete run ends in a stale not_modified |
| `DesktopSync.SyncSoundIffTenant` | backend/app/api/desktop_sync.py:162-189 | polling is sound for a user, over all runs, if and only if the user belongs to a tenant |
| `DesktopSync.GetPolicyIsSilent` | backend/app/api/guard_policies.py:46-72 | a GET of the policy changes neither guards nor sync version, and changes the policy's own version exactly when it creates the row |
| `DesktopEffects.AgentWriteSucceedsIff` | backend/app/api/desktop_agents.py:65-73 | a write of an agent fails without the agent, for another owner, for an id in use or for a tenant without a row, and in no other case |
| `DesktopEffects.FailureChangesNothing` | backend/app/api/desktop_agents.py:65-140 | a request that fails leaves the database as it was |
| `DesktopEffects.CreateStores` | backend/app/api/desktop_agents.py:86-100 | a new agent has the caller as owner, the caller's tenant, each given field and configuration version 1; nothing else changes but one tenant's version, by one |
| `DesktopEffects.UpdateStores` | backend/app/api/desktop_agents.py:113-122 | an update sets exactly the fields it is given, each its own, counts the configuration version, and changes nothing else but one tenant's version, by one |
| `DesktopEffects.DeleteStores` | backend/app/api/desktop_agents.py:134-140 | a delete removes that agent and changes nothing else but one tenant's version, by one |
| `DesktopEffects.PutPolicyStores` | backend/app/api/guard_policies.py:86-98 | a PUT stores each guard it is given under its own name and keeps the other, for the caller's tenant only; agents and other tenants stay as they are; it succeeds if and only if the caller's tenant has a row |
| `DesktopEffects.GetPolicyStores` | backend/app/api/guard_policies.py:46-72 | a GET stores the default row if there is none, and nothing else |
| `DesktopEffects.ReadsShow` | backend/app/api/desktop_sync.py:88-131 | each part of a read is what the database then holds: the user's own agents in its tenant with each column under its name, zone and egress guard of its tenant, and its tenant's version; a poll is answered not_modified exactly when its version is not behind |
| `DesktopEffects.ShowsOnce` | backend/app/api/desktop_sync.py:88-131 | that description fits only one payload |
| `DesktopEffects.NotModifiedShows` | backend/app/api/desktop_sync.py:174-177 | under torn reads, a not_modified leaves a user of a tenant with just the agents and guards that the database holds |
| `DesktopEffects.WrittenIsRead` | backend/app/api/desktop_sync.py:137-160 | after any write, a bootstrap with nothing in between gives the client exactly what the database now holds for its user |
| `DesktopWriters.Session.BumpSyncVersion` | backend/app/services/sync_service.py:14-28 | the tenant's version grows by exactly one and nothing else changes; a missing tenant row is an exception |
| `DesktopWriters.Session.UpdateGuardPolicy` | backend/app/api/guard_policies.py:76-99 | reply and database are those of the one transaction that `DesktopEffects.PutPolicyStores` describes, on every error path too |
| `DesktopWriters.Session.CreateSubAgent` | backend/app/api/desktop_agents.py:79-102 | the insert and the bump are one transaction of the sync model |
| `DesktopWriters.Session.UpdateSubAgent` | backend/app/api/desktop_agents.py:106-124 | the field updates, the config version and the bump are one transaction; a missing or foreign agent changes nothing |
| `DesktopWriters.Session.DeleteSubAgent` | backend/app/api/desktop_agents.py:128-140 | the delete and the bump are one transaction; a missing or foreign agent changes nothing |
| `RateLimiter.RunInv` | backend/app/core/rate_limiter.py:28-38 | in every state of every run a request's entry is in the set exactly when it is admitted or not yet removed and no later block pruned it or found the key expired |
| `RateLimiter.WindowBound` | backend/app/core/rate_limiter.py:24-40 | when no request runs more than delta behind one already executed and expiry never cuts into a window, any delay before a rejecting ZREM included, no half-open window of length window - delta holds more than limit admitted requests |
| `RateLimiter.ClocksGiveSkew` | backend/app/core/rate_limiter.py:25-33 | clocks within lag and ahead of the store meet that hypothesis with delta = lag + ahead |
| `RateLimiter.ExactWindowBound` | backend/app/core/rate_limiter.py:24-40 | when requests run in stamp order and clocks are within one second of the store in all, the bound holds for windows of the full length |
| `RateLimiter.ExpiryCutsWindow` | backend/app/core/rate_limiter.py:32 | two requests executed in stamp order, the second stalled past the expiry, are both admitted within one window although the limit is one |
| `RateLimiter.ExpiryIsInvisible` | backend/app/core/rate_limiter.py:32 | with clocks within one second in all, key expiry drops only what the request would prune |
| `RateLimiter.CountIsExact` | backend/app/core/rate_limiter.py:28-36 | the block counts itself, the admitted requests of the window, and the rejected ones whose ZREM is under way, and admits by that count |
| `RateLimiter.RefinesHistory` | backend/app/core/rate_limiter.py:28-40 | with no ZREM under way a request is admitted if and only if fewer than limit requests were admitted in the open window before it |
| `RateLimiter.OnlyOverRejects` | backend/app/core/rate_limiter.py:36-40 | with delayed ZREMs an admitted request is one the history admits too |
| `RateLimiter.PhantomOverRejects` | backend/app/core/rate_limiter.py:36-40 | a delayed ZREM does make the limiter refuse a request that the history admits |
| `RateLimiterBounds.ExpiryHarmlessIff` | backend/app/core/rate_limiter.py:32 | no run within the clock bounds admits a request that the history rejects because the key expired, if and only if the bounds add up to at most one second or the limit admits nothing |
| `RateLimiterBounds.FullWindowIff` | backend/app/core/rate_limiter.py:24-40 | over all runs in stamp order every full window is bounded if and only if the clock bounds add up to at most one second or the limit admits nothing |
| `RateLimiterBounds.WindowBoundIsSharp` | backend/app/core/rate_limiter.py:24-40 | for every positive limit, all clock bounds that sum to less than the window, and every margin, a run within those bounds, and so within their sum as skew, admits more than the limit in a window longer than window - delta by that margin |
| `RateLimiter.SharedKey.Pipeline` | backend/app/core/rate_limiter.py:28-35 | the commands in their order leave the key as the model's block does and return its cardinality |
| `RateLimiter.SharedKey.CheckRateLimit` | backend/app/core/rate_limiter.py:18-40 | an uninterrupted call is the request event, followed for a rejection by its removal, and answers by the model's verdict |
| `DepartmentForest.AcyclicIffRooted` | backend/app/api/organization.py:56-60 | the parent relation has no cycle if and only if every ancestor chain reaches a root |
| `DepartmentForest.WalkTimes` | backend/app/api/organization.py:56-60 | below a department, another occurs once if the first is on its chain at the right height, and otherwise not at all |
| `DepartmentForest.ForestShows` | backend/app/api/organization.py:56-62 | a preorder walk of the roots shows a department exactly once if its chain reaches a root, and never otherwise, cycles or not |
| `DepartmentForest.AcyclicForestIsWhole` | backend/app/api/organization.py:56-62 | without cycles the walk is a permutation of all departments |
| `DepartmentForest.TreeChildren` | backend/app/api/organization.py:56-60 | every node of the walk hangs under its own parent, with all its siblings, in the order of the rows |
| `DepartmentForest.ReparentAcyclicIff` | backend/app/api/organization.py:105-107 | moving a department under a new parent keeps the forest acyclic exactly when the department is not on the new parent's chain |
| `DepartmentForest.DetachedReachesRoot` | backend/app/api/organization.py:105-107 | a department given a parent outside the tenant becomes a root, and then a department's chain reaches a root exactly when it did before or held the moved one, cycles or not |
| `DepartmentForest.DetachAcyclicIff` | backend/app/api/organization.py:105-107 | such a move closes no cycle, and leaves none exactly when every chain reached a root or the moved department |
| `DepartmentTree.MovedGraph` | backend/app/api/organization.py:105-107 | setting the parent of one row moves that department in the graph, under the parent if it is one of the tenant's and to the roots if not, and changes nothing else |
| `DepartmentTree.MoveAcyclicIff` | backend/app/api/organization.py:94-111 | a patch of a row's parent keeps an acyclic forest so exactly when the parent is outside the tenant or the department is not on its chain |
| `DepartmentTree.GraphValid` | backend/app/api/organization.py:56-60 | a row is a root exactly when it has no parent or its parent is outside the tenant's rows; all other rows keep their parent |
| `DepartmentTree.CreateNodes` | backend/app/api/organization.py:39-54 | the first loop makes one fresh node per row, keyed by id, with that row's member count and no children |
| `DepartmentTree.GetDepartmentTree` | backend/app/api/organization.py:35-62 | the linking loop leaves every node with exactly its children in row order, and returns the roots in row order |
| `DepartmentTree.LinkedShows` | backend/app/api/organization.py:56-58 | following the linked objects unfolds to the tree of the parent relation |
| `DepartmentTree.RootsShowForest` | backend/app/api/organization.py:56-62 | the roots the caller gets show exactly the forest, so the forest lemmas speak about them |
| `DepartmentTree.SiblingsSorted` | backend/app/api/organization.py:28-32 | from rows sorted by sort_order, the roots and every node's children are sorted by sort_order |
| `DepartmentTree.ShownMembersAddUp` | backend/app/api/organization.py:41-47 | the counts shown add up to the tenant's users in the departments shown, each user once |
| `RuntimeSessions.KeyInjective` | backend/app/api/websocket.py:36-39 | agents whose ids hold no colon never share a key |
| `RuntimeSessions.ReplayIsLru` | backend/app/api/websocket.py:92-99 | after any accesses the order list is the 200 most recently used distinct keys in last-use order |
| `RuntimeSessions.InTableIff` | backend/app/api/websocket.py:92-99 | a key is in the table if and only if it was used and fewer than 200 other keys were used since |
| `RuntimeSessions.ConnectionManager.GetOrCreateRuntimeSession` | backend/app/api/websocket.py:76-100 | the table's keys and the order list follow the policy, a known key returns its own object, a new one a fresh object, and an empty session id changes nothing |
| `McpMerge.MergeOneMore` | backend/app/api/tools.py:335-348 | merging one more duplicate extends the move of assignments by exactly that tool |
| `McpMerge.DupsAndKeys` | backend/app/api/tools.py:323-333 | tools minus duplicates are as many as distinct keys |
| `McpMerge.ToolStore.MergeDup` | backend/app/api/tools.py:335-348 | one duplicate is gone, its assignments are at the keeper, no agent has the keeper twice, no other row is touched |
| `McpMerge.ToolStore.DedupMcpTools` | backend/app/api/tools.py:316-353 | the loops leave exactly the tools that `McpMerge.DupIff` does not remove, move the assignments of the others to their keepers, and return how many were removed |
| `McpMerge.AccessConserved` | backend/app/api/tools.py:337-346 | afterwards an agent has exactly one row for a keeper if and only if it had a row for any tool of that key |
| `McpMerge.NothingDangles` | backend/app/api/tools.py:343-347 | no assignment points to a merged tool |
| `McpMerge.KeeperIsOldest` | backend/app/api/tools.py:316-334 | what is kept of a key is its oldest tool |
| `McpMerge.SameKeeperIff` | backend/app/api/tools.py:323-328 | two listed tools are merged into one if and only if both have a non-empty MCP name, the same, on the same server, or neither has one and the display names are the same |
| `McpMerge.KeeperIsFirst` | backend/app/api/tools.py:317-333 | the keeper is the first listed tool that stands for the same one |
| `McpMerge.DupIff` | backend/app/api/tools.py:329-351 | the merge removes exactly the listed tools that come behind one that stands for the same |
| `McpMerge.SecondRunMergesNone` | backend/app/api/tools.py:302-353 | a second run, on any answer of the query, merges nothing |
| `ToolListing.ListTools` | backend/app/api/tools.py:246-254 | the loop with its set of seen keys computes the list that `ToolListing.ShowsFirsts` describes |
| `ToolListing.ShownOncePerKey` | backend/app/api/tools.py:246-254 | every tool is shown or stands behind a shown rival of its key, and no two shown tools are rivals |
| `ToolListing.ShowsFirsts` | backend/app/api/tools.py:240-254 | what is shown are, in order, exactly the listed tools with no MCP tool before them that stands for the same server and name |
| `ToolListing.FirstIsShown` | backend/app/api/tools.py:246-254 | of two rivals the later listed is never shown |
| `ToolListing.HidesNothingIff` | backend/app/api/tools.py:246-254 | the list hides nothing if and only if it holds no two rivals |
| `ToolListing.MergedListHidesNothing` | backend/app/api/tools.py:226-254 | after a merge the tenant's list hides nothing |
| `ToolListing.UnscopedListHides` | backend/app/api/tools.py:224-233 | without a tenant scope a tool can be hidden behind another tenant's |
| `WecomCodec.Pad` | backend/app/api/wecom.py:33-37 | the padded text is a multiple of 32 bytes, starts with the text, and ends in 1 to 32 bytes that each give their number |
| `WecomCodec.UnpadPad` | backend/app/api/wecom.py:40-43 | removing the padding gives the text back |
| `WecomCodec.CbcEquation` | backend/app/api/wecom.py:71-72 | each ciphertext block is the cipher of its plaintext block xored with the ciphertext block before it, the first with the initialisation vector (section 6.2 of NIST SP 800-38A) |
| `WecomCodec.CbcRoundTrip` | backend/app/api/wecom.py:53-55 | decrypting what was encrypted gives the plaintext, for every invertible block cipher |
| `WecomCodec.Base64RoundTrip` | backend/app/api/wecom.py:73 | decoding what was encoded gives the bytes back, for every length |
| `WecomCodec.Base64Vectors` | backend/app/api/wecom.py:73 | two of the test vectors of section 10 of RFC 4648 |
| `WecomCodec.LengthRoundTrip` | backend/app/api/wecom.py:57 | the big-endian length field is read back |
| `WecomCodec.ParseFrameOf` | backend/app/api/wecom.py:56-60 | random bytes, length, message and corp id are taken apart again |
| `WecomCodec.CodecRoundTrip` | backend/app/api/wecom.py:46-73 | with a usable key, encryption succeeds if and only if the message is shorter than 2^32 bytes, and then decryption gives message and corp id, whatever the 16 random bytes |
| `WecomCodec.KeyRoundTrip` | backend/app/api/wecom.py:69 | a 32-byte key survives being stored without its final pad character |
| `WecomFormat.XorBlockBits` | backend/app/api/wecom.py:70-72 | a bit of the exclusive or of two blocks is set if and only if it differs in them |
| `WecomFormat.BigEndian` | backend/app/api/wecom.py:71 | the length field is four bytes, the most significant first |
| `WecomFormat.PaddedFrame` | backend/app/api/wecom.py:32-36 | random bytes, length, message and corp id in this order, then one to 32 bytes that each give their number, up to a multiple of 32 |
| `WecomFormat.WireFormat` | backend/app/api/wecom.py:64-73 | what is sent is base64 of that frame in cipher block chaining, block by block, with the key's first 16 bytes as initialisation vector |
| `WecomFormat.Alphabet` | backend/app/api/wecom.py:73 | the alphabet of section 4 of RFC 4648, read both ways |
| `WecomFormat.SextetsInAlphabet` | backend/app/api/wecom.py:53-55 | only the alphabet decodes, each character to its own value; the pad does not |
| `WecomFormat.ForeignIsSkipped` | backend/app/api/wecom.py:53-55 | decoding skips a character outside the alphabet wherever it stands |
| `WecomFormat.WholeGroupsOnly` | backend/app/api/wecom.py:53-55 | text of the alphabet alone decodes if and only if it ends with a group of four |
| `WecomFormat.PadsEndGroups` | backend/app/api/wecom.py:53-55 | two pads end a group of two characters and one a group of three; one pad after two is an error; what follows is not read |
| `WecomFormat.StrayPadIsSkipped` | backend/app/api/wecom.py:53 | a pad that no group calls for is skipped |
| `WecomFormat.StoredKeyUsableIff` | backend/app/api/wecom.py:53-55 | a key stored without its final pad is read back if it has 16, 24 or 32 bytes, and otherwise refused |
| `SkillBrowser.ListFolder` | backend/app/api/skills.py:803-826 | the loop with its set of seen directories computes the listing of a sub-path |
| `SkillBrowser.BrowseList` | backend/app/api/skills.py:777-826 | the root shows every skill folder; a path is resolved to a folder and a sub-path; an unknown folder shows nothing |
| `SkillBrowser.RootsShown` | backend/app/api/skills.py:782-785 | the root shows every skill once, in order, as a directory of size 0 at its folder |
| `SkillBrowser.RootListing` | backend/app/api/skills.py:777-785 | the empty path and the lone slash both list the root |
| `SkillBrowser.DirectoryShownOnce` | backend/app/api/skills.py:813-819 | a directory is shown once under its parent if some stored file lies inside it, and otherwise not |
| `SkillBrowser.EntryPath` | backend/app/api/skills.py:817-824 | every shown entry's path is its name under the listed directory |
| `SkillBrowser.ListingOf` | backend/app/api/skills.py:787-801 | the path of a shown directory leads back to its own folder and sub-path |
| `SkillBrowser.WalkListsEveryFile` | backend/app/api/skills.py:803-826 | with clean paths, opening a skill folder and every directory shown comes to an end and shows each stored file exactly as often as it is stored, with its size, and nothing else |
| `SkillBrowser.WalkTrapped` | backend/app/api/skills.py:813-819 | a file with an empty directory part keeps the walk going at every depth |
| `SkillBrowser.WalkEndsIffClean` | backend/app/api/skills.py:777-826 | the walk comes to an end if and only if no stored path has an empty directory part |
| `SkillBrowser.BrowseRead` | backend/app/api/skills.py:835-850 | the answer is that of the first row with the path, or the right one of the three errors |
| `SkillBrowser.ReadListedFile` | backend/app/api/skills.py:835-850 | the path of a shown file reads the row with its stored path if that does not end in a slash, and otherwise what reading it without the slash gives |
| `SkillBrowser.LooksUpItself` | backend/app/api/skills.py:835-850 | reading a shown file looks in its own folder, for its own stored path if and only if that is not empty and does not end in a slash, and otherwise for a shorter one or none |
| `SkillBrowser.ShownFileReadsBack` | backend/app/api/skills.py:835-850 | where its path is stored once, opening a shown file reads that row and no other, if and only if the path is not empty and does not end in a slash |
| `SkillBrowser.UncleanPaths` | backend/app/api/skills.py:835-850 | concrete paths that trap the walk, and a shown file that cannot be read |
| `Gateway.MessagesKept` | backend/app/api/gateway.py:191-249 | along every run a message keeps its agents, conversation, content and origin, and none is removed |
| `Gateway.StatusForwardIff` | backend/app/api/gateway.py:68-81 | over a run no status moves back if and only if no report completes a message while a poll that selected it, and commits later, is under way |
| `Gateway.LockingSeparates` | backend/app/api/gateway.py:65-74 | a poll holds its agent's row from before its SELECT to its end, so on a database that locks no other poll or report of the agent falls between |
| `Gateway.StatusMovesForward` | backend/app/api/gateway.py:65-81 | on a database that locks, no message's status moves back in any run |
| `Gateway.HandedOutTwiceIff` | backend/app/api/gateway.py:68-81 | two steps of a run hand out a message in common if and only if they end overlapping polls that both selected it |
| `Gateway.HandedOutOnce` | backend/app/api/gateway.py:65-81 | on a database that locks, no message is handed out by two polls of a run |
| `Gateway.LockingDecides` | backend/app/api/gateway.py:65-178 | from every database at rest, both promises hold over all runs if and only if the database locks |
| `Gateway.RunKeepsChains` | backend/app/api/gateway.py:236-249 | in every run a routed reply goes to its origin's sender, from its origin's recipient, in its conversation |
| `Gateway.ChainAlternates` | backend/app/api/gateway.py:236-249 | in a chain of routed replies of any length the recipient alternates between the same two agents and the conversation is the first message's, or the pair made for its first reply |
| `Gateway.EveryReportReplies` | backend/app/api/gateway.py:201-249 | message by message, the non-empty reports on an agent-sent message are as many as its replies: routed, still owed, or dropped by a crash |
| `Gateway.RepliesEqualReports` | backend/app/api/gateway.py:201-249 | without a crash and with no report under way, routed replies equal non-empty reports |
| `Gateway.RepeatedReportsRepeat` | backend/app/api/gateway.py:191-203 | reporting a message twice owes two replies |
| `Gateway.OverlappingPolls` | backend/app/api/gateway.py:68-178 | from every database with a pending message that does not lock, a run in which two overlapping polls hand the message out and the late commit moves it from completed back to delivered |
| `Gateway.Service.SelectPending` | backend/app/api/gateway.py:68-74 | a poll begins by selecting exactly the agent's pending messages, oldest first, and changes no message |
| `Gateway.Service.PollMessages` | backend/app/api/gateway.py:77-178 | the loop and the commit mark exactly the selected messages delivered and hand them out in the order selected |
| `Gateway.Service.ReportResult` | backend/app/api/gateway.py:191-247 | an unknown or foreign message changes nothing; otherwise message, chat rows and owed reply are those that `GatewayContents.ReportStores`, `StepChats` and `StepOwes` describe |
| `Gateway.Service.SendMessage` | backend/app/api/gateway.py:464-497 | an OpenClaw target gets a pending message, a native one a background call |
| `Gateway.Service.RouteReply` | backend/app/api/gateway.py:236-249 | the oldest owed reply becomes a pending message |
| `Gateway.Service.FinishCall` | backend/app/api/gateway.py:408-434 | a finished native call becomes a pending message in the pair's session; a failed one leaves nothing |
| `GatewayContents.OneSessionPerPair` | backend/app/api/gateway.py:408-434 | two pairs of agents share a session if and only if they are the same two agents, in either order |
| `GatewayContents.CanHappen` | backend/app/api/gateway.py:65-178 | users and native agents can write at any time, a call in progress can end either way, a poll can commit or fail; an agent's own requests wait only for its row |
| `GatewayContents.StepAddsMessage` | backend/app/api/gateway.py:464-482 | a message is added only by an arrival, with the recipient, sender, user, conversation and text that the arrival gives, or by routing the oldest owed reply |
| `GatewayContents.StepOwes` | backend/app/api/gateway.py:236-249 | a reply is owed exactly by a non-empty report of the message's own agent on a message an agent sent; it goes to that sender, from the reporter, with the reported text, in the message's conversation or the pair's |
| `GatewayContents.ReportStores` | backend/app/api/gateway.py:191-201 | a report of its own agent completes a message with the reported text and touches no other; any other report changes nothing |
| `GatewayContents.StepChats` | backend/app/api/gateway.py:206-218 | a chat row is added exactly by a non-empty report on a message with a user and a conversation: the reported text, to that user, in that conversation |
| `GatewayContents.StepCalls` | backend/app/api/gateway.py:483-502 | a send to a native agent starts a call of that pair, and its end or a crash removes it |
| `GatewayContents.StepPolls` | backend/app/api/gateway.py:65-178 | a poll begins with exactly its agent's pending messages, in order, and ends with its commit, its failure or a crash; only the commit marks messages, exactly those it selected |
| `GatewayContents.EveryMessageHasCause` | backend/app/api/gateway.py:191-249 | over every run each message was there from the start, arrived as one step says, or is a reply that says what one step reported |
| `GatewayContents.RepliesSayReports` | backend/app/api/gateway.py:236-249 | over every run a reply, routed, owed or lost, carries the non-empty text of an earlier report on the message it answers, from that message's recipient to its sender |
| `GatewayContents.CallsWereSent` | backend/app/api/gateway.py:483-502 | over every run each call in progress was started by a send of its own pair |
| `EventBus.RunInv` | backend/app/core/event_bus.py:60-83 | the group's invariant holds in every state of every run of publishing, trimming, reading, handling, crashing and acknowledging |
| `EventBus.DeliveredOnceAndSplit` | backend/app/core/event_bus.py:67-81 | delivered ids strictly increase, and the delivered entries are exactly the acknowledged and the pending ones, never both |
| `EventBus.HandledAtMostOnce` | backend/app/core/event_bus.py:75-83 | no entry reaches a handler twice; each handler gets the event published under its id, and each consumer in publishing order |
| `EventBus.LossNeedsBacklog` | backend/app/core/event_bus.py:39 | an undelivered entry is still readable unless at least 10000 newer ones were published |
| `EventBus.ReadTakesAll` | backend/app/core/event_bus.py:67-73 | a read with room for everything delivers every readable entry |
| `EventBus.CanHappen` | backend/app/core/event_bus.py:36-83 | a publish may trim anything but the newest 10000 entries; a consumer reads when it has handled its batch and handles while it has one |
| `EventBus.PublishAppends` | backend/app/core/event_bus.py:36-41 | a publish appends its event and changes nothing else but what the trim removes |
| `EventBus.ReadDelivers` | backend/app/core/event_bus.py:67-74 | a read gives its consumer, in order, the next entries neither delivered nor trimmed, at most `count` of them, with their events, and makes exactly these pending |
| `EventBus.AcknowledgedAreHandled` | backend/app/core/event_bus.py:78-83 | when nobody acknowledges by hand, an entry is acknowledged if and only if its handler returned and the acknowledgement arrived |
| `EventBus.StrandedForever` | backend/app/core/event_bus.py:67-83 | a pending entry in no consumer's hands stays pending and is never handled again, unless it is acknowledged by hand |
| `EventBus.FailureStrands` | backend/app/core/event_bus.py:82-83 | a failed handler call strands its entry |
| `EventBus.CrashStrands` | backend/app/core/event_bus.py:67-83 | a crash strands exactly the pending entries that its consumer still had to handle |
| `EventBus.HandlersOutOfOrder` | backend/app/core/event_bus.py:67-83 | for any two consumers, a reachable state in which they have called their handlers against publishing order |
| `EventBus.InOrderIffOneReader` | backend/app/core/event_bus.py:60-83 | handler calls follow publishing order in all runs read by a set of consumers if and only if the set has at most one |
| `EventBus.Group.PublishEvent` | backend/app/core/event_bus.py:23-41 | one entry is appended under the next id, and the trim removes none of the newest 10000 |
| `EventBus.Group.Subscribe` | backend/app/core/event_bus.py:43-83 | one call reads new entries and handles each in order, acknowledging exactly those whose handler returned |
| `EventBus.Group.AckById` | backend/app/core/event_bus.py:85-88 | a pending entry becomes acknowledged; any other id changes nothing |
| `UploadNames.SanitizedIsSafe` | backend/app/api/upload.py:99-105 | whatever the client's file name, the cleaned one names a file in the directory itself |
| `UploadNames.SafeNameIsKept` | backend/app/api/upload.py:99-105 | a safe name is kept, behind any directories and either slash |
| `UploadNames.TrailingIsIgnored` | backend/app/api/upload.py:99-105 | slashes and single dots at the end change nothing |
| `UploadNames.ParentIsRefused` | backend/app/api/upload.py:99-105 | a path that ends in `..` is refused |
| `UploadNames.DecimalInjective` | backend/app/api/upload.py:139 | two counters never print alike |
| `UploadNames.CandidateVectors` | backend/app/api/upload.py:134-140 | the counter stands between the stem and the last suffix, in decimal |
| `UploadNames.TakenAtLeast` | backend/app/api/upload.py:138-140 | if the name and all candidates before the n-th are taken there are at least n files |
| `UploadNames.FreshName` | backend/app/api/upload.py:131-140 | the loop ends after at most as many candidates as there are files, with the name itself if it is free and otherwise the first free candidate |
| `UploadNames.FirstFreeUnique` | backend/app/api/upload.py:131-140 | that description fits only one name and number of tries |
| `UploadNames.Directory.UploadFile` | backend/app/api/upload.py:121-141 | an accepted upload adds one file under a new, safe name and changes no other; a refused one changes nothing |
| `UploadNames.Directory.UploadAll` | backend/app/api/upload.py:121-141 | over any series of uploads all files, old and uploaded, keep their content and all names differ |
| `ParticipantMigration.PairsAreDistinct` | backend/alembic/versions/add_participants.py:90-96 | the pairs are those of the agent-to-agent messages, self-messages included, each once and lesser id first |
| `ParticipantMigration.EachMessageOnce` | backend/alembic/versions/add_participants.py:134-158 | every message between agents is copied once into the session of its unordered pair and nowhere else; no other message is copied |
| `ParticipantMigration.OneSessionPerPair` | backend/alembic/versions/add_participants.py:98-131 | two agents that wrote to each other get exactly one session |
| `ParticipantMigration.SessionIsOfPair` | backend/alembic/versions/add_participants.py:98-131 | a pair's session belongs to the lesser agent, its creator and its participant, and names the greater as the peer |
| `ParticipantMigration.RowIsCopy` | backend/alembic/versions/add_participants.py:141-158 | every inserted row is the copy of such a message, with its content and time, the lesser agent, its creator, the sender's participant, and the role assistant if and only if the sender is the lesser |
| `ParticipantMigration.SessionInTimeOrder` | backend/alembic/versions/add_participants.py:134-139 | within a session the rows follow the messages' times |
| `ParticipantMigration.BoundsAreFirstAndLast` | backend/alembic/versions/add_participants.py:106-111 | a session's bounds are the times of its first and last message |
| `ParticipantMigration.Database.Upgrade` | backend/alembic/versions/add_participants.py:82-161 | the nested loops insert exactly those sessions and rows and drop the table; without the table nothing changes |

## Left out

- The language model's turn, tool execution, prompts, HTTP handling, SQLAlchemy mechanics and Redis transport: only the maps, sets and sequences they stand for are modelled.
- Delegation hooks, activity logging and the start and completion times of records: they do not feed back into the protocol.
- The `error` answer of a check, for a child task that ends with an unexpected exception: `_run` catches every exception itself.
- Python values that `json.dumps` accepts and changes, such as tuples and integer keys: the messages of a request are `Json` values here, so `RoundTrips` says nothing about them.
- UUID spellings other than the canonical one in `_maybe_uuid`: the model accepts the 36-character lower-case form only.
- The text of failure results in `_delegate`: only which branch was taken is kept.
- The `llm_config` part of the desktop payload and the guard policy's own `version` in the client's view: their other writers do not bump the sync version, so soundness does not hold for them.
- Moving a user to another tenant: the desktop model fixes every user's tenant for the run.
- Writers of agents outside `desktop_agents.py` (`enterprise.py`, `agents.py`): they do not bump the sync version.
- Colliding stamps in the rate limiter: two requests with the same printed time share one member.
- `rate_limit_or_429` and the dependency around it: they only turn a refusal into a status code.
- Creating, deleting and renaming departments: only reparenting can break the forest.
- The order of departments with equal `sort_order`: the query's answer is taken as given.
- Agent connections of the connection manager: a plain list per agent.
- Tool configuration, serialisation and tenant overrides in `tools.py`.
- AES itself: any keyed permutation of 16-byte blocks stands for it.
- UTF-8 encoding of WeCom messages and corp ids: they are byte sequences here.
- The WeCom signature and the webhook handlers around the codec.
- The tenant scope of the skill browser's query: the model starts from the skills visible to the caller.
- `browse_write` and `browse_delete`: one upsert and one removal by path.
- The content of poll replies besides the messages (sender names, history, relationships), and sending to humans over Feishu.
- The bodies of the two writers of gateway messages outside `gateway.py` (`websocket.py`, `messaging.py`): only the rows they insert come in, as `FromUser` and `FromNative`.
- The lookup of a target agent by name in `send_message`: the model starts from the agent found.
- JSON encoding of event payloads: a payload that cannot be decoded is a failed handler call.
- Several groups on one stream: groups share nothing but the stream.
- The fallback upload directory under `/tmp`, whose names carry a fresh id, and text extraction.
- Two workers choosing upload names at the same time: the check and the write are one step, as they are in one process.
- Steps other than the eighth of the participant migration, and its new random row ids: positions stand for them.
- The order of migrated messages with equal times: the query leaves it open, the model keeps table order.
