# Thread ownership, setup, cancellation and stream handling: a Dafny model

The system runs LangGraph graphs ("threads") on any number of FastAPI processes. A thread is
owned through a lease in Redis and fenced by a counter; other parts of the backend await Celery
tasks, cancel nodes, set up tables once, infer a layout from a graph, and rewrite streams, names
and log records. This project models that logic and proves what it keeps. The sources are the
Python files named below, with the SQL and Lua inside them.

`dafny verify dfyconfig.toml` checks everything. The modules:

| files | what they model |
|---|---|
| `LockScripts`, `ScriptLaws` | the four Lua scripts, as methods of the Redis node and as functions on its keys, and what they do on any keys |
| `Dispatch`, `Routing`, `MainThread` | `dispatch_graph_run` as an automaton over the replies it awaits, the rules it keeps, and the method itself over a mutable registry, with the renewal and recovery loops |
| `Ownership`, `OwnershipInvariant` | all processes at once: a timed transition system over the scripts, crashes, ticks and local control points, and its inductive invariant |
| `Fencing`, `LeaseExclusion`, `RunRegistry`, `LockLoss` | token order, mutual exclusion, the registry, and how a run learns that its lock has gone, over whole runs of that system |
| `Renewal` | the arithmetic of the renewal loop |
| `FencedNodes`, `ZombieCleanup` | what the fencing guards in the SQL achieve together with that system |
| `OwnershipTraces`, `OwnershipCounterexamples`, `OverlapExample` | runs of that system in which the promises of the comments fail, the steps they are made of, and one in which two runs overlap for a while |
| `SetupFlow`, `Checkpointer`, `SetupProtocol`, `SetupRules`, `SetupCounterexample` | `ensure_setup` over `RedisLock`: in one process among others, and in any number of processes, when it must succeed, and a run in which it fails its purpose |
| `AwaitResult` | the polling loop of `_await_result` |
| `Cascade`, `ConcurrentCancels`, `StatusStatements`, `Statuses` | the cancellation cascade over the node forest, alone and with any number of node and task cancels at once, and the guarded status statements |
| `Alignment`, `Frontier` | group and row inference from the compiled graph, and the pending frontier |
| `ThinkTags`, `Whitespace` | the think-tag stream and its split downstream |
| `Options`, `Strings` | the optional value, and concatenation |
| `SnakeCase`, `SnakeCaseLaws`, `SnakeCaseConventions` | `to_snake_case` |
| `Throttle` | the two log filters |

Hypotheses are explicit. The liveness probe answers anything unless a lemma asks for accuracy
(`AccurateProbes`); replies may be lost, processes may die, and time may pass between any two
steps. Redis and PostgreSQL execute one script or statement at a time.

## Where the code does less than its comments say

The lemmas named give concrete runs and inputs, and where a promise fails for some inputs only, an
if-and-only-if lemma gives the condition under which it holds.

- Tokens are not always increasing. Renewals extend the lock and not the counter, so a run that is
  renewed for 20 lock TTLs outlives the counter, and the steal after its death is granted token 1
  again (`TokenGrantedTwice`, `ZombieWithHoldersToken`). Tokens increase exactly if consecutive
  grants are less than 20 TTLs apart (`FencingOrder`).
- The clean-up of a lost run can mark tasks of the new owner `wrong`, against
  docs/debugs/multi-fastapi-graph-thread-racing-fix.md:76, in two ways. Under a token granted twice
  it reaches the owner's own rows (`ZombieCleansUpUnderHoldersToken`). And with short gaps and
  distinct tokens it reaches a failed, paused or completed task of the lost run that the owner has taken
  over, since the reset keeps the row's token (`ZombieMarksTaskTakenOver`). A row is spared exactly if
  the run that inserted it has another token, whoever works on it (`SparesIffOtherToken`); and with
  short gaps the tasks of another process's run are all spared exactly if it takes none over that
  carries the lost run's token (`CleanupSparesIffNothingTakenOver`).
- A lost lock does not always abort its run. Two dispatches in one process can both start a run
  (`DoubleStart`); one run's end then releases the lock under the other and empties the registry, so
  that nothing is cancelled when the other's renewal fails (`LostLockWithoutAbort`). The
  registry is faithful exactly if no run starts before the done-callbacks of the earlier runs of
  the process (`RegistryFaithfulIffSoloStarts`).
- A lock that has passed to another process may never be noticed. The scripts compare port and pid
  only, and a dispatch that finds the lock free does not look for a live task: if the process
  acquires the lock again, the renewals of its old run succeed again and two of its runs go on side
  by side (`LossNeverNoticed`). A renewal is refused exactly if the process was not granted the lock
  again, or an expiry, a release or a steal has taken it away since (`RefusedIffNotRegained`); without
  such a grant the overlap is bounded (`OverlapBounded`), and it does happen (`OverlapHappens`).
- A run that has lost its lock can still cancel or fail the new owner's nodes, without a token. When
  its graph raises before its next renewal is refused, it fails every active node of the thread
  (`ZombieFailsHoldersNodes`). When it gets to a node with a cancelled predecessor, its upsert is
  refused, which it does not notice, and it cancels the node, and the whole thread if no other
  top-level node is active (`ZombieCancelsHoldersNodes`). A process that shuts down pauses every
  running node of every thread. The guards reject whatever carries a lower token; the guarded columns
  of the owner's rows come through exactly if no statement without a token, from another process,
  meets a row in its reach (`ForeignChangesIffSweeps`, `ZombieWritesRejectedIffNoSweep`).
- A run can start without any lock, with token 0 (`RunWithoutLock`).
- An exception in the ownership check of the start-up recovery ends the recovery of all later
  threads, while one in the viewer flags or the dispatch is caught (`RecoverRunningThreads`).
- The setup sentinel may stand for no tables. When a lease lapses during `cp.setup()`, a second
  process can meet the unfinished migrations as a UniqueViolation, take it for success and set the
  sentinel, and the first may then fail (`SentinelWithoutTables`). The sentinel stands for a finished
  setup exactly if no UniqueViolation comes before one has finished
  (`HonestIffNoEarlyViolation`), and so if no lease lapses and every UniqueViolation is caused by
  another setup (`ReturnImpliesSetup`).
- The upsert guard lets a stale run write the parallel group, the branch and the fork columns
  (`StaleUpsertStillWrites`).
- `_await_result` leaves its registry entry behind exactly if connecting to the result backend
  raises and no other coroutine removes it (the two cases of the contract of `Await`).
- Cancelling a node with active children leaves them active under a cancelled parent, unless the
  whole thread is cancelled (`OrphanLeft`, `OrphansIff`).
- Cancelling the last active task of a node does not cancel the node if the caller names another node
  (`StrayTaskCancel`); without such calls, concurrent cancels of a node's last tasks do
  (`NoNodeLeftDue`).
- The split of a streamed answer drops what came before the first thought, and leaves later
  thoughts in the answer (`GreetingLost`, `StreamRecoveredIffSplitSafe`).
- Adjacent one-letter words of a Pascal-case or camel-case name become one word
  (`LetterPairMerged`, `PascalAgreesIffNoLetterPair`, `CamelAgreesIffNoLetterPair`).
- The health-check filter's summary calls itself a two-minute summary; the interval is five minutes
  (backend/api/log_filters.py:29 against 6 and 89).

## Model

| member | source | states |
|---|---|---|
| LockScripts.ThreadKeys.AcquireScript | backend/main_thread/lock.py:52-62 | On the mutable keys, command by command: refuses and changes nothing if a lock is there, else grants the next token, with both TTLs, as one step of `Acquire` |
| LockScripts.ThreadKeys.StealScript | backend/main_thread/lock.py:71-85 | Grants only against the owner it names; any other value, malformed or missing, is left as it was |
| LockScripts.ThreadKeys.RenewScript | backend/main_thread/lock.py:89-99 | Extends the caller's own lock only, and touches neither the value nor the counter |
| LockScripts.ThreadKeys.ReleaseScript | backend/main_thread/lock.py:103-113 | Deletes the caller's own lock only; the counter stays |
| LockScripts.ThreadKeys.GrantScript | backend/main_thread/lock.py:57-60 | INCR, EXPIRE and SET PX together: a counter that is gone restarts at 1; the counter lives 20 lock TTLs from this grant |
| LockScripts.ThreadKeys.Tick | backend/main_thread/lock.py:58-60 | A key is gone from the moment its TTL has passed |
| ScriptLaws.GrantLasts | backend/main_thread/lock.py:57-60 | On any keys: a grant holds for exactly the 1000 * ttl ms after it, the counter lives for exactly 20 times as long, and the next token is the one after it until then and 1 from then on |
| ScriptLaws.RenewalLasts | backend/main_thread/lock.py:89-99 | A renewal holds for exactly 1000 * ttl ms from its own time, and moves neither the counter's expiry nor the value |
| ScriptLaws.IdentityDecides | backend/main_thread/lock.py:71-113 | Steal, renewal and release act exactly where port and pid both agree, whatever the token; an undecodable value is nobody's, and still refuses an acquire |
| ScriptLaws.GrantOrNothing | backend/main_thread/lock.py:52-85 | An acquire or a steal grants the token after the counter's, or 1 without a counter, to the caller, or changes nothing |
| Dispatch.DispatchTerminates | backend/main_thread/executor.py:323-401 | Whatever the replies, a dispatch ends after at most six awaits, ten with the recovery check and the viewer flags, and until then always awaits something |
| Dispatch.DispatchProvenance | backend/main_thread/executor.py:323-401 | A call about to start a run won the token in a request of its own, or read it from a lock with its own identity and then found no live task, or met a vanished lock and has token 0 |
| Routing.OutcomeOfLastReply | backend/main_thread/executor.py:323-401 | For all replies: the call is over exactly after an exception, a live owner, the registry's answer, a token, a second refusal, or no lock after a refused acquire; and the outcome is the one of that reply: routed to the live owner's port, to port 0 after the second refusal, idle or started as the registry says, started with the token granted, or with 0 |
| Routing.RequestsHaveCause | backend/main_thread/executor.py:323-395 | Every request follows from the reply before it: a probe from a reading of that owner, a steal from a probe that found that owner dead, an acquire from a reading without lock, the registry from the first reading with the own identity, a second reading from the first refusal |
| Routing.RecoveryThenDispatch | backend/main_thread/startup.py:65-93 | A recovery is skipped exactly after a probe that found another owner alive, crashes early exactly at an exception in its check, and else sets the flags and goes on as a dispatch |
| MainThread.Coroutine.DispatchGraphRun | backend/main_thread/executor.py:323-401 | The routing, with every other coroutine free to act at each await and any await free to raise, returns what the automaton says for the replies received, all of them about its thread; it creates exactly one task, and registers it for the thread, if it gets as far as a token, and otherwise none; it is idle only if the last await left the thread with a task that is not done, and takes over its own lock's token only if not |
| MainThread.Coroutine.TakeFromOther | backend/main_thread/executor.py:340-377 | The branch for a lock of another process ends the call or wins a token in it, as the automaton says |
| MainThread.Coroutine.TakeAfterRace | backend/main_thread/executor.py:354-375 | After a refused steal: the second look at the lock, and what follows from it |
| MainThread.Coroutine.Route | backend/main_thread/executor.py:323-395 | All of it up to the token; the registry's answer is about this thread, as the last await left it |
| MainThread.Coroutine.TakeFree | backend/main_thread/executor.py:378-395 | The branch for no lock: as the automaton says, down to the vanished lock |
| MainThread.Registry.StartTask | backend/main_thread/executor.py:397-401 | Creates one task, not done, and makes it the thread's registry entry; no other entry and no other task changes |
| MainThread.Registry.Register | backend/main_thread/registry.py:22-30 | Replaces whatever task the thread had |
| MainThread.Registry.DoneCallback | backend/main_thread/registry.py:29-30 | Removes the thread's entry, whichever task it holds by then |
| MainThread.RenewLockLoop | backend/main_thread/executor.py:93-116 | Reports a loss exactly at a refusal that only answers and exceptions precede, and cancels what the registry holds for the thread at that moment, if it is not done |
| MainThread.RecoverThread | backend/main_thread/startup.py:65-93 | Skips a thread owned by another live process, else refreshes the two viewer flags and behaves as a dispatch; the awaits follow the automaton from its recovery check and are all about this thread; a task is started for it, and for no other, exactly if the outcome says so |
| MainThread.RecoverRunningThreads | backend/main_thread/startup.py:60-98 | The rows are recovered one after the other; the awaits of row i are about thread i, and its outcome is the one for its own replies; the tasks started are one for each row whose outcome says so, in order, and no others; all rows are recovered, unless an exception comes in the check of one, which is then the last |
| OwnershipInvariant.StepKeepsInv | backend/main_thread/lock.py:52-113 | Every step of every process keeps: the counter carries the last grant's token for 20 TTLs, a held lock carries the last grant's owner and token, the holder knows its expiry, calls and runs have tokens they were granted |
| OwnershipInvariant.InvHolds | backend/main_thread/executor.py:282-401 | The invariant holds after any number of steps of any interleaving, with any answers of the liveness probe |
| Fencing.FencingOrder | backend/main_thread/lock.py:52-85 | Tokens are strictly increasing in grant order if and only if consecutive grants are less than 20 lock TTLs apart; between such grants the difference is the number of grants |
| Fencing.NextGrantOutranks | backend/main_thread/lock.py:57-58 | The next grant outranks the last one if and only if less than 20 lock TTLs have passed since that grant, however often the lock was renewed; while the counter lives it is the last token |
| Fencing.HolderOutranksEveryZombie | backend/main_thread/lock.py:71-85 | With short gaps the holder's token is above that of every run of every other process, even if the probe was wrong |
| Fencing.RunProvenance | backend/main_thread/executor.py:323-401 | Over all interleavings a call starts at most one run; its token was granted to its process, in the course of the call unless inherited; and token 0 is exactly the vanished-lock path |
| Fencing.EachGrantStolenAtMostOnce | backend/main_thread/lock.py:71-85 | A steal that succeeds follows directly on a grant to the owner it names, so steals from an owner never outnumber the grants to it |
| LeaseExclusion.AgreementStep | backend/main_thread/lock.py:52-113 | A step keeps the processes' leases in agreement with Redis if and only if it is not a successful steal from another live process |
| LeaseExclusion.LeasesAgreeIffNoWrongSteal | backend/main_thread/executor.py:323-401 | The same over whole timed runs, in both directions |
| LeaseExclusion.LeaseExclusion | backend/main_thread/lock.py:52-113 | If the probe never reports a live owner dead, no two processes are ever inside an unexpired lease of one thread |
| LeaseExclusion.OwnershipLeaves | backend/main_thread/lock.py:71-113 | Ownership leaves a process if and only if its lock expires, one of its own runs releases it, or another process steals it by name |
| RunRegistry.RegistryFaithfulIffSoloStarts | backend/main_thread/registry.py:22-30 | The registry knows every unfinished run throughout if and only if each run starts after the done-callbacks of all earlier runs of its process |
| RunRegistry.InheritsIffDone | backend/main_thread/executor.py:332-338 | A dispatch that finds its own lock starts a run exactly if the registered task is gone or done; a run in its `finally` block is not done |
| RunRegistry.AbortCancelsTheRegisteredRun | backend/main_thread/executor.py:99-110 | A failed renewal cancels its own run if and only if the registry holds that run, and never one of another process |
| RunRegistry.ZombieAborted | backend/main_thread/executor.py:79-80 | With solo starts a failed renewal always aborts its own run |
| LockLoss.HeldIffRegained | backend/main_thread/lock.py:52-99 | A process that does not hold the lock holds it at a later step if and only if it was granted in between, and no expiry, release of its own or steal from it has come since |
| LockLoss.RefusedIffNotRegained | backend/main_thread/executor.py:99-110 | After the loss, a renewal is refused, and the loss signalled, if and only if the process has not been granted the lock again, or an expiry, a release or a steal has taken it away since; the run's token plays no part |
| LockLoss.LossSignalledWithin | backend/main_thread/executor.py:93-116 | Unless the process is granted the lock again before, an answered renewal is refused, and signals the loss, no later than (k + 1) * gap after it, for any k raising attempts in a row |
| LockLoss.OverlapBounded | backend/main_thread/executor.py:93-116 | And if the registry still holds the run whenever its loop aborts, the run has stopped or is cancelled no later than (k + 1) * gap after the loss, and the loop's latency |
| OverlapExample.OverlapHappens | backend/main_thread/executor.py:93-116 | All conditions of that bound hold together in a run where two runs of one thread are active at once |
| LockLoss.SoloAbortsRegistered | backend/main_thread/registry.py:22-30 | With solo starts the registry does hold it |
| OwnershipCounterexamples.DoubleStart | backend/main_thread/executor.py:332-344 | A reachable state with two runs of one process and one token, the first of them unknown to the dispatch of the second |
| OwnershipCounterexamples.LostLockWithoutAbort | backend/main_thread/registry.py:29-30 | A reachable state where a run that knows its lock is lost is not cancelled and another process runs the thread |
| OwnershipCounterexamples.TokenGrantedTwice | backend/main_thread/lock.py:89-99 | A reachable state where two grants have the same token although the lock never lapsed |
| OwnershipCounterexamples.ZombieWithHoldersToken | backend/main_thread/lock.py:57-58 | A reachable state where a live run of another process has the holder's token |
| OwnershipCounterexamples.ZombieCleansUpUnderHoldersToken | backend/langgraph/lifecycle/threads/nodes/tasks/sql.py:72-83 | A reachable state where the clean-up of a lost run does not spare a task that the holder inserted |
| OwnershipCounterexamples.ZombieMarksTaskTakenOver | backend/langgraph/models/node_utils/task_runner.py:109-124 | A reachable state, with short gaps and tokens in order, where it marks a task `wrong` that the holder has taken over and is working on |
| OwnershipCounterexamples.ZombieFailsHoldersNodes | backend/main_thread/executor.py:235-249 | A reachable state, with short gaps and tokens in order, where the failure of a run that has lost its lock fails any running row of the new holder |
| OwnershipCounterexamples.ZombieCancelsHoldersNodes | backend/langgraph/models/node_utils/entrypoint.py:120-135 | In the same state, the upsert of a run that has lost its lock is refused, and its cancel of the node, or of the thread, still cancels the running row of the new holder |
| OwnershipCounterexamples.LossNeverNoticed | backend/main_thread/executor.py:378-395 | A reachable state where the lock has passed to another process and back, and the renewals of the old run succeed beside a new run of its process |
| OwnershipCounterexamples.RunWithoutLock | backend/main_thread/executor.py:380-393 | A reachable state where a run with token 0 goes on with no lock at all |
| ZombieCleanup.TaskTable.CleanupZombieTasks | backend/langgraph/lifecycle/threads/nodes/tasks/sql.py:75-83 | Marks the token's unfinished, unpaused tasks `wrong`, and returns exactly the rows that changed |
| ZombieCleanup.TaskTable.ResetTaskForRetry | backend/langgraph/lifecycle/threads/nodes/tasks/sql.py:88-96 | Takes a completed, failed, cancelled or paused row back to running and keeps its token; says whether it did |
| ZombieCleanup.StatementsFind | backend/langgraph/lifecycle/threads/nodes/tasks/sql.py:29-96 | In which statuses each statement on the task rows finds a row, and what it leaves |
| ZombieCleanup.InsertersToken | backend/langgraph/lifecycle/threads/nodes/tasks/sql.py:6-96 | After any statements of any runs and requests a row carries the token of the run that inserted it, whoever has taken it up since |
| ZombieCleanup.SparesIffOtherToken | backend/langgraph/lifecycle/threads/nodes/tasks/sql.py:72-83 | After any statements the clean-up of a run leaves an unfinished row alone if and only if the run that inserted the row has another token |
| ZombieCleanup.CleanupSparesOtherProcesses | backend/langgraph/lifecycle/threads/nodes/tasks/sql.py:72-83 | With short gaps, in every reachable state, the clean-up of a run spares every row that a run of another process inserted |
| ZombieCleanup.CleanupSparesIffNothingTakenOver | docs/debugs/multi-fastapi-graph-thread-racing-fix.md:76 | With short gaps, in every reachable state and over any statements, it spares throughout the rows that a run of another process works on if and only if that run never takes over one that carries the lost run's token |
| FencedNodes.StaleWritesDoNotInterfere | backend/langgraph/lifecycle/threads/nodes/sql.py:14-62 | In any interleaving of statements, those that carry a token below the row's have no effect on its status, predecessors, checkpoint, token and pause origin |
| FencedNodes.StaleUpsertStillWrites | backend/langgraph/lifecycle/threads/nodes/sql.py:50-57 | A stale upsert changes the group, the unset branch and the fork columns, and nothing else |
| FencedNodes.FencedEffect | backend/langgraph/lifecycle/threads/nodes/sql.py:24-140 | When a statement with a token takes effect on the guarded columns, and with what: an upsert exactly if its token is not below the row's, on an ended row in all but status and pause origin; a completion on a pending, running or paused row with its very token; a pause on a running one |
| FencedNodes.UnfencedEffect | backend/langgraph/lifecycle/threads/nodes/sql.py:114-148 | The same for the statements without a token |
| FencedNodes.ColumnsOverSequences | backend/langgraph/lifecycle/threads/nodes/sql.py:43-57 | Over any sequence: the token is the highest of all, and branch, fork and fork origin stay once set |
| FencedNodes.ForeignChangesIffSweeps | backend/langgraph/lifecycle/threads/nodes/sql.py:114-148 | With short gaps and the holder's token on the row, a statement of another process's run or shutdown, whichever it is, changes the guarded columns if and only if it has no token and meets the row in its reach: a cancel or failure an active row, a pause a running one, a resume a paused one |
| FencedNodes.ZombieWritesRejectedIffNoSweep | backend/langgraph/lifecycle/threads/nodes/sql.py:14-141 | The same for any sequence of statements: the guarded columns are throughout what they would be without the statements of other processes if and only if none of those without a token meets the row |
| Renewal.UnbrokenIffMargin | backend/main_thread/executor.py:93-116 | For every largest gap between attempts (sleep and call together), TTL and k: the lease is unbroken from grant to release on all schedules with at most k raising attempts in a row if and only if (k + 1) * gap < TTL |
| Renewal.ConfiguredMargin | backend/config.py:95-98 | With 60 s and a 25 s sleep, one raising attempt in a row is tolerated if and only if each call takes less than 5 s, none if and only if less than 35 s, and two never |
| Renewal.AnsweredWithin | backend/main_thread/executor.py:94-116 | From any time on, some attempt is answered no later than (k + 1) * gap after |
| Renewal.StaysSecure | backend/main_thread/lock.py:89-99 | Within that margin the lock is held, from its last answered renewal, for a whole TTL |
| Renewal.ExpiryFollowsScript | backend/main_thread/lock.py:89-99 | While it is held, the lock runs out 1000 * ttl ms after the script last ran, answered or not |
| Checkpointer.RedisLock.Acquire | backend/db/redis/lock_manager.py:48-64 | Obtains the lock exactly if it is free, with a token drawn for this call; a refusal changes neither lock nor holder |
| Checkpointer.RedisLock.Release | backend/db/redis/lock_manager.py:66-88 | Deletes the key only if it carries this holder's token, and forgets the token in any case |
| Checkpointer.RedisLock.RenewOnce | backend/db/redis/lock_manager.py:94-100 | With anything allowed between GET and EXPIRE: the EXPIRE leaves the token as it found it, whoever's it is, and only moves the expiry |
| Checkpointer.AcquireWithRetry | backend/db/postgres/checkpointer.py:82-91 | Thirty attempts follow the flow to the section, and then the lock carries this call's token, to the timeout or to an exception |
| Checkpointer.Section | backend/db/postgres/checkpointer.py:93-129 | Leaves the section without an exception only with the sentinel set and the flag warmed |
| Checkpointer.Migrate | backend/db/postgres/checkpointer.py:102-129 | Steps 5 and 6 fail exactly if one of their requests does |
| Checkpointer.Leave | backend/db/postgres/checkpointer.py:131-146 | On every way out the lock object has released: no token and no renewal task are left; a final check that gets its answer never finds the sentinel missing |
| Checkpointer.EnsureSetup | backend/db/postgres/checkpointer.py:36-148 | A normal return implies the sentinel, the local flag and a setup that succeeded or met a UniqueViolation; the call fails exactly if a request of its own does, but for the release, times out exactly after 30 refusals, and else returns; with the flag set, or the sentinel there and every request answered, it returns |
| SetupFlow.EndsAsAnswered | backend/db/postgres/checkpointer.py:60-146 | The replies that lead to each point are spelt out; a call that has ended has failed exactly if a reply was an exception, and timed out exactly if 30 acquires in a row were refused |
| SetupProtocol.StepKeepsInv | backend/db/postgres/checkpointer.py:60-146 | Every step of any number of processes keeps: a local flag implies the sentinel, tokens are drawn once, each call is past the sentinel only if it is set |
| SetupRules.EndsAsServed | backend/db/postgres/checkpointer.py:60-146 | For any interleaving, faults and expiries: a call that has ended has failed if and only if a request of its own failed outside the release, timed out if and only if it found the lock taken 30 times, and else returned; it ends after at most 38 steps of its own |
| SetupRules.SentinelFoundReturns | backend/db/postgres/checkpointer.py:60-100 | A set flag, and an answered check that finds the sentinel, before the lock or inside it, end the call well |
| SetupRules.AloneSetsUp | backend/db/postgres/checkpointer.py:60-146 | Alone, with the lock free and all answers, a call has set up the tables, the sentinel and its flag, released and returned after nine steps |
| SetupRules.FlagsStep | backend/db/postgres/checkpointer.py:69-129 | Tables, sentinel and local flags are made by migrations that finish, by writes that arrive and by answers that tell of the sentinel, and by nothing else |
| SetupRules.LeaseLasts | backend/db/postgres/checkpointer.py:31 | The setup lock lasts for exactly 60 s from its grant and from each renewal |
| SetupProtocol.ReturnImpliesSentinel | backend/db/postgres/checkpointer.py:60-146 | For any interleaving, faults and expiries, a normal return implies the sentinel |
| SetupProtocol.HonestIffNoEarlyViolation | backend/db/postgres/checkpointer.py:113-127 | A sentinel that is set, or about to be, stands for a setup that ran to its end, throughout, if and only if no UniqueViolation is taken for success before one has |
| SetupProtocol.ReturnImpliesSetup | backend/db/postgres/checkpointer.py:93-146 | If no lease runs out in the section, and each UniqueViolation has its cause in a finished or concurrent setup, then sentinel and normal return do stand for a finished setup |
| SetupCounterexample.SentinelWithoutTables | backend/db/postgres/checkpointer.py:116-127 | A reachable state, after a lapse, where a call has returned normally, the sentinel is set and no setup has finished |
| SetupProtocol.HeldIffNeverLapses | backend/db/postgres/checkpointer.py:93-133 | Every call in the section is the one the lock names, throughout, if and only if no holder's lease runs out inside it |
| SetupProtocol.SetupExclusion | backend/db/postgres/checkpointer.py:93-129 | Provided that, at most one call is in `cp.setup()`, and none is there or about to be once the sentinel is set |
| SetupProtocol.HolderChanges | backend/db/redis/lock_manager.py:90-104 | The lock leaves a holder only by expiry or by that holder's release; the two-step renewal never changes hands |
| AwaitResult.Await | backend/celery_task/workers/task_delegation.py:94-161 | With the other coroutines at work on the registry at every await: the outcome is what the first pass that decides anything finds, field by field, in the order timeout, thread, node, result; at most ceil(timeout / 500 ms) passes do not time out; one revoke at most, exactly if that pass demands it and the entry is still there; one warning for each later 30-second bucket that a pass falls into; the entry is gone on every exit from the `try` |
| AwaitResult.DecidesIff | backend/celery_task/workers/task_delegation.py:103-159 | For every pass and every outcome: the pass brings the outcome about if and only if it finds what that outcome takes, spelt out field by field, with no earlier condition met; it leaves the matter open if and only if it is in time, nothing is cancelled, and there is no record or one under way |
| AwaitResult.RevokesIff | backend/celery_task/workers/task_delegation.py:117-132 | A pass revokes the task if and only if it is late or finds a cancel flag |
| AwaitResult.PollLoop | backend/celery_task/workers/task_delegation.py:103-159 | The loop alone, with the bound on its passes for every trace whose sleeps are honoured |
| AwaitResult.Look | backend/celery_task/workers/task_delegation.py:117-132 | One pass decides in that order and revokes for the timeout and the two flags only |
| AwaitResult.LookAtResult | backend/celery_task/workers/task_delegation.py:134-157 | The result record decides as its status says; a paused one with thinking also needs its snapshot saved |
| AwaitResult.NoteElapsed | backend/celery_task/workers/task_delegation.py:106-116 | A pass warns if and only if its 30-second bucket is later than that of the last warning |
| Cascade.Database.CancelNodeLc | backend/langgraph/lifecycle/threads/nodes/ops_utils/cancel.py:32 | Cancels the node's active tasks and the node if it is active, sets its cancel flag exactly then, and says whether it was |
| Cascade.Database.CascadeUp | backend/users/queries/_helpers.py:89-155 | The recursion terminates on any finite forest and does to the tables what the cascade function says |
| Cascade.Database.CancelNode | backend/users/queries/lifecycle.py:97-121 | The node, then the cascade from the parent read before |
| Cascade.Database.CancelTaskByUuid | backend/users/queries/lifecycle.py:124-187 | The task, and the node with its cascade exactly if the node is known and has no active task left |
| Cascade.CascadeExact | backend/users/queries/_helpers.py:89-155 | The rows cancelled are exactly the active nodes on the path up through parents with no other active child, and their active tasks, with the cancel flags of those nodes; the thread follows exactly if the path ends at the top and no other top-level node is active |
| Cascade.ChangesAreCancels | backend/users/queries/lifecycle.py:97-121 | Whatever else it reaches, a cancel only takes pending, running and paused rows to cancelled |
| Cascade.NamedIsCancelled | backend/langgraph/lifecycle/threads/nodes/ops_utils/cancel.py:80-107 | The named node, if active, is cancelled with its active tasks and flagged |
| Cascade.ThreadEndsWithClimb | backend/users/queries/_helpers.py:130-150 | The thread's flag is set and the thread cancelled exactly where the climb ends it, and then nothing in it is active |
| Cascade.TaskCancelExact | backend/users/queries/lifecycle.py:151-187 | A task cancel takes the task, and the node named, or else the task's own, with its cascade, if and only if there is one and all its other tasks have ended |
| Cascade.OrphansIff | backend/users/queries/lifecycle.py:97-121 | A cancel keeps active nodes under active parents if and only if it reaches the thread, or the named node was not active or had no active child |
| Cascade.OrphanLeft | backend/users/queries/lifecycle.py:97-121 | A forest of three nodes in which a cancel leaves an active child under a cancelled parent |
| Cascade.StrayTaskCancel | backend/users/queries/lifecycle.py:165-184 | For any task and two nodes: a cancel of the one active task of a node that names the other one leaves the node active |
| ConcurrentCancels.StepKeepsInv | backend/users/queries/_helpers.py:89-155 | Any statement of any node or task cancel keeps: whatever has lost its last active child or task to a cancel has a call that will see to it |
| ConcurrentCancels.NothingLeftDue | backend/users/queries/_helpers.py:77-80 | For any interleaving of any number of cancels, once all have finished: a parent one of whose children was cancelled is itself no longer active or has an active child, and likewise the thread |
| ConcurrentCancels.NoNodeLeftDue | backend/users/queries/lifecycle.py:160-187 | And a node on whose behalf a task was cancelled is no longer active or has an active task, unless another node was named for one of its tasks |
| ConcurrentCancels.OnBehalfOfNamed | backend/users/queries/lifecycle.py:151-160 | Each task cancel that came in is still to cancel its task, or has done so on behalf of the node that was named, or else of the task's own |
| ConcurrentCancels.NoTaskLeftBehind | backend/langgraph/lifecycle/threads/nodes/ops_utils/cancel.py:80-90 | At any time a node that was cancelled has no active task, and a thread that was ended has nothing active |
| ConcurrentCancels.NothingElseCancelled | backend/users/queries/lifecycle.py:97-121 | At any time of any interleaving: each row is announced at most once, the announced ones are cancelled and the others as they were, and each was named, or reached by a cascade that found no active child, or by a task cancel that found no active task, or the thread has ended |
| ConcurrentCancels.NoOtherTaskCancelled | backend/langgraph/lifecycle/threads/nodes/ops_utils/cancel.py:80-96 | The same for the tasks: each that was cancelled was named, or is one of such a node, or the thread is ending |
| StatusStatements.TerminalAbsorbs | backend/db/postgres/queries/fin_agents.py:70-188 | Over every sequence of statements a terminal row never changes |
| StatusStatements.CancelReturnedOnce | backend/db/postgres/queries/fin_agents.py:113-188 | Each node and each task is in the RETURNING set of at most one cancel |
| StatusStatements.AllTerminalUntilInsert | backend/db/postgres/queries/fin_agents.py:190-198 | All tasks of a node stay terminal throughout a sequence if and only if it inserts no new task for the node |
| StatusStatements.StatementsFindNode | backend/db/postgres/queries/fin_agents.py:70-131 | Which node rows each statement changes, and to what: pending, running and paused ones of the thread it names; an upsert goes by the id alone |
| StatusStatements.StatementsFindTask | backend/db/postgres/queries/fin_agents.py:143-188 | The same for task rows |
| StatusStatements.ReturnedIffCancelled | backend/db/postgres/queries/fin_agents.py:113-188 | A cancel returns exactly the rows it takes to cancelled |
| StatusStatements.Database.Upsert | backend/db/postgres/queries/fin_agents.py:70-84 | In place: a new row runs, an active one runs again, a terminal one stays |
| StatusStatements.Database.UpdateNode | backend/db/postgres/queries/fin_agents.py:86-104 | In place: only the named, active row of that thread changes |
| StatusStatements.Database.CancelAllActiveNodes | backend/db/postgres/queries/fin_agents.py:113-120 | In place: cancels the thread's active nodes and returns exactly those |
| StatusStatements.Database.Insert | backend/db/postgres/queries/fin_agents.py:143-149 | In place: a conflict changes nothing |
| StatusStatements.Database.CancelAllActiveTasks | backend/db/postgres/queries/fin_agents.py:171-179 | In place: cancels the node's active tasks and returns exactly those |
| Alignment.GroupTargets | backend/api/graph/topology.py:206-209 | The dictionary has a key for each source in the order of first edges, with its targets in edge order and repetitions |
| Alignment.NameGroups | backend/api/graph/topology.py:211-216 | A node is named after the last source, in dictionary order, that fans out to it, and is in a group exactly if one does |
| Alignment.FansOutIffTwoEdges | backend/api/graph/topology.py:206-216 | A source fans out to a target if and only if one of its edges of that kind leads there and it has another one, repetitions included |
| Alignment.OnlyRealEdgesMatter | backend/api/graph/topology.py:206-267 | An edge from or to `__start__` or `__end__`, wherever it stands, changes neither groups nor alignment |
| Alignment.CountPredecessors | backend/api/graph/topology.py:260-264 | The count is the number of sequential edges from real nodes into the node |
| Alignment.Continuation | backend/api/graph/topology.py:246-266 | A node is continued exactly if it is in a parallel group and its one successor edge is also the successor's one predecessor edge; the comparison of groups decides nothing more |
| Alignment.AlignContinuations | backend/api/graph/topology.py:237-267 | The last loop aligns b with a if and only if b continues a |
| Alignment.InferAlignment | backend/api/graph/topology.py:206-267 | Both group maps and the alignment map of the whole inference |
| Alignment.AlignmentProperties | backend/api/graph/topology.py:226-267 | The alignment is injective; an aligned node's sole sequential predecessor is its target; aligned nodes are in no parallel group; keys and targets are disjoint |
| Frontier.KeptIsLatest | backend/users/queries/status.py:134-144 | The row kept for a name is the last of its highest version, and none is kept exactly if all versions are below -1 |
| Frontier.ReadRows | backend/users/queries/status.py:134-144 | The three dictionaries of the loop agree with the rows kept |
| Frontier.ReadEdges | backend/users/queries/status.py:146-149 | Each name gets its predecessors in edge order |
| Frontier.BuildPendingFrontier | backend/users/queries/status.py:130-172 | One entry for each node that has not run and whose predecessors, at least one, all have, in topology order, linked to the kept rows of its predecessors |
| Frontier.PreviousIdsAreLatest | backend/users/queries/status.py:160 | The links are the ids of the latest rows of the predecessors, in edge order, for those with a row of version -1 or above, a missing version counting as 0 |
| Frontier.PendingNodesFound | backend/users/queries/status.py:151-172 | A node is in the frontier if and only if it is in the topology, has not run, and its predecessors, at least one, all have |
| Frontier.FrontierEmptyIffHeld | backend/users/queries/status.py:151-158 | On any acyclic topology the frontier is empty if and only if everything unrun waits, through unrun nodes, for an unrun root |
| Frontier.FrontierEmptyIffDone | backend/users/queries/status.py:116-119 | With the roots run, it is empty if and only if every node has run |
| Frontier.ScheduleProgress | backend/users/queries/status.py:151-158 | Running nodes from the frontier, in any order, runs each at most once, keeps the nodes that ran closed under predecessors, and can only stop when all have run |
| Frontier.ScheduleCompletes | backend/users/queries/status.py:151-158 | From any such state some order runs every node |
| ThinkTags.AStream | _shared/llm/providers/ollama/ollama_llm.py:299-333 | The loop yields the chunks of the specification, blank and malformed lines skipped, up to the first done line |
| ThinkTags.SelectedSaysFields | _shared/llm/providers/ollama/ollama_llm.py:309-333 | The tokens say all thinking fields up to the first done line, and the content fields of the records without thinking |
| ThinkTags.ReadRecoversSelected | _shared/llm/providers/ollama/ollama_llm.py:309-333 | For all lines: open and close tags alternate, each token lies on its side of them, erasing the tags gives the selected tokens in order, and the stream ends closed if and only if a done line came or the last token is no thought |
| ThinkTags.TextRecoversPhases | _shared/llm/providers/ollama/ollama_llm.py:259-261 | The yielded text of any stream of tag-free tokens, cut at its tags, gives back the texts of the phases, for any number of phases, with an empty last part if a closing tag ends it |
| ThinkTags.ExtractStream | backend/celery_task/workers/tasks/stream_utils/text_utils.py:36-53 | Of any stream of tag-free tokens, whole or cut short, the split gives the first thinking phase and the text after it |
| ThinkTags.LongTagsSplit | backend/celery_task/workers/tasks/stream_utils/text_utils.py:36-53 | A text without `<think>` is split at `<thinking>` and `</thinking>` |
| ThinkTags.StreamRecoveredIffSplitSafe | backend/celery_task/workers/tasks/stream_utils/text_utils.py:12-35 | The split recovers all thoughts and all of the answer if and only if only white space precedes the first thought and no thought follows the answer |
| ThinkTags.GreetingLost | backend/celery_task/workers/tasks/stream_utils/text_utils.py:41 | A stream of two lines whose first answer token the split drops |
| SnakeCase.PassesMarkBoundaries | backend/quant/field_name_conversion.py:62-64 | For every string the two greedy rewriting passes insert an underscore exactly at the boundaries, a predicate on three neighbouring characters |
| SnakeCase.PassesUnderscoreWords | backend/quant/field_name_conversion.py:62-64 | For every string the passes put an underscore before exactly those capitals that follow a small letter or a digit, or stand between a capital and a small letter |
| SnakeCase.ToSnakeCaseJoinsTokens | backend/quant/field_name_conversion.py:61-69 | For every string the result is the words between breaks and boundaries, in lower case, joined by single underscores |
| SnakeCaseLaws.ResultIsCanonical | backend/quant/field_name_conversion.py:65-69 | No capital, separator, doubled or boundary underscore is left, and converting again changes nothing |
| SnakeCaseLaws.FixedIffCanonical | backend/quant/field_name_conversion.py:61-69 | The strings left alone are exactly the canonical ones |
| SnakeCaseLaws.CharactersKept | backend/quant/field_name_conversion.py:61-69 | All characters but hyphens, dots, underscores and white space are kept, in order, in lower case, and none is added |
| SnakeCaseConventions.SeparatedConventionsAgree | backend/quant/field_name_conversion.py:6-16 | Words in whatever case each, joined by any one separator, all come out as the words joined by underscores, and splitting gives the words back |
| SnakeCaseConventions.PascalAgreesIffNoLetterPair | backend/quant/field_name_conversion.py:8 | A Pascal-case name comes out as its words joined if and only if no two words of one letter are adjacent; else exactly those are merged |
| SnakeCaseConventions.CamelAgreesIffNoLetterPair | backend/quant/field_name_conversion.py:9 | The same for camel case, after its first word |
| SnakeCaseConventions.LetterPairMerged | backend/quant/field_name_conversion.py:16 | For any two letters x and y: the name `XY` comes out as `xy`, and not as the words joined |
| Throttle.CountsConserved | backend/api/log_filters.py:77-95 | Over every sequence of records, per key the summaries and the pending count add up to the throttled records |
| Throttle.SummaryIffIntervalPassed | backend/api/log_filters.py:79-95 | A throttled record becomes a summary if and only if 300 s have passed since the last one, and the summary counts it |
| Throttle.SummariesApart | backend/celery_task/log_filters.py:65-79 | Any two summaries are at least 300 s apart |
| Throttle.SecondWordIs | backend/api/log_filters.py:67-68 | The path is the second word of the text, however wide the gaps |
| Throttle.RequestVerdict | backend/api/log_filters.py:61-77 | For every request line: dropped for the publish callback, passed for `/metrics` from level 30 on and dropped below, counted for the five endpoints, passed otherwise; read from the message where the record has no request line |
| Throttle.HealthCheckThrottleFilter.Tally | backend/api/log_filters.py:79-95 | The part under the lock: counts the record, and hands out all counts and starts over exactly if the interval has passed |
| Throttle.CeleryTaskSummaryFilter.Tally | backend/celery_task/log_filters.py:65-79 | The same for the name found in a Celery record |
| Throttle.HealthCheckThrottleFilter.Filter | backend/api/log_filters.py:51-95 | On the mutable record and filter: the step of the specification for the record's path and level; a record that is not a summary is not changed |
| Throttle.CeleryTaskSummaryFilter.Filter | backend/celery_task/log_filters.py:38-79 | The same for Celery records, whose throttled ones are those the patterns name |

## Left out

- LangGraph execution, checkpoint contents, SSE and Centrifugo publishing, Celery delivery: other systems; the body of a graph run is a phase that starts and ends.
- The TCP and PID probes inside `check_owner_alive`: an oracle, whose accuracy is a hypothesis where it matters.
- Redis failures: a dispatch whose await raises is in `Dispatch` and `MainThread`, and takes no further step in `Ownership`; a renewal that raises is in `Renewal` and `LockLoss`, a release that is lost in `Ownership`.
- A lock value that decodes to other field types than the scripts write, and values of old versions without a token: `Malformed` stands for any text that does not decode.
- `wait_all`, `cleanup_stale_celery_tasks`, what the viewer flags are for, and logging: I/O around the protocol.
- SHA-256 sharding: both keys of a thread are on one node, as the source arranges.
- Payload columns, time stamps, `task_ids` and the sibling snapshots of `fin_agents.nodes`: not guarded and not read by what is modelled.
- StatusStatements.TerminalAbsorbs: does not cover `_RESET_TASK_FOR_RETRY` of backend/langgraph/lifecycle/threads/nodes/tasks/sql.py, which is there to take finished tasks back to running; it is about the statements of fin_agents.py as written. The repository executes only the GET and LIST ones of that file; its writes go through backend/langgraph/lifecycle (`FencedNodes`, `ZombieCleanup`, `Cascade`).
- Cascade.CascadeExact: does not model database errors, replica lag, or an empty string as a parent id; reads are those of a sequentially consistent database, and pointers form a forest.
- Cascade.Database.CancelNodeLc: does not model the revocation of Celery tasks and the notifications, and takes the two statements as one step; `ConcurrentCancels` takes them apart.
- The connection handling of `ensure_setup`, the SQL of `cp.setup()` and the one-second sleeps: awaits at which anything may happen.
- AwaitResult.Await: does not model a cancellation of the awaiting coroutine; the text of the pause snapshot is not kept.
- ConcurrentCancels.NothingLeftDue: is about cancels only; nodes and tasks that start or complete meanwhile are not modelled.
- ZombieCleanup.CleanupSparesIffNothingTakenOver: takes the statements on the task rows in any order, whatever the runs of the state were doing at the time of each.
- Pausing tasks, whose function in lifecycle.py does not cascade.
- Topology cache, node types, edge labels and the name stripping of the response models: table look-ups.
- ThinkTags.AStream: does not model a consumer that closes the generator, HTTP errors, or JSON values other than records with text fields.
- ThinkTags.StreamRecoveredIffSplitSafe: is about tokens without `<`; a token that itself spells a tag is taken for one by the split.
- SnakeCase.ToSnakeCaseJoinsTokens: lower case is that of ASCII letters; other letters pass through, where the source lowers them too. White space is Python's.
- `normalize_keys` and `coerce_numeric`: a map over keys and float parsing.
- Throttle.CeleryTaskSummaryFilter.Filter: takes the name that the regular expressions find as a parameter; the order and wording of the summary lines are not modelled.
- The lock that makes a filter's counting atomic: one call is one step.
