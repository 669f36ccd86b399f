# turbohaul-manager: models and proofs

Turbohaul puts LLM requests ("slots") through a two-tier queue onto llama-server sidecars.
This project models the parts where that is delicate and proves what they guarantee.

* **The multi-resident dispatcher** (`Dispatcher*.dfy`, `ResidentManager.dfy`). With
  `max_parallel_sidecars` of at least 2, a dispatcher routes slots to per-model residents,
  each with its own driver task, while detached teardown, reaper and re-queue tasks race with
  the drivers. `Dispatcher` is a state machine with one action per stretch of code between two
  suspension points. No body under the registry lock or the queue lock ever suspends, so each
  is one action; actions interleave in any order, with arbitrary answers from the
  environment, and with cancellation at every suspension point, also before a driver's first
  instruction. `DispatcherInv` is the invariant, the files after it show that each action
  keeps it, `DispatcherSafety`, `DispatcherHistory` and `DispatcherDefers` draw the
  conclusions. What the actions come to is pinned down beside them, told from the state before
  the step rather than by the functions that compute it: `DispatcherVerdicts` for routing,
  `DispatcherDeeds` for the steps of drivers, teardowns and the reaper, and
  `DispatcherOutcomes` over every run.
  `ResidentManagers` holds the critical sections and the driver's steps as the program has
  them, objects and a registry updated in place; each leaves exactly the state the state
  machine says, and between actions the object keeps the invariant (`Safe`).
* **The queue** (`QueueSpec`, `QueueRuns`, `QueueFairness`, `TurbohaulQueue`, `Fsm`). The
  class works in place on slot objects and is proved against a value specification, about
  which conservation, per-model order and the fairness bounds are proved over all runs.
* **The single-sidecar worker** (`SingleSidecar`, `FanOut`, `GraceTimer`). The worker's code
  with its awaits made explicit: what an await yields, and which detached expiry task gets to
  start meanwhile, is read off an arbitrary script. `Valid()` is required at every await, so
  what it says holds at every suspension point.
* **Text** (`JsonScanner`, `SpanRemoval`, `NestedCalls`, `SseReframe`, `LiveOutput`), **arithmetic and
  cursors** (`KvGate`, `Pagination`, `FlagsArgv`).

`dfyconfig.toml` names all files; `dafny verify dfyconfig.toml` checks them.

Where the code and its own comments disagree the model follows the code, and says exactly
when the comment would be right:

* A drained batch is said to be re-queued in order; sequential head inserts reverse it
  (`BatchOrderKeptExactly`).
* A run-length cap of one is said to make every pop honour the head; the very first pop can
  overtake (`CapOneTakesHeadExactly`, `CapOneFirstPopOvertakes`).
* Forcing a drifted follow-up cold is said to leave the anchor's process alone; the sharing
  test compares the slot with itself there and would signal it (`DriftedMatchNotSpared`). No
  run gets there: the queue hands out STAGED slots only, from which the promotion is legal
  (`PopAndPromoteMatch`, `PromotionLegalExactly`).
* Deleting the accepted calls back to front is said to keep the positions valid; with one call
  inside another's arguments both are accepted and the outer one's end lies too far to the
  right once the inner one is gone. Exactly when the cuts are right is `StripSpans`; the
  message `{"name":"f","arguments":{"a":{"k":{}},"b":{"name":"g","arguments":{}}}} rest` loses
  its last word (`NestedCallsOvercutExactly`, `TextAfterMessageLost`).
* A follow-up cancelled in ACTIVE_MATCH is said to be parked; a cancellation at the audit
  between its two transitions leaves it there, unanswered (`PopAndPromoteMatch`).
* Forcing a slot cold is said to walk legal transitions only; two states have no legal hop
  (`ColdWalkLegalExactly`). No caller is in either: an anchor that raised has reached one of
  STAGED, LOADING, LOADING_FAIL, ACTIVE, GRACE or POPPED, a drained rider is ACTIVE, and a
  follow-up is in ACTIVE_MATCH only between two transitions (`ForcedFromLifeExactly`).
* A cancelled fan-out is said to leave no client hanging; that holds of the drain, but a
  cancellation in the one-shot admission before it leaves the riders admitted so far
  unanswered (`RunFanOut`). It can come whenever there is room for a rider and the front of
  the queue fits (`AdmissionInterruptibleExactly`): the answers [0, 1], a request found and
  then the cancellation, leave anchor and candidate unanswered (`CancelledAtFirstRider`).

## Model

| member | source | states |
|---|---|---|
| `DispatcherSafety.ExactlyOneOwner` | src/turbohaul/manager.py:1227-1309 | in every reachable state an accepted request whose future is unresolved is held by exactly one party: the queue, one inbox, one driver, one driver's cleanup, or one pending background task |
| `DispatcherSafety.NeverHeldTwice` | src/turbohaul/manager.py:1457-1486 | resolved or not, no request is held by two parties or twice by one, and only accepted requests are held |
| `DispatcherSafety.QuiescenceLosesNothing` | src/turbohaul/manager.py:3578-3640 | once the queue is closed and every driver and background task has finished, every accepted request is resolved and every sidecar was reaped exactly once or found dead, never both |
| `DispatcherSafety.EverySidecarAccountedFor` | src/turbohaul/manager.py:1655-1688 | at every suspension point a spawned sidecar is recorded by exactly one resident, as handle or booting pid but not both, exactly until it is let go of, and is handed to at most one reap |
| `DispatcherSafety.BusyNeverEvictable` | src/turbohaul/manager.py:1202-1214 | an evictable resident is parked with an empty inbox and nothing active; a dead one is unregistered with an empty inbox; a serving one is ACTIVE, registered, its sidecar not let go of, and its riders within its width |
| `DispatcherSafety.RegistrySound` | src/turbohaul/manager.py:828-857 | at most cap models registered, one per tag, ports distinct and inside the window, co-residents unsplit on distinct cards, and every resident holds only requests for its own model |
| `DispatcherHistory.ServingUndisturbed` | src/turbohaul/manager.py:1457-1505 | while a resident serves, no action of dispatcher, eviction, other drivers, detached teardown or reaper changes anything of it but its inbox, which only grows |
| `DispatcherHistory.RunsOnlyAge` | src/turbohaul/manager.py:1488-1505 | along every run torn_down flips at most once, death is final, a resident keeps model, port and card, and nothing accepted, resolved, spawned or reaped is forgotten |
| `DispatcherHistory.DeadNeverServes` | src/turbohaul/manager.py:1761-1767 | once a resident has gone DEAD its driver never serves again and nobody hands it work, whatever happens later |
| `DispatcherHistory.ResolvedOnceExactly` | src/turbohaul/manager.py:490-494 | along every run a future goes from unresolved to resolved once if it is resolved in the end and never otherwise |
| `DispatcherDefers.LeavesForGood` | src/turbohaul/manager.py:1227-1309 | along every run an accepted request that queue, residents and tasks have all let go of is never held again |
| `DispatcherDefers.DeferralsBounded` | src/turbohaul/manager.py:1227-1243 | over every run a request is deferred at most once more than the cap, and one that was is resolved and in nobody's hands |
| `DispatcherVerdicts.HitHandsOver` | src/turbohaul/manager.py:1292-1301 | a hit appends the request to the inbox of exactly the model's live resident, takes that out of idle, and changes nothing else |
| `DispatcherVerdicts.DefersExactly` | src/turbohaul/manager.py:1302-1307 | a request no live resident serves is put off exactly when the registry is full and no registered resident is idle; it is counted once more, and backs off up to the cap and is resolved beyond it |
| `DispatcherVerdicts.ReservesExactly` | src/turbohaul/manager.py:1302-1360 | with room, or with an idle victim in a full registry, it is registered on its own on a free port with the request in its inbox exactly when it fits beside those that stay, and resolved otherwise; the victim alone dies, and only when the registry is full |
| `DispatcherOutcomes.EveryStepDoes` | src/turbohaul/manager.py:1737-1849 | over every run each step of a driver, teardown or reaper leaves its resident where the flat table says: suspension point, life, slot, inbox, riders, when last active, the batch going back in order, who is answered, which process is reaped or written off |
| `DispatcherOutcomes.AnsweredExactly` | src/turbohaul/manager.py:1109-2041 | over every run each step answers exactly the requests told from the state before it: given up, turned down, refused, served, finished, turned away, broken off, left behind, abandoned, or caught by the close |
| `DispatcherOutcomes.DiesExactly` | src/turbohaul/manager.py:1302-1308 | over every run a resident dies in exactly the steps named; through the dispatcher only when the registry is full, no resident serves the model popped, and no idle one was less recently active |
| `DispatcherOutcomes.NoLiveOneWrittenOff` | src/turbohaul/manager.py:1488-1505 | over every run a process let go of is reaped exactly when it was found alive or was still booting when its driver was broken off or torn down, and written off otherwise |
| `DispatcherOutcomes.InboxIsFifo` | src/turbohaul/manager.py:1292-1301 | over every run what has left a resident's inbox, followed by what is in it, is what came in, in that order |
| `DispatcherOutcomes.QueueTouchedExactly` | src/turbohaul/manager.py:1245-1284 | over every run the queue changes by an admission, the dispatcher's pop, a follow-up taken in the grace window, a batch or backed-off request coming back while it is open, and the close, and by nothing else |
| `DispatcherSteps.RunKeepsInv` | src/turbohaul/manager.py:1109-2041 | every state of every interleaving satisfies the full invariant of placement, processes, registry and suspension points |
| `DispatcherSteps.StepKeepsInv` | src/turbohaul/manager.py:1737-1849 | each of the 28 actions, whatever the environment answers, keeps that invariant |
| `DispatcherFinally.EnterFinallyKeeps` | src/turbohaul/manager.py:1800-1824 | entering a driver's cleanup, by whatever way, keeps the invariant: the claim hands its process over once and its inbox on |
| `DispatcherFinally.LeaveFinallyKeeps` | src/turbohaul/manager.py:1825-1849 | leaving the cleanup re-queues the drained inbox, fails an anchor nobody else would see, and keeps the invariant |
| `DispatcherFinally.RequeueKeeps` | src/turbohaul/manager.py:1265-1284 | a detached re-queue gives all of its batch back, or resolves it when the queue has closed, and keeps the invariant |
| `DispatcherFinally.CancelBackoffKeeps` | src/turbohaul/manager.py:1245-1263 | a backoff cancelled in its sleep resolves its request and keeps the invariant |
| `DispatcherTeardown.BeginEvictKeeps` | src/turbohaul/manager.py:1457-1486 | an eviction drains the inbox into one task every time, and dies, deregisters and schedules a teardown once |
| `DispatcherDriver.CancelUnstartedKeeps` | src/turbohaul/manager.py:1578-1593 | a driver cancelled before its first instruction, whose cleanup never runs, still leaves a state the death reaper repairs |
| `DispatcherDriver.UnhealthyKeeps` | src/turbohaul/manager.py:1667-1682 | a failed health check resolves the anchor, clears the booting pid and hands the process to this driver's own reap |
| `DispatcherDriver.PublishKeeps` | src/turbohaul/manager.py:1683-1688 | publishing a handle moves the booting pid to it in one step and enters the serve loop, or the cleanup when stopping |
| `DispatcherServe.LaunchKeeps` | src/turbohaul/manager.py:1958-1994 | opening a fan-out admits inbox riders up to the width, failing those whose clients are gone |
| `DispatcherServe.WakeKeeps` | src/turbohaul/manager.py:1995-2007 | a wake-up releases finished riders, refills from the inbox, and ends only with no rider left |
| `DispatcherServe.UnwindKeeps` | src/turbohaul/manager.py:2008-2018 | a cancellation or exception at any suspension resolves every rider and enters the cleanup |
| `DispatcherWindows.GraceOverKeeps` | src/turbohaul/manager.py:1769-1781 | the end of the grace window parks the resident, takes a waiting request at once, or evicts itself when no idle window is configured |
| `DispatcherWindows.ParkTimeoutKeeps` | src/turbohaul/manager.py:1782-1797 | an idle window that expires evicts only a resident that is still evictable with an empty inbox; a request that slipped in is served |
| `DispatcherWindows.TeardownKeeps` | src/turbohaul/manager.py:1488-1505 | the detached teardown claims and releases only a dead resident's process, or does nothing |
| `DispatcherWindows.ReapDeadKeeps` | src/turbohaul/manager.py:1595-1614 | the death reaper resolves what the driver abandoned and surrenders its inbox, whatever it finds |
| `DispatcherRouting.RouteKeeps` | src/turbohaul/manager.py:1286-1309 | routing hits, reserves, evicts and reserves, or defers, and in each case the request in hand ends with exactly one owner |
| `DispatcherRouting.ReserveKeeps` | src/turbohaul/manager.py:1311-1360 | a reservation adds a resident that respects cap, ports and cards, or resolves the request |
| `DispatcherRouting.AllocPortFree` | src/turbohaul/manager.py:828-857 | with fewer registered residents than ports, the port handed out lies in the window and no registered resident has it |
| `DispatcherRouting.LowestFreeIsLeast` | src/turbohaul/manager.py:841-850 | the port scan returns the lowest unheld port of its range whenever there is one |
| `DispatcherRouting.BootingChargeNeverDecides` | src/turbohaul/manager.py:1407-1455 | the charge for still-booting siblings never changes the verdict: a candidate that is isolated fits exactly when the probe alone says so |
| `Dispatcher.TakenFits` | src/turbohaul/manager.py:1977-1990 | riders admitted fit the width, and the width is filled unless the inbox runs out |
| `ResidentManagers.ResidentCell.DrainInbox` | src/turbohaul/manager.py:1472-1482 | the drain loop empties the inbox and returns it in order |
| `ResidentManagers.ResidentCell.AdmitFromInbox` | src/turbohaul/manager.py:1977-1990 | the admission loop leaves exactly the specified riders and inbox and reports exactly the turned-away ones |
| `ResidentManagers.Manager.AllocPort` | src/turbohaul/manager.py:828-857 | the scan over the registry returns the specified port |
| `ResidentManagers.Manager.LruIdleEvictable` | src/turbohaul/manager.py:1202-1214 | returns a least recently active candidate, or nothing exactly when there is none |
| `ResidentManagers.Manager.VramAdmits` | src/turbohaul/manager.py:1407-1455 | the sibling and budget loops decide exactly the specified gate |
| `ResidentManagers.Manager.BeginEvict` | src/turbohaul/manager.py:1457-1486 | updates resident and registry in place to exactly the specified state |
| `ResidentManagers.Manager.EvictTeardown` | src/turbohaul/manager.py:1488-1505 | the detached teardown is its action of the state machine, and the object keeps the invariant |
| `ResidentManagers.Manager.DriverClaims` | src/turbohaul/manager.py:1800-1824 | the cleanup's critical section leaves exactly the specified state |
| `ResidentManagers.Manager.RequeueSlotsOrFail` | src/turbohaul/manager.py:1265-1284 | the batch loop leaves exactly the specified queue and resolved futures |
| `ResidentManagers.Manager.RouteOrReserve` | src/turbohaul/manager.py:1286-1309 | the whole critical section leaves exactly the specified state, with the least recently used resident as victim |
| `ResidentManagers.ResidentCell.LandFinished` | src/turbohaul/manager.py:1999-2003 | the removal loop keeps exactly the unfinished riders, in order |
| `ResidentManagers.Manager.PublishHandle` | src/turbohaul/manager.py:1683-1688 | moving the booting pid to the handle and entering the loop or the cleanup is its action of the state machine, and the object keeps the invariant |
| `ResidentManagers.Manager.TakeParked` | src/turbohaul/manager.py:1782-1785 | a parked resident waking to a request is its action of the state machine, and the object keeps the invariant |
| `ResidentManagers.Manager.GraceEnds` | src/turbohaul/manager.py:1769-1781 | taking a waiting request, parking or self-eviction is its action of the state machine, and the object keeps the invariant |
| `ResidentManagers.Manager.ParkEnds` | src/turbohaul/manager.py:1782-1797 | evicting a resident still idle with an empty inbox, or serving, is its action of the state machine, and the object keeps the invariant |
| `ResidentManagers.Manager.OpenFanOut` | src/turbohaul/manager.py:1958-1994 | riders launched, requests turned away and inbox left are those of its action of the state machine, and the object keeps the invariant |
| `ResidentManagers.Manager.WakeFanOut` | src/turbohaul/manager.py:1995-2007 | landed riders go, the inbox refills the width, the end comes when no rider is left: its action of the state machine, and the object keeps the invariant |
| `ResidentManagers.Manager.UnwindDriver` | src/turbohaul/manager.py:2008-2018 | from every suspension a cancellation reaches, failing the riders and running the cleanup is its action of the state machine, and the object keeps the invariant |
| `ResidentManagers.Manager.EndFinally` | src/turbohaul/manager.py:1825-1849 | handing back the drained inbox and failing the anchor nobody else would see is its action of the state machine, and the object keeps the invariant |
| `ResidentManagers.Manager.ReapDeadResident` | src/turbohaul/manager.py:1595-1614 | resolving what the dead driver abandoned and surrendering its inbox is its action of the state machine, and the object keeps the invariant |
| `ResidentManagers.Manager.DispatchTurn` | src/turbohaul/manager.py:1135-1161 | one turn of the dispatcher, pop and route, is an enabled action of the state machine with a least recently used victim, and the object keeps the invariant |
| `TurbohaulQueues.TurbohaulQueue.Enqueue` | src/turbohaul/queue.py:59-73 | admits to staging, then to the bounded buffer, or raises, and sets the slot's state; the object afterwards is the specified queue |
| `TurbohaulQueues.TurbohaulQueue.EnqueueHead` | src/turbohaul/queue.py:239-252 | inserts at the head without a cap, or raises when closed |
| `TurbohaulQueues.TurbohaulQueue.PopNext` | src/turbohaul/queue.py:151-222 | pops exactly the specified entry by identity, keeps everything else in order, keeps staging STAGED and the buffer ACCEPT_BUFFER, and never meets an illegal transition |
| `TurbohaulQueues.TurbohaulQueue.PopMatchedThread` | src/turbohaul/queue.py:268-298 | removes exactly the first staged slot of that thread and model, finding nothing exactly when no thread is named or no staged slot matches |
| `TurbohaulQueues.TurbohaulQueue.FindMatchedThread` | src/turbohaul/queue.py:254-266 | finds exactly the slot a matched pop would take, and takes nothing |
| `TurbohaulQueues.PopAndPromoteMatch` | src/turbohaul/manager.py:2768-2784 | a follow-up popped in the grace window is never refused a transition, so the drift branch is never taken; it ends ACTIVE unless the audit awaited between the two transitions is cancelled, and then in ACTIVE_MATCH |
| `TurbohaulQueues.PopAndPromoteRider` | src/turbohaul/manager.py:2124-2127 | nor does the promotion of a fan-out rider ever drift, whatever hint it was popped under |
| `TurbohaulQueues.TurbohaulQueue.Remove` | src/turbohaul/queue.py:300-308 | removes exactly the first slot with the id, staging before buffer |
| `TurbohaulQueues.TurbohaulQueue.Close` | src/turbohaul/queue.py:323-334 | empties both tiers, returns their contents in order, and closes |
| `QueueSpec.PopTakesOne` | src/turbohaul/queue.py:151-222 | a pop removes one entry of the waiting order, leaves the rest in order, and takes the first entry of its own model; it finds nothing only when nothing waits |
| `QueueSpec.EnqueueAppendsExactly` | src/turbohaul/queue.py:59-73 | a fresh request joins the end of the waiting order exactly when no buffered request waits while staging has room |
| `QueueSpec.PopPassesHeadExactly` | src/turbohaul/queue.py:193-222 | a pop takes an entry past the head exactly when a hint is given, the head is for another model and not too old, the run is not used up, and the entry is the first for the hinted model within the scan |
| `QueueSpec.PopPacksExactly` | src/turbohaul/queue.py:172-222 | exactly when a pop leaves nothing waiting in the buffer beside room in staging |
| `QueueSpec.AdmissionExactly` | src/turbohaul/queue.py:59-73 | refused exactly when closed or with both tiers at their caps; a head insert exactly when closed |
| `QueueSpec.MatchedPopExactly` | src/turbohaul/queue.py:268-298 | finds something exactly when a thread is named and a staged request is of that thread and model; takes the first such and leaves everything else as it was |
| `QueueSpec.RemoveExactly` | src/turbohaul/queue.py:300-308 | finds something exactly when a waiting request has the id, and takes the first such in waiting order out of its own tier |
| `QueueSpec.NothingAfterClose` | src/turbohaul/queue.py:323-334 | the close hands back everything in order; nothing waits or is admitted afterwards |
| `QueueSpec.MatchedPopPackedExactly` | src/turbohaul/queue.py:268-298 | a matched pop keeps the tiers packed exactly when the buffer is empty or staging stays full |
| `QueueSpec.PushBackRestoresExactly` | src/turbohaul/queue.py:239-252 | popping and pushing back at the head restores the waiting order exactly when the pop took the front |
| `QueueSpec.BatchOrderKeptExactly` | src/turbohaul/manager.py:1265-1284 | re-queueing a batch keeps its order exactly when it has at most one request; otherwise it comes back reversed |
| `QueueSpec.BatchOrderLost` | src/turbohaul/manager.py:1265-1284 | two drained requests come back swapped |
| `QueueSpec.CapOneTakesHeadExactly` | src/turbohaul/queue.py:193-222 | exactly when a hinted pop with a run-length cap of one takes the head |
| `QueueSpec.CapOneIsFifoAfterFirstPop` | src/turbohaul/queue.py:193-237 | after one pop a cap of one is strict first-in, first-out, whatever the hints |
| `QueueSpec.CapOneFirstPopOvertakes` | src/turbohaul/queue.py:193-222 | the very first pop can overtake even with a cap of one |
| `QueueRuns.NothingLostOrDuplicated` | src/turbohaul/queue.py:59-334 | over every sequence of all operations, what went in is exactly what came out plus what waits, as multisets |
| `QueueRuns.PerModelFifo` | src/turbohaul/queue.py:59-222 | over every run of enqueue, pop with arbitrary hints, and close, each model's pops come out in its enqueue order |
| `QueueRuns.NoHintIsFifo` | src/turbohaul/queue.py:151-222 | without hints the whole two-tier queue is first-in, first-out |
| `QueueFairness.FixedHintBound` | src/turbohaul/queue.py:193-237 | with a fixed hint and tail-only arrivals the request at staging index k is returned within (k + 1) * (cap + 1) pops; with matched pops, removals and the close in between, it is returned or withdrawn by then |
| `QueueFairness.FixedHintBoundReached` | src/turbohaul/queue.py:193-237 | the bound is attained at every index k with a place in staging behind it, for every cap of at least two, and for a cap of one at index 0: the request there is returned by pop (k + 1) * (cap + 1) and not before |
| `QueueFairness.AgedServedInOrder` | src/turbohaul/queue.py:193-222 | for arbitrary changing hints, once the request at staging index k and all ahead of it are older than the wait limit, the next k + 1 pops return exactly those, in order, also while the buffer waits behind a staging with room |
| `QueueFairness.AgedNeverOvertaken` | src/turbohaul/queue.py:193-308 | with matched pops, removals and the close in between, such a request is withdrawn or returned within k + 1 pops, after nothing but requests that were ahead of it |
| `Fsm.ForceCold` | src/turbohaul/manager.py:3283-3309 | walks a slot to COLD along the specified hops, and tells exactly when no legal hop existed |
| `Fsm.ColdWalkLegalExactly` | src/turbohaul/fsm.py:15-40 | the walk uses only legal transitions exactly from the states that are not stranded |
| `Fsm.PromotionLegalExactly` | src/turbohaul/fsm.py:26-36 | the match promotion is legal exactly from STAGED and ACTIVE, the rider promotion exactly from STAGED |
| `Fsm.ForcedFromLifeExactly` | src/turbohaul/manager.py:3283-3309 | forced cold at any point of an anchor's, rider's or follow-up's life, a slot stays inside the table throughout, except between the two transitions of a match's promotion, where nothing forces it |
| `Fsm.ColdWalkShortest` | src/turbohaul/fsm.py:15-40 | no legal path to COLD is shorter than the walk's |
| `Fsm.TableBothWays` | src/turbohaul/fsm.py:15-40 | the transition table read by the state entered agrees with the table read by the state left |
| `Fsm.Transition` | src/turbohaul/fsm.py:46-57 | moves exactly when the table allows it and otherwise changes nothing |
| `SingleSidecars.RunWorker` | src/turbohaul/manager.py:985-1088 | in every run, at every suspension, everything spawned and not yet handed to sigterm is referenced by the active or idle holder and at most one process is live; at the end only the idle holder's can be; and every request was served on a process spawned for its own model |
| `SingleSidecars.Worker.ProcessSlot` | src/turbohaul/manager.py:2398-3068 | however a slot ends, afterwards only the idle holder's process can be live; at most one process was spawned, and only after everything live had been handed to sigterm; without a cancellation nothing is active; the slot takes over the holder, spawning nothing, exactly when that is read as live, for its own model and before its expiry, and is otherwise never served on a process that was there before; a model without a manifest costs no other its warm process; with an idle window the process is held for its model |
| `SingleSidecars.Worker.HandOver` | src/turbohaul/manager.py:2964-3001 | with an idle window the process becomes the idle holder under the slot's model until now plus the window, unless an expiry was pending; without one it is torn down |
| `SingleSidecars.Worker.IdleTick` | src/turbohaul/manager.py:1011-1030 | exactly an expired holder gets an expiry task, and its deadline is cleared |
| `SingleSidecars.OwnExactly` | src/turbohaul/manager.py:3236-3281 | forcing a slot cold signals the active process exactly when the slot has its pid, at most one rider shares it, and no other slot is the active one |
| `SingleSidecars.Worker.ForceCold` | src/turbohaul/manager.py:3236-3281 | signals the active process exactly in the own-handle branch |
| `SingleSidecars.Worker.Teardown` | src/turbohaul/manager.py:3070-3145 | hands the active process to sigterm once and forgets it only when every step resumed |
| `SingleSidecars.SharedSparedExactly` | src/turbohaul/manager.py:3236-3265 | a slot that shares the active process is spared exactly when several riders share it or another slot is recorded as active |
| `SingleSidecars.DriftedMatchNotSpared` | src/turbohaul/manager.py:2772-2802 | were a matched follow-up's promotion refused, the sharing test would not spare its anchor's warm process |
| `SingleSidecars.ClearedPidNeverSignals` | src/turbohaul/manager.py:2287-2297 | a parked rider, its pid cleared first, never signals the shared process |
| `FanOuts.RunFanOut` | src/turbohaul/manager.py:2043-2396 | over every queue, completion and schedule the rider set stays within the width, the shared process is never signalled, nobody who left the queue is lost, every rider gets its own completion's ending, or the abort if something is cancelled, a candidate turned away is told that its client had gone exactly if it had and that its state drifted otherwise, and the riders left unanswered are exactly those of an admission that the environment's answers cancel |
| `FanOuts.RunStreams` | src/turbohaul/manager.py:2155-2235 | with a streaming anchor, unless the admission is cancelled, no rider is left and every rider's route is told to end; each caller is told its stream was served unless something is cancelled |
| `FanOuts.FanOut.DrainStreams` | src/turbohaul/manager.py:2155-2235 | every exit of the streaming barrier leaves no rider and every rider's event set |
| `FanOuts.AdmissionInterruptibleExactly` | src/turbohaul/manager.py:2081-2147 | the one-shot admission can be cancelled exactly when the width leaves room and the request at the front of the queue fits |
| `FanOuts.CancelledAtFirstRider` | src/turbohaul/manager.py:2081-2147 | when the environment's second answer is the cancellation, anchor and candidate are left as riders nobody answers |
| `FanOuts.FanOut.Drain` | src/turbohaul/manager.py:2305-2396 | every exit of the drain leaves no rider and no rider unanswered, each with its own ending or the abort |
| `FanOuts.FanOut.AdmitOne` | src/turbohaul/manager.py:2260-2303 | a candidate is admitted, turned away as evicted when its client has gone and as drifted otherwise, or pushed back, and no sibling is touched |
| `FanOuts.AdmittedTakes` | src/turbohaul/manager.py:2260-2303 | the admission takes a front part of the queue, all fitting, and those fit for promotion become riders in queue order within the width; uncancelled and with the queue not found empty it stops only at the width, at the queue's end or at a front that does not fit |
| `FanOuts.FanOut.Land` | src/turbohaul/manager.py:2349-2371 | a finished rider gets its own ending, is parked without signalling, and leaves its siblings as they were |
| `JsonScanner.BalancedObjectAt` | src/turbohaul/api/tool_call_recovery.py:66-97 | returns the least end at which the opened braces are balanced, or nothing exactly when there is none |
| `JsonScanner.ScannerAgreesWithJson` | src/turbohaul/api/tool_call_recovery.py:66-97 | for every printed JSON object, at any nesting and with any string contents, between any prefix and suffix, the scanner's end is the object's end |
| `JsonScanner.OuterEnd` | src/turbohaul/api/tool_call_recovery.py:163-172 | skips white space and returns the end just past a closing brace, or nothing exactly when another character follows |
| `JsonScanner.OuterEndExactly` | src/turbohaul/api/tool_call_recovery.py:151-173 | for every printed call the rule started at the end of the arguments finds the end of the whole call exactly when the arguments are its last member |
| `SpanRemoval.StripSpans` | src/turbohaul/api/tool_call_recovery.py:273-277 | for every list of in-range spans in any order, the descending deletions leave exactly the text outside the spans, in order, exactly when no two overlap or nothing uncovered is left from the earlier start of the two on; otherwise they leave less |
| `SpanRemoval.SortedDescending` | src/turbohaul/api/tool_call_recovery.py:275-276 | sorts by descending start, a permutation |
| `SpanRemoval.CutsExactWhenClean` | src/turbohaul/api/tool_call_recovery.py:273-277 | cutting in descending order never leaves too much, and loses text outside the spans exactly when a cut overlaps an earlier one with something uncovered from its start on |
| `NestedCalls.PrintedIsFound` | src/turbohaul/api/tool_call_recovery.py:151-173 | every printed call is a candidate: the scanner ends its arguments and the outer-end rule the call |
| `NestedCalls.InnerIsFound` | src/turbohaul/api/tool_call_recovery.py:151-173 | so is a call printed as the second member of another call's arguments |
| `NestedCalls.NestedCallsOvercutExactly` | src/turbohaul/api/tool_call_recovery.py:273-277 | for every such pair, between any texts, cutting both leaves exactly the text outside them exactly when nothing follows the outer call |
| `NestedCalls.TextAfterMessageLost` | src/turbohaul/api/tool_call_recovery.py:273-277 | a message with tool f called on a call of tool g, which the pattern matches both, loses text that follows it, whatever the tools and the surroundings |
| `NestedCalls.ToolCallReads` | src/turbohaul/api/tool_call_recovery.py:34-37 | the calls of that message read as the canonical shape |
| `SseReframe.CutsNeverMatterExactly` | src/turbohaul/live_monitor.py:155-166 | all ways of cutting a byte stream give the same frames and carry exactly when every frame stays below the carry cap with one delimiter byte and the remainder within it |
| `SseReframe.CutIsHarmlessExactly` | src/turbohaul/live_monitor.py:155-166 | one way of cutting gives the frames and remainder of the uncut stream exactly when no call throws its carry away |
| `SseReframe.FramesExactly` | src/turbohaul/live_monitor.py:155-161 | the framing is the one way to write the bytes as frames, each ending where its delimiter is first seen, and a remainder without one |
| `SseReframe.FeedExactly` | src/turbohaul/live_monitor.py:155-166 | a feed consumes the frames of carry and chunk and carries their remainder whole up to the cap, nothing of it beyond |
| `SseReframe.FramesAppend` | src/turbohaul/live_monitor.py:155-166 | framing a stream is framing its first part and then that part's remainder with the rest |
| `LiveOutput.GenBuf.Feed` | src/turbohaul/live_monitor.py:155-166 | feeding leaves the specified carry and appends exactly the text of the frames consumed, in order |
| `LiveOutput.GenBuf.Append` | src/turbohaul/live_monitor.py:216-222 | the tail stays the last characters of the transcript, and a subscriber that missed nothing holds a suffix of it |
| `LiveOutput.GenBuf.Subscribe` | src/turbohaul/live_monitor.py:224-239 | hands out the current tail as replay, up to the subscriber cap |
| `LiveOutput.GenBuf.MarkDone` | src/turbohaul/live_monitor.py:251-257 | every subscriber with room gets the done sentinel, and nothing of what any was given changes |
| `LiveOutput.LiveOutputBuffer.Unsubscribe` | src/turbohaul/live_monitor.py:241-249 | a finished buffer goes exactly with its last watcher, any other stays where it was |
| `LiveOutput.TailIsSuffix` | src/turbohaul/live_monitor.py:216-217 | the tail is an end of the transcript, exactly as long as its bound allows |
| `LiveOutput.OldestFreeGoes` | src/turbohaul/live_monitor.py:145-153 | while there are too many buffers the oldest unwatched one goes first |
| `LiveOutput.EvictedEnough` | src/turbohaul/live_monitor.py:145-153 | eviction takes no more than it must |
| `LiveOutput.NewKeyKeptExactly` | src/turbohaul/live_monitor.py:135-153 | there are never more than the permitted buffers, and a new one survives its own insertion exactly when there was room or another was unwatched |
| `LiveOutput.EvictionSparesWatched` | src/turbohaul/live_monitor.py:145-153 | eviction never drops a watched buffer and stops only at the cap or with none left unwatched |
| `LiveOutput.LiveOutputBuffer.Get` | src/turbohaul/live_monitor.py:135-143 | lookup moves a buffer to the young end, creates one, or fails exactly when every other buffer is watched at capacity |
| `LiveOutput.LiveOutputBuffer.Evict` | src/turbohaul/live_monitor.py:145-153 | the eviction loop leaves exactly the specified keys |
| `LiveOutput.TextIndependentOfCuts` | src/turbohaul/live_monitor.py:155-166 | however the stream is cut, the same text comes out as long as no carry is dropped |
| `Pagination.GetLogging` | src/turbohaul/api/logging.py:108-156 | a page is a prefix of the query's rows, not empty unless they are, cut only where the next event would not fit, within budget unless one oversized event, with the cursor where the rest begins |
| `Pagination.QueryExactly` | src/turbohaul/api/logging.py:108-134 | the rows asked for are the front of those that match, as many as the clamped limit allows |
| `Pagination.WalkAll` | src/turbohaul/api/logging.py:105-106 | on a fixed log the walk terminates and visits exactly the kept events, once each, in ascending order |
| `Pagination.WalkMissesNothing` | src/turbohaul/api/logging.py:105-106 | whatever is appended meanwhile, a finished walk has visited every kept event present at its start |
| `Pagination.WalkAscends` | src/turbohaul/api/logging.py:105-106 | the visited events ascend strictly, start at the cursor, and all belong to the log |
| `KvGate.EstimateBounds` | src/turbohaul/safety.py:256-274 | the nested-floor estimate never exceeds the exact value and falls short by less than (factor + 1) * ctx / 1024 + 1 MiB |
| `KvGate.EstimateGrows` | src/turbohaul/safety.py:256-274 | a longer context or larger model never gets a smaller estimate |
| `KvGate.FitsExactly` | src/turbohaul/safety.py:312-412 | branch by branch what the gate compares with the budget: body, KV cache and overhead; body, overhead and scratch with the cache in host memory that has to hold it; measured footprint and overhead; 256 MiB for every further slot; one slot passes without a probe |
| `KvGate.BudgetExactly` | src/turbohaul/safety.py:160-189 | a pinned model in range gets its own card's figure, out of range the first card's, an unpinned one the sum of all; none exactly without a reading |
| `KvGate.QuantScaleIsBits` | src/turbohaul/safety.py:230-243 | every quantisation factor is the type's bits over the sixteen of f16, and an unknown type counts as f16 |
| `KvGate.FitIsAntitone` | src/turbohaul/safety.py:312-412 | in every branch what fits keeps fitting with less context, a smaller model or fewer slots |
| `KvGate.PinnedBudgetWithinAggregate` | src/turbohaul/safety.py:160-189 | pinning never enlarges the budget and changes nothing with one card |
| `FlagsArgv.FlagsToArgv` | src/turbohaul/manifest.py:764-799 | builds the specified argument list, or refuses exactly when some key is not allowed |
| `FlagsArgv.ArgvDecodes` | src/turbohaul/manifest.py:764-799 | for every validated dictionary in any order the argument list decodes uniquely to it, less false toggles and with flash_attn as a word: on exactly when true, off exactly when false, its text lower-cased otherwise |
| `FlagsArgv.FlashAttnTold` | src/turbohaul/manifest.py:789-792 | dictionaries that differ only in whether flash attention is on never share an argument list |
| `FlagsArgv.WidthRoundTripExactly` | src/turbohaul/subprocess_mgr.py:120-132 | the width scanned from the argument list is the manifest's exactly unless a chat template named --parallel precedes a width other than one |
| `FlagsArgv.ScanWidth` | src/turbohaul/subprocess_mgr.py:120-132 | the scan computes the specified width |
| `FlagsArgv.IntRoundTrip` | src/turbohaul/manifest.py:797-798 | every integer parses back from its printed form |
| `GraceTimers.GraceTimer.RestartForFollowup` | src/turbohaul/queue.py:358-364 | extends the window and counts it exactly while the cap is not reached |
| `GraceTimers.GraceLoop` | src/turbohaul/manager.py:1886-1941 | the loop goes on exactly while the current window is open, which exactly the first permitted follow-ups reopen; however many arrive, the time spent waiting is at most one grace window, one more per extension taken, and the poll that overruns the last deadline |

## Left out

- HTTP routes, SSE and WebSocket endpoints, the frontend: input and output only.
- SQLite rows, audit events, telemetry, the sweeper, log lines: side records; audits are taken not to raise.
- Regular expressions, YAML and model validation, hashing, /proc scans, GPU command-line parsing: outside the protocol. The regular expressions that find candidate calls are not modelled; the scanner and the outer-end rule are modelled from the positions they start at.
- Health checks, spawning, completion, the memory probe and clocks: arbitrary answers of the environment. Processes are numbered; reuse of a pid by the operating system is not modelled.
- DispatcherSafety.QuiescenceLosesNothing: does not cover a shutdown whose bounded drain times out and cancels detached tasks, nor a detached task cancelled before its first instruction; only the backoff task's own cancellation path is modelled.
- DispatcherSafety.ExactlyOneOwner: takes a request out of a non-empty inbox in the same step as the await that asks for it, which `asyncio.wait_for` does not do before Python 3.12; no second cancellation lands inside a driver's own cleanup; and a rider's task ends by resolving its future, as it does unless the event loop cancels it directly (manager.py:1999-2005).
- DispatcherSteps.StepKeepsInv: the completion of a whole cleanup after its reap is one action, and reaps themselves are not followed beyond the hand-over.
- Dispatcher capacity that changes while requests are in flight, and the keep-alive arithmetic that decides whether an idle window exists: the outcome is an arbitrary answer.
- ResidentManagers.Manager.RouteOrReserve: the queue inside the manager object is a value; its own in-place updates are in `TurbohaulQueues`.
- SingleSidecars.RunWorker: takes the sigterm helper to return or to be interrupted by a cancellation, not to raise; the shutdown that gives up the last idle holder is not modelled.
- FanOuts.RunFanOut: each completion ends in a result or an ordinary error; the queue hands out candidates in a fixed order, arrivals included.
- TurbohaulQueues.TurbohaulQueue.PopNext: `peek_staging` and `depth` are not modelled; they only read.
- LiveOutput.GenBuf.Append: what a frame's JSON yields is an arbitrary function of the frame.
- Pagination.GetLogging: sizes are the encoded lengths the code adds up, separators not included, as in the code; redaction is not modelled.
- KvGate.EstimateBounds: the scale factors are exact fractions, not binary floating-point numbers.
- FlagsArgv.WidthRoundTripExactly: the allowlist is a parameter with the properties the proof needs, not the table itself; `int` is modelled on plain decimal texts, the only ones that can follow a flag here; `_validate_parallel_ctx` is not modelled.
- GraceTimers.GraceLoop: a sleep may overrun its nominal length by any amount up to a bound, which is a parameter.
