# go-atomos: the concurrent protocols, modelled and proved in Dafny

go-atomos is an actor runtime. This project models the small concurrent protocols it rests on and
proves what they promise: the linked mailbox and its run/stop protocol, the life of atoms under their
names, the wait-graph deadlock detector, the task scheduler with its serial queues, the ledger of
asynchronous callbacks, the cluster's version lock, keys and routing, the trip of call arguments to a
remote process, and the static cycle finder of `atomos-vet`.

`dafny verify dfyconfig.toml` checks everything.

## How to read it

Each protocol has a *value model*: a datatype for the shared state, one event per region of code that
runs under a lock, a total function `Apply` (an event that cannot happen changes nothing) and `Run`,
which folds a list of events. A list of events is one interleaving of any number of goroutines, so a
lemma about `Run(es)` for all `es` is a statement about every run. `StepKeeps` and `RunKeeps` carry
the inductive invariant of each module; the named theorems follow from it. Safety alone would also
hold of a system that does nothing, so each module, with `TaskEffects` and `SpawnEffects`, also says
what the steps bring about: after every run, on the fields of the state that is reached.

Where the code updates objects in place there is also a *class* whose methods follow the code's own
order of tests, loops and updates. Their postconditions tie the new abstract value to the value
model, so the theorems about runs are theorems about what those methods do. The linked mailbox is a
real pointer structure: `spine` is its ghost sequence of nodes, and `Valid` says that the chain from
`head` visits exactly these nodes once, ends in `tail` and then in null.

| file | models |
|---|---|
| `MailBox.dfy`, `MailLoop.dfy` | the mailbox: linked queue, then senders, removers and loop |
| `SpawnLock.dfy` | the reference-counted map and the per-name spawn lock |
| `Lifecycle.dfy`, `SpawnEffects.dfy` | spawning, getting, killing and collecting atoms: what no step breaks, and what each brings about |
| `References.dfy`, `Element.dfy` | reference trackers and the element's tables across respawns, method by method |
| `ElementRaces.dfy` | the same methods cut at every lock |
| `WaitGraph.dfy` | the deadlock detector of synchronous calls |
| `TaskQueue.dfy`, `TaskEffects.dfy`, `SerialQueue.dfy` | the task scheduler, what its steps bring about, and its self-closing serial queues |
| `AsyncLedger.dfy` | asynchronous callbacks |
| `VersionLock.dfy`, `Routing.dfy`, `EtcdKeys.dfy`, `Strings.dfy` | the cluster |
| `CallArgs.dfy` | call arguments and their remote form |
| `CycleFinder.dfy`, `CycleKey.dfy` | the static search for cycles of synchronous handlers |

## Where the code does less than it seems

These are stated as exact conditions or as concrete runs, and the code is kept as it is.

- The mail counter of a mailbox is a `uint32`. A serial queue therefore closes when the number of
  its mails is any multiple of 2^32, not only when there is none (`SerialQueue.ClosesExactly`).
  Below that size it stops with nothing left (`SerialQueue.StopsWithNothingLeft`); a flooded queue
  leaves accepted mails behind (`SerialQueue.FloodedQueueLosesMails`).
- Async ids of an atom and its successor under the same name stay apart exactly when the
  predecessor's ledger had been cleared at the takeover (`AsyncLedger.IdsStayApartIffCleared`). A
  predecessor whose start failed never cleared it.
- A referenced atom can lose its entry, because every method that collects works in several locked
  regions. `ElementRaces` cuts them at every lock and states, for every run and step, exactly when it
  happens: the entry is replaced, or a collector for it takes its last step (the hook of a drained
  cell only if the atom is halted by then) and a reference still held escaped the count the collector
  rests on (`ElementRaces.ReferencedLeavesExactly`). If all references to the atom sat in the
  reference state that the collector looked up, that is: a reference was recorded between its two
  halves and is still held (`ElementRaces.LostToLateReferenceExactly`). Runs reach it in three ways:
  a get inside `elementAtomStopping`; a get and a halt between the drain of the last cell in
  `IDTracker.Release` and its hook; and a reference recorded in a state that another collector had
  just retired (`GetDuringStoppingIsLost`, `GetDuringReleaseIsLost`, `OrphanedReferenceIsLost`). It
  never happens when each of these methods, `IDTracker.Release` included, is one step
  (`ElementRaces.ReferencedStaysListed`, which follows from the exact condition).
- The task scheduler reports a framework error or a fatal one in exactly two kinds of steps
  (`TaskQueue.FaultsExactly`). One is the cancel of a delayed task between the setting of its helper
  and the store of its timer field, which leaves the task scheduled (`TaskQueue.CancelFailsExactly`).
  The other is a mail that a stopped mailbox refuses: that of an immediate task, that of a timer that
  fires, or that of a worker's callback; for a queue task only if it has no cancel callback, which is
  called instead. The worker of a refused task never runs (`TaskQueue.RefusedNeverRuns`); an after
  task refused this way is neither contained, run nor cancelled (`TaskQueue.AfterCanBeRefused`). Every
  task has exactly one fate, this one included (`TaskQueue.ExactlyOneFate`).
- A delayed task of a serial queue keeps the mailbox it was given when it was added. It is refused
  exactly if the worker of that mailbox has closed it since (`SerialQueue.PushAcceptedExactly`), which
  one other task of the queue is enough for (`SerialQueue.DelayedTaskIsRefused`).
- `Cancel` with the id of a contained queue task takes the manager mutex that it holds, and never
  returns (`TaskQueue.CancelBlocksExactly`); from then on the manager is at a standstill
  (`TaskQueue.StuckForGood`).
- A refused `Add` answers the id 0, which is also the id of every mail that is not a task's. `Cancel`
  of 0 takes the first such mail out of the mailbox (`MailLoop.RemovalTakesFirst`), even the exit
  command (`MailLoop.ExitCanBeTaken`).
- `cosmosRemoteVersion.version` is never assigned, so `etcdDeleteVersion` always clears `current`;
  the following `refresh` restores it. The model keeps the empty field.

## Model

| member | source | states |
|---|---|---|
| MailSpec.CounterFollowsAdding | mail.go:270-311 | Pushes and the stop keep the counter equal to the queue length as a uint32, across a wrap too |
| MailSpec.CounterFollowsRemoving | mail.go:226-400 | Pops and removals keep it; a non-zero counter means the queue has a mail |
| MailBoxes.MailBox.constructor | mail.go:161-176 | A new mailbox is a valid chain with no mail, not running |
| MailBoxes.MailBox.Start | mail.go:212-220 | The first region of a start: running from here on; a second start is refused and changes nothing |
| MailBoxes.MailBox.StartFailed | mail.go:458-464 | The second region, after a failed hook: not running, and the mails accepted in between stay in place |
| MailBoxes.MailBox.PushHead | mail.go:270-287 | Refused and unchanged if not running; otherwise the mail is put in front of the others and the chain stays valid |
| MailBoxes.MailBox.PushTail | mail.go:293-311 | Refused and unchanged if not running; otherwise the mail is put behind the others and the chain stays valid |
| MailBoxes.MailBox.WaitPop | mail.go:226-251 | Takes the first mail, unlinked, and leaves the rest as a valid chain |
| MailBoxes.MailBox.GetById | mail.go:253-268 | Finds the first mail with the id, and none exactly if there is none |
| MailBoxes.MailBox.PopAll | mail.go:315-330 | Hands over the whole chain, intact and in order, with its count, and leaves nothing |
| MailBoxes.MailBox.PopById | mail.go:334-368 | Removes the first mail with the id from wherever it is; without one nothing changes |
| MailBoxes.MailBox.RemoveMail | mail.go:370-400 | Removes exactly the given mail; answers whether it was there |
| MailBoxes.MailBox.StopIfNoMail | mail.go:428-453 | Stops a running mailbox exactly if its counter reads zero, and then puts an exit mail in front |
| MailLoop.ExactlyOneFate | mail.go:468-571 | In every run each accepted mail is delivered once, removed once, handed to `mailboxOnStop` once, in the loop's hand or still queued, exactly one of these; a refused mail none |
| MailLoop.ExitHeadsTheStop | mail.go:524-546 | Only ordinary mail is delivered; the exit command heads what `mailboxOnStop` gets, and only a stopped loop has handed anything to it |
| MailLoop.ExitCloses | mail.go:524-536 | Once the exit command was met, or the start failed, the mailbox refuses mail |
| MailLoop.UnstartedKeepsItsMail | mail.go:455-466 | While a start is not over, or after it failed, nothing is delivered or handed to `mailboxOnStop`; what was accepted is still queued or was removed |
| MailLoop.NothingAcceptedAfterExit | mail.go:524-546 | From then on nothing is accepted or delivered whatever senders do; a stopped loop never changes |
| MailLoop.RejectedIsNeverDelivered | base_atomos_mails.go:305-336 | A timed-out sender is told "rejected" exactly when its mail was still queued, and then no later step delivers it or hands it to `mailboxOnStop` |
| MailLoop.RemovalTakesFirst | mail.go:334-368 | A removal by id takes exactly the first queued mail with the id, of whatever kind, if there is one |
| MailLoop.ExitCanBeTaken | atomos_task_manager.go:441-447 | A run in which a cancel of the id 0 takes the exit command out of the mailbox |
| MailLoop.DeliveredIsPrefixOfAccepted | mail.go:293-311 | With tail pushes only, delivered, in hand, stopped and queued mails spell out the accepted list in order |
| MailLoop.PushIsAcceptedExactly | mail.go:270-311 | In every run a new mail is taken in exactly if the mailbox is running, a head push in front of the others and a tail push behind them |
| MailLoop.StartSucceeds | mail.go:455-466 | A start-up hook that succeeds sets the loop going and changes no mail |
| MailLoop.FirstMailIsDelivered | mail.go:226-251 | A waiting loop takes the first mail exactly if the number of mails is no multiple of 2^32, delivers it if it is an ordinary one, and goes on with the rest |
| MailLoop.ExitStopsMailbox | mail.go:524-546 | An exit command that is taken stops the mailbox, and it and all mails left go to the stop hook in order |
| MailLoop.StopsIfNoMailExactly | mail.go:428-453 | It stops a running mailbox exactly if the number of mails is a multiple of 2^32, and the exit command is then the next mail |
| MailLoop.OrderIsKept | mail.go:226-453 | The order of two mails, once settled, stays as it is in every extension, until one of them is removed |
| MailLoop.HeadOvertakesTailDoesNot | mail.go:270-311 | A mail pushed to the head is delivered before all that are queued, and one pushed to the tail after them, in every extension in which neither is removed |
| MailLoop.StepKeeps | mail.go:226-453 | Every locked region keeps the conservation of mails |
| RefCountMaps.MapGoWithRefCount.GetOrPut | util_sync_map.go:132-148 | Answers the stored value, storing the given one if there is none, and counts one more use |
| RefCountMaps.MapGoWithRefCount.Put | util_sync_map.go:150-157 | Stores the value; on a consistent map it stays consistent, a used key keeps its count and a new key has one use, which one removal undoes |
| RefCountMaps.PutKeepsUses | util_sync_map.go:150-170 | A put changes no other key and no count in use; for a new key one removal restores the map; for a used key exactly its old uses empty it, as if the put had not been |
| RefCountMaps.MapGoWithRefCount.Remove | util_sync_map.go:159-170 | Takes one use off; the last one removes the entry |
| RefCountMaps.RemoveUndoesGet | util_sync_map.go:132-170 | A removal after a get restores both maps |
| RefCountMaps.RemovesUndoGets | util_sync_map.go:132-170 | n gets and k removals leave n - k gets, with the key in place while k < n |
| SpawnLock.MutualExclusion | element_local.go:559-566 | In every run of any number of threads, at most one is between `Lock` and `Remove` of a name, although the entry leaves the map before the mutex is unlocked |
| SpawnLock.CountIsUsers | element_local.go:559-566 | The count of a name is the number of threads between `GetOrPut` and `Remove`; all hold the mapped mutex; the entry is there exactly while somebody uses it |
| SpawnLock.EnterWaitsOnMapped | element_local.go:559-560 | A thread that asks for a name waits on the mutex that the users of the name have, or, if there are none, on one that no thread has |
| SpawnLock.AcquiresExactly | element_local.go:561 | A waiting thread gets in exactly if no thread holds its mutex, and otherwise goes on waiting |
| SpawnLock.WaiterGetsItsTurn | element_local.go:562-565 | After the two steps in which a thread leaves, a thread waiting for the same mutex gets in |
| SpawnLock.StepKeeps | element_local.go:559-566 | Every step of a thread keeps this |
| Lifecycle.OneRunningPerName | element_local.go:542-680 | In every interleaving of spawns, gets, kills, halts, releases and the stopping timeout, of all instances ever created under a name at most one is Spawning, Waiting or Busy, and it is the entry in `atoms` |
| Lifecycle.StoppedStaysStopped | base_atomos.go:616-690 | An instance that stopped running never runs again; only a new instance revives the name |
| Lifecycle.MetIsNotFresh | element_local.go:585-600 | The instance a spawner meets under its name is never one that is still being started |
| Lifecycle.NeverRevived | element_local.go:585-680 | No single step makes a stopped instance live |
| SpawnEffects.LookDecides | element_local.go:569-631 | From any run, a thread that looks at a name ends up done if the entry is running, with an error for a spawner and a reference for a getter, and otherwise, whether there is no entry, a halted or a stopping one, about to create a new instance |
| SpawnEffects.ExamineDecides | element_local.go:585-631 | The same for a thread that met an instance, going by the state it is in by then, whatever happened since it was read |
| SpawnEffects.CreateInserts | element_local.go:633-665 | A thread about to create makes a new instance the entry of its name, or, if the constructor fails, changes nothing |
| SpawnEffects.SpawnMakesNew | element_local.go:569-665 | Spawning a name without a running instance makes a new instance under that name and changes no other |
| SpawnEffects.StartSucceeds | element_local.go:667-682 | A start that succeeds leaves the instance Waiting as the entry, referenced by its spawner |
| SpawnEffects.FailedSpawnIsRemoved | element_local.go:667-779 | A start that fails leaves a halted instance, and no entry unless it is referenced |
| SpawnEffects.WorksAndRests | base_atomos.go:632-644 | A Waiting instance takes up a mail and comes back |
| SpawnEffects.StopEndsHalted | base_atomos.go:763-930 | A running instance that is stopped ends halted, and without its entry exactly if it was counted as unreferenced |
| SpawnEffects.StoppingHalts | base_atomos.go:799-800 | A stopping instance halts, and its entry stays as it is by then, also if its stop never came to the collection |
| SpawnEffects.GetterRefers | element_local.go:267-281 | A getter refers to the instance it has read exactly if it finds it not halted |
| SpawnEffects.DrainedCollects | element_local.go:707-737 | The release of the last reference takes away the entry of a halted instance, and no other |
| SpawnEffects.EntriesChangeExactly | element_local.go:542-812 | In every run an entry appears exactly by the insert of a spawner, never changes otherwise, and goes exactly by a collector of that instance, which is no longer running |
| SpawnEffects.OnlyItselfMoves | base_atomos.go:616-672 | The state of an instance is changed by its own mailbox goroutine alone |
| SpawnEffects.LockRuns | element_local.go:542-566 | The spawn lock in any run of atoms is in a state of a run of its own, so that what `SpawnLock` proves holds here |
| SpawnEffects.EntersTheLock | element_local.go:559-566 | A thread gets to look at a name that nobody is spawning |
| SpawnEffects.NextLooks | element_local.go:559-566 | When a thread is done with a name and leaves, one waiting for it gets to look |
| Lifecycle.StepKeeps | element_local.go:542-812 | Every step of every thread and mailbox goroutine keeps the invariant behind these |
| RefCells.IDTracker.Release | atomos_id_tracker.go:193-208 | Gives one reference back to its own instance's cell, once; a second release changes nothing; asks for collection exactly when no tracker of the instance is left |
| RefCells.AtomRefState.AddRef | atomos_id_tracker.go:51-83 | Adds one tracker, unreleased and bound to the instance, and one to its cell |
| RefCells.AtomRefState.ReleaseCell | atomos_id_tracker.go:87-109 | Takes one off the cell and removes it at zero; tells whether it just drained |
| RefCells.AtomRefState.RefCount | atomos_id_tracker.go:112-119 | The number of unreleased trackers bound to the instance |
| RefCells.AtomRefState.IsEmpty | atomos_id_tracker.go:121-127 | True exactly if every tracker ever handed out was released |
| Element.ElementLocal.AddRefAtom | element_local.go:685-697 | Counts a reference of the instance in the current reference state of its name, made if there is none |
| Element.ElementLocal.OnInstanceRefsDrained | element_local.go:707-737 | Removes the entry only of a halted instance that still is the entry, and the reference state only if it is empty and the name is free |
| Element.ElementLocal.ElementAtomRelease | element_local.go:739-779 | Collects a halted, unreferenced instance that still is the entry, and touches nothing otherwise |
| Element.ElementLocal.ElementAtomStopping | element_local.go:781-812 | Collects an unreferenced instance that still is the entry |
| Element.ElementLocal.GetAtomFromRemote | element_local.go:879-902 | Answers the entry only if it is not halted and is the instance the caller names |
| Element.CountIsReferenced | atomos_id_tracker.go:112-119 | A count read through the name is positive exactly if somebody holds an unreleased reference to the instance |
| Element.ReferencesAreConserved | atomos_id_tracker.go:51-109 | In every run, across respawns, each cell is the number of unreleased trackers of its instance, and positive |
| Element.ReleaseTouchesOneCell | atomos_id_tracker.go:87-109 | Double release changes nothing; a release takes one off the cell of its own instance and leaves every other alone, the respawned instance's included |
| Element.ElementLocal.FindRefState | element_local.go:685-693 | The reference state of the name, made if there is none |
| Element.ElementLocal.AddRef | atomos_id_tracker.go:51-83 | One more tracker and one more in the cell of its instance, in the state that was looked up |
| Element.ElementLocal.DeleteStopping | element_local.go:794-806 | The deletion, whatever happened since the reads: the entry goes if it still is the instance, the reference state if the one read is empty |
| Element.ElementLocal.DeleteReleased | element_local.go:757-773 | The same for the clean-up of a failed start, which does nothing once the entry is another instance |
| Element.ObjectHasTheseCells | atomos_id_tracker.go:51-127 | A reference state object and a reference state kept by id with equally many open trackers have equal cells |
| Element.AddRefOfObject | atomos_id_tracker.go:51-83 | The object's `addRef` changes its cells as the region here does |
| Element.ReleaseOfObject | atomos_id_tracker.go:193-208 | The tracker object's `Release` changes cells and flag as here, and runs the hook exactly when it runs here |
| ElementRaces.ReferencedLeavesExactly | element_local.go:685-812 | For every run and step of the regions: a referenced instance leaves `atoms` exactly if it is replaced, or a collector for it takes its last step (for the drain hook, with the instance halted) and a reference still held was not counted |
| ElementRaces.LostToLateReferenceExactly | element_local.go:707-812 | If all references sat in the state the collector looked up, the entry is lost exactly if it is still there (and halted, for the hook) and a reference recorded between the two halves is still held |
| ElementRaces.GetDuringStoppingIsLost | element_local.go:781-812 | A run in which a get between count and deletion loses its entry |
| ElementRaces.GetDuringReleaseIsLost | atomos_id_tracker.go:193-208 | A run in which a get and a halt between the drained cell and its hook lose the entry |
| ElementRaces.OrphanedReferenceIsLost | element_local.go:685-812 | A run in which a reference recorded before the collector began is out of its sight, in a retired state |
| ElementRaces.AtomicIsCut | element_local.go:685-812 | Every run with atomic methods is a run of the regions |
| ElementRaces.ReferencedStaysListed | element_local.go:685-812 | With element methods and `IDTracker.Release` atomic, no referenced instance leaves `atoms` except by replacement; derived from the exact condition |
| ElementRaces.RunIsTraced | element_local.go:685-812 | The positions in the exact condition are those of the recording of a reference and of the first read of a collector |
| ElementRaces.StepKeeps | element_local.go:685-812 | Every region keeps conservation, and what each collector counted is released |
| Element.LastReleaseCollects | element_local.go:707-737 | The last release of a halted instance removes its entry |
| Element.StaleHandleIsRejected | element_local.go:879-902 | An instance that lost its entry is never resolved for a remote caller again |
| Element.ResolvedExactly | element_local.go:879-902 | In every run, for every name and id: an instance is resolved exactly if the caller names it, it is the entry and it is not halted, and no other is ever resolved for that id |
| Element.HaltedIsNeverResolved | element_local.go:888-901 | Once halted, an instance is resolved in no extension of the run, listed or not |
| Element.SpawnLists | element_local.go:647-665 | A spawn lists a new instance, not halted, in place of the old one, resolved at once |
| Element.GetCountsOne | element_local.go:685-697 | A reference recorded for a get or a spawn counts one for that instance and makes one tracker; a get of a halted or missing entry counts nothing |
| Element.UnhaltedStaysListed | element_local.go:707-779 | An instance that is not halted is never taken off the table by the clean-up of a failed start or the drain of its last cell |
| Element.UnreferencedIsCollected | element_local.go:739-812 | An unreferenced instance that stops, or whose failed start is cleaned up, loses its entry, and its name the reference state once it is empty |
| Element.StateStays | element_local.go:727-809 | In every run a reference state is retired only when it is empty, and by a release only when its name has no entry |
| Element.LastReleaseRetiresState | element_local.go:727-731 | The last release under a name without an entry retires the reference state |
| Element.StepKeeps | element_local.go:685-812 | Every element method keeps conservation and the placement of references |
| WaitGraph.CosmosProcess.DetectDeadlockAndWait | cosmos_process.go:181-211 | Terminates; answers true exactly if the target reaches the caller; otherwise registers the edge; the graph stays acyclic |
| WaitGraph.CosmosProcess.RemoveWaitEdge | cosmos_process.go:214-221 | Removes the edge of the goroutine and nothing else; the graph stays acyclic |
| WaitGraph.CosmosProcess.WaitChain | cosmos_process.go:226-247 | Terminates with the walk from `from`, ending at `to` exactly if it is reached |
| WaitGraph.CosmosProcess.BeginSyncCall | base_atomos.go:216-234 | A call between two goroutines with ids is refused exactly if its edge would close a cycle, a self-call included, and has its edge registered exactly otherwise; without an id nothing is registered |
| WaitGraph.AcyclicMeansNoCycle | cosmos_process.go:174-211 | The graph is acyclic exactly if there is no list of goroutines each waiting for the next and the last for the first |
| WaitGraph.RefusesExactlyCycles | cosmos_process.go:181-211 | The detector refuses exactly the edges that would close a cycle |
| WaitGraph.AddingKeepsAcyclic | cosmos_process.go:181-211 | An edge that is not refused keeps the graph acyclic |
| WaitGraph.RemovingKeepsAcyclic | cosmos_process.go:214-221 | So does removing one |
| WaitGraph.RunKeepsAcyclic | base_atomos.go:216-257 | The wait graph is acyclic and without self-edges in every reachable state |
| WaitGraph.WaitsExactly | base_atomos.go:216-257 | In every run a goroutine that is not waiting gets to wait for another exactly if no list of goroutines waiting in a circle comes of it, changing no other edge, and the end of the call takes the edge away |
| WaitGraph.BlockedChainEndsAtRunning | base_atomos.go:216-257 | In every run the chain of any blocked goroutine ends at one that is not waiting |
| TaskQueue.TaskManager.GenTaskID | atomos_task_manager_queue.go:381-400 | The next id, contained, Scheduling if delayed and Mailing otherwise, without a helper yet |
| TaskQueue.TaskManager.InitTask | atomos_task_manager_queue.go:607-617 | The task gets its helper, outside the mutex |
| TaskQueue.TaskManager.StartTimerOf | atomos_task_manager_queue.go:67-70 | The timer may fire from here on, before its field is stored |
| TaskQueue.TaskManager.StoreTimerOf | atomos_task_manager_queue.go:67-70 | The timer field is stored |
| TaskQueue.TaskManager.AddToQueue | atomos_task_manager_queue.go:151-172 | The mail is queued exactly if the mailbox takes it, and refused otherwise |
| TaskQueue.TaskManager.AddToAtomos | atomos_task_manager_queue.go:54-94 | A delayed task gets its timer, an immediate one its push |
| TaskQueue.TaskManager.Add | atomos_task_manager.go:199-226 | A closure is mailed and never contained; a refused one answers no id |
| TaskQueue.TaskManager.AddAfter | atomos_task_manager.go:231-306 | A contained Scheduling task with an armed timer |
| TaskQueue.TaskManager.TimerFires | atomos_task_manager_queue.go:103-149 | Mails a Scheduling task, drops a Cancelled one from the container, and ignores one that is not contained |
| TaskQueue.TaskManager.StartHandling | atomos_task_manager_queue.go:174-211 | Runs a Mailing task or a closure; a Cancelled one is skipped |
| TaskQueue.TaskManager.FinishTask | atomos_task_manager_queue.go:213-223 | The executed task is Done and leaves the container |
| TaskQueue.TaskManager.CancelTaskQueue | atomos_task_manager_queue.go:241-363 | Cancels Scheduling and Mailing tasks, only the former leaving the container, and answers an error for the others |
| TaskQueue.TaskManager.CancelTask | atomos_task_manager.go:383-448 | On behalf of the halt, which holds the mutex: a task with a helper is cancelled as a queue task, one without by its timer or by taking its mail back |
| TaskQueue.TaskManager.Cancel | atomos_task_manager.go:333-342 | Never returns exactly for a contained task with a helper; otherwise cancels by the timer or by taking the mail back, which for the id 0 is some other mail's |
| TaskQueue.TaskManager.DrainMail | base_atomos.go:865-873 | A remaining task mail at the halt: its task is cancelled, or the mail thrown away |
| TaskQueue.TaskManager.CancelAllSchedulingTasks | atomos_task_manager.go:357-370 | Cancels each contained task on its own and changes no other; the answer is as many zeros as there were tasks, then the ids cancelled with success, once each |
| TaskQueue.RunsOrIsCancelledOnce | atomos_task_manager_queue.go:174-363 | In every run of timers, mailboxes, cancels and the halt, a worker runs at most once, is cancelled with success at most once, never both, and its mail is in one place at most |
| TaskQueue.ExactlyOneFate | atomos_task_manager_queue.go:54-400 | In every run each task ever made has exactly one fate: scheduled, mail on its way, run, cancelled with success, push refused, or thrown away by the halt |
| TaskQueue.AbsentIsSettled | atomos_task_manager_queue.go:208-363 | A queue task absent from `tasks` is Done or Cancelled, and its mail is gone; it ran exactly if it is Done |
| TaskQueue.HandledRunsUnlessCancelled | atomos_task_manager_queue.go:190-211 | A mail that reaches its handler runs the worker exactly if no cancel has succeeded and, for a queue task, the mutex can be had |
| TaskQueue.FaultsExactly | atomos_task_manager_queue.go:103-311 | In every run the branches reported as framework errors or fatal, here, in the timer closure of `AddAfter`, in `cancelTask`, in the refused push and in the mailing of a worker's callback, are taken exactly by a cancel of a delayed task whose timer field is not stored yet, or by the refusal of a mail for which no cancel callback stands in |
| TaskQueue.CancelFailsExactly | atomos_task_manager_queue.go:258-281 | A cancel of any task answers with the framework error exactly between the setting of a delayed task's helper and the store of its timer |
| TaskQueue.CancelCanFail | atomos_task_manager_queue.go:54-77 | Runs that get there, before and after the timer is started |
| TaskQueue.PushCanBeRefused | atomos_task_manager_queue.go:159-164 | A run in which an immediate task without a cancel callback is refused and reported |
| TaskQueue.AfterCanBeRefused | atomos_task_manager.go:291-296 | A run in which the timer of an after task meets a stopped mailbox: fatal, and the task is gone without a run or a cancel |
| TaskQueue.RefusedNeverRuns | atomos_task_manager_queue.go:159-164 | The worker of a refused task never runs in any extension of the run |
| TaskQueue.CancelBlocksExactly | atomos_task_manager.go:333-390 | `Cancel` holds the mutex for ever exactly if the id is that of a contained task with a helper |
| TaskQueue.StuckForGood | atomos_task_manager_queue.go:246-250 | From then on no task is added, started, ended or cancelled, and no timer mails |
| TaskQueue.SettledForGood | atomos_task_manager_queue.go:174-363 | Done and Cancelled are final, and so are the counts of runs and cancels |
| TaskQueue.SuccessIsCounted | atomos_task_manager_queue.go:241-363 | A cancel answers success exactly when it counts as one |
| TaskEffects.TimerMailsTask | atomos_task_manager_queue.go:103-149 | In every run, a timer that may fire on a contained Scheduling task makes it Mailing and mails it once, a queue task staying contained; a mailbox that refuses gets none |
| TaskEffects.StaleTimerIsIgnored | atomos_task_manager_queue.go:103-149 | A timer that may fire otherwise is that of a cancelled task that has left the container, and firing does nothing |
| TaskEffects.MailedTaskRuns | atomos_task_manager_queue.go:174-223 | A mailed task that is delivered and handled runs once; a queue task is Executing, then Done and out of the container |
| TaskEffects.TimerRunsWorker | atomos_task_manager_queue.go:103-223 | A timer that fires, its mail delivered and handled: the worker has run exactly once |
| TaskEffects.ImmediateTaskIsMailed | atomos_task_manager_queue.go:54-94 | After its adder's steps an immediate task is Mailing with one mail queued |
| TaskEffects.DelayedTaskIsDue | atomos_task_manager_queue.go:54-77 | After its adder's steps a delayed task is contained, Scheduling, its timer armed and stored |
| TaskEffects.DeprecatedTaskIsReady | atomos_task_manager.go:199-306 | `Add` mails a closure at once, uncontained; `AddAfter` leaves a contained Scheduling task with an armed timer |
| TaskEffects.CancelAnswersByState | atomos_task_manager_queue.go:241-363 | In every run a cancel of a task with a helper succeeds exactly in Mailing, or in Scheduling once the adder has finished; is-running, is-done and already-cancelled are answered exactly in Executing, Done and Cancelled |
| TaskEffects.CancelWorks | atomos_task_manager_queue.go:258-317 | After a success the task is Cancelled with one cancel counted, its mail is out of the mailbox, a stoppable timer stopped, and in no extension does the worker run |
| TaskEffects.FailedCancelChangesNothing | atomos_task_manager_queue.go:241-363 | A cancel that answers anything else changes nothing |
| TaskEffects.CancelByIdWorks | atomos_task_manager.go:344-448 | The same for an after task or a closure, cancelled by its timer or by taking the mail back, and the error otherwise |
| TaskEffects.DrainedMailIsGone | base_atomos.go:865-873 | A mail that the halt meets is gone: a queue task is Cancelled, or settled before; the mail of another is thrown away |
| TaskQueue.StepKeeps | atomos_task_manager_queue.go:54-400 | Every locked region keeps the invariant behind these |
| SerialQueue.SerialQueues.GetTaskSerialMailbox | atomos_task_manager_queue.go:402-412 | The mapped mailbox of the name, or a new running one that becomes it |
| SerialQueue.SerialQueues.CheckCloseTaskSerialMailbox | atomos_task_manager_queue.go:421-432 | Stops the mapped mailbox of the name and unmaps it exactly if its counter reads zero |
| SerialQueue.AtWorkIsMapped | task_mailbox.go:26-34 | Every entry of `queueMap` is running under its own name, and a mailbox at work is the mapped one |
| SerialQueue.NoOverlap | atomos_task_manager_queue.go:402-432 | Tasks of one named queue never overlap, although its mailbox is destroyed and created again |
| SerialQueue.ChecksItself | atomos_task_manager_queue.go:421-432 | The check, which looks its queue up by name, always acts on the mailbox that called it |
| SerialQueue.ClosesExactly | mail.go:428-453 | A check closes its queue exactly if the number of its mails is a multiple of 2^32, and then leaves exactly those mails behind |
| SerialQueue.StopsWithNothingLeft | task_mailbox.go:36-41 | While no queue reaches 2^32 mails, a stopped mailbox has no mail left and all it accepted was started or removed |
| SerialQueue.FloodedQueueLosesMails | task_mailbox.go:36-41 | The bound is needed: a run that stops with 2^32 mails left |
| SerialQueue.PushAcceptedExactly | atomos_task_manager_queue.go:30-33 | A mailbox handed out for a queue takes a mail at any later time exactly if its worker has not closed it since |
| SerialQueue.GetFindsOrMakes | atomos_task_manager_queue.go:402-412 | In every run the mailbox handed out is the one of the queue, or a new, empty and running one, no other changing |
| SerialQueue.PushAndRemovePlace | mail.go:270-368 | A running mailbox queues a mail in front or behind as asked, and a cancel takes out that mail alone |
| SerialQueue.FirstTaskStarts | task_mailbox.go:26-34 | A waiting worker takes the first mail of its queue and is at work on it |
| SerialQueue.CheckGoesOn | atomos_task_manager_queue.go:421-432 | After a task, with mails left, the check changes nothing but that the worker waits again |
| SerialQueue.TasksStartInOrder | mail.go:293-311 | In every run the tasks of one queue start in the order its mailbox accepted them, if none was put in front and none cancelled; what is queued is the rest of that order |
| SerialQueue.DelayedTaskIsRefused | atomos_task_manager_queue.go:67-70 | A run in which the mailbox of a delayed task is closed before its time comes, and refuses it |
| SerialQueue.StepKeeps | task_mailbox.go:10-41 | Every step keeps the invariant behind these |
| AsyncLedger.BaseAtomos.AsyncSet | base_atomos.go:489-515 | Registers under the next id, or, after the clearing, terminates on the spot with id 0 |
| AsyncLedger.BaseAtomos.PushAsync | base_atomos.go:278-293 | A message is sent exactly if its callback was registered |
| AsyncLedger.BaseAtomos.AsyncPop | base_atomos.go:529-538 | Claims the pending callback of the id, if there is one |
| AsyncLedger.BaseAtomos.AsyncCancelAll | base_atomos.go:551-580 | Claims every pending callback once and leaves none |
| AsyncLedger.RegisteredIsConserved | base_atomos.go:489-580 | At all times registered = pending + replied + cancelled, as sets and in number |
| AsyncLedger.InvokedAtMostOnce | base_atomos.go:473-580 | A callback that was invoked is never invoked again |
| AsyncLedger.RegistrationPends | base_atomos.go:489-515 | In every run a registration with an open ledger pends under the next id, which was never in use, and may be sent |
| AsyncLedger.ReplyTakesCallback | base_atomos.go:529-538 | A reply takes its callback off the map: it is replied and claimed, pending in no extension and in no later clearing, and once invoked it has ended as a reply |
| AsyncLedger.HaltTakesCallback | base_atomos.go:551-580 | So does the halt with every callback pending then, each ending as cancelled |
| AsyncLedger.ClearedForGood | base_atomos.go:489-580 | After the clearing nothing is pending ever again, and a registration is terminated on the spot and never sent |
| AsyncLedger.TakeOverKeepsIdsApart | element_local.go:645-662 | A late reply to a cleared predecessor finds nothing to pop in its successor |
| AsyncLedger.UnclearedTakeOverCollides | element_local.go:645-662 | Without the clearing one registration on each side collides |
| AsyncLedger.ChainKeepsIdsApart | element_local.go:645-662 | An id registered by a generation that was cleared at its takeover is registered or pending in no later generation of the chain of respawns, and a reply for it pops nothing there |
| AsyncLedger.ClearedChainIsApart | element_local.go:645-662 | When all were cleared, no id of any generation is pending in a later one |
| AsyncLedger.IdsStayApartIffCleared | element_local.go:645-662 | Ids stay apart in all futures exactly if the predecessor was cleared |
| VersionLock.Without | cosmos_etcd_version_lock.go:112-117 | Removes the first occurrence of the version |
| VersionLock.TryLocking | cosmos_etcd_version_lock.go:14-90 | Appends the version unless two hold the lock, creating the record if there is none |
| VersionLock.Unlocking | cosmos_etcd_version_lock.go:94-146 | Removes the version, and the designation if it is its own |
| VersionLock.StartedLock | cosmos_etcd_version_lock.go:150-205 | Designates the version exactly if it is listed |
| VersionLock.EtcdKey.Commit | cosmos_etcd_version_lock.go:71-88 | Takes effect exactly if nobody committed since the read |
| VersionLock.RemoveFirstRemoves | cosmos_etcd_version_lock.go:112-117 | On a list without repetition it removes the version and nothing else |
| VersionLock.EditKeepsExact | cosmos_etcd_version_lock.go:14-261 | Every edit of the current value keeps the record exact |
| VersionLock.VersionsAreTheHolders | cosmos_etcd_version_lock.go:14-261 | For any number of processes and any interleaving, `Versions` is exactly the set of holders that locked and have not unlocked, each once, at most two, and `Current` is 0 or one of them |
| VersionLock.OnlyOwnCommitsCount | cosmos_etcd_version_lock.go:14-261 | No lost update: only its own commit lists or unlists a version |
| VersionLock.CommitActsOnWhatItRead | cosmos_etcd_version_lock.go:14-261 | A commit takes effect exactly if its edit was not rejected and nobody committed since its read |
| VersionLock.ReadTakesSnapshot | cosmos_etcd_version_lock.go:18-26 | A read takes the current value and its revision, and changes nothing else |
| VersionLock.CommitDoesExactly | cosmos_etcd_version_lock.go:14-261 | In every run: a commit that was overtaken does nothing; a lock that saw fewer than two holders is appended, and otherwise refused; a Started commit designates its process exactly if it holds; an unlock takes its process off the list and clears the designation exactly if it is its own |
| VersionLock.DesignationIsSafe | cosmos_etcd_version_lock.go:118-120 | In every run `Current` changes only by a Started commit, to that version, or by the unlock of the designated version itself, to 0 |
| Routing.CosmosRemote.Refresh | cosmos_remote.go:116-153 | Enables and chooses exactly what the routing rule allows |
| Routing.CosmosRemote.EtcdUpdateLock | cosmos_remote.go:157-163 | The new lock, infos unchanged, routed |
| Routing.CosmosRemote.EtcdDeleteLock | cosmos_remote.go:165-171 | No lock, infos unchanged, disabled |
| Routing.CosmosRemote.EtcdCreateVersion | cosmos_remote.go:173-193 | The version has the info, others unchanged, routed |
| Routing.CosmosRemote.EtcdUpdateVersion | cosmos_remote.go:195-262 | The version has the info, others unchanged, routed |
| Routing.CosmosRemote.Replace | cosmos_remote.go:195-262 | A version object is rebuilt, the old one disabled, exactly if the address or the start-up id changed |
| Routing.CosmosRemote.EtcdDeleteVersion | cosmos_remote.go:264-289 | The version is gone and disabled, others unchanged, routed |
| Routing.CosmosRemote.CurrentVersion | cosmos_remote.go:323-347 | Answers a known, not disabled version that the rule allows, and none exactly if it allows none |
| Routing.RouteMeans | cosmos_remote.go:116-153 | The rule, exactly: a choice is a known version, the designated one unless that is Draining or missing and otherwise a Started one, and Draining only if the designated one is and nothing is Started; none exactly if nothing is designated or neither the designated nor a Started one is known |
| Routing.RouteIsAlmostUnique | cosmos_remote.go:116-153 | There always is a choice, free only among Started stand-ins |
| Routing.Replay | cosmos_remote.go:116-289 | After any history of lock and version events, where a call goes is decided by the lock and the infos that history leaves |
| EtcdKeys.DispatchIsExact | cosmos_etcd.go:363-390 | A suffix is dispatched to a node and a version exactly if it is `node/version/version` without further slashes |
| EtcdKeys.LockKeyRoundTrip | cosmos_etcd.go:47-52 | For every valid name the printed lock key is handled as the lock of that node |
| EtcdKeys.VersionKeyRoundTrip | cosmos_etcd.go:54-58 | The printed version key is handled as that node and the decimal string that routing looks up |
| EtcdKeys.OtherCosmosIsIgnored | cosmos_etcd.go:306-327 | The watcher of one cosmos takes no key of another |
| EtcdKeys.KeysAreDistinct | cosmos_etcd.go:40-58 | Keys are equal exactly if cosmos, node and version are; no lock key is a version key |
| EtcdKeys.PrefixTellsCosmos | cosmos_etcd.go:40-45 | The watch prefix of a cosmos is a prefix of no key of another |
| Strings.DecimalIsInjective | cosmos_remote.go:130-131 | Different versions print differently |
| CallArgs.CreateHelper | base_atomos.go:936-992 | The parsed settings and the lists of invalid and conflicting arguments |
| CallArgs.ParserAcceptsExactly | base_atomos.go:936-992 | No error exactly if every argument is allowed for the mail type, no flag is repeated and no timeout follows a non-zero one; then the result reflects the list |
| CallArgs.EachMailTakes | base_atomos.go:947-985 | Which single argument is accepted for which mail type: all for a kill, timeout and head flag for a synchronous mail and a wormhole, the head flag for an asynchronous one, none otherwise |
| CallArgs.SettingsExactly | base_atomos.go:936-992 | For every list, bad arguments included: a flag is set exactly if it is given and allowed, and the timeout is the first allowed one that is not zero |
| CallArgs.InvalidExactly | base_atomos.go:936-992 | Exactly the arguments not allowed for the mail type are reported as invalid, once each and in order |
| CallArgs.ConflictsExactly | base_atomos.go:936-992 | Exactly the allowed arguments that repeat one in force are reported as conflicting, once each and in order |
| CallArgs.FieldsMirror | base_atomos.go:947-990 | The fields that travel name exactly the flags in force, and a timeout exactly if an allowed one was given |
| CallArgs.ArgsSurviveRemoteHop | base_atomos.go:994-1018 | Every accepted list, encoded, decoded and parsed again for the same mail type, gives no error and the same timeout, head flag and wait flag |
| CycleKey.CanonicalCycleKey | cmd/atomos-vet/syncdeadlock/analyzer.go:148-163 | The join of the cycle rotated to its least name, the first repeated |
| CycleKey.SameKeyIffRotation | cmd/atomos-vet/syncdeadlock/analyzer.go:148-163 | Two simple cycles get the same key exactly if one is a rotation of the other |
| CycleKey.RotationsShareKey | cmd/atomos-vet/syncdeadlock/analyzer.go:148-163 | Every rotation has the key of the cycle |
| CycleKey.MinIsUnique | cmd/atomos-vet/syncdeadlock/analyzer.go:151-156 | The least name is at one position |
| CycleFinder.Finder.DetectCycleDFS | cmd/atomos-vet/syncdeadlock/analyzer.go:126-146 | Terminates; either a cycle through the origin has been met, or everything newly visited is searched to the end and leads back to the origin nowhere |
| CycleFinder.Finder.Report | cmd/atomos-vet/syncdeadlock/analyzer.go:128-138 | Remembers a cycle once per key; the origin is on a reported cycle either way |
| CycleFinder.SearchSettles | cmd/atomos-vet/syncdeadlock/analyzer.go:126-146 | A search that met nothing proves that no directed cycle passes through its origin, despite the shared visited set and the early return |
| CycleFinder.Run | cmd/atomos-vet/syncdeadlock/analyzer.go:112-117 | Sound and complete: every report is a simple cycle of real edges, no two are rotations of each other, and every handler on a directed cycle is on a reported one |

## Assumptions

- Process versions are distinct and not 0 (they are Unix seconds, `cosmos_process.go:744`), each
  process begins to lock once, and every etcd transaction is answered. No code here deletes the lock
  key, so its modification counter only grows.
- A wait edge may outlive its reply for a moment; what is proved about the detector is about
  registered edges.
- Handlers, workers and callbacks are arbitrary but return. Timers and timeouts fire at any time.
- Handler names contain no `→`, as no Go identifier does.

## Left out

- 64-bit counters (`asyncCallbackID`, `curID`, `instanceSeq`) are unbounded here; only the uint32 mail counter is modelled with its wrap.
- Cron tasks: cancelling one takes the manager mutex twice, and a second firing is never mailed again; delayed and immediate tasks, `Add` and `AddAfter` are modelled.
- The argument parser of tasks, and the report it makes on bad arguments: it would repeat the form of `CallArgs`.
- Reports on a worker that is nil, which that parser excludes, on a panicking worker, and on a task mailbox that fails to start.
- TaskQueue.TaskManager.AddToAtomos: the adder's steps run without interference here; their interleavings are covered by the events `Create`, `Push`, `StartTimer` and `StoreTimer` of the runs.
- Task mails are known by id and counted over all mailboxes of the manager in `TaskQueue`; their order in one mailbox is the subject of `MailBox` and `MailLoop`.
- Element.ElementLocal: reference states and trackers are kept in maps by identity, not as linked heap objects; `References` has them as objects, and `Element.ObjectHasTheseCells`, `AddRefOfObject` and `ReleaseOfObject` tie the two.
- The flag of `IDTracker.Release` is set with its cell's decrement, one step in `ElementRaces`; only a second release of the same tracker looks at the flag, and it does nothing either way.
- ElementRaces.LostToLateReferenceExactly: assumes that the references sat in the state the collector looked up; without that, `ElementRaces.ReferencedLeavesExactly` is the exact condition and `ElementRaces.OrphanedReferenceIsLost` the run that needs it.
- ElementRaces.ReferencedStaysListed: holds for atomic methods only, as the three runs beside it show.
- The spawn and get methods of the element, the state setters of an atom and the mailbox's `loop` are cut at every lock into events (`Lifecycle`, `MailLoop`) instead of being class methods, because other goroutines run between their regions; the regions that stand alone are class methods.
- Lifecycle.OneRunningPerName: what a thread reads from a reference count is left open in this module, so the result holds whatever the counts are.
- The order list `names`, which a respawn can leave without its node, `DeathWatch`, the elements table, parallel functions, logging, message tracking.
- Mail pooling and debug allocation; the reply channel of `sendReply` beyond the race of timeout and removal.
- gRPC, dialling and client connections, TLS, JSON and protobuf encodings, files, process forks, signals, configuration loading, the watch stream itself.
- Recovery from panics of handlers and workers.
- The AST side of the analyzers: which calls count as edges.
