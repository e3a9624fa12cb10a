# Verified models of a FUSE file system stack and its runtime

This project models five parts of the repository and proves what they promise.

- **Tasks of the single-threaded runtime** (`runtime/src/task`, `scheduler.rs`, `runtime.rs`).
  `TaskState` is the packed 64-bit state word with its bit operations, and `TaskMachine` the life of tasks
  as a state machine, from before `block_on` is entered until after the runtime is dropped. The
  assertions, panics and `unreachable!` of the modelled code are faults in it, and so is any use of a
  freed cell. `Harness` is the same on heap cells. `TaskSafety` proves that reference counts are exact in
  every run, and exactly when an owning client meets a panic. `TaskTheorems` derives what users rely on:
  no lost wakeup, outputs consumed once, joiners woken, nothing leaked but circles of tasks that wait
  for each other. `BlockOn` is the executor loop and the shutdown of its queue, and `Fairness` says exactly
  when `block_on` polls a queued task.
- **SimpleFS** (`fuse/src/filesystem.rs`). `Namespace` is the directory tree with the handlers as
  functions, `SimpleFs` the handlers on the inode store and the content store, step by step.
  `NamespaceSafety` proves that every request the kernel can send keeps the tree a tree with exact link
  counts; `NamespaceTheorems` states what follows for all runs.
- **The paged slab** (`runtime/src/utils/slab.rs`). `PageGeometry` is the formula from keys to pages,
  `SlabPage` one page and its free list, `SlabSpec` and `SlabTheorems` the slab and its agreement with a
  map over all runs, and `SlabHeap` the array of pages.
- **The inode table** (`fuse/src/async_fuse/inode_table.rs`) in `InodeTableSpec`, `InodeTableTheorems`
  and, as an object, `InodeTables`; and in `FuseRequests` the requests of `fusemt.rs` that use it.
- **Directory replies and paginated reading** (`fuse/src/fuser/ll/reply.rs`,
  `fuse/src/async_fuse/fusemt.rs`, `directory_cache.rs`) in `DirBuffer` and `Readdir`. `FuseMt` has the
  handlers, on the table, the cache and the reply buffer.

Each component has an imperative part, classes whose methods update fields and buffers as the source
does, proved against functions on values; and theorems about those functions. `dafny verify
dfyconfig.toml` checks everything.

## Findings

Where the code does not do what one may expect, a lemma shows the input and another one, named second,
says exactly when it happens:

- `push_front` on yield makes the run queue unfair: a future that wakes itself starves a queued task
  (`TaskTheorems.FrontYieldStarves`). A task at position k is polled within some turns exactly if at least
  k of them, not counting the last, do not yield (`Fairness.PolledExactly`, `Fairness.PolledInTrace`).
- Outside of `block_on`, where CURRENT is not set, waking a task that is idle and not notified panics even
  on the owner thread (`TaskTheorems.StrayWakeReached`), and so does `spawn` (`TaskSafety.FaultExactly`).
- A run that fills a slab, frees a key and inserts again panics with "out of slot", until the next
  compaction (`SlabTheorems.FreeSlotMissed`, `SlabSpec.InsertPanics`).
- Forgetting an inode whose path has been given to another inode takes that inode's path away
  (`InodeTableTheorems.NewFileLosesPath`, `InodeTableTheorems.ForgetTakes`). The documentation calls the
  table a two-way map (`fuse/src/async_fuse/inode_table.rs:1`); `InodeTableTheorems.StepExact` says exactly
  which calls end that.
- Making a directory again after `FuseMT::rmdir` panics, since `rmdir` leaves the path in the table
  (`FuseRequests.MkdirAgainPanics`, `FuseRequests.ServePanics`).
- A lookup counted on a free slot is inherited by the next path (`InodeTableTheorems.LookupOnFree`,
  `InodeTableTheorems.StepFreeIsZero`). `FuseMT` itself never does that, since its only call of `lookup`
  follows `add_or_get` (`FuseRequests.ServeFree`).
- A symlink whose name is taken uses up an inode number (`NamespaceTheorems.FailureChanges`).
- An inode that was ever opened is never collected, since `release` changes only a local copy
  (`NamespaceTheorems.OpenKept`, `NamespaceTheorems.CollectedExactly`).
- A reply too small for the next entry is empty and so looks like the end of the directory
  (`Readdir.TooSmallEnds`).

The handlers of SimpleFS rely on what the kernel guarantees. It does not send a plain rename of a file
onto itself: `NamespaceTheorems.SameInodeExactly` says which of those would do harm. It creates regular
files only: `NamespaceTheorems.CreatePanics` says which other requests would panic. And it releases only
what it has opened, whose count is then positive (`NamespaceTheorems.OpenedMayRelease`).

## Model

| member | source | states |
|---|---|---|
| `TaskState.AddReference` | runtime/src/task/state.rs:226-234 | adding REF_ONE to any word that passes the overflow test raises the decoded count by one and disturbs no flag |
| `TaskState.RemoveReference` | runtime/src/task/state.rs:237-241 | subtracting REF_ONE from any word with a reference lowers the count by one and disturbs no flag |
| `TaskState.FlipLifecycle` | runtime/src/task/state.rs:114-122 | one exclusive or flips RUNNING and COMPLETE and nothing else |
| `TaskState.DecodeInitial` | runtime/src/task/state.rs:56-60 | a word equals INITIAL_STATE exactly if it decodes to notified, join interest, two references |
| `TaskState.State.TransitionToRunning` | runtime/src/task/state.rs:89-97 | a notified idle word becomes running and not notified, all else kept |
| `TaskState.State.TransitionToIdle` | runtime/src/task/state.rs:100-111 | clears RUNNING, and reports a wake exactly if NOTIFIED was set during the poll |
| `TaskState.State.TransitionToComplete` | runtime/src/task/state.rs:114-122 | running becomes complete; the two never coexist |
| `TaskState.State.TransitionToNotified` | runtime/src/task/state.rs:141-154 | asks for submission exactly if idle and not yet notified; a complete word is unchanged |
| `TaskState.State.TransitionToNotifiedWithoutSubmit` | runtime/src/task/state.rs:127-139 | records a wake of a running task, leaves a complete or notified one alone, and reports false exactly if the task would have to be queued |
| `TaskState.State.DropJoinHandleFast` | runtime/src/task/state.rs:158-167 | succeeds exactly on the initial state, leaving one reference and no interest |
| `TaskState.State.UnsetJoinInterested` | runtime/src/task/state.rs:171-185 | fails exactly if complete, and then changes nothing |
| `TaskState.State.SetWakerBit` | runtime/src/task/state.rs:190-205 | fails exactly if complete, and then changes nothing |
| `TaskState.State.UnsetWakerBit` | runtime/src/task/state.rs:210-224 | fails exactly if complete, and then changes nothing |
| `TaskState.State.RefInc` | runtime/src/task/state.rs:226-234 | aborts exactly when the old word exceeds isize::MAX; otherwise one more reference |
| `TaskState.State.RefDec` | runtime/src/task/state.rs:237-241 | one reference less, and true exactly for the last one |
| `Harness.Runtime.WakeByVal` | runtime/src/task/harness.rs:155-207 | the waker's reference moves to the queue or is dropped; where CURRENT is not set the task counts as remote |
| `Harness.Runtime.WakeByRef` | runtime/src/task/harness.rs:209-257 | a submitted task gets a reference of its own; where CURRENT is not set the task counts as remote |
| `Harness.Runtime.BeginPoll` | runtime/src/task/harness.rs:71-79 | takes the front of the queue and starts its poll, as the machine does |
| `Harness.Runtime.FinishPending` | runtime/src/task/harness.rs:53-89 | a task woken during its poll goes to the front of the queue with a new reference |
| `Harness.Runtime.FinishReady` | runtime/src/task/harness.rs:268-288 | stores the output, completes, and drops the output or wakes the joiner |
| `Harness.Runtime.DropReference` | runtime/src/task/harness.rs:259-263 | frees the cell exactly with the last reference |
| `Harness.Runtime.Dealloc` | runtime/src/task/harness.rs:91-102 | the stage is dropped, and the stored join waker's reference is released |
| `Harness.Runtime.PollJoin` | runtime/src/task/harness.rs:315-363 | returns the output or leaves the given waker registered, as the machine does |
| `Harness.Runtime.StoreJoinWaker` | runtime/src/task/harness.rs:365-391 | replaces the trailer's waker, releasing the old one, and sets the flag |
| `Harness.Runtime.DropJoin` | runtime/src/task/join.rs:63-71 | the fast and slow paths of dropping a handle |
| `Harness.Runtime.DropTask` | runtime/src/task/mod.rs:45-53 | the Task that was run gives up its reference |
| `Harness.Runtime.Spawn` | runtime/src/runtime.rs:116-132 | a new cell with two counts, one owned by the queue and one by the handle |
| `TaskSafety.StepSafe` | runtime/src/task/harness.rs:53-391 | every careful step of an owning client, inside `block_on`, outside, or while the runtime is dropped, keeps counts equal to owners, queued exactly the notified idle tasks and every cell consistent; and meets no assertion, panic or freed cell |
| `TaskSafety.FaultExactly` | runtime/src/task/harness.rs:155-257 | exactly when an owning client meets a panic: polling a handle that has delivered its output, spawning or waking a task that must be queued while CURRENT is not set, entering a runtime twice |
| `TaskSafety.RunSafe` | runtime/src/task/harness.rs:53-391 | no run of any length meets a fault, and every reached state satisfies the invariant |
| `TaskSafety.HeldIsLive` | runtime/src/task/mod.rs:35-53 | whatever holds a reference holds it to a cell that is not freed |
| `TaskTheorems.FreedIffUnowned` | runtime/src/task/harness.rs:91-102 | in every reachable state a live count equals the queue, wakers, handle and run that own it, and a cell is freed exactly if there is none |
| `TaskTheorems.QueuedExactly` | runtime/src/task/harness.rs:53-257 | in every reachable state a task is in the run queue once if it is notified and idle, and otherwise not at all; while the queue is dropped, at most that |
| `TaskTheorems.StepEvolves` | runtime/src/task/state.rs:89-241 | a freed cell never changes; COMPLETE is never cleared; NOTIFIED only by the poll; the join waker only by its handle |
| `TaskTheorems.FreedForever` | runtime/src/task/harness.rs:91-102 | along any run a freed cell stays as it is, and a produced output is never replaced |
| `TaskTheorems.OutputConsumedOnce` | runtime/src/task/core.rs:76-148 | an output has at most one fate, and exactly one once the cell is freed or the handle gone |
| `TaskTheorems.OutputTakenBy` | runtime/src/task/harness.rs:120-146 | each step adds to what became of an output exactly this: delivered by the poll of the handle, dropped on completion without a handle or with the handle; no step frees a cell that holds an output |
| `TaskTheorems.FreedIsConsumed` | runtime/src/task/harness.rs:91-146 | when the cell of a completed task is freed, its stage is Consumed |
| `TaskTheorems.OnlyCyclesLeak` | runtime/src/task/harness.rs:91-102 | with the queue gone and no reference outside, every cell that is not freed is on a circle of cells each of which stores a join waker of the one before |
| `TaskTheorems.StrayWakeReached` | runtime/src/task/harness.rs:155-207 | a run after which a waker that was kept panics: one task, polled once, whose waker was cloned, and `block_on` has returned |
| `TaskTheorems.PollJoinResult` | runtime/src/task/harness.rs:114-118 | a handle is ready exactly if its task is complete, with the value produced |
| `TaskTheorems.WakeMakesDue` | runtime/src/task/harness.rs:155-257 | a wake at any time before completion leaves the task due for a poll |
| `TaskTheorems.NoLostWakeup` | runtime/src/task/state.rs:89-154 | along any run a due task stays due until it is polled or complete, or the runtime is dropped |
| `TaskTheorems.StepHolds` | runtime/src/scheduler.rs:58-74 | a task in the queue or being polled stays there until it is taken or its poll ends |
| `TaskTheorems.NoWorkAtPark` | runtime/src/runtime.rs:91-108 | inside `block_on`, with an empty queue no unfinished task is notified |
| `TaskTheorems.PendingRegisters` | runtime/src/task/harness.rs:315-391 | a Pending poll leaves the handle waiting on the waker it was given |
| `TaskTheorems.StaysWaiting` | runtime/src/task/harness.rs:315-391 | the registration survives every run that leaves the handle alone |
| `TaskTheorems.CompletionWakes` | runtime/src/task/core.rs:171-177 | completion with a waiting handle wakes the stored waker; "waker missing" is unreachable |
| `TaskTheorems.JoinerIsWoken` | runtime/src/task/harness.rs:268-391 | from a Pending poll over any run to completion: the latest waker is woken |
| `TaskTheorems.SelfWakeRound` | runtime/src/scheduler.rs:12-14 | one round of a task that wakes itself while running ends in the state it began with |
| `TaskTheorems.FrontYieldStarves` | runtime/src/scheduler.rs:12-14 | for every number of rounds a second due task is not polled |
| `Fairness.TurnQueue` | runtime/src/scheduler.rs:58-74 | a turn polls the front of the queue, which goes back there if it yields and leaves otherwise; all else stays in order, new tasks behind |
| `Fairness.PolledExactly` | runtime/src/scheduler.rs:12-14 | a task at position k is polled within some turns exactly if at least k of them, not counting the last, do not yield, whatever the main future and the driver do in between |
| `Fairness.FifoUnlessYields` | runtime/src/scheduler.rs:58-74 | if none yields, a task at position k is polled in turn k + 1 and not before |
| `Fairness.TraceCovered` | runtime/src/runtime.rs:70-108 | what `block_on` executes is a list of such turns, with calls of the main future and the driver before them |
| `Fairness.PolledInTrace` | runtime/src/runtime.rs:70-108 | in whatever `block_on` executes, a queued task is polled exactly if enough turns do not yield |
| `Fairness.PolledBeforePark` | runtime/src/runtime.rs:91-108 | whatever is queued at some point of `block_on` is polled before the thread next parks |
| `Fairness.BatchPollsAll` | runtime/src/runtime.rs:72-82 | a batch polls every task it found, unless more than one turn in excess of their number yields |
| `BlockOn.RunTask` | runtime/src/task/mod.rs:35-37 | running the front Task is a run of the machine: begin, the future's calls, finish, the calls of destructors while the task completes, drop, and those of destructors after it |
| `BlockOn.Batch` | runtime/src/runtime.rs:72-82 | a batch that starts with n tasks ends after at most 2n + 1 runs, with an empty queue or all of them used, and each run found a Task |
| `BlockOn.PollMain` | runtime/src/runtime.rs:84-89 | polls the main future only when woken, and goes on until it is ready or its flag is clear |
| `BlockOn.RunUntilIdle` | runtime/src/runtime.rs:70-100 | batches and polls of the woken main future, and between two batches the driver submits; it is left to park only with an empty queue and a clear flag |
| `BlockOn.Execute` | runtime/src/runtime.rs:50-112 | follows the only possible trace: a batch, polls of the main future while it is woken, then the driver, which submits if there are tasks left and parks if there are none, then the next batch; the result is that of the last poll |
| `BlockOn.WokenIsPolled` | runtime/src/runtime.rs:84-89 | whenever the main future is woken, be it by the driver, it is polled next or after one batch |
| `BlockOn.FirstPoll` | runtime/src/runtime.rs:68-89 | `block_on` polls its future once even if nobody wakes it |
| `BlockOn.WokenAgain` | runtime/src/runtime.rs:84-89 | after a poll of the main future it is woken exactly if it has woken itself meanwhile |
| `BlockOn.ParkedIdle` | runtime/src/runtime.rs:91-108 | wherever such a trace parks, the main future is not woken and no unfinished task is notified |
| `BlockOn.DropQueue` | runtime/src/scheduler.rs:30-37 | the queued Tasks are dropped in order without being run, with the calls of destructors in between; this is a run of the machine, so all counts stay exact |
| `NamespaceSafety.StepInv` | fuse/src/filesystem.rs:740-1320 | every request the kernel can send keeps entries sound, link counts exact, `..` right and every live directory connected to the root |
| `NamespaceSafety.RemoveNameInv` | fuse/src/filesystem.rs:901-1017 | entries, counts, `..` and paths to the root survive removing a name and counting it off |
| `NamespaceSafety.MoveNameInv` | fuse/src/filesystem.rs:1248-1291 | entries, counts, `..` and paths to the root survive moving a name, if a directory does not go below itself |
| `NamespaceSafety.SwapNamesInv` | fuse/src/filesystem.rs:1167-1215 | they survive exchanging two names, if neither is above the other's directory |
| `NamespaceSafety.RenameInv` | fuse/src/filesystem.rs:1086-1291 | they survive every rename the kernel can send, which does not panic |
| `NamespaceSafety.UnlinkInv` | fuse/src/filesystem.rs:901-956 | they survive unlink, whose link count never underflows |
| `NamespaceSafety.NotBelowChild` | fuse/src/filesystem.rs:1248-1291 | a directory connected to the root is not below its own child |
| `NamespaceTheorems.LinkCountsExact` | fuse/src/filesystem.rs:740-1320 | after any run a file's link count is the number of its names |
| `NamespaceTheorems.EntriesLead` | fuse/src/filesystem.rs:740-1320 | after any run every entry is in a live directory and leads to an inode of the kind it records |
| `NamespaceTheorems.DirectoryPlace` | fuse/src/filesystem.rs:827-1291 | after any run a live directory has one name, `..` names the directory holding it, and leads on to the root |
| `NamespaceTheorems.PanicExactly` | fuse/src/filesystem.rs:901-1779 | a request the kernel can send panics exactly if it overflows a link count |
| `NamespaceTheorems.CreatePanics` | fuse/src/filesystem.rs:1688-1779 | without the kernel's guarantee of a regular file, `create` panics exactly on types that `mknod` refuses, once everything else is checked |
| `NamespaceTheorems.OtherNamesKept` | fuse/src/filesystem.rs:740-1320 | names a request is not about lead where they led |
| `NamespaceTheorems.ChangeNeedsAccess` | fuse/src/filesystem.rs:740-1320 | no entry is changed by a caller who may not write its directory or is refused by the sticky bit |
| `NamespaceTheorems.MadeInode` | fuse/src/filesystem.rs:740-1083 | a new inode is found under its name, with its owner, group, counts and parent, and with the kind and every mode bit that is due: setuid and setgid only for root where supported, setgid inherited by directories |
| `NamespaceTheorems.UnlinkedInode` | fuse/src/filesystem.rs:901-956 | an unlinked inode is kept exactly if it has another name or has been opened, with one link less |
| `NamespaceTheorems.RenamedEntry` | fuse/src/filesystem.rs:1217-1291 | the entry is at its new place only, and a directory's `..` names its new parent |
| `NamespaceTheorems.AttributesKept` | fuse/src/filesystem.rs:740-1464 | no request changes the kind, mode or owners of an inode that is there |
| `NamespaceTheorems.RootIsOpen` | fuse/src/filesystem.rs:484-509 | after any run the root is a directory of mode 0777, owned by root |
| `NamespaceTheorems.NeverReused` | fuse/src/filesystem.rs:285-302 | the number of an inode that is gone is not used again in any run |
| `NamespaceTheorems.OpenKept` | fuse/src/filesystem.rs:1450-1464 | over any run, with opens and releases, an opened inode is never collected and its stored open count never goes down |
| `NamespaceTheorems.OpenedMayRelease` | fuse/src/filesystem.rs:1450-1464 | what was opened or created may be released after any run: it is stored with a positive count |
| `NamespaceTheorems.CollectedExactly` | fuse/src/filesystem.rs:382-397 | a request removes an inode exactly if it takes the last name of one that was never opened, and access, the sticky bit and an empty directory allow it |
| `NamespaceTheorems.StoredIffNamed` | fuse/src/filesystem.rs:382-397 | after any run a file that was not opened is stored exactly as long as it has a name |
| `NamespaceTheorems.ExchangeTwice` | fuse/src/filesystem.rs:1167-1215 | a rename with exchange swaps what two names lead to, and done twice restores the tree unless the sticky bit refuses it |
| `NamespaceTheorems.MoveBack` | fuse/src/filesystem.rs:1217-1291 | a rename to a free name and back restores the tree unless the sticky bit of the new directory refuses it |
| `NamespaceTheorems.LinkThenUnlink` | fuse/src/filesystem.rs:1293-1320 | a hard link leads to the file, and unlinking it restores the tree |
| `NamespaceTheorems.MkdirThenRmdir` | fuse/src/filesystem.rs:827-1017 | removing a new directory restores the tree up to the inode counter |
| `NamespaceTheorems.NotEmptyExactly` | fuse/src/filesystem.rs:976-980 | rmdir answers ENOTEMPTY exactly if the directory holds an entry |
| `NamespaceTheorems.RootAccess` | fuse/src/filesystem.rs:1870-1890 | root is refused exactly execution of what nobody may execute |
| `NamespaceTheorems.ClassAccess` | fuse/src/filesystem.rs:1894-1900 | the owner, others of the group and everybody else may read, write and execute by the three bits of their class, and by these alone |
| `NamespaceTheorems.AccessEach` | fuse/src/filesystem.rs:1870-1903 | several accesses are granted exactly if each of them is |
| `NamespaceTheorems.StickyUnlink` | fuse/src/filesystem.rs:925-940 | who may write a directory may unlink in it, if it is sticky only its owner, the file's owner and root |
| `NamespaceTheorems.OpenExactly` | fuse/src/filesystem.rs:1322-1364 | opening succeeds exactly with the access its flags ask for, and then counts one handle more |
| `NamespaceTheorems.MakeAllowed` | fuse/src/filesystem.rs:740-1083 | a name is made exactly if it is free, its directory may be written, and the type, flags or link count allow it |
| `NamespaceTheorems.RenameAllowed` | fuse/src/filesystem.rs:1086-1291 | a plain rename succeeds exactly if both places may be changed, the target holds no entry, and a directory that gets another parent may be written |
| `NamespaceTheorems.ExchangeAllowed` | fuse/src/filesystem.rs:1086-1215 | an exchange succeeds exactly if there are two entries and both may be changed |
| `NamespaceTheorems.ErrorsTell` | fuse/src/filesystem.rs:740-1370 | a request is refused only with an error that is true of it |
| `NamespaceTheorems.FailureChanges` | fuse/src/filesystem.rs:1019-1083 | a request that fails changes nothing, except for a symlink in a writable directory whose name is taken, which uses up an inode number |
| `NamespaceTheorems.SameInodeExactly` | fuse/src/filesystem.rs:1248-1291 | a plain rename keeps the invariant exactly unless it is carried out between two names of one file, or onto itself for an empty directory that is not open |
| `SimpleFs.LenFindsChildren` | fuse/src/filesystem.rs:976-980 | more than two stored entries means an entry besides `.` and `..`, and the other way round |
| `SimpleFs.SimpleFS.Reads` | fuse/src/filesystem.rs:432-439 | what a name leads to in the stores is what it leads to in the tree |
| `SimpleFs.SimpleFS.Mknod` | fuse/src/filesystem.rs:740-825 | the writes to the two stores do to the tree what the specification says, and keep the invariant |
| `SimpleFs.SimpleFS.Mkdir` | fuse/src/filesystem.rs:827-899 | a directory with its `.` and `..` is stored and entered in its parent, set-group-id inherited; equal to the specification, invariant kept |
| `SimpleFs.SimpleFS.Create` | fuse/src/filesystem.rs:1688-1779 | a file with one open handle is stored and entered; equal to the specification, and the stores stay consistent even on the panic |
| `SimpleFs.SimpleFS.Symlink` | fuse/src/filesystem.rs:1019-1083 | the number is allocated and the entry written before the inode; equal to the specification also when the name is taken |
| `SimpleFs.SimpleFS.Link` | fuse/src/filesystem.rs:1293-1320 | one more entry and one more link, or the panic on overflow; equal to the specification |
| `SimpleFs.SimpleFS.Unlink` | fuse/src/filesystem.rs:901-956 | the link is counted off, the inode collected if that was its last use, then the entry removed; equal to the specification, no underflow |
| `SimpleFs.SimpleFS.Rmdir` | fuse/src/filesystem.rs:958-1017 | an empty directory gives up its links and its entry, and is collected unless opened; equal to the specification |
| `SimpleFs.SimpleFS.Displace` | fuse/src/filesystem.rs:1248-1262 | the target of a rename loses its entry and a link, and is collected if that was its last use |
| `SimpleFs.SimpleFS.Exchange` | fuse/src/filesystem.rs:1167-1215 | both entries and both `..` are rewritten; writing back attributes read before changes nothing but times |
| `SimpleFs.SimpleFS.Move` | fuse/src/filesystem.rs:1217-1291 | the target is displaced and the entry moved; the attributes written back are still current |
| `SimpleFs.SimpleFS.Rename` | fuse/src/filesystem.rs:1086-1291 | the refusals come in the source's order, then one of the two kinds of rename |
| `SimpleFs.SimpleFS.Open` | fuse/src/filesystem.rs:1322-1368 | open and opendir: refusals by flags, existence and permission, and one more open handle |
| `SimpleFs.SimpleFS.Release` | fuse/src/filesystem.rs:1450-1464 | nothing is stored; a count of 0 panics |
| `PageGeometry.PageOfKey` | runtime/src/utils/slab.rs:129-135 | for every key below the capacity the formula gives the page that contains it |
| `PageGeometry.PagesDisjoint` | runtime/src/utils/slab.rs:72-75 | that page is unique |
| `PageGeometry.PageIdInverts` | runtime/src/utils/slab.rs:65-84 | the formula finds the page a slot was allocated in |
| `PageGeometry.KeyBeyond` | runtime/src/utils/slab.rs:129-135 | every larger key, where the addition saturates too, goes to the last page, beyond its end |
| `SlabPage.UsedCounts` | runtime/src/utils/slab.rs:217-228 | `used` is the number of occupied slots |
| `SlabPage.NextIsVacant` | runtime/src/utils/slab.rs:263-278 | where `alloc` follows a link the slot is vacant, so its unreachable branch is not taken |
| `SlabPage.FullPage` | runtime/src/utils/slab.rs:256-261 | a full page has `next` equal to its length and nothing vacant |
| `SlabPage.FreeListVisits` | runtime/src/utils/slab.rs:255-324 | following the links from `next` visits every vacant initialised slot exactly once and ends at the first one not initialised |
| `SlabPage.PutOk` | runtime/src/utils/slab.rs:255-286 | alloc and set keep the free list intact |
| `SlabPage.PutGets` | runtime/src/utils/slab.rs:255-286 | the value goes where nothing was, and no other slot changes |
| `SlabPage.RemoveOk` | runtime/src/utils/slab.rs:309-324 | remove keeps the free list intact and counts only what was there |
| `SlabPage.RemoveGets` | runtime/src/utils/slab.rs:309-324 | remove empties its slot, and no other slot changes |
| `SlabPage.RemoveThenPut` | runtime/src/utils/slab.rs:255-324 | the slot emptied last is taken next, which restores the page |
| `SlabPage.Page.Alloc` | runtime/src/utils/slab.rs:255-281 | reserves `next` unless full, with both debug assertions of the source proved |
| `SlabPage.Page.Remove` | runtime/src/utils/slab.rs:309-324 | takes the value out and puts the slot at the head of the free list, on the buffer in place |
| `SlabSpec.InsertGets` | runtime/src/utils/slab.rs:65-89 | an insertion returns a key that was free, and no other key is touched |
| `SlabSpec.InsertPanics` | runtime/src/utils/slab.rs:65-89 | an insertion panics exactly if the write page and all later pages are full |
| `SlabSpec.RemoveGetsAll` | runtime/src/utils/slab.rs:93-102 | a removed key leads nowhere, every other key where it led, compaction or not |
| `SlabSpec.RemoveLen` | runtime/src/utils/slab.rs:93-102 | `len` goes down exactly if the key was there |
| `SlabSpec.CompactShape` | runtime/src/utils/slab.rs:104-125 | compaction drops a page exactly if it is the last one, empty and not page 0, and makes insertions begin at page 0 |
| `SlabSpec.CompactGets` | runtime/src/utils/slab.rs:104-125 | compaction loses no value |
| `SlabSpec.KeyNotBefore` | runtime/src/utils/slab.rs:53-53 | the subtraction from key to slot never underflows |
| `SlabTheorems.StepRefines` | runtime/src/utils/slab.rs:38-125 | every operation does to the slab what it does to a map |
| `SlabTheorems.StepOk` | runtime/src/utils/slab.rs:65-125 | every operation keeps the allocated pages a contiguous prefix, the write page 0 or allocated, and every page sound |
| `SlabTheorems.SlabIsMap` | runtime/src/utils/slab.rs:38-125 | every run from an empty slab is a run of a map: new keys are free, all reads and lengths agree |
| `SlabTheorems.GenerationCounts` | runtime/src/utils/slab.rs:104-107 | the generation is the number of counted removals modulo 2^32 |
| `SlabTheorems.CompactsEvery2048` | runtime/src/utils/slab.rs:93-125 | a removal compacts what it leaves on exactly every 2048th counted removal of a run, across wrap-around too |
| `SlabTheorems.FillsInOrder` | runtime/src/utils/slab.rs:65-89 | insertions into an empty slab take the keys 0, 1, ... in order, up to the last key of the last page |
| `SlabTheorems.FreeSlotMissed` | runtime/src/utils/slab.rs:65-89 | the run that fills a slab, removes key 0 and inserts again ends with the panic, although key 0 is free; after a compaction the insertion succeeds |
| `SlabHeap.Slab.Insert` | runtime/src/utils/slab.rs:65-89 | the loop over the pages does what the specification says, and panics exactly then |
| `SlabHeap.Slab.TryPage` | runtime/src/utils/slab.rs:68-85 | one turn of the loop: makes a missing page and takes one slot, if there is room |
| `SlabHeap.Slab.Compact` | runtime/src/utils/slab.rs:107-124 | finds the last page from the end and drops it if it may |
| `SlabHeap.Slab.Remove` | runtime/src/utils/slab.rs:93-102 | returns what was there, and counts the removal whenever the page exists |
| `SlabHeap.Slab.Len` | runtime/src/utils/slab.rs:38-43 | the sum over the allocated pages |
| `InodeTableSpec.StepOk` | fuse/src/async_fuse/inode_table.rs:43-228 | every call keeps the invariant, even one that panics |
| `InodeTableTheorems.PathLeadsBack` | fuse/src/async_fuse/inode_table.rs:43-228 | after any run a path leads to an inode that has this path, so no two paths share an inode |
| `InodeTableTheorems.FreeExactly` | fuse/src/async_fuse/inode_table.rs:180-228 | after any run the free list holds exactly the slots without a path, once each, and not the root's |
| `InodeTableTheorems.StepExact` | fuse/src/async_fuse/inode_table.rs:68-202 | the two maps stay inverses exactly unless a mapped path is unlinked, renamed onto or added again |
| `InodeTableTheorems.Bijection` | fuse/src/async_fuse/inode_table.rs:68-202 | after any run without such a call, a path leads to an inode exactly if the inode has the path |
| `InodeTableTheorems.ForgetTakes` | fuse/src/async_fuse/inode_table.rs:174-182 | forgetting keeps all other inodes' paths exactly if the forgotten path does not lead to another inode |
| `InodeTableTheorems.NewFileLosesPath` | fuse/src/async_fuse/inode_table.rs:174-182 | a file made again under its name loses the path when the old inode is forgotten |
| `InodeTableTheorems.PanicExactly` | fuse/src/async_fuse/inode_table.rs:68-202 | exactly which calls panic |
| `InodeTableTheorems.NeverHandedTwice` | fuse/src/async_fuse/inode_table.rs:208-228 | no pair of inode and generation is handed out twice in a run |
| `InodeTableTheorems.AnsweredAgain` | fuse/src/async_fuse/inode_table.rs:94-111 | after any run a known path is answered with its inode and the generation last handed out with it |
| `InodeTableTheorems.CountsExact` | fuse/src/async_fuse/inode_table.rs:68-187 | a count is 1 if `add` made the inode and 0 if `add_or_get` did, plus lookups, minus what was forgotten since |
| `InodeTableTheorems.RootIsNotCounted` | fuse/src/async_fuse/inode_table.rs:135-187 | no call counts the root, and a forget answers the count it leaves |
| `InodeTableTheorems.StepFreeIsZero` | fuse/src/async_fuse/inode_table.rs:135-146 | free slots have no lookups exactly as long as no free inode is looked up |
| `InodeTableTheorems.FreedByForget` | fuse/src/async_fuse/inode_table.rs:159-187 | a slot becomes free only by a forget that brings its count to 0 |
| `InodeTableTheorems.LookupOnFree` | fuse/src/async_fuse/inode_table.rs:135-146 | a lookup of a free inode is inherited by the next path |
| `InodeTableTheorems.LookupEntryFinds` | fuse/src/async_fuse/fusemt.rs:128-146 | the reply's inode leads to the path and back, with one lookup more |
| `InodeTableTheorems.LookupThenForget` | fuse/src/async_fuse/fusemt.rs:128-159 | forgetting the lookup of a new path restores the map and frees the slot |
| `FuseRequests.ServeOk` | fuse/src/async_fuse/fusemt.rs:128-410 | every request on names keeps the invariant of the inode table |
| `FuseRequests.ServeFree` | fuse/src/async_fuse/fusemt.rs:128-146 | no request looks up a free inode, so free slots never have lookups left |
| `FuseRequests.LookupLeads` | fuse/src/async_fuse/fusemt.rs:128-146 | the inode replied to a lookup leads to the path of the name in its directory and back, is the one the path had, and no other path is touched |
| `FuseRequests.LookupAgain` | fuse/src/async_fuse/fusemt.rs:128-146 | looking a name up again gives the same inode and generation |
| `FuseRequests.MakeLeads` | fuse/src/async_fuse/fusemt.rs:256-405 | what is made or linked leads to the inode replied; no other path is touched |
| `FuseRequests.UnlinkLeads` | fuse/src/async_fuse/fusemt.rs:301-334 | an unlinked path leads nowhere, other paths where they led; rmdir takes no path away |
| `FuseRequests.RenameLeads` | fuse/src/async_fuse/fusemt.rs:352-381 | the new path leads where the old one led, its inode has the new path, and the old one leads nowhere |
| `FuseRequests.ServeRefuses` | fuse/src/async_fuse/fusemt.rs:128-410 | if an inode has no path or the target refuses, the table is left alone and EINVAL or the target's error is answered |
| `FuseRequests.ServePanics` | fuse/src/async_fuse/fusemt.rs:128-410 | exactly which requests panic: an inode beyond the table after inodes that have paths; a path made that is known or renamed that is not, where the target agrees; more forgotten than was counted |
| `FuseRequests.MkdirAgainPanics` | fuse/src/async_fuse/fusemt.rs:280-334 | mkdir, rmdir and mkdir of one name: the last one panics |
| `FuseRequests.CountsAreTheKernels` | fuse/src/async_fuse/fusemt.rs:128-410 | after any requests the count of every inode but the root is the number of entries replied for it less those the kernel has forgotten, and it has a path exactly as long as that is positive |
| `InodeTables.InodeTable.Add` | fuse/src/async_fuse/inode_table.rs:68-87 | the updates in place do what the specification says, and keep the invariant |
| `InodeTables.InodeTable.AddOrGet` | fuse/src/async_fuse/inode_table.rs:94-111 | an unknown path gets a slot without a lookup, a known one its inode and generation; the specification on the fields, invariant kept |
| `InodeTables.InodeTable.Lookup` | fuse/src/async_fuse/inode_table.rs:135-146 | one lookup more, except for the root; a panic beyond the table; invariant kept |
| `InodeTables.InodeTable.Forget` | fuse/src/async_fuse/inode_table.rs:159-187 | counts off, and at zero removes the key, clears the path and frees the slot; panics exactly as specified, invariant kept |
| `InodeTables.InodeTable.Rename` | fuse/src/async_fuse/inode_table.rs:190-195 | moves the key and sets the slot's path, replacing what the new path led to; panics if the old path is unknown |
| `InodeTables.InodeTable.Unlink` | fuse/src/async_fuse/inode_table.rs:197-201 | removes the key only; the slot keeps its path |
| `DirBuffer.DecodeEncodeAll` | fuse/src/fuser/ll/reply.rs:345-418 | reading a buffer by header, name length and padding gives back exactly the entries, in order |
| `DirBuffer.EncodeInjective` | fuse/src/fuser/ll/reply.rs:345-418 | two listings that look the same in a buffer are the same |
| `DirBuffer.NumbersBack` | fuse/src/fuser/ll/reply.rs:265-276 | inode, signed offset, name length and file type are recovered from their little-endian fields |
| `DirBuffer.EntListBuf.Push` | fuse/src/fuser/ll/reply.rs:349-362 | refuses exactly what does not fit, and then changes nothing; otherwise appends padded to 8 bytes |
| `DirBuffer.DirEntList.Push` | fuse/src/fuser/ll/reply.rs:408-418 | after any pushes the buffer encodes the accepted entries and is within its size |
| `DirBuffer.DirEntList.NewDirectory` | fuse/src/fuser/ll/reply.rs:230-233 | the reply is within its size, a multiple of 8 long, and is read as the accepted entries |
| `Readdir.PageMaximal` | fuse/src/async_fuse/fusemt.rs:613-644 | a page holds as many entries as its size allows |
| `Readdir.LaterAnswersIgnored` | fuse/src/async_fuse/fusemt.rs:575-597 | what the target would answer after the first reply does not change what is delivered |
| `Readdir.OthersKeep` | fuse/src/async_fuse/directory_cache.rs:38-71 | requests for other open directories leave the cached listing alone |
| `Readdir.EntriesOfTheirOwn` | fuse/src/async_fuse/directory_cache.rs:40-45 | the first 2^64 - 1 opened directories have entries of their own |
| `Readdir.ReleasedIsGone` | fuse/src/async_fuse/directory_cache.rs:66-71 | after a release no request with that key gets a page, and other open directories are as they were |
| `Readdir.KeysCount` | fuse/src/async_fuse/directory_cache.rs:40-45 | keys are counted up modulo 2^64 |
| `Readdir.PageParents` | fuse/src/async_fuse/fusemt.rs:599-619 | every page shows `..` with the inode the parent's path leads to at that time, and with the root's own for the root |
| `Readdir.SessionInOrder` | fuse/src/async_fuse/fusemt.rs:560-647 | whatever the reply sizes and errors, what is delivered are entries of one listing, in order, none twice, with `.` and `..` leading where they did at one of the requests |
| `Readdir.SessionComplete` | fuse/src/async_fuse/fusemt.rs:560-647 | if every reply can hold the next entry, reading ends with an empty reply and everything delivered |
| `Readdir.TooSmallEnds` | fuse/src/async_fuse/fusemt.rs:632-644 | a request ends the reading exactly at the end of the listing, or if it is too small for the next entry |
| `FuseMt.FuseMT.FillPage` | fuse/src/async_fuse/fusemt.rs:613-646 | the loop with early exit sends the page of the specification |
| `FuseMt.FuseMT.Lookup` | fuse/src/async_fuse/fusemt.rs:128-146 | the path found is given an inode and counted once, or the error or panic is answered, as specified |
| `FuseMt.FuseMT.Make` | fuse/src/async_fuse/fusemt.rs:256-299 | mknod, mkdir, symlink and create: the target is asked, then the path added; a duplicate panics |
| `FuseMt.FuseMT.Rmdir` | fuse/src/async_fuse/fusemt.rs:318-334 | the table is left as it was |
| `FuseMt.FuseMT.Rename` | fuse/src/async_fuse/fusemt.rs:352-381 | both directories are resolved first; then the target is asked and the table updated |
| `FuseMt.FuseMT.Readdir` | fuse/src/async_fuse/fusemt.rs:560-647 | cache and reply are those of the specification: fetched once, errors in order, `.` and `..` resolved |
| `FuseMt.FuseMT.Opendir` | fuse/src/async_fuse/fusemt.rs:548-558 | a cache entry is made exactly if the path is known and the target opens it; otherwise its error, EINVAL or the panic is answered |
| `FuseMt.FuseMT.Releasedir` | fuse/src/async_fuse/fusemt.rs:649-668 | the cache entry goes even if the target fails, whose error is answered; it stays if the inode has no path |
| `FuseMt.DirectoryCache.NewEntry` | fuse/src/async_fuse/directory_cache.rs:40-45 | hands out the next key for a listing not yet fetched |

## Left out

- The `sync` feature, wakes from other threads and memory orderings: each method of the state word is one step on the owner thread. A thread has one runtime; tasks of one runtime woken inside another are not modelled.
- Panics inside futures and destructors, and `catch_unwind`.
- Destructors run by a step are taken apart: a waker dropped with a cell, or replaced in it, waits in `dropping` and is released by some later step, in any order, and dropping a JoinHandle ends with a separate release of its reference. The source does these at once; the model allows more orders.
- What futures do is an arbitrary list of calls per poll; a call the future does not own what it needs for, or that would panic, does not happen. `will_wake` is equality of wakers. What wakers of other runtimes do when woken is not modelled.
- A reference count that overflows ends the process; methods that can meet this promise nothing about the state afterwards.
- `BlockOn.Execute`: follows the loop for a given number of turns, since the loop itself need not end. What the driver's `submit` and `park` do is an arbitrary list of calls each.
- `BlockOn.DropQueue`: destructors make an arbitrary list of calls after each Task; one that would panic does not happen, as everywhere.
- SimpleFS contents of files and symlinks, sizes, times, extended attributes, `setattr`, `access`, `lookup` replies and file handle numbers.
- `SimpleFs.SimpleFS.Rename`: takes what the kernel guarantees as its precondition, as do the other handlers: names are neither `.` nor `..`, parents that exist are live directories, unlink is for files and rmdir for directories, hard links are for files, a plain rename has two different inodes, and no directory moves below itself. In runs of requests `create` also asks for a regular file and what is released was opened; the handlers themselves cover the rest.
- Claims about `..` are for directories that still have a name: an opened directory that was removed keeps an entry that may lead nowhere.
- `NamespaceTheorems.SameInodeExactly`: what happens to a file's content is not modelled; a rename of a file's only name onto itself also removes its content.
- Integer widths of lookup counts, generations of inodes, open counts and inode numbers; overflow of a link count is modelled as a panic.
- The `Ref` returned by the slab's `get`: reading through it is `SlabHeap.Slab.Get`, removing through it is `SlabHeap.Slab.Remove`. Dropping the values of a dropped slab is not modelled.
- Paths are an abstract type with equality; the parent of a path is a function given to the model. `PathBuf` and hashing are left out.
- `Readdir.SessionComplete`: names are shorter than 2^32 bytes and the inode table knows the directory and its parent; otherwise the request answers an error or panics, as `Readdir.Readdir` says.
- The handlers of `FuseMT` that only look up a path and forward to the target, and readdirplus replies.
- The io_uring driver, buffers, mounting, sessions, the copy under `uring_fuse`, clients, workers and configuration: foreign calls, plumbing, or members that would only be easy.
