# Verified models of the pthreads-win32 synchronisation core

These Dafny modules model the synchronisation protocols of a POSIX threads library
built on Win32 interlocked operations, auto-reset events and semaphores, and prove what
the protocols are for: that no signal or hand-off is lost, that locks exclude, that
counters count what they stand for, that nobody touches memory that has been given back.

## How the models are built

Each protocol is a step machine. A state is the shared variables and a sequence with one
program counter per thread (per queue node for the MCS lock); the length of the sequence
is arbitrary. One step is one interlocked operation, one semaphore, event or lock
operation, or one access to a plain variable where its interleaving matters. Blocked
threads stutter. `Act` says what a thread does to the variables and where it goes, `Step`
applies it to one thread, `Run` follows a schedule: any sequence of threads and of the
choices the code leaves open (which call comes next, whether a wait times out or is
cancelled). Fields marked "history" record what happened. No step goes by them, but that
calls outside what the code provides for are not steps: unlocking a normal mutex or a
read-write lock one does not hold (`Mutex.ActCall`, `RwLock.ActCall`). In `Tsd` the log of
destructor calls numbers them for the script that says what each does.

The invariant of each machine (`Inv`) has two parts: sums over all threads against the
shared variables (`Balanced`, with sums from `Counting`), and what one thread may rely on
where it is (`Local`). `StepInv` proves that every step of every thread keeps it, `RunInv`
that it holds after every schedule. The theorems are in the `...Theorems` modules.

The `...Machine` modules hold the same protocols as classes with the fields of the C
structs, updated in place one statement at a time. `Advance` is proved to do to the
fields exactly what `Step` does to the state, `Execute` what `Run` does, so the theorems
are about these classes.

Layers: `McsLock` is used by `Barrier` and `Once` through its steps and theorems; the
read-write lock uses mutexes and the condition variable through what is proved of them
(one holder; a signal wakes a registered waiter; a wait may end without one).

`RobustLists` and `RobustCalls` (the lists of robust mutexes, calls one at a time), `Tsd`
(thread-specific data) and `ReusePool` (thread handles) are heap data structures with
loops, proved against sequences that say what the links represent.

| file | source |
|---|---|
| Counting.dfy, Sequences.dfy, MutexKinds.dfy | sums of per-thread weights; sequences of distinct nodes; the kinds of mutexes |
| CondVar.dfy, CondVarTheorems.dfy, CondVarMachine.dfy | condition variables |
| McsLock.dfy, McsTheorems.dfy, McsOrder.dfy, McsMachine.dfy | the MCS queue lock with node transfer |
| Mutex.dfy, MutexTheorems.dfy, MutexMachine.dfy | normal, recursive and errorcheck mutexes |
| RwLock.dfy, RwLockTheorems.dfy, RwLockMachine.dfy | read-write locks |
| Barrier.dfy, BarrierTheorems.dfy, BarrierProgress.dfy, BarrierMachine.dfy | barriers |
| Once.dfy, OnceMachine.dfy | pthread_once |
| RobustMutex.dfy, RobustMutexTheorems.dfy, RobustMutexMachine.dfy | robust mutexes, interleaved |
| RobustLists.dfy, RobustCalls.dfy | the lists of robust mutexes, calls one at a time |
| Tsd.dfy | pthread_setspecific, pthread_key_delete and the destructor passes |
| ReusePool.dfy | the thread-handle pool |

## Where code and comments differ

- The comment at ptw32_callUserDestroyRoutines.c:98 says the passes are made at most
  PTHREAD_DESTRUCTOR_ITERATIONS times. The code makes one more, which calls no destructor
  and drops what is left. implement.h:540-542 says an association is destroyed right after the
  destructor was called; the code keeps it until a later pass finds its value NULL.
- pthread_rwlock_trywrlock.c:123-126 returns EBUSY with both mutexes held. The branch is
  never taken (`RwLockTheorems.BothMutexesMeanNoWriter`).
- A mutex that was inherited and unlocked without repair is marked NOTRECOVERABLE
  (pthread_mutex_unlock.c:131-133). The code does not keep it from being owned after that,
  for any kind. A recursive mutex is marked by an inner unlock, while its heir still owns it
  (`RobustMutexTheorems.RecursiveLeavesNotRecoverable`). For every kind a caller that looked
  at the state before the mark was set can still take the mutex and is told 0
  (`NormalOwnedNotRecoverable` is such a run; `TakenThoughNotRecoverable` says exactly which
  steps take it). The death of such an owner makes the mutex inheritable again, and nothing
  else does (`NotRecoverableLeft`). What does hold: calls that start while the mutex is
  NOTRECOVERABLE are refused unless an owner dies in between (`StartedCallRefused`), and with
  whole calls one at a time a normal or errorcheck mutex stays so (`Process.Execute`).

## Model

| member | source | states |
|---|---|---|
| CondVar.StepInv | pthread_cond_wait.c:295-345 | every step of a waiter, signaller, broadcaster or destroyer keeps: the gate is one token, the unblock mutex has one holder, waiters are conserved over the three counters, every owed waiter has a wakeup on its way |
| CondVar.RunInv | pthread_cond_signal.c:92-151 | the same after any schedule of any number of threads |
| CondVarTheorems.NoLostSignal | pthread_cond_signal.c:92-151 | in every reachable state tokens plus wakeups in flight cover nWaitersToUnblock, which never exceeds the registered waiters, and wakeups issued are exactly those consumed, queued or in flight |
| CondVarTheorems.ExactWithoutExpiry | pthread_cond_wait.c:301-345 | if no wait ever times out or is cancelled, owed waiters and wakeups match one for one, nWaitersGone stays 0 and completed waits never exceed issued signals |
| CondVarTheorems.NoOpIffAllOwed | pthread_cond_signal.c:97-143 | a signal or broadcast does nothing if and only if every registered waiter is already owed a wakeup, although nWaitersBlocked is compared without the gate |
| CondVarTheorems.FixesCount | pthread_cond_signal.c:103-138 | a broadcast owes a wakeup to every registered waiter, a signal to exactly one more, and there always is one |
| CondVarTheorems.StepCaughtUp | pthread_cond_wait.c:389-396 | while every registered waiter is owed a wakeup no step lets another thread register |
| CondVarTheorems.NoOvertaking | pthread_cond_signal.c:97-139 | over any run after a broadcast fixed its count, until its last waiter has done its cleanup, the set of registered waiters only shrinks: no later arrival takes a wakeup |
| CondVarTheorems.BlockedExclusive | pthread_cond_wait.c:394-394 | no two threads are ever between a read and the write of nWaitersBlocked |
| CondVarTheorems.BlockedMeansStuck | pthread_cond_wait.c:388-439 | a thread is unable to move exactly when it waits for a taken gate, a taken mutex or an absent token |
| CondVarTheorems.GateWaitIsSafe | pthread_cond_signal.c:115-138 | a thread that waits for the gate while it has the mutex waits for another that has the gate, does not need the mutex and is not blocked |
| CondVarTheorems.GateHolderPosts | pthread_cond_wait.c:338-345 | every move of such a gate holder brings it closer to posting the gate, which it does without the mutex |
| CondVarTheorems.NoDeadlock | pthread_cond_destroy.c:148-163 | whenever some thread waits for the gate or the mutex, some thread in the middle of a call can move |
| CondVarTheorems.NoOverflow | pthread_cond_wait.c:305-330 | with fewer than INT_MAX/2 registered waiters the three counters are in range after any run of timeouts, signals and resets |
| CondVarTheorems.CountersCountWaiters | pthread_cond_signal.c:97-145 | whenever mtxUnblockLock is free, nWaitersBlocked + nWaitersToUnblock - nWaitersGone is the number of registered waiters, nWaitersGone is below INT_MAX/2 and no more than nWaitersBlocked, and it is 0 while wakeups are owed |
| CondVarTheorems.DestroySafe | pthread_cond_destroy.c:148-201 | destroy reaches its success branch if and only if no waiter is registered; then nobody else holds the mutex or owes a gate post |
| CondVarTheorems.DestroyLeaves | pthread_cond_destroy.c:174-201 | every other thread is then outside or at the very start of a call, or else a signaller that is still to post: exactly those that have wakeups in flight |
| CondVarTheorems.DestroyLeavesNoPost | pthread_cond_signal.c:145-151 | no such signaller is left in runs without timeouts and cancellations: then every wakeup has been consumed |
| CondVarMachine.Cond.Advance | pthread_cond_wait.c:295-439 | any statement of any thread keeps the invariant of the fields and refines Step |
| CondVarMachine.Cond.Execute | pthread_cond_signal.c:92-151 | any number of statements in any order keep the invariant and refine Run |
| McsLock.StepInv | ptw32_MCS_lock.c:177-310 | every step of acquire, try_acquire, release and node_transfer keeps the shape of the queue: links, flags, events and lock word agree with one order of nodes |
| McsLock.RunInv | ptw32_MCS_lock.c:177-310 | the same after any schedule of any number of nodes |
| McsLock.HeadFacts | ptw32_MCS_lock.c:211-244 | the owner is the first node of the queue; the lock word names it exactly when nobody is queued behind it, and once nextFlag is set its link is the second node |
| McsTheorems.Exclusion | ptw32_MCS_lock.c:177-197 | at most one node owns the lock |
| McsTheorems.TicketsInOrder | ptw32_MCS_lock.c:186-188 | the exchange on the lock word gives a node the place after all nodes queued then |
| McsTheorems.ServedInOrder | ptw32_MCS_lock.c:211-264 | the lock goes to the nodes in the order of their places, one per release, also when places are handed on by a transfer |
| McsOrder.FirstComeFirstServed | ptw32_MCS_lock.c:177-264 | after any run the nodes that have got the lock are the first of those that joined the queue, in the same order, and all but the present owner have given it up |
| McsOrder.OneOwner | ptw32_MCS_lock.c:177-244 | after any run at most one node owns the lock |
| McsTheorems.TransferTakesPlace | ptw32_MCS_lock.c:281-310 | a finished transfer leaves the new node owning the lock in the old node's place, with its successor linked, and the old node free |
| McsTheorems.TouchesComplete | ptw32_MCS_lock.c:109-310 | a step of one node neither depends on nor changes the link and flags of any other node but the ones Touches names: it is the same step whatever they hold |
| McsTheorems.NoAccessAfterRelease | ptw32_MCS_lock.c:109-163 | each node so touched is one in the use it is meant for: neighbour in the queue or target of the transfer, never a free one |
| McsTheorems.FreeNodesUnread | ptw32_MCS_lock.c:211-244 | the next step of any node is the same whatever is in the memory of a node whose release or transfer has finished, and leaves that memory as it is |
| McsTheorems.FreeNodesUntouched | ptw32_MCS_lock.c:211-244 | no step writes a node whose release or transfer has finished |
| McsTheorems.EventsAreOpen | ptw32_MCS_lock.c:126-160 | an event handle taken from a flag is set only while its creator still waits on it |
| McsTheorems.ReleasesFinished | ptw32_MCS_lock.c:242-244 | when a node owns the lock every earlier release is over |
| McsTheorems.HandOffNotStuck | ptw32_MCS_lock.c:109-163 | while the lock is being handed to a queued node, that node or the one handing it over can move, whichever reached the flag first |
| McsTheorems.LockNotStuck | ptw32_MCS_lock.c:177-310 | while any acquire, release or transfer is under way, one of them can move, unless the lock is owned by a node whose owner has yet to call |
| McsTheorems.HandOffProgress | ptw32_MCS_lock.c:211-243 | each such move lowers a measure that no other node can raise, so the waiting node comes to own the lock |
| McsTheorems.HandOffBounded | ptw32_MCS_lock.c:109-163 | over any schedule, whatever the other nodes do: until the waiting node owns the lock, it and its giver have made no more moves than a fixed measure (at most 14) allows |
| McsTheorems.HandOffCompletes | ptw32_MCS_lock.c:211-243 | there always is a schedule of only those two nodes, within that measure, that ends with the waiting node owning the lock |
| McsTheorems.OwnMoves | ptw32_MCS_lock.c:252-264 | an operation stays itself until it ends in owning the lock or in a free node |
| McsTheorems.OthersKeepPc | ptw32_MCS_lock.c:177-310 | no operation changes what another node is used for, but for the target of a transfer |
| McsMachine.Lock.Advance | ptw32_MCS_lock.c:177-310 | any operation's next step keeps the invariant of the nodes in place and refines Step |
| McsMachine.Lock.Execute | ptw32_MCS_lock.c:177-310 | any steps in any order refine Run |
| Mutex.StepInv | pthread_mutex_lock.c:82-149 | every step of lock, timedlock, trylock and unlock keeps: one holder exactly while lock_idx is not 0, and no waiter without somebody or something to wake it |
| Mutex.RunInv | pthread_mutex_timedlock.c:147-208 | the same after any schedule, timeouts included |
| MutexTheorems.Exclusion | pthread_mutex_lock.c:87-146 | at most one thread has the mutex, and then lock_idx is not 0 |
| MutexTheorems.HeldUnlessFree | pthread_mutex_unlock.c:73-103 | lock_idx is not 0 only while some thread has the mutex |
| MutexTheorems.NoLostWakeup | pthread_mutex_unlock.c:67-117 | while a thread waits for the event, the event is set, or lock_idx is -1, or some thread is about to set the event or to exchange in -1, although the first exchange of lock may overwrite -1 by 1 |
| MutexTheorems.FreeMutexNotStranded | pthread_mutex_lock.c:87-101 | with the mutex free and a waiter there is a thread whose next move wakes, sets the event or takes the mutex |
| MutexTheorems.LookerKeepsPromise | pthread_mutex_lock.c:91-100 | whatever others do before it moves, the next move of a thread about to set the event or to exchange in -1 leaves the event set, or the mutex taken if it was free, or -1 in lock_idx for the holder to find |
| MutexTheorems.FreeMutexTaken | pthread_mutex_unlock.c:73-87 | from every state in which a thread waits for a free mutex, at most three moves of that thread and of one about to look take it |
| MutexTheorems.AfterAnyRun | pthread_mutex_timedlock.c:147-208 | after any run with timeouts: one holder exactly while lock_idx is not 0, and no waiter without an event, a -1 or a thread about to look |
| MutexTheorems.OwnerReadIsRight | pthread_mutex_lock.c:117-127 | the unlocked read of ownerThread tells every reader rightly whether it is the owner |
| MutexTheorems.CountIsOutstanding | pthread_mutex_unlock.c:95-98 | recursive_count is the number of the owner's locks not yet unlocked |
| MutexTheorems.ResultsAreRight | pthread_mutex_trylock.c:80-105 | 0 means one lock more (or one less, from unlock); EDEADLK that the caller owns the errorcheck mutex; EPERM that it does not hold the mutex; EBUSY that the mutex was taken, for a recursive one by another thread; ETIMEDOUT that the caller's timed wait expired; failures change nothing the caller holds |
| MutexTheorems.BusyMeansTaken | pthread_mutex_trylock.c:83-104 | a trylock that fails at its compare-exchange does so because some thread has the mutex, another one unless the caller holds it itself |
| MutexTheorems.TakenOnlyWhenFree | pthread_mutex_trylock.c:83-93 | a thread comes to have the mutex only in a step that found lock_idx 0 |
| MutexTheorems.GivenUpOnlyByUnlock | pthread_mutex_unlock.c:100-110 | only the last unlock gives the mutex up, and it goes on to set the event if it found -1 |
| MutexMachine.Mx.Advance | pthread_mutex_lock.c:82-149 | any operation of any thread keeps the invariant of the fields and refines Step |
| MutexMachine.Mx.Execute | pthread_mutex_lock.c:82-149 | any operations in any order refine Run |
| RwLock.StepInv | pthread_rwlock_wrlock.c:83-137 | every step of readers and writers keeps the accounting of readers, writers and the waiting writer |
| RwLock.RunInv | pthread_rwlock_rdlock.c:83-108 | the same after any schedule |
| RwLockTheorems.WriterExcludes | pthread_rwlock_wrlock.c:94-137 | while a thread has the write lock no thread has a read lock and no other the write lock |
| RwLockTheorems.ReadersAreCounted | pthread_rwlock_unlock.c:75-88 | active readers are nSharedAccessCount - nCompletedSharedAccessCount, and -nCompletedSharedAccessCount while a writer waits |
| RwLockTheorems.BothMutexesMeanNoWriter | pthread_rwlock_trywrlock.c:95-126 | whoever has both mutexes finds nExclusiveAccessCount 0 |
| RwLockTheorems.UnlockPicksOwnBranch | pthread_rwlock_unlock.c:75-97 | the unlocked read of nExclusiveAccessCount always makes unlock release what the caller has |
| RwLockTheorems.WriterTakesCleanLock | pthread_rwlock_wrlock.c:127-137 | the write lock is obtained only with no reader and all counts 0, on the direct and on the waiting path |
| RwLockTheorems.CancelRestoresCounts | ptw32_rwlock_cancelwrwait.c:50-56 | a timed-out or cancelled writer leaves counts whose difference is again the number of readers |
| RwLockTheorems.WriterIsWoken | pthread_rwlock_unlock.c:83-86 | a writer that waits although no reader is left has been signalled or is about to be |
| RwLockTheorems.LastReaderSignals | pthread_rwlock_unlock.c:83-86 | a reader signals the waiting writer if and only if it is the last |
| RwLockTheorems.CountsInRange | pthread_rwlock_rdlock.c:88-106 | with fewer than INT_MAX readers at a time no count leaves the range of int over any run, because of the folding at INT_MAX |
| RwLockMachine.Rwl.Advance | pthread_rwlock_timedwrlock.c:84-143 | any statement of any thread keeps the invariant of the fields and refines Step |
| RwLockMachine.Rwl.Execute | pthread_rwlock_wrlock.c:83-137 | any statements in any order refine Run |
| Barrier.StepInv | pthread_barrier_wait.c:61-108 | every step, also of the lock code underneath, keeps the phases of a generation: filling, then draining |
| Barrier.RunInv | pthread_barrier_wait.c:61-108 | the same after any schedule |
| BarrierTheorems.NobodyLeavesEarly | pthread_barrier_wait.c:95-98 | a thread past the semaphore is in the current generation and all of it has arrived |
| BarrierTheorems.GenerationsDoNotMix | pthread_barrier_wait.c:61-66 | an arrival is counted only when every thread of all earlier generations has incremented the height again |
| BarrierTheorems.HeightNotRaced | pthread_barrier_wait.c:64-98 | the plain decrement of the height never meets another decrement or an interlocked increment |
| BarrierTheorems.OneSerialPerGeneration | pthread_barrier_wait.c:97-107 | the thread told to be the serial one is the one whose increment completes a generation |
| BarrierTheorems.BetweenGenerations | pthread_barrier_wait.c:78-98 | in every reachable state serial threads match complete generations, and between generations the semaphore is empty |
| BarrierTheorems.ProxyFreeWhenOverwritten | pthread_barrier_wait.c:66-71 | proxynode is overwritten only after its last release is over |
| BarrierTheorems.LastOutReleases | pthread_barrier_wait.c:97-103 | the last thread out finds the lock owned through proxynode, with nobody left inside, and releases it |
| BarrierTheorems.TokenForEveryWaiter | pthread_barrier_wait.c:78-94 | after the post every thread of the generation that still waits finds a token |
| BarrierProgress.NotStuck | pthread_barrier_wait.c:61-108 | some thread in the barrier can move whenever one is in it other than waiting for a generation that still fills, lock and transfer included |
| BarrierProgress.BlocksOnlyForArrivals | pthread_barrier_wait.c:61-108 | after any run, if no thread in the barrier can move, all of them wait at the semaphore for a generation that is short of threads |
| BarrierProgress.DrainProgress | pthread_barrier_wait.c:78-103 | each move of a thread of a draining generation lowers a measure of at most twice its height that no other thread can raise, so that the whole generation gets out |
| BarrierMachine.Bar.Advance | pthread_barrier_wait.c:61-108 | any step keeps the invariant of barrier and lock in place and refines Step |
| BarrierMachine.Bar.Execute | pthread_barrier_wait.c:61-108 | any steps in any order refine Run |
| Once.StepInv | pthread_once.c:63-92 | every step, also of the lock code, keeps: only the lock owner is in the initialiser, and only before the flag is set |
| Once.RunInv | pthread_once.c:63-92 | the same after any schedule with any cancellations |
| Once.CompletesAtMostOnce | pthread_once.c:71-87 | over any run init_routine completes at most once, and exactly once when the flag is set |
| Once.NoOverlap | pthread_once.c:69-80 | two executions of init_routine never overlap and none begins after one completed |
| Once.ReturnsAfterCompletion | pthread_once.c:63-92 | every call that returned 0 returned after init_routine had completed |
| Once.CancelledPassesLock | pthread_once.c:48-80 | a cancelled initialiser hands the lock to the caller queued next and leaves the flag unset |
| Once.NextCallerTriesAgain | pthread_once.c:69-87 | that caller runs init_routine if and only if no execution has completed |
| OnceMachine.Control.Advance | pthread_once.c:63-92 | any step keeps the invariant of flag and lock in place and refines Step |
| OnceMachine.Control.Execute | pthread_once.c:63-92 | any steps in any order refine Run |
| RobustMutex.StepInv | pthread_mutex_lock.c:157-268 | every step of lock, trylock, unlock, consistent and death keeps: the lock word is not 0 exactly while there is one live owner or one orphan, deaths balance with heirs, the node is in the owner's list only |
| RobustMutex.RunInv | pthread_mutex_trylock.c:114-161 | the same after any schedule |
| RobustMutexTheorems.OneOwner | pthread_mutex_lock.c:171-265 | after any run there are never two live owners |
| RobustMutexTheorems.FreeMeansNoOwner | pthread_mutex_unlock.c:129-170 | lock_idx is 0 if and only if there is no live owner and nothing to inherit |
| RobustMutexTheorems.OneHeirPerDeath | pthread_mutex_consistent.c:84-107 | after any run returns of EOWNERDEAD never exceed heirs, nor heirs deaths; the difference is the current orphan and the heirs about to return |
| RobustMutexTheorems.DeathsAndHeirsAlternate | pthread_win32_attach_detach_np.c:250-263 | a death is recorded only when the one before was inherited, and only the compare-exchange that consumes the mark of a death makes an heir |
| RobustMutexTheorems.ReturnsAreRight | pthread_mutex_trylock.c:128-162 | 0 and EOWNERDEAD leave the caller with one lock more, any other result with what it had; EOWNERDEAD goes to the heir only |
| RobustMutexTheorems.NodeIsWithOwner | pthread_mutex_consistent.c:123-145 | the node is in a thread's list if and only if that thread has the mutex to give back |
| RobustMutexTheorems.UnlinkedBeforeInherited | pthread_win32_attach_detach_np.c:250-257 | when an owner publishes its death, and when the heir links the node, the node is in no list |
| RobustMutexTheorems.OwnerReadIsRight | pthread_mutex_unlock.c:129-129 | the unlocked read of the owner tells a running thread exactly whether it has locks to give back, also after deaths |
| RobustMutexTheorems.CountIsOutstanding | pthread_mutex_lock.c:210-220 | recursive_count is the number of the owner's locks not yet unlocked |
| RobustMutexTheorems.NotRecoverableLeft | pthread_mutex_consistent.c:84-107 | a step leaves NOTRECOVERABLE if and only if it is the death of an owner |
| RobustMutexTheorems.StaysNotRecoverable | pthread_mutex_unlock.c:129-133 | over any run in which no owner dies a mutex that is not recoverable stays so |
| RobustMutexTheorems.StartedCallRefused | pthread_mutex_lock.c:159-164 | a lock or trylock that starts while the mutex is not recoverable returns ENOTRECOVERABLE, whatever others do meanwhile, unless an owner dies |
| RobustMutexTheorems.TakenThoughNotRecoverable | pthread_mutex_lock.c:173-211 | such a mutex is taken if and only if lock_idx is 0 and the caller is at its exchange or compare-exchange, having looked at the state before |
| RobustMutexTheorems.NormalOwnedNotRecoverable | pthread_mutex_lock.c:159-206 | a run in which a lock call on a normal mutex returns 0 though the mutex is not recoverable, and the death of that owner makes it inheritable again |
| RobustMutexTheorems.RecursiveLeavesNotRecoverable | pthread_mutex_unlock.c:129-153 | a run in which a recursive mutex becomes not recoverable by an inner unlock, while owned, and inheritable again by the heir's death |
| RobustMutexMachine.Rmx.Advance | pthread_mutex_lock.c:157-268 | any operation of any thread keeps the invariant of the fields and refines Step |
| RobustMutexMachine.Rmx.Execute | pthread_mutex_lock.c:157-268 | any operations in any order refine Run |
| RobustLists.ThreadStruct.Add | pthread_mutex_consistent.c:123-145 | the node becomes the head of a well-formed doubly linked list |
| RobustLists.ThreadStruct.Remove | pthread_mutex_consistent.c:149-169 | a node at any place leaves the list, which stays well-formed with the others in order |
| Sequences.WithoutMembers | pthread_mutex_consistent.c:149-169 | exactly the removed node is no longer a member |
| RobustCalls.Process.Own | pthread_mutex_consistent.c:123-145 | adding keeps that every thread's list is a chain of exactly the mutexes it owns, for all threads |
| RobustCalls.Process.Disown | pthread_mutex_consistent.c:149-169 | so does removing from anywhere in the list |
| RobustCalls.Process.OwnedAreListed | pthread_mutex_consistent.c:111-121 | a mutex is in a running thread's list if and only if it records that thread as owner |
| RobustCalls.Process.NodeListed | pthread_mutex_consistent.c:111-121 | a node is in no list but that of the recorded owner |
| RobustCalls.Process.Contend | pthread_mutex_lock.c:177-197 | a caller that finds the mutex owned inherits it if and only if the owner is dead, else it ends up waiting with lock_idx -1; the loop terminates |
| RobustCalls.Process.Lock | pthread_mutex_lock.c:150-272 | for each state and owner: the result, the new owner, state and count, and the list with the mutex added exactly when it was taken |
| RobustCalls.Process.TryLock | pthread_mutex_trylock.c:107-162 | the same for trylock, which never waits |
| RobustCalls.Process.Unlock | pthread_mutex_unlock.c:119-175 | only the owner succeeds; the last unlock takes the mutex out of the list from any place, frees it, sets the event if lock_idx was negative, and an inconsistent mutex becomes not recoverable |
| RobustCalls.Process.MakeConsistent | pthread_mutex_consistent.c:172-196 | an inconsistent mutex becomes consistent, any other state is left and EINVAL returned |
| RobustCalls.Process.Exit | pthread_win32_attach_detach_np.c:250-263 | the loop ends with the list empty, every mutex the thread owned marked for inheritance with its event set, and all other mutexes as they were |
| RobustCalls.Process.Do | pthread_mutex_unlock.c:129-133 | one call makes a mutex of any kind leave NOTRECOVERABLE if and only if it is the end of the thread that owned it |
| RobustCalls.Process.Execute | pthread_mutex_lock.c:159-164 | over any sequence of calls a normal or errorcheck mutex that is not recoverable is never owned and stays so |
| Tsd.ThreadData.AssocCreate | ptw32_tkAssocCreate.c:86-121 | the new association is put in front of the cursor: what the current pass has to visit is unchanged |
| Tsd.ThreadData.AssocDestroy | ptw32_tkAssocDestroy.c:70-119 | an association leaves the chain from any place, and a cursor on it moves to the next |
| Tsd.ThreadData.Find | pthread_setspecific.c:136-150 | the walk finds the key's association exactly if there is one |
| Tsd.ThreadData.SetSpecific | pthread_setspecific.c:115-171 | the value is stored, and a value that needs a destructor has an association afterwards, made only if there was none |
| Tsd.ThreadData.KeyDelete | pthread_key_delete.c:76-128 | the key's association goes, also from under the cursor, and the pass loses no other |
| Tsd.ThreadData.Visit | ptw32_callUserDestroyRoutines.c:117-233 | the value is cleared before it is handed to the destructor or dropped, and the visits left shrink whatever the destructor does |
| Tsd.ThreadData.RunPass | ptw32_callUserDestroyRoutines.c:100-234 | a pass ends, calls each key's destructor at most once, and in the first four hands over every value there at its start unless a destructor of the pass acted on the key; if it calls none the chain is empty |
| Tsd.ThreadData.CallUserDestroyRoutines | ptw32_callUserDestroyRoutines.c:83-237 | for any destructors that set values and delete keys: at most five passes, at most four calls for each key, no association and no value with a destructor left |
| Tsd.PassCalls | ptw32_callUserDestroyRoutines.c:100-234 | a pass adds at most one call for each key |
| Tsd.TodoWithout | ptw32_tkAssocDestroy.c:93-100 | what a pass has still to visit after an association was removed is what it had, without that one |
| ReusePool.Pool.ReusePop | ptw32_reuse.c:84-113 | the struct pushed first is taken, with a counter that no issued handle of it has |
| ReusePool.Pool.ReusePush | ptw32_reuse.c:121-159 | the struct becomes the last of the queue and its handle is destroyed by the bumped counter |
| ReusePool.Pool.New | ptw32_new.c:49-104 | the handle issued was never issued before, from the front of the pool or freshly allocated, with the next sequence number; on failure nothing is issued and that struct goes to the end of the pool |
| ReusePool.Pool.IsDestroyed | pthread_kill.c:92-96 | the counter of a copy differs from that of its struct if and only if its thread was destroyed |
| ReusePool.Pool.Execute | ptw32_reuse.c:49-79 | over any sequence of creations and destructions no pair of struct and counter is issued twice, and structs are popped in the order they were pushed |

## Left out

- CondVarMachine.Cond.Advance: the external mutex of pthread_cond_wait is not modelled,
  neither its unlocking after registration nor its locking at the end of the cleanup; of
  destroy, the calls that give the semaphores and the mutex back to Win32 are not.
- Initialisation, static initialisers, attribute objects, and the EINVAL and ENOMEM paths.
- Failures of Win32 waits, semaphores and CreateEvent in the locks: events are booleans,
  semaphores are counters, a failed timed wait takes no token. The arm of
  ptw32_mcs_flag_wait that skips the wait when no event can be created is not modelled.
- CondVarTheorems.DestroySafe: does not exclude a signaller that still has to post its tokens
  to the destroyed semaphore; DestroyLeaves and DestroyLeavesNoPost say when there can be one.
  The unlinking from the global list of condition variables is not modelled.
- MutexTheorems.NoLostWakeup: for mutexes that are not robust. Unlocking another thread's
  normal mutex is outside what the code provides for (pthread_mutex_unlock.c:58-62) and is
  not a step of the model.
- RwLockTheorems.UnlockPicksOwnBranch: for threads that hold the lock; unlocking a
  read-write lock one does not hold is not a step of the model.
- RwLock.StepInv: pthread_rwlock_timedrdlock is not modelled; its arm at INT_MAX updates the
  completed count without the mutex for it.
- RwLockMachine.Rwl.Advance: the writer's condition wait is one registration and one return with
  or without a signal, as proved for condition variables, and not the condition variable's
  own steps.
- McsLock.StepInv: the program counters belong to queue nodes, so that one thread may have
  several nodes in use; which thread runs a node is not recorded.
- Robust pthread_mutex_timedlock, whose fast path does not register the owner; the absence
  of lost wakeups for robust mutexes.
- RobustCalls.Process.Lock: a call that blocks is not resumed, as calls run one at a time;
  what happens to waiters is the subject of RobustMutex. Contend therefore has no second
  look at NOTRECOVERABLE after its wait, where nothing can have changed.
- Tsd.ThreadData.KeyDelete: by the thread itself, from its destructors. Deletion by other
  threads meanwhile, the key and thread locks with their retry, and the chains of other
  threads' associations of a key are not modelled. Using a deleted key does nothing here.
- ReusePool.Pool.New: the reuse counter is unbounded, where the code's is as wide as its
  type; prevReuse is null both for the sentinel and for freshly allocated memory; the other
  fields of the thread struct are not modelled. The lock around the pool is not either.
- Cancellation delivery, thread creation, join and detach, spin locks, semaphores, barriers
  with height 0 (refused at initialisation), scheduling, names, affinity and time
  conversion: short or mostly plumbing, with only easy claims.
