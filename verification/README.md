# Verified models of the sheep_cpp runtime

sheep_cpp is a callback and coroutine runtime in C++. These Dafny modules model its protocols and
data structures and prove what they are for. Nothing was executed.

| Part | Modules |
|---|---|
| coroutine lists and the scheduler loop | `Sequences`, `CoroLists`, `IntrusiveList`, `Rings`, `SchedulerPass`, `SchedulerOrder`, `Scheduler` |
| wake-ups across schedulers | `Parking`, `SchedulerSteps`, `SchedulerRuns`, `Relabels`, `SchedulerWorld` |
| locks and futures | `Monitor`, `CoMutexProtocol`, `MutexProtocol`, `SharedStateProtocol`, `CoMutexRun`, `Locks`, `LockMoves` |
| how their calls end | `CoMutexProgress`, `MutexProgress`, `SharedStateProgress`, `Returning`, `CoMutexReturn`, `MutexReturn`, `SharedStateReturn` |
| one-shot callbacks | `Handlers`, `Asyncers`, `TimerPhases`, `Timers`, `WriteStates`, `TcpWrites`, `Buffers` |
| event loop | `TimerPollers`, `AsyncerPollers`, `Registries`, `Events` |
| other cores | `ClientPools`, `Flows`, `UrlCodes` |

`Systems` has what is common to all transition systems here, and `Options` the optional value.

How the parts fit together:

- `Scheduler` is the class over real pointer lists. Each of its methods is proved equal to a function
  of `SchedulerPass`, and the theorems about a pass are about those functions. What a pass meets with
  (`SchedulerPass.Round`) is arbitrary: what each coroutine does when it is switched to, and what other
  threads, other schedulers and the event loop do in each turn and between its phases.
- `Parking` is a transition system of any number of schedulers and coroutines. It counts the ways each
  coroutine can be woken. `SchedulerRuns` proves that a whole pass on the lists is a run of `Parking`,
  and `SchedulerWorld` that a pass of the scheduler object is one, with its nodes as the coroutines.
- `Monitor` adds a `std::mutex` with the wait queue for coroutines and threads, and the three lock
  protocols run on top of it, each in the small steps of the code. `Locks` has the objects behind
  them, and `LockMoves` proves that their critical sections are moves of the protocols. What holds of every
  run would hold too if there were too few runs: the modules `...Progress` prove that nobody who has the
  processor is ever stuck in a call, and what each call comes to when only its caller moves. `Returning`
  proves of any system on top of `Monitor` whose agents can end their calls that a notified coroutine can
  come back from every state, and the modules `...Return` apply it to the three protocols.
- Handlers that re-enter their object are finite trees of operations (`TimerPhases.Handler`,
  `WriteStates.Handler`, `Flows.Ploy`), so a call of a handler really performs them in the middle of the
  method that calls it. `Timers` is proved to run through the automaton of `TimerPhases`, and
  `TcpWrites` to change its state as `WriteStates` says. Handlers are numbered in the order they are passed
  in, and each call is recorded with its number: the theorems are about the calls of each single handler.
- `Asyncers`, `Timers` and `TcpWrites` keep the notify flag of their events, and an event fires only if
  it is set; `Events` proves that this is what the event loop does, on the two pollers themselves: a turn
  of an event runs just the callback that is due, and a batch runs callbacks of its own events only.

Where a promise is false of the code, the exact condition is proved and the failing input is given:

- a timer is reported early exactly if its time sum overflows (`TimerPhases.DueEarlyIffOverflow`);
- `FlowService::Run` finishes its event once exactly under `Flows.Once` (`Flows.FinishedOnce`), whatever
  sequence of setting an error, suspending and calling `Run` each step is;
- `TcpConnection::Reset` is sound exactly if the connection is not finished and no write is armed
  (`TcpWrites.TcpConnection.Reset`, `TcpWrites.ResetDropsHandler`), a write event exactly if the socket
  does not report -1 without an error (`TcpWrites.TcpConnection.WriteReady`), and a write exactly if it
  does not cancel a queued one whose handler finishes the connection (`TcpWrites.TcpConnection.AsyncWrite`);
- a write handler is never called exactly if its write is armed and then another write is armed
  in its place, or the connection finishes when an earlier write of the cycle is done
  (`WriteStates.GoneIsLost`, `TcpWrites.SecondWriteGone`), or the connection is destroyed
  (`TcpWrites.TcpConnection.Destroy`) or reset (`TcpWrites.ResetDropsHandler`); with one write in each cycle,
  one that is queued at its reset included, no `Finish` loses a handler (`WriteStates.OneWriteIsNeverLost`,
  `WriteStates.QueuedOverReset`);
- returning a client without an error keeps the pool sound exactly if its connection is live
  (`ClientPools.ClientPool.Insert`), and a finish without an error breaks it
  (`ClientPools.ClientPool.CloseConnection`);
- `Buffer::Read` stays inside exactly if the index sum does not wrap (`Buffers.ReadStaysInside`), and
  the index follows the count of a socket exactly if that count is not negative
  (`Buffers.AdvanceFollowsCount`);
- decoding an encoded string gives it back exactly if it has no NUL (`UrlCodes.RoundTrip`).

## Model

| member | source | states |
|---|---|---|
| CoroLists.Lists.MoveKeepsPartition | src/coroutine/coroutine_scheduler.cpp:132-143 | moving a node between lists keeps every coroutine in exactly one of the four lists |
| IntrusiveList.Init | src/util/intrusive_list.h:13-16 | a head alone is a well-linked empty circle |
| IntrusiveList.Insert | src/util/intrusive_list.h:19-24 | the circle is then the node followed by the old sequence, linked both ways |
| IntrusiveList.Remove | src/util/intrusive_list.h:27-30 | the circle is then the old sequence without that position, linked both ways |
| IntrusiveList.IsEmpty | src/util/intrusive_list.h:33-35 | true exactly for the empty sequence |
| IntrusiveList.Front | src/util/intrusive_list.h:38-43 | the first node, or null exactly if there is none |
| IntrusiveList.GetAllNodes | src/util/intrusive_list.h:46-54 | the traversal ends and returns the whole sequence in order |
| Rings.RemoveFrom | src/util/intrusive_list.h:27-30 | unlinking from one of several lists leaves the other lists linked as they were, and the node in none |
| Rings.InsertInto | src/util/intrusive_list.h:19-24 | linking into one of several lists leaves the other lists linked as they were |
| Scheduler.CoroutineScheduler.constructor | src/coroutine/coroutine_scheduler.cpp:23-32 | all coroutines are free, the last one first; every list is well linked |
| Scheduler.CoroutineScheduler.MoveTo | src/coroutine/coroutine_scheduler.cpp:132-143 | on pointers: the node leaves the list it is in and is first in the other; everything stays linked and partitioned |
| Scheduler.CoroutineScheduler.AddCoroutine | src/coroutine/coroutine_scheduler.cpp:68-81 | fails exactly if the free list is empty; else the first free node is first in the yield list |
| Scheduler.CoroutineScheduler.Resume | src/coroutine/coroutine_scheduler.cpp:103-106 | the coroutine is last in the queue, nothing else changes |
| Scheduler.CoroutineScheduler.Sleep | src/coroutine/coroutine_scheduler.cpp:108-111 | the sleeper is entered in the order of the heap, with its time and slot, and suspended; a coroutine that was not asleep is woken exactly by a wake-up at its time or later |
| Scheduler.CoroutineScheduler.PopExpired | src/coroutine/coroutine_scheduler.cpp:118-127 | takes exactly the sleepers that are due, earliest first; everybody left is not due |
| Scheduler.CoroutineScheduler.WakeUpSleep | src/coroutine/coroutine_scheduler.cpp:117-131 | posts the due sleepers behind the resumes already posted, in order, among those that other threads post meanwhile |
| Scheduler.CoroutineScheduler.DrainQueue | src/coroutine/coroutine_scheduler.cpp:48-55 | empties the queue, each coroutine moved to the resume list in order |
| Scheduler.CoroutineScheduler.SwitchTo | src/coroutine/coroutine_scheduler.cpp:83-111 | one turn of a coroutine, whatever happens in it, on the linked lists |
| Scheduler.CoroutineScheduler.RunPass | src/coroutine/coroutine_scheduler.cpp:40-64 | a pass on the linked lists, with what the event loop, other threads and the coroutines ask for at every point of it, is the specified pass, switches to the specified coroutines, and leaves no node in the resume list |
| Scheduler.CoroutineScheduler.Run | src/coroutine/coroutine_scheduler.cpp:37-66 | the loop, stopped after any number of passes, is the specified one |
| Scheduler.ReverseElems | src/coroutine/coroutine_scheduler.cpp:25-27 | the initial free list holds each coroutine once |
| SchedulerPass.PushKeepsOrdered | src/coroutine/coroutine_scheduler.cpp:109-109 | entering a sleeper keeps the order of the heap and loses nobody |
| SchedulerPass.WakesExactlyTheDue | src/coroutine/coroutine_scheduler.cpp:117-131 | a wake-up at a time takes exactly the sleepers due by then, earliest first, and the lower slot first within a time |
| SchedulerPass.AsleepUntil | src/coroutine/coroutine_scheduler.cpp:108-127 | a coroutine that goes to sleep until a time is among those woken exactly if that time has come, and nobody else's wake-up changes |
| SchedulerPass.OpsOnlyAddYielding | src/coroutine/coroutine_scheduler.cpp:68-106 | what is asked for during a turn or between the phases leaves the resume list alone and only puts nodes in front of the yield list |
| SchedulerPass.ResumePhase | src/coroutine/coroutine_scheduler.cpp:57-60 | each coroutine of the resume snapshot is still in that list, first, at its turn, whatever earlier ones did; the list ends empty |
| SchedulerPass.YieldPhase | src/coroutine/coroutine_scheduler.cpp:61-64 | each coroutine of the yield snapshot is still in that list at its turn, with the rest of the snapshot behind it |
| SchedulerPass.PassServesEverybody | src/coroutine/coroutine_scheduler.cpp:37-66 | a pass switches once to each coroutine of both snapshots, including every one in the resume or the yield list after the drain, whatever arrives meanwhile |
| SchedulerPass.YieldersAlternate | src/coroutine/coroutine_scheduler.cpp:61-64 | passes in which all yield run in alternately reversed order, and two of them restore the state |
| SchedulerOrder.QueueInOrder | src/coroutine/coroutine_scheduler.cpp:103-131 | the queue that is drained holds what was posted, in the order it was posted, the due sleepers among it |
| SchedulerOrder.LastPostedRunsFirst | src/coroutine/coroutine_scheduler.cpp:48-60 | the resumed coroutines run first in a pass, in the reverse of the order they were posted in |
| SchedulerOrder.AfterTurn | src/coroutine/coroutine_scheduler.cpp:83-143 | a coroutine that yields is first in the yield list, one that suspends or sleeps is suspended, one that ends is the first to be taken again; everybody else stays, but for free ones that are added |
| SchedulerOrder.EachItsOwnTurn | src/coroutine/coroutine_scheduler.cpp:57-64 | each coroutine of a snapshot ends where its own turn leaves it, whatever the others do |
| SchedulerOrder.SuspendedAreNotRun | src/coroutine/coroutine_scheduler.cpp:57-64 | a pass switches to nobody who is suspended after the drain |
| SchedulerSteps.FateIsAStep | src/coroutine/coroutine_scheduler.cpp:83-111 | yield, end, sleep and suspend on the lists are the steps of the wake-up protocol |
| SchedulerSteps.AddIsAStep | src/coroutine/coroutine_scheduler.cpp:68-81 | adding is the step Add, and fails exactly if that step is impossible |
| SchedulerSteps.PostIsAStep | src/coroutine/coroutine_scheduler.cpp:103-106 | posting a resume is the step that trades a wait-queue entry for it |
| SchedulerSteps.PopIsAStep | src/coroutine/coroutine_scheduler.cpp:118-127 | popping the first sleeper is the step PopSleeper |
| SchedulerSteps.PostExpiredIsAStep | src/coroutine/coroutine_scheduler.cpp:128-130 | posting an expired sleeper is the step PostExpired |
| SchedulerSteps.AfterDrain | src/coroutine/coroutine_scheduler.cpp:50-54 | the drain moves exactly the queued coroutines, and all of them to the resume list |
| SchedulerSteps.DrainIsAStep | src/coroutine/coroutine_scheduler.cpp:48-57 | the drain is the step Drain, and its snapshot is the resume list |
| SchedulerRuns.OpsAreARun | src/coroutine/coroutine_scheduler.cpp:68-106 | what is asked for during a turn or between the phases is a run of the protocol, if each resume is posted for a popped entry, and leaves the scheduler where it is |
| SchedulerRuns.ElsewhereShows | src/coroutine/coroutine_scheduler.cpp:37-131 | whatever another scheduler or its coroutines do leaves what this one's lists show unchanged |
| SchedulerRuns.TurnIsARun | src/coroutine/coroutine_scheduler.cpp:57-111 | one switch, whatever happens in it, is a run of the protocol that takes the coroutine from the snapshot |
| SchedulerRuns.WakingIsARun | src/coroutine/coroutine_scheduler.cpp:40-57 | the wake-up of the sleepers and the drain are a run of the protocol; each coroutine in the queue at the drain is in the suspend list, and queued once |
| SchedulerRuns.PassIsARun | src/coroutine/coroutine_scheduler.cpp:39-65 | a whole pass on the lists, with what other threads and schedulers do meanwhile, is a run of the protocol from the top of the loop to the top of the loop, and the lists show what the run does; at its drain each queued coroutine is suspended and queued once |
| SchedulerRuns.LoopIsARun | src/coroutine/coroutine_scheduler.cpp:37-66 | and so is the loop, after however many passes it is stopped |
| SchedulerRuns.ResumedInOrder | src/coroutine/coroutine_scheduler.cpp:48-60 | in every pass that fits the protocol the posted coroutines run first, the last posted before the others |
| SchedulerRuns.QueuedAreSuspended | src/coroutine/coroutine_scheduler.cpp:48-55 | on lists that show a state of the protocol before the drain, each coroutine in the resume queue is in the suspend list, and queued once |
| Relabels.MapPass | src/coroutine/coroutine_scheduler.cpp:39-65 | a pass does not depend on what the coroutines are: renaming them commutes with it |
| SchedulerWorld.MakeScheduler | src/coroutine/coroutine_scheduler.cpp:23-32 | a new scheduler object shows coroutines that are all free |
| SchedulerWorld.RunPassInWorld | src/coroutine/coroutine_scheduler.cpp:39-65 | a pass of the scheduler object, on its pointers, is a run of the protocol; at its drain each queued coroutine is suspended and queued once |
| SchedulerWorld.RunInWorld | src/coroutine/coroutine_scheduler.cpp:37-66 | and so is the loop of the object, for any number of passes |
| Parking.StepKeepsInv | src/coroutine/coroutine_scheduler.cpp:37-131 | every step of every scheduler keeps: each parked, parking or sleeping coroutine has exactly one source it can be woken from, and no other coroutine has any |
| Parking.EnlistKeepsInv | src/coroutine/coroutine_mutex.h:38-42 | the first half of a wait gives the running coroutine, which had no wake source, exactly one |
| Parking.ParkKeepsInv | src/coroutine/coroutine_mutex.h:26-28 | the second half of a wait keeps that, also when the resume was posted in between |
| Parking.WakeKeepsInv | src/coroutine/coroutine_mutex.h:15-18 | a wake-up trades the queue entry for one posted resume |
| Parking.DrainFindsSuspended | src/coroutine/coroutine_scheduler.cpp:48-55 | every coroutine in the resume queue when it is drained is suspended at that moment, and queued once |
| Parking.RunKeepsInv | src/coroutine/coroutine_scheduler.cpp:37-131 | every run of steps, waits and wake-ups keeps one wake source per waiting coroutine |
| Parking.DrainedIsDispatched | src/coroutine/coroutine_scheduler.cpp:48-64 | each coroutine whose resume is posted at a drain is switched to before its scheduler goes on to the yield list |
| Returning.ComesBackRunning | src/coroutine/coroutine_scheduler.cpp:37-131 | in any system on top of the monitor whose agents can end their calls: from every state there is a run on which a notified coroutine has the processor again with `mtx_` free, through the turns of the others and the next drain of its scheduler |
| Monitor.ActionKeepsInv | src/coroutine/coroutine_mutex.h:36-145 | entering, waiting, waking, retaking and leaving keep mutex, wait queue, agents and schedulers in agreement |
| Monitor.NotifiedComesBack | src/coroutine/coroutine_mutex.h:38-45 | a waiter popped from the queue is on its way back, wherever it was between push and suspend |
| CoMutexProtocol.MoveKeepsInv | src/coroutine/coroutine_mutex.h:70-118 | every small step of lock and unlock keeps one owner if and only if `isLock_`, and the lock held while anybody is queued |
| CoMutexProtocol.MutualExclusion | src/coroutine/coroutine_mutex.h:96-117 | in every run at most one coroutine is between lock and unlock, the unguarded fast path included |
| CoMutexProtocol.NoLostWakeup | src/coroutine/coroutine_mutex.h:98-107 | in every run a coroutine that was handed the lock has its resume posted or its turn due, and every drain finds its coroutines suspended |
| CoMutexProgress.NeverStuck | src/coroutine/coroutine_mutex.h:96-118 | in every reachable state, a coroutine that has the processor, with `mtx_` free or its own, has a move of its own, in `lock`, `unlock` and the wait |
| CoMutexProgress.MayCall | src/coroutine/coroutine_mutex.h:96-118 | outside of a call it may begin one, yield or sleep, and end if it does not hold the lock |
| CoMutexProgress.LocksFree | src/coroutine/coroutine_mutex.h:96-103 | `lock` on a free lock, when nobody else moves, returns with the lock held and `mtx_` free |
| CoMutexProgress.Queues | src/coroutine/coroutine_mutex.h:98-107 | `lock` on a held lock, when nobody else moves, leaves the coroutine last in the queue, suspended, and `mtx_` free |
| CoMutexProgress.ReturnsFromLock | src/coroutine/coroutine_mutex.h:25-33 | a coroutine that is back on the processor from its wait, with `mtx_` free, retakes it and returns from `lock`, by moves of its own |
| CoMutexProgress.Unlocked | src/coroutine/coroutine_mutex.h:109-118 | `unlock`, when nobody else moves, makes the first of the queue the owner, or frees the lock if there is none, and returns |
| CoMutexReturn.HandedCanReturn | src/coroutine/coroutine_mutex.h:96-118 | in every reachable state, for a coroutine that was handed the lock while it waited, there is a run on which it is back on the processor with `mtx_` free, and returns from `lock` by its own moves |
| CoMutexProtocol.PostedIsDispatched | src/coroutine/coroutine_mutex.h:98-107 | such a coroutine is switched to in the pass that drains its resume, whatever else happens in the run meanwhile |
| CoMutexProtocol.HandedInOrder | src/coroutine/coroutine_mutex.h:74-117 | over any run, those handed the lock, followed by those still queued, are those queued at the start, followed by those pushed |
| CoMutexProtocol.FifoNoBarging | src/coroutine/coroutine_mutex.h:74-117 | while somebody is queued, ownership goes to the queued coroutines in push order and to nobody else, one per unlock |
| CoMutexProtocol.TurnOfWaiter | src/coroutine/coroutine_mutex.h:96-117 | a waiter with k ahead of it becomes the owner at the unlock after k further ones, and not before |
| CoMutexRun.ResumedBeforeSuspended | src/coroutine/coroutine_mutex.h:98-107 | there is a run in which a coroutine is handed the lock and its resume posted before it has suspended, and it still comes back |
| CoMutexRun.AndReturns | src/coroutine/coroutine_mutex.h:25-33 | and that run goes on to where it is in its critical section |
| MutexProtocol.MoveKeepsInv | src/coroutine/coroutine_mutex.h:147-171 | every small step keeps one holder if and only if `isLock`, the count of waiters, and a rescuer for stranded waiters |
| MutexProtocol.MutualExclusion | src/coroutine/coroutine_mutex.h:154-170 | in every run at most one thread or coroutine is between lock and unlock, despite barging and spurious wake-ups |
| MutexProtocol.NobodyStranded | src/coroutine/coroutine_mutex.h:120-171 | whenever `mtx_` is free: `waitings_` is unnotified plus notified waiters; a free lock with a waiter means a notified waiter has still to run, with its resume posted or its turn due |
| MutexProgress.NeverStuck | src/coroutine/coroutine_mutex.h:147-171 | in every reachable state, a thread or coroutine that has the processor, with `mtx_` free or its own, has a move of its own |
| MutexProgress.MayWakeSpuriously | src/coroutine/coroutine_mutex.h:133-134 | a blocked thread may wake at any time, and then goes on as soon as `mtx_` is free |
| MutexProgress.MayCall | src/coroutine/coroutine_mutex.h:147-171 | outside of a call an agent may begin one, and a coroutine may yield or sleep, and end if it does not hold the lock |
| MutexProgress.Locks | src/coroutine/coroutine_mutex.h:154-162 | `lock` on a free lock, at the first try or back from a wait, returns with the lock held and `mtx_` free |
| MutexProgress.Waits | src/coroutine/coroutine_mutex.h:154-161 | `lock` on a held lock, at the first try or back from a wait, leaves a coroutine last in the queue and suspended, a thread blocked, and `mtx_` free |
| MutexProgress.Unlocked | src/coroutine/coroutine_mutex.h:164-170 | `unlock` frees the lock and wakes the first queued coroutine, or else a blocked thread, if there is any, and returns |
| MutexReturn.NotifiedCanReturn | src/coroutine/coroutine_mutex.h:147-171 | in every reachable state, for a notified coroutine there is a run on which it is back on the processor with `mtx_` free; it locks the mutex then, if that is free, or waits anew |
| MutexProtocol.PostedIsDispatched | src/coroutine/coroutine_mutex.h:154-170 | such a coroutine is switched to in the pass that drains its resume |
| SharedStateProtocol.MoveKeepsInv | src/coroutine/coroutine_mutex.h:174-218 | every small step keeps: ready exactly if set, the stored outcome, and waiters behind a ready state only while a setter still notifies |
| SharedStateProtocol.WaitYieldsWhatWasSet | src/coroutine/coroutine_mutex.h:230-247 | in every run `Future::wait` returns only after a set, with a stored value or exception, and never with the not-ready error |
| SharedStateProtocol.ReadyReleasesEverybody | src/coroutine/coroutine_mutex.h:181-206 | ready with `mtx_` free implies nobody is left parked without a wake-up, early or late |
| SharedStateProgress.NeverStuck | src/coroutine/coroutine_mutex.h:174-218 | in every reachable state, a thread or coroutine that has the processor, with `mtx_` free or its own, has a move of its own |
| SharedStateProgress.MayWakeSpuriously | src/coroutine/coroutine_mutex.h:133-134 | a blocked thread may wake at any time, and then goes on as soon as `mtx_` is free |
| SharedStateProgress.MayCall | src/coroutine/coroutine_mutex.h:174-218 | outside of a call an agent may wait or set anything, and a coroutine may yield, sleep or end |
| SharedStateProgress.Yields | src/coroutine/coroutine_mutex.h:187-217 | `wait` on a ready state, at the first try or back from a wait, yields the content that was set |
| SharedStateProgress.Waits | src/coroutine/coroutine_mutex.h:187-192 | `wait` on a state that is not ready leaves a coroutine last in the queue and suspended, a thread blocked, and `mtx_` free |
| SharedStateProgress.Sets | src/coroutine/coroutine_mutex.h:181-206 | a set, when nobody else moves, makes the state ready with its outcome, leaves nobody queued or blocked, and returns |
| SharedStateReturn.NotifiedCanReturn | src/coroutine/coroutine_mutex.h:174-247 | in every reachable state that is ready, for a notified coroutine there is a run on which it is back on the processor, and its `wait` yields the content the state has then |
| SharedStateProtocol.PostedIsDispatched | src/coroutine/coroutine_mutex.h:187-192 | a coroutine whose resume is posted at a drain of its scheduler is switched to in that pass, whatever else happens in the run meanwhile |
| Locks.CoConditionVariable.Push | src/coroutine/coroutine_mutex.h:38-42 | the coroutine is last among those that wait |
| Locks.CoConditionVariable.NotifyNolock | src/coroutine/coroutine_mutex.h:50-66 | wakes the first live waiter, or all in order, skips canceled ones, counts the woken and drops exactly the entries up to the last woken |
| Locks.CoMutex.SetLock | src/coroutine/coroutine_mutex.h:74-77 | succeeds exactly from the opposite value |
| Locks.CoMutex.LockSection | src/coroutine/coroutine_mutex.h:99-105 | takes a free lock, or queues the coroutine last |
| Locks.CoMutex.UnlockSection | src/coroutine/coroutine_mutex.h:109-117 | hands the held lock to the first waiter, or frees it exactly if there is none |
| Locks.ConditionVariable.WaitBegins | src/coroutine/coroutine_mutex.h:125-135 | a coroutine joins the queue, a thread the blocked threads |
| Locks.ConditionVariable.NotifyOne | src/coroutine/coroutine_mutex.h:136-140 | wakes the first coroutine, or else one blocked thread |
| Locks.ConditionVariable.NotifyAll | src/coroutine/coroutine_mutex.h:141-144 | leaves neither coroutine nor thread waiting |
| Locks.Mutex.LockRound | src/coroutine/coroutine_mutex.h:154-162 | one round of the loop: takes a free lock, or counts and waits |
| Locks.Mutex.UnlockSection | src/coroutine/coroutine_mutex.h:164-170 | frees the lock and notifies one waiter exactly if one is counted |
| Locks.SharedState.Set | src/coroutine/coroutine_mutex.h:181-206 | stores the outcome, is ready, and leaves nobody waiting |
| Locks.SharedState.WaitRound | src/coroutine/coroutine_mutex.h:187-192 | waits exactly if not ready |
| Locks.SharedState.GetValue | src/coroutine/coroutine_mutex.h:207-217 | fails exactly if not ready; an exception goes before a value |
| LockMoves.CoMutexFastPath | src/coroutine/coroutine_mutex.h:96-97 | the swap outside the section is the move FastCas: object and protocol state still agree |
| LockMoves.CoMutexLock | src/coroutine/coroutine_mutex.h:99-107 | the lock section of an object that agrees with a protocol state is the moves RetryCas and, if that fails, PushWaiter: they agree afterwards |
| LockMoves.CoMutexUnlock | src/coroutine/coroutine_mutex.h:109-117 | the unlock section is the move HandOff: they agree afterwards, and the resume asked for is the one the move posts |
| LockMoves.MutexRound | src/coroutine/coroutine_mutex.h:154-162 | a round of `lock`, from the start or back from a wait, is the moves Uncount, Test and CondWait |
| LockMoves.MutexUnlock | src/coroutine/coroutine_mutex.h:164-170 | the unlock section is the moves Clear and Notify, for the thread that was picked, with the resume the move posts |
| LockMoves.StateRound | src/coroutine/coroutine_mutex.h:187-192 | a round of `wait` is the moves Test and CondWait |
| LockMoves.NotifyAllMoves | src/coroutine/coroutine_mutex.h:141-144 | `notify_all` is one move for each queued coroutine, in order, and one for the threads |
| LockMoves.StateSet | src/coroutine/coroutine_mutex.h:181-206 | a set is the move Set and those of `notify_all`, with the resumes they post |
| LockMoves.StateGet | src/coroutine/coroutine_mutex.h:207-217 | `getValue` is the move Get and yields what the protocol says |
| Asyncers.Asyncer.AsyncDo | src/net/common/asyncer/asyncer.cpp:20-45 | the first handler is queued, every further one gets one reuse error at once |
| Asyncers.Asyncer.Fire | src/net/common/asyncer/asyncer.cpp:31-43 | calls the first handler with success exactly if it is still due, and unregisters |
| Asyncers.Asyncer.Cancel | src/net/common/asyncer/asyncer.cpp:47-57 | calls the first handler with an error exactly if it is still due, and unregisters |
| Asyncers.Asyncer.Destroy | src/net/common/asyncer/asyncer.cpp:12-17 | a handler still due is called on destruction |
| Asyncers.Lifetime | src/net/common/asyncer/asyncer.cpp:8-57 | over any operations up to destruction every handler is called exactly once, and all but the first with the reuse error |
| TimerPhases.DeadlineIsExact | src/net/common/timer/timer.cpp:50-51 | the deadline is now plus ms exactly if the sum fits `int64_t`; else the timer is due at once |
| TimerPhases.DueEarlyIffOverflow | src/net/common/timer/timer.cpp:50-51 | a timer can be found due before its time exactly if the sum overflows |
| TimerPhases.NeverEarly | src/net/common/timer/timer.cpp:23-68 | over any run, success comes no earlier than the first `AsyncWait` asked for, by its own time and `ms`, if the sum formed at the first run of its asyncer does not overflow |
| TimerPhases.StartedByFirstWait | src/net/common/timer/timer.cpp:23-68 | the first `AsyncWait` starts the timer, at its time and for its `ms`; no other does |
| TimerPhases.SucceedsWhenDue | src/net/common/timer/timer.cpp:35-68 | a timer that nobody cancels is over after a poll exactly if the time asked for has gone by since its asyncer was run, or the sum overflows |
| TimerPhases.CanceledInTime | src/net/common/timer/timer.cpp:70-88 | a cancellation before the asyncer has run, or before a poll finds the timer due, ends it at once with the message of its stage |
| TimerPhases.RefusedHandlerActs | src/net/common/timer/timer.cpp:23-30 | the operations of a refused handler take effect, also those of handlers it passes in |
| TimerPhases.LongWaitEndsAtOnce | src/net/common/timer/timer.cpp:50-51 | a wait of 2^63 ms succeeds at the next poll |
| Timers.Timer.AsyncWait | src/net/common/timer/timer.cpp:23-68 | a fresh timer waits from now on for exactly the `ms` passed in; a used one refuses with one call of the new handler, whose own operations take effect |
| Timers.Timer.Cancel | src/net/common/timer/timer.cpp:70-88 | ends a pending timer with the message of the stage it was in, changes nothing otherwise, also from within the handler |
| Timers.Timer.FireAsyncer | src/net/common/timer/timer.cpp:35-67 | a pending timer is armed with its deadline, one that is over stays so |
| Timers.Timer.Poll | src/net/common/timer/timer.cpp:52-66 | an armed timer that is due succeeds exactly once |
| Timers.Timer.Destroy | src/net/common/timer/timer.cpp:15-19 | a pending handler is called with an error, the asyncer's lambda calls nothing, and nothing stays registered |
| Timers.Lifetime | src/net/common/timer/timer.cpp:15-88 | over any operations, re-entrant handlers included, up to destruction: each handler is called exactly once and with its own operations, each refused one with the reuse error; success no earlier than the first `AsyncWait` among the operations asked for |
| Buffers.ReadStaysInside | src/net/common/tcp/buffer.cpp:31-44 | a read stays within the unread bytes exactly if there are none or the index sum does not wrap |
| Buffers.AdvanceFollowsCount | src/net/common/tcp/tcp_connection.cpp:189-199 | the read index stays in range and does not fall back exactly if the reported count is not negative |
| Buffers.Buffer.Push | src/net/common/tcp/buffer.cpp:17-30 | the unread bytes grow by the pushed ones at the end, although the insertion is in the middle of the vector |
| Buffers.Buffer.PopHead | src/net/common/tcp/buffer.cpp:20-24 | returns as many of the first unread bytes as asked for or there are, and drops exactly those |
| Buffers.Buffer.Read | src/net/common/tcp/buffer.cpp:31-44 | copies the first unread bytes and changes nothing else of the target |
| Buffers.Buffer.UpdateReadIndex | src/net/common/tcp/buffer.cpp:45-52 | drops that many unread bytes, also across the reset on emptying |
| Buffers.Buffer.Reset | src/net/common/tcp/buffer.cpp:10-15 | the queue is empty |
| Buffers.RunQueue | src/net/common/tcp/buffer.cpp:17-52 | over any run, the bytes pushed are the bytes popped followed by the unread ones |
| TcpWrites.TcpConnection.AsyncWrite | src/net/common/tcp/tcp_connection.cpp:112-145 | a finished connection calls the handler at once; another cancels a write that is still queued and queues the new one, at any time; all is well exactly if the canceled handler does not finish the connection |
| TcpWrites.TcpConnection.FireAsyncer | src/net/common/tcp/tcp_connection.cpp:120-144 | a queued write is armed with its handler, in place of one that was armed |
| TcpWrites.TcpConnection.WriteReady | src/net/common/tcp/tcp_connection.cpp:178-201 | success to the armed handler exactly when all pushed bytes were accepted; the socket gets the next bytes in push order; an error goes to the armed handler and finishes the connection; a count of -1 without an error, and only that, leaves the buffer unsound |
| TcpWrites.TcpConnection.Finish | src/net/common/tcp/tcp_connection.cpp:203-219 | the first call ends the queued and the armed write, each with its own handler and error, and calls the finish handler once, whatever the handlers re-enter; a further call changes nothing |
| TcpWrites.TcpConnection.Reset | src/net/common/tcp/tcp_connection.cpp:30-39 | begins a new cycle, with both flags cleared, no handler and no bytes, and leaves the connection sound exactly if it was not finished and no write was armed |
| TcpWrites.TcpConnection.Destroy | src/net/common/tcp/tcp_connection.cpp:26-28 | the queued handler is called with an error, the armed one is dropped without a call |
| TcpWrites.Lifetime | src/net/common/tcp/tcp_connection.cpp:30-219 | over any life the connection is fit for, any number of cycles and of writes in them: the write handler of each number is called exactly once, or not at all if an operation lost it; the finish handler exactly once; the socket got a prefix of the pushes, and all of those pushed when success was last reported; the object is in the state `WriteStates` says |
| WriteStates.AfterKeepsBooks | src/net/common/tcp/tcp_connection.cpp:112-219 | every operation keeps: each write handler has had exactly one call if its write is over, and none before; the stored handlers are those passed in under their numbers; at most one finish call |
| WriteStates.FinishIsFinishing | src/net/common/tcp/tcp_connection.cpp:203-219 | whatever the handlers push and however they re-enter `Finish`, the calls are the canceled write's, the armed write's and the finish handler's |
| WriteStates.GoneIsLost | src/net/common/tcp/tcp_connection.cpp:120-219 | an operation loses a handler exactly if it arms another write in its place, or finishes the connection with it armed when an earlier write is done |
| WriteStates.EveryHandlerOnce | src/net/common/tcp/tcp_connection.cpp:112-219 | over any life, each handler passed in is called exactly once, unless it was lost |
| WriteStates.EveryHandlerOnceDestroyed | src/net/common/tcp/tcp_connection.cpp:26-28 | the same for a life ended by destruction, which loses an armed handler and no other |
| WriteStates.OneWriteIsNeverLost | src/net/common/tcp/tcp_connection.cpp:112-219 | if at most one write is begun between two resets, one that is queued at a reset included, every handler is called exactly once, over any number of cycles |
| WriteStates.QueuedOverReset | src/net/common/tcp/tcp_connection.cpp:30-39 | the run that shows why a write that is queued at a reset counts in the cycle after it |
| WriteStates.FirstCall | src/net/common/tcp/tcp_connection.cpp:112-219 | who is called first by each operation, and with what: the new handler with Finished on a finished connection, the queued one when it is canceled, the armed one with success or the error of the socket, both at a finish |
| WriteStates.FinishedWith | src/net/common/tcp/tcp_connection.cpp:189-219 | a first finish, and an error of the socket, finish the connection with their error |
| WriteStates.BodyPushes | src/net/common/tcp/tcp_connection.cpp:112-219 | a handler that is called pushes all it says, in order |
| WriteStates.TakesNext | src/net/common/tcp/tcp_connection.cpp:178-190 | the socket gets the next bytes in push order, as many as it takes, up to 1024 |
| WriteStates.ArmedWriteSucceeds | src/net/common/tcp/tcp_connection.cpp:178-190 | a write that is armed succeeds, with all bytes pushed in their order, when the socket takes at least one byte each time often enough |
| TcpWrites.ResetDropsHandler | src/net/common/tcp/tcp_connection.cpp:30-39 | the run in which a reset drops an armed handler |
| TcpWrites.SecondWriteGone | src/net/common/tcp/tcp_connection.cpp:212-215 | the run in which a second write is never answered |
| TimerPollers.TimerPoller.UpdateEvent | src/net/common/poller/timer_poller.cpp:37-66 | the recursive update ends and registers exactly that event besides the others |
| TimerPollers.TimerPoller.RemoveEvent | src/net/common/poller/timer_poller.cpp:41-90 | removes exactly that event, also where the whole bucket is erased |
| TimerPollers.TimerPoller.Poll | src/net/common/poller/timer_poller.cpp:13-35 | exactly the existing events due by now, by time and then by id |
| AsyncerPollers.PushBack | src/net/common/poller/asyncer_poller.cpp:44-48 | the list is the old sequence with the node at its end |
| AsyncerPollers.AsyncerPoller.UpdateEvent | src/net/common/poller/asyncer_poller.cpp:39-54 | moves the id to the back or appends it; the places stored for other ids stay valid |
| AsyncerPollers.AsyncerPoller.RemoveEvent | src/net/common/poller/asyncer_poller.cpp:56-65 | removes just that id; the places stored for other ids stay valid |
| AsyncerPollers.AsyncerPoller.Poll | src/net/common/poller/asyncer_poller.cpp:10-28 | exactly the existing events, each once, in the order of their last update |
| AsyncerPollers.AsyncerPoller.OrderHasNoDuplicates | src/net/common/poller/asyncer_poller.cpp:39-65 | list and map are in bijection: the order has no duplicate and exactly the ids of the map |
| Registries.Registry.UpdateEvent | src/net/common/event.cpp:57-68 | an update registers exactly that event, with the poller of its kind |
| Registries.Registry.RemoveEvent | src/net/common/event.cpp:57-68 | a removal unregisters exactly that event |
| Registries.Registry.Poll | src/net/common/event_loop.cpp:45-45 | a poll returns exactly the registered events that exist and are due, each once, by time and id or in the order of their last update |
| Events.EventLoop.EnableNotify | src/net/common/event.cpp:37-45 | the event is registered with its poller, and still agrees with its flags |
| Events.EventLoop.DisableNotify | src/net/common/event.cpp:47-55 | the event is registered exactly if its other flag is set |
| Events.EventLoop.Destroy | src/net/common/event.cpp:15-27 | a destroyed event does not stay registered |
| Events.EventLoop.Do | src/net/common/event.cpp:86-99 | runs the read callback if the event is readable and on for reading, else the write callback if it is writable and on for writing, else none: that one callback first and once, with all its acts, and no other; the side is not ready any more then |
| Events.TurnRunsJust | src/net/common/event.cpp:86-99 | a turn of an event adds to the record just the run of the callback that is due, whatever that callback does |
| Events.ActsTakeEffect | src/net/common/event.cpp:15-55 | enabling, disabling and dropping an event from within a callback change just that side of just that event, or end it |
| Events.ActsInOrder | src/net/common/event_loop.cpp:50-57 | what a callback does is done one after the other |
| Events.EventLoop.DoPoller | src/net/common/event_loop.cpp:43-58 | the batch is exactly the registered events that are due, each once, by time and id or in the order of their last update; only callbacks of the batch run, in that order, of each event at most one, and none that is off; registration stays equal to the flags; every event of it that was due for reading, or else for writing, runs that callback unless an earlier callback turns it off or its reading on; callbacks may create events |
| Events.TurnedOffBetween | src/net/common/event.cpp:15-55 | an event that was on and is off has been disabled or destroyed in between |
| Events.NoStaleCallback | src/net/common/event_loop.cpp:50-57 | after an event is disabled or destroyed its callback runs only if it was enabled again in between |
| ClientPools.ClientPool.Init | src/net/client/client_pool.cpp:19-34 | exactly `maxSize` connecting clients; a second call fails and adds none |
| ClientPools.ClientPool.Connected | src/net/client/client_pool.cpp:41-60 | the client becomes idle with a live connection |
| ClientPools.ClientPool.Disconnected | src/net/client/client_pool.cpp:61-91 | with an error, one new client takes the place of the old one; without, nothing happens |
| ClientPools.ClientPool.ConnectFailed | src/net/client/client.cpp:48-57 | a failed attempt is replaced, the number stays |
| ClientPools.ClientPool.Get | src/net/client/client_pool.cpp:99-108 | fails exactly if nobody is idle; else hands out an idle, live client |
| ClientPools.ClientPool.Insert | src/net/client/client_pool.cpp:110-118 | returning a client keeps the pool sound exactly if there is an error or its connection is live |
| ClientPools.ClientPool.CloseConnection | src/net/client/client.cpp:99-102 | a connection that ends keeps the pool sound exactly if it ends with an error or had ended before |
| ClientPools.RunPool | src/net/client/client_pool.cpp:19-118 | over any run, connecting, idle and checked-out clients add up to `maxSize` and every idle one is live |
| ClientPools.DeadReturnGrowsPool | src/net/client/client_pool.cpp:110-118 | the run in which a returned dead client makes the pool grow |
| Flows.RunWeighs | src/extends/small_flow/small_flow.h:44-71 | every `Run` finishes the event or leaves a later `Run` owed, whatever the steps do |
| Flows.LoopOutcome | src/extends/small_flow/small_flow.h:55-70 | for any steps made of setting an error, suspending and calling `Run`: one `Run` finishes the event once, or leaves one `Run` owed, and not more, exactly for good steps |
| Flows.FinishedOnce | src/extends/small_flow/small_flow.h:44-71 | the event is finished exactly once if and only if the steps meet `Once`, and then each step up to the first failing one ran exactly once, in order |
| Flows.OnceWithoutErrors | src/extends/small_flow/small_flow.h:44-71 | flows without errors are finished once also if resumed within a step before it suspends |
| Flows.OnceWithoutNesting | src/extends/small_flow/small_flow.h:44-71 | flows resumed only from outside are finished once, if no step both fails and suspends |
| Flows.FinishedAgain | src/extends/small_flow/small_flow.h:44-71 | a step that fails and is resumed, or calls `Run` more than once, has the event finished again, if the steps before it neither fail nor call `Run` |
| Flows.FlowService.Run | src/extends/small_flow/small_flow.h:44-71 | the imperative loop, re-entered by its own steps, is the specified one |
| Flows.RunFlow | src/extends/small_flow/small_flow.h:44-71 | the whole life of a flow, by the service itself |
| UrlCodes.HexRoundTrip | src/extends/small_http_parser/urlcode.h:11-19 | the two hex digits of a byte give it back |
| UrlCodes.EscapesIgnoreCase | src/extends/small_http_parser/urlcode.h:11-13 | escapes mean the same in upper and lower case |
| UrlCodes.EncodedOne | src/extends/small_http_parser/urlcode.h:23-37 | a character is encoded as itself exactly if it is a digit, a letter, `-`, `.`, `_` or `~`, a space as `+`, and every other one as `%` and its two hex digits |
| UrlCodes.EncodedJoin | src/extends/small_http_parser/urlcode.h:23-37 | the encoding of a string is those of its parts, one after the other |
| UrlCodes.DecodedWithoutEscapes | src/extends/small_http_parser/urlcode.h:41-59 | decoding a string without `%` makes spaces of its `+` and changes nothing else |
| UrlCodes.CutEscapeIsDropped | src/extends/small_http_parser/urlcode.h:41-59 | a `%` with fewer than two characters behind it is dropped, and they are kept |
| UrlCodes.DecodeEncode | src/extends/small_http_parser/urlcode.h:23-59 | decoding an encoded string gives it back, and the encoder keeps to unreserved characters, `+` and two-digit escapes |
| UrlCodes.EncodeDecode | src/extends/small_http_parser/urlcode.h:23-59 | encoding a decoded string gives it back, for every string in the encoder's form |
| UrlCodes.EncodeC | src/extends/small_http_parser/urlcode.h:23-37 | no write is past the `3*len+1` bytes; the buffer holds the encoding and its NUL |
| UrlCodes.DecodeC | src/extends/small_http_parser/urlcode.h:41-59 | for any input, cut escapes included, no read is past the NUL and no write past the `len+1` bytes |
| UrlCodes.UrlEncode | src/extends/small_http_parser/urlcode.h:62-67 | the encoding of the string up to its first NUL |
| UrlCodes.UrlDecode | src/extends/small_http_parser/urlcode.h:68-73 | the decoding, cut at its first NUL |
| UrlCodes.RoundTrip | src/extends/small_http_parser/urlcode.h:62-73 | decode after encode gives the string up to its first NUL: all of it exactly if it has none |

## Left out

- Context switching, stacks and sanitizer hooks: `switchTo` is "run until the coroutine yields, suspends, sleeps or ends".
- Timed condition waits: the queue holds a copy of the waiter (src/coroutine/coroutine_mutex.h:39-44), so `isCanceled` never reaches it; only untimed waits are in the protocols, and calls of `resume` from outside are not. `Locks.CoConditionVariable.NotifyNolock` handles canceled entries all the same.
- `CoMutex` used outside a coroutine: `wait` throws after the waiter is queued; being in a coroutine is part of the protocol.
- Memory-level races: each list or queue operation, each compare-and-swap and each taking of a lock is one atomic step.
- Several lock objects at once: each protocol has one lock, and waiting for anything else is a sleep that may end at any time. A coroutine may yield or sleep in a `CoMutex` or `Mutex` critical section, but not end there.
- `Parking`: leaves the order of lists and queues and the times of sleepers open; `Scheduler` and `SchedulerPass` fix them.
- `SchedulerPass.Round`: the event loop is called, or not, at the top of a pass, and what it calls is among the operations there; the 10 ms between two calls are left out.
- `SchedulerRuns.PassIsARun`, `SchedulerWorld.RunPassInWorld`: for passes in which resumes are posted only for entries of wait queues and coroutines suspend only after entering one, as the locks do.
- `CoMutexProtocol.PostedIsDispatched`, `MutexProtocol.PostedIsDispatched`, `SharedStateProtocol.PostedIsDispatched`: that a pass ends is up to the coroutines, which may run for ever.
- `CoMutexReturn.HandedCanReturn`, `MutexReturn.NotifiedCanReturn`, `SharedStateReturn.NotifiedCanReturn`: there is such a run from every state; that the coroutines leave the processor and the operating system runs everybody is fairness, which is not modelled.
- `Locks.CoMutex`: uses the wait queue of `CoConditionVariable`, where the source repeats its code.
- `SharedStateProtocol`: states with a value; `SharedState<void>` has no `getValue`, so a waiter of it never sees an exception. `Async` is not part of this model.
- The width of `waitings_`, `notifyCount` and the indices of `FlowCtx`: unbounded here.
- Locks around `Timer`, `TcpConnection` and `ClientPool`: their operations are atomic steps; the asyncer, timer and write events fire between them or not at all, and the last owner lets go between them.
- `WriteStates.Handler`: handlers push bytes and finish the connection, and begin no write.
- `TcpWrites.Lifetime`: for operations the connection is fit for, by the conditions that `AsyncWrite`, `Reset` and `WriteReady` state; what follows one it is not fit for is left out, as the connection is not sound then.
- `TcpWrites.TcpConnection.Destroy`: what the handlers do to a connection that is being destroyed is left out.
- The read path of `TcpConnection`: its handlers recur by design.
- `Buffers.Buffer.Push`: fails without an effect where the vector would throw `length_error`; running out of memory is not modelled.
- `ClientPools.ClientPool.Insert`: the client is one that the caller holds.
- `ClientPools.ClientPool.ConnectFailed`: each attempt ends once, with an error that is not empty, as the connector reports it; the connector itself is not part of this model.
- `TimerPollers.TimerPoller.Poll`, `AsyncerPollers.AsyncerPoller.Poll`: which events still exist is a parameter, which `Events` supplies.
- `Events`: the event poller of sockets is not modelled, nor a poller that is destroyed before its events.
- `Flows`: what a step does is the same each time it runs. A step that calls `Run` itself is not resumed from outside as well, and one that suspends and does not call it is resumed from outside once. Tracing and logging are left out.
- `Epoller`, `Socket`, `Connector`, `Acceptor`, `Server`, gRPC, etcd, DNS, redis, the http parser, JSON and TOML visitors, `BlockQueue`, client manager, resolvers and load balancers: system-call plumbing and thin layers that would only add easy members.
