# shuio: a verified model of the event loop and its lifecycles

shuio is a small asynchronous I/O library: one loop thread over io_uring (Linux) or IOCP (Windows),
posts from other threads, timers, stream sockets, acceptors, and coroutine wrappers in an example. This
project models the loop and everything that hangs off it, and proves what users of the library rely on.

| part | files |
|---|---|
| timers: heap array with push and pop, tombstones, refinement to a plain map, sleep time | TimerHeap, TimerSpec, LocalTimer, TimerRefinement, SleepBound |
| tags and callback registry | Tags, Registry |
| task queues, counter, on_tasks | TaskQueues, TaskLoop |
| the whole loop as a concurrent state machine: N posting threads, kernel, loop thread, user code in callbacks | LoopSystem |
| its theorems: tasks, wake-up, routing, close and its rounds, timers, their order and their cancelling, sleep, drain of streams and acceptors, what is called back and for whom, progress, stop() and shutdown; concrete runs | LoopTasks, LoopWakeup, LoopRouting, LoopClose, LoopRounds, LoopTimers, LoopBatch, LoopCancel, LoopSleep, LoopDrain, LoopAcceptors, LoopTrace, LoopProgress, LoopStop, LoopShutdown, LoopWitnesses |
| lifecycles: Linux stream, Linux acceptor, Windows acceptor | StreamSpec, Streams, AcceptorLinux, AcceptorWinSpec, AcceptorWin |
| bytes and sockets: scatter read, copy helpers, coroutine hand-off | Buffers, CoSpec, Coroutines |

Classes carry the source's fields and update them in place; each method is proved equal to a function on
values, and the laws are proved of those functions. Concurrency is interleaving of atomic steps: the three
actions of a post on another thread, the completions of the kernel, and the loop thread between any two of
them. A user callback is any sequence of calls on any object (in LoopSystem simply the user steps taken
while a callback runs, so without bound). A call that would panic ends the process and has no next state.
What the operating system answers is always a parameter or a free choice.

## What the proofs found

- In-loop posts increment `tasks_count_` (shuio/linux/shu_loop.cpp:247) but only the locked batch is
  subtracted (line 328). After the first in-loop post, the evClose of any object included, the loop never
  decides to wait again, absent a wrap of the 32-bit counter (`LoopTasks.NeverSleepsAgain`).
- A stop() in the alloc callback closes the stream, and run_read then still calls the read callback, on the
  closed stream and after its evClose was posted (`LoopWitnesses.StopInAllocCallsBack`). It is the only callback
  that can follow a close (`LoopClose.CloseIsFinal`), and it does exactly when that stop() was the first, with
  no write out and no read() of the alloc callback before it (`LoopClose.ReadCallbackAfterClose`).
- A read() inside the alloc or read callback passes the panic guard. If the callback ends with that read out,
  run_read reads again and two reads are in flight, or, stopped with no write out, it closes with the read in
  flight; and only so do reads overlap or outlive the close (`StreamSpec.SecondRead`, `StreamSpec.ReadsDrain`).
- A stream closes with a write in flight exactly when a write callback returns with a write out, stopped and with
  no read flagged (`StreamSpec.WritesDrain`). A write after the stop can do that, and so can a stream that never
  reads (`StreamSpec.WriteInFlightAtClose`).
- stop() cancels the outstanding read exactly when no write is out, and nothing is cancelled afterwards
  (`StreamSpec.StopCancelsExactly`). With a write out the close waits until the peer ends the read
  (`StreamSpec.StopDuringWrite`).
- Bytes buffered by a co_session when an error or end of file arrives are never returned
  (`CoSpec.ErrorEndsDelivery`, `CoSpec.BufferedBytesAreLost`).
- The size trimming of a scatter read is wrong for first buffers from 2^31 bytes on unless the read count stays
  below the truncated size (`Buffers.TrimExact`).
- A front deadline a full millisecond in the past gives a timespec that is not normalised
  (`SleepBound.NormalisedExactly`).
- A cancel_timer that the loop runs before it has taken in the add of the timer is forgotten exactly when a
  timer_call in between prunes its tombstone, which it does unless a timer of the heap is at or below the
  cancelled one (`LoopCancel.OvertakingCancelExactly`, `LoopWitnesses.CancelIsForgotten`).
- What the tasks of the very last batch of the loop's own queue post never runs, an evClose included, and
  neither do tasks other threads enqueue after the last swap (`LoopShutdown.LastOwnBatch`,
  `LoopShutdown.LastLockedBatch`, `LoopShutdown.LostEvClose`). A thread that enqueues its task before and writes
  to the eventfd after the loop has closed it panics in wakeup() (shuio/linux/shu_loop.cpp:341-342, 355-356;
  `LoopShutdown.PosterPanics`). One run shows both (`LoopWitnesses.EvCloseIsLost`).
- The repository's README promises the close callback in the next frame. The code runs it from the loop's own
  queue, and what decides the round is when the object closes. By the end of the own batch of a round evClose
  has run of exactly the objects that had closed when on_tasks swapped that batch out
  (`LoopRounds.EvCloseRound`): in the same round after a close in an I/O callback or in a task another thread
  posted (`LoopWitnesses.ClosedInLockedBatch`), in the next round after one in a task of the own batch or in a
  timer (`LoopRounds.EvCloseNextRound`, `LoopWitnesses.ClosedInOwnBatch`). The stop() call itself need not
  close: with a read out it only cancels, and nothing is posted until the read has come back
  (`LoopWitnesses.ReadingStreamStaysOpen`).

## Model

| member | source | states |
|---|---|---|
| `TimerHeap.PushHeap` | shuio/linux/shu_loop.cpp:97-100 | push_heap on a heap with one new node at the end gives a heap with exactly the same nodes |
| `TimerHeap.PopHeap` | shuio/linux/shu_loop.cpp:58-59 | pop_heap moves the least node to the end and leaves a heap of all the others |
| `TimerHeap.FrontIsLeast` | shuio/linux/shu_loop.cpp:54 | `timers.front()` is below every node of the heap, the fact each use of the front relies on |
| `TimerSpec.ListsUnique` | shuio/linux/shu_loop.cpp:22-28 | the `(expire, id)` order leaves only one way to list a set of timers, so "in order" determines the batch |
| `LocalTimers.LocalTimer.TimerGetSeq` | shuio/linux/shu_loop.cpp:79-87 | returns the counter value, skipping 0, on a counter that wraps at 2^64 |
| `LocalTimers.NthSequenceNumber` | shuio/linux/shu_loop.cpp:79-87 | the n-th sequence number is n mod (2^64 - 1), plus 1 |
| `LocalTimers.SequenceNumbersRepeat` | shuio/linux/shu_loop.cpp:79-87 | no sequence number is 0, and two calls get the same one exactly when they are a multiple of 2^64 - 1 calls apart |
| `LocalTimers.LocalTimer.TimerAdd` | shuio/linux/shu_loop.cpp:95-101 | the heap array then holds one more node and is still a heap; ids stay unique |
| `LocalTimers.LocalTimer.CollectDue` | shuio/linux/shu_loop.cpp:50-63 | pops exactly the due nodes, returns those without a tombstone in ascending `(expire, id)` order, and uses up the tombstones of the others |
| `LocalTimers.LocalTimer.TimerCall` | shuio/linux/shu_loop.cpp:50-74 | the whole of timer_call, with callbacks that add and cancel timers and other threads that draw numbers meanwhile, leaves heap and tombstones as the set-level specification says and runs its batch |
| `LocalTimers.LocalTimer.PruneSlots` | shuio/linux/shu_loop.cpp:67-73 | clears the tombstones with an empty heap, otherwise drops those below the front node |
| `TimerRefinement.PruneIsSound` | shuio/linux/shu_loop.cpp:67-73 | pruning loses no tombstone of a node in the heap, keeps only tombstones at or above the front, none if there is no front, and leaves the live timers alone |
| `TimerRefinement.CollectAgrees` | shuio/linux/shu_loop.cpp:50-63 | collecting takes exactly the due live timers out of the plain map, in order |
| `TimerRefinement.CallAgrees` | shuio/linux/shu_loop.cpp:50-74 | one timer_call with re-entrant callbacks runs the same callbacks in the same order as on a plain map of live timers, and the maps agree afterwards |
| `TimerRefinement.TimersRefine` | shuio/linux/shu_loop.cpp:50-104 | every legal run of draws, adds, cancels and timer_calls, with re-entrant callbacks and draws of other threads between them: heap plus tombstones simulate the plain map, the traces are equal |
| `TimerRefinement.TimersRefineFromStart` | shuio/linux/shu_loop.cpp:44-104 | the same from new timers: same callbacks in the same order as the plain map, none twice |
| `TimerRefinement.CancelledNeverRuns` | shuio/linux/shu_loop.cpp:102-104 | a timer cancelled while in the heap never runs, whatever follows |
| `TimerRefinement.CancelBeforeAdd` | shuio/linux/shu_loop.cpp:67-73 | outside the cancel contract: a cancel arriving before its add suppresses the timer exactly when some heap node was at or below its id when the tombstones were pruned |
| `SleepBound.TruncatedTwice` | shuio/linux/linux_detail.h:68-74 | both truncating casts together lose less than a millisecond and give a normalised timespec |
| `SleepBound.SleepsAlmostToTheBound` | shuio/linux/shu_loop.cpp:106-116 | with the front deadline not passed: the timespec is normalised, at most min(deadline - now, 300 s), and short of it by less than 1 ms |
| `SleepBound.NormalisedExactly` | shuio/linux/shu_loop.cpp:106-116 | for every clock value: the timespec is normalised if and only if the front deadline is not a full millisecond in the past |
| `LoopSleep.WakesForTimers` | shuio/linux/shu_loop.cpp:190-194 | in every reachable state of the running loop: a waiting loop may go on at the deadline of each timer in its heap and after 300 s, and without a completion not a millisecond or more before the first of these |
| `Tags.PackParse` | shuio/linux/linux_detail.h:84-91 | ud_parse undoes ud_pack for every id and event that pass the panic guards |
| `Tags.ParsePack` | shuio/linux/linux_detail.h:89-91 | every 64-bit word is the packing of what it parses to |
| `Tags.PackInjective` | shuio/linux/linux_detail.h:84-88 | equal tags mean equal id and event |
| `Tags.NeverSkipped` | shuio/linux/shu_loop.cpp:198-204 | no tag of a given-out id with events 0 to 6 equals 0 or the all-ones marker; the all-ones tag is exactly event 7 of the largest id |
| `Tags.PackValue` | shuio/linux/linux_detail.h:84-88 | the shift-and-or on bits has the value 8 * id + event that the loop model uses |
| `Registry.UringNative.MakeRegisterId` | shuio/linux/linux_detail.h:35-37 | returns the next id, one no callback is registered under |
| `Registry.UringNative.RegisterLoopCb` | shuio/linux/linux_detail.cpp:24-30 | counter and map are those of the loop model's registration; every tag of the socket now finds this callback, and every other tag finds what it found before |
| `Registry.UringNative.UnregisterLoop` | shuio/linux/linux_detail.cpp:44-50 | the map is that of the loop model's close; no tag of the socket finds a callback any more, every other tag finds what it found before |
| `TaskQueues.CountKeeps` | shuio/linux/shu_loop.cpp:246-247 | the increment of a posting thread keeps conservation, per-thread order and the counter law modulo 2^32 |
| `TaskQueues.EnqueueKeeps` | shuio/linux/shu_loop.cpp:251-255 | the push under the lock keeps conservation, per-thread order and the counter law |
| `TaskQueues.SubtractKeeps` | shuio/linux/shu_loop.cpp:328 | the subtraction keeps the counter law, and absent a wrap of the counter never goes below zero |
| `TaskQueues.RunInCallOrder` | shuio/linux/shu_loop.cpp:318-326 | what has run of a thread's tasks is a prefix of that thread's post calls |
| `TaskQueues.WaitDecision` | shuio/linux/shu_loop.cpp:190 | the counter is zero exactly when its law is a multiple of 2^32; absent a wrap it is positive whenever a queue, a posting thread or any past in-loop post is there |
| `TaskLoop.SLoop.PostInLoop` | shuio/linux/shu_loop.cpp:268-272 | the loop thread appends to its own queue after the increment |
| `TaskLoop.SLoop.PostFrom` | shuio/linux/shu_loop.cpp:246-258 | post on another thread, with arbitrary interference between increment, push and wake-up |
| `TaskLoop.SLoop.OnTasks` | shuio/linux/shu_loop.cpp:318-335 | on_tasks with arbitrary posting meanwhile runs the tasks its two batches hold, in their order, and leaves queues, counter and history as its step-by-step specification says |
| `TaskLoop.OnTasksRunsAll` | shuio/linux/shu_loop.cpp:318-335 | one on_tasks runs everything that was in the locked queue, then everything in the loop's own queue with what the first batch posted there, in order and once; the laws hold again |
| `LoopTasks.TasksConserved` | shuio/linux/shu_loop.cpp:246-335 | in every reachable state of the concurrent system: executed, running and queued tasks make up the enqueue history of each queue, each thread is served in its call order, the counter follows its law modulo 2^32 |
| `LoopTasks.DecisionIsSafe` | shuio/linux/shu_loop.cpp:190 | in every reachable state, absent a wrap: no underflow, and the decision is to wait if and only if both queues are empty, no thread is mid-post and no in-loop post was ever made |
| `LoopTasks.NeverSleepsAgain` | shuio/linux/shu_loop.cpp:247 | after one post on the loop thread no later decision is to wait, because in-loop posts are counted and never subtracted |
| `LoopTrace.TasksRunAsPosted` | shuio/linux/shu_loop.cpp:246-335 | over every run, from the calls to the callbacks: the user tasks called back for each thread, and for the loop thread, are a first part of what it posted, in its order; with queues and batches empty they are all of it |
| `LoopTrace.CallsRecorded` | shuio/linux/shu_loop.cpp:278-308 | over every run: the calls the per-thread order speaks of are those the thread made, a timer with the deadline and callback given |
| `LoopRounds.PhasesInOrder` | shuio/linux/shu_loop.cpp:184-232 | in every state: the loop decides, waits, takes completions, runs the locked batch, its own, the timers, and decides again, or ends; it skips nothing and turns back nowhere |
| `LoopRounds.EveryRoundTakesCompletions` | shuio/linux/shu_loop.cpp:194-223 | in every round: by the time on_tasks begins, at least the completions there when the wait ended have been taken |
| `LoopRounds.EveryRoundRunsTasks` | shuio/linux/shu_loop.cpp:223-226 | over every run, in every round: when it comes to the timers, every task enqueued in either queue before the completions were through has run |
| `LoopProgress.LoopGoesOn` | shuio/linux/shu_loop.cpp:184-230 | over every run: while ring and eventfd are open the loop thread can go on from wherever it is, so that none of its panic guards fails |
| `LoopProgress.StopNeverPanics` | shuio/linux/shu_stream.cpp:172-191 | over every run: stop() of a stream or acceptor never panics while the loop is open |
| `LoopWakeup.NoLostWakeup` | shuio/linux/shu_loop.cpp:190-227 | in every interleaving: a loop blocked with a task queued has a readable eventfd with its poll armed or completed, or a poster between enqueue and write |
| `LoopWakeup.BlockedLoopWakes` | shuio/linux/shu_loop.cpp:194-227 | from every such state at most one write and one poll completion, both already due, end the wait at any clock value |
| `LoopWakeup.EfdReadSucceeds` | shuio/linux/shu_loop.cpp:347-366 | exactly one poll is armed, completed or being handled, and whenever the loop reads the eventfd its counter is positive |
| `LoopTrace.EfdCountsWakeups` | shuio/linux/shu_loop.cpp:278-308 | over every run: the eventfd counts the wake-ups since its last read: one per post of another thread and one per timer added or cancelled |
| `LoopRouting.RoutesAsIntended` | shuio/linux/shu_loop.cpp:196-222 | the tag of a completion decides its target exactly as its submitter would: the submitting object while open, nobody once closed |
| `LoopRouting.CompletionRouting` | shuio/linux/shu_loop.cpp:196-222 | over all histories of register, submit, close and complete: every completion in the queue goes to the object and event it was submitted for, or nowhere if that object closed, never to another object or the reserved id |
| `LoopTrace.CompletionsCallBack` | shuio/linux/shu_loop.cpp:196-222 | in every reachable state: a completion calls back the open object it was submitted for, once and for its event; one of a closed object or of the loop calls nobody |
| `LoopClose.CloseIsFinal` | shuio/linux/shu_stream.cpp:39-50 | once an object closed no alloc, read, write or connection callback of it runs again, from any state that satisfies the invariants; except that an alloc callback still running is followed by its read callback, next and once |
| `LoopClose.ClosedMeansSilent` | shuio/linux/shu_stream.cpp:39-50 | the same at every point of every run from the start, for completions already queued as well |
| `LoopClose.ReadCallbackAfterClose` | shuio/linux/shu_stream.cpp:115-148 | over every run: the read callback follows the alloc callback whatever that called, and is on a closed stream exactly when a call of it was the first stop() with no write out and no read() of the callback before |
| `LoopWitnesses.StopInAllocCallsBack` | shuio/linux/shu_stream.cpp:125-146 | a run from the start of the loop in which it happens, evClose posted before the read callback |
| `LoopClose.EvCloseOnce` | shuio/linux/shu_stream.cpp:45-49 | evClose runs at most once, only for a closed object, only as the task posted at its close; until it has run that task is in the loop's own queue or batch |
| `LoopClose.NeverInsideTheCallback` | shuio/linux/shu_stream.cpp:45-49 | while a callback runs nothing else is called back; an object closed meanwhile has its evClose behind everything already queued |
| `LoopRounds.EvCloseRound` | shuio/linux/shu_loop.cpp:318-335 | over every run, in every round: at the end of the loop's own batch evClose has run of exactly the objects that had closed when that batch was swapped out |
| `LoopRounds.EvCloseNextRound` | shuio/linux/shu_loop.cpp:330-334 | an object that closes between two of these swaps has its evClose in the second batch and not in the first |
| `LoopWitnesses.ClosedInLockedBatch` | shuio/linux/shu_loop.cpp:324-334 | a run in which a stop() in another thread's task closes and evClose runs in the same round |
| `LoopWitnesses.ClosedInOwnBatch` | shuio/linux/shu_loop.cpp:330-334 | a run in which a stop() in an in-loop task closes and evClose is still queued at the end of the round |
| `LoopWitnesses.ReadingStreamStaysOpen` | shuio/linux/shu_stream.cpp:181-187 | a run in which a stop() in another thread's task only cancels the read: at the end of the round the stream is open and no evClose posted |
| `LoopTimers.AddThenCancel` | shuio/linux/shu_loop.cpp:278-308 | over every run: a thread adds a timer and later cancels it; if no batch collected it when the loop comes to the cancel task, its callback never runs |
| `LoopCancel.AddThenCancelElsewhere` | shuio/linux/shu_loop.cpp:246-258 | over every run: any thread cancels a timer whose add is already enqueued; if no batch collected it when the loop comes to the cancel task, its callback never runs |
| `LoopCancel.OvertakingCancelHolds` | shuio/linux/shu_loop.cpp:67-73 | over every run: a cancel run before its add was taken in silences the timer for good if no prune in between takes the tombstone |
| `LoopCancel.OvertakingCancelExactly` | shuio/linux/shu_loop.cpp:67-104 | over every run that goes on without a further cancel: outside a batch the timer's callback has run exactly when a prune took the tombstone and timer_call found the timer due |
| `LoopWitnesses.CancelIsForgotten` | shuio/linux/shu_loop.cpp:67-73 | a run in which cancel_timer is called while the add is queued and the callback runs |
| `LoopTimers.CollectedRunOnce` | shuio/linux/shu_loop.cpp:64-66 | over every run of the system, other threads between two callbacks included: a timer callback runs at most once, only for a timer some batch collected, and for each of these once the batch is over |
| `LoopBatch.TimersRunInOrder` | shuio/linux/shu_loop.cpp:50-66 | from the clock reading of timer_call to its prune, in every run: called back are exactly the timers of the heap that were due and not cancelled, by deadline and then by number |
| `LoopBatch.AddedTimerRuns` | shuio/linux/shu_loop.cpp:278-299 | over every run: a timer added by any thread and never cancelled has been called back, with its own callback, exactly when timer_call has found it due, as long as the loop goes on |
| `LoopTimers.CancelInHeapSilences` | shuio/linux/shu_loop.cpp:301-308 | over every run: a cancel_timer on the loop thread for a timer in the heap, in a timer callback too, and its callback never runs |
| `LoopDrain.SystemRunsStreams` | shuio/linux/shu_stream.cpp:52-63 | every run of the whole system is, for each stream, a run of its drain machine, with the operations really in kernel and completion queue |
| `LoopDrain.StreamHarmsExactly` | shuio/linux/shu_stream.cpp:150-169 | inside the running loop, over every run after start(): two reads in kernel or completion queue, reads overlapping or outliving the close, and a write outliving it, each exactly when run_read or run_write takes the branch that does it |
| `LoopDrain.StreamsDrainInTheLoop` | shuio/linux/shu_stream.cpp:84-191 | inside the running loop, over every run after start(): closed means stopped; stopped and open means an operation is still out; without those branches a closed stream has none out |
| `LoopDrain.StartShows` | shuio/linux/shu_stream.cpp:52-63 | start() in any reachable state finds no operation of the new stream anywhere: it is where the drain machine starts, with the evClose given |
| `LoopDrain.StoppedStreamsClose` | shuio/linux/shu_stream.cpp:150-191 | inside the running loop, from any point at which a stream is stopped: its operations out and completions make up what was out and what its calls submit, and without those branches it is closed outside callbacks exactly when all of it came back |
| `LoopAcceptors.SystemRunsAcceptors` | shuio/linux/shu_acceptor.cpp:87-134 | every run of the whole system is, for each acceptor, a run of its drain machine, with the accepts really in kernel and completion queue |
| `LoopAcceptors.AcceptorsDrainInTheLoop` | shuio/linux/shu_acceptor.cpp:87-134 | in every reachable state, for every acceptor: at most one accept out, closed only after stop with none out, and outside evConn closed exactly when none is out |
| `LoopAcceptors.StoppedAcceptorsClose` | shuio/linux/shu_acceptor.cpp:112-134 | inside the running loop a stopped acceptor submits nothing again and is closed exactly when its outstanding accept came back |
| `LoopAcceptors.StopHandsCancel` | shuio/linux/shu_acceptor.cpp:119-134 | in every reachable state: the first stop() hands one cancel request to the ring exactly when an accept is in kernel or completion queue; later calls hand over nothing |
| `LoopDrain.StopHandsCancel` | shuio/linux/shu_stream.cpp:172-191 | the first stop() of a stream hands one cancel request to the ring exactly when a read is flagged and no write |
| `LoopStop.StopArrives` | shuio/linux/shu_loop.cpp:235-244 | over every run: the stop operation is on its way, seen, or has ended the loop exactly when stop() was called on the loop thread or the loop has taken the task of a stop() elsewhere |
| `LoopStop.StopEndsTheRound` | shuio/linux/shu_loop.cpp:212-232 | over every run: once the loop has seen the stop it never waits again, and its round ends with ring and eventfd closed and no timer left |
| `LoopStop.EndsOnlyWhenAsked` | shuio/linux/shu_loop.cpp:227-232 | nothing but stop() ends the loop |
| `LoopShutdown.LastLockedBatch` | shuio/linux/shu_loop.cpp:336-345 | over every run that ends: of the tasks of other threads exactly those in the locked queue at the last swap have run, later ones never |
| `LoopShutdown.LastOwnBatch` | shuio/linux/shu_loop.cpp:330-345 | of the tasks posted on the loop thread exactly those posted before the last swap of its own queue have run, later ones never |
| `LoopShutdown.LostEvClose` | shuio/linux/shu_loop.cpp:330-345 | over every run that ends: evClose of an object ever runs exactly when the object had closed before the last swap of the own queue; those closed later stay queued |
| `LoopShutdown.PosterPanics` | shuio/linux/shu_loop.cpp:355-360 | over every run from the enqueue of a post to its eventfd write: the guard of wakeup() fails exactly when the loop ended in between |
| `LoopShutdown.PosterIsStuck` | shuio/linux/shu_loop.cpp:355-360 | from then on that write never happens |
| `LoopWitnesses.EvCloseIsLost` | shuio/linux/shu_loop.cpp:330-345 | a run that ends with an evClose queued for good and a poster before its write |
| `StreamSpec.SecondRead` | shuio/linux/shu_stream.cpp:65-66 | all runs from start(): two reads are in flight at some point exactly when run_read at some point reads again over a read of its callback |
| `StreamSpec.ReadsDrain` | shuio/linux/shu_stream.cpp:150-156 | all runs: reads overlap or outlive the close exactly when run_read at some point ends with a read flagged, other than stopped with a write out |
| `StreamSpec.WritesDrain` | shuio/linux/shu_stream.cpp:160-170 | all runs: the close finds a write in flight exactly when run_write closes on a write flagged in its callback |
| `StreamSpec.ReadsCounted` | shuio/linux/shu_stream.cpp:103-116 | all runs: the reads of an open stream are the flagged one plus the overlapping ones not completed, counted exactly |
| `StreamSpec.CloseFindsRead` | shuio/linux/shu_stream.cpp:172-191 | all runs: the closing step finds a read in flight exactly when the flag is up or that count is positive |
| `StreamSpec.DrainSafety` | shuio/linux/shu_stream.cpp:84-191 | all runs from start(): close only after stop, evClose posted at most once, an operation out while stopped and open, and nothing in flight at the close unless one of those branches was taken |
| `StreamSpec.OneReadDrains` | shuio/linux/shu_stream.cpp:84-191 | all runs with one read() at the start and no write after the stop: close only after stop with nothing in flight, evClose posted at most once |
| `StreamSpec.NoWriteAfterStop` | shuio/linux/shu_stream.cpp:84-101 | a stream that reads and is not written to after its stop never closes on a write |
| `StreamSpec.ReadsUntilStopped` | shuio/linux/shu_stream.cpp:150-156 | all runs: until it is stopped a stream that reads has a read out whenever it is not in a callback of a read |
| `StreamSpec.OneReadCall` | shuio/linux/shu_stream.cpp:65-82 | without a further read() no read overlaps or outlives the close |
| `StreamSpec.WriteInFlightAtClose` | shuio/linux/shu_stream.cpp:160-170 | a run of a stream that only writes and closes with a write in flight |
| `StreamSpec.ReadInFlightAtClose` | shuio/linux/shu_stream.cpp:150-153 | a run that closes with a read in flight |
| `StreamSpec.SecondReadDoubles` | shuio/linux/shu_stream.cpp:65-66 | a second read() inside the read callback passes the panic guard and leaves two reads in flight |
| `StreamSpec.DrainCompletes` | shuio/linux/shu_stream.cpp:150-191 | all runs, from any point at which the stream is stopped: operations out and completions make up what was out and what the calls submit; unless a harmful branch is taken at most two were out and the stream is closed exactly when all completed |
| `StreamSpec.ReadCallbackAfterClose` | shuio/linux/shu_stream.cpp:118-146 | all runs: the alloc callback is followed by the read callback, on a closed stream exactly when it made the first stop() with nothing flagged |
| `StreamSpec.StopCancelsExactly` | shuio/linux/shu_stream.cpp:172-191 | all continuations: the first stop() makes one cancel exactly when a read and no write is out, later ones none; with both out the stream stays open until a read completes by itself |
| `StreamSpec.StopDuringWrite` | shuio/linux/shu_stream.cpp:177-179 | a run in which stop() finds read and write out and cancels nothing |
| `Streams.SStream.InitRead` | shuio/linux/shu_stream.cpp:65-82 | read() submits a read, or reports the failing socket option and submits nothing |
| `Streams.SStream.PostWrite` | shuio/linux/shu_stream.cpp:84-101 | refuses while a write is out, otherwise submits one |
| `Streams.SStream.Stop` | shuio/linux/shu_stream.cpp:172-191 | first call only: waits for a write, cancels a read, or closes |
| `Streams.SStream.RunRead` | shuio/linux/shu_stream.cpp:115-158 | a read completion with any calls in the alloc callback and in the read callback is a run of the drain machine; the read callback is told the error, or the count and the trimmed sizes, and comes after a close exactly when the alloc callback stopped closing |
| `Streams.SStream.RunWrite` | shuio/linux/shu_stream.cpp:160-170 | a write completion with any calls in its callback is a run of the drain machine |
| `Buffers.TrimExact` | shuio/linux/shu_stream.cpp:138-145 | the trimmed sizes sum to the read count if and only if the first size survives the cast to int or the count stays below what the cast makes of it |
| `Buffers.ReadDelivers` | shuio/linux/shu_stream.cpp:122-146 | under that condition gathering the two buffers gives back exactly the bytes read |
| `Buffers.CopyFromBuffers` | shuio/shu_buffer.h:41-48 | the container ends up with all named bytes in order and their number is returned; without buffers it is untouched |
| `Buffers.CopyFromBuffers1` | shuio/shu_buffer.h:53-60 | the container is resized to the first buffer and the others appended |
| `Buffers.CopiesAgree` | shuio/shu_buffer.h:50-60 | both copy helpers give the same bytes if and only if the resized container already holds what the first buffer names |
| `Buffers.LentStorageDelivers` | shuio/shu_buffer.h:50-60 | with a container that lent its storage as first buffer copy_from_buffers_1 delivers exactly the bytes read |
| `AcceptorLinux.DrainSafety` | shuio/linux/shu_acceptor.cpp:87-134 | all runs: close only after stop with no accept in the ring, evClose posted at most once, never two accepts out, and outside evConn closed exactly when none is out |
| `AcceptorLinux.DrainCompletes` | shuio/linux/shu_acceptor.cpp:112-134 | after stop nothing is submitted again and the close comes with the last completion |
| `AcceptorLinux.StopCancelsExactly` | shuio/linux/shu_acceptor.cpp:119-134 | all continuations: the first stop() makes one cancel exactly when an accept is out, later calls none |
| `AcceptorLinux.SAcceptor.Run` | shuio/linux/shu_acceptor.cpp:87-117 | one completion calls evConn once, with the descriptor or the error, then accepts again or closes |
| `AcceptorLinux.SAcceptor.StopCalled` | shuio/linux/shu_acceptor.cpp:119-134 | first call only: cancels the outstanding accept or closes |
| `AcceptorWinSpec.DrainSafety` | shuio/win32/shu_acceptor.cpp:86-206 | any number of slots, any mix of pending, immediate and failing AcceptEx: closed exactly when stopped with no slot busy, nothing submitted after the stop, evClose posted once and last |
| `AcceptorWinSpec.DrainCompletes` | shuio/win32/shu_acceptor.cpp:174-184 | after stop every completion frees exactly one slot and the close comes with the last |
| `AcceptorWinSpec.KeepsAccepting` | shuio/win32/shu_acceptor.cpp:98-188 | any number of slots, any answers: unstopped, a slot is idle exactly when it was never submitted or was refused the last time; each client before a stop is followed at once by the slot's next AcceptEx or the stop of its evConn |
| `AcceptorWinSpec.StartReaches` | shuio/win32/shu_acceptor.cpp:86-95 | start() submits the slots in order up to the first refused at once, unless stopped; its result says which |
| `AcceptorWinSpec.StopCancelsExactly` | shuio/win32/shu_acceptor.cpp:190-206 | the first stop() makes one CancelIoEx for each busy slot and no other, later ones do nothing |
| `AcceptorWinSpec.PostSafe` | shuio/win32/shu_acceptor.cpp:98-135 | whatever AcceptEx answers, post_acceptor changes only its own slot and leaves the acceptor consistent |
| `AcceptorWinSpec.RunSafe` | shuio/win32/shu_acceptor.cpp:137-188 | the same for run with its recursion; after a stop it frees its slot and submits nothing |
| `AcceptorWin.SAcceptor.Start` | shuio/win32/shu_acceptor.cpp:86-95 | posts slot after slot until one fails, with completions on the spot |
| `AcceptorWin.SAcceptor.PostAcceptor` | shuio/win32/shu_acceptor.cpp:98-135 | the method computes its specification, busy flags, callbacks and return code included |
| `AcceptorWin.SAcceptor.Run` | shuio/win32/shu_acceptor.cpp:137-188 | the method computes its specification, the count of busy slots by its loop included |
| `AcceptorWin.SAcceptor.Stop` | shuio/win32/shu_acceptor.cpp:190-206 | first call only: one cancel per busy slot, or the close if there is none |
| `CoSpec.StreamIsConserved` | example/co_test/co_test.cpp:384-402 | over every run: what the co_reads returned and what is buffered make up everything passed to on_read before the first error, in order; a waiting reader means an empty buffer; before an error no co_read returned without bytes |
| `CoSpec.CoReadOutcome` | example/co_test/co_test.cpp:384-402 | over every run: a co_read ends with nothing exactly after an error, otherwise takes everything passed in and not yet returned, and suspends exactly when there is nothing |
| `CoSpec.OnReadOutcome` | example/co_test/co_test.cpp:488-509 | over every run: a waiting co_read ends with exactly the bytes that came, or with none on an error, and the reader waits again exactly if it reads on before any error |
| `CoSpec.ErrorEndsDelivery` | example/co_test/co_test.cpp:488-509 | after an error nothing more is returned: all bytes come out if and only if the error found the buffer empty |
| `CoSpec.BufferedBytesAreLost` | example/co_test/co_test.cpp:488-509 | bytes that arrive while nobody reads, followed by the end of the file, are never returned |
| `CoSpec.SocketsAreConserved` | example/co_test/co_test.cpp:325-345 | delivered and pending sockets make up everything accepted, in order, errors in between included; somebody waits only while nothing is pending |
| `CoSpec.CoAcceptOutcome` | example/co_test/co_test.cpp:263-279 | over every run: a co_accept takes the next socket not yet delivered; without one it ends with nothing after an error or while somebody waits, and suspends otherwise |
| `CoSpec.OnClientOutcome` | example/co_test/co_test.cpp:325-345 | over every run: a waiting co_accept ends with exactly the socket that came, or nothing on an error; a socket nobody waits for is kept |
| `CoSpec.FlattenJoins` | example/co_test/co_test.cpp:488-509 | joining buffers: nothing gives nothing, one gives itself, two lists give both in order |
| `Coroutines.CoSession.CoReadCall` | example/co_test/co_test.cpp:384-402 | await_ready, takebuf and await_suspend through the awaiter object do what the value-level co_read does |
| `Coroutines.CoSession.OnReadCallback` | example/co_test/co_test.cpp:488-509 | on_read appends all buffers to the waiting awaiter or to the session and resumes the reader, which may read again at once |
| `Coroutines.CoTcpServer.CoAcceptCall` | example/co_test/co_test.cpp:263-279 | co_accept pops a pending socket, gives nothing if somebody waits or after an error, or suspends |
| `Coroutines.CoTcpServer.OnClientCallback` | example/co_test/co_test.cpp:325-338 | on_client hands the socket to the waiting awaiter or queues it |

## Left out

- Kernel and library calls (io_uring, IOCP, eventfd, sockets, readv): an environment of submitted operations that complete in any order, a counter with a one-shot poll, and byte sequences. `io_uring_get_sqe` succeeds, a cancel request completes with tag 0, the completion queue never overflows, and readv transfers at most 0x7ffff000 bytes.
- Wrap-around of 64-bit counters inside the loop model: an eventfd counter at its limit, more than 2^64 register ids or timer sequence numbers have no next state there. The 32-bit task counter wraps as in the source, and `LocalTimer.TimerGetSeq` wraps at 2^64.
- LocalTimers.LocalTimer.TimerCall: assumes that the sequence numbers its callbacks draw do not pass 2^64 during that call, since ids would then repeat.
- LocalTimers.LocalTimer.TimerAdd: asks for an id not in the heap, which is what timer_get_seq provides; clock values are unbounded integers, so `now + time` does not overflow.
- Task ids (`task_req_`), which nothing reads.
- User code runs API calls on the loop thread only, as the library demands; `loop.dispatch` on that thread is then part of the running callback.
- The Windows loop and stream: the loop repeats the Linux queues and heap, and the Windows stream closes with a read outstanding on purpose.
- Both clients: the Linux one moves its socket out before its close path uses it.
- The Linux acceptor before a successful bind and listen, and the Windows one before its posting loop; address conversion and the port check of the Windows run().
- AcceptEx on a layered service provider, where a success on the spot also queues a completion: the model follows the mode the library sets where it can, with no second completion.
- Tasks run after ring and eventfd are closed that touch either one; only user code is modelled in that last on_tasks.
- The failing socket options of read() in the loop model (they are in `Streams.SStream.InitRead`): such a call reports to the callback it was given within the call itself, on a closed stream too.
- Timeouts of io_uring may also end a wait early in the loop model; LoopSleep bounds the sleep itself.
- The Windows acceptor inside a running loop: its drain is proved of its own machine; only the Linux objects are run by the loop system.
- Coroutine frames, sleeping and writing coroutines, co_result; the awaiter objects of reading and accepting are modelled.
- Memory-level concerns (destroying a callback while it runs, `delete` in evClose, the unlocked size read as a data race), user data, socket option caching, panic printing, the other example programs.
