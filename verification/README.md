# Verified models of an asynchronous kernel

Dafny models of the parts of the kernel whose correctness is hardest to see by reading, with proofs of what they
promise. `dafny verify dfyconfig.toml` checks everything.

**Tasks, wakers and the async mutex.** `TaskSystem.dfy` is a step system over any number of tasks, CPUs and
mutexes. A step is what the code does under one lock: a pop from the ready queue, a compare-and-swap of the
owner word, a registration, the match on a `Pending` poll, a pop and wake. Every interleaving is a run. The
invariant names the one place each task is in. Its consequences over all runs are that a live task is in exactly
one place with a fitting state and one reference, that guards exclude each other, that a task has one wait node
exactly while it is `Blocking` or `Blocked`, and that a step panics exactly when a task that holds a mutex fails
to lock it again. `LostWakeup.dfy` asks whether a free mutex can be left with sleeping waiters only. On one CPU
it cannot. On two CPUs it can, because the condition is evaluated before the wait-list lock is taken. The
condition is exact: the property holds if and only if there is at most one CPU. `TaskLayer.dfy` is the code
itself, as methods that update the kernel's state in place, each proved to take the steps of the step system;
`notify_all`, which the mutex does not use, is proved to wake every waiter once.

**Process address space.** An address space is a set of areas keyed by their first page, a page table and
attached segments. It denotes a simple map from page to (frame or lazy, flags, shared, file and offset).
`Tiling.dfy` says when areas tile their pages and gives the algebra of cutting and inserting them. `MapArea.dfy`
is one area and the page table, `FreeSpace.dfy` the search for a gap, `AddressSpace.dfy` what the operations
mean page by page, `Fork.dfy` what a fork keeps and `MemorySet.dfy` the operations. Each operation is exactly the
simple map update: unmapping drops pages, `mprotect` changes flags, `mmap` writes a block of lazy pages, a fault
makes one page resident, and a fork gives two maps of equal contents. Any allocation of a frame may fail;
`Scripts.dfy` is the notion of a script of failures. `Isolation.dfy` is two processes over one memory and every
run of their steps, and `Processes.dfy` shows that a fork followed by any calls and stores of parent and child,
in any order, is such a run: each sees at a page its own last store there, or what the parent saw before the
fork, unless it remaps the page or the other one stores to a shared page.

**Schedulers.** `Cfs.dfy`: the ready queue is an index by cached virtual runtime. It agrees with the tasks in
every run, picks take the minimum, and in any run of one-tick rounds and priority changes virtual runtimes stay
within 69 of each other, so ticks are shared in proportion to the weights. Adding a task resets its base and not
its ticks, so the index stays in agreement if and only if the task brings no scaled ticks with it. Rounds do not
refresh the recorded minimum at which a new task starts, so the bound holds for tasks that are there from the
start: a second task that arrives after k rounds of the first starts exactly k behind it.
`RoundRobin.dfy`: a full cycle gives everybody one slice and restores the state, and nobody waits longer than
the slices ahead.

**Streams.** `Streams.dfy` is an inner file driven by a finite script of answers (not ready, failed, short).
`BufReader.dfy` and `BufWriter.dfy` prove that buffering is invisible for every script and every sequence of
polls: what callers see is a run of an unbuffered file. `Disk.dfy` proves that byte reads and writes over 512-byte blocks act on a flat array of bytes, also when
transfers fail half way.

**Paths.** `Path.dfy`: the in-place canonicalization computes the component-stack normal form. `RamFs.dfy`:
parent links stay right in every run, and a path that leads somewhere leads to the same node after
canonicalization. Creating or removing keeps a read lock on each directory the walk descended from, so a walk
that comes back to such a directory through ".." waits for itself. The model shows this as `Hang` and proves
exactly when it happens.

**Futexes.** `Futex.dfy`: wait and wake over hash buckets, for every hash function. Each task has at most one
entry, none survives its wait, and every count a wake returned is accounted for.

Addresses are page numbers and sizes are page counts, except where a size in bytes is what the code takes.
Integers are unbounded unless a width matters: seek offsets are 64-bit, futex keys 32-bit.

## Model

| member | source | states |
|---|---|---|
| `TaskSystem.StepKeepsInv` | modules/trampoline/src/lib.rs:80-157 | every step of every CPU from a state in which each task is where its record says leads to such a state again, over dispatch, the `Pending` match, exit, the waker and the mutex |
| `TaskSystem.ExactlyOnePlace` | modules/taskctx/src/current.rs:299-316 | in every run over any number of CPUs a live task is queued once, or on one CPU, or parked; its state fits that place; the task layer owns one reference; an exited task is nowhere with none |
| `TaskSystem.MutualExclusion` | modules/sync/src/mutex.rs:261-285 | in every run two live guards of one mutex are the same task's, and that task is in the owner word |
| `TaskSystem.OneNodeIffWaiting` | modules/task_api/src/wait_list.rs:48-52 | in every run a task has exactly one wait node, in one list, if and only if it is `Blocking` or `Blocked` |
| `TaskSystem.StepPanicsIff` | modules/sync/src/mutex.rs:273-279 | a step panics if and only if it is the failed swap of a task that holds that mutex; no panic arm of `run_task` or `wakeup_task` and no other assert is ever reached |
| `TaskSystem.RunPanicsIff` | modules/trampoline/src/lib.rs:113-152 | a run ends in a panic if and only if its last step is such a swap |
| `LostWakeup.RelockingPanics` | modules/sync/src/mutex.rs:273-279 | there are such runs: a task that calls `lock` on a mutex it holds |
| `TaskSystem.NoPanic` | modules/taskctx/src/lib.rs:50-74 | so a run in which nobody calls `lock` on a mutex it holds never panics |
| `LostWakeup.OneCpuLosesNoWakeup` | modules/sync/src/wait_queue.rs:198-213 | on one CPU, between polls, a free mutex with waiters has an already notified waiter that is ready and will retry |
| `LostWakeup.NotifiedWaiterCanAcquire` | modules/sync/src/mutex.rs:248-290 | from such a state a run exists in which that waiter is picked and takes the lock |
| `LostWakeup.WaiterSleepsForever` | modules/sync/src/wait_queue.rs:203-210 | on two CPUs a run exists that ends with the mutex free, its waiter parked, and no step possible but the creation of a new task |
| `LostWakeup.SleepsUntilTaken` | modules/task_api/src/wait_list.rs:87-93 | such a waiter sleeps through every continuation in which nobody takes the mutex |
| `LostWakeup.NoLostWakeupIffOneCpu` | modules/sync/src/mutex.rs:153-169 | no run loses a wakeup if and only if there is at most one CPU |
| `TaskLayer.Kernel.WakeupTask` | modules/taskctx/src/lib.rs:50-74 | the waker's state match: a blocking task becomes `Waked`, a blocked one `Runable` and queued, a running or queued one stays, any other state is a panic; it is the wake of the step system |
| `TaskLayer.Kernel.PrepareToWait` | modules/task_api/src/wait_list.rs:48-52 | the task becomes `Blocking` and is last in the list; nothing else changes |
| `TaskLayer.Kernel.NotifyOne` | modules/task_api/src/wait_list.rs:87-93 | the front waiter is taken out of the list and woken, and nothing else changes; the result says whether there was one |
| `TaskLayer.Kernel.NotifyAll` | modules/task_api/src/wait_list.rs:96-102 | the loop is a wake of every listed waiter in order |
| `TaskLayer.WakeAllWakesAll` | modules/task_api/src/wait_list.rs:96-102 | waking all empties the list, moves each waiter to `Waked` or to the ready queue once, touches nobody else and does not panic |
| `TaskLayer.WaitListsHoldWaiters` | modules/sync/src/wait_queue.rs:198-213 | in every run a wait list holds waiters of that mutex, each once, so the previous row applies |
| `TaskLayer.Kernel.Dispatch` | modules/trampoline/src/lib.rs:40-76 | a turn of the scheduling loop keeps the current task, or takes a ready one out of the queue and makes it current, a parked lock future at its swap and any other in its code, by steps of the step system; it idles only when nothing is ready |
| `TaskLayer.Kernel.PollPending` | modules/trampoline/src/lib.rs:113-152 | after a `Pending` poll a running task is queued again and a blocking one sleeps, off their CPU, with the references it clones and drops; one woken meanwhile runs on; it is the step of the step system |
| `TaskLayer.Kernel.PollReady` | modules/trampoline/src/lib.rs:96-110 | a finished task is `Exited`, off its CPU and without a reference |
| `TaskLayer.YieldComesBack` | modules/trampoline/src/lib.rs:113-152 | a task that yields is off its CPU and ready, and picked again it is back in its code: the whole state is as before |
| `TaskLayer.Kernel.CleanCurrent` | modules/taskctx/src/current.rs:305-316 | the slot is empty; the reference is dropped or left to the waker |
| `TaskLayer.Kernel.TryToLock` | modules/sync/src/mutex.rs:127-144 | succeeds exactly when the owner word is 0; then the owner word names the task, which has a guard, and nothing else changes; otherwise nothing does |
| `TaskLayer.Kernel.PollLock` | modules/sync/src/mutex.rs:248-290 | whatever weak swaps fail spuriously, an uninterrupted poll takes the lock if it is free, panics if the task owns it, and otherwise leaves the task blocking and last in the wait list |
| `TaskLayer.LockPollIsSteps` | modules/sync/src/mutex.rs:261-285 | that poll is a legal run of fine steps: swap, or failed swap, test and registration |
| `TaskLayer.Kernel.ForceUnlock` | modules/sync/src/mutex.rs:153-169 | a guard of the owner is gone, the owner word is 0 and the first waiter is out of the list and woken, in that order; another task's drop is a panic |
| `MapAreas.MapArea.ShrinkLeft` | modules/async_mem/src/area.rs:242-263 | keeps exactly the pages from the new start on, with their frames and file offsets; the page table loses exactly the others |
| `MapAreas.MapArea.ShrinkRight` | modules/async_mem/src/area.rs:267-281 | keeps exactly the pages before the new end; the page table loses exactly the others |
| `MapAreas.MapArea.Split` | modules/async_mem/src/area.rs:284-311 | cuts the area in two at a page; every page keeps frame and file offset |
| `MapAreas.MapArea.Split3` | modules/async_mem/src/area.rs:314-380 | cuts the area in three; every page keeps frame and file offset |
| `MapAreas.MapArea.RemoveMid` | modules/async_mem/src/area.rs:386-435 | keeps the two outer parts; the page table loses exactly the middle |
| `MapAreas.MapArea.UpdateFlags` | modules/async_mem/src/area.rs:491-496 | changes the flags of the area and of its page-table entries only |
| `MapAreas.MapArea.HandlePageFault` | modules/async_mem/src/area.rs:140-214 | an allowed access makes page i of the area resident, unless it is, in a new frame that holds what its file has 4096 * i bytes further on, or zeroes without a file or after a failed read, and maps it with the area's flags; a forbidden one changes nothing; the code stops if and only if it needs a frame and gets none |
| `MapAreas.MapArea.CloneAlloc` | modules/async_mem/src/area.rs:511-614 | if and only if no allocation fails, shared pages end up resident in a frame of both, resident private pages are copied to new frames, lazy ones stay lazy, page by page; if one does, a fully resident private area reports it with nothing changed, and elsewhere the code stops |
| `MemorySets.MemorySet.SplitForArea` | modules/async_mem/src/lib.rs:165-234 | exactly the pages of the range leave the page map and the page table, all others keep frame, flags, shared bit and file offset, areas stay disjoint and keyed; if and only if the range is not empty or no area starts there, otherwise that area is emptied |
| `MemorySets.UnmapNothing` | modules/async_mem/src/lib.rs:165-234 | that happens: unmapping no bytes of a one-page area leaves an area without pages |
| `MemorySets.MemorySet.Mprotect` | modules/async_mem/src/lib.rs:346-403 | exactly the flags of mapped pages in the range change, in areas and page table; through every split no page is lost, doubled, moved or given another offset; no assert of the code stops it, if and only if the range is not empty or does not start in a mapped page |
| `MemorySets.ProtectNothing` | modules/async_mem/src/lib.rs:346-403 | otherwise one does: protecting no pages of a one-page area |
| `MemorySets.MemorySet.NewRegion` | modules/async_mem/src/lib.rs:110-160 | without data: adds exactly a block of lazy pages to areas and page table; the code does not stop if and only if no page of the range was mapped, or, for an empty range, no area had its key |
| `MemorySets.MemorySet.NewRegionWithData` | modules/async_mem/src/lib.rs:110-160 | with data: adds exactly a block of pages in new frames that hold it; the code does not stop if and only if there are pages, none was mapped and the allocation succeeds |
| `FreeSpace.FirstGap` | modules/async_mem/src/lib.rs:237-262 | over ordered disjoint segments, the place found overlaps none and lies below some segment; it is the hint if that fits below the first segment, otherwise the end of the first segment with a gap that fits; none is found exactly when neither fits |
| `FreeSpace.FirstFitIsOne` | modules/async_mem/src/lib.rs:237-262 | that place is unique |
| `MemorySets.MemorySet.FindFreeArea` | modules/async_mem/src/lib.rs:237-262 | the same for the segments of areas and attached memory from the clamped hint on |
| `MemorySets.MemorySet.Munmap` | modules/async_mem/src/lib.rs:314-320 | exactly the pages that the byte range meets leave the page map and the page table, if and only if the range is not empty or no area starts there |
| `MemorySets.MemorySet.Mmap` | modules/async_mem/src/lib.rs:265-310 | the page map is overwritten with the new lazy pages at the fixed place, or extended by them at the first free place; page i of a mapped file has the file offset 4096 * i bytes further on; without a place, nothing changes; the code stops if and only if the range meets kernel pages, or attached segments when fixed, or is empty where an area is in the way; a search below the kernel never stops |
| `MemorySets.MemorySet.Drive` | modules/async_mem/src/lib.rs:265-426 | after any sequence of maps, unmaps, protects and faults, empty ranges included, the pages are the fold of the simple map updates over the calls and their answers, the address space can be faulted and forked, no frame in use before has changed, and the calls are a run of this process beside any other; it ends early only where the code stops, or where an empty range has left an area without pages |
| `MemorySets.PagesAreEffects` | modules/async_mem/src/lib.rs:265-426 | the same fold at every point of such a run |
| `MemorySets.MemorySet.HandlePageFault` | modules/async_mem/src/lib.rs:406-426 | succeeds exactly for an allowed access to a mapped page, which is then resident and mapped with its flags, in a frame nobody had that shows its file or zeroes if it was lazy; no page changes flags or contents, and no frame in use changes; the code stops if and only if it needs a frame and gets none |
| `MemorySets.MemorySet.MmapThenFault` | modules/async_mem/src/area.rs:184-200 | a file mapped from offset o and touched at page i shows the file at o + 4096 * i, or zeroes if that cannot be read |
| `MemorySets.MemorySet.AttachSharedMem` | modules/async_mem/src/lib.rs:502-508 | the segment is attached, its pages are mapped to its frames in order with its flags, no other entry changes, and the page table still agrees with areas, segments and kernel entries |
| `MemorySets.MemorySet.CloneOrErr` | modules/async_mem/src/lib.rs:659-701 | succeeds if and only if no allocation fails; then parent and child have the same pages with equal flags and contents, shared pages in the same frame, private resident pages in frames of their own, and both are valid address spaces; where it returns an error, the parent is a valid address space in which every page has kept flags, contents and frame |
| `Fork.PrivateWriteInvisible` | modules/async_mem/src/area.rs:511-614 | right after a fork, writing a private resident page of either process changes no page of the other |
| `Isolation.ForkSeparates` | modules/async_mem/src/lib.rs:659-701 | a fork gives two processes that see the same and of which no private frame of one is a frame of the other |
| `Isolation.StepKeepsPair` | modules/async_mem/src/area.rs:140-214 | every later fault, store and change of mappings of either process keeps them so |
| `Isolation.RunKeepsPair` | modules/async_mem/src/lib.rs:265-426 | and so does every run of such steps |
| `Isolation.StoreSeen` | modules/async_mem/src/area.rs:511-614 | a store shows in exactly the pages, of either process, that are in its frame |
| `Isolation.ForkIsolates` | modules/async_mem/src/lib.rs:659-701 | in every run and however the two interleave, a process sees at a page what it last stored there, or what it saw before, as long as the other stores to no shared page and it does not itself give the page another frame or source |
| `MemorySets.MemorySet.Perform` | modules/async_mem/src/lib.rs:265-426 | each call is such a step of its process, with the effect of that call on its pages, or stops where the code does |
| `Processes.Interleave` | modules/async_mem/src/lib.rs:265-426 | any calls and stores of two separate address spaces, in any order, are a run that keeps them separate; it ends early only at a call at which the code can stop |
| `Processes.ForkThenRun` | modules/async_mem/src/lib.rs:659-701 | a fork, which succeeds if no allocation fails, and then any calls and stores of parent and child, in any order: each sees at every page its own last store, or what the parent saw before the fork, under the same condition |
| `Cfs.AddKeepsIndexIff` | crates/scheduler/src/cfs.rs:129-143 | adding a task overwrites no entry, and the index agrees afterwards if and only if the task's scaled ticks are 0 |
| `Cfs.AddRecordsMinimum` | crates/scheduler/src/cfs.rs:129-143 | a new task starts at the recorded minimum, and afterwards the smallest virtual runtime in the queue is recorded |
| `Cfs.PutKeepsIndex` | crates/scheduler/src/cfs.rs:169-174 | putting a task back overwrites no entry and keeps the index |
| `Cfs.PickTakesMinimum` | crates/scheduler/src/cfs.rs:161-167 | the pick has the smallest virtual runtime, and among equals the smallest id, and only it leaves the queue |
| `Cfs.RemoveTakesExactly` | crates/scheduler/src/cfs.rs:145-159 | removing a queued task removes that task only; removing another changes nothing |
| `Cfs.SetPriorityKeepsIndex` | crates/scheduler/src/cfs.rs:71-77 | a new priority moves no virtual runtime, so it may hit a queued task |
| `Cfs.SetPrioritySets` | crates/scheduler/src/cfs.rs:71-77 | a valid nice value is stored, an invalid one changes nothing, and no other task changes |
| `Cfs.PriorityTakesEffect` | crates/scheduler/src/cfs.rs:56-77 | from a change of priority on, k ticks add k * 1024 / weight of the new nice value to the virtual runtime |
| `Cfs.WeightFalls` | crates/scheduler/src/cfs.rs:24-30 | each step of the nice value divides the weight by 1.2 to 1.28; nice 0 weighs 1024 |
| `Cfs.ScaledByWeight` | crates/scheduler/src/cfs.rs:43-63 | ticks are scaled by 1024 / weight, so virtual time passes no slower for a higher nice value |
| `Cfs.RunKeepsIndex` | crates/scheduler/src/cfs.rs:129-190 | in any run of calls, in which tasks are added with no scaled ticks, every stored key is its task's current (virtual runtime, id) |
| `Cfs.AddingAgainBreaksIndex` | crates/scheduler/src/cfs.rs:129-143 | a task that is added, picked, ticked and added again, as a wakeup does, is queued under a wrong key, and removing it finds nothing |
| `Cfs.StepBounds` | crates/scheduler/src/cfs.rs:56-63 | one tick adds between 0 and 69 to a virtual runtime, for every nice value and tick count |
| `Cfs.SpreadStaysWithin69` | crates/scheduler/src/cfs.rs:129-190 | from fresh tasks, in any run of one-tick rounds and priority changes, virtual runtimes stay within 69 of each other |
| `Cfs.SpreadStaysWithin1` | crates/scheduler/src/cfs.rs:161-190 | within 1 when every nice value is and stays 0 |
| `Cfs.TicksFollowWeights` | crates/scheduler/src/cfs.rs:18-63 | with priorities fixed before the first tick, after any number of rounds ticks per weight of two tasks differ by less than 70/1024 |
| `Cfs.AddFreshIsFresh` | crates/scheduler/src/cfs.rs:129-143 | any number of new tasks added to an empty scheduler is such a starting state |
| `Cfs.AddKeepsSpreadIff` | crates/scheduler/src/cfs.rs:129-143 | a task added later keeps a bound on the spread if and only if every virtual runtime is within it of the recorded minimum |
| `Cfs.LateArrivalStartsBehind` | crates/scheduler/src/cfs.rs:129-174 | neither picking nor putting back refreshes that minimum: after k rounds of one task a second one makes the spread exactly k, for every k |
| `Cfs.CFScheduler.AddTask` | crates/scheduler/src/cfs.rs:129-143 | the task starts at the recorded minimum with its own ticks and nice value, a new id and an entry under both; the smallest virtual runtime is recorded; it is the add of the laws above |
| `Cfs.CFScheduler.RemoveTask` | crates/scheduler/src/cfs.rs:145-159 | the entry under the task's virtual runtime and id is taken out and the minimum recorded again, or nothing changes; it is the remove of the laws above |
| `Cfs.CFScheduler.PickNextTask` | crates/scheduler/src/cfs.rs:161-167 | the entry with the smallest key is taken out; it is the pick of the laws above |
| `Cfs.CFScheduler.PutPrevTask` | crates/scheduler/src/cfs.rs:169-174 | the task gets a new id and an entry under its virtual runtime and that id; it is the put of the laws above |
| `Cfs.CFScheduler.TaskTick` | crates/scheduler/src/cfs.rs:176-180 | one tick more for the task; asks for preemption exactly when no minimum is recorded or the task is beyond it |
| `Cfs.CFScheduler.ChangePriority` | crates/scheduler/src/cfs.rs:182-189 | stores a nice value in -20..19 and folds the ticks so far into the base; refuses exactly the others and changes nothing |
| `RoundRobin.TurnsInOrder` | crates/scheduler/src/round_robin.rs:92-108 | without early yields tasks run in queue order, each for its whole slice, and go to the back with full slices |
| `RoundRobin.FullCycle` | crates/scheduler/src/round_robin.rs:92-108 | n fresh tasks and slice S: after n * S steps each ran exactly S ticks and order and slices are restored |
| `RoundRobin.FrontWithin` | crates/scheduler/src/round_robin.rs:96-103 | whoever yields early, a task is at the front once the slices ahead of it are used up |
| `RoundRobin.FrontWithinSlices` | crates/scheduler/src/round_robin.rs:92-108 | so a task at index i is at the front within i * S steps |
| `RoundRobin.FlagEndsTurn` | crates/scheduler/src/round_robin.rs:96-108 | a tick says "used up" from the last tick of the slice on; a task preempted then goes to the end with a full slice, one preempted earlier to the front with the rest, and one that yields to the end with a full slice |
| `RoundRobin.RRScheduler.RemoveTask` | crates/scheduler/src/round_robin.rs:84-90 | takes out the first entry of the task, or nothing |
| `RoundRobin.RRScheduler.PickNextTask` | crates/scheduler/src/round_robin.rs:92-94 | takes the front task, if any; it is the pick of the laws above |
| `RoundRobin.RRScheduler.PutPrevTask` | crates/scheduler/src/round_robin.rs:96-103 | to the front with the rest of the slice if preempted with some left, otherwise to the end with a full slice |
| `RoundRobin.RRScheduler.TaskTick` | crates/scheduler/src/round_robin.rs:105-108 | one tick off the slice; says whether it is used up |
| `BufReaders.BufReader.FillBuf` | modules/async_io/src/buf_reader.rs:237-250 | shows the bytes at the logical position without moving it; empty only at the end of the file or without a buffer |
| `BufReaders.BufReader.Consume` | modules/async_io/src/buf_reader.rs:252-255 | moves the logical position by what was asked for, at most over the bytes shown |
| `BufReaders.BufReader.Read` | modules/async_io/src/buf_reader.rs:203-216 | returns the bytes at the logical position and moves past them; nothing only at the end of the file; it asks the inner reader only with an empty buffer, and waits or fails exactly when that does, without moving |
| `BufReaders.BufReader.Seek` | modules/async_io/src/buf_reader.rs:288-318 | success lands where an unbuffered seek from the logical position would and empties the buffer; failure or waiting, also between the two seeks of the underflow path, does not move; over an inner reader that lets polls through it succeeds if and only if there is a target |
| `BufReaders.BufReader.SeekAwait` | modules/async_io/src/buf_reader.rs:288-318 | polled until ready, however often and wherever interrupted, seek(Current(n)) lands at logical position + n, seek(End(n)) at the end + n and seek(Start(n)) at n |
| `BufReaders.BufReader.Drive` | modules/async_io/src/buf_reader.rs:203-318 | any sequence of reads, fills, consumes and seeks is a run of an unbuffered reader that shows at most a buffer of bytes at a time: bytes shown are read or shown again at once, and a poll that is not ready or fails leaves it as it was |
| `BufReaders.StaysInFile` | modules/async_io/src/buf_reader.rs:237-255 | without seeks such a run never leaves the file |
| `BufReaders.ReadsAreContiguous` | modules/async_io/src/buf_reader.rs:203-216 | in such a run the bytes read are the file's, from first to last position, none skipped or repeated |
| `BufWriters.BufWriter.PollFlushBuf` | modules/async_io/src/buf_writer.rs:271-295 | for every answer of the inner writer, inner file followed by unwritten buffer stays the same; success leaves the buffer empty; `Interrupted` is never reported |
| `BufWriters.BufWriter.Write` | modules/async_io/src/buf_writer.rs:299-312 | exactly the first n bytes were accepted behind everything earlier, or nothing was; over an inner writer that takes something of every write it succeeds, with n > 0 for bytes that are not empty |
| `BufWriters.BufWriter.Flush` | modules/async_io/src/buf_writer.rs:314-317 | success means every accepted byte is in the inner file, which was flushed after it, and the buffer is empty |
| `BufWriters.BufWriter.FlushAwait` | modules/async_io/src/buf_writer.rs:314-317 | the same, polled until ready |
| `BufWriters.BufWriter.Seek` | modules/async_io/src/buf_writer.rs:338-345 | success means everything accepted is in the inner file, which then stands where an unbuffered seek would have led; failure or waiting loses nothing |
| `BufWriters.BufWriter.Drive` | modules/async_io/src/buf_writer.rs:271-345 | over any sequence of polls inner file and buffer together are a run of an unbuffered file: they hold exactly what callers were told was accepted, in order and at its place; a poll that is not ready or fails does nothing |
| `Disks.Disk.SetPosition` | modules/async_fs/src/dev.rs:35-38 | the position is the one asked for, with an offset below 512 |
| `Disks.Disk.ReadOne` | modules/async_fs/src/dev.rs:41-69 | one transfer delivers the bytes at the cursor, as many as are wanted and left in the block, and advances over them; failure does not move |
| `Disks.Disk.WriteOne` | modules/async_fs/src/dev.rs:72-96 | one transfer writes exactly those bytes at the cursor, keeping the rest of the block |
| `Disks.Disk.Read` | modules/async_fs/src/fs/fatfs.rs:280-296 | returns the bytes of the flat device at the cursor, all of them if and only if they lie inside it and no transfer made fails, otherwise a prefix; the cursor advances by what was read |
| `Disks.Disk.Write` | modules/async_fs/src/fs/fatfs.rs:298-316 | splices exactly the bytes written into the flat device and changes no other byte, all of them if and only if they fit and no transfer made fails, otherwise a prefix |
| `Disks.Disk.Seek` | modules/async_fs/src/fs/fatfs.rs:318-333 | moves to n, cursor + n or end + n if that is a 64-bit position and fails without moving otherwise |
| `Disks.Disk.WriteThenRead` | modules/async_fs/src/fs/fatfs.rs:280-333 | what was written inside the device is read back from the same cursor |
| `Paths.Canonicalize` | modules/async_vfs/src/path.rs:19-52 | the buffer the loops push and pop renders the component-stack normal form of the path; the code does not stop if and only if no name follows a component that ends in a character of several bytes |
| `Paths.AsciiIsSliceable` | modules/async_vfs/src/path.rs:41-41 | every ASCII path is one on which it does not stop |
| `Paths.LongCharacterStops` | modules/async_vfs/src/path.rs:41-41 | on "x/z" it stops whenever x ends in a character of several bytes |
| `Paths.AccentStops` | modules/async_vfs/src/path.rs:41-41 | such as an accented letter |
| `Paths.KeepsAbsoluteness` | modules/async_vfs/src/path.rs:19-52 | a canonical path is absolute exactly when the path is |
| `Paths.ComponentsArePlain` | modules/async_vfs/src/path.rs:19-52 | its components are exactly the normal form: none empty, "." or ".." |
| `Paths.Idempotent` | modules/async_vfs/src/path.rs:19-52 | canonicalizing twice is canonicalizing once |
| `RamFs.LookupIsWalk` | modules/axfs_ramfs/src/dir.rs:94-111 | the recursive lookup over `split_path` is a walk along the slash-separated parts |
| `RamFs.LookupOne` | modules/axfs_ramfs/src/dir.rs:94-111 | "" and "." lead to the directory itself, ".." to its parent, or nowhere from the root, and a name to the entry of that name or nowhere |
| `RamFs.LookupJoin` | modules/axfs_ramfs/src/dir.rs:94-111 | "a/b" leads where "b" leads from where "a" leads |
| `RamFs.LookupCanonical` | modules/axfs_ramfs/src/dir.rs:94-111 | whenever a path leads somewhere from the root, its canonical form leads to the same node |
| `RamFs.RunKeepsLinks` | modules/axfs_ramfs/src/dir.rs:142-191 | every sequence of creates and removes, each on any node made before it, keeps each child directory's parent link on its container |
| `RamFs.RamFileSystem.CreateNode` | modules/axfs_ramfs/src/dir.rs:49-69 | adds a node under a new name with its parent link; exists, unsupported and a wait for itself are reported in that order and change nothing |
| `RamFs.RamFileSystem.RemoveNode` | modules/axfs_ramfs/src/dir.rs:72-82 | drops the entry; a wait for itself, a missing name and a directory with entries are reported in that order and change nothing |
| `RamFs.RamFileSystem.PollCreate` | modules/axfs_ramfs/src/dir.rs:142-168 | the recursion creates at the directory and name the parts lead to, with the locks it collected, from any node; it is the create of the runs and laws here |
| `RamFs.RamFileSystem.PollRemove` | modules/axfs_ramfs/src/dir.rs:170-191 | likewise for removal; it is the remove of the runs and laws here |
| `RamFs.CreateThenLookup` | modules/axfs_ramfs/src/dir.rs:142-168 | a path just created from any node is found from there and is a new node of the kind asked for, the special node exactly for a file named interrupts |
| `RamFs.CreateKeepsLookups` | modules/axfs_ramfs/src/dir.rs:142-168 | every path that led somewhere from some node before a create leads there after it |
| `RamFs.RemoveUndoesCreate` | modules/axfs_ramfs/src/dir.rs:170-191 | removing a path just created succeeds and leaves every directory as it was |
| `RamFs.RemoveAnswers` | modules/axfs_ramfs/src/dir.rs:72-82 | what a remove answers on any path from any node, told by lookups and entries: the error of the way, not a directory, no name, a wait for itself, not found, not empty, or success; an error changes nothing |
| `RamFs.RemoveOkIff` | modules/axfs_ramfs/src/dir.rs:170-191 | it succeeds if and only if the path leads to a node by a name without coming back and the node is no directory with entries |
| `RamFs.RemoveTakesOne` | modules/axfs_ramfs/src/dir.rs:170-191 | then the path leads nowhere, that one entry is gone, and every other entry and parent link is as it was |
| `RamFs.CreateAnswers` | modules/axfs_ramfs/src/dir.rs:49-69 | what a create answers likewise: the error of the way, not a directory, there already, exists, unsupported, a wait for itself, or success; an error changes nothing |
| `RamFs.CreateAddsOne` | modules/axfs_ramfs/src/dir.rs:142-168 | a create adds one entry, for a node with a new id, and every other entry and parent link is as it was; a new directory is empty and below its holder |
| `RamFs.RemoveHangsIff` | modules/axfs_ramfs/src/dir.rs:170-191 | from any node, a remove waits for itself if and only if its walk ends in a directory it went down from and its last part is a name |
| `RamFs.CreateHangsIff` | modules/axfs_ramfs/src/dir.rs:142-168 | a create does if and only if, moreover, its kind is supported and its path leads nowhere yet |
| `RamFs.CanonicalNeverHangs` | modules/axfs_ramfs/src/dir.rs:142-191 | so no create or remove through a canonical path waits for itself |
| `RamFs.DetourHangs` | modules/axfs_ramfs/src/dir.rs:142-168 | creating "x/../z" does, for every directory x and new name z of every directory, where creating "z" succeeds |
| `Futexes.SameKeyIff` | modules/executor/src/futex.rs:47-66 | two private futexes have one key if and only if process and address agree in their low 32 bits |
| `Futexes.SharedKeyIff` | modules/executor/src/futex.rs:47-66 | two shared futexes have one key if and only if their addresses agree in their low 32 bits; a shared and a private one, if moreover the low 32 bits of the process are 0 |
| `Futexes.WakesFirstInOrder` | modules/executor/src/futex.rs:142-168 | a wake takes the first waiters of the key in order, at most n, and leaves the later ones in order |
| `Futexes.WakeCutsQueue` | modules/executor/src/futex.rs:154-163 | up to the n-th waiter every waiter of the key is taken and every other entry stays in order; behind it the queue is untouched |
| `Futexes.TakenWaitOnKey` | modules/executor/src/futex.rs:154-163 | whoever a wake takes waited on its key and, for a bitset, shares a bit with it |
| `Futexes.OthersStay` | modules/executor/src/futex.rs:190-200 | waiters of other keys and those without a common bit stay in the queue |
| `Futexes.WaitersStayBehind` | modules/executor/src/futex.rs:154-163 | a waiter of the key with a common bit stays only if the wake has used up its count |
| `Futexes.FutexQueues.Enqueue` | modules/executor/src/futex.rs:93-95 | the entry is last in the bucket of its key |
| `Futexes.FutexQueues.RemoveOwn` | modules/executor/src/futex.rs:120-137 | says whether the task was still queued and removes its entry |
| `Futexes.Scan` | modules/executor/src/futex.rs:154-163 | the filtering scan with its counter leaves and counts what the law of wakes says |
| `Futexes.FutexQueues.Wake` | modules/executor/src/futex.rs:142-168 | takes at most n waiters of the key out of its bucket, all of them if there are fewer, nobody else, and returns how many, also for an empty bucket; it is the wake of the laws here |
| `Futexes.FutexQueues.WakeBitset` | modules/executor/src/futex.rs:170-204 | likewise among entries that share a bit; an empty set is refused and changes nothing |
| `Futexes.StepKeepsInv` | modules/executor/src/futex.rs:86-204 | registration, resumption and wake keep one entry per task, in its key's bucket, and the account of wakes |
| `Futexes.AtMostOneEntry` | modules/executor/src/futex.rs:86-138 | in every run two entries of one task are the same entry, in the bucket of the key it waits on |
| `Futexes.NoEntryAfterReturn` | modules/executor/src/futex.rs:117-138 | in every run an entry's task is still waiting on its key: none survives its wait |
| `Futexes.OthersSleepOn` | modules/executor/src/futex.rs:142-204 | in every run a wake leaves each task that waits on another key, or shares no bit with it, queued and waiting |
| `Futexes.ResumeOutcome` | modules/executor/src/futex.rs:117-138 | in every run a waiter that resumes has no entry left, returns 0 if and only if a wake had taken its entry, and otherwise gives up if interrupted and starts over if not; nobody else's entry is touched |
| `Futexes.WakesAccountedFor` | modules/executor/src/futex.rs:142-204 | in every run the sum of what wakes returned is the number of waits that returned 0 plus the waiters dequeued and not resumed |

## Left out

- A lock future that is dropped while it waits, or polled together with another one of the same task: its wait node would stay behind.
- A guard sent to another task; the owner word would name the wrong one.
- The `thread` feature, user trap frames, returns to user mode, signals, timers and join wakers: other wake sources. The shutdown when the first task exits.
- The step of `run_task` that queues a yielding task and then clears its CPU's slot is one step, as the state lock covers it.
- The page-table crate is a map from page to entry; TLB flushes, page sizes and physical addresses are not modelled.
- Frames are not reused. What a read of a file page leaves in a fresh page is a parameter, and so is what a contiguous allocation with initial data is filled with.
- `new_without_alloc`, `msync`, `mremap`, vDSO pages and the ids of System V segments.
- The child's kernel mappings are given by the kernel map. After a stop nothing is promised about the state.
- CFS counters and task ids are unbounded integers; wrap-around is not modelled.
- Vectored reads and writes, `into_inner` and `close` of the buffered streams.
- RamFs: a directory whose parent was freed while a handle to the directory lives on; `set_parent` of a mounted root; directory listings and attributes.
- `futex_requeue`, the check of the futex word, which is not under the bucket lock, and the hash function, of which only the range is used.
- The fatfs wrapper, devices, network, console, loader, shell, drivers and the FIFO scheduler.
