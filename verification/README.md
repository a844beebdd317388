# Verified model of the multi-core teaching kernel and its runtime

A Dafny model of the parts of the kernel, its allocators and its runtime arithmetic whose correctness is not
visible from any one function: 64-bit division, the message-passing kernel protocol, the two locks, physical
frames and virtual regions, the List Memory Manager, the boundary-tag heap and quicksort. Everything is proved
for all inputs, all interleavings or all runs; nothing was executed.

`dafny verify dfyconfig.toml` checks the whole project.

- **64-bit division** (`Bits`, `Digits`, `Shifts`, `Division`, `QDivRem`). Base 2^16 digit arrays and wrapped
  32-bit words. The estimate, the correction loop, multiply-and-subtract with its borrow trick, add-back and the
  two shifts are methods on arrays of any number of digits; `QuadDivRem` puts them together.
- **The kernel protocol** (`Basics`, `Lifecycle`, `Protocol`, `Placement`, `KernelInvariant`, `WorkerSteps`,
  `ManagerSteps`, `VanishSteps`, `KernelRuns`, `ExitStatuses`, `Schedules`, `InitRuns`, `Queues`, `Picks`, `Letters`,
  `WaitAnswers`, `Tours`). The manager's task
  records are updated in place by the class `Lifecycle.Manager`; the whole system is a step machine
  `Protocol.Next` over any number of cores, threads and tasks, and the theorems speak about every run from boot. A
  thread and its message are one token.
  Choosing the next thread and switching to it are separate steps, with interrupts between them. `Schedules`
  plays out whole system calls, and `InitRuns` builds from them the runs that refute two claims about init. `Queues`
  shows the queues to be first in, first out, `Letters` that a call returns on the core it was made on, with a reply to
  what was asked, and `WaitAnswers` what each wait() is told; what is asked, told and awaited is read off the calls and
  the messages of a run.
- **Queues** (`SimpleQueue`). The intrusive doubly linked queue with its two sentinels, on real nodes and links,
  refines the sequences of threads that the protocol uses.
- **Locks** (`Spinlock`, `Mutex`). The spinlock at the granularity of single loads, stores and exchanges; the
  mutex with the thread states of block and make-runnable.
- **Frames and regions** (`SegTree`, `Memory`, `Vm`, `Reservations`). The segment tree over bitmaps refines a set
  of frames; the frame counter, the page map and the START and END marks keep one invariant through every operation.
  `Reservations` takes the counter apart into single accesses, and follows reservations to the frames they are for.
- **The List Memory Manager** (`FreeList`, `AlignedSearch`, `Lmm`, `LmmPool`, `LmmBoot`). A free list in canonical
  form is determined by the bytes it covers, so every operation is specified by what it does to bytes.
- **The boundary-tag heap** (`HeapMemory`, `HeapBlocks`, `Heap`, `HeapAllocator`). One flat byte memory; the
  operations find blocks only through the tags in it, and a ghost list of blocks carries the proof.
- **Quicksort** (`Quicksort`). In place on an array, for any comparison that is a total preorder.

Where addresses and sizes are 32-bit words, sums are taken modulo 2^32 and, for `int`, in two's complement.

Some properties one might expect are false of the code. Each has an input or a run that shows it, and the
condition under which the code does meet it:

- The segment tree's root is right after initialisation if and only if there are more than 32 frames; with 16 or
  fewer there is no tree at all (`SegTree.RootRightIffManyFrames`).
- The strange-state panic of make-runnable is reachable with well-behaved callers
  (`Mutex.StrangeStateIsReachable`), and a step panics if and only if it wakes a thread whose MADE_RUNNABLE mark
  was never used up (`Mutex.PanicIff`).
- init's `num_alive` is not its number of living children: it falls short by exactly the number of orphans that
  have exited (`KernelRuns.RecordsInEveryRun`, `KernelRuns.WaitRefusedIff`). There is a run from boot after which
  init has a living child and its wait() is refused (`InitRuns.WaitWronglyRefused`).
- A thread of init can be left waiting in front of a queued status: exactly when two statuses or more are
  inherited while two threads of init wait (`Lifecycle.AdoptCollectedIff`, `KernelRuns.InitCollectedIff`), and
  there is a run from boot in which that happens (`InitRuns.WaiterStranded`).
- The tour of yield() and make_runnable() is meant to visit all cores. It moves on by two at a time, and visits all of
  them if and only if their number is odd (`Tours.NextStop`, `Tours.VisitsAllIff`).
- `mem_sbrk` does not refuse a request that runs past the top of memory: its test compares a wrapped sum with the
  largest word. The request succeeds without memory, exactly when break and increment wrap
  (`HeapAllocator.Allocator.Sbrk`, `HeapAllocator.GrowthCanWrap`).
- The first-fit search of the heap does not see past a block of 2^31 bytes or more
  (`HeapAllocator.Allocator.FindFit`).
- `mm_malloc` does not always give the size asked for. The fifteen largest sizes round to a negative `int`, every
  free block seems to fit, and the whole first one is handed out; the heap stays in order. It is large enough
  exactly for the other sizes, or if no reachable block is free and the one grown, with a last block out of reach, is
  (`HeapAllocator.Allocator.Malloc`, `HeapAllocator.LargestRequest`). The copy of `mm_realloc` overruns such a block
  exactly if the old block and the request are both larger than it (`HeapAllocator.Allocator.Realloc`).
- `lmm_alloc_gen` can accept a place outside its node: there is a pool in order and a request for which it does
  (`LmmPool.WildPool`). It does so exactly when the one node that passes its tests on words does not hold the place
  (`LmmPool.Pool.AllocGen`), and the test of a node is right exactly when its sum does not wrap to a small value
  (`LmmPool.WrappedFitsIff`).
- `reserve_frames` can lose an update between two threads of a core (`Reservations.UpdateCanBeLost`), so that two
  threads reserve the same last frame and a page fault panics (`Reservations.ReservedFrameMissing`). The counter is
  right throughout a run if and only if no thread stores a value that is out of date
  (`Reservations.CounterRightIff`), and every reserved frame can be had unless such a store raises the counter
  (`Reservations.FramesForAll`).
- A comment in `mutex_lock` says that its queue node is safe on the stack. The unlocking thread can read the node
  after `mutex_lock` has returned (`Mutex.NodeCanBeGone`).
- If the frame of the local APIC is one of a core's frames, it is counted but never handed out: with all frames
  reserved one reservation cannot be met (`Vm.Core.TakeAll`).
- `new_region` of size 0 at a page boundary asks for all of user space (`Vm.Core.NewRegion`, `Vm.EmptySegment`);
  in the code the walk that counts those pages first overruns its bitmap of new page tables, which are not modelled.

Where a comment and the code disagree, the code was followed. `mm_realloc` is labelled as not implemented but is;
it copies up to the old block's size with its tags, which is why its source range reaches past the payload. The
priorities of the boot regions are meant to make high memory used first, but they are unsigned words, so the
negative ones stand before it (`LmmBoot.BootRegions`).

## Model

| member | source | states |
|---|---|---|
| `Digits.Combine` | 410kern/misc/gccisms.c:76-76 | COMBINE is a*B+b for a digit a, although it is built from a shift and an OR on a wrapped word |
| `Digits.ValConcat` | 410kern/misc/gccisms.c:120-132 | the value of concatenated digit strings, the positional law behind splitting u and v |
| `Shifts.ShlVal` | 410kern/misc/gccisms.c:285-299 | shifting a digit string left multiplies its value by 2^sh, up to the bits that fall out of the first digit |
| `Shifts.ShiftLeft` | 410kern/misc/gccisms.c:290-299 | the in-place loop writes exactly len+1 digits and leaves the shifted string there |
| `Shifts.ShrVal` | 410kern/misc/gccisms.c:263-274 | the right shift of a digit string divides its value by 2^d, rounding down |
| `Shifts.ShiftRight` | 410kern/misc/gccisms.c:269-274 | the in-place denormalising loop leaves a zero and the shifted string, and touches nothing else |
| `Division.EstimateDigit` | 410kern/misc/gccisms.c:206-231 | with the goto and the early break, the loop ends with exactly min(B-1, floor of the three leading digits by the two leading divisor digits) |
| `Division.EstimateTooBig` | 410kern/misc/gccisms.c:206-226 | the loop's test is true exactly when qhat times the two divisor digits exceeds the three dividend digits |
| `Division.EstimateBound` | 410kern/misc/gccisms.c:206-213 | the three-by-two estimate is the true digit or one more, for operands of any length |
| `Division.RoundEstimate` | 410kern/misc/gccisms.c:203-231 | in every round qhat is the true quotient digit or one more, and the true digit is below the base |
| `Division.MultiplySubtract` | 410kern/misc/gccisms.c:232-244 | wrapped subtraction with the borrow trick computes u - qhat*v exactly, modulo B^(n+1), and the final half word is nonzero exactly when that is negative |
| `Division.AddBack` | 410kern/misc/gccisms.c:252-259 | add-back adds v exactly, modulo B^(n+1) |
| `Division.RoundRemainder` | 410kern/misc/gccisms.c:245-251 | there is a borrow if and only if qhat was one too big |
| `Division.DivisionRound` | 410kern/misc/gccisms.c:203-261 | one round yields the true digit and leaves the true remainder in place, after at most one add-back |
| `QDivRem.ChooseShift` | 410kern/misc/gccisms.c:188-192 | the shift brings the leading divisor digit into the upper half of the base |
| `QDivRem.Normalise` | 410kern/misc/gccisms.c:188-196 | both operands are multiplied by the same power of two and no bit is lost |
| `QDivRem.DivideRounds` | 410kern/misc/gccisms.c:197-261 | all rounds together: dividend = quotient * divisor + remainder, remainder below the divisor, leading digits zero |
| `QDivRem.Denormalise` | 410kern/misc/gccisms.c:263-267 | dividing the remainder by the multiplier gives the remainder of the original operands |
| `QDivRem.LongDivide` | 410kern/misc/gccisms.c:173-278 | Algorithm D on m+n by n digits, from normalisation to the denormalised remainder |
| `QDivRem.ShortDivide` | 410kern/misc/gccisms.c:144-171 | the one-digit path divides any four-digit number |
| `QDivRem.LongPath` | 410kern/misc/gccisms.c:173-283 | skipping leading zero digits and dividing gives quotient and remainder of the whole numbers |
| `QDivRem.Split` | 410kern/misc/gccisms.c:133-143 | the four digits of a 64-bit number have its value |
| `QDivRem.Assemble` | 410kern/misc/gccisms.c:275-283 | four digits put together with COMBINE have their positional value |
| `QDivRem.DivideDigits` | 410kern/misc/gccisms.c:133-283 | everything past the special cases: leading zeros of the divisor decide between the two paths, and either divides |
| `QDivRem.QuadDivRem` | 410kern/misc/gccisms.c:89-283 | for every dividend and divisor: a divide fault exactly for divisor zero, otherwise u = q*v + r with r < v |
| `QDivRem.UnsignedDivMod` | 410kern/misc/gccisms.c:302-323 | the compiler's entry points fault exactly for divisor zero and otherwise are integer division |
| `Lifecycle.Manager.Wake` | kern/smp_syscall_lifecycle.c:314-335 | the oldest waiter gets the oldest status; without a waiter nothing changes |
| `Lifecycle.Manager.MoveExits` | kern/smp_syscall_lifecycle.c:360-369 | the loop appends a dead task's statuses to init's list in order and counts them |
| `Lifecycle.Manager.Vanish` | kern/smp_syscall_lifecycle.c:281-399 | the handler's whole effect on the table and the responses it sends; it panics exactly for an unknown task, and never returns exactly when init vanishes with a status on its list |
| `Lifecycle.Manager.Wait` | kern/smp_syscall_lifecycle.c:409-455 | the three outcomes of wait() and the record afterwards; it panics exactly for an unknown task |
| `Lifecycle.ReportKeepsSettled` | kern/smp_syscall_lifecycle.c:300-335 | reporting an exit keeps the record in order; the status goes to the first waiter or to the end of the list |
| `Lifecycle.ForkMakesRoom` | kern/smp_syscall_lifecycle.c:130-138 | a completed fork keeps the parent's record in order, and one more wait() of the parent will not be refused |
| `Lifecycle.AdoptCollectedIff` | kern/smp_syscall_lifecycle.c:356-393 | inheriting leaves a waiter in front of a queued status if and only if there are two waiters or more and two statuses or more |
| `Lifecycle.WaitKeepsSettled` | kern/smp_syscall_lifecycle.c:422-453 | wait() keeps the record in order, and is refused exactly when no status is queued and every child has a waiter |
| `SimpleQueue.Queue.constructor` | kern/simple_queue.c:21-27 | an empty queue: two linked sentinels |
| `SimpleQueue.Queue.Enqueue` | kern/simple_queue.c:37-43 | rewriting four links appends the caller's node and keeps the chain sound both ways |
| `SimpleQueue.Queue.Unlink` | kern/simple_queue.c:79-81 | rewriting two links takes exactly one node out of the chain |
| `SimpleQueue.Queue.Dequeue` | kern/simple_queue.c:52-59 | takes the oldest node, or null exactly when the queue is empty |
| `SimpleQueue.Queue.RemoveTid` | kern/simple_queue.c:74-88 | takes the first node of that thread and keeps the order of the rest, or null exactly when there is none |
| `SimpleQueue.Queue.IsExistTid` | kern/simple_queue.c:90-101 | finds a thread exactly when it is queued |
| `SimpleQueue.Queue.Size` | kern/simple_queue.c:152-160 | the number of queued nodes |
| `Placement.ExactlyOnePlace` | kern/smp_message.c:125-236 | a placed thread is counted once over all cores, picks, queues, the manager, wait queues and forks in flight |
| `Placement.NeverOnTwoCores` | kern/context_switcher.c:228-256 | a running thread runs on no other core and is in no run queue |
| `WorkerSteps.PickNextPlaced` | kern/context_switcher.c:231-233 | picking the next thread, from the receive queue or the run queue, moves it to the picks and nothing else |
| `WorkerSteps.PickTidPlaced` | kern/context_switcher.c:231-233 | so does picking a given thread for yield() |
| `WorkerSteps.SwitchPlaced` | kern/context_switcher.c:244-255 | the second half of a switch, also after interrupts that picked and switched in between, moves the latest pick to the core and the running thread to the run queue |
| `WorkerSteps.WorkerKeepsInv` | kern/context_switcher.c:228-462 | every step of a worker (pick, switch, block, wake, thread fork, fork, announce, system calls, vanish) keeps the kernel invariant |
| `ManagerSteps.PollKeepsInv` | kern/smp_message.c:177-193 | receiving a message keeps the kernel invariant |
| `ManagerSteps.TransmitKeepsInv` | kern/smp_message.c:164-170 | sending a response keeps the kernel invariant |
| `ManagerSteps.HandleForkKeepsInv` | kern/smp_syscall_lifecycle.c:101-117 | placing a fork on the next core keeps the kernel invariant |
| `ManagerSteps.ForkResponseKeepsInv` | kern/smp_syscall_lifecycle.c:124-149 | completing a fork, which releases two threads at once, keeps the kernel invariant |
| `ManagerSteps.HandleWaitKeepsInv` | kern/smp_syscall_lifecycle.c:409-455 | wait() keeps the kernel invariant, whether it answers or parks the message |
| `VanishSteps.VanishKeepsInv` | kern/smp_syscall_lifecycle.c:281-399 | an exit, which may wake a waiter of the heir and one of init, keeps the kernel invariant |
| `VanishSteps.VanishAnswers` | kern/smp_syscall_lifecycle.c:323-398 | the waiters an exit wakes are different threads, each is told exactly the pid and status taken for it, on the core it called from, the caller is answered, and nobody else is touched |
| `KernelRuns.HandleKeepsInv` | kern/smp_manager_scheduler.c:53-103 | dispatching any message the manager can hold keeps the kernel invariant |
| `KernelRuns.StepKeepsInv` | kern/smp_manager_scheduler.c:53-103 | every step of the system keeps the kernel invariant |
| `KernelRuns.OnePlaceInEveryRun` | kern/context_switcher.c:228-462 | in every run from boot each thread is in exactly one place, no thread runs on two cores, and no message is lost or unknown |
| `KernelRuns.RecordsInEveryRun` | kern/smp_syscall_lifecycle.c:130-453 | in every run: num_zombie is the length of the status list and num_alive the number of living children (for init, less the exited orphans); for every task but init, waiters never outnumber living children and nobody waits while a status is queued |
| `KernelRuns.WaitRefusedIff` | kern/smp_syscall_lifecycle.c:422-431 | in every run wait() is refused exactly when no status is queued and every counted child has a waiter |
| `KernelRuns.InitCollectedIff` | kern/smp_syscall_lifecycle.c:356-393 | a step leaves a thread of init waiting in front of a queued status if and only if it inherits two statuses or more while two threads of init wait |
| `KernelRuns.InitInEveryRun` | kern/smp_syscall_lifecycle.c:314-453 | in every run without such a step no thread of init waits in front of a queued status |
| `KernelRuns.OneThreadNeverStrands` | kern/smp_syscall_lifecycle.c:371-393 | while init has one thread there is no such step |
| `Schedules.ForkCompletes` | kern/smp_syscall_lifecycle.c:101-149 | from a quiet core a fork can be played to its end, and this is all it changes |
| `Schedules.ReapCompletes` | kern/smp_syscall_lifecycle.c:437-453 | so can a wait() that finds a status |
| `Schedules.WaitBlocks` | kern/smp_syscall_lifecycle.c:432-436 | so can a wait() that must block, while another thread runs |
| `Schedules.LeaveCompletes` | kern/syscall_lifecycle.c:475-495 | so can the last leg of vanish(): the departing thread is sent back to its first core and blocks there, dead |
| `Schedules.ExitCompletes` | kern/syscall_lifecycle.c:440-495 | so can the exit of a last thread, from its report to its death |
| `InitRuns.WaitWronglyRefused` | kern/smp_syscall_lifecycle.c:295-312 | a run from boot after which init has a living child, nothing is queued, and its wait() is refused |
| `InitRuns.WaiterStranded` | kern/smp_syscall_lifecycle.c:371-393 | a run from boot whose next step leaves a thread of init blocked in front of a queued status |
| `ExitStatuses.StatusesInEveryRun` | kern/smp_syscall_lifecycle.c:290-452 | in every run each exited task's status is in exactly one list or was delivered to exactly one wait |
| `ExitStatuses.StepFifo` | kern/smp_syscall_lifecycle.c:306-393 | at each step, a task's list plus what joins it equals what leaves it plus the new list, in order |
| `ExitStatuses.FifoInEveryRun` | kern/smp_syscall_lifecycle.c:290-452 | over any run, statuses leave each list in the order in which they joined it, inherited ones included |
| `WaitAnswers.StepTold` | kern/smp_syscall_lifecycle.c:323-453 | in every step the threads whose message becomes a status are exactly those the log of deliveries names, each once and with that status |
| `WaitAnswers.EachToldOnce` | kern/smp_syscall_lifecycle.c:290-453 | in every run each exited task's status is in exactly one list and told to nobody, or told to exactly one thread and in no list |
| `WaitAnswers.WaitAnswered` | kern/smp_syscall_lifecycle.c:422-453 | wait() is told the oldest status if one is queued, else refused if every living child (for init, less the exited orphans) has a waiter, else its caller is last in the wait queue |
| `WaitAnswers.RefusedOnly` | kern/smp_syscall_lifecycle.c:424-431 | nobody is told ECHILD but a caller of wait() in that case |
| `WaitAnswers.WaitersInEveryRun` | kern/smp_syscall_lifecycle.c:314-436 | over every run the threads that wait in a task are woken in the order in which they began to wait |
| `WaitAnswers.ExitStep` | kern/syscall_lifecycle.c:440-461 | the exits reported are those of the vanish() calls made, with the statuses those calls had |
| `WaitAnswers.ForksGoRound` | kern/smp_syscall_lifecycle.c:113-116 | in every run the n-th fork is placed on core n modulo the number of cores |
| `Queues.StepQueues` | kern/scheduler.c:48-103 | in every step the run, send and receive queue of every core are first in, first out, and a message that has arrived is picked before the run queue |
| `Queues.QueuesInEveryRun` | kern/smp_message.c:123-193 | over every run each of these queues hands its threads on in the order in which they joined it, the run queue if nobody yields to a named thread |
| `Queues.YieldTakes` | kern/scheduler.c:60-63 | yield() to a thread of the run queue picks that thread and keeps the order of the others; if it is not there nothing changes |
| `Queues.OutboxStep` | kern/smp_message.c:164-170 | the manager sends its messages in the order in which it prepared them |
| `Queues.WakeNotLost` | kern/context_switcher.c:363-418 | a wake-up before its thread blocks, however long before, keeps the thread running when it does; one after it puts the thread at the end of a run queue |
| `Picks.SwitchedWherePicked` | kern/context_switcher.c:228-256 | a thread that has picked another and was interrupted in between completes the switch on the core where it picked |
| `Letters.StepFits` | kern/smp_syscall_lifecycle.c:101-455 | every step keeps requests, replies and picks in agreement with what the calls of the run have asked for, and from where |
| `Letters.RepliesGoHome` | kern/smp_syscall_lifecycle.c:101-455 | in every run a reply on its way answers the request its thread last made and goes to the core of the request; a fork request, a hop of a tour and the last message of a dying thread go to the core they name |
| `Letters.CallsReturnHome` | kern/smp_syscall_lifecycle.c:101-455 | in every run a thread that awaits a reply next runs on the core the reply belongs to, and has it: wait() on core c returns on core c with its outcome |
| `Tours.NextStop` | kern/smp_syscall_thr_management.c:45-56 | a tour that has found nothing on core c goes on to core c + 2 modulo the number of cores |
| `Tours.VisitsAllIff` | kern/syscall_thr_management.c:253-268 | it visits every core before it is back where it began if and only if their number is odd |
| `Spinlock.StepKeepsInv` | kern/spinlock.c:54-84 | every single load, store or exchange keeps the lock in exactly one place |
| `Spinlock.MutualExclusion` | kern/spinlock.c:54-84 | under every interleaving the parties are never both inside and the lock is never lost or doubled |
| `Spinlock.BoundedWaiting` | kern/spinlock.c:60-80 | after a party has raised its flag the other enters at most once before it |
| `Spinlock.AloneItEnters` | kern/spinlock.c:60-65 | a spinning party whose peer is outside enters within three of its own steps |
| `Spinlock.LockStarts` | kern/spinlock.c:54-60 | a party outside spins with its flag up after two steps of its own |
| `Spinlock.UnlockAlone` | kern/spinlock.c:75-85 | unlocking ends after three steps of its own: the lock is handed over exactly if the other party's flag is up, and available otherwise |
| `Mutex.StepKeepsInv` | kern/mutex.c:99-207 | every step of lock, try-lock, unlock, block and wake keeps the mutex invariant |
| `Mutex.NodeCanBeGone` | kern/mutex.c:116-205 | a run after which the unlocking thread has yet to read the queue node while the frame that holds it has returned |
| `Mutex.TryLockTakesIff` | kern/mutex.c:143-166 | mutex_try_lock() takes the mutex if and only if no thread holds it or waits for it, and otherwise changes nothing |
| `Mutex.LockTakesIff` | kern/mutex.c:99-130 | mutex_lock() takes it at once in exactly that case, and otherwise its caller stands last in the queue |
| `Mutex.UnlockPassesOn` | kern/mutex.c:178-207 | mutex_unlock() leaves the mutex to nobody if none waits, and otherwise to the first in the queue |
| `Mutex.WaitsParked` | kern/mutex.c:123-128 | a waiting thread that is not granted the mutex takes at most two steps, four with a mark of an earlier wake-up, and is parked then |
| `Mutex.PanicIff` | kern/context_switcher.c:398-418 | a step panics if and only if it wakes a thread already marked as made runnable |
| `Mutex.MutexInEveryRun` | kern/mutex.c:99-207 | in every run: at most one holder, available only with an empty queue, grants in the order of arrival, and a granted thread that is blocked has its wake-up pending |
| `Mutex.GrantedCanProceed` | kern/mutex.c:123-128 | from every such state the thread granted the mutex can be inside within three steps |
| `Mutex.StrangeStateIsReachable` | kern/context_switcher.c:398-418 | two threads that only lock and unlock can reach the panic |
| `SegTree.NextPow2IsLeast` | kern/seg_tree.c:63-72 | for every word: the least power of two at or above it, and 0 exactly for 0 and for words above 2^31 |
| `SegTree.SizeIsPow2` | kern/seg_tree.c:132-135 | the number of leaves for any number of frames: a power of two from 33 frames on, else 1 or 0 |
| `SegTree.NodeHoldsLeast` | kern/seg_tree.c:156-185 | if every node agrees with its children, each node holds the least free frame of its subtree |
| `SegTree.RootHoldsLeast` | kern/seg_tree.c:192-199 | the root holds the least free frame, or NAN when there is none |
| `SegTree.InitLeaf` | kern/seg_tree.c:98-119 | a fresh leaf marks exactly the existing frames and returns the first of them |
| `SegTree.InitRecursive` | kern/seg_tree.c:84-120 | the recursion fills exactly its subtree, correctly, and returns its least frame |
| `SegTree.FrameTree.constructor` | kern/seg_tree.c:128-145 | a new tree is sound and its free set is exactly the frames below num |
| `SegTree.FrameTree.UpdateTree` | kern/seg_tree.c:156-185 | updating one path repairs the whole tree and touches no leaf |
| `SegTree.FrameTree.GetNext` | kern/seg_tree.c:192-210 | returns and removes the minimum of the free set, or NAN exactly when it is empty |
| `SegTree.FrameTree.PutBack` | kern/seg_tree.c:218-229 | adds the frame to the free set |
| `SegTree.RootRightIffManyFrames` | kern/seg_tree.c:128-145 | after initialisation there is a root and it is right if and only if there are more than 32 frames |
| `Memory.FreeCoversReservations` | kern/pm.c:149-175 | free frames are exactly the frames left plus those owed to reservations and ZFOD pages, so a reserved frame can always be had |
| `Memory.NoSharing` | kern/vm.c:395-483 | two pages with real frames never share one |
| `Memory.RegionsDisjoint` | kern/vm.c:282-378 | regions delimited by START and END marks that share a page are the same region |
| `Memory.RegionAdded` | kern/vm.c:1062-1132 | adding a region keeps every START mark paired with its END |
| `Memory.RegionRemoved` | kern/vm.c:282-378 | removing one region keeps the marks of all others paired |
| `Vm.Core.constructor` | kern/pm.c:89-137 | initially exactly the frames below num are free, all are counted and the books balance; the invariant of all operations holds if the frame of the local APIC is not among them |
| `Vm.Core.TakeAll` | kern/pm.c:40-61 | asking for frames until none comes yields exactly the free ones but the local APIC's; if that was free, free, taken and mapped frames are one less than the total |
| `Memory.LostFrameUnbalances` | kern/pm.c:55-57 | once a free frame is thrown away no value of the counter balances the books again |
| `Vm.Core.GetFrame` | kern/pm.c:40-61 | hands out the least free frame that is not the local APIC's, throwing that one away when it comes up first, and fails exactly when there is no other |
| `Vm.Core.Reserve` | kern/pm.c:149-162 | without interruption: succeeds exactly when enough frames are left, and otherwise restores the counter |
| `Reservations.StepAddsUp` | kern/pm.c:149-175 | a single access changes the sum of what is left, granted and under way exactly by what an out-of-date store moves the counter |
| `Reservations.CounterRightIff` | kern/pm.c:149-175 | over every interleaving, the counter is right after every access if and only if no thread stores a value other than the counter's |
| `Reservations.FramesForAll` | kern/vm.c:455-463 | in every run in which no store raises the counter, no more frames are granted than there are and no fault panics |
| `Reservations.CanPanicIff` | kern/vm.c:455-463 | from any state the pages can be touched until the kernel panics if and only if there are more of them than frames |
| `Reservations.ReservedFrameMissing` | kern/pm.c:153-154 | a run in which two threads reserve the only frame, both succeed, and touching both pages panics |
| `Reservations.CounterRightUndisturbed` | kern/pm.c:153-154 | the counter is right throughout every run in which no other access comes between lowering the counter and storing the result |
| `Reservations.UpdateCanBeLost` | kern/pm.c:153-154 | two threads can each reserve one of ten frames and leave nine |
| `Vm.Core.CountAllocated` | kern/vm.c:192-270 | counts the mapped pages of a range, or, for new_pages, tells whether there is any |
| `Vm.Core.MapPages` | kern/vm.c:1062-1132 | maps exactly the missing pages with the right marks, keeps the accounts balanced, and its frame request cannot fail |
| `Vm.Core.NewRegion` | kern/vm.c:947-1132 | exactly when it reports overlap or lack of memory, changing nothing; otherwise every byte asked for is mapped, and every page added holds one of them and has the right entry; size 0 at a page boundary is refused |
| `Vm.PagesOfBytes` | kern/vm.c:957-959 | the pages from first to last each hold a byte asked for; for size 0 away from a page boundary it is the one page of the address |
| `Vm.EmptySegment` | kern/vm.c:957-959 | with fewer frames than user pages the request that size 0 wraps to, all of user space, can never be met |
| `Vm.Core.NewPages` | kern/vm.c:1159-1186 | each error status exactly when, in the order of the checks; on success one new marked ZFOD region and nothing else changed |
| `Vm.Core.ResolveFault` | kern/vm.c:395-483 | a ZFOD page gets a frame of its own with its marks kept, exactly if the error code, where it is tested, is 7 in its low three bits; the request cannot fail, so the panic is unreachable |
| `Vm.Core.UnmapOne` | kern/vm.c:355-370 | unmapping a page returns its frame if it had one, and its reservation unless that is done elsewhere |
| `Vm.Core.RemoveRegion` | kern/vm.c:282-378 | succeeds exactly on a START mark and removes exactly that region, up to its own END |
| `Vm.Core.FreeSpace` | kern/vm.c:879-925 | unmaps exactly one user address space, and nothing of kernel space; the books balance afterwards if and only if the reservations are returned or there were none |
| `Vm.NewFaultRemove` | kern/vm.c:1159-1204 | new_pages, any faults inside the region, then remove_pages: pages, counter and free frames are what they were |
| `Vm.RunAll` | kern/vm.c:282-1204 | over any sequence of operations, frames left plus mapped pages, and free frames plus real pages, stay equal to the total |
| `FreeList.CarvedRight` | 410kern/lmm/lmm_alloc_gen.c:97-138 | taking an aligned piece out of a node keeps the canonical form and removes exactly its bytes |
| `FreeList.JoinedRight` | 410kern/lmm/lmm_free.c:55-106 | inserting and coalescing a block keeps the canonical form and adds exactly its bytes |
| `FreeList.SumFits` | 410kern/lmm/lmm_alloc.c:39-42 | free space never exceeds the region |
| `FreeList.CanonicalUnique` | 410kern/lmm/lmm_dump.c:53-69 | two canonical lists covering the same bytes are equal node for node |
| `AlignedSearch.NextAligned` | 410kern/lmm/lmm_alloc_gen.c:76-84 | the bit loop on words computes start + (ofs - start) mod 2^bits: the low word of the least address at or above the start with the wanted low bits |
| `AlignedSearch.CongruentIsModular` | 410kern/lmm/lmm_alloc_gen.c:79-84 | agreeing with align_ofs in the low align_bits bits is congruence modulo 2^align_bits |
| `Lmm.CarveTakes` | 410kern/lmm/lmm_alloc_gen.c:97-138 | across all regions, an allocation removes exactly its bytes and keeps every region in order |
| `Lmm.JoinGives` | 410kern/lmm/lmm_free.c:51-106 | across all regions, a free adds exactly its bytes and keeps every region in order |
| `Lmm.SameBytesSameState` | 410kern/lmm/lmm_dump.c:35-69 | the free bytes determine the state of the whole pool |
| `Lmm.Conserved` | 410kern/lmm/lmm_free.c:29-106 | over any history, byte by byte, free now plus taken equals free first plus given |
| `Lmm.AllReturnedRestores` | 410kern/lmm/lmm_free.c:29-106 | any history of allocations and frees in which every block comes back, in any order, ends in the initial lists |
| `LmmPool.MatchesIff` | 410kern/lmm/lmm_alloc.c:44-44 | the test of the flags is true exactly when the region has every bit asked for |
| `LmmPool.FindFit` | 410kern/lmm/lmm_alloc.c:35-55 | finds the first node that is large enough in the first matching region that has one |
| `LmmPool.WrappedFitsIff` | 410kern/lmm/lmm_alloc_gen.c:86-89 | on words the test whether the block lies in the node is right exactly when its sum does not wrap to a small value |
| `LmmPool.WildPool` | 410kern/lmm/lmm_alloc_gen.c:49-95 | a pool in order and a request whose accepted place is outside its node, so that the call goes wrong |
| `LmmPool.AcceptsOne` | 410kern/lmm/lmm_alloc_gen.c:41-95 | at most one node of a pool passes the tests on words, taken in list order with the early exit |
| `LmmPool.CandidateExact` | 410kern/lmm/lmm_alloc_gen.c:86-95 | if range and raised block stay below 2^32 both tests on words are the tests on exact numbers, whatever the node |
| `LmmPool.FindInRegion` | 410kern/lmm/lmm_alloc_gen.c:56-95 | on words, the first node that seems to hold the block, unless that seems to end beyond the range; without wrap-around, finds the first node with room, at its lowest place; the early break misses none |
| `LmmPool.Overshoots` | 410kern/lmm/lmm_alloc_gen.c:91-95 | once the lowest candidate ends beyond the range, so does every candidate of a later node |
| `LmmPool.FindRoom` | 410kern/lmm/lmm_alloc_gen.c:41-95 | finds the node that passes the tests on words, if there is one; without wrap-around, rejecting whole regions misses no room |
| `LmmPool.ScanRegion` | 410kern/lmm/lmm_find_free.c:44-66 | the walk along one region improves the lowest run found so far and loses none |
| `LmmPool.Pool.Alloc` | 410kern/lmm/lmm_alloc.c:26-85 | first fit: null if and only if no region with every flag asked for has so many free bytes in a row, with flags 0 no region at all; otherwise exactly the rounded block is taken, in a region with those flags; a size within seven of 2^32 rounds to zero and gets memory that stays free |
| `LmmPool.Pool.AllocGen` | 410kern/lmm/lmm_alloc_gen.c:26-154 | unless a sum wraps: null if and only if no region with every flag asked for has so many free bytes in a row, in range and at an address of the residue asked for; otherwise the first and lowest place, in a region with those flags; in any case the place is that of the one node that passes the tests on words, the call goes wrong exactly if that is outside the node, and otherwise exactly the aligned bytes around it are taken |
| `LmmPool.Pool.Split` | 410kern/lmm/lmm_alloc_gen.c:97-134 | the two-sided split leaves exactly the parts of the node before and after the block |
| `LmmPool.Pool.Free` | 410kern/lmm/lmm_free.c:26-107 | gives back exactly the bytes of the block rounded outward if the block is at 8 or above; below that its node is the null pointer and the region's list is lost |
| `LmmPool.Pool.Coalesce` | 410kern/lmm/lmm_free.c:61-106 | the four cases of linking and merging |
| `LmmPool.Pool.FindFree` | 410kern/lmm/lmm_find_free.c:26-73 | the lowest free address at or above the start rounded up on words, with the rest of its node, or nothing if there is none |
| `LmmPool.Pool.RemoveFree` | 410kern/lmm/lmm_remove_free.c:26-48 | terminates; each inner allocation gets the address that was found; exactly the free bytes of the range, both ends rounded up, are gone; its assertion fails exactly for a start within seven of 2^32 while something is free |
| `LmmPool.Pool.AddFree` | 410kern/lmm/lmm_add_free.c:26-70 | adds exactly the bytes of the block, rounded inward, that lie in some region |
| `LmmPool.Pool.AddRegion` | 410kern/lmm/lmm_add_region.c:26-71 | an empty region joins the list behind those of higher priority or the same and larger, and no byte becomes free |
| `LmmBoot.BootRegions` | 410kern/boot/util_lmm.c:77-88 | the boot pool: a region at address 0 and two above it, in the order their unsigned priorities give |
| `LmmBoot.KeepKernelMemory` | 410kern/entry.c:46-52 | after the two removals at boot exactly the free memory from 1 MB to the start of user memory is left |
| `HeapMemory.GetPut` | 410user/libmalloc/mm_malloc.h:23-25 | a word written to byte memory is read back, and only its four bytes change |
| `HeapBlocks.SpliceTiled` | 410user/libmalloc/mm_malloc.c:5-27 | memory rewritten only inside some blocks, and tagged there for new ones, is tiled again |
| `HeapBlocks.LiveApart` | 410user/libmalloc/mm_malloc.c:314-320 | live payloads are aligned, inside the heap and pairwise disjoint |
| `HeapBlocks.TagsDetermineBlocks` | 410user/libmalloc/mm_malloc.c:163-184 | one memory is tiled in one way only, so walking the tags meets every block |
| `Heap.MergeNext` | 410user/libmalloc/mm_malloc.c:271-276 | case 2 of coalescing tags exactly the merged block |
| `Heap.MergePrev` | 410user/libmalloc/mm_malloc.c:278-283 | case 3 tags exactly the merged block and finds its start through the tags |
| `Heap.MergeBoth` | 410user/libmalloc/mm_malloc.c:285-291 | case 4 tags exactly the merged block and finds its start through the tags |
| `Heap.MergedHeap` | 410user/libmalloc/mm_malloc.c:261-292 | after any of the four cases no two free blocks are adjacent and no live payload has changed |
| `Heap.PlaceTags` | 410user/libmalloc/mm_malloc.c:218-234 | for every size that rounding can give, negative ones included, placing writes the tags of one or two blocks that tile the old one; a rest of 2^31 bytes or more, or less than 16, is not split off, nor is anything of a block too small |
| `Heap.SplitsIff` | 410user/libmalloc/mm_malloc.c:221-223 | the test of the split on wrapping ints is true exactly when the rest, as a number, is between 16 and 2^31 |
| `Heap.PlacedHeap` | 410user/libmalloc/mm_malloc.c:218-234 | after placing the heap is in order, one block more is live and no live payload has changed |
| `Heap.ExtendTags` | 410user/libmalloc/mm_malloc.c:202-205 | the tags of the new free block and the new epilogue |
| `Heap.ExtendedHeap` | 410user/libmalloc/mm_malloc.c:192-208 | growth replaces the old epilogue by a free block and changes nothing live |
| `Heap.FreedHeap` | 410user/libmalloc/mm_malloc.c:131-135 | rewriting a block's tags as free takes exactly that block out of use |
| `HeapAllocator.CopyBytes` | 410user/libmalloc/mm_malloc.c:154-154 | the copy moves exactly the given bytes |
| `HeapAllocator.Allocator.constructor` | 410user/libmalloc/memlib.c:30-39 | the state after the first page has been obtained |
| `HeapAllocator.GrowthCanWrap` | 410user/libmalloc/memlib.c:50-66 | a break and an increment for which the call succeeds with a wrapped sum |
| `HeapAllocator.Allocator.Sbrk` | 410user/libmalloc/memlib.c:46-71 | exactly when null is returned; otherwise the new area starts where the old one ended and lies in memory, if and only if the sum does not wrap, and if it does the break falls and no memory is obtained |
| `HeapAllocator.Allocator.Init` | 410user/libmalloc/mm_malloc.c:57-75 | an empty heap in order, with nothing live and nothing below it touched; one free chunk if it succeeds; -1 exactly when the first chunk is refused, or the first page is the last of memory |
| `HeapAllocator.Allocator.ExtendHeap` | 410user/libmalloc/mm_malloc.c:192-209 | the blocks are the old ones and one free block, merged with a free last block; fails exactly when memory is refused, changing nothing; goes wrong exactly when the break wraps |
| `HeapAllocator.Allocator.FindFit` | 410user/libmalloc/mm_malloc.c:242-254 | null if and only if no free block before the first of 2^31 bytes or more fits, otherwise the first that does |
| `HeapAllocator.Allocator.Place` | 410user/libmalloc/mm_malloc.c:218-234 | makes exactly one block live: the start of the free one, or all of it; the heap stays in order also for a negative size |
| `HeapAllocator.Allocator.Coalesce` | 410user/libmalloc/mm_malloc.c:261-292 | merges a freed block with its free neighbours and restores the heap invariant |
| `HeapAllocator.Allocator.Malloc` | 410user/libmalloc/mm_malloc.c:83-113 | for every int: the heap stays in order and one aligned block more is live, cut from the first reachable fit or from the block grown; exactly when it has the size asked for; by how much the break moves; exactly when null; exactly when the break wraps |
| `HeapAllocator.LargestRequest` | 410user/libmalloc/mm_malloc.c:94-103 | on the heap that init leaves, a request for the largest int is given the whole first chunk |
| `HeapAllocator.Allocator.Free` | 410user/libmalloc/mm_malloc.c:120-137 | exactly that block stops being live, other payloads keep their bytes; null is ignored |
| `HeapAllocator.Allocator.Realloc` | 410user/libmalloc/mm_malloc.c:142-158 | the new block begins with the old payload, byte for byte, as far as that and the request reach; other payloads keep their bytes; on failure nothing changes; null exactly as for malloc; goes wrong exactly if the break wraps or the copy is longer than the new payload |
| `Quicksort.InsertionSort` | 410kern/stdlib/qsort.c:101-107 | leaves a sorted rearrangement of the range |
| `Quicksort.Med3IsMedian` | 410kern/stdlib/qsort.c:80-88 | med3 picks a median of its three elements |
| `Quicksort.ChoosePivot` | 410kern/stdlib/qsort.c:108-119 | the pivot lies in the range, for every length |
| `Quicksort.ScanLeft` | 410kern/stdlib/qsort.c:125-132 | keeps the five zones and stops at an element greater than the pivot or at the end |
| `Quicksort.ScanRight` | 410kern/stdlib/qsort.c:133-140 | keeps the five zones and stops at an element less than the pivot or at the end |
| `Quicksort.Partition` | 410kern/stdlib/qsort.c:121-147 | terminates with equal, less, more, equal and nothing unseen; without a swap the array is unchanged |
| `Quicksort.VecSwap` | 410kern/stdlib/qsort.c:59-78 | exchanges two disjoint blocks |
| `Quicksort.Gather` | 410kern/stdlib/qsort.c:156-160 | the two vector swaps leave less, equal, more |
| `Quicksort.Round` | 410kern/stdlib/qsort.c:99-160 | one turn of the loop sorts the range outright or splits it three ways into strictly smaller parts |
| `Quicksort.Sort` | 410kern/stdlib/qsort.c:90-170 | for any total preorder, terminates with a sorted rearrangement of the range and touches nothing else |

## Left out

- Swap by machine words: `swapfunc`'s choice between long and char copies, and element sizes, are left out; elements move whole.
- Quicksort.ChoosePivot: says only that the pivot lies in the range, which is all that sorting needs; that each med3 is a median is `Quicksort.Med3IsMedian`.
- LmmPool.Pool.AddRegion: requires the new region to be disjoint from all others; the source asserts this only for the regions it passes on its walk.
- LmmPool.Pool.Free: requires that no byte of the block is free already and that the block lies in one region; the source asserts parts of this.
- LmmPool.Pool.AddFree: requires that no byte of the block is free already, and that a block at address 0 meets no region there, both as `lmm_free` does; and that the block does not wrap, as its own assertion does.
- LmmPool.Pool.AllocGen: when the place lies outside the node, nothing is said about what the code then writes, or whether its assertion on the address stops it.
- Linked nodes of the List Memory Manager: a region's list is a sequence; that the nodes lie in the free memory they describe is not modelled, except that a node at address 0 ends the list.
- HeapAllocator.Allocator.constructor: the search of `mem_init` for a first page it can allocate is left out; the page found is a parameter. Whether the kernel grants more pages is a parameter of each call.
- HeapAllocator.Allocator.ExtendHeap: when the break wraps, nothing is said about what the code then writes.
- HeapAllocator.Allocator.Malloc: so too, after the break has wrapped.
- HeapAllocator.Allocator.Realloc: so too, and after a copy that overruns the new block.
- HeapAllocator.Allocator.Free: requires a pointer to a live block or null, as the C library does of its callers.
- `mm_checkheap` and the `_malloc` wrappers.
- Division.AddBack: its carry out of the leading digit is a ghost result, as the code drops it.
- OP_BLOCK, OP_SEND_MSG, OP_THREAD_FORK and OP_MAKE_RUNNABLE run with interrupts off and are one step each; the assembly part of the switch is not modelled.
- KernelRuns.HandleKeepsInv: the console calls, READLINE, SET_INIT_PCB and HALT are one kind of request that is answered at once; the queue of readers and halting are left out.
- Fork failure and its retry, and the allocation failure that sends twice: creating a task record or a thread succeeds.
- sleep and OP_RESUME: a thread not yet blocked can be run while it is still queued, so they break the one-place property.
- What a tour of yield or make_runnable looks for: in the protocol its calls may name any next core and claim to have found the thread; `Tours` says where the numbers the code uses lead.
- init exiting, in the protocol: `Lifecycle.Manager.Vanish` says what the handler would do.
- Spinlocks and mutexes inside the kernel protocol and the memory code: each handler of the manager and each memory operation runs to completion.
- `mutex_init` and `mutex_destroy`; the model follows one mutex.
- Mutex.StepKeepsInv: the unlocking thread knows whom to wake; that it reads this from a node in a stack frame that may be gone (`Mutex.NodeCanBeGone`) is not modelled further.
- The hash table and the priority queue: tables are maps. In the protocol queues are sequences, which `SimpleQueue` shows the linked queue to behave as; that a node lives on its thread's kernel stack is not modelled.
- `clone_pd`: it keeps the ZFOD mark on pages given real frames, so the accounts do not hold across it.
- Vm.Core.CountAllocated: page tables are not modelled, entries form a map from page to entry; their allocation succeeds and is not reverted.
- Vm.Core.NewPages: has no status for a page table that cannot be allocated.
- Vm.Core.NewRegion: has none either, and visits pages from the lowest up also where the code's walk wraps around; the overrun of the bitmap of new page tables at size 0 is not modelled.
- Vm.Core.Reserve: one uninterrupted step; `Reservations` has the second store of the counter.
- Vm.Core.ResolveFault: does not say that the new frame is zeroed.
- SegTree.FrameTree.constructor: more than 32 frames only, since the root is wrong otherwise (`SegTree.RootRightIffManyFrames`).
- Vm.Core.constructor: more than 32 frames only, for the same reason. Frames are indices, not addresses.
- Console, keyboard, timer, APIC, boot beyond the memory pool, ELF loading and everything in assembly.
