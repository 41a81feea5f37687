# HermesOS kernel: models and proofs

HermesOS is a multiprocessor x86-64 kernel with an in-kernel profiler.  This project models
its self-contained state machines and data structures in Dafny and proves what holds of
them over every input, every run or every interleaving.  `dafny verify dfyconfig.toml`
checks all of it.

The parts are independent; each has its own modules.

- Scheduler (`WaitTree`, `Scheduler`, `SchedulerSections`, `PollWait`, `FutexKeys`, `Futex`,
  `FutexCrowd`): critical sections of any number of CPUs as atomic steps over ready queue,
  wait tree, killed list, current processes and stacks.  The poll and futex modules add the
  two sleep protocols on top.
- Timers (`Timers`, `TimerWheel`): the 256-slot wheel refines a flat list of armed timers.
- Signals (`Signals`, `SignalRuns`, `SignalStacks`, `SignalCalls`; section 2.4 of POSIX.1-2017
  XSH): masks, frames, return, alternate stacks, at any nesting depth.
- Page tables (`PageTables`, `AddressSpaces`, `SpaceLife`, `SpaceFree`, `SpaceMarks`,
  `SpaceRuns`, `SpaceLate`, `SpaceBoot`, `MmuCalls`; section 4.5 of the Intel SDM, volume
  3A): the meaning of a space is its translation function.
- Heap (`FreeList`, `Heap`, `HeapRuns`, `HeapCalls`): one partition of all bytes obtained.
- Virtio ring and disks (`Modular`, `DescTable`, `VirtioRing`, `VirtioRuns`, `VirtioAvail`,
  `VirtioCalls`, `BlockIo`; section 2.6 of VIRTIO 1.1), and DMA (`Dma`, `DmaMaps`).
- Terminal (`Grid`, `Vt`, `VtRuns`, `VtMeaning`, `VtSize`, `Terminal`, `TerminalCalls`,
  `VtCalls`; section 8.3 of ECMA-48): the escape machine over a cell grid, what its sequences
  mean, and the screen that follows it.
- Profiler (`Stackwalk`, `LittleEndian`, `ProfilerLog`, `ProfilerRuns`): the frame walk, and
  a writer in C whose log a reader in Python must read back.
- Initial stack (`ExecStack`, `ExecCalls`; section 3.4.1 of the System V AMD64 ABI).

`Basics` and `Seqs` hold what several parts share.

Each part has the same shape.  A state is a datatype, each operation a function on it, and
an invariant is kept by every operation (`...Keeps`), hence by every run (`RunKeeps`); the
main results are read off it.  Beside that, classes with the kernel's own loops and updates
in place are proved equal, step by step, to those functions (`...Calls`,
`SchedulerSections`, `TimerWheel`, `BlockIo`).  Their straight-line methods (`YieldCpu`,
`ExitCpu`, `RtSigreturn`, the cases of the escape machine) follow those functions branch by
branch and have no row below; what the functions mean is in the lemmas that have one.

Some promises turn out to hold only under a condition.  Here are the conditions, each exact,
with the lemma that says so and one that shows a failure.

- Returning from a handler restores the interrupted state if and only if the interrupted
  instruction and stack pointers were user addresses (`Signals.DeliverThenReturn`;
  `Signals.WildStackIsFatal`).
- A timer is dispatched after the delay asked for if and only if its deadline fits the 64-bit
  counter, or the counter wraps no later than the wheel first looks into the slot
  (`Timers.FiresOnTimeIff`; `Timers.LongDelayFiresEarly`).
- A timer armed in the middle of a tick is not due in that tick if and only if its deadline
  does not wrap into the tick's slot (`TimerWheel.DueAtOnceIff`; `TimerWheel.EndlessFromStart`).
- Falling asleep loses no poll wake-up if and only if the wake-ups begun since the sequence
  number was read are none, or no multiple of 2^64, or of no interest
  (`PollWait.SleepLosesIff`; `PollWait.LostAfterWrap`).
- A futex wake-up chooses from the waiters of its own word if and only if nobody waits on
  another word with the same 28-bit key (`Futex.OwnWaitersIff`; `FutexKeys.KeysCollide`,
  `FutexCrowd.WrongWordFromBoot`).
- Reaping keeps the available ring's entries heads of their requests' chains if and only if
  the device did not report a request it has not taken (`VirtioAvail.ReapAvailIff`;
  `VirtioAvail.DanglesFromStart`).
- Ring indices name distinct cells if and only if the queue size divides 65536
  (`VirtioRing.WindowsFitIff`, both ways).
- Unaligned virtio disk transfers are right if and only if the sectors they touch span less
  than 2^32 bytes, because that length is cut to 32 bits (`BlockIo.ReadsRightIff`,
  `BlockIo.WritesRightIff`; `BlockIo.WrongRead`, `BlockIo.WrongWrite`).
- A space sees a kernel mapping if and only if it holds the kernel's entry on the way
  (`SpaceLife.KernelHalfAgrees`; `SpaceLate.BuildThenMiss`).
- Freeing a space keeps to its own tables if and only if no entry it borrowed differs from
  the kernel's in the accessed bit, which the processor sets (`SpaceMarks.KeepsToOwnIff`;
  `SpaceMarks.FirstWalkBetrays`).
- After a change of size a pending wrap is still in the last column if and only if none was
  pending or the lines did not grow (`VtSize.ResizedOk`; `Terminal.WrapLeftBehind`).
- The numbers of a control sequence are its parameters if and only if each has at most five
  digits and there are no more than sixteen, or those beyond have no effect
  (`VtRuns.FewRightIff`, `VtRuns.SixteenRightIff`, both ways).

One more comes with a sufficient condition and a failure without it: a signal frame overlaps
no active one while handlers keep to the stack they were put on
(`SignalStacks.DisciplineKeepsClear`; `SignalStacks.LeavingLosesFrame`).

Integers are unbounded in the model except where their width matters; there it is written
out (bit vectors for page-table entries, interests and futex words, explicit remainders for
counters and ring indices).  Page supplies, device behaviour, clocks, interrupts, other
CPUs' steps, user memory and random bytes are parameters of the steps.

## Model

| member | source | states |
|---|---|---|
| WaitTree.InsertInOrder | src/kernel/drivers/scheduler/process.c:885-894 | Walking down and going right on equal keys puts the newcomer, in tree order, after every waiter whose key is not larger. |
| WaitTree.InsertQueue | src/kernel/drivers/scheduler/process.c:885-894 | A newcomer joins the tail of its own channel's queue; every other channel's queue stays as it was. |
| WaitTree.First | src/kernel/drivers/scheduler/process.c:896-911 | The search loop ends on the oldest waiter of the channel, and on none exactly when the channel is empty. |
| WaitTree.RemoveInOrder | src/kernel/drivers/scheduler/process.c:913-919 | Taking a node out of the tree removes that one waiter from the order and keeps the rest in order. |
| WaitTree.RemoveQueue | src/kernel/drivers/scheduler/process.c:913-919 | Removing one sleeper drops it from its channel's queue and leaves every other queue alone. |
| WaitTree.RotationsKeepOrder | src/kernel/drivers/scheduler/process.c:885-919 | Whatever rotations rebalancing makes, the order, and so every channel's queue, is unchanged. |
| Scheduler.ApplyKeeps | src/kernel/drivers/scheduler/process.c:111-509 | Each critical section of each CPU (yield, sleep, exit, wake-up by count, interest or process, interrupt, wait, reap, free, create, publish, the end of a context switch, taking and dropping the kernel lock) keeps the placement invariant. |
| Scheduler.BootInv | src/kernel/drivers/scheduler/process.c:930-943 | The state with only idle processes satisfies the invariant, for any number of CPUs that the process table has room for. |
| Scheduler.RunKeeps | src/kernel/drivers/scheduler/process.c:111-870 | Every interleaving of those sections keeps the invariant. |
| Scheduler.InvIsSafe | src/kernel/drivers/scheduler/process.c:111-870 | What the invariant means for a process: exactly one place, and the one its state calls for; no process current or on the stack of two CPUs; one being freed is killed and on no stack; created at most once more than freed. |
| Scheduler.EveryRunIsSafe | src/kernel/drivers/scheduler/process.c:111-870 | All of that in every state of every run from boot. |
| Scheduler.FreeHappensOnce | src/kernel/drivers/scheduler/process.c:471-509 | When a free happens after any run, the process is killed, created once more than freed, on no list and on no CPU's stack, and no other CPU is freeing anything. |
| Scheduler.TreeIsFifoPerChannel | src/kernel/drivers/scheduler/process.c:186-204 | Each action changes each channel's queue as a FIFO would, and a wake-up appends exactly the processes it takes, oldest first, to the ready queue. |
| SchedulerSections.Sections.constructor | src/kernel/drivers/scheduler/process.c:97-105 | Starts in the boot state, which satisfies the invariant. |
| SchedulerSections.Sections.SleepOn | src/kernel/drivers/scheduler/process.c:130-140 | Is the sleep action, with the tree in place of the queue. |
| SchedulerSections.Sections.ToReady | src/kernel/drivers/scheduler/process.c:186-219 | Moves one sleeper from the tree to the tail of the ready queue. |
| SchedulerSections.Sections.WakeupCount | src/kernel/drivers/scheduler/process.c:186-204 | The loop of repeated searches is the wake-up action: it takes the min(count, waiters) oldest of the channel, and returns how many. |
| SchedulerSections.Sections.PassOne | src/kernel/drivers/scheduler/process.c:250-272 | One turn reads the successor before moving a sleeper, so the pass does not lose its place. |
| SchedulerSections.Sections.PassChannel | src/kernel/drivers/scheduler/process.c:250-272 | The pass visits every sleeper of the channel once and moves those with an overlapping interest. |
| SchedulerSections.Sections.WakeupInterested | src/kernel/drivers/scheduler/process.c:250-272 | Is the poll wake-up action. |
| SchedulerSections.Sections.ReapPick | src/kernel/drivers/scheduler/process.c:811-830 | Unlinks the first killed process that nobody will wait for, or reports that there is none. |
| SchedulerSections.QueueIsStretch | src/kernel/drivers/scheduler/process.c:896-919 | A channel's queue is a contiguous stretch of the tree order, which is why a successor walk is a walk along the channel. |
| PollWait.PollKeeps | src/kernel/drivers/syscalls/sys_poll.c:66-92 | Each step of a waiter or a waker, with any number of wake-ups in between, keeps: whoever sleeps on the poll channel has an interest disjoint from every finished wake-up that began after it fell asleep. |
| PollWait.PollRunKeeps | src/kernel/drivers/syscalls/sys_poll.c:66-92 | So does every interleaving. |
| PollWait.PassMissesNobody | src/kernel/drivers/scheduler/process.c:250-272 | A finished pass leaves nobody on the channel with an interest it announced. |
| PollWait.NoLostPollWakeup | src/kernel/drivers/scheduler/process.c:225-272 | After any run from boot, a process asleep on the poll channel has an interest disjoint from every finished wake-up that began after it read the sequence number, unless a positive multiple of 2^64 wake-ups began between that reading and its falling asleep, the missed one among them. |
| PollWait.LateWaiterDeclines | src/kernel/drivers/scheduler/process.c:225-240 | A waiter declines to sleep, and changes nothing, exactly when the number of wake-ups begun since its reading is no multiple of 2^64; otherwise it sleeps unless signalled. |
| PollWait.SleepLosesIff | src/kernel/drivers/scheduler/process.c:225-240 | Where nobody has missed a wake-up, going to sleep loses one if and only if a positive multiple of 2^64 wake-ups began since the reading and a finished one of them overlaps the interest. |
| PollWait.OthersLoseNone | src/kernel/drivers/scheduler/process.c:225-272 | No other step loses a wake-up. |
| PollWait.StartInv | src/kernel/drivers/scheduler/process.c:930-943 | Boot satisfies the invariant. |
| PollWait.LostAfterWrap | src/kernel/drivers/scheduler/process.c:225-272 | Such a loss can be reached from boot: a process reads the sequence number, 2^64 wake-ups for its interest come, and it sleeps. |
| Futex.FutexKeeps | src/kernel/drivers/scheduler/futex.c:35-53 | Checking the word, joining the tree and waking, each under the kernel lock, keep: those who saw the expected value and still wait are the futex sleepers. |
| Futex.FutexRunKeeps | src/kernel/drivers/syscalls/syscalls.c:567-618 | So does every interleaving with everything else the scheduler does. |
| Futex.BootIsQuiet | src/kernel/drivers/scheduler/futex.c:35-53 | It holds at boot, whatever user memory holds. |
| Futex.WaitersAreInTree | src/kernel/drivers/scheduler/futex.c:20-53 | When a wake-up of a word runs, a process is waiting on a word with its 28-bit key if and only if it is in the tree under that key. |
| Futex.NoLostFutexWakeup | src/kernel/drivers/scheduler/process.c:186-204 | After any run, a wake-up of n makes ready exactly the min(n, waiters) longest waiting on words with that key, in order, and leaves the rest queued in order. |
| Futex.OwnWaitersIff | src/kernel/drivers/scheduler/futex.c:20-53 | The sleepers a wake-up of a word chooses from are that word's own waiters if and only if nobody waits on another word with its key. |
| FutexKeys.KeysCollide | src/kernel/drivers/scheduler/futex.c:20-33 | Every private word shares its key with the one 1 GiB from it in the same space. |
| Futex.WrongWordWoken | src/kernel/drivers/scheduler/futex.c:46-53 | When the longest waiting with the key waits on another word, a wake-up of one makes that one ready, and the word's own waiters sleep on. |
| FutexCrowd.WrongWordFromBoot | src/kernel/drivers/scheduler/futex.c:20-53 | For any two words with one key there is a run from boot in which one process waits on each, and a wake-up asked for the second makes the waiter of the first ready while its own sleeps on. |
| Timers.OpKeeps | src/kernel/drivers/timer/callout.c:35-67 | Arming and stopping keep the relation between the wheel's counter, the armed timers and what becomes of each arming, for every delay. |
| Timers.TickBeginKeeps | src/kernel/drivers/timer/callout.c:95-141 | Advancing the counter keeps it, across the wrap of the 64-bit counter. |
| Timers.FireKeeps | src/kernel/drivers/timer/callout.c:95-141 | A dispatch keeps it, and happens in the tick in which its deadline first comes up. |
| Timers.TickEndKeeps | src/kernel/drivers/timer/callout.c:95-141 | A tick may end as soon as nothing is due. |
| Timers.RunKeeps | src/kernel/drivers/timer/callout.c:35-141 | Every run keeps it. |
| Timers.DispatchedExactlyOnce | src/kernel/drivers/timer/callout.c:95-141 | In every run, whatever callbacks and other CPUs arm or stop and whatever the delays: an arming is dispatched at most once, and only in the tick the 64-bit arithmetic gives it; before that tick it is armed or cancelled; after it, it was dispatched if and only if it was not cancelled. |
| Timers.ComesFirst | src/kernel/drivers/timer/callout.c:95-141 | That tick is the first, from the arming on, in which the wheel looks into the slot of the deadline and finds the deadline not after the counter. |
| Timers.OnTimeIff | src/kernel/drivers/timer/callout.c:41-56 | It is the tick the delay asks for if and only if the deadline fits the 64-bit counter, or the counter wraps no later than the wheel first looks into the slot. |
| Timers.FiresOnTimeIff | src/kernel/drivers/timer/callout.c:41-141 | In every run, a dispatch comes after exactly the delay asked for if and only if that condition holds of its arming. |
| Timers.LongDelayFiresEarly | src/kernel/drivers/timer/callout.c:41-141 | A run in which it does not: a timer armed in tick 1 for 2^64 - 1 ticks is dispatched in tick 256. |
| TimerWheel.SlotHoldsAllDue | src/kernel/drivers/timer/callout.c:95-141 | The first due timer of the current tick's slot is the first due timer of all. |
| TimerWheel.OpAddsNoneDue | src/kernel/drivers/timer/callout.c:41-67 | What is armed or stopped in the middle of a tick makes no other timer due in that tick, unless a deadline wraps into its slot. |
| TimerWheel.DueAtOnceIff | src/kernel/drivers/timer/callout.c:41-56 | An arming is due at once, in the tick it is made in, if and only if its deadline wraps to a value in that slot not after the counter. |
| TimerWheel.EndlessTick | src/kernel/drivers/timer/callout.c:95-141 | A callback that arms its own timer so keeps the dispatch loop going, for any number of turns of one tick. |
| TimerWheel.EndlessFromStart | src/kernel/drivers/timer/callout.c:95-141 | From the first tick on a run leads there: a timer armed with the largest delay is due in tick 256, and a callback that arms it again is dispatched any number of times in that tick. |
| TimerWheel.Wheel.constructor | src/kernel/drivers/timer/callout.c:16-33 | Starts with empty slots and unarmed timers. |
| TimerWheel.Wheel.Unlink | src/kernel/drivers/timer/callout.c:35-39 | Takes a pending timer off its slot, in the flat list too. |
| TimerWheel.Wheel.StopTimer | src/kernel/drivers/timer/callout.c:58-67 | Is the stop of the flat list, and reports whether the timer was pending. |
| TimerWheel.Wheel.Link | src/kernel/drivers/timer/callout.c:41-56 | Puts a timer that is not pending at the tail of its deadline's slot, and so of the flat list. |
| TimerWheel.Wheel.ResetTimer | src/kernel/drivers/timer/callout.c:41-56 | Is the arming of the flat list: a pending timer is stopped first, and a delay of zero counts as one. |
| TimerWheel.Wheel.Interlude | src/kernel/drivers/timer/callout.c:95-141 | What happens while the lock is released is a run of armings and stoppings. |
| TimerWheel.Wheel.FindDue | src/kernel/drivers/timer/callout.c:95-141 | The search loop returns the first due timer of the slot, or none when none is due. |
| TimerWheel.Wheel.DispatchDue | src/kernel/drivers/timer/callout.c:95-141 | Unlinks a due timer before its callback runs, as one dispatch of the flat list. |
| TimerWheel.Wheel.TakeTurn | src/kernel/drivers/timer/callout.c:95-141 | One turn of the loop either takes the big locks for a timer that needs them or dispatches it; it never does the first twice. |
| TimerWheel.Wheel.Tick | src/kernel/drivers/timer/callout.c:95-141 | One call is one whole tick of the flat list: it leaves nothing due, its steps are a run, and when no interlude arms a timer due at once it dispatches no more than was due at its start. |
| Signals.SetAltValid | src/kernel/drivers/scheduler/signal.c:218-238 | Setting the alternate stack leaves a disabled stack or one of sufficient size below the address limit. |
| Signals.AltRoundTrip | src/kernel/drivers/scheduler/signal.c:208-238 | Reading the setting and putting it back restores it, unless the process is on the stack it would replace. |
| Signals.FramePlacement | src/kernel/drivers/scheduler/signal.c:240-299 | A frame is aligned for a call, lies inside the alternate stack when it moves there, otherwise below the red zone, and inside the alternate stack when that is in use already. |
| Signals.DeliverThenReturn | src/kernel/drivers/scheduler/signal.c:176-456 | Delivery and return through the untouched frame restore registers, instruction and stack pointer, user flags and mask if and only if the interrupted pointers were user addresses; the alternate stack comes back exactly when the return does not run on the stack being replaced. |
| Signals.WildStackIsFatal | src/kernel/drivers/scheduler/signal.c:416-456 | A concrete case of the failure: a stack pointer beyond the user limit and a handler on the alternate stack; delivery succeeds and the return ends the process. |
| SignalRuns.SettlePicks | src/kernel/drivers/scheduler/signal.c:301-351 | The delivery loop picks the lowest deliverable signal that is not ignored, and drops only ignored ones. |
| SignalRuns.NextKeeps | src/kernel/drivers/scheduler/signal.c:208-495 | Delivery, return, mask calls, sigsuspend, ppoll, posting, sigaction, sigaltstack, forged returns and user code, which may write over any frame, keep the invariant on masks and on the frames not written over. |
| SignalRuns.RunKeeps | src/kernel/drivers/scheduler/signal.c:240-495 | So does every run. |
| SignalRuns.MasksOverEveryRun | src/kernel/drivers/scheduler/signal.c:240-495 | Over every run SIGKILL and SIGSTOP are in neither the blocked nor the saved mask, a pending SIGKILL is deliverable, and the mask user code asked for is in force whenever user code runs. |
| SignalRuns.HandlerStarts | src/kernel/drivers/scheduler/signal.c:240-351 | The new frame stores the interrupted context, the mask that was asked for (not a temporary one) and the alternate stack; an older frame stays intact exactly when the new one does not overlap it. |
| SignalRuns.QuietDeliverKeeps | src/kernel/drivers/scheduler/signal.c:301-351 | With nothing deliverable a temporary mask is undone at once, and only once. |
| SignalRuns.ReturnRestores | src/kernel/drivers/scheduler/signal.c:416-456 | The return of the innermost handler with an intact frame restores what the frame stores and pops exactly that frame, if and only if its pointers are user addresses; the alternate stack is the frame's if and only if the return does not run on the stack then in force, or the two are equal. |
| SignalRuns.RoundTripAtAnyDepth | src/kernel/drivers/scheduler/signal.c:176-456 | A signal is delivered, then come any number of nested handlers that come and go, mask calls, sigaltstack calls, waits and user code; unless the frame is written over the return restores context and mask of the interrupted code, and its alternate stack if and only if it does not run on the stack then in force, or that is the same. |
| SignalStacks.DisciplineKeepsClear | src/kernel/drivers/scheduler/signal.c:240-299 | When the stack pointer is at or below every active frame on its stack, and on the alternate stack while a frame is there, the next frame overlaps none. |
| SignalStacks.LeavingLosesFrame | src/kernel/drivers/scheduler/signal.c:240-351 | From a fresh process: a handler on the alternate stack that goes back to the main stack and takes a second signal has its frame overwritten by the second. |
| SignalStacks.AltComesBack | src/kernel/drivers/scheduler/signal.c:176-456 | When the handlers in between make no sigaltstack call and leave each other's frames alone, the alternate stack comes back, disarmed or not. |
| SignalRuns.FreshProcess | src/kernel/drivers/scheduler/signal.c:30-56 | A process with nothing pending or blocked satisfies the invariant. |
| SignalCalls.Task.SignalSetupFrame | src/kernel/drivers/scheduler/signal.c:240-299 | Is the frame building the round trip is stated about. |
| SignalCalls.Task.SignalDeliver | src/kernel/drivers/scheduler/signal.c:301-351 | Is the delivery step; false exactly when it ends the process. |
| PageTables.SplitPart | src/kernel/hardware/memory/mmu.c:45-58 | An entry of the table that replaces a 2 MiB page means what that part of the page meant, for any rights above it. |
| PageTables.HangMeaning | src/kernel/hardware/memory/mmu.c:35-66 | Hanging an empty table at an absent entry, or the parts of a 2 MiB page in its place, changes no translation of any page of any space. |
| PageTables.LeafWriteMeaning | src/kernel/hardware/memory/mmu.c:68-87 | Writing a last-level entry changes exactly the translations whose walk ends at that entry. |
| AddressSpaces.HangKeeps | src/kernel/hardware/memory/mmu.c:35-66 | Hanging a table keeps ownership: spaces own the tables of their half, share the kernel's entries elsewhere, and no table hangs twice. |
| AddressSpaces.StepDownSteps | src/kernel/hardware/memory/mmu.c:35-66 | A step down finds or makes the owner's own table, changes no translation anywhere, and fails only when frames have run out. |
| AddressSpaces.FindPtKeeps | src/kernel/hardware/memory/mmu.c:68-87 | So do the three steps together. |
| AddressSpaces.UserPageIff | src/kernel/hardware/memory/mmu.c:68-87 | The pages a space maps for itself are those of addresses from 1 GiB to the top of the lower half. |
| AddressSpaces.SamePageIff | src/kernel/hardware/memory/mmu.c:68-87 | Two addresses take the same four indices exactly when they are in the same 4 KiB. |
| AddressSpaces.LeafWriteShows | src/kernel/hardware/memory/mmu.c:68-87 | A leaf write shows on its page only, and beyond its owner only when the owner is the kernel. |
| AddressSpaces.MapPageInKeeps | src/kernel/hardware/memory/mmu.c:68-87 | Mapping keeps ownership; on success the page translates to the frame and flags given, on failure (frames ran out) no translation changes. |
| AddressSpaces.MapPageInElsewhere | src/kernel/hardware/memory/mmu.c:68-87 | No other page of any space changes, even when a 2 MiB page is split; a mapping in a space is seen by no other space and not by the kernel. |
| AddressSpaces.OpenWalk | src/kernel/hardware/memory/mmu.c:222-233 | On a space's own half the upper levels grant all rights, so the leaf found by the walk decides. |
| SpaceLife.SetupKvmKeeps | src/kernel/hardware/memory/mmu.c:288-310 | Building a space takes two frames or none, fails exactly when there are not two, and keeps ownership. |
| SpaceLife.SetupKvmSpares | src/kernel/hardware/memory/mmu.c:288-310 | It changes no translation of the kernel or of any space that was there. |
| SpaceLife.NewSpaceMeans | src/kernel/hardware/memory/mmu.c:288-310 | A new space has its own half empty and the kernel's half as the kernel has it. |
| SpaceLife.KernelHalfAgrees | src/kernel/hardware/memory/mmu.c:288-310 | Outside its own half a space's page is the kernel's, rights included, if and only if the space holds the kernel's root entry for it, and unmapped otherwise. |
| SpaceLate.MapForeign | src/kernel/hardware/memory/mmu.c:68-87 | Mapping a page writes no table of another owner. |
| SpaceLate.LateMappingIsMissed | src/kernel/hardware/memory/mmu.c:68-87 | A kernel page mapped under a root entry the kernel did not have before is mapped for the kernel and unmapped in every space there was; with four frames left the mapping does succeed. |
| SpaceLate.FourFramesDo | src/kernel/hardware/memory/mmu.c:68-87 | Mapping a page succeeds whenever four frames are left. |
| SpaceLate.BuildThenMiss | src/kernel/hardware/memory/mmu.c:68-310 | In every sound state with six frames left, boot's among them: build a space, map a kernel page under a root entry not there before, and the space misses it. |
| SpaceBoot.MappedSound | src/kernel/hardware/memory/mmu.c:102-137 | The first tables (root, low table with its 2 MiB directory, high half) satisfy the ownership invariant, whatever frames they got. |
| SpaceBoot.BootIsSound | src/kernel/hardware/memory/mmu.c:102-177 | So do the tables once every memory region has its direct mapping and the device its page. |
| SpaceFree.DescendsIffOwned | src/kernel/hardware/memory/mmu.c:190-220 | The comparison with the kernel's entries goes into exactly the tables the space owns. |
| SpaceFree.TablesExact | src/kernel/hardware/memory/mmu.c:190-220 | The nested walk meets exactly the owned tables below the root. |
| SpaceFree.TablesDistinct | src/kernel/hardware/memory/mmu.c:190-220 | It meets each once. |
| SpaceFree.FreeVmExact | src/kernel/hardware/memory/mmu.c:190-220 | What is freed is, as a multiset, each table the space owns once and the user frames of its last-level tables once per mapping; nothing of the kernel's. |
| SpaceMarks.UnmarkedIs | src/kernel/hardware/memory/mmu.c:190-220 | With no accessed bit set the comparison is the one the exactness of freeing is stated about. |
| SpaceMarks.DescendsMarkedIff | src/kernel/hardware/memory/mmu.c:190-220 | With accessed bits set in any entries, the comparison goes into a table if and only if the space owns it, or the entry differs from the kernel's in that bit. |
| SpaceMarks.KeepsToOwnIff | src/kernel/hardware/memory/mmu.c:190-220 | So the walk keeps to the space's own tables if and only if no borrowed entry differs from the kernel's in its accessed bit. |
| SpaceMarks.FirstWalkBetrays | src/kernel/hardware/memory/mmu.c:190-220 | One walk through a borrowed root entry the kernel has not walked since is enough: the loops then go into the kernel's table. |
| SpaceRuns.ApplyKeeps | src/kernel/hardware/memory/mmu.c:35-310 | Building, mapping, rewriting a last-level entry and freeing keep ownership. |
| SpaceRuns.ApplySpares | src/kernel/hardware/memory/mmu.c:35-310 | What is done to other spaces or the kernel changes no page of this space's half. |
| SpaceRuns.EveryRunIsSound | src/kernel/hardware/memory/mmu.c:35-310 | Ownership holds in every state of every run. |
| SpaceBoot.EveryRunFromBoot | src/kernel/hardware/memory/mmu.c:35-310 | In every run from there too. |
| SpaceRuns.SpacesAreIsolated | src/kernel/hardware/memory/mmu.c:35-310 | No run that leaves a space alone changes what any page of its half means, however many spaces come, map and go. |
| SpaceRuns.FindIsWalk | src/kernel/hardware/memory/mmu.c:222-233 | The search for an entry, which gives up at an absent and at a large one, finds a table only where the processor's walk does, and the same one; for a page of a space's own half, whenever the walk does. |
| SpaceRuns.RewriteKeeps | src/kernel/hardware/memory/vm.c:445-461 | Whatever is written to the entry found, ownership holds and the page means exactly that; nothing changes when none is found. |
| SpaceRuns.RewriteElsewhere | src/kernel/hardware/memory/vm.c:445-461 | No other page of the space and no page of any other space changes its meaning. |
| MmuCalls.FindPte | src/kernel/hardware/memory/mmu.c:222-233 | The loop over the levels is that search. |
| MmuCalls.PageMap.GetOrCreatePageTable | src/kernel/hardware/memory/mmu.c:45-66 | Is the step at the page directory, with the split of a 2 MiB page. |
| MmuCalls.PageMap.FindDirectory | src/kernel/hardware/memory/mmu.c:68-87 | The first two levels. |
| MmuCalls.PageMap.MapPage | src/kernel/hardware/memory/mmu.c:68-87 | Is the mapping operation the properties are stated about. |
| MmuCalls.PageMap.MapAddress | src/kernel/hardware/memory/mmu.c:68-87 | The same from the address on: its indices are those of its page. |
| MmuCalls.PageMap.Build | src/kernel/hardware/memory/mmu.c:288-310 | Fills the two new tables. |
| MmuCalls.PageMap.Setup | src/kernel/hardware/memory/mmu.c:288-310 | Is the building of a space, or none when a frame is missing. |
| MmuCalls.FreePt | src/kernel/hardware/memory/mmu.c:190-220 | The innermost loop frees the user frames of a last-level table, then the table. |
| MmuCalls.FreePdEntry | src/kernel/hardware/memory/mmu.c:190-220 | One entry of a page directory. |
| MmuCalls.FreePdptEntry | src/kernel/hardware/memory/mmu.c:190-220 | One entry of a page-directory-pointer table, passed over when it is the kernel's. |
| MmuCalls.FreeRootEntry | src/kernel/hardware/memory/mmu.c:190-220 | One root entry, passed over when it is the kernel's. |
| MmuCalls.FreePd | src/kernel/hardware/memory/mmu.c:190-220 | The loop over a page directory, in order. |
| MmuCalls.FreePdpt | src/kernel/hardware/memory/mmu.c:190-220 | The loop over a page-directory-pointer table, in order. |
| MmuCalls.Free | src/kernel/hardware/memory/mmu.c:190-220 | The whole nest of loops frees exactly the list the exactness result is about. |
| FreeList.InsertOrder | src/kernel/hardware/memory/alloc.c:49-71 | Inserting keeps address order and leaves no two blocks adjacent. |
| FreeList.InsertCover | src/kernel/hardware/memory/alloc.c:49-71 | The list covers exactly the bytes it covered and the new block's, whatever is merged. |
| FreeList.TakeKeeps | src/kernel/hardware/memory/alloc.c:111-147 | First fit fails exactly when no block has room; otherwise the block has room, wastes less than a header and a step, and the list keeps order and gaps. |
| FreeList.TakeCover | src/kernel/hardware/memory/alloc.c:111-147 | What is taken and what is left are together what was there. |
| FreeList.InsertKeepsRoom | src/kernel/hardware/memory/alloc.c:49-71 | Inserting never takes room for a request away. |
| Heap.ApplyKeeps | src/kernel/hardware/memory/alloc.c:49-287 | Every step keeps the partition: each byte obtained is in exactly one of free blocks, bins, caches, live blocks, large blocks and slab slack; live blocks are aligned and large enough; the free list is sorted without neighbours; cache counts equal list lengths and stay in bounds. |
| HeapRuns.BootInv | src/kernel/hardware/memory/alloc.c:91-98 | It holds at the start. |
| HeapRuns.RunKeeps | src/kernel/hardware/memory/alloc.c:49-287 | It holds in every state of every run. |
| HeapRuns.LiveApart | src/kernel/hardware/memory/alloc.c:111-147 | Two live blocks never share a byte, headers included. |
| HeapRuns.LargeApart | src/kernel/hardware/memory/alloc.c:149-156 | Nor do two large blocks. |
| HeapRuns.LiveAlone | src/kernel/hardware/memory/alloc.c:158-241 | A live block shares no byte with a large block, a free block, or an object in a bin or a cache. |
| HeapRuns.BlockStays | src/kernel/hardware/memory/alloc.c:49-287 | Until it is freed a block stays handed out, where and as large as it was, and disjoint from every block handed out meanwhile. |
| HeapRuns.GrowMakesRoom | src/kernel/hardware/memory/alloc.c:73-89 | What growing adds has room for the request it was called for. |
| HeapRuns.ApplyKeepsRoom | src/kernel/hardware/memory/alloc.c:49-89 | Only another search can take that room away. |
| HeapRuns.RetrySucceeds | src/kernel/hardware/memory/alloc.c:243-259 | After growing for a request the next search succeeds, whatever ran in between, unless another search did: every further turn of the retry loop is paid for by a block another CPU got. |
| HeapCalls.Allocator.FindPos | src/kernel/hardware/memory/alloc.c:49-71 | The search for the insertion point. |
| HeapCalls.Allocator.InsertFreeLocked | src/kernel/hardware/memory/alloc.c:49-71 | Is the insertion with merging to both sides. |
| HeapCalls.Allocator.FindFit | src/kernel/hardware/memory/alloc.c:111-147 | Finds the first block with room, or none when there is none. |
| HeapCalls.Allocator.TakeBlock | src/kernel/hardware/memory/alloc.c:111-147 | Is the first-fit step with splitting. |
| HeapCalls.Allocator.RefillCache | src/kernel/hardware/memory/alloc.c:158-173 | Moves up to a batch from a bin to the CPU's list. |
| HeapCalls.Allocator.TakeBatch | src/kernel/hardware/memory/alloc.c:158-173 | The loop moves objects until the batch is full or the bin is empty. |
| HeapCalls.Allocator.CutSlab | src/kernel/hardware/memory/alloc.c:175-197 | The loop that cuts a slab into objects. |
| HeapCalls.Allocator.AddSlabPages | src/kernel/hardware/memory/alloc.c:175-197 | Is the step that adds a slab: objects to the bin, the rest to slack. |
| HeapCalls.Allocator.FreeToCache | src/kernel/hardware/memory/alloc.c:223-241 | Is the step that frees an object; the loop at the limit spills a batch to the bin. |
| HeapCalls.Allocator.GetPages | src/kernel/hardware/memory/alloc.c:73-83 | Pages never handed out before, or none when the supply ends. |
| HeapCalls.Allocator.AddChunkOf | src/kernel/hardware/memory/alloc.c:73-83 | Adds a chunk or changes nothing. |
| HeapCalls.Allocator.GrowFor | src/kernel/hardware/memory/alloc.c:85-89 | On success the free list has room for the request; failure changes nothing and means that the pages the request needs are not to be had. |
| HeapCalls.Allocator.TakeLarge | src/kernel/hardware/memory/alloc.c:149-156 | Gives a new large block of at least the size, or none and changes nothing. |
| HeapCalls.Allocator.TakeObject | src/kernel/hardware/memory/alloc.c:199-221 | One turn: from the CPU's list, else from the bin, else none. |
| HeapCalls.Allocator.AddSlabFor | src/kernel/hardware/memory/alloc.c:175-197 | Adds a slab or changes nothing. |
| HeapCalls.Allocator.TakeSmall | src/kernel/hardware/memory/alloc.c:199-221 | Gives an object large enough for the request and adds it to the live blocks, or none and leaves them; the loop ends. |
| HeapCalls.Allocator.TakeChecked | src/kernel/hardware/memory/alloc.c:243-259 | A search succeeds exactly when some free block has room, and otherwise changes nothing. |
| HeapCalls.Allocator.Malloc | src/kernel/hardware/memory/alloc.c:243-259 | Refuses zero and more than 2^40; otherwise gives a new aligned block of at least the size, disjoint from all others, and fails only when the pages for this request are not to be had. |
| HeapCalls.Allocator.Find | src/kernel/hardware/memory/alloc.c:267-287 | Finds the block in use that starts at an address, or none. |
| HeapCalls.Allocator.ReleaseBlock | src/kernel/hardware/memory/alloc.c:267-287 | Frees a block that is not large to its cache or to the free list. |
| HeapCalls.Allocator.Release | src/kernel/hardware/memory/alloc.c:267-287 | Is the one freeing step the block's kind calls for, and does nothing at all when no block in use starts there. |
| DescTable.TakeDescFree | src/kernel/hardware/disks/virtio_blk.c:219-225 | Taking hands out the head of the free list and leaves the rest as the list. |
| DescTable.BuiltIs | src/kernel/hardware/disks/virtio_blk.c:284-301 | A built request is a chain of the first free descriptors that reads back as its items; the rest stay free and no other descriptor changes. |
| DescTable.ReturnedFree | src/kernel/hardware/disks/virtio_blk.c:148-160 | Giving a chain back puts all of it, and nothing else, on the free list. |
| VirtioRing.WindowsFitIff | src/kernel/hardware/disks/virtio_blk.c:410-440 | 16-bit running indices name distinct ring cells for any queue-size entries in a row if and only if the size divides 65536. |
| VirtioRing.SetupInv | src/kernel/hardware/disks/virtio_blk.c:410-440 | A fresh queue satisfies the invariant. |
| VirtioRing.ApplyKeeps | src/kernel/hardware/disks/virtio_blk.c:148-345 | Claiming, publishing, the device's taking and reporting (any ids), reaping and releasing keep: free descriptors and chains partition the table, the count is exact, the used ring holds what was reported, and each published chain's head is the entry of its ticket in the available ring. |
| VirtioRuns.RunKeeps | src/kernel/hardware/disks/virtio_blk.c:148-345 | So does every run. |
| VirtioRuns.EveryRunAccounts | src/kernel/hardware/disks/virtio_blk.c:148-345 | In every state of every run of a fresh queue: the partition and the free count hold, a claimed slot has descriptors for the largest request, and each request issued is completed exactly once or still with the device. |
| VirtioRuns.ReapsInOrder | src/kernel/hardware/disks/virtio_blk.c:162-181 | There is something to reap exactly while the device has reported more than was taken, and it is the next report, across 16-bit wrap. |
| VirtioRuns.ReapCompletesIff | src/kernel/hardware/disks/virtio_blk.c:162-181 | A used id completes a request if and only if, cut to 16 bits, it heads a chain the device has; any other id changes nothing but the index. |
| VirtioRuns.RepeatIgnored | src/kernel/hardware/disks/virtio_blk.c:162-181 | An id just taken stands for no request, so repeating it is ignored. |
| VirtioRuns.ChainStands | src/kernel/hardware/disks/virtio_blk.c:284-301 | From publication to completion a request's chain reads as its header, segments in order and status byte, whatever else goes on. |
| VirtioRuns.ReapAllDrains | src/kernel/hardware/disks/virtio_blk.c:162-181 | The reap loop ends with every report taken once, and keeps the order of completions. |
| VirtioAvail.RoomToOffer | src/kernel/hardware/disks/virtio_blk.c:284-301 | While the entries not yet taken head distinct chains in flight, a chain with a free descriptor has a cell of the available ring that nobody still has to read. |
| VirtioAvail.AvailKeeps | src/kernel/hardware/disks/virtio_blk.c:148-345 | Every step but a reap keeps that, and that the available ring's cells and index give those entries. |
| VirtioAvail.ReapAvailIff | src/kernel/hardware/disks/virtio_blk.c:162-181 | A reap keeps it if and only if the id reported does not complete a request whose entry is still to be taken. |
| VirtioAvail.TakesInOrder | src/kernel/hardware/disks/virtio_blk.c:148-345 | In every run of a fresh queue with no such report: the device can take exactly while fewer entries were taken than published; the n-th it takes, from the cell of the 16-bit index, is the n-th head published, each once and in order across the wrap, and heads the chain of that request. |
| VirtioAvail.DanglesFromStart | src/kernel/hardware/disks/virtio_blk.c:162-181 | A fresh queue reaches the failure in four steps: a request is reported before it is taken, and its entry then heads no chain. |
| VirtioCalls.Queue.constructor | src/kernel/hardware/disks/virtio_blk.c:410-440 | Links all descriptors into the free list: the fresh queue. |
| VirtioCalls.Queue.TakeSlot | src/kernel/hardware/disks/virtio_blk.c:208-217 | The first slot not in use, and none if and only if descriptors are short or every slot is in use. |
| VirtioCalls.Queue.FreeChain | src/kernel/hardware/disks/virtio_blk.c:148-160 | The loop along the next links gives back exactly the chain. |
| VirtioCalls.Queue.AddItem | src/kernel/hardware/disks/virtio_blk.c:284-301 | Takes, fills and links one descriptor. |
| VirtioCalls.Queue.BuildChain | src/kernel/hardware/disks/virtio_blk.c:284-301 | The loop builds the chain the reading result is about. |
| VirtioCalls.Queue.PublishChain | src/kernel/hardware/disks/virtio_blk.c:284-301 | Is the publish step: owner, chain, ring cell and index. |
| VirtioCalls.Queue.CompleteSlot | src/kernel/hardware/disks/virtio_blk.c:162-181 | Frees a completed request's chain and marks it done. |
| VirtioCalls.Queue.ReapOne | src/kernel/hardware/disks/virtio_blk.c:162-181 | Is the reap step. |
| VirtioCalls.Queue.ReapQueue | src/kernel/hardware/disks/virtio_blk.c:162-181 | The loop is the draining of all reports, and tells whether anything completed. |
| BlockIo.PatchWithin | src/kernel/hardware/disks/ata.c:393-417 | Reading whole sectors, changing some bytes and writing them back is a write of those bytes. |
| BlockIo.Disk.ReadSectors | src/kernel/hardware/disks/virtio_blk.c:347-359 | A command gives the sectors' bytes, or fails; within the disk and without a fault it does not fail. |
| BlockIo.Disk.WriteSectors | src/kernel/hardware/disks/virtio_blk.c:347-359 | A command stores the bytes; a failing one may store a first part and nothing else, and within the disk and without a fault none fails. |
| BlockIo.Disk.ReadRun | src/kernel/hardware/disks/virtio_blk.c:347-359 | Whole sectors from a sector boundary in one request. |
| BlockIo.Disk.FullSectors | src/kernel/hardware/disks/ata.c:361-367 | The whole sectors one command takes from here: within the limit and what is left, and none exactly off a sector boundary or with less than a sector left. |
| BlockIo.Disk.AtaReadTurn | src/kernel/hardware/disks/ata.c:369-391 | One turn makes progress and reads the next bytes. |
| BlockIo.Disk.AtaRead | src/kernel/hardware/disks/ata.c:369-391 | On success exactly the bytes of the range, for any alignment, length and command limit; it does succeed when the sectors are on the disk and no command faults, and the loop ends. |
| BlockIo.Disk.WriteRun | src/kernel/hardware/disks/ata.c:393-417 | Whole sectors in one command. |
| BlockIo.Disk.AtaWritePart | src/kernel/hardware/disks/ata.c:393-417 | A partial sector: read, change, write; even when the write fails each byte of the disk is as it was or one of the new. |
| BlockIo.Disk.ChangeSector | src/kernel/hardware/disks/ata.c:393-417 | Reading one sector, changing bytes in it and writing it back. |
| BlockIo.Disk.AtaWriteTurn | src/kernel/hardware/disks/ata.c:393-417 | One turn makes progress and stores the next bytes, reading the rest of a partial sector first. |
| BlockIo.Disk.AtaWrite | src/kernel/hardware/disks/ata.c:393-417 | On success the disk is as one write of the bytes leaves it; in any case each byte is as it was or the caller's byte for that place; it succeeds when the sectors are on the disk and no command faults. |
| BlockIo.Disk.AlignedRead | src/kernel/hardware/disks/virtio_blk.c:347-359 | Requests of at most the device's limit read the whole range, and do when it is on the disk and none faults. |
| BlockIo.Disk.AlignedWrite | src/kernel/hardware/disks/virtio_blk.c:347-359 | Requests of at most the device's limit write the whole range, and do when it is on the disk and none faults; when one fails each byte is as it was or the caller's for that place. |
| BlockIo.Disk.VblkRead | src/kernel/hardware/disks/virtio_blk.c:361-386 | Refuses what the bounds check refuses; a success is the bytes of the range when the range is aligned or its sectors span less than 2^32 bytes, and otherwise what the cut length leaves in the buffer; it is a success when the range is admitted, no request faults and there is memory. |
| BlockIo.Disk.ReadSpan | src/kernel/hardware/disks/virtio_blk.c:361-386 | The path through a transfer buffer, whatever the buffer held before. |
| BlockIo.Disk.VblkWrite | src/kernel/hardware/disks/virtio_blk.c:361-386 | The same for writing; refusals change nothing, and whatever the outcome each byte of the disk is as it was or the caller's byte for that place. |
| BlockIo.Disk.WriteSpan | src/kernel/hardware/disks/virtio_blk.c:361-386 | The path through a transfer buffer: read, change, write back; what surrounds the bytes in their sectors stays, even when the write fails. |
| BlockIo.ReadsRightIff | src/kernel/hardware/disks/virtio_blk.c:361-386 | An unaligned read is right for every disk and buffer if and only if its sectors span less than 2^32 bytes. |
| BlockIo.WritesRightIff | src/kernel/hardware/disks/virtio_blk.c:361-386 | The same for an unaligned write. |
| BlockIo.LongReadWrong | src/kernel/hardware/disks/virtio_blk.c:361-386 | A disk and a buffer on which a longer one succeeds with wrong bytes. |
| BlockIo.LongWriteWrong | src/kernel/hardware/disks/virtio_blk.c:361-386 | A disk and data on which a longer one succeeds without storing all of it. |
| BlockIo.WrongRead | src/kernel/hardware/disks/virtio_blk.c:361-386 | For each unaligned range whose sectors span 2^32 bytes or more: a disk on which the call itself returns success with wrong bytes. |
| BlockIo.WrongWrite | src/kernel/hardware/disks/virtio_blk.c:361-386 | The same for writing: success, and the range does not hold the data. |
| Dma.AddSegmentFlat | src/kernel/hardware/memory/dma.c:91-120 | Adding a run extends the list by exactly its bytes in order, merged or not. |
| Dma.AddSegmentGood | src/kernel/hardware/memory/dma.c:91-120 | No segment crosses the boundary or exceeds the size, the count or the address limit. |
| Dma.LoadFlat | src/kernel/hardware/memory/dma.c:122-149 | A loaded list names exactly the buffer's physical bytes, in order. |
| Dma.LoadGood | src/kernel/hardware/memory/dma.c:122-149 | And keeps to all limits, the first segment aligned. |
| Dma.NoneCrosses | src/kernel/hardware/memory/dma.c:23-26 | In plain division: every byte of every segment lies in the boundary block of the segment's first byte. |
| Dma.AlignedWithin | src/kernel/hardware/memory/dma.c:45-68 | The aligned pages are within those obtained, and the tail given back is what is left. |
| DmaMaps.AddSegments | src/kernel/hardware/memory/dma.c:91-120 | The cutting loop is the function the two results are about. |
| DmaMaps.LoadBuffer | src/kernel/hardware/memory/dma.c:122-149 | So is the page loop, with its bounce and failure outcomes. |
| DmaMaps.ReserveKeeps | src/kernel/hardware/memory/dma.c:70-89 | A bounce buffer, old or new, is long enough and suits the tag. |
| DmaMaps.MapLoadExact | src/kernel/hardware/memory/dma.c:315-343 | On success the segments are the buffer's bytes or the bounce buffer's, in order and within every limit; on failure the map is as loaded or unloaded as it was. |
| DmaMaps.DeviceReadsBuffer | src/kernel/hardware/memory/dma.c:357-369 | After the pre-write sync the device reads through the segments what the buffer holds. |
| DmaMaps.BufferHoldsDevice | src/kernel/hardware/memory/dma.c:357-369 | After the post-read sync the buffer holds what the device wrote through the segments if and only if that agrees wherever bytes of the buffer share a physical byte, so always when none do. |
| Grid.ScrollUpMeans | src/kernel/drivers/terminal/vt.c:49-56 | Cell by cell: rows move up by n, the last n are blank, rows outside stay. |
| Grid.ScrollDownMeans | src/kernel/drivers/terminal/vt.c:58-65 | Rows move down by n, the first n are blank, rows outside stay. |
| Grid.ShiftLineMeans | src/kernel/drivers/terminal/vt.c:304-318 | Inserting opens blanks at the cursor and pushes the rest right, deleting pulls it left and blanks the end; other lines stay. |
| Grid.FillKeeps | src/kernel/drivers/terminal/vt.c:38-47 | A fill keeps the grid's shape and flags every row it changes. |
| Vt.PutcSteps | src/kernel/drivers/terminal/vt.c:520-557 | Whatever byte comes, cursor, saved cursor and every cell write stay in bounds, parameters and reply stay in their arrays, and every changed row is flagged. |
| VtRuns.EveryInputIsSafe | src/kernel/drivers/terminal/vt.c:520-557 | The same for every byte sequence. |
| VtRuns.NumberIsRead | src/kernel/drivers/terminal/vt.c:493-518 | Typing any number leaves its first five digits in its parameter and changes nothing else: the number itself if and only if it has no more. |
| VtRuns.ParametersAreRead | src/kernel/drivers/terminal/vt.c:447-518 | Any list of numbers typed between ESC [ and the final byte: the first fifteen, each by its first five digits, are the parameters in order, and all from the sixteenth on are typed into the sixteenth. |
| VtRuns.SequenceActs | src/kernel/drivers/terminal/vt.c:493-557 | A whole control sequence, for any list of numbers, is its function applied to those parameters. |
| VtRuns.FewRightIff | src/kernel/drivers/terminal/vt.c:493-518 | Up to sixteen numbers are the parameters if and only if each has at most five digits. |
| VtRuns.SixteenRightIff | src/kernel/drivers/terminal/vt.c:493-518 | Of sixteen or more the first sixteen are the parameters if and only if each of them has at most five digits and none follows, or the sixteenth has five already, or it and all that follow are zero. |
| VtRuns.CursorIsAddressed | src/kernel/drivers/terminal/vt.c:320-445 | The sequence for cursor addressing, for any numbers, goes to the one-based row and column, or the nearest edge, draws nothing and drops a pending wrap. |
| VtRuns.ReportIsExact | src/kernel/drivers/terminal/vt.c:156-166 | With room for it the answer to a position request is the whole report, whose digits read as the position. |
| VtMeaning.ErasesExactly | src/kernel/drivers/terminal/vt.c:320-445 | The bytes of an erase (display, line, characters) blank, in the pen's colours, exactly the cells before, after or around the cursor that the function and its number name; every other cell, cursor and pen stay. |
| VtMeaning.CursorShows | src/kernel/drivers/terminal/vt.c:417-425 | The cursor ends shown or hidden as the final byte says if and only if the sequence is private and 25 is among its parameters; otherwise it stays as it was. |
| VtMeaning.LineFills | src/kernel/drivers/terminal/vt.c:219-232 | Letters typed from the start of a line move the cursor one column each; a wrap is pending exactly when the line is full. |
| VtMeaning.PenIsDressed | src/kernel/drivers/terminal/vt.c:246-302 | The bytes of a rendition sequence, for every list of styles whose numbers fit (extended colours take theirs with them), leave the pen with those styles put on in order, and change nothing else; none at all gives the default pen. |
| VtMeaning.AnyPen | src/kernel/drivers/terminal/vt.c:258-302 | Every pen can be asked for by its spelling, whatever the pen was. |
| VtMeaning.SavedComesBack | src/kernel/drivers/terminal/vt.c:168-185 | A save, any bytes that do not save again or reset, and a restore bring back the cursor and the pen of the save; the cells are what the bytes in between made them. |
| VtMeaning.BytesWrapAtEnd | src/kernel/drivers/terminal/vt.c:219-232 | Over every byte sequence a wrap is pending only in the last column. |
| VtSize.CreatedIsBlank | src/kernel/drivers/terminal/vt.c:95-109 | Whatever the memory held, a new terminal is blank, flagged and in order. |
| VtSize.ResizedOk | src/kernel/drivers/terminal/vt.c:111-143 | A new size keeps the terminal in order; a pending wrap stays at the line's end if and only if none was pending or the lines did not grow. |
| VtSize.ResizedCell | src/kernel/drivers/terminal/vt.c:111-143 | Cell by cell: the old text moved up so that the cursor's row stays, blanks around it. |
| VtSize.CursorKeepsItsText | src/kernel/drivers/terminal/vt.c:111-143 | The character under the cursor stays under it while its column is there, on the bottom row when rows had to go. |
| VtSize.GrowAndBack | src/kernel/drivers/terminal/vt.c:111-143 | A larger size and back again changes nothing but the flags. |
| VtSize.TriedSizeIff | src/kernel/drivers/terminal/vt.c:111-121 | A terminal has the size asked for if and only if there was memory or nothing to do. |
| VtSize.FilledIff | src/kernel/drivers/terminal/terminal.c:26-40 | Drawing a whole grid reaches every place of a screen if and only if the grid is as large both ways. |
| VtSize.ModeShows | src/kernel/drivers/terminal/terminal.c:26-40 | After a mode change that may find no memory: the screen is exactly the grid if there was memory or nothing to do, and no place keeps what it showed before if and only if there was memory or the old grid is as large as the screen. |
| Terminal.ApplyKeeps | src/kernel/drivers/terminal/terminal.c:26-189 | Output, switches, mode changes and single rows of a refresh keep: clean rows of the shown terminal are on the screen, and rows not yet drawn are flagged or pending. |
| Terminal.RunKeeps | src/kernel/drivers/terminal/terminal.c:26-189 | So does every interleaving. |
| Terminal.QuietScreen | src/kernel/drivers/terminal/terminal.c:42-64 | With no refresh pending or under way the screen is the shown grid. |
| Terminal.ScreenAgrees | src/kernel/drivers/terminal/terminal.c:26-189 | After every interleaving both hold. |
| Terminal.StartsInOrder | src/kernel/drivers/terminal/terminal.c:77-99 | Whatever memory and screen held, the terminals start in order and the screen shows the first of them, blank. |
| Terminal.ScreenAgreesFromStart | src/kernel/drivers/terminal/terminal.c:26-189 | So the screen agrees in every run from the start. |
| Terminal.WrapLeftBehind | src/kernel/drivers/terminal/terminal.c:77-140 | From the start, a line filled with text and a change to a wider mode leave a wrap pending in mid-line. |
| Terminal.RefreshDrawsAll | src/kernel/drivers/terminal/terminal.c:42-64 | A refresh left to itself ends with the whole grid on the screen. |
| TerminalCalls.Screen.FillCells | src/kernel/drivers/terminal/vt.c:38-47 | The cell loop. |
| TerminalCalls.Screen.FlagRows | src/kernel/drivers/terminal/vt.c:38-47 | The row loop. |
| TerminalCalls.Screen.MoveCells | src/kernel/drivers/terminal/vt.c:49-65 | An overlapping move copies what was there before. |
| TerminalCalls.Screen.FillRange | src/kernel/drivers/terminal/vt.c:38-47 | Both loops are the fill. |
| TerminalCalls.Screen.Redraw | src/kernel/drivers/terminal/vt.c:49-65 | Move, fill and flags together are one redraw of the rows. |
| TerminalCalls.Screen.ScrollRowsUp | src/kernel/drivers/terminal/vt.c:49-56 | Is the scroll up. |
| TerminalCalls.Screen.ScrollRowsDown | src/kernel/drivers/terminal/vt.c:58-65 | Is the scroll down. |
| TerminalCalls.Screen.ShiftCells | src/kernel/drivers/terminal/vt.c:304-318 | Is the line shift. |
| TerminalCalls.Screen.DrawCells | src/kernel/drivers/terminal/terminal.c:26-33 | The drawing loop copies exactly the row's cells. |
| TerminalCalls.Screen.FlushRow | src/kernel/drivers/terminal/terminal.c:26-33 | Draws a flagged row and clears its flag; a clean row is left. |
| TerminalCalls.Screen.FlushAll | src/kernel/drivers/terminal/terminal.c:35-40 | Draws all flagged rows. |
| VtCalls.CollectDigits | src/kernel/drivers/terminal/vt.c:156-166 | The digit loop yields the decimal digits, last first. |
| VtCalls.Machine.OneRendition | src/kernel/drivers/terminal/vt.c:258-302 | One turn leaves the same fold to do from the next parameter on. |
| VtCalls.Machine.SetRendition | src/kernel/drivers/terminal/vt.c:258-302 | The loop is the fold over the parameters, extended colours skipping theirs. |
| VtCalls.Machine.Respond | src/kernel/drivers/terminal/vt.c:150-154 | Adds as much of the text as there is room for. |
| VtCalls.Machine.RespondNumber | src/kernel/drivers/terminal/vt.c:156-166 | Adds the decimal digits, as far as there is room. |
| VtCalls.Machine.Work | src/kernel/drivers/terminal/vt.c:320-445 | Cells, cursor and reply in that order are the function as a whole. |
| VtCalls.Machine.ShowCursor | src/kernel/drivers/terminal/vt.c:320-445 | The loop over private modes. |
| VtCalls.Machine.ResizeCells | src/kernel/drivers/terminal/vt.c:122-129 | The two loops fill a new array with the carried cells. |
| VtCalls.Machine.PutByte | src/kernel/drivers/terminal/vt.c:520-557 | Is the step the safety results are about, for every byte in every mode. |
| Stackwalk.WalkEntries | profiler/kernel/stackwalk.c:8-57 | Every entry is a kernel text address or the trap's return. |
| Stackwalk.WalkBounded | profiler/kernel/stackwalk.c:8-57 | The unbounded walk ends, with at most two entries for each eight bytes of stack above the start. |
| Stackwalk.Walks | profiler/kernel/stackwalk.c:8-57 | Returns the first max entries of the unbounded walk, truncated exactly when it has more, reading only words inside the stack. |
| ProfilerLog.RecordRead | profiler/kernel/profiler.c:199-251 | Where a record was written, the host's fields are those of the sample. |
| ProfilerLog.ParseReadsBack | profiler/host/samples.py:76-90 | Parsing any row of records yields their samples in order, without an error. |
| ProfilerRuns.TakeKeeps | profiler/kernel/profiler.c:199-251 | A sample, recorded or dropped, keeps the buffer a row of records and the counters right. |
| ProfilerRuns.RoundReadsBack | profiler/kernel/profiler.c:199-269 | For every sequence of samples: the host reads from the written part exactly the recorded ones, which are the first of those taken; counters agree; the offset stays in the buffer; interrupts are samples plus dropped. |
| ProfilerRuns.FirstDrops | profiler/kernel/profiler.c:199-251 | Once one sample is dropped no later one of the round is recorded. |
| ProfilerRuns.Recorder.constructor | profiler/kernel/profiler.c:157-165 | Counters at zero and the buffer empty, as at the start of a round. |
| ProfilerRuns.Recorder.Store | profiler/kernel/profiler.c:199-251 | The stores of one record, at the offset. |
| ProfilerRuns.Recorder.Record | profiler/kernel/profiler.c:199-251 | Is the step the read-back result is about. |
| ProfilerRuns.ParseSamples | profiler/host/samples.py:76-90 | The loop is the parser of the round trip, errors included. |
| ExecStack.ImageFits | src/kernel/drivers/scheduler/process.c:631-704 | With the string limit the image fits the 8 MiB stack, with room for strings, vector and padding. |
| ExecStack.StackFits | src/kernel/drivers/scheduler/process.c:631-704 | The stack pointer is 16-byte aligned, and everything written lies in the image. |
| ExecStack.PushedBytes | src/kernel/drivers/scheduler/process.c:616-629 | The strings take exactly the bytes that were counted. |
| ExecStack.RegionFills | src/kernel/drivers/scheduler/process.c:631-704 | The bytes from the stack pointer to the top are vector, padding and strings, with nothing between or beyond. |
| ExecStack.StringsReadBack | src/kernel/drivers/scheduler/process.c:631-704 | Following the pointers at the stack pointer gives back the argument count, the arguments and the environment, each list ending at its null pointer. |
| ExecStack.AuxReadsBack | src/kernel/drivers/scheduler/process.c:631-704 | Each auxiliary pair reads back with its key and value; the file name and the random bytes are found behind theirs. |
| ExecCalls.CountStrings | src/kernel/drivers/scheduler/process.c:616-622 | Counts the strings and their bytes. |
| ExecCalls.Image.constructor | src/kernel/drivers/scheduler/process.c:631-704 | An image of the size asked for, nothing pushed. |
| ExecCalls.Image.Push | src/kernel/drivers/scheduler/process.c:624-629 | Puts bytes below those already pushed and changes none of them. |
| ExecCalls.Image.PushString | src/kernel/drivers/scheduler/process.c:624-629 | Pushes a string with its end, at the address the item has. |
| ExecCalls.Image.PushStrings | src/kernel/drivers/scheduler/process.c:631-704 | The loop collects exactly the addresses the strings got. |
| ExecCalls.Image.PushRequest | src/kernel/drivers/scheduler/process.c:631-704 | Path, random bytes, arguments and environment, in that order. |
| ExecCalls.Image.Align | src/kernel/drivers/scheduler/process.c:631-704 | Moves the pointer, aligned, below the strings and clears the padding. |
| ExecCalls.Image.Clear | src/kernel/drivers/scheduler/process.c:631-704 | The bytes between vector and strings become zero, those above stay. |
| ExecCalls.Image.PutWord | src/kernel/drivers/scheduler/process.c:631-704 | Stores eight bytes, the least significant first, and no other. |
| ExecCalls.Image.Append | src/kernel/drivers/scheduler/process.c:631-704 | Stores the next word of the vector; what was stored before and all above stays. |
| ExecCalls.Image.AppendAll | src/kernel/drivers/scheduler/process.c:631-704 | Stores a row of pointers. |
| ExecCalls.Image.AppendAux | src/kernel/drivers/scheduler/process.c:631-704 | Stores the auxiliary pairs, which end the vector. |
| ExecCalls.Image.StoreVector | src/kernel/drivers/scheduler/process.c:631-704 | Stores count, pointers, ends and auxiliary pairs, and nothing above the vector. |
| ExecCalls.Image.PlaceVector | src/kernel/drivers/scheduler/process.c:631-704 | Vector, cleared gap and the strings as they were, from an aligned stack pointer. |
| ExecCalls.Build | src/kernel/drivers/scheduler/process.c:631-704 | The image is the one the read-back results are about. |
| ExecCalls.SetupStack | src/kernel/drivers/scheduler/process.c:631-704 | Fails with E2BIG exactly beyond the string limit, with the map's error or ENOMEM when memory is refused, and otherwise writes that image at that stack pointer. |

## Left out

- Port I/O, machine registers, context switch assembly, FPU state, TLB invalidation and
  inter-processor interrupts are abstract atomic steps or absent.
- Weak memory ordering: locked sections and atomics are sequentially consistent steps.
- The red-black tree's colours: the wait tree is any search tree, and rotations are proved
  harmless.  The lists, the spinlock and the page allocator are sequences, an owner and a
  supply of unused pages.
- Lost timeouts in `sleep_timeout_checked`: the flag is not looked at again under the
  scheduler lock, so nothing is claimed about them.
- process_exec beyond its stack image, process_clone's copying of memory and files, wait4's
  choice of child, file tables and credentials: plain record keeping over the states above.
- PollWait.NoLostPollWakeup: a wake-up can be lost after a multiple of 2^64 others; the
  condition is exact (`PollWait.SleepLosesIff`), so nothing stronger is true.
- Futex.NoLostFutexWakeup: counts waiters by key, as the code does; for one word's waiters
  the condition is in `Futex.OwnWaitersIff`.
- SignalRuns.RoundTripAtAnyDepth: general registers, instruction and stack pointer and user
  flags; floating-point state is not in the model.  Runs that write over the frame, by a
  new one or by user code, are excluded, as are those that return past it.
- SpaceFree.FreeVmExact: for entries as the kernel wrote them; what accessed bits change is
  in `SpaceMarks`.  It counts the frames last-level entries name; whether other spaces share
  those is a matter of reference counts, which are not modelled.
- AddressSpaces.MapPageInKeeps: for pages of the space's own half, or of the kernel's.
- SpaceBoot.BootIsSound: memory regions below 128 TiB, so that direct mappings do not wrap
  into other addresses; frames come cleared and distinct, and there are five to start with.
- HeapCalls.Allocator.Release: looks for a block in use that starts at the address.  The code
  trusts the mark word in memory before the pointer instead, so a wild pointer just behind
  such a word is freed there and ignored here.
- HeapCalls.Allocator.GetPages: a supply that never repeats stands for the page allocator.
- HeapCalls.Allocator.Malloc: one caller, and pages from that supply; the general case of any
  fresh pages and any number of CPUs is in `Heap`.
- realloc, calloc and the memory copy routines.
- VirtioAvail.TakesInOrder: the device reports nothing it has not taken; without that the
  ring's entries need not head chains (`VirtioAvail.DanglesFromStart`).
- VirtioRuns.EveryRunAccounts: requests are serialised from slot claim to publication, and
  the device reports no more ids than the ring has room for; both are guards of the steps.
- The wait for a request, its retry on no free slot, and the status byte's mapping to an
  error code.
- dma_tag_create's inheritance of limits, map creation and the page walk of translate, which
  is a map from page to frame here.
- ATA commands and the choice between DMA and PIO: a command reads or writes whole sectors
  or fails.
- Terminal.ApplyKeeps: the screen is an array of cells; fonts and the cursor's own drawing
  are left out, and a mode change finds memory for every terminal.  One that finds none
  keeps its old size while the screen has the new one; `VtSize.ModeShows` says what then
  shows.
- VtCalls.Machine.ResizeCells: the loops of vt_resize; that the new arrays then replace the
  old is on values, in `VtSize`.
- VtMeaning.SavedComesBack: the parser is between sequences at the restore.
- Profiler arming, the overflow interrupt's bookkeeping beyond its counters, parse_control,
  and the host's session, symbol and machine handling.
- Acyclicity of nested epoll sets, the virtual file system, areas of virtual memory and the
  network code.
