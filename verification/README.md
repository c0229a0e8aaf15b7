# Ignium kernel: a Dafny model

Ignium is a RISC-V microkernel written in Rust. This project models the parts of it that keep the most state and
proves what they guarantee over every run: the scheduler with synchronous IPC and priority donation, the buddy
allocator, Sv39 page tables, the kernel heap, blocking mutexes and condition variables, page capabilities, ELF
loading and the merging of reserved memory ranges. `dafny verify dfyconfig.toml` checks all of it.

## How it is built

Every part has a model on values (a datatype for the state, a function per operation), lemmas about that model, and,
where the kernel updates things in place, a class whose methods are proved equal to those functions. The theorems
over all runs are about the values; the classes carry them over to the loops and the memory of the kernel.

| part | values and theorems | in place |
|---|---|---|
| scheduler (`sched.rs`) | `ReadyQueues`, `SchedModel`, `SchedDonations`, `SchedPick`, `SchedSteps`, `SchedWake`, `SchedTick`; turns and slices: `SchedTurns`, `SchedRounds`; the store after the lock: `SchedSaves`, `SchedRaces` | `SchedulerObject` |
| IPC (`ipc.rs`) | `IpcModel`, `IpcSystem`, `IpcRuns`; what callers get: `IpcMessages`, `IpcAnswers`, `IpcTransfer`; slices and donations in runs: `IpcRounds`, `IpcChains`; runs that break it: `IpcCases` | `IpcObject` |
| buddy allocator (`mem.rs`) | `Bits`, `BuddyModel`, `BuddyInit`, `BuddyRuns`, `BuddyTheorems`, `BuddyOrder`, `BuddyCoalescing` | `BuddyAllocator` |
| page tables (`mmu.rs`) | `MmuModel`, `MmuOps`, `MmuGrowth`, `MmuKernel`, `MmuGuards`, `MmuDestroy` | `MmuObject` |
| heap (`heap.rs`) | `HeapModel`, `HeapOps`, `HeapRuns`, `HeapBuddy` | `HeapMemory`, `HeapSteps`, `HeapObject` |
| mutex and condition variable (`sync.rs`) | one hart: `Sync`, `SyncOrder`; the mutex on several harts: `SyncHarts` | |
| page capabilities (`pages.rs`, `process.rs`) | `Pages`, `PageCalls`, `PageRuns`; interleaved sections: `PageGrants`, `PageRaces`, `PageOrders`, `PageLate` | `PageObject` |
| ELF (`elf.rs`) | `ElfParse`, `ElfFormat`, `ElfLoad`, `ElfMemory`, `ElfStack`, `ElfImage`, `ElfErrors` | `ElfObject`, `ElfParse.ParseFile`, `ElfStack.BuildUserStack` |
| reserved ranges (`fdt.rs`) | `Fdt` | `Fdt.BoardParams` |

A critical section (a lock held) is one step. The scheduler and IPC run as one machine over all harts (`IpcRuns`):
between "registered", "donated" and "blocked", and between pairing and delivery, every other hart may take steps.
Callers are user threads, which have interrupts off in that window, and kernel threads, which may be preempted in it.
What a thread saved last is tracked beside the thread (`latest`), so "resumed from stale state" can be said.

Some places of the kernel split one action over several critical sections, and are modelled that way on top. A
cooperative switch decides under the scheduler lock and stores the registers of the old thread only afterwards: in
`IpcRuns` the store is part of the deciding step, in `SchedSaves` it is a later step of its own. `mem_grant` reads,
hands over and writes in seven separate sections: in `Pages` and `PageRuns` a grant is one step, that is, a call nothing
else interrupts; in `PageGrants` its sections interleave with those of other grants and with whole other calls, and in
`PageOrders` the writes of two grants come in any order. `mem_map`, `cap_revoke` and `destroy` read first and write later:
`PageLate` has their late halves. `Mutex::lock` and `unlock` touch the lock word and the queue one after the other: in
`SyncHarts` each access is a step.

An ELF image is loaded into the page tables of `MmuModel` themselves: tables and data pages come from one pool, in the
order the kernel takes them.

## Where the code does less than its comments say

Each is proved as it is, with an input that shows it and the exact condition.

- A cooperative switch stores the old thread's registers after the lock is released. The latest save of every thread is
  in place or on its way exactly as long as no kernel thread is moved to another hart, and no slot is given to a new one,
  while a store for it is outstanding (`StepSoundIff`, `RunSoundIff`); then every load, also by a tick, is of the latest
  save (`RunLoadsLatest`). In both other cases a thread gets a context that is not its latest, in runs from boot
  (`LateStore`, `EarlyLoad`, `RacesReachable`).
- A kernel thread in an IPC call blocks with `block_current`, which a wake-up recorded earlier lets return at once. The
  call is kept exactly when its result is there already or no wake-up is recorded (`KernelBlockIff`); otherwise the
  entry stays queued and nobody waits for it (`StaleWake`, `CallerReachable`). A wake-up breaks the invariant at once exactly
  when its thread sleeps in a call (`WakingIff`).
- `mem_grant` works on what it read in earlier critical sections. While no two calls in progress use the same slot every
  page keeps one holder (`RunGood`). Of two grants whose checks passed together, with their writes in any order, all is
  right exactly when they share neither slot or both (`AnyOrderIff`, `RaceIff`): with one destination a page is left
  without a holder (`LostInRace`), with one source it has two (`TwoHoldersInRace`). A peer that dies in the middle does no
  harm (`PeerDies`).
- `mem_map`, `cap_revoke` and `destroy` act on what they read before they wrote. They keep the page invariant exactly when
  the mapping is not made or the page is still the caller's at that address (`LateMapIff`), when the page is revoked
  already or still in that slot (`LateRevokeIff`), and when the process still owns exactly the pages collected
  (`LateDestroyIff`). A grant in between breaks each (`MappedAfterGrant`, `RevokedAfterGrant`, `EndedAfterGrant`).
- `Mutex::lock` calls its second attempt unreachable, which is so on one hart (`OneHartRun`). On several harts it takes the
  last registration back, whosever that is: the queue stays right and no wake-up is lost exactly when it is always its
  own (`SyncHarts.RunInvIff`). Otherwise a thread may sleep forever beside a free mutex (`WaiterForgotten`,
  `StaysForgotten`). Mutual exclusion holds in any case (`RunExclusive`).
- `carve` tests "overlaps nothing" before "lies inside": a page is withheld exactly when some aligned block around it is
  overlapped by one range and contained in a later one (`CarvedWithholds`, `ReservedTwice`). With disjoint ranges every
  page becomes free, reserved or not (`CarvedReservesNothing`, `ReservedButFree`); with the two tests exchanged exactly
  the reserved pages are withheld (`CarvedInsideFirst`, a variant and not the code).
- `carve` may leave two free siblings side by side, which nothing merges before one of them is allocated and freed. It
  does so exactly when a range cuts a block and neither of its halves (`CarvedCoalescedIff`), with disjoint ranges
  exactly when a range cuts any block (`DisjointCoalescedIff`, `CutPages`). No free siblings side by side is exactly what
  it takes for the free blocks to be the maximal runs of free pages (`CoalescedIffMaximal`), and for every run that frees
  everything to restore the free lists (`RestoresIff`). From any other start too, each block ends up inside one free
  block (`FreedRunGrows`).
- `free` leaves the head metadata of an upper sibling that merges. A second `free` of the same address is refused
  exactly when there was no level at which the block is the upper sibling and up to which all its siblings were free
  (`DoubleFreeRefusedIff`, `DoubleFreeExample`).
- `register_donation` replaces an entry of the same donor but requeues only the new peer's threads; the queues stay right
  exactly when no queued thread of the old peer loses by it (`RegisterIff`, `DonationReplaced`). IPC never gets there
  (`NoDonationYet`).
- A donation carries the effective priority of the donor at that moment and is not raised later. Along a chain of callers
  that blocked in its order the last process stands at least at the natural priority of the first (`ReachableLifts`); when
  the second link was made before the first it does not (`InOrderLifts`, `LateLink`, from boot: `ChainBroken`).
- A sender's acknowledgement that arrives before the sender has blocked clears `a1..a5`; arriving later it leaves them.
  The two orders agree exactly when the words sent were all zero; for messages and errors they always agree
  (`EitherOrder`, `EarlyAckClears`).
- A listening receive takes no message that is queued already, so a later message of the same sender can overtake
  (`SendInOrder`, `OvertakingExample`).
- `cap_duplicate` may overwrite a page capability and strand the page; it keeps the ownership invariant exactly when
  the target slot holds no page (`CapDuplicateIff`, `OverwriteExample`).
- A failed load promises to leave nothing behind. It returns its data pages but keeps the tables it made (`TablesStay`),
  and a stack page whose tables cannot be made is not given back (`FailedLoadPages`, `StackPageLost`). Every translation
  is as before (`FailedLoadRestores`).
- An ELF file may be refused for overlap although no page is shared: a segment without pages clashes with one it lies in,
  and on equal addresses the file order decides (`RefusedIff`, `EmptyInside`, `EmptyFirst`, `EmptySecond`). Without such
  segments it is refused exactly when a page is shared (`OverlapIff`).
- `purge_process` drops the dead process's own entries without a result; the machine stays right exactly when there are
  none (`PurgeStepIff`; from boot: `PurgedSender`).
- `map_super` over a table loses the table (`MapSuperIff`, `SuperOverTable`).
- `split_superpage` keeps every translation exactly when the superpage is aligned, or is one that Sv39 rejects anyway
  (`SplitSuperpageOk`, `MisalignedSplit`, `UnmapKernel4kIff`).

## Model

| member | source | states |
|---|---|---|
| `IpcRuns.RunKeeps` | kernel/src/sched.rs:1107-1323 | every interleaving of scheduler and IPC steps on all harts keeps: queues right, one token per unfinished IPC operation, donations only for unfinished operations, no send beside a receive that names it |
| `IpcRuns.StepKeeps` | kernel/src/sched.rs:1760-1855 | every step keeps that invariant; with stores taken as immediate, a thread that a step resumes, other than an idle thread, continues from its latest save, a user thread only from its frame (late stores: `SchedSaves`) |
| `IpcRuns.ReachableSafe` | kernel/src/sched.rs:920-975 | from boot on: a thread is queued exactly while ready, on its hart and at its effective priority; a thread that sleeps in an IPC call, as every blocked user thread does, is awaited by exactly one entry or result; nothing in flight means no donation |
| `IpcRuns.BootInv` | kernel/src/sched.rs:920-975 | the state after `init` satisfies the invariant |
| `IpcRuns.HartKeeps` | kernel/src/sched.rs:1073-1167 | yield, block, exit, idle rounds and ticks on one hart disturb no IPC operation, also when they preempt a kernel thread inside its call |
| `IpcRuns.SpawnKeeps` | kernel/src/sched.rs:673-834 | a new thread, also in a reused slot, is in no IPC operation |
| `IpcRuns.WakingIff` | kernel/src/sched.rs:1199-1212 | a plain wake keeps the invariant exactly when its thread does not sleep in an IPC call |
| `IpcRuns.StaleWake` | kernel/src/sched.rs:1142-1147 | a kernel thread that was woken while it ran and then finds nobody to receive from does not block: it is in no call, has got no message, and its entry is still queued |
| `IpcRuns.CallerReachable` | kernel/src/sched.rs:2283-2290 | from boot, two steps lead to a state in which a kernel thread can make that call |
| `IpcRuns.MailWaits` | kernel/src/sched.rs:1050-1060 | once a call is over the mailbox of its thread changes only when the thread takes the message |
| `IpcRuns.MovingKeeps` | kernel/src/sched.rs:1901-1919 | an affinity change keeps the invariant |
| `IpcSystem.SendStepInv` | kernel/src/ipc.rs:125-182 | a send keeps the invariant: it pairs with exactly one receive, whose entry becomes a result on its way, or leaves exactly one entry (which words arrive: `IpcTransfer.MessageArrives`) |
| `IpcSystem.RecvStepInv` | kernel/src/ipc.rs:236-294 | the same for a receive, named or listening |
| `IpcSystem.PurgeStepIff` | kernel/src/ipc.rs:195-230 | a purge turns every removed entry of a survivor into one error on its way, and keeps the invariant exactly when the process had no entry of its own |
| `IpcSystem.BlockedIsAwaited` | kernel/src/ipc.rs:153-174 | a thread that sleeps in an IPC call, user or kernel, has exactly one queue entry or one result on its way |
| `IpcSystem.OneResult` | kernel/src/ipc.rs:153-174 | at most one result is on its way to a thread, so it gets its results in the order of its calls |
| `IpcSystem.DonateStepInv` | kernel/src/sched.rs:1039-1046 | registering a donation never overwrites another, never lacks room, and puts the peer threads at their new level (which level: `IpcChains.DonateMoves`) |
| `IpcSystem.BlockStepInv` | kernel/src/sched.rs:1760-1819 | a user thread whose result came first takes it and does not block; any other blocks; the donation ends with the operation |
| `IpcSystem.KernelBlockIff` | kernel/src/sched.rs:1107-1158 | a kernel thread takes a result that came first, else blocks if no wake-up is recorded; the invariant survives exactly then, otherwise the call returns with its entry or result outstanding |
| `IpcSystem.DeliverStepInv` | kernel/src/sched.rs:1227-1323 | a delivery reaches a thread that still waits for it, writes it or keeps it, and finishes or continues the operation accordingly |
| `IpcSystem.NoDonationYet` | kernel/src/sched.rs:387-406 | a thread that has not donated owns no table entry |
| `IpcSystem.NothingInFlight` | kernel/src/sched.rs:410-427 | without an IPC operation in flight the donation table is empty |
| `IpcSystem.DonationLifts` | kernel/src/sched.rs:337-381 | while a donation exists every queued thread of the peer process stands at least at the donated priority |
| `IpcSystem.Addressee` | kernel/src/sched.rs:1227-1281 | a result on its way belongs to an unfinished operation of a thread for which nothing is kept yet |
| `IpcTransfer.MessageArrives` | kernel/src/ipc.rs:153-167 | whatever the harts do between: a waiting receiver whose entry a send takes finds that send's words, a user thread in a1..a5 with 0 in a0 and sepc behind its call, a kernel thread in its mailbox |
| `IpcTransfer.ErrorArrives` | kernel/src/ipc.rs:195-230 | a survivor whose entry a purge removes gets the error, in a0 or in its mailbox, and nothing else in a1..a5 |
| `IpcTransfer.AckArrives` | kernel/src/ipc.rs:268-284 | a sender whose queued message is taken gets success, early with a1..a5 cleared, else with them untouched |
| `IpcTransfer.SendQueues` | kernel/src/ipc.rs:168-174 | a send without a receiver leaves an entry with its words, of its thread and process, for its peer |
| `IpcTransfer.QueuedMessageFetched` | kernel/src/ipc.rs:236-294 | whatever happens between: the receive that takes a queued message returns the words that were sent, to a thread of the addressed process that named the sender |
| `IpcTransfer.RegistersCross` | kernel/src/syscall.rs:82-136 | between user threads: the receiver ends with a1..a5 as the sender had them when it called |
| `IpcTransfer.ReturnedLaw` | kernel/src/syscall.rs:82-136 | a call that is paired at once leaves 0 in a0, the words received in a1..a5 or a sender's own, sepc four further, and no other register changed |
| `IpcMessages.WrittenLaw` | kernel/src/sched.rs:1246-1275 | the register law of a delivery: a0 the code or 0, a1..a5 the words of a message and otherwise unchanged, sepc four further, no other register changed |
| `IpcMessages.StepOwed` | kernel/src/sched.rs:1227-1323 | a result that is settled stays owed, unchanged, through every step of every hart until its call ends |
| `IpcAnswers.EndAnswers` | kernel/src/sched.rs:1227-1323 | the step that ends a call hands over exactly the result that was owed |
| `IpcChains.RegisterMoves` | kernel/src/sched.rs:387-406 | a queued thread of the peer goes to the donor's effective level if that is better, every other stays at its own |
| `IpcChains.DonateMoves` | kernel/src/sched.rs:1039-1046 | the same for the step of a caller, in every state of the machine |
| `IpcChains.ChainLifts` | kernel/src/sched.rs:337-381 | along a chain of callers that blocked one after the other every queued thread of the last process stands at least at the natural priority of the first caller |
| `IpcChains.ReachableLifts` | kernel/src/sched.rs:387-406 | the same in every state reached from boot, by whatever interleaving |
| `IpcChains.InOrderLifts` | kernel/src/sched.rs:387-406 | three threads, donations in the order of the chain: the last stands exactly at the priority of the first |
| `IpcChains.LateLink` | kernel/src/sched.rs:387-406 | the same three threads, donations in the other order: the last stays behind the first |
| `IpcRounds.RunIsCourse` | kernel/src/sched.rs:519-599 | every run of the whole machine in which a hart keeps its thread until a tick takes it is one to which the round-robin theorems apply |
| `IpcRounds.StepElsewhere` | kernel/src/sched.rs:519-599 | no step of another hart, and no IPC step, changes what a hart runs or how far its slice is |
| `IpcCases.PurgedSender` | kernel/src/ipc.rs:195-230 | from boot: a thread sends, its process is purged, and its operation is unfinished with neither an entry nor a result |
| `IpcCases.SenderForgotten` | kernel/src/ipc.rs:195-230 | the same from every state in which nothing is queued |
| `IpcCases.ChainBroken` | kernel/src/sched.rs:387-406 | after boot and three new threads: donations in the wrong order leave the last thread behind the most urgent one |
| `IpcCases.DonationReplaced` | kernel/src/sched.rs:387-406 | after boot and two new threads a second donation leaves a thread in a queue that is not its own |
| `IpcModel.SendUnmatched` | kernel/src/ipc.rs:153-174 | after a send no pending send coexists with a receive that names its sender |
| `IpcModel.RecvUnmatched` | kernel/src/ipc.rs:268-284 | the same after a receive |
| `IpcModel.PurgeUnmatched` | kernel/src/ipc.rs:195-230 | the same after a purge |
| `IpcModel.PurgeCleans` | kernel/src/ipc.rs:195-230 | exactly the entries that name the dead process are removed, and each thread occurs as often before as in what remains, what is woken and what the dead process owned |
| `IpcModel.SendInOrder` | kernel/src/ipc.rs:153-174 | a send keeps the per-pair order exactly when it does not overtake a queued message |
| `IpcModel.RecvInOrder` | kernel/src/ipc.rs:268-284 | a receive hands out the oldest message of its pair |
| `IpcModel.PurgeInOrder` | kernel/src/ipc.rs:195-230 | a purge keeps the order for all pairs of survivors |
| `IpcModel.ReceivedIsPrefix` | kernel/src/ipc.rs:236-294 | per pair, what was received is a prefix of what was sent |
| `IpcModel.RunReceivesInOrder` | kernel/src/ipc.rs:125-294 | over every run with receives that name their sender, per pair the received messages are a prefix, in order, of those sent |
| `IpcModel.OvertakingExample` | kernel/src/ipc.rs:265-267 | a listening receive lets a second message arrive before the first |
| `IpcModel.Receiver` | kernel/src/ipc.rs:153-167 | the receive a send goes to: the first that names the sender, and only without one the first that listens; none only if there is neither |
| `IpcObject.IpcTable.Send` | kernel/src/ipc.rs:125-174 | the code on the two deques computes `IpcModel.Send`; a failed lookup changes nothing |
| `IpcObject.IpcTable.Recv` | kernel/src/ipc.rs:236-284 | the code computes `IpcModel.Recv` |
| `IpcObject.IpcTable.PurgeProcess` | kernel/src/ipc.rs:195-230 | the four retain passes compute `IpcModel.Purge`, wake-ups in order |
| `IpcObject.IpcTable.FindRecv` | kernel/src/ipc.rs:153-160 | the first receive by the destination that names the source |
| `IpcObject.IpcTable.FindSend` | kernel/src/ipc.rs:268-272 | the first send that the receive accepts |
| `IpcObject.SendsPasses` | kernel/src/ipc.rs:208-223 | two separate passes over the sends leave what one pass with both conditions leaves |
| `IpcObject.RecvsPasses` | kernel/src/ipc.rs:199-228 | the same for the receives |
| `SchedTick.TickInv` | kernel/src/sched.rs:519-599 | after a tick nothing that a tick could start is strictly better than the running thread; no switch to something worse; at slice end an equal one is preferred; what runs continues from its latest save (which ticks switch: `SchedRounds`) |
| `SchedTick.AnyOtherIff` | kernel/src/sched.rs:506-510 | the scan of the queues finds a thread exactly when one with that effective priority waits on the hart |
| `SchedTick.RotatePicks` | kernel/src/sched.rs:555-598 | the rotation takes the first startable thread of the best level, and the preempted one only when it is alone there |
| `SchedTick.RotateInv` | kernel/src/sched.rs:555-598 | the second half of a tick keeps the invariant |
| `SchedRounds.TickClock` | kernel/src/sched.rs:519-599 | a tick that does not switch counts one further, modulo the slice; a switch starts a new slice |
| `SchedRounds.SliceEnds` | kernel/src/sched.rs:519-599 | from any right state, wherever the slice stands: while another startable thread is as urgent as the running one, the hart switches before it has had SLICE_TICKS ticks |
| `SchedRounds.RoundRobin` | kernel/src/sched.rs:519-599 | a thread at the best level with k others before it runs before its hart has had (k+1) SLICE_TICKS ticks, with other steps in between that keep it in line |
| `SchedRounds.EachRuns` | kernel/src/sched.rs:519-599 | every thread queued at the best level runs before as many slices have passed as the queue is long |
| `SchedRounds.TickCounts` | kernel/src/sched.rs:519-547 | with an equally urgent thread waiting a tick switches, or counts one further and changes nothing else |
| `SchedTurns.YieldTurns` | kernel/src/sched.rs:1073-1100 | the yielding thread goes to the end of its queue and the first of the best queue runs; nothing more urgent waits afterwards |
| `SchedTurns.TakesItsTurn` | kernel/src/sched.rs:1073-1100 | by yields alone a thread of the best level behind k others runs after k+1 of them |
| `SchedTurns.BlockTurns` | kernel/src/sched.rs:1107-1158 | a kernel thread that blocks leaves its hart to the first of the best queue |
| `SchedTurns.TrapTurns` | kernel/src/sched.rs:1760-1819 | so does a user thread |
| `SchedTurns.ExitTurns` | kernel/src/sched.rs:1657-1741 | so does a thread that exits; its slot is the last to be reused |
| `SchedTurns.IdleTurns` | kernel/src/sched.rs:1944-1973 | an idle hart stays idle exactly when nothing is ready on it, else takes the first of the best queue |
| `SchedTurns.WakesOnce` | kernel/src/sched.rs:1142-1166 | a recorded wake-up is good for one block |
| `SchedTurns.TakeEmpties` | kernel/src/sched.rs:1050-1060 | taking a message returns what the mailbox held and empties it, and changes nothing else |
| `SchedTurns.AffinityMoves` | kernel/src/sched.rs:1901-1919 | a moved thread is on the hart asked for, last in its queue there if ready; nothing else changes |
| `SchedTurns.SpawnedLast` | kernel/src/sched.rs:673-834 | a new thread is last in its queue |
| `SchedTurns.SlotReused` | kernel/src/sched.rs:673-690 | the table grows only if no thread has exited, else the slot that was freed first is used again; no live thread changes |
| `SchedWake.EitherOrder` | kernel/src/sched.rs:1227-1323 | a0..a5 and sepc are the same whichever of wake and block came first, for messages and errors always, for acknowledgements exactly when the sent words are zero |
| `SchedWake.EarlyAckClears` | kernel/src/sched.rs:1767-1790 | an early acknowledgement clears a non-zero a1 |
| `SchedWake.EitherBox` | kernel/src/sched.rs:1227-1323 | a kernel thread finds a message or an error in its mailbox in either order, an acknowledgement leaves zeros there exactly when it comes early |
| `SchedWake.KeptWrites` | kernel/src/sched.rs:1767-1790 | writing what was kept equals writing the delivery, under exactly that condition |
| `SchedWake.DeliverInv` | kernel/src/sched.rs:1227-1323 | a delivery to a user or kernel thread keeps the invariant and changes only the addressee, and its donation |
| `SchedWake.BlockUserInv` | kernel/src/sched.rs:1760-1819 | blocking from a trap keeps the invariant, and either consumes a kept result or blocks and switches |
| `SchedSteps.YieldInv` | kernel/src/sched.rs:1073-1100 | a yield keeps the invariant and resumes the next thread from its latest save |
| `SchedSteps.BlockCurrentInv` | kernel/src/sched.rs:1107-1167 | a block consumes a wake-up that came already, or blocks; the invariant holds either way |
| `SchedSteps.AfterBlockInv` | kernel/src/sched.rs:1160-1166 | resuming after a block keeps the invariant |
| `SchedSteps.ExitInv` | kernel/src/sched.rs:1657-1741 | an exit frees the slot once and switches away |
| `SchedSteps.IdleRoundInv` | kernel/src/sched.rs:1944-1973 | a round of the idle loop keeps the invariant, although it refreshes no flags of the idle thread |
| `SchedSteps.WakeInv` | kernel/src/sched.rs:1199-1212 | a wake puts a blocked thread last at its effective level, flags any thread, and changes nothing else; the invariant stays |
| `SchedSteps.SetAffinityIff` | kernel/src/sched.rs:1901-1919 | a move between harts keeps every queue right exactly when it does not take an idle thread off its hart |
| `SchedSteps.SpawnInv` | kernel/src/sched.rs:673-834 | a new thread joins the queue of its level, in a reused or a new slot |
| `SchedSteps.SpawnOwnedInv` | kernel/src/sched.rs:1018-1034 | a thread that joins a process with donations is requeued at its lifted level |
| `SchedSteps.ExpandKeeps` | kernel/src/sched.rs:654-670 | the frame made from a saved context continues exactly there: its return address, stack pointer and saved registers, the global pointer, in supervisor mode and with interrupts on |
| `SchedSteps.KernelThread` | kernel/src/sched.rs:673-746 | a kernel thread starts at its entry with its stack, from its context or from its frame, which agree; ready, of no process, on its hart, its priority clamped to the levels there are |
| `SchedSteps.UserThread` | kernel/src/sched.rs:757-834 | a user thread starts from its frame only, at its entry, with its stack and arguments, with the mode bit for user mode; its priority is clamped |
| `SchedSteps.BootSchedInv` | kernel/src/sched.rs:920-975 | the scheduler after `init` is consistent |
| `SchedPick.PickShape` | kernel/src/sched.rs:263-310 | the pick takes the first acceptable thread of the best level that has one, or none is acceptable |
| `SchedPick.PickInv` | kernel/src/sched.rs:263-318 | after the current thread has left, the pick restores the invariant with the picked thread or the idle thread running |
| `SchedPick.Pick` | kernel/src/sched.rs:263-318 | apart from states and queues a pick changes nothing |
| `SchedDonations.RequeueInv` | kernel/src/sched.rs:358-381 | requeueing a process puts each of its queued threads at its new level and leaves the others in order |
| `SchedDonations.RegisterIff` | kernel/src/sched.rs:387-406 | registering keeps every queued thread at its effective priority exactly when it does not replace a donation that still lifts a queued thread of another process (what is donated: `IpcChains.RegisterMoves`) |
| `SchedDonations.RegisterInv` | kernel/src/sched.rs:387-406 | a donor without an entry gets one, and every thread stays at its effective priority |
| `SchedDonations.TableHasRoom` | kernel/src/sched.rs:395-403 | a thread without a donation always finds room in the table |
| `SchedDonations.RevokeInv` | kernel/src/sched.rs:410-427 | revoking a donor keeps every thread at its effective priority |
| `SchedDonations.RevokedInv` | kernel/src/sched.rs:410-427 | and leaves the donor no entry |
| `SchedDonations.SecondDonation` | kernel/src/sched.rs:387-406 | a donor that gives to a second process without taking the first donation back leaves a queued thread of the first at a level it no longer has |
| `SchedModel.BoostIsBest` | kernel/src/sched.rs:337-347 | the effective priority is the best of the natural one and all donations to the process |
| `SchedModel.BoostDetermined` | kernel/src/sched.rs:337-347 | and is determined by that |
| `SchedModel.QueuedExactly` | kernel/src/sched.rs:263-332 | a thread is in a queue exactly while ready, once, on its hart and at its effective priority |
| `SchedModel.Change` | kernel/src/sched.rs:327-332 | one thread changes with queues and free slots following it: the invariant stays |
| `ReadyQueues.RequeueQueues` | kernel/src/sched.rs:358-381 | taking the threads of a process out and putting them back at their places gives the right queues |
| `ReadyQueues.GatherFits` | kernel/src/sched.rs:361-372 | the 64-entry buffer of the requeue cannot overflow |
| `ReadyQueues.DropQueues` | kernel/src/sched.rs:492-500 | a queue that loses one thread leaves all others right |
| `ReadyQueues.PushQueues` | kernel/src/sched.rs:327-332 | a thread queued at its place leaves all queues right |
| `ReadyQueues.RotateOutFacts` | kernel/src/sched.rs:279-302 | rotating a queue past the threads that do not qualify loses none of them |
| `SchedulerObject.Scheduler.constructor` | kernel/src/sched.rs:920-975 | the object after `init` is the boot state |
| `SchedulerObject.Scheduler.EffPrio` | kernel/src/sched.rs:337-347 | the loop computes the effective priority |
| `SchedulerObject.Scheduler.Enqueue` | kernel/src/sched.rs:327-332 | the thread is pushed at its level and marked ready |
| `SchedulerObject.Scheduler.RemoveFromReady` | kernel/src/sched.rs:492-500 | the thread is removed from the queues of its hart |
| `SchedulerObject.Scheduler.PickNext` | kernel/src/sched.rs:263-318 | the scanning and rotating loops compute `Pick` |
| `SchedulerObject.Scheduler.ScanLevel` | kernel/src/sched.rs:276-305 | one level: the first acceptable thread is taken and the queue rotated |
| `SchedulerObject.Scheduler.RequeueProcThreads` | kernel/src/sched.rs:358-381 | the retain and push loops compute the requeue |
| `SchedulerObject.Scheduler.RegisterDonation` | kernel/src/sched.rs:387-406 | the code computes `Register`, which `IpcChains.RegisterMoves` describes |
| `SchedulerObject.Scheduler.RevokeDonations` | kernel/src/sched.rs:410-427 | the code computes `Revoke` |
| `SchedulerObject.Scheduler.Yield` | kernel/src/sched.rs:1073-1100 | the code computes `Yield` |
| `SchedulerObject.Scheduler.BlockCurrent` | kernel/src/sched.rs:1107-1158 | the code computes `BlockCurrent` |
| `SchedulerObject.Scheduler.AfterBlock` | kernel/src/sched.rs:1160-1166 | the code computes `AfterBlock` |
| `SchedulerObject.Scheduler.Exit` | kernel/src/sched.rs:1657-1741 | the code computes `Exit` |
| `SchedulerObject.Scheduler.Wake` | kernel/src/sched.rs:1199-1212 | the code computes `Wake` |
| `SchedulerObject.Scheduler.IpcWake` | kernel/src/sched.rs:1227-1323 | the code computes `Deliver` |
| `SchedulerObject.Scheduler.BlockUserFromTrap` | kernel/src/sched.rs:1760-1819 | the code computes `BlockUser` |
| `SchedulerObject.Scheduler.TakeIpcMsg` | kernel/src/sched.rs:1050-1060 | the mailbox of the current thread is handed over and emptied |
| `SchedulerObject.Scheduler.SetAffinity` | kernel/src/sched.rs:1901-1919 | the code computes `SetAffinity` |
| `SchedulerObject.Scheduler.Spawn` | kernel/src/sched.rs:673-834 | the code computes `Spawn` |
| `SchedulerObject.Scheduler.SpawnOwned` | kernel/src/sched.rs:1018-1034 | the code computes `SpawnOwned` |
| `SchedulerObject.Scheduler.OnTick` | kernel/src/sched.rs:519-599 | the code, with its early return for priority 0, computes `Tick`, which `SchedRounds.TickClock` and `RoundRobin` describe |
| `SchedulerObject.Scheduler.AnyPreemptable` | kernel/src/sched.rs:506-545 | the nested scan decides whether a startable thread is queued in a range of levels |
| `SchedulerObject.Scheduler.Rotate` | kernel/src/sched.rs:555-598 | the second half of the tick computes `Rotate` |
| `SchedSaves.StepSoundIff` | kernel/src/sched.rs:1858-1869 | with stores after the lock, every step of every hart keeps the latest saves where they belong or on their way, exactly when it does not move a kernel thread, or reuse a slot for one, whose store is outstanding elsewhere |
| `SchedSaves.CompleteSound` | kernel/src/sched.rs:1858-1869 | the late store and load keep that, and what is loaded is the latest save of the thread the hart runs |
| `SchedSaves.TickSound` | kernel/src/sched.rs:519-599 | the context that a tick expands under the lock is the latest save |
| `SchedSaves.RunSoundIff` | kernel/src/sched.rs:1073-1919 | over every interleaving of all harts with late stores all states are sound exactly when no step displaces a thread in that way |
| `SchedSaves.RunLoadsLatest` | kernel/src/sched.rs:519-1919 | and then every switch of the run, cooperative or by a tick, loads the latest save of the thread it goes to |
| `SchedSaves.MoveIff` | kernel/src/sched.rs:1901-1919 | moving a thread is sound exactly when no store for it is outstanding on another hart than the new one |
| `SchedSaves.SpawnIff` | kernel/src/sched.rs:673-834 | reusing a slot is sound exactly when no store is outstanding for it, or the new thread never uses its context |
| `SchedSaves.RealBootSound` | kernel/src/sched.rs:920-975 | the state after `init` is sound |
| `SchedRaces.LateStore` | kernel/src/sched.rs:1657-1681 | a thread exits, its slot is given to a new thread, and the late store replaces the context of the new thread |
| `SchedRaces.EarlyLoad` | kernel/src/sched.rs:1073-1100 | a thread yields, is moved to an idle hart and loaded there before it is stored: the load is not of its latest save |
| `SchedRaces.RacesReachable` | kernel/src/sched.rs:920-975 | from boot four steps lead to a sound state in which both runs can begin |
| `BuddyRuns.AllocCorrect` | kernel/src/mem.rs:242-269 | an allocation takes an aligned block of that order, all of it free before and live after; nothing else changes kind; failure changes nothing |
| `BuddyRuns.ReleaseCorrect` | kernel/src/mem.rs:272-311 | a release of a live block makes exactly its pages free |
| `BuddyRuns.AllocCoalesced` | kernel/src/mem.rs:242-269 | an allocation puts no two free siblings side by side where there were none |
| `BuddyRuns.ReleaseCoalesced` | kernel/src/mem.rs:272-311 | neither does a release: it merges as far as it can |
| `BuddyRuns.CanMergeIff` | kernel/src/mem.rs:295-304 | the metadata test of the merge loop decides whether the sibling is a free block of the same order |
| `BuddyRuns.FirstFit` | kernel/src/mem.rs:242-255 | the first list from the order up that is not empty |
| `BuddyTheorems.Run` | kernel/src/mem.rs:242-331 | over every run of allocations and releases of live blocks: blocks tile the page range, aligned; metadata and free lists agree; reserved pages stay |
| `BuddyTheorems.RunCoalesced` | kernel/src/mem.rs:242-311 | no run leaves two free siblings side by side where there were none |
| `BuddyTheorems.RunRestores` | kernel/src/mem.rs:173-310 | from a start without free siblings side by side: once all has been freed, in any order, the free lists hold the blocks they held at the start |
| `BuddyTheorems.FreedRunGrows` | kernel/src/mem.rs:173-310 | from any start: once all has been freed each block of the start, live or free, lies in one free block |
| `BuddyTheorems.RunKeepsLive` | kernel/src/mem.rs:242-311 | a live block stays whole through every run that does not free it |
| `BuddyTheorems.BlocksDisjoint` | kernel/src/mem.rs:242-269 | blocks with different heads share no page |
| `BuddyTheorems.Conservation` | kernel/src/mem.rs:242-331 | free, live and reserved pages add up to all pages |
| `BuddyTheorems.MovesCount` | kernel/src/mem.rs:242-311 | an allocation or release moves exactly `1 << order` pages from one count to the other |
| `BuddyTheorems.CoalescedIffMaximal` | kernel/src/mem.rs:295-310 | no free siblings lie side by side exactly when the free blocks are the maximal aligned runs of free pages |
| `BuddyTheorems.FreeBlocksDetermined` | kernel/src/mem.rs:295-310 | in such states equal free pages give equal free blocks |
| `BuddyTheorems.AllocFailsIff` | kernel/src/mem.rs:242-255 | in any state an allocation fails exactly when there is no free block of that order or above |
| `BuddyTheorems.CoalescedAllocFailsIff` | kernel/src/mem.rs:242-255 | without free siblings side by side: exactly when no aligned run of that size is free |
| `BuddyTheorems.FreePageCountCorrect` | kernel/src/mem.rs:412-426 | walking the lists counts exactly the free pages |
| `BuddyTheorems.DoubleFreeRefusedIff` | kernel/src/mem.rs:281-309 | a second release is refused exactly when, before the first, there was no level at which the block is the upper sibling and up to which all its siblings were free blocks |
| `BuddyTheorems.DoubleFreeExample` | kernel/src/mem.rs:281-309 | an address that can be released twice |
| `BuddyOrder.AllocTakesFirst` | kernel/src/mem.rs:242-269 | an allocation takes the first block of the lowest non-empty list that is large enough and hands out its lowest pages; each upper half goes to its list, no other list changes |
| `BuddyOrder.FreeMergesLists` | kernel/src/mem.rs:295-331 | a release puts the merged block in front of its list, takes one sibling out of each list between, and changes no other list |
| `BuddyInit.PlainCorrect` | kernel/src/mem.rs:173-187 | without reservations all pages are free, no two free siblings coexist, also in a tail that is no multiple of the largest block |
| `BuddyInit.CarvedWithholds` | kernel/src/mem.rs:204-239 | for any ranges: a page stays off the free lists exactly when an aligned block of managed pages around it is overlapped by one range and contained in a later one |
| `BuddyInit.ReservedTwice` | kernel/src/mem.rs:216-236 | two ranges that share a page, as outward rounding gives them: both pages are withheld |
| `BuddyInit.CarvedReservesNothing` | kernel/src/mem.rs:204-239 | with disjoint ranges the code frees every page; reserved pages stay out exactly when there are none |
| `BuddyInit.ReservedButFree` | kernel/src/mem.rs:216-236 | a reserved page that ends up free |
| `BuddyInit.CarvedInsideFirst` | kernel/src/mem.rs:204-239 | with the two tests exchanged exactly the reserved pages are withheld |
| `BuddyCoalescing.CarvedCoalescedIff` | kernel/src/mem.rs:204-239 | for any ranges `carve` leaves no free siblings side by side exactly when no range cuts a block of at most the largest order and neither of its halves |
| `BuddyCoalescing.DisjointCoalescedIff` | kernel/src/mem.rs:204-239 | with disjoint ranges exactly when no range cuts such a block |
| `BuddyCoalescing.RestoresIff` | kernel/src/mem.rs:242-311 | all runs that free everything restore the free lists exactly when the start has no free siblings side by side |
| `BuddyCoalescing.CutPages` | kernel/src/mem.rs:216-236 | two pages, one reserved: both are free alone, a block of two is not found, and a run that frees everything does not restore the lists |
| `BuddyAllocator.Buddies.constructor` | kernel/src/mem.rs:147-170 | arrays as `init` leaves them before building the lists |
| `BuddyAllocator.Buddies.Init` | kernel/src/mem.rs:147-197 | `init` on the arrays computes the value model, plain or carved |
| `BuddyAllocator.Buddies.CarveBlock` | kernel/src/mem.rs:204-239 | the recursive `carve` computes the blocks of the value model |
| `BuddyAllocator.Buddies.Push` | kernel/src/mem.rs:111-120 | pushing onto an intrusive list |
| `BuddyAllocator.Buddies.Pop` | kernel/src/mem.rs:123-134 | popping from an intrusive list |
| `BuddyAllocator.Buddies.Unlink` | kernel/src/mem.rs:314-331 | removing a block from the middle of its list |
| `BuddyAllocator.Buddies.Allocate` | kernel/src/mem.rs:242-269 | search, splitting loop and marking compute `Alloc` |
| `BuddyAllocator.Buddies.Free` | kernel/src/mem.rs:272-311 | checks, merging loop and push compute `Release` |
| `BuddyAllocator.Buddies.MergeFrom` | kernel/src/mem.rs:295-310 | the merging loop computes the merge |
| `BuddyAllocator.Buddies.SplitTo` | kernel/src/mem.rs:256-269 | the splitting loop computes the split |
| `BuddyAllocator.Buddies.FreePageCount` | kernel/src/mem.rs:412-426 | the walk returns the number of free pages |
| `BuddyAllocator.Buddies.OwnerWrites` | kernel/src/mem.rs:111-120 | what an owner writes into a live page does not disturb the lists in free memory |
| `Bits.BuddyFacts` | kernel/src/mem.rs:295-304 | the index with one bit flipped is the sibling, and the lower of the two heads the parent |
| `MmuOps.MapUserPageOk` | kernel/src/mmu.rs:173-211 | success adds exactly one page where nothing was mapped, which translates if the flags make it a leaf; failure changes no translation; it succeeds exactly when the arguments are acceptable, no superpage or leaf is in the way and tables can be had |
| `MmuOps.Unmap4kOk` | kernel/src/mmu.rs:585-610 | success removes exactly one page, failure changes nothing and happens exactly inside a superpage |
| `MmuOps.Map4kOk` | kernel/src/mmu.rs:120-129 | one translation is replaced; it fails exactly below a superpage or out of memory |
| `MmuOps.EnsureTableOk` | kernel/src/mmu.rs:95-111 | a missing table is made empty and hung in; no translation changes |
| `MmuOps.DescendOk` | kernel/src/mmu.rs:146-192 | the two lookups reach the level-0 table of the page |
| `MmuOps.IndexInjective` | kernel/src/mmu.rs:173-180 | below the limit different pages have different indices |
| `MmuKernel.SplitSuperpageOk` | kernel/src/mmu.rs:628-652 | a split keeps every page address and flag exactly when the superpage is aligned or rejected by the walk; its success condition |
| `MmuKernel.MisalignedSplit` | kernel/src/mmu.rs:628-652 | a misaligned superpage whose split changes what its pages mean |
| `MmuKernel.SplitIdempotent` | kernel/src/mmu.rs:628-652 | splitting twice is splitting once |
| `MmuKernel.UnmapKernel4kIff` | kernel/src/mmu.rs:660-663 | a kernel page is removed, also out of a superpage, and no other page changes exactly when that superpage is aligned or rejected by the walk |
| `MmuKernel.GuardRoundTrip` | kernel/src/mmu.rs:660-689 | unmapping and remapping a stack guard restores the translation of every page |
| `MmuKernel.MapSuperIff` | kernel/src/mmu.rs:254-261 | a superpage maps its 512 pages to consecutive ones, none if misaligned, and changes no other; the tables stay a tree exactly when no table was in its place |
| `MmuKernel.SuperOverTable` | kernel/src/mmu.rs:254-261 | a page mapped below an empty root and then a superpage over its table: the table hangs nowhere |
| `MmuGrowth.DescendGrows` | kernel/src/mmu.rs:146-192 | walking down makes exactly the missing tables, or uses up the pool |
| `MmuGrowth.MapGrows` | kernel/src/mmu.rs:173-211 | a page where nothing is mapped can be mapped exactly when the pool has its missing tables, and then exactly those have been taken; failing it leaves the pool empty and every translation as it was |
| `MmuGrowth.UnmapKeeps` | kernel/src/mmu.rs:585-610 | where the tables exist an unmapping makes none |
| `MmuGuards.GuardsInterleave` | kernel/src/sched.rs:884-917 | stacks get and lose guard pages in any order: exactly the pages taken out have no translation, every other page the one it had, and once all are back the map means what it meant |
| `MmuGuards.GuardsComeBack` | kernel/src/sched.rs:884-917 | starting from the kernel map without guards: once all are back it means what it meant |
| `MmuGuards.UnguardKeeps` | kernel/src/sched.rs:887-901 | putting a guard page back cannot fail and takes no memory |
| `MmuDestroy.DestroyedExactly` | kernel/src/mmu.rs:472-518 | destroying a root frees, each once, exactly the own user pages and all tables, and no kernel or device page |
| `MmuModel.SetLow` | kernel/src/mmu.rs:120-129 | writing the last entry of a walk sets that one translation |
| `MmuModel.AttachLow` | kernel/src/mmu.rs:628-652 | hanging a table of leaves below an entry gives its pages the translations of those leaves |
| `MmuObject.AddressSpace.EnsureTable` | kernel/src/mmu.rs:95-160 | the code on table memory computes the value model |
| `MmuObject.AddressSpace.MapUserPage` | kernel/src/mmu.rs:173-211 | likewise |
| `MmuObject.AddressSpace.Map4k` | kernel/src/mmu.rs:120-129 | likewise |
| `MmuObject.AddressSpace.Unmap4k` | kernel/src/mmu.rs:585-610 | likewise |
| `MmuObject.AddressSpace.LeafEntry` | kernel/src/mmu.rs:538-564 | the walk returns the entry the value model names |
| `MmuObject.AddressSpace.SplitSuperpage` | kernel/src/mmu.rs:628-652 | the loop over 512 entries computes the split |
| `MmuObject.AddressSpace.UnmapKernel4k` | kernel/src/mmu.rs:660-663 | likewise |
| `MmuObject.AddressSpace.MapKernel4k` | kernel/src/mmu.rs:668-689 | likewise |
| `MmuObject.AddressSpace.DestroyRoot` | kernel/src/mmu.rs:472-518 | the three nested loops free the pages the value model lists, in order |
| `MmuObject.EncodeDecode` | kernel/src/mmu.rs:65-73 | an entry gives back the page-aligned address and the flags it was made of |
| `HeapRuns.RunSeparates` | kernel/src/heap.rs:124-347 | given fresh answers of the page allocator (discharged in `HeapBuddy`), over every run from the empty heap live objects are apart, aligned and inside the heap memory |
| `HeapRuns.RunInv` | kernel/src/heap.rs:124-347 | given fresh answers, every run of allocations and releases keeps the heap invariant |
| `HeapRuns.AllocInv` | kernel/src/heap.rs:138-298 | an allocation that returns adds one object that was not live, aligned as asked, and changes no other |
| `HeapRuns.DeallocInv` | kernel/src/heap.rs:304-347 | a release of a live object passes its own tests, takes the path that allocated it and removes it alone (`free_pages`: `HeapBuddy.JointDeallocInv`) |
| `HeapRuns.ReleaseRestores` | kernel/src/heap.rs:138-347 | releasing what was just allocated from a page with a free slot, or from whole pages, restores the heap exactly |
| `HeapRuns.SweepCorrect` | kernel/src/heap.rs:226-247 | the sweep gives back exactly the empty slab pages that do not head their chain, and none that holds a live slot |
| `HeapRuns.EmptyPage` | kernel/src/heap.rs:253-266 | a page with as many free slots as it has slots holds no object |
| `HeapRuns.SlabAllocInv` | kernel/src/heap.rs:155-210 | a slab allocation keeps the invariant, with or without a new page |
| `HeapRuns.LargeRoom` | kernel/src/heap.rs:269-298 | the block is large enough for the object and the word before it, however it is aligned |
| `HeapRuns.LargeAllocInv` | kernel/src/heap.rs:269-298 | a large allocation keeps the invariant |
| `HeapOps.ObjectsDisjoint` | kernel/src/heap.rs:138-298 | two live objects never overlap |
| `HeapOps.LiveInside` | kernel/src/heap.rs:138-298 | a live object is aligned and inside one block, behind its first word |
| `HeapOps.LargeOffTable` | kernel/src/heap.rs:304-347 | the page of a large object is never a slab page, so the table tells the two paths apart |
| `HeapOps.BaseWordPrivate` | kernel/src/heap.rs:287-298 | the word before a large object lies in no live object |
| `HeapOps.HeaderPrivate` | kernel/src/heap.rs:180-210 | slab headers lie in no live object |
| `HeapOps.FreeSlotPrivate` | kernel/src/heap.rs:304-347 | free slots, which hold the links, lie in no live object |
| `HeapOps.NewSlotsFacts` | kernel/src/heap.rs:185-199 | the threaded slots are all slots of the page, each once, as many as the capacity says |
| `HeapOps.SmallestBlock` | kernel/src/heap.rs:269-287 | a large object gets the smallest block that has room for it, its word and its alignment; there is none exactly beyond the largest block |
| `HeapOps.SlotIff` | kernel/src/heap.rs:138-150 | an object is given a slot of a class exactly when that is the smallest class with its size and has its alignment too; else whole pages |
| `HeapOps.ClassIndexLeast` | kernel/src/heap.rs:124-132 | the class is the smallest that fits; there is one exactly up to 2 KiB |
| `HeapBuddy.JointSafe` | kernel/src/heap.rs:124-347 | heap and buddy allocator together, with others allocating and freeing blocks in between: over every run live objects are apart and aligned, each can be released without a panic, and an allocation panics exactly when memory is out: the request is too large, or the buddy allocator has no free block of the order needed or above |
| `HeapBuddy.JointRunInv` | kernel/src/heap.rs:124-347 | every such run keeps both invariants, and every block of the heap a live block of the buddy allocator |
| `HeapBuddy.JointAllocInv` | kernel/src/heap.rs:138-298 | an allocation with the answer the buddy allocator really gives keeps that; it panics exactly when memory is out in that sense |
| `HeapBuddy.OutIff` | kernel/src/heap.rs:138-298 | the path that the heap takes ends in a refusal exactly when memory is out |
| `HeapBuddy.JointDeallocInv` | kernel/src/heap.rs:304-347 | a release of a live object never panics: neither its tests nor `free_pages` refuse it |
| `HeapBuddy.GiveBackOk` | kernel/src/heap.rs:226-247 | a block that the heap gives back is accepted, and its other blocks stay live |
| `HeapBuddy.BuddyAnswers` | kernel/src/heap.rs:180-184 | what the buddy allocator answers is a block apart from all blocks of the heap |
| `HeapBuddy.StaysBacked` | kernel/src/heap.rs:226-247 | the blocks of the heap stay live blocks of the buddy allocator through its other moves |
| `HeapMemory.OwnerWrites` | kernel/src/heap.rs:138-150 | whatever an owner writes into its object, chains, free lists and base words stay |
| `HeapSteps.TableSays` | kernel/src/heap.rs:86-105 | the page-class table sends a live pointer back to the path it came from |
| `HeapSteps.LargeFreeSound` | kernel/src/heap.rs:338-346 | the word before a large object names its block |
| `HeapObject.KernelHeap.constructor` | kernel/src/heap.rs:117-121 | an empty heap |
| `HeapObject.KernelHeap.Allocate` | kernel/src/heap.rs:138-150 | the code on memory words computes `Alloc` |
| `HeapObject.KernelHeap.AllocSlot` | kernel/src/heap.rs:155-177 | walking the chain, sweeping and growing compute `SlabAlloc` |
| `HeapObject.KernelHeap.AddPage` | kernel/src/heap.rs:180-210 | threading the slots of a new page and linking it in |
| `HeapObject.KernelHeap.ThreadSlots` | kernel/src/heap.rs:185-199 | the loop threads exactly the slots of the page |
| `HeapObject.KernelHeap.SweepAll` | kernel/src/heap.rs:226-247 | the nested loops compute `Sweep` |
| `HeapObject.KernelHeap.PageEmpty` | kernel/src/heap.rs:253-266 | counting along the free list decides emptiness |
| `HeapObject.KernelHeap.AllocBlock` | kernel/src/heap.rs:269-298 | order, block and base word compute `LargeAlloc` |
| `HeapObject.KernelHeap.Release` | kernel/src/heap.rs:304-347 | the code computes `Dealloc` on every live object |
| `HeapObject.KernelHeap.ClassOf` | kernel/src/heap.rs:124-132 | the loop computes `ClassIndex` |
| `HeapObject.KernelHeap.OwnerWrites` | kernel/src/heap.rs:138-150 | an owner writing its object keeps the heap valid |
| `Sync.StartInv` | kernel/src/sync.rs:125-135 | new mutexes and condition variables satisfy the invariant |
| `Sync.RunInv` | kernel/src/sync.rs:137-257 | over every run: a mutex is never held twice and locked exactly while held; wait queues hold exactly the unwoken waiters; a free mutex with waiters has a woken thread about to retry |
| `Sync.RegisteredOnce` | kernel/src/sync.rs:137-257 | a thread is in at most one wait queue, once |
| `Sync.TakeInv` | kernel/src/sync.rs:137-145 | taking a free mutex |
| `Sync.RegisterInv` | kernel/src/sync.rs:145-153 | registering as a waiter of a held mutex |
| `Sync.UnlockInv` | kernel/src/sync.rs:161-168 | unlocking wakes the first waiter and loses no wake-up |
| `Sync.WaitInv` | kernel/src/sync.rs:219-237 | waiting on a condition registers, unlocks and blocks without losing a wake-up |
| `Sync.NotifyOneInv` | kernel/src/sync.rs:240-246 | a notify moves the first waiter on |
| `Sync.NotifyAllInv` | kernel/src/sync.rs:250-257 | afterwards nobody waits in the condition, and nobody who waited is asleep |
| `Sync.BlockInv` | kernel/src/sched.rs:1126-1158 | blocking consumes a wake-up that came first |
| `Sync.ResumeInv` | kernel/src/sched.rs:1158-1166 | a woken thread goes on to retry |
| `SyncOrder.WaiterServed` | kernel/src/sync.rs:137-168 | in every run a waiter with k others before it has been woken by the time its mutex has been freed k+1 times, whoever takes it in between |
| `SyncOrder.StepMoves` | kernel/src/sync.rs:137-257 | freeing a mutex wakes its first waiter and moves the others one forward; no other step moves a waiter back |
| `SyncOrder.NotifiesFirst` | kernel/src/sync.rs:240-246 | a notification is for the thread that has waited longest, which then goes for its mutex |
| `SyncOrder.WaitsLast` | kernel/src/sync.rs:219-237 | whoever waits on a condition is last there and has given up its mutex |
| `SyncHarts.RunExclusive` | kernel/src/sync.rs:137-168 | on any number of harts and in every interleaving: at most one thread owns the mutex, and the lock word is set exactly while one does |
| `SyncHarts.RunInvIff` | kernel/src/sync.rs:137-168 | in all states of a run the queue holds exactly the unwoken waiters, no flag is stale and a free mutex with waiters is tried or handed on, exactly when every registration taken back was that of the thread taking it |
| `SyncHarts.StepInvIff` | kernel/src/sync.rs:137-168 | the same for every single step |
| `SyncHarts.OneHartRun` | kernel/src/sync.rs:145-152 | on one hart the second attempt never succeeds, and the invariant holds in every run |
| `SyncHarts.WaiterForgotten` | kernel/src/sync.rs:145-152 | a run on two harts after which the mutex is free, nobody is coming and a waiter sleeps unregistered |
| `SyncHarts.StaysForgotten` | kernel/src/sync.rs:161-168 | such a waiter is never woken again, whatever happens to the mutex |
| `SyncHarts.StartInv` | kernel/src/sync.rs:125-135 | a new mutex satisfies the invariant |
| `Pages.OneHolder` | kernel/src/pages.rs:237-285 | at most one slot in the system holds a page |
| `Pages.MemGrantInv` | kernel/src/pages.rs:237-285 | an uninterrupted grant moves the page to the one slot of the peer, unmaps it, touches no other capability or mapping; failure changes nothing |
| `Pages.MemMapInv` | kernel/src/pages.rs:348-383 | a page is mapped where nothing was and nowhere else; failure changes nothing |
| `Pages.AllocGrantInv` | kernel/src/pages.rs:85-124 | a fresh page enters the registry and one slot |
| `Pages.CapRevokeInv` | kernel/src/process.rs:290-324 | revoking a page capability frees a page that was not free; nobody holds or maps it afterwards (every kind of capability: `PageCalls.RevokeEmpties`) |
| `Pages.CapDuplicateIff` | kernel/src/process.rs:254-277 | duplication keeps the ownership invariant exactly when it overwrites no page capability |
| `Pages.OverwriteExample` | kernel/src/process.rs:254-277 | a duplication that strands a page |
| `PageCalls.RevokeEmpties` | kernel/src/process.rs:290-324 | a lookup of the revoked slot finds nothing, whatever it held, and every other slot of every process what it found; it fails exactly when the slot is out of range or empty, the process is dead, or the page unregistered or free already, with the error of each |
| `PageCalls.DuplicateCopies` | kernel/src/process.rs:254-277 | the target slot holds what the source holds, no other slot changes; it succeeds exactly for slots that exist and a source that holds something other than a page |
| `PageCalls.RevokeFrees` | kernel/src/pages.rs:134-176 | the page is free again, its id last among the free ids, and no other record changes |
| `PageCalls.AllocEnters` | kernel/src/pages.rs:85-124 | succeeds exactly when the page is to be had and the registry has room; the page is registered to its owner, not mapped, and in that slot alone |
| `PageCalls.GrantMoves` | kernel/src/pages.rs:237-285 | succeeds exactly when the source holds a registered page, the second slot a live process, and the target exists and is empty; then the page is in the target and not in the source, registered to the peer, mapped nowhere, and no other slot or record changes |
| `PageCalls.MapRecords` | kernel/src/pages.rs:348-383 | succeeds exactly for a page address below the limit where nothing is mapped, a table to be had and a slot with a registered page not mapped yet; only that record changes |
| `PageRuns.RunInv` | kernel/src/process.rs:90-447 | over every run of whole calls: one holder per page, the registry owner; mapped exactly where recorded; free, registered and mapped pages together never change, so none is lost or freed twice |
| `PageRuns.DestroyInv` | kernel/src/process.rs:382-447 | a destroyed process gives back its capabilities and memory, each page once, and maps and holds nothing; every other process keeps its capabilities and mappings |
| `PageRuns.RevokeIdsAgrees` | kernel/src/process.rs:387-424 | collecting the pages first and clearing the slots last equals revoking slot by slot |
| `PageRuns.CreateInv` | kernel/src/process.rs:90-136 | a new process is alive, holds no capability and maps nothing; all other processes are as before |
| `PageGrants.RunGood` | kernel/src/pages.rs:244-283 | over every interleaving of the sections of any number of grants, and of other calls, in which no two calls in progress use the same slot: once no grant is in progress the page invariant holds, and no page was lost or freed |
| `PageGrants.MoveGood` | kernel/src/pages.rs:244-283 | every single section keeps: completing the grants in progress leads to a right state |
| `PageGrants.OneHolderMeanwhile` | kernel/src/pages.rs:244-283 | while grants are in progress too, a page is held by one slot apart from those about to be written |
| `PageRaces.RaceIff` | kernel/src/pages.rs:244-283 | two grants whose checks pass before either writes: the invariant holds at the end exactly when they share neither slot or both; with the destination alone a page has no holder, with the source alone two |
| `PageRaces.TwoMovesIff` | kernel/src/pages.rs:276-283 | the condition for the two moves one after the other |
| `PageRaces.HandIff` | kernel/src/pages.rs:276-283 | whatever else is in progress, handing a page over is right exactly when one of its slots still holds it and neither holds another page |
| `PageRaces.MovedIff` | kernel/src/pages.rs:276-283 | the condition for one move |
| `PageRaces.PassesAlone` | kernel/src/pages.rs:244-274 | the checks are those of the uninterrupted call |
| `PageRaces.LostInRace` | kernel/src/pages.rs:270-278 | two processes grant into one slot of a third: a page ends up without a holder |
| `PageRaces.TwoHoldersInRace` | kernel/src/pages.rs:244-283 | two threads grant the same page: it ends up with two holders |
| `PageOrders.AnyOrderIff` | kernel/src/pages.rs:237-285 | two grants whose checks pass, then their writes in any order: the invariant holds at the end exactly when they share neither slot or both; with the destination alone a page has no holder, with the source alone two |
| `PageLate.LateMapIff` | kernel/src/pages.rs:348-383 | a mapping made after other calls keeps the invariant exactly when it fails, is taken back, or the page is still the caller's at the address read |
| `PageLate.MapsAtOnce` | kernel/src/pages.rs:348-383 | with nothing in between the late mapping is the whole call |
| `PageLate.MappedAfterGrant` | kernel/src/pages.rs:348-383 | a page granted away in between is mapped by its old owner while the new one holds it |
| `PageLate.PeerDies` | kernel/src/pages.rs:275-281 | a peer that dies between the hand-over and the write of its slot: the roll-back leaves the page with the caller, and the invariant |
| `PageLate.LateRevokeIff` | kernel/src/process.rs:290-324 | a revocation made after other calls keeps the invariant exactly when the page is revoked already or still in that slot |
| `PageLate.RevokesAtOnce` | kernel/src/process.rs:290-303 | with nothing in between the late revocation is the whole call |
| `PageLate.DestroysAtOnce` | kernel/src/process.rs:382-447 | and the late end is the whole `destroy` |
| `PageLate.RevokedAfterGrant` | kernel/src/process.rs:290-324 | a page granted away in between is freed while its new owner holds it |
| `PageLate.LateDestroyIff` | kernel/src/process.rs:382-447 | an end made after other calls keeps the invariant exactly when the process owns exactly the pages collected |
| `PageLate.EndedAfterGrant` | kernel/src/process.rs:382-447 | a page received in between is left without a holder |
| `PageObject.Kernel.Alloc` | kernel/src/pages.rs:85-124 | the code computes `AllocPage`; a full registry gives the page back |
| `PageObject.Kernel.Revoke` | kernel/src/pages.rs:134-176 | the code computes `Revoked`, and fails for a page that is free already |
| `PageObject.Kernel.Grant` | kernel/src/pages.rs:188-222 | record and mapping change hands |
| `PageObject.Kernel.GrantPage` | kernel/src/pages.rs:237-285 | the code, uninterrupted, computes `MemGrant` |
| `PageObject.Kernel.MapPage` | kernel/src/pages.rs:348-383 | the code computes `MemMap` |
| `PageObject.Kernel.DuplicateCap` | kernel/src/process.rs:254-277 | the code computes `CapDuplicate` |
| `PageObject.Kernel.RevokeCap` | kernel/src/process.rs:290-303 | the code computes `CapRevoke`, which `PageCalls.RevokeEmpties` describes |
| `PageObject.Kernel.DestroyProcess` | kernel/src/process.rs:382-447 | the collecting and revoking loops compute `Destroy` |
| `ElfParse.ParseGood` | kernel/src/elf.rs:146-291 | an accepted file has well-formed segments in order, page ranges pairwise disjoint and below 2^38 (which fields they are: `ElfFormat`) |
| `ElfParse.NeighboursSuffice` | kernel/src/elf.rs:281-290 | comparing neighbours accepts exactly the lists in which all page ranges are apart |
| `ElfParse.RefusedIff` | kernel/src/elf.rs:281-290 | a file with well-formed headers is refused for overlap exactly when two segments clash: they share a page, or one without pages lies in another, or at its start and after it in the file |
| `ElfParse.OverlapIff` | kernel/src/elf.rs:281-290 | without empty segments it is refused exactly when two segments share a page |
| `ElfParse.EmptyInside` | kernel/src/elf.rs:281-290 | a refused pair of segments that share no page |
| `ElfParse.EmptyFirst` | kernel/src/elf.rs:280-290 | an empty segment listed before one at the same address is accepted |
| `ElfParse.EmptySecond` | kernel/src/elf.rs:280-290 | listed after it, it is refused |
| `ElfParse.SortSorted` | kernel/src/elf.rs:280 | sorting by address keeps the segments and orders them |
| `ElfParse.ParseFile` | kernel/src/elf.rs:146-291 | the passes over headers and neighbours compute `Parse`, which `ElfFormat.ParseDecides` describes |
| `ElfFormat.ParseDecides` | kernel/src/elf.rs:146-291 | for every file, its fields as an independent encoder lays them out: a refused header gives its error, else the first refused program header gives its error, else clashing segments give Overlap, else the entry and the segments to load, sorted by address, are returned |
| `ElfFormat.EveryFile` | kernel/src/elf.rs:146-200 | every byte string is too short for a header, which is refused as truncated, or is such a file |
| `ElfFormat.AcceptedIff` | kernel/src/elf.rs:146-291 | a file is accepted exactly when no header is refused and no segments clash |
| `ElfFormat.RoundTrip` | kernel/src/elf.rs:146-291 | an entry and segments written field by field as an ELF64 file are read back, in address order |
| `ElfErrors.LoadFailsWith` | kernel/src/elf.rs:298-478 | the error of every failed load: that of the file, no such process, the first segment page that cannot be had (with which shortage), the arguments, the first stack page that cannot be had, or no room for the argument vector |
| `ElfImage.LoadedRight` | kernel/src/elf.rs:298-478 | after a successful load, read through the page tables: every byte of every segment page is the file byte at the matching offset or zero, with the permissions of the segment; argc, argv and the strings are the arguments, the stack pointer is aligned; what was mapped before still is |
| `ElfImage.LoadsIff` | kernel/src/elf.rs:298-478 | a load succeeds exactly when file and arguments are acceptable, the process exists, nothing is mapped at any of the pages, no two coincide, and the pool has them and the missing tables |
| `ElfImage.FailedLoadRestores` | kernel/src/elf.rs:298-329 | a load that fails anywhere, also for its arguments, leaves the translation of every page as before |
| `ElfImage.FailedLoadPages` | kernel/src/elf.rs:298-329 | a failed load takes from the pool exactly the tables it made, and one page more exactly when the pool runs short between a stack page and its tables |
| `ElfImage.StackPageLost` | kernel/src/elf.rs:426-427 | a load that loses a page |
| `ElfImage.TablesStay` | kernel/src/elf.rs:324-329 | a load that leaves two tables behind |
| `ElfMemory.PagesOutcome` | kernel/src/elf.rs:336-433 | pages can all be mapped exactly when they are vacant and the pool has a page for each and for each missing table, and then exactly that is taken; it fails for want of a table exactly when the pool runs short between a page and its tables |
| `ElfMemory.MapEnds` | kernel/src/elf.rs:336-433 | mapping stops at the first page that is not vacant or not to be had |
| `ElfMemory.MapPagesStock` | kernel/src/elf.rs:336-433 | no page is lost between pool, tables and mapped pages, except one when the mapping of a stack page fails |
| `ElfMemory.VacantIff` | kernel/src/elf.rs:352-355 | vacant: nothing is mapped at any of the pages and no two are the same |
| `ElfLoad.MapPagesFills` | kernel/src/elf.rs:336-380 | mapped pages hold their content, with their flags, in order |
| `ElfLoad.RollbackUndoes` | kernel/src/elf.rs:324-329 | rolling back unmaps exactly the mapped pages, returns as many and keeps the tables |
| `ElfLoad.RolledBack` | kernel/src/elf.rs:324-329 | and restores every translation |
| `ElfLoad.PageBytesRight` | kernel/src/elf.rs:356-371 | a segment page holds the file bytes at their place and zeros elsewhere |
| `ElfLoad.FlagsSafe` | kernel/src/elf.rs:385-393 | every page is readable; executable exactly when the header says so; writable exactly when it says so and the page is not executable |
| `ElfObject.Loader.FillPage` | kernel/src/elf.rs:351-377 | allocating, filling and mapping one page on the table memory computes `Fill` |
| `ElfObject.Loader.MapOne` | kernel/src/elf.rs:336-380 | the page loop computes the pages of the segment, mapped one by one |
| `ElfObject.Loader.MapSegments` | kernel/src/elf.rs:298-308 | the loop over the segments maps the pages of all |
| `ElfObject.Loader.MapStackPages` | kernel/src/elf.rs:420-433 | the stack page loop computes `MapStack` |
| `ElfObject.Loader.BuildStack` | kernel/src/elf.rs:404-478 | checks, pages and arguments compute `WithStack` |
| `ElfObject.Loader.Undo` | kernel/src/elf.rs:324-329 | the loop computes `Rollback` |
| `ElfObject.Loader.WriteStack` | kernel/src/elf.rs:435-478 | the argument writes go to the last eight pages mapped |
| `ElfObject.Loader.Prepare` | kernel/src/elf.rs:298-313 | the segments and then the stack compute `Prepared` |
| `ElfObject.Loader.LoadFile` | kernel/src/elf.rs:298-321 | the code, from parsing to the argument writes, computes `Load` |
| `ElfStack.ReadsBack` | kernel/src/elf.rs:404-478 | reading argc and argv back through the pages recovers exactly the arguments, with a null behind them; sp is 16-byte aligned |
| `ElfStack.PlanGood` | kernel/src/elf.rs:404-478 | strings, vector and count lie on the eight pages and do not overlap |
| `ElfStack.AlignedInPage` | kernel/src/elf.rs:457-478 | no eight-byte write crosses a page |
| `ElfStack.DecEnc` | kernel/src/elf.rs:457-478 | the little-endian bytes of a word give the word back |
| `ElfStack.BuildUserStack` | kernel/src/elf.rs:404-478 | the writing loops compute the layout and the contents of the stack pages |
| `Fdt.AddAllCorrect` | kernel/src/fdt.rs:58-87 | any sequence of calls keeps the table disjoint, covering what it covered and never more than the ranges given; while it has room, exactly their union |
| `Fdt.AddCorrect` | kernel/src/fdt.rs:58-87 | one call covers what was covered and the new range, unless it is ignored or refused |
| `Fdt.MergeFacts` | kernel/src/fdt.rs:67-82 | the scan with swap-removal removes exactly what it grows over |
| `Fdt.BoardParams.AddReserved` | kernel/src/fdt.rs:58-87 | the code on the array computes `Add` |
| `Fdt.BoardParams.ScanTable` | kernel/src/fdt.rs:67-82 | the scan loop computes the merge |

## Left out

- `kill_process` and `force_kill_current`: they collect exited threads again and may fall back to a queued idle thread, so the queue invariant does not hold across them.
- TLB shootdown, inter-processor interrupts, weak memory ordering and the internals of spin locks: a critical section is one step, and so are the store and the load of a context switch together.
- IpcRuns.RunKeeps: the runs are without the steps that `WakingIff`, `KernelBlockIff`, `PurgeStepIff` and `SetAffinityIff` show to break the invariant: a wake-up of a thread asleep in an IPC call, a kernel thread's block with a recorded wake-up and no result, a purge of a process with own entries, a move of an idle thread.
- SchedRounds.RoundRobin: for a hart that gives its thread up only by ticks; voluntary switches are in `SchedTurns.TakesItsTurn`.
- IpcRuns.StepKeeps: stores of contexts are immediate; late ones are in `SchedSaves`.
- SchedSteps.YieldInv: the store of the context is part of the step; the store after the lock is in `SchedSaves`.
- SchedSteps.BlockCurrentInv: likewise.
- SchedSteps.ExitInv: likewise.
- SchedWake.BlockUserInv: likewise.
- SchedulerObject.Scheduler.Yield: likewise.
- SchedulerObject.Scheduler.BlockCurrent: likewise.
- SchedulerObject.Scheduler.Exit: likewise.
- SchedulerObject.Scheduler.BlockUserFromTrap: likewise.
- PageRuns.RunInv: `mem_grant` and the other calls are one step each; interleaved grants are in `PageGrants`, late halves of the other calls in `PageLate`.
- PageGrants.RunGood: the other calls are whole, and the registry update and the unmapping of a grant are one section.
- PageLate.LateMapIff: everything after the read is one step, as in `LateRevokeIff` and `LateDestroyIff`.
- Freshness of an idle thread's saved state: the idle loop switches away without refreshing its flags.
- The stack reaper, the thread's entry function and its address-space root; machine words are unbounded in `sepc + 4`.
- BuddyAllocator.Buddies.Free: for addresses of live blocks; what other addresses do is in `DoubleFreeRefusedIff`.
- MmuModel.SetLow: entries have the 44 page-number bits and ten flag bits; the reserved and memory-type bits 54 to 63 are always zero in this kernel.
- The kernel region set-up, device mapping and enabling of translation in `mmu.rs`.
- HeapRuns.AllocInv: an out-of-memory panic of the page allocator, and the overflow panic on sizes near the word limit, end the run; sizes are unbounded numbers.
- Sync.RunInv: one hart, on values, because `Mutex::lock` blocks in the middle of its loop; several harts are in `SyncHarts`, for one mutex and without condition variables.
- Shared-memory capabilities, `connect` and `mmap_share` beyond a slot write that overwrites no page capability; the registry's capacity is checked before its free pool, and nothing is claimed about reuse at capacity.
- The walk over the device tree, `shm.rs`, `services.rs`, `device.rs`, `syscall.rs`, the user programs, console, firmware and boot order: small tables, dispatch, and input and output.
