# MOS on several CPUs, verified in Dafny

MOS is a small MIPS teaching kernel that runs on two CPUs. This project models the parts of it
whose correctness depends on shared state, on several CPUs or envs acting at once, or on a fast
structure agreeing with a simple one, and proves what those parts promise. `dafny verify
dfyconfig.toml` checks all of it.

| files | component |
|---|---|
| `Queue` | the pointer-to-pointer LIST and TAILQ macros over a store of links |
| `Bitmap` | word bitmaps as sets, and the ASID map |
| `Pmap`, `PmapSteps`, `PageMap`, `PmapRuns`, `PmapKernel` | physical frames, two-level page tables kept in those frames, env address spaces |
| `EnvDeath` | `env_free` section by section, with other CPUs in between |
| `EnvLife`, `EnvKernel`, `EnvRuns` | an env's slot, directory and ASID from `env_alloc` to `env_free`, alone and among others |
| `Ipi`, `IpiDeadlock`, `Tlb`, `TlbFinish`, `AsidReuse` | remote calls through mailboxes, TLB shootdown on top of them, and what a reused ASID finds in the TLBs |
| `Sched`, `SchedInv`, `SchedRuns`, `SchedSlices`, `SchedCalls`, `SchedRaces`, `SchedKernel` | claiming envs for CPUs, the run queue and the free list, time slices, remote destroy, IPC |
| `Cow`, `CowFork` | copy-on-write fork against a fork that copies, and what fork gives the child |
| `Pipe`, `PipeEof` | the ring buffer with wrapping counters, and the end-of-file test |
| `FsBlocks`, `FsLayout`, `FsFormat`, `FsImage` | the file server's block map, and the image the format tool writes |
| `ElfLoad` | loading one ELF segment |

Two forms are used, following the source. Code that one CPU runs on its own state is a class or a
method with loops, proved against a specification on values (`PhysicalMemory`, `EnvPool`,
`EnvTable`, `List`, `TailQueue`, `AsidMap`, `FileSystem`, `Formatter`, `ElfLoadSeg`, `ForkLoop`). Code that several
CPUs or envs interleave is a step machine (`Enabled`, `Next`), an invariant kept by every step,
and theorems over every run (`Legal`, `Run`) from an initial state.

Where the code does not keep what it promises, the model keeps the code, shows a failing case and
states exactly when the promise holds:

- `sys_mem_alloc` can strand a frame (`SysMemAllocLeakIff`), and `env_alloc` a directory
  (`EnvAllocLeakIff`), which is all that leaks (`NothingElseLeaks`).
- `page_insert` after an unlocked lookup (`InsertKeepsInvIff`, `LookupRemoveInsertBreaks`), and into an
  address space that `env_free` is taking apart (`InsertWhileFreeingIff`, `InsertBehindBreaks`,
  `InsertAfterDropBreaks`).
- A status change of an env freed since `envid2env` found it (`SetStatusKeepsListsIff`,
  `FreedBeforeStatus`), a wake-up of a receiver woken or freed since it was claimed
  (`WakeKeepsListsIff`, `WokenBeforeWake`, `FreedBeforeWake`), and `sys_ipc_recv` by an env another
  CPU took off the run queue (`ReceiveKeepsQueueIff`, `ReceiveBreaksQueue`).
- The assertion of `env_run` after a pick (`RunAssertIff`, `StoppedBeforeRun`).
- Remote calls among four CPUs (`NoDeadlock`, `FourBlocked`).
- An ASID reused while a shootdown of its former pages is under way (`NoWordOfEarlierOwner`,
  `EmptyButNotSettled`).
- The pipe's closed test with its two counts read apart (`SplitReadExact`, `SplitReadWrong`), and a
  read racing a close (`ShortReadIsEnd`, `EarlyEnd`).
- A file size whose rounding to blocks wraps (`BlocksHoldIff`).
- An indirect block made from a block the cache still holds (`FileMapBlock`, `StaleIndirect`).
- An ELF segment that starts and ends its file part inside a page (`ElfLoadSeg`, `CrookedSegment`).

Hypotheses the step machines rest on:

- Memory is sequentially consistent, a spinlock section is one step, and kernel code is not
  interrupted on its own CPU (kern/entry.S:17-19). Runs start after boot.
- `env_alloc`, and `envid2env` together with the locked section that follows it, are one step.
  `sys_ipc_recv` and the `schedule(1)` after it are one step.
- Env ids have not wrapped: fewer than 2^21 allocations (kern/env.c:100-103).
- Runs of the scheduler take `sys_ipc_recv` by a RUNNABLE env, the wake-up of a receiver that is
  still NOT_RUNNABLE, and a status change of an env that is not free. The code tests none of the
  three; `SchedRaces` says what happens to the two lists without them. `env_run` asserts that the
  picked env is RUNNABLE (kern/env.c:585); runs go on from there only when it is.
- `env_free` is a step per page, table and directory; clearing a directory entry and dropping the
  reference to its table are one step (kern/env.c:450-452). Runs do not insert behind the place
  `env_free` has reached; `EnvDeath` says what happens when they do. Nor do they insert a frame that
  is neither in flight nor mapped at that moment, such as one freed since an unlocked lookup;
  `InsertKeepsInvIff` says what happens then.
- References are counted for slots below UTOP only, each frame has fewer than 65536 of them
  (include/pmap.h:22), and a frame that was allocated and not yet mapped is "in flight".
- In the fork model the permission read and the first map of `duppage` are one step and the
  system calls succeed.
- In the end-of-file model fork is one step.

Where the comments in the source and its code disagree, the code is followed. The comment on
`pipe_read` promises a positive count unless nothing was written since the last read
(user/lib/pipe.c:119-131); `EarlyEnd` shows a run in which it returns 0 with a byte unread.

## Model

| member | source | states |
|---|---|---|
| Queue.LinkedUnique | include/queue.h:143-162 | the links determine the sequence: a store represents at most one duplicate-free sequence |
| Queue.HeadLinked | include/queue.h:143-149 | the four stores of an insertion at the head turn the representation of a sequence into that of the element followed by it |
| Queue.TailLinked | include/queue.h:203-209 | the stores of TAILQ_INSERT_TAIL represent the sequence with the element appended |
| Queue.DropLinked | include/queue.h:229-236 | the stores of a removal represent the sequence without the element, wherever it stood |
| Queue.UnlinkMember | include/queue.h:229-236 | TAILQ_REMOVE as it is written, with the tail pointer: the links of the sequence without that element |
| Queue.AppendNew | include/queue.h:203-209 | TAILQ_INSERT_TAIL as it is written: the links of the sequence with the element at the end |
| Queue.UnlinkStaleIff | include/queue.h:229-236 | removing an element that is in no queue leaves the queue's links right if and only if its stale links agree with its former neighbours and the head |
| Queue.SecondRemoveBreaks | include/queue.h:229-236 | e, x out, z in, e out again: from any queue with x behind e, the pointer that led to e leads to x, which is not in the queue |
| Queue.List.constructor | include/queue.h:100-103 | LIST_INIT represents the empty sequence |
| Queue.List.InsertHead | include/queue.h:143-149 | an element not in the list goes in front; the rest keeps its order |
| Queue.List.Remove | include/queue.h:157-162 | any element of the list is taken out; the rest keeps its order |
| Queue.TailQueue.constructor | include/queue.h:187-191 | TAILQ_INIT represents the empty sequence |
| Queue.TailQueue.InsertHead | include/queue.h:193-201 | an element not in the queue goes in front |
| Queue.TailQueue.InsertTail | include/queue.h:203-209 | an element not in the queue goes to the end, through the tail pointer |
| Queue.TailQueue.Remove | include/queue.h:229-236 | any element is taken out, and the tail pointer follows when it was the last |
| Queue.TailQueue.Traverse | include/queue.h:238-239 | following the links from the head visits exactly the sequence, in order |
| Bitmap.SetOnes | fs/fs.c:218-218 | setting a bit of a word adds exactly that number to the set the bitmap stands for |
| Bitmap.ClearOnes | kern/env.c:58-64 | clearing a bit removes exactly that number |
| Bitmap.MachineBits | kern/env.c:33-47 | on 32-bit words, or-ing and and-not-ing a shifted one set and clear that bit and leave every other bit alone |
| Bitmap.WordUpdates | kern/env.c:33-64 | a 32-bit machine word holding the bits of a model word still does after the or of a set and the and-not of a clear |
| Asid.AsidMap.Alloc | kern/env.c:33-47 | the smallest unused ASID becomes used and no other changes; it fails exactly when all are used |
| Asid.AsidMap.Free | kern/env.c:58-64 | the ASID, and no other, becomes unused |
| Pmap.PageAllocInv | kern/pmap.c:147-180 | taking a zeroed frame from the free list keeps conservation, with the frame in flight, and changes no translation |
| Pmap.UnmapInv | kern/pmap.c:344-382 | dropping a mapping keeps conservation, frees the frame exactly at its last reference, and empties exactly one page |
| Pmap.MapInv | kern/pmap.c:262-309 | mapping a frame that is in flight or already mapped keeps conservation and changes exactly one page, whose entry is that frame with the permissions given, valid and cacheable |
| Pmap.SetPteWalks | kern/pmap.c:317-337 | writing one table entry changes the translation of one page and of no other in any address space |
| Pmap.OverwriteKeepsWalks | include/pmap.h:47-59 | overwriting a frame that is no table or directory changes no translation |
| PmapSteps.RemapInv | kern/pmap.c:262-309 | changing the permissions of a mapped page changes no count and only that page, which keeps its frame and has exactly the new permissions, valid and cacheable |
| PmapSteps.NewTableInv | kern/pmap.c:214-248 | a new page table, being zeroed, changes no translation and is named by one directory entry |
| PmapSteps.NewTableWords | kern/pmap.c:214-248 | the directory entry is the first free frame, valid and cacheable and nothing else, and every word of the new table is zero |
| PmapSteps.NewDirInv | kern/env.c:207-234 | a new directory has one reference and no user page |
| PmapSteps.NewDirWords | kern/env.c:207-234 | every word of the new directory: the template's from UTOP to UVPT, the directory itself, read-only, at UVPT, and zero elsewhere |
| PmapSteps.DropTableInv | kern/env.c:427-463 | dropping an empty table frees its frame; every page outside that table, in every address space, reads as before |
| PmapSteps.DropDirInv | kern/env.c:427-463 | dropping an empty directory frees its frame and ends that address space only |
| PmapSteps.StoreInv | kern/pmap.c:147-158 | user stores into frames that are neither tables nor directories change no translation and no count |
| PageMap.PageRemoveCorrect | kern/pmap.c:358-382 | page_remove drops exactly the one page and its one reference |
| PageMap.PageInsertCorrect | kern/pmap.c:262-309 | page_insert against a flat map: success makes exactly one page of one directory the frame with the permissions given, valid and cacheable; it fails exactly when a table is missing and no frame is free, and then changes nothing |
| PageMap.PageInsertNames | kern/pmap.c:262-309 | exactly which slots name which frames after page_insert: the page names the new frame, a directory entry without a table names the first free frame, every other slot what it named |
| PageMap.MapKeepsInvIff | kern/pmap.c:300-307 | writing an empty entry keeps conservation if and only if the frame is in flight or already mapped as user data |
| PageMap.InsertKeepsInvIff | kern/pmap.c:262-309 | the whole of page_insert, whatever the page held and whether or not a table has to be made, perhaps of the very frame: it keeps conservation if and only if the frame is in flight or already mapped as user data, or there is neither a table nor a frame for one |
| PageMap.LookupRemoveInsertBreaks | kern/syscall_all.c:181-212 | a lookup, a removal of the last mapping by another CPU and then the insert, at any page, break conservation, from any state |
| PageMap.SysMemAllocLeakIff | kern/syscall_all.c:143-165 | sys_mem_alloc strands a frame if and only if its table is missing and exactly one frame is free |
| PageMap.SysMemAllocCorrect | kern/syscall_all.c:143-165 | sys_mem_alloc maps exactly the page it was given, with the permissions it was given, on a frame that reads as zeros; on failure no page changes |
| PageMap.FreePtesCorrect | kern/env.c:444-452 | unmapping the entries of a table drops exactly their references |
| PageMap.FreePdesCorrect | kern/env.c:436-459 | the loop over the directory drops exactly the references of that address space below UTOP |
| PageMap.EnvFreeCorrect | kern/env.c:427-463 | env_free drops exactly the references of one address space and keeps conservation |
| PmapRuns.BootInv | kern/pmap.c:103-129 | the state page_init leaves conserves references |
| PmapRuns.EnvFreeOthers | kern/env.c:427-463 | freeing an env changes no translation of another |
| PmapRuns.EnvFreeCounts | kern/env.c:427-463 | every count drops by exactly the env's references; a frame is free afterwards exactly if it was free or was held by that env alone |
| PmapRuns.LifeRestores | kern/env.c:207-234 | set up, any sequence of its own operations, then freed: every count, the set of free frames and every other address space are what they were |
| EnvDeath.TurnInv | kern/env.c:435-457 | each section of env_free, in any state other CPUs may have left, keeps conservation and changes nothing of another address space |
| EnvDeath.NextInv | kern/env.c:435-457 | so does every step of every CPU with any number of envs half freed |
| EnvDeath.Conservation | kern/pmap.c:103-382 | in every run from boot, env_free interleaved section by section, each count is the number of slots naming the frame; the free list holds, once each, exactly the unreferenced frames not in flight; tables and directories have one owner and are never user data; and nothing is named behind the place an env_free has reached |
| EnvDeath.InsertWhileFreeingIff | kern/env.c:435-457 | a page_insert into an address space that is being freed keeps the invariant if and only if env_free has not passed that page |
| EnvDeath.InsertBehindBreaks | kern/syscall_all.c:181-212 | an insert behind that place, in any state, makes some later section of env_free break conservation |
| EnvDeath.InsertAfterDropBreaks | kern/env.c:456-457 | a table made for a directory that is already on the free list breaks conservation, also when the table's frame is that directory |
| EnvDeath.DropTableKeepsInvIff | kern/env.c:450-452 | dropping a table keeps conservation if and only if the table is empty |
| EnvDeath.DropDirKeepsInvIff | kern/env.c:456-457 | dropping a directory keeps conservation if and only if it has no table |
| EnvDeath.SectionsAddUp | kern/env.c:435-457 | with nobody in between, the sections are env_free in one go |
| EnvLife.EnvAllocLeakIff | kern/env.c:255-311 | env_alloc strands the directory it set up if and only if a slot and a frame are free and all ASIDs are used; it succeeds exactly when all three are there, and the other failures change nothing |
| EnvLife.EnvFreeInv | kern/env.c:427-476 | env_free keeps slots, directories and ASIDs matched: each live env has its own directory and ASID, and nothing else is used |
| EnvLife.LifeRestoresAll | kern/env.c:255-476 | allocated, any sequence of its own operations, freed: the used ASIDs, the free slots and the live envs, every count, the set of free frames and every other address space are what they were |
| EnvRuns.StepInv | kern/env.c:255-476 | env_alloc, every operation on frames and tables and every section of env_free, of any number of envs at once, keep directories and ASIDs with one env each, slots exact, and lost directories empty |
| EnvRuns.NothingElseLeaks | kern/env.c:255-476 | in every such run from boot each ASID in use and each directory belongs to one env that has yet to give it back, but for one directory for each env_alloc that found no ASID; and once no env is left every ASID and slot is free, and every frame but boot's, those in flight and those directories |
| EnvKernel.EnvPool.constructor | kern/env.c:160-183 | env_init: every slot on the free list, lowest first, and no ASID used |
| EnvKernel.EnvPool.EnvAlloc | kern/env.c:255-311 | env_alloc on the intrusive lists, the page tables and the ASID bitmap is the specified step, its failures included |
| EnvKernel.EnvPool.EnvFree | kern/env.c:427-476 | env_free on the same structures is the specified step |
| PmapKernel.PhysicalMemory.constructor | kern/pmap.c:103-129 | page_init: the frames above the boot memory on the intrusive free list, unreferenced |
| PmapKernel.PhysicalMemory.PageAlloc | kern/pmap.c:147-180 | page_alloc on the intrusive free list is the specified step |
| PmapKernel.PhysicalMemory.PgdirWalk | kern/pmap.c:214-248 | finds the table, or makes one when asked and a frame is free; the word it points at is the flat lookup |
| PmapKernel.PhysicalMemory.PageLookup | kern/pmap.c:317-337 | the flat lookup of a virtual address |
| PmapKernel.PhysicalMemory.PageDecref | kern/pmap.c:344-353 | one reference fewer, and the frame on the free list exactly when that was the last |
| PmapKernel.PhysicalMemory.PageRemove | kern/pmap.c:358-382 | page_remove is the specified step |
| PmapKernel.PhysicalMemory.PageInsert | kern/pmap.c:262-309 | page_insert, with its branch for the page already mapped, is the specified step |
| PmapKernel.PhysicalMemory.EnvSetupVm | kern/env.c:207-234 | a zeroed directory with the shared upper entries, or failure when no frame is free |
| PmapKernel.PhysicalMemory.EnvFree | kern/env.c:427-463 | the nested loops of env_free are the specified step |
| PmapKernel.VaOfParts | include/mmu.h:14-15 | an address made of a directory index, a table index and an offset has those parts, and is below UTOP exactly if its directory index is a user one |
| PmapKernel.PartsOfVa | include/mmu.h:14-15 | every address is made of its parts |
| Ipi.StepInv | kern/smp.c:120-289 | every step of every CPU keeps the mailbox protocol's invariant |
| Ipi.ServesAWaiter | kern/smp.c:261-289 | a handler runs only for the CPU that holds the mailbox and waits |
| Ipi.ExactlyOnce | kern/smp.c:220-243 | for any number of CPUs, each target found ready has run the call once, each CPU ready at the start was found ready, and no other CPU has run it |
| Ipi.ExecutesOnlyTheWaitersCall | kern/smp.c:261-289 | what a handler is about to run is the waiting caller's function with that caller's two arguments, not yet run there |
| Ipi.SetAndClearApart | kern/smp.c:120-148 | the two-access set of a pending word never overlaps its two-access clear, nor another set |
| Ipi.NoDeadlock | kern/smp.c:150-159 | with fewer than four CPUs, in every reachable state every CPU waits along a chain, each blocked on the next by a mailbox lock, a done flag or a leaf lock, that ends at a CPU that is not blocked |
| IpiDeadlock.FourBlocked | kern/smp.c:220-243 | with four CPUs there is a run to a state in which all four are blocked |
| IpiDeadlock.CallFinishes | kern/smp.c:220-243 | a call that finds the other CPUs idle can be run to its end, and has then run exactly once on each ready one and left everything else as it was |
| IpiDeadlock.LeafFinishes | kern/smp.c:150-159 | a section of a free leaf lock takes it, releases it and changes nothing |
| Tlb.StepInv | kern/tlbex.c:29-98 | page-table writes, refills, invalidations and remote calls keep the coherence invariant |
| Tlb.Coherence | kern/tlbex.c:29-98 | a TLB entry is the current pair of page-table words, or the shootdown of that pair has yet to run on that CPU |
| Tlb.ReplacedTranslationIsGone | kern/pmap.c:358-382 | once an update has returned, no CPU holds a translation fetched before it |
| Tlb.QuiescentAgrees | kern/tlbex.c:40-46 | with no shootdown of a pair in progress every TLB entry for it is the page table's |
| Tlb.NewWordArrives | kern/pmap.c:262-309 | once an update of a page has returned and until the next, every CPU that translates the page does so by the new word, even with updates of its neighbour under way |
| Tlb.RefillFetches | kern/tlbex.c:79-98 | an undisturbed refill leaves the page table's pair in the TLB, and all else as it was |
| TlbFinish.UpdateFinishes | kern/tlbex.c:29-46 | with the other CPUs idle an update, its flush and its broadcast can be run to their end, after which no TLB has another word for the page |
| AsidReuse.NothingLeft | kern/env.c:456-459 | when an ASID's page table is empty and no shootdown of it is under way, no TLB has a word of it and no refill has fetched one |
| AsidReuse.NoWordOfEarlierOwner | kern/env.c:270-291 | from then on, in any run, every word any TLB holds for the ASID was put into its page table since |
| AsidReuse.EmptyButNotSettled | kern/pmap.c:358-382 | without the second condition it fails: another CPU has taken out the last page and has yet to shoot it down, the page table is empty, and a TLB still has the word |
| SchedInv.StepInv | kern/sched.c:29-102 | every step of every CPU keeps the scheduler's invariant |
| SchedRuns.ExclusiveExecution | kern/sched.c:56-101 | an env is owned by at most one CPU, its fields name that CPU, and a pinned env is owned by its CPU only |
| SchedRuns.NeverPicksMarked | kern/sched.c:69-94 | a pick is RUNNABLE, unmarked, allowed on that CPU and owned by no other |
| SchedRuns.QueueIsRunnable | kern/env.c:17-19 | env_sched_list holds exactly the RUNNABLE envs, once each, in every reachable state |
| SchedRaces.SetStatusKeepsListsIff | kern/syscall_all.c:295-328 | the status change keeps the run queue and its links exact if and only if the env is not free, or is made RUNNABLE, or its stale links agree by chance; it keeps the free list exact if and only if the env is not free |
| SchedRaces.FreedBeforeStatus | kern/syscall_all.c:295-328 | the run: another CPU frees the env between envid2env and the lock, and an env on the free list gets a live status |
| SchedRaces.WakeKeepsListsIff | kern/syscall_all.c:414-478 | the wake-up keeps the run queue exact if and only if the receiver is not RUNNABLE, and the free list if and only if it is not free |
| SchedRaces.WokenBeforeWake | kern/syscall_all.c:414-478 | the run: the receiver's parent makes it RUNNABLE between claim and wake-up, and it is in the queue twice |
| SchedRaces.FreedBeforeWake | kern/syscall_all.c:414-478 | the run: the receiver is freed in between, and is RUNNABLE on the free list |
| SchedRaces.ReceiveKeepsQueueIff | kern/syscall_all.c:375-396 | the caller's TAILQ_REMOVE in sys_ipc_recv keeps the queue's links right if and only if the caller is RUNNABLE or its stale links agree by chance |
| SchedRaces.BlockedWhileRunning | kern/syscall_all.c:295-328 | a parent on another CPU can make a running env NOT_RUNNABLE, which leaves it running and off the queue |
| SchedRaces.ReceiveBreaksQueue | kern/syscall_all.c:375-396 | the run, from any state of that shape: the parent takes e and its successor off the queue and puts a third on, e calls sys_ipc_recv, and the queue leads to an env that is not RUNNABLE |
| SchedRaces.RunAssertIff | kern/env.c:582-585 | between a pick and env_run, a step of another CPU makes the assertion of env_run false if and only if it is the env's parent making it NOT_RUNNABLE |
| SchedRaces.StoppedBeforeRun | kern/env.c:582-585 | and that step, taken by the parent on another CPU, leaves the pick pending and the assertion false |
| SchedRuns.FreedOnceAndAlone | kern/env.c:465-476 | an incarnation is freed at most once, while no CPU owns it and no other CPU is freeing it |
| SchedRuns.WaitReturnsAfterFree | kern/env.c:496-505 | env_wait_remote_destroy returns only after that incarnation was freed |
| SchedRuns.WaitConditionStaysFalse | kern/env.c:496-562 | and its condition stays false for ever, even if the slot is reused |
| SchedCalls.DestroyLasts | kern/env.c:527-562 | at any moment after env_destroy, that incarnation has been freed, or is still marked and some CPU is freeing it or waiting for that |
| SchedCalls.MarkedStops | kern/env.c:507-518 | a CPU that runs a marked env frees it at its next pass through schedule: off the queue, on the free list, its id logged |
| SchedCalls.OneSender | kern/syscall_all.c:414-478 | once a sender has claimed a receiver that nobody else is sending to, no other sender claims it before it is done or the receiver asks again |
| SchedCalls.SendEffects | kern/syscall_all.c:414-478 | a send that fails puts everything back; one that succeeds makes the receiver RUNNABLE at the tail and changes nothing else |
| SchedCalls.ReceiveEffects | kern/syscall_all.c:375-396 | the receiver can be sent to, is off the queue and off its CPU, and no other env changes its status |
| SchedCalls.StatusEffects | kern/syscall_all.c:295-328 | the status is set, the env is queued if and only if it is RUNNABLE, at the tail if it was not, and the others keep their places |
| SchedCalls.ChildOfCaller | kern/syscall_all.c:257-281 | the child is the caller's to act on, has its priority, is not runnable and is under an id no live env has |
| SchedRuns.BoundedBypass | kern/sched.c:56-95 | while an env waits, CPUs that may run it pick at most as many others as were unclaimed ahead of it, which are fewer than the queue has |
| SchedSlices.SliceExact | kern/sched.c:56-101 | from the pick of an env, while it stays runnable and unmarked and its CPU does not yield, the next priority - 1 passes of that CPU through schedule go on with it and the one after puts it at the tail and searches; with priority 0 none does |
| SchedSlices.YieldHandsOver | kern/sched.c:56-67 | a pass that yields puts the env at the tail and searches, whatever is left of its slice |
| SchedSlices.BoundedWait | kern/sched.c:56-101 | while an env waits, a CPU that may run it passes through schedule at most the largest priority times the number of unclaimed envs ahead of it, and what is left of its slice |
| SchedSlices.SpinEnds | kern/sched.c:71-101 | a CPU that found nothing picks that env, or one ahead of it, at its next search, and runs it |
| SchedKernel.EnvTable.constructor | kern/env.c:160-183 | env_init: the loop leaves every slot unused and on the free list, lowest first, and the run queue empty |
| SchedKernel.EnvTable.EnvCreate | kern/env.c:396-418 | env_create_named: the first free slot becomes a RUNNABLE env at the head of the run queue with the priority given, pinned to CPU 0 if it is the file server, and the state is again one that runs may start from |
| SchedKernel.EnvTable.Envid2Env | kern/env.c:118-151 | the env an id names, or none when the slot is free or holds another incarnation |
| SchedKernel.EnvTable.Schedule | kern/sched.c:56-101 | the locked section on the intrusive queue is the specified step |
| SchedKernel.EnvTable.Search | kern/sched.c:71-94 | the search picks the first env in the queue this CPU may run |
| SchedKernel.EnvTable.SetEnvStatus | kern/syscall_all.c:295-328 | sys_set_env_status on the intrusive queue, whatever became of the env since envid2env: on one that is not free it is the specified step; on any it makes exactly these changes to the links |
| SchedKernel.EnvTable.MarkDestroy | kern/env.c:527-562 | env_destroy marks an env another CPU runs and claims any other for freeing |
| SchedKernel.EnvTable.FreeEnv | kern/env.c:465-476 | the locked end of env_free takes the env off the queue if it is there and frees its slot |
| SchedKernel.EnvTable.Exofork | kern/syscall_all.c:257-281 | the child gets a free slot and a fresh id, is not runnable, is the caller's child and has its priority |
| SchedKernel.EnvTable.ExoforkThenFind | kern/env.c:118-151 | the caller finds the new slot by the id it got, with the permission check on |
| SchedKernel.EnvTable.Wake | kern/syscall_all.c:414-478 | the end of sys_ipc_try_send, whatever became of the receiver since the claim: the specified step on a waiting one, and on any exactly these changes to the links |
| SchedKernel.EnvTable.ReceiveSection | kern/syscall_all.c:375-396 | the locked section of sys_ipc_recv, whether or not the caller is still queued: exactly these changes to the links, and the specified state when it is |
| SchedKernel.EnvTable.Receive | kern/syscall_all.c:375-396 | sys_ipc_recv with the schedule it ends in, on the intrusive queue, is the specified step |
| Cow.StepInv | user/lib/fork.c:16-169 | every step of every env, in the middle of a fork or a fault or not, keeps the relation to the copying system |
| Cow.ForkLooksLikeCopy | user/lib/fork.c:123-169 | after any interleaving, a running env maps outside UCOW exactly the pages it would map had every fork copied private pages, and each reads what it would read then |
| CowFork.PassGives | user/lib/fork.c:79-110 | the step that takes the loop past a page leaves both with what was due: the same entry for a LIBRARY page, otherwise the frame without write permission, COW if it was writable or COW, and its data; no other page changes |
| CowFork.ChildGetsPage | user/lib/fork.c:144-156 | in any interleaving, with the parent faulting and storing in its own fork, a page the loop has passed is the child's exactly as it stood for the parent when it was passed |
| CowFork.ChildStarts | user/lib/fork.c:144-169 | when the child is let go, every page below USTACKTOP is so, it runs, and the copying system agrees |
| CowFork.ForkAlone | user/lib/fork.c:123-169 | with nobody in between: the child has exactly the parent's pages below USTACKTOP, on the same frames, both read what the parent read before, LIBRARY entries are the same, nothing private stays writable, and no other env notices |
| CowFork.LoopMatchesSteps | user/lib/fork.c:144-156 | the two nested loops call duppage for the very pages those steps do, in the same order |
| CowFork.StoreSeenBySharers | user/lib/fork.c:58-110 | a store is read back in its page and in every page of the same LIBRARY cell, and in no other page of a running env |
| CowFork.AllocIsZero | kern/syscall_all.c:143-165 | a new page is writable and reads zero, and no other page changes |
| CowFork.UnmapTakesOne | kern/syscall_all.c:224-241 | the page is gone, no frame is written, and no other page changes |
| Cow.HandlerRuns | user/lib/fork.c:16-56 | cow_entry leaves the page writable, not COW, on a frame of its own with the contents it had, UCOW unmapped, and all else as it was |
| Cow.SwappedOrderLeaks | user/lib/fork.c:79-110 | with duppage's two remaps swapped, a parent that faults in between shows its later stores to the child, from any state |
| Cow.ForkLoop | user/lib/fork.c:144-156 | the nested loops visit exactly the mapped pages below USTACKTOP, each once, in ascending order |
| Pipe.StepInv | user/lib/pipe.c:132-201 | every single access of reader and writer keeps the ring's invariant |
| Pipe.Wrap | user/lib/pipe.c:20-26 | the slot and the difference of wrapping 32-bit counters are those of the counts, because 32 divides 2^32 |
| Pipe.Fifo | user/lib/pipe.c:132-201 | bytes taken out are a prefix of bytes put in, at most 32 behind, and the counters' difference is the number in between |
| Pipe.WriteReturns | user/lib/pipe.c:172-201 | a write puts in the first bytes of its argument, as many as it returns, and falls short only if the reader has closed |
| Pipe.ReadReturns | user/lib/pipe.c:132-159 | a read takes the next bytes, falls short only after seeing the ring empty, and returns nothing only if the writer has closed; what is then unread was written after that look |
| Pipe.WriteFits | user/lib/pipe.c:172-201 | a write that finds room for the rest of its bytes puts them all in without waiting and returns their number |
| Pipe.ReadTakes | user/lib/pipe.c:132-159 | a read that finds bytes takes as many as it wants, or all there are, without waiting, and returns their number |
| Pipe.ShortReadIsEnd | user/lib/pipe.c:132-159 | a read called after the writer closed that falls short has taken everything ever written |
| Pipe.EarlyEnd | user/lib/pipe.c:143-149 | otherwise a read can return 0 with a byte unread, from any idle state with an empty ring |
| PipeEof.StepInv | user/lib/fd.c:94-181 | every unmap and map of close, dup, fork and env_free keeps the data page beside every open end |
| PipeEof.RefsBound | user/lib/pipe.c:95-117 | the data page has at least as many references as both ends together |
| PipeEof.LooksClosedIff | user/lib/pipe.c:95-117 | an end sees the pipe closed exactly when the data page is mapped nowhere but beside that end |
| PipeEof.NeverClosedWhileOpen | user/lib/pipe.c:238-244 | if an end sees the pipe closed, the other end has no descriptor, then or at any later moment of any run |
| PipeEof.ClosedWhenQuiet | user/lib/pipe.c:238-244 | once no operation is half way, an end sees the pipe closed exactly when the other end has no descriptor |
| PipeEof.DeathEnds | kern/env.c:435-457 | from any state the steps of env_free alone take a dying env to its end, so a killed env does not keep the pipe half way |
| PipeEof.DupWorks | user/lib/fd.c:128-181 | in any interleaving with other envs a dup whose maps succeed ends with the new descriptor equal to the old one, fd page and data page, and the old one as it was |
| PipeEof.DupFinishes | user/lib/fd.c:128-181 | and it can always be run to that end |
| PipeEof.ForkInherits | user/lib/fork.c:92-97 | after fork the child has exactly the parent's descriptors, and nobody else's change |
| PipeEof.SplitReadRight | user/lib/pipe.c:108-114 | with the two counts read at different moments, "closed" is right if no descriptor of the asking end has gone in between |
| PipeEof.SplitReadExact | user/lib/pipe.c:108-114 | and exactly then, when no operation is half way at the second read |
| PipeEof.SplitReadWrong | user/lib/pipe.c:108-114 | two readers and a writer: the other reader closes between the reads and the writer is reported gone |
| FsBlocks.FileSystem.BlockIsFree | fs/fs.c:191-201 | a block on the disk is free exactly if its bit is set |
| FsBlocks.FileSystem.FreeBlock | fs/fs.c:205-219 | adds the block to the free set; block 0 and blocks past the disk are ignored |
| FsBlocks.FileSystem.AllocBlockNum | fs/fs.c:227-240 | the smallest free block from 3 on, no other bit changes, and failure exactly when there is none |
| FsBlocks.FileSystem.AllocBlock | fs/fs.c:244-261 | the smallest free block, with a zeroed page unless the cache still has one for it; which error exactly when, and every error leaves the bitmap and the cache as they were |
| FsBlocks.FileSystem.ReadBlock | fs/fs.c:104-143 | panics on a block that is free or past the disk, fails when it needs a page and there is none, and otherwise leaves the block cached |
| FsBlocks.FileSystem.FileBlockWalk | fs/fs.c:379-414 | with and without allocation: the slot of a file index, which error or panic, and what the new indirect block holds |
| FsBlocks.FileSystem.FileMapBlock | fs/fs.c:427-451 | block i of a file is found or made; where one was made, every other slot stays and the block is a new one if and only if the new indirect block, if any, brought no stale pointers and the file's indirect block was not itself the next free one; a stale pointer is taken for the file's block |
| FsBlocks.FileSystem.FileGetBlock | fs/fs.c:478-492 | on a file that owns its blocks: the block is found or made and read; unless a stale indirect block was reused the file still owns its blocks, blocks only move from the free set to it, and it does not panic |
| FsBlocks.FileSystem.GetBlock | fs/fs.c:478-492 | and another such file keeps its slots and its blocks |
| FsBlocks.StaleIndirect | fs/fs.c:379-414 | a free block the cache still holds becomes an indirect block, and the file gets a block that was in use |
| FsBlocks.SlotIsWalk | fs/fs.c:379-414 | the walk on the file server's pointers is the walk on an image of the format tool |
| FsBlocks.FileSystem.FileClearBlock | fs/fs.c:455-469 | empties one slot and frees its block, and touches no other slot |
| FsBlocks.FileSystem.FileTruncate | fs/fs.c:716-740 | by bytes: a block with a byte below the new size keeps its slot, one with bytes above it only loses its slot and becomes free, and the indirect block goes exactly when ten blocks hold the new size; by slots: what is freed, exactly; it panics exactly when a dropped index has no slot, or the indirect block cannot be read or is freed before the last of them |
| FsBlocks.BlocksHoldIff | fs/fs.c:719-720 | the block count of a size counts the blocks that hold bytes of it if and only if the size is at most 2^32 - 4096; above, it is 0 |
| FsBlocks.FileSystem.Truncate | fs/fs.c:716-740 | a file that owns its blocks still does, keeps every block with a byte below its new size, and every other block of it moves to the free set; it panics only for want of a page for the indirect block |
| FsFormat.Formatter.constructor | tools/fsformat.c:105-133 | init_disk: an empty root, and exactly the blocks of the disk marked free |
| FsFormat.Formatter.NextBlock | tools/fsformat.c:136-139 | hands out blocks in order |
| FsFormat.Formatter.SaveBlockLink | tools/fsformat.c:173-185 | sets one pointer, through a new index block if need be, and changes no other pointer or block |
| FsFormat.Formatter.MakeLinkBlock | tools/fsformat.c:188-193 | a full directory gets one more block of unused entries and still holds its children |
| FsFormat.Formatter.FindUnused | tools/fsformat.c:209-236 | the search ends at the entry after the last child, or finds all entries used |
| FsFormat.Formatter.CreateFile | tools/fsformat.c:208-244 | the first unused entry, in a new block when all are used; the directory still holds its children |
| FsFormat.Formatter.WriteFile | tools/fsformat.c:247-276 | the file becomes the directory's next child and nothing already written changes |
| FsFormat.Formatter.WriteDirectory | tools/fsformat.c:285-312 | the directory, with all that is in it, becomes the next child and nothing already written changes |
| FsFormat.Formatter.FlushBitmap | tools/fsformat.c:142-149 | exactly the blocks not handed out stay free |
| FsFormat.Formatter.WriteAll | tools/fsformat.c:314-344 | the root holds all arguments and as many blocks are used as the tree needs |
| FsImage.ReadsBack | fs/fs.c:379-414 | an image laid out for a tree, read through its pointers, is that tree, and no pointer is set past a size |
| FsImage.NamedOnce | tools/fsformat.c:173-312 | in the image of a tree each of its blocks is named by exactly one direct, indirect or index pointer and no other block by any |
| FsImage.Format | tools/fsformat.c:314-344 | the whole program, on any arguments that fit: the image reads back as what was given, every block handed out is named once, and the bitmap has exactly the others free |
| FsLayout.FileFrame | tools/fsformat.c:247-312 | the image of a node depends on its own blocks only |
| FsLayout.AddChild | tools/fsformat.c:208-312 | a child written into the first unused entry becomes the next child |
| ElfLoad.ElfLoadSeg | lib/elfloader.c:25-60 | the mapped pages are the segment's image (file bytes, then zeros, on exactly the pages that cover it) if and only if the segment starts on a page, or its file part reaches the end of its first page, or its memory part is no longer than its file part, or its file part is zeros and the last call reaches the last page; it fails exactly when there are fewer frames than pages of the segment or, for the others, than calls it makes |
| ElfLoad.CrookedSegment | lib/elfloader.c:53-58 | a segment the loader loads without error and wrongly: the file's byte is not in its page |

## Left out

- Ipi.NoDeadlock: stated for fewer than four CPUs (the source has two); with four it is false, as FourBlocked shows.
- Tlb.ReplacedTranslationIsGone: says nothing about frames on the free list, which frames join before the shootdown (kern/pmap.c:372-380).
- SchedInv.StepInv: sys_ipc_recv by an env that is not RUNNABLE, and waking one that is not NOT_RUNNABLE, are not steps of a run, because the invariant is false after them; the exact conditions are in SchedRaces.
- SchedRuns.QueueIsRunnable: for the same runs; what the two lists are outside them is in SchedRaces.
- SchedRuns.WaitReturnsAfterFree: safety only; that a remote destroy finishes is not stated, since a mark can fall between the check and the lock (kern/sched.c:35-38).
- SchedSlices.SliceExact: the slice counter is an unbounded integer; with priority 0 the source's would end after it wraps.
- SchedSlices.BoundedWait: for priorities of at least 1, which the source does not check (kern/env.c:404).
- PipeEof.DupWorks: for two different descriptors; dup of one onto itself closes it first and then fails.
- FsBlocks.FileSystem.FileTruncate: by bytes for sizes up to 2^32 - 4096, where BlocksHoldIff holds; by slots for all.
- EnvDeath.Conservation: in runs that insert neither behind the place env_free has reached nor a frame that is neither in flight nor mapped, because the invariant is false after such inserts; the exact conditions are InsertWhileFreeingIff and InsertKeepsInvIff. Clearing a directory entry and dropping the table's reference are one step.
- PmapKernel.PhysicalMemory.EnvFree: the loops run alone, and without the ASID; interleavings are in EnvDeath and the ASID in EnvKernel.
- EnvLife.LifeRestoresAll: the env's operations between env_alloc and env_free, with no other env's in between; those are in EnvRuns.
- EnvRuns.NothingElseLeaks: in the same runs as EnvDeath.Conservation, with env_alloc as one step.
- EnvKernel.EnvPool.constructor: the loop of env_init; the mapping of the env and page arrays into base_pgdir that follows (kern/env.c:184-202) is not modelled.
- EnvKernel.EnvPool.EnvFree: run alone, and without the run queue, which SchedKernel.EnvTable.FreeEnv has.
- SchedKernel.EnvTable.EnvCreate: loading the image, and the panic when env_alloc fails, are not modelled.
- SchedKernel.EnvTable.Receive: for a RUNNABLE caller; ReceiveSection has any caller.
- AsidReuse.NoWordOfEarlierOwner: that env_free empties the page table is in EnvDeath; the two models are not joined, and nothing stops asid_free while another CPU's shootdown is under way.
- FsFormat.Formatter.WriteAll: requires that the tree fits on the disk and that names are nonempty and shorter than 128 bytes; the source asserts or overruns otherwise, and cuts longer directory names.
- ElfLoad.ElfLoadSeg: addresses are unbounded, so a segment that wraps past 2^32 is not modelled, and only the pages of the segment are counted against the frames left, not the page tables they may need.
- Cow.ForkLooksLikeCopy: failing system calls inside fork and cow_entry, which panic, are not modelled.
- Pipe.Fifo: one reader and one writer; the descriptor checks around the calls are in the end-of-file model.
- Saved register contexts, trap entry, boot code, the ll/sc bodies of locks, and devices: hardware or assembly.
- Deadlock through the console and device locks, which are held while touching user memory (kern/syscall_all.c:35-39).
- Accesses through UVPT, passive allocation, the shared UENVS and UPAGES region, and which TLB entry a refill replaces.
- On-disk persistence and byte order of the image (tools/fsformat.c:45-102).
- pipe() itself (user/lib/pipe.c:36-82): the end-of-file model starts when it has returned.
- The file server's request loop, directory operations, path lookup, spawn, shell, printf and string helpers: they pass requests along or format text, and hold no state beyond what is modelled here.
