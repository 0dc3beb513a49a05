# LainOS: verified models of its hardest parts

This project models the parts of LainOS whose correctness is not visible from any one function, and
proves what they promise, with Dafny. `dafny verify dfyconfig.toml` checks everything.

| component | source | files |
|---|---|---|
| SMP work queue and kernel tasks | `kernel/core/cpu.c` | `Smp*.dfy` |
| page and heap allocator | `kernel/core/kmem.c` | `Kmem*.dfy` |
| LainFS checker, repairer and seeder | `tools/lainfs_check_host.c`, `tools/lainfs_seed.c` | `Lainfs*.dfy` |
| TCP stream receiver | `kernel/drivers/net.c` | `Tcp*.dfy` |
| chunked body decoder | `kernel/drivers/net.c` | `Chunked.dfy` |
| xHCI rings | `kernel/drivers/usb.c` | `XhciRing.dfy`, `XhciEvents.dfy` |
| fork/join drawing | `kernel/drivers/graphics.c` | `Graphics*.dfy` |
| calendar conversion | `kernel/core/libc.c` | `Calendar.dfy` |

## How each component is modelled

**SMP work queue and kernel tasks.** A transition system (`SmpMachine`) in which any number of agents
submit, take, run, wait, release, poll and reap; a step is one locked section or one call or return of a
work function, so every interleaving of cores is a run. `SmpInvariant` holds the inductive invariant, one
predicate per concern; `SmpFrames` and `SmpPreservation` show that every step keeps it; `SmpNoneLost` that no
running task is ever without a holder. `SmpTheorems` states what follows for whole runs with fewer than 2^32
submissions per table, `SmpExecutions` that a submitted and awaited item is executed exactly once and in between,
`SmpTasks` the way of a task from its submission to the call of its function, directly or over the queue, and
`SmpReapers` when a core hangs while it reclaims finished tasks. `SmpLocks` has the locked sections themselves
as methods with their scanning loops, proved equal to the table functions the machine uses. Waiting follows the
discipline the callers use: a plain item has one waiter, a task is released by the one who waited for it.

**Page and heap allocator.** `KmemRanges` and `KmemBoot` describe tables of page ranges and what they cover;
`KmemPages.PageTable` is the range table itself, sorted, merged, split and shifted in place, with ghost sets of
the pages handed out and of those dropped on a full table. `KmemMemory` is byte-addressed memory;
`KmemShape`, `KmemOwners`, `KmemLinks` and `KmemSteps` say who owns which bytes, how the free lists and headers
are laid out in them (a free block's next pointer and a live block's magic number are the same eight bytes),
and that every step keeps all of it; `KmemHeap.Heap` has `kmalloc`, `kfree` and `kmalloc_size` over that memory.
A caller's writes into its payload, its pages, or past its payload into the guard word are steps too.

**LainFS.** `LainfsFormat` says what a well-formed directory is, without reference to the checker.
`LainfsCheck.Volume` is the checker and repairer over the directory buffer, `LainfsRead` path resolution and
reading, against paths taken apart and entries read field by field, and `LainfsSeed.Seeder` the tool that builds
images. A name is the C string in its 31-byte field.

**TCP receiver.** `TcpStream.Stream` works on 32-bit sequence numbers and a buffer that is filled behind and shifted
down; it is proved to compute `TcpSequence.Receive` for any segment whatever. `TcpSequence` then says what that means
for the positions of the bytes in the peer's stream, and exactly which segments of the peer keep the stream in order:
what was handed out and what is buffered are the acknowledged prefix of what the peer sends. `TcpRuns` takes this to
whole runs of arriving segments and reads. Segments arrive inside calls of `net_progress_device`.

**Chunked decoder.** `Decode` is a function of the input; `DecodeInPlace` overwrites its input and computes
the same. What it accepts is stated by a grammar of its own, with the digits in a table, and every failure by the
reasons for its code.

**xHCI rings.** Driver and controller share a ring of symbolic length; the controller is the one of sections
4.9.2 to 4.9.4 of the xHCI specification. One transfer is outstanding at a time and completes successfully.

**Drawing.** A job is a series of pixel writes. `GraphicsDraw` has the loops and shows that any interleaving of
the band jobs' complete writes leaves the frame buffer of a single job; its methods run the bands on the calling
core. `GraphicsJoin` puts the bands on the SMP machine: each is submitted and awaited, or refused and run by the
caller, and every write is made in a state in which some core is inside that band's job. That the writes are
complete when the drawing call returns, and that none comes later, is then proved for every run.

**Calendar.** The loops of `gmtime_r` and `mktime` against the proleptic Gregorian calendar in closed form.

Table sizes, ring lengths and buffer sizes are symbolic throughout.

## What does not hold

Each of these is proved: an input or run for which the natural statement fails, and the exact condition under
which it holds.

- Two cores that wait in `kernel_task_release_finished_smp` for the same item can leave one of them polling forever
  (`ReaperHangs`, `TwoReapersHang`, `StuckForever`). A core hangs if and only if another one freed the item while it
  was polling (`HangsIffOvertaken`), and that can still happen to it if and only if another core is inside the wait
  for that item (`CanHangIff`); as long as no two cores wait for the same item nobody hangs
  (`SingleReaperNeverSpins`).
- `net_handle_tcp` does not count the SYN. A SYN with data that arrives when the connection is already up loses a byte
  (`SynDataLosesByte`), one with a FIN can end the stream early (`SynFinEndsEarly`), and one without ACK before can
  put a byte into the buffer that is expected again (`EarlyByteTwice`). A segment of the peer keeps the stream in order
  if and only if it is `Harmless` (`GoodIff`), and a run does if and only if all of its segments are (`RunGoodIff`).
  With a peer that puts nothing on its SYN they are (`PlainRunGood`).
- `net_tcp_stream_recv` can return 0 while bytes are still in the buffer, because the peer closed
  (`LastByteLeftBehind`) or because the time was up (`TimeoutLeavesByte`). In both cases exactly the bytes of the last
  poll are left (`ZeroLeaves`); they are none if and only if the call took none, and 0 means that the whole stream was
  handed out if and only if every byte had been acknowledged before the call (`ZeroMeansEnd`, `ClosedMeansEnd`).
- `reserve_range` leaves the free pages as they are when the table is full and one range surrounds the interval
  (`ReserveSkipped`), and removes exactly the interval otherwise (`KmemPages.PageTable.Reserve`).
- `page_free` drops the pages exactly when the table is full (`FreedPageLost`, `KmemPages.PageTable.PageFree`).
- `ranges_overlap` misses some overlaps of extents that run past 2^32 (`OverlapMisled`). It never reports a false
  one (`NoFalseOverlap`), `OverlapRightIff` says for which extents it is right, and inside the partition it always
  is (`OverlapExact`).
- A file's size in blocks wraps round above 2^32 - 512 bytes; its contents have the stated length exactly up to
  that size (`ContentsCutShort`, `LainfsRead.Contents`).
- `tm_wday` is wrong for the last second of 1969 (`WeekdayWrong`), and right exactly when the time is not inside a
  day before 1970 (`WeekdayExact`).
- The channels of a gradient lie between the two colours if and only if 255 times its height less one is below 2^32
  (`WhiteDarkens`, `GradientBetweenIff`).

The deferred update of an xHCI link is enough for transfers shorter than a lap and not for one of a whole lap
(`FullLapMeetsOldLink`); the driver's transfers have at most three entries on rings of 32 and 64, so its links
always match (`DriverLinkMatches`).

## Model

| member | source | states |
|---|---|---|
| SmpInvariant.InitInv | kernel/core/cpu.c:176-212 | The empty tables satisfy the invariant. |
| SmpPreservation.StepKeeps | kernel/core/cpu.c:1256-1616 | Every step of every agent keeps the invariant, as long as the id counters have not come round. |
| SmpNoneLost.StepLosesNone | kernel/core/cpu.c:1352-1383 | No step leaves a RUNNING task without a worker, an SMP item or a submitter that holds it. |
| SmpTheorems.RunInv | kernel/core/cpu.c:1256-1616 | The invariant, and that no task is lost, hold in every state of every run with fewer than 2^32 submissions per table. |
| SmpTheorems.SlotTheorem | kernel/core/cpu.c:606-681 | In every reachable state a slot is FREE exactly when its id is 0, live ids are distinct, and a RUNNING slot has exactly one executing agent, which runs that slot's function and argument. |
| SmpTheorems.WorkIsConstant | kernel/core/cpu.c:1256-1284 | While a slot keeps its id it keeps its function and argument. |
| SmpTheorems.ItemRunsOnce | kernel/core/cpu.c:658-681 | No submitted item is ever called twice. |
| SmpTheorems.GoneItemForever | kernel/core/cpu.c:1305-1322 | A released SMP id never becomes live again. |
| SmpTheorems.GoneTaskForever | kernel/core/cpu.c:1407-1431 | A released task id never becomes live again. |
| SmpTheorems.WaitTheorem | kernel/core/cpu.c:1286-1335 | When the single waiter's smp_wait_work returns, its item has begun and ended exactly once, its slot is reclaimed, and this stays so. |
| SmpExecutions.OneExecution | kernel/core/cpu.c:1256-1335 | Between the submission of an item and the return of the wait for it lies exactly one execution, from call to return, of the submitted function and argument; in no other state of the run is any core inside it. |
| SmpTheorems.WaiterIsServed | kernel/core/cpu.c:1324-1335 | While a waiter waits, the item it waits for is in the table. |
| SmpTheorems.TaskRunsOnce | kernel/core/cpu.c:1352-1383 | A task's function is invoked at most once, exactly once by the time its slot reads DONE, and not before while it reads QUEUED, whether it went through an SMP slot or kernel_task_poll. |
| SmpTheorems.TaskIsHeld | kernel/core/cpu.c:1433-1486 | A RUNNING task is in exactly one pair of hands: one SMP item, worker or submitter. |
| SmpTheorems.FailedAsyncNeverRuns | kernel/core/cpu.c:1488-1550 | A failed asynchronous submission returns its slot to FREE and its function is never invoked in any later state. |
| SmpTheorems.NamingTheorem | kernel/core/cpu.c:1470-1483 | Every occupied SMP slot that carries a task is named by that task's smp_id or by its submitter still in flight. |
| SmpTheorems.TaskWaitTheorem | kernel/core/cpu.c:1583-1616 | When kernel_task_wait returns, the task has run exactly once, its slot is reclaimed, no occupied SMP slot belongs to it, and every SMP item submitted for it has run exactly once. |
| SmpTasks.TaskSubmitIff | kernel/core/cpu.c:1433-1520 | A task submission is turned away exactly for a null function, a full table or, if it is asynchronous, a single core; otherwise its function and argument are in a slot under a fresh id. |
| SmpTasks.SlotFromSubmission | kernel/core/cpu.c:1433-1520 | In every state of every run an occupied task slot has the function and argument of an earlier submission that got its id. |
| SmpTasks.OneSubmission | kernel/core/cpu.c:1446-1452 | No two submissions get the same id. |
| SmpTasks.CallsSubmitted | kernel/core/cpu.c:1352-1374 | Every call of a task's function in every run is its first, and with the function and argument that were submitted under its id. |
| SmpTasks.RefusedIsQueued | kernel/core/cpu.c:1477-1485 | A plain submission that gets no SMP slot is queued under the id it returns, with the function and argument of that very call, and may be waited for. |
| SmpTasks.AcceptedIsNamed | kernel/core/cpu.c:1470-1476 | One that gets a slot names the SMP item in its task and may be waited for. |
| SmpTasks.QueuedUntilPolled | kernel/core/cpu.c:1560-1581 | A queued task stays as it is, whatever all cores do, until a poll takes it. |
| SmpTasks.PollTakes | kernel/core/cpu.c:1560-1581 | A poll takes the first queued task, and does nothing if there is none. |
| SmpTasks.PolledIsCalled | kernel/core/cpu.c:1560-1581 | What the poller calls next is the queued task's function with its argument, for the first and only time. |
| SmpTasks.QueuedCanRun | kernel/core/cpu.c:1560-1581 | An agent that has nothing to do reaches that call in three steps. |
| SmpTasks.TaskDoneIff | kernel/core/cpu.c:1583-1603 | kernel_task_done answers yes exactly when the slot of the id reads DONE and names no SMP item; the task has then run once. |
| SmpTasks.WorkDoneIff | kernel/core/cpu.c:1286-1303 | smp_work_done answers yes exactly when the slot of the id reads DONE; the item has then run once. |
| SmpTasks.TaskWaiterLeaves | kernel/core/cpu.c:1605-1616 | The waiter of a task that is done leaves at its next poll and the slot is free. |
| SmpTasks.WaiterLeaves | kernel/core/cpu.c:1324-1335 | So does the waiter of an SMP item. |
| SmpReapers.RunServes | kernel/core/cpu.c:1385-1405 | As long as no two cores wait for the same item, every reaper's item is in the table until that reaper frees it. |
| SmpReapers.ReaperSeesDone | kernel/core/cpu.c:1385-1405 | A polling reaper sees DONE exactly while its item has not been freed. |
| SmpReapers.SingleReaperNeverSpins | kernel/core/cpu.c:1385-1405 | As long as no two cores wait for the same item, a reaper's wait ends at its next poll, however many others reap. |
| SmpReapers.ItemStays | kernel/core/cpu.c:1305-1322 | No step takes a task's item out of the table but a reaper's that frees this item. |
| SmpReapers.HangsIffOvertaken | kernel/core/cpu.c:1385-1405 | A polling reaper is answered 0, now and in every later state, if and only if another core freed the same item while this one was polling. |
| SmpReapers.CanHangIff | kernel/core/cpu.c:1385-1405 | A polling reaper with a finished item can still be made to hang by those already waiting if and only if another core waits for that item. |
| SmpReapers.ReaperClears | kernel/core/cpu.c:1385-1405 | A core that reclaims a finished item undisturbed does so in five steps, after which kernel_task_done answers yes for its task. |
| SmpReapers.StuckForever | kernel/core/cpu.c:1286-1335 | A reaper whose item was freed by another polls forever. |
| SmpReapers.TwoReapersHang | kernel/core/cpu.c:1385-1405 | From every state with a finished task whose item is DONE, six steps of two reapers leave one of them polling for an item that is gone. |
| SmpReapers.ReaperHangs | kernel/core/cpu.c:1385-1405 | A whole run from the initial state that ends so. |
| SmpLocks.WorkTable.TakeWork | kernel/core/cpu.c:606-623 | Takes the first QUEUED slot, marks it RUNNING and changes nothing else; fails exactly when none is queued. |
| SmpLocks.WorkTable.SubmitWork | kernel/core/cpu.c:1256-1284 | Submits into the first FREE slot under a fresh non-zero id; returns 0 exactly for a null function, a single online core or a full table, and then changes nothing. |
| SmpLocks.WorkTable.IsDone | kernel/core/cpu.c:1286-1303 | The answer of smp_work_done, 1 for id 0 included. |
| SmpLocks.WorkTable.ReleaseWork | kernel/core/cpu.c:1305-1322 | Frees the first DONE slot with the id, and nothing else. |
| SmpLocks.TaskTable.Reserve | kernel/core/cpu.c:1442-1464 | Reserves the first FREE task slot under a fresh id; fails exactly when the table is full. |
| SmpLocks.TaskTable.TakeQueued | kernel/core/cpu.c:1560-1581 | Takes the first QUEUED task; fails exactly when there is none. |
| SmpLocks.TaskTable.IsDone | kernel/core/cpu.c:1583-1603 | The answer of kernel_task_done. |
| SmpLocks.TaskTable.Release | kernel/core/cpu.c:1407-1431 | Frees the finished task with the id, and nothing else. |
| KmemRanges.FirstFit | kernel/core/kmem.c:264-286 | In a sorted table with gaps, the first range that is large enough has the lowest run of n free pages at its front. |
| KmemRanges.NoFit | kernel/core/kmem.c:264-286 | If no range is large enough, no n consecutive pages are free. |
| KmemRanges.RunInOneRange | kernel/core/kmem.c:264-286 | In a table with gaps, consecutive free pages lie in one range. |
| KmemPages.PageTable.RemoveIndex | kernel/core/kmem.c:97-105 | Removes one range and keeps the order of the others. |
| KmemPages.PageTable.SortRanges | kernel/core/kmem.c:107-116 | The exchange sort orders the ranges by start and keeps what they cover and their sum. |
| KmemPages.PageTable.MergeRanges | kernel/core/kmem.c:118-130 | Merging ends with gaps between the ranges and covers the same pages; the sum is kept if no page was in two ranges. |
| KmemPages.PageTable.Coalesce | kernel/core/kmem.c:107-131 | coalesce_ranges ends sorted, with gaps, covering exactly the same pages. |
| KmemPages.PageTable.AddFreeRange | kernel/core/kmem.c:133-143 | Appends the range and counts its pages, or changes nothing when it is empty or the table is full. |
| KmemPages.PageTable.Reserve | kernel/core/kmem.c:145-196 | Removes exactly the page-rounded interval from the free pages unless the table is full and one range surrounds it, in which case nothing changes; the free count stays the sum over the table. |
| KmemPages.ReserveSkipped | kernel/core/kmem.c:183-194 | A full table in which the reserved page stays free. |
| KmemPages.PageTable.Init | kernel/core/kmem.c:198-262 | After kmem_init only conventional pages are free; if the memory map fits in the table, all those above 1 MiB outside the reserved areas are, and exactly those with five entries to spare; the table is sorted, with gaps, and counted. |
| KmemPages.PageTable.PageAlloc | kernel/core/kmem.c:264-299 | Succeeds if and only if n > 0 consecutive pages are free, takes the lowest such run, and keeps total = free + held + dropped; a failure is counted and changes nothing else. |
| KmemPages.PageTable.PageFree | kernel/core/kmem.c:301-317 | A held run becomes free again, or is dropped when the table is full; null, empty and unaligned frees change nothing; total = free + held + dropped is kept. |
| KmemPages.FreedPageLost | kernel/core/kmem.c:309-315 | A full table in which a freed page is neither free nor held. |
| KmemPages.PageTable.constructor | kernel/core/kmem.c:40-43 | The empty table is settled. |
| KmemMemory.GetPut | kernel/core/kmem.c:422-429 | A word written to memory is read back. |
| KmemShape.LiveApart | kernel/core/kmem.c:389-470 | Live allocations do not overlap. |
| KmemOwners.RegionsApart | kernel/core/kmem.c:264-535 | Free pages, pages of page_alloc callers, blocks on the eight free lists and live allocations are pairwise disjoint in every state the invariant allows. |
| KmemOwners.PopKeeps | kernel/core/kmem.c:408-413 | Moving a block from a free list to its new owner keeps ownership exclusive and loses no block. |
| KmemOwners.PushKeeps | kernel/core/kmem.c:517-530 | So does moving it back. |
| KmemOwners.SlabKeeps | kernel/core/kmem.c:336-351 | Cutting a fresh page into blocks gives every byte of it to exactly one free block. |
| KmemOwners.ChargedWithout | kernel/core/kmem.c:368-387 | The sum of charges does not depend on the order of the allocations. |
| KmemLinks.RoomInBlock | kernel/core/kmem.c:353-355 | Header, payload and guard of every live allocation lie inside its own block. |
| KmemLinks.StampedOk | kernel/core/kmem.c:422-429 | Header and guard as kmalloc writes them are read back as kfree reads them, and lie inside the block. |
| KmemLinks.PushLinked | kernel/core/kmem.c:519-527 | Storing the old head in a block and making it the head puts it in front of the list. |
| KmemLinks.FreeNotMagic | kernel/core/kmem.c:488-498 | A block on a free list never carries the allocation mark, although the mark and the next pointer share their bytes. |
| KmemLinks.WriteInLive | kernel/core/kmem.c:389-535 | A write inside one allocation changes no free list and no other allocation. |
| KmemSteps.AllocSmall | kernel/core/kmem.c:398-435 | The heap invariant after kmalloc from a free list; other allocations keep every byte. |
| KmemSteps.FreeSmall | kernel/core/kmem.c:517-530 | The heap invariant after kfree of a small block; other allocations keep every byte. |
| KmemSteps.AllocLarge | kernel/core/kmem.c:437-469 | The heap invariant after kmalloc of a page run. |
| KmemSteps.FreeLarge | kernel/core/kmem.c:505-515 | The heap invariant after kfree of a page run. |
| KmemSteps.AddSlab | kernel/core/kmem.c:336-351 | The heap invariant after populate_class. |
| KmemSteps.UserStores | kernel/core/kmem.c:353-355 | The heap invariant after a caller's write into its payload or guard word. |
| KmemHeap.MaxIsLargest | kernel/core/kmem.c:368-375 | The recorded peak is one of the live counts there were and none was larger. |
| KmemHeap.Heap.constructor | kernel/core/kmem.c:198-213 | The heap after kmem_init satisfies the invariant with nothing live. |
| KmemHeap.Heap.ClassForSize | kernel/core/kmem.c:319-334 | The smallest class that holds payload, header and guard, or -1. |
| KmemHeap.PagesFor | kernel/core/kmem.c:447 | The least number of pages that hold payload, header and guard. |
| KmemHeap.Heap.NoteAlloc | kernel/core/kmem.c:368-375 | Charges, counts and peak agree with the live allocations afterwards. |
| KmemHeap.Heap.NoteFree | kernel/core/kmem.c:377-387 | So they do after a free, and neither underflow guard is ever needed. |
| KmemHeap.Heap.PopulateClass | kernel/core/kmem.c:336-351 | Takes the lowest free page, cuts all of it into blocks of the class and puts them in front of its list; without a free page it changes only the failure count. |
| KmemHeap.Heap.Kmalloc | kernel/core/kmem.c:389-470 | Succeeds if and only if the class list or a free page can serve the request, or for a large one the least number of pages that hold it, at most 65535, are free in a row; takes the head of the list or the lowest run; the new allocation overlaps nothing, every byte of the others is kept, used bytes grow by the block or by exactly those pages, and each failure path counts what the source counts. |
| KmemHeap.Heap.FreeListContains | kernel/core/kmem.c:357-366 | True exactly for the blocks on the eight lists. |
| KmemHeap.Heap.Kfree | kernel/core/kmem.c:481-535 | Frees a live allocation and no byte of another: a small block goes to the head of its list, a run back to the free pages unless the table is full, and the payload is overwritten; counts a guard failure exactly when the guard was overwritten; freeing an already freed, not yet reused pointer changes only double_frees; other unmarked pointers change only the fault counters. |
| KmemHeap.Heap.KmallocSize | kernel/core/kmem.c:537-552 | The requested size of a live allocation whose guard word is intact and 0 if it is not, whatever was written; 0 for null and unmarked pointers. |
| KmemHeap.Heap.PageAlloc | kernel/core/kmem.c:264-299 | page_alloc with its zeroing: the pages become the caller's, zeroed, and no allocation changes. |
| KmemHeap.Heap.PageFree | kernel/core/kmem.c:301-317 | The caller's pages go back; the heap invariant is kept. |
| LainfsTree.StopsAtRoot | tools/lainfs_check_host.c:409-437 | Where every parent is the root or a directory, a walk that stops has arrived at the root. |
| LainfsTree.CycleMissesRoot | tools/lainfs_check_host.c:409-437 | A chain that leads into a cycle never reaches the root. |
| LainfsCheck.OverlapExact | tools/lainfs_check_host.c:172-176 | Inside the partition the 32-bit overlap test is exact. |
| LainfsCheck.OverlapMisled | tools/lainfs_check_host.c:172-176 | Two extents that share a block which the test misses. |
| LainfsCheck.NoFalseOverlap | tools/lainfs_check_host.c:172-176 | The test never reports an overlap of extents that share no block. |
| LainfsCheck.OverlapRightIff | tools/lainfs_check_host.c:498-503 | Against an extent that is in bounds the test is right if and only if the other does not run past 2^32, lies wholly above, or still covers the first one's start after wrapping round. |
| LainfsCheck.ValidName | tools/lainfs_check_host.c:178-188 | Accepts exactly one to thirty characters other than slash, backslash, colon, space and tab. |
| LainfsCheck.EntryExtents | tools/lainfs_check_host.c:190-226 | Lists the extents of a file, and succeeds exactly when they are legal. |
| LainfsCheck.Volume.FindParentCycle | tools/lainfs_check_host.c:409-437 | Reports a cycle exactly when the walk up never stops, and then a member of it that the walk reaches. |
| LainfsCheck.Volume.CheckEntry | tools/lainfs_check_host.c:451-507 | The first pass for one entry: a complaint means the entry is illegal and names a justified reason. |
| LainfsCheck.Volume.CheckOverlaps | tools/lainfs_check_host.c:509-535 | The second pass succeeds exactly when no two files share a block. |
| LainfsCheck.Volume.CheckDirectory | tools/lainfs_check_host.c:439-538 | Returns no complaint if and only if the directory is well-formed. |
| LainfsCheck.PairExact | tools/lainfs_check_host.c:509-535 | For two legal files the 32-bit tests decide whether they share a block. |
| LainfsCheck.JustifiedFixable | tools/lainfs_check_host.c:550-588 | Every complaint about a parent, cycles included, or about directory metadata can be repaired. |
| LainfsCheck.RepairLowersDamage | tools/lainfs_check_host.c:550-588 | Each repair strictly lowers the damage and leaves names, types, file sizes and start blocks alone. |
| LainfsCheck.RepairCures | tools/lainfs_check_host.c:550-588 | After a repair the entry hangs off the root, has clean directory metadata or is a legal file, as the complaint was, and no other entry has changed. |
| LainfsCheck.LegacyExact | tools/lainfs_check_host.c:540-549 | legacy_fields_valid says exactly whether the file is legal without its list of extents. |
| LainfsCheck.GivesUp | tools/lainfs_check_host.c:629-645 | A repair that gives up leaves a bad layout, type or name, a block that is listed twice, or a file that is illegal with its list of extents and without. |
| LainfsCheck.Volume.RepairOnce | tools/lainfs_check_host.c:550-588 | Repairs exactly the fixable complaints, changing one entry. |
| LainfsCheck.Volume.Repair | tools/lainfs_check_host.c:629-645 | The repair loop ends, saves the directory only when it passes the check, leaves files alone, and below its cap gives up only on a justified complaint that cannot be repaired. |
| LainfsRead.FindEntryInDir | tools/lainfs_check_host.c:249-260 | The first entry with that parent, name and type. |
| LainfsRead.NextComponent | tools/lainfs_check_host.c:228-247 | The next path component, the end of the path, or a component that is too long. |
| LainfsRead.ResolvePath | tools/lainfs_check_host.c:262-305 | Path resolution as a function of the directory. |
| LainfsRead.ResolveExact | tools/lainfs_check_host.c:262-305 | For any directory and any path: a path without names is the root; entry i is found if and only if the names, none longer than 31, lead there from the root through the first directory of each name, at the end to a directory before a file; otherwise nothing. |
| LainfsRead.TakeApart | tools/lainfs_check_host.c:228-247 | Every path is names with slashes and backslashes between and around them. |
| LainfsRead.Contents | tools/lainfs_check_host.c:307-343 | The bytes of a file; as many as its size exactly up to 2^32 - 512. |
| LainfsRead.ContentsByte | tools/lainfs_check_host.c:307-343 | Every byte of a file by the fields of its entry, over one to three extents in the order in which they are listed. |
| LainfsRead.LegalExtentsIff | tools/lainfs_check_host.c:190-226 | Which entries list their blocks correctly, by their fields. |
| LainfsRead.ContentsCutShort | tools/lainfs_check_host.c:307-343 | A file of 2^32 - 1 bytes that passes for legal, of which one block is read. |
| LainfsRead.ReadFile | tools/lainfs_check_host.c:307-343 | Reads exactly the file's contents and reports the size of the entry, which is their length exactly up to 2^32 - 512; fails exactly for what is no file, illegal extents and blocks outside the image. |
| LainfsSeed.LowestFree | tools/lainfs_seed.c:185-198 | The lowest free run of the length; none exists when it fails. |
| LainfsSeed.FormatSeeded | tools/lainfs_seed.c:460-478 | A freshly formatted directory satisfies the seeder's invariant. |
| LainfsSeed.MakeDirSeeded | tools/lainfs_seed.c:204-234 | make_dir keeps the invariant, unique (parent, name) pairs included, and adds the directory asked for. |
| LainfsSeed.SaveFileSeeded | tools/lainfs_seed.c:236-291 | save_file keeps it and adds the file asked for. |
| LainfsSeed.SaveFileIff | tools/lainfs_seed.c:236-291 | save_file succeeds if and only if the name is legal and not taken, the file has at most 4 MiB, an entry is unused and so many blocks in a row belong to no file; it then takes the first such entry and the lowest such place. |
| LainfsSeed.MakeDirIff | tools/lainfs_seed.c:204-234 | make_dir succeeds if and only if the name is legal and is that of a directory there, which is the answer, or of nothing and an entry is unused. |
| LainfsSeed.FreeRunExact | tools/lainfs_seed.c:167-183 | The test of a run of blocks is about the owners of each of them. |
| LainfsSeed.SeededWellFormed | tools/lainfs_check_host.c:439-538 | Every directory the seeder can build is accepted by check_directory. |
| LainfsSeed.ReadsWhatWasWritten | tools/lainfs_seed.c:275-288 | What was written is what is read. |
| LainfsSeed.OthersUndisturbed | tools/lainfs_seed.c:275-288 | Writing blocks a file does not own leaves its contents alone. |
| LainfsSeed.PathResolves | tools/lainfs_check_host.c:262-305 | The full path of every entry resolves to that entry. |
| LainfsSeed.RunKeeps | tools/lainfs_seed.c:204-291 | Over any series of make_dir and save_file the invariant holds and earlier files are kept. |
| LainfsSeed.RoundTrip | tools/lainfs_seed.c:236-291 | A saved file is found under its path and reads back exactly as saved, in every later state. |
| LainfsSeed.Seeder.ExtentIsFree | tools/lainfs_seed.c:167-183 | True exactly for runs in the data area that no file owns. |
| LainfsSeed.Seeder.FindFreeExtent | tools/lainfs_seed.c:185-198 | The search loop finds the lowest free run. |
| LainfsSeed.Seeder.MakeDirectory | tools/lainfs_seed.c:204-234 | make_dir in place. |
| LainfsSeed.Seeder.SaveFileAt | tools/lainfs_seed.c:236-291 | save_file in place, directory and blocks. |
| TcpSequence.SeqExact | kernel/drivers/net.c:438-444 | For positions less than 2^31 apart, or exactly so far before, the wrapped comparisons are exact. |
| TcpSequence.TestExact | kernel/drivers/net.c:1499-1503 | The acceptance test and offset on 32-bit numbers mean what they should for positions, a SYN standing one before the stream. |
| TcpSequence.OffsetInside | kernel/drivers/net.c:1499-1505 | Whatever arrives, an accepted segment has at least one byte from the expected one on. |
| TcpSequence.BytesExact | kernel/drivers/net.c:1498-1512 | Which bytes of the peer's stream are taken, and what is then expected: the new ones that fit, one position too far if the segment has a SYN. |
| TcpSequence.FinExact | kernel/drivers/net.c:1520-1525 | The FIN counts exactly when everything up to the end of the segment, the SYN not counted, has been taken. |
| TcpSequence.GoodIff | kernel/drivers/net.c:1481-1526 | A segment of the peer, whatever it carries and whether or not the connection is up, keeps the stream in order if and only if it is harmless: no SYN, or one whose bytes are not taken or repeat, and whose FIN does not count; before the connection the SYN-ACK, or nothing that begins before and ends after the number 0. |
| TcpRuns.RunGoodIff | kernel/drivers/net.c:1481-1526 | Over any series of arriving segments and reads the stream is in order throughout if and only if every segment was harmless when it came. |
| TcpRuns.PlainRunGood | kernel/drivers/net.c:1481-1526 | With a peer that puts nothing on its SYN and sends nothing before its SYN-ACK, the stream is in order for any lost, duplicated, reordered or overlapping segments. |
| TcpRuns.SynDataLosesByte | kernel/drivers/net.c:1490-1512 | A SYN-ACK with three bytes that arrives twice: the first byte is lost. |
| TcpRuns.SynFinEndsEarly | kernel/drivers/net.c:1520-1525 | A SYN-ACK with a byte and the FIN that arrives twice: the stream ends without the byte. |
| TcpRuns.EarlyByteTwice | kernel/drivers/net.c:1490-1512 | A SYN without ACK whose byte is stored before the connection is up and expected again afterwards. |
| TcpRuns.AnswersDue | kernel/drivers/net.c:1498-1526 | A harmless piece of the stream is answered by exactly the packets due, with the position expected next and the room left. |
| TcpRuns.HandshakeDue | kernel/drivers/net.c:1490-1496 | The SYN-ACK brings the connection up with nothing accepted, and is answered by the acknowledgement of the SYN. |
| TcpRuns.NothingDue | kernel/drivers/net.c:1481-1484 | A reset is noted and nothing else; a segment with nothing in it changes nothing; neither is answered. |
| TcpRuns.AdvertisesEdge | kernel/drivers/net.c:829-851 | Number and window of every packet are the right edge as a position. |
| TcpRuns.EdgeNeverRetreats | kernel/drivers/net.c:829-838 | The advertised right edge never moves left, whatever arrives or is read. |
| TcpRuns.RunEdges | kernel/drivers/net.c:829-838 | Nor does it between any two states of a run. |
| TcpRuns.AfterHandlesAll | kernel/drivers/net.c:1481-1526 | A batch is handled segment by segment, all of it. |
| TcpRuns.WaitExact | kernel/drivers/net.c:2169-2181 | When and how a wait ends: with data after the first poll that leaves some, unless the time is then up; with -2 or 0 after the first poll that leaves a reset or, without one, a close; and with a timeout only after the last poll. |
| TcpRuns.ZeroLeaves | kernel/drivers/net.c:2159-2181 | As long as segments are harmless, a call that returns 0, closed or timed out, leaves in the buffer exactly the bytes of the stream that its last poll took. |
| TcpRuns.ZeroMeansEnd | kernel/drivers/net.c:2159-2181 | As long as segments are harmless, when a call returns 0 the whole stream has been handed out if and only if every byte had been acknowledged before; nothing is left if and only if the call took nothing. |
| TcpRuns.ClosedMeansEnd | kernel/drivers/net.c:2169-2180 | In particular, if the peer closed, nothing is left if and only if every byte had been acknowledged before. |
| TcpRuns.LastByteLeftBehind | kernel/drivers/net.c:2169-2180 | A batch after which 0 is returned with a byte in the buffer. |
| TcpRuns.TimeoutLeavesByte | kernel/drivers/net.c:2176-2181 | A timeout after which 0 is returned with a byte in the buffer and the stream open. |
| TcpStream.Stream.constructor | kernel/drivers/net.c:2067-2077 | A new stream has delivered and buffered nothing. |
| TcpStream.Stream.SendAck | kernel/drivers/net.c:829-851 | Every acknowledgement carries the number expected next and the room in the buffer. |
| TcpStream.Stream.AcceptPayload | kernel/drivers/net.c:1498-1518 | Stores as much of an accepted segment as fits, and answers every segment with payload, accepted or not. |
| TcpStream.Stream.Handle | kernel/drivers/net.c:1481-1526 | For any segment whatever the code does what Receive and Answers say. |
| TcpStream.Stream.Recv | kernel/drivers/net.c:2159-2194 | Hands out the continuation of what it handed out before, and then advertises the room it made; result, state and packets in each of the four ways a wait can end, which WaitExact tells apart. |
| TcpStream.Stream.Shift | kernel/drivers/net.c:2184-2189 | Moves the unread bytes to the front of the buffer. |
| Chunked.RoundTrip | kernel/drivers/net.c:967-1038 | Decoding undoes every encoding of section 7.1 of RFC 9112 (any spelling of the sizes, extensions, trailers) if and only if the data fits with its terminator; otherwise it fails with -3. |
| Chunked.StandardRoundTrip | kernel/drivers/net.c:967-1038 | In particular for any parts encoded with their sizes in the least hexadecimal digits of either case: the result is the parts put together. |
| Chunked.HexTable | kernel/drivers/net.c:952-965 | Each of the characters 0 to 9, a to f and A to F has the value of its place in the table, and no other byte has one. |
| Chunked.DecodeExact | kernel/drivers/net.c:967-1038 | The decoder gives data if and only if the input is chunks with that data, which fits, and a last chunk; and each error code if and only if chunks that fit are followed by one of the reasons for it: -1 no size, a size of 2^32 or more, or no newline behind the data; -2 the end of the input; -3 data that does not fit. |
| Chunked.TruncatedFails | kernel/drivers/net.c:978-1038 | A body cut at any byte before the end of its last chunk's line is never taken for complete. |
| Chunked.DecodeInPlace | kernel/drivers/net.c:967-1038 | The loop that overwrites its input computes Decode of the input as it was, error codes included, and changes nothing behind the capacity, whether it succeeds or fails. |
| Chunked.MoveDown | kernel/drivers/net.c:1024-1026 | Copying data down over already read bytes disturbs neither the bytes still to be read nor anything behind the copy. |
| Chunked.PassHead | kernel/drivers/net.c:979-1007 | Newlines, size and extension of a chunk are passed as Decode says. |
| XhciRing.NeverStale | kernel/drivers/usb.c:719-736 | On a request entry the controller finds its own cycle bit exactly when a request is outstanding, and then the oldest one. |
| XhciRing.LinkMatches | kernel/drivers/usb.c:738-754 | When the controller, standing on the link, finds its own cycle bit. |
| XhciRing.StepKeeps | kernel/drivers/usb.c:719-754 | A controller step keeps the ring invariant and takes the next request or none. |
| XhciRing.RunTheorem | kernel/drivers/usb.c:663-754 | Over any number of laps each request is taken once, in order, none stale, and with transfers shorter than a lap the link always matches. |
| XhciRing.FullLapMeetsOldLink | kernel/drivers/usb.c:738-754 | On a ring of any length, a run with a transfer of a whole lap ends on a link that does not match. |
| XhciRing.DriverLinkMatches | kernel/drivers/usb.c:676-754 | With the driver's ring lengths and transfers the link always matches. |
| XhciRing.Ring.constructor | kernel/drivers/usb.c:663-674 | Setting up a ring. |
| XhciRing.Ring.Enqueue | kernel/drivers/usb.c:719-736 | xhci_enqueue_transfer_trb keeps the ring invariant. |
| XhciRing.Ring.ControlTransfer | kernel/drivers/usb.c:676-717 | The entries of a control transfer are queued in order. |
| XhciRing.Ring.FinishLinkUpdate | kernel/drivers/usb.c:738-754 | The deferred link update keeps the invariant and is never left pending. |
| XhciEvents.SeesOldest | kernel/drivers/usb.c:452-470 | The driver sees its own cycle bit exactly when an event waits, and then the oldest. |
| XhciEvents.RoomIsExact | kernel/drivers/usb.c:472-477 | The room test on the dequeue pointer register is exact. |
| XhciEvents.EventRing.NextEvent | kernel/drivers/usb.c:452-470 | Every event is taken exactly once, in order. |
| XhciEvents.EventRing.UpdateErdp | kernel/drivers/usb.c:472-477 | Publishing the driver's position keeps the invariant. |
| GraphicsClip.ClipRect | kernel/drivers/graphics.c:161-193 | The clipped rectangle has exactly the wanted pixels of the current viewport, all on the screen, although the sums are 32-bit. |
| GraphicsClip.ClipFlush | kernel/drivers/graphics.c:372-380 | The same for flushing. |
| GraphicsClip.PushViewport | kernel/drivers/graphics.c:737-759 | A pushed viewport is the part of the request on the screen. |
| GraphicsClip.WorkerCount | kernel/drivers/graphics.c:32-45 | Never more workers than cores, rows or job slots, and as many as one of these allows. |
| GraphicsClip.CutBands | kernel/drivers/graphics.c:568-587 | Bands follow each other without gap, none empty, heights at most one apart. |
| GraphicsClip.BandsPartition | kernel/drivers/graphics.c:568-587 | Every pixel of the rectangle is in exactly one band. |
| GraphicsDraw.MixChannelRange | kernel/drivers/graphics.c:91-106 | For step counts whose products stay below 2^32, a mixed channel lies between its ends and equals them at the first and last step. |
| GraphicsDraw.WhiteDarkens | kernel/drivers/graphics.c:91-106 | For every larger step count a mix of white with white starts darker than white. |
| GraphicsDraw.MixesWellIff | kernel/drivers/graphics.c:91-106 | Every mixed channel lies between its ends if and only if 255 times the step count is below 2^32. |
| GraphicsDraw.GradientBetweenIff | kernel/drivers/graphics.c:121-134 | Every channel of every row of a gradient lies between the two colours if and only if 255 times (height - 1) is below 2^32. |
| GraphicsDraw.MixOfChannels | kernel/drivers/graphics.c:91-106 | Each channel of a mixed colour is the weighted mean of the two, rounded down. |
| GraphicsDraw.GradientEnds | kernel/drivers/graphics.c:121-134 | A gradient begins with its top colour and ends with its bottom colour. |
| GraphicsDraw.PackBytes | kernel/drivers/graphics.c:482-498 | A packed colour lies in memory as red, green, blue in the RGB format, and as blue, green, red otherwise. |
| GraphicsDraw.AnyOrder | kernel/drivers/graphics.c:108-134 | Whatever the order of a job's writes, each pixel ends as expected and none outside the rectangle changes. |
| GraphicsDraw.ForkJoin | kernel/drivers/graphics.c:549-606 | Any interleaving of the band jobs leaves the frame buffer that a single job leaves. |
| GraphicsDraw.RunPaintJob | kernel/drivers/graphics.c:108-134 | The fill and gradient loops write exactly the job's pixels. |
| GraphicsDraw.RunBlitJob | kernel/drivers/graphics.c:143-159 | So does the blit loop, two pixels at a time. |
| GraphicsDraw.DrawClipped | kernel/drivers/graphics.c:564-605 | One job or one for each worker, here one after the other, the same pixels; JoinedWrites has every other order. |
| GraphicsDraw.FillRect | kernel/drivers/graphics.c:549-606 | The wanted pixels get the packed colour, all others stay. |
| GraphicsDraw.FillGradient | kernel/drivers/graphics.c:608-674 | The same for the gradient over the clipped rectangle. |
| GraphicsDraw.FlushRect | kernel/drivers/graphics.c:362-424 | The on-screen part of the rectangle is copied from the back buffer, nothing else changes. |
| GraphicsJoin.BandComplete | kernel/drivers/graphics.c:568-590 | In every run in which a band was submitted and awaited, or refused and run by the caller, its writes are complete, and nothing but its writes, when the call returns, and none comes later. |
| GraphicsJoin.JoinedWrites | kernel/drivers/graphics.c:549-606 | When the join returns, the writes of all cores, in whatever order they came, are the writes of the whole job, and none follows. |
| GraphicsJoin.JoinedDrawing | kernel/drivers/graphics.c:549-606 | The frame buffer is then the one a single job leaves. |
| GraphicsJoin.JoinedDrawn | kernel/drivers/graphics.c:608-674 | On the screen the wanted pixels, and no others, have changed, each as the job says. |
| GraphicsJoin.OnePixel | kernel/drivers/graphics.c:549-606 | A whole run in which another core draws the one band. |
| Calendar.NextYear | kernel/core/libc.c:1039-1041 | The closed form of the calendar advances by the length of each year. |
| Calendar.Unique | kernel/core/libc.c:1074-1108 | A time has only one representation in calendar range. |
| Calendar.DaysBeforeYear | kernel/core/libc.c:1055-1068 | The loops in both directions compute the closed form. |
| Calendar.FindMonth | kernel/core/libc.c:1100-1105 | The month loop never passes December. |
| Calendar.GmTime | kernel/core/libc.c:1074-1108 | The one representation in calendar range, before and after 1970. |
| Calendar.MkTime | kernel/core/libc.c:1121-1135 | Seconds since the epoch, for any month number. |
| Calendar.RoundTrip | kernel/core/libc.c:1074-1135 | mktime undoes gmtime_r for every time. |
| Calendar.RoundTripBack | kernel/core/libc.c:1074-1135 | gmtime_r undoes mktime for every broken-down time in range. |
| Calendar.WeekdayExact | kernel/core/libc.c:1109-1112 | tm_wday is right if and only if the time is not inside a day before 1970. |
| Calendar.WeekdayWrong | kernel/core/libc.c:1109-1112 | The last second of 1969 gets Thursday instead of Wednesday. |

## Left out

- Spinlocks, barriers, interrupts and processor start-up in `kernel/core/cpu.c`: locked sections are atomic and memory is sequentially consistent.
- Runs with 2^32 or more submissions per table, in which ids come round.
- Interleavings inside one call of the heap allocator: each call of kmalloc, kfree, page_alloc and page_free is one step.
- Writes of a caller outside its own payload, guard word and pages, and the branch of kfree for a header with a damaged class index.
- KmemHeap.Heap.Kfree: a pointer whose header carries the allocation mark must be a live allocation; forged headers are not modelled.
- KmemPages.PageTable.AddFreeRange: conventional memory descriptors do not overlap, as the firmware promises.
- KmemPages.PageTable.Init: the decoding of memory-map bytes is a parameter; with fewer than five entries to spare, which of the reserved pages stay free is not stated.
- `kzalloc`, `kmem_get_stats` and the self tests of `kernel/core/kmem.c`: they would only add easy members.
- Image, partition and byte-order handling of the LainFS tools, and the commands that only print.
- LainfsRead.FindEntryInDir: a 31-byte name without a NUL is taken to end with its field; the original's comparison would read on into the next field.
- LainfsCheck.Volume.Repair: completeness beyond the cap of `command_repair` is not claimed.
- The sending side of TCP, checksums, addresses and ports, and segments farther than 2^31 from the next expected byte.
- The rest of HTTP and TLS in `kernel/drivers/net.c`.
- Failed or missing xHCI completions, several outstanding transfers, contexts and doorbells.
- `graphics_draw_line`, text, scrolling and packed blits in `kernel/drivers/graphics.c`.
- Calendar.GmTime: years are unbounded; in the original the year must fit in an int.
- Floating point, `strftime` and the rest of `kernel/core/libc.c`.
- Drivers for storage, PCI, keyboard, mouse and clocks, the boot loader, and the host tools that assemble and link.
