/**
 The two slot tables of kernel/core/cpu.c: the SMP work table and the kernel task
 table, with the effect of every locked section as a function on table values.
 Both tables have a symbolic length; ids are 32-bit words.
 */
module SmpTables {

  const WORD: int := 0x1_0000_0000

  /** `unsigned int`. */
  type Id = x: int | 0 <= x < WORD

  datatype SlotState = Free | Queued | Running | Done

  /** The `fn`/`arg` pair of an SMP slot. `NoWork` is the null function. `TaskWorker(t)` is
      `kernel_task_worker` applied to task slot `t`; `Plain` is anything a direct client submits. */
  datatype Work = NoWork | Plain(fn: nat, arg: nat) | TaskWorker(slot: nat)

  datatype SmpSlot = SmpSlot(state: SlotState, id: Id, work: Work)

  /** `fn == 0` is the null function. */
  datatype TaskSlot = TaskSlot(state: SlotState, id: Id, smpId: Id, fn: nat, arg: nat)

  const FREE_SMP := SmpSlot(Free, 0, NoWork)
  const FREE_TASK := TaskSlot(Free, 0, 0, 0, 0)

  // ---- First-fit scans -----------------------------------------------------------------------

  /** What a scan of a slot table looks for. */
  datatype Query = AnyFree | AnyQueued | WithId(id: Id) | DoneWithId(id: Id)

  predicate Matches(p: SmpSlot, q: Query)
  {
    match q
    case AnyFree => p.state == Free
    case AnyQueued => p.state == Queued && p.work != NoWork
    case WithId(id) => p.id == id
    case DoneWithId(id) => p.id == id && p.state == Done
  }

  predicate TaskMatches(p: TaskSlot, q: Query)
  {
    match q
    case AnyFree => p.state == Free
    case AnyQueued => p.state == Queued
    case WithId(id) => p.id == id
    case DoneWithId(id) => p.id == id && p.state == Done
  }

  /** The scanning loop from slot i: the first match, or the table's length. */
  function Scan(smp: seq<SmpSlot>, q: Query, i: nat): (r: nat)
    requires i <= |smp|
    ensures i <= r <= |smp|
    ensures r < |smp| ==> Matches(smp[r], q)
    ensures forall k :: i <= k < r ==> !Matches(smp[k], q)
    decreases |smp| - i
  {
    if i == |smp| || Matches(smp[i], q) then i else Scan(smp, q, i + 1)
  }

  function TaskScan(task: seq<TaskSlot>, q: Query, i: nat): (r: nat)
    requires i <= |task|
    ensures i <= r <= |task|
    ensures r < |task| ==> TaskMatches(task[r], q)
    ensures forall k :: i <= k < r ==> !TaskMatches(task[k], q)
    decreases |task| - i
  {
    if i == |task| || TaskMatches(task[i], q) then i else TaskScan(task, q, i + 1)
  }

  function FirstFree(smp: seq<SmpSlot>): (r: nat)
    ensures r <= |smp|
    ensures r < |smp| ==> smp[r].state == Free
    ensures forall k :: 0 <= k < r ==> smp[k].state != Free
  {
    Scan(smp, AnyFree, 0)
  }

  function FirstQueued(smp: seq<SmpSlot>): (r: nat)
    ensures r <= |smp|
    ensures r < |smp| ==> smp[r].state == Queued && smp[r].work != NoWork
    ensures forall k :: 0 <= k < r ==> !(smp[k].state == Queued && smp[k].work != NoWork)
  {
    Scan(smp, AnyQueued, 0)
  }

  function FirstWithId(smp: seq<SmpSlot>, id: Id): (r: nat)
    ensures r <= |smp|
    ensures r < |smp| ==> smp[r].id == id
    ensures forall k :: 0 <= k < r ==> smp[k].id != id
  {
    Scan(smp, WithId(id), 0)
  }

  function FirstDoneWithId(smp: seq<SmpSlot>, id: Id): (r: nat)
    ensures r <= |smp|
    ensures r < |smp| ==> smp[r].id == id && smp[r].state == Done
    ensures forall k :: 0 <= k < r ==> !(smp[k].id == id && smp[k].state == Done)
  {
    Scan(smp, DoneWithId(id), 0)
  }

  function FirstFreeTask(task: seq<TaskSlot>): (r: nat)
    ensures r <= |task|
    ensures r < |task| ==> task[r].state == Free
    ensures forall k :: 0 <= k < r ==> task[k].state != Free
  {
    TaskScan(task, AnyFree, 0)
  }

  function FirstQueuedTask(task: seq<TaskSlot>): (r: nat)
    ensures r <= |task|
    ensures r < |task| ==> task[r].state == Queued
    ensures forall k :: 0 <= k < r ==> task[k].state != Queued
  {
    TaskScan(task, AnyQueued, 0)
  }

  function FirstTaskWithId(task: seq<TaskSlot>, id: Id): (r: nat)
    ensures r <= |task|
    ensures r < |task| ==> task[r].id == id
    ensures forall k :: 0 <= k < r ==> task[k].id != id
  {
    TaskScan(task, WithId(id), 0)
  }

  function FirstDoneTaskWithId(task: seq<TaskSlot>, id: Id): (r: nat)
    ensures r <= |task|
    ensures r < |task| ==> task[r].id == id && task[r].state == Done
    ensures forall k :: 0 <= k < r ==> !(task[k].id == id && task[k].state == Done)
  {
    TaskScan(task, DoneWithId(id), 0)
  }

  // ---- Ids -----------------------------------------------------------------------------------

  /** `id = next++; if (id == 0) id = next++` on 32-bit words. */
  function FreshId(next: Id): (id: Id)
    ensures id != 0
    ensures next != 0 ==> id == next
  {
    if next == 0 then 1 else next
  }

  function NextAfter(next: Id): (n: Id)
  {
    (FreshId(next) + 1) % WORD
  }

  // ---- Locked sections of the SMP table --------------------------------------------------------

  /** smp_submit_work found a free slot. */
  predicate HasFree(smp: seq<SmpSlot>)
  {
    FirstFree(smp) < |smp|
  }

  function Submitted(smp: seq<SmpSlot>, id: Id, work: Work): seq<SmpSlot>
    requires HasFree(smp)
  {
    smp[FirstFree(smp) := SmpSlot(Queued, id, work)]
  }

  /** smp_work_done for a non-zero id. */
  predicate WorkDone(smp: seq<SmpSlot>, id: Id)
  {
    var i := FirstWithId(smp, id);
    i < |smp| && smp[i].state == Done
  }

  /** smp_release_work for a non-zero id. */
  function Released(smp: seq<SmpSlot>, id: Id): seq<SmpSlot>
  {
    var i := FirstDoneWithId(smp, id);
    if i < |smp| then smp[i := FREE_SMP] else smp
  }

  // ---- Locked sections of the task table -------------------------------------------------------

  function TaskReserved(task: seq<TaskSlot>, id: Id, fn: nat, arg: nat): seq<TaskSlot>
    requires FirstFreeTask(task) < |task|
  {
    task[FirstFreeTask(task) := TaskSlot(Running, id, 0, fn, arg)]
  }

  function SmpIdStored(task: seq<TaskSlot>, t: nat, id: Id, smpId: Id): seq<TaskSlot>
    requires t < |task|
  {
    if task[t].id == id then task[t := task[t].(smpId := smpId)] else task
  }

  /** The submission fell back to polling. */
  function FellBack(task: seq<TaskSlot>, t: nat, id: Id): seq<TaskSlot>
    requires t < |task|
  {
    if task[t].id == id && task[t].state == Running then task[t := task[t].(state := Queued)] else task
  }

  /** The asynchronous submission failed and gives its slot back. */
  function GivenBack(task: seq<TaskSlot>, t: nat, id: Id): seq<TaskSlot>
    requires t < |task|
  {
    if task[t].id == id && task[t].state == Running then task[t := FREE_TASK] else task
  }

  /** First locked section of kernel_task_worker: the task may start. */
  predicate MayStart(slot: TaskSlot)
  {
    slot.state == Queued || slot.state == Running
  }

  function Started(task: seq<TaskSlot>, t: nat): seq<TaskSlot>
    requires t < |task|
  {
    if MayStart(task[t]) then task[t := task[t].(state := Running)] else task
  }

  /** Second locked section of kernel_task_worker. */
  function Finished(task: seq<TaskSlot>, t: nat): seq<TaskSlot>
    requires t < |task|
  {
    if task[t].state == Running then task[t := task[t].(state := Done)] else task
  }

  /** kernel_task_done for a non-zero id. */
  predicate TaskDone(task: seq<TaskSlot>, id: Id)
  {
    var t := FirstTaskWithId(task, id);
    t < |task| && task[t].state == Done && task[t].smpId == 0
  }

  /** The final locked section of kernel_task_release for a non-zero id. */
  function TaskReleased(task: seq<TaskSlot>, id: Id): seq<TaskSlot>
  {
    var t := FirstDoneTaskWithId(task, id);
    if t < |task| then task[t := FREE_TASK] else task
  }

  /** The last locked section of an iteration of kernel_task_release_finished_smp. */
  function SmpIdCleared(task: seq<TaskSlot>, t: nat, smpId: Id): seq<TaskSlot>
    requires t < |task|
  {
    if task[t].smpId == smpId then task[t := task[t].(smpId := 0)] else task
  }
}
