/**
 The scanning loops that cpu.c runs under its two locks, over slot tables updated in place.
 Each method is proved against the table function that the transition system steps by.
 */
module SmpLocks {
  import opened SmpTables

  class WorkTable {
    var slots: array<SmpSlot>
    var nextId: Id

    constructor (n: nat)
      ensures fresh(slots) && slots.Length == n && nextId == 1
      ensures forall i :: 0 <= i < n ==> slots[i] == FREE_SMP
    {
      slots := new SmpSlot[n](_ => FREE_SMP);
      nextId := 1;
    }

    /** smp_take_work. */
    method TakeWork() returns (found: bool, work: Work, slot: nat)
      modifies slots
      ensures found <==> FirstQueued(old(slots[..])) < slots.Length
      ensures !found ==> slots[..] == old(slots[..])
      ensures found ==>
        && slot == FirstQueued(old(slots[..])) && work == old(slots[..])[slot].work
        && slots[..] == old(slots[..])[slot := old(slots[..])[slot].(state := Running)]
    {
      found, work, slot := false, NoWork, 0;
      ghost var was := slots[..];
      var i := 0;
      while i < slots.Length
        invariant 0 <= i <= slots.Length && slots[..] == was
        invariant Scan(was, AnyQueued, 0) == Scan(was, AnyQueued, i)
      {
        if slots[i].state == Queued && slots[i].work != NoWork {
          work := slots[i].work;
          slots[i] := slots[i].(state := Running);
          found, slot := true, i;
          return;
        }
        i := i + 1;
      }
    }

    /** smp_submit_work; `work` is NoWork for a null function. Returns 0 when nothing was submitted. */
    method SubmitWork(work: Work, online: nat) returns (id: Id)
      modifies this`nextId, slots
      ensures id == 0 <==> (work == NoWork || online <= 1 || !HasFree(old(slots[..])))
      ensures id == 0 ==> slots[..] == old(slots[..]) && nextId == old(nextId)
      ensures id != 0 ==>
        && id == FreshId(old(nextId)) && nextId == NextAfter(old(nextId))
        && slots[..] == Submitted(old(slots[..]), id, work)
    {
      id := 0;
      if work == NoWork || online <= 1 { return; }
      ghost var was := slots[..];
      var i := 0;
      while i < slots.Length
        invariant 0 <= i <= slots.Length && slots[..] == was && nextId == old(nextId)
        invariant Scan(was, AnyFree, 0) == Scan(was, AnyFree, i)
      {
        if slots[i].state == Free {
          id := nextId;
          nextId := (nextId + 1) % WORD;
          if id == 0 {
            id := nextId;
            nextId := (nextId + 1) % WORD;
          }
          slots[i] := SmpSlot(Queued, id, work);
          return;
        }
        i := i + 1;
      }
    }

    /** smp_work_done. */
    method IsDone(id: Id) returns (done: bool)
      ensures done <==> (id == 0 || WorkDone(slots[..], id))
    {
      if id == 0 { return true; }
      var i := 0;
      while i < slots.Length
        invariant 0 <= i <= slots.Length
        invariant Scan(slots[..], WithId(id), 0) == Scan(slots[..], WithId(id), i)
      {
        if slots[i].id == id { return slots[i].state == Done; }
        i := i + 1;
      }
      return false;
    }

    /** smp_release_work. */
    method ReleaseWork(id: Id)
      modifies slots
      ensures slots[..] == if id == 0 then old(slots[..]) else Released(old(slots[..]), id)
    {
      if id == 0 { return; }
      ghost var was := slots[..];
      var i := 0;
      while i < slots.Length
        invariant 0 <= i <= slots.Length && slots[..] == was
        invariant Scan(was, DoneWithId(id), 0) == Scan(was, DoneWithId(id), i)
      {
        if slots[i].id == id && slots[i].state == Done {
          slots[i] := FREE_SMP;
          return;
        }
        i := i + 1;
      }
    }
  }

  class TaskTable {
    var slots: array<TaskSlot>
    var nextId: Id

    constructor (n: nat)
      ensures fresh(slots) && slots.Length == n && nextId == 1
      ensures forall i :: 0 <= i < n ==> slots[i] == FREE_TASK
    {
      slots := new TaskSlot[n](_ => FREE_TASK);
      nextId := 1;
    }

    /** The first locked section of a submission. Returns id 0 when the table is full. */
    method Reserve(fn: nat, arg: nat) returns (id: Id, slot: nat)
      modifies this`nextId, slots
      ensures id == 0 <==> FirstFreeTask(old(slots[..])) == slots.Length
      ensures id == 0 ==> slots[..] == old(slots[..]) && nextId == old(nextId)
      ensures id != 0 ==>
        && slot == FirstFreeTask(old(slots[..])) && id == FreshId(old(nextId)) && nextId == NextAfter(old(nextId))
        && slots[..] == TaskReserved(old(slots[..]), id, fn, arg)
    {
      id, slot := 0, 0;
      ghost var was := slots[..];
      var i := 0;
      while i < slots.Length
        invariant 0 <= i <= slots.Length && slots[..] == was && nextId == old(nextId)
        invariant TaskScan(was, AnyFree, 0) == TaskScan(was, AnyFree, i)
      {
        if slots[i].state == Free {
          id := nextId;
          nextId := (nextId + 1) % WORD;
          if id == 0 {
            id := nextId;
            nextId := (nextId + 1) % WORD;
          }
          slots[i] := TaskSlot(Running, id, 0, fn, arg);
          slot := i;
          return;
        }
        i := i + 1;
      }
    }

    /** The locked section of kernel_task_poll. */
    method TakeQueued() returns (found: bool, slot: nat)
      modifies slots
      ensures found <==> FirstQueuedTask(old(slots[..])) < slots.Length
      ensures !found ==> slots[..] == old(slots[..])
      ensures found ==>
        && slot == FirstQueuedTask(old(slots[..]))
        && slots[..] == old(slots[..])[slot := old(slots[..])[slot].(state := Running)]
    {
      found, slot := false, 0;
      ghost var was := slots[..];
      var i := 0;
      while i < slots.Length
        invariant 0 <= i <= slots.Length && slots[..] == was
        invariant TaskScan(was, AnyQueued, 0) == TaskScan(was, AnyQueued, i)
      {
        if slots[i].state == Queued {
          slots[i] := slots[i].(state := Running);
          found, slot := true, i;
          return;
        }
        i := i + 1;
      }
    }

    /** The locked section of kernel_task_done. */
    method IsDone(id: Id) returns (done: bool)
      ensures done <==> (id == 0 || TaskDone(slots[..], id))
    {
      if id == 0 { return true; }
      var i := 0;
      while i < slots.Length
        invariant 0 <= i <= slots.Length
        invariant TaskScan(slots[..], WithId(id), 0) == TaskScan(slots[..], WithId(id), i)
      {
        if slots[i].id == id { return slots[i].state == Done && slots[i].smpId == 0; }
        i := i + 1;
      }
      return false;
    }

    /** The locked section of kernel_task_release. */
    method Release(id: Id)
      modifies slots
      ensures slots[..] == if id == 0 then old(slots[..]) else TaskReleased(old(slots[..]), id)
    {
      if id == 0 { return; }
      ghost var was := slots[..];
      var i := 0;
      while i < slots.Length
        invariant 0 <= i <= slots.Length && slots[..] == was
        invariant TaskScan(was, DoneWithId(id), 0) == TaskScan(was, DoneWithId(id), i)
      {
        if slots[i].id == id && slots[i].state == Done {
          slots[i] := FREE_TASK;
          return;
        }
        i := i + 1;
      }
    }
  }
}
