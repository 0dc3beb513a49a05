/**
 The inductive invariant of the SMP and task machine, one predicate per concern.
 Each predicate takes exactly the parts of the state it speaks about.
 */
module SmpInvariant {
  import opened SmpTables
  import opened SmpMachine

  // ---- What an agent is doing --------------------------------------------------------------------

  /** The SMP slot whose item the run executes, or -1 for a polled task. */
  function OnSlot(g: Run): int
  {
    match g
    case Item(slot, _, _, _) => slot
    case Worker(_, BySmp(slot, _), _) => slot
    case Worker(_, ByPoll, _) => -1
  }

  function ItemId(g: Run): Id
    requires OnSlot(g) >= 0
  {
    if g.Item? then g.id else g.via.id
  }

  function ItemWork(g: Run): Work
    requires OnSlot(g) >= 0
  {
    if g.Item? then g.work else TaskWorker(g.t)
  }

  /** How often the executed item has been called and has returned. */
  function Begun(g: Run): nat { if g.Item? && g.phase == Taken then 0 else 1 }
  function Ended(g: Run): nat { if g.Item? && g.phase == Returned then 1 else 0 }

  /** The task slot whose next move is up to the run, or -1. */
  function Holds(g: Run): int
  {
    match g
    case Item(_, _, TaskWorker(t), Taken) => t
    case Item(_, _, _, _) => -1
    case Worker(t, _, _) => t
  }

  /** How often the held task has been called and has returned. */
  function Invoked(g: Run): nat { if g.Worker? && (g.step.InTask? || g.step == Leaving) then 1 else 0 }
  function Completed(g: Run): nat { if g.Worker? && g.step == Leaving then 1 else 0 }

  /** The task slot whose next move is up to the submitter, or -1. */
  function Pending(g: Submitter): int { if g.HandedOver? then -1 else g.t }

  /** The task slot waiting in an SMP slot, or -1. */
  function Carried(p: SmpSlot): int { if p.state == Queued && p.work.TaskWorker? then p.work.slot else -1 }

  // ---- Live ids ----------------------------------------------------------------------------------

  ghost predicate Live(smp: seq<SmpSlot>, x: Id)
  {
    exists i :: 0 <= i < |smp| && smp[i].id == x
  }

  ghost predicate LivePlain(smp: seq<SmpSlot>, x: Id)
  {
    exists i :: 0 <= i < |smp| && smp[i].id == x && smp[i].work.Plain?
  }

  ghost predicate LiveFor(smp: seq<SmpSlot>, x: Id, t: nat)
  {
    exists i :: 0 <= i < |smp| && smp[i].id == x && smp[i].work == TaskWorker(t)
  }

  ghost predicate LiveTask(task: seq<TaskSlot>, x: Id)
  {
    exists t :: 0 <= t < |task| && task[t].id == x
  }

  // ---- The SMP table -----------------------------------------------------------------------------

  ghost predicate SlotOk(p: SmpSlot, submits: nat, jobOf: map<Id, Id>, tasks: nat)
  {
    && (p.state == Free <==> p.id == 0)
    && (p.id == 0 <==> p.work == NoWork)
    && p.id <= submits
    && (p.work.Plain? ==> p.id !in jobOf)
    && (p.work.TaskWorker? ==> p.id in jobOf && p.work.slot < tasks)
  }

  ghost predicate DistinctIds(smp: seq<SmpSlot>)
  {
    forall i, j :: 0 <= i < j < |smp| && smp[i].id != 0 ==> smp[i].id != smp[j].id
  }

  ghost predicate SmpTableOk(smp: seq<SmpSlot>, next: Id, submits: nat, jobOf: map<Id, Id>, tasks: nat)
  {
    && next == (submits + 1) % WORD
    && (forall i :: 0 <= i < |smp| ==> SlotOk(smp[i], submits, jobOf, tasks))
    && DistinctIds(smp)
    && (forall x :: x in jobOf ==> 0 < x <= submits)
  }

  ghost predicate ExecOk(g: Run, smp: seq<SmpSlot>)
  {
    OnSlot(g) >= 0 ==>
      && OnSlot(g) < |smp|
      && smp[OnSlot(g)] == SmpSlot(Running, ItemId(g), ItemWork(g))
      && (g.Item? && g.phase == Inside ==> g.work.Plain?)
  }

  ghost predicate OneExecutor(runs: map<nat, Run>)
  {
    forall a, b :: a in runs && b in runs && OnSlot(runs[a]) == OnSlot(runs[b]) >= 0 ==> a == b
  }

  ghost predicate HasExecutor(runs: map<nat, Run>, i: nat)
  {
    exists a :: a in runs && OnSlot(runs[a]) == i
  }

  /** Every RUNNING slot has exactly one agent executing it, with the submitted function and argument. */
  ghost predicate ExecsOk(smp: seq<SmpSlot>, runs: map<nat, Run>)
  {
    && (forall a :: a in runs ==> ExecOk(runs[a], smp))
    && OneExecutor(runs)
    && (forall i :: 0 <= i < |smp| && smp[i].state == Running ==> HasExecutor(runs, i))
  }

  ghost predicate Ran(m: multiset<Id>, n: multiset<Id>, x: Id, b: nat, e: nat)
  {
    m[x] == b && n[x] == e
  }

  ghost predicate ItemCountsOk(smp: seq<SmpSlot>, runs: map<nat, Run>, began: multiset<Id>, ended: multiset<Id>,
                               submits: nat)
  {
    && (forall i :: 0 <= i < |smp| && smp[i].state == Queued ==> Ran(began, ended, smp[i].id, 0, 0))
    && (forall i :: 0 <= i < |smp| && smp[i].state == Done ==> Ran(began, ended, smp[i].id, 1, 1))
    && (forall a :: a in runs && OnSlot(runs[a]) >= 0 ==>
          Ran(began, ended, ItemId(runs[a]), Begun(runs[a]), Ended(runs[a])))
    && (forall x: Id :: x > submits ==> began[x] == 0 && ended[x] == 0)
    && (forall x: Id :: 0 < x <= submits && !Live(smp, x) ==> began[x] == 1 && ended[x] == 1)
  }

  ghost predicate WaiterOk(g: Waiter, smp: seq<SmpSlot>, claims: set<Id>)
  {
    && g.id != 0 && g.id !in claims
    && LivePlain(smp, g.id)
    && (g.Releasing? ==> forall i :: 0 <= i < |smp| && smp[i].id == g.id ==> smp[i].state == Done)
  }

  ghost predicate OneWaiter(waiters: map<nat, Waiter>)
  {
    forall a, b :: a in waiters && b in waiters && waiters[a].id == waiters[b].id ==> a == b
  }

  /** One waiter per id; what is claimed or waited for is still in the table. */
  ghost predicate ClaimsOk(smp: seq<SmpSlot>, claims: set<Id>, waiters: map<nat, Waiter>)
  {
    && (forall x :: x in claims ==> x != 0 && LivePlain(smp, x))
    && (forall a :: a in waiters ==> WaiterOk(waiters[a], smp, claims))
    && OneWaiter(waiters)
  }

  // ---- The task table ------------------------------------------------------------------------------

  ghost predicate TaskOk(p: TaskSlot, submits: nat, jobOf: map<Id, Id>)
  {
    && (p.state == Free <==> p.id == 0)
    && (p.id == 0 <==> p.fn == 0)
    && p.id <= submits
    && (p.smpId != 0 ==> p.id != 0 && p.smpId in jobOf && jobOf[p.smpId] == p.id)
  }

  ghost predicate DistinctTaskIds(task: seq<TaskSlot>)
  {
    forall t, u :: 0 <= t < u < |task| && task[t].id != 0 ==> task[t].id != task[u].id
  }

  ghost predicate TaskTableOk(task: seq<TaskSlot>, next: Id, submits: nat, jobOf: map<Id, Id>)
  {
    && next == (submits + 1) % WORD
    && (forall t :: 0 <= t < |task| ==> TaskOk(task[t], submits, jobOf))
    && DistinctTaskIds(task)
    && (forall x :: x in jobOf ==> 0 < jobOf[x] <= submits)
  }

  ghost predicate HolderOk(g: Run, task: seq<TaskSlot>)
  {
    Holds(g) >= 0 ==>
      && Holds(g) < |task|
      && task[Holds(g)].state == Running
      && (g.Worker? && g.step.Holding? ==>
            g.step.fn == task[g.t].fn && g.step.arg == task[g.t].arg && g.step.id == task[g.t].id)
      && (g.Worker? && g.step.InTask? ==> g.step.task == task[g.t].id)
  }

  /** A task is in at most one pair of hands: one run, one submitter or one queued SMP slot. */
  ghost predicate OneHolder(smp: seq<SmpSlot>, runs: map<nat, Run>, subs: map<nat, Submitter>)
  {
    && (forall a, b :: a in runs && b in runs && Holds(runs[a]) == Holds(runs[b]) >= 0 ==> a == b)
    && (forall a, b :: a in runs && b in subs && Pending(subs[b]) >= 0 ==> Holds(runs[a]) != Pending(subs[b]))
    && (forall i, a :: 0 <= i < |smp| && a in runs && Carried(smp[i]) >= 0 ==> Holds(runs[a]) != Carried(smp[i]))
    && (forall i, b :: 0 <= i < |smp| && b in subs && Carried(smp[i]) >= 0 ==> Pending(subs[b]) != Carried(smp[i]))
    && (forall i, j :: 0 <= i < j < |smp| && Carried(smp[i]) >= 0 ==> Carried(smp[i]) != Carried(smp[j]))
  }

  ghost predicate HeldRunning(smp: seq<SmpSlot>, task: seq<TaskSlot>, runs: map<nat, Run>, subs: map<nat, Submitter>)
  {
    && (forall a :: a in runs ==> HolderOk(runs[a], task))
    && (forall b :: b in subs && 0 <= Pending(subs[b]) < |task| ==> task[Pending(subs[b])].state == Running)
    && (forall i :: 0 <= i < |smp| && 0 <= Carried(smp[i]) < |task| ==> task[Carried(smp[i])].state == Running)
  }

  ghost predicate HoldersOk(smp: seq<SmpSlot>, task: seq<TaskSlot>, runs: map<nat, Run>, subs: map<nat, Submitter>)
  {
    OneHolder(smp, runs, subs) && HeldRunning(smp, task, runs, subs)
  }

  ghost predicate TaskCountsOk(smp: seq<SmpSlot>, task: seq<TaskSlot>, runs: map<nat, Run>, subs: map<nat, Submitter>,
                               invoked: multiset<Id>, completed: multiset<Id>, submits: nat)
  {
    && (forall a :: a in runs && 0 <= Holds(runs[a]) < |task| ==>
          Ran(invoked, completed, task[Holds(runs[a])].id, Invoked(runs[a]), Completed(runs[a])))
    && (forall b :: b in subs && 0 <= Pending(subs[b]) < |task| ==>
          Ran(invoked, completed, task[Pending(subs[b])].id, 0, 0))
    && (forall i :: 0 <= i < |smp| && 0 <= Carried(smp[i]) < |task| ==>
          Ran(invoked, completed, task[Carried(smp[i])].id, 0, 0))
    && (forall t :: 0 <= t < |task| && task[t].state == Queued ==> Ran(invoked, completed, task[t].id, 0, 0))
    && (forall t :: 0 <= t < |task| && task[t].state == Done ==> Ran(invoked, completed, task[t].id, 1, 1))
    && (forall x: Id :: x > submits ==> invoked[x] == 0 && completed[x] == 0)
    && (forall x: Id :: completed[x] <= invoked[x] <= 1)
    && (forall x: Id :: 0 < x <= submits && !LiveTask(task, x) ==> completed[x] == invoked[x])
  }

  // ---- Between the tables --------------------------------------------------------------------------

  ghost predicate SubmitterOk(g: Submitter, smp: seq<SmpSlot>, task: seq<TaskSlot>)
  {
    && g.t < |task|
    && g.tid != 0
    && task[g.t].id == g.tid
    && task[g.t].smpId == 0
    && (g.HandedOver? ==> g.smpId != 0 && LiveFor(smp, g.smpId, g.t))
  }

  ghost predicate OneSubmitter(subs: map<nat, Submitter>)
  {
    forall a, b :: a in subs && b in subs && subs[a].t == subs[b].t ==> a == b
  }

  ghost predicate SubmittersOk(smp: seq<SmpSlot>, task: seq<TaskSlot>, subs: map<nat, Submitter>)
  {
    && (forall a :: a in subs ==> SubmitterOk(subs[a], smp, task))
    && OneSubmitter(subs)
  }

  ghost predicate InFlight(subs: map<nat, Submitter>, g: Submitter)
  {
    exists a :: a in subs && subs[a] == g
  }

  /** The occupied slot's item is named by its task, or by the submitter still in flight. */
  ghost predicate Named(p: SmpSlot, task: seq<TaskSlot>, jobOf: map<Id, Id>, subs: map<nat, Submitter>)
  {
    p.work.TaskWorker? ==>
      && p.id in jobOf
      && p.work.slot < |task|
      && task[p.work.slot].id == jobOf[p.id]
      && (task[p.work.slot].smpId == p.id || InFlight(subs, HandedOver(p.work.slot, jobOf[p.id], p.id)))
  }

  ghost predicate NamesOk(smp: seq<SmpSlot>, task: seq<TaskSlot>, jobOf: map<Id, Id>, subs: map<nat, Submitter>)
  {
    forall i :: 0 <= i < |smp| ==> Named(smp[i], task, jobOf, subs)
  }

  ghost predicate TaskWaiterOk(g: Waiter, task: seq<TaskSlot>, claims: set<Id>)
  {
    && g.id != 0 && g.id !in claims
    && LiveTask(task, g.id)
    && (g.Releasing? ==>
          forall t :: 0 <= t < |task| && task[t].id == g.id ==> task[t].state == Done && task[t].smpId == 0)
  }

  ghost predicate TaskClaimsOk(task: seq<TaskSlot>, claims: set<Id>, waiters: map<nat, Waiter>, subs: map<nat,
                               Submitter>)
  {
    && (forall x :: x in claims ==> x != 0 && LiveTask(task, x))
    && (forall a :: a in waiters ==> TaskWaiterOk(waiters[a], task, claims))
    && OneWaiter(waiters)
    && (forall b :: b in subs ==> subs[b].tid !in claims)
    && (forall a, b :: a in waiters && b in subs ==> waiters[a].id != subs[b].tid)
  }

  ghost predicate ReaperOk(g: Reaper, smp: seq<SmpSlot>, task: seq<TaskSlot>, jobOf: map<Id, Id>)
  {
    && g.t < |task|
    && g.smpId in jobOf && g.smpId != 0
    && (forall i :: 0 <= i < |smp| && smp[i].id == g.smpId ==>
          && smp[i].work == TaskWorker(g.t)
          && task[g.t].smpId == g.smpId
          && g.phase != Clearing
          && (g.phase != Seen ==> smp[i].state == Done))
  }

  ghost predicate BeingCleared(reapers: map<nat, Reaper>, t: nat, x: Id)
  {
    exists a :: a in reapers && reapers[a] == Reaper(t, x, Clearing)
  }

  /** A task still naming an SMP item that has been freed is about to be cleared. */
  ghost predicate ReapersOk(smp: seq<SmpSlot>, task: seq<TaskSlot>, jobOf: map<Id, Id>, reapers: map<nat, Reaper>)
  {
    && (forall a :: a in reapers ==> ReaperOk(reapers[a], smp, task, jobOf))
    && (forall t :: 0 <= t < |task| && task[t].smpId != 0 ==>
          LiveFor(smp, task[t].smpId, t) || BeingCleared(reapers, t, task[t].smpId))
  }

  ghost predicate Inv(s: State)
  {
    && SmpTableOk(s.smp, s.nextSmp, s.smpSubmits, s.jobOf, |s.task|)
    && ExecsOk(s.smp, s.runs)
    && ItemCountsOk(s.smp, s.runs, s.began, s.ended, s.smpSubmits)
    && ClaimsOk(s.smp, s.smpClaims, s.waiters)
    && TaskTableOk(s.task, s.nextTask, s.taskSubmits, s.jobOf)
    && HoldersOk(s.smp, s.task, s.runs, s.submitters)
    && TaskCountsOk(s.smp, s.task, s.runs, s.submitters, s.invoked, s.completed, s.taskSubmits)
    && SubmittersOk(s.smp, s.task, s.submitters)
    && NamesOk(s.smp, s.task, s.jobOf, s.submitters)
    && TaskClaimsOk(s.task, s.taskClaims, s.taskWaiters, s.submitters)
    && ReapersOk(s.smp, s.task, s.jobOf, s.reapers)
  }

  lemma InitInv(s: State)
    requires Init(s)
    ensures Inv(s)
  {
  }
}
