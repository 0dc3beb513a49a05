/**
 The SMP work queue and the kernel task layer as a transition system.

 Every locked section of kernel/core/cpu.c is one atomic step; the call of a work
 item, its return and the unlocked DONE store of smp_run_one_work_item are steps of
 their own. An agent is one activation of a kernel function on some core; agents are pooled by
 what they do. Any agent may take the next step, so the runs of this system include every interleaving of any
 number of cores, whatever the nesting of their call stacks.

 `smpClaims` and `taskClaims` hold the ids that were returned to a client and not yet
 handed to a wait: a client waits at most once for an id it was given.

 The history fields (`smpSubmits` to `jobOf`) are written and never read by a step.
 */
module SmpMachine {
  import opened SmpTables

  /** Progress of one smp_run_one_work_item after it took a slot. */
  datatype ExecPhase = Taken | Inside | Returned

  /** How kernel_task_worker was reached. */
  datatype Via = ByPoll | BySmp(slot: nat, id: Id)

  datatype WorkerPhase = Entering | Holding(fn: nat, arg: nat, id: Id) | InTask(task: Id) | Leaving

  /** An execution of a work item or of kernel_task_worker. */
  datatype Run =
    | Item(slot: nat, id: Id, work: Work, phase: ExecPhase)
    | Worker(t: nat, via: Via, step: WorkerPhase)

  /** A task submission in flight. */
  datatype Submitter =
    | Reserved(t: nat, tid: Id, async: bool)
    | HandedOver(t: nat, tid: Id, smpId: Id)
    | Refused(t: nat, tid: Id, async: bool)

  /** smp_wait_work: polling, or about to release. */
  datatype Waiter = Waiting(id: Id) | Releasing(id: Id)

  datatype ReapPhase = Seen | Polling | Freeing | Clearing

  /** One iteration of kernel_task_release_finished_smp. */
  datatype Reaper = Reaper(t: nat, smpId: Id, phase: ReapPhase)

  datatype State = State(
    smp: seq<SmpSlot>,
    nextSmp: Id,
    task: seq<TaskSlot>,
    nextTask: Id,
    runs: map<nat, Run>,
    submitters: map<nat, Submitter>,
    waiters: map<nat, Waiter>,
    reapers: map<nat, Reaper>,
    taskWaiters: map<nat, Waiter>,
    smpClaims: set<Id>,
    taskClaims: set<Id>,
    smpSubmits: nat,          // smp_submit_work calls that got a slot
    taskSubmits: nat,         // task slots handed out
    began: multiset<Id>,      // SMP items whose function was called
    ended: multiset<Id>,      // SMP items whose function returned
    invoked: multiset<Id>,      // tasks whose function was called
    completed: multiset<Id>,    // tasks whose function returned
    jobOf: map<Id, Id>)       // the task an SMP item was submitted for

  predicate Init(s: State)
  {
    && (forall i :: 0 <= i < |s.smp| ==> s.smp[i] == FREE_SMP)
    && (forall t :: 0 <= t < |s.task| ==> s.task[t] == FREE_TASK)
    && s.nextSmp == 1 && s.nextTask == 1
    && s.runs == map[] && s.submitters == map[] && s.waiters == map[] && s.reapers == map[] && s.taskWaiters == map[]
    && s.smpClaims == {} && s.taskClaims == {}
    && s.smpSubmits == 0 && s.taskSubmits == 0
    && s.began == multiset{} && s.ended == multiset{}
    && s.invoked == multiset{} && s.completed == multiset{}
    && s.jobOf == map[]
  }

  // One atomic step: `a` is the agent that takes it and `online` the value read from online_core_count.

  /** The direct use of the SMP table, and the execution of its items. */
  datatype SmpStep =
    | SubmitPlain(fn: nat, arg: nat, online: nat)
    | Take(a: nat)
    | Call(a: nat)
    | Return(a: nat)
    | StoreDone(a: nat)
    | StartWait(a: nat, wid: Id)
    | PollWait(a: nat)
    | Release(a: nat)

  /** Task submission, waiting and release. */
  datatype TaskStep =
    | TaskSubmit(a: nat, fn: nat, arg: nat, async: bool, online: nat)
    | HandOver(a: nat, online: nat)
    | StoreSmpId(a: nat)
    | GiveUp(a: nat)
    | StartTaskWait(a: nat, tid: Id)
    | PollTaskWait(a: nat)
    | TaskRelease(a: nat)

  /** kernel_task_worker and kernel_task_poll. */
  datatype WorkerStep =
    | WorkerStart(a: nat)
    | WorkerCall(a: nat)
    | WorkerReturn(a: nat)
    | WorkerFinish(a: nat)
    | Poll(a: nat)

  /** kernel_task_release_finished_smp. */
  datatype ReapStep =
    | ReapRead(a: nat, t: nat)
    | ReapCheck(a: nat)
    | ReapPoll(a: nat)
    | ReapFree(a: nat)
    | ReapClear(a: nat)

  datatype Step = OfSmp(smp: SmpStep) | OfTask(task: TaskStep) | OfWorker(worker: WorkerStep) | OfReap(reap: ReapStep)

  /** The agent exists and its next action is the one of the step. */
  predicate Enabled(s: State, step: Step)
  {
    match step
    case OfSmp(x) => SmpEnabled(s, x)
    case OfTask(x) => TaskEnabled(s, x)
    case OfWorker(x) => WorkerEnabled(s, x)
    case OfReap(x) => ReapEnabled(s, x)
  }

  predicate SmpEnabled(s: State, step: SmpStep)
  {
    match step
    case SubmitPlain(_, _, _) => true
    case Take(a) => a !in s.runs
    case Call(a) => AtItem(s, a, Taken)
    case Return(a) => AtItem(s, a, Inside)
    case StoreDone(a) => AtItem(s, a, Returned)
    case StartWait(a, wid) => a !in s.waiters && wid in s.smpClaims
    case PollWait(a) => a in s.waiters && s.waiters[a].Waiting?
    case Release(a) => a in s.waiters && s.waiters[a].Releasing?
  }

  predicate TaskEnabled(s: State, step: TaskStep)
  {
    match step
    case TaskSubmit(a, _, _, _, _) => a !in s.submitters
    case HandOver(a, _) => a in s.submitters && s.submitters[a].Reserved?
    case StoreSmpId(a) => a in s.submitters && s.submitters[a].HandedOver? && s.submitters[a].t < |s.task|
    case GiveUp(a) => a in s.submitters && s.submitters[a].Refused? && s.submitters[a].t < |s.task|
    case StartTaskWait(a, tid) => a !in s.taskWaiters && tid in s.taskClaims
    case PollTaskWait(a) => a in s.taskWaiters && s.taskWaiters[a].Waiting?
    case TaskRelease(a) => a in s.taskWaiters && s.taskWaiters[a].Releasing?
  }

  predicate WorkerEnabled(s: State, step: WorkerStep)
  {
    match step
    case WorkerStart(a) => AtWorker(s, a) && s.runs[a].step == Entering
    case WorkerCall(a) => AtWorker(s, a) && s.runs[a].step.Holding?
    case WorkerReturn(a) => AtWorker(s, a) && s.runs[a].step.InTask?
    case WorkerFinish(a) => AtWorker(s, a) && s.runs[a].step == Leaving
    case Poll(a) => a !in s.runs
  }

  predicate ReapEnabled(s: State, step: ReapStep)
  {
    match step
    case ReapRead(a, t) => a !in s.reapers && t < |s.task|
    case ReapCheck(a) => AtReap(s, a, Seen)
    case ReapPoll(a) => AtReap(s, a, Polling)
    case ReapFree(a) => AtReap(s, a, Freeing)
    case ReapClear(a) => AtReap(s, a, Clearing)
  }

  predicate AtItem(s: State, a: nat, phase: ExecPhase)
  {
    a in s.runs && s.runs[a].Item? && s.runs[a].phase == phase && s.runs[a].slot < |s.smp|
  }

  predicate AtWorker(s: State, a: nat)
  {
    a in s.runs && s.runs[a].Worker? && s.runs[a].t < |s.task|
  }

  predicate AtReap(s: State, a: nat, phase: ReapPhase)
  {
    a in s.reapers && s.reapers[a].phase == phase && s.reapers[a].t < |s.task|
  }

  function Next(s: State, step: Step): State
    requires Enabled(s, step)
  {
    match step
    case OfSmp(x) => NextSmp(s, x)
    case OfTask(x) => NextTask(s, x)
    case OfWorker(x) => NextWorker(s, x)
    case OfReap(x) => NextReap(s, x)
  }

  function NextSmp(s: State, step: SmpStep): State
    requires SmpEnabled(s, step)
  {
    match step
    case SubmitPlain(fn, arg, online) => DoSubmitPlain(s, fn, arg, online)
    case Take(a) => DoTake(s, a)
    case Call(a) => DoCall(s, a)
    case Return(a) => DoReturn(s, a)
    case StoreDone(a) => DoStoreDone(s, a)
    case StartWait(a, wid) => DoStartWait(s, a, wid)
    case PollWait(a) => DoPollWait(s, a)
    case Release(a) => DoRelease(s, a)
  }

  function NextTask(s: State, step: TaskStep): State
    requires TaskEnabled(s, step)
  {
    match step
    case TaskSubmit(a, fn, arg, async, online) => DoTaskSubmit(s, a, fn, arg, async, online)
    case HandOver(a, online) => DoHandOver(s, a, online)
    case StoreSmpId(a) => DoStoreSmpId(s, a)
    case GiveUp(a) => DoGiveUp(s, a)
    case StartTaskWait(a, tid) => DoStartTaskWait(s, a, tid)
    case PollTaskWait(a) => DoPollTaskWait(s, a)
    case TaskRelease(a) => DoTaskRelease(s, a)
  }

  function NextWorker(s: State, step: WorkerStep): State
    requires WorkerEnabled(s, step)
  {
    match step
    case WorkerStart(a) => DoWorkerStart(s, a)
    case WorkerCall(a) => DoWorkerCall(s, a)
    case WorkerReturn(a) => DoWorkerReturn(s, a)
    case WorkerFinish(a) => DoWorkerFinish(s, a)
    case Poll(a) => DoPoll(s, a)
  }

  function NextReap(s: State, step: ReapStep): State
    requires ReapEnabled(s, step)
  {
    match step
    case ReapRead(a, t) => DoReapRead(s, a, t)
    case ReapCheck(a) => DoReapCheck(s, a)
    case ReapPoll(a) => DoReapPoll(s, a)
    case ReapFree(a) => DoReapFree(s, a)
    case ReapClear(a) => DoReapClear(s, a)
  }

  // ---- SMP layer -------------------------------------------------------------------------------

  /** smp_submit_work hands out a slot: it needs a function, a second core and a free slot. */
  predicate Accepts(s: State, online: nat)
  {
    online > 1 && HasFree(s.smp)
  }

  function DoSubmitPlain(s: State, fn: nat, arg: nat, online: nat): State
  {
    if fn == 0 || !Accepts(s, online) then s else
    var id := FreshId(s.nextSmp);
    s.(smp := Submitted(s.smp, id, Plain(fn, arg)), nextSmp := NextAfter(s.nextSmp),
       smpClaims := s.smpClaims + {id}, smpSubmits := s.smpSubmits + 1)
  }

  /** smp_take_work. */
  function DoTake(s: State, a: nat): State
  {
    var i := FirstQueued(s.smp);
    if i == |s.smp| then s else
    s.(smp := s.smp[i := s.smp[i].(state := Running)],
       runs := s.runs[a := Item(i, s.smp[i].id, s.smp[i].work, Taken)])
  }

  /** The call `fn(arg)`: for a task item, control enters kernel_task_worker. */
  function DoCall(s: State, a: nat): State
    requires AtItem(s, a, Taken)
  {
    var g := s.runs[a];
    var g' := if g.work.TaskWorker? then Worker(g.work.slot, BySmp(g.slot, g.id), Entering) else g.(phase := Inside);
    s.(runs := s.runs[a := g'], began := s.began + multiset{g.id})
  }

  function DoReturn(s: State, a: nat): State
    requires AtItem(s, a, Inside)
  {
    s.(runs := s.runs[a := s.runs[a].(phase := Returned)], ended := s.ended + multiset{s.runs[a].id})
  }

  /** The store outside the lock. */
  function DoStoreDone(s: State, a: nat): State
    requires AtItem(s, a, Returned)
  {
    var i := s.runs[a].slot;
    s.(smp := s.smp[i := s.smp[i].(state := Done)], runs := s.runs - {a})
  }

  function DoStartWait(s: State, a: nat, wid: Id): State
  {
    s.(waiters := s.waiters[a := Waiting(wid)], smpClaims := s.smpClaims - {wid})
  }

  function DoPollWait(s: State, a: nat): State
    requires a in s.waiters
  {
    if WorkDone(s.smp, s.waiters[a].id) then s.(waiters := s.waiters[a := Releasing(s.waiters[a].id)]) else s
  }

  /** smp_wait_work returns. */
  function DoRelease(s: State, a: nat): State
    requires a in s.waiters
  {
    s.(smp := Released(s.smp, s.waiters[a].id), waiters := s.waiters - {a})
  }

  // ---- Task layer ------------------------------------------------------------------------------

  function DoTaskSubmit(s: State, a: nat, fn: nat, arg: nat, async: bool, online: nat): State
  {
    if fn == 0 || (async && online <= 1) || FirstFreeTask(s.task) == |s.task| then s else
    var id := FreshId(s.nextTask);
    s.(task := TaskReserved(s.task, id, fn, arg), nextTask := NextAfter(s.nextTask),
       submitters := s.submitters[a := Reserved(FirstFreeTask(s.task), id, async)],
       taskSubmits := s.taskSubmits + 1)
  }

  /** smp_submit_work(kernel_task_worker, slot). */
  function DoHandOver(s: State, a: nat, online: nat): State
    requires a in s.submitters && s.submitters[a].Reserved?
  {
    var g := s.submitters[a];
    if !Accepts(s, online) then s.(submitters := s.submitters[a := Refused(g.t, g.tid, g.async)]) else
    var id := FreshId(s.nextSmp);
    s.(smp := Submitted(s.smp, id, TaskWorker(g.t)), nextSmp := NextAfter(s.nextSmp),
       submitters := s.submitters[a := HandedOver(g.t, g.tid, id)],
       smpSubmits := s.smpSubmits + 1, jobOf := s.jobOf[id := g.tid])
  }

  /** The submission returns its id. */
  function DoStoreSmpId(s: State, a: nat): State
    requires a in s.submitters && s.submitters[a].HandedOver? && s.submitters[a].t < |s.task|
  {
    var g := s.submitters[a];
    s.(task := SmpIdStored(s.task, g.t, g.tid, g.smpId), submitters := s.submitters - {a},
       taskClaims := s.taskClaims + {g.tid})
  }

  /** No SMP slot: a plain submission queues the task for polling and returns its id, an
      asynchronous one frees the slot and returns 0. */
  function DoGiveUp(s: State, a: nat): State
    requires a in s.submitters && s.submitters[a].Refused? && s.submitters[a].t < |s.task|
  {
    var g := s.submitters[a];
    if g.async then s.(task := GivenBack(s.task, g.t, g.tid), submitters := s.submitters - {a})
    else s.(task := FellBack(s.task, g.t, g.tid), submitters := s.submitters - {a},
            taskClaims := s.taskClaims + {g.tid})
  }

  function DoWorkerStart(s: State, a: nat): State
    requires AtWorker(s, a)
  {
    var g := s.runs[a];
    var slot := s.task[g.t];
    var h := if MayStart(slot) then Holding(slot.fn, slot.arg, slot.id) else Holding(0, 0, 0);
    s.(task := Started(s.task, g.t), runs := s.runs[a := g.(step := h)])
  }

  function DoWorkerCall(s: State, a: nat): State
    requires AtWorker(s, a) && s.runs[a].step.Holding?
  {
    var g := s.runs[a];
    if g.step.fn == 0 then s.(runs := s.runs[a := g.(step := Leaving)])
    else s.(runs := s.runs[a := g.(step := InTask(g.step.id))], invoked := s.invoked + multiset{g.step.id})
  }

  function DoWorkerReturn(s: State, a: nat): State
    requires AtWorker(s, a) && s.runs[a].step.InTask?
  {
    var g := s.runs[a];
    s.(runs := s.runs[a := g.(step := Leaving)], completed := s.completed + multiset{g.step.task})
  }

  /** kernel_task_worker's last section; its caller is either smp_run_one_work_item or kernel_task_poll. */
  function DoWorkerFinish(s: State, a: nat): State
    requires AtWorker(s, a)
  {
    var g := s.runs[a];
    match g.via
    case ByPoll => s.(task := Finished(s.task, g.t), runs := s.runs - {a})
    case BySmp(i, id) =>
      s.(task := Finished(s.task, g.t), runs := s.runs[a := Item(i, id, TaskWorker(g.t), Returned)],
         ended := s.ended + multiset{id})
  }

  /** kernel_task_poll takes the first queued task. */
  function DoPoll(s: State, a: nat): State
  {
    var t := FirstQueuedTask(s.task);
    if t == |s.task| then s else
    s.(task := s.task[t := s.task[t].(state := Running)], runs := s.runs[a := Worker(t, ByPoll, Entering)])
  }

  /** One iteration of kernel_task_release_finished_smp begins. */
  function DoReapRead(s: State, a: nat, t: nat): State
    requires t < |s.task|
  {
    if s.task[t].state == Done && s.task[t].smpId != 0
    then s.(reapers := s.reapers[a := Reaper(t, s.task[t].smpId, Seen)])
    else s
  }

  function DoReapCheck(s: State, a: nat): State
    requires a in s.reapers
  {
    if WorkDone(s.smp, s.reapers[a].smpId)
    then s.(reapers := s.reapers[a := s.reapers[a].(phase := Polling)])
    else s.(reapers := s.reapers - {a})
  }

  /** The loop of smp_wait_work inside the reaper. */
  function DoReapPoll(s: State, a: nat): State
    requires a in s.reapers
  {
    if WorkDone(s.smp, s.reapers[a].smpId) then s.(reapers := s.reapers[a := s.reapers[a].(phase := Freeing)]) else s
  }

  function DoReapFree(s: State, a: nat): State
    requires a in s.reapers
  {
    s.(smp := Released(s.smp, s.reapers[a].smpId), reapers := s.reapers[a := s.reapers[a].(phase := Clearing)])
  }

  function DoReapClear(s: State, a: nat): State
    requires AtReap(s, a, Clearing)
  {
    s.(task := SmpIdCleared(s.task, s.reapers[a].t, s.reapers[a].smpId), reapers := s.reapers - {a})
  }

  function DoStartTaskWait(s: State, a: nat, tid: Id): State
  {
    s.(taskWaiters := s.taskWaiters[a := Waiting(tid)], taskClaims := s.taskClaims - {tid})
  }

  function DoPollTaskWait(s: State, a: nat): State
    requires a in s.taskWaiters
  {
    if TaskDone(s.task, s.taskWaiters[a].id)
    then s.(taskWaiters := s.taskWaiters[a := Releasing(s.taskWaiters[a].id)])
    else s
  }

  /** kernel_task_wait returns. */
  function DoTaskRelease(s: State, a: nat): State
    requires a in s.taskWaiters
  {
    s.(task := TaskReleased(s.task, s.taskWaiters[a].id), taskWaiters := s.taskWaiters - {a})
  }

  // ---- Runs ------------------------------------------------------------------------------------

  predicate LegalAt(trace: seq<State>, steps: seq<Step>, k: nat)
    requires k < |steps| < |trace|
  {
    Enabled(trace[k], steps[k]) && trace[k + 1] == Next(trace[k], steps[k])
  }

  /** `trace` is a run: `trace[0]` is initial and each state follows from the one before it. */
  predicate IsRun(trace: seq<State>, steps: seq<Step>)
  {
    && |trace| == |steps| + 1
    && Init(trace[0])
    && forall k :: 0 <= k < |steps| ==> LegalAt(trace, steps, k)
  }

  /** Fewer than 2^32 submissions at each table: the id counters have not come round. */
  predicate NoWrap(s: State)
  {
    s.smpSubmits < WORD && s.taskSubmits < WORD
  }
}
