/**
 From submission to call in the kernel task layer: every function that is called for a task is the one that was
 submitted under its id; a plain submission that gets no SMP slot is queued, stays queued until kernel_task_poll takes
 it, and is then called; and when kernel_task_done answers yes.
 */
module SmpTasks {
  import opened SmpTables
  import opened SmpMachine
  import opened SmpInvariant
  import opened SmpPreservation
  import opened SmpTheorems
  import opened SmpExecutions

  // ---- Submissions ------------------------------------------------------------------------------------------------

  /** A task slot is free. */
  predicate TaskRoom(s: State)
  {
    exists t :: 0 <= t < |s.task| && s.task[t].state == Free
  }

  /** The step submits a task and gets the id x for it. */
  predicate SubmitsTask(s: State, step: Step, fn: nat, arg: nat, x: Id)
  {
    && step.OfTask? && step.task.TaskSubmit? && step.task.fn == fn != 0 && step.task.arg == arg
    && (step.task.async ==> step.task.online > 1) && TaskRoom(s) && x == FreshId(s.nextTask)
  }

  lemma RoomIsFirstFree(s: State)
    ensures TaskRoom(s) <==> FirstFreeTask(s.task) < |s.task|
  {
    if FirstFreeTask(s.task) < |s.task| { assert s.task[FirstFreeTask(s.task)].state == Free; }
  }

  /** A submission is turned away for a null function, on a single core if it is asynchronous, or by a full table. */
  lemma TaskSubmitIff(s: State, a: nat, fn: nat, arg: nat, async: bool, online: nat)
    requires TaskEnabled(s, TaskSubmit(a, fn, arg, async, online))
    ensures var s' := DoTaskSubmit(s, a, fn, arg, async, online);
            if fn == 0 || (async && online <= 1) || !TaskRoom(s) then s' == s
            else
              && SubmitsTask(s, OfTask(TaskSubmit(a, fn, arg, async, online)), fn, arg, FreshId(s.nextTask))
              && a in s'.submitters && s'.submitters[a].Reserved? && s'.submitters[a].async == async
              && s'.submitters[a].tid == FreshId(s.nextTask) && s'.submitters[a].t < |s'.task|
              && s'.task[s'.submitters[a].t] == TaskSlot(Running, FreshId(s.nextTask), 0, fn, arg)
  {
    RoomIsFirstFree(s);
  }

  /** The counter of submissions goes up only by a submission. */
  lemma CounterUp(s: State, step: Step)
    requires Enabled(s, step) && Next(s, step).taskSubmits != s.taskSubmits
    ensures step.OfTask? && step.task.TaskSubmit?
    ensures SubmitsTask(s, step, step.task.fn, step.task.arg, FreshId(s.nextTask))
    ensures FirstFreeTask(s.task) < |s.task|
    ensures Next(s, step).task == TaskReserved(s.task, FreshId(s.nextTask), step.task.fn, step.task.arg)
    ensures Next(s, step).taskSubmits == s.taskSubmits + 1
  {
    RoomIsFirstFree(s);
    hide TaskReserved, TaskRoom;
    match step
    case OfSmp(y) => SmpStepFrame(s, y);
    case OfTask(y) => TaskStepSubmitters(s, y, 0);
    case OfWorker(y) => WorkerStepFrame(s, y);
    case OfReap(y) => ReapStepFrame(s, y);
  }

  /** A slot that is not what it was, and not empty, has just been filled by a submission. */
  lemma FilledBySubmission(s: State, step: Step, t: nat)
    requires Enabled(s, step) && TaskMoves(s, Next(s, step)) && t < |s.task| && Next(s, step).task[t].id != 0
    requires var (p, q) := (s.task[t], Next(s, step).task[t]); !(q.id == p.id && q.fn == p.fn && q.arg == p.arg)
    ensures var q := Next(s, step).task[t]; SubmitsTask(s, step, q.fn, q.arg, q.id)
  {
    assert TaskSlotMoves(s, Next(s, step), t);
    CounterUp(s, step);
  }

  /** Every occupied task slot has the function and argument of the submission that got its id. */
  lemma {:induction false} SlotFromSubmission(trace: seq<State>, steps: seq<Step>, k: nat, t: nat) returns (j: nat)
    requires IsRun(trace, steps) && k <= |steps| && t < |trace[k].task| && trace[k].task[t].id != 0
    ensures j < k && var q := trace[k].task[t]; SubmitsTask(trace[j], steps[j], q.fn, q.arg, q.id)
  {
    hide SubmitsTask;
    StepAt(trace, steps, k - 1);
    assert LegalAt(trace, steps, k - 1);
    var p, q := trace[k - 1].task[t], trace[k].task[t];
    if q.id == p.id && q.fn == p.fn && q.arg == p.arg {
      j := SlotFromSubmission(trace, steps, k - 1, t);
    } else {
      FilledBySubmission(trace[k - 1], steps[k - 1], t);
      j := k - 1;
    }
  }

  /** No two submissions get the same id. */
  lemma OneSubmission(trace: seq<State>, steps: seq<Step>, i: nat, j: nat, fn: nat, arg: nat, fn': nat, arg': nat,
                      x: Id)
    requires IsRun(trace, steps) && NoWrap(trace[|steps|]) && i <= j < |steps|
    requires SubmitsTask(trace[i], steps[i], fn, arg, x) && SubmitsTask(trace[j], steps[j], fn', arg', x)
    ensures i == j
  {
    RunTables(trace, steps, i);
    RunTables(trace, steps, j);
    EarlierNoWrap(trace, steps, j);
    if i < j {
      assert LegalAt(trace, steps, i);
      RoomIsFirstFree(trace[i]);
      assert trace[i + 1].taskSubmits == trace[i].taskSubmits + 1;
      GrowMany(trace, steps, i + 1, j);
      EarlierNoWrap(trace, steps, j + 1);
      assert LegalAt(trace, steps, j);
      RoomIsFirstFree(trace[j]);
      assert trace[j + 1].taskSubmits == trace[j].taskSubmits + 1;
      NextIsSuccessor(trace[i]);
      NextIsSuccessor(trace[j]);
    }
  }

  lemma NextIsSuccessor(s: State)
    requires TaskTableOk(s.task, s.nextTask, s.taskSubmits, s.jobOf) && s.taskSubmits + 1 < WORD
    ensures FreshId(s.nextTask) == s.taskSubmits + 1
  {
  }

  // ---- Calls ------------------------------------------------------------------------------------------------------

  /** Whenever a task's function is called, it is for the first time, and with the function and argument submitted. */
  lemma CallsSubmitted(trace: seq<State>, steps: seq<Step>, m: nat, b: nat) returns (j: nat)
    requires IsRun(trace, steps) && NoWrap(trace[|steps|]) && m < |steps| && steps[m] == OfWorker(WorkerCall(b))
    ensures AtWorker(trace[m], b) && trace[m].runs[b].step.Holding?
    ensures var h := trace[m].runs[b].step;
            && j < m && SubmitsTask(trace[j], steps[j], h.fn, h.arg, h.id)
            && trace[m].invoked[h.id] == 0 && trace[m + 1].invoked == trace[m].invoked + multiset{h.id}
            && AtWorker(trace[m + 1], b) && trace[m + 1].runs[b].step == InTask(h.id)
  {
    hide ItemCountsOk, NamesOk, ClaimsOk, ExecsOk, ReapersOk, TaskClaimsOk, SubmittersOk, SubmitsTask;
    RunInv(trace, steps, m);
    assert LegalAt(trace, steps, m);
    var s := trace[m];
    var g := s.runs[b];
    assert HolderOk(g, s.task);
    assert TaskOk(s.task[g.t], s.taskSubmits, s.jobOf);
    assert Holds(g) == g.t && Ran(s.invoked, s.completed, s.task[g.t].id, 0, 0);
    j := SlotFromSubmission(trace, steps, m, g.t);
  }

  // ---- The task a submitter works for -----------------------------------------------------------------------------

  /** Agent a submits a task at this step and gets the id x. */
  predicate SubmitsAs(s: State, step: Step, a: nat, async: bool, fn: nat, arg: nat, x: Id)
  {
    SubmitsTask(s, step, fn, arg, x) && step.task.a == a && step.task.async == async
  }

  /** A submitter comes from its submission. */
  lemma NewSubmitter(s: State, step: Step, a: nat)
    requires Enabled(s, step) && a in Next(s, step).submitters && a !in s.submitters
    ensures step.OfTask? && step.task.TaskSubmit?
    ensures SubmitsAs(s, step, a, step.task.async, step.task.fn, step.task.arg, Next(s, step).submitters[a].tid)
    ensures Next(s, step).submitters[a].Reserved? && Next(s, step).submitters[a].async == step.task.async
  {
    RoomIsFirstFree(s);
    hide TaskReserved, TaskRoom;
    match step
    case OfSmp(y) => SmpStepSubmitters(s, y);
    case OfTask(y) => TaskStepSubmitters(s, y, a);
    case OfWorker(y) => WorkerStepSubmitters(s, y);
    case OfReap(y) => ReapStepSubmitters(s, y);
  }

  lemma SmpStepSubmitters(s: State, step: SmpStep)
    requires SmpEnabled(s, step)
    ensures NextSmp(s, step).submitters == s.submitters && NextSmp(s, step).task == s.task
  {
    hide Submitted, Released, WorkDone;
    match step
    case SubmitPlain(fn, arg, online) => assert NextSmp(s, step) == DoSubmitPlain(s, fn, arg, online);
    case Take(a) => assert NextSmp(s, step) == DoTake(s, a);
    case Call(a) => assert NextSmp(s, step) == DoCall(s, a);
    case Return(a) => assert NextSmp(s, step) == DoReturn(s, a);
    case StoreDone(a) => assert NextSmp(s, step) == DoStoreDone(s, a);
    case StartWait(a, wid) => assert NextSmp(s, step) == DoStartWait(s, a, wid);
    case PollWait(a) => assert NextSmp(s, step) == DoPollWait(s, a);
    case Release(a) => assert NextSmp(s, step) == DoRelease(s, a);
  }

  /** Submitter b goes on with its task, or comes from a submission. */
  ghost predicate SubmitterMoves(s: State, s': State, step: TaskStep, b: nat)
  {
    && (b in s.submitters && b in s'.submitters ==>
          var (g, g') := (s.submitters[b], s'.submitters[b]);
          g'.tid == g.tid && g'.t == g.t && (!g'.HandedOver? ==> !g.HandedOver? && g'.async == g.async))
    && (b !in s.submitters && b in s'.submitters ==> step.TaskSubmit? && step.a == b && s'.taskSubmits != s.taskSubmits)
  }

  ghost predicate CounterMoves(s: State, s': State, step: TaskStep)
  {
    s'.taskSubmits != s.taskSubmits ==>
      && step.TaskSubmit? && !(step.fn == 0 || (step.async && step.online <= 1))
      && FirstFreeTask(s.task) < |s.task| && s'.taskSubmits == s.taskSubmits + 1
      && s'.task == TaskReserved(s.task, FreshId(s.nextTask), step.fn, step.arg)
      && s'.submitters == s.submitters[step.a := Reserved(FirstFreeTask(s.task), FreshId(s.nextTask), step.async)]
  }

  lemma SubmitMovesSubmitter(s: State, step: TaskStep, b: nat)
    requires step.TaskSubmit? && TaskEnabled(s, step)
    ensures SubmitterMoves(s, NextTask(s, step), step, b) && CounterMoves(s, NextTask(s, step), step)
  {
    hide TaskReserved;
    var s' := DoTaskSubmit(s, step.a, step.fn, step.arg, step.async, step.online);
    assert NextTask(s, step) == s';
  }

  lemma HandOverMovesSubmitter(s: State, step: TaskStep, b: nat)
    requires step.HandOver? && TaskEnabled(s, step)
    ensures SubmitterMoves(s, NextTask(s, step), step, b) && CounterMoves(s, NextTask(s, step), step)
  {
    hide Submitted, Accepts;
    var s' := DoHandOver(s, step.a, step.online);
    assert NextTask(s, step) == s' && s'.taskSubmits == s.taskSubmits;
    assert b != step.a ==> (b in s'.submitters <==> b in s.submitters);
  }

  lemma OtherMovesSubmitter(s: State, s': State, step: TaskStep, a: nat, b: nat)
    requires s'.submitters == s.submitters || s'.submitters == s.submitters - {a}
    requires s'.taskSubmits == s.taskSubmits
    ensures SubmitterMoves(s, s', step, b) && CounterMoves(s, s', step)
  {
  }

  /** What the steps of the task layer do to submitter b. */
  lemma TaskStepSubmitters(s: State, step: TaskStep, b: nat)
    requires TaskEnabled(s, step)
    ensures SubmitterMoves(s, NextTask(s, step), step, b) && CounterMoves(s, NextTask(s, step), step)
  {
    hide SubmitterMoves, CounterMoves, SmpIdStored, FellBack, GivenBack, TaskDone, TaskReleased;
    match step
    case TaskSubmit(_, _, _, _, _) => SubmitMovesSubmitter(s, step, b);
    case HandOver(_, _) => HandOverMovesSubmitter(s, step, b);
    case StoreSmpId(a) => OtherMovesSubmitter(s, DoStoreSmpId(s, a), step, a, b);
    case GiveUp(a) => OtherMovesSubmitter(s, DoGiveUp(s, a), step, a, b);
    case StartTaskWait(a, tid) => OtherMovesSubmitter(s, DoStartTaskWait(s, a, tid), step, a, b);
    case PollTaskWait(a) => OtherMovesSubmitter(s, DoPollTaskWait(s, a), step, a, b);
    case TaskRelease(a) => OtherMovesSubmitter(s, DoTaskRelease(s, a), step, a, b);
  }

  lemma WorkerStepSubmitters(s: State, step: WorkerStep)
    requires WorkerEnabled(s, step)
    ensures NextWorker(s, step).submitters == s.submitters
  {
    hide Started, Finished, FirstQueuedTask;
    match step
    case WorkerStart(a) => assert NextWorker(s, step) == DoWorkerStart(s, a);
    case WorkerCall(a) => assert NextWorker(s, step) == DoWorkerCall(s, a);
    case WorkerReturn(a) => assert NextWorker(s, step) == DoWorkerReturn(s, a);
    case WorkerFinish(a) => assert NextWorker(s, step) == DoWorkerFinish(s, a);
    case Poll(a) => assert NextWorker(s, step) == DoPoll(s, a);
  }

  lemma ReapStepSubmitters(s: State, step: ReapStep)
    requires ReapEnabled(s, step)
    ensures NextReap(s, step).submitters == s.submitters
  {
    hide WorkDone, Released, SmpIdCleared;
    match step
    case ReapRead(a, t) => assert NextReap(s, step) == DoReapRead(s, a, t);
    case ReapCheck(a) => assert NextReap(s, step) == DoReapCheck(s, a);
    case ReapPoll(a) => assert NextReap(s, step) == DoReapPoll(s, a);
    case ReapFree(a) => assert NextReap(s, step) == DoReapFree(s, a);
    case ReapClear(a) => assert NextReap(s, step) == DoReapClear(s, a);
  }

  /** A submitter that goes on works for the same task, and stays asynchronous or not. */
  lemma SubmitterGoesOn(s: State, step: Step, a: nat)
    requires Enabled(s, step) && a in s.submitters && a in Next(s, step).submitters
    ensures var (g, g') := (s.submitters[a], Next(s, step).submitters[a]);
            g'.tid == g.tid && g'.t == g.t && (!g'.HandedOver? ==> !g.HandedOver? && g'.async == g.async)
  {
    hide TaskReserved;
    match step
    case OfSmp(y) => SmpStepSubmitters(s, y);
    case OfTask(y) => TaskStepSubmitters(s, y, a);
    case OfWorker(y) => WorkerStepSubmitters(s, y);
    case OfReap(y) => ReapStepSubmitters(s, y);
  }

  lemma {:induction false} SubmitterFrom(trace: seq<State>, steps: seq<Step>, k: nat, a: nat) returns (j: nat)
    requires IsRun(trace, steps) && k <= |steps| && a in trace[k].submitters && !trace[k].submitters[a].HandedOver?
    ensures j < k && steps[j].OfTask? && steps[j].task.TaskSubmit?
    ensures var g := trace[k].submitters[a];
            SubmitsAs(trace[j], steps[j], a, g.async, steps[j].task.fn, steps[j].task.arg, g.tid)
  {
    hide SubmitsAs;
    assert LegalAt(trace, steps, k - 1);
    if a in trace[k - 1].submitters {
      SubmitterGoesOn(trace[k - 1], steps[k - 1], a);
      j := SubmitterFrom(trace, steps, k - 1, a);
    } else {
      NewSubmitter(trace[k - 1], steps[k - 1], a);
      j := k - 1;
    }
  }

  /**
   A plain submission that gets no SMP slot: its task is queued under the id it was given, with the function and
   argument it was called with, and the caller may wait for that id.
   */
  lemma RefusedIsQueued(trace: seq<State>, steps: seq<Step>, k: nat, a: nat) returns (j: nat)
    requires IsRun(trace, steps) && NoWrap(trace[|steps|]) && k < |steps| && steps[k] == OfTask(GiveUp(a))
    requires a in trace[k].submitters && trace[k].submitters[a].Refused? && !trace[k].submitters[a].async
    ensures j < k && steps[j].OfTask? && steps[j].task.TaskSubmit?
    ensures var (g, s', call) := (trace[k].submitters[a], trace[k + 1], steps[j].task);
            && SubmitsAs(trace[j], steps[j], a, false, call.fn, call.arg, g.tid)
            && g.t < |s'.task| && s'.task[g.t] == TaskSlot(Queued, g.tid, 0, call.fn, call.arg)
            && g.tid in s'.taskClaims && a !in s'.submitters
  {
    var g := trace[k].submitters[a];
    j := SubmitterFrom(trace, steps, k, a);
    SubmitterSlot(trace, steps, k, a);
    var i := SlotFromSubmission(trace, steps, k, g.t);
    SameSubmission(trace, steps, i, j, trace[k].task[g.t].fn, trace[k].task[g.t].arg, steps[j].task.fn,
                   steps[j].task.arg, g.tid);
    assert LegalAt(trace, steps, k);
  }

  lemma SubmitterSlot(trace: seq<State>, steps: seq<Step>, k: nat, a: nat)
    requires IsRun(trace, steps) && NoWrap(trace[|steps|]) && k <= |steps| && a in trace[k].submitters
    ensures var (s, g) := (trace[k], trace[k].submitters[a]);
            && g.t < |s.task| && s.task[g.t].id == g.tid != 0 && s.task[g.t].smpId == 0
            && (!g.HandedOver? ==> s.task[g.t].state == Running)
  {
    RunInv(trace, steps, k);
    assert SubmitterOk(trace[k].submitters[a], trace[k].smp, trace[k].task);
    assert !trace[k].submitters[a].HandedOver? ==> Pending(trace[k].submitters[a]) == trace[k].submitters[a].t;
  }

  lemma SameSubmission(trace: seq<State>, steps: seq<Step>, i: nat, j: nat, fn: nat, arg: nat, fn': nat, arg': nat,
                       x: Id)
    requires IsRun(trace, steps) && NoWrap(trace[|steps|]) && i < |steps| && j < |steps|
    requires SubmitsTask(trace[i], steps[i], fn, arg, x) && SubmitsTask(trace[j], steps[j], fn', arg', x)
    ensures i == j && fn == fn' && arg == arg'
  {
    if i <= j {
      OneSubmission(trace, steps, i, j, fn, arg, fn', arg', x);
    } else {
      OneSubmission(trace, steps, j, i, fn', arg', fn, arg, x);
    }
  }

  /** A submission that got an SMP slot: its task names the item, and the caller may wait for the task. */
  lemma AcceptedIsNamed(trace: seq<State>, steps: seq<Step>, k: nat, a: nat)
    requires IsRun(trace, steps) && NoWrap(trace[|steps|]) && k < |steps| && steps[k] == OfTask(StoreSmpId(a))
    requires a in trace[k].submitters && trace[k].submitters[a].HandedOver?
    ensures var (g, s') := (trace[k].submitters[a], trace[k + 1]);
            && g.t < |trace[k].task| == |s'.task| && s'.task[g.t] == trace[k].task[g.t].(smpId := g.smpId)
            && s'.task[g.t].id == g.tid
            && g.tid in s'.taskClaims && a !in s'.submitters
  {
    SubmitterSlot(trace, steps, k, a);
    assert LegalAt(trace, steps, k);
  }

  // ---- Queued tasks -----------------------------------------------------------------------------------------------

  /** A queued task names no SMP item and nobody is submitting it any more. */
  ghost predicate QueuedOk(s: State)
  {
    && (forall t :: 0 <= t < |s.task| && s.task[t].state == Queued ==> s.task[t].smpId == 0)
    && (forall b :: b in s.submitters && s.submitters[b].t < |s.task| ==> s.task[s.submitters[b].t].state != Queued)
  }

  /** The step is a poll that takes task t: the first that is queued. */
  predicate TakenByPoll(s: State, step: Step, t: nat)
  {
    && step.OfWorker? && step.worker.Poll? && t < |s.task| && s.task[t].state == Queued
    && forall u :: 0 <= u < t ==> s.task[u].state != Queued
  }

  /** Queued tasks stay as they are unless a poll takes them, and new ones come only from refused submissions. */
  ghost predicate QueueMoves(s: State, s': State, step: Step)
  {
    && |s'.task| == |s.task|
    && (forall t :: 0 <= t < |s.task| && s.task[t].state == Queued && !TakenByPoll(s, step, t) ==>
          s'.task[t] == s.task[t])
    && QueuedOk(s')
  }

  lemma QueueSame(s: State, s': State, step: Step)
    requires QueuedOk(s) && s'.task == s.task && s'.submitters == s.submitters
    ensures QueueMoves(s, s', step)
  {
  }

  /** A step that changes one slot, not a queued one, to something not queued, and takes no submitter in. */
  lemma QueueSlot(s: State, s': State, step: Step, t: nat)
    requires QueuedOk(s) && t < |s.task| == |s'.task| && s.task[t].state != Queued
    requires s'.task == s.task[t := s'.task[t]] && s'.task[t].state != Queued
    requires s'.submitters.Keys <= s.submitters.Keys
    requires forall b :: b in s'.submitters ==> s'.submitters[b] == s.submitters[b]
    ensures QueueMoves(s, s', step)
  {
  }

  lemma QueueSubmit(s: State, y: TaskStep)
    requires QueuedOk(s) && y.TaskSubmit? && TaskEnabled(s, y)
    ensures QueueMoves(s, NextTask(s, y), OfTask(y))
  {
    var s', t := DoTaskSubmit(s, y.a, y.fn, y.arg, y.async, y.online), FirstFreeTask(s.task);
    assert NextTask(s, y) == s';
    hide TaskScan, FreshId;
    if s' != s {
      assert s'.task == s.task[t := s'.task[t]] && s'.task[t].state == Running;
      assert s'.submitters == s.submitters[y.a := s'.submitters[y.a]] && s'.submitters[y.a].t == t;
    }
  }

  lemma QueueHandOver(s: State, y: TaskStep)
    requires QueuedOk(s) && y.HandOver? && TaskEnabled(s, y)
    ensures QueueMoves(s, NextTask(s, y), OfTask(y))
  {
    hide Submitted, Accepts;
    var s' := DoHandOver(s, y.a, y.online);
    assert NextTask(s, y) == s' && s'.task == s.task && s'.submitters[y.a].t == s.submitters[y.a].t;
  }

  lemma QueueStore(s: State, a: nat)
    requires QueuedOk(s) && TaskEnabled(s, StoreSmpId(a))
    ensures QueueMoves(s, DoStoreSmpId(s, a), OfTask(StoreSmpId(a)))
  {
    var t := s.submitters[a].t;
    assert s.task[t].state != Queued;
    QueueSlot(s, DoStoreSmpId(s, a), OfTask(StoreSmpId(a)), t);
  }

  lemma QueueGiveUp(s: State, a: nat)
    requires QueuedOk(s) && TaskEnabled(s, GiveUp(a)) && SubmittersOk(s.smp, s.task, s.submitters)
    ensures QueueMoves(s, DoGiveUp(s, a), OfTask(GiveUp(a)))
  {
    hide QueuedOk, QueueMoves, SubmittersOk, FellBack, GivenBack;
    var g := s.submitters[a];
    OnlySubmitter(s, a);
    BackInOneSlot(s.task, g.t, g.tid);
    if g.async {
      QueueBack(s, DoGiveUp(s, a), OfTask(GiveUp(a)), a);
    } else {
      QueueBack(s, DoGiveUp(s, a), OfTask(GiveUp(a)), a);
    }
  }

  lemma BackInOneSlot(task: seq<TaskSlot>, t: nat, x: Id)
    requires t < |task| && task[t].smpId == 0
    ensures var f := FellBack(task, t, x); |f| == |task| && f == task[t := f[t]] && f[t].smpId == 0
    ensures var g := GivenBack(task, t, x); |g| == |task| && g == task[t := g[t]] && g[t].smpId == 0
  {
  }

  lemma OnlySubmitter(s: State, a: nat)
    requires SubmittersOk(s.smp, s.task, s.submitters) && a in s.submitters && s.submitters[a].t < |s.task|
    ensures s.task[s.submitters[a].t].smpId == 0
    ensures forall b :: b in s.submitters && b != a ==> s.submitters[b].t != s.submitters[a].t
  {
    assert SubmitterOk(s.submitters[a], s.smp, s.task);
  }

  /** A submitter leaves, and its slot, which named no item, becomes anything. */
  lemma QueueBack(s: State, s': State, step: Step, a: nat)
    requires QueuedOk(s) && a in s.submitters && s.submitters[a].t < |s.task| == |s'.task| && !step.OfWorker?
    requires var t := s.submitters[a].t; s.task[t].smpId == 0 == s'.task[t].smpId && s'.task == s.task[t := s'.task[t]]
    requires s'.submitters == s.submitters - {a}
    requires forall b :: b in s.submitters && b != a ==> s.submitters[b].t != s.submitters[a].t
    ensures QueueMoves(s, s', step)
  {
    var t := s.submitters[a].t;
    assert s.task[t].state != Queued;
    forall u | 0 <= u < |s.task| && u != t ensures s'.task[u] == s.task[u] { }
  }

  lemma QueueRelease(s: State, a: nat)
    requires QueuedOk(s) && TaskEnabled(s, TaskRelease(a))
    ensures QueueMoves(s, DoTaskRelease(s, a), OfTask(TaskRelease(a)))
  {
    var s', t := DoTaskRelease(s, a), FirstDoneTaskWithId(s.task, s.taskWaiters[a].id);
    if t < |s.task| { QueueSlot(s, s', OfTask(TaskRelease(a)), t); }
  }

  lemma QueueTaskStep(s: State, y: TaskStep)
    requires QueuedOk(s) && TaskEnabled(s, y) && SubmittersOk(s.smp, s.task, s.submitters)
    ensures QueueMoves(s, NextTask(s, y), OfTask(y))
  {
    hide QueuedOk, QueueMoves, SubmittersOk, TaskDone, TaskReleased, SmpIdStored, FellBack, GivenBack, TaskReserved;
    match y
    case TaskSubmit(_, _, _, _, _) => QueueSubmit(s, y);
    case HandOver(_, _) => QueueHandOver(s, y);
    case StoreSmpId(a) => QueueStore(s, a);
    case GiveUp(a) => QueueGiveUp(s, a);
    case StartTaskWait(a, tid) => QueueSame(s, DoStartTaskWait(s, a, tid), OfTask(y));
    case PollTaskWait(a) => QueueSame(s, DoPollTaskWait(s, a), OfTask(y));
    case TaskRelease(a) => QueueRelease(s, a);
  }

  /** A worker's task is not queued. */
  lemma QueueWorker(s: State, s': State, y: WorkerStep)
    requires QueuedOk(s) && WorkerEnabled(s, y) && !y.Poll? && HolderOk(s.runs[y.a], s.task)
    requires s'.submitters == s.submitters && |s'.task| == |s.task|
    requires var t := s.runs[y.a].t; s'.task == s.task[t := s'.task[t]] && s'.task[t].state != Queued
    ensures QueueMoves(s, s', OfWorker(y))
  {
    QueueSlot(s, s', OfWorker(y), s.runs[y.a].t);
  }

  lemma QueuePoll(s: State, a: nat)
    requires QueuedOk(s) && WorkerEnabled(s, Poll(a))
    ensures QueueMoves(s, DoPoll(s, a), OfWorker(Poll(a)))
  {
    var s', t := DoPoll(s, a), FirstQueuedTask(s.task);
    if t < |s.task| {
      assert TakenByPoll(s, OfWorker(Poll(a)), t);
      assert s'.task == s.task[t := s.task[t].(state := Running)] && s'.submitters == s.submitters;
    }
  }

  lemma QueueWorkerStep(s: State, y: WorkerStep)
    requires QueuedOk(s) && WorkerEnabled(s, y) && (!y.Poll? ==> HolderOk(s.runs[y.a], s.task))
    ensures QueueMoves(s, NextWorker(s, y), OfWorker(y))
  {
    hide QueuedOk, QueueMoves;
    match y
    case WorkerStart(a) => QueueStart(s, a);
    case WorkerCall(a) => QueueSame(s, DoWorkerCall(s, a), OfWorker(y));
    case WorkerReturn(a) => QueueSame(s, DoWorkerReturn(s, a), OfWorker(y));
    case WorkerFinish(a) => QueueFinish(s, a);
    case Poll(a) => QueuePoll(s, a);
  }

  lemma QueueStart(s: State, a: nat)
    requires QueuedOk(s) && WorkerEnabled(s, WorkerStart(a)) && HolderOk(s.runs[a], s.task)
    ensures QueueMoves(s, DoWorkerStart(s, a), OfWorker(WorkerStart(a)))
  {
    hide QueuedOk, QueueMoves;
    var t, s' := s.runs[a].t, DoWorkerStart(s, a);
    assert s.task[t].state == Running && s'.task == s.task[t := s'.task[t]] && s'.submitters == s.submitters;
    QueueWorker(s, s', WorkerStart(a));
  }

  lemma QueueFinish(s: State, a: nat)
    requires QueuedOk(s) && WorkerEnabled(s, WorkerFinish(a)) && HolderOk(s.runs[a], s.task)
    ensures QueueMoves(s, DoWorkerFinish(s, a), OfWorker(WorkerFinish(a)))
  {
    hide QueuedOk, QueueMoves;
    var t, s' := s.runs[a].t, DoWorkerFinish(s, a);
    assert s.task[t].state == Running && s'.task == s.task[t := s'.task[t]] && s'.submitters == s.submitters;
    QueueWorker(s, s', WorkerFinish(a));
  }

  lemma QueueReapStep(s: State, y: ReapStep)
    requires QueuedOk(s) && ReapEnabled(s, y) && ReapersOk(s.smp, s.task, s.jobOf, s.reapers)
    ensures QueueMoves(s, NextReap(s, y), OfReap(y))
  {
    hide WorkDone, Released, QueuedOk, QueueMoves, ReapersOk, SmpIdCleared;
    match y
    case ReapRead(a, t) => QueueSame(s, DoReapRead(s, a, t), OfReap(y));
    case ReapCheck(a) => QueueSame(s, DoReapCheck(s, a), OfReap(y));
    case ReapPoll(a) => QueueSame(s, DoReapPoll(s, a), OfReap(y));
    case ReapFree(a) => QueueSame(s, DoReapFree(s, a), OfReap(y));
    case ReapClear(a) => QueueClear(s, a);
  }

  lemma QueueClear(s: State, a: nat)
    requires QueuedOk(s) && ReapEnabled(s, ReapClear(a)) && ReapersOk(s.smp, s.task, s.jobOf, s.reapers)
    ensures QueueMoves(s, DoReapClear(s, a), OfReap(ReapClear(a)))
  {
    var g, s' := s.reapers[a], DoReapClear(s, a);
    assert ReaperOk(g, s.smp, s.task, s.jobOf);
    if s.task[g.t].smpId == g.smpId {
      QueueSlot(s, s', OfReap(ReapClear(a)), g.t);
    } else {
      QueueSame(s, s', OfReap(ReapClear(a)));
    }
  }

  lemma QueueStep(s: State, step: Step)
    requires Inv(s) && QueuedOk(s) && Enabled(s, step)
    ensures QueueMoves(s, Next(s, step), step)
  {
    hide QueuedOk, QueueMoves, SmpTableOk, ExecsOk, ItemCountsOk, ClaimsOk, TaskTableOk, TaskCountsOk, NamesOk,
         TaskClaimsOk, OneHolder, HolderOk, SubmittersOk, ReapersOk;
    match step
    case OfSmp(y) =>
      SmpStepSubmitters(s, y);
      QueueSame(s, Next(s, step), step);
    case OfTask(y) => QueueTaskStep(s, y);
    case OfWorker(y) => QueueWorkerStep(s, y);
    case OfReap(y) => QueueReapStep(s, y);
  }

  lemma {:induction false} RunQueued(trace: seq<State>, steps: seq<Step>, k: nat)
    requires IsRun(trace, steps) && NoWrap(trace[|steps|]) && k <= |steps|
    ensures QueuedOk(trace[k])
  {
    if k > 0 {
      RunQueued(trace, steps, k - 1);
      QueueAt(trace, steps, k - 1);
    }
  }

  lemma QueueAt(trace: seq<State>, steps: seq<Step>, k: nat)
    requires IsRun(trace, steps) && NoWrap(trace[|steps|]) && k < |steps| && QueuedOk(trace[k])
    ensures QueueMoves(trace[k], trace[k + 1], steps[k])
  {
    hide QueueMoves, QueuedOk, Inv;
    RunInv(trace, steps, k);
    assert LegalAt(trace, steps, k);
    QueueStep(trace[k], steps[k]);
  }

  /** A queued task stays queued, with its id, function and argument, until a poll takes it. */
  lemma {:induction false} QueuedUntilPolled(trace: seq<State>, steps: seq<Step>, k: nat, m: nat, t: nat)
    requires IsRun(trace, steps) && NoWrap(trace[|steps|]) && k <= m <= |steps|
    requires t < |trace[k].task| && trace[k].task[t].state == Queued
    requires forall j :: k <= j < m ==> !TakenByPoll(trace[j], steps[j], t)
    ensures t < |trace[m].task| && trace[m].task[t] == trace[k].task[t]
  {
    if k < m {
      QueuedUntilPolled(trace, steps, k, m - 1, t);
      RunQueued(trace, steps, m - 1);
      QueueAt(trace, steps, m - 1);
    }
  }

  /** A poll takes the first queued task, if there is one, and enters kernel_task_worker with it. */
  lemma PollTakes(s: State, b: nat, t: nat)
    requires WorkerEnabled(s, Poll(b))
    ensures (forall u :: 0 <= u < |s.task| ==> s.task[u].state != Queued) ==> DoPoll(s, b) == s
    ensures TakenByPoll(s, OfWorker(Poll(b)), t) ==>
              && DoPoll(s, b).task == s.task[t := s.task[t].(state := Running)]
              && b in DoPoll(s, b).runs && DoPoll(s, b).runs[b] == Worker(t, ByPoll, Entering)
  {
    var f := FirstQueuedTask(s.task);
    hide FirstQueuedTask;
    assert TakenByPoll(s, OfWorker(Poll(b)), t) ==> f == t;
  }

  // ---- From the poll to the call ----------------------------------------------------------------------------------

  /** Worker b itself takes the step. */
  predicate OwnStep(step: Step, b: nat)
  {
    step.OfWorker? && step.worker.a == b
  }

  /** A worker goes on only by its own steps. */
  lemma WorkerStays(s: State, step: Step, b: nat)
    requires Enabled(s, step) && AtWorker(s, b) && !OwnStep(step, b)
    ensures b in Next(s, step).runs && Next(s, step).runs[b] == s.runs[b]
  {
    match step
    case OfSmp(y) => SmpStepRuns(s, y, b);
    case OfTask(y) => TaskHistory(s, y);
    case OfWorker(y) => WorkerStepRuns(s, y, b);
    case OfReap(y) => ReapHistory(s, y);
  }

  lemma SmpStepRuns(s: State, step: SmpStep, b: nat)
    requires SmpEnabled(s, step) && AtWorker(s, b)
    ensures b in NextSmp(s, step).runs && NextSmp(s, step).runs[b] == s.runs[b]
  {
    hide Submitted, Released, WorkDone;
    match step
    case SubmitPlain(fn, arg, online) => assert NextSmp(s, step) == DoSubmitPlain(s, fn, arg, online);
    case Take(a) => assert NextSmp(s, step) == DoTake(s, a);
    case Call(a) => assert NextSmp(s, step) == DoCall(s, a);
    case Return(a) => assert NextSmp(s, step) == DoReturn(s, a);
    case StoreDone(a) => assert NextSmp(s, step) == DoStoreDone(s, a);
    case StartWait(a, wid) => assert NextSmp(s, step) == DoStartWait(s, a, wid);
    case PollWait(a) => assert NextSmp(s, step) == DoPollWait(s, a);
    case Release(a) => assert NextSmp(s, step) == DoRelease(s, a);
  }

  lemma WorkerStepRuns(s: State, step: WorkerStep, b: nat)
    requires WorkerEnabled(s, step) && step.a != b && b in s.runs
    ensures b in NextWorker(s, step).runs && NextWorker(s, step).runs[b] == s.runs[b]
  {
    hide Started, Finished, FirstQueuedTask;
    match step
    case WorkerStart(a) => assert NextWorker(s, step) == DoWorkerStart(s, a);
    case WorkerCall(a) => assert NextWorker(s, step) == DoWorkerCall(s, a);
    case WorkerReturn(a) => assert NextWorker(s, step) == DoWorkerReturn(s, a);
    case WorkerFinish(a) => assert NextWorker(s, step) == DoWorkerFinish(s, a);
    case Poll(a) => assert NextWorker(s, step) == DoPoll(s, a);
  }

  /** Worker b is on its way to the call of this task. */
  predicate OnItsWay(s: State, b: nat, t: nat, x: Id, fn: nat, arg: nat)
  {
    && AtWorker(s, b) && s.runs[b].t == t && s.runs[b].via == ByPoll
    && s.task[t].id == x && s.task[t].fn == fn && s.task[t].arg == arg
    && (s.runs[b].step == Entering || s.runs[b].step == Holding(fn, arg, x))
  }

  /** The task in a worker's hands keeps its id, function and argument. */
  lemma HeldTaskKept(trace: seq<State>, steps: seq<Step>, j: nat, b: nat)
    requires IsRun(trace, steps) && NoWrap(trace[|steps|]) && j < |steps| && AtWorker(trace[j], b)
    requires b in trace[j + 1].runs && trace[j + 1].runs[b].Worker? && trace[j + 1].runs[b].t == trace[j].runs[b].t
    ensures var (t, s, s') := (trace[j].runs[b].t, trace[j], trace[j + 1]);
            && t < |s'.task| && s.task[t].state == Running && s'.task[t].state == Running
            && s'.task[t].id == s.task[t].id && s'.task[t].fn == s.task[t].fn && s'.task[t].arg == s.task[t].arg
  {
    WorkersTask(trace, steps, j, b);
    WorkersTask(trace, steps, j + 1, b);
    StepAt(trace, steps, j);
    var t := trace[j].runs[b].t;
    assert TaskSlotMoves(trace[j], trace[j + 1], t);
  }

  lemma WorkersTask(trace: seq<State>, steps: seq<Step>, j: nat, b: nat)
    requires IsRun(trace, steps) && NoWrap(trace[|steps|]) && j <= |steps|
    requires b in trace[j].runs && trace[j].runs[b].Worker?
    ensures var (s, t) := (trace[j], trace[j].runs[b].t);
            t < |s.task| && s.task[t].state == Running && s.task[t].id != 0 && HolderOk(s.runs[b], s.task)
  {
    RunInv(trace, steps, j);
    var s := trace[j];
    assert HolderOk(s.runs[b], s.task) && Holds(s.runs[b]) == s.runs[b].t;
    assert TaskOk(s.task[s.runs[b].t], s.taskSubmits, s.jobOf);
  }

  /** The only way on is the start of the worker and then the call. */
  lemma WayGoesOn(trace: seq<State>, steps: seq<Step>, j: nat, b: nat, t: nat, x: Id, fn: nat, arg: nat)
    requires IsRun(trace, steps) && NoWrap(trace[|steps|]) && j < |steps| && OnItsWay(trace[j], b, t, x, fn, arg)
    requires steps[j] != OfWorker(WorkerCall(b))
    ensures OnItsWay(trace[j + 1], b, t, x, fn, arg)
  {
    assert LegalAt(trace, steps, j);
    WorkersTask(trace, steps, j, b);
    if OwnStep(steps[j], b) {
      assert steps[j] == OfWorker(WorkerStart(b));
      assert trace[j + 1] == DoWorkerStart(trace[j], b);
    } else {
      WorkerStays(trace[j], steps[j], b);
    }
    HeldTaskKept(trace, steps, j, b);
  }

  lemma {:induction false} StaysOnItsWay(trace: seq<State>, steps: seq<Step>, k: nat, m: nat, b: nat, t: nat, x: Id,
                                         fn: nat, arg: nat)
    requires IsRun(trace, steps) && NoWrap(trace[|steps|]) && k <= m <= |steps| && OnItsWay(trace[k], b, t, x, fn, arg)
    requires forall j :: k <= j < m ==> steps[j] != OfWorker(WorkerCall(b))
    ensures OnItsWay(trace[m], b, t, x, fn, arg)
  {
    hide OnItsWay;
    if k < m {
      StaysOnItsWay(trace, steps, k, m - 1, b, t, x, fn, arg);
      WayGoesOn(trace, steps, m - 1, b, t, x, fn, arg);
    }
  }

  /** A poll in a state with a queued task: what the poller calls next is that task's function with its argument. */
  lemma PolledIsCalled(trace: seq<State>, steps: seq<Step>, k: nat, m: nat, b: nat, t: nat)
    requires IsRun(trace, steps) && NoWrap(trace[|steps|]) && k < m < |steps|
    requires steps[k] == OfWorker(Poll(b)) && TakenByPoll(trace[k], steps[k], t)
    requires steps[m] == OfWorker(WorkerCall(b)) && forall j :: k < j < m ==> steps[j] != OfWorker(WorkerCall(b))
    ensures var p := trace[k].task[t];
            && trace[k].invoked[p.id] == 0
            && b in trace[m].runs && trace[m].runs[b] == Worker(t, ByPoll, Holding(p.fn, p.arg, p.id))
            && trace[m].invoked[p.id] == 0 && trace[m + 1].invoked[p.id] == 1
  {
    var p := trace[k].task[t];
    hide OnItsWay, TakenByPoll;
    PollBegins(trace, steps, k, b, t);
    StaysOnItsWay(trace, steps, k + 1, m, b, t, p.id, p.fn, p.arg);
    var j := CallsSubmitted(trace, steps, m, b);
    WayEnds(trace[m], b, t, p.id, p.fn, p.arg);
    TaskRunsOnce(trace, steps, k);
  }

  lemma PollBegins(trace: seq<State>, steps: seq<Step>, k: nat, b: nat, t: nat)
    requires IsRun(trace, steps) && k < |steps| && steps[k] == OfWorker(Poll(b)) && TakenByPoll(trace[k], steps[k], t)
    ensures t < |trace[k].task| && trace[k].task[t].state == Queued
    ensures var p := trace[k].task[t]; OnItsWay(trace[k + 1], b, t, p.id, p.fn, p.arg)
  {
    assert LegalAt(trace, steps, k);
    PollTakes(trace[k], b, t);
  }

  lemma WayEnds(s: State, b: nat, t: nat, x: Id, fn: nat, arg: nat)
    requires OnItsWay(s, b, t, x, fn, arg) && s.runs[b].step.Holding?
    ensures s.runs[b] == Worker(t, ByPoll, Holding(fn, arg, x))
  {
  }

  /** The first queued task can be run at once by any agent that has nothing to do: three steps reach its call. */
  lemma QueuedCanRun(s: State, b: nat, t: nat)
    requires Inv(s) && b !in s.runs && TakenByPoll(s, OfWorker(Poll(b)), t)
    ensures var p, s1 := s.task[t], DoPoll(s, b);
            && WorkerEnabled(s, Poll(b)) && WorkerEnabled(s1, WorkerStart(b))
            && var s2 := DoWorkerStart(s1, b);
               && WorkerEnabled(s2, WorkerCall(b)) && s2.runs[b].step == Holding(p.fn, p.arg, p.id)
               && DoWorkerCall(s2, b).runs[b].step == InTask(p.id)
               && s.invoked[p.id] == 0 && DoWorkerCall(s2, b).invoked[p.id] == 1
  {
    hide ItemCountsOk, NamesOk, ClaimsOk, ExecsOk, ReapersOk, TaskClaimsOk, SubmittersOk, HoldersOk, SmpTableOk;
    PollTakes(s, b, t);
    assert TaskOk(s.task[t], s.taskSubmits, s.jobOf);
    assert Ran(s.invoked, s.completed, s.task[t].id, 0, 0);
  }

  // ---- When a wait may end ----------------------------------------------------------------------------------------

  /** kernel_task_done answers yes exactly when the task's slot reads DONE and names no SMP item any more; the task has
      then run once, and no SMP item of it is left. */
  lemma TaskDoneIff(trace: seq<State>, steps: seq<Step>, k: nat, x: Id)
    requires IsRun(trace, steps) && NoWrap(trace[|steps|]) && k <= |steps| && x != 0
    ensures var s := trace[k];
            && (TaskDone(s.task, x) <==>
                  exists t :: 0 <= t < |s.task| && s.task[t].id == x && s.task[t].state == Done && s.task[t].smpId == 0)
            && (TaskDone(s.task, x) ==> s.invoked[x] == 1 && s.completed[x] == 1)
  {
    RunInv(trace, steps, k);
    TaskRunsOnce(trace, steps, k);
    var s := trace[k];
    var t := FirstTaskWithId(s.task, x);
    hide Inv;
    assert DistinctTaskIds(s.task) by { RunTables(trace, steps, k); }
    if u :| 0 <= u < |s.task| && s.task[u].id == x { assert t == u; }
  }

  /** A task that is done: the waiter of its id leaves with its next poll, and the slot is free again. */
  lemma TaskWaiterLeaves(trace: seq<State>, steps: seq<Step>, k: nat, a: nat)
    requires IsRun(trace, steps) && NoWrap(trace[|steps|]) && k <= |steps|
    requires a in trace[k].taskWaiters && trace[k].taskWaiters[a].Waiting?
    requires TaskDone(trace[k].task, trace[k].taskWaiters[a].id)
    ensures var s, x := trace[k], trace[k].taskWaiters[a].id;
            var s1 := DoPollTaskWait(s, a);
            && TaskEnabled(s, PollTaskWait(a)) && TaskEnabled(s1, TaskRelease(a))
            && var s2 := DoTaskRelease(s1, a);
               a !in s2.taskWaiters && !LiveTask(s2.task, x) && s.invoked[x] == 1 && s.completed[x] == 1
  {
    RunInv(trace, steps, k);
    var s, x := trace[k], trace[k].taskWaiters[a].id;
    assert TaskWaiterOk(s.taskWaiters[a], s.task, s.taskClaims);
    TaskDoneIff(trace, steps, k, x);
    RunTables(trace, steps, k);
    hide Inv;
    OnlyDoneTask(s.task, x);
  }

  lemma OnlyDoneTask(task: seq<TaskSlot>, x: Id)
    requires DistinctTaskIds(task) && TaskDone(task, x) && x != 0
    ensures !LiveTask(TaskReleased(task, x), x)
  {
    var t := FirstTaskWithId(task, x);
    assert FirstDoneTaskWithId(task, x) == t;
  }

  /** An item that is done: its waiter leaves with its next poll, and the slot is free again. */
  lemma WaiterLeaves(trace: seq<State>, steps: seq<Step>, k: nat, a: nat)
    requires IsRun(trace, steps) && NoWrap(trace[|steps|]) && k <= |steps|
    requires a in trace[k].waiters && trace[k].waiters[a].Waiting? && WorkDone(trace[k].smp, trace[k].waiters[a].id)
    ensures var s, x := trace[k], trace[k].waiters[a].id;
            var s1 := DoPollWait(s, a);
            && SmpEnabled(s, PollWait(a)) && SmpEnabled(s1, Release(a))
            && var s2 := DoRelease(s1, a); a !in s2.waiters && !Live(s2.smp, x) && s.began[x] == 1 && s.ended[x] == 1
  {
    RunInv(trace, steps, k);
    var s, x := trace[k], trace[k].waiters[a].id;
    assert WaiterOk(s.waiters[a], s.smp, s.smpClaims);
    WorkDoneIff(trace, steps, k, x);
    RunTables(trace, steps, k);
    hide Inv;
    OnlyDoneItem(s.smp, x);
  }

  lemma OnlyDoneItem(smp: seq<SmpSlot>, x: Id)
    requires DistinctIds(smp) && WorkDone(smp, x) && x != 0
    ensures !Live(Released(smp, x), x)
  {
    var i := FirstWithId(smp, x);
    assert FirstDoneWithId(smp, x) == i;
  }

  /** smp_work_done answers yes exactly when the item's slot reads DONE; the item has then run once. */
  lemma WorkDoneIff(trace: seq<State>, steps: seq<Step>, k: nat, x: Id)
    requires IsRun(trace, steps) && NoWrap(trace[|steps|]) && k <= |steps| && x != 0
    ensures var s := trace[k];
            && (WorkDone(s.smp, x) <==> exists i :: 0 <= i < |s.smp| && s.smp[i].id == x && s.smp[i].state == Done)
            && (WorkDone(s.smp, x) ==> s.began[x] == 1 && s.ended[x] == 1)
  {
    RunInv(trace, steps, k);
    var s := trace[k];
    var i := FirstWithId(s.smp, x);
    assert DistinctIds(s.smp);
    if j :| 0 <= j < |s.smp| && s.smp[j].id == x && s.smp[j].state == Done {
      assert i == j && Ran(s.began, s.ended, s.smp[i].id, 1, 1);
    }
  }
}
