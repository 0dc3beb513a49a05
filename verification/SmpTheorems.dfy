/**
 What holds in every run of the SMP and task machine with fewer than 2^32 submissions
 per table, whatever the number of cores and whatever the interleaving.
 */
module SmpTheorems {
  import opened SmpTables
  import opened SmpMachine
  import opened SmpInvariant
  import opened SmpFrames
  import opened SmpPreservation
  import opened SmpNoneLost

  // ---- What the steps of each layer leave alone ------------------------------------------------------

  lemma SmpStepFrame(s: State, step: SmpStep)
    requires SmpEnabled(s, step)
    ensures var s' := NextSmp(s, step);
            && s'.smpSubmits >= s.smpSubmits && s'.taskSubmits == s.taskSubmits
            && s'.task == s.task && s'.invoked == s.invoked && s'.reapers == s.reapers
  {
    hide Submitted, Released, WorkDone;
    match step
    case SubmitPlain(fn, arg, online) => assert NextSmp(s, step) == DoSubmitPlain(s, fn, arg, online);
    case Take(a) => assert NextSmp(s, step) == DoTake(s, a);
    case Call(a) => assert NextSmp(s, step) == DoCall(s, a);
    case Return(a) => assert NextSmp(s, step) == DoReturn(s, a);
    case StoreDone(a) => assert NextSmp(s, step) == DoStoreDone(s, a);
    case StartWait(a, wid) => assert NextSmp(s, step) == DoStartWait(s, a, wid);
    case PollWait(a) => assert NextSmp(s, step) == DoPollWait(s, a);
    case Release(a) => assert NextSmp(s, step) == DoRelease(s, a);
  }

  lemma TaskStepFrame(s: State, step: TaskStep)
    requires TaskEnabled(s, step)
    ensures var s' := NextTask(s, step);
            && s'.smpSubmits >= s.smpSubmits && s'.taskSubmits >= s.taskSubmits
            && s'.invoked == s.invoked && s'.reapers == s.reapers
  {
    hide Submitted, TaskReserved, SmpIdStored, FellBack, GivenBack, TaskDone, TaskReleased;
    match step
    case TaskSubmit(a, fn, arg, async, online) =>
      assert NextTask(s, step) == DoTaskSubmit(s, a, fn, arg, async, online);
    case HandOver(a, online) => assert NextTask(s, step) == DoHandOver(s, a, online);
    case StoreSmpId(a) => assert NextTask(s, step) == DoStoreSmpId(s, a);
    case GiveUp(a) => assert NextTask(s, step) == DoGiveUp(s, a);
    case StartTaskWait(a, tid) => assert NextTask(s, step) == DoStartTaskWait(s, a, tid);
    case PollTaskWait(a) => assert NextTask(s, step) == DoPollTaskWait(s, a);
    case TaskRelease(a) => assert NextTask(s, step) == DoTaskRelease(s, a);
  }

  lemma WorkerStepFrame(s: State, step: WorkerStep)
    requires WorkerEnabled(s, step)
    ensures var s' := NextWorker(s, step);
            && s'.smpSubmits == s.smpSubmits && s'.taskSubmits == s.taskSubmits
            && s'.smp == s.smp && s'.reapers == s.reapers && (!step.WorkerCall? ==> s'.invoked == s.invoked)
  {
    match step
    case WorkerStart(a) => assert NextWorker(s, step) == DoWorkerStart(s, a);
    case WorkerCall(a) => assert NextWorker(s, step) == DoWorkerCall(s, a);
    case WorkerReturn(a) => assert NextWorker(s, step) == DoWorkerReturn(s, a);
    case WorkerFinish(a) => assert NextWorker(s, step) == DoWorkerFinish(s, a);
    case Poll(a) => assert NextWorker(s, step) == DoPoll(s, a);
  }

  lemma ReapStepFrame(s: State, step: ReapStep)
    requires ReapEnabled(s, step)
    ensures var s' := NextReap(s, step);
            s'.smpSubmits == s.smpSubmits && s'.taskSubmits == s.taskSubmits && s'.invoked == s.invoked
  {
  }

  lemma CountersGrow(s: State, step: Step)
    requires Enabled(s, step)
    ensures s.smpSubmits <= Next(s, step).smpSubmits && s.taskSubmits <= Next(s, step).taskSubmits
  {
    match step
    case OfSmp(x) => SmpStepFrame(s, x);
    case OfTask(x) => TaskStepFrame(s, x);
    case OfWorker(x) => WorkerStepFrame(s, x);
    case OfReap(x) => ReapStepFrame(s, x);
  }

  lemma {:induction false} EarlierNoWrap(trace: seq<State>, steps: seq<Step>, k: nat)
    requires IsRun(trace, steps) && k <= |steps| && NoWrap(trace[|steps|])
    ensures NoWrap(trace[k])
    decreases |steps| - k
  {
    if k < |steps| {
      EarlierNoWrap(trace, steps, k + 1);
      assert LegalAt(trace, steps, k);
      CountersGrow(trace[k], steps[k]);
    }
  }

  lemma InvAt(trace: seq<State>, steps: seq<Step>, k: nat)
    requires IsRun(trace, steps) && k < |steps| && NoWrap(trace[k + 1]) && Inv(trace[k])
    ensures Inv(trace[k + 1])
  {
    assert LegalAt(trace, steps, k);
    StepKeeps(trace[k], steps[k]);
  }

  lemma NoneLostAt(trace: seq<State>, steps: seq<Step>, k: nat)
    requires IsRun(trace, steps) && k < |steps| && Inv(trace[k]) && NoneLost(trace[k])
    ensures NoneLost(trace[k + 1])
  {
    assert LegalAt(trace, steps, k);
    StepLosesNone(trace[k], steps[k]);
  }

  /** The invariant holds in every state of every run. */
  lemma {:induction false} RunInv(trace: seq<State>, steps: seq<Step>, k: nat)
    requires IsRun(trace, steps) && k <= |steps| && NoWrap(trace[|steps|])
    ensures Inv(trace[k]) && NoneLost(trace[k]) && NoWrap(trace[k])
  {
    hide TaskCountsOk, HoldersOk, ReapersOk, ItemCountsOk, TaskClaimsOk, ClaimsOk, NamesOk, SubmittersOk, ExecsOk,
         TaskTableOk, SmpTableOk;
    EarlierNoWrap(trace, steps, k);
    if k == 0 {
      InitInv(trace[0]);
    } else {
      RunInv(trace, steps, k - 1);
      InvAt(trace, steps, k - 1);
      NoneLostAt(trace, steps, k - 1);
    }
  }

  // ---- Ids that are gone stay gone -------------------------------------------------------------------

  ghost predicate GoneTask(s: State, x: Id)
  {
    0 < x <= s.taskSubmits && !LiveTask(s.task, x)
  }

  ghost predicate GoneItem(s: State, x: Id)
  {
    0 < x <= s.smpSubmits && !Live(s.smp, x)
  }

  /** The tables at one point of a run. */
  lemma RunTables(trace: seq<State>, steps: seq<Step>, k: nat)
    requires IsRun(trace, steps) && k <= |steps| && NoWrap(trace[|steps|])
    ensures var s := trace[k];
            SmpTableOk(s.smp, s.nextSmp, s.smpSubmits, s.jobOf, |s.task|)
            && TaskTableOk(s.task, s.nextTask, s.taskSubmits, s.jobOf)
  {
    RunInv(trace, steps, k);
  }

  /** Slot i of the SMP table keeps its item, is emptied, or was free and takes the next id. */
  predicate SmpSlotMoves(s: State, s': State, i: nat)
    requires i < |s.smp| && i < |s'.smp|
  {
    || (s'.smp[i].id == s.smp[i].id && s'.smp[i].work == s.smp[i].work)
    || s'.smp[i].id == 0
    || (s.smp[i].state == Free && s'.smp[i].id == FreshId(s.nextSmp) && s'.smpSubmits == s.smpSubmits + 1)
  }

  ghost predicate SmpMoves(s: State, s': State)
  {
    |s'.smp| == |s.smp| && forall i :: 0 <= i < |s.smp| ==> SmpSlotMoves(s, s', i)
  }

  lemma SmpStepMoves(s: State, step: SmpStep)
    requires SmpEnabled(s, step)
    ensures SmpMoves(s, NextSmp(s, step))
  {
  }

  lemma TaskStepMovesSmp(s: State, step: TaskStep)
    requires TaskEnabled(s, step)
    ensures SmpMoves(s, NextTask(s, step))
  {
  }

  lemma ReapStepMovesSmp(s: State, step: ReapStep)
    requires ReapEnabled(s, step)
    ensures SmpMoves(s, NextReap(s, step))
  {
  }

  lemma SmpIdsAfter(s: State, step: Step)
    requires Enabled(s, step)
    ensures SmpMoves(s, Next(s, step))
  {
    match step
    case OfSmp(x) => SmpStepMoves(s, x);
    case OfTask(x) => TaskStepMovesSmp(s, x);
    case OfWorker(x) => WorkerStepFrame(s, x);
    case OfReap(x) => ReapStepMovesSmp(s, x);
  }

  predicate TaskSlotMoves(s: State, s': State, t: nat)
    requires t < |s.task| && t < |s'.task|
  {
    || (s'.task[t].id == s.task[t].id && s'.task[t].fn == s.task[t].fn && s'.task[t].arg == s.task[t].arg)
    || s'.task[t].id == 0
    || (s.task[t].state == Free && s'.task[t].id == FreshId(s.nextTask) && s'.taskSubmits == s.taskSubmits + 1)
  }

  ghost predicate TaskMoves(s: State, s': State)
  {
    |s'.task| == |s.task| && forall t :: 0 <= t < |s.task| ==> TaskSlotMoves(s, s', t)
  }

  lemma TaskStepMoves(s: State, step: TaskStep)
    requires TaskEnabled(s, step)
    ensures TaskMoves(s, NextTask(s, step))
  {
    hide TaskMoves, Submitted, TaskDone;
    match step
    case TaskSubmit(a, fn, arg, async, online) => SubmitMoves(s, a, fn, arg, async, online);
    case HandOver(a, online) => TaskSame(s, DoHandOver(s, a, online));
    case StoreSmpId(a) => StoreMoves(s, a);
    case GiveUp(a) => GiveUpMoves(s, a);
    case StartTaskWait(a, tid) => TaskSame(s, DoStartTaskWait(s, a, tid));
    case PollTaskWait(a) => TaskSame(s, DoPollTaskWait(s, a));
    case TaskRelease(a) => TaskReleaseMoves(s, a);
  }

  lemma SubmitMoves(s: State, a: nat, fn: nat, arg: nat, async: bool, online: nat)
    ensures TaskMoves(s, DoTaskSubmit(s, a, fn, arg, async, online))
  {
  }

  lemma StoreMoves(s: State, a: nat)
    requires TaskEnabled(s, StoreSmpId(a))
    ensures TaskMoves(s, DoStoreSmpId(s, a))
  {
  }

  lemma GiveUpMoves(s: State, a: nat)
    requires TaskEnabled(s, GiveUp(a))
    ensures TaskMoves(s, DoGiveUp(s, a))
  {
  }

  lemma TaskReleaseMoves(s: State, a: nat)
    requires TaskEnabled(s, TaskRelease(a))
    ensures TaskMoves(s, DoTaskRelease(s, a))
  {
  }

  lemma WorkerStepMoves(s: State, step: WorkerStep)
    requires WorkerEnabled(s, step)
    ensures TaskMoves(s, NextWorker(s, step))
  {
    hide TaskMoves;
    match step
    case WorkerStart(a) => StartMoves(s, a);
    case WorkerCall(a) => TaskSame(s, DoWorkerCall(s, a));
    case WorkerReturn(a) => TaskSame(s, DoWorkerReturn(s, a));
    case WorkerFinish(a) => FinishMoves(s, a);
    case Poll(a) => PollMoves(s, a);
  }

  lemma TaskSame(s: State, s': State)
    requires s'.task == s.task
    ensures TaskMoves(s, s')
  {
  }

  lemma StartMoves(s: State, a: nat)
    requires WorkerEnabled(s, WorkerStart(a))
    ensures TaskMoves(s, DoWorkerStart(s, a))
  {
  }

  lemma FinishMoves(s: State, a: nat)
    requires WorkerEnabled(s, WorkerFinish(a))
    ensures TaskMoves(s, DoWorkerFinish(s, a))
  {
  }

  lemma PollMoves(s: State, a: nat)
    requires WorkerEnabled(s, Poll(a))
    ensures TaskMoves(s, DoPoll(s, a))
  {
  }

  lemma ReapStepMoves(s: State, step: ReapStep)
    requires ReapEnabled(s, step)
    ensures TaskMoves(s, NextReap(s, step))
  {
  }

  lemma TaskIdsAfter(s: State, step: Step)
    requires Enabled(s, step)
    ensures TaskMoves(s, Next(s, step))
  {
    match step
    case OfSmp(x) => SmpStepFrame(s, x);
    case OfTask(x) => TaskStepMoves(s, x);
    case OfWorker(x) => WorkerStepMoves(s, x);
    case OfReap(x) => ReapStepMoves(s, x);
  }

  /** One step of a run: the counters grow, the tables keep their length and their slots move as above. */
  lemma StepAt(trace: seq<State>, steps: seq<Step>, k: nat)
    requires IsRun(trace, steps) && k < |steps|
    ensures var (s, s') := (trace[k], trace[k + 1]);
            && s.smpSubmits <= s'.smpSubmits && s.taskSubmits <= s'.taskSubmits
            && SmpMoves(s, s') && TaskMoves(s, s')
  {
    assert LegalAt(trace, steps, k);
    CountersGrow(trace[k], steps[k]);
    SmpIdsAfter(trace[k], steps[k]);
    TaskIdsAfter(trace[k], steps[k]);
  }

  lemma GoneTaskStays(s: State, s': State, x: Id)
    requires TaskTableOk(s.task, s.nextTask, s.taskSubmits, s.jobOf) && NoWrap(s') && s.taskSubmits <= s'.taskSubmits
    requires TaskMoves(s, s') && GoneTask(s, x)
    ensures GoneTask(s', x)
  {
    if s'.taskSubmits == s.taskSubmits + 1 { FreshTaskIsNew(s); }
    forall t | 0 <= t < |s.task| ensures s'.task[t].id != x {
      assert TaskSlotMoves(s, s', t);
    }
  }

  lemma GoneItemStays(s: State, s': State, x: Id)
    requires SmpTableOk(s.smp, s.nextSmp, s.smpSubmits, s.jobOf, |s.task|) && NoWrap(s')
      && s.smpSubmits <= s'.smpSubmits
    requires SmpMoves(s, s') && GoneItem(s, x)
    ensures GoneItem(s', x)
  {
    if s'.smpSubmits == s.smpSubmits + 1 { FreshIsNew(s); }
    forall i | 0 <= i < |s.smp| ensures s'.smp[i].id != x {
      assert SmpSlotMoves(s, s', i);
    }
  }

  lemma {:induction false} GoneTaskForever(trace: seq<State>, steps: seq<Step>, k: nat, m: nat, x: Id)
    requires IsRun(trace, steps) && NoWrap(trace[|steps|]) && k <= m <= |steps| && GoneTask(trace[k], x)
    ensures GoneTask(trace[m], x)
  {
    if k < m {
      GoneTaskForever(trace, steps, k, m - 1, x);
      RunTables(trace, steps, m - 1);
      EarlierNoWrap(trace, steps, m);
      StepAt(trace, steps, m - 1);
      GoneTaskStays(trace[m - 1], trace[m], x);
    }
  }

  /** A released id never comes back. */
  lemma {:induction false} GoneItemForever(trace: seq<State>, steps: seq<Step>, k: nat, m: nat, x: Id)
    requires IsRun(trace, steps) && NoWrap(trace[|steps|]) && k <= m <= |steps| && GoneItem(trace[k], x)
    ensures GoneItem(trace[m], x)
  {
    if k < m {
      GoneItemForever(trace, steps, k, m - 1, x);
      RunTables(trace, steps, m - 1);
      EarlierNoWrap(trace, steps, m);
      StepAt(trace, steps, m - 1);
      GoneItemStays(trace[m - 1], trace[m], x);
    }
  }

  /** Only a live task is called. */
  lemma CallsAreLive(s: State, step: Step, x: Id)
    requires Inv(s) && Enabled(s, step) && !LiveTask(s.task, x)
    ensures Next(s, step).invoked[x] == s.invoked[x]
  {
    hide TaskCountsOk, HoldersOk, ReapersOk, ItemCountsOk, TaskClaimsOk, ClaimsOk, NamesOk, SubmittersOk, ExecsOk,
         TaskTableOk, SmpTableOk;
    match step
    case OfSmp(x) => SmpStepFrame(s, x);
    case OfTask(x) => TaskStepFrame(s, x);
    case OfWorker(x) => if x.WorkerCall? { CalledIsLive(s, x.a); } else { WorkerStepFrame(s, x); }
    case OfReap(x) => ReapStepFrame(s, x);
  }

  lemma CalledIsLive(s: State, a: nat)
    requires Inv(s) && WorkerEnabled(s, WorkerCall(a))
    ensures LiveTask(s.task, s.runs[a].step.id)
  {
    HeldTask(s, a);
  }

  // ---- The SMP layer -----------------------------------------------------------------------------------

  /** A slot is FREE exactly when its id is 0; live ids are distinct; a RUNNING slot has exactly one
      executing agent, and that agent runs the slot's own function and argument. */
  lemma SlotTheorem(trace: seq<State>, steps: seq<Step>, k: nat)
    requires IsRun(trace, steps) && k <= |steps| && NoWrap(trace[|steps|])
    ensures var s := trace[k];
            && (forall i :: 0 <= i < |s.smp| ==> (s.smp[i].state == Free <==> s.smp[i].id == 0))
            && DistinctIds(s.smp)
            && (forall i :: 0 <= i < |s.smp| && s.smp[i].state == Running ==> HasExecutor(s.runs, i))
            && OneExecutor(s.runs)
            && (forall a :: a in s.runs && OnSlot(s.runs[a]) >= 0 ==>
                  && OnSlot(s.runs[a]) < |s.smp|
                  && s.smp[OnSlot(s.runs[a])] == SmpSlot(Running, ItemId(s.runs[a]), ItemWork(s.runs[a])))
  {
    RunInv(trace, steps, k);
    var s := trace[k];
    forall i | 0 <= i < |s.smp| ensures s.smp[i].state == Free <==> s.smp[i].id == 0 {
      assert SlotOk(s.smp[i], s.smpSubmits, s.jobOf, |s.task|);
    }
    forall a | a in s.runs && OnSlot(s.runs[a]) >= 0
      ensures OnSlot(s.runs[a]) < |s.smp|
        && s.smp[OnSlot(s.runs[a])] == SmpSlot(Running, ItemId(s.runs[a]), ItemWork(s.runs[a]))
    {
      assert ExecOk(s.runs[a], s.smp);
    }
  }

  /** As long as a slot keeps its id it keeps its function and argument. */
  lemma {:induction false} WorkIsConstant(trace: seq<State>, steps: seq<Step>, k: nat, m: nat, i: nat)
    requires IsRun(trace, steps) && NoWrap(trace[|steps|]) && k <= m <= |steps|
    requires i < |trace[k].smp| && |trace[m].smp| == |trace[k].smp|
    requires trace[k].smp[i].id == trace[m].smp[i].id != 0
    ensures trace[m].smp[i].work == trace[k].smp[i].work
  {
    if k < m {
      StepAt(trace, steps, m - 1);
      GrowMany(trace, steps, k, m - 1);
      assert SmpSlotMoves(trace[m - 1], trace[m], i);
      UsedIdIsOld(trace, steps, k, m, i);
      WorkIsConstant(trace, steps, k, m - 1, i);
    }
  }

  /** The next id to be handed out is not one a slot already had. */
  lemma UsedIdIsOld(trace: seq<State>, steps: seq<Step>, k: nat, m: nat, i: nat)
    requires IsRun(trace, steps) && NoWrap(trace[|steps|]) && k < m <= |steps| && i < |trace[k].smp|
    ensures trace[m].smpSubmits == trace[m - 1].smpSubmits + 1 ==> trace[k].smp[i].id != FreshId(trace[m - 1].nextSmp)
  {
    RunTables(trace, steps, m - 1);
    RunTables(trace, steps, k);
    GrowMany(trace, steps, k, m - 1);
    EarlierNoWrap(trace, steps, m);
    if trace[m].smpSubmits == trace[m - 1].smpSubmits + 1 { FreshIsNew(trace[m - 1]); }
    assert SlotOk(trace[k].smp[i], trace[k].smpSubmits, trace[k].jobOf, |trace[k].task|);
  }

  lemma {:induction false} GrowMany(trace: seq<State>, steps: seq<Step>, k: nat, m: nat)
    requires IsRun(trace, steps) && k <= m <= |steps|
    ensures trace[k].smpSubmits <= trace[m].smpSubmits && trace[k].taskSubmits <= trace[m].taskSubmits
    ensures |trace[m].smp| == |trace[k].smp| && |trace[m].task| == |trace[k].task|
  {
    if k < m {
      GrowMany(trace, steps, k, m - 1);
      StepAt(trace, steps, m - 1);
    }
  }

  /** No item is called twice. */
  lemma ItemRunsOnce(trace: seq<State>, steps: seq<Step>, k: nat, x: Id)
    requires IsRun(trace, steps) && k <= |steps| && NoWrap(trace[|steps|]) && x != 0
    ensures trace[k].ended[x] <= trace[k].began[x] <= 1
  {
    RunInv(trace, steps, k);
    var s := trace[k];
    if x <= s.smpSubmits && Live(s.smp, x) {
      var i :| 0 <= i < |s.smp| && s.smp[i].id == x;
      assert SlotOk(s.smp[i], s.smpSubmits, s.jobOf, |s.task|);
      if s.smp[i].state == Running {
        var a :| a in s.runs && OnSlot(s.runs[a]) == i;
        assert ExecOk(s.runs[a], s.smp);
        assert Ran(s.began, s.ended, x, Begun(s.runs[a]), Ended(s.runs[a]));
      }
    }
  }

  /** When smp_wait_work(id) returns, the item has run to completion exactly once and its slot is
      reclaimed; and from then on it is never run again, and smp_work_done(id) answers 0. */
  lemma WaitTheorem(trace: seq<State>, steps: seq<Step>, k: nat, m: nat, a: nat)
    requires IsRun(trace, steps) && NoWrap(trace[|steps|]) && k < m <= |steps|
    requires a in trace[k].waiters && steps[k] == OfSmp(Release(a))
    ensures var x := trace[k].waiters[a].id;
            && trace[k].began[x] == 1 && trace[k].ended[x] == 1
            && !Live(trace[m].smp, x) && trace[m].began[x] == 1 && trace[m].ended[x] == 1
            && !WorkDone(trace[m].smp, x)
  {
    hide TaskCountsOk, HoldersOk, TaskClaimsOk, ClaimsOk, NamesOk, SubmittersOk, TaskTableOk, SmpTableOk;
    RunInv(trace, steps, k);
    var s := trace[k];
    var g := s.waiters[a];
    assert LegalAt(trace, steps, k);
    WaiterAtRelease(s, a);
    GoneItemForever(trace, steps, k + 1, m, g.id);
    RunInv(trace, steps, m);
  }

  lemma WaiterAtRelease(s: State, a: nat)
    requires Inv(s) && SmpEnabled(s, Release(a))
    ensures var x := s.waiters[a].id; s.began[x] == 1 && s.ended[x] == 1 && GoneItem(DoRelease(s, a), x)
  {
    var g := s.waiters[a];
    assert WaiterOk(g, s.smp, s.smpClaims);
    assert Live(s.smp, g.id) by { var j :| 0 <= j < |s.smp| && s.smp[j].id == g.id && s.smp[j].work.Plain?; }
    var i := ReleasedSlot(s.smp, g.id);
    assert SlotOk(s.smp[i], s.smpSubmits, s.jobOf, |s.task|);
    assert Ran(s.began, s.ended, s.smp[i].id, 1, 1);
  }

  /** The single waiter of an id never waits for an item that is gone. */
  lemma WaiterIsServed(trace: seq<State>, steps: seq<Step>, k: nat, a: nat)
    requires IsRun(trace, steps) && k <= |steps| && NoWrap(trace[|steps|]) && a in trace[k].waiters
    ensures Live(trace[k].smp, trace[k].waiters[a].id)
  {
    RunInv(trace, steps, k);
    assert WaiterOk(trace[k].waiters[a], trace[k].smp, trace[k].smpClaims);
    var j :| 0 <= j < |trace[k].smp| && trace[k].smp[j].id == trace[k].waiters[a].id && trace[k].smp[j].work.Plain?;
  }

  // ---- The task layer ------------------------------------------------------------------------------------

  /** A task's function is invoked at most once, and exactly once by the time its slot reads DONE,
      whichever way it went. */
  lemma TaskRunsOnce(trace: seq<State>, steps: seq<Step>, k: nat)
    requires IsRun(trace, steps) && k <= |steps| && NoWrap(trace[|steps|])
    ensures var s := trace[k];
            && (forall x: Id :: s.completed[x] <= s.invoked[x] <= 1)
            && (forall t :: 0 <= t < |s.task| && s.task[t].state == Done ==>
                  s.invoked[s.task[t].id] == 1 && s.completed[s.task[t].id] == 1)
            && (forall t :: 0 <= t < |s.task| && s.task[t].state == Queued ==> s.invoked[s.task[t].id] == 0)
  {
    RunInv(trace, steps, k);
    var s := trace[k];
    forall t | 0 <= t < |s.task| && s.task[t].state == Done
      ensures s.invoked[s.task[t].id] == 1 && s.completed[s.task[t].id] == 1
    {
      assert Ran(s.invoked, s.completed, s.task[t].id, 1, 1);
    }
    forall t | 0 <= t < |s.task| && s.task[t].state == Queued ensures s.invoked[s.task[t].id] == 0 {
      assert Ran(s.invoked, s.completed, s.task[t].id, 0, 0);
    }
  }

  /** A RUNNING task is in exactly one pair of hands. */
  lemma TaskIsHeld(trace: seq<State>, steps: seq<Step>, k: nat, t: nat)
    requires IsRun(trace, steps) && k <= |steps| && NoWrap(trace[|steps|])
    requires t < |trace[k].task| && trace[k].task[t].state == Running
    ensures var s := trace[k];
            && Held(s.smp, s.runs, s.submitters, t) && OneHolder(s.smp, s.runs, s.submitters)
            && OneSubmitter(s.submitters)
  {
    RunInv(trace, steps, k);
  }

  /** A failed asynchronous submission frees its slot and its function is never invoked. */
  lemma {:induction false} FailedAsyncNeverRuns(trace: seq<State>, steps: seq<Step>, k: nat, m: nat, a: nat)
    requires IsRun(trace, steps) && NoWrap(trace[|steps|]) && k < m <= |steps|
    requires steps[k] == OfTask(GiveUp(a)) && a in trace[k].submitters && trace[k].submitters[a].Refused?
      && trace[k].submitters[a].async
    ensures trace[k].submitters[a].t < |trace[k + 1].task|
    ensures trace[k + 1].task[trace[k].submitters[a].t] == FREE_TASK
    ensures trace[m].invoked[trace[k].submitters[a].tid] == 0
    ensures trace[k].submitters[a].tid !in trace[k + 1].taskClaims
  {
    var x := trace[k].submitters[a].tid;
    AsyncFailsAt(trace, steps, k, a);
    if k + 1 < m {
      FailedAsyncNeverRuns(trace, steps, k, m - 1, a);
      GoneTaskForever(trace, steps, k + 1, m - 1, x);
      NotCalledAt(trace, steps, m - 1, x);
    }
  }

  lemma AsyncFailsAt(trace: seq<State>, steps: seq<Step>, k: nat, a: nat)
    requires IsRun(trace, steps) && NoWrap(trace[|steps|]) && k < |steps|
    requires steps[k] == OfTask(GiveUp(a)) && a in trace[k].submitters && trace[k].submitters[a].Refused?
      && trace[k].submitters[a].async
    ensures var (g, s') := (trace[k].submitters[a], trace[k + 1]);
            g.t < |s'.task| && s'.task[g.t] == FREE_TASK && GoneTask(s', g.tid) && s'.invoked[g.tid] == 0
            && g.tid !in s'.taskClaims
  {
    RunInv(trace, steps, k);
    assert LegalAt(trace, steps, k);
    FailedAsync(trace[k], a);
  }

  lemma NotCalledAt(trace: seq<State>, steps: seq<Step>, k: nat, x: Id)
    requires IsRun(trace, steps) && NoWrap(trace[|steps|]) && k < |steps| && !LiveTask(trace[k].task, x)
    ensures trace[k + 1].invoked[x] == trace[k].invoked[x]
  {
    RunInv(trace, steps, k);
    assert LegalAt(trace, steps, k);
    CallsAreLive(trace[k], steps[k], x);
  }

  lemma FailedAsync(s: State, a: nat)
    requires Inv(s) && TaskEnabled(s, GiveUp(a)) && s.submitters[a].async
    ensures var (g, s') := (s.submitters[a], DoGiveUp(s, a));
            s'.task[g.t] == FREE_TASK && GoneTask(s', g.tid) && s'.invoked[g.tid] == 0 && g.tid !in s'.taskClaims
  {
    hide ItemCountsOk, NamesOk;
    var g := s.submitters[a];
    assert SubmitterOk(g, s.smp, s.task);
    assert Pending(g) == g.t;
    assert Ran(s.invoked, s.completed, s.task[g.t].id, 0, 0);
    assert TaskOk(s.task[g.t], s.taskSubmits, s.jobOf);
  }

  /** Every occupied SMP slot that carries a task is named by that task's smp_id, or by its submitter
      still in flight. */
  lemma NamingTheorem(trace: seq<State>, steps: seq<Step>, k: nat)
    requires IsRun(trace, steps) && k <= |steps| && NoWrap(trace[|steps|])
    ensures var s := trace[k];
            forall i :: 0 <= i < |s.smp| && s.smp[i].work.TaskWorker? ==> Named(s.smp[i], s.task, s.jobOf, s.submitters)
  {
    RunInv(trace, steps, k);
  }

  /** When kernel_task_wait(id) returns, the task has run exactly once, its slot is reclaimed, no occupied
      SMP slot belongs to it, and every SMP item submitted for it has run exactly once. */
  lemma TaskWaitTheorem(trace: seq<State>, steps: seq<Step>, k: nat, a: nat)
    requires IsRun(trace, steps) && NoWrap(trace[|steps|]) && k < |steps|
    requires a in trace[k].taskWaiters && steps[k] == OfTask(TaskRelease(a))
    ensures var (x, s') := (trace[k].taskWaiters[a].id, trace[k + 1]);
            && s'.invoked[x] == 1 && s'.completed[x] == 1
            && !LiveTask(s'.task, x)
            && (forall i :: 0 <= i < |s'.smp| && s'.smp[i].id in s'.jobOf ==> s'.jobOf[s'.smp[i].id] != x)
            && (forall y :: y in s'.jobOf && s'.jobOf[y] == x ==> s'.began[y] == 1 && s'.ended[y] == 1)
  {
    TaskWaitEndsAt(trace, steps, k, a);
    ItemsGoneAt(trace, steps, k + 1, trace[k].taskWaiters[a].id);
  }

  lemma ItemsGoneAt(trace: seq<State>, steps: seq<Step>, k: nat, x: Id)
    requires IsRun(trace, steps) && NoWrap(trace[|steps|]) && k <= |steps| && x != 0 && !LiveTask(trace[k].task, x)
    ensures var s := trace[k];
            && (forall i :: 0 <= i < |s.smp| && s.smp[i].id in s.jobOf ==> s.jobOf[s.smp[i].id] != x)
            && (forall y :: y in s.jobOf && s.jobOf[y] == x ==> s.began[y] == 1 && s.ended[y] == 1)
  {
    RunInv(trace, steps, k);
    ItemsOfGoneTask(trace[k], x);
  }

  lemma TaskWaitEndsAt(trace: seq<State>, steps: seq<Step>, k: nat, a: nat)
    requires IsRun(trace, steps) && NoWrap(trace[|steps|]) && k < |steps|
    requires a in trace[k].taskWaiters && steps[k] == OfTask(TaskRelease(a))
    ensures var (x, s') := (trace[k].taskWaiters[a].id, trace[k + 1]);
            x != 0 && s'.invoked[x] == 1 && s'.completed[x] == 1 && !LiveTask(s'.task, x)
  {
    RunInv(trace, steps, k);
    assert LegalAt(trace, steps, k);
    TaskWaitEnds(trace[k], a);
  }

  lemma TaskWaitEnds(s: State, a: nat)
    requires Inv(s) && TaskEnabled(s, TaskRelease(a))
    ensures var (x, s') := (s.taskWaiters[a].id, DoTaskRelease(s, a));
            x != 0 && s'.invoked[x] == 1 && s'.completed[x] == 1 && !LiveTask(s'.task, x)
  {
    var g := s.taskWaiters[a];
    assert TaskWaiterOk(g, s.task, s.taskClaims);
    var t := ReleasedTask(s.task, g.id);
    assert Ran(s.invoked, s.completed, s.task[t].id, 1, 1);
  }

  /** Once a task is gone, so are its items, and they ran. */
  lemma ItemsOfGoneTask(s: State, x: Id)
    requires Inv(s) && x != 0 && !LiveTask(s.task, x)
    ensures forall i :: 0 <= i < |s.smp| && s.smp[i].id in s.jobOf ==> s.jobOf[s.smp[i].id] != x
    ensures forall y :: y in s.jobOf && s.jobOf[y] == x ==> s.began[y] == 1 && s.ended[y] == 1
  {
    forall i | 0 <= i < |s.smp| && s.smp[i].id in s.jobOf ensures s.jobOf[s.smp[i].id] != x {
      assert SlotOk(s.smp[i], s.smpSubmits, s.jobOf, |s.task|);
      assert Named(s.smp[i], s.task, s.jobOf, s.submitters);
    }
  }
}
