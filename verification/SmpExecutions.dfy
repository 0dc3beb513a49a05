/**
 The one execution of a submitted work item: when the waiter's smp_wait_work returns there has been
 exactly one stretch of the run in which the item's function was being executed, with the function
 and argument that were submitted, and there never is another.
 */
module SmpExecutions {
  import opened SmpTables
  import opened SmpMachine
  import opened SmpInvariant
  import opened SmpPreservation
  import opened SmpTheorems

  /** Agent a is inside the function of item x. */
  predicate Executes(s: State, a: nat, x: Id, work: Work)
  {
    && a in s.runs && s.runs[a].Item? && s.runs[a].id == x && s.runs[a].work == work
    && s.runs[a].phase == Inside
  }

  /** Agent a calls the function of item x at step c and returns from it at step r. */
  ghost predicate IsExecution(trace: seq<State>, steps: seq<Step>, c: nat, r: nat, a: nat, x: Id, work: Work)
    requires |trace| == |steps| + 1
  {
    && c < r < |steps| && steps[c] == OfSmp(Call(a)) && steps[r] == OfSmp(Return(a))
    && forall j :: c < j <= r ==> Executes(trace[j], a, x, work)
  }

  /** A step submits plain work and gets the id x for it. */
  ghost predicate Submits(s: State, step: Step, work: Work, x: Id)
  {
    && step.OfSmp? && step.smp.SubmitPlain? && step.smp.fn != 0 && work == Plain(step.smp.fn, step.smp.arg)
    && Accepts(s, step.smp.online) && x == FreshId(s.nextSmp)
  }

  /** smp_wait_work(x) returns at this step. */
  predicate WaitReturns(s: State, step: Step, x: Id)
  {
    step.OfSmp? && step.smp.Release? && step.smp.a in s.waiters && s.waiters[step.smp.a].id == x
  }

  // ---- Calls and returns in the history ---------------------------------------------------------------------

  /** The step returns from item x. */
  ghost predicate ReturnsFrom(s: State, step: Step, x: Id)
  {
    || (step.OfSmp? && step.smp.Return? && AtItem(s, step.smp.a, Inside) && s.runs[step.smp.a].id == x)
    || (step.OfWorker? && step.worker.WorkerFinish? && AtWorker(s, step.worker.a)
        && s.runs[step.worker.a].via.BySmp? && s.runs[step.worker.a].via.id == x)
  }

  lemma SmpHistory(s: State, step: SmpStep, x: Id)
    requires SmpEnabled(s, step)
    ensures s.began[x] <= NextSmp(s, step).began[x] && s.ended[x] <= NextSmp(s, step).ended[x]
    ensures NextSmp(s, step).ended[x] > s.ended[x] ==> ReturnsFrom(s, OfSmp(step), x)
  {
    hide Submitted, Released, WorkDone;
    match step
    case SubmitPlain(fn, arg, online) => assert NextSmp(s, step) == DoSubmitPlain(s, fn, arg, online);
    case Take(a) => assert NextSmp(s, step) == DoTake(s, a);
    case Call(a) => assert NextSmp(s, step) == DoCall(s, a);
    case Return(a) => assert NextSmp(s, step) == DoReturn(s, a);
    case StoreDone(a) => assert NextSmp(s, step) == DoStoreDone(s, a);
    case StartWait(a, wid) => assert NextSmp(s, step) == DoStartWait(s, a, wid);
    case PollWait(a) => assert NextSmp(s, step) == DoPollWait(s, a);
    case Release(a) => assert NextSmp(s, step) == DoRelease(s, a);
  }

  lemma TaskHistory(s: State, step: TaskStep)
    requires TaskEnabled(s, step)
    ensures NextTask(s, step).began == s.began && NextTask(s, step).ended == s.ended
    ensures NextTask(s, step).runs == s.runs
  {
    hide Submitted, TaskReserved, SmpIdStored, FellBack, GivenBack, TaskDone, TaskReleased;
    match step
    case TaskSubmit(a, fn, arg, async, online) =>
      assert NextTask(s, step) == DoTaskSubmit(s, a, fn, arg, async, online);
    case HandOver(a, online) => assert NextTask(s, step) == DoHandOver(s, a, online);
    case StoreSmpId(a) => assert NextTask(s, step) == DoStoreSmpId(s, a);
    case GiveUp(a) => assert NextTask(s, step) == DoGiveUp(s, a);
    case StartTaskWait(a, tid) => assert NextTask(s, step) == DoStartTaskWait(s, a, tid);
    case PollTaskWait(a) => assert NextTask(s, step) == DoPollTaskWait(s, a);
    case TaskRelease(a) => assert NextTask(s, step) == DoTaskRelease(s, a);
  }

  lemma WorkerHistory(s: State, step: WorkerStep, x: Id)
    requires WorkerEnabled(s, step)
    ensures NextWorker(s, step).began == s.began && s.ended[x] <= NextWorker(s, step).ended[x]
    ensures NextWorker(s, step).ended[x] > s.ended[x] ==> ReturnsFrom(s, OfWorker(step), x)
  {
    hide Started, Finished, FirstQueuedTask;
    match step
    case WorkerStart(a) => assert NextWorker(s, step) == DoWorkerStart(s, a);
    case WorkerCall(a) => assert NextWorker(s, step) == DoWorkerCall(s, a);
    case WorkerReturn(a) => assert NextWorker(s, step) == DoWorkerReturn(s, a);
    case WorkerFinish(a) => assert NextWorker(s, step) == DoWorkerFinish(s, a);
    case Poll(a) => assert NextWorker(s, step) == DoPoll(s, a);
  }

  lemma ReapHistory(s: State, step: ReapStep)
    requires ReapEnabled(s, step)
    ensures NextReap(s, step).began == s.began && NextReap(s, step).ended == s.ended
    ensures NextReap(s, step).runs == s.runs
  {
    hide WorkDone, Released, SmpIdCleared;
    match step
    case ReapRead(a, t) => assert NextReap(s, step) == DoReapRead(s, a, t);
    case ReapCheck(a) => assert NextReap(s, step) == DoReapCheck(s, a);
    case ReapPoll(a) => assert NextReap(s, step) == DoReapPoll(s, a);
    case ReapFree(a) => assert NextReap(s, step) == DoReapFree(s, a);
    case ReapClear(a) => assert NextReap(s, step) == DoReapClear(s, a);
  }

  /** The counts of calls and returns grow, and a count of returns only by a return. */
  lemma StepHistory(s: State, step: Step, x: Id)
    requires Enabled(s, step)
    ensures s.began[x] <= Next(s, step).began[x] && s.ended[x] <= Next(s, step).ended[x]
    ensures Next(s, step).ended[x] > s.ended[x] ==> ReturnsFrom(s, step, x)
  {
    match step
    case OfSmp(y) => SmpHistory(s, y, x);
    case OfTask(y) => TaskHistory(s, y);
    case OfWorker(y) => WorkerHistory(s, y, x);
    case OfReap(y) => ReapHistory(s, y);
  }

  lemma {:induction false} HistoryGrows(trace: seq<State>, steps: seq<Step>, k: nat, m: nat, x: Id)
    requires IsRun(trace, steps) && k <= m <= |steps|
    ensures trace[k].began[x] <= trace[m].began[x] && trace[k].ended[x] <= trace[m].ended[x]
  {
    if k < m {
      HistoryGrows(trace, steps, k, m - 1, x);
      assert LegalAt(trace, steps, m - 1);
      StepHistory(trace[m - 1], steps[m - 1], x);
    }
  }

  /** An item that has ended was returned from at some step. */
  lemma {:induction false} FindReturn(trace: seq<State>, steps: seq<Step>, k: nat, x: Id) returns (r: nat)
    requires IsRun(trace, steps) && k <= |steps| && trace[k].ended[x] > 0
    ensures r < k && ReturnsFrom(trace[r], steps[r], x) && trace[r].ended[x] == 0 && trace[r + 1].ended[x] > 0
    decreases k
  {
    if k > 0 {
      assert LegalAt(trace, steps, k - 1);
      if trace[k - 1].ended[x] > 0 {
        r := FindReturn(trace, steps, k - 1, x);
      } else {
        StepHistory(trace[k - 1], steps[k - 1], x);
        r := k - 1;
      }
    }
  }

  // ---- How an agent gets inside -----------------------------------------------------------------------------

  lemma SmpInside(s: State, step: SmpStep, a: nat, x: Id, work: Work)
    requires SmpEnabled(s, step) && Executes(NextSmp(s, step), a, x, work)
    ensures Executes(s, a, x, work) || (step == Call(a) && s.began[x] < NextSmp(s, step).began[x])
  {
    hide Submitted, Released, WorkDone;
    match step
    case SubmitPlain(fn, arg, online) => assert NextSmp(s, step) == DoSubmitPlain(s, fn, arg, online);
    case Take(b) => assert NextSmp(s, step) == DoTake(s, b);
    case Call(b) => assert NextSmp(s, step) == DoCall(s, b);
    case Return(b) => assert NextSmp(s, step) == DoReturn(s, b);
    case StoreDone(b) => assert NextSmp(s, step) == DoStoreDone(s, b);
    case StartWait(b, wid) => assert NextSmp(s, step) == DoStartWait(s, b, wid);
    case PollWait(b) => assert NextSmp(s, step) == DoPollWait(s, b);
    case Release(b) => assert NextSmp(s, step) == DoRelease(s, b);
  }

  lemma WorkerInside(s: State, step: WorkerStep, a: nat, x: Id, work: Work)
    requires WorkerEnabled(s, step) && Executes(NextWorker(s, step), a, x, work)
    ensures Executes(s, a, x, work)
  {
    hide NextWorker;
    WorkerRuns(s, step);
  }

  /** At most agent b moved, and it is not inside an item now. */
  ghost predicate OneMoves(runs: map<nat, Run>, runs': map<nat, Run>, b: nat)
  {
    && (forall a :: a != b ==> (a in runs' <==> a in runs))
    && (forall a :: a != b && a in runs ==> runs'[a] == runs[a])
    && (b in runs' && runs'[b].Item? ==> runs'[b].phase == Returned)
  }

  lemma SetMoves(runs: map<nat, Run>, b: nat, g: Run)
    requires g.Item? ==> g.phase == Returned
    ensures OneMoves(runs, runs[b := g], b) && OneMoves(runs, runs - {b}, b) && (b !in runs ==> OneMoves(runs, runs, b))
  {
  }

  /** A step of kernel_task_worker or kernel_task_poll moves one agent, and not into an item. */
  lemma WorkerRuns(s: State, step: WorkerStep)
    requires WorkerEnabled(s, step)
    ensures OneMoves(s.runs, NextWorker(s, step).runs, step.a)
  {
    hide Started, Finished, FirstQueuedTask, OneMoves;
    match step
    case WorkerStart(b) => StartMovesOne(s, b);
    case WorkerCall(b) => CallMovesOne(s, b);
    case WorkerReturn(b) => SetMoves(s.runs, b, s.runs[b].(step := Leaving));
    case WorkerFinish(b) => FinishMovesOne(s, b);
    case Poll(b) => SetMoves(s.runs, b, Worker(FirstQueuedTask(s.task), ByPoll, Entering));
  }

  lemma StartMovesOne(s: State, b: nat)
    requires AtWorker(s, b)
    ensures OneMoves(s.runs, DoWorkerStart(s, b).runs, b)
  {
    hide Started, MayStart, OneMoves;
    var slot := s.task[s.runs[b].t];
    var h := if MayStart(slot) then Holding(slot.fn, slot.arg, slot.id) else Holding(0, 0, 0);
    SetMoves(s.runs, b, s.runs[b].(step := h));
  }

  lemma CallMovesOne(s: State, b: nat)
    requires AtWorker(s, b) && s.runs[b].step.Holding?
    ensures OneMoves(s.runs, DoWorkerCall(s, b).runs, b)
  {
    hide OneMoves;
    var g := s.runs[b];
    SetMoves(s.runs, b, if g.step.fn == 0 then g.(step := Leaving) else g.(step := InTask(g.step.id)));
  }

  lemma FinishMovesOne(s: State, b: nat)
    requires AtWorker(s, b)
    ensures OneMoves(s.runs, DoWorkerFinish(s, b).runs, b)
  {
    hide Finished, OneMoves;
    var g := s.runs[b];
    match g.via
    case ByPoll => SetMoves(s.runs, b, g);
    case BySmp(i, id) => SetMoves(s.runs, b, Item(i, id, TaskWorker(g.t), Returned));
  }

  /** An agent that is inside an item was inside before, or calls it now. */
  lemma InsideBefore(s: State, step: Step, a: nat, x: Id, work: Work)
    requires Enabled(s, step) && Executes(Next(s, step), a, x, work)
    ensures Executes(s, a, x, work) || (step == OfSmp(Call(a)) && s.began[x] < Next(s, step).began[x])
  {
    match step
    case OfSmp(y) => SmpInside(s, y, a, x, work);
    case OfTask(y) => TaskHistory(s, y);
    case OfWorker(y) => WorkerInside(s, y, a, x, work);
    case OfReap(y) => ReapHistory(s, y);
  }

  /** The call that led inside. */
  lemma {:induction false} FindCall(trace: seq<State>, steps: seq<Step>, r: nat, a: nat, x: Id, work: Work)
    returns (c: nat)
    requires IsRun(trace, steps) && r <= |steps| && Executes(trace[r], a, x, work)
    ensures c < r && steps[c] == OfSmp(Call(a)) && forall j :: c < j <= r ==> Executes(trace[j], a, x, work)
    ensures trace[c].began[x] < trace[c + 1].began[x]
    decreases r
  {
    if r > 0 {
      assert LegalAt(trace, steps, r - 1);
      InsideBefore(trace[r - 1], steps[r - 1], a, x, work);
      if Executes(trace[r - 1], a, x, work) {
        c := FindCall(trace, steps, r - 1, a, x, work);
      } else {
        c := r - 1;
      }
    }
  }

  /** While an agent is inside an item, the item has been called once and not returned from. */
  lemma InsideCounts(trace: seq<State>, steps: seq<Step>, t: nat, a: nat, x: Id, work: Work)
    requires IsRun(trace, steps) && NoWrap(trace[|steps|]) && t <= |steps| && Executes(trace[t], a, x, work)
    ensures trace[t].began[x] == 1 && trace[t].ended[x] == 0
  {
    hide SmpTableOk, ExecsOk, ClaimsOk, TaskTableOk, HoldersOk, TaskCountsOk, SubmittersOk, NamesOk, TaskClaimsOk,
         ReapersOk;
    RunInv(trace, steps, t);
    assert OnSlot(trace[t].runs[a]) >= 0;
  }

  // ---- What was submitted is what runs ------------------------------------------------------------------------

  lemma SubmittedSlot(s: State, step: Step, work: Work, x: Id)
    requires SmpTableOk(s.smp, s.nextSmp, s.smpSubmits, s.jobOf, |s.task|) && s.smpSubmits + 1 < WORD
    requires Enabled(s, step) && Submits(s, step, work, x)
    ensures x == s.smpSubmits + 1 == Next(s, step).smpSubmits
    ensures forall j :: 0 <= j < |Next(s, step).smp| && Next(s, step).smp[j].id == x ==>
      Next(s, step).smp[j].work == work
  {
    FreshIsNew(s);
    var s' := Next(s, step);
    assert forall j :: 0 <= j < |s'.smp| && j != FirstFree(s.smp) ==> s'.smp[j] == s.smp[j];
  }

  /** From its submission on, a slot with the id x holds the work submitted as x. */
  lemma {:induction false} WorkOfId(trace: seq<State>, steps: seq<Step>, at: nat, k: nat, work: Work, x: Id)
    requires IsRun(trace, steps) && NoWrap(trace[|steps|]) && at < k <= |steps|
      && Submits(trace[at], steps[at], work, x)
    ensures 0 < x <= trace[k].smpSubmits && x > trace[at].smpSubmits
    ensures forall j :: 0 <= j < |trace[k].smp| && trace[k].smp[j].id == x ==> trace[k].smp[j].work == work
    decreases k
  {
    hide SmpMoves, TaskMoves, Next, SmpTableOk, TaskTableOk;
    RunTables(trace, steps, k - 1);
    EarlierNoWrap(trace, steps, k);
    assert LegalAt(trace, steps, k - 1);
    StepAt(trace, steps, k - 1);
    if k == at + 1 {
      SubmitCounts(trace[at], steps[at], work, x);
      SubmittedSlot(trace[at], steps[at], work, x);
    } else {
      WorkOfId(trace, steps, at, k - 1, work, x);
      WorkStays(trace[k - 1], trace[k], work, x);
    }
  }

  lemma WorkStays(s: State, s': State, work: Work, x: Id)
    requires SmpTableOk(s.smp, s.nextSmp, s.smpSubmits, s.jobOf, |s.task|) && SmpMoves(s, s') && NoWrap(s')
    requires 0 < x <= s.smpSubmits <= s'.smpSubmits
    requires forall j :: 0 <= j < |s.smp| && s.smp[j].id == x ==> s.smp[j].work == work
    ensures forall j :: 0 <= j < |s'.smp| && s'.smp[j].id == x ==> s'.smp[j].work == work
  {
    if s'.smpSubmits == s.smpSubmits + 1 { FreshIsNew(s); }
    forall j | 0 <= j < |s'.smp| && s'.smp[j].id == x ensures s'.smp[j].work == work {
      assert SmpSlotMoves(s, s', j);
    }
  }

  lemma SubmitCounts(s: State, step: Step, work: Work, x: Id)
    requires Enabled(s, step) && Submits(s, step, work, x)
    ensures Next(s, step).smpSubmits == s.smpSubmits + 1
  {
  }

  /** What an agent returns from is in the table, with its work. */
  lemma ReturnedSlot(s: State, step: Step, x: Id) returns (i: nat)
    requires Inv(s) && ReturnsFrom(s, step, x)
    ensures i < |s.smp| && s.smp[i].id == x && 0 < x <= s.smpSubmits
    ensures step.OfWorker? ==> s.smp[i].work.TaskWorker?
    ensures step.OfSmp? ==> s.smp[i].work == s.runs[step.smp.a].work
  {
    hide ItemCountsOk, ClaimsOk, TaskTableOk, HoldersOk, TaskCountsOk, SubmittersOk, NamesOk, TaskClaimsOk, ReapersOk;
    var a := if step.OfSmp? then step.smp.a else step.worker.a;
    assert ExecOk(s.runs[a], s.smp);
    i := OnSlot(s.runs[a]);
    assert SlotOk(s.smp[i], s.smpSubmits, s.jobOf, |s.task|);
  }

  // ---- The theorem ------------------------------------------------------------------------------------------------

  /**
   Between its submission and the return of its waiter an item is executed exactly once, from a call to the
   return from it, with the submitted function and argument; and in no other state of the run, before or
   after, is any agent inside it.
   */
  lemma OneExecution(trace: seq<State>, steps: seq<Step>, at: nat, k: nat, work: Work, x: Id)
    returns (c: nat, r: nat, a: nat)
    requires IsRun(trace, steps) && NoWrap(trace[|steps|]) && at < k < |steps|
    requires Submits(trace[at], steps[at], work, x) && WaitReturns(trace[k], steps[k], x)
    ensures r < k && IsExecution(trace, steps, c, r, a, x, work)
    ensures forall t, b, other :: 0 <= t <= |steps| && Executes(trace[t], b, x, other) ==> c < t <= r
  {
    hide Inv;
    WaitTheorem(trace, steps, k, k + 1, steps[k].smp.a);
    r := FindReturn(trace, steps, k, x);
    a := ReturnIsPlain(trace, steps, at, r, work, x);
    c := FindCall(trace, steps, r, a, x, work);
    forall t, b, other | 0 <= t <= |steps| && Executes(trace[t], b, x, other) ensures c < t <= r {
      InsideCounts(trace, steps, t, b, x, other);
      InsideCounts(trace, steps, c + 1, a, x, work);
      if t <= c { HistoryGrows(trace, steps, t, c, x); }
      if t > r { HistoryGrows(trace, steps, r + 1, t, x); }
    }
  }

  lemma ReturnIsPlain(trace: seq<State>, steps: seq<Step>, at: nat, r: nat, work: Work, x: Id) returns (a: nat)
    requires IsRun(trace, steps) && NoWrap(trace[|steps|]) && at < |steps| && r < |steps|
    requires Submits(trace[at], steps[at], work, x) && ReturnsFrom(trace[r], steps[r], x)
    ensures steps[r] == OfSmp(Return(a)) && Executes(trace[r], a, x, work)
  {
    hide Inv;
    RunInv(trace, steps, r);
    var i := ReturnedSlot(trace[r], steps[r], x);
    WorkOfId(trace, steps, at, at + 1, work, x);
    if r <= at { GrowMany(trace, steps, r, at); }
    WorkOfId(trace, steps, at, r, work, x);
    a := steps[r].smp.a;
  }
}
