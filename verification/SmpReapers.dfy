/**
 kernel_task_release_finished_smp waits inside smp_wait_work. As long as no two cores wait for the
 same item that wait always ends; otherwise it need not, and then it never does.
 */
module SmpReapers {
  import opened SmpTables
  import opened SmpMachine
  import opened SmpInvariant
  import opened SmpPreservation
  import opened SmpTheorems

  /** The reaper is inside smp_wait_work. */
  predicate InWait(g: Reaper)
  {
    g.phase == Polling || g.phase == Freeing
  }

  predicate WaitTogether(g: Reaper, h: Reaper)
  {
    InWait(g) && InWait(h) && g.smpId == h.smpId
  }

  /** No two cores are inside smp_wait_work for the same item; waiting for different ones is allowed. */
  ghost predicate OneWaitPerItem(s: State)
  {
    forall a, b :: a in s.reapers && b in s.reapers && WaitTogether(s.reapers[a], s.reapers[b]) ==> a == b
  }

  /** The item of every reaper inside the wait is still there. */
  ghost predicate ReapersServed(s: State)
  {
    forall a :: a in s.reapers && InWait(s.reapers[a]) ==> Live(s.smp, s.reapers[a].smpId)
  }

  ghost predicate SameItem(p: SmpSlot, q: SmpSlot)
  {
    p.id == q.id && p.work == q.work
  }

  // ---- Who can free the item of a task --------------------------------------------------------------------

  /** The item x is in the table and belongs to a task. */
  ghost predicate LiveTaskItem(smp: seq<SmpSlot>, x: Id)
  {
    exists i :: 0 <= i < |smp| && smp[i].id == x && smp[i].work.TaskWorker?
  }

  /** The step is the one of a reaper that frees x. */
  predicate Frees(s: State, step: Step, x: Id)
  {
    && step.OfReap? && step.reap.ReapFree? && step.reap.a in s.reapers
    && s.reapers[step.reap.a].phase == Freeing && s.reapers[step.reap.a].smpId == x
  }

  /** If only slot i changes its item and it carried no task, the items of tasks stay. */
  lemma StaysBySlots(smp: seq<SmpSlot>, smp': seq<SmpSlot>, i: int, x: Id)
    requires LiveTaskItem(smp, x)
    requires |smp'| == |smp| && forall j :: 0 <= j < |smp| && j != i ==> SameItem(smp'[j], smp[j])
    requires 0 <= i < |smp| && smp[i].work.TaskWorker? ==> smp[i].id != x
    ensures Live(smp', x)
  {
    var j :| 0 <= j < |smp| && smp[j].id == x && smp[j].work.TaskWorker?;
    assert SameItem(smp'[j], smp[j]);
  }

  lemma SmpStepKeepsItems(s: State, step: SmpStep)
    requires SmpEnabled(s, step) && !step.Release?
    ensures var s' := NextSmp(s, step);
            |s'.smp| == |s.smp| && forall j :: 0 <= j < |s.smp| && j != FirstFree(s.smp) ==>
              SameItem(s'.smp[j], s.smp[j])
  {
  }

  lemma TaskStepKeepsItems(s: State, step: TaskStep)
    requires TaskEnabled(s, step)
    ensures var s' := NextTask(s, step);
            |s'.smp| == |s.smp| && forall j :: 0 <= j < |s.smp| && j != FirstFree(s.smp) ==>
              SameItem(s'.smp[j], s.smp[j])
  {
    hide TaskReserved, SmpIdStored, FellBack, GivenBack, TaskDone, TaskReleased;
    match step
    case HandOver(a, online) => assert NextTask(s, step) == DoHandOver(s, a, online);
    case TaskSubmit(a, fn, arg, async, online) => assert DoTaskSubmit(s, a, fn, arg, async, online).smp == s.smp;
    case StoreSmpId(a) => assert DoStoreSmpId(s, a).smp == s.smp;
    case GiveUp(a) => assert DoGiveUp(s, a).smp == s.smp;
    case StartTaskWait(a, tid) => assert DoStartTaskWait(s, a, tid).smp == s.smp;
    case PollTaskWait(a) => assert DoPollTaskWait(s, a).smp == s.smp;
    case TaskRelease(a) => assert DoTaskRelease(s, a).smp == s.smp;
  }

  lemma FillStays(s: State, smp': seq<SmpSlot>, x: Id)
    requires SmpTableOk(s.smp, s.nextSmp, s.smpSubmits, s.jobOf, |s.task|) && LiveTaskItem(s.smp, x)
    requires |smp'| == |s.smp| && forall j :: 0 <= j < |s.smp| && j != FirstFree(s.smp) ==> SameItem(smp'[j], s.smp[j])
    ensures Live(smp', x)
  {
    var i := FirstFree(s.smp);
    if i < |s.smp| { assert SlotOk(s.smp[i], s.smpSubmits, s.jobOf, |s.task|); }
    StaysBySlots(s.smp, smp', i, x);
  }

  lemma ReleaseStays(s: State, a: nat, x: Id)
    requires ClaimsOk(s.smp, s.smpClaims, s.waiters) && DistinctIds(s.smp)
    requires SmpEnabled(s, Release(a)) && LiveTaskItem(s.smp, x)
    ensures Live(DoRelease(s, a).smp, x)
  {
    var g := s.waiters[a];
    assert WaiterOk(g, s.smp, s.smpClaims);
    var j :| 0 <= j < |s.smp| && s.smp[j].id == g.id && s.smp[j].work.Plain?;
    var i := ReleasedSlot(s.smp, g.id);
    assert i == j;
    StaysBySlots(s.smp, DoRelease(s, a).smp, i, x);
  }

  lemma ReapStepStays(s: State, step: ReapStep, x: Id)
    requires SmpTableOk(s.smp, s.nextSmp, s.smpSubmits, s.jobOf, |s.task|) && LiveTaskItem(s.smp, x)
    requires ReapEnabled(s, step) && !Frees(s, OfReap(step), x)
    ensures Live(NextReap(s, step).smp, x)
  {
    hide SmpIdCleared, WorkDone;
    var j :| 0 <= j < |s.smp| && s.smp[j].id == x && s.smp[j].work.TaskWorker?;
    if step.ReapFree? {
      var i := FirstDoneWithId(s.smp, s.reapers[step.a].smpId);
      if i < |s.smp| { StaysBySlots(s.smp, s.smp[i := FREE_SMP], i, x); }
    }
  }

  /** Only a reaper that waits for it frees the item of a task. */
  lemma ItemStays(s: State, step: Step, x: Id)
    requires Inv(s) && Enabled(s, step) && LiveTaskItem(s.smp, x) && !Frees(s, step, x)
    ensures Live(Next(s, step).smp, x)
  {
    match step
    case OfSmp(y) =>
      if y.Release? {
        ReleaseStays(s, y.a, x);
      } else {
        SmpStepKeepsItems(s, y);
        FillStays(s, Next(s, step).smp, x);
      }
    case OfTask(y) =>
      TaskStepKeepsItems(s, y);
      FillStays(s, Next(s, step).smp, x);
    case OfWorker(y) => WorkerStepFrame(s, y);
    case OfReap(y) => ReapStepStays(s, y, x);
  }

  // ---- How a reaper gets into the wait ---------------------------------------------------------------------

  /** The reaper enters the wait because its item reads DONE. */
  ghost predicate Enters(s: State, step: Step, a: nat, x: Id)
  {
    step == OfReap(ReapCheck(a)) && WorkDone(s.smp, x)
  }

  lemma WaitBefore(s: State, step: Step, a: nat)
    requires Enabled(s, step) && a in Next(s, step).reapers && InWait(Next(s, step).reapers[a])
    ensures a in s.reapers && s.reapers[a].smpId == Next(s, step).reapers[a].smpId
    ensures Enters(s, step, a, s.reapers[a].smpId) || (InWait(s.reapers[a]) && step != OfReap(ReapFree(a)))
    ensures Next(s, step).reapers[a].phase == Polling && !Enters(s, step, a, s.reapers[a].smpId) ==>
              s.reapers[a].phase == Polling
  {
    match step
    case OfSmp(x) => SmpStepFrame(s, x);
    case OfTask(x) => TaskStepFrame(s, x);
    case OfWorker(x) => WorkerStepFrame(s, x);
    case OfReap(x) => ReapBefore(s, x, a);
  }

  lemma ReapBefore(s: State, step: ReapStep, a: nat)
    requires ReapEnabled(s, step) && a in NextReap(s, step).reapers && InWait(NextReap(s, step).reapers[a])
    ensures a in s.reapers && s.reapers[a].smpId == NextReap(s, step).reapers[a].smpId
    ensures || (step == ReapCheck(a) && WorkDone(s.smp, s.reapers[a].smpId))
            || (InWait(s.reapers[a]) && step != ReapFree(a))
    ensures NextReap(s, step).reapers[a].phase == Polling ==>
              (step == ReapCheck(a) && WorkDone(s.smp, s.reapers[a].smpId)) || s.reapers[a].phase == Polling
  {
    if step.a != a { OthersSame(s, step, a); } else { OwnBefore(s, step); }
  }

  lemma OthersSame(s: State, step: ReapStep, a: nat)
    requires ReapEnabled(s, step) && step.a != a
    ensures a in NextReap(s, step).reapers <==> a in s.reapers
    ensures a in s.reapers ==> NextReap(s, step).reapers[a] == s.reapers[a]
  {
    hide Released, SmpIdCleared, WorkDone;
    match step
    case ReapRead(b, t) => KeepsOther(s, DoReapRead(s, b, t), a, b);
    case ReapCheck(b) => KeepsOther(s, DoReapCheck(s, b), a, b);
    case ReapPoll(b) => KeepsOther(s, DoReapPoll(s, b), a, b);
    case ReapFree(b) => KeepsOther(s, DoReapFree(s, b), a, b);
    case ReapClear(b) => KeepsOther(s, DoReapClear(s, b), a, b);
  }

  lemma KeepsOther(s: State, s': State, a: nat, b: nat)
    requires a != b
    requires || s'.reapers == s.reapers
             || s'.reapers == s.reapers - {b}
             || (b in s'.reapers && s'.reapers == s.reapers[b := s'.reapers[b]])
    ensures a in s'.reapers <==> a in s.reapers
    ensures a in s.reapers ==> s'.reapers[a] == s.reapers[a]
  {
  }

  lemma OwnBefore(s: State, step: ReapStep)
    requires ReapEnabled(s, step) && step.a in NextReap(s, step).reapers && InWait(NextReap(s, step).reapers[step.a])
    ensures step.a in s.reapers && s.reapers[step.a].smpId == NextReap(s, step).reapers[step.a].smpId
    ensures || (step.ReapCheck? && WorkDone(s.smp, s.reapers[step.a].smpId))
            || (InWait(s.reapers[step.a]) && !step.ReapFree?)
    ensures NextReap(s, step).reapers[step.a].phase == Polling ==>
              (step.ReapCheck? && WorkDone(s.smp, s.reapers[step.a].smpId)) || s.reapers[step.a].phase == Polling
  {
    hide Released, SmpIdCleared, WorkDone;
  }

  /** The item of a reaper that is in the table belongs to its task. */
  lemma ReapedIsTask(s: State, a: nat)
    requires ReapersOk(s.smp, s.task, s.jobOf, s.reapers) && a in s.reapers && Live(s.smp, s.reapers[a].smpId)
    ensures LiveTaskItem(s.smp, s.reapers[a].smpId) && s.reapers[a].smpId != 0
  {
    assert ReaperOk(s.reapers[a], s.smp, s.task, s.jobOf);
    var i :| 0 <= i < |s.smp| && s.smp[i].id == s.reapers[a].smpId;
  }

  lemma EntersLive(s: State, step: Step, a: nat)
    requires Inv(s) && Enabled(s, step) && a in s.reapers && Enters(s, step, a, s.reapers[a].smpId)
    ensures Live(s.smp, s.reapers[a].smpId) && Next(s, step).smp == s.smp
  {
    assert ReaperOk(s.reapers[a], s.smp, s.task, s.jobOf);
    DoneMeansDone(s.smp, s.reapers[a].smpId);
  }

  lemma StepServes(s: State, step: Step)
    requires Inv(s) && Enabled(s, step) && ReapersServed(s) && OneWaitPerItem(s)
    ensures ReapersServed(Next(s, step))
  {
    var s' := Next(s, step);
    forall a | a in s'.reapers && InWait(s'.reapers[a]) ensures Live(s'.smp, s'.reapers[a].smpId) {
      WaitBefore(s, step, a);
      ServesOne(s, step, a);
    }
  }

  lemma ServesOne(s: State, step: Step, a: nat)
    requires Inv(s) && Enabled(s, step) && ReapersServed(s) && OneWaitPerItem(s) && a in s.reapers
    requires Enters(s, step, a, s.reapers[a].smpId) || (InWait(s.reapers[a]) && step != OfReap(ReapFree(a)))
    ensures Live(Next(s, step).smp, s.reapers[a].smpId)
  {
    var x := s.reapers[a].smpId;
    if Enters(s, step, a, x) {
      EntersLive(s, step, a);
    } else {
      ReapedIsTask(s, a);
      assert !Frees(s, step, x);
      ItemStays(s, step, x);
    }
  }

  lemma ServesAt(trace: seq<State>, steps: seq<Step>, k: nat)
    requires IsRun(trace, steps) && NoWrap(trace[|steps|]) && k < |steps|
    requires ReapersServed(trace[k]) && OneWaitPerItem(trace[k])
    ensures ReapersServed(trace[k + 1])
  {
    hide Inv;
    RunInv(trace, steps, k);
    assert LegalAt(trace, steps, k);
    StepServes(trace[k], steps[k]);
  }

  /** As long as no two cores wait for the same item, every reaper's item stays until that reaper frees it. */
  lemma {:induction false} RunServes(trace: seq<State>, steps: seq<Step>, k: nat)
    requires IsRun(trace, steps) && NoWrap(trace[|steps|]) && k <= |steps|
    requires forall j :: 0 <= j < k ==> OneWaitPerItem(trace[j])
    ensures ReapersServed(trace[k])
  {
    if k > 0 {
      RunServes(trace, steps, k - 1);
      ServesAt(trace, steps, k - 1);
    }
  }

  /** A reaper inside smp_wait_work sees DONE exactly while its item has not been freed. */
  lemma ReaperSeesDone(trace: seq<State>, steps: seq<Step>, k: nat, a: nat)
    requires IsRun(trace, steps) && NoWrap(trace[|steps|]) && k <= |steps|
    requires a in trace[k].reapers && trace[k].reapers[a].phase == Polling
    ensures WorkDone(trace[k].smp, trace[k].reapers[a].smpId) <==> Live(trace[k].smp, trace[k].reapers[a].smpId)
  {
    RunInv(trace, steps, k);
    var s := trace[k];
    assert ReaperOk(s.reapers[a], s.smp, s.task, s.jobOf);
  }

  /** If so far no two cores have waited for the same item, a reaper's wait ends at its next poll. */
  lemma SingleReaperNeverSpins(trace: seq<State>, steps: seq<Step>, k: nat, a: nat)
    requires IsRun(trace, steps) && NoWrap(trace[|steps|]) && k <= |steps|
    requires forall j :: 0 <= j < k ==> OneWaitPerItem(trace[j])
    requires a in trace[k].reapers && trace[k].reapers[a].phase == Polling
    ensures WorkDone(trace[k].smp, trace[k].reapers[a].smpId)
  {
    RunServes(trace, steps, k);
    ReaperSeesDone(trace, steps, k, a);
  }

  /** At step j another core frees the item that reaper a waits for. */
  ghost predicate FreedUnder(trace: seq<State>, steps: seq<Step>, j: nat, a: nat, x: Id)
    requires j < |steps| < |trace|
  {
    && Frees(trace[j], steps[j], x) && steps[j].reap.a != a
    && a in trace[j].reapers && trace[j].reapers[a] == Reaper(trace[j].reapers[a].t, x, Polling)
  }

  /** So far another core has freed the item x while reaper a was polling for it. */
  ghost predicate Overtaken(trace: seq<State>, steps: seq<Step>, k: nat, a: nat, x: Id)
    requires k <= |steps| < |trace|
  {
    exists j :: 0 <= j < k && FreedUnder(trace, steps, j, a, x)
  }

  /** A poll for an item that is gone was overtaken. */
  lemma {:induction false} GoneMeansOvertaken(trace: seq<State>, steps: seq<Step>, k: nat, a: nat)
    requires IsRun(trace, steps) && NoWrap(trace[|steps|]) && k <= |steps|
    requires a in trace[k].reapers && trace[k].reapers[a].phase == Polling
    requires !Live(trace[k].smp, trace[k].reapers[a].smpId)
    ensures Overtaken(trace, steps, k, a, trace[k].reapers[a].smpId)
  {
    hide Inv, Live;
    if k > 0 {
      var s, step, x := trace[k - 1], steps[k - 1], trace[k].reapers[a].smpId;
      RunInv(trace, steps, k - 1);
      assert LegalAt(trace, steps, k - 1);
      WaitBefore(s, step, a);
      if Enters(s, step, a, x) {
        EntersLive(s, step, a);
      } else if Live(s.smp, x) {
        PolledIsTask(s, a);
        if !Frees(s, step, x) { ItemStays(s, step, x); }
        assert FreedUnder(trace, steps, k - 1, a, x);
      } else {
        GoneMeansOvertaken(trace, steps, k - 1, a);
        var j :| 0 <= j < k - 1 && FreedUnder(trace, steps, j, a, x);
      }
    }
  }

  lemma PolledIsTask(s: State, a: nat)
    requires Inv(s) && a in s.reapers && Live(s.smp, s.reapers[a].smpId)
    ensures LiveTaskItem(s.smp, s.reapers[a].smpId)
  {
    ReapedIsTask(s, a);
  }

  /** Whatever was freed at step j is gone in every later state. */
  lemma FreedIsGone(trace: seq<State>, steps: seq<Step>, j: nat, k: nat, x: Id)
    requires IsRun(trace, steps) && NoWrap(trace[|steps|]) && j < k <= |steps| && Frees(trace[j], steps[j], x)
    ensures !Live(trace[k].smp, x)
  {
    var s, a := trace[j], steps[j].reap.a;
    RunInv(trace, steps, j);
    assert LegalAt(trace, steps, j);
    ReapedIdUsed(trace, steps, j, a);
    FreeRemoves(s, a);
    GoneItemForever(trace, steps, j + 1, k, x);
  }

  lemma FreeRemoves(s: State, a: nat)
    requires Inv(s) && ReapEnabled(s, ReapFree(a)) && s.reapers[a].smpId <= s.smpSubmits
    ensures GoneItem(DoReapFree(s, a), s.reapers[a].smpId)
  {
    hide TaskCountsOk, HoldersOk, ItemCountsOk, TaskClaimsOk, ClaimsOk, NamesOk, SubmittersOk, ExecsOk, TaskTableOk;
    var x := s.reapers[a].smpId;
    assert ReaperOk(s.reapers[a], s.smp, s.task, s.jobOf);
    if Live(s.smp, x) {
      var i := ReleasedSlot(s.smp, x);
    } else {
      assert Released(s.smp, x) == s.smp;
    }
  }

  /**
   Exactly when a core hangs in kernel_task_release_finished_smp: its poll is answered 0, now and in every
   later state, if and only if another core has freed the same item while this one was polling for it.
   */
  lemma HangsIffOvertaken(trace: seq<State>, steps: seq<Step>, k: nat, a: nat)
    requires IsRun(trace, steps) && NoWrap(trace[|steps|]) && k <= |steps|
    requires a in trace[k].reapers && trace[k].reapers[a].phase == Polling
    ensures !WorkDone(trace[k].smp, trace[k].reapers[a].smpId) <==>
            Overtaken(trace, steps, k, a, trace[k].reapers[a].smpId)
    ensures !WorkDone(trace[k].smp, trace[k].reapers[a].smpId) <==>
            forall m :: k <= m <= |steps| ==> StillPolling(trace[k], trace[m], a)
  {
    hide Inv, Live, WorkDone;
    var x := trace[k].reapers[a].smpId;
    ReaperSeesDone(trace, steps, k, a);
    if !WorkDone(trace[k].smp, x) {
      GoneMeansOvertaken(trace, steps, k, a);
      forall m | k <= m <= |steps| ensures StillPolling(trace[k], trace[m], a) { StuckForever(trace, steps, k, m, a); }
    } else {
      assert !StillPolling(trace[k], trace[k], a);
    }
    if Overtaken(trace, steps, k, a, x) {
      var j :| 0 <= j < k && FreedUnder(trace, steps, j, a, x);
      FreedIsGone(trace, steps, j, k, x);
    }
  }

  /** Reaper a is where it was in s, and its next poll is answered 0. */
  ghost predicate StillPolling(s: State, s': State, a: nat)
  {
    a in s.reapers && a in s'.reapers && s'.reapers[a] == s.reapers[a] && !WorkDone(s'.smp, s.reapers[a].smpId)
  }

  /** Nobody but the reaper itself moves it on. */
  lemma StuckStep(s: State, step: Step, a: nat)
    requires Enabled(s, step) && a in s.reapers && s.reapers[a].phase == Polling && !WorkDone(s.smp, s.reapers[a].smpId)
    ensures a in Next(s, step).reapers && Next(s, step).reapers[a] == s.reapers[a]
  {
    match step
    case OfSmp(x) => SmpStepFrame(s, x);
    case OfTask(x) => TaskStepFrame(s, x);
    case OfWorker(x) => WorkerStepFrame(s, x);
    case OfReap(x) => StuckReap(s, x, a);
  }

  lemma StuckReap(s: State, step: ReapStep, a: nat)
    requires ReapEnabled(s, step) && a in s.reapers && s.reapers[a].phase == Polling
      && !WorkDone(s.smp, s.reapers[a].smpId)
    ensures a in NextReap(s, step).reapers && NextReap(s, step).reapers[a] == s.reapers[a]
  {
    hide WorkDone, Released, SmpIdCleared;
    if step.a != a { OthersSame(s, step, a); }
  }

  lemma StuckAt(trace: seq<State>, steps: seq<Step>, k: nat, a: nat)
    requires IsRun(trace, steps) && k < |steps| && a in trace[k].reapers && trace[k].reapers[a].phase == Polling
    requires !WorkDone(trace[k].smp, trace[k].reapers[a].smpId)
    ensures a in trace[k + 1].reapers && trace[k + 1].reapers[a] == trace[k].reapers[a]
  {
    assert LegalAt(trace, steps, k);
    StuckStep(trace[k], steps[k], a);
  }

  lemma ReapedIdUsed(trace: seq<State>, steps: seq<Step>, k: nat, a: nat)
    requires IsRun(trace, steps) && NoWrap(trace[|steps|]) && k <= |steps| && a in trace[k].reapers
    ensures 0 < trace[k].reapers[a].smpId <= trace[k].smpSubmits
  {
    RunInv(trace, steps, k);
    assert ReaperOk(trace[k].reapers[a], trace[k].smp, trace[k].task, trace[k].jobOf);
  }

  /** A reaper whose item was freed by another one polls forever: smp_work_done answers 0 in every later
      state and the reaper is still at the same place. */
  lemma {:induction false} StuckForever(trace: seq<State>, steps: seq<Step>, k: nat, m: nat, a: nat)
    requires IsRun(trace, steps) && NoWrap(trace[|steps|]) && k <= m <= |steps|
    requires a in trace[k].reapers && trace[k].reapers[a].phase == Polling
      && !Live(trace[k].smp, trace[k].reapers[a].smpId)
    ensures a in trace[m].reapers && trace[m].reapers[a] == trace[k].reapers[a]
    ensures !WorkDone(trace[m].smp, trace[m].reapers[a].smpId)
  {
    ReapedIdUsed(trace, steps, k, a);
    GoneItemForever(trace, steps, k, m, trace[k].reapers[a].smpId);
    if k < m {
      StuckForever(trace, steps, k, m - 1, a);
      StuckAt(trace, steps, m - 1, a);
    }
  }

  // ---- Two reapers -----------------------------------------------------------------------------------------

  /** Both reapers see DONE before the first one frees the item. */
  function TwoReaperSteps(a: nat, b: nat, t: nat): seq<ReapStep>
  {
    [ReapRead(a, t), ReapRead(b, t), ReapCheck(a), ReapCheck(b), ReapPoll(a), ReapFree(a)]
  }

  function RunReaps(s: State, steps: seq<ReapStep>): (r: (bool, State))
    decreases |steps|
  {
    if steps == [] then (true, s)
    else if !ReapEnabled(s, steps[0]) then (false, s)
    else RunReaps(NextReap(s, steps[0]), steps[1..])
  }

  /** From every state in which a finished task's item is DONE, these six steps leave reaper b polling
      for an item that is gone. */
  lemma TwoReapersHang(s: State, a: nat, b: nat, t: nat)
    requires DistinctIds(s.smp) && a !in s.reapers && b !in s.reapers && a != b
    requires t < |s.task| && s.task[t].state == Done && s.task[t].smpId != 0 && WorkDone(s.smp, s.task[t].smpId)
    ensures var (ok, s') := RunReaps(s, TwoReaperSteps(a, b, t));
            && ok && b in s'.reapers && s'.reapers[b] == Reaper(t, s.task[t].smpId, Polling)
            && !Live(s'.smp, s.task[t].smpId)
  {
    var x := s.task[t].smpId;
    var s1 := s.(reapers := s.reapers[a := Reaper(t, x, Seen)]);
    var s2 := s1.(reapers := s1.reapers[b := Reaper(t, x, Seen)]);
    var s3 := s2.(reapers := s2.reapers[a := Reaper(t, x, Polling)]);
    var s4 := s3.(reapers := s3.reapers[b := Reaper(t, x, Polling)]);
    var s5 := s4.(reapers := s4.reapers[a := Reaper(t, x, Freeing)]);
    var s6 := s5.(smp := Released(s.smp, x), reapers := s5.reapers[a := Reaper(t, x, Clearing)]);
    var ss := [s, s1, s2, s3, s4, s5, s6];
    var steps := TwoReaperSteps(a, b, t);
    BothRead(s, a, b, t);
    BothCheck(s2, a, b);
    FirstFrees(s4, a);
    forall j | 0 <= j < |steps| ensures ReapEnabled(ss[j], steps[j]) && NextReap(ss[j], steps[j]) == ss[j + 1] { }
    RunFrom(ss, steps, 0);
    assert steps[0..] == steps;
    DoneMeansDone(s.smp, x);
    var i := ReleasedSlot(s.smp, x);
  }

  lemma BothRead(s: State, a: nat, b: nat, t: nat)
    requires a !in s.reapers && b !in s.reapers && a != b && t < |s.task| && s.task[t].state == Done
      && s.task[t].smpId != 0
    ensures var s1 := s.(reapers := s.reapers[a := Reaper(t, s.task[t].smpId, Seen)]);
            && NextReap(s, ReapRead(a, t)) == s1
            && ReapEnabled(s1, ReapRead(b, t))
            && NextReap(s1, ReapRead(b, t)) == s1.(reapers := s1.reapers[b := Reaper(t, s.task[t].smpId, Seen)])
  {
  }

  lemma BothCheck(s: State, a: nat, b: nat)
    requires AtReap(s, a, Seen) && AtReap(s, b, Seen) && a != b
    requires WorkDone(s.smp, s.reapers[a].smpId) && WorkDone(s.smp, s.reapers[b].smpId)
    ensures var s1 := s.(reapers := s.reapers[a := s.reapers[a].(phase := Polling)]);
            && NextReap(s, ReapCheck(a)) == s1
            && ReapEnabled(s1, ReapCheck(b))
            && NextReap(s1, ReapCheck(b)) == s1.(reapers := s1.reapers[b := s.reapers[b].(phase := Polling)])
  {
  }

  lemma FirstFrees(s: State, a: nat)
    requires AtReap(s, a, Polling) && WorkDone(s.smp, s.reapers[a].smpId)
    ensures var s1 := s.(reapers := s.reapers[a := s.reapers[a].(phase := Freeing)]);
            && NextReap(s, ReapPoll(a)) == s1
            && ReapEnabled(s1, ReapFree(a))
            && NextReap(s1, ReapFree(a)) == s1.(smp := Released(s.smp, s.reapers[a].smpId),
                                                reapers := s1.reapers[a := s.reapers[a].(phase := Clearing)])
  {
  }

  lemma {:induction false} RunFrom(ss: seq<State>, steps: seq<ReapStep>, k: nat)
    requires |ss| == |steps| + 1 && k <= |steps|
    requires forall j :: 0 <= j < |steps| ==> ReapEnabled(ss[j], steps[j]) && NextReap(ss[j], steps[j]) == ss[j + 1]
    ensures RunReaps(ss[k], steps[k..]) == (true, ss[|steps|])
    decreases |steps| - k
  {
    if k < |steps| {
      RunFrom(ss, steps, k + 1);
      assert steps[k..][0] == steps[k] && steps[k..][1..] == steps[k + 1..];
    }
  }

  // ---- One reaper ------------------------------------------------------------------------------------------

  function OneReaperSteps(a: nat, t: nat): seq<ReapStep>
  {
    [ReapRead(a, t), ReapCheck(a), ReapPoll(a), ReapFree(a), ReapClear(a)]
  }

  /**
   A core that reclaims the item of a finished task alone: five steps after it looks at the task the item is gone, the
   task names none, and kernel_task_done answers yes.
   */
  lemma ReaperClears(s: State, a: nat, t: nat)
    requires Inv(s) && a !in s.reapers && t < |s.task| && s.task[t].state == Done && s.task[t].smpId != 0
    requires WorkDone(s.smp, s.task[t].smpId)
    ensures var (ok, s') := RunReaps(s, OneReaperSteps(a, t));
            && ok && !Live(s'.smp, s.task[t].smpId) && s'.reapers == s.reapers
            && s'.task == s.task[t := s.task[t].(smpId := 0)] && TaskDone(s'.task, s.task[t].id)
  {
    var x := s.task[t].smpId;
    assert TaskOk(s.task[t], s.taskSubmits, s.jobOf) && DistinctTaskIds(s.task) && DistinctIds(s.smp);
    hide Inv;
    DoneMeansDone(s.smp, x);
    var i := ReleasedSlot(s.smp, x);
    ClearedIsDone(s.task, t);
    hide WorkDone, Released, TaskDone, Live, RunReaps;
    ReaperRun(s, a, t);
  }

  lemma ReaperRun(s: State, a: nat, t: nat)
    requires a !in s.reapers && t < |s.task| && s.task[t].state == Done && s.task[t].smpId != 0
    requires WorkDone(s.smp, s.task[t].smpId)
    ensures RunReaps(s, OneReaperSteps(a, t)) ==
            (true, s.(smp := Released(s.smp, s.task[t].smpId), task := s.task[t := s.task[t].(smpId := 0)]))
  {
    hide WorkDone, Released;
    var x := s.task[t].smpId;
    ReadsAndChecks(s, a, t);
    FirstFrees(s.(reapers := s.reapers[a := Reaper(t, x, Polling)]), a);
    Clears(s.(smp := Released(s.smp, x), reapers := s.reapers[a := Reaper(t, x, Clearing)]), a, s.reapers);
    var ss, steps := ReaperStates(s, a, t), OneReaperSteps(a, t);
    SameAgain(s.reapers, a, Reaper(t, x, Polling), Reaper(t, x, Freeing), Reaper(t, x, Clearing));
    forall j | 0 <= j < |steps| ensures ReapEnabled(ss[j], steps[j]) && NextReap(ss[j], steps[j]) == ss[j + 1] { }
    RunFrom(ss, steps, 0);
    assert steps[0..] == steps;
  }

  function ReaperStates(s: State, a: nat, t: nat): seq<State>
    requires t < |s.task|
  {
    var x, r := s.task[t].smpId, s.reapers;
    [s, s.(reapers := r[a := Reaper(t, x, Seen)]), s.(reapers := r[a := Reaper(t, x, Polling)]),
     s.(reapers := r[a := Reaper(t, x, Freeing)]),
     s.(smp := Released(s.smp, x), reapers := r[a := Reaper(t, x, Clearing)]),
     s.(smp := Released(s.smp, x), task := s.task[t := s.task[t].(smpId := 0)])]
  }

  lemma SameAgain(r: map<nat, Reaper>, a: nat, p: Reaper, q: Reaper, z: Reaper)
    ensures r[a := p][a := q] == r[a := q] && r[a := q][a := z] == r[a := z]
  {
  }

  lemma ReadsAndChecks(s: State, a: nat, t: nat)
    requires a !in s.reapers && t < |s.task| && s.task[t].state == Done && s.task[t].smpId != 0
    requires WorkDone(s.smp, s.task[t].smpId)
    ensures var x := s.task[t].smpId;
            var s1 := s.(reapers := s.reapers[a := Reaper(t, x, Seen)]);
            && ReapEnabled(s, ReapRead(a, t)) && NextReap(s, ReapRead(a, t)) == s1 && ReapEnabled(s1, ReapCheck(a))
            && NextReap(s1, ReapCheck(a)) == s.(reapers := s.reapers[a := Reaper(t, x, Polling)])
  {
    var x := s.task[t].smpId;
    assert s.reapers[a := Reaper(t, x, Seen)][a := Reaper(t, x, Polling)] == s.reapers[a := Reaper(t, x, Polling)];
  }

  lemma Clears(s: State, a: nat, others: map<nat, Reaper>)
    requires AtReap(s, a, Clearing) && s.task[s.reapers[a].t].smpId == s.reapers[a].smpId
    requires a !in others && s.reapers == others[a := s.reapers[a]]
    ensures var t := s.reapers[a].t;
            && ReapEnabled(s, ReapClear(a))
            && NextReap(s, ReapClear(a)) == s.(task := s.task[t := s.task[t].(smpId := 0)], reapers := others)
  {
    assert s.reapers - {a} == others;
  }

  lemma ClearedIsDone(task: seq<TaskSlot>, t: nat)
    requires DistinctTaskIds(task) && t < |task| && task[t].state == Done && task[t].id != 0
    ensures TaskDone(task[t := task[t].(smpId := 0)], task[t].id)
  {
    var task', x := task[t := task[t].(smpId := 0)], task[t].id;
    forall k | 0 <= k < t ensures task'[k].id != x { assert task'[k] == task[k]; }
    assert task'[t].id == x && FirstTaskWithId(task', x) == t;
  }

  // ---- When a hang is possible ----------------------------------------------------------------------------

  /** The step lets nobody into the wait. */
  predicate NoEntry(step: ReapStep)
  {
    !step.ReapRead? && !step.ReapCheck?
  }

  /** After these steps reaper a polls for an item that is gone. */
  ghost predicate HangsAfter(s: State, steps: seq<ReapStep>, a: nat, x: Id)
  {
    && (forall j :: 0 <= j < |steps| ==> NoEntry(steps[j])) && RunReaps(s, steps).0
    && var s' := RunReaps(s, steps).1;
       a in s'.reapers && s'.reapers[a].phase == Polling && s'.reapers[a].smpId == x && !Live(s'.smp, x)
  }

  /** Another core is inside smp_wait_work for x. */
  ghost predicate OtherWaits(s: State, a: nat, x: Id)
  {
    exists b :: b in s.reapers && b != a && InWait(s.reapers[b]) && s.reapers[b].smpId == x
  }

  /** Reaper a cannot be overtaken: it no longer polls for x, or x is there and nobody else waits for it. */
  ghost predicate Safe(s: State, a: nat, x: Id)
  {
    && !OtherWaits(s, a, x)
    && (a in s.reapers && s.reapers[a].phase == Polling && s.reapers[a].smpId == x ==> Live(s.smp, x))
  }

  lemma SafeStep(s: State, step: ReapStep, a: nat, x: Id)
    requires Safe(s, a, x) && ReapEnabled(s, step) && NoEntry(step)
    ensures Safe(NextReap(s, step), a, x)
  {
    hide SmpIdCleared, WorkDone, Released, Live;
    var s' := NextReap(s, step);
    forall b | b in s'.reapers && InWait(s'.reapers[b])
      ensures b in s.reapers && InWait(s.reapers[b]) && s.reapers[b].smpId == s'.reapers[b].smpId {
      ReapBefore(s, step, b);
    }
    if a in s'.reapers && s'.reapers[a].phase == Polling && s'.reapers[a].smpId == x {
      ReapBefore(s, step, a);
      if step.ReapFree? { FreeOther(s.smp, s.reapers[step.a].smpId, x); }
    }
  }

  lemma FreeOther(smp: seq<SmpSlot>, y: Id, x: Id)
    requires y != x && Live(smp, x)
    ensures Live(Released(smp, y), x)
  {
    var i :| 0 <= i < |smp| && smp[i].id == x;
    assert Released(smp, y)[i].id == x;
  }

  lemma {:induction false} SafeRun(s: State, steps: seq<ReapStep>, a: nat, x: Id)
    requires Safe(s, a, x) && (forall j :: 0 <= j < |steps| ==> NoEntry(steps[j])) && RunReaps(s, steps).0
    ensures Safe(RunReaps(s, steps).1, a, x)
    decreases |steps|
  {
    if steps != [] {
      SafeStep(s, steps[0], a, x);
      SafeRun(NextReap(s, steps[0]), steps[1..], a, x);
    }
  }

  lemma InvReapers(s: State)
    requires Inv(s)
    ensures ReapersOk(s.smp, s.task, s.jobOf, s.reapers) && DistinctIds(s.smp)
  {
  }

  /** Another core in the wait can free the item first. */
  lemma OtherFrees(s: State, a: nat, b: nat, x: Id) returns (steps: seq<ReapStep>)
    requires ReapersOk(s.smp, s.task, s.jobOf, s.reapers) && DistinctIds(s.smp)
    requires a in s.reapers && s.reapers[a].phase == Polling && s.reapers[a].smpId == x
    requires b in s.reapers && b != a && InWait(s.reapers[b]) && s.reapers[b].smpId == x && WorkDone(s.smp, x)
    ensures HangsAfter(s, steps, a, x)
  {
    assert ReaperOk(s.reapers[b], s.smp, s.task, s.jobOf);
    DoneMeansDone(s.smp, x);
    var i := ReleasedSlot(s.smp, x);
    if s.reapers[b].phase == Freeing {
      steps := [ReapFree(b)];
      RunFrom([s, NextReap(s, ReapFree(b))], steps, 0);
    } else {
      steps := [ReapPoll(b), ReapFree(b)];
      FirstFrees(s, b);
      var s1 := NextReap(s, ReapPoll(b));
      RunFrom([s, s1, NextReap(s1, ReapFree(b))], steps, 0);
    }
    assert steps[0..] == steps;
  }

  /**
   A core that polls for a finished item can still be overtaken by those already waiting if and only if
   another core waits for the same item.
   */
  lemma CanHangIff(trace: seq<State>, steps: seq<Step>, k: nat, a: nat)
    requires IsRun(trace, steps) && NoWrap(trace[|steps|]) && k <= |steps|
    requires a in trace[k].reapers && trace[k].reapers[a].phase == Polling
    requires WorkDone(trace[k].smp, trace[k].reapers[a].smpId)
    ensures (exists more :: HangsAfter(trace[k], more, a, trace[k].reapers[a].smpId)) <==>
            OtherWaits(trace[k], a, trace[k].reapers[a].smpId)
  {
    var s, x := trace[k], trace[k].reapers[a].smpId;
    RunInv(trace, steps, k);
    InvReapers(s);
    hide Inv;
    ReaperSeesDone(trace, steps, k, a);
    if OtherWaits(s, a, x) {
      var b :| b in s.reapers && b != a && InWait(s.reapers[b]) && s.reapers[b].smpId == x;
      var more := OtherFrees(s, a, b, x);
    } else {
      forall more | HangsAfter(s, more, a, x) ensures false { SafeRun(s, more, a, x); }
    }
  }

  // ---- A run that hangs --------------------------------------------------------------------------------------

  lemma Extend(trace: seq<State>, steps: seq<Step>, step: Step) returns (trace': seq<State>, steps': seq<Step>)
    requires IsRun(trace, steps) && Enabled(trace[|steps|], step)
    ensures IsRun(trace', steps') && |steps'| == |steps| + 1 && trace'[|steps'|] == Next(trace[|steps|], step)
  {
    trace', steps' := trace + [Next(trace[|steps|], step)], steps + [step];
    forall k | 0 <= k < |steps'| ensures LegalAt(trace', steps', k) {
      if k < |steps| { assert LegalAt(trace, steps, k); }
    }
  }

  /** One core submits one task to tables of one slot each, and a second core runs it. */
  lemma FinishedTaskRun() returns (trace: seq<State>, steps: seq<Step>)
    ensures IsRun(trace, steps)
    ensures var s := trace[|steps|];
            && s.smp == [SmpSlot(Done, 1, TaskWorker(0))] && s.task == [TaskSlot(Done, 1, 1, 1, 0)]
            && s.reapers == map[] && s.smpSubmits == 1 && s.taskSubmits == 1
  {
    var s0 := State([FREE_SMP], 1, [FREE_TASK], 1, map[], map[], map[], map[], map[], {}, {}, 0, 0,
                    multiset{}, multiset{}, multiset{}, multiset{}, map[]);
    trace, steps := [s0], [];
    trace, steps := Extend(trace, steps, OfTask(TaskSubmit(0, 1, 0, false, 2)));
    var s1 := s0.(task := [TaskSlot(Running, 1, 0, 1, 0)], nextTask := 2,
                  submitters := map[0 := Reserved(0, 1, false)], taskSubmits := 1);
    assert trace[|steps|] == s1;
    trace, steps := Extend(trace, steps, OfTask(HandOver(0, 2)));
    var s2 := s1.(smp := [SmpSlot(Queued, 1, TaskWorker(0))], nextSmp := 2, submitters := map[0 := HandedOver(0, 1, 1)],
                  smpSubmits := 1, jobOf := map[1 := 1]);
    assert trace[|steps|] == s2;
    trace, steps := Extend(trace, steps, OfTask(StoreSmpId(0)));
    var s3 := s2.(task := [TaskSlot(Running, 1, 1, 1, 0)], submitters := map[], taskClaims := {1});
    assert trace[|steps|] == s3;
    trace, steps := WorkerRun(trace, steps, s3);
  }

  lemma WorkerTaken(trace0: seq<State>, steps0: seq<Step>, s3: State) returns (trace: seq<State>, steps: seq<Step>)
    requires IsRun(trace0, steps0) && trace0[|steps0|] == s3
    requires s3.smp == [SmpSlot(Queued, 1, TaskWorker(0))] && s3.task == [TaskSlot(Running, 1, 1, 1, 0)]
    requires s3.runs == map[] && s3.reapers == map[] && s3.smpSubmits == 1 && s3.taskSubmits == 1
    ensures IsRun(trace, steps)
    ensures var s := trace[|steps|];
            && s.smp == [SmpSlot(Running, 1, TaskWorker(0))] && s.task == s3.task
            && s.runs == map[0 := Worker(0, BySmp(0, 1), Entering)]
            && s.reapers == map[] && s.smpSubmits == 1 && s.taskSubmits == 1
  {
    trace, steps := Extend(trace0, steps0, OfSmp(Take(0)));
    var s4 := s3.(smp := [SmpSlot(Running, 1, TaskWorker(0))], runs := map[0 := Item(0, 1, TaskWorker(0), Taken)]);
    assert trace[|steps|] == s4;
    trace, steps := Extend(trace, steps, OfSmp(Call(0)));
  }

  lemma WorkerRun(trace0: seq<State>, steps0: seq<Step>, s3: State) returns (trace: seq<State>, steps: seq<Step>)
    requires IsRun(trace0, steps0) && trace0[|steps0|] == s3
    requires s3.smp == [SmpSlot(Queued, 1, TaskWorker(0))] && s3.task == [TaskSlot(Running, 1, 1, 1, 0)]
    requires s3.runs == map[] && s3.reapers == map[] && s3.smpSubmits == 1 && s3.taskSubmits == 1
    ensures IsRun(trace, steps)
    ensures var s := trace[|steps|];
            && s.smp == [SmpSlot(Done, 1, TaskWorker(0))] && s.task == [TaskSlot(Done, 1, 1, 1, 0)]
            && s.reapers == map[] && s.smpSubmits == 1 && s.taskSubmits == 1
  {
    trace, steps := WorkerTaken(trace0, steps0, s3);
    var s5 := trace[|steps|];
    trace, steps := Extend(trace, steps, OfWorker(WorkerStart(0)));
    var s6 := trace[|steps|];
    assert s6.smp == s5.smp && s6.task == s5.task && s6.runs == map[0 := Worker(0, BySmp(0, 1), Holding(1, 0, 1))];
    trace, steps := TaskRun(trace, steps, s6);
  }

  lemma TaskRun(trace0: seq<State>, steps0: seq<Step>, s6: State) returns (trace: seq<State>, steps: seq<Step>)
    requires IsRun(trace0, steps0) && trace0[|steps0|] == s6
    requires s6.smp == [SmpSlot(Running, 1, TaskWorker(0))] && s6.task == [TaskSlot(Running, 1, 1, 1, 0)]
    requires s6.runs == map[0 := Worker(0, BySmp(0, 1), Holding(1, 0, 1))]
    requires s6.reapers == map[] && s6.smpSubmits == 1 && s6.taskSubmits == 1
    ensures IsRun(trace, steps)
    ensures var s := trace[|steps|];
            && s.smp == [SmpSlot(Done, 1, TaskWorker(0))] && s.task == [TaskSlot(Done, 1, 1, 1, 0)]
            && s.reapers == map[] && s.smpSubmits == 1 && s.taskSubmits == 1
  {
    trace, steps := Extend(trace0, steps0, OfWorker(WorkerCall(0)));
    var s7 := trace[|steps|];
    assert s7.runs == map[0 := Worker(0, BySmp(0, 1), InTask(1))];
    trace, steps := Extend(trace, steps, OfWorker(WorkerReturn(0)));
    var s8 := trace[|steps|];
    assert s8.runs == map[0 := Worker(0, BySmp(0, 1), Leaving)];
    trace, steps := Extend(trace, steps, OfWorker(WorkerFinish(0)));
    var s9 := trace[|steps|];
    assert s9.task == [TaskSlot(Done, 1, 1, 1, 0)] && s9.runs == map[0 := Item(0, 1, TaskWorker(0), Returned)];
    trace, steps := Extend(trace, steps, OfSmp(StoreDone(0)));
  }

  lemma {:induction false} ExtendReaps(trace: seq<State>, steps: seq<Step>, reaps: seq<ReapStep>)
    returns (trace': seq<State>, steps': seq<Step>)
    requires IsRun(trace, steps) && RunReaps(trace[|steps|], reaps).0
    ensures IsRun(trace', steps') && |steps'| == |steps| + |reaps|
    ensures trace'[|steps'|] == RunReaps(trace[|steps|], reaps).1
    decreases |reaps|
  {
    if reaps == [] {
      trace', steps' := trace, steps;
    } else {
      trace', steps' := Extend(trace, steps, OfReap(reaps[0]));
      trace', steps' := ExtendReaps(trace', steps', reaps[1..]);
    }
  }

  /** Reaping by two cores at once can hang: this run ends with a reaper that, by StuckForever, never returns. */
  lemma ReaperHangs() returns (trace: seq<State>, steps: seq<Step>)
    ensures IsRun(trace, steps) && NoWrap(trace[|steps|])
    ensures 1 in trace[|steps|].reapers && trace[|steps|].reapers[1].phase == Polling
    ensures !Live(trace[|steps|].smp, trace[|steps|].reapers[1].smpId)
  {
    var trace0, steps0 := FinishedTaskRun();
    var s := trace0[|steps0|];
    TwoReapersHang(s, 0, 1, 0);
    var n := |steps0|;
    trace, steps := ExtendReaps(trace0, steps0, TwoReaperSteps(0, 1, 0));
    ReapsSubmitNothing(s, TwoReaperSteps(0, 1, 0));
  }

  lemma {:induction false} ReapsSubmitNothing(s: State, reaps: seq<ReapStep>)
    requires RunReaps(s, reaps).0
    ensures var s' := RunReaps(s, reaps).1; s'.smpSubmits == s.smpSubmits && s'.taskSubmits == s.taskSubmits
    decreases |reaps|
  {
    if reaps != [] {
      ReapStepFrame(s, reaps[0]);
      ReapsSubmitNothing(NextReap(s, reaps[0]), reaps[1..]);
    }
  }
}
