/**
 No task is lost: a RUNNING task is always in somebody's hands, so with the uniqueness
 of holders it is in exactly one pair of hands until it is finished.
 */
module SmpNoneLost {
  import opened SmpTables
  import opened SmpMachine
  import opened SmpInvariant

  ghost predicate HeldByRun(runs: map<nat, Run>, t: nat)
  {
    exists a :: a in runs && Holds(runs[a]) == t
  }

  ghost predicate HeldBySubmitter(subs: map<nat, Submitter>, t: nat)
  {
    exists b :: b in subs && Pending(subs[b]) == t
  }

  ghost predicate HeldBySlot(smp: seq<SmpSlot>, t: nat)
  {
    exists i :: 0 <= i < |smp| && Carried(smp[i]) == t
  }

  ghost predicate Held(smp: seq<SmpSlot>, runs: map<nat, Run>, subs: map<nat, Submitter>, t: nat)
  {
    HeldByRun(runs, t) || HeldBySubmitter(subs, t) || HeldBySlot(smp, t)
  }

  ghost predicate NoneLost(s: State)
  {
    forall t :: 0 <= t < |s.task| && s.task[t].state == Running ==> Held(s.smp, s.runs, s.submitters, t)
  }

  /** At most run `a` and submitter `b` and slot `i` changed, and none of them held `t`. */
  lemma HeldElsewhere(s: State, s': State, i: int, a: nat, b: nat, t: nat)
    requires Held(s.smp, s.runs, s.submitters, t)
    requires |s'.smp| == |s.smp| && forall j :: 0 <= j < |s.smp| && j != i ==> s'.smp[j] == s.smp[j]
    requires forall c :: c in s.runs && c != a ==> c in s'.runs && s'.runs[c] == s.runs[c]
    requires forall c :: c in s.submitters && c != b ==> c in s'.submitters && s'.submitters[c] == s.submitters[c]
    requires 0 <= i < |s.smp| ==> Carried(s.smp[i]) != t
    requires a in s.runs ==> Holds(s.runs[a]) != t || (a in s'.runs && s'.runs[a] == s.runs[a])
    requires b in s.submitters ==>
      Pending(s.submitters[b]) != t || (b in s'.submitters && s'.submitters[b] == s.submitters[b])
    ensures Held(s'.smp, s'.runs, s'.submitters, t)
  {
    if HeldByRun(s.runs, t) {
      var c :| c in s.runs && Holds(s.runs[c]) == t;
      assert Holds(s'.runs[c]) == t;
    } else if HeldBySubmitter(s.submitters, t) {
      var c :| c in s.submitters && Pending(s.submitters[c]) == t;
      assert Pending(s'.submitters[c]) == t;
    } else {
      var j :| 0 <= j < |s.smp| && Carried(s.smp[j]) == t;
      assert Carried(s'.smp[j]) == t;
    }
  }

  lemma SubmitPlainLoses(s: State, fn: nat, arg: nat, online: nat)
    requires NoneLost(s)
    ensures NoneLost(DoSubmitPlain(s, fn, arg, online))
  {
    var s' := DoSubmitPlain(s, fn, arg, online);
    if fn == 0 || !Accepts(s, online) { return; }
    forall t | 0 <= t < |s'.task| && s'.task[t].state == Running ensures Held(s'.smp, s'.runs, s'.submitters, t) {
      HeldElsewhere(s, s', FirstFree(s.smp), 0, 0, t);
    }
  }

  lemma TakeLoses(s: State, a: nat)
    requires NoneLost(s) && a !in s.runs
    ensures NoneLost(DoTake(s, a))
  {
    var s' := DoTake(s, a);
    var i := FirstQueued(s.smp);
    if i == |s.smp| { return; }
    forall t | 0 <= t < |s'.task| && s'.task[t].state == Running ensures Held(s'.smp, s'.runs, s'.submitters, t) {
      if Carried(s.smp[i]) == t { assert Holds(s'.runs[a]) == t; } else { HeldElsewhere(s, s', i, a, 0, t); }
    }
  }

  /** Agent a goes on holding what it held, or its task is no longer RUNNING; slot i carried nothing. */
  lemma RunGoesOn(s: State, s': State, i: int, a: nat)
    requires NoneLost(s) && a in s.runs
    requires |s'.smp| == |s.smp| && forall j :: 0 <= j < |s.smp| && j != i ==> s'.smp[j] == s.smp[j]
    requires 0 <= i < |s.smp| ==> Carried(s.smp[i]) < 0
    requires forall c :: c in s.runs && c != a ==> c in s'.runs && s'.runs[c] == s.runs[c]
    requires s'.submitters == s.submitters && |s'.task| == |s.task|
    requires forall t :: 0 <= t < |s.task| && s'.task[t].state == Running ==>
      s.task[t].state == Running && (Holds(s.runs[a]) == t ==> a in s'.runs && Holds(s'.runs[a]) == t)
    ensures NoneLost(s')
  {
    forall t | 0 <= t < |s'.task| && s'.task[t].state == Running ensures Held(s'.smp, s'.runs, s'.submitters, t) {
      if Holds(s.runs[a]) == t { assert Holds(s'.runs[a]) == t; } else { HeldElsewhere(s, s', i, a, 0, t); }
    }
  }

  lemma SlotFreed(s: State, s': State, i: int)
    requires NoneLost(s) && s'.runs == s.runs && s'.submitters == s.submitters
    requires |s'.task| == |s.task| && forall t :: 0 <= t < |s.task| && s'.task[t].state == Running ==>
      s.task[t].state == Running
    requires |s'.smp| == |s.smp| && forall j :: 0 <= j < |s.smp| && j != i ==> s'.smp[j] == s.smp[j]
    requires 0 <= i < |s.smp| ==> s.smp[i].state == Done
    ensures NoneLost(s')
  {
    forall t | 0 <= t < |s'.task| && s'.task[t].state == Running ensures Held(s'.smp, s'.runs, s'.submitters, t) {
      HeldElsewhere(s, s', i, 0, 0, t);
    }
  }

  lemma TaskSubmitLoses(s: State, a: nat, fn: nat, arg: nat, async: bool, online: nat)
    requires NoneLost(s) && a !in s.submitters
    ensures NoneLost(DoTaskSubmit(s, a, fn, arg, async, online))
  {
    var s' := DoTaskSubmit(s, a, fn, arg, async, online);
    if s' == s { return; }
    var t0 := FirstFreeTask(s.task);
    forall t | 0 <= t < |s'.task| && s'.task[t].state == Running ensures Held(s'.smp, s'.runs, s'.submitters, t) {
      if t == t0 { assert Pending(s'.submitters[a]) == t; } else { HeldElsewhere(s, s', -1, 0, a, t); }
    }
  }

  lemma HandOverLoses(s: State, a: nat, online: nat)
    requires NoneLost(s) && a in s.submitters && s.submitters[a].Reserved?
    ensures NoneLost(DoHandOver(s, a, online))
  {
    var s' := DoHandOver(s, a, online);
    var i := FirstFree(s.smp);
    forall t | 0 <= t < |s'.task| && s'.task[t].state == Running ensures Held(s'.smp, s'.runs, s'.submitters, t) {
      if t == s.submitters[a].t {
        if Accepts(s, online) { assert Carried(s'.smp[i]) == t; } else { assert Pending(s'.submitters[a]) == t; }
      } else { HeldElsewhere(s, s', i, 0, a, t); }
    }
  }

  /** The submitter leaves a task that it does not hold, or that is no longer RUNNING. */
  lemma SubmitterLeaves(s: State, s': State, a: nat)
    requires NoneLost(s) && a in s.submitters && s'.smp == s.smp && s'.runs == s.runs
      && s'.submitters == s.submitters - {a}
    requires |s'.task| == |s.task| && forall t :: 0 <= t < |s.task| && s'.task[t].state == Running ==>
      s.task[t].state == Running && Pending(s.submitters[a]) != t
    ensures NoneLost(s')
  {
    forall t | 0 <= t < |s'.task| && s'.task[t].state == Running ensures Held(s'.smp, s'.runs, s'.submitters, t) {
      HeldElsewhere(s, s', -1, 0, a, t);
    }
  }

  lemma PollLoses(s: State, a: nat)
    requires NoneLost(s) && a !in s.runs
    ensures NoneLost(DoPoll(s, a))
  {
    var s' := DoPoll(s, a);
    var t0 := FirstQueuedTask(s.task);
    if t0 == |s.task| { return; }
    forall t | 0 <= t < |s'.task| && s'.task[t].state == Running ensures Held(s'.smp, s'.runs, s'.submitters, t) {
      if t == t0 { assert Holds(s'.runs[a]) == t; } else { HeldElsewhere(s, s', -1, a, 0, t); }
    }
  }

  lemma SmpStepLoses(s: State, step: SmpStep)
    requires NoneLost(s) && SmpEnabled(s, step)
    requires step.StoreDone? ==> ExecOk(s.runs[step.a], s.smp)
    ensures NoneLost(NextSmp(s, step))
  {
    match step
    case SubmitPlain(fn, arg, online) => SubmitPlainLoses(s, fn, arg, online);
    case Take(a) => TakeLoses(s, a);
    case Call(a) => RunGoesOn(s, DoCall(s, a), -1, a);
    case Return(a) => RunGoesOn(s, DoReturn(s, a), -1, a);
    case StoreDone(a) => RunGoesOn(s, DoStoreDone(s, a), s.runs[a].slot, a);
    case StartWait(a, wid) => SlotFreed(s, DoStartWait(s, a, wid), -1);
    case PollWait(a) => SlotFreed(s, DoPollWait(s, a), -1);
    case Release(a) => SlotFreed(s, DoRelease(s, a), FirstDoneWithId(s.smp, s.waiters[a].id));
  }

  lemma GiveUpLoses(s: State, a: nat)
    requires NoneLost(s) && TaskEnabled(s, GiveUp(a)) && s.task[s.submitters[a].t].id == s.submitters[a].tid
    ensures NoneLost(DoGiveUp(s, a))
  {
    var g := s.submitters[a];
    if g.async {
      SubmitterLeaves(s, s.(task := GivenBack(s.task, g.t, g.tid), submitters := s.submitters - {a}), a);
    } else {
      SubmitterLeaves(s, s.(task := FellBack(s.task, g.t, g.tid), submitters := s.submitters - {a},
                            taskClaims := s.taskClaims + {g.tid}), a);
    }
  }

  lemma TaskStepLoses(s: State, step: TaskStep)
    requires NoneLost(s) && TaskEnabled(s, step)
    requires step.GiveUp? ==> s.task[s.submitters[step.a].t].id == s.submitters[step.a].tid
    ensures NoneLost(NextTask(s, step))
  {
    match step
    case TaskSubmit(a, fn, arg, async, online) => TaskSubmitLoses(s, a, fn, arg, async, online);
    case HandOver(a, online) => HandOverLoses(s, a, online);
    case StoreSmpId(a) => SubmitterLeaves(s, DoStoreSmpId(s, a), a);
    case GiveUp(a) => GiveUpLoses(s, a);
    case StartTaskWait(a, tid) => SlotFreed(s, DoStartTaskWait(s, a, tid), -1);
    case PollTaskWait(a) => SlotFreed(s, DoPollTaskWait(s, a), -1);
    case TaskRelease(a) => SlotFreed(s, DoTaskRelease(s, a), -1);
  }

  lemma WorkerStepLoses(s: State, step: WorkerStep)
    requires NoneLost(s) && WorkerEnabled(s, step)
    requires !step.Poll? ==> HolderOk(s.runs[step.a], s.task)
    ensures NoneLost(NextWorker(s, step))
  {
    hide NoneLost, HolderOk;
    match step
    case WorkerStart(a) => StartLoses(s, a);
    case WorkerCall(a) => InTaskLoses(s, DoWorkerCall(s, a), a);
    case WorkerReturn(a) => InTaskLoses(s, DoWorkerReturn(s, a), a);
    case WorkerFinish(a) => FinishLoses(s, a);
    case Poll(a) => PollLoses(s, a);
  }

  lemma InTaskLoses(s: State, s': State, a: nat)
    requires NoneLost(s) && AtWorker(s, a) && s'.smp == s.smp && s'.task == s.task && s'.submitters == s.submitters
    requires a in s'.runs && s'.runs == s.runs[a := s'.runs[a]] && s'.runs[a].Worker? && s'.runs[a].t == s.runs[a].t
    ensures NoneLost(s')
  {
    RunGoesOn(s, s', -1, a);
  }

  lemma StartLoses(s: State, a: nat)
    requires NoneLost(s) && WorkerEnabled(s, WorkerStart(a)) && HolderOk(s.runs[a], s.task)
    ensures NoneLost(DoWorkerStart(s, a))
  {
    RunGoesOn(s, DoWorkerStart(s, a), -1, a);
  }

  lemma FinishLoses(s: State, a: nat)
    requires NoneLost(s) && WorkerEnabled(s, WorkerFinish(a)) && HolderOk(s.runs[a], s.task)
    ensures NoneLost(DoWorkerFinish(s, a))
  {
    RunGoesOn(s, DoWorkerFinish(s, a), -1, a);
  }

  lemma ReapStepLoses(s: State, step: ReapStep)
    requires NoneLost(s) && ReapEnabled(s, step)
    ensures NoneLost(NextReap(s, step))
  {
    match step
    case ReapRead(a, t) => assert NextReap(s, step) == DoReapRead(s, a, t);
    case ReapCheck(a) => assert NextReap(s, step) == DoReapCheck(s, a);
    case ReapPoll(a) => assert NextReap(s, step) == DoReapPoll(s, a);
    case ReapFree(a) => SlotFreed(s, DoReapFree(s, a), FirstDoneWithId(s.smp, s.reapers[a].smpId));
    case ReapClear(a) => SlotFreed(s, DoReapClear(s, a), -1);
  }

  lemma StepLosesNone(s: State, step: Step)
    requires Inv(s) && NoneLost(s) && Enabled(s, step)
    ensures NoneLost(Next(s, step))
  {
    hide SmpTableOk, ItemCountsOk, ClaimsOk, TaskTableOk, TaskCountsOk, NamesOk, TaskClaimsOk, ReapersOk;
    assert forall a :: a in s.runs ==> HolderOk(s.runs[a], s.task) && ExecOk(s.runs[a], s.smp);
    assert forall a :: a in s.submitters ==> SubmitterOk(s.submitters[a], s.smp, s.task);
    match step
    case OfSmp(x) => SmpStepLoses(s, x);
    case OfTask(x) => TaskStepLoses(s, x);
    case OfWorker(x) => WorkerStepLoses(s, x);
    case OfReap(x) => ReapStepLoses(s, x);
  }
}
