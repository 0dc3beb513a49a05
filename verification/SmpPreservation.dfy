/**
 Every step of the machine keeps the invariant, as long as the id counters have not
 come round.
 */
module SmpPreservation {
  import opened SmpTables
  import opened SmpMachine
  import opened SmpInvariant
  import opened SmpFrames

  // ---- SMP layer -----------------------------------------------------------------------------------

  /** Below 2^32 submissions the next id is one more than the number handed out, so it is fresh. */
  lemma FreshIsNew(s: State)
    requires SmpTableOk(s.smp, s.nextSmp, s.smpSubmits, s.jobOf, |s.task|) && s.smpSubmits + 1 < WORD
    ensures FreshId(s.nextSmp) == s.smpSubmits + 1
    ensures NextAfter(s.nextSmp) == (s.smpSubmits + 2) % WORD
    ensures !Live(s.smp, FreshId(s.nextSmp)) && FreshId(s.nextSmp) !in s.jobOf
  {
    assert forall i :: 0 <= i < |s.smp| ==> SlotOk(s.smp[i], s.smpSubmits, s.jobOf, |s.task|);
  }

  lemma TableSubmit(smp: seq<SmpSlot>, i: nat, p: SmpSlot, next: Id, submits: nat, jobOf: map<Id, Id>, tid: Id,
                    tasks: nat)
    requires SmpTableOk(smp, next, submits, jobOf, tasks) && i < |smp| && submits + 1 < WORD
    requires p.state == Queued && p.id == submits + 1 && p.work != NoWork
    requires p.work.TaskWorker? ==> p.work.slot < tasks
    ensures SmpTableOk(smp[i := p], (submits + 2) % WORD, submits + 1,
                       if p.work.Plain? then jobOf else jobOf[p.id := tid], tasks)
  {
    var jobOf' := if p.work.Plain? then jobOf else jobOf[p.id := tid];
    var smp' := smp[i := p];
    forall j | 0 <= j < |smp'| ensures SlotOk(smp'[j], submits + 1, jobOf', tasks) {
      if j != i { assert SlotOk(smp[j], submits, jobOf, tasks); }
    }
    assert forall j :: 0 <= j < |smp| ==> SlotOk(smp[j], submits, jobOf, tasks);
  }

  lemma SubmitPlainKeeps(s: State, fn: nat, arg: nat, online: nat)
    requires Inv(s) && NoWrap(DoSubmitPlain(s, fn, arg, online))
    ensures Inv(DoSubmitPlain(s, fn, arg, online))
  {
    hide TaskCountsOk, HoldersOk, SubmittersOk, ExecsOk;
    if fn == 0 || !Accepts(s, online) { return; }
    var s' := DoSubmitPlain(s, fn, arg, online);
    var i := FirstFree(s.smp);
    var p := SmpSlot(Queued, FreshId(s.nextSmp), Plain(fn, arg));
    FreshIsNew(s);
    assert SlotOk(s.smp[i], s.smpSubmits, s.jobOf, |s.task|);
    TableSubmit(s.smp, i, p, s.nextSmp, s.smpSubmits, s.jobOf, 0, |s.task|);
    OtherSlotParts(s, s'.smp, i);
    ItemsSubmit(s.smp, i, p.id, p.work, s.runs, s.began, s.ended, s.smpSubmits);
    ClaimsSubmit(s.smp, i, p, s.smpClaims, s.waiters);
  }

  /** Parts of the invariant untouched when a slot is filled with plain work, or emptied. */
  lemma OtherSlotParts(s: State, smp': seq<SmpSlot>, i: nat)
    requires Inv(s) && Only(s.smp, smp', i)
    requires s.smp[i].state == Free || s.smp[i].state == Done
    requires smp'[i].state != Running && !smp'[i].work.TaskWorker? && smp'[i].id != s.smp[i].id
    requires smp'[i].id == 0 || smp'[i].id !in s.jobOf
    requires s.smp[i].work.TaskWorker? ==> forall a :: a in s.submitters && s.submitters[a].HandedOver? ==>
      s.submitters[a].smpId != s.smp[i].id
    ensures ExecsOk(smp', s.runs)
    ensures HoldersOk(smp', s.task, s.runs, s.submitters)
    ensures TaskCountsOk(smp', s.task, s.runs, s.submitters, s.invoked, s.completed, s.taskSubmits)
    ensures SubmittersOk(smp', s.task, s.submitters)
    ensures NamesOk(smp', s.task, s.jobOf, s.submitters)
    ensures !s.smp[i].work.TaskWorker? ==> ReapersOk(smp', s.task, s.jobOf, s.reapers)
  {
    hide TaskCountsOk, HoldersOk, ReapersOk, ItemCountsOk, TaskClaimsOk, ClaimsOk, ExecsOk;
    assert SlotOk(s.smp[i], s.smpSubmits, s.jobOf, |s.task|);
    ExecsIdle(s.smp, smp', i, s.runs);
    HoldersSlot(s.smp, smp', i, s.task, s.runs, s.submitters);
    TasksSlot(s.smp, smp', i, s.task, s.runs, s.submitters, s.invoked, s.completed, s.taskSubmits);
    forall a | a in s.submitters && s.submitters[a].HandedOver? ensures s.submitters[a].smpId != s.smp[i].id {
      assert SubmitterOk(s.submitters[a], s.smp, s.task);
    }
    SubmittersSlot(s.smp, smp', i, s.task, s.submitters);
    if !s.smp[i].work.TaskWorker? {
      forall t | 0 <= t < |s.task| ensures s.task[t].smpId == 0 || s.task[t].smpId != s.smp[i].id {
        assert TaskOk(s.task[t], s.taskSubmits, s.jobOf);
      }
      ReapersSlot(s.smp, smp', i, s.task, s.jobOf, s.reapers);
    }
  }

  lemma TakeKeeps(s: State, a: nat)
    requires Inv(s) && SmpEnabled(s, Take(a))
    ensures Inv(DoTake(s, a))
  {
    hide TaskCountsOk, HoldersOk, ReapersOk, ItemCountsOk, TaskClaimsOk, ClaimsOk, NamesOk, SubmittersOk, ExecsOk,
         TaskTableOk;
    var i := FirstQueued(s.smp);
    if i == |s.smp| { return; }
    var smp' := s.smp[i := s.smp[i].(state := Running)];
    assert SlotOk(s.smp[i], s.smpSubmits, s.jobOf, |s.task|);
    StateOnlyParts(s, smp', i);
    ExecsTake(s.smp, i, s.runs, a);
    ItemsTake(s.smp, i, s.runs, a, s.began, s.ended, s.smpSubmits);
    HoldersTake(s.smp, i, s.task, s.runs, s.submitters, a);
    TasksTake(s.smp, i, s.task, s.runs, s.submitters, a, s.invoked, s.completed, s.taskSubmits);
  }

  /** Parts of the invariant that do not depend on who executes a slot. */
  lemma StateOnlyParts(s: State, smp': seq<SmpSlot>, i: nat)
    requires Inv(s) && Only(s.smp, smp', i)
    requires s.smp[i].state != Free && s.smp[i].state != Done
    requires smp'[i] == s.smp[i].(state := smp'[i].state) && smp'[i].state != Free
    ensures SmpTableOk(smp', s.nextSmp, s.smpSubmits, s.jobOf, |s.task|)
    ensures ClaimsOk(smp', s.smpClaims, s.waiters)
    ensures SubmittersOk(smp', s.task, s.submitters)
    ensures NamesOk(smp', s.task, s.jobOf, s.submitters)
    ensures ReapersOk(smp', s.task, s.jobOf, s.reapers)
  {
    hide TaskCountsOk, HoldersOk, ReapersOk, ItemCountsOk, SubmittersOk;
    assert SlotOk(s.smp[i], s.smpSubmits, s.jobOf, |s.task|);
    assert forall j :: 0 <= j < |smp'| ==> smp'[j].id == s.smp[j].id;
    ClaimsState(s.smp, smp', i, s.smpClaims, s.waiters);
    SubmittersSlot(s.smp, smp', i, s.task, s.submitters);
    assert NamesOk(smp', s.task, s.jobOf, s.submitters) by {
      forall j | 0 <= j < |smp'| ensures Named(smp'[j], s.task, s.jobOf, s.submitters) {
        assert Named(s.smp[j], s.task, s.jobOf, s.submitters);
      }
    }
    ReapersSlot(s.smp, smp', i, s.task, s.jobOf, s.reapers);
  }

  /** What the table says about the item an agent executes. */
  lemma ExecutedItem(s: State, a: nat)
    requires Inv(s) && a in s.runs && OnSlot(s.runs[a]) >= 0
    ensures OnSlot(s.runs[a]) < |s.smp|
    ensures s.smp[OnSlot(s.runs[a])] == SmpSlot(Running, ItemId(s.runs[a]), ItemWork(s.runs[a]))
    ensures 0 < ItemId(s.runs[a]) <= s.smpSubmits
    ensures ItemWork(s.runs[a]).TaskWorker? ==> ItemWork(s.runs[a]).slot < |s.task|
    ensures ItemWork(s.runs[a]) != NoWork
  {
    assert ExecOk(s.runs[a], s.smp);
    assert SlotOk(s.smp[OnSlot(s.runs[a])], s.smpSubmits, s.jobOf, |s.task|);
  }

  lemma CallKeeps(s: State, a: nat)
    requires Inv(s) && AtItem(s, a, Taken)
    ensures Inv(DoCall(s, a))
  {
    hide ExecsOk, ItemCountsOk, ClaimsOk, TaskTableOk, SubmittersOk, NamesOk, TaskClaimsOk, ReapersOk;
    var g := s.runs[a];
    var g' := DoCall(s, a).runs[a];
    ExecutedItem(s, a);
    ExecsPhase(s.smp, s.runs, a, g');
    ItemsCall(s.smp, s.runs, a, g', s.began, s.ended, s.smpSubmits);
    assert HolderOk(g, s.task);
    HoldersPhase(s.smp, s.task, s.runs, s.submitters, a, g');
    TasksPhase(s.smp, s.task, s.runs, s.submitters, a, g', s.invoked, s.completed, s.taskSubmits);
  }

  lemma ReturnKeeps(s: State, a: nat)
    requires Inv(s) && AtItem(s, a, Inside)
    ensures Inv(DoReturn(s, a))
  {
    var g' := s.runs[a].(phase := Returned);
    ExecutedItem(s, a);
    assert ExecOk(s.runs[a], s.smp);
    ExecsPhase(s.smp, s.runs, a, g');
    ItemsReturn(s.smp, s.runs, a, g', s.began, s.ended, s.smpSubmits);
    HoldersPhase(s.smp, s.task, s.runs, s.submitters, a, g');
    TasksPhase(s.smp, s.task, s.runs, s.submitters, a, g', s.invoked, s.completed, s.taskSubmits);
  }

  lemma StoreDoneKeeps(s: State, a: nat)
    requires Inv(s) && AtItem(s, a, Returned)
    ensures Inv(DoStoreDone(s, a))
  {
    var i := s.runs[a].slot;
    var smp' := s.smp[i := s.smp[i].(state := Done)];
    ExecutedItem(s, a);
    StateOnlyParts(s, smp', i);
    ExecsStore(s.smp, s.runs, a);
    ItemsStore(s.smp, s.runs, a, s.began, s.ended, s.smpSubmits);
    HoldersSlot(s.smp, smp', i, s.task, s.runs, s.submitters);
    HoldersDrop(smp', s.task, s.runs, s.submitters, a);
    TasksSlot(s.smp, smp', i, s.task, s.runs, s.submitters, s.invoked, s.completed, s.taskSubmits);
    TasksPhase(smp', s.task, s.runs, s.submitters, a, s.runs[a], s.invoked, s.completed, s.taskSubmits);
  }

  lemma StartWaitKeeps(s: State, a: nat, wid: Id)
    requires Inv(s) && SmpEnabled(s, StartWait(a, wid))
    ensures Inv(DoStartWait(s, a, wid))
  {
    hide TaskCountsOk, HoldersOk, ReapersOk, ItemCountsOk, TaskClaimsOk, NamesOk, SubmittersOk, ExecsOk,
         TaskTableOk, SmpTableOk;
  }

  lemma DoneMeansDone(smp: seq<SmpSlot>, id: Id)
    requires DistinctIds(smp) && id != 0 && WorkDone(smp, id)
    ensures forall i :: 0 <= i < |smp| && smp[i].id == id ==> smp[i].state == Done
    ensures Live(smp, id)
  {
  }

  lemma PollWaitKeeps(s: State, a: nat)
    requires Inv(s) && SmpEnabled(s, PollWait(a))
    ensures Inv(DoPollWait(s, a))
  {
    hide TaskCountsOk, HoldersOk, ReapersOk, ItemCountsOk, TaskClaimsOk, NamesOk, TaskTableOk;
    assert WaiterOk(s.waiters[a], s.smp, s.smpClaims);
    if WorkDone(s.smp, s.waiters[a].id) {
      DoneMeansDone(s.smp, s.waiters[a].id);
      var waiters' := s.waiters[a := Releasing(s.waiters[a].id)];
      assert ClaimsOk(s.smp, s.smpClaims, waiters') by {
        forall b | b in waiters' ensures WaiterOk(waiters'[b], s.smp, s.smpClaims) {
          if b != a { assert WaiterOk(s.waiters[b], s.smp, s.smpClaims); }
        }
      }
    }
  }

  /** smp_release_work finds the one slot with that id. */
  lemma ReleasedSlot(smp: seq<SmpSlot>, id: Id) returns (i: nat)
    requires DistinctIds(smp) && id != 0 && Live(smp, id)
    requires forall j :: 0 <= j < |smp| && smp[j].id == id ==> smp[j].state == Done
    ensures i < |smp| && smp[i].id == id && smp[i].state == Done
    ensures Released(smp, id) == smp[i := FREE_SMP]
    ensures !Live(Released(smp, id), id)
  {
    i :| 0 <= i < |smp| && smp[i].id == id;
    assert FirstDoneWithId(smp, id) == i;
    assert forall j :: 0 <= j < |smp| && j != i ==> smp[j].id != id;
  }

  lemma TableFree(smp: seq<SmpSlot>, i: nat, next: Id, submits: nat, jobOf: map<Id, Id>, tasks: nat)
    requires SmpTableOk(smp, next, submits, jobOf, tasks) && i < |smp|
    ensures SmpTableOk(smp[i := FREE_SMP], next, submits, jobOf, tasks)
  {
  }

  lemma ReleaseKeeps(s: State, a: nat)
    requires Inv(s) && SmpEnabled(s, Release(a))
    ensures Inv(DoRelease(s, a))
  {
    hide TaskCountsOk, HoldersOk, ItemCountsOk, TaskClaimsOk, NamesOk, SubmittersOk;
    var g := s.waiters[a];
    assert WaiterOk(g, s.smp, s.smpClaims);
    assert Live(s.smp, g.id) by { var j :| 0 <= j < |s.smp| && s.smp[j].id == g.id && s.smp[j].work.Plain?; }
    var i := ReleasedSlot(s.smp, g.id);
    assert SlotOk(s.smp[i], s.smpSubmits, s.jobOf, |s.task|);
    assert s.smp[i].work.Plain? by {
      var j :| 0 <= j < |s.smp| && s.smp[j].id == g.id && s.smp[j].work.Plain?;
      assert j == i;
    }
    OtherSlotParts(s, s.smp[i := FREE_SMP], i);
    TableFree(s.smp, i, s.nextSmp, s.smpSubmits, s.jobOf, |s.task|);
    ItemsFree(s.smp, i, s.runs, s.began, s.ended, s.smpSubmits);
    ClaimsFree(s.smp, i, s.smpClaims, s.waiters, s.waiters - {a});
  }

  // ---- Task submission -------------------------------------------------------------------------------

  lemma FreshTaskIsNew(s: State)
    requires TaskTableOk(s.task, s.nextTask, s.taskSubmits, s.jobOf) && s.taskSubmits + 1 < WORD
    ensures FreshId(s.nextTask) == s.taskSubmits + 1
    ensures NextAfter(s.nextTask) == (s.taskSubmits + 2) % WORD
    ensures !LiveTask(s.task, FreshId(s.nextTask))
  {
    assert forall t :: 0 <= t < |s.task| ==> TaskOk(s.task[t], s.taskSubmits, s.jobOf);
  }

  lemma TaskTableSubmit(task: seq<TaskSlot>, t: nat, p: TaskSlot, next: Id, submits: nat, jobOf: map<Id, Id>)
    requires TaskTableOk(task, next, submits, jobOf) && t < |task| && submits + 1 < WORD
    requires p.state == Running && p.id == submits + 1 && p.fn != 0 && p.smpId == 0
    ensures TaskTableOk(task[t := p], (submits + 2) % WORD, submits + 1, jobOf)
  {
    var task' := task[t := p];
    forall u | 0 <= u < |task'| ensures TaskOk(task'[u], submits + 1, jobOf) {
      if u != t { assert TaskOk(task[u], submits, jobOf); }
    }
    assert forall u :: 0 <= u < |task| ==> TaskOk(task[u], submits, jobOf);
  }

  /** No occupied SMP slot carries a free task slot. */
  lemma FreeTaskUncarried(s: State, t: nat)
    requires Inv(s) && t < |s.task| && s.task[t].id == 0
    ensures forall i :: 0 <= i < |s.smp| ==> s.smp[i].work != TaskWorker(t)
  {
    forall i | 0 <= i < |s.smp| ensures s.smp[i].work != TaskWorker(t) {
      assert Named(s.smp[i], s.task, s.jobOf, s.submitters);
    }
  }

  lemma SubmittersReserve(smp: seq<SmpSlot>, task: seq<TaskSlot>, t: nat, p: TaskSlot, subs: map<nat, Submitter>,
                          a: nat, async: bool)
    requires SubmittersOk(smp, task, subs) && t < |task| && task[t].id == 0 && p.id != 0 && p.smpId == 0
    ensures SubmittersOk(smp, task[t := p], subs[a := Reserved(t, p.id, async)])
  {
    var subs' := subs[a := Reserved(t, p.id, async)];
    forall b | b in subs' ensures SubmitterOk(subs'[b], smp, task[t := p]) && (b != a ==> subs'[b].t != t) {
      if b != a { assert SubmitterOk(subs[b], smp, task); }
    }
  }

  lemma TaskClaimsReserve(s: State, t: nat, p: TaskSlot, a: nat, async: bool)
    requires Inv(s) && t < |s.task| && s.task[t].id == 0 && p.id != 0 && !LiveTask(s.task, p.id)
    ensures TaskClaimsOk(s.task[t := p], s.taskClaims, s.taskWaiters, s.submitters[a := Reserved(t, p.id, async)])
  {
    hide TaskCountsOk, HoldersOk, ReapersOk, ItemCountsOk, ClaimsOk, NamesOk, SubmittersOk, TaskTableOk, SmpTableOk;
    forall b | b in s.taskWaiters ensures s.taskWaiters[b].id != 0 && s.taskWaiters[b].id != p.id {
      assert TaskWaiterOk(s.taskWaiters[b], s.task, s.taskClaims);
    }
    TaskClaimsMove(s.task, s.task[t := p], t, s.taskClaims, s.taskWaiters, s.taskWaiters, s.submitters);
  }

  /** Who holds the new task. */
  lemma TaskSubmitHolders(s: State, t: nat, p: TaskSlot, a: nat, async: bool)
    requires Inv(s) && a !in s.submitters && t < |s.task| && s.task[t].state == Free
    requires p.state == Running && p.id == s.taskSubmits + 1 && p.smpId == 0
    ensures HoldersOk(s.smp, s.task[t := p], s.runs, s.submitters[a := Reserved(t, p.id, async)])
    ensures TaskCountsOk(s.smp, s.task[t := p], s.runs, s.submitters[a := Reserved(t, p.id, async)],
                         s.invoked, s.completed, s.taskSubmits + 1)
  {
    hide TaskCountsOk, ReapersOk, ItemCountsOk, TaskClaimsOk, ClaimsOk, NamesOk, SubmittersOk, ExecsOk;
    assert TaskOk(s.task[t], s.taskSubmits, s.jobOf);
    NotRunningUnheld(s.smp, s.task, s.runs, s.submitters, t);
    HoldersTask(s.smp, s.task, s.task[t := p], t, s.runs, s.submitters);
    HoldersReserve(s.smp, s.task[t := p], s.runs, s.submitters, t, a, p.id, async);
    TasksSubmit(s.smp, s.task, t, p, s.runs, s.submitters, a, async, s.invoked, s.completed, s.taskSubmits);
  }

  lemma ReservedKeeps(s: State, t: nat, p: TaskSlot, a: nat, async: bool)
    requires Inv(s) && a !in s.submitters && t < |s.task| && s.task[t].state == Free && s.taskSubmits + 1 < WORD
    requires p.state == Running && p.id == s.taskSubmits + 1 && p.smpId == 0 && p.fn != 0 && !LiveTask(s.task, p.id)
    ensures Inv(s.(task := s.task[t := p], nextTask := (s.taskSubmits + 2) % WORD,
                   submitters := s.submitters[a := Reserved(t, p.id, async)], taskSubmits := s.taskSubmits + 1))
  {
    hide TaskCountsOk, HoldersOk, ReapersOk, ItemCountsOk, TaskClaimsOk, ClaimsOk, NamesOk, SubmittersOk, ExecsOk,
         SmpTableOk;
    assert TaskOk(s.task[t], s.taskSubmits, s.jobOf);
    TaskTableSubmit(s.task, t, p, s.nextTask, s.taskSubmits, s.jobOf);
    TaskSubmitHolders(s, t, p, a, async);
    SubmittersReserve(s.smp, s.task, t, p, s.submitters, a, async);
    TaskSubmitNames(s, t, p, a, async);
    TaskClaimsReserve(s, t, p, a, async);
  }

  lemma TaskSubmitKeeps(s: State, a: nat, fn: nat, arg: nat, async: bool, online: nat)
    requires Inv(s) && a !in s.submitters && NoWrap(DoTaskSubmit(s, a, fn, arg, async, online))
    ensures Inv(DoTaskSubmit(s, a, fn, arg, async, online))
  {
    hide TaskCountsOk, HoldersOk, ReapersOk, ItemCountsOk, TaskClaimsOk, ClaimsOk, NamesOk, SubmittersOk, ExecsOk,
         TaskTableOk, SmpTableOk;
    var t := FirstFreeTask(s.task);
    if fn == 0 || (async && online <= 1) || t == |s.task| { return; }
    FreshTaskIsNew(s);
    ReservedKeeps(s, t, TaskSlot(Running, FreshId(s.nextTask), 0, fn, arg), a, async);
  }

  lemma TaskSubmitNames(s: State, t: nat, p: TaskSlot, a: nat, async: bool)
    requires Inv(s) && a !in s.submitters && t < |s.task| && s.task[t].id == 0 && p.smpId == 0
    ensures NamesOk(s.smp, s.task[t := p], s.jobOf, s.submitters[a := Reserved(t, p.id, async)])
    ensures ReapersOk(s.smp, s.task[t := p], s.jobOf, s.reapers)
  {
    assert TaskOk(s.task[t], s.taskSubmits, s.jobOf);
    FreeTaskUncarried(s, t);
    NamesTask(s.smp, s.task, s.task[t := p], t, s.jobOf, s.submitters);
    NamesSubs(s.smp, s.task[t := p], s.jobOf, s.submitters, s.submitters[a := Reserved(t, p.id, async)], a);
    ReapersTask(s.smp, s.task, s.task[t := p], t, s.jobOf, s.reapers);
  }

  /** A submitter moves on with the same task. */
  lemma TaskClaimsSub(task: seq<TaskSlot>, claims: set<Id>, waiters: map<nat, Waiter>, subs: map<nat, Submitter>,
                      a: nat, g: Submitter)
    requires TaskClaimsOk(task, claims, waiters, subs) && a in subs && g.tid == subs[a].tid
    ensures TaskClaimsOk(task, claims, waiters, subs[a := g])
  {
  }

  lemma SubmittersSub(smp: seq<SmpSlot>, task: seq<TaskSlot>, subs: map<nat, Submitter>, a: nat, g: Submitter)
    requires SubmittersOk(smp, task, subs) && a in subs && g.t == subs[a].t && SubmitterOk(g, smp, task)
    ensures SubmittersOk(smp, task, subs[a := g])
  {
  }

  lemma RefusedKeeps(s: State, a: nat)
    requires Inv(s) && a in s.submitters && s.submitters[a].Reserved?
    ensures var g := s.submitters[a]; Inv(s.(submitters := s.submitters[a := Refused(g.t, g.tid, g.async)]))
  {
    hide TaskCountsOk, HoldersOk, ReapersOk, ItemCountsOk, TaskClaimsOk, ClaimsOk, NamesOk, ExecsOk, TaskTableOk,
         SmpTableOk;
    var g := s.submitters[a];
    var g' := Refused(g.t, g.tid, g.async);
    var subs' := s.submitters[a := g'];
    HoldersRefuse(s.smp, s.task, s.runs, s.submitters, a, g');
    TasksSubs(s.smp, s.task, s.runs, s.submitters, subs', s.invoked, s.completed, s.taskSubmits);
    assert SubmitterOk(g, s.smp, s.task);
    SubmittersSub(s.smp, s.task, s.submitters, a, g');
    NamesSubs(s.smp, s.task, s.jobOf, s.submitters, subs', a);
    TaskClaimsSub(s.task, s.taskClaims, s.taskWaiters, s.submitters, a, g');
  }

  lemma SubmittersHandOver(smp: seq<SmpSlot>, i: nat, id: Id, task: seq<TaskSlot>, subs: map<nat, Submitter>, a: nat)
    requires SubmittersOk(smp, task, subs) && i < |smp| && smp[i].id == 0 && id != 0
    requires a in subs && subs[a].Reserved?
    ensures SubmittersOk(smp[i := SmpSlot(Queued, id, TaskWorker(subs[a].t))], task,
                         subs[a := HandedOver(subs[a].t, subs[a].tid, id)])
  {
    var g := subs[a];
    var smp' := smp[i := SmpSlot(Queued, id, TaskWorker(g.t))];
    forall b | b in subs && subs[b].HandedOver?
      ensures subs[b].smpId != smp[i].id { assert SubmitterOk(subs[b], smp, task); }
    SubmittersSlot(smp, smp', i, task, subs);
    assert SubmitterOk(g, smp, task);
    assert smp'[i].id == id;
    assert LiveFor(smp', id, g.t);
    SubmittersSub(smp', task, subs, a, HandedOver(g.t, g.tid, id));
  }

  /** The SMP side of a successful hand-over. */
  lemma HandOverSlotParts(s: State, i: nat, p: SmpSlot, a: nat)
    requires Inv(s) && a in s.submitters && s.submitters[a].Reserved? && i < |s.smp| && s.smp[i].state == Free
    requires s.smpSubmits + 1 < WORD && p == SmpSlot(Queued, s.smpSubmits + 1, TaskWorker(s.submitters[a].t))
    requires !Live(s.smp, p.id) && p.id !in s.jobOf
    ensures var g := s.submitters[a];
            SmpTableOk(s.smp[i := p], (s.smpSubmits + 2) % WORD, s.smpSubmits + 1, s.jobOf[p.id := g.tid], |s.task|)
    ensures ExecsOk(s.smp[i := p], s.runs)
    ensures ItemCountsOk(s.smp[i := p], s.runs, s.began, s.ended, s.smpSubmits + 1)
    ensures ClaimsOk(s.smp[i := p], s.smpClaims, s.waiters)
    ensures var g := s.submitters[a]; ReapersOk(s.smp[i := p], s.task, s.jobOf[p.id := g.tid], s.reapers)
  {
    hide TaskCountsOk, HoldersOk, ReapersOk, NamesOk, ExecsOk, TaskTableOk;
    var g := s.submitters[a];
    assert SlotOk(s.smp[i], s.smpSubmits, s.jobOf, |s.task|);
    assert SubmitterOk(g, s.smp, s.task);
    TableSubmit(s.smp, i, p, s.nextSmp, s.smpSubmits, s.jobOf, g.tid, |s.task|);
    ExecsIdle(s.smp, s.smp[i := p], i, s.runs);
    ItemsSubmit(s.smp, i, p.id, p.work, s.runs, s.began, s.ended, s.smpSubmits);
    ClaimsSubmit(s.smp, i, p, s.smpClaims, s.waiters);
    ReapersSlot(s.smp, s.smp[i := p], i, s.task, s.jobOf, s.reapers);
    ReapersJob(s.smp[i := p], s.task, s.jobOf, p.id, g.tid, s.reapers);
  }

  lemma HandOverKeeps(s: State, a: nat, online: nat)
    requires Inv(s) && a in s.submitters && s.submitters[a].Reserved? && NoWrap(DoHandOver(s, a, online))
    ensures Inv(DoHandOver(s, a, online))
  {
    hide TaskCountsOk, HoldersOk, ReapersOk, ItemCountsOk, TaskClaimsOk, ClaimsOk, NamesOk, SubmittersOk, ExecsOk,
         TaskTableOk, SmpTableOk;
    var g := s.submitters[a];
    if !Accepts(s, online) { RefusedKeeps(s, a); return; }
    FreshIsNew(s);
    var i := FirstFree(s.smp);
    var id := FreshId(s.nextSmp);
    HandOverFacts(s, a, i);
    HandOverSlotParts(s, i, SmpSlot(Queued, id, TaskWorker(g.t)), a);
    HoldersHandOver(s.smp, i, id, s.task, s.runs, s.submitters, a);
    TasksHandOver(s.smp, i, id, s.task, s.runs, s.submitters, a, s.invoked, s.completed, s.taskSubmits);
    SubmittersHandOver(s.smp, i, id, s.task, s.submitters, a);
    NamesHandOver(s.smp, i, id, s.task, s.jobOf, s.submitters, a);
    TaskTableJob(s.task, s.nextTask, s.taskSubmits, s.jobOf, id, g.tid);
    TaskClaimsSub(s.task, s.taskClaims, s.taskWaiters, s.submitters, a, HandedOver(g.t, g.tid, id));
  }

  lemma HandOverFacts(s: State, a: nat, i: nat)
    requires SmpTableOk(s.smp, s.nextSmp, s.smpSubmits, s.jobOf, |s.task|) && i < |s.smp|
    requires TaskTableOk(s.task, s.nextTask, s.taskSubmits, s.jobOf)
    requires SubmittersOk(s.smp, s.task, s.submitters) && a in s.submitters && s.submitters[a].Reserved?
    ensures SlotOk(s.smp[i], s.smpSubmits, s.jobOf, |s.task|) && SubmitterOk(s.submitters[a], s.smp, s.task)
    ensures TaskOk(s.task[s.submitters[a].t], s.taskSubmits, s.jobOf) && OneSubmitter(s.submitters)
  {
    assert SubmitterOk(s.submitters[a], s.smp, s.task);
  }

  lemma TaskTableJob(task: seq<TaskSlot>, next: Id, submits: nat, jobOf: map<Id, Id>, id: Id, tid: Id)
    requires TaskTableOk(task, next, submits, jobOf) && id !in jobOf && 0 < tid <= submits
    ensures TaskTableOk(task, next, submits, jobOf[id := tid])
  {
    forall t | 0 <= t < |task|
      ensures TaskOk(task[t], submits, jobOf[id := tid]) { assert TaskOk(task[t], submits, jobOf); }
  }

  /** The item handed over was submitted for this very task. */
  lemma HandedOverJob(s: State, a: nat)
    requires Inv(s) && a in s.submitters && s.submitters[a].HandedOver?
    ensures s.submitters[a].smpId in s.jobOf && s.jobOf[s.submitters[a].smpId] == s.submitters[a].tid
  {
    var g := s.submitters[a];
    assert SubmitterOk(g, s.smp, s.task);
    var i :| 0 <= i < |s.smp| && s.smp[i].id == g.smpId && s.smp[i].work == TaskWorker(g.t);
    assert Named(s.smp[i], s.task, s.jobOf, s.submitters);
  }

  lemma SubmittersLeave(smp: seq<SmpSlot>, task: seq<TaskSlot>, task': seq<TaskSlot>, subs: map<nat, Submitter>, a: nat)
    requires SubmittersOk(smp, task, subs) && a in subs && OnlyTask(task, task', subs[a].t)
    ensures SubmittersOk(smp, task', subs - {a})
  {
    forall b | b in subs - {a} ensures SubmitterOk(subs[b], smp, task') { assert SubmitterOk(subs[b], smp, task); }
  }

  /** The submission returns the id to its client. */
  lemma TaskClaimsReturn(task: seq<TaskSlot>, claims: set<Id>, waiters: map<nat, Waiter>, subs: map<nat, Submitter>,
                         a: nat)
    requires TaskClaimsOk(task, claims, waiters, subs) && a in subs && subs[a].tid != 0 && LiveTask(task, subs[a].tid)
    requires forall b :: b in subs && b != a ==> subs[b].tid != subs[a].tid
    ensures TaskClaimsOk(task, claims + {subs[a].tid}, waiters, subs - {a})
    ensures TaskClaimsOk(task, claims, waiters, subs - {a})
  {
  }

  /** Two submitters submit different tasks. */
  lemma DistinctSubmissions(s: State, a: nat)
    requires Inv(s) && a in s.submitters
    ensures forall b :: b in s.submitters && b != a ==> s.submitters[b].tid != s.submitters[a].tid
    ensures LiveTask(s.task, s.submitters[a].tid)
  {
    assert SubmitterOk(s.submitters[a], s.smp, s.task);
    forall b | b in s.submitters && b != a ensures s.submitters[b].tid != s.submitters[a].tid {
      assert SubmitterOk(s.submitters[b], s.smp, s.task);
    }
  }

  lemma StoreSmpIdKeeps(s: State, a: nat)
    requires Inv(s) && TaskEnabled(s, StoreSmpId(a))
    ensures Inv(DoStoreSmpId(s, a))
  {
    hide HoldersOk, ReapersOk, ItemCountsOk, NamesOk, ExecsOk, TaskTableOk, SmpTableOk;
    var g := s.submitters[a];
    var task' := SmpIdStored(s.task, g.t, g.tid, g.smpId);
    assert SubmitterOk(g, s.smp, s.task);
    HandedOverJob(s, a);
    HoldersTask(s.smp, s.task, task', g.t, s.runs, s.submitters);
    HoldersNoSub(s.smp, task', s.runs, s.submitters, a);
    TasksTask(s.smp, s.task, task', g.t, s.runs, s.submitters, s.invoked, s.completed, s.taskSubmits);
    TasksSubs(s.smp, task', s.runs, s.submitters, s.submitters - {a}, s.invoked, s.completed, s.taskSubmits);
    SubmittersLeave(s.smp, s.task, task', s.submitters, a);
    OccupiedIds(s);
    NamesStore(s.smp, s.task, s.jobOf, s.submitters, a);
    DistinctSubmissions(s, a);
    TaskClaimsReturn(s.task, s.taskClaims, s.taskWaiters, s.submitters, a);
    forall b | b in s.taskWaiters ensures s.taskWaiters[b].id != s.task[g.t].id { }
    TaskClaimsTask(s.task, task', g.t, s.taskClaims + {g.tid}, s.taskWaiters, s.submitters - {a});
    ReapersTask(s.smp, s.task, task', g.t, s.jobOf, s.reapers);
    TaskTableRef(s.task, g.t, g.smpId, s.nextTask, s.taskSubmits, s.jobOf);
  }

  lemma OccupiedIds(s: State)
    requires Inv(s)
    ensures forall i :: 0 <= i < |s.smp| ==> s.smp[i].work.TaskWorker? ==> s.smp[i].id != 0
  {
    assert forall i :: 0 <= i < |s.smp| ==> SlotOk(s.smp[i], s.smpSubmits, s.jobOf, |s.task|);
  }

  lemma TaskTableRef(task: seq<TaskSlot>, t: nat, x: Id, next: Id, submits: nat, jobOf: map<Id, Id>)
    requires TaskTableOk(task, next, submits, jobOf) && t < |task|
    requires x != 0 ==> task[t].id != 0 && x in jobOf && jobOf[x] == task[t].id
    ensures TaskTableOk(task[t := task[t].(smpId := x)], next, submits, jobOf)
  {
    var task' := task[t := task[t].(smpId := x)];
    assert TaskOk(task[t], submits, jobOf);
    assert forall u :: 0 <= u < |task| ==> task'[u].id == task[u].id;
  }

  /** While a refused submission is pending, no SMP slot carries its task. */
  lemma RefusedUncarried(s: State, a: nat)
    requires Inv(s) && a in s.submitters && s.submitters[a].Refused?
    ensures forall i :: 0 <= i < |s.smp| ==> s.smp[i].work != TaskWorker(s.submitters[a].t)
  {
    var g := s.submitters[a];
    assert SubmitterOk(g, s.smp, s.task);
    OccupiedIds(s);
    assert forall b :: b in s.submitters && s.submitters[b].t == g.t ==> b == a;
    forall i | 0 <= i < |s.smp| ensures s.smp[i].work != TaskWorker(g.t) {
      assert Named(s.smp[i], s.task, s.jobOf, s.submitters);
    }
  }

  /** The parts of the invariant that only see the submitter leave and its slot change. */
  lemma GiveUpParts(s: State, a: nat, task': seq<TaskSlot>)
    requires Inv(s) && a in s.submitters && s.submitters[a].Refused? && OnlyTask(s.task, task', s.submitters[a].t)
    requires var t := s.submitters[a].t; task'[t] == FREE_TASK || task'[t] == s.task[t].(state := Queued)
    ensures HoldersOk(s.smp, task', s.runs, s.submitters - {a})
    ensures TaskCountsOk(s.smp, task', s.runs, s.submitters - {a}, s.invoked, s.completed, s.taskSubmits)
    ensures SubmittersOk(s.smp, task', s.submitters - {a})
    ensures NamesOk(s.smp, task', s.jobOf, s.submitters - {a})
    ensures ReapersOk(s.smp, task', s.jobOf, s.reapers)
  {
    hide HoldersOk, ReapersOk, ItemCountsOk, TaskClaimsOk, NamesOk, TaskTableOk;
    var g := s.submitters[a];
    assert SubmitterOk(g, s.smp, s.task);
    assert Pending(g) == g.t;
    HoldersNoSub(s.smp, s.task, s.runs, s.submitters, a);
    HoldersTask(s.smp, s.task, task', g.t, s.runs, s.submitters - {a});
    TasksSubs(s.smp, s.task, s.runs, s.submitters, s.submitters - {a}, s.invoked, s.completed, s.taskSubmits);
    TasksTask(s.smp, s.task, task', g.t, s.runs, s.submitters - {a}, s.invoked, s.completed, s.taskSubmits);
    SubmittersLeave(s.smp, s.task, task', s.submitters, a);
    RefusedUncarried(s, a);
    NamesSubs(s.smp, s.task, s.jobOf, s.submitters, s.submitters - {a}, a);
    NamesTask(s.smp, s.task, task', g.t, s.jobOf, s.submitters - {a});
    ReapersTask(s.smp, s.task, task', g.t, s.jobOf, s.reapers);
  }

  lemma GiveUpKeeps(s: State, a: nat)
    requires Inv(s) && TaskEnabled(s, GiveUp(a))
    ensures Inv(DoGiveUp(s, a))
  {
    hide TaskCountsOk, ReapersOk, ItemCountsOk, TaskClaimsOk, ClaimsOk, NamesOk, ExecsOk, TaskTableOk;
    var g := s.submitters[a];
    var task' := DoGiveUp(s, a).task;
    assert SubmitterOk(g, s.smp, s.task);
    assert s.task[g.t].state == Running by { assert Pending(g) == g.t; }
    GiveUpParts(s, a, task');
    GiveUpClaims(s, a, task');
    if g.async {
      TaskTableFree(s.task, g.t, s.nextTask, s.taskSubmits, s.jobOf);
    } else {
      TaskTableState(s.task, g.t, Queued, s.nextTask, s.taskSubmits, s.jobOf);
    }
  }

  lemma GiveUpClaims(s: State, a: nat, task': seq<TaskSlot>)
    requires Inv(s) && a in s.submitters && s.submitters[a].Refused? && OnlyTask(s.task, task', s.submitters[a].t)
    requires var t := s.submitters[a].t; task'[t] == FREE_TASK || task'[t] == s.task[t].(state := Queued)
    ensures TaskClaimsOk(task',
                         if task'[s.submitters[a].t] == FREE_TASK then s.taskClaims
                         else s.taskClaims + {s.submitters[a].tid},
                         s.taskWaiters, s.submitters - {a})
  {
    var g := s.submitters[a];
    assert SubmitterOk(g, s.smp, s.task);
    DistinctSubmissions(s, a);
    TaskClaimsReturn(s.task, s.taskClaims, s.taskWaiters, s.submitters, a);
    if task'[g.t] == FREE_TASK {
      forall b | b in s.taskWaiters
        ensures s.taskWaiters[b].id != 0 { assert TaskWaiterOk(s.taskWaiters[b], s.task, s.taskClaims); }
      TaskClaimsMove(s.task, task', g.t, s.taskClaims, s.taskWaiters, s.taskWaiters, s.submitters - {a});
    } else {
      TaskClaimsTask(s.task, task', g.t, s.taskClaims + {g.tid}, s.taskWaiters, s.submitters - {a});
    }
  }

  lemma TaskTableFree(task: seq<TaskSlot>, t: nat, next: Id, submits: nat, jobOf: map<Id, Id>)
    requires TaskTableOk(task, next, submits, jobOf) && t < |task|
    ensures TaskTableOk(task[t := FREE_TASK], next, submits, jobOf)
  {
  }

  // ---- Task execution ----------------------------------------------------------------------------------

  /** The task an agent holds. */
  lemma HeldTask(s: State, a: nat)
    requires Inv(s) && a in s.runs && Holds(s.runs[a]) >= 0
    ensures Holds(s.runs[a]) < |s.task|
    ensures var p := s.task[Holds(s.runs[a])]; p.state == Running && 0 < p.id <= s.taskSubmits && p.fn != 0
    ensures HolderOk(s.runs[a], s.task)
  {
    assert HolderOk(s.runs[a], s.task);
    assert TaskOk(s.task[Holds(s.runs[a])], s.taskSubmits, s.jobOf);
  }

  /** The agent goes on inside kernel_task_worker. */
  lemma WorkerGoesOn(s: State, a: nat, g: Run)
    requires Inv(s) && AtWorker(s, a) && g.Worker? && g.t == s.runs[a].t && g.via == s.runs[a].via
    requires HolderOk(g, s.task)
    ensures ExecsOk(s.smp, s.runs[a := g])
    ensures ItemCountsOk(s.smp, s.runs[a := g], s.began, s.ended, s.smpSubmits)
    ensures HoldersOk(s.smp, s.task, s.runs[a := g], s.submitters)
  {
    assert ExecOk(s.runs[a], s.smp);
    ExecsPhase(s.smp, s.runs, a, g);
    ItemsPhase(s.smp, s.runs, a, g, s.began, s.ended, s.smpSubmits);
    HoldersPhase(s.smp, s.task, s.runs, s.submitters, a, g);
  }

  lemma WorkerStartKeeps(s: State, a: nat)
    requires Inv(s) && WorkerEnabled(s, WorkerStart(a))
    ensures Inv(DoWorkerStart(s, a))
  {
    var g := s.runs[a];
    HeldTask(s, a);
    var p := s.task[g.t];
    assert Started(s.task, g.t) == s.task;
    var g' := g.(step := Holding(p.fn, p.arg, p.id));
    WorkerGoesOn(s, a, g');
    TasksPhase(s.smp, s.task, s.runs, s.submitters, a, g', s.invoked, s.completed, s.taskSubmits);
  }

  lemma WorkerCallKeeps(s: State, a: nat)
    requires Inv(s) && WorkerEnabled(s, WorkerCall(a))
    ensures Inv(DoWorkerCall(s, a))
  {
    hide TaskCountsOk, HoldersOk, ReapersOk, ItemCountsOk, TaskClaimsOk, ClaimsOk, NamesOk, SubmittersOk, ExecsOk,
         SmpTableOk;
    var g := s.runs[a];
    HeldTask(s, a);
    var g' := g.(step := InTask(g.step.id));
    WorkerGoesOn(s, a, g');
    TasksCall(s.smp, s.task, s.runs, s.submitters, a, g', s.invoked, s.completed, s.taskSubmits);
  }

  lemma WorkerReturnKeeps(s: State, a: nat)
    requires Inv(s) && WorkerEnabled(s, WorkerReturn(a))
    ensures Inv(DoWorkerReturn(s, a))
  {
    var g := s.runs[a];
    HeldTask(s, a);
    var g' := g.(step := Leaving);
    WorkerGoesOn(s, a, g');
    TasksReturn(s.smp, s.task, s.runs, s.submitters, a, g', s.invoked, s.completed, s.taskSubmits);
  }

  /** The parts of the invariant that only see a task's state change. */
  lemma TaskStateParts(s: State, t: nat, st: SlotState)
    requires Inv(s) && t < |s.task| && st != Free && (s.task[t].state == Running || s.task[t].state == Queued)
    ensures var task' := s.task[t := s.task[t].(state := st)];
            && TaskTableOk(task', s.nextTask, s.taskSubmits, s.jobOf)
            && SubmittersOk(s.smp, task', s.submitters)
            && NamesOk(s.smp, task', s.jobOf, s.submitters)
            && TaskClaimsOk(task', s.taskClaims, s.taskWaiters, s.submitters)
            && ReapersOk(s.smp, task', s.jobOf, s.reapers)
  {
    hide TaskCountsOk, HoldersOk, ReapersOk, ItemCountsOk, TaskClaimsOk, ClaimsOk, NamesOk, ExecsOk, TaskTableOk,
         SmpTableOk;
    var task' := s.task[t := s.task[t].(state := st)];
    TaskTableState(s.task, t, st, s.nextTask, s.taskSubmits, s.jobOf);
    forall a | a in s.submitters
      ensures SubmitterOk(s.submitters[a], s.smp, task') { assert SubmitterOk(s.submitters[a], s.smp, s.task); }
    NamesTask(s.smp, s.task, task', t, s.jobOf, s.submitters);
    TaskClaimsTask(s.task, task', t, s.taskClaims, s.taskWaiters, s.submitters);
    ReapersTask(s.smp, s.task, task', t, s.jobOf, s.reapers);
  }

  /** The task parts when its holder lets go of it. */
  lemma FinishTaskParts(s: State, a: nat, runs': map<nat, Run>)
    requires Inv(s) && AtWorker(s, a) && s.runs[a].step == Leaving
    requires runs' == s.runs - {a} || (a in runs' && Holds(runs'[a]) < 0 && runs' == s.runs[a := runs'[a]])
    ensures var task' := s.task[s.runs[a].t := s.task[s.runs[a].t].(state := Done)];
            && HoldersOk(s.smp, task', runs', s.submitters)
            && TaskCountsOk(s.smp, task', runs', s.submitters, s.invoked, s.completed, s.taskSubmits)
  {
    hide HoldersOk, ReapersOk, ItemCountsOk, TaskClaimsOk, ClaimsOk, NamesOk, SubmittersOk, ExecsOk, TaskTableOk,
         SmpTableOk;
    var t := s.runs[a].t;
    HeldTask(s, a);
    assert Ran(s.invoked, s.completed, s.task[t].id, 1, 1);
    var task' := s.task[t := s.task[t].(state := Done)];
    if runs' == s.runs - {a} {
      HoldersDrop(s.smp, s.task, s.runs, s.submitters, a);
    } else {
      HoldersPhase(s.smp, s.task, s.runs, s.submitters, a, runs'[a]);
    }
    TasksPhase(s.smp, s.task, s.runs, s.submitters, a, if a in runs' then runs'[a] else s.runs[a], s.invoked,
               s.completed, s.taskSubmits);
    HoldersTask(s.smp, s.task, task', t, runs', s.submitters);
    TasksTask(s.smp, s.task, task', t, runs', s.submitters, s.invoked, s.completed, s.taskSubmits);
  }

  lemma PolledFinishKeeps(s: State, a: nat)
    requires Inv(s) && WorkerEnabled(s, WorkerFinish(a)) && s.runs[a].via == ByPoll
    ensures Inv(DoWorkerFinish(s, a))
  {
    hide TaskCountsOk, HoldersOk, ReapersOk, ItemCountsOk, TaskClaimsOk, ClaimsOk, NamesOk, SubmittersOk, ExecsOk,
         TaskTableOk, SmpTableOk;
    HeldTask(s, a);
    TaskStateParts(s, s.runs[a].t, Done);
    FinishTaskParts(s, a, s.runs - {a});
    ExecsDropPoll(s.smp, s.runs, a);
    ItemsDrop(s.smp, s.runs, a, s.began, s.ended, s.smpSubmits);
  }

  lemma ItemFinishKeeps(s: State, a: nat)
    requires Inv(s) && WorkerEnabled(s, WorkerFinish(a)) && s.runs[a].via.BySmp?
    ensures Inv(DoWorkerFinish(s, a))
  {
    hide TaskCountsOk, HoldersOk, ReapersOk, ItemCountsOk, TaskClaimsOk, ClaimsOk, NamesOk, SubmittersOk, ExecsOk,
         TaskTableOk, SmpTableOk;
    var g := s.runs[a];
    var g' := Item(g.via.slot, g.via.id, TaskWorker(g.t), Returned);
    HeldTask(s, a);
    TaskStateParts(s, g.t, Done);
    FinishTaskParts(s, a, s.runs[a := g']);
    FinishItemParts(s, a, g');
  }

  lemma FinishItemParts(s: State, a: nat, g: Run)
    requires Inv(s) && AtWorker(s, a) && s.runs[a].via.BySmp?
    requires g == Item(s.runs[a].via.slot, s.runs[a].via.id, TaskWorker(s.runs[a].t), Returned)
    ensures ExecsOk(s.smp, s.runs[a := g])
    ensures ItemCountsOk(s.smp, s.runs[a := g], s.began, s.ended + multiset{g.id}, s.smpSubmits)
  {
    ExecutedItem(s, a);
    ExecsPhase(s.smp, s.runs, a, g);
    ItemsReturn(s.smp, s.runs, a, g, s.began, s.ended, s.smpSubmits);
  }

  lemma WorkerFinishKeeps(s: State, a: nat)
    requires Inv(s) && WorkerEnabled(s, WorkerFinish(a))
    ensures Inv(DoWorkerFinish(s, a))
  {
    if s.runs[a].via == ByPoll { PolledFinishKeeps(s, a); } else { ItemFinishKeeps(s, a); }
  }

  lemma PollHolders(s: State, t: nat, a: nat)
    requires Inv(s) && a !in s.runs && t < |s.task| && s.task[t].state == Queued
    ensures var (task', runs') := (s.task[t := s.task[t].(state := Running)], s.runs[a := Worker(t, ByPoll, Entering)]);
            && HoldersOk(s.smp, task', runs', s.submitters)
            && TaskCountsOk(s.smp, task', runs', s.submitters, s.invoked, s.completed, s.taskSubmits)
  {
    var task' := s.task[t := s.task[t].(state := Running)];
    NotRunningUnheld(s.smp, s.task, s.runs, s.submitters, t);
    HoldersTask(s.smp, s.task, task', t, s.runs, s.submitters);
    HoldersPoll(s.smp, task', s.runs, s.submitters, t, a);
    TasksTask(s.smp, s.task, task', t, s.runs, s.submitters, s.invoked, s.completed, s.taskSubmits);
    TasksPhase(s.smp, task', s.runs, s.submitters, a, Worker(t, ByPoll, Entering), s.invoked, s.completed,
               s.taskSubmits);
  }

  lemma PollKeeps(s: State, a: nat)
    requires Inv(s) && WorkerEnabled(s, Poll(a))
    ensures Inv(DoPoll(s, a))
  {
    hide TaskCountsOk, HoldersOk, ReapersOk, ItemCountsOk, TaskClaimsOk, ClaimsOk, NamesOk, SubmittersOk, ExecsOk,
         TaskTableOk, SmpTableOk;
    var t := FirstQueuedTask(s.task);
    if t == |s.task| { return; }
    PollHolders(s, t, a);
    TaskStateParts(s, t, Running);
    ExecsPhase(s.smp, s.runs, a, Worker(t, ByPoll, Entering));
    ItemsPhase(s.smp, s.runs, a, Worker(t, ByPoll, Entering), s.began, s.ended, s.smpSubmits);
  }

  // ---- Reaping and release -------------------------------------------------------------------------------

  lemma ReapReadKeeps(s: State, a: nat, t: nat)
    requires Inv(s) && ReapEnabled(s, ReapRead(a, t))
    ensures Inv(DoReapRead(s, a, t))
  {
    hide TaskCountsOk, HoldersOk, ReapersOk, ItemCountsOk, ExecsOk;
    if s.task[t].state == Done && s.task[t].smpId != 0 {
      var x := s.task[t].smpId;
      assert TaskOk(s.task[t], s.taskSubmits, s.jobOf);
      assert ReaperOk(Reaper(t, x, Seen), s.smp, s.task, s.jobOf) by {
        forall i | 0 <= i < |s.smp| && s.smp[i].id == x ensures s.smp[i].work == TaskWorker(t) {
          assert SlotOk(s.smp[i], s.smpSubmits, s.jobOf, |s.task|);
          assert Named(s.smp[i], s.task, s.jobOf, s.submitters);
        }
      }
      ReapersMove(s.smp, s.task, s.jobOf, s.reapers, s.reapers[a := Reaper(t, x, Seen)], a);
    }
  }

  /** What smp_work_done found DONE stays DONE until it is freed. */
  lemma ReaperPolls(g: Reaper, smp: seq<SmpSlot>, task: seq<TaskSlot>, jobOf: map<Id, Id>)
    requires ReaperOk(g, smp, task, jobOf) && g.phase == Seen && DistinctIds(smp) && WorkDone(smp, g.smpId)
    ensures ReaperOk(g.(phase := Polling), smp, task, jobOf)
  {
    DoneMeansDone(smp, g.smpId);
  }

  lemma ReapCheckKeeps(s: State, a: nat)
    requires Inv(s) && ReapEnabled(s, ReapCheck(a))
    ensures Inv(DoReapCheck(s, a))
  {
    ReapersCheck(s.smp, s.task, s.jobOf, s.reapers, a);
  }

  lemma ReapersCheck(smp: seq<SmpSlot>, task: seq<TaskSlot>, jobOf: map<Id, Id>, reapers: map<nat, Reaper>, a: nat)
    requires ReapersOk(smp, task, jobOf, reapers) && DistinctIds(smp) && a in reapers && reapers[a].phase == Seen
    ensures WorkDone(smp, reapers[a].smpId) ==> ReapersOk(smp, task, jobOf, reapers[a := reapers[a].(phase := Polling)])
    ensures ReapersOk(smp, task, jobOf, reapers - {a})
  {
    var g := reapers[a];
    if WorkDone(smp, g.smpId) {
      ReaperPolls(g, smp, task, jobOf);
      ReapersMove(smp, task, jobOf, reapers, reapers[a := g.(phase := Polling)], a);
    }
    ReapersMove(smp, task, jobOf, reapers, reapers - {a}, a);
  }

  lemma ReapPollKeeps(s: State, a: nat)
    requires Inv(s) && ReapEnabled(s, ReapPoll(a))
    ensures Inv(DoReapPoll(s, a))
  {
    hide TaskCountsOk, HoldersOk, ItemCountsOk, NamesOk, ExecsOk, SmpTableOk;
    var g := s.reapers[a];
    assert ReaperOk(g, s.smp, s.task, s.jobOf);
    if WorkDone(s.smp, g.smpId) {
      ReapersMove(s.smp, s.task, s.jobOf, s.reapers, s.reapers[a := g.(phase := Freeing)], a);
    }
  }

  lemma ReapFreeKeeps(s: State, a: nat)
    requires Inv(s) && ReapEnabled(s, ReapFree(a))
    ensures Inv(DoReapFree(s, a))
  {
    hide TaskCountsOk, HoldersOk, ItemCountsOk, TaskClaimsOk, ClaimsOk, NamesOk, SubmittersOk, ExecsOk;
    var g := s.reapers[a];
    assert ReaperOk(g, s.smp, s.task, s.jobOf);
    if !Live(s.smp, g.smpId) {
      assert Released(s.smp, g.smpId) == s.smp;
      ReapersMove(s.smp, s.task, s.jobOf, s.reapers, s.reapers[a := g.(phase := Clearing)], a);
      return;
    }
    var i := ReleasedSlot(s.smp, g.smpId);
    ReapFreeParts(s, a, i);
    ReapersFree(s.smp, i, s.task, s.jobOf, s.reapers, a);
  }

  /** A reaped item is nobody else's business. */
  lemma ReapFreeParts(s: State, a: nat, i: nat)
    requires Inv(s) && a in s.reapers && i < |s.smp| && s.smp[i].id == s.reapers[a].smpId && s.smp[i].state == Done
    ensures var smp' := s.smp[i := FREE_SMP];
            && SmpTableOk(smp', s.nextSmp, s.smpSubmits, s.jobOf, |s.task|)
            && ExecsOk(smp', s.runs)
            && ItemCountsOk(smp', s.runs, s.began, s.ended, s.smpSubmits)
            && ClaimsOk(smp', s.smpClaims, s.waiters)
            && HoldersOk(smp', s.task, s.runs, s.submitters)
            && TaskCountsOk(smp', s.task, s.runs, s.submitters, s.invoked, s.completed, s.taskSubmits)
            && SubmittersOk(smp', s.task, s.submitters)
            && NamesOk(smp', s.task, s.jobOf, s.submitters)
  {
    var g := s.reapers[a];
    assert ReaperOk(g, s.smp, s.task, s.jobOf);
    assert SlotOk(s.smp[i], s.smpSubmits, s.jobOf, |s.task|);
    NoSubmitterReaped(s, a, i);
    OtherSlotParts(s, s.smp[i := FREE_SMP], i);
    TableFree(s.smp, i, s.nextSmp, s.smpSubmits, s.jobOf, |s.task|);
    ItemsFree(s.smp, i, s.runs, s.began, s.ended, s.smpSubmits);
    NoClientReaped(s, i);
    ClaimsFree(s.smp, i, s.smpClaims, s.waiters, s.waiters);
  }

  lemma NoSubmitterReaped(s: State, a: nat, i: nat)
    requires Inv(s) && a in s.reapers && i < |s.smp| && s.smp[i].id == s.reapers[a].smpId
    ensures forall b :: b in s.submitters && s.submitters[b].HandedOver? ==> s.submitters[b].smpId != s.smp[i].id
  {
    assert ReaperOk(s.reapers[a], s.smp, s.task, s.jobOf);
    forall b | b in s.submitters && s.submitters[b].HandedOver? ensures s.submitters[b].smpId != s.smp[i].id {
      assert SubmitterOk(s.submitters[b], s.smp, s.task);
    }
  }

  /** Clients only ever hold the ids of plain items. */
  lemma NoClientReaped(s: State, i: nat)
    requires Inv(s) && i < |s.smp| && s.smp[i].work.TaskWorker?
    ensures s.smp[i].id !in s.smpClaims
    ensures forall b :: b in s.waiters ==> s.waiters[b].id != s.smp[i].id
  {
    assert SlotOk(s.smp[i], s.smpSubmits, s.jobOf, |s.task|);
    forall b | b in s.waiters ensures s.waiters[b].id != s.smp[i].id {
      assert WaiterOk(s.waiters[b], s.smp, s.smpClaims);
    }
  }

  lemma ReapClearKeeps(s: State, a: nat)
    requires Inv(s) && ReapEnabled(s, ReapClear(a))
    ensures Inv(DoReapClear(s, a))
  {
    var g := s.reapers[a];
    var task' := SmpIdCleared(s.task, g.t, g.smpId);
    assert ReaperOk(g, s.smp, s.task, s.jobOf);
    ReapersClear(s.smp, s.task, s.jobOf, s.reapers, a);
    if s.task[g.t].smpId == g.smpId { ClearParts(s, g.t, task'); }
  }

  lemma ClearParts(s: State, t: nat, task': seq<TaskSlot>)
    requires Inv(s) && t < |s.task| && s.task[t].smpId != 0 && task' == s.task[t := s.task[t].(smpId := 0)]
    requires forall i :: 0 <= i < |s.smp| ==> s.smp[i].id != s.task[t].smpId
    ensures TaskTableOk(task', s.nextTask, s.taskSubmits, s.jobOf)
    ensures HoldersOk(s.smp, task', s.runs, s.submitters)
    ensures TaskCountsOk(s.smp, task', s.runs, s.submitters, s.invoked, s.completed, s.taskSubmits)
    ensures SubmittersOk(s.smp, task', s.submitters)
    ensures NamesOk(s.smp, task', s.jobOf, s.submitters)
    ensures TaskClaimsOk(task', s.taskClaims, s.taskWaiters, s.submitters)
  {
    hide HoldersOk, ReapersOk, ItemCountsOk, TaskClaimsOk, ClaimsOk, NamesOk, TaskTableOk, SmpTableOk;
    TaskTableRef(s.task, t, 0, s.nextTask, s.taskSubmits, s.jobOf);
    HoldersTask(s.smp, s.task, task', t, s.runs, s.submitters);
    TasksTask(s.smp, s.task, task', t, s.runs, s.submitters, s.invoked, s.completed, s.taskSubmits);
    forall b | b in s.submitters
      ensures SubmitterOk(s.submitters[b], s.smp, task') { assert SubmitterOk(s.submitters[b], s.smp, s.task); }
    ClearUnnamed(s, t);
    NamesTask(s.smp, s.task, task', t, s.jobOf, s.submitters);
    TaskClaimsTask(s.task, task', t, s.taskClaims, s.taskWaiters, s.submitters);
  }

  /** A task that names a freed item is carried by no slot. */
  lemma ClearUnnamed(s: State, t: nat)
    requires Inv(s) && t < |s.task| && s.task[t].smpId != 0
    requires forall i :: 0 <= i < |s.smp| ==> s.smp[i].id != s.task[t].smpId
    ensures forall i :: 0 <= i < |s.smp| ==> s.smp[i].work != TaskWorker(t)
  {
    forall b | b in s.submitters ensures s.submitters[b].t != t { assert SubmitterOk(s.submitters[b], s.smp, s.task); }
    forall i | 0 <= i < |s.smp| ensures s.smp[i].work != TaskWorker(t) {
      assert Named(s.smp[i], s.task, s.jobOf, s.submitters);
    }
  }

  lemma TaskClaimTaken(task: seq<TaskSlot>, claims: set<Id>, waiters: map<nat, Waiter>, subs: map<nat, Submitter>,
                       a: nat, x: Id)
    requires TaskClaimsOk(task, claims, waiters, subs) && a !in waiters && x in claims
    ensures TaskClaimsOk(task, claims - {x}, waiters[a := Waiting(x)], subs)
  {
    forall b | b in waiters ensures waiters[b].id != x && TaskWaiterOk(waiters[b], task, claims - {x}) {
      assert TaskWaiterOk(waiters[b], task, claims);
    }
  }

  lemma StartTaskWaitKeeps(s: State, a: nat, tid: Id)
    requires Inv(s) && TaskEnabled(s, StartTaskWait(a, tid))
    ensures Inv(DoStartTaskWait(s, a, tid))
  {
    TaskClaimTaken(s.task, s.taskClaims, s.taskWaiters, s.submitters, a, tid);
  }

  lemma TaskClaimReady(task: seq<TaskSlot>, claims: set<Id>, waiters: map<nat, Waiter>, subs: map<nat, Submitter>,
                       a: nat)
    requires TaskClaimsOk(task, claims, waiters, subs) && a in waiters && DistinctTaskIds(task)
      && TaskDone(task, waiters[a].id)
    ensures TaskClaimsOk(task, claims, waiters[a := Releasing(waiters[a].id)], subs)
  {
    assert TaskWaiterOk(waiters[a], task, claims);
    var waiters' := waiters[a := Releasing(waiters[a].id)];
    forall b | b in waiters' ensures TaskWaiterOk(waiters'[b], task, claims) {
      if b != a { assert TaskWaiterOk(waiters[b], task, claims); }
    }
  }

  lemma PollTaskWaitKeeps(s: State, a: nat)
    requires Inv(s) && TaskEnabled(s, PollTaskWait(a))
    ensures Inv(DoPollTaskWait(s, a))
  {
    if TaskDone(s.task, s.taskWaiters[a].id) {
      TaskClaimReady(s.task, s.taskClaims, s.taskWaiters, s.submitters, a);
    }
  }

  /** A finished task that names no item, and is not being submitted, is carried by no slot. */
  lemma ReleasableUncarried(s: State, a: nat, t: nat)
    requires Inv(s) && a in s.taskWaiters && t < |s.task| && s.task[t].id == s.taskWaiters[a].id && s.task[t].smpId == 0
    ensures forall i :: 0 <= i < |s.smp| ==> s.smp[i].work != TaskWorker(t)
    ensures forall b :: b in s.submitters ==> s.submitters[b].t != t
  {
    OccupiedIds(s);
    forall b | b in s.submitters ensures s.submitters[b].t != t { assert SubmitterOk(s.submitters[b], s.smp, s.task); }
    forall i | 0 <= i < |s.smp| ensures s.smp[i].work != TaskWorker(t) {
      assert Named(s.smp[i], s.task, s.jobOf, s.submitters);
    }
  }

  /** kernel_task_release finds the one slot with that id. */
  lemma ReleasedTask(task: seq<TaskSlot>, id: Id) returns (t: nat)
    requires DistinctTaskIds(task) && id != 0 && LiveTask(task, id)
    requires forall u :: 0 <= u < |task| && task[u].id == id ==> task[u].state == Done
    ensures t < |task| && task[t].id == id && task[t].state == Done
    ensures TaskReleased(task, id) == task[t := FREE_TASK]
    ensures !LiveTask(TaskReleased(task, id), id)
  {
    t :| 0 <= t < |task| && task[t].id == id;
    assert FirstDoneTaskWithId(task, id) == t;
    assert forall u :: 0 <= u < |task| && u != t ==> task[u].id != id;
  }

  lemma TaskReleaseKeeps(s: State, a: nat)
    requires Inv(s) && TaskEnabled(s, TaskRelease(a))
    ensures Inv(DoTaskRelease(s, a))
  {
    hide TaskCountsOk, HoldersOk, ReapersOk, ItemCountsOk, ExecsOk;
    var g := s.taskWaiters[a];
    assert TaskWaiterOk(g, s.task, s.taskClaims);
    var t := ReleasedTask(s.task, g.id);
    ReleaseParts(s, a, t);
    TaskTableFree(s.task, t, s.nextTask, s.taskSubmits, s.jobOf);
    forall b | b in s.taskWaiters
      ensures s.taskWaiters[b].id != 0 { assert TaskWaiterOk(s.taskWaiters[b], s.task, s.taskClaims); }
    TaskClaimsMove(s.task, s.task[t := FREE_TASK], t, s.taskClaims, s.taskWaiters, s.taskWaiters - {a}, s.submitters);
  }

  lemma ReleaseParts(s: State, a: nat, t: nat)
    requires Inv(s) && a in s.taskWaiters && t < |s.task| && s.task[t].id == s.taskWaiters[a].id
    requires s.task[t].state == Done && s.task[t].smpId == 0
    ensures var task' := s.task[t := FREE_TASK];
            && HoldersOk(s.smp, task', s.runs, s.submitters)
            && TaskCountsOk(s.smp, task', s.runs, s.submitters, s.invoked, s.completed, s.taskSubmits)
            && SubmittersOk(s.smp, task', s.submitters)
            && NamesOk(s.smp, task', s.jobOf, s.submitters)
            && ReapersOk(s.smp, task', s.jobOf, s.reapers)
  {
    var task' := s.task[t := FREE_TASK];
    NotRunningUnheld(s.smp, s.task, s.runs, s.submitters, t);
    HoldersTask(s.smp, s.task, task', t, s.runs, s.submitters);
    TasksTask(s.smp, s.task, task', t, s.runs, s.submitters, s.invoked, s.completed, s.taskSubmits);
    ReleasableUncarried(s, a, t);
    forall b | b in s.submitters
      ensures SubmitterOk(s.submitters[b], s.smp, task') { assert SubmitterOk(s.submitters[b], s.smp, s.task); }
    NamesTask(s.smp, s.task, task', t, s.jobOf, s.submitters);
    ReapersTask(s.smp, s.task, task', t, s.jobOf, s.reapers);
  }

  // ---- All steps -------------------------------------------------------------------------------------------

  lemma SmpStepKeeps(s: State, step: SmpStep)
    requires Inv(s) && SmpEnabled(s, step) && NoWrap(NextSmp(s, step))
    ensures Inv(NextSmp(s, step))
  {
    hide TaskCountsOk, HoldersOk, ReapersOk, ItemCountsOk, TaskClaimsOk, ClaimsOk, NamesOk, SubmittersOk, ExecsOk,
         TaskTableOk, SmpTableOk;
    match step
    case SubmitPlain(fn, arg, online) => SubmitPlainKeeps(s, fn, arg, online);
    case Take(a) => TakeKeeps(s, a);
    case Call(a) => CallKeeps(s, a);
    case Return(a) => ReturnKeeps(s, a);
    case StoreDone(a) => StoreDoneKeeps(s, a);
    case StartWait(a, wid) => StartWaitKeeps(s, a, wid);
    case PollWait(a) => PollWaitKeeps(s, a);
    case Release(a) => ReleaseKeeps(s, a);
  }

  lemma TaskStepKeeps(s: State, step: TaskStep)
    requires Inv(s) && TaskEnabled(s, step) && NoWrap(NextTask(s, step))
    ensures Inv(NextTask(s, step))
  {
    hide TaskCountsOk, HoldersOk, ReapersOk, ItemCountsOk, TaskClaimsOk, ClaimsOk, NamesOk, SubmittersOk, ExecsOk,
         TaskTableOk, SmpTableOk;
    match step
    case TaskSubmit(a, fn, arg, async, online) => TaskSubmitKeeps(s, a, fn, arg, async, online);
    case HandOver(a, online) => HandOverKeeps(s, a, online);
    case StoreSmpId(a) => StoreSmpIdKeeps(s, a);
    case GiveUp(a) => GiveUpKeeps(s, a);
    case StartTaskWait(a, tid) => StartTaskWaitKeeps(s, a, tid);
    case PollTaskWait(a) => PollTaskWaitKeeps(s, a);
    case TaskRelease(a) => TaskReleaseKeeps(s, a);
  }

  lemma WorkerStepKeeps(s: State, step: WorkerStep)
    requires Inv(s) && WorkerEnabled(s, step)
    ensures Inv(NextWorker(s, step))
  {
    match step
    case WorkerStart(a) => WorkerStartKeeps(s, a);
    case WorkerCall(a) => WorkerCallKeeps(s, a);
    case WorkerReturn(a) => WorkerReturnKeeps(s, a);
    case WorkerFinish(a) => WorkerFinishKeeps(s, a);
    case Poll(a) => PollKeeps(s, a);
  }

  lemma ReapStepKeeps(s: State, step: ReapStep)
    requires Inv(s) && ReapEnabled(s, step)
    ensures Inv(NextReap(s, step))
  {
    hide TaskCountsOk, HoldersOk, ReapersOk, ItemCountsOk, TaskClaimsOk, ClaimsOk, NamesOk, SubmittersOk, ExecsOk,
         TaskTableOk, SmpTableOk;
    match step
    case ReapRead(a, t) => ReapReadKeeps(s, a, t);
    case ReapCheck(a) => ReapCheckKeeps(s, a);
    case ReapPoll(a) => ReapPollKeeps(s, a);
    case ReapFree(a) => ReapFreeKeeps(s, a);
    case ReapClear(a) => ReapClearKeeps(s, a);
  }

  lemma StepKeeps(s: State, step: Step)
    requires Inv(s) && Enabled(s, step) && NoWrap(Next(s, step))
    ensures Inv(Next(s, step))
  {
    match step
    case OfSmp(x) => SmpStepKeeps(s, x);
    case OfTask(x) => TaskStepKeeps(s, x);
    case OfWorker(x) => WorkerStepKeeps(s, x);
    case OfReap(x) => ReapStepKeeps(s, x);
  }
}
