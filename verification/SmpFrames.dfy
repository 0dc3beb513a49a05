/**
 What one change of a slot or of an agent does to each part of the invariant.
 */
module SmpFrames {
  import opened SmpTables
  import opened SmpMachine
  import opened SmpInvariant

  ghost predicate Only(smp: seq<SmpSlot>, smp': seq<SmpSlot>, i: nat)
  {
    |smp'| == |smp| && i < |smp| && forall j :: 0 <= j < |smp| && j != i ==> smp'[j] == smp[j]
  }

  /** A live id stays live unless it is the one replaced. */
  lemma LiveMoves(smp: seq<SmpSlot>, smp': seq<SmpSlot>, i: nat)
    requires Only(smp, smp', i)
    ensures forall x: Id :: Live(smp', x) ==> Live(smp, x) || smp'[i].id == x
    ensures forall x: Id :: Live(smp, x) && (smp[i].id == x ==> smp'[i].id == x) ==> Live(smp', x)
    ensures forall x: Id ::
      LivePlain(smp, x) && (smp[i].id == x ==> smp'[i].id == x && smp'[i].work == smp[i].work) ==> LivePlain(smp', x)
    ensures forall x: Id, t ::
      LiveFor(smp, x, t) && (smp[i].id == x ==> smp'[i].id == x && smp'[i].work == smp[i].work) ==> LiveFor(smp', x, t)
  {
    forall x: Id | Live(smp', x) ensures Live(smp, x) || smp'[i].id == x {
      var j :| 0 <= j < |smp'| && smp'[j].id == x;
      if j != i { assert smp[j].id == x; }
    }
    forall x: Id | Live(smp, x) && (smp[i].id == x ==> smp'[i].id == x) ensures Live(smp', x) {
      var j :| 0 <= j < |smp| && smp[j].id == x;
      assert smp'[j].id == x;
    }
    forall x: Id | LivePlain(smp, x) && (smp[i].id == x ==> smp'[i].id == x && smp'[i].work == smp[i].work)
      ensures LivePlain(smp', x) {
      var j :| 0 <= j < |smp| && smp[j].id == x && smp[j].work.Plain?;
      assert smp'[j].id == x;
    }
    forall x: Id, t | LiveFor(smp, x, t) && (smp[i].id == x ==> smp'[i].id == x && smp'[i].work == smp[i].work)
      ensures LiveFor(smp', x, t) {
      var j :| 0 <= j < |smp| && smp[j].id == x && smp[j].work == TaskWorker(t);
      assert smp'[j].id == x;
    }
  }

  // ---- Execution ---------------------------------------------------------------------------------

  /** Slot i is not RUNNING before and not after. */
  lemma ExecsIdle(smp: seq<SmpSlot>, smp': seq<SmpSlot>, i: nat, runs: map<nat, Run>)
    requires ExecsOk(smp, runs) && Only(smp, smp', i)
    requires smp[i].state != Running && smp'[i].state != Running
    ensures ExecsOk(smp', runs)
  {
  }

  lemma ExecsTake(smp: seq<SmpSlot>, i: nat, runs: map<nat, Run>, a: nat)
    requires ExecsOk(smp, runs) && i < |smp| && smp[i].state == Queued && a !in runs
    ensures ExecsOk(smp[i := smp[i].(state := Running)], runs[a := Item(i, smp[i].id, smp[i].work, Taken)])
  {
    var smp' := smp[i := smp[i].(state := Running)];
    var runs' := runs[a := Item(i, smp[i].id, smp[i].work, Taken)];
    forall j | 0 <= j < |smp'| && smp'[j].state == Running ensures HasExecutor(runs', j) {
      if j == i { assert OnSlot(runs'[a]) == i; } else {
        assert smp[j].state == Running;
        var b :| b in runs && OnSlot(runs[b]) == j;
        assert OnSlot(runs'[b]) == j;
      }
    }
  }

  /** The agent goes on with the same item, or with none. */
  lemma ExecsPhase(smp: seq<SmpSlot>, runs: map<nat, Run>, a: nat, g: Run)
    requires ExecsOk(smp, runs)
    requires if a in runs then OnSlot(g) == OnSlot(runs[a]) else OnSlot(g) < 0
    requires ExecOk(g, smp)
    ensures ExecsOk(smp, runs[a := g])
  {
    var runs' := runs[a := g];
    forall j | 0 <= j < |smp| && smp[j].state == Running ensures HasExecutor(runs', j) {
      var b :| b in runs && OnSlot(runs[b]) == j;
      assert OnSlot(runs'[b]) == j;
    }
  }

  lemma ExecsDropPoll(smp: seq<SmpSlot>, runs: map<nat, Run>, a: nat)
    requires ExecsOk(smp, runs) && a in runs && OnSlot(runs[a]) < 0
    ensures ExecsOk(smp, runs - {a})
  {
    var runs' := runs - {a};
    forall j | 0 <= j < |smp| && smp[j].state == Running ensures HasExecutor(runs', j) {
      var b :| b in runs && OnSlot(runs[b]) == j;
      assert b in runs' && OnSlot(runs'[b]) == j;
    }
  }

  lemma ExecsStore(smp: seq<SmpSlot>, runs: map<nat, Run>, a: nat)
    requires ExecsOk(smp, runs) && a in runs && OnSlot(runs[a]) >= 0
    ensures OnSlot(runs[a]) < |smp|
    ensures ExecsOk(smp[OnSlot(runs[a]) := smp[OnSlot(runs[a])].(state := Done)], runs - {a})
  {
    var i := OnSlot(runs[a]);
    assert ExecOk(runs[a], smp);
    var smp' := smp[i := smp[i].(state := Done)];
    var runs' := runs - {a};
    forall j | 0 <= j < |smp'| && smp'[j].state == Running ensures HasExecutor(runs', j) {
      assert smp[j].state == Running;
      var b :| b in runs && OnSlot(runs[b]) == j;
      assert b in runs' && OnSlot(runs'[b]) == j;
    }
  }

  // ---- Call counts of items ------------------------------------------------------------------------

  lemma ItemsSubmit(smp: seq<SmpSlot>, i: nat, id: Id, work: Work, runs: map<nat, Run>,
                    began: multiset<Id>, ended: multiset<Id>, submits: nat)
    requires ItemCountsOk(smp, runs, began, ended, submits)
    requires i < |smp| && smp[i] == FREE_SMP && id == submits + 1
    ensures ItemCountsOk(smp[i := SmpSlot(Queued, id, work)], runs, began, ended, submits + 1)
  {
    var smp' := smp[i := SmpSlot(Queued, id, work)];
    LiveMoves(smp, smp', i);
    assert smp'[i].id == id;
    assert Live(smp', id);
  }

  lemma ItemsTake(smp: seq<SmpSlot>, i: nat, runs: map<nat, Run>, a: nat,
                  began: multiset<Id>, ended: multiset<Id>, submits: nat)
    requires ItemCountsOk(smp, runs, began, ended, submits)
    requires i < |smp| && smp[i].state == Queued && a !in runs
    ensures ItemCountsOk(smp[i := smp[i].(state := Running)],
                         runs[a := Item(i, smp[i].id, smp[i].work, Taken)], began, ended, submits)
  {
    LiveMoves(smp, smp[i := smp[i].(state := Running)], i);
  }

  /** Nothing is called and nothing returns. */
  lemma ItemsPhase(smp: seq<SmpSlot>, runs: map<nat, Run>, a: nat, g: Run,
                   began: multiset<Id>, ended: multiset<Id>, submits: nat)
    requires ItemCountsOk(smp, runs, began, ended, submits)
    requires OnSlot(g) >= 0 ==>
      a in runs && OnSlot(runs[a]) >= 0 && ItemId(g) == ItemId(runs[a]) && Begun(g) == Begun(runs[a])
      && Ended(g) == Ended(runs[a])
    ensures ItemCountsOk(smp, runs[a := g], began, ended, submits)
  {
  }

  lemma ItemsDrop(smp: seq<SmpSlot>, runs: map<nat, Run>, a: nat,
                  began: multiset<Id>, ended: multiset<Id>, submits: nat)
    requires ItemCountsOk(smp, runs, began, ended, submits)
    ensures ItemCountsOk(smp, runs - {a}, began, ended, submits)
  {
  }

  /** The ids of distinct executions are distinct, and none is queued, done or gone. */
  lemma ExecutedIds(smp: seq<SmpSlot>, runs: map<nat, Run>, a: nat)
    requires ExecsOk(smp, runs) && DistinctIds(smp) && a in runs && OnSlot(runs[a]) >= 0
    requires ItemId(runs[a]) != 0
    ensures Live(smp, ItemId(runs[a]))
    ensures forall b :: b in runs && b != a && OnSlot(runs[b]) >= 0 ==> ItemId(runs[b]) != ItemId(runs[a])
    ensures forall i :: 0 <= i < |smp| && smp[i].state != Running ==> smp[i].id != ItemId(runs[a])
  {
    assert ExecOk(runs[a], smp);
    assert smp[OnSlot(runs[a])].id == ItemId(runs[a]);
    forall b | b in runs && b != a && OnSlot(runs[b]) >= 0 ensures ItemId(runs[b]) != ItemId(runs[a]) {
      assert ExecOk(runs[b], smp);
      assert OnSlot(runs[b]) != OnSlot(runs[a]);
      assert smp[OnSlot(runs[b])].id == ItemId(runs[b]);
    }
  }

  lemma ItemsCall(smp: seq<SmpSlot>, runs: map<nat, Run>, a: nat, g: Run,
                  began: multiset<Id>, ended: multiset<Id>, submits: nat)
    requires ItemCountsOk(smp, runs, began, ended, submits)
    requires ExecsOk(smp, runs) && DistinctIds(smp) && a in runs && OnSlot(runs[a]) >= 0
    requires 0 < ItemId(runs[a]) <= submits
    requires OnSlot(g) >= 0 && ItemId(g) == ItemId(runs[a])
    requires Begun(runs[a]) == 0 && Begun(g) == 1 && Ended(g) == Ended(runs[a])
    ensures ItemCountsOk(smp, runs[a := g], began + multiset{ItemId(g)}, ended, submits)
  {
    ExecutedIds(smp, runs, a);
    var x0 := ItemId(g);
    assert Ran(began, ended, x0, Begun(runs[a]), Ended(runs[a]));
    var (m, n) := (began + multiset{ItemId(g)}, ended);
    assert forall x: Id :: x != x0 ==> m[x] == began[x] && n[x] == ended[x];
    var runs' := runs[a := g];
    forall b | b in runs' && OnSlot(runs'[b]) >= 0
      ensures Ran(m, n, ItemId(runs'[b]), Begun(runs'[b]), Ended(runs'[b]))
    {
      if b != a { assert Ran(began, ended, ItemId(runs[b]), Begun(runs[b]), Ended(runs[b])); }
    }
  }

  lemma ItemsReturn(smp: seq<SmpSlot>, runs: map<nat, Run>, a: nat, g: Run,
                    began: multiset<Id>, ended: multiset<Id>, submits: nat)
    requires ItemCountsOk(smp, runs, began, ended, submits)
    requires ExecsOk(smp, runs) && DistinctIds(smp) && a in runs && OnSlot(runs[a]) >= 0
    requires 0 < ItemId(runs[a]) <= submits
    requires OnSlot(g) >= 0 && ItemId(g) == ItemId(runs[a])
    requires Ended(runs[a]) == 0 && Ended(g) == 1 && Begun(g) == Begun(runs[a])
    ensures ItemCountsOk(smp, runs[a := g], began, ended + multiset{ItemId(g)}, submits)
  {
    ExecutedIds(smp, runs, a);
    var x0 := ItemId(g);
    assert Ran(began, ended, x0, Begun(runs[a]), Ended(runs[a]));
    var (m, n) := (began, ended + multiset{ItemId(g)});
    assert forall x: Id :: x != x0 ==> m[x] == began[x] && n[x] == ended[x];
    var runs' := runs[a := g];
    forall b | b in runs' && OnSlot(runs'[b]) >= 0
      ensures Ran(m, n, ItemId(runs'[b]), Begun(runs'[b]), Ended(runs'[b]))
    {
      if b != a { assert Ran(began, ended, ItemId(runs[b]), Begun(runs[b]), Ended(runs[b])); }
    }
  }

  lemma ItemsStore(smp: seq<SmpSlot>, runs: map<nat, Run>, a: nat,
                   began: multiset<Id>, ended: multiset<Id>, submits: nat)
    requires ItemCountsOk(smp, runs, began, ended, submits) && ExecsOk(smp, runs)
    requires a in runs && runs[a].Item? && runs[a].phase == Returned && runs[a].slot < |smp|
    ensures ItemCountsOk(smp[runs[a].slot := smp[runs[a].slot].(state := Done)], runs - {a}, began, ended, submits)
  {
    assert ExecOk(runs[a], smp);
    assert OnSlot(runs[a]) >= 0;
    LiveMoves(smp, smp[runs[a].slot := smp[runs[a].slot].(state := Done)], runs[a].slot);
  }

  lemma ItemsFree(smp: seq<SmpSlot>, i: nat, runs: map<nat, Run>,
                  began: multiset<Id>, ended: multiset<Id>, submits: nat)
    requires ItemCountsOk(smp, runs, began, ended, submits)
    requires i < |smp| && smp[i].state == Done && DistinctIds(smp)
    ensures ItemCountsOk(smp[i := FREE_SMP], runs, began, ended, submits)
  {
    LiveMoves(smp, smp[i := FREE_SMP], i);
  }

  // ---- Claims on SMP ids ---------------------------------------------------------------------------

  /** A slot keeps its id and work, and stays DONE if it was. */
  lemma ClaimsState(smp: seq<SmpSlot>, smp': seq<SmpSlot>, i: nat, claims: set<Id>, waiters: map<nat, Waiter>)
    requires ClaimsOk(smp, claims, waiters) && Only(smp, smp', i)
    requires smp'[i].id == smp[i].id && smp'[i].work == smp[i].work && smp[i].state != Done
    ensures ClaimsOk(smp', claims, waiters)
  {
    LiveMoves(smp, smp', i);
    forall a | a in waiters ensures WaiterOk(waiters[a], smp', claims) {
      assert WaiterOk(waiters[a], smp, claims);
    }
  }

  /** A free slot takes a fresh id. */
  lemma ClaimsSubmit(smp: seq<SmpSlot>, i: nat, p: SmpSlot, claims: set<Id>, waiters: map<nat, Waiter>)
    requires ClaimsOk(smp, claims, waiters) && i < |smp| && smp[i].id == 0
    requires p.id != 0 && !Live(smp, p.id)
    ensures ClaimsOk(smp[i := p], claims, waiters)
    ensures p.work.Plain? ==> ClaimsOk(smp[i := p], claims + {p.id}, waiters)
  {
    var smp' := smp[i := p];
    LiveMoves(smp, smp', i);
    assert smp'[i] == p;
    forall a | a in waiters ensures WaiterOk(waiters[a], smp', claims) && waiters[a].id != p.id {
      assert WaiterOk(waiters[a], smp, claims);
    }
  }

  /** A slot is freed: by its waiter, or one no client waits for. */
  lemma ClaimsFree(smp: seq<SmpSlot>, i: nat, claims: set<Id>, waiters: map<nat, Waiter>, waiters': map<nat, Waiter>)
    requires ClaimsOk(smp, claims, waiters) && i < |smp| && smp[i].id != 0 && DistinctIds(smp)
    requires forall a :: a in waiters' ==> a in waiters && waiters'[a] == waiters[a] && waiters[a].id != smp[i].id
    requires smp[i].id !in claims
    ensures ClaimsOk(smp[i := FREE_SMP], claims, waiters')
  {
    var smp' := smp[i := FREE_SMP];
    LiveMoves(smp, smp', i);
    forall a | a in waiters' ensures WaiterOk(waiters'[a], smp', claims) {
      assert WaiterOk(waiters[a], smp, claims);
    }
  }

  // ---- Task table ------------------------------------------------------------------------------------

  ghost predicate OnlyTask(task: seq<TaskSlot>, task': seq<TaskSlot>, t: nat)
  {
    |task'| == |task| && t < |task| && forall u :: 0 <= u < |task| && u != t ==> task'[u] == task[u]
  }

  lemma LiveTaskMoves(task: seq<TaskSlot>, task': seq<TaskSlot>, t: nat)
    requires OnlyTask(task, task', t)
    ensures forall x: Id :: LiveTask(task', x) ==> LiveTask(task, x) || task'[t].id == x
    ensures forall x: Id :: LiveTask(task, x) && (task[t].id == x ==> task'[t].id == x) ==> LiveTask(task', x)
  {
    forall x: Id | LiveTask(task', x) ensures LiveTask(task, x) || task'[t].id == x {
      var u :| 0 <= u < |task'| && task'[u].id == x;
      if u != t { assert task[u].id == x; }
    }
    forall x: Id | LiveTask(task, x) && (task[t].id == x ==> task'[t].id == x) ensures LiveTask(task', x) {
      var u :| 0 <= u < |task| && task[u].id == x;
      assert task'[u].id == x;
    }
  }

  /** Slot t changes between states other than FREE. */
  lemma TaskTableState(task: seq<TaskSlot>, t: nat, st: SlotState, next: Id, submits: nat, jobOf: map<Id, Id>)
    requires TaskTableOk(task, next, submits, jobOf) && t < |task|
    requires task[t].state != Free && st != Free
    ensures TaskTableOk(task[t := task[t].(state := st)], next, submits, jobOf)
  {
    var task' := task[t := task[t].(state := st)];
    assert TaskOk(task[t], submits, jobOf);
    assert forall u :: 0 <= u < |task| ==> task'[u].id == task[u].id;
  }

  // ---- Holders ---------------------------------------------------------------------------------------

  ghost predicate Unheld(smp: seq<SmpSlot>, runs: map<nat, Run>, subs: map<nat, Submitter>, t: nat)
  {
    && (forall a :: a in runs ==> Holds(runs[a]) != t)
    && (forall b :: b in subs ==> Pending(subs[b]) != t)
    && (forall i :: 0 <= i < |smp| ==> Carried(smp[i]) != t)
  }

  /** Whatever is not RUNNING is in nobody's hands. */
  lemma NotRunningUnheld(smp: seq<SmpSlot>, task: seq<TaskSlot>, runs: map<nat, Run>, subs: map<nat, Submitter>, t: nat)
    requires HeldRunning(smp, task, runs, subs) && t < |task| && task[t].state != Running
    ensures Unheld(smp, runs, subs, t)
  {
    forall a | a in runs ensures Holds(runs[a]) != t { assert HolderOk(runs[a], task); }
  }

  /** A slot that carries no task now. */
  lemma HoldersSlot(smp: seq<SmpSlot>, smp': seq<SmpSlot>, i: nat, task: seq<TaskSlot>, runs: map<nat, Run>,
                    subs: map<nat, Submitter>)
    requires HoldersOk(smp, task, runs, subs) && Only(smp, smp', i) && Carried(smp'[i]) < 0
    ensures HoldersOk(smp', task, runs, subs)
  {
    assert forall j :: 0 <= j < |smp'| && Carried(smp'[j]) >= 0 ==> smp'[j] == smp[j];
  }

  /** The submitter puts its task into a free slot. */
  lemma HoldersHandOver(smp: seq<SmpSlot>, i: nat, id: Id, task: seq<TaskSlot>, runs: map<nat, Run>, subs: map<nat,
                        Submitter>, a: nat)
    requires HoldersOk(smp, task, runs, subs) && OneSubmitter(subs)
    requires i < |smp| && a in subs && subs[a].Reserved?
    ensures HoldersOk(smp[i := SmpSlot(Queued, id, TaskWorker(subs[a].t))], task, runs,
                      subs[a := HandedOver(subs[a].t, subs[a].tid, id)])
  {
    assert Pending(subs[a]) == subs[a].t;
  }

  lemma HoldersRefuse(smp: seq<SmpSlot>, task: seq<TaskSlot>, runs: map<nat, Run>, subs: map<nat, Submitter>, a: nat,
                      g: Submitter)
    requires HoldersOk(smp, task, runs, subs) && a in subs && Pending(g) == Pending(subs[a])
    ensures HoldersOk(smp, task, runs, subs[a := g])
  {
  }

  lemma HoldersNoSub(smp: seq<SmpSlot>, task: seq<TaskSlot>, runs: map<nat, Run>, subs: map<nat, Submitter>, a: nat)
    requires HoldersOk(smp, task, runs, subs)
    ensures HoldersOk(smp, task, runs, subs - {a})
    ensures a in subs && OneSubmitter(subs) && Pending(subs[a]) >= 0 ==> Unheld(smp, runs, subs - {a}, subs[a].t)
  {
  }

  lemma HoldersTake(smp: seq<SmpSlot>, i: nat, task: seq<TaskSlot>, runs: map<nat, Run>, subs: map<nat, Submitter>,
                    a: nat)
    requires HoldersOk(smp, task, runs, subs) && i < |smp| && smp[i].state == Queued && a !in runs
    requires smp[i].work.TaskWorker? ==> smp[i].work.slot < |task|
    ensures HoldersOk(smp[i := smp[i].(state := Running)], task,
                      runs[a := Item(i, smp[i].id, smp[i].work, Taken)], subs)
  {
    var g := Item(i, smp[i].id, smp[i].work, Taken);
    var (smp', runs') := (smp[i := smp[i].(state := Running)], runs[a := g]);
    assert Holds(g) == Carried(smp[i]) && Carried(smp'[i]) < 0;
    assert HolderOk(g, task);
    assert HeldRunning(smp', task, runs', subs);
    OneHolderTake(smp, i, smp', runs, subs, a, g);
  }

  lemma OneHolderTake(smp: seq<SmpSlot>, i: nat, smp': seq<SmpSlot>, runs: map<nat, Run>, subs: map<nat, Submitter>,
                      a: nat, g: Run)
    requires OneHolder(smp, runs, subs) && Only(smp, smp', i) && Carried(smp'[i]) < 0
    requires a !in runs && Holds(g) == Carried(smp[i])
    ensures OneHolder(smp', runs[a := g], subs)
  {
  }

  lemma HoldersPhase(smp: seq<SmpSlot>, task: seq<TaskSlot>, runs: map<nat, Run>, subs: map<nat, Submitter>, a: nat,
                     g: Run)
    requires HoldersOk(smp, task, runs, subs) && HolderOk(g, task)
    requires Holds(g) >= 0 ==> a in runs && Holds(g) == Holds(runs[a])
    ensures HoldersOk(smp, task, runs[a := g], subs)
    ensures a in runs && Holds(g) < 0 <= Holds(runs[a]) ==> Unheld(smp, runs[a := g], subs, Holds(runs[a]))
  {
  }

  lemma HoldersDrop(smp: seq<SmpSlot>, task: seq<TaskSlot>, runs: map<nat, Run>, subs: map<nat, Submitter>, a: nat)
    requires HoldersOk(smp, task, runs, subs)
    ensures HoldersOk(smp, task, runs - {a}, subs)
    ensures a in runs && Holds(runs[a]) >= 0 ==> Unheld(smp, runs - {a}, subs, Holds(runs[a]))
  {
  }

  /** A task slot nobody holds changes. */
  lemma HoldersTask(smp: seq<SmpSlot>, task: seq<TaskSlot>, task': seq<TaskSlot>, t: nat, runs: map<nat, Run>,
                    subs: map<nat, Submitter>)
    requires HoldersOk(smp, task, runs, subs) && OnlyTask(task, task', t)
    requires Unheld(smp, runs, subs, t) || task'[t] == task[t].(smpId := task'[t].smpId)
    ensures HoldersOk(smp, task', runs, subs)
  {
    forall a | a in runs ensures HolderOk(runs[a], task') { assert HolderOk(runs[a], task); }
  }

  /** A RUNNING task nobody held is taken up by a polling core. */
  lemma HoldersPoll(smp: seq<SmpSlot>, task: seq<TaskSlot>, runs: map<nat, Run>, subs: map<nat, Submitter>, t: nat,
                    a: nat)
    requires HoldersOk(smp, task, runs, subs) && t < |task| && task[t].state == Running && Unheld(smp, runs, subs, t)
    requires a !in runs
    ensures HoldersOk(smp, task, runs[a := Worker(t, ByPoll, Entering)], subs)
  {
    assert HolderOk(Worker(t, ByPoll, Entering), task);
  }

  /** A RUNNING task nobody held is its submitter's. */
  lemma HoldersReserve(smp: seq<SmpSlot>, task: seq<TaskSlot>, runs: map<nat, Run>, subs: map<nat, Submitter>,
                       t: nat, a: nat, tid: Id, async: bool)
    requires HoldersOk(smp, task, runs, subs) && t < |task| && task[t].state == Running && Unheld(smp, runs, subs, t)
    requires a !in subs
    ensures HoldersOk(smp, task, runs, subs[a := Reserved(t, tid, async)])
  {
  }

  // ---- Call counts of tasks ----------------------------------------------------------------------------

  lemma TasksSlot(smp: seq<SmpSlot>, smp': seq<SmpSlot>, i: nat, task: seq<TaskSlot>, runs: map<nat, Run>,
                  subs: map<nat, Submitter>,
                  invoked: multiset<Id>, completed: multiset<Id>, submits: nat)
    requires TaskCountsOk(smp, task, runs, subs, invoked, completed, submits)
    requires Only(smp, smp', i) && Carried(smp'[i]) < 0
    ensures TaskCountsOk(smp', task, runs, subs, invoked, completed, submits)
  {
    assert forall j :: 0 <= j < |smp'| && Carried(smp'[j]) >= 0 ==> smp'[j] == smp[j];
  }

  lemma TasksHandOver(smp: seq<SmpSlot>, i: nat, id: Id, task: seq<TaskSlot>, runs: map<nat, Run>, subs: map<nat,
                      Submitter>, a: nat,
                      invoked: multiset<Id>, completed: multiset<Id>, submits: nat)
    requires TaskCountsOk(smp, task, runs, subs, invoked, completed, submits)
    requires i < |smp| && a in subs && subs[a].Reserved?
    ensures TaskCountsOk(smp[i := SmpSlot(Queued, id, TaskWorker(subs[a].t))], task, runs,
                         subs[a := HandedOver(subs[a].t, subs[a].tid, id)], invoked, completed, submits)
  {
    assert Pending(subs[a]) == subs[a].t;
  }

  lemma TasksSubs(smp: seq<SmpSlot>, task: seq<TaskSlot>, runs: map<nat, Run>, subs: map<nat, Submitter>,
                  subs': map<nat, Submitter>,
                  invoked: multiset<Id>, completed: multiset<Id>, submits: nat)
    requires TaskCountsOk(smp, task, runs, subs, invoked, completed, submits)
    requires forall b :: b in subs' ==> b in subs && (Pending(subs'[b]) == Pending(subs[b]) || Pending(subs'[b]) < 0)
    ensures TaskCountsOk(smp, task, runs, subs', invoked, completed, submits)
  {
  }

  lemma TasksTake(smp: seq<SmpSlot>, i: nat, task: seq<TaskSlot>, runs: map<nat, Run>, subs: map<nat, Submitter>,
                  a: nat,
                  invoked: multiset<Id>, completed: multiset<Id>, submits: nat)
    requires TaskCountsOk(smp, task, runs, subs, invoked, completed, submits)
    requires i < |smp| && smp[i].state == Queued && a !in runs
    ensures TaskCountsOk(smp[i := smp[i].(state := Running)], task,
                         runs[a := Item(i, smp[i].id, smp[i].work, Taken)], subs, invoked, completed, submits)
  {
    assert Holds(Item(i, smp[i].id, smp[i].work, Taken)) == Carried(smp[i]);
  }

  /** The agent goes on without calling the task or returning from it. */
  lemma TasksPhase(smp: seq<SmpSlot>, task: seq<TaskSlot>, runs: map<nat, Run>, subs: map<nat, Submitter>, a: nat,
                   g: Run,
                   invoked: multiset<Id>, completed: multiset<Id>, submits: nat)
    requires TaskCountsOk(smp, task, runs, subs, invoked, completed, submits)
    requires 0 <= Holds(g) < |task| ==> Ran(invoked, completed, task[Holds(g)].id, Invoked(g), Completed(g))
    ensures TaskCountsOk(smp, task, runs[a := g], subs, invoked, completed, submits)
    ensures TaskCountsOk(smp, task, runs - {a}, subs, invoked, completed, submits)
  {
  }

  /** The holder is the only one whose task has this id. */
  lemma HeldId(smp: seq<SmpSlot>, task: seq<TaskSlot>, runs: map<nat, Run>, subs: map<nat, Submitter>, a: nat)
    requires HoldersOk(smp, task, runs, subs) && DistinctTaskIds(task)
    requires a in runs && 0 <= Holds(runs[a]) < |task| && task[Holds(runs[a])].id != 0
    ensures LiveTask(task, task[Holds(runs[a])].id)
    ensures forall b :: b in runs && b != a && 0 <= Holds(runs[b]) < |task| ==>
      task[Holds(runs[b])].id != task[Holds(runs[a])].id
    ensures forall b :: b in subs && 0 <= Pending(subs[b]) < |task| ==>
      task[Pending(subs[b])].id != task[Holds(runs[a])].id
    ensures forall i :: 0 <= i < |smp| && 0 <= Carried(smp[i]) < |task| ==>
      task[Carried(smp[i])].id != task[Holds(runs[a])].id
    ensures forall t :: 0 <= t < |task| && task[t].state != Running ==> task[t].id != task[Holds(runs[a])].id
  {
    assert HolderOk(runs[a], task);
  }

  lemma TasksCall(smp: seq<SmpSlot>, task: seq<TaskSlot>, runs: map<nat, Run>, subs: map<nat, Submitter>, a: nat,
                  g: Run,
                  invoked: multiset<Id>, completed: multiset<Id>, submits: nat)
    requires TaskCountsOk(smp, task, runs, subs, invoked, completed, submits)
    requires HoldersOk(smp, task, runs, subs) && DistinctTaskIds(task)
    requires a in runs && 0 <= Holds(runs[a]) < |task| && 0 < task[Holds(runs[a])].id <= submits
    requires Holds(g) == Holds(runs[a]) && Invoked(runs[a]) == 0 && Completed(runs[a]) == 0 && Invoked(g) == 1
      && Completed(g) == 0
    ensures TaskCountsOk(smp, task, runs[a := g], subs, invoked + multiset{task[Holds(g)].id}, completed, submits)
  {
    hide HoldersOk, ReapersOk, ItemCountsOk, TaskClaimsOk, ClaimsOk, NamesOk, SubmittersOk, ExecsOk, TaskTableOk,
         SmpTableOk;
    HeldId(smp, task, runs, subs, a);
    var x0 := task[Holds(g)].id;
    var m := invoked + multiset{x0};
    assert forall x: Id :: x != x0 ==> m[x] == invoked[x];
    assert Ran(invoked, completed, x0, 0, 0);
    var runs' := runs[a := g];
    forall b | b in runs' && 0 <= Holds(runs'[b]) < |task|
      ensures Ran(m, completed, task[Holds(runs'[b])].id, Invoked(runs'[b]), Completed(runs'[b]))
    {
      if b != a { assert Ran(invoked, completed, task[Holds(runs[b])].id, Invoked(runs[b]), Completed(runs[b])); }
    }
  }

  lemma TasksReturn(smp: seq<SmpSlot>, task: seq<TaskSlot>, runs: map<nat, Run>, subs: map<nat, Submitter>, a: nat,
                    g: Run,
                    invoked: multiset<Id>, completed: multiset<Id>, submits: nat)
    requires TaskCountsOk(smp, task, runs, subs, invoked, completed, submits)
    requires HoldersOk(smp, task, runs, subs) && DistinctTaskIds(task)
    requires a in runs && 0 <= Holds(runs[a]) < |task| && 0 < task[Holds(runs[a])].id <= submits
    requires Holds(g) == Holds(runs[a]) && Invoked(runs[a]) == 1 && Completed(runs[a]) == 0 && Invoked(g) == 1
      && Completed(g) == 1
    ensures TaskCountsOk(smp, task, runs[a := g], subs, invoked, completed + multiset{task[Holds(g)].id}, submits)
  {
    hide HoldersOk, ReapersOk, ItemCountsOk, TaskClaimsOk, ClaimsOk, NamesOk, SubmittersOk, ExecsOk, TaskTableOk,
         SmpTableOk;
    HeldId(smp, task, runs, subs, a);
    var x0 := task[Holds(g)].id;
    var n := completed + multiset{x0};
    assert forall x: Id :: x != x0 ==> n[x] == completed[x];
    assert Ran(invoked, completed, x0, 1, 0);
    var runs' := runs[a := g];
    forall b | b in runs' && 0 <= Holds(runs'[b]) < |task|
      ensures Ran(invoked, n, task[Holds(runs'[b])].id, Invoked(runs'[b]), Completed(runs'[b]))
    {
      if b != a { assert Ran(invoked, completed, task[Holds(runs[b])].id, Invoked(runs[b]), Completed(runs[b])); }
    }
  }

  /** A task slot nobody holds changes its state, or is emptied. */
  lemma TasksTask(smp: seq<SmpSlot>, task: seq<TaskSlot>, task': seq<TaskSlot>, t: nat, runs: map<nat, Run>,
                  subs: map<nat, Submitter>,
                  invoked: multiset<Id>, completed: multiset<Id>, submits: nat)
    requires TaskCountsOk(smp, task, runs, subs, invoked, completed, submits)
    requires OnlyTask(task, task', t)
    requires Unheld(smp, runs, subs, t) || task'[t] == task[t].(smpId := task'[t].smpId)
    requires task'[t].state == Queued ==> Ran(invoked, completed, task'[t].id, 0, 0)
    requires task'[t].state == Done ==> Ran(invoked, completed, task'[t].id, 1, 1)
    requires task'[t].id != task[t].id ==> completed[task[t].id] == invoked[task[t].id]
    ensures TaskCountsOk(smp, task', runs, subs, invoked, completed, submits)
  {
    LiveTaskMoves(task, task', t);
  }

  /** A free task slot takes a fresh id and its submitter. */
  lemma TasksSubmit(smp: seq<SmpSlot>, task: seq<TaskSlot>, t: nat, p: TaskSlot, runs: map<nat, Run>, subs: map<nat,
                    Submitter>, a: nat, async: bool,
                    invoked: multiset<Id>, completed: multiset<Id>, submits: nat)
    requires TaskCountsOk(smp, task, runs, subs, invoked, completed, submits)
    requires t < |task| && task[t].id == 0 && Unheld(smp, runs, subs, t) && p.state == Running && p.id == submits + 1
    ensures TaskCountsOk(smp, task[t := p], runs, subs[a := Reserved(t, p.id, async)], invoked, completed, submits + 1)
  {
    var task' := task[t := p];
    LiveTaskMoves(task, task', t);
    assert task'[t].id == submits + 1;
    assert LiveTask(task', p.id);
  }

  // ---- Submitters --------------------------------------------------------------------------------------

  lemma SubmittersSlot(smp: seq<SmpSlot>, smp': seq<SmpSlot>, i: nat, task: seq<TaskSlot>, subs: map<nat, Submitter>)
    requires SubmittersOk(smp, task, subs) && Only(smp, smp', i)
    requires (smp'[i].id == smp[i].id && smp'[i].work == smp[i].work)
          || forall a :: a in subs && subs[a].HandedOver? ==> subs[a].smpId != smp[i].id
    ensures SubmittersOk(smp', task, subs)
  {
    LiveMoves(smp, smp', i);
    forall a | a in subs ensures SubmitterOk(subs[a], smp', task) { assert SubmitterOk(subs[a], smp, task); }
  }

  // ---- Names -------------------------------------------------------------------------------------------

  lemma NamesHandOver(smp: seq<SmpSlot>, i: nat, id: Id, task: seq<TaskSlot>, jobOf: map<Id, Id>, subs: map<nat,
                      Submitter>, a: nat)
    requires NamesOk(smp, task, jobOf, subs) && SubmittersOk(smp, task, subs)
    requires i < |smp| && a in subs && subs[a].Reserved? && id !in jobOf
    ensures NamesOk(smp[i := SmpSlot(Queued, id, TaskWorker(subs[a].t))], task, jobOf[id := subs[a].tid],
                    subs[a := HandedOver(subs[a].t, subs[a].tid, id)])
  {
    var g := HandedOver(subs[a].t, subs[a].tid, id);
    var (smp', subs', jobOf') := (smp[i := SmpSlot(Queued, id, TaskWorker(subs[a].t))], subs[a := g],
        jobOf[id := subs[a].tid]);
    assert SubmitterOk(subs[a], smp, task);
    assert subs'[a] == g;
    forall j | 0 <= j < |smp'| ensures Named(smp'[j], task, jobOf', subs') {
      if j != i {
        assert Named(smp[j], task, jobOf, subs);
        InFlightMoves(subs, subs', a);
      }
    }
  }

  lemma InFlightMoves(subs: map<nat, Submitter>, subs': map<nat, Submitter>, a: nat)
    requires forall b :: b in subs && b != a ==> b in subs' && subs'[b] == subs[b]
    ensures forall g :: InFlight(subs, g) && (a in subs ==> subs[a] != g) ==> InFlight(subs', g)
  {
    forall g | InFlight(subs, g) && (a in subs ==> subs[a] != g) ensures InFlight(subs', g) {
      var b :| b in subs && subs[b] == g;
      assert b in subs' && subs'[b] == g;
    }
  }

  /** A submitter that is not the one naming an item comes, goes or changes. */
  lemma NamesSubs(smp: seq<SmpSlot>, task: seq<TaskSlot>, jobOf: map<Id, Id>, subs: map<nat, Submitter>,
                  subs': map<nat, Submitter>, a: nat)
    requires NamesOk(smp, task, jobOf, subs)
    requires forall b :: b in subs && b != a ==> b in subs' && subs'[b] == subs[b]
    requires a in subs ==> !subs[a].HandedOver?
    ensures NamesOk(smp, task, jobOf, subs')
  {
    InFlightMoves(subs, subs', a);
    forall i | 0 <= i < |smp| ensures Named(smp[i], task, jobOf, subs') { assert Named(smp[i], task, jobOf, subs); }
  }

  lemma NamesStore(smp: seq<SmpSlot>, task: seq<TaskSlot>, jobOf: map<Id, Id>, subs: map<nat, Submitter>, a: nat)
    requires NamesOk(smp, task, jobOf, subs) && SubmittersOk(smp, task, subs)
    requires a in subs && subs[a].HandedOver? && subs[a].t < |task|
    requires forall i :: 0 <= i < |smp| ==> smp[i].work.TaskWorker? ==> smp[i].id != 0
    ensures NamesOk(smp, SmpIdStored(task, subs[a].t, subs[a].tid, subs[a].smpId), jobOf, subs - {a})
  {
    var g := subs[a];
    assert SubmitterOk(g, smp, task);
    InFlightMoves(subs, subs - {a}, a);
    var task' := SmpIdStored(task, g.t, g.tid, g.smpId);
    forall i | 0 <= i < |smp| ensures Named(smp[i], task', jobOf, subs - {a}) {
      assert Named(smp[i], task, jobOf, subs);
      if smp[i].work == TaskWorker(g.t) {
        // the task does not name it yet, so its submitter is in flight, and that is a
        var b :| b in subs && subs[b] == HandedOver(g.t, jobOf[smp[i].id], smp[i].id);
        assert subs[b].t == subs[a].t;
      }
    }
  }

  /** A task slot that no occupied SMP slot refers to changes. */
  lemma NamesTask(smp: seq<SmpSlot>, task: seq<TaskSlot>, task': seq<TaskSlot>, t: nat, jobOf: map<Id, Id>,
                  subs: map<nat, Submitter>)
    requires NamesOk(smp, task, jobOf, subs) && OnlyTask(task, task', t)
    requires (task'[t].id == task[t].id && task'[t].smpId == task[t].smpId)
          || forall i :: 0 <= i < |smp| ==> smp[i].work != TaskWorker(t)
    ensures NamesOk(smp, task', jobOf, subs)
  {
    forall i | 0 <= i < |smp| ensures Named(smp[i], task', jobOf, subs) { assert Named(smp[i], task, jobOf, subs); }
  }

  // ---- Claims on task ids --------------------------------------------------------------------------------

  /** A task keeps its id, and what a releasing client relies on. */
  lemma TaskClaimsTask(task: seq<TaskSlot>, task': seq<TaskSlot>, t: nat, claims: set<Id>, waiters: map<nat, Waiter>,
                       subs: map<nat, Submitter>)
    requires TaskClaimsOk(task, claims, waiters, subs) && OnlyTask(task, task', t)
    requires task'[t].id == task[t].id
    requires (task[t].state == Done && task[t].smpId == 0 ==> task'[t].state == Done && task'[t].smpId == 0)
          || forall a :: a in waiters ==> waiters[a].id != task[t].id
    ensures TaskClaimsOk(task', claims, waiters, subs)
  {
    LiveTaskMoves(task, task', t);
    forall a | a in waiters
      ensures TaskWaiterOk(waiters[a], task', claims) { assert TaskWaiterOk(waiters[a], task, claims); }
  }

  /** A task slot is emptied or filled; the ids concerned are in no client's hands. */
  lemma TaskClaimsMove(task: seq<TaskSlot>, task': seq<TaskSlot>, t: nat, claims: set<Id>, waiters: map<nat, Waiter>,
                       waiters': map<nat, Waiter>, subs: map<nat, Submitter>)
    requires TaskClaimsOk(task, claims, waiters, subs) && OnlyTask(task, task', t)
    requires task[t].id !in claims
    requires forall a :: a in waiters' ==>
      a in waiters && waiters'[a] == waiters[a] && waiters[a].id != task[t].id && waiters[a].id != task'[t].id
    ensures TaskClaimsOk(task', claims, waiters', subs)
  {
    LiveTaskMoves(task, task', t);
    forall a | a in waiters'
      ensures TaskWaiterOk(waiters'[a], task', claims) { assert TaskWaiterOk(waiters[a], task, claims); }
  }

  // ---- Reapers ---------------------------------------------------------------------------------------------

  lemma ClearingMoves(reapers: map<nat, Reaper>, reapers': map<nat, Reaper>, a: nat)
    requires forall b :: b in reapers && b != a ==> b in reapers' && reapers'[b] == reapers[b]
    requires a in reapers && reapers[a].phase == Clearing ==> a in reapers' && reapers'[a] == reapers[a]
    ensures forall t, x: Id :: BeingCleared(reapers, t, x) ==> BeingCleared(reapers', t, x)
  {
    forall t, x: Id | BeingCleared(reapers, t, x) ensures BeingCleared(reapers', t, x) {
      var b :| b in reapers && reapers[b] == Reaper(t, x, Clearing);
      assert b in reapers' && reapers'[b] == Reaper(t, x, Clearing);
    }
  }

  /** A slot keeps its id and work, and stays DONE if it was; or it takes an id no reaper and no task knows. */
  lemma ReapersSlot(smp: seq<SmpSlot>, smp': seq<SmpSlot>, i: nat, task: seq<TaskSlot>, jobOf: map<Id, Id>,
                    reapers: map<nat, Reaper>)
    requires ReapersOk(smp, task, jobOf, reapers) && Only(smp, smp', i)
    requires smp'[i].id == 0 || smp'[i].id == smp[i].id || smp'[i].id !in jobOf
    requires smp'[i].id == smp[i].id ==> smp'[i].work == smp[i].work && smp[i].state != Done
    requires smp'[i].id != smp[i].id ==> forall t :: 0 <= t < |task| ==>
      task[t].smpId == 0 || task[t].smpId != smp[i].id
    ensures ReapersOk(smp', task, jobOf, reapers)
  {
    LiveMoves(smp, smp', i);
    forall a | a in reapers
      ensures ReaperOk(reapers[a], smp', task, jobOf) { assert ReaperOk(reapers[a], smp, task, jobOf); }
  }

  lemma ReapersJob(smp: seq<SmpSlot>, task: seq<TaskSlot>, jobOf: map<Id, Id>, id: Id, tid: Id, reapers: map<nat,
                   Reaper>)
    requires ReapersOk(smp, task, jobOf, reapers) && id !in jobOf
    ensures ReapersOk(smp, task, jobOf[id := tid], reapers)
  {
    forall a | a in reapers
      ensures ReaperOk(reapers[a], smp, task, jobOf[id := tid]) { assert ReaperOk(reapers[a], smp, task, jobOf); }
  }

  /** A reaper appears, moves on short of clearing, or gives up. */
  lemma ReapersMove(smp: seq<SmpSlot>, task: seq<TaskSlot>, jobOf: map<Id, Id>, reapers: map<nat, Reaper>,
                    reapers': map<nat, Reaper>, a: nat)
    requires ReapersOk(smp, task, jobOf, reapers)
    requires forall b :: b in reapers && b != a ==> b in reapers' && reapers'[b] == reapers[b]
    requires forall b :: b in reapers' && b != a ==> b in reapers
    requires a in reapers ==> reapers[a].phase != Clearing
    requires a in reapers' ==> ReaperOk(reapers'[a], smp, task, jobOf)
    ensures ReapersOk(smp, task, jobOf, reapers')
  {
    ClearingMoves(reapers, reapers', a);
  }

  /** The reaper frees its item and becomes the one that clears the task's reference. */
  lemma ReapersFree(smp: seq<SmpSlot>, i: nat, task: seq<TaskSlot>, jobOf: map<Id, Id>, reapers: map<nat, Reaper>,
                    a: nat)
    requires ReapersOk(smp, task, jobOf, reapers) && DistinctIds(smp) && i < |smp|
    requires a in reapers && reapers[a].phase == Freeing && smp[i].id == reapers[a].smpId
    ensures ReapersOk(smp[i := FREE_SMP], task, jobOf, reapers[a := reapers[a].(phase := Clearing)])
  {
    var (smp', reapers') := (smp[i := FREE_SMP], reapers[a := reapers[a].(phase := Clearing)]);
    assert ReaperOk(reapers[a], smp, task, jobOf);
    LiveMoves(smp, smp', i);
    ClearingMoves(reapers, reapers', a);
    forall b | b in reapers'
      ensures ReaperOk(reapers'[b], smp', task, jobOf) { assert ReaperOk(reapers[b], smp, task, jobOf); }
    forall t | 0 <= t < |task| && task[t].smpId != 0
      ensures LiveFor(smp', task[t].smpId, t) || BeingCleared(reapers', t, task[t].smpId)
    {
      if task[t].smpId == smp[i].id {
        if LiveFor(smp, task[t].smpId, t) {
          assert smp[i].work == TaskWorker(t);
          assert reapers'[a] == Reaper(t, smp[i].id, Clearing);
        }
      }
    }
  }

  /** The item was freed, so only this task refers to it. */
  lemma ReapersClear(smp: seq<SmpSlot>, task: seq<TaskSlot>, jobOf: map<Id, Id>, reapers: map<nat, Reaper>, a: nat)
    requires ReapersOk(smp, task, jobOf, reapers)
    requires a in reapers && reapers[a].phase == Clearing && reapers[a].t < |task|
    ensures ReapersOk(smp, SmpIdCleared(task, reapers[a].t, reapers[a].smpId), jobOf, reapers - {a})
  {
    var g := reapers[a];
    var task' := SmpIdCleared(task, g.t, g.smpId);
    assert ReaperOk(g, smp, task, jobOf);
    forall b | b in reapers - {a}
      ensures ReaperOk(reapers[b], smp, task', jobOf) { assert ReaperOk(reapers[b], smp, task, jobOf); }
    forall t | 0 <= t < |task'| && task'[t].smpId != 0
      ensures LiveFor(smp, task'[t].smpId, t) || BeingCleared(reapers - {a}, t, task'[t].smpId)
    {
      assert task'[t] == task[t];
      if BeingCleared(reapers, t, task[t].smpId) {
        var b :| b in reapers && reapers[b] == Reaper(t, task[t].smpId, Clearing);
        assert b in reapers - {a} && (reapers - {a})[b] == Reaper(t, task[t].smpId, Clearing);
      }
    }
  }

  /** A task slot changes without touching its reference, or one that refers to nothing known to a reaper. */
  lemma ReapersTask(smp: seq<SmpSlot>, task: seq<TaskSlot>, task': seq<TaskSlot>, t: nat, jobOf: map<Id, Id>,
                    reapers: map<nat, Reaper>)
    requires ReapersOk(smp, task, jobOf, reapers) && OnlyTask(task, task', t)
    requires task'[t].smpId == task[t].smpId || (task[t].smpId == 0 && LiveFor(smp, task'[t].smpId, t))
    ensures ReapersOk(smp, task', jobOf, reapers)
  {
    forall a | a in reapers
      ensures ReaperOk(reapers[a], smp, task', jobOf) { assert ReaperOk(reapers[a], smp, task, jobOf); }
  }
}
