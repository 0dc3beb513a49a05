/**
 A command or transfer ring of kernel/drivers/usb.c with the controller that consumes it, as
 sections 4.9.2 and 4.9.3 of the xHCI specification describe it: the last entry is a link back to
 the first, with the toggle-cycle flag, and the driver rewrites the link only after it has seen the
 completion of a transfer that went past it.
 */
module XhciRing {

  /** An entry: what it asks for, and its cycle bit. */
  datatype Trb = Trb(content: nat, cycle: bool)

  /** Where driver and controller stand. lap counts the entries written before the driver's current lap. */
  datatype Ends = Ends(enq: nat, cycle: bool, pending: bool, deq: nat, ccs: bool, lap: nat, inTd: nat)

  datatype World = World(trbs: seq<Trb>, e: Ends, enqueued: seq<nat>, consumed: seq<nat>)

  // ---- The steps ---------------------------------------------------------------------------------------------------

  /** The driver starts a new lap. */
  function Turned(e: Ends): Ends
  {
    e.(lap := e.lap + e.enq, enq := 0, cycle := !e.cycle, pending := true)
  }

  /** xhci_enqueue_transfer_trb. */
  function Enqueued(w: World, content: nat): World
    requires |w.trbs| > 1
  {
    var e := if w.e.enq >= |w.trbs| - 1 then Turned(w.e) else w.e;
    World(w.trbs[e.enq := Trb(content, e.cycle)], e.(enq := e.enq + 1, inTd := e.inTd + 1),
          w.enqueued + [content], w.consumed)
  }

  /** One step of the controller: it takes the next entry, follows the link, or waits. */
  function Stepped(w: World): World
    requires w.e.deq < |w.trbs|
  {
    var trb := w.trbs[w.e.deq];
    if trb.cycle != w.e.ccs then w
    else if w.e.deq == |w.trbs| - 1 then w.(e := w.e.(deq := 0, ccs := !w.e.ccs))
    else w.(e := w.e.(deq := w.e.deq + 1), consumed := w.consumed + [trb.content])
  }

  /** The driver handles the completion event of the entry at index. */
  function Finished(w: World, index: nat): World
    requires |w.trbs| > 0
  {
    var n := |w.trbs| - 1;
    if w.e.pending && index < n
    then w.(trbs := w.trbs[n := Trb(0, w.e.cycle)], e := w.e.(pending := false, inTd := 0))
    else w.(e := w.e.(inTd := 0))
  }

  /** xhci_setup_transfer_ring. */
  function Fresh(size: nat): World
    requires size > 0
  {
    World(seq(size, i => Trb(0, i == size - 1)), Ends(0, true, false, 0, true, 0, 0), [], [])
  }

  // ---- The invariant ----------------------------------------------------------------------------------------------

  /** Entries 0 to n - 1 hold requests, entry n is the link. */
  ghost predicate EntriesOk(trbs: seq<Trb>, e: Ends, enqueued: seq<nat>)
    requires |trbs| > 0
  {
    var n := |trbs| - 1;
    && e.enq <= n && |enqueued| == e.lap + e.enq
    && (forall i :: 0 <= i < e.enq ==> trbs[i] == Trb(enqueued[e.lap + i], e.cycle))
    && (forall i :: e.enq <= i < n ==> trbs[i].cycle == !e.cycle)
    && (e.lap > 0 ==> e.lap >= n && forall i :: e.enq <= i < n ==> trbs[i].content == enqueued[e.lap - n + i])
  }

  /** The controller is in the driver's lap, one lap behind, or has followed the link before the driver. */
  predicate SameLap(e: Ends, n: nat, consumed: nat)
  {
    e.ccs == e.cycle && e.deq <= e.enq && consumed == e.lap + e.deq
  }

  predicate OneBehind(e: Ends, n: nat, consumed: nat)
  {
    e.ccs != e.cycle && e.pending && e.lap >= n && e.enq <= e.deq <= n && consumed == e.lap - n + e.deq
  }

  predicate AtTurn(e: Ends, n: nat, consumed: nat)
  {
    e.ccs != e.cycle && !e.pending && e.deq == 0 && e.enq == n && consumed == e.lap + n
  }

  predicate EndsOk(e: Ends, n: nat, enqueued: nat, consumed: nat)
  {
    && (SameLap(e, n, consumed) || OneBehind(e, n, consumed) || AtTurn(e, n, consumed))
    && consumed <= enqueued == e.lap + e.enq && e.enq <= n
    && e.inTd <= n && (e.pending ==> 0 < e.enq <= e.inTd) && enqueued - consumed <= e.inTd
  }

  ghost predicate RingOk(w: World)
  {
    && |w.trbs| >= 3 && EntriesOk(w.trbs, w.e, w.enqueued) && w.consumed <= w.enqueued
    && EndsOk(w.e, |w.trbs| - 1, |w.enqueued|, |w.consumed|)
    && w.trbs[|w.trbs| - 1].cycle == (if w.e.pending then !w.e.cycle else w.e.cycle)
  }

  lemma RingSize(w: World)
    requires RingOk(w)
    ensures |w.trbs| >= 3 && w.e.enq < |w.trbs| && w.e.deq < |w.trbs|
  {
  }

  lemma FreshOk(size: nat)
    requires size >= 3
    ensures RingOk(Fresh(size))
  {
  }

  lemma EnqueueKeeps(w: World, content: nat)
    requires RingOk(w) && w.e.inTd + 1 < |w.trbs|
    ensures RingOk(Enqueued(w, content))
  {
    var n := |w.trbs| - 1;
    if w.e.enq >= n { TurnEntries(w); }
    var e := if w.e.enq >= n then Turned(w.e) else w.e;
    assert EntriesOk(w.trbs, e, w.enqueued);
    WriteEntry(w.trbs, e, w.enqueued, content);
  }

  lemma TurnEntries(w: World)
    requires RingOk(w) && w.e.enq == |w.trbs| - 1
    ensures EntriesOk(w.trbs, Turned(w.e), w.enqueued)
  {
  }

  lemma WriteEntry(trbs: seq<Trb>, e: Ends, enqueued: seq<nat>, content: nat)
    requires |trbs| > 0 && EntriesOk(trbs, e, enqueued) && e.enq < |trbs| - 1
    ensures EntriesOk(trbs[e.enq := Trb(content, e.cycle)], e.(enq := e.enq + 1, inTd := e.inTd + 1),
                      enqueued + [content])
  {
  }

  lemma FinishKeeps(w: World, index: nat)
    requires RingOk(w) && |w.consumed| == |w.enqueued| && index < |w.trbs| - 1
    ensures RingOk(Finished(w, index)) && !Finished(w, index).e.pending
  {
  }

  /** On a request entry the controller finds its own cycle bit exactly when a request is outstanding, and then the
      oldest. */
  lemma NeverStale(w: World)
    requires RingOk(w) && w.e.deq < |w.trbs| - 1
    ensures w.trbs[w.e.deq].cycle == w.e.ccs <==> |w.consumed| < |w.enqueued|
    ensures w.trbs[w.e.deq].cycle == w.e.ccs ==> w.trbs[w.e.deq].content == w.enqueued[|w.consumed|]
  {
  }

  /** On the link it finds its own cycle bit unless the transfer filled a whole lap and its completion is not yet
      handled. */
  lemma LinkMatches(w: World)
    requires RingOk(w) && w.e.deq == |w.trbs| - 1
    ensures w.trbs[w.e.deq].cycle == w.e.ccs <==> !(w.e.pending && w.e.ccs == w.e.cycle)
    ensures w.e.pending && w.e.ccs == w.e.cycle ==> w.e.enq == w.e.inTd == |w.trbs| - 1
    ensures w.e.inTd < |w.trbs| - 1 ==> w.trbs[w.e.deq].cycle == w.e.ccs
  {
  }

  lemma StepKeeps(w: World)
    requires RingOk(w)
    ensures w.e.deq < |w.trbs| && RingOk(Stepped(w)) && w.consumed <= Stepped(w).consumed
    ensures w.e.deq < |w.trbs| - 1 && |w.consumed| < |w.enqueued| ==>
      Stepped(w).consumed == w.enqueued[..|w.consumed| + 1]
    ensures w.e.deq < |w.trbs| - 1 && |w.consumed| == |w.enqueued| ==> Stepped(w) == w
    ensures w.e.deq == |w.trbs| - 1 ==> Stepped(w).consumed == w.consumed
  {
    if w.e.deq < |w.trbs| - 1 { NeverStale(w); } else { LinkMatches(w); }
  }

  // ---- Whole runs -------------------------------------------------------------------------------------------------

  datatype Move =
    | Add(content: nat)          // the driver adds an entry to the transfer
    | Step                       // the controller takes a step
    | Complete                   // the driver handles the completion of the last entry

  /** One transfer at a time, of at most limit entries, and only completions that the controller has earned. */
  predicate Allowed(w: World, m: Move, limit: nat)
  {
    match m
    case Add(_) => w.e.inTd < limit
    case Step => true
    case Complete => w.e.inTd > 0 && |w.consumed| == |w.enqueued| && w.e.enq > 0
  }

  function Do(w: World, m: Move): World
    requires |w.trbs| > 1 && w.e.deq < |w.trbs|
  {
    match m
    case Add(c) => Enqueued(w, c)
    case Step => Stepped(w)
    case Complete => if w.e.enq > 0 then Finished(w, w.e.enq - 1) else w
  }

  /** The worlds w, Do(w, moves[0]), ... of a run. */
  ghost predicate IsRun(ws: seq<World>, moves: seq<Move>, limit: nat)
  {
    && |ws| == |moves| + 1 && |ws[0].trbs| >= 3 && ws[0] == Fresh(|ws[0].trbs|)
    && forall k :: 0 <= k < |moves| ==> Goes(ws[k], moves[k], ws[k + 1], limit)
  }

  predicate Goes(w: World, m: Move, w': World, limit: nat)
  {
    |w.trbs| > 1 && w.e.deq < |w.trbs| && Allowed(w, m, limit) && w' == Do(w, m)
  }

  lemma GoesKeeps(w: World, m: Move, w': World, limit: nat)
    requires RingOk(w) && Goes(w, m, w', limit) && limit < |w.trbs|
    ensures RingOk(w') && |w'.trbs| == |w.trbs| && w.consumed <= w'.consumed && w.enqueued <= w'.enqueued
    ensures w.e.inTd <= limit ==> w'.e.inTd <= limit
  {
    match m
    case Add(c) => EnqueueKeeps(w, c);
    case Step => StepKeeps(w);
    case Complete => FinishKeeps(w, w.e.enq - 1);
  }

  lemma {:induction false} RunKeeps(ws: seq<World>, moves: seq<Move>, limit: nat, k: nat)
    requires IsRun(ws, moves, limit) && k < |ws| && limit < |ws[0].trbs|
    ensures RingOk(ws[k]) && |ws[k].trbs| == |ws[0].trbs| && ws[k].e.inTd <= limit
    decreases k
  {
    if k == 0 {
      FreshOk(|ws[0].trbs|);
    } else {
      RunKeeps(ws, moves, limit, k - 1);
      GoesKeeps(ws[k - 1], moves[k - 1], ws[k], limit);
    }
  }

  /**
   Over any number of laps the controller takes each request exactly once, in order, and none that
   is stale; and with transfers shorter than the ring it never finds a link that is not its own.
   */
  lemma RunTheorem(ws: seq<World>, moves: seq<Move>, limit: nat, k: nat)
    requires IsRun(ws, moves, limit) && k < |ws| && limit < |ws[0].trbs|
    ensures ws[k].consumed <= ws[k].enqueued && ws[k].e.deq < |ws[k].trbs|
    ensures ws[k].e.deq < |ws[k].trbs| - 1 ==>
              && (ws[k].trbs[ws[k].e.deq].cycle == ws[k].e.ccs <==> |ws[k].consumed| < |ws[k].enqueued|)
              && (|ws[k].consumed| < |ws[k].enqueued| ==>
                  ws[k].trbs[ws[k].e.deq].content == ws[k].enqueued[|ws[k].consumed|])
    ensures ws[k].e.deq == |ws[k].trbs| - 1 && limit < |ws[k].trbs| - 1 ==> ws[k].trbs[ws[k].e.deq].cycle == ws[k].e.ccs
  {
    RunKeeps(ws, moves, limit, k);
    var w := ws[k];
    if w.e.deq < |w.trbs| - 1 { NeverStale(w); } else { LinkMatches(w); }
  }

  /** The driver's rings have 32 and 64 entries and its transfers at most three: the link always matches. */
  lemma DriverLinkMatches(ws: seq<World>, moves: seq<Move>, k: nat)
    requires IsRun(ws, moves, 3) && k < |ws| && (|ws[0].trbs| == 32 || |ws[0].trbs| == 64)
    ensures ws[k].e.deq == |ws[k].trbs| - 1 ==> ws[k].trbs[ws[k].e.deq].cycle == ws[k].e.ccs
  {
    RunKeeps(ws, moves, 3, k);
    RunTheorem(ws, moves, 3, k);
  }

  /** A run goes on. */
  lemma Extend(ws: seq<World>, moves: seq<Move>, limit: nat, m: Move) returns (ws': seq<World>, moves': seq<Move>)
    requires IsRun(ws, moves, limit) && limit < |ws[0].trbs| && Allowed(ws[|moves|], m, limit)
    ensures IsRun(ws', moves', limit) && |ws'[0].trbs| == |ws[0].trbs|
    ensures |ws[|moves|].trbs| > 1 && ws[|moves|].e.deq < |ws[|moves|].trbs| && ws'[|moves'|] == Do(ws[|moves|], m)
    ensures RingOk(ws[|moves|]) && RingOk(ws'[|moves'|]) && |ws'[|moves'|].trbs| == |ws[0].trbs|
  {
    hide RingOk;
    RunKeeps(ws, moves, limit, |moves|);
    var w := ws[|moves|];
    RingSize(w);
    ws', moves' := ws + [Do(w, m)], moves + [m];
    forall k | 0 <= k < |moves'| ensures Goes(ws'[k], moves'[k], ws'[k + 1], limit) {
      if k < |moves| { assert Goes(ws[k], moves[k], ws[k + 1], limit); }
    }
    RunKeeps(ws', moves', limit, |moves'|);
  }

  /** One transfer of one entry: added, taken and completed. */
  lemma OneEntry(ws: seq<World>, moves: seq<Move>, n: nat) returns (ws': seq<World>, moves': seq<Move>)
    requires IsRun(ws, moves, n) && |ws[0].trbs| == n + 1
    requires var e := ws[|moves|].e;
             e.enq == e.deq < n && e.cycle && e.ccs && !e.pending && e.lap == 0 && e.inTd == 0
    ensures IsRun(ws', moves', n) && |ws'[0].trbs| == n + 1
    ensures var e := ws[|moves|].e; ws'[|moves'|].e == e.(enq := e.enq + 1, deq := e.deq + 1)
  {
    hide RingOk;
    ws', moves' := Extend(ws, moves, n, Add(0));
    NeverStale(ws'[|moves'|]);
    CountsOf(ws'[|moves'|]);
    ws', moves' := Extend(ws', moves', n, Step);
    CountsOf(ws'[|moves'|]);
    ws', moves' := Extend(ws', moves', n, Complete);
  }

  /** In the driver's lap the counts differ by what lies between the two ends. */
  lemma CountsOf(w: World)
    requires RingOk(w) && w.e.ccs == w.e.cycle
    ensures |w.enqueued| - |w.consumed| == w.e.enq - w.e.deq
  {
  }

  /** A first lap of single entries, after which the controller has followed the link. */
  lemma FirstLap(n: nat) returns (ws: seq<World>, moves: seq<Move>)
    requires n >= 2
    ensures IsRun(ws, moves, n) && |ws[0].trbs| == n + 1 && ws[|moves|].e == Ends(n, true, false, 0, false, 0, 0)
  {
    hide RingOk;
    ws, moves := [Fresh(n + 1)], [];
    var j := 0;
    while j < n
      invariant 0 <= j <= n && IsRun(ws, moves, n) && |ws[0].trbs| == n + 1
      invariant ws[|moves|].e == Ends(j, true, false, j, true, 0, 0)
    {
      ws, moves := OneEntry(ws, moves, n);
      j := j + 1;
    }
    RunKeeps(ws, moves, n, |moves|);
    LinkMatches(ws[|moves|]);
    ws, moves := Extend(ws, moves, n, Step);
  }

  /** Then a transfer of n entries is added. */
  lemma LapAdded(n: nat) returns (ws: seq<World>, moves: seq<Move>)
    requires n >= 2
    ensures IsRun(ws, moves, n) && |ws[0].trbs| == n + 1 && ws[|moves|].e == Ends(n, false, true, 0, false, n, n)
  {
    hide RingOk;
    ws, moves := FirstLap(n);
    ws, moves := Extend(ws, moves, n, Add(0));
    var j := 1;
    while j < n
      invariant 1 <= j <= n && IsRun(ws, moves, n) && |ws[0].trbs| == n + 1
      invariant ws[|moves|].e == Ends(j, false, true, 0, false, n, j) && |ws[|moves|].trbs| == n + 1
    {
      ws, moves := Extend(ws, moves, n, Add(0));
      j := j + 1;
    }
  }

  /**
   On a ring of any size, a transfer that fills a whole lap makes the controller reach a link whose cycle
   bit is not its own.
   */
  lemma FullLapMeetsOldLink(n: nat) returns (ws: seq<World>, moves: seq<Move>)
    requires n >= 2
    ensures IsRun(ws, moves, n)
    ensures var w := ws[|moves|]; |w.trbs| == n + 1 && w.e.deq == n && w.trbs[n].cycle != w.e.ccs
  {
    hide RingOk;
    ws, moves := LapAdded(n);
    RunKeeps(ws, moves, n, |moves|);
    var j := 0;
    while j < n
      invariant 0 <= j <= n && IsRun(ws, moves, n) && |ws[0].trbs| == n + 1 == |ws[|moves|].trbs|
      invariant RingOk(ws[|moves|]) && ws[|moves|].e == Ends(n, false, true, j, false, n, n)
    {
      NeverStale(ws[|moves|]);
      CountsOf(ws[|moves|]);
      ws, moves := Extend(ws, moves, n, Step);
      j := j + 1;
    }
    LinkMatches(ws[|moves|]);
  }

  // ---- The driver's code ------------------------------------------------------------------------------------------

  class Ring {
    const trbs: array<Trb>
    var enq: nat                   // xhci_transfer_enqueue, xhci_command_enqueue
    var cycle: bool                // xhci_transfer_cycle, xhci_command_cycle
    var pending: bool              // xhci_transfer_link_update_pending
    ghost var deq: nat             // the controller's dequeue pointer
    ghost var ccs: bool            // the controller's consumer cycle state
    ghost var lap: nat
    ghost var inTd: nat            // entries of the transfer that is being built or carried out
    ghost var enqueued: seq<nat>
    ghost var consumed: seq<nat>

    ghost function State(): World
      reads this, trbs
    {
      World(trbs[..], Ends(enq, cycle, pending, deq, ccs, lap, inTd), enqueued, consumed)
    }

    ghost predicate Valid()
      reads this, trbs
    {
      RingOk(State())
    }

    /** xhci_setup_transfer_ring and xhci_setup_command_ring, with the controller at the start of the ring. */
    constructor (size: nat)
      requires size >= 3
      ensures Valid() && fresh(trbs) && State() == Fresh(size)
    {
      trbs := new Trb[size](_ => Trb(0, false));
      enq, cycle, pending := 0, true, false;
      deq, ccs, lap, inTd, enqueued, consumed := 0, true, 0, 0, [], [];
      new;
      trbs[size - 1] := Trb(0, cycle);
      assert trbs[..] == Fresh(size).trbs;
      FreshOk(size);
    }

    /** xhci_enqueue_transfer_trb, and the first part of xhci_ring_command. */
    method Enqueue(content: nat)
      requires Valid() && inTd + 1 < trbs.Length
      modifies this`enq, this`cycle, this`pending, this`lap, this`inTd, this`enqueued, trbs
      ensures Valid() && State() == Enqueued(old(State()), content)
    {
      hide RingOk;
      RingSize(State());
      EnqueueKeeps(State(), content);
      if enq >= trbs.Length - 1 {
        lap := lap + enq;
        enq := 0;
        cycle := !cycle;
        pending := true;
      }
      trbs[enq] := Trb(content, cycle);
      enq := enq + 1;
      inTd := inTd + 1;
      enqueued := enqueued + [content];
      assert State().trbs == Enqueued(old(State()), content).trbs;
    }

    /** The entries xhci_control_transfer queues: setup, data if there is any, and status. */
    method ControlTransfer(setup: nat, data: nat, hasData: bool, status: nat)
      requires Valid() && inTd == 0 && trbs.Length >= 4
      modifies this`enq, this`cycle, this`pending, this`lap, this`inTd, this`enqueued, trbs
      ensures Valid() && inTd == if hasData then 3 else 2
      ensures enqueued == old(enqueued) + [setup] + (if hasData then [data] else []) + [status]
    {
      hide RingOk;
      Enqueue(setup);
      if hasData { Enqueue(data); }
      Enqueue(status);
    }

    /** xhci_finish_transfer_link_update for the completion of the last entry, and the end of xhci_ring_command. */
    method FinishLinkUpdate(index: nat)
      requires Valid() && |consumed| == |enqueued| && index < trbs.Length - 1
      modifies this`pending, this`inTd, trbs
      ensures Valid() && !pending && State() == Finished(old(State()), index)
    {
      hide RingOk;
      FinishKeeps(State(), index);
      if pending && index < trbs.Length - 1 {
        trbs[trbs.Length - 1] := Trb(0, cycle);
        pending := false;
      }
      inTd := 0;
      assert State().trbs == Finished(old(State()), index).trbs;
    }

    /** The controller, as the specification describes it. */
    ghost method ControllerStep()
      requires Valid()
      modifies this`deq, this`ccs, this`consumed
      ensures Valid() && old(deq) < trbs.Length && State() == Stepped(old(State()))
    {
      StepKeeps(State());
      var w := Stepped(State());
      deq, ccs, consumed := w.e.deq, w.e.ccs, w.consumed;
    }
  }
}
