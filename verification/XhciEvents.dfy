/**
 The event ring of kernel/drivers/usb.c with the controller that fills it, as section 4.9.4 of the
 xHCI specification describes it: one segment without a link, a cycle bit per lap on each side, and
 the dequeue pointer register that keeps the controller from overrunning the driver.
 */
module XhciEvents {

  datatype Event = Event(data: nat, cycle: bool)

  /** Positions: the controller's (enq, pcs), the driver's (deq, cycle) and the register's (erdp). */
  datatype Ends = Ends(enq: nat, pcs: bool, deq: nat, cycle: bool, erdp: nat, lap: nat)

  ghost predicate SlotsOk(ring: seq<Event>, e: Ends, produced: seq<nat>)
  {
    && e.enq < |ring| && |produced| == e.lap + e.enq
    && (forall i :: 0 <= i < e.enq ==> ring[i] == Event(produced[e.lap + i], e.pcs))
    && (forall i :: e.enq <= i < |ring| ==> ring[i].cycle == !e.pcs)
    && (e.lap > 0 ==> e.lap >= |ring|)
    && (e.lap > 0 ==> forall i :: e.enq <= i < |ring| ==> ring[i].data == produced[e.lap - |ring| + i])
  }

  /** An index that trails the controller by count entries less: in its lap, or in the one before. */
  predicate Trails(index: nat, count: nat, e: Ends, n: nat)
  {
    index < n && if index <= e.enq then count == e.lap + index else e.lap >= n && count == e.lap - n + index
  }

  predicate EndsOk(e: Ends, n: nat, taken: nat, acked: nat)
  {
    && e.enq < n && Trails(e.deq, taken, e, n) && Trails(e.erdp, acked, e, n)
    && (e.cycle == e.pcs <==> e.deq <= e.enq)
    && acked <= taken <= e.lap + e.enq < acked + n
  }

  ghost predicate RingOk(ring: seq<Event>, e: Ends, produced: seq<nat>, taken: seq<nat>, acked: nat)
  {
    SlotsOk(ring, e, produced) && taken <= produced && EndsOk(e, |ring|, |taken|, acked)
  }

  /** The driver sees its own cycle bit exactly when an event waits, and then it is the oldest one. */
  lemma SeesOldest(ring: seq<Event>, e: Ends, produced: seq<nat>, taken: seq<nat>, acked: nat)
    requires RingOk(ring, e, produced, taken, acked)
    ensures e.deq < |ring| && e.enq < |ring| && |taken| <= |produced|
    ensures ring[e.deq].cycle == e.cycle <==> |taken| < |produced|
    ensures |taken| < |produced| ==> ring[e.deq].data == produced[|taken|]
  {
  }

  /** The driver's position after taking one event. */
  function Moved(e: Ends, n: nat): Ends
  {
    if e.deq + 1 >= n then e.(deq := 0, cycle := !e.cycle) else e.(deq := e.deq + 1)
  }

  lemma TakeKeeps(ring: seq<Event>, e: Ends, produced: seq<nat>, taken: seq<nat>, acked: nat)
    requires RingOk(ring, e, produced, taken, acked) && |taken| < |produced|
    ensures e.deq < |ring| && taken + [ring[e.deq].data] == produced[..|taken| + 1]
    ensures RingOk(ring, Moved(e, |ring|), produced, taken + [ring[e.deq].data], acked)
  {
    SeesOldest(ring, e, produced, taken, acked);
  }

  /** The controller's room test: it may write unless its next position is the one in the register. */
  predicate HasRoom(e: Ends, n: nat)
    requires n > 0
  {
    (if e.enq + 1 == n then 0 else e.enq + 1) != e.erdp
  }

  lemma RoomIsExact(ring: seq<Event>, e: Ends, produced: seq<nat>, taken: seq<nat>, acked: nat)
    requires RingOk(ring, e, produced, taken, acked)
    ensures e.enq < |ring|
    ensures HasRoom(e, |ring|) <==> |produced| + 1 < acked + |ring|
  {
  }

  function Advanced(e: Ends, n: nat): Ends
  {
    if e.enq + 1 == n then e.(enq := 0, pcs := !e.pcs, lap := e.lap + n) else e.(enq := e.enq + 1)
  }

  lemma ProduceSlots(ring: seq<Event>, e: Ends, produced: seq<nat>, data: nat)
    requires SlotsOk(ring, e, produced)
    ensures SlotsOk(ring[e.enq := Event(data, e.pcs)], Advanced(e, |ring|), produced + [data])
  {
  }

  lemma ProduceEnds(e: Ends, n: nat, taken: nat, acked: nat)
    requires EndsOk(e, n, taken, acked) && HasRoom(e, n)
    ensures EndsOk(Advanced(e, n), n, taken, acked)
  {
  }

  class EventRing {
    const ring: array<Event>
    var deq: nat                   // xhci_event_dequeue
    var cycle: bool                // xhci_event_cycle
    var erdp: nat                  // the entry the ERDP register points to
    var enq: nat                   // the controller's side
    var pcs: bool
    ghost var lap: nat
    ghost var produced: seq<nat>
    ghost var taken: seq<nat>
    ghost var acked: nat           // how many events the register covers

    ghost function Where(): Ends
      reads this
    {
      Ends(enq, pcs, deq, cycle, erdp, lap)
    }

    ghost predicate Valid()
      reads this, ring
    {
      ring.Length >= 2 && RingOk(ring[..], Where(), produced, taken, acked)
    }

    /** xhci_setup_event_ring. */
    constructor (size: nat)
      requires size >= 2
      ensures Valid() && fresh(ring) && ring.Length == size && produced == [] && taken == [] && acked == 0
    {
      ring := new Event[size](_ => Event(0, false));
      deq, cycle, erdp := 0, true, 0;
      enq, pcs, lap, produced, taken, acked := 0, true, 0, [], [], 0;
    }

    /** xhci_next_event: every event is taken exactly once, in the order it was produced. */
    method NextEvent() returns (found: bool, data: nat)
      requires Valid()
      modifies this`deq, this`cycle, this`taken
      ensures Valid() && (found <==> |old(taken)| < |produced|)
      ensures found ==> data == produced[|old(taken)|] && taken == produced[..|old(taken)| + 1]
      ensures !found ==> taken == old(taken) && deq == old(deq) && cycle == old(cycle)
    {
      hide RingOk;
      SeesOldest(ring[..], Where(), produced, taken, acked);
      var event := ring[deq];
      if event.cycle != cycle { return false, 0; }
      TakeKeeps(ring[..], Where(), produced, taken, acked);
      data := event.data;
      taken := taken + [data];
      deq := deq + 1;
      if deq >= ring.Length {
        deq := 0;
        cycle := !cycle;
      }
      found := true;
    }

    /** xhci_update_erdp. */
    method UpdateErdp()
      requires Valid()
      modifies this`erdp, this`acked
      ensures Valid() && erdp == deq && acked == |taken|
    {
      erdp := deq;
      acked := |taken|;
    }

    /** The controller reports an event if there is room. */
    method Produce(data: nat) returns (ok: bool)
      requires Valid()
      modifies this`enq, this`pcs, this`lap, this`produced, ring
      ensures Valid() && (ok <==> |old(produced)| + 1 < acked + ring.Length)
      ensures produced == if ok then old(produced) + [data] else old(produced)
    {
      hide SlotsOk, EndsOk;
      RoomIsExact(ring[..], Where(), produced, taken, acked);
      ok := (if enq + 1 == ring.Length then 0 else enq + 1) != erdp;
      if ok {
        ghost var was := ring[..];
        ProduceSlots(was, Where(), produced, data);
        ProduceEnds(Where(), ring.Length, |taken|, acked);
        ring[enq] := Event(data, pcs);
        assert ring[..] == was[enq := Event(data, pcs)];
        enq := enq + 1;
        if enq == ring.Length {
          enq := 0;
          pcs := !pcs;
          lap := lap + ring.Length;
        }
        produced := produced + [data];
      }
    }
  }
}
