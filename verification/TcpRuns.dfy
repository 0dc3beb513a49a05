/**
 Whole runs of the receiver of kernel/drivers/net.c: segments that arrive and reads that hand bytes out, in any
 order; the packets sent meanwhile; and what a read that returns 0 leaves behind.
 */
module TcpRuns {
  import opened TcpSequence

  datatype Event = Arrive(seg: Segment, pos: nat) | Read(n: nat)

  predicate Legal(p: Peer, c: Conn, e: Event)
  {
    match e
    case Arrive(seg, pos) => FromPeer(p, seg, pos) && Near(c, seg, pos)
    case Read(n) => n <= |c.buffered|
  }

  function Step(c: Conn, capacity: nat, e: Event): (r: Conn)
    requires Fits(c, capacity) && (e.Read? ==> e.n <= |c.buffered|)
    ensures Fits(r, capacity)
  {
    match e
    case Arrive(seg, _) => Receive(c, capacity, seg)
    case Read(n) => Drained(c, n)
  }

  ghost predicate Goes(p: Peer, capacity: nat, c: Conn, e: Event, c': Conn)
  {
    Fits(c, capacity) && Legal(p, c, e) && c' == Step(c, capacity, e)
  }

  /** A run from net_tcp_stream_connect on. */
  ghost predicate IsRun(p: Peer, capacity: nat, cs: seq<Conn>, es: seq<Event>)
  {
    && capacity > 0 && |cs| == |es| + 1 && cs[0] == START
    && forall k :: 0 <= k < |es| ==> Goes(p, capacity, cs[k], es[k], cs[k + 1])
  }

  /** The event does no harm to the stream. */
  ghost predicate Spares(p: Peer, capacity: nat, c: Conn, e: Event)
  {
    e.Arrive? ==> Fits(c, capacity) && Harmless(p, c, capacity, e.seg, e.pos)
  }

  lemma DrainedGood(p: Peer, c: Conn, n: nat)
    requires Good(p, c) && n <= |c.buffered|
    ensures Good(p, Drained(c, n))
  {
    var d := Drained(c, n);
    assert c.buffered == c.buffered[..n] + c.buffered[n..];
    assert d.delivered + d.buffered == c.delivered + c.buffered;
  }

  lemma StepGoodIff(p: Peer, capacity: nat, c: Conn, e: Event, c': Conn)
    requires capacity > 0 && Goes(p, capacity, c, e, c') && Good(p, c)
    ensures Good(p, c') <==> Spares(p, capacity, c, e)
  {
    hide Good, Harmless, FromPeer, Near, Receive;
    match e
    case Arrive(seg, pos) => GoodIff(p, c, capacity, seg, pos);
    case Read(n) => DrainedGood(p, c, n);
  }

  /** As long as no segment does harm the stream is in order. */
  lemma {:induction false} GoodUpTo(p: Peer, capacity: nat, cs: seq<Conn>, es: seq<Event>, k: nat)
    requires IsRun(p, capacity, cs, es) && k <= |es|
    requires forall j :: 0 <= j < k ==> Spares(p, capacity, cs[j], es[j])
    ensures Good(p, cs[k])
  {
    if k > 0 {
      hide Good, Spares;
      GoodUpTo(p, capacity, cs, es, k - 1);
      assert Goes(p, capacity, cs[k - 1], es[k - 1], cs[k]);
      StepGoodIff(p, capacity, cs[k - 1], es[k - 1], cs[k]);
    }
  }

  /** A run keeps the stream in order throughout if and only if none of its segments does harm. */
  lemma RunGoodIff(p: Peer, capacity: nat, cs: seq<Conn>, es: seq<Event>)
    requires IsRun(p, capacity, cs, es)
    ensures (forall k :: 0 <= k < |cs| ==> Good(p, cs[k])) <==>
            (forall k :: 0 <= k < |es| ==> Spares(p, capacity, cs[k], es[k]))
  {
    hide Good, Spares;
    if forall k :: 0 <= k < |es| ==> Spares(p, capacity, cs[k], es[k]) {
      forall k | 0 <= k < |cs| ensures Good(p, cs[k]) { GoodUpTo(p, capacity, cs, es, k); }
    }
    if forall k :: 0 <= k < |cs| ==> Good(p, cs[k]) {
      forall k | 0 <= k < |es| ensures Spares(p, capacity, cs[k], es[k]) {
        assert Goes(p, capacity, cs[k], es[k], cs[k + 1]) && Good(p, cs[k]) && Good(p, cs[k + 1]);
        StepGoodIff(p, capacity, cs[k], es[k], cs[k + 1]);
      }
    }
  }

  /** A SYN carries nothing, and nothing is sent before the SYN-ACK. */
  predicate Plain(c: Conn, seg: Segment)
  {
    seg.rst || (seg.payload == [] && !seg.fin) || (c.connected && !seg.syn)
  }

  lemma PlainHarmless(p: Peer, c: Conn, capacity: nat, seg: Segment, pos: nat)
    requires Fits(c, capacity) && Plain(c, seg)
    ensures Harmless(p, c, capacity, seg, pos)
  {
  }

  /** With a peer that puts nothing on its SYN, whatever is lost, duplicated, reordered or cut anew. */
  lemma PlainRunGood(p: Peer, capacity: nat, cs: seq<Conn>, es: seq<Event>, k: nat)
    requires IsRun(p, capacity, cs, es) && k <= |es|
    requires forall j :: 0 <= j < |es| && es[j].Arrive? ==> Plain(cs[j], es[j].seg)
    ensures Good(p, cs[k])
  {
    hide Good, Harmless, Plain;
    forall j | 0 <= j < k ensures Spares(p, capacity, cs[j], es[j]) {
      assert Goes(p, capacity, cs[j], es[j], cs[j + 1]);
      if es[j].Arrive? { PlainHarmless(p, cs[j], capacity, es[j].seg, es[j].pos); }
    }
    GoodUpTo(p, capacity, cs, es, k);
  }

  // ---- Segments that do harm --------------------------------------------------------------------------------------

  /** A SYN-ACK with three bytes that arrives twice: the first byte is lost. */
  lemma SynDataLosesByte()
    ensures var p, seg := Peer(0, [7, 8, 9]), Packet(false, true, true, false, 0, [7, 8, 9]);
            var c1 := Receive(START, 16, seg); var c2 := Receive(c1, 16, seg);
            && FromPeer(p, seg, 0) && Near(START, seg, 0) && Near(c1, seg, 0)
            && Good(p, c1) && c2 == Conn(true, false, false, 3, [], [8, 9]) && !Good(p, c2)
  {
    var p, seg := Peer(0, [7, 8, 9]), Packet(false, true, true, false, 0, [7, 8, 9]);
    assert p.data[0..3] == p.data;
    var c1 := Receive(START, 16, seg);
    assert [] + seg.payload[1..3] == [8, 9];
    var all: seq<Byte> := [] + [8, 9];
    assert all[0] != p.data[0];
  }

  /** A SYN-ACK with the only byte and the FIN that arrives twice: the stream ends without the byte. */
  lemma SynFinEndsEarly()
    ensures var p, seg := Peer(0, [7]), Packet(false, true, true, true, 0, [7]);
            var c1 := Receive(START, 16, seg); var c2 := Receive(c1, 16, seg);
            && FromPeer(p, seg, 0) && Near(START, seg, 0) && Near(c1, seg, 0)
            && Good(p, c1) && c2 == Conn(true, false, true, 2, [], []) && !Good(p, c2)
  {
    var p, seg := Peer(0, [7]), Packet(false, true, true, true, 0, [7]);
    assert p.data[0..1] == p.data;
  }

  /** A SYN without ACK that brings a byte before the SYN-ACK: the byte is in the buffer and expected again. */
  lemma EarlyByteTwice()
    ensures var p, syn, both := Peer(0, [7]), Packet(false, true, false, false, 0, [7]),
                                Packet(false, true, true, false, 0, [7]);
            var c1 := Receive(START, 16, syn); var c2 := Receive(c1, 16, both);
            && FromPeer(p, syn, 0) && Near(START, syn, 0) && FromPeer(p, both, 0) && Near(c1, both, 0)
            && !Good(p, c1) && c2 == Conn(true, false, false, 1, [], [7])
            && Acked(c2) == 1 && c2.ack == (p.irs + 1) % M
  {
    var p, syn := Peer(0, [7]), Packet(false, true, false, false, 0, [7]);
    assert p.data[0..1] == p.data;
    assert [] + syn.payload[0..1] == [7];
  }

  // ---- The packets sent -------------------------------------------------------------------------------------------

  /** The right edge of the advertised window, as a position. */
  function RightEdge(c: Conn, capacity: nat): nat
    requires Fits(c, capacity)
  {
    Expected(c) + Window(c, capacity)
  }

  /** What a packet advertises is that edge. */
  lemma AdvertisesEdge(p: Peer, c: Conn, capacity: nat, flags: nat)
    requires Fits(c, capacity) && Good(p, c) && c.connected
    ensures var r := AckOf(flags, c, capacity); (r.ack + r.window) % M == (p.irs + 1 + RightEdge(c, capacity)) % M
  {
    ModSum(p.irs + 1 + Expected(c), Window(c, capacity));
  }

  /** Whatever arrives or is read, the right edge never moves left. */
  lemma EdgeNeverRetreats(c: Conn, capacity: nat, seg: Segment, n: nat)
    requires Fits(c, capacity) && n <= |c.buffered|
    ensures RightEdge(c, capacity) <= RightEdge(TakeBytes(c, capacity, seg), capacity)
            <= RightEdge(TakeFin(TakeBytes(c, capacity, seg), seg), capacity)
    ensures RightEdge(c, capacity) <= RightEdge(Receive(c, capacity, seg), capacity)
    ensures RightEdge(c, capacity) <= RightEdge(Drained(c, n), capacity)
  {
    hide Accepts, FinFits;
    if seg.payload != [] && Accepts(c.ack, seg) { OffsetInside(c.ack, seg); }
  }

  lemma RunFits(p: Peer, capacity: nat, cs: seq<Conn>, es: seq<Event>, k: nat)
    requires IsRun(p, capacity, cs, es) && k <= |es|
    ensures Fits(cs[k], capacity)
  {
    if k > 0 { assert Goes(p, capacity, cs[k - 1], es[k - 1], cs[k]); }
  }

  /** So every packet of a run advertises an edge no earlier than those before it. */
  lemma {:induction false} RunEdges(p: Peer, capacity: nat, cs: seq<Conn>, es: seq<Event>, i: nat, j: nat)
    requires IsRun(p, capacity, cs, es) && i <= j <= |es|
    ensures Fits(cs[i], capacity) && Fits(cs[j], capacity) && RightEdge(cs[i], capacity) <= RightEdge(cs[j], capacity)
    decreases j - i
  {
    hide Fits, RightEdge, Receive, TakeBytes, TakeFin, FromPeer, Near;
    RunFits(p, capacity, cs, es, i);
    if i < j {
      assert Goes(p, capacity, cs[i], es[i], cs[i + 1]);
      RunEdges(p, capacity, cs, es, i + 1, j);
      match es[i]
      case Arrive(seg, _) => EdgeNeverRetreats(cs[i], capacity, seg, 0);
      case Read(n) => EdgeNeverRetreats(cs[i], capacity, Packet(false, false, false, false, 0, []), n);
    }
  }

  /** The packet due when everything up to a position is acknowledged and so much room is left. */
  function Due(flags: nat, p: Peer, upTo: nat, room: nat): Reply
  {
    Reply(flags, (p.irs + 1 + upTo) % M, Min(room, 65535))
  }

  /**
   On a connection in order a harmless piece of the stream is answered by one acknowledgement of everything taken if
   it has payload, and by one of the FIN once every byte before it has been taken.
   */
  lemma AnswersDue(p: Peer, c: Conn, capacity: nat, seg: Segment, pos: nat)
    requires Fits(c, capacity) && Good(p, c) && c.connected && !seg.rst && IsPiece(p, seg, pos) && Near(c, seg, pos)
    requires Harmless(p, c, capacity, seg, pos)
    ensures var n := Taken(c, capacity, seg, pos); var room := capacity - |c.buffered| - n;
            && room >= 0
            && Answers(c, capacity, seg) ==
               (if seg.payload != [] then [Due(0x10, p, Expected(c) + n, room)] else [])
               + (if seg.fin && !seg.syn && !c.closed && Acked(c) + n == |p.data|
                  then [Due(0x11, p, |p.data| + 1, room)] else [])
  {
    BytesExact(p, c, capacity, seg, pos);
    if seg.fin { FinExact(p, c, capacity, seg, pos); }
    hide TakeBytes, Accepts, Near, Repeats, FinFits;
  }

  /** The handshake: the connection is up, nothing is accepted yet, and the peer's SYN is acknowledged. */
  lemma HandshakeDue(p: Peer, c: Conn, capacity: nat, seg: Segment, pos: nat)
    requires Fits(c, capacity) && Good(p, c) && !c.connected && !seg.rst && seg.syn && seg.ack && IsPiece(p, seg, pos)
    ensures var r := Receive(c, capacity, seg);
            && r.connected && Good(p, r) && Acked(r) == 0 && !r.closed && r.reset == c.reset
            && Answers(c, capacity, seg) == [Due(0x10, p, 0, capacity)]
  {
    ModSum(p.irs, 1);
  }

  /** A reset is noted and nothing else; a segment with nothing in it changes nothing. Neither is answered. */
  lemma NothingDue(c: Conn, capacity: nat, seg: Segment)
    requires Fits(c, capacity) && (seg.rst || (seg.payload == [] && !seg.fin && (c.connected || !seg.syn || !seg.ack)))
    ensures Answers(c, capacity, seg) == []
    ensures var r := Receive(c, capacity, seg);
            && r.reset == (c.reset || seg.rst) && r.connected == c.connected && r.closed == c.closed
            && r.ack == c.ack && r.delivered == c.delivered && r.buffered == c.buffered
  {
  }

  // ---- Waiting for data -------------------------------------------------------------------------------------------

  datatype Outcome = Ready | WasReset | WasClosed | TimedOut

  /** One call of net_progress_device that finds a batch of segments. */
  function After(c: Conn, capacity: nat, segs: seq<Segment>): (r: Conn)
    requires Fits(c, capacity)
    ensures Fits(r, capacity)
    decreases |segs|
  {
    if segs == [] then c else After(Receive(c, capacity, segs[0]), capacity, segs[1..])
  }

  /** The batches that the polls of a wait deliver; there is at least one, and the timer runs out after the last. */
  type Polls = polls: seq<seq<Segment>> | |polls| > 0 witness [[]]

  /** The wait of net_tcp_stream_recv. */
  function Wait(c: Conn, capacity: nat, polls: Polls): (r: (Conn, Outcome))
    requires Fits(c, capacity)
    ensures Fits(r.0, capacity) && (r.1 == Ready ==> r.0.buffered != [])
    decreases |polls|
  {
    if c.buffered != [] then (c, Ready)
    else
      var c' := After(c, capacity, polls[0]);
      if c'.reset then (c', WasReset)
      else if c'.closed then (c', WasClosed)
      else if |polls| == 1 then (c', TimedOut)
      else Wait(c', capacity, polls[1..])
  }

  /** The receiver after several polls. */
  function Polled(c: Conn, capacity: nat, polls: seq<seq<Segment>>): (r: Conn)
    requires Fits(c, capacity)
    ensures Fits(r, capacity)
    decreases |polls|
  {
    if polls == [] then c else Polled(After(c, capacity, polls[0]), capacity, polls[1..])
  }

  /** The segments of a batch are handled one after the other, all of them. */
  ghost predicate HandlesAll(c: Conn, capacity: nat, segs: seq<Segment>, cs: seq<Conn>)
  {
    && |cs| == |segs| + 1 && cs[0] == c && (forall k :: 0 <= k < |cs| ==> Fits(cs[k], capacity))
    && forall k :: 0 <= k < |segs| ==> cs[k + 1] == Receive(cs[k], capacity, segs[k])
  }

  lemma {:induction false} AfterHandlesAll(c: Conn, capacity: nat, segs: seq<Segment>) returns (cs: seq<Conn>)
    requires Fits(c, capacity)
    ensures HandlesAll(c, capacity, segs, cs) && After(c, capacity, segs) == cs[|segs|]
    decreases |segs|
  {
    hide Receive;
    if segs == [] {
      cs := [c];
    } else {
      var rest := AfterHandlesAll(Receive(c, capacity, segs[0]), capacity, segs[1..]);
      cs := [c] + rest;
      forall k | 0 <= k < |segs| ensures cs[k + 1] == Receive(cs[k], capacity, segs[k]) {
        if k > 0 { assert rest[k] == Receive(rest[k - 1], capacity, segs[1..][k - 1]); }
      }
    }
  }

  // ---- When the wait ends -----------------------------------------------------------------------------------------

  /** The stream after k polls. */
  function StateAt(c: Conn, capacity: nat, polls: Polls, k: nat): (r: Conn)
    requires Fits(c, capacity) && k <= |polls|
  {
    Polled(c, capacity, polls[..k])
  }

  predicate Stopped(c: Conn)
  {
    c.reset || c.closed
  }

  /** Nothing has arrived before poll k, and the stream has not ended in any of the polls before it. */
  predicate Quiet(c: Conn, capacity: nat, polls: Polls, k: nat)
    requires Fits(c, capacity) && k <= |polls|
  {
    forall j :: 0 <= j < k ==>
      StateAt(c, capacity, polls, j).buffered == [] && (j > 0 ==> !Stopped(StateAt(c, capacity, polls, j)))
  }

  /**
   The wait ends after k polls: with bytes, unless the time is up; with a reset or, if there is none, with a close;
   or because the time is up, bytes or not.
   */
  predicate EndsAfter(c: Conn, capacity: nat, polls: Polls, k: nat, o: Outcome)
    requires Fits(c, capacity) && k <= |polls|
  {
    var s := StateAt(c, capacity, polls, k);
    && Quiet(c, capacity, polls, k)
    && match o
       case Ready => k < |polls| && s.buffered != [] && (k > 0 ==> !Stopped(s))
       case WasReset => k > 0 && s.reset
       case WasClosed => k > 0 && s.closed && !s.reset
       case TimedOut => k == |polls| && !Stopped(s)
  }

  lemma StateAtNext(c: Conn, capacity: nat, polls: Polls, k: nat)
    requires Fits(c, capacity) && 0 < k <= |polls| && |polls| > 1
    ensures StateAt(c, capacity, polls, k) == StateAt(After(c, capacity, polls[0]), capacity, polls[1..], k - 1)
  {
    assert polls[..k][1..] == polls[1..][..k - 1];
  }

  lemma StateAtFirst(c: Conn, capacity: nat, polls: Polls)
    requires Fits(c, capacity)
    ensures StateAt(c, capacity, polls, 0) == c && StateAt(c, capacity, polls, 1) == After(c, capacity, polls[0])
  {
    hide After;
    var first := polls[..1];
    assert polls[..0] == [] && first == [polls[0]] && first[1..] == [];
    assert Polled(c, capacity, first) == Polled(After(c, capacity, first[0]), capacity, first[1..]);
  }

  /** A poll that brings nothing and ends nothing only shortens the wait. */
  lemma EndsLater(c: Conn, capacity: nat, polls: Polls, k: nat, o: Outcome)
    requires Fits(c, capacity) && c.buffered == [] && |polls| > 1 && k < |polls|
    requires var c' := After(c, capacity, polls[0]);
             !Stopped(c') && EndsAfter(c', capacity, polls[1..], k, o)
    ensures EndsAfter(c, capacity, polls, k + 1, o)
  {
    hide StateAt, After;
    StateAtFirst(c, capacity, polls);
    var c' := After(c, capacity, polls[0]);
    forall j | 0 < j <= |polls|
      ensures StateAt(c, capacity, polls, j) == StateAt(c', capacity, polls[1..], j - 1) {
      StateAtNext(c, capacity, polls, j);
    }
  }

  lemma {:induction false} WaitEnds(c: Conn, capacity: nat, polls: Polls) returns (k: nat)
    requires Fits(c, capacity)
    ensures k <= |polls| && EndsAfter(c, capacity, polls, k, Wait(c, capacity, polls).1)
    ensures Wait(c, capacity, polls).0 == StateAt(c, capacity, polls, k)
    decreases |polls|
  {
    hide StateAt, After;
    StateAtFirst(c, capacity, polls);
    if c.buffered != [] { return 0; }
    var c' := After(c, capacity, polls[0]);
    if Stopped(c') || |polls| == 1 { return 1; }
    k := WaitEnds(c', capacity, polls[1..]);
    EndsLater(c, capacity, polls, k, Wait(c, capacity, polls).1);
    StateAtNext(c, capacity, polls, k + 1);
    k := k + 1;
  }

  /** It ends only once and in one way. */
  lemma EndsOnce(c: Conn, capacity: nat, polls: Polls, k: nat, o: Outcome, m: nat, q: Outcome)
    requires Fits(c, capacity) && k <= m <= |polls|
    requires EndsAfter(c, capacity, polls, k, o) && EndsAfter(c, capacity, polls, m, q)
    ensures k == m && o == q
  {
    hide StateAt;
  }

  /** The outcome of a wait and the stream behind it, exactly. */
  lemma WaitExact(c: Conn, capacity: nat, polls: Polls, r: Conn, o: Outcome)
    requires Fits(c, capacity)
    ensures Wait(c, capacity, polls) == (r, o) <==>
            exists k: nat :: k <= |polls| && EndsAfter(c, capacity, polls, k, o) && r == StateAt(c, capacity, polls, k)
  {
    hide EndsAfter, StateAt, Wait;
    var k := WaitEnds(c, capacity, polls);
    forall m: nat | m <= |polls| && EndsAfter(c, capacity, polls, m, o)
      ensures m == k && o == Wait(c, capacity, polls).1 {
      if k <= m {
        EndsOnce(c, capacity, polls, k, Wait(c, capacity, polls).1, m, o);
      } else {
        EndsOnce(c, capacity, polls, m, o, k, Wait(c, capacity, polls).1);
      }
    }
  }

  // ---- What is left behind ----------------------------------------------------------------------------------------

  /** All of a batch is sent by the peer, near what is then expected, and harmless. */
  predicate Arrives(p: Peer, c: Conn, capacity: nat, segs: seq<Segment>, at: seq<nat>)
    requires Fits(c, capacity)
    decreases |segs|
  {
    |segs| == |at| &&
    (segs == [] ||
     (FromPeer(p, segs[0], at[0]) && Near(c, segs[0], at[0]) && Harmless(p, c, capacity, segs[0], at[0])
      && Arrives(p, Receive(c, capacity, segs[0]), capacity, segs[1..], at[1..])))
  }

  predicate AllArrive(p: Peer, c: Conn, capacity: nat, polls: seq<seq<Segment>>, at: seq<seq<nat>>)
    requires Fits(c, capacity)
    decreases |polls|
  {
    |polls| == |at| &&
    (polls == [] ||
     (Arrives(p, c, capacity, polls[0], at[0])
      && AllArrive(p, After(c, capacity, polls[0]), capacity, polls[1..], at[1..])))
  }

  lemma ReceiveHandsOutNothing(c: Conn, capacity: nat, seg: Segment)
    requires Fits(c, capacity)
    ensures var r := Receive(c, capacity, seg); r.delivered == c.delivered && c.buffered <= r.buffered
  {
    hide Accepts, FinFits;
    if seg.payload != [] && Accepts(c.ack, seg) { OffsetInside(c.ack, seg); }
  }

  lemma {:induction false} AfterGood(p: Peer, c: Conn, capacity: nat, segs: seq<Segment>, at: seq<nat>)
    requires Good(p, c) && Fits(c, capacity) && capacity > 0 && Arrives(p, c, capacity, segs, at)
    ensures var r := After(c, capacity, segs);
            Good(p, r) && r.delivered == c.delivered && c.buffered <= r.buffered
    decreases |segs|
  {
    if segs != [] {
      hide Good, Receive, Near, Harmless, FromPeer;
      GoodIff(p, c, capacity, segs[0], at[0]);
      ReceiveHandsOutNothing(c, capacity, segs[0]);
      AfterGood(p, Receive(c, capacity, segs[0]), capacity, segs[1..], at[1..]);
    }
  }

  /** The result 0 of net_tcp_stream_recv. */
  predicate ReturnsZero(c: Conn, capacity: nat, polls: Polls)
    requires Fits(c, capacity)
  {
    Wait(c, capacity, polls).1 == WasClosed || Wait(c, capacity, polls).1 == TimedOut
  }

  lemma LeftOver(p: Peer, c: Conn, r: Conn)
    requires Good(p, r) && r.delivered == c.delivered && c.buffered == []
    ensures Acked(c) <= Acked(r) <= |p.data| && r.buffered == p.data[Acked(c)..Acked(r)]
  {
    assert r.buffered == (r.delivered + r.buffered)[|r.delivered|..];
  }

  /**
   A call that returns 0, for either reason, leaves in the buffer exactly the bytes of the stream that its last poll
   took: none were waiting before, and the polls before the last took none.
   */
  lemma {:induction false} ZeroLeaves(p: Peer, c: Conn, capacity: nat, polls: Polls, at: seq<seq<nat>>)
    returns (last: nat)
    requires Good(p, c) && Fits(c, capacity) && capacity > 0 && AllArrive(p, c, capacity, polls, at)
    requires ReturnsZero(c, capacity, polls)
    ensures last < |polls|
    ensures var before := Polled(c, capacity, polls[..last]); var r := Wait(c, capacity, polls).0;
            && before.delivered == c.delivered && before.buffered == c.buffered == []
            && r == After(before, capacity, polls[last]) && Good(p, r) && r.delivered == c.delivered
            && Acked(r) <= |p.data| && r.buffered == p.data[Acked(c)..Acked(r)]
    decreases |polls|
  {
    hide Good, After, Arrives, Acked;
    AfterGood(p, c, capacity, polls[0], at[0]);
    var c' := After(c, capacity, polls[0]);
    if c'.closed || |polls| == 1 {
      last := 0;
      LeftOver(p, c, c');
    } else {
      last := ZeroLeaves(p, c', capacity, polls[1..], at[1..]);
      assert polls[..last + 1][1..] == polls[1..][..last];
      SameAcked(c, c');
      last := last + 1;
    }
  }

  lemma SameAcked(c: Conn, d: Conn)
    requires c.delivered == d.delivered && c.buffered == d.buffered
    ensures Acked(c) == Acked(d)
  {
  }

  /**
   When a call returns 0, the whole stream has been handed out if and only if every byte had been acknowledged before
   the call; nothing is left in the buffer if and only if the call took nothing.
   */
  lemma ZeroMeansEnd(p: Peer, c: Conn, capacity: nat, polls: Polls, at: seq<seq<nat>>)
    requires Good(p, c) && Fits(c, capacity) && capacity > 0 && AllArrive(p, c, capacity, polls, at)
    requires ReturnsZero(c, capacity, polls)
    ensures var r := Wait(c, capacity, polls).0;
            && (r.delivered == p.data <==> Acked(c) == |p.data|)
            && (r.buffered == [] <==> Acked(r) == Acked(c))
  {
    hide Arrives, After, Polled;
    var last := ZeroLeaves(p, c, capacity, polls, at);
    assert c.buffered == [];
    if Acked(c) == |p.data| { assert c.delivered + [] == c.delivered == p.data; }
  }

  /** If the peer closed, nothing is left if and only if every byte had been acknowledged before. */
  lemma ClosedMeansEnd(p: Peer, c: Conn, capacity: nat, polls: Polls, at: seq<seq<nat>>)
    requires Good(p, c) && Fits(c, capacity) && capacity > 0 && AllArrive(p, c, capacity, polls, at)
    requires Wait(c, capacity, polls).1 == WasClosed
    ensures Wait(c, capacity, polls).0.buffered == [] <==> Acked(c) == |p.data|
  {
    hide Arrives, After, Polled;
    ClosedAtEnd(c, capacity, polls);
    var last := ZeroLeaves(p, c, capacity, polls, at);
  }

  lemma {:induction false} ClosedAtEnd(c: Conn, capacity: nat, polls: Polls)
    requires Fits(c, capacity) && Wait(c, capacity, polls).1 == WasClosed
    ensures Wait(c, capacity, polls).0.closed
    decreases |polls|
  {
    hide After;
    var c' := After(c, capacity, polls[0]);
    if !c'.closed { ClosedAtEnd(c', capacity, polls[1..]); }
  }

  /** One batch with the last byte and the FIN: the call reports 0 and the byte is still in the buffer. */
  lemma LastByteLeftBehind()
    ensures var p, c := Peer(0, [7]), Conn(true, false, false, 1, [], []);
            var seg := Packet(false, false, true, true, 1, [7]);
            && Good(p, c) && AllArrive(p, c, 16, [[seg]], [[0]])
            && Wait(c, 16, [[seg]]) == (Conn(true, false, true, 3, [], [7]), WasClosed)
  {
    var p, c := Peer(0, [7]), Conn(true, false, false, 1, [], []);
    OneByteWait(p, c, Packet(false, false, true, true, 1, [7]));
  }

  /** The first of two bytes arrives in the last poll: the call reports 0 on an open stream, the byte in the buffer. */
  lemma TimeoutLeavesByte()
    ensures var p, c := Peer(0, [7, 8]), Conn(true, false, false, 1, [], []);
            var seg := Packet(false, false, true, false, 1, [7]);
            && Good(p, c) && AllArrive(p, c, 16, [[seg]], [[0]])
            && Wait(c, 16, [[seg]]) == (Conn(true, false, false, 2, [], [7]), TimedOut)
  {
    var p, c := Peer(0, [7, 8]), Conn(true, false, false, 1, [], []);
    OneByteWait(p, c, Packet(false, false, true, false, 1, [7]));
  }

  /** A poll that brings the first byte. */
  lemma OneByteWait(p: Peer, c: Conn, seg: Segment)
    requires p.irs == 0 && |p.data| > 0 && p.data[0] == 7 && c == Conn(true, false, false, 1, [], [])
    requires seg == Packet(false, false, true, |p.data| == 1, 1, [7])
    ensures Good(p, c) && AllArrive(p, c, 16, [[seg]], [[0]])
    ensures Wait(c, 16, [[seg]]) ==
            (Conn(true, false, seg.fin, if seg.fin then 3 else 2, [], [7]), if seg.fin then WasClosed else TimedOut)
  {
    assert p.data[0..1] == [7] && seg.payload[0..1] == [7];
    assert FromPeer(p, seg, 0) && Near(c, seg, 0) && Harmless(p, c, 16, seg, 0);
    var c' := Receive(c, 16, seg);
    assert c' == Conn(true, false, seg.fin, if seg.fin then 3 else 2, [], [7]);
    hide Receive, FromPeer, Near, Harmless;
    assert [seg][1..] == [] && [0][1..] == [];
    assert Arrives(p, c', 16, [], []) && After(c', 16, []) == c';
    assert Arrives(p, c, 16, [seg], [0]) && After(c, 16, [seg]) == c';
    assert [[seg]][1..] == [] && [[0]][1..] == [];
    assert AllArrive(p, c', 16, [], []);
  }
}
