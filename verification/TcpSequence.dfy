/**
 The receiving side of a TCP stream (kernel/drivers/net.c): what net_handle_tcp does with any segment, on 32-bit
 sequence numbers, and what that means for the positions of the bytes in the peer's stream.
 */
module TcpSequence {

  const M: int := 0x1_0000_0000
  const HALF: int := 0x8000_0000

  type Byte = b: int | 0 <= b < 256

  // ---- 32-bit sequence numbers ------------------------------------------------------------------------------------

  /** uint32_t difference read as int32_t. */
  function Signed(a: int, b: int): int
  {
    var d := (a - b) % M;
    if d < HALF then d else d - M
  }

  /** net_tcp_seq_before and net_tcp_seq_after. */
  predicate SeqBefore(a: int, b: int) { Signed(a, b) < 0 }

  predicate SeqAfter(a: int, b: int) { Signed(a, b) > 0 }

  /** For positions less than 2^31 apart, or exactly so far before, the wrapped comparison is exact. */
  lemma SeqExact(x: int, y: int)
    requires -HALF <= x - y < HALF
    ensures Signed(x % M, y % M) == x - y
    ensures SeqBefore(x % M, y % M) <==> x < y
    ensures SeqAfter(x % M, y % M) <==> x > y
    ensures x % M == y % M <==> x == y
  {
    ModDifference(x, y);
  }

  lemma ModDifference(x: int, y: int)
    ensures (x % M - y % M) % M == (x - y) % M
  {
    var a, b := x / M, y / M;
    assert x == a * M + x % M && y == b * M + y % M;
  }

  lemma ModSum(x: int, y: int)
    ensures (x % M + y) % M == (x + y) % M
  {
    var a := x / M;
    assert x == a * M + x % M;
  }

  // ---- Segments and the receiver ----------------------------------------------------------------------------------

  datatype Packet = Packet(rst: bool, syn: bool, ack: bool, fin: bool, seq_: nat, payload: seq<Byte>)

  /** A packet of IPv4, whose length field has 16 bits. */
  type Segment = s: Packet | s.seq_ < M && |s.payload| < 65536 witness Packet(false, false, false, false, 0, [])

  /** The receiver: the number it expects next, what it has handed out, and what waits in its buffer. */
  datatype Conn = Conn(connected: bool, reset: bool, closed: bool, ack: nat, delivered: seq<Byte>, buffered: seq<Byte>)

  const START := Conn(false, false, false, 0, [], [])

  predicate Fits(c: Conn, capacity: nat)
  {
    c.ack < M && |c.buffered| <= capacity
  }

  /** How many bytes were accepted so far. */
  function Acked(c: Conn): nat
  {
    |c.delivered| + |c.buffered|
  }

  function Min(a: int, b: int): int { if a < b then a else b }

  /** The test of net_handle_tcp for payload: it begins at the expected number, or begins before and ends after it. */
  predicate Accepts(ack: nat, seg: Segment)
  {
    seg.seq_ == ack || (SeqBefore(seg.seq_, ack) && SeqAfter((seg.seq_ + |seg.payload|) % M, ack))
  }

  function Offset(ack: nat, seg: Segment): nat
  {
    (ack - seg.seq_) % M
  }

  /** An accepted segment has bytes from the expected one on. */
  lemma OffsetInside(ack: nat, seg: Segment)
    requires ack < M && seg.payload != [] && Accepts(ack, seg)
    ensures Offset(ack, seg) < |seg.payload|
  {
    if seg.seq_ != ack {
      BeforeWithinHalf(seg.seq_, ack);
      hide SeqBefore, SeqAfter, Signed;
      SeqExact(seg.seq_ + |seg.payload|, seg.seq_ + Offset(ack, seg));
    }
  }

  /** A number before another is at most 2^31 away from it. */
  lemma BeforeWithinHalf(a: nat, b: nat)
    requires a < M && b < M && SeqBefore(a, b)
    ensures (b - a) % M <= HALF && (a + (b - a) % M) % M == b
  {
    if a <= b {
      assert (b - a) % M == b - a;
    } else {
      assert (b - a) % M == b - a + M;
    }
  }

  /** As many bytes as fit are appended and acknowledged. */
  function TakeBytes(c: Conn, capacity: nat, seg: Segment): (r: Conn)
    requires Fits(c, capacity)
    ensures Fits(r, capacity)
  {
    if seg.payload == [] || !Accepts(c.ack, seg) then c
    else
      OffsetInside(c.ack, seg);
      var offset := Offset(c.ack, seg);
      var n := Min(|seg.payload| - offset, capacity - |c.buffered|);
      c.(ack := (c.ack + n) % M, buffered := c.buffered + seg.payload[offset..offset + n])
  }

  /** The FIN counts when it stands at the expected number. */
  predicate FinFits(ack: nat, seg: Segment)
  {
    seg.fin && (seg.seq_ + |seg.payload|) % M == ack
  }

  function TakeFin(c: Conn, seg: Segment): Conn
  {
    if FinFits(c.ack, seg) then c.(ack := (seg.seq_ + |seg.payload| + 1) % M, closed := true) else c
  }

  /** What net_handle_tcp makes of any segment. */
  function Receive(c: Conn, capacity: nat, seg: Segment): (r: Conn)
    requires Fits(c, capacity)
    ensures Fits(r, capacity)
  {
    if seg.rst then c.(reset := true)
    else if !c.connected && seg.syn && seg.ack then c.(connected := true, ack := (seg.seq_ + 1) % M)
    else TakeFin(TakeBytes(c, capacity, seg), seg)
  }

  /** net_tcp_stream_window. */
  function Window(c: Conn, capacity: nat): nat
    requires Fits(c, capacity)
  {
    Min(capacity - |c.buffered|, 65535)
  }

  datatype Reply = Reply(flags: nat, ack: nat, window: nat)

  function AckOf(flags: nat, c: Conn, capacity: nat): Reply
    requires Fits(c, capacity)
  {
    Reply(flags, c.ack, Window(c, capacity))
  }

  /** What is sent in answer: one packet for the handshake or for payload, taken or not, and one for the FIN. */
  function Answers(c: Conn, capacity: nat, seg: Segment): seq<Reply>
    requires Fits(c, capacity)
  {
    if seg.rst then []
    else if !c.connected && seg.syn && seg.ack then [AckOf(0x10, Receive(c, capacity, seg), capacity)]
    else
      var c1 := TakeBytes(c, capacity, seg);
      (if seg.payload != [] then [AckOf(0x10, c1, capacity)] else [])
      + (if FinFits(c1.ack, seg) then [AckOf(0x11, TakeFin(c1, seg), capacity)] else [])
  }

  /** Two different numbers are before or after each other. */
  lemma SomeSide(a: nat, b: nat)
    requires a < M && b < M && a != b
    ensures SeqBefore(a, b) || SeqAfter(a, b)
  {
  }

  /** Handing out n buffered bytes. */
  function Drained(c: Conn, n: nat): Conn
    requires n <= |c.buffered|
  {
    c.(delivered := c.delivered + c.buffered[..n], buffered := c.buffered[n..])
  }

  // ---- The peer ---------------------------------------------------------------------------------------------------

  /** What the peer has to say: its initial sequence number and the bytes it will send before its FIN. */
  datatype Peer = Peer(irs: nat, data: seq<Byte>)

  /**
   The segment is one the peer sent: a reset, a bare acknowledgement, or a piece of its stream at pos, which a SYN
   may carry too (section 3.4 of RFC 9293). A SYN takes the number before its payload.
   */
  predicate FromPeer(p: Peer, seg: Segment, pos: nat)
  {
    || seg.rst
    || (!seg.syn && seg.payload == [] && !seg.fin)
    || IsPiece(p, seg, pos)
  }

  predicate IsPiece(p: Peer, seg: Segment, pos: nat)
  {
    && pos + |seg.payload| <= |p.data| && seg.payload == p.data[pos..pos + |seg.payload|]
    && (seg.fin ==> pos + |seg.payload| == |p.data|) && (seg.syn ==> pos == 0)
    && seg.seq_ == (p.irs + 1 + Begin(seg, pos)) % M
  }

  /** The position that belongs to the segment's number; net_handle_tcp takes the payload to begin there. */
  function Begin(seg: Segment, pos: nat): int
  {
    if seg.syn then -1 else pos
  }

  /** The position expected next; the FIN takes one. */
  function Expected(c: Conn): nat
  {
    Acked(c) + if c.closed then 1 else 0
  }

  /** The segment begins at most 2^31 before what is expected and ends less than 2^31 behind it. */
  predicate Near(c: Conn, seg: Segment, pos: nat)
  {
    c.connected ==> -HALF <= Begin(seg, pos) - Expected(c) && Begin(seg, pos) + |seg.payload| - Expected(c) < HALF
  }

  /**
   What was handed out, followed by what is buffered, is a prefix of the peer's stream, the number expected next is
   the one after it, a close is the end of the stream, and nothing is accepted before the connection is up.
   */
  ghost predicate Good(p: Peer, c: Conn)
  {
    && c.delivered + c.buffered <= p.data
    && (c.closed ==> c.connected && Acked(c) == |p.data|)
    && c.ack == (if c.connected then (p.irs + 1 + Expected(c)) % M else 0)
    && (!c.connected ==> Acked(c) == 0)
  }

  /** What a segment adds, on positions: everything new that fits in the buffer. */
  function Taken(c: Conn, capacity: nat, seg: Segment, pos: nat): nat
    requires Fits(c, capacity)
  {
    var end := Begin(seg, pos) + |seg.payload|;
    if Begin(seg, pos) <= Acked(c) < end then Min(end - Acked(c), capacity - |c.buffered|) else 0
  }

  /** The acceptance test on wrapped numbers, and the offset it computes, in terms of positions. */
  lemma TestExact(p: Peer, c: Conn, seg: Segment, pos: nat)
    requires Good(p, c) && c.connected && IsPiece(p, seg, pos) && Near(c, seg, pos) && seg.payload != []
    ensures Accepts(c.ack, seg) <==> Begin(seg, pos) <= Acked(c) < Begin(seg, pos) + |seg.payload|
    ensures Accepts(c.ack, seg) ==> !c.closed && Offset(c.ack, seg) == Acked(c) - Begin(seg, pos)
  {
    hide SeqBefore, SeqAfter, Signed;
    var here, want := p.irs + 1 + Begin(seg, pos), p.irs + 1 + Expected(c);
    SeqExact(here, want);
    SeqExact(here + |seg.payload|, want);
    ModSum(here, |seg.payload|);
    ModDifference(want, here);
  }

  /** The position of the first byte that is taken: one too far when the segment has a SYN. */
  function First(c: Conn, seg: Segment): nat
  {
    Acked(c) + if seg.syn then 1 else 0
  }

  /** How many bytes are taken, and from where in the payload. */
  lemma CountExact(p: Peer, c: Conn, capacity: nat, seg: Segment, pos: nat)
    requires Fits(c, capacity) && Good(p, c) && c.connected && IsPiece(p, seg, pos) && Near(c, seg, pos)
    ensures var n, o := Taken(c, capacity, seg, pos), Acked(c) - Begin(seg, pos);
            && (n == 0 ==> TakeBytes(c, capacity, seg) == c)
            && (n > 0 ==> !c.closed && 0 <= o && o + n <= |seg.payload|)
            && (n > 0 ==> TakeBytes(c, capacity, seg) ==
                          c.(ack := (c.ack + n) % M, buffered := c.buffered + seg.payload[o..o + n]))
  {
    hide Accepts, Offset, Near;
    if seg.payload != [] {
      TestExact(p, c, seg, pos);
      hide Good, IsPiece;
      if Accepts(c.ack, seg) { NoRoom(c, seg, Offset(c.ack, seg)); }
    }
  }

  lemma NoRoom(c: Conn, seg: Segment, o: nat)
    requires c.ack < M && o <= |seg.payload|
    ensures c.(ack := (c.ack + 0) % M, buffered := c.buffered + seg.payload[o..o + 0]) == c
  {
    assert seg.payload[o..o + 0] == [] && c.buffered + [] == c.buffered;
  }

  /** Which bytes of the stream are taken. */
  lemma BytesExact(p: Peer, c: Conn, capacity: nat, seg: Segment, pos: nat)
    requires Fits(c, capacity) && Good(p, c) && c.connected && IsPiece(p, seg, pos) && Near(c, seg, pos)
    ensures var n, r := Taken(c, capacity, seg, pos), TakeBytes(c, capacity, seg);
            && r == c.(ack := (p.irs + 1 + Expected(c) + n) % M, buffered := r.buffered)
            && (n == 0 ==> r.buffered == c.buffered)
            && (n > 0 ==> !c.closed && First(c, seg) + n <= |p.data|)
            && (n > 0 ==> r.buffered == c.buffered + p.data[First(c, seg)..First(c, seg) + n])
  {
    CountExact(p, c, capacity, seg, pos);
    assert c.ack == (p.irs + 1 + Expected(c)) % M;
    hide Good, TakeBytes, Near, Taken, Expected;
    var n, o := Taken(c, capacity, seg, pos), Acked(c) - Begin(seg, pos);
    ModSum(p.irs + 1 + Expected(c), n);
    if n > 0 { Slices(p.data, pos, |seg.payload|, o, n); }
  }

  lemma Slices(data: seq<Byte>, pos: nat, size: nat, offset: nat, n: nat)
    requires pos + size <= |data| && offset + n <= size
    ensures data[pos..pos + size][offset..offset + n] == data[pos + offset..pos + offset + n]
  {
    var piece := data[pos..pos + size];
    var left, right := piece[offset..offset + n], data[pos + offset..pos + offset + n];
    forall k | 0 <= k < n ensures left[k] == right[k] { assert piece[offset + k] == data[pos + (offset + k)]; }
    assert left == right;
  }

  /** When the FIN counts, and what is then expected. */
  lemma FinExact(p: Peer, c: Conn, capacity: nat, seg: Segment, pos: nat)
    requires Fits(c, capacity) && Good(p, c) && c.connected && IsPiece(p, seg, pos) && Near(c, seg, pos) && seg.fin
    ensures var n, c1 := Taken(c, capacity, seg, pos), TakeBytes(c, capacity, seg);
            && (FinFits(c1.ack, seg) <==> !c.closed && Acked(c) + n == Begin(seg, pos) + |seg.payload|)
            && (FinFits(c1.ack, seg) ==> TakeFin(c1, seg).ack == (p.irs + 1 + Acked(c) + n + 1) % M)
  {
    BytesExact(p, c, capacity, seg, pos);
    var n, end := Taken(c, capacity, seg, pos), p.irs + 1 + Begin(seg, pos) + |seg.payload|;
    hide Accepts, Offset, TakeBytes;
    SeqExact(end, p.irs + 1 + Expected(c) + n);
    ModSum(p.irs + 1 + Begin(seg, pos), |seg.payload|);
    ModSum(p.irs + 1 + Begin(seg, pos), |seg.payload| + 1);
  }

  // ---- Which segments keep the stream in order --------------------------------------------------------------------

  /** Each of the n bytes from a on is the same as the one behind it. */
  predicate Repeats(data: seq<Byte>, a: nat, n: nat)
  {
    n == 0 || (a + n < |data| && data[a..a + n] == data[a + 1..a + 1 + n])
  }

  /**
   The segments that do no harm. On a connection that is up these are all without a SYN; a SYN may not bring bytes
   that are taken, unless taking them one position too far makes no difference, nor a FIN that counts one byte early.
   Before, they are the SYN-ACK and whatever the test does not take for the number 0.
   */
  predicate Harmless(p: Peer, c: Conn, capacity: nat, seg: Segment, pos: nat)
    requires Fits(c, capacity)
  {
    if seg.rst then true
    else if c.connected then
      seg.syn ==>
        var n := Taken(c, capacity, seg, pos);
        Repeats(p.data, Acked(c), n) && !(seg.fin && Acked(c) + n + 1 == |p.data|)
    else
      (seg.syn && seg.ack) || (!(seg.payload != [] && Accepts(0, seg)) && !FinFits(0, seg))
  }

  /** Bytes of the stream continue a prefix of it exactly when they are the next ones. */
  lemma PrefixGrows(data: seq<Byte>, delivered: seq<Byte>, buffered: seq<Byte>, at: nat, n: nat)
    requires delivered + buffered <= data && |delivered| + |buffered| <= at && at + n <= |data|
    ensures delivered + (buffered + data[at..at + n]) <= data <==>
            data[at..at + n] == data[|delivered| + |buffered|..|delivered| + |buffered| + n]
  {
    var a, more := |delivered| + |buffered|, data[at..at + n];
    var all := delivered + (buffered + more);
    assert all == data[..a] + more && all[a..] == more;
    if all <= data { assert data[a..a + n] == all[a..]; }
    if more == data[a..a + n] { assert all == data[..a + n]; }
  }

  /** The next n bytes, or with a SYN those one position too far. */
  lemma PrefixStep(data: seq<Byte>, delivered: seq<Byte>, old_: seq<Byte>, new_: seq<Byte>, syn: bool, n: nat)
    requires delivered + old_ <= data && (n == 0 ==> new_ == old_)
    requires n > 0 ==> var at := |delivered| + |old_| + if syn then 1 else 0;
                       at + n <= |data| && new_ == old_ + data[at..at + n]
    ensures delivered + new_ <= data <==> (syn ==> Repeats(data, |delivered| + |old_|, n))
  {
    var at := |delivered| + |old_| + if syn then 1 else 0;
    if n > 0 { PrefixGrows(data, delivered, old_, at, n); }
  }

  /** The bytes taken continue the prefix exactly when they are the right ones. */
  lemma PrefixIff(p: Peer, c: Conn, capacity: nat, seg: Segment, pos: nat)
    requires Fits(c, capacity) && Good(p, c) && c.connected && IsPiece(p, seg, pos) && Near(c, seg, pos)
    ensures var c1 := TakeBytes(c, capacity, seg);
            c1.delivered + c1.buffered <= p.data <==>
            (seg.syn ==> Repeats(p.data, Acked(c), Taken(c, capacity, seg, pos)))
  {
    var n, c1 := Taken(c, capacity, seg, pos), TakeBytes(c, capacity, seg);
    BytesExact(p, c, capacity, seg, pos);
    assert c.delivered + c.buffered <= p.data;
    hide TakeBytes, Near, IsPiece, Taken, Repeats, Expected, Good;
    PrefixStep(p.data, c.delivered, c.buffered, c1.buffered, seg.syn, n);
  }

  lemma ConnectedIff(p: Peer, c: Conn, capacity: nat, seg: Segment, pos: nat)
    requires Fits(c, capacity) && Good(p, c) && c.connected && !seg.rst && IsPiece(p, seg, pos) && Near(c, seg, pos)
    ensures Good(p, Receive(c, capacity, seg)) <==> Harmless(p, c, capacity, seg, pos)
  {
    BytesExact(p, c, capacity, seg, pos);
    PrefixIff(p, c, capacity, seg, pos);
    if seg.fin { FinExact(p, c, capacity, seg, pos); }
    hide TakeBytes, Near, Repeats, Taken, FinFits;
    var c1, n := TakeBytes(c, capacity, seg), Taken(c, capacity, seg, pos);
    assert Acked(c1) == Acked(c) + n;
  }

  lemma UnconnectedIff(p: Peer, c: Conn, capacity: nat, seg: Segment, pos: nat)
    requires Fits(c, capacity) && capacity > 0 && Good(p, c) && !c.connected && !seg.rst
    requires seg.syn ==> IsPiece(p, seg, pos)
    ensures Good(p, Receive(c, capacity, seg)) <==> Harmless(p, c, capacity, seg, pos)
  {
    hide Accepts;
    if seg.syn && seg.ack {
      ModSum(p.irs, 1);
    } else if seg.payload != [] && Accepts(0, seg) {
      OffsetInside(0, seg);
      assert Acked(TakeBytes(c, capacity, seg)) > 0;
    }
  }

  /** A segment of the peer keeps the stream in order if and only if it is harmless. */
  lemma GoodIff(p: Peer, c: Conn, capacity: nat, seg: Segment, pos: nat)
    requires Fits(c, capacity) && capacity > 0 && Good(p, c) && FromPeer(p, seg, pos) && Near(c, seg, pos)
    ensures Good(p, Receive(c, capacity, seg)) <==> Harmless(p, c, capacity, seg, pos)
  {
    if !seg.rst {
      if !c.connected {
        UnconnectedIff(p, c, capacity, seg, pos);
      } else if IsPiece(p, seg, pos) {
        ConnectedIff(p, c, capacity, seg, pos);
      }
    }
  }
}
