/**
 The tcp_stream record of kernel/drivers/net.c: 32-bit sequence numbers and a receive buffer
 that is filled by arriving segments and shifted down by reads.
 */
module TcpStream {
  import opened TcpSequence
  import opened TcpRuns

  lemma NothingTaken(c: Conn, capacity: nat, seg: Segment)
    requires Fits(c, capacity) && seg.payload == []
    ensures TakeBytes(c, capacity, seg) == c
  {
  }

  class Stream {
    const rx: array<Byte>          // rx_buffer, rx_capacity
    var active: bool
    var connected: bool
    var closed: bool
    var reset: bool
    var rxSize: nat
    var ack: nat                   // uint32_t
    ghost var delivered: seq<Byte> // everything handed out so far

    ghost function State(): Conn
      reads this, rx
      requires rxSize <= rx.Length
    {
      Conn(connected, reset, closed, ack, delivered, rx[..rxSize])
    }

    ghost predicate Valid()
      reads this
    {
      rxSize <= rx.Length && ack < M
    }

    /** net_tcp_stream_connect up to the SYN. */
    constructor (capacity: nat)
      requires capacity > 0
      ensures Valid() && active && fresh(rx) && rx.Length == capacity && State() == START
    {
      rx := new Byte[capacity];
      active, connected, closed, reset, rxSize, ack := true, false, false, false, 0, 0;
      delivered := [];
    }

    /** net_tcp_stream_window. */
    method GetWindow() returns (w: nat)
      requires Valid()
      ensures w == if active then Window(State(), rx.Length) else 0
    {
      if !active || rx.Length <= rxSize { return 0; }
      var room := rx.Length - rxSize;
      return if room > 65535 then 65535 else room;
    }

    /** net_tcp_stream_send_packet for a packet without data. */
    method SendAck(flags: nat) returns (r: Reply)
      requires Valid() && active
      ensures r == AckOf(flags, State(), rx.Length)
    {
      var w := GetWindow();
      r := Reply(flags, ack, w);
    }

    /** The copy of new payload bytes behind the buffered ones. */
    method Append(payload: seq<Byte>, offset: nat, n: nat)
      requires rxSize + n <= rx.Length && offset + n <= |payload|
      modifies rx, this`rxSize
      ensures rxSize == old(rxSize) + n && rx[..rxSize] == old(rx[..rxSize]) + payload[offset..offset + n]
    {
      ghost var was := rx[..rxSize];
      var i := 0;
      while i < n
        invariant 0 <= i <= n && rxSize == old(rxSize)
        invariant rx[..rxSize] == was && rx[rxSize..rxSize + i] == payload[offset..offset + i]
      {
        rx[rxSize + i] := payload[offset + i];
        i := i + 1;
      }
      rxSize := rxSize + n;
      assert rx[..rxSize] == was + payload[offset..offset + n];
    }

    /** As much of an accepted segment as fits goes into the buffer. */
    method StoreBytes(seg: Segment)
      requires Valid() && seg.payload != [] && Accepts(ack, seg)
      modifies rx, this`rxSize, this`ack
      ensures Valid() && State() == TakeBytes(old(State()), rx.Length, seg)
    {
      hide Accepts;
      OffsetInside(ack, seg);
      var offset := (ack - seg.seq_) % M;
      var remaining := |seg.payload| - offset;
      var room := rx.Length - rxSize;
      var n := if remaining < room then remaining else room;
      if n != 0 {
        Append(seg.payload, offset, n);
        ack := (ack + n) % M;
      }
      assert n == 0 ==> seg.payload[offset..offset + n] == [];
    }

    /** The part of net_handle_tcp for payload bytes. */
    method AcceptPayload(seg: Segment) returns (replies: seq<Reply>)
      requires Valid() && active && seg.payload != []
      modifies rx, this`rxSize, this`ack
      ensures Valid() && State() == TakeBytes(old(State()), rx.Length, seg)
      ensures replies == [AckOf(0x10, State(), rx.Length)]
    {
      hide SeqBefore, SeqAfter, Window;
      replies := [];
      var size := |seg.payload|;
      if seg.seq_ == ack || (SeqBefore(seg.seq_, ack) && SeqAfter((seg.seq_ + size) % M, ack)) {
        StoreBytes(seg);
        var r := SendAck(0x10);
        replies := [r];
      } else {
        SomeSide(seg.seq_, ack);
        if SeqAfter(seg.seq_, ack) || SeqBefore(seg.seq_, ack) {
          var r := SendAck(0x10);
          replies := [r];
        }
      }
    }

    /** The stream part of net_handle_tcp, for any segment whatever. */
    method Handle(seg: Segment) returns (replies: seq<Reply>)
      requires Valid() && active
      modifies rx, this`rxSize, this`ack, this`connected, this`closed, this`reset
      ensures Valid() && State() == Receive(old(State()), rx.Length, seg)
      ensures replies == Answers(old(State()), rx.Length, seg)
    {
      hide TakeBytes, Window;
      replies := [];
      if seg.rst {
        reset := true;
        return;
      }
      if !connected && seg.syn && seg.ack {
        ack := (seg.seq_ + 1) % M;
        connected := true;
        var r := SendAck(0x10);
        replies := [r];
        return;
      }
      ghost var c := State();
      if seg.payload != [] {
        replies := AcceptPayload(seg);
      }
      assert State() == TakeBytes(c, rx.Length, seg) by {
        if seg.payload == [] { NothingTaken(c, rx.Length, seg); }
      }
      if seg.fin && (seg.seq_ + |seg.payload|) % M == ack {
        ack := (seg.seq_ + |seg.payload| + 1) % M;
        closed := true;
        var r := SendAck(0x11);
        replies := replies + [r];
      }
    }

    /** One call of net_progress_device that finds a batch of segments. */
    method Progress(batch: seq<Segment>)
      requires Valid() && active
      modifies rx, this`rxSize, this`ack, this`connected, this`closed, this`reset
      ensures Valid() && State() == After(old(State()), rx.Length, batch)
    {
      hide Receive, Answers;
      var i := 0;
      while i < |batch|
        invariant 0 <= i <= |batch| && Valid()
        invariant After(State(), rx.Length, batch[i..]) == After(old(State()), rx.Length, batch)
      {
        assert batch[i..][1..] == batch[i + 1..];
        var replies := Handle(batch[i]);
        i := i + 1;
      }
    }

    /** The wait of net_tcp_stream_recv. */
    method AwaitData(polls: Polls) returns (outcome: Outcome)
      requires Valid() && active
      modifies rx, this`rxSize, this`ack, this`connected, this`closed, this`reset
      ensures Valid() && (State(), outcome) == Wait(old(State()), rx.Length, polls)
    {
      hide After;
      var i := 0;
      while rxSize == 0
        invariant 0 <= i < |polls| && Valid()
        invariant Wait(State(), rx.Length, polls[i..]) == Wait(old(State()), rx.Length, polls)
        decreases |polls| - i
      {
        assert polls[i..][1..] == polls[i + 1..];
        Progress(polls[i]);
        i := i + 1;
        if reset { return WasReset; }
        if closed { return WasClosed; }
        if i == |polls| { return TimedOut; }
      }
      return Ready;
    }

    /** The bytes behind the first n move to the front of the buffer. */
    method Shift(n: nat)
      requires n <= rxSize <= rx.Length
      modifies rx, this`rxSize
      ensures rxSize == old(rxSize) - n && rx[..rxSize] == old(rx[..rxSize])[n..]
    {
      ghost var was := rx[..rxSize];
      var i := n;
      while i < rxSize
        invariant n <= i <= rxSize == old(rxSize) && rx[..i - n] == was[n..i]
        invariant forall k :: i <= k < rxSize ==> rx[k] == was[k]
      {
        rx[i - n] := rx[i];
        i := i + 1;
      }
      rxSize := rxSize - n;
    }

    /** net_tcp_stream_recv: what it hands out is the continuation of what it handed out before. */
    method Recv(out: array<Byte>, polls: Polls) returns (n: int, replies: seq<Reply>)
      requires Valid() && out != rx
      modifies rx, out, this`rxSize, this`ack, this`connected, this`closed, this`reset, this`delivered
      ensures Valid() && (n == -1 <==> !old(active) || out.Length == 0)
      ensures n == -1 ==> State() == old(State())
      ensures n > 0 ==> n <= out.Length && delivered == old(delivered) + out[..n]
      ensures n <= 0 ==> delivered == old(delivered) && replies == []
      ensures n != -1 ==>
                var w := Wait(old(State()), rx.Length, polls);
                match w.1
                case Ready =>
                  && n == Min(|w.0.buffered|, out.Length) > 0 && State() == Drained(w.0, n)
                  && replies == if connected && !closed then [AckOf(0x10, State(), rx.Length)] else []
                case WasReset => n == -2 && State() == w.0
                case WasClosed => n == 0 && State() == w.0
                case TimedOut => n == 0 && State() == w.0
    {
      hide After;
      if !active || out.Length == 0 { return -1, []; }
      var outcome := AwaitData(polls);
      hide Wait;
      if outcome == WasReset { return -2, []; }
      if outcome != Ready { return 0, []; }
      n, replies := HandOut(out);
    }

    /** The part of net_tcp_stream_recv after the wait. */
    method HandOut(out: array<Byte>) returns (n: nat, replies: seq<Reply>)
      requires Valid() && active && rxSize > 0 && out.Length > 0 && out != rx
      modifies rx, out, this`rxSize, this`delivered
      ensures Valid() && 0 < n <= out.Length && delivered == old(delivered) + out[..n]
      ensures n == Min(old(rxSize), out.Length) && State() == Drained(old(State()), n)
      ensures replies == if connected && !closed then [AckOf(0x10, State(), rx.Length)] else []
    {
      n := if rxSize < out.Length then rxSize else out.Length;
      CopyOut(out, n);
      Shift(n);
      delivered := delivered + out[..n];
      assert out[..n] == old(rx[..rxSize])[..n];
      replies := [];
      if connected && !closed {
        var r := SendAck(0x10);
        replies := [r];
      }
    }

    method CopyOut(out: array<Byte>, n: nat)
      requires n <= rxSize <= rx.Length && n <= out.Length && out != rx
      modifies out
      ensures out[..n] == rx[..n]
    {
      var i := 0;
      while i < n
        invariant 0 <= i <= n && out[..i] == rx[..i]
      {
        out[i] := rx[i];
        i := i + 1;
      }
    }
  }
}
