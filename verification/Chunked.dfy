/**
 The chunked transfer coding of section 7.1 of RFC 9112, and net_http_decode_chunked of
 kernel/drivers/net.c, which decodes a body in place.
 */
module Chunked {

  type Byte = b: int | 0 <= b < 256

  const CR: Byte := 13
  const LF: Byte := 10

  /** net_http_hex_value. */
  function HexValue(ch: Byte): int
  {
    if 48 <= ch <= 57 then ch - 48
    else if 97 <= ch <= 102 then ch - 97 + 10
    else if 65 <= ch <= 70 then ch - 65 + 10
    else -1
  }

  // ---- Decoding as a function of the input --------------------------------------------------------------------

  datatype Result =
    | Done(output: seq<Byte>)
    | Fail(code: int)

  datatype SizeLine =
    | SizeLine(value: nat, rest: seq<Byte>, saw: bool)
    | TooBig

  function SkipNewlines(s: seq<Byte>): (r: seq<Byte>)
    ensures |r| <= |s|
  {
    if s != [] && (s[0] == CR || s[0] == LF) then SkipNewlines(s[1..]) else s
  }

  function ReadSize(s: seq<Byte>, acc: nat, saw: bool): (r: SizeLine)
    ensures r.SizeLine? ==> |r.rest| <= |s| && (r.saw && !saw ==> |r.rest| < |s|)
  {
    if s == [] || HexValue(s[0]) < 0 then SizeLine(acc, s, saw)
    else if acc > 0x0fffffff then TooBig
    else ReadSize(s[1..], acc * 16 + HexValue(s[0]), true)
  }

  /** From the line feed that ends the line on. */
  function SkipLine(s: seq<Byte>): (r: seq<Byte>)
    ensures |r| <= |s| && (r != [] ==> r[0] == LF)
  {
    if s == [] || s[0] == LF then s else SkipLine(s[1..])
  }

  function SkipByte(s: seq<Byte>, b: Byte): (r: seq<Byte>)
    ensures |r| <= |s|
  {
    if s != [] && s[0] == b then s[1..] else s
  }

  function Decode(s: seq<Byte>, capacity: nat, out: seq<Byte>): Result
    decreases |s|
  {
    if s == [] then Fail(-2)
    else
      match ReadSize(SkipNewlines(s), 0, false)
      case TooBig => Fail(-1)
      case SizeLine(size, rest, saw) =>
        if !saw then Fail(-1)
        else
          var line := SkipLine(rest);
          if line == [] then Fail(-2) else DecodeData(line[1..], size, capacity, out)
  }

  function DecodeData(b: seq<Byte>, size: nat, capacity: nat, out: seq<Byte>): Result
    decreases |b|
  {
    if size == 0 then Done(out)
    else if size > |b| then Fail(-2)
    else if size >= capacity || |out| > capacity - size - 1 then Fail(-3)
    else
      var rest := SkipByte(b[size..], CR);
      if rest != [] && rest[0] != LF then Fail(-1)
      else Decode(SkipByte(rest, LF), capacity, out + b[..size])
  }

  // ---- Digits -----------------------------------------------------------------------------------------------------

  /** A hexadecimal digit as it is written. */
  datatype Digit = Digit(value: nat, upper: bool)

  const LOWER := "0123456789abcdef"
  const UPPER := "0123456789ABCDEF"

  predicate IsDigit(d: Digit)
  {
    d.value < 16
  }

  function DigitByte(d: Digit): (b: Byte)
    requires IsDigit(d)
  {
    (if d.upper then UPPER else LOWER)[d.value] as int
  }

  predicate AllDigits(ds: seq<Digit>)
  {
    forall i :: 0 <= i < |ds| ==> IsDigit(ds[i])
  }

  /** The number that digits stand for, most significant first. */
  function Number(ds: seq<Digit>): nat
  {
    if ds == [] then 0 else Number(ds[..|ds| - 1]) * 16 + ds[|ds| - 1].value
  }

  function Spell(ds: seq<Digit>): (r: seq<Byte>)
    requires AllDigits(ds)
    ensures |r| == |ds| && forall i :: 0 <= i < |ds| ==> r[i] == DigitByte(ds[i])
  {
    seq(|ds|, i requires 0 <= i < |ds| => DigitByte(ds[i]))
  }

  /** The byte is one of the twenty-two characters that are digits. */
  predicate IsHex(b: Byte)
  {
    b as char in LOWER || b as char in UPPER
  }

  /** Each character has the value of its place in the table, and nothing else has one. */
  lemma HexTable(d: Digit, b: Byte)
    ensures IsDigit(d) ==> HexValue(DigitByte(d)) == d.value && IsHex(DigitByte(d))
    ensures HexValue(b) == -1 || 0 <= HexValue(b) < 16
    ensures HexValue(b) >= 0 <==> IsHex(b)
    ensures IsHex(b) ==> b == DigitByte(Digit(HexValue(b), 65 <= b <= 70))
  {
    if IsDigit(d) {
      assert DigitByte(d) as char == (if d.upper then UPPER else LOWER)[d.value];
      DigitCode(d);
    }
    if 48 <= b <= 57 {
      assert LOWER[b - 48] == b as char;
    } else if 97 <= b <= 102 {
      assert LOWER[b - 87] == b as char;
    } else if 65 <= b <= 70 {
      assert UPPER[b - 55] == b as char;
    }
  }

  lemma DigitCode(d: Digit)
    requires IsDigit(d)
    ensures HexValue(DigitByte(d)) == d.value
  {
  }

  /** The least digits for a number. */
  function Hex(n: nat, upper: bool): (r: seq<Digit>)
    ensures AllDigits(r) && r != [] && Number(r) == n && (n > 0 ==> r[0].value > 0)
  {
    if n < 16 then [Digit(n, upper)]
    else
      var r := Hex(n / 16, upper) + [Digit(n % 16, upper)];
      assert r[..|r| - 1] == Hex(n / 16, upper);
      r
  }

  // ---- The grammar ------------------------------------------------------------------------------------------------

  predicate IsNewline(b: Byte) { b == CR || b == LF }

  predicate Newlines(nl: seq<Byte>)
  {
    forall i :: 0 <= i < |nl| ==> IsNewline(nl[i])
  }

  /** t is newlines, the digits of a size, and a rest that does not go on with a digit. */
  predicate Sized(t: seq<Byte>, nl: seq<Byte>, ds: seq<Digit>, rest: seq<Byte>)
  {
    && Newlines(nl) && AllDigits(ds) && t == nl + Spell(ds) + rest
    && (rest != [] ==> !IsHex(rest[0]) && (ds == [] ==> !IsNewline(rest[0])))
  }

  /** t is a size line, its digits ds, and what follows it. */
  predicate Headed(t: seq<Byte>, nl: seq<Byte>, ds: seq<Digit>, ext: seq<Byte>, body: seq<Byte>)
  {
    Sized(t, nl, ds, ext + [LF] + body) && ds != [] && Number(ds) < 0x1_0000_0000 && LF !in ext
  }

  /** A chunk with everything around it: newlines before, any spelling of its size, an extension, and its end. */
  datatype Chunk = Chunk(nl: seq<Byte>, size: seq<Digit>, ext: seq<Byte>, data: seq<Byte>, end: seq<Byte>)

  predicate IsEnd(end: seq<Byte>)
  {
    end == [LF] || end == [CR, LF]
  }

  function Encode(c: Chunk): seq<Byte>
    requires AllDigits(c.size)
  {
    c.nl + Spell(c.size) + c.ext + [LF] + c.data + c.end
  }

  predicate Legal(c: Chunk)
  {
    && AllDigits(c.size) && Headed(Encode(c), c.nl, c.size, c.ext, c.data + c.end)
    && Number(c.size) == |c.data| > 0 && IsEnd(c.end)
  }

  predicate AllLegal(cs: seq<Chunk>)
  {
    forall i :: 0 <= i < |cs| ==> Legal(cs[i])
  }

  /** Chunks, and what follows them. */
  function EncodeAll(cs: seq<Chunk>, tail: seq<Byte>): seq<Byte>
    requires AllLegal(cs)
  {
    if cs == [] then tail else Encode(cs[0]) + EncodeAll(cs[1..], tail)
  }

  function Concat(cs: seq<Chunk>): seq<Byte>
  {
    if cs == [] then [] else cs[0].data + Concat(cs[1..])
  }

  /** The last chunk, of size zero, and anything behind its line. */
  ghost predicate Final(t: seq<Byte>)
  {
    exists nl, ds, ext, trailer :: Headed(t, nl, ds, ext, trailer) && Number(ds) == 0
  }

  /** No size stands where one must. */
  ghost predicate NoSize(t: seq<Byte>)
  {
    t != [] && exists nl, rest :: Sized(t, nl, [], rest)
  }

  /** The size does not fit in 32 bits. */
  ghost predicate HugeSize(t: seq<Byte>)
  {
    exists nl, ds, rest :: Sized(t, nl, ds, rest) && Number(ds) >= 0x1_0000_0000
  }

  /** The size line has no end. */
  ghost predicate OpenLine(t: seq<Byte>)
  {
    exists nl, ds, rest :: Sized(t, nl, ds, rest) && ds != [] && Number(ds) < 0x1_0000_0000 && LF !in rest
  }

  /** A chunk of n > 0 bytes of data begins, and this follows its line. */
  ghost predicate Opens(t: seq<Byte>, n: nat, body: seq<Byte>)
  {
    n > 0 && exists nl, ds, ext :: Headed(t, nl, ds, ext, body) && Number(ds) == n
  }

  /** All n bytes of data are there, and this follows them. */
  ghost predicate Complete(t: seq<Byte>, n: nat, after: seq<Byte>)
  {
    exists body :: Opens(t, n, body) && n <= |body| && after == body[n..]
  }

  ghost predicate ShortData(t: seq<Byte>)
  {
    exists n: nat, body :: Opens(t, n, body) && |body| < n
  }

  /** The input ends with the data or inside the newline behind it. */
  ghost predicate OpenEnd(t: seq<Byte>, room: int)
  {
    exists n: nat, after :: Complete(t, n, after) && n < room && (after == [] || after == [CR])
  }

  /** Something else stands behind the data. */
  ghost predicate BadEnd(t: seq<Byte>, room: int)
  {
    exists n: nat, after :: Complete(t, n, after) && n < room && after != [] && after != [CR]
      && !([LF] <= after) && !([CR, LF] <= after)
  }

  /** The data, with the zero byte behind it, does not fit. */
  ghost predicate TooLong(t: seq<Byte>, room: int)
  {
    exists n: nat, after :: Complete(t, n, after) && n >= room
  }

  /** Why decoding stops at t, where a chunk should begin, with room bytes left in the buffer. */
  ghost predicate Stops(t: seq<Byte>, room: int, code: int)
  {
    || (code == -1 && (NoSize(t) || HugeSize(t) || BadEnd(t, room)))
    || (code == -2 && (t == [] || OpenLine(t) || ShortData(t) || OpenEnd(t, room)))
    || (code == -3 && TooLong(t, room))
  }

  // ---- Reading a size line ----------------------------------------------------------------------------------------

  function NumberFrom(acc: nat, ds: seq<Digit>): nat
    decreases |ds|
  {
    if ds == [] then acc else NumberFrom(acc * 16 + ds[0].value, ds[1..])
  }

  lemma {:induction false} NumberFromEnd(acc: nat, ds: seq<Digit>)
    requires ds != []
    ensures NumberFrom(acc, ds) == NumberFrom(acc, ds[..|ds| - 1]) * 16 + ds[|ds| - 1].value
    decreases |ds|
  {
    if |ds| > 1 {
      assert ds[1..][..|ds| - 2] == ds[..|ds| - 1][1..];
      NumberFromEnd(acc * 16 + ds[0].value, ds[1..]);
    }
  }

  lemma {:induction false} NumberIsFromZero(ds: seq<Digit>)
    ensures NumberFrom(0, ds) == Number(ds)
    decreases |ds|
  {
    if ds != [] {
      NumberFromEnd(0, ds);
      NumberIsFromZero(ds[..|ds| - 1]);
    }
  }

  lemma {:induction false} NumberGrows(acc: nat, ds: seq<Digit>)
    ensures NumberFrom(acc, ds) >= acc && (ds != [] ==> NumberFrom(acc, ds) >= acc * 16)
    decreases |ds|
  {
    if ds != [] { NumberGrows(acc * 16 + ds[0].value, ds[1..]); }
  }

  lemma {:induction false} ReadsDigits(ds: seq<Digit>, rest: seq<Byte>, acc: nat, saw: bool)
    requires AllDigits(ds) && (rest != [] ==> !IsHex(rest[0])) && acc < 0x1_0000_0000
    ensures ReadSize(Spell(ds) + rest, acc, saw) ==
            if NumberFrom(acc, ds) < 0x1_0000_0000 then SizeLine(NumberFrom(acc, ds), rest, saw || ds != [])
            else TooBig
    decreases |ds|
  {
    var s := Spell(ds) + rest;
    if ds == [] {
      assert s == rest;
      if rest != [] { HexTable(Digit(0, false), rest[0]); }
    } else {
      HexTable(ds[0], 0);
      NumberGrows(acc, ds);
      assert s[0] == DigitByte(ds[0]) && s[1..] == Spell(ds[1..]) + rest;
      if acc <= 0x0fffffff { ReadsDigits(ds[1..], rest, acc * 16 + ds[0].value, true); }
    }
  }

  lemma {:induction false} SkipsNewlines(nl: seq<Byte>, s: seq<Byte>)
    requires Newlines(nl) && (s != [] ==> !IsNewline(s[0]))
    ensures SkipNewlines(nl + s) == s
    decreases |nl|
  {
    if nl == [] {
      assert nl + s == s;
    } else {
      assert (nl + s)[1..] == nl[1..] + s;
      SkipsNewlines(nl[1..], s);
    }
  }

  lemma ReadsSize(t: seq<Byte>, nl: seq<Byte>, ds: seq<Digit>, rest: seq<Byte>)
    requires Sized(t, nl, ds, rest)
    ensures ReadSize(SkipNewlines(t), 0, false) ==
            if Number(ds) < 0x1_0000_0000 then SizeLine(Number(ds), rest, ds != []) else TooBig
  {
    var s := Spell(ds) + rest;
    assert t == nl + s;
    if ds != [] {
      HexTable(ds[0], 0);
      assert s[0] == DigitByte(ds[0]) && IsHex(s[0]);
      NotNewline(s[0]);
    }
    SkipsNewlines(nl, s);
    ReadsDigits(ds, rest, 0, false);
    NumberIsFromZero(ds);
  }

  lemma NotNewline(b: Byte)
    requires IsHex(b)
    ensures !IsNewline(b)
  {
    HexTable(Digit(0, false), b);
  }

  lemma {:induction false} SkipsLine(ext: seq<Byte>, tail: seq<Byte>)
    requires LF !in ext && (tail != [] ==> tail[0] == LF)
    ensures SkipLine(ext + tail) == tail
    decreases |ext|
  {
    if ext == [] {
      assert ext + tail == tail;
    } else {
      assert (ext + tail)[1..] == ext[1..] + tail;
      SkipsLine(ext[1..], tail);
    }
  }

  /** Every input can be read as newlines, digits and a rest. */
  lemma {:induction false} SplitDigits(s: seq<Byte>) returns (ds: seq<Digit>, rest: seq<Byte>)
    ensures AllDigits(ds) && s == Spell(ds) + rest && (rest != [] ==> !IsHex(rest[0]))
    decreases |s|
  {
    if s == [] || !IsHex(s[0]) {
      ds, rest := [], s;
    } else {
      HexTable(Digit(0, false), s[0]);
      var d := Digit(HexValue(s[0]), 65 <= s[0] <= 70);
      ds, rest := SplitDigits(s[1..]);
      assert s == [s[0]] + s[1..] && Spell([d] + ds) == [DigitByte(d)] + Spell(ds);
      ds := [d] + ds;
    }
  }

  lemma {:induction false} SplitNewlines(s: seq<Byte>) returns (nl: seq<Byte>, rest: seq<Byte>)
    ensures Newlines(nl) && s == nl + rest && (rest != [] ==> !IsNewline(rest[0]))
    decreases |s|
  {
    if s == [] || !IsNewline(s[0]) {
      nl, rest := [], s;
    } else {
      nl, rest := SplitNewlines(s[1..]);
      nl := [s[0]] + nl;
    }
  }

  lemma Split(t: seq<Byte>) returns (nl: seq<Byte>, ds: seq<Digit>, rest: seq<Byte>)
    ensures Sized(t, nl, ds, rest)
  {
    var s;
    nl, s := SplitNewlines(t);
    ds, rest := SplitDigits(s);
    assert t == nl + Spell(ds) + rest;
    if ds == [] { assert s == rest; }
  }

  lemma {:induction false} SplitLine(rest: seq<Byte>) returns (ext: seq<Byte>, body: seq<Byte>)
    requires LF in rest
    ensures rest == ext + [LF] + body && LF !in ext
    decreases |rest|
  {
    if rest[0] == LF {
      ext, body := [], rest[1..];
    } else {
      ext, body := SplitLine(rest[1..]);
      ext := [rest[0]] + ext;
    }
  }

  // ---- What decoding does with each input -------------------------------------------------------------------------

  /** A size line is read as the size it spells. */
  lemma ReadsLine(t: seq<Byte>, nl: seq<Byte>, ds: seq<Digit>, ext: seq<Byte>, body: seq<Byte>, capacity: nat,
                  out: seq<Byte>)
    requires Headed(t, nl, ds, ext, body)
    ensures Decode(t, capacity, out) == DecodeData(body, Number(ds), capacity, out)
  {
    ReadsSize(t, nl, ds, ext + [LF] + body);
    assert ext + [LF] + body == ext + ([LF] + body);
    SkipsLine(ext, [LF] + body);
    assert ([LF] + body)[1..] == body;
  }

  lemma OpensDecode(t: seq<Byte>, n: nat, body: seq<Byte>, capacity: nat, out: seq<Byte>)
    requires Opens(t, n, body)
    ensures Decode(t, capacity, out) == DecodeData(body, n, capacity, out)
  {
    var nl, ds, ext :| Headed(t, nl, ds, ext, body) && Number(ds) == n;
    ReadsLine(t, nl, ds, ext, body, capacity, out);
  }

  /** Chunks that fit are appended and decoding goes on behind them. */
  lemma DecodesChunk(c: Chunk, tail: seq<Byte>, capacity: nat, out: seq<Byte>)
    requires Legal(c)
    ensures Decode(Encode(c) + tail, capacity, out) ==
            if |out| + |c.data| < capacity then Decode(tail, capacity, out + c.data) else Fail(-3)
  {
    var body := c.data + (c.end + tail);
    var rest := c.ext + [LF] + body;
    assert Encode(c) + tail == c.nl + Spell(c.size) + rest;
    assert rest[0] == (c.ext + [LF] + (c.data + c.end))[0];
    ReadsLine(Encode(c) + tail, c.nl, c.size, c.ext, body, capacity, out);
    assert body[|c.data|..] == c.end + tail && body[..|c.data|] == c.data;
    EndsChunk(c.end, tail);
  }

  lemma EndsChunk(end: seq<Byte>, tail: seq<Byte>)
    requires IsEnd(end)
    ensures var rest := SkipByte(end + tail, CR); rest != [] && rest[0] == LF && SkipByte(rest, LF) == tail
  {
    if end == [LF] {
      assert (end + tail)[1..] == tail;
    } else {
      assert (end + tail)[1..] == [LF] + tail && ([LF] + tail)[1..] == tail;
    }
  }

  /** Decoding a series of chunks: they are appended while they fit. */
  lemma {:induction false} DecodesAll(cs: seq<Chunk>, tail: seq<Byte>, capacity: nat, out: seq<Byte>)
    requires AllLegal(cs) && |out| < capacity
    ensures Decode(EncodeAll(cs, tail), capacity, out) ==
            if |out| + |Concat(cs)| < capacity then Decode(tail, capacity, out + Concat(cs)) else Fail(-3)
    decreases |cs|
  {
    hide Decode, Legal, Encode;
    if cs == [] {
      assert out + [] == out;
    } else {
      DecodesChunk(cs[0], EncodeAll(cs[1..], tail), capacity, out);
      if |out| + |cs[0].data| < capacity {
        DecodesAll(cs[1..], tail, capacity, out + cs[0].data);
        assert out + cs[0].data + Concat(cs[1..]) == out + Concat(cs);
      }
    }
  }

  lemma FinalDecodes(t: seq<Byte>, capacity: nat, out: seq<Byte>)
    requires Final(t)
    ensures Decode(t, capacity, out) == Done(out)
  {
    var nl, ds, ext, trailer :| Headed(t, nl, ds, ext, trailer) && Number(ds) == 0;
    ReadsLine(t, nl, ds, ext, trailer, capacity, out);
  }

  /** Decoding fails with this code where it stops. */
  lemma StopsFails(t: seq<Byte>, capacity: nat, out: seq<Byte>, code: int)
    requires Stops(t, capacity - |out|, code)
    ensures Decode(t, capacity, out) == Fail(code)
  {
    if code == -1 && NoSize(t) {
      var nl, rest :| Sized(t, nl, [], rest);
      ReadsSize(t, nl, [], rest);
    } else if code == -1 && HugeSize(t) {
      var nl, ds, rest :| Sized(t, nl, ds, rest) && Number(ds) >= 0x1_0000_0000;
      assert t != [];
      ReadsSize(t, nl, ds, rest);
    } else if code == -2 && OpenLine(t) {
      var nl, ds, rest :| Sized(t, nl, ds, rest) && ds != [] && Number(ds) < 0x1_0000_0000 && LF !in rest;
      ReadsSize(t, nl, ds, rest);
      SkipsLine(rest, []);
      assert rest + [] == rest;
    } else if code == -2 && ShortData(t) {
      var n, body :| Opens(t, n, body) && |body| < n;
      OpensDecode(t, n, body, capacity, out);
    } else if code != -2 || t != [] {
      StopsBehindData(t, capacity, out, code);
    }
  }

  /** What follows complete data decides. */
  lemma CompleteDecodes(t: seq<Byte>, n: nat, after: seq<Byte>, capacity: nat, out: seq<Byte>)
    requires Complete(t, n, after)
    ensures |out| + n >= capacity ==> Decode(t, capacity, out) == Fail(-3)
    ensures |out| + n < capacity && (after == [] || after == [CR]) ==> Decode(t, capacity, out) == Fail(-2)
    ensures |out| + n < capacity && after != [] && after != [CR] && !([LF] <= after) && !([CR, LF] <= after) ==>
              Decode(t, capacity, out) == Fail(-1)
  {
    var body :| Opens(t, n, body) && n <= |body| && after == body[n..];
    hide Opens;
    OpensDecode(t, n, body, capacity, out);
    assert after != [] ==> after[0] == LF ==> [LF] <= after;
    assert |after| >= 2 ==> after[0] == CR && after[1] == LF ==> [CR, LF] <= after;
    assert |after| == 1 ==> after[0] == CR ==> after == [CR];
  }

  lemma StopsBehindData(t: seq<Byte>, capacity: nat, out: seq<Byte>, code: int)
    requires var room := capacity - |out|;
             || (code == -1 && BadEnd(t, room)) || (code == -2 && OpenEnd(t, room)) || (code == -3 && TooLong(t, room))
    ensures Decode(t, capacity, out) == Fail(code)
  {
    var room := capacity - |out|;
    hide Complete, Decode;
    if code == -1 {
      var n: nat, after :| Complete(t, n, after) && n < room && after != [] && after != [CR]
        && !([LF] <= after) && !([CR, LF] <= after);
      CompleteDecodes(t, n, after, capacity, out);
    } else if code == -2 {
      var n: nat, after :| Complete(t, n, after) && n < room && (after == [] || after == [CR]);
      CompleteDecodes(t, n, after, capacity, out);
    } else {
      var n: nat, after :| Complete(t, n, after) && n >= room;
      CompleteDecodes(t, n, after, capacity, out);
    }
  }

  /** One of three things stands where a chunk should begin: the last chunk, a chunk that fits, or a reason to stop. */
  datatype Start = AtEnd | AtChunk(chunk: Chunk, tail: seq<Byte>) | AtStop(code: int)

  ghost predicate Begins(t: seq<Byte>, room: int, start: Start)
  {
    match start
    case AtEnd => Final(t)
    case AtChunk(c, tail) => Legal(c) && |c.data| < room && t == Encode(c) + tail
    case AtStop(code) => Stops(t, room, code)
  }

  lemma Classify(t: seq<Byte>, room: int) returns (start: Start)
    ensures Begins(t, room, start)
  {
    if t == [] { return AtStop(-2); }
    var nl, ds, rest := Split(t);
    if ds == [] {
      assert NoSize(t);
      return AtStop(-1);
    }
    if Number(ds) >= 0x1_0000_0000 {
      assert HugeSize(t);
      return AtStop(-1);
    }
    if LF !in rest {
      assert OpenLine(t);
      return AtStop(-2);
    }
    var ext, body := SplitLine(rest);
    assert Headed(t, nl, ds, ext, body);
    if Number(ds) == 0 {
      assert Final(t);
      return AtEnd;
    }
    assert Opens(t, Number(ds), body);
    start := ClassifyData(t, nl, ds, ext, body, room);
  }

  lemma ClassifyData(t: seq<Byte>, nl: seq<Byte>, ds: seq<Digit>, ext: seq<Byte>, body: seq<Byte>, room: int)
    returns (start: Start)
    requires Headed(t, nl, ds, ext, body) && Number(ds) > 0 && Opens(t, Number(ds), body)
    ensures Begins(t, room, start)
  {
    hide Opens;
    var n := Number(ds);
    if |body| < n { return AtStop(-2); }
    var after := body[n..];
    assert Complete(t, n, after);
    if n >= room {
      assert TooLong(t, room);
      return AtStop(-3);
    }
    if after == [] || after == [CR] {
      assert OpenEnd(t, room);
      return AtStop(-2);
    }
    if [LF] <= after {
      start := TheChunk(t, nl, ds, ext, body, [LF]);
    } else if [CR, LF] <= after {
      start := TheChunk(t, nl, ds, ext, body, [CR, LF]);
    } else {
      assert BadEnd(t, room);
      return AtStop(-1);
    }
  }

  lemma TheChunk(t: seq<Byte>, nl: seq<Byte>, ds: seq<Digit>, ext: seq<Byte>, body: seq<Byte>, end: seq<Byte>)
    returns (start: Start)
    requires Headed(t, nl, ds, ext, body) && 0 < Number(ds) <= |body| && IsEnd(end) && end <= body[Number(ds)..]
    ensures start.AtChunk? && Legal(start.chunk) && |start.chunk.data| == Number(ds)
    ensures t == Encode(start.chunk) + start.tail
  {
    var n := Number(ds);
    var after := body[n..];
    var c, tail := Chunk(nl, ds, ext, body[..n], end), after[|end|..];
    assert body == c.data + end + tail;
    assert Encode(c) == nl + Spell(ds) + (ext + [LF] + (c.data + end));
    assert t == Encode(c) + tail;
    assert (ext + [LF] + (c.data + end))[0] == (ext + [LF] + body)[0];
    assert Legal(c);
    start := AtChunk(c, tail);
  }

  // ---- Exactly what is accepted -----------------------------------------------------------------------------------

  /** Every input is a series of chunks that fit, up to the last chunk or to a reason to stop. */
  lemma {:induction false} Parse(s: seq<Byte>, room: int) returns (cs: seq<Chunk>, start: Start)
    requires room > 0
    ensures AllLegal(cs) && |Concat(cs)| < room && !start.AtChunk?
    ensures exists tail :: s == EncodeAll(cs, tail) && Begins(tail, room - |Concat(cs)|, start)
    decreases |s|
  {
    start := Classify(s, room);
    cs := [];
    if start.AtChunk? {
      var c, tail := start.chunk, start.tail;
      var more;
      more, start := Parse(tail, room - |c.data|);
      var rest :| tail == EncodeAll(more, rest) && Begins(rest, room - |c.data| - |Concat(more)|, start);
      cs := [c] + more;
      assert cs[1..] == more;
      assert s == EncodeAll(cs, rest);
    } else {
      assert s == EncodeAll([], s);
    }
  }

  /** The input is chunks with this data and then the last chunk. */
  ghost predicate IsBody(s: seq<Byte>, data: seq<Byte>)
  {
    exists cs, tail :: AllLegal(cs) && s == EncodeAll(cs, tail) && Final(tail) && data == Concat(cs)
  }

  /** The input is chunks that fit, and then there is a reason to stop with this code. */
  ghost predicate IsBroken(s: seq<Byte>, room: int, code: int)
  {
    exists cs, tail ::
      AllLegal(cs) && s == EncodeAll(cs, tail) && |Concat(cs)| < room && Stops(tail, room - |Concat(cs)|, code)
  }

  lemma BodyDecodes(s: seq<Byte>, data: seq<Byte>, capacity: nat, out: seq<Byte>)
    requires IsBody(s, data) && |out| < capacity
    ensures Decode(s, capacity, out) == if |out| + |data| < capacity then Done(out + data) else Fail(-3)
  {
    hide Final, Decode, Legal, Encode, EncodeAll;
    var cs, tail :| AllLegal(cs) && s == EncodeAll(cs, tail) && Final(tail) && data == Concat(cs);
    DecodesAll(cs, tail, capacity, out);
    FinalDecodes(tail, capacity, out + data);
  }

  lemma BrokenFails(s: seq<Byte>, capacity: nat, out: seq<Byte>, code: int)
    requires IsBroken(s, capacity - |out|, code)
    ensures Decode(s, capacity, out) == Fail(code)
  {
    hide Stops, Decode, Legal, Encode, EncodeAll;
    var room := capacity - |out|;
    var cs, tail :| AllLegal(cs) && s == EncodeAll(cs, tail) && |Concat(cs)| < room
      && Stops(tail, room - |Concat(cs)|, code);
    DecodesAll(cs, tail, capacity, out);
    StopsFails(tail, capacity, out + Concat(cs), code);
  }

  /** The decoder accepts exactly the bodies whose data fits, and gives exactly their data; every failure has its code
      for exactly the reasons named. */
  lemma DecodeExact(s: seq<Byte>, capacity: nat)
    requires capacity > 0
    ensures forall data :: Decode(s, capacity, []) == Done(data) <==> IsBody(s, data) && |data| < capacity
    ensures forall code :: Decode(s, capacity, []) == Fail(code) <==> IsBroken(s, capacity, code)
  {
    hide Decode, IsBody, IsBroken;
    OneOrOther(s, capacity);
    forall data | IsBody(s, data)
      ensures Decode(s, capacity, []) == if |data| < capacity then Done(data) else Fail(-3) {
      BodyDecodes(s, data, capacity, []);
      assert [] + data == data;
    }
    forall code | IsBroken(s, capacity, code) ensures Decode(s, capacity, []) == Fail(code) {
      BrokenFails(s, capacity, [], code);
    }
  }

  lemma OneOrOther(s: seq<Byte>, capacity: nat)
    requires capacity > 0
    ensures (exists data :: IsBody(s, data) && |data| < capacity) || (exists code :: IsBroken(s, capacity, code))
  {
    hide Final, Stops;
    var cs, start := Parse(s, capacity);
    var tail :| s == EncodeAll(cs, tail) && Begins(tail, capacity - |Concat(cs)|, start);
    if start.AtEnd? {
      assert IsBody(s, Concat(cs));
    } else {
      assert IsBroken(s, capacity, start.code);
    }
  }

  // ---- Round trip -------------------------------------------------------------------------------------------------

  /** The last chunk and a trailer. */
  predicate LastChunk(t: seq<Byte>, ds: seq<Digit>, ext: seq<Byte>, trailer: seq<Byte>)
  {
    Headed(t, [], ds, ext, trailer) && Number(ds) == 0
  }

  /** Decoding undoes encoding, for every spelling of the sizes, every extension and every trailer, if and only if
      it fits. */
  lemma RoundTrip(cs: seq<Chunk>, last: seq<Byte>, ds: seq<Digit>, ext: seq<Byte>, trailer: seq<Byte>, capacity: nat)
    requires AllLegal(cs) && LastChunk(last, ds, ext, trailer) && capacity > 0
    ensures Decode(EncodeAll(cs, last), capacity, []) ==
            if |Concat(cs)| < capacity then Done(Concat(cs)) else Fail(-3)
  {
    assert Final(last);
    BodyDecodes(EncodeAll(cs, last), Concat(cs), capacity, []);
    assert [] + Concat(cs) == Concat(cs);
  }

  /** A chunk as section 7.1 of RFC 9112 writes it, its size in the least digits. */
  function Standard(data: seq<Byte>, upper: bool): Chunk
  {
    Chunk([], Hex(|data|, upper), [CR], data, [CR, LF])
  }

  lemma StandardLegal(data: seq<Byte>, upper: bool)
    requires 0 < |data| < 0x1_0000_0000
    ensures Legal(Standard(data, upper))
  {
    var c := Standard(data, upper);
    var rest := c.ext + [LF] + (c.data + c.end);
    assert Encode(c) == c.nl + Spell(c.size) + rest;
    assert rest[0] == CR && !IsHex(CR) by { HexTable(Digit(0, false), CR); }
  }

  function StandardAll(parts: seq<seq<Byte>>, upper: bool): (r: seq<Chunk>)
    ensures |r| == |parts| && forall i :: 0 <= i < |parts| ==> r[i] == Standard(parts[i], upper)
  {
    seq(|parts|, i requires 0 <= i < |parts| => Standard(parts[i], upper))
  }

  function Joined(parts: seq<seq<Byte>>): seq<Byte>
  {
    if parts == [] then [] else parts[0] + Joined(parts[1..])
  }

  lemma {:induction false} JoinedIsConcat(parts: seq<seq<Byte>>, upper: bool)
    ensures Concat(StandardAll(parts, upper)) == Joined(parts)
    decreases |parts|
  {
    if parts != [] {
      assert StandardAll(parts, upper)[1..] == StandardAll(parts[1..], upper);
      JoinedIsConcat(parts[1..], upper);
    }
  }

  /** In particular for the standard encoding of any parts: the decoder gives the parts put together. */
  lemma StandardRoundTrip(parts: seq<seq<Byte>>, upper: bool, capacity: nat)
    requires capacity > 0 && forall i :: 0 <= i < |parts| ==> 0 < |parts[i]| < 0x1_0000_0000
    ensures AllLegal(StandardAll(parts, upper))
    ensures Decode(EncodeAll(StandardAll(parts, upper), [48, CR, LF, CR, LF]), capacity, []) ==
            if |Joined(parts)| < capacity then Done(Joined(parts)) else Fail(-3)
  {
    var cs, last := StandardAll(parts, upper), [48, CR, LF, CR, LF];
    forall i | 0 <= i < |parts| ensures Legal(cs[i]) { StandardLegal(parts[i], upper); }
    var zero := [Digit(0, false)];
    assert Spell(zero) == [48] by { HexTable(zero[0], 0); assert DigitByte(zero[0]) == 48; }
    assert last == [] + Spell(zero) + ([CR] + [LF] + [CR, LF]);
    assert !IsHex(CR) by { HexTable(zero[0], CR); }
    assert zero[..0] == [];
    assert LastChunk(last, zero, [CR], [CR, LF]);
    RoundTrip(cs, last, zero, [CR], [CR, LF], capacity);
    JoinedIsConcat(parts, upper);
  }

  // ---- Truncated input --------------------------------------------------------------------------------------------

  /** Without a line feed behind the leading newlines there is no complete size line. */
  lemma NoLineFails(nl: seq<Byte>, s: seq<Byte>, capacity: nat, out: seq<Byte>)
    requires Newlines(nl) && LF !in s
    ensures Decode(nl + s, capacity, out).Fail?
  {
    var t := nl + s;
    if t != [] {
      var nl', ds, rest := Split(t);
      ReadsSize(t, nl', ds, rest);
      if ds != [] {
        assert t[|nl'|] == DigitByte(ds[0]) && IsHex(t[|nl'|]) by { HexTable(ds[0], 0); }
        NotNewline(t[|nl'|]);
        assert forall i :: 0 <= i < |nl| ==> IsNewline(t[i]);
        assert |nl'| >= |nl|;
        var k := |nl'| + |ds|;
        forall i | 0 <= i < |rest| ensures rest[i] != LF { assert rest[i] == t[k + i] == s[k + i - |nl|]; }
        SkipsLine(rest, []);
        assert rest + [] == rest;
      }
    }
  }

  /** A size line cut before its line feed. */
  lemma CutLineFails(t: seq<Byte>, nl: seq<Byte>, ds: seq<Digit>, ext: seq<Byte>, body: seq<Byte>, n: nat,
                     capacity: nat, out: seq<Byte>)
    requires Headed(t, nl, ds, ext, body) && n <= |nl| + |ds| + |ext|
    ensures Decode(t[..n], capacity, out).Fail?
  {
    if n <= |nl| {
      assert t[..n] == nl[..n] + [];
      NoLineFails(nl[..n], [], capacity, out);
    } else {
      var s := t[|nl|..n];
      assert t[..n] == nl + s;
      forall i | 0 <= i < |s| ensures s[i] != LF {
        if i < |ds| {
          HexTable(ds[i], 0);
          NotNewline(DigitByte(ds[i]));
          assert s[i] == DigitByte(ds[i]);
        } else {
          assert s[i] == ext[i - |ds|];
        }
      }
      NoLineFails(nl, s, capacity, out);
    }
  }

  /** A chunk cut anywhere before its last byte. */
  lemma CutChunkFails(c: Chunk, n: nat, capacity: nat, out: seq<Byte>)
    requires Legal(c) && n < |Encode(c)|
    ensures Decode(Encode(c)[..n], capacity, out).Fail?
  {
    var head := |c.nl| + |c.size| + |c.ext|;
    if n <= head {
      CutLineFails(Encode(c), c.nl, c.size, c.ext, c.data + c.end, n, capacity, out);
    } else {
      var body := (c.data + c.end)[..n - head - 1];
      var rest := c.ext + [LF] + body;
      assert Encode(c)[..n] == c.nl + Spell(c.size) + rest;
      assert rest[0] == (c.ext + [LF] + (c.data + c.end))[0];
      ReadsLine(Encode(c)[..n], c.nl, c.size, c.ext, body, capacity, out);
      if |c.data| <= |body| {
        assert body[|c.data|..] == [] || body[|c.data|..] == [CR];
        assert SkipByte(body[|c.data|..], CR) == [];
      }
    }
  }

  /** A body that was cut at any byte before the end of its last chunk's line is never taken for complete. */
  lemma {:induction false} TruncatedFails(cs: seq<Chunk>, last: seq<Byte>, ds: seq<Digit>, ext: seq<Byte>, n: nat,
                                          capacity: nat, out: seq<Byte>)
    requires AllLegal(cs) && LastChunk(last, ds, ext, []) && |out| < capacity && n < |EncodeAll(cs, last)|
    ensures Decode(EncodeAll(cs, last)[..n], capacity, out).Fail?
    decreases |cs|
  {
    var all := EncodeAll(cs, last);
    if cs == [] {
      CutLineFails(last, [], ds, ext, [], n, capacity, out);
    } else if n < |Encode(cs[0])| {
      assert all[..n] == Encode(cs[0])[..n];
      CutChunkFails(cs[0], n, capacity, out);
    } else {
      var rest := EncodeAll(cs[1..], last);
      var m := n - |Encode(cs[0])|;
      assert all[..n] == Encode(cs[0]) + rest[..m];
      DecodesChunk(cs[0], rest[..m], capacity, out);
      if |out| + |cs[0].data| < capacity { TruncatedFails(cs[1..], last, ds, ext, m, capacity, out + cs[0].data); }
    }
  }

  // ---- In place ---------------------------------------------------------------------------------------------------

  method PassNewlines(body: array<Byte>, start: nat, size: nat) returns (pos: nat)
    requires start <= size <= body.Length
    ensures start <= pos <= size && body[pos..size] == SkipNewlines(body[start..size])
  {
    pos := start;
    while pos < size && (body[pos] == CR || body[pos] == LF)
      invariant start <= pos <= size && SkipNewlines(body[pos..size]) == SkipNewlines(body[start..size])
    {
      assert body[pos..size][1..] == body[pos + 1..size];
      pos := pos + 1;
    }
  }

  /** ok is false when the size does not fit in 32 bits. */
  method PassSize(body: array<Byte>, start: nat, size: nat) returns (ok: bool, saw: bool, value: nat, pos: nat)
    requires start <= size <= body.Length
    ensures start <= pos <= size && (saw ==> start < pos)
    ensures ReadSize(body[start..size], 0, false) == if ok then SizeLine(value, body[pos..size], saw) else TooBig
  {
    saw, value, pos := false, 0, start;
    while pos < size
      invariant start <= pos <= size && (saw ==> start < pos)
      invariant ReadSize(body[pos..size], value, saw) == ReadSize(body[start..size], 0, false)
    {
      var digit := HexValue(body[pos]);
      if digit < 0 { break; }
      saw := true;
      if value > 0x0fffffff { return false, saw, value, pos + 1; }
      assert body[pos..size][1..] == body[pos + 1..size];
      value := value * 16 + digit;
      pos := pos + 1;
    }
    ok := true;
  }

  method PassLine(body: array<Byte>, start: nat, size: nat) returns (pos: nat)
    requires start <= size <= body.Length
    ensures start <= pos <= size && body[pos..size] == SkipLine(body[start..size])
  {
    pos := start;
    while pos < size && body[pos] != LF
      invariant start <= pos <= size && SkipLine(body[pos..size]) == SkipLine(body[start..size])
    {
      assert body[pos..size][1..] == body[pos + 1..size];
      pos := pos + 1;
    }
  }

  /** Byte k after n bytes have been copied from read down to write. */
  function ByteAfter(was: seq<Byte>, write: nat, read: nat, n: nat, k: nat): Byte
    requires write <= read && read + n <= |was| && k < |was|
  {
    if write <= k < write + n then was[read + (k - write)] else was[k]
  }

  /** Moving n bytes down; nothing else changes, so neither do the bytes still to be read. */
  method MoveDown(body: array<Byte>, write: nat, read: nat, n: nat)
    requires write <= read && read + n <= body.Length
    modifies body
    ensures body[..write + n] == old(body[..write]) + old(body[read..read + n])
    ensures body[write + n..] == old(body[write + n..])
    ensures body[read + n..] == old(body[read + n..])
  {
    ghost var was := body[..];
    var i := 0;
    while i < n
      invariant 0 <= i <= n
      invariant forall k :: 0 <= k < body.Length ==>
                  body[k] == ByteAfter(was, write, read, i, k)
    {
      body[write + i] := body[read + i];
      i := i + 1;
    }
    assert body[..write] == was[..write];
    ghost var moved, source := body[write..write + n], was[read..read + n];
    forall k | 0 <= k < n ensures moved[k] == source[k] {
      assert body[write + k] == ByteAfter(was, write, read, n, write + k);
    }
    assert body[..write + n] == body[..write] + moved;
  }

  method PassNewlineAfterData(body: array<Byte>, start: nat, size: nat) returns (ok: bool, pos: nat)
    requires start <= size <= body.Length
    ensures start <= pos <= size
    ensures var rest := SkipByte(body[start..size], CR);
            && (ok <==> rest == [] || rest[0] == LF) && (ok ==> body[pos..size] == SkipByte(rest, LF))
  {
    pos := start;
    if pos < size && body[pos] == CR { pos := pos + 1; }
    assert body[pos..size] == SkipByte(body[start..size], CR);
    if pos < size && body[pos] == LF {
      pos := pos + 1;
      return true, pos;
    }
    ok := pos >= size;
  }

  /** The size line of a chunk; code 0 means that data of that length follows. */
  method PassHead(body: array<Byte>, start: nat, size: nat, ghost capacity: nat, ghost out: seq<Byte>)
    returns (code: int, length: nat, read: nat)
    requires start < size <= body.Length
    ensures start < read <= size && code <= 0
    ensures Decode(body[start..size], capacity, out) ==
            if code == 0 then DecodeData(body[read..size], length, capacity, out) else Fail(code)
  {
    hide DecodeData, HexValue;
    var at := PassNewlines(body, start, size);
    var ok, saw;
    ok, saw, length, read := PassSize(body, at, size);
    if !ok || !saw { return -1, 0, size; }
    read := PassLine(body, read, size);
    if read >= size { return -2, 0, size; }
    assert body[read..size][1..] == body[read + 1..size];
    read := read + 1;
    code := 0;
  }

  /** The data of a chunk and the newline behind it; code 0 means that another chunk follows. */
  method PassData(body: array<Byte>, start: nat, size: nat, write: nat, length: nat, capacity: nat)
    returns (code: int, read: nat)
    requires write <= start <= size <= body.Length && capacity <= body.Length && length > 0
    modifies body
    ensures start <= read <= size && code <= 0
    ensures code == 0 ==> start < read && write + length < capacity && write + length <= read
    ensures body[capacity..] == old(body[capacity..])
    ensures DecodeData(old(body[start..size]), length, capacity, old(body[..write])) ==
            if code == 0 then Decode(body[read..size], capacity, body[..write + length]) else Fail(code)
  {
    hide Decode;
    if length > size - start { return -2, size; }
    if length >= capacity || write > capacity - length - 1 { return -3, size; }
    ghost var out, data, tail := body[..write], body[start..start + length], body[start + length..size];
    ghost var all := body[start..size];
    assert all[..length] == data && all[length..] == tail;
    MoveDown(body, write, start, length);
    assert body[..write + length] == out + data;
    assert body[capacity..] == body[write + length..][capacity - write - length..];
    assert body[start + length..size] == body[start + length..][..size - start - length] == tail;
    var ok, at := PassNewlineAfterData(body, start + length, size);
    if !ok { return -1, size; }
    return 0, at;
  }

  /**
   net_http_decode_chunked: although it overwrites its input, it computes Decode of the input
   as it was. On success the body starts with the output and a zero byte. Nothing behind the capacity
   is written, whatever the outcome.
   */
  method DecodeInPlace(body: array?<Byte>, size: nat, capacity: nat) returns (code: int, n: nat)
    requires body != null ==> size <= body.Length && capacity <= body.Length
    modifies body
    ensures body == null || capacity == 0 ==> code == -1 && n == 0
    ensures body != null && capacity > 0 ==>
              match Decode(old(body[..size]), capacity, [])
              case Done(output) => code == 0 && n == |output| < capacity && body[..n] == output && body[n] == 0
              case Fail(c) => code == c && n == 0
    ensures body != null ==> body[capacity..] == old(body[capacity..])
  {
    if body == null || capacity == 0 { return -1, 0; }
    hide Decode, DecodeData;
    ghost var input := body[..size];
    var read, write := 0, 0;
    assert body[0..size] == input && body[..0] == [];
    while read < size
      invariant 0 <= write <= read <= size && write < capacity && body[capacity..] == old(body[capacity..])
      invariant Decode(body[read..size], capacity, body[..write]) == Decode(input, capacity, [])
      decreases size - read
    {
      var length;
      code, length, read := PassHead(body, read, size, capacity, body[..write]);
      if code != 0 { return code, 0; }
      if length == 0 {
        ghost var out := body[..write];
        NoMore(body[read..size], capacity, out);
        if write < capacity { body[write] := 0; }
        assert body[..write] == out;
        return 0, write;
      }
      code, read := PassData(body, read, size, write, length, capacity);
      if code != 0 { return code, 0; }
      write := write + length;
    }
    assert body[read..size] == [];
    NoInput(capacity, body[..write]);
    return -2, 0;
  }

  lemma NoMore(b: seq<Byte>, capacity: nat, out: seq<Byte>)
    ensures DecodeData(b, 0, capacity, out) == Done(out)
  {
  }

  lemma NoInput(capacity: nat, out: seq<Byte>)
    ensures Decode([], capacity, out) == Fail(-2)
  {
  }
}
