/** HAL4D13.c: moving byte buffers through the 16-bit FIFO port of the ISP1362.

    The chip is seen through what crosses its bus: the commands written to it, each with
    the data words written after it, and the data words it hands out.  Loop counters are
    USHORTs and wrap. */
module Hal {
  import opened Bytes

  const EP_WR_FIFO := 0x00
  const EP_RD_FIFO := 0x10
  const EP_VALID_BUF := 0x60
  const EP_CLEAR_BUF := 0x70
  const DEV_WR_ADDR := 0xB6
  const DEVADDR_EN: Byte := 0x80
  const DEVADDR_MASK: Byte := 0x7F

  // One command and the data words written before the next one.
  datatype BusWrite = BusWrite(command: int, words: seq<Word>)

  // USHORT arithmetic.
  function Ushort(x: int): (w: Word)
    ensures 0 <= x < 0x1_0000 ==> w == x
  {
    x % 0x1_0000
  }

  // Two buffer bytes as one FIFO word, the first in the low half.
  function Pack(low: Byte, high: Byte): Word {
    low + 0x100 * high
  }

  function Low(w: Word): Byte { w % 0x100 }
  function High(w: Word): Byte { w / 0x100 }

  /** The bytes of a stream of FIFO words. */
  function Unpack(words: seq<Word>): (bytes: seq<Byte>)
    ensures |bytes| == 2 * |words|
  {
    if words == [] then [] else [Low(words[0]), High(words[0])] + Unpack(words[1..])
  }

  lemma {:induction false} UnpackAt(words: seq<Word>, k: nat)
    requires k < |words|
    ensures Unpack(words)[2 * k] == Low(words[k]) && Unpack(words)[2 * k + 1] == High(words[k])
  {
    if k == 0 {
    } else {
      UnpackAt(words[1..], k - 1);
    }
  }

  /** What the chip takes from a written FIFO stream: a length word, then that many bytes
      from the words that follow. */
  function Received(stream: seq<Word>): (bytes: seq<Byte>)
    requires stream != [] && 2 * (|stream| - 1) >= stream[0]
    ensures |bytes| == stream[0]
  {
    Unpack(stream[1..])[..stream[0]]
  }

  function Min(a: int, b: int): int { if a < b then a else b }

  // The number of FIFO words that hold n bytes.
  function HalfUp(n: nat): (h: nat)
    ensures 2 * h == n || 2 * h == n + 1
  {
    (n + 1) / 2
  }

  /** A FIFO with a complete packet in it: length word, then just enough data words. */
  predicate HoldsPacket(fifo: seq<Word>) {
    fifo != [] && |fifo| - 1 >= HalfUp(fifo[0])
  }

  class Port {
    var earlier: seq<BusWrite>  // what the driver has written, up to the last command
    var current: BusWrite       // the last command and its words so far
    var pending: seq<Word>      // what the chip will hand out, in order

    constructor (before: BusWrite, fifo: seq<Word>)
      ensures earlier == [] && current == before && pending == fifo
    {
      earlier, current, pending := [], before, fifo;
    }

    function Written(): seq<BusWrite>
      reads this
    {
      earlier + [current]
    }

    method WriteCommand(code: int)
      modifies this`earlier, this`current
      ensures earlier == old(earlier) + [old(current)] && current == BusWrite(code, [])
    {
      earlier, current := earlier + [current], BusWrite(code, []);
    }

    method WriteData(w: Word)
      modifies this`current
      ensures current == BusWrite(old(current).command, old(current).words + [w])
    {
      current := BusWrite(current.command, current.words + [w]);
    }

    method ReadData() returns (w: Word)
      requires pending != []
      modifies this`pending
      ensures w == old(pending)[0] && pending == old(pending)[1..]
    {
      w, pending := pending[0], pending[1..];
    }
  }

  /** Hal4D13_SetAddressEnable. */
  method SetAddressEnable(port: Port, bAddress: Byte, bEnable: bool)
    modifies port
    ensures port.pending == old(port.pending)
    ensures exists w: Byte ::
              && port.Written() == old(port.Written()) + [BusWrite(DEV_WR_ADDR, [w])]
              && w % 0x80 == bAddress % 0x80
              && (bEnable ==> w >= 0x80) && (!bEnable ==> w < 0x80)
  {
    port.WriteCommand(DEV_WR_ADDR);
    var a := bAddress;
    if bEnable {
      a := if a < DEVADDR_EN then a + DEVADDR_EN else a;  // a |= 0x80
    } else {
      a := a % (DEVADDR_MASK + 1);                         // a &= 0x7F
    }
    port.WriteData(a);
    assert port.current == BusWrite(DEV_WR_ADDR, [a]);
  }

  // ---------- reading ----------

  /** How many bytes a reader with room for cap takes from a FIFO. */
  function TakenLength(fifo: seq<Word>, cap: Word): (j: Word)
    requires fifo != []
  {
    Min(fifo[0], cap)
  }

  function TakenBytes(fifo: seq<Word>, cap: Word): (bytes: seq<Byte>)
    requires HoldsPacket(fifo)
    ensures |bytes| == TakenLength(fifo, cap)
  {
    Unpack(fifo[1..])[..TakenLength(fifo, cap)]
  }

  // mem with bytes laid over it from offset at.
  function Overlay(mem: seq<Byte>, at: nat, bytes: seq<Byte>): (r: seq<Byte>)
    requires at + |bytes| <= |mem|
    ensures |r| == |mem|
  {
    mem[..at] + bytes + mem[at + |bytes|..]
  }

  /** *buf = x, one place after the bytes stored so far. */
  method Store(buf: array<Byte>, p: nat, x: Byte, ghost mem: seq<Byte>, ghost at: nat, ghost done: seq<Byte>)
    requires |mem| == buf.Length && at + |done| == p < buf.Length
    requires buf[..] == Overlay(mem, at, done)
    modifies buf
    ensures buf[..] == Overlay(mem, at, done + [x])
  {
    buf[p] := x;
    assert buf[..] == Overlay(mem, at, done)[p := x];
  }

  lemma PrefixGrows(bytes: seq<Byte>, k: nat)
    requires k < |bytes|
    ensures bytes[..k] + [bytes[k]] == bytes[..k + 1]
  {}

  /** The loop the three readers share, statement for statement: j bytes from the FIFO
      into buf, from offset at. */
  method ReadLoop(port: Port, buf: array<Byte>, at: nat, j: Word)
    requires HalfUp(j) <= |port.pending| && at + j <= buf.Length
    modifies port`pending, buf
    ensures buf[..] == Overlay(old(buf[..]), at, Unpack(old(port.pending))[..j])
    ensures port.pending == old(port.pending)[HalfUp(j)..]
  {
    ghost var mem, words := buf[..], port.pending;
    ghost var bytes, done := Unpack(words)[..j], [];
    var i: Word, p := 0, at;
    ghost var k := 0;
    while i < j
      invariant i <= j && p == at + i && k <= |words|
      invariant 2 * k == i || (2 * k == i + 1 && i == j)
      invariant done == bytes[..i] && buf[..] == Overlay(mem, at, done)
      invariant port.pending == words[k..]
      decreases j - i
    {
      UnpackAt(words, k);
      assert bytes[i] == Low(words[k]) && (i + 1 < j ==> bytes[i + 1] == High(words[k]));
      PrefixGrows(bytes, i);
      var c := port.ReadData();
      k := k + 1;
      Store(buf, p, Low(c), mem, at, done);
      done := done + [Low(c)];
      i := Ushort(i + 1);
      if i >= j {
        break;
      }
      PrefixGrows(bytes, i);
      p := p + 1;
      Store(buf, p, High(c), mem, at, done);
      done := done + [High(c)];
      i := Ushort(i + 1);
      p := p + 1;
    }
    assert done == bytes && k == HalfUp(j);
  }

  /** Hal4D13_ReadEndpoint, and so Hal4D13_ReadBulkEndpoint and
      Hal4D13_ReadEndpointWOClearBuffer, which also clear the buffer. */
  method ReadEndpoint(port: Port, ep: Byte, buf: array<Byte>, at: nat, len: Word) returns (j: Word)
    requires HoldsPacket(port.pending)
    requires at + TakenLength(port.pending, len) <= buf.Length
    modifies port, buf
    ensures j == TakenLength(old(port.pending), len)
    ensures buf[..] == Overlay(old(buf[..]), at, TakenBytes(old(port.pending), len))
    ensures port.pending == old(port.pending)[1 + HalfUp(j)..]
    ensures port.Written() == old(port.Written()) + [BusWrite(EP_RD_FIFO + ep, []), BusWrite(EP_CLEAR_BUF + ep, [])]
  {
    port.WriteCommand(EP_RD_FIFO + ep);
    j := port.ReadData();
    if j > len {
      j := len;
    }
    ReadLoop(port, buf, at, j);
    port.WriteCommand(EP_CLEAR_BUF + ep);
  }

  // ---------- writing ----------

  /** The first k packed words of a buffer. */
  function PackedWords(b: seq<Byte>, k: nat): (ws: seq<Word>)
    requires 2 * k <= |b|
    ensures |ws| == k
  {
    if k == 0 then [] else PackedWords(b, k - 1) + [Pack(b[2 * k - 2], b[2 * k - 1])]
  }

  lemma PackedWordsGrow(b: seq<Byte>, k: nat)
    requires 2 * k + 2 <= |b|
    ensures PackedWords(b, k + 1) == PackedWords(b, k) + [Pack(b[2 * k], b[2 * k + 1])]
  {}

  // What WriteBulkEndpoint has sent after k rounds of its loop.
  function BulkSoFar(b: seq<Byte>, len: Word, k: nat): (ws: seq<Word>)
    requires 2 * k <= |b|
  {
    if len == 0 then [len, 0] else [len] + PackedWords(b, k)
  }

  lemma BulkRound(b: seq<Byte>, len: Word, k: nat)
    requires 2 * k + 2 <= |b| && 0 < len
    ensures BulkSoFar(b, len, k + 1) == BulkSoFar(b, len, k) + [Pack(b[2 * k], b[2 * k + 1])]
  {
    PackedWordsGrow(b, k);
    var w := Pack(b[2 * k], b[2 * k + 1]);
    assert [len] + (PackedWords(b, k) + [w]) == ([len] + PackedWords(b, k)) + [w];
  }

  /** The FIFO stream of Hal4D13_WriteBulkEndpoint: length word, then the packed words,
      an odd length pulling in the byte after the data; a zero length is followed by a
      zero word. */
  function BulkStream(b: seq<Byte>, len: Word): (ws: seq<Word>)
    requires 2 * HalfUp(len) <= |b|
  {
    BulkSoFar(b, len, HalfUp(len))
  }

  // The words of an odd-length buffer that hold two data bytes each.
  function FullWords(b: seq<Byte>, len: Word): (ws: seq<Word>)
    requires 0 < len && 2 * HalfUp(len) <= |b|
  {
    PackedWords(b, HalfUp(len) - 1)
  }

  // The words WriteEndpoint puts after the full ones when the length is odd.
  function OddTail(b: seq<Byte>, len: Word): (ws: seq<Word>)
    requires 0 < len && 2 * HalfUp(len) <= |b|
  {
    var k := HalfUp(len) - 1;
    [b[2 * k], Pack(b[2 * k], b[2 * k + 1])]
  }

  /** The FIFO stream of Hal4D13_WriteEndpoint: an odd length sends its last byte twice,
      first alone and then packed with the byte after the data. */
  function EndpointStream(b: seq<Byte>, len: Word): (ws: seq<Word>)
    requires 2 * HalfUp(len) <= |b|
  {
    if 2 * HalfUp(len) == len then BulkStream(b, len)
    else [len] + (FullWords(b, len) + OddTail(b, len))
  }

  // (USHORT)(*buf << 8) added to a byte cannot carry.
  function ShiftAdd(low: Byte, high: Byte): (w: Word)
    ensures w == Pack(low, high)
  {
    Ushort(low + Ushort(0x100 * high))
  }

  // What WriteEndpoint has sent after k rounds of its loop: a word a round, and a byte alone
  // before it in the last round of an odd length.
  function EndpointSoFar(b: seq<Byte>, len: Word, k: nat): (ws: seq<Word>)
    requires 2 * k <= |b|
  {
    if k == 0 then BulkSoFar(b, len, 0)
    else
      var before, pair := EndpointSoFar(b, len, k - 1), Pack(b[2 * k - 2], b[2 * k - 1]);
      if 2 * k - 1 >= len then before + [b[2 * k - 2]] + [pair] else before + [pair]
  }

  lemma {:induction false} EndpointIsBulk(b: seq<Byte>, len: Word, k: nat)
    requires 2 * k <= |b| && 2 * k <= len
    ensures EndpointSoFar(b, len, k) == BulkSoFar(b, len, k)
  {
    if k == 0 {
    } else {
      var pair := Pack(b[2 * k - 2], b[2 * k - 1]);
      EndpointIsBulk(b, len, k - 1);
      BulkRound(b, len, k - 1);
      assert EndpointSoFar(b, len, k) == EndpointSoFar(b, len, k - 1) + [pair];
    }
  }

  lemma JoinOdd(len: Word, front: seq<Word>, last: Word, pair: Word)
    ensures [len] + (front + [last, pair]) == [len] + front + [last] + [pair]
  {}

  // The parts of the stream of an odd length.
  lemma OddParts(b: seq<Byte>, len: Word, k: nat)
    requires 2 * k + 1 == len < |b|
    ensures EndpointStream(b, len) == [len] + (PackedWords(b, k) + [b[2 * k], Pack(b[2 * k], b[2 * k + 1])])
  {
    assert HalfUp(len) - 1 == k && len - 1 == 2 * k;
  }

  lemma OddEnd(b: seq<Byte>, len: Word, k: nat)
    requires 2 * k + 1 == len < |b|
    ensures EndpointStream(b, len) == BulkSoFar(b, len, k) + [b[2 * k]] + [Pack(b[2 * k], b[2 * k + 1])]
  {
    OddParts(b, len, k);
    JoinOdd(len, PackedWords(b, k), b[2 * k], Pack(b[2 * k], b[2 * k + 1]));
  }

  /** After its last round it has sent its stream. */
  lemma EndpointEnds(b: seq<Byte>, len: Word)
    requires 2 * HalfUp(len) <= |b|
    ensures EndpointSoFar(b, len, HalfUp(len)) == EndpointStream(b, len)
  {
    if 2 * HalfUp(len) == len {
      EndpointIsBulk(b, len, HalfUp(len));
    } else {
      var k := HalfUp(len) - 1;
      EndpointIsBulk(b, len, k);
      OddEnd(b, len, k);
    }
  }

  /** The loop of WriteEndpoint on buf[at..], after the length word. */
  method WriteLoop(port: Port, buf: array<Byte>, at: nat, len: Word) returns (i: Word)
    requires len <= 65534
    requires at + 2 * HalfUp(len) <= buf.Length
    requires port.current.words == EndpointSoFar(buf[at..], len, 0)
    modifies port`current
    ensures i == 2 * HalfUp(len)
    ensures port.current.command == old(port.current.command)
    ensures port.current.words == EndpointSoFar(buf[at..], len, HalfUp(len))
  {
    ghost var b := buf[at..];
    ghost var k := 0;
    i := 0;
    var p := at;
    while i < len
      invariant i == 2 * k && i <= len + 1 && p == at + i
      invariant port.current.command == old(port.current.command)
      invariant port.current.words == EndpointSoFar(b, len, k)
      decreases len + 1 - i
    {
      var c: Word := buf[p];
      assert c == b[2 * k] && buf[p + 1] == b[2 * k + 1];
      p := p + 1;
      i := Ushort(i + 1);
      if i >= len {
        port.WriteData(c);
      }
      assert Low(c) == c;
      c := Pack(Low(c), buf[p]);
      p := p + 1;
      i := Ushort(i + 1);
      port.WriteData(c);
      k := k + 1;
      assert port.current.words == EndpointSoFar(b, len, k);
    }
    assert k == HalfUp(len);
  }

  /** Hal4D13_WriteEndpoint on buf[at..].  With len 65535 the counter would skip from
      65534 to 0 and the loop would never end (see CounterReaches). */
  method WriteEndpoint(port: Port, ep: Byte, buf: array<Byte>, at: nat, len: Word) returns (i: Word)
    requires len <= 65534
    requires at + 2 * HalfUp(len) <= buf.Length
    modifies port`earlier, port`current
    ensures i == 2 * HalfUp(len)
    ensures port.pending == old(port.pending)
    ensures port.Written() == old(port.Written())
                              + [BusWrite(EP_WR_FIFO + ep, EndpointStream(buf[at..], len)), BusWrite(EP_VALID_BUF + ep, [])]
  {
    port.WriteCommand(EP_WR_FIFO + ep);
    port.WriteData(len);
    if len == 0 {
      port.WriteData(0);
    }
    i := WriteLoop(port, buf, at, len);
    EndpointEnds(buf[at..], len);
    port.WriteCommand(EP_VALID_BUF + ep);
  }

  /** Hal4D13_WriteBulkEndpoint on buf[at..]. */
  method WriteBulkEndpoint(port: Port, ep: Byte, buf: array<Byte>, at: nat, len: Word) returns (n: Word)
    requires len <= 65534
    requires at + 2 * HalfUp(len) <= buf.Length
    modifies port`earlier, port`current
    ensures n == len
    ensures port.pending == old(port.pending)
    ensures port.Written() == old(port.Written())
                              + [BusWrite(EP_WR_FIFO + ep, BulkStream(buf[at..], len)), BusWrite(EP_VALID_BUF + ep, [])]
  {
    ghost var b := buf[at..];
    port.WriteCommand(EP_WR_FIFO + ep);
    port.WriteData(len);
    if len == 0 {
      port.WriteData(0);
    }
    ghost var k := 0;
    var i: Word, p := 0, at;
    while i < len
      invariant i == 2 * k && k <= HalfUp(len) && p == at + i
      invariant port.current == BusWrite(EP_WR_FIFO + ep, BulkSoFar(b, len, k))
      invariant port.earlier == old(port.Written())
      decreases len + 1 - i
    {
      BulkRound(b, len, k);
      var low := buf[p];
      p := p + 1;
      var c := ShiftAdd(low, buf[p]);
      port.WriteData(c);
      k := k + 1;
      i, p := Ushort(i + 2), p + 1;
    }
    port.WriteCommand(EP_VALID_BUF + ep);
    n := len;
  }

  // ---------- what the streams carry ----------

  lemma {:induction false} UnpackAppend(ws: seq<Word>, us: seq<Word>)
    ensures Unpack(ws + us) == Unpack(ws) + Unpack(us)
  {
    if ws == [] {
      assert ws + us == us;
    } else {
      assert (ws + us)[1..] == ws[1..] + us;
      UnpackAppend(ws[1..], us);
    }
  }

  lemma PackHalves(low: Byte, high: Byte)
    ensures Low(Pack(low, high)) == low && High(Pack(low, high)) == high
  {}

  lemma {:induction false} UnpackPacked(b: seq<Byte>, k: nat)
    requires 2 * k <= |b|
    ensures Unpack(PackedWords(b, k)) == b[..2 * k]
  {
    if k == 0 {
    } else {
      PackedWordsGrow(b, k - 1);
      UnpackPacked(b, k - 1);
      var low, high := b[2 * k - 2], b[2 * k - 1];
      UnpackAppend(PackedWords(b, k - 1), [Pack(low, high)]);
      PackHalves(low, high);
      assert Unpack([Pack(low, high)]) == [low, high];
      assert b[..2 * k] == b[..2 * k - 2] + [low, high];
    }
  }

  lemma BulkBytes(b: seq<Byte>, len: Word)
    requires 2 * HalfUp(len) <= |b|
    ensures Unpack(BulkStream(b, len)[1..])[..len] == b[..len]
  {
    if len > 0 {
      assert BulkStream(b, len)[1..] == PackedWords(b, HalfUp(len));
      UnpackPacked(b, HalfUp(len));
    }
  }

  lemma OddTailBytes(b: seq<Byte>, len: Word)
    requires 2 * HalfUp(len) == len + 1 <= |b|
    ensures |Unpack(OddTail(b, len))| == 4 && Unpack(OddTail(b, len))[0] == b[len - 1]
  {
    var tail := OddTail(b, len);
    assert tail[0] == b[len - 1];
    PackHalves(b[len - 1], 0);
    assert Unpack(tail) == [Low(tail[0]), High(tail[0])] + Unpack(tail[1..]);
  }

  lemma OddBytes(b: seq<Byte>, len: Word)
    requires 2 * HalfUp(len) == len + 1 <= |b|
    ensures Unpack(FullWords(b, len) + OddTail(b, len))[..len] == b[..len]
  {
    UnpackPacked(b, HalfUp(len) - 1);
    UnpackAppend(FullWords(b, len), OddTail(b, len));
    OddTailBytes(b, len);
  }

  lemma EndpointBytes(b: seq<Byte>, len: Word)
    requires 2 * HalfUp(len) <= |b|
    ensures Unpack(EndpointStream(b, len)[1..])[..len] == b[..len]
  {
    if 2 * HalfUp(len) == len {
      BulkBytes(b, len);
    } else {
      OddBytes(b, len);
      assert EndpointStream(b, len)[1..] == FullWords(b, len) + OddTail(b, len);
    }
  }

  // Reading a packet of known content through a smaller window.
  lemma TakenOf(fifo: seq<Word>, cap: Word, bytes: seq<Byte>)
    requires HoldsPacket(fifo) && |bytes| == fifo[0] && Unpack(fifo[1..])[..fifo[0]] == bytes
    ensures TakenBytes(fifo, cap) == bytes[..Min(fifo[0], cap)]
  {}

  /** A written FIFO, read back by a reader with room for cap: the first min(len, cap)
      bytes come out, for both writers and every length.  With ReadEndpoint this says the
      bytes past them in the caller's buffer stay as they were, and that one length word
      and ceil(min(len, cap) / 2) data words are used up. */
  lemma FifoRoundTrip(b: seq<Byte>, len: Word, cap: Word)
    requires 2 * HalfUp(len) <= |b|
    ensures HoldsPacket(BulkStream(b, len)) && TakenBytes(BulkStream(b, len), cap) == b[..Min(len, cap)]
    ensures HoldsPacket(EndpointStream(b, len)) && TakenBytes(EndpointStream(b, len), cap) == b[..Min(len, cap)]
  {
    assert b[..len][..Min(len, cap)] == b[..Min(len, cap)];
    BulkBytes(b, len);
    TakenOf(BulkStream(b, len), cap, b[..len]);
    EndpointBytes(b, len);
    TakenOf(EndpointStream(b, len), cap, b[..len]);
  }

  /** The chip takes exactly the caller's bytes as the packet, extra words or not. */
  lemma PacketDelivered(b: seq<Byte>, len: Word)
    requires 2 * HalfUp(len) <= |b|
    ensures Received(BulkStream(b, len)) == b[..len]
    ensures Received(EndpointStream(b, len)) == b[..len]
  {
    BulkBytes(b, len);
    EndpointBytes(b, len);
  }

  /** For even lengths the writers emit one and the same stream.  For odd lengths
      WriteEndpoint emits one word more: the streams agree up to the last data byte,
      which WriteEndpoint first sends alone, and the words before the extra one are
      those of WriteBulkEndpoint exactly when the byte after the data is zero. */
  lemma WritersAgree(b: seq<Byte>, len: Word)
    requires 2 * HalfUp(len) <= |b|
    ensures 2 * HalfUp(len) == len ==> EndpointStream(b, len) == BulkStream(b, len)
    ensures 2 * HalfUp(len) != len ==>
              var front, last := [len] + FullWords(b, len), b[len - 1];
              && EndpointStream(b, len) == front + OddTail(b, len)
              && BulkStream(b, len) == front + [Pack(last, b[len])]
              && (front + [last] == BulkStream(b, len) <==> b[len] == 0)
  {
    if 2 * HalfUp(len) != len {
      var front, last := [len] + FullWords(b, len), b[len - 1];
      PackedWordsGrow(b, HalfUp(len) - 1);
      assert BulkStream(b, len) == front + [Pack(last, b[len])];
      LastWords(front, last, Pack(last, b[len]));
    }
  }

  lemma LastWords(front: seq<Word>, w: Word, u: Word)
    ensures front + [w] == front + [u] <==> w == u
  {
    assert (front + [w])[|front|] == w && (front + [u])[|front|] == u;
  }

  // ---------- when the write loops end ----------

  // i++ on a USHORT.
  function Increment(c: Word): Word {
    if c == 0xFFFF then 0 else c + 1
  }

  lemma IncrementIsUshort(c: Word)
    ensures Increment(c) == Ushort(c + 1)
  {}

  /** The loop counter of either writer after n rounds of two increments. */
  function CounterAfter(n: nat): Word {
    if n == 0 then 0 else Increment(Increment(CounterAfter(n - 1)))
  }

  lemma {:induction false} CounterIsEven(n: nat) returns (k: nat)
    ensures k <= 32767 && CounterAfter(n) == 2 * k
    ensures n <= 32767 ==> k == n
  {
    k := 0;
    if n == 0 {
    } else {
      k := CounterIsEven(n - 1);
      k := if k == 32767 then 0 else k + 1;
    }
  }

  /** The counter reaches the length, and the loop ends, for every length but 65535. */
  lemma CounterReaches(len: Word)
    ensures (exists n :: CounterAfter(n) >= len) <==> len <= 65534
  {
    if len <= 65534 {
      var k := CounterIsEven(HalfUp(len));
    } else {
      forall n: nat ensures CounterAfter(n) < len {
        var k := CounterIsEven(n);
      }
    }
  }
}
