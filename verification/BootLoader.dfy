/** The S-record boot loader of bootloader/main.c: lines of hex text in, target memory out. */
module BootLoader {
  import opened Bytes

  type Address = x: int | 0 <= x < 0x1_0000_0000
  // The counters of the C code; an assignment that would wrap is rejected.
  type Int8 = x: int | -0x80 <= x < 0x80
  type Digit = x: int | 0 <= x < 16

  const CODEMEM_LMA: Address := 0x8000_0000
  const SREC_MAX_LINE_LEN := 80
  const ADDRESS_OFFSET := 4
  const PAYLOAD_OFFSET: Byte := 12
  const CHECKSUM_LEN := 2

  /** The loader writes bytes of data memory and 16-bit words of code memory. */
  datatype Cell = DataCell(address: int) | CodeCell(index: int)
  type Memory = map<Cell, Word>

  function CharToInt(c: char): Digit {
    if '0' <= c <= '9' then c as int - 48
    else if 'A' <= c <= 'F' then c as int - 55
    else 0
  }

  // Two characters as a byte.
  function HexByteAt(line: seq<char>, at: nat): Byte
    requires at + 2 <= |line|
  {
    16 * CharToInt(line[at]) + CharToInt(line[at + 1])
  }

  // 1 << 4 * j
  function Shift(j: nat): nat
    requires j <= 8
  {
    match j
    case 0 => 0x1
    case 1 => 0x10
    case 2 => 0x100
    case 3 => 0x1000
    case 4 => 0x1_0000
    case 5 => 0x10_0000
    case 6 => 0x100_0000
    case 7 => 0x1000_0000
    case 8 => 0x1_0000_0000
  }

  // The address accumulator after k characters.
  function AddressAfter(line: seq<char>, k: nat): Address
    requires k <= 8 && ADDRESS_OFFSET + 8 <= |line|
  {
    if k == 0 then 0
    else (AddressAfter(line, k - 1) + CharToInt(line[ADDRESS_OFFSET + k - 1]) * Shift(8 - k)) % 0x1_0000_0000
  }

  predicate IsRecordLine(line: seq<char>) {
    |line| >= 2 && line[0] == 'S'
  }

  /** A line whose effect the C code defines: it fits the buffer; it is not a lone S, whose
      type would be what an earlier line left in the buffer; and a data record has all its
      address.  Shorter data records are the ones RunsAwayIff is about. */
  predicate WellFormed(line: seq<char>) {
    && |line| <= SREC_MAX_LINE_LEN
    && (|line| == 1 ==> line[0] != 'S')
    && (IsRecordLine(line) && CharToInt(line[1]) == 3 ==> |line| >= 13)
  }

  predicate IsDataLine(line: seq<char>) {
    |line| >= 13 && line[0] == 'S' && CharToInt(line[1]) == 3
  }

  predicate IsStartLine(line: seq<char>) {
    IsRecordLine(line) && CharToInt(line[1]) == 7
  }

  /** srec.payload_num_bytes from the size of a line: a division that truncates toward zero,
      stored in eight bits. */
  function PayloadCount(size: nat): (n: Byte)
    ensures 14 <= size <= 0x200 ==> n == (size - 14) / 2
    ensures size == 13 ==> n == 0
  {
    var characters := size - PAYLOAD_OFFSET - CHECKSUM_LEN;
    (if characters >= 0 then characters / 2 else -(-characters / 2)) % 0x100
  }

  function PayloadBytes(line: seq<char>): Byte
    requires 13 <= |line| <= SREC_MAX_LINE_LEN
  {
    PayloadCount(|line|)
  }

  // Memory after the first k bytes of a line have been stored from address a on.
  function StoredBytes(m: Memory, line: seq<char>, a: int, k: nat): Memory
    requires PAYLOAD_OFFSET + 2 * k <= |line|
  {
    if k == 0 then m
    else StoredBytes(m, line, a, k - 1)[DataCell(a + k - 1) := HexByteAt(line, PAYLOAD_OFFSET + 2 * (k - 1))]
  }

  // The codeword at an offset: its second byte is the high one.
  function CodewordAt(line: seq<char>, at: nat): Word
    requires at + 4 <= |line|
  {
    0x100 * HexByteAt(line, at + 2) + HexByteAt(line, at)
  }

  // Memory after the first k codewords of a line have been programmed from index a on.
  function StoredWords(m: Memory, line: seq<char>, a: int, k: nat): Memory
    requires PAYLOAD_OFFSET + 4 * k <= |line|
  {
    if k == 0 then m
    else StoredWords(m, line, a, k - 1)[CodeCell(a + k - 1) := CodewordAt(line, PAYLOAD_OFFSET + 4 * (k - 1))]
  }

  /** What one data line does to memory. */
  function LineEffect(m: Memory, line: seq<char>): Memory
    requires IsDataLine(line) && WellFormed(line)
  {
    var a, n := AddressAfter(line, 8), PayloadBytes(line);
    if a >= CODEMEM_LMA then StoredWords(m, line, (a - CODEMEM_LMA) / 2, n / 2)
    else StoredBytes(m, line, a, n)
  }

  /** The loader between two lines; once started it has jumped into the loaded program. */
  datatype Boot = Boot(memory: Memory, started: bool)

  function Feed(b: Boot, line: seq<char>): Boot
    requires WellFormed(line)
  {
    if b.started then b
    else if IsDataLine(line) then b.(memory := LineEffect(b.memory, line))
    else if IsStartLine(line) then b.(started := true)
    else b
  }

  predicate AllWellFormed(lines: seq<seq<char>>) {
    forall n :: 0 <= n < |lines| ==> WellFormed(lines[n])
  }

  function FeedAll(b: Boot, lines: seq<seq<char>>): Boot
    requires AllWellFormed(lines)
  {
    if lines == [] then b else Feed(FeedAll(b, lines[..|lines| - 1]), lines[|lines| - 1])
  }

  // ---------- the C functions ----------

  /** srecord_t. */
  class SRecord {
    var kind: Byte
    var length: Byte
    var addressLength: Byte
    var address: Address
    var payloadNumBytes: Byte
    var payloadOffset: Byte
    var size: Byte

    constructor () {
      kind, length, addressLength, address := 0, 0, 0, 0;
      payloadNumBytes, payloadOffset, size := 0, 0, 0;
    }
  }

  class Loader {
    var memory: Memory
    var started: bool
    // the programmer module
    var programmerAddress: Address
    var programmerData: Word

    function Value(): Boot
      reads this
    {
      Boot(memory, started)
    }

    constructor (m: Memory)
      ensures Value() == Boot(m, false)
    {
      memory, started, programmerAddress, programmerData := m, false, 0, 0;
    }

    /** Four characters as a codeword, the second byte high. */
    method ReadCodeword(buffer: array<char>, at: nat, ghost line: seq<char>) returns (data: Word)
      requires |line| <= buffer.Length && buffer[..|line|] == line && at + 4 <= |line|
      ensures data == CodewordAt(line, at)
    {
      assert buffer[at] == line[at] && buffer[at + 1] == line[at + 1];
      assert buffer[at + 2] == line[at + 2] && buffer[at + 3] == line[at + 3];
      data := 0x1000 * CharToInt(buffer[at + 2]) + 0x100 * CharToInt(buffer[at + 3])
              + 0x10 * CharToInt(buffer[at + 0]) + CharToInt(buffer[at + 1]);
    }

    method ProgramCodemem(srec: SRecord, buffer: array<char>, ghost line: seq<char>)
      requires |line| <= buffer.Length && buffer[..|line|] == line && |line| <= SREC_MAX_LINE_LEN
      requires srec.address >= CODEMEM_LMA && srec.payloadOffset == PAYLOAD_OFFSET
      requires PAYLOAD_OFFSET < |line|
      requires srec.payloadNumBytes == 0 || PAYLOAD_OFFSET + 2 * srec.payloadNumBytes + CHECKSUM_LEN <= |line|
      modifies this`memory, this`programmerAddress, this`programmerData, srec`address, srec`payloadOffset
      ensures memory == StoredWords(old(memory), line, (old(srec.address) - CODEMEM_LMA) / 2, old(srec.payloadNumBytes) / 2)
      ensures started == old(started)
    {
      srec.address := srec.address - CODEMEM_LMA;
      srec.address := srec.address / 2;
      ghost var a, n := srec.address, srec.payloadNumBytes;
      var i: Int8 := 0;
      while i < srec.payloadNumBytes / 2
        invariant 0 <= i <= n / 2 && srec.address == a
        invariant srec.payloadOffset == PAYLOAD_OFFSET + 4 * i
        invariant memory == StoredWords(old(memory), line, a, i)
        decreases n / 2 - i
      {
        var at := srec.payloadOffset;
        assert at + 4 + CHECKSUM_LEN <= |line|;
        programmerAddress := srec.address + i;
        programmerData := ReadCodeword(buffer, at, line);
        srec.payloadOffset := srec.payloadOffset + 4;
        memory := memory[CodeCell(programmerAddress) := programmerData];
        i := i + 1;
      }
    }

    method ProgramDatamem(srec: SRecord, buffer: array<char>, ghost line: seq<char>)
      requires |line| <= buffer.Length && buffer[..|line|] == line && |line| <= SREC_MAX_LINE_LEN
      requires srec.address < CODEMEM_LMA && srec.payloadOffset == PAYLOAD_OFFSET
      requires PAYLOAD_OFFSET < |line|
      requires srec.payloadNumBytes == 0 || PAYLOAD_OFFSET + 2 * srec.payloadNumBytes + CHECKSUM_LEN <= |line|
      modifies this`memory, srec`payloadOffset
      ensures memory == StoredBytes(old(memory), line, old(srec.address), old(srec.payloadNumBytes))
      ensures started == old(started)
    {
      ghost var a, n := srec.address, srec.payloadNumBytes;
      var i: Int8 := 0;
      while i < srec.payloadNumBytes
        invariant 0 <= i <= n
        invariant srec.payloadOffset == PAYLOAD_OFFSET + 2 * i
        invariant memory == StoredBytes(old(memory), line, a, i)
        decreases n - i
      {
        var at := srec.payloadOffset;
        assert at + 2 + CHECKSUM_LEN <= |line|;
        assert buffer[at] == line[at] && buffer[at + 1] == line[at + 1];
        var address: Address := srec.address + i;
        var data: Byte := 0x10 * CharToInt(buffer[at + 0]) + CharToInt(buffer[at + 1]);
        srec.payloadOffset := srec.payloadOffset + 2;
        memory := memory[DataCell(address) := data];
        i := i + 1;
      }
    }

    /** The shift-and-add loop over the address characters. */
    method ExtractAddress(srec: SRecord, buffer: array<char>, ghost line: seq<char>)
      requires 12 < |line| <= buffer.Length && buffer[..|line|] == line
      requires srec.addressLength == 8
      modifies srec`address
      ensures srec.address == AddressAfter(line, 8)
    {
      srec.address := 0;
      var i: Int8 := 0;
      while i < srec.addressLength
        invariant 0 <= i <= 8 && srec.address == AddressAfter(line, i)
      {
        var j: Int8 := srec.addressLength - 1 - i;
        assert buffer[ADDRESS_OFFSET + i] == line[ADDRESS_OFFSET + i];
        srec.address := (srec.address + CharToInt(buffer[ADDRESS_OFFSET + i]) * Shift(j)) % 0x1_0000_0000;
        i := i + 1;
      }
    }

    /** One turn of the record loop, on a line of size characters in the buffer. */
    method ProcessLine(buffer: array<char>, size: Byte)
      requires size <= SREC_MAX_LINE_LEN < buffer.Length
      requires WellFormed(buffer[..size]) && !started
      modifies this
      ensures Value() == Feed(old(Value()), buffer[..size])
    {
      ghost var line := buffer[..size];
      var srec := new SRecord();
      srec.size := size;
      if srec.size == 0 {
        return;
      }
      if buffer[0] != 'S' {
        return;
      }
      assert buffer[0] == line[0];
      assert buffer[1] == line[1];
      srec.kind := CharToInt(buffer[1]);
      srec.length := 0x10 * CharToInt(buffer[2]) + CharToInt(buffer[3]);
      if srec.kind == 3 {
        srec.addressLength := 8;
        ExtractAddress(srec, buffer, line);
        srec.payloadOffset := ADDRESS_OFFSET + srec.addressLength;
        srec.payloadNumBytes := PayloadCount(srec.size);
        if srec.address >= CODEMEM_LMA {
          ProgramCodemem(srec, buffer, line);
        } else {
          ProgramDatamem(srec, buffer, line);
        }
      } else if srec.kind == 7 {
        started := true;
      }
    }

    /** The record loop, fed by the lines the UART delivers, up to the jump. */
    method RecordLoop(lines: seq<seq<char>>)
      requires AllWellFormed(lines) && !started
      modifies this
      ensures Value() == FeedAll(old(Value()), lines)
    {
      var buffer := new char[SREC_MAX_LINE_LEN + 1];
      var n := 0;
      while n < |lines| && !started
        invariant 0 <= n <= |lines| && fresh(buffer)
        invariant Value() == FeedAll(old(Value()), lines[..n])
      {
        var line := lines[n];
        forall k | 0 <= k < |line| {
          buffer[k] := line[k];
        }
        assert buffer[..|line|] == line;
        ProcessLine(buffer, |line|);
        n := n + 1;
        assert lines[..n][..n - 1] == lines[..n - 1];
      }
      assert lines[..|lines|] == lines;
      if started {
        StartedStays(old(Value()), lines, n);
      }
    }
  }

  lemma {:induction false} StartedStays(b: Boot, lines: seq<seq<char>>, n: nat)
    requires n <= |lines| && AllWellFormed(lines) && FeedAll(b, lines[..n]).started
    ensures FeedAll(b, lines) == FeedAll(b, lines[..n])
    decreases |lines| - n
  {
    if n == |lines| {
      assert lines[..n] == lines;
    } else {
      assert lines[..n + 1][..n] == lines[..n];
      StartedStays(b, lines, n + 1);
    }
  }

  // ---------- data records too short for their fields ----------

  // The int8_t counter of the payload loops after k increments.
  function CounterAfter(k: nat): Int8 {
    if k == 0 then 0 else (CounterAfter(k - 1) + 1 + 0x80) % 0x100 - 0x80
  }

  lemma {:induction false} CounterCounts(k: nat)
    requires k <= 0x7F
    ensures CounterAfter(k) == k
  {
    if k == 0 {
    } else {
      CounterCounts(k - 1);
    }
  }

  lemma ShortCountIsHuge(size: nat)
    requires size <= 12
    ensures PayloadCount(size) >= 0xF9
  {}

  /** The payload loop over data memory comes to an end, and reads no character behind the
      payload, if and only if the data record has at least thirteen characters: below that
      the negative payload size is stored as a count the counter never reaches. */
  lemma RunsAwayIff(size: nat)
    requires size <= SREC_MAX_LINE_LEN
    ensures (exists k :: CounterAfter(k) >= PayloadCount(size)) <==> size >= 13
    ensures PayloadCount(size) == 0 || PAYLOAD_OFFSET + 2 * PayloadCount(size) + CHECKSUM_LEN <= size <==> size >= 13
  {
    if size >= 13 {
      CounterCounts(PayloadCount(size));
    } else {
      ShortCountIsHuge(size);
    }
  }

  /** The loop over code memory, with half the count, always comes to an end; but below
      thirteen characters it has read far behind the line by then. */
  lemma CodeLoopOverreadsIff(size: nat)
    requires size <= SREC_MAX_LINE_LEN
    ensures exists k :: CounterAfter(k) >= PayloadCount(size) / 2
    ensures PayloadCount(size) / 2 == 0 || PAYLOAD_OFFSET + 4 * (PayloadCount(size) / 2) + CHECKSUM_LEN <= size
            <==> size >= 13
  {
    CounterCounts(PayloadCount(size) / 2);
    if size < 13 {
      ShortCountIsHuge(size);
    }
  }
}
