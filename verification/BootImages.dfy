/** Loading images through S3 records: what an encoder writes, the loader puts back. */
module BootImages {
  import opened Bytes
  import opened BootLoader

  // ---------- records and the cells they are meant to fill ----------

  /** The content of an S3 record. */
  datatype Record = Record(address: nat, payload: seq<Byte>)

  const MAX_PAYLOAD := 33

  predicate IsCode(r: Record) {
    r.address >= CODEMEM_LMA
  }

  /** Code comes in whole words at word addresses; data does not run into code memory. */
  predicate Placed(r: Record) {
    if IsCode(r) then r.address % 2 == 0 && |r.payload| % 2 == 0
    else r.address + |r.payload| <= CODEMEM_LMA
  }

  /** A record that one line can carry, placed or not. */
  predicate Fits(r: Record) {
    r.address < 0x1_0000_0000 && |r.payload| <= MAX_PAYLOAD
  }

  // The codeword index of a code record's first cell.
  function CodeStart(address: nat): int {
    (address - CODEMEM_LMA) / 2
  }

  function Codeword(low: Byte, high: Byte): Word {
    low + 0x100 * high
  }

  // Bytes in consecutive data cells, and byte pairs in consecutive code cells.
  function DataImage(at: int, bytes: seq<Byte>): Memory
    decreases |bytes|
  {
    if bytes == [] then map[] else map[DataCell(at) := bytes[0] as Word] + DataImage(at + 1, bytes[1..])
  }

  function CodeImage(at: int, bytes: seq<Byte>): Memory
    decreases |bytes|
  {
    if |bytes| < 2 then map[] else map[CodeCell(at) := Codeword(bytes[0], bytes[1])] + CodeImage(at + 1, bytes[2..])
  }

  /** The memory a record, of any length, stands for; CellsMeaning spells it out. */
  function CellsOf(r: Record): Memory {
    if IsCode(r) then CodeImage(CodeStart(r.address), r.payload) else DataImage(r.address, r.payload)
  }

  lemma {:induction false} DataCells(at: int, bytes: seq<Byte>, c: Cell)
    ensures c in DataImage(at, bytes) <==> c.DataCell? && at <= c.address < at + |bytes|
    ensures c in DataImage(at, bytes) ==> DataImage(at, bytes)[c] == bytes[c.address - at]
    decreases |bytes|
  {
    if bytes == [] {
    } else {
      DataCells(at + 1, bytes[1..], c);
    }
  }

  // k: how many pairs there are.
  lemma {:induction false} CodeCells(at: int, bytes: seq<Byte>, k: nat, c: Cell)
    requires 2 * k <= |bytes| <= 2 * k + 1
    ensures c in CodeImage(at, bytes) <==> c.CodeCell? && at <= c.index < at + k
    ensures c in CodeImage(at, bytes) ==>
              var i := c.index - at; CodeImage(at, bytes)[c] == Codeword(bytes[2 * i], bytes[2 * i + 1])
    decreases k
  {
    if k == 0 {
    } else {
      CodeCells(at + 1, bytes[2..], k - 1, c);
    }
  }

  lemma MergeInOrder(m: Memory, x: Memory, y: Memory)
    ensures m + x + y == m + (x + y)
  {}

  lemma {:induction false} DataImageCut(at: int, a: seq<Byte>, b: seq<Byte>)
    ensures DataImage(at, a + b) == DataImage(at, a) + DataImage(at + |a|, b)
    decreases |a|
  {
    if a == [] {
      assert a + b == b;
    } else {
      assert (a + b)[1..] == a[1..] + b;
      DataImageCut(at + 1, a[1..], b);
      MergeInOrder(map[DataCell(at) := a[0] as Word], DataImage(at + 1, a[1..]), DataImage(at + |a|, b));
    }
  }

  lemma {:induction false} CodeImageCut(at: int, a: seq<Byte>, k: nat, b: seq<Byte>)
    requires |a| == 2 * k
    ensures CodeImage(at, a + b) == CodeImage(at, a) + CodeImage(at + k, b)
    decreases k
  {
    if k == 0 {
      assert a + b == b;
    } else {
      assert (a + b)[2..] == a[2..] + b;
      CodeImageCut(at + 1, a[2..], k - 1, b);
      MergeInOrder(map[CodeCell(at) := Codeword(a[0], a[1])], CodeImage(at + 1, a[2..]), CodeImage(at + k, b));
    }
  }

  /** Byte k of a data record goes to cell address + k; codeword k of a code record, its
      bytes 2k and 2k + 1 with the first one low, goes to word (address - 0x80000000) / 2 + k;
      and there are no other cells: an odd last byte of a code record fills none, and an odd
      code address counts as the even one below it. */
  lemma CellsMeaning(r: Record, c: Cell)
    ensures c in CellsOf(r) <==>
            if IsCode(r) then c.CodeCell? && 0 <= c.index - (r.address - CODEMEM_LMA) / 2 < |r.payload| / 2
            else c.DataCell? && r.address <= c.address < r.address + |r.payload|
    ensures c in CellsOf(r) ==>
              if IsCode(r) then
                var k := c.index - (r.address - CODEMEM_LMA) / 2;
                CellsOf(r)[c] == r.payload[2 * k] as int + 0x100 * r.payload[2 * k + 1] as int
              else CellsOf(r)[c] == r.payload[c.address - r.address]
  {
    if IsCode(r) {
      CodeCells(CodeStart(r.address), r.payload, |r.payload| / 2, c);
    } else {
      DataCells(r.address, r.payload, c);
    }
  }

  // ---------- the encoder ----------

  function HexChar(d: Digit): char {
    if d < 10 then (d + 48) as char else (d + 55) as char
  }

  function HexByte(b: Byte): (cs: seq<char>)
    ensures |cs| == 2
  {
    [HexChar(b / 16), HexChar(b % 16)]
  }

  function HexBytes(bytes: seq<Byte>): (cs: seq<char>)
    ensures |cs| == 2 * |bytes|
  {
    if bytes == [] then [] else HexByte(bytes[0]) + HexBytes(bytes[1..])
  }

  // The n hexadecimal digits of a, most significant first.
  function HexDigits(a: nat, n: nat): (cs: seq<char>)
    ensures |cs| == n
  {
    if n == 0 then [] else HexDigits(a / 16, n - 1) + [HexChar(a % 16)]
  }

  // Everything before the payload.
  function Header(r: Record): (cs: seq<char>)
    requires |r.payload| <= MAX_PAYLOAD
    ensures |cs| == PAYLOAD_OFFSET
  {
    ['S', '3'] + HexByte(|r.payload| + 5) + HexDigits(r.address, 8)
  }

  /** The S3 line of a record, with whatever checksum. */
  function EncodeLine(r: Record, checksum: Byte): (line: seq<char>)
    requires |r.payload| <= MAX_PAYLOAD
    ensures |line| == 14 + 2 * |r.payload|
  {
    Header(r) + HexBytes(r.payload) + HexByte(checksum)
  }

  lemma HexCharDecodes(d: Digit)
    ensures CharToInt(HexChar(d)) == d
  {}

  lemma HexByteDecodes(line: seq<char>, at: nat, b: Byte)
    requires at + 2 <= |line| && line[at] == HexChar(b / 16) && line[at + 1] == HexChar(b % 16)
    ensures HexByteAt(line, at) == b
  {
    HexCharDecodes(b / 16);
    HexCharDecodes(b % 16);
  }

  lemma {:induction false} HexBytesAt(bytes: seq<Byte>, k: nat)
    requires k < |bytes|
    ensures HexBytes(bytes)[2 * k] == HexChar(bytes[k] / 16)
    ensures HexBytes(bytes)[2 * k + 1] == HexChar(bytes[k] % 16)
  {
    if k == 0 {
    } else {
      HexBytesAt(bytes[1..], k - 1);
    }
  }

  // ---------- the address ----------

  /** The value of a hexadecimal numeral. */
  function HexValue(cs: seq<char>): nat {
    if cs == [] then 0 else 16 * HexValue(cs[..|cs| - 1]) + CharToInt(cs[|cs| - 1])
  }

  lemma {:induction false} HexValueBound(cs: seq<char>)
    requires |cs| <= 8
    ensures HexValue(cs) < Shift(|cs|)
  {
    if cs == [] {
    } else {
      HexValueBound(cs[..|cs| - 1]);
    }
  }

  lemma {:induction false} HexDigitsValue(a: nat, n: nat)
    requires n <= 8 && a < Shift(n)
    ensures HexValue(HexDigits(a, n)) == a
  {
    if n == 0 {
    } else {
      HexDigitsValue(a / 16, n - 1);
      HexCharDecodes(a % 16);
      assert HexDigits(a, n)[..n - 1] == HexDigits(a / 16, n - 1);
    }
  }

  // The n top digits of an address, worth v, moved to their place.
  function Shifted(v: nat, n: nat): int
    requires n <= 8
  {
    v * Shift(8 - n)
  }

  // Adding digit << 4 * (7 - k) to the top k digits.
  lemma AccumulatorStep(v: nat, d: Digit, k: nat)
    requires k < 8 && v < Shift(k)
    ensures Shifted(v, k) + d * Shift(7 - k) == Shifted(16 * v + d, k + 1)
    ensures 0 <= Shifted(16 * v + d, k + 1) < 0x1_0000_0000
  {
    match k
    case 0 =>
    case 1 =>
    case 2 =>
    case 3 =>
    case 4 =>
    case 5 =>
    case 6 =>
    case 7 =>
  }

  // One digit more of the numeral.
  lemma HexValueGrows(line: seq<char>, k: nat)
    requires k < 8 && |line| >= 12
    ensures HexValue(line[4..4 + (k + 1)]) == 16 * HexValue(line[4..4 + k]) + CharToInt(line[4 + k])
  {
    assert line[4..4 + (k + 1)][..k] == line[4..4 + k];
  }

  // One turn of the address loop.
  lemma AccumulatorTurn(line: seq<char>, v: nat, k: nat)
    requires k < 8 && |line| >= 12 && v < Shift(k) && AddressAfter(line, k) == Shifted(v, k)
    ensures AddressAfter(line, k + 1) == Shifted(16 * v + CharToInt(line[4 + k]), k + 1)
  {
    AccumulatorStep(v, CharToInt(line[4 + k]), k);
  }

  lemma {:induction false} AccumulatorValue(line: seq<char>, k: nat)
    requires k <= 8 && |line| >= 12
    ensures AddressAfter(line, k) == Shifted(HexValue(line[4..4 + k]), k)
  {
    if k == 0 {
    } else {
      AccumulatorValue(line, k - 1);
      HexValueBound(line[4..4 + (k - 1)]);
      AccumulatorTurn(line, HexValue(line[4..4 + (k - 1)]), k - 1);
      HexValueGrows(line, k - 1);
    }
  }

  /** On every line, encoded or not, the shift-and-add loop computes the plain value of the
      eight address characters. */
  lemma AddressIsHexValue(line: seq<char>)
    requires |line| >= 12
    ensures AddressAfter(line, 8) == HexValue(line[4..12])
  {
    AccumulatorValue(line, 8);
  }

  // ---------- one line ----------

  lemma HeaderParts(r: Record)
    requires |r.payload| <= MAX_PAYLOAD
    ensures Header(r)[0] == 'S' && Header(r)[1] == '3'
    ensures HexByteAt(Header(r), 2) == |r.payload| + 5
    ensures Header(r)[4..12] == HexDigits(r.address, 8)
  {
    HexByteDecodes(Header(r), 2, |r.payload| + 5);
  }

  lemma LineParts(r: Record, checksum: Byte, j: nat)
    requires |r.payload| <= MAX_PAYLOAD
    ensures EncodeLine(r, checksum)[..12] == Header(r)
    ensures j < 2 * |r.payload| ==> EncodeLine(r, checksum)[12 + j] == HexBytes(r.payload)[j]
  {}

  lemma PayloadByteAt(r: Record, checksum: Byte, k: nat)
    requires k < |r.payload| <= MAX_PAYLOAD
    ensures HexByteAt(EncodeLine(r, checksum), 12 + 2 * k) == r.payload[k]
  {
    HexBytesAt(r.payload, k);
    LineParts(r, checksum, 2 * k);
    LineParts(r, checksum, 2 * k + 1);
    HexByteDecodes(EncodeLine(r, checksum), 12 + 2 * k, r.payload[k]);
  }

  // The line carries these bytes as its payload.
  predicate Carries(line: seq<char>, bytes: seq<Byte>) {
    && PAYLOAD_OFFSET + 2 * |bytes| <= |line|
    && forall k :: 0 <= k < |bytes| ==> HexByteAt(line, PAYLOAD_OFFSET + 2 * k) == bytes[k]
  }

  lemma HeaderDecodes(r: Record, checksum: Byte)
    requires |r.payload| <= MAX_PAYLOAD && r.address < 0x1_0000_0000
    ensures var line := EncodeLine(r, checksum);
            IsDataLine(line) && HexByteAt(line, 2) == |r.payload| + 5 && AddressAfter(line, 8) == r.address
  {
    var line, header := EncodeLine(r, checksum), Header(r);
    LineParts(r, checksum, 0);
    HeaderParts(r);
    assert forall n :: 0 <= n < 12 ==> line[n] == line[..12][n];
    assert line[4..12] == header[4..12];
    AddressIsHexValue(line);
    HexDigitsValue(r.address, 8);
  }

  /** The parse of a data line undoes its encoding: the shift-and-add loop gives back the
      address, the length the loader derives from the line agrees with the length field,
      and every payload byte is found in its place. */
  lemma ParseUndoesEncode(r: Record, checksum: Byte)
    requires |r.payload| <= MAX_PAYLOAD && r.address < 0x1_0000_0000
    ensures var line := EncodeLine(r, checksum);
            && WellFormed(line) && IsDataLine(line)
            && AddressAfter(line, 8) == r.address
            && PayloadBytes(line) == |r.payload| == HexByteAt(line, 2) - 5
            && Carries(line, r.payload)
  {
    HeaderDecodes(r, checksum);
    forall k | 0 <= k < |r.payload|
      ensures HexByteAt(EncodeLine(r, checksum), PAYLOAD_OFFSET + 2 * k) == r.payload[k]
    {
      PayloadByteAt(r, checksum, k);
    }
  }

  lemma UpdateOnTop(m: Memory, x: Memory, c: Cell, w: Word)
    ensures (m + x)[c := w] == m + x[c := w]
  {}

  lemma DataImageAppend(at: int, front: seq<Byte>, b: Byte)
    ensures DataImage(at, front + [b]) == DataImage(at, front)[DataCell(at + |front|) := b]
  {
    DataImageCut(at, front, [b]);
    assert DataImage(at + |front|, [b]) == map[DataCell(at + |front|) := b as Word];
  }

  lemma CodeImageAppend(at: int, front: seq<Byte>, k: nat, low: Byte, high: Byte)
    requires |front| == 2 * k
    ensures CodeImage(at, front + [low, high]) == CodeImage(at, front)[CodeCell(at + k) := Codeword(low, high)]
  {
    CodeImageCut(at, front, k, [low, high]);
    assert CodeImage(at + k, [low, high]) == map[CodeCell(at + k) := Codeword(low, high)];
  }

  lemma {:induction false} BytesStored(m: Memory, line: seq<char>, a: int, bytes: seq<Byte>)
    requires Carries(line, bytes)
    ensures StoredBytes(m, line, a, |bytes|) == m + DataImage(a, bytes)
    decreases |bytes|
  {
    if bytes == [] {
    } else {
      var front, last := bytes[..|bytes| - 1], bytes[|bytes| - 1];
      BytesStored(m, line, a, front);
      assert bytes == front + [last];
      DataImageAppend(a, front, last);
      UpdateOnTop(m, DataImage(a, front), DataCell(a + |front|), last);
    }
  }

  lemma CodewordCarried(line: seq<char>, bytes: seq<Byte>, k: nat)
    requires Carries(line, bytes) && 2 * k + 2 <= |bytes|
    ensures CodewordAt(line, PAYLOAD_OFFSET + 4 * k) == Codeword(bytes[2 * k], bytes[2 * k + 1])
  {
    assert HexByteAt(line, PAYLOAD_OFFSET + 2 * (2 * k)) == bytes[2 * k];
    assert HexByteAt(line, PAYLOAD_OFFSET + 2 * (2 * k + 1)) == bytes[2 * k + 1];
  }

  lemma CarriesPrefix(line: seq<char>, bytes: seq<Byte>, n: nat)
    requires Carries(line, bytes) && n <= |bytes|
    ensures Carries(line, bytes[..n])
  {}

  // Two more bytes, carried by the line, are one more codeword.
  lemma WordStored(m: Memory, line: seq<char>, a: int, front: seq<Byte>, i: nat, low: Byte, high: Byte)
    requires |front| == 2 * i && PAYLOAD_OFFSET + 4 * i + 4 <= |line|
    requires CodewordAt(line, PAYLOAD_OFFSET + 4 * i) == Codeword(low, high)
    requires StoredWords(m, line, a, i) == m + CodeImage(a, front)
    ensures StoredWords(m, line, a, i + 1) == m + CodeImage(a, front + [low, high])
  {
    CodeImageAppend(a, front, i, low, high);
    UpdateOnTop(m, CodeImage(a, front), CodeCell(a + i), Codeword(low, high));
  }

  // k codewords are stored; all bytes come in pairs.
  lemma {:induction false} WordsStored(m: Memory, line: seq<char>, a: int, bytes: seq<Byte>, k: nat)
    requires Carries(line, bytes) && |bytes| == 2 * k
    ensures StoredWords(m, line, a, k) == m + CodeImage(a, bytes)
    decreases k
  {
    if k == 0 {
    } else {
      var i := k - 1;
      var front, low, high := bytes[..2 * i], bytes[2 * i], bytes[2 * i + 1];
      CarriesPrefix(line, bytes, 2 * i);
      WordsStored(m, line, a, front, i);
      CodewordCarried(line, bytes, i);
      WordStored(m, line, a, front, i, low, high);
      assert bytes == front + [low, high];
    }
  }

  // The last byte of an odd number fills no codeword.
  lemma {:induction false} OddByteDropped(at: int, bytes: seq<Byte>, k: nat)
    requires 2 * k <= |bytes| <= 2 * k + 1
    ensures CodeImage(at, bytes) == CodeImage(at, bytes[..2 * k])
    decreases k
  {
    if k == 0 {
    } else {
      OddByteDropped(at + 1, bytes[2..], k - 1);
      assert bytes[..2 * k][2..] == bytes[2..][..2 * (k - 1)];
    }
  }

  /** Feeding the line of a record fills exactly the record's cells, whatever checksum the
      line carries and wherever the record lies. */
  lemma LineFillsCells(m: Memory, r: Record, checksum: Byte)
    requires Fits(r)
    ensures WellFormed(EncodeLine(r, checksum)) && IsDataLine(EncodeLine(r, checksum))
    ensures LineEffect(m, EncodeLine(r, checksum)) == m + CellsOf(r)
  {
    ParseUndoesEncode(r, checksum);
    if IsCode(r) {
      var k := |r.payload| / 2;
      CarriesPrefix(EncodeLine(r, checksum), r.payload, 2 * k);
      WordsStored(m, EncodeLine(r, checksum), CodeStart(r.address), r.payload[..2 * k], k);
      OddByteDropped(CodeStart(r.address), r.payload, k);
    } else {
      BytesStored(m, EncodeLine(r, checksum), r.address, r.payload);
    }
  }

  // ---------- many records ----------

  function ApplyAll(m: Memory, recs: seq<Record>): Memory {
    if recs == [] then m else ApplyAll(m, recs[..|recs| - 1]) + CellsOf(recs[|recs| - 1])
  }

  predicate AllFit(recs: seq<Record>) {
    forall n :: 0 <= n < |recs| ==> Fits(recs[n])
  }

  /** The lines of a list of records, each with a checksum of its own. */
  function EncodeAll(recs: seq<Record>, checksums: seq<Byte>): (lines: seq<seq<char>>)
    requires AllFit(recs) && |checksums| == |recs|
    ensures |lines| == |recs|
  {
    seq(|recs|, n requires 0 <= n < |recs| => EncodeLine(recs[n], checksums[n]))
  }

  /** Loading the lines of any records is applying the records. */
  lemma {:induction false} LoadingLines(m: Memory, recs: seq<Record>, checksums: seq<Byte>)
    requires AllFit(recs) && |checksums| == |recs|
    ensures AllWellFormed(EncodeAll(recs, checksums))
    ensures FeedAll(Boot(m, false), EncodeAll(recs, checksums)) == Boot(ApplyAll(m, recs), false)
    decreases |recs|
  {
    var lines := EncodeAll(recs, checksums);
    forall n | 0 <= n < |lines| ensures WellFormed(lines[n]) {
      LineFillsCells(m, recs[n], checksums[n]);
    }
    if recs == [] {
    } else {
      var last := |recs| - 1;
      LoadingLines(m, recs[..last], checksums[..last]);
      assert lines[..last] == EncodeAll(recs[..last], checksums[..last]);
      LineFillsCells(ApplyAll(m, recs[..last]), recs[last], checksums[last]);
    }
  }

  // ---------- cutting an image into records ----------

  /** recs are consecutive pieces of the bytes that start at an address: the last record
      is their end, and the records before it are pieces of what comes before. */
  predicate Cuts(address: nat, bytes: seq<Byte>, recs: seq<Record>)
    decreases |recs|
  {
    if recs == [] then bytes == []
    else
      var last := recs[|recs| - 1];
      var n := |bytes| - |last.payload|;
      && n >= 0 && last == Record(address + n, bytes[n..]) && Placed(Record(address, bytes[..n]))
      && Cuts(address, bytes[..n], recs[..|recs| - 1])
  }

  // half: the number of words passed.
  lemma CodeStartMoves(address: nat, half: nat)
    requires address >= CODEMEM_LMA
    ensures CodeStart(address + 2 * half) == CodeStart(address) + half
  {}

  // Bytes cut in two: both parts are placed, and together they fill the same cells.
  lemma CutInTwo(address: nat, a: seq<Byte>, b: seq<Byte>)
    requires Placed(Record(address, a + b)) && Placed(Record(address, a))
    ensures Placed(Record(address + |a|, b))
    ensures CellsOf(Record(address, a + b)) == CellsOf(Record(address, a)) + CellsOf(Record(address + |a|, b))
  {
    if address >= CODEMEM_LMA {
      CodeStartMoves(address, |a| / 2);
      CodeImageCut(CodeStart(address), a, |a| / 2, b);
    } else if b == [] {
      assert a + b == a;
    } else {
      DataImageCut(address, a, b);
    }
  }

  lemma EmptyFillsNothing(address: nat)
    ensures CellsOf(Record(address, [])) == map[]
  {}

  lemma {:induction false} CutsCover(m: Memory, address: nat, bytes: seq<Byte>, recs: seq<Record>)
    requires Placed(Record(address, bytes)) && Cuts(address, bytes, recs)
    ensures ApplyAll(m, recs) == m + CellsOf(Record(address, bytes))
    decreases |recs|
  {
    if recs == [] {
      EmptyFillsNothing(address);
    } else {
      var last := recs[|recs| - 1];
      var front := bytes[..|bytes| - |last.payload|];
      CutsCover(m, address, front, recs[..|recs| - 1]);
      assert bytes == front + last.payload;
      CutInTwo(address, front, last.payload);
      MergeInOrder(m, CellsOf(Record(address, front)), CellsOf(last));
    }
  }

  /** Image reconstruction: an image, code or data, cut into records at any places and sent
      with any checksums, is in memory afterwards, and nothing else has changed.  What the
      image's cells are says CellsMeaning. */
  lemma ImageReconstruction(m: Memory, image: Record, recs: seq<Record>, checksums: seq<Byte>)
    requires Placed(image) && Cuts(image.address, image.payload, recs) && AllFit(recs) && |checksums| == |recs|
    ensures AllWellFormed(EncodeAll(recs, checksums))
    ensures FeedAll(Boot(m, false), EncodeAll(recs, checksums)) == Boot(m + CellsOf(image), false)
  {
    LoadingLines(m, recs, checksums);
    CutsCover(m, image.address, image.payload, recs);
  }

  // ---------- the order of records ----------

  // No two records disagree about a cell.
  ghost predicate Consistent(recs: seq<Record>) {
    forall r, q, c | r in recs && q in recs && c in CellsOf(r) && c in CellsOf(q) :: CellsOf(r)[c] == CellsOf(q)[c]
  }

  ghost predicate SameRecords(recs: seq<Record>, others: seq<Record>) {
    forall r :: r in recs <==> r in others
  }

  lemma {:induction false} CellUntouched(m: Memory, recs: seq<Record>, c: Cell)
    requires forall r | r in recs :: c !in CellsOf(r)
    ensures c in ApplyAll(m, recs) <==> c in m
    ensures c in m ==> ApplyAll(m, recs)[c] == m[c]
    decreases |recs|
  {
    if recs == [] {
    } else {
      CellUntouched(m, recs[..|recs| - 1], c);
    }
  }

  lemma {:induction false} CellWritten(m: Memory, recs: seq<Record>, r: Record, c: Cell)
    requires r in recs && c in CellsOf(r)
    requires forall q | q in recs && c in CellsOf(q) :: CellsOf(q)[c] == CellsOf(r)[c]
    ensures c in ApplyAll(m, recs) && ApplyAll(m, recs)[c] == CellsOf(r)[c]
    decreases |recs|
  {
    var last := recs[|recs| - 1];
    if c !in CellsOf(last) {
      CellWritten(m, recs[..|recs| - 1], r, c);
    }
  }

  lemma SameRecordsSameMemory(m: Memory, recs: seq<Record>, others: seq<Record>)
    requires Consistent(recs) && SameRecords(recs, others)
    ensures ApplyAll(m, recs) == ApplyAll(m, others)
  {
    var x, y := ApplyAll(m, recs), ApplyAll(m, others);
    forall c: Cell
      ensures c in x <==> c in y
      ensures c in x ==> x[c] == y[c]
    {
      if r :| r in recs && c in CellsOf(r) {
        CellWritten(m, recs, r, c);
        CellWritten(m, others, r, c);
      } else {
        CellUntouched(m, recs, c);
        CellUntouched(m, others, c);
      }
    }
    assert x.Keys == y.Keys;
  }

  /** The same records, each as often, in any order. */
  predicate Permuted(recs: seq<Record>, others: seq<Record>) {
    multiset(others) == multiset(recs)
  }

  ghost predicate OrderIrrelevant(recs: seq<Record>) {
    forall m, others :: Permuted(recs, others) ==> ApplyAll(m, others) == ApplyAll(m, recs)
  }

  // Neither order nor repetition.
  ghost predicate SequenceIrrelevant(recs: seq<Record>) {
    forall m, others :: SameRecords(recs, others) ==> ApplyAll(m, others) == ApplyAll(m, recs)
  }

  lemma PermutedAreSame(recs: seq<Record>, others: seq<Record>)
    requires Permuted(recs, others)
    ensures SameRecords(recs, others)
  {
    forall r ensures r in recs <==> r in others {
      assert r in recs <==> r in multiset(recs);
      assert r in others <==> r in multiset(others);
    }
  }

  lemma LastWriterWins(m: Memory, recs: seq<Record>, r: Record, c: Cell)
    requires c in CellsOf(r)
    ensures c in ApplyAll(m, recs + [r]) && ApplyAll(m, recs + [r])[c] == CellsOf(r)[c]
  {
    assert (recs + [r])[..|recs|] == recs;
  }

  lemma ConsistentSuffices(recs: seq<Record>)
    requires Consistent(recs)
    ensures SequenceIrrelevant(recs)
  {
    forall m, others | SameRecords(recs, others)
      ensures ApplyAll(m, others) == ApplyAll(m, recs)
    {
      SameRecordsSameMemory(m, recs, others);
    }
  }

  lemma SequenceCoversOrder(recs: seq<Record>)
    requires SequenceIrrelevant(recs)
    ensures OrderIrrelevant(recs)
  {
    forall m, others | Permuted(recs, others)
      ensures ApplyAll(m, others) == ApplyAll(m, recs)
    {
      PermutedAreSame(recs, others);
    }
  }

  // recs without record k.
  function Without(recs: seq<Record>, k: nat): seq<Record>
    requires k < |recs|
  {
    recs[..k] + recs[k + 1..]
  }

  lemma MovedToEnd(recs: seq<Record>, k: nat)
    requires k < |recs|
    ensures Permuted(recs, Without(recs, k) + [recs[k]])
  {
    assert recs == recs[..k] + [recs[k]] + recs[k + 1..];
  }

  // Moved to the end, a record has the last word on its cells.
  lemma OrderForcesCells(m: Memory, recs: seq<Record>, k: nat, c: Cell)
    requires OrderIrrelevant(recs) && k < |recs| && c in CellsOf(recs[k])
    ensures c in ApplyAll(m, recs) && ApplyAll(m, recs)[c] == CellsOf(recs[k])[c]
  {
    MovedToEnd(recs, k);
    LastWriterWins(m, Without(recs, k), recs[k], c);
  }

  lemma OrderForcesConsistency(recs: seq<Record>)
    requires OrderIrrelevant(recs)
    ensures Consistent(recs)
  {
    forall r, q, c | r in recs && q in recs && c in CellsOf(r) && c in CellsOf(q)
      ensures CellsOf(r)[c] == CellsOf(q)[c]
    {
      var i, j :| 0 <= i < |recs| && recs[i] == r && 0 <= j < |recs| && recs[j] == q;
      OrderForcesCells(map[], recs, i, c);
      OrderForcesCells(map[], recs, j, c);
    }
  }

  /** The order of records does not matter, on any initial memory, exactly when no two
      records disagree about a cell, and then neither does repetition; disjoint records are
      a special case.  If two disagree, some mere reordering changes the memory. */
  lemma OrderIrrelevantIff(recs: seq<Record>)
    ensures OrderIrrelevant(recs) <==> Consistent(recs)
    ensures SequenceIrrelevant(recs) <==> Consistent(recs)
  {
    if Consistent(recs) {
      ConsistentSuffices(recs);
    }
    if SequenceIrrelevant(recs) {
      SequenceCoversOrder(recs);
    }
    if OrderIrrelevant(recs) {
      OrderForcesConsistency(recs);
    }
  }

  // Two parts of an image have no cell in common.
  lemma PartsDisjoint(address: nat, a: seq<Byte>, b: seq<Byte>, c: Cell)
    requires Placed(Record(address, a)) && Placed(Record(address + |a|, b)) && c in CellsOf(Record(address, a))
    requires address + |a| >= CODEMEM_LMA ==> address >= CODEMEM_LMA || b == []
    ensures c !in CellsOf(Record(address + |a|, b))
  {
    CellsMeaning(Record(address, a), c);
    CellsMeaning(Record(address + |a|, b), c);
    if address >= CODEMEM_LMA {
      CodeStartMoves(address, |a| / 2);
    }
  }

  // The pieces of an image never say anything but the image.
  lemma {:induction false} PieceWithin(address: nat, bytes: seq<Byte>, recs: seq<Record>, r: Record, c: Cell)
    requires Placed(Record(address, bytes)) && Cuts(address, bytes, recs) && r in recs && c in CellsOf(r)
    ensures c in CellsOf(Record(address, bytes)) && CellsOf(Record(address, bytes))[c] == CellsOf(r)[c]
    decreases |recs|
  {
    var last := recs[|recs| - 1];
    var front := bytes[..|bytes| - |last.payload|];
    assert bytes == front + last.payload;
    CutInTwo(address, front, last.payload);
    if r != last {
      PieceWithin(address, front, recs[..|recs| - 1], r, c);
      PartsDisjoint(address, front, last.payload, c);
    }
  }

  /** An image arrives whatever the order its records come in, and however often each is
      repeated. */
  lemma ShuffledImage(m: Memory, image: Record, recs: seq<Record>, sent: seq<Record>, checksums: seq<Byte>)
    requires Placed(image) && Cuts(image.address, image.payload, recs) && SameRecords(recs, sent)
    requires AllFit(sent) && |checksums| == |sent|
    ensures AllWellFormed(EncodeAll(sent, checksums))
    ensures FeedAll(Boot(m, false), EncodeAll(sent, checksums)) == Boot(m + CellsOf(image), false)
  {
    forall r, q, c | r in recs && q in recs && c in CellsOf(r) && c in CellsOf(q)
      ensures CellsOf(r)[c] == CellsOf(q)[c]
    {
      PieceWithin(image.address, image.payload, recs, r, c);
      PieceWithin(image.address, image.payload, recs, q, c);
    }
    LoadingLines(m, sent, checksums);
    SameRecordsSameMemory(m, recs, sent);
    CutsCover(m, image.address, image.payload, recs);
  }

  // ---------- what the loader does not look at ----------

  predicate AgreeBefore(line: seq<char>, other: seq<char>, n: nat) {
    |line| == |other| && n <= |line| && forall i :: 0 <= i < n ==> line[i] == other[i]
  }

  lemma {:induction false} BytesIgnoreTail(m: Memory, line: seq<char>, other: seq<char>, n: nat, a: int, k: nat)
    requires AgreeBefore(line, other, n) && PAYLOAD_OFFSET + 2 * k <= n
    ensures StoredBytes(m, line, a, k) == StoredBytes(m, other, a, k)
  {
    if k == 0 {
    } else {
      BytesIgnoreTail(m, line, other, n, a, k - 1);
    }
  }

  lemma {:induction false} WordsIgnoreTail(m: Memory, line: seq<char>, other: seq<char>, n: nat, a: int, k: nat)
    requires AgreeBefore(line, other, n) && PAYLOAD_OFFSET + 4 * k <= n
    ensures StoredWords(m, line, a, k) == StoredWords(m, other, a, k)
  {
    if k == 0 {
    } else {
      WordsIgnoreTail(m, line, other, n, a, k - 1);
    }
  }

  lemma {:induction false} AddressIgnoresTail(line: seq<char>, other: seq<char>, n: nat, k: nat)
    requires AgreeBefore(line, other, n) && n >= 12 && k <= 8
    ensures AddressAfter(line, k) == AddressAfter(other, k)
  {
    if k == 0 {
    } else {
      AddressIgnoresTail(line, other, n, k - 1);
    }
  }

  /** The checksum characters are never read: lines that differ only there have the same
      effect, right or wrong. */
  lemma ChecksumIgnored(m: Memory, line: seq<char>, other: seq<char>)
    requires IsDataLine(line) && WellFormed(line) && |line| >= 14
    requires AgreeBefore(line, other, |line| - CHECKSUM_LEN)
    ensures IsDataLine(other) && WellFormed(other) && LineEffect(m, other) == LineEffect(m, line)
  {
    var end := |line| - CHECKSUM_LEN;
    AddressIgnoresTail(line, other, end, 8);
    var a, n := AddressAfter(line, 8), PayloadBytes(line);
    if a >= CODEMEM_LMA {
      WordsIgnoreTail(m, line, other, end, (a - CODEMEM_LMA) / 2, n / 2);
    } else {
      BytesIgnoreTail(m, line, other, end, a, n);
    }
  }
}
