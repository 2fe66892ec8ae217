/** Whole load sessions: which lines count, when the loaded program is started, and what is in
    memory then. */
module BootStart {
  import opened Bytes
  import opened BootLoader
  import opened BootImages

  // ---------- single characters and lines ----------

  predicate IsHexDigit(c: char) {
    '0' <= c <= '9' || 'A' <= c <= 'F'
  }

  /** A character has the value of the digit it prints, and every other character counts as
      zero. */
  lemma DigitIff(c: char, d: Digit)
    ensures CharToInt(c) == d <==> c == HexChar(d) || (d == 0 && !IsHexDigit(c))
  {}

  /** A record line of this type. */
  predicate Begins(line: seq<char>, kind: char) {
    |line| >= 2 && line[0] == 'S' && line[1] == kind
  }

  lemma TypesAreDigits(line: seq<char>)
    requires WellFormed(line)
    ensures IsStartLine(line) <==> Begins(line, '7')
    ensures IsDataLine(line) <==> Begins(line, '3')
  {
    if IsRecordLine(line) {
      DigitIff(line[1], 7);
      DigitIff(line[1], 3);
    }
  }

  /** A line starts the program if and only if it begins with S7, changes memory only if it
      begins with S3, and does nothing at all once the program has started. */
  lemma LineDoes(b: Boot, line: seq<char>)
    requires WellFormed(line)
    ensures !b.started ==> (Feed(b, line).started <==> Begins(line, '7'))
    ensures Feed(b, line).memory != b.memory ==> Begins(line, '3')
    ensures b.started || !(Begins(line, '3') || Begins(line, '7')) ==> Feed(b, line) == b
  {
    TypesAreDigits(line);
  }

  // ---------- lines one after the other ----------

  predicate AnyStarts(lines: seq<seq<char>>) {
    exists n :: 0 <= n < |lines| && Begins(lines[n], '7')
  }

  lemma AnyStartsFront(lines: seq<seq<char>>)
    requires lines != []
    ensures AnyStarts(lines) <==> AnyStarts(lines[..|lines| - 1]) || Begins(lines[|lines| - 1], '7')
  {
    var front := lines[..|lines| - 1];
    if AnyStarts(front) {
      var n :| 0 <= n < |front| && Begins(front[n], '7');
      assert Begins(lines[n], '7');
    }
    if n :| 0 <= n < |lines| && Begins(lines[n], '7') && n < |lines| - 1 {
      assert Begins(front[n], '7');
    }
  }

  /** The program is started if and only if some line begins with S7. */
  lemma {:induction false} StartedIff(b: Boot, lines: seq<seq<char>>)
    requires AllWellFormed(lines) && !b.started
    ensures FeedAll(b, lines).started <==> AnyStarts(lines)
  {
    if lines == [] {
    } else {
      var front := lines[..|lines| - 1];
      StartedIff(b, front);
      AnyStartsFront(lines);
      LineDoes(FeedAll(b, front), lines[|lines| - 1]);
    }
  }

  /** The lines that begin with S3, in order. */
  function DataLines(lines: seq<seq<char>>): (data: seq<seq<char>>)
    ensures AllWellFormed(lines) ==> AllWellFormed(data)
  {
    if lines == [] then []
    else
      var front, last := DataLines(lines[..|lines| - 1]), lines[|lines| - 1];
      if Begins(last, '3') then front + [last] else front
  }

  /** Until the program is started, the other lines might as well not be there. */
  lemma {:induction false} OtherLinesIgnored(b: Boot, lines: seq<seq<char>>)
    requires AllWellFormed(lines) && !AnyStarts(lines)
    ensures FeedAll(b, lines) == FeedAll(b, DataLines(lines))
  {
    if lines == [] {
    } else {
      var front, last := lines[..|lines| - 1], lines[|lines| - 1];
      AnyStartsFront(lines);
      OtherLinesIgnored(b, front);
      LineDoes(FeedAll(b, front), last);
      if Begins(last, '3') {
        assert DataLines(lines)[..|DataLines(front)|] == DataLines(front);
      }
    }
  }

  lemma FeedOneMore(b: Boot, lines: seq<seq<char>>, line: seq<char>)
    requires AllWellFormed(lines) && WellFormed(line)
    ensures AllWellFormed(lines + [line]) && FeedAll(b, lines + [line]) == Feed(FeedAll(b, lines), line)
  {
    assert (lines + [line])[..|lines|] == lines;
  }

  lemma StartedForGood(b: Boot, lines: seq<seq<char>>, after: seq<seq<char>>)
    requires AllWellFormed(lines) && AllWellFormed(after) && FeedAll(b, lines).started
    ensures AllWellFormed(lines + after) && FeedAll(b, lines + after) == FeedAll(b, lines)
  {
    assert (lines + after)[..|lines|] == lines;
    StartedStays(b, lines + after, |lines|);
  }

  /** A whole session: the records of a cut image, in any order and as often as one likes,
      with any other lines that neither carry data nor start the program among them, then an
      S7 line, then anything: the program is started with exactly the image in memory. */
  lemma ProgramStarts(m: Memory, image: Record, recs: seq<Record>, sent: seq<Record>, checksums: seq<Byte>,
                      lines: seq<seq<char>>, start: seq<char>, after: seq<seq<char>>)
    requires Placed(image) && Cuts(image.address, image.payload, recs) && SameRecords(recs, sent)
    requires AllFit(sent) && |checksums| == |sent| && DataLines(lines) == EncodeAll(sent, checksums)
    requires AllWellFormed(lines) && !AnyStarts(lines)
    requires WellFormed(start) && Begins(start, '7') && AllWellFormed(after)
    ensures AllWellFormed(lines + [start] + after)
    ensures FeedAll(Boot(m, false), lines + [start] + after) == Boot(m + CellsOf(image), true)
  {
    var b := Boot(m, false);
    ShuffledImage(m, image, recs, sent, checksums);
    OtherLinesIgnored(b, lines);
    FeedOneMore(b, lines, start);
    LineDoes(FeedAll(b, lines), start);
    StartedForGood(b, lines + [start], after);
  }
}
