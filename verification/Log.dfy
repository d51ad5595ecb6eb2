/** The log writer and reader as the program runs them, against the log format. */
module Log {
  import opened Bytes
  import opened DbFormat
  import opened LogFormat
  import LogFragments

  class Writer {
    const sum: Checksum
    var dest: Slice
    var blockOffset: nat

    /** The block offset is the file length within its block; a block just filled may
        still count as offset 32768. */
    predicate Valid() reads this {
      blockOffset <= BLOCK_SIZE && (blockOffset == |dest| % BLOCK_SIZE || (blockOffset == BLOCK_SIZE && |dest| % BLOCK_SIZE == 0))
    }

    /** Continues a file that already holds some bytes. */
    constructor (sum: Checksum, dest: Slice)
      ensures Valid() && this.sum == sum && this.dest == dest
    {
      this.sum, this.dest, this.blockOffset := sum, dest, |dest| % BLOCK_SIZE;
    }

    /** Appends one record, cut into fragments. */
    method AddRecord(record: Slice)
      requires Valid()
      modifies this
      ensures Valid() && dest == old(dest) + Layout(sum, |old(dest)|, record, true)
    {
      hide Physical, Layout;
      var left := record;
      var begin, more := true, true;
      while more
        invariant Valid() && (!more ==> left == [])
        invariant dest + (if more then Layout(sum, |dest|, left, begin) else [])
               == old(dest) + Layout(sum, |old(dest)|, record, true)
        decreases more, |left|, Leftover(FragmentStart(|dest|)) == HEADER_SIZE
      {
        ghost var before := dest;
        var leftover := BLOCK_SIZE - blockOffset;
        if leftover < HEADER_SIZE {
          if leftover > 0 {
            dest := dest + Zeros(leftover);
          }
          blockOffset := 0;
        }
        ghost var start := FragmentStart(|before|);
        assert dest == before + Zeros(start - |before|) && |dest| == start && Leftover(start) == BLOCK_SIZE - blockOffset;
        var avail := BLOCK_SIZE - blockOffset - HEADER_SIZE;
        var fragmentLength := if |left| < avail then |left| else avail;
        var end := |left| == fragmentLength;
        var t := if begin && end then FULL_TYPE else if begin then FIRST_TYPE else if end then LAST_TYPE else MIDDLE_TYPE;
        ghost var rest := left;
        EmitPhysicalRecord(t, left[..fragmentLength]);
        LayoutUnfolds(sum, before, rest, begin, start, fragmentLength, dest);
        if !end {
          CutFillsBlock(start, rest);
        }
        left := left[fragmentLength..];
        begin, more := false, left != [];
      }
    }

    method EmitPhysicalRecord(t: Byte, data: Slice)
      requires Valid() && blockOffset + HEADER_SIZE + |data| <= BLOCK_SIZE
      modifies this
      ensures Valid() && dest == old(dest) + Physical(sum, t, data)
    {
      var header: Slice := sum([t] + data) + [|data| % 256, |data| / 256, t];
      dest := dest + header;
      dest := dest + data;
      blockOffset := blockOffset + HEADER_SIZE + |data|;
      PhysicalIs(sum, t, data, old(dest), header);
    }
  }

  lemma PhysicalIs(sum: Checksum, t: Byte, data: Slice, before: Slice, header: Slice)
    requires |data| <= BLOCK_SIZE && header == sum([t] + data) + [|data| % 256, |data| / 256, t]
    ensures before + header + data == before + Physical(sum, t, data) && |Physical(sum, t, data)| == HEADER_SIZE + |data|
  {
    assert before + header + data == before + (header + data);
  }

  /** One turn of the fragment loop is one step of the layout. */
  lemma LayoutUnfolds(sum: Checksum, before: Slice, data: Slice, begin: bool, start: nat, len: nat, after: Slice)
    requires start == FragmentStart(|before|) && len == FragmentLength(start, data)
    requires after == before + Zeros(start - |before|) + Physical(sum, FragmentType(begin, len == |data|), data[..len])
    ensures before + Layout(sum, |before|, data, begin)
         == after + (if len == |data| then [] else Layout(sum, |after|, data[len..], false))
  {
    hide Layout, Physical, Zeros, Leftover, FragmentStart, FragmentLength, FragmentType;
    var zeros, fragment := Zeros(start - |before|), Physical(sum, FragmentType(begin, len == |data|), data[..len]);
    if len == |data| {
      assert data[..len] == data;
      LayoutOfLast(sum, |before|, data, begin);
      FourParts(before, zeros, fragment, []);
    } else {
      CutUnfolds(sum, before, data, begin, start, len, zeros, fragment);
    }
  }

  lemma CutUnfolds(sum: Checksum, before: Slice, data: Slice, begin: bool, start: nat, len: nat, zeros: Slice, fragment: Slice)
    requires start == FragmentStart(|before|) && len == FragmentLength(start, data) < |data|
    requires zeros == Zeros(start - |before|) && fragment == Physical(sum, FragmentType(begin, false), data[..len])
    ensures before + Layout(sum, |before|, data, begin)
         == before + zeros + fragment + Layout(sum, |before + zeros + fragment|, data[len..], false)
  {
    hide Layout, Physical, Zeros, Leftover, FragmentStart, FragmentLength, FragmentType;
    LayoutOfCut(sum, |before|, data, begin);
    assert |before + zeros + fragment| == start + HEADER_SIZE + len;
    FourParts(before, zeros, fragment, Layout(sum, start + HEADER_SIZE + len, data[len..], false));
  }

  lemma FourParts(a: Slice, b: Slice, c: Slice, d: Slice)
    ensures a + (b + c + d) == a + b + c + d && (d == [] ==> a + (b + c) == a + b + c + d)
  {
  }

  /** A filled buffer holds what is left of the block that the next fragment is in. */
  lemma BufferIsTheBlock(file: Slice, p: nat, start: nat, end: nat, eof: bool)
    requires p <= start <= end <= |file|
    requires if eof then end == |file| && end - start <= |file| % BLOCK_SIZE
             else end % BLOCK_SIZE == 0 && HEADER_SIZE <= end - start <= BLOCK_SIZE
    requires p == start || (start < p + HEADER_SIZE && start % BLOCK_SIZE == 0)
    ensures ReadStart(file, p) == start && ReadEnd(file, start) == end && BlockComplete(file, start) == !eof
  {
    if eof {
      assert start / BLOCK_SIZE == |file| / BLOCK_SIZE;
    } else {
      assert start == end - BLOCK_SIZE || start / BLOCK_SIZE == end / BLOCK_SIZE - 1;
    }
  }

  lemma BufferIsParsed(sum: Checksum, file: Slice, p: nat, buffer: Slice, end: nat, eof: bool)
    requires |buffer| <= end <= |file| && p <= end - |buffer|
    requires buffer == file[end - |buffer|..end]
    requires if eof then end == |file| && |buffer| <= |file| % BLOCK_SIZE
             else end % BLOCK_SIZE == 0 && HEADER_SIZE <= |buffer| <= BLOCK_SIZE
    requires var start := end - |buffer|; p == start || (start < p + HEADER_SIZE && start % BLOCK_SIZE == 0)
    ensures NextPhysical(sum, file, p) == ParseBuffer(sum, buffer, end, eof)
  {
    hide ParseBuffer;
    BufferIsTheBlock(file, p, end - |buffer|, end, eof);
  }

  class Reader {
    const sum: Checksum
    const file: Slice
    var filePos: nat
    var buffer: Slice
    var eof: bool
    var reports: seq<Report>

    /** How far the file has been consumed. */
    function Position(): int reads this { filePos - |buffer| }

    /** The buffer is the unread end of the block read last; only the end of the file
        gives a block that is not full. */
    predicate Valid() reads this {
      && |buffer| <= filePos <= |file| && buffer == file[filePos - |buffer|..filePos]
      && (if eof then filePos == |file| && |buffer| <= |file| % BLOCK_SIZE
          else filePos % BLOCK_SIZE == 0 && |buffer| <= BLOCK_SIZE)
    }

    constructor (sum: Checksum, file: Slice)
      ensures Valid() && this.sum == sum && this.file == file && Position() == 0 && reports == []
    {
      this.sum, this.file := sum, file;
      filePos, buffer, eof, reports := 0, [], false, [];
    }

    lemma PositionInFile()
      requires Valid()
      ensures 0 <= Position() <= |file|
    {
    }

    method ReportCorruption(bytes: nat, reason: Reason)
      requires Valid()
      modifies this`reports
      ensures Valid() && Position() == old(Position()) && reports == old(reports) + [Report(bytes, reason)]
    {
      reports := reports + [Report(bytes, reason)];
    }

    /** Reads the next block. */
    method FillBuffer()
      requires Valid() && !eof
      modifies this
      ensures Valid() && reports == old(reports)
      ensures filePos >= old(filePos) && buffer == file[old(filePos)..filePos]
      ensures eof <==> |buffer| < BLOCK_SIZE
    {
      var n := if |file| - filePos < BLOCK_SIZE then |file| - filePos else BLOCK_SIZE;
      buffer := file[filePos..filePos + n];
      filePos := filePos + n;
      if |buffer| < BLOCK_SIZE {
        eof := true;
      }
    }

    method ReadPhysicalRecord() returns (r: PhysicalResult)
      requires Valid()
      modifies this
      ensures Valid() && r == NextPhysical(sum, file, old(Position())) && Position() == r.next
      ensures reports == old(reports) + (if r.Bad? then r.reports else [])
    {
      hide NextPhysical;
      ghost var p := Position();
      if |buffer| < HEADER_SIZE && !eof {
        FillBuffer();
      }
      BufferIsParsed(sum, file, p, buffer, filePos, eof);
      if |buffer| < HEADER_SIZE {
        buffer := [];
        return Eof(filePos);
      }
      r := ParseFragment();
    }

    /** Takes the fragment at the start of the buffer. */
    method ParseFragment() returns (r: PhysicalResult)
      requires Valid() && |buffer| >= HEADER_SIZE
      modifies this
      ensures Valid() && r == ParseBuffer(sum, old(buffer), old(filePos), old(eof)) && Position() == r.next
      ensures reports == old(reports) + (if r.Bad? then r.reports else [])
    {
      var a: nat, b: nat, t := buffer[4], buffer[5], buffer[6];
      var length := a + b * 256;
      var rest: nat := |buffer|;
      if HEADER_SIZE + length > rest {
        buffer := [];
        if !eof {
          ReportCorruption(rest, BadLength);
          return Bad(filePos, [Report(rest, BadLength)]);
        }
        return Eof(filePos);
      }
      if t == ZERO_TYPE && length == 0 {
        buffer := [];
        return Bad(filePos, []);
      }
      r := CheckFragment(length, t);
    }

    /** The checksum of a fragment, and its data. */
    method CheckFragment(length: nat, t: Byte) returns (r: PhysicalResult)
      requires Valid() && HEADER_SIZE + length <= |buffer| && t == buffer[6] && !(t == ZERO_TYPE && length == 0)
      requires var low: nat, high: nat := buffer[4], buffer[5]; length == low + high * 256
      modifies this
      ensures Valid() && r == ParseBuffer(sum, old(buffer), old(filePos), old(eof)) && Position() == r.next
      ensures reports == old(reports) + (if r.Bad? then r.reports else [])
    {
      hide ParseBuffer;
      var rest: nat := |buffer|;
      WholeFragment(sum, buffer, filePos, eof, length);
      if sum(buffer[6..7 + length]) != buffer[..4] {
        buffer := [];
        ReportCorruption(rest, BadChecksum);
        return Bad(filePos, [Report(rest, BadChecksum)]);
      }
      var fragment := buffer[7..7 + length];
      SkipFront(file, filePos - |buffer|, filePos, 7 + length);
      buffer := buffer[7 + length..];
      var next := filePos - |buffer|;
      r := if t == EOF_TYPE then Eof(next) else if t == BAD_TYPE then Bad(next, []) else Record(t, fragment, next);
    }

    /** Reads one record, joining fragments; None is the end of the log. */
    method ReadRecord() returns (record: Option<Slice>)
      requires Valid()
      modifies this
      ensures Valid()
      ensures var l := NextLogical(sum, file, old(Position()), [], false);
        record == l.record && Position() == l.next && reports == old(reports) + l.reports
      ensures 0 <= old(Position()) && 0 <= Position()
      ensures record.Some? ==> LogFragments.StandsFrom(sum, file, old(Position()), record.value, Position())
    {
      hide LogFragments.StandsFrom, NextPhysical, NextLogical, WithReports, ParseBuffer, Valid, Position;
      PositionInFile();
      var scratch: Slice := [];
      var inFragmented := false;
      ghost var goal := NextLogical(sum, file, Position(), [], false);
      ghost var seen: seq<Report> := [];
      NothingToReport(goal);
      LogFragments.RecordStands(sum, file, Position());
      while true
        invariant Valid() && 0 <= Position() <= |file| && reports == old(reports) + seen
        invariant goal == WithReports(seen, NextLogical(sum, file, Position(), scratch, inFragmented))
        decreases |file| - Position()
      {
        LogicalTurn(sum, file, Position(), scratch, inFragmented, seen);
        var r := ReadPhysicalRecord();
        PositionInFile();
        ghost var turn := TakeFragment(r, scratch, inFragmented);
        assert old(reports) + (seen + turn.reports) == old(reports) + seen + turn.reports;
        match r {
        case Eof(_) =>
          return None;
        case Bad(_, _) =>
          if inFragmented {
            ReportCorruption(|scratch|, ErrorInMiddle);
            inFragmented, scratch := false, [];
          }
        case Record(t, fragment, _) =>
          if t == FULL_TYPE {
            if inFragmented && scratch != [] {
              ReportCorruption(|scratch|, PartialRecord);
            }
            return Some(fragment);
          } else if t == FIRST_TYPE {
            if inFragmented && scratch != [] {
              ReportCorruption(|scratch|, PartialRecord);
            }
            scratch, inFragmented := fragment, true;
          } else if t == MIDDLE_TYPE {
            if !inFragmented {
              ReportCorruption(|fragment|, MissingStart);
            } else {
              scratch := scratch + fragment;
            }
          } else if t == LAST_TYPE {
            if !inFragmented {
              ReportCorruption(|fragment|, MissingStart);
            } else {
              return Some(scratch + fragment);
            }
          } else {
            ReportCorruption(|fragment| + if inFragmented then |scratch| else 0, UnknownType);
            inFragmented, scratch := false, [];
          }
        }
        assert reports == old(reports) + seen + turn.reports;
        seen := seen + turn.reports;
      }
    }
  }

  /** A fragment that is in the buffer whole. */
  lemma WholeFragment(sum: Checksum, buffer: Slice, end: nat, eof: bool, length: nat)
    requires HEADER_SIZE + length <= |buffer| <= end && !(buffer[6] == ZERO_TYPE && length == 0)
    requires var low: nat, high: nat := buffer[4], buffer[5]; length == low + high * 256
    ensures ParseBuffer(sum, buffer, end, eof) ==
      var next := end - |buffer| + 7 + length;
      if sum(buffer[6..7 + length]) != buffer[..4] then Bad(end, [Report(|buffer|, BadChecksum)])
      else if buffer[6] == EOF_TYPE then Eof(next)
      else if buffer[6] == BAD_TYPE then Bad(next, [])
      else Record(buffer[6], buffer[7..7 + length], next)
  {
  }

  lemma SkipFront(file: Slice, from: nat, to: nat, n: nat)
    requires from + n <= to <= |file|
    ensures file[from..to][n..] == file[from + n..to]
  {
  }

  lemma NothingToReport(r: LogicalResult)
    ensures WithReports([], r) == r
  {
  }

  lemma LogicalTurn(sum: Checksum, file: Slice, p: nat, scratch: Slice, inFragmented: bool, seen: seq<Report>)
    requires p <= |file|
    ensures var r := NextPhysical(sum, file, p);
      WithReports(seen, NextLogical(sum, file, p, scratch, inFragmented)) ==
        match TakeFragment(r, scratch, inFragmented)
        case Done(record, reports) => LogicalResult(record, r.next, seen + reports)
        case More(scratch', inFragmented', reports) =>
          WithReports(seen + reports, NextLogical(sum, file, r.next, scratch', inFragmented'))
  {
    hide NextPhysical, TakeFragment;
    var r := NextPhysical(sum, file, p);
    var turn := TakeFragment(r, scratch, inFragmented);
    if turn.More? {
      var rest := NextLogical(sum, file, r.next, turn.scratch, turn.inFragmented).reports;
      assert seen + (turn.reports + rest) == seen + turn.reports + rest;
    }
  }

  /** Writing records and then reading any prefix of the file back, as the program does it:
      the records that are wholly in the prefix come back, and nothing is reported. */
  method WriteThenRead(sum: Checksum, records: seq<Slice>, cut: nat) returns (back: seq<Slice>, reports: seq<Report>)
    ensures var file := LayoutAll(sum, 0, records);
      cut <= |file| ==> back == records[..Survivors(sum, 0, records, cut)] && reports == []
  {
    hide Layout, NextLogical;
    var w := new Writer(sum, []);
    for i := 0 to |records|
      invariant w.Valid() && w.sum == sum && fresh(w)
      invariant w.dest + LayoutAll(sum, |w.dest|, records[i..]) == LayoutAll(sum, 0, records)
    {
      w.AddRecord(records[i]);
      assert records[i..][1..] == records[i + 1..];
    }
    var reader := new Reader(sum, if cut <= |w.dest| then w.dest[..cut] else w.dest);
    back, reports := ReadLog(reader);
    ghost var file := LayoutAll(sum, 0, records);
    if cut <= |file| {
      assert w.dest == file;
      TruncatedLogReadsBack(sum, file[..cut], 0, records);
    }
  }

  lemma ReadAllStep(sum: Checksum, file: Slice, p: nat)
    requires p <= |file|
    ensures var l := NextLogical(sum, file, p, [], false);
      ReadAll(sum, file, p) ==
        if l.record.None? then ([], l.reports)
        else ([l.record.value] + ReadAll(sum, file, l.next).0, l.reports + ReadAll(sum, file, l.next).1)
  {
  }

  /** The read loop of recovery. */
  method ReadLog(reader: Reader) returns (records: seq<Slice>, reports: seq<Report>)
    requires reader.Valid() && reader.Position() == 0 && reader.reports == []
    modifies reader
    ensures (records, reports) == ReadAll(reader.sum, reader.file, 0)
  {
    hide NextLogical, ReadAll, ReadSoFar, LogFragments.StandsFrom;
    records := [];
    NothingRead(reader.sum, reader.file);
    while true
      invariant reader.Valid() && ReadSoFar(reader.sum, reader.file, reader.Position(), records, reader.reports)
      decreases |reader.file| - reader.Position()
    {
      ReadSoFarStep(reader.sum, reader.file, reader.Position(), records, reader.reports);
      var record := reader.ReadRecord();
      if record.None? {
        return records, reader.reports;
      }
      records := records + [record.value];
    }
  }

  /** What was read before a position, and what is to be read from it on. */
  ghost predicate ReadSoFar(sum: Checksum, file: Slice, p: int, records: seq<Slice>, reports: seq<Report>) {
    0 <= p <= |file| && ReadAll(sum, file, 0) == (records + ReadAll(sum, file, p).0, reports + ReadAll(sum, file, p).1)
  }

  lemma NothingRead(sum: Checksum, file: Slice)
    ensures ReadSoFar(sum, file, 0, [], [])
  {
    hide ReadAll;
    var all := ReadAll(sum, file, 0);
    assert [] + all.0 == all.0 && [] + all.1 == all.1;
  }

  lemma ReadSoFarStep(sum: Checksum, file: Slice, p: nat, records: seq<Slice>, reports: seq<Report>)
    requires ReadSoFar(sum, file, p, records, reports)
    ensures p <= |file|
    ensures var l := NextLogical(sum, file, p, [], false);
      if l.record.None? then ReadAll(sum, file, 0) == (records, reports + l.reports)
      else ReadSoFar(sum, file, l.next, records + [l.record.value], reports + l.reports)
  {
    hide NextLogical, ReadAll;
    ReadAllStep(sum, file, p);
    var l := NextLogical(sum, file, p, [], false);
    if l.record.None? {
      assert records + [] == records;
    } else {
      var rest := ReadAll(sum, file, l.next);
      assert records + ([l.record.value] + rest.0) == records + [l.record.value] + rest.0;
      assert reports + (l.reports + rest.1) == reports + l.reports + rest.1;
    }
  }
}
