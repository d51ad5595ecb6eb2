/** The log file format: records cut into fragments that never cross a 32 KiB block. */
module LogFormat {
  import opened Bytes
  import opened DbFormat

  const BLOCK_SIZE: nat := 32768
  const HEADER_SIZE: nat := 7

  const ZERO_TYPE: Byte := 0
  const FULL_TYPE: Byte := 1
  const FIRST_TYPE: Byte := 2
  const MIDDLE_TYPE: Byte := 3
  const LAST_TYPE: Byte := 4

  // The reader's own codes for the end of the file and a bad fragment; a stored type
  // byte with one of these values is taken for them.
  const EOF_TYPE: Byte := 5
  const BAD_TYPE: Byte := 6

  /** Four stored checksum bytes; the checksum itself is a parameter of the format. */
  type Word = w: Slice | |w| == 4 witness [0, 0, 0, 0]
  type Checksum = Slice -> Word

  /** Header and payload of one fragment. */
  function Physical(sum: Checksum, t: Byte, data: Slice): (r: Slice)
    requires |data| <= 0xffff
    ensures |r| == HEADER_SIZE + |data|
  {
    sum([t] + data) + [|data| % 256, |data| / 256, t] + data
  }

  /** Bytes left in the block that position n falls in. */
  function Leftover(n: nat): (r: nat)
    ensures 1 <= r <= BLOCK_SIZE
  {
    BLOCK_SIZE - n % BLOCK_SIZE
  }

  /** Where the next fragment after position n starts: never in the last six bytes of a block. */
  function FragmentStart(n: nat): (r: nat)
    ensures n <= r < n + HEADER_SIZE && Leftover(r) >= HEADER_SIZE
    ensures r != n ==> r % BLOCK_SIZE == 0
  {
    if Leftover(n) < HEADER_SIZE then n + Leftover(n) else n
  }

  function FragmentType(begin: bool, end: bool): (t: Byte)
    ensures FULL_TYPE <= t <= LAST_TYPE
  {
    if begin && end then FULL_TYPE else if begin then FIRST_TYPE else if end then LAST_TYPE else MIDDLE_TYPE
  }

  /** How much of the data the fragment at position start takes. */
  function FragmentLength(start: nat, data: Slice): (len: nat)
    requires Leftover(start) >= HEADER_SIZE
    ensures len <= |data| && HEADER_SIZE + len <= Leftover(start)
  {
    var avail := Leftover(start) - HEADER_SIZE;
    if |data| < avail then |data| else avail
  }

  /** The bytes that a record (or the rest of one) adds to a file of length n. */
  function Layout(sum: Checksum, n: nat, data: Slice, begin: bool): Slice
    decreases |data|, Leftover(FragmentStart(n)) == HEADER_SIZE
  {
    var start := FragmentStart(n);
    var len := FragmentLength(start, data);
    var end := len == |data|;
    var head := Zeros(start - n) + Physical(sum, FragmentType(begin, end), data[..len]);
    if end then head else head + Layout(sum, n + |head|, data[len..], false)
  }

  /** A whole log written from position n. */
  function LayoutAll(sum: Checksum, n: nat, records: seq<Slice>): Slice
    decreases records
  {
    if records == [] then []
    else
      var head := Layout(sum, n, records[0], true);
      head + LayoutAll(sum, n + |head|, records[1..])
  }

  // ------------------------------------------------------------------- reading

  datatype Reason = BadLength | BadChecksum | PartialRecord | MissingStart | ErrorInMiddle | UnknownType

  datatype Report = Report(bytes: nat, reason: Reason)

  datatype PhysicalResult =
    | Record(t: Byte, fragment: Slice, next: nat)
    | Eof(next: nat)
    | Bad(next: nat, reports: seq<Report>)

  /** A block that is wholly in the file ends where the next one starts. */
  predicate BlockComplete(file: Slice, p: nat) { p - p % BLOCK_SIZE + BLOCK_SIZE <= |file| }

  /** What the reader makes of its buffer, the rest of a block, which ends at end. */
  function ParseBuffer(sum: Checksum, buffer: Slice, end: nat, eof: bool): (r: PhysicalResult)
    requires |buffer| <= end
    ensures end - |buffer| <= r.next <= end
    ensures !r.Eof? ==> end - |buffer| + HEADER_SIZE <= r.next
  {
    if |buffer| < HEADER_SIZE then Eof(end)
    else
      var low: nat, high: nat := buffer[4], buffer[5];
      var length := low + high * 256;
      var t := buffer[6];
      if HEADER_SIZE + length > |buffer| then if eof then Eof(end) else Bad(end, [Report(|buffer|, BadLength)])
      else if t == ZERO_TYPE && length == 0 then Bad(end, [])
      else if sum(buffer[6..7 + length]) != buffer[..4] then Bad(end, [Report(|buffer|, BadChecksum)])
      else
        var next := end - |buffer| + 7 + length;
        if t == EOF_TYPE then Eof(next) else if t == BAD_TYPE then Bad(next, []) else Record(t, buffer[7..7 + length], next)
  }

  /** Where the fragment that is read next starts: a trailer is skipped if its block is complete. */
  function ReadStart(file: Slice, p: nat): (start: nat)
    requires p <= |file|
    ensures p <= start <= |file|
  {
    if Leftover(p) < HEADER_SIZE && BlockComplete(file, p) then p + Leftover(p) else p
  }

  /** Where the block holding position start ends, as far as it is in the file. */
  function ReadEnd(file: Slice, start: nat): (end: nat)
    requires start <= |file|
    ensures start <= end <= |file|
  {
    if BlockComplete(file, start) then start + Leftover(start) else |file|
  }

  /** What reading one fragment from position p gives. */
  function NextPhysical(sum: Checksum, file: Slice, p: nat): (r: PhysicalResult)
    requires p <= |file|
    ensures p <= r.next <= |file|
    ensures !r.Eof? ==> p + HEADER_SIZE <= r.next
  {
    var start := ReadStart(file, p);
    var end := ReadEnd(file, start);
    ParseBuffer(sum, file[start..end], end, !BlockComplete(file, start))
  }

  datatype LogicalResult = LogicalResult(record: Option<Slice>, next: nat, reports: seq<Report>)

  function WithReports(reports: seq<Report>, r: LogicalResult): LogicalResult {
    LogicalResult(r.record, r.next, reports + r.reports)
  }

  datatype Turn =
    | Done(record: Option<Slice>, reports: seq<Report>)
    | More(scratch: Slice, inFragmented: bool, reports: seq<Report>)

  /** What one fragment does to the partial record in scratch. */
  function TakeFragment(r: PhysicalResult, scratch: Slice, inFragmented: bool): Turn {
    var partial := if inFragmented && scratch != [] then [Report(|scratch|, PartialRecord)] else [];
    match r
    case Eof(_) => Done(None, [])
    case Bad(_, reports) =>
      if inFragmented then More([], false, reports + [Report(|scratch|, ErrorInMiddle)])
      else More(scratch, false, reports)
    case Record(t, fragment, _) =>
      if t == FULL_TYPE then Done(Some(fragment), partial)
      else if t == FIRST_TYPE then More(fragment, true, partial)
      else if t == MIDDLE_TYPE || t == LAST_TYPE then
        if !inFragmented then More(scratch, false, [Report(|fragment|, MissingStart)])
        else if t == LAST_TYPE then Done(Some(scratch + fragment), [])
        else More(scratch + fragment, true, [])
      else More([], false, [Report(|fragment| + (if inFragmented then |scratch| else 0), UnknownType)])
  }

  /** What reading one record from position p gives, with a partial record in scratch. */
  function NextLogical(sum: Checksum, file: Slice, p: nat, scratch: Slice, inFragmented: bool): (r: LogicalResult)
    requires p <= |file|
    ensures p <= r.next <= |file| && (r.record.Some? ==> p < r.next)
    decreases |file| - p
  {
    var r := NextPhysical(sum, file, p);
    match TakeFragment(r, scratch, inFragmented)
    case Done(record, reports) => LogicalResult(record, r.next, reports)
    case More(scratch', inFragmented', reports) =>
      WithReports(reports, NextLogical(sum, file, r.next, scratch', inFragmented'))
  }

  /** All records of a file from position p, and all corruption reports. */
  function ReadAll(sum: Checksum, file: Slice, p: nat): (r: (seq<Slice>, seq<Report>))
    requires p <= |file|
    decreases |file| - p
  {
    var l := NextLogical(sum, file, p, [], false);
    if l.record.None? then ([], l.reports)
    else
      var rest := ReadAll(sum, file, l.next);
      ([l.record.value] + rest.0, l.reports + rest.1)
  }

  // ----------------------------------------------------------------- round trip

  /** How many leading records end at or before position m. */
  function Survivors(sum: Checksum, n: nat, records: seq<Slice>, m: nat): (k: nat)
    ensures k <= |records|
    decreases records
  {
    if records == [] then 0
    else
      var end := n + |Layout(sum, n, records[0], true)|;
      if end <= m then 1 + Survivors(sum, end, records[1..], m) else 0
  }

  /** The file agrees with bytes placed at position n as far as it goes. */
  ghost predicate Holds(file: Slice, n: nat, bytes: Slice) {
    forall i :: 0 <= i < |bytes| && n + i < |file| ==> file[n + i] == bytes[i]
  }

  /** A whole fragment at the start of the buffer is recognised. */
  lemma ParseWhole(sum: Checksum, buffer: Slice, end: nat, eof: bool, t: Byte, data: Slice)
    requires FULL_TYPE <= t <= LAST_TYPE && |data| <= 0xffff && |buffer| <= end
    requires Physical(sum, t, data) <= buffer
    ensures ParseBuffer(sum, buffer, end, eof) == Record(t, data, end - |buffer| + HEADER_SIZE + |data|)
  {
    var phys := Physical(sum, t, data);
    assert phys[..4] == sum([t] + data) && phys[7..] == data && phys[6..] == [t] + data;
    assert phys[4] == |data| % 256 && phys[5] == |data| / 256 && phys[6] == t;
    assert buffer[..4] == phys[..4] && buffer[7..7 + |data|] == phys[7..] && buffer[6..7 + |data|] == phys[6..];
  }

  /** A fragment that the end of the file cuts off is not a corruption. */
  lemma ParseCutOff(sum: Checksum, buffer: Slice, end: nat, t: Byte, data: Slice)
    requires |data| <= 0xffff && |buffer| <= end
    requires buffer <= Physical(sum, t, data) && buffer != Physical(sum, t, data)
    ensures ParseBuffer(sum, buffer, end, true) == Eof(end)
  {
    var phys := Physical(sum, t, data);
    if |buffer| >= HEADER_SIZE {
      assert phys[4] == |data| % 256 && phys[5] == |data| / 256;
      assert buffer[4] == phys[4] && buffer[5] == phys[5];
    }
  }

  /** A written fragment is read back if all of it is in the file, and otherwise the file
      just ends. */
  lemma ReadFragment(sum: Checksum, file: Slice, n: nat, t: Byte, data: Slice)
    requires FULL_TYPE <= t <= LAST_TYPE && n <= |file|
    requires HEADER_SIZE + |data| <= Leftover(FragmentStart(n))
    requires Holds(file, n, Zeros(FragmentStart(n) - n) + Physical(sum, t, data))
    ensures var end := FragmentStart(n) + HEADER_SIZE + |data|;
      NextPhysical(sum, file, n) == if end <= |file| then Record(t, data, end) else Eof(|file|)
  {
    hide Physical, ParseBuffer;
    var start := FragmentStart(n);
    var phys := Physical(sum, t, data);
    if start <= |file| {
      HoldsParts(file, n, Zeros(start - n), phys);
      assert ReadStart(file, n) == start;
      var end := ReadEnd(file, start);
      var buffer := file[start..end];
      forall i | 0 <= i < |buffer| && i < |phys| ensures buffer[i] == phys[i] {
        assert file[start + i] == phys[i];
      }
      if start + |phys| <= |file| {
        assert buffer[..|phys|] == phys;
        ParseWhole(sum, buffer, end, !BlockComplete(file, start), t, data);
      } else {
        assert buffer == phys[..|buffer|];
        ParseCutOff(sum, buffer, end, t, data);
      }
    } else {
      assert ReadStart(file, n) == n && ReadEnd(file, n) == |file| && !BlockComplete(file, n);
      TinyBuffer(sum, file[n..|file|], |file|);
    }
  }

  lemma TinyBuffer(sum: Checksum, buffer: Slice, end: nat)
    requires |buffer| <= end && |buffer| < HEADER_SIZE
    ensures ParseBuffer(sum, buffer, end, true) == Eof(end)
  {
  }

  lemma HoldsParts(file: Slice, n: nat, a: Slice, b: Slice)
    requires Holds(file, n, a + b)
    ensures Holds(file, n, a) && Holds(file, n + |a|, b)
  {
    forall i | 0 <= i < |a| && n + i < |file| ensures file[n + i] == a[i] {
      assert (a + b)[i] == a[i];
    }
    forall i | 0 <= i < |b| && n + |a| + i < |file| ensures file[n + |a| + i] == b[i] {
      assert (a + b)[|a| + i] == b[i];
      assert file[n + (|a| + i)] == (a + b)[|a| + i];
    }
  }

  /** A fragment that does not end its record fills its block. */
  lemma CutFillsBlock(start: nat, data: Slice)
    requires Leftover(start) >= HEADER_SIZE && FragmentLength(start, data) < |data|
    ensures var m := start + HEADER_SIZE + FragmentLength(start, data);
      FragmentStart(m) == m && Leftover(m) == BLOCK_SIZE
  {
    assert (start + Leftover(start)) % BLOCK_SIZE == 0;
  }

  /** What is laid out first when the record ends in this fragment. */
  lemma LayoutOfLast(sum: Checksum, n: nat, data: Slice, begin: bool)
    requires FragmentLength(FragmentStart(n), data) == |data|
    ensures Layout(sum, n, data, begin)
         == Zeros(FragmentStart(n) - n) + Physical(sum, FragmentType(begin, true), data)
  {
    assert data[..|data|] == data;
  }

  /** What is laid out when the record goes on in the next block. */
  lemma LayoutOfCut(sum: Checksum, n: nat, data: Slice, begin: bool)
    requires FragmentLength(FragmentStart(n), data) < |data|
    ensures var start := FragmentStart(n); var len := FragmentLength(start, data);
      Layout(sum, n, data, begin)
      == Zeros(start - n) + Physical(sum, FragmentType(begin, false), data[..len])
       + Layout(sum, start + HEADER_SIZE + len, data[len..], false)
  {
    hide Physical, Zeros, FragmentStart, FragmentType;
  }

  /** Reading a last fragment completes the record. */
  lemma ReadLast(sum: Checksum, file: Slice, n: nat, data: Slice, begin: bool, scratch: Slice)
    requires n <= |file| && FragmentLength(FragmentStart(n), data) == |data|
    requires Holds(file, n, Layout(sum, n, data, begin))
    requires begin ==> scratch == []
    ensures var end := n + |Layout(sum, n, data, begin)|;
      NextLogical(sum, file, n, scratch, !begin) ==
        if end <= |file| then LogicalResult(Some(scratch + data), end, []) else LogicalResult(None, |file|, [])
  {
    hide Physical, NextPhysical, Holds, Zeros, FragmentStart, Leftover, Layout;
    LayoutOfLast(sum, n, data, begin);
    ReadFragment(sum, file, n, FragmentType(begin, true), data);
    assert [] + data == data;
  }

  /** Reading a fragment that is not the last one adds it to the partial record. */
  lemma ReadCut(sum: Checksum, file: Slice, n: nat, part: Slice, begin: bool, scratch: Slice)
    requires n <= |file| && HEADER_SIZE + |part| <= Leftover(FragmentStart(n))
    requires Holds(file, n, Zeros(FragmentStart(n) - n) + Physical(sum, FragmentType(begin, false), part))
    requires begin ==> scratch == []
    ensures var next := FragmentStart(n) + HEADER_SIZE + |part|;
      NextLogical(sum, file, n, scratch, !begin) ==
        if next <= |file| then NextLogical(sum, file, next, scratch + part, true)
        else LogicalResult(None, |file|, [])
  {
    hide Physical, NextPhysical, Holds, Zeros, FragmentStart, Leftover, Layout;
    ReadFragment(sum, file, n, FragmentType(begin, false), part);
    assert [] + part == part;
    var next := FragmentStart(n) + HEADER_SIZE + |part|;
    if next <= |file| {
      var rest := NextLogical(sum, file, next, scratch + part, true);
      assert WithReports([], rest) == rest;
    }
  }

  /** A written record is reassembled if all its bytes are in the file, and otherwise
      reading ends without a report. */
  lemma {:induction false} ReadLayout(sum: Checksum, file: Slice, n: nat, data: Slice, begin: bool, scratch: Slice)
    requires n <= |file| && Holds(file, n, Layout(sum, n, data, begin))
    requires begin ==> scratch == []
    ensures var end := n + |Layout(sum, n, data, begin)|;
      NextLogical(sum, file, n, scratch, !begin) ==
        if end <= |file| then LogicalResult(Some(scratch + data), end, []) else LogicalResult(None, |file|, [])
    decreases |data|, Leftover(FragmentStart(n)) == HEADER_SIZE
  {
    hide Physical, NextPhysical, NextLogical, Holds, Zeros, FragmentStart, Layout;
    var start := FragmentStart(n);
    var len := FragmentLength(start, data);
    if len == |data| {
      ReadLast(sum, file, n, data, begin, scratch);
    } else {
      LayoutOfCut(sum, n, data, begin);
      CutFillsBlock(start, data);
      var head := Zeros(start - n) + Physical(sum, FragmentType(begin, false), data[..len]);
      var next := start + HEADER_SIZE + len;
      HoldsParts(file, n, head, Layout(sum, next, data[len..], false));
      ReadCut(sum, file, n, data[..len], begin, scratch);
      if next <= |file| {
        ReadLayout(sum, file, next, data[len..], false, scratch + data[..len]);
        assert scratch + data[..len] + data[len..] == scratch + data;
      }
    }
  }

  lemma NothingAtTheEnd(sum: Checksum, file: Slice)
    ensures ReadAll(sum, file, |file|) == ([], [])
  {
    assert NextPhysical(sum, file, |file|) == Eof(|file|);
  }

  /** The log round trip under truncation: from any byte prefix of a log, exactly the records
      whose bytes all survived are read, in order, and no corruption is reported. */
  lemma {:induction false} TruncatedLogReadsBack(sum: Checksum, file: Slice, n: nat, records: seq<Slice>)
    requires n <= |file| <= n + |LayoutAll(sum, n, records)|
    requires Holds(file, n, LayoutAll(sum, n, records))
    ensures ReadAll(sum, file, n) == (records[..Survivors(sum, n, records, |file|)], [])
    decreases records
  {
    hide Layout, Physical, NextPhysical, Holds, Zeros, NextLogical;
    if records == [] {
      NothingAtTheEnd(sum, file);
    } else {
      var head := Layout(sum, n, records[0], true);
      HoldsParts(file, n, head, LayoutAll(sum, n + |head|, records[1..]));
      ReadLayout(sum, file, n, records[0], true, []);
      assert [] + records[0] == records[0];
      if n + |head| <= |file| {
        TruncatedLogReadsBack(sum, file, n + |head|, records[1..]);
        var k := Survivors(sum, n + |head|, records[1..], |file|);
        assert records[..k + 1] == [records[0]] + records[1..][..k];
        assert NextLogical(sum, file, n, [], false).reports + [] == [];
      }
    }
  }

  /** In particular a whole log gives back every record. */
  lemma {:induction false} AllSurvive(sum: Checksum, n: nat, records: seq<Slice>)
    ensures Survivors(sum, n, records, n + |LayoutAll(sum, n, records)|) == |records|
    decreases records
  {
    hide Layout;
    if records != [] {
      AllSurvive(sum, n + |Layout(sum, n, records[0], true)|, records[1..]);
    }
  }

  /** Records whose bytes are known to be there survive. */
  lemma {:induction false} SurvivorsAtLeast(sum: Checksum, n: nat, records: seq<Slice>, k: nat, m: nat)
    requires k <= |records| && n + |LayoutAll(sum, n, records[..k])| <= m
    ensures Survivors(sum, n, records, m) >= k
    decreases k
  {
    hide Layout;
    if k > 0 {
      var end := n + |Layout(sum, n, records[0], true)|;
      assert records[..k][1..] == records[1..][..k - 1];
      SurvivorsAtLeast(sum, end, records[1..], k - 1, m);
    }
  }

  /** A record more adds its layout at the end. */
  lemma {:induction false} LayoutAllMore(sum: Checksum, n: nat, records: seq<Slice>, r: Slice)
    ensures LayoutAll(sum, n, records + [r]) == LayoutAll(sum, n, records) + Layout(sum, n + |LayoutAll(sum, n, records)|, r, true)
    decreases records
  {
    hide Layout;
    var all := records + [r];
    if records == [] {
      assert all[1..] == [] && LayoutAll(sum, n, all) == Layout(sum, n, r, true) + [];
    } else {
      var head := Layout(sum, n, records[0], true);
      assert all[1..] == records[1..] + [r];
      LayoutAllMore(sum, n + |head|, records[1..], r);
      var tail := LayoutAll(sum, n + |head|, records[1..]);
      assert n + |head| + |tail| == n + |head + tail|;
      assert LayoutAll(sum, n, all) == head + (tail + Layout(sum, n + |head| + |tail|, r, true));
    }
  }
}
