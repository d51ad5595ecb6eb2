/** What reading a log gives on any bytes: records that stand in the file whole, piece by piece. Stated on positions of the
    file, apart from how the reader goes about it. */
module LogFragments {
  import opened Bytes
  import opened DbFormat
  import opened LogFormat

  /** Behind position p stands a fragment with a good checksum, in one block. */
  ghost predicate FragmentAt(sum: Checksum, file: Slice, p: nat, t: Byte, data: Slice) {
    var start := FragmentStart(p);
    && HEADER_SIZE + |data| <= Leftover(start) && start + HEADER_SIZE + |data| <= |file|
    && file[start..start + HEADER_SIZE + |data|] == Physical(sum, t, data)
  }

  /** Where these pieces end, each behind the one before, from position p on. */
  function EndOf(p: nat, pieces: seq<Slice>): (r: nat)
    ensures p <= r
  {
    if pieces == [] then p else FragmentStart(EndOf(p, pieces[..|pieces| - 1])) + HEADER_SIZE + |pieces[|pieces| - 1]|
  }

  function Joined(pieces: seq<Slice>): Slice {
    if pieces == [] then [] else Joined(pieces[..|pieces| - 1]) + pieces[|pieces| - 1]
  }

  /** The pieces are fragments of one record from its first one on; up to its last one, unless it is open. */
  ghost predicate PiecesAt(sum: Checksum, file: Slice, p: nat, pieces: seq<Slice>, open: bool) {
    forall i :: 0 <= i < |pieces| ==>
      FragmentAt(sum, file, EndOf(p, pieces[..i]), FragmentType(i == 0, !open && i == |pieces| - 1), pieces[i])
  }

  /** The record stands in the file between two positions: one full fragment, or a first one, some middle ones and a last. */
  ghost predicate StandsAt(sum: Checksum, file: Slice, p: nat, pieces: seq<Slice>, record: Slice, end: nat) {
    pieces != [] && PiecesAt(sum, file, p, pieces, false) && Joined(pieces) == record && EndOf(p, pieces) == end
  }

  ghost predicate StandsFrom(sum: Checksum, file: Slice, p: nat, record: Slice, end: nat) {
    exists s, pieces :: p <= s && StandsAt(sum, file, s, pieces, record, end)
  }

  // ---------------------------------------------------------------------- one fragment

  /** A fragment that the reader takes stands there. */
  lemma TakenIsThere(sum: Checksum, file: Slice, p: nat)
    requires p <= |file| && NextPhysical(sum, file, p).Record?
    ensures var r := NextPhysical(sum, file, p);
      FragmentAt(sum, file, p, r.t, r.fragment) && r.next == FragmentStart(p) + HEADER_SIZE + |r.fragment|
  {
    var start := ReadStart(file, p);
    var end := ReadEnd(file, start);
    var buffer, r := file[start..end], NextPhysical(sum, file, p);
    assert start == FragmentStart(p) && |buffer| <= Leftover(start);
    ParsedIsPhysical(sum, buffer, end, !BlockComplete(file, start));
    assert buffer[..HEADER_SIZE + |r.fragment|] == file[start..start + HEADER_SIZE + |r.fragment|];
  }

  lemma ParsedIsPhysical(sum: Checksum, buffer: Slice, end: nat, eof: bool)
    requires |buffer| <= end && ParseBuffer(sum, buffer, end, eof).Record?
    ensures var r := ParseBuffer(sum, buffer, end, eof); var n := HEADER_SIZE + |r.fragment|;
      n <= |buffer| && |r.fragment| <= 0xffff && buffer[..n] == Physical(sum, r.t, r.fragment) && r.next == end - |buffer| + n
  {
    var low: nat, high: nat := buffer[4], buffer[5];
    var length := low + high * 256;
    var t, data := buffer[6], buffer[7..7 + length];
    assert buffer[6..7 + length] == [t] + data;
    assert buffer[..7 + length] == buffer[..4] + [buffer[4], buffer[5], t] + data;
  }

  /** A fragment that stands there is taken, whatever is in the trailer before it. */
  lemma ThereIsTaken(sum: Checksum, file: Slice, p: nat, t: Byte, data: Slice)
    requires p <= |file| && FULL_TYPE <= t <= LAST_TYPE && FragmentAt(sum, file, p, t, data)
    ensures NextPhysical(sum, file, p) == Record(t, data, FragmentStart(p) + HEADER_SIZE + |data|)
  {
    hide Physical, ParseBuffer;
    var start := FragmentStart(p);
    assert ReadStart(file, p) == start;
    var end, n := ReadEnd(file, start), HEADER_SIZE + |data|;
    var buffer := file[start..end];
    assert buffer[..n] == file[start..start + n];
    ParseWhole(sum, buffer, end, !BlockComplete(file, start), t, data);
  }

  // ----------------------------------------------------------------------- piece by piece

  lemma OneMorePiece(sum: Checksum, file: Slice, p: nat, pieces: seq<Slice>, data: Slice, open: bool)
    requires PiecesAt(sum, file, p, pieces, true)
    requires FragmentAt(sum, file, EndOf(p, pieces), FragmentType(pieces == [], !open), data)
    ensures PiecesAt(sum, file, p, pieces + [data], open)
    ensures Joined(pieces + [data]) == Joined(pieces) + data
    ensures EndOf(p, pieces + [data]) == FragmentStart(EndOf(p, pieces)) + HEADER_SIZE + |data|
  {
    hide FragmentAt;
    var more := pieces + [data];
    assert more[..|pieces|] == pieces;
    forall i | 0 <= i < |more| ensures FragmentAt(sum, file, EndOf(p, more[..i]), FragmentType(i == 0, !open && i == |more| - 1), more[i]) {
      if i < |pieces| {
        assert more[..i] == pieces[..i];
      }
    }
  }

  /** What the reader has put together: nothing, or the open pieces of a record that end here. */
  ghost predicate Partial(sum: Checksum, file: Slice, from: nat, p: nat, scratch: Slice, inFragmented: bool) {
    inFragmented ==> exists s, pieces :: from <= s && pieces != [] && PiecesAt(sum, file, s, pieces, true)
                       && Joined(pieces) == scratch && EndOf(s, pieces) == p
  }

  lemma FirstPiece(sum: Checksum, file: Slice, p: nat, data: Slice, open: bool)
    requires FragmentAt(sum, file, p, FragmentType(true, !open), data)
    ensures PiecesAt(sum, file, p, [data], open) && Joined([data]) == data
    ensures EndOf(p, [data]) == FragmentStart(p) + HEADER_SIZE + |data|
  {
    hide FragmentAt;
    NoPieces(sum, file, p);
    OneMorePiece(sum, file, p, [], data, open);
    assert [] + [data] == [data] && [] + data == data;
  }

  lemma NoPieces(sum: Checksum, file: Slice, p: nat)
    ensures PiecesAt(sum, file, p, [], true) && Joined([]) == [] && EndOf(p, []) == p
  {
  }

  lemma IsPartial(sum: Checksum, file: Slice, from: nat, s: nat, pieces: seq<Slice>)
    requires from <= s && pieces != [] && PiecesAt(sum, file, s, pieces, true)
    ensures Partial(sum, file, from, EndOf(s, pieces), Joined(pieces), true)
  {
    hide PiecesAt, EndOf, Joined;
  }

  lemma StartsPartial(sum: Checksum, file: Slice, from: nat, p: nat, data: Slice)
    requires from <= p && FragmentAt(sum, file, p, FIRST_TYPE, data)
    ensures Partial(sum, file, from, FragmentStart(p) + HEADER_SIZE + |data|, data, true)
  {
    hide FragmentAt, PiecesAt, Partial, EndOf, Joined;
    FirstPiece(sum, file, p, data, true);
    IsPartial(sum, file, from, p, [data]);
  }

  lemma GoesOnPartial(sum: Checksum, file: Slice, from: nat, p: nat, scratch: Slice, data: Slice)
    requires Partial(sum, file, from, p, scratch, true) && FragmentAt(sum, file, p, MIDDLE_TYPE, data)
    ensures Partial(sum, file, from, FragmentStart(p) + HEADER_SIZE + |data|, scratch + data, true)
  {
    hide FragmentAt, PiecesAt, Joined, EndOf;
    var s, pieces :| from <= s && pieces != [] && PiecesAt(sum, file, s, pieces, true) && Joined(pieces) == scratch && EndOf(s, pieces) == p;
    hide Partial;
    OneMorePiece(sum, file, s, pieces, data, true);
    IsPartial(sum, file, from, s, pieces + [data]);
  }

  lemma EndsPartial(sum: Checksum, file: Slice, from: nat, p: nat, scratch: Slice, data: Slice)
    requires Partial(sum, file, from, p, scratch, true) && FragmentAt(sum, file, p, LAST_TYPE, data)
    ensures StandsFrom(sum, file, from, scratch + data, FragmentStart(p) + HEADER_SIZE + |data|)
  {
    hide FragmentAt, PiecesAt, Joined, EndOf;
    var s, pieces :| from <= s && pieces != [] && PiecesAt(sum, file, s, pieces, true) && Joined(pieces) == scratch && EndOf(s, pieces) == p;
    OneMorePiece(sum, file, s, pieces, data, false);
    assert StandsAt(sum, file, s, pieces + [data], scratch + data, FragmentStart(p) + HEADER_SIZE + |data|);
  }

  lemma StandsAlone(sum: Checksum, file: Slice, from: nat, p: nat, data: Slice)
    requires from <= p && FragmentAt(sum, file, p, FULL_TYPE, data)
    ensures StandsFrom(sum, file, from, data, FragmentStart(p) + HEADER_SIZE + |data|)
  {
    hide FragmentAt, PiecesAt, EndOf, Joined;
    FirstPiece(sum, file, p, data, false);
    assert StandsAt(sum, file, p, [data], data, FragmentStart(p) + HEADER_SIZE + |data|);
  }

  // ---------------------------------------------------------------------- whole records

  lemma {:induction false} ReadIsThere(sum: Checksum, file: Slice, from: nat, p: nat, scratch: Slice, inFragmented: bool)
    requires from <= p <= |file| && Partial(sum, file, from, p, scratch, inFragmented)
    ensures var l := NextLogical(sum, file, p, scratch, inFragmented);
      l.record.Some? ==> StandsFrom(sum, file, from, l.record.value, l.next)
    decreases |file| - p
  {
    hide NextPhysical, FragmentAt, Partial, StandsFrom;
    var r := NextPhysical(sum, file, p);
    var turn := TakeFragment(r, scratch, inFragmented);
    NoPartial(sum, file, from);
    if r.Record? {
      TakenIsThere(sum, file, p);
      TurnIsThere(sum, file, from, p, scratch, inFragmented, r.t, r.fragment, r.next);
    }
    if turn.More? {
      ReadIsThere(sum, file, from, r.next, turn.scratch, turn.inFragmented);
    }
  }

  lemma NoPartial(sum: Checksum, file: Slice, from: nat)
    ensures forall p, scratch :: Partial(sum, file, from, p, scratch, false)
  {
  }

  lemma TurnIsThere(sum: Checksum, file: Slice, from: nat, p: nat, scratch: Slice, inFragmented: bool, t: Byte, data: Slice, next: nat)
    requires from <= p && Partial(sum, file, from, p, scratch, inFragmented) && FragmentAt(sum, file, p, t, data)
    requires next == FragmentStart(p) + HEADER_SIZE + |data|
    ensures match TakeFragment(Record(t, data, next), scratch, inFragmented)
      case Done(record, _) => record.Some? && StandsFrom(sum, file, from, record.value, next)
      case More(scratch', inFragmented', _) => Partial(sum, file, from, next, scratch', inFragmented')
  {
    hide FragmentAt, Partial, StandsFrom;
    NoPartial(sum, file, from);
    if t == FULL_TYPE {
      StandsAlone(sum, file, from, p, data);
    } else if t == FIRST_TYPE {
      StartsPartial(sum, file, from, p, data);
    } else if t == MIDDLE_TYPE && inFragmented {
      GoesOnPartial(sum, file, from, p, scratch, data);
    } else if t == LAST_TYPE && inFragmented {
      EndsPartial(sum, file, from, p, scratch, data);
    }
  }

  /** Whatever the bytes are, a record that is read stands in the file between where reading began and where it stopped. */
  lemma RecordStands(sum: Checksum, file: Slice, p: nat)
    requires p <= |file|
    ensures var l := NextLogical(sum, file, p, [], false); l.record.Some? ==> StandsFrom(sum, file, p, l.record.value, l.next)
  {
    hide NextLogical, StandsFrom;
    NoPartial(sum, file, p);
    ReadIsThere(sum, file, p, p, [], false);
  }

  /** What one piece of a record does. */
  lemma PieceIsRead(sum: Checksum, file: Slice, p: nat, scratch: Slice, inFragmented: bool, data: Slice, end: bool)
    requires p <= |file| && FragmentAt(sum, file, p, FragmentType(!inFragmented, end), data) && (!inFragmented ==> scratch == [])
    ensures var next := FragmentStart(p) + HEADER_SIZE + |data|;
      && next <= |file|
      && NextLogical(sum, file, p, scratch, inFragmented)
           == if end then LogicalResult(Some(scratch + data), next, []) else NextLogical(sum, file, next, scratch + data, true)
  {
    hide *;
    var next := FragmentStart(p) + HEADER_SIZE + |data|;
    ThereIsTaken(sum, file, p, FragmentType(!inFragmented, end), data);
    LogicalStep(sum, file, p, scratch, inFragmented);
    TakePiece(scratch, inFragmented, data, end, next);
    PieceFits(sum, file, p, FragmentType(!inFragmented, end), data);
    if !end {
      NothingAdded(NextLogical(sum, file, next, scratch + data, true));
    }
  }

  lemma LogicalStep(sum: Checksum, file: Slice, p: nat, scratch: Slice, inFragmented: bool)
    requires p <= |file|
    ensures var r := NextPhysical(sum, file, p);
      NextLogical(sum, file, p, scratch, inFragmented) ==
        match TakeFragment(r, scratch, inFragmented)
        case Done(record, reports) => LogicalResult(record, r.next, reports)
        case More(scratch', inFragmented', reports) =>
          WithReports(reports, NextLogical(sum, file, r.next, scratch', inFragmented'))
  {
    hide NextPhysical, TakeFragment;
  }

  lemma TakePiece(scratch: Slice, inFragmented: bool, data: Slice, end: bool, next: nat)
    requires !inFragmented ==> scratch == []
    ensures TakeFragment(Record(FragmentType(!inFragmented, end), data, next), scratch, inFragmented)
      == if end then Done(Some(scratch + data), []) else More(scratch + data, true, [])
  {
    assert [] + data == data;
  }

  lemma NothingAdded(l: LogicalResult)
    ensures WithReports([], l) == l
  {
  }

  lemma PiecesGrow(p: nat, pieces: seq<Slice>, i: nat)
    requires i < |pieces|
    ensures EndOf(p, pieces[..i + 1]) == FragmentStart(EndOf(p, pieces[..i])) + HEADER_SIZE + |pieces[i]|
    ensures Joined(pieces[..i + 1]) == Joined(pieces[..i]) + pieces[i]
    ensures pieces[..|pieces|] == pieces && pieces[..0] == [] && Joined([]) == []
  {
    assert pieces[..i + 1][..i] == pieces[..i];
  }

  /** A record that stands where reading begins is read, and nothing is reported. */
  lemma {:induction false} StandingIsRead(sum: Checksum, file: Slice, p: nat, pieces: seq<Slice>, i: nat)
    requires i < |pieces| && PiecesAt(sum, file, p, pieces, false)
    ensures EndOf(p, pieces[..i]) <= |file|
    ensures NextLogical(sum, file, EndOf(p, pieces[..i]), Joined(pieces[..i]), i > 0)
      == LogicalResult(Some(Joined(pieces)), EndOf(p, pieces), [])
    decreases |pieces| - i
  {
    hide *;
    var at, end := EndOf(p, pieces[..i]), i == |pieces| - 1;
    PieceAt(sum, file, p, pieces, i);
    PieceFits(sum, file, at, FragmentType(i == 0, end), pieces[i]);
    PiecesGrow(p, pieces, i);
    PieceIsRead(sum, file, at, Joined(pieces[..i]), i > 0, pieces[i], end);
    if !end {
      StandingIsRead(sum, file, p, pieces, i + 1);
    }
  }

  lemma PieceFits(sum: Checksum, file: Slice, p: nat, t: Byte, data: Slice)
    requires FragmentAt(sum, file, p, t, data)
    ensures p <= |file| && FragmentStart(p) + HEADER_SIZE + |data| <= |file|
  {
  }

  lemma PieceAt(sum: Checksum, file: Slice, p: nat, pieces: seq<Slice>, i: nat)
    requires PiecesAt(sum, file, p, pieces, false) && i < |pieces|
    ensures FragmentAt(sum, file, EndOf(p, pieces[..i]), FragmentType(i == 0, i == |pieces| - 1), pieces[i])
  {
  }

  /** All records that are read from any file stand in it one behind the other. */
  lemma {:induction false} AllStand(sum: Checksum, file: Slice, p: nat) returns (starts: seq<nat>, ends: seq<nat>)
    requires p <= |file|
    ensures var records := ReadAll(sum, file, p).0;
      && |starts| == |ends| == |records|
      && (forall i :: 0 <= i < |records| ==> p <= starts[i] && StandsFrom(sum, file, starts[i], records[i], ends[i]))
      && (forall i :: 0 <= i < |records| - 1 ==> ends[i] == starts[i + 1]) && (records != [] ==> starts[0] == p)
    decreases |file| - p
  {
    hide NextLogical, StandsFrom;
    var l := NextLogical(sum, file, p, [], false);
    starts, ends := [], [];
    if l.record.Some? {
      RecordStands(sum, file, p);
      starts, ends := AllStand(sum, file, l.next);
      starts, ends := [p] + starts, [l.next] + ends;
    }
  }

  // ---------------------------------------------------------------- what is written

  /** All pieces but the last one end where a block ends. */
  ghost predicate FillBlocks(p: nat, pieces: seq<Slice>, upTo: nat) {
    forall i :: 0 < i < upTo && i <= |pieces| ==> EndOf(p, pieces[..i]) % BLOCK_SIZE == 0
  }

  lemma FillsOneMore(p: nat, pieces: seq<Slice>, data: Slice)
    requires FillBlocks(p, pieces, |pieces| + 1)
    ensures FillBlocks(p, pieces + [data], |pieces| + 1)
    ensures EndOf(p, pieces + [data]) % BLOCK_SIZE == 0 ==> FillBlocks(p, pieces + [data], |pieces| + 2)
  {
    hide EndOf;
    var more := pieces + [data];
    assert more[..|more|] == more;
    forall i | 0 < i < |pieces| + 1 ensures EndOf(p, more[..i]) % BLOCK_SIZE == 0 {
      assert more[..i] == pieces[..i];
    }
  }

  lemma LaidFragment(sum: Checksum, file: Slice, n: nat, t: Byte, data: Slice)
    requires HEADER_SIZE + |data| <= Leftover(FragmentStart(n)) && FragmentStart(n) + HEADER_SIZE + |data| <= |file|
    requires Holds(file, n, Zeros(FragmentStart(n) - n) + Physical(sum, t, data))
    ensures FragmentAt(sum, file, n, t, data)
  {
    hide Physical, Zeros;
    var start := FragmentStart(n);
    HoldsParts(file, n, Zeros(start - n), Physical(sum, t, data));
    HeldThere(file, start, Physical(sum, t, data));
  }

  lemma HeldThere(file: Slice, start: nat, bytes: Slice)
    requires start + |bytes| <= |file| && Holds(file, start, bytes)
    ensures file[start..start + |bytes|] == bytes
  {
  }

  /** The last piece that the writer lays out. */
  lemma LastLaid(sum: Checksum, file: Slice, p: nat, done: seq<Slice>, data: Slice)
    requires PiecesAt(sum, file, p, done, true) && FillBlocks(p, done, |done| + 1)
    requires FragmentLength(FragmentStart(EndOf(p, done)), data) == |data|
    requires var n := EndOf(p, done); var laid := Layout(sum, n, data, done == []); n + |laid| <= |file| && Holds(file, n, laid)
    ensures StandsAt(sum, file, p, done + [data], Joined(done) + data, EndOf(p, done) + |Layout(sum, EndOf(p, done), data, done == [])|)
    ensures FillBlocks(p, done + [data], |done| + 1)
  {
    hide *;
    var n, begin := EndOf(p, done), done == [];
    LayoutOfLast(sum, n, data, begin);
    LaidSizes(sum, n, data, FragmentType(begin, true));
    LaidFragment(sum, file, n, FragmentType(begin, true), data);
    OneMorePiece(sum, file, p, done, data, false);
    FillsOneMore(p, done, data);
    LastPiece(sum, file, p, done, data);
  }

  /** A piece that fills its block, and what is left to lay out. */
  lemma CutLaid(sum: Checksum, file: Slice, p: nat, done: seq<Slice>, data: Slice) returns (piece: Slice, rest: Slice)
    requires PiecesAt(sum, file, p, done, true) && FillBlocks(p, done, |done| + 1)
    requires FragmentLength(FragmentStart(EndOf(p, done)), data) < |data|
    requires var n := EndOf(p, done); var laid := Layout(sum, n, data, done == []); n + |laid| <= |file| && Holds(file, n, laid)
    ensures data == piece + rest && |piece| == FragmentLength(FragmentStart(EndOf(p, done)), data)
    ensures PiecesAt(sum, file, p, done + [piece], true) && FillBlocks(p, done + [piece], |done| + 2)
    ensures Joined(done + [piece]) == Joined(done) + piece
    ensures var n := EndOf(p, done); var m := EndOf(p, done + [piece]); var laid := Layout(sum, m, rest, false);
      FragmentStart(m) == m && Leftover(m) == BLOCK_SIZE && m + |laid| == n + |Layout(sum, n, data, done == [])| && Holds(file, m, laid)
  {
    hide *;
    var n, begin := EndOf(p, done), done == [];
    var start := FragmentStart(n);
    var len := FragmentLength(start, data);
    piece, rest := data[..len], data[len..];
    LayoutOfCut(sum, n, data, begin);
    CutFillsBlock(start, data);
    LaidSizes(sum, n, piece, FragmentType(begin, false));
    var head := Zeros(start - n) + Physical(sum, FragmentType(begin, false), piece);
    var next := start + HEADER_SIZE + len;
    HoldsParts(file, n, head, Layout(sum, next, rest, false));
    LaidFragment(sum, file, n, FragmentType(begin, false), piece);
    OneMorePiece(sum, file, p, done, piece, true);
    FillsOneMore(p, done, piece);
    AtBoundary(next);
  }

  /** What the writer lays out for the rest of a record behind some pieces of it. */
  lemma {:induction false} LayoutGoesOn(sum: Checksum, file: Slice, p: nat, done: seq<Slice>, data: Slice) returns (pieces: seq<Slice>)
    requires PiecesAt(sum, file, p, done, true) && FillBlocks(p, done, |done| + 1)
    requires var n := EndOf(p, done); var laid := Layout(sum, n, data, done == []); n + |laid| <= |file| && Holds(file, n, laid)
    ensures StandsAt(sum, file, p, pieces, Joined(done) + data, EndOf(p, done) + |Layout(sum, EndOf(p, done), data, done == [])|)
    ensures FillBlocks(p, pieces, |pieces|)
    decreases |data|, Leftover(FragmentStart(EndOf(p, done))) == HEADER_SIZE
  {
    hide *;
    var start := FragmentStart(EndOf(p, done));
    if FragmentLength(start, data) == |data| {
      LastLaid(sum, file, p, done, data);
      pieces := done + [data];
    } else {
      var piece, rest := CutLaid(sum, file, p, done, data);
      NothingFits(start, data);
      pieces := LayoutGoesOn(sum, file, p, done + [piece], rest);
      assert Joined(done) + piece + rest == Joined(done) + data;
    }
  }

  lemma NothingFits(start: nat, data: Slice)
    requires Leftover(start) >= HEADER_SIZE && FragmentLength(start, data) < |data|
    ensures FragmentLength(start, data) == 0 ==> Leftover(start) == HEADER_SIZE != BLOCK_SIZE
  {
  }

  lemma LaidSizes(sum: Checksum, n: nat, data: Slice, t: Byte)
    requires |data| <= BLOCK_SIZE
    ensures |data| <= 0xffff
    ensures |Zeros(FragmentStart(n) - n) + Physical(sum, t, data)| == FragmentStart(n) - n + HEADER_SIZE + |data|
  {
  }

  lemma AtBoundary(m: nat)
    requires Leftover(m) == BLOCK_SIZE
    ensures m % BLOCK_SIZE == 0
  {
  }

  lemma LastPiece(sum: Checksum, file: Slice, p: nat, done: seq<Slice>, data: Slice)
    requires PiecesAt(sum, file, p, done + [data], false)
    ensures StandsAt(sum, file, p, done + [data], Joined(done + [data]), EndOf(p, done + [data]))
  {
    hide PiecesAt, Joined, EndOf;
  }

  /** What the writer appends for a record stands in the file, in as few pieces as blocks allow: each piece but the last one
      fills its block. */
  lemma LayoutStands(sum: Checksum, before: Slice, data: Slice) returns (pieces: seq<Slice>)
    ensures var file := before + Layout(sum, |before|, data, true);
      StandsAt(sum, file, |before|, pieces, data, |file|) && FillBlocks(|before|, pieces, |pieces|)
  {
    hide Layout, StandsAt;
    var laid := Layout(sum, |before|, data, true);
    var file := before + laid;
    NoPieces(sum, file, |before|);
    assert Holds(file, |before|, laid);
    pieces := LayoutGoesOn(sum, file, |before|, [], data);
    assert [] + data == data;
  }

  // ------------------------------------------------------- going on behind damage

  /** Between these positions no fragment with a good checksum has the type that the reader takes for the end of the file. */
  ghost predicate NoStop(sum: Checksum, file: Slice, from: nat, to: nat) {
    forall q, data :: from <= q < to ==> !FragmentAt(sum, file, q, EOF_TYPE, data)
  }

  /** What is parsed out of a buffer with room for a header ends reading only at the end of the file or at a stored stop. */
  lemma EofIsStored(sum: Checksum, buffer: Slice, end: nat) returns (data: Slice)
    requires HEADER_SIZE <= |buffer| <= end && ParseBuffer(sum, buffer, end, false).Eof?
    ensures HEADER_SIZE + |data| <= |buffer| && |data| <= 0xffff && buffer[..HEADER_SIZE + |data|] == Physical(sum, EOF_TYPE, data)
  {
    var low: nat, high: nat := buffer[4], buffer[5];
    var length := low + high * 256;
    var t := buffer[6];
    data := buffer[7..7 + length];
    assert buffer[6..7 + length] == [t] + data;
    assert buffer[..7 + length] == buffer[..4] + [buffer[4], buffer[5], t] + data;
  }

  lemma StandsThere(sum: Checksum, file: Slice, q: nat, end: nat, t: Byte, data: Slice)
    requires var start := FragmentStart(q); start <= end <= |file| && end - start <= Leftover(start) && HEADER_SIZE + |data| <= end - start
    requires |data| <= 0xffff && file[FragmentStart(q)..end][..HEADER_SIZE + |data|] == Physical(sum, t, data)
    ensures FragmentAt(sum, file, q, t, data)
  {
    hide Physical;
    Within(file, FragmentStart(q), end, 0, HEADER_SIZE + |data|);
  }

  lemma Within(s: Slice, from: nat, to: nat, i: nat, j: nat)
    requires from <= to <= |s| && i <= j <= to - from
    ensures s[from..to][i..j] == s[from + i..from + j]
  {
    assert s[from..to] == s[from..][..to - from];
    assert s[from..][i..] == s[from + i..];
  }

  /** Before a block boundary one fragment, or bad bytes, lead no further than the boundary. */
  lemma StaysBefore(sum: Checksum, file: Slice, q: nat, b: nat)
    requires q < b <= |file| && b % BLOCK_SIZE == 0 && NoStop(sum, file, q, b)
    ensures var r := NextPhysical(sum, file, q); FragmentStart(q) < b ==> !r.Eof? && r.next <= b
  {
    hide ParseBuffer, Physical;
    var start := FragmentStart(q);
    if start < b {
      BoundaryAhead(file, q, b);
      var end := ReadEnd(file, start);
      var buffer := file[start..end];
      if ParseBuffer(sum, buffer, end, false).Eof? {
        var data := EofIsStored(sum, buffer, end);
        StandsThere(sum, file, q, end, EOF_TYPE, data);
      }
    }
  }

  lemma BoundaryAhead(file: Slice, q: nat, b: nat)
    requires q <= FragmentStart(q) < b <= |file| && b % BLOCK_SIZE == 0
    ensures var start := FragmentStart(q);
      ReadStart(file, q) == start && BlockComplete(file, start) && ReadEnd(file, start) == start + Leftover(start) <= b
  {
  }

  /** In the last bytes of a block, reading goes on at the boundary. */
  lemma SameStart(sum: Checksum, file: Slice, q: nat, b: nat, scratch: Slice, inFragmented: bool)
    requires q < b <= |file| && b % BLOCK_SIZE == 0 && FragmentStart(q) >= b
    ensures NextLogical(sum, file, q, scratch, inFragmented) == NextLogical(sum, file, b, scratch, inFragmented)
  {
    hide ParseBuffer, TakeFragment;
    assert FragmentStart(q) == b && FragmentStart(b) == b;
    assert ReadStart(file, q) == b && ReadStart(file, b) == b;
    assert NextPhysical(sum, file, q) == NextPhysical(sum, file, b);
  }

  /** A record that stands from here on is read even if a partial one was put together before. */
  lemma ReadAfresh(sum: Checksum, file: Slice, b: nat, pieces: seq<Slice>, scratch: Slice, inFragmented: bool)
    requires b <= |file| && pieces != [] && PiecesAt(sum, file, b, pieces, false)
    ensures var l := NextLogical(sum, file, b, scratch, inFragmented); l.record == Some(Joined(pieces)) && l.next == EndOf(b, pieces)
  {
    hide NextPhysical, FragmentAt, EndOf, Joined, PiecesAt, NextLogical;
    PiecesGrow(b, pieces, 0);
    NoPieces(sum, file, b);
    PieceAt(sum, file, b, pieces, 0);
    var t := FragmentType(true, |pieces| == 1);
    ThereIsTaken(sum, file, b, t, pieces[0]);
    PieceFits(sum, file, b, t, pieces[0]);
    LogicalStep(sum, file, b, scratch, inFragmented);
    assert [] + pieces[0] == pieces[0];
    if |pieces| > 1 {
      StandingIsRead(sum, file, b, pieces, 1);
    } else {
      assert pieces[..1] == pieces;
    }
  }

  /** One record on the way to a boundary: it ends before, or it is the one that stands there. */
  lemma {:induction false} ReadTowards(sum: Checksum, file: Slice, q: nat, b: nat, pieces: seq<Slice>, scratch: Slice, inFragmented: bool)
    requires q <= b <= |file| && b % BLOCK_SIZE == 0 && NoStop(sum, file, q, b)
    requires pieces != [] && PiecesAt(sum, file, b, pieces, false)
    ensures var l := NextLogical(sum, file, q, scratch, inFragmented);
      && l.record.Some?
      && (l.next <= b || (l.record.value == Joined(pieces) && l.next == EndOf(b, pieces)))
    decreases |file| - q
  {
    hide NextPhysical, FragmentAt, EndOf, Joined, PiecesAt, FragmentStart, NextLogical;
    if q == b {
      ReadAfresh(sum, file, b, pieces, scratch, inFragmented);
    } else if FragmentStart(q) >= b {
      SameStart(sum, file, q, b, scratch, inFragmented);
      ReadAfresh(sum, file, b, pieces, scratch, inFragmented);
    } else {
      StaysBefore(sum, file, q, b);
      LogicalStep(sum, file, q, scratch, inFragmented);
      var r := NextPhysical(sum, file, q);
      var turn := TakeFragment(r, scratch, inFragmented);
      if turn.More? {
        ReadTowards(sum, file, r.next, b, pieces, turn.scratch, turn.inFragmented);
      }
    }
  }

  /** Whatever stands before a block boundary, a record that stands there is read, unless a stored stop comes first; and
      then all behind it are read as well. */
  lemma {:induction false} ReadAfterDamage(sum: Checksum, file: Slice, p: nat, b: nat, pieces: seq<Slice>) returns (before: seq<Slice>)
    requires p <= b <= |file| && b % BLOCK_SIZE == 0 && NoStop(sum, file, p, b)
    requires pieces != [] && PiecesAt(sum, file, b, pieces, false)
    ensures EndOf(b, pieces) <= |file|
    ensures ReadAll(sum, file, p).0 == before + [Joined(pieces)] + ReadAll(sum, file, EndOf(b, pieces)).0
    decreases |file| - p
  {
    hide FragmentAt, EndOf, Joined, PiecesAt, NextLogical;
    ReadTowards(sum, file, p, b, pieces, [], false);
    var l := NextLogical(sum, file, p, [], false);
    var first, rest := l.record.value, ReadAll(sum, file, l.next).0;
    if l.next <= b {
      var more := ReadAfterDamage(sum, file, l.next, b, pieces);
      before := [first] + more;
    } else {
      before := [];
    }
  }

  /** A block is damaged at its start: a length that does not fit in it, or a checksum that is not that of its bytes. */
  ghost predicate Damaged(sum: Checksum, file: Slice, b: nat)
    requires b + BLOCK_SIZE <= |file|
  {
    var low: nat, high: nat := file[b + 4], file[b + 5];
    var length := low + high * 256;
    || HEADER_SIZE + length > BLOCK_SIZE
    || (sum(file[b + 6..b + 7 + length]) != file[b..b + 4] && !(file[b + 6] == ZERO_TYPE && length == 0))
  }

  lemma DamagedIsBad(sum: Checksum, file: Slice, b: nat)
    requires b + BLOCK_SIZE <= |file| && b % BLOCK_SIZE == 0 && Damaged(sum, file, b)
    ensures var r := NextPhysical(sum, file, b); r.Bad? && r.reports != [] && r.next == b + BLOCK_SIZE
  {
    var buffer := file[b..b + BLOCK_SIZE];
    var low: nat, high: nat := file[b + 4], file[b + 5];
    var length := low + high * 256;
    Within(file, b, b + BLOCK_SIZE, 0, 4);
    if HEADER_SIZE + length <= BLOCK_SIZE {
      Within(file, b, b + BLOCK_SIZE, 6, 7 + length);
    }
  }

  lemma {:induction false} MeetsDamage(sum: Checksum, file: Slice, q: nat, b: nat, scratch: Slice, inFragmented: bool)
    requires q <= b && b + BLOCK_SIZE <= |file| && b % BLOCK_SIZE == 0 && NoStop(sum, file, q, b) && Damaged(sum, file, b)
    ensures var l := NextLogical(sum, file, q, scratch, inFragmented); (l.record.Some? && l.next <= b) || l.reports != []
    decreases |file| - q
  {
    hide NextPhysical, FragmentAt, FragmentStart, Damaged, NextLogical;
    if q < b && FragmentStart(q) >= b {
      SameStart(sum, file, q, b, scratch, inFragmented);
      MeetsDamage(sum, file, b, b, scratch, inFragmented);
    } else {
      LogicalStep(sum, file, q, scratch, inFragmented);
      var r := NextPhysical(sum, file, q);
      var turn := TakeFragment(r, scratch, inFragmented);
      if q == b {
        DamagedIsBad(sum, file, b);
      } else {
        StaysBefore(sum, file, q, b);
        if turn.More? {
          MeetsDamage(sum, file, r.next, b, turn.scratch, turn.inFragmented);
        }
      }
    }
  }

  /** A damaged block is reported, unless a stored stop comes first. */
  lemma {:induction false} DamageIsReported(sum: Checksum, file: Slice, p: nat, b: nat)
    requires p <= b && b + BLOCK_SIZE <= |file| && b % BLOCK_SIZE == 0 && NoStop(sum, file, p, b) && Damaged(sum, file, b)
    ensures ReadAll(sum, file, p).1 != []
    decreases |file| - p
  {
    hide FragmentAt, Damaged, NextLogical;
    MeetsDamage(sum, file, p, b, [], false);
    var l := NextLogical(sum, file, p, [], false);
    if l.record.Some? && l.reports == [] {
      DamageIsReported(sum, file, l.next, b);
    }
  }
}
