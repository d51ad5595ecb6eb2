/** Write batches: their byte form, and what applying them adds to a memtable. */
module WriteBatch {
  import opened Bytes
  import opened DbFormat
  import opened Coding

  const HEADER: nat := 12
  const TYPE_DELETION: Byte := 0
  const TYPE_VALUE: Byte := 1

  datatype Op = Put(key: Slice, value: Slice) | Delete(key: Slice)

  datatype Status = Ok | TooSmall | BadPut | BadDelete | UnknownTag | WrongCount

  /** Lengths are stored in 32 bits. */
  predicate Fits(op: Op) {
    |op.key| < TWO32 && (op.Put? ==> |op.value| < TWO32)
  }

  predicate AllFit(ops: seq<Op>) { |ops| < TWO32 && forall op :: op in ops ==> Fits(op) }

  function Record(op: Op): (r: Slice)
    ensures r != []
  {
    match op
    case Put(key, value) => [TYPE_VALUE] + LengthPrefixed(key) + LengthPrefixed(value)
    case Delete(key) => [TYPE_DELETION] + LengthPrefixed(key)
  }

  function Records(ops: seq<Op>): Slice {
    if ops == [] then [] else Record(ops[0]) + Records(ops[1..])
  }

  function Encode(sequence: nat, ops: seq<Op>): (r: Slice)
    ensures |r| >= HEADER
  {
    Fixed64(sequence) + Fixed32(|ops|) + Records(ops)
  }

  /** These bytes are a batch with this sequence number and these operations. */
  ghost predicate Encodes(rep: Slice, sequence: nat, ops: seq<Op>) {
    sequence < TWO64 && |ops| < TWO32 && rep == Encode(sequence, ops)
  }

  lemma {:induction false} RecordsAppend(a: seq<Op>, b: seq<Op>)
    ensures Records(a + b) == Records(a) + Records(b)
  {
    hide Record;
    if a == [] {
      assert a + b == b;
    } else {
      RecordsAppend(a[1..], b);
      assert (a + b)[1..] == a[1..] + b && (a + b)[0] == a[0];
      assert Records(a + b) == Record(a[0]) + (Records(a[1..]) + Records(b));
    }
  }

  // ------------------------------------------------------------------------ parsing

  datatype One = Stop(status: Status) | Step(op: Op, rest: Slice)

  /** One record at the front of the input. */
  function ParseOne(input: Slice): (r: One)
    requires input != []
    ensures r.Step? ==> |r.rest| < |input|
    ensures r.Stop? ==> r.status.BadPut? || r.status.BadDelete? || r.status.UnknownTag?
  {
    if input[0] == TYPE_VALUE then
      match GetLengthPrefixedSlice(input[1..])
      case NoSlice => Stop(BadPut)
      case GotSlice(key, rest) =>
        (match GetLengthPrefixedSlice(rest)
         case NoSlice => Stop(BadPut)
         case GotSlice(value, rest') => Step(Put(key, value), rest'))
    else if input[0] == TYPE_DELETION then
      match GetLengthPrefixedSlice(input[1..])
      case NoSlice => Stop(BadDelete)
      case GotSlice(key, rest) => Step(Delete(key), rest)
    else Stop(UnknownTag)
  }

  /** The records up to the end or the first bad one. */
  function ParseAll(input: Slice): (seq<Op>, Status)
    decreases |input|
  {
    if input == [] then ([], Ok)
    else
      match ParseOne(input)
      case Stop(status) => ([], status)
      case Step(op, rest) => ([op] + ParseAll(rest).0, ParseAll(rest).1)
  }

  /** What iterating over the bytes of a batch visits, and its result. */
  function Parse(rep: Slice): (seq<Op>, Status) {
    if |rep| < HEADER then ([], TooSmall)
    else
      var (ops, status) := ParseAll(rep[HEADER..]);
      (ops, if status.Ok? && |ops| != DecodeFixed(rep[8..12]) then WrongCount else status)
  }

  lemma ParseRecord(op: Op, rest: Slice)
    requires Fits(op)
    ensures ParseOne(Record(op) + rest) == Step(op, rest)
  {
    hide Varint, GetVarint32, LengthPrefixed, GetLengthPrefixedSlice;
    var input := Record(op) + rest;
    match op
    case Put(key, value) =>
      assert input[1..] == LengthPrefixed(key) + (LengthPrefixed(value) + rest);
      LengthPrefixedRoundTrip(key, LengthPrefixed(value) + rest);
      LengthPrefixedRoundTrip(value, rest);
    case Delete(key) =>
      assert input[1..] == LengthPrefixed(key) + rest;
      LengthPrefixedRoundTrip(key, rest);
  }

  lemma {:induction false} ParseRecords(ops: seq<Op>)
    requires forall op :: op in ops ==> Fits(op)
    ensures ParseAll(Records(ops)) == (ops, Ok)
  {
    hide ParseOne, Record;
    if ops != [] {
      ParseRecord(ops[0], Records(ops[1..]));
      ParseRecords(ops[1..]);
      assert Records(ops) == Record(ops[0]) + Records(ops[1..]) && Records(ops) != [];
      assert ParseAll(Records(ops)) == ([ops[0]] + ops[1..], Ok);
      assert [ops[0]] + ops[1..] == ops;
    }
  }

  /** The header fields of an encoded batch. */
  lemma EncodedHeader(sequence: nat, ops: seq<Op>)
    requires sequence < TWO64 && |ops| < TWO32
    ensures var rep := Encode(sequence, ops);
      DecodeFixed(rep[..8]) == sequence && DecodeFixed(rep[8..12]) == |ops| && rep[HEADER..] == Records(ops)
  {
    var rep := Encode(sequence, ops);
    assert rep[..8] == Fixed64(sequence) && rep[8..12] == Fixed32(|ops|) && rep[HEADER..] == Records(ops);
    Fixed64RoundTrip(sequence);
    Fixed32RoundTrip(|ops|);
  }

  /** Iterating over an encoded batch visits exactly its operations. */
  lemma BatchRoundTrip(sequence: nat, ops: seq<Op>)
    requires sequence < TWO64 && AllFit(ops)
    ensures Parse(Encode(sequence, ops)) == (ops, Ok)
    ensures DecodeFixed(Encode(sequence, ops)[..8]) == sequence
  {
    hide Records, Fixed;
    EncodedHeader(sequence, ops);
    ParseRecords(ops);
  }

  lemma {:induction false} ParseUpTo(ops: seq<Op>, junk: Slice)
    requires forall op :: op in ops ==> Fits(op)
    ensures ParseAll(Records(ops) + junk) == (ops + ParseAll(junk).0, ParseAll(junk).1)
  {
    hide ParseOne, Record;
    if ops == [] {
      assert [] + junk == junk && [] + ParseAll(junk).0 == ParseAll(junk).0;
    } else {
      var rest := Records(ops[1..]) + junk;
      ParseRecord(ops[0], rest);
      ParseUpTo(ops[1..], junk);
      assert Records(ops) + junk == Record(ops[0]) + rest;
      assert [ops[0]] + (ops[1..] + ParseAll(junk).0) == ops + ParseAll(junk).0;
    }
  }

  /** The beginning of a record, cut off before its end. */
  ghost predicate CutOff(junk: Slice, op: Op) {
    Fits(op) && junk != [] && |junk| < |Record(op)| && junk == Record(op)[..|junk|]
  }

  function Truncated(op: Op): Status { if op.Put? then BadPut else BadDelete }

  lemma CutOffStops(junk: Slice, op: Op)
    requires CutOff(junk, op)
    ensures ParseOne(junk) == Stop(Truncated(op))
  {
    hide LengthPrefixed, GetLengthPrefixedSlice;
    var n := |junk| - 1;
    var key := LengthPrefixed(op.key);
    if n < |key| {
      assert junk[1..] == key[..n];
      TruncatedSlice(op.key, n);
    } else {
      var rest := LengthPrefixed(op.value)[..n - |key|];
      assert junk[1..] == key + rest;
      LengthPrefixedRoundTrip(op.key, rest);
      TruncatedSlice(op.value, n - |key|);
    }
  }

  /** A batch that is damaged behind some good records: those are visited, and the status tells what is wrong. */
  lemma DamagedBatch(sequence: nat, count: nat, ops: seq<Op>, junk: Slice)
    requires count < TWO32 && forall op :: op in ops ==> Fits(op)
    ensures var r := Parse(Fixed64(sequence) + Fixed32(count) + Records(ops) + junk);
      && (junk == [] ==> r == (ops, if count == |ops| then Ok else WrongCount))
      && (junk != [] && junk[0] != TYPE_VALUE && junk[0] != TYPE_DELETION ==> r == (ops, UnknownTag))
      && (forall op :: CutOff(junk, op) ==> r == (ops, Truncated(op)))
  {
    hide *;
    var rep := Fixed64(sequence) + Fixed32(count) + Records(ops) + junk;
    ParseParts(Fixed64(sequence), Fixed32(count), Records(ops), junk);
    Fixed32RoundTrip(count);
    ParseUpTo(ops, junk);
    ParseFront(ops, junk);
    forall op | CutOff(junk, op) ensures Parse(rep) == (ops, Truncated(op)) {
      CutOffStops(junk, op);
      TruncatedIsBad(junk, op);
    }
  }

  lemma ParseParts(a: Slice, b: Slice, c: Slice, d: Slice)
    requires |a| == 8 && |b| == 4
    ensures var (ops, status) := ParseAll(c + d);
      Parse(a + b + c + d) == (ops, if status.Ok? && |ops| != DecodeFixed(b) then WrongCount else status)
  {
    hide ParseAll, DecodeFixed;
    assert (a + b + c + d)[8..12] == b && (a + b + c + d)[HEADER..] == c + d;
  }

  lemma ParseFront(ops: seq<Op>, junk: Slice)
    ensures junk == [] ==> ops + ParseAll(junk).0 == ops && ParseAll(junk).1.Ok?
    ensures junk != [] && ParseOne(junk).Stop? ==> ops + ParseAll(junk).0 == ops && ParseAll(junk).1 == ParseOne(junk).status
    ensures junk != [] && junk[0] != TYPE_VALUE && junk[0] != TYPE_DELETION ==> ParseOne(junk) == Stop(UnknownTag)
  {
  }

  lemma TruncatedIsBad(junk: Slice, op: Op)
    requires CutOff(junk, op)
    ensures junk != [] && !Truncated(op).Ok?
  {
  }

  // ------------------------------------------------------------------------ applying

  /** The entry an operation becomes at a sequence number. */
  function ToEntry(op: Op, sequence: nat): Entry {
    match op
    case Put(key, value) => Entry(InternalKey(Rank(key), sequence, Value), value)
    case Delete(key) => Entry(InternalKey(Rank(key), sequence, Deletion), [])
  }

  /** Operations get consecutive sequence numbers. */
  function ToEntries(ops: seq<Op>, sequence: nat): (r: seq<Entry>)
    ensures |r| == |ops| && forall i :: 0 <= i < |ops| ==> r[i] == ToEntry(ops[i], sequence + i)
  {
    seq(|ops|, i requires 0 <= i < |ops| => ToEntry(ops[i], sequence + i))
  }

  // ----------------------------------------------------------------------- the class

  class Batch {
    var rep: Slice

    constructor ()
      ensures rep == Encode(0, [])
    {
      rep := seq(HEADER, _ => 0);
      new;
      EmptyBatch();
    }

    method Clear()
      modifies this
      ensures rep == Encode(0, [])
    {
      rep := seq(HEADER, _ => 0);
      EmptyBatch();
    }

    function Count(): nat
      requires |rep| >= HEADER
      reads this
    {
      DecodeFixed(rep[8..12])
    }

    function Sequence(): nat
      requires |rep| >= HEADER
      reads this
    {
      DecodeFixed(rep[..8])
    }

    method SetCount(n: nat)
      requires |rep| >= HEADER
      modifies this
      ensures rep == old(rep)[..8] + Fixed32(n) + old(rep)[12..]
    {
      rep := rep[..8] + Fixed32(n) + rep[12..];
    }

    method SetSequence(sequence: nat)
      requires |rep| >= HEADER
      modifies this
      ensures rep == Fixed64(sequence) + old(rep)[8..]
      ensures forall s: nat, ops :: Encodes(old(rep), s, ops) && sequence < TWO64 ==> Encodes(rep, sequence, ops)
    {
      hide Fixed, Records;
      rep := Fixed64(sequence) + rep[8..];
      forall s: nat, ops | Encodes(old(rep), s, ops) && sequence < TWO64 ensures Encodes(rep, sequence, ops) {
        assert old(rep)[8..] == Fixed32(|ops|) + Records(ops);
      }
    }

    /** Takes over the bytes of a log record. */
    method SetContents(contents: Slice)
      requires |contents| >= HEADER
      modifies this
      ensures rep == contents
    {
      rep := contents;
    }

    method Put(key: Slice, value: Slice)
      requires |rep| >= HEADER
      modifies this
      ensures |rep| >= HEADER
      ensures forall s: nat, ops :: Encodes(old(rep), s, ops) && |ops| + 1 < TWO32 ==> Encodes(rep, s, ops + [Op.Put(key, value)])
    {
      var count := Count();
      SetCount(count + 1);
      rep := rep + [TYPE_VALUE];
      rep := rep + LengthPrefixed(key);
      rep := rep + LengthPrefixed(value);
      assert Records([Op.Put(key, value)]) == [TYPE_VALUE] + LengthPrefixed(key) + LengthPrefixed(value);
      GrowBatch(old(rep), rep, [Op.Put(key, value)]);
    }

    method Delete(key: Slice)
      requires |rep| >= HEADER
      modifies this
      ensures |rep| >= HEADER
      ensures forall s: nat, ops :: Encodes(old(rep), s, ops) && |ops| + 1 < TWO32 ==> Encodes(rep, s, ops + [Op.Delete(key)])
    {
      var count := Count();
      SetCount(count + 1);
      rep := rep + [TYPE_DELETION];
      rep := rep + LengthPrefixed(key);
      assert Records([Op.Delete(key)]) == [TYPE_DELETION] + LengthPrefixed(key);
      GrowBatch(old(rep), rep, [Op.Delete(key)]);
    }

    /** Adds the operations of another batch after the own ones. */
    method Append(src: Batch)
      requires |rep| >= HEADER && |src.rep| >= HEADER
      modifies this
      ensures |rep| >= HEADER
      ensures forall s: nat, ops, t: nat, more ::
        Encodes(old(rep), s, ops) && Encodes(old(src.rep), t, more) && |ops| + |more| < TWO32 ==> Encodes(rep, s, ops + more)
    {
      hide Fixed, Records;
      var data := src.rep[HEADER..];
      var count, srcCount := Count(), src.Count();
      SetCount(count + srcCount);
      rep := rep + data;
      forall s: nat, ops, t: nat, more | Encodes(old(rep), s, ops) && Encodes(old(src.rep), t, more) && |ops| + |more| < TWO32
        ensures Encodes(rep, s, ops + more)
      {
        EncodedHeader(t, more);
        GrowOne(old(rep), rep, s, ops, more);
      }
    }

    /** Visits the operations in order until the end or the first bad record. */
    method Iterate() returns (ops: seq<Op>, status: Status)
      ensures (ops, status) == Parse(rep)
    {
      hide ParseOne, ParseAll;
      if |rep| < HEADER {
        return [], TooSmall;
      }
      var input := rep[HEADER..];
      ops := [];
      assert ops + ParseAll(input).0 == ParseAll(input).0;
      var found := 0;
      while input != []
        invariant found == |ops|
        invariant ParseAll(rep[HEADER..]) == (ops + ParseAll(input).0, ParseAll(input).1)
        decreases |input|
      {
        found := found + 1;
        var one := ParseOne(input);
        ParseStep(input, ops);
        if one.Stop? {
          return ops, one.status;
        }
        ops, input := ops + [one.op], one.rest;
      }
      ParseEnd(ops);
      status := if found != Count() then WrongCount else Ok;
    }

    /** Adds every operation visited to a memtable, with consecutive sequence numbers. */
    method InsertInto(mem: seq<Entry>) returns (mem': seq<Entry>, status: Status)
      requires |rep| >= HEADER
      ensures status == Parse(rep).1 && mem' == mem + ToEntries(Parse(rep).0, Sequence())
    {
      hide Parse, ToEntries, ToEntry, Sequence;
      var ops;
      ops, status := Iterate();
      mem' := mem;
      var sequence := Sequence();
      NoEntries(sequence);
      for i := 0 to |ops|
        invariant mem' == mem + ToEntries(ops[..i], Sequence()) && sequence == Sequence() + i
      {
        OneMoreEntry(ops, i, Sequence());
        mem' := mem' + [ToEntry(ops[i], sequence)];
        sequence := sequence + 1;
      }
      assert ops[..|ops|] == ops;
    }
  }

  lemma NoEntries(sequence: nat)
    ensures ToEntries([], sequence) == []
  {
  }

  lemma OneMoreEntry(ops: seq<Op>, i: nat, sequence: nat)
    requires i < |ops|
    ensures ToEntries(ops[..i + 1], sequence) == ToEntries(ops[..i], sequence) + [ToEntry(ops[i], sequence + i)]
  {
    hide ToEntry;
  }

  lemma ParseStep(input: Slice, seen: seq<Op>)
    requires input != []
    ensures var one := ParseOne(input); var (ops, status) := ParseAll(input);
      if one.Stop? then seen + ops == seen && status == one.status
      else seen + ops == seen + [one.op] + ParseAll(one.rest).0 && status == ParseAll(one.rest).1
  {
    hide ParseOne;
  }

  lemma ParseEnd(seen: seq<Op>)
    ensures seen + ParseAll([]).0 == seen && ParseAll([]).1 == Ok
  {
  }

  lemma EmptyBatch()
    ensures Encode(0, []) == seq(HEADER, _ => 0)
  {
    assert Fixed(0, 4) == [0, 0, 0, 0] && Fixed(0, 8) == [0, 0, 0, 0] + Fixed(0, 4) by {
      assert Fixed(0, 2) == [0, 0] && Fixed(0, 6) == [0, 0] + Fixed(0, 4);
    }
  }

  /** Raising the count and appending records extends the encoded operations. */
  lemma GrowOne(before: Slice, after: Slice, s: nat, ops: seq<Op>, more: seq<Op>)
    requires Encodes(before, s, ops) && |ops| + |more| < TWO32
    requires after == before[..8] + Fixed32(DecodeFixed(before[8..12]) + |more|) + before[12..] + Records(more)
    ensures Encodes(after, s, ops + more)
  {
    hide Fixed32, Fixed64, Records, DecodeFixed, Encode;
    EncodedHeader(s, ops);
    RecordsAppend(ops, more);
    EncodeParts(s, ops);
    EncodeParts(s, ops + more);
    assert |ops + more| == |ops| + |more|;
    Parts(Fixed64(s), Fixed32(|ops|), Records(ops), Fixed32(|ops| + |more|), Records(more), before, after);
  }

  lemma EncodeParts(s: nat, ops: seq<Op>)
    ensures Encode(s, ops) == Fixed64(s) + Fixed32(|ops|) + Records(ops)
  {
  }

  /** Replacing the middle part and appending at the end. */
  lemma Parts(a: Slice, b: Slice, c: Slice, b': Slice, d: Slice, before: Slice, after: Slice)
    requires |a| == 8 && |b| == 4 && before == a + b + c && after == before[..8] + b' + before[12..] + d
    ensures after == a + b' + (c + d)
  {
    assert before[..8] == a && before[12..] == c;
  }

  lemma GrowBatch(before: Slice, after: Slice, more: seq<Op>)
    requires |before| >= HEADER
    requires after == before[..8] + Fixed32(DecodeFixed(before[8..12]) + |more|) + before[12..] + Records(more)
    ensures forall s: nat, ops :: Encodes(before, s, ops) && |ops| + |more| < TWO32 ==> Encodes(after, s, ops + more)
  {
    hide Encodes, Fixed, Records, DecodeFixed;
    forall s: nat, ops | Encodes(before, s, ops) && |ops| + |more| < TWO32 ensures Encodes(after, s, ops + more) {
      GrowOne(before, after, s, ops, more);
    }
  }
}
