/** The decoder as the program runs it: input streams, the wrapping field iterator, and the
    decoding loop. */
module PbIStream {
  import opened Bytes
  import opened DbFormat
  import opened Coding
  import opened Pb
  import opened PbDecode
  import opened Words

  /** A stream over the bytes from pos on, of which it may read bytesLeft. */
  class IStream {
    const data: Slice
    var pos: nat
    var bytesLeft: nat

    predicate Valid()
      reads this
    {
      pos + bytesLeft <= |data|
    }

    function Input(): Slice
      reads this
      requires Valid()
    {
      data[pos..pos + bytesLeft]
    }

    /** Where the stream ends; reading does not change it. */
    function End(): nat
      reads this
    {
      pos + bytesLeft
    }

    constructor (data: Slice, pos: nat, bytesLeft: nat)
      requires pos + bytesLeft <= |data|
      ensures Valid() && this.data == data && this.pos == pos && this.bytesLeft == bytesLeft
    {
      this.data, this.pos, this.bytesLeft := data, pos, bytesLeft;
    }

    /** Takes some bytes off the front. */
    method Read(count: nat) returns (ok: bool, bytes: Slice)
      requires Valid()
      modifies this
      ensures Valid() && End() == old(End()) && ok == (count <= old(bytesLeft))
      ensures ok ==> bytes == old(Input())[..count] && Input() == old(Input())[count..]
      ensures !ok ==> Input() == old(Input())
    {
      if bytesLeft < count {
        return false, [];
      }
      bytes := data[pos..pos + count];
      pos, bytesLeft := pos + count, bytesLeft - count;
      ok := true;
    }

    method ReadByte() returns (byte: Byte)
      requires Valid() && bytesLeft > 0
      modifies this
      ensures Valid() && End() == old(End()) && bytesLeft == old(bytesLeft) - 1
      ensures old(Input()) == [byte] + Input()
    {
      byte := data[pos];
      pos, bytesLeft := pos + 1, bytesLeft - 1;
    }

    /** A varint of at most the given number of bytes. When there is none, the bytes looked at
        are gone all the same. */
    method DecodeVarint(wide: bool) returns (r: Option<nat>)
      requires Valid()
      modifies this
      ensures Valid() && End() == old(End())
      ensures var p := if wide then GetVarint64(old(Input())) else GetVarint32(old(Input()));
        if p.Fail? then r.None? && (bytesLeft == 0 <==> old(bytesLeft) <= if wide then 10 else 5)
        else r == Some(p.value) && Input() == p.rest
    {
      hide GetDigits, GetVarint32, GetVarint64, Shifted, Cut, Weighted;
      var width := if wide then 10 else 5;
      ghost var input := Input();
      VarintOfDigits(input, wide);
      var n, result, scale: nat := 0, 0, 1;
      ghost var digits: nat := 0;
      NothingRead(GetDigits(input, width), wide);
      while n < width && bytesLeft > 0
        invariant Valid() && End() == old(End()) && n <= width && n + bytesLeft == |input| && Input() == input[n..] && result == Cut(digits, wide)
        invariant GetDigits(input, width) == Shifted(GetDigits(input[n..], width - n), digits, scale)
        decreases width - n
      {
        var byte: nat := ReadByte();
        assert byte == input[n..][0] && input[n..][1..] == input[n + 1..] == Input();
        DigitsStep(input[n..], width - n, digits, scale);
        var low := if byte >= 128 then byte - 128 else byte;
        CutAdd(digits, Weighted(low, scale), wide);
        result := Cut(result + Weighted(low, scale), wide);
        digits := digits + Weighted(low, scale);
        n := n + 1;
        if byte < 128 {
          return Some(result);
        }
        scale := scale * 128;
      }
      NoDigits(input[n..], width - n, digits, scale);
      r := None;
    }

    method SkipVarint() returns (ok: bool)
      requires Valid()
      modifies this
      ensures Valid() && End() == old(End()) && ok == PbDecode.SkipVarint(old(Input())).SkippedTo?
      ensures ok ==> Input() == PbDecode.SkipVarint(old(Input())).rest
    {
      while true
        invariant Valid() && End() == old(End()) && PbDecode.SkipVarint(old(Input())) == PbDecode.SkipVarint(Input())
        decreases bytesLeft
      {
        var byte;
        ok, byte := Read(1);
        if !ok || byte[0] < 128 {
          return;
        }
      }
    }

    method SkipField(wireType: nat) returns (ok: bool)
      requires Valid()
      modifies this
      ensures Valid() && End() == old(End()) && ok == PbDecode.SkipField(wireType, old(Input())).SkippedTo?
      ensures ok ==> Input() == PbDecode.SkipField(wireType, old(Input())).rest
    {
      hide PbDecode.SkipVarint, GetDigits;
      var bytes;
      if wireType == WT_VARINT {
        ok := SkipVarint();
      } else if wireType == WT_64BIT {
        ok, bytes := Read(8);
      } else if wireType == WT_STRING {
        var length := DecodeVarint(false);
        if length.None? {
          return false;
        }
        ok, bytes := Read(length.value);
      } else if wireType == WT_32BIT {
        ok, bytes := Read(4);
      } else {
        ok := false;
      }
    }

    /** The tag of the next field, or the end of the message. */
    method DecodeTag() returns (r: TagResult)
      requires Valid()
      modifies this
      ensures Valid() && End() == old(End())
      ensures var t := DecTag(old(Input()));
        if t.GotTag? then r.GotTag? && r.tag == t.tag && r.wireType == t.wireType && Input() == t.rest
        else r == t
    {
      hide GetDigits;
      var v := DecodeVarint(false);
      if v.None? {
        return if bytesLeft == 0 then EndOfMessage else BadTag;
      }
      if v.value == 0 {
        return EndOfMessage;
      }
      r := GotTag(v.value / 8, v.value % 8, []);
    }

    /** Splits off a stream of the length that comes next. */
    method MakeSubstream() returns (sub: IStream?)
      requires Valid()
      modifies this
      ensures Valid() && (sub == null ==> End() == old(End())) && (sub != null ==> fresh(sub) && sub.Valid() && sub.data == data)
      ensures var p := GetVarint32(old(Input()));
        (sub != null) == (p.Got? && p.value <= |p.rest|)
      ensures sub != null ==> var p := GetVarint32(old(Input()));
        && sub.Input() == p.rest[..p.value] && sub.bytesLeft < old(bytesLeft)
        && sub.End() + bytesLeft == old(End()) && data[sub.End()..sub.End() + bytesLeft] == p.rest[p.value..]
    {
      hide GetDigits;
      var size := DecodeVarint(false);
      if size.None? || bytesLeft < size.value {
        return null;
      }
      SplitInput(data, pos, bytesLeft, size.value);
      sub := new IStream(data, pos, size.value);
      bytesLeft := bytesLeft - size.value;
    }

    /** Skips what is left of a substream and goes on behind it. */
    method CloseSubstream(sub: IStream)
      requires sub.Valid() && sub.data == data && sub != this
      requires sub.End() + bytesLeft <= |data|
      modifies this, sub
      ensures Valid() && bytesLeft == old(bytesLeft) && End() == old(sub.End() + bytesLeft)
      ensures Input() == data[old(sub.End())..old(sub.End() + bytesLeft)]
    {
      var ok, skipped := sub.Read(sub.bytesLeft);
      pos := sub.pos;
    }
  }

  lemma SplitInput(data: Slice, pos: nat, n: nat, k: nat)
    requires k <= n && pos + n <= |data|
    ensures data[pos..pos + n][..k] == data[pos..pos + k] && data[pos..pos + n][k..] == data[pos + k..pos + n]
  {
  }

  // ------------------------------------------------------------------- field iterator

  /** Walks the descriptors in a circle and counts the required fields passed. */
  class FieldIter {
    const fields: seq<Field>
    var pos: nat
    var requiredFieldIndex: nat

    ghost predicate Valid()
      reads this
    {
      (fields == [] ==> pos == 0) && (fields != [] ==> pos < |fields|) && requiredFieldIndex == RequiredCount(fields[..pos])
    }

    constructor (fields: seq<Field>)
      ensures Valid() && this.fields == fields && pos == 0
    {
      this.fields, pos, requiredFieldIndex := fields, 0, 0;
    }

    /** The next descriptor; false when it went back to the first one. */
    method Next() returns (more: bool)
      requires Valid()
      modifies this
      ensures Valid() && pos == (if fields != [] && old(pos) + 1 < |fields| then old(pos) + 1 else 0) && more == (pos != 0)
    {
      if fields == [] {
        return false;
      }
      if pos + 1 == |fields| {
        pos, requiredFieldIndex := 0, 0;
        return false;
      }
      assert fields[..pos + 1][..pos] == fields[..pos];
      if fields[pos].htype.Required? {
        requiredFieldIndex := requiredFieldIndex + 1;
      }
      pos := pos + 1;
      more := true;
    }

    /** Looks for a tag all the way round from the current descriptor. */
    method Find(tag: nat) returns (found: bool)
      requires Valid() && (forall i, j :: 0 <= i < j < |fields| ==> fields[i].tag != fields[j].tag)
      modifies this
      ensures Valid() && (found ==> pos < |fields| && pos == FindField(fields, tag))
      ensures !found ==> FindField(fields, tag) == |fields|
    {
      var start := pos;
      ghost var steps := 0;
      if fields == [] {
        return false;
      }
      while true
        invariant Valid() && steps < |fields| && pos == Turn(start, steps, |fields|)
        invariant forall k :: 0 <= k < steps ==> fields[Turn(start, k, |fields|)].tag != tag
        decreases |fields| - steps
      {
        if fields[pos].tag == tag {
          return true;
        }
        var _ := Next();
        steps := steps + 1;
        if pos == start {
          assert steps == |fields|;
          forall i | 0 <= i < |fields| ensures fields[i].tag != tag {
            assert i == Turn(start, if i >= start then i - start else i + |fields| - start, |fields|);
          }
          return false;
        }
      }
    }
  }

  /** The place k steps from start in a circle of n. */
  function Turn(start: nat, k: nat, n: nat): nat
    requires start < n && k <= n
  {
    if start + k < n then start + k else start + k - n
  }

  // ------------------------------------------------------------------------- decoding

  method DecodeScalar(stream: IStream, l: LType) returns (r: Option<Value>)
    requires stream.Valid() && !l.Submessage?
    modifies stream
    ensures stream.Valid() && stream.End() == old(stream.End())
    ensures var p := DecScalar(l, old(stream.Input()));
      if p.BadValue? then r.None? else r == Some(p.value) && stream.Input() == p.rest
  {
    hide GetDigits, Half, Signed, UnZigZag;
    match l
    case Int64(bits) =>
      var w := stream.DecodeVarint(true);
      r := if w.Some? && -Half(bits) <= Signed(w.value, bits) < Half(bits) then Some(Int(Signed(w.value, bits))) else None;
    case UInt64(bits) =>
      var w := stream.DecodeVarint(true);
      r := if w.Some? && w.value < 2 * Half(bits) then Some(Int(w.value)) else None;
    case SInt64(bits) =>
      var w := stream.DecodeVarint(true);
      r := if w.Some? && -Half(bits) <= UnZigZag(w.value) < Half(bits) then Some(Int(UnZigZag(w.value))) else None;
    case Fixed4 =>
      var ok, bytes := stream.Read(4);
      r := if ok then Some(Raw(bytes)) else None;
    case Fixed8 =>
      var ok, bytes := stream.Read(8);
      r := if ok then Some(Raw(bytes)) else None;
    case BytesType(max) => r := DecodeBytes(stream, max);
    case StringType(size) => r := DecodeBytes(stream, size - 1);
    case FixedBytes(len) =>
      var n := stream.DecodeVarint(false);
      if n.None? {
        return None;
      }
      if n.value == 0 {
        return Some(Raw(Zeros(len)));
      }
      if n.value != len {
        return None;
      }
      var ok, bytes := stream.Read(len);
      r := if ok then Some(Raw(bytes)) else None;
  }

  method DecodeBytes(stream: IStream, max: int) returns (r: Option<Value>)
    requires stream.Valid()
    modifies stream
    ensures stream.Valid() && stream.End() == old(stream.End())
    ensures var p := DecBytes(old(stream.Input()), max);
      if p.BadValue? then r.None? else r == Some(p.value) && stream.Input() == p.rest
  {
    hide GetDigits;
    var n := stream.DecodeVarint(false);
    if n.None? || n.value > max {
      return None;
    }
    var ok, bytes := stream.Read(n.value);
    r := if ok then Some(Raw(bytes)) else None;
  }

  /** A value; a nested message is decoded from its own substream onto the base value. */
  method DecodeValue(stream: IStream, l: LType, base: Value) returns (r: Option<Value>)
    requires stream.Valid() && SchemaOk(l) && Shaped(l, base)
    modifies stream
    ensures stream.Valid() && stream.End() == old(stream.End())
    ensures var p := DecValue(l, base, old(stream.Input()));
      if p.BadValue? then r.None? else r == Some(p.value) && stream.Input() == p.rest
    ensures r.Some? ==> Shaped(l, r.value)
    decreases stream.bytesLeft, 3, 0
  {
    hide DecScalar, DecMessage, GetVarint32, SchemaOk;
    if !l.Submessage? {
      r := DecodeScalar(stream, l);
      return;
    }
    var sub := stream.MakeSubstream();
    if sub == null {
      return None;
    }
    var slots := DecodeNoInit(sub, l, base.slots);
    stream.CloseSubstream(sub);
    r := if slots.Some? then Some(Msg(slots.value)) else None;
  }

  /** The items of a packed array, until the substream is empty or the array is full. */
  method DecodePacked(sub: IStream, l: LType, items0: seq<Value>, max: nat) returns (ok: bool, items: seq<Value>)
    requires sub.Valid() && l.Packable()
    modifies sub
    ensures sub.Valid() && sub.End() == old(sub.End())
    ensures var p := DecPacked(l, items0, max, old(sub.Input()));
      if p.BadItems? then !ok else ok && items == p.items
  {
    hide DecScalar;
    items, ok := items0, true;
    while sub.bytesLeft > 0 && |items| < max
      invariant sub.Valid() && sub.End() == old(sub.End()) && ok
      invariant DecPacked(l, items0, max, old(sub.Input())) == DecPacked(l, items, max, sub.Input())
      decreases max - |items|
    {
      var v := DecodeScalar(sub, l);
      if v.None? {
        return false, items;
      }
      items := items + [v.value];
    }
    ok := sub.bytesLeft == 0;
  }

  /** What a field on the wire does to its slot. */
  method DecodeStaticField(stream: IStream, fields: seq<Field>, slots: seq<Slot>, i: nat, wireType: nat) returns (r: Option<seq<Slot>>)
    requires stream.Valid() && |slots| == |fields| && i < |fields| && SchemaOk(fields[i].ltype) && ShapedSlots(fields, slots)
    modifies stream
    ensures stream.Valid() && stream.End() == old(stream.End())
    ensures var p := DecField(fields, slots, i, wireType, old(stream.Input()));
      if p.BadSlots? then r.None? else r == Some(p.slots) && stream.Input() == p.rest
    ensures r.Some? ==> ShapedSlots(fields, r.value)
    decreases stream.bytesLeft, 4, 0
  {
    hide DecScalar, DecValue, DecPacked, GetVarint32, SchemaOk, Default;
    var f, s := fields[i], slots[i];
    DefaultIsShaped(f.ltype);
    if f.htype.Repeated? && wireType == WT_STRING && f.ltype.Packable() {
      var sub := stream.MakeSubstream();
      if sub == null {
        return None;
      }
      var ok, items := DecodePacked(sub, f.ltype, s.items, f.htype.max);
      stream.CloseSubstream(sub);
      r := if ok then Some(slots[i := Slot(items)]) else None;
    } else if f.htype.Repeated? {
      if |s.items| >= f.htype.max {
        return None;
      }
      var v := DecodeValue(stream, f.ltype, Default(f.ltype));
      r := if v.Some? then Some(slots[i := Slot(s.items + [v.value])]) else None;
    } else {
      var v := DecodeValue(stream, f.ltype, Base(f, s));
      r := if v.Some? then Some(ClearOthers(fields, slots, i)[i := Slot([v.value])]) else None;
    }
    if r.Some? {
      forall k | 0 <= k < |fields| ensures ShapedSlot(fields[k], r.value[k]) {
        assert ShapedSlot(fields[k], slots[k]);
      }
    }
  }

  /** Nested messages have a slot for each of their fields, at every depth. */
  ghost predicate Shaped(l: LType, v: Value)
    decreases v
  {
    l.Submessage? ==> v.Msg? && |v.slots| == |l.fields| && forall i :: 0 <= i < |l.fields| ==> ShapedSlot(l.fields[i], v.slots[i])
  }

  ghost predicate ShapedSlot(f: Field, s: Slot)
    decreases s
  {
    forall j :: 0 <= j < |s.items| ==> Shaped(f.ltype, s.items[j])
  }

  ghost predicate ShapedSlots(fields: seq<Field>, slots: seq<Slot>) {
    |slots| == |fields| && forall i :: 0 <= i < |fields| ==> ShapedSlot(fields[i], slots[i])
  }

  lemma {:induction false} DefaultIsShaped(l: LType)
    ensures Shaped(l, Default(l))
    decreases l
  {
    if l.Submessage? {
      forall i | 0 <= i < |l.fields| ensures ShapedSlot(l.fields[i], Default(l).slots[i]) {
        DefaultIsShaped(l.fields[i].ltype);
      }
    }
  }

  // --------------------------------------------------------------- the decoding loop

  /** Bit k of a mask of 32-bit words. */
  predicate MaskBit(words: seq<nat>, k: nat) { k / 32 < |words| && BitSet(words[k / 32], k % 32) }

  /** The mask with bit k set. */
  function Mark(words: seq<nat>, k: nat): (r: seq<nat>)
    requires k / 32 < |words|
    ensures |r| == |words|
  {
    words[k / 32 := SetBit(words[k / 32], k % 32)]
  }

  /** Only the first n bits of the mask are in use. */
  ghost predicate UpTo(words: seq<nat>, n: nat) {
    |words| == MASK_WORDS && forall i, b: nat :: 0 <= i < MASK_WORDS && BitSet(words[i], b) ==> b < 32 && 32 * i + b < n
  }

  const MASK_WORDS: nat := 2
  const ALL_BITS: nat := 0xffff_ffff

  lemma MarkSets(words: seq<nat>, n: nat, k: nat, j: nat)
    requires UpTo(words, n) && k < n <= MAX_REQUIRED_FIELDS && j < MAX_REQUIRED_FIELDS
    ensures UpTo(Mark(words, k), n) && (MaskBit(Mark(words, k), j) <==> j == k || MaskBit(words, j))
  {
    forall i, b: nat | 0 <= i < MASK_WORDS && BitSet(Mark(words, k)[i], b) ensures b < 32 && 32 * i + b < n {
      SetBitSets(words[k / 32], k % 32, b);
    }
    SetBitSets(words[k / 32], k % 32, j % 32);
  }

  /** The final check: whole words first, then the bits that are left. */
  method CheckMask(words: seq<nat>, n: nat) returns (ok: bool)
    requires UpTo(words, n) && MaskFits(n)
    ensures ok <==> forall k: nat :: k < n ==> MaskBit(words, k)
  {
    hide BitSet, Pow;
    if n == 0 {
      return true;
    }
    for i := 0 to n / 32
      invariant forall j :: 0 <= j < i ==> words[j] == ALL_BITS
    {
      if words[i] != ALL_BITS {
        WordFull(words, n, i);
        return false;
      }
    }
    var rest := n % 32;
    ShiftedWord(rest);
    ok := words[n / 32] == ALL_BITS / Pow(2, 32 - rest);
    AllWordsFull(words, n);
  }

  /** A whole word is all bits exactly if every required field of it was seen. */
  lemma WordFull(words: seq<nat>, n: nat, i: nat)
    requires UpTo(words, n) && i < MASK_WORDS && 32 * (i + 1) <= n
    ensures words[i] == ALL_BITS <==> forall k: nat :: 32 * i <= k < 32 * i + 32 ==> MaskBit(words, k)
  {
    hide Pow;
    Pow32();
    LowBits(words[i], 32);
    BitsOfWord(words, n, i, 32);
  }

  lemma BitsOfWord(words: seq<nat>, n: nat, i: nat, width: nat)
    requires UpTo(words, n) && i < MASK_WORDS && width <= 32
    ensures LowSet(words[i], width) <==> forall k: nat :: 32 * i <= k < 32 * i + width ==> MaskBit(words, k)
  {
    hide BitSet;
    if LowSet(words[i], width) {
      forall k: nat | 32 * i <= k < 32 * i + width ensures MaskBit(words, k) {
        assert k / 32 == i && k % 32 == k - 32 * i;
      }
    }
    if forall k: nat :: 32 * i <= k < 32 * i + width ==> MaskBit(words, k) {
      forall b: nat | b < width ensures BitSet(words[i], b) {
        assert MaskBit(words, 32 * i + b);
      }
    }
  }

  lemma AllWordsFull(words: seq<nat>, n: nat)
    requires UpTo(words, n) && 0 < n && MaskFits(n)
    ensures (forall j :: 0 <= j < n / 32 ==> words[j] == ALL_BITS) && words[n / 32] == Pow(2, n % 32) - 1
      <==> forall k: nat :: k < n ==> MaskBit(words, k)
  {
    hide BitSet, MaskBit, Pow;
    var i, rest := n / 32, n % 32;
    if i > 0 {
      WordFull(words, n, 0);
    }
    assert Within(words[i], rest);
    LowBits(words[i], rest);
    BitsOfWord(words, n, i, rest);
  }

  /** The mask holds, for each required field, whether it was seen, at the bit with the number of required
      fields before it. */
  ghost predicate MaskOk(fields: seq<Field>, seen: set<nat>, words: seq<nat>) {
    && UpTo(words, RequiredCount(fields))
    && forall i :: 0 <= i < |fields| && fields[i].htype.Required? ==> (i in seen <==> MaskBit(words, RequiredCount(fields[..i])))
  }

  lemma {:induction false} CountGrows(fields: seq<Field>, i: nat, j: nat)
    requires i <= j <= |fields|
    ensures RequiredCount(fields[..i]) <= RequiredCount(fields[..j])
    ensures i < j && fields[i].htype.Required? ==> RequiredCount(fields[..i]) < RequiredCount(fields[..j])
    decreases j
  {
    if i < j {
      assert fields[..j][..j - 1] == fields[..j - 1];
      CountGrows(fields, i, j - 1);
    }
  }

  lemma MarkSeen(fields: seq<Field>, seen: set<nat>, words: seq<nat>, i: nat)
    requires MaskOk(fields, seen, words) && i < |fields| && MaskFits(RequiredCount(fields))
    ensures fields[i].htype.Required? ==> RequiredCount(fields[..i]) < RequiredCount(fields) < MAX_REQUIRED_FIELDS
    ensures MaskOk(fields, seen + {i}, if fields[i].htype.Required? then Mark(words, RequiredCount(fields[..i])) else words)
  {
    hide UpTo, MaskBit, Mark;
    assert fields[..|fields|] == fields;
    CountGrows(fields, i, |fields|);
    if fields[i].htype.Required? {
      var k := RequiredCount(fields[..i]);
      MarkSets(words, RequiredCount(fields), k, k);
      forall j | 0 <= j < |fields| && fields[j].htype.Required?
        ensures j in seen + {i} <==> MaskBit(Mark(words, k), RequiredCount(fields[..j]))
      {
        CountGrows(fields, j, |fields|);
        CountGrows(fields, if i < j then i else j, if i < j then j else i);
        MarkSets(words, RequiredCount(fields), k, RequiredCount(fields[..j]));
      }
    }
  }

  lemma {:induction false} CountIsOnto(fields: seq<Field>, k: nat) returns (i: nat)
    requires k < RequiredCount(fields)
    ensures i < |fields| && fields[i].htype.Required? && RequiredCount(fields[..i]) == k
  {
    var front := fields[..|fields| - 1];
    if k < RequiredCount(front) {
      i := CountIsOnto(front, k);
      assert front[..i] == fields[..i];
    } else {
      i := |fields| - 1;
    }
  }

  /** All bits of the mask are set exactly if every required field was seen. */
  lemma FullMask(fields: seq<Field>, seen: set<nat>, words: seq<nat>)
    requires MaskOk(fields, seen, words)
    ensures (forall k: nat :: k < RequiredCount(fields) ==> MaskBit(words, k)) <==> AllSeen(fields, seen)
  {
    hide UpTo, MaskBit;
    if AllSeen(fields, seen) {
      forall k: nat | k < RequiredCount(fields) ensures MaskBit(words, k) {
        var i := CountIsOnto(fields, k);
      }
    }
    if forall k: nat :: k < RequiredCount(fields) ==> MaskBit(words, k) {
      forall i | 0 <= i < |fields| && fields[i].htype.Required? ensures i in seen {
        assert fields[..|fields|] == fields;
        CountGrows(fields, i, |fields|);
      }
    }
  }

  /** Counts the required fields by running the iterator to its end. */
  method CountRequired(iter: FieldIter) returns (n: nat)
    requires iter.Valid()
    modifies iter
    ensures iter.Valid() && n == RequiredCount(iter.fields)
  {
    var last := false;
    var more := true;
    n := 0;
    while more
      invariant iter.Valid()
      invariant !more ==> n + (if last then 1 else 0) == RequiredCount(iter.fields)
      decreases more, |iter.fields| - iter.pos
    {
      n := iter.requiredFieldIndex;
      last := iter.fields != [] && iter.fields[iter.pos].htype.Required?;
      ghost var at := iter.pos;
      if iter.fields != [] {
        assert iter.fields[..at + 1][..at] == iter.fields[..at];
        assert iter.fields[..|iter.fields|] == iter.fields;
      }
      more := iter.Next();
    }
    if last {
      n := n + 1;
    }
  }

  /** Decodes fields in whatever order they come, skips unknown ones, and checks that every
      required field was seen. */
  method DecodeNoInit(stream: IStream, l: LType, slots0: seq<Slot>) returns (r: Option<seq<Slot>>)
    requires stream.Valid() && l.Submessage? && SchemaOk(l) && ShapedSlots(l.fields, slots0)
    modifies stream
    ensures stream.Valid() && stream.End() == old(stream.End())
    ensures r == DecMessage(l.fields, slots0, old(stream.Input()), {})
    ensures r.Some? ==> ShapedSlots(l.fields, r.value)
    decreases stream.bytesLeft, 5, 0
  {
    hide DecField, DecTag, PbDecode.SkipField, ShapedSlot, RequiredCount, MaskOk, AllSeen, Mark, MaskBit, UpTo, SchemaOk, MaskFits;
    SchemaParts(l);
    var iter := new FieldIter(l.fields);
    var slots := slots0;
    var fieldsSeen: seq<nat> := [0, 0];
    ghost var seen: set<nat> := {};
    ghost var goal := DecMessage(l.fields, slots0, stream.Input(), {});
    NothingMarked(l.fields);
    while stream.bytesLeft > 0
      invariant stream.Valid() && stream.End() == old(stream.End()) && iter.Valid() && iter.fields == l.fields && fresh(iter)
      invariant ShapedSlots(l.fields, slots) && MaskOk(l.fields, seen, fieldsSeen)
      invariant goal == DecMessage(l.fields, slots, stream.Input(), seen) && stream.bytesLeft <= old(stream.bytesLeft)
      decreases stream.bytesLeft
    {
      var tag := stream.DecodeTag();
      if tag.EndOfMessage? {
        break;
      }
      if tag.BadTag? {
        return None;
      }
      var found := iter.Find(tag.tag);
      if !found {
        if l.fields == [] && tag.tag == 0 {
          return None;
        }
        var ok := stream.SkipField(tag.wireType);
        if !ok {
          return None;
        }
        continue;
      }
      var i := iter.pos;
      MarkSeen(l.fields, seen, fieldsSeen, i);
      MaskInUse(l.fields, seen, fieldsSeen);
      if l.fields[i].htype.Required? && iter.requiredFieldIndex < MAX_REQUIRED_FIELDS {
        fieldsSeen := Mark(fieldsSeen, iter.requiredFieldIndex);
      }
      seen := seen + {i};
      var slots' := DecodeStaticField(stream, l.fields, slots, i, tag.wireType);
      if slots'.None? {
        return None;
      }
      slots := slots'.value;
    }
    FullMask(l.fields, seen, fieldsSeen);
    MaskInUse(l.fields, seen, fieldsSeen);
    var required := CountRequired(iter);
    var complete := CheckMask(fieldsSeen, required);
    r := if complete then Some(slots) else None;
  }

  lemma SchemaParts(l: LType)
    requires l.Submessage? && SchemaOk(l)
    ensures MaskFits(RequiredCount(l.fields))
    ensures forall i, j :: 0 <= i < j < |l.fields| ==> l.fields[i].tag != l.fields[j].tag
    ensures forall i :: 0 <= i < |l.fields| ==> SchemaOk(l.fields[i].ltype)
  {
    hide RequiredCount;
  }

  lemma NothingMarked(fields: seq<Field>)
    ensures MaskOk(fields, {}, [0, 0])
  {
    forall b: nat ensures !BitSet(0, b) {
      ZeroHasNoBits(b);
    }
  }

  lemma MaskInUse(fields: seq<Field>, seen: set<nat>, words: seq<nat>)
    requires MaskOk(fields, seen, words)
    ensures UpTo(words, RequiredCount(fields)) && |words| == MASK_WORDS
  {
  }

  /** pb_decode: default values first, then the fields. */
  method Decode(stream: IStream, l: LType) returns (r: Option<Value>)
    requires stream.Valid() && l.Submessage? && SchemaOk(l)
    modifies stream
    ensures r == PbDecode.Decode(l, old(stream.Input()))
  {
    hide DecMessage, SchemaOk;
    DefaultIsShaped(l);
    var slots := DecodeNoInit(stream, l, Default(l).slots);
    r := if slots.Some? then Some(Msg(slots.value)) else None;
  }
}
