/** Decoding messages, and the round trip with unknown fields in between. */
module PbDecode {
  import opened Bytes
  import opened DbFormat
  import opened Coding
  import opened Pb

  // ----------------------------------------------------------------------- wire level

  datatype TagResult = EndOfMessage | BadTag | GotTag(tag: nat, wireType: nat, rest: Slice)

  /** The tag at the front of the input. A tag cut off by the end of the input, or a zero byte,
      ends the message. */
  function DecTag(input: Slice): (r: TagResult)
    ensures r.GotTag? ==> |r.rest| < |input|
  {
    match GetDigits(input, 5)
    case Fail => if |input| <= 5 then EndOfMessage else BadTag
    case Got(v, rest) => if v % TWO32 == 0 then EndOfMessage else GotTag(v % TWO32 / 8, v % TWO32 % 8, rest)
  }

  datatype Skipped = CannotSkip | SkippedTo(rest: Slice)

  function SkipVarint(input: Slice): (r: Skipped)
    ensures r.SkippedTo? ==> |r.rest| < |input|
  {
    if input == [] then CannotSkip else if input[0] < 128 then SkippedTo(input[1..]) else SkipVarint(input[1..])
  }

  function SkipBytes(input: Slice, n: nat): (r: Skipped)
    ensures r.SkippedTo? ==> |r.rest| <= |input|
  {
    if n <= |input| then SkippedTo(input[n..]) else CannotSkip
  }

  function SkipField(wireType: nat, input: Slice): (r: Skipped)
    ensures r.SkippedTo? ==> |r.rest| <= |input|
  {
    if wireType == WT_VARINT then SkipVarint(input)
    else if wireType == WT_64BIT then SkipBytes(input, 8)
    else if wireType == WT_STRING then
      match GetVarint32(input)
      case Fail => CannotSkip
      case Got(n, rest) => SkipBytes(rest, n)
    else if wireType == WT_32BIT then SkipBytes(input, 4)
    else CannotSkip
  }

  // --------------------------------------------------------------------------- values

  datatype ValueResult = BadValue | GotValue(value: Value, rest: Slice)

  /** A 64-bit word read as a signed integer of 64 bits, or cut to 32 bits first. */
  function Signed(w: nat, bits: nat): int {
    if bits == 64 then if w < 0x8000_0000_0000_0000 then w else w - TWO64
    else if w % TWO32 < 0x8000_0000 then w % TWO32 else w % TWO32 - TWO32
  }

  function UnZigZag(w: nat): int { if w % 2 == 1 then -(w / 2) - 1 else w / 2 }

  function Default(l: LType): Value {
    match l
    case Int64(_) => Int(0)
    case UInt64(_) => Int(0)
    case SInt64(_) => Int(0)
    case Fixed4 => Raw(Zeros(4))
    case Fixed8 => Raw(Zeros(8))
    case FixedBytes(len) => Raw(Zeros(len))
    case Submessage(fields) =>
      Msg(seq(|fields|, i requires 0 <= i < |fields| => Slot(if fields[i].htype.Required? then [Default(fields[i].ltype)] else [])))
    case _ => Raw([])
  }

  /** One value of a scalar type. */
  function DecScalar(l: LType, input: Slice): (r: ValueResult)
    ensures r.GotValue? ==> |r.rest| <= |input|
  {
    match l
    case Int64(bits) =>
      (match GetVarint64(input)
       case Fail => BadValue
       case Got(w, rest) => if -Half(bits) <= Signed(w, bits) < Half(bits) then GotValue(Int(Signed(w, bits)), rest) else BadValue)
    case UInt64(bits) =>
      (match GetVarint64(input)
       case Fail => BadValue
       case Got(w, rest) => if w < 2 * Half(bits) then GotValue(Int(w), rest) else BadValue)
    case SInt64(bits) =>
      (match GetVarint64(input)
       case Fail => BadValue
       case Got(w, rest) => if -Half(bits) <= UnZigZag(w) < Half(bits) then GotValue(Int(UnZigZag(w)), rest) else BadValue)
    case Fixed4 => if |input| < 4 then BadValue else GotValue(Raw(input[..4]), input[4..])
    case Fixed8 => if |input| < 8 then BadValue else GotValue(Raw(input[..8]), input[8..])
    case BytesType(max) => DecBytes(input, max)
    case StringType(size) => DecBytes(input, size - 1)
    case FixedBytes(len) =>
      (match GetVarint32(input)
       case Fail => BadValue
       case Got(n, rest) =>
         if n == 0 then GotValue(Raw(Zeros(len)), rest)
         else if n != len || n > |rest| then BadValue else GotValue(Raw(rest[..n]), rest[n..]))
    case Submessage(_) => BadValue
  }

  /** A length and that many bytes, if they fit the member. */
  function DecBytes(input: Slice, max: int): (r: ValueResult)
    ensures r.GotValue? ==> |r.rest| <= |input|
  {
    match GetVarint32(input)
    case Fail => BadValue
    case Got(n, rest) => if n > max || n > |rest| then BadValue else GotValue(Raw(rest[..n]), rest[n..])
  }

  /** Which field has a tag. */
  function FindField(fields: seq<Field>, tag: nat): (i: nat)
    ensures i <= |fields| && (i < |fields| ==> fields[i].tag == tag)
    ensures forall j :: 0 <= j < i ==> fields[j].tag != tag
  {
    if fields == [] then 0 else if fields[0].tag == tag then 0 else 1 + FindField(fields[1..], tag)
  }

  ghost predicate AllSeen(fields: seq<Field>, seen: set<nat>) {
    forall i :: 0 <= i < |fields| && fields[i].htype.Required? ==> i in seen
  }

  datatype SlotsResult = BadSlots | GotSlots(slots: seq<Slot>, rest: Slice)
  datatype ItemsResult = BadItems | GotItems(items: seq<Value>)

  function Base(f: Field, s: Slot): Value {
    if s.items != [] && !f.htype.OneOf? then s.items[0] else Default(f.ltype)
  }

  ghost function DecValue(l: LType, base: Value, input: Slice): (r: ValueResult)
    ensures r.GotValue? ==> |r.rest| <= |input|
    decreases |input|, 3, 0
  {
    if !l.Submessage? then DecScalar(l, input)
    else
      match GetVarint32(input)
      case Fail => BadValue
      case Got(n, rest) =>
        if n > |rest| || !base.Msg? || |base.slots| != |l.fields| then BadValue
        else
          match DecMessage(l.fields, base.slots, rest[..n], {})
          case None => BadValue
          case Some(slots) => GotValue(Msg(slots), rest[n..])
  }

  /** The items of a packed array, up to the size of the C array. */
  ghost function DecPacked(l: LType, items: seq<Value>, max: nat, input: Slice): ItemsResult
    requires l.Packable()
    decreases |input|, 2, max - |items|
  {
    if input == [] then GotItems(items)
    else if |items| >= max then BadItems
    else
      match DecScalar(l, input)
      case BadValue => BadItems
      case GotValue(v, rest) => DecPacked(l, items + [v], max, rest)
  }

  /** What a field on the wire does to its slot; another member of a oneof loses its item. */
  ghost function DecField(fields: seq<Field>, slots: seq<Slot>, i: nat, wireType: nat, input: Slice): (r: SlotsResult)
    requires |slots| == |fields| && i < |fields|
    ensures r.GotSlots? ==> |r.slots| == |fields| && |r.rest| <= |input|
    decreases |input|, 4, 0
  {
    var f, s := fields[i], slots[i];
    if f.htype.Repeated? && wireType == WT_STRING && f.ltype.Packable() then
      match GetVarint32(input)
      case Fail => BadSlots
      case Got(n, rest) =>
        if n > |rest| then BadSlots
        else
          match DecPacked(f.ltype, s.items, f.htype.max, rest[..n])
          case BadItems => BadSlots
          case GotItems(items) => GotSlots(slots[i := Slot(items)], rest[n..])
    else if f.htype.Repeated? then
      if |s.items| >= f.htype.max then BadSlots
      else
        match DecValue(f.ltype, Default(f.ltype), input)
        case BadValue => BadSlots
        case GotValue(v, rest) => GotSlots(slots[i := Slot(s.items + [v])], rest)
    else
      match DecValue(f.ltype, Base(f, s), input)
      case BadValue => BadSlots
      case GotValue(v, rest) => GotSlots(ClearOthers(fields, slots, i)[i := Slot([v])], rest)
  }

  function ClearOthers(fields: seq<Field>, slots: seq<Slot>, i: nat): (r: seq<Slot>)
    requires |slots| == |fields| && i < |fields|
    ensures |r| == |slots|
  {
    seq(|slots|, j requires 0 <= j < |slots| => if j != i && SameOneOf(fields[i], fields[j]) then Slot([]) else slots[j])
  }

  /** Fields in any order until the input or the message ends; unknown ones are skipped, and every
      required one must have been seen. Field number zero is unknown, except to a message type
      without fields, which takes it for its own end marker and fails. */
  ghost function DecMessage(fields: seq<Field>, slots: seq<Slot>, input: Slice, seen: set<nat>): (r: Option<seq<Slot>>)
    requires |slots| == |fields|
    ensures r.Some? ==> |r.value| == |fields|
    decreases |input|, 5, 0
  {
    var end := if AllSeen(fields, seen) then Some(slots) else None;
    if input == [] then end
    else
      match DecTag(input)
      case EndOfMessage => end
      case BadTag => None
      case GotTag(tag, wireType, rest) =>
        var i := FindField(fields, tag);
        if i == |fields| && fields == [] && tag == 0 then None
        else if i == |fields| then
          match SkipField(wireType, rest)
          case CannotSkip => None
          case SkippedTo(rest') => DecMessage(fields, slots, rest', seen)
        else
          match DecField(fields, slots, i, wireType, rest)
          case BadSlots => None
          case GotSlots(slots', rest') => DecMessage(fields, slots', rest', seen + {i})
  }

  /** pb_decode: from default values. */
  ghost function Decode(l: LType, input: Slice): Option<Value>
    requires l.Submessage?
  {
    match DecMessage(l.fields, Default(l).slots, input, {})
    case None => None
    case Some(slots) => Some(Msg(slots))
  }
}
