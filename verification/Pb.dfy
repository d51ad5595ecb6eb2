/** Protocol buffer messages described by field descriptors, and their encoding. */
module Pb {
  import opened Bytes
  import opened Coding

  // ---------------------------------------------------------------------- descriptors

  /** The type of one value; bits is the width of the integer member in the C struct. */
  datatype LType =
    | Int64(bits: nat)
    | UInt64(bits: nat)
    | SInt64(bits: nat)
    | Fixed4
    | Fixed8
    | BytesType(max: nat)
    | StringType(size: nat)
    | FixedBytes(len: nat)
    | Submessage(fields: seq<Field>)
  {
    predicate Packable() { Int64? || UInt64? || SInt64? || Fixed4? || Fixed8? }

    function WireType(): nat {
      if Int64? || UInt64? || SInt64? then WT_VARINT
      else if Fixed4? then WT_32BIT
      else if Fixed8? then WT_64BIT
      else WT_STRING
    }
  }

  datatype HType = Required | Optional | Repeated(max: nat) | OneOf(group: nat)

  datatype Field = Field(tag: nat, htype: HType, ltype: LType)

  const WT_VARINT: nat := 0
  const WT_64BIT: nat := 1
  const WT_STRING: nat := 2
  const WT_32BIT: nat := 5

  // --------------------------------------------------------------------------- values

  /** The contents of a C struct: one slot per field. A required field has one item, an optional
      one an item if its has flag is set, a repeated one as many as its count says, and a
      member of a oneof an item if the which field names it. */
  datatype Value = Int(i: int) | Raw(bytes: Slice) | Msg(slots: seq<Slot>)
  datatype Slot = Slot(items: seq<Value>)

  predicate Bits(n: nat) { n == 8 || n == 16 || n == 32 || n == 64 }

  /** 2 to the power of the bits but one. */
  function Half(bits: nat): (h: int)
    ensures h > 0
  {
    if bits == 8 then 0x80 else if bits == 16 then 0x8000 else if bits == 32 then 0x8000_0000 else 0x8000_0000_0000_0000
  }

  ghost predicate NoZero(s: Slice) { forall b :: b in s ==> b != 0 }

  const MAX_REQUIRED_FIELDS: nat := 64

  /** How many required fields a decoder can check: past the mask, or when the count fills its last word, the
      final comparison reads beyond the mask or shifts by the width of a word, which C leaves undefined. */
  predicate MaskFits(n: nat) { n == 0 || (n < MAX_REQUIRED_FIELDS && n % 32 != 0) }

  /** Tags fit 29 bits and are distinct, and the required fields can be checked. */
  ghost predicate SchemaOk(l: LType) {
    match l
    case Int64(bits) => Bits(bits)
    case UInt64(bits) => Bits(bits)
    case SInt64(bits) => Bits(bits)
    case StringType(size) => size > 0
    case Submessage(fields) =>
      && (forall i :: 0 <= i < |fields| ==> 1 <= fields[i].tag < 0x2000_0000)
      && (forall i, j :: 0 <= i < j < |fields| ==> fields[i].tag != fields[j].tag)
      && MaskFits(RequiredCount(fields))
      && forall i :: 0 <= i < |fields| ==> SchemaOk(fields[i].ltype)
    case _ => true
  }

  function RequiredCount(fields: seq<Field>): nat {
    if fields == [] then 0 else RequiredCount(fields[..|fields| - 1]) + if fields[|fields| - 1].htype.Required? then 1 else 0
  }

  /** A value that the C struct member can hold: integers within their width, strings ended by a
      zero byte, and lengths that the format can carry. */
  ghost predicate ValueOk(l: LType, v: Value)
    decreases v
  {
    match l
    case Int64(bits) => v.Int? && -Half(bits) <= v.i < Half(bits)
    case SInt64(bits) => v.Int? && -Half(bits) <= v.i < Half(bits)
    case UInt64(bits) => v.Int? && 0 <= v.i < 2 * Half(bits)
    case Fixed4 => v.Raw? && |v.bytes| == 4
    case Fixed8 => v.Raw? && |v.bytes| == 8
    case BytesType(max) => v.Raw? && |v.bytes| <= max && |v.bytes| < TWO32
    case StringType(size) => v.Raw? && |v.bytes| < size && |v.bytes| < TWO32 - 1 && NoZero(v.bytes)
    case FixedBytes(len) => v.Raw? && |v.bytes| == len < TWO32
    case Submessage(fields) =>
      && v.Msg? && |v.slots| == |fields|
      && (forall i :: 0 <= i < |fields| ==> SlotOk(fields[i], v.slots[i]))
      && (forall i, j :: 0 <= i < j < |fields| && SameOneOf(fields[i], fields[j]) ==> v.slots[i].items == [] || v.slots[j].items == [])
  }

  predicate SameOneOf(f: Field, g: Field) { f.htype.OneOf? && f.htype == g.htype }

  ghost predicate SlotOk(f: Field, s: Slot)
    decreases s
  {
    && (match f.htype
        case Required => |s.items| == 1
        case Optional => |s.items| <= 1
        case Repeated(max) => |s.items| <= max && (f.ltype.Packable() ==> |EncItems(f.ltype, s, 0)| < TWO32)
        case OneOf(_) => |s.items| <= 1)
    && forall j :: 0 <= j < |s.items| ==>
      ValueOk(f.ltype, s.items[j]) && (f.ltype.Submessage? && s.items[j].Msg? ==> |EncFields(f.ltype.fields, s.items[j], 0)| < TWO32)
  }

  // ------------------------------------------------------------------------- encoding

  function Tag(tag: nat, wireType: nat): Slice { Varint(tag * 8 + wireType) }

  function TagFor(f: Field): Slice { Tag(f.tag, f.ltype.WireType()) }

  /** Negative integers are sent as 64-bit two's complement. */
  function Unsigned(i: int): nat { if i >= 0 then i else if i + TWO64 >= 0 then i + TWO64 else 0 }

  function ZigZag(i: int): nat { if i < 0 then -2 * i - 1 else 2 * i }

  function EncValue(l: LType, v: Value): Slice
    decreases v, 2, 0
  {
    match v
    case Int(i) => (match l case SInt64(_) => Varint(ZigZag(i)) case _ => Varint(Unsigned(i)))
    case Raw(bytes) => (match l case Fixed4 => bytes case Fixed8 => bytes case _ => LengthPrefixed(bytes))
    case Msg(_) => (match l case Submessage(fields) => LengthPrefixed(EncFields(fields, v, 0)) case _ => [])
  }

  /** The fields of a message from the i-th one on. */
  function EncFields(fields: seq<Field>, m: Value, i: nat): Slice
    requires m.Msg?
    decreases m, 1, if i < |m.slots| then |m.slots| - i else 0
  {
    if i >= |fields| || i >= |m.slots| then [] else EncSlot(fields[i], m.slots[i]) + EncFields(fields, m, i + 1)
  }

  /** One field: nothing if it is not there, and a packed array where the type allows it. */
  function EncSlot(f: Field, s: Slot): Slice
    decreases s, 1, 0
  {
    if s.items == [] then []
    else if f.htype.Repeated? && f.ltype.Packable() then Tag(f.tag, WT_STRING) + LengthPrefixed(EncItems(f.ltype, s, 0))
    else EncTagged(f, s, 0)
  }

  function EncItems(l: LType, s: Slot, j: nat): Slice
    decreases s, 0, if j < |s.items| then |s.items| - j else 0
  {
    if j >= |s.items| then [] else EncValue(l, s.items[j]) + EncItems(l, s, j + 1)
  }

  function EncTagged(f: Field, s: Slot, j: nat): Slice
    decreases s, 0, if j < |s.items| then |s.items| - j else 0
  {
    if j >= |s.items| then [] else TagFor(f) + EncValue(f.ltype, s.items[j]) + EncTagged(f, s, j + 1)
  }
}
