/** Tags and values that were encoded decode to themselves, and unknown fields are skipped. */
module PbRoundTrip {
  import opened Bytes
  import opened DbFormat
  import opened Coding
  import opened Pb
  import opened PbDecode

  // ----------------------------------------------------------------------- wire level

  lemma {:induction false} DigitsExtend(input: Slice, more: Slice, max: nat)
    requires GetDigits(input, max).Got?
    ensures GetDigits(input + more, max) == Got(GetDigits(input, max).value, GetDigits(input, max).rest + more)
    decreases max
  {
    assert (input + more)[1..] == input[1..] + more;
    if input[0] >= 128 {
      DigitsExtend(input[1..], more, max - 1);
    }
  }

  lemma TagRoundTrip(tag: nat, wireType: nat, more: Slice)
    requires 1 <= tag < 0x2000_0000 && wireType < 8
    ensures Tag(tag, wireType) != [] && DecTag(Tag(tag, wireType) + more) == GotTag(tag, wireType, more)
  {
    hide Varint, GetDigits, Pow;
    VarintWidths();
    VarintRoundTrip(tag * 8 + wireType, more, 5);
  }

  /** The decoded form of every integer type undoes the encoded one. */
  lemma IntegerRoundTrip(i: int, bits: nat)
    requires Bits(bits)
    ensures -Half(bits) <= i < Half(bits) ==> Unsigned(i) < TWO64 && Signed(Unsigned(i), bits) == i
    ensures -Half(bits) <= i < Half(bits) ==> ZigZag(i) < TWO64 && UnZigZag(ZigZag(i)) == i
    ensures 0 <= i < 2 * Half(bits) ==> Unsigned(i) == i < TWO64
  {
  }

  lemma BytesRoundTrip(bytes: Slice, max: int, rest: Slice)
    requires |bytes| <= max && |bytes| < TWO32
    ensures DecBytes(LengthPrefixed(bytes) + rest, max) == GotValue(Raw(bytes), rest)
  {
    hide Varint, GetVarint32;
    assert LengthPrefixed(bytes) + rest == Varint(|bytes|) + (bytes + rest);
    Varint32RoundTrip(|bytes|, bytes + rest);
    assert (bytes + rest)[..|bytes|] == bytes && (bytes + rest)[|bytes|..] == rest;
  }

  lemma ScalarRoundTrip(l: LType, v: Value, rest: Slice)
    requires !l.Submessage? && SchemaOk(l) && ValueOk(l, v)
    ensures DecScalar(l, EncValue(l, v) + rest) == GotValue(v, rest)
  {
    hide Varint, GetVarint32, GetVarint64, LengthPrefixed, Signed, UnZigZag, Unsigned, ZigZag, Half, DecBytes;
    match l
    case Int64(bits) =>
      IntegerRoundTrip(v.i, bits);
      Varint64RoundTrip(Unsigned(v.i), rest);
    case UInt64(bits) =>
      IntegerRoundTrip(v.i, bits);
      Varint64RoundTrip(Unsigned(v.i), rest);
    case SInt64(bits) =>
      IntegerRoundTrip(v.i, bits);
      Varint64RoundTrip(ZigZag(v.i), rest);
    case Fixed4 => assert (v.bytes + rest)[..4] == v.bytes && (v.bytes + rest)[4..] == rest;
    case Fixed8 => assert (v.bytes + rest)[..8] == v.bytes && (v.bytes + rest)[8..] == rest;
    case BytesType(max) => BytesRoundTrip(v.bytes, max, rest);
    case StringType(size) => BytesRoundTrip(v.bytes, size - 1, rest);
    case FixedBytes(len) => FixedBytesRoundTrip(v.bytes, rest);
    case Submessage(_) => assert false;
  }

  lemma FixedBytesRoundTrip(bytes: Slice, rest: Slice)
    requires |bytes| < TWO32
    ensures DecScalar(FixedBytes(|bytes|), LengthPrefixed(bytes) + rest) == GotValue(Raw(bytes), rest)
  {
    hide Varint, GetVarint32;
    assert LengthPrefixed(bytes) + rest == Varint(|bytes|) + (bytes + rest);
    Varint32RoundTrip(|bytes|, bytes + rest);
    assert (bytes + rest)[..|bytes|] == bytes && (bytes + rest)[|bytes|..] == rest;
  }

  // ------------------------------------------------------------------- unknown fields

  /** Bytes that skipping takes for fields none of whose tags is in the message. */
  predicate Skippable(fields: seq<Field>, junk: Slice)
    decreases |junk|
  {
    junk == [] ||
    match DecTag(junk)
    case GotTag(tag, wireType, rest) =>
      FindField(fields, tag) == |fields| && (fields != [] || tag != 0) &&
      (match SkipField(wireType, rest)
       case SkippedTo(rest') => Skippable(fields, rest')
       case CannotSkip => false)
    case _ => false
  }

  lemma {:induction false} SkipVarintExtends(input: Slice, more: Slice)
    requires SkipVarint(input).SkippedTo?
    ensures SkipVarint(input + more) == SkippedTo(SkipVarint(input).rest + more)
  {
    assert (input + more)[1..] == input[1..] + more;
    if input[0] >= 128 {
      SkipVarintExtends(input[1..], more);
    }
  }

  lemma SkipExtends(wireType: nat, input: Slice, more: Slice)
    requires SkipField(wireType, input).SkippedTo?
    ensures SkipField(wireType, input + more) == SkippedTo(SkipField(wireType, input).rest + more)
  {
    hide SkipVarint, GetDigits;
    if wireType == WT_VARINT {
      SkipVarintExtends(input, more);
    } else if wireType == WT_64BIT {
      assert (input + more)[8..] == input[8..] + more;
    } else if wireType == WT_32BIT {
      assert (input + more)[4..] == input[4..] + more;
    } else {
      DigitsExtend(input, more, 5);
      var n, rest := GetVarint32(input).value, GetVarint32(input).rest;
      assert (rest + more)[n..] == rest[n..] + more;
    }
  }

  lemma {:induction false} SkippableAreSkipped(fields: seq<Field>, slots: seq<Slot>, junk: Slice, more: Slice, seen: set<nat>)
    requires |slots| == |fields| && Skippable(fields, junk)
    ensures DecMessage(fields, slots, junk + more, seen) == DecMessage(fields, slots, more, seen)
    decreases |junk|
  {
    hide GetDigits, SkipField, DecField;
    if junk == [] {
      assert junk + more == more;
    } else {
      var tag, wireType, rest := DecTag(junk).tag, DecTag(junk).wireType, DecTag(junk).rest;
      DigitsExtend(junk, more, 5);
      SkipExtends(wireType, rest, more);
      SkippableAreSkipped(fields, slots, SkipField(wireType, rest).rest, more, seen);
    }
  }

  /** A field that is not in the message, as some other program writes it: an integer, eight bytes, a string or nested
      message, or four bytes. */
  datatype Other =
    | OtherVarint(tag: nat, v: nat)
    | Other64(tag: nat, bytes: Slice)
    | OtherString(tag: nat, bytes: Slice)
    | Other32(tag: nat, bytes: Slice)

  function OtherBytes(u: Other): Slice {
    match u
    case OtherVarint(tag, v) => Tag(tag, WT_VARINT) + Varint(v)
    case Other64(tag, bytes) => Tag(tag, WT_64BIT) + bytes
    case OtherString(tag, bytes) => Tag(tag, WT_STRING) + LengthPrefixed(bytes)
    case Other32(tag, bytes) => Tag(tag, WT_32BIT) + bytes
  }

  predicate IsOther(fields: seq<Field>, u: Other) {
    && 1 <= u.tag < 0x2000_0000 && (forall i :: 0 <= i < |fields| ==> fields[i].tag != u.tag)
    && (u.Other64? ==> |u.bytes| == 8) && (u.OtherString? ==> |u.bytes| < TWO32) && (u.Other32? ==> |u.bytes| == 4)
  }

  function Others(us: seq<Other>): Slice {
    if us == [] then [] else OtherBytes(us[0]) + Others(us[1..])
  }

  predicate AllOthers(fields: seq<Field>, us: seq<Other>) { forall i :: 0 <= i < |us| ==> IsOther(fields, us[i]) }

  lemma {:induction false} VarintIsSkipped(v: nat, more: Slice)
    ensures SkipVarint(Varint(v) + more) == SkippedTo(more)
    decreases v
  {
    if v < 128 {
      assert Varint(v) == [v];
      hide Varint;
      SkipByte(v, more);
    } else {
      VarintIsSkipped(v / 128, more);
      assert Varint(v) == [v % 128 + 128] + Varint(v / 128);
      hide Varint, SkipVarint;
      SkipByte(v % 128 + 128, Varint(v / 128) + more);
      assert [v % 128 + 128] + (Varint(v / 128) + more) == Varint(v) + more;
    }
  }

  lemma SkipByte(b: Byte, more: Slice)
    ensures SkipVarint([b] + more) == if b < 128 then SkippedTo(more) else SkipVarint(more)
  {
    assert ([b] + more)[1..] == more;
  }

  /** Skipping takes what was written behind the tag. */
  lemma OtherIsSkipped(u: Other, fields: seq<Field>, more: Slice)
    requires IsOther(fields, u)
    ensures OtherBytes(u) != []
    ensures exists wireType, body: Slice :: DecTag(OtherBytes(u) + more) == GotTag(u.tag, wireType, body)
              && SkipField(wireType, body) == SkippedTo(more)
  {
    hide DecTag, Tag, Varint, SkipVarint, GetVarint32;
    match u
    case OtherVarint(tag, v) =>
      TagComesFirst(tag, WT_VARINT, Varint(v), more);
      VarintIsSkipped(v, more);
      assert SkipField(WT_VARINT, Varint(v) + more) == SkippedTo(more);
    case Other64(tag, bytes) =>
      TagComesFirst(tag, WT_64BIT, bytes, more);
      assert (bytes + more)[8..] == more;
      assert SkipField(WT_64BIT, bytes + more) == SkippedTo(more);
    case OtherString(tag, bytes) =>
      TagComesFirst(tag, WT_STRING, LengthPrefixed(bytes), more);
      assert LengthPrefixed(bytes) + more == Varint(|bytes|) + (bytes + more);
      Varint32RoundTrip(|bytes|, bytes + more);
      assert (bytes + more)[|bytes|..] == more;
      assert SkipField(WT_STRING, LengthPrefixed(bytes) + more) == SkippedTo(more);
    case Other32(tag, bytes) =>
      TagComesFirst(tag, WT_32BIT, bytes, more);
      assert (bytes + more)[4..] == more;
      assert SkipField(WT_32BIT, bytes + more) == SkippedTo(more);
  }

  lemma TagComesFirst(tag: nat, wireType: nat, body: Slice, more: Slice)
    requires 1 <= tag < 0x2000_0000 && wireType < 8
    ensures Tag(tag, wireType) + body != []
    ensures DecTag(Tag(tag, wireType) + body + more) == GotTag(tag, wireType, body + more)
  {
    hide DecTag, Tag;
    TagRoundTrip(tag, wireType, body + more);
    assert Tag(tag, wireType) + body + more == Tag(tag, wireType) + (body + more);
  }

  /** Fields that are not in the message leave it as it is. */
  lemma {:induction false} UnknownAreSkipped(fields: seq<Field>, slots: seq<Slot>, us: seq<Other>, more: Slice, seen: set<nat>)
    requires |slots| == |fields| && AllOthers(fields, us)
    ensures DecMessage(fields, slots, Others(us) + more, seen) == DecMessage(fields, slots, more, seen)
  {
    OthersAreSkippable(fields, us);
    SkippableAreSkipped(fields, slots, Others(us), more, seen);
  }

  lemma {:induction false} OthersAreSkippable(fields: seq<Field>, us: seq<Other>)
    requires AllOthers(fields, us)
    ensures Skippable(fields, Others(us))
  {
    hide DecTag, SkipField, OtherBytes, FindField;
    if us != [] {
      OthersAreSkippable(fields, us[1..]);
      OtherIsSkipped(us[0], fields, Others(us[1..]));
      NotFound(fields, us[0].tag);
    }
  }

  lemma NotFound(fields: seq<Field>, tag: nat)
    requires forall i :: 0 <= i < |fields| ==> fields[i].tag != tag
    ensures FindField(fields, tag) == |fields|
  {
  }

  // ------------------------------------------------------------------------ one field

  lemma {:induction false} FindsField(fields: seq<Field>, i: nat)
    requires i < |fields| && forall j :: 0 <= j < i ==> fields[j].tag != fields[i].tag
    ensures FindField(fields, fields[i].tag) == i
  {
    if i > 0 {
      FindsField(fields[1..], i - 1);
    }
  }

  /** One turn of the decoding loop on a field of the message. */
  lemma KnownField(l: LType, slots: seq<Slot>, i: nat, wireType: nat, body: Slice, seen: set<nat>)
    requires l.Submessage? && SchemaOk(l) && |slots| == |l.fields| && i < |l.fields| && wireType < 8
    ensures DecMessage(l.fields, slots, Tag(l.fields[i].tag, wireType) + body, seen) ==
      match DecField(l.fields, slots, i, wireType, body)
      case BadSlots => None
      case GotSlots(slots', rest) => DecMessage(l.fields, slots', rest, seen + {i})
  {
    hide DecTag, Tag, DecField, RequiredCount;
    TagRoundTrip(l.fields[i].tag, wireType, body);
    FindsField(l.fields, i);
  }

  lemma PackableIsNotEmpty(l: LType, v: Value)
    requires l.Packable() && ValueOk(l, v)
    ensures EncValue(l, v) != []
  {
  }

  /** The bytes of a message with junk before, between and after its fields. */
  function Mixed(fields: seq<Field>, m: Value, i: nat, junk: seq<Slice>): Slice
    requires m.Msg? && |m.slots| == |fields| && |junk| == |fields| + 1 && i <= |fields|
    decreases |fields| - i
  {
    if i == |fields| then junk[i] else junk[i] + (EncSlot(fields[i], m.slots[i]) + Mixed(fields, m, i + 1, junk))
  }

  lemma {:induction false} NoJunk(fields: seq<Field>, m: Value, i: nat, junk: seq<Slice>)
    requires m.Msg? && |m.slots| == |fields| && |junk| == |fields| + 1 && i <= |fields|
    requires forall j :: 0 <= j < |junk| ==> junk[j] == []
    ensures Mixed(fields, m, i, junk) == EncFields(fields, m, i)
    decreases |fields| - i
  {
    hide EncSlot;
    if i < |fields| {
      NoJunk(fields, m, i + 1, junk);
    }
  }

  ghost predicate Carried(l: LType, v: Value) { l.Submessage? && v.Msg? ==> |EncFields(l.fields, v, 0)| < TWO32 }

  /** The bytes of unknown fields before, between and after the fields of a message. */
  function OthersBetween(us: seq<seq<Other>>): (r: seq<Slice>)
    ensures |r| == |us| && forall i :: 0 <= i < |us| ==> r[i] == Others(us[i])
  {
    seq(|us|, i requires 0 <= i < |us| => Others(us[i]))
  }

  lemma EndOfInput(fields: seq<Field>, slots: seq<Slot>, seen: set<nat>)
    requires |slots| == |fields| && AllSeen(fields, seen)
    ensures DecMessage(fields, slots, [], seen) == Some(slots)
  {
  }

  lemma NothingUnknown(fields: seq<Field>)
    ensures Skippable(fields, [])
  {
  }
}
