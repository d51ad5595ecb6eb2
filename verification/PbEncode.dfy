/** The encoder over output streams: one pass that only counts, one that writes. */
module PbEncode {
  import opened Bytes
  import opened Coding
  import opened Pb

  /** A stream that counts only, or one that writes at most maxSize bytes. */
  class OStream {
    const sizing: bool
    const maxSize: nat
    var buffer: Slice
    var bytesWritten: nat

    constructor Sizing()
      ensures sizing && bytesWritten == 0 && Valid()
    {
      sizing, maxSize, buffer, bytesWritten := true, 0, [], 0;
    }

    /** A stream that writes behind what is in the buffer. */
    constructor Onto(buffer: Slice, maxSize: nat)
      ensures !sizing && this.buffer == buffer && this.maxSize == maxSize && bytesWritten == 0 && Valid()
    {
      sizing := false;
      this.buffer, this.maxSize, bytesWritten := buffer, maxSize, 0;
    }

    predicate Valid()
      reads this
    {
      !sizing ==> bytesWritten <= maxSize
    }

    predicate Fits(n: nat)
      reads this
    {
      sizing || bytesWritten + n <= maxSize
    }

    /** These bytes were written, or counted. */
    twostate predicate Wrote(bytes: Slice)
      reads this
    {
      bytesWritten == old(bytesWritten) + |bytes| && buffer == if sizing then old(buffer) else old(buffer) + bytes
    }

    method Write(bytes: Slice) returns (ok: bool)
      requires Valid()
      modifies this
      ensures Valid() && ok == old(Fits(|bytes|)) && (ok ==> Wrote(bytes))
    {
      if !sizing {
        if bytesWritten + |bytes| > maxSize {
          return false;
        }
        buffer := buffer + bytes;
      }
      bytesWritten := bytesWritten + |bytes|;
      ok := true;
    }

    /** Counts bytes that a sizing stream does not look at. */
    method WriteSize(ghost bytes: Slice, n: nat) returns (ok: bool)
      requires Valid() && sizing && n == |bytes|
      modifies this
      ensures Valid() && ok && Wrote(bytes)
    {
      bytesWritten := bytesWritten + n;
      ok := true;
    }

    method EncodeVarint(value: nat) returns (ok: bool)
      requires Valid()
      modifies this
      ensures Valid() && ok == old(Fits(|Varint(value)|)) && (ok ==> Wrote(Varint(value)))
    {
      hide Varint, DropTopBit;
      if value <= 0x7F {
        LastSeven(value);
        ok := Write([value]);
        return;
      }
      var bytes: Slice := [];
      var v := value;
      assert [] + Varint(value) == Varint(value);
      while v != 0
        invariant Valid() && buffer == old(buffer) && bytesWritten == old(bytesWritten)
        invariant Varint(value) == if v == 0 then DropTopBit(bytes) else bytes + Varint(v)
      {
        if v < 128 {
          LastSeven(v);
          TopBitDropped(bytes, v);
        } else {
          MoreSeven(bytes, v);
        }
        bytes := bytes + [v % 128 + 128];
        v := v / 128;
      }
      bytes := DropTopBit(bytes);
      ok := Write(bytes);
    }

    method EncodeString(bytes: Slice) returns (ok: bool)
      requires Valid()
      modifies this
      ensures Valid() && ok == old(Fits(|LengthPrefixed(bytes)|)) && (ok ==> Wrote(LengthPrefixed(bytes)))
    {
      hide Varint;
      ok := EncodeVarint(|bytes|);
      if ok {
        ok := Write(bytes);
      }
    }
  }

  function DropTopBit(bytes: Slice): Slice {
    if bytes == [] || bytes[|bytes| - 1] < 128 then bytes else bytes[..|bytes| - 1] + [bytes[|bytes| - 1] - 128]
  }

  lemma LastSeven(v: nat)
    requires v < 128
    ensures Varint(v) == [v] && v / 128 == 0
  {
  }

  lemma TopBitDropped(bytes: Slice, v: nat)
    requires v < 128
    ensures DropTopBit(bytes + [v % 128 + 128]) == bytes + [v]
  {
    var all := bytes + [v % 128 + 128];
    assert all[..|all| - 1] == bytes && all[|all| - 1] == v + 128;
  }

  lemma MoreSeven(bytes: Slice, v: nat)
    requires v >= 128
    ensures bytes + Varint(v) == bytes + [v % 128 + 128] + Varint(v / 128) && v / 128 != 0
  {
    assert Varint(v) == [v % 128 + 128] + Varint(v / 128);
  }

  /** One value without its tag. */
  method EncodeValue(stream: OStream, l: LType, v: Value) returns (ok: bool)
    requires stream.Valid() && ValueOk(l, v)
    modifies stream
    ensures stream.Valid() && ok == old(stream.Fits(|EncValue(l, v)|)) && (ok ==> stream.Wrote(EncValue(l, v)))
    decreases v, 5, 0
  {
    hide Varint, Half, SlotOk;
    match l
    case Int64(_) => ok := stream.EncodeVarint(Unsigned(v.i));
    case UInt64(_) => ok := stream.EncodeVarint(Unsigned(v.i));
    case SInt64(_) => ok := stream.EncodeVarint(ZigZag(v.i));
    case Fixed4 => ok := stream.Write(v.bytes);
    case Fixed8 => ok := stream.Write(v.bytes);
    case Submessage(fields) => ok := EncodeSubmessage(stream, l, v);
    case _ => ok := stream.EncodeString(v.bytes);
  }

  method EncodeTag(stream: OStream, tag: nat, wireType: nat) returns (ok: bool)
    requires stream.Valid()
    modifies stream
    ensures stream.Valid() && ok == old(stream.Fits(|Tag(tag, wireType)|)) && (ok ==> stream.Wrote(Tag(tag, wireType)))
  {
    ok := stream.EncodeVarint(tag * 8 + wireType);
  }

  /** A nested message: sized first, then written behind its length. The written size is the
      computed one, so the check for a changed size never fails. */
  method EncodeSubmessage(stream: OStream, l: LType, m: Value) returns (ok: bool)
    requires stream.Valid() && l.Submessage? && ValueOk(l, m)
    modifies stream
    ensures stream.Valid() && ok == old(stream.Fits(|LengthPrefixed(EncFields(l.fields, m, 0))|))
    ensures ok ==> stream.Wrote(LengthPrefixed(EncFields(l.fields, m, 0)))
    decreases m, 4, 0
  {
    hide Varint, EncFields, SlotOk;
    ghost var body := EncFields(l.fields, m, 0);
    var sub := new OStream.Sizing();
    ok := Encode(sub, l, m);
    var size := sub.bytesWritten;
    ok := stream.EncodeVarint(size);
    if !ok {
      return;
    }
    if stream.sizing {
      ok := stream.WriteSize(body, size);
      return;
    }
    if stream.bytesWritten + size > stream.maxSize {
      return false;
    }
    var writing := new OStream.Onto(stream.buffer, size);
    var status := Encode(writing, l, m);
    stream.bytesWritten := stream.bytesWritten + writing.bytesWritten;
    stream.buffer := writing.buffer;
    if writing.bytesWritten != size {
      assert false;
    }
    ok := status;
  }

  /** All fields of a message, in the order of their descriptors. */
  method Encode(stream: OStream, l: LType, m: Value) returns (ok: bool)
    requires stream.Valid() && l.Submessage? && ValueOk(l, m)
    modifies stream
    ensures stream.Valid() && ok == old(stream.Fits(|EncFields(l.fields, m, 0)|))
    ensures ok ==> stream.Wrote(EncFields(l.fields, m, 0))
    decreases m, 3, 0
  {
    hide EncSlot, EncFields, SlotOk, ValueOk;
    HasSlots(l, m);
    ghost var all := EncFields(l.fields, m, 0);
    ghost var written: Slice := [];
    for i := 0 to |l.fields|
      invariant stream.Valid() && all == written + EncFields(l.fields, m, i)
      invariant old(stream.Fits(|written|)) && stream.Wrote(written)
    {
      FieldsUnfold(l, m, i);
      ghost var part := EncSlot(l.fields[i], m.slots[i]);
      assert all == written + part + EncFields(l.fields, m, i + 1);
      ok := EncodeField(stream, l.fields[i], m.slots[i]);
      if !ok {
        return;
      }
      written := written + part;
    }
    FieldsUnfold(l, m, |l.fields|);
    ok := true;
  }

  lemma HasSlots(l: LType, m: Value)
    requires l.Submessage? && ValueOk(l, m)
    ensures m.Msg? && |m.slots| == |l.fields|
    ensures forall i :: 0 <= i < |l.fields| ==> SlotOk(l.fields[i], m.slots[i])
  {
    hide SlotOk;
  }

  lemma FieldsUnfold(l: LType, m: Value, i: nat)
    requires l.Submessage? && m.Msg? && |m.slots| == |l.fields|
    ensures i >= |l.fields| ==> EncFields(l.fields, m, i) == []
    ensures i < |l.fields| ==> EncFields(l.fields, m, i) == EncSlot(l.fields[i], m.slots[i]) + EncFields(l.fields, m, i + 1)
  {
    hide EncSlot;
  }

  /** A field that is there, with its tag. */
  method EncodeField(stream: OStream, f: Field, s: Slot) returns (ok: bool)
    requires stream.Valid() && SlotOk(f, s)
    modifies stream
    ensures stream.Valid() && ok == old(stream.Fits(|EncSlot(f, s)|)) && (ok ==> stream.Wrote(EncSlot(f, s)))
    decreases s, 5, 0
  {
    hide EncValue, ValueOk, EncItems, Varint;
    if s.items == [] {
      return true;
    }
    if f.htype.Repeated? && f.ltype.Packable() {
      ok := EncodePacked(stream, f, s);
    } else {
      ok := EncodeItems(stream, f, s, true);
    }
  }

  /** A packed array: tag, total size and items. The size of varints is found by a sizing pass. */
  method EncodePacked(stream: OStream, f: Field, s: Slot) returns (ok: bool)
    requires stream.Valid() && SlotOk(f, s) && f.ltype.Packable() && f.htype.Repeated? && s.items != []
    modifies stream
    ensures stream.Valid() && ok == old(stream.Fits(|EncSlot(f, s)|)) && (ok ==> stream.Wrote(EncSlot(f, s)))
    decreases s, 4, 0
  {
    hide EncValue, ValueOk, EncItems, Varint;
    ghost var body := EncItems(f.ltype, s, 0);
    ok := EncodeTag(stream, f.tag, WT_STRING);
    if !ok {
      return;
    }
    var size: nat;
    if f.ltype.Fixed4? {
      FixedSize(f.ltype, s, 0, 4);
      size := 4 * |s.items|;
    } else if f.ltype.Fixed8? {
      FixedSize(f.ltype, s, 0, 8);
      size := 8 * |s.items|;
    } else {
      var sub := new OStream.Sizing();
      ok := EncodeItems(sub, f, s, false);
      size := sub.bytesWritten;
    }
    ok := stream.EncodeVarint(size);
    if !ok {
      return;
    }
    if stream.sizing {
      ok := stream.WriteSize(body, size);
      return;
    }
    ok := EncodeItems(stream, f, s, false);
  }

  ghost function ItemBytes(f: Field, v: Value, tagged: bool): Slice {
    (if tagged then TagFor(f) else []) + EncValue(f.ltype, v)
  }

  /** The items of a slot from the j-th one on. */
  ghost function RestBytes(f: Field, s: Slot, j: nat, tagged: bool): Slice {
    if tagged then EncTagged(f, s, j) else EncItems(f.ltype, s, j)
  }

  lemma RestUnfolds(f: Field, s: Slot, j: nat, tagged: bool)
    ensures j >= |s.items| ==> RestBytes(f, s, j, tagged) == []
    ensures j < |s.items| ==> RestBytes(f, s, j, tagged) == ItemBytes(f, s.items[j], tagged) + RestBytes(f, s, j + 1, tagged)
  {
    hide EncValue, TagFor;
  }

  method EncodeItem(stream: OStream, f: Field, v: Value, tagged: bool) returns (ok: bool)
    requires stream.Valid() && ValueOk(f.ltype, v)
    modifies stream
    ensures stream.Valid() && ok == old(stream.Fits(|ItemBytes(f, v, tagged)|)) && (ok ==> stream.Wrote(ItemBytes(f, v, tagged)))
    decreases v, 6, 0
  {
    hide EncValue, ValueOk, Varint;
    if tagged {
      ok := EncodeTag(stream, f.tag, f.ltype.WireType());
      if !ok {
        return;
      }
    }
    ok := EncodeValue(stream, f.ltype, v);
  }

  /** The items one by one, each with its tag or all without. */
  method EncodeItems(stream: OStream, f: Field, s: Slot, tagged: bool) returns (ok: bool)
    requires stream.Valid() && SlotOk(f, s)
    modifies stream
    ensures stream.Valid() && ok == old(stream.Fits(|RestBytes(f, s, 0, tagged)|)) && (ok ==> stream.Wrote(RestBytes(f, s, 0, tagged)))
    decreases s, 3, 0
  {
    hide ItemBytes, RestBytes, ValueOk;
    ghost var all := RestBytes(f, s, 0, tagged);
    ghost var written: Slice := [];
    for j := 0 to |s.items|
      invariant stream.Valid() && all == written + RestBytes(f, s, j, tagged)
      invariant old(stream.Fits(|written|)) && stream.Wrote(written)
    {
      RestUnfolds(f, s, j, tagged);
      ghost var part := ItemBytes(f, s.items[j], tagged);
      assert all == written + part + RestBytes(f, s, j + 1, tagged);
      ok := EncodeItem(stream, f, s.items[j], tagged);
      if !ok {
        return;
      }
      written := written + part;
    }
    RestUnfolds(f, s, |s.items|, tagged);
    ok := true;
  }

  lemma {:induction false} FixedSize(l: LType, s: Slot, j: nat, n: nat)
    requires (l.Fixed4? && n == 4) || (l.Fixed8? && n == 8)
    requires j <= |s.items| && forall k :: 0 <= k < |s.items| ==> ValueOk(l, s.items[k])
    ensures |EncItems(l, s, j)| == n * (|s.items| - j)
    decreases |s.items| - j
  {
    if j < |s.items| {
      FixedSize(l, s, j + 1, n);
    }
  }

  /** The size that a sizing pass computes. */
  method GetEncodedSize(l: LType, m: Value) returns (size: nat)
    requires l.Submessage? && ValueOk(l, m)
    ensures size == |EncFields(l.fields, m, 0)|
  {
    var stream := new OStream.Sizing();
    var ok := Encode(stream, l, m);
    size := stream.bytesWritten;
  }

  /** Encoding into a buffer succeeds exactly if the computed size fits, and then fills the buffer
      with exactly that many bytes. */
  method EncodeToBuffer(l: LType, m: Value, bufSize: nat) returns (ok: bool, bytes: Slice)
    requires l.Submessage? && ValueOk(l, m)
    ensures ok <==> |EncFields(l.fields, m, 0)| <= bufSize
    ensures ok ==> bytes == EncFields(l.fields, m, 0)
  {
    var stream := new OStream.Onto([], bufSize);
    ok := Encode(stream, l, m);
    bytes := stream.buffer;
  }
}
