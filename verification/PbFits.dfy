/** What decoding leaves in a C struct fits there, whatever the input is. */
module PbFits {
  import opened Bytes
  import opened DbFormat
  import opened Coding
  import opened Pb
  import opened PbDecode

  /** Of the members of a oneof at most one has an item. */
  ghost predicate OneAtMost(fields: seq<Field>, slots: seq<Slot>)
    requires |slots| == |fields|
  {
    forall i, j :: 0 <= i < j < |fields| && SameOneOf(fields[i], fields[j]) ==> slots[i].items == [] || slots[j].items == []
  }

  /** A value that the C struct member holds: integers within their width, bytes within their array, and in a message no
      more items than there is room for and at most one member of each oneof. */
  ghost predicate Fits(l: LType, v: Value)
    decreases v
  {
    match l
    case Int64(bits) => v.Int? && -Half(bits) <= v.i < Half(bits)
    case SInt64(bits) => v.Int? && -Half(bits) <= v.i < Half(bits)
    case UInt64(bits) => v.Int? && 0 <= v.i < 2 * Half(bits)
    case Fixed4 => v.Raw? && |v.bytes| == 4
    case Fixed8 => v.Raw? && |v.bytes| == 8
    case BytesType(max) => v.Raw? && |v.bytes| <= max
    case StringType(size) => v.Raw? && |v.bytes| < size
    case FixedBytes(len) => v.Raw? && |v.bytes| == len
    case Submessage(fields) =>
      && v.Msg? && |v.slots| == |fields| && OneAtMost(fields, v.slots)
      && forall i :: 0 <= i < |fields| ==> SlotFits(fields[i], v.slots[i])
  }

  ghost predicate SlotFits(f: Field, s: Slot)
    decreases s
  {
    CountFits(f, |s.items|) && forall j :: 0 <= j < |s.items| ==> Fits(f.ltype, s.items[j])
  }

  predicate CountFits(f: Field, n: nat) {
    match f.htype
    case Required => n == 1
    case Optional => n <= 1
    case Repeated(max) => n <= max
    case OneOf(_) => n <= 1
  }

  /** The slots of a message as a value. */
  ghost predicate AllFit(l: LType, slots: seq<Slot>) { l.Submessage? && Fits(l, Msg(slots)) }

  lemma {:induction false} DefaultFits(l: LType)
    requires SchemaOk(l)
    ensures Fits(l, Default(l))
    decreases l
  {
    hide RequiredCount;
    if l.Submessage? {
      forall i | 0 <= i < |l.fields| ensures SlotFits(l.fields[i], Default(l).slots[i]) {
        DefaultFits(l.fields[i].ltype);
      }
    }
  }

  /** A well-formed value fits. */
  lemma {:induction false} OkFits(l: LType, v: Value)
    requires ValueOk(l, v)
    ensures Fits(l, v)
    decreases v, 1
  {
    hide SlotOk, SlotFits;
    if l.Submessage? {
      forall i | 0 <= i < |l.fields| ensures SlotFits(l.fields[i], v.slots[i]) {
        OkSlotFits(l.fields[i], v.slots[i]);
      }
    }
  }

  lemma {:induction false} OkSlotFits(f: Field, s: Slot)
    requires SlotOk(f, s)
    ensures SlotFits(f, s)
    decreases s, 0
  {
    forall j | 0 <= j < |s.items| ensures Fits(f.ltype, s.items[j]) {
      OkFits(f.ltype, s.items[j]);
    }
  }

  lemma ScalarFits(l: LType, input: Slice)
    requires SchemaOk(l) && DecScalar(l, input).GotValue?
    ensures Fits(l, DecScalar(l, input).value)
  {
    hide GetVarint32, GetVarint64, Signed, UnZigZag, Half;
  }

  lemma {:induction false} PackedFits(l: LType, items: seq<Value>, max: nat, input: Slice)
    requires SchemaOk(l) && l.Packable() && |items| <= max && (forall j :: 0 <= j < |items| ==> Fits(l, items[j]))
    requires DecPacked(l, items, max, input).GotItems?
    ensures var r := DecPacked(l, items, max, input).items; |r| <= max && forall j :: 0 <= j < |r| ==> Fits(l, r[j])
    decreases |input|, max - |items|
  {
    hide DecScalar, Fits;
    if input != [] {
      ScalarFits(l, input);
      var r := DecScalar(l, input);
      PackedFits(l, items + [r.value], max, r.rest);
    }
  }

  lemma {:induction false} ValueFits(l: LType, base: Value, input: Slice)
    requires SchemaOk(l) && DecValue(l, base, input).GotValue? && (l.Submessage? ==> Fits(l, base))
    ensures Fits(l, DecValue(l, base, input).value)
    decreases |input|, 3, 0
  {
    hide DecScalar, GetVarint32, DecMessage, SlotFits, OneAtMost;
    if !l.Submessage? {
      ScalarFits(l, input);
    } else {
      var n, rest := GetVarint32(input).value, GetVarint32(input).rest;
      assert base == Msg(base.slots);
      MessageFits(l, base.slots, rest[..n], {});
    }
  }

  /** Where a new item of a field starts from. */
  lemma BaseFits(l: LType, slots: seq<Slot>, i: nat)
    requires SchemaOk(l) && AllFit(l, slots) && i < |slots|
    ensures |slots| == |l.fields| && SchemaOk(l.fields[i].ltype)
    ensures Fits(l.fields[i].ltype, Base(l.fields[i], slots[i])) && Fits(l.fields[i].ltype, Default(l.fields[i].ltype))
  {
    hide RequiredCount;
    DefaultFits(l.fields[i].ltype);
    assert SlotFits(l.fields[i], slots[i]);
  }

  lemma SlotSetFits(l: LType, slots: seq<Slot>, i: nat, s: Slot)
    requires AllFit(l, slots) && i < |slots| && SlotFits(l.fields[i], s) && l.fields[i].htype.Repeated?
    ensures AllFit(l, slots[i := s])
  {
    hide SlotFits;
  }

  lemma ItemSetFits(l: LType, slots: seq<Slot>, i: nat, v: Value)
    requires AllFit(l, slots) && i < |slots| && Fits(l.fields[i].ltype, v) && !l.fields[i].htype.Repeated?
    ensures AllFit(l, ClearOthers(l.fields, slots, i)[i := Slot([v])])
  {
    hide Fits;
    SlotsFit(l, slots);
    var r := ClearOthers(l.fields, slots, i)[i := Slot([v])];
    forall j | 0 <= j < |r| ensures SlotFits(l.fields[j], r[j]) {
      assert SlotFits(l.fields[j], slots[j]);
    }
    FitTogether(l, r);
  }

  lemma SlotsFit(l: LType, slots: seq<Slot>)
    requires AllFit(l, slots)
    ensures |slots| == |l.fields| && OneAtMost(l.fields, slots) && forall i :: 0 <= i < |slots| ==> SlotFits(l.fields[i], slots[i])
  {
  }

  lemma FitTogether(l: LType, slots: seq<Slot>)
    requires l.Submessage? && |slots| == |l.fields| && OneAtMost(l.fields, slots)
    requires forall i :: 0 <= i < |slots| ==> SlotFits(l.fields[i], slots[i])
    ensures AllFit(l, slots)
  {
  }

  lemma {:induction false} FieldFits(l: LType, slots: seq<Slot>, i: nat, wireType: nat, input: Slice)
    requires l.Submessage? && SchemaOk(l) && AllFit(l, slots) && i < |slots| == |l.fields| && DecField(l.fields, slots, i, wireType, input).GotSlots?
    ensures AllFit(l, DecField(l.fields, slots, i, wireType, input).slots)
    decreases |input|, 4, 0
  {
    hide DecPacked, GetVarint32, DecValue, AllFit, Fits, Base, Default, ClearOthers;
    var f, s := l.fields[i], slots[i];
    BaseFits(l, slots, i);
    SlotsFit(l, slots);
    if f.htype.Repeated? && wireType == WT_STRING && f.ltype.Packable() {
      var n, rest := GetVarint32(input).value, GetVarint32(input).rest;
      PackedFits(f.ltype, s.items, f.htype.max, rest[..n]);
      SlotSetFits(l, slots, i, Slot(DecPacked(f.ltype, s.items, f.htype.max, rest[..n]).items));
    } else if f.htype.Repeated? {
      ValueFits(f.ltype, Default(f.ltype), input);
      SlotSetFits(l, slots, i, Slot(s.items + [DecValue(f.ltype, Default(f.ltype), input).value]));
    } else {
      ValueFits(f.ltype, Base(f, s), input);
      ItemSetFits(l, slots, i, DecValue(f.ltype, Base(f, s), input).value);
    }
  }

  lemma {:induction false} MessageFits(l: LType, slots: seq<Slot>, input: Slice, seen: set<nat>)
    requires l.Submessage? && SchemaOk(l) && AllFit(l, slots) && |slots| == |l.fields| && DecMessage(l.fields, slots, input, seen).Some?
    ensures AllFit(l, DecMessage(l.fields, slots, input, seen).value)
    decreases |input|, 5, 0
  {
    hide AllFit, DecTag, DecField, SkipField, AllSeen, SchemaOk;
    if input != [] && DecTag(input).GotTag? {
      var wireType, rest, i := DecTag(input).wireType, DecTag(input).rest, FindField(l.fields, DecTag(input).tag);
      if i == |l.fields| {
        MessageFits(l, slots, SkipField(wireType, rest).rest, seen);
      } else {
        var r := DecField(l.fields, slots, i, wireType, rest);
        FieldFits(l, slots, i, wireType, rest);
        MessageFits(l, r.slots, r.rest, seen + {i});
      }
    }
  }

  /** Whatever the input is, a decoded message fits the struct: nothing is written past an array or cut to a width, and a
      oneof has at most one member. */
  lemma DecodedFits(l: LType, input: Slice)
    requires l.Submessage? && SchemaOk(l) && Decode(l, input).Some?
    ensures Fits(l, Decode(l, input).value)
  {
    hide DecMessage, SchemaOk;
    DefaultFits(l);
    MessageFits(l, Default(l).slots, input, {});
  }
}
