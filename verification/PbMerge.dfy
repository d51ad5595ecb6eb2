/** Decoding messages written one behind the other merges them, field by field; one message by itself is restored. */
module PbMerge {
  import opened Bytes
  import opened DbFormat
  import opened Coding
  import opened Pb
  import opened PbDecode
  import opened PbFits
  import opened PbRoundTrip

  // --------------------------------------------------------------------------- merging

  /** A field before the i-th one that has an item puts field j out of its oneof. */
  predicate PutOut(fields: seq<Field>, b: seq<Slot>, i: nat, j: nat)
    requires |b| == |fields| && i <= |fields| && j < |fields|
  {
    exists k :: 0 <= k < i && k != j && SameOneOf(fields[k], fields[j]) && b[k].items != []
  }

  /** Field j after the fields of a message before the i-th one were merged into some slots: repeated fields are joined,
      nested messages merged, and of other fields the later item counts. */
  function MergedSlot(fields: seq<Field>, a: seq<Slot>, b: Value, i: nat, j: nat): Slot
    requires b.Msg? && |a| == |fields| == |b.slots| && i <= |fields| && j < |fields|
    decreases b, 1
  {
    var f, s := fields[j], b.slots[j];
    if j < i && s.items != [] then
      if f.htype.Repeated? then Slot(a[j].items + s.items)
      else if f.htype.OneOf? || a[j].items == [] then s
      else Slot([Merged(f.ltype, a[j].items[0], s.items[0])])
    else if PutOut(fields, b.slots, i, j) then Slot([])
    else a[j]
  }

  function MergedSlots(fields: seq<Field>, a: seq<Slot>, b: Value, i: nat): (r: seq<Slot>)
    requires b.Msg? && |a| == |fields| == |b.slots| && i <= |fields|
    ensures |r| == |fields|
    decreases b, 2
  {
    seq(|fields|, j requires 0 <= j < |fields| => MergedSlot(fields, a, b, i, j))
  }

  /** The later of two values, or two messages merged. */
  function Merged(l: LType, a: Value, b: Value): Value
    decreases b, 3
  {
    if l.Submessage? && a.Msg? && b.Msg? && |a.slots| == |l.fields| == |b.slots|
    then Msg(MergedSlots(l.fields, a.slots, b, |l.fields|)) else b
  }

  /** There is room for the joined repeated fields, at every depth. */
  ghost predicate Room(l: LType, a: Value, b: Value)
    decreases b, 2
  {
    l.Submessage? && a.Msg? && b.Msg? && |a.slots| == |l.fields| == |b.slots| ==> RoomFrom(l.fields, a.slots, b, 0)
  }

  ghost predicate RoomFrom(fields: seq<Field>, a: seq<Slot>, b: Value, i: nat)
    requires b.Msg? && |a| == |fields| == |b.slots|
    decreases b, 1
  {
    forall j :: i <= j < |fields| ==> RoomFor(fields[j], a[j], b.slots[j])
  }

  ghost predicate RoomFor(f: Field, r: Slot, s: Slot)
    decreases s, 1
  {
    if f.htype.Repeated? then s.items != [] ==> |r.items| + |s.items| <= f.htype.max
    else !f.htype.OneOf? && r.items != [] && s.items != [] ==> Room(f.ltype, r.items[0], s.items[0])
  }

  /** A message that may lack required fields. */
  ghost predicate PartOk(fields: seq<Field>, m: Value) {
    && m.Msg? && |m.slots| == |fields| && OneAtMost(fields, m.slots)
    && forall i :: 0 <= i < |fields| ==> m.slots[i].items == [] || SlotOk(fields[i], m.slots[i])
  }

  lemma OkIsPart(l: LType, m: Value)
    requires l.Submessage? && ValueOk(l, m)
    ensures PartOk(l.fields, m)
  {
    hide SlotOk;
  }

  // ------------------------------------------------------------- merging into defaults

  lemma {:induction false} MergedIntoDefault(l: LType, v: Value)
    requires ValueOk(l, v)
    ensures Room(l, Default(l), v) && Merged(l, Default(l), v) == v
    decreases v
  {
    hide SlotOk;
    if l.Submessage? {
      var a := Default(l).slots;
      forall j | 0 <= j < |l.fields| ensures RoomFor(l.fields[j], a[j], v.slots[j]) && MergedSlot(l.fields, a, v, |l.fields|, j) == v.slots[j] {
        SlotIntoDefault(l, v, j);
      }
    }
  }

  lemma {:induction false} SlotIntoDefault(l: LType, v: Value, j: nat)
    requires l.Submessage? && ValueOk(l, v) && j < |l.fields|
    ensures RoomFor(l.fields[j], Default(l).slots[j], v.slots[j])
    ensures MergedSlot(l.fields, Default(l).slots, v, |l.fields|, j) == v.slots[j]
    decreases v, 0
  {
    var f, s := l.fields[j], v.slots[j];
    assert SlotOk(f, s);
    if f.htype.Required? {
      MergedIntoDefault(f.ltype, s.items[0]);
    } else if s.items != [] && f.htype.Repeated? {
      assert [] + s.items == s.items;
    }
  }

  // ------------------------------------------------------------- what one field does

  /** The slots after one field of a message. */
  function Taken(fields: seq<Field>, slots: seq<Slot>, i: nat, s: Slot): (r: seq<Slot>)
    requires |slots| == |fields| && i < |fields|
    ensures |r| == |fields|
  {
    var f := fields[i];
    if s.items == [] then slots
    else if f.htype.Repeated? then slots[i := Slot(slots[i].items + s.items)]
    else ClearOthers(fields, slots, i)[i := Slot([if f.htype.OneOf? || slots[i].items == [] then s.items[0]
                                                  else Merged(f.ltype, slots[i].items[0], s.items[0])])]
  }

  /** A value is merged into the one before it if there is room, and the bytes after it are left. */
  lemma {:induction false} ValueMerges(l: LType, v: Value, base: Value, rest: Slice)
    requires SchemaOk(l) && ValueOk(l, v) && Carried(l, v) && (l.Submessage? ==> Fits(l, base))
    ensures DecValue(l, base, EncValue(l, v) + rest) == if Room(l, base, v) then GotValue(Merged(l, base, v), rest) else BadValue
    decreases v, 5, 0
  {
    hide DecScalar, Varint, GetVarint32, SlotOk, SlotFits, RequiredCount, MergedSlots, RoomFrom;
    if !l.Submessage? {
      ScalarRoundTrip(l, v, rest);
    } else {
      var body := EncFields(l.fields, v, 0);
      assert EncValue(l, v) + rest == Varint(|body|) + (body + rest);
      Varint32RoundTrip(|body|, body + rest);
      assert (body + rest)[..|body|] == body && (body + rest)[|body|..] == rest;
      OkIsPart(l, v);
      WholeMerges(l, base.slots, v);
    }
  }

  /** The bytes of a message by themselves. */
  lemma {:induction false} WholeMerges(l: LType, slots: seq<Slot>, m: Value)
    requires l.Submessage? && SchemaOk(l) && ValueOk(l, m) && PartOk(l.fields, m) && AllFit(l, slots) && |slots| == |l.fields|
    ensures DecMessage(l.fields, slots, EncFields(l.fields, m, 0), {})
      == if RoomFrom(l.fields, slots, m, 0) then Some(MergedSlots(l.fields, slots, m, |l.fields|)) else None
    decreases m, 4, |l.fields| + 1
  {
    hide DecMessage, RoomFrom, MergedSlots, PartOk, AllFit, Mixed, Skippable, SchemaOk;
    var none := seq(|l.fields| + 1, _ => []);
    NothingUnknown(l.fields);
    NoJunk(l.fields, m, 0, none);
    NothingMerged(l, slots, m);
    PartMerges(l, slots, m, 0, slots, none, [], {});
    assert EncFields(l.fields, m, 0) + [] == EncFields(l.fields, m, 0);
    RequiredSeen(l, m);
    EndOfInput(l.fields, MergedSlots(l.fields, slots, m, |l.fields|), {} + SeenFrom(m, 0));
  }

  /** The fields of a message from the i-th one on that are there. */
  ghost function SeenFrom(m: Value, i: nat): set<nat>
    requires m.Msg?
  {
    set k | i <= k < |m.slots| && m.slots[k].items != []
  }

  lemma RequiredSeen(l: LType, m: Value)
    requires l.Submessage? && ValueOk(l, m)
    ensures AllSeen(l.fields, {} + SeenFrom(m, 0))
  {
    forall i | 0 <= i < |l.fields| && l.fields[i].htype.Required? ensures i in SeenFrom(m, 0) {
      assert SlotOk(l.fields[i], m.slots[i]);
    }
  }

  lemma NothingMerged(l: LType, slots: seq<Slot>, m: Value)
    requires m.Msg? && l.Submessage? && |slots| == |l.fields| == |m.slots|
    ensures MergedSlots(l.fields, slots, m, 0) == slots
  {
  }

  /** One item of a repeated field that is sent with its tag. */
  lemma {:induction false} RepeatedItem(l: LType, slots: seq<Slot>, i: nat, s: Slot, j: nat, body: Slice)
    requires l.Submessage? && SchemaOk(l) && AllFit(l, slots) && i < |l.fields| == |slots| && j < |s.items| && SlotOk(l.fields[i], s)
    requires l.fields[i].htype.Repeated? && !l.fields[i].ltype.Packable()
    ensures var f := l.fields[i];
      DecField(l.fields, slots, i, f.ltype.WireType(), EncValue(f.ltype, s.items[j]) + body)
      == if |slots[i].items| < f.htype.max then GotSlots(slots[i := Slot(slots[i].items + [s.items[j]])], body) else BadSlots
    decreases s, 2, 0
  {
    hide DecValue, EncValue, RequiredCount, Fits, Room, Merged;
    var f := l.fields[i];
    assert ValueOk(f.ltype, s.items[j]) && Carried(f.ltype, s.items[j]);
    BaseFits(l, slots, i);
    ValueMerges(f.ltype, s.items[j], Default(f.ltype), body);
    MergedIntoDefault(f.ltype, s.items[j]);
  }

  /** The item of a field that has only one. */
  lemma {:induction false} SingleItem(l: LType, slots: seq<Slot>, i: nat, s: Slot, body: Slice)
    requires l.Submessage? && SchemaOk(l) && AllFit(l, slots) && i < |l.fields| == |slots| && s.items != [] && SlotOk(l.fields[i], s)
    requires !l.fields[i].htype.Repeated?
    ensures var f := l.fields[i];
      DecField(l.fields, slots, i, f.ltype.WireType(), EncValue(f.ltype, s.items[0]) + body)
      == if RoomFor(f, slots[i], s) then GotSlots(Taken(l.fields, slots, i, s), body) else BadSlots
    decreases s, 2, 0
  {
    hide DecValue, EncValue, RequiredCount, Fits, Room, Merged, ClearOthers;
    var f := l.fields[i];
    assert ValueOk(f.ltype, s.items[0]) && Carried(f.ltype, s.items[0]);
    BaseFits(l, slots, i);
    ValueMerges(f.ltype, s.items[0], Base(f, slots[i]), body);
    MergedIntoDefault(f.ltype, s.items[0]);
  }

  lemma {:induction false} RepeatedMerges(l: LType, slots: seq<Slot>, i: nat, s: Slot, j: nat, more: Slice, seen: set<nat>)
    requires l.Submessage? && SchemaOk(l) && AllFit(l, slots) && i < |l.fields| == |slots| && j < |s.items| && SlotOk(l.fields[i], s)
    requires l.fields[i].htype.Repeated? && !l.fields[i].ltype.Packable()
    ensures DecMessage(l.fields, slots, EncTagged(l.fields[i], s, j) + more, seen)
      == if |slots[i].items| + |s.items| - j <= l.fields[i].htype.max
         then DecMessage(l.fields, slots[i := Slot(slots[i].items + s.items[j..])], more, seen + {i}) else None
    decreases s, 3, |s.items| - j
  {
    hide DecMessage, DecField, EncValue, Tag, SlotOk, AllFit, SchemaOk;
    var f := l.fields[i];
    var next := EncTagged(f, s, j + 1) + more;
    assert EncTagged(f, s, j) + more == Tag(f.tag, f.ltype.WireType()) + (EncValue(f.ltype, s.items[j]) + next);
    KnownField(l, slots, i, f.ltype.WireType(), EncValue(f.ltype, s.items[j]) + next, seen);
    RepeatedItem(l, slots, i, s, j, next);
    if |slots[i].items| < f.htype.max {
      var slots' := slots[i := Slot(slots[i].items + [s.items[j]])];
      FieldFits(l, slots, i, f.ltype.WireType(), EncValue(f.ltype, s.items[j]) + next);
      assert slots[i].items + [s.items[j]] + s.items[j + 1..] == slots[i].items + s.items[j..];
      if j + 1 < |s.items| {
        RepeatedMerges(l, slots', i, s, j + 1, more, seen + {i});
        assert slots'[i := Slot(slots[i].items + s.items[j..])] == slots[i := Slot(slots[i].items + s.items[j..])];
        assert seen + {i} + {i} == seen + {i};
      } else {
        assert s.items[j..] == [s.items[j]] && next == more;
      }
    }
  }

  lemma {:induction false} PackedMerges(l: LType, items: seq<Value>, max: nat, s: Slot, j: nat)
    requires l.Packable() && SchemaOk(l) && j <= |s.items| && |items| <= max
    requires forall k :: 0 <= k < |s.items| ==> ValueOk(l, s.items[k])
    ensures DecPacked(l, items, max, EncItems(l, s, j))
      == if |items| + |s.items| - j <= max then GotItems(items + s.items[j..]) else BadItems
    decreases |s.items| - j
  {
    hide DecScalar, EncValue;
    if j < |s.items| {
      PackableIsNotEmpty(l, s.items[j]);
      ScalarRoundTrip(l, s.items[j], EncItems(l, s, j + 1));
      if |items| < max {
        PackedMerges(l, items + [s.items[j]], max, s, j + 1);
        assert items + [s.items[j]] + s.items[j + 1..] == items + s.items[j..];
      }
    } else {
      assert items + s.items[j..] == items;
    }
  }

  lemma PackedFieldMerges(l: LType, slots: seq<Slot>, i: nat, s: Slot, more: Slice, seen: set<nat>)
    requires l.Submessage? && SchemaOk(l) && AllFit(l, slots) && i < |l.fields| == |slots| && s.items != [] && SlotOk(l.fields[i], s)
    requires l.fields[i].htype.Repeated? && l.fields[i].ltype.Packable()
    ensures DecMessage(l.fields, slots, EncSlot(l.fields[i], s) + more, seen)
      == if |slots[i].items| + |s.items| <= l.fields[i].htype.max
         then DecMessage(l.fields, slots[i := Slot(slots[i].items + s.items)], more, seen + {i}) else None
  {
    hide DecMessage, EncItems, Varint, GetVarint32, Tag, DecPacked, RequiredCount, Fits;
    var f := l.fields[i];
    var body := EncItems(f.ltype, s, 0);
    assert EncSlot(f, s) + more == Tag(f.tag, WT_STRING) + (Varint(|body|) + (body + more));
    KnownField(l, slots, i, WT_STRING, Varint(|body|) + (body + more), seen);
    Varint32RoundTrip(|body|, body + more);
    assert (body + more)[..|body|] == body && (body + more)[|body|..] == more;
    SlotsFit(l, slots);
    assert SlotFits(f, slots[i]);
    PackedMerges(f.ltype, slots[i].items, f.htype.max, s, 0);
    assert s.items[0..] == s.items;
  }

  /** One field of a message. */
  lemma {:induction false} SlotMerges(l: LType, slots: seq<Slot>, i: nat, s: Slot, more: Slice, seen: set<nat>)
    requires l.Submessage? && SchemaOk(l) && AllFit(l, slots) && i < |l.fields| == |slots| && (s.items == [] || SlotOk(l.fields[i], s))
    ensures DecMessage(l.fields, slots, EncSlot(l.fields[i], s) + more, seen)
      == if RoomFor(l.fields[i], slots[i], s)
         then DecMessage(l.fields, Taken(l.fields, slots, i, s), more, if s.items == [] then seen else seen + {i}) else None
    ensures RoomFor(l.fields[i], slots[i], s) ==> AllFit(l, Taken(l.fields, slots, i, s))
    decreases s, 4, 0
  {
    hide DecMessage, DecField, EncValue, Tag, EncTagged, SlotOk, AllFit, SchemaOk, Room, Merged, ClearOthers;
    var f := l.fields[i];
    if s.items == [] {
      assert [] + more == more;
    } else if f.htype.Repeated? {
      JoinedFits(l, slots, i, s);
      if f.ltype.Packable() {
        PackedFieldMerges(l, slots, i, s, more, seen);
      } else {
        assert s.items[0..] == s.items;
        RepeatedMerges(l, slots, i, s, 0, more, seen);
      }
    } else {
      SingleMerges(l, slots, i, s, more, seen);
    }
  }

  lemma JoinedFits(l: LType, slots: seq<Slot>, i: nat, s: Slot)
    requires l.Submessage? && AllFit(l, slots) && i < |l.fields| == |slots| && SlotOk(l.fields[i], s) && l.fields[i].htype.Repeated?
    ensures |slots[i].items| + |s.items| <= l.fields[i].htype.max ==> AllFit(l, slots[i := Slot(slots[i].items + s.items)])
  {
    hide Fits, SlotOk;
    OkSlotFits(l.fields[i], s);
    SlotsFit(l, slots);
    assert SlotFits(l.fields[i], slots[i]);
    if |slots[i].items| + |s.items| <= l.fields[i].htype.max {
      SlotSetFits(l, slots, i, Slot(slots[i].items + s.items));
    }
  }

  lemma {:induction false} SingleMerges(l: LType, slots: seq<Slot>, i: nat, s: Slot, more: Slice, seen: set<nat>)
    requires l.Submessage? && SchemaOk(l) && AllFit(l, slots) && i < |l.fields| == |slots| && s.items != [] && SlotOk(l.fields[i], s)
    requires !l.fields[i].htype.Repeated?
    ensures DecMessage(l.fields, slots, EncSlot(l.fields[i], s) + more, seen)
      == if RoomFor(l.fields[i], slots[i], s) then DecMessage(l.fields, Taken(l.fields, slots, i, s), more, seen + {i}) else None
    ensures RoomFor(l.fields[i], slots[i], s) ==> AllFit(l, Taken(l.fields, slots, i, s))
    decreases s, 3, 0
  {
    hide DecMessage, DecField, EncValue, Tag, AllFit, SchemaOk, RoomFor, Taken;
    var f := l.fields[i];
    OneItem(f, s);
    var body := EncValue(f.ltype, s.items[0]) + more;
    assert EncSlot(f, s) + more == Tag(f.tag, f.ltype.WireType()) + body;
    KnownField(l, slots, i, f.ltype.WireType(), body, seen);
    SingleItem(l, slots, i, s, more);
    if RoomFor(f, slots[i], s) {
      FieldFits(l, slots, i, f.ltype.WireType(), body);
    }
  }

  lemma OneItem(f: Field, s: Slot)
    requires s.items != [] && SlotOk(f, s) && !f.htype.Repeated?
    ensures EncSlot(f, s) == TagFor(f) + EncValue(f.ltype, s.items[0])
  {
    hide EncValue, TagFor;
    assert EncTagged(f, s, 1) == [];
  }

  /** Taking in one more field of a part. */
  lemma TakenIsMerged(l: LType, a: seq<Slot>, m: Value, i: nat)
    requires l.Submessage? && PartOk(l.fields, m) && |a| == |l.fields| && i < |l.fields|
    ensures Taken(l.fields, MergedSlots(l.fields, a, m, i), i, m.slots[i]) == MergedSlots(l.fields, a, m, i + 1)
    ensures RoomFor(l.fields[i], MergedSlots(l.fields, a, m, i)[i], m.slots[i]) <==> RoomFor(l.fields[i], a[i], m.slots[i])
  {
    hide Taken, Merged, Room, PartOk, RoomFor;
    PartShape(l.fields, m);
    var slots, next := MergedSlots(l.fields, a, m, i), MergedSlots(l.fields, a, m, i + 1);
    var taken := Taken(l.fields, slots, i, m.slots[i]);
    OnlyOneOfsPutOut(l.fields, m.slots, i);
    forall j | 0 <= j < |next| ensures taken[j] == next[j] {
      TakenAt(l, a, m, i, j);
    }
    assert slots[i] == MergedSlot(l.fields, a, m, i, i);
    SameRoom(l.fields[i], slots[i], a[i], m.slots[i]);
  }

  lemma SameRoom(f: Field, r: Slot, r': Slot, s: Slot)
    requires r == r' || f.htype.OneOf?
    ensures RoomFor(f, r, s) <==> RoomFor(f, r', s)
  {
  }

  lemma TakenAt(l: LType, a: seq<Slot>, m: Value, i: nat, j: nat)
    requires l.Submessage? && PartOk(l.fields, m) && |a| == |l.fields| && i < |l.fields| && j < |l.fields|
    ensures Taken(l.fields, MergedSlots(l.fields, a, m, i), i, m.slots[i])[j] == MergedSlot(l.fields, a, m, i + 1, j)
  {
    hide SlotOk, Merged;
    OnlyOneOfsPutOut(l.fields, m.slots, i);
    PutOutStep(l.fields, m.slots, i, j);
    AtMostOne(l.fields, m, i);
    if j != i && m.slots[i].items != [] && SameOneOf(l.fields[i], l.fields[j]) {
      OthersEmpty(l.fields, m, i, j);
    }
  }

  lemma AtMostOne(fields: seq<Field>, m: Value, i: nat)
    requires PartOk(fields, m) && i < |fields|
    ensures m.slots[i].items != [] && !fields[i].htype.Repeated? ==> m.slots[i] == Slot([m.slots[i].items[0]])
  {
    assert m.slots[i].items == [] || SlotOk(fields[i], m.slots[i]);
  }

  lemma OthersEmpty(fields: seq<Field>, m: Value, i: nat, j: nat)
    requires PartOk(fields, m) && i < |fields| && j < |fields| && i != j && SameOneOf(fields[i], fields[j]) && m.slots[i].items != []
    ensures m.slots[j].items == []
  {
    hide SlotOk;
    assert SameOneOf(fields[j], fields[i]);
  }

  lemma OnlyOneOfsPutOut(fields: seq<Field>, b: seq<Slot>, i: nat)
    requires |b| == |fields| && i <= |fields|
    ensures forall j :: 0 <= j < |fields| && PutOut(fields, b, i, j) ==> fields[j].htype.OneOf?
  {
  }

  lemma PutOutStep(fields: seq<Field>, b: seq<Slot>, i: nat, j: nat)
    requires |b| == |fields| && i < |fields| && j < |fields|
    ensures PutOut(fields, b, i + 1, j) <==> PutOut(fields, b, i, j) || (i != j && SameOneOf(fields[i], fields[j]) && b[i].items != [])
  {
  }

  /** A part of a message with unknown fields anywhere between its fields is merged field by field. */
  lemma {:induction false} PartMerges(l: LType, a: seq<Slot>, m: Value, i: nat, slots: seq<Slot>, junk: seq<Slice>, more: Slice, seen: set<nat>)
    requires l.Submessage? && SchemaOk(l) && PartOk(l.fields, m) && |a| == |l.fields| == |slots| && i <= |l.fields|
    requires slots == MergedSlots(l.fields, a, m, i) && AllFit(l, slots)
    requires |junk| == |l.fields| + 1 && forall j :: 0 <= j < |junk| ==> Skippable(l.fields, junk[j])
    ensures DecMessage(l.fields, slots, Mixed(l.fields, m, i, junk) + more, seen)
      == if RoomFrom(l.fields, a, m, i) then DecMessage(l.fields, MergedSlots(l.fields, a, m, |l.fields|), more, seen + SeenFrom(m, i)) else None
    ensures RoomFrom(l.fields, a, m, i) ==> AllFit(l, MergedSlots(l.fields, a, m, |l.fields|))
    decreases m, 4, |l.fields| - i
  {
    hide EncSlot, Skippable, DecMessage, SchemaOk, AllFit, MergedSlots, RoomFor, Taken, SlotOk;
    var rest := Mixed(l.fields, m, i, junk) + more;
    if i == |l.fields| {
      SkippableAreSkipped(l.fields, slots, junk[i], more, seen);
      assert seen + SeenFrom(m, i) == seen;
    } else {
      var s := m.slots[i];
      var next := Mixed(l.fields, m, i + 1, junk) + more;
      var here := EncSlot(l.fields[i], s) + next;
      assert rest == junk[i] + here;
      SkippableAreSkipped(l.fields, slots, junk[i], here, seen);
      SlotMerges(l, slots, i, s, next, seen);
      TakenIsMerged(l, a, m, i);
      var seen' := if s.items == [] then seen else seen + {i};
      assert seen' + SeenFrom(m, i + 1) == seen + SeenFrom(m, i);
      if RoomFor(l.fields[i], a[i], s) {
        PartMerges(l, a, m, i + 1, Taken(l.fields, slots, i, s), junk, more, seen');
      }
    }
  }

  // --------------------------------------------------------------------- several parts

  /** A part of a message, and unknown fields before, between and after its fields. */
  datatype Part = Part(m: Value, others: seq<seq<Other>>)

  ghost predicate IsPart(fields: seq<Field>, p: Part) {
    && PartOk(fields, p.m) && |p.others| == |fields| + 1
    && forall j :: 0 <= j < |p.others| ==> AllOthers(fields, p.others[j])
  }

  ghost predicate AreParts(fields: seq<Field>, parts: seq<Part>) { forall i :: 0 <= i < |parts| ==> IsPart(fields, parts[i]) }

  ghost function BytesOf(fields: seq<Field>, parts: seq<Part>): Slice
    requires AreParts(fields, parts)
  {
    if parts == [] then [] else Mixed(fields, parts[0].m, 0, OthersBetween(parts[0].others)) + BytesOf(fields, parts[1..])
  }

  /** The parts merged in order, if there is room. */
  ghost function MergedParts(l: LType, base: Value, parts: seq<Part>): Option<Value>
    decreases |parts|
  {
    if parts == [] then Some(base)
    else if Room(l, base, parts[0].m) then MergedParts(l, Merged(l, base, parts[0].m), parts[1..]) else None
  }

  /** The fields that have an item in one of the parts. */
  ghost function SeenIn(parts: seq<Part>): set<nat> {
    if parts == [] then {} else (if parts[0].m.Msg? then SeenFrom(parts[0].m, 0) else {}) + SeenIn(parts[1..])
  }

  /** Every required field is in one of the parts. */
  ghost predicate Complete(fields: seq<Field>, parts: seq<Part>)
    requires AreParts(fields, parts)
  {
    forall i :: 0 <= i < |fields| && fields[i].htype.Required? ==> exists k :: 0 <= k < |parts| && parts[k].m.slots[i].items != []
  }

  lemma PartShape(fields: seq<Field>, m: Value)
    requires PartOk(fields, m)
    ensures m.Msg? && |m.slots| == |fields|
  {
  }

  lemma {:induction false} PartsMerge(l: LType, base: Value, parts: seq<Part>, more: Slice, seen: set<nat>)
    requires l.Submessage? && SchemaOk(l) && AreParts(l.fields, parts) && Fits(l, base)
    ensures MergedParts(l, base, parts).Some? ==> Fits(l, MergedParts(l, base, parts).value)
    ensures DecMessage(l.fields, base.slots, BytesOf(l.fields, parts) + more, seen)
      == if MergedParts(l, base, parts).None? then None
         else DecMessage(l.fields, MergedParts(l, base, parts).value.slots, more, seen + SeenIn(parts))
    decreases |parts|
  {
    hide DecMessage, SchemaOk, MergedSlots, RoomFrom, SlotFits, OneAtMost, Mixed, AllOthers, PartOk, Skippable;
    var fields := l.fields;
    if parts == [] {
      assert [] + more == more && seen + {} == seen;
    } else {
      var p := parts[0];
      assert IsPart(fields, p);
      var junk := OthersBetween(p.others);
      forall j | 0 <= j < |junk| ensures Skippable(fields, junk[j]) {
        OthersAreSkippable(fields, p.others[j]);
      }
      PartShape(fields, p.m);
      NothingMerged(l, base.slots, p.m);
      assert base == Msg(base.slots);
      var rest := BytesOf(fields, parts[1..]) + more;
      assert BytesOf(fields, parts) + more == Mixed(fields, p.m, 0, junk) + rest;
      PartMerges(l, base.slots, p.m, 0, base.slots, junk, rest, seen);
      if Room(l, base, p.m) {
        PartsMerge(l, Merged(l, base, p.m), parts[1..], more, seen + SeenFrom(p.m, 0));
        assert seen + SeenFrom(p.m, 0) + SeenIn(parts[1..]) == seen + SeenIn(parts);
      }
    }
  }

  lemma {:induction false} SeenInParts(fields: seq<Field>, parts: seq<Part>, i: nat)
    requires AreParts(fields, parts) && i < |fields|
    ensures i in SeenIn(parts) <==> exists k :: 0 <= k < |parts| && parts[k].m.slots[i].items != []
    decreases |parts|
  {
    hide SlotOk, AllOthers, OneAtMost;
    if parts != [] {
      var rest := parts[1..];
      assert IsPart(fields, parts[0]);
      SeenInParts(fields, rest, i);
      if k :| 0 <= k < |parts| && parts[k].m.slots[i].items != [] && k > 0 {
        assert rest[k - 1].m.slots[i].items != [];
      }
      if k :| 0 <= k < |rest| && rest[k].m.slots[i].items != [] {
        assert parts[k + 1].m.slots[i].items != [];
      }
    }
  }

  lemma CompleteIsSeen(fields: seq<Field>, parts: seq<Part>)
    requires AreParts(fields, parts)
    ensures Complete(fields, parts) <==> AllSeen(fields, {} + SeenIn(parts))
  {
    hide SeenIn, SlotOk, AllOthers, OneAtMost;
    forall i | 0 <= i < |fields|
      ensures i in {} + SeenIn(parts) <==> exists k :: 0 <= k < |parts| && parts[k].m.slots[i].items != [] {
      SeenInParts(fields, parts, i);
    }
  }

  lemma MessageEnds(fields: seq<Field>, slots: seq<Slot>, seen: set<nat>)
    requires |slots| == |fields|
    ensures DecMessage(fields, slots, [], seen) == if AllSeen(fields, seen) then Some(slots) else None
  {
  }

  /** Decoding parts of a message one behind the other, each with any unknown fields in it, gives the parts merged in order
      if every required field is in one of them and there is room for the items, and otherwise fails. */
  lemma PartsDecode(l: LType, parts: seq<Part>)
    requires l.Submessage? && SchemaOk(l) && AreParts(l.fields, parts)
    ensures Decode(l, BytesOf(l.fields, parts)) == if Complete(l.fields, parts) then MergedParts(l, Default(l), parts) else None
  {
    hide DecMessage, SchemaOk, MergedParts, Complete, BytesOf, AreParts, SlotFits, OneAtMost, SeenIn;
    DefaultFits(l);
    PartsMerge(l, Default(l), parts, [], {});
    assert BytesOf(l.fields, parts) + [] == BytesOf(l.fields, parts);
    CompleteIsSeen(l.fields, parts);
    if MergedParts(l, Default(l), parts).Some? {
      MessageEnds(l.fields, MergedParts(l, Default(l), parts).value.slots, {} + SeenIn(parts));
    }
  }

  /** A zero byte ends the message, whatever follows. */
  lemma ZeroEnds(l: LType, parts: seq<Part>, junk: Slice)
    requires l.Submessage? && SchemaOk(l) && AreParts(l.fields, parts)
    ensures Decode(l, BytesOf(l.fields, parts) + ([0] + junk)) == Decode(l, BytesOf(l.fields, parts))
  {
    hide DecMessage, SchemaOk, MergedParts, BytesOf, AreParts, SlotFits, OneAtMost, SeenIn, AllSeen;
    DefaultFits(l);
    PartsMerge(l, Default(l), parts, [0] + junk, {});
    PartsMerge(l, Default(l), parts, [], {});
    assert BytesOf(l.fields, parts) + [] == BytesOf(l.fields, parts);
    if MergedParts(l, Default(l), parts).Some? {
      EndsAtZero(l.fields, MergedParts(l, Default(l), parts).value.slots, junk, {} + SeenIn(parts));
    }
  }

  lemma EndsAtZero(fields: seq<Field>, slots: seq<Slot>, junk: Slice, seen: set<nat>)
    requires |slots| == |fields|
    ensures DecMessage(fields, slots, [0] + junk, seen) == DecMessage(fields, slots, [], seen)
  {
    hide AllSeen;
    assert DecTag([0] + junk) == EndOfMessage;
  }

  /** Input that ends in the middle of a tag ends there, as if the tag had not begun. */
  lemma CutTagEnds(l: LType, parts: seq<Part>, tag: nat, wireType: nat, n: nat)
    requires l.Submessage? && SchemaOk(l) && AreParts(l.fields, parts)
    requires 1 <= tag < 0x2000_0000 && wireType < 8 && n < |Tag(tag, wireType)|
    ensures Decode(l, BytesOf(l.fields, parts) + Tag(tag, wireType)[..n]) == Decode(l, BytesOf(l.fields, parts))
  {
    hide DecMessage, SchemaOk, MergedParts, BytesOf, AreParts, SlotFits, OneAtMost, SeenIn, AllSeen;
    DefaultFits(l);
    PartsMerge(l, Default(l), parts, Tag(tag, wireType)[..n], {});
    PartsMerge(l, Default(l), parts, [], {});
    assert BytesOf(l.fields, parts) + [] == BytesOf(l.fields, parts);
    if MergedParts(l, Default(l), parts).Some? {
      EndsInTag(l.fields, MergedParts(l, Default(l), parts).value.slots, tag, wireType, n, {} + SeenIn(parts));
    }
  }

  lemma EndsInTag(fields: seq<Field>, slots: seq<Slot>, tag: nat, wireType: nat, n: nat, seen: set<nat>)
    requires |slots| == |fields| && 1 <= tag < 0x2000_0000 && wireType < 8 && n < |Tag(tag, wireType)|
    ensures DecMessage(fields, slots, Tag(tag, wireType)[..n], seen) == DecMessage(fields, slots, [], seen)
  {
    hide AllSeen, Varint, GetDigits, Pow;
    VarintWidths();
    VarintLength(tag * 8 + wireType, 5);
    TruncatedVarint(tag * 8 + wireType, n, 5);
  }

  // ---------------------------------------------------------------------- cut off fields

  /** The beginning of an encoded value, cut off before its end, is no value. */
  lemma CutValue(l: LType, v: Value, base: Value, n: nat)
    requires SchemaOk(l) && ValueOk(l, v) && Carried(l, v) && n < |EncValue(l, v)|
    ensures DecValue(l, base, EncValue(l, v)[..n]) == BadValue
  {
    hide Varint, GetDigits, DecMessage, EncFields, LengthPrefixed, SlotOk, RequiredCount, Half;
    match v {
    case Int(i) =>
      if l.SInt64? {
        TruncatedVarint(ZigZag(i), n, 10);
      } else {
        TruncatedVarint(Unsigned(i), n, 10);
      }
    case Raw(bytes) =>
      if !l.Fixed4? && !l.Fixed8? {
        CutLength(bytes, n);
      }
    case Msg(_) =>
      CutLength(EncFields(l.fields, v, 0), n);
    }
  }

  lemma CutLength(s: Slice, n: nat)
    requires |s| < TWO32 && n < |LengthPrefixed(s)|
    ensures var input := LengthPrefixed(s)[..n];
      GetVarint32(input).Got? ==> GetVarint32(input).value == |s| > |GetVarint32(input).rest|
  {
    hide Varint, GetDigits;
    var head := Varint(|s|);
    var input := LengthPrefixed(s)[..n];
    if n < |head| {
      assert input == head[..n];
      TruncatedVarint(|s|, n, 5);
    } else {
      assert input == head + s[..n - |head|];
      Varint32RoundTrip(|s|, s[..n - |head|]);
    }
  }

  /** The bytes of one item of a field behind its tag, or of all items of a packed field. */
  ghost predicate BodyOf(f: Field, wireType: nat, body: Slice) {
    || (wireType == f.ltype.WireType() && !(f.htype.Repeated? && f.ltype.Packable())
        && exists v :: ValueOk(f.ltype, v) && Carried(f.ltype, v) && body == EncValue(f.ltype, v))
    || (wireType == WT_STRING && f.htype.Repeated? && f.ltype.Packable() && exists s: Slice :: |s| < TWO32 && body == LengthPrefixed(s))
  }

  lemma CutField(l: LType, slots: seq<Slot>, i: nat, wireType: nat, body: Slice, n: nat)
    requires l.Submessage? && SchemaOk(l) && |slots| == |l.fields| && i < |l.fields|
    requires BodyOf(l.fields[i], wireType, body) && n < |body|
    ensures DecField(l.fields, slots, i, wireType, body[..n]) == BadSlots
  {
    hide Varint, GetVarint32, DecValue, EncValue, LengthPrefixed, RequiredCount, DecPacked;
    var f := l.fields[i];
    if f.htype.Repeated? && f.ltype.Packable() {
      var s: Slice :| |s| < TWO32 && body == LengthPrefixed(s);
      CutLength(s, n);
    } else {
      var v :| ValueOk(f.ltype, v) && Carried(f.ltype, v) && body == EncValue(f.ltype, v);
      CutValue(f.ltype, v, Default(f.ltype), n);
      CutValue(f.ltype, v, Base(f, slots[i]), n);
    }
  }

  /** Input that ends in the middle of a field is refused. */
  lemma CutIsRefused(l: LType, parts: seq<Part>, i: nat, wireType: nat, body: Slice, n: nat)
    requires l.Submessage? && SchemaOk(l) && AreParts(l.fields, parts) && i < |l.fields|
    requires BodyOf(l.fields[i], wireType, body) && n < |body|
    ensures Decode(l, BytesOf(l.fields, parts) + (Tag(l.fields[i].tag, wireType) + body[..n])) == None
  {
    hide DecMessage, DecField, SchemaOk, MergedParts, BytesOf, AreParts, SlotFits, OneAtMost, SeenIn, Tag, BodyOf;
    DefaultFits(l);
    PartsMerge(l, Default(l), parts, Tag(l.fields[i].tag, wireType) + body[..n], {});
    if MergedParts(l, Default(l), parts).Some? {
      var slots := MergedParts(l, Default(l), parts).value.slots;
      CutField(l, slots, i, wireType, body, n);
      WireTypeFits(l.fields[i], wireType, body);
      KnownField(l, slots, i, wireType, body[..n], {} + SeenIn(parts));
    }
  }

  lemma WireTypeFits(f: Field, wireType: nat, body: Slice)
    requires BodyOf(f, wireType, body)
    ensures wireType < 8
  {
    hide ValueOk, EncValue;
  }

  // ------------------------------------------------------------------- in particular

  function NoOthers(fields: seq<Field>): seq<seq<Other>> { seq(|fields| + 1, _ => []) }

  /** A message by itself as a part. */
  lemma PlainPart(fields: seq<Field>, m: Value)
    requires PartOk(fields, m)
    ensures IsPart(fields, Part(m, NoOthers(fields)))
    ensures Mixed(fields, m, 0, OthersBetween(NoOthers(fields))) == EncFields(fields, m, 0)
  {
    hide SlotOk, OneAtMost, EncSlot;
    var junk := OthersBetween(NoOthers(fields));
    NoJunk(fields, m, 0, junk);
  }

  lemma OnePart(l: LType, base: Value, p: Part)
    requires l.Submessage? && IsPart(l.fields, p)
    ensures AreParts(l.fields, [p])
    ensures BytesOf(l.fields, [p]) == Mixed(l.fields, p.m, 0, OthersBetween(p.others))
    ensures MergedParts(l, base, [p]) == if Room(l, base, p.m) then Some(Merged(l, base, p.m)) else None
    ensures Complete(l.fields, [p]) <==> forall i :: 0 <= i < |l.fields| && l.fields[i].htype.Required? ==> p.m.slots[i].items != []
  {
    hide PartOk, AllOthers, Mixed, Room, Merged;
    PartShape(l.fields, p.m);
    assert [p][1..] == [];
    var all := Mixed(l.fields, p.m, 0, OthersBetween(p.others));
    assert all + [] == all;
    assert forall i :: 0 <= i < |l.fields| && p.m.slots[i].items != [] ==> [p][0].m.slots[i].items != [];
  }

  lemma RequiredPresent(l: LType, m: Value)
    requires l.Submessage? && ValueOk(l, m)
    ensures m.Msg? && |m.slots| == |l.fields|
    ensures forall i :: 0 <= i < |l.fields| && l.fields[i].htype.Required? ==> m.slots[i].items != []
  {
    forall i | 0 <= i < |l.fields| && l.fields[i].htype.Required? ensures m.slots[i].items != [] {
      assert SlotOk(l.fields[i], m.slots[i]);
    }
  }

  /** The round trip: a well-formed message with any fields of other tags before, between and after its fields decodes to
      itself. */
  lemma UnknownChangesNothing(l: LType, m: Value, us: seq<seq<Other>>)
    requires l.Submessage? && SchemaOk(l) && ValueOk(l, m)
    requires |us| == |l.fields| + 1 && forall j :: 0 <= j < |us| ==> AllOthers(l.fields, us[j])
    ensures m.Msg? && |m.slots| == |l.fields|
    ensures Decode(l, Mixed(l.fields, m, 0, OthersBetween(us))) == Some(m)
  {
    hide Decode, SchemaOk, ValueOk, Mixed, PartOk, AllOthers, Room, Merged, MergedParts, Complete, AreParts, BytesOf;
    OkIsPart(l, m);
    RequiredPresent(l, m);
    var p := Part(m, us);
    assert IsPart(l.fields, p);
    OnePart(l, Default(l), p);
    PartsDecode(l, [p]);
    MergedIntoDefault(l, m);
  }

  /** An encoded message decodes to itself. */
  lemma DecodeRestores(l: LType, m: Value)
    requires l.Submessage? && SchemaOk(l) && ValueOk(l, m)
    ensures Decode(l, EncFields(l.fields, m, 0)) == Some(m)
  {
    hide Decode, SchemaOk, ValueOk, Mixed, PartOk, AllOthers;
    OkIsPart(l, m);
    PlainPart(l.fields, m);
    UnknownChangesNothing(l, m, NoOthers(l.fields));
  }

  /** A message that lacks a required field is refused, whatever else it has. */
  lemma MissingIsRefused(l: LType, m: Value, missing: nat)
    requires l.Submessage? && SchemaOk(l) && PartOk(l.fields, m)
    requires missing < |l.fields| && l.fields[missing].htype.Required? && m.slots[missing].items == []
    ensures Decode(l, EncFields(l.fields, m, 0)) == None
  {
    hide Decode, SchemaOk, Mixed, AllOthers, MergedParts, Complete, AreParts, BytesOf, SlotOk, IsPart;
    PlainPart(l.fields, m);
    var p := Part(m, NoOthers(l.fields));
    OnePart(l, Default(l), p);
    PartsDecode(l, [p]);
  }

  /** Two messages one behind the other decode to the merged message if there is room for the items of both. */
  lemma TwoDecodeMerged(l: LType, a: Value, b: Value)
    requires l.Submessage? && SchemaOk(l) && ValueOk(l, a) && ValueOk(l, b)
    ensures Decode(l, EncFields(l.fields, a, 0) + EncFields(l.fields, b, 0)) == if Room(l, a, b) then Some(Merged(l, a, b)) else None
  {
    hide *;
    OkIsPart(l, a);
    OkIsPart(l, b);
    PlainPart(l.fields, a);
    PlainPart(l.fields, b);
    var p, q := Part(a, NoOthers(l.fields)), Part(b, NoOthers(l.fields));
    TwoParts(l, Default(l), p, q);
    RequiredPresent(l, a);
    CompleteByFirst(l.fields, p, q);
    MergedIntoDefault(l, a);
    PartsDecode(l, [p, q]);
  }

  lemma PartIs(fields: seq<Field>, p: Part)
    requires IsPart(fields, p)
    ensures p.m.Msg? && |p.m.slots| == |fields| && |p.others| == |fields| + 1
  {
    hide SlotOk;
  }

  lemma TwoParts(l: LType, base: Value, p: Part, q: Part)
    requires l.Submessage? && IsPart(l.fields, p) && IsPart(l.fields, q)
    ensures AreParts(l.fields, [p, q])
    ensures BytesOf(l.fields, [p, q]) == Mixed(l.fields, p.m, 0, OthersBetween(p.others)) + Mixed(l.fields, q.m, 0, OthersBetween(q.others))
    ensures MergedParts(l, base, [p, q]) == if !Room(l, base, p.m) then None
      else if Room(l, Merged(l, base, p.m), q.m) then Some(Merged(l, Merged(l, base, p.m), q.m)) else None
  {
    hide PartOk, AllOthers, Mixed, Room, Merged, IsPart;
    OnePart(l, Merged(l, base, p.m), q);
    PartIs(l.fields, p);
    PartIs(l.fields, q);
    assert [p, q][1..] == [q] && AreParts(l.fields, [p, q]);
    assert BytesOf(l.fields, [p, q]) == Mixed(l.fields, p.m, 0, OthersBetween(p.others)) + BytesOf(l.fields, [q]);
  }

  lemma CompleteByFirst(fields: seq<Field>, p: Part, q: Part)
    requires AreParts(fields, [p, q])
    requires p.m.Msg? && |p.m.slots| == |fields|
    requires forall i :: 0 <= i < |fields| && fields[i].htype.Required? ==> p.m.slots[i].items != []
    ensures Complete(fields, [p, q])
  {
    hide IsPart;
    assert [p, q][0] == p;
  }
}
