/** The layout of a table file: blocks with trailers, an index of separators, a footer. */
module TableFormat {
  import opened Bytes
  import opened DbFormat
  import opened Coding
  import opened LogFormat
  import opened BlockFormat
  import opened Block
  import opened InternalKeys

  const TRAILER_SIZE: nat := 5
  const MAX_HANDLE_SIZE: nat := 20
  const FOOTER_SIZE: nat := 48
  const NO_COMPRESSION: Byte := 0
  const TABLE_MAGIC: nat := 0xdb47_7524_8b80_fb57

  datatype BlockHandle = BlockHandle(offset: nat, size: nat)

  function EncodeHandle(h: BlockHandle): Slice { Varint(h.offset) + Varint(h.size) }

  datatype ParsedHandle = BadHandle | GotHandle(handle: BlockHandle, rest: Slice)

  function DecodeHandle(input: Slice): ParsedHandle {
    match GetVarint64(input)
    case Fail => BadHandle
    case Got(offset, rest) =>
      (match GetVarint64(rest)
       case Fail => BadHandle
       case Got(size, rest') => GotHandle(BlockHandle(offset, size), rest'))
  }

  lemma HandleRoundTrip(h: BlockHandle, rest: Slice)
    requires h.offset < TWO64 && h.size < TWO64
    ensures DecodeHandle(EncodeHandle(h) + rest) == GotHandle(h, rest)
  {
    hide Varint, GetVarint64;
    assert EncodeHandle(h) + rest == Varint(h.offset) + (Varint(h.size) + rest);
    Varint64RoundTrip(h.offset, Varint(h.size) + rest);
    Varint64RoundTrip(h.size, rest);
  }

  // -------------------------------------------------------------------------- blocks

  /** A block as it is stored: contents, compression type, checksum of both. */
  function Stored(sum: Checksum, contents: Slice): Slice {
    contents + [NO_COMPRESSION] + sum(contents + [NO_COMPRESSION])
  }

  ghost predicate StoredAt(sum: Checksum, file: Slice, h: BlockHandle, contents: Slice) {
    h.size == |contents| && h.offset + h.size + TRAILER_SIZE <= |file|
    && file[h.offset..h.offset + h.size + TRAILER_SIZE] == Stored(sum, contents)
  }

  /** Reading a block checks its length, its checksum and its type. */
  function ReadBlock(sum: Checksum, file: Slice, h: BlockHandle): Option<Slice> {
    if h.offset + h.size + TRAILER_SIZE > |file| then None
    else
      var contents := file[h.offset..h.offset + h.size];
      var end := h.offset + h.size;
      if sum(contents + [file[end]]) != file[end + 1..end + 5] then None
      else if file[end] != NO_COMPRESSION then None
      else Some(contents)
  }

  lemma ReadStored(sum: Checksum, file: Slice, h: BlockHandle, contents: Slice)
    requires StoredAt(sum, file, h, contents)
    ensures ReadBlock(sum, file, h) == Some(contents)
  {
    var end := h.offset + h.size;
    var all := file[h.offset..end + TRAILER_SIZE];
    assert all[..h.size] == contents && all[h.size] == NO_COMPRESSION && all[h.size + 1..] == sum(contents + [NO_COMPRESSION]);
    assert file[h.offset..end] == all[..h.size] && file[end] == all[h.size] && file[end + 1..end + 5] == all[h.size + 1..];
  }

  /** And nothing else is ever read: what a block read gives is stored there with a good checksum, on any bytes. */
  lemma ReadIsStored(sum: Checksum, file: Slice, h: BlockHandle)
    ensures ReadBlock(sum, file, h).Some? ==> StoredAt(sum, file, h, ReadBlock(sum, file, h).value)
  {
    if ReadBlock(sum, file, h).Some? {
      var contents, end := ReadBlock(sum, file, h).value, h.offset + h.size;
      var all := file[h.offset..end + TRAILER_SIZE];
      assert all == contents + [file[end]] + file[end + 1..end + 5];
    }
  }

  /** What is stored stays stored when the file grows. */
  lemma StaysStored(sum: Checksum, file: Slice, more: Slice, h: BlockHandle, contents: Slice)
    requires StoredAt(sum, file, h, contents)
    ensures StoredAt(sum, file + more, h, contents)
  {
    var end := h.offset + h.size + TRAILER_SIZE;
    assert (file + more)[h.offset..end] == file[h.offset..end];
  }

  // -------------------------------------------------------------------------- footer

  function Footer(meta: BlockHandle, index: BlockHandle): Slice {
    var handles := EncodeHandle(meta) + EncodeHandle(index);
    handles + (if |handles| < 2 * MAX_HANDLE_SIZE then Zeros(2 * MAX_HANDLE_SIZE - |handles|) else []) + Fixed64(TABLE_MAGIC)
  }

  /** The handles in a footer: that of the metaindex and that of the index. */
  function DecodeFooter(footer: Slice): Option<(BlockHandle, BlockHandle)> {
    if |footer| < FOOTER_SIZE || DecodeFixed(footer[FOOTER_SIZE - 8..FOOTER_SIZE]) != TABLE_MAGIC then None
    else
      match DecodeHandle(footer)
      case BadHandle => None
      case GotHandle(meta, rest) =>
        (match DecodeHandle(rest)
         case BadHandle => None
         case GotHandle(index, _) => Some((meta, index)))
  }

  /** A footer without the magic number leads nowhere. */
  lemma FooterNeedsMagic(file: Slice)
    requires |file| >= FOOTER_SIZE && DecodeFixed(file[|file| - 8..]) != TABLE_MAGIC
    ensures DecodeFooter(file[|file| - FOOTER_SIZE..]) == None
  {
    hide DecodeFixed, DecodeHandle;
    var footer := file[|file| - FOOTER_SIZE..];
    assert footer[FOOTER_SIZE - 8..FOOTER_SIZE] == file[|file| - 8..];
  }

  lemma {:induction false} VarintIsShort(v: nat, n: nat)
    requires n > 0 && v < Pow(128, n)
    ensures |Varint(v)| <= n
    decreases n
  {
    if v >= 128 {
      assert Pow(128, 0) == 1;
      VarintIsShort(v / 128, n - 1);
    }
  }

  lemma FooterRoundTrip(meta: BlockHandle, index: BlockHandle)
    requires meta.offset < TWO64 && meta.size < TWO64 && index.offset < TWO64 && index.size < TWO64
    ensures |Footer(meta, index)| == FOOTER_SIZE && DecodeFooter(Footer(meta, index)) == Some((meta, index))
  {
    hide Varint, GetVarint64, Fixed, DecodeFixed, Pow, DecodeHandle;
    VarintWidths();
    VarintIsShort(meta.offset, 10);
    VarintIsShort(meta.size, 10);
    VarintIsShort(index.offset, 10);
    VarintIsShort(index.size, 10);
    var a, b, footer := EncodeHandle(meta), EncodeHandle(index), Footer(meta, index);
    var pad := Zeros(2 * MAX_HANDLE_SIZE - |a| - |b|);
    var tail := pad + Fixed64(TABLE_MAGIC);
    assert footer == a + (b + tail) && footer[FOOTER_SIZE - 8..FOOTER_SIZE] == Fixed64(TABLE_MAGIC);
    Fixed64RoundTrip(TABLE_MAGIC);
    HandleRoundTrip(meta, b + tail);
    HandleRoundTrip(index, tail);
  }

  // ---------------------------------------------------------------------- whole tables

  /** A data block with its place in the file and its key in the index. */
  datatype Part = Part(kvs: seq<KV>, handle: BlockHandle, separator: Slice)

  function Flatten(parts: seq<Part>): seq<KV> {
    if parts == [] then [] else Flatten(parts[..|parts| - 1]) + parts[|parts| - 1].kvs
  }

  function IndexEntries(parts: seq<Part>): (r: seq<KV>)
    ensures |r| == |parts| && forall i :: 0 <= i < |r| ==> r[i] == KV(parts[i].separator, EncodeHandle(parts[i].handle))
  {
    seq(|parts|, i requires 0 <= i < |parts| => KV(parts[i].separator, EncodeHandle(parts[i].handle)))
  }

  ghost predicate GoodKey(k: Slice) { |k| >= 8 }

  ghost predicate PartOk(sum: Checksum, file: Slice, interval: nat, p: Part) {
    && p.kvs != [] && Addressable(p.kvs, interval) && KeysAscend(p.kvs, InternalLess)
    && (forall i :: 0 <= i < |p.kvs| ==> GoodKey(p.kvs[i].key))
    && StoredAt(sum, file, p.handle, BlockBytes(p.kvs, interval))
  }

  /** The separator of a part is at or after its keys, and before the keys of the next part; if
      it is not the last key itself, its user key is strictly between. */
  ghost predicate Split(p: Part, q: Part)
    requires p.kvs != [] && q.kvs != []
  {
    Separates(Last(p.kvs).key, p.separator, q.kvs[0].key) && !InternalLess(p.separator, Last(p.kvs).key) &&
    InternalLess(p.separator, q.kvs[0].key)
  }

  ghost predicate Boundary(parts: seq<Part>, b: nat)
    requires b + 1 < |parts|
  {
    parts[b].kvs != [] && parts[b + 1].kvs != [] && Split(parts[b], parts[b + 1])
  }

  ghost predicate PartsOk(sum: Checksum, file: Slice, interval: nat, parts: seq<Part>) {
    && (forall b :: 0 <= b < |parts| ==> PartOk(sum, file, interval, parts[b]))
    && (forall b :: 0 <= b < |parts| - 1 ==> Boundary(parts, b))
  }

  /** A finished table with these parts. */
  ghost predicate IsTable(sum: Checksum, file: Slice, interval: nat, parts: seq<Part>, meta: BlockHandle, index: BlockHandle) {
    && PartsOk(sum, file, interval, parts)
    && (parts != [] ==> Last(parts).kvs != [] && !InternalLess(Last(parts).separator, Last(Last(parts).kvs).key))
    && StoredAt(sum, file, index, BlockBytes(IndexEntries(parts), 1))
    && meta.offset < TWO64 && meta.size < TWO64
    && FOOTER_SIZE <= |file| < TWO64 && file[|file| - FOOTER_SIZE..] == Footer(meta, index)
  }

  // ------------------------------------------------------------------- order of keys

  lemma LessTransitive(a: Slice, b: Slice, c: Slice)
    ensures InternalLess(a, b) && InternalLess(b, c) ==> InternalLess(a, c)
    ensures !InternalLess(b, a) && InternalLess(b, c) ==> InternalLess(a, c)
    ensures InternalLess(a, b) && !InternalLess(c, b) ==> InternalLess(a, c)
    ensures !(InternalLess(a, b) && InternalLess(b, a))
  {
    hide Less, UserKeyOf, TagOf;
    InternalLessIsStrict(a, b, c);
    InternalLessIsStrict(a, b, a);
    LessIsTotalOrder(UserKeyOf(a), UserKeyOf(b), UserKeyOf(c));
    LessIsTotalOrder(UserKeyOf(a), UserKeyOf(c), UserKeyOf(b));
    LessIsTotalOrder(UserKeyOf(b), UserKeyOf(a), UserKeyOf(c));
    LessIsTotalOrder(UserKeyOf(b), UserKeyOf(c), UserKeyOf(a));
  }

  lemma InternalLessIsStrictOrder()
    ensures StrictOrder(InternalLess)
  {
    hide InternalLess;
    forall a ensures !InternalLess(a, a) {
      InternalLessIsStrict(a, a, a);
    }
    forall a, b, c | InternalLess(a, b) && InternalLess(b, c) ensures InternalLess(a, c) {
      InternalLessIsStrict(a, b, c);
    }
  }

  /** Within a part every key is between its first and its last one, and none is after the separator. */
  lemma KeysOfPart(p: Part, i: nat)
    requires p.kvs != [] && KeysAscend(p.kvs, InternalLess) && i < |p.kvs|
    ensures !InternalLess(p.kvs[i].key, p.kvs[0].key) && !InternalLess(Last(p.kvs).key, p.kvs[i].key)
    ensures !InternalLess(p.separator, Last(p.kvs).key) ==> !InternalLess(p.separator, p.kvs[i].key)
  {
    hide InternalLess;
    LessTransitive(p.kvs[0].key, p.kvs[i].key, p.kvs[0].key);
    LessTransitive(p.kvs[i].key, Last(p.kvs).key, p.kvs[i].key);
    InternalLessIsStrict(p.kvs[i].key, p.kvs[i].key, p.kvs[i].key);
    if InternalLess(p.separator, p.kvs[i].key) {
      LessTransitive(p.separator, p.kvs[i].key, Last(p.kvs).key);
    }
  }

  /** What the layout says of one part and of one boundary. */
  lemma PartFacts(sum: Checksum, file: Slice, interval: nat, parts: seq<Part>, b: nat)
    requires PartsOk(sum, file, interval, parts) && b < |parts|
    ensures parts[b].kvs != [] && KeysAscend(parts[b].kvs, InternalLess)
    ensures b < |parts| - 1 ==> parts[b + 1].kvs != [] && Split(parts[b], parts[b + 1])
  {
    hide InternalLess, StoredAt, Addressable, Split, KeysAscend, GoodKey;
    assert PartOk(sum, file, interval, parts[b]);
    assert b < |parts| - 1 ==> Boundary(parts, b);
  }

  /** The separator of an earlier part is before every key of a later one. */
  lemma {:induction false} SeparatorBelow(sum: Checksum, file: Slice, interval: nat, parts: seq<Part>, b: nat, c: nat, i: nat)
    requires PartsOk(sum, file, interval, parts) && b < c < |parts| && i < |parts[c].kvs|
    ensures InternalLess(parts[b].separator, parts[c].kvs[i].key)
    decreases c - b, i
  {
    hide InternalLess, PartsOk, Separates, KeysAscend;
    PartFacts(sum, file, interval, parts, c);
    PartFacts(sum, file, interval, parts, c - 1);
    var first := parts[c].kvs[0].key;
    KeysOfPart(parts[c], i);
    if b < c - 1 {
      var last := Last(parts[c - 1].kvs).key;
      SeparatorBelow(sum, file, interval, parts, b, c - 1, |parts[c - 1].kvs| - 1);
      LessTransitive(parts[b].separator, last, parts[c - 1].separator);
      LessTransitive(parts[b].separator, parts[c - 1].separator, first);
    }
    LessTransitive(parts[b].separator, first, parts[c].kvs[i].key);
  }

  /** The keys of the index ascend. */
  lemma IndexAscends(sum: Checksum, file: Slice, interval: nat, parts: seq<Part>)
    requires PartsOk(sum, file, interval, parts)
    requires parts != [] ==> Last(parts).kvs != [] && !InternalLess(Last(parts).separator, Last(Last(parts).kvs).key)
    ensures KeysAscend(IndexEntries(parts), InternalLess)
  {
    hide InternalLess, PartsOk;
    forall b, c | 0 <= b < c < |parts| ensures InternalLess(parts[b].separator, parts[c].separator) {
      SeparatorsAscend(sum, file, interval, parts, b, c);
    }
  }

  lemma SeparatorsAscend(sum: Checksum, file: Slice, interval: nat, parts: seq<Part>, b: nat, c: nat)
    requires PartsOk(sum, file, interval, parts) && b < c < |parts|
    requires Last(parts).kvs != [] && !InternalLess(Last(parts).separator, Last(Last(parts).kvs).key)
    ensures InternalLess(parts[b].separator, parts[c].separator)
  {
    hide InternalLess, PartsOk, Separates, KeysAscend;
    PartFacts(sum, file, interval, parts, c);
    SeparatorBelow(sum, file, interval, parts, b, c, |parts[c].kvs| - 1);
    LessTransitive(parts[b].separator, Last(parts[c].kvs).key, parts[c].separator);
  }

  /** Parts stay in place when the file grows. */
  lemma PartsStay(sum: Checksum, file: Slice, more: Slice, interval: nat, parts: seq<Part>)
    requires PartsOk(sum, file, interval, parts)
    ensures PartsOk(sum, file + more, interval, parts)
  {
    hide InternalLess, StoredAt, Addressable, Split, KeysAscend, GoodKey;
    forall b | 0 <= b < |parts| ensures PartOk(sum, file + more, interval, parts[b]) {
      assert PartOk(sum, file, interval, parts[b]);
      StaysStored(sum, file, more, parts[b].handle, BlockBytes(parts[b].kvs, interval));
    }
  }
}
