/** The format of a block: prefix-compressed entries, then the restart array. */
module BlockFormat {
  import opened Bytes
  import opened Coding

  datatype KV = KV(key: Slice, value: Slice)

  function CommonPrefix(a: Slice, b: Slice): (n: nat)
    ensures n <= |a| && n <= |b| && a[..n] == b[..n]
    ensures n < |a| && n < |b| ==> a[n] != b[n]
  {
    if a == [] || b == [] || a[0] != b[0] then 0
    else
      var n := 1 + CommonPrefix(a[1..], b[1..]);
      assert a[..n] == [a[0]] + a[1..][..n - 1] && b[..n] == [b[0]] + b[1..][..n - 1];
      n
  }

  function Last<T>(s: seq<T>): T
    requires s != []
  {
    s[|s| - 1]
  }

  /** The entries that are restart points once n entries are in: the first one, and one
      whenever the last restart point is interval entries back. */
  function RestartIndices(n: nat, interval: nat): (r: seq<nat>)
    ensures r != [] && r[0] == 0 && forall i :: 0 <= i < |r| ==> r[i] == 0 || r[i] < n
    ensures forall i, j :: 0 <= i < j < |r| ==> r[i] < r[j]
  {
    if n <= 1 then [0]
    else
      var r := RestartIndices(n - 1, interval);
      if n - 1 >= Last(r) + interval then r + [n - 1] else r
  }

  predicate IsRestart(i: nat, interval: nat) { Last(RestartIndices(i + 1, interval)) == i }

  function EntryBytes(shared: nat, kv: KV): (r: Slice)
    requires shared <= |kv.key|
    ensures |r| >= 3
  {
    Varint(shared) + Varint(|kv.key| - shared) + Varint(|kv.value|) + kv.key[shared..] + kv.value
  }

  /** How many bytes entry i takes over from its predecessor's key. */
  function Shared(kvs: seq<KV>, i: nat, interval: nat): (n: nat)
    requires i < |kvs|
    ensures n <= |kvs[i].key| && (n > 0 ==> i > 0 && n <= |kvs[i - 1].key| && kvs[i - 1].key[..n] == kvs[i].key[..n])
  {
    if i == 0 || IsRestart(i, interval) then 0 else CommonPrefix(kvs[i - 1].key, kvs[i].key)
  }

  /** The entries of a block. */
  function Encoded(kvs: seq<KV>, interval: nat): Slice {
    if kvs == [] then []
    else Encoded(kvs[..|kvs| - 1], interval) + EntryBytes(Shared(kvs, |kvs| - 1, interval), Last(kvs))
  }

  /** Where entry i starts; for i = |kvs|, where the restart array starts. */
  function Offset(kvs: seq<KV>, interval: nat, i: nat): nat
    requires i <= |kvs|
  {
    |Encoded(kvs[..i], interval)|
  }

  function RestartOffsets(kvs: seq<KV>, interval: nat): (r: seq<nat>)
    ensures |r| == |RestartIndices(|kvs|, interval)|
  {
    var indices := RestartIndices(|kvs|, interval);
    seq(|indices|, i requires 0 <= i < |indices| => Offset(kvs, interval, indices[i]))
  }

  function FixedArray(ns: seq<nat>): (r: Slice)
    ensures |r| == 4 * |ns|
  {
    if ns == [] then [] else FixedArray(ns[..|ns| - 1]) + Fixed32(Last(ns))
  }

  function BlockBytes(kvs: seq<KV>, interval: nat): Slice {
    var restarts := RestartOffsets(kvs, interval);
    Encoded(kvs, interval) + FixedArray(restarts) + Fixed32(|restarts|)
  }

  // ------------------------------------------------------------------------- lemmas

  ghost predicate Regular(r: seq<nat>, n: nat, interval: nat) {
    (forall i :: 0 <= i < |r| ==> r[i] == i * interval) && n <= |r| * interval
  }

  /** Restart points are interval entries apart. */
  lemma {:induction false} RestartsAreRegular(n: nat, interval: nat)
    requires interval >= 1
    ensures Regular(RestartIndices(n, interval), n, interval)
  {
    hide *;
    RestartsUnfold(n, interval);
    if n <= 1 {
      RegularStart(n, interval);
    } else {
      RestartsAreRegular(n - 1, interval);
      RegularStep(RestartIndices(n - 1, interval), n - 1, interval);
    }
  }

  lemma RestartsUnfold(n: nat, interval: nat)
    ensures RestartIndices(n, interval) ==
      if n <= 1 then [0]
      else
        var r := RestartIndices(n - 1, interval);
        if n - 1 >= Last(r) + interval then r + [n - 1] else r
  {
  }

  lemma RegularStart(n: nat, interval: nat)
    requires n <= 1 <= interval
    ensures Regular([0], n, interval)
  {
  }

  lemma RegularStep(r: seq<nat>, n: nat, interval: nat)
    requires r != [] && interval >= 1 && Regular(r, n, interval)
    ensures Regular(if n >= Last(r) + interval then r + [n] else r, n + 1, interval)
  {
    var more := r + [n];
    assert Last(r) == r[|r| - 1] == (|r| - 1) * interval;
    assert (|r| - 1) * interval + interval == |r| * interval;
    assert |more| * interval == |r| * interval + interval;
  }

  /** Every listed entry is a restart point. */
  lemma {:induction false} ListedIsRestart(n: nat, interval: nat, k: nat)
    requires k < |RestartIndices(n, interval)|
    ensures IsRestart(RestartIndices(n, interval)[k], interval)
  {
    if n > 1 {
      var r := RestartIndices(n - 1, interval);
      if k < |r| {
        ListedIsRestart(n - 1, interval, k);
      } else {
        assert RestartIndices(n, interval) == r + [n - 1];
        assert Last(r + [n - 1]) == n - 1;
      }
    } else {
      assert RestartIndices(n, interval) == [0] && RestartIndices(1, interval) == [0];
    }
  }

  /** The bytes of entry i start at its offset. */
  lemma {:induction false} EntryAt(kvs: seq<KV>, interval: nat, i: nat)
    requires i < |kvs|
    ensures Offset(kvs, interval, i + 1) == Offset(kvs, interval, i) + |EntryBytes(Shared(kvs, i, interval), kvs[i])|
    ensures Offset(kvs, interval, i + 1) <= |Encoded(kvs, interval)|
    ensures Encoded(kvs, interval)[Offset(kvs, interval, i)..Offset(kvs, interval, i + 1)] == EntryBytes(Shared(kvs, i, interval), kvs[i])
    decreases |kvs|
  {
    hide EntryBytes, Shared;
    var n := |kvs| - 1;
    var front := kvs[..n];
    var entry := EntryBytes(Shared(kvs, i, interval), kvs[i]);
    assert kvs[..i + 1][..i] == kvs[..i];
    SharedOfPrefix(kvs, i + 1, i, interval);
    assert Encoded(kvs[..i + 1], interval) == Encoded(kvs[..i], interval) + entry;
    if i < n {
      EntryAt(front, interval, i);
      assert front[..i] == kvs[..i] && front[..i + 1] == kvs[..i + 1];
      SharedOfPrefix(kvs, n, i, interval);
      PrefixSlice(Encoded(front, interval), Encoded(kvs, interval), Offset(kvs, interval, i), Offset(kvs, interval, i + 1));
    } else {
      assert kvs[..n + 1] == kvs;
    }
  }

  lemma PrefixSlice(p: Slice, q: Slice, x: nat, y: nat)
    requires p <= q && x <= y <= |p|
    ensures q[x..y] == p[x..y]
  {
  }

  lemma SharedOfPrefix(kvs: seq<KV>, m: nat, i: nat, interval: nat)
    requires i < m <= |kvs|
    ensures Shared(kvs[..m], i, interval) == Shared(kvs, i, interval)
  {
  }

  lemma {:induction false} OffsetsAscend(kvs: seq<KV>, interval: nat, i: nat, j: nat)
    requires i <= j <= |kvs|
    ensures Offset(kvs, interval, i) + 3 * (j - i) <= Offset(kvs, interval, j)
    decreases j
  {
    hide EntryBytes, IsRestart, CommonPrefix, Encoded;
    if i < j {
      OffsetsAscend(kvs, interval, i, j - 1);
      EntryAt(kvs, interval, j - 1);
    }
  }

  lemma {:induction false} ArrayAt(ns: seq<nat>, i: nat)
    requires i < |ns| && forall k :: 0 <= k < |ns| ==> ns[k] < TWO32
    ensures DecodeFixed(FixedArray(ns)[4 * i..4 * i + 4]) == ns[i]
    decreases |ns|
  {
    hide Fixed, DecodeFixed;
    var n := |ns| - 1;
    var front := FixedArray(ns[..n]);
    if i < n {
      ArrayAt(ns[..n], i);
      assert FixedArray(ns)[4 * i..4 * i + 4] == front[4 * i..4 * i + 4];
    } else {
      assert FixedArray(ns) == front + Fixed32(ns[n]) && |front| == 4 * n;
      assert FixedArray(ns)[4 * i..4 * i + 4] == Fixed32(ns[n]);
      Fixed32RoundTrip(ns[n]);
    }
  }

  lemma WordInArray(data: Slice, from: nat, num: nat, i: nat)
    requires from + 4 * num <= |data| && i < num
    ensures data[from + 4 * i..from + 4 * i + 4] == data[from..from + 4 * num][4 * i..4 * i + 4]
  {
    SliceOfSlice(data, from, 4 * num, 4 * i);
  }

  lemma SliceOfSlice(data: Slice, from: nat, len: nat, at: nat)
    requires from + len <= |data| && at + 4 <= len
    ensures data[from + at..from + at + 4] == data[from..from + len][at..at + 4]
  {
    var whole, part := data[from..from + len], data[from + at..from + at + 4];
    forall k | 0 <= k < 4 ensures part[k] == whole[at + k] == whole[at..at + 4][k] {
      assert part[k] == data[from + (at + k)];
    }
    assert part == whole[at..at + 4];
  }

  // ----------------------------------------------------------------------- decoding

  datatype Header = BadEntry | Header(shared: nat, nonShared: nat, valueLength: nat, rest: Slice)

  /** The three lengths at the front of the input: one byte each, or varints. */
  function DecodeLengths(input: Slice): Header
    requires |input| >= 3
  {
    if input[0] < 128 && input[1] < 128 && input[2] < 128 then Header(input[0], input[1], input[2], input[3..])
    else
      match GetVarint32(input)
      case Fail => BadEntry
      case Got(shared, rest) =>
        match GetVarint32(rest)
        case Fail => BadEntry
        case Got(nonShared, rest') =>
          match GetVarint32(rest')
          case Fail => BadEntry
          case Got(valueLength, rest'') => Header(shared, nonShared, valueLength, rest'')
  }

  /** The lengths and what follows them in the input, which ends where the entries end. */
  function DecodeEntry(input: Slice): Header {
    if |input| < 3 then BadEntry
    else
      var h := DecodeLengths(input);
      if h.BadEntry? || |h.rest| < (h.nonShared + h.valueLength) % TWO32 then BadEntry else h
  }

  /** The fast path for three one-byte lengths decodes like the general one. */
  lemma LengthsDecoded(x: nat, y: nat, z: nat, tail: Slice)
    requires x < TWO32 && y < TWO32 && z < TWO32
    ensures DecodeLengths(Varint(x) + (Varint(y) + (Varint(z) + tail))) == Header(x, y, z, tail)
  {
    hide Varint, GetVarint32;
    var a, b, c := Varint(x), Varint(y), Varint(z);
    var input := a + (b + (c + tail));
    OneByte(x, b + (c + tail));
    if input[0] < 128 && input[1] < 128 && input[2] < 128 {
      OneByte(y, c + tail);
      OneByte(z, tail);
      assert input[3..] == tail;
    } else {
      Varint32RoundTrip(x, b + (c + tail));
      Varint32RoundTrip(y, c + tail);
      Varint32RoundTrip(z, tail);
    }
  }

  /** The lengths and contents of an encoded entry come back. */
  lemma DecodeEncoded(shared: nat, kv: KV, rest: Slice)
    requires shared <= |kv.key| && |kv.key| + |kv.value| < TWO32
    ensures DecodeEntry(EntryBytes(shared, kv) + rest) ==
      Header(shared, |kv.key| - shared, |kv.value|, kv.key[shared..] + kv.value + rest)
  {
    hide Varint, DecodeLengths;
    var tail := kv.key[shared..] + kv.value + rest;
    var a, b, c := Varint(shared), Varint(|kv.key| - shared), Varint(|kv.value|);
    assert EntryBytes(shared, kv) + rest == a + (b + (c + tail));
    LengthsDecoded(shared, |kv.key| - shared, |kv.value|, tail);
  }

  /** A first byte below 128 is the whole varint. */
  lemma OneByte(v: nat, rest: Slice)
    ensures (Varint(v) + rest)[0] < 128 ==> Varint(v) == [v]
  {
  }
}
