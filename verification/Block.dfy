/** Building a block entry by entry, and iterating over a built block. */
module Block {
  import opened Bytes
  import opened Coding
  import opened BlockFormat

  class BlockBuilder {
    const interval: nat
    var buffer: Slice
    var restarts: seq<nat>
    var counter: nat
    var lastKey: Slice
    var finished: bool
    ghost var kvs: seq<KV>

    ghost predicate Valid()
      reads this
    {
      && interval >= 1
      && (!finished ==> buffer == Encoded(kvs, interval)) && (finished ==> buffer == BlockBytes(kvs, interval))
      && restarts == RestartOffsets(kvs, interval)
      && counter == |kvs| - Last(RestartIndices(|kvs|, interval)) <= interval
      && lastKey == if kvs == [] then [] else Last(kvs).key
    }

    constructor (interval: nat)
      requires interval >= 1
      ensures Valid() && kvs == [] && !finished && this.interval == interval
    {
      this.interval := interval;
      buffer, restarts, counter, lastKey, finished, kvs := [], [0], 0, [], false, [];
    }

    method Reset()
      requires Valid()
      modifies this
      ensures Valid() && kvs == [] && !finished
    {
      buffer, restarts, counter, lastKey, finished, kvs := [], [0], 0, [], false, [];
    }

    method Finish() returns (block: Slice)
      requires Valid() && !finished
      modifies this
      ensures Valid() && finished && kvs == old(kvs) && block == BlockBytes(kvs, interval)
    {
      hide RestartOffsets, RestartIndices, Encoded, FixedArray, Fixed;
      ghost var body := buffer;
      assert FixedArray(restarts[..0]) == [] by {
        NothingFixed();
      }
      for i := 0 to |restarts|
        invariant restarts == old(restarts) && kvs == old(kvs) && counter == old(counter) && lastKey == old(lastKey)
        invariant buffer == body + FixedArray(restarts[..i])
      {
        FixedOneMore(restarts, i);
        buffer := buffer + Fixed32(restarts[i]);
      }
      assert restarts[..|restarts|] == restarts;
      buffer := buffer + Fixed32(|restarts|);
      finished := true;
      block := buffer;
    }

    /** How much of the key before a key shares. */
    static method SharedLength(lastKey: Slice, key: Slice) returns (shared: nat)
      ensures shared == CommonPrefix(lastKey, key)
    {
      shared := 0;
      var minLength := if |lastKey| < |key| then |lastKey| else |key|;
      while shared < minLength && lastKey[shared] == key[shared]
        invariant shared <= minLength && lastKey[..shared] == key[..shared]
      {
        shared := shared + 1;
      }
      CommonPrefixIs(lastKey, key, shared);
    }

    /** Adds an entry, sharing what it can with the key before unless a restart is due. */
    method Add(key: Slice, value: Slice)
      requires Valid() && !finished
      modifies this
      ensures Valid() && !finished && kvs == old(kvs) + [KV(key, value)]
    {
      hide RestartOffsets, RestartIndices, Encoded, EntryBytes, Shared, Varint, CommonPrefix;
      var shared := 0;
      ghost var after := kvs + [KV(key, value)];
      RestartStep(kvs, KV(key, value), interval, counter);
      EncodedStep(kvs, KV(key, value), interval);
      if counter < interval {
        shared := SharedLength(lastKey, key);
      } else {
        restarts := restarts + [|buffer|];
        counter := 0;
      }
      AppendEntry(shared, key, value);
      lastKey := key[..shared] + key[shared..];
      counter := counter + 1;
      kvs := after;
      assert lastKey == key;
    }

    /** Writes the lengths, the key delta and the value. */
    method AppendEntry(shared: nat, key: Slice, value: Slice)
      requires shared <= |key|
      modifies this`buffer
      ensures buffer == old(buffer) + EntryBytes(shared, KV(key, value))
    {
      hide Varint;
      var nonShared := |key| - shared;
      buffer := buffer + Varint(shared);
      buffer := buffer + Varint(nonShared);
      buffer := buffer + Varint(|value|);
      buffer := buffer + key[shared..];
      buffer := buffer + value;
    }
  }

  lemma NothingFixed()
    ensures FixedArray([]) == []
  {
  }

  lemma FixedOneMore(ns: seq<nat>, i: nat)
    requires i < |ns|
    ensures FixedArray(ns[..i + 1]) == FixedArray(ns[..i]) + Fixed32(ns[i])
  {
    assert ns[..i + 1][..i] == ns[..i];
  }

  lemma EncodedStep(kvs: seq<KV>, kv: KV, interval: nat)
    ensures var after := kvs + [kv];
      Encoded(after, interval) == Encoded(kvs, interval) + EntryBytes(Shared(after, |kvs|, interval), kv)
  {
    var after := kvs + [kv];
    assert after[..|after| - 1] == kvs;
  }

  lemma {:induction false} CommonPrefixIs(a: Slice, b: Slice, n: nat)
    requires n <= |a| && n <= |b| && a[..n] == b[..n] && (n < |a| && n < |b| ==> a[n] != b[n])
    ensures CommonPrefix(a, b) == n
  {
    if n > 0 {
      assert a[0] == a[..n][0] && b[0] == b[..n][0];
      assert a[1..][..n - 1] == a[..n][1..] && b[1..][..n - 1] == b[..n][1..];
      CommonPrefixIs(a[1..], b[1..], n - 1);
    }
  }

  /** What adding one entry does to the restart points. */
  lemma RestartStep(kvs: seq<KV>, kv: KV, interval: nat, counter: nat)
    requires interval >= 1 && counter == |kvs| - Last(RestartIndices(|kvs|, interval)) <= interval
    ensures var after := kvs + [kv]; var last := if kvs == [] then [] else Last(kvs).key;
      if counter < interval then
        && RestartOffsets(after, interval) == RestartOffsets(kvs, interval)
        && Last(RestartIndices(|after|, interval)) == Last(RestartIndices(|kvs|, interval))
        && Shared(after, |kvs|, interval) == CommonPrefix(last, kv.key)
      else
        && RestartOffsets(after, interval) == RestartOffsets(kvs, interval) + [|Encoded(kvs, interval)|]
        && Last(RestartIndices(|after|, interval)) == |kvs|
        && Shared(after, |kvs|, interval) == 0
  {
    hide Encoded, CommonPrefix, RestartIndices, RestartOffsets;
    var after := kvs + [kv];
    IndicesStep(|kvs|, interval);
    OffsetsStep(kvs, kv, interval);
    assert after[|kvs|] == kv && (kvs != [] ==> after[|kvs| - 1] == Last(kvs));
  }

  lemma IndicesStep(n: nat, interval: nat)
    requires interval >= 1
    ensures RestartIndices(n + 1, interval) ==
      RestartIndices(n, interval) + (if n - Last(RestartIndices(n, interval)) < interval then [] else [n])
    ensures IsRestart(n, interval) <==> n == 0 || n - Last(RestartIndices(n, interval)) >= interval
  {
  }

  lemma OffsetsStep(kvs: seq<KV>, kv: KV, interval: nat)
    requires interval >= 1
    ensures RestartOffsets(kvs + [kv], interval) == RestartOffsets(kvs, interval) +
      (if |kvs| - Last(RestartIndices(|kvs|, interval)) < interval then [] else [|Encoded(kvs, interval)|])
  {
    hide Encoded, RestartIndices, Offset;
    IndicesStep(|kvs|, interval);
    var indices := RestartIndices(|kvs|, interval);
    var after := RestartOffsets(kvs + [kv], interval);
    forall i | 0 <= i < |indices| ensures after[i] == RestartOffsets(kvs, interval)[i] {
      OffsetOfPrefix(kvs, kv, interval, indices[i]);
    }
    OffsetOfPrefix(kvs, kv, interval, |kvs|);
    if |kvs| - Last(indices) < interval {
      assert after == RestartOffsets(kvs, interval);
    } else {
      assert after[|indices|] == Offset(kvs + [kv], interval, |kvs|);
      assert after == RestartOffsets(kvs, interval) + [|Encoded(kvs, interval)|];
    }
  }

  lemma OffsetOfPrefix(kvs: seq<KV>, kv: KV, interval: nat, i: nat)
    requires i <= |kvs|
    ensures Offset(kvs + [kv], interval, i) == Offset(kvs, interval, i)
    ensures i == |kvs| ==> Offset(kvs, interval, i) == |Encoded(kvs, interval)|
  {
    assert (kvs + [kv])[..i] == kvs[..i];
    assert kvs[..|kvs|] == kvs;
  }

  // ------------------------------------------------------------------------ iterating

  /** The comparator: a strict order. */
  ghost predicate StrictOrder(less: (Slice, Slice) -> bool) {
    (forall a :: !less(a, a)) && forall a, b, c :: less(a, b) && less(b, c) ==> less(a, c)
  }

  ghost predicate KeysAscend(kvs: seq<KV>, less: (Slice, Slice) -> bool) {
    forall i, j :: 0 <= i < j < |kvs| ==> less(kvs[i].key, kvs[j].key)
  }

  /** i is the place of the first key at or after the target. */
  ghost predicate LowerBound(kvs: seq<KV>, less: (Slice, Slice) -> bool, target: Slice, i: nat) {
    && i <= |kvs|
    && (forall j :: 0 <= j < i ==> less(kvs[j].key, target))
    && (forall j :: i <= j < |kvs| ==> !less(kvs[j].key, target))
  }

  /** Everything in the block can be addressed with 32 bits. */
  ghost predicate Addressable(kvs: seq<KV>, interval: nat) {
    && |Encoded(kvs, interval)| < TWO32 && |RestartIndices(|kvs|, interval)| < TWO32
    && forall i :: 0 <= i < |kvs| ==> |kvs[i].key| + |kvs[i].value| < TWO32
  }

  /** Entry i decodes from its place in the block to the key delta and the value. */
  lemma EntryDecodes(kvs: seq<KV>, interval: nat, i: nat)
    requires i < |kvs| && Addressable(kvs, interval)
    ensures Offset(kvs, interval, i) < Offset(kvs, interval, i + 1) <= |Encoded(kvs, interval)|
    ensures var shared := Shared(kvs, i, interval); var kv := kvs[i];
      DecodeEntry(Encoded(kvs, interval)[Offset(kvs, interval, i)..]) ==
      Header(shared, |kv.key| - shared, |kv.value|, kv.key[shared..] + kv.value + Encoded(kvs, interval)[Offset(kvs, interval, i + 1)..])
    ensures IsTail(Encoded(kvs, interval),
      kvs[i].key[Shared(kvs, i, interval)..] + kvs[i].value + Encoded(kvs, interval)[Offset(kvs, interval, i + 1)..])
  {
    hide EntryBytes, Shared, Encoded, Offset, DecodeEntry, RestartIndices;
    EntryAt(kvs, interval, i);
    var all, x, y := Encoded(kvs, interval), Offset(kvs, interval, i), Offset(kvs, interval, i + 1);
    assert all[x..] == all[x..y] + all[y..];
    DecodeEncoded(Shared(kvs, i, interval), kvs[i], all[y..]);
    TailOfEntry(all[..x], Shared(kvs, i, interval), kvs[i], all[y..]);
    assert all == all[..x] + EntryBytes(Shared(kvs, i, interval), kvs[i]) + all[y..];
  }

  ghost predicate IsTail(all: Slice, tail: Slice) { |tail| <= |all| && all[|all| - |tail|..] == tail }

  lemma TailOfEntry(before: Slice, shared: nat, kv: KV, after: Slice)
    requires shared <= |kv.key|
    ensures IsTail(before + EntryBytes(shared, kv) + after, kv.key[shared..] + kv.value + after)
  {
    hide Varint;
    var head := before + Varint(shared) + Varint(|kv.key| - shared) + Varint(|kv.value|);
    var tail := kv.key[shared..] + kv.value + after;
    assert before + EntryBytes(shared, kv) + after == head + tail;
  }

  lemma RestartAt(kvs: seq<KV>, interval: nat, r: nat)
    requires Addressable(kvs, interval) && r < |RestartIndices(|kvs|, interval)|
    ensures var x := RestartIndices(|kvs|, interval)[r];
      x <= |kvs| && DecodeFixed(FixedArray(RestartOffsets(kvs, interval))[4 * r..4 * r + 4]) == Offset(kvs, interval, x)
  {
    hide Encoded, DecodeFixed, FixedArray, RestartIndices;
    var offsets := RestartOffsets(kvs, interval);
    forall k | 0 <= k < |offsets| ensures offsets[k] < TWO32 {
      var x := RestartIndices(|kvs|, interval)[k];
      OffsetsAscend(kvs, interval, x, |kvs|);
      assert kvs[..|kvs|] == kvs;
    }
    ArrayAt(offsets, r);
  }

  lemma BlockParts(kvs: seq<KV>, interval: nat)
    requires Addressable(kvs, interval)
    ensures var data := BlockBytes(kvs, interval); var n := |Encoded(kvs, interval)|; var num := |RestartIndices(|kvs|, interval)|;
      && |data| == n + 4 * num + 4 && data[..n] == Encoded(kvs, interval)
      && data[n..n + 4 * num] == FixedArray(RestartOffsets(kvs, interval))
      && DecodeFixed(data[|data| - 4..]) == num
  {
    hide Encoded, FixedArray, RestartIndices, DecodeFixed, Fixed;
    var a, b, c := Encoded(kvs, interval), FixedArray(RestartOffsets(kvs, interval)), Fixed32(|RestartOffsets(kvs, interval)|);
    var data := BlockBytes(kvs, interval);
    assert data == a + b + c;
    assert data[|data| - 4..] == c;
    Fixed32RoundTrip(|RestartOffsets(kvs, interval)|);
  }

  /** The parsed header leads to the key delta, the value and the end of an entry. */
  ghost predicate Shows(data: Slice, end: nat, h: Header, shared: nat, kv: KV, next: nat) {
    && h.Header? && h.shared == shared <= |kv.key| && |h.rest| <= end <= |data| && next <= end
    && end - |h.rest| + h.nonShared + h.valueLength == next
    && kv.key == kv.key[..shared] + data[end - |h.rest|..end - |h.rest| + h.nonShared]
    && kv.value == data[end - |h.rest| + h.nonShared..next]
  }

  /** What parsing entry j finds in a whole block: the key delta, the value and the end of the entry. */
  lemma ParsedEntry(kvs: seq<KV>, interval: nat, data: Slice, j: nat)
    requires j < |kvs| && Addressable(kvs, interval) && data == BlockBytes(kvs, interval)
    ensures Offset(kvs, interval, j) < |Encoded(kvs, interval)| <= |data|
    ensures Shows(data, |Encoded(kvs, interval)|, DecodeEntry(data[Offset(kvs, interval, j)..|Encoded(kvs, interval)|]),
      Shared(kvs, j, interval), kvs[j], Offset(kvs, interval, j + 1))
  {
    hide Encoded, RestartIndices, Offset, BlockBytes, Addressable, DecodeEntry, Shared;
    BlockParts(kvs, interval);
    EntryDecodes(kvs, interval, j);
    var all, x, y, kv, shared := Encoded(kvs, interval), Offset(kvs, interval, j), Offset(kvs, interval, j + 1), kvs[j], Shared(kvs, j, interval);
    assert data[x..|all|] == all[x..];
    CutTail(data, all, kv.key[shared..], kv.value, all[y..]);
    assert kv.key == kv.key[..shared] + kv.key[shared..];
  }

  lemma CutTail(data: Slice, all: Slice, a: Slice, b: Slice, rest: Slice)
    requires all <= data && IsTail(all, a + b + rest)
    ensures var p := |all| - |a + b + rest|; data[p..p + |a|] == a && data[p + |a|..p + |a| + |b|] == b
  {
    var p := |all| - |a + b + rest|;
    assert data[p..p + |a|] == all[p..][..|a|] == a;
    assert data[p + |a|..p + |a| + |b|] == all[p..][|a|..|a| + |b|] == b;
  }

  /** An iterator over a block that was built from kvs. */
  class Iter {
    const data: Slice
    const restarts: nat
    const numRestarts: nat
    const less: (Slice, Slice) -> bool
    var current: nat
    var restartIndex: nat
    var key: Slice
    var valueStart: nat
    var valueEnd: nat
    ghost const kvs: seq<KV>
    ghost const interval: nat
    /** The index of the current entry; the number of entries when there is none. */
    ghost var pos: nat

    ghost predicate Built() {
      && Addressable(kvs, interval) && data == BlockBytes(kvs, interval)
      && restarts == |Encoded(kvs, interval)| && numRestarts == |RestartIndices(|kvs|, interval)|
      && StrictOrder(less) && KeysAscend(kvs, less)
    }

    ghost function RestartEntry(r: nat): nat
      requires r < |RestartIndices(|kvs|, interval)|
    {
      RestartIndices(|kvs|, interval)[r]
    }

    /** ParseNextKey would parse entry j. */
    ghost predicate Ready(j: nat)
      reads this
    {
      && Built() && j <= |kvs| && valueEnd == Offset(kvs, interval, j)
      && restartIndex < numRestarts && RestartEntry(restartIndex) <= j
      && (j < |kvs| ==> Shared(kvs, j, interval) <= |key| && key[..Shared(kvs, j, interval)] == kvs[j].key[..Shared(kvs, j, interval)])
    }

    /** The fields show entry i, or the end. */
    ghost predicate At(i: nat)
      reads this
    {
      Built() && i <= |kvs| &&
      if i == |kvs| then current == restarts && restartIndex == numRestarts
      else
        && current == Offset(kvs, interval, i) && valueEnd == Offset(kvs, interval, i + 1)
        && key == kvs[i].key && valueStart <= valueEnd <= |data| && data[valueStart..valueEnd] == kvs[i].value
        && restartIndex < numRestarts && RestartEntry(restartIndex) <= i
    }

    ghost predicate Valid()
      reads this
    {
      At(pos)
    }

    constructor (block: Slice, less: (Slice, Slice) -> bool, ghost kvs: seq<KV>, ghost interval: nat)
      requires block == BlockBytes(kvs, interval) && Addressable(kvs, interval)
      requires StrictOrder(less) && KeysAscend(kvs, less)
      ensures Valid() && pos == |kvs| && this.kvs == kvs && this.interval == interval && this.less == less
    {
      BlockParts(kvs, interval);
      this.data, this.less, this.kvs, this.interval := block, less, kvs, interval;
      numRestarts := DecodeFixed(block[|block| - 4..]);
      restarts := |block| - 4 - 4 * DecodeFixed(block[|block| - 4..]);
      current := |block| - 4 - 4 * DecodeFixed(block[|block| - 4..]);
      restartIndex := DecodeFixed(block[|block| - 4..]);
      key, valueStart, valueEnd, pos := [], 0, 0, |kvs|;
    }

    function IsValid(): bool
      reads this
    {
      current < restarts
    }

    /** Readers see exactly the entry at the position. */
    lemma ShowsEntry()
      requires Valid()
      ensures IsValid() <==> pos < |kvs|
      ensures pos < |kvs| ==> key == kvs[pos].key && valueStart <= valueEnd <= |data| && data[valueStart..valueEnd] == kvs[pos].value
    {
      hide Encoded, RestartIndices, Addressable, BlockBytes;
      assert kvs[..|kvs|] == kvs;
      if pos < |kvs| {
        OffsetsAscend(kvs, interval, pos, |kvs|);
      }
    }

    method GetRestartPoint(index: nat) returns (offset: nat)
      requires Built() && index < numRestarts
      ensures RestartEntry(index) <= |kvs| && offset == Offset(kvs, interval, RestartEntry(index))
    {
      hide Encoded, RestartIndices, Offset, FixedArray, DecodeFixed, BlockBytes, Addressable;
      BlockParts(kvs, interval);
      RestartAt(kvs, interval, index);
      WordInArray(data, restarts, numRestarts, index);
      offset := DecodeFixed(data[restarts + 4 * index..restarts + 4 * index + 4]);
    }

    method SeekToRestartPoint(index: nat)
      requires Built() && index < numRestarts
      modifies this`key, this`restartIndex, this`valueStart, this`valueEnd
      ensures restartIndex == index && RestartEntry(index) <= |kvs| && Ready(RestartEntry(index))
    {
      hide Encoded, RestartIndices, Offset, BlockBytes, Addressable;
      key := [];
      restartIndex := index;
      var offset := GetRestartPoint(index);
      valueStart, valueEnd := offset, offset;
      ListedIsRestart(|kvs|, interval, index);
    }

    /** Parses the entry that the value of the last one ends at; false at the end. */
    method ParseNextKey(ghost j: nat) returns (more: bool)
      requires Ready(j)
      modifies this
      ensures Valid() && pos == j && more == (j < |kvs|)
    {
      hide Encoded, RestartIndices, Offset, BlockBytes, Addressable, DecodeEntry, Shared, StrictOrder, KeysAscend;
      WholeOffset(kvs, interval);
      pos := j;
      current := valueEnd;
      if current >= restarts {
        if j < |kvs| {
          OffsetsAscend(kvs, interval, j, |kvs|);
        }
        current, restartIndex := restarts, numRestarts;
        return false;
      }
      ParsedEntry(kvs, interval, data, j);
      var h := DecodeEntry(data[current..restarts]);
      var p := restarts - |h.rest|;
      key := key[..h.shared] + data[p..p + h.nonShared];
      valueStart, valueEnd := p + h.nonShared, p + h.nonShared + h.valueLength;
      SkipRestarts(j);
      more := true;
    }

    /** Follows the restart points that the entry just parsed is past. */
    method SkipRestarts(ghost j: nat)
      requires Built() && j <= |kvs| && current == Offset(kvs, interval, j)
      requires restartIndex < numRestarts && RestartEntry(restartIndex) <= j
      modifies this`restartIndex
      ensures restartIndex < numRestarts && RestartEntry(restartIndex) <= j
    {
      hide Built, Encoded, RestartIndices, Offset;
      CountRestarts();
      while restartIndex + 1 < numRestarts
        invariant restartIndex < numRestarts && RestartEntry(restartIndex) <= j
        decreases numRestarts - restartIndex
      {
        var offset := GetRestartPoint(restartIndex + 1);
        if offset >= current {
          break;
        }
        OffsetOrder(kvs, interval, RestartEntry(restartIndex + 1), j);
        restartIndex := restartIndex + 1;
      }
    }

    lemma CountRestarts()
      requires Built()
      ensures numRestarts == |RestartIndices(|kvs|, interval)| && restarts == |Encoded(kvs, interval)| && numRestarts > 0
      ensures RestartEntry(0) == 0 && forall r :: 0 <= r < numRestarts ==> RestartEntry(r) == 0 || RestartEntry(r) < |kvs|
    {
    }

    /** An entry that is shown is what the next one shares its key with. */
    lemma NextIsReady()
      requires Valid() && pos < |kvs|
      ensures Ready(pos + 1)
    {
      hide Encoded, RestartIndices, Offset, BlockBytes, Addressable, CommonPrefix, IsRestart;
    }

    method Next()
      requires Valid() && pos < |kvs|
      modifies this
      ensures Valid() && pos == old(pos) + 1
    {
      hide Ready, At, Built;
      NextIsReady();
      var _ := ParseNextKey(pos + 1);
    }

    method SeekToFirst()
      requires Valid()
      modifies this
      ensures Valid() && pos == 0
    {
      hide Built, Encoded, RestartIndices, Offset;
      assert Built();
      CountRestarts();
      SeekToRestartPoint(0);
      var _ := ParseNextKey(0);
    }

    method Prev()
      requires Valid() && pos < |kvs|
      modifies this
      ensures Valid() && pos == if old(pos) == 0 then |kvs| else old(pos) - 1
    {
      hide Built, Encoded, RestartIndices, Offset, Shared;
      assert Built();
      CountRestarts();
      ghost var pos0 := pos;
      var original := current;
      while true
        invariant restartIndex < numRestarts && pos == pos0
        decreases restartIndex
      {
        var offset := GetRestartPoint(restartIndex);
        if offset < original {
          break;
        }
        if restartIndex == 0 {
          OffsetOrder(kvs, interval, 0, pos0);
          current, restartIndex := restarts, numRestarts;
          pos := |kvs|;
          return;
        }
        restartIndex := restartIndex - 1;
      }
      ghost var j := RestartEntry(restartIndex);
      OffsetOrder(kvs, interval, j, pos0);
      SeekToRestartPoint(restartIndex);
      while true
        invariant j < pos0 && Ready(j)
        decreases pos0 - j
      {
        var more := ParseNextKey(j);
        OffsetOrder(kvs, interval, j + 1, pos0);
        if !more || valueEnd >= original {
          return;
        }
        NextIsReady();
        j := j + 1;
      }
    }

    method SeekToLast()
      requires Valid()
      modifies this
      ensures Valid() && pos == if kvs == [] then 0 else |kvs| - 1
    {
      hide Built, Encoded, RestartIndices, Offset, Shared;
      assert Built();
      CountRestarts();
      ghost var j := RestartEntry(numRestarts - 1);
      SeekToRestartPoint(numRestarts - 1);
      while true
        invariant Built() && Ready(j) && (j < |kvs| || kvs == [])
        decreases |kvs| - j
      {
        var more := ParseNextKey(j);
        WholeOffset(kvs, interval);
        if !more {
          return;
        }
        OffsetOrder(kvs, interval, j + 1, |kvs|);
        if valueEnd >= restarts {
          return;
        }
        NextIsReady();
        j := j + 1;
      }
    }

    /** Binary search over the restart points, then a scan: the first key at or after the target. */
    method Seek(target: Slice)
      requires Valid()
      modifies this
      ensures Valid() && LowerBound(kvs, less, target, pos)
    {
      hide Built, Encoded, RestartIndices, Offset, Shared, StrictOrder, KeysAscend;
      assert Built();
      CountRestarts();
      var left, right := 0, numRestarts - 1;
      while left < right
        invariant 0 <= left <= right < numRestarts
        invariant left == 0 || (RestartEntry(left) < |kvs| && less(kvs[RestartEntry(left)].key, target))
        decreases right - left
      {
        var mid := (left + right + 1) / 2;
        var midKey := KeyAtRestart(mid);
        if less(midKey, target) {
          left := mid;
        } else {
          right := mid - 1;
        }
      }
      ghost var j := RestartEntry(left);
      KeysBefore(j, target);
      SeekToRestartPoint(left);
      while true
        invariant Built() && Ready(j) && forall i :: 0 <= i < j ==> less(kvs[i].key, target)
        decreases |kvs| - j
      {
        var more := ParseNextKey(j);
        if !more {
          return;
        }
        if !less(key, target) {
          KeysAfter(j, target);
          return;
        }
        NextIsReady();
        j := j + 1;
      }
    }

    /** The whole key of a restart entry, which shares nothing. */
    method KeyAtRestart(r: nat) returns (k: Slice)
      requires Built() && 0 < r < numRestarts
      ensures RestartEntry(r) < |kvs| && k == kvs[RestartEntry(r)].key
    {
      hide Encoded, Offset, DecodeEntry, BlockBytes, StrictOrder, KeysAscend;
      var offset := GetRestartPoint(r);
      ghost var x := RestartEntry(r);
      BlockParts(kvs, interval);
      ListedIsRestart(|kvs|, interval, r);
      EntryDecodes(kvs, interval, x);
      assert data[offset..restarts] == Encoded(kvs, interval)[offset..];
      var h := DecodeEntry(data[offset..restarts]);
      k := h.rest[..h.nonShared];
    }

    lemma KeysBefore(j: nat, target: Slice)
      requires Built() && j <= |kvs| && (j == 0 || (j < |kvs| && less(kvs[j].key, target)))
      ensures forall i :: 0 <= i < j ==> less(kvs[i].key, target)
    {
    }

    lemma KeysAfter(j: nat, target: Slice)
      requires Built() && j < |kvs| && !less(kvs[j].key, target)
      ensures forall i :: j <= i < |kvs| ==> !less(kvs[i].key, target)
    {
      forall i | j <= i < |kvs| ensures !less(kvs[i].key, target) {
        assert i == j || less(kvs[j].key, kvs[i].key);
      }
    }
  }

  /** Offsets are in the order of the entries. */
  lemma OffsetOrder(kvs: seq<KV>, interval: nat, i: nat, j: nat)
    requires i <= |kvs| && j <= |kvs|
    ensures Offset(kvs, interval, i) < Offset(kvs, interval, j) <==> i < j
  {
    hide Encoded;
    if i < j {
      OffsetsAscend(kvs, interval, i, j);
    } else {
      OffsetsAscend(kvs, interval, j, i);
    }
  }

  lemma WholeOffset(kvs: seq<KV>, interval: nat)
    ensures Offset(kvs, interval, |kvs|) == |Encoded(kvs, interval)|
  {
    assert kvs[..|kvs|] == kvs;
  }
}
