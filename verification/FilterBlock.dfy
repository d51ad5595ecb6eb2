/** Filter blocks: one filter for every two kilobytes of data blocks. */
module FilterBlock {
  import opened Bytes
  import opened Coding
  import opened BlockFormat
  import opened Bloom

  const FILTER_BASE_LG: Byte := 11
  const FILTER_BASE: nat := 2048

  function Flat(keys: seq<Slice>): Slice {
    if keys == [] then [] else Flat(keys[..|keys| - 1]) + keys[|keys| - 1]
  }

  lemma {:induction false} FlatPrefix(keys: seq<Slice>, i: nat)
    requires i <= |keys|
    ensures Flat(keys[..i]) <= Flat(keys)
    decreases |keys|
  {
    if i < |keys| {
      FlatPrefix(keys[..|keys| - 1], i);
      assert keys[..|keys| - 1][..i] == keys[..i];
    } else {
      assert keys[..i] == keys;
    }
  }

  lemma KeyInFlat(keys: seq<Slice>, i: nat)
    requires i < |keys|
    ensures |Flat(keys[..i])| <= |Flat(keys[..i + 1])| <= |Flat(keys)|
    ensures Flat(keys)[|Flat(keys[..i])|..|Flat(keys[..i + 1])|] == keys[i]
  {
    FlatPrefix(keys, i + 1);
    assert keys[..i + 1][..i] == keys[..i];
  }

  /** The filter of one group of keys: empty if there are none. */
  ghost predicate FilterFor(policy: BloomFilterPolicy, keys: seq<Slice>, filter: Slice) {
    if keys == [] then filter == [] else IsFilter(policy.hash, policy.bitsPerKey, policy.k, keys, filter)
  }

  /** Filters laid end to end from the offsets on. */
  ghost predicate Laid(policy: BloomFilterPolicy, made: seq<seq<Slice>>, offsets: seq<nat>, result: Slice) {
    && |offsets| == |made|
    && (forall i :: 0 <= i < |offsets| ==> offsets[i] <= EndOf(offsets, result, i) <= |result|)
    && forall i :: 0 <= i < |offsets| ==> FilterFor(policy, made[i], result[offsets[i]..EndOf(offsets, result, i)])
  }

  function EndOf(offsets: seq<nat>, result: Slice, i: nat): nat {
    if i + 1 < |offsets| then offsets[i + 1] else |result|
  }

  /** One more filter at the end. */
  lemma LayOneMore(policy: BloomFilterPolicy, made: seq<seq<Slice>>, offsets: seq<nat>, result: Slice, keys: seq<Slice>, after: Slice)
    requires Laid(policy, made, offsets, result) && result <= after && FilterFor(policy, keys, after[|result|..])
    ensures Laid(policy, made + [keys], offsets + [|result|], after)
  {
    hide FilterFor;
    var more := offsets + [|result|];
    forall i | 0 <= i < |more|
      ensures more[i] <= EndOf(more, after, i) <= |after| && FilterFor(policy, (made + [keys])[i], after[more[i]..EndOf(more, after, i)])
    {
      if i < |offsets| {
        assert EndOf(more, after, i) == EndOf(offsets, result, i);
        assert after[more[i]..EndOf(more, after, i)] == result[offsets[i]..EndOf(offsets, result, i)];
      } else {
        assert after[|result|..|after|] == after[|result|..];
      }
    }
  }

  /** The keys that were added under offsets of the i-th two kilobytes, in order. */
  function KeysIn(added: seq<(nat, Slice)>, i: nat): seq<Slice> {
    if added == [] then []
    else
      var front, last := KeysIn(added[..|added| - 1], i), added[|added| - 1];
      if last.0 / FILTER_BASE == i then front + [last.1] else front
  }

  /** Every group but the last has its filter, and nothing is beyond the last. */
  ghost predicate Grouped(added: seq<(nat, Slice)>, made: seq<seq<Slice>>, pending: seq<Slice>) {
    && (forall i :: 0 <= i < |made| ==> made[i] == KeysIn(added, i)) && pending == KeysIn(added, |made|)
    && forall a :: a in added ==> a.0 / FILTER_BASE <= |made|
  }

  lemma {:induction false} NothingBeyond(added: seq<(nat, Slice)>, n: nat)
    requires forall a :: a in added ==> a.0 / FILTER_BASE < n
    ensures KeysIn(added, n) == []
  {
    if added != [] {
      var front := added[..|added| - 1];
      assert forall a :: a in front ==> a in added;
      assert added[|added| - 1] in added;
      NothingBeyond(front, n);
    }
  }

  lemma OneMoreAdded(added: seq<(nat, Slice)>, made: seq<seq<Slice>>, pending: seq<Slice>, offset: nat, key: Slice)
    requires Grouped(added, made, pending) && offset / FILTER_BASE == |made|
    ensures Grouped(added + [(offset, key)], made, pending + [key])
  {
    assert (added + [(offset, key)])[..|added|] == added;
  }

  lemma OneMoreMade(added: seq<(nat, Slice)>, made: seq<seq<Slice>>, pending: seq<Slice>)
    requires Grouped(added, made, pending)
    ensures Grouped(added, made + [pending], [])
  {
    NothingBeyond(added, |made| + 1);
  }

  lemma {:induction false} AddedIsIn(added: seq<(nat, Slice)>, a: (nat, Slice))
    requires a in added
    ensures a.1 in KeysIn(added, a.0 / FILTER_BASE)
  {
    if a != added[|added| - 1] {
      AddedIsIn(added[..|added| - 1], a);
    }
  }

  class FilterBlockBuilder {
    const policy: BloomFilterPolicy
    var keys: Slice
    var start: seq<nat>
    var result: Slice
    var filterOffsets: seq<nat>
    /** The keys since the last filter, those of each filter, and every key ever added with the
        offset of the block it is in. */
    ghost var pending: seq<Slice>
    ghost var made: seq<seq<Slice>>
    ghost var block: nat
    ghost var added: seq<(nat, Slice)>

    ghost predicate Valid()
      reads this
    {
      && 1 <= policy.k <= 30
      && keys == Flat(pending) && |start| == |pending| && (forall i :: 0 <= i < |start| ==> start[i] == |Flat(pending[..i])|)
      && Laid(policy, made, filterOffsets, result) && Grouped(added, made, pending)
    }

    constructor (policy: BloomFilterPolicy)
      requires 1 <= policy.k <= 30
      ensures Valid() && this.policy == policy && added == [] && made == [] && block == 0 && pending == []
    {
      this.policy := policy;
      keys, start, result, filterOffsets := [], [], [], [];
      pending, made, block, added := [], [], 0, [];
    }

    /** The next data block starts at this offset: filters are made up to its own. */
    method StartBlock(blockOffset: nat)
      requires Valid() && blockOffset / FILTER_BASE >= |made|
      modifies this
      ensures Valid() && |made| == blockOffset / FILTER_BASE && block == blockOffset && added == old(added)
    {
      hide Laid, Flat, Grouped;
      var filterIndex := blockOffset / FILTER_BASE;
      CountFilters();
      while filterIndex > |filterOffsets|
        invariant Valid() && |filterOffsets| == |made| <= filterIndex && added == old(added)
      {
        GenerateFilter();
        CountFilters();
      }
      CountFilters();
      block := blockOffset;
    }

    lemma CountFilters()
      requires Valid()
      ensures |filterOffsets| == |made|
    {
    }

    method AddKey(key: Slice)
      requires Valid() && block / FILTER_BASE == |made|
      modifies this
      ensures Valid() && block == old(block) && made == old(made) && added == old(added) + [(block, key)]
    {
      hide Laid, Grouped;
      OneMoreAdded(added, made, pending, block, key);
      start := start + [|keys|];
      keys := keys + key;
      pending := pending + [key];
      added := added + [(block, key)];
      assert pending[..|pending| - 1] == old(pending);
      forall i | 0 <= i < |start| ensures start[i] == |Flat(pending[..i])| {
        if i < |old(start)| {
          assert pending[..i] == old(pending)[..i];
        }
      }
    }

    /** Makes the filter of the pending keys, an empty one if there are none. */
    method GenerateFilter()
      requires Valid()
      modifies this
      ensures Valid() && made == old(made) + [old(pending)] && pending == [] && added == old(added) && block == old(block)
      ensures start == []
    {
      hide Laid, FilterFor, Grouped;
      OneMoreMade(added, made, pending);
      ghost var before := result;
      var numKeys := |start|;
      if numKeys == 0 {
        filterOffsets := filterOffsets + [|result|];
        EmptyFilter(policy);
        assert result[|result|..] == [];
      } else {
        var tmpKeys := ListKeys();
        filterOffsets := filterOffsets + [|result|];
        result := policy.CreateFilter(tmpKeys, result);
        NonEmptyFilter(policy, tmpKeys, result[|before|..]);
        keys, start := [], [];
      }
      LayOneMore(policy, made, old(filterOffsets), before, pending, result);
      made := made + [pending];
      pending := [];
    }

    /** Cuts the flattened keys apart again. */
    method ListKeys() returns (tmpKeys: seq<Slice>)
      requires Valid()
      ensures tmpKeys == pending
    {
      hide Laid, Flat, Grouped;
      var limits := start + [|keys|];
      assert pending[..|pending|] == pending;
      tmpKeys := [];
      for i := 0 to |start|
        invariant tmpKeys == pending[..i]
      {
        KeyInFlat(pending, i);
        tmpKeys := tmpKeys + [keys[limits[i]..limits[i + 1]]];
      }
    }

    /** The filter block: filters, their offsets, where the offsets start, and the base. */
    method Finish() returns (r: Slice)
      requires Valid()
      modifies this
      ensures |r| < TWO32 ==> Answers(policy, added, |made|, r)
      ensures |made| == |old(made)| + if old(pending) == [] then 0 else 1
      ensures |r| < TWO32 ==> forall a :: a in added ==> BlockMayMatch(policy.hash, r, a.0, a.1)
      ensures added == old(added) && result == r
    {
      hide Laid, FixedArray, Fixed, BlockMayMatch, Grouped, Answers;
      if start != [] {
        GenerateFilter();
      }
      var arrayOffset := |result|;
      var contents, offsets := result, filterOffsets;
      for i := 0 to |offsets|
        invariant contents == result + FixedArray(offsets[..i]) && |result| == arrayOffset
        invariant Valid() && offsets == filterOffsets && pending == [] && added == old(added)
        invariant |made| == |old(made)| + if old(pending) == [] then 0 else 1
      {
        ArrayGrows(offsets, i);
        contents := contents + Fixed32(offsets[i]);
      }
      assert offsets[..|offsets|] == offsets;
      r := contents + Fixed32(arrayOffset) + [FILTER_BASE_LG];
      if |r| < TWO32 {
        FinishedAnswers(policy, added, made, filterOffsets, result, r);
        AddedMayMatch(policy, added, made, r);
      }
      result := r;
    }
  }

  lemma ArrayGrows(ns: seq<nat>, i: nat)
    requires i < |ns|
    ensures FixedArray(ns[..i + 1]) == FixedArray(ns[..i]) + Fixed32(ns[i])
    ensures FixedArray(ns[..0]) == []
  {
    assert ns[..i + 1][..i] == ns[..i];
  }

  lemma EmptyFilter(policy: BloomFilterPolicy)
    ensures FilterFor(policy, [], [])
  {
  }

  lemma NonEmptyFilter(policy: BloomFilterPolicy, keys: seq<Slice>, filter: Slice)
    requires keys != [] && IsFilter(policy.hash, policy.bitsPerKey, policy.k, keys, filter)
    ensures FilterFor(policy, keys, filter)
  {
  }

  /** What a filter block with n filters answers, for any key and offset: within these groups it rules out the keys that
      have a probe which is no probe of the keys added there, and every key where none was added. */
  ghost predicate Answers(policy: BloomFilterPolicy, added: seq<(nat, Slice)>, n: nat, r: Slice) {
    forall offset: nat, key :: BlockMayMatch(policy.hash, r, offset, key) <==> Answer(policy, added, n, offset / FILTER_BASE, key)
  }

  ghost predicate Answer(policy: BloomFilterPolicy, added: seq<(nat, Slice)>, n: nat, i: nat, key: Slice) {
    i < n ==> KeysIn(added, i) != [] && AllProbed(policy.hash, policy.bitsPerKey, policy.k, KeysIn(added, i), key)
  }

  // -------------------------------------------------------------------------- reading

  /** The filter that a data block's keys are in. */
  function BlockIndex(blockOffset: nat, baseLg: nat): nat {
    PowIsPositive(baseLg);
    blockOffset / Pow(2, baseLg)
  }

  /** What the filter between two words of the offset array says; lastWord is where the array starts. */
  ghost predicate EntryMayMatch(hash: Hash, contents: Slice, at: nat, lastWord: nat, key: Slice)
    requires lastWord <= at && at + 8 <= |contents|
  {
    var first, limit := DecodeFixed(contents[at..at + 4]), DecodeFixed(contents[at + 4..at + 8]);
    if first <= limit && limit <= lastWord then MayMatch(hash, key, contents[first..limit]) else first != limit
  }

  /** What the reader answers for a key in the data block at an offset. */
  ghost predicate BlockMayMatch(hash: Hash, contents: Slice, blockOffset: nat, key: Slice) {
    var n := |contents|;
    if n < 5 then true
    else
      var lastWord := DecodeFixed(contents[n - 5..n - 1]);
      var index := BlockIndex(blockOffset, contents[n - 1]);
      if lastWord > n - 5 || index >= (n - 5 - lastWord) / 4 then true
      else EntryMayMatch(hash, contents, lastWord + index * 4, lastWord, key)
  }

  lemma WordAt(r: Slice, from: nat, ends: seq<nat>, i: nat)
    requires i < |ends| && (forall k :: 0 <= k < |ends| ==> ends[k] < TWO32)
    requires from + 4 * |ends| < |r| && r[from..from + 4 * |ends|] == FixedArray(ends)
    ensures from + 4 * i + 4 < |r| && DecodeFixed(r[from + 4 * i..from + 4 * i + 4]) == ends[i]
  {
    hide FixedArray, DecodeFixed;
    ArrayAt(ends, i);
    WordInArray(r, from, |ends|, i);
  }

  /** The parts of a finished filter block: filters, the words behind them, and the base. */
  lemma PartsOfBlock(result: Slice, offsets: seq<nat>, r: Slice)
    requires r == result + FixedArray(offsets) + Fixed32(|result|) + [FILTER_BASE_LG]
    ensures var ends := offsets + [|result|]; var n := |result|;
      && |r| == n + 4 * |ends| + 1 && r[..n] == result && r[n..n + 4 * |ends|] == FixedArray(ends) && r[|r| - 1] == FILTER_BASE_LG
  {
    hide FixedArray, Fixed;
    var ends, n := offsets + [|result|], |result|;
    ArrayGrows(ends, |offsets|);
    assert ends[..|offsets|] == offsets && ends[..|ends|] == ends;
    assert r == result + FixedArray(ends) + [FILTER_BASE_LG];
    assert r[n..n + 4 * |ends|] == FixedArray(ends);
  }

  /** Every key and offset is answered by the filter that the offset leads to, or let pass where there is none. */
  lemma FinishedAnswers(policy: BloomFilterPolicy, added: seq<(nat, Slice)>, made: seq<seq<Slice>>, offsets: seq<nat>, result: Slice, r: Slice)
    requires Laid(policy, made, offsets, result) && Grouped(added, made, []) && |r| < TWO32 && policy.k <= 30
    requires r == result + FixedArray(offsets) + Fixed32(|result|) + [FILTER_BASE_LG]
    ensures Answers(policy, added, |made|, r)
  {
    hide FixedArray, Fixed, Laid, BlockMayMatch, AllProbed, KeysIn, Grouped;
    forall offset: nat, key ensures BlockMayMatch(policy.hash, r, offset, key) <==> Answer(policy, added, |made|, offset / FILTER_BASE, key) {
      OneAnswer(policy, added, made, offsets, result, r, offset, key);
    }
  }

  lemma OneAnswer(policy: BloomFilterPolicy, added: seq<(nat, Slice)>, made: seq<seq<Slice>>, offsets: seq<nat>, result: Slice, r: Slice,
                  blockOffset: nat, key: Slice)
    requires Laid(policy, made, offsets, result) && Grouped(added, made, []) && |r| < TWO32 && policy.k <= 30
    requires r == result + FixedArray(offsets) + Fixed32(|result|) + [FILTER_BASE_LG]
    ensures BlockMayMatch(policy.hash, r, blockOffset, key) <==> Answer(policy, added, |made|, blockOffset / FILTER_BASE, key)
  {
    hide FixedArray, DecodeFixed, Fixed, MayMatch, Pow, Laid, BlockMayMatch, AllProbed, KeysIn;
    var ends, index := offsets + [|result|], blockOffset / FILTER_BASE;
    PartsOfBlock(result, offsets, r);
    BaseIsPower();
    OffsetsFit(policy, made, offsets, result);
    if index < |made| {
      FilterOf(policy, made, offsets, result, index, key);
      FilterDecides(policy.hash, r, |result|, ends, blockOffset, index, key);
    } else {
      NoFilterFor(policy.hash, r, |result|, ends, blockOffset, key);
    }
  }

  lemma AddedMayMatch(policy: BloomFilterPolicy, added: seq<(nat, Slice)>, made: seq<seq<Slice>>, r: Slice)
    requires Answers(policy, added, |made|, r) && policy.k <= 30
    ensures forall a :: a in added ==> BlockMayMatch(policy.hash, r, a.0, a.1)
  {
    hide BlockMayMatch, KeysIn, AllProbed;
    forall a | a in added ensures BlockMayMatch(policy.hash, r, a.0, a.1) {
      AddedIsIn(added, a);
      KeyIsProbed(policy.hash, policy.bitsPerKey, policy.k, KeysIn(added, a.0 / FILTER_BASE), a.1);
    }
  }

  /** The reader's arithmetic leads to the filter of the block offset: an empty one rules out every key. */
  lemma FilterDecides(hash: Hash, r: Slice, n: nat, ends: seq<nat>, blockOffset: nat, index: nat, key: Slice)
    requires |r| == n + 4 * |ends| + 1 && r[n..n + 4 * |ends|] == FixedArray(ends) && |r| < TWO32
    requires index + 1 < |ends| && ends[|ends| - 1] == n && forall k :: 0 <= k < |ends| ==> ends[k] <= n
    requires index == BlockIndex(blockOffset, r[|r| - 1]) && ends[index] <= ends[index + 1]
    ensures BlockMayMatch(hash, r, blockOffset, key) <==> MayMatch(hash, key, r[..n][ends[index]..ends[index + 1]])
  {
    hide FixedArray, DecodeFixed, MayMatch, BlockIndex, EntryMayMatch;
    ArrayStart(r, n, ends);
    EntryDecides(hash, r, n, ends, index, key);
  }

  /** Beyond the last filter every key may match. */
  lemma NoFilterFor(hash: Hash, r: Slice, n: nat, ends: seq<nat>, blockOffset: nat, key: Slice)
    requires |r| == n + 4 * |ends| + 1 && r[n..n + 4 * |ends|] == FixedArray(ends) && |r| < TWO32
    requires ends != [] && ends[|ends| - 1] == n && forall k :: 0 <= k < |ends| ==> ends[k] <= n
    requires BlockIndex(blockOffset, r[|r| - 1]) + 1 >= |ends|
    ensures BlockMayMatch(hash, r, blockOffset, key)
  {
    hide FixedArray, DecodeFixed, MayMatch, BlockIndex, EntryMayMatch;
    ArrayStart(r, n, ends);
  }

  lemma ArrayStart(r: Slice, n: nat, ends: seq<nat>)
    requires |r| == n + 4 * |ends| + 1 && r[n..n + 4 * |ends|] == FixedArray(ends)
    requires ends != [] && ends[|ends| - 1] == n < TWO32 && forall k :: 0 <= k < |ends| ==> ends[k] <= n
    ensures DecodeFixed(r[|r| - 5..|r| - 1]) == n && (|r| - 5 - n) / 4 == |ends| - 1
  {
    hide FixedArray, DecodeFixed;
    WordAt(r, n, ends, |ends| - 1);
  }

  lemma EntryDecides(hash: Hash, r: Slice, n: nat, ends: seq<nat>, index: nat, key: Slice)
    requires |r| == n + 4 * |ends| + 1 && r[n..n + 4 * |ends|] == FixedArray(ends) && n < TWO32
    requires index + 1 < |ends| && forall k :: 0 <= k < |ends| ==> ends[k] <= n
    requires ends[index] <= ends[index + 1]
    ensures EntryMayMatch(hash, r, n + index * 4, n, key) <==> MayMatch(hash, key, r[..n][ends[index]..ends[index + 1]])
  {
    hide FixedArray, DecodeFixed, MayMatch;
    WordAt(r, n, ends, index);
    WordAt(r, n, ends, index + 1);
    InFront(r, n, ends[index], ends[index + 1]);
  }

  lemma InFront(r: Slice, n: nat, i: nat, j: nat)
    requires i <= j <= n <= |r|
    ensures r[..n][i..j] == r[i..j]
  {
  }

  lemma OffsetsFit(policy: BloomFilterPolicy, made: seq<seq<Slice>>, offsets: seq<nat>, result: Slice)
    requires Laid(policy, made, offsets, result)
    ensures |offsets| == |made| && forall i :: 0 <= i < |offsets| ==> offsets[i] <= |result|
    ensures var ends := offsets + [|result|]; forall i :: 0 <= i < |ends| ==> ends[i] <= |result|
  {
    hide FilterFor;
  }

  /** The filter of a group says what its keys and their probes say. */
  lemma FilterOf(policy: BloomFilterPolicy, made: seq<seq<Slice>>, offsets: seq<nat>, result: Slice, index: nat, key: Slice)
    requires Laid(policy, made, offsets, result) && index < |made| && policy.k <= 30
    ensures |offsets| == |made|
    ensures var ends := offsets + [|result|];
      && ends[index] <= ends[index + 1] <= |result|
      && var found := made[index] != [] && AllProbed(policy.hash, policy.bitsPerKey, policy.k, made[index], key);
        MayMatch(policy.hash, key, result[ends[index]..ends[index + 1]]) <==> found
  {
    var ends := offsets + [|result|];
    assert EndOf(offsets, result, index) == ends[index + 1];
    var filter := result[ends[index]..ends[index + 1]];
    assert FilterFor(policy, made[index], filter);
    hide Laid, AllProbed, IsFilter;
    if made[index] == [] {
      NoFilterMatches(policy.hash, key);
    } else {
      MatchesIff(policy.hash, policy.bitsPerKey, policy.k, made[index], filter, key);
    }
  }

  lemma NoFilterMatches(hash: Hash, key: Slice)
    ensures !MayMatch(hash, key, [])
  {
  }

  lemma BaseIsPower()
    ensures Pow(2, FILTER_BASE_LG) == FILTER_BASE
  {
    assert Pow(2, 4) == 16 && Pow(2, 8) == 256 by {
      assert Pow(2, 2) == 4 && Pow(2, 6) == 64;
    }
    assert Pow(2, 10) == 1024;
  }

  class FilterBlockReader {
    const policy: BloomFilterPolicy
    /** The whole block; no filters are known of unless its tail makes sense. */
    const data: Slice
    var offset: nat
    var num: nat
    var baseLg: Byte

    ghost predicate Valid()
      reads this
    {
      if |data| < 5 || DecodeFixed(data[|data| - 5..|data| - 1]) > |data| - 5 then num == 0
      else
        && baseLg == data[|data| - 1]
        && offset == DecodeFixed(data[|data| - 5..|data| - 1])
        && num == (|data| - 5 - offset) / 4
    }

    constructor (policy: BloomFilterPolicy, contents: Slice)
      ensures Valid() && this.policy == policy && data == contents
    {
      this.policy, data := policy, contents;
      offset, num, baseLg := 0, 0, 0;
      new;
      var n := |contents|;
      if n < 5 {
        return;
      }
      baseLg := contents[n - 1];
      var lastWord := DecodeFixed(contents[n - 5..n - 1]);
      if lastWord > n - 5 {
        return;
      }
      offset := lastWord;
      num := (n - 5 - lastWord) / 4;
    }

    /** A key in the block at an offset is ruled out only by the filter for that offset; errors are
        taken as potential matches. */
    method KeyMayMatch(blockOffset: nat, key: Slice) returns (may: bool)
      requires Valid()
      ensures may == BlockMayMatch(policy.hash, data, blockOffset, key)
    {
      hide DecodeFixed, MayMatch, BlockIndex;
      var index := BlockIndex(blockOffset, baseLg);
      if index < num {
        var start := DecodeFixed(data[offset + index * 4..offset + index * 4 + 4]);
        var limit := DecodeFixed(data[offset + index * 4 + 4..offset + index * 4 + 8]);
        if start <= limit && limit <= offset {
          may := policy.KeyMayMatch(key, data[start..limit]);
          return;
        } else if start == limit {
          return false;
        }
      }
      may := true;
    }
  }

  lemma {:induction false} PowIsPositive(n: nat)
    ensures Pow(2, n) > 0
  {
    if n > 0 {
      PowIsPositive(n - 1);
    }
  }

  /** A block built key by key and read back rules out none of the keys of each data block, and of the other keys just those
      with a probe that is no probe of the keys added in the same two kilobytes. */
  method BuildAndQuery(builder: FilterBlockBuilder, blockOffset: nat, key: Slice) returns (may: bool)
    requires builder.Valid()
    modifies builder
    ensures |builder.result| < TWO32 && (blockOffset, key) in builder.added ==> may
    ensures |builder.result| < TWO32 ==>
      (may <==> Answer(builder.policy, builder.added, |builder.made|, blockOffset / FILTER_BASE, key))
    ensures builder.added == old(builder.added) && |builder.made| == |old(builder.made)| + if old(builder.pending) == [] then 0 else 1
  {
    hide BlockMayMatch, Answer, KeysIn;
    var contents := builder.Finish();
    var reader := new FilterBlockReader(builder.policy, contents);
    may := reader.KeyMayMatch(blockOffset, key);
  }
}
