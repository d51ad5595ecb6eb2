/** Building a table file and looking a key up in it. */
module Table {
  import opened Bytes
  import opened DbFormat
  import opened Coding
  import opened LogFormat
  import opened BlockFormat
  import opened Block
  import opened InternalKeys
  import opened TableFormat
  import FilterBlock
  import Bloom

  /** Entries and blocks beyond this size would not fit the 32-bit offsets of a block. */
  const MAX_ENTRY: nat := 0x4000_0000
  const MAX_NAME: nat := 0x1000_0000

  // ------------------------------------------------------------ what filters are asked for

  /** The user keys of a block at an offset. */
  function UserKeys(offset: nat, kvs: seq<KV>): set<(nat, Slice)> { set kv | kv in kvs :: (offset, UserKeyOf(kv.key)) }

  /** The user keys of all blocks, each with the offset of its block. */
  function KeysAt(parts: seq<Part>): set<(nat, Slice)> {
    if parts == [] then {} else KeysAt(parts[..|parts| - 1]) + UserKeys(Last(parts).handle.offset, Last(parts).kvs)
  }

  /** A filter knows the keys of the parts, and those of a block that starts at an offset. */
  ghost predicate Knows(added: seq<(nat, Slice)>, parts: seq<Part>, offset: nat, kvs: seq<KV>) {
    forall p :: p in KeysAt(parts) + UserKeys(offset, kvs) ==> p in added
  }

  lemma KnowsMore(added: seq<(nat, Slice)>, parts: seq<Part>, offset: nat, kvs: seq<KV>, kv: KV)
    requires Knows(added, parts, offset, kvs) && (offset, UserKeyOf(kv.key)) in added
    ensures Knows(added, parts, offset, kvs + [kv])
  {
    hide UserKeyOf, KeysAt;
    assert UserKeys(offset, kvs + [kv]) == UserKeys(offset, kvs) + {(offset, UserKeyOf(kv.key))};
  }

  lemma KnowsPart(added: seq<(nat, Slice)>, parts: seq<Part>, p: Part, offset: nat)
    requires Knows(added, parts, p.handle.offset, p.kvs)
    ensures Knows(added, parts + [p], offset, [])
  {
    hide UserKeyOf;
    assert (parts + [p])[..|parts|] == parts;
    assert UserKeys(offset, []) == {};
  }

  lemma SameKnown(added: seq<(nat, Slice)>, before: seq<Part>, after: seq<Part>, offset: nat, kvs: seq<KV>)
    requires Knows(added, before, offset, kvs) && KeysAt(before) == KeysAt(after)
    ensures Knows(added, after, offset, kvs)
  {
  }

  lemma KnownStays(added: seq<(nat, Slice)>, parts: seq<Part>, offset: nat, kvs: seq<KV>, p: (nat, Slice))
    requires Knows(added, parts, offset, kvs)
    ensures Knows(added + [p], parts, offset, kvs) && p in added + [p]
  {
  }

  lemma NothingToKnow(offset: nat)
    ensures Knows([], [], offset, [])
  {
  }

  lemma {:induction false} KeyOfPart(parts: seq<Part>, b: nat, j: nat)
    requires b < |parts| && j < |parts[b].kvs|
    ensures (parts[b].handle.offset, UserKeyOf(parts[b].kvs[j].key)) in KeysAt(parts)
  {
    hide UserKeyOf;
    if b < |parts| - 1 {
      KeyOfPart(parts[..|parts| - 1], b, j);
    }
  }

  /** A filter block that waits for the keys of the first block. */
  method NewFilter(policy: Bloom.BloomFilterPolicy?) returns (filter: FilterBlock.FilterBlockBuilder?)
    requires policy != null ==> 1 <= policy.k <= 30
    ensures filter == null <==> policy == null
    ensures filter != null ==> fresh(filter) && filter.policy == policy && filter.Valid() && filter.block == 0 && filter.made == []
    ensures filter != null ==> Knows(filter.added, [], 0, [])
  {
    hide Knows;
    filter := null;
    if policy != null {
      filter := new FilterBlock.FilterBlockBuilder(policy);
      filter.StartBlock(0);
      NothingToKnow(0);
    }
  }

  class TableBuilder {
    const sum: Checksum
    const blockSize: nat
    const interval: nat
    const filterBlock: FilterBlock.FilterBlockBuilder?
    const filterName: Slice
    var file: Slice
    const dataBlock: BlockBuilder
    const indexBlock: BlockBuilder
    var lastKey: Slice
    var numEntries: nat
    var pendingIndexEntry: bool
    var pendingHandle: BlockHandle
    var closed: bool
    ghost var parts: seq<Part>

    /** Everything added so far. */
    ghost function Added(): seq<KV>
      reads this, dataBlock
    {
      TableFormat.Flatten(parts) + dataBlock.kvs
    }

    ghost predicate Blocks()
      reads this, dataBlock, indexBlock
    {
      && dataBlock != indexBlock && dataBlock.Valid() && indexBlock.Valid() && !dataBlock.finished && !indexBlock.finished
      && dataBlock.interval == interval >= 1 && indexBlock.interval == 1 && blockSize <= MAX_ENTRY
    }

    ghost predicate Pending()
      reads this, dataBlock, indexBlock
    {
      && parts != [] && dataBlock.kvs == [] && pendingHandle == Last(parts).handle
      && Last(parts).kvs != [] && lastKey == Last(Last(parts).kvs).key && GoodKey(lastKey)
      && indexBlock.kvs == IndexEntries(parts[..|parts| - 1])
    }

    ghost predicate Filling()
      reads this, dataBlock, indexBlock
    {
      && indexBlock.kvs == IndexEntries(parts) && DataOk(dataBlock.kvs, interval, blockSize)
      && (parts != [] ==> dataBlock.kvs != [] && Last(parts).kvs != [] && SplitBefore(Last(parts), dataBlock.kvs[0].key))
      && (dataBlock.kvs != [] ==> lastKey == Last(dataBlock.kvs).key)
    }

    ghost predicate Valid()
      reads this, dataBlock, indexBlock
    {
      && Blocks() && PartsOk(sum, file, interval, parts) && numEntries == |Added()|
      && if pendingIndexEntry then Pending() else Filling()
    }

    /** The filter block, if there is one, is at the data block and knows every key so far. */
    ghost predicate Filters()
      reads this, dataBlock, filterBlock
    {
      filterBlock != null ==>
        && filterBlock.Valid() && filterBlock.block == |file| && |filterBlock.made| == |file| / FilterBlock.FILTER_BASE
        && Knows(filterBlock.added, parts, |file|, dataBlock.kvs)
    }

    constructor (sum: Checksum, blockSize: nat, interval: nat, policy: Bloom.BloomFilterPolicy?, filterName: Slice)
      requires interval >= 1 && blockSize <= MAX_ENTRY && (policy != null ==> 1 <= policy.k <= 30) && |filterName| <= MAX_NAME
      ensures Valid() && Filters() && Added() == [] && !closed && fresh(dataBlock) && fresh(indexBlock)
      ensures (filterBlock == null <==> policy == null) && this.filterName == filterName && this.sum == sum && this.interval == interval
      ensures filterBlock != null ==> fresh(filterBlock) && filterBlock.policy == policy
    {
      this.sum, this.blockSize, this.interval, this.filterName := sum, blockSize, interval, filterName;
      file, lastKey, numEntries, pendingIndexEntry, pendingHandle, closed := [], [], 0, false, BlockHandle(0, 0), false;
      parts := [];
      dataBlock := new BlockBuilder(interval);
      indexBlock := new BlockBuilder(1);
      var filter := NewFilter(policy);
      filterBlock := filter;
    }

    /** Writes a finished block and its trailer at the end of the file. */
    method WriteBlock(block: BlockBuilder) returns (handle: BlockHandle)
      requires block.Valid() && !block.finished
      modifies this`file, block
      ensures block.Valid() && block.kvs == [] && !block.finished
      ensures file == old(file) + Stored(sum, BlockBytes(old(block.kvs), block.interval))
      ensures old(file) <= file && handle.offset + handle.size <= |file|
      ensures handle.offset == |old(file)| && StoredAt(sum, file, handle, BlockBytes(old(block.kvs), block.interval))
    {
      hide BlockBytes, RestartOffsets, RestartIndices, Encoded, Stored, StoredAt;
      var raw := block.Finish();
      handle := BlockHandle(|file|, |raw|);
      file := file + raw;
      file := file + ([NO_COMPRESSION] + sum(raw + [NO_COMPRESSION]));
      AppendStored(sum, old(file), raw);
      block.Reset();
    }

    /** Emits the index entry of the last block, under a key that is before the next key. */
    method EmitIndexEntry(key: Slice)
      requires Blocks() && PartsOk(sum, file, interval, parts) && Pending() && pendingIndexEntry
      requires GoodKey(key) && InternalLess(lastKey, key)
      modifies this`lastKey, this`pendingIndexEntry, this`parts, indexBlock
      ensures Blocks() && PartsOk(sum, file, interval, parts) && !pendingIndexEntry
      ensures parts != [] && Last(parts).kvs != [] && SplitBefore(Last(parts), key)
      ensures indexBlock.kvs == IndexEntries(parts) && TableFormat.Flatten(parts) == TableFormat.Flatten(old(parts))
      ensures KeysAt(parts) == KeysAt(old(parts)) && |parts| == |old(parts)|
    {
      hide InternalLess, Encoded, RestartOffsets, RestartIndices, BlockBytes, Stored, PartsOk, KeysAt, TableFormat.Flatten, BlockBuilder.Valid;
      ghost var last := Last(parts);
      lastKey := FindShortestInternalSeparator(lastKey, key);
      indexBlock.Add(lastKey, EncodeHandle(pendingHandle));
      SetSeparator(sum, file, interval, parts, lastKey);
      parts := parts[..|parts| - 1] + [last.(separator := lastKey)];
      pendingIndexEntry := false;
    }

    /** Emits the index entry of the very last block, under a short key at or after its keys. */
    method EmitLastIndexEntry()
      requires Blocks() && PartsOk(sum, file, interval, parts) && Pending() && pendingIndexEntry
      modifies this`lastKey, this`pendingIndexEntry, this`parts, indexBlock
      ensures Blocks() && PartsOk(sum, file, interval, parts) && LastCovered(parts)
      ensures indexBlock.kvs == IndexEntries(parts) && TableFormat.Flatten(parts) == TableFormat.Flatten(old(parts))
      ensures KeysAt(parts) == KeysAt(old(parts))
    {
      hide InternalLess, Encoded, RestartOffsets, RestartIndices, BlockBytes, Stored, PartsOk, IndexEntries, TableFormat.Flatten, KeysAt;
      ghost var last := Last(parts);
      lastKey := FindShortInternalSuccessor(lastKey);
      indexBlock.Add(lastKey, EncodeHandle(pendingHandle));
      SetSeparator(sum, file, interval, parts, lastKey);
      parts := parts[..|parts| - 1] + [last.(separator := lastKey)];
      pendingIndexEntry := false;
    }

    method Add(key: Slice, value: Slice)
      requires Valid() && Filters() && !closed && GoodKey(key) && |key| + |value| <= MAX_ENTRY
      requires Added() != [] ==> InternalLess(Last(Added()).key, key)
      modifies this, dataBlock, indexBlock, filterBlock
      ensures Valid() && Filters() && !closed && Added() == old(Added()) + [KV(key, value)]
      ensures CutsBlock(old(dataBlock.kvs) + [KV(key, value)], old(|parts|), old(file))
    {
      hide BlockBuilder.Valid, FilterBlock.FilterBlockBuilder.Valid, Knows, KeysAt, InternalLess, Encoded, RestartOffsets, RestartIndices,
        BlockBytes, Stored, PartsOk, DataOk, SplitBefore, KeysAscend, GoodKeys, GoodKey, IndexEntries, PartReady, TableFormat.Flatten;
      LastAdded();
      if pendingIndexEntry {
        EmitIndexEntry(key);
        EmptyData(interval, blockSize);
        if filterBlock != null {
          SameKnown(filterBlock.added, old(parts), parts, |file|, dataBlock.kvs);
        }
      }
      if filterBlock != null {
        KnownStays(filterBlock.added, parts, |file|, dataBlock.kvs, (|file|, UserKeyOf(key)));
        filterBlock.AddKey(UserKeyOf(key));
      }
      AddToData(key, value);
    }

    /** The rest of Add, when no index entry is pending. */
    method AddToData(key: Slice, value: Slice)
      requires Blocks() && PartsOk(sum, file, interval, parts) && !pendingIndexEntry && numEntries == |Added()|
      requires indexBlock.kvs == IndexEntries(parts) && DataOk(dataBlock.kvs, interval, blockSize)
      requires parts != [] ==> Last(parts).kvs != [] && SplitBefore(Last(parts), FirstKey(dataBlock.kvs, key))
      requires GoodKey(key) && |key| + |value| <= MAX_ENTRY && (dataBlock.kvs != [] ==> InternalLess(Last(dataBlock.kvs).key, key))
      requires Filters() && (filterBlock != null ==> (|file|, UserKeyOf(key)) in filterBlock.added)
      modifies this, dataBlock, filterBlock
      ensures Valid() && Filters() && closed == old(closed) && Added() == old(Added()) + [KV(key, value)]
      ensures CutsBlock(old(dataBlock.kvs) + [KV(key, value)], old(|parts|), old(file))
    {
      hide BlockBuilder.Valid, FilterBlock.FilterBlockBuilder.Valid, Knows, KeysAt, InternalLess, Encoded, RestartOffsets, RestartIndices,
        BlockBytes, Stored, PartsOk, DataOk, SplitBefore, KeysAscend, GoodKeys, GoodKey, IndexEntries, PartReady, TableFormat.Flatten;
      ghost var kvs := dataBlock.kvs;
      DataGrows(kvs, KV(key, value), interval, blockSize);
      lastKey := key;
      numEntries := numEntries + 1;
      dataBlock.Add(key, value);
      if filterBlock != null {
        KnowsMore(filterBlock.added, parts, |file|, kvs, KV(key, value));
      }
      assert TableFormat.Flatten(parts) + (kvs + [KV(key, value)]) == TableFormat.Flatten(parts) + kvs + [KV(key, value)];
      SizeOfBlock(dataBlock);
      var estimate := |dataBlock.buffer| + 4 * |dataBlock.restarts| + 4;
      if estimate >= blockSize {
        Flush();
      }
    }

    /** These pairs were written as a block of their own if they reach the block size; otherwise they wait in the data block
        and the file is as it was. */
    ghost predicate CutsBlock(kvs: seq<KV>, partsBefore: nat, fileBefore: Slice)
      reads this, dataBlock
    {
      if BlockSize(kvs, interval) >= blockSize then |parts| == partsBefore + 1 && Last(parts).kvs == kvs && dataBlock.kvs == []
      else |parts| == partsBefore && dataBlock.kvs == kvs && file == fileBefore
    }

    /** The last key added is remembered. */
    lemma LastAdded()
      requires Valid()
      ensures Added() != [] <==> pendingIndexEntry || dataBlock.kvs != []
      ensures Added() != [] ==> Last(Added()).key == lastKey
    {
      hide InternalLess, Encoded, RestartOffsets, RestartIndices, BlockBytes, PartsOk, DataOk, SplitBefore, IndexEntries, TableFormat.Flatten;
      if pendingIndexEntry {
        LastOfFlatten(parts);
        assert Added() == TableFormat.Flatten(parts);
      } else if dataBlock.kvs != [] {
        assert Last(Added()) == Last(dataBlock.kvs);
      } else {
        NothingFlattened();
      }
    }

    /** The data block may be written: it continues the parts and fits. */
    ghost predicate Full()
      reads this, dataBlock, indexBlock
    {
      && indexBlock.kvs == IndexEntries(parts)
      && (dataBlock.kvs != [] ==> PartReady(dataBlock.kvs, interval) && lastKey == Last(dataBlock.kvs).key)
      && (dataBlock.kvs != [] && parts != [] ==> Last(parts).kvs != [] && SplitBefore(Last(parts), dataBlock.kvs[0].key))
      && (dataBlock.kvs == [] ==> parts == [])
    }

    /** Ends the data block, if it has entries. */
    method Flush()
      requires Blocks() && PartsOk(sum, file, interval, parts) && numEntries == |Added()| && Filters()
      requires if pendingIndexEntry then Pending() else Full()
      modifies this`file, this`pendingIndexEntry, this`pendingHandle, this`parts, dataBlock, filterBlock
      ensures Valid() && Filters() && Added() == old(Added()) && dataBlock.kvs == []
      ensures old(dataBlock.kvs) != [] ==> |parts| == old(|parts|) + 1 && Last(parts).kvs == old(dataBlock.kvs)
      ensures pendingIndexEntry == (old(pendingIndexEntry) || old(dataBlock.kvs) != [])
    {
      hide InternalLess, Encoded, RestartOffsets, RestartIndices, BlockBytes, Stored, StoredAt, PartsOk, SplitBefore, KeysAscend,
        PartReady, DataOk, IndexEntries, TableFormat.Flatten, GoodKey, Separates, Shared, EntryBytes, GoodKeys;
      EncodedIsEmpty(dataBlock.kvs, interval);
      EmptyData(interval, blockSize);
      if dataBlock.buffer != [] {
        WriteDataBlock();
        if filterBlock != null {
          StartFilter(old(parts), old(|file|), old(dataBlock.kvs));
        }
      }
    }

    /** The next data block starts where the file ends. */
    method StartFilter(ghost before: seq<Part>, ghost offset: nat, ghost kvs: seq<KV>)
      requires filterBlock != null && filterBlock.Valid() && |filterBlock.made| == offset / FilterBlock.FILTER_BASE && offset <= |file|
      requires Knows(filterBlock.added, before, offset, kvs) && dataBlock.kvs == []
      requires parts != [] && parts[..|parts| - 1] == before && Last(parts).kvs == kvs && Last(parts).handle.offset == offset
      modifies filterBlock
      ensures Filters()
    {
      hide *;
      Quotients(offset, |file|);
      KnowsPart(filterBlock.added, before, Last(parts), |file|);
      LastSplits(parts);
      filterBlock.StartBlock(|file|);
      FilterStarted();
    }

    lemma FilterStarted()
      requires filterBlock != null && filterBlock.Valid() && filterBlock.block == |file| && |filterBlock.made| == |file| / FilterBlock.FILTER_BASE
      requires Knows(filterBlock.added, parts, |file|, []) && dataBlock.kvs == []
      ensures Filters()
    {
    }

    method WriteDataBlock()
      requires Blocks() && PartsOk(sum, file, interval, parts) && numEntries == |Added()|
      requires !pendingIndexEntry && Full() && dataBlock.kvs != []
      modifies this`file, this`pendingIndexEntry, this`pendingHandle, this`parts, dataBlock
      ensures Valid() && Added() == old(Added()) && dataBlock.kvs == [] && pendingIndexEntry
      ensures parts != [] && parts[..|parts| - 1] == old(parts) && Last(parts).kvs == old(dataBlock.kvs)
      ensures Last(parts).handle.offset == |old(file)| <= |file|
    {
      hide InternalLess, Encoded, RestartOffsets, RestartIndices, BlockBytes, Stored, StoredAt, PartsOk, SplitBefore, KeysAscend,
        PartReady, DataOk, IndexEntries, TableFormat.Flatten, GoodKey, Separates, Shared, EntryBytes, GoodKeys, BlockBuilder.Valid;
      ghost var kvs := dataBlock.kvs;
      ReadyKeys(kvs, interval);
      pendingHandle := WriteBlock(dataBlock);
      pendingIndexEntry := true;
      AddPart(sum, old(file), file, interval, parts, Part(kvs, pendingHandle, lastKey));
      parts := parts + [Part(kvs, pendingHandle, lastKey)];
      assert parts[..|parts| - 1] == old(parts);
    }

    /** A filling block may be written. */
    lemma FillingIsFull()
      requires Blocks() && Filling()
      ensures Full()
    {
      hide InternalLess, RestartOffsets, BlockBytes, SplitBefore, KeysAscend, EntryBytes, GoodKey;
    }

    /** Writes the filter block as it is, behind the data blocks. */
    method WriteFilterBlock() returns (filter: FilterAt)
      requires Valid() && Filters() && dataBlock.kvs == []
      modifies this`file, filterBlock
      ensures Valid() && old(file) <= file && (filter.NoFilter? <==> filterBlock == null)
      ensures filter.FilterAt? ==> StoredAt(sum, file, filter.handle, filter.contents) && filter.handle.offset + filter.handle.size <= |file|
      ensures filter.FilterAt? && |filter.contents| < TWO32 ==> AllMayMatch(filterBlock.policy.hash, filter.contents, parts)
    {
      hide InternalLess, Encoded, RestartOffsets, RestartIndices, BlockBytes, Stored, StoredAt, PartsOk, SplitBefore, DataOk, AllMayMatch, Knows,
        IndexEntries, TableFormat.Flatten, GoodKey, BlockBuilder.Valid;
      if filterBlock == null {
        return NoFilter;
      }
      var raw := FinishFilter();
      ghost var file0 := file;
      filter := FilterAt(BlockHandle(|file|, |raw|), raw);
      file := file + raw;
      file := file + ([NO_COMPRESSION] + sum(raw + [NO_COMPRESSION]));
      AppendStored(sum, file0, raw);
      Grown(sum, file0, file, interval, parts);
    }

    method FinishFilter() returns (raw: Slice)
      requires filterBlock != null && Filters() && dataBlock.kvs == []
      modifies filterBlock
      ensures |raw| < TWO32 ==> AllMayMatch(filterBlock.policy.hash, raw, parts)
    {
      hide KeysAt, FilterBlock.BlockMayMatch;
      raw := filterBlock.Finish();
    }

    /** Writes the metaindex block, which names the filter block if there is one. */
    method WriteMetaIndex(filter: FilterAt) returns (metaHandle: BlockHandle)
      requires Valid() && |filterName| <= MAX_NAME
      modifies this`file
      ensures Valid() && old(file) <= file && metaHandle.offset + metaHandle.size <= |file|
      ensures StoredAt(sum, file, metaHandle, BlockBytes(MetaEntries(filterName, filter), interval))
    {
      hide InternalLess, Encoded, RestartOffsets, RestartIndices, BlockBytes, Stored, StoredAt, PartsOk, SplitBefore, DataOk,
        IndexEntries, TableFormat.Flatten, GoodKey, BlockBuilder.Valid, EncodeHandle;
      var metaIndexBlock := new BlockBuilder(interval);
      if filter.FilterAt? {
        metaIndexBlock.Add(FilterKey(filterName), EncodeHandle(filter.handle));
      }
      assert metaIndexBlock.kvs == MetaEntries(filterName, filter);
      ghost var file0 := file;
      metaHandle := WriteBlock(metaIndexBlock);
      Grown(sum, file0, file, interval, parts);
    }

    /** What Flush asks for. */
    lemma MayFlush()
      requires Valid()
      ensures Blocks() && PartsOk(sum, file, interval, parts) && numEntries == |Added()| && if pendingIndexEntry then Pending() else Full()
    {
      hide InternalLess, Encoded, RestartOffsets, RestartIndices, BlockBytes, PartsOk, DataOk, SplitBefore, KeysAscend, GoodKeys, GoodKey,
        IndexEntries, PartReady, TableFormat.Flatten, Full;
      if !pendingIndexEntry {
        FillingIsFull();
      }
    }

    method Close()
      requires Valid() && Filters()
      modifies this`closed
      ensures Valid() && Filters() && closed && Added() == old(Added())
    {
      hide InternalLess, Encoded, RestartOffsets, RestartIndices, BlockBytes, PartsOk, DataOk, SplitBefore, GoodKey, IndexEntries,
        TableFormat.Flatten, Knows, BlockBuilder.Valid, FilterBlock.FilterBlockBuilder.Valid;
      closed := true;
    }

    lemma AllInParts()
      requires dataBlock.kvs == []
      ensures Added() == TableFormat.Flatten(parts)
    {
    }

    /** The filter block and the metaindex. */
    method WriteMeta() returns (metaHandle: BlockHandle, filter: FilterAt)
      requires Valid() && Filters() && dataBlock.kvs == [] && |filterName| <= MAX_NAME
      modifies this`file, filterBlock
      ensures Valid() && metaHandle.offset + metaHandle.size <= |file| && MetaOk(sum, file, interval, metaHandle, filterName, filter)
      ensures filter.NoFilter? <==> filterBlock == null
      ensures filter.FilterAt? && |filter.contents| < TWO32 ==> AllMayMatch(filterBlock.policy.hash, filter.contents, parts)
    {
      hide *;
      filter := WriteFilterBlock();
      ghost var before := file;
      metaHandle := WriteMetaIndex(filter);
      MetaWritten(sum, before, file, interval, metaHandle, filterName, filter);
    }

    /** The last index entry, the index block and the footer. */
    method WriteIndex(metaHandle: BlockHandle) returns (ghost index: BlockHandle)
      requires Valid() && dataBlock.kvs == [] && metaHandle.offset + metaHandle.size <= |file|
      modifies this`file, this`lastKey, this`pendingIndexEntry, this`parts, indexBlock
      ensures old(file) <= file && (|file| < TWO64 ==> IsTable(sum, file, interval, parts, metaHandle, index))
      ensures TableFormat.Flatten(parts) == TableFormat.Flatten(old(parts)) && KeysAt(parts) == KeysAt(old(parts))
    {
      hide InternalLess, Encoded, RestartOffsets, RestartIndices, BlockBytes, Stored, PartsOk, DataOk, SplitBefore, KeysAscend,
        GoodKeys, GoodKey, IndexEntries, TableFormat.Flatten, KeysAt, StoredAt, LastCovered, IsTable, Separates, Shared, EntryBytes;
      NoPartsCovered();
      if pendingIndexEntry {
        EmitLastIndexEntry();
      }
      index := WriteIndexAndFooter(metaHandle);
    }

    /** Writes the rest of the table: the last data block, the filter block, the metaindex block, the index
        with a short key for the last block, and the footer. */
    method Finish() returns (ghost meta: BlockHandle, ghost index: BlockHandle, ghost filter: FilterAt)
      requires Valid() && Filters() && !closed && |filterName| <= MAX_NAME
      modifies this, dataBlock, indexBlock, filterBlock
      ensures closed && TableFormat.Flatten(parts) == old(Added())
      ensures |file| < TWO64 ==> IsTable(sum, file, interval, parts, meta, index) && MetaOk(sum, file, interval, meta, filterName, filter)
      ensures filter.NoFilter? <==> filterBlock == null
      ensures filter.FilterAt? && |filter.contents| < TWO32 ==> AllMayMatch(filterBlock.policy.hash, filter.contents, parts)
    {
      hide *;
      MayFlush();
      Flush();
      Close();
      AllInParts();
      var metaHandle, filterAt := WriteMeta();
      meta, filter := metaHandle, filterAt;
      ghost var before, parts1 := file, parts;
      index := WriteIndex(metaHandle);
      MetaGrown(sum, before, file, interval, meta, filterName, filter);
      if filter.FilterAt? {
        SameMayMatch(filterBlock.policy.hash, filter.contents, parts1, parts);
      }
    }

    method WriteIndexAndFooter(metaHandle: BlockHandle) returns (ghost index: BlockHandle)
      requires Blocks() && PartsOk(sum, file, interval, parts) && LastCovered(parts) && indexBlock.kvs == IndexEntries(parts)
      requires metaHandle.offset + metaHandle.size <= |file|
      modifies this`file, indexBlock
      ensures old(file) <= file && (|file| < TWO64 ==> IsTable(sum, file, interval, parts, metaHandle, index))
    {
      hide InternalLess, Encoded, RestartOffsets, RestartIndices, BlockBytes, Stored, PartsOk, IndexEntries, StoredAt, Footer, LastCovered, IsTable;
      ghost var file1 := file;
      var indexHandle := WriteBlock(indexBlock);
      Grown(sum, file1, file, interval, parts);
      ghost var file2 := file;
      file := file + Footer(metaHandle, indexHandle);
      FinishedIsTable(sum, file2, interval, parts, metaHandle, indexHandle);
      index := indexHandle;
    }
  }

  // ------------------------------------------------------------------------ the metaindex

  /** Where the filter block is and what it holds. */
  datatype FilterAt = NoFilter | FilterAt(handle: BlockHandle, contents: Slice)

  function FilterKey(name: Slice): Slice { [102, 105, 108, 116, 101, 114, 46] + name }

  function MetaEntries(name: Slice, filter: FilterAt): seq<KV> {
    if filter.NoFilter? then [] else [KV(FilterKey(name), EncodeHandle(filter.handle))]
  }

  /** The metaindex leads to the filter block. */
  ghost predicate MetaOk(sum: Checksum, file: Slice, interval: nat, meta: BlockHandle, name: Slice, filter: FilterAt) {
    && StoredAt(sum, file, meta, BlockBytes(MetaEntries(name, filter), interval))
    && (filter.FilterAt? ==> StoredAt(sum, file, filter.handle, filter.contents))
  }

  /** The filter block rules out no key of a data block. */
  ghost predicate AllMayMatch(hash: Bloom.Hash, contents: Slice, parts: seq<Part>) {
    forall p :: p in KeysAt(parts) ==> FilterBlock.BlockMayMatch(hash, contents, p.0, p.1)
  }

  lemma SameMayMatch(hash: Bloom.Hash, contents: Slice, before: seq<Part>, after: seq<Part>)
    requires KeysAt(before) == KeysAt(after)
    ensures AllMayMatch(hash, contents, before) ==> AllMayMatch(hash, contents, after)
  {
  }

  lemma StoredLonger(sum: Checksum, before: Slice, after: Slice, h: BlockHandle, contents: Slice)
    requires StoredAt(sum, before, h, contents) && before <= after
    ensures StoredAt(sum, after, h, contents)
  {
    assert after == before + after[|before|..];
    StaysStored(sum, before, after[|before|..], h, contents);
  }

  lemma MetaWritten(sum: Checksum, before: Slice, after: Slice, interval: nat, meta: BlockHandle, name: Slice, filter: FilterAt)
    requires before <= after && StoredAt(sum, after, meta, BlockBytes(MetaEntries(name, filter), interval))
    requires filter.FilterAt? ==> StoredAt(sum, before, filter.handle, filter.contents)
    ensures MetaOk(sum, after, interval, meta, name, filter)
  {
    hide StoredAt, BlockBytes, MetaEntries;
    if filter.FilterAt? {
      StoredLonger(sum, before, after, filter.handle, filter.contents);
    }
  }

  lemma MetaGrown(sum: Checksum, before: Slice, after: Slice, interval: nat, meta: BlockHandle, name: Slice, filter: FilterAt)
    requires MetaOk(sum, before, interval, meta, name, filter) && before <= after
    ensures MetaOk(sum, after, interval, meta, name, filter)
  {
    hide StoredAt, BlockBytes, MetaEntries;
    StoredLonger(sum, before, after, meta, BlockBytes(MetaEntries(name, filter), interval));
    MetaWritten(sum, before, after, interval, meta, name, filter);
  }

  lemma SizeOfBlock(block: BlockBuilder)
    requires block.Valid() && !block.finished
    ensures block.buffer == Encoded(block.kvs, block.interval) && |block.restarts| == |RestartOffsets(block.kvs, block.interval)|
  {
    hide Encoded, RestartOffsets;
  }

  lemma LastSplits<T>(s: seq<T>)
    requires s != []
    ensures s[..|s| - 1] + [Last(s)] == s
  {
  }

  lemma Quotients(a: nat, b: nat)
    requires a <= b
    ensures a / FilterBlock.FILTER_BASE <= b / FilterBlock.FILTER_BASE
  {
  }

  lemma NoPartsCovered()
    ensures LastCovered([])
  {
  }

  lemma Grown(sum: Checksum, before: Slice, after: Slice, interval: nat, parts: seq<Part>)
    requires PartsOk(sum, before, interval, parts) && before <= after
    ensures PartsOk(sum, after, interval, parts)
  {
    hide PartsOk;
    assert after == before + after[|before|..];
    PartsStay(sum, before, after[|before|..], interval, parts);
  }

  lemma FinishedIsTable(sum: Checksum, before: Slice, interval: nat, parts: seq<Part>, meta: BlockHandle, index: BlockHandle)
    requires PartsOk(sum, before, interval, parts) && StoredAt(sum, before, index, BlockBytes(IndexEntries(parts), 1))
    requires meta.offset + meta.size <= |before| && index.offset + index.size <= |before|
    requires LastCovered(parts)
    ensures var file := before + Footer(meta, index); |file| < TWO64 ==> IsTable(sum, file, interval, parts, meta, index)
  {
    hide InternalLess, PartsOk, StoredAt, Footer, BlockBytes, IndexEntries;
    var file := before + Footer(meta, index);
    if |file| < TWO64 {
      FooterRoundTrip(meta, index);
      Grown(sum, before, file, interval, parts);
      StaysStored(sum, before, Footer(meta, index), index, BlockBytes(IndexEntries(parts), 1));
    }
  }

  /** A block that can be written: not empty, in order, and within 32 bits. */
  ghost predicate PartReady(kvs: seq<KV>, interval: nat) {
    kvs != [] && Addressable(kvs, interval) && KeysAscend(kvs, InternalLess) && GoodKeys(kvs)
  }

  lemma LastOfFlatten(parts: seq<Part>)
    requires parts != [] && Last(parts).kvs != []
    ensures var all := TableFormat.Flatten(parts); all != [] && Last(all) == Last(Last(parts).kvs)
  {
  }

  lemma NothingFlattened()
    ensures TableFormat.Flatten([]) == []
  {
  }

  lemma SetSeparator(sum: Checksum, file: Slice, interval: nat, parts: seq<Part>, separator: Slice)
    requires PartsOk(sum, file, interval, parts) && parts != []
    ensures var parts' := parts[..|parts| - 1] + [Last(parts).(separator := separator)];
      && PartsOk(sum, file, interval, parts') && TableFormat.Flatten(parts') == TableFormat.Flatten(parts) && KeysAt(parts') == KeysAt(parts)
      && IndexEntries(parts') == IndexEntries(parts[..|parts| - 1]) + [KV(separator, EncodeHandle(Last(parts).handle))]
  {
    hide PartOk, Split, EncodeHandle;
    var n := |parts| - 1;
    var parts' := parts[..n] + [Last(parts).(separator := separator)];
    forall b | 0 <= b < |parts'| ensures PartOk(sum, file, interval, parts'[b]) {
      SeparatorIsFree(sum, file, interval, parts[b], separator);
    }
    forall b | 0 <= b < |parts'| - 1 ensures Boundary(parts', b) {
      assert Boundary(parts, b);
      SplitNeedsKeysOnly(parts[b], parts[b + 1], separator);
    }
    assert parts'[..n] == parts[..n];
  }

  lemma SeparatorIsFree(sum: Checksum, file: Slice, interval: nat, p: Part, separator: Slice)
    requires PartOk(sum, file, interval, p)
    ensures PartOk(sum, file, interval, p.(separator := separator))
  {
    hide InternalLess, StoredAt, Addressable, KeysAscend, GoodKey, BlockBytes;
  }

  lemma SplitNeedsKeysOnly(p: Part, q: Part, separator: Slice)
    requires p.kvs != [] && q.kvs != [] && Split(p, q)
    ensures Split(p, q.(separator := separator))
  {
    hide InternalLess, Separates;
  }

  lemma AddPart(sum: Checksum, before: Slice, file: Slice, interval: nat, parts: seq<Part>, p: Part)
    requires PartsOk(sum, before, interval, parts) && before <= file
    requires PartReady(p.kvs, interval) && StoredAt(sum, file, p.handle, BlockBytes(p.kvs, interval))
    requires parts != [] ==> Last(parts).kvs != [] && SplitBefore(Last(parts), p.kvs[0].key)
    ensures PartsOk(sum, file, interval, parts + [p]) && TableFormat.Flatten(parts + [p]) == TableFormat.Flatten(parts) + p.kvs
  {
    hide InternalLess, StoredAt, Addressable, KeysAscend, GoodKey, Separates, PartOk, BlockBytes;
    var after := parts + [p];
    assert file == before + file[|before|..];
    PartsStay(sum, before, file[|before|..], interval, parts);
    ReadyPartOk(sum, file, interval, p);
    assert p.kvs != [];
    forall b | 0 <= b < |parts| ensures Boundary(after, b) {
      assert b < |parts| - 1 ==> Boundary(parts, b);
    }
    assert after[..|parts|] == parts;
  }

  lemma ReadyPartOk(sum: Checksum, file: Slice, interval: nat, p: Part)
    requires PartReady(p.kvs, interval) && StoredAt(sum, file, p.handle, BlockBytes(p.kvs, interval))
    ensures PartOk(sum, file, interval, p)
  {
    hide InternalLess, StoredAt, Addressable, KeysAscend, GoodKey;
  }

  lemma ReadyKeys(kvs: seq<KV>, interval: nat)
    requires PartReady(kvs, interval)
    ensures kvs != [] && GoodKey(Last(kvs).key)
  {
    hide InternalLess, KeysAscend, Addressable;
  }

  lemma EncodedIsEmpty(kvs: seq<KV>, interval: nat)
    ensures Encoded(kvs, interval) == [] <==> kvs == []
  {
  }

  lemma EmptyData(interval: nat, blockSize: nat)
    ensures DataOk([], interval, blockSize)
  {
  }

  /** One more entry with a greater key: the block can be written, and goes on being filled if it
      stays below the block size. */
  lemma DataGrows(kvs: seq<KV>, kv: KV, interval: nat, blockSize: nat)
    requires DataOk(kvs, interval, blockSize) && blockSize <= MAX_ENTRY && interval >= 1
    requires GoodKey(kv.key) && |kv.key| + |kv.value| <= MAX_ENTRY
    requires kvs != [] ==> InternalLess(Last(kvs).key, kv.key)
    ensures PartReady(kvs + [kv], interval)
    ensures var after := kvs + [kv];
      |Encoded(after, interval)| + 4 * |RestartOffsets(after, interval)| + 4 < blockSize ==> DataOk(after, interval, blockSize)
  {
    hide InternalLess, RestartOffsets, RestartIndices, Encoded, GoodKey;
    var after := kvs + [kv];
    OrderGrows(kvs, kv);
    SizeGrows(kvs, kv, interval);
    assert forall i :: 0 <= i < |after| ==> |after[i].key| + |after[i].value| <= MAX_ENTRY;
    assert |RestartOffsets(after, interval)| == |RestartIndices(|after|, interval)|;
  }

  lemma OrderGrows(kvs: seq<KV>, kv: KV)
    requires KeysAscend(kvs, InternalLess) && (kvs != [] ==> InternalLess(Last(kvs).key, kv.key))
    ensures KeysAscend(kvs + [kv], InternalLess)
  {
    hide InternalLess;
    var after := kvs + [kv];
    forall i, j | 0 <= i < j < |after| ensures InternalLess(after[i].key, after[j].key) {
      if j == |kvs| && i < j - 1 {
        LessTransitive(kvs[i].key, Last(kvs).key, kv.key);
      }
    }
  }

  lemma SizeGrows(kvs: seq<KV>, kv: KV, interval: nat)
    requires interval >= 1 && |kv.key| + |kv.value| <= MAX_ENTRY
    ensures |Encoded(kvs + [kv], interval)| <= |Encoded(kvs, interval)| + 15 + MAX_ENTRY
    ensures |RestartIndices(|kvs| + 1, interval)| <= |RestartIndices(|kvs|, interval)| + 1
    ensures kvs == [] ==> Encoded(kvs, interval) == [] && |RestartIndices(0, interval)| == 1
  {
    hide EntryBytes, Shared, Encoded, RestartIndices;
    EncodedStep(kvs, kv, interval);
    IndicesStep(|kvs|, interval);
    EntrySize(Shared(kvs + [kv], |kvs|, interval), kv);
    NoEntries(interval);
  }

  lemma NoEntries(interval: nat)
    ensures Encoded([], interval) == [] && RestartIndices(0, interval) == [0]
  {
  }

  lemma EntrySize(shared: nat, kv: KV)
    requires shared <= |kv.key| && |kv.key| + |kv.value| <= MAX_ENTRY
    ensures |EntryBytes(shared, kv)| <= 15 + MAX_ENTRY
  {
    hide Pow, Varint;
    VarintWidths();
    VarintIsShort(shared, 5);
    VarintIsShort(|kv.key| - shared, 5);
    VarintIsShort(|kv.value|, 5);
  }

  lemma AppendStored(sum: Checksum, file: Slice, raw: Slice)
    ensures file + raw + ([NO_COMPRESSION] + sum(raw + [NO_COMPRESSION])) == file + Stored(sum, raw)
    ensures StoredAt(sum, file + Stored(sum, raw), BlockHandle(|file|, |raw|), raw)
    ensures |Stored(sum, raw)| >= |raw|
  {
  }

  function FirstKey(kvs: seq<KV>, key: Slice): Slice { if kvs == [] then key else kvs[0].key }

  ghost predicate SplitBefore(p: Part, first: Slice)
    requires p.kvs != []
  {
    Separates(Last(p.kvs).key, p.separator, first) && !InternalLess(p.separator, Last(p.kvs).key) && InternalLess(p.separator, first)
  }

  ghost predicate GoodKeys(kvs: seq<KV>) { forall i :: 0 <= i < |kvs| ==> GoodKey(kvs[i].key) }

  /** The size of the block that these pairs make. */
  ghost function BlockSize(kvs: seq<KV>, interval: nat): nat {
    |Encoded(kvs, interval)| + 4 * |RestartOffsets(kvs, interval)| + 4
  }

  lemma BlockSizeIs(kvs: seq<KV>, interval: nat)
    ensures BlockSize(kvs, interval) == |BlockBytes(kvs, interval)|
  {
    hide Encoded, RestartOffsets;
  }

  /** A data block that is still being filled. */
  ghost predicate DataOk(kvs: seq<KV>, interval: nat, blockSize: nat) {
    && KeysAscend(kvs, InternalLess) && GoodKeys(kvs)
    && (kvs != [] ==> |Encoded(kvs, interval)| + 4 * |RestartIndices(|kvs|, interval)| + 4 < blockSize)
    && forall i :: 0 <= i < |kvs| ==> |kvs[i].key| + |kvs[i].value| <= MAX_ENTRY
  }

  // ------------------------------------------------------------------------- reading

  /** Finds the metaindex and the index block through the footer. */
  method Open(sum: Checksum, file: Slice) returns (metaHandle: Option<BlockHandle>, indexBlock: Option<Slice>)
    ensures forall interval: nat, parts, meta, index :: IsTable(sum, file, interval, parts, meta, index) ==>
      metaHandle == Some(meta) && indexBlock == Some(BlockBytes(IndexEntries(parts), 1))
    ensures |file| < FOOTER_SIZE || DecodeFixed(file[|file| - 8..]) != TABLE_MAGIC ==> metaHandle.None? && indexBlock.None?
  {
    hide PartsOk, BlockBytes, IndexEntries, StoredAt, ReadBlock, DecodeFooter, DecodeFixed, Footer;
    if |file| < FOOTER_SIZE {
      return None, None;
    }
    if DecodeFixed(file[|file| - 8..]) != TABLE_MAGIC {
      FooterNeedsMagic(file);
    }
    var handles := DecodeFooter(file[|file| - FOOTER_SIZE..]);
    metaHandle := if handles.None? then None else Some(handles.value.0);
    indexBlock := if handles.None? then None else ReadBlock(sum, file, handles.value.1);
    forall interval: nat, parts, meta, index | IsTable(sum, file, interval, parts, meta, index)
      ensures metaHandle == Some(meta) && indexBlock == Some(BlockBytes(IndexEntries(parts), 1))
    {
      IndexWithinFile(sum, file, index, BlockBytes(IndexEntries(parts), 1));
      FooterRoundTrip(meta, index);
      ReadStored(sum, file, index, BlockBytes(IndexEntries(parts), 1));
    }
  }

  /** ReadMeta: looks the filter policy up in the metaindex. A filter written under another name is not used. */
  method ReadMeta(sum: Checksum, file: Slice, metaHandle: BlockHandle, policy: Bloom.BloomFilterPolicy, name: Slice,
                  ghost interval: nat, ghost written: Slice, ghost filter: FilterAt)
    returns (reader: FilterBlock.FilterBlockReader?)
    requires |file| < TWO64 && interval >= 1 && |written| <= MAX_NAME && MetaOk(sum, file, interval, metaHandle, written, filter)
    ensures reader != null <==> filter.FilterAt? && name == written
    ensures reader != null ==> reader.Valid() && reader.policy == policy && reader.data == filter.contents
  {
    hide BlockBytes, ReadBlock, StoredAt, Addressable, StrictOrder, Less, EncodeHandle, DecodeHandle;
    ghost var kvs := MetaEntries(written, filter);
    ReadStored(sum, file, metaHandle, BlockBytes(kvs, interval));
    MetaFits(sum, file, interval, written, filter);
    LessIsStrictOrder();
    var meta := ReadBlock(sum, file, metaHandle);
    var iter := new Iter(meta.value, Less, kvs, interval);
    iter.Seek(FilterKey(name));
    iter.ShowsEntry();
    FilterIsFound(written, name, filter, iter.pos);
    reader := null;
    if iter.IsValid() && iter.key == FilterKey(name) {
      HandleRoundTrip(filter.handle, []);
      assert EncodeHandle(filter.handle) + [] == iter.data[iter.valueStart..iter.valueEnd];
      ReadStored(sum, file, filter.handle, filter.contents);
      var handle := DecodeHandle(iter.data[iter.valueStart..iter.valueEnd]);
      if handle.GotHandle? {
        var block := ReadBlock(sum, file, handle.handle);
        if block.Some? {
          reader := new FilterBlock.FilterBlockReader(policy, block.value);
        }
      }
    }
  }

  lemma LessIsStrictOrder()
    ensures StrictOrder(Less)
  {
    hide Less;
    forall a ensures !Less(a, a) {
      LessIsTotalOrder(a, a, a);
    }
    forall a, b, c | Less(a, b) && Less(b, c) ensures Less(a, c) {
      LessIsTotalOrder(a, b, c);
    }
  }

  /** The metaindex block fits its format. */
  lemma MetaFits(sum: Checksum, file: Slice, interval: nat, name: Slice, filter: FilterAt)
    requires |file| < TWO64 && interval >= 1 && |name| <= MAX_NAME && (filter.FilterAt? ==> StoredAt(sum, file, filter.handle, filter.contents))
    ensures Addressable(MetaEntries(name, filter), interval) && KeysAscend(MetaEntries(name, filter), Less)
    ensures filter.FilterAt? ==> filter.handle.offset < TWO64 && filter.handle.size < TWO64
  {
    hide Encoded, RestartIndices, EncodeHandle, Varint;
    NoEntries(interval);
    if filter.FilterAt? {
      HandleIsShort(filter.handle);
      assert [] + MetaEntries(name, filter) == MetaEntries(name, filter);
      SizeGrows([], MetaEntries(name, filter)[0], interval);
    }
  }

  lemma HandleIsShort(h: BlockHandle)
    requires h.offset < TWO64 && h.size < TWO64
    ensures |EncodeHandle(h)| <= 20
  {
    hide Varint, Pow;
    VarintWidths();
    VarintIsShort(h.offset, 10);
    VarintIsShort(h.size, 10);
  }

  /** Seeking in the metaindex finds the entry exactly when it has the name. */
  lemma FilterIsFound(written: Slice, name: Slice, filter: FilterAt, i: nat)
    requires LowerBound(MetaEntries(written, filter), Less, FilterKey(name), i)
    ensures i < |MetaEntries(written, filter)| && MetaEntries(written, filter)[i].key == FilterKey(name) <==> filter.FilterAt? && name == written
  {
    hide Less, EncodeHandle;
    LessIsTotalOrder(FilterKey(name), FilterKey(name), FilterKey(name));
    var kvs := MetaEntries(written, filter);
    assert filter.FilterAt? ==> |kvs| == 1 && kvs[0].key == FilterKey(written);
    if FilterKey(name) == FilterKey(written) {
      assert name == FilterKey(name)[7..] && written == FilterKey(written)[7..];
    }
  }

  lemma IndexWithinFile(sum: Checksum, file: Slice, h: BlockHandle, contents: Slice)
    requires StoredAt(sum, file, h, contents)
    ensures h.offset + h.size <= |file|
  {
  }

  /** r is the first entry at or after k. */
  ghost predicate FirstFrom(kvs: seq<KV>, k: Slice, r: KV) {
    r in kvs && !InternalLess(r.key, k) && forall x :: x in kvs && !InternalLess(x.key, k) ==> !InternalLess(x.key, r.key)
  }

  /** No entry at or after k has its user key. */
  ghost predicate NoneFrom(kvs: seq<KV>, k: Slice) {
    forall x :: x in kvs && !InternalLess(x.key, k) ==> UserKeyOf(x.key) != UserKeyOf(k)
  }

  /** The last part's separator is at or after its keys. */
  ghost predicate LastCovered(parts: seq<Part>) {
    parts != [] ==> Last(parts).kvs != [] && !InternalLess(Last(parts).separator, Last(Last(parts).kvs).key)
  }

  lemma PartStored(sum: Checksum, file: Slice, interval: nat, parts: seq<Part>, b: nat)
    requires PartsOk(sum, file, interval, parts) && b < |parts| && |file| < TWO64
    ensures var p := parts[b];
      && p.kvs != [] && Addressable(p.kvs, interval) && KeysAscend(p.kvs, InternalLess)
      && p.handle.offset < TWO64 && p.handle.size < TWO64 && ReadBlock(sum, file, p.handle) == Some(BlockBytes(p.kvs, interval))
  {
    hide InternalLess, KeysAscend, Addressable, BlockBytes, ReadBlock, Boundary;
    assert PartOk(sum, file, interval, parts[b]);
    IndexWithinFile(sum, file, parts[b].handle, BlockBytes(parts[b].kvs, interval));
    ReadStored(sum, file, parts[b].handle, BlockBytes(parts[b].kvs, interval));
  }

  /** Every entry of a table is in some part. */
  lemma {:induction false} HomeOf(parts: seq<Part>, x: KV) returns (c: nat, j: nat)
    requires x in TableFormat.Flatten(parts)
    ensures c < |parts| && j < |parts[c].kvs| && parts[c].kvs[j] == x
  {
    var n := |parts| - 1;
    if x in parts[n].kvs {
      c := n;
      j :| 0 <= j < |parts[n].kvs| && parts[n].kvs[j] == x;
    } else {
      c, j := HomeOf(parts[..n], x);
    }
  }

  lemma {:induction false} InFlatten(parts: seq<Part>, c: nat, j: nat)
    requires c < |parts| && j < |parts[c].kvs|
    ensures parts[c].kvs[j] in TableFormat.Flatten(parts)
  {
    var n := |parts| - 1;
    if c < n {
      InFlatten(parts[..n], c, j);
    }
  }

  /** No key of a part is after its separator. */
  lemma KeyWithinPart(sum: Checksum, file: Slice, interval: nat, parts: seq<Part>, c: nat, j: nat)
    requires PartsOk(sum, file, interval, parts) && LastCovered(parts) && c < |parts| && j < |parts[c].kvs|
    ensures !InternalLess(parts[c].separator, parts[c].kvs[j].key)
  {
    hide InternalLess, PartsOk, Separates, KeysAscend;
    PartFacts(sum, file, interval, parts, c);
    KeysOfPart(parts[c], j);
  }

  /** Parts before the one that the index leads to hold only keys before k, those after it only
      keys after its separator. */
  lemma OtherParts(sum: Checksum, file: Slice, interval: nat, parts: seq<Part>, k: Slice, b: nat, c: nat, j: nat)
    requires PartsOk(sum, file, interval, parts) && LastCovered(parts)
    requires LowerBound(IndexEntries(parts), InternalLess, k, b) && c < |parts| && j < |parts[c].kvs|
    ensures c < b ==> InternalLess(parts[c].kvs[j].key, k)
    ensures b < c ==> InternalLess(parts[b].separator, parts[c].kvs[j].key)
    ensures b < |parts| ==> !InternalLess(parts[b].separator, k)
  {
    hide InternalLess, PartsOk;
    assert c < b ==> InternalLess(IndexEntries(parts)[c].key, k);
    assert b < |parts| ==> !InternalLess(IndexEntries(parts)[b].key, k);
    KeyWithinPart(sum, file, interval, parts, c, j);
    if c < b {
      LessTransitive(parts[c].kvs[j].key, parts[c].separator, k);
    } else if b < c {
      SeparatorBelow(sum, file, interval, parts, b, c, j);
    }
  }

  lemma NothingFrom(sum: Checksum, file: Slice, interval: nat, parts: seq<Part>, k: Slice)
    requires PartsOk(sum, file, interval, parts) && LastCovered(parts)
    requires LowerBound(IndexEntries(parts), InternalLess, k, |parts|)
    ensures NoneFrom(TableFormat.Flatten(parts), k)
  {
    hide InternalLess, PartsOk, LowerBound, TableFormat.Flatten, LastCovered;
    forall x | x in TableFormat.Flatten(parts) ensures InternalLess(x.key, k) {
      var c, j := HomeOf(parts, x);
      OtherParts(sum, file, interval, parts, k, |parts|, c, j);
    }
  }

  /** The lower bound within the part that the index leads to. */
  lemma GetIsExact(sum: Checksum, file: Slice, interval: nat, parts: seq<Part>, k: Slice, b: nat, i: nat)
    requires PartsOk(sum, file, interval, parts) && LastCovered(parts)
    requires LowerBound(IndexEntries(parts), InternalLess, k, b) && b < |parts|
    requires LowerBound(parts[b].kvs, InternalLess, k, i)
    ensures i < |parts[b].kvs| ==> FirstFrom(TableFormat.Flatten(parts), k, parts[b].kvs[i])
    ensures i == |parts[b].kvs| ==> NoneFrom(TableFormat.Flatten(parts), k)
  {
    hide InternalLess, PartsOk, TableFormat.Flatten, LastCovered, UserKeyOf;
    if i < |parts[b].kvs| {
      var r := parts[b].kvs[i];
      InFlatten(parts, b, i);
      forall x | x in TableFormat.Flatten(parts) && !InternalLess(x.key, k) ensures !InternalLess(x.key, r.key) {
        var c, j := HomeOf(parts, x);
        NotBeforeFound(sum, file, interval, parts, k, b, i, c, j);
      }
    } else {
      forall x | x in TableFormat.Flatten(parts) && !InternalLess(x.key, k) ensures UserKeyOf(x.key) != UserKeyOf(k) {
        var c, j := HomeOf(parts, x);
        OtherUserKey(sum, file, interval, parts, k, b, c, j);
      }
    }
  }

  lemma NotBeforeFound(sum: Checksum, file: Slice, interval: nat, parts: seq<Part>, k: Slice, b: nat, i: nat, c: nat, j: nat)
    requires PartsOk(sum, file, interval, parts) && LastCovered(parts)
    requires LowerBound(IndexEntries(parts), InternalLess, k, b) && b < |parts|
    requires LowerBound(parts[b].kvs, InternalLess, k, i) && i < |parts[b].kvs|
    requires c < |parts| && j < |parts[c].kvs| && !InternalLess(parts[c].kvs[j].key, k)
    ensures !InternalLess(parts[c].kvs[j].key, parts[b].kvs[i].key)
  {
    hide InternalLess, PartsOk, LastCovered;
    var x, r := parts[c].kvs[j].key, parts[b].kvs[i].key;
    OtherParts(sum, file, interval, parts, k, b, c, j);
    KeyWithinPart(sum, file, interval, parts, b, i);
    PartFacts(sum, file, interval, parts, b);
    InternalLessIsStrict(x, x, x);
    if b < c {
      LessTransitive(r, parts[b].separator, x);
      LessTransitive(x, r, x);
    } else if i < j {
      LessTransitive(r, x, r);
    }
  }

  /** When all keys of the part are before k although its separator is not, the separator is a
      shortened one, and its user key keeps k apart from the keys of later parts. */
  lemma OtherUserKey(sum: Checksum, file: Slice, interval: nat, parts: seq<Part>, k: Slice, b: nat, c: nat, j: nat)
    requires PartsOk(sum, file, interval, parts) && LastCovered(parts)
    requires LowerBound(IndexEntries(parts), InternalLess, k, b) && b < |parts|
    requires LowerBound(parts[b].kvs, InternalLess, k, |parts[b].kvs|)
    requires c < |parts| && j < |parts[c].kvs| && !InternalLess(parts[c].kvs[j].key, k)
    ensures UserKeyOf(parts[c].kvs[j].key) != UserKeyOf(k)
  {
    hide PartsOk, LastCovered, InternalLess, Less, UserKeyOf;
    OtherParts(sum, file, interval, parts, k, b, c, j);
    assert c != b;
    PartFacts(sum, file, interval, parts, b);
    PartFacts(sum, file, interval, parts, b + 1);
    var sep, first, x := parts[b].separator, parts[b + 1].kvs[0].key, parts[c].kvs[j].key;
    assert InternalLess(Last(parts[b].kvs).key, k);
    FirstAtMost(sum, file, interval, parts, b + 1, c, j);
    UserKeysApart(sep, k, first, x);
  }

  lemma UserKeysApart(sep: Slice, k: Slice, first: Slice, x: Slice)
    requires !InternalLess(sep, k) && Less(UserKeyOf(sep), UserKeyOf(first)) && !InternalLess(x, first)
    ensures UserKeyOf(x) != UserKeyOf(k)
  {
    hide Less, UserKeyOf, TagOf;
    LessIsTotalOrder(UserKeyOf(sep), UserKeyOf(k), UserKeyOf(first));
    LessIsTotalOrder(UserKeyOf(k), UserKeyOf(sep), UserKeyOf(first));
    LessIsTotalOrder(UserKeyOf(x), UserKeyOf(first), UserKeyOf(first));
    LessIsTotalOrder(UserKeyOf(k), UserKeyOf(first), UserKeyOf(k));
  }

  /** The first key of a part is at or before every key of that part and of later ones. */
  lemma FirstAtMost(sum: Checksum, file: Slice, interval: nat, parts: seq<Part>, b: nat, c: nat, j: nat)
    requires PartsOk(sum, file, interval, parts) && b <= c < |parts| && j < |parts[c].kvs|
    ensures parts[b].kvs != [] && !InternalLess(parts[c].kvs[j].key, parts[b].kvs[0].key)
  {
    hide InternalLess, PartsOk, Separates, KeysAscend;
    PartFacts(sum, file, interval, parts, b);
    KeysOfPart(parts[b], 0);
    if b == c {
      KeysOfPart(parts[b], j);
    } else {
      SeparatorBelow(sum, file, interval, parts, b, c, j);
      var first, last, sep, x := parts[b].kvs[0].key, Last(parts[b].kvs).key, parts[b].separator, parts[c].kvs[j].key;
      LessTransitive(first, sep, x);
      LessTransitive(x, first, x);
      InternalLessIsStrict(x, x, x);
    }
  }

  /** When the block that the index leads to does not hold the user key, no entry from k on has it. */
  lemma RuledOut(sum: Checksum, file: Slice, interval: nat, parts: seq<Part>, k: Slice, b: nat)
    requires PartsOk(sum, file, interval, parts) && LastCovered(parts)
    requires LowerBound(IndexEntries(parts), InternalLess, k, b) && b < |parts|
    requires forall j :: 0 <= j < |parts[b].kvs| ==> UserKeyOf(parts[b].kvs[j].key) != UserKeyOf(k)
    ensures NoneFrom(TableFormat.Flatten(parts), k)
  {
    hide InternalLess, PartsOk, TableFormat.Flatten, LastCovered, UserKeyOf;
    forall x | x in TableFormat.Flatten(parts) && !InternalLess(x.key, k) ensures UserKeyOf(x.key) != UserKeyOf(k) {
      var c, j := HomeOf(parts, x);
      OtherParts(sum, file, interval, parts, k, b, c, j);
      if c > b {
        BeyondUserKey(sum, file, interval, parts, k, b, c, j);
      }
    }
  }

  /** An entry of a later part is behind the last one of the part, which is before k or has another user key. */
  lemma BeyondUserKey(sum: Checksum, file: Slice, interval: nat, parts: seq<Part>, k: Slice, b: nat, c: nat, j: nat)
    requires PartsOk(sum, file, interval, parts) && LastCovered(parts)
    requires LowerBound(IndexEntries(parts), InternalLess, k, b) && b < c < |parts| && j < |parts[c].kvs|
    requires forall i :: 0 <= i < |parts[b].kvs| ==> UserKeyOf(parts[b].kvs[i].key) != UserKeyOf(k)
    requires !InternalLess(parts[c].kvs[j].key, k)
    ensures UserKeyOf(parts[c].kvs[j].key) != UserKeyOf(k)
  {
    hide InternalLess, PartsOk, LastCovered, UserKeyOf, Less, KeysAscend, Separates;
    PartFacts(sum, file, interval, parts, b);
    SeparatorBelow(sum, file, interval, parts, b, c, j);
    var kvs, x := parts[b].kvs, parts[c].kvs[j].key;
    var last := Last(kvs).key;
    KeyWithinPart(sum, file, interval, parts, b, |kvs| - 1);
    if InternalLess(last, k) {
      forall i | 0 <= i < |kvs| ensures InternalLess(kvs[i].key, k) {
        KeysOfPart(parts[b], i);
        NotAfter(kvs[i].key, last, k);
      }
      OtherUserKey(sum, file, interval, parts, k, b, c, j);
    } else {
      NotAfter(last, parts[b].separator, x);
      BehindOther(last, k, x);
    }
  }

  lemma NotAfter(a: Slice, b: Slice, c: Slice)
    requires !InternalLess(b, a) && InternalLess(b, c)
    ensures InternalLess(a, c)
  {
    hide Less, UserKeyOf, TagOf;
    LessIsTotalOrder(UserKeyOf(a), UserKeyOf(b), UserKeyOf(c));
    LessIsTotalOrder(UserKeyOf(b), UserKeyOf(a), UserKeyOf(c));
  }

  lemma BehindOther(last: Slice, k: Slice, x: Slice)
    requires !InternalLess(last, k) && UserKeyOf(last) != UserKeyOf(k) && InternalLess(last, x)
    ensures UserKeyOf(x) != UserKeyOf(k)
  {
    hide Less, UserKeyOf, TagOf;
    LessIsTotalOrder(UserKeyOf(last), UserKeyOf(k), UserKeyOf(x));
    LessIsTotalOrder(UserKeyOf(k), UserKeyOf(last), UserKeyOf(x));
    LessIsTotalOrder(UserKeyOf(k), UserKeyOf(last), UserKeyOf(k));
  }

  /** The index leads to this part for the key. */
  ghost predicate LeadsTo(parts: seq<Part>, k: Slice, b: nat) {
    b < |parts| && LowerBound(IndexEntries(parts), InternalLess, k, b)
  }

  ghost predicate RulesOut(filter: FilterBlock.FilterBlockReader, p: Part, k: Slice) {
    !FilterBlock.BlockMayMatch(filter.policy.hash, filter.data, p.handle.offset, UserKeyOf(k))
  }

  lemma OneWayIn(parts: seq<Part>, k: Slice, b: nat)
    requires LowerBound(IndexEntries(parts), InternalLess, k, b)
    ensures forall c: nat :: LeadsTo(parts, k, c) ==> c == b
  {
    hide InternalLess;
    forall c: nat | LeadsTo(parts, k, c) ensures c == b {
      OneBound(IndexEntries(parts), k, b, c);
    }
  }

  lemma OneBound(kvs: seq<KV>, k: Slice, b: nat, c: nat)
    requires LowerBound(kvs, InternalLess, k, b) && LowerBound(kvs, InternalLess, k, c)
    ensures b == c
  {
    hide InternalLess;
    var j := if b < c then b else c;
    assert j < |kvs| ==> InternalLess(kvs[j].key, k) || !InternalLess(kvs[j].key, k);
  }

  lemma NowhereToGo(parts: seq<Part>, k: Slice)
    requires LowerBound(IndexEntries(parts), InternalLess, k, |parts|)
    ensures forall c: nat :: !LeadsTo(parts, k, c)
  {
    hide InternalLess;
    OneWayIn(parts, k, |parts|);
  }

  /** Looks a key up through the index, and through the filter if there is one: the entry found is the first
      one of the whole table at or after the key; if none is found, then no entry at or after the key has its
      user key, as long as the filter rules out no user key of a block. */
  method InternalGet(sum: Checksum, file: Slice, indexBlock: Slice, filter: FilterBlock.FilterBlockReader?, k: Slice,
                     ghost interval: nat, ghost parts: seq<Part>)
    returns (r: Option<KV>)
    requires filter != null ==> filter.Valid()
    requires PartsOk(sum, file, interval, parts) && |file| < TWO64
    requires LastCovered(parts)
    requires indexBlock == BlockBytes(IndexEntries(parts), 1) && Addressable(IndexEntries(parts), 1)
    ensures r.Some? ==> FirstFrom(TableFormat.Flatten(parts), k, r.value)
    ensures r.None? && (filter != null ==> AllMayMatch(filter.policy.hash, filter.data, parts)) ==> NoneFrom(TableFormat.Flatten(parts), k)
    ensures filter != null ==> forall b: nat :: LeadsTo(parts, k, b) && RulesOut(filter, parts[b], k) ==> r.None?
  {
    hide PartsOk, BlockBytes, Addressable, InternalLess, ReadBlock, DecodeHandle, KeysAscend, StrictOrder, TableFormat.Flatten, AllMayMatch,
      FilterBlock.BlockMayMatch, FilterBlock.FilterBlockReader.Valid, LeadsTo, LowerBound, FirstFrom, NoneFrom;
    InternalLessIsStrictOrder();
    IndexAscends(sum, file, interval, parts);
    var index := new Iter(indexBlock, InternalLess, IndexEntries(parts), 1);
    index.Seek(k);
    index.ShowsEntry();
    ghost var b := index.pos;
    if !index.IsValid() {
      NothingFrom(sum, file, interval, parts, k);
      NowhereToGo(parts, k);
      return None;
    }
    var value := index.data[index.valueStart..index.valueEnd];
    PartStored(sum, file, interval, parts, b);
    assert EncodeHandle(parts[b].handle) + [] == value;
    HandleRoundTrip(parts[b].handle, []);
    var handle := DecodeHandle(value);
    if filter != null {
      var may := filter.KeyMayMatch(handle.handle.offset, UserKeyOf(k));
      OneWayIn(parts, k, b);
      if !may {
        if AllMayMatch(filter.policy.hash, filter.data, parts) {
          NotInBlock(filter.policy.hash, filter.data, parts, b, UserKeyOf(k));
          RuledOut(sum, file, interval, parts, k, b);
        }
        return None;
      }
    }
    r := BlockGet(sum, file, handle.handle, k, interval, parts, b);
  }

  /** The search in the block that the index leads to. */
  method BlockGet(sum: Checksum, file: Slice, handle: BlockHandle, k: Slice, ghost interval: nat, ghost parts: seq<Part>, ghost b: nat)
    returns (r: Option<KV>)
    requires PartsOk(sum, file, interval, parts) && |file| < TWO64 && LastCovered(parts)
    requires LowerBound(IndexEntries(parts), InternalLess, k, b) && b < |parts| && handle == parts[b].handle
    ensures if r.Some? then FirstFrom(TableFormat.Flatten(parts), k, r.value) else NoneFrom(TableFormat.Flatten(parts), k)
  {
    hide PartsOk, BlockBytes, Addressable, InternalLess, ReadBlock, KeysAscend, StrictOrder, TableFormat.Flatten, LowerBound, LastCovered,
      FirstFrom, NoneFrom;
    InternalLessIsStrictOrder();
    PartStored(sum, file, interval, parts, b);
    var block := ReadBlock(sum, file, handle);
    var iter := new Iter(block.value, InternalLess, parts[b].kvs, interval);
    iter.Seek(k);
    iter.ShowsEntry();
    GetIsExact(sum, file, interval, parts, k, b, iter.pos);
    if iter.IsValid() {
      r := Some(KV(iter.key, iter.data[iter.valueStart..iter.valueEnd]));
    } else {
      r := None;
    }
  }

  /** A block whose filter rules a user key out does not hold it. */
  lemma NotInBlock(hash: Bloom.Hash, contents: Slice, parts: seq<Part>, b: nat, user: Slice)
    requires AllMayMatch(hash, contents, parts) && b < |parts|
    requires !FilterBlock.BlockMayMatch(hash, contents, parts[b].handle.offset, user)
    ensures forall j :: 0 <= j < |parts[b].kvs| ==> UserKeyOf(parts[b].kvs[j].key) != user
  {
    hide UserKeyOf, KeysAt, FilterBlock.BlockMayMatch;
    forall j | 0 <= j < |parts[b].kvs| ensures UserKeyOf(parts[b].kvs[j].key) != user {
      KeyOfPart(parts, b, j);
    }
  }

  /** With 32-bit offsets the index block can be addressed. */
  lemma {:induction false} IndexFits(sum: Checksum, file: Slice, interval: nat, parts: seq<Part>, meta: BlockHandle, index: BlockHandle)
    requires IsTable(sum, file, interval, parts, meta, index) && |file| < TWO32
    ensures Addressable(IndexEntries(parts), 1)
  {
    hide PartsOk, Encoded, RestartIndices, IndexEntries, Footer, InternalLess;
    var kvs := IndexEntries(parts);
    assert |BlockBytes(kvs, 1)| <= |file|;
    forall i | 0 <= i < |kvs| ensures |kvs[i].key| + |kvs[i].value| < TWO32 {
      EntryIsWhole(kvs, i);
    }
  }

  /** Where every entry is a restart point, entries hold their whole keys. */
  lemma EntryIsWhole(kvs: seq<KV>, i: nat)
    requires i < |kvs|
    ensures |kvs[i].key| + |kvs[i].value| <= |Encoded(kvs, 1)|
  {
    hide Encoded, Varint;
    EntryAt(kvs, 1, i);
    EachIsRestart(i);
  }

  lemma {:induction false} EachIsRestart(i: nat)
    ensures IsRestart(i, 1)
  {
    if i > 0 {
      EachIsRestart(i - 1);
    }
  }

  /** Finishing a table and looking a key up in the file, through the filter that was built along the way: the entry found
      is the first one at or after the key, and if none is found then no such entry has its user key. */
  method BuildThenGet(builder: TableBuilder, policy: Bloom.BloomFilterPolicy, name: Slice, k: Slice) returns (r: Option<KV>)
    requires builder.Valid() && builder.Filters() && !builder.closed && |builder.filterName| <= MAX_NAME
    requires builder.filterBlock != null ==> builder.filterBlock.policy == policy
    modifies builder, builder.dataBlock, builder.indexBlock, builder.filterBlock
    ensures |builder.file| < TWO32 && r.Some? ==> FirstFrom(old(builder.Added()), k, r.value)
    ensures |builder.file| < TWO32 && r.None? ==> NoneFrom(old(builder.Added()), k)
  {
    hide TableBuilder.Filters, IsTable, MetaOk, AllMayMatch, InternalLess, BlockBytes, IndexEntries, TableFormat.Flatten, FirstFrom, NoneFrom,
      StoredAt, PartsOk, LastCovered, FilterBlock.FilterBlockReader.Valid;
    ghost var meta, index, filter;
    assert builder.interval >= 1;
    meta, index, filter := builder.Finish();
    ghost var sum, parts := builder.sum, builder.parts;
    var metaHandle, indexBlock := Open(builder.sum, builder.file);
    r := None;
    if |builder.file| < TWO32 {
      assert IsTable(sum, builder.file, builder.interval, parts, meta, index);
      IndexFits(sum, builder.file, builder.interval, parts, meta, index);
      TableParts(sum, builder.file, builder.interval, parts, meta, index);
      FilterFits(sum, builder.file, builder.interval, meta, builder.filterName, filter);
      var reader := ReadMeta(builder.sum, builder.file, metaHandle.value, policy, name, builder.interval, builder.filterName, filter);
      r := InternalGet(builder.sum, builder.file, indexBlock.value, reader, k, builder.interval, parts);
    }
  }

  lemma TableParts(sum: Checksum, file: Slice, interval: nat, parts: seq<Part>, meta: BlockHandle, index: BlockHandle)
    requires IsTable(sum, file, interval, parts, meta, index)
    ensures PartsOk(sum, file, interval, parts) && LastCovered(parts)
  {
    hide PartsOk, InternalLess;
  }

  lemma FilterFits(sum: Checksum, file: Slice, interval: nat, meta: BlockHandle, name: Slice, filter: FilterAt)
    requires MetaOk(sum, file, interval, meta, name, filter)
    ensures filter.FilterAt? ==> |filter.contents| <= |file|
  {
  }

  // ------------------------------------------------------------- reads at a snapshot

  ghost predicate WellTagged(k: Slice) {
    exists user, sequence: nat, t :: sequence <= MAX_SEQUENCE_NUMBER && k == AppendInternalKey(user, sequence, t)
  }

  /** The entry that a key and value stand for. */
  function ToEntry(kv: KV): Entry {
    Entry(InternalKey(Rank(UserKeyOf(kv.key)), TagOf(kv.key) / 256, if TagOf(kv.key) % 256 == 1 then Value else Deletion), kv.value)
  }

  lemma TagsOf(k: Slice)
    requires WellTagged(k)
    ensures TagOf(k) % 256 <= 1 && TagOf(k) / 256 <= MAX_SEQUENCE_NUMBER
  {
    hide TagOf, UserKeyOf, AppendInternalKey;
    var user, sequence: nat, t :| sequence <= MAX_SEQUENCE_NUMBER && k == AppendInternalKey(user, sequence, t);
    AppendedKey(user, sequence, t);
  }

  /** What a lookup with a lookup key for (user, s) finds decides the read of the user key at
      snapshot s: it is the newest visible entry if it has the user key, and otherwise the table
      has no visible entry of that user key. */
  lemma LookupDecidesRead(kvs: seq<KV>, user: Slice, s: nat, r: Option<KV>)
    requires s <= MAX_SEQUENCE_NUMBER && forall kv :: kv in kvs ==> WellTagged(kv.key)
    requires var k := AppendInternalKey(user, s, Value); if r.Some? then FirstFrom(kvs, k, r.value) else NoneFrom(kvs, k)
    ensures var entries := set kv | kv in kvs :: ToEntry(kv);
      if r.Some? && UserKeyOf(r.value.key) == user then Newest(entries, Rank(user), s, ToEntry(r.value))
      else forall e :: e in entries ==> !(e.key.user == Rank(user) && e.key.sequence <= s)
  {
    hide Less, Rank, UserKeyOf, TagOf, AppendInternalKey, WellTagged;
    var k := AppendInternalKey(user, s, Value);
    AppendedKey(user, s, Value);
    var entries := set kv | kv in kvs :: ToEntry(kv);
    forall kv | kv in kvs
      ensures Rank(UserKeyOf(kv.key)) == Rank(user) && TagOf(kv.key) / 256 <= s <==> UserKeyOf(kv.key) == user && !InternalLess(kv.key, k)
    {
      RankEmbedsBytewiseOrder(UserKeyOf(kv.key), user);
      LessIsTotalOrder(user, user, user);
      TagsOf(kv.key);
    }
    if r.Some? {
      var first := r.value;
      LessIsTotalOrder(UserKeyOf(first.key), user, user);
      LessIsTotalOrder(user, UserKeyOf(first.key), user);
      forall kv | kv in kvs && UserKeyOf(kv.key) == user && !InternalLess(kv.key, k)
        ensures UserKeyOf(first.key) == user && TagOf(kv.key) <= TagOf(first.key)
      {
        LessIsTotalOrder(user, UserKeyOf(first.key), user);
      }
    }
  }
}
