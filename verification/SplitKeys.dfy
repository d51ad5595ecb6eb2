/** How a compaction under a live snapshot comes to spoil a later read, driven through the store: a
    deletion and the value below it are cut apart, and the next compaction takes only the deletion. */
module SplitKeys {
  import opened Bytes
  import opened DbFormat
  import opened Files
  import opened VersionBuilder
  import opened Manifest
  import opened OutputCuts
  import opened Compaction
  import opened Ages
  import opened CompactionReads
  import opened CompactionInstall
  import opened Lookup
  import opened Transitions
  import opened Store

  const KEY: UserKey := Rank([7])
  const PUT: Entry := Entry(InternalKey(KEY, 1, Value), [42])
  const DEL: Entry := Entry(InternalKey(KEY, 2, Deletion), [])

  function OneByte(es: seq<Entry>): nat { 1 }

  ghost predicate OnlyLevel(v: Version, level: nat, files: seq<File>)
    requires level < NUM_LEVELS
  {
    v[level] == files && forall l :: 0 <= l < NUM_LEVELS && l != level ==> v[l] == []
  }

  lemma ListOf(files: seq<File>, expected: seq<File>)
    requires Ordered(files) && Ordered(expected) && forall f :: f in files <==> f in expected
    ensures files == expected
  {
    OrderedListIsUnique(files, expected);
  }

  /** A table flushed into an empty version goes as deep as it may. */
  lemma FlushedDeep(f: File, level: nat, next: Version)
    requires LevelPicked(EMPTY_VERSION, Smallest(f).user, Largest(f).user, 1, level)
    requires Flushed(EMPTY_VERSION, level, f, next) && OrderedVersion(next)
    ensures level == 2 && OnlyLevel(next, 2, [f])
  {
    assert forall l :: 0 <= l < NUM_LEVELS ==> EMPTY_VERSION[l] == [];
    assert level == 2;
    forall l | 0 <= l < NUM_LEVELS ensures next[l] == if l == 2 then [f] else [] {
      ListOf(next[l], if l == 2 then [f] else []);
    }
  }

  lemma MemTableOf(es: seq<Entry>)
    requires Sorted(es) && ToSet(es) == {DEL, PUT}
    ensures es == [DEL, PUT]
  {
    assert DEL in ToSet(es) && PUT in ToSet(es);
    forall i, j | 0 <= i < j < |es| ensures es[i] == DEL && es[j] == PUT {
      assert es[i] in ToSet(es) && es[j] in ToSet(es) && Precedes(es[i], es[j]);
    }
    var last := |es| - 1;
    assert forall i :: 0 <= i < last ==> es[i] == DEL && es[last] == PUT;
    assert es[0] == DEL && es[1] == PUT;
  }

  lemma OneEntryEach(f: File)
    requires CutInTime(f.entries, OneByte, 1)
    ensures |f.entries| == 1
  {
    assert |f.entries| > 1 ==> OneByte(f.entries[..1]) < 1;
  }

  lemma {:induction false} CutToOnes(files: seq<File>)
    requires forall f :: f in files ==> |f.entries| == 1
    ensures |Concat(files)| == |files| && forall i :: 0 <= i < |files| ==> files[i].entries == [Concat(files)[i]]
  {
    if files != [] {
      var front := files[..|files| - 1];
      CutToOnes(front);
      assert forall f :: f in front ==> f in files;
      assert files[|files| - 1] in files;
      assert forall i :: 0 <= i < |front| ==> files[i] == front[i];
    }
  }

  lemma Outputs(v: Version, level: nat, c: Chosen, snapshot: nat, outputs: seq<File>)
    requires level + 1 < NUM_LEVELS && c.Chosen? && Compacted(v, level, c, snapshot, OneByte, 1, outputs)
    ensures var kept := KeptEntries(v, level, MergeFiles(c.in0 + c.in1), |MergeFiles(c.in0 + c.in1)|, snapshot);
      |outputs| == |kept| && forall i :: 0 <= i < |outputs| ==> outputs[i].entries == [kept[i]] && outputs[i].size == 1
  {
    hide KeptEntries, Grandparents, Plan.StopsBetween, Plan.EndsBefore;
    forall f | f in outputs ensures |f.entries| == 1 {
      var i :| 0 <= i < |outputs| && outputs[i] == f;
      OneEntryEach(f);
    }
    CutToOnes(outputs);
    assert forall i :: 0 <= i < |outputs| ==> outputs[i] in outputs;
  }

  /** The merged input of a single file are its entries. */
  lemma SingleInput(f: File)
    ensures MergeFiles([f] + []) == f.entries
  {
    assert [f] + [] == [f] && [f][1..] == [];
  }

  lemma OnlyInput(v: Version, f: File, c: Chosen)
    requires OnlyLevel(v, 2, [f]) && c.Chosen? && Follows(v, Manual(2, None, None), 1, c)
    ensures c.seed == [f] && c.in0 == [f] && c.in1 == []
  {
    hide *;
    LevelsOf(v, f);
    InputsFollow(v, c);
    OnlySeed(v, f, c.seed);
    NothingMeets(v, c.seed);
    NothingMeets(v, c.in0);
  }

  lemma LevelsOf(v: Version, f: File)
    requires OnlyLevel(v, 2, [f])
    ensures v[2] == [f] && v[3] == []
  {
  }

  /** Without files on the next level the seed is all there is to compact. */
  lemma InputsFollow(v: Version, c: Chosen)
    requires c.Chosen? && Follows(v, Manual(2, None, None), 1, c)
    ensures SeedOfPick(v, Manual(2, None, None), 1, c.seed) && c.seed != [] && c.in0 != [] && c.in1 == Meeting(v, 3, c.in0)
    ensures Meeting(v, 3, c.seed) == [] ==> c.in0 == c.seed
  {
    hide SeedOfPick, OverlapFilter;
  }

  lemma NothingMeets(v: Version, files: seq<File>)
    requires v[3] == [] && files != []
    ensures Meeting(v, 3, files) == []
  {
  }

  lemma OnlySeed(v: Version, f: File, seed: seq<File>)
    requires v[2] == [f] && SeedOfPick(v, Manual(2, None, None), 1, seed) && seed != []
    ensures seed == [f]
  {
    assert OverlapFilter([f], None, None) == [f];
    OnlyFile(f, seed);
  }

  lemma OnlyFile(f: File, seed: seq<File>)
    requires FirstFiles([f], 1, seed) && seed != []
    ensures seed == [f]
  {
    assert [f][..1] == [f];
  }

  lemma BothKept(v: Version, level: nat, input: seq<Entry>)
    requires input == [DEL, PUT]
    ensures KeptEntries(v, level, input, 2, 1) == [DEL, PUT]
  {
    KeptNone(v, level, input, 1);
    KeptStep(v, level, input, 0, 1);
    KeptStep(v, level, input, 1, 1);
  }

  /** The compaction that cuts the deletion from the value: the snapshot in between still needs both. */
  lemma FirstRun(v: Version, f: File, c: Chosen, outputs: seq<File>, next: Version) returns (a: File, b: File)
    requires OnlyLevel(v, 2, [f]) && f.entries == [DEL, PUT]
    requires c.Chosen? && Follows(v, Manual(2, None, None), 1, c)
    requires Compacted(v, 2, c, 1, OneByte, 1, outputs)
    requires Replaced(v, 2, c.in0, c.in1, outputs, next) && OrderedVersion(next)
    ensures a.entries == [DEL] && b.entries == [PUT] && a.size == b.size == 1 && OnlyLevel(next, 3, [a, b])
  {
    OnlyInput(v, f, c);
    hide Compacted, KeptEntries, MergeFiles, Follows;
    SingleInput(f);
    Outputs(v, 2, c, 1, outputs);
    BothKept(v, 2, f.entries);
    a, b := outputs[0], outputs[1];
    forall l | 0 <= l < NUM_LEVELS ensures next[l] == if l == 3 then [a, b] else [] {
      ListOf(next[l], if l == 3 then [a, b] else []);
    }
  }

  /** The next one, or the move, takes the deletion alone. */
  lemma SecondRun(v: Version, a: File, b: File, pick: Pick, c: Chosen, outputs: seq<File>, next: Version)
    requires OnlyLevel(v, 3, [a, b]) && a.entries == [DEL] && b.entries == [PUT] && a.size == b.size == 1
    requires pick == Manual(3, None, None) || pick == BySize(3, 0)
    requires c.Chosen? && Follows(v, pick, 1, c) && Replaced(v, 3, c.in0, c.in1, outputs, next)
    requires c.moved ==> outputs == c.in0
    requires !c.moved ==> Compacted(v, 3, c, 2, OneByte, 1, outputs)
    ensures c.moved <==> pick.BySize?
    ensures forall l, g :: 0 <= l < NUM_LEVELS ==> (g in next[l] <==> (l == 3 && g == b) || (l == 4 && c.moved && g == a))
  {
    assert c.seed == [a] by {
      if pick.Manual? {
        FirstOfTwo(a, b, c.seed);
      }
    }
    assert c.in0 == [a] && c.in1 == [];
    if !c.moved {
      SingleInput(a);
      DeletionGoes(v, a.entries);
      Outputs(v, 3, c, 2, outputs);
    }
  }

  lemma FirstOfTwo(a: File, b: File, seed: seq<File>)
    requires FirstFiles(OverlapFilter([a, b], None, None), 1, seed) && seed != [] && a.size == b.size == 1
    ensures seed == [a]
  {
    var files := [a, b];
    assert files[..1] == [a] && files[..1][..0] == [];
    assert OverlapFilter(files[..1], None, None) == [a] && OverlapFilter(files, None, None) == files;
    assert seed[..1] == [a] && TotalFileSize([a]) == 1;
  }

  lemma DeletionGoes(v: Version, input: seq<Entry>)
    requires input == [DEL] && forall l :: 5 <= l < NUM_LEVELS ==> v[l] == []
    ensures KeptEntries(v, 3, input, 1, 2) == []
  {
    KeptNone(v, 3, input, 2);
    KeptStep(v, 3, input, 0, 2);
  }

  /** Then the value is found first. */
  lemma ValueIsHit(v: Version, a: File, b: File, moved: bool, hit: Option<Entry>)
    requires a.entries == [DEL] && b.entries == [PUT]
    requires forall l, g :: 0 <= l < NUM_LEVELS ==> (g in v[l] <==> (l == 3 && g == b) || (l == 4 && moved && g == a))
    requires FirstHit(v, KEY, 2, hit)
    ensures hit == Some(PUT)
  {
    assert b in v[3] && PUT in b.entries && PUT in Entries(v);
    if hit.Some? {
      var l: nat, f :| HitIn(v, KEY, 2, hit.value, l, f);
      assert l == 4 ==> SearchedBefore(3, b, l, f) && PUT in ToSet(b.entries);
    }
  }

  lemma DeletedReadsAbsent()
    ensures DB.Written([Op(Value, KEY, [42])], 0) == {PUT} && DB.Written([Op(Deletion, KEY, [])], 1) == {DEL}
    ensures Read({PUT, DEL}, KEY, 2) == None
  {
    var put, del := [Op(Value, KEY, [42])], [Op(Deletion, KEY, [])];
    DB.WrittenGrows(put, 0, 0);
    DB.WrittenGrows(del, 0, 1);
    assert put[..0 + 1] == put && del[..0 + 1] == del;
    ReadNewest({PUT, DEL}, KEY, 2, DEL);
  }

  lemma MemTableSorted(db: DB)
    requires db.Sound()
    ensures Sorted(db.mem) && OrderedVersion(db.current)
  {
  }

  /** Everything written is on one level of a valid store. */
  ghost predicate AllOnLevel(db: DB, level: nat, files: seq<File>)
    requires level < NUM_LEVELS
    reads db
  {
    && db.Sound() && db.Valid() && db.maxFileSize == 1 && db.sizeOf == OneByte && db.mem == [] && db.imm == None
    && db.lastSequence == 2 && db.history == {PUT, DEL} && OnlyLevel(db.current, level, files)
  }

  /** A value is written, a snapshot taken, the value deleted, and both flushed. */
  method WriteAndFlush() returns (db: DB, ghost f: File)
    ensures fresh(db) && AllOnLevel(db, 2, [f]) && f.entries == [DEL, PUT] && db.snapshots == [1] && UserSeparate(db.current)
  {
    hide DB.Sound, DB.Valid, DB.Written, Read, OrderedVersion, Flushed, LevelPicked, UserSeparate, Sorted, Entries;
    DeletedReadsAbsent();
    db := new DB(1, OneByte);
    db.Write([Op(Value, KEY, [42])]);
    var snapshot := db.GetSnapshot();
    db.Write([Op(Deletion, KEY, [])]);
    assert db.history == {PUT, DEL} && ToSet(db.mem) == {DEL, PUT};
    MemTableSorted(db);
    MemTableOf(db.mem);
    db.SwitchMemTable();
    var table := db.CompactMemTable();
    MemTableSorted(db);
    f := table.value.1;
    FlushedDeep(f, table.value.0, db.current);
  }

  /** The compaction under the snapshot leaves the two in files of their own. */
  method CutApart(db: DB, ghost f: File) returns (ghost a: File, ghost b: File)
    requires AllOnLevel(db, 2, [f]) && f.entries == [DEL, PUT] && db.snapshots == [1] && UserSeparate(db.current)
    modifies db
    ensures AllOnLevel(db, 3, [a, b]) && a.entries == [DEL] && b.entries == [PUT] && a.size == b.size == 1
    ensures db.snapshots == [1]
  {
    hide ShowsUncovered, DB.Sound, DB.Valid, Compacted, Follows, Replaced, OrderedVersion, UserSeparate, Harmful,
      SeedOfPick, KeysClear, UserDisjoint, All;
    ghost var flushed := db.current;
    var pick := Manual(2, None, None);
    SomethingToDo(flushed, 2, [f], pick);
    var outputs, c := db.BackgroundCompaction(pick);
    MemTableSorted(db);
    OnlySizeMoves(flushed, pick, c);
    a, b := FirstRun(flushed, f, c, outputs, db.current);
  }

  /** Then the snapshot is released. The key reads as absent; after one more compaction, or the move of one
      file, it reads as the deleted value. */
  method SplitKeyResurrectsDeletedValue(bySize: bool) returns (before: Option<Slice>, after: Option<Slice>)
    ensures before == None && after == Some([42])
  {
    hide ShowsUncovered, StackHit, DB.Written, DB.Sound, DB.Valid, Read, Compacted, Follows, Replaced, FirstHit, UserSeparate, Harmful,
      SeedOfPick, KeysClear, UserDisjoint, All;
    DeletedReadsAbsent();
    ghost var f, a, b, hit;
    var db;
    db, f := WriteAndFlush();
    a, b := CutApart(db, f);
    db.ReleaseSnapshot(0);
    before, hit := db.Get(KEY, None);
    ghost var split := db.current;
    var pick := if bySize then BySize(3, 0) else Manual(3, None, None);
    SomethingToDo(split, 3, [a, b], pick);
    var outputs, c := db.BackgroundCompaction(pick);
    SecondRun(split, a, b, pick, c, outputs, db.current);
    after, hit := db.Get(KEY, None);
    StackIsFiles(db.current, KEY, 2, hit);
    ValueIsHit(db.current, a, b, c.moved, hit);
  }

  /** A level with files gives a compaction something to do. */
  lemma SomethingToDo(v: Version, level: nat, files: seq<File>, pick: Pick)
    requires level + 1 < NUM_LEVELS && level > 0 && v[level] == files && files != []
    requires pick == Manual(level, None, None) || pick == BySize(level, 0)
    ensures !SeedOfPick(v, pick, 1, [])
  {
    assert files[|files| - 1] in OverlapFilter(files, None, None);
    assert TotalFileSize([]) == 0;
  }

  lemma OnlySizeMoves(v: Version, pick: Pick, c: Chosen)
    requires pick.level + 1 < NUM_LEVELS && c.Chosen? && Follows(v, pick, 1, c)
    ensures c.moved ==> pick.BySize?
  {
  }

  /** With empty memtables the files answer. */
  lemma StackIsFiles(v: Version, k: UserKey, s: nat, hit: Option<Entry>)
    requires StackHit([], [], v, k, s, hit)
    ensures FirstHit(v, k, s, hit)
  {
  }
}
