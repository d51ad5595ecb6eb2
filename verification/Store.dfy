/** The database: memtables above versions, changed by writes, memtable switches, flushes,
    trivial moves and compactions, and read at snapshots. */
module Store {
  import opened Bytes
  import opened DbFormat
  import opened Files
  import opened VersionBuilder
  import opened Manifest
  import opened OutputCuts
  import opened Compaction
  import opened Ages
  import opened CompactionReads
  import opened CompactionInstall
  import opened Transitions
  import opened Lookup

  // --------------------------------------------------------------------- invariant

  ghost function All(mem: seq<Entry>, imm: seq<Entry>, v: Version): set<Entry> {
    ToSet(mem) + ToSet(imm) + Entries(v)
  }

  /** Memtables are newer than files, and the older memtable is in between. */
  ghost predicate Stacked(mem: seq<Entry>, imm: seq<Entry>, v: Version) {
    && Sorted(mem) && Sorted(imm)
    && NewerThan(ToSet(mem), ToSet(imm)) && NewerThan(ToSet(mem), Entries(v)) && NewerThan(ToSet(imm), Entries(v))
  }

  /** history is everything ever written, all of it at sequence numbers <= last. */
  ghost predicate WrittenUpTo(history: set<Entry>, last: nat) {
    last < MAX_SEQUENCE_NUMBER && DistinctSeqs(history) && forall e :: e in history ==> e.key.sequence <= last
  }

  /** At every snapshot from floor on the stored entries read like the whole history. */
  ghost predicate ReadsAlike(stored: set<Entry>, history: set<Entry>, floor: nat) {
    forall k, s :: floor <= s ==> Read(stored, k, s) == Read(history, k, s)
  }

  /** What every run keeps of a store. */
  ghost predicate StoreOk(mem: seq<Entry>, imm: seq<Entry>, v: Version, nextFile: nat, history: set<Entry>, last: nat, floor: nat,
                          snapshots: seq<nat>)
  {
    && OrderedVersion(v) && Placed(v) && NumbersBelow(v, nextFile)
    && Stacked(mem, imm, v) && All(mem, imm, v) <= history && WrittenUpTo(history, last)
    && floor <= last
    && (forall i :: 0 <= i < |snapshots| ==> floor <= snapshots[i] <= last)
    && (forall i, j :: 0 <= i < j < |snapshots| ==> snapshots[i] <= snapshots[j])
  }

  // -------------------------------------------------------------------- step lemmas

  lemma StartsEmpty()
    ensures OrderedVersion(EMPTY_VERSION) && Placed(EMPTY_VERSION) && Aged(EMPTY_VERSION) && UserSeparate(EMPTY_VERSION)
    ensures NumbersBelow(EMPTY_VERSION, 2) && Stacked([], [], EMPTY_VERSION) && All([], [], EMPTY_VERSION) == {}
    ensures WrittenUpTo({}, 0) && ReadsAlike({}, {}, 0)
  {
    hide *;
    NoLevels();
    NoFiles(EMPTY_VERSION);
    NothingWritten();
  }

  lemma NoLevels()
    ensures forall l :: 0 <= l < NUM_LEVELS ==> EMPTY_VERSION[l] == []
  {
  }

  lemma NoFiles(v: Version)
    requires forall l :: 0 <= l < NUM_LEVELS ==> v[l] == []
    ensures OrderedVersion(v) && Placed(v) && Aged(v) && UserSeparate(v) && NumbersBelow(v, 2) && Stacked([], [], v) && All([], [], v) == {}
  {
    assert Entries(v) == {};
    hide Entries;
    NoFilesOrdered(v);
    NoFilesPlaced(v);
    hide *;
    NothingStacked(v);
  }

  lemma NoFilesOrdered(v: Version)
    requires forall l :: 0 <= l < NUM_LEVELS ==> v[l] == []
    ensures OrderedVersion(v) && NumbersBelow(v, 2) && UserSeparate(v)
  {
  }

  lemma NoFilesPlaced(v: Version)
    requires forall l :: 0 <= l < NUM_LEVELS ==> v[l] == []
    ensures Placed(v) && Aged(v)
  {
  }

  lemma NothingStacked(v: Version)
    requires Entries(v) == {}
    ensures Stacked([], [], v) && All([], [], v) == {}
  {
  }

  lemma NothingWritten()
    ensures WrittenUpTo({}, 0) && ReadsAlike({}, {}, 0)
  {
    hide Read;
  }

  lemma WriteStep(mem: seq<Entry>, imm: seq<Entry>, v: Version, history: set<Entry>, last: nat, floor: nat, e: Entry)
    requires Stacked(mem, imm, v) && All(mem, imm, v) <= history && WrittenUpTo(history, last)
    requires e.key.sequence == last + 1 < MAX_SEQUENCE_NUMBER
    ensures var mem' := Insert(mem, e);
      && Stacked(mem', imm, v) && All(mem', imm, v) <= history + {e} && WrittenUpTo(history + {e}, last + 1)
      && ToSet(mem') == ToSet(mem) + {e}
      && (ReadsAlike(All(mem, imm, v), history, floor) ==> ReadsAlike(All(mem', imm, v), history + {e}, floor))
  {
    hide Read, Insert, Sorted, Entries;
    var stored := All(mem, imm, v);
    var mem' := Insert(mem, e);
    assert forall x :: x in mem ==> x in ToSet(mem);
    InsertSorts(mem, e);
    InsertMembers(mem, e);
    assert All(mem', imm, v) == stored + {e};
    if ReadsAlike(stored, history, floor) {
      forall k, s | floor <= s ensures Read(stored + {e}, k, s) == Read(history + {e}, k, s) {
        WritePreservesReads(stored, history, e, floor, k, s);
      }
    }
  }

  /** MemTable::Add: the skiplist puts the entry before the first key not before it. */
  function Insert(mem: seq<Entry>, e: Entry): seq<Entry> {
    var i := SeekIndex(mem, e.key);
    mem[..i] + [e] + mem[i..]
  }

  lemma InsertSorts(mem: seq<Entry>, e: Entry)
    requires Sorted(mem) && forall x :: x in mem ==> x.key.sequence < e.key.sequence
    ensures Sorted(Insert(mem, e))
  {
    var i := SeekIndex(mem, e.key);
    var r := mem[..i] + [e] + mem[i..];
    forall j | 0 <= j < |mem| ensures mem[j].key.sequence < e.key.sequence {
      assert mem[j] in mem;
    }
    forall j | i <= j < |mem| ensures Precedes(e, mem[j]) {
      assert j == i || Precedes(mem[i], mem[j]);
    }
    forall p, q | 0 <= p < q < |r| ensures Precedes(r[p], r[q]) {
      InsertOrder(mem, e, i, p, q);
    }
  }

  lemma InsertMembers(mem: seq<Entry>, e: Entry)
    ensures ToSet(Insert(mem, e)) == ToSet(mem) + {e}
  {
    var i := SeekIndex(mem, e.key);
    assert mem == mem[..i] + mem[i..];
  }

  lemma InsertOrder(mem: seq<Entry>, e: Entry, i: nat, p: nat, q: nat)
    requires Sorted(mem) && i <= |mem| && p < q <= |mem|
    requires forall j :: 0 <= j < i ==> Precedes(mem[j], e)
    requires forall j :: i <= j < |mem| ==> Precedes(e, mem[j])
    ensures var r := mem[..i] + [e] + mem[i..]; Precedes(r[p], r[q])
  {
  }

  lemma NewerThanMonotone(a: set<Entry>, b: set<Entry>, a': set<Entry>, b': set<Entry>)
    requires NewerThan(a, b) && a' <= a && b' <= b
    ensures NewerThan(a', b')
  {
  }

  lemma DroppedWereStored(v: Version, level: nat, in0: seq<File>, in1: seq<File>, input: seq<Entry>, snapshot: nat)
    requires InputsOk(v, level, in0, in1) && IsInput(in0, in1, input)
    ensures DroppedEntries(v, level, input, snapshot) <= Entries(v)
  {
    hide InputsOk, IsInput;
    forall d | d in DroppedEntries(v, level, input, snapshot) ensures d in Entries(v) {
      var l, f := InputHome(v, level, in0, in1, input, d);
    }
  }

  /** A compaction keeps memtables above files. Reads from its smallest snapshot on stay like those of
      the history if and only if it uncovers no value. */
  lemma CompactStep(mem: seq<Entry>, imm: seq<Entry>, v: Version, history: set<Entry>, last: nat, floor: nat,
                    level: nat, in0: seq<File>, in1: seq<File>, input: seq<Entry>, snapshot: nat, next: Version)
    requires Stacked(mem, imm, v) && All(mem, imm, v) <= history && WrittenUpTo(history, last)
    requires floor <= snapshot && InputsOk(v, level, in0, in1) && IsInput(in0, in1, input)
    requires Entries(next) == Entries(v) - DroppedEntries(v, level, input, snapshot)
    ensures Stacked(mem, imm, next) && All(mem, imm, next) <= history
    ensures ReadsAlike(All(mem, imm, v), history, floor) ==>
      (ReadsAlike(All(mem, imm, next), history, snapshot) <==>
       forall d, y :: !Uncovers(All(mem, imm, v), v, level, input, snapshot, d, y))
  {
    hide Read, Sorted, InputsOk, Entries, DroppedEntries, Uncovers;
    var above := ToSet(mem) + ToSet(imm);
    var dropped := DroppedEntries(v, level, input, snapshot);
    var stored := above + Entries(v);
    assert stored == All(mem, imm, v);
    NewerThanMonotone(ToSet(mem), Entries(v), ToSet(mem), Entries(next));
    NewerThanMonotone(ToSet(imm), Entries(v), ToSet(imm), Entries(next));
    DroppedWereStored(v, level, in0, in1, input, snapshot);
    assert All(mem, imm, next) == stored - dropped by {
      assert NewerThan(above, Entries(v));
    }
    InputWasStored(v, level, in0, in1, input);
    ReadsChangeIff(stored, v, level, input, snapshot);
  }

  lemma InputWasStored(v: Version, level: nat, in0: seq<File>, in1: seq<File>, input: seq<Entry>)
    requires InputsOk(v, level, in0, in1) && IsInput(in0, in1, input)
    ensures forall e :: e in input ==> e in Entries(v)
  {
    hide InputsOk, IsInput;
    forall e | e in input ensures e in Entries(v) {
      var l, f := InputHome(v, level, in0, in1, input, e);
    }
  }

  lemma OrderedNoRepeats(files: seq<File>)
    requires Ordered(files)
    ensures NoRepeats(files)
  {
  }

  /** Entries of two different files are told apart by the internal key order. */
  lemma FilesAreComparable(v: Version, l: nat, f: File, m: nat, g: File)
    requires Placed(v) && l < NUM_LEVELS && m < NUM_LEVELS && f in v[l] && g in v[m] && (l != m || f != g)
    ensures Comparable(f.entries, g.entries)
  {
    forall x, y | x in f.entries && y in g.entries ensures Precedes(x, y) || Precedes(y, x) {
      if x.key.user == y.key.user && x.key.sequence == y.key.sequence {
        SameFile(v, l, f, m, g, x, y);
      }
    }
  }

  lemma InputsAreComparable(v: Version, level: nat, in0: seq<File>, in1: seq<File>)
    requires Placed(v) && InputsOk(v, level, in0, in1) && NoRepeats(in1)
    ensures FilesComparable(in0 + in1)
  {
    var files := in0 + in1;
    forall i, j | 0 <= i < j < |files| ensures Comparable(files[i].entries, files[j].entries) {
      var l := if i < |in0| then level else level + 1;
      var m := if j < |in0| then level else level + 1;
      assert files[i] in v[l] && files[j] in v[m];
      FilesAreComparable(v, l, files[i], m, files[j]);
    }
  }

  /** The newest entry of a stack is in the first part that sees the key. */
  lemma FirstPartWins(a: set<Entry>, b: set<Entry>, k: UserKey, s: nat, e: Entry)
    requires NewerThan(a, b)
    ensures Newest(a, k, s, e) ==> Newest(a + b, k, s, e)
    ensures NothingSeen(a, k, s) && Newest(b, k, s, e) ==> Newest(a + b, k, s, e)
  {
  }

  // ------------------------------------------------------------------------ the store

  datatype Op = Op(typ: ValueType, user: UserKey, value: Slice)

  /** What a background compaction starts from. */
  datatype Pick =
    | BySize(level: nat, index: nat)
    | Manual(level: nat, begin: Option<UserKey>, end: Option<UserKey>)

  /** What a background compaction worked on: the files it started from, its inputs of both levels,
      and whether it only moved a file. */
  datatype Chosen = Idle | Chosen(seed: seq<File>, in0: seq<File>, in1: seq<File>, moved: bool)

  /** The shortest run of first files that reaches a total size, or all of them. */
  ghost predicate FirstFiles(files: seq<File>, limit: nat, seed: seq<File>) {
    && seed <= files && (forall n :: 0 < n < |seed| ==> TotalFileSize(seed[..n]) < limit)
    && (seed == files || TotalFileSize(seed) >= limit)
  }

  /** The files PickCompaction or CompactRange start from. */
  ghost predicate SeedOfPick(v: Version, pick: Pick, limit: nat, seed: seq<File>)
    requires pick.level < NUM_LEVELS
  {
    match pick
    case BySize(level, index) =>
      index < |v[level]| && if level > 0 then seed == [v[level][index]] else ClosedAround(v[0], v[0][index], seed)
    case Manual(level, begin, end) =>
      if level > 0 then FirstFiles(OverlapFilter(v[level], begin, end), limit, seed) else ClosedSeed(v[0], begin, end, seed)
  }

  /** In level 0 the files of the least such range around a file. */
  ghost predicate ClosedAround(files: seq<File>, f: File, seed: seq<File>) {
    ClosedSeed(files, Some(Smallest(f).user), Some(Largest(f).user), seed)
  }

  /** The compaction that a pick leads to; only picks by size move a file, when it stands alone and
      meets little data two levels down. */
  ghost predicate Follows(v: Version, pick: Pick, maxFileSize: nat, c: Chosen)
    requires pick.level + 1 < NUM_LEVELS && c.Chosen?
  {
    && SeedOfPick(v, pick, maxFileSize, c.seed) && c.seed != [] && InputsOk(v, pick.level, c.in0, c.in1)
    && (forall f :: f in c.seed ==> f in c.in0) && (Meeting(v, pick.level + 1, c.seed) == [] ==> c.in0 == c.seed)
    && Grown(v, pick.level, c.seed, maxFileSize, c.in0)
    && (c.moved <==> pick.BySize? && |c.in0| == 1 && |c.in1| == 0 && TotalFileSize(Grandparents(v, pick.level, c)) <= 10 * maxFileSize)
  }

  ghost function Grandparents(v: Version, level: nat, c: Chosen): seq<File>
    requires level + 1 < NUM_LEVELS && c.Chosen?
  {
    if level + 2 < NUM_LEVELS && c.in0 + c.in1 != [] then Meeting(v, level + 2, c.in0 + c.in1) else []
  }

  lemma ItFollows(v: Version, pick: Pick, maxFileSize: nat, c: Chosen, grandparents: seq<File>)
    requires pick.level + 1 < NUM_LEVELS && c.Chosen? && SeedOfPick(v, pick, maxFileSize, c.seed) && c.seed != []
    requires InputsOk(v, pick.level, c.in0, c.in1) && forall f :: f in c.seed ==> f in c.in0
    requires (Meeting(v, pick.level + 1, c.seed) == [] ==> c.in0 == c.seed) && Grown(v, pick.level, c.seed, maxFileSize, c.in0)
    requires grandparents == if pick.level + 2 < NUM_LEVELS then Meeting(v, pick.level + 2, c.in0 + c.in1) else []
    requires c.moved <==> pick.BySize? && |c.in0| == 1 && |c.in1| == 0 && TotalFileSize(grandparents) <= 10 * maxFileSize
    ensures Follows(v, pick, maxFileSize, c)
  {
    hide InputsOk, SeedOfPick, TotalFileSize, Meeting, Grown;
  }

  lemma ClearIfSeparate(v: Version, pick: Pick, maxFileSize: nat, c: Chosen)
    requires pick.level + 1 < NUM_LEVELS && c.Chosen? && Follows(v, pick, maxFileSize, c) && UserSeparate(v)
    ensures KeysClear(v, pick.level, c.in0, c.in1)
  {
    UserSeparateIsClear(v, pick.level, c.in0, c.in1);
  }

  /** A compaction of this version that has not run yet. */
  ghost predicate JobReady(job: CompactionJob, v: Version, maxFileSize: nat) reads job {
    && job.Valid() && job.version == v && job.maxFileSize == maxFileSize && job.level + 1 < NUM_LEVELS
    && InputsOk(v, job.level, job.inputs0, job.inputs1) && job.Fresh() && job.inputs0 != []
    && job.grandparents == if job.level + 2 < NUM_LEVELS then Meeting(v, job.level + 2, job.inputs0 + job.inputs1) else []
  }

  /** What a compaction at this level drops. */
  ghost function Drops(v: Version, level: nat, c: Chosen, snapshot: nat): set<Entry>
    requires c.Chosen?
  {
    if c.moved then {} else DroppedEntries(v, level, MergeFiles(c.in0 + c.in1), snapshot)
  }

  /** The compaction spoils reads: it moves an entry below an older one, or uncovers a value by dropping
      the deletion above it. */
  ghost predicate Harmful(stored: set<Entry>, v: Version, level: nat, c: Chosen, snapshot: nat)
    requires level < NUM_LEVELS && c.Chosen?
  {
    || Inverts(v, level, c.in0, Drops(v, level, c, snapshot))
    || (!c.moved && exists d, y :: Uncovers(stored, v, level, MergeFiles(c.in0 + c.in1), snapshot, d, y))
  }

  /** Whatever value the compaction uncovers is what its smallest snapshot reads afterwards, of a key that is
      deleted in the history. */
  ghost predicate ShowsUncovered(stored: set<Entry>, v: Version, level: nat, c: Chosen, snapshot: nat, left: set<Entry>, history: set<Entry>)
    requires c.Chosen?
  {
    forall d, y :: Uncovers(stored, v, level, MergeFiles(c.in0 + c.in1), snapshot, d, y) ==>
      Read(left, y.key.user, snapshot) == Some(y.value) && Read(history, y.key.user, snapshot) == None
  }

  /** The first part of the stack that sees the key answers. */
  ghost predicate StackHit(mem: seq<Entry>, imm: seq<Entry>, v: Version, k: UserKey, s: nat, r: Option<Entry>) {
    if !NothingSeen(ToSet(mem), k, s) then r.Some? && Newest(ToSet(mem), k, s, r.value)
    else if !NothingSeen(ToSet(imm), k, s) then r.Some? && Newest(ToSet(imm), k, s, r.value)
    else FirstHit(v, k, s, r)
  }

  class DB {
    const maxFileSize: nat
    const sizeOf: seq<Entry> -> nat
    var mem: seq<Entry>
    var imm: Option<seq<Entry>>
    var current: Version
    var lastSequence: nat
    var nextFile: nat
    var snapshots: seq<nat>
    ghost var history: set<Entry>
    ghost var floor: nat

    function Imm(): seq<Entry> reads this { if imm.Some? then imm.value else [] }

    /** What every run keeps. */
    ghost predicate Sound() reads this {
      StoreOk(mem, Imm(), current, nextFile, history, lastSequence, floor, snapshots)
    }

    /** Moreover the search order finds the newest entries, and what is stored reads like the history. */
    ghost predicate Valid() reads this {
      Sound() && Aged(current) && ReadsAlike(All(mem, Imm(), current), history, floor)
    }

    constructor (maxFileSize: nat, sizeOf: seq<Entry> -> nat)
      ensures Sound() && Valid() && UserSeparate(current) && history == {} && snapshots == [] && lastSequence == 0
      ensures mem == [] && imm == None && current == EMPTY_VERSION && this.maxFileSize == maxFileSize && this.sizeOf == sizeOf
    {
      this.maxFileSize, this.sizeOf := maxFileSize, sizeOf;
      mem, imm, current := [], None, EMPTY_VERSION;
      lastSequence, nextFile, snapshots := 0, 2, [];
      history, floor := {}, 0;
      new;
      hide OrderedVersion, Placed, Aged, UserSeparate, NumbersBelow, Stacked, All, WrittenUpTo, ReadsAlike;
      StartsEmpty();
    }

    // ----------------------------------------------------------------------- reading

    /** DBImpl::Get at a live snapshot, or at the last sequence: the answer of the first hit in search
        order, which in a valid store is the answer of the multi-version map of everything ever written. */
    method Get(k: UserKey, snapshot: Option<nat>) returns (r: Option<Slice>, ghost hit: Option<Entry>)
      requires Sound() && (snapshot.Some? ==> snapshot.value in snapshots)
      ensures StackHit(mem, Imm(), current, k, if snapshot.Some? then snapshot.value else lastSequence, hit)
      ensures r == if hit.Some? then Answer(hit.value) else None
      ensures Aged(current) ==> r == Read(All(mem, Imm(), current), k, if snapshot.Some? then snapshot.value else lastSequence)
      ensures Valid() ==> r == Read(history, k, if snapshot.Some? then snapshot.value else lastSequence)
    {
      hide Placed, Aged, StackHit;
      var s := if snapshot.Some? then snapshot.value else lastSequence;
      var e := Find(k, s);
      hit := e;
      ghost var stored := All(mem, Imm(), current);
      assert DistinctSeqs(stored);
      if e.Some? {
        r := Answer(e.value);
        if Aged(current) {
          ReadNewest(stored, k, s, e.value);
        }
      } else {
        r := None;
      }
    }

    method Find(k: UserKey, s: nat) returns (e: Option<Entry>)
      requires Sound()
      ensures StackHit(mem, Imm(), current, k, s, e)
      ensures Aged(current) && e.Some? ==> Newest(All(mem, Imm(), current), k, s, e.value)
      ensures e.None? ==> NothingSeen(All(mem, Imm(), current), k, s)
    {
      hide FirstHit, WrittenUpTo, OrderedVersion, NumbersBelow;
      ghost var below := ToSet(Imm()) + Entries(current);
      assert All(mem, Imm(), current) == ToSet(mem) + below;
      e := MemGet(mem, k, s);
      if e.Some? {
        FirstPartWins(ToSet(mem), below, k, s, e.value);
        return e;
      }
      e := MemGet(Imm(), k, s);
      if e.Some? {
        FirstPartWins(ToSet(Imm()), Entries(current), k, s, e.value);
        FirstPartWins(ToSet(mem), below, k, s, e.value);
        return e;
      }
      e := VersionGet(current, k, s);
      if e.Some? {
        FirstPartWins(ToSet(Imm()), Entries(current), k, s, e.value);
        FirstPartWins(ToSet(mem), below, k, s, e.value);
      } else {
        NoHit(current, k, s);
      }
    }

    static method MemGet(table: seq<Entry>, k: UserKey, s: nat) returns (e: Option<Entry>)
      requires Sorted(table)
      ensures e.Some? ==> Newest(ToSet(table), k, s, e.value) && !NothingSeen(ToSet(table), k, s)
      ensures e.None? ==> NothingSeen(ToSet(table), k, s)
    {
      SeekFindsNewest(table, k, s);
      var i := SeekIndex(table, LookupKey(k, s));
      e := if i < |table| && table[i].key.user == k then Some(table[i]) else None;
    }

    method GetSnapshot() returns (s: nat)
      requires Sound()
      modifies this`snapshots
      ensures Sound() && (old(Valid()) ==> Valid()) && s == lastSequence && snapshots == old(snapshots) + [s]
    {
      hide Placed, Aged, OrderedVersion, NumbersBelow, Stacked, All, WrittenUpTo, ReadsAlike;
      s := lastSequence;
      snapshots := snapshots + [s];
    }

    method ReleaseSnapshot(i: nat)
      requires Sound() && i < |snapshots|
      modifies this`snapshots
      ensures Sound() && (old(Valid()) ==> Valid()) && snapshots == old(snapshots[..i] + snapshots[i + 1..])
    {
      hide Placed, Aged, OrderedVersion, NumbersBelow, Stacked, All, WrittenUpTo, ReadsAlike;
      snapshots := snapshots[..i] + snapshots[i + 1..];
    }

    // ----------------------------------------------------------------------- writing

    /** The entries a batch writes after sequence number last. */
    static ghost function Written(batch: seq<Op>, last: nat): set<Entry> {
      set i | 0 <= i < |batch| :: Entry(InternalKey(batch[i].user, last + 1 + i, batch[i].typ), batch[i].value)
    }

    method Write(batch: seq<Op>)
      requires Sound() && lastSequence + |batch| < MAX_SEQUENCE_NUMBER
      modifies this`mem, this`lastSequence, this`history
      ensures Sound() && (old(Valid()) ==> Valid()) && lastSequence == old(lastSequence) + |batch|
      ensures history == old(history) + Written(batch, old(lastSequence))
      ensures ToSet(mem) == old(ToSet(mem)) + Written(batch, old(lastSequence))
    {
      hide Sound, Aged, ReadsAlike, All, ToSet;
      for i := 0 to |batch|
        invariant Sound() && (old(Valid()) ==> Valid()) && lastSequence == old(lastSequence) + i
        invariant history == old(history) + Written(batch[..i], old(lastSequence))
        invariant ToSet(mem) == old(ToSet(mem)) + Written(batch[..i], old(lastSequence))
      {
        WrittenGrows(batch, i, old(lastSequence));
        Add(batch[i]);
      }
      assert batch[..|batch|] == batch;
    }

    /** MemTable::Add at the next sequence number. */
    method Add(op: Op)
      requires Sound() && lastSequence + 1 < MAX_SEQUENCE_NUMBER
      modifies this`mem, this`lastSequence, this`history
      ensures Sound() && (old(Valid()) ==> Valid()) && lastSequence == old(lastSequence) + 1
      ensures history == old(history) + {Entry(InternalKey(op.user, lastSequence, op.typ), op.value)}
      ensures ToSet(mem) == old(ToSet(mem)) + {Entry(InternalKey(op.user, lastSequence, op.typ), op.value)}
    {
      hide Stacked, ReadsAlike, WrittenUpTo, Aged, Placed, NumbersBelow, OrderedVersion, All, ToSet, Insert;
      var e := Entry(InternalKey(op.user, lastSequence + 1, op.typ), op.value);
      WriteStep(mem, Imm(), current, history, lastSequence, floor, e);
      mem, lastSequence := Insert(mem, e), lastSequence + 1;
      history := history + {e};
    }

    static lemma WrittenGrows(batch: seq<Op>, i: nat, last: nat)
      requires i < |batch|
      ensures Written(batch[..i + 1], last) == Written(batch[..i], last)
        + {Entry(InternalKey(batch[i].user, last + 1 + i, batch[i].typ), batch[i].value)}
    {
      var e := Entry(InternalKey(batch[i].user, last + 1 + i, batch[i].typ), batch[i].value);
      forall x ensures x in Written(batch[..i + 1], last) <==> x in Written(batch[..i], last) || x == e {
        if x in Written(batch[..i], last) {
          var j :| 0 <= j < i && x == Entry(InternalKey(batch[j].user, last + 1 + j, batch[j].typ), batch[j].value);
          assert batch[..i + 1][j] == batch[j];
        }
        assert batch[..i + 1][i] == batch[i];
        if x in Written(batch[..i + 1], last) && x != e {
          var j :| 0 <= j <= i && x == Entry(InternalKey(batch[j].user, last + 1 + j, batch[j].typ), batch[j].value);
          assert batch[..i][j] == batch[j];
        }
      }
    }

    /** The part of MakeRoomForWrite that starts a new memtable. */
    method SwitchMemTable()
      requires Sound() && imm.None?
      modifies this`mem, this`imm
      ensures Sound() && (old(Valid()) ==> Valid()) && mem == [] && imm == Some(old(mem))
    {
      hide Stacked, All, ReadsAlike, WrittenUpTo, Aged, Placed, NumbersBelow, OrderedVersion;
      SwitchStep(mem, current);
      imm, mem := Some(mem), [];
    }

    // ------------------------------------------------------------------ reorganising

    /** CompactMemTable: the immutable memtable becomes a table of the level picked for it; an empty one
        just goes. */
    method CompactMemTable() returns (ghost table: Option<(nat, File)>)
      requires Sound() && imm.Some?
      modifies this`imm, this`current, this`nextFile
      ensures Sound() && (old(Valid()) ==> Valid()) && imm.None? && (old(UserSeparate(current)) ==> UserSeparate(current))
      ensures Entries(current) == old(Entries(current)) + ToSet(old(imm.value))
      ensures table.None? <==> old(imm.value) == []
      ensures if table.None? then current == old(current) else
        var (level, f) := table.value;
        && f == FileMetaData(old(nextFile), sizeOf(old(imm.value)), old(imm.value))
        && LevelPicked(old(current), Smallest(f).user, Largest(f).user, maxFileSize, level) && Flushed(old(current), level, f, current)
    {
      hide Stacked, ReadsAlike, WrittenUpTo, Aged, Placed, Installed, AddedOnce, Flushed, NumbersBelow, LevelPicked, UserSeparate,
        OrderedVersion, FlushLevelOk, NewerThan, All, Entries, ToSet, Sorted;
      if imm.value == [] {
        assert ToSet(imm.value) == {} by {
          NoEntries();
        }
        imm := None;
        return None;
      }
      StackedMemTable(mem, imm.value, current);
      var f: File := FileMetaData(nextFile, sizeOf(imm.value), imm.value);
      var level := PickFlushLevel(f);
      FlushAddsOnce(current, level, f);
      var next := LogAndApply(current, FlushEdit(level, f));
      FlushKeepsLayers(current, level, f, next);
      FlushedFiles(current, level, f, next);
      FlushStep(mem, imm.value, current, next);
      FlushNumbersBelow(current, level, f, next);
      current, imm, nextFile := next, None, nextFile + 1;
      table := Some((level, f));
    }

    method PickFlushLevel(f: File) returns (level: nat)
      requires Sound()
      ensures FlushLevelOk(current, level, f) && level <= MAX_MEM_COMPACT_LEVEL
      ensures LevelPicked(current, Smallest(f).user, Largest(f).user, maxFileSize, level)
    {
      hide Stacked, WrittenUpTo, NumbersBelow, OrderedVersion;
      SequencesBounded();
      level := PickLevelForMemTableOutput(current, Smallest(f).user, Largest(f).user, maxFileSize);
    }

    lemma SequencesBounded()
      requires Sound()
      ensures forall l, f, e :: 0 <= l < NUM_LEVELS && f in current[l] && e in f.entries ==>
        e.key.sequence <= MAX_SEQUENCE_NUMBER
    {
      forall l, f, e | 0 <= l < NUM_LEVELS && f in current[l] && e in f.entries
        ensures e.key.sequence <= MAX_SEQUENCE_NUMBER
      {
        assert e in Entries(current);
      }
    }

    /** The files PickCompaction or CompactRange puts first; none when there is nothing to do. */
    method PickSeed(pick: Pick) returns (seed: seq<File>)
      requires Sound() && pick.level + 1 < NUM_LEVELS
      requires pick.BySize? ==> pick.index < |current[pick.level]|
      ensures seed == [] || Seed(current, pick.level, seed)
      ensures SeedOfPick(current, pick, maxFileSize, seed)
      ensures pick.BySize? ==> current[pick.level][pick.index] in seed
    {
      hide Stacked, WrittenUpTo, Placed, NumbersBelow, Ordered, NoRepeats, Seed, FirstFiles, ClosedSeed;
      var level := pick.level;
      OrderedNoRepeats(current[level]);
      match pick
      case BySize(_, index) =>
        seed := SeedBySize(current, level, index);
      case Manual(_, begin, end) =>
        seed := SeedOfRange(current, level, begin, end, maxFileSize);
    }

    /** PickCompaction from one file of a level; in level 0 with the files it overlaps. */
    static method SeedBySize(v: Version, level: nat, index: nat) returns (seed: seq<File>)
      requires level + 1 < NUM_LEVELS && index < |v[level]| && NoRepeats(v[level])
      ensures Seed(v, level, seed) && v[level][index] in seed
      ensures level > 0 ==> seed == [v[level][index]]
      ensures level == 0 ==> ClosedAround(v[0], v[0][index], seed)
    {
      seed := [v[level][index]];
      if level == 0 {
        ghost var lo, hi;
        var smallest, largest := GetRange(seed);
        seed, lo, hi := GetOverlappingInputs(0, v[0], Some(smallest.user), Some(largest.user));
        KeyRange(v[0][index]);
        assert Overlaps(v[0][index], lo, hi);
        OverlappingInputsAreSeed(v, Some(smallest.user), Some(largest.user), lo, hi);
      }
    }

    /** CompactRange: the files that meet a range, below level 0 only up to a total size. */
    static method SeedOfRange(v: Version, level: nat, begin: Option<UserKey>, end: Option<UserKey>, limit: nat)
      returns (seed: seq<File>)
      requires level + 1 < NUM_LEVELS && NoRepeats(v[level])
      ensures seed == [] || Seed(v, level, seed)
      ensures level > 0 ==> FirstFiles(OverlapFilter(v[level], begin, end), limit, seed)
      ensures level == 0 ==> ClosedSeed(v[0], begin, end, seed)
    {
      ghost var lo, hi;
      seed, lo, hi := GetOverlappingInputs(level, v[level], begin, end);
      OverlapFilterNoRepeats(v[level], lo, hi);
      if seed == [] {
        return;
      }
      if level == 0 {
        OverlappingInputsAreSeed(v, begin, end, lo, hi);
      } else {
        ghost var found := seed;
        seed := UpToSize(seed, limit);
        PrefixIsSeed(v, level, found, seed);
      }
    }

    /** The loop that keeps an ongoing compaction from getting too large. */
    static method UpToSize(files: seq<File>, limit: nat) returns (r: seq<File>)
      requires files != []
      ensures FirstFiles(files, limit, r) && r != []
    {
      hide FirstFiles, TotalFileSize;
      var total, i := 0, 0;
      NoFiles(files);
      while i < |files| && total + files[i].size < limit
        invariant i <= |files| && total == TotalFileSize(files[0..i])
        invariant forall n :: 0 < n <= i ==> TotalFileSize(files[0..n]) < limit
      {
        OneMoreFile(files, 0, i);
        total, i := total + files[i].size, i + 1;
      }
      ShortestRun(files, i, limit);
      r := if i < |files| then files[..i + 1] else files;
    }

    static lemma NoFiles(files: seq<File>)
      ensures TotalFileSize(files[0..0]) == 0
    {
    }

    static lemma PrefixIsSeed(v: Version, level: nat, files: seq<File>, seed: seq<File>)
      requires Seed(v, level, files) && level > 0 && seed <= files && seed != []
      ensures Seed(v, level, seed)
    {
      assert forall f :: f in seed ==> f in files;
    }

    /** BackgroundCompaction: a trivial move or a compaction with its drops. Every run stays sound. A
        valid store stays valid if and only if the compaction is not harmful, which a clear key check
        before it rules out. No key spans two files of a level as long as compactions that split one are
        avoided, as all are that run without a live snapshot. */
    method BackgroundCompaction(pick: Pick) returns (outputs: seq<File>, ghost c: Chosen)
      requires Sound() && imm.None? && pick.level + 1 < NUM_LEVELS
      requires pick.BySize? ==> pick.index < |current[pick.level]|
      modifies this`current, this`nextFile, this`floor
      ensures Sound() && (c.Idle? ==> SeedOfPick(old(current), pick, maxFileSize, []))
      ensures c.Idle? ==> outputs == [] && current == old(current) && nextFile == old(nextFile) && floor == old(floor)
      ensures c.Chosen? ==> Follows(old(current), pick, maxFileSize, c)
      ensures c.Chosen? ==> Replaced(old(current), pick.level, c.in0, c.in1, outputs, current)
      ensures c.Chosen? && c.moved ==> outputs == c.in0 && floor == old(floor)
      ensures c.Chosen? && !c.moved ==> Compacted(old(current), pick.level, c, SmallestSnapshot(), sizeOf, maxFileSize, outputs)
      ensures c.Chosen? && !c.moved ==> floor == SmallestSnapshot()
      ensures c.Chosen? && old(Valid()) ==>
        (Valid() <==> !Harmful(old(All(mem, Imm(), current)), old(current), pick.level, c, SmallestSnapshot()))
      ensures c.Chosen? && old(Valid()) && KeysClear(old(current), pick.level, c.in0, c.in1) ==> Valid()
      ensures c.Chosen? && !c.moved && old(Valid()) ==>
        ShowsUncovered(old(All(mem, Imm(), current)), old(current), pick.level, c, floor, All(mem, Imm(), current), history)
      ensures c.Chosen? && old(UserSeparate(current)) ==>
        KeysClear(old(current), pick.level, c.in0, c.in1) && (UserSeparate(current) <==> UserDisjoint(outputs))
      ensures old(UserSeparate(current)) && snapshots == [] ==> UserSeparate(current)
    {
      hide ShowsUncovered, Sound, Valid, InputsOk, KeysClear, Harmful, Compacted, Replaced,
        UserSeparate, UserDisjoint, Follows, Aged, All, JobReady, SeedOfPick;
      var job: CompactionJob?;
      job, c := PickCompaction(pick);
      if job == null {
        return [], Idle;
      }
      if UserSeparate(current) {
        ClearIfSeparate(current, pick, maxFileSize, c);
      }
      if pick.BySize? && job.IsTrivialMove() {
        outputs := job.inputs0;
        assert outputs == [outputs[0]] && job.inputs1 == [];
        Move(job.level, outputs[0], c);
      } else {
        outputs := Compact(job, c);
      }
    }

    /** PickCompaction or CompactRange: the compaction to run, or null when there is nothing to do. */
    method PickCompaction(pick: Pick) returns (job: CompactionJob?, ghost c: Chosen)
      requires Sound() && pick.level + 1 < NUM_LEVELS
      requires pick.BySize? ==> pick.index < |current[pick.level]|
      ensures job == null <==> c.Idle?
      ensures job == null ==> SeedOfPick(current, pick, maxFileSize, [])
      ensures job != null ==> fresh(job) && JobReady(job, current, maxFileSize) && job.level == pick.level
      ensures job != null ==> Follows(current, pick, maxFileSize, c) && InputsOk(current, job.level, job.inputs0, job.inputs1)
      ensures job != null ==> c.in0 == job.inputs0 && c.in1 == job.inputs1 && (c.moved <==> pick.BySize? && job.IsTrivialMove())
    {
      hide StoreOk, Valid, Seed, InputsOk, NoRepeats, Disjoint, SeedOfPick, TotalFileSize, Meeting, Follows, VersionOk, OrderedVersion,
        Placed, CompactionJob.Valid, NumbersBelow;
      VersionStored();
      var seed := PickSeed(pick);
      if seed == [] {
        return null, Idle;
      }
      LevelsInOrder(current);
      job := new CompactionJob(current, pick.level, seed, maxFileSize);
      assert seed[0] in job.inputs0;
      c := Chosen(seed, job.inputs0, job.inputs1, pick.BySize? && job.IsTrivialMove());
      ItFollows(current, pick, maxFileSize, c, job.grandparents);
    }

    method Move(level: nat, f: File, ghost c: Chosen)
      requires Sound() && InputsOk(current, level, [f], []) && c.Chosen? && c.in0 == [f] && c.in1 == [] && c.moved
      modifies this`current
      ensures Sound() && Replaced(old(current), level, [f], [], [f], current)
      ensures old(Valid()) ==> (Valid() <==> !Harmful(old(All(mem, Imm(), current)), old(current), level, c, SmallestSnapshot()))
      ensures old(Valid()) && KeysClear(old(current), level, [f], []) ==> Valid()
      ensures old(UserSeparate(current)) ==> UserSeparate(current) && UserDisjoint([f])
    {
      hide Stacked, ReadsAlike, WrittenUpTo, Aged, Placed, Installed, AddedOnce, Replaced, NumbersBelow, InputsOk, KeysClear,
        UserSeparate, OrderedVersion, All, Inverts, Entries, Separate, NumbersUnique, Layered;
      MovedFile(current, level, f);
      LayeredParts(current);
      MoveAddsOnce(current, level, f);
      var next := LogAndApply(current, MoveEdit(level, f));
      MoveKeepsLayers(current, level, f, next);
      SameEntries(mem, Imm(), current, next);
      MoveNumbersBelow(current, level, f, next, nextFile);
      if KeysClear(current, level, [f], []) {
        ClearInvertsNothing(current, level, [f], [], {});
      }
      current := next;
    }

    function SmallestSnapshot(): nat reads this { if snapshots == [] then lastSequence else snapshots[0] }

    method Compact(job: CompactionJob, ghost c: Chosen) returns (outputs: seq<File>)
      requires Sound() && imm.None? && JobReady(job, current, maxFileSize)
      requires c.Chosen? && c.in0 == job.inputs0 && c.in1 == job.inputs1 && !c.moved
      modifies this`current, this`nextFile, this`floor, job
      ensures Sound() && Replaced(old(current), job.level, job.inputs0, job.inputs1, outputs, current)
      ensures Compacted(old(current), job.level, c, SmallestSnapshot(), sizeOf, maxFileSize, outputs) && floor == SmallestSnapshot()
      ensures old(Valid()) ==>
        (Valid() <==> !Harmful(old(All(mem, Imm(), current)), old(current), job.level, c, SmallestSnapshot()))
      ensures old(Valid()) && KeysClear(old(current), job.level, job.inputs0, job.inputs1) ==> Valid()
      ensures old(Valid()) ==>
        ShowsUncovered(old(All(mem, Imm(), current)), old(current), job.level, c, floor, All(mem, Imm(), current), history)
      ensures old(UserSeparate(current)) ==> (UserSeparate(current) <==> UserDisjoint(outputs))
      ensures old(UserSeparate(current)) && snapshots == [] ==> UserSeparate(current)
    {
      hide StoreOk, OrderedVersion, Installed, Replaced, NumbersBelow, InputsOk, UserDisjoint, FreshNumbers, Aged, ReadsAlike,
        ShowsUncovered, OutputsAre, IsInput, KeptEntries, Sorted, Concat, NumbersFrom, Placed, UserSeparate, KeysClear, Harmful, All,
        Compacted, MergeFiles, JobReady;
      var level, in0, in1 := job.level, job.inputs0, job.inputs1;
      VersionStored();
      var snapshot := SmallestSnapshot();
      SnapshotBounds();
      var next, v;
      outputs, next, v := Produce(job, c, snapshot);
      CompactionOutcome(mem, Imm(), current, nextFile, history, lastSequence, floor, snapshots, level, in0, in1, MergeFiles(in0 + in1), snapshot,
        outputs, v, next);
      if Valid() {
        CompactionEffect(mem, Imm(), current, nextFile, history, lastSequence, floor, snapshots, level, c, snapshot, outputs, v);
      }
      current, nextFile, floor := v, next, snapshot;
    }

    /** Merges the inputs into outputs and makes the version that has those instead. */
    method Produce(job: CompactionJob, ghost c: Chosen, snapshot: nat) returns (outputs: seq<File>, next: nat, v: Version)
      requires VersionOk(current) && OrderedVersion(current) && NumbersBelow(current, nextFile)
      requires JobReady(job, current, maxFileSize) && snapshot < MAX_SEQUENCE_NUMBER
      requires c.Chosen? && c.in0 == job.inputs0 && c.in1 == job.inputs1 && !c.moved
      modifies job
      ensures InputsOk(current, job.level, c.in0, c.in1) && job.level + 1 < NUM_LEVELS
      ensures var input := MergeFiles(c.in0 + c.in1);
        && IsInput(c.in0, c.in1, input) && Sorted(input) && Concat(outputs) == KeptEntries(current, job.level, input, |input|, snapshot)
        && OutputsAre(outputs, input, DroppedEntries(current, job.level, input, snapshot)) && Sorted(Concat(outputs))
      ensures FreshNumbers(current, outputs) && next >= nextFile && NumbersFrom(outputs, nextFile, next)
      ensures Installed(current, CompactionEdit(job.level, c.in0, c.in1, outputs), v) && OrderedVersion(v)
      ensures Compacted(current, job.level, c, snapshot, sizeOf, maxFileSize, outputs)
    {
      hide OrderedVersion, Installed, AddedOnce, NumbersBelow, InputsOk, FreshNumbers, FilesComparable, OutputsAre, IsInput, KeptEntries, Sorted,
        Concat, NumbersFrom, Plan.CutAsPlanned, MergeFiles, DroppedEntries, CompactionEdit, Meeting, VersionOk, CompactionJob.Fresh;
      var level, in0, in1 := job.level, job.inputs0, job.inputs1;
      MergedInput(current, level, in0, in1);
      var input := MergeFiles(in0 + in1);
      outputs, next := job.DoCompactionWork(input, snapshot, nextFile, sizeOf);
      EditReady(current, level, in0, in1, input, snapshot, outputs, nextFile, next);
      v := LogAndApply(current, CompactionEdit(level, in0, in1, outputs));
    }

    lemma VersionStored()
      requires Sound()
      ensures VersionOk(current) && OrderedVersion(current) && Placed(current) && NumbersBelow(current, nextFile)
    {
    }

    lemma SnapshotBounds()
      requires Sound()
      ensures floor <= SmallestSnapshot() <= lastSequence < MAX_SEQUENCE_NUMBER
      ensures forall i :: 0 <= i < |snapshots| ==> SmallestSnapshot() <= snapshots[i] <= lastSequence
    {
    }
  }

  /** The outputs of a compaction: what it keeps, cut where a file is full or meets too much grandparent data. */
  ghost predicate Compacted(v: Version, level: nat, c: Chosen, snapshot: nat, sizeOf: seq<Entry> -> nat, limit: nat,
                            outputs: seq<File>)
    requires level + 1 < NUM_LEVELS && c.Chosen?
  {
    var input := MergeFiles(c.in0 + c.in1);
    && Concat(outputs) == KeptEntries(v, level, input, |input|, snapshot)
    && Plan(input, Grandparents(v, level, c), sizeOf, limit).CutAsPlanned(outputs)
  }

  lemma ShortestRun(files: seq<File>, i: nat, limit: nat)
    requires i <= |files| && forall n :: 0 < n <= i ==> TotalFileSize(files[0..n]) < limit
    requires i < |files| ==> TotalFileSize(files[0..i]) + files[i].size >= limit
    ensures FirstFiles(files, limit, if i < |files| then files[..i + 1] else files)
  {
    if i < |files| {
      var seed := files[..i + 1];
      OneMoreFile(files, 0, i);
      assert seed == files[0..i + 1];
      forall n | 0 < n < |seed| ensures TotalFileSize(seed[..n]) < limit {
        assert seed[..n] == files[0..n];
      }
    } else {
      forall n | 0 < n < |files| ensures TotalFileSize(files[..n]) < limit {
        assert files[..n] == files[0..n];
      }
    }
  }

  lemma NoHit(v: Version, k: UserKey, s: nat)
    requires FirstHit(v, k, s, None)
    ensures NothingSeen(Entries(v), k, s)
  {
  }

  lemma MovedFile(v: Version, level: nat, f: File)
    requires InputsOk(v, level, [f], [])
    ensures level + 1 < NUM_LEVELS && f in v[level]
  {
    assert f in [f];
  }

  /** The outputs may be installed: fresh numbers, the input entries that are kept, in order. */
  lemma EditReady(v: Version, level: nat, in0: seq<File>, in1: seq<File>, input: seq<Entry>, snapshot: nat,
                  outputs: seq<File>, from: nat, to: nat)
    requires level + 1 < NUM_LEVELS && NumbersBelow(v, from) && NumbersFrom(outputs, from, to) && Sorted(input)
    requires Concat(outputs) == KeptEntries(v, level, input, |input|, snapshot)
    ensures FreshNumbers(v, outputs) && AddedOnce(v, CompactionEdit(level, in0, in1, outputs))
    ensures OutputsAre(outputs, input, DroppedEntries(v, level, input, snapshot)) && Sorted(Concat(outputs))
  {
    hide NumbersBelow, NumbersFrom, FreshNumbers, AddedOnce, OutputsAre, Sorted, Concat, KeptEntries;
    FreshOutputs(v, outputs, from, to);
    EditAddsOnce(v, level, in0, in1, outputs);
    OutputsAreKept(v, level, input, snapshot, outputs);
    KeptIsSorted(v, level, input, |input|, snapshot);
  }

  /** The version after a compaction: what every run keeps of it, and what it holds. */
  lemma CompactionInstalled(v: Version, level: nat, in0: seq<File>, in1: seq<File>, input: seq<Entry>, snapshot: nat,
                            outputs: seq<File>, next: Version, from: nat, to: nat)
    requires Placed(v) && InputsOk(v, level, in0, in1) && IsInput(in0, in1, input) && FreshNumbers(v, outputs)
    requires OutputsAre(outputs, input, DroppedEntries(v, level, input, snapshot)) && Sorted(Concat(outputs))
    requires Installed(v, CompactionEdit(level, in0, in1, outputs), next) && OrderedVersion(next)
    requires NumbersBelow(v, from) && NumbersFrom(outputs, from, to) && from <= to
    ensures Replaced(v, level, in0, in1, outputs, next) && Placed(next) && NumbersBelow(next, to)
    ensures Entries(next) == Entries(v) - DroppedEntries(v, level, input, snapshot)
    ensures UserSeparate(v) ==> (UserSeparate(next) <==> UserDisjoint(outputs))
  {
    hide InputsOk, IsInput, FreshNumbers, OutputsAre, Sorted, Installed, OrderedVersion, NumbersBelow, NumbersFrom, Replaced,
      NumbersUnique, Separate, OneHome, UserSeparate, UserDisjoint, Entries, Concat, KeptEntries, DroppedEntries;
    InstalledReplaces(v, level, in0, in1, outputs, next);
    NumbersAfter(v, level, in0, in1, outputs, next);
    PlacedAfter(v, level, in0, in1, input, DroppedEntries(v, level, input, snapshot), outputs, next);
    NumbersStayBelow(v, level, in0, in1, outputs, next, from, to);
  }

  lemma InputWritten(mem: seq<Entry>, imm: seq<Entry>, v: Version, history: set<Entry>, last: nat,
                     level: nat, in0: seq<File>, in1: seq<File>, input: seq<Entry>)
    requires All(mem, imm, v) <= history && WrittenUpTo(history, last)
    requires InputsOk(v, level, in0, in1) && IsInput(in0, in1, input)
    ensures forall y :: y in input ==> y.key.sequence <= last
  {
    hide InputsOk, IsInput;
    forall y | y in input ensures y.key.sequence <= last {
      var l, f := InputHome(v, level, in0, in1, input, y);
      assert y in Entries(v);
    }
  }

  /** The store after a compaction down to the smallest snapshot is sound. */
  lemma CompactionOutcome(mem: seq<Entry>, imm: seq<Entry>, v: Version, from: nat, history: set<Entry>, last: nat, floor: nat,
                          snapshots: seq<nat>, level: nat, in0: seq<File>, in1: seq<File>, input: seq<Entry>, snapshot: nat,
                          outputs: seq<File>, next: Version, to: nat)
    requires StoreOk(mem, imm, v, from, history, last, floor, snapshots)
    requires floor <= snapshot <= last && (forall i :: 0 <= i < |snapshots| ==> snapshot <= snapshots[i])
    requires snapshots == [] ==> snapshot == last
    requires InputsOk(v, level, in0, in1) && IsInput(in0, in1, input) && Sorted(input) && FreshNumbers(v, outputs)
    requires Concat(outputs) == KeptEntries(v, level, input, |input|, snapshot)
    requires OutputsAre(outputs, input, DroppedEntries(v, level, input, snapshot)) && Sorted(Concat(outputs))
    requires Installed(v, CompactionEdit(level, in0, in1, outputs), next) && OrderedVersion(next)
    requires NumbersFrom(outputs, from, to) && from <= to
    ensures StoreOk(mem, imm, next, to, history, last, snapshot, snapshots)
    ensures Replaced(v, level, in0, in1, outputs, next)
    ensures Entries(next) == Entries(v) - DroppedEntries(v, level, input, snapshot)
    ensures UserSeparate(v) ==> (UserSeparate(next) <==> UserDisjoint(outputs))
    ensures UserSeparate(v) && snapshots == [] ==> UserSeparate(next)
  {
    hide Stacked, WrittenUpTo, Placed, Installed, Replaced, NumbersBelow, OrderedVersion, UserSeparate, ReadsAlike, Uncovers,
      InputsOk, UserDisjoint, FreshNumbers, OutputsAre, IsInput, KeptEntries, Sorted, All, DroppedEntries, Concat, NumbersFrom, Entries;
    CompactionInstalled(v, level, in0, in1, input, snapshot, outputs, next, from, to);
    CompactStep(mem, imm, v, history, last, floor, level, in0, in1, input, snapshot, next);
    if snapshots == [] {
      InputWritten(mem, imm, v, history, last, level, in0, in1, input);
      NoSnapshotNoSplit(v, level, input, snapshot, outputs);
    }
  }

  /** Exactly when the store is valid after it. */
  lemma CompactionEffect(mem: seq<Entry>, imm: seq<Entry>, v: Version, from: nat, history: set<Entry>, last: nat, floor: nat,
                         snapshots: seq<nat>, level: nat, c: Chosen, snapshot: nat, outputs: seq<File>, next: Version)
    requires StoreOk(mem, imm, v, from, history, last, floor, snapshots) && Aged(v) && ReadsAlike(All(mem, imm, v), history, floor)
    requires floor <= snapshot && c.Chosen? && !c.moved && InputsOk(v, level, c.in0, c.in1)
    requires IsInput(c.in0, c.in1, MergeFiles(c.in0 + c.in1))
    requires OutputsAre(outputs, MergeFiles(c.in0 + c.in1), Drops(v, level, c, snapshot))
    requires Entries(next) == Entries(v) - Drops(v, level, c, snapshot)
    requires level + 1 < NUM_LEVELS && Replaced(v, level, c.in0, c.in1, outputs, next)
    ensures Aged(next) && ReadsAlike(All(mem, imm, next), history, snapshot) <==> !Harmful(All(mem, imm, v), v, level, c, snapshot)
    ensures KeysClear(v, level, c.in0, c.in1) ==> !Harmful(All(mem, imm, v), v, level, c, snapshot)
    ensures ShowsUncovered(All(mem, imm, v), v, level, c, snapshot, All(mem, imm, next), history)
  {
    hide ShowsUncovered, Stacked, WrittenUpTo, Placed, Replaced, NumbersBelow, OrderedVersion, InputsOk, OutputsAre, IsInput, All, Inverts, Uncovers,
      Aged, ReadsAlike, KeysClear, Entries, DroppedEntries, Separate, NumbersUnique, Layered;
    var input := MergeFiles(c.in0 + c.in1);
    LayeredParts(v);
    AgesAfterIff(v, level, c.in0, c.in1, input, Drops(v, level, c, snapshot), outputs, next);
    UncoveredIsShown(mem, imm, v, history, last, floor, level, c, snapshot, next);
    CompactStep(mem, imm, v, history, last, floor, level, c.in0, c.in1, input, snapshot, next);
    if KeysClear(v, level, c.in0, c.in1) {
      ClearInvertsNothing(v, level, c.in0, c.in1, Drops(v, level, c, snapshot));
      ClearKeepsReads(mem, imm, v, history, last, floor, level, c.in0, c.in1, input, snapshot, next);
    }
  }

  lemma UncoveredIsShown(mem: seq<Entry>, imm: seq<Entry>, v: Version, history: set<Entry>, last: nat, floor: nat,
                         level: nat, c: Chosen, snapshot: nat, next: Version)
    requires Stacked(mem, imm, v) && All(mem, imm, v) <= history && WrittenUpTo(history, last)
    requires ReadsAlike(All(mem, imm, v), history, floor) && floor <= snapshot && c.Chosen?
    requires InputsOk(v, level, c.in0, c.in1) && IsInput(c.in0, c.in1, MergeFiles(c.in0 + c.in1))
    requires Entries(next) == Entries(v) - DroppedEntries(v, level, MergeFiles(c.in0 + c.in1), snapshot)
    ensures ShowsUncovered(All(mem, imm, v), v, level, c, snapshot, All(mem, imm, next), history)
  {
    hide Read, Sorted, InputsOk, Entries, DroppedEntries, Uncovers;
    var input := MergeFiles(c.in0 + c.in1);
    var above, dropped := ToSet(mem) + ToSet(imm), DroppedEntries(v, level, input, snapshot);
    assert NewerThan(above, Entries(v));
    DroppedWereStored(v, level, c.in0, c.in1, input, snapshot);
    assert All(mem, imm, next) == All(mem, imm, v) - dropped;
    forall d, y | Uncovers(All(mem, imm, v), v, level, input, snapshot, d, y)
      ensures Read(All(mem, imm, next), y.key.user, snapshot) == Some(y.value) && Read(history, y.key.user, snapshot) == None
    {
      UncoveredIsRead(All(mem, imm, v), v, level, input, snapshot, d, y);
      SameUser(All(mem, imm, v), v, level, input, snapshot, d, y);
    }
  }

  lemma SameUser(all: set<Entry>, v: Version, level: nat, input: seq<Entry>, snapshot: nat, d: Entry, y: Entry)
    requires Uncovers(all, v, level, input, snapshot, d, y)
    ensures d.key.user == y.key.user
  {
  }

  /** When the key check passes, what is dropped changes no read from the smallest snapshot on. */
  lemma ClearKeepsReads(mem: seq<Entry>, imm: seq<Entry>, v: Version, history: set<Entry>, last: nat, floor: nat,
                        level: nat, in0: seq<File>, in1: seq<File>, input: seq<Entry>, snapshot: nat, next: Version)
    requires Layered(v) && Stacked(mem, imm, v) && All(mem, imm, v) <= history && WrittenUpTo(history, last)
    requires ReadsAlike(All(mem, imm, v), history, floor) && floor <= snapshot
    requires InputsOk(v, level, in0, in1) && IsInput(in0, in1, input) && KeysClear(v, level, in0, in1)
    requires Entries(next) == Entries(v) - DroppedEntries(v, level, input, snapshot)
    ensures ReadsAlike(All(mem, imm, next), history, snapshot)
  {
    hide Read, Sorted, InputsOk, Entries, DroppedEntries, Layered, KeysClear, IsInput, SafeDrop;
    var above := ToSet(mem) + ToSet(imm);
    var dropped := DroppedEntries(v, level, input, snapshot);
    var stored := above + Entries(v);
    assert stored == All(mem, imm, v) && NewerThan(above, Entries(v));
    DroppedWereStored(v, level, in0, in1, input, snapshot);
    assert All(mem, imm, next) == stored - dropped;
    DropsAreSafe(v, level, in0, in1, input, snapshot, above);
    forall k, s | snapshot <= s ensures Read(stored - dropped, k, s) == Read(history, k, s) {
      SafeDropPreservesReads(stored, dropped, snapshot, k, s);
    }
  }

  lemma SameEntries(mem: seq<Entry>, imm: seq<Entry>, v: Version, next: Version)
    requires Stacked(mem, imm, v) && Entries(next) == Entries(v)
    ensures Stacked(mem, imm, next) && All(mem, imm, next) == All(mem, imm, v)
  {
  }

  lemma MoveNumbersBelow(v: Version, level: nat, f: File, next: Version, to: nat)
    requires level + 1 < NUM_LEVELS && f in v[level] && NumbersBelow(v, to) && Replaced(v, level, [f], [], [f], next)
    ensures NumbersBelow(next, to)
  {
    forall l, g | 0 <= l < NUM_LEVELS && g in next[l] ensures g.number < to {
      assert BelongsAfter(v, level, [f], [], [f], l, g);
    }
  }

  lemma NoEntries()
    ensures ToSet([]) == {}
  {
  }

  lemma SwitchStep(mem: seq<Entry>, v: Version)
    requires Stacked(mem, [], v)
    ensures Stacked([], mem, v) && All([], mem, v) == All(mem, [], v)
  {
  }

  /** The flushed memtable moves from the stack into the files. */
  lemma FlushStep(mem: seq<Entry>, imm: seq<Entry>, v: Version, next: Version)
    requires Stacked(mem, imm, v) && Entries(next) == Entries(v) + ToSet(imm)
    ensures Stacked(mem, [], next) && All(mem, [], next) == All(mem, imm, v)
  {
  }

  lemma LayeredParts(v: Version)
    ensures Layered(v) <==> Placed(v) && Aged(v)
    ensures Placed(v) ==> NumbersUnique(v) && Separate(v)
  {
  }

  lemma StackedMemTable(mem: seq<Entry>, imm: seq<Entry>, v: Version)
    requires Stacked(mem, imm, v)
    ensures Sorted(imm) && NewerThan(ToSet(imm), Entries(v))
  {
  }

  lemma FlushNumbersBelow(v: Version, level: nat, f: File, next: Version)
    requires NumbersBelow(v, f.number) && Flushed(v, level, f, next)
    ensures NumbersBelow(next, f.number + 1)
  {
  }

  lemma MergedInput(v: Version, level: nat, in0: seq<File>, in1: seq<File>)
    requires VersionOk(v) && InputsOk(v, level, in0, in1)
    ensures IsInput(in0, in1, MergeFiles(in0 + in1)) && Sorted(MergeFiles(in0 + in1))
  {
    OrderedNoRepeats(v[level + 1]);
    OverlapFilterNoRepeats(v[level + 1], Some(LowUser(in0)), Some(HighUser(in0)));
    InputsAreComparable(v, level, in0, in1);
    MergeFilesIsSorted(in0 + in1);
    MergedIsInput(in0, in1);
  }

  lemma LevelsInOrder(v: Version)
    requires VersionOk(v)
    ensures forall l :: 0 <= l < NUM_LEVELS ==> NoRepeats(v[l])
    ensures forall l :: 1 <= l < NUM_LEVELS ==> Disjoint(v[l])
  {
    forall l | 0 <= l < NUM_LEVELS ensures NoRepeats(v[l]) {
      OrderedNoRepeats(v[l]);
    }
  }

  lemma MergedIsInput(in0: seq<File>, in1: seq<File>)
    requires Sorted(MergeFiles(in0 + in1))
    ensures IsInput(in0, in1, MergeFiles(in0 + in1))
  {
    forall e ensures e in FileEntries(in0 + in1) <==> e in FileEntries(in0) + FileEntries(in1) {
    }
  }

  lemma FreshOutputs(v: Version, outputs: seq<File>, from: nat, to: nat)
    requires NumbersBelow(v, from) && NumbersFrom(outputs, from, to)
    ensures FreshNumbers(v, outputs)
  {
  }

  lemma NumbersStayBelow(v: Version, level: nat, in0: seq<File>, in1: seq<File>, outputs: seq<File>, next: Version,
                         from: nat, to: nat)
    requires NumbersBelow(v, from) && NumbersFrom(outputs, from, to) && from <= to
    requires Replaced(v, level, in0, in1, outputs, next)
    ensures NumbersBelow(next, to)
  {
    forall l, f | 0 <= l < NUM_LEVELS && f in next[l] ensures f.number < to {
      assert BelongsAfter(v, level, in0, in1, outputs, l, f);
    }
  }
}
