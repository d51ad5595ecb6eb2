/** The MANIFEST as a file: a version set appends an encoded edit for every version it installs, and after a
    crash reads back the version, the numbers and the compaction pointers of the last edit that survived. */
module ManifestFile {
  import opened Bytes
  import opened DbFormat
  import opened Coding
  import opened Files
  import opened InternalKeys
  import opened LogFormat
  import opened VersionBuilder
  import opened Manifest
  import EditCodec
  import Log
  import LogFragments

  /** What a database is opened with: the name of its comparator, the byte strings of user keys, and every
      table file that was ever written, by number. */
  datatype Env = Env(sum: Checksum, comparator: Slice, name: UserKey -> Slice, tables: map<nat, File>)

  // ------------------------------------------------------------- table files as metadata

  function KeyBytes(env: Env, k: InternalKey): Slice { AppendInternalKey(env.name(k.user), k.sequence, k.typ) }

  function MetaOf(env: Env, f: File): EditCodec.Meta {
    EditCodec.Meta(f.number, f.size, KeyBytes(env, Smallest(f)), KeyBytes(env, Largest(f)))
  }

  function ReadKey(k: Slice): InternalKey {
    InternalKey(Rank(UserKeyOf(k)), TagOf(k) / 256, if TagOf(k) % 256 == 1 then Value else Deletion)
  }

  /** The metadata is that of the file. */
  predicate Matches(m: EditCodec.Meta, f: File) {
    m.number == f.number && m.size == f.size && ReadKey(m.smallest) == Smallest(f) && ReadKey(m.largest) == Largest(f)
  }

  /** The table file that metadata speaks of. */
  function Resolve(env: Env, m: EditCodec.Meta): (f: Option<File>)
    ensures f.Some? ==> Stored(env, f.value) && Matches(m, f.value)
  {
    if m.number in env.tables && Matches(m, env.tables[m.number]) then Some(env.tables[m.number]) else None
  }

  predicate Stored(env: Env, f: File) { f.number in env.tables && env.tables[f.number] == f }

  predicate KeyOk(env: Env, k: InternalKey) {
    Rank(env.name(k.user)) == k.user && k.sequence <= MAX_SEQUENCE_NUMBER && |KeyBytes(env, k)| < TWO32
  }

  /** Names and numbers fit the format, and keys are named by their byte strings. */
  ghost predicate EnvOk(env: Env) {
    && |env.comparator| < TWO32
    && forall n :: n in env.tables ==>
      var f := env.tables[n]; f.number == n < TWO64 && f.size < TWO64 && KeyOk(env, Smallest(f)) && KeyOk(env, Largest(f))
  }

  lemma KeyReadsBack(env: Env, k: InternalKey)
    requires KeyOk(env, k)
    ensures ReadKey(KeyBytes(env, k)) == k
  {
    hide Rank, AppendInternalKey, UserKeyOf, TagOf;
    AppendedKey(env.name(k.user), k.sequence, k.typ);
  }

  /** Metadata finds its file again. */
  lemma MetaResolves(env: Env, f: File)
    requires EnvOk(env) && Stored(env, f)
    ensures Resolve(env, MetaOf(env, f)) == Some(f)
  {
    hide ReadKey, KeyBytes;
    KeyReadsBack(env, Smallest(f));
    KeyReadsBack(env, Largest(f));
  }

  // ----------------------------------------------------------------- what a record says

  predicate Known(env: Env, e: EditCodec.Edit) {
    forall i :: 0 <= i < |e.newFiles| ==> Resolve(env, e.newFiles[i].1).Some?
  }

  function Resolved(env: Env, e: EditCodec.Edit): seq<(nat, File)>
    requires Known(env, e)
  {
    seq(|e.newFiles|, i requires 0 <= i < |e.newFiles| => (e.newFiles[i].0, Resolve(env, e.newFiles[i].1).value))
  }

  /** The file changes of a decoded edit. */
  function ChangesOf(env: Env, e: EditCodec.Edit): VersionEdit
    requires Known(env, e)
  {
    VersionEdit(e.deleted, Resolved(env, e))
  }

  /** The record decodes, names no other comparator, and speaks of table files that were written. */
  predicate Good(env: Env, record: Slice) {
    var e := EditCodec.EditOf(record);
    EditCodec.DecodeRecs(record).1 == None && (e.comparator.Some? ==> e.comparator.value == env.comparator) && Known(env, e)
  }

  ghost predicate AllGood(env: Env, records: seq<Slice>) { forall i :: 0 <= i < |records| ==> Good(env, records[i]) }

  ghost function AllChanges(env: Env, records: seq<Slice>): (r: seq<VersionEdit>)
    requires AllGood(env, records)
    ensures |r| == |records|
  {
    seq(|records|, i requires 0 <= i < |records| => ChangesOf(env, EditCodec.EditOf(records[i])))
  }

  datatype Counters = Counters(logNumber: Option<nat>, prevLogNumber: Option<nat>, nextFile: Option<nat>, lastSequence: Option<nat>)

  const NO_COUNTERS: Counters := Counters(None, None, None, None)

  function Later(was: Option<nat>, now: Option<nat>): Option<nat> { if now.Some? then now else was }

  function Count(c: Counters, e: EditCodec.Edit): Counters {
    Counters(Later(c.logNumber, e.logNumber), Later(c.prevLogNumber, e.prevLogNumber), Later(c.nextFile, e.nextFileNumber),
             Later(c.lastSequence, e.lastSequence))
  }

  function CountAll(records: seq<Slice>): Counters {
    if records == [] then NO_COUNTERS
    else Count(CountAll(records[..|records| - 1]), EditCodec.EditOf(records[|records| - 1]))
  }

  /** What recovery needs; a missing number of the previous log is zero. */
  predicate Complete(c: Counters) { c.nextFile.Some? && c.logNumber.Some? && c.lastSequence.Some? }

  const NO_POINTERS: seq<Slice> := [[], [], [], [], [], [], []]

  /** Compaction pointers after some updates; the last one of a level counts. */
  function Point(ps: seq<Slice>, updates: seq<(nat, Slice)>): (r: seq<Slice>)
    ensures |r| == |ps|
  {
    if updates == [] then ps
    else
      var r := Point(ps, updates[..|updates| - 1]);
      var last := updates[|updates| - 1];
      if last.0 < |r| then r[last.0 := last.1] else r
  }

  function PointAll(records: seq<Slice>): (r: seq<Slice>)
    ensures |r| == NUM_LEVELS
  {
    if records == [] then NO_POINTERS
    else Point(PointAll(records[..|records| - 1]), EditCodec.EditOf(records[|records| - 1]).compactPointers)
  }

  ghost predicate PointersFit(ps: seq<Slice>) { forall l :: 0 <= l < |ps| ==> |ps[l]| < TWO32 }

  ghost predicate CountersFit(c: Counters) {
    && (c.logNumber.Some? ==> c.logNumber.value < TWO64) && (c.prevLogNumber.Some? ==> c.prevLogNumber.value < TWO64)
    && (c.nextFile.Some? ==> c.nextFile.value < TWO64) && (c.lastSequence.Some? ==> c.lastSequence.value < TWO64)
  }

  /** What a version set keeps of a version in the MANIFEST. */
  datatype VersionState = VersionState(version: Version, logNumber: nat, prevLogNumber: nat, nextFile: nat, lastSequence: nat,
                                       pointers: seq<Slice>)

  /** Replaying the records on the empty version gives the files of a version. */
  ghost predicate Replays(env: Env, records: seq<Slice>, v: Version) {
    && AllGood(env, records) && OrderedVersion(v)
    && forall l :: 0 <= l < NUM_LEVELS ==> FileSet(v[l]) == Kept({}, Fold(AllChanges(env, records), l))
  }

  ghost predicate Says(env: Env, records: seq<Slice>, st: VersionState) {
    && Replays(env, records, st.version) && PointAll(records) == st.pointers
    && CountAll(records).logNumber == Some(st.logNumber) && CountAll(records).nextFile == Some(st.nextFile)
    && CountAll(records).lastSequence == Some(st.lastSequence)
    && st.prevLogNumber == if CountAll(records).prevLogNumber.Some? then CountAll(records).prevLogNumber.value else 0
  }

  /** Records determine the state, the lists of files included. */
  lemma SaysOneThing(env: Env, records: seq<Slice>, a: VersionState, b: VersionState)
    requires Says(env, records, a) && Says(env, records, b)
    ensures a == b
  {
    hide Fold, Kept, CountAll, PointAll, Ordered;
    forall l | 0 <= l < NUM_LEVELS ensures a.version[l] == b.version[l] {
      SameFilesSameList(a.version[l], b.version[l]);
    }
    assert a.version == b.version;
  }

  // ---------------------------------------------------------------------- one record more

  lemma OneMoreGood(env: Env, records: seq<Slice>, record: Slice)
    requires AllGood(env, records) && Good(env, record)
    ensures AllGood(env, records + [record])
    ensures AllChanges(env, records + [record]) == AllChanges(env, records) + [ChangesOf(env, EditCodec.EditOf(record))]
  {
    hide Good, ChangesOf;
    assert forall i :: 0 <= i < |records| ==> Good(env, (records + [record])[i]);
  }

  lemma OneMoreCount(records: seq<Slice>, record: Slice)
    ensures CountAll(records + [record]) == Count(CountAll(records), EditCodec.EditOf(record))
    ensures PointAll(records + [record]) == Point(PointAll(records), EditCodec.EditOf(record).compactPointers)
  {
    assert (records + [record])[..|records|] == records;
  }

  lemma AddedAreStored(env: Env, records: seq<Slice>, l: nat, f: File)
    requires AllGood(env, records) && AddedBy(AllChanges(env, records), l, f)
    ensures Stored(env, f)
  {
    hide EditCodec.EditOf, EditCodec.DecodeRecs, Known, ChangesOf, Stored;
    var i :| 0 <= i < |records| && (l, f) in AllChanges(env, records)[i].added;
    assert Good(env, records[i]);
    ResolvedAreStored(env, EditCodec.EditOf(records[i]));
  }

  lemma ResolvedAreStored(env: Env, e: EditCodec.Edit)
    requires Known(env, e)
    ensures forall a :: a in ChangesOf(env, e).added ==> Stored(env, a.1)
  {
    hide Resolve, Stored;
    forall a | a in Resolved(env, e) ensures Stored(env, a.1) {
      var i :| 0 <= i < |e.newFiles| && Resolved(env, e)[i] == a;
      assert Resolve(env, e.newFiles[i].1).Some?;
    }
  }

  lemma ReplaysMore(env: Env, records: seq<Slice>, v: Version, record: Slice, next: Version)
    requires Replays(env, records, v) && Good(env, record) && OrderedVersion(next)
    requires Known(env, EditCodec.EditOf(record)) && Installed(v, ChangesOf(env, EditCodec.EditOf(record)), next)
    ensures Replays(env, records + [record], next)
  {
    hide Good, ChangesOf, Kept, Fold, Installed, Ordered, AllChanges;
    OneMoreGood(env, records, record);
    var e := ChangesOf(env, EditCodec.EditOf(record));
    forall l | 0 <= l < NUM_LEVELS ensures FileSet(next[l]) == Kept({}, Fold(AllChanges(env, records + [record]), l)) {
      forall f | AddedBy(AllChanges(env, records + [record]), l, f) ensures Stored(env, f) {
        AddedAreStored(env, records + [record], l, f);
      }
      ReplayReachesNext({}, AllChanges(env, records), v, e, next, l);
    }
  }

  // --------------------------------------------------------------------- writing records

  /** What a caller of LogAndApply fills in. */
  datatype Change = Change(logNumber: Option<nat>, prevLogNumber: Option<nat>, pointers: seq<(nat, Slice)>, files: VersionEdit)

  ghost predicate ChangeOk(env: Env, c: Change) {
    && EditOk(c.files) && (forall d :: d in c.files.deleted ==> d.1 < TWO64) && (forall a :: a in c.files.added ==> Stored(env, a.1))
    && forall p :: p in c.pointers ==> p.0 < NUM_LEVELS && |p.1| < TWO32
  }

  function Metas(env: Env, added: seq<(nat, File)>): (r: seq<(nat, EditCodec.Meta)>)
    ensures |r| == |added|
  {
    seq(|added|, i requires 0 <= i < |added| => (added[i].0, MetaOf(env, added[i].1)))
  }

  lemma MetasResolve(env: Env, e: EditCodec.Edit, added: seq<(nat, File)>)
    requires EnvOk(env) && e.newFiles == Metas(env, added) && forall a :: a in added ==> Stored(env, a.1)
    ensures Known(env, e) && Resolved(env, e) == added
  {
    hide Resolve, MetaOf, Stored, EnvOk;
    forall i | 0 <= i < |added| ensures Resolve(env, e.newFiles[i].1) == Some(added[i].1) {
      assert added[i] in added;
      MetaResolves(env, added[i].1);
    }
  }

  ghost predicate NumbersFit(log: nat, prev: nat, nextFile: nat, lastSequence: nat) {
    log < TWO64 && prev < TWO64 && nextFile < TWO64 && lastSequence < TWO64
  }

  /** The edit that LogAndApply writes. */
  function EditFor(env: Env, c: Change, log: nat, prev: nat, nextFile: nat, lastSequence: nat): EditCodec.Edit {
    EditCodec.Edit(None, Some(log), Some(prev), Some(nextFile), Some(lastSequence), c.pointers, c.files.deleted, Metas(env, c.files.added))
  }

  function SnapshotEdit(env: Env, pointers: seq<(nat, Slice)>, files: VersionEdit): EditCodec.Edit {
    EditCodec.Edit(Some(env.comparator), None, None, None, None, pointers, {}, Metas(env, files.added))
  }

  lemma MetasFit(env: Env, added: seq<(nat, File)>)
    requires EnvOk(env) && forall a :: a in added ==> a.0 < NUM_LEVELS && Stored(env, a.1)
    ensures forall i :: 0 <= i < |added| ==> EditCodec.RecOk(EditCodec.NewFile(added[i].0, Metas(env, added)[i].1))
  {
    hide KeyBytes;
    forall i | 0 <= i < |added| ensures EditCodec.RecOk(EditCodec.NewFile(added[i].0, Metas(env, added)[i].1)) {
      assert added[i] in added && added[i].1.number in env.tables;
    }
  }

  lemma EditForFits(env: Env, c: Change, log: nat, prev: nat, nextFile: nat, lastSequence: nat)
    requires EnvOk(env) && ChangeOk(env, c) && NumbersFit(log, prev, nextFile, lastSequence)
    ensures EditCodec.EditOk(EditFor(env, c, log, prev, nextFile, lastSequence))
  {
    hide EnvOk, Stored, MetaOf;
    MetasFit(env, c.files.added);
  }

  method EncodeEdit(e: EditCodec.Edit) returns (record: Slice)
    requires EditCodec.EditOk(e)
    ensures EditCodec.DecodeRecs(record).1 == None && EditCodec.EditOf(record) == e
  {
    hide EditCodec.EditOk, EditCodec.DecodeRecs, EditCodec.EditOf, EditCodec.RecsOf, EditCodec.EncodeRecs;
    var edit := new EditCodec.VersionEdit();
    edit.comparator, edit.logNumber, edit.prevLogNumber := e.comparator, e.logNumber, e.prevLogNumber;
    edit.nextFileNumber, edit.lastSequence, edit.compactPointers := e.nextFileNumber, e.lastSequence, e.compactPointers;
    edit.deletedFiles, edit.newFiles := e.deleted, e.newFiles;
    ghost var order;
    record, order := edit.EncodeTo([]);
    assert record == EditCodec.EncodeRecs(EditCodec.RecsOf(e, order));
    EditCodec.EncodedIsEdit(e, order);
  }

  // ----------------------------------------------------------------- compaction pointers

  /** Two lists under the same updates agree where they were updated. */
  lemma {:induction false} PointAgrees(ps: seq<Slice>, qs: seq<Slice>, updates: seq<(nat, Slice)>, l: nat)
    requires |ps| == |qs| && l < |ps|
    ensures Point(ps, updates)[l] == Point(qs, updates)[l] || (Point(ps, updates)[l] == ps[l] && Point(qs, updates)[l] == qs[l])
    decreases |updates|
  {
    if updates != [] {
      PointAgrees(ps, qs, updates[..|updates| - 1], l);
    }
  }

  /** Taking the updates in once more changes nothing. */
  lemma PointAgain(ps: seq<Slice>, updates: seq<(nat, Slice)>)
    ensures Point(Point(ps, updates), updates) == Point(ps, updates)
  {
    hide Point;
    var qs := Point(ps, updates);
    forall l | 0 <= l < |ps| ensures Point(qs, updates)[l] == qs[l] {
      PointAgrees(ps, qs, updates, l);
    }
  }

  lemma OnePointer(ps: seq<Slice>, updates: seq<(nat, Slice)>, level: nat, key: Slice)
    requires level < |ps|
    ensures Point(ps, updates + [(level, key)]) == Point(ps, updates)[level := key]
  {
    assert (updates + [(level, key)])[..|updates|] == updates;
  }

  // -------------------------------------------------------------------- the version set

  ghost predicate AllStored(env: Env, v: Version) {
    forall l, f :: 0 <= l < NUM_LEVELS && f in v[l] ==> Stored(env, f)
  }

  /** The first record names the comparator. */
  ghost predicate NamesComparator(env: Env, records: seq<Slice>) {
    records != [] && EditCodec.EditOf(records[0]).comparator == Some(env.comparator)
  }

  /** The MANIFEST starts with a snapshot, which has no numbers; with every record after it a state was saved. */
  ghost predicate Written(env: Env, records: seq<Slice>, saved: seq<VersionState>) {
    && |records| == |saved| + 1 && CountAll(records[..1]).nextFile.None? && NamesComparator(env, records)
    && forall i :: 0 <= i < |saved| ==> Says(env, records[..i + 2], saved[i])
  }

  lemma EditSaid(env: Env, records: seq<Slice>, v: Version, record: Slice, c: Change, next: Version, log: nat, prev: nat,
                 nextFile: nat, lastSequence: nat)
    requires EnvOk(env) && ChangeOk(env, c) && Replays(env, records, v)
    requires EditCodec.DecodeRecs(record).1 == None
    requires EditCodec.EditOf(record) == EditFor(env, c, log, prev, nextFile, lastSequence)
    requires Installed(v, c.files, next) && OrderedVersion(next)
    ensures Says(env, records + [record], VersionState(next, log, prev, nextFile, lastSequence, Point(PointAll(records), c.pointers)))
  {
    hide EnvOk, Installed, OrderedVersion, EditCodec.EditOf, EditCodec.DecodeRecs, Stored, Replays, Point, Known, Resolved, Metas;
    var e := EditCodec.EditOf(record);
    MetasResolve(env, e, c.files.added);
    OneMoreCount(records, record);
    ReplaysMore(env, records, v, record, next);
  }

  lemma SnapshotSaid(env: Env, v: Version, record: Slice, files: VersionEdit, updates: seq<(nat, Slice)>)
    requires EnvOk(env) && OrderedVersion(v) && AllStored(env, v) && IsSnapshot(files, v)
    requires EditCodec.DecodeRecs(record).1 == None && EditCodec.EditOf(record) == SnapshotEdit(env, updates, files)
    ensures Replays(env, [record], v) && CountAll([record]).nextFile.None? && PointAll([record]) == Point(NO_POINTERS, updates)
    ensures NamesComparator(env, [record])
  {
    hide EnvOk, EditCodec.EditOf, EditCodec.DecodeRecs, Stored, Point, Known, Resolved, Metas, Replays, Installed, OrderedVersion;
    var e := EditCodec.EditOf(record);
    forall a | a in files.added ensures Stored(env, a.1) {
      assert (a.0, a.1) in files.added;
    }
    MetasResolve(env, e, files.added);
    SnapshotInstalls(files, v);
    EmptyReplays(env);
    ReplaysMore(env, [], EMPTY_VERSION, record, v);
    OneMoreCount([], record);
    assert [] + [record] == [record];
  }

  lemma EmptyReplays(env: Env)
    ensures Replays(env, [], EMPTY_VERSION)
  {
    assert forall l :: 0 <= l < NUM_LEVELS ==> EMPTY_VERSION[l] == [];
  }

  lemma SnapshotFits(env: Env, v: Version, files: VersionEdit, updates: seq<(nat, Slice)>)
    requires EnvOk(env) && AllStored(env, v) && IsSnapshot(files, v)
    requires forall p :: p in updates ==> p.0 < NUM_LEVELS && |p.1| < TWO32
    ensures EditCodec.EditOk(SnapshotEdit(env, updates, files))
  {
    hide Stored, MetaOf;
    forall a | a in files.added ensures a.0 < NUM_LEVELS && Stored(env, a.1) {
      assert (a.0, a.1) in files.added;
    }
    MetasFit(env, files.added);
  }

  lemma StoredAfter(env: Env, v: Version, c: Change, next: Version)
    requires AllStored(env, v) && ChangeOk(env, c) && Installed(v, c.files, next) && AddedOnce(v, c.files)
    ensures AllStored(env, next)
  {
    hide Installed, AddedOnce, Stored;
    forall l, f | 0 <= l < NUM_LEVELS && f in next[l] ensures Stored(env, f) {
      InstalledFiles(v, c.files, next, l, f);
    }
  }

  lemma OneMoreSaved(env: Env, records: seq<Slice>, saved: seq<VersionState>, record: Slice, st: VersionState)
    requires Says(env, records + [record], st) && Appendable(env, records, saved)
    ensures Written(env, records + [record], saved + [st])
  {
    hide Says, CountAll;
    var all := records + [record];
    assert all[..1] == records[..1];
    forall i | 0 <= i < |saved + [st]| ensures Says(env, all[..i + 2], (saved + [st])[i]) {
      if i < |saved| {
        assert all[..i + 2] == records[..i + 2];
      } else {
        assert all[..i + 2] == all;
      }
    }
  }

  /** The updates that set all pointers. */
  method PointerUpdates(pointers: seq<Slice>) returns (updates: seq<(nat, Slice)>)
    requires |pointers| == NUM_LEVELS && PointersFit(pointers)
    ensures Point(NO_POINTERS, updates) == pointers
    ensures forall p :: p in updates ==> p.0 < NUM_LEVELS && |p.1| < TWO32
  {
    hide PointedUpTo, PointersFit;
    updates := [];
    NoUpdates(pointers);
    for level := 0 to NUM_LEVELS
      invariant PointedUpTo(pointers, updates, level)
    {
      NextLevel(pointers, updates, level);
      if pointers[level] != [] {
        updates := updates + [(level, pointers[level])];
      }
    }
    AllPointed(pointers, updates);
  }

  /** The updates set the pointers of the levels so far. */
  ghost predicate PointedUpTo(pointers: seq<Slice>, updates: seq<(nat, Slice)>, level: nat)
    requires level <= NUM_LEVELS == |pointers|
  {
    && Point(NO_POINTERS, updates) == pointers[..level] + NO_POINTERS[level..]
    && forall p :: p in updates ==> p.0 < NUM_LEVELS && |p.1| < TWO32
  }

  lemma NextLevel(pointers: seq<Slice>, updates: seq<(nat, Slice)>, level: nat)
    requires level < NUM_LEVELS == |pointers| && PointersFit(pointers) && PointedUpTo(pointers, updates, level)
    ensures PointedUpTo(pointers, if pointers[level] == [] then updates else updates + [(level, pointers[level])], level + 1)
  {
    hide Point;
    var before, after := pointers[..level] + NO_POINTERS[level..], pointers[..level + 1] + NO_POINTERS[level + 1..];
    assert pointers[level] in pointers;
    assert before[level] == NO_POINTERS[level] == [] && before[level := pointers[level]] == after;
    if pointers[level] != [] {
      OnePointer(NO_POINTERS, updates, level, pointers[level]);
    }
  }

  lemma AllPointed(pointers: seq<Slice>, updates: seq<(nat, Slice)>)
    requires |pointers| == NUM_LEVELS && PointedUpTo(pointers, updates, NUM_LEVELS)
    ensures Point(NO_POINTERS, updates) == pointers
    ensures forall p :: p in updates ==> p.0 < NUM_LEVELS && |p.1| < TWO32
  {
    hide Point;
    assert pointers[..NUM_LEVELS] + NO_POINTERS[NUM_LEVELS..] == pointers;
  }

  lemma EditLogged(env: Env, records: seq<Slice>, saved: seq<VersionState>, v: Version, record: Slice, c: Change, st: VersionState)
    requires EnvOk(env) && ChangeOk(env, c) && Replays(env, records, v) && Appendable(env, records, saved)
    requires EditCodec.DecodeRecs(record).1 == None
    requires EditCodec.EditOf(record) == EditFor(env, c, st.logNumber, st.prevLogNumber, st.nextFile, st.lastSequence)
    requires Installed(v, c.files, st.version) && OrderedVersion(st.version) && Point(PointAll(records), c.pointers) == st.pointers
    ensures Written(env, records + [record], saved + [st])
    ensures LayoutAll(env.sum, 0, records + [record])
      == LayoutAll(env.sum, 0, records) + Layout(env.sum, |LayoutAll(env.sum, 0, records)|, record, true)
  {
    hide EnvOk, ChangeOk, Replays, Appendable, EditCodec.DecodeRecs, EditCodec.EditOf, EditFor, Installed, OrderedVersion, Point, Layout,
      LayoutAll, Written, Says;
    EditSaid(env, records, v, record, c, st.version, st.logNumber, st.prevLogNumber, st.nextFile, st.lastSequence);
    OneMoreSaved(env, records, saved, record, st);
    LayoutAllMore(env.sum, 0, records, record);
  }

  class VersionSet {
    const env: Env
    var current: Version
    var logNumber: nat
    var prevLogNumber: nat
    var nextFile: nat
    var lastSequence: nat
    var pointers: seq<Slice>
    var descriptor: Log.Writer?
    ghost var records: seq<Slice>
    ghost var saved: seq<VersionState>

    /** What recovery of the MANIFEST as it is would give, up to the file number. */
    ghost predicate UpToDate() reads this {
      && saved != [] && saved[|saved| - 1].version == current && saved[|saved| - 1].pointers == pointers
      && saved[|saved| - 1].logNumber == logNumber && saved[|saved| - 1].prevLogNumber == prevLogNumber
    }

    ghost predicate Valid() reads this, descriptor {
      && EnvOk(env) && OrderedVersion(current) && AllStored(env, current) && |pointers| == NUM_LEVELS && PointersFit(pointers)
      && (descriptor == null ==> records == [] && saved == [])
      && (descriptor != null ==>
            descriptor.Valid() && descriptor.sum == env.sum && descriptor.dest == LayoutAll(env.sum, 0, records)
            && Written(env, records, saved) && UpToDate())
    }

    constructor (env: Env)
      requires EnvOk(env)
      ensures Valid() && this.env == env && current == EMPTY_VERSION && pointers == NO_POINTERS && descriptor == null
      ensures nextFile == 2 && lastSequence == logNumber == prevLogNumber == 0
    {
      this.env := env;
      current, pointers, descriptor := EMPTY_VERSION, NO_POINTERS, null;
      nextFile, lastSequence, logNumber, prevLogNumber := 2, 0, 0, 0;
      records, saved := [], [];
      new;
      hide EnvOk, Stored;
      assert forall l :: 0 <= l < NUM_LEVELS ==> EMPTY_VERSION[l] == [];
    }

    /** The snapshot record that a new MANIFEST starts with. */
    method WriteSnapshot()
      requires EnvOk(env) && OrderedVersion(current) && AllStored(env, current) && |pointers| == NUM_LEVELS
      requires PointersFit(pointers)
      requires descriptor != null && descriptor.Valid() && descriptor.sum == env.sum && descriptor.dest == []
      modifies this`records, descriptor
      ensures |records| == 1 && descriptor.Valid() && descriptor.dest == LayoutAll(env.sum, 0, records)
      ensures Replays(env, records, current) && PointAll(records) == pointers && CountAll(records).nextFile.None?
      ensures NamesComparator(env, records)
    {
      hide EnvOk, OrderedVersion, AllStored, IsSnapshot, Replays, PointAll, CountAll, Layout, Point, EditCodec.EditOk, EditCodec.EditOf,
        EditCodec.DecodeRecs, SnapshotEdit;
      var updates := PointerUpdates(pointers);
      var files := Manifest.WriteSnapshot(current);
      SnapshotFits(env, current, files, updates);
      var record := EncodeEdit(SnapshotEdit(env, updates, files));
      SnapshotSaid(env, current, record, files, updates);
      descriptor.AddRecord(record);
      records := [record];
      OneRecord(env.sum, record);
    }

    /** Installs the version that an edit makes of the current one, once its record is in the MANIFEST. */
    method LogAndApply(c: Change)
      requires Valid() && ChangeOk(env, c) && AddedOnce(current, c.files)
      requires c.logNumber.Some? ==> logNumber <= c.logNumber.value < nextFile
      requires NumbersFit(if c.logNumber.Some? then c.logNumber.value else logNumber,
                          if c.prevLogNumber.Some? then c.prevLogNumber.value else prevLogNumber, nextFile, lastSequence)
      modifies this`current, this`logNumber, this`prevLogNumber, this`pointers, this`descriptor, this`records, this`saved, descriptor
      ensures Valid() && descriptor != null && if old(descriptor) == null then fresh(descriptor) else descriptor == old(descriptor)
      ensures Installed(old(current), c.files, current) && pointers == Point(old(pointers), c.pointers)
      ensures logNumber == if c.logNumber.Some? then c.logNumber.value else old(logNumber)
      ensures prevLogNumber == if c.prevLogNumber.Some? then c.prevLogNumber.value else old(prevLogNumber)
      ensures saved == old(saved) + [VersionState(current, logNumber, prevLogNumber, nextFile, lastSequence, pointers)]
      ensures old(records) <= records
    {
      hide EnvOk, ChangeOk, OrderedVersion, AllStored, Replays, Says, Written, Installed, AddedOnce, PointAll, CountAll, Layout, Point,
        EditCodec.EditOk, EditCodec.EditOf, EditCodec.DecodeRecs, EditFor, Appendable, LayoutAll,
        PointersFit, NumbersFit, Recoverable, Log.Writer.Valid;
      var log := if c.logNumber.Some? then c.logNumber.value else logNumber;
      var prev := if c.prevLogNumber.Some? then c.prevLogNumber.value else prevLogNumber;
      var v := Manifest.LogAndApply(current, c.files);
      PointAgain(pointers, c.pointers);
      ChangeFits(env, pointers, c);
      StoredAfter(env, current, c, v);
      EditForFits(env, c, log, prev, nextFile, lastSequence);
      StartManifest(c);
      WriteEdit(c, VersionState(v, log, prev, nextFile, lastSequence, pointers));
      current, logNumber, prevLogNumber := v, log, prev;
    }

    /** The record of an edit, after which the MANIFEST stands for the state given. */
    method WriteEdit(c: Change, st: VersionState)
      requires EnvOk(env) && ChangeOk(env, c) && Replays(env, records, current) && Appendable(env, records, saved)
      requires descriptor != null && descriptor.Valid() && descriptor.sum == env.sum && descriptor.dest == LayoutAll(env.sum, 0, records)
      requires EditCodec.EditOk(EditFor(env, c, st.logNumber, st.prevLogNumber, st.nextFile, st.lastSequence))
      requires Installed(current, c.files, st.version) && OrderedVersion(st.version) && Point(PointAll(records), c.pointers) == st.pointers
      modifies this`records, this`saved, descriptor
      ensures old(records) <= records && saved == old(saved) + [st] && Written(env, records, saved)
      ensures descriptor.Valid() && descriptor.dest == LayoutAll(env.sum, 0, records)
    {
      hide EnvOk, ChangeOk, OrderedVersion, Replays, Says, Written, Installed, PointAll, Layout, Point, EditCodec.EditOk, EditCodec.EditOf,
        EditCodec.DecodeRecs, EditFor, Appendable, LayoutAll, Log.Writer.Valid;
      var record := EncodeEdit(EditFor(env, c, st.logNumber, st.prevLogNumber, st.nextFile, st.lastSequence));
      EditLogged(env, records, saved, current, record, c, st);
      descriptor.AddRecord(record);
      records, saved := records + [record], saved + [st];
    }

    /** Reads a MANIFEST back into a new version set. */
    method Recover(file: Slice) returns (ok: bool)
      requires Valid() && current == EMPTY_VERSION && pointers == NO_POINTERS && descriptor == null
      modifies this`current, this`logNumber, this`prevLogNumber, this`nextFile, this`lastSequence, this`pointers
      ensures Valid() && (ok <==> Recoverable(env, ReadAll(env.sum, file, 0).0, ReadAll(env.sum, file, 0).1))
      ensures ok ==> nextFile > 0 && NumbersFit(logNumber, prevLogNumber, nextFile - 1, lastSequence)
      ensures ok ==>
        Says(env, ReadAll(env.sum, file, 0).0, VersionState(current, logNumber, prevLogNumber, nextFile - 1, lastSequence, pointers))
    {
      hide EnvOk, Stored, ReadAll, Taken, AllGood, PointersFit, CountersFit, AllStored, CountAll, PointAll, Replays;
      var builder := new Builder(current);
      NothingTaken(env, builder);
      var numbers, ps;
      ok, numbers, ps := ReadRecords(env, file, builder);
      if !ok {
        return;
      }
      ghost var all := ReadAll(env.sum, file, 0).0;
      WhatIsTaken(env, all, numbers, ps, builder);
      if !Complete(numbers) {
        return false;
      }
      var v := Rebuild(env, builder, numbers, ps, all);
      Replaying(env, all, v);
      current, pointers, lastSequence, logNumber := v, ps, numbers.lastSequence.value, numbers.logNumber.value;
      prevLogNumber := if numbers.prevLogNumber.Some? then numbers.prevLogNumber.value else 0;
      nextFile := numbers.nextFile.value + 1;
    }

    /** Sets the pointers, and opens a MANIFEST with a snapshot if there is none. */
    method StartManifest(c: Change)
      requires Valid() && ChangeOk(env, c)
      requires Point(Point(pointers, c.pointers), c.pointers) == Point(pointers, c.pointers)
      requires PointersFit(Point(pointers, c.pointers))
      modifies this`pointers, this`descriptor, this`records, descriptor
      ensures descriptor != null && if old(descriptor) == null then fresh(descriptor) else descriptor == old(descriptor)
      ensures descriptor.Valid() && descriptor.sum == env.sum && descriptor.dest == LayoutAll(env.sum, 0, records)
      ensures pointers == Point(old(pointers), c.pointers) && Point(PointAll(records), c.pointers) == pointers
      ensures Replays(env, records, current) && Appendable(env, records, saved) && old(records) <= records
    {
      hide EnvOk, ChangeOk, OrderedVersion, AllStored, Replays, Written, PointAll, CountAll, Layout, Point;
      if descriptor != null {
        SavedReplays(env, records, saved);
        pointers := Point(pointers, c.pointers);
      } else {
        pointers := Point(pointers, c.pointers);
        descriptor := new Log.Writer(env.sum, []);
        WriteSnapshot();
        FirstOf(records);
      }
    }
  }

  // -------------------------------------------------------------------------- recovery

  /** Recovery accepts a file if and only if nothing of it is corrupted, every record is understood, and the
      numbers are there. */
  ghost predicate Recoverable(env: Env, records: seq<Slice>, reports: seq<Report>) {
    reports == [] && AllGood(env, records) && Complete(CountAll(records))
  }

  /** What the records of a file say, as far as reading has come. */
  ghost predicate Taken(env: Env, seen: seq<Slice>, numbers: Counters, pointers: seq<Slice>, builder: Builder)
    reads builder
  {
    && AllGood(env, seen) && numbers == CountAll(seen) && pointers == PointAll(seen) && CountersFit(numbers) && PointersFit(pointers)
    && builder.Valid() && builder.base == EMPTY_VERSION
    && forall l :: 0 <= l < NUM_LEVELS ==> builder.State(l) == Fold(AllChanges(env, seen), l)
  }

  /** The read loop of Recover: stops at the first report and at the first record that is not good. */
  method ReadRecords(env: Env, file: Slice, builder: Builder) returns (ok: bool, numbers: Counters, ps: seq<Slice>)
    requires Taken(env, [], NO_COUNTERS, NO_POINTERS, builder)
    modifies builder
    ensures ok <==> ReadAll(env.sum, file, 0).1 == [] && AllGood(env, ReadAll(env.sum, file, 0).0)
    ensures ok ==> Taken(env, ReadAll(env.sum, file, 0).0, numbers, ps, builder)
  {
    hide NextLogical, ReadAll, Taken, Good, AllGood;
    var reader := new Log.Reader(env.sum, file);
    numbers, ps := NO_COUNTERS, NO_POINTERS;
    ghost var (all, reports) := ReadAll(env.sum, file, 0);
    ghost var seen: seq<Slice> := [];
    while true
      invariant reader.Valid() && reader.file == file && reader.sum == env.sum && reader.reports == []
      invariant Taken(env, seen, numbers, ps, builder)
      invariant all == seen + ReadAll(env.sum, file, reader.Position()).0 && reports == ReadAll(env.sum, file, reader.Position()).1
      decreases |file| - reader.Position()
    {
      Log.ReadAllStep(env.sum, file, reader.Position());
      var record := reader.ReadRecord();
      if record.None? || reader.reports != [] {
        assert seen + [] == seen;
        WhatIsTaken(env, seen, numbers, ps, builder);
        return reader.reports == [], numbers, ps;
      }
      var good;
      good, numbers, ps := TakeRecord(env, record.value, builder, numbers, ps, seen);
      seen := seen + [record.value];
      if !good {
        assert all == seen + ReadAll(env.sum, file, reader.Position()).0;
        BadRecord(env, seen, ReadAll(env.sum, file, reader.Position()).0);
        return false, numbers, ps;
      }
    }
  }

  lemma Replaying(env: Env, records: seq<Slice>, v: Version)
    requires Replays(env, records, v)
    ensures AllGood(env, records) && OrderedVersion(v)
  {
  }

  lemma WhatIsTaken(env: Env, seen: seq<Slice>, numbers: Counters, ps: seq<Slice>, builder: Builder)
    requires Taken(env, seen, numbers, ps, builder)
    ensures AllGood(env, seen) && numbers == CountAll(seen) && ps == PointAll(seen)
    ensures CountersFit(numbers) && PointersFit(ps) && |ps| == NUM_LEVELS
  {
  }

  lemma BadRecord(env: Env, seen: seq<Slice>, rest: seq<Slice>)
    requires seen != [] && !Good(env, seen[|seen| - 1])
    ensures !AllGood(env, seen + rest)
  {
    hide Good;
    assert (seen + rest)[|seen| - 1] == seen[|seen| - 1];
  }

  /** Decodes one record and applies it. */
  method TakeRecord(env: Env, record: Slice, builder: Builder, numbers: Counters, ps: seq<Slice>, ghost seen: seq<Slice>)
    returns (good: bool, numbers': Counters, ps': seq<Slice>)
    requires Taken(env, seen, numbers, ps, builder)
    modifies builder
    ensures good <==> Good(env, record)
    ensures good ==> Taken(env, seen + [record], numbers', ps', builder)
  {
    hide EditCodec.EditOf, EditCodec.DecodeRecs, Known, ChangesOf, AllChanges, Fold, ApplySpec, CountAll, PointAll, AllGood, Count, Point,
      CountersFit, PointersFit;
    var edit := new EditCodec.VersionEdit();
    var problem := edit.DecodeFrom(record);
    var e := edit.Contents();
    DecodedEdit(record);
    numbers', ps' := numbers, ps;
    if problem.Some? || (e.comparator.Some? && e.comparator.value != env.comparator) || !Known(env, e) {
      return false, numbers, ps;
    }
    MayApply(env, seen, numbers, ps, builder, record);
    EditCodec.DecodedFits(record);
    CountFits(numbers, e);
    PointFits(ps, e.compactPointers);
    OneMoreGood(env, seen, record);
    forall l | 0 <= l < NUM_LEVELS
      ensures ApplySpec(builder.State(l), ChangesOf(env, e), l) == Fold(AllChanges(env, seen + [record]), l)
    {
      TakenMore(env, seen, record, l, builder.State(l));
    }
    OneMoreCount(seen, record);
    builder.Apply(ChangesOf(env, e));
    return true, Count(numbers, e), Point(ps, e.compactPointers);
  }

  lemma DecodedEdit(record: Slice)
    ensures EditCodec.EditOf(record) == EditCodec.TakeAll(EditCodec.Cleared([]), EditCodec.DecodeRecs(record).0)
  {
  }

  /** Saves the version that the records describe. */
  method Rebuild(env: Env, builder: Builder, numbers: Counters, ps: seq<Slice>, ghost seen: seq<Slice>) returns (v: Version)
    requires Taken(env, seen, numbers, ps, builder)
    ensures Replays(env, seen, v) && AllStored(env, v)
  {
    BuilderStored(env, seen, builder);
    hide Stored, AllGood, AllChanges, Fold, CountAll, PointAll, Kept;
    assert forall l :: 0 <= l < NUM_LEVELS ==> EMPTY_VERSION[l] == [] && FileSet(EMPTY_VERSION[l]) == {};
    v := builder.SaveTo();
    forall l, f | 0 <= l < NUM_LEVELS && f in v[l] ensures Stored(env, f) {
      assert f in FileSet(v[l]);
      KeptIsAdded(builder.State(l), f);
    }
  }

  lemma KeptIsAdded(st: LevelState, f: File)
    ensures f in Kept({}, st) ==> f in st.added
  {
  }

  lemma NothingTaken(env: Env, builder: Builder)
    requires builder.Valid() && builder.base == EMPTY_VERSION
    requires forall l :: 0 <= l < NUM_LEVELS ==> builder.State(l) == LevelState({}, {})
    ensures Taken(env, [], NO_COUNTERS, NO_POINTERS, builder)
  {
  }

  lemma BuilderStored(env: Env, seen: seq<Slice>, builder: Builder)
    requires AllGood(env, seen) && builder.Valid()
    requires forall l :: 0 <= l < NUM_LEVELS ==> builder.State(l) == Fold(AllChanges(env, seen), l)
    ensures forall l, f :: 0 <= l < NUM_LEVELS && f in builder.added[l] ==> Stored(env, f)
  {
    hide Stored, Good, AllChanges, Fold;
    forall l, f | 0 <= l < NUM_LEVELS && f in builder.added[l] ensures Stored(env, f) {
      assert f in builder.State(l).added;
      var i := AddedComesFromEdits(AllChanges(env, seen), l, f);
      AddedAreStored(env, seen, l, f);
    }
  }

  /** A good record may be applied: its levels exist, and a number names one file. */
  lemma MayApply(env: Env, seen: seq<Slice>, numbers: Counters, pointers: seq<Slice>, builder: Builder, record: Slice)
    requires Taken(env, seen, numbers, pointers, builder) && Good(env, record)
    ensures Known(env, EditCodec.EditOf(record)) && EditOk(ChangesOf(env, EditCodec.EditOf(record)))
    ensures builder.NumbersAgree(ChangesOf(env, EditCodec.EditOf(record)))
  {
    hide EditCodec.EditOf, EditCodec.DecodeRecs, Resolve, Fold, CountAll, PointAll;
    EditCodec.DecodedFits(record);
    BuilderStored(env, seen, builder);
    ResolvedAreStored(env, EditCodec.EditOf(record));
    var e := ChangesOf(env, EditCodec.EditOf(record));
    forall l, f, g | 0 <= l < NUM_LEVELS && (f in builder.added[l] || (l, f) in e.added) && (l, g) in e.added && f.number == g.number
      ensures f == g
    {
      assert Stored(env, (l, g).1) && (f in builder.added[l] || Stored(env, (l, f).1));
    }
  }

  /** Applying the changes of one more record. */
  lemma TakenMore(env: Env, seen: seq<Slice>, record: Slice, l: nat, was: LevelState)
    requires AllGood(env, seen) && Good(env, record) && was == Fold(AllChanges(env, seen), l)
    ensures AllGood(env, seen + [record])
    ensures ApplySpec(was, ChangesOf(env, EditCodec.EditOf(record)), l) == Fold(AllChanges(env, seen + [record]), l)
  {
    hide ChangesOf, ApplySpec, AllChanges, Known, EditCodec.EditOf, EditCodec.DecodeRecs;
    OneMoreGood(env, seen, record);
    var e := ChangesOf(env, EditCodec.EditOf(record));
    assert (AllChanges(env, seen) + [e])[..|seen|] == AllChanges(env, seen);
  }

  lemma NoUpdates(pointers: seq<Slice>)
    requires |pointers| == NUM_LEVELS
    ensures PointedUpTo(pointers, [], 0)
  {
    assert pointers[..0] + NO_POINTERS[0..] == NO_POINTERS;
  }

  lemma OneRecord(sum: Checksum, record: Slice)
    ensures LayoutAll(sum, 0, [record]) == [] + Layout(sum, 0, record, true)
  {
    hide Layout;
    assert [record][1..] == [];
  }

  lemma FirstOf(records: seq<Slice>)
    ensures |records| == 1 ==> records[..1] == records
  {
  }

  lemma {:induction false} PointFits(ps: seq<Slice>, updates: seq<(nat, Slice)>)
    requires PointersFit(ps) && forall i :: 0 <= i < |updates| ==> |updates[i].1| < TWO32
    ensures PointersFit(Point(ps, updates))
    decreases |updates|
  {
    if updates != [] {
      PointFits(ps, updates[..|updates| - 1]);
    }
  }

  lemma ChangeFits(env: Env, ps: seq<Slice>, c: Change)
    requires PointersFit(ps) && ChangeOk(env, c)
    ensures PointersFit(Point(ps, c.pointers))
  {
    assert forall i :: 0 <= i < |c.pointers| ==> c.pointers[i] in c.pointers;
    PointFits(ps, c.pointers);
  }

  lemma CountFits(c: Counters, e: EditCodec.Edit)
    requires CountersFit(c) && EditCodec.EditOk(e)
    ensures CountersFit(Count(c, e))
  {
  }

  /** A record may be appended for a new state. */
  ghost predicate Appendable(env: Env, records: seq<Slice>, saved: seq<VersionState>) {
    && (Written(env, records, saved) || (|records| == 1 && saved == [])) && CountAll(records[..1]).nextFile.None?
    && NamesComparator(env, records)
  }

  /** What the MANIFEST says in the end. */
  lemma SavedReplays(env: Env, records: seq<Slice>, saved: seq<VersionState>)
    requires Written(env, records, saved) && saved != []
    ensures var st := saved[|saved| - 1]; Replays(env, records, st.version) && PointAll(records) == st.pointers
    ensures Appendable(env, records, saved)
  {
    hide Replays, PointAll, CountAll;
    var n := |saved| - 1;
    assert records[..n + 2] == records;
    assert Says(env, records[..n + 2], saved[n]);
  }

  // ---------------------------------------------------------------------- whole stories

  /** The MANIFEST of a new database. */
  method NewDB(env: Env) returns (file: Slice)
    requires EnvOk(env)
    ensures ReadAll(env.sum, file, 0).1 == []
    ensures Says(env, ReadAll(env.sum, file, 0).0, VersionState(EMPTY_VERSION, 0, 0, 2, 0, NO_POINTERS))
    ensures NamesComparator(env, ReadAll(env.sum, file, 0).0)
  {
    hide EnvOk, EditCodec.EditOf, EditCodec.DecodeRecs, Layout, LayoutAll, ReadAll, Says, Survivors;
    var e := EditCodec.Edit(Some(env.comparator), Some(0), None, Some(2), Some(0), [], {}, []);
    assert EditCodec.EditOk(e) by { ComparatorFits(env); }
    var r := EncodeEdit(e);
    var writer := new Log.Writer(env.sum, []);
    writer.AddRecord(r);
    file := writer.dest;
    OneRecord(env.sum, r);
    TruncatedLogReadsBack(env.sum, file, 0, [r]);
    AllSurvive(env.sum, 0, [r]);
    assert [r][..1] == [r];
    NewRecordSaid(env, r);
  }

  lemma ComparatorFits(env: Env)
    requires EnvOk(env)
    ensures |env.comparator| < TWO32
  {
  }

  lemma NewRecordSaid(env: Env, record: Slice)
    requires EditCodec.DecodeRecs(record).1 == None
    requires EditCodec.EditOf(record) == EditCodec.Edit(Some(env.comparator), Some(0), None, Some(2), Some(0), [], {}, [])
    ensures Says(env, [record], VersionState(EMPTY_VERSION, 0, 0, 2, 0, NO_POINTERS))
  {
    hide EditCodec.EditOf, EditCodec.DecodeRecs, Replays, Installed, OrderedVersion;
    EmptyReplays(env);
    OneMoreCount([], record);
    assert [] + [record] == [record];
    NoChange(ChangesOf(env, EditCodec.EditOf(record)));
    ReplaysMore(env, [], EMPTY_VERSION, record, EMPTY_VERSION);
  }

  lemma NoChange(e: VersionEdit)
    requires e == VersionEdit({}, [])
    ensures Installed(EMPTY_VERSION, e, EMPTY_VERSION) && OrderedVersion(EMPTY_VERSION)
  {
    forall l | 0 <= l < NUM_LEVELS
      ensures FileSet(EMPTY_VERSION[l]) == Kept(FileSet(EMPTY_VERSION[l]), ApplySpec(NO_CHANGES, e, l))
    {
      AdditionsAsSets(ApplyDeletions(NO_CHANGES, e, l), e.added, l);
    }
  }

  function Recovered(vs: VersionSet): VersionState
    requires vs.nextFile > 0
    reads vs
  {
    VersionState(vs.current, vs.logNumber, vs.prevLogNumber, vs.nextFile - 1, vs.lastSequence, vs.pointers)
  }

  /** A crash leaves a prefix of the MANIFEST. Opening it succeeds if and only if a version was installed whose
      record survived whole, and gives the state saved with the last such record; from the whole file that
      is the current version. Records whose bytes are known to be on disk survive. */
  method ReopenAfterCrash(vs: VersionSet, cut: nat) returns (back: VersionSet, ok: bool)
    requires vs.Valid() && vs.descriptor != null && cut <= |vs.descriptor.dest|
    ensures fresh(back) && back.Valid() && |vs.records| == |vs.saved| + 1
    ensures ok <==> Survivors(vs.env.sum, 0, vs.records, cut) >= 2
    ensures ok ==> back.nextFile > 0 && Recovered(back) == vs.saved[Survivors(vs.env.sum, 0, vs.records, cut) - 2]
    ensures forall j: nat :: j <= |vs.records| && |LayoutAll(vs.env.sum, 0, vs.records[..j])| <= cut ==>
      Survivors(vs.env.sum, 0, vs.records, cut) >= j
    ensures cut == |vs.descriptor.dest| ==> ok && back.current == vs.current && back.pointers == vs.pointers
    ensures cut == |vs.descriptor.dest| ==> back.logNumber == vs.logNumber && back.prevLogNumber == vs.prevLogNumber
  {
    hide EnvOk, Written, AllStored, Survivors, LayoutAll, ReadAll, Says, PointersFit, NumbersFit, Recoverable;
    back := new VersionSet(vs.env);
    var file := vs.descriptor.dest[..cut];
    ok := back.Recover(file);
    assert LogFormat.Holds(file, 0, LayoutAll(vs.env.sum, 0, vs.records));
    TruncatedLogReadsBack(vs.env.sum, file, 0, vs.records);
    AllSurvive(vs.env.sum, 0, vs.records);
    var k := Survivors(vs.env.sum, 0, vs.records, cut);
    forall j: nat | j <= |vs.records| && |LayoutAll(vs.env.sum, 0, vs.records[..j])| <= cut ensures k >= j {
      SurvivorsAtLeast(vs.env.sum, 0, vs.records, j, cut);
    }
    PrefixRecoverable(vs.env, vs.records, vs.saved, k);
    if ok {
      SaysOneThing(vs.env, vs.records[..k], Recovered(back), vs.saved[k - 2]);
    }
  }

  /** A prefix of the records is enough if and only if it holds a record behind the snapshot. */
  lemma PrefixRecoverable(env: Env, records: seq<Slice>, saved: seq<VersionState>, k: nat)
    requires Written(env, records, saved) && k <= |records|
    ensures |records| == |saved| + 1 && (Recoverable(env, records[..k], []) <==> k >= 2)
    ensures k >= 2 ==> Says(env, records[..k], saved[k - 2])
  {
    hide Replays, PointAll;
    if k >= 2 {
      assert Says(env, records[..k - 2 + 2], saved[k - 2]);
      Replaying(env, records[..k], saved[k - 2].version);
    }
  }

  // --------------------------------------------------------------- under another comparator

  /** Records that start under one comparator are refused under every other one, however many of them were read. */
  lemma OtherComparatorRefused(env: Env, other: Env, records: seq<Slice>, k: nat)
    requires NamesComparator(env, records) && other.comparator != env.comparator && 0 < k <= |records|
    ensures !AllGood(other, records[..k])
  {
    hide EditCodec.EditOf, EditCodec.DecodeRecs, Known;
    assert records[..k][0] == records[0];
    assert !Good(other, records[..k][0]);
  }

  /** A database cannot be opened under another comparator: the MANIFEST of a new one is refused. */
  method NewDBRefused(env: Env, other: Env) returns (ok: bool)
    requires EnvOk(env) && EnvOk(other) && other.sum == env.sum && other.comparator != env.comparator
    ensures !ok
  {
    hide EnvOk, ReadAll, Says, NamesComparator, AllGood, Good;
    var file := NewDB(env);
    ghost var all := ReadAll(env.sum, file, 0).0;
    FirstNames(env, all);
    OtherComparatorRefused(env, other, all, |all|);
    assert all[..|all|] == all;
    var vs := new VersionSet(other);
    ok := vs.Recover(file);
  }

  lemma FirstNames(env: Env, records: seq<Slice>)
    requires NamesComparator(env, records)
    ensures records != []
  {
  }

  /** And so is every prefix of any MANIFEST as long as it holds the first record. */
  method OtherComparatorFails(vs: VersionSet, cut: nat, other: Env) returns (ok: bool)
    requires vs.Valid() && vs.descriptor != null && cut <= |vs.descriptor.dest|
    requires EnvOk(other) && other.sum == vs.env.sum && other.comparator != vs.env.comparator
    requires vs.records != [] && |LayoutAll(vs.env.sum, 0, vs.records[..1])| <= cut
    ensures !ok
  {
    hide EnvOk, AllStored, Survivors, LayoutAll, ReadAll, Says, PointersFit, NumbersFit, NamesComparator, AllGood, Good, CountAll;
    var back := new VersionSet(other);
    var file := vs.descriptor.dest[..cut];
    assert LogFormat.Holds(file, 0, LayoutAll(vs.env.sum, 0, vs.records));
    TruncatedLogReadsBack(vs.env.sum, file, 0, vs.records);
    SurvivorsAtLeast(vs.env.sum, 0, vs.records, 1, cut);
    OtherComparatorRefused(vs.env, other, vs.records, Survivors(vs.env.sum, 0, vs.records, cut));
    ok := back.Recover(file);
  }

  /** A MANIFEST with a damaged block is refused, unless reading stops at a stored end before it. */
  method DamagedFails(env: Env, file: Slice, b: nat) returns (ok: bool)
    requires EnvOk(env) && b + BLOCK_SIZE <= |file| && b % BLOCK_SIZE == 0
    requires LogFragments.NoStop(env.sum, file, 0, b) && LogFragments.Damaged(env.sum, file, b)
    ensures !ok
  {
    hide EnvOk, AllStored, ReadAll, Says, PointersFit, NumbersFit, AllGood, CountAll, LogFragments.NoStop, LogFragments.Damaged;
    var back := new VersionSet(env);
    LogFragments.DamageIsReported(env.sum, file, 0, b);
    ok := back.Recover(file);
  }

  /** A record that was cut off, or is of a kind or on a level that there is not, is not good. */
  lemma DamagedIsNotGood(env: Env, rs: seq<EditCodec.Rec>, junk: Slice)
    requires forall r :: r in rs ==> EditCodec.RecOk(r)
    requires (exists r, n: nat :: EditCodec.RecOk(r) && 0 < n < |EditCodec.EncodeRec(r)| && junk == EditCodec.EncodeRec(r)[..n])
          || (exists r, rest :: NUM_LEVELS <= EditCodec.LevelOf(r) < TWO32 && junk == EditCodec.EncodeRec(r) + rest)
          || (exists tag: nat, rest :: tag < TWO32 && !EditCodec.KnownTag(tag) && junk == Varint(tag) + rest)
    ensures !Good(env, EditCodec.EncodeRecs(rs) + junk)
  {
    hide EditCodec.RecOk, EditCodec.EncodeRec, EditCodec.EncodeRecs, EditCodec.LevelOf, EditCodec.KnownTag, Varint, EditCodec.DecodeRecs,
      EditCodec.EditOf, EditCodec.ProblemOf, Known;
    EditCodec.DamagedRecs(rs, junk);
  }
}
