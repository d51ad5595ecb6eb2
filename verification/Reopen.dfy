/** Opening a database again after a crash: the MANIFEST and the logs together. What is opened is a sound store that
    reads like the history up to the groups that were found. */
module Reopen {
  import opened Bytes
  import opened DbFormat
  import opened Files
  import opened Manifest
  import opened Lookup
  import Compaction
  import CompactionReads
  import opened Ages
  import opened LogFormat
  import opened GroupCommit
  import Log
  import ManifestFile
  import Recovery
  import Store
  import WriteBatch

  // ---------------------------------------------------------------- adding newer entries

  /** Every entry of b has a greater sequence number than every entry of a. */
  ghost predicate AllBefore(a: set<Entry>, b: set<Entry>) {
    forall x, y :: x in a && y in b ==> x.key.sequence < y.key.sequence
  }

  /** Newer entries leave two sets that read alike reading alike. */
  lemma NewerKeepReads(a: set<Entry>, b: set<Entry>, c: set<Entry>, floor: nat)
    requires Store.ReadsAlike(a, b, floor) && DistinctSeqs(a + c) && DistinctSeqs(b + c) && AllBefore(a, c) && AllBefore(b, c)
    ensures Store.ReadsAlike(a + c, b + c, floor)
  {
    hide Read, DistinctSeqs;
    forall k, s | floor <= s ensures Read(a + c, k, s) == Read(b + c, k, s) {
      NewerRead(a, c, k, s);
      NewerRead(b, c, k, s);
    }
  }

  lemma NewerRead(a: set<Entry>, c: set<Entry>, k: UserKey, s: nat)
    requires DistinctSeqs(a + c) && AllBefore(a, c)
    ensures Read(a + c, k, s) == if NothingSeen(c, k, s) then Read(a, k, s) else Read(c, k, s)
  {
    hide Read;
    if NothingSeen(c, k, s) {
      if x :| x in a && x.key.user == k && x.key.sequence <= s {
        var n := NewestExists(a, k, s, x);
        ReadNewest(a, k, s, n);
        ReadNewest(a + c, k, s, n);
      } else {
        NothingRead(a, k, s);
        NothingRead(a + c, k, s);
      }
    } else {
      var x :| x in c && x.key.user == k && x.key.sequence <= s;
      var n := NewestExists(c, k, s, x);
      ReadNewest(c, k, s, n);
      ReadNewest(a + c, k, s, n);
    }
  }

  lemma NothingRead(a: set<Entry>, k: UserKey, s: nat)
    requires forall x :: x in a ==> !(x.key.user == k && x.key.sequence <= s)
    ensures Read(a, k, s) == None
  {
  }

  // ------------------------------------------------------------------------- the machine

  /** A state that the MANIFEST holds, and from which snapshot on its tables read like all that was flushed. */
  datatype Saved = Saved(st: ManifestFile.VersionState, floor: nat)

  /** Whether a record is being written to the MANIFEST that is not known to be on disk. */
  datatype Saving = Nothing | Flushing | Reorganising

  /** The database as far as reopening needs it: the group commit protocol, the numbers of the log of the memtable
      being flushed and of the current log, and the states in the MANIFEST. */
  datatype Db = Db(s: State, oldNumber: nat, newNumber: nat, nextFile: nat, saved: seq<Saved>, saving: Saving)

  /** How many records of the MANIFEST are on disk for certain. */
  function OnDisk(db: Db): int { if db.saving.Nothing? then |db.saved| else |db.saved| - 1 }

  function FirstLog(db: Db): nat { if db.s.imm.Some? then db.oldNumber else db.newNumber }

  datatype Step =
    | Work(e: Event)
    | Switch
    | BeginFlush(v: Version, nextFile: nat, pointers: seq<Slice>)
    | EndFlush
    | BeginReorganise(v: Version, snapshot: nat, nextFile: nat, pointers: seq<Slice>)
    | EndReorganise

  ghost predicate VersionFits(v: Version, nextFile: nat) {
    OrderedVersion(v) && Placed(v) && Aged(v) && NumbersBelow(v, nextFile)
  }

  /** The new version reads like the old one from the snapshot on. */
  ghost predicate Reorganised(v: Version, v': Version, snapshot: nat) {
    Entries(v') <= Entries(v) && Store.ReadsAlike(Entries(v'), Entries(v), snapshot)
  }

  ghost predicate May(db: Db, step: Step) {
    match step
    case Work(e) => Enabled(db.s, e) && !e.SwitchMemTable? && !e.FlushImm?
    case Switch => Enabled(db.s, SwitchMemTable)
    case BeginFlush(v, n, _) =>
      && db.saving.Nothing? && db.saved != [] && db.s.imm.Some? && db.nextFile <= n && VersionFits(v, n)
      && Entries(v) == Entries(Last(db).st.version) + ToSet(db.s.imm.value)
    case EndFlush => db.saving.Flushing? && Enabled(db.s, FlushImm)
    case BeginReorganise(v, snapshot, n, _) =>
      && db.saving.Nothing? && db.saved != [] && db.nextFile <= n && VersionFits(v, n)
      && snapshot <= db.s.lastSequence && Reorganised(Last(db).st.version, v, snapshot)
    case EndReorganise => db.saving.Reorganising?
  }

  function Last(db: Db): Saved
    requires db.saved != []
  {
    db.saved[|db.saved| - 1]
  }

  function After(db: Db, step: Step): Db
    requires May(db, step)
  {
    match step
    case Work(e) => db.(s := Next(db.s, e))
    case Switch => db.(s := Next(db.s, SwitchMemTable), oldNumber := db.newNumber, newNumber := db.nextFile, nextFile := db.nextFile + 1)
    case BeginFlush(v, n, pointers) =>
      var st := ManifestFile.VersionState(v, db.newNumber, 0, n, db.s.lastSequence, pointers);
      db.(nextFile := n, saved := db.saved + [Saved(st, Last(db).floor)], saving := Flushing)
    case EndFlush => db.(s := Next(db.s, FlushImm), saving := Nothing)
    case BeginReorganise(v, snapshot, n, pointers) =>
      var st := ManifestFile.VersionState(v, Last(db).st.logNumber, 0, n, db.s.lastSequence, pointers);
      db.(nextFile := n, saved := db.saved + [Saved(st, Recovery.Max(Last(db).floor, snapshot))], saving := Reorganising)
    case EndReorganise => db.(saving := Nothing)
  }

  /** A new database with its first log and the record that names it. */
  ghost predicate IsNew(db: Db) {
    && db.s == Init() && db.saving.Nothing? && 0 < db.newNumber < db.nextFile && |db.saved| == 1
    && db.saved[0].st.version == EMPTY_VERSION && db.saved[0].st.logNumber == db.newNumber && db.saved[0].st.prevLogNumber == 0
    && db.saved[0].st.lastSequence == 0 && db.saved[0].floor == 0
  }

  ghost predicate IsDbRun(run: seq<Db>, steps: seq<Step>) {
    && |run| == |steps| + 1 && IsNew(run[0])
    && forall i :: 0 <= i < |steps| ==> May(run[i], steps[i]) && run[i + 1] == After(run[i], steps[i])
  }

  // --------------------------------------------------------------------------- invariant

  ghost predicate UpTo(gs: seq<Group>, last: nat) { forall i :: 0 <= i < |gs| ==> gs[i].End() <= last + 1 }

  /** The state holds what was flushed: its tables read like these groups, all numbered up to its last sequence. */
  ghost predicate Tells(sv: Saved, flushed: seq<Group>, last: nat) {
    && VersionFits(sv.st.version, sv.st.nextFile) && sv.st.prevLogNumber == 0 && sv.floor <= sv.st.lastSequence <= last
    && Entries(sv.st.version) <= ToSet(EntriesOf(flushed)) && UpTo(flushed, sv.st.lastSequence)
    && Store.ReadsAlike(Entries(sv.st.version), ToSet(EntriesOf(flushed)), sv.floor)
  }

  /** The groups in the tables of the i-th saved state. */
  function TablesOf(db: Db, i: nat): seq<Group>
    requires Marks(db.s)
  {
    if db.saving.Flushing? && i + 1 == |db.saved| then db.s.logged[..db.s.logStart] else db.s.logged[..Flushed(db.s)]
  }

  function LogOf(db: Db, i: nat): nat {
    if db.saving.Flushing? && i + 1 == |db.saved| then db.newNumber else FirstLog(db)
  }

  ghost predicate Joined(db: Db) {
    && Inv(db.s) && db.s.lastSequence < MAX_SEQUENCE_NUMBER && 0 < db.newNumber < db.nextFile
    && (db.s.imm.Some? ==> 0 < db.oldNumber < db.newNumber) && (db.saving.Flushing? ==> db.s.imm.Some?) && OnDisk(db) >= 1
    && forall i :: OnDisk(db) - 1 <= i < |db.saved| ==>
      Tells(db.saved[i], TablesOf(db, i), db.s.lastSequence) && db.saved[i].st.logNumber == LogOf(db, i)
  }

  lemma NewIsJoined(db: Db)
    requires IsNew(db)
    ensures Joined(db)
  {
    hide Read;
    InitInv();
    Store.StartsEmpty();
    EmptyFits(db.saved[0].st.nextFile);
    assert ToSet(EntriesOf([])) == {} && Entries(EMPTY_VERSION) == {};
  }

  lemma EmptyFits(n: nat)
    ensures VersionFits(EMPTY_VERSION, n) && Entries(EMPTY_VERSION) == {}
  {
    Store.NoLevels();
    NoFilesFit(EMPTY_VERSION, n);
  }

  lemma NoFilesFit(v: Version, n: nat)
    requires forall l :: 0 <= l < NUM_LEVELS ==> v[l] == []
    ensures VersionFits(v, n) && Entries(v) == {}
  {
    Store.NoFiles(v);
  }

  /** A compaction makes a version that may be saved exactly when it uncovers no value of the files by themselves; with
      a clear key check it never does. */
  lemma CompactionReorganises(v: Version, level: nat, in0: seq<File>, in1: seq<File>, input: seq<Entry>, snapshot: nat, last: nat, next: Version)
    requires level + 1 < NUM_LEVELS && Compaction.InputsOk(v, level, in0, in1) && CompactionReads.IsInput(in0, in1, input)
    requires Store.WrittenUpTo(Entries(v), last)
    requires Entries(next) == Entries(v) - CompactionReads.DroppedEntries(v, level, input, snapshot)
    ensures Reorganised(v, next, snapshot) <==> forall d, y :: !CompactionReads.Uncovers(Entries(v), v, level, input, snapshot, d, y)
    ensures Layered(v) && KeysClear(v, level, in0, in1) ==> Reorganised(v, next, snapshot)
  {
    hide Read, Compaction.InputsOk, CompactionReads.IsInput, CompactionReads.DroppedEntries, CompactionReads.Uncovers, Entries, Layered, KeysClear;
    assert ToSet([]) == {} && Store.All([], [], v) == Entries(v) && Store.All([], [], next) == Entries(next);
    Store.CompactStep([], [], v, Entries(v), last, snapshot, level, in0, in1, input, snapshot, next);
    if Layered(v) && KeysClear(v, level, in0, in1) {
      Store.ClearKeepsReads([], [], v, Entries(v), last, snapshot, level, in0, in1, input, snapshot, next);
    }
  }

  // ------------------------------------------------------------------ steps keep it

  /** What a step of the protocol leaves of memtables and of the flushed part of the log. */
  lemma WorkKeeps(s: State, e: Event)
    requires Inv(s) && s.lastSequence < MAX_SEQUENCE_NUMBER && Enabled(s, e) && !e.SwitchMemTable? && !e.FlushImm?
    ensures var s' := Next(s, e);
      && s'.imm == s.imm && s'.immStart == s.immStart && s'.logStart == s.logStart && s.lastSequence <= s'.lastSequence < MAX_SEQUENCE_NUMBER
      && s'.logged[..s.logStart] == s.logged[..s.logStart] && s'.logged[..Flushed(s)] == s.logged[..Flushed(s)] && Inv(s')
  {
    MarksOf(s);
    hide Inv, Marks, Enabled, Next;
    StepKeepsInv(s, e);
    WorkLeaves(s, e);
  }

  lemma MarksOf(s: State)
    requires Inv(s)
    ensures Marks(s) && (s.phase.Finishing? ==> AtWork(s, s.phase.group))
  {
  }

  lemma WorkLeaves(s: State, e: Event)
    requires Marks(s) && (s.phase.Finishing? ==> AtWork(s, s.phase.group)) && Enabled(s, e) && !e.SwitchMemTable? && !e.FlushImm?
    requires s.lastSequence < MAX_SEQUENCE_NUMBER
    ensures var s' := Next(s, e);
      && s'.imm == s.imm && s'.immStart == s.immStart && s'.logStart == s.logStart && s.lastSequence <= s'.lastSequence < MAX_SEQUENCE_NUMBER
      && s'.logged[..s.logStart] == s.logged[..s.logStart] && s'.logged[..Flushed(s)] == s.logged[..Flushed(s)]
  {
    hide NextGroup, WriteBatch.ToEntries;
    if e.Append? {
      SameParts(s.logged, s.phase.group, Flushed(s), 0, s.logStart);
      assert s.logged[0..s.logStart] == s.logged[..s.logStart];
    }
  }

  lemma TellsLonger(sv: Saved, flushed: seq<Group>, last: nat, last': nat)
    requires Tells(sv, flushed, last) && last <= last'
    ensures Tells(sv, flushed, last')
  {
    hide VersionFits, Store.ReadsAlike, Entries, EntriesOf, UpTo;
  }

  /** Groups and memtables that a flush moves into tables. */
  lemma FlushMoves(s: State)
    requires Inv(s) && s.imm.Some?
    ensures Marks(s) && UpTo(s.logged[..s.logStart], s.lastSequence)
    ensures EntriesOf(s.logged[..s.logStart]) == EntriesOf(s.logged[..Flushed(s)]) + s.imm.value
    ensures GroupCommit.InOrder(s.logged[..s.logStart]) && StartsPositive(s.logged[..s.logStart])
  {
    hide AllGroupsOk, AllAnswered, AllRequestsFit, EntriesOf;
    EntriesOfAppend(s.logged[..s.immStart], s.logged[s.immStart..s.logStart]);
    Split(s.logged, s.immStart, s.logStart);
    Positive(s.requests, s.logged);
    FlushedUpTo(s);
  }

  lemma FlushedUpTo(s: State)
    requires Marks(s) && PhaseOk(s)
    ensures UpTo(s.logged[..s.logStart], s.lastSequence)
  {
    hide AtWork;
    var before := if Pending(s) then s.logged[..|s.logged| - 1] else s.logged;
    assert forall i :: 0 <= i < s.logStart ==> before[i] == s.logged[i];
  }

  /** Entries in the order of their sequence numbers: as sets they are distinct, and the later ones are newer. */
  lemma AscendingParts(x: seq<Entry>, y: seq<Entry>)
    requires SequencesAscend(x + y)
    ensures ToSet(x + y) == ToSet(x) + ToSet(y) && AllBefore(ToSet(x), ToSet(y)) && DistinctSeqs(ToSet(x) + ToSet(y))
    ensures SequencesAscend(x) && SequencesAscend(y)
  {
    var all := x + y;
    forall a, b | a in ToSet(x) && b in ToSet(y) ensures a.key.sequence < b.key.sequence {
      var i :| 0 <= i < |x| && x[i] == a;
      var j :| 0 <= j < |y| && y[j] == b;
      assert all[i] == a && all[|x| + j] == b;
    }
    assert ToSet(all) == ToSet(x) + ToSet(y);
    AscendingIsDistinct(all);
    forall i, j | 0 <= i < j < |x| ensures x[i].key.sequence < x[j].key.sequence {
      assert all[i] == x[i] && all[j] == x[j];
    }
    forall i, j | 0 <= i < j < |y| ensures y[i].key.sequence < y[j].key.sequence {
      assert all[|x| + i] == y[i] && all[|x| + j] == y[j];
    }
  }

  lemma AscendingIsDistinct(es: seq<Entry>)
    requires SequencesAscend(es)
    ensures DistinctSeqs(ToSet(es))
  {
    forall x, y | x in ToSet(es) && y in ToSet(es) && x.key.sequence == y.key.sequence ensures x == y {
      var i :| 0 <= i < |es| && es[i] == x;
      var j :| 0 <= j < |es| && es[j] == y;
      assert !(i < j) && !(j < i);
    }
  }

  lemma SubsetIsDistinct(a: set<Entry>, b: set<Entry>, c: set<Entry>)
    requires a <= b && DistinctSeqs(b + c) && AllBefore(b, c)
    ensures DistinctSeqs(a + c) && AllBefore(a, c)
  {
  }

  /** The state that a flush saves. */
  lemma FlushTells(s: State, sv: Saved, sv': Saved)
    requires Inv(s) && s.imm.Some? && Tells(sv, s.logged[..Flushed(s)], s.lastSequence)
    requires VersionFits(sv'.st.version, sv'.st.nextFile) && sv'.st.prevLogNumber == 0 && sv'.st.lastSequence == s.lastSequence
    requires Entries(sv'.st.version) == Entries(sv.st.version) + ToSet(s.imm.value) && sv'.floor == sv.floor
    ensures Tells(sv', s.logged[..s.logStart], s.lastSequence)
  {
    hide Inv, VersionFits, Store.ReadsAlike, EntriesOf, UpTo, DistinctSeqs, AllBefore, ToSet, SequencesAscend, Entries;
    FlushMoves(s);
    LoggedSequencesAscend(s.logged[..s.logStart]);
    var flushed := EntriesOf(s.logged[..Flushed(s)]);
    AscendingParts(flushed, s.imm.value);
    SubsetIsDistinct(Entries(sv.st.version), ToSet(flushed), ToSet(s.imm.value));
    NewerKeepReads(Entries(sv.st.version), ToSet(flushed), ToSet(s.imm.value), sv.floor);
  }

  /** The state that a compaction or a move saves. */
  lemma ReorganiseTells(s: State, flushed: seq<Group>, sv: Saved, sv': Saved, snapshot: nat)
    requires Tells(sv, flushed, s.lastSequence) && snapshot <= s.lastSequence
    requires VersionFits(sv'.st.version, sv'.st.nextFile) && sv'.st.prevLogNumber == 0 && sv'.st.lastSequence == s.lastSequence
    requires Reorganised(sv.st.version, sv'.st.version, snapshot) && sv'.floor == Recovery.Max(sv.floor, snapshot)
    ensures Tells(sv', flushed, s.lastSequence)
  {
    hide VersionFits, Read, EntriesOf, Entries;
  }

  lemma WorkStep(db: Db, e: Event)
    requires Joined(db) && May(db, Work(e))
    ensures Joined(After(db, Work(e)))
  {
    hide Inv, Enabled, Next, Tells;
    WorkKeeps(db.s, e);
    MarksOf(db.s);
    MarksOf(Next(db.s, e));
    var db' := After(db, Work(e));
    forall i | OnDisk(db) - 1 <= i < |db.saved| ensures Tells(db'.saved[i], TablesOf(db', i), db'.s.lastSequence) {
      TellsLonger(db.saved[i], TablesOf(db, i), db.s.lastSequence, db'.s.lastSequence);
    }
  }

  lemma SwitchStep(db: Db)
    requires Joined(db) && May(db, Switch)
    ensures Joined(After(db, Switch))
  {
    hide Inv, Tells;
    StepKeepsInv(db.s, SwitchMemTable);
    MarksOf(db.s);
    MarksOf(Next(db.s, SwitchMemTable));
    var db' := After(db, Switch);
    assert forall i :: OnDisk(db) - 1 <= i < |db.saved| ==> TablesOf(db', i) == TablesOf(db, i) && LogOf(db', i) == LogOf(db, i);
  }

  lemma BeginStep(db: Db, step: Step)
    requires Joined(db) && May(db, step) && (step.BeginFlush? || step.BeginReorganise?)
    ensures Joined(After(db, step))
  {
    hide Inv, Tells, VersionFits, Reorganised;
    MarksOf(db.s);
    var db', n := After(db, step), |db.saved|;
    assert TablesOf(db, n - 1) == db.s.logged[..Flushed(db.s)];
    if step.BeginFlush? {
      FlushTells(db.s, db.saved[n - 1], db'.saved[n]);
    } else {
      ReorganiseTells(db.s, db.s.logged[..Flushed(db.s)], db.saved[n - 1], db'.saved[n], step.snapshot);
    }
  }

  lemma EndStep(db: Db, step: Step)
    requires Joined(db) && May(db, step) && (step.EndFlush? || step.EndReorganise?)
    ensures Joined(After(db, step))
  {
    hide Inv, Tells;
    MarksOf(db.s);
    if step.EndFlush? {
      StepKeepsInv(db.s, FlushImm);
      MarksOf(Next(db.s, FlushImm));
    }
  }

  /** Every step keeps memtables, logs and MANIFEST joined. */
  lemma StepKeepsJoined(db: Db, step: Step)
    requires Joined(db) && May(db, step)
    ensures Joined(After(db, step))
  {
    hide Joined, May, After;
    match step
    case Work(e) => WorkStep(db, e);
    case Switch => SwitchStep(db);
    case BeginFlush(_, _, _) => BeginStep(db, step);
    case EndFlush => EndStep(db, step);
    case BeginReorganise(_, _, _, _) => BeginStep(db, step);
    case EndReorganise => EndStep(db, step);
  }

  lemma {:induction false} RunKeepsJoined(run: seq<Db>, steps: seq<Step>, i: nat)
    requires IsDbRun(run, steps) && i < |run|
    ensures Joined(run[i])
  {
    hide Joined, May, After, IsNew;
    if i == 0 {
      NewIsJoined(run[0]);
    } else {
      RunKeepsJoined(run, steps, i - 1);
      StepKeepsJoined(run[i - 1], steps[i - 1]);
    }
  }

  // ----------------------------------------------------------------------- what is found

  /** The i-th saved state may be the one that recovery finds. */
  ghost predicate MayBeFound(db: Db, i: nat) { OnDisk(db) - 1 <= i < |db.saved| }

  /** What is read of the log of the memtable being flushed: nothing if the state found has it in its tables. */
  function OldFound(db: Db, i: nat, k1: nat): seq<Group>
    requires Marks(db.s) && k1 <= |Recovery.OldGroups(db.s)|
  {
    if LogOf(db, i) == db.newNumber then [] else Recovery.OldGroups(db.s)[..k1]
  }

  ghost predicate Cuts(db: Db, k1: nat, k2: nat) {
    Marks(db.s) && k1 <= |Recovery.OldGroups(db.s)| && k2 <= |Recovery.NewGroups(db.s)|
  }

  /** What is read of the current log. */
  function NewFound(db: Db, k2: nat): seq<Group>
    requires Marks(db.s) && k2 <= |Recovery.NewGroups(db.s)|
  {
    Recovery.NewGroups(db.s)[..k2]
  }

  /** What is read of both logs. */
  function Replayed(db: Db, i: nat, k1: nat, k2: nat): seq<Group>
    requires Cuts(db, k1, k2)
  {
    OldFound(db, i, k1) + NewFound(db, k2)
  }

  /** The history that is found again, in log order. */
  function Found(db: Db, i: nat, k1: nat, k2: nat): seq<Group>
    requires Cuts(db, k1, k2)
  {
    TablesOf(db, i) + Replayed(db, i, k1, k2)
  }

  ghost predicate InLogOrder(gs: seq<Group>) { GroupCommit.InOrder(gs) && StartsPositive(gs) }

  /** All of x comes before all of y in the log. */
  ghost predicate Ahead(x: seq<Group>, y: seq<Group>) {
    forall i, j :: 0 <= i < |x| && 0 <= j < |y| ==> x[i].first + x[i].count <= y[j].first && x[i].End() <= y[j].start
  }

  lemma SliceOrdered(logged: seq<Group>, a: nat, b: nat)
    requires a <= b <= |logged| && InLogOrder(logged)
    ensures InLogOrder(logged[a..b])
  {
  }

  lemma SlicesAhead(logged: seq<Group>, a: nat, b: nat, c: nat, d: nat)
    requires a <= b <= c <= d <= |logged| && InLogOrder(logged)
    ensures Ahead(logged[a..b], logged[c..d])
  {
  }

  lemma JoinOrdered(x: seq<Group>, y: seq<Group>)
    requires InLogOrder(x) && InLogOrder(y) && Ahead(x, y)
    ensures InLogOrder(x + y)
  {
  }

  lemma AheadOfBoth(x: seq<Group>, y: seq<Group>, z: seq<Group>)
    requires Ahead(x, y) && Ahead(x, z)
    ensures Ahead(x, y + z)
  {
  }

  /** Three parts of the log, one behind the other. */
  ghost predicate PartsAt(logged: seq<Group>, a: nat, b: nat, c: nat, d: nat, e: nat, x: seq<Group>, y: seq<Group>, z: seq<Group>) {
    a <= b <= c <= d <= e <= |logged| && x == logged[0..a] && y == logged[b..c] && z == logged[d..e]
  }

  lemma PickOrdered(logged: seq<Group>, a: nat, b: nat, c: nat, d: nat, e: nat, x: seq<Group>, y: seq<Group>, z: seq<Group>)
    requires PartsAt(logged, a, b, c, d, e, x, y, z) && InLogOrder(logged)
    ensures InLogOrder(x + (y + z)) && InLogOrder(y + z)
  {
    SliceOrdered(logged, 0, a);
    SliceOrdered(logged, b, c);
    SliceOrdered(logged, d, e);
    SlicesAhead(logged, b, c, d, e);
    SlicesAhead(logged, 0, a, b, c);
    SlicesAhead(logged, 0, a, d, e);
    hide InLogOrder, Ahead;
    JoinOrdered(y, z);
    AheadOfBoth(x, y, z);
    JoinOrdered(x, y + z);
  }

  /** Where in the log the parts found lie. */
  lemma FoundAt(db: Db, i: nat, k1: nat, k2: nat, x: seq<Group>, y: seq<Group>, z: seq<Group>) returns (a: nat, b: nat, c: nat)
    requires Cuts(db, k1, k2) && (db.saving.Flushing? ==> db.s.imm.Some?)
    requires x == TablesOf(db, i) && y == OldFound(db, i, k1) && z == NewFound(db, k2)
    ensures PartsAt(db.s.logged, a, b, c, db.s.logStart, db.s.logStart + k2, x, y, z)
  {
    a := |TablesOf(db, i)|;
    b := if OldFound(db, i, k1) == [] then a else db.s.immStart;
    c := b + |OldFound(db, i, k1)|;
  }

  lemma FoundInOrder(db: Db, i: nat, k1: nat, k2: nat)
    requires Joined(db) && Cuts(db, k1, k2)
    ensures InLogOrder(Found(db, i, k1, k2)) && InLogOrder(Replayed(db, i, k1, k2))
  {
    hide *;
    JoinedParts(db);
    LoggedInOrder(db.s);
    var x, y, z := FoundParts(db, i, k1, k2);
    var a, b, c := FoundAt(db, i, k1, k2, x, y, z);
    PickOrdered(db.s.logged, a, b, c, db.s.logStart, db.s.logStart + k2, x, y, z);
  }

  lemma FoundParts(db: Db, i: nat, k1: nat, k2: nat) returns (x: seq<Group>, y: seq<Group>, z: seq<Group>)
    requires Cuts(db, k1, k2)
    ensures x == TablesOf(db, i) && y == OldFound(db, i, k1) && z == NewFound(db, k2)
    ensures Found(db, i, k1, k2) == x + (y + z) && Replayed(db, i, k1, k2) == y + z
  {
    x, y, z := TablesOf(db, i), OldFound(db, i, k1), NewFound(db, k2);
  }

  lemma JoinedParts(db: Db)
    requires Joined(db)
    ensures Inv(db.s) && Marks(db.s) && (db.saving.Flushing? ==> db.s.imm.Some?) && (db.s.imm.Some? ==> db.oldNumber < db.newNumber)
    ensures OnDisk(db) >= 1
  {
    hide Tells;
  }

  lemma LoggedInOrder(s: State)
    requires Inv(s)
    ensures InLogOrder(s.logged)
  {
    hide AllGroupsOk, GroupCommit.InOrder, AllAnswered, AllRequestsFit, PhaseOk;
    Positive(s.requests, s.logged);
  }

  /** What the tables and the logs give together is a sound store, with search order and reads as they should be:
      the history is what was found, and the last sequence number covers it. */
  lemma ReopenedIsValid(db: Db, i: nat, k1: nat, k2: nat, mem: seq<Entry>, nextFile: nat)
    requires Joined(db) && MayBeFound(db, i) && Cuts(db, k1, k2)
    requires Sorted(mem) && ToSet(mem) == ToSet(EntriesOf(Replayed(db, i, k1, k2))) && db.saved[i].st.nextFile <= nextFile
    requires StartsPositive(Replayed(db, i, k1, k2))
    ensures var sv, history := db.saved[i], ToSet(EntriesOf(Found(db, i, k1, k2)));
      && Store.StoreOk(mem, [], sv.st.version, nextFile, history,
                       Recovery.Max(sv.st.lastSequence, Recovery.LastUsed(Replayed(db, i, k1, k2))), sv.floor, [])
      && Aged(sv.st.version) && Store.ReadsAlike(Store.All(mem, [], sv.st.version), history, sv.floor)
  {
    hide Inv, Store.ReadsAlike, Store.All, Store.Stacked, Store.WrittenUpTo, EntriesOf, GroupCommit.InOrder, StartsPositive, UpTo, DistinctSeqs,
      AllBefore, SequencesAscend, ToSet, Sorted, TablesOf, Replayed, Entries, OrderedVersion, Placed, Aged, NumbersBelow, LogOf;
    var sv, tables, read := db.saved[i], TablesOf(db, i), Replayed(db, i, k1, k2);
    FoundInOrder(db, i, k1, k2);
    LoggedSequencesAscend(tables + read);
    EntriesOfAppend(tables, read);
    AscendingParts(EntriesOf(tables), EntriesOf(read));
    SubsetIsDistinct(Entries(sv.st.version), ToSet(EntriesOf(tables)), ToSet(mem));
    NewerKeepReads(Entries(sv.st.version), ToSet(EntriesOf(tables)), ToSet(mem), sv.floor);
    MemOverTables(mem, sv.st.version);
    LastCovers(db, i, k1, k2);
    BelowMore(sv.st.version, sv.st.nextFile, nextFile);
    CoversHistory(ToSet(EntriesOf(tables)) + ToSet(mem), Recovery.Max(sv.st.lastSequence, Recovery.LastUsed(read)));
  }

  lemma CoversHistory(history: set<Entry>, last: nat)
    requires DistinctSeqs(history) && last < MAX_SEQUENCE_NUMBER && forall e :: e in history ==> e.key.sequence <= last
    ensures Store.WrittenUpTo(history, last)
  {
  }

  lemma BelowMore(v: Version, n: nat, n': nat)
    requires NumbersBelow(v, n) && n <= n'
    ensures NumbersBelow(v, n')
  {
  }

  lemma MemOverTables(mem: seq<Entry>, v: Version)
    requires Sorted(mem) && AllBefore(Entries(v), ToSet(mem))
    ensures Store.Stacked(mem, [], v) && Store.All(mem, [], v) == Entries(v) + ToSet(mem)
  {
    hide Entries;
  }

  lemma EntriesUpTo(gs: seq<Group>, last: nat)
    requires GroupCommit.InOrder(gs) && StartsPositive(gs) && UpTo(gs, last)
    ensures forall e :: e in ToSet(EntriesOf(gs)) ==> e.key.sequence <= last
  {
    LoggedSequencesAscend(gs);
    hide SequencesAscend, EntriesOf;
  }

  lemma LastCovers(db: Db, i: nat, k1: nat, k2: nat)
    requires Joined(db) && MayBeFound(db, i) && Cuts(db, k1, k2)
    requires StartsPositive(Replayed(db, i, k1, k2))
    ensures Recovery.Max(db.saved[i].st.lastSequence, Recovery.LastUsed(Replayed(db, i, k1, k2))) < MAX_SEQUENCE_NUMBER
    ensures forall e :: e in ToSet(EntriesOf(TablesOf(db, i))) + ToSet(EntriesOf(Replayed(db, i, k1, k2))) ==>
      e.key.sequence <= Recovery.Max(db.saved[i].st.lastSequence, Recovery.LastUsed(Replayed(db, i, k1, k2)))
  {
    hide Inv, EntriesOf, GroupCommit.InOrder, StartsPositive, UpTo, TablesOf, VersionFits, LogOf, ToSet, Store.ReadsAlike, Entries;
    FoundInOrder(db, i, k1, k2);
    var tables, read := TablesOf(db, i), Replayed(db, i, k1, k2);
    Recovery.PartsInOrder(tables, read);
    EntriesUpTo(tables, db.saved[i].st.lastSequence);
    ReadUpTo(db, i, k1, k2);
  }

  lemma ReadUpTo(db: Db, i: nat, k1: nat, k2: nat)
    requires Inv(db.s) && Cuts(db, k1, k2) && StartsPositive(Replayed(db, i, k1, k2)) && GroupCommit.InOrder(Replayed(db, i, k1, k2))
    ensures Recovery.LastUsed(Replayed(db, i, k1, k2)) < MAX_SEQUENCE_NUMBER
    ensures forall e :: e in ToSet(EntriesOf(Replayed(db, i, k1, k2))) ==> e.key.sequence <= Recovery.LastUsed(Replayed(db, i, k1, k2))
  {
    hide Inv, EntriesOf, GroupCommit.InOrder, LogOf;
    Recovery.GroupsLoggable(db.s);
    Recovery.NothingBeyond(Replayed(db, i, k1, k2));
  }

  // ---------------------------------------------------------------------------- the logs

  /** Log files by number. Besides the two logs there may be older ones that were not removed yet. A crash leaves a
      prefix of each log that holds at least what was synced. */
  ghost predicate LeftOnDisk(db: Db, sum: Checksum, dir: map<nat, Slice>) {
    && Marks(db.s) && db.newNumber in dir && (db.s.imm.Some? ==> db.oldNumber in dir)
    && (forall n :: n in dir ==> 0 < n && (n < FirstLog(db) || n == FirstLog(db) || n == db.newNumber))
    && Recovery.LeftByCrash(sum, dir[db.newNumber], Recovery.NewGroups(db.s), db.s.logSynced - db.s.logStart)
    && (db.s.imm.Some? ==> Recovery.LeftByCrash(sum, dir[db.oldNumber], Recovery.OldGroups(db.s), Recovery.OldSynced(db.s)))
  }

  /** No byte of the logs was lost. */
  ghost predicate WholeLogs(db: Db, sum: Checksum, dir: map<nat, Slice>)
    requires LeftOnDisk(db, sum, dir)
  {
    && dir[db.newNumber] == Recovery.LogBytes(sum, Recovery.NewGroups(db.s))
    && (db.s.imm.Some? ==> dir[db.oldNumber] == Recovery.LogBytes(sum, Recovery.OldGroups(db.s)))
  }

  /** The log files from a number on, or with the number of the previous log, in order. */
  ghost predicate Picked(dir: map<nat, Slice>, minLog: nat, prevLog: nat, logs: seq<nat>) {
    && (forall i, j :: 0 <= i < j < |logs| ==> logs[i] < logs[j])
    && forall n :: n in logs <==> n in dir && (n >= minLog || n == prevLog)
  }

  ghost predicate InDir(dir: map<nat, Slice>, logs: seq<nat>) { forall n :: n in logs ==> n in dir }

  /** Replaying logs one after the other, until one of them fails. */
  function ReplayAll(sum: Checksum, dir: map<nat, Slice>, logs: seq<nat>, paranoid: bool, max: nat): Recovery.Recovered
    requires InDir(dir, logs)
    decreases |logs|
  {
    if logs == [] then Recovery.Recovered([], max, true)
    else
      var r := Recovery.Replay(sum, dir[logs[0]], 0, paranoid, max);
      if !r.ok then r
      else
        var rest := ReplayAll(sum, dir, logs[1..], paranoid, r.maxSequence);
        Recovery.Recovered(r.entries + rest.entries, rest.maxSequence, rest.ok)
  }

  /** Recovery picks the current log, and that of the memtable being flushed unless the state found has it. */
  lemma PickedLogs(db: Db, i: nat, sum: Checksum, dir: map<nat, Slice>, logs: seq<nat>)
    requires Joined(db) && MayBeFound(db, i) && LeftOnDisk(db, sum, dir)
    requires Picked(dir, db.saved[i].st.logNumber, db.saved[i].st.prevLogNumber, logs)
    ensures logs == if LogOf(db, i) == db.newNumber then [db.newNumber] else [db.oldNumber, db.newNumber]
    ensures LogOf(db, i) != db.newNumber ==> db.s.imm.Some? && LogOf(db, i) == db.oldNumber
    ensures InDir(dir, logs)
  {
    hide Inv, Marks, VersionFits, Recovery.LeftByCrash, Store.ReadsAlike, UpTo;
    assert Tells(db.saved[i], TablesOf(db, i), db.s.lastSequence) by { JoinedParts(db); }
    var low := LogOf(db, i);
    assert forall n :: n in logs <==> n == low || n == db.newNumber;
    OneOrTwo(logs, low, db.newNumber);
  }

  lemma OneOrTwo(logs: seq<nat>, a: nat, b: nat)
    requires (forall i, j :: 0 <= i < j < |logs| ==> logs[i] < logs[j]) && a <= b
    requires forall n :: n in logs <==> n == a || n == b
    ensures logs == if a == b then [b] else [a, b]
  {
    assert a in logs && b in logs;
    var i :| 0 <= i < |logs| && logs[i] == a;
    var j :| 0 <= j < |logs| && logs[j] == b;
    var last := |logs| - 1;
    assert logs[0] in logs && logs[last] in logs;
    assert logs[0] <= logs[i] && logs[j] <= logs[last];
    assert |logs| > 1 ==> logs[1] in logs;
  }

  lemma OneLog(sum: Checksum, dir: map<nat, Slice>, n: nat, paranoid: bool, max: nat)
    requires n in dir
    ensures ReplayAll(sum, dir, [n], paranoid, max) == Recovery.Replay(sum, dir[n], 0, paranoid, max)
  {
    hide Recovery.Replay;
    var r := Recovery.Replay(sum, dir[n], 0, paranoid, max);
    assert [n][1..] == [] && r.entries + [] == r.entries;
  }

  lemma TwoLogs(sum: Checksum, dir: map<nat, Slice>, m: nat, n: nat, paranoid: bool, max: nat)
    requires m in dir && n in dir && Recovery.Replay(sum, dir[m], 0, paranoid, max).ok
    ensures var r := Recovery.Replay(sum, dir[m], 0, paranoid, max);
      var q := Recovery.Replay(sum, dir[n], 0, paranoid, r.maxSequence);
      ReplayAll(sum, dir, [m, n], paranoid, max) == Recovery.Recovered(r.entries + q.entries, q.maxSequence, q.ok)
  {
    hide Recovery.Replay;
    assert [m, n][1..] == [n];
    OneLog(sum, dir, n, paranoid, Recovery.Replay(sum, dir[m], 0, paranoid, max).maxSequence);
  }

  /** Enough of each log is found for what was synced to it. */
  ghost predicate Synced(db: Db, k1: nat, k2: nat)
    requires Marks(db.s)
  {
    Recovery.OldSynced(db.s) <= k1 && db.s.logSynced - db.s.logStart <= k2
  }

  /** Both parts that are read, by themselves. */
  lemma PartsFound(db: Db, i: nat, k1: nat, k2: nat)
    requires Joined(db) && Cuts(db, k1, k2)
    ensures var a, b := OldFound(db, i, k1), NewFound(db, k2);
      && StartsPositive(a) && StartsPositive(b) && StartsPositive(a + b) && EntriesOf(a + b) == EntriesOf(a) + EntriesOf(b)
      && Recovery.MaxOf(b, Recovery.MaxOf(a, 0)) == Recovery.LastUsed(a + b) && Replayed(db, i, k1, k2) == a + b
  {
    FoundInOrder(db, i, k1, k2);
    hide Joined, Cuts, OldFound, EntriesOf, GroupCommit.InOrder, StartsPositive;
    var a, b := OldFound(db, i, k1), NewFound(db, k2);
    Recovery.LastOfBoth(a, b);
    EntriesOfAppend(a, b);
  }

  lemma NewLogReplay(db: Db, i: nat, sum: Checksum, dir: map<nat, Slice>, paranoid: bool) returns (k2: nat)
    requires Joined(db) && LeftOnDisk(db, sum, dir) && LogOf(db, i) == db.newNumber && Recovery.Loggable(Recovery.NewGroups(db.s))
    ensures Cuts(db, |Recovery.OldGroups(db.s)|, k2) && db.s.logSynced - db.s.logStart <= k2
    ensures WholeLogs(db, sum, dir) ==> k2 == |Recovery.NewGroups(db.s)|
    ensures StartsPositive(Replayed(db, i, |Recovery.OldGroups(db.s)|, k2))
    ensures ReplayAll(sum, dir, [db.newNumber], paranoid, 0)
      == Recovery.Recovered(EntriesOf(Replayed(db, i, |Recovery.OldGroups(db.s)|, k2)),
                            Recovery.LastUsed(Replayed(db, i, |Recovery.OldGroups(db.s)|, k2)), true)
  {
    hide Joined, Recovery.Replay, Recovery.LeftByCrash, LogOf, EntriesOf, Recovery.Loggable, StartsPositive, Recovery.LastUsed, ReplayAll,
      Recovery.OldGroups, Recovery.NewGroups, Replayed;
    k2 := Recovery.RecoverOneLog(sum, dir[db.newNumber], Recovery.NewGroups(db.s), db.s.logSynced - db.s.logStart, paranoid, 0);
    PartsFound(db, i, |Recovery.OldGroups(db.s)|, k2);
    NoMax();
    OneLog(sum, dir, db.newNumber, paranoid, 0);
    assert [] + EntriesOf(Recovery.NewGroups(db.s)[..k2]) == EntriesOf(Recovery.NewGroups(db.s)[..k2]);
  }

  lemma NoMax()
    ensures StartsPositive([]) && Recovery.MaxOf([], 0) == 0 && EntriesOf([]) == []
  {
  }

  lemma BothLogsReplay(db: Db, i: nat, sum: Checksum, dir: map<nat, Slice>, paranoid: bool) returns (k1: nat, k2: nat)
    requires Joined(db) && LeftOnDisk(db, sum, dir) && LogOf(db, i) != db.newNumber && db.s.imm.Some?
    requires Recovery.Loggable(Recovery.NewGroups(db.s)) && Recovery.Loggable(Recovery.OldGroups(db.s))
    ensures Cuts(db, k1, k2) && Synced(db, k1, k2) && StartsPositive(Replayed(db, i, k1, k2))
    ensures WholeLogs(db, sum, dir) ==> k1 == |Recovery.OldGroups(db.s)| && k2 == |Recovery.NewGroups(db.s)|
    ensures ReplayAll(sum, dir, [db.oldNumber, db.newNumber], paranoid, 0)
      == Recovery.Recovered(EntriesOf(Replayed(db, i, k1, k2)), Recovery.LastUsed(Replayed(db, i, k1, k2)), true)
  {
    hide Joined, Recovery.Replay, Recovery.LeftByCrash, LogOf, EntriesOf, Recovery.Loggable, StartsPositive, Recovery.LastUsed, ReplayAll,
      Recovery.OldGroups, Recovery.NewGroups, Recovery.OldSynced, Replayed;
    k1 := Recovery.RecoverOneLog(sum, dir[db.oldNumber], Recovery.OldGroups(db.s), Recovery.OldSynced(db.s), paranoid, 0);
    var max := Recovery.Replay(sum, dir[db.oldNumber], 0, paranoid, 0).maxSequence;
    k2 := Recovery.RecoverOneLog(sum, dir[db.newNumber], Recovery.NewGroups(db.s), db.s.logSynced - db.s.logStart, paranoid, max);
    PartsFound(db, i, k1, k2);
    TwoLogs(sum, dir, db.oldNumber, db.newNumber, paranoid, 0);
  }

  /** Replaying the logs picked finds a prefix of each, without an error, and the largest sequence number is that of the
      last group read. */
  lemma LogsReplay(db: Db, i: nat, sum: Checksum, dir: map<nat, Slice>, logs: seq<nat>, paranoid: bool) returns (k1: nat, k2: nat)
    requires Joined(db) && MayBeFound(db, i) && LeftOnDisk(db, sum, dir)
    requires Picked(dir, db.saved[i].st.logNumber, db.saved[i].st.prevLogNumber, logs)
    ensures Cuts(db, k1, k2) && Synced(db, k1, k2) && InDir(dir, logs) && StartsPositive(Replayed(db, i, k1, k2))
    ensures WholeLogs(db, sum, dir) ==> k1 == |Recovery.OldGroups(db.s)| && k2 == |Recovery.NewGroups(db.s)|
    ensures ReplayAll(sum, dir, logs, paranoid, 0)
      == Recovery.Recovered(EntriesOf(Replayed(db, i, k1, k2)), Recovery.LastUsed(Replayed(db, i, k1, k2)), true)
  {
    PickedLogs(db, i, sum, dir, logs);
    JoinedParts(db);
    hide Joined, Inv, Picked, LeftOnDisk, WholeLogs, LogOf, EntriesOf, Recovery.Loggable, StartsPositive, ReplayAll, Replayed, Cuts, Synced;
    Recovery.GroupsLoggable(db.s);
    if LogOf(db, i) == db.newNumber {
      k1 := |Recovery.OldGroups(db.s)|;
      k2 := NewLogReplay(db, i, sum, dir, paranoid);
      AllOldSynced(db, k2);
    } else {
      k1, k2 := BothLogsReplay(db, i, sum, dir, paranoid);
    }
  }

  lemma AllOldSynced(db: Db, k2: nat)
    requires Marks(db.s) && db.s.logSynced - db.s.logStart <= k2
    ensures Synced(db, |Recovery.OldGroups(db.s)|, k2)
  {
  }

  lemma InPart(x: seq<Group>, all: seq<Group>, at: nat, id: nat)
    requires at + |x| <= |all| && x == all[at..at + |x|]
    ensures Recovery.InLog(x, id) ==> Recovery.InLog(all, id)
  {
    if i :| 0 <= i < |x| && GroupCommit.Covers(x[i], id) {
      assert all[at + i] == x[i];
    }
  }

  /** Either the tables hold what is in the log of the memtable being flushed, or that log is read. */
  lemma WhichTables(db: Db, i: nat, k1: nat)
    requires Joined(db)
    ensures Marks(db.s)
    ensures k1 <= |Recovery.OldGroups(db.s)| ==>
      if LogOf(db, i) == db.newNumber then TablesOf(db, i) == db.s.logged[..db.s.logStart] && OldFound(db, i, k1) == []
      else db.s.imm.Some? && TablesOf(db, i) == db.s.logged[..db.s.immStart] && OldFound(db, i, k1) == Recovery.OldGroups(db.s)[..k1]
  {
    JoinedParts(db);
    hide Joined, Inv;
  }

  /** Writes acknowledged after a sync are found. */
  lemma SyncedIsFound(db: Db, i: nat, k1: nat, k2: nat, id: nat)
    requires Joined(db) && Cuts(db, k1, k2) && Synced(db, k1, k2) && Recovery.AcknowledgedSync(db.s, id)
    ensures Recovery.InLog(Found(db, i, k1, k2), id)
  {
    hide *;
    var tables, before, after := FoundParts(db, i, k1, k2);
    SyncedInPart(db, i, k1, k2, id, tables, before, after);
    InWhole(tables, before, after, id);
  }

  lemma SyncedInPart(db: Db, i: nat, k1: nat, k2: nat, id: nat, tables: seq<Group>, before: seq<Group>, after: seq<Group>)
    requires Joined(db) && Cuts(db, k1, k2) && Synced(db, k1, k2) && Recovery.AcknowledgedSync(db.s, id)
    requires tables == TablesOf(db, i) && before == OldFound(db, i, k1) && after == NewFound(db, k2)
    ensures Recovery.InLog(tables, id) || Recovery.InLog(before, id) || Recovery.InLog(after, id)
  {
    hide *;
    CutsFit(db, k1, k2);
    SyncedWhere(db, k1, k2, id);
    if LogOf(db, i) == db.newNumber {
      FlushedInTables(db, i, k1, id);
    } else {
      OldLogIsRead(db, i, k1);
    }
  }

  lemma CutsFit(db: Db, k1: nat, k2: nat)
    requires Cuts(db, k1, k2)
    ensures Marks(db.s) && k1 <= |Recovery.OldGroups(db.s)| && k2 <= |Recovery.NewGroups(db.s)|
  {
  }

  lemma SyncedWhere(db: Db, k1: nat, k2: nat, id: nat)
    requires Joined(db) && Cuts(db, k1, k2) && Synced(db, k1, k2) && Recovery.AcknowledgedSync(db.s, id)
    ensures Flushed(db.s) <= |db.s.logged|
    ensures Recovery.InLog(db.s.logged[..Flushed(db.s)], id) || Recovery.InLog(Recovery.OldGroups(db.s)[..k1], id)
      || Recovery.InLog(NewFound(db, k2), id)
  {
    JoinedParts(db);
    hide Joined, Inv, Recovery.AcknowledgedSync, Recovery.InLog;
    Recovery.SyncedIsRecovered(db.s, k1, k2, id);
  }

  lemma FlushedInTables(db: Db, i: nat, k1: nat, id: nat)
    requires Joined(db) && Marks(db.s) && k1 <= |Recovery.OldGroups(db.s)| && LogOf(db, i) == db.newNumber
    ensures Recovery.InLog(db.s.logged[..Flushed(db.s)], id) ==> Recovery.InLog(TablesOf(db, i), id)
    ensures Recovery.InLog(Recovery.OldGroups(db.s)[..k1], id) ==> Recovery.InLog(TablesOf(db, i), id)
  {
    hide *;
    WhichTables(db, i, k1);
    OldInTables(db.s, k1, id);
  }

  lemma OldLogIsRead(db: Db, i: nat, k1: nat)
    requires Joined(db) && Marks(db.s) && k1 <= |Recovery.OldGroups(db.s)| && LogOf(db, i) != db.newNumber
    ensures TablesOf(db, i) == db.s.logged[..Flushed(db.s)] && OldFound(db, i, k1) == Recovery.OldGroups(db.s)[..k1]
  {
    WhichTables(db, i, k1);
    hide Joined, TablesOf, OldFound, LogOf;
  }

  lemma OldInTables(s: State, k1: nat, id: nat)
    requires Marks(s) && k1 <= |Recovery.OldGroups(s)|
    ensures Recovery.InLog(s.logged[..Flushed(s)], id) ==> Recovery.InLog(s.logged[..s.logStart], id)
    ensures Recovery.InLog(Recovery.OldGroups(s)[..k1], id) ==> Recovery.InLog(s.logged[..s.logStart], id)
  {
    hide Recovery.InLog;
    SliceInPrefix(s.logged, 0, Flushed(s), Flushed(s), s.logStart, id);
    if s.imm.Some? {
      SliceInPrefix(s.logged, s.immStart, s.logStart, k1, s.logStart, id);
    } else {
      SliceInPrefix(s.logged, 0, 0, 0, s.logStart, id);
    }
  }

  lemma SliceInPrefix(logged: seq<Group>, a: nat, b: nat, n: nat, end: nat, id: nat)
    requires a <= b <= end <= |logged| && n <= b - a
    ensures Recovery.InLog(logged[a..b][..n], id) ==> Recovery.InLog(logged[..end], id)
    ensures a == 0 ==> logged[a..b][..n] == logged[..n]
  {
    if i :| 0 <= i < n && GroupCommit.Covers(logged[a..b][..n][i], id) {
      assert logged[..end][a + i] == logged[a..b][..n][i];
    }
  }

  lemma InWhole(x: seq<Group>, y: seq<Group>, z: seq<Group>, id: nat)
    ensures Recovery.InLog(x, id) || Recovery.InLog(y, id) || Recovery.InLog(z, id) ==> Recovery.InLog(x + (y + z), id)
  {
    hide Recovery.InLog;
    InPart(x, x + (y + z), 0, id);
    InPart(y, x + (y + z), |x|, id);
    InPart(z, x + (y + z), |x| + |y|, id);
  }

  /** When all of both logs is read, everything ever logged is found. */
  lemma AllFound(db: Db, i: nat)
    requires Joined(db)
    ensures Marks(db.s) && Found(db, i, |Recovery.OldGroups(db.s)|, |Recovery.NewGroups(db.s)|) == db.s.logged
  {
    WhichTables(db, i, |Recovery.OldGroups(db.s)|);
    hide Joined, TablesOf, OldFound, LogOf;
    WholeIs(db.s.logged, db.s.immStart, db.s.logStart);
  }

  lemma WholeIs<T>(s: seq<T>, a: nat, b: nat)
    requires a <= b <= |s|
    ensures s[..a] + (s[a..b][..|s[a..b]|] + s[b..][..|s[b..]|]) == s && s[..b] + ([] + s[b..][..|s[b..]|]) == s
  {
  }

  // ------------------------------------------------------------------------- opening

  method Least(numbers: set<nat>) returns (n: nat)
    requires numbers != {}
    ensures n in numbers && forall m :: m in numbers ==> n <= m
  {
    n :| n in numbers;
    var rest := numbers - {n};
    while rest != {}
      invariant n in numbers && rest <= numbers && forall m :: m in numbers ==> m in rest || n <= m
      decreases |rest|
    {
      var m :| m in rest;
      rest := rest - {m};
      if m < n {
        n := m;
      }
    }
  }

  /** The logs to replay: none before the one that the MANIFEST names, in the order in which they were made. */
  method PickLogs(dir: map<nat, Slice>, minLog: nat, prevLog: nat) returns (logs: seq<nat>)
    ensures Picked(dir, minLog, prevLog, logs)
  {
    logs := [];
    var rest := set n | n in dir && (n >= minLog || n == prevLog);
    while rest != {}
      invariant forall i, j :: 0 <= i < j < |logs| ==> logs[i] < logs[j]
      invariant forall n :: n in logs || n in rest <==> n in dir && (n >= minLog || n == prevLog)
      invariant forall n, m :: n in logs && m in rest ==> n < m
      decreases |rest|
    {
      var n := Least(rest);
      assert forall i :: 0 <= i < |logs| ==> logs[i] in logs;
      logs, rest := logs + [n], rest - {n};
    }
  }

  /** Replays logs in order; the entries of all of them, and the largest sequence number. */
  method ReplayLogs(sum: Checksum, dir: map<nat, Slice>, logs: seq<nat>, paranoid: bool, full: seq<Entry> -> bool)
    returns (entries: seq<Entry>, max: nat, ok: bool)
    requires InDir(dir, logs)
    ensures Recovery.Recovered(entries, max, ok) == ReplayAll(sum, dir, logs, paranoid, 0)
  {
    hide Recovery.Replay, Recovery.Flatten, ReplayAll;
    entries, max, ok := [], 0, true;
    ghost var goal := ReplayAll(sum, dir, logs, paranoid, 0);
    assert logs[0..] == logs && Recovery.After([], goal) == goal;
    for i := 0 to |logs|
      invariant ok && goal == Recovery.After(entries, ReplayAll(sum, dir, logs[i..], paranoid, max))
    {
      assert logs[i] in logs;
      ReplayNext(sum, dir, logs, i, paranoid, max, entries);
      var reader := new Log.Reader(sum, dir[logs[i]]);
      var tables, mem;
      tables, mem, max, ok := Recovery.RecoverLogFile(reader, paranoid, full, max);
      entries := entries + (Recovery.Flatten(tables) + mem);
      if !ok {
        return;
      }
    }
    NoLogs(sum, dir, logs, paranoid, max, entries);
  }

  lemma ReplayNext(sum: Checksum, dir: map<nat, Slice>, logs: seq<nat>, i: nat, paranoid: bool, max: nat, entries: seq<Entry>)
    requires InDir(dir, logs) && i < |logs|
    ensures InDir(dir, logs[i..]) && InDir(dir, logs[i + 1..]) && logs[i] in dir
    ensures var r := Recovery.Replay(sum, dir[logs[i]], 0, paranoid, max);
      Recovery.After(entries, ReplayAll(sum, dir, logs[i..], paranoid, max)) ==
        if !r.ok then Recovery.Recovered(entries + r.entries, r.maxSequence, false)
        else Recovery.After(entries + r.entries, ReplayAll(sum, dir, logs[i + 1..], paranoid, r.maxSequence))
  {
    hide Recovery.Replay;
    assert logs[i] in logs && logs[i..][1..] == logs[i + 1..];
    var r := Recovery.Replay(sum, dir[logs[i]], 0, paranoid, max);
    if r.ok {
      var rest := ReplayAll(sum, dir, logs[i + 1..], paranoid, r.maxSequence).entries;
      assert entries + (r.entries + rest) == entries + r.entries + rest;
    }
  }

  lemma NoLogs(sum: Checksum, dir: map<nat, Slice>, logs: seq<nat>, paranoid: bool, max: nat, entries: seq<Entry>)
    requires InDir(dir, logs)
    ensures Recovery.After(entries, ReplayAll(sum, dir, logs[|logs|..], paranoid, max)) == Recovery.Recovered(entries, max, true)
  {
    assert logs[|logs|..] == [];
  }

  /** The memtable that holds these entries. */
  function MemOf(es: seq<Entry>): seq<Entry> {
    if es == [] then [] else Store.Insert(MemOf(es[..|es| - 1]), es[|es| - 1])
  }

  lemma {:induction false} MemIsSorted(es: seq<Entry>)
    requires SequencesAscend(es)
    ensures Sorted(MemOf(es)) && ToSet(MemOf(es)) == ToSet(es)
  {
    hide Store.Insert, SequencesAscend, Sorted, ToSet;
    if es != [] {
      var front, e := es[..|es| - 1], es[|es| - 1];
      LastIsNewest(es, front, e);
      MemIsSorted(front);
      OlderMembers(MemOf(front), ToSet(front), e);
      Store.InsertSorts(MemOf(front), e);
      Store.InsertMembers(MemOf(front), e);
    } else {
      Store.NoEntries();
      NothingIsSorted();
    }
  }

  lemma NothingIsSorted()
    ensures Sorted([])
  {
  }

  lemma LastIsNewest(es: seq<Entry>, front: seq<Entry>, e: Entry)
    requires SequencesAscend(es) && es != [] && front == es[..|es| - 1] && e == es[|es| - 1]
    ensures SequencesAscend(front) && ToSet(es) == ToSet(front) + {e}
    ensures forall x :: x in ToSet(front) ==> x.key.sequence < e.key.sequence
  {
    assert es == front + [e];
  }

  lemma OlderMembers(mem: seq<Entry>, entries: set<Entry>, e: Entry)
    requires ToSet(mem) == entries && forall x :: x in entries ==> x.key.sequence < e.key.sequence
    ensures forall x :: x in mem ==> x.key.sequence < e.key.sequence
  {
    assert forall x :: x in mem ==> x in ToSet(mem);
  }

  /** No number of a log that was found is given out again. */
  method MarkFileNumbersUsed(nextFile: nat, numbers: seq<nat>) returns (next: nat)
    ensures nextFile <= next && forall n :: n in numbers ==> n < next
    ensures next == nextFile || exists n :: n in numbers && next == n + 1
  {
    next := nextFile;
    for i := 0 to |numbers|
      invariant nextFile <= next && forall j :: 0 <= j < i ==> numbers[j] < next
      invariant next == nextFile || exists n :: n in numbers && next == n + 1
    {
      assert numbers[i] in numbers;
      if next <= numbers[i] {
        next := numbers[i] + 1;
      }
    }
  }

  lemma PickedAreThere(dir: map<nat, Slice>, minLog: nat, prevLog: nat, logs: seq<nat>)
    requires Picked(dir, minLog, prevLog, logs)
    ensures InDir(dir, logs)
  {
  }

  /** DBImpl::Recover: the version and the numbers from the MANIFEST, then the logs from the recovered log number on. */
  method Open(env: ManifestFile.Env, manifest: Slice, dir: map<nat, Slice>, paranoid: bool, full: seq<Entry> -> bool,
              maxFileSize: nat, sizeOf: seq<Entry> -> nat)
    returns (db: Store.DB?, ghost st: ManifestFile.VersionState, ghost logs: seq<nat>)
    requires ManifestFile.EnvOk(env)
    ensures db != null ==> fresh(db)
    ensures db != null ==> ManifestFile.Recoverable(env, ReadAll(env.sum, manifest, 0).0, ReadAll(env.sum, manifest, 0).1)
    ensures ManifestFile.Recoverable(env, ReadAll(env.sum, manifest, 0).0, ReadAll(env.sum, manifest, 0).1) ==>
      && ManifestFile.Says(env, ReadAll(env.sum, manifest, 0).0, st) && Picked(dir, st.logNumber, st.prevLogNumber, logs) && InDir(dir, logs)
      && (db != null <==> ReplayAll(env.sum, dir, logs, paranoid, 0).ok)
    ensures db != null ==>
      && db.mem == MemOf(ReplayAll(env.sum, dir, logs, paranoid, 0).entries) && db.imm == None && db.current == st.version && db.snapshots == []
      && db.lastSequence == Recovery.Max(st.lastSequence, ReplayAll(env.sum, dir, logs, paranoid, 0).maxSequence) && st.nextFile < db.nextFile
      && forall n :: n in logs ==> n < db.nextFile
  {
    hide ManifestFile.EnvOk, ReadAll, ManifestFile.Recoverable, ManifestFile.Says, ManifestFile.NumbersFit, ReplayAll, MemOf,
      ManifestFile.AllStored, ManifestFile.Written, Picked, InDir, ManifestFile.VersionSet.Valid, Store.DB.Valid, Store.DB.Sound,
      UserSeparate;
    var vs := new ManifestFile.VersionSet(env);
    var ok := vs.Recover(manifest);
    st := ManifestFile.VersionState(EMPTY_VERSION, 0, 0, 0, 0, []);
    logs := [];
    if !ok {
      return null, st, logs;
    }
    st := ManifestFile.Recovered(vs);
    var numbers := PickLogs(dir, vs.logNumber, vs.prevLogNumber);
    logs := numbers;
    PickedAreThere(dir, st.logNumber, st.prevLogNumber, numbers);
    var entries, max;
    entries, max, ok := ReplayLogs(env.sum, dir, numbers, paranoid, full);
    if !ok {
      return null, st, logs;
    }
    var next := MarkFileNumbersUsed(vs.nextFile, numbers);
    db := new Store.DB(maxFileSize, sizeOf);
    db.mem, db.current, db.nextFile := MemOf(entries), vs.current, next;
    db.lastSequence := if vs.lastSequence < max then max else vs.lastSequence;
  }

  /** The MANIFEST of the machine's database. */
  ghost predicate Keeps(vs: ManifestFile.VersionSet, db: Db)
    reads vs
  {
    |vs.saved| == |db.saved| && forall i :: 0 <= i < |db.saved| ==> vs.saved[i] == db.saved[i].st
  }

  /** What a cut MANIFEST says: a state that may be found. */
  lemma CutSays(env: ManifestFile.Env, records: seq<Slice>, saved: seq<ManifestFile.VersionState>, cut: nat, j: nat)
    requires ManifestFile.Written(env, records, saved) && cut <= |LayoutAll(env.sum, 0, records)|
    requires 2 <= j <= |records| && |LayoutAll(env.sum, 0, records[..j])| <= cut
    ensures var file := LayoutAll(env.sum, 0, records)[..cut];
      var k := Survivors(env.sum, 0, records, cut);
      && j <= k <= |records| == |saved| + 1 && ReadAll(env.sum, file, 0) == (records[..k], [])
      && ManifestFile.Recoverable(env, records[..k], []) && ManifestFile.Says(env, records[..k], saved[k - 2])
  {
    hide ManifestFile.Written, ManifestFile.Recoverable, ManifestFile.Says, LayoutAll, Survivors, ReadAll;
    var file := LayoutAll(env.sum, 0, records)[..cut];
    assert LogFormat.Holds(file, 0, LayoutAll(env.sum, 0, records));
    TruncatedLogReadsBack(env.sum, file, 0, records);
    SurvivorsAtLeast(env.sum, 0, records, j, cut);
    ManifestFile.PrefixRecoverable(env, records, saved, Survivors(env.sum, 0, records, cut));
  }

  /** The store answers every key, at its last sequence number, like its whole history does. */
  ghost predicate AnswersHistory(db: Store.DB)
    reads db
  {
    && (forall k :: Read(Store.All(db.mem, db.Imm(), db.current), k, db.lastSequence) == Read(db.history, k, db.lastSequence))
    && forall e :: e in db.history ==> e.key.sequence <= db.lastSequence
  }

  /** Every write that was acknowledged after a sync is in these groups. */
  ghost predicate HoldsSynced(s: State, gs: seq<Group>) {
    forall id :: Recovery.AcknowledgedSync(s, id) ==> Recovery.InLog(gs, id)
  }

  /** The MANIFEST part: the state found is one that the MANIFEST of the version set held. */
  method OpenCut(vs: ManifestFile.VersionSet, cut: nat, dir: map<nat, Slice>, paranoid: bool, full: seq<Entry> -> bool,
                 maxFileSize: nat, sizeOf: seq<Entry> -> nat, ghost j: nat)
    returns (db: Store.DB?, ghost i: nat, ghost logs: seq<nat>)
    requires vs.Valid() && vs.descriptor != null && cut <= |vs.descriptor.dest|
    requires 2 <= j <= |vs.records| && |LayoutAll(vs.env.sum, 0, vs.records[..j])| <= cut
    ensures db != null ==> fresh(db)
    ensures |vs.records| == |vs.saved| + 1 && j - 2 <= i < |vs.saved|
    ensures Picked(dir, vs.saved[i].logNumber, vs.saved[i].prevLogNumber, logs) && InDir(dir, logs)
    ensures db != null <==> ReplayAll(vs.env.sum, dir, logs, paranoid, 0).ok
    ensures db != null ==>
      && db.mem == MemOf(ReplayAll(vs.env.sum, dir, logs, paranoid, 0).entries) && db.imm == None && db.snapshots == []
      && db.current == vs.saved[i].version && vs.saved[i].nextFile < db.nextFile
      && db.lastSequence == Recovery.Max(vs.saved[i].lastSequence, ReplayAll(vs.env.sum, dir, logs, paranoid, 0).maxSequence)
  {
    hide ManifestFile.EnvOk, ManifestFile.Written, ManifestFile.AllStored, ManifestFile.Says, ManifestFile.Recoverable, ManifestFile.PointersFit,
      LayoutAll, Survivors, ReadAll, Picked, InDir, ReplayAll, MemOf;
    CutSays(vs.env, vs.records, vs.saved, cut, j);
    ghost var st;
    db, st, logs := Open(vs.env, vs.descriptor.dest[..cut], dir, paranoid, full, maxFileSize, sizeOf);
    i := Survivors(vs.env.sum, 0, vs.records, cut) - 2;
    ManifestFile.SaysOneThing(vs.env, vs.records[..i + 2], st, vs.saved[i]);
  }

  /** With the logs: the store opened is valid for the history found. */
  method OpenBoth(vs: ManifestFile.VersionSet, cut: nat, dir: map<nat, Slice>, paranoid: bool, full: seq<Entry> -> bool,
                  maxFileSize: nat, sizeOf: seq<Entry> -> nat, ghost m: Db)
    returns (db: Store.DB, ghost i: nat, ghost k1: nat, ghost k2: nat)
    requires Joined(m) && Keeps(vs, m) && LeftOnDisk(m, vs.env.sum, dir)
    requires vs.Valid() && vs.descriptor != null && cut <= |vs.descriptor.dest| && OnDisk(m) + 1 <= |vs.records|
    requires OnDisk(m) >= 1 && |LayoutAll(vs.env.sum, 0, vs.records[..OnDisk(m) + 1])| <= cut
    ensures fresh(db) && MayBeFound(m, i) && Cuts(m, k1, k2) && Synced(m, k1, k2)
    ensures WholeLogs(m, vs.env.sum, dir) ==> k1 == |Recovery.OldGroups(m.s)| && k2 == |Recovery.NewGroups(m.s)|
    ensures db.Valid() && db.history == ToSet(EntriesOf(Found(m, i, k1, k2)))
  {
    hide *;
    var store: Store.DB?;
    ghost var logs;
    store, i, logs := OpenCut(vs, cut, dir, paranoid, full, maxFileSize, sizeOf, OnDisk(m) + 1);
    KeptState(vs, m, i);
    k1, k2 := LogsReplay(m, i, vs.env.sum, dir, logs, paranoid);
    db := store;
    db.history, db.floor := ToSet(EntriesOf(Found(m, i, k1, k2))), m.saved[i].floor;
    OpenedIsValid(db, m, i, k1, k2);
  }

  lemma KeptState(vs: ManifestFile.VersionSet, m: Db, i: nat)
    requires Keeps(vs, m) && OnDisk(m) - 1 <= i < |vs.saved|
    ensures i < |m.saved| && MayBeFound(m, i) && vs.saved[i] == m.saved[i].st
  {
  }

  lemma OpenedIsValid(db: Store.DB, m: Db, i: nat, k1: nat, k2: nat)
    requires Joined(m) && i < |m.saved| && MayBeFound(m, i) && Cuts(m, k1, k2) && StartsPositive(Replayed(m, i, k1, k2))
    requires db.mem == MemOf(EntriesOf(Replayed(m, i, k1, k2))) && db.imm == None && db.current == m.saved[i].st.version && db.snapshots == []
    requires m.saved[i].st.nextFile < db.nextFile && db.floor == m.saved[i].floor && db.history == ToSet(EntriesOf(Found(m, i, k1, k2)))
    requires db.lastSequence == Recovery.Max(m.saved[i].st.lastSequence, Recovery.LastUsed(Replayed(m, i, k1, k2)))
    ensures db.Valid()
  {
    hide Joined, MayBeFound, Cuts, StartsPositive, MemOf, EntriesOf, Found, Replayed, Recovery.LastUsed, ToSet, Sorted, Aged, Store.StoreOk,
      Store.ReadsAlike, Store.All;
    MemHolds(m, i, k1, k2);
    ReopenedIsValid(m, i, k1, k2, db.mem, db.nextFile);
  }

  /** Opening after a crash. Take any state of any run, any cut of the MANIFEST behind what is certain to be on disk, and
      any cut of the logs behind what was synced. The database opens; the store is valid, and its history, which it reads
      like at its last sequence number, is exactly what the tables of the state found and the groups found in the logs
      hold: every write that was acknowledged after a sync, and everything when no byte of the logs was lost. */
  method OpenAfterCrash(vs: ManifestFile.VersionSet, cut: nat, dir: map<nat, Slice>, paranoid: bool, full: seq<Entry> -> bool,
                        maxFileSize: nat, sizeOf: seq<Entry> -> nat, ghost run: seq<Db>, ghost steps: seq<Step>, ghost t: nat)
    returns (db: Store.DB, ghost i: nat, ghost k1: nat, ghost k2: nat)
    requires IsDbRun(run, steps) && t < |run| && Keeps(vs, run[t]) && LeftOnDisk(run[t], vs.env.sum, dir)
    requires vs.Valid() && vs.descriptor != null && cut <= |vs.descriptor.dest| && OnDisk(run[t]) + 1 <= |vs.records|
    requires |LayoutAll(vs.env.sum, 0, vs.records[..OnDisk(run[t]) + 1])| <= cut
    ensures fresh(db) && MayBeFound(run[t], i) && Cuts(run[t], k1, k2) && Synced(run[t], k1, k2)
    ensures db.Valid() && db.history == ToSet(EntriesOf(Found(run[t], i, k1, k2)))
    ensures AnswersHistory(db) && HoldsSynced(run[t].s, Found(run[t], i, k1, k2))
    ensures WholeLogs(run[t], vs.env.sum, dir) ==> Found(run[t], i, k1, k2) == run[t].s.logged
  {
    hide *;
    ghost var m := run[t];
    RunIsJoined(run, steps, t);
    db, i, k1, k2 := OpenBoth(vs, cut, dir, paranoid, full, maxFileSize, sizeOf, m);
    ReadsAtLast(db);
    SyncedAreFound(m, i, k1, k2);
    AllFound(m, i);
  }

  lemma RunIsJoined(run: seq<Db>, steps: seq<Step>, t: nat)
    requires IsDbRun(run, steps) && t < |run|
    ensures Joined(run[t]) && OnDisk(run[t]) >= 1
  {
    hide IsDbRun;
    RunKeepsJoined(run, steps, t);
  }

  lemma SyncedAreFound(db: Db, i: nat, k1: nat, k2: nat)
    requires Joined(db) && Cuts(db, k1, k2) && Synced(db, k1, k2)
    ensures HoldsSynced(db.s, Found(db, i, k1, k2))
  {
    hide Joined, Cuts, Synced, Found, Recovery.AcknowledgedSync, Recovery.InLog;
    forall id | Recovery.AcknowledgedSync(db.s, id) ensures Recovery.InLog(Found(db, i, k1, k2), id) {
      SyncedIsFound(db, i, k1, k2, id);
    }
  }

  lemma MemHolds(db: Db, i: nat, k1: nat, k2: nat)
    requires Joined(db) && Cuts(db, k1, k2)
    ensures var es := EntriesOf(Replayed(db, i, k1, k2)); Sorted(MemOf(es)) && ToSet(MemOf(es)) == ToSet(es)
  {
    FoundInOrder(db, i, k1, k2);
    LoggedSequencesAscend(Replayed(db, i, k1, k2));
    MemIsSorted(EntriesOf(Replayed(db, i, k1, k2)));
  }

  lemma ReadsAtLast(db: Store.DB)
    requires db.Valid()
    ensures AnswersHistory(db)
  {
    hide Read, Store.All;
  }
}
