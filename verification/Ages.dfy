/** The invariant of versions (entries age with depth) and why lookups, flushes and
    compactions agree with the multi-version map. */
module Ages {
  import opened DbFormat
  import opened Files
  import opened VersionBuilder
  import opened Manifest
  import opened Compaction

  ghost function FileEntries(files: seq<File>): set<Entry> {
    set f, e | f in files && e in f.entries :: e
  }

  ghost function Entries(v: Version): set<Entry> {
    set l, f, e | 0 <= l < NUM_LEVELS && f in v[l] && e in f.entries :: e
  }

  /** Every entry of a is newer than every entry of b with the same user key. */
  ghost predicate NewerThan(a: set<Entry>, b: set<Entry>) {
    forall e, x :: e in a && x in b && e.key.user == x.key.user ==> e.key.sequence > x.key.sequence
  }

  /** f in level l is searched before g in level m. */
  predicate SearchedBefore(l: nat, f: File, m: nat, g: File) {
    l < m || (l == 0 && m == 0 && f.number > g.number)
  }

  ghost predicate NewerFile(f: File, g: File) {
    forall e, x :: e in f.entries && x in g.entries && e.key.user == x.key.user ==> e.key.sequence > x.key.sequence
  }

  /** What is searched first is newer. */
  ghost predicate Aged(v: Version) {
    forall l, f, m, g :: 0 <= l < NUM_LEVELS && 0 <= m < NUM_LEVELS && f in v[l] && g in v[m]
      ==> (SearchedBefore(l, f, m, g) ==> NewerFile(f, g))
  }

  ghost predicate NumbersUnique(v: Version) {
    forall l, f, m, g :: 0 <= l < NUM_LEVELS && 0 <= m < NUM_LEVELS && f in v[l] && g in v[m] && f.number == g.number
      ==> l == m && f == g
  }

  ghost predicate NumbersBelow(v: Version, next: nat) {
    forall l, f :: 0 <= l < NUM_LEVELS && f in v[l] ==> f.number < next
  }

  /** Levels from 1 on are in internal key order; versions of one user key may span files. */
  ghost predicate Separate(v: Version) {
    forall l :: 1 <= l < NUM_LEVELS ==> Disjoint(v[l])
  }

  /** Stronger: no user key spans two files of such a level. */
  ghost predicate UserSeparate(v: Version) {
    forall l :: 1 <= l < NUM_LEVELS ==> UserDisjoint(v[l])
  }

  /** An entry is stored in one file only. */
  ghost predicate OneHome(v: Version) {
    forall l, f, m, g, e :: 0 <= l < NUM_LEVELS && 0 <= m < NUM_LEVELS && f in v[l] && g in v[m] && e in f.entries && e in g.entries
      ==> l == m && f == g
  }

  /** What every run keeps of a version. */
  ghost predicate Placed(v: Version) {
    NumbersUnique(v) && Separate(v) && OneHome(v) && DistinctSeqs(Entries(v))
  }

  ghost predicate VersionOk(v: Version) {
    OrderedVersion(v) && Placed(v)
  }

  /** What makes the search order find the newest entry. */
  ghost predicate Layered(v: Version) {
    Placed(v) && Aged(v)
  }

  /** A key check before a compaction: the user key ranges of two files are apart. */
  predicate Apart(f: File, g: File) {
    Largest(f).user < Smallest(g).user || Largest(g).user < Smallest(f).user
  }

  lemma KeyRange(f: File)
    ensures Smallest(f).user <= Largest(f).user
  {
    InRange(f, f.entries[0]);
  }

  ghost predicate FileBefore(f: File, g: File) { Before(Largest(f), Smallest(g)) }

  /** An ordered list of files of which one of any two comes wholly first is disjoint. */
  lemma FilesInOrderAreDisjoint(files: seq<File>)
    requires Ordered(files)
    requires forall f, g :: f in files && g in files && f != g ==> FileBefore(f, g) || FileBefore(g, f)
    ensures Disjoint(files)
  {
    forall i, j | 0 <= i < j < |files| ensures FileBefore(files[i], files[j]) {
      assert BySmallestKey(files[i], files[j]);
      SmallestFirst(files[j]);
    }
  }

  /** An ordered list of files whose user keys are pairwise apart is user-disjoint. */
  lemma ApartIsUserDisjoint(files: seq<File>)
    requires Ordered(files) && forall f, g :: f in files && g in files && f != g ==> Apart(f, g)
    ensures UserDisjoint(files)
  {
    forall i, j | 0 <= i < j < |files| ensures Largest(files[i]).user < Smallest(files[j]).user {
      assert BySmallestKey(files[i], files[j]) && files[i] in files && files[j] in files && files[i] != files[j];
      KeyRange(files[i]);
      KeyRange(files[j]);
    }
  }

  lemma SmallestFirst(f: File)
    ensures Smallest(f) == Largest(f) || Before(Smallest(f), Largest(f))
  {
    assert |f.entries| == 1 || Precedes(f.entries[0], f.entries[|f.entries| - 1]);
  }

  /** Of two files of a disjoint level one comes first. */
  lemma OneComesFirst(files: seq<File>, f: File, g: File)
    requires Disjoint(files) && f in files && g in files && f != g
    ensures FileBefore(f, g) || FileBefore(g, f)
  {
    var i :| 0 <= i < |files| && files[i] == f;
    var j :| 0 <= j < |files| && files[j] == g;
  }

  /** Files of one level that share a user key are the same or share it at a boundary. */
  lemma KeysAtBoundary(f: File, g: File, e: Entry, x: Entry)
    requires FileBefore(f, g) && e in f.entries && x in g.entries && e.key.user == x.key.user
    ensures Largest(f).user == e.key.user == Smallest(g).user && e.key.sequence >= x.key.sequence
  {
    InRange(f, e);
    InRange(g, x);
    AfterAll(f, e);
    BeforeAll(g, x);
  }

  lemma AfterAll(f: File, e: Entry)
    requires e in f.entries && e.key.user == Largest(f).user
    ensures e.key.sequence >= Largest(f).sequence
  {
    var i :| 0 <= i < |f.entries| && f.entries[i] == e;
    assert i == |f.entries| - 1 || Precedes(f.entries[i], f.entries[|f.entries| - 1]);
  }

  lemma BeforeAll(f: File, e: Entry)
    requires e in f.entries && e.key.user == Smallest(f).user
    ensures e.key.sequence <= Smallest(f).sequence
  {
    var i :| 0 <= i < |f.entries| && f.entries[i] == e;
    assert i == 0 || Precedes(f.entries[0], f.entries[i]);
  }

  lemma Locate(v: Version, e: Entry) returns (l: nat, f: File)
    requires e in Entries(v)
    ensures l < NUM_LEVELS && f in v[l] && e in f.entries
  {
    l, f :| l < NUM_LEVELS && f in v[l] && e in f.entries;
  }

  /** Entries with one user key and sequence number are one entry of one file. */
  lemma SameFile(v: Version, l: nat, f: File, m: nat, g: File, e: Entry, x: Entry)
    requires Placed(v) && l < NUM_LEVELS && m < NUM_LEVELS && f in v[l] && g in v[m]
    requires e in f.entries && x in g.entries && e.key.user == x.key.user && e.key.sequence == x.key.sequence
    ensures l == m && f == g && e == x
  {
    assert e in Entries(v) && x in Entries(v);
  }

  // -------------------------------------------------------------------- safe drops

  /** A dropped entry is hidden from snapshots >= floor by a newer one, or is a deletion
      below which nothing of its user key is left. */
  ghost predicate SafelyDropped(all: set<Entry>, dropped: set<Entry>, floor: nat, d: Entry) {
    || (exists x :: x in all && x.key.user == d.key.user && d.key.sequence < x.key.sequence <= floor)
    || (&& d.key.typ.Deletion? && d.key.sequence <= floor
        && forall y :: y in all && y.key.user == d.key.user && y.key.sequence < d.key.sequence ==> y in dropped)
  }

  ghost predicate SafeDrop(all: set<Entry>, dropped: set<Entry>, floor: nat) {
    forall d :: d in dropped ==> SafelyDropped(all, dropped, floor, d)
  }

  /** A safe drop changes no read at a snapshot >= floor. */
  lemma SafeDropPreservesReads(all: set<Entry>, dropped: set<Entry>, floor: nat, k: UserKey, s: nat)
    requires DistinctSeqs(all) && SafeDrop(all, dropped, floor) && floor <= s
    ensures Read(all - dropped, k, s) == Read(all, k, s)
  {
    var rest := all - dropped;
    if x :| x in all && x.key.user == k && x.key.sequence <= s {
      var n := NewestExists(all, k, s, x);
      ReadNewest(all, k, s, n);
      if n !in dropped {
        ReadNewest(rest, k, s, n);
      }
    }
  }

  /** Adding one newest entry to two sets that read alike keeps them reading alike. */
  lemma WritePreservesReads(a: set<Entry>, b: set<Entry>, e: Entry, floor: nat, k: UserKey, s: nat)
    requires DistinctSeqs(a) && DistinctSeqs(b)
    requires forall x :: x in a || x in b ==> x.key.sequence < e.key.sequence
    requires Read(a, k, s) == Read(b, k, s)
    ensures Read(a + {e}, k, s) == Read(b + {e}, k, s)
  {
    hide Read, DistinctSeqs;
    if e.key.user == k && e.key.sequence <= s {
      ReadTheNew(a, e, k, s);
      ReadTheNew(b, e, k, s);
    } else {
      ReadIgnores(a, e, k, s);
      ReadIgnores(b, e, k, s);
    }
  }

  lemma ReadTheNew(a: set<Entry>, e: Entry, k: UserKey, s: nat)
    requires DistinctSeqs(a) && e.key.user == k && e.key.sequence <= s
    requires forall x :: x in a ==> x.key.sequence < e.key.sequence
    ensures Read(a + {e}, k, s) == Answer(e)
  {
    hide Read;
    ReadNewest(a + {e}, k, s, e);
  }

  lemma ReadIgnores(a: set<Entry>, e: Entry, k: UserKey, s: nat)
    requires DistinctSeqs(a) && (e.key.user != k || e.key.sequence > s)
    requires forall x :: x in a ==> x.key.sequence < e.key.sequence
    ensures Read(a + {e}, k, s) == Read(a, k, s)
  {
    if x :| x in a && x.key.user == k && x.key.sequence <= s {
      var n := NewestExists(a, k, s, x);
      ReadNewest(a, k, s, n);
      ReadNewest(a + {e}, k, s, n);
    }
  }

  // ------------------------------------------------- keys of the inputs of a compaction

  /** No file left out of the inputs on their levels shares a user key with an input file. */
  ghost predicate KeysClear(v: Version, level: nat, in0: seq<File>, in1: seq<File>)
    requires level + 1 < NUM_LEVELS
  {
    && (level > 0 ==> forall f, g :: f in in0 && g in v[level] && g !in in0 ==> Apart(f, g))
    && forall f, g :: f in in1 && g in v[level + 1] && g !in in1 ==> Apart(f, g)
  }

  /** A file outside the inputs that holds a user key of an input file is shallower than it, deeper
      than both input levels, or on its level with the key at the boundary of both. */
  lemma SharedKey(v: Version, level: nat, in0: seq<File>, in1: seq<File>,
                  l: nat, f: File, d: Entry, m: nat, g: File, y: Entry)
    requires Separate(v) && InputsOk(v, level, in0, in1)
    requires (l == level && f in in0) || (l == level + 1 && f in in1)
    requires m < NUM_LEVELS && g in v[m] && !(m == level && g in in0) && !(m == level + 1 && g in in1)
    requires d in f.entries && y in g.entries && d.key.user == y.key.user
    ensures m < l || m > level + 1 || (m == l && l > 0 && !Apart(f, g) && (FileBefore(f, g) || FileBefore(g, f)))
  {
    InRange(f, d);
    InRange(g, y);
    if m == l && l > 0 {
      OneComesFirst(v[l], f, g);
    }
    if f in in0 && l == level && (m == level + 1 || (m == 0 && level == 0)) {
      assert Overlaps(g, Some(LowUser(in0)), Some(HighUser(in0)));
    }
  }

  /** When the key check passes, such a file is shallower or deeper. */
  lemma KeyStaysTogether(v: Version, level: nat, in0: seq<File>, in1: seq<File>,
                         l: nat, f: File, d: Entry, m: nat, g: File, y: Entry)
    requires Separate(v) && InputsOk(v, level, in0, in1) && KeysClear(v, level, in0, in1)
    requires (l == level && f in in0) || (l == level + 1 && f in in1)
    requires m < NUM_LEVELS && g in v[m] && !(m == level && g in in0) && !(m == level + 1 && g in in1)
    requires d in f.entries && y in g.entries && d.key.user == y.key.user
    ensures m < l || m > level + 1
  {
    SharedKey(v, level, in0, in1, l, f, d, m, g, y);
  }

  /** The key check passes when no user key spans two files. */
  lemma UserSeparateIsClear(v: Version, level: nat, in0: seq<File>, in1: seq<File>)
    requires UserSeparate(v) && InputsOk(v, level, in0, in1)
    ensures KeysClear(v, level, in0, in1)
  {
    forall l, f, g | 1 <= l < NUM_LEVELS && f in v[l] && g in v[l] && f != g ensures Apart(f, g) {
      assert UserDisjoint(v[l]);
    }
  }
}
