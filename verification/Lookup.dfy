/** Point lookups: in a table file, in a version, and the level a memtable is flushed to. */
module Lookup {
  import opened DbFormat
  import opened Files
  import opened Compaction
  import opened Ages

  /** Snapshot s sees no entry of user key k. */
  ghost predicate NothingSeen(es: set<Entry>, k: UserKey, s: nat) {
    forall x :: x in es && x.key.user == k ==> x.key.sequence > s
  }

  /** TableCache::Get with SaveValue: seek in the table and look at the user key found. */
  function TableGet(f: File, k: UserKey, s: nat): (r: Option<Entry>)
    ensures r.Some? ==> Newest(ToSet(f.entries), k, s, r.value)
    ensures r.None? ==> NothingSeen(ToSet(f.entries), k, s)
  {
    SeekFindsNewest(f.entries, k, s);
    var i := SeekIndex(f.entries, LookupKey(k, s));
    if i < |f.entries| && f.entries[i].key.user == k then Some(f.entries[i]) else None
  }

  /** std::sort with NewestFirst. */
  method SortNewestFirst(files: seq<File>) returns (r: seq<File>)
    ensures multiset(r) == multiset(files) && NewestFirst(r)
    ensures forall f :: f in r <==> f in files
  {
    r := [];
    for n := 0 to |files|
      invariant multiset(r) == multiset(files[..n]) && NewestFirst(r)
    {
      assert files[..n + 1] == files[..n] + [files[n]];
      r := InsertNewestFirst(r, files[n]);
    }
    assert files[..|files|] == files;
    assert forall f :: (f in r <==> f in multiset(r)) && (f in files <==> f in multiset(files));
  }

  predicate NewestFirst(files: seq<File>) {
    forall i, j :: 0 <= i < j < |files| ==> files[i].number >= files[j].number
  }

  method InsertNewestFirst(files: seq<File>, f: File) returns (r: seq<File>)
    requires NewestFirst(files)
    ensures NewestFirst(r) && multiset(r) == multiset(files) + multiset{f}
  {
    hide NewestFirst;
    var i := 0;
    while i < |files| && files[i].number >= f.number
      invariant i <= |files| && forall j :: 0 <= j < i ==> files[j].number >= f.number
    {
      i := i + 1;
    }
    r := files[..i] + [f] + files[i..];
    InsertKeepsOrder(files, f, i);
    assert files == files[..i] + files[i..];
  }

  lemma InsertKeepsOrder(files: seq<File>, f: File, i: nat)
    requires NewestFirst(files) && i <= |files|
    requires forall j :: 0 <= j < i ==> files[j].number >= f.number
    requires i < |files| ==> files[i].number < f.number
    ensures NewestFirst(files[..i] + [f] + files[i..])
  {
    var r := files[..i] + [f] + files[i..];
    forall p, q | 0 <= p < q < |r| ensures r[p].number >= r[q].number {
      assert r[p] == if p < i then files[p] else if p == i then f else files[p - 1];
      assert r[q] == if q < i then files[q] else if q == i then f else files[q - 1];
    }
  }

  /** A file of a level sees the key and no file that is searched before it does; from level 1 on the
      entry is the newest visible one of the level. */
  ghost predicate HitIn(v: Version, k: UserKey, s: nat, e: Entry, l: nat, f: File) {
    && l < NUM_LEVELS && f in v[l] && Newest(ToSet(f.entries), k, s, e) && (l > 0 ==> Newest(FileEntries(v[l]), k, s, e))
    && forall m, g :: 0 <= m < NUM_LEVELS && g in v[m] && SearchedBefore(m, g, l, f) ==> NothingSeen(ToSet(g.entries), k, s)
  }

  /** What a search in search order answers, in any version. */
  ghost predicate FirstHit(v: Version, k: UserKey, s: nat, r: Option<Entry>) {
    match r
    case None => NothingSeen(Entries(v), k, s)
    case Some(e) => exists l, f :: HitIn(v, k, s, e, l, f)
  }

  /** When what is searched first is newer, the first hit is the newest visible entry of the version. */
  lemma FirstHitIsNewest(v: Version, k: UserKey, s: nat, e: Entry)
    requires Layered(v) && FirstHit(v, k, s, Some(e))
    ensures Newest(Entries(v), k, s, e)
  {
    hide Layered;
    var l: nat, f :| HitIn(v, k, s, e, l, f);
    assert e in Entries(v);
    forall x | x in Entries(v) && x.key.user == k && x.key.sequence <= s ensures x.key.sequence <= e.key.sequence {
      var m, g := Locate(v, x);
      HitDecides(v, k, s, e, l, f, m, g, x);
    }
  }

  lemma HitDecides(v: Version, k: UserKey, s: nat, e: Entry, l: nat, f: File, m: nat, g: File, x: Entry)
    requires Layered(v) && HitIn(v, k, s, e, l, f)
    requires m < NUM_LEVELS && g in v[m] && x in g.entries && x.key.user == k && x.key.sequence <= s
    ensures x.key.sequence <= e.key.sequence
  {
    hide Separate, OneHome;
    assert x in ToSet(g.entries);
    assert SearchedBefore(l, f, m, g) ==> NewerFile(f, g);
    assert l == m ==> x in FileEntries(v[l]);
    assert l == 0 && m == 0 && f.number == g.number ==> f == g;
  }

  /** Level 0: all files whose range contains the key, newest first. */
  method GetLevelZero(files: seq<File>, k: UserKey, s: nat) returns (r: Option<Entry>)
    ensures r.None? ==> NothingSeen(FileEntries(files), k, s)
    ensures r.Some? ==> exists f :: f in files && HitAmong(files, k, s, r.value, f)
  {
    var tmp := [];
    for i := 0 to |files|
      invariant forall f :: f in tmp <==> f in files[..i] && InFile(f, k)
    {
      if Smallest(files[i]).user <= k && k <= Largest(files[i]).user {
        tmp := tmp + [files[i]];
      }
    }
    assert files[..|files|] == files;
    tmp := SortNewestFirst(tmp);
    for i := 0 to |tmp|
      invariant forall j :: 0 <= j < i ==> NothingSeen(ToSet(tmp[j].entries), k, s)
    {
      r := TableGet(tmp[i], k, s);
      if r.Some? {
        HitInLevelZero(files, k, s, tmp, i, r.value);
        return r;
      }
    }
    forall x | x in FileEntries(files) && x.key.user == k ensures x.key.sequence > s {
      var f :| f in files && x in f.entries;
      InRange(f, x);
      var j :| 0 <= j < |tmp| && tmp[j] == f;
      assert NothingSeen(ToSet(tmp[j].entries), k, s);
    }
    r := None;
  }

  /** The newest file that sees the key. */
  ghost predicate HitAmong(files: seq<File>, k: UserKey, s: nat, e: Entry, f: File) {
    Newest(ToSet(f.entries), k, s, e) && forall g :: g in files && g.number > f.number ==> NothingSeen(ToSet(g.entries), k, s)
  }

  lemma HitInLevelZero(files: seq<File>, k: UserKey, s: nat, tmp: seq<File>, i: nat, e: Entry)
    requires i < |tmp| && NewestFirst(tmp) && forall f :: f in tmp <==> f in files && InFile(f, k)
    requires forall j :: 0 <= j < i ==> NothingSeen(ToSet(tmp[j].entries), k, s)
    requires Newest(ToSet(tmp[i].entries), k, s, e)
    ensures tmp[i] in files && HitAmong(files, k, s, e, tmp[i])
  {
    assert tmp[i] in tmp;
    forall g | g in files && g.number > tmp[i].number ensures NothingSeen(ToSet(g.entries), k, s) {
      forall x | x in g.entries && x.key.user == k ensures x.key.sequence > s {
        InRange(g, x);
        var j :| 0 <= j < |tmp| && tmp[j] == g;
        assert NothingSeen(ToSet(tmp[j].entries), k, s) && x in ToSet(g.entries);
      }
    }
  }

  /** Levels >= 1: only the first file that ends at or after the lookup key can answer. */
  method GetDeeperLevel(files: seq<File>, k: UserKey, s: nat) returns (r: Option<Entry>)
    requires Disjoint(files)
    ensures r.Some? ==> Newest(FileEntries(files), k, s, r.value) && exists f :: f in files && Newest(ToSet(f.entries), k, s, r.value)
    ensures r.None? ==> NothingSeen(FileEntries(files), k, s)
  {
    var index := FindFile(files, LookupKey(k, s));
    if index >= |files| {
      forall x | x in FileEntries(files) && x.key.user == k ensures x.key.sequence > s {
        var j := FileOf(files, x);
        NotBefore(files[j], k, s, x);
      }
      return None;
    }
    ghost var found := TableGet(files[index], k, s);
    forall x | x in FileEntries(files) && x.key.user == k && x.key.sequence <= s
      ensures found.Some? && x.key.sequence <= found.value.key.sequence
    {
      var j := FileOf(files, x);
      DecidedAtIndex(files, k, s, index, j, x);
    }
    if k < Smallest(files[index]).user {
      forall x | x in files[index].entries ensures x.key.user > k {
        InRange(files[index], x);
      }
      return None;
    }
    r := TableGet(files[index], k, s);
    assert files[index] in files;
  }

  lemma FileOf(files: seq<File>, x: Entry) returns (j: nat)
    requires x in FileEntries(files)
    ensures j < |files| && x in files[j].entries
  {
    var f :| f in files && x in f.entries;
    j :| 0 <= j < |files| && files[j] == f;
  }

  /** A file that ends before the lookup key holds no visible entry of the user key. */
  lemma NotBefore(f: File, k: UserKey, s: nat, x: Entry)
    requires Before(Largest(f), LookupKey(k, s)) && x in f.entries && x.key.user == k
    ensures x.key.sequence > s
  {
    InRange(f, x);
    AfterAll(f, x);
  }

  /** A visible entry in a later file is older than one in the file found. */
  lemma DecidedAtIndex(files: seq<File>, k: UserKey, s: nat, index: nat, j: nat, x: Entry)
    requires Disjoint(files) && index < |files| && j < |files|
    requires forall i :: 0 <= i < index ==> Before(Largest(files[i]), LookupKey(k, s))
    requires !Before(Largest(files[index]), LookupKey(k, s))
    requires x in files[j].entries && x.key.user == k && x.key.sequence <= s
    ensures exists y :: y in files[index].entries && y.key.user == k && x.key.sequence <= y.key.sequence <= s
  {
    if j < index {
      NotBefore(files[j], k, s, x);
    } else if j == index {
      assert x in files[index].entries;
    } else {
      var f, g := files[index], files[j];
      var y := f.entries[|f.entries| - 1];
      InRange(g, x);
      assert FileBefore(f, g) && y in f.entries && y.key == Largest(f);
      if y.key.user == Smallest(g).user {
        KeysAtBoundary(f, g, y, g.entries[0]);
      }
      if x.key.user == Smallest(g).user {
        BeforeAll(g, x);
      }
      assert y.key.user == k && x.key.sequence <= y.key.sequence <= s;
    }
  }

  /** Version::Get: the first hit, whatever the version. */
  method VersionGet(v: Version, k: UserKey, s: nat) returns (r: Option<Entry>)
    requires Separate(v)
    ensures FirstHit(v, k, s, r)
    ensures Layered(v) && r.Some? ==> Newest(Entries(v), k, s, r.value)
  {
    hide Layered;
    var level := 0;
    while level < NUM_LEVELS
      invariant level <= NUM_LEVELS
      invariant forall l :: 0 <= l < level ==> NothingSeen(FileEntries(v[l]), k, s)
    {
      if level == 0 {
        r := GetLevelZero(v[0], k, s);
      } else {
        r := GetDeeperLevel(v[level], k, s);
      }
      if r.Some? {
        HitAtLevel(v, k, s, level, r.value);
        if Layered(v) {
          FirstHitIsNewest(v, k, s, r.value);
        }
        return r;
      }
      level := level + 1;
    }
    forall x | x in Entries(v) && x.key.user == k ensures x.key.sequence > s {
      var l, f := Locate(v, x);
      assert x in FileEntries(v[l]);
    }
    r := None;
  }

  lemma HitAtLevel(v: Version, k: UserKey, s: nat, level: nat, e: Entry)
    requires level < NUM_LEVELS && forall l :: 0 <= l < level ==> NothingSeen(FileEntries(v[l]), k, s)
    requires level == 0 ==> exists f :: f in v[0] && HitAmong(v[0], k, s, e, f)
    requires level > 0 ==>
      Newest(FileEntries(v[level]), k, s, e) && exists f: File :: f in v[level] && Newest(ToSet(f.entries), k, s, e)
    ensures FirstHit(v, k, s, Some(e))
  {
    var f: File :| f in v[level] && (level == 0 ==> HitAmong(v[0], k, s, e, f)) && Newest(ToSet(f.entries), k, s, e);
    forall m, g | 0 <= m < NUM_LEVELS && g in v[m] && SearchedBefore(m, g, level, f) ensures NothingSeen(ToSet(g.entries), k, s) {
      if m < level {
        assert forall x :: x in g.entries ==> x in FileEntries(v[m]);
      }
    }
    assert HitIn(v, k, s, e, level, f);
  }

  // ------------------------------------------------------------------- flush level

  ghost predicate NoOverlapUpTo(v: Version, small: UserKey, large: UserKey, level: nat)
    requires level < NUM_LEVELS
  {
    forall l, f :: 0 <= l <= level && f in v[l] ==> !Overlaps(f, Some(small), Some(large))
  }

  function DataBelow(v: Version, small: UserKey, large: UserKey, level: nat): nat
    requires level < NUM_LEVELS
  {
    TotalFileSize(OverlapFilter(v[level], Some(small), Some(large)))
  }

  /** Level 0 if a file there meets the range; otherwise the deepest level, up to a limit, that is reached
      without meeting a file and without much data two levels down. */
  ghost predicate LevelPicked(v: Version, small: UserKey, large: UserKey, maxFileSize: nat, level: nat) {
    && level <= MAX_MEM_COMPACT_LEVEL && (level > 0 ==> NoOverlapUpTo(v, small, large, level))
    && (forall l :: 2 <= l < level + 2 ==> DataBelow(v, small, large, l) <= 10 * maxFileSize)
    && (level < MAX_MEM_COMPACT_LEVEL && NoOverlapUpTo(v, small, large, level + 1) ==>
          DataBelow(v, small, large, level + 2) > 10 * maxFileSize)
  }

  /** The level for the table of a memtable whose user keys lie in [small, large]. */
  method PickLevelForMemTableOutput(v: Version, small: UserKey, large: UserKey, maxFileSize: nat) returns (level: nat)
    requires Separate(v)
    requires forall l, f, e :: 0 <= l < NUM_LEVELS && f in v[l] && e in f.entries ==> e.key.sequence <= MAX_SEQUENCE_NUMBER
    ensures LevelPicked(v, small, large, maxFileSize, level)
  {
    hide Disjoint, Overlaps, Sorted;
    level := 0;
    var overlap := OverlapInLevel(v, 0, small, large);
    if overlap {
      return;
    }
    while level < MAX_MEM_COMPACT_LEVEL
      invariant level <= MAX_MEM_COMPACT_LEVEL && NoOverlapUpTo(v, small, large, level)
      invariant forall l :: 2 <= l < level + 2 ==> DataBelow(v, small, large, l) <= 10 * maxFileSize
    {
      overlap := OverlapInLevel(v, level + 1, small, large);
      if overlap {
        break;
      }
      if level + 2 < NUM_LEVELS {
        var overlaps, lo, hi := GetOverlappingInputs(level + 2, v[level + 2], Some(small), Some(large));
        if TotalFileSize(overlaps) > 10 * maxFileSize {
          break;
        }
      }
      level := level + 1;
    }
  }

  method OverlapInLevel(v: Version, level: nat, small: UserKey, large: UserKey) returns (r: bool)
    requires level < NUM_LEVELS && Separate(v)
    requires forall l, f, e :: 0 <= l < NUM_LEVELS && f in v[l] && e in f.entries ==> e.key.sequence <= MAX_SEQUENCE_NUMBER
    ensures r <==> exists f :: f in v[level] && Overlaps(f, Some(small), Some(large))
  {
    if level > 0 {
      forall i | 0 <= i < |v[level]| ensures Largest(v[level][i]).sequence <= MAX_SEQUENCE_NUMBER {
        var f := v[level][i];
        assert f in v[level] && f.entries[|f.entries| - 1] in f.entries;
      }
    }
    r := SomeFileOverlapsRange(level > 0, v[level], Some(small), Some(large));
  }
}
