/** Flushes and trivial moves keep the layering and the stored entries. */
module Transitions {
  import opened DbFormat
  import opened Files
  import opened VersionBuilder
  import opened Manifest
  import opened OutputCuts
  import opened Compaction
  import opened Ages
  import opened CompactionReads
  import opened CompactionInstall

  // -------------------------------------------------------------------------- flush

  function FlushEdit(level: nat, f: File): VersionEdit { VersionEdit({}, [(level, f)]) }

  lemma FlushAddsOnce(v: Version, level: nat, f: File)
    requires level < NUM_LEVELS
    requires NumbersBelow(v, f.number)
    ensures AddedOnce(v, FlushEdit(level, f))
  {
  }

  lemma FlushedFiles(v: Version, level: nat, f: File, next: Version)
    requires level < NUM_LEVELS && Installed(v, FlushEdit(level, f), next)
    requires NumbersBelow(v, f.number)
    ensures Flushed(v, level, f, next)
  {
    FlushAddsOnce(v, level, f);
    forall l, g | 0 <= l < NUM_LEVELS ensures g in next[l] <==> g in v[l] || (l == level && g == f) {
      InstalledFiles(v, FlushEdit(level, f), next, l, g);
    }
  }

  /** The flush level is safe: nothing above or beside the new file shares a key with it. */
  ghost predicate FlushLevelOk(v: Version, level: nat, f: File) {
    && level < NUM_LEVELS
    && (level > 0 ==> forall l, g :: 0 <= l <= level && g in v[l] ==>
          !Overlaps(g, Some(Smallest(f).user), Some(Largest(f).user)))
  }

  lemma FlushAge(v: Version, level: nat, f: File, l: nat, g: File)
    requires FlushLevelOk(v, level, f) && NewerThan(ToSet(f.entries), Entries(v)) && l < NUM_LEVELS && g in v[l]
    ensures NewerFile(f, g)
    ensures l <= level && level > 0 ==> NewerFile(g, f)
  {
    forall e, x | e in f.entries && x in g.entries && e.key.user == x.key.user
      ensures e.key.sequence > x.key.sequence
    {
      assert e in ToSet(f.entries) && x in Entries(v);
    }
    if l <= level && level > 0 {
      assert !Overlaps(g, Some(Smallest(f).user), Some(Largest(f).user));
      forall e, x | e in f.entries && x in g.entries ensures e.key.user != x.key.user {
        InRange(f, e);
        InRange(g, x);
      }
    }
  }

  lemma FlushedAge(v: Version, level: nat, f: File, l: nat, g: File, m: nat, h: File)
    requires Aged(v) && FlushLevelOk(v, level, f) && NewerThan(ToSet(f.entries), Entries(v))
    requires NumbersBelow(v, f.number)
    requires l < NUM_LEVELS && (g in v[l] || (l == level && g == f))
    requires m < NUM_LEVELS && (h in v[m] || (m == level && h == f))
    requires SearchedBefore(l, g, m, h)
    ensures NewerFile(g, h)
  {
    if g in v[l] {
      if h !in v[m] {
        FlushAge(v, level, f, l, g);
      }
    } else if h in v[m] {
      FlushAge(v, level, f, m, h);
    }
  }

  ghost predicate Flushed(v: Version, level: nat, f: File, next: Version) {
    forall l, g :: 0 <= l < NUM_LEVELS ==> (g in next[l] <==> g in v[l] || (l == level && g == f))
  }

  lemma FlushAged(v: Version, level: nat, f: File, next: Version)
    requires Aged(v) && FlushLevelOk(v, level, f) && NewerThan(ToSet(f.entries), Entries(v))
    requires NumbersBelow(v, f.number)
    requires Flushed(v, level, f, next)
    ensures Aged(next)
  {
    forall l, g, m, h | 0 <= l < NUM_LEVELS && 0 <= m < NUM_LEVELS && g in next[l] && h in next[m]
      ensures SearchedBefore(l, g, m, h) ==> NewerFile(g, h)
    {
      if SearchedBefore(l, g, m, h) {
        FlushedAge(v, level, f, l, g, m, h);
      }
    }
  }

  lemma FlushNumbers(v: Version, level: nat, f: File, next: Version)
    requires NumbersUnique(v) && Flushed(v, level, f, next) && level < NUM_LEVELS
    requires NumbersBelow(v, f.number)
    ensures NumbersUnique(next)
  {
  }

  /** A flush keeps what every run keeps, and the ages. */
  lemma FlushKeepsLayers(v: Version, level: nat, f: File, next: Version)
    requires Placed(v) && FlushLevelOk(v, level, f) && NewerThan(ToSet(f.entries), Entries(v))
    requires NumbersBelow(v, f.number)
    requires Installed(v, FlushEdit(level, f), next) && OrderedVersion(next)
    ensures Placed(next) && Entries(next) == Entries(v) + ToSet(f.entries)
    ensures Aged(v) ==> Aged(next)
    ensures UserSeparate(v) ==> UserSeparate(next)
  {
    hide Separate, UserSeparate, OneHome, NumbersUnique, Overlaps, Installed, Aged, NewerThan, Entries, OrderedVersion;
    FlushedFiles(v, level, f, next);
    FlushNumbers(v, level, f, next);
    if Aged(v) {
      FlushAged(v, level, f, next);
    }
    FlushSeparate(v, level, f, next);
    FlushOneHome(v, level, f, next);
    FlushEntries(v, level, f, next);
    FlushDistinct(Entries(v), f);
  }

  lemma FlushOneHome(v: Version, level: nat, f: File, next: Version)
    requires OneHome(v) && NewerThan(ToSet(f.entries), Entries(v)) && Flushed(v, level, f, next)
    ensures OneHome(next)
  {
    forall l, g, e | 0 <= l < NUM_LEVELS && g in v[l] && e in g.entries ensures e !in f.entries {
      assert e in Entries(v) && (e in f.entries ==> e in ToSet(f.entries));
    }
  }

  lemma FlushDistinct(es: set<Entry>, f: File)
    requires DistinctSeqs(es) && NewerThan(ToSet(f.entries), es)
    ensures DistinctSeqs(es + ToSet(f.entries))
  {
    SortedHasDistinctSeqs(f.entries);
  }

  lemma FlushSeparate(v: Version, level: nat, f: File, next: Version)
    requires Separate(v) && FlushLevelOk(v, level, f) && OrderedVersion(next) && Flushed(v, level, f, next)
    ensures Separate(next) && (UserSeparate(v) ==> UserSeparate(next))
  {
    forall l | 1 <= l < NUM_LEVELS ensures Disjoint(next[l]) && (UserDisjoint(v[l]) ==> UserDisjoint(next[l])) {
      forall g, h | g in next[l] && h in next[l] && g != h
        ensures (FileBefore(g, h) || FileBefore(h, g)) && (UserDisjoint(v[l]) ==> Apart(g, h))
      {
        FlushApart(v, level, f, l, g, h);
      }
      FilesInOrderAreDisjoint(next[l]);
      if UserDisjoint(v[l]) {
        ApartIsUserDisjoint(next[l]);
      }
    }
  }

  lemma FlushApart(v: Version, level: nat, f: File, l: nat, g: File, h: File)
    requires Separate(v) && FlushLevelOk(v, level, f) && 1 <= l < NUM_LEVELS && g != h
    requires (g in v[l] || (l == level && g == f)) && (h in v[l] || (l == level && h == f))
    ensures (FileBefore(g, h) || FileBefore(h, g)) && (UserDisjoint(v[l]) ==> Apart(g, h))
  {
    if g in v[l] && h in v[l] {
      OneComesFirst(v[l], g, h);
    } else if g in v[l] {
      assert !Overlaps(g, Some(Smallest(f).user), Some(Largest(f).user));
    } else {
      assert !Overlaps(h, Some(Smallest(f).user), Some(Largest(f).user));
    }
  }

  lemma FlushEntries(v: Version, level: nat, f: File, next: Version)
    requires level < NUM_LEVELS && Flushed(v, level, f, next)
    ensures Entries(next) == Entries(v) + ToSet(f.entries)
  {
    forall e ensures e in Entries(next) <==> e in Entries(v) + ToSet(f.entries) {
      if e in Entries(next) {
        var l, g := Locate(next, e);
      }
      if e in Entries(v) {
        var l, g := Locate(v, e);
        assert g in next[l];
      }
      if e in f.entries {
        assert f in next[level];
      }
    }
  }

  // ------------------------------------------------------------------- trivial move

  function MoveEdit(level: nat, f: File): VersionEdit { VersionEdit({(level, f.number)}, [(level + 1, f)]) }

  lemma MoveAddsOnce(v: Version, level: nat, f: File)
    requires NumbersUnique(v) && level + 1 < NUM_LEVELS && f in v[level]
    ensures AddedOnce(v, MoveEdit(level, f))
  {
  }

  lemma MoveReplaces(v: Version, level: nat, f: File, next: Version)
    requires level + 1 < NUM_LEVELS && NumbersUnique(v) && f in v[level] && Installed(v, MoveEdit(level, f), next)
    ensures Replaced(v, level, [f], [], [f], next)
  {
    hide Installed, AddedOnce;
    MoveAddsOnce(v, level, f);
    forall l, g | 0 <= l < NUM_LEVELS ensures g in next[l] <==> BelongsAfter(v, level, [f], [], [f], l, g) {
      InstalledFiles(v, MoveEdit(level, f), next, l, g);
    }
  }

  lemma MoveNumbers(v: Version, level: nat, f: File, next: Version)
    requires NumbersUnique(v) && level + 1 < NUM_LEVELS && f in v[level] && Replaced(v, level, [f], [], [f], next)
    ensures NumbersUnique(next)
  {
    forall l, g, m, h | 0 <= l < NUM_LEVELS && 0 <= m < NUM_LEVELS && g in next[l] && h in next[m] && g.number == h.number
      ensures l == m && g == h
    {
      assert BelongsAfter(v, level, [f], [], [f], l, g) && BelongsAfter(v, level, [f], [], [f], m, h);
    }
  }

  lemma SingleFile(f: File)
    ensures IsInput([f], [], f.entries) && OutputsAre([f], f.entries, {}) && Concat([f]) == f.entries
  {
    var files := [f];
    assert files[..0] == [];
    assert f in files;
    assert ToSet(f.entries) == FileEntries(files) + FileEntries([]);
    assert FileEntries(files) == ToSet(f.entries) - {};
  }

  /** A trivial move keeps what every run keeps and all entries, and keeps the ages if and only if the
      file leaves no older entry of a user key behind on its level. */
  lemma MoveKeepsLayers(v: Version, level: nat, f: File, next: Version)
    requires Placed(v) && InputsOk(v, level, [f], []) && Installed(v, MoveEdit(level, f), next) && OrderedVersion(next)
    ensures level + 1 < NUM_LEVELS && Placed(next) && Entries(next) == Entries(v) && Replaced(v, level, [f], [], [f], next)
    ensures Layered(v) ==> (Aged(next) <==> !Inverts(v, level, [f], {}))
    ensures UserSeparate(v) ==> UserSeparate(next)
  {
    hide Aged, Separate, UserSeparate, OneHome, Installed, Ordered, Replaced, IsInput, OutputsAre, Inverts, Entries, NumbersUnique;
    assert f in [f];
    MoveReplaces(v, level, f, next);
    MoveNumbers(v, level, f, next);
    SingleFile(f);
    PlacedAfter(v, level, [f], [], f.entries, {}, [f], next);
    assert Entries(v) - {} == Entries(v);
    if Layered(v) {
      AgesAfterIff(v, level, [f], [], f.entries, {}, [f], next);
    }
  }
}
