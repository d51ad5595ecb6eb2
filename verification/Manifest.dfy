/** The MANIFEST: a snapshot record followed by the edits installed since. */
module Manifest {
  import opened Files
  import opened VersionBuilder

  const NO_CHANGES: LevelState := LevelState({}, {})

  ghost predicate OrderedVersion(v: Version) {
    forall l :: 0 <= l < NUM_LEVELS ==> Ordered(v[l])
  }

  /** next is what LogAndApply makes of one edit on top of v. */
  ghost predicate Installed(v: Version, e: VersionEdit, next: Version) {
    forall l :: 0 <= l < NUM_LEVELS ==>
      Ordered(next[l]) && FileSet(next[l]) == Kept(FileSet(v[l]), ApplySpec(NO_CHANGES, e, l))
  }

  /** What one builder holds for a level after a list of edits. */
  ghost function Fold(edits: seq<VersionEdit>, level: nat): LevelState {
    if edits == [] then NO_CHANGES else ApplySpec(Fold(edits[..|edits| - 1], level), edits[|edits| - 1], level)
  }

  /** On no level the edit adds a number twice, nor one that the version has. */
  ghost predicate AddedOnce(base: Version, e: VersionEdit) {
    && EditOk(e)
    && (forall l, f, g :: 0 <= l < NUM_LEVELS && f in base[l] && (l, g) in e.added ==> f.number != g.number)
    && (forall l, f, g {:trigger (l, f) in e.added, (l, g) in e.added} ::
          (l, f) in e.added && (l, g) in e.added && f.number == g.number ==> f == g)
  }

  // -------------------------------------------------- one builder or one edit at a time

  /** Applying an edit to the builder of earlier edits gives the files that installing it
      gives, exactly when the edit does not reuse the number of a file deleted before. */
  lemma BatchStepAgreesIff(base: set<File>, st: LevelState, e: VersionEdit, level: nat)
    ensures Kept(base, ApplySpec(st, e, level)) == Kept(Kept(base, st), ApplySpec(NO_CHANGES, e, level))
      <==> forall f, g :: f in base + st.added && g in AddedAt(e, level) && f.number == g.number ==>
             f.number in st.deleted ==> f in AddedAt(e, level)
  {
    var d, a := DeletedAt(e, level), AddedAt(e, level);
    AdditionsAsSets(ApplyDeletions(st, e, level), e.added, level);
    AdditionsAsSets(ApplyDeletions(NO_CHANGES, e, level), e.added, level);
    assert (set x | x in e.added && x.0 == level :: x.1) == a;
    var batch, single := Kept(base, ApplySpec(st, e, level)), Kept(Kept(base, st), ApplySpec(NO_CHANGES, e, level));
    forall f ensures f in batch <==> f in base + st.added + a && (f.number in st.deleted + d ==> f.number in Numbers(a)) {
    }
    forall f ensures f in single <==>
      ((f in base + st.added && f.number !in st.deleted) || f in a) && (f.number in d ==> f.number in Numbers(a))
    {
    }
    forall f, g | batch == single && f in base + st.added && g in a && f.number == g.number && f.number in st.deleted
      ensures f in a
    {
      assert g.number in Numbers(a);
      assert f in batch;
    }
  }

  lemma {:induction false} AddedComesFromEdits(edits: seq<VersionEdit>, level: nat, f: File) returns (i: nat)
    requires f in Fold(edits, level).added
    ensures i < |edits| && (level, f) in edits[i].added
  {
    var last := edits[|edits| - 1];
    var st := Fold(edits[..|edits| - 1], level);
    AdditionsAsSets(ApplyDeletions(st, last, level), last.added, level);
    if f in st.added {
      i := AddedComesFromEdits(edits[..|edits| - 1], level, f);
    } else {
      i := |edits| - 1;
    }
  }

  /** In the files of a version and of some edits a number names one file of a level. */
  ghost predicate OneFilePerNumber(base: set<File>, edits: seq<VersionEdit>, level: nat) {
    forall f, g :: (f in base || AddedBy(edits, level, f)) && AddedBy(edits, level, g) && f.number == g.number ==> f == g
  }

  ghost predicate AddedBy(edits: seq<VersionEdit>, level: nat, f: File) {
    exists i :: 0 <= i < |edits| && (level, f) in edits[i].added
  }

  /** If replaying edits in one builder reaches the files of a version, then replaying one more in that builder
      reaches the files of the next version, which was made by a builder of its own. */
  lemma ReplayReachesNext(base: set<File>, edits: seq<VersionEdit>, v: Version, e: VersionEdit, next: Version, level: nat)
    requires level < NUM_LEVELS && FileSet(v[level]) == Kept(base, Fold(edits, level)) && Installed(v, e, next)
    requires OneFilePerNumber(base, edits + [e], level)
    ensures FileSet(next[level]) == Kept(base, Fold(edits + [e], level))
  {
    hide Ordered, ApplySpec, Kept;
    var st := Fold(edits, level);
    var all := edits + [e];
    assert all[..|all| - 1] == edits;
    forall f, g | f in base + st.added && g in AddedAt(e, level) && f.number == g.number ensures f == g {
      assert (level, g) in all[|edits|].added;
      if f in st.added {
        var i := AddedComesFromEdits(edits, level, f);
        assert (level, f) in all[i].added;
      }
    }
    BatchStepAgreesIff(base, st, e, level);
  }

  /** The files of a level after one edit that adds only new numbers. */
  lemma InstalledFiles(v: Version, e: VersionEdit, next: Version, level: nat, f: File)
    requires Installed(v, e, next) && AddedOnce(v, e) && level < NUM_LEVELS
    ensures f in next[level] <==> (f in v[level] && (level, f.number) !in e.deleted) || (level, f) in e.added
  {
    AdditionsAsSets(ApplyDeletions(NO_CHANGES, e, level), e.added, level);
    var added := AddedAt(e, level);
    assert added == set x | x in e.added && x.0 == level :: x.1;
    assert f in next[level] <==> f in FileSet(next[level]);
    assert f in added <==> (level, f) in e.added;
    if f in v[level] {
      forall g | g in added ensures g.number != f.number {
        assert (level, g) in e.added;
      }
      assert f.number in DeletedAt(e, level) <==> (level, f.number) in e.deleted;
    }
  }

  // ------------------------------------------------------------ the procedures

  /** VersionSet::LogAndApply, the part that makes the new version. */
  method LogAndApply(current: Version, edit: VersionEdit) returns (v: Version)
    requires OrderedVersion(current) && AddedOnce(current, edit)
    ensures Installed(current, edit, v) && OrderedVersion(v)
  {
    var builder := new Builder(current);
    builder.Apply(edit);
    forall l | 0 <= l < NUM_LEVELS
      ensures forall f :: f in builder.added[l] ==> (l, f) in edit.added
    {
      AdditionsAsSets(ApplyDeletions(NO_CHANGES, edit, l), edit.added, l);
      assert forall f :: f in builder.added[l] ==> f in builder.State(l).added;
    }
    v := builder.SaveTo();
  }

  lemma SameFilesSameList(a: seq<File>, b: seq<File>)
    requires Ordered(a) && Ordered(b) && FileSet(a) == FileSet(b)
    ensures a == b
  {
    forall f ensures f in a <==> f in b {
      assert f in a <==> f in FileSet(a);
      assert f in b <==> f in FileSet(b);
    }
    OrderedListIsUnique(a, b);
  }

  // ------------------------------------------------------------ the snapshot record

  /** VersionSet::WriteSnapshot: every file of every level. */
  method WriteSnapshot(v: Version) returns (edit: VersionEdit)
    ensures IsSnapshot(edit, v)
  {
    var adds: seq<(nat, File)> := [];
    for level := 0 to NUM_LEVELS
      invariant forall l: nat, f :: (l, f) in adds <==> l < level && f in v[l]
    {
      for i := 0 to |v[level]|
        invariant forall l: nat, f :: (l, f) in adds <==> (l < level && f in v[l]) || (l == level && f in v[level][..i])
      {
        assert v[level][..i + 1] == v[level][..i] + [v[level][i]];
        adds := adds + [(level, v[level][i])];
      }
      assert v[level][..|v[level]|] == v[level];
    }
    edit := VersionEdit({}, adds);
  }

  ghost predicate IsSnapshot(edit: VersionEdit, v: Version) {
    edit.deleted == {} && forall l: nat, f :: (l, f) in edit.added <==> l < NUM_LEVELS && f in v[l]
  }

  const EMPTY_VERSION: Version := [[], [], [], [], [], [], []]

  lemma SnapshotInstalls(snapshot: VersionEdit, v: Version)
    requires IsSnapshot(snapshot, v) && OrderedVersion(v)
    ensures Installed(EMPTY_VERSION, snapshot, v)
  {
    forall l | 0 <= l < NUM_LEVELS
      ensures FileSet(v[l]) == Kept(FileSet(EMPTY_VERSION[l]), ApplySpec(NO_CHANGES, snapshot, l))
    {
      AdditionsAsSets(ApplyDeletions(NO_CHANGES, snapshot, l), snapshot.added, l);
      assert FileSet(v[l]) == AddedAt(snapshot, l);
    }
  }
}
