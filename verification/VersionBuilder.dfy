/** VersionEdit and VersionSet::Builder: how edits turn one version into the next,
    and why replaying the MANIFEST in one builder gives the same version. */
module VersionBuilder {
  import opened DbFormat
  import opened Files

  /** The file changes of an edit: (level, number) deleted and (level, file) added. */
  datatype VersionEdit = VersionEdit(deleted: set<(nat, nat)>, added: seq<(nat, File)>)

  predicate EditOk(e: VersionEdit) {
    (forall d :: d in e.deleted ==> d.0 < NUM_LEVELS) && (forall a :: a in e.added ==> a.0 < NUM_LEVELS)
  }

  // ------------------------------------------------------------ file order

  /** Smallest key first, ties broken by file number. */
  predicate BySmallestKey(a: File, b: File) {
    Before(Smallest(a), Smallest(b)) || (Smallest(a) == Smallest(b) && a.number < b.number)
  }

  lemma OrderIsTotal(a: File, b: File)
    requires a.number != b.number
    ensures BySmallestKey(a, b) || BySmallestKey(b, a)
  {
    var x, y := Smallest(a), Smallest(b);
    if x.user == y.user && x.Tag() == y.Tag() {
      assert x == y;
    }
  }

  predicate Ordered(files: seq<File>) {
    forall i, j :: 0 <= i < j < |files| ==> BySmallestKey(files[i], files[j])
  }

  /** An ordered list is determined by its files. */
  lemma {:induction false} OrderedListIsUnique(a: seq<File>, b: seq<File>)
    requires Ordered(a) && Ordered(b) && forall f :: f in a <==> f in b
    ensures a == b
  {
    assert a != [] ==> a[0] in a;
    assert b != [] ==> b[0] in b;
    if a != [] && b != [] {
      assert a[0] == b[0];
      forall f ensures f in a[1..] <==> f in b[1..] {
        assert f in a[1..] ==> f in a && f != a[0];
        assert f in b[1..] ==> f in b && f != b[0];
      }
      OrderedListIsUnique(a[1..], b[1..]);
      assert a == [a[0]] + a[1..] && b == [b[0]] + b[1..];
    }
  }

  // ---------------------------------------------------- builder specification

  /** What a builder holds for one level: deleted file numbers and added files. */
  datatype LevelState = LevelState(deleted: set<nat>, added: set<File>)

  ghost function DeletedAt(e: VersionEdit, level: nat): set<nat> {
    set d | d in e.deleted && d.0 == level :: d.1
  }

  ghost function AddedAt(e: VersionEdit, level: nat): set<File> {
    set a | a in e.added && a.0 == level :: a.1
  }

  ghost function Numbers(files: set<File>): set<nat> { set f | f in files :: f.number }

  /** The deletions of an edit, then its additions one by one; each revives its number. */
  ghost function ApplyDeletions(st: LevelState, e: VersionEdit, level: nat): LevelState {
    st.(deleted := st.deleted + DeletedAt(e, level))
  }

  ghost function ApplyAdditions(st: LevelState, adds: seq<(nat, File)>, level: nat): LevelState {
    if adds == [] then st
    else AddOne(ApplyAdditions(st, adds[..|adds| - 1], level), adds[|adds| - 1], level)
  }

  ghost function AddOne(st: LevelState, add: (nat, File), level: nat): LevelState {
    if add.0 == level then LevelState(st.deleted - {add.1.number}, st.added + {add.1}) else st
  }

  ghost function ApplySpec(st: LevelState, e: VersionEdit, level: nat): LevelState {
    ApplyAdditions(ApplyDeletions(st, e, level), e.added, level)
  }

  /** The order of the additions does not matter. */
  lemma {:induction false} AdditionsAsSets(st: LevelState, adds: seq<(nat, File)>, level: nat)
    ensures var a := set x | x in adds && x.0 == level :: x.1;
      ApplyAdditions(st, adds, level) == LevelState(st.deleted - Numbers(a), st.added + a)
  {
    var a := set x | x in adds && x.0 == level :: x.1;
    if adds == [] {
      assert a == {} && st.deleted - Numbers(a) == st.deleted && st.added + a == st.added;
    } else {
      var last, front := adds[|adds| - 1], adds[..|adds| - 1];
      AdditionsAsSets(st, front, level);
      assert adds == front + [last];
      var b := set x | x in front && x.0 == level :: x.1;
      assert a == if last.0 == level then b + {last.1} else b;
      if last.0 == level {
        assert Numbers(a) == Numbers(b) + {last.1.number};
        assert st.deleted - Numbers(a) == st.deleted - Numbers(b) - {last.1.number};
        assert st.added + a == st.added + b + {last.1};
      }
    }
  }

  /** The files SaveTo keeps, as a set. */
  ghost function Kept(base: set<File>, st: LevelState): set<File> {
    set f | f in base + st.added && f.number !in st.deleted
  }

  ghost function FileSet(files: seq<File>): set<File> { set f | f in files }

  lemma LiveOneMore(files: seq<File>, i: nat, dead: set<nat>)
    ensures Live(files[..0], dead) == []
    ensures i < |files| ==> Live(files[..i + 1], dead) == Live(files[..i], dead) + if files[i].number in dead then [] else [files[i]]
  {
    if i < |files| {
      assert files[..i + 1][..i] == files[..i];
    }
  }

  lemma InsertInOrder(files: seq<File>, i: nat, f: File)
    requires Ordered(files) && i <= |files|
    requires forall j :: 0 <= j < i ==> BySmallestKey(files[j], f)
    requires i < |files| ==> BySmallestKey(f, files[i])
    ensures var r := files[..i] + [f] + files[i..]; Ordered(r) && FileSet(r) == FileSet(files) + {f}
  {
    var r := files[..i] + [f] + files[i..];
    forall j | i <= j < |files| ensures BySmallestKey(f, files[j]) {
      assert j == i || BySmallestKey(files[i], files[j]);
    }
    hide BySmallestKey;
    forall p, q | 0 <= p < q < |r| ensures BySmallestKey(r[p], r[q]) {
      assert p != i ==> r[p] == files[if p < i then p else p - 1];
      assert q != i ==> r[q] == files[if q < i then q else q - 1];
    }
    assert files == files[..i] + files[i..];
  }

  // ---------------------------------------------------------------- builder

  class Builder {
    const base: Version
    var deleted: seq<set<nat>>
    var added: seq<seq<File>>

    ghost predicate Valid() reads this {
      |deleted| == NUM_LEVELS && |added| == NUM_LEVELS && forall l :: 0 <= l < NUM_LEVELS ==> Ordered(added[l])
    }

    ghost function State(level: nat): LevelState
      requires Valid() && level < NUM_LEVELS
      reads this
    {
      LevelState(deleted[level], FileSet(added[level]))
    }

    constructor (base: Version)
      ensures Valid() && this.base == base
      ensures forall l :: 0 <= l < NUM_LEVELS ==> added[l] == [] && State(l) == LevelState({}, {})
    {
      this.base := base;
      deleted := seq(NUM_LEVELS, _ => {});
      added := seq(NUM_LEVELS, _ => []);
    }

    /** std::set insertion: a file that compares equal to a stored one is not inserted. */
    static method Insert(files: seq<File>, f: File) returns (r: seq<File>)
      requires Ordered(files)
      requires forall g :: g in files && g.number == f.number && Smallest(g) == Smallest(f) ==> g == f
      ensures Ordered(r) && FileSet(r) == FileSet(files) + {f}
    {
      var i := 0;
      while i < |files| && BySmallestKey(files[i], f)
        invariant i <= |files| && forall j :: 0 <= j < i ==> BySmallestKey(files[j], f)
      {
        i := i + 1;
      }
      if i < |files| && !BySmallestKey(f, files[i]) {
        assert files[i] == f;
        return files;
      }
      InsertInOrder(files, i, f);
      r := files[..i] + [f] + files[i..];
    }

    method Add(level: nat, f: File)
      requires Valid() && level < NUM_LEVELS
      requires forall g :: g in added[level] && g.number == f.number ==> g == f
      modifies this
      ensures Valid()
      ensures forall l :: 0 <= l < NUM_LEVELS ==> State(l) == AddOne(old(State(l)), (level, f), l)
    {
      var inserted := Insert(added[level], f);
      deleted := deleted[level := deleted[level] - {f.number}];
      added := added[level := inserted];
    }

    /** No number names two different files among the stored and the new files of a level. */
    ghost predicate NumbersAgree(edit: VersionEdit) reads this requires Valid() {
      forall l, f, g :: 0 <= l < NUM_LEVELS && (f in added[l] || (l, f) in edit.added) && (l, g) in edit.added
        ==> (f.number == g.number ==> f == g)
    }

    /** Applies the deletions of an edit and then its additions. */
    method Apply(edit: VersionEdit)
      requires Valid() && EditOk(edit) && NumbersAgree(edit)
      modifies this
      ensures Valid()
      ensures forall l :: 0 <= l < NUM_LEVELS ==> State(l) == ApplySpec(old(State(l)), edit, l)
    {
      for level := 0 to NUM_LEVELS
        invariant Valid() && added == old(added)
        invariant forall l :: 0 <= l < NUM_LEVELS ==>
          State(l) == if l < level then ApplyDeletions(old(State(l)), edit, l) else old(State(l))
      {
        deleted := deleted[level := deleted[level] + (set d | d in edit.deleted && d.0 == level :: d.1)];
      }
      var i := 0;
      while i < |edit.added|
        invariant i <= |edit.added| && Valid()
        invariant forall l :: 0 <= l < NUM_LEVELS ==>
          State(l) == ApplyAdditions(ApplyDeletions(old(State(l)), edit, l), edit.added[..i], l)
        invariant forall l, f :: 0 <= l < NUM_LEVELS && f in added[l] ==> f in old(added[l]) || (l, f) in edit.added
      {
        label before:
        var add := edit.added[i];
        assert add in edit.added;
        assert edit.added[..i + 1][..i] == edit.added[..i];
        Add(add.0, add.1);
        forall l, f | 0 <= l < NUM_LEVELS && f in added[l]
          ensures f in old(added[l]) || (l, f) in edit.added
        {
          assert f in State(l).added;
          assert f in old@before(State(l)).added || (l, f) == add;
        }
        i := i + 1;
      }
      assert edit.added[..i] == edit.added;
    }

    /** The position of the first base file after f, at or after a given position. */
    static method UpperBound(files: seq<File>, from: nat, f: File) returns (pos: nat)
      requires from <= |files| && Ordered(files)
      ensures from <= pos <= |files|
      ensures forall i :: from <= i < pos ==> !BySmallestKey(f, files[i])
      ensures forall i :: pos <= i < |files| ==> BySmallestKey(f, files[i])
    {
      var low, high := from, |files|;
      while low < high
        invariant from <= low <= high <= |files|
        invariant forall i :: from <= i < low ==> !BySmallestKey(f, files[i])
        invariant forall i :: high <= i < |files| ==> BySmallestKey(f, files[i])
      {
        var mid := (low + high) / 2;
        if BySmallestKey(f, files[mid]) {
          high := mid;
        } else {
          low := mid + 1;
        }
      }
      pos := low;
    }

    /** Appends the files that are not deleted. */
    static method AddFiles(out: seq<File>, more: seq<File>, dead: set<nat>) returns (r: seq<File>)
      ensures r == out + Live(more, dead)
    {
      hide Live;
      r := out;
      LiveOneMore(more, 0, dead);
      for i := 0 to |more|
        invariant r == out + Live(more[..i], dead)
      {
        LiveOneMore(more, i, dead);
        if more[i].number !in dead {
          r := r + [more[i]];
        }
      }
      assert more[..|more|] == more;
    }

    /** Merges the base files of a level with the added ones and drops deleted files. */
    static method SaveLevel(baseFiles: seq<File>, newFiles: seq<File>, dead: set<nat>) returns (files: seq<File>)
      requires Mergeable(baseFiles, newFiles)
      ensures Ordered(files)
      ensures FileSet(files) == Kept(FileSet(baseFiles), LevelState(dead, FileSet(newFiles)))
    {
      var basePos := 0;
      ghost var merged := [];
      files := [];
      for i := 0 to |newFiles|
        invariant Merged(merged, baseFiles, basePos, newFiles, i)
        invariant files == Live(merged, dead)
      {
        var bpos := UpperBound(baseFiles, basePos, newFiles[i]);
        var run := baseFiles[basePos..bpos];
        files := AddFiles(files, run, dead);
        files := AddFiles(files, [newFiles[i]], dead);
        LiveConcat(merged, run, dead);
        LiveConcat(merged + run, [newFiles[i]], dead);
        MergeStep(merged, baseFiles, basePos, bpos, newFiles, i);
        merged := merged + run + [newFiles[i]];
        basePos := bpos;
      }
      files := AddFiles(files, baseFiles[basePos..], dead);
      LiveConcat(merged, baseFiles[basePos..], dead);
      MergeEnd(merged, baseFiles, basePos, newFiles, dead);
    }

    method SaveTo() returns (v: Version)
      requires Valid()
      requires forall l :: 0 <= l < NUM_LEVELS ==> Ordered(base[l])
      requires forall l, f, g :: 0 <= l < NUM_LEVELS && f in base[l] && g in added[l] ==> f.number != g.number
      ensures forall l :: 0 <= l < NUM_LEVELS ==> Ordered(v[l]) && FileSet(v[l]) == Kept(FileSet(base[l]), State(l))
    {
      var levels: seq<seq<File>> := [];
      for level := 0 to NUM_LEVELS
        invariant |levels| == level
        invariant forall l :: 0 <= l < level ==>
          Ordered(levels[l]) && FileSet(levels[l]) == Kept(FileSet(base[l]), State(l))
      {
        var files := SaveLevel(base[level], added[level], deleted[level]);
        levels := levels + [files];
      }
      v := levels;
    }
  }

  function Live(files: seq<File>, dead: set<nat>): (r: seq<File>)
    ensures forall f :: f in r <==> f in files && f.number !in dead
  {
    if files == [] then []
    else
      var front := Live(files[..|files| - 1], dead);
      if files[|files| - 1].number in dead then front else front + [files[|files| - 1]]
  }

  lemma {:induction false} LiveConcat(a: seq<File>, b: seq<File>, dead: set<nat>)
    ensures Live(a + b, dead) == Live(a, dead) + Live(b, dead)
  {
    hide Live;
    if b == [] {
      LiveOneMore(b, 0, dead);
      assert a + b == a && b[..0] == b;
    } else {
      var front, n := b[..|b| - 1], |a + b| - 1;
      LiveConcat(a, front, dead);
      LiveOneMore(b, |b| - 1, dead);
      LiveOneMore(a + b, n, dead);
      assert (a + b)[..n] == a + front && (a + b)[..n + 1] == a + b && b[..|b| - 1 + 1] == b;
    }
  }

  lemma {:induction false} LiveIsOrdered(files: seq<File>, dead: set<nat>)
    requires Ordered(files)
    ensures Ordered(Live(files, dead))
  {
    if files != [] {
      LiveIsOrdered(files[..|files| - 1], dead);
    }
  }

  ghost predicate Mergeable(baseFiles: seq<File>, newFiles: seq<File>) {
    Ordered(baseFiles) && Ordered(newFiles) && forall f, g :: f in baseFiles && g in newFiles ==> f.number != g.number
  }

  /** merged holds baseFiles[..pos] and newFiles[..i], and the rest of both comes after it. */
  ghost predicate Merged(merged: seq<File>, baseFiles: seq<File>, pos: nat, newFiles: seq<File>, i: nat) {
    && pos <= |baseFiles| && i <= |newFiles| && Ordered(merged)
    && FileSet(merged) == FileSet(baseFiles[..pos]) + FileSet(newFiles[..i])
    && (forall f, j :: f in merged && pos <= j < |baseFiles| ==> BySmallestKey(f, baseFiles[j]))
    && (forall f, j :: f in merged && i <= j < |newFiles| ==> BySmallestKey(f, newFiles[j]))
  }

  lemma MergeStep(merged: seq<File>, baseFiles: seq<File>, lo: nat, hi: nat, newFiles: seq<File>, i: nat)
    requires Mergeable(baseFiles, newFiles) && Merged(merged, baseFiles, lo, newFiles, i)
    requires lo <= hi <= |baseFiles| && i < |newFiles|
    requires forall j :: lo <= j < hi ==> !BySmallestKey(newFiles[i], baseFiles[j])
    requires forall j :: hi <= j < |baseFiles| ==> BySmallestKey(newFiles[i], baseFiles[j])
    ensures Merged(merged + baseFiles[lo..hi] + [newFiles[i]], baseFiles, hi, newFiles, i + 1)
  {
    var run, f := baseFiles[lo..hi], newFiles[i];
    var m := merged + run + [f];
    MergeStepOrder(merged, baseFiles, lo, hi, newFiles, i);
    hide BySmallestKey;
    assert baseFiles[..hi] == baseFiles[..lo] + run;
    assert newFiles[..i + 1] == newFiles[..i] + [f];
    FileSetConcat(baseFiles[..lo], run);
    FileSetConcat(newFiles[..i], [f]);
    FileSetConcat(merged, run);
    FileSetConcat(merged + run, [f]);
  }

  lemma MergeStepOrder(merged: seq<File>, baseFiles: seq<File>, lo: nat, hi: nat, newFiles: seq<File>, i: nat)
    requires Mergeable(baseFiles, newFiles) && Merged(merged, baseFiles, lo, newFiles, i)
    requires lo <= hi <= |baseFiles| && i < |newFiles|
    requires forall j :: lo <= j < hi ==> !BySmallestKey(newFiles[i], baseFiles[j])
    ensures Ordered(merged + baseFiles[lo..hi] + [newFiles[i]])
  {
    var f := newFiles[i];
    var m := merged + baseFiles[lo..hi] + [f];
    forall j | lo <= j < hi ensures BySmallestKey(baseFiles[j], f) {
      OrderIsTotal(baseFiles[j], f);
    }
    hide BySmallestKey;
    forall p, q | 0 <= p < q < |m| ensures BySmallestKey(m[p], m[q]) {
      assert p < |merged| ==> m[p] in merged;
      assert |merged| <= p < |m| - 1 ==> m[p] == baseFiles[lo + p - |merged|];
      assert |merged| <= q < |m| - 1 ==> m[q] == baseFiles[lo + q - |merged|];
    }
  }

  lemma MergeEnd(merged: seq<File>, baseFiles: seq<File>, pos: nat, newFiles: seq<File>, dead: set<nat>)
    requires Mergeable(baseFiles, newFiles) && Merged(merged, baseFiles, pos, newFiles, |newFiles|)
    ensures var files := Live(merged + baseFiles[pos..], dead);
      Ordered(files) && FileSet(files) == Kept(FileSet(baseFiles), LevelState(dead, FileSet(newFiles)))
  {
    var rest := baseFiles[pos..];
    var m := merged + rest;
    forall p, q | 0 <= p < q < |m| ensures BySmallestKey(m[p], m[q]) {
      assert p < |merged| ==> m[p] in merged;
    }
    LiveIsOrdered(m, dead);
    assert baseFiles == baseFiles[..pos] + rest && newFiles[..|newFiles|] == newFiles;
    FileSetConcat(baseFiles[..pos], rest);
    FileSetConcat(merged, rest);
    assert FileSet(m) == FileSet(baseFiles) + FileSet(newFiles);
  }

  lemma FileSetConcat(a: seq<File>, b: seq<File>)
    ensures FileSet(a + b) == FileSet(a) + FileSet(b)
  {
  }
}
