/** Why a compaction changes no read at a snapshot it has to preserve. */
module CompactionReads {
  import opened DbFormat
  import opened Files
  import opened Compaction
  import opened Ages

  // ----------------------------------------------------------- the merged input

  function Merge(a: seq<Entry>, b: seq<Entry>): (r: seq<Entry>)
    ensures forall e :: e in r <==> e in a || e in b
  {
    if a == [] then b
    else if b == [] then a
    else if Precedes(a[0], b[0]) then [a[0]] + Merge(a[1..], b)
    else [b[0]] + Merge(a, b[1..])
  }

  ghost predicate Comparable(a: seq<Entry>, b: seq<Entry>) {
    forall x, y :: x in a && y in b ==> Precedes(x, y) || Precedes(y, x)
  }

  lemma {:induction false} MergeIsSorted(a: seq<Entry>, b: seq<Entry>)
    requires Sorted(a) && Sorted(b) && Comparable(a, b)
    ensures Sorted(Merge(a, b))
  {
    if a != [] && b != [] {
      if Precedes(a[0], b[0]) {
        MergeIsSorted(a[1..], b);
        HeadPrecedes(a[0], a, b, Merge(a[1..], b));
      } else {
        MergeIsSorted(a, b[1..]);
        assert Precedes(b[0], a[0]);
        HeadPrecedes(b[0], b, a, Merge(a, b[1..]));
      }
    }
  }

  lemma HeadPrecedes(x: Entry, a: seq<Entry>, b: seq<Entry>, rest: seq<Entry>)
    requires Sorted(a) && Sorted(b) && a != [] && a[0] == x && b != [] && Precedes(x, b[0])
    requires Sorted(rest) && forall e :: e in rest <==> e in a[1..] || e in b
    ensures Sorted([x] + rest)
  {
    forall e | e in rest ensures Precedes(x, e) {
      if e in a[1..] {
        var i :| 0 <= i < |a[1..]| && a[1..][i] == e;
        assert Precedes(a[0], a[i + 1]);
      } else {
        var i :| 0 <= i < |b| && b[i] == e;
        assert i == 0 || Precedes(b[0], b[i]);
      }
    }
    assert forall i :: 0 <= i < |rest| ==> rest[i] in rest;
  }

  /** What MakeInputIterator walks over: the entries of all the input files, merged. */
  function MergeFiles(files: seq<File>): (r: seq<Entry>)
    ensures forall e :: e in r <==> e in FileEntries(files)
  {
    if files == [] then []
    else
      assert files == [files[0]] + files[1..];
      Merge(files[0].entries, MergeFiles(files[1..]))
  }

  ghost predicate FilesComparable(files: seq<File>) {
    forall i, j :: 0 <= i < j < |files| ==> Comparable(files[i].entries, files[j].entries)
  }

  lemma {:induction false} MergeFilesIsSorted(files: seq<File>)
    requires FilesComparable(files)
    ensures Sorted(MergeFiles(files))
  {
    if files != [] {
      var rest := files[1..];
      assert forall i, j :: 0 <= i < j < |rest| ==> Comparable(rest[i].entries, rest[j].entries);
      MergeFilesIsSorted(rest);
      forall x, y | x in files[0].entries && y in MergeFiles(rest) ensures Precedes(x, y) || Precedes(y, x) {
        var f :| f in rest && y in f.entries;
        var j :| 0 <= j < |rest| && rest[j] == f;
        assert Comparable(files[0].entries, files[j + 1].entries);
      }
      MergeIsSorted(files[0].entries, MergeFiles(rest));
    }
  }

  // -------------------------------------------------------------- drops are safe

  ghost predicate IsInput(in0: seq<File>, in1: seq<File>, input: seq<Entry>) {
    Sorted(input) && ToSet(input) == FileEntries(in0) + FileEntries(in1)
  }

  ghost function DroppedEntries(v: Version, level: nat, input: seq<Entry>, snapshot: nat): set<Entry> {
    set i | 0 <= i < |input| && Dropped(v, level, input, i, snapshot) :: input[i]
  }

  lemma InputHome(v: Version, level: nat, in0: seq<File>, in1: seq<File>, input: seq<Entry>, e: Entry)
    returns (l: nat, f: File)
    requires InputsOk(v, level, in0, in1) && IsInput(in0, in1, input) && e in input
    ensures (l == level && f in in0) || (l == level + 1 && f in in1)
    ensures l < NUM_LEVELS && f in v[l] && e in f.entries
  {
    assert e in ToSet(input);
    if e in FileEntries(in0) {
      f :| f in in0 && e in f.entries;
      l := level;
    } else {
      f :| f in in1 && e in f.entries;
      l := level + 1;
    }
  }

  /** The entries lie in an input file and in a left-out file of its level that share a user key. */
  ghost predicate LeftOut(v: Version, level: nat, in0: seq<File>, in1: seq<File>, d: Entry, y: Entry)
    requires level + 1 < NUM_LEVELS
  {
    exists f: File, g: File :: d in f.entries && y in g.entries && !Apart(f, g) && (FileBefore(f, g) || FileBefore(g, f)) &&
      ((level > 0 && f in in0 && g in v[level] && g !in in0) || (f in in1 && g in v[level + 1] && g !in in1))
  }

  lemma ClearLeavesNoneOut(v: Version, level: nat, in0: seq<File>, in1: seq<File>, d: Entry, y: Entry)
    requires level + 1 < NUM_LEVELS && KeysClear(v, level, in0, in1)
    ensures !LeftOut(v, level, in0, in1, d, y)
  {
  }

  /** An older entry of the same user key is an input entry or left out, if no deeper file has the key. */
  lemma OlderOrLeftOut(v: Version, level: nat, in0: seq<File>, in1: seq<File>, input: seq<Entry>, d: Entry, y: Entry)
    requires Layered(v) && InputsOk(v, level, in0, in1) && IsInput(in0, in1, input)
    requires d in input && y in Entries(v) && y.key.user == d.key.user && y.key.sequence < d.key.sequence
    requires BaseLevel(v, level, d.key.user)
    ensures y in input || LeftOut(v, level, in0, in1, d, y)
  {
    hide InputsOk, Placed, LeftOut;
    var l, f := InputHome(v, level, in0, in1, input, d);
    var m, g := Locate(v, y);
    InRange(g, y);
    assert InFile(g, y.key.user);
    assert SearchedBefore(m, g, l, f) ==> NewerFile(g, f);
    if (m == level && g in in0) || (m == level + 1 && g in in1) {
      assert y in ToSet(input);
    } else {
      OnInputLevel(v, level, in0, in1, l, f, d, m, g, y);
    }
  }

  /** A file outside the inputs that is not searched before an input file, shares a user key with it, and
      is not deeper than the inputs is left out on its level. */
  lemma OnInputLevel(v: Version, level: nat, in0: seq<File>, in1: seq<File>, l: nat, f: File, d: Entry, m: nat, g: File, y: Entry)
    requires Placed(v) && InputsOk(v, level, in0, in1)
    requires (l == level && f in in0) || (l == level + 1 && f in in1)
    requires m < NUM_LEVELS && g in v[m] && !(m == level && g in in0) && !(m == level + 1 && g in in1)
    requires d in f.entries && y in g.entries && d.key.user == y.key.user && l <= m <= level + 1
    ensures LeftOut(v, level, in0, in1, d, y)
  {
    SharedKey(v, level, in0, in1, l, f, d, m, g, y);
  }

  /** With a clear key check it is an input entry. */
  lemma OlderIsInput(v: Version, level: nat, in0: seq<File>, in1: seq<File>, input: seq<Entry>, d: Entry, y: Entry)
    requires Layered(v) && InputsOk(v, level, in0, in1) && IsInput(in0, in1, input) && KeysClear(v, level, in0, in1)
    requires d in input && y in Entries(v) && y.key.user == d.key.user && y.key.sequence < d.key.sequence
    requires BaseLevel(v, level, d.key.user)
    ensures y in input
  {
    hide Layered, IsInput, BaseLevel, KeysClear, LeftOut;
    OlderOrLeftOut(v, level, in0, in1, input, d, y);
    ClearLeavesNoneOut(v, level, in0, in1, d, y);
  }

  /** Once an entry is visible to the snapshot, all later entries of its key are hidden. */
  lemma LaterIsHidden(input: seq<Entry>, i: nat, j: nat, snapshot: nat)
    requires Sorted(input) && i < j < |input| && input[i].key.user == input[j].key.user
    requires input[i].key.sequence <= snapshot
    ensures Hidden(input, j, snapshot)
  {
    assert Precedes(input[j - 1], input[j]);
    assert i == j - 1 || Precedes(input[i], input[j - 1]);
  }

  /** Rule (A): the entry that hides a dropped one is stored, newer, and visible. */
  lemma HiddenDropIsSafe(v: Version, level: nat, in0: seq<File>, in1: seq<File>, input: seq<Entry>, i: nat, snapshot: nat)
    requires InputsOk(v, level, in0, in1) && IsInput(in0, in1, input)
    requires i < |input| && Hidden(input, i, snapshot)
    ensures var x, d := input[i - 1], input[i];
      x in Entries(v) && x.key.user == d.key.user && d.key.sequence < x.key.sequence <= snapshot
  {
    var m, g := InputHome(v, level, in0, in1, input, input[i - 1]);
    assert Precedes(input[i - 1], input[i]);
  }

  /** Rule (B): below a dropped deletion everything of its key is dropped as well. */
  lemma BaseDropIsSafe(v: Version, level: nat, in0: seq<File>, in1: seq<File>, input: seq<Entry>, i: nat, snapshot: nat,
                       y: Entry)
    requires Layered(v) && InputsOk(v, level, in0, in1) && IsInput(in0, in1, input) && KeysClear(v, level, in0, in1)
    requires i < |input| && input[i].key.sequence <= snapshot && BaseLevel(v, level, input[i].key.user)
    requires y in Entries(v) && y.key.user == input[i].key.user && y.key.sequence < input[i].key.sequence
    ensures y in DroppedEntries(v, level, input, snapshot)
  {
    hide Layered, InputsOk, KeysClear, BaseLevel;
    OlderIsInput(v, level, in0, in1, input, input[i], y);
    var j :| 0 <= j < |input| && input[j] == y;
    OlderIsLater(input, i, j);
    LaterIsHidden(input, i, j, snapshot);
    assert Dropped(v, level, input, j, snapshot);
  }

  lemma OlderIsLater(input: seq<Entry>, i: nat, j: nat)
    requires Sorted(input) && i < |input| && j < |input|
    requires input[i].key.user == input[j].key.user && input[j].key.sequence < input[i].key.sequence
    ensures i < j
  {
    assert forall n :: 0 <= n < i ==> Precedes(input[n], input[i]);
  }

  lemma DropIsSafe(v: Version, level: nat, in0: seq<File>, in1: seq<File>, input: seq<Entry>, snapshot: nat,
                   above: set<Entry>, d: Entry)
    requires Layered(v) && InputsOk(v, level, in0, in1) && IsInput(in0, in1, input) && KeysClear(v, level, in0, in1)
    requires NewerThan(above, Entries(v)) && d in DroppedEntries(v, level, input, snapshot)
    ensures SafelyDropped(above + Entries(v), DroppedEntries(v, level, input, snapshot), snapshot, d)
  {
    hide Layered, InputsOk, IsInput, BaseLevel, KeysClear;
    var all, dropped := above + Entries(v), DroppedEntries(v, level, input, snapshot);
    var i :| 0 <= i < |input| && Dropped(v, level, input, i, snapshot) && input[i] == d;
    if Hidden(input, i, snapshot) {
      HiddenDropIsSafe(v, level, in0, in1, input, i, snapshot);
      assert input[i - 1] in all;
    } else {
      var l, f := InputHome(v, level, in0, in1, input, d);
      assert d in Entries(v);
      forall y | y in all && y.key.user == d.key.user && y.key.sequence < d.key.sequence ensures y in dropped {
        assert y in Entries(v);
        BaseDropIsSafe(v, level, in0, in1, input, i, snapshot, y);
      }
    }
  }

  /** The drop rules are safe for every snapshot >= the smallest one, also with memtables above. */
  lemma DropsAreSafe(v: Version, level: nat, in0: seq<File>, in1: seq<File>, input: seq<Entry>, snapshot: nat,
                     above: set<Entry>)
    requires Layered(v) && InputsOk(v, level, in0, in1) && IsInput(in0, in1, input) && KeysClear(v, level, in0, in1)
    requires NewerThan(above, Entries(v))
    ensures SafeDrop(above + Entries(v), DroppedEntries(v, level, input, snapshot), snapshot)
  {
    var all, dropped := above + Entries(v), DroppedEntries(v, level, input, snapshot);
    forall d | d in dropped ensures SafelyDropped(all, dropped, snapshot, d) {
      DropIsSafe(v, level, in0, in1, input, snapshot, above, d);
    }
  }

  // ------------------------------------------------------- exactly when a read changes

  lemma DropKinds(v: Version, level: nat, input: seq<Entry>, i: nat, snapshot: nat)
    requires Sorted(input) && i < |input| && Dropped(v, level, input, i, snapshot)
    ensures input[i].key.sequence <= snapshot
    ensures !Hidden(input, i, snapshot) ==> input[i].key.typ.Deletion? && BaseLevel(v, level, input[i].key.user)
    ensures Hidden(input, i, snapshot) ==>
      input[i - 1].key.user == input[i].key.user && input[i].key.sequence < input[i - 1].key.sequence <= snapshot
  {
    if Hidden(input, i, snapshot) {
      assert Precedes(input[i - 1], input[i]);
    }
  }

  /** The compaction drops the deletion d, which is what the snapshot sees of its user key, and
      the newest older entry that is no input is the value y. */
  ghost predicate Uncovers(all: set<Entry>, v: Version, level: nat, input: seq<Entry>, snapshot: nat, d: Entry, y: Entry) {
    && d in input && d.key.typ.Deletion? && Newest(all, d.key.user, snapshot, d) && BaseLevel(v, level, d.key.user)
    && OlderOutside(all, input, d, y) && y.key.typ.Value?
    && forall z :: OlderOutside(all, input, d, z) ==> z.key.sequence <= y.key.sequence
  }

  ghost predicate OlderOutside(all: set<Entry>, input: seq<Entry>, d: Entry, y: Entry) {
    y in all && y !in input && y.key.user == d.key.user && y.key.sequence < d.key.sequence
  }

  /** Older input entries of a key of which the snapshot sees an input entry are all dropped. */
  lemma OlderInputsAreDropped(v: Version, level: nat, input: seq<Entry>, snapshot: nat, d: Entry, y: Entry)
    requires Sorted(input) && d in input && y in input && d.key.user == y.key.user
    requires y.key.sequence < d.key.sequence <= snapshot
    ensures y in DroppedEntries(v, level, input, snapshot)
  {
    var i :| 0 <= i < |input| && input[i] == d;
    var j :| 0 <= j < |input| && input[j] == y;
    assert j < i ==> Precedes(y, d);
    LaterIsHidden(input, i, j, snapshot);
    assert Dropped(v, level, input, j, snapshot);
  }

  /** An uncovered value is what the snapshot reads afterwards. */
  lemma UncoveredIsRead(all: set<Entry>, v: Version, level: nat, input: seq<Entry>, snapshot: nat, d: Entry, y: Entry)
    requires DistinctSeqs(all) && Sorted(input) && Uncovers(all, v, level, input, snapshot, d, y)
    ensures Read(all, d.key.user, snapshot) == None
    ensures Read(all - DroppedEntries(v, level, input, snapshot), d.key.user, snapshot) == Some(y.value)
  {
    hide Read, BaseLevel;
    var rest := all - DroppedEntries(v, level, input, snapshot);
    ReadNewest(all, d.key.user, snapshot, d);
    var i :| 0 <= i < |input| && input[i] == d;
    assert Dropped(v, level, input, i, snapshot);
    forall z | z in rest && z.key.user == d.key.user && z.key.sequence <= snapshot ensures z.key.sequence <= y.key.sequence {
      if z in input && z != d {
        assert z.key.sequence < d.key.sequence;
        OlderInputsAreDropped(v, level, input, snapshot, d, z);
      } else if z !in input {
        assert OlderOutside(all, input, d, z);
      }
    }
    ReadNewest(rest, d.key.user, snapshot, y);
  }

  lemma NewestIsNotHidden(all: set<Entry>, input: seq<Entry>, i: nat, snapshot: nat, s: nat)
    requires Sorted(input) && i < |input| && snapshot <= s && forall e :: e in input ==> e in all
    requires Newest(all, input[i].key.user, s, input[i])
    ensures !Hidden(input, i, snapshot)
  {
    if i > 0 {
      assert Precedes(input[i - 1], input[i]) && input[i - 1] in all;
    }
  }

  /** If nothing is uncovered, the read of a key is as before. */
  lemma ReadStays(all: set<Entry>, v: Version, level: nat, input: seq<Entry>, snapshot: nat, k: UserKey, s: nat)
    requires DistinctSeqs(all) && Sorted(input) && snapshot <= s && forall e :: e in input ==> e in all
    requires forall d: Entry, y :: d.key.user == k ==> !Uncovers(all, v, level, input, snapshot, d, y)
    ensures Read(all - DroppedEntries(v, level, input, snapshot), k, s) == Read(all, k, s)
  {
    hide BaseLevel;
    var dropped := DroppedEntries(v, level, input, snapshot);
    var rest := all - dropped;
    if x :| x in all && x.key.user == k && x.key.sequence <= s {
      var n := NewestExists(all, k, s, x);
      ReadNewest(all, k, s, n);
      if n !in dropped {
        ReadNewest(rest, k, s, n);
      } else {
        var i :| 0 <= i < |input| && Dropped(v, level, input, i, snapshot) && input[i] == n;
        NewestIsNotHidden(all, input, i, snapshot, s);
        DropKinds(v, level, input, i, snapshot);
        assert Newest(all, k, snapshot, n);
        if z :| z in rest && z.key.user == k && z.key.sequence <= s {
          var r := NewestExists(rest, k, s, z);
          ReadNewest(rest, k, s, r);
          NotUncovered(all, v, level, input, snapshot, s, n, r);
        }
      }
    }
  }

  lemma NotUncovered(all: set<Entry>, v: Version, level: nat, input: seq<Entry>, snapshot: nat, s: nat, n: Entry, r: Entry)
    requires DistinctSeqs(all) && Sorted(input) && snapshot <= s
    requires n in DroppedEntries(v, level, input, snapshot) && n in input && n.key.typ.Deletion?
    requires BaseLevel(v, level, n.key.user) && Newest(all, n.key.user, s, n) && Newest(all, n.key.user, snapshot, n)
    requires Newest(all - DroppedEntries(v, level, input, snapshot), n.key.user, s, r)
    requires !Uncovers(all, v, level, input, snapshot, n, r)
    ensures r.key.typ.Deletion?
  {
    hide BaseLevel;
    var dropped := DroppedEntries(v, level, input, snapshot);
    if r in input {
      OlderInputsAreDropped(v, level, input, snapshot, n, r);
    }
    forall z | OlderOutside(all, input, n, z) ensures z.key.sequence <= r.key.sequence {
      assert z !in dropped;
    }
    assert OlderOutside(all, input, n, r);
  }

  /** A compaction changes a read at a snapshot it must preserve if and only if it uncovers a value. */
  lemma ReadsChangeIff(all: set<Entry>, v: Version, level: nat, input: seq<Entry>, snapshot: nat)
    requires DistinctSeqs(all) && Sorted(input) && forall e :: e in input ==> e in all
    ensures (forall k, s :: snapshot <= s ==> Read(all - DroppedEntries(v, level, input, snapshot), k, s) == Read(all, k, s))
      <==> forall d, y :: !Uncovers(all, v, level, input, snapshot, d, y)
  {
    hide Read, Uncovers, DroppedEntries;
    var rest := all - DroppedEntries(v, level, input, snapshot);
    if d, y :| Uncovers(all, v, level, input, snapshot, d, y) {
      UncoveredIsRead(all, v, level, input, snapshot, d, y);
      assert Read(rest, d.key.user, snapshot) != Read(all, d.key.user, snapshot);
    } else {
      forall k, s | snapshot <= s ensures Read(rest, k, s) == Read(all, k, s) {
        ReadStays(all, v, level, input, snapshot, k, s);
      }
    }
  }

  /** A value is uncovered only in a left-out file that shares its user key with an input file. */
  lemma UncoveredIsLeftOut(v: Version, level: nat, in0: seq<File>, in1: seq<File>, input: seq<Entry>, snapshot: nat,
                           above: set<Entry>, d: Entry, y: Entry)
    requires Layered(v) && InputsOk(v, level, in0, in1) && IsInput(in0, in1, input) && NewerThan(above, Entries(v))
    requires Uncovers(above + Entries(v), v, level, input, snapshot, d, y)
    ensures LeftOut(v, level, in0, in1, d, y)
  {
    hide Layered, InputsOk, IsInput, BaseLevel, LeftOut;
    var l, f := InputHome(v, level, in0, in1, input, d);
    assert d in Entries(v);
    assert y in Entries(v);
    OlderOrLeftOut(v, level, in0, in1, input, d, y);
  }
}
