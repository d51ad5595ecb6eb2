/** Table files and the searches over the files of a level. */
module Files {
  import opened DbFormat

  const NUM_LEVELS: nat := 7
  const MAX_MEM_COMPACT_LEVEL: nat := 2

  /** A table file: its number, its size in bytes, and the entries it stores. */
  datatype FileMetaData = FileMetaData(number: nat, size: nat, entries: seq<Entry>)

  type File = f: FileMetaData | f.entries != [] && Sorted(f.entries)
    witness FileMetaData(0, 0, [Entry(InternalKey(0.0, 0, Value), [])])

  function Smallest(f: File): InternalKey { f.entries[0].key }
  function Largest(f: File): InternalKey { f.entries[|f.entries| - 1].key }

  /** A version: the files of the seven levels. Versions are never modified. */
  type Version = v: seq<seq<File>> | |v| == NUM_LEVELS witness [[], [], [], [], [], [], []]

  lemma InRange(f: File, e: Entry)
    requires e in f.entries
    ensures Smallest(f).user <= e.key.user <= Largest(f).user
  {
    var i :| 0 <= i < |f.entries| && f.entries[i] == e;
    assert i == 0 || Precedes(f.entries[0], f.entries[i]);
    assert i == |f.entries| - 1 || Precedes(f.entries[i], f.entries[|f.entries| - 1]);
  }

  /** Files in internal key order with no overlap, as the build asserts for levels >= 1. */
  ghost predicate Disjoint(files: seq<File>) {
    forall i, j :: 0 <= i < j < |files| ==> Before(Largest(files[i]), Smallest(files[j]))
  }

  /** Stronger: no user key is split over two files. */
  ghost predicate UserDisjoint(files: seq<File>) {
    forall i, j :: 0 <= i < j < |files| ==> Largest(files[i]).user < Smallest(files[j]).user
  }

  // -------------------------------------------------------------- FindFile

  /** The index of the first file whose largest key is not before the target. */
  method FindFile(files: seq<File>, target: InternalKey) returns (right: nat)
    requires Disjoint(files)
    ensures right <= |files|
    ensures forall i :: 0 <= i < right ==> Before(Largest(files[i]), target)
    ensures forall i :: right <= i < |files| ==> !Before(Largest(files[i]), target)
  {
    FileBounds(files);
    var left := 0;
    right := |files|;
    while left < right
      invariant left <= right <= |files|
      invariant forall i :: 0 <= i < left ==> Before(Largest(files[i]), target)
      invariant forall i :: right <= i < |files| ==> !Before(Largest(files[i]), target)
    {
      var mid := (left + right) / 2;
      if Before(Largest(files[mid]), target) {
        left := mid + 1;
      } else {
        right := mid;
      }
    }
  }

  lemma FileBounds(files: seq<File>)
    requires Disjoint(files)
    ensures forall i, j :: 0 <= i < j < |files| ==> Before(Largest(files[i]), Largest(files[j]))
    ensures forall i, j :: 0 <= i < j < |files| ==> Before(Smallest(files[i]), Smallest(files[j]))
  {
    forall i | 0 <= i < |files|
      ensures Smallest(files[i]) == Largest(files[i]) || Before(Smallest(files[i]), Largest(files[i]))
    {
      var es := files[i].entries;
      if |es| > 1 { assert Precedes(es[0], es[|es| - 1]); }
    }
  }

  // --------------------------------------------------- overlap with a range

  /** Bounds are optional: a missing one leaves the range open on that side. */
  predicate AtLeast(lo: Option<UserKey>, k: UserKey) { lo.None? || lo.value <= k }
  predicate AtMost(hi: Option<UserKey>, k: UserKey) { hi.None? || k <= hi.value }

  predicate Overlaps(f: File, lo: Option<UserKey>, hi: Option<UserKey>) {
    AtLeast(lo, Largest(f).user) && AtMost(hi, Smallest(f).user)
  }

  method SomeFileOverlapsRange(disjoint: bool, files: seq<File>, lo: Option<UserKey>, hi: Option<UserKey>)
    returns (r: bool)
    requires disjoint ==> Disjoint(files)
    requires disjoint ==> forall i :: 0 <= i < |files| ==> Largest(files[i]).sequence <= MAX_SEQUENCE_NUMBER
    ensures r <==> exists f :: f in files && Overlaps(f, lo, hi)
  {
    if !disjoint {
      for i := 0 to |files|
        invariant forall j :: 0 <= j < i ==> !Overlaps(files[j], lo, hi)
      {
        if Overlaps(files[i], lo, hi) {
          return true;
        }
      }
      return false;
    }
    var index := 0;
    if lo.Some? {
      index := FindFile(files, InternalKey(lo.value, MAX_SEQUENCE_NUMBER, Value));
    }
    if index >= |files| {
      return false;
    }
    r := AtMost(hi, Smallest(files[index]).user);
    FileBounds(files);
    if r { assert Overlaps(files[index], lo, hi); }
  }

  function TotalFileSize(files: seq<File>): nat {
    if files == [] then 0 else files[0].size + TotalFileSize(files[1..])
  }

  lemma {:induction false} OneMoreFile(files: seq<File>, i: nat, j: nat)
    requires i <= j < |files|
    ensures TotalFileSize(files[i..j + 1]) == TotalFileSize(files[i..j]) + files[j].size
    decreases j - i
  {
    assert files[i..j + 1][1..] == files[i + 1..j + 1];
    if i < j {
      assert files[i..j][1..] == files[i + 1..j];
      OneMoreFile(files, i + 1, j);
    }
  }

  // ------------------------------------------------- GetOverlappingInputs

  /** The files that meet a range, in their order in the level. */
  function OverlapFilter(files: seq<File>, lo: Option<UserKey>, hi: Option<UserKey>): (r: seq<File>)
    ensures forall f :: f in r <==> f in files && Overlaps(f, lo, hi)
  {
    if files == [] then []
    else
      var rest := OverlapFilter(files[..|files| - 1], lo, hi);
      var last := files[|files| - 1];
      if Overlaps(last, lo, hi) then rest + [last] else rest
  }

  ghost predicate NoRepeats(files: seq<File>) {
    forall i, j :: 0 <= i < j < |files| ==> files[i] != files[j]
  }

  lemma {:induction false} OverlapFilterNoRepeats(files: seq<File>, lo: Option<UserKey>, hi: Option<UserKey>)
    requires NoRepeats(files)
    ensures NoRepeats(OverlapFilter(files, lo, hi))
  {
    if files != [] {
      var front := files[..|files| - 1];
      OverlapFilterNoRepeats(front, lo, hi);
      assert files[|files| - 1] !in front;
      assert forall i :: 0 <= i < |OverlapFilter(front, lo, hi)| ==> OverlapFilter(front, lo, hi)[i] in front;
    }
  }

  predicate Covers(lo: Option<UserKey>, hi: Option<UserKey>, lo0: Option<UserKey>, hi0: Option<UserKey>) {
    && (lo.None? || (lo0.Some? && lo.value <= lo0.value))
    && (hi.None? || (hi0.Some? && hi0.value <= hi.value))
  }

  /** No file that meets the range sticks out of it. */
  ghost predicate Closed(files: seq<File>, lo: Option<UserKey>, hi: Option<UserKey>) {
    forall f :: f in files && Overlaps(f, lo, hi) ==> AtLeast(lo, Smallest(f).user) && AtMost(hi, Largest(f).user)
  }

  /** Every closed range that covers [lo0, hi0] also covers [lo, hi]. */
  ghost predicate Forced(files: seq<File>, lo0: Option<UserKey>, hi0: Option<UserKey>,
                         lo: Option<UserKey>, hi: Option<UserKey>)
  {
    forall l, h :: Closed(files, l, h) && Covers(l, h, lo0, hi0) ==> Covers(l, h, lo, hi)
  }

  /** [lo, hi] is the least closed range that covers [lo0, hi0]. */
  ghost predicate LeastClosed(files: seq<File>, lo0: Option<UserKey>, hi0: Option<UserKey>,
                              lo: Option<UserKey>, hi: Option<UserKey>)
  {
    Closed(files, lo, hi) && Covers(lo, hi, lo0, hi0) && Forced(files, lo0, hi0, lo, hi)
  }

  /** How many files stick out of the range; each restart of the search lowers it. */
  function Outside(files: seq<File>, lo: Option<UserKey>, hi: Option<UserKey>): nat {
    if files == [] then
      0
    else
      (if AtLeast(lo, Smallest(files[0]).user) then 0 else 1)
      + (if AtMost(hi, Largest(files[0]).user) then 0 else 1)
      + Outside(files[1..], lo, hi)
  }

  lemma {:induction false} OutsideShrinks(files: seq<File>, lo: Option<UserKey>, hi: Option<UserKey>,
                                          lo': Option<UserKey>, hi': Option<UserKey>)
    requires Covers(lo', hi', lo, hi)
    ensures Outside(files, lo', hi') <= Outside(files, lo, hi)
    ensures forall f :: f in files && AtLeast(lo', Smallest(f).user) && !AtLeast(lo, Smallest(f).user)
              ==> Outside(files, lo', hi') < Outside(files, lo, hi)
    ensures forall f :: f in files && AtMost(hi', Largest(f).user) && !AtMost(hi, Largest(f).user)
              ==> Outside(files, lo', hi') < Outside(files, lo, hi)
  {
    if files != [] {
      OutsideShrinks(files[1..], lo, hi, lo', hi');
      assert files == [files[0]] + files[1..];
    }
  }

  /** Widening the range to a file that meets it is forced, and lowers Outside. */
  lemma Widen(files: seq<File>, f: File, lo0: Option<UserKey>, hi0: Option<UserKey>,
              lo: Option<UserKey>, hi: Option<UserKey>, lo': Option<UserKey>, hi': Option<UserKey>)
    requires f in files && Overlaps(f, lo, hi)
    requires Covers(lo, hi, lo0, hi0) && Forced(files, lo0, hi0, lo, hi)
    requires (lo' == Some(Smallest(f).user) && hi' == hi && !AtLeast(lo, Smallest(f).user))
          || (hi' == Some(Largest(f).user) && lo' == lo && !AtMost(hi, Largest(f).user))
    ensures Covers(lo', hi', lo0, hi0) && Forced(files, lo0, hi0, lo', hi')
    ensures Outside(files, lo', hi') < Outside(files, lo, hi)
  {
    OutsideShrinks(files, lo, hi, lo', hi');
    forall l, h | Closed(files, l, h) && Covers(l, h, lo0, hi0)
      ensures Covers(l, h, lo', hi')
    {
      assert Covers(l, h, lo, hi);
      assert Overlaps(f, l, h);
    }
  }

  /** The search has covered files[..i] with the range [lo, hi]. */
  ghost predicate Scanned(level: nat, files: seq<File>, i: nat, begin: Option<UserKey>, end: Option<UserKey>,
                          lo: Option<UserKey>, hi: Option<UserKey>, inputs: seq<File>)
  {
    && i <= |files| && inputs == OverlapFilter(files[..i], lo, hi)
    && Covers(lo, hi, begin, end) && Forced(files, begin, end, lo, hi)
    && (level > 0 ==> lo == begin && hi == end)
    && (level == 0 ==> Closed(files[..i], lo, hi))
  }

  lemma ScanNext(level: nat, files: seq<File>, i: nat, begin: Option<UserKey>, end: Option<UserKey>,
                 lo: Option<UserKey>, hi: Option<UserKey>, inputs: seq<File>)
    requires Scanned(level, files, i, begin, end, lo, hi, inputs) && i < |files|
    requires level == 0 && Overlaps(files[i], lo, hi) ==>
      AtLeast(lo, Smallest(files[i]).user) && AtMost(hi, Largest(files[i]).user)
    ensures Scanned(level, files, i + 1, begin, end, lo, hi, if Overlaps(files[i], lo, hi) then inputs + [files[i]] else inputs)
  {
    assert files[..i + 1] == files[..i] + [files[i]] && files[..i + 1][..i] == files[..i];
  }

  lemma ScanRestart(files: seq<File>, i: nat, begin: Option<UserKey>, end: Option<UserKey>,
                    lo: Option<UserKey>, hi: Option<UserKey>, inputs: seq<File>, lo': Option<UserKey>, hi': Option<UserKey>)
    requires Scanned(0, files, i, begin, end, lo, hi, inputs) && i < |files| && Overlaps(files[i], lo, hi)
    requires var f := files[i];
      || (lo' == Some(Smallest(f).user) && hi' == hi && !AtLeast(lo, Smallest(f).user))
      || (hi' == Some(Largest(f).user) && lo' == lo && !AtMost(hi, Largest(f).user))
    ensures Scanned(0, files, 0, begin, end, lo', hi', [])
    ensures Outside(files, lo', hi') < Outside(files, lo, hi)
  {
    Widen(files, files[i], begin, end, lo, hi, lo', hi');
  }

  /** All files of a level that meet [begin, end]. Level-0 files may overlap each other,
      so there the range is widened until it is closed. */
  method GetOverlappingInputs(level: nat, files: seq<File>, begin: Option<UserKey>, end: Option<UserKey>)
    returns (inputs: seq<File>, ghost lo: Option<UserKey>, ghost hi: Option<UserKey>)
    ensures level > 0 ==> lo == begin && hi == end
    ensures level == 0 ==> LeastClosed(files, begin, end, lo, hi)
    ensures inputs == OverlapFilter(files, lo, hi)
  {
    hide OverlapFilter, Forced, Closed, Outside, Sorted;
    inputs := [];
    var userBegin, userEnd := begin, end;
    var i := 0;
    ScanStart(level, files, begin, end);
    while i < |files|
      invariant Scanned(level, files, i, begin, end, userBegin, userEnd, inputs)
      decreases Outside(files, userBegin, userEnd), |files| - i
    {
      hide Scanned;
      var f := files[i];
      var fileStart, fileLimit := Smallest(f).user, Largest(f).user;
      if userBegin.Some? && fileLimit < userBegin.value {
        ScanNext(level, files, i, begin, end, userBegin, userEnd, inputs);
        i := i + 1;
      } else if userEnd.Some? && fileStart > userEnd.value {
        ScanNext(level, files, i, begin, end, userBegin, userEnd, inputs);
        i := i + 1;
      } else if level == 0 && userBegin.Some? && fileStart < userBegin.value {
        ScanRestart(files, i, begin, end, userBegin, userEnd, inputs, Some(fileStart), userEnd);
        userBegin, inputs, i := Some(fileStart), [], 0;
      } else if level == 0 && userEnd.Some? && fileLimit > userEnd.value {
        ScanRestart(files, i, begin, end, userBegin, userEnd, inputs, userBegin, Some(fileLimit));
        userEnd, inputs, i := Some(fileLimit), [], 0;
      } else {
        ScanNext(level, files, i, begin, end, userBegin, userEnd, inputs);
        inputs, i := inputs + [f], i + 1;
      }
    }
    lo, hi := userBegin, userEnd;
    assert i == |files| && files[..i] == files;
  }

  lemma ScanStart(level: nat, files: seq<File>, begin: Option<UserKey>, end: Option<UserKey>)
    ensures Scanned(level, files, 0, begin, end, begin, end, [])
  {
  }
}
