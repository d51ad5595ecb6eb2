/** Choosing the inputs of a compaction and the loop that drops obsolete entries. */
module Compaction {
  import opened DbFormat
  import opened Files
  import opened OutputCuts

  // ------------------------------------------------------------------ key ranges

  function LowUser(files: seq<File>): (k: UserKey)
    requires files != []
    ensures exists f :: f in files && Smallest(f).user == k
    ensures forall f :: f in files ==> k <= Smallest(f).user
  {
    var k := Smallest(files[0]).user;
    if |files| == 1 then k
    else
      var rest := LowUser(files[1..]);
      assert files == [files[0]] + files[1..];
      if rest < k then rest else k
  }

  function HighUser(files: seq<File>): (k: UserKey)
    requires files != []
    ensures exists f :: f in files && Largest(f).user == k
    ensures forall f :: f in files ==> Largest(f).user <= k
  {
    var k := Largest(files[0]).user;
    if |files| == 1 then k
    else
      var rest := HighUser(files[1..]);
      assert files == [files[0]] + files[1..];
      if k < rest then rest else k
  }

  /** The minimal range that covers all entries of the inputs. */
  method GetRange(inputs: seq<File>) returns (smallest: InternalKey, largest: InternalKey)
    requires inputs != []
    ensures exists f :: f in inputs && Smallest(f) == smallest
    ensures exists f :: f in inputs && Largest(f) == largest
    ensures forall f :: f in inputs ==> !Before(Smallest(f), smallest) && !Before(largest, Largest(f))
    ensures smallest.user == LowUser(inputs) && largest.user == HighUser(inputs)
  {
    smallest, largest := Smallest(inputs[0]), Largest(inputs[0]);
    for i := 1 to |inputs|
      invariant exists j :: 0 <= j < i && Smallest(inputs[j]) == smallest
      invariant exists j :: 0 <= j < i && Largest(inputs[j]) == largest
      invariant forall j :: 0 <= j < i ==> !Before(Smallest(inputs[j]), smallest) && !Before(largest, Largest(inputs[j]))
    {
      if Before(Smallest(inputs[i]), smallest) {
        smallest := Smallest(inputs[i]);
      }
      if Before(largest, Largest(inputs[i])) {
        largest := Largest(inputs[i]);
      }
    }
  }

  /** The files a compaction may start from: in level 0 every file that meets their range. */
  ghost predicate Seed(v: Version, level: nat, inputs: seq<File>) {
    && level + 1 < NUM_LEVELS && inputs != [] && NoRepeats(inputs)
    && (forall f :: f in inputs ==> f in v[level])
    && (level == 0 ==> forall f :: f in v[0] && Overlaps(f, Some(LowUser(inputs)), Some(HighUser(inputs))) ==> f in inputs)
  }

  /** The inputs of both levels: all next-level files that meet the range of the first. */
  ghost predicate InputsOk(v: Version, level: nat, inputs0: seq<File>, inputs1: seq<File>) {
    && Seed(v, level, inputs0)
    && inputs1 == OverlapFilter(v[level + 1], Some(LowUser(inputs0)), Some(HighUser(inputs0)))
  }

  /** The level-0 files that GetOverlappingInputs picks are a seed. */
  lemma OverlappingInputsAreSeed(v: Version, begin: Option<UserKey>, end: Option<UserKey>,
                                 lo: Option<UserKey>, hi: Option<UserKey>)
    requires LeastClosed(v[0], begin, end, lo, hi) && OverlapFilter(v[0], lo, hi) != [] && NoRepeats(v[0])
    ensures Seed(v, 0, OverlapFilter(v[0], lo, hi))
  {
    OverlapFilterNoRepeats(v[0], lo, hi);
  }

  /** The files of a level that meet the range of some files. */
  ghost function Meeting(v: Version, level: nat, files: seq<File>): seq<File>
    requires level < NUM_LEVELS && files != []
  {
    OverlapFilter(v[level], Some(LowUser(files)), Some(HighUser(files)))
  }

  /** In level 0 all files of the least range that is closed under overlap. */
  ghost predicate ClosedSeed(files: seq<File>, begin: Option<UserKey>, end: Option<UserKey>, seed: seq<File>) {
    exists lo, hi :: LeastClosed(files, begin, end, lo, hi) && seed == OverlapFilter(files, lo, hi)
  }

  /** The files of a level that meet the range of a seed and of the next-level files it meets. */
  ghost predicate Widened(v: Version, level: nat, seed: seq<File>, wide: seq<File>)
    requires level + 1 < NUM_LEVELS && seed != []
  {
    var both := seed + Meeting(v, level + 1, seed);
    if level > 0 then wide == Meeting(v, level, both) else ClosedSeed(v[0], Some(LowUser(both)), Some(HighUser(both)), wide)
  }

  /** More files, which meet no more files of the next level and keep the compaction small. */
  ghost predicate MayGrow(v: Version, level: nat, seed: seq<File>, wide: seq<File>, maxFileSize: nat)
    requires level + 1 < NUM_LEVELS && seed != []
  {
    && |wide| > |seed| && TotalFileSize(Meeting(v, level + 1, seed)) + TotalFileSize(wide) < 25 * maxFileSize
    && |Meeting(v, level + 1, wide)| == |Meeting(v, level + 1, seed)|
  }

  /** The first-level inputs: the widened seed where it may grow, and otherwise the seed. */
  ghost predicate Grown(v: Version, level: nat, seed: seq<File>, maxFileSize: nat, inputs0: seq<File>)
    requires level + 1 < NUM_LEVELS && seed != []
  {
    if Meeting(v, level + 1, seed) == [] then inputs0 == seed
    else exists wide :: Widened(v, level, seed, wide) && inputs0 == if MayGrow(v, level, seed, wide, maxFileSize) then wide else seed
  }

  /** Completes a seed of a level to the inputs of both levels, growing the seed when that
      does not change the number of next-level files. */
  method SetupOtherInputs(v: Version, level: nat, seed: seq<File>, maxFileSize: nat)
    returns (inputs0: seq<File>, inputs1: seq<File>, grandparents: seq<File>)
    requires Seed(v, level, seed) && NoRepeats(v[level])
    ensures InputsOk(v, level, inputs0, inputs1)
    ensures forall f :: f in seed ==> f in inputs0
    ensures Grown(v, level, seed, maxFileSize, inputs0)
    ensures Meeting(v, level + 1, seed) == [] ==> inputs0 == seed
    ensures inputs0 != seed ==> |inputs0| > |seed| && |inputs1| == |Meeting(v, level + 1, seed)|
    ensures inputs0 != seed ==> TotalFileSize(Meeting(v, level + 1, seed)) + TotalFileSize(inputs0) < 25 * maxFileSize
    ensures grandparents == if level + 2 < NUM_LEVELS then Meeting(v, level + 2, inputs0 + inputs1) else []
  {
    hide OverlapFilter, LeastClosed, TotalFileSize, Grown, Seed, NoRepeats, LowUser, HighUser;
    ghost var lo, hi;
    SeedParts(v, level, seed);
    var smallest, largest := GetRange(seed);
    inputs0 := seed;
    inputs1, lo, hi := GetOverlappingInputs(level + 1, v[level + 1], Some(smallest.user), Some(largest.user));
    NotGrown(v, level, seed, maxFileSize);
    if inputs1 != [] {
      inputs0, inputs1 := GrowInputs(v, level, seed, inputs1, maxFileSize);
      GrownParts(v, level, seed, maxFileSize, inputs0);
    }
    var allStart, allLimit := GetRange(inputs0 + inputs1);
    grandparents := [];
    if level + 2 < NUM_LEVELS {
      grandparents, lo, hi := GetOverlappingInputs(level + 2, v[level + 2], Some(allStart.user), Some(allLimit.user));
    }
  }

  /** Grows the first-level inputs when that does not change the number of next-level files. */
  method GrowInputs(v: Version, level: nat, seed: seq<File>, inputs1: seq<File>, maxFileSize: nat)
    returns (r0: seq<File>, r1: seq<File>)
    requires Seed(v, level, seed) && NoRepeats(v[level]) && inputs1 == Meeting(v, level + 1, seed) != []
    ensures Seed(v, level, r0) && (forall f :: f in seed ==> f in r0) && r1 == Meeting(v, level + 1, r0)
    ensures Grown(v, level, seed, maxFileSize, r0)
  {
    hide OverlapFilter, LeastClosed, TotalFileSize, Grown, Seed, NoRepeats, LowUser, HighUser, ClosedSeed;
    SeedParts(v, level, seed);
    var start, limit := GetRange(seed + inputs1);
    RangeHolds(seed, inputs1);
    var expanded0 := Expand(v, level, seed, inputs1, start.user, limit.user);
    SeedParts(v, level, expanded0);
    SeedIsWidened(v, level, seed, expanded0, maxFileSize);
    r0, r1 := seed, inputs1;
    if |expanded0| > |seed| && TotalFileSize(inputs1) + TotalFileSize(expanded0) < 25 * maxFileSize {
      var newStart, newLimit := GetRange(expanded0);
      var expanded1, _, _ := GetOverlappingInputs(level + 1, v[level + 1], Some(newStart.user), Some(newLimit.user));
      if |expanded1| == |inputs1| {
        r0, r1 := expanded0, expanded1;
      }
    }
  }

  lemma SeedParts(v: Version, level: nat, seed: seq<File>)
    requires Seed(v, level, seed)
    ensures level + 1 < NUM_LEVELS && seed != []
  {
  }

  lemma RangeHolds(seed: seq<File>, more: seq<File>)
    requires seed != []
    ensures forall f :: f in seed ==> LowUser(seed + more) <= Smallest(f).user && Largest(f).user <= HighUser(seed + more)
  {
    hide LowUser, HighUser;
    forall f | f in seed ensures LowUser(seed + more) <= Smallest(f).user && Largest(f).user <= HighUser(seed + more) {
      assert f in seed + more;
    }
  }

  lemma GrownParts(v: Version, level: nat, seed: seq<File>, maxFileSize: nat, inputs0: seq<File>)
    requires level + 1 < NUM_LEVELS && seed != [] && inputs0 != [] && Grown(v, level, seed, maxFileSize, inputs0)
    ensures inputs0 != seed ==> |inputs0| > |seed| && |Meeting(v, level + 1, inputs0)| == |Meeting(v, level + 1, seed)|
    ensures inputs0 != seed ==> TotalFileSize(Meeting(v, level + 1, seed)) + TotalFileSize(inputs0) < 25 * maxFileSize
  {
    hide OverlapFilter, Widened;
  }

  lemma NotGrown(v: Version, level: nat, seed: seq<File>, maxFileSize: nat)
    requires level + 1 < NUM_LEVELS && seed != []
    ensures Meeting(v, level + 1, seed) == [] ==> Grown(v, level, seed, maxFileSize, seed)
  {
  }

  lemma SeedIsWidened(v: Version, level: nat, seed: seq<File>, wide: seq<File>, maxFileSize: nat)
    requires level + 1 < NUM_LEVELS && seed != [] && wide != [] && Widened(v, level, seed, wide) && Meeting(v, level + 1, seed) != []
    ensures Grown(v, level, seed, maxFileSize, if MayGrow(v, level, seed, wide, maxFileSize) then wide else seed)
  {
    hide OverlapFilter, Widened, MayGrow;
  }

  method Expand(v: Version, level: nat, seed: seq<File>, inputs1: seq<File>, start: UserKey, limit: UserKey)
    returns (expanded0: seq<File>)
    requires Seed(v, level, seed) && NoRepeats(v[level])
    requires forall f :: f in seed ==> start <= Smallest(f).user && Largest(f).user <= limit
    ensures Seed(v, level, expanded0) && forall f :: f in seed ==> f in expanded0
    ensures if level > 0 then expanded0 == OverlapFilter(v[level], Some(start), Some(limit))
            else ClosedSeed(v[0], Some(start), Some(limit), expanded0)
  {
    ghost var lo, hi;
    expanded0, lo, hi := GetOverlappingInputs(level, v[level], Some(start), Some(limit));
    forall f | f in seed ensures f in expanded0 {
      InRange(f, f.entries[0]);
      assert Overlaps(f, lo, hi);
    }
    assert seed[0] in expanded0;
    OverlapFilterNoRepeats(v[level], lo, hi);
    if level == 0 {
      OverlappingInputsAreSeed(v, Some(start), Some(limit), lo, hi);
    }
  }

  // ------------------------------------------------------------- base level of a key

  predicate InFile(f: File, k: UserKey) { Smallest(f).user <= k <= Largest(f).user }

  /** No file of the levels below the output level has k in its range. */
  ghost predicate BaseLevel(v: Version, level: nat, k: UserKey) {
    forall l, f :: level + 2 <= l < NUM_LEVELS && f in v[l] ==> !InFile(f, k)
  }

  // -------------------------------------------------------------- the drop rules

  /** Rule (A): the entry before this one hides it from every snapshot >= snapshot. */
  predicate Hidden(input: seq<Entry>, i: nat, snapshot: nat)
    requires i < |input|
  {
    i > 0 && input[i - 1].key.user == input[i].key.user && input[i - 1].key.sequence <= snapshot
  }

  ghost predicate Dropped(v: Version, level: nat, input: seq<Entry>, i: nat, snapshot: nat)
    requires i < |input|
  {
    var key := input[i].key;
    Hidden(input, i, snapshot) || (key.typ.Deletion? && key.sequence <= snapshot && BaseLevel(v, level, key.user))
  }

  ghost function KeptEntries(v: Version, level: nat, input: seq<Entry>, n: nat, snapshot: nat): seq<Entry>
    requires n <= |input|
  {
    if n == 0 then []
    else
      var front := KeptEntries(v, level, input, n - 1, snapshot);
      if Dropped(v, level, input, n - 1, snapshot) then front else front + [input[n - 1]]
  }

  lemma {:induction false} KeptIsSorted(v: Version, level: nat, input: seq<Entry>, n: nat, snapshot: nat)
    requires n <= |input| && Sorted(input)
    ensures Sorted(KeptEntries(v, level, input, n, snapshot))
    ensures forall e, j :: e in KeptEntries(v, level, input, n, snapshot) && n <= j < |input| ==> Precedes(e, input[j])
  {
    if n > 0 {
      var front := KeptEntries(v, level, input, n - 1, snapshot);
      KeptIsSorted(v, level, input, n - 1, snapshot);
      assert forall i :: 0 <= i < |front| ==> front[i] in front;
    }
  }

  lemma {:induction false} KeptMembers(v: Version, level: nat, input: seq<Entry>, n: nat, snapshot: nat)
    requires n <= |input|
    ensures forall e :: e in KeptEntries(v, level, input, n, snapshot) <==>
      exists i :: 0 <= i < n && input[i] == e && !Dropped(v, level, input, i, snapshot)
  {
    if n > 0 {
      KeptMembers(v, level, input, n - 1, snapshot);
    }
  }

  lemma KeptNone(v: Version, level: nat, input: seq<Entry>, snapshot: nat)
    ensures KeptEntries(v, level, input, 0, snapshot) == []
  {
  }

  lemma KeptStep(v: Version, level: nat, input: seq<Entry>, i: nat, snapshot: nat)
    requires i < |input|
    ensures KeptEntries(v, level, input, i + 1, snapshot) ==
      KeptEntries(v, level, input, i, snapshot) + if Dropped(v, level, input, i, snapshot) then [] else [input[i]]
  {
  }

  lemma InputAscends(input: seq<Entry>, i: nat)
    requires Sorted(input) && i < |input|
    ensures i + 1 < |input| ==> input[i].key.user <= input[i + 1].key.user
  {
    assert i + 1 < |input| ==> Precedes(input[i], input[i + 1]);
  }

  // ------------------------------------------------------------------- outputs

  /** Output files get fresh, increasing numbers. */
  ghost predicate NumbersFrom(outputs: seq<File>, from: nat, to: nat) {
    && (forall i :: 0 <= i < |outputs| ==> from <= outputs[i].number < to)
    && (forall i, j :: 0 <= i < j < |outputs| ==> outputs[i].number < outputs[j].number)
  }

  class CompactionJob {
    const level: nat
    const version: Version
    const maxFileSize: nat
    const inputs0: seq<File>
    const inputs1: seq<File>
    const grandparents: seq<File>
    var grandparentIndex: nat
    var seenKey: bool
    var overlappedBytes: nat
    var levelPtrs: seq<nat>

    ghost predicate Valid() reads this {
      && (forall l :: level + 2 <= l < NUM_LEVELS ==> Disjoint(version[l]))
      && |levelPtrs| == NUM_LEVELS && (forall l :: 0 <= l < NUM_LEVELS ==> levelPtrs[l] <= |version[l]|)
      && grandparentIndex <= |grandparents| && Disjoint(grandparents)
    }

    /** Before key i of the plan: the grandparents passed, and what they add since the key they are counted from. */
    ghost predicate Counting(plan: Plan, i: nat)
      reads this`seenKey, this`overlappedBytes, this`grandparentIndex
    {
      && plan.grandparents == grandparents && plan.limit == maxFileSize && i <= |plan.input| && seenKey == (i > 0)
      && (i == 0 ==> grandparentIndex == overlappedBytes == 0)
      && (i > 0 ==> Passed(grandparents, grandparentIndex, plan.input[i - 1].key))
      && (i > 0 ==> overlappedBytes + BytesBehind(grandparents, plan.input[plan.CountedFrom(i)].key)
                      == BytesBehind(grandparents, plan.input[i - 1].key))
    }

    /** Nothing of the input was looked at. */
    ghost predicate Fresh() reads this {
      (forall l :: 0 <= l < |levelPtrs| ==> levelPtrs[l] == 0) && grandparentIndex == overlappedBytes == 0 && !seenKey
    }

    constructor (version: Version, level: nat, seed: seq<File>, maxFileSize: nat)
      requires Seed(version, level, seed) && NoRepeats(version[level])
      requires forall l :: level + 2 <= l < NUM_LEVELS ==> Disjoint(version[l])
      ensures Valid() && InputsOk(version, level, inputs0, inputs1)
      ensures this.version == version && this.level == level && this.maxFileSize == maxFileSize
      ensures forall f :: f in seed ==> f in inputs0
      ensures Meeting(version, level + 1, seed) == [] ==> inputs0 == seed
      ensures Grown(version, level, seed, maxFileSize, inputs0)
      ensures grandparents == if level + 2 < NUM_LEVELS then Meeting(version, level + 2, inputs0 + inputs1) else []
      ensures Fresh()
    {
      var in0, in1, grand := SetupOtherInputs(version, level, seed, maxFileSize);
      this.version, this.level, this.maxFileSize := version, level, maxFileSize;
      inputs0, inputs1, grandparents := in0, in1, grand;
      grandparentIndex, seenKey, overlappedBytes := 0, false, 0;
      levelPtrs := seq(NUM_LEVELS, _ => 0);
      new;
      GrandparentsDisjoint(version, level, in0 + in1);
    }

    predicate IsTrivialMove() {
      |inputs0| == 1 && |inputs1| == 0 && TotalFileSize(grandparents) <= 10 * maxFileSize
    }

    /** The cursors have only passed files that end before k. */
    ghost predicate CursorsBehind(k: UserKey) reads this requires Valid() {
      forall l, i :: level + 2 <= l < NUM_LEVELS && 0 <= i < levelPtrs[l] ==> Largest(version[l][i]).user < k
    }

    /** Forward-only cursors answer as a scan of all the deeper levels would. */
    method IsBaseLevelForKey(k: UserKey) returns (r: bool)
      requires Valid() && CursorsBehind(k)
      modifies this`levelPtrs
      ensures Valid() && CursorsBehind(k)
      ensures r <==> BaseLevel(version, level, k)
    {
      var lvl := level + 2;
      while lvl < NUM_LEVELS
        invariant lvl <= NUM_LEVELS || level + 2 > NUM_LEVELS
        invariant Valid() && CursorsBehind(k)
        invariant forall l, f :: level + 2 <= l < lvl && l < NUM_LEVELS && f in version[l] ==> !InFile(f, k)
      {
        var files := version[lvl];
        while levelPtrs[lvl] < |files|
          invariant Valid() && CursorsBehind(k)
          invariant forall l, f :: level + 2 <= l < lvl && f in version[l] ==> !InFile(f, k)
          decreases |files| - levelPtrs[lvl]
        {
          var f := files[levelPtrs[lvl]];
          if k <= Largest(f).user {
            if Smallest(f).user <= k {
              assert f in version[lvl] && InFile(f, k);
              return false;
            }
            break;
          }
          levelPtrs := levelPtrs[lvl := levelPtrs[lvl] + 1];
        }
        FileBounds(files);
        lvl := lvl + 1;
      }
      r := true;
    }

    /** Whether the current output should end here because it meets too much grandparent data. */
    method ShouldStopBefore(key: InternalKey, ghost plan: Plan, ghost i: nat) returns (stop: bool)
      requires Valid() && Counting(plan, i) && i < |plan.input| && key == plan.input[i].key && Sorted(plan.input)
      modifies this`grandparentIndex, this`seenKey, this`overlappedBytes
      ensures Valid() && seenKey && grandparentIndex >= old(grandparentIndex)
      ensures forall i :: old(grandparentIndex) <= i < grandparentIndex ==> Before(Largest(grandparents[i]), key)
      ensures grandparentIndex < |grandparents| ==> !Before(Largest(grandparents[grandparentIndex]), key)
      ensures var passed := TotalFileSize(grandparents[old(grandparentIndex)..grandparentIndex]);
        var total := old(overlappedBytes) + if old(seenKey) then passed else 0;
        stop == (total > 10 * maxFileSize) && overlappedBytes == if stop then 0 else total
      ensures stop == plan.StopsAt(i) && Counting(plan, i + 1)
    {
      hide BytesBehind, Plan.StopsAt, Plan.CountedFrom, Sorted, Disjoint;
      ghost var first, bytes := grandparentIndex, overlappedBytes;
      PassedBefore(plan, i);
      while grandparentIndex < |grandparents| && Before(Largest(grandparents[grandparentIndex]), key)
        invariant Valid() && seenKey == old(seenKey) && first <= grandparentIndex
        invariant forall j :: 0 <= j < grandparentIndex ==> Before(Largest(grandparents[j]), key)
        invariant overlappedBytes == old(overlappedBytes) + if seenKey then TotalFileSize(grandparents[first..grandparentIndex]) else 0
      {
        OneMoreFile(grandparents, first, grandparentIndex);
        if seenKey {
          overlappedBytes := overlappedBytes + grandparents[grandparentIndex].size;
        }
        grandparentIndex := grandparentIndex + 1;
      }
      assert Passed(grandparents, grandparentIndex, key);
      CountsOn(plan, i, first, grandparentIndex, bytes);
      assert plan.input[i + 1 - 1] == plan.input[i];
      seenKey := true;
      if overlappedBytes > 10 * maxFileSize {
        overlappedBytes := 0;
        return true;
      }
      return false;
    }

    /** The grandparents passed end before the next key as well. */
    lemma PassedBefore(plan: Plan, i: nat)
      requires Valid() && Counting(plan, i) && i < |plan.input| && Sorted(plan.input)
      ensures forall j :: 0 <= j < grandparentIndex ==> Before(Largest(grandparents[j]), plan.input[i].key)
    {
      hide BytesBehind, Plan.CountedFrom, Sorted, Disjoint;
      forall j | 0 <= j < grandparentIndex ensures Before(Largest(grandparents[j]), plan.input[i].key) {
        StaysBehind(plan.input, i, Largest(grandparents[j]));
      }
    }

    method ShouldDrop(input: seq<Entry>, i: nat, lastSequenceForKey: nat, snapshot: nat) returns (drop: bool)
      requires Valid() && i < |input| && CursorsBehind(input[i].key.user)
      requires lastSequenceForKey <= snapshot <==> Hidden(input, i, snapshot)
      modifies this`levelPtrs
      ensures Valid() && CursorsBehind(input[i].key.user)
      ensures drop <==> Dropped(version, level, input, i, snapshot)
    {
      drop := false;
      var key := input[i].key;
      if lastSequenceForKey <= snapshot {
        drop := true;
      } else if key.typ.Deletion? && key.sequence <= snapshot {
        drop := IsBaseLevelForKey(key.user);
      }
    }

    /** DBImpl::DoCompactionWork over the merged input. sizeOf is what the table builder
        reports for the entries added so far. */
    method DoCompactionWork(input: seq<Entry>, snapshot: nat, nextFile: nat, sizeOf: seq<Entry> -> nat)
      returns (outputs: seq<File>, next: nat)
      requires Valid() && Sorted(input) && snapshot < MAX_SEQUENCE_NUMBER
      requires Fresh()
      modifies this`levelPtrs, this`grandparentIndex, this`seenKey, this`overlappedBytes
      ensures Valid()
      ensures Concat(outputs) == KeptEntries(version, level, input, |input|, snapshot)
      ensures next >= nextFile && NumbersFrom(outputs, nextFile, next)
      ensures Plan(input, grandparents, sizeOf, maxFileSize).CutAsPlanned(outputs)
    {
      hide Sorted, KeptEntries, Dropped, Counting, Outputs.Ok, Outputs.All, Outputs.Cut, Outputs.OpenCut, Outputs.Small, Plan.CutAsPlanned,
        Plan.StopsAt;
      ghost var plan := Plan(input, grandparents, sizeOf, maxFileSize);
      var out := Outputs([], None, 0, nextFile);
      out.EmptyOk(plan);
      NothingCounted(plan);
      KeptNone(version, level, input, snapshot);
      var currentUserKey: UserKey := 0.0;
      var hasCurrentUserKey := false;
      var lastSequenceForKey := MAX_SEQUENCE_NUMBER;
      var i := 0;
      while i < |input|
        invariant i <= |input| && Valid()
        invariant hasCurrentUserKey <==> i > 0
        invariant i > 0 ==> currentUserKey == input[i - 1].key.user && lastSequenceForKey == input[i - 1].key.sequence
        invariant i < |input| ==> CursorsBehind(input[i].key.user)
        invariant out.Ok(nextFile) && out.All() == KeptEntries(version, level, input, i, snapshot)
        invariant Counting(plan, i) && out.Cut(plan, i) && out.Small(plan)
      {
        var key := input[i].key;
        KeptStep(version, level, input, i, snapshot);
        var stop := ShouldStopBefore(key, plan, i);
        AllFromInput(version, level, input, i, snapshot);
        KeptIsSorted(version, level, input, i, snapshot);
        out := out.StopIf(stop, nextFile, sizeOf, plan, i);
        if !hasCurrentUserKey || key.user != currentUserKey {
          currentUserKey := key.user;
          hasCurrentUserKey := true;
          lastSequenceForKey := MAX_SEQUENCE_NUMBER;
        }
        var drop := ShouldDrop(input, i, lastSequenceForKey, snapshot);
        lastSequenceForKey := key.sequence;
        if !drop {
          KeptIsSorted(version, level, input, i + 1, snapshot);
          out := out.AddAndEnd(nextFile, input[i], sizeOf, maxFileSize, plan, i);
        }
        InputAscends(input, i);
        i := i + 1;
      }
      KeptIsSorted(version, level, input, |input|, snapshot);
      out.CutIsOpen(plan, |input|);
      out := out.Close(nextFile, sizeOf, plan, |input|);
      out.AllClosed(nextFile);
      outputs, next := out.files, out.next;
    }

    lemma NothingCounted(plan: Plan)
      requires Fresh() && plan.grandparents == grandparents && plan.limit == maxFileSize
      ensures Counting(plan, 0)
    {
    }
  }

  lemma GoesOnTo(plan: Plan, entries: seq<Entry>, e: Entry)
    requires entries != [] && plan.GoesOn(entries) && plan.sizeOf(entries) < plan.limit && !plan.StopsBetween(entries[|entries| - 1], e)
    ensures plan.GoesOn(entries + [e])
  {
    hide Plan.StopsBetween;
    var more := entries + [e];
    forall n | 0 < n < |more| ensures plan.sizeOf(more[..n]) < plan.limit && !plan.StopsBetween(more[n - 1], more[n]) {
      assert more[..n] == entries[..n] && entries[..|entries|] == entries;
    }
  }

  /** What is kept so far comes from the keys so far. */
  lemma AllFromInput(v: Version, level: nat, input: seq<Entry>, n: nat, snapshot: nat)
    requires n <= |input|
    ensures forall e :: e in KeptEntries(v, level, input, n, snapshot) ==> e in input[..n]
  {
    KeptMembers(v, level, input, n, snapshot);
    assert forall i :: 0 <= i < n ==> input[i] in input[..n];
  }

  lemma {:induction false} FilterStaysDisjoint(files: seq<File>, lo: Option<UserKey>, hi: Option<UserKey>)
    requires Disjoint(files)
    ensures Disjoint(OverlapFilter(files, lo, hi))
  {
    if files != [] {
      var front := files[..|files| - 1];
      FilterStaysDisjoint(front, lo, hi);
      assert forall i :: 0 <= i < |OverlapFilter(front, lo, hi)| ==> OverlapFilter(front, lo, hi)[i] in front;
    }
  }

  lemma GrandparentsDisjoint(v: Version, level: nat, files: seq<File>)
    requires files != [] && forall l :: level + 2 <= l < NUM_LEVELS ==> Disjoint(v[l])
    ensures level + 2 < NUM_LEVELS ==> Disjoint(Meeting(v, level + 2, files))
  {
    if level + 2 < NUM_LEVELS {
      FilterStaysDisjoint(v[level + 2], Some(LowUser(files)), Some(HighUser(files)));
    }
  }

  lemma OneMoreOutput(files: seq<File>, f: File, from: nat, next: nat)
    ensures Concat(files + [f]) == Concat(files) + f.entries
    ensures from <= f.number < next && NumbersFrom(files, from, f.number) ==> NumbersFrom(files + [f], from, next)
  {
    assert (files + [f])[..|files|] == files;
  }

  /** The output files of a compaction: finished ones, the open builder, the number given
      to the open one, and the next free number. */
  datatype Outputs = Outputs(files: seq<File>, builder: Option<seq<Entry>>, number: nat, next: nat) {

    function All(): seq<Entry> { Concat(files) + if builder.Some? then builder.value else [] }

    ghost predicate Ok(from: nat) {
      && from <= next && NumbersFrom(files, from, next)
      && (builder.Some? ==> builder.value != [] && from <= number < next && NumbersFrom(files, from, number))
    }

    /** Finished outputs and the open one, as far as it goes. */
    ghost predicate OpenCut(plan: Plan) {
      && plan.CutAsPlanned(files)
      && (builder.Some? ==> builder.value != [] && plan.GoesOn(builder.value))
      && (builder.Some? && files != [] ==> plan.EndsBefore(files[|files| - 1], builder.value[0]))
    }

    /** After n keys: no stop since the last entry of the open output; when none is open, the last one had to end. */
    ghost predicate Cut(plan: Plan, n: nat) {
      && OpenCut(plan) && n <= |plan.input|
      && (builder.Some? ==> !plan.StopsSince(builder.value[|builder.value| - 1], n))
      && (builder.None? && files != [] ==> plan.Full(files[|files| - 1].entries) || plan.StopsSince(Last(files[|files| - 1]), n))
    }

    /** The open output has to end here. */
    ghost predicate MustEnd(plan: Plan, n: nat) {
      builder.Some? ==>
        && builder.value != [] && n <= |plan.input|
        && (plan.Full(builder.value) || plan.StopsSince(builder.value[|builder.value| - 1], n))
    }

    /** The open output is not full. */
    ghost predicate Small(plan: Plan) { builder.Some? ==> plan.sizeOf(builder.value) < plan.limit }

    lemma EmptyOk(plan: Plan)
      requires this == Outputs([], None, 0, next)
      ensures Ok(next) && Cut(plan, 0) && Small(plan) && All() == []
    {
    }

    lemma AllClosed(from: nat)
      requires Ok(from) && builder.None?
      ensures All() == Concat(files) && from <= next && NumbersFrom(files, from, next)
    {
    }

    lemma CutIsOpen(plan: Plan, n: nat)
      requires Cut(plan, n)
      ensures OpenCut(plan)
    {
    }

    /** One more key is looked at. */
    lemma NextKey(plan: Plan, n: nat, from: nat)
      requires Ok(from) && Cut(plan, n) && n < |plan.input| && forall e :: e in All() ==> e in plan.input[..n]
      ensures OpenCut(plan) && if plan.StopsAt(n) then MustEnd(plan, n + 1) && (builder.None? ==> Cut(plan, n + 1)) else Cut(plan, n + 1)
    {
      hide Plan.StopsAt, Plan.StopsSince, Plan.CutAsPlanned, Plan.GoesOn, Plan.EndsBefore, Plan.Full, NumbersFrom;
      if builder.Some? {
        var e := builder.value[|builder.value| - 1];
        assert e in builder.value && e in All();
        OneMoreKey(plan, e, n);
      } else if files != [] {
        OneMoreKey(plan, Last(files[|files| - 1]), n);
      }
    }

    lemma BuilderIsSorted(from: nat)
      requires Ok(from) && Sorted(All()) && builder.Some?
      ensures Sorted(builder.value) && builder.value != []
    {
      SortedParts(Concat(files), builder.value);
    }

    /** Ends the open output before a key that stops it. */
    method StopIf(stop: bool, ghost from: nat, sizeOf: seq<Entry> -> nat, ghost plan: Plan, ghost n: nat) returns (r: Outputs)
      requires Ok(from) && Sorted(All()) && Small(plan) && n < |plan.input| && stop == plan.StopsAt(n) && plan.sizeOf == sizeOf
      requires Cut(plan, n) && forall e :: e in All() ==> e in plan.input[..n]
      ensures r.Ok(from) && r.All() == All() && r.Cut(plan, n + 1) && r.Small(plan)
    {
      hide Ok, Sorted, All, Cut, OpenCut, MustEnd, Plan.StopsAt, Plan.CutAsPlanned;
      NextKey(plan, n, from);
      r := this;
      if stop {
        r := Close(from, sizeOf, plan, n + 1);
      }
    }

    /** Adds an entry, and ends the output when it is big enough. */
    method AddAndEnd(ghost from: nat, e: Entry, sizeOf: seq<Entry> -> nat, limit: nat, ghost plan: Plan, ghost n: nat) returns (r: Outputs)
      requires Ok(from) && Small(plan) && n < |plan.input| && plan.sizeOf == sizeOf && plan.limit == limit
      requires Cut(plan, n + 1) && Sorted(plan.input) && e == plan.input[n] && Sorted(All() + [e])
      ensures r.Ok(from) && r.All() == All() + [e] && r.Cut(plan, n + 1) && r.Small(plan)
    {
      hide Ok, Sorted, All, Cut, OpenCut, Plan.CutAsPlanned;
      r := Add(from, e, plan, n);
      if sizeOf(r.builder.value) >= limit {
        r.FullMustEnd(plan, n + 1);
        r := r.Close(from, sizeOf, plan, n + 1);
      }
    }

    lemma FullMustEnd(plan: Plan, n: nat)
      requires Cut(plan, n) && builder.Some? && plan.sizeOf(builder.value) >= plan.limit
      ensures OpenCut(plan) && MustEnd(plan, n)
    {
    }

    /** FinishCompactionOutputFile, when an output is open. */
    method Close(ghost from: nat, sizeOf: seq<Entry> -> nat, ghost plan: Plan, ghost n: nat) returns (r: Outputs)
      requires Ok(from) && Sorted(All()) && OpenCut(plan) && plan.sizeOf == sizeOf
      ensures r.Ok(from) && r.All() == All() && r.builder.None? && plan.CutAsPlanned(r.files)
      ensures MustEnd(plan, n) && (builder.None? ==> Cut(plan, n)) ==> r.Cut(plan, n)
    {
      r := this;
      if builder.Some? {
        hide OpenCut, Cut, MustEnd, Ok, Sorted, Concat, Plan.CutAsPlanned;
        BuilderIsSorted(from);
        var f: File := FileMetaData(number, sizeOf(builder.value), builder.value);
        r := Outputs(files + [f], None, 0, next);
        Closed(from, plan, f);
        ClosedInPlace(plan, f, n);
      }
    }

    lemma Closed(from: nat, plan: Plan, f: File)
      requires Ok(from) && OpenCut(plan) && builder.Some? && f == FileMetaData(number, plan.sizeOf(builder.value), builder.value)
      ensures var r := Outputs(files + [f], None, 0, next); r.Ok(from) && r.All() == All() && r.OpenCut(plan) && plan.CutAsPlanned(r.files)
    {
      hide Concat, NumbersFrom, Plan.GoesOn, Plan.EndsBefore;
      OneMoreOutput(files, f, from, next);
    }

    lemma ClosedInPlace(plan: Plan, f: File, n: nat)
      requires builder.Some? && f.entries == builder.value && Outputs(files + [f], None, 0, next).OpenCut(plan)
      ensures MustEnd(plan, n) ==> Outputs(files + [f], None, 0, next).Cut(plan, n)
    {
      hide OpenCut, Plan.StopsSince, Plan.Full;
      assert (files + [f])[|files + [f]| - 1] == f;
    }

    /** Adds an entry, opening an output file if necessary. */
    method Add(ghost from: nat, e: Entry, ghost plan: Plan, ghost n: nat) returns (r: Outputs)
      requires Ok(from) && n < |plan.input| && Cut(plan, n + 1) && Sorted(plan.input) && e == plan.input[n]
      requires Small(plan)
      ensures r.Ok(from) && r.All() == All() + [e] && r.builder.Some? && r.Cut(plan, n + 1)
    {
      hide Concat;
      if builder.None? {
        r := Outputs(files, Some([e]), next, next + 1);
        Opened(e, plan, n);
      } else {
        r := this.(builder := Some(builder.value + [e]));
        Extended(e, plan, n);
      }
    }

    lemma Opened(e: Entry, plan: Plan, n: nat)
      requires n < |plan.input| && Cut(plan, n + 1) && Sorted(plan.input) && e == plan.input[n] && builder.None?
      ensures Outputs(files, Some([e]), next, next + 1).Cut(plan, n + 1)
    {
      hide Plan.CutAsPlanned, Plan.StopsSince, Plan.StopsBetween, Sorted;
      StopsUpTo(plan, e, n);
      if files != [] {
        StopsUpTo(plan, Last(files[|files| - 1]), n);
      }
    }

    lemma Extended(e: Entry, plan: Plan, n: nat)
      requires n < |plan.input| && Cut(plan, n + 1) && Sorted(plan.input) && e == plan.input[n] && builder.Some?
      requires plan.sizeOf(builder.value) < plan.limit
      ensures this.(builder := Some(builder.value + [e])).Cut(plan, n + 1)
    {
      hide Plan.CutAsPlanned, Plan.StopsSince, Plan.StopsBetween, Sorted, Plan.EndsBefore;
      StopsUpTo(plan, builder.value[|builder.value| - 1], n);
      GoesOnTo(plan, builder.value, e);
    }
  }
}
