/** Installing the outputs of a compaction: what every run keeps, and exactly when files stay newer than
    what is searched after them. */
module CompactionInstall {
  import opened DbFormat
  import opened Files
  import opened VersionBuilder
  import opened Manifest
  import opened OutputCuts
  import opened Compaction
  import opened Ages
  import opened CompactionReads

  /** AddInputDeletions followed by the AddFile calls of InstallCompactionResults. */
  function CompactionEdit(level: nat, in0: seq<File>, in1: seq<File>, outputs: seq<File>): VersionEdit {
    VersionEdit((set f | f in in0 :: (level, f.number)) + (set f | f in in1 :: (level + 1, f.number)),
                seq(|outputs|, i requires 0 <= i < |outputs| => (level + 1, outputs[i])))
  }

  /** The file belongs to the level after the compaction. */
  ghost predicate BelongsAfter(v: Version, level: nat, in0: seq<File>, in1: seq<File>, outputs: seq<File>, l: nat, f: File)
    requires l < NUM_LEVELS
  {
    || (f in v[l] && !(l == level && f in in0) && !(l == level + 1 && f in in1))
    || (l == level + 1 && f in outputs)
  }

  /** next holds the files of v with the inputs replaced by the outputs. */
  ghost predicate Replaced(v: Version, level: nat, in0: seq<File>, in1: seq<File>, outputs: seq<File>, next: Version) {
    && level + 1 < NUM_LEVELS
    && forall l, f :: 0 <= l < NUM_LEVELS ==> (f in next[l] <==> BelongsAfter(v, level, in0, in1, outputs, l, f))
  }

  ghost predicate FreshNumbers(v: Version, outputs: seq<File>) {
    && (forall l, f, g :: 0 <= l < NUM_LEVELS && f in v[l] && g in outputs ==> f.number != g.number)
    && (forall f, g :: f in outputs && g in outputs && f.number == g.number ==> f == g)
  }

  lemma EditAddsOnce(v: Version, level: nat, in0: seq<File>, in1: seq<File>, outputs: seq<File>)
    requires level + 1 < NUM_LEVELS && FreshNumbers(v, outputs)
    ensures AddedOnce(v, CompactionEdit(level, in0, in1, outputs))
  {
    var e := CompactionEdit(level, in0, in1, outputs);
    assert forall a :: a in e.added ==> a.0 == level + 1 && a.1 in outputs;
  }

  lemma InstalledReplaces(v: Version, level: nat, in0: seq<File>, in1: seq<File>, outputs: seq<File>, next: Version)
    requires InputsOk(v, level, in0, in1) && NumbersUnique(v) && FreshNumbers(v, outputs)
    requires Installed(v, CompactionEdit(level, in0, in1, outputs), next)
    ensures Replaced(v, level, in0, in1, outputs, next)
  {
    hide FreshNumbers, Installed, AddedOnce;
    var e := CompactionEdit(level, in0, in1, outputs);
    EditAddsOnce(v, level, in0, in1, outputs);
    forall l, f | 0 <= l < NUM_LEVELS
      ensures f in next[l] <==> BelongsAfter(v, level, in0, in1, outputs, l, f)
    {
      InstalledFiles(v, e, next, l, f);
      assert (l, f) in e.added <==> l == level + 1 && f in outputs by {
        if l == level + 1 && f in outputs {
          var i :| 0 <= i < |outputs| && outputs[i] == f;
          assert e.added[i] == (l, f);
        }
      }
    }
  }

  // -------------------------------------------------------------------- entries

  lemma {:induction false} ConcatMembers(files: seq<File>)
    ensures forall e :: e in Concat(files) <==> e in FileEntries(files)
  {
    if files != [] {
      var front := files[..|files| - 1];
      ConcatMembers(front);
      assert files == front + [files[|files| - 1]];
    }
  }

  /** The outputs hold the input entries that are not dropped. */
  ghost predicate OutputsAre(outputs: seq<File>, input: seq<Entry>, dropped: set<Entry>) {
    FileEntries(outputs) == ToSet(input) - dropped && dropped <= ToSet(input)
  }

  lemma OutputsAreKept(v: Version, level: nat, input: seq<Entry>, snapshot: nat, outputs: seq<File>)
    requires Sorted(input) && Concat(outputs) == KeptEntries(v, level, input, |input|, snapshot)
    ensures OutputsAre(outputs, input, DroppedEntries(v, level, input, snapshot))
  {
    ConcatMembers(outputs);
    KeptMembers(v, level, input, |input|, snapshot);
    forall e ensures e in FileEntries(outputs) <==> e in ToSet(input) - DroppedEntries(v, level, input, snapshot) {
      if e in input {
        var i :| 0 <= i < |input| && input[i] == e;
        OnceInInput(input, i, e);
      }
    }
  }

  lemma OnceInInput(input: seq<Entry>, i: nat, e: Entry)
    requires Sorted(input) && i < |input| && input[i] == e
    ensures forall j :: 0 <= j < |input| && input[j] == e ==> j == i
  {
  }

  lemma EntryAfter(v: Version, level: nat, in0: seq<File>, in1: seq<File>, input: seq<Entry>, dropped: set<Entry>,
                   outputs: seq<File>, next: Version, e: Entry)
    requires OneHome(v) && InputsOk(v, level, in0, in1) && IsInput(in0, in1, input) && OutputsAre(outputs, input, dropped)
    requires Replaced(v, level, in0, in1, outputs, next) && e in Entries(next)
    ensures e in Entries(v) && e !in dropped
  {
    hide InputsOk;
    var l, f := Locate(next, e);
    assert BelongsAfter(v, level, in0, in1, outputs, l, f);
    if l == level + 1 && f in outputs {
      assert e in FileEntries(outputs);
      var m, g := InputHome(v, level, in0, in1, input, e);
    } else if e in dropped {
      var m, g := InputHome(v, level, in0, in1, input, e);
    }
  }

  lemma EntryStays(v: Version, level: nat, in0: seq<File>, in1: seq<File>, input: seq<Entry>, dropped: set<Entry>,
                   outputs: seq<File>, next: Version, e: Entry)
    requires IsInput(in0, in1, input) && OutputsAre(outputs, input, dropped)
    requires Replaced(v, level, in0, in1, outputs, next) && e in Entries(v) && e !in dropped
    ensures e in Entries(next)
  {
    var l, f := Locate(v, e);
    if (l == level && f in in0) || (l == level + 1 && f in in1) {
      assert e in ToSet(input) && e in FileEntries(outputs);
      var g :| g in outputs && e in g.entries;
      assert BelongsAfter(v, level, in0, in1, outputs, level + 1, g);
    } else {
      assert BelongsAfter(v, level, in0, in1, outputs, l, f);
    }
  }

  /** After the compaction the version holds exactly the entries that were not dropped. */
  lemma EntriesAfter(v: Version, level: nat, in0: seq<File>, in1: seq<File>, input: seq<Entry>, dropped: set<Entry>,
                     outputs: seq<File>, next: Version)
    requires OneHome(v) && InputsOk(v, level, in0, in1) && IsInput(in0, in1, input) && OutputsAre(outputs, input, dropped)
    requires Replaced(v, level, in0, in1, outputs, next)
    ensures Entries(next) == Entries(v) - dropped
  {
    hide InputsOk, IsInput, OutputsAre, Replaced, OneHome;
    forall e | e in Entries(next) ensures e in Entries(v) && e !in dropped {
      EntryAfter(v, level, in0, in1, input, dropped, outputs, next, e);
    }
    forall e | e in Entries(v) && e !in dropped ensures e in Entries(next) {
      EntryStays(v, level, in0, in1, input, dropped, outputs, next, e);
    }
  }

  // ---------------------------------------------------------------------- layers

  lemma OutputHome(v: Version, level: nat, in0: seq<File>, in1: seq<File>, input: seq<Entry>, dropped: set<Entry>,
                   outputs: seq<File>, f: File, e: Entry)
    returns (m: nat, g: File)
    requires InputsOk(v, level, in0, in1) && IsInput(in0, in1, input) && OutputsAre(outputs, input, dropped)
    requires f in outputs && e in f.entries
    ensures e in input && e !in dropped
    ensures (m == level && g in in0) || (m == level + 1 && g in in1)
    ensures m < NUM_LEVELS && g in v[m] && e in g.entries
  {
    assert e in FileEntries(outputs);
    m, g := InputHome(v, level, in0, in1, input, e);
  }

  /** An entry e of an input file moves down and leaves an older entry y of its user key on its level. */
  ghost predicate SinksBelow(v: Version, level: nat, in0: seq<File>, dropped: set<Entry>, f: File, g: File, e: Entry, y: Entry)
    requires level < NUM_LEVELS
  {
    && f in in0 && e in f.entries && e !in dropped && g in v[level] && g !in in0 && y in g.entries
    && e.key.user == y.key.user && y.key.sequence < e.key.sequence
  }

  ghost predicate Inverts(v: Version, level: nat, in0: seq<File>, dropped: set<Entry>)
    requires level < NUM_LEVELS
  {
    exists f, g, e, y :: SinksBelow(v, level, in0, dropped, f, g, e, y)
  }

  lemma ClearInvertsNothing(v: Version, level: nat, in0: seq<File>, in1: seq<File>, dropped: set<Entry>)
    requires level + 1 < NUM_LEVELS && Separate(v) && InputsOk(v, level, in0, in1) && KeysClear(v, level, in0, in1)
    ensures !Inverts(v, level, in0, dropped)
  {
    hide InputsOk, KeysClear, Separate;
    if f, g, e, y :| SinksBelow(v, level, in0, dropped, f, g, e, y) {
      KeyStaysTogether(v, level, in0, in1, level, f, e, level, g, y);
    }
  }

  lemma AgeAfter(v: Version, level: nat, in0: seq<File>, in1: seq<File>, input: seq<Entry>, dropped: set<Entry>,
                 outputs: seq<File>, next: Version, l: nat, f: File, m: nat, g: File, e: Entry, x: Entry)
    requires Layered(v) && InputsOk(v, level, in0, in1) && IsInput(in0, in1, input) && OutputsAre(outputs, input, dropped)
    requires Replaced(v, level, in0, in1, outputs, next) && !Inverts(v, level, in0, dropped)
    requires l < NUM_LEVELS && m < NUM_LEVELS && f in next[l] && g in next[m] && SearchedBefore(l, f, m, g)
    requires e in f.entries && x in g.entries && e.key.user == x.key.user
    ensures e.key.sequence > x.key.sequence
  {
    hide Placed, InputsOk, IsInput, OutputsAre;
    var l', f', m', g' := l, f, m, g;
    if l == level + 1 && f in outputs {
      l', f' := OutputHome(v, level, in0, in1, input, dropped, outputs, f, e);
    } else if m == level + 1 && g in outputs {
      m', g' := OutputHome(v, level, in0, in1, input, dropped, outputs, g, x);
      if l == level && m' == level {
        StaysNewer(v, level, in0, dropped, f, g', e, x);
      }
    }
    if !(l == level && m' == level) {
      assert SearchedBefore(l', f', m', g') && NewerFile(f', g');
    }
  }

  /** A left-out file keeps newer entries only, unless the compaction inverts. */
  lemma StaysNewer(v: Version, level: nat, in0: seq<File>, dropped: set<Entry>, f: File, g: File, e: Entry, x: Entry)
    requires Placed(v) && level < NUM_LEVELS && !Inverts(v, level, in0, dropped)
    requires f in v[level] && f !in in0 && g in in0 && g in v[level] && e in f.entries && x in g.entries && x !in dropped
    requires e.key.user == x.key.user
    ensures e.key.sequence > x.key.sequence
  {
    assert !SinksBelow(v, level, in0, dropped, g, f, x, e);
    if e.key.sequence == x.key.sequence {
      SameFile(v, level, f, level, g, e, x);
    }
  }

  /** Files stay newer than what is searched after them if and only if no entry moves below an older one. */
  lemma AgesAfterIff(v: Version, level: nat, in0: seq<File>, in1: seq<File>, input: seq<Entry>, dropped: set<Entry>,
                     outputs: seq<File>, next: Version)
    requires level + 1 < NUM_LEVELS
    requires Layered(v) && InputsOk(v, level, in0, in1) && IsInput(in0, in1, input) && OutputsAre(outputs, input, dropped)
    requires Replaced(v, level, in0, in1, outputs, next)
    ensures Aged(next) <==> !Inverts(v, level, in0, dropped)
  {
    hide Layered, InputsOk, IsInput, OutputsAre, Replaced;
    if Inverts(v, level, in0, dropped) {
      OlderAbove(v, level, in0, in1, input, dropped, outputs, next);
    } else {
      forall l, f, m, g | 0 <= l < NUM_LEVELS && 0 <= m < NUM_LEVELS && f in next[l] && g in next[m] && SearchedBefore(l, f, m, g)
        ensures NewerFile(f, g)
      {
        forall e, x | e in f.entries && x in g.entries && e.key.user == x.key.user ensures e.key.sequence > x.key.sequence {
          AgeAfter(v, level, in0, in1, input, dropped, outputs, next, l, f, m, g, e, x);
        }
      }
    }
  }

  lemma OlderAbove(v: Version, level: nat, in0: seq<File>, in1: seq<File>, input: seq<Entry>, dropped: set<Entry>,
                   outputs: seq<File>, next: Version)
    requires level + 1 < NUM_LEVELS && IsInput(in0, in1, input) && OutputsAre(outputs, input, dropped)
    requires Replaced(v, level, in0, in1, outputs, next) && Inverts(v, level, in0, dropped)
    ensures !Aged(next)
  {
    var f, g, e, y :| SinksBelow(v, level, in0, dropped, f, g, e, y);
    assert e in ToSet(input) && e in FileEntries(outputs);
    var h :| h in outputs && e in h.entries;
    assert BelongsAfter(v, level, in0, in1, outputs, level + 1, h) && BelongsAfter(v, level, in0, in1, outputs, level, g);
    assert SearchedBefore(level, g, level + 1, h) && !NewerFile(g, h);
  }

  /** A next-level file that stays comes before all outputs or after all of them. */
  lemma StayingFileIsApart(v: Version, level: nat, in0: seq<File>, in1: seq<File>, input: seq<Entry>, dropped: set<Entry>,
                           outputs: seq<File>, f: File, g: File)
    requires Separate(v) && InputsOk(v, level, in0, in1) && IsInput(in0, in1, input) && OutputsAre(outputs, input, dropped)
    requires f in v[level + 1] && f !in in1 && g in outputs
    ensures FileBefore(f, g) || FileBefore(g, f)
    ensures UserDisjoint(v[level + 1]) ==> Apart(f, g)
  {
    hide IsInput, OutputsAre, Seed, Separate;
    var first, last := g.entries[0], g.entries[|g.entries| - 1];
    assert !Overlaps(f, Some(LowUser(in0)), Some(HighUser(in0)));
    KeyRange(f);
    EntryIsApart(v, level, in0, in1, input, dropped, outputs, f, g, first);
    EntryIsApart(v, level, in0, in1, input, dropped, outputs, f, g, last);
  }

  lemma EntryIsApart(v: Version, level: nat, in0: seq<File>, in1: seq<File>, input: seq<Entry>, dropped: set<Entry>,
                     outputs: seq<File>, f: File, g: File, e: Entry)
    requires Separate(v) && InputsOk(v, level, in0, in1) && IsInput(in0, in1, input) && OutputsAre(outputs, input, dropped)
    requires f in v[level + 1] && f !in in1 && g in outputs && e in g.entries
    ensures Largest(f).user < LowUser(in0) ==> Before(Largest(f), e.key)
    ensures Smallest(f).user > HighUser(in0) ==> Before(e.key, Smallest(f))
    ensures UserDisjoint(v[level + 1]) && Largest(f).user < LowUser(in0) ==> Largest(f).user < e.key.user
    ensures UserDisjoint(v[level + 1]) && Smallest(f).user > HighUser(in0) ==> e.key.user < Smallest(f).user
  {
    hide IsInput, OutputsAre;
    var m, h := OutputHome(v, level, in0, in1, input, dropped, outputs, g, e);
    InRange(h, e);
    KeyRange(f);
    if m == level + 1 {
      assert Overlaps(h, Some(LowUser(in0)), Some(HighUser(in0)));
      OneComesFirst(v[level + 1], f, h);
      WithinKeys(h, e);
      KeyRange(h);
    }
  }

  lemma WithinKeys(f: File, e: Entry)
    requires e in f.entries
    ensures e.key == Smallest(f) || Before(Smallest(f), e.key)
    ensures e.key == Largest(f) || Before(e.key, Largest(f))
  {
    var i :| 0 <= i < |f.entries| && f.entries[i] == e;
    assert i == 0 || Precedes(f.entries[0], f.entries[i]);
    assert i == |f.entries| - 1 || Precedes(f.entries[i], f.entries[|f.entries| - 1]);
  }

  /** Outputs come in the order of their entries. */
  lemma {:induction false} OutputsInOrder(outputs: seq<File>, i: nat, j: nat)
    requires Sorted(Concat(outputs)) && i < j < |outputs|
    ensures Precedes(outputs[i].entries[|outputs[i].entries| - 1], outputs[j].entries[0])
  {
    var front, last := outputs[..|outputs| - 1], outputs[|outputs| - 1];
    var all := Concat(outputs);
    assert all == Concat(front) + last.entries;
    if j == |outputs| - 1 {
      ConcatMembers(front);
      var e := outputs[i].entries[|outputs[i].entries| - 1];
      assert front[i] == outputs[i] && front[i] in front && e in front[i].entries;
      assert e in Concat(front);
      var p :| 0 <= p < |Concat(front)| && Concat(front)[p] == e;
      assert all[p] == e && all[|Concat(front)|] == last.entries[0];
    } else {
      forall p, q | 0 <= p < q < |Concat(front)| ensures Precedes(Concat(front)[p], Concat(front)[q]) {
        assert all[p] == Concat(front)[p] && all[q] == Concat(front)[q];
      }
      OutputsInOrder(front, i, j);
    }
  }

  /** Outputs are disjoint. */
  lemma OutputsAreDisjoint(outputs: seq<File>, f: File, g: File)
    requires Sorted(Concat(outputs)) && f in outputs && g in outputs && f != g
    ensures FileBefore(f, g) || FileBefore(g, f)
    ensures forall e :: e in f.entries ==> e !in g.entries
  {
    var i :| 0 <= i < |outputs| && outputs[i] == f;
    var j :| 0 <= j < |outputs| && outputs[j] == g;
    if i < j {
      OutputsInOrder(outputs, i, j);
      NothingShared(f, g);
    } else {
      OutputsInOrder(outputs, j, i);
      NothingShared(g, f);
    }
  }

  lemma NothingShared(f: File, g: File)
    requires FileBefore(f, g)
    ensures forall e :: e in f.entries ==> e !in g.entries
  {
    forall e | e in f.entries ensures e !in g.entries {
      WithinKeys(f, e);
      if e in g.entries {
        WithinKeys(g, e);
      }
    }
  }

  /** Of two files of a level after the compaction one comes first. */
  lemma OneFirstAfter(v: Version, level: nat, in0: seq<File>, in1: seq<File>, input: seq<Entry>, dropped: set<Entry>,
                      outputs: seq<File>, l: nat, f: File, g: File)
    requires Separate(v) && InputsOk(v, level, in0, in1) && IsInput(in0, in1, input) && OutputsAre(outputs, input, dropped)
    requires Sorted(Concat(outputs)) && 1 <= l < NUM_LEVELS && f != g
    requires BelongsAfter(v, level, in0, in1, outputs, l, f) && BelongsAfter(v, level, in0, in1, outputs, l, g)
    ensures FileBefore(f, g) || FileBefore(g, f)
    ensures UserDisjoint(v[l]) && UserDisjoint(outputs) ==> Apart(f, g)
  {
    hide InputsOk, IsInput, OutputsAre, FileBefore, Concat;
    if l == level + 1 && f in outputs {
      if g in outputs {
        OutputsAreDisjoint(outputs, f, g);
      } else {
        StayingFileIsApart(v, level, in0, in1, input, dropped, outputs, g, f);
      }
    } else if l == level + 1 && g in outputs {
      StayingFileIsApart(v, level, in0, in1, input, dropped, outputs, f, g);
    } else {
      OneComesFirst(v[l], f, g);
    }
  }

  /** Levels stay in internal key order, however the outputs are cut. */
  lemma SeparateAfter(v: Version, level: nat, in0: seq<File>, in1: seq<File>, input: seq<Entry>, dropped: set<Entry>,
                      outputs: seq<File>, next: Version)
    requires Separate(v) && InputsOk(v, level, in0, in1) && IsInput(in0, in1, input) && OutputsAre(outputs, input, dropped)
    requires Sorted(Concat(outputs)) && Replaced(v, level, in0, in1, outputs, next) && OrderedVersion(next)
    ensures Separate(next)
    ensures UserSeparate(v) ==> (UserSeparate(next) <==> UserDisjoint(outputs))
  {
    hide Separate, InputsOk, IsInput, OutputsAre, UserDisjoint, Disjoint, FileBefore, Concat, Ordered;
    forall l | 1 <= l < NUM_LEVELS ensures Disjoint(next[l]) && (UserDisjoint(v[l]) && UserDisjoint(outputs) ==> UserDisjoint(next[l])) {
      forall f, g | f in next[l] && g in next[l] && f != g
        ensures (FileBefore(f, g) || FileBefore(g, f)) && (UserDisjoint(v[l]) && UserDisjoint(outputs) ==> Apart(f, g))
      {
        OneFirstAfter(v, level, in0, in1, input, dropped, outputs, l, f, g);
      }
      FilesInOrderAreDisjoint(next[l]);
      if UserDisjoint(v[l]) && UserDisjoint(outputs) {
        ApartIsUserDisjoint(next[l]);
      }
    }
    assert Separate(next) by { AllDisjoint(next); }
    if UserDisjoint(next[level + 1]) {
      forall f | f in outputs ensures f in next[level + 1] {
        assert BelongsAfter(v, level, in0, in1, outputs, level + 1, f);
      }
      OutputsSeparate(outputs, next[level + 1]);
    }
  }

  lemma AllDisjoint(v: Version)
    requires forall l :: 1 <= l < NUM_LEVELS ==> Disjoint(v[l])
    ensures Separate(v)
  {
  }

  lemma LastNotBeforeFirst(f: File)
    ensures !Precedes(f.entries[|f.entries| - 1], f.entries[0])
  {
    var n := |f.entries| - 1;
    assert n == 0 || Precedes(f.entries[0], f.entries[n]);
  }

  lemma OutputsSeparate(outputs: seq<File>, files: seq<File>)
    requires Sorted(Concat(outputs)) && UserDisjoint(files) && forall f :: f in outputs ==> f in files
    ensures UserDisjoint(outputs)
  {
    forall i, j | 0 <= i < j < |outputs| ensures Largest(outputs[i]).user < Smallest(outputs[j]).user {
      var f, g := outputs[i], outputs[j];
      LastNotBeforeFirst(f);
      OutputsInOrder(outputs, i, j);
      KeyRange(f);
      KeyRange(g);
      assert f in outputs && g in outputs;
    }
  }

  /** Every entry still has one home. */
  lemma OneHomeAfter(v: Version, level: nat, in0: seq<File>, in1: seq<File>, input: seq<Entry>, dropped: set<Entry>,
                     outputs: seq<File>, next: Version)
    requires OneHome(v) && InputsOk(v, level, in0, in1) && IsInput(in0, in1, input) && OutputsAre(outputs, input, dropped)
    requires Sorted(Concat(outputs)) && Replaced(v, level, in0, in1, outputs, next)
    ensures OneHome(next)
  {
    hide InputsOk, IsInput, OutputsAre, Concat, FileBefore, Sorted;
    forall l, f, m, g, e | 0 <= l < NUM_LEVELS && 0 <= m < NUM_LEVELS && f in next[l] && g in next[m] && e in f.entries && e in g.entries
      ensures l == m && f == g
    {
      assert BelongsAfter(v, level, in0, in1, outputs, l, f) && BelongsAfter(v, level, in0, in1, outputs, m, g);
      if l == level + 1 && f in outputs {
        var l', f' := OutputHome(v, level, in0, in1, input, dropped, outputs, f, e);
        if m == level + 1 && g in outputs && f != g {
          OutputsAreDisjoint(outputs, f, g);
        }
      } else if m == level + 1 && g in outputs {
        var m', g' := OutputHome(v, level, in0, in1, input, dropped, outputs, g, e);
      }
    }
  }

  /** What every run keeps of a version. */
  lemma PlacedAfter(v: Version, level: nat, in0: seq<File>, in1: seq<File>, input: seq<Entry>, dropped: set<Entry>,
                    outputs: seq<File>, next: Version)
    requires Placed(v) && InputsOk(v, level, in0, in1) && IsInput(in0, in1, input) && OutputsAre(outputs, input, dropped)
    requires Sorted(Concat(outputs)) && Replaced(v, level, in0, in1, outputs, next) && OrderedVersion(next) && NumbersUnique(next)
    ensures Placed(next) && Entries(next) == Entries(v) - dropped
    ensures UserSeparate(v) ==> (UserSeparate(next) <==> UserDisjoint(outputs))
  {
    hide Separate, OneHome, NumbersUnique, InputsOk, IsInput, OutputsAre, Concat, Replaced, OrderedVersion, UserSeparate, UserDisjoint, Entries;
    SeparateAfter(v, level, in0, in1, input, dropped, outputs, next);
    OneHomeAfter(v, level, in0, in1, input, dropped, outputs, next);
    EntriesAfter(v, level, in0, in1, input, dropped, outputs, next);
  }

  lemma NumbersAfter(v: Version, level: nat, in0: seq<File>, in1: seq<File>, outputs: seq<File>, next: Version)
    requires NumbersUnique(v) && FreshNumbers(v, outputs) && Replaced(v, level, in0, in1, outputs, next)
    ensures NumbersUnique(next)
  {
    forall l, f, m, g | 0 <= l < NUM_LEVELS && 0 <= m < NUM_LEVELS && f in next[l] && g in next[m] && f.number == g.number
      ensures l == m && f == g
    {
      assert BelongsAfter(v, level, in0, in1, outputs, l, f) && BelongsAfter(v, level, in0, in1, outputs, m, g);
    }
  }

  // ------------------------------------------------------- when nothing is split

  /** Without older snapshots at most one entry of each user key survives. */
  lemma OneSurvivorPerKey(v: Version, level: nat, input: seq<Entry>, snapshot: nat, e: Entry, x: Entry)
    requires Sorted(input) && forall y :: y in input ==> y.key.sequence <= snapshot
    requires e in KeptEntries(v, level, input, |input|, snapshot) && x in KeptEntries(v, level, input, |input|, snapshot)
    requires e.key.user == x.key.user
    ensures e == x
  {
    KeptMembers(v, level, input, |input|, snapshot);
    var i :| 0 <= i < |input| && input[i] == e && !Dropped(v, level, input, i, snapshot);
    var j :| 0 <= j < |input| && input[j] == x && !Dropped(v, level, input, j, snapshot);
    if i < j {
      LaterIsHidden(input, i, j, snapshot);
    } else if j < i {
      LaterIsHidden(input, j, i, snapshot);
    }
  }

  /** So a compaction that runs while no snapshot is older than its input splits no user key. */
  lemma NoSnapshotNoSplit(v: Version, level: nat, input: seq<Entry>, snapshot: nat, outputs: seq<File>)
    requires Sorted(input) && forall y :: y in input ==> y.key.sequence <= snapshot
    requires Concat(outputs) == KeptEntries(v, level, input, |input|, snapshot)
    ensures UserDisjoint(outputs)
  {
    KeptIsSorted(v, level, input, |input|, snapshot);
    ConcatMembers(outputs);
    forall i, j | 0 <= i < j < |outputs| ensures Largest(outputs[i]).user < Smallest(outputs[j]).user {
      var f, g := outputs[i], outputs[j];
      var e, x := f.entries[|f.entries| - 1], g.entries[0];
      OutputsInOrder(outputs, i, j);
      assert f in outputs && g in outputs && e in f.entries && x in g.entries;
      if e.key.user == x.key.user {
        OneSurvivorPerKey(v, level, input, snapshot, e, x);
      }
    }
  }
}
