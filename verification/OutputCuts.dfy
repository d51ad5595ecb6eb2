/** Where a compaction ends its output files: at a full file, and before a key that lies behind too much data of the
    level after next. */
module OutputCuts {
  import opened DbFormat
  import opened Files

  function Concat(files: seq<File>): seq<Entry> {
    if files == [] then [] else Concat(files[..|files| - 1]) + files[|files| - 1].entries
  }

  /** A file is closed as soon as its size reaches the limit. */
  ghost predicate CutInTime(entries: seq<Entry>, sizeOf: seq<Entry> -> nat, limit: nat) {
    forall n :: 0 < n < |entries| ==> sizeOf(entries[..n]) < limit
  }

  function First(f: File): Entry { f.entries[0] }
  function Last(f: File): Entry { f.entries[|f.entries| - 1] }

  // ------------------------------------------------------------------ grandparents behind a key

  /** The size of the files that end before a key. */
  function BytesBehind(files: seq<File>, key: InternalKey): nat {
    if files == [] then 0 else (if Before(Largest(files[0]), key) then files[0].size else 0) + BytesBehind(files[1..], key)
  }

  /** The first n files end before the key and the next one does not. */
  ghost predicate Passed(files: seq<File>, n: nat, key: InternalKey) {
    && n <= |files| && (forall j :: 0 <= j < n ==> Before(Largest(files[j]), key))
    && (n < |files| ==> !Before(Largest(files[n]), key))
  }

  lemma {:induction false} NoneBehind(files: seq<File>, key: InternalKey)
    requires forall j :: 0 <= j < |files| ==> !Before(Largest(files[j]), key)
    ensures BytesBehind(files, key) == 0
  {
    if files != [] {
      NoneBehind(files[1..], key);
    }
  }

  /** In files that ascend, those that end before a key come first. */
  lemma {:induction false} PassedAreBehind(files: seq<File>, n: nat, key: InternalKey)
    requires Disjoint(files) && Passed(files, n, key)
    ensures BytesBehind(files, key) == TotalFileSize(files[..n])
    decreases n
  {
    if n > 0 {
      assert files[..n][1..] == files[1..][..n - 1];
      PassedAreBehind(files[1..], n - 1, key);
    } else {
      FileBounds(files);
      NoneBehind(files, key);
    }
  }

  lemma {:induction false} SizeSplits(files: seq<File>, m: nat, n: nat)
    requires m <= n <= |files|
    ensures TotalFileSize(files[..n]) == TotalFileSize(files[..m]) + TotalFileSize(files[m..n])
    decreases n
  {
    hide TotalFileSize;
    NoSize(files, m);
    if m < n {
      SizeSplits(files, m, n - 1);
      OneMoreFile(files, 0, n - 1);
      OneMoreFile(files, m, n - 1);
      assert files[0..n] == files[..n] && files[0..n - 1] == files[..n - 1];
    }
  }

  lemma NoSize(files: seq<File>, m: nat)
    requires m <= |files|
    ensures TotalFileSize(files[m..m]) == 0
  {
  }

  // ------------------------------------------------------------------------------- the rule

  /** What decides where outputs end: the merged input, the files two levels down that it meets, the size of a table
      with some entries, and the limit on it. */
  datatype Plan = Plan(input: seq<Entry>, grandparents: seq<File>, sizeOf: seq<Entry> -> nat, limit: nat) {

    /** The key from which grandparents are counted when key i comes: the last one that stopped an output, or the first. */
    function CountedFrom(i: nat): (r: nat)
      requires i <= |input|
      ensures r <= i && (i > 0 ==> r < i)
      decreases i, 0
    {
      if i == 0 then 0 else if StopsAt(i - 1) then i - 1 else CountedFrom(i - 1)
    }

    /** Too much grandparent data ends between that key and key i. */
    predicate StopsAt(i: nat)
      requires i < |input|
      decreases i, 1
    {
      BytesBehind(grandparents, input[i].key) > BytesBehind(grandparents, input[CountedFrom(i)].key) + 10 * limit
    }

    /** A stop after the entry, at one of the first n keys. */
    ghost predicate StopsSince(e: Entry, n: nat)
      requires n <= |input|
    {
      exists i, j :: 0 <= i < j < n && input[i] == e && StopsAt(j)
    }

    /** A stop after one entry, at the other one or before it. */
    ghost predicate StopsBetween(e: Entry, e': Entry) {
      exists k :: 0 <= k < |input| && input[k] == e' && StopsSince(e, k + 1)
    }

    ghost predicate Full(entries: seq<Entry>) { sizeOf(entries) >= limit }

    /** No output goes on past the limit or past a stop. */
    ghost predicate GoesOn(entries: seq<Entry>) {
      && CutInTime(entries, sizeOf, limit)
      && forall n :: 0 < n < |entries| ==> !StopsBetween(entries[n - 1], entries[n])
    }

    /** An output ends for one of both reasons. */
    ghost predicate EndsBefore(f: File, e: Entry) { Full(f.entries) || StopsBetween(Last(f), e) }

    /** The outputs end where they have to and nowhere else. */
    ghost predicate CutAsPlanned(files: seq<File>) {
      && (forall i :: 0 <= i < |files| ==> GoesOn(files[i].entries) && files[i].size == sizeOf(files[i].entries))
      && forall i :: 0 <= i < |files| - 1 ==> EndsBefore(files[i], First(files[i + 1]))
    }
  }

  /** The next key adds the grandparents that end between it and the key before. */
  lemma CountsOn(plan: Plan, i: nat, before: nat, after: nat, bytes: nat)
    requires i < |plan.input| && Disjoint(plan.grandparents) && before <= after && Passed(plan.grandparents, after, plan.input[i].key)
    requires i == 0 ==> before == bytes == 0
    requires i > 0 ==> Passed(plan.grandparents, before, plan.input[i - 1].key)
    requires i > 0 ==> bytes + BytesBehind(plan.grandparents, plan.input[plan.CountedFrom(i)].key)
                         == BytesBehind(plan.grandparents, plan.input[i - 1].key)
    ensures var total := bytes + if i > 0 then TotalFileSize(plan.grandparents[before..after]) else 0;
      && (total > 10 * plan.limit <==> plan.StopsAt(i))
      && (if plan.StopsAt(i) then 0 else total) + BytesBehind(plan.grandparents, plan.input[plan.CountedFrom(i + 1)].key)
           == BytesBehind(plan.grandparents, plan.input[i].key)
  {
    hide BytesBehind, TotalFileSize, Passed, Disjoint;
    PassedAreBehind(plan.grandparents, after, plan.input[i].key);
    if i > 0 {
      PassedAreBehind(plan.grandparents, before, plan.input[i - 1].key);
      PassedFits(plan.grandparents, after, plan.input[i].key);
      SizeSplits(plan.grandparents, before, after);
    }
  }

  lemma PassedFits(files: seq<File>, n: nat, key: InternalKey)
    requires Passed(files, n, key)
    ensures n <= |files|
  {
  }

  /** What is behind a key is behind every later one. */
  lemma StaysBehind(input: seq<Entry>, i: nat, key: InternalKey)
    requires Sorted(input) && 0 < i < |input| && Before(key, input[i - 1].key)
    ensures Before(key, input[i].key)
  {
    assert Precedes(input[i - 1], input[i]);
  }

  lemma EachOnce(input: seq<Entry>, i: nat, j: nat)
    requires Sorted(input) && i < |input| && j < |input| && input[i] == input[j]
    ensures i == j
  {
    assert forall n :: 0 <= n < i ==> Precedes(input[n], input[i]);
    assert forall n :: 0 <= n < j ==> Precedes(input[n], input[j]);
  }

  /** One more key: whether a stop has come since an entry. */
  lemma OneMoreKey(plan: Plan, e: Entry, n: nat)
    requires n < |plan.input|
    ensures plan.StopsSince(e, n) ==> plan.StopsSince(e, n + 1)
    ensures plan.StopsSince(e, n + 1) && !plan.StopsAt(n) ==> plan.StopsSince(e, n)
    ensures plan.StopsAt(n) && e in plan.input[..n] ==> plan.StopsSince(e, n + 1)
  {
    hide Plan.StopsAt;
    if e in plan.input[..n] {
      var i :| 0 <= i < n && plan.input[..n][i] == e;
      assert plan.input[i] == e;
    }
  }

  /** For an entry of the input, a stop between another entry and it is one among the keys up to it. */
  lemma StopsUpTo(plan: Plan, e: Entry, n: nat)
    requires Sorted(plan.input) && n < |plan.input|
    ensures plan.StopsBetween(e, plan.input[n]) <==> plan.StopsSince(e, n + 1)
    ensures !plan.StopsSince(plan.input[n], n + 1)
  {
    hide Plan.StopsAt, Sorted;
    forall k | 0 <= k < |plan.input| && plan.input[k] == plan.input[n] ensures k == n {
      EachOnce(plan.input, k, n);
    }
  }

  /** Without grandparents nothing stops an output before it is full. */
  lemma {:induction false} NoGrandparentsNoStop(plan: Plan, i: nat)
    requires plan.grandparents == [] && i < |plan.input|
    ensures !plan.StopsAt(i)
  {
  }

  /** Then every output but the last is full. */
  lemma {:induction false} OnlyFullOutputs(plan: Plan, files: seq<File>, i: nat)
    requires plan.grandparents == [] && plan.CutAsPlanned(files) && i + 1 < |files|
    ensures plan.Full(files[i].entries)
  {
    assert plan.EndsBefore(files[i], First(files[i + 1]));
    forall s: nat | s < |plan.input| ensures !plan.StopsAt(s) {
      NoGrandparentsNoStop(plan, s);
    }
  }

  // -------------------------------------------------------------------- the rule leaves no choice

  lemma {:induction false} ConcatSplits(files: seq<File>)
    requires files != []
    ensures Concat(files) == files[0].entries + Concat(files[1..])
    decreases |files|
  {
    if |files| > 1 {
      ConcatSplits(files[..|files| - 1]);
      assert files[..|files| - 1][1..] == files[1..][..|files| - 2];
    } else {
      assert files[..0] == [] && files[1..] == [];
    }
  }

  /** An output ends where another one with the same first entries ends. */
  lemma {:induction false} GoesNoFurther(plan: Plan, f: File, e: Entry, y: seq<Entry>)
    requires plan.EndsBefore(f, e) && plan.GoesOn(y)
    requires f.entries + [e] <= y || y <= f.entries
    ensures y <= f.entries
  {
    WhatFollows(f.entries, e, y);
  }

  lemma WhatFollows<T>(x: seq<T>, e: T, y: seq<T>)
    requires x != []
    ensures x + [e] <= y ==> |x| < |y| && y[..|x|] == x && y[|x| - 1] == x[|x| - 1] && y[|x|] == e
  {
    assert x + [e] <= y ==> y[..|x| + 1] == x + [e];
  }

  lemma {:induction false} NotShorter(plan: Plan, a: seq<File>, b: seq<File>)
    requires plan.CutAsPlanned(a) && plan.CutAsPlanned(b) && a != [] && b != [] && Concat(a) == Concat(b)
    ensures b[0].entries <= a[0].entries
  {
    assert plan.GoesOn(b[0].entries) && (|a| > 1 ==> plan.EndsBefore(a[0], First(a[1])));
    hide *;
    FirstsCompare(a, b);
    if |a| > 1 {
      GoesNoFurther(plan, a[0], First(a[1]), b[0].entries);
    }
  }

  /** Of two ways to cut the same entries the first output of one is within that of the other, or goes on. */
  lemma {:induction false} FirstsCompare(a: seq<File>, b: seq<File>)
    requires a != [] && b != [] && Concat(a) == Concat(b)
    ensures (|a| > 1 && a[0].entries + [First(a[1])] <= b[0].entries) || b[0].entries <= a[0].entries
  {
    hide *;
    ConcatSplits(a);
    ConcatSplits(b);
    if |a| > 1 {
      SecondOutput(a);
      PrefixesCompare(b[0].entries, Concat(b[1..]), a[0].entries, First(a[1]), Concat(a[1..]));
    } else {
      OneOutput(a);
      assert a[0].entries == b[0].entries + Concat(b[1..]);
    }
  }

  lemma {:induction false} SecondOutput(files: seq<File>)
    requires |files| > 1
    ensures Concat(files[1..]) != [] && Concat(files[1..])[0] == First(files[1])
  {
    ConcatSplits(files[1..]);
    assert files[1..][0] == files[1];
  }

  lemma {:induction false} OneOutput(files: seq<File>)
    requires |files| == 1
    ensures Concat(files) == files[0].entries
  {
    assert files[..0] == [] && Concat([]) == [];
  }

  lemma PrefixesCompare<T>(y: seq<T>, rest: seq<T>, x: seq<T>, e: T, tail: seq<T>)
    requires tail != [] && tail[0] == e && y + rest == x + tail
    ensures x + [e] <= y || y <= x
  {
    var all := y + rest;
    assert y == all[..|y|] && x == all[..|x|] && all[|x|] == e;
    assert x + [e] == all[..|x| + 1];
  }

  /** Two ways to cut the same entries as planned put the same entries into the same outputs. */
  lemma {:induction false} OneWayToCut(plan: Plan, a: seq<File>, b: seq<File>)
    requires plan.CutAsPlanned(a) && plan.CutAsPlanned(b) && Concat(a) == Concat(b)
    ensures |a| == |b| && forall i :: 0 <= i < |a| ==> a[i].entries == b[i].entries && a[i].size == b[i].size
    decreases |a|
  {
    if a == [] || b == [] {
      NothingToCut(a);
      NothingToCut(b);
    } else {
      assert a[0].size == plan.sizeOf(a[0].entries) && b[0].size == plan.sizeOf(b[0].entries);
      hide Plan.CutAsPlanned, Concat;
      NotShorter(plan, a, b);
      NotShorter(plan, b, a);
      ConcatSplits(a);
      ConcatSplits(b);
      RestAsPlanned(plan, a);
      RestAsPlanned(plan, b);
      assert Concat(a[1..]) == Concat(a)[|a[0].entries|..];
      OneWayToCut(plan, a[1..], b[1..]);
      assert forall i :: 0 < i < |a| ==> a[i] == a[1..][i - 1];
      assert forall i :: 0 < i < |b| ==> b[i] == b[1..][i - 1];
    }
  }

  lemma {:induction false} NothingToCut(files: seq<File>)
    ensures Concat(files) == [] <==> files == []
  {
  }

  lemma {:induction false} RestAsPlanned(plan: Plan, files: seq<File>)
    requires plan.CutAsPlanned(files) && files != []
    ensures plan.CutAsPlanned(files[1..])
  {
    var rest := files[1..];
    forall i | 0 <= i < |rest| - 1 ensures plan.EndsBefore(rest[i], First(rest[i + 1])) {
      assert plan.EndsBefore(files[i + 1], First(files[i + 2]));
    }
  }
}
