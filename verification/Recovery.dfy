/** Replaying a log file after a crash, end to end from bytes to memtable entries. */
module Recovery {
  import opened Bytes
  import opened DbFormat
  import opened Coding
  import opened WriteBatch
  import opened LogFormat
  import opened Log
  import LogFragments
  import opened GroupCommit

  /** What replaying gives: the entries added to memtables in order, the largest sequence number
      seen, and whether recovery goes on. */
  datatype Recovered = Recovered(entries: seq<Entry>, maxSequence: nat, ok: bool)

  function Max(a: nat, b: nat): nat { if a < b then b else a }

  /** The last sequence number of a batch; an empty batch has none of its own. */
  function LastSequence(rep: Slice): int
    requires |rep| >= HEADER
  {
    DecodeFixed(rep[..8]) + DecodeFixed(rep[8..12]) - 1
  }

  /** Replaying a file from position p. Paranoid checks turn every report and every bad batch
      into an error; otherwise both are ignored, and a bad batch counts up to its bad record. */
  function Replay(sum: Checksum, file: Slice, p: nat, paranoid: bool, maxSequence: nat): (r: Recovered)
    requires p <= |file|
    decreases |file| - p
  {
    var l := NextLogical(sum, file, p, [], false);
    var ok := !paranoid || l.reports == [];
    if l.record.None? || !ok then Recovered([], maxSequence, ok)
    else
      var record := l.record.value;
      if |record| < HEADER then
        if paranoid then Recovered([], maxSequence, false) else Replay(sum, file, l.next, paranoid, maxSequence)
      else
        var (ops, status) := Parse(record);
        var entries := ToEntries(ops, DecodeFixed(record[..8]));
        if !status.Ok? && paranoid then Recovered(entries, maxSequence, false)
        else
          var last := LastSequence(record);
          var rest := Replay(sum, file, l.next, paranoid, if last > maxSequence then last else maxSequence);
          Recovered(entries + rest.entries, rest.maxSequence, rest.ok)
  }

  function Flatten(tables: seq<seq<Entry>>): seq<Entry> {
    if tables == [] then [] else Flatten(tables[..|tables| - 1]) + tables[|tables| - 1]
  }

  /** Replays one log file; a memtable that is full is written to a table on the way. */
  method RecoverLogFile(reader: Reader, paranoid: bool, full: seq<Entry> -> bool, max0: nat)
    returns (tables: seq<seq<Entry>>, mem: seq<Entry>, maxSequence: nat, ok: bool)
    requires reader.Valid() && reader.Position() == 0 && reader.reports == []
    modifies reader
    ensures Recovered(Flatten(tables) + mem, maxSequence, ok) == Replay(reader.sum, reader.file, 0, paranoid, max0)
    ensures (forall i :: 0 <= i < |tables| ==> full(tables[i])) && (ok && full(mem) ==> mem == [])
  {
    hide NextLogical, LogFragments.StandsFrom, Parse, Replay, ToEntries, After, DecodeFixed, Flatten, LastSequence;
    tables, mem, maxSequence, ok := [], [], max0, true;
    ghost var seen: seq<Entry> := [];
    ghost var goal := Replay(reader.sum, reader.file, 0, paranoid, max0);
    NothingSeen(goal);
    while true
      invariant reader.Valid() && seen == Flatten(tables) + mem && ok
      invariant goal == After(seen, Replay(reader.sum, reader.file, reader.Position(), paranoid, maxSequence))
      invariant (forall i :: 0 <= i < |tables| ==> full(tables[i])) && (full(mem) ==> mem == [])
      decreases |reader.file| - reader.Position()
    {
      ghost var p := reader.Position();
      var before := |reader.reports|;
      ReplayStep(reader.sum, reader.file, p, paranoid, maxSequence, seen);
      var record := reader.ReadRecord();
      ok := !paranoid || |reader.reports| == before;
      if record.None? || !ok {
        return;
      }
      if |record.value| < HEADER {
        if paranoid {
          ok := false;
          return;
        }
        continue;
      }
      ghost var added := ToEntries(Parse(record.value).0, DecodeFixed(record.value[..8]));
      ghost var mem0 := mem;
      var status, last;
      mem, status, last := ApplyRecord(record.value, mem);
      seen := seen + added;
      assert Flatten(tables) + (mem0 + added) == Flatten(tables) + mem0 + added;
      if !status.Ok? && paranoid {
        ok := false;
        return;
      }
      if last > maxSequence {
        maxSequence := last;
      }
      if full(mem) {
        FlattenMore(tables, mem);
        tables, mem := tables + [mem], [];
      }
    }
  }

  /** Applies one log record to a memtable. */
  method ApplyRecord(record: Slice, mem: seq<Entry>) returns (mem': seq<Entry>, status: Status, last: int)
    requires |record| >= HEADER
    ensures mem' == mem + ToEntries(Parse(record).0, DecodeFixed(record[..8]))
    ensures status == Parse(record).1 && last == LastSequence(record)
  {
    hide Parse, ToEntries, DecodeFixed;
    var batch := new Batch();
    batch.SetContents(record);
    mem', status := batch.InsertInto(mem);
    last := batch.Sequence() + batch.Count() - 1;
  }

  lemma NothingSeen(r: Recovered)
    ensures Flatten([]) + [] == [] && After([], r) == r
  {
  }

  lemma FlattenMore(tables: seq<seq<Entry>>, mem: seq<Entry>)
    ensures Flatten(tables + [mem]) + [] == Flatten(tables) + mem
  {
    assert (tables + [mem])[..|tables|] == tables;
  }

  ghost function After(seen: seq<Entry>, r: Recovered): Recovered {
    Recovered(seen + r.entries, r.maxSequence, r.ok)
  }

  lemma ReplayStep(sum: Checksum, file: Slice, p: nat, paranoid: bool, maxSequence: nat, seen: seq<Entry>)
    requires p <= |file|
    ensures var l := NextLogical(sum, file, p, [], false);
      var ok := !paranoid || l.reports == [];
      After(seen, Replay(sum, file, p, paranoid, maxSequence)) ==
        if l.record.None? || !ok then Recovered(seen, maxSequence, ok)
        else if |l.record.value| < HEADER then
          if paranoid then Recovered(seen, maxSequence, false)
          else After(seen, Replay(sum, file, l.next, paranoid, maxSequence))
        else
          var record := l.record.value;
          var seen' := seen + ToEntries(Parse(record).0, DecodeFixed(record[..8]));
          if !Parse(record).1.Ok? && paranoid then Recovered(seen', maxSequence, false)
          else
            var last := LastSequence(record);
            After(seen', Replay(sum, file, l.next, paranoid, if last > maxSequence then last else maxSequence))
  {
    hide NextLogical, Parse, ToEntries;
    var l := NextLogical(sum, file, p, [], false);
    if l.record.Some? && |l.record.value| >= HEADER {
      var record := l.record.value;
      var last := LastSequence(record);
      var entries := ToEntries(Parse(record).0, DecodeFixed(record[..8]));
      var rest := Replay(sum, file, l.next, paranoid, if last > maxSequence then last else maxSequence).entries;
      assert seen + (entries + rest) == seen + entries + rest;
    }
  }

  // ------------------------------------------------------------- replaying any bytes

  /** A record that holds a whole batch. */
  predicate IsBatch(record: Slice) { |record| >= HEADER && Parse(record).1.Ok? }

  /** What a record adds to the memtable: its operations up to a bad one, and nothing if it is too short. */
  function EntriesIn(record: Slice): seq<Entry> {
    if |record| < HEADER then [] else ToEntries(Parse(record).0, DecodeFixed(record[..8]))
  }

  function AllEntries(records: seq<Slice>): seq<Entry> {
    if records == [] then [] else EntriesIn(records[0]) + AllEntries(records[1..])
  }

  /** The largest number among a given one and the last sequence numbers of the records. */
  function LargestIn(records: seq<Slice>, max: nat): nat {
    if records == [] then max
    else LargestIn(records[1..], if |records[0]| >= HEADER && LastSequence(records[0]) > max then LastSequence(records[0]) else max)
  }

  /** Without paranoid checks every record that the log reader finds is replayed, whatever is wrong with others. */
  lemma {:induction false} LenientReplay(sum: Checksum, file: Slice, p: nat, max: nat)
    requires p <= |file|
    ensures var records := ReadAll(sum, file, p).0;
      Replay(sum, file, p, false, max) == Recovered(AllEntries(records), LargestIn(records, max), true)
    decreases |file| - p
  {
    hide NextLogical, Parse, ToEntries, DecodeFixed, LastSequence;
    var l := NextLogical(sum, file, p, [], false);
    if l.record.Some? {
      var record := l.record.value;
      var max' := if |record| >= HEADER && LastSequence(record) > max then LastSequence(record) else max;
      LenientReplay(sum, file, l.next, max');
      OneRecord(record, ReadAll(sum, file, l.next).0, max);
    }
  }

  lemma OneRecord(record: Slice, rest: seq<Slice>, max: nat)
    ensures AllEntries([record] + rest) == EntriesIn(record) + AllEntries(rest)
    ensures |record| < HEADER ==> AllEntries([record] + rest) == AllEntries(rest)
    ensures LargestIn([record] + rest, max)
      == LargestIn(rest, if |record| >= HEADER && LastSequence(record) > max then LastSequence(record) else max)
  {
    assert ([record] + rest)[1..] == rest;
  }

  /** With paranoid checks recovery goes on exactly when nothing was reported and every record is a whole batch. It then
      gives the same as without, and otherwise the entries up to the first problem. */
  lemma {:induction false} ParanoidReplay(sum: Checksum, file: Slice, p: nat, max: nat)
    requires p <= |file|
    ensures var (records, reports) := ReadAll(sum, file, p);
      var r, all := Replay(sum, file, p, true, max), Replay(sum, file, p, false, max);
      && (r.ok <==> reports == [] && forall i :: 0 <= i < |records| ==> IsBatch(records[i]))
      && (r.ok ==> r == all)
      && r.entries <= all.entries
    decreases |file| - p
  {
    hide NextLogical, Parse, ToEntries, DecodeFixed, LastSequence;
    var l := NextLogical(sum, file, p, [], false);
    if l.record.Some? {
      var record := l.record.value;
      var max' := if |record| >= HEADER && LastSequence(record) > max then LastSequence(record) else max;
      var (rest, reports) := ReadAll(sum, file, l.next);
      ParanoidReplay(sum, file, l.next, max');
      assert forall i :: 0 <= i < |rest| ==> ([record] + rest)[i + 1] == rest[i];
      assert ([record] + rest)[0] == record;
    }
  }

  /** A damaged block of a log ends recovery with paranoid checks; without, the records around it are replayed. */
  lemma DamagedLog(sum: Checksum, file: Slice, b: nat, max: nat)
    requires b + BLOCK_SIZE <= |file| && b % BLOCK_SIZE == 0
    requires LogFragments.NoStop(sum, file, 0, b) && LogFragments.Damaged(sum, file, b)
    ensures !Replay(sum, file, 0, true, max).ok
    ensures Replay(sum, file, 0, false, max).ok && Replay(sum, file, 0, false, max).entries == AllEntries(ReadAll(sum, file, 0).0)
  {
    hide Replay, ReadAll, IsBatch, LogFragments.NoStop, LogFragments.Damaged;
    LogFragments.DamageIsReported(sum, file, 0, b);
    ParanoidReplay(sum, file, 0, max);
    LenientReplay(sum, file, 0, max);
  }

  // ------------------------------------------------------- recovering what was committed

  function RecordsOf(gs: seq<Group>): (r: seq<Slice>)
    ensures |r| == |gs|
  {
    if gs == [] then [] else [Encode(gs[0].start, gs[0].ops)] + RecordsOf(gs[1..])
  }

  /** The bytes of a log file that holds these groups. */
  function LogBytes(sum: Checksum, gs: seq<Group>): Slice { LayoutAll(sum, 0, RecordsOf(gs)) }

  /** The largest sequence number used up by some groups, or a given one. */
  function MaxOf(gs: seq<Group>, max: nat): nat
    requires StartsPositive(gs)
  {
    if gs == [] then max else MaxOf(gs[1..], Max(gs[0].End() - 1, max))
  }

  /** The last sequence number of groups in log order. */
  function LastUsed(gs: seq<Group>): nat
    requires StartsPositive(gs)
  {
    if gs == [] then 0 else gs[|gs| - 1].End() - 1
  }

  /** In log order the largest sequence number is that of the last group. */
  lemma {:induction false} MaxOfIsLast(gs: seq<Group>, max: nat)
    requires StartsPositive(gs) && InOrder(gs)
    ensures MaxOf(gs, max) == if gs == [] then max else Max(max, LastUsed(gs))
  {
    if |gs| > 1 {
      assert gs[|gs| - 1] == gs[1..][|gs| - 2];
      MaxOfIsLast(gs[1..], Max(max, gs[0].End() - 1));
    }
  }

  /** Groups of the old log and then of the new one: the largest sequence number is that of the last group
      of all, and no entry is beyond it. */
  lemma LastOfBoth(a: seq<Group>, b: seq<Group>)
    requires StartsPositive(a + b) && InOrder(a + b)
    ensures StartsPositive(a) && StartsPositive(b) && MaxOf(b, MaxOf(a, 0)) == LastUsed(a + b)
    ensures forall e :: e in EntriesOf(a) + EntriesOf(b) ==> e.key.sequence <= LastUsed(a + b)
  {
    hide EntriesOf, InOrder, StartsPositive;
    PartsInOrder(a, b);
    MaxOfIsLast(a, 0);
    MaxOfIsLast(b, MaxOf(a, 0));
    EntriesOfAppend(a, b);
    NothingBeyond(a + b);
  }

  lemma PartsInOrder(a: seq<Group>, b: seq<Group>)
    requires StartsPositive(a + b) && InOrder(a + b)
    ensures StartsPositive(a) && StartsPositive(b) && InOrder(a) && InOrder(b)
    ensures LastUsed(a + b) == if b == [] then LastUsed(a) else LastUsed(b)
    ensures a != [] && b != [] ==> LastUsed(a) <= LastUsed(b)
  {
    var ab := a + b;
    InOrderParts(a, b);
    forall i | 0 <= i < |a| ensures a[i].start > 0 {
      assert ab[i] == a[i];
    }
    forall i | 0 <= i < |b| ensures b[i].start > 0 {
      assert ab[|a| + i] == b[i];
    }
    hide InOrder;
    if b == [] {
      assert ab == a;
    } else {
      assert ab[|ab| - 1] == b[|b| - 1];
    }
  }

  lemma InOrderParts(a: seq<Group>, b: seq<Group>)
    requires InOrder(a + b)
    ensures InOrder(a) && InOrder(b)
    ensures a != [] && b != [] ==> a[|a| - 1].End() <= b[|b| - 1].start
  {
    var ab := a + b;
    forall i, j | 0 <= i < j < |a| ensures a[i].first + a[i].count <= a[j].first && a[i].End() <= a[j].start {
      assert ab[i] == a[i] && ab[j] == a[j];
    }
    forall i, j | 0 <= i < j < |b| ensures b[i].first + b[i].count <= b[j].first && b[i].End() <= b[j].start {
      assert ab[|a| + i] == b[i] && ab[|a| + j] == b[j];
    }
    if a != [] && b != [] {
      assert ab[|a| - 1] == a[|a| - 1] && ab[|ab| - 1] == b[|b| - 1];
    }
  }

  lemma NothingBeyond(gs: seq<Group>)
    requires StartsPositive(gs) && InOrder(gs)
    ensures forall e :: e in EntriesOf(gs) ==> e.key.sequence <= LastUsed(gs)
  {
    hide InOrder;
    LoggedSequencesAscend(gs);
  }

  ghost predicate Loggable(gs: seq<Group>) {
    forall i :: 0 <= i < |gs| ==> gs[i].start > 0 && gs[i].End() <= MAX_SEQUENCE_NUMBER && AllFit(gs[i].ops)
  }

  lemma EncodedGroup(g: Group)
    requires g.start > 0 && g.End() <= MAX_SEQUENCE_NUMBER && AllFit(g.ops)
    ensures var record := Encode(g.start, g.ops);
      Parse(record) == (g.ops, Ok) && DecodeFixed(record[..8]) == g.start && LastSequence(record) == g.End() - 1
  {
    hide Encode, Parse, DecodeFixed, Records;
    BatchRoundTrip(g.start, g.ops);
    EncodedHeader(g.start, g.ops);
  }

  lemma FirstEntries(gs: seq<Group>, k: nat)
    requires 0 < k <= |gs|
    ensures EntriesOf(gs[..k]) == ToEntries(gs[0].ops, gs[0].start) + EntriesOf(gs[1..][..k - 1])
  {
    hide ToEntries;
    var first := ToEntries(gs[0].ops, gs[0].start);
    assert EntriesOf([gs[0]]) == first by {
      assert [gs[0]][..0] == [] && EntriesOf([]) == [] && [] + first == first;
    }
    EntriesOfAppend([gs[0]], gs[1..][..k - 1]);
    assert gs[..k] == [gs[0]] + gs[1..][..k - 1];
  }

  /** Replaying any prefix of a log gives exactly the groups whose bytes all survived, in either
      checking mode. */
  lemma {:induction false} ReplayGroups(sum: Checksum, file: Slice, p: nat, gs: seq<Group>, paranoid: bool, max: nat)
    requires Loggable(gs) && p <= |file| <= p + |LayoutAll(sum, p, RecordsOf(gs))|
    requires LogFormat.Holds(file, p, LayoutAll(sum, p, RecordsOf(gs)))
    ensures var k := Survivors(sum, p, RecordsOf(gs), |file|);
      Replay(sum, file, p, paranoid, max) == Recovered(EntriesOf(gs[..k]), MaxOf(gs[..k], max), true)
    decreases gs
  {
    hide Layout, NextLogical, LogFormat.Holds, Encode, Parse, DecodeFixed, LastSequence, EntriesOf, Survivors;
    var records := RecordsOf(gs);
    var k := Survivors(sum, p, records, |file|);
    if gs == [] {
      AtEnd(sum, file, paranoid, max);
      assert k == 0 && gs[..0] == [] && EntriesOf([]) == [] by { NoGroups(); }
    } else {
      var head := Layout(sum, p, records[0], true);
      LogFormat.HoldsParts(file, p, head, LayoutAll(sum, p + |head|, records[1..]));
      ReadLayout(sum, file, p, records[0], true, []);
      assert [] + records[0] == records[0] && records[1..] == RecordsOf(gs[1..]);
      SurvivorsStep(sum, p, records, |file|);
      if p + |head| <= |file| {
        EncodedGroup(gs[0]);
        var last := gs[0].End() - 1;
        ReplayGroups(sum, file, p + |head|, gs[1..], paranoid, if last > max then last else max);
        FirstEntries(gs, k);
        assert gs[..k][1..] == gs[1..][..k - 1];
      } else {
        assert gs[..k] == [] && EntriesOf([]) == [] by { NoGroups(); }
      }
    }
  }

  lemma NoGroups()
    ensures EntriesOf([]) == []
  {
  }

  lemma AtEnd(sum: Checksum, file: Slice, paranoid: bool, max: nat)
    ensures Replay(sum, file, |file|, paranoid, max) == Recovered([], max, true)
  {
    NothingAtTheEnd(sum, file);
  }

  lemma SurvivorsStep(sum: Checksum, n: nat, records: seq<Slice>, m: nat)
    ensures records == [] ==> Survivors(sum, n, records, m) == 0
    ensures records != [] ==>
      var end := n + |Layout(sum, n, records[0], true)|;
      Survivors(sum, n, records, m) == if end <= m then 1 + Survivors(sum, end, records[1..], m) else 0
  {
  }

  lemma {:induction false} RecordsOfPrefix(gs: seq<Group>, k: nat)
    requires k <= |gs|
    ensures RecordsOf(gs[..k]) == RecordsOf(gs)[..k]
  {
    hide Encode;
    if k > 0 {
      RecordsOfPrefix(gs[1..], k - 1);
      assert gs[..k][1..] == gs[1..][..k - 1];
    }
  }

  /** What a crash may leave of a log file: a prefix of its bytes that holds at least the first
      synced records. */
  ghost predicate LeftByCrash(sum: Checksum, file: Slice, gs: seq<Group>, synced: nat) {
    synced <= |gs| && file <= LogBytes(sum, gs) && |LogBytes(sum, gs[..synced])| <= |file|
  }

  lemma RecoverOneLog(sum: Checksum, file: Slice, gs: seq<Group>, synced: nat, paranoid: bool, max: nat) returns (k: nat)
    requires Loggable(gs) && LeftByCrash(sum, file, gs, synced)
    ensures synced <= k <= |gs| && (file == LogBytes(sum, gs) ==> k == |gs|)
    ensures Replay(sum, file, 0, paranoid, max) == Recovered(EntriesOf(gs[..k]), MaxOf(gs[..k], max), true)
  {
    hide Layout, Replay, EntriesOf, Encode, Survivors, LayoutAll;
    var records := RecordsOf(gs);
    assert LogFormat.Holds(file, 0, LayoutAll(sum, 0, records));
    ReplayGroups(sum, file, 0, gs, paranoid, max);
    RecordsOfPrefix(gs, synced);
    SurvivorsAtLeast(sum, 0, records, synced, |file|);
    AllSurvive(sum, 0, records);
    k := Survivors(sum, 0, records, |file|);
  }

  ghost predicate InLog(gs: seq<Group>, id: nat) { exists i :: 0 <= i < |gs| && Covers(gs[i], id) }

  /** The groups in the log of the memtable being flushed, and how many of them were synced. */
  function OldGroups(s: State): seq<Group>
    requires Marks(s)
  {
    if s.imm.Some? then s.logged[s.immStart..s.logStart] else []
  }

  function OldSynced(s: State): nat
    requires Marks(s)
  {
    if s.imm.Some? then s.immSynced - s.immStart else 0
  }

  function NewGroups(s: State): seq<Group>
    requires Marks(s)
  {
    s.logged[s.logStart..]
  }

  ghost predicate Crashed(sum: Checksum, s: State, oldLog: Slice, newLog: Slice)
    requires Marks(s)
  {
    LeftByCrash(sum, oldLog, OldGroups(s), OldSynced(s)) && LeftByCrash(sum, newLog, NewGroups(s), s.logSynced - s.logStart)
  }

  /** Replaying the old log and then the current one, without an error, finds the first k1 and
      k2 groups of them; all of them if no byte was lost. The largest sequence number it reports
      is that of the last group found, and no entry found is beyond it. */
  ghost predicate Recovers(sum: Checksum, s: State, oldLog: Slice, newLog: Slice, paranoid: bool, k1: nat, k2: nat)
    requires Marks(s)
  {
    var r1 := Replay(sum, oldLog, 0, paranoid, 0);
    var r2 := Replay(sum, newLog, 0, paranoid, r1.maxSequence);
    && k1 <= |OldGroups(s)| && k2 <= |NewGroups(s)| && r1.ok && r2.ok
    && r1.entries == EntriesOf(OldGroups(s)[..k1]) && r2.entries == EntriesOf(NewGroups(s)[..k2])
    && (oldLog == LogBytes(sum, OldGroups(s)) ==> k1 == |OldGroups(s)|)
    && (newLog == LogBytes(sum, NewGroups(s)) ==> k2 == |NewGroups(s)|)
    && StartsPositive(OldGroups(s)[..k1] + NewGroups(s)[..k2])
    && r2.maxSequence == LastUsed(OldGroups(s)[..k1] + NewGroups(s)[..k2])
    && (forall e :: e in r1.entries + r2.entries ==> e.key.sequence <= r2.maxSequence)
  }

  /** The write was answered OK and had asked for a sync. */
  ghost predicate AcknowledgedSync(s: State, id: nat) {
    id < |s.answers| && s.answers[id] && id < |s.requests| && s.requests[id].batch.Some? && s.requests[id].sync
  }

  /** The write is in a table file or in a group that was read back. */
  ghost predicate IsFound(s: State, k1: nat, k2: nat, id: nat)
    requires Marks(s) && k1 <= |OldGroups(s)| && k2 <= |NewGroups(s)|
  {
    InLog(s.logged[..Flushed(s)], id) || InLog(OldGroups(s)[..k1], id) || InLog(NewGroups(s)[..k2], id)
  }

  /** Crash safety. Take any state of any run and any crash: of each log file a prefix is left that
      holds at least what was synced. Then recovery, in either checking mode, replays without an
      error exactly the groups of a prefix of each log, every write that was acknowledged after
      a sync is found, and when no bytes were lost all logged writes are found. */
  lemma CrashRecovery(run: seq<State>, events: seq<Event>, t: nat, sum: Checksum, oldLog: Slice, newLog: Slice, paranoid: bool)
    returns (k1: nat, k2: nat)
    requires IsRun(run, events) && t < |run|
    requires Marks(run[t]) ==> Crashed(sum, run[t], oldLog, newLog)
    ensures Marks(run[t]) && Recovers(sum, run[t], oldLog, newLog, paranoid, k1, k2)
    ensures forall id :: AcknowledgedSync(run[t], id) ==> IsFound(run[t], k1, k2, id)
  {
    hide LeftByCrash, Replay, EntriesOf, LogBytes, OldGroups, OldSynced, NewGroups, Loggable, AcknowledgedSync, IsFound;
    RunKeepsInv(run, events, t);
    var s := run[t];
    GroupsLoggable(s);
    k1 := RecoverOneLog(sum, oldLog, OldGroups(s), OldSynced(s), paranoid, 0);
    k2 := RecoverOneLog(sum, newLog, NewGroups(s), s.logSynced - s.logStart, paranoid, Replay(sum, oldLog, 0, paranoid, 0).maxSequence);
    forall id | AcknowledgedSync(s, id) ensures IsFound(s, k1, k2, id) {
      SyncedIsRecovered(s, k1, k2, id);
    }
    FoundInOrder(s, k1, k2);
    LastOfBoth(OldGroups(s)[..k1], NewGroups(s)[..k2]);
  }

  lemma FoundInOrder(s: State, k1: nat, k2: nat)
    requires Inv(s) && k1 <= |OldGroups(s)| && k2 <= |NewGroups(s)|
    ensures StartsPositive(OldGroups(s)[..k1] + NewGroups(s)[..k2]) && InOrder(OldGroups(s)[..k1] + NewGroups(s)[..k2])
  {
    hide AllGroupsOk, AllAnswered, Replayed, PhaseOk, AllRequestsFit;
    Positive(s.requests, s.logged);
    var found := OldGroups(s)[..k1] + NewGroups(s)[..k2];
    forall i | 0 <= i < |found| ensures found[i] == s.logged[if i < k1 then s.immStart + i else s.logStart + i - k1] {
    }
  }

  lemma GroupsLoggable(s: State)
    requires Inv(s)
    ensures Loggable(OldGroups(s)) && Loggable(NewGroups(s))
  {
    hide AllGroupsOk, AllAnswered, Replayed, PhaseOk;
    LoggedIsLoggable(s.requests, s.logged);
  }

  lemma LoggedIsLoggable(requests: seq<Request>, logged: seq<Group>)
    requires AllGroupsOk(requests, logged)
    ensures Loggable(logged)
  {
    forall i | 0 <= i < |logged| ensures logged[i].start > 0 && logged[i].End() <= MAX_SEQUENCE_NUMBER && AllFit(logged[i].ops) {
      assert GroupOk(requests, logged[i]);
    }
  }

  lemma SyncedIsRecovered(s: State, k1: nat, k2: nat, id: nat)
    requires Inv(s) && OldSynced(s) <= k1 <= |OldGroups(s)| && s.logSynced - s.logStart <= k2 <= |NewGroups(s)|
    requires AcknowledgedSync(s, id)
    ensures IsFound(s, k1, k2, id)
  {
    hide AllGroupsOk, Replayed, PhaseOk, InOrder, AllRequestsFit;
    assert Answered(s.requests[id], s.answers[id], id, s.logged, DiskOf(s), s.bgError);
    var i :| 0 <= i < |s.logged| && Covers(s.logged[i], id) && DiskOf(s).Has(i);
    if i < Flushed(s) {
      assert s.logged[..Flushed(s)][i] == s.logged[i];
    } else if i < s.logStart {
      assert OldGroups(s)[..k1][i - s.immStart] == s.logged[i];
    } else {
      assert NewGroups(s)[..k2][i - s.logStart] == s.logged[i];
    }
  }

  /** What recovery takes for the last sequence number: the larger of that of the MANIFEST and that of the logs. */
  function Restored(sum: Checksum, oldLog: Slice, newLog: Slice, paranoid: bool, fromManifest: nat): nat {
    Max(fromManifest, Replay(sum, newLog, 0, paranoid, Replay(sum, oldLog, 0, paranoid, 0).maxSequence).maxSequence)
  }

  /** A last sequence number that was recorded no later than now and after everything flushed. */
  ghost predicate RecordedAtFlush(s: State, fromManifest: nat)
    requires Marks(s)
  {
    fromManifest <= s.lastSequence && forall i :: 0 <= i < Flushed(s) ==> s.logged[i].End() <= fromManifest + 1
  }

  /** When no byte was lost, no append had failed and no write is under way, recovery restores the last sequence
      number; the logs alone do so as long as they hold a group. */
  lemma LastSequenceRestored(run: seq<State>, events: seq<Event>, t: nat, sum: Checksum, paranoid: bool, fromManifest: nat)
    requires IsRun(run, events) && t < |run| && (run[t].phase.NoLeader? || run[t].phase.MakingRoom?)
    requires forall i :: 0 <= i < t ==> !events[i].AppendFails?
    ensures Marks(run[t])
    ensures var s := run[t];
      var restored := Restored(sum, LogBytes(sum, OldGroups(s)), LogBytes(sum, NewGroups(s)), paranoid, fromManifest);
      && (OldGroups(s) + NewGroups(s) != [] && fromManifest <= s.lastSequence ==> restored == s.lastSequence)
      && (RecordedAtFlush(s, fromManifest) ==> restored == s.lastSequence)
  {
    hide Replay, LogBytes, Inv, Marks, PhaseOk, Gapless, OldGroups, NewGroups, RecordedAtFlush;
    RunKeepsInv(run, events, t);
    OnlyFailedAppendsLeaveGaps(run, events, t);
    var s := run[t];
    WholeLogs(sum, s, paranoid);
    LastIsUnflushed(s, fromManifest);
  }

  lemma WholeLogs(sum: Checksum, s: State, paranoid: bool)
    requires Inv(s)
    ensures Marks(s) && StartsPositive(OldGroups(s) + NewGroups(s))
    ensures Replay(sum, LogBytes(sum, NewGroups(s)), 0, paranoid, Replay(sum, LogBytes(sum, OldGroups(s)), 0, paranoid, 0).maxSequence).maxSequence
      == LastUsed(OldGroups(s) + NewGroups(s))
  {
    hide Replay, LogBytes, InOrder, EntriesOf, OldGroups, NewGroups, Loggable, StartsPositive, AllGroupsOk, AllAnswered, Replayed, PhaseOk;
    var a, b := OldGroups(s), NewGroups(s);
    GroupsLoggable(s);
    assert a[..|a|] == a && b[..|b|] == b;
    FoundInOrder(s, |a|, |b|);
    LastOfBoth(a, b);
    WholeLog(sum, a, paranoid, 0);
    WholeLog(sum, b, paranoid, MaxOf(a, 0));
  }

  /** Without gaps the last group of a quiet state used the last sequence number. */
  lemma LastIsUnflushed(s: State, fromManifest: nat)
    requires Inv(s) && Gapless(s) && (s.phase.NoLeader? || s.phase.MakingRoom?)
    ensures Marks(s) && StartsPositive(OldGroups(s) + NewGroups(s))
    ensures OldGroups(s) + NewGroups(s) != [] ==> LastUsed(OldGroups(s) + NewGroups(s)) == s.lastSequence
    ensures RecordedAtFlush(s, fromManifest) ==> Max(fromManifest, LastUsed(OldGroups(s) + NewGroups(s))) == s.lastSequence
  {
    hide InOrder, EntriesOf, AllGroupsOk, AllAnswered, Replayed, AllRequestsFit, PhaseOk, Gapless, Contiguous, OldGroups, NewGroups,
      StartsPositive, LastUsed, LogEnd;
    QuietEnd(s);
    UnflushedSplit(s);
    Positive(s.requests, s.logged);
    EndOfRest(s.logged, Flushed(s), s.lastSequence, fromManifest);
  }

  lemma QuietEnd(s: State)
    requires Gapless(s) && (s.phase.NoLeader? || s.phase.MakingRoom?)
    ensures s.lastSequence + 1 == LogEnd(s.logged)
  {
  }

  lemma UnflushedSplit(s: State)
    requires Marks(s)
    ensures Flushed(s) <= |s.logged| && OldGroups(s) + NewGroups(s) == s.logged[Flushed(s)..]
  {
  }

  lemma EndOfRest(logged: seq<Group>, flushed: nat, last: nat, fromManifest: nat)
    requires flushed <= |logged| && last + 1 == LogEnd(logged) && StartsPositive(logged)
    ensures StartsPositive(logged[flushed..]) && (logged[flushed..] != [] ==> LastUsed(logged[flushed..]) == last)
    ensures fromManifest <= last && (forall i :: 0 <= i < flushed ==> logged[i].End() <= fromManifest + 1) ==>
      Max(fromManifest, LastUsed(logged[flushed..])) == last
  {
  }

  lemma WholeLog(sum: Checksum, gs: seq<Group>, paranoid: bool, max: nat)
    requires Loggable(gs) && StartsPositive(gs)
    ensures Replay(sum, LogBytes(sum, gs), 0, paranoid, max) == Recovered(EntriesOf(gs), MaxOf(gs, max), true)
  {
    hide Replay, Layout, EntriesOf, Encode;
    assert gs[..0] == [] && RecordsOf([]) == [] && gs[..|gs|] == gs;
    var k := RecoverOneLog(sum, LogBytes(sum, gs), gs, 0, paranoid, max);
  }
}
