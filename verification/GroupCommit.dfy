/** The writer queue: concurrent writers, one leader at a time that logs a group of batches
    for all of its members, memtable switches, and flushes of the old memtable. */
module GroupCommit {
  import opened Bytes
  import opened DbFormat
  import opened Coding
  import opened WriteBatch

  /** A call of Write; no batch asks only for a memtable switch. */
  datatype Request = Request(batch: Option<seq<Op>>, sync: bool)

  function OpsOf(r: Request): seq<Op> { if r.batch.Some? then r.batch.value else [] }

  /** The operations of some requests, in arrival order. */
  function Concat(rs: seq<Request>): seq<Op> {
    if rs == [] then [] else Concat(rs[..|rs| - 1]) + OpsOf(rs[|rs| - 1])
  }

  function ByteSize(ops: seq<Op>): nat { HEADER + |Records(ops)| }

  const SMALL: nat := 128 * 1024

  function MaxSize(first: nat): nat { if first <= SMALL then first + SMALL else 1024 * 1024 }

  /** How many requests from the front of the queue a leader commits together, once i of them
      with this many bytes are in. */
  function Extend(queue: seq<Request>, i: nat, size: nat, max: nat): (n: nat)
    requires 0 < i <= |queue|
    ensures i <= n <= |queue|
    ensures !queue[0].sync ==> forall j :: i <= j < n ==> !queue[j].sync
    decreases |queue| - i
  {
    if i == |queue| || (queue[i].sync && !queue[0].sync) then i
    else if queue[i].batch.None? then Extend(queue, i + 1, size, max)
    else
      var size' := size + ByteSize(queue[i].batch.value);
      if size' > max then i else Extend(queue, i + 1, size', max)
  }

  function GroupLength(queue: seq<Request>): (n: nat)
    requires queue != []
    ensures 1 <= n <= |queue|
    ensures !queue[0].sync ==> forall j :: 0 <= j < n ==> !queue[j].sync
  {
    var size := ByteSize(OpsOf(queue[0]));
    Extend(queue, 1, size, MaxSize(size))
  }

  /** The bytes of the batches of some requests. */
  function BatchBytes(rs: seq<Request>): nat {
    if rs == [] then 0
    else BatchBytes(rs[..|rs| - 1]) + if rs[|rs| - 1].batch.Some? then ByteSize(rs[|rs| - 1].batch.value) else 0
  }

  /** The j-th request may join the ones before it: it asks for no sync that the leader does not, and its batch fits. */
  ghost predicate MayJoin(queue: seq<Request>, j: nat)
    requires j < |queue|
  {
    && (queue[j].sync ==> queue[0].sync)
    && (queue[j].batch.Some? ==> BatchBytes(queue[..j + 1]) <= MaxSize(ByteSize(OpsOf(queue[0]))))
  }

  lemma {:induction false} ExtendsAsLong(queue: seq<Request>, i: nat, size: nat, max: nat)
    requires 0 < i <= |queue| && size == BatchBytes(queue[..i]) && max == MaxSize(ByteSize(OpsOf(queue[0])))
    ensures var n := Extend(queue, i, size, max);
      && (forall j :: i <= j < n ==> MayJoin(queue, j)) && (n < |queue| ==> !MayJoin(queue, n))
    decreases |queue| - i
  {
    hide ByteSize, MaxSize;
    if i < |queue| {
      assert queue[..i + 1][..i] == queue[..i];
      if (queue[i].sync ==> queue[0].sync) && (queue[i].batch.Some? ==> BatchBytes(queue[..i + 1]) <= max) {
        ExtendsAsLong(queue, i + 1, BatchBytes(queue[..i + 1]), max);
      }
    }
  }

  /** The group is the longest one: each member may join those before it, and the next request may not. */
  lemma GroupIsLongest(queue: seq<Request>)
    requires queue != [] && queue[0].batch.Some?
    ensures forall j :: 1 <= j < GroupLength(queue) ==> MayJoin(queue, j)
    ensures GroupLength(queue) < |queue| ==> !MayJoin(queue, GroupLength(queue))
  {
    hide Extend, MayJoin, ByteSize;
    assert queue[..1][..0] == [];
    ExtendsAsLong(queue, 1, ByteSize(OpsOf(queue[0])), MaxSize(ByteSize(OpsOf(queue[0]))));
  }

  /** An entry of the writer queue. */
  class Writer {
    const batch: Batch?
    const sync: bool

    constructor (batch: Batch?, sync: bool)
      ensures this.batch == batch && this.sync == sync
    {
      this.batch, this.sync := batch, sync;
    }
  }

  /** The bytes of a batch hold these operations, under whatever sequence number. */
  ghost predicate Holds(b: Batch, ops: seq<Op>)
    reads b
  {
    exists s: nat :: Encodes(b.rep, s, ops)
  }

  ghost predicate Stands(w: Writer, r: Request)
    reads w, w.batch
  {
    w.sync == r.sync && (w.batch == null <==> r.batch.None?) && (w.batch != null ==> Holds(w.batch, r.batch.value))
  }

  lemma {:induction false} RecordsAreLong(ops: seq<Op>)
    ensures |Records(ops)| >= 2 * |ops|
  {
    if ops != [] {
      RecordsAreLong(ops[1..]);
    }
  }

  lemma HoldsSize(rep: Slice, s: nat, ops: seq<Op>)
    requires Encodes(rep, s, ops)
    ensures |rep| == ByteSize(ops) && 2 * |ops| <= |rep|
  {
    RecordsAreLong(ops);
  }

  /** Joins the batches at the front of the queue, in a batch of its own if there are several. */
  method BuildBatchGroup(queue: seq<Writer>, tmp: Batch, ghost requests: seq<Request>) returns (result: Batch, n: nat)
    requires queue != [] && |requests| == |queue| && queue[0].batch != null
    requires forall i :: 0 <= i < |queue| ==> Stands(queue[i], requests[i]) && queue[i].batch != tmp
    requires tmp.rep == Encode(0, [])
    modifies tmp
    ensures n == GroupLength(requests) && Holds(result, Concat(requests[..n]))
    ensures result == tmp || (result == queue[0].batch && forall i :: 0 < i < n ==> requests[i].batch.None?)
  {
    hide Encodes, Records, Concat, Extend;
    var first := queue[0];
    result := first.batch;
    BatchSize(first.batch, requests[0].batch.value);
    assert Stands(first, requests[0]);
    var size: nat := |first.batch.rep|;
    var maxSize := if size <= SMALL then size + SMALL else 1024 * 1024;
    FirstConcat(requests);
    n := 1;
    while n < |queue|
      invariant 1 <= n <= |queue|
      invariant GroupLength(requests) == Extend(requests, n, size, maxSize)
      invariant result == tmp || (result == first.batch && tmp.rep == Encode(0, []) && forall i :: 0 < i < n ==> requests[i].batch.None?)
      invariant Holds(result, Concat(requests[..n])) && 2 * |Concat(requests[..n])| <= size
    {
      var w := queue[n];
      assert Stands(w, requests[n]);
      NextConcat(requests, n);
      ExtendStep(requests, n, size, maxSize);
      if w.sync && !first.sync {
        return;
      }
      if w.batch != null {
        BatchSize(w.batch, requests[n].batch.value);
        size := size + |w.batch.rep|;
        if size > maxSize {
          return;
        }
        if result == first.batch {
          result := tmp;
          JoinBatches(result, first.batch, [], Concat(requests[..n]));
          assert [] + Concat(requests[..n]) == Concat(requests[..n]);
        }
        JoinBatches(result, w.batch, Concat(requests[..n]), requests[n].batch.value);
      } else {
        assert Concat(requests[..n]) + [] == Concat(requests[..n]);
      }
      n := n + 1;
    }
    ExtendStep(requests, n, size, maxSize);
  }

  lemma ExtendStep(queue: seq<Request>, i: nat, size: nat, max: nat)
    requires 0 < i <= |queue|
    ensures i == |queue| || (queue[i].sync && !queue[0].sync) ==> Extend(queue, i, size, max) == i
    ensures i < |queue| && !(queue[i].sync && !queue[0].sync) ==>
      Extend(queue, i, size, max) ==
        if queue[i].batch.None? then Extend(queue, i + 1, size, max)
        else if size + ByteSize(queue[i].batch.value) > max then i
        else Extend(queue, i + 1, size + ByteSize(queue[i].batch.value), max)
  {
  }

  method JoinBatches(dst: Batch, src: Batch, ghost ops: seq<Op>, ghost more: seq<Op>)
    requires Holds(dst, ops) || (dst.rep == Encode(0, []) && ops == [])
    requires Holds(src, more) && dst != src && |ops| + |more| < TWO32
    modifies dst
    ensures Holds(dst, ops + more)
  {
    assert dst.rep == Encode(0, []) && ops == [] ==> Encodes(dst.rep, 0, ops);
    ghost var s: nat :| Encodes(dst.rep, s, ops);
    ghost var t: nat :| Encodes(src.rep, t, more);
    dst.Append(src);
    assert Encodes(dst.rep, s, ops + more);
  }

  lemma BatchSize(b: Batch, ops: seq<Op>)
    requires Holds(b, ops)
    ensures |b.rep| == ByteSize(ops) && 2 * |ops| <= |b.rep|
  {
    var s: nat :| Encodes(b.rep, s, ops);
    HoldsSize(b.rep, s, ops);
  }

  lemma FirstConcat(rs: seq<Request>)
    requires rs != []
    ensures Concat(rs[..1]) == OpsOf(rs[0])
  {
    assert rs[..1][..0] == [];
  }

  lemma NextConcat(rs: seq<Request>, n: nat)
    requires n < |rs|
    ensures Concat(rs[..n + 1]) == Concat(rs[..n]) + OpsOf(rs[n])
  {
    assert rs[..n + 1][..n] == rs[..n];
  }

  // --------------------------------------------------------------------------- state

  /** A record of the log: the requests it commits, its first sequence number, its operations. */
  datatype Group = Group(first: nat, count: nat, start: nat, ops: seq<Op>) {
    function End(): nat { start + |ops| }
  }

  datatype Phase =
    | NoLeader
    | MakingRoom
    | Grouped(group: Group)
    | Logged(group: Group)
    | Finishing(group: Group, ok: bool)

  /** Requests are numbered in arrival order; those before head are answered and the queue is
      the rest. logged is every group ever appended to a log, in order; the records from
      logStart are in the current log, and those from immStart to logStart in the log of the
      memtable being flushed. Records before logSynced (immSynced) are on disk. */
  datatype State = State(
    requests: seq<Request>,
    head: nat,
    answers: seq<bool>,
    phase: Phase,
    logged: seq<Group>,
    logStart: nat,
    logSynced: nat,
    imm: Option<seq<Entry>>,
    immStart: nat,
    immSynced: nat,
    mem: seq<Entry>,
    tables: seq<Entry>,
    lastSequence: nat,
    bgError: bool)

  function Init(): State {
    State([], 0, [], NoLeader, [], 0, 0, None, 0, 0, [], [], 0, false)
  }

  function EntriesOf(gs: seq<Group>): seq<Entry> {
    if gs == [] then [] else EntriesOf(gs[..|gs| - 1]) + ToEntries(gs[|gs| - 1].ops, gs[|gs| - 1].start)
  }

  datatype Event =
    | Enqueue(request: Request)
    | Lead
    | SwitchMemTable
    | RoomFails
    | RoomMade
    | Append
    | AppendFails
    | Sync
    | SyncFails
    | Insert
    | Finish
    | FlushImm

  /** The group that the front of the queue would commit now. */
  function NextGroup(s: State): Group
    requires s.head < |s.requests|
  {
    var n := GroupLength(s.requests[s.head..]);
    Group(s.head, n, s.lastSequence + 1, Concat(s.requests[s.head..s.head + n]))
  }

  /** Only the front of the queue leads, and only when nobody else does. A group must leave
      room for its sequence numbers. */
  predicate Enabled(s: State, e: Event) {
    match e
    case Enqueue(r) => r.batch.Some? ==> AllFit(r.batch.value)
    case Lead => s.phase.NoLeader? && s.head < |s.requests|
    case SwitchMemTable => s.phase.MakingRoom? && !s.bgError && s.imm.None?
    case RoomFails => s.phase.MakingRoom? && s.head < |s.requests|
    case RoomMade =>
      s.phase.MakingRoom? && !s.bgError && s.head < |s.requests| && NextGroup(s).End() <= MAX_SEQUENCE_NUMBER
    case Append => s.phase.Grouped?
    case AppendFails => s.phase.Grouped?
    case Sync => s.phase.Logged? && s.phase.group.first < |s.requests| && s.requests[s.phase.group.first].sync && s.logSynced < |s.logged|
    case SyncFails => s.phase.Logged? && s.phase.group.first < |s.requests| && s.requests[s.phase.group.first].sync && s.logSynced < |s.logged|
    case Insert =>
      s.phase.Logged? && s.phase.group.first < |s.requests| && (s.requests[s.phase.group.first].sync ==> s.logSynced == |s.logged|)
    case Finish => s.phase.Finishing?
    case FlushImm => s.imm.Some?
  }

  function Next(s: State, e: Event): State
    requires Enabled(s, e)
  {
    match e
    case Enqueue(r) => s.(requests := s.requests + [r])
    case Lead => s.(phase := MakingRoom)
    case SwitchMemTable =>
      s.(imm := Some(s.mem), immStart := s.logStart, immSynced := s.logSynced,
         mem := [], logStart := |s.logged|, logSynced := |s.logged|)
    case RoomFails => s.(phase := NoLeader, head := s.head + 1, answers := s.answers + [false])
    case RoomMade =>
      if s.requests[s.head].batch.None? then s.(phase := NoLeader, head := s.head + 1, answers := s.answers + [true])
      else s.(phase := Grouped(NextGroup(s)))
    case Append => s.(logged := s.logged + [s.phase.group], phase := Logged(s.phase.group))
    case AppendFails => s.(phase := Finishing(s.phase.group, false))
    case Sync => s.(logSynced := |s.logged|)
    case SyncFails => s.(bgError := true, phase := Finishing(s.phase.group, false))
    case Insert =>
      s.(mem := s.mem + ToEntries(s.phase.group.ops, s.phase.group.start), phase := Finishing(s.phase.group, true))
    case Finish =>
      var g := s.phase.group;
      s.(lastSequence := s.lastSequence + |g.ops|, head := s.head + g.count, answers := s.answers + seq(g.count, _ => s.phase.ok), phase := NoLeader)
    case FlushImm => s.(tables := s.tables + s.imm.value, imm := None)
  }

  // ----------------------------------------------------------------------- invariant

  ghost predicate Covers(g: Group, id: nat) { g.first <= id < g.first + g.count }

  ghost predicate AllFitEach(ops: seq<Op>) { forall op :: op in ops ==> Fits(op) }

  ghost predicate AllRequestsFit(rs: seq<Request>) { forall i :: 0 <= i < |rs| && rs[i].batch.Some? ==> AllFit(rs[i].batch.value) }

  /** A group holds the batches of consecutive requests, in order; a group led by a request
      that does not sync holds none that does. */
  ghost predicate GroupOk(requests: seq<Request>, g: Group) {
    && g.count >= 1 && g.first + g.count <= |requests| && requests[g.first].batch.Some?
    && g.ops == Concat(requests[g.first..g.first + g.count]) && AllFit(g.ops)
    && 0 < g.start && g.End() <= MAX_SEQUENCE_NUMBER
    && (!requests[g.first].sync ==> forall id: nat :: Covers(g, id) ==> !requests[id].sync)
  }

  ghost predicate AllGroupsOk(requests: seq<Request>, logged: seq<Group>) {
    forall i :: 0 <= i < |logged| ==> GroupOk(requests, logged[i])
  }

  /** The log is in arrival order and its sequence ranges follow each other. */
  ghost predicate InOrder(logged: seq<Group>) {
    forall i, j :: 0 <= i < j < |logged| ==>
      logged[i].first + logged[i].count <= logged[j].first && logged[i].End() <= logged[j].start
  }

  ghost predicate Before(logged: seq<Group>, head: nat, next: nat) {
    forall i :: 0 <= i < |logged| ==> logged[i].first + logged[i].count <= head && logged[i].End() <= next
  }

  /** How many groups are in table files. */
  function Flushed(s: State): nat { if s.imm.Some? then s.immStart else s.logStart }

  /** The last record of the current log is not in the memtable (yet). */
  predicate Pending(s: State) { s.phase.Logged? || s.bgError }

  ghost predicate Marks(s: State) {
    s.immStart <= s.immSynced <= s.logStart <= s.logSynced <= |s.logged| && (Pending(s) ==> s.logStart < |s.logged|)
  }

  /** Tables, old memtable and memtable replay the three parts of the log. */
  ghost predicate Replayed(s: State)
    requires Marks(s)
  {
    && s.tables == EntriesOf(s.logged[..Flushed(s)])
    && (s.imm.Some? ==> s.imm.value == EntriesOf(s.logged[s.immStart..s.logStart]))
    && s.mem == EntriesOf(s.logged[s.logStart..if Pending(s) then |s.logged| - 1 else |s.logged|])
  }

  ghost predicate LastIs(logged: seq<Group>, g: Group) { logged != [] && logged[|logged| - 1] == g }

  /** The group at work belongs to the front of the queue and gets the next sequence numbers. */
  ghost predicate AtWork(s: State, g: Group) {
    g.first == s.head && g.start == s.lastSequence + 1 && GroupOk(s.requests, g)
  }

  ghost predicate PhaseOk(s: State) {
    match s.phase
    case NoLeader => Before(s.logged, s.head, s.lastSequence + 1)
    case MakingRoom => s.head < |s.requests| && Before(s.logged, s.head, s.lastSequence + 1)
    case Grouped(g) => AtWork(s, g) && !s.bgError && Before(s.logged, s.head, s.lastSequence + 1)
    case Logged(g) =>
      AtWork(s, g) && !s.bgError && LastIs(s.logged, g) && Before(s.logged[..|s.logged| - 1], s.head, s.lastSequence + 1)
    case Finishing(g, ok) =>
      && AtWork(s, g)
      && (ok ==> !s.bgError && LastIs(s.logged, g) && s.logStart < |s.logged| && (s.requests[g.first].sync ==> s.logSynced == |s.logged|))
      && (if LastIs(s.logged, g) then (ok || s.bgError) && Before(s.logged[..|s.logged| - 1], s.head, s.lastSequence + 1)
          else Before(s.logged, s.head, s.lastSequence + 1))
  }

  /** Which records are on disk: all before oldSynced, and those of the current log that were synced. */
  datatype Disk = Disk(oldSynced: nat, logStart: nat, logSynced: nat) {
    predicate Has(i: nat) { i < oldSynced || logStart <= i < logSynced }
  }

  function DiskOf(s: State): Disk {
    Disk(if s.imm.Some? then s.immSynced else s.logStart, s.logStart, s.logSynced)
  }

  /** An acknowledged write is in the log, and on disk if a sync was asked for. A write that
      failed is not in the log, except that a failed sync leaves it there as the last record. */
  ghost predicate Answered(r: Request, ok: bool, id: nat, logged: seq<Group>, disk: Disk, bgError: bool) {
    if ok then
      r.batch.Some? ==> exists i :: 0 <= i < |logged| && Covers(logged[i], id) && (r.sync ==> disk.Has(i))
    else
      forall i :: 0 <= i < |logged| && Covers(logged[i], id) ==> bgError && i == |logged| - 1
  }

  ghost predicate AllAnswered(requests: seq<Request>, answers: seq<bool>, logged: seq<Group>, disk: Disk, bgError: bool)
    requires |answers| <= |requests|
  {
    forall id :: 0 <= id < |answers| ==> Answered(requests[id], answers[id], id, logged, disk, bgError)
  }

  ghost predicate Inv(s: State) {
    && |s.answers| == s.head <= |s.requests| && AllRequestsFit(s.requests)
    && AllGroupsOk(s.requests, s.logged) && InOrder(s.logged)
    && Marks(s) && Replayed(s) && PhaseOk(s)
    && AllAnswered(s.requests, s.answers, s.logged, DiskOf(s), s.bgError)
  }

  lemma InitInv()
    ensures Inv(Init())
  {
  }

  lemma {:induction false} ConcatFits(rs: seq<Request>)
    requires AllRequestsFit(rs)
    ensures AllFitEach(Concat(rs))
  {
    if rs != [] {
      ConcatFits(rs[..|rs| - 1]);
      assert OpsOf(rs[|rs| - 1]) != [] ==> AllFit(OpsOf(rs[|rs| - 1]));
    }
  }

  /** New requests change nothing about groups that exist. */
  lemma MoreRequests(requests: seq<Request>, r: Request, g: Group)
    requires GroupOk(requests, g)
    ensures GroupOk(requests + [r], g)
  {
    assert (requests + [r])[g.first..g.first + g.count] == requests[g.first..g.first + g.count];
  }

  lemma MoreRequestsAll(requests: seq<Request>, r: Request, logged: seq<Group>)
    requires AllGroupsOk(requests, logged)
    ensures AllGroupsOk(requests + [r], logged)
  {
    hide GroupOk;
    forall i | 0 <= i < |logged| ensures GroupOk(requests + [r], logged[i]) {
      MoreRequests(requests, r, logged[i]);
    }
  }

  /** The size limit keeps the operation count of a group within 32 bits. */
  lemma {:induction false} ExtendFits(queue: seq<Request>, i: nat, size: nat, max: nat)
    requires 0 < i <= |queue| && max <= 1024 * 1024
    requires 2 * |Concat(queue[..i])| <= size && |Concat(queue[..i])| < TWO32
    ensures |Concat(queue[..Extend(queue, i, size, max)])| < TWO32
    decreases |queue| - i
  {
    hide Concat, Records;
    if !(i == |queue| || (queue[i].sync && !queue[0].sync)) {
      NextConcat(queue, i);
      if queue[i].batch.None? {
        ExtendFits(queue, i + 1, size, max);
      } else {
        var size' := size + ByteSize(queue[i].batch.value);
        RecordsAreLong(queue[i].batch.value);
        if size' <= max {
          ExtendFits(queue, i + 1, size', max);
        }
      }
    }
  }

  lemma GroupCountFits(queue: seq<Request>)
    requires queue != [] && AllRequestsFit(queue) && queue[0].batch.Some?
    ensures |Concat(queue[..GroupLength(queue)])| < TWO32
  {
    hide Concat, Records;
    var size := ByteSize(OpsOf(queue[0]));
    FirstConcat(queue);
    RecordsAreLong(OpsOf(queue[0]));
    ExtendFits(queue, 1, size, MaxSize(size));
  }

  /** The group that the front of the queue commits. */
  lemma FrontGroup(requests: seq<Request>, head: nat, start: nat)
    requires head < |requests| && AllRequestsFit(requests) && requests[head].batch.Some? && start > 0
    ensures var n := GroupLength(requests[head..]); var g := Group(head, n, start, Concat(requests[head..head + n]));
      g.End() <= MAX_SEQUENCE_NUMBER ==> GroupOk(requests, g)
  {
    hide Concat, AllFitEach, GroupLength;
    var queue := requests[head..];
    var n := GroupLength(queue);
    assert queue[..n] == requests[head..head + n];
    assert AllRequestsFit(queue);
    GroupCountFits(queue);
    ConcatFits(requests[head..head + n]);
    forall id: nat | head <= id < head + n && !queue[0].sync ensures !requests[id].sync {
      assert requests[id] == queue[id - head];
    }
  }

  lemma NextGroupOk(s: State)
    requires Inv(s) && Enabled(s, RoomMade) && s.requests[s.head].batch.Some?
    ensures AtWork(s, NextGroup(s))
  {
    hide Concat, AllRequestsFit, GroupOk, GroupLength, Marks, Replayed, AllAnswered, InOrder, AllGroupsOk, Before;
    FrontGroup(s.requests, s.head, s.lastSequence + 1);
  }

  /** Answers stay true when the disk gains records, as long as a record that an answer calls
      the last one stays the last. */
  lemma AnswersStay(s: State, requests: seq<Request>, disk: Disk, bgError: bool)
    requires |s.answers| <= |s.requests| && AllAnswered(s.requests, s.answers, s.logged, DiskOf(s), s.bgError)
    requires s.requests <= requests && (s.bgError ==> bgError)
    requires forall i :: 0 <= i < |s.logged| && DiskOf(s).Has(i) ==> disk.Has(i)
    ensures AllAnswered(requests, s.answers, s.logged, disk, bgError)
  {
    forall id | 0 <= id < |s.answers| ensures Answered(requests[id], s.answers[id], id, s.logged, disk, bgError) {
      assert Answered(s.requests[id], s.answers[id], id, s.logged, DiskOf(s), s.bgError);
    }
  }

  /** Answering more requests from the front of the queue. */
  lemma AnswersGrow(s: State, n: nat, ok: bool)
    requires |s.answers| + n <= |s.requests| && AllAnswered(s.requests, s.answers, s.logged, DiskOf(s), s.bgError)
    requires forall id :: |s.answers| <= id < |s.answers| + n ==> Answered(s.requests[id], ok, id, s.logged, DiskOf(s), s.bgError)
    ensures AllAnswered(s.requests, s.answers + seq(n, _ => ok), s.logged, DiskOf(s), s.bgError)
  {
    var answers := s.answers + seq(n, _ => ok);
    forall id | 0 <= id < |answers| ensures Answered(s.requests[id], answers[id], id, s.logged, DiskOf(s), s.bgError) {
      if id < |s.answers| {
        assert Answered(s.requests[id], s.answers[id], id, s.logged, DiskOf(s), s.bgError);
      }
    }
  }

  lemma AnswersAfterAppend(s: State, g: Group)
    requires |s.answers| <= |s.requests| && AllAnswered(s.requests, s.answers, s.logged, DiskOf(s), s.bgError)
    requires g.first == |s.answers| && !s.bgError
    ensures AllAnswered(s.requests, s.answers, s.logged + [g], DiskOf(s), s.bgError)
  {
    forall id | 0 <= id < |s.answers| ensures Answered(s.requests[id], s.answers[id], id, s.logged + [g], DiskOf(s), s.bgError) {
      assert Answered(s.requests[id], s.answers[id], id, s.logged, DiskOf(s), s.bgError);
      assert !Covers(g, id);
      if s.answers[id] && s.requests[id].batch.Some? {
        var i :| 0 <= i < |s.logged| && Covers(s.logged[i], id) && (s.requests[id].sync ==> DiskOf(s).Has(i));
        assert (s.logged + [g])[i] == s.logged[i];
      }
    }
  }

  lemma EnqueueKeepsInv(s: State, r: Request)
    requires Inv(s) && Enabled(s, Enqueue(r))
    ensures Inv(Next(s, Enqueue(r)))
  {
    hide GroupOk, AllGroupsOk, InOrder, Before, AllAnswered, EntriesOf;
    MoreRequestsAll(s.requests, r, s.logged);
    if s.phase.Grouped? || s.phase.Logged? || s.phase.Finishing? {
      MoreRequests(s.requests, r, s.phase.group);
      SameLeader(s.requests, s.phase.group);
    }
    AnswersStay(s, s.requests + [r], DiskOf(s), s.bgError);
  }

  lemma SameLeader(requests: seq<Request>, g: Group)
    requires GroupOk(requests, g)
    ensures g.first < |requests| && g.count >= 1 && g.first + g.count <= |requests|
    ensures 0 < g.start && g.End() <= MAX_SEQUENCE_NUMBER
  {
  }

  /** Steps that answer the front of the queue alone. */
  lemma AloneKeepsInv(s: State, e: Event)
    requires Inv(s) && Enabled(s, e)
    requires e.RoomFails? || (e.RoomMade? && s.requests[s.head].batch.None?)
    ensures Inv(Next(s, e))
  {
    hide GroupOk, AllGroupsOk, InOrder, AllAnswered, EntriesOf, AllRequestsFit;
    var ok := e.RoomMade?;
    AnswersGrow(s, 1, ok);
    assert s.answers + seq(1, _ => ok) == s.answers + [ok];
  }

  lemma SwitchKeepsInv(s: State)
    requires Inv(s) && Enabled(s, SwitchMemTable)
    ensures Inv(Next(s, SwitchMemTable))
  {
    hide GroupOk, AllGroupsOk, InOrder, AllAnswered, Before, AllRequestsFit;
    var s' := Next(s, SwitchMemTable);
    AnswersStay(s, s.requests, DiskOf(s'), s.bgError);
  }

  lemma {:induction false} EntriesOfAppend(a: seq<Group>, b: seq<Group>)
    ensures EntriesOf(a + b) == EntriesOf(a) + EntriesOf(b)
    decreases |b|
  {
    hide ToEntries;
    if b == [] {
      assert a + b == a;
    } else {
      var front := b[..|b| - 1];
      var last := ToEntries(b[|b| - 1].ops, b[|b| - 1].start);
      EntriesOfAppend(a, front);
      assert (a + b)[..|a + b| - 1] == a + front && (a + b)[|a + b| - 1] == b[|b| - 1];
      assert EntriesOf(a + b) == EntriesOf(a + front) + last;
      assert EntriesOf(b) == EntriesOf(front) + last;
    }
  }

  lemma FlushKeepsInv(s: State)
    requires Inv(s) && Enabled(s, FlushImm)
    ensures Inv(Next(s, FlushImm))
  {
    hide GroupOk, AllGroupsOk, InOrder, AllAnswered, Before, AllRequestsFit, EntriesOf;
    var s' := Next(s, FlushImm);
    EntriesOfAppend(s.logged[..s.immStart], s.logged[s.immStart..s.logStart]);
    assert s.logged[..s.logStart] == s.logged[..s.immStart] + s.logged[s.immStart..s.logStart];
    AnswersStay(s, s.requests, DiskOf(s'), s.bgError);
  }

  lemma GroupsAfterAppend(requests: seq<Request>, logged: seq<Group>, g: Group, head: nat, next: nat)
    requires AllGroupsOk(requests, logged) && InOrder(logged) && Before(logged, head, next)
    requires GroupOk(requests, g) && g.first == head && g.start == next
    ensures AllGroupsOk(requests, logged + [g]) && InOrder(logged + [g])
  {
    hide GroupOk;
  }

  lemma AppendKeepsInv(s: State)
    requires Inv(s) && Enabled(s, Append)
    ensures Inv(Next(s, Append))
  {
    hide GroupOk, AllGroupsOk, InOrder, Before, AllAnswered, AllRequestsFit, EntriesOf, GroupLength;
    var s' := Next(s, Append);
    var g := s.phase.group;
    SameLeader(s.requests, g);
    GroupsAfterAppend(s.requests, s.logged, g, s.head, s.lastSequence + 1);
    AnswersAfterAppend(s, g);
    assert s'.logged == s.logged + [g] && Marks(s);
    SameParts(s.logged, g, Flushed(s), s.immStart, s.logStart);
  }

  /** A group more at the end leaves the parts of the log alone. */
  lemma SameParts<T>(logged: seq<T>, g: T, flushed: nat, immStart: nat, logStart: nat)
    requires flushed <= |logged| && immStart <= logStart <= |logged|
    ensures (logged + [g])[..|logged|] == logged && (logged + [g])[|logged|] == g
    ensures (logged + [g])[..flushed] == logged[..flushed]
    ensures (logged + [g])[immStart..logStart] == logged[immStart..logStart]
    ensures (logged + [g])[logStart..|logged|] == logged[logStart..|logged|]
  {
  }

  lemma SyncKeepsInv(s: State, e: Event)
    requires Inv(s) && Enabled(s, e) && (e.Sync? || e.SyncFails?)
    ensures Inv(Next(s, e))
  {
    hide GroupOk, AllGroupsOk, InOrder, AllAnswered, AllRequestsFit, EntriesOf, Before;
    var s' := Next(s, e);
    SameLeader(s.requests, s.phase.group);
    AnswersStay(s, s.requests, DiskOf(s'), s'.bgError);
  }

  lemma LastEntries(logged: seq<Group>, from: nat)
    requires from < |logged|
    ensures var last := logged[|logged| - 1];
      EntriesOf(logged[from..|logged|]) == EntriesOf(logged[from..|logged| - 1]) + ToEntries(last.ops, last.start)
  {
    var part := logged[from..|logged|];
    assert part[..|part| - 1] == logged[from..|logged| - 1];
  }

  lemma InsertKeepsInv(s: State)
    requires Inv(s) && Enabled(s, Insert)
    ensures Inv(Next(s, Insert))
  {
    hide GroupOk, AllGroupsOk, InOrder, AllAnswered, AllRequestsFit, Before, ToEntries, EntriesOf;
    var s' := Next(s, Insert);
    SameLeader(s.requests, s.phase.group);
    LastEntries(s.logged, s.logStart);
  }

  lemma FinishKeepsInv(s: State)
    requires Inv(s) && Enabled(s, Finish)
    ensures Inv(Next(s, Finish))
  {
    hide GroupOk, AllGroupsOk, AllAnswered, AllRequestsFit, EntriesOf, Answered;
    var g := s.phase.group;
    SameLeader(s.requests, g);
    BeforeAfterFinish(s);
    forall id | s.head <= id < s.head + g.count ensures Answered(s.requests[id], s.phase.ok, id, s.logged, DiskOf(s), s.bgError) {
      AnswerOfGroup(s, id);
    }
    AnswersGrow(s, g.count, s.phase.ok);
  }

  lemma BeforeAfterFinish(s: State)
    requires PhaseOk(s) && s.phase.Finishing?
    ensures var g := s.phase.group; Before(s.logged, s.head + g.count, s.lastSequence + |g.ops| + 1)
  {
    hide GroupOk;
    var g := s.phase.group;
    var last := |s.logged| - 1;
    forall i | 0 <= i < |s.logged|
      ensures s.logged[i].first + s.logged[i].count <= s.head + g.count && s.logged[i].End() <= s.lastSequence + |g.ops| + 1
    {
      assert LastIs(s.logged, g) && i < last ==> s.logged[..last][i] == s.logged[i];
    }
  }

  /** The answer that every request of a finished group gets. */
  lemma AnswerOfGroup(s: State, id: nat)
    requires Inv(s) && s.phase.Finishing? && Covers(s.phase.group, id)
    ensures id < |s.requests| && Answered(s.requests[id], s.phase.ok, id, s.logged, DiskOf(s), s.bgError)
  {
    hide AllGroupsOk, AllAnswered, AllRequestsFit, Replayed, Concat, AllFitEach;
    var g := s.phase.group;
    var last := |s.logged| - 1;
    if s.phase.ok {
      assert Covers(s.logged[last], id);
    } else {
      assert forall i :: 0 <= i < last ==> s.logged[..last][i] == s.logged[i];
      forall i | 0 <= i < |s.logged| && Covers(s.logged[i], id) ensures s.bgError && i == last {
      }
    }
  }

  /** Steps that change only the phase. */
  lemma QuietKeepsInv(s: State, e: Event)
    requires Inv(s) && Enabled(s, e)
    requires e.Lead? || e.AppendFails? || (e.RoomMade? && s.requests[s.head].batch.Some?)
    ensures Inv(Next(s, e))
  {
    hide GroupOk, AllGroupsOk, InOrder, AllAnswered, AllRequestsFit, EntriesOf, NextGroup;
    if e.RoomMade? {
      NextGroupOk(s);
    }
    if e.AppendFails? {
      SameLeader(s.requests, s.phase.group);
    }
  }

  /** Every step keeps the invariant. */
  lemma StepKeepsInv(s: State, e: Event)
    requires Inv(s) && Enabled(s, e)
    ensures Inv(Next(s, e))
  {
    hide Inv, Next;
    match e
    case Enqueue(r) => EnqueueKeepsInv(s, r);
    case SwitchMemTable => SwitchKeepsInv(s);
    case RoomFails => AloneKeepsInv(s, e);
    case RoomMade =>
      if s.requests[s.head].batch.None? {
        AloneKeepsInv(s, e);
      } else {
        QuietKeepsInv(s, e);
      }
    case Append => AppendKeepsInv(s);
    case Sync => SyncKeepsInv(s, e);
    case SyncFails => SyncKeepsInv(s, e);
    case Insert => InsertKeepsInv(s);
    case Finish => FinishKeepsInv(s);
    case FlushImm => FlushKeepsInv(s);
    case _ => QuietKeepsInv(s, e);
  }

  // ------------------------------------------------------------------------ theorems

  ghost predicate IsRun(run: seq<State>, events: seq<Event>) {
    && |run| == |events| + 1 && run[0] == Init()
    && forall i :: 0 <= i < |events| ==> Enabled(run[i], events[i]) && run[i + 1] == Next(run[i], events[i])
  }

  /** Every state of every run satisfies the invariant. */
  lemma {:induction false} RunKeepsInv(run: seq<State>, events: seq<Event>, i: nat)
    requires IsRun(run, events) && i < |run|
    ensures Inv(run[i])
  {
    hide Inv, Next, Enabled;
    if i == 0 {
      InitInv();
    } else {
      RunKeepsInv(run, events, i - 1);
      StepKeepsInv(run[i - 1], events[i - 1]);
    }
  }

  /** In every run, a write that was answered OK is in exactly one log record, with its batch
      at its place among the batches of the record's requests. */
  lemma AcknowledgedExactlyOnce(run: seq<State>, events: seq<Event>, k: nat, id: nat) returns (i: nat)
    requires IsRun(run, events) && k < |run|
    requires id < run[k].head && id < |run[k].answers| && run[k].answers[id]
    requires id < |run[k].requests| && run[k].requests[id].batch.Some?
    ensures var s := run[k];
      && i < |s.logged| && Covers(s.logged[i], id) && (forall j :: 0 <= j < |s.logged| && Covers(s.logged[j], id) ==> j == i)
      && GroupOk(s.requests, s.logged[i]) && (s.requests[id].sync ==> DiskOf(s).Has(i))
  {
    RunKeepsInv(run, events, k);
    var s := run[k];
    assert Answered(s.requests[id], s.answers[id], id, s.logged, DiskOf(s), s.bgError);
    i :| 0 <= i < |s.logged| && Covers(s.logged[i], id) && (s.requests[id].sync ==> DiskOf(s).Has(i));
    forall j | 0 <= j < |s.logged| && Covers(s.logged[j], id) ensures j == i {
    }
  }

  /** A write that was answered with an error is in no log record, unless its sync failed: then
      it can only be in the very last record, and no later write succeeds. */
  lemma FailedAtMostLast(run: seq<State>, events: seq<Event>, k: nat, id: nat, i: nat)
    requires IsRun(run, events) && k < |run|
    requires id < |run[k].answers| && !run[k].answers[id] && i < |run[k].logged| && Covers(run[k].logged[i], id)
    ensures run[k].bgError && i == |run[k].logged| - 1
  {
    RunKeepsInv(run, events, k);
    var s := run[k];
    assert Answered(s.requests[id], s.answers[id], id, s.logged, DiskOf(s), s.bgError);
  }

  ghost predicate SequencesAscend(es: seq<Entry>) {
    forall p, q :: 0 <= p < q < |es| ==> es[p].key.sequence < es[q].key.sequence
  }

  ghost predicate SequencesWithin(es: seq<Entry>, low: nat, high: nat) {
    forall p :: 0 <= p < |es| ==> low <= es[p].key.sequence < high
  }

  ghost predicate StartsPositive(gs: seq<Group>) { forall i :: 0 <= i < |gs| ==> gs[i].start > 0 }

  /** The entries of the log carry strictly increasing sequence numbers. */
  lemma {:induction false} LoggedSequencesAscend(gs: seq<Group>)
    requires InOrder(gs) && StartsPositive(gs)
    ensures SequencesAscend(EntriesOf(gs))
    ensures gs != [] ==> SequencesWithin(EntriesOf(gs), 1, gs[|gs| - 1].End())
  {
    if gs != [] {
      var front, last := gs[..|gs| - 1], gs[|gs| - 1];
      LoggedSequencesAscend(front);
      var a, b := EntriesOf(front), ToEntries(last.ops, last.start);
      assert SequencesWithin(a, 1, last.start) by {
        if front != [] {
          assert gs[|front| - 1].End() <= last.start;
        } else {
          assert a == [];
        }
      }
      hide SequencesWithin, SequencesAscend;
      GroupSequences(last.ops, last.start);
      JoinSequences(a, b, last.start, last.End());
    }
  }

  lemma GroupSequences(ops: seq<Op>, start: nat)
    requires start > 0
    ensures SequencesAscend(ToEntries(ops, start)) && SequencesWithin(ToEntries(ops, start), start, start + |ops|)
  {
  }

  lemma JoinSequences(a: seq<Entry>, b: seq<Entry>, mid: nat, end: nat)
    requires SequencesAscend(a) && SequencesWithin(a, 1, mid) && SequencesAscend(b) && SequencesWithin(b, mid, end)
    requires 1 <= mid <= end
    ensures SequencesAscend(a + b) && SequencesWithin(a + b, 1, end)
  {
  }

  /** In every run the memtables and tables hold exactly what the logs say, in order, each entry
      with its own sequence number; a record still missing from the memtable is the last one. */
  lemma StoreReplaysLog(run: seq<State>, events: seq<Event>, k: nat)
    requires IsRun(run, events) && k < |run|
    ensures var s := run[k]; var n := if Pending(s) then |s.logged| - 1 else |s.logged|;
      && 0 <= n && s.tables + (if s.imm.Some? then s.imm.value else []) + s.mem == EntriesOf(s.logged[..n])
      && SequencesAscend(EntriesOf(s.logged))
      && (s.logged != [] && (s.phase.NoLeader? || s.phase.MakingRoom?) ==> s.logged[|s.logged| - 1].End() <= s.lastSequence + 1)
  {
    hide GroupOk, AllGroupsOk, InOrder, Before, AllAnswered, AllRequestsFit, EntriesOf, SequencesAscend, StartsPositive;
    RunKeepsInv(run, events, k);
    var s := run[k];
    var n := if Pending(s) then |s.logged| - 1 else |s.logged|;
    Positive(s.requests, s.logged);
    LoggedSequencesAscend(s.logged);
    LastIsCovered(s);
    EntriesOfAppend(s.logged[..s.logStart], s.logged[s.logStart..n]);
    Split(s.logged, s.logStart, n);
    if s.imm.Some? {
      EntriesOfAppend(s.logged[..s.immStart], s.logged[s.immStart..s.logStart]);
      Split(s.logged, s.immStart, s.logStart);
    }
  }

  lemma LastIsCovered(s: State)
    requires PhaseOk(s)
    ensures s.logged != [] && (s.phase.NoLeader? || s.phase.MakingRoom?) ==> s.logged[|s.logged| - 1].End() <= s.lastSequence + 1
  {
  }

  lemma Split(logged: seq<Group>, a: nat, b: nat)
    requires a <= b <= |logged|
    ensures logged[..b] == logged[..a] + logged[a..b]
  {
  }

  lemma Positive(requests: seq<Request>, gs: seq<Group>)
    requires AllGroupsOk(requests, gs)
    ensures StartsPositive(gs)
  {
    forall i | 0 <= i < |gs| ensures gs[i].start > 0 {
      assert GroupOk(requests, gs[i]);
    }
  }

  /** Sequence numbers are used up without a gap. */
  ghost predicate Gapless(s: State) {
    && Contiguous(s.logged)
    && (match s.phase
        case Logged(_) => true
        case Finishing(g, _) => LastIs(s.logged, g)
        case _ => s.lastSequence + 1 == LogEnd(s.logged))
  }

  ghost predicate Contiguous(logged: seq<Group>) {
    && (forall i :: 0 < i < |logged| ==> logged[i].start == logged[i - 1].End())
    && (logged != [] ==> logged[0].start == 1)
  }

  function LogEnd(logged: seq<Group>): nat { if logged == [] then 1 else logged[|logged| - 1].End() }

  lemma OneMoreContiguous(logged: seq<Group>, g: Group)
    requires Contiguous(logged) && g.start == LogEnd(logged)
    ensures Contiguous(logged + [g]) && LastIs(logged + [g], g) && LogEnd(logged + [g]) == g.End()
  {
  }

  /** Only a failed append leaves a gap. */
  lemma {:induction false} OnlyFailedAppendsLeaveGaps(run: seq<State>, events: seq<Event>, k: nat)
    requires IsRun(run, events) && k < |run|
    requires forall i :: 0 <= i < k ==> !events[i].AppendFails?
    ensures Gapless(run[k])
  {
    hide Inv, GroupOk, Concat;
    if k > 0 {
      OnlyFailedAppendsLeaveGaps(run, events, k - 1);
      RunKeepsInv(run, events, k - 1);
      GaplessStep(run[k - 1], events[k - 1]);
    }
  }

  lemma GaplessStep(s: State, e: Event)
    requires Inv(s) && Enabled(s, e) && Gapless(s) && !e.AppendFails?
    ensures Gapless(Next(s, e))
  {
    hide AllGroupsOk, GroupOk, Replayed, AllAnswered, AllRequestsFit, Before, InOrder, Contiguous;
    if e.Append? {
      OneMoreContiguous(s.logged, s.phase.group);
    }
  }

  /** The sequence numbers of a group that failed are used up: groups logged since then are beyond it. */
  ghost predicate UsedUp(s: State, g: Group, logged: nat) {
    && logged <= |s.logged| && (forall i :: logged <= i < |s.logged| ==> g.End() <= s.logged[i].start)
    && (s.lastSequence + 1 >= g.End() || (s.phase == Finishing(g, false) && s.lastSequence + 1 == g.start))
  }

  lemma UsedUpStep(s: State, e: Event, g: Group, logged: nat)
    requires Inv(s) && Enabled(s, e) && UsedUp(s, g, logged)
    ensures UsedUp(Next(s, e), g, logged)
  {
    hide AllGroupsOk, GroupOk, Replayed, AllAnswered, AllRequestsFit, Before, InOrder;
  }

  lemma AppendFailsNow(s: State)
    requires Inv(s) && Enabled(s, AppendFails)
    ensures s.phase.Grouped? && s.phase.group.start == s.lastSequence + 1
    ensures UsedUp(Next(s, AppendFails), s.phase.group, |s.logged|)
  {
    hide AllGroupsOk, GroupOk, Replayed, AllAnswered, AllRequestsFit, Before, InOrder;
  }

  /** And it does leave one: the sequence numbers of a group whose append failed are never used again. */
  lemma {:induction false} FailedAppendLeavesGap(run: seq<State>, events: seq<Event>, t: nat, k: nat)
    requires IsRun(run, events) && t < k < |run| && events[t].AppendFails?
    ensures run[t].phase.Grouped? && run[t].phase.group.start == run[t].lastSequence + 1
    ensures UsedUp(run[k], run[t].phase.group, |run[t].logged|)
  {
    hide Inv, Enabled, Next, UsedUp;
    RunKeepsInv(run, events, t);
    assert Enabled(run[t], events[t]) && run[t + 1] == Next(run[t], events[t]);
    AppendFailsNow(run[t]);
    if k > t + 1 {
      FailedAppendLeavesGap(run, events, t, k - 1);
      RunKeepsInv(run, events, k - 1);
      UsedUpStep(run[k - 1], events[k - 1], run[t].phase.group, |run[t].logged|);
    }
  }

  /** Since the first state no more records, and no more writes that succeed. */
  ghost predicate Closed(s: State, t: State) {
    && t.bgError && t.logged == s.logged && s.answers <= t.answers && forall id :: |s.answers| <= id < |t.answers| ==> !t.answers[id]
  }

  lemma ClosedStep(s: State, t: State, e: Event)
    requires Inv(t) && Closed(s, t) && Enabled(t, e)
    ensures Closed(s, Next(t, e))
  {
    hide AllGroupsOk, GroupOk, Replayed, AllAnswered, AllRequestsFit, Before, InOrder, Marks;
  }

  /** After a failed sync no write succeeds and nothing is logged, whoever asks. */
  lemma {:induction false} NothingAfterFailedSync(run: seq<State>, events: seq<Event>, t: nat, k: nat)
    requires IsRun(run, events) && t <= k < |run| && run[t].bgError
    ensures Closed(run[t], run[k])
  {
    hide Inv, Enabled, Next;
    if t < k {
      hide Closed;
      NothingAfterFailedSync(run, events, t, k - 1);
      RunKeepsInv(run, events, k - 1);
      ClosedStep(run[t], run[k - 1], events[k - 1]);
    }
  }
}
