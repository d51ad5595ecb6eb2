/** The writers themselves: each waits on its own condition variable until it is done or at the front of the
    queue. That only one of them acts at a time, and that no wakeup is lost, follows from this. */
module WriterQueue {
  import opened WriteBatch
  import opened GroupCommit

  /** Where a call of Write stands; a signal is pending until the writer looks again. */
  datatype Pc = Waiting(done: bool, status: bool, signalled: bool) | Leading | Returned(status: bool)

  /** All calls so far, in arrival order, and the queue of those that were not popped. */
  datatype Queue = Queue(pcs: seq<Pc>, writers: seq<nat>)

  const ASLEEP: Pc := Waiting(false, false, false)

  /** The test that a writer makes before it waits, and again whenever it wakes up. */
  function Look(q: Queue, id: nat): Queue
    requires id < |q.pcs|
  {
    var pc := q.pcs[id];
    q.(pcs := q.pcs[id :=
      if pc.Waiting? && pc.done then Returned(pc.status) else if q.writers != [] && q.writers[0] == id then Leading else ASLEEP])
  }

  function PushBack(q: Queue): Queue { Queue(q.pcs + [ASLEEP], q.writers + [|q.pcs|]) }

  /** The loop that pops a group: every member but the leader is marked done and signalled. */
  function Pop(q: Queue, n: nat, leader: nat, status: bool): (r: Queue)
    requires n <= |q.writers| && forall i :: 0 <= i < n ==> q.writers[i] < |q.pcs|
    ensures |r.pcs| == |q.pcs| && r.writers == q.writers[n..]
    decreases n
  {
    if n == 0 then q
    else
      var ready := q.writers[0];
      var pcs := if ready == leader then q.pcs else q.pcs[ready := Waiting(true, status, true)];
      Pop(Queue(pcs, q.writers[1..]), n - 1, leader, status)
  }

  /** The new front of the queue is notified. */
  function Notify(q: Queue): Queue
    requires q.writers != [] ==> q.writers[0] < |q.pcs|
  {
    if q.writers != [] && q.pcs[q.writers[0]].Waiting? then q.(pcs := q.pcs[q.writers[0] := q.pcs[q.writers[0]].(signalled := true)])
    else q
  }

  // ------------------------------------------------------------------------ invariant

  function Head(q: Queue): int { |q.pcs| - |q.writers| }

  /** The queue holds the calls that were not popped, in arrival order. Those before it are answered, and are gone
      or have a signal pending; in the queue only the front leads, and if it does not then its signal is pending. */
  ghost predicate QueueOk(q: Queue) {
    && Head(q) >= 0 && (forall i :: 0 <= i < |q.writers| ==> q.writers[i] == Head(q) + i)
    && (forall id :: 0 <= id < Head(q) ==> q.pcs[id].Returned? || (q.pcs[id].Waiting? && q.pcs[id].done && q.pcs[id].signalled))
    && (forall id :: Head(q) <= id < |q.pcs| ==> (q.pcs[id].Waiting? && !q.pcs[id].done) || (q.pcs[id].Leading? && id == Head(q)))
    && (q.writers != [] ==> q.pcs[Head(q)].Leading? || q.pcs[Head(q)].signalled)
  }

  ghost predicate SomeoneLeads(q: Queue) { exists id :: 0 <= id < |q.pcs| && q.pcs[id].Leading? }

  function StatusOf(pc: Pc): bool { if pc.Leading? then false else pc.status }

  /** The queue as the group commit protocol sees it. */
  ghost predicate Shows(q: Queue, s: State) {
    && Head(q) == s.head == |s.answers| && |q.pcs| == |s.requests|
    && (forall id :: 0 <= id < s.head && id < |q.pcs| ==> StatusOf(q.pcs[id]) == s.answers[id])
    && (s.phase.NoLeader? <==> !SomeoneLeads(q))
  }

  lemma FrontLeads(q: Queue, id: nat)
    requires QueueOk(q) && id < |q.pcs| && q.pcs[id].Leading?
    ensures q.writers != [] && q.writers[0] == id == Head(q) && SomeoneLeads(q)
    ensures forall other :: 0 <= other < |q.pcs| && q.pcs[other].Leading? ==> other == id
  {
  }

  /** A call that is answered, or could lead, and does not know yet. */
  ghost predicate MustWake(q: Queue, id: nat) {
    id < |q.pcs| && q.pcs[id].Waiting? && (q.pcs[id].done || (id == Head(q) && !SomeoneLeads(q)))
  }

  lemma IsSignalled(q: Queue, id: nat)
    requires QueueOk(q) && MustWake(q, id)
    ensures q.pcs[id].signalled
    ensures Look(q, id).pcs[id] == if q.pcs[id].done then Returned(q.pcs[id].status) else Leading
  {
  }

  // ---------------------------------------------------------------------------- steps

  /** A call arrives, a waiting writer looks again, a leader works or hands its group back; tables are flushed
      meanwhile. */
  datatype Step = Arrive(request: Request) | Wake(id: nat) | Work(id: nat, work: Event) | Leave(id: nat, end: Event) | Flush

  predicate IsWork(s: State, e: Event) {
    match e
    case SwitchMemTable => true
    case RoomMade => s.head < |s.requests| && s.requests[s.head].batch.Some?
    case Append => true
    case AppendFails => true
    case Sync => true
    case SyncFails => true
    case Insert => true
    case _ => false
  }

  /** How many requests an event answers, and how. */
  predicate IsEnd(s: State, e: Event) {
    e.Finish? || e.RoomFails? || (e.RoomMade? && s.head < |s.requests| && s.requests[s.head].batch.None?)
  }

  function Reply(s: State, e: Event): (nat, bool) {
    if e.Finish? && s.phase.Finishing? then (s.phase.group.count, s.phase.ok) else (1, e.RoomMade?)
  }

  /** What each writer checks before it acts: nothing about the other writers. */
  predicate May(q: Queue, s: State, step: Step) {
    match step
    case Arrive(r) => r.batch.Some? ==> AllFit(r.batch.value)
    case Wake(id) => id < |q.pcs| && q.pcs[id].Waiting?
    case Work(id, e) => id < |q.pcs| && q.pcs[id].Leading? && IsWork(s, e) && Enabled(s, e)
    case Leave(id, e) => id < |q.pcs| && q.pcs[id].Leading? && IsEnd(s, e) && Enabled(s, e)
    case Flush => Enabled(s, FlushImm)
  }

  /** The steps of the group commit protocol that a step amounts to. */
  function Events(q: Queue, step: Step): seq<Event> {
    match step
    case Arrive(r) => if q.writers == [] then [Enqueue(r), Lead] else [Enqueue(r)]
    case Wake(id) => if id < |q.pcs| && q.pcs[id].Waiting? && !q.pcs[id].done && q.writers != [] && q.writers[0] == id then [Lead] else []
    case Work(_, e) => [e]
    case Leave(_, e) => [e]
    case Flush => [FlushImm]
  }

  ghost predicate AllEnabled(s: State, events: seq<Event>)
    decreases |events|
  {
    events == [] || (Enabled(s, events[0]) && AllEnabled(Next(s, events[0]), events[1..]))
  }

  function After(s: State, events: seq<Event>): State
    requires AllEnabled(s, events)
    decreases |events|
  {
    if events == [] then s else After(Next(s, events[0]), events[1..])
  }

  /** The queue after its leader left with this many members. */
  function LeaveQueue(q: Queue, n: nat, id: nat, status: bool): Queue
    requires QueueOk(q) && n <= |q.writers| && id < |q.pcs|
  {
    var popped := Notify(Pop(q, n, id, status));
    popped.(pcs := popped.pcs[id := Returned(status)])
  }

  function NextQueue(q: Queue, s: State, step: Step): Queue
    requires QueueOk(q) && May(q, s, step) && (step.Leave? ==> Reply(s, step.end).0 <= |q.writers|)
  {
    match step
    case Arrive(_) => Look(PushBack(q), |q.pcs|)
    case Wake(id) => Look(q, id)
    case Leave(id, e) =>
      var (n, status) := Reply(s, e);
      LeaveQueue(q, n, id, status)
    case _ => q
  }

  // --------------------------------------------------------------------------- proofs

  ghost predicate InOrder(writers: seq<nat>, from: nat) { forall i :: 0 <= i < |writers| ==> writers[i] == from + i }

  /** Popping n calls marks all of them but the leader. */
  lemma {:induction false} PopMarks(q: Queue, n: nat, leader: nat, status: bool, from: nat)
    requires n <= |q.writers| && InOrder(q.writers, from) && from + |q.writers| == |q.pcs|
    ensures forall id :: 0 <= id < |q.pcs| ==>
      Pop(q, n, leader, status).pcs[id] == if from <= id < from + n && id != leader then Waiting(true, status, true) else q.pcs[id]
    decreases n
  {
    if n > 0 {
      assert InOrder(q.writers[1..], from + 1) by {
        forall i | 0 <= i < |q.writers[1..]| ensures q.writers[1..][i] == from + 1 + i {
          assert q.writers[1..][i] == q.writers[i + 1];
        }
      }
      var pcs := if from == leader then q.pcs else q.pcs[from := Waiting(true, status, true)];
      PopMarks(Queue(pcs, q.writers[1..]), n - 1, leader, status, from + 1);
    }
  }

  /** Every call after the leader handed back its group. */
  function PcAfter(q: Queue, n: nat, leader: nat, status: bool, id: nat): Pc
    requires id < |q.pcs|
  {
    if id == leader then Returned(status)
    else if Head(q) <= id < Head(q) + n then Waiting(true, status, true)
    else if id == Head(q) + n && q.pcs[id].Waiting? then q.pcs[id].(signalled := true)
    else q.pcs[id]
  }

  lemma LeaveEffect(q: Queue, s: State, id: nat, e: Event)
    requires QueueOk(q) && May(q, s, Leave(id, e)) && 1 <= Reply(s, e).0 <= |q.writers|
    ensures var (n, status) := Reply(s, e); var q' := NextQueue(q, s, Leave(id, e));
      && q'.writers == q.writers[n..] && |q'.pcs| == |q.pcs| && id == Head(q)
      && (forall i :: 0 <= i < |q.pcs| ==> q'.pcs[i] == PcAfter(q, n, id, status, i))
  {
    hide *;
    var (n, status) := Reply(s, e);
    MayLeave(q, s, id, e);
    FrontLeads(q, id);
    LeaveIs(q, s, id, e, n, status);
    LeaveOf(q, n, id, status);
  }

  lemma MayLeave(q: Queue, s: State, id: nat, e: Event)
    requires May(q, s, Leave(id, e))
    ensures id < |q.pcs| && q.pcs[id].Leading?
  {
    hide Enabled, IsEnd;
  }

  lemma LeaveIs(q: Queue, s: State, id: nat, e: Event, n: nat, status: bool)
    requires QueueOk(q) && May(q, s, Leave(id, e)) && Reply(s, e) == (n, status) && n <= |q.writers| && id < |q.pcs|
    ensures NextQueue(q, s, Leave(id, e)) == LeaveQueue(q, n, id, status)
  {
    hide Enabled, IsEnd, Reply, QueueOk, LeaveQueue;
  }

  lemma LeaveOf(q: Queue, n: nat, id: nat, status: bool)
    requires QueueOk(q) && 1 <= n <= |q.writers| && id == Head(q) < |q.pcs|
    ensures var q' := LeaveQueue(q, n, id, status);
      && q'.writers == q.writers[n..] && |q'.pcs| == |q.pcs|
      && (forall i :: 0 <= i < |q.pcs| ==> q'.pcs[i] == PcAfter(q, n, id, status, i))
  {
    QueueInOrder(q);
    PopMarks(q, n, id, status, Head(q));
    NextFront(q, n);
    hide Pop, Notify, QueueOk, PcAfter;
    LeaderReturns(q, Pop(q, n, id, status), n, id, status);
  }

  lemma QueueInOrder(q: Queue)
    requires QueueOk(q)
    ensures InOrder(q.writers, Head(q)) && Head(q) + |q.writers| == |q.pcs|
  {
  }

  lemma NextFront(q: Queue, n: nat)
    requires QueueOk(q) && n <= |q.writers|
    ensures q.writers[n..] != [] ==> q.writers[n..][0] == Head(q) + n < |q.pcs|
    ensures q.writers[n..] == [] ==> Head(q) + n == |q.pcs|
  {
  }

  lemma LeaderReturns(q: Queue, p: Queue, n: nat, id: nat, status: bool)
    requires p.writers != [] ==> p.writers[0] == id + n < |p.pcs|
    requires p.writers == [] ==> id + n == |p.pcs|
    requires id == Head(q) && n > 0 && id < |p.pcs| == |q.pcs|
    requires forall i :: 0 <= i < |q.pcs| ==>
      p.pcs[i] == if id <= i < id + n && i != id then Waiting(true, status, true) else q.pcs[i]
    ensures |Notify(p).pcs| == |q.pcs| && Notify(p).writers == p.writers
    ensures forall i :: 0 <= i < |q.pcs| ==> Notify(p).pcs[id := Returned(status)][i] == PcAfter(q, n, id, status, i)
  {
  }

  /** The leader hands its group back: the members are answered alike, and the next call may lead. */
  lemma LeaveKeeps(q: Queue, s: State, id: nat, e: Event)
    requires QueueOk(q) && May(q, s, Leave(id, e)) && 1 <= Reply(s, e).0 <= |q.writers|
    ensures var (n, status) := Reply(s, e); var q' := NextQueue(q, s, Leave(id, e));
      && QueueOk(q') && !SomeoneLeads(q') && Head(q') == Head(q) + n && |q'.pcs| == |q.pcs|
      && (forall i :: 0 <= i < Head(q') ==> StatusOf(q'.pcs[i]) == if i < Head(q) then StatusOf(q.pcs[i]) else status)
  {
    LeaveEffect(q, s, id, e);
    hide Enabled, IsEnd, Reply, NextQueue, QueueOk;
    var (n, status) := Reply(s, e);
    QueueAfter(q, n, id, status, NextQueue(q, s, Leave(id, e)));
  }

  lemma QueueAfter(q: Queue, n: nat, id: nat, status: bool, q': Queue)
    requires QueueOk(q) && 1 <= n <= |q.writers| && id == Head(q) && q.pcs[id].Leading?
    requires q'.writers == q.writers[n..] && |q'.pcs| == |q.pcs|
    requires forall i :: 0 <= i < |q.pcs| ==> q'.pcs[i] == PcAfter(q, n, id, status, i)
    ensures QueueOk(q') && !SomeoneLeads(q') && Head(q') == Head(q) + n
    ensures forall i :: 0 <= i < Head(q') ==> StatusOf(q'.pcs[i]) == if i < Head(q) then StatusOf(q.pcs[i]) else status
  {
    forall i | 0 <= i < |q'.writers| ensures q'.writers[i] == Head(q') + i {
      assert q'.writers[i] == q.writers[n + i];
    }
    hide Head;
    forall i | 0 <= i < |q.pcs| ensures q'.pcs[i] == PcAfter(q, n, id, status, i) && !q'.pcs[i].Leading? {
    }
  }

  lemma ArriveKeeps(q: Queue)
    requires QueueOk(q)
    ensures var q' := Look(PushBack(q), |q.pcs|);
      && QueueOk(q') && Head(q') == Head(q) && |q'.pcs| == |q.pcs| + 1
      && (forall i :: 0 <= i < Head(q') ==> q'.pcs[i] == q.pcs[i])
      && (SomeoneLeads(q') <==> SomeoneLeads(q) || q.writers == [])
  {
    var q' := Look(PushBack(q), |q.pcs|);
    if SomeoneLeads(q) {
      var id :| 0 <= id < |q.pcs| && q.pcs[id].Leading?;
      assert q'.pcs[id].Leading?;
    }
    if q.writers == [] {
      assert q'.pcs[|q.pcs|].Leading?;
    }
  }

  lemma WakeKeeps(q: Queue, id: nat)
    requires QueueOk(q) && id < |q.pcs| && q.pcs[id].Waiting?
    ensures var q' := Look(q, id); var leads := !q.pcs[id].done && q.writers != [] && q.writers[0] == id;
      && QueueOk(q') && Head(q') == Head(q) && |q'.pcs| == |q.pcs| && (leads ==> !SomeoneLeads(q))
      && (forall i :: 0 <= i < Head(q') ==> StatusOf(q'.pcs[i]) == StatusOf(q.pcs[i]))
      && (SomeoneLeads(q') <==> SomeoneLeads(q) || leads)
  {
    var q' := Look(q, id);
    if other :| 0 <= other < |q.pcs| && q.pcs[other].Leading? {
      assert q'.pcs[other].Leading?;
    }
    if !q.pcs[id].done && q.writers != [] && q.writers[0] == id {
      assert q'.pcs[id].Leading?;
    }
  }

  /** What a leader hands back is in the queue. */
  lemma GroupIsQueued(q: Queue, s: State, e: Event)
    requires QueueOk(q) && Shows(q, s) && Inv(s) && IsEnd(s, e) && Enabled(s, e)
    ensures 1 <= Reply(s, e).0 <= |q.writers| && Next(s, e).head == s.head + Reply(s, e).0 && Next(s, e).phase.NoLeader?
    ensures Next(s, e).answers == s.answers + seq(Reply(s, e).0, _ => Reply(s, e).1) && Next(s, e).requests == s.requests
  {
    hide AllGroupsOk, GroupCommit.InOrder, AllAnswered, Replayed, Marks, AllRequestsFit, GroupCommit.Before, QueueOk;
    if e.Finish? {
      SameLeader(s.requests, s.phase.group);
    }
  }

  /** Work changes neither the queue nor who leads. */
  lemma WorkIsQuiet(s: State, e: Event)
    requires Enabled(s, e) && (e.FlushImm? || IsWork(s, e))
    ensures var s' := Next(s, e); s'.head == s.head && s'.answers == s.answers && s'.requests == s.requests
    ensures Next(s, e).phase.NoLeader? <==> s.phase.NoLeader?
  {
  }

  lemma OneEvent(s: State, e: Event)
    requires Enabled(s, e)
    ensures AllEnabled(s, [e]) && After(s, [e]) == Next(s, e)
  {
    hide Enabled, Next;
    assert [e][1..] == [];
  }

  lemma TwoEvents(s: State, e: Event, f: Event)
    requires Enabled(s, e) && Enabled(Next(s, e), f)
    ensures AllEnabled(s, [e, f]) && After(s, [e, f]) == Next(Next(s, e), f)
  {
    hide Enabled, Next;
    assert [e, f][1..] == [f];
    OneEvent(Next(s, e), f);
  }

  /** When nobody leads and the queue is not empty, leading is allowed. */
  lemma MayLead(s: State)
    requires Inv(s) && s.phase.NoLeader? && s.head < |s.requests|
    ensures Enabled(s, Lead) && Inv(Next(s, Lead)) && Next(s, Lead) == s.(phase := MakingRoom)
  {
    hide Inv;
    StepKeepsInv(s, Lead);
  }

  lemma MayEnqueue(s: State, r: Request)
    requires Inv(s) && (r.batch.Some? ==> AllFit(r.batch.value))
    ensures Enabled(s, Enqueue(r)) && Inv(Next(s, Enqueue(r))) && Next(s, Enqueue(r)) == s.(requests := s.requests + [r])
  {
    hide Inv;
    StepKeepsInv(s, Enqueue(r));
  }

  lemma ArriveFollows(q: Queue, s: State, r: Request)
    requires QueueOk(q) && Shows(q, s) && Inv(s) && May(q, s, Arrive(r))
    ensures AllEnabled(s, Events(q, Arrive(r))) && Inv(After(s, Events(q, Arrive(r))))
    ensures QueueOk(NextQueue(q, s, Arrive(r))) && Shows(NextQueue(q, s, Arrive(r)), After(s, Events(q, Arrive(r))))
  {
    hide Inv, QueueOk, Look;
    ArriveKeeps(q);
    MayEnqueue(s, r);
    var s1 := Next(s, Enqueue(r));
    if q.writers == [] {
      NobodyLeads(q);
      MayLead(s1);
      TwoEvents(s, Enqueue(r), Lead);
    } else {
      OneEvent(s, Enqueue(r));
    }
  }

  lemma NobodyLeads(q: Queue)
    requires QueueOk(q) && q.writers == []
    ensures !SomeoneLeads(q)
  {
  }

  lemma WakeFollows(q: Queue, s: State, id: nat)
    requires QueueOk(q) && Shows(q, s) && Inv(s) && May(q, s, Wake(id))
    ensures AllEnabled(s, Events(q, Wake(id))) && Inv(After(s, Events(q, Wake(id))))
    ensures QueueOk(NextQueue(q, s, Wake(id))) && Shows(NextQueue(q, s, Wake(id)), After(s, Events(q, Wake(id))))
  {
    hide Inv, QueueOk, Look;
    WakeKeeps(q, id);
    if !q.pcs[id].done && q.writers != [] && q.writers[0] == id {
      MayLead(s);
      OneEvent(s, Lead);
    }
  }

  lemma WorkFollows(q: Queue, s: State, step: Step, e: Event)
    requires QueueOk(q) && Shows(q, s) && Inv(s) && May(q, s, step)
    requires (step.Work? && step.work == e) || (step.Flush? && e == FlushImm)
    ensures AllEnabled(s, Events(q, step)) && Inv(After(s, Events(q, step)))
    ensures QueueOk(NextQueue(q, s, step)) && Shows(NextQueue(q, s, step), After(s, Events(q, step)))
  {
    hide Inv, QueueOk, Enabled, Next;
    OneEvent(s, e);
    StepKeepsInv(s, e);
    WorkIsQuiet(s, e);
  }

  lemma LeaveFollows(q: Queue, s: State, id: nat, e: Event)
    requires QueueOk(q) && Shows(q, s) && Inv(s) && May(q, s, Leave(id, e))
    ensures Reply(s, e).0 <= |q.writers| && AllEnabled(s, Events(q, Leave(id, e))) && Inv(After(s, Events(q, Leave(id, e))))
    ensures QueueOk(NextQueue(q, s, Leave(id, e))) && Shows(NextQueue(q, s, Leave(id, e)), After(s, Events(q, Leave(id, e))))
  {
    hide Inv, QueueOk, Enabled, Next, NextQueue, IsEnd, Reply;
    GroupIsQueued(q, s, e);
    OneEvent(s, e);
    StepKeepsInv(s, e);
    LeaveKeeps(q, s, id, e);
  }

  /** Whatever the writers do, each checking only its own done flag and whether it is at the front, amounts to
      steps that the group commit protocol allows. */
  lemma StepFollows(q: Queue, s: State, step: Step)
    requires QueueOk(q) && Shows(q, s) && Inv(s) && May(q, s, step)
    ensures step.Leave? ==> Reply(s, step.end).0 <= |q.writers|
    ensures AllEnabled(s, Events(q, step)) && Inv(After(s, Events(q, step)))
    ensures QueueOk(NextQueue(q, s, step)) && Shows(NextQueue(q, s, step), After(s, Events(q, step)))
  {
    hide Inv, Next, Enabled, QueueOk, Shows;
    match step
    case Arrive(r) => ArriveFollows(q, s, r);
    case Wake(id) => WakeFollows(q, s, id);
    case Work(id, e) => WorkFollows(q, s, step, e);
    case Leave(id, e) => LeaveFollows(q, s, id, e);
    case Flush => WorkFollows(q, s, step, FlushImm);
  }

  ghost predicate Defined(q: Queue, s: State, step: Step) {
    QueueOk(q) && May(q, s, step) && (step.Leave? ==> Reply(s, step.end).0 <= |q.writers|)
  }

  /** A run of the writers, together with the states of the protocol that it goes through. */
  ghost predicate IsQueueRun(qs: seq<Queue>, ss: seq<State>, steps: seq<Step>) {
    && |qs| == |ss| == |steps| + 1 && qs[0] == Queue([], []) && ss[0] == Init()
    && forall i :: 0 <= i < |steps| ==>
      && May(qs[i], ss[i], steps[i])
      && (Defined(qs[i], ss[i], steps[i]) ==> qs[i + 1] == NextQueue(qs[i], ss[i], steps[i]))
      && (AllEnabled(ss[i], Events(qs[i], steps[i])) ==> ss[i + 1] == After(ss[i], Events(qs[i], steps[i])))
  }

  /** In every run of any number of writers the protocol's steps are enabled, so all it promises holds; only the
      front of the queue leads, and no wakeup is lost. */
  lemma {:induction false} QueueRun(qs: seq<Queue>, ss: seq<State>, steps: seq<Step>, i: nat)
    requires IsQueueRun(qs, ss, steps) && i < |qs|
    ensures QueueOk(qs[i]) && Shows(qs[i], ss[i]) && Inv(ss[i])
    ensures i < |steps| ==> Defined(qs[i], ss[i], steps[i]) && AllEnabled(ss[i], Events(qs[i], steps[i]))
  {
    hide Inv, QueueOk, Shows, May, NextQueue, Events;
    if i == 0 {
      StartsEmpty();
    } else {
      QueueRun(qs, ss, steps, i - 1);
      StepFollows(qs[i - 1], ss[i - 1], steps[i - 1]);
    }
    if i < |steps| {
      StepFollows(qs[i], ss[i], steps[i]);
    }
  }

  lemma StartsEmpty()
    ensures QueueOk(Queue([], [])) && Shows(Queue([], []), Init()) && Inv(Init())
  {
    InitInv();
  }

  /** In every run only the front of the queue leads. */
  lemma OnlyFrontLeads(qs: seq<Queue>, ss: seq<State>, steps: seq<Step>, i: nat, id: nat)
    requires IsQueueRun(qs, ss, steps) && i < |qs| && id < |qs[i].pcs| && qs[i].pcs[id].Leading?
    ensures qs[i].writers != [] && qs[i].writers[0] == id == Head(qs[i]) && !ss[i].phase.NoLeader?
    ensures forall other :: 0 <= other < |qs[i].pcs| && qs[i].pcs[other].Leading? ==> other == id
  {
    hide IsQueueRun, QueueOk, Inv;
    QueueRun(qs, ss, steps, i);
    FrontLeads(qs[i], id);
  }

  /** Only its own look changes a call that must wake up. */
  lemma OthersLeaveIt(q: Queue, s: State, step: Step, id: nat)
    requires Defined(q, s, step) && Shows(q, s) && Inv(s) && MustWake(q, id) && step != Wake(id)
    ensures MustWake(NextQueue(q, s, step), id) && NextQueue(q, s, step).pcs[id] == q.pcs[id]
  {
    hide Inv, Enabled, IsEnd, Reply;
    match step {
      case Arrive(r) => ArriveKeeps(q);
      case Wake(other) => WakeKeeps(q, other);
      case Leave(leader, e) =>
        FrontLeads(q, leader);
        GroupIsQueued(q, s, e);
        LeaveEffect(q, s, leader, e);
        LeaveKeeps(q, s, leader, e);
      case _ =>
    }
  }

  /** No wakeup is lost: in every run a call that is answered, or is at the front when nobody leads, has a signal
      pending, and whatever the others do keeps it until the call looks again, to return its answer or to lead. */
  lemma {:induction false} NoLostWakeup(qs: seq<Queue>, ss: seq<State>, steps: seq<Step>, i: nat, j: nat, id: nat)
    requires IsQueueRun(qs, ss, steps) && i <= j < |qs| && MustWake(qs[i], id)
    requires forall k :: i <= k < j ==> steps[k] != Wake(id)
    ensures MustWake(qs[j], id) && qs[j].pcs[id] == qs[i].pcs[id] && qs[j].pcs[id].signalled
    ensures Look(qs[j], id).pcs[id] == if qs[j].pcs[id].done then Returned(qs[j].pcs[id].status) else Leading
    decreases j
  {
    hide Inv, QueueOk, Shows, May, NextQueue, Events, MustWake, Look;
    QueueRun(qs, ss, steps, j);
    if i < j {
      QueueRun(qs, ss, steps, j - 1);
      NoLostWakeup(qs, ss, steps, i, j - 1, id);
      OthersLeaveIt(qs[j - 1], ss[j - 1], steps[j - 1], id);
    }
    IsSignalled(qs[j], id);
  }
}
