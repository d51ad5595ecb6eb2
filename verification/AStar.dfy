/** The app's A* search over a directed graph of nodes. */
module AStar {

  datatype Graph<!Node(==)> = Graph(
    nodes: set<Node>,
    connected: map<Node, set<Node>>,
    cost: (Node, Node) -> real,
    estimate: (Node, Node) -> real)
  {
    function ConnectedNodes(n: Node): set<Node> {
      if n in connected then connected[n] else {}
    }

    /** Edges stay inside the finite set of nodes. */
    ghost predicate Closed() {
      forall n :: n in connected ==> connected[n] <= nodes
    }

    ghost predicate IsPath(p: seq<Node>) {
      p != [] && forall i :: 0 < i < |p| ==> p[i] in ConnectedNodes(p[i - 1])
    }

    /** The true cost of walking a path. */
    ghost function PathCost(p: seq<Node>): real {
      if |p| < 2 then 0.0 else PathCost(p[..|p| - 1]) + cost(p[|p| - 2], p[|p| - 1])
    }
  }

  ghost predicate Connects<Node(!new)>(g: Graph<Node>, p: seq<Node>, a: Node, b: Node) {
    g.IsPath(p) && p[0] == a && p[|p| - 1] == b
  }

  ghost predicate Reachable<Node(!new)>(g: Graph<Node>, a: Node, b: Node) {
    exists p :: Connects(g, p, a, b)
  }

  ghost predicate NoRepeats<Node>(p: seq<Node>) {
    forall i, j :: 0 <= i < j < |p| ==> p[i] != p[j]
  }

  lemma OneNodeOnly<Node>(p: seq<Node>)
    requires p != []
    ensures |p| == 1 ==> NoRepeats(p)
    ensures NoRepeats(p) && p[0] == p[|p| - 1] ==> p == [p[0]]
  {
  }

  /** A set closed under edges holds everything reachable from its members. */
  lemma {:induction false} ClosedSetHoldsPaths<Node>(g: Graph<Node>, s: set<Node>, p: seq<Node>)
    requires forall n :: n in s ==> g.ConnectedNodes(n) <= s
    requires g.IsPath(p) && p[0] in s
    ensures p[|p| - 1] in s
    decreases |p|
  {
    if |p| > 1 {
      var q := p[..|p| - 1];
      ClosedSetHoldsPaths(g, s, q);
      assert q[|q| - 1] == p[|p| - 2];
    }
  }

  class Step<Node(==)> {
    const node: Node
    var previous: Step?<Node>
    const stepCost: real
    const goalCost: real
    /** The nodes walked after the start node, up to this one. */
    ghost var trail: seq<Node>

    constructor First(g: Graph<Node>, start: Node, destination: Node, goal: Node)
      ensures node == destination && previous == null && trail == [destination]
      ensures stepCost == g.cost(start, destination) && goalCost == g.estimate(destination, goal)
    {
      node, previous := destination, null;
      stepCost, goalCost := g.cost(start, destination), g.estimate(destination, goal);
      trail := [destination];
    }

    constructor After(g: Graph<Node>, destination: Node, previous: Step<Node>, goal: Node)
      ensures node == destination && this.previous == previous && trail == previous.trail + [destination]
      ensures stepCost == previous.stepCost + g.cost(previous.node, destination)
      ensures goalCost == g.estimate(destination, goal)
    {
      node, this.previous := destination, previous;
      stepCost := previous.stepCost + g.cost(previous.node, destination);
      goalCost := g.estimate(destination, goal);
      trail := previous.trail + [destination];
    }

    function Cost(): real { stepCost + goalCost }
  }

  // ------------------------------------------------------------- the open list

  predicate Ascending<Node>(steps: seq<Step<Node>>) {
    forall i, j :: 0 <= i < j < |steps| ==> steps[i].Cost() <= steps[j].Cost()
  }

  /** The first index whose step costs no less than the element. */
  method BinarySearch<Node>(steps: seq<Step<Node>>, element: Step<Node>) returns (low: nat)
    requires Ascending(steps)
    ensures low <= |steps|
    ensures forall i :: 0 <= i < low ==> steps[i].Cost() < element.Cost()
    ensures forall i :: low <= i < |steps| ==> element.Cost() <= steps[i].Cost()
  {
    low := 0;
    var high: nat := |steps|;
    while low != high
      invariant low <= high <= |steps|
      invariant forall i :: 0 <= i < low ==> steps[i].Cost() < element.Cost()
      invariant forall i :: high <= i < |steps| ==> element.Cost() <= steps[i].Cost()
      decreases high - low
    {
      var mid := low + (high - low) / 2;
      if steps[mid].Cost() < element.Cost() {
        low := mid + 1;
      } else {
        high := mid;
      }
    }
  }

  ghost predicate Inserted<Node>(before: seq<Step<Node>>, after: seq<Step<Node>>, element: Step<Node>) {
    exists i :: 0 <= i <= |before| && after == before[..i] + [element] + before[i..]
  }

  method SortedInsert<Node>(steps: seq<Step<Node>>, element: Step<Node>) returns (r: seq<Step<Node>>)
    requires Ascending(steps)
    ensures Ascending(r) && Waits(r) == Insert(Waits(steps), WaitOf(element))
    ensures Inserted(steps, r, element)
  {
    var index := BinarySearch(steps, element);
    InsertedAt(steps, element, index);
    r := steps[..index] + [element] + steps[index..];
    hide Waits, Insert;
  }

  // ------------------------------------------------------- the open list as values

  /** What the open list records of a step, its predecessor aside. */
  datatype Wait<Node> = Wait(node: Node, stepCost: real, goalCost: real) {
    function Cost(): real { stepCost + goalCost }
  }

  function WaitOf<Node>(s: Step<Node>): Wait<Node> { Wait(s.node, s.stepCost, s.goalCost) }

  function Waits<Node>(steps: seq<Step<Node>>): (r: seq<Wait<Node>>)
    ensures |r| == |steps|
  {
    seq(|steps|, i requires 0 <= i < |steps| => WaitOf(steps[i]))
  }

  lemma RestWaits<Node>(steps: seq<Step<Node>>)
    requires steps != []
    ensures Waits(steps)[0] == WaitOf(steps[0]) && Waits(steps)[1..] == Waits(steps[1..])
  {
  }

  /** Inserting a step where the binary search stops. */
  lemma InsertedAt<Node>(steps: seq<Step<Node>>, element: Step<Node>, index: nat)
    requires index <= |steps| && (forall i :: 0 <= i < index ==> steps[i].Cost() < element.Cost())
    requires forall i :: index <= i < |steps| ==> element.Cost() <= steps[i].Cost()
    ensures Place(Waits(steps), WaitOf(element).Cost()) == index
    ensures Waits(steps[..index] + [element] + steps[index..]) == Insert(Waits(steps), WaitOf(element))
  {
    PlaceIs(Waits(steps), WaitOf(element).Cost(), index);
  }

  lemma IsMet<Node>(steps: seq<Step<Node>>, element: Step<Node>, index: nat)
    requires Place(Waits(steps), WaitOf(element).Cost()) == index
    ensures Met(Waits(steps), WaitOf(element)) <==> index < |steps| && steps[index].node == element.node
  {
  }

  lemma PutIs<Node>(ws: seq<Wait<Node>>, w: Wait<Node>)
    ensures Put(ws, w) == if Met(ws, w) then ws else Insert(ws, w)
  {
  }

  /** Where the binary search stops. */
  function Place<Node>(ws: seq<Wait<Node>>, cost: real): (i: nat)
    ensures i <= |ws|
  {
    if ws == [] || ws[0].Cost() >= cost then 0 else 1 + Place(ws[1..], cost)
  }

  lemma {:induction false} PlaceIs<Node>(ws: seq<Wait<Node>>, cost: real, i: nat)
    requires i <= |ws| && (forall j :: 0 <= j < i ==> ws[j].Cost() < cost) && (forall j :: i <= j < |ws| ==> cost <= ws[j].Cost())
    ensures Place(ws, cost) == i
  {
    if i > 0 {
      PlaceIs(ws[1..], cost, i - 1);
    }
  }

  function Insert<Node>(ws: seq<Wait<Node>>, w: Wait<Node>): seq<Wait<Node>> {
    var i := Place(ws, w.Cost());
    ws[..i] + [w] + ws[i..]
  }

  /** A step to a node that the binary search meets is not put on the list. */
  predicate Met<Node(==)>(ws: seq<Wait<Node>>, w: Wait<Node>) {
    var i := Place(ws, w.Cost());
    i < |ws| && ws[i].node == w.node
  }

  function Put<Node(==)>(ws: seq<Wait<Node>>, w: Wait<Node>): seq<Wait<Node>> { if Met(ws, w) then ws else Insert(ws, w) }

  /** It is met and cheaper: the queued step is redirected, and its recorded cost is now too high. */
  predicate Redirects<Node(==)>(ws: seq<Wait<Node>>, w: Wait<Node>) {
    Met(ws, w) && w.stepCost < ws[Place(ws, w.Cost())].stepCost
  }

  /** A step on from a taken one. */
  function Onward<Node>(g: Graph<Node>, goal: Node, from: Wait<Node>, n: Node): Wait<Node> {
    Wait(n, from.stepCost + g.cost(from.node, n), g.estimate(n, goal))
  }

  function PutAll<Node(==)>(g: Graph<Node>, goal: Node, from: Wait<Node>, ws: seq<Wait<Node>>, order: seq<Node>): seq<Wait<Node>> {
    if order == [] then ws
    else Put(PutAll(g, goal, from, ws, order[..|order| - 1]), Onward(g, goal, from, order[|order| - 1]))
  }

  /** One turn of the search: the open list, the eliminated nodes, and the order in which the neighbours of the
      first step are looked at. */
  datatype Turn<!Node> = Turn(waiting: seq<Wait<Node>>, eliminated: set<Node>, order: seq<Node>)

  /** The first open list holds a step to each neighbour of the start, cheapest first. */
  ghost predicate Starts<Node(!new)>(g: Graph<Node>, start: Node, goal: Node, t: Turn<Node>) {
    && t.eliminated == {start} && NoRepeats(t.waiting)
    && (forall i, j :: 0 <= i < j < |t.waiting| ==> t.waiting[i].Cost() <= t.waiting[j].Cost())
    && (forall w :: w in t.waiting <==> w.node in g.ConnectedNodes(start) && w == Wait(w.node, g.cost(start, w.node), g.estimate(w.node, goal)))
  }

  predicate Ended<Node(==)>(goal: Node, t: Turn<Node>) { t.waiting == [] || t.waiting[0].node == goal }

  /** The next turn. */
  ghost predicate Continues<Node(!new)>(g: Graph<Node>, goal: Node, t: Turn<Node>, t': Turn<Node>) {
    && !Ended(goal, t) && t'.eliminated == t.eliminated + {t.waiting[0].node} && NoRepeats(t.order)
    && (forall n :: n in t.order <==> n in g.ConnectedNodes(t.waiting[0].node) && n !in t'.eliminated)
    && t'.waiting == PutAll(g, goal, t.waiting[0], t.waiting[1..], t.order)
  }

  function Last<T>(s: seq<T>): T
    requires s != []
  {
    s[|s| - 1]
  }

  ghost predicate IsSearch<Node(!new)>(g: Graph<Node>, start: Node, goal: Node, turns: seq<Turn<Node>>) {
    && turns != [] && Starts(g, start, goal, turns[0])
    && forall i :: 0 <= i < |turns| - 1 ==> Continues(g, goal, turns[i], turns[i + 1])
  }

  /** How many queued steps lead to a node that has been eliminated already. */
  ghost function Stale<Node>(steps: seq<Step<Node>>, eliminated: set<Node>): nat {
    if steps == [] then 0
    else (if steps[0].node in eliminated then 1 else 0) + Stale(steps[1..], eliminated)
  }

  lemma {:induction false} StaleInsert<Node>(steps: seq<Step<Node>>, i: nat, element: Step<Node>, eliminated: set<Node>)
    requires i <= |steps| && element.node !in eliminated
    ensures Stale(steps[..i] + [element] + steps[i..], eliminated) == Stale(steps, eliminated)
  {
    var r := steps[..i] + [element] + steps[i..];
    if i == 0 {
      assert r[1..] == steps;
    } else {
      StaleInsert(steps[1..], i - 1, element, eliminated);
      assert r[1..] == steps[1..][..i - 1] + [element] + steps[1..][i - 1..];
    }
  }

  // ------------------------------------------------------------------ the search

  /** A step's trail ends at its node and extends the trail of its predecessor, a step that
      was taken off the open list, so that its path is fixed. */
  ghost predicate Linked<Node>(s: Step<Node>, taken: set<Step<Node>>)
    reads s, taken
  {
    && s.trail != [] && s.trail[|s.trail| - 1] == s.node
    && (s.previous == null ==> s.trail == [s.node])
    && (s.previous != null ==> s.previous in taken && s.trail == s.previous.trail + [s.node])
  }

  /** A trail is a real path from the start whose true cost is at most the recorded one, all
      of it but the last node eliminated, and without repetition unless the start has an edge
      to itself. */
  ghost predicate Walked<Node>(g: Graph<Node>, start: Node, trail: seq<Node>, stepCost: real, eliminated: set<Node>) {
    && g.IsPath([start] + trail)
    && g.PathCost([start] + trail) <= stepCost
    && (forall i :: 0 <= i < |trail| - 1 ==> trail[i] in eliminated)
    && (start !in g.ConnectedNodes(start) ==> NoRepeats([start] + trail))
  }

  /** What holds of every step ever made. */
  ghost predicate Sound<Node>(g: Graph<Node>, start: Node, s: Step<Node>, taken: set<Step<Node>>, eliminated: set<Node>)
    reads s, taken
  {
    Linked(s, taken) && Walked(g, start, s.trail, s.stepCost, eliminated)
  }

  ghost predicate AllSound<Node>(g: Graph<Node>, start: Node, queue: seq<Step<Node>>, taken: set<Step<Node>>, eliminated: set<Node>)
    reads queue, taken
  {
    && NoRepeats(queue)
    && (forall s :: s in taken ==> Sound(g, start, s, taken, eliminated) && s.node in eliminated)
    && (forall s :: s in queue ==> Sound(g, start, s, taken, eliminated) && s !in taken)
    && (forall s :: s in queue ==> s.node in g.nodes)
    && (forall s :: s in taken ==> s.node in g.nodes)
  }

  ghost predicate Queued<Node>(queue: seq<Step<Node>>, n: Node) {
    exists s :: s in queue && s.node == n
  }

  /** Every neighbour of an eliminated node is eliminated or waits on the open list. */
  ghost predicate Frontier<Node>(g: Graph<Node>, queue: seq<Step<Node>>, eliminated: set<Node>, except: Node, pending: set<Node>) {
    forall n, m :: n in eliminated && m in g.ConnectedNodes(n) ==>
      m in eliminated || Queued(queue, m) || (n == except && m in pending)
  }

  /** Walking on from a sound step that was taken to a node not yet eliminated. */
  lemma ExtendTrail<Node>(g: Graph<Node>, start: Node, s: Step<Node>, n: Node, taken: set<Step<Node>>, eliminated: set<Node>)
    requires Sound(g, start, s, taken, eliminated) && s.node in eliminated && start in eliminated
    requires n in g.ConnectedNodes(s.node) && n !in eliminated
    ensures Walked(g, start, s.trail + [n], s.stepCost + g.cost(s.node, n), eliminated)
  {
    var old', t := [start] + s.trail, [start] + (s.trail + [n]);
    assert t == old' + [n] && t[..|t| - 1] == old' && t[|t| - 2] == s.node;
    forall i | 0 <= i < |old'| ensures old'[i] in eliminated {
      if i > 0 {
        assert old'[i] == s.trail[i - 1];
      }
    }
    forall i | 0 < i < |t| ensures t[i] in g.ConnectedNodes(t[i - 1]) {
      if i < |old'| {
        assert old'[i] in g.ConnectedNodes(old'[i - 1]);
      }
    }
  }

  /** A list of first steps to some neighbours of the start, the others pending. */
  ghost predicate Started<Node(!new)>(g: Graph<Node>, start: Node, goal: Node, queue: seq<Step<Node>>, done: set<Node>, pending: set<Node>)
    reads queue
  {
    && NoRepeats(queue) && Ascending(queue) && AllSound(g, start, queue, {}, {start}) && Frontier(g, queue, {start}, start, pending)
    && FirstWaits(g, start, goal, Waits(queue), done)
  }

  /** The open list the search begins with: one step for each node connected to the start. */
  method FirstSteps<Node(!new)>(g: Graph<Node>, start: Node, goal: Node) returns (queue: seq<Step<Node>>)
    requires g.Closed()
    ensures Ascending(queue) && AllSound(g, start, queue, {}, {start})
    ensures Frontier(g, queue, {start}, start, {})
    ensures Starts(g, start, goal, Turn(Waits(queue), {start}, []))
    ensures forall s :: s in queue ==> fresh(s)
  {
    queue := [];
    var pending := g.ConnectedNodes(start);
    ghost var done: set<Node> := {};
    NothingStarted(g, start, goal);
    hide Started, Parts, AllSound, Ascending, Frontier, Starts, Waits;
    while pending != {}
      invariant Started(g, start, goal, queue, done, pending) && Parts(g.ConnectedNodes(start), done, pending)
      invariant forall s :: s in queue ==> fresh(s)
      decreases |pending|
    {
      var node :| node in pending;
      OneDone(g.ConnectedNodes(start), done, pending, node);
      queue := PutFirst(g, start, goal, node, queue, done, pending);
      pending, done := pending - {node}, done + {node};
    }
    AllDone(g.ConnectedNodes(start), done);
    AllStarted(g, start, goal, queue);
  }

  lemma NothingStarted<Node(!new)>(g: Graph<Node>, start: Node, goal: Node)
    ensures Started(g, start, goal, [], {}, g.ConnectedNodes(start)) && Parts(g.ConnectedNodes(start), {}, g.ConnectedNodes(start))
  {
  }

  ghost predicate Parts<T>(all: set<T>, done: set<T>, pending: set<T>) { done !! pending && done + pending == all }

  lemma OneDone<T>(all: set<T>, done: set<T>, pending: set<T>, x: T)
    requires Parts(all, done, pending) && x in pending
    ensures x in all && x !in done && Parts(all, done + {x}, pending - {x}) && |pending - {x}| < |pending|
  {
  }

  lemma AllDone<T>(all: set<T>, done: set<T>)
    requires Parts(all, done, {})
    ensures done == all
  {
  }

  lemma AllStarted<Node(!new)>(g: Graph<Node>, start: Node, goal: Node, queue: seq<Step<Node>>)
    requires Started(g, start, goal, queue, g.ConnectedNodes(start), {})
    ensures Ascending(queue) && AllSound(g, start, queue, {}, {start}) && Frontier(g, queue, {start}, start, {})
    ensures Starts(g, start, goal, Turn(Waits(queue), {start}, []))
  {
    hide AllSound, Frontier, FirstWaits, Starts;
    AllFirst(g, start, goal, queue);
  }

  method PutFirst<Node(!new)>(g: Graph<Node>, start: Node, goal: Node, node: Node, queue: seq<Step<Node>>,
                              ghost done: set<Node>, ghost pending: set<Node>) returns (r: seq<Step<Node>>)
    requires g.Closed() && Started(g, start, goal, queue, done, pending)
    requires node in pending && node !in done && node in g.ConnectedNodes(start)
    ensures Started(g, start, goal, r, done + {node}, pending - {node})
    ensures forall s :: s in r ==> s in queue || fresh(s)
  {
    hide NoRepeats, Sound, Queued, FirstWaits, Insert, AllSound, Ascending, Waits, Frontier, Inserted;
    OneMoreFirst(g, start, goal, Waits(queue), done, node);
    var step := new Step.First(g, start, node, goal);
    FirstIsSound(g, start, step);
    r := SortedInsert(queue, step);
    KeepQueued(queue, r, step);
    KeepSound(g, start, queue, r, step, {}, {start});
    FirstFrontier(g, start, queue, r, pending, node);
  }

  lemma FirstFrontier<Node(!new)>(g: Graph<Node>, start: Node, before: seq<Step<Node>>, after: seq<Step<Node>>,
                                  pending: set<Node>, node: Node)
    requires Frontier(g, before, {start}, start, pending)
    requires forall n :: Queued(after, n) <==> Queued(before, n) || n == node
    ensures Frontier(g, after, {start}, start, pending - {node})
  {
    hide Queued;
  }

  /** The list holds a first step for each of these nodes. */
  ghost predicate FirstWaits<Node(!new)>(g: Graph<Node>, start: Node, goal: Node, ws: seq<Wait<Node>>, nodes: set<Node>) {
    && NoRepeats(ws)
    && forall w :: w in ws <==> w.node in nodes && w == Wait(w.node, g.cost(start, w.node), g.estimate(w.node, goal))
  }

  lemma OneMoreFirst<Node(!new)>(g: Graph<Node>, start: Node, goal: Node, ws: seq<Wait<Node>>, nodes: set<Node>, n: Node)
    requires FirstWaits(g, start, goal, ws, nodes) && n !in nodes
    ensures FirstWaits(g, start, goal, Insert(ws, Wait(n, g.cost(start, n), g.estimate(n, goal))), nodes + {n})
  {
    hide NoRepeats, Insert;
    var w := Wait(n, g.cost(start, n), g.estimate(n, goal));
    InsertMembers(ws, w);
    assert w !in ws;
  }

  lemma InsertMembers<Node>(ws: seq<Wait<Node>>, w: Wait<Node>)
    ensures forall x :: x in Insert(ws, w) <==> x in ws || x == w
    ensures NoRepeats(ws) && w !in ws ==> NoRepeats(Insert(ws, w))
  {
    hide NoRepeats;
    var i := Place(ws, w.Cost());
    assert ws == ws[..i] + ws[i..];
    if NoRepeats(ws) && w !in ws {
      InsertNoRepeats(ws, i, w);
    }
  }

  lemma AllFirst<Node(!new)>(g: Graph<Node>, start: Node, goal: Node, queue: seq<Step<Node>>)
    requires Ascending(queue) && FirstWaits(g, start, goal, Waits(queue), g.ConnectedNodes(start))
    ensures Starts(g, start, goal, Turn(Waits(queue), {start}, []))
  {
    forall i, j | 0 <= i < j < |queue| ensures Waits(queue)[i].Cost() <= Waits(queue)[j].Cost() {
      assert queue[i].Cost() <= queue[j].Cost();
    }
  }

  lemma FirstIsSound<Node(!new)>(g: Graph<Node>, start: Node, step: Step<Node>)
    requires step.node in g.ConnectedNodes(start) && step.previous == null && step.trail == [step.node]
    requires step.stepCost == g.cost(start, step.node)
    ensures Sound(g, start, step, {}, {start})
  {
    assert [start] + step.trail == [start, step.node] && [start, step.node][..1] == [start];
  }

  lemma InsertNoRepeats<T>(before: seq<T>, i: nat, element: T)
    requires i <= |before| && NoRepeats(before) && element !in before
    ensures NoRepeats(before[..i] + [element] + before[i..])
  {
    var after := before[..i] + [element] + before[i..];
    forall a, b | 0 <= a < b < |after| ensures after[a] != after[b] {
      assert a != i ==> after[a] == before[if a < i then a else a - 1];
      assert b != i ==> after[b] == before[if b < i then b else b - 1];
    }
  }

  lemma KeepQueued<Node>(before: seq<Step<Node>>, after: seq<Step<Node>>, element: Step<Node>)
    requires Inserted(before, after, element)
    requires NoRepeats(before) && element !in before
    ensures NoRepeats(after)
    ensures forall s :: s in after <==> s in before || s == element
    ensures forall n :: Queued(after, n) <==> Queued(before, n) || n == element.node
  {
    hide NoRepeats, Queued;
    var i :| 0 <= i <= |before| && after == before[..i] + [element] + before[i..];
    InsertNoRepeats(before, i, element);
    assert before == before[..i] + before[i..];
    SameQueued(before, after, element);
  }

  lemma SameQueued<Node>(before: seq<Step<Node>>, after: seq<Step<Node>>, element: Step<Node>)
    requires forall s :: s in after <==> s in before || s == element
    ensures forall n :: Queued(after, n) <==> Queued(before, n) || n == element.node
  {
    forall n ensures Queued(after, n) <==> Queued(before, n) || n == element.node {
      if Queued(before, n) {
        var s :| s in before && s.node == n;
        assert s in after;
      }
      if n == element.node {
        assert element in after;
      }
    }
  }

  /** One more sound step on the open list. */
  lemma KeepSound<Node>(g: Graph<Node>, start: Node, before: seq<Step<Node>>, after: seq<Step<Node>>, element: Step<Node>,
                        taken: set<Step<Node>>, eliminated: set<Node>)
    requires AllSound(g, start, before, taken, eliminated) && Sound(g, start, element, taken, eliminated)
    requires element !in taken && element.node in g.nodes
    requires NoRepeats(after) && forall s :: s in after <==> s in before || s == element
    ensures AllSound(g, start, after, taken, eliminated)
  {
    hide NoRepeats, Sound;
  }

  /** Taking the first step off the open list eliminates its node and leaves its neighbours
      to be looked at. */
  lemma TakeStep<Node(!new)>(g: Graph<Node>, start: Node, queue: seq<Step<Node>>, taken: set<Step<Node>>, eliminated: set<Node>)
    requires queue != [] && Ascending(queue) && AllSound(g, start, queue, taken, eliminated)
    requires Frontier(g, queue, eliminated, start, {})
    ensures var step := queue[0]; var eliminated' := eliminated + {step.node};
      && Ascending(queue[1..]) && Sound(g, start, step, taken, eliminated) && step.node in g.nodes
      && (forall s :: s in taken ==> Sound(g, start, s, taken, eliminated))
      && AllSound(g, start, queue[1..], taken + {step}, eliminated')
      && Frontier(g, queue[1..], eliminated', step.node, g.ConnectedNodes(step.node) - eliminated')
  {
    var step := queue[0];
    var eliminated' := eliminated + {step.node};
    forall n, m | n in eliminated' && m in g.ConnectedNodes(n) && m !in eliminated' && n != step.node
      ensures Queued(queue[1..], m)
    {
      var s :| s in queue && s.node == m;
      assert s in queue[1..];
    }
    forall s | s in taken + {step} || s in queue ensures Sound(g, start, s, taken + {step}, eliminated') {
      assert s in queue || s in taken;
      SoundGrows(g, start, s, taken, taken + {step}, eliminated, eliminated');
    }
  }

  lemma SoundGrows<Node(!new)>(g: Graph<Node>, start: Node, s: Step<Node>, taken: set<Step<Node>>, taken': set<Step<Node>>,
                               eliminated: set<Node>, eliminated': set<Node>)
    requires Sound(g, start, s, taken, eliminated) && taken <= taken' && eliminated <= eliminated'
    ensures Sound(g, start, s, taken', eliminated')
  {
  }

  /** Puts one neighbour of the step just taken on the open list. A step that the binary
      search meets on the same node is redirected through the step just taken if that is
      cheaper; its place in the list and its recorded cost stay as they are. */
  method Offer<Node(!new)>(g: Graph<Node>, start: Node, goal: Node, step: Step<Node>, node: Node, queue: seq<Step<Node>>,
                           ghost taken: set<Step<Node>>, ghost eliminated: set<Node>) returns (r: seq<Step<Node>>)
    requires g.Closed() && start in eliminated && step in taken
    requires node in g.ConnectedNodes(step.node) && node !in eliminated
    requires Ascending(queue) && AllSound(g, start, queue, taken, eliminated)
    modifies queue
    ensures Ascending(r) && AllSound(g, start, r, taken, eliminated)
    ensures forall s :: s in r ==> s in queue || fresh(s)
    ensures forall n :: Queued(r, n) <==> Queued(queue, n) || n == node
    ensures Stale(r, eliminated) == Stale(queue, eliminated)
    ensures Waits(r) == Put(Waits(queue), Onward(g, goal, WaitOf(step), node))
  {
    hide Stale, Walked, NoRepeats, Queued, Insert, Waits, Place, Met, Put, Onward, Inserted;
    ExtendTrail(g, start, step, node, taken, eliminated);
    var nextStep := new Step.After(g, node, step, goal);
    assert Sound(g, start, nextStep, taken, eliminated);
    var index := BinarySearch(queue, nextStep);
    InsertedAt(queue, nextStep, index);
    IsMet(queue, nextStep, index);
    PutIs(Waits(queue), WaitOf(nextStep));
    IsOnward(g, goal, step, node, nextStep);
    r := queue;
    if index < |r| && r[index].node == nextStep.node {
      if nextStep.stepCost < r[index].stepCost {
        Redirect(g, start, r[index], step, r, taken, eliminated);
      }
      IsQueued(r, r[index]);
    } else {
      r := SortedInsert(r, nextStep);
      KeepQueued(queue, r, nextStep);
      KeepSound(g, start, queue, r, nextStep, taken, eliminated);
      StaleAfterInsert(queue, r, nextStep, eliminated);
    }
  }

  lemma IsOnward<Node>(g: Graph<Node>, goal: Node, step: Step<Node>, node: Node, next: Step<Node>)
    requires next.node == node && next.stepCost == step.stepCost + g.cost(step.node, node) && next.goalCost == g.estimate(node, goal)
    ensures WaitOf(next) == Onward(g, goal, WaitOf(step), node)
  {
  }

  /** Adds the neighbours of the step just taken to the open list. */
  method Expand<Node(!new)>(g: Graph<Node>, start: Node, goal: Node, step: Step<Node>, queue: seq<Step<Node>>,
                            ghost taken: set<Step<Node>>, eliminated: set<Node>)
    returns (r: seq<Step<Node>>, ghost order: seq<Node>)
    requires g.Closed() && start in eliminated
    requires Ascending(queue) && AllSound(g, start, queue, taken, eliminated)
    requires step in taken
    requires Frontier(g, queue, eliminated, step.node, g.ConnectedNodes(step.node) - eliminated)
    modifies queue
    ensures Ascending(r) && AllSound(g, start, r, taken, eliminated)
    ensures Frontier(g, r, eliminated, start, {})
    ensures forall s :: s in r ==> s in queue || fresh(s)
    ensures Stale(r, eliminated) == Stale(queue, eliminated)
    ensures NoRepeats(order) && forall n :: n in order <==> n in g.ConnectedNodes(step.node) && n !in eliminated
    ensures Waits(r) == PutAll(g, goal, WaitOf(step), Waits(queue), order)
  {
    hide Stale, AllSound, Ascending, Put, Onward, Waits;
    r, order := queue, [];
    var pending := g.ConnectedNodes(step.node) - eliminated;
    while pending != {}
      invariant NoRepeats(order) && forall n :: n in order <==> n in g.ConnectedNodes(step.node) && n !in eliminated && n !in pending
      invariant Waits(r) == PutAll(g, goal, WaitOf(step), Waits(queue), order)
      invariant pending <= g.ConnectedNodes(step.node) - eliminated
      invariant Ascending(r) && AllSound(g, start, r, taken, eliminated)
      invariant Frontier(g, r, eliminated, step.node, pending)
      invariant forall s :: s in r ==> s in queue || fresh(s)
      invariant Stale(r, eliminated) == Stale(queue, eliminated)
      decreases |pending|
    {
      var node :| node in pending;
      pending := pending - {node};
      assert forall i :: 0 <= i < |r| ==> r[i] in queue || fresh(r[i]);
      r := Offer(g, start, goal, step, node, r, taken, eliminated);
      assert (order + [node])[..|order|] == order;
      order := order + [node];
    }
  }

  lemma IsQueued<Node>(queue: seq<Step<Node>>, s: Step<Node>)
    requires s in queue
    ensures Queued(queue, s.node)
  {
  }

  lemma StaleAfterInsert<Node>(before: seq<Step<Node>>, after: seq<Step<Node>>, element: Step<Node>, eliminated: set<Node>)
    requires Inserted(before, after, element)
    requires element.node !in eliminated
    ensures Stale(after, eliminated) == Stale(before, eliminated)
  {
    var i :| 0 <= i <= |before| && after == before[..i] + [element] + before[i..];
    StaleInsert(before, i, element, eliminated);
  }

  lemma WalkedForLess<Node>(g: Graph<Node>, start: Node, trail: seq<Node>, less: real, more: real, eliminated: set<Node>)
    requires Walked(g, start, trail, less, eliminated) && less <= more
    ensures Walked(g, start, trail, more, eliminated)
  {
  }

  /** Makes a queued step come from a cheaper predecessor. */
  method Redirect<Node(!new)>(g: Graph<Node>, start: Node, s: Step<Node>, step: Step<Node>, queue: seq<Step<Node>>,
                              ghost taken: set<Step<Node>>, ghost eliminated: set<Node>)
    requires AllSound(g, start, queue, taken, eliminated) && s in queue && step in taken && start in eliminated
    requires s.node in g.ConnectedNodes(step.node) && s.node !in eliminated
    requires step.stepCost + g.cost(step.node, s.node) < s.stepCost
    modifies s
    ensures s.previous == step && AllSound(g, start, queue, taken, eliminated)
  {
    hide Walked;
    ExtendTrail(g, start, step, s.node, taken, eliminated);
    WalkedForLess(g, start, step.trail + [s.node], step.stepCost + g.cost(step.node, s.node), s.stepCost, eliminated);
    s.previous := step;
    s.trail := step.trail + [s.node];
  }

  /** Follows the predecessors of the goal's step back to the start. */
  method Walk<Node(!new)>(g: Graph<Node>, start: Node, step: Step<Node>, ghost taken: set<Step<Node>>, ghost eliminated: set<Node>)
    returns (path: seq<Node>)
    requires Sound(g, start, step, taken, eliminated)
    requires forall s :: s in taken ==> Sound(g, start, s, taken, eliminated)
    ensures path == [start] + step.trail
  {
    hide Walked;
    path := [start];
    var cursor := step;
    path := path[..1] + [step.node] + path[1..];
    assert cursor.trail[|cursor.trail| - 1..] == [cursor.node];
    while cursor.previous != null
      invariant cursor == step || cursor in taken
      invariant cursor.trail <= step.trail
      invariant path == [start] + step.trail[|cursor.trail| - 1..]
      decreases |cursor.trail|
    {
      var last := cursor;
      cursor := cursor.previous;
      OneStepBack(start, step.trail, cursor.trail, last.node);
      path := path[..1] + [cursor.node] + path[1..];
    }
  }

  lemma OneStepBack<Node>(start: Node, trail: seq<Node>, back: seq<Node>, last: Node)
    requires back != [] && back + [last] <= trail
    ensures ([start] + trail[|back|..])[..1] + [back[|back| - 1]] + ([start] + trail[|back|..])[1..] == [start] + trail[|back| - 1..]
  {
  }

  lemma NothingLeft<Node(!new)>(g: Graph<Node>, eliminated: set<Node>, except: Node)
    requires Frontier(g, [], eliminated, except, {})
    ensures forall n :: n in eliminated ==> g.ConnectedNodes(n) <= eliminated
  {
    forall n, m | n in eliminated && m in g.ConnectedNodes(n) ensures m in eliminated {
      assert !Queued([], m);
    }
  }

  /** Searches for a path from start to goal. The start alone is the answer when there is none. The path found
      costs no more than what is recorded in the step that reached the goal. */
  method FindPath<Node(!new)>(g: Graph<Node>, start: Node, goal: Node)
    returns (path: seq<Node>, ghost found: Step?<Node>, ghost turns: seq<Turn<Node>>)
    requires g.Closed()
    ensures turns != [] && IsSearch(g, start, goal, turns) && Ended(goal, Last(turns))
    ensures found == null <==> Last(turns).waiting == []
    ensures found != null ==> WaitOf(found) == Last(turns).waiting[0]
    ensures forall i :: 0 <= i < |path| - 1 ==> path[i] in Last(turns).eliminated
    ensures found == null ==> path == [start]
    ensures found != null ==> found.node == goal && path == [start] + found.trail && g.PathCost(path) <= found.stepCost
    ensures Connects(g, path, start, goal) || path == [start]
    ensures start != goal ==> (path == [start] <==> !Reachable(g, start, goal))
    ensures start !in g.ConnectedNodes(start) ==> NoRepeats(path)
    ensures start !in g.ConnectedNodes(start) && start == goal ==> path == [start]
  {
    hide NoRepeats, Frontier, Queued, AllSound, Sound, Linked, Walked, Reachable, Connects, Ascending, Stale, Starts, Continues, Ended, Waits,
      IsSearch, PutAll;
    var queue: seq<Step<Node>> := FirstSteps(g, start, goal);
    var eliminated := {start};
    ghost var taken: set<Step<Node>> := {};
    turns := [Turn(Waits(queue), eliminated, [])];
    OneTurn(g, start, goal, turns[0]);
    while queue != []
      invariant turns != [] && IsSearch(g, start, goal, turns) && Last(turns).waiting == Waits(queue) && Last(turns).eliminated == eliminated
      invariant Ascending(queue) && AllSound(g, start, queue, taken, eliminated)
      invariant forall s :: s in queue || s in taken ==> fresh(s)
      invariant start in eliminated && eliminated <= g.nodes + {start}
      invariant goal in eliminated ==> goal == start
      invariant Frontier(g, queue, eliminated, start, {})
      decreases |g.nodes + {start} - eliminated|, Stale(queue, eliminated)
    {
      var step := queue[0];
      ghost var queue0, eliminated0 := queue, eliminated;
      TakeStep(g, start, queue, taken, eliminated);
      RestWaits(queue);
      OneLess(g.nodes + {start}, queue, eliminated, eliminated + {step.node});
      queue := queue[1..];
      if step.node == goal {
        path := Walk(g, start, step, taken, eliminated);
        FoundPath(g, start, goal, step, taken, eliminated);
        found := step;
        EndedHere(goal, Last(turns));
        return;
      }
      eliminated := eliminated + {step.node};
      taken := taken + {step};
      forall s | s in queue ensures fresh(s) {
        assert s in queue0;
      }
      assert forall i :: 0 <= i < |queue| ==> queue[i] in queue && fresh(queue[i]);
      ghost var order;
      queue, order := Expand(g, start, goal, step, queue, taken, eliminated);
      turns := NextTurn(g, start, goal, turns, WaitOf(step), order, Waits(queue));
    }
    path, found := [start], null;
    EndedHere(goal, Last(turns));
    NoPath(g, start, goal, eliminated);
  }

  lemma EndedHere<Node(!new)>(goal: Node, t: Turn<Node>)
    ensures t.waiting == [] || t.waiting[0].node == goal ==> Ended(goal, t)
  {
  }

  lemma OneTurn<Node(!new)>(g: Graph<Node>, start: Node, goal: Node, t: Turn<Node>)
    requires Starts(g, start, goal, t)
    ensures IsSearch(g, start, goal, [t])
  {
  }

  /** The turns after one more. */
  ghost function NextTurn<Node(!new)>(g: Graph<Node>, start: Node, goal: Node, turns: seq<Turn<Node>>, taken: Wait<Node>,
                                      order: seq<Node>, waiting: seq<Wait<Node>>): (r: seq<Turn<Node>>)
    requires turns != [] && IsSearch(g, start, goal, turns) && Last(turns).waiting != [] && Last(turns).waiting[0] == taken && taken.node != goal
    requires NoRepeats(order)
    requires forall n :: n in order <==> n in g.ConnectedNodes(taken.node) && n !in Last(turns).eliminated + {taken.node}
    requires waiting == PutAll(g, goal, taken, Last(turns).waiting[1..], order)
    ensures r != [] && IsSearch(g, start, goal, r) && Last(r) == Turn(waiting, Last(turns).eliminated + {taken.node}, [])
  {
    var t := Last(turns).(order := order);
    turns[..|turns| - 1] + [t, Turn(waiting, t.eliminated + {taken.node}, [])]
  }

  /** Taking the first step lowers the number of nodes that are left, or else that of stale steps. */
  lemma OneLess<Node>(nodes: set<Node>, queue: seq<Step<Node>>, eliminated: set<Node>, eliminated': set<Node>)
    requires queue != [] && queue[0].node in nodes && eliminated' == eliminated + {queue[0].node}
    ensures queue[0].node in eliminated ==> eliminated' == eliminated
    ensures queue[0].node in eliminated ==> Stale(queue, eliminated) == 1 + Stale(queue[1..], eliminated)
    ensures queue[0].node !in eliminated ==> |nodes - eliminated'| < |nodes - eliminated|
  {
    if queue[0].node !in eliminated {
      hide Stale;
      FewerLeft(nodes, eliminated, queue[0].node);
    }
  }

  lemma FewerLeft<Node>(nodes: set<Node>, eliminated: set<Node>, n: Node)
    requires n in nodes && n !in eliminated
    ensures |nodes - (eliminated + {n})| < |nodes - eliminated|
  {
    assert nodes - eliminated == (nodes - (eliminated + {n})) + {n};
  }

  lemma FoundPath<Node(!new)>(g: Graph<Node>, start: Node, goal: Node, s: Step<Node>, taken: set<Step<Node>>, eliminated: set<Node>)
    requires Sound(g, start, s, taken, eliminated) && s.node == goal && start in eliminated
    ensures Connects(g, [start] + s.trail, start, goal) && Reachable(g, start, goal)
    ensures g.PathCost([start] + s.trail) <= s.stepCost
    ensures forall i :: 0 <= i < |s.trail| ==> ([start] + s.trail)[i] in eliminated
    ensures start !in g.ConnectedNodes(start) ==> NoRepeats([start] + s.trail) && start != goal
  {
    var path := [start] + s.trail;
    assert Connects(g, path, start, goal);
    OneNodeOnly(path);
  }

  /** When the open list runs empty, the eliminated nodes are all that can be reached. */
  lemma NoPath<Node(!new)>(g: Graph<Node>, start: Node, goal: Node, eliminated: set<Node>)
    requires Frontier(g, [], eliminated, start, {}) && start in eliminated
    requires goal in eliminated ==> goal == start
    ensures start != goal ==> !Reachable(g, start, goal)
    ensures NoRepeats([start])
  {
    if Reachable(g, start, goal) {
      var p :| Connects(g, p, start, goal);
      NothingLeft(g, eliminated, start);
      ClosedSetHoldsPaths(g, eliminated, p);
    }
  }
}
