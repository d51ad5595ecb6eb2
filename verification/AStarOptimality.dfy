/** When the path that the search finds is the cheapest one, and a graph on which it is not. */
module AStarOptimality {
  import opened AStar

  /** The estimate never drops by more than an edge costs. */
  ghost predicate Consistent<Node(!new)>(g: Graph<Node>, goal: Node) {
    forall a, b :: b in g.ConnectedNodes(a) ==> g.estimate(a, goal) <= g.cost(a, b) + g.estimate(b, goal)
  }

  /** No neighbour that the turn looks at redirects a queued step. */
  ghost predicate Clean<Node>(g: Graph<Node>, goal: Node, t: Turn<Node>)
    requires t.waiting != []
  {
    forall k :: 0 <= k < |t.order| ==>
      !Redirects(PutAll(g, goal, t.waiting[0], t.waiting[1..], t.order[..k]), Onward(g, goal, t.waiting[0], t.order[k]))
  }

  ghost predicate NeverRedirects<Node(!new)>(g: Graph<Node>, start: Node, goal: Node, turns: seq<Turn<Node>>)
    requires IsSearch(g, start, goal, turns)
  {
    forall i :: 0 <= i < |turns| - 1 ==> !Ended(goal, turns[i]) && Clean(g, goal, turns[i])
  }

  // ------------------------------------------------------------------------- the list

  ghost predicate Fair<Node(!new)>(g: Graph<Node>, goal: Node, ws: seq<Wait<Node>>) {
    && (forall i, j :: 0 <= i < j < |ws| ==> ws[i].Cost() <= ws[j].Cost())
    && (forall i :: 0 <= i < |ws| ==> ws[i].goalCost == g.estimate(ws[i].node, goal))
  }

  lemma {:induction false} PlaceSplits<Node>(ws: seq<Wait<Node>>, cost: real)
    requires forall i, j :: 0 <= i < j < |ws| ==> ws[i].Cost() <= ws[j].Cost()
    ensures forall j :: 0 <= j < Place(ws, cost) ==> ws[j].Cost() < cost
    ensures forall j :: Place(ws, cost) <= j < |ws| ==> cost <= ws[j].Cost()
  {
    if ws != [] && ws[0].Cost() < cost {
      PlaceSplits(ws[1..], cost);
    }
  }

  lemma InsertIsFair<Node(!new)>(g: Graph<Node>, goal: Node, ws: seq<Wait<Node>>, w: Wait<Node>)
    requires Fair(g, goal, ws) && w.goalCost == g.estimate(w.node, goal)
    ensures Fair(g, goal, Insert(ws, w))
  {
    PlaceSplits(ws, w.Cost());
    var i := Place(ws, w.Cost());
    FairAt(g, goal, ws, w, i);
  }

  lemma FairAt<Node(!new)>(g: Graph<Node>, goal: Node, ws: seq<Wait<Node>>, w: Wait<Node>, i: nat)
    requires Fair(g, goal, ws) && w.goalCost == g.estimate(w.node, goal) && i <= |ws|
    requires (forall j :: 0 <= j < i ==> ws[j].Cost() < w.Cost()) && forall j :: i <= j < |ws| ==> w.Cost() <= ws[j].Cost()
    ensures Fair(g, goal, ws[..i] + [w] + ws[i..])
  {
    var r := ws[..i] + [w] + ws[i..];
    forall a, b | 0 <= a < b < |r| ensures r[a].Cost() <= r[b].Cost() {
      assert r[a] == if a < i then ws[a] else if a == i then w else ws[a - 1];
      assert r[b] == if b < i then ws[b] else if b == i then w else ws[b - 1];
    }
  }

  /** A step to the node that costs at most this is on the list. */
  ghost predicate Within<Node>(ws: seq<Wait<Node>>, n: Node, cost: real) {
    exists w :: w in ws && w.node == n && w.stepCost <= cost
  }

  /** Putting a step on the list without redirecting leaves all that was there, and one to its node for no more. */
  lemma PutKeeps<Node(!new)>(g: Graph<Node>, goal: Node, ws: seq<Wait<Node>>, w: Wait<Node>)
    requires Fair(g, goal, ws) && w.goalCost == g.estimate(w.node, goal) && !Redirects(ws, w)
    ensures Fair(g, goal, Put(ws, w)) && Within(Put(ws, w), w.node, w.stepCost)
    ensures forall x :: x in ws ==> x in Put(ws, w)
  {
    InsertIsFair(g, goal, ws, w);
    InsertMembers(ws, w);
  }

  lemma {:induction false} PutAllKeeps<Node(!new)>(g: Graph<Node>, goal: Node, from: Wait<Node>, ws: seq<Wait<Node>>, order: seq<Node>)
    requires Fair(g, goal, ws)
    requires forall k :: 0 <= k < |order| ==> !Redirects(PutAll(g, goal, from, ws, order[..k]), Onward(g, goal, from, order[k]))
    ensures Fair(g, goal, PutAll(g, goal, from, ws, order))
    ensures forall x :: x in ws ==> x in PutAll(g, goal, from, ws, order)
    ensures forall n :: n in order ==> Within(PutAll(g, goal, from, ws, order), n, from.stepCost + g.cost(from.node, n))
  {
    hide Fair, Redirects, Put, Within, PutAll, Onward;
    NothingPut(g, goal, from, ws);
    if order != [] {
      var front, last := order[..|order| - 1], order[|order| - 1];
      forall k | 0 <= k < |front| ensures !Redirects(PutAll(g, goal, from, ws, front[..k]), Onward(g, goal, from, front[k])) {
        assert front[..k] == order[..k];
      }
      PutAllKeeps(g, goal, from, ws, front);
      var before, all := PutAll(g, goal, from, ws, front), PutAll(g, goal, from, ws, order);
      LastPut(g, goal, from, ws, order);
      PutKeeps(g, goal, before, Onward(g, goal, from, last));
      forall n | n in order ensures Within(all, n, from.stepCost + g.cost(from.node, n)) {
        if n in front {
          WithinGrows(before, all, n, from.stepCost + g.cost(from.node, n));
        }
      }
    }
  }

  lemma NothingPut<Node(!new)>(g: Graph<Node>, goal: Node, from: Wait<Node>, ws: seq<Wait<Node>>)
    ensures PutAll(g, goal, from, ws, []) == ws
  {
  }

  lemma LastPut<Node(!new)>(g: Graph<Node>, goal: Node, from: Wait<Node>, ws: seq<Wait<Node>>, order: seq<Node>)
    requires order != []
    ensures var front, last := order[..|order| - 1], order[|order| - 1];
      && PutAll(g, goal, from, ws, order) == Put(PutAll(g, goal, from, ws, front), Onward(g, goal, from, last))
      && Onward(g, goal, from, last).node == last && Onward(g, goal, from, last).goalCost == g.estimate(last, goal)
      && Onward(g, goal, from, last).stepCost == from.stepCost + g.cost(from.node, last)
  {
  }

  lemma WithinGrows<Node>(a: seq<Wait<Node>>, b: seq<Wait<Node>>, n: Node, cost: real)
    requires Within(a, n, cost) && forall x :: x in a ==> x in b
    ensures Within(b, n, cost)
  {
  }

  // -------------------------------------------------------------------------- the paths

  /** What is known of the eliminated nodes: no path to them is cheaper, and each neighbour that is not eliminated
      waits for no more than the step on from them costs. */
  ghost predicate Settled<Node(!new)>(g: Graph<Node>, start: Node, ws: seq<Wait<Node>>, eliminated: set<Node>, known: map<Node, real>) {
    && start in eliminated && (forall y :: y in eliminated ==> y in known)
    && (forall y, p :: y in eliminated && Connects(g, p, start, y) ==> known[y] <= g.PathCost(p))
    && (forall y, m :: y in eliminated && m in g.ConnectedNodes(y) && m !in eliminated ==> Within(ws, m, known[y] + g.cost(y, m)))
  }

  /** With a consistent estimate, cost and estimate together never drop along a path. */
  lemma {:induction false} GrowsAlong<Node(!new)>(g: Graph<Node>, goal: Node, p: seq<Node>, i: nat)
    requires Consistent(g, goal) && g.IsPath(p) && i < |p|
    ensures g.PathCost(p[..i + 1]) + g.estimate(p[i], goal) <= g.PathCost(p) + g.estimate(p[|p| - 1], goal)
    decreases |p|
  {
    if i == |p| - 1 {
      assert p[..i + 1] == p;
    } else {
      var q := p[..|p| - 1];
      assert g.IsPath(q) && p[|p| - 1] in g.ConnectedNodes(p[|p| - 2]);
      GrowsAlong(g, goal, q, i);
      assert q[..i + 1] == p[..i + 1];
    }
  }

  lemma {:induction false} LeavesAt<Node>(p: seq<Node>, eliminated: set<Node>) returns (i: nat)
    requires p != [] && p[0] in eliminated && p[|p| - 1] !in eliminated
    ensures 0 < i < |p| && p[i - 1] in eliminated && p[i] !in eliminated
    decreases |p|
  {
    if p[|p| - 2] in eliminated {
      i := |p| - 1;
    } else {
      i := LeavesAt(p[..|p| - 1], eliminated);
    }
  }

  /** The first step on the list costs, with its estimate, no more than any path out of the eliminated nodes. */
  lemma FirstIsLeast<Node(!new)>(g: Graph<Node>, start: Node, goal: Node, ws: seq<Wait<Node>>, eliminated: set<Node>,
                                 known: map<Node, real>, p: seq<Node>)
    requires Consistent(g, goal) && Fair(g, goal, ws) && Settled(g, start, ws, eliminated, known)
    requires g.IsPath(p) && p[0] == start && p[|p| - 1] !in eliminated
    ensures ws != [] && ws[0].Cost() <= g.PathCost(p) + g.estimate(p[|p| - 1], goal)
  {
    hide *;
    var i, q, y, m := Crossing(g, start, ws, eliminated, known, p);
    WaitsForNext(g, start, ws, eliminated, known, q, y, m);
    FirstIsNoDearer(g, goal, ws, m, g.PathCost(q) + g.cost(y, m));
    GrowsAlong(g, goal, p, i);
  }

  /** Where a path leaves the eliminated nodes. */
  lemma Crossing<Node(!new)>(g: Graph<Node>, start: Node, ws: seq<Wait<Node>>, eliminated: set<Node>, known: map<Node, real>, p: seq<Node>)
    returns (i: nat, q: seq<Node>, y: Node, m: Node)
    requires Settled(g, start, ws, eliminated, known) && g.IsPath(p) && p[0] == start && p[|p| - 1] !in eliminated
    ensures 0 < i < |p| && m == p[i] && y in eliminated && m !in eliminated && m in g.ConnectedNodes(y) && Connects(g, q, start, y)
    ensures g.PathCost(p[..i + 1]) == g.PathCost(q) + g.cost(y, m)
  {
    assert start in eliminated;
    hide Settled;
    i := LeavesAt(p, eliminated);
    q, y, m := p[..i], p[i - 1], p[i];
    var r := p[..i + 1];
    assert r[..i] == q && r[i - 1] == y && r[i] == m;
  }

  /** The step from an eliminated node waits for no more than any path to that node, and the edge, cost. */
  lemma WaitsForNext<Node(!new)>(g: Graph<Node>, start: Node, ws: seq<Wait<Node>>, eliminated: set<Node>, known: map<Node, real>,
                                 q: seq<Node>, y: Node, m: Node)
    requires Settled(g, start, ws, eliminated, known) && Connects(g, q, start, y)
    requires y in eliminated && m in g.ConnectedNodes(y) && m !in eliminated
    ensures Within(ws, m, g.PathCost(q) + g.cost(y, m))
  {
    hide Connects;
    assert Within(ws, m, known[y] + g.cost(y, m)) && known[y] <= g.PathCost(q);
  }

  lemma FirstIsNoDearer<Node(!new)>(g: Graph<Node>, goal: Node, ws: seq<Wait<Node>>, m: Node, cost: real)
    requires Fair(g, goal, ws) && Within(ws, m, cost)
    ensures ws != [] && ws[0].Cost() <= cost + g.estimate(m, goal)
  {
    var w :| w in ws && w.node == m && w.stepCost <= cost;
    var k :| 0 <= k < |ws| && ws[k] == w;
  }

  lemma AtStart<Node(!new)>(g: Graph<Node>, start: Node, goal: Node, t: Turn<Node>)
    requires Consistent(g, goal) && Starts(g, start, goal, t)
    ensures Fair(g, goal, t.waiting) && Settled(g, start, t.waiting, t.eliminated, map[start := 0.0])
  {
    forall p | Connects(g, p, start, start) ensures 0.0 <= g.PathCost(p) {
      GrowsAlong(g, goal, p, 0);
      assert p[..1] == [start];
    }
    forall m | m in g.ConnectedNodes(start) ensures Within(t.waiting, m, 0.0 + g.cost(start, m)) {
      assert Wait(m, g.cost(start, m), g.estimate(m, goal)) in t.waiting;
    }
  }

  /** What is known after taking the first step. */
  function Learn<Node(==)>(known: map<Node, real>, eliminated: set<Node>, w: Wait<Node>): map<Node, real> {
    if w.node in eliminated then known else known[w.node := w.stepCost]
  }

  lemma TurnKnows<Node(!new)>(g: Graph<Node>, start: Node, goal: Node, t: Turn<Node>, t': Turn<Node>, known: map<Node, real>)
    requires Consistent(g, goal) && Continues(g, goal, t, t')
    requires Fair(g, goal, t.waiting) && Settled(g, start, t.waiting, t.eliminated, known)
    ensures var known' := Learn(known, t.eliminated, t.waiting[0]);
      && (forall y :: y in t'.eliminated ==> y in known')
      && forall y, p :: y in t'.eliminated && Connects(g, p, start, y) ==> known'[y] <= g.PathCost(p)
  {
    hide Consistent, PutAll;
    var known' := Learn(known, t.eliminated, t.waiting[0]);
    forall y, p | y in t'.eliminated && Connects(g, p, start, y) ensures known'[y] <= g.PathCost(p) {
      if y !in t.eliminated {
        FirstIsLeast(g, start, goal, t.waiting, t.eliminated, known, p);
      }
    }
  }

  lemma TurnCovers<Node(!new)>(g: Graph<Node>, goal: Node, t: Turn<Node>, t': Turn<Node>, y: Node, m: Node, cost: real)
    requires Continues(g, goal, t, t') && Clean(g, goal, t) && Fair(g, goal, t.waiting) && m !in t'.eliminated
    requires if y == t.waiting[0].node && y !in t.eliminated then m in g.ConnectedNodes(y) && cost == t.waiting[0].stepCost + g.cost(y, m)
             else Within(t.waiting, m, cost)
    ensures Within(t'.waiting, m, cost)
  {
    var first, rest := t.waiting[0], t.waiting[1..];
    assert Fair(g, goal, rest);
    hide Fair, PutAll;
    PutAllKeeps(g, goal, first, rest, t.order);
    if y == first.node && y !in t.eliminated {
      assert m in t.order;
    } else {
      var w :| w in t.waiting && w.node == m && w.stepCost <= cost;
      assert w in rest;
    }
  }

  lemma TurnSettles<Node(!new)>(g: Graph<Node>, start: Node, goal: Node, t: Turn<Node>, t': Turn<Node>, known: map<Node, real>)
    requires Consistent(g, goal) && Continues(g, goal, t, t') && Clean(g, goal, t)
    requires Fair(g, goal, t.waiting) && Settled(g, start, t.waiting, t.eliminated, known)
    ensures Fair(g, goal, t'.waiting)
    ensures Settled(g, start, t'.waiting, t'.eliminated, Learn(known, t.eliminated, t.waiting[0]))
  {
    hide Consistent, PutAll, Connects, Within;
    var known' := Learn(known, t.eliminated, t.waiting[0]);
    TurnKnows(g, start, goal, t, t', known);
    forall y, m | y in t'.eliminated && m in g.ConnectedNodes(y) && m !in t'.eliminated
      ensures Within(t'.waiting, m, known'[y] + g.cost(y, m))
    {
      TurnCovers(g, goal, t, t', y, m, known'[y] + g.cost(y, m));
    }
    TurnIsFair(g, goal, t, t');
  }

  lemma TurnIsFair<Node(!new)>(g: Graph<Node>, goal: Node, t: Turn<Node>, t': Turn<Node>)
    requires Continues(g, goal, t, t') && Clean(g, goal, t) && Fair(g, goal, t.waiting)
    ensures Fair(g, goal, t'.waiting)
  {
    assert Fair(g, goal, t.waiting[1..]);
    PutAllKeeps(g, goal, t.waiting[0], t.waiting[1..], t.order);
  }

  lemma {:induction false} SearchSettles<Node(!new)>(g: Graph<Node>, start: Node, goal: Node, turns: seq<Turn<Node>>)
    returns (known: map<Node, real>)
    requires Consistent(g, goal) && IsSearch(g, start, goal, turns) && NeverRedirects(g, start, goal, turns) && start != goal
    ensures Fair(g, goal, Last(turns).waiting) && Settled(g, start, Last(turns).waiting, Last(turns).eliminated, known)
    ensures goal !in Last(turns).eliminated
    decreases |turns|
  {
    hide Starts, Continues, Clean, Fair, Settled, Consistent;
    if |turns| == 1 {
      AtStart(g, start, goal, turns[0]);
      known := map[start := 0.0];
      assert goal !in turns[0].eliminated by { StartOnly(g, start, goal, turns[0]); }
    } else {
      var front, n := turns[..|turns| - 1], |turns| - 2;
      assert forall i :: 0 <= i < |front| - 1 ==> Continues(g, goal, front[i], front[i + 1]) by {
        forall i | 0 <= i < |front| - 1 ensures Continues(g, goal, front[i], front[i + 1]) {
          assert Continues(g, goal, turns[i], turns[i + 1]);
        }
      }
      known := SearchSettles(g, start, goal, front);
      assert Continues(g, goal, turns[n], turns[n + 1]) && Clean(g, goal, turns[n]);
      TurnSettles(g, start, goal, turns[n], turns[n + 1], known);
      known := Learn(known, turns[n].eliminated, turns[n].waiting[0]);
      OneEliminated(g, goal, turns[n], turns[n + 1]);
    }
  }

  lemma StartOnly<Node(!new)>(g: Graph<Node>, start: Node, goal: Node, t: Turn<Node>)
    requires Starts(g, start, goal, t) && start != goal
    ensures goal !in t.eliminated
  {
  }

  lemma OneEliminated<Node(!new)>(g: Graph<Node>, goal: Node, t: Turn<Node>, t': Turn<Node>)
    requires Continues(g, goal, t, t') && goal !in t.eliminated
    ensures goal !in t'.eliminated
  {
  }

  /** With a consistent estimate and no redirection, no path is cheaper than what the step to the goal records. */
  lemma RecordedIsLeast<Node(!new)>(g: Graph<Node>, start: Node, goal: Node, turns: seq<Turn<Node>>, p: seq<Node>)
    requires Consistent(g, goal) && IsSearch(g, start, goal, turns) && NeverRedirects(g, start, goal, turns) && start != goal
    requires Last(turns).waiting != [] && Last(turns).waiting[0].node == goal && Connects(g, p, start, goal)
    ensures Last(turns).waiting[0].stepCost <= g.PathCost(p)
  {
    hide Consistent, NeverRedirects, Settled;
    var known := SearchSettles(g, start, goal, turns);
    FirstIsLeast(g, start, goal, Last(turns).waiting, Last(turns).eliminated, known, p);
  }

  // ------------------------------------------------------------- graphs without redirections

  /** What an edge costs beyond what it must gain on the estimate depends on the node it leads to alone. */
  ghost predicate Even<Node(!new)>(g: Graph<Node>, goal: Node) {
    forall x, y, n :: n in g.ConnectedNodes(x) && n in g.ConnectedNodes(y) ==>
      g.cost(x, n) - g.estimate(x, goal) == g.cost(y, n) - g.estimate(y, goal)
  }

  /** No step on from a step of this cost is cheaper. */
  ghost predicate Early<Node(!new)>(g: Graph<Node>, goal: Node, w: Wait<Node>, level: real) {
    forall x :: w.node in g.ConnectedNodes(x) ==> w.stepCost + g.estimate(x, goal) <= level + g.cost(x, w.node)
  }

  /** The costs taken off the list have come up to this level. */
  ghost predicate AtLevel<Node(!new)>(g: Graph<Node>, goal: Node, ws: seq<Wait<Node>>, level: real) {
    forall w :: w in ws ==> level <= w.Cost() && Early(g, goal, w, level)
  }

  lemma OnwardIsEarly<Node(!new)>(g: Graph<Node>, goal: Node, from: Wait<Node>, n: Node)
    requires Consistent(g, goal) && Even(g, goal) && from.goalCost == g.estimate(from.node, goal) && n in g.ConnectedNodes(from.node)
    ensures from.Cost() <= Onward(g, goal, from, n).Cost() && Early(g, goal, Onward(g, goal, from, n), from.Cost())
  {
    var w := Onward(g, goal, from, n);
    forall x | n in g.ConnectedNodes(x) ensures w.stepCost + g.estimate(x, goal) <= from.Cost() + g.cost(x, n) {
      assert g.cost(x, n) - g.estimate(x, goal) == g.cost(from.node, n) - g.estimate(from.node, goal);
    }
  }

  lemma OnwardIsNotCheaper<Node(!new)>(g: Graph<Node>, goal: Node, from: Wait<Node>, ws: seq<Wait<Node>>, n: Node)
    requires from.goalCost == g.estimate(from.node, goal) && n in g.ConnectedNodes(from.node) && AtLevel(g, goal, ws, from.Cost())
    ensures !Redirects(ws, Onward(g, goal, from, n))
  {
    var w := Onward(g, goal, from, n);
    if Met(ws, w) {
      var v := ws[Place(ws, w.Cost())];
      assert v in ws && v.node == n;
      assert Early(g, goal, v, from.Cost());
    }
  }

  lemma PutAtLevel<Node(!new)>(g: Graph<Node>, goal: Node, ws: seq<Wait<Node>>, w: Wait<Node>, level: real)
    requires AtLevel(g, goal, ws, level) && level <= w.Cost() && Early(g, goal, w, level)
    ensures AtLevel(g, goal, Put(ws, w), level)
  {
    hide Early;
    InsertMembers(ws, w);
  }

  lemma {:induction false} PutAllAtLevel<Node(!new)>(g: Graph<Node>, goal: Node, from: Wait<Node>, ws: seq<Wait<Node>>, order: seq<Node>)
    requires Consistent(g, goal) && Even(g, goal) && from.goalCost == g.estimate(from.node, goal)
    requires AtLevel(g, goal, ws, from.Cost()) && forall n :: n in order ==> n in g.ConnectedNodes(from.node)
    ensures AtLevel(g, goal, PutAll(g, goal, from, ws, order), from.Cost())
    ensures forall k :: 0 <= k < |order| ==> !Redirects(PutAll(g, goal, from, ws, order[..k]), Onward(g, goal, from, order[k]))
  {
    hide Consistent, Even, AtLevel, Early, Redirects, Put, PutAll, Onward;
    NothingPut(g, goal, from, ws);
    if order != [] {
      var front, last := order[..|order| - 1], order[|order| - 1];
      PutAllAtLevel(g, goal, from, ws, front);
      var before := PutAll(g, goal, from, ws, front);
      LastPut(g, goal, from, ws, order);
      OnwardIsEarly(g, goal, from, last);
      OnwardIsNotCheaper(g, goal, from, before, last);
      PutAtLevel(g, goal, before, Onward(g, goal, from, last), from.Cost());
      forall k | 0 <= k < |order| ensures !Redirects(PutAll(g, goal, from, ws, order[..k]), Onward(g, goal, from, order[k])) {
        if k < |front| {
          assert front[..k] == order[..k] && front[k] == order[k];
        }
      }
    }
  }

  lemma StartsAtLevel<Node(!new)>(g: Graph<Node>, start: Node, goal: Node, t: Turn<Node>)
    requires Consistent(g, goal) && Even(g, goal) && Starts(g, start, goal, t)
    ensures Fair(g, goal, t.waiting) && AtLevel(g, goal, t.waiting, g.estimate(start, goal))
  {
    var from := Wait(start, 0.0, g.estimate(start, goal));
    forall w | w in t.waiting ensures g.estimate(start, goal) <= w.Cost() && Early(g, goal, w, g.estimate(start, goal)) {
      assert w == Onward(g, goal, from, w.node);
      OnwardIsEarly(g, goal, from, w.node);
    }
    assert forall i :: 0 <= i < |t.waiting| ==> t.waiting[i] in t.waiting;
  }

  /** The level comes up to the cost of the step taken. */
  lemma RestAtLevel<Node(!new)>(g: Graph<Node>, goal: Node, ws: seq<Wait<Node>>, level: real)
    requires Fair(g, goal, ws) && AtLevel(g, goal, ws, level) && ws != []
    ensures AtLevel(g, goal, ws[1..], ws[0].Cost()) && ws[0].goalCost == g.estimate(ws[0].node, goal)
  {
    assert ws[0] in ws;
    forall w | w in ws[1..] ensures ws[0].Cost() <= w.Cost() && Early(g, goal, w, ws[0].Cost()) {
      assert Early(g, goal, w, level);
      var k :| 1 <= k < |ws| && ws[k] == w;
    }
  }

  lemma TurnIsClean<Node(!new)>(g: Graph<Node>, goal: Node, t: Turn<Node>, t': Turn<Node>, level: real)
    requires Consistent(g, goal) && Even(g, goal) && Continues(g, goal, t, t')
    requires Fair(g, goal, t.waiting) && AtLevel(g, goal, t.waiting, level)
    ensures Clean(g, goal, t) && Fair(g, goal, t'.waiting) && AtLevel(g, goal, t'.waiting, t.waiting[0].Cost())
  {
    hide Consistent, Even, Fair, AtLevel, Redirects, PutAll, Onward;
    RestAtLevel(g, goal, t.waiting, level);
    PutAllAtLevel(g, goal, t.waiting[0], t.waiting[1..], t.order);
    TurnIsFair(g, goal, t, t');
  }

  lemma {:induction false} EvenSearch<Node(!new)>(g: Graph<Node>, start: Node, goal: Node, turns: seq<Turn<Node>>)
    returns (level: real)
    requires Consistent(g, goal) && Even(g, goal) && IsSearch(g, start, goal, turns)
    ensures NeverRedirects(g, start, goal, turns)
    ensures Fair(g, goal, Last(turns).waiting) && AtLevel(g, goal, Last(turns).waiting, level)
    decreases |turns|
  {
    hide Starts, Continues, Clean, Ended, Fair, AtLevel, Consistent, Even;
    if |turns| == 1 {
      StartsAtLevel(g, start, goal, turns[0]);
      level := g.estimate(start, goal);
    } else {
      var front, n := turns[..|turns| - 1], |turns| - 2;
      assert IsSearch(g, start, goal, front) by {
        forall i | 0 <= i < |front| - 1 ensures Continues(g, goal, front[i], front[i + 1]) {
          assert Continues(g, goal, turns[i], turns[i + 1]);
        }
      }
      level := EvenSearch(g, start, goal, front);
      assert Continues(g, goal, turns[n], turns[n + 1]);
      NotEnded(g, goal, turns[n], turns[n + 1]);
      TurnIsClean(g, goal, turns[n], turns[n + 1], level);
      level := turns[n].waiting[0].Cost();
      forall i | 0 <= i < |turns| - 1 ensures turns[i].waiting != [] && !Ended(goal, turns[i]) && Clean(g, goal, turns[i]) {
        assert Continues(g, goal, turns[i], turns[i + 1]);
        NotEnded(g, goal, turns[i], turns[i + 1]);
        if i < n {
          assert front[i] == turns[i];
        }
      }
    }
  }

  lemma NotEnded<Node(!new)>(g: Graph<Node>, goal: Node, t: Turn<Node>, t': Turn<Node>)
    requires Continues(g, goal, t, t')
    ensures t.waiting != [] && !Ended(goal, t)
  {
  }

  /** On an even graph the costs taken off the list never drop, and no step is ever redirected. */
  lemma EvenNeverRedirects<Node(!new)>(g: Graph<Node>, start: Node, goal: Node, turns: seq<Turn<Node>>)
    requires Consistent(g, goal) && Even(g, goal) && IsSearch(g, start, goal, turns)
    ensures NeverRedirects(g, start, goal, turns)
  {
    hide NeverRedirects, Consistent, Even, IsSearch;
    var _ := EvenSearch(g, start, goal, turns);
  }

  /** Edges of one cost and no estimate to go by, which makes the graph even. */
  ghost predicate Uniform<Node(!new)>(g: Graph<Node>, goal: Node, unit: real) {
    0.0 < unit && (forall x, y :: y in g.ConnectedNodes(x) ==> g.cost(x, y) == unit) && forall x :: g.estimate(x, goal) == 0.0
  }

  function Units(unit: real, n: int): real { unit * n as real }

  /** The cheapest path of a uniform graph has the fewest nodes. */
  lemma {:induction false} UniformCost<Node(!new)>(g: Graph<Node>, goal: Node, unit: real, p: seq<Node>)
    requires Uniform(g, goal, unit) && g.IsPath(p)
    ensures g.PathCost(p) == Units(unit, |p| - 1)
    decreases |p|
  {
    OneMoreUnit(unit, |p| - 2);
    if |p| > 1 {
      hide Units;
      var q := p[..|p| - 1];
      UniformCost(g, goal, unit, q);
      assert p[|p| - 1] in g.ConnectedNodes(p[|p| - 2]);
    }
  }

  lemma OneMoreUnit(unit: real, n: int)
    ensures Units(unit, n + 1) == Units(unit, n) + unit && Units(unit, 0) == 0.0
  {
    assert (n + 1) as real == n as real + 1.0;
  }

  lemma UniformIsEven<Node(!new)>(g: Graph<Node>, goal: Node, unit: real)
    requires Uniform(g, goal, unit)
    ensures 0.0 < unit && Consistent(g, goal) && Even(g, goal)
  {
  }

  /** findPath(from:): the search from the other node. With a consistent estimate the path is the cheapest one on
      every even graph, and on any other as long as no queued step was redirected. */
  method FindPathFrom<Node(!new)>(g: Graph<Node>, goal: Node, start: Node) returns (path: seq<Node>, ghost turns: seq<Turn<Node>>)
    requires g.Closed()
    ensures IsSearch(g, start, goal, turns) && (Connects(g, path, start, goal) || path == [start])
    ensures start != goal ==> (path == [start] <==> !Reachable(g, start, goal))
    ensures Consistent(g, goal) && (Even(g, goal) || NeverRedirects(g, start, goal, turns)) && !Circles(g, start, goal) ==>
      forall p :: Connects(g, p, start, goal) ==> g.PathCost(path) <= g.PathCost(p)
    ensures start != goal ==> forall p, unit :: Connects(g, p, start, goal) && Uniform(g, goal, unit) ==> |path| <= |p|
  {
    hide Consistent, Even, NeverRedirects, Connects, NoRepeats, IsSearch, Uniform;
    ghost var found;
    path, found, turns := FindPath(g, start, goal);
    if Consistent(g, goal) && (Even(g, goal) || NeverRedirects(g, start, goal, turns)) && !Circles(g, start, goal) {
      forall p | Connects(g, p, start, goal) ensures g.PathCost(path) <= g.PathCost(p) {
        if start == goal {
          RoundIsNotLess(g, start, p);
        } else {
          if Even(g, goal) {
            EvenNeverRedirects(g, start, goal, turns);
          }
          RecordedIsLeast(g, start, goal, turns, p);
        }
      }
    }
    if start != goal {
      forall p, unit | Connects(g, p, start, goal) && Uniform(g, goal, unit) ensures |path| <= |p| {
        CheapestIsShortest(g, start, goal, unit, path, p);
      }
    }
  }

  lemma CheapestIsShortest<Node(!new)>(g: Graph<Node>, start: Node, goal: Node, unit: real, path: seq<Node>, p: seq<Node>)
    requires Uniform(g, goal, unit) && Connects(g, p, start, goal) && (Connects(g, path, start, goal) || path == [start])
    requires Consistent(g, goal) && Even(g, goal) ==> g.PathCost(path) <= g.PathCost(p)
    ensures |path| <= |p|
  {
    hide Uniform, Consistent, Even, Units;
    UniformIsEven(g, goal, unit);
    UniformCost(g, goal, unit, p);
    UniformCost(g, goal, unit, path);
    NoMoreUnits(unit, |path| - 1, |p| - 1);
  }

  lemma NoMoreUnits(unit: real, a: int, b: int)
    requires 0.0 < unit && Units(unit, a) <= Units(unit, b)
    ensures a <= b
  {
    assert unit * (b as real - a as real) >= 0.0;
  }

  /** The search is for a way from a node to itself, and there is an edge that leads there. */
  predicate Circles<Node(==)>(g: Graph<Node>, start: Node, goal: Node) { start == goal && start in g.ConnectedNodes(start) }

  lemma RoundIsNotLess<Node(!new)>(g: Graph<Node>, start: Node, p: seq<Node>)
    requires Consistent(g, start) && Connects(g, p, start, start)
    ensures g.PathCost([start]) <= g.PathCost(p)
  {
    GrowsAlong(g, start, p, 0);
    assert p[..1] == [start];
  }

  // -------------------------------------------------------------------- a missed path

  /** From node 0 a dear edge leads to node 3, and a cheap way round by node 1; the goal, node 4, is next to node 3
      and can be reached by node 2 at a price in between. */
  function EdgeCost(a: nat, b: nat): real {
    if a == 0 && b == 1 then 1.0
    else if a == 0 && b == 2 then 2.0
    else if a == 1 && b == 3 then 3.0
    else if a == 2 && b == 4 then 4.0
    else if a == 3 && b == 4 then 1.0
    else 10.0
  }

  function NoEstimate(a: nat, b: nat): real { 0.0 }

  function Detour(): Graph<nat> {
    Graph({0, 1, 2, 3, 4}, map[0 := {1, 2, 3}, 1 := {3}, 2 := {4}, 3 := {4}], EdgeCost, NoEstimate)
  }

  lemma DetourIsCheaper()
    ensures Detour().Closed() && Consistent(Detour(), 4)
    ensures Connects(Detour(), [0, 1, 3, 4], 0, 4) && Detour().PathCost([0, 1, 3, 4]) == 5.0
    ensures Detour().PathCost([0, 2, 4]) == 6.0
  {
    var g := Detour();
    var p, q := [0, 1, 3, 4], [0, 2, 4];
    assert p[..3] == [0, 1, 3] && p[..3][..2] == [0, 1] && p[..3][..2][..1] == [0];
    assert g.PathCost([0, 1]) == 1.0 && g.PathCost([0, 1, 3]) == 4.0;
    assert q[..2] == [0, 2] && q[..2][..1] == [0] && g.PathCost([0, 2]) == 2.0;
  }

  /** The list after the start: nodes 1, 2 and 3 at costs 1, 2 and 10. */
  lemma FirstTurn(t: Turn<nat>)
    requires Starts(Detour(), 0, 4, t)
    ensures t.waiting == [Wait(1, 1.0, 0.0), Wait(2, 2.0, 0.0), Wait(3, 10.0, 0.0)] && t.eliminated == {0}
  {
    var ws := t.waiting;
    var a, b, c := Wait(1, 1.0, 0.0), Wait(2, 2.0, 0.0), Wait(3, 10.0, 0.0);
    assert forall w :: w in ws <==> w == a || w == b || w == c;
    ThreeWaits(ws, a, b, c);
  }

  lemma ThreeWaits(ws: seq<Wait<nat>>, a: Wait<nat>, b: Wait<nat>, c: Wait<nat>)
    requires NoRepeats(ws) && (forall w :: w in ws <==> w == a || w == b || w == c) && a.Cost() < b.Cost() < c.Cost()
    requires forall i, j :: 0 <= i < j < |ws| ==> ws[i].Cost() <= ws[j].Cost()
    ensures ws == [a, b, c]
  {
    assert a in ws && b in ws && c in ws;
    var i :| 0 <= i < |ws| && ws[i] == a;
    var j :| 0 <= j < |ws| && ws[j] == b;
    var k :| 0 <= k < |ws| && ws[k] == c;
    assert i < j < k;
    forall n: int | 0 <= n < |ws| ensures Among(n, i, j, k) {
      assert ws[n] in ws;
      assert ws[n] == ws[i] || ws[n] == ws[j] || ws[n] == ws[k];
    }
    assert Among(0, i, j, k) && Among(1, i, j, k) && Among(2, i, j, k) && Among(|ws| - 1, i, j, k);
  }

  predicate Among(n: int, i: int, j: int, k: int) { n == i || n == j || n == k }

  /** Node 1 redirects the step to node 3, whose recorded cost stays at 10. */
  lemma SecondTurn(t: Turn<nat>, t': Turn<nat>)
    requires t.waiting == [Wait(1, 1.0, 0.0), Wait(2, 2.0, 0.0), Wait(3, 10.0, 0.0)] && t.eliminated == {0}
    requires Continues(Detour(), 4, t, t')
    ensures t'.waiting == [Wait(2, 2.0, 0.0), Wait(3, 10.0, 0.0)] && t'.eliminated == {0, 1}
    ensures !Clean(Detour(), 4, t)
  {
    var rest := [Wait(2, 2.0, 0.0), Wait(3, 10.0, 0.0)];
    assert t.waiting[1..] == rest;
    OneNode(t.order, 3);
    var w := Onward(Detour(), 4, t.waiting[0], 3);
    assert [3][..0] == [];
    PlaceIs(rest, 4.0, 1);
    assert Redirects(PutAll(Detour(), 4, t.waiting[0], rest, t.order[..0]), w);
  }

  /** Node 2 puts the goal before node 3. */
  lemma ThirdTurn(t: Turn<nat>, t': Turn<nat>)
    requires t.waiting == [Wait(2, 2.0, 0.0), Wait(3, 10.0, 0.0)] && t.eliminated == {0, 1}
    requires Continues(Detour(), 4, t, t')
    ensures t'.waiting == [Wait(4, 6.0, 0.0), Wait(3, 10.0, 0.0)] && t'.eliminated == {0, 1, 2}
  {
    var rest := [Wait(3, 10.0, 0.0)];
    assert t.waiting[1..] == rest;
    OneNode(t.order, 4);
    assert [4][..0] == [];
    PlaceIs(rest, 6.0, 0);
  }

  lemma OneNode(order: seq<nat>, n: nat)
    requires NoRepeats(order) && forall m :: m in order <==> m == n
    ensures order == [n]
  {
    assert n in order;
    assert forall i :: 0 <= i < |order| ==> order[i] in order;
    var last := |order| - 1;
    assert order[0] == order[last];
  }

  /** A path to the goal through nodes 0, 1 and 2 only. */
  lemma OnlyPath(p: seq<nat>)
    requires Connects(Detour(), p, 0, 4) && forall i :: 0 <= i < |p| - 1 ==> p[i] == 0 || p[i] == 1 || p[i] == 2
    ensures p == [0, 2, 4]
  {
    var g, n := Detour(), |p|;
    assert p[n - 1] in g.ConnectedNodes(p[n - 2]);
    assert p[n - 2] in g.ConnectedNodes(p[n - 3]);
    forall i | 0 < i < n ensures p[i] != 0 {
      assert p[i] in g.ConnectedNodes(p[i - 1]);
    }
  }

  /** The search on this graph takes the path by node 2, although the one by nodes 1 and 3 is cheaper. */
  method SearchMissesCheapest() returns (path: seq<nat>)
    ensures path == [0, 2, 4] && Connects(Detour(), [0, 1, 3, 4], 0, 4)
    ensures Detour().PathCost([0, 1, 3, 4]) < Detour().PathCost(path)
  {
    hide Starts, Continues, Connects;
    DetourIsCheaper();
    ghost var found, turns;
    path, found, turns := FindPath(Detour(), 0, 4);
    FirstTurn(turns[0]);
    assert !Ended(4, turns[0]);
    SecondTurn(turns[0], turns[1]);
    assert !Ended(4, turns[1]);
    ThirdTurn(turns[1], turns[2]);
    assert Ended(4, turns[2]);
    NoneAfter(Detour(), 0, 4, turns, 2);
    OnlyPath(path);
  }

  /** A search that has ended has no further turns. */
  lemma NoneAfter(g: Graph<nat>, start: nat, goal: nat, turns: seq<Turn<nat>>, i: nat)
    requires IsSearch(g, start, goal, turns) && i < |turns| && Ended(goal, turns[i])
    ensures |turns| == i + 1
  {
    assert |turns| > i + 1 ==> Continues(g, goal, turns[i], turns[i + 1]);
  }

  // ------------------------------------------------------------- a harmless redirection

  /** Node 1 offers a cheaper way to node 2, which no cheapest path to the goal, node 3, uses. */
  function ByWayCost(a: nat, b: nat): real {
    if a == 0 && b == 1 then 1.0
    else if a == 0 && b == 3 then 5.0
    else if a == 1 && b == 2 then 6.0
    else if a == 2 && b == 3 then 1.0
    else 10.0
  }

  function ByWay(): Graph<nat> {
    Graph({0, 1, 2, 3}, map[0 := {1, 2, 3}, 1 := {2}, 2 := {3}], ByWayCost, NoEstimate)
  }

  lemma ByWayStarts(t: Turn<nat>)
    requires Starts(ByWay(), 0, 3, t)
    ensures t.waiting == [Wait(1, 1.0, 0.0), Wait(3, 5.0, 0.0), Wait(2, 10.0, 0.0)] && t.eliminated == {0}
  {
    var ws := t.waiting;
    var a, b, c := Wait(1, 1.0, 0.0), Wait(3, 5.0, 0.0), Wait(2, 10.0, 0.0);
    assert forall w :: w in ws <==> w == a || w == b || w == c;
    ThreeWaits(ws, a, b, c);
  }

  /** Node 1 redirects the step to node 2, behind the one to the goal. */
  lemma ByWayGoesOn(t: Turn<nat>, t': Turn<nat>)
    requires t.waiting == [Wait(1, 1.0, 0.0), Wait(3, 5.0, 0.0), Wait(2, 10.0, 0.0)] && t.eliminated == {0}
    requires Continues(ByWay(), 3, t, t')
    ensures t'.waiting == [Wait(3, 5.0, 0.0), Wait(2, 10.0, 0.0)] && t'.eliminated == {0, 1}
    ensures !Clean(ByWay(), 3, t)
  {
    var rest := [Wait(3, 5.0, 0.0), Wait(2, 10.0, 0.0)];
    assert t.waiting[1..] == rest;
    OneNode(t.order, 2);
    var w := Onward(ByWay(), 3, t.waiting[0], 2);
    assert [2][..0] == [];
    PlaceIs(rest, 7.0, 1);
    assert Redirects(PutAll(ByWay(), 3, t.waiting[0], rest, t.order[..0]), w);
  }

  /** The least cost of a path from node 0. */
  function Distance(n: nat): real { if n == 0 then 0.0 else if n == 1 then 1.0 else if n == 2 then 7.0 else 5.0 }

  lemma {:induction false} ByWayCostsAtLeast(p: seq<nat>)
    requires ByWay().IsPath(p) && p[0] == 0
    ensures p[|p| - 1] <= 3 && Distance(p[|p| - 1]) <= ByWay().PathCost(p)
    decreases |p|
  {
    if |p| > 1 {
      ByWayCostsAtLeast(p[..|p| - 1]);
      assert p[|p| - 1] in ByWay().ConnectedNodes(p[|p| - 2]);
    }
  }

  lemma ByWayCheapest(p: seq<nat>)
    ensures ByWay().Closed() && Connects(ByWay(), [0, 3], 0, 3)
    ensures Connects(ByWay(), p, 0, 3) ==> 5.0 <= ByWay().PathCost(p)
  {
    if Connects(ByWay(), p, 0, 3) {
      ByWayCostsAtLeast(p);
    }
  }

  lemma ByWayPath(p: seq<nat>)
    requires Connects(ByWay(), p, 0, 3) && forall i :: 0 <= i < |p| - 1 ==> p[i] == 0 || p[i] == 1
    ensures p == [0, 3] && ByWay().PathCost(p) == 5.0
  {
    var g, n := ByWay(), |p|;
    assert p[n - 1] in g.ConnectedNodes(p[n - 2]);
    forall i | 0 < i < n ensures p[i] != 0 {
      assert p[i] in g.ConnectedNodes(p[i - 1]);
    }
    assert [0, 3][..1] == [0];
  }

  /** On this graph a step is redirected and the path is the cheapest one all the same: that no step is redirected
      is not necessary. */
  method RedirectionCanBeHarmless() returns (path: seq<nat>, ghost turns: seq<Turn<nat>>)
    ensures IsSearch(ByWay(), 0, 3, turns) && !NeverRedirects(ByWay(), 0, 3, turns)
    ensures Connects(ByWay(), path, 0, 3) && forall p :: Connects(ByWay(), p, 0, 3) ==> ByWay().PathCost(path) <= ByWay().PathCost(p)
  {
    hide Starts, Continues, Connects;
    ByWayCheapest([0, 3]);
    ghost var found;
    path, found, turns := FindPath(ByWay(), 0, 3);
    ByWayStarts(turns[0]);
    assert !Ended(3, turns[0]);
    ByWayGoesOn(turns[0], turns[1]);
    assert Ended(3, turns[1]);
    NoneAfter(ByWay(), 0, 3, turns, 1);
    ByWayPath(path);
    forall p | Connects(ByWay(), p, 0, 3) ensures ByWay().PathCost(path) <= ByWay().PathCost(p) {
      ByWayCheapest(p);
    }
  }
}
