/** The memtable's skip list as a state machine over single loads and stores: one writer whose
    insertion links a new node level by level, and any number of readers that take no lock. */
module SkipList {

  const MAX_HEIGHT: nat := 12

  /** Keys are their position in the order of the comparator. */
  type Key = real

  datatype Link = Null | To(node: nat)

  datatype Node = Node(key: Key, next: seq<Link>)

  /** What a search looks for: the first key at or after a target, the last key before a
      target, or the last key. */
  datatype Goal = AtOrAfter(target: Key) | LastBefore(target: Key) | Last {
    /** Whether the search moves on to a key. */
    predicate Passes(k: Key) { Last? || k < target }
  }

  datatype Search =
    | Walking(goal: Goal, x: nat, level: nat)
    | Found(goal: Goal, result: Link)

  datatype Writer =
    | Idle
    | Finding(key: Key, x: nat, level: nat, prev: seq<nat>)
    | Ready(key: Key, prev: seq<nat>)
    | Linking(node: nat, prev: seq<nat>, i: nat, ownSet: bool)

  /** Node 0 is the head; its key is not used. */
  datatype State = State(nodes: seq<Node>, maxHeight: nat, writer: Writer, readers: map<nat, Search>)

  const HEAD: nat := 0

  function Init(): State {
    State([Node(0.0, seq(MAX_HEIGHT, _ => Null))], 1, Idle, map[])
  }

  // ------------------------------------------------------------------------ steps

  datatype Event =
    | BeginInsert(key: Key)
    | FindStep
    | MakeNode(height: nat)
    | SetOwnLink
    | Publish
    | BeginSearch(reader: nat, goal: Goal)
    | SearchStep(reader: nat)

  /** The link of a node at a level, where there is one. */
  predicate HasLink(s: State, n: nat, level: nat) {
    n < |s.nodes| && level < |s.nodes[n].next|
  }

  function LinkOf(s: State, n: nat, level: nat): Link
    requires HasLink(s, n, level)
  {
    s.nodes[n].next[level]
  }

  function SetLink(s: State, n: nat, level: nat, link: Link): State
    requires HasLink(s, n, level)
  {
    s.(nodes := s.nodes[n := Node(s.nodes[n].key, s.nodes[n].next[level := link])])
  }

  /** What a caller of Insert may not do: add a key that is there. */
  predicate FreshKey(s: State, key: Key) {
    forall n :: 0 < n < |s.nodes| ==> s.nodes[n].key != key
  }

  /** The loads and stores that can come next. All but the first line of each kind is the
      program counter; that the memory accesses are defined is part of the invariant. */
  predicate Enabled(s: State, e: Event) {
    match e
    case BeginInsert(key) => s.writer.Idle? && FreshKey(s, key)
    case FindStep => s.writer.Finding?
    case MakeNode(height) => s.writer.Ready? && 1 <= height <= MAX_HEIGHT
    case SetOwnLink => s.writer.Linking? && !s.writer.ownSet
    case Publish => s.writer.Linking? && s.writer.ownSet
    case BeginSearch(reader, _) => reader !in s.readers || s.readers[reader].Found?
    case SearchStep(reader) => reader in s.readers && s.readers[reader].Walking?
  }

  /** The step is defined: every link it loads or stores exists. */
  predicate Defined(s: State, e: Event) {
    match e
    case BeginInsert(_) => s.maxHeight > 0
    case FindStep =>
      s.writer.Finding? && |s.writer.prev| == MAX_HEIGHT && s.writer.level < MAX_HEIGHT &&
      HasLink(s, s.writer.x, s.writer.level) &&
      var link := LinkOf(s, s.writer.x, s.writer.level); link.To? ==> link.node < |s.nodes|
    case MakeNode(_) => s.writer.Ready?
    case SetOwnLink =>
      s.writer.Linking? && s.writer.i < |s.writer.prev| && HasLink(s, s.writer.prev[s.writer.i], s.writer.i) &&
      HasLink(s, s.writer.node, s.writer.i)
    case Publish =>
      s.writer.Linking? && s.writer.i < |s.writer.prev| && HasLink(s, s.writer.prev[s.writer.i], s.writer.i) &&
      s.writer.node < |s.nodes|
    case BeginSearch(_, _) => s.maxHeight > 0
    case SearchStep(reader) =>
      reader in s.readers && s.readers[reader].Walking? && HasLink(s, s.readers[reader].x, s.readers[reader].level) &&
      var link := LinkOf(s, s.readers[reader].x, s.readers[reader].level); link.To? ==> link.node < |s.nodes|
  }

  function Next(s: State, e: Event): State
    requires Defined(s, e)
  {
    match e
    case BeginInsert(key) =>
      s.(writer := Finding(key, HEAD, s.maxHeight - 1, seq(MAX_HEIGHT, _ => HEAD)))
    case FindStep =>
      var w := s.writer;
      var link := LinkOf(s, w.x, w.level);
      if link.To? && s.nodes[link.node].key < w.key then s.(writer := w.(x := link.node))
      else
        var prev := w.prev[w.level := w.x];
        s.(writer := if w.level == 0 then Ready(w.key, prev) else Finding(w.key, w.x, w.level - 1, prev))
    case MakeNode(height) =>
      State(s.nodes + [Node(s.writer.key, seq(height, _ => Null))], if height > s.maxHeight then height else s.maxHeight,
            Linking(|s.nodes|, s.writer.prev, 0, false), s.readers)
    case SetOwnLink =>
      var w := s.writer;
      SetLink(s, w.node, w.i, LinkOf(s, w.prev[w.i], w.i)).(writer := w.(ownSet := true))
    case Publish =>
      var w := s.writer;
      SetLink(s, w.prev[w.i], w.i, To(w.node)).(writer :=
        if w.i + 1 < |s.nodes[w.node].next| then Linking(w.node, w.prev, w.i + 1, false) else Idle)
    case BeginSearch(reader, goal) =>
      s.(readers := s.readers[reader := Walking(goal, HEAD, s.maxHeight - 1)])
    case SearchStep(reader) =>
      var r := s.readers[reader];
      var link := LinkOf(s, r.x, r.level);
      s.(readers := s.readers[reader :=
        if link.To? && r.goal.Passes(s.nodes[link.node].key) then Walking(r.goal, link.node, r.level)
        else if r.level > 0 then Walking(r.goal, r.x, r.level - 1)
        else Found(r.goal, if r.goal.AtOrAfter? then link else To(r.x))])
  }

  // ------------------------------------------------------------------ the invariant

  /** A node that readers can come to at a level: the head, and every node at each of its
      levels, except that the node being inserted is linked only below the writer's level. */
  predicate Linked(s: State, n: nat, level: nat) {
    HasLink(s, n, level) && (s.writer.Linking? && n == s.writer.node ==> level < s.writer.i)
  }

  /** A node comes strictly before a key; the head comes before every key. */
  predicate Below(s: State, n: nat, key: Key)
    requires n < |s.nodes|
  {
    n == HEAD || s.nodes[n].key < key
  }

  /** A link leads to the next linked node of its level. */
  ghost predicate Adjacent(s: State, n: nat, level: nat)
    requires HasLink(s, n, level)
  {
    match LinkOf(s, n, level)
    case Null => forall m :: m > 0 && Linked(s, m, level) ==> !Below(s, n, s.nodes[m].key)
    case To(t) =>
      && t > 0 && Linked(s, t, level) && Below(s, n, s.nodes[t].key)
      && forall m :: m > 0 && Linked(s, m, level) && Below(s, n, s.nodes[m].key) ==> s.nodes[t].key <= s.nodes[m].key
  }

  /** Node p is the last one of its level before a key that is not in the list. */
  ghost predicate Bracket(s: State, p: nat, level: nat, key: Key) {
    Linked(s, p, level) && Below(s, p, key) &&
    (LinkOf(s, p, level).To? ==> LinkOf(s, p, level).node < |s.nodes| && key < s.nodes[LinkOf(s, p, level).node].key)
  }

  ghost predicate NodesOk(s: State) {
    && |s.nodes| > 0 && |s.nodes[HEAD].next| == MAX_HEIGHT
    && 1 <= s.maxHeight <= MAX_HEIGHT
    && (forall n :: 0 < n < |s.nodes| ==> 1 <= |s.nodes[n].next| <= s.maxHeight)
    && (forall n, m :: 0 < n < m < |s.nodes| ==> s.nodes[n].key != s.nodes[m].key)
  }

  ghost predicate WriterOk(s: State) {
    match s.writer
    case Idle => true
    case Finding(key, x, level, prev) =>
      && FreshKey(s, key) && |prev| == MAX_HEIGHT && level < s.maxHeight
      && Linked(s, x, level) && Below(s, x, key)
      && forall l :: level < l < MAX_HEIGHT ==> Bracket(s, prev[l], l, key)
    case Ready(key, prev) =>
      FreshKey(s, key) && |prev| == MAX_HEIGHT && forall l :: 0 <= l < MAX_HEIGHT ==> Bracket(s, prev[l], l, key)
    case Linking(node, prev, i, ownSet) =>
      && |prev| == MAX_HEIGHT && 0 < node < |s.nodes| && i < |s.nodes[node].next| <= MAX_HEIGHT
      && (forall l :: i <= l < MAX_HEIGHT ==> Bracket(s, prev[l], l, s.nodes[node].key))
      && (ownSet ==> LinkOf(s, node, i) == LinkOf(s, prev[i], i))
  }

  /** A reader that walks stands on a node linked at its level which its goal lets it pass. */
  predicate ReaderOk(s: State, r: Search) {
    r.Walking? ==> Linked(s, r.x, r.level) && (r.x == HEAD || r.goal.Passes(s.nodes[r.x].key))
  }

  ghost predicate Inv(s: State) {
    && NodesOk(s) && WriterOk(s)
    && (forall n, level :: Linked(s, n, level) ==> Adjacent(s, n, level))
    && (forall r :: r in s.readers ==> ReaderOk(s, s.readers[r]))
  }

  lemma InitInv()
    ensures Inv(Init())
  {
  }

  /** A step that is enabled touches only links that exist. */
  lemma EnabledIsDefined(s: State, e: Event)
    requires Inv(s) && Enabled(s, e)
    ensures Defined(s, e)
  {
    match e
    case FindStep =>
      assert Adjacent(s, s.writer.x, s.writer.level);
    case SetOwnLink =>
      assert Bracket(s, s.writer.prev[s.writer.i], s.writer.i, s.nodes[s.writer.node].key);
    case Publish =>
      assert Bracket(s, s.writer.prev[s.writer.i], s.writer.i, s.nodes[s.writer.node].key);
    case SearchStep(reader) =>
      assert ReaderOk(s, s.readers[reader]);
      assert Adjacent(s, s.readers[reader].x, s.readers[reader].level);
    case _ =>
  }

  // ------------------------------------------------------------ steps keep the invariant

  /** A level with no linked node but the head starts a search with the right predecessor. */
  lemma EmptyLevel(s: State, level: nat, key: Key)
    requires Inv(s) && s.maxHeight <= level < MAX_HEIGHT
    ensures Bracket(s, HEAD, level, key)
  {
    assert Linked(s, HEAD, level) && Adjacent(s, HEAD, level);
  }

  lemma BeginInsertKeepsInv(s: State, key: Key)
    requires Inv(s) && Enabled(s, BeginInsert(key))
    ensures Inv(Next(s, BeginInsert(key)))
  {
    var s' := Next(s, BeginInsert(key));
    SameLinks(s, s');
    forall l | s.maxHeight - 1 < l < MAX_HEIGHT ensures Bracket(s', HEAD, l, key) {
      EmptyLevel(s, l, key);
    }
  }

  /** A step that stores no link and finishes no insertion. */
  lemma SameLinks(s: State, s': State)
    requires s'.nodes == s.nodes
    requires !s.writer.Linking? && !s'.writer.Linking?
    ensures forall n, l :: Linked(s', n, l) == Linked(s, n, l)
    ensures forall n, l :: HasLink(s, n, l) ==> Adjacent(s', n, l) == Adjacent(s, n, l)
    ensures forall p, l, key :: Bracket(s, p, l, key) == Bracket(s', p, l, key)
    ensures forall r :: ReaderOk(s, r) == ReaderOk(s', r)
  {
    forall n, l | HasLink(s, n, l) ensures Adjacent(s', n, l) == Adjacent(s, n, l) {
      assert LinkOf(s, n, l) == LinkOf(s', n, l);
    }
  }

  lemma FindStepKeepsInv(s: State)
    requires Inv(s) && Enabled(s, FindStep) && Defined(s, FindStep)
    ensures Inv(Next(s, FindStep))
  {
    var s' := Next(s, FindStep);
    var w := s.writer;
    SameLinks(s, s');
    assert Adjacent(s, w.x, w.level);
    var link := LinkOf(s, w.x, w.level);
    if !(link.To? && s.nodes[link.node].key < w.key) {
      assert Bracket(s, w.x, w.level, w.key);
    }
  }

  lemma MakeNodeKeepsInv(s: State, height: nat)
    requires Inv(s) && Enabled(s, MakeNode(height))
    ensures Inv(Next(s, MakeNode(height)))
  {
    var s' := Next(s, MakeNode(height));
    forall n, l ensures Linked(s', n, l) == Linked(s, n, l) {
    }
    forall n, l | Linked(s', n, l) ensures Adjacent(s', n, l) {
      assert Adjacent(s, n, l);
    }
    forall l | 0 <= l < MAX_HEIGHT ensures Bracket(s', s.writer.prev[l], l, s.writer.key) {
      assert Bracket(s, s.writer.prev[l], l, s.writer.key);
    }
    forall r | r in s'.readers ensures ReaderOk(s', s'.readers[r]) {
      assert ReaderOk(s, s.readers[r]);
    }
  }

  /** One store changed one link and nothing else. */
  ghost predicate Stored(s: State, s': State, x: nat, level: nat, link: Link) {
    && HasLink(s, x, level) && |s'.nodes| == |s.nodes| && s'.maxHeight == s.maxHeight && s'.readers == s.readers
    && (forall n :: 0 <= n < |s.nodes| ==> s'.nodes[n].key == s.nodes[n].key && |s'.nodes[n].next| == |s.nodes[n].next|)
    && (forall n, l :: HasLink(s', n, l) == HasLink(s, n, l))
    && LinkOf(s', x, level) == link
    && (forall n, l :: HasLink(s, n, l) && !(n == x && l == level) ==> LinkOf(s', n, l) == LinkOf(s, n, l))
  }

  lemma OwnLinkStored(s: State)
    requires Inv(s) && Enabled(s, SetOwnLink) && Defined(s, SetOwnLink)
    ensures var w := s.writer; var s' := Next(s, SetOwnLink);
      && Stored(s, s', w.node, w.i, LinkOf(s, w.prev[w.i], w.i))
      && forall n, l :: Linked(s', n, l) == Linked(s, n, l)
  {
  }

  lemma SetOwnLinkKeepsInv(s: State)
    requires Inv(s) && Enabled(s, SetOwnLink) && Defined(s, SetOwnLink)
    ensures Inv(Next(s, SetOwnLink))
  {
    hide SetLink, Adjacent;
    var s' := Next(s, SetOwnLink);
    var w := s.writer;
    OwnLinkStored(s);
    forall n, l | Linked(s', n, l) ensures Adjacent(s', n, l) {
      AdjacentUnchanged(s, s', n, l, w.node, w.i, LinkOf(s, w.prev[w.i], w.i));
    }
    forall l | w.i <= l < MAX_HEIGHT ensures Bracket(s', w.prev[l], l, s.nodes[w.node].key) {
      assert Bracket(s, w.prev[l], l, s.nodes[w.node].key);
    }
    forall r | r in s'.readers ensures ReaderOk(s', s'.readers[r]) {
      assert ReaderOk(s, s.readers[r]);
    }
  }

  lemma AdjacentUnchanged(s: State, s': State, n: nat, l: nat, x: nat, level: nat, link: Link)
    requires Stored(s, s', x, level, link) && !(n == x && l == level)
    requires forall m, k :: Linked(s', m, k) == Linked(s, m, k)
    requires Linked(s, n, l) && Adjacent(s, n, l)
    ensures Adjacent(s', n, l)
  {
  }

  /** Publishing makes the new node linked at one more level. */
  lemma PublishFacts(s: State)
    requires Inv(s) && Enabled(s, Publish) && Defined(s, Publish)
    ensures var s' := Next(s, Publish); var w := s.writer; var p := w.prev[w.i];
      && Stored(s, s', p, w.i, To(w.node)) && p != w.node
      && (forall n, l :: Linked(s', n, l) <==> Linked(s, n, l) || (n == w.node && l == w.i))
  {
    assert Bracket(s, s.writer.prev[s.writer.i], s.writer.i, s.nodes[s.writer.node].key);
  }

  lemma PublishKeepsInv(s: State)
    requires Inv(s) && Enabled(s, Publish) && Defined(s, Publish)
    ensures Inv(Next(s, Publish))
  {
    hide SetLink, Adjacent;
    var s' := Next(s, Publish);
    var w := s.writer;
    PublishFacts(s);
    assert Bracket(s, w.prev[w.i], w.i, s.nodes[w.node].key);
    forall n, l | Linked(s', n, l) ensures Adjacent(s', n, l) {
      assert Linked(s, n, l) ==> Adjacent(s, n, l);
      AdjacentAfterInsert(s, s', w.prev[w.i], w.node, w.i, n, l);
    }
    forall l | w.i < l < MAX_HEIGHT ensures Bracket(s', w.prev[l], l, s.nodes[w.node].key) {
      assert Bracket(s, w.prev[l], l, s.nodes[w.node].key);
    }
    forall r | r in s'.readers ensures ReaderOk(s', s'.readers[r]) {
      assert ReaderOk(s, s.readers[r]);
    }
  }

  /** Linking a node between its neighbours at one level keeps links leading to the next node. */
  lemma AdjacentAfterInsert(s: State, s': State, p: nat, x: nat, level: nat, n: nat, l: nat)
    requires NodesOk(s) && 0 < x < |s.nodes| && HasLink(s, x, level) && !Linked(s, x, level) && p != x
    requires Stored(s, s', p, level, To(x)) && Bracket(s, p, level, s.nodes[x].key) && Adjacent(s, p, level)
    requires LinkOf(s, x, level) == LinkOf(s, p, level)
    requires forall m, k :: Linked(s', m, k) <==> Linked(s, m, k) || (m == x && k == level)
    requires Linked(s', n, l) && (Linked(s, n, l) ==> Adjacent(s, n, l))
    ensures Adjacent(s', n, l)
  {
    if l == level && n != p && n != x && Below(s, n, s.nodes[x].key) {
      assert Linked(s, p, l) && Linked(s, n, l);
      assert n == HEAD || !Below(s, p, s.nodes[n].key);
      assert p != HEAD && Below(s, n, s.nodes[p].key);
    }
  }

  /** A step that moves only readers keeps everything that does not speak of them. */
  lemma ReadersAside(s: State, s': State)
    requires Inv(s) && s' == s.(readers := s'.readers)
    requires forall r :: r in s'.readers ==> (r in s.readers && s'.readers[r] == s.readers[r]) || ReaderOk(s, s'.readers[r])
    ensures Inv(s')
  {
    hide Adjacent;
    forall n, l | Linked(s', n, l) ensures Adjacent(s', n, l) {
      assert Linked(s, n, l);
      SameNodes(s, s', n, l);
    }
    assert WriterOk(s') by {
      forall p, l, key | Bracket(s, p, l, key) ensures Bracket(s', p, l, key) {
      }
    }
    forall r | r in s'.readers ensures ReaderOk(s', s'.readers[r]) {
      assert ReaderOk(s, s'.readers[r]);
    }
  }

  lemma SameNodes(s: State, s': State, n: nat, l: nat)
    requires s'.nodes == s.nodes && s'.writer == s.writer
    requires Linked(s, n, l) && Adjacent(s, n, l)
    ensures Linked(s', n, l) && Adjacent(s', n, l)
  {
    assert forall m, k :: Linked(s', m, k) == Linked(s, m, k);
    assert LinkOf(s', n, l) == LinkOf(s, n, l);
  }

  lemma ReadersKeepInv(s: State, e: Event)
    requires Inv(s) && Enabled(s, e) && Defined(s, e) && (e.BeginSearch? || e.SearchStep?)
    ensures Inv(Next(s, e))
  {
    var s' := Next(s, e);
    if e.SearchStep? {
      var r := s.readers[e.reader];
      assert ReaderOk(s, r) && Adjacent(s, r.x, r.level);
      assert ReaderOk(s, s'.readers[e.reader]);
    } else {
      assert ReaderOk(s, s'.readers[e.reader]);
    }
    ReadersAside(s, s');
  }

  /** Every step keeps the invariant. */
  lemma StepKeepsInv(s: State, e: Event)
    requires Inv(s) && Enabled(s, e)
    ensures Defined(s, e) && Inv(Next(s, e))
  {
    hide Inv, Enabled, Defined, Next;
    EnabledIsDefined(s, e);
    match e
    case BeginInsert(key) => BeginInsertKeepsInv(s, key);
    case FindStep => FindStepKeepsInv(s);
    case MakeNode(height) => MakeNodeKeepsInv(s, height);
    case SetOwnLink => SetOwnLinkKeepsInv(s);
    case Publish => PublishKeepsInv(s);
    case BeginSearch(_, _) => ReadersKeepInv(s, e);
    case SearchStep(_) => ReadersKeepInv(s, e);
  }

  // ------------------------------------------------------------------ what readers see

  /** The keys of the list are those linked at level 0. */
  predicate InList(s: State, n: nat) { n != HEAD && Linked(s, n, 0) }

  /** What a finished search must have found. */
  ghost predicate Exact(s: State, goal: Goal, result: Link) {
    match goal
    case AtOrAfter(target) =>
      (match result
       case Null => forall m: nat :: InList(s, m) ==> s.nodes[m].key < target
       case To(n) => InList(s, n) && target <= s.nodes[n].key &&
                     forall m: nat :: InList(s, m) && target <= s.nodes[m].key ==> s.nodes[n].key <= s.nodes[m].key)
    case _ =>
      result.To? && (result.node == HEAD || (InList(s, result.node) && goal.Passes(s.nodes[result.node].key))) &&
      forall m: nat :: InList(s, m) && goal.Passes(s.nodes[m].key) ==>
        result.node != HEAD && s.nodes[m].key <= s.nodes[result.node].key
  }

  /** A search that finishes has the exact answer for the list as it is at its last load,
      whatever the writer did during the search. */
  lemma SearchIsExact(s: State, reader: nat)
    requires Inv(s) && Enabled(s, SearchStep(reader))
    ensures Defined(s, SearchStep(reader))
    ensures var r := Next(s, SearchStep(reader)).readers[reader];
      r.goal == s.readers[reader].goal && (r.Found? ==> Exact(s, r.goal, r.result))
  {
    EnabledIsDefined(s, SearchStep(reader));
    var r := s.readers[reader];
    assert ReaderOk(s, r) && Adjacent(s, r.x, r.level);
    if Next(s, SearchStep(reader)).readers[reader].Found? {
      LastLoadDecides(s, r);
    }
  }

  /** At level 0 a reader's node and its successor are the neighbours of the goal. */
  lemma LastLoadDecides(s: State, r: Search)
    requires NodesOk(s) && r.Walking? && r.level == 0 && ReaderOk(s, r) && Adjacent(s, r.x, 0)
    requires var link := LinkOf(s, r.x, 0);
      link.To? && link.node < |s.nodes| ==> !r.goal.Passes(s.nodes[link.node].key)
    ensures Exact(s, r.goal, if r.goal.AtOrAfter? then LinkOf(s, r.x, 0) else To(r.x))
  {
    forall m: nat | InList(s, m) ensures Linked(s, m, 0) && m > 0 && m < |s.nodes| {
    }
  }

  /** The list changes only when the writer publishes its node at level 0, and then by that node. */
  lemma ListGrows(s: State, e: Event)
    requires Inv(s) && Enabled(s, e) && Defined(s, e)
    ensures forall n: nat :: InList(Next(s, e), n) <==> InList(s, n) || (e.Publish? && s.writer.i == 0 && n == s.writer.node)
    ensures forall n: nat :: InList(s, n) ==> n < |Next(s, e).nodes| && Next(s, e).nodes[n].key == s.nodes[n].key
  {
    match e
    case Publish => PublishFacts(s);
    case SetOwnLink => OwnLinkStored(s);
    case _ =>
  }

  // ----------------------------------------------------------------------------- runs

  ghost predicate IsRun(run: seq<State>, events: seq<Event>) {
    && |run| == |events| + 1 && run[0] == Init()
    && forall i :: 0 <= i < |events| ==>
      Enabled(run[i], events[i]) && (Defined(run[i], events[i]) ==> run[i + 1] == Next(run[i], events[i]))
  }

  /** Every state of every run satisfies the invariant. */
  lemma {:induction false} RunKeepsInv(run: seq<State>, events: seq<Event>, i: nat)
    requires IsRun(run, events) && i < |run|
    ensures Inv(run[i])
    ensures i < |events| ==> Defined(run[i], events[i]) && run[i + 1] == Next(run[i], events[i])
  {
    hide Inv, Enabled, Defined, Next;
    if i == 0 {
      InitInv();
    } else {
      RunKeepsInv(run, events, i - 1);
      StepKeepsInv(run[i - 1], events[i - 1]);
    }
    if i < |events| {
      EnabledIsDefined(run[i], events[i]);
    }
  }

  /** Keys stay in the list. */
  lemma {:induction false} ListOnlyGrows(run: seq<State>, events: seq<Event>, i: nat, j: nat, n: nat)
    requires IsRun(run, events) && i <= j < |run| && InList(run[i], n)
    ensures InList(run[j], n) && n < |run[i].nodes| && n < |run[j].nodes| && run[j].nodes[n].key == run[i].nodes[n].key
    decreases j - i
  {
    hide Inv, Enabled, Defined, Next;
    if i < j {
      RunKeepsInv(run, events, j - 1);
      ListOnlyGrows(run, events, i, j - 1, n);
      ListGrows(run[j - 1], events[j - 1]);
    }
  }

  /** A search under way keeps its goal. */
  lemma {:induction false} GoalStays(run: seq<State>, events: seq<Event>, i: nat, j: nat, reader: nat)
    requires IsRun(run, events) && i <= j < |run|
    requires forall k :: i <= k <= j ==> reader in run[k].readers && run[k].readers[reader].Walking?
    ensures run[j].readers[reader].goal == run[i].readers[reader].goal
    decreases j - i
  {
    hide Inv;
    if i < j {
      RunKeepsInv(run, events, j - 1);
      GoalStays(run, events, i, j - 1, reader);
    }
  }

  /** In every run: a search that starts at step i and finishes at step j has the exact answer
      for the list at step j, and no key that was there when it started is missed. */
  lemma ConcurrentSeek(run: seq<State>, events: seq<Event>, i: nat, j: nat, reader: nat, target: Key)
    requires IsRun(run, events) && i < j < |events|
    requires events[i] == BeginSearch(reader, AtOrAfter(target)) && events[j] == SearchStep(reader)
    requires forall k :: i < k <= j ==> reader in run[k].readers && run[k].readers[reader].Walking?
    requires reader in run[j + 1].readers && run[j + 1].readers[reader].Found?
    ensures Exact(run[j], AtOrAfter(target), run[j + 1].readers[reader].result)
    ensures var r := run[j + 1].readers[reader].result;
      forall n: nat :: InList(run[i], n) && target <= run[i].nodes[n].key ==>
        r.To? && r.node < |run[j].nodes| && run[j].nodes[r.node].key <= run[i].nodes[n].key
  {
    hide Inv;
    RunKeepsInv(run, events, i);
    RunKeepsInv(run, events, j);
    GoalStays(run, events, i + 1, j, reader);
    SearchIsExact(run[j], reader);
    forall n: nat | InList(run[i], n) && target <= run[i].nodes[n].key
      ensures InList(run[j], n) && run[j].nodes[n].key == run[i].nodes[n].key
    {
      ListOnlyGrows(run, events, i, j, n);
    }
  }

  // ---------------------------------------------------------------------- level lists

  /** The nodes linked at a level after a node. */
  ghost function Rest(s: State, n: nat, level: nat): set<nat>
    requires n < |s.nodes|
  {
    set m | 0 < m < |s.nodes| && Linked(s, m, level) && Below(s, n, s.nodes[m].key)
  }

  lemma RestShrinks(s: State, n: nat, level: nat)
    requires Inv(s) && Linked(s, n, level) && LinkOf(s, n, level).To?
    ensures var t := LinkOf(s, n, level).node;
      && 0 < t < |s.nodes| && Linked(s, t, level)
      && Rest(s, n, level) == {t} + Rest(s, t, level) && t !in Rest(s, t, level)
      && |Rest(s, t, level)| < |Rest(s, n, level)|
  {
    assert Adjacent(s, n, level);
    var t := LinkOf(s, n, level).node;
    assert Rest(s, n, level) == {t} + Rest(s, t, level);
  }

  lemma NothingRests(s: State, n: nat, level: nat)
    requires Inv(s) && Linked(s, n, level) && LinkOf(s, n, level).Null?
    ensures Rest(s, n, level) == {}
  {
    assert Adjacent(s, n, level);
  }

  /** The nodes met by following the links of a level from a node. */
  ghost function Walk(s: State, n: nat, level: nat): seq<nat>
    requires Inv(s) && Linked(s, n, level)
    decreases |Rest(s, n, level)|
  {
    if LinkOf(s, n, level).Null? then []
    else
      RestShrinks(s, n, level);
      var t := LinkOf(s, n, level).node;
      [t] + Walk(s, t, level)
  }

  ghost predicate Ascending(s: State, ns: seq<nat>) {
    (forall i :: 0 <= i < |ns| ==> 0 < ns[i] < |s.nodes|) &&
    forall i, j :: 0 <= i < j < |ns| ==> s.nodes[ns[i]].key < s.nodes[ns[j]].key
  }

  /** Following links meets exactly the nodes linked at the level, in key order. */
  lemma {:induction false} WalkIsLevel(s: State, n: nat, level: nat)
    requires Inv(s) && Linked(s, n, level)
    ensures Ascending(s, Walk(s, n, level))
    ensures forall m :: m in Walk(s, n, level) <==> m in Rest(s, n, level)
    decreases |Rest(s, n, level)|
  {
    hide Inv, Adjacent;
    if LinkOf(s, n, level).Null? {
      NothingRests(s, n, level);
    } else {
      RestShrinks(s, n, level);
      var t := LinkOf(s, n, level).node;
      WalkIsLevel(s, t, level);
      var rest := Walk(s, t, level);
      assert Walk(s, n, level) == [t] + rest;
      forall i | 0 <= i < |rest| ensures s.nodes[t].key < s.nodes[rest[i]].key {
        assert rest[i] in Rest(s, t, level);
      }
    }
  }

  ghost predicate Subsequence(a: seq<nat>, b: seq<nat>) {
    a == [] || (b != [] && if a[0] == b[0] then Subsequence(a[1..], b[1..]) else Subsequence(a, b[1..]))
  }

  lemma {:induction false} AscendingSubsequence(s: State, a: seq<nat>, b: seq<nat>)
    requires Ascending(s, a) && Ascending(s, b) && forall m :: m in a ==> m in b
    ensures Subsequence(a, b)
    decreases |b|
  {
    if a != [] {
      FrontsOf(s, a, b);
      hide Ascending;
      AscendingSubsequence(s, if a[0] == b[0] then a[1..] else a, b[1..]);
    }
  }

  lemma FrontsOf(s: State, a: seq<nat>, b: seq<nat>)
    requires Ascending(s, a) && Ascending(s, b) && (forall m :: m in a ==> m in b) && a != []
    ensures b != [] && Ascending(s, a[1..]) && Ascending(s, b[1..])
    ensures forall m :: m in (if a[0] == b[0] then a[1..] else a) ==> m in b[1..]
  {
    assert a[0] in b;
    var c := if a[0] == b[0] then a[1..] else a;
    forall m | m in c ensures m in b[1..] {
      var i :| 0 <= i < |c| && c[i] == m;
      assert a[if a[0] == b[0] then i + 1 else i] == m && m in a;
      var j :| 0 <= j < |b| && b[j] == m;
      var k :| 0 <= k < |b| && b[k] == a[0];
      assert j > 0 && b[1..][j - 1] == m;
    }
  }

  /** In every state that can be reached, also between the stores of an insertion, each level
      is a sorted subsequence of the level below it. */
  lemma LevelsNest(s: State, level: nat)
    requires Inv(s) && level + 1 < MAX_HEIGHT
    ensures Linked(s, HEAD, level) && Linked(s, HEAD, level + 1)
    ensures Ascending(s, Walk(s, HEAD, level)) && Subsequence(Walk(s, HEAD, level + 1), Walk(s, HEAD, level))
  {
    HeadIsLinked(s, level);
    HeadIsLinked(s, level + 1);
    hide *;
    RestNests(s, level);
    WalkIsLevel(s, HEAD, level);
    WalkIsLevel(s, HEAD, level + 1);
    AscendingSubsequence(s, Walk(s, HEAD, level + 1), Walk(s, HEAD, level));
  }

  lemma HeadIsLinked(s: State, level: nat)
    requires Inv(s) && level < MAX_HEIGHT
    ensures HEAD < |s.nodes| && Linked(s, HEAD, level)
  {
    hide Adjacent;
    assert s.writer.Linking? ==> s.writer.node != HEAD;
  }

  lemma RestNests(s: State, level: nat)
    requires HEAD < |s.nodes|
    ensures Rest(s, HEAD, level + 1) <= Rest(s, HEAD, level)
  {
  }
}
