/** The merging iterator agrees with a cursor over the sorted union of its children. */
module MergingIterator {
  import opened DbFormat
  import opened Cursors

  datatype Direction = Forward | Reverse

  /** The first k entries of a run are the entries it has among the first p of all. */
  ghost predicate CutAt(all: seq<Entry>, es: seq<Entry>, k: nat, p: nat) {
    k <= |es| && forall j, q :: 0 <= j < |es| && 0 <= q < |all| && es[j] == all[q] ==> (j < k <==> q < p)
  }

  /** all is the sorted union of the runs, and no entry is in two of them. */
  ghost predicate IsUnion(all: seq<Entry>, runs: seq<seq<Entry>>) {
    && Sorted(all)
    && (forall i :: 0 <= i < |runs| ==> Sorted(runs[i]))
    && (forall i, j :: 0 <= i < |runs| && 0 <= j < |runs[i]| ==> runs[i][j] in all)
    && (forall q :: 0 <= q < |all| ==> exists i :: 0 <= i < |runs| && all[q] in runs[i])
    && (forall i, j, e :: 0 <= i < j < |runs| && e in runs[i] ==> e !in runs[j])
  }

  lemma IndexOrder(all: seq<Entry>, p: nat, q: nat)
    requires Sorted(all) && p < |all| && q < |all|
    ensures p < q <==> Before(all[p].key, all[q].key)
    ensures all[p] == all[q] <==> p == q
  {
    assert p < q ==> Precedes(all[p], all[q]);
    assert q < p ==> Precedes(all[q], all[p]);
  }

  lemma IndexOf(es: seq<Entry>, e: Entry) returns (i: nat)
    requires e in es
    ensures i < |es| && es[i] == e
  {
    i :| 0 <= i < |es| && es[i] == e;
  }

  ghost predicate RunOf(all: seq<Entry>, es: seq<Entry>) {
    Sorted(all) && Sorted(es) && forall j :: 0 <= j < |es| ==> es[j] in all
  }

  lemma SeekIndexIff(es: seq<Entry>, target: InternalKey, j: nat)
    requires Sorted(es) && j < |es|
    ensures j < SeekIndex(es, target) <==> Before(es[j].key, target)
  {
    var k := SeekIndex(es, target);
    if k < j {
      assert Precedes(es[k], es[j]);
    }
  }

  /** Seeking a run and seeking the union to the same target cut at the same place. */
  lemma SeekCuts(all: seq<Entry>, es: seq<Entry>, target: InternalKey)
    requires RunOf(all, es)
    ensures CutAt(all, es, SeekIndex(es, target), SeekIndex(all, target))
  {
    forall j, q | 0 <= j < |es| && 0 <= q < |all| && es[j] == all[q]
      ensures j < SeekIndex(es, target) <==> q < SeekIndex(all, target)
    {
      SeekIndexIff(es, target, j);
      SeekIndexIff(all, target, q);
    }
  }

  lemma SeekSelf(all: seq<Entry>, at: nat)
    requires Sorted(all) && at < |all|
    ensures SeekIndex(all, all[at].key) == at
  {
    var p := SeekIndex(all, all[at].key);
    if p < at {
      IndexOrder(all, p, at);
    }
  }

  /** If every run is cut at p, the run that holds all[p] has it right at its cut. */
  lemma HeadOfCut(all: seq<Entry>, es: seq<Entry>, k: nat, p: nat)
    requires RunOf(all, es) && CutAt(all, es, k, p) && p < |all| && all[p] in es
    ensures k < |es| && es[k] == all[p]
  {
    var j := IndexOf(es, all[p]);
    var q := IndexOf(all, es[k]);
    if k < j {
      assert Precedes(es[k], es[j]);
      IndexOrder(all, p, q);
    }
  }

  lemma LastOfCut(all: seq<Entry>, es: seq<Entry>, k: nat, p: nat)
    requires RunOf(all, es) && CutAt(all, es, k, p) && 0 < p <= |all| && all[p - 1] in es
    ensures k > 0 && es[k - 1] == all[p - 1]
  {
    var j := IndexOf(es, all[p - 1]);
    var q := IndexOf(all, es[k - 1]);
    if j < k - 1 {
      assert Precedes(es[j], es[k - 1]);
      IndexOrder(all, p - 1, q);
    }
  }

  class Merger {
    const children: seq<Cursor>
    ghost const all: seq<Entry>
    var current: nat        // index of the current child, |children| when there is none
    var direction: Direction
    ghost var at: nat       // position in all, |all| when not valid

    function Runs(): seq<seq<Entry>> {
      seq(|children|, i requires 0 <= i < |children| => children[i].es)
    }

    predicate Valid() reads this { current < |children| }

    ghost predicate Shape() {
      && IsUnion(all, Runs())
      && (forall i, j :: 0 <= i < j < |children| ==> children[i] != children[j])
    }

    /** Number of entries of child i at or before its position. */
    ghost function Upper(i: nat): nat
      requires i < |children|
      reads children
    {
      if children[i].pos < |children[i].es| then children[i].pos + 1 else 0
    }

    ghost predicate CurrentAt(p: nat) reads this, children {
      && current < |children| && p < |all|
      && children[current].Valid() && children[current].es[children[current].pos] == all[p]
    }

    ghost predicate ForwardAt(p: nat) reads children {
      forall i :: 0 <= i < |children| ==> CutAt(all, children[i].es, children[i].pos, p)
    }

    ghost predicate ReverseAt(p: nat) reads children {
      forall i :: 0 <= i < |children| ==> CutAt(all, children[i].es, Upper(i), p)
    }

    ghost predicate Inv() reads this, children {
      && Shape() && current <= |children| && at <= |all| && (Valid() <==> at < |all|)
      && (Valid() ==> CurrentAt(at))
      && (Valid() && direction.Forward? ==> ForwardAt(at))
      && (Valid() && direction.Reverse? ==>
            forall i :: 0 <= i < |children| && i != current ==> CutAt(all, children[i].es, Upper(i), at))
    }

    constructor (children: seq<Cursor>, ghost all: seq<Entry>)
      requires IsUnion(all, seq(|children|, i requires 0 <= i < |children| => children[i].es))
      requires forall i, j :: 0 <= i < j < |children| ==> children[i] != children[j]
      ensures Inv() && !Valid() && this.children == children && this.all == all
    {
      this.children, this.all := children, all;
      current, direction, at := |children|, Forward, |all|;
    }

    lemma IsRun(i: nat)
      requires Shape() && i < |children|
      ensures RunOf(all, children[i].es)
    {
      assert Runs()[i] == children[i].es;
    }

    function Key(): InternalKey
      requires Inv() && Valid()
      reads this, children
    {
      children[current].es[children[current].pos].key
    }

    /** The merger is where a cursor over the union would be. */
    lemma ShowsUnion()
      requires Inv() && Valid()
      ensures Key() == all[at].key && children[current].es[children[current].pos] == all[at]
    {
    }

    lemma HolderOf(q: nat) returns (i: nat)
      requires Shape() && q < |all|
      ensures i < |children| && all[q] in children[i].es
      ensures forall j :: 0 <= j < |children| && j != i ==> all[q] !in children[j].es
    {
      assert all[q] == all[q];
      i :| 0 <= i < |Runs()| && all[q] in Runs()[i];
      forall j | 0 <= j < |children| && j != i ensures all[q] !in children[j].es {
        assert Runs()[j] == children[j].es;
      }
    }

    function Head(i: nat): InternalKey
      requires i < |children| && children[i].Valid()
      reads children
    {
      children[i].es[children[i].pos].key
    }

    /** c is the valid child with the smallest head among the children from..to, if any is valid. */
    ghost predicate SmallestAmong(c: nat, from: nat, to: nat) reads children {
      && (c < |children| ==> children[c].Valid())
      && forall j :: from <= j < to && j < |children| && children[j].Valid() ==>
           c < |children| && !Before(Head(j), Head(c))
    }

    ghost predicate LargestAmong(c: nat, from: nat, to: nat) reads children {
      && (c < |children| ==> children[c].Valid())
      && forall j :: from <= j < to && j < |children| && children[j].Valid() ==>
           c < |children| && !Before(Head(c), Head(j))
    }

    method FindSmallest(ghost p: nat)
      requires Shape() && p <= |all| && ForwardAt(p)
      modifies this`current, this`at
      ensures current <= |children| && at == p && ForwardAt(p)
      ensures Valid() <==> p < |all|
      ensures Valid() ==> children[current].Valid() && children[current].es[children[current].pos] == all[p]
    {
      hide IsUnion, CutAt, Sorted;
      var smallest: nat := |children|;
      for i := 0 to |children|
        invariant smallest == |children| || smallest < i
        invariant SmallestAmong(smallest, 0, i)
      {
        if children[i].Valid() {
          if smallest == |children| {
            smallest := i;
          } else if Before(Head(i), Head(smallest)) {
            smallest := i;
          }
        }
      }
      if smallest < |children| {
        ghost var q := HeadIsLater(smallest, p);
      }
      if p < |all| {
        LeastHead(smallest, p);
      }
      current, at := smallest, p;
    }

    lemma HeadIsLater(i: nat, p: nat) returns (q: nat)
      requires Shape() && i < |children| && children[i].Valid() && ForwardAt(p)
      ensures p <= q < |all| && all[q] == children[i].es[children[i].pos]
    {
      IsRun(i);
      q := IndexOf(all, children[i].es[children[i].pos]);
      assert CutAt(all, children[i].es, children[i].pos, p);
    }

    lemma LeastHead(smallest: nat, p: nat)
      requires Shape() && p < |all| && ForwardAt(p) && smallest <= |children|
      requires SmallestAmong(smallest, 0, |children|)
      ensures smallest < |children| && children[smallest].es[children[smallest].pos] == all[p]
    {
      var i := HolderOf(p);
      IsRun(i);
      HeadOfCut(all, children[i].es, children[i].pos, p);
      var q := HeadIsLater(smallest, p);
      IndexOrder(all, p, q);
    }

    method FindLargest(ghost p: nat)
      requires Shape() && p <= |all| && ReverseAt(p)
      modifies this`current, this`at
      ensures current <= |children| && at == if p > 0 then p - 1 else |all|
      ensures Valid() <==> p > 0
      ensures Valid() ==> children[current].Valid() && children[current].es[children[current].pos] == all[p - 1]
    {
      hide IsUnion, CutAt, Sorted;
      var largest: nat := |children|;
      var i: nat := |children|;
      while i > 0
        invariant i <= |children|
        invariant largest == |children| || i <= largest
        invariant largest <= |children|
        invariant LargestAmong(largest, i, |children|)
      {
        i := i - 1;
        if children[i].Valid() {
          if largest == |children| {
            largest := i;
          } else if Before(Head(largest), Head(i)) {
            largest := i;
          }
        }
      }
      if largest < |children| {
        ghost var q := HeadIsEarlier(largest, p);
      }
      if p > 0 {
        GreatestHead(largest, p);
      }
      current, at := largest, if p > 0 then p - 1 else |all|;
    }

    lemma HeadIsEarlier(i: nat, p: nat) returns (q: nat)
      requires Shape() && i < |children| && children[i].Valid() && ReverseAt(p)
      ensures q < p && q < |all| && all[q] == children[i].es[children[i].pos]
    {
      IsRun(i);
      q := IndexOf(all, children[i].es[children[i].pos]);
      assert CutAt(all, children[i].es, Upper(i), p);
    }

    lemma GreatestHead(largest: nat, p: nat)
      requires Shape() && 0 < p <= |all| && ReverseAt(p) && largest <= |children|
      requires LargestAmong(largest, 0, |children|)
      ensures largest < |children| && children[largest].es[children[largest].pos] == all[p - 1]
    {
      var i := HolderOf(p - 1);
      IsRun(i);
      LastOfCut(all, children[i].es, Upper(i), p);
      var q := HeadIsEarlier(largest, p);
      IndexOrder(all, q, p - 1);
    }

    method SeekToFirst()
      requires Inv()
      modifies this, children
      ensures Inv() && at == 0
    {
      for i := 0 to |children|
        invariant Shape() && forall j :: 0 <= j < i ==> children[j].pos == 0
      {
        children[i].SeekToFirst();
      }
      FindSmallest(0);
      direction := Forward;
    }

    method SeekToLast()
      requires Inv()
      modifies this, children
      ensures Inv() && at == if all == [] then 0 else |all| - 1
    {
      for i := 0 to |children|
        invariant Shape() && forall j :: 0 <= j < i ==> Upper(j) == |children[j].es|
      {
        children[i].SeekToLast();
      }
      FindLargest(|all|);
      direction := Reverse;
      LargestKeepsCuts(|all|);
    }

    /** In reverse, the other children stay cut before the entry the merger moved to. */
    lemma LargestKeepsCuts(p: nat)
      requires Shape() && p <= |all| && ReverseAt(p) && current <= |children|
      requires Valid() ==> p > 0 && at == p - 1 && children[current].Valid()
      requires Valid() ==> children[current].es[children[current].pos] == all[at]
      ensures Valid() ==> forall i :: 0 <= i < |children| && i != current ==> CutAt(all, children[i].es, Upper(i), at)
    {
      if Valid() {
        var h := HolderOf(at);
        assert all[at] in children[current].es;
      }
    }

    method Seek(target: InternalKey)
      requires Inv()
      modifies this, children
      ensures Inv() && at == SeekIndex(all, target)
    {
      for i := 0 to |children|
        invariant Shape() && forall j :: 0 <= j < i ==> children[j].pos == SeekIndex(children[j].es, target)
      {
        children[i].Seek(target);
      }
      forall i | 0 <= i < |children| ensures CutAt(all, children[i].es, children[i].pos, SeekIndex(all, target)) {
        IsRun(i);
        SeekCuts(all, children[i].es, target);
      }
      FindSmallest(SeekIndex(all, target));
      direction := Forward;
    }

    /** Positions every other child at its first entry after the current key. */
    method PositionAfter(ghost p: nat)
      requires Shape() && CurrentAt(p)
      modifies children
      ensures CurrentAt(p) && children[current].pos == old(children[current].pos)
      ensures forall j :: 0 <= j < |children| && j != current ==> CutAt(all, children[j].es, children[j].pos, p)
    {
      hide IsUnion, CutAt, Sorted;
      var key := Head(current);
      for i := 0 to |children|
        invariant Shape() && CurrentAt(p) && key == all[p].key
        invariant children[current].pos == old(children[current].pos)
        invariant forall j :: 0 <= j < i && j != current ==> CutAt(all, children[j].es, children[j].pos, p)
      {
        var child := children[i];
        if i != current {
          child.Seek(key);
          OtherChild(i, p);
          if child.Valid() && child.es[child.pos].key == key {
            // The keys of the children are distinct.
            assert false;
          }
        }
      }
    }

    /** Positions every other child at its last entry before the current key. */
    method PositionBefore(ghost p: nat)
      requires Shape() && CurrentAt(p)
      modifies children
      ensures CurrentAt(p) && children[current].pos == old(children[current].pos)
      ensures forall j :: 0 <= j < |children| && j != current ==> CutAt(all, children[j].es, Upper(j), p)
    {
      hide IsUnion, CutAt, Sorted;
      var key := Head(current);
      for i := 0 to |children|
        invariant Shape() && CurrentAt(p) && key == all[p].key
        invariant children[current].pos == old(children[current].pos)
        invariant forall j :: 0 <= j < i && j != current ==> CutAt(all, children[j].es, Upper(j), p)
      {
        var child := children[i];
        if i != current {
          child.Seek(key);
          OtherChild(i, p);
          if child.Valid() {
            child.Prev();
          } else {
            child.SeekToLast();
          }
        }
      }
    }

    method Next()
      requires Inv() && Valid()
      modifies this, children
      ensures Inv() && at == old(at) + 1
    {
      hide IsUnion, CutAt, Sorted;
      ghost var p := at;
      if direction.Reverse? {
        PositionAfter(p);
        direction := Forward;
        CurrentIsCut(p);
      }
      children[current].Next();
      AdvanceCuts(p);
      FindSmallest(p + 1);
    }

    /** A child sought to the current key of another child. */
    lemma OtherChild(i: nat, p: nat)
      requires Shape() && CurrentAt(p) && i < |children| && i != current
      requires children[i].pos == SeekIndex(children[i].es, all[p].key)
      ensures CutAt(all, children[i].es, children[i].pos, p)
      ensures children[i].Valid() ==> children[i].es[children[i].pos].key != all[p].key
    {
      IsRun(i);
      SeekCuts(all, children[i].es, all[p].key);
      SeekSelf(all, p);
      if children[i].Valid() {
        var e := children[i].es[children[i].pos];
        var h := HolderOf(p);
        assert all[p] in children[current].es && e in children[i].es;
        var q := IndexOf(all, e);
        IndexOrder(all, p, q);
        IndexOrder(all, q, p);
      }
    }

    lemma CurrentIsCut(p: nat)
      requires Shape() && CurrentAt(p)
      ensures CutAt(all, children[current].es, children[current].pos, p)
    {
      IsRun(current);
      var es, k := children[current].es, children[current].pos;
      forall j, q | 0 <= j < |es| && 0 <= q < |all| && es[j] == all[q] ensures j < k <==> q < p {
        IndexOrder(all, p, q);
        IndexOrder(es, j, k);
        IndexOrder(all, q, p);
      }
    }

    /** After the current child steps on, every child is cut one entry further. */
    lemma AdvanceCuts(p: nat)
      requires Shape() && p < |all| && current < |children|
      requires 0 < children[current].pos <= |children[current].es|
      requires children[current].es[children[current].pos - 1] == all[p]
      requires CutAt(all, children[current].es, children[current].pos - 1, p)
      requires forall i :: 0 <= i < |children| && i != current ==> CutAt(all, children[i].es, children[i].pos, p)
      ensures ForwardAt(p + 1)
    {
      var h := HolderOf(p);
      assert all[p] in children[current].es;
      IsRun(current);
      var es, k := children[current].es, children[current].pos;
      forall j, q | 0 <= j < |es| && 0 <= q < |all| && es[j] == all[q] ensures j < k <==> q < p + 1 {
        IndexOrder(es, j, k - 1);
        IndexOrder(all, q, p);
      }
    }

    method StepBack(ghost p: nat)
      requires Shape() && CurrentAt(p) && CutAt(all, children[current].es, children[current].pos, p)
      requires forall j :: 0 <= j < |children| && j != current ==> CutAt(all, children[j].es, Upper(j), p)
      modifies children
      ensures ReverseAt(p)
    {
      hide IsUnion, CutAt, Sorted;
      ghost var k := children[current].pos;
      children[current].Prev();
      assert Upper(current) == k;
    }

    method Prev()
      requires Inv() && Valid()
      modifies this, children
      ensures Inv() && at == if old(at) == 0 then |all| else old(at) - 1
    {
      hide IsUnion, CutAt, Sorted;
      ghost var p := at;
      if direction.Forward? {
        PositionBefore(p);
        direction := Reverse;
      }
      CurrentIsCut(p);
      StepBack(p);
      FindLargest(p);
      LargestKeepsCuts(p);
    }
  }
}
