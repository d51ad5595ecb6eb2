/** The two-level iterator agrees with a cursor over the concatenation of its blocks. */
module TwoLevelIterator {
  import opened DbFormat
  import opened Cursors

  function Flat(blocks: seq<seq<Entry>>): seq<Entry> {
    if blocks == [] then [] else Flat(blocks[..|blocks| - 1]) + blocks[|blocks| - 1]
  }

  /** Where block b starts in the concatenation. */
  function Offset(blocks: seq<seq<Entry>>, b: nat): nat
    requires b <= |blocks|
  {
    |Flat(blocks[..b])|
  }

  lemma OffsetStep(blocks: seq<seq<Entry>>, b: nat)
    requires b < |blocks|
    ensures Offset(blocks, b + 1) == Offset(blocks, b) + |blocks[b]|
  {
    assert blocks[..b + 1][..b] == blocks[..b];
  }

  lemma {:induction false} FlatIndex(blocks: seq<seq<Entry>>, b: nat, j: nat)
    requires b < |blocks| && j < |blocks[b]|
    ensures Offset(blocks, b) + j < |Flat(blocks)| && Flat(blocks)[Offset(blocks, b) + j] == blocks[b][j]
  {
    var front := blocks[..|blocks| - 1];
    if b < |front| {
      FlatIndex(front, b, j);
      assert front[..b] == blocks[..b];
    }
  }

  /** Every position of the concatenation lies in a block. */
  lemma {:induction false} BlockOf(blocks: seq<seq<Entry>>, p: nat) returns (b: nat, j: nat)
    requires p < |Flat(blocks)|
    ensures b < |blocks| && j < |blocks[b]| && p == Offset(blocks, b) + j
  {
    var front := blocks[..|blocks| - 1];
    if p < |Flat(front)| {
      b, j := BlockOf(front, p);
      assert front[..b] == blocks[..b];
    } else {
      b, j := |front|, p - |Flat(front)|;
    }
  }

  lemma SeekIndexIsUnique(es: seq<Entry>, target: InternalKey, p: nat)
    requires p <= |es| && (forall j :: 0 <= j < p ==> Before(es[j].key, target))
    requires p < |es| ==> !Before(es[p].key, target)
    ensures p == SeekIndex(es, target)
  {
  }

  /** The index key of a block is at or after all its entries and before all later ones. */
  ghost predicate IndexSeparates(blocks: seq<seq<Entry>>, bounds: seq<InternalKey>) {
    && |bounds| == |blocks|
    && (forall i, j, e :: 0 <= i <= j < |blocks| && e in blocks[i] ==> !Before(bounds[j], e.key))
    && (forall i, j, e :: 0 <= i < j < |blocks| && e in blocks[j] ==> Before(bounds[i], e.key))
  }

  lemma BeforeTransitive(a: InternalKey, b: InternalKey, c: InternalKey)
    ensures Before(a, b) && Before(b, c) ==> Before(a, c)
    ensures !Before(b, a) && Before(b, c) ==> Before(a, c)
    ensures Before(a, b) && !Before(c, b) ==> Before(a, c)
  {
  }

  /** The entries before the position found come before the target, the one there does not. */
  lemma SidesOfSeek(blocks: seq<seq<Entry>>, bounds: seq<InternalKey>, target: InternalKey, i: nat, q: nat)
    requires IndexSeparates(blocks, bounds) && i <= |blocks| && q < |Flat(blocks)|
    requires forall j :: 0 <= j < i ==> Before(bounds[j], target)
    requires i < |blocks| ==> !Before(bounds[i], target)
    ensures var p := Offset(blocks, i) + if i < |blocks| then SeekIndex(blocks[i], target) else 0;
      if q < p then Before(Flat(blocks)[q].key, target) else q == p ==> !Before(Flat(blocks)[q].key, target)
  {
    hide Before, Flat, Offset;
    var b, j := BlockOf(blocks, q);
    FlatIndex(blocks, b, j);
    if b < i {
      OffsetStep(blocks, b);
      OffsetMonotone(blocks, b + 1, i);
      assert blocks[b][j] in blocks[b] && !Before(bounds[b], blocks[b][j].key);
      BeforeTransitive(blocks[b][j].key, bounds[b], target);
    } else if b > i {
      OffsetStep(blocks, i);
      OffsetMonotone(blocks, i + 1, b);
      assert blocks[b][j] in blocks[b] && Before(bounds[i], blocks[b][j].key);
      BeforeTransitive(bounds[i], blocks[b][j].key, target);
    }
  }

  /** Seeking the index and then the block found is seeking the concatenation. */
  lemma TwoLevelSeek(blocks: seq<seq<Entry>>, bounds: seq<InternalKey>, target: InternalKey, i: nat)
    requires IndexSeparates(blocks, bounds) && i <= |blocks|
    requires forall j :: 0 <= j < i ==> Before(bounds[j], target)
    requires i < |blocks| ==> !Before(bounds[i], target)
    ensures SeekIndex(Flat(blocks), target) ==
      Offset(blocks, i) + if i < |blocks| then SeekIndex(blocks[i], target) else 0
  {
    hide Before;
    var flat := Flat(blocks);
    assert blocks[..|blocks|] == blocks;
    var k := if i < |blocks| then SeekIndex(blocks[i], target) else 0;
    var p := Offset(blocks, i) + k;
    if i < |blocks| {
      OffsetStep(blocks, i);
      OffsetMonotone(blocks, i + 1, |blocks|);
    }
    forall q | 0 <= q < |flat| ensures if q < p then Before(flat[q].key, target) else q == p ==> !Before(flat[q].key, target) {
      SidesOfSeek(blocks, bounds, target, i, q);
    }
    SeekIndexIsUnique(flat, target, p);
  }

  lemma {:induction false} OffsetMonotone(blocks: seq<seq<Entry>>, a: nat, b: nat)
    requires a <= b <= |blocks|
    ensures Offset(blocks, a) <= Offset(blocks, b)
    decreases b
  {
    if a < b {
      OffsetStep(blocks, b - 1);
      OffsetMonotone(blocks, a, b - 1);
    }
  }

  class TwoLevel {
    const blocks: seq<seq<Entry>>
    const bounds: seq<InternalKey>
    var index: nat            // the index iterator, |blocks| when not valid
    var dataIter: Cursor?
    var dataBlock: nat        // the block that dataIter walks over

    predicate Valid() reads this, dataIter { dataIter != null && dataIter.Valid() }

    /** The data iterator, when there is one, walks over the block at the index. */
    ghost predicate AtIndex() reads this, dataIter {
      && index <= |blocks|
      && (dataIter != null ==> dataBlock < |blocks| && dataIter.es == blocks[dataBlock] && dataIter.pos <= |dataIter.es|)
      && (dataIter != null ==> dataBlock == index)
    }

    ghost predicate Inv() reads this, dataIter {
      IndexSeparates(blocks, bounds) && AtIndex() && (dataIter != null ==> dataIter.Valid())
    }

    /** The position in the concatenation, its length when not valid. */
    ghost function Pos(): nat
      requires AtIndex()
      reads this, dataIter
    {
      if Valid() then Offset(blocks, dataBlock) + dataIter.pos else |Flat(blocks)|
    }

    constructor (blocks: seq<seq<Entry>>, bounds: seq<InternalKey>)
      requires IndexSeparates(blocks, bounds)
      ensures Inv() && !Valid() && this.blocks == blocks && this.bounds == bounds
    {
      this.blocks, this.bounds := blocks, bounds;
      index, dataIter, dataBlock := |blocks|, null, 0;
    }

    /** The iterator shows the entry of the concatenation at its position. */
    lemma ShowsFlat()
      requires Inv() && Valid()
      ensures Pos() < |Flat(blocks)| && dataIter.es[dataIter.pos] == Flat(blocks)[Pos()]
    {
      FlatIndex(blocks, dataBlock, dataIter.pos);
    }

    lemma BoundsMatch()
      requires IndexSeparates(blocks, bounds)
      ensures |bounds| == |blocks|
    {
    }

    lemma LastOffset()
      ensures Offset(blocks, |blocks|) == |Flat(blocks)|
    {
      assert blocks[..|blocks|] == blocks;
    }

    method InitDataBlock()
      requires index <= |blocks|
      requires dataIter != null ==> dataBlock < |blocks| && dataIter.es == blocks[dataBlock]
      requires dataIter != null ==> dataIter.pos <= |dataIter.es|
      modifies this`dataIter, this`dataBlock
      ensures AtIndex() && (dataIter == null <==> index == |blocks|)
      ensures dataIter == old(dataIter) || fresh(dataIter) || dataIter == null
    {
      if index == |blocks| {
        dataIter := null;
      } else if dataIter != null && dataBlock == index {
        // The data iterator already walks over this block.
      } else {
        dataIter := new Cursor(blocks[index]);
        dataBlock := index;
      }
    }

    method SeekIndexIterator(target: InternalKey)
      modifies this`index
      requires |bounds| == |blocks|
      ensures index <= |blocks| && forall j :: 0 <= j < index ==> Before(bounds[j], target)
      ensures index < |blocks| ==> !Before(bounds[index], target)
    {
      index := 0;
      while index < |blocks| && Before(bounds[index], target)
        invariant index <= |blocks| && forall j :: 0 <= j < index ==> Before(bounds[j], target)
      {
        index := index + 1;
      }
    }

    method Seek(target: InternalKey)
      requires Inv()
      modifies this, dataIter
      ensures Inv() && Pos() == SeekIndex(Flat(blocks), target)
    {
      hide IndexSeparates, Flat;
      BoundsMatch();
      SeekIndexIterator(target);
      LastOffset();
      TwoLevelSeek(blocks, bounds, target, index);
      InitDataBlock();
      if dataIter != null {
        dataIter.Seek(target);
      }
      SkipEmptyDataBlocksForward(SeekIndex(Flat(blocks), target));
    }

    method SeekToFirst()
      requires Inv()
      modifies this, dataIter
      ensures Inv() && Pos() == 0
    {
      index := 0;
      InitDataBlock();
      if dataIter != null {
        dataIter.SeekToFirst();
      }
      assert blocks[..0] == [];
      assert blocks[..|blocks|] == blocks;
      SkipEmptyDataBlocksForward(0);
    }

    method SeekToLast()
      requires Inv()
      modifies this, dataIter
      ensures Inv() && Pos() == if Flat(blocks) == [] then 0 else |Flat(blocks)| - 1
    {
      index := if blocks == [] then 0 else |blocks| - 1;
      InitDataBlock();
      if dataIter != null {
        dataIter.SeekToLast();
        OffsetStep(blocks, index);
      }
      assert blocks[..|blocks|] == blocks;
      SkipEmptyDataBlocksBackward(|Flat(blocks)|);
    }

    method Next()
      requires Inv() && Valid()
      modifies this, dataIter
      ensures Inv() && Pos() == old(Pos()) + 1
    {
      ShowsFlat();
      ghost var p := Pos();
      dataIter.Next();
      SkipEmptyDataBlocksForward(p + 1);
    }

    method Prev()
      requires Inv() && Valid()
      modifies this, dataIter
      ensures Inv() && Pos() == if old(Pos()) == 0 then |Flat(blocks)| else old(Pos()) - 1
    {
      ghost var p := Pos();
      dataIter.Prev();
      SkipEmptyDataBlocksBackward(p);
    }

    /** Moves on to the first entry at or after position p of the concatenation. */
    method SkipEmptyDataBlocksForward(ghost p: nat)
      requires IndexSeparates(blocks, bounds) && AtIndex()
      requires if dataIter != null then p == Offset(blocks, index) + dataIter.pos
               else index == |blocks| && p == |Flat(blocks)|
      modifies this, dataIter
      ensures Inv() && Pos() == p
    {
      while dataIter == null || !dataIter.Valid()
        invariant AtIndex()
        invariant dataIter == old(dataIter) || dataIter == null || fresh(dataIter)
        invariant if dataIter != null then p == Offset(blocks, index) + dataIter.pos
                  else index == |blocks| && p == |Flat(blocks)|
        decreases |blocks| - index, dataIter != null
      {
        if index == |blocks| {
          dataIter := null;
          return;
        }
        OffsetStep(blocks, index);
        index := index + 1;
        InitDataBlock();
        assert blocks[..|blocks|] == blocks;
        if dataIter != null {
          dataIter.SeekToFirst();
        }
      }
    }

    /** Moves back to the last entry before position p of the concatenation. */
    method SkipEmptyDataBlocksBackward(ghost p: nat)
      requires IndexSeparates(blocks, bounds) && AtIndex()
      requires if dataIter == null then index == |blocks| && p == 0
               else if dataIter.Valid() then p == Offset(blocks, index) + dataIter.pos + 1
               else p == Offset(blocks, index)
      modifies this, dataIter
      ensures Inv() && Pos() == if p == 0 then |Flat(blocks)| else p - 1
    {
      while dataIter == null || !dataIter.Valid()
        invariant AtIndex()
        invariant dataIter == old(dataIter) || dataIter == null || fresh(dataIter)
        invariant if dataIter == null then index == |blocks| && p == 0
                  else if dataIter.Valid() then p == Offset(blocks, index) + dataIter.pos + 1
                  else p == Offset(blocks, index)
        decreases if index == |blocks| then 0 else index + 1
      {
        if index == |blocks| {
          dataIter := null;
          return;
        }
        if index == 0 {
          assert blocks[..0] == [];
        } else {
          OffsetStep(blocks, index - 1);
        }
        index := if index == 0 then |blocks| else index - 1;
        InitDataBlock();
        if dataIter != null {
          dataIter.SeekToLast();
        }
      }
    }
  }
}
