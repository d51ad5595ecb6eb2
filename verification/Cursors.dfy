/** Internal iterators: what every one of them does, seen as a cursor over sorted entries. */
module Cursors {
  import opened DbFormat

  /** An internal iterator: a cursor over entries in internal order. */
  class Cursor {
    const es: seq<Entry>
    var pos: nat

    predicate Valid() reads this { pos < |es| }

    constructor (es: seq<Entry>)
      ensures this.es == es && pos == |es|
    {
      this.es, pos := es, |es|;
    }

    method Next()
      requires Valid()
      modifies this
      ensures pos == old(pos) + 1
    {
      pos := pos + 1;
    }

    method Prev()
      requires Valid()
      modifies this
      ensures pos == if old(pos) == 0 then |es| else old(pos) - 1
    {
      pos := if pos == 0 then |es| else pos - 1;
    }

    method Seek(target: InternalKey)
      modifies this
      ensures pos == SeekIndex(es, target)
    {
      pos := SeekIndex(es, target);
    }

    method SeekToFirst()
      modifies this
      ensures pos == 0
    {
      pos := 0;
    }

    method SeekToLast()
      modifies this
      ensures pos == if es == [] then 0 else |es| - 1
    {
      pos := if es == [] then 0 else |es| - 1;
    }
  }
}
