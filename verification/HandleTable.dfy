/** The hash table of the block cache. */
module HandleTable {
  import opened Bytes

  /** A cache entry. The deleter is not a field: the cache records the entries it has run it on. */
  class Handle {
    const key: Slice
    const hash: nat
    const value: Slice
    const charge: nat
    var inCache: bool
    var refs: nat

    constructor (key: Slice, hash: nat, value: Slice, charge: nat)
      ensures this.key == key && this.hash == hash && this.value == value && this.charge == charge
      ensures !inCache && refs == 1
    {
      this.key, this.hash, this.value, this.charge := key, hash, value, charge;
      inCache, refs := false, 1;
    }

    predicate Matches(key: Slice, hash: nat) { this.hash == hash && this.key == key }
  }

  ghost predicate NoRepeats(s: seq<Handle>) { forall i, j :: 0 <= i < j < |s| ==> s[i] != s[j] }

  ghost function ToHandles(s: seq<Handle>): set<Handle> { set h | h in s }

  /** The bucket of a hash. */
  function Slot(hash: nat, length: nat): (b: nat)
    requires length > 0
    ensures b < length
  {
    hash % length
  }

  ghost predicate PowerOfTwo(n: nat) { n == 1 || (n > 1 && n % 2 == 0 && PowerOfTwo(n / 2)) }

  /** A chain holds entries of its bucket only, no two with the same key and hash. */
  ghost predicate Chain(chain: seq<Handle>, bucket: nat, length: nat)
    requires length > 0
  {
    && (forall h :: h in chain ==> Slot(h.hash, length) == bucket)
    && (forall i, j :: 0 <= i < j < |chain| ==> !chain[i].Matches(chain[j].key, chain[j].hash))
  }

  ghost predicate Chains(buckets: seq<seq<Handle>>, length: nat)
    requires |buckets| == length > 0
  {
    forall b :: 0 <= b < length ==> Chain(buckets[b], b, length)
  }

  /** All entries of some chains. */
  ghost function All(buckets: seq<seq<Handle>>): set<Handle> {
    set b, h | 0 <= b < |buckets| && h in buckets[b] :: h
  }

  /** An entry can only be in the chain of its own bucket. */
  lemma InOwnChain(buckets: seq<seq<Handle>>, length: nat, h: Handle)
    requires 0 < length == |buckets| && Chains(buckets, length)
    ensures h in All(buckets) <==> h in buckets[Slot(h.hash, length)]
  {
  }

  /** Changing one chain changes the contents by what that chain gains and loses. */
  lemma ReplaceChain(buckets: seq<seq<Handle>>, length: nat, b: nat, chain: seq<Handle>)
    requires 0 < length == |buckets| && Chains(buckets, length) && b < length && Chain(chain, b, length)
    ensures Chains(buckets[b := chain], length)
    ensures All(buckets[b := chain]) == All(buckets) - ToHandles(buckets[b]) + ToHandles(chain)
  {
    var after := buckets[b := chain];
    assert after[b] == chain;
    forall c, h | 0 <= c < length && h in buckets[c] && h !in buckets[b] ensures h in All(after) {
      assert after[c] == buckets[c];
    }
    assert forall c, h :: 0 <= c < length && c != b && h in buckets[c] ==> Slot(h.hash, length) == c;
    assert forall h :: h in buckets[b] ==> Slot(h.hash, length) == b;
  }

  lemma ChangeChain(buckets: seq<seq<Handle>>, length: nat, b: nat, chain: seq<Handle>, gone: set<Handle>, come: set<Handle>)
    requires 0 < length == |buckets| && Chains(buckets, length) && b < length && Chain(chain, b, length)
    requires ToHandles(chain) == ToHandles(buckets[b]) - gone + come && forall h :: h in gone ==> h in buckets[b]
    ensures Chains(buckets[b := chain], length)
    ensures All(buckets[b := chain]) == All(buckets) - gone + come
    ensures gone <= All(buckets)
    ensures come !! All(buckets) ==> |All(buckets[b := chain])| == |All(buckets)| - |gone| + |come|
  {
    ReplaceChain(buckets, length, b, chain);
    OwnChain(buckets, length, b);
    assert |All(buckets) - gone| == |All(buckets)| - |gone|;
  }

  /** The chains before bucket i + 1. */
  lemma OneMoreChain(buckets: seq<seq<Handle>>, i: nat)
    requires i < |buckets|
    ensures All(buckets[..i + 1]) == All(buckets[..i]) + ToHandles(buckets[i])
  {
    forall c, h | 0 <= c < i && h in buckets[c] ensures h in All(buckets[..i]) && h in All(buckets[..i + 1]) {
      assert buckets[..i][c] == buckets[c] && buckets[..i + 1][c] == buckets[c];
    }
    assert buckets[..i + 1][i] == buckets[i];
  }

  lemma MatchIsUnique(buckets: seq<seq<Handle>>, length: nat, h: Handle, k: Handle)
    requires 0 < length == |buckets| && Chains(buckets, length)
    requires h in All(buckets) && k in All(buckets) && h.Matches(k.key, k.hash)
    ensures h == k
  {
    InOwnChain(buckets, length, h);
    InOwnChain(buckets, length, k);
  }

  class Table {
    var length: nat
    var elems: nat
    var buckets: seq<seq<Handle>>

    ghost function Contents(): set<Handle>
      reads this
    {
      All(buckets)
    }

    /** The length is a power of two, so masking a hash with length - 1 is a remainder. */
    ghost predicate Valid()
      reads this
    {
      length >= 4 && PowerOfTwo(length) && |buckets| == length && Chains(buckets, length) && elems == |Contents()|
    }

    constructor ()
      ensures Valid() && Contents() == {}
    {
      length, elems, buckets := 4, 0, [[], [], [], []];
      new;
      assert PowerOfTwo(1) && PowerOfTwo(2);
      assert All(buckets) == {};
    }

    /** The place of the entry that matches, or the end of the chain. */
    method FindPointer(key: Slice, hash: nat) returns (b: nat, i: nat)
      requires Valid()
      ensures b == Slot(hash, length) && i <= |buckets[b]|
      ensures i < |buckets[b]| ==> buckets[b][i].Matches(key, hash) && buckets[b][i] in Contents()
      ensures i == |buckets[b]| ==> forall h :: h in Contents() ==> !h.Matches(key, hash)
    {
      b, i := Slot(hash, length), 0;
      while i < |buckets[b]| && (buckets[b][i].hash != hash || key != buckets[b][i].key)
        invariant i <= |buckets[b]|
        invariant forall j :: 0 <= j < i ==> !buckets[b][j].Matches(key, hash)
      {
        i := i + 1;
      }
      if i < |buckets[b]| {
        InOwnChain(buckets, length, buckets[b][i]);
      }
      forall h | i == |buckets[b]| && h in Contents() ensures !h.Matches(key, hash) {
        InOwnChain(buckets, length, h);
      }
    }

    /** The entry for a key and hash, if there is one. */
    method Lookup(key: Slice, hash: nat) returns (r: Handle?)
      requires Valid()
      ensures r != null ==> r in Contents() && r.Matches(key, hash)
      ensures r == null ==> forall h :: h in Contents() ==> !h.Matches(key, hash)
    {
      var b, i := FindPointer(key, hash);
      r := if i < |buckets[b]| then buckets[b][i] else null;
    }

    /** Adds an entry in place of the one it matches, which is returned. */
    method Insert(h: Handle) returns (r: Handle?)
      requires Valid() && h !in Contents()
      modifies this
      ensures Valid()
      ensures r == null ==> Contents() == old(Contents()) + {h} && forall k :: k in old(Contents()) ==> !k.Matches(h.key, h.hash)
      ensures r != null ==> r in old(Contents()) && r.Matches(h.key, h.hash) && Contents() == old(Contents()) - {r} + {h}
    {
      hide Slot, All, Chain, Chains, ToHandles;
      var b, i := FindPointer(h.key, h.hash);
      if i < |buckets[b]| {
        r := buckets[b][i];
        SwapIn(buckets, length, b, i, h);
        buckets := buckets[b := buckets[b][i := h]];
      } else {
        r := null;
        AddAtEnd(buckets, length, b, h);
        buckets := buckets[b := buckets[b] + [h]];
        elems := elems + 1;
        if elems > length {
          Resize();
        }
      }
    }

    /** Takes the entry for a key and hash out of the table and returns it. */
    method Remove(key: Slice, hash: nat) returns (r: Handle?)
      requires Valid()
      modifies this
      ensures Valid()
      ensures r != null ==> r in old(Contents()) && r.Matches(key, hash) && Contents() == old(Contents()) - {r}
      ensures r == null ==> Contents() == old(Contents()) && forall h :: h in Contents() ==> !h.Matches(key, hash)
    {
      hide Slot, All, Chain, Chains, ToHandles;
      var b, i := FindPointer(key, hash);
      if i == |buckets[b]| {
        return null;
      }
      OwnChain(buckets, length, b);
      r := buckets[b][i];
      ghost var rest := buckets[b][..i] + buckets[b][i + 1..];
      DropAt(buckets[b], b, length, i);
      ChangeChain(buckets, length, b, rest, {r}, {});
      buckets := buckets[b := buckets[b][..i] + buckets[b][i + 1..]];
      elems := elems - 1;
    }

    /** Rehashes every entry into a table that has at least as many buckets as entries. */
    method Resize()
      requires 0 < length == |buckets| && Chains(buckets, length) && elems == |Contents()|
      modifies this
      ensures Valid() && Contents() == old(Contents()) && elems <= length
    {
      hide Slot, All, Chain, Chains, ToHandles;
      var newLength := NextLength(elems);
      var newBuckets: seq<seq<Handle>> := seq(newLength, _ => []);
      NoChains(newLength);
      assert All(buckets[..0]) == {} by {
        NoBuckets();
      }
      var count := 0;
      for i := 0 to length
        invariant buckets == old(buckets) && length == old(length) && elems == old(elems)
        invariant |newBuckets| == newLength && Chains(newBuckets, newLength)
        invariant All(newBuckets) == All(buckets[..i]) && count == |All(newBuckets)|
      {
        OneMoreChain(buckets, i);
        newBuckets, count := MoveChain(i, newBuckets, newLength, count);
      }
      assert buckets[..length] == buckets;
      buckets, length := newBuckets, newLength;
    }

    /** Moves the entries of one chain to the front of their new chains. */
    method MoveChain(i: nat, buckets0: seq<seq<Handle>>, newLength: nat, count0: nat) returns (newBuckets: seq<seq<Handle>>, count: nat)
      requires 0 < length == |buckets| && Chains(buckets, length) && i < length
      requires 0 < newLength == |buckets0| && Chains(buckets0, newLength)
      requires All(buckets0) == All(buckets[..i]) && count0 == |All(buckets0)|
      ensures |newBuckets| == newLength && Chains(newBuckets, newLength)
      ensures All(newBuckets) == All(buckets[..i]) + ToHandles(buckets[i]) && count == |All(newBuckets)|
    {
      hide Slot, All, Chain, Chains, ToHandles;
      newBuckets, count := buckets0, count0;
      assert ToHandles(buckets[i][..0]) == {} by {
        NoHandles();
      }
      for j := 0 to |buckets[i]|
        invariant |newBuckets| == newLength && Chains(newBuckets, newLength)
        invariant All(newBuckets) == All(buckets[..i]) + ToHandles(buckets[i][..j]) && count == |All(newBuckets)|
      {
        var h := buckets[i][j];
        var b := Slot(h.hash, newLength);
        MoveOne(buckets, length, i, j, newBuckets, newLength);
        newBuckets := newBuckets[b := [h] + newBuckets[b]];
        count := count + 1;
      }
      assert buckets[i][..|buckets[i]|] == buckets[i];
    }
  }

  /** The first power of two from 4 that is no less than a number of entries. */
  method NextLength(elems: nat) returns (n: nat)
    ensures n >= 4 && n >= elems && PowerOfTwo(n) && (n == 4 || n < 2 * elems)
  {
    hide PowerOfTwo;
    n := 4;
    Doubled(2);
    while n < elems
      invariant n >= 4 && PowerOfTwo(n) && (n == 4 || n < 2 * elems)
    {
      Doubled(n);
      n := n * 2;
    }
  }

  lemma Doubled(n: nat)
    requires n == 2 || PowerOfTwo(n)
    ensures PowerOfTwo(n * 2)
  {
    assert PowerOfTwo(1) && PowerOfTwo(2);
    assert n * 2 / 2 == n;
  }

  lemma NoBuckets()
    ensures All([]) == {}
  {
  }

  lemma NoHandles()
    ensures ToHandles([]) == {}
  {
  }

  /** What moving one entry does to the new table. */
  lemma MoveOne(buckets: seq<seq<Handle>>, length: nat, i: nat, j: nat, moved: seq<seq<Handle>>, newLength: nat)
    requires 0 < length == |buckets| && Chains(buckets, length) && i < length && j < |buckets[i]|
    requires 0 < newLength == |moved| && Chains(moved, newLength)
    requires All(moved) == All(buckets[..i]) + ToHandles(buckets[i][..j])
    ensures var h := buckets[i][j]; var b := Slot(h.hash, newLength); var after := moved[b := [h] + moved[b]];
      && Chains(after, newLength) && All(after) == All(buckets[..i]) + ToHandles(buckets[i][..j + 1])
      && |All(after)| == |All(moved)| + 1
  {
    hide Slot, All, Chain, Chains;
    var h := buckets[i][j];
    var b := Slot(h.hash, newLength);
    NotMovedYet(buckets, length, i, j, moved, newLength);
    ChangeChain(moved, newLength, b, [h] + moved[b], {}, {h});
    assert ToHandles(buckets[i][..j + 1]) == ToHandles(buckets[i][..j]) + {h};
    assert All(moved[b := [h] + moved[b]]) == All(moved) + {h};
  }

  /** An entry that is still to be moved matches none of those that were. */
  lemma NotMovedYet(buckets: seq<seq<Handle>>, length: nat, i: nat, j: nat, moved: seq<seq<Handle>>, newLength: nat)
    requires 0 < length == |buckets| && Chains(buckets, length) && i < length && j < |buckets[i]|
    requires 0 < newLength == |moved| && Chains(moved, newLength)
    requires All(moved) == All(buckets[..i]) + ToHandles(buckets[i][..j])
    ensures buckets[i][j] !in All(moved)
    ensures ToHandles([buckets[i][j]] + moved[Slot(buckets[i][j].hash, newLength)])
      == ToHandles(moved[Slot(buckets[i][j].hash, newLength)]) + {buckets[i][j]}
    ensures Chain([buckets[i][j]] + moved[Slot(buckets[i][j].hash, newLength)], Slot(buckets[i][j].hash, newLength), newLength)
  {
    var x := buckets[i][j];
    forall h | h in All(moved) ensures !h.Matches(x.key, x.hash) {
      if h in All(buckets[..i]) {
        var c :| 0 <= c < i && h in buckets[..i][c];
        assert Slot(h.hash, length) == c;
      }
    }
    var chain := moved[Slot(x.hash, newLength)];
    forall h | h in chain ensures !x.Matches(h.key, h.hash) {
      InOwnChain(moved, newLength, h);
    }
  }

  lemma OwnChain(buckets: seq<seq<Handle>>, length: nat, b: nat)
    requires 0 < length == |buckets| && Chains(buckets, length) && b < length
    ensures Chain(buckets[b], b, length) && ToHandles(buckets[b]) <= All(buckets)
  {
    forall h | h in buckets[b] ensures h in All(buckets) {
      InOwnChain(buckets, length, h);
    }
  }

  lemma NoMatchInChain(buckets: seq<seq<Handle>>, length: nat, b: nat, h: Handle)
    requires 0 < length == |buckets| && Chains(buckets, length) && b < length
    requires forall k :: k in All(buckets) ==> !k.Matches(h.key, h.hash)
    ensures forall k :: k in buckets[b] ==> !k.Matches(h.key, h.hash)
  {
    OwnChain(buckets, length, b);
  }

  lemma SwapIn(buckets: seq<seq<Handle>>, length: nat, b: nat, i: nat, h: Handle)
    requires 0 < length == |buckets| && Chains(buckets, length) && b < length && i < |buckets[b]|
    requires buckets[b][i].Matches(h.key, h.hash) && h !in All(buckets)
    ensures var after := buckets[b := buckets[b][i := h]];
      Chains(after, length) && All(after) == All(buckets) - {buckets[b][i]} + {h} && |All(after)| == |All(buckets)|
  {
    hide Slot, All, Chain, Chains;
    OwnChain(buckets, length, b);
    PutAt(buckets[b], b, length, i, h);
    ChangeChain(buckets, length, b, buckets[b][i := h], {buckets[b][i]}, {h});
  }

  lemma AddAtEnd(buckets: seq<seq<Handle>>, length: nat, b: nat, h: Handle)
    requires 0 < length == |buckets| && Chains(buckets, length) && b == Slot(h.hash, length)
    requires h !in All(buckets) && forall k :: k in All(buckets) ==> !k.Matches(h.key, h.hash)
    ensures var after := buckets[b := buckets[b] + [h]];
      Chains(after, length) && All(after) == All(buckets) + {h} && |All(after)| == |All(buckets)| + 1
  {
    hide Slot, All, Chain, Chains;
    OwnChain(buckets, length, b);
    NoMatchInChain(buckets, length, b, h);
    PutAtEnd(buckets[b], b, length, h);
    ChangeChain(buckets, length, b, buckets[b] + [h], {}, {h});
  }

  lemma NoChains(length: nat)
    requires length > 0
    ensures var none := seq(length, _ => []); Chains(none, length) && All(none) == {}
  {
  }

  lemma PutAtEnd(chain: seq<Handle>, b: nat, length: nat, h: Handle)
    requires length > 0 && Chain(chain, b, length) && b == Slot(h.hash, length)
    requires forall k :: k in chain ==> !k.Matches(h.key, h.hash)
    ensures Chain(chain + [h], b, length)
    ensures ToHandles(chain + [h]) == ToHandles(chain) + {h}
  {
  }

  /** Putting an entry in the place of one it matches. */
  lemma PutAt(chain: seq<Handle>, b: nat, length: nat, i: nat, h: Handle)
    requires length > 0 && Chain(chain, b, length) && i < |chain| && chain[i].Matches(h.key, h.hash)
    ensures Chain(chain[i := h], b, length)
    ensures ToHandles(chain[i := h]) == ToHandles(chain) - {chain[i]} + {h}
  {
    forall x ensures x in chain[i := h] <==> x in ToHandles(chain) - {chain[i]} + {h} {
      if x in chain && x != chain[i] {
        var j :| 0 <= j < |chain| && chain[j] == x;
        assert chain[i := h][j] == x;
      }
      assert chain[i := h][i] == h;
    }
  }

  /** Taking one entry out of a chain. */
  lemma DropAt(chain: seq<Handle>, b: nat, length: nat, i: nat)
    requires length > 0 && Chain(chain, b, length) && i < |chain|
    ensures Chain(chain[..i] + chain[i + 1..], b, length)
    ensures ToHandles(chain[..i] + chain[i + 1..]) == ToHandles(chain) - {chain[i]}
  {
    var rest := chain[..i] + chain[i + 1..];
    assert chain == chain[..i] + [chain[i]] + chain[i + 1..];
    assert forall j :: 0 <= j < |rest| ==> rest[j] == chain[if j < i then j else j + 1];
    assert chain[i] !in rest;
  }
}
