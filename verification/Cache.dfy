/** One shard of the block cache: reference counts, the two lists, and eviction. */
module Cache {
  import opened Bytes
  import opened HandleTable

  ghost function Sum(s: seq<Handle>): nat {
    if s == [] then 0 else s[0].charge + Sum(s[1..])
  }

  lemma {:induction false} SumAppend(s: seq<Handle>, e: Handle)
    ensures Sum(s + [e]) == Sum(s) + e.charge
  {
    if s == [] {
      assert [e][1..] == [];
    } else {
      SumAppend(s[1..], e);
      assert (s + [e])[1..] == s[1..] + [e];
    }
  }

  /** Unlinks an entry from a list; a list that it is not on stays as it is. */
  function Without(s: seq<Handle>, e: Handle): seq<Handle> {
    if s == [] then [] else if s[0] == e then s[1..] else [s[0]] + Without(s[1..], e)
  }

  lemma {:induction false} Unlinked(s: seq<Handle>, e: Handle)
    requires NoRepeats(s)
    ensures NoRepeats(Without(s, e))
    ensures ToHandles(Without(s, e)) == ToHandles(s) - {e}
    ensures e !in Without(s, e)
    ensures e !in s ==> Without(s, e) == s
    ensures Sum(Without(s, e)) == Sum(s) - if e in s then e.charge else 0
  {
    if s != [] && s[0] != e {
      Unlinked(s[1..], e);
      var rest := Without(s[1..], e);
      assert Without(s, e) == [s[0]] + rest && Without(s, e)[1..] == rest;
      assert ToHandles(s) == {s[0]} + ToHandles(s[1..]) && ToHandles(Without(s, e)) == {s[0]} + ToHandles(rest);
      assert s[0] !in s[1..] && s[0] !in rest;
      assert s == [s[0]] + s[1..];
    } else if s != [] {
      assert s == [e] + s[1..] && ToHandles(s) == {e} + ToHandles(s[1..]);
    }
  }

  /** What the lists and the books keep, entry fields aside. */
  ghost predicate Books(lru: seq<Handle>, inUse: seq<Handle>, deleted: seq<Handle>, usage: nat, all: set<Handle>) {
    && ToHandles(lru) <= all && ToHandles(inUse) <= all && ToHandles(deleted) <= all
    && NoRepeats(lru) && NoRepeats(inUse) && NoRepeats(deleted)
    && usage == Sum(lru) + Sum(inUse)
  }

  ghost predicate MultisetWithin(held: multiset<Handle>, all: set<Handle>) { forall h :: h in held ==> h in all }

  /** Moving an entry from one list to the end of the other. */
  lemma BooksAfterMove(from: seq<Handle>, to: seq<Handle>, e: Handle)
    requires NoRepeats(from) && NoRepeats(to) && e in from && e !in to
    ensures var f, t := Without(from, e), Without(to, e) + [e];
      && NoRepeats(f) && NoRepeats(t) && Sum(f) + Sum(t) == Sum(from) + Sum(to)
      && ToHandles(f) == ToHandles(from) - {e} && ToHandles(t) == ToHandles(to) + {e} && Without(to, e) == to
  {
    hide Without;
    Unlinked(from, e);
    Unlinked(to, e);
    SumAppend(to, e);
  }

  lemma BooksUnderRef(lru: seq<Handle>, inUse: seq<Handle>, deleted: seq<Handle>, usage: nat, all: set<Handle>, e: Handle)
    requires Books(lru, inUse, deleted, usage, all)
    requires (e in ToHandles(lru)) != (e in ToHandles(inUse))
    ensures e in ToHandles(lru) ==> Books(Without(lru, e), Without(inUse, e) + [e], deleted, usage, all)
    ensures e in ToHandles(lru) ==>
      ToHandles(Without(lru, e)) == ToHandles(lru) - {e} && ToHandles(Without(inUse, e) + [e]) == ToHandles(inUse) + {e}
    ensures e !in ToHandles(lru) ==> Books(lru, inUse, deleted, usage, all) && Without(lru, e) == lru
  {
    hide Without;
    if e in lru {
      BooksAfterMove(lru, inUse, e);
    }
    Unlinked(lru, e);
    Unlinked(inUse, e);
  }

  /** Giving back the last handle of a cached entry. */
  lemma BooksUnderLastRelease(lru: seq<Handle>, inUse: seq<Handle>, deleted: seq<Handle>, usage: nat, all: set<Handle>, e: Handle)
    requires Books(lru, inUse, deleted, usage, all)
    requires e in ToHandles(inUse) && e !in ToHandles(lru)
    ensures Books(Without(lru, e) + [e], Without(inUse, e), deleted, usage, all)
    ensures ToHandles(Without(inUse, e)) == ToHandles(inUse) - {e} && ToHandles(Without(lru, e) + [e]) == ToHandles(lru) + {e}
    ensures Without(lru, e) == lru
  {
    hide Without;
    BooksAfterMove(inUse, lru, e);
    Unlinked(lru, e);
    Unlinked(inUse, e);
  }

  lemma BooksUnderDelete(lru: seq<Handle>, inUse: seq<Handle>, deleted: seq<Handle>, usage: nat, all: set<Handle>, e: Handle)
    requires Books(lru, inUse, deleted, usage, all) && e in all
    ensures e !in ToHandles(deleted) ==> Books(lru, inUse, deleted + [e], usage, all)
    ensures ToHandles(deleted + [e]) == ToHandles(deleted) + {e}
  {
  }

  lemma BooksWithNew(lru: seq<Handle>, inUse: seq<Handle>, deleted: seq<Handle>, usage: nat, all: set<Handle>, e: Handle)
    requires Books(lru, inUse, deleted, usage, all) && e !in all
    ensures Books(lru, inUse, deleted, usage, all + {e})
    ensures e !in ToHandles(lru) && e !in ToHandles(inUse) && e !in ToHandles(deleted)
  {
  }

  lemma BooksWithOneMore(lru: seq<Handle>, inUse: seq<Handle>, deleted: seq<Handle>, usage: nat, all: set<Handle>, e: Handle)
    requires Books(lru, inUse, deleted, usage, all) && e in all && e !in ToHandles(inUse)
    ensures Books(lru, inUse + [e], deleted, usage + e.charge, all)
    ensures ToHandles(inUse + [e]) == ToHandles(inUse) + {e}
  {
    SumAppend(inUse, e);
  }

  /** Taking an entry out of the cache, with or without running its deleter. */
  lemma BooksUnderErase(lru: seq<Handle>, inUse: seq<Handle>, deleted: seq<Handle>, usage: nat, all: set<Handle>, e: Handle)
    requires Books(lru, inUse, deleted, usage, all)
    requires (e in lru) != (e in inUse)
    ensures usage >= e.charge && ToHandles(deleted + [e]) == ToHandles(deleted) + {e}
    ensures Books(Without(lru, e), Without(inUse, e), deleted, usage - e.charge, all)
    ensures e !in deleted ==> Books(Without(lru, e), Without(inUse, e), deleted + [e], usage - e.charge, all)
    ensures ToHandles(Without(lru, e)) == ToHandles(lru) - {e}
    ensures ToHandles(Without(inUse, e)) == ToHandles(inUse) - {e}
  {
    hide Without;
    Unlinked(lru, e);
    Unlinked(inUse, e);
  }

  lemma HeldStaysWithin(held: multiset<Handle>, e: Handle, all: set<Handle>)
    requires MultisetWithin(held, all)
    ensures e in all ==> MultisetWithin(held + multiset{e}, all)
    ensures MultisetWithin(held - multiset{e}, all) && (e in held ==> e in all)
    ensures MultisetWithin(held + multiset{e}, all + {e})
  {
  }

  lemma LastHandle(s: seq<Handle>, e: Handle)
    ensures ToHandles(s + [e]) == ToHandles(s) + {e}
  {
  }

  lemma FirstHandle(s: seq<Handle>)
    requires s != []
    ensures s[0] in ToHandles(s)
  {
  }

  lemma EvictedWasUnused(evicted: seq<Handle>, rest: seq<Handle>, e: Handle)
    requires e !in ToHandles(evicted + rest)
    ensures e !in ToHandles(evicted)
  {
  }

  class LRUCache {
    const capacity: nat
    var usage: nat
    /** Entries no client uses, oldest first. */
    var lru: seq<Handle>
    /** Entries that clients use. */
    var inUse: seq<Handle>
    const table: Table
    /** The entries the deleter was run on, in order. */
    var deleted: seq<Handle>
    /** Every entry ever made, and how often clients hold each of them. */
    ghost var all: set<Handle>
    ghost var held: multiset<Handle>

    /** References are outstanding handles plus the cache's own; an entry in the cache is on
        the list that says whether a client holds it; the deleter has run, once, on exactly
        the entries without references. */
    ghost predicate EntryOk(h: Handle)
      reads this, h
    {
      && h.refs == held[h] + (if h.inCache then 1 else 0)
      && (h in ToHandles(lru) <==> h.inCache && held[h] == 0)
      && (h in ToHandles(inUse) <==> h.inCache && held[h] > 0)
      && (h in ToHandles(deleted) <==> h.refs == 0)
    }

    ghost function Cached(): set<Handle>
      reads this
    {
      ToHandles(lru) + ToHandles(inUse)
    }

    /** Everything but the table. */
    ghost predicate Counted()
      reads this, all
    {
      && (forall h :: h in all ==> EntryOk(h)) && Cached() <= all && MultisetWithin(held, all)
      && Books(lru, inUse, deleted, usage, all)
    }

    ghost predicate Valid()
      reads this, all, table
    {
      Counted() && table.Valid() && table.Contents() == Cached()
    }

    constructor (capacity: nat)
      ensures Valid() && this.capacity == capacity && Cached() == {} && held == multiset{} && deleted == []
      ensures fresh(table) && all == {}
    {
      this.capacity := capacity;
      usage, lru, inUse, deleted := 0, [], [], [];
      all, held := {}, multiset{};
      table := new Table();
    }

    method LRU_Remove(e: Handle)
      modifies this`lru, this`inUse
      ensures lru == Without(old(lru), e) && inUse == Without(old(inUse), e)
    {
      lru, inUse := Without(lru, e), Without(inUse, e);
    }

    /** Hands one more reference out; an entry on the LRU list becomes used. */
    method Ref(e: Handle)
      requires Counted() && e in Cached()
      modifies this`lru, this`inUse, this`held, e`refs
      ensures Counted() && Cached() == old(Cached()) && held == old(held) + multiset{e}
      ensures lru == Without(old(lru), e)
    {
      hide Without, Sum, NoRepeats, Books, ToHandles, MultisetWithin;
      assert EntryOk(e);
      HeldStaysWithin(held, e, all);
      BooksUnderRef(lru, inUse, deleted, usage, all, e);
      if e.refs == 1 && e.inCache {
        LRU_Remove(e);
        inUse := inUse + [e];
      }
      e.refs := e.refs + 1;
      held := held + multiset{e};
      forall h | h in all ensures EntryOk(h) {
        assert old(EntryOk(h));
      }
    }

    method Unref(e: Handle)
      requires e.refs > 0 && (e.refs == 1 ==> !e.inCache)
      modifies this`lru, this`inUse, this`deleted, e`refs
      ensures e.refs == old(e.refs) - 1
      ensures deleted == if e.refs == 0 then old(deleted) + [e] else old(deleted)
      ensures if e.inCache && e.refs == 1 then lru == Without(old(lru), e) + [e] && inUse == Without(old(inUse), e)
              else lru == old(lru) && inUse == old(inUse)
    {
      e.refs := e.refs - 1;
      if e.refs == 0 {
        deleted := deleted + [e];
      } else if e.inCache && e.refs == 1 {
        LRU_Remove(e);
        lru := lru + [e];
      }
    }

    /** Takes an entry, already out of the table, out of the cache; an entry that no client
        holds is deleted. */
    method FinishErase(e: Handle)
      requires Counted() && e in Cached()
      modifies this`lru, this`inUse, this`deleted, this`usage, e
      ensures Counted() && Cached() == old(Cached()) - {e}
      ensures lru == Without(old(lru), e) && ToHandles(lru) == ToHandles(old(lru)) - {e}
      ensures usage == old(usage) - e.charge
      ensures deleted == if held[e] == 0 then old(deleted) + [e] else old(deleted)
    {
      hide Without, Sum, NoRepeats, MultisetWithin, Books;
      assert EntryOk(e);
      BooksUnderErase(lru, inUse, deleted, usage, all, e);
      LRU_Remove(e);
      e.inCache := false;
      usage := usage - e.charge;
      Unref(e);
      forall h | h in all ensures EntryOk(h) {
        assert old(EntryOk(h));
      }
    }

    /** An entry for the key, with one more reference, if there is one. */
    method Lookup(key: Slice, hash: nat) returns (e: Handle?)
      requires Valid()
      modifies this`lru, this`inUse, this`held, Cached()
      ensures Valid() && Cached() == old(Cached())
      ensures e == null ==> held == old(held) && lru == old(lru) && forall h :: h in Cached() ==> !h.Matches(key, hash)
      ensures e != null ==> e in Cached() && e.Matches(key, hash) && held == old(held) + multiset{e} && lru == Without(old(lru), e)
    {
      hide Without, Books, EntryOk;
      e := table.Lookup(key, hash);
      if e != null {
        Ref(e);
      }
    }

    /** Gives back one handle. An entry with no other holder goes to the newest end of the
        LRU list if it is still in the cache, and is deleted if it is not. */
    method Release(e: Handle)
      requires Valid() && e in held
      modifies this`lru, this`inUse, this`held, this`deleted, e`refs
      ensures Valid() && Cached() == old(Cached())
      ensures held == old(held) - multiset{e}
      ensures lru == if held[e] == 0 && e in Cached() then old(lru) + [e] else old(lru)
      ensures deleted == if held[e] == 0 && e !in Cached() then old(deleted) + [e] else old(deleted)
    {
      hide Without, Books, EntryOk;
      DropHandle(e);
    }

    method DropHandle(e: Handle)
      requires Counted() && e in held
      modifies this`lru, this`inUse, this`held, this`deleted, e`refs
      ensures Counted() && Cached() == old(Cached())
      ensures held == old(held) - multiset{e}
      ensures lru == if held[e] == 0 && e in Cached() then old(lru) + [e] else old(lru)
      ensures deleted == if held[e] == 0 && e !in Cached() then old(deleted) + [e] else old(deleted)
    {
      HeldStaysWithin(held, e, all);
      hide Without, Sum, NoRepeats, Books, ToHandles, MultisetWithin;
      assert EntryOk(e);
      BooksUnderDelete(lru, inUse, deleted, usage, all, e);
      if e.inCache && held[e] == 1 {
        BooksUnderLastRelease(lru, inUse, deleted, usage, all, e);
      }
      held := held - multiset{e};
      Unref(e);
      forall h | h in all ensures EntryOk(h) {
        assert old(EntryOk(h));
      }
      assert (e in Cached() <==> e.inCache) && e.refs == held[e] + if e.inCache then 1 else 0;
      hide EntryOk;
      assert Cached() == old(Cached());
    }

    /** Removes the entry for a key from the cache. */
    method Erase(key: Slice, hash: nat)
      requires Valid()
      modifies this`lru, this`inUse, this`deleted, this`usage, table, Cached()
      ensures Valid() && Cached() <= old(Cached())
      ensures forall h :: h in old(Cached()) ==> (h in Cached() <==> !h.Matches(key, hash))
      ensures forall h :: h in old(Cached()) && h.Matches(key, hash) && held[h] == 0 ==> h in deleted
    {
      hide Without, Books, EntryOk;
      var e := table.Remove(key, hash);
      if e != null {
        FinishErase(e);
      }
    }

    /** Makes an entry with one handle out and, if the cache may hold anything, the cache's
        own reference. */
    method MakeEntry(key: Slice, hash: nat, value: Slice, charge: nat) returns (e: Handle)
      requires Counted()
      modifies this`inUse, this`usage, this`all, this`held
      ensures Counted() && fresh(e) && all == old(all) + {e} && held == old(held) + multiset{e}
      ensures e.Matches(key, hash) && e.value == value && e.charge == charge
      ensures Cached() == old(Cached()) + (if capacity > 0 then {e} else {})
      ensures usage == old(usage) + (if capacity > 0 then charge else 0)
      ensures e !in ToHandles(lru) && e !in old(Cached())
    {
      e := new Handle(key, hash, value, charge);
      assert e !in all;
      HeldStaysWithin(held, e, all);
      hide Sum, NoRepeats, Without, Books, ToHandles, MultisetWithin;
      BooksWithNew(lru, inUse, deleted, usage, all, e);
      assert held[e] == 0;
      all, held := all + {e}, held + multiset{e};
      assert EntryOk(e);
      forall h | h in old(all) ensures EntryOk(h) {
        assert old(EntryOk(h));
      }
      if capacity > 0 {
        Attach(e);
      }
    }

    /** The cache's own reference to an entry that is not in it yet. */
    method Attach(e: Handle)
      requires Counted() && e in all && e.refs == 1 && !e.inCache && held[e] == 1
      modifies this`inUse, this`usage, e`refs, e`inCache
      ensures Counted() && Cached() == old(Cached()) + {e} && usage == old(usage) + e.charge
    {
      hide Sum, NoRepeats, Without, Books, ToHandles, MultisetWithin;
      assert EntryOk(e);
      BooksWithOneMore(lru, inUse, deleted, usage, all, e);
      e.refs := e.refs + 1;
      e.inCache := true;
      inUse := inUse + [e];
      usage := usage + e.charge;
      forall h | h in all ensures EntryOk(h) {
        assert old(EntryOk(h));
      }
    }

    /** Adds an entry in place of the one with the same key and then evicts unused entries,
        oldest first and no more of them than needed, until the charges fit. */
    method Insert(key: Slice, hash: nat, value: Slice, charge: nat) returns (e: Handle, ghost replaced: Handle?, ghost evicted: seq<Handle>)
      requires Valid()
      modifies this, table, Cached()
      ensures Valid() && fresh(e) && held == old(held) + multiset{e} && (capacity > 0 ==> e in Cached())
      ensures e.Matches(key, hash) && e.value == value && e.charge == charge
      ensures usage <= capacity || lru == []
      ensures evicted != [] ==> usage + evicted[|evicted| - 1].charge > capacity
      ensures evicted + lru == if replaced == null then old(lru) else Without(old(lru), replaced)
      ensures replaced != null ==> replaced in old(Cached()) && replaced.Matches(key, hash)
      ensures replaced == null && capacity > 0 ==> forall h :: h in old(Cached()) ==> !h.Matches(key, hash)
      ensures Cached() == old(Cached()) - {replaced} - ToHandles(evicted) + (if capacity > 0 then {e} else {})
    {
      hide Without, Books, EntryOk, Counted, Valid, ToHandles;
      e, replaced := AddEntry(key, hash, value, charge);
      evicted := Evict();
      EvictedWasUnused(evicted, lru, e);
    }

    /** The first part of an insertion: up to the eviction loop. */
    method AddEntry(key: Slice, hash: nat, value: Slice, charge: nat) returns (e: Handle, ghost replaced: Handle?)
      requires Valid()
      modifies this, table, Cached()
      ensures Valid() && fresh(e) && held == old(held) + multiset{e}
      ensures e.Matches(key, hash) && e.value == value && e.charge == charge
      ensures lru == if replaced == null then old(lru) else Without(old(lru), replaced)
      ensures replaced != null ==> replaced in old(Cached()) && replaced.Matches(key, hash)
      ensures replaced == null && capacity > 0 ==> forall h :: h in old(Cached()) ==> !h.Matches(key, hash)
      ensures Cached() == old(Cached()) - {replaced} + (if capacity > 0 then {e} else {})
      ensures e !in ToHandles(lru)
    {
      hide Without, Counted, ToHandles, Table.Valid, Table.Contents;
      e := MakeEntry(key, hash, value, charge);
      replaced := null;
      if capacity > 0 {
        var before := table.Insert(e);
        if before != null {
          FinishErase(before);
        }
        replaced := before;
      }
    }

    /** The eviction loop of an insertion. */
    method Evict() returns (ghost evicted: seq<Handle>)
      requires Valid()
      modifies this`lru, this`inUse, this`deleted, this`usage, table, Cached()
      ensures Valid() && (usage <= capacity || lru == [])
      ensures evicted != [] ==> usage + evicted[|evicted| - 1].charge > capacity
      ensures evicted + lru == old(lru) && Cached() == old(Cached()) - ToHandles(evicted)
      ensures deleted == old(deleted) + evicted
    {
      hide Valid, ToHandles;
      evicted := [];
      assert ToHandles(evicted) == {} by { NoHandles(); }
      while usage > capacity && lru != []
        invariant Valid()
        invariant evicted != [] ==> usage + evicted[|evicted| - 1].charge > capacity
        invariant evicted + lru == old(lru) && Cached() == old(Cached()) - ToHandles(evicted)
        invariant deleted == old(deleted) + evicted
        decreases |lru|
      {
        ghost var oldest := lru[0];
        LastHandle(evicted, oldest);
        EvictOldest();
        evicted := evicted + [oldest];
      }
    }

    /** One turn of the eviction loop. */
    method EvictOldest()
      requires Valid() && lru != []
      modifies this`lru, this`inUse, this`deleted, this`usage, table, Cached()
      ensures Valid() && old(lru) == [old(lru)[0]] + lru && Cached() == old(Cached()) - {old(lru)[0]}
      ensures usage == old(usage) - old(lru)[0].charge && deleted == old(deleted) + [old(lru)[0]]
    {
      hide Books, EntryOk, ToHandles, Chains, Chain, All, Without;
      var e := lru[0];
      OldestIsUnused();
      var r := table.Remove(e.key, e.hash);
      MatchIsUnique(old(table.buckets), old(table.length), r, e);
      FinishErase(e);
    }

    lemma OldestIsUnused()
      requires Counted() && lru != []
      ensures lru[0] in Cached() && held[lru[0]] == 0
      ensures Without(lru, lru[0]) == lru[1..] && lru == [lru[0]] + lru[1..]
    {
      FirstHandle(lru);
      assert EntryOk(lru[0]);
    }

    /** Deletes every unused entry. */
    method Prune()
      requires Valid()
      modifies this`lru, this`inUse, this`deleted, this`usage, table, Cached()
      ensures Valid() && lru == [] && deleted == old(deleted) + old(lru)
      ensures Cached() == old(Cached()) - ToHandles(old(lru))
    {
      hide Valid, ToHandles;
      ghost var evicted: seq<Handle> := [];
      assert ToHandles(evicted) == {} by { NoHandles(); }
      while lru != []
        invariant Valid()
        invariant evicted + lru == old(lru) && Cached() == old(Cached()) - ToHandles(evicted)
        invariant deleted == old(deleted) + evicted
        decreases |lru|
      {
        ghost var oldest := lru[0];
        LastHandle(evicted, oldest);
        EvictOldest();
        evicted := evicted + [oldest];
      }
      assert evicted == old(lru);
    }
  }
}
