/** Internal keys, their order, and the multi-version map they represent. */
module DbFormat {
  import opened Bytes

  datatype Option<+T> = None | Some(value: T)

  /** A user key is its position in the (countable) order of the user comparator;
      Bytes.RankEmbedsBytewiseOrder gives the position of a byte string. */
  type UserKey = real

  datatype ValueType = Deletion | Value

  const MAX_SEQUENCE_NUMBER: nat := 0xFF_FFFF_FFFF_FFFF

  datatype InternalKey = InternalKey(user: UserKey, sequence: nat, typ: ValueType) {
    /** The packed trailer: sequence number above one type byte. */
    function Tag(): nat { sequence * 256 + if typ.Value? then 1 else 0 }
  }

  /** InternalKeyComparator: user keys ascending, then packed trailers descending. */
  predicate Before(a: InternalKey, b: InternalKey) {
    a.user < b.user || (a.user == b.user && a.Tag() > b.Tag())
  }

  datatype Entry = Entry(key: InternalKey, value: Slice)

  /** The key used to look up a user key at a snapshot. */
  function LookupKey(k: UserKey, snapshot: nat): InternalKey {
    InternalKey(k, snapshot, Value)
  }

  /** Entries in internal order. Every write has its own sequence number, so two
      entries of one user key are always told apart by sequence number. */
  predicate Sorted(es: seq<Entry>) {
    forall i, j :: 0 <= i < j < |es| ==> Precedes(es[i], es[j])
  }

  lemma SortedParts(a: seq<Entry>, b: seq<Entry>)
    requires Sorted(a + b)
    ensures Sorted(a) && Sorted(b)
  {
    forall i, j | 0 <= i < j < |a| ensures Precedes(a[i], a[j]) {
      assert (a + b)[i] == a[i] && (a + b)[j] == a[j];
    }
    forall i, j | 0 <= i < j < |b| ensures Precedes(b[i], b[j]) {
      assert (a + b)[|a| + i] == b[i] && (a + b)[|a| + j] == b[j];
    }
  }

  predicate Precedes(a: Entry, b: Entry) {
    a.key.user < b.key.user || (a.key.user == b.key.user && a.key.sequence > b.key.sequence)
  }

  /** On entries with distinct sequence numbers Precedes is the internal key order. */
  lemma PrecedesIsInternalOrder(a: Entry, b: Entry)
    requires a.key.sequence != b.key.sequence || a.key.user != b.key.user
    ensures Precedes(a, b) <==> Before(a.key, b.key)
  {
  }

  // ------------------------------------------------------ the multi-version map

  /** e is the newest entry of user key k that snapshot s can see. */
  ghost predicate Newest(es: set<Entry>, k: UserKey, s: nat, e: Entry) {
    && e in es && e.key.user == k && e.key.sequence <= s
    && forall x :: x in es && x.key.user == k && x.key.sequence <= s ==> x.key.sequence <= e.key.sequence
  }

  /** What a read of k at snapshot s answers; a deletion reads as absent. */
  ghost function Read(es: set<Entry>, k: UserKey, s: nat): Option<Slice> {
    if exists e :: Newest(es, k, s, e) && e.key.typ.Value?
    then var e :| Newest(es, k, s, e) && e.key.typ.Value?; Some(e.value)
    else None
  }

  ghost predicate DistinctSeqs(es: set<Entry>) {
    forall x, y :: x in es && y in es && x.key.user == y.key.user && x.key.sequence == y.key.sequence ==> x == y
  }

  /** What one entry answers. */
  function Answer(e: Entry): Option<Slice> {
    if e.key.typ.Value? then Some(e.value) else None
  }

  lemma ReadNewest(es: set<Entry>, k: UserKey, s: nat, e: Entry)
    requires DistinctSeqs(es) && Newest(es, k, s, e)
    ensures Read(es, k, s) == Answer(e)
  {
  }

  /** Every visible key has a newest entry. */
  lemma {:induction false} NewestExists(es: set<Entry>, k: UserKey, s: nat, x: Entry) returns (e: Entry)
    requires x in es && x.key.user == k && x.key.sequence <= s
    ensures Newest(es, k, s, e)
    decreases s - x.key.sequence
  {
    if y :| y in es && y.key.user == k && x.key.sequence < y.key.sequence <= s {
      e := NewestExists(es, k, s, y);
    } else {
      e := x;
    }
  }

  // ------------------------------------------------------------ seeking

  function ToSet(es: seq<Entry>): set<Entry> { set e | e in es }

  /** Where Seek(target) stops in a sorted run of entries. */
  function SeekIndex(es: seq<Entry>, target: InternalKey): (i: nat)
    ensures i <= |es|
    ensures forall j :: 0 <= j < i ==> Before(es[j].key, target)
    ensures i < |es| ==> !Before(es[i].key, target)
  {
    if es == [] || !Before(es[0].key, target) then 0 else 1 + SeekIndex(es[1..], target)
  }

  /** The entry under a seek to (k, s) decides the read of k in a sorted run: it is
      the newest visible entry if it belongs to k, and otherwise there is none. */
  lemma SeekFindsNewest(es: seq<Entry>, k: UserKey, s: nat)
    requires Sorted(es)
    ensures var i := SeekIndex(es, LookupKey(k, s));
      if i < |es| && es[i].key.user == k then Newest(ToSet(es), k, s, es[i])
      else forall x :: x in es ==> !(x.key.user == k && x.key.sequence <= s)
  {
    var i := SeekIndex(es, LookupKey(k, s));
    forall x | x in es && x.key.user == k && x.key.sequence <= s
      ensures i < |es| && es[i].key.user == k && x.key.sequence <= es[i].key.sequence
    {
      var j :| 0 <= j < |es| && es[j] == x;
      assert j >= i;
      assert j == i || Precedes(es[i], es[j]);
    }
  }

  lemma SortedHasDistinctSeqs(es: seq<Entry>)
    requires Sorted(es)
    ensures DistinctSeqs(ToSet(es))
  {
  }
}
