/** The user-visible iterator over internal entries at a snapshot. */
module DBIter {
  import opened Bytes
  import opened DbFormat
  import opened Cursors

  // -------------------------------------------------------- the view of a snapshot

  /** Key k has a value at snapshot s. */
  ghost predicate Live(es: seq<Entry>, s: nat, k: UserKey) {
    Read(ToSet(es), k, s).Some?
  }

  /** The keys a seek or a step may stop at. */
  datatype Bound = Any | From(k: UserKey) | After(k: UserKey) | UpTo(k: UserKey) {
    predicate Admits(j: UserKey) {
      match this
      case Any => true
      case From(k) => k <= j
      case After(k) => k < j
      case UpTo(k) => j < k
    }
  }

  ghost predicate LeastLive(es: seq<Entry>, s: nat, bound: Bound, r: Option<UserKey>) {
    match r
    case Some(k) => Live(es, s, k) && bound.Admits(k) && forall j :: Live(es, s, j) && bound.Admits(j) ==> k <= j
    case None => forall j :: Live(es, s, j) ==> !bound.Admits(j)
  }

  ghost predicate GreatestLive(es: seq<Entry>, s: nat, bound: Bound, r: Option<UserKey>) {
    match r
    case Some(k) => Live(es, s, k) && bound.Admits(k) && forall j :: Live(es, s, j) && bound.Admits(j) ==> j <= k
    case None => forall j :: Live(es, s, j) ==> !bound.Admits(j)
  }

  /** Stepping back after stepping on returns to the key the step left. */
  lemma PrevUndoesNext(es: seq<Entry>, s: nat, k: UserKey, j: UserKey)
    requires Live(es, s, k) && LeastLive(es, s, After(k), Some(j))
    ensures GreatestLive(es, s, UpTo(j), Some(k))
  {
    forall i | Live(es, s, i) && i < j ensures i <= k {
      assert !After(k).Admits(i);
    }
  }

  predicate Visible(e: Entry, s: nat) { e.key.sequence <= s }

  /** The first visible entry of a user key decides what the snapshot reads. */
  lemma FirstVisibleDecides(es: seq<Entry>, s: nat, i: nat)
    requires Sorted(es) && i < |es| && Visible(es[i], s)
    requires forall q :: 0 <= q < i && es[q].key.user == es[i].key.user ==> !Visible(es[q], s)
    ensures Read(ToSet(es), es[i].key.user, s) == Answer(es[i])
  {
    SortedHasDistinctSeqs(es);
    forall x | x in ToSet(es) && x.key.user == es[i].key.user && x.key.sequence <= s
      ensures x.key.sequence <= es[i].key.sequence
    {
      var q :| 0 <= q < |es| && es[q] == x;
      assert q == i || (i < q && Precedes(es[i], es[q]));
    }
    assert Newest(ToSet(es), es[i].key.user, s, es[i]);
    ReadNewest(ToSet(es), es[i].key.user, s, es[i]);
  }

  /** A live key has a visible entry. */
  lemma LiveIsVisible(es: seq<Entry>, s: nat, k: UserKey) returns (q: nat)
    requires Live(es, s, k)
    ensures q < |es| && es[q].key.user == k && Visible(es[q], s)
  {
    var e :| Newest(ToSet(es), k, s, e) && e.key.typ.Value?;
    q :| 0 <= q < |es| && es[q] == e;
  }

  lemma KeysAscend(es: seq<Entry>)
    requires Sorted(es)
    ensures forall i, j :: 0 <= i < j < |es| ==> es[i].key.user <= es[j].key.user
  {
    forall i, j | 0 <= i < j < |es| ensures es[i].key.user <= es[j].key.user {
      assert Precedes(es[i], es[j]);
    }
  }

  // ------------------------------------------------------------ scan invariants

  /** Scanning forward for the least live key within a bound: entries before p that the
      snapshot sees and the bound admits belong to keys <= skip, and no such key is live. */
  ghost predicate ForwardScan(es: seq<Entry>, s: nat, bound: Bound, p: nat, skip: Option<UserKey>) {
    && p <= |es|
    && (forall q :: 0 <= q < p && Visible(es[q], s) && bound.Admits(es[q].key.user) ==>
          skip.Some? && es[q].key.user <= skip.value)
    && (forall q :: p <= q < |es| ==> bound.Admits(es[q].key.user) || (skip.Some? && es[q].key.user <= skip.value))
    && (skip.Some? ==> forall q :: p <= q < |es| && Visible(es[q], s) ==> skip.value <= es[q].key.user)
    && (skip.Some? ==> forall k :: Live(es, s, k) && bound.Admits(k) ==> skip.value < k)
  }

  /** Past all visible entries of keys up to skip. */
  lemma AcceptForward(es: seq<Entry>, s: nat, bound: Bound, p: nat, skip: Option<UserKey>)
    requires Sorted(es) && ForwardScan(es, s, bound, p, skip) && p < |es| && Visible(es[p], s)
    requires skip.Some? ==> skip.value < es[p].key.user
    ensures Read(ToSet(es), es[p].key.user, s) == Answer(es[p])
    ensures bound.Admits(es[p].key.user)
    ensures es[p].key.typ.Value? ==> LeastLive(es, s, bound, Some(es[p].key.user))
  {
    KeysAscend(es);
    FirstVisibleDecides(es, s, p);
    forall k | Live(es, s, k) && bound.Admits(k) ensures es[p].key.user <= k {
      var q := LiveIsVisible(es, s, k);
    }
  }

  /** A scan that has passed the entries of a key. */
  lemma StartAfter(es: seq<Entry>, s: nat, key: UserKey, p: nat)
    requires p <= |es| && forall q :: 0 <= q < p ==> es[q].key.user <= key
    requires forall q :: p <= q < |es| && Visible(es[q], s) ==> key <= es[q].key.user
    ensures ForwardScan(es, s, After(key), p, Some(key))
  {
  }

  /** Past an entry that the snapshot does not see, or whose key was skipped. */
  lemma PassForward(es: seq<Entry>, s: nat, bound: Bound, p: nat, skip: Option<UserKey>)
    requires ForwardScan(es, s, bound, p, skip) && p < |es|
    requires !Visible(es[p], s) || (skip.Some? && es[p].key.user <= skip.value)
    ensures ForwardScan(es, s, bound, p + 1, skip)
  {
  }

  lemma SkipDeletion(es: seq<Entry>, s: nat, bound: Bound, p: nat, skip: Option<UserKey>)
    requires Sorted(es) && ForwardScan(es, s, bound, p, skip) && p < |es| && Visible(es[p], s)
    requires es[p].key.typ.Deletion?
    ensures ForwardScan(es, s, bound, p + 1, Some(es[p].key.user))
  {
    KeysAscend(es);
    if skip.None? || skip.value < es[p].key.user {
      AcceptForward(es, s, bound, p, skip);
      forall k | Live(es, s, k) && bound.Admits(k) ensures es[p].key.user < k {
        assert k != es[p].key.user;
      }
    }
  }

  lemma ScanEnds(es: seq<Entry>, s: nat, bound: Bound, skip: Option<UserKey>)
    requires ForwardScan(es, s, bound, |es|, skip)
    ensures LeastLive(es, s, bound, None)
  {
    forall k | Live(es, s, k) ensures !bound.Admits(k) {
      var q := LiveIsVisible(es, s, k);
    }
  }

  /** Scanning backward for the greatest live key within a bound. f is the lowest visible
      entry met so far (|es| when none), p the next one to look at. */
  ghost predicate BackwardScan(es: seq<Entry>, s: nat, bound: Bound, below: nat, f: nat) {
    && below <= f <= |es|
    && (forall q :: below <= q < f && bound.Admits(es[q].key.user) ==> !Visible(es[q], s))
    && (forall q :: 0 <= q < below ==> bound.Admits(es[q].key.user))
    && (f < |es| ==> Visible(es[f], s) && bound.Admits(es[f].key.user))
    && (f < |es| ==> forall k :: Live(es, s, k) && bound.Admits(k) ==> k <= es[f].key.user)
    && (f == |es| ==> forall q :: below <= q < |es| && bound.Admits(es[q].key.user) ==> !Visible(es[q], s))
  }

  /** When the next visible entry has a smaller key, or there is none, es[f] decides its key. */
  lemma AcceptBackward(es: seq<Entry>, s: nat, bound: Bound, below: nat, f: nat)
    requires Sorted(es) && BackwardScan(es, s, bound, below, f) && f < |es| && (bound.Any? || bound.UpTo?)
    requires below > 0 ==> es[below - 1].key.user < es[f].key.user
    ensures Read(ToSet(es), es[f].key.user, s) == Answer(es[f])
    ensures es[f].key.typ.Value? ==> GreatestLive(es, s, bound, Some(es[f].key.user))
    ensures forall q :: below <= q < |es| && es[q].key.user < es[f].key.user ==> !Visible(es[q], s)
  {
    KeysAscend(es);
    FirstVisibleDecides(es, s, f);
  }

  lemma PassInvisible(es: seq<Entry>, s: nat, bound: Bound, below: nat, f: nat)
    requires BackwardScan(es, s, bound, below, f) && below > 0 && !Visible(es[below - 1], s)
    ensures BackwardScan(es, s, bound, below - 1, f)
  {
  }

  lemma StepBackward(es: seq<Entry>, s: nat, bound: Bound, below: nat, f: nat)
    requires Sorted(es) && BackwardScan(es, s, bound, below, f) && below > 0 && Visible(es[below - 1], s)
    requires f < |es| ==> es[f].key.typ.Deletion? || es[f].key.user <= es[below - 1].key.user
    requires bound.Any? || bound.UpTo?
    ensures BackwardScan(es, s, bound, below - 1, below - 1)
  {
    KeysAscend(es);
    var p := below - 1;
    forall k | Live(es, s, k) && bound.Admits(k) ensures k <= es[p].key.user {
      var q := LiveIsVisible(es, s, k);
      if es[p].key.user < k && f < |es| {
        AcceptBackward(es, s, bound, below, f);
      }
    }
  }

  lemma BackwardEnds(es: seq<Entry>, s: nat, bound: Bound, f: nat)
    requires Sorted(es) && BackwardScan(es, s, bound, 0, f) && (f < |es| ==> es[f].key.typ.Deletion?)
    requires bound.Any? || bound.UpTo?
    ensures GreatestLive(es, s, bound, None)
  {
    KeysAscend(es);
    if f < |es| {
      AcceptBackward(es, s, bound, 0, f);
    }
    forall k | Live(es, s, k) ensures !bound.Admits(k) {
      var q := LiveIsVisible(es, s, k);
    }
  }

  // ------------------------------------------------------------------- the iterator

  datatype Direction = Forward | Reverse

  class DBIterator {
    const iter: Cursor
    const sequence: nat
    var savedKey: Option<UserKey>
    var savedValue: Slice
    var direction: Direction
    var valid: bool

    /** In the forward direction the internal iterator is at the entry that yields the
        current key; in reverse it is before all visible entries of smaller keys. */
    ghost predicate Inv() reads this, iter {
      var es, p := iter.es, iter.pos;
      && Sorted(es) && p <= |es|
      && (valid && direction.Forward? ==>
            p < |es| && Visible(es[p], sequence) && Read(ToSet(es), es[p].key.user, sequence) == Answer(es[p])
            && es[p].key.typ.Value?)
      && (valid && direction.Reverse? ==>
            && savedKey.Some? && Read(ToSet(es), savedKey.value, sequence) == Some(savedValue)
            && (p < |es| ==> es[p].key.user < savedKey.value)
            && forall q :: (if p < |es| then p + 1 else 0) <= q < |es| && es[q].key.user < savedKey.value ==>
                 !Visible(es[q], sequence))
    }

    constructor (iter: Cursor, sequence: nat)
      requires Sorted(iter.es) && iter.pos <= |iter.es|
      ensures Inv() && !valid && this.iter == iter && this.sequence == sequence
    {
      this.iter, this.sequence := iter, sequence;
      savedKey, savedValue, direction, valid := None, [], Forward, false;
    }

    function Key(): UserKey
      requires Inv() && valid
      reads this, iter
    {
      if direction.Forward? then iter.es[iter.pos].key.user else savedKey.value
    }

    function Value(): Slice
      requires Inv() && valid
      reads this, iter
    {
      if direction.Forward? then iter.es[iter.pos].value else savedValue
    }

    /** The key the iterator is at, if any. */
    function At(): Option<UserKey>
      requires Inv()
      reads this, iter
    {
      if valid then Some(Key()) else None
    }

    /** Where it is valid the iterator shows what a read of its key answers. */
    lemma ShowsRead()
      requires Inv() && valid
      ensures Live(iter.es, sequence, Key()) && Read(ToSet(iter.es), Key(), sequence) == Some(Value())
    {
    }

    method Seek(target: UserKey)
      requires Inv()
      modifies this, iter
      ensures Inv() && LeastLive(iter.es, sequence, From(target), At())
    {
      direction := Forward;
      savedKey, savedValue := None, [];
      iter.Seek(LookupKey(target, sequence));
      SeekStart(target);
      if iter.Valid() {
        FindNextUserEntry(false, From(target));
      } else {
        valid := false;
        ScanEnds(iter.es, sequence, From(target), None);
      }
    }

    lemma SeekStart(target: UserKey)
      requires Sorted(iter.es) && iter.pos == SeekIndex(iter.es, LookupKey(target, sequence))
      ensures ForwardScan(iter.es, sequence, From(target), iter.pos, None)
    {
      KeysAscend(iter.es);
    }

    method SeekToFirst()
      requires Inv()
      modifies this, iter
      ensures Inv() && LeastLive(iter.es, sequence, Any, At())
    {
      direction := Forward;
      savedValue := [];
      iter.SeekToFirst();
      if iter.Valid() {
        FindNextUserEntry(false, Any);
      } else {
        valid := false;
        ScanEnds(iter.es, sequence, Any, None);
      }
    }

    method SeekToLast()
      requires Inv()
      modifies this, iter
      ensures Inv() && GreatestLive(iter.es, sequence, Any, At())
    {
      direction := Reverse;
      savedValue := [];
      iter.SeekToLast();
      FindPrevUserEntry(Any);
    }

    method Next()
      requires Inv() && valid
      modifies this, iter
      ensures Inv() && LeastLive(iter.es, sequence, After(old(Key())), At())
    {
      hide LeastLive, Live, ForwardScan;
      ghost var key := Key();
      KeysAscend(iter.es);
      if direction.Reverse? {
        direction := Forward;
        if !iter.Valid() {
          iter.SeekToFirst();
        } else {
          iter.Next();
        }
        if !iter.Valid() {
          // This branch would make the iterator invalid; the entries of the current key always follow.
          assert false;
        }
      } else {
        savedKey := Some(iter.es[iter.pos].key.user);
      }
      StartAfter(iter.es, sequence, key, iter.pos);
      FindNextUserEntry(true, After(key));
    }

    /** Runs forward to the first entry the snapshot shows; with skipping, past savedKey. */
    method FindNextUserEntry(skipping: bool, ghost bound: Bound)
      requires Sorted(iter.es) && iter.Valid() && direction.Forward?
      requires skipping ==> savedKey.Some?
      requires ForwardScan(iter.es, sequence, bound, iter.pos, if skipping then savedKey else None)
      modifies this, iter
      ensures Inv() && LeastLive(iter.es, sequence, bound, At())
    {
      hide ForwardScan, Sorted, LeastLive, Live;
      var skip := skipping;
      while iter.Valid()
        invariant direction.Forward? && iter.pos <= |iter.es| && Sorted(iter.es)
        invariant skip ==> savedKey.Some?
        invariant ForwardScan(iter.es, sequence, bound, iter.pos, if skip then savedKey else None)
        decreases |iter.es| - iter.pos
      {
        var e := iter.es[iter.pos];
        if e.key.sequence <= sequence {
          if e.key.typ.Deletion? {
            SkipDeletion(iter.es, sequence, bound, iter.pos, if skip then savedKey else None);
            savedKey := Some(e.key.user);
            skip := true;
          } else if skip && e.key.user <= savedKey.value {
            PassForward(iter.es, sequence, bound, iter.pos, savedKey);
          } else {
            AcceptForward(iter.es, sequence, bound, iter.pos, if skip then savedKey else None);
            valid := true;
            savedKey := None;
            return;
          }
        } else {
          PassForward(iter.es, sequence, bound, iter.pos, if skip then savedKey else None);
        }
        iter.Next();
      }
      ScanEnds(iter.es, sequence, bound, if skip then savedKey else None);
      savedKey := None;
      valid := false;
    }

    method Prev()
      requires Inv() && valid
      modifies this, iter
      ensures Inv() && GreatestLive(iter.es, sequence, UpTo(old(Key())), At())
    {
      hide Live, Read, GreatestLive;
      ghost var key := Key();
      if direction.Forward? {
        savedKey := Some(iter.es[iter.pos].key.user);
        LeaveCurrentKey();
        if !iter.Valid() {
          BackwardEnds(iter.es, sequence, UpTo(key), |iter.es|);
          valid := false;
          savedKey, savedValue := None, [];
          return;
        }
        direction := Reverse;
      }
      assert BackwardScan(iter.es, sequence, UpTo(key), if iter.pos < |iter.es| then iter.pos + 1 else 0, |iter.es|) by {
        KeysAscend(iter.es);
      }
      FindPrevUserEntry(UpTo(key));
    }

    /** Scans backward until the key changes. */
    method LeaveCurrentKey()
      requires Sorted(iter.es) && iter.Valid() && savedKey == Some(iter.es[iter.pos].key.user)
      modifies iter
      ensures iter.pos <= |iter.es| && (iter.Valid() ==> iter.es[iter.pos].key.user < savedKey.value)
      ensures forall q :: (if iter.Valid() then iter.pos + 1 else 0) <= q < |iter.es| ==> savedKey.value <= iter.es[q].key.user
    {
      KeysAscend(iter.es);
      while true
        invariant iter.Valid() && forall q :: iter.pos <= q < |iter.es| ==> savedKey.value <= iter.es[q].key.user
        decreases iter.pos
      {
        iter.Prev();
        if !iter.Valid() || iter.es[iter.pos].key.user < savedKey.value {
          return;
        }
      }
    }

    /** Runs backward over the entries of the greatest key the snapshot shows. */
    method FindPrevUserEntry(ghost bound: Bound)
      requires Sorted(iter.es) && iter.pos <= |iter.es| && direction.Reverse? && (bound.Any? || bound.UpTo?)
      requires BackwardScan(iter.es, sequence, bound, if iter.pos < |iter.es| then iter.pos + 1 else 0, |iter.es|)
      modifies this, iter
      ensures Inv() && GreatestLive(iter.es, sequence, bound, At())
    {
      hide Sorted, Live, Read, GreatestLive, BackwardScan;
      var es := iter.es;
      var valueType := Deletion;
      ghost var f: nat := |es|;
      while iter.Valid()
        invariant direction.Reverse? && iter.pos <= |es| && f <= |es| && es == iter.es
        invariant BackwardScan(es, sequence, bound, if iter.pos < |es| then iter.pos + 1 else 0, f)
        invariant f < |es| ==> valueType == es[f].key.typ
        invariant f == |es| ==> valueType.Deletion?
        invariant valueType.Value? ==> savedKey == Some(es[f].key.user) && savedValue == es[f].value
        decreases if iter.pos < |es| then iter.pos + 1 else 0
      {
        var e := es[iter.pos];
        if e.key.sequence <= sequence {
          if !valueType.Deletion? && e.key.user < savedKey.value {
            break;
          }
          StepBackward(es, sequence, bound, iter.pos + 1, f);
          f := iter.pos;
          valueType := e.key.typ;
          if valueType.Deletion? {
            savedKey, savedValue := None, [];
          } else {
            savedKey, savedValue := Some(e.key.user), e.value;
          }
        } else {
          PassInvisible(es, sequence, bound, iter.pos + 1, f);
        }
        iter.Prev();
      }
      if valueType.Deletion? {
        BackwardEnds(es, sequence, bound, f);
        valid := false;
        savedKey, savedValue := None, [];
        direction := Forward;
      } else {
        AcceptBackward(es, sequence, bound, if iter.pos < |es| then iter.pos + 1 else 0, f);
        valid := true;
      }
    }
  }
}
