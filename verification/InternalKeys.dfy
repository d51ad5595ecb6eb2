/** Internal keys as bytes, their comparator, and the shortened keys of the index. */
module InternalKeys {
  import opened Bytes
  import opened DbFormat
  import opened Coding

  function UserKeyOf(k: Slice): Slice { if |k| < 8 then [] else k[..|k| - 8] }

  function TagOf(k: Slice): nat { if |k| < 8 then 0 else DecodeFixed(k[|k| - 8..]) }

  /** User keys ascending, then tags descending. */
  predicate InternalLess(a: Slice, b: Slice) {
    Less(UserKeyOf(a), UserKeyOf(b)) || (UserKeyOf(a) == UserKeyOf(b) && TagOf(a) > TagOf(b))
  }

  function PackSequenceAndType(sequence: nat, t: ValueType): nat { sequence * 256 + if t.Value? then 1 else 0 }

  function AppendInternalKey(user: Slice, sequence: nat, t: ValueType): Slice {
    user + Fixed64(PackSequenceAndType(sequence, t))
  }

  lemma AppendedKey(user: Slice, sequence: nat, t: ValueType)
    requires sequence <= MAX_SEQUENCE_NUMBER
    ensures var k := AppendInternalKey(user, sequence, t);
      UserKeyOf(k) == user && TagOf(k) == PackSequenceAndType(sequence, t) && |k| >= 8
  {
    hide Fixed, DecodeFixed;
    var k := AppendInternalKey(user, sequence, t);
    Fixed64RoundTrip(PackSequenceAndType(sequence, t));
    assert k[..|k| - 8] == user && k[|k| - 8..] == Fixed64(PackSequenceAndType(sequence, t));
  }

  /** The byte comparator is the order on internal keys. */
  lemma ByteOrderIsInternalOrder(u: Slice, s: nat, t: ValueType, v: Slice, r: nat, w: ValueType)
    requires s <= MAX_SEQUENCE_NUMBER && r <= MAX_SEQUENCE_NUMBER
    ensures InternalLess(AppendInternalKey(u, s, t), AppendInternalKey(v, r, w))
      <==> Before(InternalKey(Rank(u), s, t), InternalKey(Rank(v), r, w))
  {
    hide AppendInternalKey, Less, Rank, UserKeyOf, TagOf;
    AppendedKey(u, s, t);
    AppendedKey(v, r, w);
    RankEmbedsBytewiseOrder(u, v);
  }

  lemma InternalLessIsStrict(a: Slice, b: Slice, c: Slice)
    ensures !InternalLess(a, a)
    ensures InternalLess(a, b) && InternalLess(b, c) ==> InternalLess(a, c)
  {
    hide Less, UserKeyOf, TagOf;
    LessIsTotalOrder(UserKeyOf(a), UserKeyOf(b), UserKeyOf(c));
    LessIsTotalOrder(UserKeyOf(a), UserKeyOf(a), UserKeyOf(a));
  }

  // ----------------------------------------------------------- bytewise shortening

  /** Bytes that agree up to n are ordered by byte n. */
  lemma {:induction false} DecidedAt(a: Slice, b: Slice, n: nat)
    requires n < |a| && n < |b| && a[..n] == b[..n] && a[n] != b[n]
    ensures Less(a, b) <==> a[n] < b[n]
  {
    if n > 0 {
      assert a[0] == a[..n][0] && b[0] == b[..n][0];
      assert a[1..][..n - 1] == a[..n][1..] && b[1..][..n - 1] == b[..n][1..];
      DecidedAt(a[1..], b[1..], n - 1);
    }
  }

  /** r is start up to the first byte that differs, that byte raised by one. */
  predicate ShortenedAt(start: Slice, limit: Slice, r: Slice, i: nat) {
    && i < |start| && i < |limit| && |r| == i + 1 && start[..i] == limit[..i] == r[..i] && r[i] < limit[i]
    && var was: int, now: int := start[i], r[i]; now == was + 1
  }

  /** At the first byte that differs there is room for a byte in between. */
  predicate CanShorten(start: Slice, limit: Slice, i: nat) {
    i < |start| && i < |limit| && start[..i] == limit[..i] &&
    var low: int := start[i]; low + 1 < limit[i]
  }

  /** There is room at the first byte that differs or nowhere. */
  lemma OnlyRoom(start: Slice, limit: Slice, diff: nat)
    requires diff <= |start| && diff <= |limit| && start[..diff] == limit[..diff]
    requires diff < |start| && diff < |limit| ==> start[diff] != limit[diff]
    ensures forall i: nat :: CanShorten(start, limit, i) ==> i == diff
  {
    forall i: nat | CanShorten(start, limit, i) ensures i == diff {
      if i < diff {
        SameByte(start, limit, diff, i);
      } else if diff < i {
        SameByte(start, limit, i, diff);
      }
    }
  }

  lemma SameByte(a: Slice, b: Slice, n: nat, i: nat)
    requires n <= |a| && n <= |b| && i < n && a[..n] == b[..n]
    ensures a[i] == b[i]
  {
    assert a[i] == a[..n][i] && b[i] == b[..n][i];
  }

  /** A short string in [start, limit): start is kept exactly when there is no room. */
  method FindShortestSeparator(start: Slice, limit: Slice) returns (r: Slice)
    ensures |r| <= |start| && !Less(r, start)
    ensures Less(start, limit) ==> Less(r, limit)
    ensures r == start <==> forall i: nat :: !CanShorten(start, limit, i)
    ensures r == start || exists i :: ShortenedAt(start, limit, r, i)
  {
    r := start;
    LessIsTotalOrder(start, start, start);
    var minLength := if |start| < |limit| then |start| else |limit|;
    var diff := 0;
    while diff < minLength && start[diff] == limit[diff]
      invariant diff <= minLength && start[..diff] == limit[..diff]
    {
      diff := diff + 1;
    }
    OnlyRoom(start, limit, diff);
    if diff < minLength {
      var byte := start[diff];
      if byte < 0xff && byte + 1 < limit[diff] {
        r := start[..diff] + [byte + 1];
        assert r[..diff] == start[..diff];
        DecidedAt(r, limit, diff);
        DecidedAt(r, start, diff);
        assert ShortenedAt(start, limit, r, diff) && CanShorten(start, limit, diff) && r[diff] != start[diff];
      }
    }
  }

  /** r is the key up to its first byte that is not 0xff, that byte raised by one. */
  predicate RaisedAt(key: Slice, r: Slice, i: nat) {
    && i < |key| && |r| == i + 1 && r[..i] == key[..i] && (forall j :: 0 <= j < i ==> key[j] == 0xff)
    && var was: int, now: int := key[i], r[i]; now == was + 1
  }

  /** A short string at or after the key. */
  method FindShortSuccessor(key: Slice) returns (r: Slice)
    ensures |r| <= |key| && !Less(r, key)
    ensures r == key <==> forall i :: 0 <= i < |key| ==> key[i] == 0xff
    ensures r == key || exists i :: RaisedAt(key, r, i)
  {
    LessIsTotalOrder(key, key, key);
    for i := 0 to |key|
      invariant forall j :: 0 <= j < i ==> key[j] == 0xff
    {
      var byte := key[i];
      if byte != 0xff {
        r := key[..i] + [byte + 1];
        assert r[..i] == key[..i];
        DecidedAt(r, key, i);
        assert r[i] != key[i] && RaisedAt(key, r, i);
        return;
      }
    }
    r := key;
  }

  // ------------------------------------------------------------ internal shortening

  /** How a separator that is not the start itself lies between the user keys. */
  ghost predicate Separates(start: Slice, r: Slice, limit: Slice) {
    r == start || (|r| >= 8 && Less(UserKeyOf(start), UserKeyOf(r)) && Less(UserKeyOf(r), UserKeyOf(limit)))
  }

  lemma OneRoom(start: Slice, limit: Slice, r: Slice, i: nat)
    requires ShortenedAt(start, limit, r, i)
    ensures r != start && CanShorten(start, limit, i) && forall j: nat :: CanShorten(start, limit, j) ==> j == i
  {
    var a, b := start[i], limit[i];
    OnlyRoom(start, limit, i);
  }

  lemma CutLength(start: Slice, limit: Slice, r: Slice, i: nat)
    requires ShortenedAt(start, limit, r, i)
    ensures |r| == i + 1
  {
  }

  lemma OneRaised(key: Slice, r: Slice, i: nat)
    requires RaisedAt(key, r, i)
    ensures r != key && |r| == i + 1 && i < |key| && key[i] != 0xff && forall j :: 0 <= j < i ==> key[j] == 0xff
  {
    var a, b := key[i], r[i];
  }

  /** The user key of start was cut after the first byte that differs, that byte raised; the tag is the greatest there is. */
  ghost predicate CutAfter(start: Slice, r: Slice, limit: Slice)
    requires |start| >= 8 && |limit| >= 8
  {
    exists tmp: Slice, i: nat :: ShortenedAt(UserKeyOf(start), UserKeyOf(limit), tmp, i) && i + 1 < |UserKeyOf(start)|
                                && r == AppendInternalKey(tmp, MAX_SEQUENCE_NUMBER, Value)
  }

  /** A key in [start, limit): the start itself, or one whose user key is strictly between. The start is kept exactly when
      cutting its user key would not make it shorter. */
  method FindShortestInternalSeparator(start: Slice, limit: Slice) returns (r: Slice)
    requires InternalLess(start, limit) && |start| >= 8 && |limit| >= 8
    ensures Separates(start, r, limit) && !InternalLess(r, start) && InternalLess(r, limit) && |r| <= |start|
    ensures r == start <==> forall i: nat :: CanShorten(UserKeyOf(start), UserKeyOf(limit), i) ==> i + 1 >= |UserKeyOf(start)|
    ensures r == start || CutAfter(start, r, limit)
  {
    hide Less, DecodeFixed, ShortenedAt, CanShorten;
    var userStart, userLimit := UserKeyOf(start), UserKeyOf(limit);
    var tmp := FindShortestSeparator(userStart, userLimit);
    ghost var at: nat := 0;
    if tmp != userStart {
      at :| ShortenedAt(userStart, userLimit, tmp, at);
      OneRoom(userStart, userLimit, tmp, at);
      CutLength(userStart, userLimit, tmp, at);
      LessIsTotalOrder(userStart, tmp, userStart);
    }
    LessIsTotalOrder(userStart, userLimit, userStart);
    InternalLessIsStrict(start, start, start);
    r := start;
    if |tmp| < |userStart| && Less(userStart, tmp) {
      r := AppendInternalKey(tmp, MAX_SEQUENCE_NUMBER, Value);
      AppendedKey(tmp, MAX_SEQUENCE_NUMBER, Value);
      LessIsTotalOrder(userStart, tmp, userStart);
      assert userStart == userLimit ==> tmp == userStart;
    }
  }

  ghost predicate CutAfterRaised(key: Slice, r: Slice)
    requires |key| >= 8
  {
    exists tmp: Slice, i: nat :: RaisedAt(UserKeyOf(key), tmp, i) && i + 1 < |UserKeyOf(key)|
                                && r == AppendInternalKey(tmp, MAX_SEQUENCE_NUMBER, Value)
  }

  /** A key at or after the last one: itself, or one with a greater user key. The key is kept exactly when no byte of the user
      key before its last can be raised. */
  method FindShortInternalSuccessor(key: Slice) returns (r: Slice)
    requires |key| >= 8
    ensures r == key || (|r| >= 8 && Less(UserKeyOf(key), UserKeyOf(r)))
    ensures !InternalLess(r, key) && |r| <= |key|
    ensures r == key <==> forall i :: 0 <= i < |UserKeyOf(key)| - 1 ==> UserKeyOf(key)[i] == 0xff
    ensures r == key || CutAfterRaised(key, r)
  {
    hide Less, DecodeFixed, RaisedAt;
    var userKey := UserKeyOf(key);
    var tmp := FindShortSuccessor(userKey);
    ghost var at: nat := 0;
    if tmp != userKey {
      at :| RaisedAt(userKey, tmp, at);
      OneRaised(userKey, tmp, at);
      LessIsTotalOrder(userKey, tmp, userKey);
    }
    InternalLessIsStrict(key, key, key);
    r := key;
    if |tmp| < |userKey| && Less(userKey, tmp) {
      r := AppendInternalKey(tmp, MAX_SEQUENCE_NUMBER, Value);
      AppendedKey(tmp, MAX_SEQUENCE_NUMBER, Value);
      LessIsTotalOrder(userKey, tmp, userKey);
    }
  }
}
