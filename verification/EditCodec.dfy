/** The byte form of version edits in the MANIFEST. */
module EditCodec {
  import opened Bytes
  import opened DbFormat
  import opened Coding
  import opened Files

  const COMPARATOR: nat := 1
  const LOG_NUMBER: nat := 2
  const NEXT_FILE_NUMBER: nat := 3
  const LAST_SEQUENCE: nat := 4
  const COMPACT_POINTER: nat := 5
  const DELETED_FILE: nat := 6
  const NEW_FILE: nat := 7
  const PREV_LOG_NUMBER: nat := 9

  /** What the MANIFEST records of a file; the keys are internal keys as bytes. */
  datatype Meta = Meta(number: nat, size: nat, smallest: Slice, largest: Slice)

  /** One tagged record. */
  datatype Rec =
    | Comparator(name: Slice)
    | LogNumber(n: nat)
    | PrevLogNumber(n: nat)
    | NextFileNumber(n: nat)
    | LastSequence(n: nat)
    | CompactPointer(level: nat, key: Slice)
    | DeletedFile(level: nat, n: nat)
    | NewFile(level: nat, meta: Meta)

  /** What the format can carry. */
  predicate RecOk(r: Rec) {
    match r
    case Comparator(name) => |name| < TWO32
    case LogNumber(n) => n < TWO64
    case PrevLogNumber(n) => n < TWO64
    case NextFileNumber(n) => n < TWO64
    case LastSequence(n) => n < TWO64
    case CompactPointer(level, key) => level < NUM_LEVELS && |key| < TWO32
    case DeletedFile(level, n) => level < NUM_LEVELS && n < TWO64
    case NewFile(level, m) =>
      level < NUM_LEVELS && m.number < TWO64 && m.size < TWO64 && |m.smallest| < TWO32 && |m.largest| < TWO32
  }

  function EncodeRec(r: Rec): (s: Slice)
    ensures s != []
  {
    match r
    case Comparator(name) => Varint(COMPARATOR) + LengthPrefixed(name)
    case LogNumber(n) => Varint(LOG_NUMBER) + Varint(n)
    case PrevLogNumber(n) => Varint(PREV_LOG_NUMBER) + Varint(n)
    case NextFileNumber(n) => Varint(NEXT_FILE_NUMBER) + Varint(n)
    case LastSequence(n) => Varint(LAST_SEQUENCE) + Varint(n)
    case CompactPointer(level, key) => Varint(COMPACT_POINTER) + Varint(level) + LengthPrefixed(key)
    case DeletedFile(level, n) => Varint(DELETED_FILE) + Varint(level) + Varint(n)
    case NewFile(level, m) =>
      Varint(NEW_FILE) + Varint(level) + Varint(m.number) + Varint(m.size) + LengthPrefixed(m.smallest) + LengthPrefixed(m.largest)
  }

  function EncodeRecs(rs: seq<Rec>): Slice {
    if rs == [] then [] else EncodeRec(rs[0]) + EncodeRecs(rs[1..])
  }

  // ------------------------------------------------------------------------- decoding

  datatype Problem =
    | BadComparator | BadLogNumber | BadPrevLogNumber | BadNextFileNumber | BadLastSequence
    | BadCompactPointer | BadDeletedFile | BadNewFile | UnknownTag | InvalidTag

  datatype One = Stop(problem: Problem) | Step(rec: Rec, rest: Slice)

  function GetLevel(input: Slice): (r: Parsed)
    ensures r.Got? ==> |r.rest| < |input| && r.value < NUM_LEVELS
  {
    match GetVarint32(input)
    case Fail => Fail
    case Got(v, rest) => if v < NUM_LEVELS then Got(v, rest) else Fail
  }

  function GetNumber(input: Slice, make: nat -> Rec, problem: Problem): (r: One)
    ensures r.Step? ==> |r.rest| < |input|
  {
    match GetVarint64(input)
    case Fail => Stop(problem)
    case Got(n, rest) => Step(make(n), rest)
  }

  /** A new-file entry behind its tag. */
  function GetNewFile(input: Slice): (r: One)
    ensures r.Step? ==> |r.rest| < |input|
  {
    match GetLevel(input)
    case Fail => Stop(BadNewFile)
    case Got(level, i1) =>
      (match GetVarint64(i1)
       case Fail => Stop(BadNewFile)
       case Got(number, i2) =>
         (match GetVarint64(i2)
          case Fail => Stop(BadNewFile)
          case Got(size, i3) =>
            (match GetLengthPrefixedSlice(i3)
             case NoSlice => Stop(BadNewFile)
             case GotSlice(smallest, i4) =>
               (match GetLengthPrefixedSlice(i4)
                case NoSlice => Stop(BadNewFile)
                case GotSlice(largest, i5) => Step(NewFile(level, Meta(number, size, smallest, largest)), i5)))))
  }

  /** The body of a record behind its tag. */
  function GetBody(tag: nat, input: Slice): (r: One)
    ensures r.Step? ==> |r.rest| < |input|
  {
    if tag == COMPARATOR then
      match GetLengthPrefixedSlice(input)
      case NoSlice => Stop(BadComparator)
      case GotSlice(name, rest) => Step(Comparator(name), rest)
    else if tag == LOG_NUMBER then GetNumber(input, (n: nat) => LogNumber(n), BadLogNumber)
    else if tag == PREV_LOG_NUMBER then GetNumber(input, (n: nat) => PrevLogNumber(n), BadPrevLogNumber)
    else if tag == NEXT_FILE_NUMBER then GetNumber(input, (n: nat) => NextFileNumber(n), BadNextFileNumber)
    else if tag == LAST_SEQUENCE then GetNumber(input, (n: nat) => LastSequence(n), BadLastSequence)
    else if tag == COMPACT_POINTER then
      match GetLevel(input)
      case Fail => Stop(BadCompactPointer)
      case Got(level, rest) =>
        (match GetLengthPrefixedSlice(rest)
         case NoSlice => Stop(BadCompactPointer)
         case GotSlice(key, rest') => Step(CompactPointer(level, key), rest'))
    else if tag == DELETED_FILE then
      match GetLevel(input)
      case Fail => Stop(BadDeletedFile)
      case Got(level, rest) =>
        (match GetVarint64(rest)
         case Fail => Stop(BadDeletedFile)
         case Got(n, rest') => Step(DeletedFile(level, n), rest'))
    else if tag == NEW_FILE then GetNewFile(input)
    else Stop(UnknownTag)
  }

  /** The records up to the end or the first problem. */
  function DecodeRecs(input: Slice): (seq<Rec>, Option<Problem>)
    decreases |input|
  {
    match GetVarint32(input)
    case Fail => ([], if input == [] then None else Some(InvalidTag))
    case Got(tag, rest) =>
      (match GetBody(tag, rest)
       case Stop(problem) => ([], Some(problem))
       case Step(rec, rest') => ([rec] + DecodeRecs(rest').0, DecodeRecs(rest').1))
  }

  lemma LevelRoundTrip(level: nat, rest: Slice)
    requires level < NUM_LEVELS
    ensures GetLevel(Varint(level) + rest) == Got(level, rest)
  {
    Varint32RoundTrip(level, rest);
  }

  /** The tag that a record starts with, and the bytes behind it. */
  lemma RecordParts(r: Rec, rest: Slice) returns (tag: nat, body: Slice)
    ensures EncodeRec(r) + rest == Varint(tag) + body && tag < 128
    ensures tag == match r {
      case Comparator(_) => COMPARATOR case LogNumber(_) => LOG_NUMBER case PrevLogNumber(_) => PREV_LOG_NUMBER
      case NextFileNumber(_) => NEXT_FILE_NUMBER case LastSequence(_) => LAST_SEQUENCE
      case CompactPointer(_, _) => COMPACT_POINTER case DeletedFile(_, _) => DELETED_FILE case NewFile(_, _) => NEW_FILE }
    ensures body == match r {
      case Comparator(name) => LengthPrefixed(name) + rest
      case LogNumber(n) => Varint(n) + rest
      case PrevLogNumber(n) => Varint(n) + rest
      case NextFileNumber(n) => Varint(n) + rest
      case LastSequence(n) => Varint(n) + rest
      case CompactPointer(level, key) => Varint(level) + (LengthPrefixed(key) + rest)
      case DeletedFile(level, n) => Varint(level) + (Varint(n) + rest)
      case NewFile(level, m) =>
        Varint(level) + (Varint(m.number) + (Varint(m.size) + (LengthPrefixed(m.smallest) + (LengthPrefixed(m.largest) + rest)))) }
  {
    hide Varint, LengthPrefixed;
    tag := match r {
      case Comparator(_) => COMPARATOR case LogNumber(_) => LOG_NUMBER case PrevLogNumber(_) => PREV_LOG_NUMBER
      case NextFileNumber(_) => NEXT_FILE_NUMBER case LastSequence(_) => LAST_SEQUENCE
      case CompactPointer(_, _) => COMPACT_POINTER case DeletedFile(_, _) => DELETED_FILE case NewFile(_, _) => NEW_FILE };
    body := match r {
      case Comparator(name) => LengthPrefixed(name) + rest
      case LogNumber(n) => Varint(n) + rest
      case PrevLogNumber(n) => Varint(n) + rest
      case NextFileNumber(n) => Varint(n) + rest
      case LastSequence(n) => Varint(n) + rest
      case CompactPointer(level, key) => Varint(level) + (LengthPrefixed(key) + rest)
      case DeletedFile(level, n) => Varint(level) + (Varint(n) + rest)
      case NewFile(level, m) =>
        Varint(level) + (Varint(m.number) + (Varint(m.size) + (LengthPrefixed(m.smallest) + (LengthPrefixed(m.largest) + rest)))) };
  }

  lemma RecRoundTrip(r: Rec, rest: Slice)
    requires RecOk(r)
    ensures DecodeRecs(EncodeRec(r) + rest) == ([r] + DecodeRecs(rest).0, DecodeRecs(rest).1)
  {
    hide Varint, LengthPrefixed, GetVarint32, GetVarint64, GetLengthPrefixedSlice, GetLevel, EncodeRec;
    var tag, body := RecordParts(r, rest);
    Varint32RoundTrip(tag, body);
    match r
    case Comparator(name) => LengthPrefixedRoundTrip(name, rest);
    case LogNumber(n) => Varint64RoundTrip(n, rest);
    case PrevLogNumber(n) => Varint64RoundTrip(n, rest);
    case NextFileNumber(n) => Varint64RoundTrip(n, rest);
    case LastSequence(n) => Varint64RoundTrip(n, rest);
    case CompactPointer(level, key) =>
      LevelRoundTrip(level, LengthPrefixed(key) + rest);
      LengthPrefixedRoundTrip(key, rest);
    case DeletedFile(level, n) =>
      LevelRoundTrip(level, Varint(n) + rest);
      Varint64RoundTrip(n, rest);
    case NewFile(level, m) =>
      var keys := LengthPrefixed(m.smallest) + (LengthPrefixed(m.largest) + rest);
      LevelRoundTrip(level, Varint(m.number) + (Varint(m.size) + keys));
      Varint64RoundTrip(m.number, Varint(m.size) + keys);
      Varint64RoundTrip(m.size, keys);
      LengthPrefixedRoundTrip(m.smallest, LengthPrefixed(m.largest) + rest);
      LengthPrefixedRoundTrip(m.largest, rest);
  }

  lemma {:induction false} RecsRoundTrip(rs: seq<Rec>)
    requires forall r :: r in rs ==> RecOk(r)
    ensures DecodeRecs(EncodeRecs(rs)) == (rs, None)
  {
    hide EncodeRec, GetBody;
    if rs != [] {
      RecRoundTrip(rs[0], EncodeRecs(rs[1..]));
      RecsRoundTrip(rs[1..]);
      assert [rs[0]] + rs[1..] == rs;
    }
  }

  // -------------------------------------------------------------------------- damage

  /** What is wrong with a record of which only the beginning is there, or whose level there is not. */
  function ProblemOf(r: Rec): Problem {
    match r
    case Comparator(_) => BadComparator
    case LogNumber(_) => BadLogNumber
    case PrevLogNumber(_) => BadPrevLogNumber
    case NextFileNumber(_) => BadNextFileNumber
    case LastSequence(_) => BadLastSequence
    case CompactPointer(_, _) => BadCompactPointer
    case DeletedFile(_, _) => BadDeletedFile
    case NewFile(_, _) => BadNewFile
  }

  lemma Cut(a: Slice, b: Slice, n: nat)
    requires n <= |a| + |b|
    ensures (a + b)[..n] == if n < |a| then a[..n] else a + b[..n - |a|]
  {
  }

  lemma CutNumber(v: nat, n: nat)
    requires n < |Varint(v)|
    ensures GetVarint64(Varint(v)[..n]).Fail? && GetVarint32(Varint(v)[..n]).Fail? && GetLevel(Varint(v)[..n]).Fail?
  {
    hide GetDigits, Varint;
    TruncatedVarint(v, n, 10);
    TruncatedVarint(v, n, 5);
  }

  lemma CutLevel(level: nat, b: Slice, n: nat)
    requires level < NUM_LEVELS && n < |Varint(level) + b|
    ensures var input := (Varint(level) + b)[..n];
      if n < |Varint(level)| then GetLevel(input).Fail? else GetLevel(input) == Got(level, b[..n - |Varint(level)|])
  {
    hide GetLevel, Varint;
    Cut(Varint(level), b, n);
    if n < |Varint(level)| {
      CutNumber(level, n);
    } else {
      LevelRoundTrip(level, b[..n - |Varint(level)|]);
    }
  }

  lemma CutNumberBefore(v: nat, b: Slice, n: nat)
    requires v < TWO64 && n < |Varint(v) + b|
    ensures var input := (Varint(v) + b)[..n];
      if n < |Varint(v)| then GetVarint64(input).Fail? else GetVarint64(input) == Got(v, b[..n - |Varint(v)|])
  {
    hide GetVarint64, Varint;
    Cut(Varint(v), b, n);
    if n < |Varint(v)| {
      CutNumber(v, n);
    } else {
      Varint64RoundTrip(v, b[..n - |Varint(v)|]);
    }
  }

  lemma CutSliceBefore(s: Slice, b: Slice, n: nat)
    requires |s| < TWO32 && n < |LengthPrefixed(s) + b|
    ensures var input := (LengthPrefixed(s) + b)[..n];
      if n < |LengthPrefixed(s)| then GetLengthPrefixedSlice(input).NoSlice?
      else GetLengthPrefixedSlice(input) == GotSlice(s, b[..n - |LengthPrefixed(s)|])
  {
    hide GetLengthPrefixedSlice, LengthPrefixed;
    Cut(LengthPrefixed(s), b, n);
    if n < |LengthPrefixed(s)| {
      TruncatedSlice(s, n);
    } else {
      LengthPrefixedRoundTrip(s, b[..n - |LengthPrefixed(s)|]);
    }
  }

  lemma CutNewFile(level: nat, m: Meta, n: nat)
    requires RecOk(NewFile(level, m))
    requires n < |Varint(level) + (Varint(m.number) + (Varint(m.size) + (LengthPrefixed(m.smallest) + LengthPrefixed(m.largest))))|
    ensures GetNewFile((Varint(level) + (Varint(m.number) + (Varint(m.size) + (LengthPrefixed(m.smallest) + LengthPrefixed(m.largest)))))[..n])
      == Stop(BadNewFile)
  {
    hide Varint, LengthPrefixed, GetLevel, GetVarint64, GetLengthPrefixedSlice;
    var last := LengthPrefixed(m.largest);
    var keys := LengthPrefixed(m.smallest) + last;
    var size := Varint(m.size) + keys;
    var number := Varint(m.number) + size;
    CutLevel(level, number, n);
    if n >= |Varint(level)| {
      var i := n - |Varint(level)|;
      CutNumberBefore(m.number, size, i);
      if i >= |Varint(m.number)| {
        var j := i - |Varint(m.number)|;
        CutNumberBefore(m.size, keys, j);
        if j >= |Varint(m.size)| {
          var k := j - |Varint(m.size)|;
          CutSliceBefore(m.smallest, last, k);
          if k >= |LengthPrefixed(m.smallest)| {
            TruncatedSlice(m.largest, k - |LengthPrefixed(m.smallest)|);
          }
        }
      }
    }
  }

  /** The beginning of a record, cut off behind its tag, is refused. */
  lemma CutRecord(r: Rec, n: nat)
    requires RecOk(r) && 0 < n < |EncodeRec(r)|
    ensures DecodeRecs(EncodeRec(r)[..n]) == ([], Some(ProblemOf(r)))
  {
    hide Varint, LengthPrefixed, GetVarint32, GetVarint64, GetLengthPrefixedSlice, GetLevel, GetNewFile, EncodeRec, RecOk;
    var tag, body := RecordParts(r, []);
    assert EncodeRec(r) + [] == EncodeRec(r);
    OneByte(tag);
    CutTag(tag, body, n);
    CutBody(r, tag, body, n - 1);
  }

  lemma OneByte(tag: nat)
    requires tag < 128
    ensures |Varint(tag)| == 1
  {
  }

  lemma CutTag(tag: nat, body: Slice, n: nat)
    requires tag < 128 && 0 < n <= 1 + |body|
    ensures |Varint(tag)| == 1 && GetVarint32((Varint(tag) + body)[..n]) == Got(tag, body[..n - 1])
  {
    assert Varint(tag) == [tag];
    Cut(Varint(tag), body, n);
    Varint32RoundTrip(tag, body[..n - 1]);
  }

  lemma CutBody(r: Rec, tag: nat, body: Slice, n: nat)
    requires RecOk(r) && n < |body|
    requires tag == match r {
      case Comparator(_) => COMPARATOR case LogNumber(_) => LOG_NUMBER case PrevLogNumber(_) => PREV_LOG_NUMBER
      case NextFileNumber(_) => NEXT_FILE_NUMBER case LastSequence(_) => LAST_SEQUENCE
      case CompactPointer(_, _) => COMPACT_POINTER case DeletedFile(_, _) => DELETED_FILE case NewFile(_, _) => NEW_FILE }
    requires body == match r {
      case Comparator(name) => LengthPrefixed(name) + []
      case LogNumber(n) => Varint(n) + []
      case PrevLogNumber(n) => Varint(n) + []
      case NextFileNumber(n) => Varint(n) + []
      case LastSequence(n) => Varint(n) + []
      case CompactPointer(level, key) => Varint(level) + (LengthPrefixed(key) + [])
      case DeletedFile(level, n) => Varint(level) + (Varint(n) + [])
      case NewFile(level, m) =>
        Varint(level) + (Varint(m.number) + (Varint(m.size) + (LengthPrefixed(m.smallest) + (LengthPrefixed(m.largest) + [])))) }
    ensures GetBody(tag, body[..n]) == Stop(ProblemOf(r))
  {
    hide Varint, LengthPrefixed, GetVarint32, GetVarint64, GetLengthPrefixedSlice, GetLevel, GetNewFile;
    match r {
    case Comparator(name) => CutSliceBefore(name, [], n);
    case LogNumber(v) => CutNumberBefore(v, [], n);
    case PrevLogNumber(v) => CutNumberBefore(v, [], n);
    case NextFileNumber(v) => CutNumberBefore(v, [], n);
    case LastSequence(v) => CutNumberBefore(v, [], n);
    case CompactPointer(level, key) =>
      CutLevel(level, LengthPrefixed(key) + [], n);
      if n >= |Varint(level)| {
        CutSliceBefore(key, [], n - |Varint(level)|);
      }
    case DeletedFile(level, v) =>
      CutLevel(level, Varint(v) + [], n);
      if n >= |Varint(level)| {
        CutNumberBefore(v, [], n - |Varint(level)|);
      }
    case NewFile(level, m) =>
      assert LengthPrefixed(m.largest) + [] == LengthPrefixed(m.largest);
      CutNewFile(level, m, n);
    }
  }

  /** The levels of a record. */
  function LevelOf(r: Rec): nat {
    match r
    case CompactPointer(level, _) => level
    case DeletedFile(level, _) => level
    case NewFile(level, _) => level
    case _ => 0
  }

  /** A record on a level that there is not is refused. */
  lemma NoSuchLevel(r: Rec, rest: Slice)
    requires NUM_LEVELS <= LevelOf(r) < TWO32
    ensures DecodeRecs(EncodeRec(r) + rest) == ([], Some(ProblemOf(r)))
  {
    hide Varint, LengthPrefixed, GetVarint32, GetVarint64, GetLengthPrefixedSlice, EncodeRec;
    var tag, body := RecordParts(r, rest);
    Varint32RoundTrip(tag, body);
    match r {
    case CompactPointer(level, key) => Varint32RoundTrip(level, LengthPrefixed(key) + rest);
    case DeletedFile(level, n) => Varint32RoundTrip(level, Varint(n) + rest);
    case NewFile(level, m) =>
      Varint32RoundTrip(level, Varint(m.number) + (Varint(m.size) + (LengthPrefixed(m.smallest) + (LengthPrefixed(m.largest) + rest))));
    case _ => assert false;
    }
  }

  predicate KnownTag(tag: nat) { 1 <= tag <= 7 || tag == PREV_LOG_NUMBER }

  lemma NoSuchTag(tag: nat, rest: Slice)
    requires tag < TWO32 && !KnownTag(tag)
    ensures DecodeRecs(Varint(tag) + rest) == ([], Some(UnknownTag))
  {
    hide Varint, GetVarint32;
    Varint32RoundTrip(tag, rest);
  }

  lemma {:induction false} RecsUpTo(rs: seq<Rec>, junk: Slice)
    requires forall r :: r in rs ==> RecOk(r)
    ensures DecodeRecs(EncodeRecs(rs) + junk) == (rs + DecodeRecs(junk).0, DecodeRecs(junk).1)
  {
    hide *;
    FirstRec(rs, junk);
    if rs == [] {
      assert [] + DecodeRecs(junk).0 == DecodeRecs(junk).0;
    } else {
      RecRoundTrip(rs[0], EncodeRecs(rs[1..]) + junk);
      RecsUpTo(rs[1..], junk);
      FirstOf(rs, DecodeRecs(junk).0);
    }
  }

  lemma FirstRec(rs: seq<Rec>, junk: Slice)
    ensures EncodeRecs(rs) + junk == if rs == [] then junk else EncodeRec(rs[0]) + (EncodeRecs(rs[1..]) + junk)
  {
    hide EncodeRec;
  }

  lemma FirstOf(rs: seq<Rec>, more: seq<Rec>)
    requires rs != []
    ensures [rs[0]] + (rs[1..] + more) == rs + more
  {
  }

  /** Records followed by damage: a record that was cut off, one on a level that there is not, or an unknown tag. The good
      records are taken, and the problem is told. */
  lemma DamagedRecs(rs: seq<Rec>, junk: Slice)
    requires forall r :: r in rs ==> RecOk(r)
    ensures var d := DecodeRecs(EncodeRecs(rs) + junk);
      && (forall r, n: nat :: RecOk(r) && 0 < n < |EncodeRec(r)| && junk == EncodeRec(r)[..n] ==> d == (rs, Some(ProblemOf(r))))
      && (forall r, rest :: NUM_LEVELS <= LevelOf(r) < TWO32 && junk == EncodeRec(r) + rest ==> d == (rs, Some(ProblemOf(r))))
      && (forall tag: nat, rest :: tag < TWO32 && !KnownTag(tag) && junk == Varint(tag) + rest ==> d == (rs, Some(UnknownTag)))
  {
    hide *;
    RecsUpTo(rs, junk);
    var d := DecodeRecs(EncodeRecs(rs) + junk);
    assert rs + [] == rs;
    forall r, n: nat | RecOk(r) && 0 < n < |EncodeRec(r)| && junk == EncodeRec(r)[..n] ensures d == (rs, Some(ProblemOf(r))) {
      CutRecord(r, n);
    }
    forall r, rest | NUM_LEVELS <= LevelOf(r) < TWO32 && junk == EncodeRec(r) + rest ensures d == (rs, Some(ProblemOf(r))) {
      NoSuchLevel(r, rest);
    }
    forall tag: nat, rest | tag < TWO32 && !KnownTag(tag) && junk == Varint(tag) + rest ensures d == (rs, Some(UnknownTag)) {
      NoSuchTag(tag, rest);
    }
  }

  // ---------------------------------------------------------------------------- edits

  /** All fields of an edit. The deleted files are a set, written in ascending order. */
  datatype Edit = Edit(
    comparator: Option<Slice>,
    logNumber: Option<nat>,
    prevLogNumber: Option<nat>,
    nextFileNumber: Option<nat>,
    lastSequence: Option<nat>,
    compactPointers: seq<(nat, Slice)>,
    deleted: set<(nat, nat)>,
    newFiles: seq<(nat, Meta)>)

  /** Clear keeps the compact pointers. */
  function Cleared(pointers: seq<(nat, Slice)>): Edit {
    Edit(None, None, None, None, None, pointers, {}, [])
  }

  function Take(e: Edit, r: Rec): Edit {
    match r
    case Comparator(name) => e.(comparator := Some(name))
    case LogNumber(n) => e.(logNumber := Some(n))
    case PrevLogNumber(n) => e.(prevLogNumber := Some(n))
    case NextFileNumber(n) => e.(nextFileNumber := Some(n))
    case LastSequence(n) => e.(lastSequence := Some(n))
    case CompactPointer(level, key) => e.(compactPointers := e.compactPointers + [(level, key)])
    case DeletedFile(level, n) => e.(deleted := e.deleted + {(level, n)})
    case NewFile(level, m) => e.(newFiles := e.newFiles + [(level, m)])
  }

  function TakeAll(e: Edit, rs: seq<Rec>): Edit
    decreases |rs|
  {
    if rs == [] then e else TakeAll(Take(e, rs[0]), rs[1..])
  }

  lemma {:induction false} TakeAllAppend(e: Edit, a: seq<Rec>, b: seq<Rec>)
    ensures TakeAll(e, a + b) == TakeAll(TakeAll(e, a), b)
    decreases |a|
  {
    if a == [] {
      assert a + b == b;
    } else {
      assert (a + b)[1..] == a[1..] + b;
      TakeAllAppend(Take(e, a[0]), a[1..], b);
    }
  }

  function Maybe<T>(o: Option<T>, make: T -> Rec): seq<Rec> { if o.Some? then [make(o.value)] else [] }

  function PointerRecs(ps: seq<(nat, Slice)>): (r: seq<Rec>)
    ensures |r| == |ps|
  {
    seq(|ps|, i requires 0 <= i < |ps| => CompactPointer(ps[i].0, ps[i].1))
  }

  function DeletedRecs(ds: seq<(nat, nat)>): (r: seq<Rec>)
    ensures |r| == |ds|
  {
    seq(|ds|, i requires 0 <= i < |ds| => DeletedFile(ds[i].0, ds[i].1))
  }

  function NewFileRecs(fs: seq<(nat, Meta)>): (r: seq<Rec>)
    ensures |r| == |fs|
  {
    seq(|fs|, i requires 0 <= i < |fs| => NewFile(fs[i].0, fs[i].1))
  }

  /** The records of an edit; order lists its deleted files. */
  function RecsOf(e: Edit, order: seq<(nat, nat)>): seq<Rec> {
    Maybe(e.comparator, s => Comparator(s)) + Maybe(e.logNumber, (n: nat) => LogNumber(n)) + Maybe(e.prevLogNumber, (n: nat) => PrevLogNumber(n)) +
    Maybe(e.nextFileNumber, (n: nat) => NextFileNumber(n)) + Maybe(e.lastSequence, (n: nat) => LastSequence(n)) +
    PointerRecs(e.compactPointers) + DeletedRecs(order) + NewFileRecs(e.newFiles)
  }

  lemma {:induction false} TakePointers(e: Edit, ps: seq<(nat, Slice)>)
    ensures TakeAll(e, PointerRecs(ps)) == e.(compactPointers := e.compactPointers + ps)
    decreases |ps|
  {
    if ps != [] {
      assert PointerRecs(ps)[1..] == PointerRecs(ps[1..]);
      TakePointers(Take(e, PointerRecs(ps)[0]), ps[1..]);
      assert e.compactPointers + [ps[0]] + ps[1..] == e.compactPointers + ps;
    } else {
      assert e.compactPointers + [] == e.compactPointers;
    }
  }

  lemma {:induction false} TakeDeleted(e: Edit, ds: seq<(nat, nat)>)
    ensures TakeAll(e, DeletedRecs(ds)) == e.(deleted := e.deleted + set d | d in ds)
    decreases |ds|
  {
    if ds != [] {
      assert DeletedRecs(ds)[1..] == DeletedRecs(ds[1..]);
      TakeDeleted(Take(e, DeletedRecs(ds)[0]), ds[1..]);
      assert (set d | d in ds) == {ds[0]} + set d | d in ds[1..];
      assert e.deleted + {ds[0]} + (set d | d in ds[1..]) == e.deleted + set d | d in ds;
    } else {
      assert e.deleted + (set d | d in ds) == e.deleted;
    }
  }

  lemma {:induction false} TakeNewFiles(e: Edit, fs: seq<(nat, Meta)>)
    ensures TakeAll(e, NewFileRecs(fs)) == e.(newFiles := e.newFiles + fs)
    decreases |fs|
  {
    if fs != [] {
      assert NewFileRecs(fs)[1..] == NewFileRecs(fs[1..]);
      TakeNewFiles(Take(e, NewFileRecs(fs)[0]), fs[1..]);
      assert e.newFiles + [fs[0]] + fs[1..] == e.newFiles + fs;
    } else {
      assert e.newFiles + [] == e.newFiles;
    }
  }

  /** Taking in the records of an edit rebuilds it; compact pointers that were there stay in front. */
  lemma RecsRebuild(e: Edit, order: seq<(nat, nat)>, pointers: seq<(nat, Slice)>)
    requires e.deleted == set d | d in order
    ensures TakeAll(Cleared(pointers), RecsOf(e, order)) == e.(compactPointers := pointers + e.compactPointers)
  {
    hide PointerRecs, DeletedRecs, NewFileRecs, TakeAll;
    var e0 := Cleared(pointers);
    var head := Maybe(e.comparator, s => Comparator(s)) + Maybe(e.logNumber, (n: nat) => LogNumber(n)) +
      Maybe(e.prevLogNumber, (n: nat) => PrevLogNumber(n)) + Maybe(e.nextFileNumber, (n: nat) => NextFileNumber(n)) +
      Maybe(e.lastSequence, (n: nat) => LastSequence(n));
    var e1 := TakeAll(e0, head);
    HeadRebuilds(e, pointers);
    TakeAllAppend(e0, head, PointerRecs(e.compactPointers));
    TakePointers(e1, e.compactPointers);
    TakeAllAppend(e0, head + PointerRecs(e.compactPointers), DeletedRecs(order));
    TakeDeleted(TakeAll(e0, head + PointerRecs(e.compactPointers)), order);
    TakeAllAppend(e0, head + PointerRecs(e.compactPointers) + DeletedRecs(order), NewFileRecs(e.newFiles));
    TakeNewFiles(TakeAll(e0, head + PointerRecs(e.compactPointers) + DeletedRecs(order)), e.newFiles);
    assert {} + e.deleted == e.deleted && [] + e.newFiles == e.newFiles;
  }

  lemma TakeMaybe<T>(e: Edit, o: Option<T>, make: T -> Rec)
    ensures TakeAll(e, Maybe(o, make)) == if o.Some? then Take(e, make(o.value)) else e
  {
    if o.Some? {
      assert [make(o.value)][1..] == [];
    }
  }

  lemma HeadRebuilds(e: Edit, pointers: seq<(nat, Slice)>)
    ensures var head := Maybe(e.comparator, s => Comparator(s)) + Maybe(e.logNumber, (n: nat) => LogNumber(n)) +
      Maybe(e.prevLogNumber, (n: nat) => PrevLogNumber(n)) + Maybe(e.nextFileNumber, (n: nat) => NextFileNumber(n)) +
      Maybe(e.lastSequence, (n: nat) => LastSequence(n));
      TakeAll(Cleared(pointers), head) == e.(compactPointers := pointers, deleted := {}, newFiles := [])
  {
    hide TakeAll, Maybe;
    var a, b, c, d, f := Maybe(e.comparator, s => Comparator(s)), Maybe(e.logNumber, (n: nat) => LogNumber(n)),
      Maybe(e.prevLogNumber, (n: nat) => PrevLogNumber(n)), Maybe(e.nextFileNumber, (n: nat) => NextFileNumber(n)),
      Maybe(e.lastSequence, (n: nat) => LastSequence(n));
    var e0 := Cleared(pointers);
    TakeMaybe(e0, e.comparator, s => Comparator(s));
    TakeAllAppend(e0, a, b);
    TakeMaybe(TakeAll(e0, a), e.logNumber, (n: nat) => LogNumber(n));
    TakeAllAppend(e0, a + b, c);
    TakeMaybe(TakeAll(e0, a + b), e.prevLogNumber, (n: nat) => PrevLogNumber(n));
    TakeAllAppend(e0, a + b + c, d);
    TakeMaybe(TakeAll(e0, a + b + c), e.nextFileNumber, (n: nat) => NextFileNumber(n));
    TakeAllAppend(e0, a + b + c + d, f);
    TakeMaybe(TakeAll(e0, a + b + c + d), e.lastSequence, (n: nat) => LastSequence(n));
  }

  lemma {:induction false} EncodeRecsAppend(a: seq<Rec>, b: seq<Rec>)
    ensures EncodeRecs(a + b) == EncodeRecs(a) + EncodeRecs(b)
  {
    hide EncodeRec;
    if a == [] {
      assert a + b == b;
    } else {
      EncodeRecsAppend(a[1..], b);
      assert (a + b)[1..] == a[1..] + b && (a + b)[0] == a[0];
      assert EncodeRecs(a + b) == EncodeRec(a[0]) + (EncodeRecs(a[1..]) + EncodeRecs(b));
    }
  }

  ghost predicate EditOk(e: Edit) {
    && (e.comparator.Some? ==> |e.comparator.value| < TWO32)
    && (e.logNumber.Some? ==> e.logNumber.value < TWO64) && (e.prevLogNumber.Some? ==> e.prevLogNumber.value < TWO64)
    && (e.nextFileNumber.Some? ==> e.nextFileNumber.value < TWO64) && (e.lastSequence.Some? ==> e.lastSequence.value < TWO64)
    && (forall i :: 0 <= i < |e.compactPointers| ==> RecOk(CompactPointer(e.compactPointers[i].0, e.compactPointers[i].1)))
    && (forall d :: d in e.deleted ==> RecOk(DeletedFile(d.0, d.1)))
    && (forall i :: 0 <= i < |e.newFiles| ==> RecOk(NewFile(e.newFiles[i].0, e.newFiles[i].1)))
  }

  lemma RecsAreOk(e: Edit, order: seq<(nat, nat)>)
    requires EditOk(e) && e.deleted == set d | d in order
    ensures forall r :: r in RecsOf(e, order) ==> RecOk(r)
  {
    hide RecOk;
    var a, b, c := PointerRecs(e.compactPointers), DeletedRecs(order), NewFileRecs(e.newFiles);
    forall r | r in a ensures RecOk(r) {
      var i :| 0 <= i < |a| && a[i] == r;
    }
    forall r | r in b ensures RecOk(r) {
      var i :| 0 <= i < |b| && b[i] == r;
      assert order[i] in e.deleted;
    }
    forall r | r in c ensures RecOk(r) {
      var i :| 0 <= i < |c| && c[i] == r;
    }
    NumbersAreOk(e);
  }

  lemma NumbersAreOk(e: Edit)
    requires EditOk(e)
    ensures e.comparator.Some? ==> RecOk(Comparator(e.comparator.value))
    ensures e.logNumber.Some? ==> RecOk(LogNumber(e.logNumber.value))
    ensures e.prevLogNumber.Some? ==> RecOk(PrevLogNumber(e.prevLogNumber.value))
    ensures e.nextFileNumber.Some? ==> RecOk(NextFileNumber(e.nextFileNumber.value))
    ensures e.lastSequence.Some? ==> RecOk(LastSequence(e.lastSequence.value))
  {
  }

  predicate PairBefore(a: (nat, nat), b: (nat, nat)) { a.0 < b.0 || (a.0 == b.0 && a.1 < b.1) }

  ghost predicate AscendingPairs(ps: seq<(nat, nat)>) {
    forall i, j :: 0 <= i < j < |ps| ==> PairBefore(ps[i], ps[j])
  }

  /** The pairs of a set in the order of std::set. */
  method InOrder(ds: set<(nat, nat)>) returns (order: seq<(nat, nat)>)
    ensures AscendingPairs(order) && ds == set d | d in order
  {
    order := [];
    var rest := ds;
    while rest != {}
      invariant rest <= ds && (set d | d in order) == ds - rest
      invariant AscendingPairs(order) && forall d, i :: d in rest && 0 <= i < |order| ==> PairBefore(order[i], d)
    {
      var least :| least in rest;
      var others := rest - {least};
      while others != {}
        invariant others <= rest && least in rest && least !in others
        invariant forall d :: d in rest - others && d != least ==> PairBefore(least, d)
      {
        var d :| d in others;
        ghost var others0, least0 := others, least;
        others := others - {d};
        if PairBefore(d, least) {
          least := d;
        }
        forall x | x in rest - others && x != least ensures PairBefore(least, x) {
          assert x == d || x in rest - others0;
          assert x.0 == d.0 && x.1 == d.1 ==> x == d;
          assert least0.0 == d.0 && least0.1 == d.1 ==> least0 == d;
        }
      }
      ghost var before := order;
      order := order + [least];
      assert (set d | d in order) == (set d | d in before) + {least};
      rest := rest - {least};
    }
  }

  class VersionEdit {
    var comparator: Option<Slice>
    var logNumber: Option<nat>
    var prevLogNumber: Option<nat>
    var nextFileNumber: Option<nat>
    var lastSequence: Option<nat>
    var compactPointers: seq<(nat, Slice)>
    var deletedFiles: set<(nat, nat)>
    var newFiles: seq<(nat, Meta)>

    function Contents(): Edit
      reads this
    {
      Edit(comparator, logNumber, prevLogNumber, nextFileNumber, lastSequence, compactPointers, deletedFiles, newFiles)
    }

    constructor ()
      ensures Contents() == Cleared([])
    {
      comparator, logNumber, prevLogNumber, nextFileNumber, lastSequence := None, None, None, None, None;
      compactPointers, deletedFiles, newFiles := [], {}, [];
    }

    method Clear()
      modifies this
      ensures Contents() == Cleared(old(compactPointers))
    {
      comparator, logNumber, prevLogNumber, nextFileNumber, lastSequence := None, None, None, None, None;
      deletedFiles, newFiles := {}, [];
    }

    /** Appends the records of the edit; the deleted files go in ascending order. */
    method EncodeTo(dst: Slice) returns (r: Slice, ghost order: seq<(nat, nat)>)
      ensures AscendingPairs(order) && deletedFiles == set d | d in order
      ensures r == dst + EncodeRecs(RecsOf(Contents(), order))
    {
      hide EncodeRec, EncodeRecs, Maybe, AscendingPairs;
      r := dst;
      ghost var a, b, c, d, f := Maybe(comparator, s => Comparator(s)), Maybe(logNumber, (n: nat) => LogNumber(n)),
        Maybe(prevLogNumber, (n: nat) => PrevLogNumber(n)), Maybe(nextFileNumber, (n: nat) => NextFileNumber(n)),
        Maybe(lastSequence, (n: nat) => LastSequence(n));
      r := AppendMaybe(r, comparator, s => Comparator(s));
      r := AppendMaybe(r, logNumber, (n: nat) => LogNumber(n));
      EncodeRecsAppend(a, b);
      r := AppendMaybe(r, prevLogNumber, (n: nat) => PrevLogNumber(n));
      EncodeRecsAppend(a + b, c);
      r := AppendMaybe(r, nextFileNumber, (n: nat) => NextFileNumber(n));
      EncodeRecsAppend(a + b + c, d);
      r := AppendMaybe(r, lastSequence, (n: nat) => LastSequence(n));
      EncodeRecsAppend(a + b + c + d, f);
      ghost var head := a + b + c + d + f;
      r := AppendRecs(r, PointerRecs(compactPointers));
      EncodeRecsAppend(head, PointerRecs(compactPointers));
      var sorted := InOrder(deletedFiles);
      r := AppendRecs(r, DeletedRecs(sorted));
      EncodeRecsAppend(head + PointerRecs(compactPointers), DeletedRecs(sorted));
      r := AppendRecs(r, NewFileRecs(newFiles));
      EncodeRecsAppend(head + PointerRecs(compactPointers) + DeletedRecs(sorted), NewFileRecs(newFiles));
      order := sorted;
    }

    /** Reads an edit back; compact pointers that the object had stay. */
    method DecodeFrom(src: Slice) returns (problem: Option<Problem>)
      modifies this
      ensures problem == DecodeRecs(src).1
      ensures Contents() == TakeAll(Cleared(old(compactPointers)), DecodeRecs(src).0)
    {
      hide GetBody, TakeAll;
      Clear();
      var input := src;
      ghost var start := Contents();
      ghost var seen: seq<Rec> := [];
      assert seen + DecodeRecs(src).0 == DecodeRecs(src).0;
      assert Contents() == TakeAll(start, []) by { NothingTaken(start); }
      while true
        invariant DecodeRecs(src).0 == seen + DecodeRecs(input).0 && DecodeRecs(src).1 == DecodeRecs(input).1
        invariant Contents() == TakeAll(start, seen)
        decreases |input|
      {
        var tag := GetVarint32(input);
        if tag.Fail? {
          assert seen + [] == seen;
          return if input == [] then None else Some(InvalidTag);
        }
        var one := GetBody(tag.value, tag.rest);
        if one.Stop? {
          assert seen + [] == seen;
          return Some(one.problem);
        }
        TakeOneMore(start, seen, one.rec);
        assert seen + ([one.rec] + DecodeRecs(one.rest).0) == seen + [one.rec] + DecodeRecs(one.rest).0;
        TakeRec(one.rec);
        seen := seen + [one.rec];
        input := one.rest;
      }
    }

    /** What one record does to the fields. */
    method TakeRec(rec: Rec)
      modifies this
      ensures Contents() == Take(old(Contents()), rec)
    {
      match rec
      case Comparator(name) => comparator := Some(name);
      case LogNumber(n) => logNumber := Some(n);
      case PrevLogNumber(n) => prevLogNumber := Some(n);
      case NextFileNumber(n) => nextFileNumber := Some(n);
      case LastSequence(n) => lastSequence := Some(n);
      case CompactPointer(level, key) => compactPointers := compactPointers + [(level, key)];
      case DeletedFile(level, n) => deletedFiles := deletedFiles + {(level, n)};
      case NewFile(level, m) => newFiles := newFiles + [(level, m)];
    }
  }

  method AppendMaybe<T>(dst: Slice, o: Option<T>, make: T -> Rec) returns (r: Slice)
    ensures r == dst + EncodeRecs(Maybe(o, make))
  {
    hide EncodeRec;
    r := dst;
    if o.Some? {
      assert [make(o.value)][1..] == [];
      r := r + EncodeRec(make(o.value));
    }
  }

  method AppendRecs(dst: Slice, rs: seq<Rec>) returns (r: Slice)
    ensures r == dst + EncodeRecs(rs)
  {
    hide EncodeRec;
    r := dst;
    for i := 0 to |rs|
      invariant r + EncodeRecs(rs[i..]) == dst + EncodeRecs(rs)
    {
      assert rs[i..][1..] == rs[i + 1..];
      r := r + EncodeRec(rs[i]);
    }
    assert rs[|rs|..] == [];
  }

  lemma NothingTaken(e: Edit)
    ensures TakeAll(e, []) == e
  {
  }

  lemma TakeOneMore(e: Edit, seen: seq<Rec>, r: Rec)
    ensures TakeAll(e, seen + [r]) == Take(TakeAll(e, seen), r)
  {
    TakeAllAppend(e, seen, [r]);
    assert [r][1..] == [];
  }

  /** The edit that some bytes hold, up to the first problem. */
  function EditOf(bytes: Slice): Edit { TakeAll(Cleared([]), DecodeRecs(bytes).0) }

  /** An encoded edit is understood, and holds that edit. */
  lemma EncodedIsEdit(e: Edit, order: seq<(nat, nat)>)
    requires EditOk(e) && e.deleted == set d | d in order
    ensures DecodeRecs(EncodeRecs(RecsOf(e, order))) == (RecsOf(e, order), None)
    ensures EditOf(EncodeRecs(RecsOf(e, order))) == e
  {
    hide DecodeRecs, EncodeRecs, TakeAll, RecsOf, EditOk, RecOk;
    RecsAreOk(e, order);
    RecsRoundTrip(RecsOf(e, order));
    RecsRebuild(e, order, []);
    assert [] + e.compactPointers == e.compactPointers;
  }

  // ------------------------------------------------------------- what decoding can give

  lemma BodyFits(tag: nat, input: Slice)
    ensures GetBody(tag, input).Step? ==> RecOk(GetBody(tag, input).rec)
  {
  }

  lemma {:induction false} RecordsFit(input: Slice)
    ensures forall r :: r in DecodeRecs(input).0 ==> RecOk(r)
    decreases |input|
  {
    hide GetBody, GetVarint32, RecOk;
    var tag := GetVarint32(input);
    if tag.Got? {
      BodyFits(tag.value, tag.rest);
      if GetBody(tag.value, tag.rest).Step? {
        RecordsFit(GetBody(tag.value, tag.rest).rest);
      }
    }
  }

  lemma {:induction false} TakenFit(e: Edit, rs: seq<Rec>)
    requires EditOk(e) && forall r :: r in rs ==> RecOk(r)
    ensures EditOk(TakeAll(e, rs))
    decreases |rs|
  {
    hide EditOk, RecOk, Take;
    if rs != [] {
      assert rs[0] in rs;
      TakeFits(e, rs[0]);
      TakenFit(Take(e, rs[0]), rs[1..]);
    }
  }

  lemma TakeFits(e: Edit, r: Rec)
    requires EditOk(e) && RecOk(r)
    ensures EditOk(Take(e, r))
  {
    hide EditOk, RecOk, Take;
    match r {
      case CompactPointer(level, key) => PointerFits(e, level, key);
      case DeletedFile(level, n) => DeletedFits(e, level, n);
      case NewFile(level, m) => NewFileFits(e, level, m);
      case _ => NumberFits(e, r);
    }
  }

  lemma NumberFits(e: Edit, r: Rec)
    requires EditOk(e) && RecOk(r) && !r.CompactPointer? && !r.DeletedFile? && !r.NewFile?
    ensures EditOk(Take(e, r))
  {
  }

  lemma PointerFits(e: Edit, level: nat, key: Slice)
    requires EditOk(e) && RecOk(CompactPointer(level, key))
    ensures EditOk(Take(e, CompactPointer(level, key)))
  {
    hide RecOk;
  }

  lemma DeletedFits(e: Edit, level: nat, n: nat)
    requires EditOk(e) && RecOk(DeletedFile(level, n))
    ensures EditOk(Take(e, DeletedFile(level, n)))
  {
    hide RecOk;
  }

  lemma NewFileFits(e: Edit, level: nat, m: Meta)
    requires EditOk(e) && RecOk(NewFile(level, m))
    ensures EditOk(Take(e, NewFile(level, m)))
  {
    hide RecOk;
  }

  /** Whatever is decoded, from any bytes, fits the format: it could be encoded again. */
  lemma DecodedFits(bytes: Slice)
    ensures EditOk(EditOf(bytes))
  {
    RecordsFit(bytes);
    TakenFit(Cleared([]), DecodeRecs(bytes).0);
  }

  /** The round trip of an edit: encoding it and decoding it into a fresh object restores it. */
  method EncodeThenDecode(edit: VersionEdit) returns (back: VersionEdit, problem: Option<Problem>)
    requires EditOk(edit.Contents())
    ensures problem == None && back.Contents() == edit.Contents()
  {
    hide DecodeRecs, EncodeRecs, TakeAll, RecsOf, EditOk, RecOk;
    ghost var e := edit.Contents();
    var bytes, order := edit.EncodeTo([]);
    assert [] + EncodeRecs(RecsOf(e, order)) == EncodeRecs(RecsOf(e, order));
    EncodedIsEdit(e, order);
    back := new VersionEdit();
    problem := back.DecodeFrom(bytes);
  }
}
