/** The Bloom filter policy: which bits a filter sets, and with that which keys it rules out. */
module Bloom {
  import opened Bytes
  import opened Coding
  import opened Words

  /** The hash of a key, 32 bits wide; which hash it is does not matter here. */
  type Hash = Slice -> nat

  const TWO17: nat := 0x2_0000
  const TWO15: nat := 0x8000

  /** Rotates 32 bits right by 17. */
  function Rotate(h: nat): nat { (h % TWO32) / TWO17 + h * TWO15 % TWO32 }

  lemma ByteFits(x: Byte, b: nat)
    requires b < 8
    ensures SetBit(x, b) < 256
  {
    assert Pow(2, 8) == 256 by {
      assert Pow(2, 2) == 4 && Pow(2, 4) == 16 && Pow(2, 6) == 64;
    }
    SetBitFits(x, b, 8);
  }

  // --------------------------------------------------------------------------- policy

  /** Bit i of a bit marks. */
  predicate Marked(bits: Slice, i: nat)
    requires i < 8 * |bits|
  {
    BitSet(bits[i / 8], i % 8)
  }

  /** The j-th probe of a hash; hashes and their sums wrap around at 32 bits. */
  function Probe(h: nat, j: nat): nat {
    if j == 0 then h % TWO32 else (Probe(h, j - 1) + Rotate(h)) % TWO32
  }

  /** The bit that a probe looks at. */
  function Position(h: nat, bits: nat): (i: nat)
    requires bits > 0
    ensures i < bits
  {
    h % bits
  }

  ghost predicate AllMarked(bits: Slice, h: nat, k: nat)
    requires |bits| > 0
  {
    forall j :: 0 <= j < k ==> Marked(bits, Position(Probe(h, j), 8 * |bits|))
  }

  /** One of the first k probes of a hash looks at this bit. */
  ghost predicate Probed(h: nat, k: nat, bits: nat, i: nat)
    requires bits > 0
  {
    exists j :: 0 <= j < k && Position(Probe(h, j), bits) == i
  }

  /** Exactly the bits that some of the first k probes look at were added. */
  ghost predicate MarksAdded(before: Slice, after: Slice, h: nat, k: nat) {
    && |before| == |after| > 0
    && forall i :: 0 <= i < 8 * |before| ==> (Marked(after, i) <==> Marked(before, i) || Probed(h, k, 8 * |before|, i))
  }

  /** A probe of one of the keys looks at this bit. */
  ghost predicate ProbedByKeys(hash: Hash, keys: seq<Slice>, k: nat, bits: nat, i: nat)
    requires bits > 0
  {
    exists key :: key in keys && Probed(hash(key), k, bits, i)
  }

  /** The bits of a filter are those that the probes of its keys look at. */
  ghost predicate MarksOf(hash: Hash, keys: seq<Slice>, k: nat, marks: Slice) {
    |marks| > 0 && forall i :: 0 <= i < 8 * |marks| ==> (Marked(marks, i) <==> ProbedByKeys(hash, keys, k, 8 * |marks|, i))
  }

  /** How many bytes of bits a filter has. */
  function BytesFor(n: nat, bitsPerKey: nat): (bytes: nat)
    ensures bytes >= 8
  {
    ((if n * bitsPerKey < 64 then 64 else n * bitsPerKey) + 7) / 8
  }

  /** The filter for some keys: its bits, and behind them the number of probes. */
  ghost predicate IsFilter(hash: Hash, bitsPerKey: nat, k: nat, keys: seq<Slice>, filter: Slice) {
    && |filter| == BytesFor(|keys|, bitsPerKey) + 1 && filter[|filter| - 1] == k
    && MarksOf(hash, keys, k, filter[..|filter| - 1])
  }

  class BloomFilterPolicy {
    const bitsPerKey: nat
    const k: nat
    const hash: Hash

    /** The number of probes: 69 hundredths of the bits per key, between 1 and 30. */
    constructor (bitsPerKey: nat, hash: Hash)
      ensures this.hash == hash && this.bitsPerKey == bitsPerKey && 1 <= k <= 30
      ensures 100 <= bitsPerKey * 69 < 3100 ==> 100 * k <= bitsPerKey * 69 < 100 * (k + 1)
    {
      this.bitsPerKey, this.hash := bitsPerKey, hash;
      var probes := bitsPerKey * 69 / 100;
      k := if probes < 1 then 1 else if probes > 30 then 30 else probes;
    }

    /** Appends a filter for the keys: bits that all probes of all keys mark, then the number of
        probes. */
    method CreateFilter(keys: seq<Slice>, dst: Slice) returns (r: Slice)
      requires 1 <= k <= 30
      ensures dst <= r && |r| >= |dst| + 9
      ensures IsFilter(hash, bitsPerKey, k, keys, r[|dst|..])
      ensures forall key :: key in keys ==> MayMatch(hash, key, r[|dst|..])
    {
      hide MarksOf, MarksAdded;
      var bits := |keys| * bitsPerKey;
      if bits < 64 {
        bits := 64;
      }
      var bytes := (bits + 7) / 8;
      bits := bytes * 8;
      var marks: Slice := Zeros(bytes);
      NothingMarked(hash, k, bytes);
      assert keys[..0] == [];
      for i := 0 to |keys|
        invariant |marks| == bytes && bits == 8 * |marks| && MarksOf(hash, keys[..i], k, marks)
      {
        ghost var before := marks;
        marks := AddKey(marks, hash(keys[i]));
        OneMoreKey(hash, keys, i, k, before, marks);
      }
      assert keys[..|keys|] == keys;
      r := dst + marks + [k];
      assert r[|dst|..] == marks + [k] && (marks + [k])[..|marks|] == marks;
      forall key | key in keys ensures MayMatch(hash, key, marks + [k]) {
        KeyMatches(hash, bitsPerKey, k, keys, marks + [k], key);
      }
    }

    /** Marks all probes of one hash. */
    method AddKey(marks0: Slice, h0: nat) returns (marks: Slice)
      requires |marks0| > 0
      ensures |marks| == |marks0| && MarksAdded(marks0, marks, h0, k)
    {
      hide BitSet, SetBit, Rotate, Position, MarksAdded;
      marks := marks0;
      var h := h0 % TWO32;
      var delta := Rotate(h0);
      NothingAdded(marks0, h0);
      for j := 0 to k
        invariant |marks| == |marks0| && MarksAdded(marks0, marks, h0, j) && h == Probe(h0, j)
      {
        var bitpos := Position(h, 8 * |marks|);
        ghost var before := marks;
        ByteFits(marks[bitpos / 8], bitpos % 8);
        marks := marks[bitpos / 8 := SetBit(marks[bitpos / 8], bitpos % 8)];
        MarkOne(before, bitpos, marks);
        OneMoreProbe(marks0, before, marks, h0, j);
        h := (h + delta) % TWO32;
      }
    }

    /** Whether a filter, made with any number of probes, may hold a key. */
    method KeyMayMatch(key: Slice, filter: Slice) returns (may: bool)
      ensures may == MayMatch(hash, key, filter)
    {
      hide BitSet, Rotate, Position;
      if |filter| < 2 {
        return false;
      }
      var marks := filter[..|filter| - 1];
      var probes: nat := filter[|filter| - 1];
      if probes > 30 {
        return true;
      }
      var h := hash(key) % TWO32;
      var delta := Rotate(hash(key));
      for j := 0 to probes
        invariant h == Probe(hash(key), j) && AllMarked(marks, hash(key), j)
      {
        var bitpos := Position(h, 8 * |marks|);
        if !Marked(marks, bitpos) {
          return false;
        }
        h := (h + delta) % TWO32;
      }
      may := true;
    }
  }

  /** What KeyMayMatch answers. */
  ghost predicate MayMatch(hash: Hash, key: Slice, filter: Slice) {
    |filter| >= 2 &&
    var marks, probes := filter[..|filter| - 1], filter[|filter| - 1];
    probes > 30 || AllMarked(marks, hash(key), probes)
  }

  // ---------------------------------------------------------------------- which bits are set

  lemma MarkOne(before: Slice, i: nat, after: Slice)
    requires i < 8 * |before| && SetBit(before[i / 8], i % 8) < 256
    requires after == before[i / 8 := SetBit(before[i / 8], i % 8)]
    ensures forall n :: 0 <= n < 8 * |before| ==> (Marked(after, n) <==> Marked(before, n) || n == i)
  {
    hide SetBit, BitSet;
    forall n | 0 <= n < 8 * |before| ensures Marked(after, n) <==> Marked(before, n) || n == i {
      SetBitSets(before[i / 8], i % 8, n % 8);
    }
  }

  lemma NothingAdded(marks: Slice, h: nat)
    requires |marks| > 0
    ensures MarksAdded(marks, marks, h, 0)
  {
    hide Marked;
  }

  lemma OneMoreProbe(first: Slice, before: Slice, after: Slice, h: nat, j: nat)
    requires MarksAdded(first, before, h, j) && |after| == |before|
    requires forall n :: 0 <= n < 8 * |before| ==> (Marked(after, n) <==> Marked(before, n) || n == Position(Probe(h, j), 8 * |before|))
    ensures MarksAdded(first, after, h, j + 1)
  {
    hide Marked, Probe, Position;
    forall i | 0 <= i < 8 * |first| ensures Marked(after, i) <==> Marked(first, i) || Probed(h, j + 1, 8 * |first|, i) {
      assert Probed(h, j + 1, 8 * |first|, i) <==> Probed(h, j, 8 * |first|, i) || i == Position(Probe(h, j), 8 * |first|);
    }
  }

  lemma NothingMarked(hash: Hash, k: nat, bytes: nat)
    requires bytes > 0
    ensures MarksOf(hash, [], k, Zeros(bytes))
  {
    forall i | 0 <= i < 8 * bytes ensures !Marked(Zeros(bytes), i) {
      ZeroHasNoBits(i % 8);
    }
  }

  lemma OneMoreKey(hash: Hash, keys: seq<Slice>, n: nat, k: nat, before: Slice, after: Slice)
    requires n < |keys| && MarksOf(hash, keys[..n], k, before) && MarksAdded(before, after, hash(keys[n]), k)
    ensures MarksOf(hash, keys[..n + 1], k, after)
  {
    hide Marked, Probed;
    assert keys[..n + 1] == keys[..n] + [keys[n]];
    forall i | 0 <= i < 8 * |after| ensures Marked(after, i) <==> ProbedByKeys(hash, keys[..n + 1], k, 8 * |after|, i) {
      assert ProbedByKeys(hash, keys[..n + 1], k, 8 * |after|, i)
        <==> ProbedByKeys(hash, keys[..n], k, 8 * |after|, i) || Probed(hash(keys[n]), k, 8 * |after|, i);
    }
  }

  // ------------------------------------------------------------------- which keys are ruled out

  /** Every probe of the key is a probe of some of the keys of the filter. */
  ghost predicate AllProbed(hash: Hash, bitsPerKey: nat, k: nat, keys: seq<Slice>, key: Slice) {
    var bits := 8 * BytesFor(|keys|, bitsPerKey);
    forall j :: 0 <= j < k ==> ProbedByKeys(hash, keys, k, bits, Position(Probe(hash(key), j), bits))
  }

  /** A filter rules a key out if and only if one of its probes is no probe of the keys it was made for. */
  lemma MatchesIff(hash: Hash, bitsPerKey: nat, k: nat, keys: seq<Slice>, filter: Slice, key: Slice)
    requires IsFilter(hash, bitsPerKey, k, keys, filter) && k <= 30
    ensures MayMatch(hash, key, filter) <==> AllProbed(hash, bitsPerKey, k, keys, key)
  {
    hide Marked, Probe, Position, ProbedByKeys, BytesFor;
    var marks := filter[..|filter| - 1];
    var bits := 8 * |marks|;
    forall j | 0 <= j < k
      ensures Marked(marks, Position(Probe(hash(key), j), bits)) <==> ProbedByKeys(hash, keys, k, bits, Position(Probe(hash(key), j), bits))
    {
    }
  }

  lemma KeyMatches(hash: Hash, bitsPerKey: nat, k: nat, keys: seq<Slice>, filter: Slice, key: Slice)
    requires IsFilter(hash, bitsPerKey, k, keys, filter) && k <= 30 && key in keys
    ensures MayMatch(hash, key, filter)
  {
    MatchesIff(hash, bitsPerKey, k, keys, filter, key);
    KeyIsProbed(hash, bitsPerKey, k, keys, key);
  }

  lemma KeyIsProbed(hash: Hash, bitsPerKey: nat, k: nat, keys: seq<Slice>, key: Slice)
    requires key in keys
    ensures AllProbed(hash, bitsPerKey, k, keys, key)
  {
    hide Probe, Position, BytesFor;
    var bits := 8 * BytesFor(|keys|, bitsPerKey);
    forall j | 0 <= j < k ensures ProbedByKeys(hash, keys, k, bits, Position(Probe(hash(key), j), bits)) {
      assert Probed(hash(key), k, bits, Position(Probe(hash(key), j), bits));
    }
  }
}
