/** Byte strings and the order of the bytewise comparator. */
module Bytes {

  type Byte = b: int | 0 <= b < 256

  type Slice = seq<Byte>

  function Zeros(n: nat): (r: Slice)
    ensures |r| == n
  {
    seq(n, _ => 0)
  }

  /** The order of memcmp followed by length: a comes strictly before b. */
  predicate Less(a: Slice, b: Slice) {
    b != [] && (a == [] || a[0] < b[0] || (a[0] == b[0] && Less(a[1..], b[1..])))
  }

  /** A byte string read as a base-257 fraction whose digits are the bytes plus one. */
  function Rank(a: Slice): (r: real)
    ensures 0.0 <= r < 1.0
    ensures a != [] ==> 0.0 < r
  {
    if a == [] then 0.0 else (a[0] as real + 1.0 + Rank(a[1..])) / 257.0
  }

  /** Ranks are an order embedding of the bytewise order into the reals, so every
      result about stores whose user keys are reals applies to byte-string keys. */
  lemma {:induction false} RankEmbedsBytewiseOrder(a: Slice, b: Slice)
    ensures Less(a, b) <==> Rank(a) < Rank(b)
    ensures a == b <==> Rank(a) == Rank(b)
  {
    if a != [] && b != [] {
      RankEmbedsBytewiseOrder(a[1..], b[1..]);
      assert Rank(a) == (a[0] as real + 1.0 + Rank(a[1..])) / 257.0;
      assert Rank(b) == (b[0] as real + 1.0 + Rank(b[1..])) / 257.0;
      if a[0] < b[0] {
        assert a[0] as real + 1.0 <= b[0] as real;
      } else if b[0] < a[0] {
        assert b[0] as real + 1.0 <= a[0] as real;
      } else {
        assert a == [a[0]] + a[1..] && b == [b[0]] + b[1..];
      }
    }
  }

  /** The bytewise order is a strict total order. */
  lemma LessIsTotalOrder(a: Slice, b: Slice, c: Slice)
    ensures Less(a, b) && Less(b, c) ==> Less(a, c)
    ensures Less(a, b) || a == b || Less(b, a)
    ensures !(Less(a, b) && Less(b, a)) && !Less(a, a)
  {
    RankEmbedsBytewiseOrder(a, b);
    RankEmbedsBytewiseOrder(b, c);
    RankEmbedsBytewiseOrder(a, c);
    RankEmbedsBytewiseOrder(b, a);
    RankEmbedsBytewiseOrder(a, a);
  }
}
