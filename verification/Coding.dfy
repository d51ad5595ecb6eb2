/** Fixed-width integers, varints and length-prefixed slices. */
module Coding {
  import opened Bytes

  const TWO32: nat := 0x1_0000_0000
  const TWO64: nat := 0x1_0000_0000_0000_0000

  // ------------------------------------------------------------------ fixed width

  /** The n low bytes of a value, least significant first. */
  function Fixed(v: nat, n: nat): (r: Slice)
    ensures |r| == n
  {
    if n == 0 then [] else [v % 256] + Fixed(v / 256, n - 1)
  }

  function DecodeFixed(s: Slice): nat {
    if s == [] then 0 else s[0] + 256 * DecodeFixed(s[1..])
  }

  function Pow(base: nat, n: nat): nat {
    if n == 0 then 1 else base * Pow(base, n - 1)
  }

  /** Decoding gives back the value modulo the width. */
  lemma {:induction false} FixedRoundTrip(v: nat, n: nat)
    ensures v < Pow(256, n) ==> DecodeFixed(Fixed(v, n)) == v
  {
    if n > 0 {
      FixedRoundTrip(v / 256, n - 1);
      assert Fixed(v, n)[1..] == Fixed(v / 256, n - 1);
      if v < Pow(256, n) {
        assert v / 256 < Pow(256, n - 1);
      }
    }
  }

  function Fixed32(v: nat): (r: Slice)
    ensures |r| == 4
  {
    Fixed(v, 4)
  }

  function Fixed64(v: nat): (r: Slice)
    ensures |r| == 8
  {
    Fixed(v, 8)
  }

  lemma Fixed32RoundTrip(v: nat)
    requires v < TWO32
    ensures DecodeFixed(Fixed32(v)) == v
  {
    FixedRoundTrip(v, 4);
    assert Pow(256, 4) == TWO32;
  }

  lemma Fixed64RoundTrip(v: nat)
    requires v < TWO64
    ensures DecodeFixed(Fixed64(v)) == v
  {
    FixedRoundTrip(v, 8);
    assert Pow(256, 4) == TWO32 && Pow(256, 8) == TWO64;
  }

  // ----------------------------------------------------------------------- varints

  /** Seven bits to a byte, least significant first; all but the last byte have the high bit. */
  function Varint(v: nat): (r: Slice)
    ensures 1 <= |r|
  {
    if v < 128 then [v] else [v % 128 + 128] + Varint(v / 128)
  }

  datatype Parsed = Fail | Got(value: nat, rest: Slice)

  /** Reads the digits of a varint of at most max bytes; nothing is cut off yet. */
  function GetDigits(input: Slice, max: nat): (r: Parsed)
    ensures r.Got? ==> |r.rest| < |input|
    decreases max
  {
    if max == 0 || input == [] then Fail
    else if input[0] < 128 then Got(input[0], input[1..])
    else
      match GetDigits(input[1..], max - 1)
      case Fail => Fail
      case Got(v, rest) => Got(input[0] - 128 + 128 * v, rest)
  }

  /** Five bytes hold more than 32 bits; what is over is lost. */
  function GetVarint32(input: Slice): (r: Parsed)
    ensures r.Got? ==> |r.rest| < |input| && r.value < TWO32
  {
    match GetDigits(input, 5)
    case Fail => Fail
    case Got(v, rest) => Got(v % TWO32, rest)
  }

  function GetVarint64(input: Slice): (r: Parsed)
    ensures r.Got? ==> |r.rest| < |input| && r.value < TWO64
  {
    match GetDigits(input, 10)
    case Fail => Fail
    case Got(v, rest) => Got(v % TWO64, rest)
  }

  lemma {:induction false} VarintRoundTrip(v: nat, rest: Slice, max: nat)
    requires max > 0 && v < Pow(128, max)
    ensures GetDigits(Varint(v) + rest, max) == Got(v, rest)
    decreases max
  {
    var input := Varint(v) + rest;
    if v < 128 {
      assert input[1..] == rest;
    } else {
      assert input[1..] == Varint(v / 128) + rest && input[0] == v % 128 + 128;
      assert Pow(128, 0) == 1 && Pow(128, max) == 128 * Pow(128, max - 1);
      VarintRoundTrip(v / 128, rest, max - 1);
    }
  }

  /** Five and ten bytes are enough for 32 and 64 bits. */
  lemma VarintWidths()
    ensures Pow(128, 5) >= TWO32 && Pow(128, 10) >= TWO64
  {
    assert Pow(128, 1) == 128 && Pow(128, 2) == 0x4000 && Pow(128, 3) == 0x20_0000;
    assert Pow(128, 4) == 0x1000_0000 && Pow(128, 5) == 0x8_0000_0000 && Pow(128, 6) == 0x400_0000_0000;
    assert Pow(128, 7) == 0x2_0000_0000_0000 && Pow(128, 8) == 0x100_0000_0000_0000;
    assert Pow(128, 9) == 0x8000_0000_0000_0000 && Pow(128, 10) == 0x40_0000_0000_0000_0000;
  }

  lemma Varint32RoundTrip(v: nat, rest: Slice)
    requires v < TWO32
    ensures GetVarint32(Varint(v) + rest) == Got(v, rest)
  {
    hide Pow, Varint, GetDigits;
    VarintWidths();
    VarintRoundTrip(v, rest, 5);
  }

  lemma Varint64RoundTrip(v: nat, rest: Slice)
    requires v < TWO64
    ensures GetVarint64(Varint(v) + rest) == Got(v, rest)
  {
    hide Pow, Varint, GetDigits;
    VarintWidths();
    VarintRoundTrip(v, rest, 10);
  }

  /** The branches of the 32-bit encoder. */
  method EncodeVarint32(v: nat) returns (r: Slice)
    requires v < TWO32
    ensures r == Varint(v)
  {
    if v < 0x80 {
      r := [v];
    } else if v < 0x4000 {
      r := [v % 128 + 128, v / 128];
      assert r[1..] == Varint(v / 128);
    } else if v < 0x20_0000 {
      r := [v % 128 + 128, v / 128 % 128 + 128, v / 0x4000];
      Unroll(v);
    } else if v < 0x1000_0000 {
      r := [v % 128 + 128, v / 128 % 128 + 128, v / 0x4000 % 128 + 128, v / 0x20_0000];
      Unroll(v);
    } else {
      r := [v % 128 + 128, v / 128 % 128 + 128, v / 0x4000 % 128 + 128, v / 0x20_0000 % 128 + 128, v / 0x1000_0000];
      Unroll(v);
    }
  }

  lemma Unroll(v: nat)
    requires v >= 0x4000
    ensures v < 0x20_0000 ==> Varint(v) == [v % 128 + 128, v / 128 % 128 + 128, v / 0x4000]
    ensures 0x20_0000 <= v < 0x1000_0000 ==>
      Varint(v) == [v % 128 + 128, v / 128 % 128 + 128, v / 0x4000 % 128 + 128, v / 0x20_0000]
    ensures 0x1000_0000 <= v < TWO32 ==>
      Varint(v) == [v % 128 + 128, v / 128 % 128 + 128, v / 0x4000 % 128 + 128, v / 0x20_0000 % 128 + 128, v / 0x1000_0000]
  {
    assert v / 128 / 128 == v / 0x4000 && v / 0x4000 / 128 == v / 0x20_0000 && v / 0x20_0000 / 128 == v / 0x1000_0000;
    assert Varint(v) == [v % 128 + 128] + Varint(v / 128);
    assert Varint(v / 128) == [v / 128 % 128 + 128] + Varint(v / 0x4000);
    if v >= 0x20_0000 {
      assert Varint(v / 0x4000) == [v / 0x4000 % 128 + 128] + Varint(v / 0x20_0000);
      if v >= 0x1000_0000 {
        assert Varint(v / 0x20_0000) == [v / 0x20_0000 % 128 + 128] + Varint(v / 0x1000_0000);
      }
    }
  }

  /** The loop of the 64-bit encoder. */
  method EncodeVarint64(v0: nat) returns (r: Slice)
    ensures r == Varint(v0)
  {
    var v := v0;
    r := [];
    while v >= 128
      invariant r + Varint(v) == Varint(v0)
    {
      r := r + [v % 128 + 128];
      v := v / 128;
    }
    r := r + [v];
  }

  /** The decoders' loop, which keeps only the low 32 or 64 bits as it goes. */
  method DecodeVarint(input: Slice, wide: bool) returns (r: Parsed)
    ensures r == if wide then GetVarint64(input) else GetVarint32(input)
  {
    hide GetDigits, GetVarint32, GetVarint64, Shifted, Cut, Weighted;
    var width := if wide then 10 else 5;
    VarintOfDigits(input, wide);
    var p, result, scale: nat := 0, 0, 1;
    ghost var digits: nat := 0;
    NothingRead(GetDigits(input, width), wide);
    while p < width && p < |input|
      invariant p <= width && p <= |input| && result == Cut(digits, wide)
      invariant GetDigits(input, width) == Shifted(GetDigits(input[p..], width - p), digits, scale)
    {
      var byte: nat := input[p];
      assert input[p..][1..] == input[p + 1..];
      DigitsStep(input[p..], width - p, digits, scale);
      var low := if byte >= 128 then byte - 128 else byte;
      CutAdd(digits, Weighted(low, scale), wide);
      result := Cut(result + Weighted(low, scale), wide);
      digits := digits + Weighted(low, scale);
      p := p + 1;
      if byte < 128 {
        return Got(result, input[p..]);
      }
      scale := scale * 128;
    }
    NoDigits(input[p..], width - p, digits, scale);
    r := Fail;
  }

  function Weighted(low: nat, scale: nat): nat { low * scale }

  lemma NothingRead(r: Parsed, wide: bool)
    ensures Shifted(r, 0, 1) == r && Cut(0, wide) == 0
  {
  }

  /** A varint is its digits, cut to the width. */
  lemma VarintOfDigits(input: Slice, wide: bool)
    ensures var d := GetDigits(input, if wide then 10 else 5);
      (if wide then GetVarint64(input) else GetVarint32(input)) == if d.Fail? then Fail else Got(Cut(d.value, wide), d.rest)
  {
    hide GetDigits;
  }

  lemma NoDigits(input: Slice, max: nat, digits: nat, scale: nat)
    requires max == 0 || input == []
    ensures Shifted(GetDigits(input, max), digits, scale) == Fail
  {
  }

  /** What reading one more byte does. */
  lemma DigitsStep(input: Slice, max: nat, digits: nat, scale: nat)
    requires max > 0 && input != []
    ensures input[0] < 128 ==> Shifted(GetDigits(input, max), digits, scale) == Got(digits + Weighted(input[0], scale), input[1..])
    ensures input[0] >= 128 ==>
      Shifted(GetDigits(input, max), digits, scale) ==
      Shifted(GetDigits(input[1..], max - 1), digits + Weighted(input[0] - 128, scale), scale * 128)
  {
    if input[0] >= 128 {
      Shift(GetDigits(input[1..], max - 1), digits, input[0] - 128, scale);
    }
  }

  /** What is left of a value in 64 or 32 bits. */
  function Cut(v: nat, wide: bool): nat { if wide then v % TWO64 else v % TWO32 }

  lemma CutAdd(a: nat, b: nat, wide: bool)
    ensures Cut(Cut(a, wide) + b, wide) == Cut(a + b, wide)
  {
  }

  /** Digits read after others of total weight digits, the next one weighing scale. */
  ghost function Shifted(rest: Parsed, digits: nat, scale: nat): Parsed {
    if rest.Fail? then Fail else Got(digits + rest.value * scale, rest.rest)
  }

  lemma Shift(rest: Parsed, digits: nat, low: nat, scale: nat)
    ensures Shifted(if rest.Fail? then Fail else Got(low + 128 * rest.value, rest.rest), digits, scale)
         == Shifted(rest, digits + low * scale, scale * 128)
  {
    if rest.Got? {
      assert (low + 128 * rest.value) * scale == low * scale + rest.value * (scale * 128);
    }
  }

  lemma {:induction false} VarintLength(v: nat, max: nat)
    requires max > 0 && v < Pow(128, max)
    ensures |Varint(v)| <= max
    decreases max
  {
    if v >= 128 {
      assert Pow(128, 0) == 1 && Pow(128, max) == 128 * Pow(128, max - 1);
      VarintLength(v / 128, max - 1);
    }
  }

  /** A varint that is cut off is no varint. */
  lemma {:induction false} TruncatedVarint(v: nat, n: nat, max: nat)
    requires n < |Varint(v)|
    ensures GetDigits(Varint(v)[..n], max).Fail?
    decreases max
  {
    var input := Varint(v)[..n];
    if max > 0 && input != [] {
      assert input[1..] == Varint(v / 128)[..n - 1];
      TruncatedVarint(v / 128, n - 1, max - 1);
    }
  }

  // --------------------------------------------------------- length-prefixed slices

  function LengthPrefixed(s: Slice): Slice {
    Varint(|s|) + s
  }

  datatype ParsedSlice = NoSlice | GotSlice(value: Slice, rest: Slice)

  function GetLengthPrefixedSlice(input: Slice): (r: ParsedSlice)
    ensures r.GotSlice? ==> |r.rest| < |input|
  {
    match GetVarint32(input)
    case Fail => NoSlice
    case Got(len, rest) => if len <= |rest| then GotSlice(rest[..len], rest[len..]) else NoSlice
  }

  lemma LengthPrefixedRoundTrip(s: Slice, rest: Slice)
    requires |s| < TWO32
    ensures GetLengthPrefixedSlice(LengthPrefixed(s) + rest) == GotSlice(s, rest)
  {
    Varint32RoundTrip(|s|, s + rest);
    assert LengthPrefixed(s) + rest == Varint(|s|) + (s + rest);
    assert (s + rest)[..|s|] == s && (s + rest)[|s|..] == rest;
  }

  lemma TruncatedSlice(s: Slice, n: nat)
    requires |s| < TWO32 && n < |LengthPrefixed(s)|
    ensures GetLengthPrefixedSlice(LengthPrefixed(s)[..n]) == NoSlice
  {
    hide Varint, GetDigits;
    var head := Varint(|s|);
    var input := LengthPrefixed(s)[..n];
    if n < |head| {
      assert input == head[..n];
      TruncatedVarint(|s|, n, 5);
    } else {
      assert input == head + s[..n - |head|];
      Varint32RoundTrip(|s|, s[..n - |head|]);
    }
  }
}
