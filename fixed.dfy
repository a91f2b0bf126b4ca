/** Fixed-width little-endian fields: what each `fread(&x, sizeof(x), 1, f)` of the source
    reads on a little-endian host, decoded here from the bytes explicitly. */
module Fixed {
  import opened Types

  function Pow256(k: nat): (r: nat)
    ensures r > 0
  {
    if k == 0 then 1 else 0x100 * Pow256(k - 1)
  }

  /** The unsigned value of bs, least significant byte first. */
  function LittleEndian(bs: seq<byte>): (n: nat)
    ensures n < Pow256(|bs|)
  {
    if bs == [] then 0 else bs[0] + 0x100 * LittleEndian(bs[1..])
  }

  /** The width little-endian bytes of n: the inverse of LittleEndian. */
  function LittleEndianBytes(n: nat, width: nat): (bs: seq<byte>)
    requires n < Pow256(width)
    ensures |bs| == width
  {
    if width == 0 then [] else [n % 0x100] + LittleEndianBytes(n / 0x100, width - 1)
  }

  lemma {:induction false} LittleEndianRoundTrip(n: nat, width: nat)
    requires n < Pow256(width)
    ensures LittleEndian(LittleEndianBytes(n, width)) == n
  {
    if width > 0 {
      LittleEndianRoundTrip(n / 0x100, width - 1);
    }
  }

  lemma {:induction false} LittleEndianInjective(bs: seq<byte>)
    ensures LittleEndianBytes(LittleEndian(bs), |bs|) == bs
  {
    if bs != [] {
      LittleEndianInjective(bs[1..]);
    }
  }

  /** fread of width bytes: the little-endian value of the next width bytes. */
  function FixedDec(s: seq<byte>, width: nat): (r: Result<Parsed<nat>>)
    ensures Reads(s, r, width)
    ensures r.Ok? ==> r.value.value < Pow256(width)
  {
    if |s| < width then Fail(Truncated) else Ok(Parsed(LittleEndian(s[..width]), s[width..]))
  }

  function FixedEnc(n: nat, width: nat, rest: seq<byte>): seq<byte>
    requires n < Pow256(width)
  {
    LittleEndianBytes(n, width) + rest
  }

  lemma FixedRoundTrip(n: nat, width: nat, rest: seq<byte>)
    requires n < Pow256(width)
    ensures FixedDec(FixedEnc(n, width, rest), width) == Ok(Parsed(n, rest))
    ensures |FixedEnc(n, width, rest)| == width + |rest|
  {
    var s := FixedEnc(n, width, rest);
    assert s[..width] == LittleEndianBytes(n, width);
    assert s[width..] == rest;
    LittleEndianRoundTrip(n, width);
  }

  // Typed reads, one per field type of the format.

  function U8Dec(s: seq<byte>): (r: Result<Parsed<byte>>)
    ensures Reads(s, r, 1)
    ensures r.Ok? ==> r.value.value == s[0]
  {
    var f :- FixedDec(s, 1);
    assert LittleEndian(s[..1]) == s[0] by {
      assert s[..1][1..] == [];
    }
    Ok(Parsed(f.value, f.rest))
  }

  function U16Dec(s: seq<byte>): (r: Result<Parsed<u16>>)
    ensures Reads(s, r, 2)
    ensures r.Ok? ==> r.value.value == LittleEndian(s[..2])
  {
    var f :- FixedDec(s, 2);
    Ok(Parsed(f.value, f.rest))
  }

  function U32Dec(s: seq<byte>): (r: Result<Parsed<u32>>)
    ensures Reads(s, r, 4)
    ensures r.Ok? ==> r.value.value == LittleEndian(s[..4])
  {
    var f :- FixedDec(s, 4);
    Ok(Parsed(f.value, f.rest))
  }

  function U64Dec(s: seq<byte>): (r: Result<Parsed<u64>>)
    ensures Reads(s, r, 8)
    ensures r.Ok? ==> r.value.value == LittleEndian(s[..8])
  {
    var f :- FixedDec(s, 8);
    Ok(Parsed(f.value, f.rest))
  }

  /** int32_t: the 32-bit pattern read as two's complement. */
  function I32Dec(s: seq<byte>): (r: Result<Parsed<i32>>)
    ensures Reads(s, r, 4)
    ensures r.Ok? ==> r.value.value % TWO_32 == LittleEndian(s[..4])
  {
    var f :- U32Dec(s);
    Ok(Parsed(if f.value < 0x8000_0000 then f.value else f.value - TWO_32, f.rest))
  }

  /** bool: one byte, any non-zero value is true. */
  function BoolDec(s: seq<byte>): (r: Result<Parsed<bool>>)
    ensures Reads(s, r, 1)
    ensures r.Ok? ==> (r.value.value <==> s[0] != 0)
  {
    var f :- U8Dec(s);
    Ok(Parsed(f.value != 0, f.rest))
  }

  /** dbSingle: the 32-bit pattern of the float, least significant byte first. */
  function SingleDec(s: seq<byte>): (r: Result<Parsed<Single>>)
    ensures Reads(s, r, 4)
    ensures r.Ok? ==> r.value.value == SingleBits(LittleEndian(s[..4]))
  {
    var f :- U32Dec(s);
    Ok(Parsed(SingleBits(f.value), f.rest))
  }

  /** A legacy one-byte field converted to dbSingle. */
  function WidenedByteDec(s: seq<byte>): (r: Result<Parsed<Single>>)
    ensures Reads(s, r, 1)
    ensures r.Ok? ==> r.value.value == Widen(s[0])
  {
    var f :- U8Dec(s);
    Ok(Parsed(Widen(f.value), f.rest))
  }

  /** dbDouble: the 64-bit pattern of the double, least significant byte first. */
  function DoubleDec(s: seq<byte>): (r: Result<Parsed<Double>>)
    ensures Reads(s, r, 8)
    ensures r.Ok? ==> r.value.value == DoubleBits(LittleEndian(s[..8]))
  {
    var f :- U64Dec(s);
    Ok(Parsed(DoubleBits(f.value), f.rest))
  }

  // Encoders: each writes one field in front of rest.

  function U8Enc(x: byte, rest: seq<byte>): seq<byte> { FixedEnc(x, 1, rest) }
  function U16Enc(x: u16, rest: seq<byte>): seq<byte> { FixedEnc(x, 2, rest) }
  function U32Enc(x: u32, rest: seq<byte>): seq<byte> { FixedEnc(x, 4, rest) }
  function U64Enc(x: u64, rest: seq<byte>): seq<byte> { FixedEnc(x, 8, rest) }
  function I32Enc(x: i32, rest: seq<byte>): seq<byte> { FixedEnc(x % TWO_32, 4, rest) }
  function BoolEnc(x: bool, rest: seq<byte>): seq<byte> { FixedEnc(if x then 1 else 0, 1, rest) }
  function DoubleEnc(x: Double, rest: seq<byte>): seq<byte> { FixedEnc(x.bits, 8, rest) }

  function SingleEnc(x: Single, rest: seq<byte>): seq<byte>
    requires x.SingleBits?
  {
    FixedEnc(x.bits, 4, rest)
  }

  function WidenedByteEnc(x: Single, rest: seq<byte>): seq<byte>
    requires x.WidenedByte?
  {
    FixedEnc(x.b, 1, rest)
  }

  lemma U8RoundTrip(x: byte, rest: seq<byte>)
    ensures U8Dec(U8Enc(x, rest)) == Ok(Parsed(x, rest))
    ensures |U8Enc(x, rest)| == 1 + |rest|
  {
    FixedRoundTrip(x, 1, rest);
  }

  lemma U16RoundTrip(x: u16, rest: seq<byte>)
    ensures U16Dec(U16Enc(x, rest)) == Ok(Parsed(x, rest))
    ensures |U16Enc(x, rest)| == 2 + |rest|
  {
    FixedRoundTrip(x, 2, rest);
  }

  lemma U32RoundTrip(x: u32, rest: seq<byte>)
    ensures U32Dec(U32Enc(x, rest)) == Ok(Parsed(x, rest))
    ensures |U32Enc(x, rest)| == 4 + |rest|
  {
    FixedRoundTrip(x, 4, rest);
  }

  lemma U64RoundTrip(x: u64, rest: seq<byte>)
    ensures U64Dec(U64Enc(x, rest)) == Ok(Parsed(x, rest))
    ensures |U64Enc(x, rest)| == 8 + |rest|
  {
    FixedRoundTrip(x, 8, rest);
  }

  lemma I32RoundTrip(x: i32, rest: seq<byte>)
    ensures I32Dec(I32Enc(x, rest)) == Ok(Parsed(x, rest))
    ensures |I32Enc(x, rest)| == 4 + |rest|
  {
    FixedRoundTrip(x % TWO_32, 4, rest);
  }

  lemma BoolRoundTrip(x: bool, rest: seq<byte>)
    ensures BoolDec(BoolEnc(x, rest)) == Ok(Parsed(x, rest))
    ensures |BoolEnc(x, rest)| == 1 + |rest|
  {
    U8RoundTrip(if x then 1 else 0, rest);
  }

  lemma SingleRoundTrip(x: Single, rest: seq<byte>)
    requires x.SingleBits?
    ensures SingleDec(SingleEnc(x, rest)) == Ok(Parsed(x, rest))
    ensures |SingleEnc(x, rest)| == 4 + |rest|
  {
    FixedRoundTrip(x.bits, 4, rest);
  }

  lemma WidenedByteRoundTrip(x: Single, rest: seq<byte>)
    requires x.WidenedByte?
    ensures WidenedByteDec(WidenedByteEnc(x, rest)) == Ok(Parsed(x, rest))
    ensures |WidenedByteEnc(x, rest)| == 1 + |rest|
  {
    U8RoundTrip(x.b, rest);
  }

  lemma DoubleRoundTrip(x: Double, rest: seq<byte>)
    ensures DoubleDec(DoubleEnc(x, rest)) == Ok(Parsed(x, rest))
    ensures |DoubleEnc(x, rest)| == 8 + |rest|
  {
    FixedRoundTrip(x.bits, 8, rest);
  }
}
