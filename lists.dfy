/** The count-prefixed lists inside a beatmap record: Int-Double pairs (the per-mode star
    ratings, main.cpp:266-313) and timing points (main.cpp:319-335). */
module Lists {
  import opened Types
  import opened Fixed
  import opened Repetition

  /** The framing bytes of an Int-Double pair: 0x08 before the int, 0x0d before the double. */
  const INT_MARKER: byte := 0x08
  const DOUBLE_MARKER: byte := 0x0d

  /** Bytes per Int-Double pair: marker, int, marker, double. */
  const PAIR_WIDTH: nat := 14
  /** Bytes per timing point: double, double, bool. */
  const TIMING_POINT_WIDTH: nat := 17

  datatype IntDoublePair = IntDoublePair(first: u32, second: Double)

  datatype TimingPoint = TimingPoint(beatTime: Double, offset: Double, inherited: bool)

  /** One pair; each wrong framing byte is a failure (the asserts at main.cpp:272 and 275). */
  function PairDec(s: seq<byte>): (r: Result<Parsed<IntDoublePair>>)
    ensures r.Ok? ==> |s| >= PAIR_WIDTH && s[0] == INT_MARKER && s[5] == DOUBLE_MARKER
    ensures r.Ok? ==> r.value.rest == s[PAIR_WIDTH..]
    ensures |s| > 0 && s[0] != INT_MARKER ==> r == Fail(BadMarker(INT_MARKER, s[0]))
    ensures |s| > 5 && s[0] == INT_MARKER && s[5] != DOUBLE_MARKER ==> r == Fail(BadMarker(DOUBLE_MARKER, s[5]))
  {
    var m1 :- U8Dec(s);
    if m1.value != INT_MARKER then Fail(BadMarker(INT_MARKER, m1.value)) else
    var id :- U32Dec(m1.rest);
    var m2 :- U8Dec(id.rest);
    if m2.value != DOUBLE_MARKER then Fail(BadMarker(DOUBLE_MARKER, m2.value)) else
    var v :- DoubleDec(m2.rest);
    Ok(Parsed(IntDoublePair(id.value, v.value), v.rest))
  }

  /** n pairs, in file order. */
  function PairsDec(s: seq<byte>, n: nat): (r: Result<Parsed<seq<IntDoublePair>>>)
    ensures r.Ok? ==> |r.value.value| == n && |s| >= PAIR_WIDTH * n && r.value.rest == s[PAIR_WIDTH * n..]
  {
    RepeatAdvances(PairDec, PAIR_WIDTH, s, n);
    Repeat(PairDec, s, n)
  }

  /** A 4-byte count, then that many pairs. */
  function RatingListDec(s: seq<byte>): (r: Result<Parsed<seq<IntDoublePair>>>)
    ensures r.Ok? ==> var n := |r.value.value|;
                      n < TWO_32 && |s| >= 4 + PAIR_WIDTH * n && r.value.rest == s[4 + PAIR_WIDTH * n..]
    ensures r.Ok? ==> |r.value.value| == LittleEndian(s[..4])
  {
    var count :- U32Dec(s);
    PairsDec(count.rest, count.value)
  }

  /** A count of zero: an empty list, and only the count's four bytes consumed. */
  lemma EmptyRatingList(s: seq<byte>)
    requires |s| >= 4 && s[..4] == [0, 0, 0, 0]
    ensures RatingListDec(s) == Ok(Parsed([], s[4..]))
  {
    assert s[..4] == LittleEndianBytes(0, 4);
    LittleEndianRoundTrip(0, 4);
  }

  function TimingPointDec(s: seq<byte>): (r: Result<Parsed<TimingPoint>>)
    ensures Reads(s, r, TIMING_POINT_WIDTH)
  {
    var beatTime :- DoubleDec(s);
    var offset :- DoubleDec(beatTime.rest);
    var inherited :- BoolDec(offset.rest);
    Ok(Parsed(TimingPoint(beatTime.value, offset.value, inherited.value), inherited.rest))
  }

  /** n timing points, in file order, with no framing bytes. */
  function TimingPointsDec(s: seq<byte>, n: nat): (r: Result<Parsed<seq<TimingPoint>>>)
    ensures Reads(s, r, TIMING_POINT_WIDTH * n)
    ensures r.Ok? ==> |r.value.value| == n
  {
    RepeatReads(TimingPointDec, TIMING_POINT_WIDTH, s, n);
    Repeat(TimingPointDec, s, n)
  }

  /** A 4-byte count, then that many 17-byte timing points. */
  function TimingListDec(s: seq<byte>): (r: Result<Parsed<seq<TimingPoint>>>)
    ensures r.Ok? ==> var n := |r.value.value|;
                      n < TWO_32 && |s| >= 4 + TIMING_POINT_WIDTH * n && r.value.rest == s[4 + TIMING_POINT_WIDTH * n..]
    ensures r.Ok? ==> |r.value.value| == LittleEndian(s[..4])
  {
    var count :- U32Dec(s);
    TimingPointsDec(count.rest, count.value)
  }

  // Encoders and round trips.

  function PairEnc(p: IntDoublePair, rest: seq<byte>): seq<byte>
  {
    U8Enc(INT_MARKER, U32Enc(p.first, U8Enc(DOUBLE_MARKER, DoubleEnc(p.second, rest))))
  }

  function PairsEnc(ps: seq<IntDoublePair>, rest: seq<byte>): seq<byte>
  {
    if ps == [] then rest else PairEnc(ps[0], PairsEnc(ps[1..], rest))
  }

  function RatingListEnc(ps: seq<IntDoublePair>, rest: seq<byte>): seq<byte>
    requires |ps| < TWO_32
  {
    U32Enc(|ps|, PairsEnc(ps, rest))
  }

  lemma PairRoundTrip(p: IntDoublePair, rest: seq<byte>)
    ensures PairDec(PairEnc(p, rest)) == Ok(Parsed(p, rest))
    ensures |PairEnc(p, rest)| == PAIR_WIDTH + |rest|
  {
    DoubleRoundTrip(p.second, rest);
    var t := DoubleEnc(p.second, rest);
    U8RoundTrip(DOUBLE_MARKER, t);
    var u := U8Enc(DOUBLE_MARKER, t);
    U32RoundTrip(p.first, u);
    U8RoundTrip(INT_MARKER, U32Enc(p.first, u));
  }

  lemma {:induction false} PairsRoundTrip(ps: seq<IntDoublePair>, rest: seq<byte>)
    ensures PairsDec(PairsEnc(ps, rest), |ps|) == Ok(Parsed(ps, rest))
    ensures |PairsEnc(ps, rest)| == PAIR_WIDTH * |ps| + |rest|
  {
    if ps != [] {
      PairsRoundTrip(ps[1..], rest);
      PairRoundTrip(ps[0], PairsEnc(ps[1..], rest));
      assert [ps[0]] + ps[1..] == ps;
    }
  }

  /** Every pair takes 14 bytes. */
  lemma {:induction false} PairsEncLength(ps: seq<IntDoublePair>, rest: seq<byte>)
    ensures |PairsEnc(ps, rest)| == PAIR_WIDTH * |ps| + |rest|
  {
    if ps != [] {
      PairsEncLength(ps[1..], rest);
    }
  }

  /** Each rating list is read back as exactly its pairs, in order, from 4 + 14 * count bytes. */
  lemma RatingListRoundTrip(ps: seq<IntDoublePair>, rest: seq<byte>)
    requires |ps| < TWO_32
    ensures RatingListDec(RatingListEnc(ps, rest)) == Ok(Parsed(ps, rest))
    ensures |RatingListEnc(ps, rest)| == 4 + PAIR_WIDTH * |ps| + |rest|
  {
    PairsRoundTrip(ps, rest);
    U32RoundTrip(|ps|, PairsEnc(ps, rest));
  }

  /** Overwriting a byte past a prefix leaves the prefix alone. */
  lemma UpdateAfter(a: seq<byte>, t: seq<byte>, j: nat, b: byte)
    requires j < |t|
    ensures (a + t)[|a| + j := b] == a + t[j := b]
  {
  }

  /** Overwriting a byte past the first pair. */
  lemma PairEncUpdate(p: IntDoublePair, t: seq<byte>, j: nat, b: byte)
    requires j < |t|
    ensures PairEnc(p, t)[PAIR_WIDTH + j := b] == PairEnc(p, t[j := b])
  {
    var d := LittleEndianBytes(p.second.bits, 8);
    var i := LittleEndianBytes(p.first, 4);
    UpdateAfter(d, t, j, b);
    UpdateAfter([DOUBLE_MARKER], d + t, 8 + j, b);
    UpdateAfter(i, [DOUBLE_MARKER] + (d + t), 9 + j, b);
    UpdateAfter([INT_MARKER], i + ([DOUBLE_MARKER] + (d + t)), 13 + j, b);
  }

  /** Corrupting a framing byte of one pair makes that pair fail. */
  lemma CorruptPairFails(p: IntDoublePair, t: seq<byte>, second: bool, b: byte)
    requires b != (if second then DOUBLE_MARKER else INT_MARKER)
    ensures var at := if second then 5 else 0;
            at < |PairEnc(p, t)| &&
            PairDec(PairEnc(p, t)[at := b]) == Fail(BadMarker(if second then DOUBLE_MARKER else INT_MARKER, b))
  {
    PairRoundTrip(p, t);
  }

  /** Corrupting a framing byte of any pair is a failure, never a skipped pair. */
  lemma CorruptPairsFail(ps: seq<IntDoublePair>, rest: seq<byte>, k: nat, second: bool, b: byte)
    requires k < |ps|
    requires b != (if second then DOUBLE_MARKER else INT_MARKER)
    ensures var at := PAIR_WIDTH * k + (if second then 5 else 0);
            at < |PairsEnc(ps, rest)| &&
            PairsDec(PairsEnc(ps, rest)[at := b], |ps|) ==
              Fail(BadMarker(if second then DOUBLE_MARKER else INT_MARKER, b))
  {
    CorruptRepeatFails(PairDec, ps, rest, k, second, b);
  }

  /** The induction behind CorruptPairsFail, over a decoder that is PairDec. */
  lemma {:induction false} CorruptRepeatFails(dec: seq<byte> -> Result<Parsed<IntDoublePair>>, ps: seq<IntDoublePair>,
                                              rest: seq<byte>, k: nat, second: bool, b: byte)
    requires forall s {:trigger PairDec(s)} :: dec(s) == PairDec(s)
    requires k < |ps|
    requires b != (if second then DOUBLE_MARKER else INT_MARKER)
    ensures var at := PAIR_WIDTH * k + (if second then 5 else 0);
            at < |PairsEnc(ps, rest)| &&
            Repeat(dec, PairsEnc(ps, rest)[at := b], |ps|) ==
              Fail(BadMarker(if second then DOUBLE_MARKER else INT_MARKER, b))
    decreases k
  {
    PairsEncLength(ps, rest);
    var e := BadMarker(if second then DOUBLE_MARKER else INT_MARKER, b);
    if k == 0 {
      CorruptFirstPair(dec, ps, rest, second, b);
    } else {
      var at := PAIR_WIDTH * k + (if second then 5 else 0);
      var j := PAIR_WIDTH * (k - 1) + (if second then 5 else 0);
      CorruptRepeatFails(dec, ps[1..], rest, k - 1, second, b);
      CorruptLaterPair(dec, ps, rest, j, b);
      RepeatTailFails(dec, PairsEnc(ps, rest)[at := b], |ps|, ps[0], PairsEnc(ps[1..], rest)[j := b], e);
    }
  }

  /** A corrupted framing byte in the first pair of a list. */
  lemma CorruptFirstPair(dec: seq<byte> -> Result<Parsed<IntDoublePair>>, ps: seq<IntDoublePair>, rest: seq<byte>,
                         second: bool, b: byte)
    requires forall s {:trigger PairDec(s)} :: dec(s) == PairDec(s)
    requires ps != []
    requires b != (if second then DOUBLE_MARKER else INT_MARKER)
    ensures var at := if second then 5 else 0;
            at < |PairsEnc(ps, rest)| &&
            dec(PairsEnc(ps, rest)[at := b]) == Fail(BadMarker(if second then DOUBLE_MARKER else INT_MARKER, b))
  {
    PairFailsWith(dec, ps[0], PairsEnc(ps[1..], rest), second, b);
  }

  /** A byte changed past the first pair of a list leaves that pair decoding as before. */
  lemma CorruptLaterPair(dec: seq<byte> -> Result<Parsed<IntDoublePair>>, ps: seq<IntDoublePair>, rest: seq<byte>,
                         j: nat, b: byte)
    requires forall s {:trigger PairDec(s)} :: dec(s) == PairDec(s)
    requires ps != [] && j < |PairsEnc(ps[1..], rest)|
    ensures dec(PairsEnc(ps, rest)[PAIR_WIDTH + j := b]) == Ok(Parsed(ps[0], PairsEnc(ps[1..], rest)[j := b]))
  {
    var tail := PairsEnc(ps[1..], rest);
    PairEncUpdate(ps[0], tail, j, b);
    PairDecodesWith(dec, ps[0], tail[j := b]);
  }

  /** PairRoundTrip, seen through a decoder that is PairDec. */
  lemma PairDecodesWith(dec: seq<byte> -> Result<Parsed<IntDoublePair>>, p: IntDoublePair, t: seq<byte>)
    requires forall s {:trigger PairDec(s)} :: dec(s) == PairDec(s)
    ensures dec(PairEnc(p, t)) == Ok(Parsed(p, t))
    ensures |PairEnc(p, t)| == PAIR_WIDTH + |t|
  {
    PairRoundTrip(p, t);
  }

  /** CorruptPairFails, seen through a decoder that is PairDec. */
  lemma PairFailsWith(dec: seq<byte> -> Result<Parsed<IntDoublePair>>, p: IntDoublePair, t: seq<byte>, second: bool, b: byte)
    requires forall s {:trigger PairDec(s)} :: dec(s) == PairDec(s)
    requires b != (if second then DOUBLE_MARKER else INT_MARKER)
    ensures var at := if second then 5 else 0;
            at < |PairEnc(p, t)| &&
            dec(PairEnc(p, t)[at := b]) == Fail(BadMarker(if second then DOUBLE_MARKER else INT_MARKER, b))
  {
    CorruptPairFails(p, t, second, b);
  }

  /** The same, for a whole rating list: the framing byte at offset 4 + 14 * k (or 5 past it). */
  lemma CorruptRatingListFails(ps: seq<IntDoublePair>, rest: seq<byte>, k: nat, second: bool, b: byte)
    requires |ps| < TWO_32 && k < |ps|
    requires b != (if second then DOUBLE_MARKER else INT_MARKER)
    ensures var at := 4 + PAIR_WIDTH * k + (if second then 5 else 0);
            at < |RatingListEnc(ps, rest)| &&
            RatingListDec(RatingListEnc(ps, rest)[at := b]) ==
              Fail(BadMarker(if second then DOUBLE_MARKER else INT_MARKER, b))
  {
    CorruptPairsFail(ps, rest, k, second, b);
    var t := PairsEnc(ps, rest);
    var j := PAIR_WIDTH * k + (if second then 5 else 0);
    UpdateAfter(LittleEndianBytes(|ps|, 4), t, j, b);
    U32RoundTrip(|ps|, t[j := b]);
  }

  function TimingPointEnc(t: TimingPoint, rest: seq<byte>): seq<byte>
  {
    DoubleEnc(t.beatTime, DoubleEnc(t.offset, BoolEnc(t.inherited, rest)))
  }

  function TimingPointsEnc(ts: seq<TimingPoint>, rest: seq<byte>): seq<byte>
  {
    if ts == [] then rest else TimingPointEnc(ts[0], TimingPointsEnc(ts[1..], rest))
  }

  function TimingListEnc(ts: seq<TimingPoint>, rest: seq<byte>): seq<byte>
    requires |ts| < TWO_32
  {
    U32Enc(|ts|, TimingPointsEnc(ts, rest))
  }

  lemma TimingPointRoundTrip(t: TimingPoint, rest: seq<byte>)
    ensures TimingPointDec(TimingPointEnc(t, rest)) == Ok(Parsed(t, rest))
  {
    BoolRoundTrip(t.inherited, rest);
    DoubleRoundTrip(t.offset, BoolEnc(t.inherited, rest));
    DoubleRoundTrip(t.beatTime, DoubleEnc(t.offset, BoolEnc(t.inherited, rest)));
  }

  lemma {:induction false} TimingPointsRoundTrip(ts: seq<TimingPoint>, rest: seq<byte>)
    ensures TimingPointsDec(TimingPointsEnc(ts, rest), |ts|) == Ok(Parsed(ts, rest))
  {
    if ts != [] {
      TimingPointsRoundTrip(ts[1..], rest);
      TimingPointRoundTrip(ts[0], TimingPointsEnc(ts[1..], rest));
      assert [ts[0]] + ts[1..] == ts;
    }
  }

  /** The timing points are read back as exactly the list, in order, from 4 + 17 * count bytes. */
  lemma TimingListRoundTrip(ts: seq<TimingPoint>, rest: seq<byte>)
    requires |ts| < TWO_32
    ensures TimingListDec(TimingListEnc(ts, rest)) == Ok(Parsed(ts, rest))
    ensures |TimingListEnc(ts, rest)| == 4 + TIMING_POINT_WIDTH * |ts| + |rest|
  {
    TimingPointsRoundTrip(ts, rest);
    U32RoundTrip(|ts|, TimingPointsEnc(ts, rest));
  }
}
