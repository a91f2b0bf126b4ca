/** The reading functions of main.cpp as they run: each advances a position in the file's
    bytes, as fread advances the FILE*, and each is proved to return what the matching
    decoder of the other modules computes and to leave the position where that decoder's
    remainder begins. */
module Reader {
  import opened Types
  import opened Fixed
  import opened Uleb128
  import opened DbStrings
  import opened Lists
  import opened Beatmaps
  import opened Permissions
  import opened OsuDb
  import opened Repetition

  /** The low groups decoded so far, acc, in front of the groups from group k on. */
  function Shifted(acc: nat, k: nat, r: Result<Parsed<nat>>): Result<Parsed<nat>>
  {
    match r
    case Ok(p) => Ok(Parsed(acc + Shl(p.value, 7 * k), p.rest))
    case Fail(e) => Fail(e)
  }

  /** One continuation group moves from the undecoded groups into acc. */
  lemma ShiftedStep(acc: nat, k: nat, s: seq<byte>)
    requires k < MAX_GROUPS - 1 && |s| > 0 && s[0] >= 0x80
    ensures Shifted(acc, k, GroupsDec(s, k)) ==
            Shifted(acc + Placed(s[0], k), k + 1, GroupsDec(s[1..], k + 1))
  {
    GroupsDecContinued(s, k);
    var t := GroupsDec(s[1..], k + 1);
    if t.Ok? {
      var c: nat := s[0] % 0x80;
      var v := t.value.value;
      assert s[0] - 0x80 == c;
      ShlSum(c, 0x80 * v, 7 * k);
      ShlScaled(v, 7 * k);
      assert 7 * (k + 1) == 7 * k + 7;
    }
  }

  /** Nothing decoded yet: the decode itself. */
  lemma ShiftedNothing(r: Result<Parsed<nat>>)
    ensures Shifted(0, 0, r) == r
  {
  }

  /** The low seven bits of group k at its place, `(b & 0x7f) << 7 * k`. */
  function Placed(b: byte, k: nat): nat
  {
    Shl(b % 0x80, 7 * k)
  }

  /** The state getULEB128's loop keeps: the decode of start is acc in front of the groups
      from group k on, which begin s. */
  ghost predicate Pending(start: seq<byte>, acc: nat, k: nat, s: seq<byte>)
  {
    k < MAX_GROUPS && Shifted(0, 0, GroupsDec(start, 0)) == Shifted(acc, k, GroupsDec(s, k))
  }

  lemma PendingStart(start: seq<byte>)
    ensures Pending(start, 0, 0, start)
  {
    ShiftedNothing(GroupsDec(start, 0));
  }

  /** The byte for group k is missing. */
  lemma PendingTruncated(start: seq<byte>, acc: nat, k: nat, s: seq<byte>)
    requires Pending(start, acc, k, s) && U8Dec(s).Fail?
    ensures UlebDec(start) == Fail(U8Dec(s).error)
  {
    ShiftedNothing(GroupsDec(start, 0));
  }

  /** Group k has the continuation bit and is the last group allowed. */
  lemma PendingTooLong(start: seq<byte>, acc: nat, k: nat, s: seq<byte>, b: byte, t: seq<byte>)
    requires Pending(start, acc, k, s) && U8Dec(s) == Ok(Parsed(b, t))
    requires k == MAX_GROUPS - 1 && b >= 0x80
    ensures UlebDec(start) == Fail(VarintTooLong)
  {
    ShiftedNothing(GroupsDec(start, 0));
  }

  /** A successful one-byte read takes the first byte. */
  lemma U8Taken(s: seq<byte>, b: byte, t: seq<byte>)
    requires U8Dec(s) == Ok(Parsed(b, t))
    ensures |s| > 0 && s[0] == b && t == s[1..]
  {
  }

  /** Group k has the continuation bit: it joins acc. */
  lemma PendingContinued(start: seq<byte>, acc: nat, k: nat, s: seq<byte>, b: byte, t: seq<byte>)
    requires Pending(start, acc, k, s) && U8Dec(s) == Ok(Parsed(b, t))
    requires k < MAX_GROUPS - 1 && b >= 0x80
    ensures Pending(start, acc + Placed(b, k), k + 1, t)
  {
    U8Taken(s, b, t);
    ShiftedStep(acc, k, s);
  }

  /** Group k is the last: the decode is acc with it, truncated to 32 bits. */
  lemma PendingDone(start: seq<byte>, acc: nat, k: nat, s: seq<byte>, b: byte, t: seq<byte>)
    requires Pending(start, acc, k, s) && U8Dec(s) == Ok(Parsed(b, t))
    requires b < 0x80
    ensures UlebDec(start) == Ok(Parsed((acc + Placed(b, k)) % TWO_32, t))
  {
    U8Taken(s, b, t);
    LastGroup(start, acc, k, s);
  }

  /** Group k read as byte b: what the running 32-bit result becomes, and which of the
      three outcomes of the loop follows. */
  lemma PendingByte(start: seq<byte>, acc: nat, k: nat, s: seq<byte>, b: byte, t: seq<byte>, result: u32)
    requires Pending(start, acc, k, s) && U8Dec(s) == Ok(Parsed(b, t))
    requires result as nat == acc % TWO_32
    ensures (result as nat + Placed(b, k)) % TWO_32 == (acc + Placed(b, k)) % TWO_32
    ensures b < 0x80 ==> UlebDec(start) == Ok(Parsed((acc + Placed(b, k)) % TWO_32, t))
    ensures b >= 0x80 && k == MAX_GROUPS - 1 ==> UlebDec(start) == Fail(VarintTooLong)
    ensures b >= 0x80 && k < MAX_GROUPS - 1 ==> Pending(start, acc + Placed(b, k), k + 1, t)
  {
    Accumulate(result, acc, Placed(b, k));
    if b < 0x80 {
      PendingDone(start, acc, k, s, b, t);
    } else if k == MAX_GROUPS - 1 {
      PendingTooLong(start, acc, k, s, b, t);
    } else {
      PendingContinued(start, acc, k, s, b, t);
    }
  }

  lemma LastGroup(start: seq<byte>, acc: nat, k: nat, s: seq<byte>)
    requires Pending(start, acc, k, s) && |s| > 0 && s[0] < 0x80
    ensures UlebDec(start) == Ok(Parsed((acc + Placed(s[0], k)) % TWO_32, s[1..]))
  {
    ShiftedNothing(GroupsDec(start, 0));
    var last: nat := s[0];
    assert GroupsDec(s, k) == Ok(Parsed(last, s[1..]));
    assert last % 0x80 == last;
    var v := acc + Shl(last, 7 * k);
    assert GroupsDec(start, 0) == Ok(Parsed(v, s[1..]));
  }

  /** How one byte of getULEB128 leaves the loop: the number is complete, the read
      failed, or the loop goes on with the new 32-bit accumulator. */
  datatype GroupStep = Last(value: u32) | Stop(error: Error) | More(result: u32)

  class Cursor {
    /** The bytes of the file. */
    const data: seq<byte>
    /** The file position: the next byte fread returns. */
    var pos: nat

    ghost predicate Valid()
      reads this
    {
      pos <= |data|
    }

    /** The bytes not read yet. */
    ghost function Remaining(): seq<byte>
      reads this
      requires Valid()
    {
      data[pos..]
    }

    /** fopen: the position is at the start of the file. */
    constructor(bytes: seq<byte>)
      ensures Valid() && data == bytes && pos == 0
    {
      data := bytes;
      pos := 0;
    }

    /** fread of width bytes into an unsigned integer: their little-endian value. */
    method ReadFixed(width: nat) returns (r: Result<nat>)
      requires Valid()
      modifies this
      ensures old(pos) <= pos
      ensures Valid() && Track(r, Remaining()) == FixedDec(old(Remaining()), width)
    {
      if |data| - pos < width {
        return Fail(Truncated);
      }
      assert data[pos..][..width] == data[pos..pos + width];
      assert data[pos..][width..] == data[pos + width..];
      r := Ok(LittleEndian(data[pos..pos + width]));
      pos := pos + width;
    }

    method ReadU8() returns (r: Result<byte>)
      requires Valid()
      modifies this
      ensures old(pos) <= pos
      ensures Valid() && Track(r, Remaining()) == U8Dec(old(Remaining()))
    {
      var f :- ReadFixed(1);
      return Ok(f);
    }

    method ReadU16() returns (r: Result<u16>)
      requires Valid()
      modifies this
      ensures old(pos) <= pos
      ensures Valid() && Track(r, Remaining()) == U16Dec(old(Remaining()))
    {
      var f :- ReadFixed(2);
      return Ok(f);
    }

    method ReadU32() returns (r: Result<u32>)
      requires Valid()
      modifies this
      ensures old(pos) <= pos
      ensures Valid() && Track(r, Remaining()) == U32Dec(old(Remaining()))
    {
      var f :- ReadFixed(4);
      return Ok(f);
    }

    method ReadU64() returns (r: Result<u64>)
      requires Valid()
      modifies this
      ensures old(pos) <= pos
      ensures Valid() && Track(r, Remaining()) == U64Dec(old(Remaining()))
    {
      var f :- ReadFixed(8);
      return Ok(f);
    }

    /** fread into an int32_t: the four bytes' pattern in two's complement. */
    method ReadI32() returns (r: Result<i32>)
      requires Valid()
      modifies this
      ensures old(pos) <= pos
      ensures Valid() && Track(r, Remaining()) == I32Dec(old(Remaining()))
    {
      var f :- ReadU32();
      return Ok(if f < 0x8000_0000 then f else f - TWO_32);
    }

    /** fread into a bool. */
    method ReadBool() returns (r: Result<bool>)
      requires Valid()
      modifies this
      ensures old(pos) <= pos
      ensures Valid() && Track(r, Remaining()) == BoolDec(old(Remaining()))
    {
      var f :- ReadU8();
      return Ok(f != 0);
    }

    method ReadSingle() returns (r: Result<Single>)
      requires Valid()
      modifies this
      ensures old(pos) <= pos
      ensures Valid() && Track(r, Remaining()) == SingleDec(old(Remaining()))
    {
      var f :- ReadU32();
      return Ok(SingleBits(f));
    }

    /** A legacy difficulty byte, converted to dbSingle (main.cpp:232-246). */
    method ReadWidenedByte() returns (r: Result<Single>)
      requires Valid()
      modifies this
      ensures old(pos) <= pos
      ensures Valid() && Track(r, Remaining()) == WidenedByteDec(old(Remaining()))
    {
      var f :- ReadU8();
      return Ok(Widen(f));
    }

    method ReadDouble() returns (r: Result<Double>)
      requires Valid()
      modifies this
      ensures old(pos) <= pos
      ensures Valid() && Track(r, Remaining()) == DoubleDec(old(Remaining()))
    {
      var f :- ReadU64();
      return Ok(DoubleBits(f));
    }

    /** getULEB128: ORs the low seven bits of each byte in at the current shift until a byte
        without the continuation bit; a fifth continuation group is rejected. The OR is a
        sum because the bit ranges do not overlap, and the 32-bit result keeps it modulo
        2^32. */
    method ReadULEB128() returns (r: Result<u32>)
      requires Valid()
      modifies this
      ensures old(pos) <= pos
      ensures Valid() && Track(r, Remaining()) == UlebDec(old(Remaining()))
    {
      ghost var start := Remaining();
      var result: u32 := 0;
      var shift: nat := 0;
      ghost var k: nat := 0;
      ghost var acc: nat := 0;
      PendingStart(start);
      while true
        invariant old(pos) <= pos
        invariant Valid() && shift == 7 * k && result == acc % TWO_32
        invariant Pending(start, acc, k, Remaining())
        decreases MAX_GROUPS - k
      {
        var step, sum := ReadGroup(start, acc, k, shift, result);
        match step
        case Last(value) => return Ok(value);
        case Stop(e) => return Fail(e);
        case More(next) =>
          result := next;
          acc := sum;
          shift := shift + 7;
          k := k + 1;
      }
    }

    /** One pass of getULEB128's loop: reads group k and ORs it in at shift = 7 * k. */
    method ReadGroup(ghost start: seq<byte>, ghost acc: nat, ghost k: nat, shift: nat, result: u32)
      returns (step: GroupStep, ghost sum: nat)
      requires Valid() && shift == 7 * k && result == acc % TWO_32
      requires Pending(start, acc, k, Remaining())
      modifies this
      ensures old(pos) <= pos
      ensures Valid()
      ensures step.Last? ==> UlebDec(start) == Ok(Parsed(step.value, Remaining()))
      ensures step.Stop? ==> UlebDec(start) == Fail(step.error)
      ensures step.More? ==> k + 1 < MAX_GROUPS && step.result == sum % TWO_32 &&
                             Pending(start, sum, k + 1, Remaining())
    {
      ghost var before := Remaining();
      var next := ReadU8();
      if next.Fail? {
        PendingTruncated(start, acc, k, before);
        return Stop(next.error), acc;
      }
      var b := next.value;
      var low := Shl(b % 0x80, shift);
      PendingByte(start, acc, k, before, b, Remaining(), result);
      sum := acc + low;
      var updated: u32 := (result + low) % TWO_32;
      if b < 0x80 {
        return Last(updated), sum;
      }
      if shift == 7 * (MAX_GROUPS - 1) {
        return Stop(VarintTooLong), sum;
      }
      return More(updated), sum;
    }

    /** fread of n bytes into a fresh buffer. */
    method ReadBytes(n: nat) returns (r: Result<seq<byte>>)
      requires Valid()
      modifies this
      ensures old(pos) <= pos
      ensures Valid()
      ensures var s := old(Remaining());
              Track(r, Remaining()) == if |s| < n then Fail(Truncated) else Ok(Parsed(s[..n], s[n..]))
    {
      if |data| - pos < n {
        return Fail(Truncated);
      }
      assert data[pos..][..n] == data[pos..pos + n];
      assert data[pos..][n..] == data[pos + n..];
      r := Ok(data[pos..pos + n]);
      pos := pos + n;
    }

    /** getString: the marker, then for 0x0b the ULEB128 length and that many bytes. */
    method ReadString() returns (r: Result<DbString>)
      requires Valid()
      modifies this
      ensures old(pos) <= pos
      ensures Valid() && Track(r, Remaining()) == StringDec(old(Remaining()))
    {
      var first :- ReadU8();
      if first == PRESENT {
        var length :- ReadULEB128();
        var text :- ReadBytes(length);
        return Ok(DbString(true, PRESENT, length, text));
      }
      return Ok(DbString(false, first, 0, []));
    }

    /** One iteration of a rating-list loop (main.cpp:270-276): the two asserted markers
        around the int and the double. */
    method ReadPair() returns (r: Result<IntDoublePair>)
      requires Valid()
      modifies this
      ensures old(pos) <= pos
      ensures Valid() && Track(r, Remaining()) == PairDec(old(Remaining()))
    {
      var flag :- ReadU8();
      if flag != INT_MARKER {
        return Fail(BadMarker(INT_MARKER, flag));
      }
      var first :- ReadU32();
      flag :- ReadU8();
      if flag != DOUBLE_MARKER {
        return Fail(BadMarker(DOUBLE_MARKER, flag));
      }
      var second :- ReadDouble();
      return Ok(IntDoublePair(first, second));
    }

    /** The loop of a rating list: count pairs into a buffer of count entries. The loop sees
        the element decoder only through dec. */
    method ReadPairsLoop(count: u32, ghost dec: seq<byte> -> Result<Parsed<IntDoublePair>>) returns (r: Result<seq<IntDoublePair>>)
      requires forall s {:trigger PairDec(s)} :: dec(s) == PairDec(s)
      requires Valid()
      modifies this
      ensures old(pos) <= pos
      ensures Valid() && Track(r, Remaining()) == Repeat(dec, old(Remaining()), count)
    {
      ghost var start := Remaining();
      var pairs := new IntDoublePair[count];
      var i: nat := 0;
      assert pairs[..0] == [];
      while i < count
        invariant old(pos) <= pos
        invariant Valid() && i <= count
        invariant Decoded(dec, start, i, pairs[..i], Remaining())
      {
        ghost var before := Remaining();
        var pair := ReadPair();
        if pair.Fail? {
          RepeatFailAt(dec, start, i, count, pairs[..i], before);
          return Fail(pair.error);
        }
        RepeatSnoc(dec, start, i, pairs[..i], before, pair.value, Remaining());
        ghost var done := pairs[..i];
        pairs[i] := pair.value;
        assert pairs[..i + 1] == done + [pair.value];
        i := i + 1;
      }
      assert pairs[..i] == pairs[..];
      return Ok(pairs[..]);
    }

    method ReadPairs(count: u32) returns (r: Result<seq<IntDoublePair>>)
      requires Valid()
      modifies this
      ensures old(pos) <= pos
      ensures Valid() && Track(r, Remaining()) == PairsDec(old(Remaining()), count)
    {
      r := ReadPairsLoop(count, PairDec);
    }

    /** A rating list: its count, then the pairs. */
    method ReadRatingList() returns (r: Result<seq<IntDoublePair>>)
      requires Valid()
      modifies this
      ensures old(pos) <= pos
      ensures Valid() && Track(r, Remaining()) == RatingListDec(old(Remaining()))
    {
      var count :- ReadU32();
      r := ReadPairs(count);
    }

    /** One iteration of the timing-point loop (main.cpp:324-334). */
    method ReadTimingPoint() returns (r: Result<TimingPoint>)
      requires Valid()
      modifies this
      ensures old(pos) <= pos
      ensures Valid() && Track(r, Remaining()) == TimingPointDec(old(Remaining()))
    {
      var bpm :- ReadDouble();
      var offset :- ReadDouble();
      var inherited :- ReadBool();
      return Ok(TimingPoint(bpm, offset, inherited));
    }

    /** The timing-point loop: count points into a buffer of count entries. The loop sees
        the element decoder only through dec. */
    method ReadTimingPointsLoop(count: u32, ghost dec: seq<byte> -> Result<Parsed<TimingPoint>>) returns (r: Result<seq<TimingPoint>>)
      requires forall s {:trigger TimingPointDec(s)} :: dec(s) == TimingPointDec(s)
      requires Valid()
      modifies this
      ensures old(pos) <= pos
      ensures Valid() && Track(r, Remaining()) == Repeat(dec, old(Remaining()), count)
    {
      ghost var start := Remaining();
      var points := new TimingPoint[count];
      var i: nat := 0;
      assert points[..0] == [];
      while i < count
        invariant old(pos) <= pos
        invariant Valid() && i <= count
        invariant Decoded(dec, start, i, points[..i], Remaining())
      {
        ghost var before := Remaining();
        var point := ReadTimingPoint();
        if point.Fail? {
          RepeatFailAt(dec, start, i, count, points[..i], before);
          return Fail(point.error);
        }
        RepeatSnoc(dec, start, i, points[..i], before, point.value, Remaining());
        ghost var done := points[..i];
        points[i] := point.value;
        assert points[..i + 1] == done + [point.value];
        i := i + 1;
      }
      assert points[..i] == points[..];
      return Ok(points[..]);
    }

    method ReadTimingPoints(count: u32) returns (r: Result<seq<TimingPoint>>)
      requires Valid()
      modifies this
      ensures old(pos) <= pos
      ensures Valid() && Track(r, Remaining()) == TimingPointsDec(old(Remaining()), count)
    {
      r := ReadTimingPointsLoop(count, TimingPointDec);
    }

    /** The timing-point count, then the points (main.cpp:319-335). */
    method ReadTimingList() returns (r: Result<seq<TimingPoint>>)
      requires Valid()
      modifies this
      ensures old(pos) <= pos
      ensures Valid() && Track(r, Remaining()) == TimingListDec(old(Remaining()))
    {
      var count :- ReadU32();
      r := ReadTimingPoints(count);
    }

    /** main.cpp:206-207: the size field, read only before NO_SIZE_VERSION. */
    method ReadSize(version: u32) returns (r: Result<Option<u32>>)
      requires Valid()
      modifies this
      ensures old(pos) <= pos
      ensures Valid() && Track(r, Remaining()) == SizeDec(old(Remaining()), version)
    {
      if version < NO_SIZE_VERSION {
        var size :- ReadU32();
        return Ok(Some(size));
      }
      return Ok(None);
    }

    /** The nine getString calls of main.cpp:209-221. */
    method ReadNames() returns (r: Result<Names>)
      requires Valid()
      modifies this
      ensures old(pos) <= pos
      ensures Valid() && Track(r, Remaining()) == NamesDec(old(Remaining()))
    {
      var artist :- ReadString();
      var artistUnicode :- ReadString();
      var title :- ReadString();
      var titleUnicode :- ReadString();
      var creator :- ReadString();
      var difficulty :- ReadString();
      var audioName :- ReadString();
      var md5 :- ReadString();
      var osuName :- ReadString();
      return Ok(Names(artist, artistUnicode, title, titleUnicode, creator, difficulty, audioName, md5, osuName));
    }

    /** main.cpp:223-229. */
    method ReadObjects() returns (r: Result<Objects>)
      requires Valid()
      modifies this
      ensures old(pos) <= pos
      ensures Valid() && Track(r, Remaining()) == ObjectsDec(old(Remaining()))
    {
      var status :- ReadU8();
      var hitcircles :- ReadU16();
      var sliders :- ReadU16();
      var spinners :- ReadU16();
      var lastModification :- ReadU64();
      return Ok(Objects(status, hitcircles, sliders, spinners, lastModification));
    }

    /** main.cpp:231-262: ar, cs, hp and od as bytes widened to dbSingle before
        FLOAT_DIFFICULTY_VERSION, as floats from it on. */
    method ReadDifficulty(version: u32) returns (r: Result<Difficulty>)
      requires Valid()
      modifies this
      ensures old(pos) <= pos
      ensures Valid() && Track(r, Remaining()) == DifficultyDec(old(Remaining()), version)
    {
      if version < FLOAT_DIFFICULTY_VERSION {
        var ar :- ReadWidenedByte();
        var cs :- ReadWidenedByte();
        var hp :- ReadWidenedByte();
        var od :- ReadWidenedByte();
        return Ok(Difficulty(ar, cs, hp, od));
      }
      var ar :- ReadSingle();
      var cs :- ReadSingle();
      var hp :- ReadSingle();
      var od :- ReadSingle();
      return Ok(Difficulty(ar, cs, hp, od));
    }

    /** main.cpp:266-313, each list into its own buffer. */
    method ReadStarRatings() returns (r: Result<StarRatings>)
      requires Valid()
      modifies this
      ensures old(pos) <= pos
      ensures Valid() && Track(r, Remaining()) == StarRatingsDec(old(Remaining()))
    {
      var standard :- ReadRatingList();
      var taiko :- ReadRatingList();
      var ctb :- ReadRatingList();
      var mania :- ReadRatingList();
      return Ok(StarRatings(standard, taiko, ctb, mania));
    }

    /** main.cpp:315-335. */
    method ReadTiming() returns (r: Result<Timing>)
      requires Valid()
      modifies this
      ensures old(pos) <= pos
      ensures Valid() && Track(r, Remaining()) == TimingDec(old(Remaining()))
    {
      var drainTime :- ReadU32();
      var totalTime :- ReadU32();
      var previewMilis :- ReadU32();
      var timingPoints :- ReadTimingList();
      return Ok(Timing(drainTime, totalTime, previewMilis, timingPoints));
    }

    /** main.cpp:337-346. */
    method ReadOnline() returns (r: Result<Online>)
      requires Valid()
      modifies this
      ensures old(pos) <= pos
      ensures Valid() && Track(r, Remaining()) == OnlineDec(old(Remaining()))
    {
      var difficultyId :- ReadU32();
      var beatmapId :- ReadU32();
      var threadId :- ReadU32();
      var standardRank :- ReadU8();
      var taikoRank :- ReadU8();
      var ctbRank :- ReadU8();
      var maniaRank :- ReadU8();
      var offset :- ReadU16();
      var stackLeniency :- ReadSingle();
      var mode :- ReadU8();
      return Ok(Online(difficultyId, beatmapId, threadId, standardRank, taikoRank, ctbRank, maniaRank,
                       offset, stackLeniency, mode));
    }

    /** main.cpp:348-359. */
    method ReadExtras() returns (r: Result<Extras>)
      requires Valid()
      modifies this
      ensures old(pos) <= pos
      ensures Valid() && Track(r, Remaining()) == ExtrasDec(old(Remaining()))
    {
      var source :- ReadString();
      var tags :- ReadString();
      var onlineOffset :- ReadU16();
      var titleFont :- ReadString();
      var unplayed :- ReadBool();
      var lastTimePlayed :- ReadU64();
      var isOsz2 :- ReadBool();
      var folderName :- ReadString();
      return Ok(Extras(source, tags, onlineOffset, titleFont, unplayed, lastTimePlayed, isOsz2, folderName));
    }

    /** main.cpp:361-366. */
    method ReadOverrides() returns (r: Result<Overrides>)
      requires Valid()
      modifies this
      ensures old(pos) <= pos
      ensures Valid() && Track(r, Remaining()) == OverridesDec(old(Remaining()))
    {
      var lastCheck :- ReadU64();
      var ignoreSound :- ReadBool();
      var ignoreSkin :- ReadBool();
      var disableStoryboard :- ReadBool();
      var disableVideo :- ReadBool();
      var visualOverride :- ReadBool();
      return Ok(Overrides(lastCheck, ignoreSound, ignoreSkin, disableStoryboard, disableVideo, visualOverride));
    }

    /** main.cpp:368-372: the 16-bit field only before FLOAT_DIFFICULTY_VERSION. */
    method ReadTrailer(version: u32) returns (r: Result<Trailer>)
      requires Valid()
      modifies this
      ensures old(pos) <= pos
      ensures Valid() && Track(r, Remaining()) == TrailerDec(old(Remaining()), version)
    {
      var unknown: Option<u16> := None;
      if version < FLOAT_DIFFICULTY_VERSION {
        var u :- ReadU16();
        unknown := Some(u);
      }
      var lastModifyDate :- ReadU32();
      var scrollSpeed :- ReadU8();
      return Ok(Trailer(unknown, lastModifyDate, scrollSpeed));
    }

    /** main.cpp:206-313. */
    method ReadHead(version: u32) returns (r: Result<Head>)
      requires Valid()
      modifies this
      ensures old(pos) <= pos
      ensures Valid() && Track(r, Remaining()) == HeadDec(old(Remaining()), version)
    {
      var size :- ReadSize(version);
      var names :- ReadNames();
      var objects :- ReadObjects();
      var difficulty :- ReadDifficulty(version);
      var sliderVelocity :- ReadDouble();
      var ratings :- ReadStarRatings();
      return Ok(Head(size, names, objects, difficulty, sliderVelocity, ratings));
    }

    /** main.cpp:315-372. */
    method ReadTail(version: u32) returns (r: Result<Tail>)
      requires Valid()
      modifies this
      ensures old(pos) <= pos
      ensures Valid() && Track(r, Remaining()) == TailDec(old(Remaining()), version)
    {
      var timing :- ReadTiming();
      var online :- ReadOnline();
      var extras :- ReadExtras();
      var overrides :- ReadOverrides();
      var trailer :- ReadTrailer(version);
      return Ok(Tail(timing, online, extras, overrides, trailer));
    }

    /** getBeatmap: the record, then the assert at main.cpp:374 on the 16-bit field. */
    method ReadBeatmap(version: u32) returns (r: Result<Beatmap>)
      requires Valid()
      modifies this
      ensures old(pos) <= pos
      ensures Valid() && Track(r, Remaining()) == BeatmapDec(old(Remaining()), version)
    {
      var head :- ReadHead(version);
      var tail :- ReadTail(version);
      var beatmap := Join(head, tail);
      if beatmap.trailer.unknown.Some? && beatmap.trailer.unknown.value != 0 {
        return Fail(UnknownNotZero(beatmap.trailer.unknown.value));
      }
      return Ok(beatmap);
    }

    /** One iteration of getBeatmaps' loop after i records: the next record, or the error
        that ends the list of count records. The loop sees getBeatmap only through dec. */
    method ReadNextBeatmap(version: u32, count: nat, ghost dec: seq<byte> -> Result<Parsed<Beatmap>>,
                           ghost start: seq<byte>, ghost i: nat, ghost done: seq<Beatmap>)
      returns (r: Result<Beatmap>)
      requires forall s {:trigger BeatmapDec(s, version)} :: dec(s) == BeatmapDec(s, version)
      requires Valid() && i < count && Decoded(dec, start, i, done, Remaining())
      modifies this
      ensures old(pos) <= pos
      ensures Valid()
      ensures r.Ok? ==> Decoded(dec, start, i + 1, done + [r.value], Remaining())
      ensures r.Fail? ==> Stopped(dec, start, count, r.error)
    {
      ghost var before := Remaining();
      r := ReadBeatmap(version);
      if r.Fail? {
        RepeatFailAt(dec, start, i, count, done, before);
      } else {
        RepeatSnoc(dec, start, i, done, before, r.value, Remaining());
      }
    }

    /** The loop of getBeatmaps: count records into a buffer of count entries. */
    method ReadBeatmapsLoop(version: u32, count: u32, ghost dec: seq<byte> -> Result<Parsed<Beatmap>>)
      returns (r: Result<seq<Beatmap>>)
      requires forall s {:trigger BeatmapDec(s, version)} :: dec(s) == BeatmapDec(s, version)
      requires Valid()
      modifies this
      ensures old(pos) <= pos
      ensures Valid() && Track(r, Remaining()) == Repeat(dec, old(Remaining()), count)
    {
      ghost var start := Remaining();
      var beatmaps := new Beatmap[count];
      var i: nat := 0;
      assert beatmaps[..0] == [];
      while i < count
        invariant old(pos) <= pos
        invariant Valid() && i <= count
        invariant Decoded(dec, start, i, beatmaps[..i], Remaining())
      {
        var beatmap := ReadNextBeatmap(version, count, dec, start, i, beatmaps[..i]);
        if beatmap.Fail? {
          return Fail(beatmap.error);
        }
        ghost var done := beatmaps[..i];
        beatmaps[i] := beatmap.value;
        assert beatmaps[..i + 1] == done + [beatmap.value];
        i := i + 1;
      }
      assert beatmaps[..i] == beatmaps[..];
      return Ok(beatmaps[..]);
    }

    /** getBeatmaps. */
    method ReadBeatmaps(version: u32, count: u32) returns (r: Result<seq<Beatmap>>)
      requires Valid()
      modifies this
      ensures old(pos) <= pos
      ensures Valid() && Track(r, Remaining()) == BeatmapsDec(old(Remaining()), version, count)
    {
      r := ReadBeatmapsLoop(version, count, BeatmapDecoder(version));
    }

    /** getPermissions: the raw int32, then one test per mask, each setting its flag. */
    method ReadPermissions() returns (r: Result<Permissions>)
      requires Valid()
      modifies this
      ensures old(pos) <= pos
      ensures Valid() && Track(r, Remaining()) == PermissionsDec(old(Remaining()))
    {
      var raw :- ReadI32();
      var perms := Permissions(raw, false, false, false, false, false, false);
      if HasFlag(raw, PERMISSIONS_NORMAL) {
        perms := perms.(isNormal := true);
      }
      if HasFlag(raw, PERMISSIONS_MODERATOR) {
        perms := perms.(isModerator := true);
      }
      if HasFlag(raw, PERMISSIONS_SUPPORTER) {
        perms := perms.(isSupporter := true);
      }
      if HasFlag(raw, PERMISSIONS_FRIEND) {
        perms := perms.(isFriend := true);
      }
      if HasFlag(raw, PERMISSIONS_PEPPY) {
        perms := perms.(isPeppy := true);
      }
      if HasFlag(raw, PERMISSIONS_WORLDCUPSTAFF) {
        perms := perms.(isWorldCupStaff := true);
      }
      return Ok(perms);
    }

    /** getdbVer, getFolderCount, getAccountUnlocked and getUnlockDate (main.cpp:56-85). */
    method ReadHeader() returns (r: Result<Header>)
      requires Valid()
      modifies this
      ensures old(pos) <= pos
      ensures Valid() && Track(r, Remaining()) == HeaderDec(old(Remaining()))
    {
      var version :- ReadU32();
      var folderCount :- ReadU32();
      var accountUnlocked :- ReadBool();
      var unlockDate :- ReadU64();
      return Ok(Header(version, folderCount, accountUnlocked, unlockDate));
    }

    /** main(): the header, the player name, the beatmap count, the beatmaps laid out for
        the version just read, and the permissions. */
    method ReadDatabase() returns (r: Result<Database>)
      requires Valid()
      modifies this
      ensures old(pos) <= pos
      ensures Valid() && Track(r, Remaining()) == DatabaseDec(old(Remaining()))
    {
      var header :- ReadHeader();
      var playerName :- ReadString();
      var count :- ReadU32();
      var beatmaps :- ReadBeatmaps(header.version, count);
      var permissions :- ReadPermissions();
      return Ok(Database(header, playerName, beatmaps, permissions));
    }
  }

  /** main() on the bytes of main.db: the database exactly when the decoder of the format
      accepts the bytes, the decoder's error otherwise, and what it returns is well formed. */
  method Decode(bytes: seq<byte>) returns (r: Result<Database>)
    ensures r.Ok? <==> DatabaseDec(bytes).Ok?
    ensures r.Ok? ==> r.value == DatabaseDec(bytes).value.value && DatabaseWellFormed(r.value)
    ensures r.Fail? ==> r.error == DatabaseDec(bytes).error
  {
    var cursor := new Cursor(bytes);
    r := cursor.ReadDatabase();
  }

  /** Adding to the 32-bit accumulator keeps it the sum modulo 2^32. */
  lemma Accumulate(result: u32, acc: nat, low: nat)
    requires result as nat == acc % TWO_32
    ensures (result as nat + low) % TWO_32 == (acc + low) % TWO_32
  {
    ModAdd(acc, low);
  }

  /** Truncating after each addition is truncating once. */
  lemma ModAdd(a: nat, b: nat)
    ensures (a % TWO_32 + b) % TWO_32 == (a + b) % TWO_32
  {
    var q := a / TWO_32;
    assert a == TWO_32 * q + a % TWO_32;
    assert a + b == TWO_32 * q + (a % TWO_32 + b);
    ModOffset(a % TWO_32 + b, q);
  }

  lemma ModOffset(x: nat, q: nat)
    ensures (TWO_32 * q + x) % TWO_32 == x % TWO_32
  {
    var r := x % TWO_32;
    var y := TWO_32 * q + x;
    assert y == TWO_32 * (q + x / TWO_32) + r;
    assert y / TWO_32 == q + x / TWO_32 && y % TWO_32 == r by {
      assert 0 <= r < TWO_32;
    }
  }
}
