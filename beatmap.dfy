/** One beatmap record (dbBeatmap, main.cpp:139-376). The record is one linear sequence of
    fields; its layout depends on the database version at three points: a 4-byte size
    before version 20191106, one byte (not a 4-byte float) for each of ar/cs/hp/od before
    20140609, and a 16-bit field that must be zero before 20140609. The fields are grouped
    here by where they sit in the record, in file order. */
module Beatmaps {
  import opened Types
  import opened Fixed
  import opened DbStrings
  import opened Lists

  /** From this version on, ar/cs/hp/od are 32-bit floats and the 16-bit field is gone. */
  const FLOAT_DIFFICULTY_VERSION: int := 20140609
  /** From this version on, the record has no leading size field. */
  const NO_SIZE_VERSION: int := 20191106

  /** The nine strings of main.cpp:209-221. */
  datatype Names = Names(
    artist: DbString,
    artistUnicode: DbString,
    title: DbString,
    titleUnicode: DbString,
    creator: DbString,
    difficulty: DbString,
    audioName: DbString,
    md5: DbString,
    osuName: DbString)

  /** main.cpp:223-229. */
  datatype Objects = Objects(status: byte, hitcircles: u16, sliders: u16, spinners: u16, lastModification: u64)

  /** main.cpp:231-262. */
  datatype Difficulty = Difficulty(ar: Single, cs: Single, hp: Single, od: Single)

  /** The four per-mode star-rating lists of main.cpp:266-313, standard, taiko, ctb, mania. */
  datatype StarRatings = StarRatings(
    standard: seq<IntDoublePair>,
    taiko: seq<IntDoublePair>,
    ctb: seq<IntDoublePair>,
    mania: seq<IntDoublePair>)

  /** main.cpp:315-335. */
  datatype Timing = Timing(drainTime: u32, totalTime: u32, previewMilis: u32, timingPoints: seq<TimingPoint>)

  /** main.cpp:337-346. */
  datatype Online = Online(
    difficultyId: u32,
    beatmapId: u32,
    threadId: u32,
    standardRank: byte,
    taikoRank: byte,
    ctbRank: byte,
    maniaRank: byte,
    offset: u16,
    stackLeniency: Single,
    mode: byte)

  /** main.cpp:348-359. */
  datatype Extras = Extras(
    source: DbString,
    tags: DbString,
    onlineOffset: u16,
    titleFont: DbString,
    unplayed: bool,
    lastTimePlayed: u64,
    isOsz2: bool,
    folderName: DbString)

  /** main.cpp:361-366. */
  datatype Overrides = Overrides(
    lastCheck: u64,
    ignoreSound: bool,
    ignoreSkin: bool,
    disableStoryboard: bool,
    disableVideo: bool,
    visualOverride: bool)

  /** main.cpp:368-372; unknown is None when the version has no such field. */
  datatype Trailer = Trailer(unknown: Option<u16>, lastModifyDate: u32, scrollSpeed: byte)

  datatype Beatmap = Beatmap(
    size: Option<u32>,
    names: Names,
    objects: Objects,
    difficulty: Difficulty,
    sliderVelocity: Double,
    ratings: StarRatings,
    timing: Timing,
    online: Online,
    extras: Extras,
    overrides: Overrides,
    trailer: Trailer)

  /** The record is decoded in two steps: its head runs up to the star-rating lists
      (main.cpp:206-313), its tail from the drain time to the end (main.cpp:315-372). */
  datatype Head = Head(
    size: Option<u32>,
    names: Names,
    objects: Objects,
    difficulty: Difficulty,
    sliderVelocity: Double,
    ratings: StarRatings)

  datatype Tail = Tail(timing: Timing, online: Online, extras: Extras, overrides: Overrides, trailer: Trailer)

  function Join(h: Head, t: Tail): (b: Beatmap)
    ensures HeadOf(b) == h && TailOf(b) == t
  {
    Beatmap(h.size, h.names, h.objects, h.difficulty, h.sliderVelocity, h.ratings,
            t.timing, t.online, t.extras, t.overrides, t.trailer)
  }

  function HeadOf(b: Beatmap): Head
  {
    Head(b.size, b.names, b.objects, b.difficulty, b.sliderVelocity, b.ratings)
  }

  function TailOf(b: Beatmap): Tail
  {
    Tail(b.timing, b.online, b.extras, b.overrides, b.trailer)
  }

  // What a record decoded under a given version looks like.

  predicate NamesWellFormed(n: Names)
  {
    && WellFormed(n.artist) && WellFormed(n.artistUnicode) && WellFormed(n.title)
    && WellFormed(n.titleUnicode) && WellFormed(n.creator) && WellFormed(n.difficulty)
    && WellFormed(n.audioName) && WellFormed(n.md5) && WellFormed(n.osuName)
  }

  predicate ExtrasWellFormed(e: Extras)
  {
    WellFormed(e.source) && WellFormed(e.tags) && WellFormed(e.titleFont) && WellFormed(e.folderName)
  }

  /** Widened bytes before FLOAT_DIFFICULTY_VERSION, float bit patterns from it on. */
  predicate DifficultyFor(d: Difficulty, version: u32)
  {
    if version < FLOAT_DIFFICULTY_VERSION then
      d.ar.WidenedByte? && d.cs.WidenedByte? && d.hp.WidenedByte? && d.od.WidenedByte?
    else
      d.ar.SingleBits? && d.cs.SingleBits? && d.hp.SingleBits? && d.od.SingleBits?
  }

  /** Every list length fits the 4-byte count in front of it. */
  predicate RatingsFit(r: StarRatings)
  {
    |r.standard| < TWO_32 && |r.taiko| < TWO_32 && |r.ctb| < TWO_32 && |r.mania| < TWO_32
  }

  /** The fields of b are the ones the layout of version has: the size and the 16-bit field
      exactly when the version has them, the difficulty in the version's representation,
      well-formed strings and lists whose lengths fit their counts. */
  predicate LayoutFor(b: Beatmap, version: u32)
  {
    HeadLayoutFor(HeadOf(b), version) && TailLayoutFor(TailOf(b), version)
  }

  predicate HeadLayoutFor(h: Head, version: u32)
  {
    && (h.size.Some? <==> version < NO_SIZE_VERSION)
    && NamesWellFormed(h.names)
    && DifficultyFor(h.difficulty, version)
    && RatingsFit(h.ratings)
  }

  predicate TailLayoutFor(t: Tail, version: u32)
  {
    && |t.timing.timingPoints| < TWO_32
    && t.online.stackLeniency.SingleBits?
    && ExtrasWellFormed(t.extras)
    && (t.trailer.unknown.Some? <==> version < FLOAT_DIFFICULTY_VERSION)
  }

  /** A record getBeatmap returns without failing its assert. */
  predicate WellFormedFor(b: Beatmap, version: u32)
  {
    LayoutFor(b, version) && UnknownIsZero(b)
  }

  /** The assert at main.cpp:374: the 16-bit field, when there is one, is zero. */
  predicate UnknownIsZero(b: Beatmap)
  {
    b.trailer.unknown.Some? ==> b.trailer.unknown.value == 0
  }

  // Decoders, one per group, then the record.

  /** main.cpp:206-207: the size field, read only before NO_SIZE_VERSION. */
  function SizeDec(s: seq<byte>, version: u32): (r: Result<Parsed<Option<u32>>>)
    ensures Reads(s, r, if version < NO_SIZE_VERSION then 4 else 0)
    ensures r.Ok? ==> (r.value.value.Some? <==> version < NO_SIZE_VERSION)
  {
    if version < NO_SIZE_VERSION then
      var size :- U32Dec(s);
      Ok(Parsed(Some(size.value), size.rest))
    else
      Ok(Parsed(None, s))
  }

  function NamesDec(s: seq<byte>): (r: Result<Parsed<Names>>)
    ensures r.Ok? ==> NamesWellFormed(r.value.value)
  {
    var artist :- StringDec(s);
    var artistUnicode :- StringDec(artist.rest);
    var title :- StringDec(artistUnicode.rest);
    var titleUnicode :- StringDec(title.rest);
    var creator :- StringDec(titleUnicode.rest);
    var difficulty :- StringDec(creator.rest);
    var audioName :- StringDec(difficulty.rest);
    var md5 :- StringDec(audioName.rest);
    var osuName :- StringDec(md5.rest);
    Ok(Parsed(Names(artist.value, artistUnicode.value, title.value, titleUnicode.value, creator.value,
                    difficulty.value, audioName.value, md5.value, osuName.value), osuName.rest))
  }

  function ObjectsDec(s: seq<byte>): (r: Result<Parsed<Objects>>)
    ensures Reads(s, r, 15)
  {
    var status :- U8Dec(s);
    var hitcircles :- U16Dec(status.rest);
    var sliders :- U16Dec(hitcircles.rest);
    var spinners :- U16Dec(sliders.rest);
    var lastModification :- U64Dec(spinners.rest);
    Ok(Parsed(Objects(status.value, hitcircles.value, sliders.value, spinners.value, lastModification.value),
              lastModification.rest))
  }

  /** main.cpp:231-262: four widened bytes before FLOAT_DIFFICULTY_VERSION, four floats
      from it on, so the newer layout is 12 bytes longer. */
  function DifficultyDec(s: seq<byte>, version: u32): (r: Result<Parsed<Difficulty>>)
    ensures Reads(s, r, if version < FLOAT_DIFFICULTY_VERSION then 4 else 16)
    ensures r.Ok? ==> DifficultyFor(r.value.value, version)
  {
    if version < FLOAT_DIFFICULTY_VERSION then
      var ar :- WidenedByteDec(s);
      var cs :- WidenedByteDec(ar.rest);
      var hp :- WidenedByteDec(cs.rest);
      var od :- WidenedByteDec(hp.rest);
      Ok(Parsed(Difficulty(ar.value, cs.value, hp.value, od.value), od.rest))
    else
      var ar :- SingleDec(s);
      var cs :- SingleDec(ar.rest);
      var hp :- SingleDec(cs.rest);
      var od :- SingleDec(hp.rest);
      Ok(Parsed(Difficulty(ar.value, cs.value, hp.value, od.value), od.rest))
  }

  /** The four rating lists, each read into its own sequence, always in the order standard,
      taiko, ctb, mania: 4 count bytes and 14 bytes per pair each. */
  function StarRatingsDec(s: seq<byte>): (r: Result<Parsed<StarRatings>>)
    ensures r.Ok? ==> var x := r.value.value;
                      RatingsFit(x) &&
                      |s| == 16 + PAIR_WIDTH * (|x.standard| + |x.taiko| + |x.ctb| + |x.mania|) + |r.value.rest|
  {
    var standard :- RatingListDec(s);
    var taiko :- RatingListDec(standard.rest);
    var ctb :- RatingListDec(taiko.rest);
    var mania :- RatingListDec(ctb.rest);
    Ok(Parsed(StarRatings(standard.value, taiko.value, ctb.value, mania.value), mania.rest))
  }

  function TimingDec(s: seq<byte>): (r: Result<Parsed<Timing>>)
    ensures r.Ok? ==> var n := |r.value.value.timingPoints|;
                      n < TWO_32 && |s| == 16 + TIMING_POINT_WIDTH * n + |r.value.rest|
  {
    var drainTime :- U32Dec(s);
    var totalTime :- U32Dec(drainTime.rest);
    var previewMilis :- U32Dec(totalTime.rest);
    var timingPoints :- TimingListDec(previewMilis.rest);
    Ok(Parsed(Timing(drainTime.value, totalTime.value, previewMilis.value, timingPoints.value), timingPoints.rest))
  }

  function OnlineDec(s: seq<byte>): (r: Result<Parsed<Online>>)
    ensures Reads(s, r, 23)
    ensures r.Ok? ==> r.value.value.stackLeniency.SingleBits?
  {
    var difficultyId :- U32Dec(s);
    var beatmapId :- U32Dec(difficultyId.rest);
    var threadId :- U32Dec(beatmapId.rest);
    var standardRank :- U8Dec(threadId.rest);
    var taikoRank :- U8Dec(standardRank.rest);
    var ctbRank :- U8Dec(taikoRank.rest);
    var maniaRank :- U8Dec(ctbRank.rest);
    var offset :- U16Dec(maniaRank.rest);
    var stackLeniency :- SingleDec(offset.rest);
    var mode :- U8Dec(stackLeniency.rest);
    Ok(Parsed(Online(difficultyId.value, beatmapId.value, threadId.value, standardRank.value, taikoRank.value,
                     ctbRank.value, maniaRank.value, offset.value, stackLeniency.value, mode.value), mode.rest))
  }

  function ExtrasDec(s: seq<byte>): (r: Result<Parsed<Extras>>)
    ensures r.Ok? ==> ExtrasWellFormed(r.value.value)
  {
    var source :- StringDec(s);
    var tags :- StringDec(source.rest);
    var onlineOffset :- U16Dec(tags.rest);
    var titleFont :- StringDec(onlineOffset.rest);
    var unplayed :- BoolDec(titleFont.rest);
    var lastTimePlayed :- U64Dec(unplayed.rest);
    var isOsz2 :- BoolDec(lastTimePlayed.rest);
    var folderName :- StringDec(isOsz2.rest);
    Ok(Parsed(Extras(source.value, tags.value, onlineOffset.value, titleFont.value, unplayed.value,
                     lastTimePlayed.value, isOsz2.value, folderName.value), folderName.rest))
  }

  function OverridesDec(s: seq<byte>): (r: Result<Parsed<Overrides>>)
    ensures Reads(s, r, 13)
  {
    var lastCheck :- U64Dec(s);
    var ignoreSound :- BoolDec(lastCheck.rest);
    var ignoreSkin :- BoolDec(ignoreSound.rest);
    var disableStoryboard :- BoolDec(ignoreSkin.rest);
    var disableVideo :- BoolDec(disableStoryboard.rest);
    var visualOverride :- BoolDec(disableVideo.rest);
    Ok(Parsed(Overrides(lastCheck.value, ignoreSound.value, ignoreSkin.value, disableStoryboard.value,
                        disableVideo.value, visualOverride.value), visualOverride.rest))
  }

  /** main.cpp:368-372: the 16-bit field only before FLOAT_DIFFICULTY_VERSION. */
  function TrailerDec(s: seq<byte>, version: u32): (r: Result<Parsed<Trailer>>)
    ensures Reads(s, r, if version < FLOAT_DIFFICULTY_VERSION then 7 else 5)
    ensures r.Ok? ==> (r.value.value.unknown.Some? <==> version < FLOAT_DIFFICULTY_VERSION)
  {
    var unknown :-
      if version < FLOAT_DIFFICULTY_VERSION then
        var u :- U16Dec(s);
        Ok(Parsed(Some(u.value), u.rest))
      else
        Ok(Parsed(None, s));
    var lastModifyDate :- U32Dec(unknown.rest);
    var scrollSpeed :- U8Dec(lastModifyDate.rest);
    Ok(Parsed(Trailer(unknown.value, lastModifyDate.value, scrollSpeed.value), scrollSpeed.rest))
  }

  /** main.cpp:206-313. */
  function HeadDec(s: seq<byte>, version: u32): (r: Result<Parsed<Head>>)
    ensures r.Ok? ==> HeadLayoutFor(r.value.value, version)
  {
    var size :- SizeDec(s, version);
    var names :- NamesDec(size.rest);
    var objects :- ObjectsDec(names.rest);
    var difficulty :- DifficultyDec(objects.rest, version);
    var sliderVelocity :- DoubleDec(difficulty.rest);
    var ratings :- StarRatingsDec(sliderVelocity.rest);
    Ok(Parsed(Head(size.value, names.value, objects.value, difficulty.value, sliderVelocity.value, ratings.value),
              ratings.rest))
  }

  /** main.cpp:315-372. */
  function TailDec(s: seq<byte>, version: u32): (r: Result<Parsed<Tail>>)
    ensures r.Ok? ==> TailLayoutFor(r.value.value, version)
  {
    var timing :- TimingDec(s);
    var online :- OnlineDec(timing.rest);
    var extras :- ExtrasDec(online.rest);
    var overrides :- OverridesDec(extras.rest);
    var trailer :- TrailerDec(overrides.rest, version);
    Ok(Parsed(Tail(timing.value, online.value, extras.value, overrides.value, trailer.value), trailer.rest))
  }

  /** getBeatmap. The 16-bit field is checked after the whole record is read, as the assert
      at main.cpp:374 is. */
  function BeatmapDec(s: seq<byte>, version: u32): (r: Result<Parsed<Beatmap>>)
    ensures r.Ok? ==> WellFormedFor(r.value.value, version)
  {
    var head :- HeadDec(s, version);
    var tail :- TailDec(head.rest, version);
    CheckUnknown(Join(head.value, tail.value), tail.rest)
  }

  /** The assert at main.cpp:374 as a decode step. */
  function CheckUnknown(b: Beatmap, rest: seq<byte>): (r: Result<Parsed<Beatmap>>)
    ensures r.Ok? <==> UnknownIsZero(b)
    ensures r.Ok? ==> r.value == Parsed(b, rest)
    ensures r.Fail? ==> r.error == UnknownNotZero(b.trailer.unknown.value)
  {
    if b.trailer.unknown.Some? && b.trailer.unknown.value != 0 then Fail(UnknownNotZero(b.trailer.unknown.value))
    else Ok(Parsed(b, rest))
  }

  // Encoders.

  function SizeEnc(size: Option<u32>, rest: seq<byte>): seq<byte>
  {
    if size.Some? then U32Enc(size.value, rest) else rest
  }

  function NamesEnc(n: Names, rest: seq<byte>): seq<byte>
    requires NamesWellFormed(n)
  {
    StringEnc(n.artist, StringEnc(n.artistUnicode, StringEnc(n.title, StringEnc(n.titleUnicode,
    StringEnc(n.creator, StringEnc(n.difficulty, StringEnc(n.audioName, StringEnc(n.md5,
    StringEnc(n.osuName, rest)))))))))
  }

  function ObjectsEnc(o: Objects, rest: seq<byte>): seq<byte>
  {
    U8Enc(o.status, U16Enc(o.hitcircles, U16Enc(o.sliders, U16Enc(o.spinners, U64Enc(o.lastModification, rest)))))
  }

  function DifficultyEnc(d: Difficulty, version: u32, rest: seq<byte>): seq<byte>
    requires DifficultyFor(d, version)
  {
    if version < FLOAT_DIFFICULTY_VERSION then
      WidenedByteEnc(d.ar, WidenedByteEnc(d.cs, WidenedByteEnc(d.hp, WidenedByteEnc(d.od, rest))))
    else
      SingleEnc(d.ar, SingleEnc(d.cs, SingleEnc(d.hp, SingleEnc(d.od, rest))))
  }

  function StarRatingsEnc(r: StarRatings, rest: seq<byte>): seq<byte>
    requires RatingsFit(r)
  {
    RatingListEnc(r.standard, RatingListEnc(r.taiko, RatingListEnc(r.ctb, RatingListEnc(r.mania, rest))))
  }

  function TimingEnc(t: Timing, rest: seq<byte>): seq<byte>
    requires |t.timingPoints| < TWO_32
  {
    U32Enc(t.drainTime, U32Enc(t.totalTime, U32Enc(t.previewMilis, TimingListEnc(t.timingPoints, rest))))
  }

  function OnlineEnc(o: Online, rest: seq<byte>): seq<byte>
    requires o.stackLeniency.SingleBits?
  {
    U32Enc(o.difficultyId, U32Enc(o.beatmapId, U32Enc(o.threadId, U8Enc(o.standardRank, U8Enc(o.taikoRank,
    U8Enc(o.ctbRank, U8Enc(o.maniaRank, U16Enc(o.offset, SingleEnc(o.stackLeniency, U8Enc(o.mode, rest))))))))))
  }

  function ExtrasEnc(e: Extras, rest: seq<byte>): seq<byte>
    requires ExtrasWellFormed(e)
  {
    StringEnc(e.source, StringEnc(e.tags, U16Enc(e.onlineOffset, StringEnc(e.titleFont, BoolEnc(e.unplayed,
    U64Enc(e.lastTimePlayed, BoolEnc(e.isOsz2, StringEnc(e.folderName, rest))))))))
  }

  function OverridesEnc(o: Overrides, rest: seq<byte>): seq<byte>
  {
    U64Enc(o.lastCheck, BoolEnc(o.ignoreSound, BoolEnc(o.ignoreSkin, BoolEnc(o.disableStoryboard,
    BoolEnc(o.disableVideo, BoolEnc(o.visualOverride, rest))))))
  }

  function TrailerEnc(t: Trailer, rest: seq<byte>): seq<byte>
  {
    var after := U32Enc(t.lastModifyDate, U8Enc(t.scrollSpeed, rest));
    if t.unknown.Some? then U16Enc(t.unknown.value, after) else after
  }

  function HeadEnc(h: Head, version: u32, rest: seq<byte>): seq<byte>
    requires HeadLayoutFor(h, version)
  {
    SizeEnc(h.size, NamesEnc(h.names, ObjectsEnc(h.objects, DifficultyEnc(h.difficulty, version,
    DoubleEnc(h.sliderVelocity, StarRatingsEnc(h.ratings, rest))))))
  }

  function TailEnc(t: Tail, rest: seq<byte>): seq<byte>
    requires |t.timing.timingPoints| < TWO_32 && t.online.stackLeniency.SingleBits? && ExtrasWellFormed(t.extras)
  {
    TimingEnc(t.timing, OnlineEnc(t.online, ExtrasEnc(t.extras, OverridesEnc(t.overrides, TrailerEnc(t.trailer, rest)))))
  }

  function BeatmapEnc(b: Beatmap, version: u32, rest: seq<byte>): seq<byte>
    requires LayoutFor(b, version)
  {
    HeadEnc(HeadOf(b), version, TailEnc(TailOf(b), rest))
  }

  // Widths of the encodings.

  function NamesWidth(n: Names): nat
    requires NamesWellFormed(n)
  {
    StringWidth(n.artist) + StringWidth(n.artistUnicode) + StringWidth(n.title) + StringWidth(n.titleUnicode)
    + StringWidth(n.creator) + StringWidth(n.difficulty) + StringWidth(n.audioName) + StringWidth(n.md5)
    + StringWidth(n.osuName)
  }

  function ExtrasStringsWidth(e: Extras): nat
    requires ExtrasWellFormed(e)
  {
    StringWidth(e.source) + StringWidth(e.tags) + StringWidth(e.titleFont) + StringWidth(e.folderName)
  }

  function PairCount(r: StarRatings): nat
  {
    |r.standard| + |r.taiko| + |r.ctb| + |r.mania|
  }

  /** The bytes of a record that do not depend on the version: strings, lists and the
      fields of fixed width that every version has. */
  function ContentWidth(b: Beatmap): nat
    requires NamesWellFormed(b.names) && ExtrasWellFormed(b.extras)
  {
    NamesWidth(b.names) + 15 + 8 + 16 + PAIR_WIDTH * PairCount(b.ratings)
    + 16 + TIMING_POINT_WIDTH * |b.timing.timingPoints| + 23 + 12 + ExtrasStringsWidth(b.extras) + 13 + 5
  }

  // Round trips, group by group.

  lemma SizeRoundTrip(size: Option<u32>, version: u32, rest: seq<byte>)
    requires size.Some? <==> version < NO_SIZE_VERSION
    ensures SizeDec(SizeEnc(size, rest), version) == Ok(Parsed(size, rest))
    ensures |SizeEnc(size, rest)| == (if version < NO_SIZE_VERSION then 4 else 0) + |rest|
  {
    if size.Some? {
      U32RoundTrip(size.value, rest);
    }
  }

  lemma NamesRoundTrip(n: Names, rest: seq<byte>)
    requires NamesWellFormed(n)
    ensures NamesDec(NamesEnc(n, rest)) == Ok(Parsed(n, rest))
    ensures |NamesEnc(n, rest)| == NamesWidth(n) + |rest|
  {
    var s8 := StringEnc(n.osuName, rest);
    var s7 := StringEnc(n.md5, s8);
    var s6 := StringEnc(n.audioName, s7);
    var s5 := StringEnc(n.difficulty, s6);
    var s4 := StringEnc(n.creator, s5);
    var s3 := StringEnc(n.titleUnicode, s4);
    var s2 := StringEnc(n.title, s3);
    var s1 := StringEnc(n.artistUnicode, s2);
    StringRoundTrip(n.osuName, rest);
    StringRoundTrip(n.md5, s8);
    StringRoundTrip(n.audioName, s7);
    StringRoundTrip(n.difficulty, s6);
    StringRoundTrip(n.creator, s5);
    StringRoundTrip(n.titleUnicode, s4);
    StringRoundTrip(n.title, s3);
    StringRoundTrip(n.artistUnicode, s2);
    StringRoundTrip(n.artist, s1);
  }

  lemma ObjectsRoundTrip(o: Objects, rest: seq<byte>)
    ensures ObjectsDec(ObjectsEnc(o, rest)) == Ok(Parsed(o, rest))
    ensures |ObjectsEnc(o, rest)| == 15 + |rest|
  {
    var s4 := U64Enc(o.lastModification, rest);
    var s3 := U16Enc(o.spinners, s4);
    var s2 := U16Enc(o.sliders, s3);
    var s1 := U16Enc(o.hitcircles, s2);
    U64RoundTrip(o.lastModification, rest);
    U16RoundTrip(o.spinners, s4);
    U16RoundTrip(o.sliders, s3);
    U16RoundTrip(o.hitcircles, s2);
    U8RoundTrip(o.status, s1);
  }

  lemma DifficultyRoundTrip(d: Difficulty, version: u32, rest: seq<byte>)
    requires DifficultyFor(d, version)
    ensures DifficultyDec(DifficultyEnc(d, version, rest), version) == Ok(Parsed(d, rest))
    ensures |DifficultyEnc(d, version, rest)| == (if version < FLOAT_DIFFICULTY_VERSION then 4 else 16) + |rest|
  {
    if version < FLOAT_DIFFICULTY_VERSION {
      var s3 := WidenedByteEnc(d.od, rest);
      var s2 := WidenedByteEnc(d.hp, s3);
      var s1 := WidenedByteEnc(d.cs, s2);
      WidenedByteRoundTrip(d.od, rest);
      WidenedByteRoundTrip(d.hp, s3);
      WidenedByteRoundTrip(d.cs, s2);
      WidenedByteRoundTrip(d.ar, s1);
    } else {
      var s3 := SingleEnc(d.od, rest);
      var s2 := SingleEnc(d.hp, s3);
      var s1 := SingleEnc(d.cs, s2);
      SingleRoundTrip(d.od, rest);
      SingleRoundTrip(d.hp, s3);
      SingleRoundTrip(d.cs, s2);
      SingleRoundTrip(d.ar, s1);
    }
  }

  lemma StarRatingsRoundTrip(r: StarRatings, rest: seq<byte>)
    requires RatingsFit(r)
    ensures StarRatingsDec(StarRatingsEnc(r, rest)) == Ok(Parsed(r, rest))
    ensures |StarRatingsEnc(r, rest)| == 16 + PAIR_WIDTH * PairCount(r) + |rest|
  {
    var s3 := RatingListEnc(r.mania, rest);
    var s2 := RatingListEnc(r.ctb, s3);
    var s1 := RatingListEnc(r.taiko, s2);
    RatingListRoundTrip(r.mania, rest);
    RatingListRoundTrip(r.ctb, s3);
    RatingListRoundTrip(r.taiko, s2);
    RatingListRoundTrip(r.standard, s1);
  }

  lemma TimingRoundTrip(t: Timing, rest: seq<byte>)
    requires |t.timingPoints| < TWO_32
    ensures TimingDec(TimingEnc(t, rest)) == Ok(Parsed(t, rest))
    ensures |TimingEnc(t, rest)| == 16 + TIMING_POINT_WIDTH * |t.timingPoints| + |rest|
  {
    var s3 := TimingListEnc(t.timingPoints, rest);
    var s2 := U32Enc(t.previewMilis, s3);
    var s1 := U32Enc(t.totalTime, s2);
    TimingListRoundTrip(t.timingPoints, rest);
    U32RoundTrip(t.previewMilis, s3);
    U32RoundTrip(t.totalTime, s2);
    U32RoundTrip(t.drainTime, s1);
  }

  lemma OnlineRoundTrip(o: Online, rest: seq<byte>)
    requires o.stackLeniency.SingleBits?
    ensures OnlineDec(OnlineEnc(o, rest)) == Ok(Parsed(o, rest))
    ensures |OnlineEnc(o, rest)| == 23 + |rest|
  {
    var s9 := U8Enc(o.mode, rest);
    var s8 := SingleEnc(o.stackLeniency, s9);
    var s7 := U16Enc(o.offset, s8);
    var s6 := U8Enc(o.maniaRank, s7);
    var s5 := U8Enc(o.ctbRank, s6);
    var s4 := U8Enc(o.taikoRank, s5);
    var s3 := U8Enc(o.standardRank, s4);
    var s2 := U32Enc(o.threadId, s3);
    var s1 := U32Enc(o.beatmapId, s2);
    U8RoundTrip(o.mode, rest);
    SingleRoundTrip(o.stackLeniency, s9);
    U16RoundTrip(o.offset, s8);
    U8RoundTrip(o.maniaRank, s7);
    U8RoundTrip(o.ctbRank, s6);
    U8RoundTrip(o.taikoRank, s5);
    U8RoundTrip(o.standardRank, s4);
    U32RoundTrip(o.threadId, s3);
    U32RoundTrip(o.beatmapId, s2);
    U32RoundTrip(o.difficultyId, s1);
  }

  lemma ExtrasRoundTrip(e: Extras, rest: seq<byte>)
    requires ExtrasWellFormed(e)
    ensures ExtrasDec(ExtrasEnc(e, rest)) == Ok(Parsed(e, rest))
    ensures |ExtrasEnc(e, rest)| == 12 + ExtrasStringsWidth(e) + |rest|
  {
    var s7 := StringEnc(e.folderName, rest);
    var s6 := BoolEnc(e.isOsz2, s7);
    var s5 := U64Enc(e.lastTimePlayed, s6);
    var s4 := BoolEnc(e.unplayed, s5);
    var s3 := StringEnc(e.titleFont, s4);
    var s2 := U16Enc(e.onlineOffset, s3);
    var s1 := StringEnc(e.tags, s2);
    StringRoundTrip(e.folderName, rest);
    BoolRoundTrip(e.isOsz2, s7);
    U64RoundTrip(e.lastTimePlayed, s6);
    BoolRoundTrip(e.unplayed, s5);
    StringRoundTrip(e.titleFont, s4);
    U16RoundTrip(e.onlineOffset, s3);
    StringRoundTrip(e.tags, s2);
    StringRoundTrip(e.source, s1);
  }

  lemma OverridesRoundTrip(o: Overrides, rest: seq<byte>)
    ensures OverridesDec(OverridesEnc(o, rest)) == Ok(Parsed(o, rest))
    ensures |OverridesEnc(o, rest)| == 13 + |rest|
  {
    var s5 := BoolEnc(o.visualOverride, rest);
    var s4 := BoolEnc(o.disableVideo, s5);
    var s3 := BoolEnc(o.disableStoryboard, s4);
    var s2 := BoolEnc(o.ignoreSkin, s3);
    var s1 := BoolEnc(o.ignoreSound, s2);
    BoolRoundTrip(o.visualOverride, rest);
    BoolRoundTrip(o.disableVideo, s5);
    BoolRoundTrip(o.disableStoryboard, s4);
    BoolRoundTrip(o.ignoreSkin, s3);
    BoolRoundTrip(o.ignoreSound, s2);
    U64RoundTrip(o.lastCheck, s1);
  }

  lemma TrailerRoundTrip(t: Trailer, version: u32, rest: seq<byte>)
    requires t.unknown.Some? <==> version < FLOAT_DIFFICULTY_VERSION
    ensures TrailerDec(TrailerEnc(t, rest), version) == Ok(Parsed(t, rest))
    ensures |TrailerEnc(t, rest)| == (if version < FLOAT_DIFFICULTY_VERSION then 7 else 5) + |rest|
  {
    var s1 := U8Enc(t.scrollSpeed, rest);
    var after := U32Enc(t.lastModifyDate, s1);
    U8RoundTrip(t.scrollSpeed, rest);
    U32RoundTrip(t.lastModifyDate, s1);
    if t.unknown.Some? {
      U16RoundTrip(t.unknown.value, after);
    }
  }

  /** The head takes 4 bytes for the size before NO_SIZE_VERSION, its strings, 15 bytes of
      object counts and date, 4 or 16 bytes of difficulty, 8 of slider velocity and the
      four rating lists. */
  lemma HeadRoundTrip(h: Head, version: u32, rest: seq<byte>)
    requires HeadLayoutFor(h, version)
    ensures HeadDec(HeadEnc(h, version, rest), version) == Ok(Parsed(h, rest))
    ensures |HeadEnc(h, version, rest)| ==
            |rest| + (if version < NO_SIZE_VERSION then 4 else 0) + NamesWidth(h.names) + 15
            + (if version < FLOAT_DIFFICULTY_VERSION then 4 else 16) + 8 + 16 + PAIR_WIDTH * PairCount(h.ratings)
  {
    var s4 := StarRatingsEnc(h.ratings, rest);
    var s3 := DoubleEnc(h.sliderVelocity, s4);
    var s2 := DifficultyEnc(h.difficulty, version, s3);
    var s1 := ObjectsEnc(h.objects, s2);
    var s0 := NamesEnc(h.names, s1);
    StarRatingsRoundTrip(h.ratings, rest);
    DoubleRoundTrip(h.sliderVelocity, s4);
    DifficultyRoundTrip(h.difficulty, version, s3);
    ObjectsRoundTrip(h.objects, s2);
    NamesRoundTrip(h.names, s1);
    SizeRoundTrip(h.size, version, s0);
  }

  /** The tail takes 16 bytes of times and count, 17 per timing point, 23 bytes of online
      fields, its strings with 12 fixed bytes between them, 13 bytes of overrides and 7 or
      5 bytes of trailer. */
  lemma TailRoundTrip(t: Tail, version: u32, rest: seq<byte>)
    requires TailLayoutFor(t, version)
    ensures TailDec(TailEnc(t, rest), version) == Ok(Parsed(t, rest))
    ensures |TailEnc(t, rest)| ==
            |rest| + 16 + TIMING_POINT_WIDTH * |t.timing.timingPoints| + 23 + 12 + ExtrasStringsWidth(t.extras)
            + 13 + (if version < FLOAT_DIFFICULTY_VERSION then 7 else 5)
  {
    var s3 := TrailerEnc(t.trailer, rest);
    var s2 := OverridesEnc(t.overrides, s3);
    var s1 := ExtrasEnc(t.extras, s2);
    var s0 := OnlineEnc(t.online, s1);
    TrailerRoundTrip(t.trailer, version, rest);
    OverridesRoundTrip(t.overrides, s3);
    ExtrasRoundTrip(t.extras, s2);
    OnlineRoundTrip(t.online, s1);
    TimingRoundTrip(t.timing, s0);
  }

  /** Decoding an encoded record reads every group back; the result then depends only on
      the check of the 16-bit field. */
  lemma BeatmapDecOfEnc(b: Beatmap, version: u32, rest: seq<byte>)
    requires LayoutFor(b, version)
    ensures BeatmapDec(BeatmapEnc(b, version, rest), version) == CheckUnknown(b, rest)
  {
    var tail := TailEnc(TailOf(b), rest);
    TailRoundTrip(TailOf(b), version, rest);
    HeadRoundTrip(HeadOf(b), version, tail);
    assert Join(HeadOf(b), TailOf(b)) == b;
  }

  /** The record takes ContentWidth(b) bytes, plus 4 for the size before NO_SIZE_VERSION,
      plus 4 one-byte difficulty fields and 2 bytes for the 16-bit field before
      FLOAT_DIFFICULTY_VERSION or 16 bytes of float fields from it on. */
  lemma BeatmapEncWidth(b: Beatmap, version: u32, rest: seq<byte>)
    requires LayoutFor(b, version)
    ensures |BeatmapEnc(b, version, rest)| ==
            |rest| + ContentWidth(b) + (if version < NO_SIZE_VERSION then 4 else 0)
            + (if version < FLOAT_DIFFICULTY_VERSION then 4 + 2 else 16)
  {
    var tail := TailEnc(TailOf(b), rest);
    TailRoundTrip(TailOf(b), version, rest);
    HeadRoundTrip(HeadOf(b), version, tail);
  }

  /** Every record getBeatmap can return for a version is read back from its encoding. */
  lemma BeatmapRoundTrip(b: Beatmap, version: u32, rest: seq<byte>)
    requires WellFormedFor(b, version)
    ensures BeatmapDec(BeatmapEnc(b, version, rest), version) == Ok(Parsed(b, rest))
  {
    BeatmapDecOfEnc(b, version, rest);
  }

  /** A legacy record whose 16-bit field is not zero fails the decode. */
  lemma UnknownNotZeroFails(b: Beatmap, version: u32, rest: seq<byte>)
    requires LayoutFor(b, version) && !UnknownIsZero(b)
    ensures BeatmapDec(BeatmapEnc(b, version, rest), version) == Fail(UnknownNotZero(b.trailer.unknown.value))
  {
    BeatmapDecOfEnc(b, version, rest);
  }

  // The star-rating lists as main.cpp:280-313 is written.

  /** base with its first |src| entries replaced by src. */
  function Overwrite(base: seq<IntDoublePair>, src: seq<IntDoublePair>): seq<IntDoublePair>
    requires |src| <= |base|
  {
    src + base[|src|..]
  }

  /** The standard array after the four loops as written: the taiko, ctb and mania loops
      store into standardStarRating[i], not into their own arrays. Only defined while no
      later list is longer than the standard one; a longer one writes past the allocation. */
  function StandardAsWritten(r: StarRatings): (s: seq<IntDoublePair>)
    requires |r.taiko| <= |r.standard| && |r.ctb| <= |r.standard| && |r.mania| <= |r.standard|
  {
    Overwrite(Overwrite(Overwrite(r.standard, r.taiko), r.ctb), r.mania)
  }

  /** Entry i of the standard array as written comes from the last list long enough to
      reach it. */
  lemma StandardAsWrittenAt(r: StarRatings, i: nat)
    requires |r.taiko| <= |r.standard| && |r.ctb| <= |r.standard| && |r.mania| <= |r.standard|
    requires i < |r.standard|
    ensures |StandardAsWritten(r)| == |r.standard|
    ensures StandardAsWritten(r)[i] ==
            if i < |r.mania| then r.mania[i]
            else if i < |r.ctb| then r.ctb[i]
            else if i < |r.taiko| then r.taiko[i]
            else r.standard[i]
  {
  }

  /** So a record with one standard and one different taiko rating reports the taiko rating
      as its standard one, while StarRatingsDec keeps both. */
  lemma StandardAsWrittenDiffers(standard: IntDoublePair, taiko: IntDoublePair, rest: seq<byte>)
    requires standard != taiko
    ensures var r := StarRatings([standard], [taiko], [], []);
            StandardAsWritten(r) != r.standard &&
            StarRatingsDec(StarRatingsEnc(r, rest)) == Ok(Parsed(r, rest))
  {
    var r := StarRatings([standard], [taiko], [], []);
    StandardAsWrittenAt(r, 0);
    StarRatingsRoundTrip(r, rest);
  }
}
