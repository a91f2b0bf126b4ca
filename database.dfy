/** The whole osu!.db file as main() reads it (main.cpp:430-446): the header fields, the
    player name, the beatmap count, that many beatmap records laid out for the header's
    version, and the permissions. */
module OsuDb {
  import opened Types
  import opened Fixed
  import opened DbStrings
  import opened Beatmaps
  import opened Permissions
  import opened Repetition

  /** getdbVer, getFolderCount, getAccountUnlocked and getUnlockDate (main.cpp:56-85). */
  datatype Header = Header(version: u32, folderCount: u32, accountUnlocked: bool, unlockDate: u64)

  datatype Database = Database(header: Header, playerName: DbString, beatmaps: seq<Beatmap>, permissions: Permissions)

  /** What a successful decode produces: every record laid out for the header's version,
      a count that fits its four bytes, and flags that agree with the raw permissions. */
  predicate DatabaseWellFormed(d: Database)
  {
    && WellFormed(d.playerName)
    && |d.beatmaps| < TWO_32
    && (forall i | 0 <= i < |d.beatmaps| :: WellFormedFor(d.beatmaps[i], d.header.version))
    && d.permissions == PermissionsOf(d.permissions.raw)
  }

  function HeaderDec(s: seq<byte>): (r: Result<Parsed<Header>>)
    ensures Reads(s, r, 17)
    ensures r.Ok? ==> r.value.value.version == LittleEndian(s[..4])
  {
    var version :- U32Dec(s);
    var folderCount :- U32Dec(version.rest);
    var accountUnlocked :- BoolDec(folderCount.rest);
    var unlockDate :- U64Dec(accountUnlocked.rest);
    Ok(Parsed(Header(version.value, folderCount.value, accountUnlocked.value, unlockDate.value), unlockDate.rest))
  }

  /** getBeatmap for one database version, as an element decoder. */
  function BeatmapDecoder(version: u32): seq<byte> -> Result<Parsed<Beatmap>>
  {
    s => BeatmapDec(s, version)
  }

  /** getBeatmaps: n records in a row, each laid out for version. */
  function BeatmapsDec(s: seq<byte>, version: u32, n: nat): (r: Result<Parsed<seq<Beatmap>>>)
    ensures r.Ok? ==> |r.value.value| == n
    ensures r.Ok? ==> forall i | 0 <= i < n :: WellFormedFor(r.value.value[i], version)
  {
    RepeatAll(BeatmapDecoder(version), b => WellFormedFor(b, version), s, n);
    Repeat(BeatmapDecoder(version), s, n)
  }

  /** main(): the fields in file order. Bytes after the permissions are left unread. */
  function DatabaseDec(s: seq<byte>): (r: Result<Parsed<Database>>)
    ensures r.Ok? ==> DatabaseWellFormed(r.value.value)
    ensures r.Ok? ==> 4 <= |s| && r.value.value.header.version == LittleEndian(s[..4])
  {
    var header :- HeaderDec(s);
    var playerName :- StringDec(header.rest);
    var count :- U32Dec(playerName.rest);
    var beatmaps :- BeatmapsDec(count.rest, header.value.version, count.value);
    var permissions :- PermissionsDec(beatmaps.rest);
    Ok(Parsed(Database(header.value, playerName.value, beatmaps.value, permissions.value), permissions.rest))
  }

  function HeaderEnc(h: Header, rest: seq<byte>): seq<byte>
  {
    U32Enc(h.version, U32Enc(h.folderCount, BoolEnc(h.accountUnlocked, U64Enc(h.unlockDate, rest))))
  }

  function BeatmapsEnc(bs: seq<Beatmap>, version: u32, rest: seq<byte>): seq<byte>
    requires forall i | 0 <= i < |bs| :: LayoutFor(bs[i], version)
    decreases |bs|
  {
    if bs == [] then rest else BeatmapEnc(bs[0], version, BeatmapsEnc(bs[1..], version, rest))
  }

  function DatabaseEnc(d: Database, rest: seq<byte>): seq<byte>
    requires DatabaseWellFormed(d)
  {
    HeaderEnc(d.header, StringEnc(d.playerName, U32Enc(|d.beatmaps|,
      BeatmapsEnc(d.beatmaps, d.header.version, PermissionsEnc(d.permissions, rest)))))
  }

  lemma HeaderRoundTrip(h: Header, rest: seq<byte>)
    ensures HeaderDec(HeaderEnc(h, rest)) == Ok(Parsed(h, rest))
    ensures |HeaderEnc(h, rest)| == 17 + |rest|
  {
    var s3 := U64Enc(h.unlockDate, rest);
    var s2 := BoolEnc(h.accountUnlocked, s3);
    var s1 := U32Enc(h.folderCount, s2);
    U64RoundTrip(h.unlockDate, rest);
    BoolRoundTrip(h.accountUnlocked, s3);
    U32RoundTrip(h.folderCount, s2);
    U32RoundTrip(h.version, s1);
  }

  lemma BeatmapsRoundTrip(bs: seq<Beatmap>, version: u32, rest: seq<byte>)
    requires forall i | 0 <= i < |bs| :: LayoutFor(bs[i], version)
    requires forall i | 0 <= i < |bs| :: UnknownIsZero(bs[i])
    ensures BeatmapsDec(BeatmapsEnc(bs, version, rest), version, |bs|) == Ok(Parsed(bs, rest))
  {
    RecordsRoundTrip(BeatmapDecoder(version), bs, version, rest);
  }

  /** The induction behind BeatmapsRoundTrip, over a decoder that is BeatmapDec for this
      version. */
  lemma {:induction false} RecordsRoundTrip(dec: seq<byte> -> Result<Parsed<Beatmap>>, bs: seq<Beatmap>,
                                            version: u32, rest: seq<byte>)
    requires forall s {:trigger BeatmapDec(s, version)} :: dec(s) == BeatmapDec(s, version)
    requires forall i | 0 <= i < |bs| :: LayoutFor(bs[i], version)
    requires forall i | 0 <= i < |bs| :: UnknownIsZero(bs[i])
    ensures Repeat(dec, BeatmapsEnc(bs, version, rest), |bs|) == Ok(Parsed(bs, rest))
    decreases |bs|
  {
    if bs != [] {
      var tail := BeatmapsEnc(bs[1..], version, rest);
      RecordsRoundTrip(dec, bs[1..], version, rest);
      BeatmapDecodes(dec, bs[0], version, tail);
      HeadAndTail(bs);
      RepeatCons(dec, BeatmapsEnc(bs, version, rest), |bs|, bs[0], tail, bs[1..], rest);
    }
  }

  /** BeatmapRoundTrip, seen through a decoder that is BeatmapDec for this version. */
  lemma BeatmapDecodes(dec: seq<byte> -> Result<Parsed<Beatmap>>, b: Beatmap, version: u32, rest: seq<byte>)
    requires forall s {:trigger BeatmapDec(s, version)} :: dec(s) == BeatmapDec(s, version)
    requires LayoutFor(b, version) && UnknownIsZero(b)
    ensures dec(BeatmapEnc(b, version, rest)) == Ok(Parsed(b, rest))
  {
    BeatmapRoundTrip(b, version, rest);
  }

  lemma HeadAndTail<T>(xs: seq<T>)
    requires xs != []
    ensures [xs[0]] + xs[1..] == xs
  {
  }

  /** Every database main() can read is read back from its encoding, whatever follows it. */
  lemma DatabaseRoundTrip(d: Database, rest: seq<byte>)
    requires DatabaseWellFormed(d)
    ensures DatabaseDec(DatabaseEnc(d, rest)) == Ok(Parsed(d, rest))
  {
    var s4 := PermissionsEnc(d.permissions, rest);
    var s3 := BeatmapsEnc(d.beatmaps, d.header.version, s4);
    var s2 := U32Enc(|d.beatmaps|, s3);
    var s1 := StringEnc(d.playerName, s2);
    PermissionsRoundTrip(d.permissions, rest);
    assert forall i | 0 <= i < |d.beatmaps| :: LayoutFor(d.beatmaps[i], d.header.version);
    assert forall i | 0 <= i < |d.beatmaps| :: UnknownIsZero(d.beatmaps[i]);
    BeatmapsRoundTrip(d.beatmaps, d.header.version, s4);
    U32RoundTrip(|d.beatmaps|, s3);
    StringRoundTrip(d.playerName, s2);
    HeaderRoundTrip(d.header, s1);
  }
}
