# osu!.db decoder, modelled in Dafny

This project models `main.cpp` of osudbViewer. That program reads the osu!.db file in
one pass with `fread`: the header (version, folder count, account-unlocked flag, unlock
date), the player name, the beatmap count, that many beatmap records and the permissions
field. Three parts of a record's layout depend on the database version read in the header:

- the 4-byte size field, present before 20191106;
- ar/cs/hp/od, which are single bytes before 20140609 and 32-bit floats from then on;
- a 16-bit field, present before 20140609, which the program asserts is zero.

The model has two layers:

- **Decoders** (`Fixed`, `Uleb128`, `DbStrings`, `Lists`, `Repetition`, `Beatmaps`,
  `Permissions`, `OsuDb`). Each is a pure function over the bytes that remain. It returns
  the decoded value and the bytes after it, or an `Error`. Each decoder has an encoder. The
  lemmas prove the round trips, the widths of the fields and the version-dependent layout.
- **`Reader.Cursor`**. This is the program as it runs: a class holding the file bytes and a
  position that every read advances, as `fread` advances the `FILE*`. Each method of the
  cursor mirrors one function, one block of reads or one pass of a loop of `main.cpp`, as
  the table says. It is proved to return what the matching
  decoder returns and to leave the position where that decoder's remainder begins:
  `Track(r, Remaining()) == XDec(old(Remaining()))`. Every method also promises that the
  position never moves back (`old(pos) <= pos`), on failure as well. The varint loop, the pair, timing-point
  and beatmap loops are `while` loops over arrays, with invariants.

Failures are explicit. A read past the end of the file is `Truncated`. A wrong framing byte
in a star-rating pair is `BadMarker`. A fifth ULEB128 group that still carries the
continuation bit is `VarintTooLong`. A non-zero 16-bit legacy field is `UnknownNotZero`.
The program itself ignores `fread`'s return value. A read at the end of the file leaves its
destination as it was, and a read that finds only part of a field stores the bytes it got and
leaves the rest of the field indeterminate (see "## Left out" for what that means, field by
field). The program aborts on a failed `assert`. Here both cases are decode failures.

The database version is not a global variable here. The version the header yields is passed
to each record decoder as a parameter. The size field is read for versions below 20191106,
as the test at main.cpp:206 does. The comment on the size field at main.cpp:142 names
20140609; the model follows the code.

## Model

| member | source | states |
|---|---|---|
| Fixed.LittleEndianRoundTrip | main.cpp:56-61 | the little-endian bytes of a number below 256^width are read back as that number |
| Fixed.LittleEndianInjective | main.cpp:56-61 | width bytes are determined by their little-endian value: re-encoding the value gives the same bytes |
| Fixed.FixedDec | main.cpp:56-85 | a fixed-width fread fails exactly when fewer than width bytes remain, leaves the bytes after them and yields a value below 256^width |
| Fixed.FixedRoundTrip | main.cpp:56-85 | a fixed-width field is read back from its encoding and takes exactly width bytes |
| Fixed.U8Dec | main.cpp:105-107 | one byte is read: fails only on empty input, and the value is that byte |
| Fixed.U16Dec | main.cpp:225-227 | a dbShort takes two bytes, fails only when fewer remain, and is their little-endian value |
| Fixed.U32Dec | main.cpp:65-70 | a dbInt takes four bytes, fails only when fewer remain, and is their little-endian value |
| Fixed.U64Dec | main.cpp:81-86 | a dbDateTime takes eight bytes, fails only when fewer remain, and is their little-endian value |
| Fixed.DoubleDec | main.cpp:264 | a dbDouble takes eight bytes, fails only when fewer remain, and is the double whose bit pattern is their little-endian value |
| Fixed.I32Dec | main.cpp:409-410 | the int32 read is the four bytes' pattern: congruent to their little-endian value modulo 2^32 |
| Fixed.BoolDec | main.cpp:73-77 | a bool takes one byte and is true exactly when the byte is non-zero |
| Fixed.WidenedByteDec | main.cpp:231-246 | a legacy difficulty field takes one byte and is that byte widened to dbSingle |
| Fixed.SingleDec | main.cpp:247-262 | a dbSingle takes four bytes, fails only when fewer remain, and is the float whose bit pattern is their little-endian value |
| Fixed.I32RoundTrip | main.cpp:409-410 | every int32 is read back from its two's-complement encoding |
| Fixed.BoolRoundTrip | main.cpp:73-77 | both bool values are read back from their byte |
| Uleb128.UlebDecodesLowGroups | main.cpp:39-52 | on a run of groups ending at the first byte below 0x80 (at most five), getULEB128 yields the OR of each group's low seven bits at shift 7k, truncated to 32 bits, and stops after that byte |
| Uleb128.GroupsDecodeRun | main.cpp:41-50 | a terminated run of groups in front of any bytes is read as the number its groups denote, least significant first, and leaves exactly those bytes |
| Uleb128.UlebOkIsTerminated | main.cpp:39-52 | conversely, every successful read consumed such a terminated run of at most five groups and yields its value |
| Uleb128.UlebTooLong | main.cpp:39-52 | five bytes that all carry the continuation bit are rejected |
| Uleb128.GroupsTruncated | main.cpp:39-52 | input that ends before the terminating group is a truncation failure |
| Uleb128.UlebRoundTrip | main.cpp:39-52 | the canonical encoding of every 32-bit number takes one to five bytes and is read back as that number |
| Uleb128.UlebDec | main.cpp:39-52 | getULEB128 only consumes bytes from the front of what remains, and a successful read takes at least one byte |
| Uleb128.GroupsDec | main.cpp:41-50 | the loop only consumes bytes from the front, at least one byte per successful read |
| DbStrings.StringDec | main.cpp:105-128 | getString: the marker is kept; the string is present exactly when the marker is 0x0b; any other marker consumes one byte; empty input fails |
| DbStrings.PresentString | main.cpp:110-120 | after marker 0x0b and a length L taking w groups, the text is exactly the L bytes after them and 1 + w + L bytes are consumed |
| DbStrings.ShortTextFails | main.cpp:115-118 | a present string whose text is cut short fails; it is not a shorter string |
| DbStrings.StringRoundTrip | main.cpp:105-128 | every string getString can produce is read back from its encoding: an absent one from its one marker byte, a present one from 1 + width(L) + L bytes |
| Repetition.Repeat | main.cpp:270-276 | the count loops (this one, and those at main.cpp:322-334 and 378-384): n elements decoded one after another, each from what the previous one left; an Ok result has exactly n elements, and the first failure ends the list (RepeatSnoc and RepeatFailAt give the step and the exit) |
| Repetition.RepeatSnoc | main.cpp:270-276 | one loop step: if i elements decode and one more decodes after them, then i + 1 elements decode, in order |
| Repetition.RepeatFailAt | main.cpp:270-276 | loop exit: if the element after the first i fails, the whole list fails with that element's error |
| Repetition.RepeatAdvances | main.cpp:270-276 | n elements of exactly w bytes each take w * n bytes |
| Repetition.RepeatReads | main.cpp:324-334 | n elements that fail only on short input fail only when fewer than w * n bytes remain |
| Repetition.RepeatAll | main.cpp:378-384 | a property of every element the decoder yields holds for every element of the list |
| Lists.PairDec | main.cpp:270-276 | one Int-Double pair: 14 bytes framed by 0x08 and 0x0d; each wrong framing byte is a failure that names the expected and the found byte |
| Lists.PairsDec | main.cpp:270-276 | n pairs take exactly 14 * n bytes |
| Lists.RatingListDec | main.cpp:268-276 | a rating list has as many pairs as its 4-byte little-endian count says, takes 4 + 14 * count bytes, and its count fits 32 bits |
| Lists.EmptyRatingList | main.cpp:268-270 | a zero count is an empty list that consumes only the count's four bytes |
| Lists.RatingListRoundTrip | main.cpp:268-276 | each rating list is read back as exactly its pairs, in order, from 4 + 14 * count bytes |
| Lists.CorruptPairsFail | main.cpp:270-276 | corrupting either framing byte of any pair makes the list fail; the pair is never skipped |
| Lists.CorruptRatingListFails | main.cpp:268-276 | the same for a whole rating list, at offset 4 + 14k (or 5 past it) |
| Lists.TimingPointDec | main.cpp:324-334 | a timing point is 17 bytes and fails only on short input |
| Lists.TimingPointsDec | main.cpp:324-334 | n timing points take exactly 17 * n bytes and fail only on short input |
| Lists.TimingListDec | main.cpp:319-335 | a timing list has as many points as its 4-byte little-endian count says, the count and the points take 4 + 17 * count bytes, and the count fits 32 bits |
| Lists.TimingListRoundTrip | main.cpp:321-335 | the timing points are read back as exactly the list, in order, from 4 + 17 * count bytes |
| Beatmaps.SizeDec | main.cpp:206-207 | the size field is present, and 4 bytes are read, exactly when the version is below 20191106 |
| Beatmaps.DifficultyDec | main.cpp:231-262 | four widened bytes (4 bytes) below 20140609, four float bit patterns (16 bytes) from it on |
| Beatmaps.TrailerDec | main.cpp:368-372 | the 16-bit field is present exactly below 20140609, so the trailer is 7 or 5 bytes |
| Beatmaps.StarRatingsDec | main.cpp:266-313 | the four lists take 16 + 14 * (total pairs) bytes and every count fits 32 bits |
| Beatmaps.TimingDec | main.cpp:315-335 | the times and the timing list take 16 + 17 * count bytes |
| Beatmaps.OnlineDec | main.cpp:337-346 | the online fields take exactly 23 bytes, with the stack leniency as float bits |
| Beatmaps.ObjectsDec | main.cpp:223-229 | status, object counts and date take exactly 15 bytes |
| Beatmaps.OverridesDec | main.cpp:361-366 | the override date and flags take exactly 13 bytes |
| Beatmaps.NamesDec | main.cpp:209-221 | the nine strings decode to strings getString can produce |
| Beatmaps.ExtrasDec | main.cpp:348-359 | the four strings of the block decode to strings getString can produce |
| Beatmaps.CheckUnknown | main.cpp:374 | the record is accepted exactly when the 16-bit field is absent or zero; otherwise it fails with that value |
| Beatmaps.HeadDec | main.cpp:203-313 | a decoded first part of a record has its version's layout: the size exactly below 20191106, nine well-formed strings, the difficulty as widened bytes below 20140609 and as float bits from it on, and rating lists whose lengths fit their counts |
| Beatmaps.TailDec | main.cpp:315-372 | a decoded second part has its version's layout: a timing list that fits its count, the stack leniency as float bits, four well-formed strings, and the 16-bit field exactly below 20140609 |
| Beatmaps.BeatmapDec | main.cpp:203-376 | every record getBeatmap returns has the layout of its version and passes the assert |
| Beatmaps.SizeRoundTrip | main.cpp:206-207 | the size field is read back for either version range |
| Beatmaps.NamesRoundTrip | main.cpp:209-221 | the nine strings are read back in order |
| Beatmaps.ObjectsRoundTrip | main.cpp:223-229 | status, counts and date are read back from 15 bytes |
| Beatmaps.DifficultyRoundTrip | main.cpp:231-262 | ar/cs/hp/od are read back in the representation of the version |
| Beatmaps.StarRatingsRoundTrip | main.cpp:266-313 | the four rating lists are read back into their own lists, each exactly as written |
| Beatmaps.TimingRoundTrip | main.cpp:315-335 | drain time, total time, preview time and the timing points are read back |
| Beatmaps.OnlineRoundTrip | main.cpp:337-346 | the online fields are read back from 23 bytes |
| Beatmaps.ExtrasRoundTrip | main.cpp:348-359 | source, tags, offset, font, flags, date and folder name are read back |
| Beatmaps.OverridesRoundTrip | main.cpp:361-366 | the override date and flags are read back from 13 bytes |
| Beatmaps.TrailerRoundTrip | main.cpp:368-372 | the trailer is read back, with the 16-bit field exactly when the version has it |
| Beatmaps.HeadRoundTrip | main.cpp:206-313 | the record up to the rating lists is read back; its width adds 4 for the size below 20191106 and 4 or 16 bytes of difficulty |
| Beatmaps.TailRoundTrip | main.cpp:315-372 | the rest of the record is read back; its width has 7 or 5 trailer bytes depending on the version |
| Beatmaps.BeatmapDecOfEnc | main.cpp:203-376 | decoding an encoded record reads every field back, so the result depends only on the assert at main.cpp:374 |
| Beatmaps.BeatmapEncWidth | main.cpp:203-376 | a record takes its content bytes, plus 4 below 20191106, plus 6 below 20140609 or 16 from it on |
| Beatmaps.BeatmapRoundTrip | main.cpp:203-376 | every record getBeatmap can return for a version is read back from its encoding |
| Beatmaps.UnknownNotZeroFails | main.cpp:368-374 | a legacy record whose 16-bit field is not zero fails the decode with that value |
| Beatmaps.StandardAsWrittenAt | main.cpp:280-313 | as written, entry i of the standard array ends up holding the entry from the last of taiko, ctb and mania that is long enough to reach i |
| Beatmaps.StandardAsWrittenDiffers | main.cpp:280-313 | as written, one standard and one different taiko rating are reported as the taiko rating, although both are in the file |
| Permissions.HasFlag | main.cpp:413-425 | `raw & mask` is non-zero exactly when the lowest bit of raw / mask is set, that is, the mask's bit of raw |
| Permissions.HasFlagIsBit | main.cpp:390-395 | testing against the mask 1 << i is testing bit i of the two's-complement value |
| Permissions.PermissionsOf | main.cpp:413-425 | each flag is set exactly when the raw value has its bit, 0 to 5, and the raw value is kept |
| Permissions.HighBitsIgnored | main.cpp:413-425 | bits 6 and above change no flag |
| Permissions.PermissionsDec | main.cpp:407-428 | getPermissions reads four bytes; the flags agree with the raw value, which is the bytes' pattern modulo 2^32 |
| Permissions.PermissionsRoundTrip | main.cpp:407-428 | permissions are read back from the encoding of their raw value |
| OsuDb.HeaderDec | main.cpp:56-85 | the header takes 17 bytes and the version is the first four bytes' little-endian value |
| OsuDb.HeaderRoundTrip | main.cpp:56-85 | the four header fields are read back from 17 bytes |
| OsuDb.BeatmapsDec | main.cpp:378-384 | getBeatmaps yields exactly count records, each with the layout of the version and passing the assert |
| OsuDb.BeatmapsRoundTrip | main.cpp:378-384 | a list of records for a version is read back in order |
| OsuDb.DatabaseDec | main.cpp:432-446 | main's read order yields a well-formed database whose version is the file's first four bytes |
| OsuDb.DatabaseRoundTrip | main.cpp:432-446 | every database main can read is read back from its encoding, whatever follows it |
| Reader.Cursor.ReadFixed | main.cpp:56-61 | an fread of width bytes returns their little-endian value and advances by width, or fails on short input, as FixedDec |
| Reader.Cursor.ReadU8 | main.cpp:106-107 | a one-byte fread, as U8Dec |
| Reader.Cursor.ReadU16 | main.cpp:225-227 | a dbShort fread, as U16Dec |
| Reader.Cursor.ReadU32 | main.cpp:65-70 | a dbInt fread, as U32Dec |
| Reader.Cursor.ReadU64 | main.cpp:81-86 | a dbDateTime fread, as U64Dec |
| Reader.Cursor.ReadI32 | main.cpp:408-409 | the int32_t fread of getPermissions, as I32Dec |
| Reader.Cursor.ReadBool | main.cpp:73-78 | a bool fread, as BoolDec |
| Reader.Cursor.ReadSingle | main.cpp:247-262 | a dbSingle fread, as SingleDec |
| Reader.Cursor.ReadWidenedByte | main.cpp:231-246 | a legacy byte read and converted to dbSingle, as WidenedByteDec |
| Reader.Cursor.ReadDouble | main.cpp:264 | a dbDouble fread, as DoubleDec |
| Reader.Cursor.ReadULEB128 | main.cpp:39-52 | the shift-and-OR loop returns what UlebDec computes and stops after the terminating byte |
| Reader.Cursor.ReadGroup | main.cpp:43-49 | one pass of that loop: reads group k, ORs `(b & 0x7f) << 7k` into the 32-bit result; the number is complete when the high bit is clear, a fifth continuation or a missing byte ends the read with UlebDec's error, and otherwise the loop state still describes UlebDec's value |
| Reader.Cursor.ReadBytes | main.cpp:117-118 | reading n bytes returns exactly the next n bytes, or fails when fewer remain |
| Reader.Cursor.ReadString | main.cpp:105-128 | getString as it runs agrees with StringDec, value, error and position |
| Reader.Cursor.ReadPair | main.cpp:271-275 | one iteration of a rating loop agrees with PairDec, framing failures included |
| Reader.Cursor.ReadPairsLoop | main.cpp:269-276 | the pair loop fills its buffer of count entries with exactly the pairs that count repetitions of the pair decoder yield, in order, or stops with the first failing pair's error |
| Reader.Cursor.ReadPairs | main.cpp:269-276 | that loop over PairDec, as PairsDec |
| Reader.Cursor.ReadRatingList | main.cpp:268-276 | count then pairs, as RatingListDec |
| Reader.Cursor.ReadTimingPoint | main.cpp:325-333 | one timing point, as TimingPointDec |
| Reader.Cursor.ReadTimingPointsLoop | main.cpp:322-334 | the timing-point loop fills its buffer of count entries with exactly the points that count repetitions of the point decoder yield, in order, or stops on short input |
| Reader.Cursor.ReadTimingPoints | main.cpp:322-334 | that loop over TimingPointDec, as TimingPointsDec |
| Reader.Cursor.ReadTimingList | main.cpp:321-335 | count then points, as TimingListDec |
| Reader.Cursor.ReadSize | main.cpp:206-207 | reads the size field only below 20191106, as SizeDec |
| Reader.Cursor.ReadNames | main.cpp:209-221 | the nine getString calls, as NamesDec |
| Reader.Cursor.ReadObjects | main.cpp:223-229 | as ObjectsDec |
| Reader.Cursor.ReadDifficulty | main.cpp:231-262 | the version branch of ar/cs/hp/od, as DifficultyDec |
| Reader.Cursor.ReadStarRatings | main.cpp:266-313 | the four rating loops, each into its own list, as StarRatingsDec |
| Reader.Cursor.ReadTiming | main.cpp:315-335 | as TimingDec |
| Reader.Cursor.ReadOnline | main.cpp:337-346 | as OnlineDec |
| Reader.Cursor.ReadExtras | main.cpp:348-359 | as ExtrasDec |
| Reader.Cursor.ReadOverrides | main.cpp:361-366 | as OverridesDec |
| Reader.Cursor.ReadTrailer | main.cpp:368-372 | reads the 16-bit field only below 20140609, as TrailerDec |
| Reader.Cursor.ReadHead | main.cpp:206-313 | as HeadDec |
| Reader.Cursor.ReadTail | main.cpp:315-372 | as TailDec |
| Reader.Cursor.ReadBeatmap | main.cpp:203-376 | getBeatmap with its closing assert, as BeatmapDec |
| Reader.Cursor.ReadNextBeatmap | main.cpp:380-382 | one iteration of getBeatmaps: if i records decoded, either i + 1 records decode with the new one last, or the whole list of count records fails with its error |
| Reader.Cursor.ReadBeatmapsLoop | main.cpp:378-384 | the record loop fills its buffer of count entries with exactly the records that count repetitions of the record decoder yield, or stops with the first record's failure |
| Reader.Cursor.ReadBeatmaps | main.cpp:378-384 | that loop over the record decoder for the file's version, as BeatmapsDec |
| Reader.Cursor.ReadPermissions | main.cpp:407-428 | the int32 read and the six mask tests, as PermissionsDec |
| Reader.Cursor.ReadHeader | main.cpp:56-85 | getdbVer, getFolderCount, getAccountUnlocked and getUnlockDate, as HeaderDec |
| Reader.Cursor.ReadDatabase | main.cpp:432-446 | main's sequence of reads, as DatabaseDec |
| Reader.Decode | main.cpp:432-446 | on the file's bytes, main succeeds exactly when DatabaseDec does, returns that database, which is well formed, or that error |

## Left out

- File I/O: `fopen` and `fclose` are left out, and the file is the byte sequence the cursor is built on. Bytes after the permissions field are left unread, as the program leaves them.
- `fread`'s return value: the program ignores it. A read at the end of the file leaves the destination unchanged. A read that finds only some of a field's bytes stores those bytes and leaves the field's value indeterminate (section 7.21.8.1 of the C standard); with glibc the low bytes are the ones read, so a 2-byte file gives `dbVer` (main.cpp:57-61) just those two bytes. Here a read past the end is a `Truncated` failure, which the decoder returns and the cursor stops on. What the program goes on with differs by destination, and none of it is modelled:
  - at the end of the file, fields and locals initialised to zero keep zero: the header fields (main.cpp:57-82), the string marker (main.cpp:106), the varint byte (main.cpp:43), the record's fields (main.cpp:204), the legacy difficulty bytes (main.cpp:232-244), the timing-point count (main.cpp:319) and the permissions (main.cpp:408); a zero varint byte ends the number;
  - the timing-point locals `bpm`, `offset` and `inherited` (main.cpp:325-331) are not initialised, so they keep indeterminate values;
  - the pair arrays from `malloc` (main.cpp:269, 281, 293, 305) and the text buffer from `new char[length + 1]` (main.cpp:118-119) are not zeroed, so a short read leaves indeterminate bytes in them;
  - the framing byte `flag` (main.cpp:266) is shared by all the rating loops, so a short read at main.cpp:271 or 274 keeps the previous marker, and the `assert` after it aborts the program instead of letting it go on.
- The `assert`s at main.cpp:272, 275 and 374 (and their copies in the other rating loops): the program aborts; here they are `BadMarker` and `UnknownNotZero` failures.
- Floating point: dbSingle and dbDouble are kept as their bit patterns, and the `(dbSingle)` conversion of a legacy difficulty byte is the uninterpreted constructor `WidenedByte`. No float arithmetic is modelled.
- Memory: `malloc` and `new char[length + 1]`, the NUL terminator written after the text, and the overflow of `length + 1` when the length is 2^32 - 1 are left out. Buffers are Dafny arrays and sequences.
- Uleb128.UlebDec: a fifth group with the continuation bit set is a `VarintTooLong` failure. The program would go on shifting by 35 and more, which is undefined for its 32-bit operand. The bits the fifth group shifts past bit 31 (an overflow of the promoted signed `int`) are taken modulo 2^32.
- Host byte order: every field is decoded little-endian, as `fread` into an integer does on a little-endian host.
- The global `dbVer` is not modelled as a global: the version from the header is passed to every record decoder and reader.
- The date fields (unlock date, last modification, last played, last check) are kept as raw 64-bit tick counts; their calendar meaning is left out.
- A bool field keeps only whether its byte is non-zero, not the raw byte.
- The rating lists: the model reads taiko, ctb and mania into their own lists, as evidently intended (see Findings). The as-written overwrite of the standard array is modelled only while no later list is longer than the standard one; a longer list writes past the standard allocation, which has no defined result.
- Printing and viewing the decoded data are not part of this model.

## Findings

| source | as written | input that shows it | evidently intended | confidence | as-written member | corrected member |
|---|---|---|---|---|---|---|
| main.cpp:280-313 | the taiko, ctb and mania loops store each pair into `standardStarRating[i]`, so those three lists stay unfilled and the standard list is overwritten | a record with one standard pair and one different taiko pair: the standard list then holds the taiko pair | each loop stores into its own list (`taikoStarRating`, `ctbStarRating`, `maniaStarRating`) | high; not executed | Beatmaps.StandardAsWrittenDiffers | Beatmaps.StarRatingsRoundTrip |
