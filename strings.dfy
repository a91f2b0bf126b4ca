/** The presence-flagged string of the format (dbString, main.cpp:88-128): a marker byte;
    when it is 0x0b, a ULEB128 byte length and that many bytes of UTF-8 text follow. */
module DbStrings {
  import opened Types
  import opened Uleb128

  const PRESENT: byte := 0x0b

  /** isPresent, the marker byte as read, the length read, and the text bytes. An absent
      string keeps its marker and has length 0 and no text, as the zero-initialised
      struct of the source does. */
  datatype DbString = DbString(isPresent: bool, rawIsPresent: byte, length: u32, text: seq<byte>)

  /** The shapes getString can produce. */
  predicate WellFormed(d: DbString)
  {
    if d.isPresent then d.rawIsPresent == PRESENT && d.length == |d.text|
    else d.rawIsPresent != PRESENT && d.length == 0 && d.text == []
  }

  /** getString. Any marker other than 0x0b means absent; the marker is kept. */
  function StringDec(s: seq<byte>): (r: Result<Parsed<DbString>>)
    ensures Consumes(s, r)
    ensures r.Ok? ==> |s| > 0 && WellFormed(r.value.value) && r.value.value.rawIsPresent == s[0]
    ensures r.Ok? ==> (r.value.value.isPresent <==> s[0] == PRESENT)
    ensures |s| > 0 && s[0] != PRESENT ==> r.Ok? && r.value.rest == s[1..]
    ensures |s| == 0 ==> r == Fail(Truncated)
  {
    if |s| == 0 then Fail(Truncated)
    else if s[0] == PRESENT then
      var len :- UlebDec(s[1..]);
      if |len.rest| < len.value then Fail(Truncated)
      else Ok(Parsed(DbString(true, PRESENT, len.value, len.rest[..len.value]), len.rest[len.value..]))
    else Ok(Parsed(DbString(false, s[0], 0, []), s[1..]))
  }

  /** A present string whose length L takes w ULEB128 groups yields exactly the L bytes
      after them, and consumes 1 + w + L bytes. */
  lemma PresentString(s: seq<byte>, w: nat)
    requires |s| > 0 && s[0] == PRESENT
    requires w <= MAX_GROUPS && Terminated(s[1..], w)
    requires 1 + w + LowGroups(s[1..1 + w]) % TWO_32 <= |s|
    ensures var n := LowGroups(s[1..1 + w]) % TWO_32;
            StringDec(s) == Ok(Parsed(DbString(true, PRESENT, n, s[1 + w..1 + w + n]), s[1 + w + n..]))
  {
    var n := LowGroups(s[1..1 + w]) % TWO_32;
    assert s[1..][..w] == s[1..1 + w];
    UlebDecodesLowGroups(s[1..], w);
    assert s[1..][w..] == s[1 + w..];
    assert s[1 + w..][..n] == s[1 + w..1 + w + n];
  }

  /** A present string whose text is cut short is a failure, not a shorter string. */
  lemma ShortTextFails(s: seq<byte>)
    requires |s| > 0 && s[0] == PRESENT && UlebDec(s[1..]).Ok?
    requires |UlebDec(s[1..]).value.rest| < UlebDec(s[1..]).value.value
    ensures StringDec(s) == Fail(Truncated)
  {
  }

  /** The bytes a well-formed string takes with the canonical length encoding. */
  function StringWidth(d: DbString): nat
    requires WellFormed(d)
  {
    if d.isPresent then 1 + UlebWidth(d.length) + d.length else 1
  }

  function StringEnc(d: DbString, rest: seq<byte>): seq<byte>
    requires WellFormed(d)
  {
    if d.isPresent then [PRESENT] + UlebEnc(d.length, d.text + rest) else [d.rawIsPresent] + rest
  }

  /** Every string getString can produce is read back from its encoding: an absent one from
      its single marker byte, a present one from 1 + width(L) + L bytes. */
  lemma StringRoundTrip(d: DbString, rest: seq<byte>)
    requires WellFormed(d)
    ensures StringDec(StringEnc(d, rest)) == Ok(Parsed(d, rest))
    ensures |StringEnc(d, rest)| == StringWidth(d) + |rest|
  {
    var s := StringEnc(d, rest);
    if d.isPresent {
      assert s[1..] == UlebEnc(d.length, d.text + rest);
      UlebRoundTrip(d.length, d.text + rest);
      assert (d.text + rest)[..d.length] == d.text;
      assert (d.text + rest)[d.length..] == rest;
    } else {
      assert s[1..] == rest;
    }
  }
}
