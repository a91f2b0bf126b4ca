/** Unsigned LEB128 (section 7.6 of the DWARF Debugging Information Format, version 4), as
    read by getULEB128 into a 32-bit dbInt. A group is one byte: its low seven bits are data,
    its high bit says that another group follows. */
module Uleb128 {
  import opened Types

  /** Group k is shifted left by 7 * k. Group 4 is shifted by 28, and its bits above bit 31
      are lost in the 32-bit result. A fifth continuation would need a shift of 35, which
      is undefined for the 32-bit shift at main.cpp:46, so the decoder stops there. */
  const MAX_GROUPS: nat := 5

  /** x << n on unbounded naturals: no bits are lost. */
  function Shl(x: nat, n: nat): nat
  {
    if n == 0 then x else 2 * Shl(x, n - 1)
  }

  /** Seven more places of shift is one more group. */
  lemma ShlGroup(x: nat, n: nat)
    ensures Shl(x, n + 7) == 0x80 * Shl(x, n)
  {
    calc {
      Shl(x, n + 7);
      2 * Shl(x, n + 6);
      4 * Shl(x, n + 5);
      8 * Shl(x, n + 4);
      16 * Shl(x, n + 3);
      32 * Shl(x, n + 2);
      64 * Shl(x, n + 1);
      0x80 * Shl(x, n);
    }
  }

  /** Shifting distributes over a sum. */
  lemma {:induction false} ShlSum(x: nat, y: nat, n: nat)
    ensures Shl(x + y, n) == Shl(x, n) + Shl(y, n)
  {
    if n > 0 {
      ShlSum(x, y, n - 1);
    }
  }

  /** Shifting a whole group up is shifting by seven more places. */
  lemma {:induction false} ShlScaled(x: nat, n: nat)
    ensures Shl(0x80 * x, n) == Shl(x, n + 7)
  {
    if n == 0 {
      ShlGroup(x, 0);
    } else {
      ShlScaled(x, n - 1);
      ShlGroup(x, n - 1);
      ShlGroup(x, n);
    }
  }

  /** Decodes the groups from group k on: the number they denote and the bytes after them. */
  function GroupsDec(s: seq<byte>, k: nat): (r: Result<Parsed<nat>>)
    requires k < MAX_GROUPS
    ensures Consumes(s, r) && (r.Ok? ==> |r.value.rest| < |s|)
    decreases MAX_GROUPS - k
  {
    if |s| == 0 then Fail(Truncated)
    else if s[0] < 0x80 then Ok(Parsed(s[0], s[1..]))
    else if k == MAX_GROUPS - 1 then Fail(VarintTooLong)
    else
      var tail :- GroupsDec(s[1..], k + 1);
      Ok(Parsed(s[0] - 0x80 + 0x80 * tail.value, tail.rest))
  }

  /** getULEB128: the groups' number, truncated to 32 bits. */
  function UlebDec(s: seq<byte>): (r: Result<Parsed<u32>>)
    ensures Consumes(s, r) && (r.Ok? ==> |r.value.rest| < |s|)
  {
    var g :- GroupsDec(s, 0);
    Ok(Parsed(g.value % TWO_32, g.rest))
  }

  /** The low seven bits of each bs[k] placed at bit offset 7 * k, that is
      `(bs[0] & 0x7f) | (bs[1] & 0x7f) << 7 | ...`; the bit ranges are disjoint, so
      the OR is a sum. */
  function LowGroups(bs: seq<byte>): nat
  {
    if bs == [] then 0
    else LowGroups(bs[..|bs| - 1]) + Shl(bs[|bs| - 1] % 0x80, 7 * (|bs| - 1))
  }

  /** The first w bytes of s are one number: every byte before the last has its high bit
      set, the last has it clear. */
  predicate Terminated(s: seq<byte>, w: nat)
  {
    && 1 <= w <= |s|
    && (forall i | 0 <= i < w - 1 :: s[i] >= 0x80)
    && s[w - 1] < 0x80
  }

  /** Peeling the first group off LowGroups: the recurrence GroupsDec follows. */
  lemma {:induction false} LowGroupsFirst(bs: seq<byte>)
    requires bs != []
    ensures LowGroups(bs) == bs[0] % 0x80 + 0x80 * LowGroups(bs[1..])
    decreases |bs|
  {
    var n := |bs| - 1;
    if n == 0 {
      assert bs[1..] == [];
      assert bs[..0] == [];
    } else {
      var init := bs[..n];
      var rest := bs[1..];
      LowGroupsFirst(init);
      assert init[1..] == rest[..n - 1];
      assert rest[n - 1] == bs[n];
      var last := bs[n] % 0x80;
      ShlGroup(last, 7 * (n - 1));
      assert LowGroups(bs) == LowGroups(init) + Shl(last, 7 * n);
      assert LowGroups(rest) == LowGroups(init[1..]) + Shl(last, 7 * (n - 1));
    }
  }

  /** The same value read front to back, one group at a time, as GroupsDec reads it. */
  function Horner(bs: seq<byte>): nat
  {
    if bs == [] then 0 else bs[0] % 0x80 + 0x80 * Horner(bs[1..])
  }

  lemma {:induction false} LowGroupsIsHorner(bs: seq<byte>)
    ensures LowGroups(bs) == Horner(bs)
    decreases |bs|
  {
    if bs != [] {
      LowGroupsFirst(bs);
      LowGroupsIsHorner(bs[1..]);
    }
  }

  /** A run of groups, every one but the last with the high bit set, in front of t: the
      decoder reads exactly the run and yields its value. */
  lemma {:induction false} GroupsDecodeRun(bs: seq<byte>, t: seq<byte>, k: nat)
    requires k < MAX_GROUPS && 1 <= |bs| <= MAX_GROUPS - k
    requires forall i | 0 <= i < |bs| - 1 :: bs[i] >= 0x80
    requires bs[|bs| - 1] < 0x80
    ensures GroupsDec(bs + t, k) == Ok(Parsed(Horner(bs), t))
    decreases |bs|
  {
    if |bs| == 1 {
      assert bs == [bs[0]];
      GroupsDecodeLast(bs[0], t, k);
    } else {
      GroupsDecodeRun(bs[1..], t, k + 1);
      GroupsDecodeCons(bs, t, k);
    }
  }

  /** A continuation group in front of a run that decodes: the run one group longer. */
  lemma GroupsDecodeCons(bs: seq<byte>, t: seq<byte>, k: nat)
    requires k < MAX_GROUPS - 1 && |bs| >= 2 && bs[0] >= 0x80
    requires GroupsDec(bs[1..] + t, k + 1) == Ok(Parsed(Horner(bs[1..]), t))
    ensures GroupsDec(bs + t, k) == Ok(Parsed(Horner(bs), t))
  {
    var s := bs + t;
    assert s[1..] == bs[1..] + t;
    GroupsDecTail(s, k, Horner(bs[1..]), t);
    assert bs[0] % 0x80 == bs[0] - 0x80;
  }

  /** A single group without the continuation bit is the whole number. */
  lemma GroupsDecodeLast(b: byte, t: seq<byte>, k: nat)
    requires k < MAX_GROUPS && b < 0x80
    ensures GroupsDec([b] + t, k) == Ok(Parsed(Horner([b]), t))
  {
    var s := [b] + t;
    assert s[0] == b && s[1..] == t;
    assert [b][1..] == [];
  }

  /** One continuation group: GroupsDec on s is GroupsDec on s[1..] scaled by 0x80. */
  lemma GroupsDecContinued(s: seq<byte>, k: nat)
    requires k < MAX_GROUPS - 1 && |s| > 0 && s[0] >= 0x80
    ensures GroupsDec(s, k) ==
      match GroupsDec(s[1..], k + 1)
      case Ok(t) => Ok(Parsed(s[0] - 0x80 + 0x80 * t.value, t.rest))
      case Fail(e) => Fail(e)
  {
  }

  /** The same step, once the groups after the first are known to decode to v. */
  lemma GroupsDecTail(s: seq<byte>, k: nat, v: nat, t: seq<byte>)
    requires k < MAX_GROUPS - 1 && |s| > 0 && s[0] >= 0x80
    requires GroupsDec(s[1..], k + 1) == Ok(Parsed(v, t))
    ensures GroupsDec(s, k) == Ok(Parsed(s[0] - 0x80 + 0x80 * v, t))
  {
  }

  lemma {:induction false} GroupsDecTerminated(s: seq<byte>, k: nat)
    requires k < MAX_GROUPS && GroupsDec(s, k).Ok?
    ensures var w := |s| - |GroupsDec(s, k).value.rest|;
            w <= MAX_GROUPS - k && Terminated(s, w)
    decreases MAX_GROUPS - k
  {
    if s[0] >= 0x80 {
      GroupsDecTerminated(s[1..], k + 1);
    }
  }

  /** Decoding reads groups up to and including the first byte whose high bit is clear,
      and yields their low seven bits, each at bit offset 7 * k, truncated to 32 bits. */
  lemma UlebDecodesLowGroups(s: seq<byte>, w: nat)
    requires w <= MAX_GROUPS && Terminated(s, w)
    ensures UlebDec(s) == Ok(Parsed(LowGroups(s[..w]) % TWO_32, s[w..]))
  {
    assert s == s[..w] + s[w..];
    GroupsDecodeRun(s[..w], s[w..], 0);
    LowGroupsIsHorner(s[..w]);
  }

  /** Conversely, a successful decode consumed such a run of at most five groups. */
  lemma UlebOkIsTerminated(s: seq<byte>)
    requires UlebDec(s).Ok?
    ensures var w := |s| - |UlebDec(s).value.rest|;
            w <= MAX_GROUPS && Terminated(s, w) && UlebDec(s).value.value == LowGroups(s[..w]) % TWO_32
  {
    GroupsDecTerminated(s, 0);
    UlebDecodesLowGroups(s, |s| - |UlebDec(s).value.rest|);
  }

  /** Five bytes that all carry the continuation bit are rejected. */
  lemma {:induction false} UlebTooLong(s: seq<byte>)
    requires |s| >= MAX_GROUPS && forall i | 0 <= i < MAX_GROUPS :: s[i] >= 0x80
    ensures UlebDec(s) == Fail(VarintTooLong)
  {
    assert s[1..][1..][1..][1..][0] == s[4];
  }

  /** Input that ends before the terminating group is truncated. */
  lemma {:induction false} GroupsTruncated(s: seq<byte>, k: nat)
    requires k < MAX_GROUPS && |s| < MAX_GROUPS - k && forall i | 0 <= i < |s| :: s[i] >= 0x80
    ensures GroupsDec(s, k) == Fail(Truncated)
    decreases |s|
  {
    if |s| > 0 && k < MAX_GROUPS - 1 {
      GroupsTruncated(s[1..], k + 1);
    }
  }

  /** The canonical encoding of n, written in front of rest. */
  function UlebEnc(n: nat, rest: seq<byte>): (s: seq<byte>)
    ensures |s| == UlebWidth(n) + |rest|
  {
    if n < 0x80 then [n] + rest else [n % 0x80 + 0x80] + UlebEnc(n / 0x80, rest)
  }

  /** The number of groups of the canonical encoding of n. */
  function UlebWidth(n: nat): (w: nat)
  {
    if n < 0x80 then 1 else 1 + UlebWidth(n / 0x80)
  }

  lemma {:induction false} GroupsRoundTrip(n: nat, k: nat, rest: seq<byte>)
    requires k < MAX_GROUPS && n < Shl(1, 7 * (MAX_GROUPS - k))
    ensures GroupsDec(UlebEnc(n, rest), k) == Ok(Parsed(n, rest))
    ensures UlebWidth(n) <= MAX_GROUPS - k
    decreases MAX_GROUPS - k
  {
    var s := UlebEnc(n, rest);
    if n >= 0x80 {
      ShlGroup(1, 7 * (MAX_GROUPS - k - 1));
      GroupsRoundTrip(n / 0x80, k + 1, rest);
      assert s[1..] == UlebEnc(n / 0x80, rest);
    }
  }

  /** Every 32-bit number's canonical encoding decodes back to it and takes at most five
      bytes; the decoder consumes exactly those bytes. */
  lemma UlebRoundTrip(n: u32, rest: seq<byte>)
    ensures UlebDec(UlebEnc(n, rest)) == Ok(Parsed(n, rest))
    ensures 1 <= UlebWidth(n) <= MAX_GROUPS
  {
    FiveGroups();
    GroupsRoundTrip(n, 0, rest);
    var g := GroupsDec(UlebEnc(n, rest), 0);
    assert g == Ok(Parsed(n as nat, rest));
    SmallMod(n);
  }

  lemma SmallMod(x: nat)
    requires x < TWO_32
    ensures x % TWO_32 == x
  {
  }

  /** Five groups carry 35 bits, more than the 32 of a dbInt. */
  lemma FiveGroups()
    ensures Shl(1, 7 * MAX_GROUPS) == 0x8_0000_0000
  {
    ShlGroup(1, 0);
    ShlGroup(1, 7);
    ShlGroup(1, 14);
    ShlGroup(1, 21);
    ShlGroup(1, 28);
  }
}
