/** The trailing permissions field of the database (main.cpp:388-428): a signed 32-bit
    value and six flags, each one bit of it. */
module Permissions {
  import opened Types
  import opened Fixed

  /** `1 << i`. */
  function Mask(i: nat): (m: nat)
    ensures m > 0
  {
    if i == 0 then 1 else 2 * Mask(i - 1)
  }

  /** The one-bit masks of main.cpp:390-395. */
  const PERMISSIONS_NORMAL: nat := Mask(0)
  const PERMISSIONS_MODERATOR: nat := Mask(1)
  const PERMISSIONS_SUPPORTER: nat := Mask(2)
  const PERMISSIONS_FRIEND: nat := Mask(3)
  const PERMISSIONS_PEPPY: nat := Mask(4)
  const PERMISSIONS_WORLDCUPSTAFF: nat := Mask(5)

  datatype Permissions = Permissions(
    raw: i32,
    isNormal: bool,
    isModerator: bool,
    isSupporter: bool,
    isFriend: bool,
    isPeppy: bool,
    isWorldCupStaff: bool)

  /** Bit i of x in two's complement (x / 2 rounds down, also for negative x). */
  function Bit(x: int, i: nat): bool
    decreases i
  {
    if i == 0 then x % 2 == 1 else Bit(x / 2, i - 1)
  }

  /** `raw & mask` is non-zero, for a one-bit mask: the bits of raw below the mask's
      doubled value reach the mask. That is the lowest bit of raw shifted right past the
      bits below the mask. */
  function HasFlag(raw: int, mask: nat): (r: bool)
    requires mask > 0
    ensures r == Bit(raw / mask, 0)
  {
    MaskBit(raw, mask);
    raw % (2 * mask) >= mask
  }

  /** raw modulo 2 * mask reaches mask exactly when raw / mask is odd. */
  lemma MaskBit(raw: int, mask: nat)
    requires mask > 0
    ensures (raw % (2 * mask) >= mask) == ((raw / mask) % 2 == 1)
  {
    var q, t := raw / (2 * mask), raw % (2 * mask);
    assert raw == (2 * mask) * q + t;
    if t >= mask {
      assert raw == mask * (2 * q + 1) + (t - mask);
      ModUnique(raw, mask, 2 * q + 1, t - mask);
      ModUnique(2 * q + 1, 2, q, 1);
    } else {
      assert raw == mask * (2 * q) + t;
      ModUnique(raw, mask, 2 * q, t);
      ModUnique(2 * q, 2, q, 0);
    }
  }

  /** Euclidean division has one quotient and one remainder. */
  lemma ModUnique(x: int, d: int, a: int, t: int)
    requires d > 0 && x == d * a + t && 0 <= t < d
    ensures x / d == a && x % d == t
  {
    var k := x / d - a;
    assert d * (x / d) + x % d == d * a + t;
    assert d * k == t - x % d by {
      assert d * k == d * (x / d) - d * a;
    }
    if k > 0 {
      MulAtLeast(d, k);
    } else if k < 0 {
      MulAtLeast(d, -k);
    }
  }

  lemma MulAtLeast(d: int, k: int)
    requires d > 0 && k > 0
    ensures d * k >= d
  {
    assert d * k == d * (k - 1) + d;
    assert d * (k - 1) >= 0;
  }

  /** The low bits of x modulo 2m are its lowest bit below those of x / 2 modulo m. */
  lemma ModDouble(x: int, m: int)
    requires m > 0
    ensures x % (2 * m) == 2 * ((x / 2) % m) + x % 2
  {
    var q, r := x / 2, x % 2;
    var a, c := q / m, q % m;
    assert q == m * a + c;
    assert x == (2 * m) * a + (2 * c + r);
    ModUnique(x, 2 * m, a, 2 * c + r);
  }

  lemma HasFlagHalf(x: int, m: nat)
    requires m > 0
    ensures HasFlag(x, 2 * m) == HasFlag(x / 2, m)
  {
    ModDouble(x, 2 * m);
  }

  /** Testing against mask 1 << i is testing bit i. */
  lemma {:induction false} HasFlagIsBit(x: int, i: nat)
    ensures HasFlag(x, Mask(i)) == Bit(x, i)
    decreases i
  {
    if i > 0 {
      HasFlagIsBit(x / 2, i - 1);
      HasFlagHalf(x, Mask(i - 1));
    }
  }

  /** getPermissions after the read: each flag is set when raw has its mask bit. */
  function PermissionsOf(raw: i32): (p: Permissions)
    ensures p.raw == raw
    ensures p.isNormal == Bit(raw, 0)
    ensures p.isModerator == Bit(raw, 1)
    ensures p.isSupporter == Bit(raw, 2)
    ensures p.isFriend == Bit(raw, 3)
    ensures p.isPeppy == Bit(raw, 4)
    ensures p.isWorldCupStaff == Bit(raw, 5)
  {
    HasFlagIsBit(raw, 0);
    HasFlagIsBit(raw, 1);
    HasFlagIsBit(raw, 2);
    HasFlagIsBit(raw, 3);
    HasFlagIsBit(raw, 4);
    HasFlagIsBit(raw, 5);
    Permissions(
      raw,
      HasFlag(raw, PERMISSIONS_NORMAL),
      HasFlag(raw, PERMISSIONS_MODERATOR),
      HasFlag(raw, PERMISSIONS_SUPPORTER),
      HasFlag(raw, PERMISSIONS_FRIEND),
      HasFlag(raw, PERMISSIONS_PEPPY),
      HasFlag(raw, PERMISSIONS_WORLDCUPSTAFF))
  }

  /** Bits 6 and above affect no flag. */
  lemma HighBitsIgnored(a: i32, b: i32)
    requires a % 64 == b % 64
    ensures var p, q := PermissionsOf(a), PermissionsOf(b);
            p.isNormal == q.isNormal && p.isModerator == q.isModerator &&
            p.isSupporter == q.isSupporter && p.isFriend == q.isFriend &&
            p.isPeppy == q.isPeppy && p.isWorldCupStaff == q.isWorldCupStaff
  {
    ModMod(a, 2, 32);
    ModMod(b, 2, 32);
    ModMod(a, 4, 16);
    ModMod(b, 4, 16);
    ModMod(a, 8, 8);
    ModMod(b, 8, 8);
    ModMod(a, 16, 4);
    ModMod(b, 16, 4);
    ModMod(a, 32, 2);
    ModMod(b, 32, 2);
    ModMod(a, 64, 1);
    ModMod(b, 64, 1);
  }

  /** Reducing modulo m * k, then modulo m, is reducing modulo m. */
  lemma ModMod(x: int, m: int, k: int)
    requires m > 0 && k > 0
    ensures (x % (m * k)) % m == x % m
  {
    var q, r := x / (m * k), x % (m * k);
    assert x == m * (k * q + r / m) + r % m by {
      assert x == (m * k) * q + r;
      assert r == m * (r / m) + r % m;
      assert (m * k) * q == m * (k * q);
    }
    ModUnique(x, m, k * q + r / m, r % m);
  }

  /** getPermissions: the raw value as read, and its flags. */
  function PermissionsDec(s: seq<byte>): (r: Result<Parsed<Permissions>>)
    ensures Reads(s, r, 4)
    ensures r.Ok? ==> r.value.value == PermissionsOf(r.value.value.raw)
    ensures r.Ok? ==> r.value.value.raw % TWO_32 == LittleEndian(s[..4])
  {
    var raw :- I32Dec(s);
    Ok(Parsed(PermissionsOf(raw.value), raw.rest))
  }

  function PermissionsEnc(p: Permissions, rest: seq<byte>): seq<byte>
  {
    I32Enc(p.raw, rest)
  }

  lemma PermissionsRoundTrip(p: Permissions, rest: seq<byte>)
    requires p == PermissionsOf(p.raw)
    ensures PermissionsDec(PermissionsEnc(p, rest)) == Ok(Parsed(p, rest))
    ensures |PermissionsEnc(p, rest)| == 4 + |rest|
  {
    I32RoundTrip(p.raw, rest);
  }
}
