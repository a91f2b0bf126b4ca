/** Scalar types of the osu!.db format (main.cpp:6-23) and the decoder's result type. */
module Types {

  /** dbByte, dbShort, dbInt and dbLong: unsigned 8, 16, 32 and 64-bit fields. */
  type byte = x: int | 0 <= x < 0x100
  type u16 = x: int | 0 <= x < 0x1_0000
  type u32 = x: int | 0 <= x < 0x1_0000_0000
  type u64 = x: int | 0 <= x < 0x1_0000_0000_0000_0000

  /** int32_t, the type of the raw permissions field. */
  type i32 = x: int | -0x8000_0000 <= x < 0x8000_0000

  const TWO_32: int := 0x1_0000_0000

  /** dbSingle. A float read from the file is kept as its 32-bit pattern; a legacy
      difficulty byte converted to float is kept as the byte it was widened from. */
  datatype Single = SingleBits(bits: u32) | WidenedByte(b: byte)

  /** dbDouble, kept as its 64-bit pattern. */
  datatype Double = DoubleBits(bits: u64)

  /** The `(dbSingle)b` conversion of a byte, left uninterpreted. */
  function Widen(b: byte): Single
  {
    WidenedByte(b)
  }

  datatype Option<T> = None | Some(value: T)

  /** Why a decode stops. The source ends the program (an assert) or goes on with whatever the
      short read left. */
  datatype Error =
    | Truncated                               // the input ends inside a field
    | BadMarker(expected: byte, found: byte)  // a rating-pair framing byte is wrong
    | VarintTooLong                           // a fifth ULEB128 group still has the continuation bit
    | UnknownNotZero(unknown: u16)           // the legacy 16-bit field is not zero

  datatype Result<T> = Ok(value: T) | Fail(error: Error) {
    predicate IsFailure() {
      Fail?
    }

    function PropagateFailure<U>(): Result<U>
      requires Fail?
    {
      Fail(error)
    }

    function Extract(): T
      requires Ok?
    {
      value
    }
  }

  /** A decoded value together with the bytes that follow it. */
  datatype Parsed<T> = Parsed(value: T, rest: seq<byte>)

  /** Pairs a method's result with the bytes left after it, for comparison with a decoder. */
  function Track<T>(r: Result<T>, rest: seq<byte>): Result<Parsed<T>>
  {
    match r
    case Ok(v) => Ok(Parsed(v, rest))
    case Fail(e) => Fail(e)
  }

  /** A fixed-width field: the decoder fails exactly when fewer than n bytes remain, with
      Truncated, and otherwise leaves everything after the first n bytes. */
  predicate Reads<T>(s: seq<byte>, r: Result<Parsed<T>>, n: nat)
  {
    && (r.Ok? <==> n <= |s|)
    && (r.Ok? ==> r.value.rest == s[n..])
    && (r.Fail? ==> r.error == Truncated)
  }

  /** A decoder only ever consumes bytes from the front: what it leaves is a suffix. */
  predicate Consumes<T>(s: seq<byte>, r: Result<Parsed<T>>)
  {
    r.Ok? ==> |r.value.rest| <= |s| && r.value.rest == s[|s| - |r.value.rest|..]
  }
}
