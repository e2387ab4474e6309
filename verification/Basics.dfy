/** Fixed-width numbers, byte strings and the two result types every other module uses. */
module Basics {
  const U8_LIMIT := 0x100
  const U32_LIMIT := 0x1_0000_0000
  const U64_LIMIT := 0x1_0000_0000_0000_0000

  type Byte = x: int | 0 <= x < U8_LIMIT
  type U32 = x: int | 0 <= x < U32_LIMIT
  type U64 = x: int | 0 <= x < U64_LIMIT

  type Bytes = seq<Byte>
  type Bytes16 = s: Bytes | |s| == 16 witness seq(16, _ => 0)
  type Bytes17 = s: Bytes | |s| == 17 witness seq(17, _ => 0)
  type Bytes32 = s: Bytes | |s| == 32 witness seq(32, _ => 0)
  type Bytes33 = s: Bytes | |s| == 33 witness seq(33, _ => 0)
  type Bytes64 = s: Bytes | |s| == 64 witness seq(64, _ => 0)

  const ZERO32: Bytes32 := seq(32, _ => 0)

  datatype Option<+T> = None | Some(value: T)

  /** The faults the modelled operations return; `Trap` is a checked integer overflow. */
  datatype Fault =
    | BadArgument
    | BadKey
    | BadSignature
    | BadMessage
    | UnknownKeyType
    | LegacyVersion
    | UnknownVersion
    | Replay
    | NoSession
    | UntrustedIdentity
    | BadKeyId
    | BadSession
    | BadPadding
    | WrongLength
    | OutOfMemory
    | Trap

  datatype Result<+T, +E> = Ok(value: T) | Err(error: E) {
    predicate IsFailure() {
      Err?
    }

    function PropagateFailure<U>(): Result<U, E>
      requires Err?
    {
      Err(error)
    }

    function Extract(): T
      requires Ok?
    {
      value
    }
  }

  /** The value of an optional, or the fault a missing one is reported as. */
  function OrFault<T>(o: Option<T>, fault: Fault): Result<T, Fault> {
    match o
    case None => Err(fault)
    case Some(v) => Ok(v)
  }
}
