/** Types shared by every module. */
module Basics {

  /** An optional value; the failure members let a parser be written with `:-`. */
  datatype Option<+T> = None | Some(value: T) {
    predicate IsFailure() { None? }
    function PropagateFailure<U>(): Option<U> requires None? { None }
    function Extract(): T requires Some? { value }
  }

  type Byte = x: int | 0 <= x < 256

  const ADDR_LEN: nat := 32

  /** A 32-byte account address or public key. */
  type Address = a: seq<Byte> | |a| == ADDR_LEN witness seq(ADDR_LEN, _ => 0)

  const MAX_U64: nat := 0xFFFF_FFFF_FFFF_FFFF
}
