/** Types shared by the lexer and the pusher: an optional value, raw bytes,
    and Rust's `u64`. */
module Basics {

  datatype Option<+T> = None | Some(value: T)

  /** 2^64: `u64` arithmetic in a release build wraps modulo this value. */
  const U64_MODULUS: int := 0x1_0000_0000_0000_0000

  type u64 = x: int | 0 <= x < U64_MODULUS

  /** One byte of a UTF-8 encoded Rust `str`. */
  type byte = b: int | 0 <= b < 256
}
