/** Machine integers, failure values and key texts shared by every component. */
module Base {

  const U64_MAX: int := 0xFFFF_FFFF_FFFF_FFFF

  /** Rust's `u64`: every timestamp and counter on the wire. */
  type u64 = x: int | 0 <= x <= 0xFFFF_FFFF_FFFF_FFFF

  type byte = x: int | 0 <= x < 256

  datatype Option<+T> = None | Some(value: T)

  datatype Result<+T, +E> = Ok(value: T) | Err(error: E)

  /** `u64::saturating_add`. */
  function SatAdd(a: u64, b: u64): u64 {
    if a + b > U64_MAX then U64_MAX else a + b
  }

  /** `u64::saturating_sub`. */
  function SatSub(a: u64, b: u64): u64 {
    if a < b then 0 else a - b
  }

  function Min(a: int, b: int): int {
    if a <= b then a else b
  }

  function Max(a: int, b: int): int {
    if a <= b then b else a
  }

  const Z32_ALPHABET: string := "ybndrfg8ejkmcpqxot1uwisza345h769"

  /** The canonical z-base-32 text of a 32-byte public key. */
  predicate CanonicalKey(text: string) {
    |text| == 52 && forall i :: 0 <= i < |text| ==> text[i] in Z32_ALPHABET
  }
}
