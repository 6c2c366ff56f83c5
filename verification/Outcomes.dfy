/** Results, optional values, machine integers and character classes shared by the other modules. */
module Outcomes {

  datatype Option<+T> = None | Some(value: T)

  datatype Result<+T, +E> = Ok(value: T) | Err(error: E)

  const U64_MAX: int := 0xFFFF_FFFF_FFFF_FFFF

  /** An unsigned 64-bit integer; wrap-around never happens, saturation is explicit. */
  type u64 = x: int | 0 <= x <= U64_MAX

  function SaturatingIncrement(x: u64): u64 {
    if x == U64_MAX then U64_MAX else x + 1
  }

  /** Unicode's `White_Space`. */
  predicate WhiteSpace(c: char) {
    || '\U{9}' <= c <= '\U{D}' || c == ' ' || c == '\U{85}' || c == '\U{A0}' || c == '\U{1680}'
    || '\U{2000}' <= c <= '\U{200A}' || c == '\U{2028}' || c == '\U{2029}' || c == '\U{202F}'
    || c == '\U{205F}' || c == '\U{3000}'
  }
}
