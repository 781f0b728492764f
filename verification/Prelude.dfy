/** Small shared vocabulary: results, bytes and the fixed-width arithmetic of the source. */
module Prelude {

  datatype Option<+T> = None | Some(value: T)

  datatype Result<+T, +E> = Success(value: T) | Failure(error: E)

  /** `ContentKind`: what one offer carries. */
  datatype ContentKind = Text | File | Folder

  type Byte = b: int | 0 <= b < 256

  const U32_MAX: int := 0xFFFF_FFFF
  const U64_MAX: int := 0xFFFF_FFFF_FFFF_FFFF

  type U32 = n: int | 0 <= n <= U32_MAX
  type U64 = n: int | 0 <= n <= U64_MAX

  /** A UUID, as the two halves of its 128 bits. */
  datatype Uuid = Uuid(high: U64, low: U64)

  function Min(a: int, b: int): int { if a <= b then a else b }

  function Max(a: int, b: int): int { if a >= b then a else b }

  /** `u64::saturating_add`. */
  function SaturatingAdd64(a: U64, b: U64): U64 { Min(a + b, U64_MAX) }

  /** `u32::saturating_add`. */
  function SaturatingAdd32(a: U32, b: U32): U32 { Min(a + b, U32_MAX) }

  /** `u64::saturating_sub`. */
  function SaturatingSub64(a: U64, b: U64): U64 { Max(a - b, 0) }

  /** `u64::checked_add`. */
  function CheckedAdd64(a: U64, b: U64): Option<U64> {
    if a + b <= U64_MAX then Some(a + b) else None
  }

  /** `u32::checked_add`. */
  function CheckedAdd32(a: U32, b: U32): Option<U32> {
    if a + b <= U32_MAX then Some(a + b) else None
  }

  lemma HeadAndTail<T>(s: seq<T>)
    requires s != []
    ensures [s[0]] + s[1..] == s
  {}

  lemma ConcatIsAssociative<T>(a: seq<T>, b: seq<T>, c: seq<T>)
    ensures (a + b) + c == a + (b + c)
  {}
}
