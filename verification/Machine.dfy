/** The machine integers and failure values shared by the models. */
module Machine {

  const TWO_32: int := 0x1_0000_0000
  const U64_MAX: int := 0xFFFF_FFFF_FFFF_FFFF
  const I64_MAX: int := 0x7FFF_FFFF_FFFF_FFFF
  const I64_MIN: int := -0x8000_0000_0000_0000

  type u32 = x: int | 0 <= x < TWO_32
  type u64 = x: int | 0 <= x <= U64_MAX

  datatype Option<+T> = None | Some(value: T)
  datatype Result<+T, +E> = Success(value: T) | Failure(error: E)

  function Min(a: int, b: int): int {
    if a <= b then a else b
  }

  function Max(a: int, b: int): int {
    if a >= b then a else b
  }

  /** `u64::saturating_add`. */
  function SatAdd(a: nat, b: nat): nat {
    Min(a + b, U64_MAX)
  }

  /** `u64::saturating_sub`. */
  function SatSub(a: nat, b: nat): nat {
    Max(a - b, 0)
  }

  /** `u64::saturating_mul`. */
  function SatMul(a: nat, b: nat): nat {
    Min(a * b, U64_MAX)
  }

  // Unsigned 64-bit arithmetic stops at 2^64 - 1 and at zero.
  lemma SaturationByExample()
    ensures SatAdd(18_446_744_073_709_551_614, 1) == 18_446_744_073_709_551_615 == SatAdd(18_446_744_073_709_551_615, 1)
    ensures SatMul(4_294_967_296, 4_294_967_296) == 18_446_744_073_709_551_615 && SatMul(3, 5) == 15
    ensures SatSub(5, 3) == 2 && SatSub(3, 5) == 0
  {
  }

  /** Signed division as the source performs it: the quotient is truncated toward zero. */
  function TruncDiv(a: int, b: int): int
    requires b > 0
  {
    if a >= 0 then a / b else -((-a) / b)
  }

  predicate InI64(x: int) {
    I64_MIN <= x <= I64_MAX
  }

  // An intermediate result of 64-bit signed arithmetic that did not overflow.
  function I64(x: int): int
    requires InI64(x)
  {
    x
  }

  // 64-bit signed wrap-around.
  function WrapI64(x: int): int {
    (x + 0x8000_0000_0000_0000) % 0x1_0000_0000_0000_0000 - 0x8000_0000_0000_0000
  }

  function Clamp(x: int, lo: int, hi: int): int
    requires lo <= hi
  {
    Max(lo, Min(x, hi))
  }

  lemma WrapIdentity(x: int)
    ensures InI64(WrapI64(x)) && (WrapI64(x) == x <==> InI64(x))
  {
  }

  function SatAddI64(a: int, b: int): int {
    Clamp(a + b, I64_MIN, I64_MAX)
  }
}
