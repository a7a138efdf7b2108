/** Fixed-width integers and result types shared by every module.
    The on-chain program is built in release mode, so `+=` and `-=` on its
    integers wrap around; the wrapping operators are written out here. */
module Machine {

  const U16_LIMIT: int := 0x1_0000
  const U32_LIMIT: int := 0x1_0000_0000
  const U64_LIMIT: int := 0x1_0000_0000_0000_0000
  const U128_LIMIT: int := 0x1_0000_0000_0000_0000_0000_0000_0000_0000

  type byte = x: int | 0 <= x < 0x100
  type u16 = x: int | 0 <= x < 0x1_0000
  type u32 = x: int | 0 <= x < 0x1_0000_0000
  type u64 = x: int | 0 <= x < 0x1_0000_0000_0000_0000

  function WrapAdd64(a: u64, b: u64): u64 {
    if a + b < U64_LIMIT then a + b else a + b - U64_LIMIT
  }

  function WrapSub64(a: u64, b: u64): u64 {
    if a >= b then a - b else a - b + U64_LIMIT
  }

  function WrapAdd32(a: u32, b: u32): u32 {
    if a + b < U32_LIMIT then a + b else a + b - U32_LIMIT
  }

  /** Wrapping is arithmetic modulo the width. */
  lemma {:induction false} WrapsModulo(a: u64, b: u64)
    ensures WrapAdd64(a, b) == (a + b) % U64_LIMIT && WrapSub64(a, b) == (a - b) % U64_LIMIT
  {
  }

  lemma {:induction false} SumModulo(a: int, b: int)
    ensures (a % U64_LIMIT + b) % U64_LIMIT == (a + b) % U64_LIMIT
  {
  }

  lemma {:induction false} SmallModulo(a: int)
    requires 0 <= a < U64_LIMIT
    ensures a % U64_LIMIT == a
  {
  }

  function SaturatingSub64(a: u64, b: u64): u64 {
    if a >= b then a - b else 0
  }

  function Min(a: int, b: int): int {
    if a <= b then a else b
  }

  function Max(a: int, b: int): int {
    if a >= b then a else b
  }

  datatype Option<+T> = None | Some(value: T) {
    predicate IsFailure() { None? }
    function PropagateFailure<U>(): Option<U> requires None? { None }
    function Extract(): T requires Some? { value }
  }

  datatype Result<+T, +E> = Ok(value: T) | Err(error: E) {
    predicate IsFailure() { Err? }
    function PropagateFailure<U>(): Result<U, E> requires Err? { Err(error) }
    function Extract(): T requires Ok? { value }
  }
}
