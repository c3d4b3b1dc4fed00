/** Result types, machine-word widths and small helpers shared by every module. */
module Base {

  datatype Option<+T> = None | Some(value: T)

  datatype Result<+T, +E> = Ok(value: T) | Err(error: E)

  type byte = x: int | 0 <= x < 0x100

  const TWO_TO_THE_31: int := 0x8000_0000
  const TWO_TO_THE_32: int := 0x1_0000_0000
  const TWO_TO_THE_64: int := 0x1_0000_0000_0000_0000

  type u32 = x: int | 0 <= x < TWO_TO_THE_32
  type c_int = x: int | -TWO_TO_THE_31 <= x < TWO_TO_THE_31
  type u64 = x: int | 0 <= x < TWO_TO_THE_64

  function Min(a: int, b: int): int {
    if a <= b then a else b
  }

  /** `u64::saturating_sub`. */
  function SaturatingSub(a: nat, b: nat): nat {
    if a >= b then a - b else 0
  }

  function CeilDiv(n: nat, d: nat): nat
    requires d > 0
  {
    (n + d - 1) / d
  }
}
