/** Shared vocabulary: optional values, bytes and the fixed-width integers of the C source. */
module Prelude {

  datatype Option<+T> = None | Some(value: T)

  /** One `char` of a C string or one byte of a file, seen as an unsigned value. */
  type byte = b: int | 0 <= b < 256

  const TWO_32: nat := 0x1_0000_0000
  const TWO_63: nat := 0x8000_0000_0000_0000
  const TWO_64: nat := 0x1_0000_0000_0000_0000

  function Min(a: nat, b: nat): nat
  {
    if a < b then a else b
  }

  /** The first `n` naturals as a set. */
  ghost function Below(n: nat): (r: set<nat>)
    ensures forall x: nat :: x in r <==> x < n
  {
    if n == 0 then {} else Below(n - 1) + {n - 1}
  }
}
