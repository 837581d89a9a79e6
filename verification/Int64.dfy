/** The 64-bit integers of the virtual machine.  One set of operators serves the
    interpreter and the optimizer, so folding a constant and computing it at run time
    cannot disagree. */
module Int64 {
  const TWO_TO_THE_63: int := 0x8000_0000_0000_0000
  const TWO_TO_THE_64: int := 0x1_0000_0000_0000_0000

  type I64 = x: int | -0x8000_0000_0000_0000 <= x < 0x8000_0000_0000_0000

  // Two's complement wrap-around of a mathematical integer.
  function Wrap(x: int): (r: I64)
    ensures -TWO_TO_THE_63 <= x < TWO_TO_THE_63 ==> r == x
    ensures (r - x) % TWO_TO_THE_64 == 0
  {
    var m := x % TWO_TO_THE_64;
    if m < TWO_TO_THE_63 then m else m - TWO_TO_THE_64
  }

  function Add(x: I64, y: I64): I64 { Wrap(x + y) }

  function Sub(x: I64, y: I64): I64 { Wrap(x - y) }

  function Mul(x: I64, y: I64): I64 { Wrap(x * y) }

  // C++ division truncates toward zero; Dafny's is Euclidean.
  function Truncate(x: int, y: int): int
    requires y != 0
  {
    if x >= 0 then x / y else -(-x / y)
  }

  function Div(x: I64, y: I64): I64
    requires y != 0
  {
    Wrap(Truncate(x, y))
  }

  // The unsigned reading of the same 64 bits.
  function Unsigned(x: I64): (r: int)
    ensures 0 <= r < TWO_TO_THE_64
  {
    if x < 0 then x + TWO_TO_THE_64 else x
  }

  datatype BitOp = AndBits | OrBits | XorBits

  function Bit(op: BitOp, x: int, y: int): (r: int)
    ensures 0 <= r <= 1
  {
    match op
    case AndBits => if x == 1 && y == 1 then 1 else 0
    case OrBits => if x == 1 || y == 1 then 1 else 0
    case XorBits => if x == y then 0 else 1
  }

  function Bitwise(op: BitOp, x: int, y: int, width: nat): int
    requires 0 <= x && 0 <= y
    decreases width
  {
    if width == 0 then 0
    else Bit(op, x % 2, y % 2) + 2 * Bitwise(op, x / 2, y / 2, width - 1)
  }

  function And(x: I64, y: I64): I64 { Wrap(Bitwise(AndBits, Unsigned(x), Unsigned(y), 64)) }

  function Or(x: I64, y: I64): I64 { Wrap(Bitwise(OrBits, Unsigned(x), Unsigned(y), 64)) }

  function Xor(x: I64, y: I64): I64 { Wrap(Bitwise(XorBits, Unsigned(x), Unsigned(y), 64)) }

  function Not(x: I64): I64 { -1 - x }

  function Pow2(k: nat): (r: nat)
    ensures r > 0
  {
    if k == 0 then 1 else 2 * Pow2(k - 1)
  }

  // Shift counts are taken modulo 64.
  function Shl(x: I64, y: I64): I64 { Wrap(x * Pow2(y % 64)) }

  function Shr(x: I64, y: I64): I64 { Wrap(x / Pow2(y % 64)) }
}
