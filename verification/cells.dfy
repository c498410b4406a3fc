/** 64-bit cells. Arithmetic on `bv64` wraps around, as on the machine; the signed
    reading of a cell is two's complement. */
module Cells {
  type Cell = bv64

  const SIGN: Cell := 0x8000_0000_0000_0000
  const ALL_ONES: Cell := 0xFFFF_FFFF_FFFF_FFFF

  predicate Negative(a: Cell) {
    a >= SIGN
  }

  predicate Below(a: Cell, b: Cell) {
    a < b
  }

  predicate SignedLess(a: Cell, b: Cell) {
    if Negative(a) == Negative(b) then a < b else Negative(a)
  }

  /** A Forth flag: all ones for true, zero for false. */
  function Flag(b: bool): Cell {
    if b then ALL_ONES else 0
  }

  function Not(a: Cell): Cell {
    !a
  }

  /** Logical shift right: zeros fill from the left. */
  function Shr(a: Cell, k: Cell): Cell
    requires k < 64
  {
    a >> k
  }

  /** Arithmetic shift right: the sign bit fills from the left. */
  function ShiftRightArith(a: Cell, k: Cell): Cell
    requires k < 64
  {
    if Negative(a) then Not(Shr(Not(a), k)) else Shr(a, k)
  }

  function Times(x: Cell, y: Cell): Cell {
    x * y
  }

  lemma MulAssoc(x: Cell, y: Cell, z: Cell)
    ensures (x * y) * z == x * (y * z)
  {
  }

  lemma TimesIs(x: Cell, y: Cell)
    ensures Times(x, y) == x * y
  {
  }

  lemma ProductsAssoc(x: Cell, y: Cell, z: Cell)
    ensures Times(x * y, z) == Times(x, y * z)
  {
  }

  lemma TimesAssoc(x: Cell, y: Cell, z: Cell)
    ensures Times(Times(x, y), z) == Times(x, Times(y, z))
  {
    hide Times;
    TimesIs(x, y);
    TimesIs(y, z);
    ProductsAssoc(x, y, z);
  }

  lemma ShiftStep(x: Cell, t: Cell)
    requires t < 63
    ensures x << (t + 1) == (x << t) * 2
  {
    if t < 32 {
      if t < 16 {} else {}
    } else {
      if t < 48 {} else {}
    }
  }

  /** Shifting left is multiplying by a power of two, modulo 2^64. */
  lemma {:induction false} ShiftIsMultiply(x: Cell, t: Cell)
    requires t < 64
    ensures x << t == x * (1 << t)
    decreases t
  {
    if t > 0 {
      ShiftIsMultiply(x, t - 1);
      ShiftStep(x, t - 1);
      ShiftStep(1, t - 1);
      MulAssoc(x, 1 << (t - 1), 2);
    }
  }

  /** The least exponent from `t` up whose power of two is `k`; 63 when there is none. */
  function Exponent(k: Cell, t: Cell): Cell
    requires 1 <= t <= 63
    decreases 63 - t
  {
    if t == 63 || k == 1 << t then t else Exponent(k, t + 1)
  }

  lemma {:induction false} ExponentIsLog(k: Cell, t: Cell, r: Cell)
    requires 1 <= t <= 63 && r == Exponent(k, t) && r < 63
    ensures t <= r && 1 << r == k
    decreases 63 - t
  {
    if t == 63 {
    } else if k == 1 << t {
    } else {
      ExponentIsLog(k, t + 1, r);
    }
  }

  lemma ShiftIsTimes(x: Cell, t: Cell)
    requires t < 64
    ensures x << t == Times(x, 1 << t)
  {
    ShiftIsMultiply(x, t);
  }

  /** Multiplying by a power of two is shifting by its exponent. */
  lemma MultiplyIsShift(x: Cell, k: Cell, t: Cell)
    requires t == Exponent(k, 1) && t < 63
    ensures 1 <= t
    ensures x << t == Times(x, k)
  {
    ExponentIsLog(k, 1, t);
    ShiftIsTimes(x, t);
  }
}
