/** The signed reading of a cell: two's complement, as a number. */
module Signed {
  import opened Cells

  const TOP: int := 0x8000_0000_0000_0000

  predicate IsSigned(x: int) {
    -TOP <= x < TOP
  }

  /** 64-bit wrap-around. */
  function Wrap(x: int): (r: int)
    ensures IsSigned(r)
  {
    (x + TOP) % (2 * TOP) - TOP
  }

  lemma WrapNear(x: int)
    requires -2 * TOP <= x < 2 * TOP
    ensures Wrap(x) == if x >= TOP then x - 2 * TOP else if x < -TOP then x + 2 * TOP else x
  {
  }

  // ----- sums of cells, kept apart from numbers -----

  function Plus(a: Cell, b: Cell): Cell {
    a + b
  }

  lemma PlusZero(a: Cell)
    ensures Plus(a, 0) == a && Plus(0, a) == a
  {
  }

  lemma PlusIs(a: Cell, b: Cell)
    ensures Plus(a, b) == a + b
  {
  }

  lemma SumsSwap(a: Cell, b: Cell)
    ensures a + b == b + a
  {
  }

  lemma PlusSwap(a: Cell, b: Cell)
    ensures Plus(a, b) == Plus(b, a)
  {
    hide Plus;
    PlusIs(a, b);
    PlusIs(b, a);
    SumsSwap(a, b);
  }

  lemma SumsAssoc(a: Cell, b: Cell, c: Cell)
    ensures Plus(a + b, c) == Plus(a, b + c)
  {
  }

  lemma PlusAssoc(a: Cell, b: Cell, c: Cell)
    ensures Plus(Plus(a, b), c) == Plus(a, Plus(b, c))
  {
    hide Plus;
    PlusIs(a, b);
    PlusIs(b, c);
    SumsAssoc(a, b, c);
  }

  /** Sums of two sums, crosswise. */
  lemma PlusCross(a: Cell, b: Cell, c: Cell, d: Cell)
    ensures Plus(Plus(a, b), Plus(c, d)) == Plus(Plus(a, c), Plus(b, d))
  {
    hide Plus;
    PlusAssoc(a, b, Plus(c, d));
    PlusAssoc(b, c, d);
    PlusSwap(b, c);
    PlusAssoc(c, b, d);
    PlusAssoc(a, c, Plus(b, d));
  }

  lemma PlusPairs(a: Cell, b: Cell, i: Cell, j: Cell)
    ensures Plus(Plus(Plus(a, a), i), Plus(Plus(b, b), j)) == Plus(Plus(Plus(a, b), Plus(a, b)), Plus(i, j))
  {
    hide Plus;
    PlusCross(Plus(a, a), i, Plus(b, b), j);
    PlusCross(a, a, b, b);
  }

  lemma PlusCarry(a: Cell, b: Cell)
    ensures Plus(Plus(Plus(a, a), 1), Plus(Plus(b, b), 1))
         == Plus(Plus(Plus(a, Plus(b, 1)), Plus(a, Plus(b, 1))), 0)
  {
    hide Plus;
    var c := Plus(b, 1);
    PlusCross(Plus(a, a), 1, Plus(b, b), 1);
    PlusCross(a, c, a, c);
    PlusCross(b, 1, b, 1);
    PlusCross(Plus(a, a), Plus(b, b), 1, 1);
    PlusAssoc(Plus(a, a), Plus(b, b), Plus(1, 1));
    PlusZero(Plus(Plus(a, c), Plus(a, c)));
  }

  // ----- from numbers to cells -----

  function Bit(b: int): Cell {
    if b == 1 then 1 else 0
  }

  /** A natural number modulo 2^64, bit by bit. */
  function Up(x: nat): Cell {
    if x == 0 then 0 else Plus(Plus(Up(x / 2), Up(x / 2)), Bit(x % 2))
  }

  lemma Doubled(x: nat, b: nat)
    requires b <= 1
    ensures Up(2 * x + b) == Plus(Plus(Up(x), Up(x)), Bit(b))
  {
    hide Plus, Bit;
    assert (2 * x + b) / 2 == x && (2 * x + b) % 2 == b;
    if x == 0 && b == 0 {
      UpZero();
    }
  }

  lemma UpZero()
    ensures Up(0) == 0 && Bit(0) == 0 && Bit(1) == 1 && Plus(0, 0) == 0
  {
  }

  lemma {:induction false} UpAdds(a: nat, b: nat)
    ensures Up(a + b) == Plus(Up(a), Up(b))
    decreases a + b
  {
    hide Plus, Bit, Up;
    UpZero();
    if a == 0 || b == 0 {
      PlusZero(Up(a));
      PlusZero(Up(b));
    } else {
      var x, y, i, j := a / 2, b / 2, a % 2, b % 2;
      assert a == 2 * x + i && b == 2 * y + j;
      Doubled(x, i);
      Doubled(y, j);
      if i + j <= 1 {
        UpAdds(x, y);
        Doubled(x + y, i + j);
        BitsAdd(i, j);
        PlusPairs(Up(x), Up(y), Bit(i), Bit(j));
      } else {
        UpAdds(y, 1);
        UpAdds(x, y + 1);
        Doubled(x + y + 1, 0);
        UpOne();
        PlusCarry(Up(x), Up(y));
      }
    }
  }

  lemma UpOne()
    ensures Up(1) == 1
  {
    hide Plus, Bit, Up;
    UpZero();
    Doubled(0, 1);
    PlusZero(1);
  }

  lemma BitsAdd(i: nat, j: nat)
    requires i + j <= 1
    ensures Bit(i + j) == Plus(Bit(i), Bit(j))
  {
    hide Plus, Bit;
    UpZero();
    PlusZero(Bit(i));
    PlusZero(Bit(j));
  }

  // ----- powers of two -----

  /** 2^n, modulo 2^64. */
  function Power(n: nat): Cell {
    if n == 0 then 1 else Plus(Power(n - 1), Power(n - 1))
  }

  function Pow2(n: nat): (p: nat)
    ensures p > 0
  {
    if n == 0 then 1 else 2 * Pow2(n - 1)
  }

  /** Doubling does not wrap. */
  predicate Small(c: Cell) {
    c <= 0x4000_0000_0000_0000
  }

  /** Nothing has wrapped up to 2^n. */
  predicate Tame(n: nat) {
    n == 0 || (Tame(n - 1) && Small(Power(n - 1)))
  }

  lemma {:induction false} PowerIsUp(n: nat)
    ensures Up(Pow2(n)) == Power(n)
  {
    hide Plus, Bit, Up;
    if n == 0 {
      UpOne();
    } else {
      PowerIsUp(n - 1);
      UpAdds(Pow2(n - 1), Pow2(n - 1));
    }
  }

  lemma TameNext(n: nat, v: Cell, w: Cell)
    requires Tame(n) && Power(n) == v && Small(v) && Plus(v, v) == w
    ensures Tame(n + 1) && Power(n + 1) == w
  {
    hide Plus, Small;
  }

  predicate Tiny(v: Cell) {
    v <= 0x0800_0000_0000_0000
  }

  function Twice(v: Cell): Cell {
    Plus(v, v)
  }

  lemma TameFour(n: nat, v: Cell, w: Cell)
    requires Tame(n) && Power(n) == v && Tiny(v) && Twice(Twice(Twice(Twice(v)))) == w
    ensures Tame(n + 4) && Power(n + 4) == w
  {
    hide Tame, Power, Plus, Small, Tiny;
    TinyDoubles(v);
    TameNext(n, v, Twice(v));
    TameNext(n + 1, Twice(v), Twice(Twice(v)));
    TameNext(n + 2, Twice(Twice(v)), Twice(Twice(Twice(v))));
    TameNext(n + 3, Twice(Twice(Twice(v))), w);
  }

  lemma TinyDoubles(v: Cell)
    requires Tiny(v)
    ensures Small(v) && Small(Twice(v)) && Small(Twice(Twice(v))) && Small(Twice(Twice(Twice(v))))
  {
  }

  /** The powers, four doublings at a time. */
  lemma PowersInFours(n: nat, v: Cell)
    requires Tame(n) && Power(n) == v && Tiny(v)
    ensures Tame(n + 4) && Power(n + 4) == v * 16
  {
    hide Tame, Power, Plus, Tiny, Twice;
    FourTwices(v);
    TameFour(n, v, v * 16);
  }

  lemma FourTwices(v: Cell)
    ensures Twice(Twice(Twice(Twice(v)))) == v * 16
  {
  }

  lemma TameTop()
    ensures Tame(63) && Power(63) == SIGN
  {
    hide Tame, Power, Plus;
    TameZero();
    PowersInFours(0, 0x1);
    PowersInFours(4, 0x10);
    PowersInFours(8, 0x100);
    PowersInFours(12, 0x1000);
    PowersInFours(16, 0x1_0000);
    PowersInFours(20, 0x10_0000);
    PowersInFours(24, 0x100_0000);
    PowersInFours(28, 0x1000_0000);
    PowersInFours(32, 0x1_0000_0000);
    PowersInFours(36, 0x10_0000_0000);
    PowersInFours(40, 0x100_0000_0000);
    PowersInFours(44, 0x1000_0000_0000);
    PowersInFours(48, 0x1_0000_0000_0000);
    PowersInFours(52, 0x10_0000_0000_0000);
    PowersInFours(56, 0x100_0000_0000_0000);
    LastPowers();
    TameNext(60, 0x1000_0000_0000_0000, 0x2000_0000_0000_0000);
    TameNext(61, 0x2000_0000_0000_0000, 0x4000_0000_0000_0000);
    TameNext(62, 0x4000_0000_0000_0000, SIGN);
  }

  lemma LastPowers()
    ensures Plus(0x1000_0000_0000_0000, 0x1000_0000_0000_0000) == 0x2000_0000_0000_0000
    ensures Plus(0x2000_0000_0000_0000, 0x2000_0000_0000_0000) == 0x4000_0000_0000_0000
    ensures Plus(0x4000_0000_0000_0000, 0x4000_0000_0000_0000) == SIGN
  {
  }

  lemma TameZero()
    ensures Tame(0) && Power(0) == 1
  {
  }

  lemma PowTop()
    ensures Pow2(63) == TOP
  {
    PowFour(0, 1);
    PowFour(4, 0x10);
    PowFour(8, 0x100);
    PowFour(12, 0x1000);
    PowFour(16, 0x1_0000);
    PowFour(20, 0x10_0000);
    PowFour(24, 0x100_0000);
    PowFour(28, 0x1000_0000);
    PowFour(32, 0x1_0000_0000);
    PowFour(36, 0x10_0000_0000);
    PowFour(40, 0x100_0000_0000);
    PowFour(44, 0x1000_0000_0000);
    PowFour(48, 0x1_0000_0000_0000);
    PowFour(52, 0x10_0000_0000_0000);
    PowFour(56, 0x100_0000_0000_0000);
    assert Pow2(61) == 2 * Pow2(60);
    assert Pow2(62) == 2 * Pow2(61);
    assert Pow2(63) == 2 * Pow2(62);
  }

  lemma PowFour(n: nat, v: nat)
    requires Pow2(n) == v
    ensures Pow2(n + 4) == 16 * v
  {
    assert Pow2(n + 1) == 2 * v;
    assert Pow2(n + 2) == 4 * v;
    assert Pow2(n + 3) == 8 * v;
  }

  lemma UpTops()
    ensures Up(TOP) == SIGN && Up(2 * TOP) == 0
  {
    hide Up, Plus, Power, Tame, Pow2;
    TameTop();
    PowTop();
    PowerIsUp(63);
    UpAdds(TOP, TOP);
    TwoTops();
  }

  lemma TwoTops()
    ensures Plus(SIGN, SIGN) == 0
  {
  }

  // ----- the sign -----

  lemma DoubledBelow(c: Cell, b: Cell, p: Cell)
    requires Below(c, p) && b <= 1 && Small(p)
    ensures Below(Plus(c + c, b), p + p)
  {
  }

  lemma BitBelow(c: Cell, b: nat, p: Cell)
    requires Below(c, p) && b <= 1 && Small(p)
    ensures Below(Plus(Plus(c, c), Bit(b)), Plus(p, p))
  {
    hide Plus, Below, Small, Bit;
    UpZero();
    PlusIs(c, c);
    PlusIs(p, p);
    DoubledBelow(c, 0, p);
    DoubledBelow(c, 1, p);
  }

  lemma {:induction false} UpBelow(x: nat, n: nat)
    requires Tame(n) && x < Pow2(n)
    ensures Below(Up(x), Power(n))
    decreases n
  {
    hide Plus, Bit, Up, Below, Small;
    if n == 0 {
      UpZero();
      ZeroBelow();
    } else {
      UpBelow(x / 2, n - 1);
      Doubled(x / 2, x % 2);
      BitBelow(Up(x / 2), x % 2, Power(n - 1));
    }
  }

  lemma ZeroBelow()
    ensures Below(0, 1)
  {
  }

  /** The cell that a signed number is held in. */
  function FromInt(x: int): Cell
    requires IsSigned(x)
  {
    if x >= 0 then Up(x) else Up(x + 2 * TOP)
  }

  lemma FlipSign(c: Cell)
    requires Below(c, SIGN)
    ensures !Negative(c) && Negative(Plus(c, SIGN))
  {
  }

  /** Its sign bit is its sign. */
  lemma SignIs(x: int)
    requires IsSigned(x)
    ensures Negative(FromInt(x)) <==> x < 0
  {
    hide Up, Plus, Below, Negative, Tame, Power, Pow2;
    var y := if x >= 0 then x else x + TOP;
    TameTop();
    PowTop();
    UpBelow(y, 63);
    FlipSign(Up(y));
    UpTops();
    UpAdds(y, TOP);
  }

  /** A number and the same number a turn on are held in one cell. */
  lemma UpTurns(x: nat)
    ensures Up(x + 2 * TOP) == Up(x)
  {
    hide Up, Plus;
    UpTops();
    UpAdds(x, 2 * TOP);
    PlusZero(Up(x));
  }

  /** Cells add as their numbers do, modulo 2^64. */
  lemma SumIs(x: int, y: int)
    requires IsSigned(x) && IsSigned(y)
    ensures FromInt(Wrap(x + y)) == Plus(FromInt(x), FromInt(y))
  {
    hide Up, Plus, Wrap;
    var a, b := if x >= 0 then x else x + 2 * TOP, if y >= 0 then y else y + 2 * TOP;
    WrapNear(x + y);
    UpAdds(a, b);
    if a + b >= 2 * TOP {
      UpTurns(a + b - 2 * TOP);
    }
  }

  // ----- from cells to numbers -----

  function Half(c: Cell): Cell {
    c >> 1
  }

  predicate IsOdd(c: Cell) {
    c & 1 == 1
  }

  lemma HalfLess(c: Cell)
    ensures c != 0 ==> Half(c) < c
    ensures Below(Half(c), SIGN)
  {
  }

  lemma Halves(c: Cell)
    ensures c == Plus(Plus(Half(c), Half(c)), if IsOdd(c) then 1 else 0)
  {
  }

  lemma HalfBelow(c: Cell, p: Cell)
    requires Below(c, Plus(p, p)) && Small(p)
    ensures Below(Half(c), p)
  {
  }

  /** The unsigned reading. */
  function Value(c: Cell): nat
    decreases c
  {
    if c == 0 then 0
    else
      HalfLess(c);
      2 * Value(Half(c)) + if IsOdd(c) then 1 else 0
  }

  /** The bits of a cell, `n` at most, make up its unsigned reading. */
  lemma {:induction false} ValueIs(c: Cell, n: nat)
    requires Tame(n) && Below(c, Power(n))
    ensures Value(c) < Pow2(n) && Up(Value(c)) == c
    decreases n
  {
    hide Up, Plus, Bit, Below, Small, Half, IsOdd;
    UpZero();
    if n == 0 {
      BelowOne(c);
    } else if c != 0 {
      HalfBelow(c, Power(n - 1));
      ValueIs(Half(c), n - 1);
      LastBit(c);
    }
  }

  /** The unsigned reading, from that of all bits but the last. */
  lemma LastBit(c: Cell)
    requires c != 0 && Up(Value(Half(c))) == Half(c)
    ensures Value(c) == 2 * Value(Half(c)) + (if IsOdd(c) then 1 else 0) && Up(Value(c)) == c
  {
    hide Up, Plus, Bit, Half, IsOdd;
    UpZero();
    Halves(c);
    Doubled(Value(Half(c)), if IsOdd(c) then 1 else 0);
  }

  lemma BelowOne(c: Cell)
    requires Below(c, 1)
    ensures c == 0
  {
  }

  lemma ValueInRange(c: Cell)
    ensures Value(c) < 2 * TOP && Up(Value(c)) == c
  {
    hide Up, Power, Tame, Pow2, Plus, Below, Half, IsOdd;
    UpZero();
    TameTop();
    PowTop();
    HalfLess(c);
    ValueIs(Half(c), 63);
    if c != 0 {
      LastBit(c);
    }
  }

  /** The signed reading. */
  function ToInt(c: Cell): (x: int)
    ensures IsSigned(x)
  {
    ValueInRange(c);
    var v := Value(c);
    if v < TOP then v else v - 2 * TOP
  }

  /** Every cell holds its signed reading. */
  lemma ToIntIs(c: Cell)
    ensures FromInt(ToInt(c)) == c
  {
    hide Up, Value;
    ValueInRange(c);
  }

  // ----- unsigned readings -----

  /** How many cells there are. */
  const WHOLE: int := 2 * TOP

  lemma ValueParts(c: Cell)
    ensures Value(c) == 2 * Value(Half(c)) + if IsOdd(c) then 1 else 0
  {
    HalfOfZero();
  }

  lemma HalfOfZero()
    ensures Half(0) == 0 && !IsOdd(0)
  {
  }

  lemma HalfDoubled(c: Cell, b: Cell)
    requires Below(c, SIGN) && b <= 1
    ensures Half(Plus(Plus(c, c), b)) == c && (IsOdd(Plus(Plus(c, c), b)) <==> b == 1)
  {
  }

  lemma BitIs(b: nat)
    requires b <= 1
    ensures Bit(b) <= 1 && (Bit(b) == 1 <==> b == 1)
  {
  }

  /** The numbers below 2^64 and the cells correspond. */
  lemma {:induction false} ValueUp(x: nat)
    requires x < WHOLE
    ensures Value(Up(x)) == x
  {
    hide Up, Plus, Bit, Below, Half, IsOdd, Value, Tame, Power, Pow2;
    UpZero();
    if x == 0 {
      ValueZero();
    } else {
      ValueUp(x / 2);
      Doubled(x / 2, x % 2);
      TameTop();
      PowTop();
      UpBelow(x / 2, 63);
      BitIs(x % 2);
      HalfDoubled(Up(x / 2), Bit(x % 2));
      ValueParts(Up(x));
    }
  }

  lemma ValueZero()
    ensures Value(0) == 0
  {
  }

  lemma {:induction false} ValueWraps(x: nat)
    ensures Value(Up(x)) == x % WHOLE
  {
    hide Up, Value;
    if x < WHOLE {
      ValueUp(x);
    } else {
      ValueWraps(x - WHOLE);
      UpTurns(x - WHOLE);
    }
  }

  /** Cells with one reading are one cell. */
  lemma ValueInjective(a: Cell, b: Cell)
    requires Value(a) == Value(b)
    ensures a == b
  {
    hide Up, Value;
    ValueInRange(a);
    ValueInRange(b);
  }

  /** Addition is addition modulo 2^64. */
  lemma PlusValue(a: Cell, b: Cell)
    ensures Value(Plus(a, b)) == (Value(a) + Value(b)) % WHOLE
  {
    hide Up, Value, Plus;
    ValueInRange(a);
    ValueInRange(b);
    UpAdds(Value(a), Value(b));
    ValueWraps(Value(a) + Value(b));
  }

  lemma HalvesBelow(a: Cell, b: Cell)
    requires Below(Half(a), Half(b))
    ensures Below(a, b) && !Below(b, a)
  {
  }

  lemma LastBitBelow(h: Cell)
    requires Below(h, SIGN)
    ensures Below(Plus(Plus(h, h), 0), Plus(Plus(h, h), 1)) && !Below(Plus(Plus(h, h), 1), Plus(Plus(h, h), 0))
  {
  }

  lemma HalvesSame(a: Cell, b: Cell)
    requires Half(a) == Half(b)
    ensures Below(a, b) <==> !IsOdd(a) && IsOdd(b)
  {
    hide Below, Half, IsOdd, Plus;
    Halves(a);
    Halves(b);
    HalfLess(a);
    LastBitBelow(Half(a));
    NothingBelow(a);
  }

  /** The unsigned order of cells is that of their readings. */
  lemma {:induction false} BelowIs(a: Cell, b: Cell)
    ensures Below(a, b) <==> Value(a) < Value(b)
    decreases Value(a) + Value(b)
  {
    hide Value, Below, Half, IsOdd;
    ValueParts(a);
    ValueParts(b);
    if Value(a) == 0 && Value(b) == 0 {
      ValueInjective(a, b);
      NothingBelow(a);
    } else {
      BelowIs(Half(a), Half(b));
      BelowIs(Half(b), Half(a));
      if Below(Half(a), Half(b)) {
        HalvesBelow(a, b);
      } else if Below(Half(b), Half(a)) {
        HalvesBelow(b, a);
      } else {
        ValueInjective(Half(a), Half(b));
        HalvesSame(a, b);
      }
    }
  }

  lemma NothingBelow(a: Cell)
    ensures !Below(a, a)
  {
  }

  /** The sign bit is set from 2^63 up. */
  lemma NegativeIs(c: Cell)
    ensures Negative(c) <==> ToInt(c) < 0
    ensures Negative(c) <==> Value(c) >= TOP
  {
    hide Value, Negative, FromInt;
    ValueInRange(c);
    ToIntIs(c);
    SignIs(ToInt(c));
  }

  /** The signed order of cells is that of their signed readings. */
  lemma SignedLessIs(a: Cell, b: Cell)
    ensures SignedLess(a, b) <==> ToInt(a) < ToInt(b)
  {
    hide Value, Negative, ToInt;
    SignedLessForm(a, b);
    NegativeIs(a);
    NegativeIs(b);
    BelowIs(a, b);
    ToIntForm(a);
    ToIntForm(b);
  }

  lemma SignedLessForm(a: Cell, b: Cell)
    ensures SignedLess(a, b) <==> if Negative(a) == Negative(b) then Below(a, b) else Negative(a)
  {
    hide Negative;
  }

  lemma ToIntForm(c: Cell)
    ensures ToInt(c) == if Value(c) < TOP then Value(c) else Value(c) - WHOLE
  {
    hide Value;
  }

  /** The signed reading of a cell whose unsigned one is known modulo 2^64. */
  lemma ToIntWraps(c: Cell, x: int)
    requires Value(c) == x % WHOLE
    ensures ToInt(c) == Wrap(x)
  {
    hide Value, ToInt;
    ToIntForm(c);
  }

  lemma OneIs()
    ensures ToInt(1) == 1
  {
    ValueInRange(1);
  }
}
