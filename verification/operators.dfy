/** What the operators of the tokens compute, in numbers: the signed and unsigned readings of
    the cells. */
module Operators {
  import opened Cells
  import opened Signed
  import opened Tokens

  // ----- shifts by one -----

  function Shl(a: Cell, k: Cell): Cell
    requires k < 64
  {
    a << k
  }

  lemma ShrLow(a: Cell, k: Cell)
    requires k < 16
    ensures Shr(a, k + 1) == Half(Shr(a, k))
  {
  }

  lemma ShrMiddle(a: Cell, k: Cell)
    requires 16 <= k < 32
    ensures Shr(a, k + 1) == Half(Shr(a, k))
  {
  }

  lemma ShrHigh(a: Cell, k: Cell)
    requires 32 <= k < 63
    ensures Shr(a, k + 1) == Half(Shr(a, k))
  {
  }

  lemma ShlMore(a: Cell, k: Cell)
    requires k < 63
    ensures Shl(a, k + 1) == Plus(Shl(a, k), Shl(a, k))
  {
    ShiftStep(a, k);
    TwiceIs(a << k);
  }

  lemma TwiceIs(a: Cell)
    ensures a * 2 == Plus(a, a)
  {
  }

  lemma ShiftNone(a: Cell)
    ensures Shl(a, 0) == a && Shr(a, 0) == a
  {
  }

  lemma CountBefore(k: Cell)
    requires 0 < k < 64
    ensures k - 1 < 63 && k == (k - 1) + 1 && k == Plus(k - 1, 1)
    ensures k - 1 < 16 || 16 <= k - 1 < 32 || 32 <= k - 1 < 63
  {
  }

  /** A count and the one before it. */
  lemma CountValue(k: Cell)
    requires 0 < k < 64
    ensures Value(k) == Value(k - 1) + 1
  {
    hide Value, Plus;
    CountBefore(k);
    PlusValue(k - 1, 1);
    OneValue();
    ValueInRange(k - 1);
    if Value(k) == 0 {
      ValueZero();
      ValueInjective(k, 0);
    }
  }

  lemma OneValue()
    ensures Value(1) == 1
  {
    ValueParts(1);
  }

  lemma {:induction false} ShrValue(a: Cell, k: Cell)
    requires k < 64
    ensures Value(Shr(a, k)) == Value(a) / Pow2(Value(k))
    decreases k
  {
    hide Value, Shr, Half, IsOdd, Pow2;
    if k == 0 {
      ShiftNone(a);
      ValueZero();
      PowZero();
    } else {
      CountBefore(k);
      CountValue(k);
      ShrValue(a, k - 1);
      if k - 1 < 16 {
        ShrLow(a, k - 1);
      } else if k - 1 < 32 {
        ShrMiddle(a, k - 1);
      } else {
        ShrHigh(a, k - 1);
      }
      ValueParts(Shr(a, k - 1));
      PowNext(Value(k - 1));
      HalfQuotient(Value(a), Pow2(Value(k - 1)));
    }
  }

  lemma PowZero()
    ensures Pow2(0) == 1
  {
  }

  lemma PowNext(n: nat)
    ensures Pow2(n + 1) == 2 * Pow2(n)
  {
  }

  lemma HalfQuotient(v: int, p: nat)
    requires p > 0
    ensures v / p / 2 == v / (2 * p)
  {
    var q := v / p / 2;
    var r := v - q * (2 * p);
    assert v == (v / p) * p + v % p;
    assert v / p == 2 * q + v / p % 2;
    RestIs(v, p, q, v / p % 2, v % p);
    QuotientIs(v, 2 * p, q, r);
  }

  lemma RestIs(v: int, p: nat, q: int, b: nat, m: nat)
    requires v == (2 * q + b) * p + m && b <= 1 && m < p
    ensures 0 <= v - q * (2 * p) < 2 * p
  {
    assert (2 * q + b) * p == q * (2 * p) + b * p;
    assert b == 0 || b == 1;
  }

  lemma QuotientIs(v: int, d: int, q: int, r: int)
    requires d > 0 && 0 <= r < d && v == q * d + r
    ensures v / d == q
  {
    var q' := v / d;
    var r' := v % d;
    assert v == q' * d + r';
    if q' > q {
      Apart(d, q' - q);
    } else if q' < q {
      Apart(d, q - q');
    }
    assert (q' - q) * d == q' * d - q * d;
  }

  lemma Apart(d: int, k: int)
    requires d > 0 && k >= 1
    ensures k * d >= d
  {
  }

  lemma {:induction false} ShlValue(a: Cell, k: Cell)
    requires k < 64
    ensures Value(Shl(a, k)) == Value(a) * Pow2(Value(k)) % WHOLE
    decreases k
  {
    hide Value, Shl, Pow2, Plus;
    if k == 0 {
      ShiftNone(a);
      ValueZero();
      PowZero();
      ValueInRange(a);
    } else {
      CountBefore(k);
      CountValue(k);
      ShlValue(a, k - 1);
      ShlMore(a, k - 1);
      PlusValue(Shl(a, k - 1), Shl(a, k - 1));
      PowNext(Value(k - 1));
      TwiceWraps(Value(a) * Pow2(Value(k - 1)));
      ProductTwice(Value(a), Pow2(Value(k - 1)));
    }
  }

  lemma ProductTwice(x: int, p: int)
    ensures x * (2 * p) == 2 * (x * p)
  {
  }

  lemma TwiceWraps(x: int)
    ensures (x % WHOLE + x % WHOLE) % WHOLE == 2 * x % WHOLE
  {
    var q := x / WHOLE;
    assert x == q * WHOLE + x % WHOLE;
    TurnsWrap(2 * x, 2 * q);
  }

  // ----- complement, difference and product -----

  lemma NotSum(a: Cell)
    ensures Plus(a, Not(a)) == ALL_ONES
  {
  }

  lemma OnesAndOne()
    ensures Plus(ALL_ONES, 1) == 0
  {
  }

  lemma OnesValue()
    ensures Value(ALL_ONES) == WHOLE - 1
  {
    hide Value, Plus;
    OnesAndOne();
    PlusValue(ALL_ONES, 1);
    OneValue();
    ValueZero();
    ValueInRange(ALL_ONES);
  }

  lemma NotValue(a: Cell)
    ensures Value(Not(a)) == WHOLE - 1 - Value(a)
  {
    hide Value, Plus, Not;
    NotSum(a);
    PlusValue(a, Not(a));
    OnesValue();
    ValueInRange(a);
    ValueInRange(Not(a));
  }

  lemma SubIsMinus(a: Cell, b: Cell)
    ensures Sub.Eval(a, b) == a - b
  {
  }

  lemma MinusPlus(a: Cell, b: Cell)
    ensures Plus(a - b, b) == a
  {
  }

  lemma DifferenceSum(a: Cell, b: Cell)
    ensures Plus(Sub.Eval(a, b), b) == a
  {
    hide Plus, AluOp.Eval;
    SubIsMinus(a, b);
    MinusPlus(a, b);
  }

  lemma DifferenceWraps(v: int, w: int, c: int)
    requires 0 <= v < WHOLE && 0 <= c < WHOLE && v == (c + w) % WHOLE
    ensures c == (v - w) % WHOLE
  {
  }

  lemma DifferenceValue(a: Cell, b: Cell)
    ensures Value(Sub.Eval(a, b)) == (Value(a) - Value(b)) % WHOLE
  {
    hide Value, Plus, AluOp.Eval;
    var c := Sub.Eval(a, b);
    DifferenceSum(a, b);
    PlusValue(c, b);
    ValueInRange(a);
    ValueInRange(b);
    ValueInRange(c);
    DifferenceWraps(Value(a), Value(b), Value(c));
  }

  lemma TimesSum(a: Cell, h: Cell)
    ensures Times(a, h + h) == Plus(a * h, a * h)
  {
  }

  lemma TimesTwice(a: Cell, h: Cell)
    ensures Times(a, Plus(h, h)) == Plus(Times(a, h), Times(a, h))
  {
    hide Times, Plus;
    PlusIs(h, h);
    TimesIs(a, h);
    TimesSum(a, h);
  }

  lemma TimesOneMore(a: Cell, b: Cell)
    ensures Times(a, b + 1) == Plus(a * b, a)
  {
  }

  lemma TimesNext(a: Cell, b: Cell)
    ensures Times(a, Plus(b, 1)) == Plus(Times(a, b), a)
  {
    hide Times, Plus;
    PlusIs(b, 1);
    TimesIs(a, b);
    TimesOneMore(a, b);
  }

  lemma TimesNothing(a: Cell)
    ensures Times(a, 0) == 0
  {
  }

  function Product(x: int, y: int): int {
    x * y
  }

  lemma ProductZero(x: int)
    ensures Product(x, 0) == 0
  {
  }

  lemma {:induction false} TimesValue(a: Cell, b: Cell)
    ensures Value(Times(a, b)) == Product(Value(a), Value(b)) % WHOLE
    decreases Value(b)
  {
    hide Value, Plus, Times, Half, IsOdd, Product;
    ValueParts(b);
    if Value(b) == 0 {
      ValueZero();
      ValueInjective(b, 0);
      TimesNothing(a);
      ProductZero(Value(a));
    } else {
      var h := Half(b);
      TimesValue(a, h);
      Halves(b);
      PlusZero(Plus(h, h));
      TimesTwice(a, h);
      TimesNext(a, Plus(h, h));
      PlusValue(Times(a, h), Times(a, h));
      PlusValue(Plus(Times(a, h), Times(a, h)), a);
      PartsTimes(Value(a), Value(h), if IsOdd(b) then 1 else 0, Value(b), Value(Times(a, h)));
    }
  }

  lemma ProductParts(x: int, h: int)
    ensures Product(x, 2 * h) == 2 * Product(x, h)
    ensures Product(x, 2 * h + 1) == 2 * Product(x, h) + x
  {
  }

  /** The product with a number, from that with its half `h`. */
  lemma PartsTimes(x: int, h: int, i: int, y: int, v: int)
    requires 0 <= i <= 1 && y == 2 * h + i && v == Product(x, h) % WHOLE
    ensures Product(x, y) % WHOLE == if i == 0 then (v + v) % WHOLE else ((v + v) % WHOLE + x) % WHOLE
  {
    hide Product;
    ProductParts(x, h);
    if i == 0 {
      PartsWrap(Product(x, h), 0);
    } else {
      PartsWrap(Product(x, h), x);
    }
  }

  lemma PartsWrap(y: int, z: int)
    ensures ((y % WHOLE + y % WHOLE) % WHOLE + z) % WHOLE == (2 * y + z) % WHOLE
  {
    var q := y / WHOLE;
    assert y == q * WHOLE + y % WHOLE;
    var u := 2 * (y % WHOLE);
    var r := u / WHOLE;
    assert u == r * WHOLE + u % WHOLE;
    TurnsWrap(2 * y + z, 2 * q + r);
  }

  // ----- the binary operators -----

  lemma AddIsPlus(a: Cell, b: Cell)
    ensures Add.Eval(a, b) == Plus(a, b)
  {
  }

  lemma MulIsTimes(a: Cell, b: Cell)
    ensures Mul.Eval(a, b) == Times(a, b)
  {
    hide Times;
  }

  lemma AddIs(a: Cell, b: Cell)
    ensures ToInt(Add.Eval(a, b)) == Wrap(ToInt(a) + ToInt(b))
  {
    hide Value, ToInt, Wrap, AluOp.Eval, Plus;
    ToIntForm(a);
    ToIntForm(b);
    AddIsPlus(a, b);
    PlusValue(a, b);
    SumsWrap(Value(a), Value(b), ToInt(a), ToInt(b));
    ToIntWraps(Add.Eval(a, b), ToInt(a) + ToInt(b));
  }

  lemma SumsWrap(v: int, w: int, x: int, y: int)
    requires (x == v || x == v - WHOLE) && (y == w || y == w - WHOLE)
    ensures (x + y) % WHOLE == (v + w) % WHOLE && (x - y) % WHOLE == (v - w) % WHOLE
  {
    TurnsWrap(v + w, (if x == v then 0 else 1) + if y == w then 0 else 1);
    TurnsWrap(v - w, (if x == v then 0 else 1) - if y == w then 0 else 1);
  }

  lemma SubIs(a: Cell, b: Cell)
    ensures ToInt(Sub.Eval(a, b)) == Wrap(ToInt(a) - ToInt(b))
  {
    hide Value, ToInt, Wrap, AluOp.Eval;
    ToIntForm(a);
    ToIntForm(b);
    DifferenceValue(a, b);
    SumsWrap(Value(a), Value(b), ToInt(a), ToInt(b));
    ToIntWraps(Sub.Eval(a, b), ToInt(a) - ToInt(b));
  }

  lemma MulIs(a: Cell, b: Cell)
    ensures ToInt(Mul.Eval(a, b)) == Wrap(ToInt(a) * ToInt(b))
  {
    hide Value, ToInt, Wrap, AluOp.Eval, Times;
    ToIntForm(a);
    ToIntForm(b);
    MulIsTimes(a, b);
    TimesValue(a, b);
    ProductsWrap(Value(a), Value(b), ToInt(a), ToInt(b));
    ToIntWraps(Mul.Eval(a, b), ToInt(a) * ToInt(b));
  }

  lemma ProductsWrap(v: int, w: int, x: int, y: int)
    requires x == v || x == v - WHOLE
    requires y == w || y == w - WHOLE
    ensures x * y % WHOLE == Product(v, w) % WHOLE
  {
    var s, t := if x == v then 0 else 1, if y == w then 0 else 1;
    assert x * y == v * w - (s * w + t * v - s * t * WHOLE) * WHOLE;
    TurnsWrap(v * w, s * w + t * v - s * t * WHOLE);
  }

  lemma TurnsWrap(x: int, k: int)
    ensures (x - k * WHOLE) % WHOLE == x % WHOLE
  {
  }

  /** Bit `i` of a cell. */
  predicate BitAt(c: Cell, i: nat) {
    Value(c) / Pow2(i) % 2 == 1
  }

  lemma BitAtFirst(c: Cell)
    ensures BitAt(c, 0) <==> IsOdd(c)
  {
    hide Value, IsOdd;
    PowZero();
    ValueParts(c);
  }

  lemma BitAtNext(c: Cell, i: nat)
    ensures BitAt(c, i + 1) <==> BitAt(Half(c), i)
  {
    hide Value, IsOdd, Half, Pow2;
    ValueParts(c);
    PowNext(i);
    QuotientHalf(Value(c), Pow2(i));
  }

  lemma QuotientHalf(v: nat, p: nat)
    requires p > 0
    ensures v / (2 * p) == v / 2 / p
  {
    var q := v / 2 / p;
    assert v == 2 * (v / 2) + v % 2;
    assert v / 2 == q * p + v / 2 % p;
    assert q * (2 * p) == 2 * (q * p);
    QuotientIs(v, 2 * p, q, v - q * (2 * p));
  }

  /** The logical operators work bit by bit. */
  lemma {:induction false} BitwiseIs(a: Cell, b: Cell, i: nat)
    ensures BitAt(And.Eval(a, b), i) <==> BitAt(a, i) && BitAt(b, i)
    ensures BitAt(Or.Eval(a, b), i) <==> BitAt(a, i) || BitAt(b, i)
    ensures BitAt(Xor.Eval(a, b), i) <==> BitAt(a, i) != BitAt(b, i)
    decreases i
  {
    hide BitAt, Half, IsOdd, AluOp.Eval;
    if i == 0 {
      BitAtFirst(a);
      BitAtFirst(b);
      BitAtFirst(And.Eval(a, b));
      BitAtFirst(Or.Eval(a, b));
      BitAtFirst(Xor.Eval(a, b));
      LastBits(a, b);
    } else {
      BitwiseIs(Half(a), Half(b), i - 1);
      BitAtNext(a, i - 1);
      BitAtNext(b, i - 1);
      BitAtNext(And.Eval(a, b), i - 1);
      BitAtNext(Or.Eval(a, b), i - 1);
      BitAtNext(Xor.Eval(a, b), i - 1);
      HalfAnd(a, b);
      HalfOr(a, b);
      HalfXor(a, b);
    }
  }

  lemma LastBits(a: Cell, b: Cell)
    ensures IsOdd(And.Eval(a, b)) <==> IsOdd(a) && IsOdd(b)
    ensures IsOdd(Or.Eval(a, b)) <==> IsOdd(a) || IsOdd(b)
    ensures IsOdd(Xor.Eval(a, b)) <==> IsOdd(a) != IsOdd(b)
  {
  }

  lemma HalfAnd(a: Cell, b: Cell)
    ensures Half(And.Eval(a, b)) == And.Eval(Half(a), Half(b))
  {
  }

  lemma HalfOr(a: Cell, b: Cell)
    ensures Half(Or.Eval(a, b)) == Or.Eval(Half(a), Half(b))
  {
  }

  lemma HalfXor(a: Cell, b: Cell)
    ensures Half(Xor.Eval(a, b)) == Xor.Eval(Half(a), Half(b))
  {
  }

  /** `a op b` is `r`, in numbers: sums, differences and products wrap around, the logical
      operators work bit by bit. */
  ghost predicate AluGives(op: AluOp, a: Cell, b: Cell, r: Cell) {
    match op
    case Add => ToInt(r) == Wrap(ToInt(a) + ToInt(b))
    case Sub => ToInt(r) == Wrap(ToInt(a) - ToInt(b))
    case Mul => ToInt(r) == Wrap(ToInt(a) * ToInt(b))
    case And => forall i: nat :: BitAt(r, i) <==> BitAt(a, i) && BitAt(b, i)
    case Or => forall i: nat :: BitAt(r, i) <==> BitAt(a, i) || BitAt(b, i)
    case Xor => forall i: nat :: BitAt(r, i) <==> BitAt(a, i) != BitAt(b, i)
  }

  lemma AluIs(op: AluOp, a: Cell, b: Cell)
    ensures AluGives(op, a, b, op.Eval(a, b))
  {
    hide Value, ToInt, Wrap, AluOp.Eval, BitAt;
    AddIs(a, b);
    SubIs(a, b);
    MulIs(a, b);
    forall i: nat
      ensures op.And? ==> (BitAt(op.Eval(a, b), i) <==> BitAt(a, i) && BitAt(b, i))
      ensures op.Or? ==> (BitAt(op.Eval(a, b), i) <==> BitAt(a, i) || BitAt(b, i))
      ensures op.Xor? ==> (BitAt(op.Eval(a, b), i) <==> BitAt(a, i) != BitAt(b, i))
    {
      BitwiseIs(a, b, i);
    }
  }

  // ----- the shifts -----

  lemma MaskStep(b: Cell, m: Cell, p: nat)
    requires IsOdd(m) && p > 0 && Value(Half(b) & Half(m)) == Value(Half(b)) % p
    ensures Value(b & m) == Value(b) % (2 * p)
  {
    hide Value, IsOdd, Half;
    MaskHalf(b, m);
    ValueParts(b & m);
    ValueParts(b);
    TwiceRest(Value(Half(b)), p, if IsOdd(b) then 1 else 0);
  }

  lemma MaskHalf(b: Cell, m: Cell)
    requires IsOdd(m)
    ensures Half(b & m) == Half(b) & Half(m) && (IsOdd(b & m) <==> IsOdd(b))
  {
    HalfAnd(b, m);
    LastBits(b, m);
  }

  lemma TwiceRest(h: nat, p: nat, i: nat)
    requires p > 0 && i <= 1
    ensures (2 * h + i) % (2 * p) == 2 * (h % p) + i
  {
    assert h == h / p * p + h % p;
    assert h / p * (2 * p) == 2 * (h / p * p);
    RemainderIs(2 * h + i, 2 * p, h / p, 2 * (h % p) + i);
  }

  lemma RemainderIs(v: int, d: int, q: int, r: int)
    requires d > 0 && 0 <= r < d && v == q * d + r
    ensures v % d == r
  {
    QuotientIs(v, d, q, r);
    assert v == v / d * d + v % d;
  }

  lemma MaskNothing(b: Cell)
    ensures b & 0 == 0
  {
  }

  lemma MaskHalves()
    ensures Half(1) == 0 && Half(3) == 1 && Half(7) == 3 && Half(15) == 7 && Half(31) == 15 && Half(63) == 31
    ensures IsOdd(1) && IsOdd(3) && IsOdd(7) && IsOdd(15) && IsOdd(31) && IsOdd(63)
  {
  }

  lemma MaskIs(b: Cell)
    ensures b & 63 < 64 && Value(b & 63) == Value(b) % 64
  {
    hide Value, Half, IsOdd;
    MaskHalves();
    var b1 := Half(b);
    var b2 := Half(b1);
    var b3 := Half(b2);
    var b4 := Half(b3);
    var b5 := Half(b4);
    MaskNothing(Half(b5));
    ValueZero();
    MaskStep(b5, 1, 1);
    MaskStep(b4, 3, 2);
    MaskStep(b3, 7, 4);
    MaskStep(b2, 15, 8);
    MaskStep(b1, 31, 16);
    MaskStep(b, 63, 32);
    MaskSmall(b);
  }

  lemma MaskSmall(b: Cell)
    ensures b & 63 < 64
  {
  }

  /** `a` shifted by `b` is `r`. Left: times 2^n modulo 2^64. Right: divided by 2^n, rounded
      down; the logical shift of the unsigned reading, the arithmetic one of the signed one. */
  predicate ShiftGives(sh: ShiftOp, a: Cell, b: Cell, r: Cell) {
    match sh
    case Lsl => Value(r) == Value(a) * Pow2(Value(b) % 64) % 0x1_0000_0000_0000_0000
    case Lsr => Value(r) == Value(a) / Pow2(Value(b) % 64)
    case Asr => ToInt(r) == ToInt(a) / Pow2(Value(b) % 64)
  }

  lemma ShiftIs(sh: ShiftOp, a: Cell, b: Cell)
    ensures ShiftGives(sh, a, b, sh.Eval(a, b))
  {
    hide Value, ToInt, Pow2, Shl, Shr, ShiftRightArith, ShiftOp.Eval;
    MaskIs(b);
    ShiftForms(a, b);
    ShlValue(a, b & 63);
    ShrValue(a, b & 63);
    ArithIs(a, b & 63);
  }

  lemma ShiftForms(a: Cell, b: Cell)
    requires b & 63 < 64
    ensures Lsl.Eval(a, b) == Shl(a, b & 63) && Lsr.Eval(a, b) == Shr(a, b & 63)
    ensures Asr.Eval(a, b) == ShiftRightArith(a, b & 63)
  {
    hide ShiftRightArith, Shr;
  }

  /** The arithmetic shift rounds towards minus infinity. */
  lemma ArithIs(a: Cell, k: Cell)
    requires k < 64
    ensures ToInt(ShiftRightArith(a, k)) == ToInt(a) / Pow2(Value(k))
  {
    hide Value, ToInt, Pow2, Shr, Negative, ShiftRightArith, Not;
    ArithForm(a, k);
    NegativeIs(a);
    ToIntForm(a);
    var p := Pow2(Value(k));
    if Negative(a) {
      NotValue(a);
      ShrValue(Not(a), k);
      NotValue(Shr(Not(a), k));
      ToIntForm(ShiftRightArith(a, k));
      QuotientSmaller(Value(Not(a)), p);
      FloorNot(ToInt(a), p);
    } else {
      ShrValue(a, k);
      ToIntForm(Shr(a, k));
      QuotientSmaller(Value(a), p);
    }
  }

  lemma ArithForm(a: Cell, k: Cell)
    requires k < 64
    ensures ShiftRightArith(a, k) == if Negative(a) then Not(Shr(Not(a), k)) else Shr(a, k)
  {
    hide Negative, Shr, Not;
  }

  lemma QuotientNatural(v: nat, p: nat)
    requires p > 0
    ensures v / p >= 0
  {
  }

  lemma QuotientSmaller(v: nat, p: nat)
    requires p > 0
    ensures 0 <= v / p <= v
  {
    var q := v / p;
    assert v == q * p + v % p;
    QuotientNatural(v, p);
    Grows(q, p);
  }

  lemma Grows(x: int, p: nat)
    requires p > 0 && x >= 0
    ensures x * p >= x
  {
  }

  lemma FloorNot(x: int, p: int)
    requires p > 0
    ensures -1 - (-1 - x) / p == x / p
  {
    var y := -1 - x;
    var q, r := y / p, y % p;
    assert y == q * p + r;
    assert (-1 - q) * p == -p - q * p;
    QuotientIs(x, p, -1 - q, p - 1 - r);
  }

  // ----- comparison and selection -----

  /** What a comparison says of the numbers in the cells. */
  predicate InOrder(c: CmpOp, a: Cell, b: Cell) {
    match c
    case Eq => ToInt(a) == ToInt(b)
    case Ne => ToInt(a) != ToInt(b)
    case Lt => ToInt(a) < ToInt(b)
    case Gt => ToInt(a) > ToInt(b)
    case Le => ToInt(a) <= ToInt(b)
    case Ge => ToInt(a) >= ToInt(b)
    case ULt => Value(a) < Value(b)
    case UGt => Value(a) > Value(b)
    case ZEq => ToInt(a) == 0
    case ZNe => ToInt(a) != 0
    case ZLt => ToInt(a) < 0
    case ZGt => ToInt(a) > 0
  }

  lemma HoldsIs(c: CmpOp, a: Cell, b: Cell)
    ensures c.Holds(a, b) <==> InOrder(c, a, b)
  {
    hide SignedLess, Below, ToInt, Value;
    SignedLessIs(a, b);
    SignedLessIs(b, a);
    SignedLessIs(a, 0);
    SignedLessIs(0, a);
    BelowIs(a, b);
    BelowIs(b, a);
    SameNumber(a, b);
    SameNumber(a, 0);
    ZeroIs();
  }

  lemma SameNumber(a: Cell, b: Cell)
    ensures a == b <==> ToInt(a) == ToInt(b)
  {
    hide ToInt, FromInt;
    ToIntIs(a);
    ToIntIs(b);
  }

  lemma ZeroIs()
    ensures ToInt(0) == 0
  {
    ValueZero();
    ToIntForm(0);
  }

  /** The flags are 0 and -1. */
  lemma FlagIs(b: bool)
    ensures ToInt(Flag(b)) == if b then -1 else 0
  {
    hide Value;
    ZeroIs();
    OnesValue();
    ToIntForm(ALL_ONES);
  }

  /** Minimum and maximum, signed and unsigned. */
  predicate SelGives(s: SelOp, a: Cell, b: Cell, r: Cell) {
    match s
    case Min => ToInt(r) == if ToInt(a) <= ToInt(b) then ToInt(a) else ToInt(b)
    case Max => ToInt(r) == if ToInt(a) >= ToInt(b) then ToInt(a) else ToInt(b)
    case UMin => Value(r) == if Value(a) <= Value(b) then Value(a) else Value(b)
    case UMax => Value(r) == if Value(a) >= Value(b) then Value(a) else Value(b)
  }

  lemma SelIs(s: SelOp, a: Cell, b: Cell)
    ensures SelGives(s, a, b, s.Eval(a, b))
  {
    hide SignedLess, Below, ToInt, Value;
    SignedLessIs(a, b);
    SignedLessIs(b, a);
    BelowIs(a, b);
    BelowIs(b, a);
  }
}
