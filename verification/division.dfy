/** `um/mod`: a 128-bit dividend divided by a 64-bit divisor, one bit at a time. */
module Division {
  import opened Options

  const W: nat := 0x1_0000_0000_0000_0000
  const HALF: nat := 0x8000_0000_0000_0000

  /** An unsigned cell. */
  type UCell = x: int | 0 <= x < W

  function Pow2(n: nat): (p: nat)
    ensures p > 0
  {
    if n == 0 then 1 else 2 * Pow2(n - 1)
  }

  /** The registers of the loop. */
  datatype Regs = Regs(rem: UCell, quot: UCell, high: UCell, low: UCell)

  /** One turn of the loop. The bit shifted out of the remainder is the carry that makes a
      65-bit remainder at least any divisor. */
  function Turn(r: Regs, u: UCell): Regs {
    var carry := r.rem / HALF;
    var rem := (r.rem * 2 + r.high / HALF) % W;
    var high := (r.high * 2 + r.low / HALF) % W;
    var low := r.low * 2 % W;
    var quot := r.quot * 2 % W;
    var take := carry + if rem >= u then 1 else 0;
    if take == 0 then Regs(rem, quot, high, low)
    else Regs((rem - u) % W, quot + 1, high, low)
  }

  /** `taken` of the dividend has been divided; `rest`, of `bits` bits, is still in the upper
      end of high:low. */
  ghost predicate Divided(r: Regs, u: UCell, dividend: nat, bits: nat, taken: nat, rest: nat) {
    && 0 < u && bits <= 128
    && dividend == taken * Pow2(bits) + rest && rest < Pow2(bits)
    && r.high * W + r.low == rest * Pow2(128 - bits)
    && r.rem == taken % u && r.quot == taken / u % W
  }

  lemma {:induction false} PowSum(a: nat, b: nat)
    ensures Pow2(a) * Pow2(b) == Pow2(a + b)
    decreases a
  {
    if a > 0 {
      PowSum(a - 1, b);
      assert Pow2(a) * Pow2(b) == 2 * (Pow2(a - 1) * Pow2(b));
    }
  }

  lemma PowNext(n: nat)
    ensures Pow2(n + 1) == 2 * Pow2(n)
  {
  }

  lemma PowTwice(n: nat, v: nat)
    requires Pow2(n) == v
    ensures Pow2(2 * n) == v * v
  {
    PowSum(n, n);
  }

  lemma PowValues()
    ensures Pow2(0) == 1 && Pow2(64) == W && Pow2(127) == HALF * W && Pow2(128) == W * W
  {
    PowZero();
    PowNext(0);
    PowTwice(1, 2);
    PowTwice(2, 4);
    PowTwice(4, 16);
    PowTwice(8, 0x100);
    PowTwice(16, 0x1_0000);
    PowTwice(32, 0x1_0000_0000);
    PowTwice(64, W);
    PowNext(127);
  }

  lemma PowZero()
    ensures Pow2(0) == 1
  {
  }

  /** The two halves shifted left, and the bit that falls out. */
  lemma ShiftOut(high: UCell, low: UCell)
    ensures var h, l := (high * 2 + low / HALF) % W, low * 2 % W;
            h * W + l == 2 * (high * W + low) - (high / HALF) * (W * W)
    ensures 0 <= high / HALF <= 1 && (high / HALF == 1 <==> high * W + low >= HALF * W)
  {
  }

  /** The remainder with the next bit, as 65 bits. */
  lemma WideRemainder(rem: UCell, b: int)
    requires 0 <= b <= 1
    ensures 2 * rem + b == (rem / HALF) * W + (rem * 2 + b) % W && 0 <= rem / HALF <= 1
  {
  }

  lemma TwiceTaken(u: int, q: int, r: int, b: int, d: int)
    ensures 2 * (u * q + r) + b == u * (2 * q + d) + (2 * r + b - d * u)
  {
  }

  lemma DivideIs(n: nat, u: nat)
    requires u > 0
    ensures n == u * (n / u) + n % u && 0 <= n % u < u && n / u >= 0
  {
  }

  /** Dividing twice the taken part and one bit more. */
  lemma NextDigit(taken: nat, u: nat, b: nat)
    requires u > 0 && b <= 1
    ensures var wide := 2 * (taken % u) + b;
            (2 * taken + b) % u == (if wide >= u then wide - u else wide)
            && (2 * taken + b) / u == 2 * (taken / u) + if wide >= u then 1 else 0
  {
    DivideIs(taken, u);
    NextDigitOf(taken, u, taken / u, taken % u, b);
  }

  lemma NextDigitOf(taken: nat, u: nat, q: nat, r: nat, b: nat)
    requires r < u && taken == u * q + r && b <= 1
    ensures var wide := 2 * r + b;
            (2 * taken + b) % u == (if wide >= u then wide - u else wide)
            && (2 * taken + b) / u == 2 * q + if wide >= u then 1 else 0
  {
    var d := if 2 * r + b >= u then 1 else 0;
    TwiceTaken(u, q, r, b, d);
    QuotientIs(2 * taken + b, u, 2 * q + d, 2 * r + b - d * u);
  }

  lemma AtLeast(u: int, d: int)
    requires u >= 0
    ensures d >= 1 ==> u * d >= u
    ensures d <= -1 ==> u * d <= -u
  {
  }

  lemma Unique(u: nat, k: int, m: int, q: int, r: int)
    requires u > 0 && 0 <= m < u && 0 <= r < u && u * k + m == u * q + r
    ensures k == q && m == r
  {
    AtLeast(u, q - k);
    assert u * (q - k) == m - r;
  }

  lemma QuotientIs(n: nat, u: nat, q: nat, r: int)
    requires u > 0 && 0 <= r < u && n == u * q + r
    ensures n / u == q && n % u == r
  {
    Unique(u, n / u, n % u, q, r);
  }

  lemma DoubledModulo(x: nat)
    ensures 2 * x % W == 2 * (x % W) % W && 2 * (x % W) % W + 1 < W && (2 * x + 1) % W == 2 * (x % W) % W + 1
  {
  }

  /** Splitting off the next bit of the dividend. */
  lemma NextBit(dividend: nat, half: nat, up: nat, taken: nat, rest: nat, high: UCell, low: UCell)
    requires half > 0 && up > 0 && half * up == HALF * W
    requires dividend == taken * (2 * half) + rest && rest < 2 * half
    requires high * W + low == rest * up
    ensures var b := high / HALF;
            var h, l := (high * 2 + low / HALF) % W, low * 2 % W;
            0 <= b <= 1 && 0 <= rest - b * half < half
            && dividend == (2 * taken + b) * half + (rest - b * half)
            && h * W + l == (rest - b * half) * (2 * up)
  {
    var b := high / HALF;
    ShiftOut(high, low);
    BitIs(rest, half, up, b);
    Distribute(rest, b, half, up);
    Regroup(taken, b, half);
  }

  lemma Regroup(taken: nat, b: int, half: nat)
    ensures (2 * taken + b) * half == taken * (2 * half) + b * half
  {
  }

  /** The bit is set exactly when the rest reaches the upper half of its range. */
  lemma BitIs(rest: nat, half: nat, up: nat, b: int)
    requires up > 0 && (b == 1 <==> rest * up >= half * up) && 0 <= b <= 1
    ensures b == 1 <==> rest >= half
  {
    if rest >= half {
      assert (rest - half) * up >= 0;
    } else {
      assert (half - rest) * up > 0;
    }
  }

  lemma Distribute(rest: nat, b: int, half: nat, up: nat)
    requires 0 <= b <= 1
    ensures (rest - b * half) * (2 * up) == 2 * (rest * up) - b * (2 * (half * up))
  {
    if b == 1 {
      assert (rest - half) * (2 * up) == 2 * (rest * up) - 2 * (half * up);
    }
  }

  lemma TurnDivides(r: Regs, u: UCell, dividend: nat, bits: nat, taken: nat, rest: nat)
    requires Divided(r, u, dividend, bits, taken, rest) && bits > 0
    ensures var b := r.high / HALF;
            var rest' := rest - b * Pow2(bits - 1);
            0 <= b <= 1 && rest' >= 0 && Divided(Turn(r, u), u, dividend, bits - 1, 2 * taken + b, rest')
  {
    hide Pow2;
    var b := r.high / HALF;
    var half, up := Pow2(bits - 1), Pow2(128 - bits);
    PowValues();
    PowNext(bits - 1);
    PowNext(128 - bits);
    PowSum(bits - 1, 128 - bits);
    NextBit(dividend, half, up, taken, rest, r.high, r.low);
    TurnRemainder(r, u, taken, b);
  }

  /** Remainder and quotient of the dividend taken so far and one bit more. */
  lemma TurnRemainder(r: Regs, u: UCell, taken: nat, b: int)
    requires u > 0 && b == r.high / HALF && r.rem == taken % u && r.quot == taken / u % W
    ensures 0 <= b <= 1 && 2 * taken + b >= 0
    ensures Turn(r, u).rem == (2 * taken + b) % u && Turn(r, u).quot == (2 * taken + b) / u % W
  {
    hide Turn;
    TurnIs(r, u, taken / u, b);
    NextDigit(taken, u, b);
  }

  lemma TurnIs(r: Regs, u: UCell, q: nat, b: int)
    requires 0 <= r.rem < u && b == r.high / HALF && r.quot == q % W
    ensures 0 <= b <= 1
    ensures var wide := 2 * r.rem + b;
            Turn(r, u).rem == (if wide >= u then wide - u else wide)
            && Turn(r, u).quot == (2 * q + if wide >= u then 1 else 0) % W
  {
    DoubledModulo(q);
    TakeIs(r.rem, u, b);
    WideRemainder(r.rem, b);
  }

  /** The test of the loop decides whether the 65-bit remainder reaches the divisor. */
  lemma TakeIs(rem: UCell, u: UCell, b: int)
    requires 0 <= b <= 1 && rem < u
    ensures var r := (rem * 2 + b) % W;
            (rem / HALF + (if r >= u then 1 else 0) != 0 <==> 2 * rem + b >= u)
            && (2 * rem + b >= u ==> (r - u) % W == 2 * rem + b - u)
  {
    WideRemainder(rem, b);
  }

  /** `None` is the throw on a zero divisor. */
  method UmSlashMod(low: UCell, high: UCell, u: UCell) returns (r: Option<(UCell, UCell)>)
    ensures r.None? <==> u == 0
    ensures u != 0 ==> r == Some(((high * W + low) % u, (high * W + low) / u % W))
  {
    hide Pow2, Turn;
    if u == 0 {
      return None;
    }
    ghost var dividend := high * W + low;
    var regs := Regs(0, 0, high, low);
    PowValues();
    ghost var taken: nat, rest: nat := 0, dividend;
    var count := 128;
    while count > 0
      invariant 0 <= count <= 128
      invariant Divided(regs, u, dividend, count, taken, rest)
    {
      TurnDivides(regs, u, dividend, count, taken, rest);
      ghost var b := regs.high / HALF;
      taken, rest := 2 * taken + b, rest - b * Pow2(count - 1);
      regs := Turn(regs, u);
      count := count - 1;
    }
    PowZero();
    r := Some((regs.rem, regs.quot));
  }
}
