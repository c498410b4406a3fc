/** Numbers as text: pictured output writes digits downwards into the hold buffer, and
    `>number` reads them back into a double cell. */
module Numbers {
  import opened Options
  import opened Division
  import Operators

  type Char = c: int | 0 <= c < 256

  // ----- single digits -----

  /** `dup 9 > if 7 + then 48 +`, as the byte that is held; the comparison is signed. */
  function DigitChar(r: nat): Char {
    ((if 9 < r < HALF then r + 7 else r) + 48) % 256
  }

  /** Clear bit 5 of a byte. */
  function FoldCase(c: Char): Char {
    if c / 32 % 2 == 1 then c - 32 else c
  }

  /** The value of a character as a digit of `base`. */
  function DigitValue(c: Char, base: UCell): Option<nat> {
    if c < 0x30 then None
    else
      var d := if c <= 0x39 then c - 0x30 else FoldCase(c) - 7 - 0x30;
      if (c > 0x39 && FoldCase(c) < 0x41) || d >= base then None else Some(d)
  }

  /** Character `c` stands for the digit `d`: 0 to 9, then letters of either case and what
      follows them, bit 5 telling the case. */
  predicate IsDigit(c: Char, d: nat) {
    || (0x30 <= c <= 0x39 && c == 0x30 + d)
    || (0x41 <= c && c / 32 % 2 == 0 && c == 0x37 + d)
    || (0x61 <= c && c / 32 % 2 == 1 && c == 0x57 + d)
  }

  /** A character is a digit of a base if and only if it stands for a number below the base. */
  lemma DigitIs(c: Char, base: UCell, d: nat)
    ensures DigitValue(c, base) == Some(d) <==> IsDigit(c, d) && d < base
  {
  }

  /** Up to base 36 these are 0 to 9, A to Z and a to z. */
  lemma DigitLetters(c: Char, base: UCell, d: nat)
    requires base <= 36
    ensures DigitValue(c, base) == Some(d)
       <==> d < base && if d < 10 then c == '0' as int + d
                        else c == 'A' as int + d - 10 || c == 'a' as int + d - 10
  {
    DigitIs(c, base, d);
  }

  /** The digits written are 0 to 9 and A to Z. */
  lemma DigitCharIs(d: nat)
    requires d < 36
    ensures DigitChar(d) == if d < 10 then '0' as int + d else 'A' as int + d - 10
  {
  }

  lemma DigitReadsBack(d: nat, base: UCell)
    requires d < base <= 36
    ensures DigitValue(DigitChar(d), base) == Some(d)
  {
  }

  // ----- double cells -----

  function Double(lo: UCell, hi: UCell): (d: nat)
    ensures d < W * W
  {
    hi * W + lo
  }

  // ----- pictured output -----

  /** The digits of `v`, most significant first; at least one. */
  function Digits(v: nat, base: nat): (s: seq<Char>)
    requires base >= 2
    ensures s != []
  {
    if v < base then [DigitChar(v)] else Shrinks(v, base); Digits(v / base, base) + [DigitChar(v % base)]
  }

  /** What `#s` writes: in base 0 every digit and quotient is zero. */
  function Written(v: nat, base: nat): (s: seq<Char>)
    requires base == 1 ==> v == 0
    ensures s != []
  {
    if base < 2 then [DigitChar(0)] else Digits(v, base)
  }

  lemma Shrinks(v: nat, base: nat)
    requires 2 <= base <= v
    ensures 0 <= v / base < v
  {
    ProductGrows(base, v / base, v);
  }

  lemma ProductGrows(b: int, x: int, p: int)
    ensures b >= 2 && x >= p >= 0 ==> b * x >= 2 * p
    ensures b >= 1 && x >= 0 ==> b * x >= x
  {
  }

  lemma QuotientShrinks(v: nat, base: nat, p: nat)
    requires base >= 2 && v < 2 * p
    ensures v / base < p
  {
    ProductGrows(base, v / base, p);
  }

  /** In any base a number of `n` bits has at most `n` digits. */
  lemma {:induction false} FewDigits(v: nat, base: nat, n: nat)
    requires base >= 2 && v < Pow2(n) && n >= 1
    ensures |Digits(v, base)| <= n
    decreases n
  {
    hide Pow2;
    PowZero();
    PowNext(0);
    if v >= base && n > 1 {
      PowNext(n - 1);
      QuotientShrinks(v, base, Pow2(n - 1));
      FewDigits(v / base, base, n - 1);
    }
  }

  /** The buffer that numbers are written into, from its end downwards. */
  class HoldBuffer {
    const buf: array<Char>
    var hold: nat

    ghost predicate Valid()
      reads this
    {
      hold <= buf.Length
    }

    ghost function Contents(): seq<Char>
      requires Valid()
      reads this, buf
    {
      buf[hold..]
    }

    constructor (size: nat)
      ensures Valid() && buf.Length == size && fresh(buf) && hold == size
    {
      buf := new Char[size];
      hold := size;
    }

    /** `<#` */
    method PicStart()
      modifies this`hold
      ensures Valid() && Contents() == [] && hold == buf.Length
    {
      hold := buf.Length;
    }

    /** `hold` */
    method Hold(c: Char)
      requires Valid() && hold > 0
      modifies this`hold, buf
      ensures Valid() && hold == old(hold) - 1 && Contents() == [c] + old(Contents())
    {
      hold := hold - 1;
      buf[hold] := c;
      assert buf[hold + 1..] == old(buf[hold..]);
    }

    /** `#`: one digit of the double `lo`, `hi`; the quotient stays a double. */
    method Sharp(lo: UCell, hi: UCell, base: UCell) returns (qlo: UCell, qhi: UCell)
      requires Valid() && hold > 0
      modifies this`hold, buf
      ensures Valid() && hold == old(hold) - 1
      ensures base != 0 ==> Double(qlo, qhi) == Double(lo, hi) / base
                            && Contents() == [DigitChar(Double(lo, hi) % base)] + old(Contents())
      ensures base == 0 ==> (qlo, qhi) == (0, 0) && Contents() == [DigitChar(0)] + old(Contents())
    {
      var rem;
      rem, qlo, qhi := UdMod(lo, hi, base);
      Hold(DigitChar(rem));
    }

    /** `#s`: digits until the quotient is zero; in base 1 it never is. */
    method SharpS(lo: UCell, hi: UCell, base: UCell)
      requires Valid() && (base == 1 ==> Double(lo, hi) == 0) && hold >= |Written(Double(lo, hi), base)|
      modifies this`hold, buf
      ensures Valid() && Contents() == Written(Double(lo, hi), base) + old(Contents())
    {
      hide Written, Double, DigitChar, LastChar;
      ghost var v := Double(lo, hi);
      var qlo: UCell, qhi: UCell := lo, hi;
      ghost var done: seq<Char> := [];
      while true
        invariant Valid() && (base == 1 ==> Double(qlo, qhi) == 0)
        invariant hold >= |Written(Double(qlo, qhi), base)|
        invariant Contents() == done + old(Contents())
        invariant Written(Double(qlo, qhi), base) + done == Written(v, base)
        decreases Double(qlo, qhi)
      {
        ghost var was := Double(qlo, qhi);
        ghost var c := LastChar(was, base);
        CharIs(was, base);
        qlo, qhi := Sharp(qlo, qhi, base);
        AppendAssoc([c], done, old(Contents()));
        ZeroDouble(qlo, qhi);
        if qlo == 0 && qhi == 0 {
          LastDigit(was, base);
          return;
        }
        MoreDigits(was, base);
        AppendAssoc(Written(was / base, base), [c], done);
        done := [c] + done;
      }
    }

    /** `#>` */
    method PicEnd() returns (s: seq<Char>)
      requires Valid()
      ensures s == Contents()
    {
      s := buf[hold..];
    }
  }

  function LastChar(v: nat, base: nat): Char {
    DigitChar(if base == 0 then 0 else v % base)
  }

  lemma CharIs(v: nat, base: nat)
    ensures base == 0 ==> LastChar(v, base) == DigitChar(0)
    ensures base != 0 ==> LastChar(v, base) == DigitChar(v % base)
  {
  }

  lemma AppendAssoc(a: seq<Char>, b: seq<Char>, c: seq<Char>)
    ensures (a + b) + c == a + (b + c)
  {
  }

  lemma LastDigit(v: nat, base: nat)
    requires base == 0 || v / base == 0
    ensures base == 1 ==> v == 0
    ensures Written(v, base) == [LastChar(v, base)]
  {
    hide DigitChar;
  }

  lemma MoreDigits(v: nat, base: nat)
    requires base != 0 && v / base != 0 && (base == 1 ==> v == 0)
    ensures base >= 2 && v >= base && v / base < v
    ensures Written(v, base) == Written(v / base, base) + [LastChar(v, base)]
  {
    hide DigitChar;
    ProductGrows(base, v / base, v);
  }

  /** The 128-bit division behind `#`: a zero divisor gives zeros. */
  method UdMod(lo: UCell, hi: UCell, u: UCell) returns (rem: UCell, qlo: UCell, qhi: UCell)
    ensures u == 0 ==> (rem, qlo, qhi) == (0, 0, 0)
    ensures u != 0 ==> rem == Double(lo, hi) % u && Double(qlo, qhi) == Double(lo, hi) / u
  {
    var ud := Double(lo, hi);
    if u == 0 {
      return 0, 0, 0;
    }
    var q := ud / u;
    QuotientFits(ud, u);
    HalvesOf(q);
    rem, qlo, qhi := ud % u, q % W, q / W % W;
  }

  lemma QuotientFits(v: nat, u: nat)
    requires u >= 1
    ensures 0 <= v / u <= v
  {
    ProductGrows(u, v / u, 0);
  }

  lemma HalvesOf(q: int)
    requires 0 <= q < W * W
    ensures q / W < W && q / W % W == q / W && (q / W) * W + q % W == q
  {
  }

  // ----- reading -----

  /** The double accumulator times `base` plus a digit, as the machine computes it. */
  function Accumulate(lo: UCell, hi: UCell, base: UCell, digit: UCell): (r: (UCell, UCell))
    ensures Double(r.0, r.1) == (Double(lo, hi) * base + digit) % (W * W)
  {
    AccumulateIs(lo, hi, base, digit);
    var low := LowHalf(lo, base) + digit;
    var high := Middle(lo, hi, base) + if low >= W then 1 else 0;
    (low % W, high % W)
  }

  /** `mul` of the low half. */
  function LowHalf(lo: UCell, base: UCell): UCell {
    lo * base % W
  }

  /** `mul` of the high half plus `umulh` of the low half. */
  function Middle(lo: UCell, hi: UCell, base: UCell): UCell {
    HighHalf(lo, base);
    (hi * base % W + lo * base / W) % W
  }

  lemma ProductBelow(a: int, b: int, m: int, n: int)
    requires 0 <= a < m && 0 <= b < n
    ensures 0 <= a * b < m * n
  {
    assert a * b <= a * n;
    assert a * n <= (m - 1) * n;
  }

  lemma QuotientBelow(x: int)
    requires 0 <= x < W * W
    ensures 0 <= x / W < W
  {
  }

  lemma HighHalf(lo: UCell, base: UCell)
    ensures 0 <= lo * base / W < W
  {
    ProductBelow(lo, base, W, W);
    QuotientBelow(lo * base);
  }

  lemma AccumulateIs(lo: UCell, hi: UCell, base: UCell, digit: UCell)
    ensures var low := LowHalf(lo, base) + digit;
            var high := Middle(lo, hi, base) + if low >= W then 1 else 0;
            Double(low % W, high % W) == (Double(lo, hi) * base + digit) % (W * W)
  {
    ProductSplits(hi, lo, base);
    NotNegative(hi, base);
    NotNegative(lo, base);
    WrapHalves(hi * base, lo * base, digit);
  }

  lemma NotNegative(a: int, b: int)
    requires a >= 0 && b >= 0
    ensures a * b >= 0
  {
  }

  lemma ProductSplits(hi: int, lo: int, base: int)
    ensures (hi * W + lo) * base == hi * base * W + lo * base
  {
  }

  lemma CarryOnce(l: int)
    requires 0 <= l < 2 * W
    ensures l == (if l >= W then W else 0) + l % W
  {
  }

  lemma SplitHalves(q: int)
    ensures q == q / W * W + q % W && 0 <= q % W < W
  {
  }

  lemma SumModulo(a: int, b: int, c: int)
    ensures ((a % W + b) % W + c) % W == (a + b + c) % W
  {
    SplitHalves(a);
    SplitHalves(a % W + b);
    Shifted(a % W + b + c, a / W);
    Shifted((a % W + b) % W + c, (a % W + b) / W);
  }

  lemma Shifted(x: int, k: int)
    ensures (x + k * W) % W == x % W
  {
  }

  lemma WrapHalves(p: int, q: int, digit: int)
    requires p >= 0 && q >= 0 && 0 <= digit < W
    ensures var c := (p % W + q / W) % W;
            var low := q % W + digit;
            var high := c + if low >= W then 1 else 0;
            (high % W) * W + low % W == (p * W + q + digit) % (W * W)
  {
    SplitHalves(q);
    var low := q % W + digit;
    CarryOnce(low);
    var carry := if low >= W then 1 else 0;
    var s := p + q / W + carry;
    WrapTwo(s, low % W);
    SumModulo(p, q / W, carry);
  }

  lemma WrapTwo(s: int, l: int)
    requires s >= 0 && 0 <= l < W
    ensures (s * W + l) % (W * W) == (s % W) * W + l
  {
    var k := s / W;
    assert s * W + l == k * (W * W) + ((s % W) * W + l);
    ModuloIs(s * W + l, W * W, k, (s % W) * W + l);
  }

  lemma ModuloIs(n: int, m: int, k: int, r: int)
    requires m > 0 && n == m * k + r && 0 <= r < m && n >= 0 && k >= 0
    ensures n % m == r
  {
    QuotientIs(n, m, k, r);
  }

  /** What `>number` does to the double and how many characters it leaves. */
  function Scanned(s: seq<Char>, lo: UCell, hi: UCell, base: UCell): (UCell, UCell, nat)
    decreases |s|
  {
    if s == [] || DigitValue(s[0], base).None? then (lo, hi, |s|)
    else
      var (l, h) := Accumulate(lo, hi, base, DigitValue(s[0], base).value);
      Scanned(s[1..], l, h, base)
  }

  /** The longest start of `s` whose characters are digits stands for `ds`. */
  ghost predicate Reads(s: seq<Char>, base: UCell, ds: seq<nat>) {
    && |ds| <= |s|
    && (forall i | 0 <= i < |ds| :: IsDigit(s[i], ds[i]) && ds[i] < base)
    && (|ds| < |s| ==> forall d: nat :: IsDigit(s[|ds|], d) ==> d >= base)
  }

  /** Digits, most significant first, after the number `acc`. */
  function Horner(ds: seq<nat>, base: nat, acc: nat): nat
    decreases |ds|
  {
    if ds == [] then acc else Horner(ds[1..], base, acc * base + ds[0])
  }

  lemma TurnsAway(x: nat, base: nat, d: nat, m: nat)
    requires m > 0
    ensures (x % m * base + d) % m == (x * base + d) % m
  {
    var q := x / m;
    assert x == q * m + x % m;
    assert (q * m + x % m) * base == q * base * m + x % m * base;
    Turns(x % m * base + d, q * base, m);
  }

  lemma {:induction false} Turns(y: nat, k: nat, m: nat)
    requires m > 0
    ensures (k * m + y) % m == y % m
    decreases k
  {
    if k > 0 {
      Turns(y, k - 1, m);
      OneTurn((k - 1) * m + y, m);
      assert k * m == (k - 1) * m + m;
    }
  }

  lemma OneTurn(x: nat, m: nat)
    requires m > 0
    ensures (x + m) % m == x % m
  {
    var q, r := x / m, x % m;
    assert x + m == (q + 1) * m + r;
    Operators.RemainderIs(x + m, m, q + 1, r);
  }

  lemma {:induction false} HornerWraps(ds: seq<nat>, base: nat, acc: nat, m: nat)
    requires m > 0
    ensures Horner(ds, base, acc % m) % m == Horner(ds, base, acc) % m
    decreases |ds|
  {
    if ds == [] {
      Again(acc, m);
    } else {
      TurnsAway(acc, base, ds[0], m);
      HornerWraps(ds[1..], base, acc % m * base + ds[0], m);
      HornerWraps(ds[1..], base, acc * base + ds[0], m);
    }
  }

  lemma Again(x: nat, m: nat)
    requires m > 0
    ensures x % m % m == x % m
  {
    Operators.RemainderIs(x % m, m, 0, x % m);
  }

  /** A scan takes the longest start that is digits, after the number it is given. */
  lemma {:induction false} ScannedIs(s: seq<Char>, lo: UCell, hi: UCell, base: UCell) returns (ds: seq<nat>)
    ensures Reads(s, base, ds)
    ensures var r := Scanned(s, lo, hi, base);
            Double(r.0, r.1) == Horner(ds, base, Double(lo, hi)) % (W * W) && r.2 == |s| - |ds|
    decreases |s|
  {
    hide Accumulate, Double, IsDigit, DigitValue;
    if s == [] || DigitValue(s[0], base).None? {
      ds := [];
      if s != [] {
        forall d: nat | IsDigit(s[0], d)
          ensures d >= base
        {
          DigitIs(s[0], base, d);
        }
      }
      SmallModulo(Double(lo, hi), W * W);
      assert Horner([], base, Double(lo, hi)) == Double(lo, hi);
    } else {
      var d := DigitValue(s[0], base).value;
      DigitIs(s[0], base, d);
      var (l, h) := Accumulate(lo, hi, base, d);
      AccumulateIs(lo, hi, base, d);
      var rest := ScannedIs(s[1..], l, h, base);
      ds := [d] + rest;
      assert ds[1..] == rest;
      HornerWraps(rest, base, Double(lo, hi) * base + d, W * W);
      forall i | 0 <= i < |ds|
        ensures IsDigit(s[i], ds[i]) && ds[i] < base
      {
        if i > 0 {
          assert s[1..][i - 1] == s[i] && rest[i - 1] == ds[i];
        }
      }
      if |ds| < |s| {
        assert s[1..][|rest|] == s[|ds|];
      }
    }
  }

  /** The same text but for the case of its letters. */
  predicate Recased(s: seq<Char>, t: seq<Char>) {
    |t| == |s|
    && forall i | 0 <= i < |s| :: t[i] == s[i] || ('A' as int <= s[i] <= 'Z' as int && t[i] == s[i] + 32)
  }

  /** Lower-case digits are scanned like upper-case ones. */
  lemma {:induction false} CaseBlind(s: seq<Char>, t: seq<Char>, lo: UCell, hi: UCell, base: UCell)
    requires Recased(s, t)
    ensures Scanned(t, lo, hi, base) == Scanned(s, lo, hi, base)
    decreases |s|
  {
    hide Accumulate, DigitValue;
    if s != [] {
      LetterBlind(s[0], t[0], base);
      assert forall i | 0 <= i < |s| - 1 :: s[1..][i] == s[i + 1] && t[1..][i] == t[i + 1];
      if DigitValue(s[0], base).Some? {
        DigitIs(s[0], base, DigitValue(s[0], base).value);
        var (l, h) := Accumulate(lo, hi, base, DigitValue(s[0], base).value);
        CaseBlind(s[1..], t[1..], l, h, base);
      }
    }
  }

  lemma LetterBlind(c: Char, e: Char, base: UCell)
    requires e == c || ('A' as int <= c <= 'Z' as int && e == c + 32)
    ensures DigitValue(e, base) == DigitValue(c, base)
  {
  }

  /** The digits of a double, in letters of any case, read back as the double. */
  lemma AnyCaseReadsBack(v: nat, base: UCell, t: seq<Char>)
    requires 2 <= base <= 36 && v < W * W && Recased(Digits(v, base), t)
    ensures var r := Scanned(t, 0, 0, base); Double(r.0, r.1) == v && r.2 == 0
  {
    hide Double, Scanned, Digits, Recased;
    CaseBlind(Digits(v, base), t, 0, 0, base);
    DigitsReadBack(v, base);
  }

  /** `>number` */
  method ToNumber(s: seq<Char>, lo0: UCell, hi0: UCell, base: UCell) returns (lo: UCell, hi: UCell, left: nat)
    ensures (lo, hi, left) == Scanned(s, lo0, hi0, base)
    ensures exists ds :: Reads(s, base, ds) && left == |s| - |ds|
                         && Double(lo, hi) == Horner(ds, base, Double(lo0, hi0)) % (W * W)
  {
    hide Reads, Double, Horner, Accumulate;
    ghost var ds := ScannedIs(s, lo0, hi0, base);
    lo, hi, left := lo0, hi0, |s|;
    var at := 0;
    while left > 0
      invariant at + left == |s|
      invariant Scanned(s[at..], lo, hi, base) == Scanned(s, lo0, hi0, base)
      decreases left
    {
      assert s[at..][0] == s[at] && s[at..][1..] == s[at + 1..];
      var d := DigitValue(s[at], base);
      if d.None? {
        return;
      }
      var r := Accumulate(lo, hi, base, d.value);
      lo, hi := r.0, r.1;
      at, left := at + 1, left - 1;
    }
    assert s[at..] == [];
  }

  lemma {:induction false} ScanAppend(a: seq<Char>, b: seq<Char>, lo: UCell, hi: UCell, base: UCell)
    ensures var r := Scanned(a, lo, hi, base);
            Scanned(a + b, lo, hi, base)
            == if r.2 == 0 then Scanned(b, r.0, r.1, base) else (r.0, r.1, r.2 + |b|)
    decreases |a|
  {
    hide Accumulate;
    if a == [] {
      assert a + b == b;
    } else {
      assert (a + b)[1..] == a[1..] + b;
      var d := DigitValue(a[0], base);
      if d.Some? {
        var (l, h) := Accumulate(lo, hi, base, d.value);
        ScanAppend(a[1..], b, l, h, base);
      }
    }
  }

  /** Reading the digits of a double after zero gives the double, all of them consumed. */
  lemma {:induction false} DigitsReadBack(v: nat, base: UCell)
    requires 2 <= base <= 36 && v < W * W
    ensures var r := Scanned(Digits(v, base), 0, 0, base); Double(r.0, r.1) == v && r.2 == 0
    decreases v
  {
    hide Accumulate, Double, DigitChar, DigitValue, Scanned;
    var d := v % base;
    DigitReadsBack(d, base);
    if v < base {
      SmallModulo(v, base);
      ZeroDouble(0, 0);
      ReadOne(DigitChar(v), 0, 0, base, v);
    } else {
      var q := v / base;
      MoreDigits(v, base);
      DigitsReadBack(q, base);
      var r := Scanned(Digits(q, base), 0, 0, base);
      ScanAppend(Digits(q, base), [DigitChar(d)], 0, 0, base);
      ReadOne(DigitChar(d), r.0, r.1, base, d);
      assert q * base + d == v;
    }
  }

  lemma SmallModulo(v: nat, m: nat)
    requires v < m
    ensures v % m == v
  {
  }

  lemma ZeroDouble(lo: UCell, hi: UCell)
    ensures Double(lo, hi) == 0 <==> lo == 0 && hi == 0
  {
  }

  /** One digit after a double. */
  lemma ReadOne(c: Char, lo: UCell, hi: UCell, base: UCell, d: UCell)
    requires DigitValue(c, base) == Some(d) && Double(lo, hi) * base + d < W * W
    ensures var r := Scanned([c], lo, hi, base); Double(r.0, r.1) == Double(lo, hi) * base + d && r.2 == 0
  {
    hide Accumulate, Double, DigitValue;
    assert [c][1..] == [];
    SmallModulo(Double(lo, hi) * base + d, W * W);
    var (l, h) := Accumulate(lo, hi, base, d);
    assert Scanned([], l, h, base) == (l, h, 0);
  }

  lemma DoubleUnique(a: UCell, b: UCell, c: UCell, d: UCell)
    requires Double(a, b) == Double(c, d)
    ensures a == c && b == d
  {
  }

  /** Print a double and read it back. */
  method PrintAndRead(lo: UCell, hi: UCell, base: UCell) returns (s: seq<Char>, lo': UCell, hi': UCell, left: nat)
    requires 2 <= base <= 36
    ensures 1 <= |s| <= 128 && s == Digits(Double(lo, hi), base)
    ensures (lo', hi', left) == (lo, hi, 0)
  {
    hide Digits, Scanned, Double, Pow2, DigitChar;
    ghost var v := Double(lo, hi);
    PowValues();
    FewDigits(v, base, 128);
    var pad := new HoldBuffer(128);
    pad.PicStart();
    pad.SharpS(lo, hi, base);
    s := pad.PicEnd();
    assert Digits(v, base) + [] == Digits(v, base);
    DigitsReadBack(v, base);
    lo', hi', left := ToNumber(s, 0, 0, base);
    DoubleUnique(lo', hi', lo, hi);
  }
}
