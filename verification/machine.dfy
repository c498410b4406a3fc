/** The straight-line part of an AArch64-like machine: general registers, condition
    flags, a data stack addressed from DSP, a return stack addressed from RP and a
    byte-addressed data memory. */
module Machine {
  import opened Cells
  import opened Tokens
  import opened Operators

  type Reg = nat

  const TOS: Reg := 0
  const CALL_TMP: Reg := 16

  // ----- condition flags -----

  /** The flags remember the operands of the last `cmp`; a condition code is read as the
      comparison of those operands that the architecture defines it to be. */
  datatype Flags = Compared(a: Cell, b: Cell)

  /** AArch64 condition codes, with their encodings. */
  type Cond = bv4
  const EQ: Cond := 0
  const NE: Cond := 1
  const HS: Cond := 2
  const LO: Cond := 3
  const HI: Cond := 8
  const LS: Cond := 9
  const GE: Cond := 10
  const LT: Cond := 11
  const GT: Cond := 12
  const LE: Cond := 13
  const AL: Cond := 14

  predicate CondHolds(c: Cond, f: Flags) {
    if c == EQ then f.a == f.b
    else if c == NE then f.a != f.b
    else if c == HS then !Below(f.a, f.b)
    else if c == LO then Below(f.a, f.b)
    else if c == HI then Below(f.b, f.a)
    else if c == LS then !Below(f.b, f.a)
    else if c == GE then !SignedLess(f.a, f.b)
    else if c == LT then SignedLess(f.a, f.b)
    else if c == GT then SignedLess(f.b, f.a)
    else if c == LE then !SignedLess(f.b, f.a)
    else true
  }

  /** Flipping the low bit of a condition code. */
  function Invert(c: Cond): Cond {
    c ^ 1
  }

  /** The codes this compiler uses before inverting one. */
  predicate IsComparison(c: Cond) {
    c < 4 || 8 <= c < 14
  }

  lemma InvertNegates(c: Cond, f: Flags)
    requires IsComparison(c)
    ensures CondHolds(Invert(c), f) == !CondHolds(c, f)
  {
    hide SignedLess, Below;
  }

  // ----- instructions -----

  type HalfwordShift = k: Cell | k < 64

  /** Straight-line instructions. Immediates are as encoded: 12 bits for `AddDsp`,
      `SubDsp` (bytes), `AddImm`, `SubImm`, `CmpImm` and for the scaled offsets of the
      stack loads and stores (cells). */
  datatype Op =
    | Movz(rd: Reg, imm16: Cell, shift: HalfwordShift)
    | Movk(rd: Reg, imm16: Cell, shift: HalfwordShift)
    | MovReg(rd: Reg, rm: Reg)
    | LdrStk(rt: Reg, off: nat)
    | StrStk(rt: Reg, off: nat)
    | LdrStkPost(rt: Reg)
    | AddDsp(bytes: nat)
    | SubDsp(bytes: nat)
    | LdrRp(rt: Reg, off: nat)
    | StrRp(rt: Reg, off: nat)
    | PushRp(rt: Reg)
    | PopRp(rt: Reg)
    | AddRp(cells: nat)
    | Ldr0(rt: Reg, rn: Reg)
    | Str0(rt: Reg, rn: Reg)
    | Ldrb0(rt: Reg, rn: Reg)
    | Strb0(rt: Reg, rn: Reg)
    | AluReg(op: AluOp, rd: Reg, rn: Reg, rm: Reg)
    | AddImm(rd: Reg, rn: Reg, imm12: Cell)
    | SubImm(rd: Reg, rn: Reg, imm12: Cell)
    | ShiftImm(sh: ShiftOp, rd: Reg, rn: Reg, amount: Cell)
    | ShiftReg(sh: ShiftOp, rd: Reg, rn: Reg, rm: Reg)
    | AluShifted(op: AluOp, sh: ShiftOp, rd: Reg, rn: Reg, rm: Reg, amount: Cell)
    | CmpReg(rn: Reg, rm: Reg)
    | CmpImm(rn: Reg, imm12: Cell)
    | Csetm(rd: Reg, cond: Cond)
    | Csel(rd: Reg, rn: Reg, rm: Reg, cond: Cond)
    | Blr(rn: Reg)

  // ----- machine states -----

  /** `dsp` counts cells; the data stack grows towards lower addresses and `stk` is its
      memory. `rs` is the return stack from RP up. */
  datatype Mach = Mach(x: map<Reg, Cell>, flags: Flags, dsp: int, stk: map<int, Cell>,
                       rs: seq<Cell>, mem: Bytes)

  /** What code runs in: the effect of called words, what a call leaves in the registers
      and flags it may clobber, and the address of the empty stack. */
  datatype Env = Env(words: Words, clobber: Mach -> (map<Reg, Cell>, Flags), base: int)

  function X(m: Mach, r: Reg): Cell {
    if r in m.x then m.x[r] else 0
  }

  function StkAt(stk: map<int, Cell>, a: int): Cell {
    if a in stk then stk[a] else 0
  }

  /** The cells from just below `hi` down to `lo`, deepest first. */
  function Column(stk: map<int, Cell>, hi: int, lo: int): (s: seq<Cell>)
    ensures |s| == if lo >= hi then 0 else hi - lo
    decreases hi - lo
  {
    if lo >= hi then [] else Column(stk, hi, lo + 1) + [StkAt(stk, lo)]
  }

  /** The Forth state in canonical form: the top of stack in x0, the rest from DSP. */
  function View(env: Env, m: Mach): Forth {
    Forth(Column(m.stk, env.base, m.dsp) + [X(m, TOS)], m.rs, m.mem)
  }

  /** The cells of `s` but the last, laid out below `base`. */
  function StackImage(s: seq<Cell>, base: int): map<int, Cell>
    requires |s| >= 1
  {
    map a {:trigger base - 1 - a} | base - (|s| - 1) <= a < base :: s[base - 1 - a]
  }

  /** Back from a call: `f` in canonical form, everything else clobbered. */
  function Install(env: Env, m: Mach, f: Forth): Mach
    requires |f.stack| >= 1
  {
    var dsp := env.base - (|f.stack| - 1);
    var (x, flags) := env.clobber(m);
    Mach(x[TOS := f.stack[|f.stack| - 1]], flags, dsp,
         m.stk + StackImage(f.stack, env.base), f.rs, f.mem)
  }

  function Set(m: Mach, r: Reg, v: Cell): Mach {
    m.(x := m.x[r := v])
  }

  function MovzValue(imm16: Cell, shift: HalfwordShift): Cell {
    imm16 << shift
  }

  function MovkValue(old_: Cell, imm16: Cell, shift: HalfwordShift): Cell
  {
    (old_ & !(0xFFFF << shift)) | (imm16 << shift)
  }

  /** The field of an immediate keeps 12 bits. */
  function Cut12(k: Cell): Cell {
    k & 0xFFF
  }

  lemma CutSmall(k: Cell)
    requires k <= 4095
    ensures Cut12(k) == k
  {
  }

  function Execute1(env: Env, i: Op, m: Mach): Mach {
    match i
    case Movz(rd, imm, sh) => Set(m, rd, MovzValue(imm, sh))
    case Movk(rd, imm, sh) => Set(m, rd, MovkValue(X(m, rd), imm, sh))
    case MovReg(rd, rm) => Set(m, rd, X(m, rm))
    case LdrStk(rt, off) => Set(m, rt, StkAt(m.stk, m.dsp + off))
    case StrStk(rt, off) => m.(stk := m.stk[m.dsp + off := X(m, rt)])
    case LdrStkPost(rt) => Set(m, rt, StkAt(m.stk, m.dsp)).(dsp := m.dsp + 1)
    case AddDsp(bytes) => m.(dsp := m.dsp + bytes / 8)
    case SubDsp(bytes) => m.(dsp := m.dsp - bytes / 8)
    case LdrRp(rt, off) => Set(m, rt, if off < |m.rs| then m.rs[off] else 0)
    case StrRp(rt, off) => if off < |m.rs| then m.(rs := m.rs[off := X(m, rt)]) else m
    case PushRp(rt) => m.(rs := [X(m, rt)] + m.rs)
    case PopRp(rt) => if m.rs == [] then m else Set(m, rt, m.rs[0]).(rs := m.rs[1..])
    case AddRp(cells) => m.(rs := if cells <= |m.rs| then m.rs[cells..] else [])
    case Ldr0(rt, rn) => Set(m, rt, FetchCell(m.mem, X(m, rn)))
    case Str0(rt, rn) => m.(mem := StoreCell(m.mem, X(m, rn), X(m, rt)))
    case Ldrb0(rt, rn) => Set(m, rt, FetchByte(m.mem, X(m, rn)))
    case Strb0(rt, rn) => m.(mem := StoreByte(m.mem, X(m, rn), X(m, rt)))
    case AluReg(op, rd, rn, rm) => Set(m, rd, op.Eval(X(m, rn), X(m, rm)))
    case AddImm(rd, rn, imm) => Set(m, rd, Add.Eval(X(m, rn), Cut12(imm)))
    case SubImm(rd, rn, imm) => Set(m, rd, Sub.Eval(X(m, rn), Cut12(imm)))
    case ShiftImm(sh, rd, rn, k) => Set(m, rd, sh.Eval(X(m, rn), k))
    case ShiftReg(sh, rd, rn, rm) => Set(m, rd, sh.Eval(X(m, rn), X(m, rm)))
    case AluShifted(op, sh, rd, rn, rm, k) =>
      Set(m, rd, op.Eval(X(m, rn), sh.Eval(X(m, rm), k)))
    case CmpReg(rn, rm) => m.(flags := Compared(X(m, rn), X(m, rm)))
    case CmpImm(rn, imm) => m.(flags := Compared(X(m, rn), Cut12(imm)))
    case Csetm(rd, cond) => Set(m, rd, Flag(CondHolds(cond, m.flags)))
    case Csel(rd, rn, rm, cond) =>
      Set(m, rd, if CondHolds(cond, m.flags) then X(m, rn) else X(m, rm))
    case Blr(rn) =>
      var r := env.words(X(m, rn), View(env, m));
      if |r.stack| < 1 then m else Install(env, m, r)
  }

  function Execute(env: Env, code: seq<Op>, m: Mach): Mach
    decreases |code|
  {
    if code == [] then m else Execute(env, code[1..], Execute1(env, code[0], m))
  }

  lemma {:induction false} ExecuteAppend(env: Env, a: seq<Op>, b: seq<Op>, m: Mach)
    ensures Execute(env, a + b, m) == Execute(env, b, Execute(env, a, m))
    decreases |a|
  {
    hide Execute1;
    if a == [] {
      assert a + b == b;
    } else {
      assert (a + b)[1..] == a[1..] + b;
      ExecuteAppend(env, a[1..], b, Execute1(env, a[0], m));
    }
  }

  lemma ExecuteOne(env: Env, i: Op, m: Mach)
    ensures Execute(env, [i], m) == Execute1(env, i, m)
  {
    hide Execute1;
    assert [i][1..] == [];
    assert Execute(env, [], Execute1(env, i, m)) == Execute1(env, i, m);
  }

  // ----- columns -----

  lemma {:induction false} ColumnAt(stk: map<int, Cell>, hi: int, lo: int, i: nat)
    requires i < hi - lo
    ensures Column(stk, hi, lo)[i] == StkAt(stk, hi - 1 - i)
    decreases hi - lo
  {
    if i < hi - lo - 1 {
      ColumnAt(stk, hi, lo + 1, i);
    }
  }

  /** A column depends only on the cells it covers. */
  lemma {:induction false} ColumnFrame(stk: map<int, Cell>, stk': map<int, Cell>, hi: int, lo: int)
    requires forall a | lo <= a < hi :: StkAt(stk', a) == StkAt(stk, a)
    ensures Column(stk', hi, lo) == Column(stk, hi, lo)
    decreases hi - lo
  {
    if lo < hi {
      ColumnFrame(stk, stk', hi, lo + 1);
    }
  }

  lemma ColumnIs(stk: map<int, Cell>, hi: int, lo: int, s: seq<Cell>)
    requires lo <= hi && |s| == hi - lo
    requires forall a | lo <= a < hi :: StkAt(stk, a) == s[hi - 1 - a]
    ensures Column(stk, hi, lo) == s
  {
    forall i | 0 <= i < |s|
      ensures Column(stk, hi, lo)[i] == s[i]
    {
      ColumnAt(stk, hi, lo, i);
      assert StkAt(stk, hi - 1 - i) == s[hi - 1 - (hi - 1 - i)];
    }
  }

  lemma {:induction false} ColumnSplit(stk: map<int, Cell>, hi: int, mid: int, lo: int)
    requires lo <= mid <= hi
    ensures Column(stk, hi, lo) == Column(stk, hi, mid) + Column(stk, mid, lo)
    decreases mid - lo
  {
    if lo < mid {
      ColumnSplit(stk, hi, mid, lo + 1);
    }
  }

  lemma InstallView(env: Env, m: Mach, f: Forth)
    requires |f.stack| >= 1
    ensures View(env, Install(env, m, f)) == f
    ensures Install(env, m, f).dsp <= env.base
  {
    hide Column, StkAt, StackImage;
    var m' := Install(env, m, f);
    var n := |f.stack| - 1;
    var dsp := env.base - n;
    forall a | dsp <= a < env.base
      ensures StkAt(m'.stk, a) == f.stack[..n][env.base - 1 - a]
    {
      ImageAt(m.stk, f.stack, env.base, a);
    }
    ColumnIs(m'.stk, env.base, dsp, f.stack[..n]);
    assert f.stack == f.stack[..n] + [f.stack[n]];
  }

  lemma ImageAt(stk: map<int, Cell>, s: seq<Cell>, base: int, a: int)
    requires |s| >= 1 && base - (|s| - 1) <= a < base
    ensures StkAt(stk + StackImage(s, base), a) == s[base - 1 - a]
  {
  }

  // ----- constants -----

  /** `load_imm64`: four instructions, sixteen bits each. */
  function LoadImm64(rd: Reg, v: Cell): seq<Op> {
    [Movz(rd, v & 0xFFFF, 0), Movk(rd, (v >> 16) & 0xFFFF, 16),
     Movk(rd, (v >> 32) & 0xFFFF, 32), Movk(rd, (v >> 48) & 0xFFFF, 48)]
  }

  lemma ExecuteFour(env: Env, a: Op, b: Op, c: Op, d: Op, m: Mach)
    ensures Execute(env, [a, b, c, d], m)
         == Execute1(env, d, Execute1(env, c, Execute1(env, b, Execute1(env, a, m))))
  {
    hide Execute1;
    assert [a, b, c, d] == [a] + ([b] + ([c] + [d]));
    var m1 := Execute1(env, a, m);
    var m2 := Execute1(env, b, m1);
    var m3 := Execute1(env, c, m2);
    ExecuteAppend(env, [a], [b] + ([c] + [d]), m);
    ExecuteAppend(env, [b], [c] + [d], m1);
    ExecuteAppend(env, [c], [d], m2);
    ExecuteOne(env, a, m);
    ExecuteOne(env, b, m1);
    ExecuteOne(env, c, m2);
    ExecuteOne(env, d, m3);
  }

  lemma HalfwordsMakeCell(v: Cell)
    ensures MovkValue(MovkValue(MovkValue(MovzValue(v & 0xFFFF, 0), (v >> 16) & 0xFFFF, 16),
                                (v >> 32) & 0xFFFF, 32),
                      (v >> 48) & 0xFFFF, 48) == v
  {
  }

  /** The sequence leaves the constant in `rd` and changes nothing else. */
  lemma LoadImm64Loads(env: Env, rd: Reg, v: Cell, m: Mach)
    ensures Execute(env, LoadImm64(rd, v), m) == Set(m, rd, v)
  {
    hide MovzValue, MovkValue, Execute, Execute1, Set;
    var h0 := v & 0xFFFF;
    var h1 := (v >> 16) & 0xFFFF;
    var h2 := (v >> 32) & 0xFFFF;
    var h3 := (v >> 48) & 0xFFFF;
    ExecuteFour(env, Movz(rd, h0, 0), Movk(rd, h1, 16), Movk(rd, h2, 32), Movk(rd, h3, 48), m);
    HalfwordsMakeCell(v);
    var v1 := MovzValue(h0, 0);
    var v2 := MovkValue(v1, h1, 16);
    var v3 := MovkValue(v2, h2, 32);
    ExecuteMovz(env, rd, h0, 0, m);
    ExecuteMovk(env, rd, h1, 16, Set(m, rd, v1));
    SetTwice(m, rd, v1, v2);
    ExecuteMovk(env, rd, h2, 32, Set(m, rd, v2));
    SetTwice(m, rd, v2, v3);
    ExecuteMovk(env, rd, h3, 48, Set(m, rd, v3));
    SetTwice(m, rd, v3, v);
  }

  lemma ExecuteMovz(env: Env, rd: Reg, imm: Cell, shift: HalfwordShift, m: Mach)
    ensures Execute1(env, Movz(rd, imm, shift), m) == Set(m, rd, MovzValue(imm, shift))
  {
    hide MovzValue;
  }

  lemma ExecuteMovk(env: Env, rd: Reg, imm: Cell, shift: HalfwordShift, m: Mach)
    ensures Execute1(env, Movk(rd, imm, shift), m) == Set(m, rd, MovkValue(X(m, rd), imm, shift))
  {
    hide MovkValue;
  }

  lemma SetTwice(m: Mach, r: Reg, v: Cell, w: Cell)
    ensures Set(Set(m, r, v), r, w) == Set(m, r, w)
    ensures X(Set(m, r, v), r) == v
  {
    assert m.x[r := v][r := w] == m.x[r := w];
  }

  // ----- comparisons -----

  /** The condition code of a comparison of two operands. */
  function CondOf(c: CmpOp): Cond {
    match c
    case Eq => EQ
    case Ne => NE
    case Lt => LT
    case Gt => GT
    case Le => LE
    case Ge => GE
    case ULt => LO
    case UGt => HI
    case ZEq => EQ
    case ZNe => NE
    case ZLt => LT
    case ZGt => GT
  }

  /** The condition code with the operands exchanged. */
  function SwappedCondOf(c: CmpOp): Cond {
    match c
    case Lt => GT
    case Gt => LT
    case Le => GE
    case Ge => LE
    case ULt => HI
    case UGt => LO
    case _ => CondOf(c)
  }

  function SelCondOf(s: SelOp): Cond {
    match s
    case Min => LT
    case Max => GT
    case UMin => LO
    case UMax => HI
  }

  /** `cmp a, b` followed by a test of the condition decides the comparison. */
  lemma CondOfHolds(c: CmpOp, a: Cell, b: Cell)
    requires !c.IsZeroTest() || b == 0
    ensures IsComparison(CondOf(c))
    ensures CondHolds(CondOf(c), Compared(a, b)) == c.Holds(a, b)
  {
    hide SignedLess, Below;
  }

  lemma SwappedCondHolds(c: CmpOp, a: Cell, b: Cell)
    requires !c.IsZeroTest()
    ensures CondHolds(SwappedCondOf(c), Compared(b, a)) == c.Holds(a, b)
  {
    hide SignedLess, Below;
  }

  /** `cmp a, b` followed by `csel` is the selection. */
  lemma SelectIs(s: SelOp, a: Cell, b: Cell)
    ensures (if CondHolds(SelCondOf(s), Compared(a, b)) then a else b) == s.Eval(a, b)
  {
    hide SignedLess, Below;
  }

  /** In numbers: the condition decides how the operands are related, either way round. */
  lemma CondOfDecides(c: CmpOp, a: Cell, b: Cell)
    requires !c.IsZeroTest() || b == 0
    ensures CondHolds(CondOf(c), Compared(a, b)) <==> InOrder(c, a, b)
    ensures !c.IsZeroTest() ==> (CondHolds(SwappedCondOf(c), Compared(b, a)) <==> InOrder(c, a, b))
  {
    hide InOrder, CmpOp.Holds, CondHolds, CondOf, SwappedCondOf;
    HoldsIs(c, a, b);
    CondOfHolds(c, a, b);
    if !c.IsZeroTest() {
      SwappedCondHolds(c, a, b);
    }
  }

  /** And the selection takes the smaller or the larger number. */
  lemma SelectGives(s: SelOp, a: Cell, b: Cell)
    ensures SelGives(s, a, b, if CondHolds(SelCondOf(s), Compared(a, b)) then a else b)
  {
    hide SelGives, CondHolds, SelCondOf, SelOp.Eval;
    SelIs(s, a, b);
    SelectIs(s, a, b);
  }

  lemma ExecuteTwo(env: Env, a: Op, b: Op, m: Mach)
    ensures Execute(env, [a, b], m) == Execute1(env, b, Execute1(env, a, m))
  {
    hide Execute1, Execute;
    assert [a, b] == [a] + [b];
    ExecuteAppend(env, [a], [b], m);
    ExecuteOne(env, a, m);
    ExecuteOne(env, b, Execute1(env, a, m));
  }

  lemma ExecuteCompare(env: Env, rn: Reg, rm: Reg, k: Cell, m: Mach)
    requires k <= 4095
    ensures Execute1(env, CmpImm(rn, k), m) == m.(flags := Compared(X(m, rn), k))
    ensures Execute1(env, CmpReg(rn, rm), m) == m.(flags := Compared(X(m, rn), X(m, rm)))
  {
    hide Execute1;
    ExecuteCmpImm(env, rn, k, m);
    ExecuteCmpReg(env, rn, rm, m);
  }

  lemma ExecuteCmpImm(env: Env, rn: Reg, k: Cell, m: Mach)
    requires k <= 4095
    ensures Execute1(env, CmpImm(rn, k), m) == m.(flags := Compared(X(m, rn), k))
  {
    hide AluOp.Eval, ShiftOp.Eval, CondHolds, FetchCell, StoreCell, FetchByte, StoreByte, MovkValue,
         MovzValue, View, Install, Set, Flag, Cut12;
    CutSmall(k);
  }

  lemma ExecuteCmpReg(env: Env, rn: Reg, rm: Reg, m: Mach)
    ensures Execute1(env, CmpReg(rn, rm), m) == m.(flags := Compared(X(m, rn), X(m, rm)))
  {
    hide AluOp.Eval, ShiftOp.Eval, CondHolds, FetchCell, StoreCell, FetchByte, StoreByte, MovkValue,
         MovzValue, View, Install, Set, Flag;
  }

  lemma ExecuteSelect(env: Env, ra: Reg, rb: Reg, c: Cond, m: Mach)
    ensures Execute1(env, Csetm(ra, c), m) == Set(m, ra, Flag(CondHolds(c, m.flags)))
    ensures Execute1(env, Csel(ra, ra, rb, c), m)
         == Set(m, ra, if CondHolds(c, m.flags) then X(m, ra) else X(m, rb))
  {
    hide AluOp.Eval, ShiftOp.Eval, CondHolds, FetchCell, StoreCell, FetchByte, StoreByte, MovkValue,
         MovzValue, View, Install, Flag;
  }
}
