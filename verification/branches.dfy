/** Branching code: straight-line instructions and relative branches, and the code the
    control words emit. */
module Branches {
  import opened Cells
  import opened Tokens
  import opened Machine

  const SCRATCH: Reg := 9
  const LR: Reg := 30

  /** Branch offsets count instructions from the branch itself. */
  datatype Instr =
    | Line(op: Op)
    | Cbz(rt: Reg, off: int)
    | Jump(off: int)
    | Bcond(cond: Cond, off: int)
    | TbzSign(rt: Reg, off: int)
    | Ret
    | BrReg(rn: Reg)

  /** The signed field of `half * 2` values that holds a branch offset. */
  function Field(off: int, half: nat): int
    requires half > 0
  {
    (off + half) % (2 * half) - half
  }

  /** Ranges of the branch forms: 19, 26, 19 and 14 bits. */
  const RANGE19: nat := 0x40000
  const RANGE26: nat := 0x200_0000
  const RANGE14: nat := 0x2000

  lemma SmallModulus(x: nat, m: nat)
    requires x < m
    ensures x % m == x
  {
  }

  /** An offset survives its field exactly when it is in range. */
  lemma FieldExact(off: int, half: nat)
    requires half > 0
    ensures Field(off, half) == off <==> 0 <= off + half < 2 * half
  {
    var m := 2 * half;
    assert 0 <= (off + half) % m < m;
    if 0 <= off + half < m {
      SmallModulus(off + half, m);
    }
  }

  function EncCbz(rt: Reg, off: int): Instr {
    Cbz(rt, Field(off, RANGE19))
  }

  function EncJump(off: int): Instr {
    Jump(Field(off, RANGE26))
  }

  function EncBcond(c: Cond, off: int): Instr {
    Bcond(c, Field(off, RANGE19))
  }

  function EncTbzSign(rt: Reg, off: int): Instr {
    TbzSign(rt, Field(off, RANGE14))
  }

  /** How far the branches reach: 2^18 instructions for `cbz` and `b.cond`, 2^25 for `b`, 2^13
      for `tbz`. */
  lemma BranchRanges(rt: Reg, c: Cond, off: int)
    ensures EncCbz(rt, off) == Cbz(rt, off) <==> -0x40000 <= off < 0x40000
    ensures EncBcond(c, off) == Bcond(c, off) <==> -0x40000 <= off < 0x40000
    ensures EncJump(off) == Jump(off) <==> -0x200_0000 <= off < 0x200_0000
    ensures EncTbzSign(rt, off) == TbzSign(rt, off) <==> -0x2000 <= off < 0x2000
  {
    hide Field;
    FieldExact(off, RANGE19);
    FieldExact(off, RANGE26);
    FieldExact(off, RANGE14);
  }

  function Lift(code: seq<Op>): (r: seq<Instr>)
    ensures |r| == |code|
    ensures forall i | 0 <= i < |code| :: r[i] == Line(code[i])
  {
    seq(|code|, i requires 0 <= i < |code| => Line(code[i]))
  }

  // ----- running branching code -----

  /** One step at `pc`, which is inside the code and not at a return. */
  function StepAt(env: Env, code: seq<Instr>, pc: int, m: Mach): (int, Mach)
    requires 0 <= pc < |code|
  {
    match code[pc]
    case Line(op) => (pc + 1, Execute1(env, op, m))
    case Cbz(rt, off) => (if X(m, rt) == 0 then pc + off else pc + 1, m)
    case Jump(off) => (pc + off, m)
    case Bcond(c, off) => (if CondHolds(c, m.flags) then pc + off else pc + 1, m)
    case TbzSign(rt, off) => (if Negative(X(m, rt)) then pc + 1 else pc + off, m)
    case Ret => (pc, m)
    case BrReg(_) => (pc, m)
  }

  /** `n` steps; outside the code nothing moves. */
  function RunFor(env: Env, code: seq<Instr>, n: nat, pc: int, m: Mach): (int, Mach) {
    if n == 0 || pc < 0 || pc >= |code| then (pc, m)
    else
      var (pc', m') := StepAt(env, code, pc, m);
      RunFor(env, code, n - 1, pc', m')
  }

  ghost predicate Reaches(env: Env, code: seq<Instr>, pc: int, m: Mach, pc': int, m': Mach) {
    exists n: nat :: RunFor(env, code, n, pc, m) == (pc', m')
  }

  lemma {:induction false} RunForAdds(env: Env, code: seq<Instr>, a: nat, b: nat, pc: int, m: Mach)
    ensures RunFor(env, code, a + b, pc, m)
         == (var r := RunFor(env, code, a, pc, m); RunFor(env, code, b, r.0, r.1))
    decreases a
  {
    hide StepAt;
    if a > 0 && 0 <= pc < |code| {
      var r := StepAt(env, code, pc, m);
      RunForAdds(env, code, a - 1, b, r.0, r.1);
    }
  }

  lemma ReachesSelf(env: Env, code: seq<Instr>, pc: int, m: Mach)
    ensures Reaches(env, code, pc, m, pc, m)
  {
    assert RunFor(env, code, 0, pc, m) == (pc, m);
  }

  lemma ReachesThen(env: Env, code: seq<Instr>, pc: int, m: Mach, pc1: int, m1: Mach,
                    pc2: int, m2: Mach)
    requires Reaches(env, code, pc, m, pc1, m1) && Reaches(env, code, pc1, m1, pc2, m2)
    ensures Reaches(env, code, pc, m, pc2, m2)
  {
    hide RunFor;
    var a: nat :| RunFor(env, code, a, pc, m) == (pc1, m1);
    var b: nat :| RunFor(env, code, b, pc1, m1) == (pc2, m2);
    RunForAdds(env, code, a, b, pc, m);
    assert RunFor(env, code, a + b, pc, m) == (pc2, m2);
  }

  lemma ReachesStep(env: Env, code: seq<Instr>, pc: int, m: Mach)
    requires 0 <= pc < |code|
    ensures var r := StepAt(env, code, pc, m); Reaches(env, code, pc, m, r.0, r.1)
  {
    hide StepAt;
    var r := StepAt(env, code, pc, m);
    assert RunFor(env, code, 0, r.0, r.1) == r;
    assert RunFor(env, code, 1, pc, m) == r;
  }

  /** The code holds `part` at `pc`. */
  predicate At(code: seq<Instr>, pc: int, part: seq<Instr>) {
    0 <= pc && pc + |part| <= |code| && code[pc..pc + |part|] == part
  }

  /** Straight-line code runs as the straight-line machine does. */
  lemma {:induction false} LineRuns(env: Env, code: seq<Instr>, pc: int, ops: seq<Op>, m: Mach)
    requires At(code, pc, Lift(ops))
    ensures Reaches(env, code, pc, m, pc + |ops|, Execute(env, ops, m))
    decreases |ops|
  {
    hide Reaches, Execute1;
    if ops == [] {
      ReachesSelf(env, code, pc, m);
    } else {
      ReachesStep(env, code, pc, m);
      assert code[pc] == code[pc..pc + |ops|][0] == Line(ops[0]);
      var m1 := Execute1(env, ops[0], m);
      assert code[pc + 1..pc + |ops|] == code[pc..pc + |ops|][1..];
      assert Lift(ops[1..]) == Lift(ops)[1..];
      LineRuns(env, code, pc + 1, ops[1..], m1);
      ReachesThen(env, code, pc, m, pc + 1, m1, pc + |ops|, Execute(env, ops, m));
    }
  }

  // ----- the straight-line parts of the control words -----

  /** `if`, `until` and `while` without fusion: flag to x9, next cell up. */
  function FlagTest(): seq<Op> {
    [MovReg(SCRATCH, TOS), LdrStk(TOS, 0), AddDsp(8)]
  }

  /** A comparison fused into the branch: operands consumed, flags set. */
  function FusedCmp(c: CmpOp): seq<Op> {
    if c.IsZeroTest() then [CmpImm(TOS, 0), LdrStkPost(TOS)]
    else if c == Eq || c == Ne then [LdrStkPost(SCRATCH), CmpReg(TOS, SCRATCH), LdrStkPost(TOS)]
    else [LdrStkPost(SCRATCH), CmpReg(SCRATCH, TOS), LdrStkPost(TOS)]
  }

  /** `do`: the frame is the index above the limit. */
  function DoCode(): seq<Op> {
    [LdrStk(9, 0), PushRp(9), PushRp(TOS), LdrStk(TOS, 1), AddDsp(16)]
  }

  function QDoTest(): seq<Op> {
    [LdrRp(9, 0), LdrRp(10, 1), CmpReg(9, 10)]
  }

  /** `loop`: index up by one; x11 holds the sign change of index - limit. */
  function LoopCode(): seq<Op> {
    [LdrRp(9, 0), LdrRp(10, 1), AluReg(Sub, 11, 9, 10), AddImm(9, 9, 1), StrRp(9, 0),
     AluReg(Sub, 12, 9, 10), AluReg(Xor, 11, 11, 12)]
  }

  /** `+loop`: index up by the popped step. */
  function PlusLoopCode(): seq<Op> {
    [LdrRp(9, 0), LdrRp(10, 1), AluReg(Sub, 11, 9, 10), AluReg(Add, 9, 9, TOS), StrRp(9, 0),
     AluReg(Sub, 12, 9, 10), AluReg(Xor, 11, 11, 12), LdrStk(TOS, 0), AddDsp(8)]
  }

  function Unloop(): Op {
    AddRp(2)
  }

  // ----- what they do to the Forth state -----

  /** The machine is in canonical form for `st`. */
  ghost predicate Shows(env: Env, m: Mach, st: Forth) {
    View(env, m) == st && m.dsp <= env.base
  }

  /** The top cells of a canonical machine. */
  lemma ShowsTop(env: Env, m: Mach, st: Forth)
    requires Shows(env, m, st)
    ensures |st.stack| >= 1 && Item(st.stack, 0) == X(m, TOS) && st.rs == m.rs && st.mem == m.mem
    ensures |st.stack| >= 2 ==> m.dsp < env.base && Item(st.stack, 1) == StkAt(m.stk, m.dsp)
    ensures |st.stack| >= 3 ==> m.dsp + 1 < env.base && Item(st.stack, 2) == StkAt(m.stk, m.dsp + 1)
  {
    if |st.stack| >= 3 {
      ColumnAt(m.stk, env.base, m.dsp, env.base - m.dsp - 2);
    }
  }

  /** Dropping `k` cells: DSP up by `k`, the new top loaded. */
  lemma ShowsPopped(env: Env, m: Mach, st: Forth, k: nat, m': Mach)
    requires Shows(env, m, st) && 1 <= k < |st.stack|
    requires m'.dsp == m.dsp + k && m'.stk == m.stk && X(m', TOS) == StkAt(m.stk, m.dsp + k - 1)
    ensures Shows(env, m', st.(stack := Pop(st.stack, k), rs := m'.rs, mem := m'.mem))
  {
    var col := Column(m.stk, env.base, m.dsp);
    assert st.stack == col + [X(m, TOS)];
    ColumnPopped(m.stk, env.base, m.dsp, k, X(m, TOS));
  }

  lemma ColumnPopped(stk: map<int, Cell>, base: int, dsp: int, k: nat, top: Cell)
    requires 1 <= k <= base - dsp
    ensures Pop(Column(stk, base, dsp) + [top], k) == Column(stk, base, dsp + k) + [StkAt(stk, dsp + k - 1)]
  {
    hide StkAt, Column;
    ColumnSplit(stk, base, dsp + k, dsp);
    ColumnAt(stk, base, dsp, base - dsp - k);
    var col := Column(stk, base, dsp);
    assert Column(stk, base, dsp + k) == col[..|col| - k];
    assert Pop(col + [top], k) == col[..|col| - k] + [col[|col| - k]];
  }

  lemma ExecuteCons(env: Env, op: Op, rest: seq<Op>, m: Mach)
    ensures Execute(env, [op] + rest, m) == Execute(env, rest, Execute1(env, op, m))
  {
    hide Execute1;
    assert ([op] + rest)[1..] == rest;
  }

  /** The effect of single instructions on the control path. */
  lemma Effects(env: Env, m: Mach)
    ensures Execute1(env, MovReg(SCRATCH, TOS), m) == Set(m, SCRATCH, X(m, TOS))
    ensures Execute1(env, LdrStk(TOS, 0), m) == Set(m, TOS, StkAt(m.stk, m.dsp))
    ensures Execute1(env, LdrStk(TOS, 1), m) == Set(m, TOS, StkAt(m.stk, m.dsp + 1))
    ensures Execute1(env, LdrStk(9, 0), m) == Set(m, 9, StkAt(m.stk, m.dsp))
    ensures Execute1(env, AddDsp(8), m) == m.(dsp := m.dsp + 1)
    ensures Execute1(env, AddDsp(16), m) == m.(dsp := m.dsp + 2)
    ensures Execute1(env, LdrStkPost(TOS), m) == Set(m, TOS, StkAt(m.stk, m.dsp)).(dsp := m.dsp + 1)
    ensures Execute1(env, LdrStkPost(SCRATCH), m)
         == Set(m, SCRATCH, StkAt(m.stk, m.dsp)).(dsp := m.dsp + 1)
  {
    hide Execute1, StkAt, Set;
    LoadEffect(env, TOS, 0, m);
    LoadEffect(env, TOS, 1, m);
    LoadEffect(env, 9, 0, m);
    DspEffect(env, 1, m);
    DspEffect(env, 2, m);
    MoveEffect(env, m);
    PopEffect(env, TOS, m);
    PopEffect(env, SCRATCH, m);
  }

  lemma LoadEffect(env: Env, r: Reg, k: nat, m: Mach)
    ensures Execute1(env, LdrStk(r, k), m) == Set(m, r, StkAt(m.stk, m.dsp + k))
  {
    hide AluOp.Eval, ShiftOp.Eval, CondHolds, FetchCell, StoreCell, FetchByte, StoreByte,
         MovkValue, MovzValue, View, Install, StkAt, Set;
  }

  lemma DspEffect(env: Env, k: nat, m: Mach)
    ensures Execute1(env, AddDsp(8 * k), m) == m.(dsp := m.dsp + k)
  {
    hide AluOp.Eval, ShiftOp.Eval, CondHolds, FetchCell, StoreCell, FetchByte, StoreByte,
         MovkValue, MovzValue, View, Install, StkAt, Set;
  }

  lemma MoveEffect(env: Env, m: Mach)
    ensures Execute1(env, MovReg(SCRATCH, TOS), m) == Set(m, SCRATCH, X(m, TOS))
  {
    hide AluOp.Eval, ShiftOp.Eval, CondHolds, FetchCell, StoreCell, FetchByte, StoreByte,
         MovkValue, MovzValue, View, Install, StkAt, Set;
  }

  lemma PopEffect(env: Env, r: Reg, m: Mach)
    ensures Execute1(env, LdrStkPost(r), m) == Set(m, r, StkAt(m.stk, m.dsp)).(dsp := m.dsp + 1)
  {
    hide AluOp.Eval, ShiftOp.Eval, CondHolds, FetchCell, StoreCell, FetchByte, StoreByte,
         MovkValue, MovzValue, View, Install, StkAt, Set;
  }

  lemma ExecuteThree(env: Env, a: Op, b: Op, c: Op, m: Mach)
    ensures Execute(env, [a, b, c], m)
         == Execute1(env, c, Execute1(env, b, Execute1(env, a, m)))
  {
    hide Execute1, Execute;
    assert [a, b, c] == [a] + [b, c];
    ExecuteCons(env, a, [b, c], m);
    assert [b, c] == [b] + [c];
    ExecuteCons(env, b, [c], Execute1(env, a, m));
    ExecuteOne(env, c, Execute1(env, b, Execute1(env, a, m)));
  }

  lemma FlagTestRuns(env: Env, m: Mach, st: Forth)
    requires Shows(env, m, st) && |st.stack| >= 2
    ensures var m' := Execute(env, FlagTest(), m);
            Shows(env, m', st.(stack := Pop(st.stack, 1))) && X(m', SCRATCH) == Item(st.stack, 0)
  {
    hide Execute, Execute1, Shows;
    ShowsTop(env, m, st);
    ExecuteThree(env, MovReg(SCRATCH, TOS), LdrStk(TOS, 0), AddDsp(8), m);
    var m1 := Set(m, SCRATCH, X(m, TOS));
    var m2 := Set(m1, TOS, StkAt(m.stk, m.dsp));
    var m3 := m2.(dsp := m.dsp + 1);
    Effects(env, m);
    Effects(env, m1);
    Effects(env, m2);
    ShowsPopped(env, m, st, 1, m3);
  }

  /** How many cells a comparison consumes. */
  function Arity(c: CmpOp): nat {
    if c.IsZeroTest() then 1 else 2
  }

  predicate CmpOf(c: CmpOp, s: seq<Cell>)
    requires |s| > Arity(c)
  {
    if c.IsZeroTest() then c.Holds(Item(s, 0), 0) else c.Holds(Item(s, 1), Item(s, 0))
  }

  lemma EqualCommutes(c: CmpOp, a: Cell, b: Cell)
    requires c == Eq || c == Ne
    ensures c.Holds(a, b) == c.Holds(b, a)
  {
  }

  lemma FusedZeroRuns(env: Env, m: Mach, st: Forth, c: CmpOp)
    requires Shows(env, m, st) && |st.stack| > 1 && c.IsZeroTest()
    ensures var m' := Execute(env, FusedCmp(c), m);
            Shows(env, m', st.(stack := Pop(st.stack, 1)))
            && CondHolds(CondOf(c), m'.flags) == c.Holds(Item(st.stack, 0), 0)
  {
    hide Execute, Execute1, Shows, CmpOp.Holds, CondHolds, CondOf;
    ShowsTop(env, m, st);
    var x0 := X(m, TOS);
    ExecuteTwo(env, CmpImm(TOS, 0), LdrStkPost(TOS), m);
    var m1 := m.(flags := Compared(x0, 0));
    ExecuteCompare(env, TOS, TOS, 0, m);
    Effects(env, m1);
    ShowsPopped(env, m, st, 1, Set(m1, TOS, StkAt(m.stk, m.dsp)).(dsp := m.dsp + 1));
    CondOfHolds(c, x0, 0);
  }

  lemma FusedBinaryRuns(env: Env, m: Mach, st: Forth, rn: Reg, rm: Reg)
    requires Shows(env, m, st) && |st.stack| > 2
    requires (rn == TOS && rm == SCRATCH) || (rn == SCRATCH && rm == TOS)
    ensures var m' := Execute(env, [LdrStkPost(SCRATCH), CmpReg(rn, rm), LdrStkPost(TOS)], m);
            var a, b := Item(st.stack, 1), Item(st.stack, 0);
            Shows(env, m', st.(stack := Pop(st.stack, 2)))
            && m'.flags == if rn == TOS then Compared(b, a) else Compared(a, b)
  {
    hide Execute, Execute1, Shows, StkAt, Column;
    ShowsTop(env, m, st);
    var a := StkAt(m.stk, m.dsp);
    var m1 := Set(m, SCRATCH, a).(dsp := m.dsp + 1);
    ExecuteThree(env, LdrStkPost(SCRATCH), CmpReg(rn, rm), LdrStkPost(TOS), m);
    PopEffect(env, SCRATCH, m);
    ExecuteCompare(env, rn, rm, 0, m1);
    var m2 := m1.(flags := Compared(X(m1, rn), X(m1, rm)));
    PopEffect(env, TOS, m2);
    var m3 := Set(m2, TOS, StkAt(m.stk, m.dsp + 1)).(dsp := m.dsp + 2);
    ShowsPopped(env, m, st, 2, m3);
  }

  /** The fused comparison consumes its operands and leaves flags on which the condition
      decides the comparison. */
  lemma FusedCmpRuns(env: Env, m: Mach, st: Forth, c: CmpOp)
    requires Shows(env, m, st) && |st.stack| > Arity(c)
    ensures var m' := Execute(env, FusedCmp(c), m);
            Shows(env, m', st.(stack := Pop(st.stack, Arity(c))))
            && CondHolds(CondOf(c), m'.flags) == CmpOf(c, st.stack)
  {
    hide Execute, Shows, CmpOp.Holds, CondHolds, CondOf;
    if c.IsZeroTest() {
      FusedZeroRuns(env, m, st, c);
    } else {
      var a, b := Item(st.stack, 1), Item(st.stack, 0);
      CondOfHolds(c, a, b);
      CondOfHolds(c, b, a);
      if c == Eq || c == Ne {
        FusedBinaryRuns(env, m, st, TOS, SCRATCH);
        EqualCommutes(c, a, b);
      } else {
        FusedBinaryRuns(env, m, st, SCRATCH, TOS);
      }
    }
  }

  // ----- counted loops -----

  lemma PushEffects(env: Env, m: Mach)
    ensures Execute1(env, PushRp(9), m) == m.(rs := [X(m, 9)] + m.rs)
    ensures Execute1(env, PushRp(TOS), m) == m.(rs := [X(m, TOS)] + m.rs)
    ensures |m.rs| >= 2 ==> Execute1(env, AddRp(2), m) == m.(rs := m.rs[2..])
  {
    hide AluOp.Eval, ShiftOp.Eval, CondHolds, FetchCell, StoreCell, FetchByte, StoreByte,
         MovkValue, MovzValue, View, Install;
  }

  lemma SlotEffects(env: Env, m: Mach)
    requires |m.rs| >= 2
    ensures Execute1(env, LdrRp(9, 0), m) == Set(m, 9, m.rs[0])
    ensures Execute1(env, LdrRp(10, 1), m) == Set(m, 10, m.rs[1])
    ensures Execute1(env, StrRp(9, 0), m) == m.(rs := m.rs[0 := X(m, 9)])
  {
    hide AluOp.Eval, ShiftOp.Eval, CondHolds, FetchCell, StoreCell, FetchByte, StoreByte,
         MovkValue, MovzValue, View, Install;
  }

  /** Registers and flags do not show, the top of stack apart. */
  lemma ShowsFrame(env: Env, m: Mach, st: Forth, m': Mach)
    requires Shows(env, m, st)
    requires m'.dsp == m.dsp && m'.stk == m.stk && X(m', TOS) == X(m, TOS)
    ensures Shows(env, m', st.(rs := m'.rs, mem := m'.mem))
  {
  }

  lemma PushLimitRuns(env: Env, m: Mach, st: Forth)
    requires Shows(env, m, st) && |st.stack| >= 2
    ensures var m' := Execute(env, [LdrStk(9, 0), PushRp(9)], m);
            Shows(env, m', st.(rs := [Item(st.stack, 1)] + st.rs))
  {
    hide Execute, Execute1, Shows;
    ShowsTop(env, m, st);
    ExecuteTwo(env, LdrStk(9, 0), PushRp(9), m);
    var m1 := Set(m, 9, StkAt(m.stk, m.dsp));
    Effects(env, m);
    PushEffects(env, m1);
    ShowsFrame(env, m, st, m1.(rs := [StkAt(m.stk, m.dsp)] + m.rs));
  }

  lemma PushStartRuns(env: Env, m: Mach, st: Forth)
    requires Shows(env, m, st) && |st.stack| >= 3
    ensures var m' := Execute(env, [PushRp(TOS), LdrStk(TOS, 1), AddDsp(16)], m);
            Shows(env, m', st.(stack := Pop(st.stack, 2), rs := [Item(st.stack, 0)] + st.rs))
  {
    hide Execute, Execute1, Shows;
    ShowsTop(env, m, st);
    ExecuteThree(env, PushRp(TOS), LdrStk(TOS, 1), AddDsp(16), m);
    var m1 := m.(rs := [X(m, TOS)] + m.rs);
    var m2 := Set(m1, TOS, StkAt(m.stk, m.dsp + 1));
    var m3 := m2.(dsp := m.dsp + 2);
    assert Execute1(env, PushRp(TOS), m) == m1 by {
      PushEffects(env, m);
    }
    assert Execute1(env, LdrStk(TOS, 1), m1) == m2 by {
      Effects(env, m1);
    }
    assert Execute1(env, AddDsp(16), m2) == m3 by {
      Effects(env, m2);
    }
    ShowsPopped(env, m, st, 2, m3);
  }

  /** `do`: limit and start leave the data stack and become the loop frame. */
  lemma DoRuns(env: Env, m: Mach, st: Forth)
    requires Shows(env, m, st) && |st.stack| >= 3
    ensures Shows(env, Execute(env, DoCode(), m),
                  st.(stack := Pop(st.stack, 2),
                      rs := [Item(st.stack, 0), Item(st.stack, 1)] + st.rs))
  {
    hide Execute, Shows;
    var a, b := [LdrStk(9, 0), PushRp(9)], [PushRp(TOS), LdrStk(TOS, 1), AddDsp(16)];
    assert DoCode() == a + b;
    ExecuteAppend(env, a, b, m);
    PushLimitRuns(env, m, st);
    var st1 := st.(rs := [Item(st.stack, 1)] + st.rs);
    PushStartRuns(env, Execute(env, a, m), st1);
    assert [Item(st.stack, 0)] + st1.rs == [Item(st.stack, 0), Item(st.stack, 1)] + st.rs;
  }

  lemma QDoTestRuns(env: Env, m: Mach, st: Forth)
    requires Shows(env, m, st) && |st.rs| >= 2
    ensures var m' := Execute(env, QDoTest(), m);
            Shows(env, m', st) && m'.flags == Compared(st.rs[0], st.rs[1])
  {
    hide Execute, Shows, QDoTest;
    ShowsTop(env, m, st);
    QDoTestIs(env, m);
    ShowsFrame(env, m, st, Execute(env, QDoTest(), m));
  }

  lemma QDoTestIs(env: Env, m: Mach)
    requires |m.rs| >= 2
    ensures Execute(env, QDoTest(), m)
         == Set(Set(m, 9, m.rs[0]), 10, m.rs[1]).(flags := Compared(m.rs[0], m.rs[1]))
  {
    hide Execute, Execute1, Set;
    ExecuteThree(env, LdrRp(9, 0), LdrRp(10, 1), CmpReg(9, 10), m);
    var m1 := Set(m, 9, m.rs[0]);
    SlotEffects(env, m);
    SetReads(m, 9, m.rs[0]);
    SlotEffects(env, m1);
    ExecuteCmpReg(env, 9, 10, Set(m1, 10, m.rs[1]));
    SetReads(m1, 10, m.rs[1]);
    SetOther(m1, 10, m.rs[1], 9);
  }

  lemma AluEffect(env: Env, op: AluOp, rd: Reg, rn: Reg, rm: Reg, m: Mach)
    ensures Execute1(env, AluReg(op, rd, rn, rm), m) == Set(m, rd, op.Eval(X(m, rn), X(m, rm)))
    ensures Execute1(env, AddImm(rd, rn, 1), m) == Set(m, rd, Add.Eval(X(m, rn), 1))
  {
    hide AluOp.Eval, ShiftOp.Eval, CondHolds, FetchCell, StoreCell, FetchByte, StoreByte,
         MovkValue, MovzValue, View, Install, Cut12;
    CutSmall(1);
  }

  /** The sign of this cell says whether the index crossed the limit. */
  function Crossing(index: Cell, next: Cell, limit: Cell): Cell {
    Xor.Eval(Sub.Eval(index, limit), Sub.Eval(next, limit))
  }

  lemma CrossingIs(index: Cell, next: Cell, limit: Cell)
    ensures Crossing(index, next, limit) == Xor.Eval(Sub.Eval(index, limit), Sub.Eval(next, limit))
  {
    hide AluOp.Eval;
  }

  /** The six instructions that step the index, given what the third one adds. */
  lemma LoopTailRuns(env: Env, m: Mach, st: Forth, next: Cell)
    requires Shows(env, m, st) && |st.rs| >= 2
    requires X(m, 9) == next && X(m, 10) == st.rs[1]
    requires X(m, 11) == Sub.Eval(st.rs[0], st.rs[1])
    ensures var m' := Execute(env, [StrRp(9, 0), AluReg(Sub, 12, 9, 10), AluReg(Xor, 11, 11, 12)], m);
            Shows(env, m', st.(rs := st.rs[0 := next]))
            && X(m', 11) == Crossing(st.rs[0], next, st.rs[1])
  {
    hide Execute, Execute1, Shows, AluOp.Eval, Crossing, Set;
    ShowsTop(env, m, st);
    var d := Sub.Eval(next, st.rs[1]);
    var c := Crossing(st.rs[0], next, st.rs[1]);
    LoopTailIs(env, m, next, st.rs[0], st.rs[1]);
    SetReads(m.(rs := m.rs[0 := next]), 12, d);
    SetReads(Set(m.(rs := m.rs[0 := next]), 12, d), 11, c);
    ShowsFrame(env, m, st, Set(Set(m.(rs := m.rs[0 := next]), 12, d), 11, c));
  }

  lemma SetReads(m: Mach, r: Reg, v: Cell)
    ensures X(Set(m, r, v), r) == v && (r != TOS ==> X(Set(m, r, v), TOS) == X(m, TOS))
    ensures Set(m, r, v).dsp == m.dsp && Set(m, r, v).stk == m.stk
    ensures Set(m, r, v).rs == m.rs && Set(m, r, v).mem == m.mem
  {
  }

  lemma SetOther(m: Mach, r: Reg, v: Cell, q: Reg)
    requires q != r
    ensures X(Set(m, r, v), q) == X(m, q)
  {
  }

  lemma LoopTailIs(env: Env, m: Mach, next: Cell, index: Cell, limit: Cell)
    requires |m.rs| >= 2
    requires X(m, 9) == next && X(m, 10) == limit && X(m, 11) == Sub.Eval(index, limit)
    ensures Execute(env, [StrRp(9, 0), AluReg(Sub, 12, 9, 10), AluReg(Xor, 11, 11, 12)], m)
         == Set(Set(m.(rs := m.rs[0 := next]), 12, Sub.Eval(next, limit)), 11, Crossing(index, next, limit))
  {
    hide Execute, Execute1, AluOp.Eval, Crossing;
    CrossingIs(index, next, limit);
    ExecuteThree(env, StrRp(9, 0), AluReg(Sub, 12, 9, 10), AluReg(Xor, 11, 11, 12), m);
    SlotEffects(env, m);
    var m1 := m.(rs := m.rs[0 := next]);
    AluEffect(env, Sub, 12, 9, 10, m1);
    AluEffect(env, Xor, 11, 11, 12, Set(m1, 12, Sub.Eval(next, limit)));
  }

  /** The first three instructions: index and limit loaded, their difference taken. */
  lemma LoopHeadRuns(env: Env, m: Mach, st: Forth)
    requires Shows(env, m, st) && |st.rs| >= 2
    ensures var m' := Execute(env, [LdrRp(9, 0), LdrRp(10, 1), AluReg(Sub, 11, 9, 10)], m);
            Shows(env, m', st) && X(m', 9) == st.rs[0] && X(m', 10) == st.rs[1]
            && X(m', 11) == Sub.Eval(st.rs[0], st.rs[1]) && X(m', TOS) == X(m, TOS)
  {
    hide Execute, Execute1, Shows, AluOp.Eval, Set;
    ShowsTop(env, m, st);
    ExecuteThree(env, LdrRp(9, 0), LdrRp(10, 1), AluReg(Sub, 11, 9, 10), m);
    SlotEffects(env, m);
    var m1 := Set(m, 9, m.rs[0]);
    SetReads(m, 9, m.rs[0]);
    SlotEffects(env, m1);
    var m2 := Set(m1, 10, m.rs[1]);
    var d := Sub.Eval(m.rs[0], m.rs[1]);
    SetReads(m1, 10, m.rs[1]);
    SetOther(m1, 10, m.rs[1], 9);
    AluEffect(env, Sub, 11, 9, 10, m2);
    SetReads(m2, 11, d);
    SetOther(m2, 11, d, 9);
    SetOther(m2, 11, d, 10);
    ShowsFrame(env, m, st, Set(m2, 11, d));
  }

  /** Index and limit loaded, the index stepped by one more instruction, and stored. */
  lemma SteppedRuns(env: Env, add: Op, m: Mach, st: Forth, next: Cell)
    requires Shows(env, m, st) && |st.rs| >= 2
    requires forall q: Mach | X(q, 9) == st.rs[0] && X(q, TOS) == X(m, TOS) :: Execute1(env, add, q) == Set(q, 9, next)
    ensures var m' := Execute(env, [LdrRp(9, 0), LdrRp(10, 1), AluReg(Sub, 11, 9, 10)]
                                   + ([add] + [StrRp(9, 0), AluReg(Sub, 12, 9, 10), AluReg(Xor, 11, 11, 12)]), m);
            Shows(env, m', st.(rs := st.rs[0 := next])) && X(m', 11) == Crossing(st.rs[0], next, st.rs[1])
  {
    hide Execute, Execute1, Shows, AluOp.Eval;
    var head := [LdrRp(9, 0), LdrRp(10, 1), AluReg(Sub, 11, 9, 10)];
    var tail := [StrRp(9, 0), AluReg(Sub, 12, 9, 10), AluReg(Xor, 11, 11, 12)];
    ExecuteAppend(env, head, [add] + tail, m);
    LoopHeadRuns(env, m, st);
    var m1 := Execute(env, head, m);
    ExecuteCons(env, add, tail, m1);
    var m2 := Set(m1, 9, next);
    ShowsTop(env, m1, st);
    ShowsFrame(env, m1, st, m2);
    LoopTailRuns(env, m2, st, next);
  }

  /** `loop`: the index goes up by one; x11 tells whether it crossed the limit. */
  lemma LoopRuns(env: Env, m: Mach, st: Forth)
    requires Shows(env, m, st) && |st.rs| >= 2
    ensures var m' := Execute(env, LoopCode(), m);
            var next := Add.Eval(st.rs[0], 1);
            Shows(env, m', st.(rs := st.rs[0 := next]))
            && X(m', 11) == Crossing(st.rs[0], next, st.rs[1])
  {
    hide Execute, Execute1, Shows, AluOp.Eval;
    var next := Add.Eval(st.rs[0], 1);
    var add := AddImm(9, 9, 1);
    forall q: Mach | X(q, 9) == st.rs[0] && X(q, TOS) == X(m, TOS)
      ensures Execute1(env, add, q) == Set(q, 9, next)
    {
      AluEffect(env, Add, 9, 9, TOS, q);
    }
    SteppedRuns(env, add, m, st, next);
    assert LoopCode() == [LdrRp(9, 0), LdrRp(10, 1), AluReg(Sub, 11, 9, 10)]
                         + ([add] + [StrRp(9, 0), AluReg(Sub, 12, 9, 10), AluReg(Xor, 11, 11, 12)]);
  }

  /** `+loop`: the index goes up by the popped step. */
  lemma PlusLoopRuns(env: Env, m: Mach, st: Forth)
    requires Shows(env, m, st) && |st.rs| >= 2 && |st.stack| >= 2
    ensures var m' := Execute(env, PlusLoopCode(), m);
            var next := Add.Eval(st.rs[0], Item(st.stack, 0));
            Shows(env, m', st.(stack := Pop(st.stack, 1), rs := st.rs[0 := next]))
            && X(m', 11) == Crossing(st.rs[0], next, st.rs[1])
  {
    hide Execute, Execute1, Shows, AluOp.Eval;
    var next := Add.Eval(st.rs[0], Item(st.stack, 0));
    var add, drop := AluReg(Add, 9, 9, TOS), [LdrStk(TOS, 0), AddDsp(8)];
    var step := [LdrRp(9, 0), LdrRp(10, 1), AluReg(Sub, 11, 9, 10)]
                + ([add] + [StrRp(9, 0), AluReg(Sub, 12, 9, 10), AluReg(Xor, 11, 11, 12)]);
    ShowsTop(env, m, st);
    forall q: Mach | X(q, 9) == st.rs[0] && X(q, TOS) == X(m, TOS)
      ensures Execute1(env, add, q) == Set(q, 9, next)
    {
      AluEffect(env, Add, 9, 9, TOS, q);
    }
    SteppedRuns(env, add, m, st, next);
    assert PlusLoopCode() == step + drop;
    ExecuteAppend(env, step, drop, m);
    DropTopRuns(env, Execute(env, step, m), st.(rs := st.rs[0 := next]));
  }

  /** The popped step goes: the next cell is the top. */
  lemma DropTopRuns(env: Env, m: Mach, st: Forth)
    requires Shows(env, m, st) && |st.stack| >= 2
    ensures var m' := Execute(env, [LdrStk(TOS, 0), AddDsp(8)], m);
            Shows(env, m', st.(stack := Pop(st.stack, 1))) && X(m', 11) == X(m, 11)
  {
    hide Execute, Execute1, Shows;
    ShowsTop(env, m, st);
    ExecuteTwo(env, LdrStk(TOS, 0), AddDsp(8), m);
    Effects(env, m);
    var m1 := Set(m, TOS, StkAt(m.stk, m.dsp));
    Effects(env, m1);
    ShowsPopped(env, m, st, 1, m1.(dsp := m1.dsp + 1));
  }

  /** Dropping the loop frame. */
  lemma UnloopRuns(env: Env, m: Mach, st: Forth)
    requires Shows(env, m, st) && |st.rs| >= 2
    ensures Shows(env, Execute1(env, Unloop(), m), st.(rs := st.rs[2..]))
  {
    hide Execute1, Shows;
    ShowsTop(env, m, st);
    PushEffects(env, m);
    ShowsFrame(env, m, st, m.(rs := m.rs[2..]));
  }
}
