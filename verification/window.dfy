/** The deferred lowerer (`Low`, `lower`) as functions on its state. The stack lives in a
    window of constants and pool registers above the entry stack in memory; code is
    emitted only when a value is consumed or the window is settled. `None` is the panic
    of `alloc` when the pool is exhausted. */
module Window {
  import opened Options
  import opened Cells
  import opened Tokens
  import opened Machine

  /** Registers x9 to x15. */
  const POOL_FIRST: Reg := 9
  const POOL_LAST: Reg := 15

  function Pool(): set<Reg> {
    {9, 10, 11, 12, 13, 14, 15}
  }

  /** Where a stack value is: a constant not yet in a register, or a register. */
  datatype Loc = Const(n: Cell) | InReg(r: Reg)

  /** `vs` is the window, top last; `consumed` entry cells below it have been pulled in;
      `cache` maps hot constant addresses to the register that holds their cell. */
  datatype Low = Low(out: seq<Op>, vs: seq<Loc>, used: set<Reg>, consumed: nat,
                     cache: map<Addr, Reg>, hot: set<Addr>)

  function Start(hot: set<Addr>): Low {
    Low([], [InReg(TOS)], {TOS}, 0, map[], hot)
  }

  function Emit(w: Low, code: seq<Op>): Low {
    w.(out := w.out + code)
  }

  function Push(w: Low, l: Loc): Low {
    w.(vs := w.vs + [l])
  }

  // ----- registers -----

  function FirstFree(used: set<Reg>, r: Reg): Option<Reg>
    decreases POOL_LAST + 1 - r
  {
    if r > POOL_LAST then None
    else if r !in used then Some(r)
    else FirstFree(used, r + 1)
  }

  function FreeCount(used: set<Reg>): nat {
    |Pool() - used|
  }

  function Alloc(w: Low): Option<(Low, Reg)> {
    var r :- FirstFree(w.used, POOL_FIRST);
    Some((w.(used := w.used + {r}), r))
  }

  function FreeReg(w: Low, r: Reg): Low {
    w.(used := w.used - {r})
  }

  function FreeLoc(w: Low, l: Loc): Low {
    match l
    case Const(_) => w
    case InReg(r) => FreeReg(w, r)
  }

  function CacheRegs(cache: map<Addr, Reg>): set<Reg> {
    set a | a in cache :: cache[a]
  }

  function ClearCache(w: Low): Low {
    w.(used := w.used - CacheRegs(w.cache), cache := map[])
  }

  /** Entry `i` in a register; a constant is loaded into a fresh one. */
  function ToRegAt(w: Low, i: nat): (r: Option<Low>)
    requires i < |w.vs|
    ensures r.Some? ==> |r.value.vs| == |w.vs| && r.value.vs[i].InReg?
    ensures r.Some? ==> forall j | 0 <= j < |w.vs| && j != i :: r.value.vs[j] == w.vs[j]
  {
    match w.vs[i]
    case InReg(r) => Some(w)
    case Const(n) =>
      var (w1, r) :- Alloc(w);
      Some(Emit(w1, LoadImm64(r, n)).(vs := w.vs[i := InReg(r)]))
  }

  /** A copy of a value; a register is copied into a fresh one. */
  function CopyOf(w: Low, l: Loc): Option<(Low, Loc)> {
    match l
    case Const(n) => Some((w, l))
    case InReg(r) =>
      var (w, r2) :- Alloc(w);
      Some((Emit(w, [MovReg(r2, r)]), InReg(r2)))
  }

  /** Take entry `i` out of the window, freeing its register. */
  function Remove(w: Low, i: nat): Low
    requires i < |w.vs|
  {
    FreeLoc(w.(vs := w.vs[..i] + w.vs[i + 1..]), w.vs[i])
  }

  /** Pull entry cells into the window until it holds `n`. */
  function Ensure(w: Low, n: nat): (r: Option<Low>)
    ensures r.Some? ==> |r.value.vs| >= n && |r.value.vs| >= |w.vs|
    decreases n - |w.vs|
  {
    if |w.vs| >= n then Some(w)
    else
      var (w1, r) :- Alloc(w);
      var w2 := Emit(w1, [LdrStk(r, w.consumed % 4096)]);
      Ensure(w2.(consumed := w.consumed + 1, vs := [InReg(r)] + w.vs), n)
  }

  // ----- settling the window -----

  /** Pass 1: store the deep register entries from `i` up, freeing their registers. */
  function StoreRegs(w: Low, i: nat): Low
    decreases |w.vs| - i
  {
    if i + 1 >= |w.vs| then w
    else
      match w.vs[i]
      case InReg(r) =>
        StoreRegs(FreeReg(Emit(w, [StrStk(r, (|w.vs| - 2 - i) % 4096)]), r), i + 1)
      case Const(_) => StoreRegs(w, i + 1)
  }

  /** Pass 2: store the deep constant entries through a free register. */
  function StoreConsts(w: Low, i: nat): Option<Low>
    decreases |w.vs| - i
  {
    if i + 1 >= |w.vs| then Some(w)
    else
      match w.vs[i]
      case InReg(_) => StoreConsts(w, i + 1)
      case Const(n) =>
        var (w1, t) :- Alloc(w);
        StoreConsts(FreeReg(Emit(w1, LoadImm64(t, n) + [StrStk(t, (|w.vs| - 2 - i) % 4096)]), t),
                    i + 1)
  }

  /** The change of DSP, in cells, that settling makes. */
  function Delta(w: Low): int {
    w.consumed - (|w.vs| - 1)
  }

  /** The instruction that moves DSP by `delta` cells; its immediate keeps 12 bits. */
  function AdjustDsp(delta: int): seq<Op> {
    if delta > 0 then [AddDsp(delta * 8 % 4096)]
    else if delta < 0 then [SubDsp(-delta * 8 % 4096)]
    else []
  }

  /** The new top of stack goes to x0. */
  function MoveTop(w: Low): Low
    requires w.vs != []
  {
    match w.vs[|w.vs| - 1]
    case Const(n) => Emit(w, LoadImm64(TOS, n))
    case InReg(r) => if r == TOS then w else FreeReg(Emit(w, [MovReg(TOS, r)]), r)
  }

  lemma {:induction false} StoreRegsKeepsWindow(w: Low, i: nat)
    ensures StoreRegs(w, i).vs == w.vs
    decreases |w.vs| - i
  {
    if i + 1 < |w.vs| {
      match w.vs[i]
      case InReg(r) =>
        StoreRegsKeepsWindow(FreeReg(Emit(w, [StrStk(r, (|w.vs| - 2 - i) % 4096)]), r), i + 1);
      case Const(_) => StoreRegsKeepsWindow(w, i + 1);
    }
  }

  function SettleData(w: Low): Option<Low> {
    var w1 :- Ensure(ClearCache(w), 1);
    var w2 := StoreRegs(Emit(w1, AdjustDsp(Delta(w1))), 0);
    StoreRegsKeepsWindow(Emit(w1, AdjustDsp(Delta(w1))), 0);
    var w3 :- StoreConsts(MoveTop(w2), 0);
    Some(Start(w.hot).(out := w3.out))
  }

  /** Make sure `n` pool registers are free, settling the window if they are not. */
  function Reserve(w: Low, n: nat): Option<Low> {
    if FreeCount(w.used) < n then SettleData(w) else Some(w)
  }

  /** Free registers first, then operands: later allocations never settle. */
  function Prepare(w: Low, free: nat, n: nat): (r: Option<Low>)
    ensures r.Some? ==> |r.value.vs| >= n
  {
    var w :- Reserve(w, free);
    Ensure(w, n)
  }

  // ----- one token -----

  function PickBody(w: Low, n: nat): Option<Low>
    requires |w.vs| >= n + 1
  {
    var (w, c) :- CopyOf(w, w.vs[|w.vs| - 1 - n]);
    Some(Push(w, c))
  }

  /** The entry `n` below the top moved to the top. */
  function Rolled<T>(s: seq<T>, n: nat): (r: seq<T>)
    requires n < |s|
    ensures |r| == |s|
  {
    var k := |s| - 1 - n;
    s[..k] + s[k + 1..] + [s[k]]
  }

  /** The top entry moved below the next two. */
  function MinusRotated<T>(s: seq<T>): (r: seq<T>)
    requires |s| >= 3
    ensures |r| == |s|
  {
    var n := |s|;
    s[..n - 3] + [s[n - 1]] + s[n - 3..n - 1]
  }

  function RollBody(w: Low, n: nat): Low
    requires |w.vs| >= n + 1
  {
    w.(vs := Rolled(w.vs, n))
  }

  function MinusRotBody(w: Low): Low
    requires |w.vs| >= 3
  {
    w.(vs := MinusRotated(w.vs))
  }

  function TuckBody(w: Low): Option<Low>
    requires |w.vs| >= 2
  {
    var n := |w.vs|;
    var (w', c) :- CopyOf(w, w.vs[n - 1]);
    Some(w'.(vs := w.vs[..n - 2] + [c] + w.vs[n - 2..]))
  }

  function PickTok(w: Low, n: nat): Option<Low> {
    var w :- Prepare(w, n + 2, n + 1);
    PickBody(w, n)
  }

  function RollTok(w: Low, n: nat): Option<Low> {
    if n == 0 then Some(w)
    else
      var w :- Prepare(w, n + 1, n + 1);
      Some(RollBody(w, n))
  }

  function StkTok(w: Low, s: StackOp): Option<Low> {
    match s
    case Dup => PickTok(w, 0)
    case Over => PickTok(w, 1)
    case Swap => RollTok(w, 1)
    case Rot => RollTok(w, 2)
    case Drop =>
      var w :- Ensure(w, 1);
      Some(Remove(w, |w.vs| - 1))
    case Nip =>
      var w :- Ensure(w, 2);
      Some(Remove(w, |w.vs| - 2))
    case MinusRot =>
      var w :- Ensure(w, 3);
      Some(MinusRotBody(w))
    case Tuck =>
      var w :- Prepare(w, 3, 2);
      TuckBody(w)
  }

  /** Fits the 12-bit immediate of an instruction. */
  predicate Imm12(k: Cell) {
    k <= 4095
  }

  /** The one-instruction form of `r op k`, when there is one. */
  function ImmCode(op: AluOp, k: Cell, r: Reg): Option<Op> {
    if op == Mul && Exponent(k, 1) < 63 then Some(ShiftImm(Lsl, r, r, Exponent(k, 1)))
    else if op == Add && Imm12(k) then Some(AddImm(r, r, k))
    else if op == Add && Imm12(0 - k) then Some(SubImm(r, r, 0 - k))
    else if op == Sub && Imm12(k) then Some(SubImm(r, r, k))
    else if op == Sub && Imm12(0 - k) then Some(AddImm(r, r, 0 - k))
    else None
  }

  /** The top two entries, the operands, replaced by `l`. */
  function Replace2(w: Low, l: Loc): Low
    requires |w.vs| >= 2
  {
    w.(vs := w.vs[..|w.vs| - 2] + [l])
  }

  function Replace1(w: Low, l: Loc): Low
    requires |w.vs| >= 1
  {
    w.(vs := w.vs[..|w.vs| - 1] + [l])
  }

  /** Both operands in registers. */
  function TwoRegs(w: Low): (r: Option<Low>)
    requires |w.vs| >= 2
    ensures r.Some? ==> |r.value.vs| == |w.vs|
    ensures r.Some? ==> r.value.vs[|w.vs| - 2].InReg? && r.value.vs[|w.vs| - 1].InReg?
  {
    var n := |w.vs|;
    var w :- ToRegAt(w, n - 2);
    ToRegAt(w, n - 1)
  }

  function AluBody(w: Low, op: AluOp): Option<Low>
    requires |w.vs| >= 2
  {
    var n := |w.vs|;
    var a, b := w.vs[n - 2], w.vs[n - 1];
    if a.Const? && b.Const? then Some(Replace2(w, Const(op.Eval(a.n, b.n))))
    else if b.Const? && ImmCode(op, b.n, a.r).Some? then
      Some(Replace2(Emit(w, [ImmCode(op, b.n, a.r).value]), a))
    else if a.Const? && op == Add && ImmCode(Add, a.n, b.r).Some? then
      Some(Replace2(Emit(w, [ImmCode(Add, a.n, b.r).value]), b))
    else
      var w :- TwoRegs(w);
      var ra, rb := w.vs[n - 2].r, w.vs[n - 1].r;
      Some(Remove(Emit(w, [AluReg(op, ra, ra, rb)]), n - 1))
  }

  function ImmAluBody(w: Low, op: AluOp, k: Cell): Option<Low>
    requires |w.vs| >= 1
  {
    match w.vs[|w.vs| - 1]
    case Const(x) => Some(Replace1(w, Const(op.Eval(x, k))))
    case InReg(r) =>
      var code := ImmCode(op, k, r);
      if code.Some? then Some(Emit(w, [code.value]))
      else
        var (w, t) :- Alloc(w);
        Some(FreeReg(Emit(w, LoadImm64(t, k) + [AluReg(op, r, r, t)]), t))
  }

  function DupAluBody(w: Low, op: AluOp): Low
    requires |w.vs| >= 1
  {
    match w.vs[|w.vs| - 1]
    case Const(x) => Replace1(w, Const(op.Eval(x, x)))
    case InReg(r) =>
      match op
      case Add => Emit(w, [AluReg(Add, r, r, r)])
      case Mul => Emit(w, [AluReg(Mul, r, r, r)])
      case And => w
      case Or => w
      case _ => Push(Remove(w, |w.vs| - 1), Const(0))
  }

  function ShiftBody(w: Low, sh: ShiftOp): Option<Low>
    requires |w.vs| >= 2
  {
    var n := |w.vs|;
    var a, b := w.vs[n - 2], w.vs[n - 1];
    if a.Const? && b.Const? then Some(Replace2(w, Const(sh.Eval(a.n, b.n))))
    else if b.Const? then
      var k := b.n & 63;
      if k == 0 then Some(Replace2(w, a))
      else Some(Replace2(Emit(w, [ShiftImm(sh, a.r, a.r, k)]), a))
    else
      var w :- TwoRegs(w);
      var ra, rb := w.vs[n - 2].r, w.vs[n - 1].r;
      Some(Remove(Emit(w, [ShiftReg(sh, ra, ra, rb)]), n - 1))
  }

  function ImmShiftBody(w: Low, sh: ShiftOp, k: ShiftCount): Low
    requires |w.vs| >= 1
  {
    match w.vs[|w.vs| - 1]
    case Const(x) => Replace1(w, Const(sh.Eval(x, k)))
    case InReg(r) => Emit(w, [ShiftImm(sh, r, r, k)])
  }

  function DupShiftAluBody(w: Low, op: AluOp, sh: ShiftOp, k: ShiftCount): Low
    requires |w.vs| >= 1
  {
    match w.vs[|w.vs| - 1]
    case Const(x) => Replace1(w, Const(op.Eval(x, sh.Eval(x, k))))
    case InReg(r) => Emit(w, [AluShifted(op, sh, r, r, r, k)])
  }

  function ZeroCmpBody(w: Low, c: CmpOp): Low
    requires |w.vs| >= 1
  {
    match w.vs[|w.vs| - 1]
    case Const(x) => Replace1(w, Const(Flag(c.Holds(x, 0))))
    case InReg(r) => Emit(w, [CmpImm(r, 0), Csetm(r, CondOf(c))])
  }

  function BinaryCmpBody(w: Low, c: CmpOp): Option<Low>
    requires |w.vs| >= 2
  {
    var n := |w.vs|;
    var a, b := w.vs[n - 2], w.vs[n - 1];
    if a.Const? && b.Const? then Some(Replace2(w, Const(Flag(c.Holds(a.n, b.n)))))
    else if b.Const? && Imm12(b.n) then
      Some(Replace2(Emit(w, [CmpImm(a.r, b.n), Csetm(a.r, CondOf(c))]), a))
    else if a.Const? && Imm12(a.n) then
      Some(Replace2(Emit(w, [CmpImm(b.r, a.n), Csetm(b.r, SwappedCondOf(c))]), b))
    else
      var w :- TwoRegs(w);
      var ra, rb := w.vs[n - 2].r, w.vs[n - 1].r;
      Some(Remove(Emit(w, [CmpReg(ra, rb), Csetm(ra, CondOf(c))]), n - 1))
  }

  function CmpTok(w: Low, c: CmpOp): Option<Low> {
    if c.IsZeroTest() then
      var w :- Prepare(w, 4, 1);
      Some(ZeroCmpBody(w, c))
    else
      var w :- Prepare(w, 4, 2);
      BinaryCmpBody(w, c)
  }

  function SelBody(w: Low, s: SelOp): Option<Low>
    requires |w.vs| >= 2
  {
    var n := |w.vs|;
    var a, b := w.vs[n - 2], w.vs[n - 1];
    if a.Const? && b.Const? then Some(Replace2(w, Const(s.Eval(a.n, b.n))))
    else
      var w :- TwoRegs(w);
      var ra, rb := w.vs[n - 2].r, w.vs[n - 1].r;
      Some(Remove(Emit(w, [CmpReg(ra, rb), Csel(ra, ra, rb, SelCondOf(s))]), n - 1))
  }

  function FetchBody(w: Low): Option<Low>
    requires |w.vs| >= 1
  {
    var n := |w.vs|;
    var a := w.vs[n - 1];
    if a.Const? && Addr(a.n) in w.cache then
      var (w, c) :- CopyOf(w, InReg(w.cache[Addr(a.n)]));
      Some(Replace1(w, c))
    else if a.Const? && Addr(a.n) in w.hot then
      var (w, rc) :- Alloc(w);
      var w := Emit(w, LoadImm64(rc, a.n) + [Ldr0(rc, rc)]);
      var w := w.(cache := w.cache[Addr(a.n) := rc]);
      var (w, c) :- CopyOf(w, InReg(rc));
      Some(Replace1(w, c))
    else
      var w :- ToRegAt(w, n - 1);
      var r := w.vs[n - 1].r;
      Some(Emit(w, [Ldr0(r, r)]))
  }

  function CFetchBody(w: Low): Option<Low>
    requires |w.vs| >= 1
  {
    var n := |w.vs|;
    var w :- ToRegAt(w, n - 1);
    var r := w.vs[n - 1].r;
    Some(Emit(w, [Ldrb0(r, r)]))
  }

  function StoreCode(byte: bool, rx: Reg, raddr: Reg): Op {
    if byte then Strb0(rx, raddr) else Str0(rx, raddr)
  }

  function StoreBody(w: Low, byte: bool): Option<Low>
    requires |w.vs| >= 2
  {
    var n := |w.vs|;
    var w :- ToRegAt(w, n - 1);
    var w :- ToRegAt(w, n - 2);
    var rx, raddr := w.vs[n - 2].r, w.vs[n - 1].r;
    var w := Emit(w, [StoreCode(byte, rx, raddr)]);
    Some(Remove(Remove(w, n - 1), n - 2))
  }

  /** `!` and `c!` drop the whole cache, since the store may alias any cell. */
  function MemTok(w: Low, m: MemOp): Option<Low> {
    match m
    case Fetch =>
      var w :- Prepare(w, 3, 1);
      FetchBody(w)
    case CFetch =>
      var w :- Prepare(w, 3, 1);
      CFetchBody(w)
    case _ =>
      var w :- Reserve(w, 3);
      var w :- Ensure(ClearCache(w), 2);
      StoreBody(w, m == CStore)
  }

  /** The loop index, read from the return stack. */
  function LoopIdxBody(w: Low, slot: nat): Option<Low> {
    var (w, r) :- Alloc(w);
    Some(Push(Emit(w, [LdrRp(r, slot)]), InReg(r)))
  }

  function EmitCall(xt: Cell): seq<Op> {
    LoadImm64(CALL_TMP, xt) + [Blr(CALL_TMP)]
  }

  function LowerTok(w: Low, t: Tok): Option<Low> {
    match t
    case Lit(n) => Some(Push(w, Const(n)))
    case Alu(op) =>
      var w :- Prepare(w, 4, 2);
      AluBody(w, op)
    case ImmAlu(op, k) =>
      var w :- Prepare(w, 2, 1);
      ImmAluBody(w, op, k)
    case DupAlu(op) =>
      var w :- Prepare(w, 2, 1);
      Some(DupAluBody(w, op))
    case Shift(sh) =>
      var w :- Prepare(w, 3, 2);
      ShiftBody(w, sh)
    case ImmShift(sh, k) =>
      var w :- Prepare(w, 1, 1);
      Some(ImmShiftBody(w, sh, k))
    case DupShiftAlu(op, sh, k) =>
      var w :- Prepare(w, 1, 1);
      Some(DupShiftAluBody(w, op, sh, k))
    case Stk(s) => StkTok(w, s)
    case Cmp(c) => CmpTok(w, c)
    case Sel(s) =>
      var w :- Prepare(w, 3, 2);
      SelBody(w, s)
    case Mem(m) => MemTok(w, m)
    case PickN(n) => PickTok(w, n)
    case RollN(n) => RollTok(w, n)
    case LoopIdx(slot) =>
      var w :- Reserve(w, 1);
      LoopIdxBody(w, slot)
    case Call(xt) =>
      var w :- SettleData(w);
      Some(Emit(w, EmitCall(xt)))
  }

  /** The registers a token reserves before it touches the window. */
  function Frees(t: Tok): nat {
    match t
    case Alu(_) => 4
    case ImmAlu(_, _) => 2
    case DupAlu(_) => 2
    case Shift(_) => 3
    case ImmShift(_, _) => 1
    case DupShiftAlu(_, _, _) => 1
    case Stk(s) =>
      (match s
       case Dup => 2
       case Swap => 2
       case Over => 3
       case Rot => 3
       case Tuck => 3
       case _ => 0)
    case Cmp(_) => 4
    case Sel(_) => 3
    case Mem(_) => 3
    case PickN(n) => n + 2
    case RollN(n) => if n == 0 then 0 else n + 1
    case LoopIdx(_) => 1
    case _ => 0
  }

  /** The operands it pulls into the window. */
  function Pulls(t: Tok): nat {
    match t
    case Alu(_) => 2
    case Shift(_) => 2
    case Sel(_) => 2
    case Stk(s) => if s == Dup || s == Drop then 1 else if s == Rot || s == MinusRot then 3 else 2
    case Cmp(c) => if c.IsZeroTest() then 1 else 2
    case Mem(m) => if m == Fetch || m == CFetch then 1 else 2
    case PickN(n) => n + 1
    case RollN(n) => if n == 0 then 0 else n + 1
    case Lit(_) => 0
    case LoopIdx(_) => 0
    case Call(_) => 0
    case _ => 1
  }

  function LowerToks(w: Low, toks: seq<Tok>): Option<Low>
    decreases |toks|
  {
    if toks == [] then Some(w)
    else
      var w' :- LowerTok(w, toks[0]);
      LowerToks(w', toks[1..])
  }

  // ----- what fits the fields of the instructions -----

  /** The window fits the immediates that settling it uses. */
  predicate Fits(w: Low) {
    |w.vs| <= 4095 && -511 <= Delta(w) <= 511
  }

  /** Preparing a token: the change of DSP fits if the window is settled; if not, the loads
      of the operands reach. */
  predicate PrepareFits(w: Low, free: nat, n: nat) {
    if FreeCount(w.used) < free then Fits(w) else |w.vs| >= n || Delta(w) + n <= 4096
  }

  predicate TokFits(w: Low, t: Tok) {
    if t.Call? then Fits(w) else PrepareFits(w, Frees(t), Pulls(t))
  }

  /** Every token fits where it is lowered. */
  predicate ToksFit(w: Low, toks: seq<Tok>)
    decreases |toks|
  {
    toks == []
    || (TokFits(w, toks[0]) && (LowerTok(w, toks[0]).Some? ==> ToksFit(LowerTok(w, toks[0]).value, toks[1..])))
  }

  // ----- a whole run -----

  /** How often each constant address is fetched right after its literal. */
  function FetchCounts(toks: seq<Tok>): map<Addr, nat>
    decreases |toks|
  {
    var n := |toks|;
    if n < 2 then map[]
    else
      var c := FetchCounts(toks[..n - 1]);
      if toks[n - 1] == Mem(Fetch) && toks[n - 2].Lit? then
        var a := Addr(toks[n - 2].n);
        var before: nat := if a in c then c[a] else 0;
        c[a := before + 1]
      else c
  }

  /** Addresses fetched at least twice in the run. */
  function HotCells(toks: seq<Tok>): set<Addr> {
    var c := FetchCounts(toks);
    set a | a in c && c[a] >= 2
  }

  /** A run fits: every token where it is lowered, and the window left at its end. */
  predicate RunFits(toks: seq<Tok>) {
    var w := Start(HotCells(toks));
    ToksFit(w, toks) && (LowerToks(w, toks).Some? ==> Fits(LowerToks(w, toks).value))
  }

  /** The code of a run. */
  function Lowered(toks: seq<Tok>): Option<seq<Op>> {
    var w :- LowerToks(Start(HotCells(toks)), toks);
    var w :- SettleData(w);
    Some(w.out)
  }
}
