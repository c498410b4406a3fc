/** The lowerer as it runs: one object whose methods update the window, the register set and
    the cell cache in place and append to the emitted code. Every method does what the function
    of `Window` says, failure included; on valid windows a token succeeds unless it starves,
    keeps the window valid, and emits code that means the token. */
module Lowerers {
  import opened Options
  import opened Cells
  import opened Tokens
  import opened Machine
  import opened Window
  import opened Ownership
  import opened Simulation
  import opened Lowering

  lemma {:induction false} EnsureKeeps(w: Low, n: nat)
    ensures Ensure(w, n).Some? ==> Ensure(w, n).value.hot == w.hot && Ensure(w, n).value.cache == w.cache
    decreases n - |w.vs|
  {
    if |w.vs| < n && Alloc(w).Some? {
      var (w1, r) := Alloc(w).value;
      var w2 := Emit(w1, [LdrStk(r, w.consumed % 4096)]);
      EnsureKeeps(w2.(consumed := w.consumed + 1, vs := [InReg(r)] + w.vs), n);
    }
  }

  lemma CopyKeeps(w: Low, l: Loc)
    ensures CopyOf(w, l).Some? ==> CopyOf(w, l).value.0.vs == w.vs
  {
  }

  lemma TopRemoved(vs: seq<Loc>, a: Loc, b: Loc)
    ensures (vs + [a, b])[..|vs| + 1] + (vs + [a, b])[|vs| + 2..] == vs + [a]
  {
  }

  lemma LitTok(w: Low, n: Cell)
    ensures LowerTok(w, Lit(n)) == Some(Push(w, Const(n)))
  {
  }

  lemma StackToks(w: Low, s: StackOp, n: nat)
    ensures LowerTok(w, Stk(s)) == StkTok(w, s)
    ensures LowerTok(w, PickN(n)) == PickTok(w, n) && LowerTok(w, RollN(n)) == RollTok(w, n)
  {
    hide StkTok, PickTok, RollTok;
  }

  /** A store frees both its registers. */
  lemma StoreRemoved(w: Low, byte: bool, rx: Reg, raddr: Reg, w': Low)
    requires |w.vs| >= 2
    requires var n := |w.vs|;
             var w1 := ToRegAt(w, n - 1);
             w1.Some? && w1.value.vs[n - 1] == InReg(raddr)
             && var w2 := ToRegAt(w1.value, n - 2);
                w2.Some? && w2.value.vs[n - 2] == InReg(rx)
                && w' == Emit(w2.value, [StoreCode(byte, rx, raddr)]).(
                           vs := w.vs[..n - 2], used := w2.value.used - {rx} - {raddr})
    ensures StoreBody(w, byte) == Some(w')
  {
    hide ToRegAt, StoreCode;
    var n := |w.vs|;
    var w1 := ToRegAt(w, n - 1).value;
    var w2 := ToRegAt(w1, n - 2).value;
    assert w2.vs[..n - 1] + w2.vs[n..] == w2.vs[..n - 1];
    assert w2.vs[..n - 1][..n - 2] + w2.vs[..n - 1][n - 1..] == w.vs[..n - 2];
    assert w2.used - {rx} - {raddr} == w2.used - {raddr} - {rx};
  }

  /** The code added from `w` to `w'` takes every machine that stands at a state to one that
      stands where the token takes that state. */
  ghost predicate Means(w: Low, w': Low, t: Tok) {
    forall env: Env, m0: Mach, st: Forth | Sim(env, m0, w, st) && TokFits(w, t) && Step(env.words, t, st).Some? ::
      Sim(env, m0, w', Step(env.words, t, st).value)
  }

  lemma TokenMeans(w: Low, t: Tok)
    requires ValidTok(t) && LowerTok(w, t).Some?
    ensures Means(w, LowerTok(w, t).value, t)
  {
    hide LowerTok, TokFits, Step, Sim;
    var w' := LowerTok(w, t).value;
    forall env: Env, m0: Mach, st: Forth | Sim(env, m0, w, st) && TokFits(w, t) && Step(env.words, t, st).Some?
      ensures Sim(env, m0, w', Step(env.words, t, st).value)
    {
      TokSim(env, m0, w, st, t);
    }
  }

  /** The same for a run. */
  ghost predicate RunMeans(w: Low, w': Low, toks: seq<Tok>) {
    forall env: Env, m0: Mach, st: Forth | Sim(env, m0, w, st) && ToksFit(w, toks) && Run(env.words, toks, st).Some? ::
      Sim(env, m0, w', Run(env.words, toks, st).value)
  }

  lemma TokensMean(w: Low, toks: seq<Tok>)
    requires ValidToks(toks) && LowerToks(w, toks).Some?
    ensures RunMeans(w, LowerToks(w, toks).value, toks)
  {
    hide LowerToks, ToksFit, Run, Sim;
    var w' := LowerToks(w, toks).value;
    forall env: Env, m0: Mach, st: Forth | Sim(env, m0, w, st) && ToksFit(w, toks) && Run(env.words, toks, st).Some?
      ensures Sim(env, m0, w', Run(env.words, toks, st).value)
    {
      ToksSim(env, m0, w, st, toks);
    }
  }

  /** Code that means a run: on every machine in canonical form on whose state the run does
      not underflow, it ends in the canonical form of what the run gives. */
  ghost predicate CodeMeans(code: seq<Op>, toks: seq<Tok>) {
    forall env: Env, m: Mach | m.dsp <= env.base && Run(env.words, toks, View(env, m)).Some? ::
      Some(View(env, Execute(env, code, m))) == Run(env.words, toks, View(env, m))
  }

  lemma LoweredCodeMeans(toks: seq<Tok>)
    requires ValidToks(toks) && RunFits(toks) && Lowered(toks).Some?
    ensures CodeMeans(Lowered(toks).value, toks)
  {
    hide Lowered, RunFits, Run, View, Execute;
    forall env: Env, m: Mach | m.dsp <= env.base && Run(env.words, toks, View(env, m)).Some?
      ensures Some(View(env, Execute(env, Lowered(toks).value, m))) == Run(env.words, toks, View(env, m))
    {
      LoweredMeans(env, m, toks);
    }
  }

  lemma SettleStays(w: Low)
    ensures Owned(w) ==>
              var r := SettleData(w);
              r.Some? && Owned(r.value) && r.value == Start(r.value.hot).(out := r.value.out)
  {
    hide Owned, SettleData;
    if Owned(w) {
      SettleOwned(w);
    }
  }

  class Lowerer {
    var out: seq<Op>
    var vs: seq<Loc>
    var used: set<Reg>
    var consumed: nat
    var cache: map<Addr, Reg>
    var hot: set<Addr>

    ghost function State(): Low
      reads this
    {
      Low(out, vs, used, consumed, cache, hot)
    }

    /** Every register in use has one owner. */
    ghost predicate Valid()
      reads this
    {
      Owned(State())
    }

    /** What a method that may run out of registers promises. */
    ghost predicate Reaches(ok: bool, expected: Option<Low>)
      reads this
    {
      if expected.Some? then ok && State() == expected.value else !ok
    }

    constructor (hotCells: set<Addr>)
      ensures Valid() && State() == Start(hotCells)
    {
      out, vs, used, consumed, cache, hot := [], [InReg(TOS)], {TOS}, 0, map[], hotCells;
      new;
      StartOwned(hotCells);
    }

    method Append(code: seq<Op>)
      modifies this`out
      ensures State() == Emit(old(State()), code)
    {
      out := out + code;
    }

    method PushLoc(l: Loc)
      modifies this`vs
      ensures State() == Push(old(State()), l)
    {
      vs := vs + [l];
    }

    method PopLoc() returns (l: Loc)
      requires vs != []
      modifies this`vs
      ensures l == old(vs[|vs| - 1]) && vs == old(vs[..|vs| - 1])
    {
      l := vs[|vs| - 1];
      vs := vs[..|vs| - 1];
    }

    /** The first free register of the pool. */
    method AllocReg() returns (ok: bool, r: Reg)
      modifies this`used
      ensures match Alloc(old(State()))
              case None => !ok
              case Some((w, q)) => ok && r == q && State() == w
    {
      r := POOL_FIRST;
      while r <= POOL_LAST && r in used
        invariant POOL_FIRST <= r <= POOL_LAST + 1
        invariant used == old(used)
        invariant FirstFree(used, POOL_FIRST) == FirstFree(used, r)
        decreases POOL_LAST + 1 - r
      {
        r := r + 1;
      }
      ok := r <= POOL_LAST;
      if ok {
        used := used + {r};
      }
    }

    method Free(r: Reg)
      modifies this`used
      ensures State() == FreeReg(old(State()), r)
    {
      used := used - {r};
    }

    method FreeLocation(l: Loc)
      modifies this`used
      ensures State() == FreeLoc(old(State()), l)
    {
      if l.InReg? {
        used := used - {l.r};
      }
    }

    /** The number of free registers of the pool. */
    method CountFree() returns (n: nat)
      ensures n == FreeCount(used)
    {
      n := 0;
      ghost var free: set<Reg> := {};
      for r := POOL_FIRST to POOL_LAST + 1
        invariant forall q :: q in free <==> POOL_FIRST <= q < r && q !in used
        invariant n == |free|
      {
        if r !in used {
          n := n + 1;
          free := free + {r};
        }
      }
      assert free == Pool() - used;
    }

    /** Every cached cell goes; its register is free again. */
    method DropCache()
      modifies this`used, this`cache
      ensures State() == ClearCache(old(State()))
    {
      var left := cache;
      while left != map[]
        invariant used == old(used) - (set a | a in old(cache) && a !in left :: old(cache)[a])
        invariant forall a | a in left :: a in old(cache) && left[a] == old(cache)[a]
        decreases |left|
      {
        var a :| a in left;
        used := used - {left[a]};
        left := left - {a};
      }
      cache := map[];
    }

    /** Pull cells of the entry stack into the window until it holds `n`. */
    method EnsureCells(n: nat) returns (ok: bool)
      modifies this
      ensures Reaches(ok, Ensure(old(State()), n))
    {
      ok := true;
      while |vs| < n
        invariant ok && Ensure(State(), n) == Ensure(old(State()), n)
        decreases n - |vs|
      {
        var r;
        ok, r := AllocReg();
        if !ok {
          return;
        }
        out := out + [LdrStk(r, consumed % 4096)];
        consumed := consumed + 1;
        vs := [InReg(r)] + vs;
      }
    }

    /** A value in a register. */
    method ToReg(l: Loc) returns (ok: bool, r: Reg)
      modifies this
      ensures match l
              case InReg(q) => ok && r == q && State() == old(State())
              case Const(n) =>
                match Alloc(old(State()))
                case None => !ok
                case Some((w, q)) => ok && r == q && State() == Emit(w, LoadImm64(q, n))
    {
      match l
      case InReg(q) =>
        ok, r := true, q;
      case Const(n) =>
        ok, r := AllocReg();
        if ok {
          out := out + LoadImm64(r, n);
        }
    }

    method Copy(l: Loc) returns (ok: bool, c: Loc)
      modifies this
      ensures match CopyOf(old(State()), l)
              case None => !ok
              case Some((w, q)) => ok && c == q && State() == w
    {
      ok, c := true, l;
      if l.InReg? {
        var r;
        ok, r := AllocReg();
        if ok {
          out := out + [MovReg(r, l.r)];
          c := InReg(r);
        }
      }
    }

    /** Settling, pass 1: store the deep register entries. */
    method StoreDeepRegs()
      modifies this`out, this`used
      ensures State() == StoreRegs(old(State()), 0)
    {
      ghost var w := State();
      var i := 0;
      while i < |vs| - 1
        invariant 0 <= i && i <= |vs|
        invariant StoreRegs(State(), i) == StoreRegs(w, 0)
      {
        if vs[i].InReg? {
          out := out + [StrStk(vs[i].r, (|vs| - 2 - i) % 4096)];
          used := used - {vs[i].r};
        }
        i := i + 1;
      }
    }

    /** Settling, pass 2: store the deep constants through a free register. */
    method StoreDeepConsts() returns (ok: bool)
      modifies this`out, this`used
      ensures Reaches(ok, StoreConsts(old(State()), 0))
    {
      ghost var w := State();
      var i := 0;
      ok := true;
      while i < |vs| - 1
        invariant 0 <= i && i <= |vs|
        invariant ok && StoreConsts(State(), i) == StoreConsts(w, 0)
      {
        if vs[i].Const? {
          var n := vs[i].n;
          var t;
          ok, t := AllocReg();
          if !ok {
            return;
          }
          out := out + (LoadImm64(t, n) + [StrStk(t, (|vs| - 2 - i) % 4096)]);
          used := used - {t};
        }
        i := i + 1;
      }
    }

    /** The new top of stack goes to x0. */
    method MoveTopToX0()
      requires vs != []
      modifies this`out, this`used
      ensures State() == MoveTop(old(State()))
    {
      match vs[|vs| - 1]
      case Const(n) =>
        out := out + LoadImm64(TOS, n);
      case InReg(r) =>
        if r != TOS {
          out := out + [MovReg(TOS, r)];
          used := used - {r};
        }
    }

    /** Bring the window back to canonical form. */
    method Settle() returns (ok: bool)
      modifies this
      ensures Reaches(ok, SettleData(old(State())))
      ensures old(Valid()) ==> ok && Valid() && State() == Start(hot).(out := out)
    {
      hide Owned;
      SettleStays(State());
      hide Ensure, StoreRegs, StoreConsts, AdjustDsp, MoveTop;
      DropCache();
      ghost var w0 := State();
      ok := EnsureCells(1);
      if !ok {
        return;
      }
      EnsureKeeps(w0, 1);
      out := out + AdjustDsp(consumed - (|vs| - 1));
      StoreRegsKeepsWindow(State(), 0);
      StoreDeepRegs();
      MoveTopToX0();
      ok := StoreDeepConsts();
      vs, used, consumed := [InReg(TOS)], {TOS}, 0;
    }

    method ReserveRegs(n: nat) returns (ok: bool)
      modifies this
      ensures Reaches(ok, Reserve(old(State()), n))
    {
      ok := true;
      var free := CountFree();
      if free < n {
        ok := Settle();
      }
    }

    method PrepareFor(free: nat, n: nat) returns (ok: bool)
      modifies this
      ensures Reaches(ok, Prepare(old(State()), free, n))
    {
      ok := ReserveRegs(free);
      if ok {
        ok := EnsureCells(n);
      }
    }

    // ----- one method per kind of token -----

    method Pick(n: nat) returns (ok: bool)
      modifies this
      ensures Reaches(ok, PickTok(old(State()), n))
    {
      hide Prepare, CopyOf;
      ok := PrepareFor(n + 2, n + 1);
      if ok {
        var c;
        ok, c := Copy(vs[|vs| - 1 - n]);
        if ok {
          PushLoc(c);
        }
      }
    }

    method Roll(n: nat) returns (ok: bool)
      modifies this
      ensures Reaches(ok, RollTok(old(State()), n))
    {
      ok := true;
      if n != 0 {
        ok := PrepareFor(n + 1, n + 1);
        if ok {
          var k := |vs| - 1 - n;
          vs := vs[..k] + vs[k + 1..] + [vs[k]];
        }
      }
    }

    method Stack(s: StackOp) returns (ok: bool)
      modifies this
      ensures Reaches(ok, StkTok(old(State()), s))
    {
      hide Ensure, Prepare, CopyOf, FreeLoc;
      match s
      case Dup => ok := Pick(0);
      case Over => ok := Pick(1);
      case Swap => ok := Roll(1);
      case Rot => ok := Roll(2);
      case Drop =>
        ok := EnsureCells(1);
        if ok {
          assert vs[..|vs| - 1] + vs[|vs|..] == vs[..|vs| - 1];
          var t := PopLoc();
          FreeLocation(t);
        }
      case Nip =>
        ok := EnsureCells(2);
        if ok {
          var u := vs[|vs| - 2];
          vs := vs[..|vs| - 2] + vs[|vs| - 1..];
          FreeLocation(u);
        }
      case MinusRot =>
        ok := EnsureCells(3);
        if ok {
          var n := |vs|;
          vs := vs[..n - 3] + [vs[n - 1]] + vs[n - 3..n - 1];
        }
      case Tuck =>
        ok := PrepareFor(3, 2);
        if ok {
          var n := |vs|;
          var c;
          ghost var w := State();
          ok, c := Copy(vs[n - 1]);
          if ok {
            CopyKeeps(w, w.vs[n - 1]);
            vs := vs[..n - 2] + [c] + vs[n - 2..];
          }
        }
    }

    /** Fold the constant `k` into one instruction on the operand, when there is one. */
    method ImmBinTo(operand: Reg, op: AluOp, k: Cell) returns (done: bool)
      modifies this`out
      ensures done == ImmCode(op, k, operand).Some?
      ensures State() == if done then Emit(old(State()), [ImmCode(op, k, operand).value]) else old(State())
    {
      done := true;
      if op == Mul && Exponent(k, 1) < 63 {
        out := out + [ShiftImm(Lsl, operand, operand, Exponent(k, 1))];
      } else if op == Add && Imm12(k) {
        out := out + [AddImm(operand, operand, k)];
      } else if op == Add && Imm12(0 - k) {
        out := out + [SubImm(operand, operand, 0 - k)];
      } else if op == Sub && Imm12(k) {
        out := out + [SubImm(operand, operand, k)];
      } else if op == Sub && Imm12(0 - k) {
        out := out + [AddImm(operand, operand, 0 - k)];
      } else {
        done := false;
      }
    }

    /** Both operands, popped off the window, in registers. */
    method BothRegs(a: Loc, b: Loc) returns (ok: bool, ra: Reg, rb: Reg)
      modifies this
      ensures var w := old(State());
              match TwoRegs(w.(vs := w.vs + [a, b]))
              case None => !ok
              case Some(w2) =>
                ok && w2.vs == w.vs + [InReg(ra), InReg(rb)] && State() == w2.(vs := w.vs)
    {
      rb := TOS;
      ok, ra := ToReg(a);
      if ok {
        ok, rb := ToReg(b);
      }
    }

    /** Code on two registers: the second is free again, the first holds the result. */
    method Combine(ra: Reg, rb: Reg, code: seq<Op>)
      modifies this
      ensures var w := old(State()).(vs := old(vs) + [InReg(ra), InReg(rb)]);
              State() == Remove(Emit(w, code), |w.vs| - 1)
    {
      TopRemoved(vs, InReg(ra), InReg(rb));
      out := out + code;
      used := used - {rb};
      vs := vs + [InReg(ra)];
    }

    /** The general case of a binary operator. */
    method BinRegs(op: AluOp, a: Loc, b: Loc) returns (ok: bool)
      requires !(a.Const? && b.Const?)
      requires !(b.Const? && ImmCode(op, b.n, a.r).Some?)
      requires !(a.Const? && op == Add && ImmCode(Add, a.n, b.r).Some?)
      modifies this
      ensures Reaches(ok, AluBody(old(State()).(vs := old(vs) + [a, b]), op))
    {
      hide TwoRegs, Remove, Emit, ImmCode;
      var ra, rb;
      ok, ra, rb := BothRegs(a, b);
      if ok {
        Combine(ra, rb, [AluReg(op, ra, ra, rb)]);
      }
    }

    method BinOf(op: AluOp, a: Loc, b: Loc) returns (ok: bool)
      modifies this
      ensures Reaches(ok, AluBody(old(State()).(vs := old(vs) + [a, b]), op))
    {
      hide AluOp.Eval, ImmCode, TwoRegs;
      ok := true;
      ghost var w := State().(vs := vs + [a, b]);
      assert w.vs[..|w.vs| - 2] == vs;
      if a.Const? && b.Const? {
        PushLoc(Const(op.Eval(a.n, b.n)));
        return;
      }
      if b.Const? {
        var done := ImmBinTo(a.r, op, b.n);
        if done {
          PushLoc(a);
          return;
        }
      }
      if a.Const? && op == Add {
        var done := ImmBinTo(b.r, Add, a.n);
        if done {
          PushLoc(b);
          return;
        }
      }
      ok := BinRegs(op, a, b);
    }

    method Bin(op: AluOp) returns (ok: bool)
      modifies this
      ensures Reaches(ok, LowerTok(old(State()), Alu(op)))
    {
      hide Prepare, AluBody;
      ok := PrepareFor(4, 2);
      if ok {
        ghost var w := State();
        var b := PopLoc();
        var a := PopLoc();
        assert w.vs == vs + [a, b];
        ok := BinOf(op, a, b);
      }
    }

    method ImmBinOf(op: AluOp, k: Cell, a: Loc) returns (ok: bool)
      modifies this
      ensures Reaches(ok, ImmAluBody(old(State()).(vs := old(vs) + [a]), op, k))
    {
      hide AluOp.Eval, ImmCode, LoadImm64;
      ok := true;
      ghost var w := State().(vs := vs + [a]);
      assert w.vs[..|w.vs| - 1] == vs && w.vs[..|w.vs| - 1] + w.vs[|w.vs|..] == vs;
      if a.Const? {
        PushLoc(Const(op.Eval(a.n, k)));
        return;
      }
      var done := ImmBinTo(a.r, op, k);
      if done {
        PushLoc(a);
        return;
      }
      var t;
      ok, t := AllocReg();
      if ok {
        Append(LoadImm64(t, k) + [AluReg(op, a.r, a.r, t)]);
        Free(t);
        PushLoc(a);
      }
    }

    method ImmBin(op: AluOp, k: Cell) returns (ok: bool)
      modifies this
      ensures Reaches(ok, LowerTok(old(State()), ImmAlu(op, k)))
    {
      hide Prepare, ImmAluBody;
      ok := PrepareFor(2, 1);
      if ok {
        ghost var w := State();
        var a := PopLoc();
        assert w.vs == vs + [a];
        ok := ImmBinOf(op, k, a);
      }
    }

    method DupBinOf(op: AluOp, a: Loc) returns (ok: bool)
      modifies this
      ensures Reaches(ok, Some(DupAluBody(old(State()).(vs := old(vs) + [a]), op)))
    {
      hide AluOp.Eval;
      ok := true;
      ghost var w := State().(vs := vs + [a]);
      assert w.vs[..|w.vs| - 1] == vs && w.vs[..|w.vs| - 1] + w.vs[|w.vs|..] == vs;
      if a.Const? {
        PushLoc(Const(op.Eval(a.n, a.n)));
        return;
      }
      match op
      case Add =>
        Append([AluReg(Add, a.r, a.r, a.r)]);
        PushLoc(a);
      case Mul =>
        Append([AluReg(Mul, a.r, a.r, a.r)]);
        PushLoc(a);
      case And => PushLoc(a);
      case Or => PushLoc(a);
      case _ =>
        FreeLocation(a);
        PushLoc(Const(0));
    }

    method DupBin(op: AluOp) returns (ok: bool)
      modifies this
      ensures Reaches(ok, LowerTok(old(State()), DupAlu(op)))
    {
      hide Prepare, DupAluBody;
      ok := PrepareFor(2, 1);
      if ok {
        ghost var w := State();
        var a := PopLoc();
        assert w.vs == vs + [a];
        ok := DupBinOf(op, a);
      }
    }

    method ShiftTokOf(sh: ShiftOp, value: Loc, count: Loc) returns (ok: bool)
      modifies this
      ensures Reaches(ok, ShiftBody(old(State()).(vs := old(vs) + [value, count]), sh))
    {
      hide ShiftOp.Eval, TwoRegs, Remove;
      ok := true;
      ghost var w := State().(vs := vs + [value, count]);
      assert w.vs[..|w.vs| - 2] == vs;
      if value.Const? && count.Const? {
        PushLoc(Const(sh.Eval(value.n, count.n)));
        return;
      }
      if count.Const? {
        var k := count.n & 63;
        if k == 0 {
          PushLoc(value);
          return;
        }
        Append([ShiftImm(sh, value.r, value.r, k)]);
        PushLoc(value);
        return;
      }
      var rv, rc;
      ok, rv, rc := BothRegs(value, count);
      if ok {
        Combine(rv, rc, [ShiftReg(sh, rv, rv, rc)]);
      }
    }

    method ShiftTok(sh: ShiftOp) returns (ok: bool)
      modifies this
      ensures Reaches(ok, LowerTok(old(State()), Tok.Shift(sh)))
    {
      hide Prepare, ShiftBody;
      ok := PrepareFor(3, 2);
      if ok {
        ghost var w := State();
        var count := PopLoc();
        var value := PopLoc();
        assert w.vs == vs + [value, count];
        ok := ShiftTokOf(sh, value, count);
      }
    }

    method ImmShiftTokOf(sh: ShiftOp, k: ShiftCount, a: Loc) returns (ok: bool)
      modifies this
      ensures Reaches(ok, Some(ImmShiftBody(old(State()).(vs := old(vs) + [a]), sh, k)))
    {
      hide ShiftOp.Eval;
      ok := true;
      ghost var w := State().(vs := vs + [a]);
      assert w.vs[..|w.vs| - 1] == vs && w.vs[..|w.vs| - 1] + w.vs[|w.vs|..] == vs;
      if a.Const? {
        PushLoc(Const(sh.Eval(a.n, k)));
        return;
      }
      Append([ShiftImm(sh, a.r, a.r, k)]);
      PushLoc(a);
    }

    method ImmShiftTok(sh: ShiftOp, k: ShiftCount) returns (ok: bool)
      modifies this
      ensures Reaches(ok, LowerTok(old(State()), ImmShift(sh, k)))
    {
      hide Prepare, ImmShiftBody;
      ok := PrepareFor(1, 1);
      if ok {
        ghost var w := State();
        var a := PopLoc();
        assert w.vs == vs + [a];
        ok := ImmShiftTokOf(sh, k, a);
      }
    }

    method DupShiftBinOf(op: AluOp, sh: ShiftOp, k: ShiftCount, a: Loc) returns (ok: bool)
      modifies this
      ensures Reaches(ok, Some(DupShiftAluBody(old(State()).(vs := old(vs) + [a]), op, sh, k)))
    {
      hide AluOp.Eval, ShiftOp.Eval;
      ok := true;
      ghost var w := State().(vs := vs + [a]);
      assert w.vs[..|w.vs| - 1] == vs && w.vs[..|w.vs| - 1] + w.vs[|w.vs|..] == vs;
      if a.Const? {
        PushLoc(Const(op.Eval(a.n, sh.Eval(a.n, k))));
        return;
      }
      Append([AluShifted(op, sh, a.r, a.r, a.r, k)]);
      PushLoc(a);
    }

    method DupShiftBin(op: AluOp, sh: ShiftOp, k: ShiftCount) returns (ok: bool)
      modifies this
      ensures Reaches(ok, LowerTok(old(State()), DupShiftAlu(op, sh, k)))
    {
      hide Prepare, DupShiftAluBody;
      ok := PrepareFor(1, 1);
      if ok {
        ghost var w := State();
        var a := PopLoc();
        assert w.vs == vs + [a];
        ok := DupShiftBinOf(op, sh, k, a);
      }
    }

    method ZeroTestOf(c: CmpOp, a: Loc) returns (ok: bool)
      modifies this
      ensures Reaches(ok, Some(ZeroCmpBody(old(State()).(vs := old(vs) + [a]), c)))
    {
      hide CmpOp.Holds, CondOf, Flag;
      ok := true;
      ghost var w := State().(vs := vs + [a]);
      assert w.vs[..|w.vs| - 1] == vs && w.vs[..|w.vs| - 1] + w.vs[|w.vs|..] == vs;
      if a.Const? {
        PushLoc(Const(Flag(c.Holds(a.n, 0))));
        return;
      }
      Append([CmpImm(a.r, 0), Csetm(a.r, CondOf(c))]);
      PushLoc(a);
    }

    method ZeroTest(c: CmpOp) returns (ok: bool)
      requires c.IsZeroTest()
      modifies this
      ensures Reaches(ok, LowerTok(old(State()), Cmp(c)))
    {
      hide Prepare, ZeroCmpBody;
      ok := PrepareFor(4, 1);
      if ok {
        ghost var w := State();
        var a := PopLoc();
        assert w.vs == vs + [a];
        ok := ZeroTestOf(c, a);
      }
    }

    method CompareOf(c: CmpOp, a: Loc, b: Loc) returns (ok: bool)
      modifies this
      ensures Reaches(ok, BinaryCmpBody(old(State()).(vs := old(vs) + [a, b]), c))
    {
      hide CmpOp.Holds, CondOf, SwappedCondOf, Flag, TwoRegs, Remove;
      ok := true;
      ghost var w := State().(vs := vs + [a, b]);
      assert w.vs[..|w.vs| - 2] == vs;
      if a.Const? && b.Const? {
        PushLoc(Const(Flag(c.Holds(a.n, b.n))));
        return;
      }
      if b.Const? && Imm12(b.n) {
        Append([CmpImm(a.r, b.n), Csetm(a.r, CondOf(c))]);
        PushLoc(a);
        return;
      }
      if a.Const? && Imm12(a.n) {
        Append([CmpImm(b.r, a.n), Csetm(b.r, SwappedCondOf(c))]);
        PushLoc(b);
        return;
      }
      var ra, rb;
      ok, ra, rb := BothRegs(a, b);
      if ok {
        Combine(ra, rb, [CmpReg(ra, rb), Csetm(ra, CondOf(c))]);
      }
    }

    method Compare(c: CmpOp) returns (ok: bool)
      requires !c.IsZeroTest()
      modifies this
      ensures Reaches(ok, LowerTok(old(State()), Cmp(c)))
    {
      hide Prepare, BinaryCmpBody;
      ok := PrepareFor(4, 2);
      if ok {
        ghost var w := State();
        var b := PopLoc();
        var a := PopLoc();
        assert w.vs == vs + [a, b];
        ok := CompareOf(c, a, b);
      }
    }

    method SelectOf(s: SelOp, a: Loc, b: Loc) returns (ok: bool)
      modifies this
      ensures Reaches(ok, SelBody(old(State()).(vs := old(vs) + [a, b]), s))
    {
      hide SelOp.Eval, SelCondOf, TwoRegs, Remove;
      ok := true;
      ghost var w := State().(vs := vs + [a, b]);
      assert w.vs[..|w.vs| - 2] == vs;
      if a.Const? && b.Const? {
        PushLoc(Const(s.Eval(a.n, b.n)));
        return;
      }
      var ra, rb;
      ok, ra, rb := BothRegs(a, b);
      if ok {
        Combine(ra, rb, [CmpReg(ra, rb), Csel(ra, ra, rb, SelCondOf(s))]);
      }
    }

    method Select(s: SelOp) returns (ok: bool)
      modifies this
      ensures Reaches(ok, LowerTok(old(State()), Sel(s)))
    {
      hide Prepare, SelBody;
      ok := PrepareFor(3, 2);
      if ok {
        ghost var w := State();
        var b := PopLoc();
        var a := PopLoc();
        assert w.vs == vs + [a, b];
        ok := SelectOf(s, a, b);
      }
    }

    /** `@`: from the cache, into the cache when the address is hot, or plainly. */
    method FetchTokOf(a: Loc) returns (ok: bool)
      modifies this
      ensures Reaches(ok, FetchBody(old(State()).(vs := old(vs) + [a])))
    {
      hide LoadImm64;
      ok := true;
      ghost var w := State().(vs := vs + [a]);
      assert w.vs[..|w.vs| - 1] == vs && w.vs[..|w.vs| - 1] + w.vs[|w.vs|..] == vs;
      if a.Const? && Addr(a.n) in cache {
        var c;
        ok, c := Copy(InReg(cache[Addr(a.n)]));
        if ok {
          PushLoc(c);
        }
        return;
      }
      if a.Const? && Addr(a.n) in hot {
        var rc, c;
        ok, rc := AllocReg();
        if ok {
          Append(LoadImm64(rc, a.n) + [Ldr0(rc, rc)]);
          cache := cache[Addr(a.n) := rc];
          ok, c := Copy(InReg(rc));
          if ok {
            PushLoc(c);
          }
        }
        return;
      }
      var r;
      ok, r := ToReg(a);
      if ok {
        Append([Ldr0(r, r)]);
        PushLoc(InReg(r));
      }
    }

    method FetchTok() returns (ok: bool)
      modifies this
      ensures Reaches(ok, LowerTok(old(State()), Mem(Fetch)))
    {
      hide Prepare, FetchBody;
      ok := PrepareFor(3, 1);
      if ok {
        ghost var w := State();
        var a := PopLoc();
        assert w.vs == vs + [a];
        ok := FetchTokOf(a);
      }
    }

    method CFetchTokOf(a: Loc) returns (ok: bool)
      modifies this
      ensures Reaches(ok, CFetchBody(old(State()).(vs := old(vs) + [a])))
    {
      hide LoadImm64;
      ok := true;
      ghost var w := State().(vs := vs + [a]);
      assert w.vs[..|w.vs| - 1] == vs && w.vs[..|w.vs| - 1] + w.vs[|w.vs|..] == vs;
      var r;
      ok, r := ToReg(a);
      if ok {
        Append([Ldrb0(r, r)]);
        PushLoc(InReg(r));
      }
    }

    method CFetchTok() returns (ok: bool)
      modifies this
      ensures Reaches(ok, LowerTok(old(State()), Mem(CFetch)))
    {
      hide Prepare, CFetchBody;
      ok := PrepareFor(3, 1);
      if ok {
        ghost var w := State();
        var a := PopLoc();
        assert w.vs == vs + [a];
        ok := CFetchTokOf(a);
      }
    }

    method StoreOf(byte: bool, x: Loc, addr: Loc) returns (ok: bool)
      modifies this
      ensures Reaches(ok, StoreBody(old(State()).(vs := old(vs) + [x, addr]), byte))
    {
      hide LoadImm64, StoreCode;
      ghost var w := State().(vs := vs + [x, addr]);
      assert w.vs[..|w.vs| - 2] == vs;
      var raddr, rx;
      ok, raddr := ToReg(addr);
      if ok {
        ok, rx := ToReg(x);
        if ok {
          Append([StoreCode(byte, rx, raddr)]);
          Free(rx);
          Free(raddr);
          StoreRemoved(w, byte, rx, raddr, State());
        }
      }
    }

    /** `!` and `c!`: the cache goes first, since the store may alias any cell. */
    method StoreTok(byte: bool) returns (ok: bool)
      modifies this
      ensures Reaches(ok, LowerTok(old(State()), Mem(if byte then CStore else MemOp.Store)))
    {
      hide Reserve, Ensure, StoreBody, ClearCache;
      ok := ReserveRegs(3);
      if ok {
        DropCache();
        ok := EnsureCells(2);
        if ok {
          ghost var w := State();
          var addr := PopLoc();
          var x := PopLoc();
          assert w.vs == vs + [x, addr];
          ok := StoreOf(byte, x, addr);
        }
      }
    }

    method IndexTok(slot: nat) returns (ok: bool)
      modifies this
      ensures Reaches(ok, LowerTok(old(State()), LoopIdx(slot)))
    {
      hide Reserve, Alloc;
      ok := ReserveRegs(1);
      if !ok {
        return;
      }
      var r;
      ok, r := AllocReg();
      if ok {
        Append([LdrRp(r, slot)]);
        PushLoc(InReg(r));
      }
    }

    method CallTok(xt: Cell) returns (ok: bool)
      modifies this
      ensures Reaches(ok, LowerTok(old(State()), Call(xt)))
    {
      hide SettleData, EmitCall;
      ok := Settle();
      if ok {
        Append(EmitCall(xt));
      }
    }

    /** Lower one token. */
    method Token(t: Tok) returns (ok: bool)
      requires Valid() && ValidTok(t)
      modifies this
      ensures Reaches(ok, LowerTok(old(State()), t)) && (ok <==> !Starved(old(State()), t))
      ensures ok ==> Valid() && Means(old(State()), State(), t)
    {
      hide LowerTok, Owned, Starved, Means;
      ok := TokenCode(t);
      TokOwned(old(State()), t);
      if ok {
        TokenMeans(old(State()), t);
      }
    }

    method TokenCode(t: Tok) returns (ok: bool)
      modifies this
      ensures Reaches(ok, LowerTok(old(State()), t))
    {
      hide LowerTok;
      match t
      case Lit(n) =>
        ok := true;
        PushLoc(Const(n));
        LitTok(old(State()), n);
      case Alu(op) => ok := Bin(op);
      case ImmAlu(op, k) => ok := ImmBin(op, k);
      case DupAlu(op) => ok := DupBin(op);
      case Shift(sh) => ok := ShiftTok(sh);
      case ImmShift(sh, k) => ok := ImmShiftTok(sh, k);
      case DupShiftAlu(op, sh, k) => ok := DupShiftBin(op, sh, k);
      case Stk(s) =>
        ok := Stack(s);
        StackToks(old(State()), s, 0);
      case Cmp(c) =>
        if c.IsZeroTest() {
          ok := ZeroTest(c);
        } else {
          ok := Compare(c);
        }
      case Sel(s) => ok := Select(s);
      case Mem(m) =>
        match m {
          case Fetch => ok := FetchTok();
          case CFetch => ok := CFetchTok();
          case Store => ok := StoreTok(false);
          case CStore => ok := StoreTok(true);
        }
      case PickN(n) =>
        ok := Pick(n);
        StackToks(old(State()), Dup, n);
      case RollN(n) =>
        ok := Roll(n);
        StackToks(old(State()), Dup, n);
      case LoopIdx(slot) => ok := IndexTok(slot);
      case Call(xt) => ok := CallTok(xt);
    }

    /** The tokens of a run, one after the other. */
    method Tokens(toks: seq<Tok>) returns (ok: bool)
      requires Valid() && ValidToks(toks)
      modifies this
      ensures Reaches(ok, LowerToks(old(State()), toks))
      ensures ok <==> !exists i | 0 <= i < |toks| :: StarvedAt(old(State()), toks, i)
      ensures ok ==> Valid() && RunMeans(old(State()), State(), toks)
    {
      hide LowerTok, Owned, Starved, StarvedAt, Means, RunMeans;
      ghost var w := State();
      ToksOwned(w, toks);
      ok := true;
      var i := 0;
      while i < |toks|
        invariant 0 <= i <= |toks|
        invariant ok && Valid() && LowerToks(State(), toks[i..]) == LowerToks(w, toks)
      {
        assert toks[i..][0] == toks[i] && toks[i..][1..] == toks[i + 1..];
        ok := Token(toks[i]);
        if !ok {
          return;
        }
        i := i + 1;
      }
      assert toks[|toks|..] == [];
      TokensMean(w, toks);
    }
  }

  /** The pre-scan: addresses fetched at least twice right after their literal. */
  method ScanHot(toks: seq<Tok>) returns (hot: set<Addr>)
    ensures hot == HotCells(toks)
  {
    var counts: map<Addr, nat> := map[];
    var i := 0;
    while i < |toks|
      invariant 0 <= i <= |toks|
      invariant counts == FetchCounts(toks[..i])
    {
      assert toks[..i + 1][..i] == toks[..i];
      if i > 0 && toks[i] == Mem(Fetch) && toks[i - 1].Lit? {
        var a := Addr(toks[i - 1].n);
        counts := counts[a := (if a in counts then counts[a] else 0) + 1];
      }
      i := i + 1;
    }
    assert toks[..|toks|] == toks;
    hot := set a | a in counts && counts[a] >= 2;
  }

  /** Lower one run. It fails exactly when some token starves; the code of a run that fits
      means the run. */
  method Lower(toks: seq<Tok>) returns (code: Option<seq<Op>>)
    requires ValidToks(toks)
    ensures code == Lowered(toks)
    ensures code.None? <==> exists i | 0 <= i < |toks| :: StarvedAt(Start(HotCells(toks)), toks, i)
    ensures code.Some? && RunFits(toks) ==> CodeMeans(code.value, toks)
  {
    hide HotCells, LowerToks, SettleData, StarvedAt, RunFits, CodeMeans, RunMeans, Owned;
    PoolExactly(toks);
    code := None;
    var hot := ScanHot(toks);
    var low := new Lowerer(hot);
    var ok := low.Tokens(toks);
    if ok {
      ok := low.Settle();
      if ok {
        code := Some(low.out);
        if RunFits(toks) {
          LoweredCodeMeans(toks);
        }
      }
    }
  }
}
