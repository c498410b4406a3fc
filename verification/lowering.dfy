/** The lowered run means what the run means. */
module Lowering {
  import opened Options
  import opened Cells
  import opened Tokens
  import opened Operators
  import opened Reduce
  import opened Machine
  import opened Window
  import opened Ownership
  import opened Simulation

  // ----- the steps before a body -----

  lemma SimPrepare(env: Env, m0: Mach, w: Low, st: Forth, free: nat, k: nat)
    requires Sim(env, m0, w, st) && PrepareFits(w, free, k)
    requires |st.stack| >= 1 && |st.stack| >= k && k <= 4000 && Prepare(w, free, k).Some?
    ensures Sim(env, m0, Prepare(w, free, k).value, st)
  {
    hide Sim, Reserve, Ensure, FreeCount;
    SimReserve(env, m0, w, st, free, k);
    SimPull(env, m0, Reserve(w, free).value, st, k);
  }

  lemma SimReserve(env: Env, m0: Mach, w: Low, st: Forth, free: nat, k: nat)
    requires Sim(env, m0, w, st) && PrepareFits(w, free, k)
    requires |st.stack| >= 1 && k <= 4000 && Reserve(w, free).Some?
    ensures var w1 := Reserve(w, free).value;
            Sim(env, m0, w1, st) && (|w1.vs| >= k || Delta(w1) + k <= 4096)
  {
    hide Sim, SettleData, FreeCount;
    if FreeCount(w.used) < free {
      SimSettle(env, m0, w, st);
      SettleKeepsOwned(env, m0, w, st);
    }
  }

  lemma SimPull(env: Env, m0: Mach, w: Low, st: Forth, k: nat)
    requires Sim(env, m0, w, st) && (|w.vs| >= k || Delta(w) + k <= 4096)
    requires |st.stack| >= k && Ensure(w, k).Some?
    ensures Sim(env, m0, Ensure(w, k).value, st)
  {
    hide Sim, Ensure;
    if |w.vs| >= k {
      EnsureNothing(w, k);
    } else {
      SimEnsure(env, m0, w, st, k);
    }
  }

  lemma EnsureNothing(w: Low, k: nat)
    requires |w.vs| >= k
    ensures Ensure(w, k) == Some(w)
  {
  }

  // ----- one token -----

  /** The token has been lowered correctly. */
  ghost predicate Done(env: Env, m0: Mach, r: Option<Low>, st: Forth) {
    r.Some? && Sim(env, m0, r.value, st)
  }

  lemma TokAlu(env: Env, m0: Mach, w: Low, st: Forth, op: AluOp)
    requires Sim(env, m0, w, st) && PrepareFits(w, 4, 2)
    requires |st.stack| >= 3 && LowerTok(w, Alu(op)).Some?
    ensures Done(env, m0, LowerTok(w, Alu(op)),
                 st.(stack := Pop(st.stack, 2) + [op.Eval(Item(st.stack, 1), Item(st.stack, 0))]))
  {
    hide Sim, Prepare, AluBody, AluGives;
    SimPrepare(env, m0, w, st, 4, 2);
    var w1 := Prepare(w, 4, 2).value;
    SimAlu(env, m0, w1, st, op);
  }

  lemma TokShift(env: Env, m0: Mach, w: Low, st: Forth, sh: ShiftOp)
    requires Sim(env, m0, w, st) && PrepareFits(w, 3, 2)
    requires |st.stack| >= 3 && LowerTok(w, Shift(sh)).Some?
    ensures Done(env, m0, LowerTok(w, Shift(sh)),
                 st.(stack := Pop(st.stack, 2) + [sh.Eval(Item(st.stack, 1), Item(st.stack, 0))]))
  {
    hide Sim, Prepare, ShiftBody, ShiftOp.Eval, ShiftGives;
    SimPrepare(env, m0, w, st, 3, 2);
    var w1 := Prepare(w, 3, 2).value;
    SimShift(env, m0, w1, st, sh);
  }

  lemma TokSel(env: Env, m0: Mach, w: Low, st: Forth, s: SelOp)
    requires Sim(env, m0, w, st) && PrepareFits(w, 3, 2)
    requires |st.stack| >= 3 && LowerTok(w, Sel(s)).Some?
    ensures Done(env, m0, LowerTok(w, Sel(s)),
                 st.(stack := Pop(st.stack, 2) + [s.Eval(Item(st.stack, 1), Item(st.stack, 0))]))
  {
    hide Sim, Prepare, SelBody, SelOp.Eval, SelGives;
    SimPrepare(env, m0, w, st, 3, 2);
    var w1 := Prepare(w, 3, 2).value;
    SimSel(env, m0, w1, st, s);
  }

  lemma TokCmp(env: Env, m0: Mach, w: Low, st: Forth, c: CmpOp)
    requires Sim(env, m0, w, st) && PrepareFits(w, 4, 2) && !c.IsZeroTest()
    requires |st.stack| >= 3 && LowerTok(w, Cmp(c)).Some?
    ensures Done(env, m0, LowerTok(w, Cmp(c)),
                 st.(stack := Pop(st.stack, 2)
                              + [Flag(c.Holds(Item(st.stack, 1), Item(st.stack, 0)))]))
  {
    hide Sim, Prepare, BinaryCmpBody, CmpOp.Holds, Flag, InOrder;
    SimPrepare(env, m0, w, st, 4, 2);
    var w1 := Prepare(w, 4, 2).value;
    SimBinaryCmp(env, m0, w1, st, c);
  }

  lemma TokZeroCmp(env: Env, m0: Mach, w: Low, st: Forth, c: CmpOp)
    requires Sim(env, m0, w, st) && PrepareFits(w, 4, 1) && c.IsZeroTest()
    requires |st.stack| >= 2 && LowerTok(w, Cmp(c)).Some?
    ensures Done(env, m0, LowerTok(w, Cmp(c)),
                 st.(stack := Pop(st.stack, 1) + [Flag(c.Holds(Item(st.stack, 0), 0))]))
  {
    hide Sim, Prepare, CmpOp.Holds, Flag, InOrder;
    SimPrepare(env, m0, w, st, 4, 1);
    var w1 := Prepare(w, 4, 1).value;
    SimZeroCmp(env, m0, w1, st, c);
  }

  lemma TokImmAlu(env: Env, m0: Mach, w: Low, st: Forth, op: AluOp, k: Cell)
    requires Sim(env, m0, w, st) && PrepareFits(w, 2, 1)
    requires |st.stack| >= 2 && LowerTok(w, ImmAlu(op, k)).Some?
    ensures Done(env, m0, LowerTok(w, ImmAlu(op, k)),
                 st.(stack := Pop(st.stack, 1) + [op.Eval(Item(st.stack, 0), k)]))
  {
    hide Sim, Prepare, ImmAluBody;
    SimPrepare(env, m0, w, st, 2, 1);
    var w1 := Prepare(w, 2, 1).value;
    SimImmAlu(env, m0, w1, st, op, k);
  }

  lemma TokDupAlu(env: Env, m0: Mach, w: Low, st: Forth, op: AluOp)
    requires Sim(env, m0, w, st) && PrepareFits(w, 2, 1)
    requires |st.stack| >= 2 && LowerTok(w, DupAlu(op)).Some?
    ensures Done(env, m0, LowerTok(w, DupAlu(op)),
                 st.(stack := Pop(st.stack, 1)
                              + [op.Eval(Item(st.stack, 0), Item(st.stack, 0))]))
  {
    hide Sim, Prepare, AluOp.Eval;
    SimPrepare(env, m0, w, st, 2, 1);
    var w1 := Prepare(w, 2, 1).value;
    SimDupAlu(env, m0, w1, st, op);
  }

  lemma TokImmShift(env: Env, m0: Mach, w: Low, st: Forth, sh: ShiftOp, k: ShiftCount)
    requires Sim(env, m0, w, st) && PrepareFits(w, 1, 1)
    requires |st.stack| >= 2 && LowerTok(w, ImmShift(sh, k)).Some?
    ensures Done(env, m0, LowerTok(w, ImmShift(sh, k)),
                 st.(stack := Pop(st.stack, 1) + [sh.Eval(Item(st.stack, 0), k)]))
  {
    hide Sim, Prepare, ShiftOp.Eval, ShiftGives;
    SimPrepare(env, m0, w, st, 1, 1);
    var w1 := Prepare(w, 1, 1).value;
    SimImmShift(env, m0, w1, st, sh, k);
  }

  lemma TokDupShiftAlu(env: Env, m0: Mach, w: Low, st: Forth, op: AluOp, sh: ShiftOp,
                       k: ShiftCount)
    requires Sim(env, m0, w, st) && PrepareFits(w, 1, 1)
    requires |st.stack| >= 2 && LowerTok(w, DupShiftAlu(op, sh, k)).Some?
    ensures Done(env, m0, LowerTok(w, DupShiftAlu(op, sh, k)),
                 st.(stack := Pop(st.stack, 1)
                              + [op.Eval(Item(st.stack, 0), sh.Eval(Item(st.stack, 0), k))]))
  {
    hide Sim, Prepare, ShiftOp.Eval, AluOp.Eval;
    SimPrepare(env, m0, w, st, 1, 1);
    var w1 := Prepare(w, 1, 1).value;
    SimDupShiftAlu(env, m0, w1, st, op, sh, k);
  }

  lemma TokPick(env: Env, m0: Mach, w: Low, st: Forth, k: nat)
    requires Sim(env, m0, w, st) && PrepareFits(w, k + 2, k + 1) && k <= 6
    requires |st.stack| >= k + 2 && PickTok(w, k).Some?
    ensures Done(env, m0, PickTok(w, k), st.(stack := st.stack + [Item(st.stack, k)]))
  {
    hide Sim, Prepare, CopyOf;
    SimPrepare(env, m0, w, st, k + 2, k + 1);
    var w1 := Prepare(w, k + 2, k + 1).value;
    SimPick(env, m0, w1, st, k);
  }

  lemma TokRoll(env: Env, m0: Mach, w: Low, st: Forth, k: nat)
    requires Sim(env, m0, w, st) && (k > 0 ==> PrepareFits(w, k + 1, k + 1)) && k <= 6
    requires |st.stack| >= k + 2 && RollTok(w, k).Some?
    ensures Done(env, m0, RollTok(w, k), st.(stack := Rolled(st.stack, k)))
  {
    hide Sim, Prepare, Rolled;
    if k == 0 {
      RolledZero(st.stack);
    } else {
      SimPrepare(env, m0, w, st, k + 1, k + 1);
      var w1 := Prepare(w, k + 1, k + 1).value;
      SimRoll(env, m0, w1, st, k);
    }
  }

  lemma RolledZero<T>(s: seq<T>)
    requires |s| >= 1
    ensures Rolled(s, 0) == s
  {
  }

  // ----- stack motion, as the token semantics writes it -----

  lemma TokRemove(env: Env, m0: Mach, w: Low, st: Forth, s: StackOp)
    requires s == Drop || s == Nip
    requires Sim(env, m0, w, st) && TokFits(w, Stk(s))
    requires RunStackOp(s, st.stack).Some? && StkTok(w, s).Some?
    ensures Done(env, m0, StkTok(w, s), st.(stack := RunStackOp(s, st.stack).value))
  {
    hide Sim, PickTok, RollTok, Prepare, Ensure, TuckBody, MinusRotBody, Remove;
    var k := st.stack;
    var i := if s == Drop then 1 else 2;
    SimPull(env, m0, w, st, i);
    var w1 := Ensure(w, i).value;
    SimRemove(env, m0, w1, st, |w1.vs| - i);
    RemoveShape(w1, |w1.vs| - i);
    assert k[..|k| - 1] + k[|k|..] == Pop(k, 1);
    assert |k| >= 2 ==> k[..|k| - 2] + k[|k| - 1..] == Pop(k, 2) + [Item(k, 0)];
  }

  lemma TokStk(env: Env, m0: Mach, w: Low, st: Forth, s: StackOp)
    requires Sim(env, m0, w, st) && TokFits(w, Stk(s))
    requires RunStackOp(s, st.stack).Some? && StkTok(w, s).Some?
    ensures Done(env, m0, StkTok(w, s), st.(stack := RunStackOp(s, st.stack).value))
  {
    hide Sim, PickTok, RollTok, Prepare, Ensure, TuckBody, MinusRotBody, Remove, Rolled, MinusRotated;
    var k := st.stack;
    match s
    case Dup => TokPick(env, m0, w, st, 0);
    case Over => TokPick(env, m0, w, st, 1);
    case Swap =>
      TokRoll(env, m0, w, st, 1);
      SwapIsRoll(k);
    case Rot =>
      TokRoll(env, m0, w, st, 2);
      RotIsRoll(k);
    case Drop => TokRemove(env, m0, w, st, s);
    case Nip => TokRemove(env, m0, w, st, s);
    case MinusRot =>
      SimPull(env, m0, w, st, 3);
      var w1 := Ensure(w, 3).value;
      SimMinusRot(env, m0, w1, st);
      MinusRotIs(k);
    case Tuck =>
      SimPrepare(env, m0, w, st, 3, 2);
      var w1 := Prepare(w, 3, 2).value;
      SimTuck(env, m0, w1, st);
      TuckIs(k);
  }

  lemma SwapIsRoll(s: seq<Cell>)
    requires |s| >= 3
    ensures Rolled(s, 1) == RunStackOp(Swap, s).value
  {
  }

  lemma RotIsRoll(s: seq<Cell>)
    requires |s| >= 4
    ensures Rolled(s, 2) == RunStackOp(Rot, s).value
  {
  }

  lemma MinusRotIs(s: seq<Cell>)
    requires |s| >= 4
    ensures MinusRotated(s) == RunStackOp(MinusRot, s).value
  {
  }

  lemma TuckIs(s: seq<Cell>)
    requires |s| >= 3
    ensures MinusRotated(s + [Item(s, 0)]) == RunStackOp(Tuck, s).value
  {
  }

  // ----- memory -----

  lemma TokFetch(env: Env, m0: Mach, w: Low, st: Forth)
    requires Sim(env, m0, w, st) && PrepareFits(w, 3, 1)
    requires |st.stack| >= 2 && MemTok(w, Fetch).Some?
    ensures Done(env, m0, MemTok(w, Fetch),
                 st.(stack := Pop(st.stack, 1) + [FetchCell(st.mem, Item(st.stack, 0))]))
  {
    hide Sim, Prepare, FetchBody, FetchCell;
    SimPrepare(env, m0, w, st, 3, 1);
    var w1 := Prepare(w, 3, 1).value;
    SimFetch(env, m0, w1, st);
  }

  lemma TokCFetch(env: Env, m0: Mach, w: Low, st: Forth)
    requires Sim(env, m0, w, st) && PrepareFits(w, 3, 1)
    requires |st.stack| >= 2 && MemTok(w, CFetch).Some?
    ensures Done(env, m0, MemTok(w, CFetch),
                 st.(stack := Pop(st.stack, 1) + [FetchByte(st.mem, Item(st.stack, 0))]))
  {
    hide Sim, Prepare, ToRegAt, FetchByte;
    SimPrepare(env, m0, w, st, 3, 1);
    var w1 := Prepare(w, 3, 1).value;
    SimCFetch(env, m0, w1, st);
  }

  lemma TokStore(env: Env, m0: Mach, w: Low, st: Forth, byte: bool)
    requires Sim(env, m0, w, st) && PrepareFits(w, 3, 2)
    requires |st.stack| >= 3 && MemTok(w, if byte then CStore else Store).Some?
    ensures Done(env, m0, MemTok(w, if byte then CStore else Store),
                 st.(stack := Pop(st.stack, 2),
                     mem := StoreTo(byte, st.mem, Item(st.stack, 0), Item(st.stack, 1))))
  {
    hide Sim, Reserve, ClearCache, Ensure, StoreBody, StoreTo;
    SimReserve(env, m0, w, st, 3, 2);
    var w1 := Reserve(w, 3).value;
    SimClearCache(env, m0, w1, st);
    ClearCacheIs(w1);
    var w2 := ClearCache(w1);
    SimPull(env, m0, w2, st, 2);
    EnsureKeepsCache(env, m0, w2, st, 2);
    var w3 := Ensure(w2, 2).value;
    SimStore(env, m0, w3, st, byte);
  }

  lemma SimClearCache(env: Env, m0: Mach, w: Low, st: Forth)
    requires Sim(env, m0, w, st)
    ensures Sim(env, m0, ClearCache(w), st)
  {
    hide Rel, Execute, ClearCache;
    RelClearCache(env, w, Now(env, w, m0), st);
    ClearCacheIs(w);
  }

  lemma EnsureKeepsCache(env: Env, m0: Mach, w: Low, st: Forth, k: nat)
    requires Sim(env, m0, w, st) && Ensure(w, k).Some?
    ensures Ensure(w, k).value.cache == w.cache
  {
    hide Owned, Ensure;
    EnsureOwned(w, k);
  }

  lemma TokMem(env: Env, m0: Mach, w: Low, st: Forth, m: MemOp)
    requires Sim(env, m0, w, st) && TokFits(w, Mem(m))
    requires Step(env.words, Mem(m), st).Some? && LowerTok(w, Mem(m)).Some?
    ensures Done(env, m0, LowerTok(w, Mem(m)), Step(env.words, Mem(m), st).value)
  {
    hide Sim, MemTok, FetchCell, StoreCell, FetchByte, StoreByte, Done;
    match m
    case Fetch => TokFetch(env, m0, w, st);
    case CFetch => TokCFetch(env, m0, w, st);
    case Store => TokStore(env, m0, w, st, false);
    case CStore => TokStore(env, m0, w, st, true);
  }

  lemma TokCall(env: Env, m0: Mach, w: Low, st: Forth, xt: Cell)
    requires Sim(env, m0, w, st) && Fits(w)
    requires |st.stack| >= 1 && |env.words(xt, st).stack| >= 1 && LowerTok(w, Call(xt)).Some?
    ensures Done(env, m0, LowerTok(w, Call(xt)), env.words(xt, st))
  {
    hide Sim, SettleData, EmitCall;
    SimCall(env, m0, w, st, xt);
  }

  lemma TokLit(env: Env, m0: Mach, w: Low, st: Forth, x: Cell)
    requires Sim(env, m0, w, st)
    ensures Done(env, m0, LowerTok(w, Lit(x)), st.(stack := st.stack + [x]))
  {
    hide Sim;
    SimPushConst(env, m0, w, st, x);
  }

  lemma TokLoopIdx(env: Env, m0: Mach, w: Low, st: Forth, slot: nat)
    requires Sim(env, m0, w, st) && PrepareFits(w, 1, 0)
    requires |st.stack| >= 1 && slot < |st.rs| && LowerTok(w, LoopIdx(slot)).Some?
    ensures Done(env, m0, LowerTok(w, LoopIdx(slot)), st.(stack := st.stack + [st.rs[slot]]))
  {
    hide Sim, Reserve, FirstFree;
    SimReserve(env, m0, w, st, 1, 0);
    var w1 := Reserve(w, 1).value;
    SimLoopIdx(env, m0, w1, st, slot);
  }

  /** Lowering one token: the code emitted for it takes the machine where the token takes
      the state. */
  lemma TokSim(env: Env, m0: Mach, w: Low, st: Forth, t: Tok)
    requires Sim(env, m0, w, st) && TokFits(w, t) && ValidTok(t)
    requires Step(env.words, t, st).Some? && LowerTok(w, t).Some?
    ensures Done(env, m0, LowerTok(w, t), Step(env.words, t, st).value)
  {
    hide Sim, LowerTok, Done, Step;
    match t
    case Lit(_) => ConstantTokSim(env, m0, w, st, t);
    case Alu(_) => ConstantTokSim(env, m0, w, st, t);
    case ImmAlu(_, _) => ConstantTokSim(env, m0, w, st, t);
    case DupAlu(_) => ConstantTokSim(env, m0, w, st, t);
    case Shift(_) => ShiftTokSim(env, m0, w, st, t);
    case ImmShift(_, _) => ShiftTokSim(env, m0, w, st, t);
    case DupShiftAlu(_, _, _) => ShiftTokSim(env, m0, w, st, t);
    case Stk(_) => MotionTokSim(env, m0, w, st, t);
    case PickN(_) => MotionTokSim(env, m0, w, st, t);
    case RollN(_) => MotionTokSim(env, m0, w, st, t);
    case Cmp(_) => TestTokSim(env, m0, w, st, t);
    case Sel(_) => TestTokSim(env, m0, w, st, t);
    case _ => MemoryTokSim(env, m0, w, st, t);
  }

  lemma ConstantTokSim(env: Env, m0: Mach, w: Low, st: Forth, t: Tok)
    requires t.Lit? || t.Alu? || t.ImmAlu? || t.DupAlu?
    requires Sim(env, m0, w, st) && TokFits(w, t)
    requires Step(env.words, t, st).Some? && LowerTok(w, t).Some?
    ensures Done(env, m0, LowerTok(w, t), Step(env.words, t, st).value)
  {
    hide Sim, LowerTok, Done, AluOp.Eval, FetchCell, StoreCell, RunStackOp;
    match t
    case Lit(x) => TokLit(env, m0, w, st, x);
    case Alu(op) => TokAlu(env, m0, w, st, op);
    case ImmAlu(op, k) => TokImmAlu(env, m0, w, st, op, k);
    case DupAlu(op) => TokDupAlu(env, m0, w, st, op);
  }

  lemma ShiftTokSim(env: Env, m0: Mach, w: Low, st: Forth, t: Tok)
    requires t.Shift? || t.ImmShift? || t.DupShiftAlu?
    requires Sim(env, m0, w, st) && TokFits(w, t) && ValidTok(t)
    requires Step(env.words, t, st).Some? && LowerTok(w, t).Some?
    ensures Done(env, m0, LowerTok(w, t), Step(env.words, t, st).value)
  {
    hide Sim, LowerTok, Done, AluOp.Eval, ShiftOp.Eval, FetchCell, StoreCell, RunStackOp;
    match t
    case Shift(sh) => TokShift(env, m0, w, st, sh);
    case ImmShift(sh, k) => TokImmShift(env, m0, w, st, sh, k);
    case DupShiftAlu(op, sh, k) => TokDupShiftAlu(env, m0, w, st, op, sh, k);
  }

  lemma MotionTokSim(env: Env, m0: Mach, w: Low, st: Forth, t: Tok)
    requires t.Stk? || t.PickN? || t.RollN?
    requires Sim(env, m0, w, st) && TokFits(w, t) && ValidTok(t)
    requires Step(env.words, t, st).Some? && LowerTok(w, t).Some?
    ensures Done(env, m0, LowerTok(w, t), Step(env.words, t, st).value)
  {
    hide Sim, LowerTok, Done, FetchCell, StoreCell, RunStackOp, Pop;
    LowerStk(w, t);
    match t
    case Stk(s) => TokStk(env, m0, w, st, s);
    case PickN(k) => TokPick(env, m0, w, st, k);
    case RollN(k) =>
      StepRoll(env.words, st, k);
      TokRoll(env, m0, w, st, k);
  }

  lemma StepRoll(words: Words, st: Forth, k: nat)
    ensures Step(words, RollN(k), st).Some? ==>
              |st.stack| >= k + 2 && Step(words, RollN(k), st) == Some(st.(stack := Rolled(st.stack, k)))
  {
    hide AluOp.Eval, ShiftOp.Eval, SelOp.Eval, CmpOp.Holds, FetchCell, StoreCell, Rolled;
    if |st.stack| >= k + 2 {
      RollIs(st.stack, k);
    }
  }

  lemma TestTokSim(env: Env, m0: Mach, w: Low, st: Forth, t: Tok)
    requires t.Cmp? || t.Sel?
    requires Sim(env, m0, w, st) && TokFits(w, t)
    requires Step(env.words, t, st).Some? && LowerTok(w, t).Some?
    ensures Done(env, m0, LowerTok(w, t), Step(env.words, t, st).value)
  {
    hide Sim, LowerTok, Done, SelOp.Eval, CmpOp.Holds, FetchCell, StoreCell, RunStackOp;
    match t
    case Cmp(c) =>
      if c.IsZeroTest() {
        TokZeroCmp(env, m0, w, st, c);
      } else {
        TokCmp(env, m0, w, st, c);
      }
    case Sel(s) => TokSel(env, m0, w, st, s);
  }

  lemma MemoryTokSim(env: Env, m0: Mach, w: Low, st: Forth, t: Tok)
    requires t.Mem? || t.LoopIdx? || t.Call?
    requires Sim(env, m0, w, st) && TokFits(w, t)
    requires Step(env.words, t, st).Some? && LowerTok(w, t).Some?
    ensures Done(env, m0, LowerTok(w, t), Step(env.words, t, st).value)
  {
    hide Sim, LowerTok, Done, FetchCell, StoreCell, FetchByte, StoreByte, RunStackOp;
    match t
    case Mem(m) => TokMem(env, m0, w, st, m);
    case LoopIdx(slot) => TokLoopIdx(env, m0, w, st, slot);
    case Call(xt) => TokCall(env, m0, w, st, xt);
  }

  lemma LowerStk(w: Low, t: Tok)
    ensures t.Stk? ==> LowerTok(w, t) == StkTok(w, t.s)
    ensures t.PickN? ==> LowerTok(w, t) == PickTok(w, t.depth)
    ensures t.RollN? ==> LowerTok(w, t) == RollTok(w, t.depth)
  {
    hide StkTok, PickTok, RollTok;
  }

  lemma RollIs(s: seq<Cell>, k: nat)
    requires |s| >= k + 2
    ensures Rolled(s, k) == Pop(s, k + 1) + s[|s| - k..] + [Item(s, k)]
  {
  }

  lemma {:induction false} ToksSim(env: Env, m0: Mach, w: Low, st: Forth, toks: seq<Tok>)
    requires Sim(env, m0, w, st) && ToksFit(w, toks) && ValidToks(toks)
    requires Run(env.words, toks, st).Some? && LowerToks(w, toks).Some?
    ensures Done(env, m0, LowerToks(w, toks), Run(env.words, toks, st).value)
    decreases |toks|
  {
    hide Sim, LowerTok, Step, TokFits;
    if toks != [] {
      TokSim(env, m0, w, st, toks[0]);
      var w' := LowerTok(w, toks[0]).value;
      ToksSim(env, m0, w', Step(env.words, toks[0], st).value, toks[1..]);
    }
  }

  lemma {:induction false} RunKeepsStack(words: Words, toks: seq<Tok>, st: Forth)
    requires |st.stack| >= 1 && Run(words, toks, st).Some?
    ensures |Run(words, toks, st).value.stack| >= 1
    decreases |toks|
  {
    hide Step;
    if toks != [] {
      StepKeepsStack(words, toks[0], st);
      RunKeepsStack(words, toks[1..], Step(words, toks[0], st).value);
    }
  }

  lemma StartSim(env: Env, m0: Mach, hot: set<Addr>)
    requires m0.dsp <= env.base
    ensures Sim(env, m0, Start(hot), View(env, m0))
  {
    hide Owned;
    StartOwned(hot);
    SettledIsView(env, m0, Start(hot), View(env, m0));
  }

  /** The window at the end of a run stands for the state the run gives. */
  lemma RunSim(env: Env, m: Mach, toks: seq<Tok>)
    requires ValidToks(toks) && m.dsp <= env.base && ToksFit(Start(HotCells(toks)), toks)
    requires LowerToks(Start(HotCells(toks)), toks).Some? && Run(env.words, toks, View(env, m)).Some?
    ensures var st := Run(env.words, toks, View(env, m)).value;
            Sim(env, m, LowerToks(Start(HotCells(toks)), toks).value, st) && |st.stack| >= 1
  {
    hide Sim, Run, Execute, HotCells, View, ToksFit;
    var st := View(env, m);
    StartSim(env, m, HotCells(toks));
    ToksSim(env, m, Start(HotCells(toks)), st, toks);
    ViewHasTop(env, m);
    RunKeepsStack(env.words, toks, st);
  }

  /** Lowering preserves meaning. For every run that fits and for which the pool suffices,
      every machine in canonical form, every effect of called words and every content they
      leave in the registers: if the run does not underflow, the code ends in the canonical
      form of exactly the state the run gives. */
  lemma LoweredMeans(env: Env, m: Mach, toks: seq<Tok>)
    requires ValidToks(toks) && RunFits(toks) && m.dsp <= env.base
    requires Lowered(toks).Some? && Run(env.words, toks, View(env, m)).Some?
    ensures var m' := Execute(env, Lowered(toks).value, m);
            Some(View(env, m')) == Run(env.words, toks, View(env, m)) && m'.dsp <= env.base
  {
    hide Sim, Run, Execute, SettleData, HotCells, View, ToksFit;
    RunSim(env, m, toks);
    SimSettle(env, m, LowerToks(Start(HotCells(toks)), toks).value, Run(env.words, toks, View(env, m)).value);
  }

  /** And only then, as far as the last window goes: when every token fits, the code means
      the run exactly if the last change of DSP fits. */
  lemma LoweredExactly(env: Env, m: Mach, toks: seq<Tok>)
    requires ValidToks(toks) && m.dsp <= env.base && ToksFit(Start(HotCells(toks)), toks)
    requires Lowered(toks).Some? && Run(env.words, toks, View(env, m)).Some?
    requires var w := LowerToks(Start(HotCells(toks)), toks).value;
             |w.vs| <= 4095 && (w.vs == [] ==> w.consumed <= 4094)
    ensures Some(View(env, Execute(env, Lowered(toks).value, m))) == Run(env.words, toks, View(env, m))
       <==> RunFits(toks)
  {
    hide Sim, Run, Execute, SettleData, HotCells, View, ToksFit;
    RunSim(env, m, toks);
    SettleExactly(env, m, LowerToks(Start(HotCells(toks)), toks).value, Run(env.words, toks, View(env, m)).value);
  }

  lemma ViewHasTop(env: Env, m: Mach)
    ensures |View(env, m).stack| >= 1
  {
  }

  // ----- the whole of flushing a run: reduce, then lower -----

  function Compiled(toks: seq<Tok>): Option<seq<Op>> {
    Lowered(Reduced(toks))
  }

  /** The reduced run fits. */
  predicate Fitting(toks: seq<Tok>) {
    RunFits(Reduced(toks))
  }

  /** Reducing and lowering a run preserves its meaning. */
  lemma CompiledMeans(env: Env, m: Mach, toks: seq<Tok>)
    requires ValidToks(toks) && Fitting(toks) && m.dsp <= env.base
    requires Compiled(toks).Some? && Run(env.words, toks, View(env, m)).Some?
    ensures var m' := Execute(env, Compiled(toks).value, m);
            Some(View(env, m')) == Run(env.words, toks, View(env, m)) && m'.dsp <= env.base
  {
    hide Run, Execute, View, Reduced, Lowered, RunFits;
    ReducedMeans(env.words, toks, View(env, m));
    ReducedShrinks(toks);
    LoweredMeans(env, m, Reduced(toks));
  }

  /** In particular for every run with at most four hot addresses after reduction. */
  lemma CompiledExists(toks: seq<Tok>)
    requires ValidToks(toks) && |HotCells(Reduced(toks))| <= 4
    ensures Compiled(toks).Some?
  {
    hide Reduced, Lowered, HotCells;
    ReducedShrinks(toks);
    PoolSuffices(Reduced(toks));
  }

  // ----- short runs, and runs cut into short pieces by calls -----

  /** Every token pushes at most one cell and pops at most two, and at most seven operands
      are pulled in at a time. */
  predicate Bounded(w: Low, n: nat) {
    0 <= Delta(w) + n && Delta(w) <= 2 * n && w.consumed <= 2 * n + 6
  }

  lemma BoundedFits(w: Low, n: nat)
    requires Bounded(w, n) && n <= 255
    ensures Fits(w)
  {
  }

  predicate Shaped(w: Low, w': Low, d: int) {
    |w'.vs| == |w.vs| + d && w'.consumed == w.consumed
  }

  lemma BoundedStep(w: Low, w': Low, d: int, n: nat)
    requires Bounded(w, n) && Shaped(w, w', d) && -2 <= d <= 1
    ensures Bounded(w', n + 1)
  {
  }

  lemma EnsureBounded(w: Low, k: nat, n: nat)
    requires Bounded(w, n) && k <= 7 && Ensure(w, k).Some?
    ensures Bounded(Ensure(w, k).value, n)
    ensures |w.vs| >= k ==> Ensure(w, k).value == w
  {
    EnsureKeepsDelta(w, k);
    if |w.vs| >= k {
      assert Ensure(w, k) == Some(w);
    }
  }

  lemma StartBounded(w: Low, n: nat)
    requires w.vs == [InReg(TOS)] && w.consumed == 0
    ensures Bounded(w, n)
  {
  }

  lemma ToRegAtShape(w: Low, i: nat)
    requires i < |w.vs| && ToRegAt(w, i).Some?
    ensures Shaped(w, ToRegAt(w, i).value, 0)
  {
    hide FirstFree;
  }

  lemma TwoRegsShape(w: Low)
    requires |w.vs| >= 2 && TwoRegs(w).Some?
    ensures Shaped(w, TwoRegs(w).value, 0)
  {
    hide ToRegAt;
    ToRegAtShape(w, |w.vs| - 2);
    ToRegAtShape(ToRegAt(w, |w.vs| - 2).value, |w.vs| - 1);
  }

  lemma CopyShape(w: Low, l: Loc)
    requires CopyOf(w, l).Some?
    ensures CopyOf(w, l).value.0.vs == w.vs && CopyOf(w, l).value.0.consumed == w.consumed
  {
    hide FirstFree;
  }

  lemma AluShape(w: Low, op: AluOp)
    requires |w.vs| >= 2 && AluBody(w, op).Some?
    ensures Shaped(w, AluBody(w, op).value, -1)
  {
    hide TwoRegs, ImmCode, AluOp.Eval;
    if TwoRegs(w).Some? {
      TwoRegsShape(w);
    }
  }

  lemma ShiftShape(w: Low, sh: ShiftOp)
    requires |w.vs| >= 2 && ShiftBody(w, sh).Some?
    ensures Shaped(w, ShiftBody(w, sh).value, -1)
  {
    hide TwoRegs, ShiftOp.Eval;
    if TwoRegs(w).Some? {
      TwoRegsShape(w);
    }
  }

  lemma SelShape(w: Low, s: SelOp)
    requires |w.vs| >= 2 && SelBody(w, s).Some?
    ensures Shaped(w, SelBody(w, s).value, -1)
  {
    hide TwoRegs, SelOp.Eval;
    if TwoRegs(w).Some? {
      TwoRegsShape(w);
    }
  }

  lemma BinaryCmpShape(w: Low, c: CmpOp)
    requires |w.vs| >= 2 && BinaryCmpBody(w, c).Some?
    ensures Shaped(w, BinaryCmpBody(w, c).value, -1)
  {
    hide TwoRegs, CmpOp.Holds, Imm12;
    if TwoRegs(w).Some? {
      TwoRegsShape(w);
    }
  }

  lemma ImmAluShape(w: Low, op: AluOp, k: Cell)
    requires |w.vs| >= 1 && ImmAluBody(w, op, k).Some?
    ensures Shaped(w, ImmAluBody(w, op, k).value, 0)
  {
    hide ImmCode, AluOp.Eval, FirstFree;
  }

  lemma MinusRotShape(w: Low)
    requires |w.vs| >= 3
    ensures Shaped(w, MinusRotBody(w), 0)
  {
    hide MinusRotated;
  }

  lemma TuckShape(w: Low)
    requires |w.vs| >= 2 && TuckBody(w).Some?
    ensures Shaped(w, TuckBody(w).value, 1)
  {
    hide CopyOf;
    CopyShape(w, w.vs[|w.vs| - 1]);
  }

  lemma FetchShape(w: Low)
    requires |w.vs| >= 1 && FetchBody(w).Some?
    ensures Shaped(w, FetchBody(w).value, 0)
  {
    hide ToRegAt, CopyOf, FirstFree;
    var n := |w.vs|;
    var a := w.vs[n - 1];
    if a.Const? && Addr(a.n) in w.cache {
      CopyShape(w, InReg(w.cache[Addr(a.n)]));
    } else if a.Const? && Addr(a.n) in w.hot {
      var (w1, rc) := Alloc(w).value;
      var w2 := Emit(w1, LoadImm64(rc, a.n) + [Ldr0(rc, rc)]);
      CopyShape(w2.(cache := w2.cache[Addr(a.n) := rc]), InReg(rc));
    } else {
      ToRegAtShape(w, n - 1);
    }
  }

  lemma StoreShape(w: Low, byte: bool)
    requires |w.vs| >= 2 && StoreBody(w, byte).Some?
    ensures Shaped(w, StoreBody(w, byte).value, -2)
  {
    hide ToRegAt, StoreCode, Remove;
    var n := |w.vs|;
    ToRegAtShape(w, n - 1);
    var w1 := ToRegAt(w, n - 1).value;
    ToRegAtShape(w1, n - 2);
    var w2 := ToRegAt(w1, n - 2).value;
    var w3 := Emit(w2, [StoreCode(byte, w2.vs[n - 2].r, w2.vs[n - 1].r)]);
    RemoveShape(w3, n - 1);
    RemoveShape(Remove(w3, n - 1), n - 2);
  }

  lemma PrepareBounded(w: Low, free: nat, k: nat, n: nat)
    requires Owned(w) && Bounded(w, n) && k <= 7 && Prepare(w, free, k).Some?
    ensures Bounded(Prepare(w, free, k).value, n)
  {
    hide Owned, SettleData, FreeCount, Ensure;
    SettleOwned(w);
    if FreeCount(w.used) < free {
      StartBounded(SettleData(w).value, n);
    }
    EnsureBounded(Reserve(w, free).value, k, n);
  }

  /** The bodies that work on the top entry alone. */
  lemma TopShapes(w: Low, t: Tok)
    requires |w.vs| >= 1
    ensures t.DupAlu? ==> Shaped(w, DupAluBody(w, t.op), 0)
    ensures t.ImmShift? ==> Shaped(w, ImmShiftBody(w, t.sh, t.count), 0)
    ensures t.DupShiftAlu? ==> Shaped(w, DupShiftAluBody(w, t.op, t.sh, t.count), 0)
  {
    hide AluOp.Eval, ShiftOp.Eval;
  }

  lemma ArithmeticBounded(w: Low, t: Tok, n: nat)
    requires t.Alu? || t.ImmAlu? || t.DupAlu? || t.Shift? || t.ImmShift? || t.DupShiftAlu?
    requires Owned(w) && Bounded(w, n) && LowerTok(w, t).Some?
    ensures Bounded(LowerTok(w, t).value, n + 1)
  {
    hide Owned, Prepare, AluBody, ImmAluBody, ShiftBody, DupAluBody, ImmShiftBody, DupShiftAluBody, Bounded, Shaped;
    PrepareBounded(w, Frees(t), Pulls(t), n);
    var w1 := Prepare(w, Frees(t), Pulls(t)).value;
    match t
    case Alu(op) =>
      AluShape(w1, op);
      BoundedStep(w1, AluBody(w1, op).value, -1, n);
    case ImmAlu(op, k) =>
      ImmAluShape(w1, op, k);
      BoundedStep(w1, ImmAluBody(w1, op, k).value, 0, n);
    case DupAlu(op) =>
      TopShapes(w1, t);
      BoundedStep(w1, DupAluBody(w1, op), 0, n);
    case Shift(sh) =>
      ShiftShape(w1, sh);
      BoundedStep(w1, ShiftBody(w1, sh).value, -1, n);
    case ImmShift(sh, k) =>
      TopShapes(w1, t);
      BoundedStep(w1, ImmShiftBody(w1, sh, k), 0, n);
    case DupShiftAlu(op, sh, k) =>
      TopShapes(w1, t);
      BoundedStep(w1, DupShiftAluBody(w1, op, sh, k), 0, n);
  }

  lemma TestBounded(w: Low, t: Tok, n: nat)
    requires t.Cmp? || t.Sel?
    requires Owned(w) && Bounded(w, n) && LowerTok(w, t).Some?
    ensures Bounded(LowerTok(w, t).value, n + 1)
  {
    hide Owned, Prepare, BinaryCmpBody, SelBody, CmpOp.Holds, SelOp.Eval;
    PrepareBounded(w, Frees(t), Pulls(t), n);
    var w1 := Prepare(w, Frees(t), Pulls(t)).value;
    match t
    case Cmp(c) =>
      if c.IsZeroTest() {
        BoundedStep(w1, ZeroCmpBody(w1, c), 0, n);
      } else {
        BinaryCmpShape(w1, c);
        BoundedStep(w1, BinaryCmpBody(w1, c).value, -1, n);
      }
    case Sel(s) =>
      SelShape(w1, s);
      BoundedStep(w1, SelBody(w1, s).value, -1, n);
  }

  lemma PickBounded(w: Low, k: nat, n: nat)
    requires Owned(w) && Bounded(w, n) && k <= 6 && PickTok(w, k).Some?
    ensures Bounded(PickTok(w, k).value, n + 1)
  {
    hide Owned, Prepare, CopyOf;
    PrepareBounded(w, k + 2, k + 1, n);
    var w1 := Prepare(w, k + 2, k + 1).value;
    CopyShape(w1, w1.vs[|w1.vs| - 1 - k]);
    BoundedStep(w1, PickBody(w1, k).value, 1, n);
  }

  lemma RollBounded(w: Low, k: nat, n: nat)
    requires Owned(w) && Bounded(w, n) && k <= 6 && RollTok(w, k).Some?
    ensures Bounded(RollTok(w, k).value, n + 1)
  {
    hide Owned, Prepare, Rolled;
    if k == 0 {
      BoundedStep(w, w, 0, n);
    } else {
      PrepareBounded(w, k + 1, k + 1, n);
      var w1 := Prepare(w, k + 1, k + 1).value;
      BoundedStep(w1, RollBody(w1, k), 0, n);
    }
  }

  lemma StkBounded(w: Low, s: StackOp, n: nat)
    requires Owned(w) && Bounded(w, n) && StkTok(w, s).Some?
    ensures Bounded(StkTok(w, s).value, n + 1)
  {
    hide Owned, PickTok, RollTok, Prepare, Ensure, TuckBody, MinusRotBody, Remove;
    match s
    case Dup => PickBounded(w, 0, n);
    case Over => PickBounded(w, 1, n);
    case Swap => RollBounded(w, 1, n);
    case Rot => RollBounded(w, 2, n);
    case Drop =>
      EnsureBounded(w, 1, n);
      var w1 := Ensure(w, 1).value;
      RemoveShape(w1, |w1.vs| - 1);
      BoundedStep(w1, Remove(w1, |w1.vs| - 1), -1, n);
    case Nip =>
      EnsureBounded(w, 2, n);
      var w1 := Ensure(w, 2).value;
      RemoveShape(w1, |w1.vs| - 2);
      BoundedStep(w1, Remove(w1, |w1.vs| - 2), -1, n);
    case MinusRot =>
      EnsureBounded(w, 3, n);
      var w1 := Ensure(w, 3).value;
      MinusRotShape(w1);
      BoundedStep(w1, MinusRotBody(w1), 0, n);
    case Tuck =>
      PrepareBounded(w, 3, 2, n);
      var w1 := Prepare(w, 3, 2).value;
      TuckShape(w1);
      BoundedStep(w1, TuckBody(w1).value, 1, n);
  }

  lemma MotionBounded(w: Low, t: Tok, n: nat)
    requires t.Stk? || t.PickN? || t.RollN?
    requires Owned(w) && Bounded(w, n) && ValidTok(t) && LowerTok(w, t).Some?
    ensures Bounded(LowerTok(w, t).value, n + 1)
  {
    hide Owned, LowerTok, PickTok, RollTok, StkTok;
    LowerStk(w, t);
    match t
    case Stk(s) => StkBounded(w, s, n);
    case PickN(k) => PickBounded(w, k, n);
    case RollN(k) => RollBounded(w, k, n);
  }

  lemma ReserveBounded(w: Low, free: nat, n: nat)
    requires Owned(w) && Bounded(w, n) && Reserve(w, free).Some?
    ensures Bounded(Reserve(w, free).value, n) && Owned(Reserve(w, free).value)
  {
    hide Owned, SettleData, FreeCount;
    SettleOwned(w);
    if FreeCount(w.used) < free {
      StartBounded(SettleData(w).value, n);
    }
  }

  lemma LoadBounded(w: Low, m: MemOp, n: nat)
    requires m == Fetch || m == CFetch
    requires Owned(w) && Bounded(w, n) && MemTok(w, m).Some?
    ensures Bounded(MemTok(w, m).value, n + 1)
  {
    hide Owned, Prepare, FetchBody, ToRegAt;
    PrepareBounded(w, 3, 1, n);
    var w1 := Prepare(w, 3, 1).value;
    if m == Fetch {
      FetchShape(w1);
      BoundedStep(w1, FetchBody(w1).value, 0, n);
    } else {
      ToRegAtShape(w1, |w1.vs| - 1);
      BoundedStep(w1, CFetchBody(w1).value, 0, n);
    }
  }

  lemma StoreBounded(w: Low, m: MemOp, n: nat)
    requires m == Store || m == CStore
    requires Owned(w) && Bounded(w, n) && MemTok(w, m).Some?
    ensures Bounded(MemTok(w, m).value, n + 1)
  {
    hide Owned, Reserve, ClearCache, Ensure, StoreBody;
    ReserveBounded(w, 3, n);
    var w1 := Reserve(w, 3).value;
    ClearCacheIs(w1);
    EnsureBounded(ClearCache(w1), 2, n);
    var w2 := Ensure(ClearCache(w1), 2).value;
    StoreShape(w2, m == CStore);
    BoundedStep(w2, StoreBody(w2, m == CStore).value, -2, n);
  }

  lemma MemoryBounded(w: Low, t: Tok, n: nat)
    requires t.Mem? || t.LoopIdx?
    requires Owned(w) && Bounded(w, n) && LowerTok(w, t).Some?
    ensures Bounded(LowerTok(w, t).value, n + 1)
  {
    hide Owned, Reserve, MemTok, FirstFree;
    match t
    case Mem(m) =>
      if m == Fetch || m == CFetch {
        LoadBounded(w, m, n);
      } else {
        StoreBounded(w, m, n);
      }
    case LoopIdx(slot) =>
      ReserveBounded(w, 1, n);
      var w1 := Reserve(w, 1).value;
      BoundedStep(w1, LoopIdxBody(w1, slot).value, 1, n);
  }

  /** A token moves the bounds by one. */
  lemma TokBounded(w: Low, t: Tok, n: nat)
    requires Owned(w) && Bounded(w, n) && ValidTok(t) && LowerTok(w, t).Some?
    ensures Bounded(LowerTok(w, t).value, if t.Call? then 0 else n + 1)
  {
    hide Owned, LowerTok;
    match t
    case Lit(x) =>
      LowerLit(w, x);
      BoundedStep(w, Window.Push(w, Const(x)), 1, n);
    case Call(xt) => CallBounded(w, xt);
    case Stk(_) => MotionBounded(w, t, n);
    case PickN(_) => MotionBounded(w, t, n);
    case RollN(_) => MotionBounded(w, t, n);
    case Mem(_) => MemoryBounded(w, t, n);
    case LoopIdx(_) => MemoryBounded(w, t, n);
    case Cmp(_) => TestBounded(w, t, n);
    case Sel(_) => TestBounded(w, t, n);
    case _ => ArithmeticBounded(w, t, n);
  }

  lemma LowerLit(w: Low, x: Cell)
    ensures LowerTok(w, Lit(x)) == Some(Window.Push(w, Const(x)))
  {
  }

  lemma CallBounded(w: Low, xt: Cell)
    requires Owned(w) && LowerTok(w, Call(xt)).Some?
    ensures Bounded(LowerTok(w, Call(xt)).value, 0)
  {
    hide Owned, SettleData;
    SettleOwned(w);
    StartBounded(LowerTok(w, Call(xt)).value, 0);
  }

  /** No more than 255 tokens in a row without a call, `n` of them already behind. */
  predicate ShortStretches(toks: seq<Tok>, n: nat)
    decreases |toks|
  {
    n <= 255 && (toks == [] || ShortStretches(toks[1..], if toks[0].Call? then 0 else n + 1))
  }

  lemma BoundedTokFits(w: Low, t: Tok, n: nat)
    requires Bounded(w, n) && n <= 255 && ValidTok(t)
    ensures TokFits(w, t)
  {
    hide FreeCount;
    BoundedFits(w, n);
  }

  lemma {:induction false} StretchesFit(w: Low, toks: seq<Tok>, n: nat)
    requires Owned(w) && Bounded(w, n) && ValidToks(toks) && ShortStretches(toks, n)
    ensures ToksFit(w, toks) && (LowerToks(w, toks).Some? ==> Fits(LowerToks(w, toks).value))
    decreases |toks|
  {
    hide Owned, LowerTok, TokFits, Bounded, Fits;
    BoundedFits(w, n);
    if toks != [] {
      BoundedTokFits(w, toks[0], n);
      var r := LowerTok(w, toks[0]);
      if r.Some? {
        TokBounded(w, toks[0], n);
        TokOwned(w, toks[0]);
        StretchesFit(r.value, toks[1..], if toks[0].Call? then 0 else n + 1);
      }
    }
  }

  /** A run fits if it has no more than 255 tokens in a row without a call. */
  lemma ShortRunFits(toks: seq<Tok>)
    requires ValidToks(toks) && ShortStretches(toks, 0)
    ensures RunFits(toks)
  {
    hide Owned, HotCells;
    StartOwned(HotCells(toks));
    StartBounded(Start(HotCells(toks)), 0);
    StretchesFit(Start(HotCells(toks)), toks, 0);
  }

  lemma {:induction false} FewTokens(toks: seq<Tok>, n: nat)
    requires n + |toks| <= 255
    ensures ShortStretches(toks, n)
    decreases |toks|
  {
    if toks != [] {
      FewTokens(toks[1..], if toks[0].Call? then 0 else n + 1);
    }
  }

  /** In particular every run of at most 255 tokens fits, before reduction and after. */
  lemma ShortFits(toks: seq<Tok>)
    requires ValidToks(toks) && |toks| <= 255
    ensures RunFits(toks) && Fitting(toks)
  {
    hide RunFits, Reduced, ShortStretches;
    ReducedShrinks(toks);
    FewTokens(toks, 0);
    FewTokens(Reduced(toks), 0);
    ShortRunFits(toks);
    ShortRunFits(Reduced(toks));
  }
}
