/** Where the compiler stops short: inputs on which a wider claim would be false. */
module Limits {
  import opened Options
  import opened Cells
  import opened Tokens
  import opened Signed
  import opened Operators
  import opened Reduce
  import opened Machine
  import opened Window
  import opened Ownership
  import opened Simulation
  import opened Lowering

  // ----- reduce -----

  /** `0 +` on an empty stack underflows; reduced, it is nothing and does not. */
  lemma UnderflowIsHidden(words: Words, st: Forth)
    requires |st.stack| == 1
    ensures var run := [Lit(0), Alu(Add)];
            Run(words, run, st) == None && Reduced(run) == [] && Run(words, Reduced(run), st) == Some(st)
  {
  }

  lemma ReducedNext(p: seq<Tok>, t: Tok)
    ensures Reduced(p + [t]) == Reduce.Push(Reduced(p), t)
  {
    hide Reduce.Push;
    assert (p + [t])[..|p|] == p;
  }

  lemma PushSteps()
    ensures Reduce.Push([], Stk(Dup)) == [Stk(Dup)]
    ensures Reduce.Push([Stk(Dup)], Lit(0)) == [Stk(Dup), Lit(0)]
    ensures Reduce.Push([Stk(Dup), Lit(0)], Alu(Mul)) == [Stk(Dup), Stk(Drop), Lit(0)]
    ensures Reduce.Push([Stk(Dup)], Stk(Drop)) == []
    ensures Reduce.Push([], Lit(0)) == [Lit(0)]
  {
    hide AluOp.Eval, ShiftOp.Eval;
    assert [Stk(Dup), Lit(0)][..1] == [Stk(Dup)];
    assert [Stk(Dup)][..0] == [];
  }

  /** `dup 0 *` reduces to a run that reduces further. */
  lemma ReduceIsNotIdempotent()
    ensures var once := Reduced([Stk(Dup), Lit(0), Alu(Mul)]);
            once == [Stk(Dup), Stk(Drop), Lit(0)] && Reduced(once) == [Lit(0)]
  {
    PushSteps();
    assert Reduced([]) == [];
    hide Reduced, Reduce.Push;
    ReducedNext([], Stk(Dup));
    assert [] + [Stk(Dup)] == [Stk(Dup)];
    ReducedNext([Stk(Dup)], Lit(0));
    assert [Stk(Dup)] + [Lit(0)] == [Stk(Dup), Lit(0)];
    ReducedNext([Stk(Dup), Lit(0)], Alu(Mul));
    assert [Stk(Dup), Lit(0)] + [Alu(Mul)] == [Stk(Dup), Lit(0), Alu(Mul)];
    ReducedNext([Stk(Dup)], Stk(Drop));
    assert [Stk(Dup)] + [Stk(Drop)] == [Stk(Dup), Stk(Drop)];
    ReducedNext([Stk(Dup), Stk(Drop)], Lit(0));
    assert [Stk(Dup), Stk(Drop)] + [Lit(0)] == [Stk(Dup), Stk(Drop), Lit(0)];
  }

  // ----- the length of a run -----

  function Lits(k: nat): (r: seq<Tok>)
    ensures |r| == k
  {
    if k == 0 then [] else Lits(k - 1) + [Lit(0)]
  }

  lemma {:induction false} LitsAreCold(k: nat)
    ensures FetchCounts(Lits(k)) == map[] && ValidToks(Lits(k))
  {
    if k > 0 {
      LitsAreCold(k - 1);
      assert Lits(k)[..k - 1] == Lits(k - 1);
    }
  }

  lemma {:induction false} LitsSim(env: Env, m: Mach, k: nat)
    requires m.dsp <= env.base
    ensures var toks, w, st := Lits(k), LowerToks(Window.Start({}), Lits(k)), Run(env.words, Lits(k), View(env, m));
            && w.Some? && st.Some? && |st.value.stack| >= 1 && |w.value.vs| == k + 1
            && w.value.consumed == 0 && Sim(env, m, w.value, st.value)
  {
    hide Sim, View, LowerTok, Step;
    if k == 0 {
      ViewHasTop(env, m);
      StartSim(env, m, {});
    } else {
      LitsSim(env, m, k - 1);
      var w := LowerToks(Window.Start({}), Lits(k - 1)).value;
      var st := Run(env.words, Lits(k - 1), View(env, m)).value;
      LowerAppend(Window.Start({}), Lits(k - 1), [Lit(0)]);
      RunAppend(env.words, Lits(k - 1), [Lit(0)], View(env, m));
      OneLit(env, w, st);
      SimPushConst(env, m, w, st, 0);
    }
  }

  lemma OneLit(env: Env, w: Low, st: Forth)
    requires |st.stack| >= 1
    ensures LowerToks(w, [Lit(0)]) == Some(Window.Push(w, Const(0)))
    ensures Run(env.words, [Lit(0)], st) == Some(st.(stack := st.stack + [0]))
  {
    Run1(env.words, Lit(0), st);
  }

  /** A run of literals, which nothing shortens, means what it says exactly up to 511 of
      them: the change of DSP past that is cut to twelve bits. */
  lemma LongRunsFail(env: Env, m: Mach, k: nat)
    requires m.dsp <= env.base && k <= 4094
    ensures Lowered(Lits(k)).Some? && Run(env.words, Lits(k), View(env, m)).Some?
    ensures Some(View(env, Execute(env, Lowered(Lits(k)).value, m))) == Run(env.words, Lits(k), View(env, m))
       <==> k <= 511
  {
    hide Sim, View, Run, Execute, SettleData, LowerToks;
    LitsAreCold(k);
    assert HotCells(Lits(k)) == {};
    PoolSuffices(Lits(k));
    LitsSim(env, m, k);
    SettleExactly(env, m, LowerToks(Window.Start({}), Lits(k)).value, Run(env.words, Lits(k), View(env, m)).value);
  }

  // ----- the register pool -----

  /** Five addresses. */
  predicate Five(addrs: seq<Cell>) {
    |addrs| == 5 && forall i, j | 0 <= i < j < 5 :: addrs[i] != addrs[j]
  }

  function FetchOf(a: Cell): seq<Tok> {
    [Lit(a), Mem(Fetch)]
  }

  /** Fetch each address and drop its cell. */
  function Touch(addrs: seq<Cell>): seq<Tok> {
    if addrs == [] then [] else Touch(addrs[..|addrs| - 1]) + FetchOf(addrs[|addrs| - 1]) + [Stk(Drop)]
  }

  /** Two rounds of fetches with `drop -rot` between them. */
  function TightRun(addrs: seq<Cell>): seq<Tok> {
    Touch(addrs) + [Stk(Drop), Stk(MinusRot)] + Touch(addrs)
  }

  // Which addresses are hot.

  function CountOf(toks: seq<Tok>, a: Cell): nat {
    if Addr(a) in FetchCounts(toks) then FetchCounts(toks)[Addr(a)] else 0
  }

  lemma CountNext(p: seq<Tok>, t: Tok, a: Cell)
    ensures CountOf(p + [t], a)
         == CountOf(p, a) + if t == Mem(Fetch) && p != [] && p[|p| - 1] == Lit(a) then 1 else 0
  {
    assert (p + [t])[..|p|] == p;
  }

  lemma CountFetch(p: seq<Tok>, b: Cell, a: Cell)
    ensures CountOf(p + FetchOf(b) + [Stk(Drop)], a) == CountOf(p, a) + if a == b then 1 else 0
  {
    hide CountOf;
    CountNext(p, Lit(b), a);
    CountNext(p + [Lit(b)], Mem(Fetch), a);
    assert p + [Lit(b)] + [Mem(Fetch)] == p + FetchOf(b);
    CountNext(p + FetchOf(b), Stk(Drop), a);
  }

  function Occurs(addrs: seq<Cell>, a: Cell): nat {
    if addrs == [] then 0 else Occurs(addrs[..|addrs| - 1], a) + if addrs[|addrs| - 1] == a then 1 else 0
  }

  lemma {:induction false} CountTouch(p: seq<Tok>, addrs: seq<Cell>, a: Cell)
    ensures CountOf(p + Touch(addrs), a) == CountOf(p, a) + Occurs(addrs, a)
    decreases |addrs|
  {
    hide CountOf, FetchOf;
    if addrs == [] {
      assert p + [] == p;
    } else {
      var rest, b := addrs[..|addrs| - 1], addrs[|addrs| - 1];
      CountTouch(p, rest, a);
      CountFetch(p + Touch(rest), b, a);
      assert p + (Touch(rest) + FetchOf(b) + [Stk(Drop)]) == p + Touch(rest) + FetchOf(b) + [Stk(Drop)];
    }
  }

  lemma OccursOnce(addrs: seq<Cell>, a: Cell)
    requires Five(addrs)
    ensures Occurs(addrs, a) == if a in addrs then 1 else 0
  {
    OccursIs(addrs, a);
  }

  lemma {:induction false} OccursIs(addrs: seq<Cell>, a: Cell)
    requires forall i, j | 0 <= i < j < |addrs| :: addrs[i] != addrs[j]
    ensures Occurs(addrs, a) == if a in addrs then 1 else 0
    decreases |addrs|
  {
    if addrs != [] {
      var rest := addrs[..|addrs| - 1];
      OccursIs(rest, a);
      assert addrs == rest + [addrs[|addrs| - 1]];
    }
  }

  /** The five addresses are hot, and no others. */
  lemma FiveHot(addrs: seq<Cell>, a: Cell)
    requires Five(addrs)
    ensures Addr(a) in HotCells(TightRun(addrs)) <==> a in addrs
  {
    hide CountOf, Touch, FetchCounts, Five;
    var mid := [Stk(Drop), Stk(MinusRot)];
    var p := Touch(addrs);
    NothingCounted(a);
    CountTouch([], addrs, a);
    assert [] + p == p;
    CountNext(p, Stk(Drop), a);
    CountNext(p + [Stk(Drop)], Stk(MinusRot), a);
    assert p + [Stk(Drop)] + [Stk(MinusRot)] == p + mid;
    CountTouch(p + mid, addrs, a);
    OccursOnce(addrs, a);
    HotIs(TightRun(addrs), a);
  }

  lemma NothingCounted(a: Cell)
    ensures CountOf([], a) == 0
  {
  }

  lemma HotIs(toks: seq<Tok>, a: Cell)
    ensures Addr(a) in HotCells(toks) <==> CountOf(toks, a) >= 2
  {
  }

  // How the run lowers.

  /** After `k` addresses: `k` cells cached in the first registers of the pool, the window as
      at the start. */
  ghost predicate Filled(w: Low, addrs: seq<Cell>, k: nat) {
    && k <= 5 && |addrs| == 5 && w.vs == [InReg(TOS)]
    && (forall r: Reg :: r in w.used <==> r == TOS || POOL_FIRST <= r < POOL_FIRST + k)
    && (forall i | k <= i < 5 :: Addr(addrs[i]) !in w.cache)
    && (forall i | 0 <= i < 5 :: Addr(addrs[i]) in w.hot)
  }

  lemma {:induction false} FirstFreeIs(used: set<Reg>, r: Reg, q: Reg)
    requires r <= q <= POOL_LAST && q !in used && forall x: Reg | r <= x < q :: x in used
    ensures FirstFree(used, r) == Some(q)
    decreases q - r
  {
    if r < q {
      FirstFreeIs(used, r + 1, q);
    }
  }

  lemma ThreeFree(w: Low, addrs: seq<Cell>, k: nat)
    requires Filled(w, addrs, k) && k <= 4
    ensures FreeCount(w.used) >= 3
  {
    var three: set<Reg> := {13, 14, 15};
    assert three <= Pool() - w.used;
    SubsetSize(three, Pool() - w.used);
  }

  /** Fetching a hot address that is not cached: one register caches the cell, one holds the
      copy. */
  lemma FetchCaches(w: Low, a: Cell, rc: Reg, c: Reg)
    requires w.vs == [InReg(TOS), Const(a)] && FreeCount(w.used) >= 3
    requires Addr(a) in w.hot && Addr(a) !in w.cache
    requires FirstFree(w.used, POOL_FIRST) == Some(rc) && FirstFree(w.used + {rc}, POOL_FIRST) == Some(c)
    ensures LowerTok(w, Mem(Fetch))
         == Some(w.(out := w.out + (LoadImm64(rc, a) + [Ldr0(rc, rc)]) + [MovReg(c, rc)],
                    vs := [InReg(TOS), InReg(c)], used := w.used + {rc} + {c}, cache := w.cache[Addr(a) := rc]))
  {
    hide LoadImm64, FirstFree, FreeCount;
    assert w.vs[..1] == [InReg(TOS)];
    assert [InReg(TOS)] + [InReg(c)] == [InReg(TOS), InReg(c)];
  }

  lemma DropCopy(w: Low, c: Reg)
    requires w.vs == [InReg(TOS), InReg(c)]
    ensures LowerTok(w, Stk(Drop)) == Some(w.(vs := [InReg(TOS)], used := w.used - {c}))
  {
    assert w.vs[..1] + w.vs[2..] == [InReg(TOS)];
  }

  lemma PushLit(w: Low, a: Cell)
    requires w.vs == [InReg(TOS)]
    ensures LowerTok(w, Lit(a)) == Some(w.(vs := [InReg(TOS), Const(a)]))
  {
    assert w.vs + [Const(a)] == [InReg(TOS), Const(a)];
  }

  /** One more address fetched into the cache, its copy dropped. */
  lemma TouchOne(w: Low, addrs: seq<Cell>, k: nat) returns (w': Low)
    requires Five(addrs) && Filled(w, addrs, k) && k <= 4
    ensures LowerToks(w, FetchOf(addrs[k]) + [Stk(Drop)]) == Some(w') && Filled(w', addrs, k + 1)
  {
    hide LoadImm64, Filled, LowerTok, LowerToks, Five, FirstFree, FreeCount;
    FreeRegs(w, addrs, k);
    var a := addrs[k];
    var rc: Reg, c: Reg := POOL_FIRST + k, POOL_FIRST + k + 1;
    PushLit(w, a);
    var w1 := w.(vs := [InReg(TOS), Const(a)]);
    FetchCaches(w1, a, rc, c);
    var w2 := LowerTok(w1, Mem(Fetch)).value;
    DropCopy(w2, c);
    w' := LowerTok(w2, Stk(Drop)).value;
    LowerThree(w, Lit(a), Mem(Fetch), Stk(Drop), w1, w2, w');
    assert FetchOf(a) + [Stk(Drop)] == [Lit(a), Mem(Fetch), Stk(Drop)];
    FilledNext(w, addrs, k, w');
  }

  lemma FreeRegs(w: Low, addrs: seq<Cell>, k: nat)
    requires Filled(w, addrs, k) && k <= 4
    ensures |addrs| == 5 && w.vs == [InReg(TOS)] && Addr(addrs[k]) in w.hot && Addr(addrs[k]) !in w.cache
    ensures FreeCount(w.used) >= 3 && FirstFree(w.used, POOL_FIRST) == Some(POOL_FIRST + k)
    ensures FirstFree(w.used + {POOL_FIRST + k}, POOL_FIRST) == Some(POOL_FIRST + k + 1)
  {
    hide FreeCount, FirstFree;
    ThreeFree(w, addrs, k);
    var r: Reg := POOL_FIRST + k;
    assert r !in w.used && r + 1 !in w.used + {r};
    FirstFreeIs(w.used, POOL_FIRST, POOL_FIRST + k);
    FirstFreeIs(w.used + {POOL_FIRST + k}, POOL_FIRST, POOL_FIRST + k + 1);
  }

  lemma FilledNext(w: Low, addrs: seq<Cell>, k: nat, w': Low)
    requires Five(addrs) && Filled(w, addrs, k) && k <= 4
    requires w'.vs == [InReg(TOS)] && w'.hot == w.hot && w'.cache == w.cache[Addr(addrs[k]) := POOL_FIRST + k]
    requires w'.used == w.used + {POOL_FIRST + k} + {POOL_FIRST + k + 1} - {POOL_FIRST + k + 1}
    ensures Filled(w', addrs, k + 1)
  {
  }

  lemma LowerThree(w: Low, a: Tok, b: Tok, c: Tok, w1: Low, w2: Low, w3: Low)
    requires LowerTok(w, a) == Some(w1) && LowerTok(w1, b) == Some(w2) && LowerTok(w2, c) == Some(w3)
    ensures LowerToks(w, [a, b, c]) == Some(w3)
  {
    hide LowerTok;
    assert [a, b, c][1..] == [b, c] && [b, c][1..] == [c] && [c][1..] == [];
    assert LowerToks(w3, []) == Some(w3);
    assert LowerToks(w2, [c]) == Some(w3);
    assert LowerToks(w1, [b, c]) == Some(w3);
  }

  lemma {:induction false} LowerAppend(w: Low, a: seq<Tok>, b: seq<Tok>)
    ensures LowerToks(w, a + b)
         == (match LowerToks(w, a) case None => None case Some(w') => LowerToks(w', b))
    decreases |a|
  {
    hide LowerTok;
    if a == [] {
      assert a + b == b;
    } else {
      assert (a + b)[1..] == a[1..] + b;
      var r := LowerTok(w, a[0]);
      if r.Some? {
        LowerAppend(r.value, a[1..], b);
      }
    }
  }

  lemma {:induction false} TouchAll(addrs: seq<Cell>, hot: set<Addr>, k: nat) returns (w: Low)
    requires Five(addrs) && k <= 5 && forall a | a in addrs :: Addr(a) in hot
    ensures LowerToks(Window.Start(hot), Touch(addrs[..k])) == Some(w) && Filled(w, addrs, k)
    decreases k
  {
    hide FetchOf, LowerTok;
    if k == 0 {
      w := Window.Start(hot);
      assert addrs[..0] == [];
    } else {
      var w0 := TouchAll(addrs, hot, k - 1);
      w := TouchOne(w0, addrs, k - 1);
      var more := FetchOf(addrs[k - 1]) + [Stk(Drop)];
      assert addrs[..k][..k - 1] == addrs[..k - 1];
      assert Touch(addrs[..k]) == Touch(addrs[..k - 1]) + more;
      LowerAppend(Window.Start(hot), Touch(addrs[..k - 1]), more);
    }
  }

  /** With five cells cached, `drop -rot` runs out of registers. */
  lemma DropThenRotate(w: Low, addrs: seq<Cell>)
    requires Filled(w, addrs, 5)
    ensures LowerToks(w, [Stk(Drop), Stk(MinusRot)]).None?
  {
    var w1 := w.(vs := [], used := w.used - {TOS});
    assert w.vs[..0] + w.vs[1..] == [];
    assert LowerTok(w, Stk(Drop)) == Some(w1);
    RotateFails(w1);
    assert [Stk(Drop), Stk(MinusRot)][1..] == [Stk(MinusRot)];
    assert LowerToks(w1, [Stk(MinusRot)]).None?;
  }

  lemma RotateFails(w: Low)
    requires w.vs == [] && forall r: Reg :: r in w.used <==> POOL_FIRST <= r < POOL_FIRST + 5
    ensures LowerTok(w, Stk(MinusRot)).None?
  {
    FirstFreeIs(w.used, POOL_FIRST, 14);
    var w1 := w.(out := w.out + [LdrStk(14, w.consumed % 4096)], used := w.used + {14}, consumed := w.consumed + 1,
                 vs := [InReg(14)]);
    assert [InReg(14)] + w.vs == [InReg(14)];
    FirstFreeIs(w1.used, POOL_FIRST, 15);
    var w2 := w1.(out := w1.out + [LdrStk(15, w1.consumed % 4096)], used := w1.used + {15},
                  consumed := w1.consumed + 1, vs := [InReg(15), InReg(14)]);
    assert [InReg(15)] + w1.vs == [InReg(15), InReg(14)];
    NoneFree(w2.used, POOL_FIRST);
    assert Ensure(w2, 3).None?;
    assert Ensure(w1, 3) == Ensure(w2, 3);
    assert Ensure(w, 3) == Ensure(w1, 3);
  }

  lemma {:induction false} NoneFree(used: set<Reg>, r: Reg)
    requires forall x: Reg | r <= x <= POOL_LAST :: x in used
    ensures FirstFree(used, r).None?
    decreases POOL_LAST + 1 - r
  {
    if r <= POOL_LAST {
      NoneFree(used, r + 1);
    }
  }

  /** Five hot addresses are too many: for any five there is a run that makes exactly them hot
      and for which `alloc` fails. */
  lemma PoolBoundIsTight(addrs: seq<Cell>)
    requires Five(addrs)
    ensures HotCells(TightRun(addrs)) == (set a | a in addrs :: Addr(a))
    ensures Lowered(TightRun(addrs)).None?
  {
    hide Touch, LowerTok, Five, HotCells;
    var hot := HotCells(TightRun(addrs));
    forall a: Addr
      ensures a in hot <==> a in (set x | x in addrs :: Addr(x))
    {
      FiveHot(addrs, a.cell);
    }
    var mid := [Stk(Drop), Stk(MinusRot)];
    assert forall a | a in addrs :: Addr(a) in hot;
    FiveLong(addrs);
    assert addrs[..5] == addrs;
    var w := TouchAll(addrs, hot, 5);
    DropThenRotate(w, addrs);
    LowerAppend(Window.Start(hot), Touch(addrs), mid);
    LowerAppend(Window.Start(hot), Touch(addrs) + mid, Touch(addrs));
  }

  lemma FiveLong(addrs: seq<Cell>)
    requires Five(addrs)
    ensures |addrs| == 5
  {
  }

  // ----- which constants are folded into one instruction -----

  /** Sums and differences with a constant from -4095 to 4095, and products with a power of two
      from 2 to 2^62, are one instruction; nothing else is. */
  lemma ImmCodeExactly(op: AluOp, k: Cell, r: Reg)
    ensures ImmCode(op, k, r).Some?
       <==> ((op == Add || op == Sub) && -4095 <= ToInt(k) <= 4095)
            || (op == Mul && exists n: nat :: 1 <= n <= 62 && ToInt(k) == Pow2(n))
  {
    hide Exponent, Imm12, ToInt, Pow2;
    Imm12Is(k);
    Imm12Is(Sub.Eval(0, k));
    NegatedIs(k);
    SubZero(k);
    if op == Mul {
      PowerExactly(k);
    }
  }

  lemma SubZero(k: Cell)
    ensures Sub.Eval(0, k) == 0 - k
  {
  }

  lemma NegatedIs(k: Cell)
    ensures 0 <= ToInt(Sub.Eval(0, k)) <= 4095 <==> -4095 <= ToInt(k) <= 0
  {
    hide AluOp.Eval, ToInt, Wrap;
    ZeroIs();
    Operators.SubIs(0, k);
    WrapNear(-ToInt(k));
  }

  lemma Imm12Is(k: Cell)
    ensures Imm12(k) <==> 0 <= ToInt(k) <= 4095
  {
    hide Value, ToInt, Below;
    Imm12Below(k);
    BelowIs(k, 0x1000);
    PageValue();
    ToIntForm(k);
    ValueInRange(k);
  }

  lemma Imm12Below(k: Cell)
    ensures Imm12(k) <==> Below(k, 0x1000)
  {
  }

  lemma PageValue()
    ensures Value(0x1000) == 4096
  {
    hide Value, Shl;
    OneShifted();
    ShlValue(1, 12);
    OneValue();
    TwelveValue();
    assert Pow2(4) == 16 && Pow2(8) == 256 && Pow2(12) == 4096 by { PowFours(); }
  }

  lemma OneShifted()
    ensures Shl(1, 12) == 0x1000
  {
  }

  lemma TwelveValue()
    ensures Value(12) == 12
  {
    hide Value;
    TwelveHalves();
    ValueParts(12);
    ValueParts(6);
    ValueParts(3);
    OneValue();
  }

  lemma TwelveHalves()
    ensures Half(12) == 6 && Half(6) == 3 && Half(3) == 1 && !IsOdd(12) && !IsOdd(6) && IsOdd(3)
  {
  }

  lemma PowFours()
    ensures Pow2(4) == 16 && Pow2(8) == 256 && Pow2(12) == 4096
  {
    PowFour(0, 1);
    PowFour(4, 16);
    PowFour(8, 256);
  }

  lemma ExponentValue(k: Cell) returns (n: nat)
    requires Exponent(k, 1) < 63
    ensures 1 <= n <= 62 && ToInt(k) == Pow2(n)
  {
    hide Exponent, ToInt, Pow2, Value;
    ExponentIsLog(k, 1, Exponent(k, 1));
    PowerValue(k, Exponent(k, 1));
    n := Value(Exponent(k, 1));
  }

  lemma PowerExactly(k: Cell)
    ensures Exponent(k, 1) < 63 <==> exists n: nat :: 1 <= n <= 62 && ToInt(k) == Pow2(n)
  {
    hide Exponent, ToInt, Pow2, Value;
    OneValue();
    if Exponent(k, 1) < 63 {
      var n := ExponentValue(k);
    } else {
      forall n: nat | 1 <= n <= 62
        ensures ToInt(k) != Pow2(n)
      {
        if ToInt(k) == Pow2(n) {
          ExponentFinds(k, 1, n);
        }
      }
    }
  }

  lemma {:induction false} PowGrows(a: nat, b: nat)
    requires a <= b
    ensures Pow2(a) <= Pow2(b)
    decreases b - a
  {
    hide Pow2;
    if a < b {
      PowNext(b - 1);
      PowGrows(a, b - 1);
    }
  }

  /** A power of two below 2^63, as a cell. */
  lemma PowerValue(k: Cell, t: Cell)
    requires 1 <= t < 63 && 1 << t == k
    ensures 1 <= Value(t) <= 62 && ToInt(k) == Pow2(Value(t)) && Value(k) == Pow2(Value(t))
  {
    hide Value, ToInt, Pow2, Shl;
    CountRange(t);
    OneShift(t);
    ShlValue(1, t);
    OneValue();
    PowTop();
    PowGrows(Value(t), 62);
    PowNext(62);
    ToIntForm(k);
  }

  lemma OneShift(t: Cell)
    requires t < 64
    ensures Shl(1, t) == 1 << t
  {
  }

  lemma CountRange(t: Cell)
    requires 1 <= t < 63
    ensures 1 <= Value(t) <= 62
  {
    hide Value, Below;
    CountBelow(t);
    BelowIs(t, 63);
    BelowIs(0, t);
    ValueZero();
    TopCount();
  }

  lemma CountBelow(t: Cell)
    requires 1 <= t < 63
    ensures Below(t, 63) && Below(0, t)
  {
  }

  lemma TopCount()
    ensures Value(63) == 63
  {
    hide Value;
    MaskHalves();
    ValueParts(63);
    ValueParts(31);
    ValueParts(15);
    ValueParts(7);
    ValueParts(3);
    OneValue();
  }

  lemma {:induction false} ExponentFinds(k: Cell, t: Cell, n: nat)
    requires 1 <= t <= 63 && Value(t) <= n <= 62 && ToInt(k) == Pow2(n)
    ensures Exponent(k, t) < 63
    decreases n - Value(t)
  {
    hide Value, ToInt, Pow2;
    TopCount();
    if t != 63 && k != 1 << t {
      CountSmall(t);
      PowerValue(1 << t, t);
      ToIntForm(k);
      if Value(t) == n {
        ToIntForm(1 << t);
        SameNumber(k, 1 << t);
      }
      CountValue(t + 1);
      ExponentFinds(k, t + 1, n);
    }
  }

  lemma CountSmall(t: Cell)
    requires 1 <= t <= 63 && t != 63
    ensures t < 63 && 0 < t + 1 < 64 && (t + 1) - 1 == t
  {
  }
}
