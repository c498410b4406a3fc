/** The lowered code of a run does what the run says: a simulation between the token
    semantics and the machine, kept by every step of the lowerer. */
module Simulation {
  import opened Options
  import opened Cells
  import opened Tokens
  import opened Operators
  import opened Machine
  import opened Window
  import opened Ownership

  // ----- values of window entries -----

  function Val(l: Loc, x: map<Reg, Cell>): Cell {
    match l
    case Const(n) => n
    case InReg(r) => if r in x then x[r] else 0
  }

  function Vals(vs: seq<Loc>, x: map<Reg, Cell>): (s: seq<Cell>)
    ensures |s| == |vs|
    ensures forall i | 0 <= i < |vs| :: s[i] == Val(vs[i], x)
  {
    seq(|vs|, i requires 0 <= i < |vs| => Val(vs[i], x))
  }

  lemma ValsAppend(a: seq<Loc>, b: seq<Loc>, x: map<Reg, Cell>)
    ensures Vals(a + b, x) == Vals(a, x) + Vals(b, x)
  {
  }

  /** Writing a register no entry holds changes no entry. */
  lemma ValsFrame(vs: seq<Loc>, x: map<Reg, Cell>, r: Reg, v: Cell)
    requires Holders(vs, r) == 0
    ensures Vals(vs, x[r := v]) == Vals(vs, x)
  {
    forall i | 0 <= i < |vs|
      ensures Val(vs[i], x[r := v]) == Val(vs[i], x)
    {
      assert vs[i] in multiset(vs);
    }
  }

  // ----- the simulation relation -----

  /** The entry cells still in memory, then the window. */
  function StackOf(env: Env, w: Low, m: Mach): seq<Cell> {
    Column(m.stk, env.base, m.dsp + w.consumed) + Vals(w.vs, m.x)
  }

  /** Each cached register holds the cell at its address. */
  ghost predicate Coherent(cache: map<Addr, Reg>, x: map<Reg, Cell>, mem: Bytes) {
    forall a | a in cache :: Val(InReg(cache[a]), x) == FetchCell(mem, a.cell)
  }

  ghost predicate Rel(env: Env, w: Low, m: Mach, st: Forth) {
    && Owned(w)
    && m.dsp + w.consumed <= env.base
    && st.stack == StackOf(env, w, m)
    && st.rs == m.rs && st.mem == m.mem
    && Coherent(w.cache, m.x, m.mem)
  }

  /** The machine after the code emitted so far. */
  function Now(env: Env, w: Low, m0: Mach): Mach {
    Execute(env, w.out, m0)
  }

  /** `w` has been reached from `m0`, and stands for the Forth state `st`. */
  ghost predicate Sim(env: Env, m0: Mach, w: Low, st: Forth) {
    Rel(env, w, Now(env, w, m0), st)
  }

  lemma NowEmit(env: Env, w: Low, code: seq<Op>, m0: Mach)
    ensures Now(env, Emit(w, code), m0) == Execute(env, code, Now(env, w, m0))
  {
    hide Execute1;
    ExecuteAppend(env, w.out, code, m0);
  }

  lemma NowEmitOne(env: Env, w: Low, i: Op, m0: Mach)
    ensures Now(env, Emit(w, [i]), m0) == Execute1(env, i, Now(env, w, m0))
  {
    hide Execute1;
    NowEmit(env, w, [i], m0);
    ExecuteOne(env, i, Now(env, w, m0));
  }

  // ----- primitive steps -----

  /** A fresh register is written and joins the window where no register was. */
  lemma RelFresh(env: Env, w: Low, m: Mach, st: Forth, r: Reg, v: Cell, vs: seq<Loc>,
                 old_: multiset<Loc>, st': Forth, w': Low)
    requires Rel(env, w, m, st)
    requires r in Pool() && r !in w.used
    requires multiset(vs) == multiset(w.vs) - old_ + multiset{InReg(r)} && old_ <= multiset(w.vs)
    requires forall q :: old_[InReg(q)] == 0
    requires st' == st.(stack := Column(m.stk, env.base, m.dsp + w.consumed)
                                 + Vals(vs, m.x[r := v]))
    requires w' == w.(used := w.used + {r}, vs := vs, out := w'.out)
    ensures Rel(env, w', Set(m, r, v), st')
  {
    hide FetchCell, Pool, Owned, Vals, Column;
    FreshNotCached(w, r);
    OwnFresh(w, r, vs, old_);
    OwnFrame(w.(used := w.used + {r}, vs := vs), w');
  }

  lemma FreshNotCached(w: Low, r: Reg)
    requires Owned(w) && r !in w.used
    ensures forall a | a in w.cache :: w.cache[a] != r
  {
    forall a | a in w.cache
      ensures w.cache[a] != r
    {
      assert w.cache[a] in CacheRegs(w.cache);
    }
  }

  lemma FreshHolder(w: Low, r: Reg)
    requires Owned(w) && r !in w.used
    ensures Holders(w.vs, r) == 0
  {
  }

  lemma ValsOverwrite(vs: seq<Loc>, x: map<Reg, Cell>, i: nat, v: Cell)
    requires i < |vs| && vs[i].InReg? && Holders(vs, vs[i].r) <= 1
    ensures Vals(vs, x[vs[i].r := v]) == Vals(vs, x)[i := v]
  {
    var x' := x[vs[i].r := v];
    forall j | 0 <= j < |vs|
      ensures Val(vs[j], x') == if j == i then v else Val(vs[j], x)
    {
      if j != i && vs[j] == vs[i] {
        TwiceHeld(vs, i, j);
      }
    }
  }

  lemma WindowNotCached(w: Low, i: nat)
    requires Owned(w) && i < |w.vs| && w.vs[i].InReg?
    ensures Holders(w.vs, w.vs[i].r) == 1
    ensures forall a | a in w.cache :: w.cache[a] != w.vs[i].r
  {
    HolderInWindow(w.vs, w.vs[i].r);
  }

  lemma UpdateInside<T>(a: seq<T>, b: seq<T>, i: nat, v: T)
    requires i < |b|
    ensures (a + b)[|a| + i := v] == a + b[i := v]
  {
  }

  /** A register the window holds at entry `i` is overwritten. */
  lemma RelOverwrite(env: Env, w: Low, m: Mach, st: Forth, i: nat, v: Cell)
    requires Rel(env, w, m, st) && i < |w.vs| && w.vs[i].InReg?
    ensures var k := |st.stack| - |w.vs| + i;
            0 <= k < |st.stack|
            && Rel(env, w, Set(m, w.vs[i].r, v), st.(stack := st.stack[k := v]))
  {
    hide Owned, FetchCell, Column, Vals, Holders;
    WindowNotCached(w, i);
    ValsOverwrite(w.vs, m.x, i, v);
    var col := Column(m.stk, env.base, m.dsp + w.consumed);
    UpdateInside(col, Vals(w.vs, m.x), i, v);
    assert |st.stack| == |col| + |w.vs|;
  }

  lemma TwiceHeld(vs: seq<Loc>, i: nat, j: nat)
    requires i < |vs| && j < |vs| && i != j && vs[i] == vs[j]
    ensures multiset(vs)[vs[i]] >= 2
  {
    var a, b := if i < j then i else j, if i < j then j else i;
    assert vs == vs[..a] + [vs[a]] + vs[a + 1..b] + [vs[b]] + vs[b + 1..];
  }

  lemma RemoveShape(w: Low, i: nat)
    requires i < |w.vs|
    ensures Remove(w, i).vs == w.vs[..i] + w.vs[i + 1..]
    ensures Remove(w, i).cache == w.cache && Remove(w, i).consumed == w.consumed
    ensures Remove(w, i).out == w.out && Remove(w, i).hot == w.hot
  {
  }

  lemma ValsRemove(vs: seq<Loc>, x: map<Reg, Cell>, i: nat)
    requires i < |vs|
    ensures Vals(vs[..i] + vs[i + 1..], x) == Vals(vs, x)[..i] + Vals(vs, x)[i + 1..]
  {
  }

  lemma DropInside<T>(a: seq<T>, b: seq<T>, i: nat)
    requires i < |b|
    ensures (a + b)[..|a| + i] + (a + b)[|a| + i + 1..] == a + (b[..i] + b[i + 1..])
  {
  }

  /** Entry `i` leaves the window. */
  lemma RelRemove(env: Env, w: Low, m: Mach, st: Forth, i: nat)
    requires Rel(env, w, m, st) && i < |w.vs|
    ensures var k := |st.stack| - |w.vs| + i;
            0 <= k < |st.stack|
            && Rel(env, Remove(w, i), m, st.(stack := st.stack[..k] + st.stack[k + 1..]))
  {
    hide Owned, Coherent, Remove, Column, Vals;
    RemoveOwned(w, i);
    RemoveShape(w, i);
    ValsRemove(w.vs, m.x, i);
    var col, s := Column(m.stk, env.base, m.dsp + w.consumed), Vals(w.vs, m.x);
    assert st.stack == col + s;
    var k := |st.stack| - |w.vs| + i;
    assert k == |col| + i;
    DropInside(col, s, i);
    assert StackOf(env, Remove(w, i), m) == col + (s[..i] + s[i + 1..]);
  }

  /** The window is rearranged, constants coming and going. */
  lemma RelRearrange(env: Env, w: Low, m: Mach, st: Forth, vs: seq<Loc>, w': Low, st': Forth)
    requires Rel(env, w, m, st)
    requires forall r :: multiset(vs)[InReg(r)] == multiset(w.vs)[InReg(r)]
    requires w' == w.(vs := vs, out := w'.out)
    requires st' == st.(stack := Column(m.stk, env.base, m.dsp + w.consumed) + Vals(vs, m.x))
    ensures Rel(env, w', m, st')
  {
    hide Owned, FetchCell;
    Rearranged(w, vs, w');
  }

  lemma RelFlags(env: Env, w: Low, m: Mach, st: Forth, f: Flags)
    requires Rel(env, w, m, st)
    ensures Rel(env, w, m.(flags := f), st)
  {
    hide Owned, FetchCell;
  }

  lemma RelIgnoresCode(env: Env, w: Low, m: Mach, st: Forth, w': Low)
    requires Rel(env, w, m, st) && w' == w.(out := w'.out)
    ensures Rel(env, w', m, st)
  {
    OwnFrame(w, w');
  }

  lemma RelClearCache(env: Env, w: Low, m: Mach, st: Forth)
    requires Rel(env, w, m, st)
    ensures Rel(env, ClearCache(w), m, st)
  {
    hide Owned, FetchCell;
    OwnClearCache(w);
  }

  lemma RelStore(env: Env, w: Low, m: Mach, st: Forth, mem: Bytes)
    requires Rel(env, w, m, st) && w.cache == map[]
    ensures Rel(env, w, m.(mem := mem), st.(mem := mem))
  {
    hide Owned, FetchCell;
  }

  lemma RelCacheInsert(env: Env, w: Low, m: Mach, st: Forth, a: Addr, r: Reg)
    requires Rel(env, w, m, st)
    requires r in Pool() && r !in w.used && a !in w.cache && a in w.hot
    ensures Rel(env, w.(used := w.used + {r}, cache := w.cache[a := r]),
                Set(m, r, FetchCell(m.mem, a.cell)), st)
  {
    hide FetchCell, Pool;
    OwnCacheInsert(w, a, r);
    FreshHolder(w, r);
    var v := FetchCell(m.mem, a.cell);
    ValsFrame(w.vs, m.x, r, v);
    forall b | b in w.cache
      ensures Val(InReg(w.cache[b]), m.x[r := v]) == FetchCell(m.mem, b.cell)
    {
      assert w.cache[b] in CacheRegs(w.cache);
    }
  }

  // ----- the helpers of the lowerer -----

  lemma SimToRegAt(env: Env, m0: Mach, w: Low, st: Forth, i: nat)
    requires Sim(env, m0, w, st) && i < |w.vs| && ToRegAt(w, i).Some?
    ensures Sim(env, m0, ToRegAt(w, i).value, st)
  {
    hide Owned, Execute, Coherent, Column, Pool, FirstFree;
    match w.vs[i]
    case InReg(r) =>
    case Const(n) =>
      AllocIsFresh(w);
      var r := Alloc(w).value.1;
      var m := Now(env, w, m0);
      var w' := ToRegAt(w, i).value;
      assert w'.out == w.out + LoadImm64(r, n);
      ExecuteAppend(env, w.out, LoadImm64(r, n), m0);
      LoadImm64Loads(env, r, n, m);
      FreshHolder(w, r);
      ValsReplaceConst(w.vs, m.x, i, r);
      UpdateEntry(w.vs, i, InReg(r));
      RelFresh(env, w, m, st, r, n, w.vs[i := InReg(r)], multiset{w.vs[i]}, st, w');
  }

  lemma ValsReplaceConst(vs: seq<Loc>, x: map<Reg, Cell>, i: nat, r: Reg)
    requires i < |vs| && vs[i].Const? && Holders(vs, r) == 0
    ensures Vals(vs[i := InReg(r)], x[r := vs[i].n]) == Vals(vs, x)
  {
    ValsFrame(vs, x, r, vs[i].n);
  }

  lemma SimTwoRegs(env: Env, m0: Mach, w: Low, st: Forth)
    requires Sim(env, m0, w, st) && |w.vs| >= 2 && TwoRegs(w).Some?
    ensures Sim(env, m0, TwoRegs(w).value, st)
  {
    hide Sim, ToRegAt;
    var n := |w.vs|;
    SimToRegAt(env, m0, w, st, n - 2);
    SimToRegAt(env, m0, ToRegAt(w, n - 2).value, st, n - 1);
  }

  /** A copy of a constant or of a live register is pushed. */
  lemma SimPushCopy(env: Env, m0: Mach, w: Low, st: Forth, l: Loc)
    requires Sim(env, m0, w, st) && CopyOf(w, l).Some?
    requires l.InReg? ==> l.r in w.used
    ensures var (w1, c) := CopyOf(w, l).value;
            w1.vs == w.vs
            && Sim(env, m0, Push(w1, c),
                   st.(stack := st.stack + [Val(l, Now(env, w, m0).x)]))
  {
    hide Owned, Execute, Coherent, Column, Pool, FirstFree;
    var m := Now(env, w, m0);
    match l
    case Const(n) => SimPushConst(env, m0, w, st, n);
    case InReg(q) =>
      AllocIsFresh(w);
      var (w1, r) := Alloc(w).value;
      var v := Val(l, m.x);
      var w' := Push(Emit(w1, [MovReg(r, q)]), InReg(r));
      ExecuteOne(env, MovReg(r, q), m);
      SimPushFresh(env, m0, w, st, r, v, [MovReg(r, q)], w');
  }

  /** Code that loads `v` into a fresh register, which is pushed. */
  lemma SimPushFresh(env: Env, m0: Mach, w: Low, st: Forth, r: Reg, v: Cell, code: seq<Op>, w': Low)
    requires Sim(env, m0, w, st)
    requires r in Pool() && r !in w.used
    requires Execute(env, code, Now(env, w, m0)) == Set(Now(env, w, m0), r, v)
    requires w' == w.(used := w.used + {r}, vs := w.vs + [InReg(r)], out := w.out + code)
    ensures Sim(env, m0, w', st.(stack := st.stack + [v]))
  {
    hide Owned, Execute, Coherent, Column, Pool, Vals, Holders;
    var m := Now(env, w, m0);
    ExecuteAppend(env, w.out, code, m0);
    FreshHolder(w, r);
    FreshVals(w.vs, m.x, r, v);
    PushedEntry(w.vs, InReg(r));
    StackAppend(env, w, m, v);
    RelFresh(env, w, m, st, r, v, w.vs + [InReg(r)], multiset{}, st.(stack := st.stack + [v]), w');
  }

  lemma StackAppend(env: Env, w: Low, m: Mach, v: Cell)
    ensures StackOf(env, w, m) + [v] == Column(m.stk, env.base, m.dsp + w.consumed) + (Vals(w.vs, m.x) + [v])
  {
  }

  lemma PushedEntry(vs: seq<Loc>, l: Loc)
    ensures multiset(vs + [l]) == multiset(vs) - multiset{} + multiset{l}
  {
  }

  lemma FreshVals(vs: seq<Loc>, x: map<Reg, Cell>, r: Reg, v: Cell)
    requires Holders(vs, r) == 0
    ensures Vals(vs + [InReg(r)], x[r := v]) == Vals(vs, x) + [v]
  {
    ValsFrame(vs, x, r, v);
    ValsAppend(vs, [InReg(r)], x[r := v]);
    ValsOne(InReg(r), x[r := v]);
  }

  lemma ValsOne(l: Loc, x: map<Reg, Cell>)
    ensures Vals([l], x) == [Val(l, x)]
  {
  }

  lemma SimPushConst(env: Env, m0: Mach, w: Low, st: Forth, n: Cell)
    requires Sim(env, m0, w, st)
    ensures Sim(env, m0, Push(w, Const(n)), st.(stack := st.stack + [n]))
  {
    hide Owned, Execute, Coherent, Column, Vals;
    var m := Now(env, w, m0);
    ValsAppend(w.vs, [Const(n)], m.x);
    ValsOne(Const(n), m.x);
    assert multiset(w.vs + [Const(n)]) == multiset(w.vs) + multiset{Const(n)};
    RelRearrange(env, w, m, st, w.vs + [Const(n)], Push(w, Const(n)),
                 st.(stack := st.stack + [n]));
  }

  lemma ExecuteLdrStk(env: Env, r: Reg, off: nat, m: Mach)
    ensures Execute1(env, LdrStk(r, off), m) == Set(m, r, StkAt(m.stk, m.dsp + off))
  {
    hide AluOp.Eval, ShiftOp.Eval, CondHolds, FetchCell, StoreCell, FetchByte, StoreByte, MovkValue, MovzValue, View,
         Install;
  }

  lemma RelDeeper(env: Env, w: Low, m: Mach, st: Forth, w': Low)
    requires Owned(w)
    requires m.dsp + w.consumed < env.base
    requires st.stack == Column(m.stk, env.base, m.dsp + w.consumed + 1) + Vals(w.vs, m.x)
    requires st.rs == m.rs && st.mem == m.mem
    requires Coherent(w.cache, m.x, m.mem)
    requires w' == w.(consumed := w.consumed + 1, out := w'.out)
    ensures Rel(env, w', m, st)
  {
    OwnFrame(w, w');
  }

  lemma ValsPrepend(vs: seq<Loc>, x: map<Reg, Cell>, r: Reg, v: Cell)
    requires Holders(vs, r) == 0
    ensures Vals([InReg(r)] + vs, x[r := v]) == [v] + Vals(vs, x)
  {
    ValsFrame(vs, x, r, v);
    ValsAppend([InReg(r)], vs, x[r := v]);
    assert Vals([InReg(r)], x[r := v]) == [v];
  }

  lemma ColumnTop(stk: map<int, Cell>, base: int, d: int, s: seq<Cell>)
    requires d < base
    ensures Column(stk, base, d) + s == Column(stk, base, d + 1) + ([StkAt(stk, d)] + s)
  {
    hide StkAt;
  }

  lemma OneMore(vs: seq<Loc>, r: Reg)
    ensures multiset([InReg(r)] + vs) == multiset(vs) - multiset{} + multiset{InReg(r)}
    ensures multiset{} <= multiset(vs)
  {
  }

  lemma RelPull(env: Env, w: Low, m: Mach, st: Forth, r: Reg, w': Low)
    requires Rel(env, w, m, st) && r in Pool() && r !in w.used && |st.stack| > |w.vs|
    requires w' == Low(w'.out, [InReg(r)] + w.vs, w.used + {r}, w.consumed + 1, w.cache, w.hot)
    ensures Rel(env, w', Set(m, r, StkAt(m.stk, m.dsp + w.consumed)), st)
  {
    hide Owned, Coherent, Pool, FetchCell, Vals, Column, StkAt, Holders;
    var d := m.dsp + w.consumed;
    var v := StkAt(m.stk, d);
    var vs := [InReg(r)] + w.vs;
    FreshHolder(w, r);
    ValsPrepend(w.vs, m.x, r, v);
    ColumnTop(m.stk, env.base, d, Vals(w.vs, m.x));
    var w1 := w.(used := w.used + {r}, vs := vs);
    var st1 := st.(stack := Column(m.stk, env.base, d) + Vals(vs, m.x[r := v]));
    OneMore(w.vs, r);
    RelFresh(env, w, m, st, r, v, vs, multiset{}, st1, w1);
    RelDeeper(env, w1, Set(m, r, v), st, w');
  }

  /** One entry cell is pulled below the window. */
  lemma SimPull(env: Env, m0: Mach, w: Low, st: Forth, r: Reg, w': Low)
    requires Sim(env, m0, w, st)
    requires r in Pool() && r !in w.used
    requires |st.stack| > |w.vs| && w.consumed < 4096
    requires w' == Low(w.out + [LdrStk(r, w.consumed % 4096)], [InReg(r)] + w.vs, w.used + {r},
                       w.consumed + 1, w.cache, w.hot)
    ensures Sim(env, m0, w', st)
  {
    hide Rel, Execute, Execute1, Pool, StkAt;
    NowEmitOne(env, w, LdrStk(r, w.consumed), m0);
    ExecuteLdrStk(env, r, w.consumed, Now(env, w, m0));
    RelPull(env, w, Now(env, w, m0), st, r, w');
    SameNow(env, Emit(w, [LdrStk(r, w.consumed)]), w', m0);
  }

  /** Pulling operands does not change the state. */
  lemma {:induction false} SimEnsure(env: Env, m0: Mach, w: Low, st: Forth, n: nat)
    requires Sim(env, m0, w, st) && |st.stack| >= n && Ensure(w, n).Some?
    requires Delta(w) + n <= 4096
    ensures Sim(env, m0, Ensure(w, n).value, st)
    decreases n - |w.vs|
  {
    hide Sim, Pool, FirstFree;
    if |w.vs| < n {
      AllocIsFresh(w);
      var (w1, r) := Alloc(w).value;
      var w2 := Emit(w1, [LdrStk(r, w.consumed % 4096)])
                .(consumed := w.consumed + 1, vs := [InReg(r)] + w.vs);
      SimPull(env, m0, w, st, r, w2);
      SimEnsure(env, m0, w2, st, n);
    }
  }

  // ----- settling -----

  /** Entry `j` is a deep register entry at or after `i`. */
  predicate DeepReg(vs: seq<Loc>, i: nat, j: int) {
    i <= j < |vs| - 1 && vs[j].InReg?
  }

  predicate DeepConst(vs: seq<Loc>, i: nat, j: int) {
    i <= j < |vs| - 1 && vs[j].Const?
  }

  /** The entry whose slot is at address `a`. */
  function EntryAt(w: Low, dsp: int, a: int): int {
    dsp + |w.vs| - 2 - a
  }

  lemma ExecuteStrStk(env: Env, r: Reg, off: nat, m: Mach)
    ensures var m' := Execute1(env, StrStk(r, off), m);
            && m' == m.(stk := m'.stk)
            && forall a :: StkAt(m'.stk, a) == if a == m.dsp + off then X(m, r) else StkAt(m.stk, a)
  {
  }

  /** Pass 1 writes the slots of the deep register entries and nothing else. */
  lemma {:induction false} StoreRegsRuns(env: Env, m0: Mach, w: Low, i: nat)
    requires |w.vs| <= 4096
    ensures var m, m' := Now(env, w, m0), Now(env, StoreRegs(w, i), m0);
            && m' == m.(stk := m'.stk)
            && (forall a :: StkAt(m'.stk, a)
                  == var j := EntryAt(w, m.dsp, a);
                     if DeepReg(w.vs, i, j) then Val(w.vs[j], m.x) else StkAt(m.stk, a))
    decreases |w.vs| - i
  {
    hide Execute, Execute1;
    if i + 1 < |w.vs| {
      match w.vs[i]
      case Const(_) => StoreRegsRuns(env, m0, w, i + 1);
      case InReg(r) =>
        var off := |w.vs| - 2 - i;
        var w1 := FreeReg(Emit(w, [StrStk(r, off)]), r);
        NowEmitOne(env, w, StrStk(r, off), m0);
        ExecuteStrStk(env, r, off, Now(env, w, m0));
        StoreRegsRuns(env, m0, w1, i + 1);
    }
  }

  lemma StoreConstRuns(env: Env, t: Reg, n: Cell, off: nat, m: Mach)
    ensures var m' := Execute(env, LoadImm64(t, n) + [StrStk(t, off)], m);
            && m' == m.(stk := m'.stk, x := m.x[t := n])
            && forall a :: StkAt(m'.stk, a) == if a == m.dsp + off then n else StkAt(m.stk, a)
  {
    hide Execute, Execute1, LoadImm64;
    ExecuteAppend(env, LoadImm64(t, n), [StrStk(t, off)], m);
    LoadImm64Loads(env, t, n, m);
    ExecuteOne(env, StrStk(t, off), Set(m, t, n));
    ExecuteStrStk(env, t, off, Set(m, t, n));
  }

  /** Entry `i` is the one deep constant that entries from `i + 1` up leave out. */
  lemma SlotWritten(vs: seq<Loc>, i: nat, n: Cell, off: nat)
    requires i + 1 < |vs| && vs[i] == Const(n) && off == |vs| - 2 - i
    ensures forall j :: DeepConst(vs, i, j) <==> j == i || DeepConst(vs, i + 1, j)
  {
  }

  /** Pass 2 writes the slots of the deep constant entries and a scratch register. */
  lemma {:induction false} StoreConstsRuns(env: Env, m0: Mach, w: Low, i: nat)
    requires |w.vs| <= 4096 && StoreConsts(w, i).Some?
    ensures var m, m' := Now(env, w, m0), Now(env, StoreConsts(w, i).value, m0);
            && m' == m.(stk := m'.stk, x := m'.x) && X(m', TOS) == X(m, TOS)
            && (forall a :: StkAt(m'.stk, a)
                  == var j := EntryAt(w, m.dsp, a);
                     if DeepConst(w.vs, i, j) then w.vs[j].n else StkAt(m.stk, a))
    decreases |w.vs| - i
  {
    hide Execute, Execute1, FirstFree, LoadImm64;
    if i + 1 < |w.vs| {
      match w.vs[i]
      case InReg(_) => StoreConstsRuns(env, m0, w, i + 1);
      case Const(n) =>
        AllocIsFresh(w);
        var (w1, t) := Alloc(w).value;
        var off := |w.vs| - 2 - i;
        var code := LoadImm64(t, n) + [StrStk(t, off)];
        var w2 := FreeReg(Emit(w1, code), t);
        ExecuteAppend(env, w.out, code, m0);
        var m := Now(env, w, m0);
        assert Now(env, w2, m0) == Execute(env, code, m);
        StoreConstRuns(env, t, n, off, m);
        StoreConstsRuns(env, m0, w2, i + 1);
        SlotWritten(w.vs, i, n, off);
    }
  }

  /** The 12-bit immediate carries the change of DSP exactly up to 511 cells. */
  lemma AdjustDspExact(env: Env, delta: int, m: Mach)
    ensures Execute(env, AdjustDsp(delta), m) == m.(dsp := m.dsp + delta) <==> -511 <= delta <= 511
  {
    hide Execute1;
    var m' := Execute(env, AdjustDsp(delta), m);
    if delta > 0 {
      ExecuteOne(env, AddDsp(delta * 8 % 4096), m);
      AdjustOnce(env, delta, m);
    } else if delta < 0 {
      ExecuteOne(env, SubDsp(-delta * 8 % 4096), m);
      AdjustOnce(env, -delta, m);
    }
  }

  lemma AdjustOnce(env: Env, k: nat, m: Mach)
    requires k > 0
    ensures Execute1(env, AddDsp(k * 8 % 4096), m) == m.(dsp := m.dsp + k % 512)
    ensures Execute1(env, SubDsp(k * 8 % 4096), m) == m.(dsp := m.dsp - k % 512)
    ensures k % 512 == k <==> k <= 511
  {
    hide AluOp.Eval, ShiftOp.Eval, CondHolds, FetchCell, StoreCell, FetchByte, StoreByte, MovkValue, MovzValue, View,
         Install, Set;
    CutBytes(k);
  }

  lemma CutBytes(k: nat)
    ensures k * 8 % 4096 / 8 == k % 512
    ensures k % 512 == k <==> k <= 511
  {
  }

  lemma MoveTopRuns(env: Env, m0: Mach, w: Low)
    requires w.vs != []
    ensures var m, m' := Now(env, w, m0), Now(env, MoveTop(w), m0);
            m' == m.(x := m'.x) && X(m', TOS) == Val(w.vs[|w.vs| - 1], m.x)
    ensures MoveTop(w).vs == w.vs
  {
    hide Execute, Execute1, LoadImm64;
    var m := Now(env, w, m0);
    match w.vs[|w.vs| - 1]
    case Const(n) =>
      ExecuteAppend(env, w.out, LoadImm64(TOS, n), m0);
      LoadImm64Loads(env, TOS, n, m);
    case InReg(r) =>
      if r != TOS {
        NowEmitOne(env, w, MovReg(TOS, r), m0);
        ExecuteMovReg(env, TOS, r, m);
      }
  }

  lemma ExecuteMovReg(env: Env, rd: Reg, rm: Reg, m: Mach)
    ensures Execute1(env, MovReg(rd, rm), m) == Set(m, rd, X(m, rm))
  {
    hide AluOp.Eval, ShiftOp.Eval, CondHolds, FetchCell, StoreCell, FetchByte, StoreByte, MovkValue, MovzValue, View,
         Install;
  }

  /** Once every deep entry is in its slot, the column reads as the window. */
  lemma SlotsAreWindow(stk: map<int, Cell>, old_: map<int, Cell>, w: Low, x: map<Reg, Cell>,
                       base: int, dsp: int)
    requires w.vs != [] && dsp + |w.vs| - 1 <= base
    requires forall a :: StkAt(stk, a)
                      == var j := EntryAt(w, dsp, a);
                         if 0 <= j < |w.vs| - 1 then Val(w.vs[j], x) else StkAt(old_, a)
    ensures Column(stk, base, dsp) + [Val(w.vs[|w.vs| - 1], x)]
         == Column(old_, base, dsp + |w.vs| - 1) + Vals(w.vs, x)
  {
    hide Vals, Column, StkAt;
    var n := |w.vs| - 1;
    var mid := dsp + n;
    ColumnSplit(stk, base, mid, dsp);
    ColumnFrame(old_, stk, base, mid);
    ColumnIs(stk, mid, dsp, Vals(w.vs, x)[..n]);
    assert Vals(w.vs, x) == Vals(w.vs, x)[..n] + [Val(w.vs[n], x)];
  }

  /** Settled: the machine is in canonical form. */
  lemma SettledIsView(env: Env, m0: Mach, w: Low, st: Forth)
    requires Owned(w) && w.vs == [InReg(TOS)] && w.consumed == 0 && w.cache == map[]
    ensures Sim(env, m0, w, st)
        <==> View(env, Now(env, w, m0)) == st && Now(env, w, m0).dsp <= env.base
  {
    hide Owned, Execute;
    var m := Now(env, w, m0);
    assert Vals(w.vs, m.x) == [X(m, TOS)];
  }

  /** Settling a nonempty window, its cache already dropped. */
  lemma SettleNonempty(env: Env, m0: Mach, w: Low, st: Forth, w': Low)
    requires Sim(env, m0, w, st) && w.vs != [] && |w.vs| <= 4096
    requires -511 <= Delta(w) <= 511
    requires var w2 := StoreRegs(Emit(w, AdjustDsp(Delta(w))), 0);
             w2.vs == w.vs && StoreConsts(MoveTop(w2), 0).Some?
             && w'.out == StoreConsts(MoveTop(w2), 0).value.out
    ensures View(env, Now(env, w', m0)) == st && Now(env, w', m0).dsp <= env.base
  {
    hide Owned, Execute, Coherent, StoreRegs, StoreConsts, MoveTop, AdjustDsp, Column;
    var m := Now(env, w, m0);
    var d := Delta(w);
    var w1 := Emit(w, AdjustDsp(d));
    NowEmit(env, w, AdjustDsp(d), m0);
    AdjustDspExact(env, d, m);
    var w2 := StoreRegs(w1, 0);
    StoreRegsRuns(env, m0, w1, 0);
    var m2 := Now(env, w2, m0);
    MoveTopRuns(env, m0, w2);
    var w3 := MoveTop(w2);
    var m3 := Now(env, w3, m0);
    StoreConstsRuns(env, m0, w3, 0);
    var m4 := Now(env, StoreConsts(w3, 0).value, m0);
    assert Now(env, w', m0) == m4;
    forall a
      ensures StkAt(m4.stk, a)
           == var j := EntryAt(w, m4.dsp, a);
              if 0 <= j < |w.vs| - 1 then Val(w.vs[j], m.x) else StkAt(m.stk, a)
    {
    }
    SlotsAreWindow(m4.stk, m.stk, w, m.x, env.base, m4.dsp);
  }

  lemma EnsureKeepsDelta(w: Low, n: nat)
    requires Ensure(w, n).Some?
    ensures Delta(Ensure(w, n).value) == Delta(w)
    ensures |Ensure(w, n).value.vs| == if |w.vs| < n then n else |w.vs|
    decreases n - |w.vs|
  {
    hide FirstFree;
  }

  /** Settling does not change the state, and reaches canonical form. */
  lemma SimSettle(env: Env, m0: Mach, w: Low, st: Forth)
    requires Sim(env, m0, w, st) && |st.stack| >= 1 && SettleData(w).Some? && Fits(w)
    ensures Sim(env, m0, SettleData(w).value, st)
    ensures var m := Now(env, SettleData(w).value, m0);
            View(env, m) == st && m.dsp <= env.base
  {
    hide Owned, Execute, Coherent, StoreRegs, StoreConsts, MoveTop, AdjustDsp, Column, Ensure,
         ClearCache;
    var w0 := ClearCache(w);
    ClearCacheIs(w);
    RelClearCache(env, w, Now(env, w, m0), st);
    SimEnsure(env, m0, w0, st, 1);
    EnsureKeepsDelta(w0, 1);
    var w1 := Ensure(w0, 1).value;
    StoreRegsKeepsWindow(Emit(w1, AdjustDsp(Delta(w1))), 0);
    var w' := SettleData(w).value;
    SettleNonempty(env, m0, w1, st, w');
    SettleOwned(w);
    SettledIsView(env, m0, w', st);
  }

  lemma AdjustDspShort(env: Env, delta: int, m: Mach)
    requires delta < -511 || 511 < delta
    ensures var dsp := Execute(env, AdjustDsp(delta), m).dsp;
            if delta > 0 then dsp < m.dsp + delta else m.dsp + delta < dsp <= m.dsp
  {
    hide Execute1;
    if delta > 0 {
      ExecuteOne(env, AddDsp(delta * 8 % 4096), m);
      AdjustOnce(env, delta, m);
    } else {
      ExecuteOne(env, SubDsp(-delta * 8 % 4096), m);
      AdjustOnce(env, -delta, m);
    }
  }

  /** Only the adjustment moves DSP when a nonempty window is settled. */
  lemma SettleMovesDsp(env: Env, m0: Mach, w: Low)
    requires w.vs != [] && |w.vs| <= 4096 && SettleData(w).Some?
    ensures Now(env, SettleData(w).value, m0).dsp
         == Execute(env, AdjustDsp(Delta(w)), Now(env, w, m0)).dsp
  {
    hide Execute, StoreRegs, StoreConsts, MoveTop, AdjustDsp, CacheRegs;
    var w0 := ClearCache(w);
    var w1 := Emit(w0, AdjustDsp(Delta(w)));
    NowEmit(env, w0, AdjustDsp(Delta(w)), m0);
    StoreRegsKeepsWindow(w1, 0);
    StoreRegsRuns(env, m0, w1, 0);
    var w2 := StoreRegs(w1, 0);
    MoveTopRuns(env, m0, w2);
    StoreConstsRuns(env, m0, MoveTop(w2), 0);
  }

  /** Settling an empty window pulls one cell in and settles that. */
  lemma SettlePulls(w: Low)
    requires w.vs == [] && SettleData(w).Some?
    ensures var r := Ensure(ClearCache(w), 1);
            r.Some? && r.value.vs != [] && r.value.consumed == w.consumed + 1 && SettleData(r.value) == SettleData(w)
  {
    hide StoreRegs, StoreConsts, MoveTop, AdjustDsp, FirstFree;
    ClearCacheIs(w);
    PullOne(ClearCache(w));
    EmptyCacheStays(Ensure(ClearCache(w), 1).value);
  }

  lemma PullOne(w: Low)
    requires w.vs == [] && Ensure(w, 1).Some?
    ensures var w' := Ensure(w, 1).value;
            |w'.vs| == 1 && w'.consumed == w.consumed + 1 && w'.cache == w.cache && w'.hot == w.hot
  {
    hide FirstFree;
    var (w1, r) := Alloc(w).value;
    var w2 := Emit(w1, [LdrStk(r, w.consumed % 4096)]).(consumed := w.consumed + 1, vs := [InReg(r)] + w.vs);
    assert Ensure(w, 1) == Ensure(w2, 1) == Some(w2);
  }

  lemma EmptyCacheStays(w: Low)
    requires w.cache == map[]
    ensures ClearCache(w) == w
  {
    assert CacheRegs(w.cache) == {};
  }

  /** Settling keeps the state exactly when it moves DSP by at most 511 cells: past that the
      depth it leaves is wrong. */
  lemma SettleExactly(env: Env, m0: Mach, w: Low, st: Forth)
    requires Sim(env, m0, w, st) && |st.stack| >= 1 && SettleData(w).Some?
    requires |w.vs| <= 4095 && (w.vs == [] ==> w.consumed <= 4094)
    ensures View(env, Now(env, SettleData(w).value, m0)) == st <==> -511 <= Delta(w) <= 511
    decreases w.vs == []
  {
    hide Owned, Execute, Coherent, SettleData, AdjustDsp;
    if -511 <= Delta(w) <= 511 {
      SimSettle(env, m0, w, st);
    } else if w.vs == [] {
      var w0 := ClearCache(w);
      ClearCacheIs(w);
      RelClearCache(env, w, Now(env, w, m0), st);
      SettlePulls(w);
      SimEnsure(env, m0, w0, st, 1);
      EnsureKeepsDelta(w0, 1);
      SettleExactly(env, m0, Ensure(w0, 1).value, st);
    } else {
      SettleMovesDsp(env, m0, w);
      AdjustDspShort(env, Delta(w), Now(env, w, m0));
    }
  }

  // ----- operands -----

  lemma TopItems(env: Env, w: Low, m: Mach, st: Forth, k: nat)
    requires Rel(env, w, m, st) && k < |w.vs|
    ensures |st.stack| >= |w.vs|
    ensures Item(st.stack, k) == Val(w.vs[|w.vs| - 1 - k], m.x)
  {
  }

  /** Code that overwrites the register of entry `i`. */
  lemma SimOverwrite(env: Env, m0: Mach, w: Low, st: Forth, i: nat, code: seq<Op>, v: Cell, f: Flags)
    requires Sim(env, m0, w, st) && i < |w.vs| && w.vs[i].InReg?
    requires Execute(env, code, Now(env, w, m0)) == Set(Now(env, w, m0), w.vs[i].r, v).(flags := f)
    ensures var k := |st.stack| - |w.vs| + i;
            0 <= k < |st.stack|
            && Sim(env, m0, Emit(w, code), st.(stack := st.stack[k := v]))
  {
    hide Rel, Execute;
    var m := Now(env, w, m0);
    NowEmit(env, w, code, m0);
    RelOverwrite(env, w, m, st, i, v);
    var st' := st.(stack := st.stack[|st.stack| - |w.vs| + i := v]);
    RelFlags(env, w, Set(m, w.vs[i].r, v), st', f);
    RelIgnoresCode(env, w, Execute(env, code, m), st', Emit(w, code));
  }

  lemma SimRemove(env: Env, m0: Mach, w: Low, st: Forth, i: nat)
    requires Sim(env, m0, w, st) && i < |w.vs|
    ensures var k := |st.stack| - |w.vs| + i;
            0 <= k < |st.stack|
            && Sim(env, m0, Remove(w, i), st.(stack := st.stack[..k] + st.stack[k + 1..]))
  {
    hide Rel, Execute, Remove;
    RemoveShape(w, i);
    RelRemove(env, w, Now(env, w, m0), st, i);
  }

  /** Two register operands combined into the first. */
  lemma SimCombine(env: Env, m0: Mach, w: Low, st: Forth, code: seq<Op>, v: Cell, f: Flags)
    requires Sim(env, m0, w, st) && |w.vs| >= 2
    requires w.vs[|w.vs| - 2].InReg?
    requires Execute(env, code, Now(env, w, m0))
          == Set(Now(env, w, m0), w.vs[|w.vs| - 2].r, v).(flags := f)
    ensures |st.stack| >= 2
    ensures Sim(env, m0, Remove(Emit(w, code), |w.vs| - 1),
                st.(stack := Pop(st.stack, 2) + [v]))
  {
    hide Sim, Remove, Now, Execute;
    var n := |w.vs|;
    SimStackLength(env, m0, w, st);
    SimOverwrite(env, m0, w, st, n - 2, code, v, f);
    var s1 := st.stack[|st.stack| - 2 := v];
    SimRemove(env, m0, Emit(w, code), st.(stack := s1), n - 1);
    assert s1[..|s1| - 1] + s1[|s1|..] == Pop(st.stack, 2) + [v];
  }

  lemma SimStackLength(env: Env, m0: Mach, w: Low, st: Forth)
    requires Sim(env, m0, w, st)
    ensures |st.stack| >= |w.vs|
  {
    hide Owned, Coherent, Execute;
  }

  /** The operands are replaced by one of them, or by a constant for two constants. */
  /** Two entries replaced by one that holds the register of the two, if they hold one. */
  lemma SameRegs(vs: seq<Loc>, l: Loc)
    requires |vs| >= 2
    requires var a, b := vs[|vs| - 2], vs[|vs| - 1];
             (a.Const? && b.Const? && l.Const?) || (b.Const? && l == a) || (a.Const? && l == b)
    ensures forall r :: multiset(vs[..|vs| - 2] + [l])[InReg(r)] == multiset(vs)[InReg(r)]
  {
    var n := |vs|;
    assert vs == vs[..n - 2] + [vs[n - 2]] + [vs[n - 1]];
  }

  lemma ValsReplaced(vs: seq<Loc>, l: Loc, x: map<Reg, Cell>)
    requires |vs| >= 2
    ensures |Vals(vs, x)| == |vs|
    ensures Vals(vs[..|vs| - 2] + [l], x) == Vals(vs, x)[..|vs| - 2] + [Val(l, x)]
  {
    hide Val;
  }

  lemma PopColumn(col: seq<Cell>, s: seq<Cell>, v: Cell)
    requires |s| >= 2
    ensures Pop(col + s, 2) + [v] == col + (s[..|s| - 2] + [v])
  {
  }

  lemma SameNow(env: Env, w: Low, w': Low, m0: Mach)
    requires w'.out == w.out
    ensures Now(env, w', m0) == Now(env, w, m0)
  {
  }

  lemma SimReplace2(env: Env, m0: Mach, w: Low, st: Forth, l: Loc)
    requires Sim(env, m0, w, st) && |w.vs| >= 2
    requires var a, b := w.vs[|w.vs| - 2], w.vs[|w.vs| - 1];
             (a.Const? && b.Const? && l.Const?) || (b.Const? && l == a) || (a.Const? && l == b)
    ensures |st.stack| >= 2
    ensures Sim(env, m0, Replace2(w, l),
                st.(stack := Pop(st.stack, 2) + [Val(l, Now(env, w, m0).x)]))
  {
    hide Owned, Coherent, Execute, Column, Vals, Pop, Val, Now;
    var m := Now(env, w, m0);
    SameRegs(w.vs, l);
    ValsReplaced(w.vs, l, m.x);
    PopColumn(Column(m.stk, env.base, m.dsp + w.consumed), Vals(w.vs, m.x), Val(l, m.x));
    RelRearrange(env, w, m, st, w.vs[..|w.vs| - 2] + [l], Replace2(w, l),
                 st.(stack := Pop(st.stack, 2) + [Val(l, m.x)]));
    SameNow(env, w, Replace2(w, l), m0);
  }

  lemma SimReplace1(env: Env, m0: Mach, w: Low, st: Forth, x: Cell)
    requires Sim(env, m0, w, st) && |w.vs| >= 1 && w.vs[|w.vs| - 1].Const?
    ensures |st.stack| >= 1
    ensures Sim(env, m0, Replace1(w, Const(x)), st.(stack := Pop(st.stack, 1) + [x]))
  {
    hide Sim;
    var n := |w.vs|;
    SimStackLength(env, m0, w, st);
    SimRemove(env, m0, w, st, n - 1);
    assert st.stack[..|st.stack| - 1] + st.stack[|st.stack|..] == Pop(st.stack, 1);
    SimPushConst(env, m0, Remove(w, n - 1), st.(stack := Pop(st.stack, 1)), x);
    assert w.vs[..n - 1] + w.vs[n..] == w.vs[..n - 1];
  }

  /** Code that overwrites the register of the top entry. */
  lemma SimUnary(env: Env, m0: Mach, w: Low, st: Forth, code: seq<Op>, v: Cell, f: Flags)
    requires Sim(env, m0, w, st) && |w.vs| >= 1 && w.vs[|w.vs| - 1].InReg?
    requires Execute(env, code, Now(env, w, m0))
          == Set(Now(env, w, m0), w.vs[|w.vs| - 1].r, v).(flags := f)
    ensures |st.stack| >= 1
    ensures Sim(env, m0, Emit(w, code), st.(stack := Pop(st.stack, 1) + [v]))
  {
    hide Sim, Now, Execute;
    SimStackLength(env, m0, w, st);
    SimOverwrite(env, m0, w, st, |w.vs| - 1, code, v, f);
    assert st.stack[|st.stack| - 1 := v] == Pop(st.stack, 1) + [v];
  }

  /** One operand is a constant folded into code that overwrites the other. */
  lemma SimWithImmediate(env: Env, m0: Mach, w: Low, st: Forth, i: nat, code: seq<Op>, v: Cell,
                         f: Flags)
    requires Sim(env, m0, w, st) && |w.vs| >= 2
    requires (i == |w.vs| - 2 && w.vs[|w.vs| - 1].Const?) || (i == |w.vs| - 1 && w.vs[|w.vs| - 2].Const?)
    requires w.vs[i].InReg?
    requires Execute(env, code, Now(env, w, m0)) == Set(Now(env, w, m0), w.vs[i].r, v).(flags := f)
    ensures |st.stack| >= 2
    ensures Sim(env, m0, Replace2(Emit(w, code), w.vs[i]), st.(stack := Pop(st.stack, 2) + [v]))
  {
    hide Sim, Execute;
    SimStackLength(env, m0, w, st);
    SimOverwrite(env, m0, w, st, i, code, v, f);
    var st1 := st.(stack := st.stack[|st.stack| - |w.vs| + i := v]);
    NowEmit(env, w, code, m0);
    SimReplace2(env, m0, Emit(w, code), st1, w.vs[i]);
    assert Pop(st1.stack, 2) == Pop(st.stack, 2);
  }

  /** The values of the two operands. */
  lemma SimOperands(env: Env, m0: Mach, w: Low, st: Forth)
    requires Sim(env, m0, w, st) && |w.vs| >= 2
    ensures |st.stack| >= 2
    ensures Item(st.stack, 1) == Val(w.vs[|w.vs| - 2], Now(env, w, m0).x)
    ensures Item(st.stack, 0) == Val(w.vs[|w.vs| - 1], Now(env, w, m0).x)
  {
    hide Rel, Execute;
    TopItems(env, w, Now(env, w, m0), st, 1);
    TopItems(env, w, Now(env, w, m0), st, 0);
  }

  lemma SimOperand(env: Env, m0: Mach, w: Low, st: Forth, k: nat)
    requires Sim(env, m0, w, st) && k < |w.vs|
    ensures |st.stack| > k
    ensures Item(st.stack, k) == Val(w.vs[|w.vs| - 1 - k], Now(env, w, m0).x)
  {
    hide Rel, Execute;
    TopItems(env, w, Now(env, w, m0), st, k);
  }

  // ----- arithmetic -----

  lemma AddAsSub(x: Cell, k: Cell)
    ensures Sub.Eval(x, 0 - k) == Add.Eval(x, k)
  {
  }

  lemma SubAsAdd(x: Cell, k: Cell)
    ensures Add.Eval(x, 0 - k) == Sub.Eval(x, k)
  {
  }

  lemma MulAsShift(x: Cell, k: Cell, t: Cell)
    requires t == Exponent(k, 1) && t < 63
    ensures Lsl.Eval(x, t) == Mul.Eval(x, k)
  {
    MultiplyIsShift(x, k, t);
    LslIs(x, t);
  }

  lemma LslIs(x: Cell, t: Cell)
    requires t < 63
    ensures Lsl.Eval(x, t) == x << t
  {
  }

  /** The one-instruction form computes the operation. */
  lemma AddImmEffect(env: Env, r: Reg, k: Cell, m: Mach)
    requires Imm12(k)
    ensures Execute1(env, AddImm(r, r, k), m) == Set(m, r, Add.Eval(X(m, r), k))
  {
    hide AluOp.Eval, ShiftOp.Eval, CondHolds, FetchCell, StoreCell, FetchByte, StoreByte, MovkValue, MovzValue,
         View, Install, Cut12;
    CutSmall(k);
  }

  lemma SubImmEffect(env: Env, r: Reg, k: Cell, m: Mach)
    requires Imm12(k)
    ensures Execute1(env, SubImm(r, r, k), m) == Set(m, r, Sub.Eval(X(m, r), k))
  {
    hide AluOp.Eval, ShiftOp.Eval, CondHolds, FetchCell, StoreCell, FetchByte, StoreByte, MovkValue, MovzValue,
         View, Install, Cut12;
    CutSmall(k);
  }

  lemma ShiftImmEffect(env: Env, r: Reg, k: Cell, m: Mach)
    ensures Execute1(env, ShiftImm(Lsl, r, r, k), m) == Set(m, r, Lsl.Eval(X(m, r), k))
  {
    hide AluOp.Eval, ShiftOp.Eval, CondHolds, FetchCell, StoreCell, FetchByte, StoreByte, MovkValue, MovzValue,
         View, Install;
  }

  lemma ImmCodeRuns(env: Env, op: AluOp, k: Cell, r: Reg, m: Mach)
    requires ImmCode(op, k, r).Some?
    ensures Execute1(env, ImmCode(op, k, r).value, m) == Set(m, r, op.Eval(X(m, r), k))
  {
    hide AluOp.Eval, ShiftOp.Eval, Exponent, Imm12, Execute1;
    var x := X(m, r);
    if Imm12(k) {
      AddImmEffect(env, r, k, m);
      SubImmEffect(env, r, k, m);
    }
    if Imm12(0 - k) {
      AddImmEffect(env, r, 0 - k, m);
      SubImmEffect(env, r, 0 - k, m);
    }
    ShiftImmEffect(env, r, Exponent(k, 1), m);
    if op == Mul {
      MulAsShift(x, k, Exponent(k, 1));
    } else if op == Add {
      AddAsSub(x, k);
    } else if op == Sub {
      SubAsAdd(x, k);
    }
  }

  lemma ExecuteAlu(env: Env, op: AluOp, rd: Reg, rn: Reg, rm: Reg, m: Mach)
    ensures Execute(env, [AluReg(op, rd, rn, rm)], m) == Set(m, rd, op.Eval(X(m, rn), X(m, rm)))
  {
    hide AluOp.Eval, ShiftOp.Eval, CondHolds, Execute, FetchCell, StoreCell, FetchByte, StoreByte, MovkValue,
         MovzValue, View, Install;
    ExecuteOne(env, AluReg(op, rd, rn, rm), m);
  }

  lemma SimAlu(env: Env, m0: Mach, w: Low, st: Forth, op: AluOp)
    requires Sim(env, m0, w, st) && |w.vs| >= 2 && AluBody(w, op).Some?
    ensures |st.stack| >= 2
    ensures Sim(env, m0, AluBody(w, op).value,
                st.(stack := Pop(st.stack, 2) + [op.Eval(Item(st.stack, 1), Item(st.stack, 0))]))
    ensures AluGives(op, Item(st.stack, 1), Item(st.stack, 0), op.Eval(Item(st.stack, 1), Item(st.stack, 0)))
  {
    hide Sim, Execute, Execute1, TwoRegs, ImmCode, AluOp.Eval, Remove, Now, AluGives;
    SimStackLength(env, m0, w, st);
    AluIs(op, Item(st.stack, 1), Item(st.stack, 0));
    var n := |w.vs|;
    var a, b := w.vs[n - 2], w.vs[n - 1];
    var m := Now(env, w, m0);
    SimOperands(env, m0, w, st);
    var v := op.Eval(Item(st.stack, 1), Item(st.stack, 0));
    if a.Const? && b.Const? {
      SimReplace2(env, m0, w, st, Const(v));
    } else if b.Const? && ImmCode(op, b.n, a.r).Some? {
      ImmCodeRuns(env, op, b.n, a.r, m);
      ExecuteOne(env, ImmCode(op, b.n, a.r).value, m);
      SimWithImmediate(env, m0, w, st, n - 2, [ImmCode(op, b.n, a.r).value], v, m.flags);
    } else if a.Const? && op == Add && ImmCode(Add, a.n, b.r).Some? {
      ImmCodeRuns(env, Add, a.n, b.r, m);
      AddCommutes(a.n, X(m, b.r));
      ExecuteOne(env, ImmCode(Add, a.n, b.r).value, m);
      SimWithImmediate(env, m0, w, st, n - 1, [ImmCode(Add, a.n, b.r).value], v, m.flags);
    } else {
      SimTwoRegs(env, m0, w, st);
      SimAluRegs(env, m0, TwoRegs(w).value, st, op);
    }
  }

  lemma SimAluRegs(env: Env, m0: Mach, w: Low, st: Forth, op: AluOp)
    requires Sim(env, m0, w, st) && |w.vs| >= 2
    requires w.vs[|w.vs| - 2].InReg? && w.vs[|w.vs| - 1].InReg?
    ensures |st.stack| >= 2
    ensures var ra, rb := w.vs[|w.vs| - 2].r, w.vs[|w.vs| - 1].r;
            Sim(env, m0, Remove(Emit(w, [AluReg(op, ra, ra, rb)]), |w.vs| - 1),
                st.(stack := Pop(st.stack, 2) + [op.Eval(Item(st.stack, 1), Item(st.stack, 0))]))
  {
    hide Sim, Execute, AluOp.Eval, Remove, Now;
    SimOperands(env, m0, w, st);
    var m := Now(env, w, m0);
    var ra, rb := w.vs[|w.vs| - 2].r, w.vs[|w.vs| - 1].r;
    ExecuteAlu(env, op, ra, ra, rb, m);
    SimCombine(env, m0, w, st, [AluReg(op, ra, ra, rb)],
               op.Eval(Item(st.stack, 1), Item(st.stack, 0)), m.flags);
  }

  lemma AddCommutes(x: Cell, y: Cell)
    ensures Add.Eval(x, y) == Add.Eval(y, x)
  {
  }

  lemma SimImmAlu(env: Env, m0: Mach, w: Low, st: Forth, op: AluOp, k: Cell)
    requires Sim(env, m0, w, st) && |w.vs| >= 1 && ImmAluBody(w, op, k).Some?
    ensures |st.stack| >= 1
    ensures Sim(env, m0, ImmAluBody(w, op, k).value,
                st.(stack := Pop(st.stack, 1) + [op.Eval(Item(st.stack, 0), k)]))
  {
    hide Sim, Execute, Execute1, ImmCode, AluOp.Eval, Now, FirstFree;
    var n := |w.vs|;
    var m := Now(env, w, m0);
    SimOperand(env, m0, w, st, 0);
    var v := op.Eval(Item(st.stack, 0), k);
    match w.vs[n - 1]
    case Const(x) => SimReplace1(env, m0, w, st, v);
    case InReg(r) =>
      if ImmCode(op, k, r).Some? {
        ImmCodeRuns(env, op, k, r, m);
        ExecuteOne(env, ImmCode(op, k, r).value, m);
        SimUnary(env, m0, w, st, [ImmCode(op, k, r).value], v, m.flags);
      } else {
        AllocIsFresh(w);
        SimScratch(env, m0, w, st, Alloc(w).value.1, op, k);
      }
  }

  /** The constant is loaded into a scratch register, used once and freed. */
  lemma SimScratch(env: Env, m0: Mach, w: Low, st: Forth, t: Reg, op: AluOp, k: Cell)
    requires Sim(env, m0, w, st) && |w.vs| >= 1 && w.vs[|w.vs| - 1].InReg?
    requires t in Pool() && t !in w.used
    ensures |st.stack| >= 1
    ensures var r := w.vs[|w.vs| - 1].r;
            Sim(env, m0, FreeReg(Emit(w.(used := w.used + {t}), LoadImm64(t, k) + [AluReg(op, r, r, t)]), t),
                st.(stack := Pop(st.stack, 1) + [op.Eval(Item(st.stack, 0), k)]))
  {
    hide Sim, Execute, Execute1, AluOp.Eval, Now, LoadImm64, Pool;
    var n := |w.vs|;
    var r := w.vs[n - 1].r;
    SimOperand(env, m0, w, st, 0);
    var v := op.Eval(Item(st.stack, 0), k);
    // Push the constant, then combine: the same code and the same final window.
    var w1 := w.(used := w.used + {t}, vs := w.vs + [InReg(t)], out := w.out + LoadImm64(t, k));
    LoadImm64Loads(env, t, k, Now(env, w, m0));
    SimPushFresh(env, m0, w, st, t, k, LoadImm64(t, k), w1);
    var st1 := st.(stack := st.stack + [k]);
    SimOperands(env, m0, w1, st1);
    var m1 := Now(env, w1, m0);
    ExecuteAlu(env, op, r, r, t, m1);
    assert w1.vs[|w1.vs| - 2] == w.vs[n - 1];
    SimCombine(env, m0, w1, st1, [AluReg(op, r, r, t)], v, m1.flags);
    assert Pop(st1.stack, 2) == Pop(st.stack, 1);
    var w2 := Remove(Emit(w1, [AluReg(op, r, r, t)]), n);
    assert w1.vs[..n] + w1.vs[n + 1..] == w.vs;
    assert w.out + (LoadImm64(t, k) + [AluReg(op, r, r, t)])
        == (w.out + LoadImm64(t, k)) + [AluReg(op, r, r, t)];
    assert w2 == FreeReg(Emit(w.(used := w.used + {t}), LoadImm64(t, k) + [AluReg(op, r, r, t)]), t);
  }

  lemma DupIdentities(op: AluOp, x: Cell)
    ensures op == And || op == Or ==> op.Eval(x, x) == x
    ensures op == Sub || op == Xor ==> op.Eval(x, x) == 0
  {
  }

  lemma SimDupAlu(env: Env, m0: Mach, w: Low, st: Forth, op: AluOp)
    requires Sim(env, m0, w, st) && |w.vs| >= 1
    ensures |st.stack| >= 1
    ensures Sim(env, m0, DupAluBody(w, op),
                st.(stack := Pop(st.stack, 1) + [op.Eval(Item(st.stack, 0), Item(st.stack, 0))]))
  {
    hide Sim, Execute, AluOp.Eval, Now, Remove;
    var n := |w.vs|;
    var m := Now(env, w, m0);
    SimOperand(env, m0, w, st, 0);
    var x := Item(st.stack, 0);
    var v := op.Eval(x, x);
    DupIdentities(op, x);
    match w.vs[n - 1]
    case Const(_) => SimReplace1(env, m0, w, st, v);
    case InReg(r) =>
      if op == Add || op == Mul {
        ExecuteAlu(env, op, r, r, r, m);
        SimUnary(env, m0, w, st, [AluReg(op, r, r, r)], v, m.flags);
      } else if op == And || op == Or {
        assert Pop(st.stack, 1) + [x] == st.stack;
      } else {
        SimRemove(env, m0, w, st, n - 1);
        SimStackLength(env, m0, w, st);
        assert st.stack[..|st.stack| - 1] + st.stack[|st.stack|..] == Pop(st.stack, 1);
        SimPushConst(env, m0, Remove(w, n - 1), st.(stack := Pop(st.stack, 1)), 0);
      }
  }

  lemma ExecuteShift(env: Env, sh: ShiftOp, rd: Reg, rn: Reg, rm: Reg, k: Cell, m: Mach)
    ensures Execute(env, [ShiftImm(sh, rd, rn, k)], m) == Set(m, rd, sh.Eval(X(m, rn), k))
    ensures Execute(env, [ShiftReg(sh, rd, rn, rm)], m) == Set(m, rd, sh.Eval(X(m, rn), X(m, rm)))
  {
    hide ShiftOp.Eval, AluOp.Eval, CondHolds, Execute, FetchCell, StoreCell, FetchByte, StoreByte, MovkValue,
         MovzValue, View, Install;
    ExecuteOne(env, ShiftImm(sh, rd, rn, k), m);
    ExecuteOne(env, ShiftReg(sh, rd, rn, rm), m);
  }

  lemma SimShifted(env: Env, m0: Mach, w: Low, st: Forth, sh: ShiftOp)
    requires Sim(env, m0, w, st) && |w.vs| >= 2 && ShiftBody(w, sh).Some?
    ensures |st.stack| >= 2
    ensures Sim(env, m0, ShiftBody(w, sh).value,
                st.(stack := Pop(st.stack, 2) + [sh.Eval(Item(st.stack, 1), Item(st.stack, 0))]))
  {
    hide Sim, Execute, TwoRegs, ShiftOp.Eval, Remove, Now;
    var n := |w.vs|;
    var a, b := w.vs[n - 2], w.vs[n - 1];
    var m := Now(env, w, m0);
    SimOperands(env, m0, w, st);
    var v := sh.Eval(Item(st.stack, 1), Item(st.stack, 0));
    if a.Const? && b.Const? {
      SimReplace2(env, m0, w, st, Const(v));
    } else if b.Const? {
      var k := b.n & 63;
      CountIsMasked(sh, Item(st.stack, 1), b.n);
      if k == 0 {
        SimReplace2(env, m0, w, st, a);
      } else {
        ExecuteShift(env, sh, a.r, a.r, a.r, k, m);
        SimWithImmediate(env, m0, w, st, n - 2, [ShiftImm(sh, a.r, a.r, k)], v, m.flags);
      }
    } else {
      SimTwoRegs(env, m0, w, st);
      SimShiftRegs(env, m0, TwoRegs(w).value, st, sh);
    }
  }

  lemma SimShift(env: Env, m0: Mach, w: Low, st: Forth, sh: ShiftOp)
    requires Sim(env, m0, w, st) && |w.vs| >= 2 && ShiftBody(w, sh).Some?
    ensures |st.stack| >= 2
    ensures Sim(env, m0, ShiftBody(w, sh).value,
                st.(stack := Pop(st.stack, 2) + [sh.Eval(Item(st.stack, 1), Item(st.stack, 0))]))
    ensures ShiftGives(sh, Item(st.stack, 1), Item(st.stack, 0), sh.Eval(Item(st.stack, 1), Item(st.stack, 0)))
  {
    hide Sim, ShiftBody, ShiftOp.Eval, ShiftGives;
    SimShifted(env, m0, w, st, sh);
    ShiftIs(sh, Item(st.stack, 1), Item(st.stack, 0));
  }

  lemma SimShiftRegs(env: Env, m0: Mach, w: Low, st: Forth, sh: ShiftOp)
    requires Sim(env, m0, w, st) && |w.vs| >= 2
    requires w.vs[|w.vs| - 2].InReg? && w.vs[|w.vs| - 1].InReg?
    ensures |st.stack| >= 2
    ensures var ra, rb := w.vs[|w.vs| - 2].r, w.vs[|w.vs| - 1].r;
            Sim(env, m0, Remove(Emit(w, [ShiftReg(sh, ra, ra, rb)]), |w.vs| - 1),
                st.(stack := Pop(st.stack, 2) + [sh.Eval(Item(st.stack, 1), Item(st.stack, 0))]))
  {
    hide Sim, Execute, ShiftOp.Eval, Remove, Now;
    SimOperands(env, m0, w, st);
    var m := Now(env, w, m0);
    var ra, rb := w.vs[|w.vs| - 2].r, w.vs[|w.vs| - 1].r;
    ExecuteShift(env, sh, ra, ra, rb, 0, m);
    SimCombine(env, m0, w, st, [ShiftReg(sh, ra, ra, rb)],
               sh.Eval(Item(st.stack, 1), Item(st.stack, 0)), m.flags);
  }

  lemma SimImmShift(env: Env, m0: Mach, w: Low, st: Forth, sh: ShiftOp, k: ShiftCount)
    requires Sim(env, m0, w, st) && |w.vs| >= 1
    ensures |st.stack| >= 1
    ensures Sim(env, m0, ImmShiftBody(w, sh, k),
                st.(stack := Pop(st.stack, 1) + [sh.Eval(Item(st.stack, 0), k)]))
    ensures ShiftGives(sh, Item(st.stack, 0), k, sh.Eval(Item(st.stack, 0), k))
  {
    hide Sim, Execute, ShiftOp.Eval, Now, ShiftGives;
    SimStackLength(env, m0, w, st);
    ShiftIs(sh, Item(st.stack, 0), k);
    var m := Now(env, w, m0);
    SimOperand(env, m0, w, st, 0);
    var v := sh.Eval(Item(st.stack, 0), k);
    match w.vs[|w.vs| - 1]
    case Const(_) => SimReplace1(env, m0, w, st, v);
    case InReg(r) =>
      ExecuteShift(env, sh, r, r, r, k, m);
      SimUnary(env, m0, w, st, [ShiftImm(sh, r, r, k)], v, m.flags);
  }

  lemma ExecuteAluShifted(env: Env, op: AluOp, sh: ShiftOp, r: Reg, k: Cell, m: Mach)
    ensures Execute(env, [AluShifted(op, sh, r, r, r, k)], m)
         == Set(m, r, op.Eval(X(m, r), sh.Eval(X(m, r), k)))
  {
    hide ShiftOp.Eval, AluOp.Eval, CondHolds, Execute, FetchCell, StoreCell, FetchByte, StoreByte, MovkValue,
         MovzValue, View, Install;
    ExecuteOne(env, AluShifted(op, sh, r, r, r, k), m);
  }

  lemma SimDupShiftAlu(env: Env, m0: Mach, w: Low, st: Forth, op: AluOp, sh: ShiftOp, k: ShiftCount)
    requires Sim(env, m0, w, st) && |w.vs| >= 1
    ensures |st.stack| >= 1
    ensures Sim(env, m0, DupShiftAluBody(w, op, sh, k),
                st.(stack := Pop(st.stack, 1)
                             + [op.Eval(Item(st.stack, 0), sh.Eval(Item(st.stack, 0), k))]))
  {
    hide Sim, Execute, ShiftOp.Eval, AluOp.Eval, Now;
    var m := Now(env, w, m0);
    SimOperand(env, m0, w, st, 0);
    var v := op.Eval(Item(st.stack, 0), sh.Eval(Item(st.stack, 0), k));
    match w.vs[|w.vs| - 1]
    case Const(_) => SimReplace1(env, m0, w, st, v);
    case InReg(r) =>
      ExecuteAluShifted(env, op, sh, r, k, m);
      SimUnary(env, m0, w, st, [AluShifted(op, sh, r, r, r, k)], v, m.flags);
  }

  // ----- comparisons -----

  lemma ExecuteCmpImm(env: Env, r: Reg, k: Cell, c: Cond, m: Mach)
    requires Imm12(k)
    ensures Execute(env, [CmpImm(r, k), Csetm(r, c)], m)
         == Set(m, r, Flag(CondHolds(c, Compared(X(m, r), k)))).(flags := Compared(X(m, r), k))
  {
    hide CondHolds, Execute, Execute1, Flag;
    ExecuteTwo(env, CmpImm(r, k), Csetm(r, c), m);
    ExecuteCompare(env, r, r, k, m);
    ExecuteSelect(env, r, r, c, m.(flags := Compared(X(m, r), k)));
  }

  lemma ExecuteCmpReg(env: Env, ra: Reg, rb: Reg, c: Cond, m: Mach)
    ensures Execute(env, [CmpReg(ra, rb), Csetm(ra, c)], m)
         == (var f := Compared(X(m, ra), X(m, rb)); Set(m, ra, Flag(CondHolds(c, f))).(flags := f))
  {
    hide CondHolds, Execute, Execute1, Flag;
    ExecuteTwo(env, CmpReg(ra, rb), Csetm(ra, c), m);
    ExecuteCompare(env, ra, rb, 0, m);
    ExecuteSelect(env, ra, rb, c, m.(flags := Compared(X(m, ra), X(m, rb))));
  }

  lemma SimZeroCmp(env: Env, m0: Mach, w: Low, st: Forth, c: CmpOp)
    requires Sim(env, m0, w, st) && |w.vs| >= 1 && c.IsZeroTest()
    ensures |st.stack| >= 1
    ensures Sim(env, m0, ZeroCmpBody(w, c),
                st.(stack := Pop(st.stack, 1) + [Flag(c.Holds(Item(st.stack, 0), 0))]))
    ensures c.Holds(Item(st.stack, 0), 0) <==> InOrder(c, Item(st.stack, 0), 0)
  {
    hide Sim, Execute, CmpOp.Holds, CondHolds, Now, InOrder;
    SimStackLength(env, m0, w, st);
    HoldsIs(c, Item(st.stack, 0), 0);
    var m := Now(env, w, m0);
    SimOperand(env, m0, w, st, 0);
    var x := Item(st.stack, 0);
    var v := Flag(c.Holds(x, 0));
    match w.vs[|w.vs| - 1]
    case Const(_) => SimReplace1(env, m0, w, st, v);
    case InReg(r) =>
      ExecuteCmpImm(env, r, 0, CondOf(c), m);
      CondOfHolds(c, x, 0);
      SimUnary(env, m0, w, st, [CmpImm(r, 0), Csetm(r, CondOf(c))], v, Compared(x, 0));
  }

  lemma SimBinaryFlag(env: Env, m0: Mach, w: Low, st: Forth, c: CmpOp)
    requires Sim(env, m0, w, st) && |w.vs| >= 2 && !c.IsZeroTest() && BinaryCmpBody(w, c).Some?
    ensures |st.stack| >= 2
    ensures Sim(env, m0, BinaryCmpBody(w, c).value,
                st.(stack := Pop(st.stack, 2)
                             + [Flag(c.Holds(Item(st.stack, 1), Item(st.stack, 0)))]))
  {
    hide Sim, Execute, TwoRegs, CmpOp.Holds, CondHolds, Remove, Now, Imm12, CondOf, SwappedCondOf;
    var n := |w.vs|;
    var a, b := w.vs[n - 2], w.vs[n - 1];
    var m := Now(env, w, m0);
    SimOperands(env, m0, w, st);
    var x, y := Item(st.stack, 1), Item(st.stack, 0);
    var v := Flag(c.Holds(x, y));
    CondOfHolds(c, x, y);
    SwappedCondHolds(c, x, y);
    if a.Const? && b.Const? {
      SimReplace2(env, m0, w, st, Const(v));
    } else if b.Const? && Imm12(b.n) {
      ExecuteCmpImm(env, a.r, b.n, CondOf(c), m);
      SimWithImmediate(env, m0, w, st, n - 2, [CmpImm(a.r, b.n), Csetm(a.r, CondOf(c))], v,
                       Compared(x, y));
    } else if a.Const? && Imm12(a.n) {
      ExecuteCmpImm(env, b.r, a.n, SwappedCondOf(c), m);
      SimWithImmediate(env, m0, w, st, n - 1, [CmpImm(b.r, a.n), Csetm(b.r, SwappedCondOf(c))], v,
                       Compared(y, x));
    } else {
      SimTwoRegs(env, m0, w, st);
      SimCmpRegs(env, m0, TwoRegs(w).value, st, c);
    }
  }

  lemma SimBinaryCmp(env: Env, m0: Mach, w: Low, st: Forth, c: CmpOp)
    requires Sim(env, m0, w, st) && |w.vs| >= 2 && !c.IsZeroTest() && BinaryCmpBody(w, c).Some?
    ensures |st.stack| >= 2
    ensures Sim(env, m0, BinaryCmpBody(w, c).value,
                st.(stack := Pop(st.stack, 2)
                             + [Flag(c.Holds(Item(st.stack, 1), Item(st.stack, 0)))]))
    ensures c.Holds(Item(st.stack, 1), Item(st.stack, 0)) <==> InOrder(c, Item(st.stack, 1), Item(st.stack, 0))
  {
    hide Sim, BinaryCmpBody, CmpOp.Holds, InOrder;
    SimBinaryFlag(env, m0, w, st, c);
    HoldsIs(c, Item(st.stack, 1), Item(st.stack, 0));
  }

  lemma SimCmpRegs(env: Env, m0: Mach, w: Low, st: Forth, c: CmpOp)
    requires Sim(env, m0, w, st) && |w.vs| >= 2 && !c.IsZeroTest()
    requires w.vs[|w.vs| - 2].InReg? && w.vs[|w.vs| - 1].InReg?
    ensures |st.stack| >= 2
    ensures var ra, rb := w.vs[|w.vs| - 2].r, w.vs[|w.vs| - 1].r;
            Sim(env, m0, Remove(Emit(w, [CmpReg(ra, rb), Csetm(ra, CondOf(c))]), |w.vs| - 1),
                st.(stack := Pop(st.stack, 2)
                             + [Flag(c.Holds(Item(st.stack, 1), Item(st.stack, 0)))]))
  {
    hide Sim, Execute, CmpOp.Holds, CondHolds, Remove, Now, CondOf, Flag;
    SimOperands(env, m0, w, st);
    var x, y := Item(st.stack, 1), Item(st.stack, 0);
    var ra, rb := w.vs[|w.vs| - 2].r, w.vs[|w.vs| - 1].r;
    CondOfHolds(c, x, y);
    ExecuteCmpReg(env, ra, rb, CondOf(c), Now(env, w, m0));
    SimCombine(env, m0, w, st, [CmpReg(ra, rb), Csetm(ra, CondOf(c))], Flag(c.Holds(x, y)),
               Compared(x, y));
  }

  lemma ExecuteSel(env: Env, ra: Reg, rb: Reg, s: SelOp, m: Mach)
    ensures Execute(env, [CmpReg(ra, rb), Csel(ra, ra, rb, SelCondOf(s))], m)
         == Set(m, ra, s.Eval(X(m, ra), X(m, rb))).(flags := Compared(X(m, ra), X(m, rb)))
  {
    hide CondHolds, Execute, Execute1, SelOp.Eval, SelCondOf;
    SelectIs(s, X(m, ra), X(m, rb));
    ExecuteTwo(env, CmpReg(ra, rb), Csel(ra, ra, rb, SelCondOf(s)), m);
    ExecuteCompare(env, ra, rb, 0, m);
    ExecuteSelect(env, ra, rb, SelCondOf(s), m.(flags := Compared(X(m, ra), X(m, rb))));
  }

  lemma SimSel(env: Env, m0: Mach, w: Low, st: Forth, s: SelOp)
    requires Sim(env, m0, w, st) && |w.vs| >= 2 && SelBody(w, s).Some?
    ensures |st.stack| >= 2
    ensures Sim(env, m0, SelBody(w, s).value,
                st.(stack := Pop(st.stack, 2) + [s.Eval(Item(st.stack, 1), Item(st.stack, 0))]))
    ensures SelGives(s, Item(st.stack, 1), Item(st.stack, 0), s.Eval(Item(st.stack, 1), Item(st.stack, 0)))
  {
    hide Sim, Execute, TwoRegs, SelOp.Eval, Remove, Now, SelCondOf, SelGives;
    SimStackLength(env, m0, w, st);
    SelIs(s, Item(st.stack, 1), Item(st.stack, 0));
    var n := |w.vs|;
    var a, b := w.vs[n - 2], w.vs[n - 1];
    SimOperands(env, m0, w, st);
    var x, y := Item(st.stack, 1), Item(st.stack, 0);
    var v := s.Eval(x, y);
    if a.Const? && b.Const? {
      SimReplace2(env, m0, w, st, Const(v));
    } else {
      SimTwoRegs(env, m0, w, st);
      SimSelRegs(env, m0, TwoRegs(w).value, st, s);
    }
  }

  lemma SimSelRegs(env: Env, m0: Mach, w: Low, st: Forth, s: SelOp)
    requires Sim(env, m0, w, st) && |w.vs| >= 2
    requires w.vs[|w.vs| - 2].InReg? && w.vs[|w.vs| - 1].InReg?
    ensures |st.stack| >= 2
    ensures var ra, rb := w.vs[|w.vs| - 2].r, w.vs[|w.vs| - 1].r;
            Sim(env, m0, Remove(Emit(w, [CmpReg(ra, rb), Csel(ra, ra, rb, SelCondOf(s))]), |w.vs| - 1),
                st.(stack := Pop(st.stack, 2) + [s.Eval(Item(st.stack, 1), Item(st.stack, 0))]))
  {
    hide Sim, Execute, SelOp.Eval, SelCondOf, Remove, Now;
    SimOperands(env, m0, w, st);
    var x, y := Item(st.stack, 1), Item(st.stack, 0);
    var ra, rb := w.vs[|w.vs| - 2].r, w.vs[|w.vs| - 1].r;
    ExecuteSel(env, ra, rb, s, Now(env, w, m0));
    SimCombine(env, m0, w, st, [CmpReg(ra, rb), Csel(ra, ra, rb, SelCondOf(s))], s.Eval(x, y),
               Compared(x, y));
  }

  // ----- stack motion -----

  lemma SimPick(env: Env, m0: Mach, w: Low, st: Forth, n: nat)
    requires Sim(env, m0, w, st) && |w.vs| >= n + 1 && PickBody(w, n).Some?
    ensures |st.stack| > n
    ensures Sim(env, m0, PickBody(w, n).value, st.(stack := st.stack + [Item(st.stack, n)]))
  {
    hide Sim, Now, CopyOf;
    SimOperand(env, m0, w, st, n);
    EntryIsUsed(env, m0, w, st, |w.vs| - 1 - n);
    SimPushCopy(env, m0, w, st, w.vs[|w.vs| - 1 - n]);
  }

  lemma EntryIsUsed(env: Env, m0: Mach, w: Low, st: Forth, i: nat)
    requires Sim(env, m0, w, st) && i < |w.vs|
    ensures w.vs[i].InReg? ==> w.vs[i].r in w.used
  {
    if w.vs[i].InReg? {
      HolderInWindow(w.vs, w.vs[i].r);
    }
  }

  /** The window is permuted; the stack goes the same way. */
  lemma SimPermute(env: Env, m0: Mach, w: Low, st: Forth, vs: seq<Loc>, s: seq<Cell>, d: nat)
    requires Sim(env, m0, w, st)
    requires multiset(vs) == multiset(w.vs) && |vs| == |w.vs| && |s| == |st.stack| == d + |vs|
    requires s[..d] == st.stack[..d]
    requires s[d..] == Vals(vs, Now(env, w, m0).x)
    ensures Sim(env, m0, w.(vs := vs), st.(stack := s))
  {
    hide Owned, Coherent, Execute, Vals;
    var m := Now(env, w, m0);
    var col := Column(m.stk, env.base, m.dsp + w.consumed);
    assert s == s[..d] + s[d..];
    assert st.stack[..d] == col;
    RelRearrange(env, w, m, st, vs, w.(vs := vs), st.(stack := s));
  }

  /** The window's part of the stack. */
  lemma SimWindow(env: Env, m0: Mach, w: Low, st: Forth)
    requires Sim(env, m0, w, st)
    ensures |st.stack| >= |w.vs|
    ensures st.stack[|st.stack| - |w.vs|..] == Vals(w.vs, Now(env, w, m0).x)
  {
    hide Owned, Coherent, Execute;
  }

  lemma RollInside(s: seq<Cell>, d: nat, n: nat)
    requires d + n < |s|
    ensures Rolled(s, n)[..d] == s[..d] && Rolled(s, n)[d..] == Rolled(s[d..], n)
  {
  }

  lemma ValsRoll(vs: seq<Loc>, x: map<Reg, Cell>, n: nat)
    requires n < |vs|
    ensures Vals(Rolled(vs, n), x) == Rolled(Vals(vs, x), n)
  {
  }

  lemma SimRoll(env: Env, m0: Mach, w: Low, st: Forth, n: nat)
    requires Sim(env, m0, w, st) && |w.vs| >= n + 1
    ensures |st.stack| >= n + 1
    ensures Sim(env, m0, RollBody(w, n), st.(stack := Rolled(st.stack, n)))
  {
    hide Sim, Now, Vals, Rolled;
    SimWindow(env, m0, w, st);
    var d := |st.stack| - |w.vs|;
    RollInside(st.stack, d, n);
    RollPermutes(w.vs, n);
    ValsRoll(w.vs, Now(env, w, m0).x, n);
    SimPermute(env, m0, w, st, Rolled(w.vs, n), Rolled(st.stack, n), d);
  }

  lemma MinusRotInside(s: seq<Cell>, d: nat)
    requires d + 3 <= |s|
    ensures MinusRotated(s)[..d] == s[..d] && MinusRotated(s)[d..] == MinusRotated(s[d..])
  {
    var n, u := |s|, s[d..];
    var k := |u|;
    assert u[..k - 3] == s[d..n - 3] && u[k - 1] == s[n - 1] && u[k - 3..k - 1] == s[n - 3..n - 1];
    assert s[..n - 3] == s[..d] + s[d..n - 3];
  }

  lemma ValsMinusRot(vs: seq<Loc>, x: map<Reg, Cell>)
    requires |vs| >= 3
    ensures Vals(MinusRotated(vs), x) == MinusRotated(Vals(vs, x))
  {
  }

  lemma SimMinusRot(env: Env, m0: Mach, w: Low, st: Forth)
    requires Sim(env, m0, w, st) && |w.vs| >= 3
    ensures |st.stack| >= 3
    ensures Sim(env, m0, MinusRotBody(w), st.(stack := MinusRotated(st.stack)))
  {
    hide Sim, Now, Vals, MinusRotated;
    SimWindow(env, m0, w, st);
    var d := |st.stack| - |w.vs|;
    MinusRotInside(st.stack, d);
    MinusRotPermutes(w.vs);
    ValsMinusRot(w.vs, Now(env, w, m0).x);
    SimPermute(env, m0, w, st, MinusRotated(w.vs), MinusRotated(st.stack), d);
  }

  lemma SimTuck(env: Env, m0: Mach, w: Low, st: Forth)
    requires Sim(env, m0, w, st) && |w.vs| >= 2 && TuckBody(w).Some?
    ensures |st.stack| >= 2
    ensures Sim(env, m0, TuckBody(w).value,
                st.(stack := MinusRotated(st.stack + [Item(st.stack, 0)])))
  {
    hide Sim, CopyOf, Execute;
    var n := |w.vs|;
    SimOperand(env, m0, w, st, 0);
    SimOperand(env, m0, w, st, 1);
    EntryIsUsed(env, m0, w, st, n - 1);
    SimPushCopy(env, m0, w, st, w.vs[n - 1]);
    var (w1, c) := CopyOf(w, w.vs[n - 1]).value;
    // The pushed copy is rotated below the two operands.
    SimMinusRot(env, m0, Push(w1, c), st.(stack := st.stack + [Item(st.stack, 0)]));
    assert MinusRotBody(Push(w1, c)).vs == w.vs[..n - 2] + [c] + w.vs[n - 2..];
  }

  // ----- memory -----

  lemma ExecuteLoad(env: Env, rt: Reg, rn: Reg, m: Mach)
    ensures Execute1(env, Ldr0(rt, rn), m) == Set(m, rt, FetchCell(m.mem, X(m, rn)))
    ensures Execute1(env, Ldrb0(rt, rn), m) == Set(m, rt, FetchByte(m.mem, X(m, rn)))
  {
    hide AluOp.Eval, ShiftOp.Eval, CondHolds, FetchCell, StoreCell, FetchByte, StoreByte, MovkValue,
         MovzValue, View, Install;
  }

  /** What a store does to memory. */
  function StoreTo(byte: bool, mem: Bytes, a: Cell, v: Cell): Bytes {
    if byte then StoreByte(mem, a, v) else StoreCell(mem, a, v)
  }

  lemma ExecuteStore(env: Env, byte: bool, rx: Reg, raddr: Reg, m: Mach)
    ensures Execute1(env, StoreCode(byte, rx, raddr), m)
         == m.(mem := StoreTo(byte, m.mem, X(m, raddr), X(m, rx)))
  {
    hide AluOp.Eval, ShiftOp.Eval, CondHolds, FetchCell, StoreCell, FetchByte, StoreByte, MovkValue,
         MovzValue, View, Install;
  }

  /** A copy of a live register replaces the constant on top. */
  lemma SimCopyOverConst(env: Env, m0: Mach, w: Low, st: Forth, r: Reg)
    requires Sim(env, m0, w, st) && |w.vs| >= 1 && w.vs[|w.vs| - 1].Const?
    requires r in w.used && CopyOf(w, InReg(r)).Some?
    ensures |st.stack| >= 1
    ensures var (w1, c) := CopyOf(w, InReg(r)).value;
            |w1.vs| == |w.vs|
            && Sim(env, m0, Replace1(w1, c),
                   st.(stack := Pop(st.stack, 1) + [Val(InReg(r), Now(env, w, m0).x)]))
  {
    hide Sim, CopyOf, Now;
    SimStackLength(env, m0, w, st);
    SimPushCopy(env, m0, w, st, InReg(r));
    var (w1, c) := CopyOf(w, InReg(r)).value;
    var n := |w.vs|;
    var v := Val(InReg(r), Now(env, w, m0).x);
    var s1 := st.stack + [v];
    SimRemove(env, m0, Push(w1, c), st.(stack := s1), n - 1);
    assert s1[..|s1| - 2] + s1[|s1| - 1..] == Pop(st.stack, 1) + [v];
    assert (w1.vs + [c])[..n - 1] + (w1.vs + [c])[n..] == w1.vs[..n - 1] + [c];
  }

  lemma CachedIsUsed(w: Low, a: Addr)
    requires Owned(w) && a in w.cache
    ensures w.cache[a] in w.used
  {
    assert w.cache[a] in CacheRegs(w.cache);
  }

  lemma SimCached(env: Env, m0: Mach, w: Low, st: Forth, a: Addr)
    requires Sim(env, m0, w, st) && a in w.cache
    ensures w.cache[a] in w.used
    ensures Val(InReg(w.cache[a]), Now(env, w, m0).x) == FetchCell(st.mem, a.cell)
  {
    hide Execute, FetchCell;
    CachedIsUsed(w, a);
  }

  lemma ExecuteLoadConst(env: Env, r: Reg, a: Cell, m: Mach)
    ensures Execute(env, LoadImm64(r, a) + [Ldr0(r, r)], m) == Set(m, r, FetchCell(m.mem, a))
  {
    hide Execute, Execute1, LoadImm64, FetchCell;
    ExecuteAppend(env, LoadImm64(r, a), [Ldr0(r, r)], m);
    LoadImm64Loads(env, r, a, m);
    ExecuteOne(env, Ldr0(r, r), Set(m, r, a));
    ExecuteLoad(env, r, r, Set(m, r, a));
    SetTwice(m, r, a, FetchCell(m.mem, a));
  }

  /** A hot cell is loaded into a register that the cache keeps. */
  lemma SimCacheFill(env: Env, m0: Mach, w: Low, st: Forth, a: Cell, r: Reg, w': Low)
    requires Sim(env, m0, w, st)
    requires r in Pool() && r !in w.used && Addr(a) !in w.cache && Addr(a) in w.hot
    requires w' == w.(used := w.used + {r}, cache := w.cache[Addr(a) := r],
                      out := w.out + (LoadImm64(r, a) + [Ldr0(r, r)]))
    ensures Sim(env, m0, w', st)
  {
    hide Owned, Coherent, Execute, LoadImm64, FetchCell, Column, Vals, Pool;
    var code := LoadImm64(r, a) + [Ldr0(r, r)];
    var m := Now(env, w, m0);
    ExecuteAppend(env, w.out, code, m0);
    ExecuteLoadConst(env, r, a, m);
    RelCacheInsert(env, w, m, st, Addr(a), r);
    var w1 := w.(used := w.used + {r}, cache := w.cache[Addr(a) := r]);
    RelIgnoresCode(env, w1, Set(m, r, FetchCell(m.mem, a)), st, w');
  }

  lemma SimFetch(env: Env, m0: Mach, w: Low, st: Forth)
    requires Sim(env, m0, w, st) && |w.vs| >= 1 && FetchBody(w).Some?
    ensures |st.stack| >= 1
    ensures Sim(env, m0, FetchBody(w).value,
                st.(stack := Pop(st.stack, 1) + [FetchCell(st.mem, Item(st.stack, 0))]))
  {
    hide Sim, Execute, CopyOf, ToRegAt, FetchCell, Now, FirstFree;
    var n := |w.vs|;
    var a := w.vs[n - 1];
    SimOperand(env, m0, w, st, 0);
    if a.Const? && Addr(a.n) in w.cache {
      SimCached(env, m0, w, st, Addr(a.n));
      SimCopyOverConst(env, m0, w, st, w.cache[Addr(a.n)]);
    } else if a.Const? && Addr(a.n) in w.hot {
      AllocIsFresh(w);
      var (w1, rc) := Alloc(w).value;
      var w2 := Emit(w1, LoadImm64(rc, a.n) + [Ldr0(rc, rc)]);
      var w3 := w2.(cache := w2.cache[Addr(a.n) := rc]);
      SimCacheFill(env, m0, w, st, a.n, rc, w3);
      SimCached(env, m0, w3, st, Addr(a.n));
      SimCopyOverConst(env, m0, w3, st, rc);
    } else {
      SimToRegAt(env, m0, w, st, n - 1);
      SimLoadTop(env, m0, ToRegAt(w, n - 1).value, st, false);
    }
  }

  function LoadCode(byte: bool, r: Reg): Op {
    if byte then Ldrb0(r, r) else Ldr0(r, r)
  }

  lemma SimLoadTop(env: Env, m0: Mach, w: Low, st: Forth, byte: bool)
    requires Sim(env, m0, w, st) && |w.vs| >= 1 && w.vs[|w.vs| - 1].InReg?
    ensures |st.stack| >= 1
    ensures var a := Item(st.stack, 0);
            Sim(env, m0, Emit(w, [LoadCode(byte, w.vs[|w.vs| - 1].r)]),
                st.(stack := Pop(st.stack, 1)
                             + [if byte then FetchByte(st.mem, a) else FetchCell(st.mem, a)]))
  {
    hide Sim, Execute, Execute1, FetchCell, FetchByte;
    var r := w.vs[|w.vs| - 1].r;
    SimOperand(env, m0, w, st, 0);
    var m := Now(env, w, m0);
    SimMem(env, m0, w, st);
    ExecuteOne(env, LoadCode(byte, r), m);
    ExecuteLoad(env, r, r, m);
    var a := Item(st.stack, 0);
    SimUnary(env, m0, w, st, [LoadCode(byte, r)],
             if byte then FetchByte(st.mem, a) else FetchCell(st.mem, a), m.flags);
  }

  lemma SimMem(env: Env, m0: Mach, w: Low, st: Forth)
    requires Sim(env, m0, w, st)
    ensures st.mem == Now(env, w, m0).mem && st.rs == Now(env, w, m0).rs
  {
    hide Execute;
  }

  lemma SimCFetch(env: Env, m0: Mach, w: Low, st: Forth)
    requires Sim(env, m0, w, st) && |w.vs| >= 1 && CFetchBody(w).Some?
    ensures |st.stack| >= 1
    ensures Sim(env, m0, CFetchBody(w).value,
                st.(stack := Pop(st.stack, 1) + [FetchByte(st.mem, Item(st.stack, 0))]))
  {
    hide Sim, ToRegAt, FetchByte, FetchCell;
    SimStackLength(env, m0, w, st);
    SimToRegAt(env, m0, w, st, |w.vs| - 1);
    SimLoadTop(env, m0, ToRegAt(w, |w.vs| - 1).value, st, true);
  }

  /** With nothing cached, a store may hit any address. */
  lemma SimStoreEmit(env: Env, m0: Mach, w: Low, st: Forth, byte: bool)
    requires Sim(env, m0, w, st) && |w.vs| >= 2 && w.cache == map[]
    requires w.vs[|w.vs| - 2].InReg? && w.vs[|w.vs| - 1].InReg?
    ensures |st.stack| >= 2
    ensures Sim(env, m0, Emit(w, [StoreCode(byte, w.vs[|w.vs| - 2].r, w.vs[|w.vs| - 1].r)]),
                st.(mem := StoreTo(byte, st.mem, Item(st.stack, 0), Item(st.stack, 1))))
  {
    hide Rel, Execute, Execute1, StoreTo, StoreCode;
    var rx, raddr := w.vs[|w.vs| - 2].r, w.vs[|w.vs| - 1].r;
    SimOperands(env, m0, w, st);
    SimMem(env, m0, w, st);
    var m := Now(env, w, m0);
    var mem := StoreTo(byte, m.mem, X(m, raddr), X(m, rx));
    NowEmitOne(env, w, StoreCode(byte, rx, raddr), m0);
    ExecuteStore(env, byte, rx, raddr, m);
    RelStore(env, w, m, st, mem);
    RelIgnoresCode(env, w, m.(mem := mem), st.(mem := mem),
                   Emit(w, [StoreCode(byte, rx, raddr)]));
  }

  lemma SimStore(env: Env, m0: Mach, w: Low, st: Forth, byte: bool)
    requires Sim(env, m0, w, st) && |w.vs| >= 2 && w.cache == map[] && StoreBody(w, byte).Some?
    ensures |st.stack| >= 2
    ensures Sim(env, m0, StoreBody(w, byte).value,
                st.(stack := Pop(st.stack, 2),
                    mem := StoreTo(byte, st.mem, Item(st.stack, 0), Item(st.stack, 1))))
  {
    hide Sim, ToRegAt, StoreTo, StoreCode, Remove;
    var n := |w.vs|;
    SimStackLength(env, m0, w, st);
    SimToRegAt(env, m0, w, st, n - 1);
    ToRegAtKeepsCache(w, n - 1);
    var w1 := ToRegAt(w, n - 1).value;
    SimToRegAt(env, m0, w1, st, n - 2);
    ToRegAtKeepsCache(w1, n - 2);
    var w2 := ToRegAt(w1, n - 2).value;
    SimStoreEmit(env, m0, w2, st, byte);
    var w3 := Emit(w2, [StoreCode(byte, w2.vs[n - 2].r, w2.vs[n - 1].r)]);
    var st3 := st.(mem := StoreTo(byte, st.mem, Item(st.stack, 0), Item(st.stack, 1)));
    SimRemove(env, m0, w3, st3, n - 1);
    RemoveShape(w3, n - 1);
    var s := st.stack;
    assert s[..|s| - 1] + s[|s|..] == Pop(s, 1);
    SimRemove(env, m0, Remove(w3, n - 1), st3.(stack := Pop(s, 1)), n - 2);
    assert Pop(s, 1)[..|s| - 2] + Pop(s, 1)[|s| - 1..] == Pop(s, 2);
  }

  lemma ToRegAtKeepsCache(w: Low, i: nat)
    requires i < |w.vs| && ToRegAt(w, i).Some?
    ensures ToRegAt(w, i).value.cache == w.cache
  {
  }

  // ----- the loop index and calls -----

  lemma ExecuteLdrRp(env: Env, r: Reg, slot: nat, m: Mach)
    requires slot < |m.rs|
    ensures Execute(env, [LdrRp(r, slot)], m) == Set(m, r, m.rs[slot])
  {
    hide AluOp.Eval, ShiftOp.Eval, CondHolds, FetchCell, StoreCell, FetchByte, StoreByte, MovkValue,
         MovzValue, View, Install, Execute;
    ExecuteOne(env, LdrRp(r, slot), m);
  }

  lemma SimLoopIdx(env: Env, m0: Mach, w: Low, st: Forth, slot: nat)
    requires Sim(env, m0, w, st) && slot < |st.rs| && LoopIdxBody(w, slot).Some?
    ensures Sim(env, m0, LoopIdxBody(w, slot).value, st.(stack := st.stack + [st.rs[slot]]))
  {
    hide Sim, Execute, FirstFree, Pool;
    AllocIsFresh(w);
    var r := Alloc(w).value.1;
    SimMem(env, m0, w, st);
    ExecuteLdrRp(env, r, slot, Now(env, w, m0));
    SimPushFresh(env, m0, w, st, r, st.rs[slot], [LdrRp(r, slot)], LoopIdxBody(w, slot).value);
  }

  lemma ExecuteBlr(env: Env, r: Reg, m: Mach)
    requires |env.words(X(m, r), View(env, m)).stack| >= 1
    ensures Execute1(env, Blr(r), m) == Install(env, m, env.words(X(m, r), View(env, m)))
  {
    hide AluOp.Eval, ShiftOp.Eval, CondHolds, FetchCell, StoreCell, FetchByte, StoreByte,
         MovkValue, MovzValue, View, Install;
  }

  /** A call from canonical form does what the word does, and returns in canonical form. */
  lemma CallRuns(env: Env, xt: Cell, m: Mach)
    requires |env.words(xt, View(env, m)).stack| >= 1
    ensures var m' := Execute(env, EmitCall(xt), m);
            View(env, m') == env.words(xt, View(env, m)) && m'.dsp <= env.base
  {
    hide Execute, Execute1, LoadImm64, Install;
    ExecuteAppend(env, LoadImm64(CALL_TMP, xt), [Blr(CALL_TMP)], m);
    LoadImm64Loads(env, CALL_TMP, xt, m);
    var m1 := Set(m, CALL_TMP, xt);
    assert View(env, m1) == View(env, m);
    ExecuteOne(env, Blr(CALL_TMP), m1);
    ExecuteBlr(env, CALL_TMP, m1);
    InstallView(env, m1, env.words(xt, View(env, m)));
  }

  lemma SimCall(env: Env, m0: Mach, w: Low, st: Forth, xt: Cell)
    requires Sim(env, m0, w, st) && |st.stack| >= 1 && Fits(w) && SettleData(w).Some?
    requires |env.words(xt, st).stack| >= 1
    ensures Sim(env, m0, Emit(SettleData(w).value, EmitCall(xt)), env.words(xt, st))
  {
    hide Sim, Execute, SettleData, EmitCall, View, Owned;
    SimSettle(env, m0, w, st);
    SettleKeepsOwned(env, m0, w, st);
    var w1 := SettleData(w).value;
    NowEmit(env, w1, EmitCall(xt), m0);
    CallRuns(env, xt, Now(env, w1, m0));
    OwnFrame(w1, Emit(w1, EmitCall(xt)));
    SettledIsView(env, m0, Emit(w1, EmitCall(xt)), env.words(xt, st));
  }

  lemma SettleKeepsOwned(env: Env, m0: Mach, w: Low, st: Forth)
    requires Sim(env, m0, w, st)
    ensures var r := SettleData(w);
            r.Some? && Owned(r.value) && r.value == Start(w.hot).(out := r.value.out)
  {
    hide Owned, SettleData;
    SettleOwned(w);
  }
}
