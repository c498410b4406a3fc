/** Exactly when the peephole pass is transparent, and exactly when its result is stable. */
module Exactness {
  import opened Cells
  import opened Tokens
  import opened Reduce

  // ----- underflow -----

  /** The number of machine cells a token needs: what it consumes, and the junk cell. */
  function Takes(t: Tok): nat {
    match t
    case Lit(_) => 1
    case Alu(_) => 3
    case Shift(_) => 3
    case Stk(s) => if s == Dup || s == Drop then 2 else if s == Rot || s == MinusRot then 4 else 3
    case Cmp(c) => if c.IsZeroTest() then 2 else 3
    case Sel(_) => 3
    case Mem(m) => if m == Fetch || m == CFetch then 2 else 3
    case PickN(n) => n + 2
    case RollN(n) => n + 2
    case LoopIdx(_) => 1
    case _ => 2
  }

  /** What a token other than a call adds to the depth. */
  function Grows(t: Tok): int {
    match t
    case Lit(_) => 1
    case Alu(_) => -1
    case Shift(_) => -1
    case Stk(s) => if s == Dup || s == Over || s == Tuck then 1 else if s == Drop || s == Nip then -1 else 0
    case Cmp(c) => if c.IsZeroTest() then 0 else -1
    case Sel(_) => -1
    case Mem(m) => if m == Fetch || m == CFetch then 0 else -2
    case PickN(_) => 1
    case LoopIdx(_) => 1
    case _ => 0
  }

  predicate CallFree(toks: seq<Tok>) {
    forall i | 0 <= i < |toks| :: !toks[i].Call?
  }

  /** The depth from which a run does not underflow, read off its tokens. */
  function Need(toks: seq<Tok>): int
    decreases |toks|
  {
    if toks == [] then 0
    else
      var rest := Need(toks[1..]) - Grows(toks[0]);
      if rest > Takes(toks[0]) then rest else Takes(toks[0])
  }

  /** The number of return-stack cells it looks at. */
  function Slots(toks: seq<Tok>): nat
    decreases |toks|
  {
    if toks == [] then 0
    else
      var rest := Slots(toks[1..]);
      if toks[0].LoopIdx? && toks[0].slot >= rest then toks[0].slot + 1 else rest
  }

  predicate Enough(toks: seq<Tok>, st: Forth) {
    |st.stack| >= Need(toks) && |st.rs| >= Slots(toks)
  }

  /** A token goes through on exactly the stacks that `Takes` allows, and moves the depth
      by `Grows`. */
  predicate Succeeds(words: Words, t: Tok, st: Forth) {
    var r := Step(words, t, st);
    && (r.Some? <==> |st.stack| >= Takes(t) && (t.LoopIdx? ==> t.slot < |st.rs|))
    && (r.Some? ==> |r.value.stack| == |st.stack| + Grows(t) && r.value.rs == st.rs)
  }

  lemma ArithmeticSucceeds(words: Words, t: Tok, st: Forth)
    requires t.Alu? || t.ImmAlu? || t.DupAlu? || t.Shift? || t.ImmShift? || t.DupShiftAlu?
    ensures Succeeds(words, t, st)
  {
    hide AluOp.Eval, ShiftOp.Eval;
  }

  lemma MemorySucceeds(words: Words, m: MemOp, st: Forth)
    ensures Succeeds(words, Mem(m), st)
  {
    hide FetchCell, StoreCell, FetchByte, StoreByte;
  }

  lemma MotionSucceeds(words: Words, s: StackOp, st: Forth)
    ensures Succeeds(words, Stk(s), st)
  {
  }

  lemma StepSucceeds(words: Words, t: Tok, st: Forth)
    requires !t.Call?
    ensures Succeeds(words, t, st)
  {
    hide CmpOp.Holds, SelOp.Eval, RunStackOp;
    if t.Stk? {
      MotionSucceeds(words, t.s, st);
    } else if t.Mem? {
      MemorySucceeds(words, t.m, st);
    } else if t.Lit? || t.Cmp? || t.Sel? || t.PickN? || t.RollN? || t.LoopIdx? {
    } else {
      ArithmeticSucceeds(words, t, st);
    }
  }

  /** A run without calls goes through exactly when the two stacks are deep enough. */
  lemma {:induction false} RunSucceeds(words: Words, toks: seq<Tok>, st: Forth)
    requires CallFree(toks)
    ensures Run(words, toks, st).Some? <==> Enough(toks, st)
    decreases |toks|
  {
    hide Step, Takes, Grows;
    if toks != [] {
      StepSucceeds(words, toks[0], st);
      var r := Step(words, toks[0], st);
      if r.Some? {
        RunSucceeds(words, toks[1..], r.value);
      }
    }
  }

  lemma PushCallFree(out: seq<Tok>, t: Tok)
    requires CallFree(out) && !t.Call?
    ensures CallFree(Push(out, t))
  {
    hide AluOp.Eval, ShiftOp.Eval, Chain, IsIdentity, IsAbsorbing;
  }

  lemma {:induction false} ReducedCallFree(toks: seq<Tok>)
    requires CallFree(toks)
    ensures CallFree(Reduced(toks))
    decreases |toks|
  {
    hide Push;
    if toks != [] {
      ReducedCallFree(toks[..|toks| - 1]);
      PushCallFree(Reduced(toks[..|toks| - 1]), toks[|toks| - 1]);
    }
  }

  /** The pass is transparent exactly when the run does not underflow or what is left of it
      still does. */
  lemma TransparentExactly(words: Words, toks: seq<Tok>, st: Forth)
    requires CallFree(toks)
    ensures Run(words, Reduced(toks), st) == Run(words, toks, st)
       <==> Enough(toks, st) || !Enough(Reduced(toks), st)
  {
    hide Run, Reduced, Enough;
    RunSucceeds(words, toks, st);
    ReducedCallFree(toks);
    RunSucceeds(words, Reduced(toks), st);
    if Enough(toks, st) {
      ReducedMeans(words, toks, st);
    }
  }

  // ----- stability -----

  /** Neighbours that the pass would rewrite. */
  predicate Redex(a: Tok, b: Tok) {
    || (b == Stk(Drop) && (a.Lit? || a == Stk(Dup)))
    || (b == Cmp(ZEq) && a.Cmp? && a.c.Negate().Some?)
  }

  predicate HasRedex(out: seq<Tok>) {
    exists i | 0 < i < |out| :: Redex(out[i - 1], out[i])
  }

  // ----- what is left to rewrite -----

  /** Neighbours that never occur in the result: a literal or `dup` before an operator, a
      literal count before a shift, two motions that undo each other, two immediates of one
      operator. */
  predicate Rewritable(a: Tok, b: Tok) {
    || (b.Alu? && (a.Lit? || a == Stk(Dup)))
    || (b.Shift? && a.Lit?)
    || (a == Stk(Swap) && b == Stk(Swap))
    || (a == Stk(Rot) && b == Stk(MinusRot))
    || (a == Stk(MinusRot) && b == Stk(Rot))
    || (a.ImmAlu? && b.ImmAlu? && a.op == b.op)
  }

  /** `dup`, a shift by a literal and an operator that has a shifted form. */
  predicate Fusible(a: Tok, b: Tok, c: Tok) {
    a == Stk(Dup) && b.ImmShift? && c.Alu? && c.op != Mul
  }

  predicate IsNormal(out: seq<Tok>) {
    && (forall i | 0 < i < |out| :: !Rewritable(out[i - 1], out[i]))
    && (forall i | 1 < i < |out| :: !Fusible(out[i - 2], out[i - 1], out[i]))
  }

  lemma NormalPrefix(out: seq<Tok>, n: nat)
    requires n <= |out| && IsNormal(out)
    ensures IsNormal(out[..n])
  {
    hide Rewritable, Fusible;
  }

  lemma NormalMore(out: seq<Tok>, t: Tok)
    requires IsNormal(out)
    requires |out| >= 1 ==> !Rewritable(out[|out| - 1], t)
    requires |out| >= 2 ==> !Fusible(out[|out| - 2], out[|out| - 1], t)
    ensures IsNormal(out + [t])
  {
    hide Rewritable, Fusible;
  }

  /** Tokens that go with whatever is before them. */
  lemma NormalPlain(out: seq<Tok>, t: Tok)
    requires IsNormal(out) && !t.Alu? && !t.Shift? && !t.ImmAlu?
    requires t.Stk? ==> t.s != Swap && t.s != Rot && t.s != MinusRot
    ensures IsNormal(out + [t])
  {
    hide IsNormal;
    NormalMore(out, t);
  }

  lemma NormalFold(out: seq<Tok>, op: AluOp, k: Cell)
    requires IsNormal(out)
    ensures IsNormal(FoldImmediate(out, op, k))
  {
    hide IsNormal, IsIdentity, IsAbsorbing, Chain;
    var n := |out|;
    NormalPlain(out, Stk(Drop));
    NormalPlain(out + [Stk(Drop)], Lit(k));
    assert out + [Stk(Drop)] + [Lit(k)] == out + [Stk(Drop), Lit(k)];
    if n >= 1 && out[n - 1].ImmAlu? && out[n - 1].op == op {
      NormalPrefix(out, n - 1);
      if n >= 2 {
        NormalLast(out);
      }
      NormalMore(out[..n - 1], ImmAlu(op, Chain(op, out[n - 1].k, k)));
    } else {
      NormalMore(out, ImmAlu(op, k));
    }
  }

  lemma NormalLast(out: seq<Tok>)
    requires IsNormal(out) && |out| >= 2
    ensures !Rewritable(out[|out| - 2], out[|out| - 1])
  {
    hide Rewritable, Fusible;
  }

  lemma NormalDup(out: seq<Tok>, op: AluOp)
    requires IsNormal(out)
    ensures IsNormal(FoldDup(out, op))
  {
    hide IsNormal;
    var n := |out|;
    NormalPlain(out, Stk(Drop));
    NormalPlain(out + [Stk(Drop)], Lit(0));
    NormalPlain(out, DupAlu(op));
    if n >= 1 {
      NormalPrefix(out, n - 1);
      NormalPlain(out[..n - 1], Lit(0));
    }
  }

  lemma NormalAlu(out: seq<Tok>, op: AluOp)
    requires IsNormal(out)
    ensures IsNormal(PushAlu(out, op))
  {
    hide IsNormal, AluOp.Eval, FoldImmediate, FoldDup;
    var n := |out|;
    if n >= 2 && out[n - 2].Lit? && out[n - 1].Lit? {
      NormalPrefix(out, n - 2);
      NormalPlain(out[..n - 2], Lit(op.Eval(out[n - 2].n, out[n - 1].n)));
    } else if n >= 2 && out[n - 2] == Stk(Dup) && out[n - 1].ImmShift? && op != Mul {
      NormalPrefix(out, n - 2);
      NormalPlain(out[..n - 2], DupShiftAlu(op, out[n - 1].sh, out[n - 1].count));
    } else if n >= 1 && out[n - 1].Lit? {
      NormalPrefix(out, n - 1);
      NormalFold(out[..n - 1], op, out[n - 1].n);
    } else if n >= 1 && out[n - 1] == Stk(Dup) {
      NormalPrefix(out, n - 1);
      NormalDup(out[..n - 1], op);
    } else {
      NormalMore(out, Alu(op));
    }
  }

  lemma NormalPush(out: seq<Tok>, t: Tok)
    requires IsNormal(out) && !t.ImmAlu?
    ensures IsNormal(Push(out, t))
  {
    hide IsNormal, PushAlu, ShiftOp.Eval;
    var n := |out|;
    if n >= 1 {
      NormalPrefix(out, n - 1);
    }
    match t {
      case Alu(op) => NormalAlu(out, op);
      case Shift(sh) =>
        if n >= 2 && out[n - 2].Lit? && out[n - 1].Lit? {
          NormalPrefix(out, n - 2);
          NormalPlain(out[..n - 2], Lit(sh.Eval(out[n - 2].n, out[n - 1].n)));
        } else if n >= 1 && out[n - 1].Lit? {
          var k := out[n - 1].n & 63;
          if k != 0 {
            NormalPlain(out[..n - 1], ImmShift(sh, k));
          }
        } else {
          NormalMore(out, t);
        }
      case Stk(s) =>
        if PushStk(out, s) == out + [t] {
          NormalMore(out, t);
        }
      case Cmp(c) =>
        if c == ZEq && n >= 1 && out[n - 1].Cmp? && out[n - 1].c.Negate().Some? {
          NormalPlain(out[..n - 1], Cmp(out[n - 1].c.Negate().value));
        } else {
          NormalPlain(out, t);
        }
      case _ => NormalPlain(out, t);
    }
  }

  /** The pass leaves nothing of this kind in what the source tokens of a run reduce to;
      immediates are no source tokens, the pass itself makes them. */
  lemma {:induction false} ReducedIsNormal(toks: seq<Tok>)
    requires forall i | 0 <= i < |toks| :: !toks[i].ImmAlu?
    ensures IsNormal(Reduced(toks))
    decreases |toks|
  {
    hide Push, Rewritable, Fusible;
    if toks != [] {
      ReducedIsNormal(toks[..|toks| - 1]);
      NormalPush(Reduced(toks[..|toks| - 1]), toks[|toks| - 1]);
    }
  }

  /** The token at `i` would be kept as it is; the two tokens that rewriting itself can
      leave behind are excepted. */
  predicate KeptAt(out: seq<Tok>, i: nat)
    requires i < |out|
  {
    out[i] == Stk(Drop) || out[i] == Cmp(ZEq) || Push(out[..i], out[i]) == out[..i + 1]
  }

  predicate AllKept(out: seq<Tok>) {
    forall i | 0 <= i < |out| :: KeptAt(out, i)
  }

  lemma KeptPrefix(out: seq<Tok>, n: nat)
    requires n <= |out| && AllKept(out)
    ensures AllKept(out[..n])
  {
    hide Push;
    forall i | 0 <= i < n ensures KeptAt(out[..n], i) {
      assert KeptAt(out, i);
      assert out[..n][..i] == out[..i] && out[..n][..i + 1] == out[..i + 1];
    }
  }

  lemma KeptMore(out: seq<Tok>, t: Tok)
    requires AllKept(out)
    requires t == Stk(Drop) || t == Cmp(ZEq) || Push(out, t) == out + [t]
    ensures AllKept(out + [t])
  {
    hide Push;
    var more := out + [t];
    forall i | 0 <= i < |more| ensures KeptAt(more, i) {
      if i < |out| {
        assert KeptAt(out, i);
        assert more[..i] == out[..i] && more[..i + 1] == out[..i + 1];
      } else {
        assert more[..i] == out && more[..i + 1] == more;
      }
    }
  }

  /** Tokens that the pass never looks at when they arrive. */
  lemma PlainKept(out: seq<Tok>, t: Tok)
    requires AllKept(out)
    requires !t.Alu? && !t.Shift? && (t.Stk? ==> t.s == Drop) && (t.Cmp? ==> t.c == ZEq)
    ensures AllKept(out + [t])
  {
    hide AllKept;
    KeptMore(out, t);
  }

  lemma FoldKept(out: seq<Tok>, op: AluOp, k: Cell)
    requires AllKept(out)
    ensures AllKept(FoldImmediate(out, op, k))
  {
    hide AllKept, IsIdentity, IsAbsorbing, Chain;
    var n := |out|;
    PlainKept(out, Stk(Drop));
    PlainKept(out + [Stk(Drop)], Lit(k));
    assert out + [Stk(Drop)] + [Lit(k)] == out + [Stk(Drop), Lit(k)];
    PlainKept(out, ImmAlu(op, k));
    if n >= 1 && out[n - 1].ImmAlu? {
      KeptPrefix(out, n - 1);
      PlainKept(out[..n - 1], ImmAlu(op, Chain(op, out[n - 1].k, k)));
    }
  }

  lemma DupKept(out: seq<Tok>, op: AluOp)
    requires AllKept(out)
    ensures AllKept(FoldDup(out, op))
  {
    hide AllKept;
    var n := |out|;
    PlainKept(out, Stk(Drop));
    PlainKept(out + [Stk(Drop)], Lit(0));
    PlainKept(out, DupAlu(op));
    if n >= 1 {
      KeptPrefix(out, n - 1);
      PlainKept(out[..n - 1], Lit(0));
    }
  }

  lemma AluKept(out: seq<Tok>, op: AluOp)
    requires AllKept(out)
    ensures AllKept(PushAlu(out, op))
  {
    hide AllKept, AluOp.Eval, FoldImmediate, FoldDup;
    var n := |out|;
    if n >= 2 && out[n - 2].Lit? && out[n - 1].Lit? {
      KeptPrefix(out, n - 2);
      PlainKept(out[..n - 2], Lit(op.Eval(out[n - 2].n, out[n - 1].n)));
    } else if n >= 2 && out[n - 2] == Stk(Dup) && out[n - 1].ImmShift? && op != Mul {
      KeptPrefix(out, n - 2);
      PlainKept(out[..n - 2], DupShiftAlu(op, out[n - 1].sh, out[n - 1].count));
    } else if n >= 1 && out[n - 1].Lit? {
      KeptPrefix(out, n - 1);
      FoldKept(out[..n - 1], op, out[n - 1].n);
    } else if n >= 1 && out[n - 1] == Stk(Dup) {
      KeptPrefix(out, n - 1);
      DupKept(out[..n - 1], op);
    } else {
      KeptMore(out, Alu(op));
    }
  }

  lemma ShiftKept(out: seq<Tok>, sh: ShiftOp)
    requires AllKept(out)
    ensures AllKept(PushShift(out, sh))
  {
    hide AllKept, ShiftOp.Eval;
    var n := |out|;
    if n >= 2 && out[n - 2].Lit? && out[n - 1].Lit? {
      KeptPrefix(out, n - 2);
      PlainKept(out[..n - 2], Lit(sh.Eval(out[n - 2].n, out[n - 1].n)));
    } else if n >= 1 && out[n - 1].Lit? {
      var k := out[n - 1].n & 63;
      KeptPrefix(out, n - 1);
      if k != 0 {
        PlainKept(out[..n - 1], ImmShift(sh, k));
      }
    } else {
      KeptMore(out, Shift(sh));
    }
  }

  lemma MotionKept(out: seq<Tok>, s: StackOp)
    requires AllKept(out)
    ensures AllKept(PushStk(out, s))
  {
    hide AllKept;
    var n := |out|;
    if n >= 1 {
      KeptPrefix(out, n - 1);
    }
    if PushStk(out, s) == out + [Stk(s)] {
      KeptMore(out, Stk(s));
    }
  }

  lemma CompareKept(out: seq<Tok>, c: CmpOp)
    requires AllKept(out)
    ensures AllKept(PushCmp(out, c))
  {
    hide AllKept;
    var n := |out|;
    if c == ZEq && n >= 1 && out[n - 1].Cmp? && out[n - 1].c.Negate().Some? {
      var neg := out[n - 1].c.Negate().value;
      KeptPrefix(out, n - 1);
      KeptMore(out[..n - 1], Cmp(neg));
    } else {
      KeptMore(out, Cmp(c));
    }
  }

  lemma PushKept(out: seq<Tok>, t: Tok)
    requires AllKept(out)
    ensures AllKept(Push(out, t))
  {
    hide AllKept, PushAlu, PushShift, PushStk, PushCmp;
    match t
    case Alu(op) => AluKept(out, op);
    case Shift(sh) => ShiftKept(out, sh);
    case Stk(s) => MotionKept(out, s);
    case Cmp(c) => CompareKept(out, c);
    case _ => PlainKept(out, t);
  }

  lemma NothingKept()
    ensures AllKept([])
  {
  }

  lemma {:induction false} ReducedKept(toks: seq<Tok>)
    ensures AllKept(Reduced(toks))
    decreases |toks|
  {
    hide Push, AllKept;
    if toks == [] {
      NothingKept();
    } else {
      ReducedKept(toks[..|toks| - 1]);
      PushKept(Reduced(toks[..|toks| - 1]), toks[|toks| - 1]);
    }
  }

  lemma {:induction false} StableWithout(out: seq<Tok>, n: nat)
    requires AllKept(out) && !HasRedex(out) && n <= |out|
    ensures Reduced(out[..n]) == out[..n]
  {
    hide Push;
    if n > 0 {
      StableWithout(out, n - 1);
      assert out[..n][..n - 1] == out[..n - 1];
      assert KeptAt(out, n - 1);
      assert n - 1 > 0 ==> !Redex(out[n - 2], out[n - 1]);
      LeftAlone(out[..n - 1], out[n - 1]);
      assert out[..n - 1] + [out[n - 1]] == out[..n];
    }
  }

  lemma LeftAlone(out: seq<Tok>, t: Tok)
    requires t == Stk(Drop) || t == Cmp(ZEq) || Push(out, t) == out + [t]
    requires out != [] ==> !Redex(out[|out| - 1], t)
    ensures Push(out, t) == out + [t]
  {
    hide PushAlu, PushShift;
  }

  lemma {:induction false} ReducedGrows(toks: seq<Tok>, n: nat)
    requires n <= |toks|
    ensures |Reduced(toks)| <= |Reduced(toks[..n])| + |toks| - n
    decreases |toks|
  {
    hide Push;
    if n == |toks| {
      assert toks[..n] == toks;
    } else {
      var pre := toks[..|toks| - 1];
      ReducedGrows(pre, n);
      assert pre[..n] == toks[..n];
      PushShrinks(Reduced(pre), toks[|toks| - 1]);
    }
  }

  lemma RedexShortens(out: seq<Tok>, a: Tok, b: Tok)
    requires Redex(a, b)
    ensures |Push(Push(out, a), b)| <= |out| + 1
  {
    hide Push;
    RedexKept(out, a, b);
    if b.Stk? {
      DropShortens(Push(out, a));
    } else {
      TestShortens(Push(out, a));
    }
  }

  lemma RedexKept(out: seq<Tok>, a: Tok, b: Tok)
    requires Redex(a, b)
    ensures |Push(out, a)| <= |out| + 1 && Push(out, a) != []
    ensures b == Stk(Drop) ==> Push(out, a)[|Push(out, a)| - 1] == a
    ensures b.Cmp? ==> |Push(out, a)| <= |out| || Push(out, a)[|Push(out, a)| - 1] == a
  {
    hide PushAlu, PushShift;
  }

  lemma DropShortens(out: seq<Tok>)
    requires out != [] && (out[|out| - 1].Lit? || out[|out| - 1] == Stk(Dup))
    ensures |Push(out, Stk(Drop))| == |out| - 1
  {
  }

  lemma TestShortens(out: seq<Tok>)
    ensures |Push(out, Cmp(ZEq))| <= |out| + 1
    ensures out != [] && out[|out| - 1].Cmp? && out[|out| - 1].c.Negate().Some? ==> |Push(out, Cmp(ZEq))| == |out|
  {
  }

  lemma ShorterWith(out: seq<Tok>, i: nat)
    requires 0 < i < |out| && Redex(out[i - 1], out[i])
    ensures |Reduced(out)| < |out|
  {
    hide Push, Redex;
    assert out[..i + 1][..i] == out[..i] && out[..i][..i - 1] == out[..i - 1];
    ReducedShrinks(out[..i - 1]);
    RedexShortens(Reduced(out[..i - 1]), out[i - 1], out[i]);
    ReducedGrows(out, i + 1);
  }

  /** Reducing a reduced run again changes nothing exactly when no two of its neighbours
      are a redex; otherwise it shortens it. */
  lemma StableExactly(toks: seq<Tok>)
    ensures var out := Reduced(toks);
            (Reduced(out) == out <==> !HasRedex(out)) && (HasRedex(out) ==> |Reduced(out)| < |out|)
  {
    hide Reduced, Redex;
    var out := Reduced(toks);
    if HasRedex(out) {
      var i :| 0 < i < |out| && Redex(out[i - 1], out[i]);
      ShorterWith(out, i);
    } else {
      ReducedKept(toks);
      StableWithout(out, |out|);
      assert out[..|out|] == out;
    }
  }
}
