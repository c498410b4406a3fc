/** The peephole pass over a token run (`reduce`): one forward pass that looks back at
    the tokens already kept. */
module Reduce {
  import opened Options
  import opened Cells
  import opened Tokens
  import opened Operators

  // ----- the pass -----

  predicate IsIdentity(op: AluOp, k: Cell) {
    match op
    case Add => k == 0
    case Sub => k == 0
    case Or => k == 0
    case Xor => k == 0
    case Mul => k == 1
    case And => k == ALL_ONES
  }

  predicate IsAbsorbing(op: AluOp, k: Cell) {
    match op
    case Mul => k == 0
    case And => k == 0
    case Or => k == ALL_ONES
    case _ => false
  }

  /** The literals that make an operator vanish are exactly its right identities. */
  lemma IdentityExactly(op: AluOp, k: Cell)
    ensures IsIdentity(op, k) <==> forall x :: op.Eval(x, k) == x
  {
    hide AluOp.Eval, IsIdentity;
    if IsIdentity(op, k) {
      forall x
        ensures op.Eval(x, k) == x
      {
        IdentityIs(op, x, k);
      }
    } else {
      LeftUnits(k);
      IdentityForm(op, k);
      assert op.Eval(if op.Mul? then 1 else if op.And? then ALL_ONES else 0, k)
          != if op.Mul? then 1 else if op.And? then ALL_ONES else 0;
    }
  }

  lemma IdentityForm(op: AluOp, k: Cell)
    ensures IsIdentity(op, k) <==> k == if op.Mul? then 1 else if op.And? then ALL_ONES else 0
  {
  }

  lemma LeftUnits(k: Cell)
    ensures Add.Eval(0, k) == k && Or.Eval(0, k) == k && Xor.Eval(0, k) == k && (Sub.Eval(0, k) == 0 <==> k == 0)
    ensures Mul.Eval(1, k) == k && And.Eval(ALL_ONES, k) == k
  {
  }

  /** And the ones that make it drop its operand are exactly those that absorb it. */
  lemma AbsorbingExactly(op: AluOp, k: Cell)
    ensures IsAbsorbing(op, k) <==> forall x :: op.Eval(x, k) == k
  {
    hide AluOp.Eval, IsAbsorbing;
    if IsAbsorbing(op, k) {
      forall x
        ensures op.Eval(x, k) == k
      {
        AbsorbingIs(op, x, k);
      }
    } else {
      AbsorbingFails(op, k);
    }
  }

  lemma AbsorbingFails(op: AluOp, k: Cell)
    requires !IsAbsorbing(op, k)
    ensures op.Eval(0, k) != k || op.Eval(1, k) != k || op.Eval(ALL_ONES, k) != k
  {
  }

  /** `(x op k1) op k2 == x op Chain(op, k1, k2)`. */
  function Chain(op: AluOp, k1: Cell, k2: Cell): Cell {
    if op == Sub then k1 + k2 else op.Eval(k1, k2)
  }

  /** The kept tokens after `Lit(k) Alu(op)`, the literal already taken off. */
  function FoldImmediate(out: seq<Tok>, op: AluOp, k: Cell): seq<Tok> {
    var n := |out|;
    if IsIdentity(op, k) then out
    else if IsAbsorbing(op, k) then out + [Stk(Drop), Lit(k)]
    else if n >= 1 && out[n - 1].ImmAlu? && out[n - 1].op == op then
      out[..n - 1] + [ImmAlu(op, Chain(op, out[n - 1].k, k))]
    else out + [ImmAlu(op, k)]
  }

  /** The kept tokens after `Stk(Dup) Alu(op)`, the dup already taken off. */
  function FoldDup(out: seq<Tok>, op: AluOp): seq<Tok> {
    var n := |out|;
    match op
    case And => out
    case Or => out
    case Sub => (if n >= 1 && out[n - 1].Lit? then out[..n - 1] else out + [Stk(Drop)]) + [Lit(0)]
    case Xor => (if n >= 1 && out[n - 1].Lit? then out[..n - 1] else out + [Stk(Drop)]) + [Lit(0)]
    case _ => out + [DupAlu(op)]
  }

  function PushAlu(out: seq<Tok>, op: AluOp): seq<Tok> {
    var n := |out|;
    if n >= 2 && out[n - 2].Lit? && out[n - 1].Lit? then
      out[..n - 2] + [Lit(op.Eval(out[n - 2].n, out[n - 1].n))]
    else if n >= 2 && out[n - 2] == Stk(Dup) && out[n - 1].ImmShift? && op != Mul then
      out[..n - 2] + [DupShiftAlu(op, out[n - 1].sh, out[n - 1].count)]
    else if n >= 1 && out[n - 1].Lit? then
      FoldImmediate(out[..n - 1], op, out[n - 1].n)
    else if n >= 1 && out[n - 1] == Stk(Dup) then
      FoldDup(out[..n - 1], op)
    else out + [Alu(op)]
  }

  function PushShift(out: seq<Tok>, sh: ShiftOp): seq<Tok> {
    var n := |out|;
    if n >= 2 && out[n - 2].Lit? && out[n - 1].Lit? then
      out[..n - 2] + [Lit(sh.Eval(out[n - 2].n, out[n - 1].n))]
    else if n >= 1 && out[n - 1].Lit? then
      var k := out[n - 1].n & 63;
      if k == 0 then out[..n - 1] else out[..n - 1] + [ImmShift(sh, k)]
    else out + [Shift(sh)]
  }

  predicate Cancels(last: StackOp, s: StackOp) {
    (last == Swap && s == Swap) || (last == Rot && s == MinusRot) || (last == MinusRot && s == Rot)
  }

  function PushStk(out: seq<Tok>, s: StackOp): seq<Tok> {
    var n := |out|;
    if s == Drop then
      if n >= 1 && (out[n - 1].Lit? || out[n - 1] == Stk(Dup)) then out[..n - 1] else out + [Stk(s)]
    else if n >= 1 && out[n - 1].Stk? && Cancels(out[n - 1].s, s) then out[..n - 1]
    else out + [Stk(s)]
  }

  function PushCmp(out: seq<Tok>, c: CmpOp): seq<Tok> {
    var n := |out|;
    if c == ZEq && n >= 1 && out[n - 1].Cmp? && out[n - 1].c.Negate().Some? then
      out[..n - 1] + [Cmp(out[n - 1].c.Negate().value)]
    else out + [Cmp(c)]
  }

  /** The kept tokens after one more input token. */
  function Push(out: seq<Tok>, t: Tok): seq<Tok> {
    match t
    case Alu(op) => PushAlu(out, op)
    case Shift(sh) => PushShift(out, sh)
    case Stk(s) => PushStk(out, s)
    case Cmp(c) => PushCmp(out, c)
    case _ => out + [t]
  }

  function Reduced(toks: seq<Tok>): seq<Tok>
    decreases |toks|
  {
    if toks == [] then [] else Push(Reduced(toks[..|toks| - 1]), toks[|toks| - 1])
  }

  /** The pass as a loop over the run. */
  method ReduceRun(toks: seq<Tok>) returns (out: seq<Tok>)
    ensures out == Reduced(toks)
  {
    out := [];
    for i := 0 to |toks|
      invariant out == Reduced(toks[..i])
    {
      assert toks[..i + 1][..i] == toks[..i];
      out := Push(out, toks[i]);
    }
    assert toks[..|toks|] == toks;
  }

  // ----- refinement of runs -----

  /** Wherever `a` does not underflow, `b` does exactly the same. */
  ghost predicate Refines(words: Words, a: seq<Tok>, b: seq<Tok>) {
    forall st | Run(words, a, st).Some? :: Run(words, b, st) == Run(words, a, st)
  }

  lemma RefinesInContext(words: Words, pre: seq<Tok>, a: seq<Tok>, b: seq<Tok>)
    requires Refines(words, a, b)
    ensures Refines(words, pre + a, pre + b)
  {
    hide Step;
    forall st | Run(words, pre + a, st).Some?
      ensures Run(words, pre + b, st) == Run(words, pre + a, st)
    {
      RunAppend(words, pre, a, st);
      RunAppend(words, pre, b, st);
    }
  }

  lemma RefinesThen(words: Words, a: seq<Tok>, b: seq<Tok>, t: Tok)
    requires Refines(words, a, b)
    ensures Refines(words, a + [t], b + [t])
  {
    forall st | Run(words, a + [t], st).Some?
      ensures Run(words, b + [t], st) == Run(words, a + [t], st)
    {
      RunAppend(words, a, [t], st);
      RunAppend(words, b, [t], st);
    }
  }

  lemma Run0(words: Words, st: Forth)
    ensures Run(words, [], st) == Some(st)
  {
  }

  lemma Run1(words: Words, a: Tok, st: Forth)
    ensures Run(words, [a], st) == Step(words, a, st)
  {
    var r := Step(words, a, st);
    if r.Some? {
      assert [a][1..] == [];
      Run0(words, r.value);
    }
  }

  lemma Run2(words: Words, a: Tok, b: Tok, st: Forth)
    ensures Run(words, [a, b], st)
         == (var r := Step(words, a, st); if r.None? then None else Step(words, b, r.value))
  {
    var r := Step(words, a, st);
    if r.Some? {
      assert [a, b][1..] == [b];
      Run1(words, b, r.value);
    }
  }

  lemma Run3(words: Words, a: Tok, b: Tok, c: Tok, st: Forth)
    ensures Run(words, [a, b, c], st)
         == (var r := Run(words, [a, b], st); if r.None? then None else Step(words, c, r.value))
  {
    hide Step;
    assert [a, b, c] == [a, b] + [c];
    RunAppend(words, [a, b], [c], st);
    var r := Run(words, [a, b], st);
    if r.Some? {
      Run1(words, c, r.value);
    }
  }

  // ----- each rewrite, on every state -----

  lemma LitLitAlu(words: Words, a: Cell, b: Cell, op: AluOp)
    ensures Refines(words, [Lit(a), Lit(b), Alu(op)], [Lit(op.Eval(a, b))])
    ensures AluGives(op, a, b, op.Eval(a, b))
  {
    hide Run, AluOp.Eval, ShiftOp.Eval, FetchCell, StoreCell, AluGives;
    AluIs(op, a, b);
    forall st | Run(words, [Lit(a), Lit(b), Alu(op)], st).Some?
      ensures Run(words, [Lit(op.Eval(a, b))], st) == Run(words, [Lit(a), Lit(b), Alu(op)], st)
    {
      Run3(words, Lit(a), Lit(b), Alu(op), st);
      Run2(words, Lit(a), Lit(b), st);
      Run1(words, Lit(op.Eval(a, b)), st);
      var s := st.stack + [a] + [b];
      assert Pop(s, 2) == st.stack;
    }
  }

  lemma LitLitShift(words: Words, a: Cell, b: Cell, sh: ShiftOp)
    ensures Refines(words, [Lit(a), Lit(b), Shift(sh)], [Lit(sh.Eval(a, b))])
    ensures ShiftGives(sh, a, b, sh.Eval(a, b))
  {
    hide Run, AluOp.Eval, ShiftOp.Eval, FetchCell, StoreCell, ShiftGives;
    ShiftIs(sh, a, b);
    forall st | Run(words, [Lit(a), Lit(b), Shift(sh)], st).Some?
      ensures Run(words, [Lit(sh.Eval(a, b))], st) == Run(words, [Lit(a), Lit(b), Shift(sh)], st)
    {
      Run3(words, Lit(a), Lit(b), Shift(sh), st);
      Run2(words, Lit(a), Lit(b), st);
      Run1(words, Lit(sh.Eval(a, b)), st);
      var s := st.stack + [a] + [b];
      assert Pop(s, 2) == st.stack;
    }
  }

  lemma DupShiftFuses(words: Words, op: AluOp, sh: ShiftOp, k: ShiftCount)
    ensures Refines(words, [Stk(Dup), ImmShift(sh, k), Alu(op)], [DupShiftAlu(op, sh, k)])
  {
    hide Run, AluOp.Eval, ShiftOp.Eval, FetchCell, StoreCell;
    forall st | Run(words, [Stk(Dup), ImmShift(sh, k), Alu(op)], st).Some?
      ensures Run(words, [DupShiftAlu(op, sh, k)], st)
           == Run(words, [Stk(Dup), ImmShift(sh, k), Alu(op)], st)
    {
      Run3(words, Stk(Dup), ImmShift(sh, k), Alu(op), st);
      Run2(words, Stk(Dup), ImmShift(sh, k), st);
      Run1(words, DupShiftAlu(op, sh, k), st);
      var x := Item(st.stack, 0);
      var s1 := st.stack + [x];
      var s2 := Pop(s1, 1) + [sh.Eval(x, k)];
      Unpushed(st.stack, x, sh.Eval(x, k));
    }
  }

  lemma Unpushed(s: seq<Cell>, x: Cell, y: Cell)
    requires |s| >= 1
    ensures Pop(s + [x], 1) == s && Pop(s + [y], 2) == Pop(s, 1)
  {
  }

  lemma LitAluIsImmediate(words: Words, op: AluOp, k: Cell, st: Forth)
    requires Run(words, [Lit(k), Alu(op)], st).Some?
    ensures |st.stack| >= 2
    ensures Run(words, [Lit(k), Alu(op)], st)
         == Some(st.(stack := Pop(st.stack, 1) + [op.Eval(Item(st.stack, 0), k)]))
  {
    hide Run, AluOp.Eval, ShiftOp.Eval, FetchCell, StoreCell;
    Run2(words, Lit(k), Alu(op), st);
    var s := st.stack + [k];
    assert Pop(s, 2) == Pop(st.stack, 1);
  }

  lemma IdentityVanishes(words: Words, op: AluOp, k: Cell)
    requires IsIdentity(op, k)
    ensures Refines(words, [Lit(k), Alu(op)], [])
  {
    hide Run, AluOp.Eval, IsIdentity;
    forall st | Run(words, [Lit(k), Alu(op)], st).Some?
      ensures Run(words, [], st) == Run(words, [Lit(k), Alu(op)], st)
    {
      Run0(words, st);
      LitAluIsImmediate(words, op, k, st);
      IdentityIs(op, Item(st.stack, 0), k);
      assert st.stack == Pop(st.stack, 1) + [Item(st.stack, 0)];
    }
  }

  lemma IdentityIs(op: AluOp, x: Cell, k: Cell)
    requires IsIdentity(op, k)
    ensures op.Eval(x, k) == x
  {
    hide AluOp.Eval;
    Identities(x);
  }

  lemma Identities(x: Cell)
    ensures Add.Eval(x, 0) == x && Sub.Eval(x, 0) == x && Or.Eval(x, 0) == x && Xor.Eval(x, 0) == x
    ensures Mul.Eval(x, 1) == x && And.Eval(x, ALL_ONES) == x
  {
  }

  lemma AbsorbingIs(op: AluOp, x: Cell, k: Cell)
    requires IsAbsorbing(op, k)
    ensures op.Eval(x, k) == k
  {
  }

  lemma AbsorbingDrops(words: Words, op: AluOp, k: Cell)
    requires IsAbsorbing(op, k)
    ensures Refines(words, [Lit(k), Alu(op)], [Stk(Drop), Lit(k)])
  {
    hide Run, AluOp.Eval, ShiftOp.Eval, FetchCell, StoreCell;
    forall st | Run(words, [Lit(k), Alu(op)], st).Some?
      ensures Run(words, [Stk(Drop), Lit(k)], st) == Run(words, [Lit(k), Alu(op)], st)
    {
      LitAluIsImmediate(words, op, k, st);
      Run2(words, Stk(Drop), Lit(k), st);
      AbsorbingIs(op, Item(st.stack, 0), k);
    }
  }

  lemma LitAluFolds(words: Words, op: AluOp, k: Cell)
    ensures Refines(words, [Lit(k), Alu(op)], [ImmAlu(op, k)])
  {
    hide Run, AluOp.Eval, ShiftOp.Eval, FetchCell, StoreCell;
    forall st | Run(words, [Lit(k), Alu(op)], st).Some?
      ensures Run(words, [ImmAlu(op, k)], st) == Run(words, [Lit(k), Alu(op)], st)
    {
      LitAluIsImmediate(words, op, k, st);
      Run1(words, ImmAlu(op, k), st);
    }
  }

  lemma ChainIsTwoSteps(op: AluOp, x: Cell, k1: Cell, k2: Cell)
    ensures op.Eval(op.Eval(x, k1), k2) == op.Eval(x, Chain(op, k1, k2))
  {
    if op == Mul {
      hide Times;
      TimesAssoc(x, k1, k2);
    } else if op == Add {
      hide AluOp.Eval;
      AddChain(x, k1, k2);
    } else if op == Sub {
      hide AluOp.Eval;
      SubChain(x, k1, k2);
    } else {
      hide AluOp.Eval;
      BitwiseAssoc(op, x, k1, k2);
    }
  }

  lemma AddIs(x: Cell, y: Cell)
    ensures Add.Eval(x, y) == x + y
  {
  }

  lemma SumsAssoc(x: Cell, y: Cell, z: Cell)
    ensures Add.Eval(x + y, z) == Add.Eval(x, y + z)
  {
  }

  lemma AddChain(x: Cell, k1: Cell, k2: Cell)
    ensures Add.Eval(Add.Eval(x, k1), k2) == Add.Eval(x, Chain(Add, k1, k2))
  {
    hide AluOp.Eval;
    AddIs(x, k1);
    AddIs(k1, k2);
    SumsAssoc(x, k1, k2);
  }

  lemma SubIs(x: Cell, y: Cell)
    ensures Sub.Eval(x, y) == x - y
  {
  }

  lemma DifferencesAssoc(x: Cell, y: Cell, z: Cell)
    ensures Sub.Eval(x - y, z) == Sub.Eval(x, y + z)
  {
  }

  lemma SubChain(x: Cell, k1: Cell, k2: Cell)
    ensures Sub.Eval(Sub.Eval(x, k1), k2) == Sub.Eval(x, Chain(Sub, k1, k2))
  {
    hide AluOp.Eval;
    SubIs(x, k1);
    DifferencesAssoc(x, k1, k2);
  }

  lemma AndIs(x: Cell, y: Cell)
    ensures And.Eval(x, y) == x & y
  {
  }

  lemma AndsAssoc(x: Cell, y: Cell, z: Cell)
    ensures And.Eval(x & y, z) == And.Eval(x, y & z)
  {
  }

  lemma AndAssoc(x: Cell, y: Cell, z: Cell)
    ensures And.Eval(And.Eval(x, y), z) == And.Eval(x, And.Eval(y, z))
  {
    hide AluOp.Eval;
    AndIs(x, y);
    AndIs(y, z);
    AndsAssoc(x, y, z);
  }

  lemma OrIs(x: Cell, y: Cell)
    ensures Or.Eval(x, y) == x | y
  {
  }

  lemma OrsAssoc(x: Cell, y: Cell, z: Cell)
    ensures Or.Eval(x | y, z) == Or.Eval(x, y | z)
  {
  }

  lemma OrAssoc(x: Cell, y: Cell, z: Cell)
    ensures Or.Eval(Or.Eval(x, y), z) == Or.Eval(x, Or.Eval(y, z))
  {
    hide AluOp.Eval;
    OrIs(x, y);
    OrIs(y, z);
    OrsAssoc(x, y, z);
  }

  lemma XorIs(x: Cell, y: Cell)
    ensures Xor.Eval(x, y) == x ^ y
  {
  }

  lemma XorsAssoc(x: Cell, y: Cell, z: Cell)
    ensures Xor.Eval(x ^ y, z) == Xor.Eval(x, y ^ z)
  {
  }

  lemma XorAssoc(x: Cell, y: Cell, z: Cell)
    ensures Xor.Eval(Xor.Eval(x, y), z) == Xor.Eval(x, Xor.Eval(y, z))
  {
    hide AluOp.Eval;
    XorIs(x, y);
    XorIs(y, z);
    XorsAssoc(x, y, z);
  }

  lemma BitwiseAssoc(op: AluOp, x: Cell, k1: Cell, k2: Cell)
    requires op == And || op == Or || op == Xor
    ensures op.Eval(op.Eval(x, k1), k2) == op.Eval(x, op.Eval(k1, k2))
  {
    hide AluOp.Eval;
    AndAssoc(x, k1, k2);
    OrAssoc(x, k1, k2);
    XorAssoc(x, k1, k2);
  }

  lemma ImmediatesChain(words: Words, op: AluOp, k1: Cell, k2: Cell)
    ensures Refines(words, [ImmAlu(op, k1), Lit(k2), Alu(op)], [ImmAlu(op, Chain(op, k1, k2))])
  {
    hide Run, AluOp.Eval, ShiftOp.Eval, FetchCell, StoreCell;
    var k := Chain(op, k1, k2);
    forall st | Run(words, [ImmAlu(op, k1), Lit(k2), Alu(op)], st).Some?
      ensures Run(words, [ImmAlu(op, k)], st)
           == Run(words, [ImmAlu(op, k1), Lit(k2), Alu(op)], st)
    {
      Run3(words, ImmAlu(op, k1), Lit(k2), Alu(op), st);
      Run2(words, ImmAlu(op, k1), Lit(k2), st);
      Run1(words, ImmAlu(op, k), st);
      var x := Item(st.stack, 0);
      var s1 := Pop(st.stack, 1) + [op.Eval(x, k1)];
      var s2 := s1 + [k2];
      assert Pop(s2, 2) == Pop(st.stack, 1);
      assert Item(s2, 1) == op.Eval(x, k1) && Item(s2, 0) == k2;
      ChainIsTwoSteps(op, x, k1, k2);
    }
  }

  /** `dup op` on the value `x`. */
  lemma DupAluIs(words: Words, op: AluOp, st: Forth)
    requires Run(words, [Stk(Dup), Alu(op)], st).Some?
    ensures |st.stack| >= 2
    ensures Run(words, [Stk(Dup), Alu(op)], st)
         == Some(st.(stack := Pop(st.stack, 1) + [op.Eval(Item(st.stack, 0), Item(st.stack, 0))]))
  {
    hide Run, AluOp.Eval, ShiftOp.Eval, FetchCell, StoreCell;
    Run2(words, Stk(Dup), Alu(op), st);
    var s := st.stack + [Item(st.stack, 0)];
    assert Pop(s, 2) == Pop(st.stack, 1);
  }

  lemma DupAluFuses(words: Words, op: AluOp)
    ensures Refines(words, [Stk(Dup), Alu(op)], [DupAlu(op)])
  {
    hide Run, AluOp.Eval, ShiftOp.Eval, FetchCell, StoreCell;
    forall st | Run(words, [Stk(Dup), Alu(op)], st).Some?
      ensures Run(words, [DupAlu(op)], st) == Run(words, [Stk(Dup), Alu(op)], st)
    {
      DupAluIs(words, op, st);
      Run1(words, DupAlu(op), st);
    }
  }

  lemma DupIdempotent(words: Words, op: AluOp)
    requires op == And || op == Or
    ensures Refines(words, [Stk(Dup), Alu(op)], [])
  {
    hide Run, ShiftOp.Eval, FetchCell, StoreCell, Step;
    forall st | Run(words, [Stk(Dup), Alu(op)], st).Some?
      ensures Run(words, [], st) == Run(words, [Stk(Dup), Alu(op)], st)
    {
      Run0(words, st);
      DupAluIs(words, op, st);
      var x := Item(st.stack, 0);
      assert op.Eval(x, x) == x;
      assert st.stack == Pop(st.stack, 1) + [x];
    }
  }

  lemma DupCancels(words: Words, op: AluOp)
    requires op == Sub || op == Xor
    ensures Refines(words, [Stk(Dup), Alu(op)], [Stk(Drop), Lit(0)])
  {
    hide Run, AluOp.Eval, ShiftOp.Eval, FetchCell, StoreCell;
    forall st | Run(words, [Stk(Dup), Alu(op)], st).Some?
      ensures Run(words, [Stk(Drop), Lit(0)], st) == Run(words, [Stk(Dup), Alu(op)], st)
    {
      DupAluIs(words, op, st);
      SelfCancels(op, Item(st.stack, 0));
      Run2(words, Stk(Drop), Lit(0), st);
    }
  }

  lemma SelfCancels(op: AluOp, x: Cell)
    requires op == Sub || op == Xor
    ensures op.Eval(x, x) == 0
  {
  }

  lemma LitDrop(words: Words, a: Cell)
    ensures Refines(words, [Lit(a), Stk(Drop)], [])
  {
    hide Run, AluOp.Eval, ShiftOp.Eval, FetchCell, StoreCell;
    forall st | Run(words, [Lit(a), Stk(Drop)], st).Some?
      ensures Run(words, [], st) == Run(words, [Lit(a), Stk(Drop)], st)
    {
      Run0(words, st);
      Run2(words, Lit(a), Stk(Drop), st);
      assert Pop(st.stack + [a], 1) == st.stack;
    }
  }

  lemma DupDrop(words: Words)
    ensures Refines(words, [Stk(Dup), Stk(Drop)], [])
  {
    hide Run, AluOp.Eval, ShiftOp.Eval, FetchCell, StoreCell;
    forall st | Run(words, [Stk(Dup), Stk(Drop)], st).Some?
      ensures Run(words, [], st) == Run(words, [Stk(Dup), Stk(Drop)], st)
    {
      Run0(words, st);
      Run2(words, Stk(Dup), Stk(Drop), st);
      assert Pop(st.stack + [Item(st.stack, 0)], 1) == st.stack;
    }
  }

  lemma LitShiftIs(words: Words, sh: ShiftOp, n: Cell, st: Forth)
    requires Run(words, [Lit(n), Shift(sh)], st).Some?
    ensures |st.stack| >= 2
    ensures Run(words, [Lit(n), Shift(sh)], st)
         == Some(st.(stack := Pop(st.stack, 1) + [sh.Eval(Item(st.stack, 0), n)]))
  {
    hide Run, AluOp.Eval, ShiftOp.Eval, FetchCell, StoreCell;
    Run2(words, Lit(n), Shift(sh), st);
    assert Pop(st.stack + [n], 2) == Pop(st.stack, 1);
  }

  lemma ShiftByZero(words: Words, sh: ShiftOp, n: Cell)
    requires n & 63 == 0
    ensures Refines(words, [Lit(n), Shift(sh)], [])
  {
    hide Run, Step, ShiftOp.Eval;
    forall st | Run(words, [Lit(n), Shift(sh)], st).Some?
      ensures Run(words, [], st) == Run(words, [Lit(n), Shift(sh)], st)
    {
      Run0(words, st);
      LitShiftIs(words, sh, n, st);
      CountIsMasked(sh, Item(st.stack, 0), n);
      assert st.stack == Pop(st.stack, 1) + [Item(st.stack, 0)];
    }
  }

  lemma LitShiftFolds(words: Words, sh: ShiftOp, n: Cell, k: ShiftCount)
    requires n & 63 == k
    ensures Refines(words, [Lit(n), Shift(sh)], [ImmShift(sh, k)])
  {
    hide Run, AluOp.Eval, ShiftOp.Eval, FetchCell, StoreCell;
    forall st | Run(words, [Lit(n), Shift(sh)], st).Some?
      ensures Run(words, [ImmShift(sh, k)], st) == Run(words, [Lit(n), Shift(sh)], st)
    {
      Run1(words, ImmShift(sh, k), st);
      LitShiftIs(words, sh, n, st);
      CountIsMasked(sh, Item(st.stack, 0), n);
    }
  }

  lemma InversesCancel(words: Words, a: StackOp, b: StackOp)
    requires Cancels(a, b)
    ensures Refines(words, [Stk(a), Stk(b)], [])
  {
    hide Run, Step, RunStackOp;
    forall st | Run(words, [Stk(a), Stk(b)], st).Some?
      ensures Run(words, [], st) == Run(words, [Stk(a), Stk(b)], st)
    {
      Run0(words, st);
      Run2(words, Stk(a), Stk(b), st);
      StepMotion(words, a, st);
      StepMotion(words, b, Step(words, Stk(a), st).value);
      InverseMotions(a, b, st.stack);
    }
  }

  lemma StepMotion(words: Words, s: StackOp, st: Forth)
    ensures Step(words, Stk(s), st).Some? ==>
              RunStackOp(s, st.stack).Some?
              && Step(words, Stk(s), st) == Some(st.(stack := RunStackOp(s, st.stack).value))
  {
    hide AluOp.Eval, ShiftOp.Eval, FetchCell, StoreCell, RunStackOp;
  }

  lemma InverseMotions(a: StackOp, b: StackOp, s: seq<Cell>)
    requires Cancels(a, b) && RunStackOp(a, s).Some? && RunStackOp(b, RunStackOp(a, s).value).Some?
    ensures RunStackOp(b, RunStackOp(a, s).value).value == s
  {
  }

  lemma NegateIsComplement(c: CmpOp, a: Cell, b: Cell)
    requires c.Negate().Some?
    ensures !c.IsZeroTest() && !c.Negate().value.IsZeroTest()
    ensures c.Negate().value.Holds(a, b) == !c.Holds(a, b)
  {
  }

  /** The comparisons that have a negation are those of two signed operands. */
  lemma NegateExactly(c: CmpOp)
    ensures c.Negate().Some? <==> c == Eq || c == Ne || c == Lt || c == Gt || c == Le || c == Ge
  {
  }

  lemma ZeroTestOfFlag(b: bool)
    ensures ZEq.Holds(Flag(b), 0) == !b
  {
  }

  lemma CompareNegates(words: Words, c: CmpOp)
    requires c.Negate().Some?
    ensures Refines(words, [Cmp(c), Cmp(ZEq)], [Cmp(c.Negate().value)])
  {
    hide Run, AluOp.Eval, ShiftOp.Eval, FetchCell, StoreCell, CmpOp.Holds;
    var d := c.Negate().value;
    forall st | Run(words, [Cmp(c), Cmp(ZEq)], st).Some?
      ensures Run(words, [Cmp(d)], st) == Run(words, [Cmp(c), Cmp(ZEq)], st)
    {
      Run2(words, Cmp(c), Cmp(ZEq), st);
      Run1(words, Cmp(d), st);
      var a, b := Item(st.stack, 1), Item(st.stack, 0);
      var s := Pop(st.stack, 2) + [Flag(c.Holds(a, b))];
      assert Pop(s, 1) == Pop(st.stack, 2);
      NegateIsComplement(c, a, b);
      ZeroTestOfFlag(c.Holds(a, b));
    }
  }

  // ----- one step of the pass, and the whole pass -----

  /** Rewriting the end of a kept run. */
  lemma RewriteTail(words: Words, out: seq<Tok>, pre: seq<Tok>, tail: seq<Tok>, t: Tok, new_: seq<Tok>)
    requires out == pre + tail
    requires Refines(words, tail + [t], new_)
    ensures Refines(words, out + [t], pre + new_)
  {
    hide Run, Refines;
    assert out + [t] == pre + (tail + [t]);
    RefinesInContext(words, pre, tail + [t], new_);
  }

  lemma KeepIsRefinement(words: Words, out: seq<Tok>)
    ensures Refines(words, out, out)
  {
  }

  lemma FoldImmediateRefines(words: Words, out: seq<Tok>, op: AluOp, k: Cell)
    ensures Refines(words, out + [Lit(k)] + [Alu(op)], FoldImmediate(out, op, k))
  {
    hide Run, Refines, AluOp.Eval;
    var n := |out|;
    assert [Lit(k)] + [Alu(op)] == [Lit(k), Alu(op)];
    if IsIdentity(op, k) {
      IdentityVanishes(words, op, k);
      RewriteTail(words, out + [Lit(k)], out, [Lit(k)], Alu(op), []);
      assert out + [] == out;
    } else if IsAbsorbing(op, k) {
      AbsorbingDrops(words, op, k);
      RewriteTail(words, out + [Lit(k)], out, [Lit(k)], Alu(op), [Stk(Drop), Lit(k)]);
    } else if n >= 1 && out[n - 1].ImmAlu? && out[n - 1].op == op {
      var k1 := out[n - 1].k;
      ImmediatesChain(words, op, k1, k);
      assert [ImmAlu(op, k1), Lit(k)] + [Alu(op)] == [ImmAlu(op, k1), Lit(k), Alu(op)];
      assert out + [Lit(k)] == out[..n - 1] + [ImmAlu(op, k1), Lit(k)];
      RewriteTail(words, out + [Lit(k)], out[..n - 1], [ImmAlu(op, k1), Lit(k)], Alu(op),
                  [ImmAlu(op, Chain(op, k1, k))]);
    } else {
      LitAluFolds(words, op, k);
      RewriteTail(words, out + [Lit(k)], out, [Lit(k)], Alu(op), [ImmAlu(op, k)]);
    }
  }

  lemma LitThenDropLit(words: Words, a: Cell)
    ensures Refines(words, [Lit(a), Stk(Drop), Lit(0)], [Lit(0)])
  {
    hide Run, Refines;
    LitDrop(words, a);
    assert [Lit(a), Stk(Drop)] + [Lit(0)] == [Lit(a), Stk(Drop), Lit(0)];
    assert [] + [Lit(0)] == [Lit(0)];
    RefinesThen(words, [Lit(a), Stk(Drop)], [], Lit(0));
  }

  lemma RefinesTransitive(words: Words, a: seq<Tok>, b: seq<Tok>, c: seq<Tok>)
    requires Refines(words, a, b) && Refines(words, b, c)
    ensures Refines(words, a, c)
  {
    hide Run;
  }

  lemma FoldDupRefines(words: Words, out: seq<Tok>, op: AluOp)
    ensures Refines(words, out + [Stk(Dup)] + [Alu(op)], FoldDup(out, op))
  {
    hide Run, Refines, AluOp.Eval;
    var n := |out|;
    assert [Stk(Dup)] + [Alu(op)] == [Stk(Dup), Alu(op)];
    if op == And || op == Or {
      DupIdempotent(words, op);
      RewriteTail(words, out + [Stk(Dup)], out, [Stk(Dup)], Alu(op), []);
      assert out + [] == out;
    } else if op == Sub || op == Xor {
      DupCancels(words, op);
      RewriteTail(words, out + [Stk(Dup)], out, [Stk(Dup)], Alu(op), [Stk(Drop), Lit(0)]);
      if n >= 1 && out[n - 1].Lit? {
        LitThenDropLit(words, out[n - 1].n);
        RefinesInContext(words, out[..n - 1], [out[n - 1], Stk(Drop), Lit(0)], [Lit(0)]);
        assert out[..n - 1] + [out[n - 1], Stk(Drop), Lit(0)] == out + [Stk(Drop), Lit(0)];
        RefinesTransitive(words, out + [Stk(Dup)] + [Alu(op)], out + [Stk(Drop), Lit(0)],
                          out[..n - 1] + [Lit(0)]);
      } else {
        assert out + [Stk(Drop)] + [Lit(0)] == out + [Stk(Drop), Lit(0)];
      }
    } else {
      DupAluFuses(words, op);
      RewriteTail(words, out + [Stk(Dup)], out, [Stk(Dup)], Alu(op), [DupAlu(op)]);
    }
  }

  lemma PushAluRefines(words: Words, out: seq<Tok>, op: AluOp)
    ensures Refines(words, out + [Alu(op)], PushAlu(out, op))
  {
    hide Run, Refines, AluOp.Eval, AluGives;
    var n := |out|;
    if n >= 2 && out[n - 2].Lit? && out[n - 1].Lit? {
      var a, b := out[n - 2].n, out[n - 1].n;
      LitLitAlu(words, a, b, op);
      assert [Lit(a), Lit(b)] + [Alu(op)] == [Lit(a), Lit(b), Alu(op)];
      RewriteTail(words, out, out[..n - 2], [Lit(a), Lit(b)], Alu(op), [Lit(op.Eval(a, b))]);
    } else if n >= 2 && out[n - 2] == Stk(Dup) && out[n - 1].ImmShift? && op != Mul {
      var sh, k := out[n - 1].sh, out[n - 1].count;
      DupShiftFuses(words, op, sh, k);
      assert [Stk(Dup), ImmShift(sh, k)] + [Alu(op)] == [Stk(Dup), ImmShift(sh, k), Alu(op)];
      RewriteTail(words, out, out[..n - 2], [Stk(Dup), ImmShift(sh, k)], Alu(op),
                  [DupShiftAlu(op, sh, k)]);
    } else if n >= 1 && out[n - 1].Lit? {
      assert out == out[..n - 1] + [Lit(out[n - 1].n)];
      FoldImmediateRefines(words, out[..n - 1], op, out[n - 1].n);
    } else if n >= 1 && out[n - 1] == Stk(Dup) {
      assert out == out[..n - 1] + [Stk(Dup)];
      FoldDupRefines(words, out[..n - 1], op);
    } else {
      KeepIsRefinement(words, out + [Alu(op)]);
    }
  }

  /** A literal count before a shift. */
  lemma CountRefines(words: Words, out: seq<Tok>, v: Cell, sh: ShiftOp)
    ensures Refines(words, out + [Lit(v)] + [Shift(sh)],
                    if v & 63 == 0 then out else out + [ImmShift(sh, v & 63)])
  {
    hide Run, Refines, ShiftOp.Eval;
    assert [Lit(v)] + [Shift(sh)] == [Lit(v), Shift(sh)];
    if v & 63 == 0 {
      ShiftByZero(words, sh, v);
      RewriteTail(words, out + [Lit(v)], out, [Lit(v)], Shift(sh), []);
      assert out + [] == out;
    } else {
      LitShiftFolds(words, sh, v, v & 63);
      RewriteTail(words, out + [Lit(v)], out, [Lit(v)], Shift(sh), [ImmShift(sh, v & 63)]);
    }
  }

  lemma PushShiftRefines(words: Words, out: seq<Tok>, sh: ShiftOp)
    ensures Refines(words, out + [Shift(sh)], PushShift(out, sh))
  {
    hide Run, Refines, ShiftOp.Eval, ShiftGives;
    var n := |out|;
    if n >= 2 && out[n - 2].Lit? && out[n - 1].Lit? {
      var a, b := out[n - 2].n, out[n - 1].n;
      LitLitShift(words, a, b, sh);
      assert [Lit(a), Lit(b)] + [Shift(sh)] == [Lit(a), Lit(b), Shift(sh)];
      RewriteTail(words, out, out[..n - 2], [Lit(a), Lit(b)], Shift(sh), [Lit(sh.Eval(a, b))]);
    } else if n >= 1 && out[n - 1].Lit? {
      assert out == out[..n - 1] + [Lit(out[n - 1].n)];
      CountRefines(words, out[..n - 1], out[n - 1].n, sh);
    } else {
      KeepIsRefinement(words, out + [Shift(sh)]);
    }
  }

  lemma PushStkRefines(words: Words, out: seq<Tok>, s: StackOp)
    ensures Refines(words, out + [Stk(s)], PushStk(out, s))
  {
    hide Run, Refines;
    var n := |out|;
    if s == Drop && n >= 1 && out[n - 1].Lit? {
      LitDrop(words, out[n - 1].n);
      assert [out[n - 1]] + [Stk(s)] == [Lit(out[n - 1].n), Stk(Drop)];
      RewriteTail(words, out, out[..n - 1], [out[n - 1]], Stk(s), []);
      assert out[..n - 1] + [] == out[..n - 1];
    } else if s == Drop && n >= 1 && out[n - 1] == Stk(Dup) {
      DupDrop(words);
      assert [out[n - 1]] + [Stk(s)] == [Stk(Dup), Stk(Drop)];
      RewriteTail(words, out, out[..n - 1], [out[n - 1]], Stk(s), []);
      assert out[..n - 1] + [] == out[..n - 1];
    } else if s != Drop && n >= 1 && out[n - 1].Stk? && Cancels(out[n - 1].s, s) {
      InversesCancel(words, out[n - 1].s, s);
      assert [out[n - 1]] + [Stk(s)] == [Stk(out[n - 1].s), Stk(s)];
      RewriteTail(words, out, out[..n - 1], [out[n - 1]], Stk(s), []);
      assert out[..n - 1] + [] == out[..n - 1];
    } else {
      KeepIsRefinement(words, out + [Stk(s)]);
    }
  }

  lemma PushCmpRefines(words: Words, out: seq<Tok>, c: CmpOp)
    ensures Refines(words, out + [Cmp(c)], PushCmp(out, c))
  {
    hide Run, Refines;
    var n := |out|;
    if c == ZEq && n >= 1 && out[n - 1].Cmp? && out[n - 1].c.Negate().Some? {
      var d := out[n - 1].c;
      CompareNegates(words, d);
      assert [Cmp(d)] + [Cmp(c)] == [Cmp(d), Cmp(ZEq)];
      RewriteTail(words, out, out[..n - 1], [Cmp(d)], Cmp(c), [Cmp(d.Negate().value)]);
    } else {
      KeepIsRefinement(words, out + [Cmp(c)]);
    }
  }

  lemma PushRefines(words: Words, out: seq<Tok>, t: Tok)
    ensures Refines(words, out + [t], Push(out, t))
  {
    hide Run, Refines, PushAlu, PushShift, PushStk, PushCmp;
    match t
    case Alu(op) => PushAluRefines(words, out, op);
    case Shift(sh) => PushShiftRefines(words, out, sh);
    case Stk(s) => PushStkRefines(words, out, s);
    case Cmp(c) => PushCmpRefines(words, out, c);
    case _ => KeepIsRefinement(words, out + [t]);
  }

  /** The reduced run does exactly what the run does, on every state on which the run
      does not underflow, whatever the called words do. */
  lemma {:induction false} ReducedRefines(words: Words, toks: seq<Tok>)
    ensures Refines(words, toks, Reduced(toks))
    decreases |toks|
  {
    hide Run, Refines, Push;
    if toks == [] {
      KeepIsRefinement(words, []);
    } else {
      var n := |toks|;
      var pre, t := toks[..n - 1], toks[n - 1];
      ReducedRefines(words, pre);
      RefinesThen(words, pre, Reduced(pre), t);
      PushRefines(words, Reduced(pre), t);
      assert pre + [t] == toks;
      RefinesTransitive(words, toks, Reduced(pre) + [t], Push(Reduced(pre), t));
    }
  }

  /** The statement of `ReducedRefines` for one state. */
  lemma ReducedMeans(words: Words, toks: seq<Tok>, st: Forth)
    requires Run(words, toks, st).Some?
    ensures Run(words, Reduced(toks), st) == Run(words, toks, st)
  {
    hide Run, Reduced;
    ReducedRefines(words, toks);
  }

  lemma ImmediateShrinks(out: seq<Tok>, op: AluOp, k: Cell)
    ensures |FoldImmediate(out, op, k)| <= |out| + 2
    ensures ValidToks(out) ==> ValidToks(FoldImmediate(out, op, k))
  {
    hide Chain, IsIdentity, IsAbsorbing;
  }

  lemma DupShrinks(out: seq<Tok>, op: AluOp)
    ensures |FoldDup(out, op)| <= |out| + 2
    ensures ValidToks(out) ==> ValidToks(FoldDup(out, op))
  {
  }

  lemma AluShrinks(out: seq<Tok>, op: AluOp)
    ensures |PushAlu(out, op)| <= |out| + 1
    ensures ValidToks(out) ==> ValidToks(PushAlu(out, op))
  {
    hide AluOp.Eval, ShiftOp.Eval, FoldImmediate, FoldDup;
    var n := |out|;
    if n >= 1 {
      DupShrinks(out[..n - 1], op);
      if out[n - 1].Lit? {
        ImmediateShrinks(out[..n - 1], op, out[n - 1].n);
      }
    }
  }

  lemma MotionShrinks(out: seq<Tok>, s: StackOp, sh: ShiftOp, c: CmpOp)
    ensures |PushStk(out, s)| <= |out| + 1 && (ValidToks(out) ==> ValidToks(PushStk(out, s)))
    ensures |PushShift(out, sh)| <= |out| + 1 && (ValidToks(out) ==> ValidToks(PushShift(out, sh)))
    ensures |PushCmp(out, c)| <= |out| + 1 && (ValidToks(out) ==> ValidToks(PushCmp(out, c)))
  {
    hide AluOp.Eval, ShiftOp.Eval;
  }

  lemma PushShrinks(out: seq<Tok>, t: Tok)
    ensures |Push(out, t)| <= |out| + 1
    ensures ValidToks(out) && ValidTok(t) ==> ValidToks(Push(out, t))
  {
    hide PushAlu, PushStk, PushShift, PushCmp;
    match t
    case Alu(op) => AluShrinks(out, op);
    case Shift(sh) => MotionShrinks(out, Drop, sh, Eq);
    case Stk(s) => MotionShrinks(out, s, Lsl, Eq);
    case Cmp(c) => MotionShrinks(out, Drop, Lsl, c);
    case _ =>
  }

  /** The pass never lengthens a run, and keeps it well formed: in particular it never
      builds the shifted multiply that the lowerer cannot emit. */
  lemma {:induction false} ReducedShrinks(toks: seq<Tok>)
    ensures |Reduced(toks)| <= |toks|
    ensures ValidToks(toks) ==> ValidToks(Reduced(toks))
    decreases |toks|
  {
    hide Push;
    if toks != [] {
      ReducedShrinks(toks[..|toks| - 1]);
      PushShrinks(Reduced(toks[..|toks| - 1]), toks[|toks| - 1]);
    }
  }
}
