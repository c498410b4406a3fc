/** The branching code of a structured program does what the program says. */
module Flow {
  import opened Options
  import opened Cells
  import opened Tokens
  import opened Machine
  import opened Lowering
  import opened Branches
  import opened Structured

  // ----- from states to states -----

  /** Every machine that shows `st` at `pc` reaches `pc'` showing `st'`. */
  ghost predicate Carries(env: Env, code: seq<Instr>, pc: int, st: Forth, pc': int, st': Forth) {
    forall m | Shows(env, m, st) ::
      exists m' :: Reaches(env, code, pc, m, pc', m') && Shows(env, m', st')
  }

  lemma CarriesSelf(env: Env, code: seq<Instr>, pc: int, st: Forth)
    ensures Carries(env, code, pc, st, pc, st)
  {
    hide Reaches, Shows;
    forall m | Shows(env, m, st)
      ensures exists m' :: Reaches(env, code, pc, m, pc, m') && Shows(env, m', st)
    {
      ReachesSelf(env, code, pc, m);
    }
  }

  lemma CarriesThen(env: Env, code: seq<Instr>, pc: int, st: Forth, pc1: int, st1: Forth,
                    pc2: int, st2: Forth)
    requires Carries(env, code, pc, st, pc1, st1) && Carries(env, code, pc1, st1, pc2, st2)
    ensures Carries(env, code, pc, st, pc2, st2)
  {
    hide Reaches, Shows;
    forall m | Shows(env, m, st)
      ensures exists m' :: Reaches(env, code, pc, m, pc2, m') && Shows(env, m', st2)
    {
      var m1 :| Reaches(env, code, pc, m, pc1, m1) && Shows(env, m1, st1);
      var m2 :| Reaches(env, code, pc1, m1, pc2, m2) && Shows(env, m2, st2);
      ReachesThen(env, code, pc, m, pc1, m1, pc2, m2);
    }
  }

  /** One machine's journey, as a fact about all of them. */
  lemma CarriesIntro(env: Env, code: seq<Instr>, pc: int, m: Mach, pc': int, m': Mach, st': Forth)
    requires Reaches(env, code, pc, m, pc', m') && Shows(env, m', st')
    ensures exists q :: Reaches(env, code, pc, m, pc', q) && Shows(env, q, st')
  {
  }

  // ----- where a piece lies in the final code -----

  /** Open branches have the form that will be patched. */
  predicate WellFormed(g: Piece) {
    && (forall i | i in g.leaves :: i < |g.code| && g.code[i].Bcond?)
    && (forall i | i in g.exits :: i < |g.code| && g.code[i].Jump?)
  }

  /** Instruction `i` of the piece once its open branches go to `leave` and `exit`. */
  function Resolved(g: Piece, i: nat, at: int, leave: int, exit: int): Instr
    requires i < |g.code|
  {
    if i in g.leaves && g.code[i].Bcond? then EncBcond(g.code[i].cond, leave - (at + i))
    else if i in g.exits then EncJump(exit - (at + i))
    else g.code[i]
  }

  /** The final code holds the piece at `at`. */
  ghost predicate Agrees(code: seq<Instr>, at: int, g: Piece, leave: int, exit: int) {
    && 0 <= at && at + |g.code| <= |code|
    && forall j | at <= j < at + |g.code| :: code[j] == Resolved(g, j - at, at, leave, exit)
  }

  lemma InOffset(xs: seq<nat>, k: nat, i: int)
    ensures i in Offset(xs, k) <==> i - k in xs
  {
    if i - k in xs {
      var j :| 0 <= j < |xs| && xs[j] == i - k;
      assert Offset(xs, k)[j] == i;
    }
    if i in Offset(xs, k) {
      var j :| 0 <= j < |xs| && Offset(xs, k)[j] == i;
      assert xs[j] == i - k;
    }
  }

  lemma AppendWellFormed(a: Piece, b: Piece)
    requires WellFormed(a) && WellFormed(b)
    ensures WellFormed(Append(a, b))
  {
    var g := Append(a, b);
    forall i | i in g.leaves
      ensures i < |g.code| && g.code[i].Bcond?
    {
      InOffset(b.leaves, |a.code|, i);
    }
    forall i | i in g.exits
      ensures i < |g.code| && g.code[i].Jump?
    {
      InOffset(b.exits, |a.code|, i);
    }
  }

  lemma ResolvedLeft(a: Piece, b: Piece, i: nat, at: int, leave: int, exit: int)
    requires WellFormed(a) && i < |a.code|
    ensures Resolved(Append(a, b), i, at, leave, exit) == Resolved(a, i, at, leave, exit)
  {
    InOffset(b.leaves, |a.code|, i);
    InOffset(b.exits, |a.code|, i);
  }

  lemma ResolvedRight(a: Piece, b: Piece, i: nat, at: int, leave: int, exit: int)
    requires WellFormed(a) && i < |b.code|
    ensures Resolved(Append(a, b), |a.code| + i, at, leave, exit)
         == Resolved(b, i, at + |a.code|, leave, exit)
  {
    InOffset(b.leaves, |a.code|, |a.code| + i);
    InOffset(b.exits, |a.code|, |a.code| + i);
  }

  /** The parts of a piece lie one after the other. */
  lemma AgreesAppend(code: seq<Instr>, at: int, a: Piece, b: Piece, leave: int, exit: int)
    requires WellFormed(a) && Agrees(code, at, Append(a, b), leave, exit)
    ensures Agrees(code, at, a, leave, exit)
    ensures Agrees(code, at + |a.code|, b, leave, exit)
  {
    hide Resolved, WellFormed;
    forall j | at <= j < at + |a.code|
      ensures code[j] == Resolved(a, j - at, at, leave, exit)
    {
      ResolvedLeft(a, b, j - at, at, leave, exit);
    }
    var k := |a.code|;
    forall j | at + k <= j < at + k + |b.code|
      ensures code[j] == Resolved(b, j - (at + k), at + k, leave, exit)
    {
      ResolvedRight(a, b, j - (at + k), at, leave, exit);
    }
  }

  lemma AgreesPlain(code: seq<Instr>, at: int, g: Piece, leave: int, exit: int)
    requires Agrees(code, at, g, leave, exit) && g.leaves == [] && g.exits == []
    ensures At(code, at, g.code)
  {
    forall j | at <= j < at + |g.code|
      ensures code[j] == g.code[j - at]
    {
    }
    assert code[at..at + |g.code|] == g.code;
  }

  // ----- straight-line parts -----

  lemma PlainWellFormed(code: seq<Instr>)
    ensures WellFormed(Plain(code))
  {
  }

  lemma FlushWellFormed(p: seq<Tok>)
    requires FlushToks(p).Some?
    ensures WellFormed(FlushToks(p).value)
    ensures FlushToks(p).value.leaves == [] && FlushToks(p).value.exits == []
    ensures FlushToks(p).value.pend == [] && (p != [] ==> FlushToks(p).value.fits == Fitting(p))
  {
    hide Compiled, Fitting;
  }

  /** Code that takes canonical machines to canonical machines. */
  lemma CarriesOps(env: Env, code: seq<Instr>, pc: int, ops: seq<Op>, st: Forth, st': Forth)
    requires At(code, pc, Lift(ops))
    requires forall m | Shows(env, m, st) :: Shows(env, Execute(env, ops, m), st')
    ensures Carries(env, code, pc, st, pc + |ops|, st')
  {
    hide Reaches, Shows, Execute;
    forall m | Shows(env, m, st)
      ensures exists m' :: Reaches(env, code, pc, m, pc + |ops|, m') && Shows(env, m', st')
    {
      LineRuns(env, code, pc, ops, m);
      CarriesIntro(env, code, pc, m, pc + |ops|, Execute(env, ops, m), st');
    }
  }

  /** The flushed code of a pending run does what the run does. */
  lemma FlushCarries(env: Env, code: seq<Instr>, pc: int, p: seq<Tok>, st: Forth, st': Forth)
    requires FlushToks(p).Some? && FlushToks(p).value.fits && ValidToks(p)
    requires At(code, pc, FlushToks(p).value.code)
    requires Run(env.words, p, st) == Some(st')
    ensures Carries(env, code, pc, st, pc + |FlushToks(p).value.code|, st')
  {
    hide Compiled, Fitting, Run, Carries, Execute;
    if p == [] {
      RunNothing(env.words, st);
      CarriesSelf(env, code, pc, st);
    } else {
      var ops := Compiled(p).value;
      forall m | Shows(env, m, st)
        ensures Shows(env, Execute(env, ops, m), st')
      {
        CompiledMeans(env, m, p);
      }
      CarriesOps(env, code, pc, ops, st, st');
    }
  }

  lemma RunNothing(words: Words, st: Forth)
    ensures Run(words, [], st) == Some(st)
  {
  }

  lemma JumpCarries(env: Env, code: seq<Instr>, pc: int, off: int, st: Forth)
    requires 0 <= pc < |code| && code[pc] == Jump(off)
    ensures Carries(env, code, pc, st, pc + off, st)
  {
    hide Reaches, Shows;
    forall m | Shows(env, m, st)
      ensures exists m' :: Reaches(env, code, pc, m, pc + off, m') && Shows(env, m', st)
    {
      ReachesStep(env, code, pc, m);
    }
  }

  // ----- tests -----

  /** Where control goes after a test: on to the next instruction when the flag is true,
      along the branch when it is false. */
  function AfterTest(flag: bool, pc: int, off: int): int {
    if flag then pc + 1 else pc + off
  }

  lemma FlagTestCarries(env: Env, code: seq<Instr>, pc: int, off: int, st: Forth)
    requires At(code, pc, Lift(FlagTest())) && 0 <= pc + 3 < |code| && code[pc + 3] == Cbz(SCRATCH, off)
    requires PopFlag(st).Some?
    ensures var (flag, st') := PopFlag(st).value;
            Carries(env, code, pc, st, AfterTest(flag, pc + 3, off), st')
  {
    hide Reaches, Shows, Execute;
    var (flag, st') := PopFlag(st).value;
    forall m | Shows(env, m, st)
      ensures exists m' :: Reaches(env, code, pc, m, AfterTest(flag, pc + 3, off), m')
                           && Shows(env, m', st')
    {
      LineRuns(env, code, pc, FlagTest(), m);
      FlagTestRuns(env, m, st);
      var m' := Execute(env, FlagTest(), m);
      ReachesStep(env, code, pc + 3, m');
      ReachesThen(env, code, pc, m, pc + 3, m', AfterTest(flag, pc + 3, off), m');
    }
  }

  lemma FusedCarries(env: Env, code: seq<Instr>, pc: int, c: CmpOp, off: int, st: Forth)
    requires var n := |FusedCmp(c)|;
             At(code, pc, Lift(FusedCmp(c))) && 0 <= pc + n < |code|
             && code[pc + n] == Bcond(Invert(CondOf(c)), off)
    requires |st.stack| > Arity(c)
    ensures Carries(env, code, pc, st, AfterTest(CmpOf(c, st.stack), pc + |FusedCmp(c)|, off),
                    st.(stack := Pop(st.stack, Arity(c))))
  {
    hide Reaches, Shows, Execute, FusedCmp, CondOf, CondHolds, CmpOf, Invert;
    var n := |FusedCmp(c)|;
    var pc' := AfterTest(CmpOf(c, st.stack), pc + n, off);
    var st' := st.(stack := Pop(st.stack, Arity(c)));
    forall m | Shows(env, m, st)
      ensures exists m' :: Reaches(env, code, pc, m, pc', m') && Shows(env, m', st')
    {
      LineRuns(env, code, pc, FusedCmp(c), m);
      FusedCmpRuns(env, m, st, c);
      var m' := Execute(env, FusedCmp(c), m);
      InvertedCond(c, m'.flags);
      ReachesStep(env, code, pc + n, m');
      ReachesThen(env, code, pc, m, pc + n, m', pc', m');
    }
  }

  lemma InvertedCond(c: CmpOp, f: Flags)
    ensures CondHolds(Invert(CondOf(c)), f) == !CondHolds(CondOf(c), f)
  {
    hide CondHolds;
    InvertNegates(CondOf(c), f);
  }

  /** Code short enough for every branch form. */
  const MAX_CODE: int := 0x2000

  lemma OffsetsFit(off: int)
    requires -MAX_CODE <= off < MAX_CODE
    ensures Field(off, RANGE14) == off && Field(off, RANGE19) == off && Field(off, RANGE26) == off
  {
    FieldExact(off, RANGE14);
    FieldExact(off, RANGE19);
    FieldExact(off, RANGE26);
  }

  lemma TestWellFormed(p: seq<Tok>)
    requires TestOf(p).Some?
    ensures var t := TestOf(p).value.0; WellFormed(t) && t.leaves == [] && t.exits == []
  {
    hide FlushToks, FusedCmp;
    var n := |p|;
    if n > 0 && p[n - 1].Cmp? {
      FlushWellFormed(p[..n - 1]);
    } else {
      FlushWellFormed(p);
    }
  }

  /** A test without a comparison at the end of its run: the run, then the flag test. */
  lemma PlainTest(p: seq<Tok>)
    requires TestOf(p).Some? && !(p != [] && p[|p| - 1].Cmp?)
    ensures FlushToks(p).Some?
    ensures var (t, br) := TestOf(p).value;
            t.code == FlushToks(p).value.code + Lift(FlagTest()) && t.fits == FlushToks(p).value.fits && br == OnZero
  {
    hide FlushToks;
  }

  /** A fused test: the run without the comparison, then the comparison. */
  lemma FusedTest(p: seq<Tok>)
    requires TestOf(p).Some? && p != [] && p[|p| - 1].Cmp?
    ensures FlushToks(p[..|p| - 1]).Some?
    ensures var (t, br) := TestOf(p).value;
            var f, c := FlushToks(p[..|p| - 1]).value, p[|p| - 1].c;
            t.code == f.code + Lift(FusedCmp(c)) && t.fits == f.fits && br == OnCond(Invert(CondOf(c)))
  {
    hide FlushToks, FusedCmp;
  }

  /** The last token of a run, on its own. */
  lemma RunLast(words: Words, p: seq<Tok>, st: Forth, st': Forth)
    requires p != [] && Run(words, p, st) == Some(st')
    ensures var r := Run(words, p[..|p| - 1], st);
            r.Some? && Step(words, p[|p| - 1], r.value) == Some(st')
  {
    hide Step;
    var n := |p|;
    assert p == p[..n - 1] + [p[n - 1]];
    RunAppend(words, p[..n - 1], [p[n - 1]], st);
    var r := Run(words, p[..n - 1], st).value;
    assert [p[n - 1]][1..] == [];
  }

  lemma CmpThenFlag(words: Words, c: CmpOp, st: Forth, st1: Forth)
    requires Step(words, Cmp(c), st) == Some(st1) && PopFlag(st1).Some?
    ensures |st.stack| > Arity(c)
    ensures PopFlag(st1) == Some((CmpOf(c, st.stack), st.(stack := Pop(st.stack, Arity(c)))))
  {
    hide CmpOp.Holds, FetchCell, StoreCell, AluOp.Eval, ShiftOp.Eval;
    var v := CmpOf(c, st.stack);
    var s1 := Pop(st.stack, Arity(c)) + [Flag(v)];
    assert st1.stack == s1;
    assert Pop(s1, 1) == Pop(st.stack, Arity(c));
  }

  /** A test: the pending run, then the branch on the flag it leaves. */
  lemma TestCarries(env: Env, code: seq<Instr>, pc: int, p: seq<Tok>, off: int, st: Forth, st1: Forth)
    requires TestOf(p).Some? && TestOf(p).value.0.fits && ValidToks(p)
    requires var (t, br) := TestOf(p).value;
             At(code, pc, t.code) && pc + |t.code| < |code|
             && code[pc + |t.code|] == BranchOff(br, off)
    requires -MAX_CODE <= off < MAX_CODE
    requires Run(env.words, p, st) == Some(st1) && PopFlag(st1).Some?
    ensures var (flag, st') := PopFlag(st1).value;
            Carries(env, code, pc, st, AfterTest(flag, pc + |TestOf(p).value.0.code|, off), st')
  {
    hide TestOf, FlushToks, FusedCmp, Run, Carries, PopFlag, At;
    OffsetsFit(off);
    if p != [] && p[|p| - 1].Cmp? {
      FusedTest(p);
      FusedTestCarries(env, code, pc, p, off, st, st1);
    } else {
      PlainTest(p);
      var f := FlushToks(p).value;
      AtParts(code, pc, f.code, Lift(FlagTest()));
      FlushCarries(env, code, pc, p, st, st1);
      FlagTestCarries(env, code, pc + |f.code|, off, st1);
      var (flag, st') := PopFlag(st1).value;
      CarriesThen(env, code, pc, st, pc + |f.code|, st1, AfterTest(flag, pc + |f.code| + 3, off), st');
    }
  }

  lemma FusedTestCarries(env: Env, code: seq<Instr>, pc: int, p: seq<Tok>, off: int, st: Forth, st1: Forth)
    requires p != [] && p[|p| - 1].Cmp? && ValidToks(p)
    requires FlushToks(p[..|p| - 1]).Some? && FlushToks(p[..|p| - 1]).value.fits
    requires var head := FlushToks(p[..|p| - 1]).value.code + Lift(FusedCmp(p[|p| - 1].c));
             At(code, pc, head) && pc + |head| < |code|
             && code[pc + |head|] == BranchOff(OnCond(Invert(CondOf(p[|p| - 1].c))), off)
    requires -MAX_CODE <= off < MAX_CODE
    requires Run(env.words, p, st) == Some(st1) && PopFlag(st1).Some?
    ensures var (flag, st') := PopFlag(st1).value;
            var n := |FlushToks(p[..|p| - 1]).value.code + Lift(FusedCmp(p[|p| - 1].c))|;
            Carries(env, code, pc, st, AfterTest(flag, pc + n, off), st')
  {
    hide FlushToks, FusedCmp, Run, Carries, PopFlag, At, CmpOf;
    var q, c := p[..|p| - 1], p[|p| - 1].c;
    var f := FlushToks(q).value;
    OffsetsFit(off);
    RunLast(env.words, p, st, st1);
    var st0 := Run(env.words, q, st).value;
    CmpThenFlag(env.words, c, st0, st1);
    AtParts(code, pc, f.code, Lift(FusedCmp(c)));
    FlushCarries(env, code, pc, q, st, st0);
    FusedCarries(env, code, pc + |f.code|, c, off, st0);
    var (flag, st') := PopFlag(st1).value;
    CarriesThen(env, code, pc, st, pc + |f.code|, st0, AfterTest(flag, pc + |f.code| + |FusedCmp(c)|, off), st');
  }

  lemma AtParts(code: seq<Instr>, pc: int, a: seq<Instr>, b: seq<Instr>)
    requires At(code, pc, a + b)
    ensures At(code, pc, a) && At(code, pc + |a|, b)
  {
    var whole := code[pc..pc + |a + b|];
    assert code[pc..pc + |a|] == whole[..|a|];
    assert code[pc + |a|..pc + |a| + |b|] == whole[|a|..];
  }

  // ----- a piece and the outcome of its statement -----

  /** Running the piece from `st` ends as `o` says: at its end with its pending tokens still
      to run, or at the target of `leave`, or at the target of `exit`. */
  ghost predicate Simulates(env: Env, code: seq<Instr>, at: int, g: Piece, st: Forth, o: Outcome,
                            leave: int, exit: int) {
    match o
    case Normal(st2) =>
      exists st1 :: Carries(env, code, at, st, at + |g.code|, st1)
                    && Run(env.words, g.pend, st1) == Some(st2)
    case Left(st2) => Carries(env, code, at, st, leave, st2)
    case Exited(st2) => Carries(env, code, at, st, exit, st2)
  }

  /** Where execution goes on after an outcome. */
  function Resumes(o: Outcome, end: int, leave: int, exit: int): int {
    match o
    case Normal(_) => end
    case Left(_) => leave
    case Exited(_) => exit
  }

  /** Where a closed piece, with nothing pending, ends. */
  function EndOf(at: int, g: Piece, o: Outcome, leave: int, exit: int): int {
    Resumes(o, at + |g.code|, leave, exit)
  }

  lemma SimulatesClosed(env: Env, code: seq<Instr>, at: int, g: Piece, st: Forth, o: Outcome,
                        leave: int, exit: int)
    requires g.pend == []
    ensures Simulates(env, code, at, g, st, o, leave, exit)
        <==> Carries(env, code, at, st, EndOf(at, g, o, leave, exit), o.st)
  {
    hide Carries;
    if o.Normal? {
      RunNothing(env.words, o.st);
      if Simulates(env, code, at, g, st, o, leave, exit) {
        var st1 :| Carries(env, code, at, st, at + |g.code|, st1)
                   && Run(env.words, g.pend, st1) == Some(o.st);
        RunNothing(env.words, st1);
      }
    }
  }

  /** Code before a piece. */
  lemma SimulatesAfter(env: Env, code: seq<Instr>, at: int, a: Piece, b: Piece, st: Forth,
                       st1: Forth, o: Outcome, leave: int, exit: int)
    requires Carries(env, code, at, st, at + |a.code|, st1)
    requires Simulates(env, code, at + |a.code|, b, st1, o, leave, exit)
    ensures Simulates(env, code, at, Append(a, b), st, o, leave, exit)
  {
    hide Carries, Run;
    var mid := at + |a.code|;
    match o
    case Normal(st2) =>
      var st3 :| Carries(env, code, mid, st1, mid + |b.code|, st3)
                 && Run(env.words, b.pend, st3) == Some(st2);
      CarriesThen(env, code, at, st, mid, st1, mid + |b.code|, st3);
    case Left(st2) => CarriesThen(env, code, at, st, mid, st1, leave, st2);
    case Exited(st2) => CarriesThen(env, code, at, st, mid, st1, exit, st2);
  }

  /** A piece that does not end normally is not followed. */
  lemma SimulatesBefore(env: Env, code: seq<Instr>, at: int, a: Piece, b: Piece, st: Forth,
                        o: Outcome, leave: int, exit: int)
    requires Simulates(env, code, at, a, st, o, leave, exit) && !o.Normal?
    ensures Simulates(env, code, at, Append(a, b), st, o, leave, exit)
  {
  }

  /** Flushing runs the pending tokens. */
  lemma FlushedSim(env: Env, code: seq<Instr>, at: int, g: Piece, st: Forth, o: Outcome,
                   leave: int, exit: int)
    requires Flushed(g).Some? && Flushed(g).value.fits
    requires WellFormed(g) && ValidToks(g.pend)
    requires Agrees(code, at, Flushed(g).value, leave, exit)
    requires Simulates(env, code, at, g, st, o, leave, exit)
    ensures Simulates(env, code, at, Flushed(g).value, st, o, leave, exit)
  {
    hide Carries, Run, FlushToks, Flushed, Agrees, At, WellFormed, Simulates, Append;
    FlushedForm(g);
    var f := FlushToks(g.pend).value;
    FlushWellFormed(g.pend);
    AgreesAppend(code, at, g, f, leave, exit);
    AgreesPlain(code, at + |g.code|, f, leave, exit);
    match o
    case Normal(st2) => FlushedLands(env, code, at, g, st, st2, leave, exit);
    case _ =>
      Escaped(env, code, at, g, st, o, leave, exit);
      SimulatesClosed(env, code, at, Append(g, f), st, o, leave, exit);
  }

  lemma FlushedLands(env: Env, code: seq<Instr>, at: int, g: Piece, st: Forth, st2: Forth, leave: int, exit: int)
    requires FlushToks(g.pend).Some? && FlushToks(g.pend).value.fits && ValidToks(g.pend)
    requires At(code, at + |g.code|, FlushToks(g.pend).value.code)
    requires Simulates(env, code, at, g, st, Normal(st2), leave, exit)
    ensures Simulates(env, code, at, Append(g, FlushToks(g.pend).value), st, Normal(st2), leave, exit)
  {
    hide Carries, Run, FlushToks, At, Simulates, Append, WellFormed;
    var f := FlushToks(g.pend).value;
    AppendSize(g, f);
    var st1 := Landing(env, code, at, g, st, st2, leave, exit);
    FlushWellFormed(g.pend);
    FlushCarries(env, code, at + |g.code|, g.pend, st1, st2);
    CarriesThen(env, code, at, st, at + |g.code|, st1, at + |g.code| + |f.code|, st2);
    RunNothing(env.words, st2);
    Landed(env, code, at, Append(g, f), st, st2, st2, leave, exit);
  }

  lemma AppendSize(a: Piece, b: Piece)
    ensures var r := Append(a, b);
            |r.code| == |a.code| + |b.code| && r.pend == b.pend && (r.fits ==> a.fits && b.fits)
  {
    hide Offset;
  }

  lemma FlushedForm(g: Piece)
    requires Flushed(g).Some?
    ensures var f := FlushToks(g.pend).value;
            var r := Append(g, f);
            && FlushToks(g.pend).Some? && Flushed(g) == Some(r)
            && |r.code| == |g.code| + |f.code| && r.pend == f.pend && (r.fits ==> f.fits)
  {
    hide FlushToks;
  }

  // ----- well-formedness of what is generated -----

  lemma FlushedWellFormed(g: Piece)
    requires WellFormed(g) && Flushed(g).Some?
    ensures WellFormed(Flushed(g).value) && Flushed(g).value.pend == []
    ensures Flushed(g).value.fits == (g.fits && FlushToks(g.pend).value.fits)
  {
    hide WellFormed, FlushToks;
    FlushWellFormed(g.pend);
    AppendWellFormed(g, FlushToks(g.pend).value);
  }

  lemma {:induction false} PatchedAt(code: seq<Instr>, at: seq<nat>, target: int, i: nat)
    requires i < |code|
    ensures PatchBconds(code, at, target)[i]
         == if i in at && code[i].Bcond? then EncBcond(code[i].cond, target - i) else code[i]
    decreases |at|
  {
    hide EncBcond;
    if at != [] {
      var k := at[0];
      var code' := if k < |code| && code[k].Bcond?
                   then code[k := EncBcond(code[k].cond, target - k)] else code;
      EncBcondKeeps(code, k, target);
      PatchedAt(code', at[1..], target, i);
      assert at == [at[0]] + at[1..];
    }
  }

  lemma EncBcondKeeps(code: seq<Instr>, k: nat, target: int)
    ensures k < |code| && code[k].Bcond? ==>
              var p := EncBcond(code[k].cond, target - k); p.Bcond? && p.cond == code[k].cond
  {
  }

  lemma DoHeadWellFormed(skipEqual: bool)
    ensures WellFormed(DoHead(skipEqual))
    ensures DoHead(skipEqual).exits == [] && DoHead(skipEqual).fits
  {
  }

  lemma LoopWellFormed(f: Piece, b: Piece, skipEqual: bool, step: bool)
    requires WellFormed(f) && WellFormed(b)
    ensures WellFormed(OpenLoop(f, b, skipEqual, step))
    ensures WellFormed(AssembleLoop(f, b, skipEqual, step))
  {
    hide Append, DoHead, LoopStep;
    var tail := Plain(Lift(LoopStep(step))
                      + [EncTbzSign(11, -(|b.code| + |LoopStep(step)|)), Line(AddRp(2))]);
    DoHeadWellFormed(skipEqual);
    AppendWellFormed(f, DoHead(skipEqual));
    AppendWellFormed(Append(f, DoHead(skipEqual)), b);
    PlainWellFormed(tail.code);
    AppendWellFormed(Append(Append(f, DoHead(skipEqual)), b), tail);
    var g := OpenLoop(f, b, skipEqual, step);
    forall i | i in g.exits
      ensures PatchBconds(g.code, g.leaves, |g.code| - 1)[i].Jump?
    {
      PatchedAt(g.code, g.leaves, |g.code| - 1, i);
    }
  }

  lemma IfWellFormed(t: Piece, br: Branch, a: Piece)
    requires WellFormed(t) && WellFormed(a)
    ensures WellFormed(AssembleIf(t, br, a))
  {
    hide Append, WellFormed;
    PlainWellFormed([BranchOff(br, |a.code| + 1)]);
    AppendWellFormed(t, Plain([BranchOff(br, |a.code| + 1)]));
    AppendWellFormed(Append(t, Plain([BranchOff(br, |a.code| + 1)])), a);
  }

  lemma IfElseWellFormed(t: Piece, br: Branch, a: Piece, b: Piece)
    requires WellFormed(t) && WellFormed(a) && WellFormed(b)
    ensures WellFormed(AssembleIfElse(t, br, a, b))
  {
    hide Append, WellFormed, AssembleIf;
    var j := Plain([EncJump(|b.code| + 1)]);
    PlainWellFormed(j.code);
    AppendWellFormed(a, j);
    IfWellFormed(t, br, Append(a, j));
    AppendWellFormed(AssembleIf(t, br, Append(a, j)), b);
  }

  lemma UntilWellFormed(f: Piece, a: Piece, t: Piece, br: Branch)
    requires WellFormed(f) && WellFormed(a) && WellFormed(t)
    ensures WellFormed(AssembleUntil(f, a, t, br))
  {
    hide Append, WellFormed;
    var j := Plain([BranchOff(br, -(|a.code| + |t.code|))]);
    PlainWellFormed(j.code);
    AppendWellFormed(a, t);
    AppendWellFormed(Append(a, t), j);
    AppendWellFormed(f, Append(Append(a, t), j));
  }

  lemma WhileWellFormed(f: Piece, a: Piece, t: Piece, br: Branch, b: Piece)
    requires WellFormed(f) && WellFormed(a) && WellFormed(t) && WellFormed(b)
    ensures WellFormed(AssembleWhile(f, a, t, br, b))
  {
    hide Append, WellFormed;
    var x := Plain([BranchOff(br, |b.code| + 2)]);
    var head := Append(Append(a, t), x);
    var j := Plain([EncJump(-(|head.code| + |b.code|))]);
    PlainWellFormed(x.code);
    PlainWellFormed(j.code);
    AppendWellFormed(a, t);
    AppendWellFormed(Append(a, t), x);
    AppendWellFormed(head, b);
    AppendWellFormed(Append(head, b), j);
    AppendWellFormed(f, Append(Append(head, b), j));
  }

  predicate ValidStmt(s: Stmt)
    decreases s
  {
    match s
    case Toks(run) => ValidToks(run)
    case Block(a, b) => ValidStmt(a) && ValidStmt(b)
    case If(a) => ValidStmt(a)
    case IfElse(a, b) => ValidStmt(a) && ValidStmt(b)
    case Until(a) => ValidStmt(a)
    case While(a, b) => ValidStmt(a) && ValidStmt(b)
    case DoLoop(a, _, _) => ValidStmt(a)
    case Case(arms) => ValidArms(arms)
    case _ => true
  }

  predicate ValidArms(arms: Arms)
    decreases arms
  {
    match arms
    case Default(last) => ValidStmt(last)
    case Of(a, b, rest) => ValidStmt(a) && ValidStmt(b) && ValidArms(rest)
  }

  /** Every generated piece is well formed, and its pending tokens are valid. */
  lemma {:induction false} GenWellFormed(s: Stmt, p: seq<Tok>)
    requires Gen(s, p).Some? && ValidStmt(s) && ValidToks(p)
    ensures WellFormed(Gen(s, p).value) && ValidToks(Gen(s, p).value.pend)
    decreases s, 0
  {
    hide WellFormed, FlushToks, TestOf, Flushed, AssembleIf, AssembleIfElse, AssembleUntil,
         AssembleWhile, AssembleLoop;
    match s
    case Toks(run) => PlainWellFormed([]);
      PendingWellFormed(p + run);
    case Block(a, b) =>
      GenWellFormed(a, p);
      var ga := Gen(a, p).value;
      GenWellFormed(b, ga.pend);
      AppendWellFormed(ga, Gen(b, ga.pend).value);
    case If(a) =>
      GenFlushed(a, []);
      var fa := Flushed(Gen(a, []).value).value;
      TestWellFormed(p);
      var (t, br) := TestOf(p).value;
      IfWellFormed(t, br, fa);
      AssembledPend(t, br, fa, fa);
    case IfElse(a, b) =>
      GenFlushed(a, []);
      GenFlushed(b, []);
      var fa, fb := Flushed(Gen(a, []).value).value, Flushed(Gen(b, []).value).value;
      TestWellFormed(p);
      var (t, br) := TestOf(p).value;
      IfElseWellFormed(t, br, fa, fb);
      AssembledPend(t, br, fa, fb);
    case Until(a) =>
      GenWellFormed(a, []);
      var ga := Gen(a, []).value;
      FlushWellFormed(p);
      TestWellFormed(ga.pend);
      var (t, br) := TestOf(ga.pend).value;
      UntilWellFormed(FlushToks(p).value, ga, t, br);
      LoopPend(FlushToks(p).value, ga, t, br, ga);
    case While(a, b) =>
      GenWellFormed(a, []);
      GenFlushed(b, []);
      var ga, fb := Gen(a, []).value, Flushed(Gen(b, []).value).value;
      FlushWellFormed(p);
      TestWellFormed(ga.pend);
      var (t, br) := TestOf(ga.pend).value;
      WhileWellFormed(FlushToks(p).value, ga, t, br, fb);
      LoopPend(FlushToks(p).value, ga, t, br, fb);
    case DoLoop(b, skipEqual, step) =>
      GenFlushed(b, []);
      var fb := Flushed(Gen(b, []).value).value;
      FlushWellFormed(p);
      LoopWellFormed(FlushToks(p).value, fb, skipEqual, step);
      CountedPend(FlushToks(p).value, fb, skipEqual, step);
    case Leave => GenLeafWellFormed(s, p);
    case Unloop => GenLeafWellFormed(s, p);
    case Exit => GenLeafWellFormed(s, p);
    case Case(arms) => ArmsWellFormed(arms, p);
  }

  lemma GenLeafWellFormed(s: Stmt, p: seq<Tok>)
    requires (s.Leave? || s.Exit? || s.Unloop?) && Gen(s, p).Some?
    ensures WellFormed(Gen(s, p).value) && Gen(s, p).value.pend == []
  {
    hide WellFormed, FlushToks, EncBcond, EncJump;
    FlushWellFormed(p);
    LeafWellFormed();
    PlainWellFormed([Line(Branches.Unloop())]);
    var x := match s case Leave => LeaveCode() case Exit => ExitCode() case _ => Plain([Line(Branches.Unloop())]);
    AppendWellFormed(FlushToks(p).value, x);
  }

  lemma LeafWellFormed()
    ensures WellFormed(Plain([EncBcond(AL, 0)]).(leaves := [0]))
    ensures WellFormed(Plain([EncJump(0)]).(exits := [0]))
  {
  }

  lemma PendingWellFormed(p: seq<Tok>)
    ensures WellFormed(Plain([]).(pend := p))
  {
  }

  lemma AssembledPend(t: Piece, br: Branch, a: Piece, b: Piece)
    ensures AssembleIf(t, br, a).pend == a.pend && AssembleIfElse(t, br, a, b).pend == b.pend
  {
  }

  lemma LoopPend(f: Piece, a: Piece, t: Piece, br: Branch, b: Piece)
    ensures AssembleUntil(f, a, t, br).pend == [] && AssembleWhile(f, a, t, br, b).pend == []
  {
  }

  lemma CountedPend(f: Piece, b: Piece, skipEqual: bool, step: bool)
    ensures AssembleLoop(f, b, skipEqual, step).pend == []
  {
  }

  lemma {:induction false} GenFlushed(s: Stmt, p: seq<Tok>)
    requires Gen(s, p).Some? && ValidStmt(s) && ValidToks(p) && Flushed(Gen(s, p).value).Some?
    ensures ValidToks(Gen(s, p).value.pend)
    ensures WellFormed(Flushed(Gen(s, p).value).value) && Flushed(Gen(s, p).value).value.pend == []
    decreases s, 1
  {
    hide WellFormed, Flushed, Gen;
    GenWellFormed(s, p);
    FlushedWellFormed(Gen(s, p).value);
  }

  lemma {:induction false} ArmsWellFormed(arms: Arms, p: seq<Tok>)
    requires GenArms(arms, p).Some? && ValidArms(arms) && ValidToks(p)
    ensures WellFormed(GenArms(arms, p).value) && GenArms(arms, p).value.pend == []
    decreases arms, 0
  {
    hide WellFormed, TestOf, Flushed, AssembleIfElse;
    match arms
    case Default(last) =>
      GenWellFormed(last, p);
      var g := Gen(last, p).value;
      WithPend(g, g.pend + [Stk(Drop)]);
      FlushedWellFormed(g.(pend := g.pend + [Stk(Drop)]));
    case Of(test, body, rest) =>
      GenWellFormed(test, p);
      var g := Gen(test, p).value;
      GenFlushed(body, [Stk(Drop)]);
      var fb := Flushed(Gen(body, [Stk(Drop)]).value).value;
      ArmsWellFormed(rest, []);
      var q := g.pend + [Stk(Over), Cmp(Eq)];
      TestWellFormed(q);
      var (t, br) := TestOf(q).value;
      IfElseWellFormed(t, br, fb, GenArms(rest, []).value);
      AssembledPend(t, br, fb, GenArms(rest, []).value);
      AppendWellFormed(g, AssembleIfElse(t, br, fb, GenArms(rest, []).value));
  }

  lemma WithPend(g: Piece, p: seq<Tok>)
    requires WellFormed(g)
    ensures WellFormed(g.(pend := p))
  {
  }

  // ----- each construct -----

  /** A test with its branch, inside the final code. */
  lemma HeadCarries(env: Env, code: seq<Instr>, at: int, p: seq<Tok>, off: int, st: Forth, st1: Forth,
                    leave: int, exit: int)
    requires TestOf(p).Some? && TestOf(p).value.0.fits && ValidToks(p)
    requires var (t, br) := TestOf(p).value;
             Agrees(code, at, Append(t, Plain([BranchOff(br, off)])), leave, exit)
    requires -MAX_CODE <= off < MAX_CODE
    requires Run(env.words, p, st) == Some(st1) && PopFlag(st1).Some?
    ensures var (flag, st') := PopFlag(st1).value;
            Carries(env, code, at, st, AfterTest(flag, at + |TestOf(p).value.0.code|, off), st')
  {
    hide Run, Carries, PopFlag, TestOf, Agrees;
    var (t, br) := TestOf(p).value;
    TestWellFormed(p);
    var x := Plain([BranchOff(br, off)]);
    AgreesAppend(code, at, t, x, leave, exit);
    AgreesPlain(code, at, t, leave, exit);
    AgreesPlain(code, at + |t.code|, x, leave, exit);
    AtOne(code, at + |t.code|, BranchOff(br, off));
    TestCarries(env, code, at, p, off, st, st1);
  }

  lemma AtOne(code: seq<Instr>, pc: int, i: Instr)
    requires At(code, pc, [i])
    ensures 0 <= pc < |code| && code[pc] == i
  {
    assert code[pc] == code[pc..pc + 1][0];
  }

  lemma IfSim(env: Env, code: seq<Instr>, at: int, p: seq<Tok>, a: Piece, st: Forth, st1: Forth,
              o: Outcome, leave: int, exit: int)
    requires TestOf(p).Some? && TestOf(p).value.0.fits && ValidToks(p)
    requires WellFormed(a) && a.pend == [] && |code| < MAX_CODE
    requires var (t, br) := TestOf(p).value; Agrees(code, at, AssembleIf(t, br, a), leave, exit)
    requires Run(env.words, p, st) == Some(st1) && PopFlag(st1).Some?
    requires var (flag, st') := PopFlag(st1).value;
             if flag
             then Simulates(env, code, at + |TestOf(p).value.0.code| + 1, a, st', o, leave, exit)
             else o == Normal(st')
    ensures var (t, br) := TestOf(p).value;
            Simulates(env, code, at, AssembleIf(t, br, a), st, o, leave, exit)
  {
    hide Run, Carries, PopFlag, TestOf, Agrees, Simulates;
    var (t, br) := TestOf(p).value;
    var (flag, st') := PopFlag(st1).value;
    var off := |a.code| + 1;
    var head := Append(t, Plain([BranchOff(br, off)]));
    AgreesInside(code, at, AssembleIf(t, br, a), leave, exit);
    TestWellFormed(p);
    PlainWellFormed([BranchOff(br, off)]);
    AppendWellFormed(t, Plain([BranchOff(br, off)]));
    AgreesAppend(code, at, head, a, leave, exit);
    HeadCarries(env, code, at, p, off, st, st1, leave, exit);
    if flag {
      SimulatesAfter(env, code, at, head, a, st, st', o, leave, exit);
    } else {
      SimulatesClosed(env, code, at, AssembleIf(t, br, a), st, o, leave, exit);
    }
  }

  lemma AgreesInside(code: seq<Instr>, at: int, g: Piece, leave: int, exit: int)
    requires Agrees(code, at, g, leave, exit)
    ensures 0 <= at && at + |g.code| <= |code|
  {
    hide Resolved;
  }

  lemma IfElseSim(env: Env, code: seq<Instr>, at: int, p: seq<Tok>, a: Piece, b: Piece, st: Forth,
                  st1: Forth, o: Outcome, leave: int, exit: int)
    requires TestOf(p).Some? && TestOf(p).value.0.fits && ValidToks(p)
    requires WellFormed(a) && a.pend == [] && WellFormed(b) && b.pend == [] && |code| < MAX_CODE
    requires var (t, br) := TestOf(p).value; Agrees(code, at, AssembleIfElse(t, br, a, b), leave, exit)
    requires Run(env.words, p, st) == Some(st1) && PopFlag(st1).Some?
    requires var (flag, st') := PopFlag(st1).value;
             var n := |TestOf(p).value.0.code|;
             if flag then Simulates(env, code, at + n + 1, a, st', o, leave, exit)
             else Simulates(env, code, at + n + |a.code| + 2, b, st', o, leave, exit)
    ensures var (t, br) := TestOf(p).value;
            Simulates(env, code, at, AssembleIfElse(t, br, a, b), st, o, leave, exit)
  {
    hide Run, Carries, PopFlag, TestOf, Agrees, Simulates, AssembleIf, AssembleIfElse;
    var (t, br) := TestOf(p).value;
    var (flag, st') := PopFlag(st1).value;
    var left := AssembleIf(t, br, Append(a, Plain([EncJump(|b.code| + 1)])));
    var whole := AssembleIfElse(t, br, a, b);
    TestWellFormed(p);
    IfElseSize(t, br, a, b);
    IfElseLaidOut(code, at, t, br, a, b, leave, exit);
    HeadCarries(env, code, at, p, |a.code| + 2, st, st1, leave, exit);
    if flag {
      var at1 := at + |t.code| + 1;
      YesBranch(env, code, at1, a, |b.code| + 1, st', o, leave, exit);
      CarriesThen(env, code, at, st, at1, st', EndOf(at, whole, o, leave, exit), o.st);
      SimulatesClosed(env, code, at, whole, st, o, leave, exit);
    } else {
      SimulatesAfter(env, code, at, left, b, st, st', o, leave, exit);
    }
  }

  lemma IfElseSize(t: Piece, br: Branch, a: Piece, b: Piece)
    ensures var left := AssembleIf(t, br, Append(a, Plain([EncJump(|b.code| + 1)])));
            |left.code| == |t.code| + |a.code| + 2 && AssembleIfElse(t, br, a, b) == Append(left, b)
            && |AssembleIfElse(t, br, a, b).code| == |left.code| + |b.code|
            && AssembleIfElse(t, br, a, b).pend == b.pend
  {
    hide BranchOff, EncJump, Offset;
  }

  /** The test, the two parts and the jump between them. */
  lemma IfElseLaidOut(code: seq<Instr>, at: int, t: Piece, br: Branch, a: Piece, b: Piece, leave: int, exit: int)
    requires WellFormed(t) && WellFormed(a) && |code| < MAX_CODE
    requires Agrees(code, at, AssembleIfElse(t, br, a, b), leave, exit)
    ensures var at1 := at + |t.code| + 1;
            Agrees(code, at, Append(t, Plain([BranchOff(br, |a.code| + 2)])), leave, exit)
            && Agrees(code, at1, a, leave, exit) && Agrees(code, at1 + |a.code| + 1, b, leave, exit)
            && 0 <= at && at1 + |a.code| + 1 + |b.code| <= |code|
            && code[at1 + |a.code|] == Jump(|b.code| + 1)
            && (AssembleIfElse(t, br, a, b).fits ==> a.fits && b.fits && t.fits)
  {
    hide Agrees, WellFormed, BranchOff, EncJump, At, Offset;
    var j := Plain([EncJump(|b.code| + 1)]);
    var aj := Append(a, j);
    var x := Plain([BranchOff(br, |aj.code| + 1)]);
    var at1 := at + |t.code| + 1;
    AgreesInside(code, at, AssembleIfElse(t, br, a, b), leave, exit);
    PlainWellFormed(j.code);
    PlainWellFormed(x.code);
    AppendWellFormed(a, j);
    AppendWellFormed(t, x);
    IfWellFormed(t, br, aj);
    AgreesAppend(code, at, AssembleIf(t, br, aj), b, leave, exit);
    AgreesAppend(code, at, Append(t, x), aj, leave, exit);
    AgreesAppend(code, at1, a, j, leave, exit);
    AgreesPlain(code, at1 + |a.code|, j, leave, exit);
    AtOne(code, at1 + |a.code|, EncJump(|b.code| + 1));
    OffsetsFit(|b.code| + 1);
    EncodedJump(|b.code| + 1);
  }

  /** The `if` part, then the jump over the `else` part. */
  lemma YesBranch(env: Env, code: seq<Instr>, at: int, a: Piece, off: int, st: Forth, o: Outcome,
                  leave: int, exit: int)
    requires a.pend == [] && Simulates(env, code, at, a, st, o, leave, exit)
    requires 0 <= at + |a.code| < |code| && code[at + |a.code|] == Jump(off)
    ensures Carries(env, code, at, st,
                    if o.Normal? then at + |a.code| + off else EndOf(at, a, o, leave, exit), o.st)
  {
    hide Carries, Simulates;
    SimulatesClosed(env, code, at, a, st, o, leave, exit);
    if o.Normal? {
      JumpCarries(env, code, at + |a.code|, off, o.st);
      CarriesThen(env, code, at, st, at + |a.code|, o.st, at + |a.code| + off, o.st);
    }
  }

  // ----- counted loops -----

  lemma EnterCarries(env: Env, code: seq<Instr>, at: int, st: Forth)
    requires At(code, at, Lift(DoCode())) && EnterLoop(st).Some?
    ensures Carries(env, code, at, st, at + |DoCode()|, EnterLoop(st).value)
  {
    hide Execute, Shows, DoCode;
    forall m | Shows(env, m, st)
      ensures Shows(env, Execute(env, DoCode(), m), EnterLoop(st).value)
    {
      DoRuns(env, m, st);
    }
    CarriesOps(env, code, at, DoCode(), st, EnterLoop(st).value);
  }

  /** `?do`: past the branch when index and limit differ, along it when they are equal. */
  lemma SkipCarries(env: Env, code: seq<Instr>, at: int, off: int, st: Forth)
    requires At(code, at, Lift(QDoTest())) && 0 <= at + 3 < |code| && code[at + 3] == Bcond(EQ, off)
    requires |st.rs| >= 2
    ensures Carries(env, code, at, st, AfterTest(st.rs[0] != st.rs[1], at + 3, off), st)
  {
    hide Reaches, Shows, Execute;
    forall m | Shows(env, m, st)
      ensures exists m' :: Reaches(env, code, at, m, AfterTest(st.rs[0] != st.rs[1], at + 3, off), m')
                           && Shows(env, m', st)
    {
      LineRuns(env, code, at, QDoTest(), m);
      QDoTestRuns(env, m, st);
      var m' := Execute(env, QDoTest(), m);
      ReachesStep(env, code, at + 3, m');
      ReachesThen(env, code, at, m, at + 3, m', AfterTest(st.rs[0] != st.rs[1], at + 3, off), m');
    }
  }

  lemma LoopStepRuns(env: Env, step: bool, m: Mach, st: Forth)
    requires Shows(env, m, st) && Advance(step, st).Some?
    ensures var (st', crossed) := Advance(step, st).value;
            var m' := Execute(env, LoopStep(step), m);
            Shows(env, m', st') && Negative(X(m', 11)) == crossed
  {
    hide Shows, Execute, AluOp.Eval, Negative, Crossing;
    if step {
      PlusLoopRuns(env, m, st);
    } else {
      LoopRuns(env, m, st);
    }
  }

  /** `loop` and `+loop`: step the index; back when it did not cross, on when it did. */
  lemma StepCarries(env: Env, code: seq<Instr>, at: int, step: bool, off: int, st: Forth)
    requires var n := |LoopStep(step)|;
             At(code, at, Lift(LoopStep(step))) && 0 <= at + n < |code| && code[at + n] == TbzSign(11, off)
    requires Advance(step, st).Some?
    ensures var (st', crossed) := Advance(step, st).value;
            Carries(env, code, at, st, AfterTest(crossed, at + |LoopStep(step)|, off), st')
  {
    hide Reaches, Shows, Execute, LoopStep, Negative, Advance;
    var (st', crossed) := Advance(step, st).value;
    var n := |LoopStep(step)|;
    forall m | Shows(env, m, st)
      ensures exists m' :: Reaches(env, code, at, m, AfterTest(crossed, at + n, off), m')
                           && Shows(env, m', st')
    {
      LineRuns(env, code, at, LoopStep(step), m);
      LoopStepRuns(env, step, m, st);
      var m' := Execute(env, LoopStep(step), m);
      ReachesStep(env, code, at + n, m');
      ReachesThen(env, code, at, m, at + n, m', AfterTest(crossed, at + n, off), m');
    }
  }

  lemma DropCarries(env: Env, code: seq<Instr>, at: int, st: Forth)
    requires 0 <= at < |code| && code[at] == Line(AddRp(2)) && DropFrame(st).Some?
    ensures Carries(env, code, at, st, at + 1, DropFrame(st).value)
  {
    hide Reaches, Shows, Execute1;
    forall m | Shows(env, m, st)
      ensures exists m' :: Reaches(env, code, at, m, at + 1, m') && Shows(env, m', DropFrame(st).value)
    {
      ReachesStep(env, code, at, m);
      UnloopRuns(env, m, st);
    }
  }

  /** The closed loop is the open loop with `leave` at its last instruction. */
  lemma LoopAgrees(code: seq<Instr>, at: int, f: Piece, b: Piece, skipEqual: bool, step: bool,
                   leave: int, exit: int)
    requires WellFormed(f) && WellFormed(b)
    requires Agrees(code, at, AssembleLoop(f, b, skipEqual, step), leave, exit)
    ensures var g := OpenLoop(f, b, skipEqual, step);
            Agrees(code, at, g, at + |g.code| - 1, exit)
  {
    hide OpenLoop, EncBcond, EncJump;
    LoopWellFormed(f, b, skipEqual, step);
    var g := OpenLoop(f, b, skipEqual, step);
    var c := AssembleLoop(f, b, skipEqual, step);
    forall j | at <= j < at + |g.code|
      ensures code[j] == Resolved(g, j - at, at, at + |g.code| - 1, exit)
    {
      PatchedAt(g.code, g.leaves, |g.code| - 1, j - at);
      assert code[j] == Resolved(c, j - at, at, leave, exit);
    }
  }

  /** The layout of a counted loop: its head, its body, and the code that closes it. */
  ghost predicate LoopAt(code: seq<Instr>, at: int, b: Piece, skipEqual: bool, step: bool, exit: int) {
    var n := |LoopStep(step)|;
    var top := at + |DoHead(skipEqual).code|;
    var last := top + |b.code| + n + 1;
    && 0 <= at && last < |code|
    && At(code, at, Lift(DoCode()))
    && (skipEqual ==> At(code, at + |DoCode()|, Lift(QDoTest())) && code[top - 1] == Bcond(EQ, last - (top - 1)))
    && Agrees(code, top, b, last, exit)
    && At(code, top + |b.code|, Lift(LoopStep(step)))
    && code[top + |b.code| + n] == TbzSign(11, -(|b.code| + n))
    && code[last] == Line(AddRp(2))
  }

  /** The parts of an open loop, in place. */
  lemma LoopLaidOut(code: seq<Instr>, at: int, f: Piece, b: Piece, skipEqual: bool, step: bool,
                    leave: int, exit: int)
    requires WellFormed(f) && WellFormed(b) && |code| < MAX_CODE
    requires Agrees(code, at, AssembleLoop(f, b, skipEqual, step), leave, exit)
    ensures var g := OpenLoop(f, b, skipEqual, step);
            Agrees(code, at, f, at + |g.code| - 1, exit)
            && LoopAt(code, at + |f.code|, b, skipEqual, step, exit)
            && at + |g.code| == at + |f.code| + |DoHead(skipEqual).code| + |b.code| + |LoopStep(step)| + 2
  {
    hide Agrees, WellFormed, LoopStep, DoHead, AssembleLoop, OpenLoop, At, LoopAt;
    LoopAgrees(code, at, f, b, skipEqual, step, leave, exit);
    OpenSize(f, b, skipEqual, step);
    var g := OpenLoop(f, b, skipEqual, step);
    var last := at + |g.code| - 1;
    AgreesInside(code, at, g, last, exit);
    OpenParts(code, at, f, b, skipEqual, step, last, exit);
    var n := |LoopStep(step)|;
    var top := at + |f.code| + |DoHead(skipEqual).code|;
    LoopTail(code, top + |b.code|, step, |b.code| + n, last, exit);
    HeadAt(code, at + |f.code|, skipEqual, last, exit);
    LoopIsAt(code, at + |f.code|, b, skipEqual, step, exit);
  }

  lemma LoopIsAt(code: seq<Instr>, at: int, b: Piece, skipEqual: bool, step: bool, exit: int)
    requires var n := |LoopStep(step)|;
             var top := at + |DoHead(skipEqual).code|;
             var last := top + |b.code| + n + 1;
             && 0 <= at && last < |code|
             && At(code, at, Lift(DoCode()))
             && (skipEqual ==>
                   At(code, at + |DoCode()|, Lift(QDoTest())) && code[top - 1] == Bcond(EQ, last - (top - 1)))
             && Agrees(code, top, b, last, exit)
             && At(code, top + |b.code|, Lift(LoopStep(step)))
             && code[top + |b.code| + n] == TbzSign(11, -(|b.code| + n))
             && code[last] == Line(AddRp(2))
    ensures LoopAt(code, at, b, skipEqual, step, exit)
  {
    hide At, Agrees, LoopStep;
  }

  function LoopTailCode(step: bool, back: int): seq<Instr> {
    Lift(LoopStep(step)) + [EncTbzSign(11, -back), Line(AddRp(2))]
  }

  lemma OpenSize(f: Piece, b: Piece, skipEqual: bool, step: bool)
    ensures |OpenLoop(f, b, skipEqual, step).code|
         == |f.code| + |DoHead(skipEqual).code| + |b.code| + |LoopStep(step)| + 2
  {
    hide DoHead, LoopStep, EncTbzSign;
  }

  lemma OpenParts(code: seq<Instr>, at: int, f: Piece, b: Piece, skipEqual: bool, step: bool, last: int, exit: int)
    requires WellFormed(f) && WellFormed(b)
    requires Agrees(code, at, OpenLoop(f, b, skipEqual, step), last, exit)
    ensures var h := DoHead(skipEqual);
            var top := at + |f.code| + |h.code|;
            Agrees(code, at, f, last, exit) && Agrees(code, at + |f.code|, h, last, exit)
            && Agrees(code, top, b, last, exit)
            && Agrees(code, top + |b.code|, Plain(LoopTailCode(step, |b.code| + |LoopStep(step)|)), last, exit)
  {
    hide Agrees, WellFormed, LoopStep, DoHead, EncTbzSign;
    var h := DoHead(skipEqual);
    var tail := Plain(LoopTailCode(step, |b.code| + |LoopStep(step)|));
    DoHeadWellFormed(skipEqual);
    AppendWellFormed(f, h);
    AppendWellFormed(Append(f, h), b);
    AgreesAppend(code, at, Append(Append(f, h), b), tail, last, exit);
    AgreesAppend(code, at, Append(f, h), b, last, exit);
    AgreesAppend(code, at, f, h, last, exit);
  }

  lemma LoopTail(code: seq<Instr>, at: int, step: bool, back: int, last: int, exit: int)
    requires Agrees(code, at, Plain(LoopTailCode(step, back)), last, exit) && 0 <= at && 0 <= back < MAX_CODE
    ensures var n := |LoopStep(step)|;
            At(code, at, Lift(LoopStep(step))) && at + n + 1 < |code|
            && code[at + n] == TbzSign(11, -back) && code[at + n + 1] == Line(AddRp(2))
  {
    hide Agrees, LoopStep, EncTbzSign, At;
    var x := [EncTbzSign(11, -back), Line(AddRp(2))];
    var n := |LoopStep(step)|;
    AgreesPlain(code, at, Plain(LoopTailCode(step, back)), last, exit);
    AtParts(code, at, Lift(LoopStep(step)), x);
    AtTwo(code, at + n, x[0], x[1]);
    OffsetsFit(-back);
    EncodedTbz(11, -back);
  }

  lemma EncodedTbz(rt: Reg, off: int)
    requires Field(off, RANGE14) == off
    ensures EncTbzSign(rt, off) == TbzSign(rt, off)
  {
  }

  lemma AtTwo(code: seq<Instr>, pc: int, i: Instr, j: Instr)
    requires At(code, pc, [i, j])
    ensures 0 <= pc && pc + 1 < |code| && code[pc] == i && code[pc + 1] == j
  {
    assert code[pc] == code[pc..pc + 2][0] && code[pc + 1] == code[pc..pc + 2][1];
  }

  /** The head of a loop, the branch of `?do` resolved to the last instruction. */
  lemma HeadAt(code: seq<Instr>, at: int, skipEqual: bool, last: int, exit: int)
    requires Agrees(code, at, DoHead(skipEqual), last, exit) && 0 <= last < |code| < MAX_CODE
    ensures 0 <= at && at + |DoHead(skipEqual).code| <= |code| && At(code, at, Lift(DoCode()))
    ensures skipEqual ==> var k := at + |DoHead(skipEqual).code| - 1;
                          At(code, at + |DoCode()|, Lift(QDoTest())) && code[k] == Bcond(EQ, last - k)
  {
    hide Agrees, At, DoHead, WellFormed, EncBcond, DoCode, QDoTest;
    AgreesInside(code, at, DoHead(skipEqual), last, exit);
    DoHeadForm(skipEqual);
    DoHeadWellFormed(skipEqual);
    var d, q := Plain(Lift(DoCode())), Plain(Lift(QDoTest()));
    PlainWellFormed(d.code);
    PlainWellFormed(q.code);
    if skipEqual {
      AppendWellFormed(d, q);
      AgreesAppend(code, at, Append(d, q), EqualSkip(), last, exit);
      AgreesAppend(code, at, d, q, last, exit);
      AgreesPlain(code, at, d, last, exit);
      AgreesPlain(code, at + |DoCode()|, q, last, exit);
      var k := at + |DoHead(true).code| - 1;
      OffsetsFit(last - k);
      EqualSkipHere(code, k, last, exit);
    } else {
      AgreesPlain(code, at, d, last, exit);
    }
  }

  /** The open branch of `?do`. */
  function EqualSkip(): Piece {
    Plain([EncBcond(EQ, 0)]).(leaves := [0])
  }

  lemma DoHeadForm(skipEqual: bool)
    ensures var d, q := Plain(Lift(DoCode())), Plain(Lift(QDoTest()));
            DoHead(skipEqual) == if skipEqual then Append(Append(d, q), EqualSkip()) else d
    ensures |DoHead(skipEqual).code| == |DoCode()| + if skipEqual then |QDoTest()| + 1 else 0
  {
    hide EncBcond;
    assert Lift(DoCode() + QDoTest()) == Lift(DoCode()) + Lift(QDoTest());
  }

  /** It is resolved to the end of the loop. */
  lemma EqualSkipHere(code: seq<Instr>, at: int, leave: int, exit: int)
    requires Agrees(code, at, EqualSkip(), leave, exit) && Field(leave - at, RANGE19) == leave - at
    ensures 0 <= at < |code| && code[at] == Bcond(EQ, leave - at)
  {
  }

  /** The iterations of a counted loop: with the frame in place, from the top of the body to
      just past the loop. */
  lemma {:induction false} CountedSim(env: Env, code: seq<Instr>, at: int, body: Stmt, skipEqual: bool,
                                      step: bool, st: Forth, fuel: nat, o: Outcome, exit: int)
    requires Gen(body, []).Some? && Flushed(Gen(body, []).value).Some?
    requires var b := Flushed(Gen(body, []).value).value;
             b.fits && LoopAt(code, at, b, skipEqual, step, exit)
    requires ValidStmt(body) && |code| < MAX_CODE
    requires 0 <= exit < MAX_CODE
    requires EvalLoop(env.words, body, step, st, fuel) == Some(o)
    ensures !o.Left?
    ensures var b := Flushed(Gen(body, []).value).value;
            var top := at + |DoHead(skipEqual).code|;
            Carries(env, code, top, st,
                    if o.Normal? then top + |b.code| + |LoopStep(step)| + 2 else exit, o.st)
    decreases fuel, body, 7
  {
    hide Carries, Agrees, Simulates, At, DoHead, LoopStep, Gen, Flushed, Advance, DropFrame, Eval,
         WellFormed;
    var g := Gen(body, []).value;
    var b := Flushed(g).value;
    var n := |LoopStep(step)|;
    var top := at + |DoHead(skipEqual).code|;
    var last := top + |b.code| + n + 1;
    var o1 := Eval(env.words, body, st, fuel - 1).value;
    FlushedGenSim(env, code, top, body, [], st, st, fuel - 1, o1, last, exit);
    GenFlushed(body, []);
    SimulatesClosed(env, code, top, b, st, o1, last, exit);
    match o1
    case Exited(_) =>
    case Left(st1) =>
      DropCarries(env, code, last, st1);
      CarriesThen(env, code, top, st, last, st1, last + 1, o.st);
    case Normal(st1) =>
      var (st2, crossed) := Advance(step, st1).value;
      StepCarries(env, code, top + |b.code|, step, -(|b.code| + n), st1);
      var pc := AfterTest(crossed, top + |b.code| + n, -(|b.code| + n));
      CarriesThen(env, code, top, st, top + |b.code|, st1, pc, st2);
      if crossed {
        DropCarries(env, code, last, st2);
        CarriesThen(env, code, top, st, last, st2, last + 1, o.st);
      } else {
        CountedSim(env, code, at, body, skipEqual, step, st2, fuel - 1, o, exit);
        CarriesThen(env, code, top, st, top, st2, if o.Normal? then last + 1 else exit, o.st);
      }
  }

  lemma {:induction false} DoLoopSim(env: Env, code: seq<Instr>, at: int, body: Stmt, skipEqual: bool,
                                     step: bool, p: seq<Tok>, g: Piece, st: Forth, st1: Forth, fuel: nat,
                                     o: Outcome, leave: int, exit: int)
    requires Gen(DoLoop(body, skipEqual, step), p) == Some(g) && g.fits
    requires ValidStmt(body) && ValidToks(p) && |code| < MAX_CODE
    requires 0 <= leave < MAX_CODE && 0 <= exit < MAX_CODE
    requires Agrees(code, at, g, leave, exit)
    requires Run(env.words, p, st) == Some(st1)
    requires Eval(env.words, DoLoop(body, skipEqual, step), st1, fuel) == Some(o)
    ensures Simulates(env, code, at, g, st, o, leave, exit)
    decreases fuel, DoLoop(body, skipEqual, step), 0
  {
    hide Carries, Agrees, Simulates, At, FlushToks, Flushed, EnterLoop, DropFrame, WellFormed,
         Run, AssembleLoop, LoopAt, Gen, Eval, EvalLoop, DoHead, LoopStep;
    GenDoLoop(body, skipEqual, step, p, g);
    EvalDoLoop(env.words, body, skipEqual, step, st1, fuel, o);
    var f, b := FlushToks(p).value, Flushed(Gen(body, []).value).value;
    var last := at + |OpenLoop(f, b, skipEqual, step).code| - 1;
    FlushWellFormed(p);
    GenFlushed(body, []);
    CountedPend(f, b, skipEqual, step);
    LoopSize(f, b, skipEqual, step);
    LoopLaidOut(code, at, f, b, skipEqual, step, leave, exit);
    AgreesPlain(code, at, f, last, exit);
    FlushCarries(env, code, at, p, st, st1);
    var at1 := at + |f.code|;
    var st2 := EnterLoop(st1).value;
    LoopEntered(env, code, at1, b, skipEqual, step, st1, exit);
    CarriesThen(env, code, at, st, at1, st1, AfterTest(!(skipEqual && st2.rs[0] == st2.rs[1]),
                at1 + |DoHead(skipEqual).code| - 1, last - (at1 + |DoHead(skipEqual).code| - 1)), st2);
    if skipEqual && st2.rs[0] == st2.rs[1] {
      LoopLast(code, at1, b, skipEqual, step, exit);
      DropCarries(env, code, last, st2);
      CarriesThen(env, code, at, st, last, st2, last + 1, o.st);
    } else {
      CountedSim(env, code, at1, body, skipEqual, step, st2, fuel, o, exit);
      CarriesThen(env, code, at, st, at1 + |DoHead(skipEqual).code|, st2,
                  if o.Normal? then last + 1 else exit, o.st);
    }
    SimulatesClosed(env, code, at, g, st, o, leave, exit);
  }

  lemma EnterKeeps(st: Forth)
    requires EnterLoop(st).Some?
    ensures |EnterLoop(st).value.rs| >= 2
  {
  }

  lemma LoopSize(f: Piece, b: Piece, skipEqual: bool, step: bool)
    ensures var g := AssembleLoop(f, b, skipEqual, step);
            (g.fits ==> f.fits && b.fits)
            && |g.code| == |OpenLoop(f, b, skipEqual, step).code|
  {
    hide PatchBconds, LoopStep, DoHead;
  }

  lemma LoopLast(code: seq<Instr>, at: int, b: Piece, skipEqual: bool, step: bool, exit: int)
    requires LoopAt(code, at, b, skipEqual, step, exit)
    ensures var last := at + |DoHead(skipEqual).code| + |b.code| + |LoopStep(step)| + 1;
            0 <= last < |code| && code[last] == Line(AddRp(2))
  {
  }

  /** Into a counted loop, or past its body. */
  lemma LoopEntered(env: Env, code: seq<Instr>, at: int, b: Piece, skipEqual: bool, step: bool,
                    st: Forth, exit: int)
    requires LoopAt(code, at, b, skipEqual, step, exit) && EnterLoop(st).Some?
    ensures var st' := EnterLoop(st).value;
            var k := at + |DoHead(skipEqual).code| - 1;
            var last := k + |b.code| + |LoopStep(step)| + 2;
            |st'.rs| >= 2
            && Carries(env, code, at, st, AfterTest(!(skipEqual && st'.rs[0] == st'.rs[1]), k, last - k), st')
  {
    hide Carries, Agrees, At, LoopStep, EnterLoop;
    EnterKeeps(st);
    var st' := EnterLoop(st).value;
    EnterCarries(env, code, at, st);
    if skipEqual {
      var k := at + |DoHead(skipEqual).code| - 1;
      var last := k + |b.code| + |LoopStep(step)| + 2;
      SkipCarries(env, code, at + |DoCode()|, last - k, st');
      CarriesThen(env, code, at, st, at + |DoCode()|, st', AfterTest(st'.rs[0] != st'.rs[1], k, last - k), st');
    }
  }

  // ----- loops on a flag -----

  // ----- the parts of a statement's code and meaning, one unfolding each -----

  lemma GenForms(a: Stmt, b: Stmt, p: seq<Tok>, skipEqual: bool, step: bool)
    ensures Gen(If(a), p) == IfPiece(TestOf(p), Gen(a, []))
    ensures Gen(IfElse(a, b), p) == IfElsePiece(TestOf(p), Gen(a, []), Gen(b, []))
    ensures Gen(Until(a), p) == UntilPiece(FlushToks(p), Gen(a, []))
    ensures Gen(While(a, b), p) == WhilePiece(FlushToks(p), Gen(a, []), Gen(b, []))
    ensures Gen(DoLoop(b, skipEqual, step), p) == LoopPiece(FlushToks(p), Gen(b, []), skipEqual, step)
  {
    hide IfPiece, IfElsePiece, UntilPiece, WhilePiece, LoopPiece, LeafPiece, FlushToks, TestOf, GenArms, Append;
  }

  lemma GenBlock(a: Stmt, b: Stmt, p: seq<Tok>, g: Piece)
    requires Gen(Block(a, b), p) == Some(g)
    ensures Gen(a, p).Some? && Gen(b, Gen(a, p).value.pend).Some?
    ensures g == Append(Gen(a, p).value, Gen(b, Gen(a, p).value.pend).value)
  {
    hide FlushToks, Flushed, TestOf, GenArms, IfPiece, IfElsePiece, UntilPiece, WhilePiece, LoopPiece, LeafPiece,
         Append, AssembleIf, AssembleIfElse, AssembleUntil, AssembleWhile, AssembleLoop;
  }

  lemma BlockForm(words: Words, a: Stmt, b: Stmt, st: Forth, fuel: nat)
    ensures var o := Eval(words, a, st, fuel);
            Eval(words, Block(a, b), st, fuel)
            == if o.None? then None else if o.value.Normal? then Eval(words, b, o.value.st, fuel) else o
  {
    hide Run, PopFlag, EnterLoop, DropFrame, EvalLoop, EvalArms;
  }

  lemma EvalBlock(words: Words, a: Stmt, b: Stmt, st: Forth, fuel: nat, o: Outcome)
    requires Eval(words, Block(a, b), st, fuel) == Some(o)
    ensures var o1 := Eval(words, a, st, fuel);
            o1.Some? && if o1.value.Normal? then Eval(words, b, o1.value.st, fuel) == Some(o) else o == o1.value
  {
    hide Eval;
    BlockForm(words, a, b, st, fuel);
  }

  lemma AppendFits(a: Piece, b: Piece)
    ensures (Append(a, b).fits ==> a.fits && b.fits)
  {
  }

  lemma GenUntil(a: Stmt, p: seq<Tok>, g: Piece)
    requires Gen(Until(a), p) == Some(g)
    ensures FlushToks(p).Some? && Gen(a, []).Some? && TestOf(Gen(a, []).value.pend).Some?
    ensures var x := TestOf(Gen(a, []).value.pend).value;
            g == AssembleUntil(FlushToks(p).value, Gen(a, []).value, x.0, x.1)
  {
    hide Gen, FlushToks, TestOf, Flushed, AssembleIf, AssembleIfElse, AssembleUntil, AssembleWhile, AssembleLoop;
    GenForms(a, a, p, false, false);
  }

  lemma UntilForm(f: Piece, a: Piece, t: Piece, br: Branch)
    ensures var off := -(|a.code| + |t.code|);
            AssembleUntil(f, a, t, br) == Append(f, Append(Append(a, t), Plain([BranchOff(br, off)])))
    ensures var g := AssembleUntil(f, a, t, br);
            (g.fits ==> f.fits && a.fits && t.fits)
  {
    hide BranchOff, Offset;
  }

  lemma GenWhile(a: Stmt, b: Stmt, p: seq<Tok>, g: Piece)
    requires Gen(While(a, b), p) == Some(g)
    ensures FlushToks(p).Some? && Gen(a, []).Some? && TestOf(Gen(a, []).value.pend).Some?
    ensures Gen(b, []).Some? && Flushed(Gen(b, []).value).Some?
    ensures var (t, br) := TestOf(Gen(a, []).value.pend).value;
            g == AssembleWhile(FlushToks(p).value, Gen(a, []).value, t, br, Flushed(Gen(b, []).value).value)
  {
    hide Gen, FlushToks, TestOf, Flushed, AssembleIf, AssembleIfElse, AssembleUntil, AssembleWhile, AssembleLoop;
    GenForms(a, b, p, false, false);
  }

  lemma WhileForm(f: Piece, a: Piece, t: Piece, br: Branch, b: Piece)
    ensures var head := Append(Append(a, t), Plain([BranchOff(br, |b.code| + 2)]));
            AssembleWhile(f, a, t, br, b)
            == Append(f, Append(Append(head, b), Plain([EncJump(-(|head.code| + |b.code|))])))
    ensures var g := AssembleWhile(f, a, t, br, b);
            (g.fits ==> f.fits && a.fits && t.fits && b.fits)
  {
    hide BranchOff, Offset, EncJump;
  }

  lemma GenDoLoop(b: Stmt, skipEqual: bool, step: bool, p: seq<Tok>, g: Piece)
    requires Gen(DoLoop(b, skipEqual, step), p) == Some(g)
    ensures FlushToks(p).Some? && Gen(b, []).Some? && Flushed(Gen(b, []).value).Some?
    ensures g == AssembleLoop(FlushToks(p).value, Flushed(Gen(b, []).value).value, skipEqual, step)
  {
    hide Gen, FlushToks, TestOf, Flushed, AssembleIf, AssembleIfElse, AssembleUntil, AssembleWhile, AssembleLoop;
    GenForms(b, b, p, skipEqual, step);
  }

  lemma EvalDoLoop(words: Words, b: Stmt, skipEqual: bool, step: bool, st: Forth, fuel: nat, o: Outcome)
    requires Eval(words, DoLoop(b, skipEqual, step), st, fuel) == Some(o)
    ensures EnterLoop(st).Some? && |EnterLoop(st).value.rs| >= 2
    ensures var st' := EnterLoop(st).value;
            if skipEqual && st'.rs[0] == st'.rs[1] then DropFrame(st').Some? && o == Normal(DropFrame(st').value)
            else EvalLoop(words, b, step, st', fuel) == Some(o)
  {
    hide Run, PopFlag, DropFrame, EvalLoop, EvalArms;
  }

  lemma GenIf(a: Stmt, p: seq<Tok>, g: Piece)
    requires Gen(If(a), p) == Some(g)
    ensures TestOf(p).Some? && Gen(a, []).Some? && Flushed(Gen(a, []).value).Some?
    ensures g == AssembleIf(TestOf(p).value.0, TestOf(p).value.1, Flushed(Gen(a, []).value).value)
  {
    hide Gen, FlushToks, TestOf, Flushed, AssembleIf, AssembleIfElse, AssembleUntil, AssembleWhile, AssembleLoop;
    GenForms(a, a, p, false, false);
  }

  lemma GenIfElse(a: Stmt, b: Stmt, p: seq<Tok>, g: Piece)
    requires Gen(IfElse(a, b), p) == Some(g)
    ensures TestOf(p).Some? && Gen(a, []).Some? && Flushed(Gen(a, []).value).Some?
    ensures Gen(b, []).Some? && Flushed(Gen(b, []).value).Some?
    ensures g == AssembleIfElse(TestOf(p).value.0, TestOf(p).value.1, Flushed(Gen(a, []).value).value,
                                Flushed(Gen(b, []).value).value)
  {
    hide Gen, FlushToks, TestOf, Flushed, AssembleIf, AssembleIfElse, AssembleUntil, AssembleWhile, AssembleLoop;
    GenForms(a, b, p, false, false);
  }

  lemma EvalChoice(words: Words, a: Stmt, b: Stmt, st: Forth, fuel: nat)
    ensures Eval(words, If(a), st, fuel).Some? ==>
              PopFlag(st).Some? && Eval(words, If(a), st, fuel)
              == if PopFlag(st).value.0 then Eval(words, a, PopFlag(st).value.1, fuel)
                 else Some(Normal(PopFlag(st).value.1))
    ensures Eval(words, IfElse(a, b), st, fuel).Some? ==>
              PopFlag(st).Some? && Eval(words, IfElse(a, b), st, fuel)
              == Eval(words, if PopFlag(st).value.0 then a else b, PopFlag(st).value.1, fuel)
  {
    hide Run, EnterLoop, DropFrame, EvalLoop, EvalArms, PopFlag;
  }

  /** `begin … until`, from its first instruction. */
  lemma {:induction false} UntilSim(env: Env, code: seq<Instr>, at: int, a: Stmt, off: int, st: Forth,
                                    fuel: nat, o: Outcome, leave: int, exit: int)
    requires Gen(a, []).Some? && TestOf(Gen(a, []).value.pend).Some?
    requires var g := Gen(a, []).value;
             var (t, br) := TestOf(g.pend).value;
             g.fits && t.fits && off == -(|g.code| + |t.code|)
             && Agrees(code, at, Append(Append(g, t), Plain([BranchOff(br, off)])), leave, exit)
    requires ValidStmt(a) && |code| < MAX_CODE
    requires 0 <= leave < MAX_CODE && 0 <= exit < MAX_CODE
    requires Eval(env.words, Until(a), st, fuel) == Some(o)
    ensures var g := Gen(a, []).value;
            Carries(env, code, at, st,
                    match o case Normal(_) => at - off + 1 case Left(_) => leave case Exited(_) => exit,
                    o.st)
    decreases fuel, Until(a), 0
  {
    hide Carries, Agrees, Simulates, Run, Gen, TestOf, PopFlag, WellFormed;
    var g := Gen(a, []).value;
    var (t, br) := TestOf(g.pend).value;
    var x := Plain([BranchOff(br, off)]);
    var o1 := Eval(env.words, a, st, fuel - 1).value;
    TestBackLaidOut(code, at, a, off, leave, exit);
    RunNothing(env.words, st);
    GenSim(env, code, at, a, [], g, st, st, fuel - 1, o1, leave, exit);
    match o1
    case Normal(st2) =>
      var st1 := Landing(env, code, at, g, st, st2, leave, exit);
      HeadCarries(env, code, at + |g.code|, g.pend, off, st1, st2, leave, exit);
      var (flag, st3) := PopFlag(st2).value;
      var pc := AfterTest(flag, at + |g.code| + |t.code|, off);
      CarriesThen(env, code, at, st, at + |g.code|, st1, pc, st3);
      if !flag {
        UntilSim(env, code, at, a, off, st3, fuel - 1, o, leave, exit);
        CarriesThen(env, code, at, st, at, st3,
                    match o case Normal(_) => at - off + 1 case Left(_) => leave case Exited(_) => exit,
                    o.st);
      }
    case _ => Escaped(env, code, at, g, st, o1, leave, exit);
  }

  /** Where a normal piece lands, its pending tokens still to run. */
  lemma Landing(env: Env, code: seq<Instr>, at: int, g: Piece, st: Forth, st2: Forth,
                leave: int, exit: int) returns (st1: Forth)
    requires Simulates(env, code, at, g, st, Normal(st2), leave, exit)
    ensures Carries(env, code, at, st, at + |g.code|, st1) && Run(env.words, g.pend, st1) == Some(st2)
  {
    hide Carries, Run;
    st1 :| Carries(env, code, at, st, at + |g.code|, st1) && Run(env.words, g.pend, st1) == Some(st2);
  }

  lemma Landed(env: Env, code: seq<Instr>, at: int, g: Piece, st: Forth, st1: Forth, st2: Forth,
               leave: int, exit: int)
    requires Carries(env, code, at, st, at + |g.code|, st1) && Run(env.words, g.pend, st1) == Some(st2)
    ensures Simulates(env, code, at, g, st, Normal(st2), leave, exit)
  {
  }

  lemma Escaped(env: Env, code: seq<Instr>, at: int, g: Piece, st: Forth, o: Outcome,
                leave: int, exit: int)
    requires Simulates(env, code, at, g, st, o, leave, exit) && !o.Normal?
    ensures Carries(env, code, at, st, if o.Left? then leave else exit, o.st)
  {
  }

  /** A statement and the test that follows it lie one after the other. */
  lemma TestBackLaidOut(code: seq<Instr>, at: int, a: Stmt, off: int, leave: int, exit: int)
    requires Gen(a, []).Some? && TestOf(Gen(a, []).value.pend).Some? && ValidStmt(a)
    requires var g := Gen(a, []).value;
             var (t, br) := TestOf(g.pend).value;
             Agrees(code, at, Append(Append(g, t), Plain([BranchOff(br, off)])), leave, exit)
    ensures var g := Gen(a, []).value;
            var (t, br) := TestOf(g.pend).value;
            Agrees(code, at, g, leave, exit) && ValidToks(g.pend) && WellFormed(g) && WellFormed(t)
            && Agrees(code, at + |g.code|, Append(t, Plain([BranchOff(br, off)])), leave, exit)
            && 0 <= at && at + |g.code| + |t.code| + 1 <= |code|
  {
    hide Agrees, Gen, TestOf, WellFormed;
    var g := Gen(a, []).value;
    var (t, br) := TestOf(g.pend).value;
    var x := Plain([BranchOff(br, off)]);
    GenWellFormed(a, []);
    TestWellFormed(g.pend);
    AgreesInside(code, at, Append(Append(g, t), x), leave, exit);
    AppendAssoc(g, t, x);
    AgreesAppend(code, at, g, Append(t, x), leave, exit);
  }

  /** `begin … while … repeat`, from its first instruction. */
  /** Both parts of a `while` loop have code. */
  predicate WhileParts(a: Stmt, b: Stmt) {
    && Gen(a, []).Some? && TestOf(Gen(a, []).value.pend).Some?
    && Gen(b, []).Some? && Flushed(Gen(b, []).value).Some?
  }

  /** The loop up to its body. */
  function WhileHead(a: Stmt, b: Stmt): Piece
    requires WhileParts(a, b)
  {
    var g := Gen(a, []).value;
    var (t, br) := TestOf(g.pend).value;
    Append(Append(g, t), Plain([BranchOff(br, |Flushed(Gen(b, []).value).value.code| + 2)]))
  }

  lemma HeadSize(a: Stmt, b: Stmt)
    requires WhileParts(a, b)
    ensures var g := Gen(a, []).value;
            |WhileHead(a, b).code| == |g.code| + |TestOf(g.pend).value.0.code| + 1
  {
    hide Gen, TestOf, Flushed, BranchOff;
  }

  function WhileSize(a: Stmt, b: Stmt): nat
    requires WhileParts(a, b)
  {
    |WhileHead(a, b).code| + |Flushed(Gen(b, []).value).value.code| + 1
  }

  /** Head and body lie there, and the jump back after them. */
  ghost predicate WhileAt(code: seq<Instr>, at: int, a: Stmt, b: Stmt, leave: int, exit: int)
    requires WhileParts(a, b)
  {
    var fb := Flushed(Gen(b, []).value).value;
    var n := |WhileHead(a, b).code|;
    && Gen(a, []).value.fits && TestOf(Gen(a, []).value.pend).value.0.fits && fb.fits
    && Agrees(code, at, WhileHead(a, b), leave, exit)
    && Agrees(code, at + n, fb, leave, exit)
    && at + n + |fb.code| < |code|
    && code[at + n + |fb.code|] == Jump(-(n + |fb.code|))
  }

  lemma {:induction false} WhileSim(env: Env, code: seq<Instr>, at: int, a: Stmt, b: Stmt, st: Forth,
                                    fuel: nat, o: Outcome, leave: int, exit: int)
    requires WhileParts(a, b) && WhileAt(code, at, a, b, leave, exit)
    requires ValidStmt(a) && ValidStmt(b) && |code| < MAX_CODE
    requires 0 <= leave < MAX_CODE && 0 <= exit < MAX_CODE
    requires Eval(env.words, While(a, b), st, fuel) == Some(o)
    ensures Carries(env, code, at, st, Resumes(o, at + WhileSize(a, b), leave, exit), o.st)
    decreases fuel, While(a, b), 0
  {
    hide Carries, Agrees, Simulates, Run, Gen, TestOf, PopFlag, Flushed, WellFormed;
    var g, fb := Gen(a, []).value, Flushed(Gen(b, []).value).value;
    var (t, br) := TestOf(g.pend).value;
    var off := |fb.code| + 2;
    var o1 := Eval(env.words, a, st, fuel - 1).value;
    TestBackLaidOut(code, at, a, off, leave, exit);
    HeadSize(a, b);
    RunNothing(env.words, st);
    GenSim(env, code, at, a, [], g, st, st, fuel - 1, o1, leave, exit);
    match o1
    case Normal(st2) =>
      var st1 := Landing(env, code, at, g, st, st2, leave, exit);
      HeadCarries(env, code, at + |g.code|, g.pend, off, st1, st2, leave, exit);
      var (flag, st3) := PopFlag(st2).value;
      var k := at + |g.code| + |t.code|;
      CarriesThen(env, code, at, st, at + |g.code|, st1, AfterTest(flag, k, off), st3);
      if flag {
        WhileBody(env, code, at, a, b, k + 1, st, st3, fuel, o, leave, exit);
      }
    case _ => Escaped(env, code, at, g, st, o1, leave, exit);
  }

  /** The body of `while`, the jump back and the rest of the loop. */
  lemma {:induction false} WhileBody(env: Env, code: seq<Instr>, at: int, a: Stmt, b: Stmt, k: int,
                                     st: Forth, st3: Forth, fuel: nat, o: Outcome, leave: int, exit: int)
    requires fuel > 0
    requires WhileParts(a, b) && WhileAt(code, at, a, b, leave, exit) && k == at + |WhileHead(a, b).code|
    requires ValidStmt(a) && ValidStmt(b) && |code| < MAX_CODE
    requires 0 <= leave < MAX_CODE && 0 <= exit < MAX_CODE
    requires Carries(env, code, at, st, k, st3)
    requires Eval(env.words, b, st3, fuel - 1).Some?
    requires var o2 := Eval(env.words, b, st3, fuel - 1).value;
             if o2.Normal? then Eval(env.words, While(a, b), o2.st, fuel - 1) == Some(o) else o == o2
    ensures Carries(env, code, at, st, Resumes(o, at + WhileSize(a, b), leave, exit), o.st)
    decreases fuel, b, 7
  {
    hide Carries, Agrees, Simulates, Run, Gen, TestOf, PopFlag, Flushed, Eval, WellFormed, WhileHead;
    var fb := Flushed(Gen(b, []).value).value;
    var o2 := Eval(env.words, b, st3, fuel - 1).value;
    RunNothing(env.words, st3);
    FlushedGenSim(env, code, k, b, [], st3, st3, fuel - 1, o2, leave, exit);
    GenFlushed(b, []);
    SimulatesClosed(env, code, k, fb, st3, o2, leave, exit);
    CarriesThen(env, code, at, st, k, st3, EndOf(k, fb, o2, leave, exit), o2.st);
    if o2.Normal? {
      AgreesInside(code, k, fb, leave, exit);
      JumpCarries(env, code, k + |fb.code|, at - (k + |fb.code|), o2.st);
      CarriesThen(env, code, at, st, k + |fb.code|, o2.st, at, o2.st);
      WhileSim(env, code, at, a, b, o2.st, fuel - 1, o, leave, exit);
      CarriesThen(env, code, at, st, at, o2.st, Resumes(o, at + WhileSize(a, b), leave, exit), o.st);
    }
  }

  // ----- every statement -----

  /** A statement whose pending tokens are flushed at its end. */
  lemma {:induction false} FlushedGenSim(env: Env, code: seq<Instr>, at: int, s: Stmt, p: seq<Tok>,
                                         st: Forth, st1: Forth, fuel: nat, o: Outcome, leave: int, exit: int)
    requires Gen(s, p).Some? && Flushed(Gen(s, p).value).Some?
    requires Flushed(Gen(s, p).value).value.fits
    requires ValidStmt(s) && ValidToks(p) && |code| < MAX_CODE
    requires 0 <= leave < MAX_CODE && 0 <= exit < MAX_CODE
    requires Agrees(code, at, Flushed(Gen(s, p).value).value, leave, exit)
    requires Run(env.words, p, st) == Some(st1) && Eval(env.words, s, st1, fuel) == Some(o)
    ensures Simulates(env, code, at, Flushed(Gen(s, p).value).value, st, o, leave, exit)
    decreases fuel, s, 6
  {
    hide Agrees, Simulates, Run, Gen, FlushToks, Eval, WellFormed;
    var g := Gen(s, p).value;
    var f := FlushToks(g.pend).value;
    GenWellFormed(s, p);
    AgreesAppend(code, at, g, f, leave, exit);
    GenSim(env, code, at, s, p, g, st, st1, fuel, o, leave, exit);
    FlushedSim(env, code, at, g, st, o, leave, exit);
  }

  /** The arms of a `case`. */
  lemma {:induction false} ArmsSim(env: Env, code: seq<Instr>, at: int, arms: Arms, p: seq<Tok>, g: Piece,
                                   st: Forth, st1: Forth, fuel: nat, o: Outcome, leave: int, exit: int)
    requires GenArms(arms, p) == Some(g) && g.fits
    requires ValidArms(arms) && ValidToks(p) && |code| < MAX_CODE
    requires 0 <= leave < MAX_CODE && 0 <= exit < MAX_CODE
    requires Agrees(code, at, g, leave, exit)
    requires Run(env.words, p, st) == Some(st1) && EvalArms(env.words, arms, st1, fuel) == Some(o)
    ensures Simulates(env, code, at, g, st, o, leave, exit)
    decreases fuel, arms, 5
  {
    hide Carries, Agrees, Simulates, Run, Gen, TestOf, Flushed, WellFormed, AssembleIfElse, Eval;
    match arms
    case Default(last) => DefaultSim(env, code, at, last, p, g, st, st1, fuel, o, leave, exit);
    case Of(test, body, rest) => OfSim(env, code, at, test, body, rest, p, g, st, st1, fuel, o, leave, exit);
  }

  lemma {:induction false} DefaultSim(env: Env, code: seq<Instr>, at: int, last: Stmt, p: seq<Tok>, g: Piece,
                                      st: Forth, st1: Forth, fuel: nat, o: Outcome, leave: int, exit: int)
    requires GenArms(Default(last), p) == Some(g) && g.fits
    requires ValidStmt(last) && ValidToks(p) && |code| < MAX_CODE
    requires 0 <= leave < MAX_CODE && 0 <= exit < MAX_CODE
    requires Agrees(code, at, g, leave, exit)
    requires Run(env.words, p, st) == Some(st1) && EvalArms(env.words, Default(last), st1, fuel) == Some(o)
    ensures Simulates(env, code, at, g, st, o, leave, exit)
    decreases fuel, last, 7
  {
    hide Carries, Agrees, Simulates, Run, Gen, FlushToks, WellFormed, Eval;
    var d := [Stk(Drop)];
    var ga := Gen(last, p).value;
    var gd := ga.(pend := ga.pend + d);
    var o1 := Eval(env.words, last, st1, fuel).value;
    GenWellFormed(last, p);
    WithPend(ga, gd.pend);
    AgreesAppend(code, at, gd, FlushToks(gd.pend).value, leave, exit);
    SamePlace(code, at, gd, ga, leave, exit);
    GenSim(env, code, at, last, p, ga, st, st1, fuel, o1, leave, exit);
    if o1.Normal? {
      var st2 := Landing(env, code, at, ga, st, o1.st, leave, exit);
      RunAppend(env.words, ga.pend, d, st2);
      Landed(env, code, at, gd, st, st2, o.st, leave, exit);
    } else {
      Escaped(env, code, at, ga, st, o1, leave, exit);
      Escapes(env, code, at, gd, st, o1, leave, exit);
    }
    FlushedSim(env, code, at, gd, st, o, leave, exit);
  }

  lemma Escapes(env: Env, code: seq<Instr>, at: int, g: Piece, st: Forth, o: Outcome,
                leave: int, exit: int)
    requires !o.Normal? && Carries(env, code, at, st, if o.Left? then leave else exit, o.st)
    ensures Simulates(env, code, at, g, st, o, leave, exit)
  {
    hide Carries;
  }

  lemma SamePlace(code: seq<Instr>, at: int, a: Piece, b: Piece, leave: int, exit: int)
    requires Agrees(code, at, a, leave, exit)
    requires a.code == b.code && a.leaves == b.leaves && a.exits == b.exits
    ensures Agrees(code, at, b, leave, exit)
  {
  }

  lemma StepOver(words: Words, st: Forth)
    requires |st.stack| >= 3
    ensures Step(words, Stk(Over), st) == Some(st.(stack := st.stack + [Item(st.stack, 1)]))
  {
    hide AluOp.Eval, ShiftOp.Eval, CmpOp.Holds, FetchCell, StoreCell;
  }

  lemma StepEqual(words: Words, st: Forth)
    requires |st.stack| >= 3
    ensures Step(words, Cmp(Eq), st)
         == Some(st.(stack := Pop(st.stack, 2) + [Flag(Item(st.stack, 1) == Item(st.stack, 0))]))
  {
    hide AluOp.Eval, ShiftOp.Eval, FetchCell, StoreCell;
  }

  lemma RunTwo(words: Words, a: Tok, b: Tok, st: Forth, st1: Forth, st2: Forth)
    requires Step(words, a, st) == Some(st1) && Step(words, b, st1) == Some(st2)
    ensures Run(words, [a, b], st) == Some(st2)
  {
    hide Step;
    assert [a, b][1..] == [b] && [b][1..] == [];
    RunNothing(words, st2);
    assert Run(words, [b], st1) == Some(st2);
  }

  lemma PopPushed(s: seq<Cell>, v: Cell)
    ensures Pop(s + [v], 1) == s
  {
  }

  lemma PopTwo(s: seq<Cell>)
    requires |s| >= 2
    ensures Pop(s + [s[|s| - 2]], 2) == Pop(s, 1)
  {
  }

  lemma SelectorRun(words: Words, st: Forth)
    requires |st.stack| >= 3
    ensures Run(words, [Stk(Over), Cmp(Eq)], st)
         == Some(st.(stack := Pop(st.stack, 1) + [Flag(Item(st.stack, 0) == Item(st.stack, 1))]))
  {
    hide Run, Step, Pop, Flag;
    var s := st.stack;
    var st1 := st.(stack := s + [Item(s, 1)]);
    StepOver(words, st);
    StepEqual(words, st1);
    PopTwo(s);
    RunTwo(words, Stk(Over), Cmp(Eq), st, st1, st.(stack := Pop(s, 1) + [Flag(Item(s, 0) == Item(s, 1))]));
  }

  lemma FlagOnTop(st: Forth, s: seq<Cell>, b: bool)
    requires st.stack == s + [Flag(b)] && |s| >= 1
    ensures PopFlag(st) == Some((b, st.(stack := s)))
  {
    hide Flag;
    FlagIs(b);
    PopPushed(s, Flag(b));
  }

  /** `over =` before `of`, then what the branch leaves. */
  lemma SelectorTest(words: Words, st: Forth)
    requires |st.stack| >= 3
    ensures var r := Run(words, [Stk(Over), Cmp(Eq)], st);
            r.Some? && PopFlag(r.value) == Some((Item(st.stack, 0) == Item(st.stack, 1),
                                                st.(stack := Pop(st.stack, 1))))
  {
    hide Run, Flag, PopFlag;
    SelectorRun(words, st);
    var s, b := Pop(st.stack, 1), Item(st.stack, 0) == Item(st.stack, 1);
    FlagOnTop(st.(stack := s + [Flag(b)]), s, b);
  }

  lemma FlagIs(b: bool)
    ensures Flag(b) != 0 <==> b
  {
  }

  lemma {:induction false} OfSim(env: Env, code: seq<Instr>, at: int, test: Stmt, body: Stmt, rest: Arms,
                                 p: seq<Tok>, g: Piece, st: Forth, st1: Forth, fuel: nat, o: Outcome,
                                 leave: int, exit: int)
    requires GenArms(Of(test, body, rest), p) == Some(g) && g.fits
    requires ValidArms(Of(test, body, rest)) && ValidToks(p) && |code| < MAX_CODE
    requires 0 <= leave < MAX_CODE && 0 <= exit < MAX_CODE
    requires Agrees(code, at, g, leave, exit)
    requires Run(env.words, p, st) == Some(st1)
    requires EvalArms(env.words, Of(test, body, rest), st1, fuel) == Some(o)
    ensures Simulates(env, code, at, g, st, o, leave, exit)
    decreases fuel, Of(test, body, rest), 0
  {
    hide Carries, Agrees, Simulates, Run, Gen, TestOf, Flushed, WellFormed, AssembleIfElse, Eval;
    var q := [Stk(Over), Cmp(Eq)];
    var gt := Gen(test, p).value;
    var (t, br) := TestOf(gt.pend + q).value;
    var fb, gr := Flushed(Gen(body, [Stk(Drop)]).value).value, GenArms(rest, []).value;
    var ie := AssembleIfElse(t, br, fb, gr);
    var o1 := Eval(env.words, test, st1, fuel).value;
    GenWellFormed(test, p);
    AgreesAppend(code, at, gt, ie, leave, exit);
    GenSim(env, code, at, test, p, gt, st, st1, fuel, o1, leave, exit);
    if o1.Normal? {
      var at1 := at + |gt.code|;
      var st2 := Landing(env, code, at, gt, st, o1.st, leave, exit);
      SelectorTest(env.words, o1.st);
      RunAppend(env.words, gt.pend, q, st2);
      var st3 := Run(env.words, gt.pend + q, st2).value;
      GenFlushed(body, [Stk(Drop)]);
      ArmsWellFormed(rest, []);
      TestWellFormed(gt.pend + q);
      IfElseLaidOut(code, at1, t, br, fb, gr, leave, exit);
      var (flag, st4) := PopFlag(st3).value;
      if flag {
        DropSelector(env.words, o1.st);
        FlushedGenSim(env, code, at1 + |t.code| + 1, body, [Stk(Drop)], st4,
                      o1.st.(stack := Pop(o1.st.stack, 2)), fuel, o, leave, exit);
      } else {
        RunNothing(env.words, st4);
        ArmsSim(env, code, at1 + |t.code| + |fb.code| + 2, rest, [], gr, st4, st4, fuel, o, leave, exit);
      }
      IfElseSim(env, code, at1, gt.pend + q, fb, gr, st2, st3, o, leave, exit);
      SimulatesAfter(env, code, at, gt, ie, st, st2, o, leave, exit);
    } else {
      SimulatesBefore(env, code, at, gt, ie, st, o, leave, exit);
    }
  }

  lemma DropSelector(words: Words, st: Forth)
    requires |st.stack| >= 3
    ensures Run(words, [Stk(Drop)], st.(stack := Pop(st.stack, 1)))
         == Some(st.(stack := Pop(st.stack, 2)))
  {
    var st1, st2 := st.(stack := Pop(st.stack, 1)), st.(stack := Pop(st.stack, 2));
    assert Pop(Pop(st.stack, 1), 1) == Pop(st.stack, 2);
    assert Step(words, Stk(Drop), st1) == Some(st2);
    assert [Stk(Drop)][1..] == [];
    assert Run(words, [], st2) == Some(st2);
  }

  lemma IfLaidOut(code: seq<Instr>, at: int, t: Piece, br: Branch, a: Piece, leave: int, exit: int)
    requires WellFormed(t) && WellFormed(a)
    requires Agrees(code, at, AssembleIf(t, br, a), leave, exit)
    ensures Agrees(code, at + |t.code| + 1, a, leave, exit)
    ensures (AssembleIf(t, br, a).fits ==> a.fits && t.fits)
  {
    hide Agrees, WellFormed, BranchOff;
    var x := Plain([BranchOff(br, |a.code| + 1)]);
    PlainWellFormed(x.code);
    AppendWellFormed(t, x);
    AgreesAppend(code, at, Append(t, x), a, leave, exit);
  }

  /** A begin loop behind the flushed run before it. */
  lemma {:induction false} BeginUntilSim(env: Env, code: seq<Instr>, at: int, a: Stmt, p: seq<Tok>, g: Piece,
                                         st: Forth, st1: Forth, fuel: nat, o: Outcome, leave: int, exit: int)
    requires Gen(Until(a), p) == Some(g) && g.fits
    requires ValidStmt(a) && ValidToks(p) && |code| < MAX_CODE
    requires 0 <= leave < MAX_CODE && 0 <= exit < MAX_CODE
    requires Agrees(code, at, g, leave, exit)
    requires Run(env.words, p, st) == Some(st1) && Eval(env.words, Until(a), st1, fuel) == Some(o)
    ensures Simulates(env, code, at, g, st, o, leave, exit)
    decreases fuel, Until(a), 1
  {
    hide Carries, Agrees, Simulates, Run, FlushToks, TestOf, WellFormed, Eval, BranchOff, At, Gen, AssembleUntil;
    GenUntil(a, p, g);
    var f, ga := FlushToks(p).value, Gen(a, []).value;
    var (t, br) := TestOf(ga.pend).value;
    UntilForm(f, ga, t, br);
    var off := -(|ga.code| + |t.code|);
    var loop := Append(Append(ga, t), Plain([BranchOff(br, off)]));
    FlushWellFormed(p);
    AgreesAppend(code, at, f, loop, leave, exit);
    AgreesPlain(code, at, f, leave, exit);
    FlushCarries(env, code, at, p, st, st1);
    UntilSim(env, code, at + |f.code|, a, off, st1, fuel, o, leave, exit);
    SimulatesClosed(env, code, at + |f.code|, loop, st1, o, leave, exit);
    SimulatesAfter(env, code, at, f, loop, st, st1, o, leave, exit);
  }

  lemma {:induction false} BeginWhileSim(env: Env, code: seq<Instr>, at: int, a: Stmt, b: Stmt, p: seq<Tok>,
                                         g: Piece, st: Forth, st1: Forth, fuel: nat, o: Outcome,
                                         leave: int, exit: int)
    requires Gen(While(a, b), p) == Some(g) && g.fits
    requires ValidStmt(a) && ValidStmt(b) && ValidToks(p) && |code| < MAX_CODE
    requires 0 <= leave < MAX_CODE && 0 <= exit < MAX_CODE
    requires Agrees(code, at, g, leave, exit)
    requires Run(env.words, p, st) == Some(st1) && Eval(env.words, While(a, b), st1, fuel) == Some(o)
    ensures Simulates(env, code, at, g, st, o, leave, exit)
    decreases fuel, While(a, b), 1
  {
    hide Carries, Agrees, Simulates, Run, FlushToks, TestOf, WellFormed, Eval, EncJump, Flushed, BranchOff, At, Gen,
         AssembleWhile;
    GenWhile(a, b, p, g);
    var f, ga, fb := FlushToks(p).value, Gen(a, []).value, Flushed(Gen(b, []).value).value;
    var (t, br) := TestOf(ga.pend).value;
    WhileForm(f, ga, t, br, fb);
    var x := Plain([BranchOff(br, |fb.code| + 2)]);
    var head := Append(Append(ga, t), x);
    var back := -(|head.code| + |fb.code|);
    var j := Plain([EncJump(back)]);
    var loop := Append(Append(head, fb), j);
    FlushWellFormed(p);
    GenWellFormed(a, []);
    GenFlushed(b, []);
    TestWellFormed(ga.pend);
    PlainWellFormed(x.code);
    AppendWellFormed(ga, t);
    AppendWellFormed(Append(ga, t), x);
    AppendWellFormed(head, fb);
    AgreesInside(code, at, g, leave, exit);
    AgreesAppend(code, at, f, loop, leave, exit);
    AgreesPlain(code, at, f, leave, exit);
    var at1 := at + |f.code|;
    AgreesAppend(code, at1, Append(head, fb), j, leave, exit);
    AgreesAppend(code, at1, head, fb, leave, exit);
    AgreesPlain(code, at1 + |head.code| + |fb.code|, j, leave, exit);
    AtOne(code, at1 + |head.code| + |fb.code|, EncJump(back));
    OffsetsFit(back);
    EncodedJump(back);
    FlushCarries(env, code, at, p, st, st1);
    WhileSim(env, code, at1, a, b, st1, fuel, o, leave, exit);
    SimulatesClosed(env, code, at1, loop, st1, o, leave, exit);
    SimulatesAfter(env, code, at, f, loop, st, st1, o, leave, exit);
  }

  lemma EncodedJump(off: int)
    requires Field(off, RANGE26) == off
    ensures EncJump(off) == Jump(off)
  {
  }

  /** The flushed run before a piece, and then the piece. */
  lemma FlushedFirst(env: Env, code: seq<Instr>, at: int, p: seq<Tok>, x: Piece, st: Forth, st1: Forth, o: Outcome,
                     leave: int, exit: int)
    requires FlushToks(p).Some? && FlushToks(p).value.fits && ValidToks(p)
    requires Agrees(code, at, FlushToks(p).value, leave, exit) && Run(env.words, p, st) == Some(st1)
    requires Simulates(env, code, at + |FlushToks(p).value.code|, x, st1, o, leave, exit)
    ensures Simulates(env, code, at, Append(FlushToks(p).value, x), st, o, leave, exit)
  {
    hide Carries, Run, FlushToks, Agrees, Simulates, WellFormed, At, Append;
    FlushWellFormed(p);
    AgreesPlain(code, at, FlushToks(p).value, leave, exit);
    FlushCarries(env, code, at, p, st, st1);
    SimulatesAfter(env, code, at, FlushToks(p).value, x, st, st1, o, leave, exit);
  }

  /** Statements that do nothing but branch or drop the loop frame. */
  lemma LeafSim(env: Env, code: seq<Instr>, at: int, s: Stmt, p: seq<Tok>, g: Piece, st: Forth, st1: Forth,
                fuel: nat, o: Outcome, leave: int, exit: int)
    requires s.Leave? || s.Exit? || s.Unloop?
    requires Gen(s, p) == Some(g) && g.fits && ValidToks(p) && |code| < MAX_CODE
    requires 0 <= leave < MAX_CODE && 0 <= exit < MAX_CODE
    requires Agrees(code, at, g, leave, exit)
    requires Run(env.words, p, st) == Some(st1) && Eval(env.words, s, st1, fuel) == Some(o)
    ensures Simulates(env, code, at, g, st, o, leave, exit)
  {
    hide Carries, Run, FlushToks, Agrees, Simulates, Gen, Eval, LeafOf, WellFormed, At, Append;
    LeafForm(s, p);
    var f := FlushToks(p).value;
    var x := LeafOf(s);
    AppendSize(f, x);
    FlushWellFormed(p);
    AgreesInside(code, at, g, leave, exit);
    AgreesAppend(code, at, f, x, leave, exit);
    OneLeafSim(env, code, at + |f.code|, s, st1, fuel, o, leave, exit);
    FlushedFirst(env, code, at, p, x, st, st1, o, leave, exit);
  }

  lemma LeafForm(s: Stmt, p: seq<Tok>)
    requires (s.Leave? || s.Exit? || s.Unloop?) && Gen(s, p).Some?
    ensures FlushToks(p).Some? && Gen(s, p).value == Append(FlushToks(p).value, LeafOf(s)) && |LeafOf(s).code| == 1
  {
    hide FlushToks, EncBcond, EncJump, Append;
  }

  function LeafOf(s: Stmt): Piece {
    match s
    case Leave => LeaveCode()
    case Exit => ExitCode()
    case _ => Plain([Line(Branches.Unloop())])
  }

  /** The instruction of `leave`, `exit` or `unloop`. */
  lemma OneLeafSim(env: Env, code: seq<Instr>, at: int, s: Stmt, st: Forth, fuel: nat, o: Outcome,
                   leave: int, exit: int)
    requires s.Leave? || s.Exit? || s.Unloop?
    requires 0 <= at < |code| < MAX_CODE && 0 <= leave < MAX_CODE && 0 <= exit < MAX_CODE
    requires Agrees(code, at, LeafOf(s), leave, exit)
    requires Eval(env.words, s, st, fuel) == Some(o)
    ensures Simulates(env, code, at, LeafOf(s), st, o, leave, exit)
  {
    hide Carries, Agrees, DropFrame, Simulates, Run, Eval, LeafOf, EncBcond, EncJump;
    LeafEval(env.words, s, st, fuel);
    LeafAt(code, at, s, leave, exit);
    match s {
      case Leave => AlwaysCarries(env, code, at, leave - at, st);
      case Exit => JumpCarries(env, code, at, exit - at, st);
      case _ => DropCarries(env, code, at, st);
    }
    SimulatesClosed(env, code, at, LeafOf(s), st, o, leave, exit);
  }

  lemma LeafEval(words: Words, s: Stmt, st: Forth, fuel: nat)
    ensures s.Leave? ==> Eval(words, s, st, fuel) == Some(Left(st))
    ensures s.Exit? ==> Eval(words, s, st, fuel) == Some(Exited(st))
    ensures s.Unloop? ==>
              Eval(words, s, st, fuel) == if DropFrame(st).Some? then Some(Normal(DropFrame(st).value)) else None
  {
    hide DropFrame, Run, PopFlag, EnterLoop, EvalLoop, EvalArms;
  }

  lemma LeafAt(code: seq<Instr>, at: int, s: Stmt, leave: int, exit: int)
    requires s.Leave? || s.Exit? || s.Unloop?
    requires 0 <= at < |code| < MAX_CODE && 0 <= leave < MAX_CODE && 0 <= exit < MAX_CODE
    requires Agrees(code, at, LeafOf(s), leave, exit)
    ensures |LeafOf(s).code| == 1 && LeafOf(s).pend == []
    ensures s.Leave? ==> code[at] == Bcond(AL, leave - at)
    ensures s.Exit? ==> code[at] == Jump(exit - at)
    ensures s.Unloop? ==> code[at] == Line(Branches.Unloop())
  {
    hide Agrees, Field;
    LeafHere(code, at, LeafOf(s), leave, exit);
    OffsetsFit(leave - at);
    OffsetsFit(exit - at);
  }

  lemma LeafHere(code: seq<Instr>, at: int, x: Piece, leave: int, exit: int)
    requires |x.code| == 1 && Agrees(code, at, x, leave, exit)
    ensures 0 <= at < |code| && code[at] == Resolved(x, 0, at, leave, exit)
  {
  }

  lemma AlwaysCarries(env: Env, code: seq<Instr>, pc: int, off: int, st: Forth)
    requires 0 <= pc < |code| && code[pc] == Bcond(AL, off)
    ensures Carries(env, code, pc, st, pc + off, st)
  {
    hide Reaches, Shows;
    forall m | Shows(env, m, st)
      ensures exists m' :: Reaches(env, code, pc, m, pc + off, m') && Shows(env, m', st)
    {
      ReachesStep(env, code, pc, m);
    }
  }

  lemma RunsSim(env: Env, code: seq<Instr>, at: int, run: seq<Tok>, p: seq<Tok>, g: Piece, st: Forth,
                st1: Forth, fuel: nat, o: Outcome, leave: int, exit: int)
    requires Gen(Toks(run), p) == Some(g)
    requires Run(env.words, p, st) == Some(st1) && Eval(env.words, Toks(run), st1, fuel) == Some(o)
    ensures Simulates(env, code, at, g, st, o, leave, exit)
  {
    hide Carries, Run;
    CarriesSelf(env, code, at, st);
    RunAppend(env.words, p, run, st);
    Landed(env, code, at, g, st, st, o.st, leave, exit);
  }

  lemma {:induction false} BlockSim(env: Env, code: seq<Instr>, at: int, a: Stmt, b: Stmt, p: seq<Tok>,
                                    g: Piece, st: Forth, st1: Forth, fuel: nat, o: Outcome,
                                    leave: int, exit: int)
    requires Gen(Block(a, b), p) == Some(g) && g.fits
    requires ValidStmt(a) && ValidStmt(b) && ValidToks(p) && |code| < MAX_CODE
    requires 0 <= leave < MAX_CODE && 0 <= exit < MAX_CODE
    requires Agrees(code, at, g, leave, exit)
    requires Run(env.words, p, st) == Some(st1) && Eval(env.words, Block(a, b), st1, fuel) == Some(o)
    ensures Simulates(env, code, at, g, st, o, leave, exit)
    decreases fuel, Block(a, b), 0
  {
    hide Carries, Agrees, Simulates, Run, WellFormed, Gen, Eval, Append;
    GenBlock(a, b, p, g);
    EvalBlock(env.words, a, b, st1, fuel, o);
    var ga := Gen(a, p).value;
    var gb := Gen(b, ga.pend).value;
    AppendFits(ga, gb);
    var o1 := Eval(env.words, a, st1, fuel).value;
    GenWellFormed(a, p);
    AgreesAppend(code, at, ga, gb, leave, exit);
    GenSim(env, code, at, a, p, ga, st, st1, fuel, o1, leave, exit);
    if o1.Normal? {
      var st2 := Landing(env, code, at, ga, st, o1.st, leave, exit);
      GenSim(env, code, at + |ga.code|, b, ga.pend, gb, st2, o1.st, fuel, o, leave, exit);
      SimulatesAfter(env, code, at, ga, gb, st, st2, o, leave, exit);
    } else {
      SimulatesBefore(env, code, at, ga, gb, st, o, leave, exit);
    }
  }

  lemma {:induction false} GenIfSim(env: Env, code: seq<Instr>, at: int, a: Stmt, p: seq<Tok>, g: Piece,
                                    st: Forth, st1: Forth, fuel: nat, o: Outcome, leave: int, exit: int)
    requires Gen(If(a), p) == Some(g) && g.fits
    requires ValidStmt(a) && ValidToks(p) && |code| < MAX_CODE
    requires 0 <= leave < MAX_CODE && 0 <= exit < MAX_CODE
    requires Agrees(code, at, g, leave, exit)
    requires Run(env.words, p, st) == Some(st1) && Eval(env.words, If(a), st1, fuel) == Some(o)
    ensures Simulates(env, code, at, g, st, o, leave, exit)
    decreases fuel, If(a), 0
  {
    hide Carries, Agrees, Simulates, Run, TestOf, Flushed, WellFormed, AssembleIf, PopFlag, Gen, Eval;
    GenIf(a, p, g);
    EvalChoice(env.words, a, a, st1, fuel);
    var (t, br) := TestOf(p).value;
    var fa := Flushed(Gen(a, []).value).value;
    GenFlushed(a, []);
    TestWellFormed(p);
    IfLaidOut(code, at, t, br, fa, leave, exit);
    var (flag, st2) := PopFlag(st1).value;
    if flag {
      RunNothing(env.words, st2);
      FlushedGenSim(env, code, at + |t.code| + 1, a, [], st2, st2, fuel, o, leave, exit);
    }
    IfSim(env, code, at, p, fa, st, st1, o, leave, exit);
  }

  lemma {:induction false} GenIfElseSim(env: Env, code: seq<Instr>, at: int, a: Stmt, b: Stmt, p: seq<Tok>,
                                        g: Piece, st: Forth, st1: Forth, fuel: nat, o: Outcome,
                                        leave: int, exit: int)
    requires Gen(IfElse(a, b), p) == Some(g) && g.fits
    requires ValidStmt(a) && ValidStmt(b) && ValidToks(p) && |code| < MAX_CODE
    requires 0 <= leave < MAX_CODE && 0 <= exit < MAX_CODE
    requires Agrees(code, at, g, leave, exit)
    requires Run(env.words, p, st) == Some(st1) && Eval(env.words, IfElse(a, b), st1, fuel) == Some(o)
    ensures Simulates(env, code, at, g, st, o, leave, exit)
    decreases fuel, IfElse(a, b), 0
  {
    hide Carries, Agrees, Simulates, Run, TestOf, Flushed, WellFormed, AssembleIfElse, PopFlag, Gen, Eval;
    GenIfElse(a, b, p, g);
    EvalChoice(env.words, a, b, st1, fuel);
    var (t, br) := TestOf(p).value;
    var fa, fb := Flushed(Gen(a, []).value).value, Flushed(Gen(b, []).value).value;
    GenFlushed(a, []);
    GenFlushed(b, []);
    TestWellFormed(p);
    IfElseLaidOut(code, at, t, br, fa, fb, leave, exit);
    var (flag, st2) := PopFlag(st1).value;
    RunNothing(env.words, st2);
    if flag {
      FlushedGenSim(env, code, at + |t.code| + 1, a, [], st2, st2, fuel, o, leave, exit);
    } else {
      FlushedGenSim(env, code, at + |t.code| + |fa.code| + 2, b, [], st2, st2, fuel, o, leave, exit);
    }
    IfElseSim(env, code, at, p, fa, fb, st, st1, o, leave, exit);
  }

  lemma {:induction false} CaseSim(env: Env, code: seq<Instr>, at: int, arms: Arms, p: seq<Tok>, g: Piece,
                                   st: Forth, st1: Forth, fuel: nat, o: Outcome, leave: int, exit: int)
    requires Gen(Case(arms), p) == Some(g) && g.fits
    requires ValidArms(arms) && ValidToks(p) && |code| < MAX_CODE
    requires 0 <= leave < MAX_CODE && 0 <= exit < MAX_CODE
    requires Agrees(code, at, g, leave, exit)
    requires Run(env.words, p, st) == Some(st1) && Eval(env.words, Case(arms), st1, fuel) == Some(o)
    ensures Simulates(env, code, at, g, st, o, leave, exit)
    decreases fuel, Case(arms), 0
  {
    hide Carries, Agrees, Simulates, Run, GenArms, EvalArms;
    ArmsSim(env, code, at, arms, p, g, st, st1, fuel, o, leave, exit);
  }

  /** The branching code of a statement does what the statement says: started at its first
      instruction from any canonical machine, it ends at its last with the pending tokens
      still to run, or at the target of `leave` or `exit`, in the state of the meaning. */
  lemma {:induction false} GenSim(env: Env, code: seq<Instr>, at: int, s: Stmt, p: seq<Tok>, g: Piece,
                                  st: Forth, st1: Forth, fuel: nat, o: Outcome, leave: int, exit: int)
    requires Gen(s, p) == Some(g) && g.fits
    requires ValidStmt(s) && ValidToks(p) && |code| < MAX_CODE
    requires 0 <= leave < MAX_CODE && 0 <= exit < MAX_CODE
    requires Agrees(code, at, g, leave, exit)
    requires Run(env.words, p, st) == Some(st1) && Eval(env.words, s, st1, fuel) == Some(o)
    ensures Simulates(env, code, at, g, st, o, leave, exit)
    decreases fuel, s, 5
  {
    hide Carries, Agrees, Simulates, Run, Gen, WellFormed, Eval;
    match s
    case Toks(run) => RunsSim(env, code, at, run, p, g, st, st1, fuel, o, leave, exit);
    case Block(a, b) => BlockSim(env, code, at, a, b, p, g, st, st1, fuel, o, leave, exit);
    case If(a) => GenIfSim(env, code, at, a, p, g, st, st1, fuel, o, leave, exit);
    case IfElse(a, b) => GenIfElseSim(env, code, at, a, b, p, g, st, st1, fuel, o, leave, exit);
    case Until(a) => BeginUntilSim(env, code, at, a, p, g, st, st1, fuel, o, leave, exit);
    case While(a, b) => BeginWhileSim(env, code, at, a, b, p, g, st, st1, fuel, o, leave, exit);
    case DoLoop(b, skipEqual, step) =>
      DoLoopSim(env, code, at, b, skipEqual, step, p, g, st, st1, fuel, o, leave, exit);
    case Case(arms) => CaseSim(env, code, at, arms, p, g, st, st1, fuel, o, leave, exit);
    case _ => LeafSim(env, code, at, s, p, g, st, st1, fuel, o, leave, exit);
  }
}
