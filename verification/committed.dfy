/** A committed definition, run from its first instruction, does what its structured source
    says and hands control back to its caller or on to the word it ends in. */
module Committed {
  import opened Options
  import opened Cells
  import opened Tokens
  import opened Machine
  import opened Branches
  import opened Structured
  import opened Flow
  import opened Compiler
  import opened Backpatch

  // ----- leaving a statement takes a branch out of its code -----

  /** The branches out of a part are branches out of the whole. */
  predicate Within(a: Piece, g: Piece) {
    (a.leaves != [] ==> g.leaves != []) && (a.exits != [] ==> g.exits != [])
  }

  /** If the statement ends this way, its code has a branch for it. */
  predicate HasBranch(o: Outcome, g: Piece) {
    (o.Left? ==> g.leaves != []) && (o.Exited? ==> g.exits != [])
  }

  lemma WithinAppend(a: Piece, b: Piece)
    ensures Within(a, Append(a, b)) && Within(b, Append(a, b))
  {
  }

  lemma WithinAssembled(f: Piece, a: Piece, t: Piece, br: Branch, b: Piece)
    ensures Within(a, AssembleIf(t, br, a))
    ensures Within(a, AssembleIfElse(t, br, a, b)) && Within(b, AssembleIfElse(t, br, a, b))
    ensures Within(a, AssembleUntil(f, a, t, br))
    ensures Within(a, AssembleWhile(f, a, t, br, b)) && Within(b, AssembleWhile(f, a, t, br, b))
  {
    hide BranchOff, EncJump;
  }

  lemma WithinLoop(f: Piece, b: Piece, skipEqual: bool, step: bool)
    ensures b.exits != [] ==> AssembleLoop(f, b, skipEqual, step).exits != []
  {
    hide PatchBconds, DoHead, LoopStep;
  }

  lemma WithinFlushed(g: Piece)
    requires Flushed(g).Some?
    ensures Within(g, Flushed(g).value)
  {
    hide FlushToks;
  }

  lemma {:induction false} EndsByBranch(words: Words, s: Stmt, p: seq<Tok>, g: Piece, st: Forth, fuel: nat,
                                        o: Outcome)
    requires Gen(s, p) == Some(g) && Eval(words, s, st, fuel) == Some(o)
    ensures HasBranch(o, g)
    decreases fuel, s, 1
  {
    hide Within, AssembleIf, AssembleIfElse, AssembleUntil, AssembleWhile, AssembleLoop, Flushed, FlushToks,
         TestOf, PopFlag, EnterLoop, Run, Append, EvalLoop, EvalArms, GenArms, Eval, Gen;
    match s
    case Block(a, b) => BlockByBranch(words, a, b, p, g, st, fuel, o);
    case If(a) => IfByBranch(words, a, p, g, st, fuel, o);
    case IfElse(a, b) => IfElseByBranch(words, a, b, p, g, st, fuel, o);
    case Until(a) => UntilByBranch(words, a, p, g, st, fuel, o);
    case While(a, b) => WhileByBranch(words, a, b, p, g, st, fuel, o);
    case DoLoop(b, skipEqual, step) => CountedByBranch(words, b, skipEqual, step, p, g, st, fuel, o);
    case Case(arms) => CaseByBranch(words, arms, p, g, st, fuel, o);
    case _ => LeafByBranch(words, s, p, g, st, fuel, o);
  }

  lemma LeafByBranch(words: Words, s: Stmt, p: seq<Tok>, g: Piece, st: Forth, fuel: nat, o: Outcome)
    requires s.Toks? || s.Leave? || s.Exit? || s.Unloop?
    requires Gen(s, p) == Some(g) && Eval(words, s, st, fuel) == Some(o)
    ensures HasBranch(o, g)
  {
    hide Run, FlushToks, EncBcond, EncJump;
    if s.Leave? {
      WithinAppend(FlushToks(p).value, Plain([EncBcond(AL, 0)]).(leaves := [0]));
    } else if s.Exit? {
      WithinAppend(FlushToks(p).value, Plain([EncJump(0)]).(exits := [0]));
    }
  }

  lemma {:induction false} BlockByBranch(words: Words, a: Stmt, b: Stmt, p: seq<Tok>, g: Piece, st: Forth,
                                         fuel: nat, o: Outcome)
    requires Gen(Block(a, b), p) == Some(g) && Eval(words, Block(a, b), st, fuel) == Some(o)
    ensures HasBranch(o, g)
    decreases fuel, Block(a, b), 0
  {
    hide Append;
    var ga := Gen(a, p).value;
    var gb := Gen(b, ga.pend).value;
    var o1 := Eval(words, a, st, fuel).value;
    WithinAppend(ga, gb);
    EndsByBranch(words, a, p, ga, st, fuel, o1);
    if o1.Normal? {
      EndsByBranch(words, b, ga.pend, gb, o1.st, fuel, o);
    }
  }

  lemma {:induction false} IfByBranch(words: Words, a: Stmt, p: seq<Tok>, g: Piece, st: Forth, fuel: nat, o: Outcome)
    requires Gen(If(a), p) == Some(g) && Eval(words, If(a), st, fuel) == Some(o)
    ensures HasBranch(o, g)
    decreases fuel, If(a), 0
  {
    hide AssembleIf, AssembleIfElse, Flushed, TestOf, PopFlag, Gen, Eval;
    GenForms(a, a, p, false, false);
    EvalChoice(words, a, a, st, fuel);
    var (t, br) := TestOf(p).value;
    var (flag, st') := PopFlag(st).value;
    var ga := Gen(a, []).value;
    WithinFlushed(ga);
    WithinAssembled(t, Flushed(ga).value, t, br, t);
    if flag {
      EndsByBranch(words, a, [], ga, st', fuel, o);
    }
  }

  lemma {:induction false} IfElseByBranch(words: Words, a: Stmt, b: Stmt, p: seq<Tok>, g: Piece, st: Forth, fuel: nat,
                                          o: Outcome)
    requires Gen(IfElse(a, b), p) == Some(g) && Eval(words, IfElse(a, b), st, fuel) == Some(o)
    ensures HasBranch(o, g)
    decreases fuel, IfElse(a, b), 0
  {
    hide AssembleIf, AssembleIfElse, Flushed, TestOf, PopFlag, Gen, Eval, Within, HasBranch;
    GenForms(a, b, p, false, false);
    EvalChoice(words, a, b, st, fuel);
    var (t, br) := TestOf(p).value;
    var (flag, st') := PopFlag(st).value;
    var ga, gb := Gen(a, []).value, Gen(b, []).value;
    WithinIfElse(t, br, ga, gb);
    if flag {
      EndsByBranch(words, a, [], ga, st', fuel, o);
      HasBranchWithin(o, ga, g);
    } else {
      EndsByBranch(words, b, [], gb, st', fuel, o);
      HasBranchWithin(o, gb, g);
    }
  }

  lemma WithinIfElse(t: Piece, br: Branch, a: Piece, b: Piece)
    requires Flushed(a).Some? && Flushed(b).Some?
    ensures var g := AssembleIfElse(t, br, Flushed(a).value, Flushed(b).value);
            Within(a, g) && Within(b, g)
  {
    hide AssembleIfElse, Flushed;
    WithinFlushed(a);
    WithinFlushed(b);
    WithinAssembled(t, Flushed(a).value, t, br, Flushed(b).value);
  }

  lemma HasBranchWithin(o: Outcome, a: Piece, g: Piece)
    requires HasBranch(o, a) && Within(a, g)
    ensures HasBranch(o, g)
  {
  }

  lemma {:induction false} UntilByBranch(words: Words, a: Stmt, p: seq<Tok>, g: Piece, st: Forth, fuel: nat,
                                         o: Outcome)
    requires Gen(Until(a), p) == Some(g) && Eval(words, Until(a), st, fuel) == Some(o)
    ensures HasBranch(o, g)
    decreases fuel, Until(a), 0
  {
    hide AssembleUntil, Within, TestOf, PopFlag, FlushToks;
    var f, ga := FlushToks(p).value, Gen(a, []).value;
    var (t, br) := TestOf(ga.pend).value;
    WithinAssembled(f, ga, t, br, t);
    UntilRound(words, a, g, ga, st, fuel, o);
  }

  lemma {:induction false} UntilRound(words: Words, a: Stmt, g: Piece, ga: Piece, st: Forth,
                                      fuel: nat, o: Outcome)
    requires Gen(a, []) == Some(ga) && Within(ga, g) && Eval(words, Until(a), st, fuel) == Some(o)
    ensures HasBranch(o, g)
    decreases fuel, a, 2
  {
    hide Gen, PopFlag;
    var o1 := Eval(words, a, st, fuel - 1).value;
    EndsByBranch(words, a, [], ga, st, fuel - 1, o1);
    if o1.Normal? {
      var (flag, st') := PopFlag(o1.st).value;
      if !flag {
        UntilRound(words, a, g, ga, st', fuel - 1, o);
      }
    }
  }

  lemma {:induction false} WhileByBranch(words: Words, a: Stmt, b: Stmt, p: seq<Tok>, g: Piece, st: Forth,
                                         fuel: nat, o: Outcome)
    requires Gen(While(a, b), p) == Some(g) && Eval(words, While(a, b), st, fuel) == Some(o)
    ensures HasBranch(o, g)
    decreases fuel, While(a, b), 0
  {
    hide AssembleWhile, Within, Flushed, TestOf, PopFlag, FlushToks;
    var f, ga, gb := FlushToks(p).value, Gen(a, []).value, Gen(b, []).value;
    var (t, br) := TestOf(ga.pend).value;
    WithinFlushed(gb);
    WithinAssembled(f, ga, t, br, Flushed(gb).value);
    WithinTrans(gb, Flushed(gb).value, g);
    WhileRound(words, a, b, g, ga, gb, st, fuel, o);
  }

  lemma WithinTrans(a: Piece, b: Piece, c: Piece)
    requires Within(a, b) && Within(b, c)
    ensures Within(a, c)
  {
  }

  lemma {:induction false} WhileRound(words: Words, a: Stmt, b: Stmt, g: Piece, ga: Piece, gb: Piece, st: Forth,
                                      fuel: nat, o: Outcome)
    requires Gen(a, []) == Some(ga) && Within(ga, g) && Gen(b, []) == Some(gb) && Within(gb, g)
    requires Eval(words, While(a, b), st, fuel) == Some(o)
    ensures HasBranch(o, g)
    decreases fuel, a, 2
  {
    hide Gen, PopFlag;
    var o1 := Eval(words, a, st, fuel - 1).value;
    EndsByBranch(words, a, [], ga, st, fuel - 1, o1);
    if o1.Normal? {
      var (flag, st') := PopFlag(o1.st).value;
      if flag {
        var o2 := Eval(words, b, st', fuel - 1).value;
        EndsByBranch(words, b, [], gb, st', fuel - 1, o2);
        if o2.Normal? {
          WhileRound(words, a, b, g, ga, gb, o2.st, fuel - 1, o);
        }
      }
    }
  }

  lemma {:induction false} CountedByBranch(words: Words, b: Stmt, skipEqual: bool, step: bool, p: seq<Tok>,
                                           g: Piece, st: Forth, fuel: nat, o: Outcome)
    requires Gen(DoLoop(b, skipEqual, step), p) == Some(g)
    requires Eval(words, DoLoop(b, skipEqual, step), st, fuel) == Some(o)
    ensures HasBranch(o, g)
    decreases fuel, DoLoop(b, skipEqual, step), 0
  {
    hide AssembleLoop, Flushed, EnterLoop, DropFrame, FlushToks, EvalLoop;
    var gb := Gen(b, []).value;
    var f := FlushToks(p).value;
    WithinFlushed(gb);
    WithinLoop(f, Flushed(gb).value, skipEqual, step);
    var st' := EnterLoop(st).value;
    if EvalLoop(words, b, step, st', fuel) == Some(o) {
      IterationsByBranch(words, b, step, gb, st', fuel, o);
    }
  }

  lemma {:induction false} IterationsByBranch(words: Words, b: Stmt, step: bool, g: Piece, st: Forth, fuel: nat,
                                              o: Outcome)
    requires Gen(b, []) == Some(g) && EvalLoop(words, b, step, st, fuel) == Some(o)
    ensures !o.Left? && (o.Exited? ==> g.exits != [])
    decreases fuel, b, 2
  {
    hide Advance, DropFrame, Eval, Gen;
    var o1 := Eval(words, b, st, fuel - 1).value;
    EndsByBranch(words, b, [], g, st, fuel - 1, o1);
    if o1.Normal? {
      var (st2, crossed) := Advance(step, o1.st).value;
      if !crossed {
        IterationsByBranch(words, b, step, g, st2, fuel - 1, o);
      }
    }
  }

  lemma {:induction false} CaseByBranch(words: Words, arms: Arms, p: seq<Tok>, g: Piece, st: Forth, fuel: nat,
                                        o: Outcome)
    requires Gen(Case(arms), p) == Some(g) && Eval(words, Case(arms), st, fuel) == Some(o)
    ensures HasBranch(o, g)
    decreases fuel, Case(arms), 0
  {
    hide GenArms, EvalArms;
    ArmsByBranch(words, arms, p, g, st, fuel, o);
  }

  lemma {:induction false} ArmsByBranch(words: Words, arms: Arms, p: seq<Tok>, g: Piece, st: Forth, fuel: nat,
                                        o: Outcome)
    requires GenArms(arms, p) == Some(g) && EvalArms(words, arms, st, fuel) == Some(o)
    ensures HasBranch(o, g)
    decreases fuel, arms, 1
  {
    hide AssembleIfElse, Flushed, TestOf, Append, Run, Gen, Eval;
    match arms
    case Default(last) =>
      var ga := Gen(last, p).value;
      EndsByBranch(words, last, p, ga, st, fuel, Eval(words, last, st, fuel).value);
      WithinFlushed(ga.(pend := ga.pend + [Stk(Drop)]));
    case Of(test, body, rest) =>
      var gt := Gen(test, p).value;
      var (t, br) := TestOf(gt.pend + [Stk(Over), Cmp(Eq)]).value;
      var gb, gr := Gen(body, [Stk(Drop)]).value, GenArms(rest, []).value;
      var ie := AssembleIfElse(t, br, Flushed(gb).value, gr);
      var o1 := Eval(words, test, st, fuel).value;
      EndsByBranch(words, test, p, gt, st, fuel, o1);
      WithinFlushed(gb);
      WithinAssembled(t, Flushed(gb).value, t, br, gr);
      WithinAppend(gt, ie);
      if o1.Normal? {
        var s := o1.st.stack;
        if Item(s, 0) == Item(s, 1) {
          EndsByBranch(words, body, [Stk(Drop)], gb, o1.st.(stack := Pop(s, 2)), fuel, o);
        } else {
          ArmsByBranch(words, rest, [], gr, o1.st.(stack := Pop(s, 1)), fuel, o);
        }
      }
  }

  // ----- the body of a definition -----

  /** The code of a statement in a definition that ends in `tail`: its pending tokens but
      the tail call flushed. */
  function Closed(g: Piece, tail: Option<Cell>): Option<Piece> {
    Flushed(Uncalled(g, tail))
  }

  /** The piece without the call at its end that becomes a jump. */
  function Uncalled(g: Piece, tail: Option<Cell>): Piece {
    if tail.Some? && g.pend != [] then g.(pend := g.pend[..|g.pend| - 1]) else g
  }

  /** Where the epilogue starts. */
  function EndOfBody(c: Piece, tail: Option<Cell>): nat {
    1 + |c.code| + if tail.Some? then |TailCode(tail.value)| else 0
  }

  /** The statement has code, which fits and is the body's. */
  ghost predicate Placed(body: seq<Instr>, s: Stmt, arena: set<Addr>) {
    Gen(s, []).Some? && Gen(s, []).value.leaves == []
    && var tail := TailOf(Gen(s, []).value.pend, arena);
       var c := Closed(Gen(s, []).value, tail);
       c.Some? && c.value.fits && IsBody(body, c.value, tail)
  }

  /** The committed body: the return address saved, the code of the statement with every
      `exit` going to the epilogue, then the tail call or the epilogue. */
  ghost predicate IsBody(body: seq<Instr>, g: Piece, tail: Option<Cell>) {
    var n := 1 + |g.code|;
    var end := EndOfBody(g, tail);
    && At(body, 0, [Line(PushRp(LR))])
    && Agrees(body, 1, g, 0, end)
    && (tail.Some? ==> At(body, n, TailCode(tail.value)))
    && (tail.None? || g.exits != [] ==> At(body, end, Epilogue()))
  }

  /** The instructions of a body whose exits have been patched. */
  lemma ExitPatched(whole: seq<Instr>, exits: seq<nat>, end: int, j: nat)
    requires j < |whole|
    ensures PatchJumps(whole, Offset(exits, 1), end)[j] == if j - 1 in exits then EncJump(end - j) else whole[j]
  {
    hide EncJump, PatchJumps, Offset;
    InOffset(exits, 1, j);
    JumpPatchedAt(whole, Offset(exits, 1), end, j);
  }

  lemma BodyIs(body: seq<Instr>, g: Piece, tail: Option<Cell>)
    requires g.leaves == [] && WellFormed(g)
    requires var front := [Line(PushRp(LR))] + g.code + if tail.Some? then TailCode(tail.value) else [];
             body == if tail.None? || g.exits != []
                     then PatchJumps(front + Epilogue(), Offset(g.exits, 1), |front|)
                     else front
    ensures IsBody(body, g, tail)
  {
    hide WellFormed, TailCode, EncJump, PatchJumps, EncBcond, Epilogue, At, Agrees, Offset;
    var tc := if tail.Some? then TailCode(tail.value) else [];
    var save := [Line(PushRp(LR))];
    var front := save + g.code + tc;
    var epi := if tail.None? || g.exits != [] then Epilogue() else [];
    BodyPoints(body, front, g.exits, tail.None? || g.exits != []);
    ExitsInside(g);
    FourParts(save, g.code, tc, epi);
    PartAt(body, [], save, g.code + tc + epi, g.exits, |front|);
    PartAt(body, save + g.code, tc, epi, g.exits, |front|);
    PartAt(body, front, epi, [], g.exits, |front|);
    CodeAgrees(body, g, tc + epi, |front|);
  }

  lemma FourParts(a: seq<Instr>, b: seq<Instr>, c: seq<Instr>, d: seq<Instr>)
    ensures var whole := a + b + c + d;
            whole == [] + a + (b + c + d) && whole == (a + b) + c + d && whole == (a + b + c) + d + []
            && whole == a + b + (c + d) && a + b + c + [] == a + b + c
  {
  }

  lemma ExitsInside(g: Piece)
    requires WellFormed(g)
    ensures forall i | i in g.exits :: i < |g.code|
  {
  }

  lemma CodeAgrees(body: seq<Instr>, g: Piece, rest: seq<Instr>, end: int)
    requires g.leaves == []
    requires var whole := [Line(PushRp(LR))] + g.code + rest;
             |body| == |whole|
             && forall j | 0 <= j < |body| :: body[j] == if j - 1 in g.exits then EncJump(end - j) else whole[j]
    ensures Agrees(body, 1, g, 0, end)
  {
    hide EncJump, Resolved;
    var whole := [Line(PushRp(LR))] + g.code + rest;
    forall j | 1 <= j < 1 + |g.code|
      ensures body[j] == Resolved(g, j - 1, 1, 0, end)
    {
      assert whole[j] == g.code[j - 1];
      ExitResolved(g, j - 1, end);
    }
  }

  /** Every instruction of the body is as it was emitted, or an exit. */
  lemma BodyPoints(body: seq<Instr>, front: seq<Instr>, exits: seq<nat>, epi: bool)
    requires body == if epi then PatchJumps(front + Epilogue(), Offset(exits, 1), |front|) else front
    requires !epi ==> exits == []
    ensures var whole := front + if epi then Epilogue() else [];
            |body| == |whole|
            && forall j | 0 <= j < |whole| :: body[j] == if j - 1 in exits then EncJump(|front| - j) else whole[j]
  {
    hide EncJump, PatchJumps, Epilogue, Offset;
    var whole := front + if epi then Epilogue() else [];
    forall j | 0 <= j < |whole|
      ensures body[j] == if j - 1 in exits then EncJump(|front| - j) else whole[j]
    {
      if epi {
        ExitPatched(whole, exits, |front|, j);
      }
    }
  }

  lemma ExitResolved(g: Piece, i: nat, end: int)
    requires i < |g.code| && g.leaves == []
    ensures Resolved(g, i, 1, 0, end) == if i in g.exits then EncJump(end - (1 + i)) else g.code[i]
  {
  }

  /** A part of the body that holds no exit. */
  lemma PartAt(body: seq<Instr>, a: seq<Instr>, part: seq<Instr>, b: seq<Instr>, exits: seq<nat>, end: int)
    requires |body| == |a + part + b|
    requires forall j | 0 <= j < |body| :: body[j] == if j - 1 in exits then EncJump(end - j) else (a + part + b)[j]
    requires forall i | i in exits :: i + 1 < |a| || i + 1 >= |a| + |part|
    ensures At(body, |a|, part)
  {
    hide EncJump;
    var pc := |a|;
    forall j | pc <= j < pc + |part|
      ensures body[j] == part[j - pc]
    {
      assert (a + part + b)[j] == part[j - pc];
    }
    assert body[pc..pc + |part|] == part;
  }

  /** What compiling and committing a structured definition yields. */
  lemma DefinitionIs(s: Stmt, arena: set<Addr>)
    requires ValidStmt(s)
    ensures var r := CompileDefinition(Flatten(s), arena);
            var og := Gen(s, []);
            if og.Some? && og.value.leaves == [] && Closed(og.value, TailOf(og.value.pend, arena)).Some?
            then
              var tail := TailOf(og.value.pend, arena);
              r.Ok? && IsBody(r.value, Closed(og.value, tail).value, tail)
            else r.Err?
    ensures var og := Gen(s, []);
            og.Some? ==> forall xt :: TailOf(og.value.pend, arena) == Some(xt)
                                      <==> EndsInCall(og.value.pend, arena, xt)
  {
    hide CompileAll, Gen, Commit, After, Closed, IsBody, TailOf, HasLoop, WellFormed;
    StmtCompiles(s, Start());
    NoLoop();
    var og := Gen(s, []);
    if og.Some? {
      TailIs(og.value.pend, arena);
    }
    if og.Some? && og.value.leaves == [] {
      GenWellFormed(s, []);
      CommitIs(og.value, arena);
    }
  }

  /** Committing after a piece without open `leave`s. */
  lemma CommitIs(g: Piece, arena: set<Addr>)
    requires WellFormed(g) && g.leaves == []
    ensures var r := Commit(After(Start(), g), arena);
            var tail := TailOf(g.pend, arena);
            var oc := Closed(g, tail);
            if oc.Some? then r.Ok? && IsBody(r.value, oc.value, tail) else r.Err?
  {
    hide WellFormed, FlushToks, Flush, TailCode, PatchJumps, IsBody, AddLeaves, TailOf;
    var d := After(Start(), g);
    var tail := TailOf(g.pend, arena);
    TailHere(g.pend, arena);
    var gq := if tail.Some? then g.(pend := g.pend[..|g.pend| - 1]) else g;
    WithPend(g, gq.pend);
    OtherPend(Start(), g, gq.pend);
    FlushAfter(Start(), gq);
    if Closed(g, tail).Some? {
      var c := Closed(g, tail).value;
      FlushedWellFormed(gq);
      FlushedPend(gq);
      FlushedExits(gq);
      StartAfter(c);
      BodyIs(Commit(d, arena).value, c, tail);
    }
  }

  lemma TailHere(toks: seq<Tok>, arena: set<Addr>)
    ensures TailOf(toks, arena).Some? ==> toks != []
  {
  }

  lemma OtherPend(d: Def, g: Piece, p: seq<Tok>)
    ensures After(d, g.(pend := p)) == After(d, g).(toks := p)
  {
  }

  lemma FlushedExits(g: Piece)
    requires Flushed(g).Some?
    ensures Flushed(g).value.exits == g.exits
  {
    hide FlushToks;
    FlushWellFormed(g.pend);
    assert g.exits + [] == g.exits;
  }

  lemma StartAfter(g: Piece)
    requires g.leaves == [] && g.pend == []
    ensures After(Start(), g) == Def([Line(PushRp(LR))] + g.code, [], [], Offset(g.exits, 1))
  {
    LeavesNothing([]);
    assert Offset(g.leaves, 1) == [];
  }

  // ----- running it -----

  /** Control leaves the body with the Forth state `st` and return address `ret`: by a
      return, or by a jump to an arena word that will make `st` and return there. */
  ghost predicate Hands(env: Env, arena: set<Addr>, i: Instr, m: Mach, st: Forth, ret: Cell) {
    X(m, LR) == ret
    && match i
       case Ret => Shows(env, m, st)
       case BrReg(r) => Addr(X(m, r)) in arena
                        && exists v :: Shows(env, m, v) && env.words(X(m, r), v) == st
       case _ => false
  }

  /** Running the body from its first instruction ends by handing over `st` to `ret`. */
  ghost predicate Completes(env: Env, arena: set<Addr>, body: seq<Instr>, m: Mach, st: Forth, ret: Cell) {
    exists pc, m' :: 0 <= pc < |body| && Reaches(env, body, 0, m, pc, m')
                     && Hands(env, arena, body[pc], m', st, ret)
  }

  /** Arena words leave the return stack as they find it, and do not look at it: they start
      by saving their return address and end by restoring it. */
  ghost predicate Clean(words: Words, arena: set<Addr>) {
    forall xt, st, rs | Addr(xt) in arena :: Indifferent(words, xt, st, rs)
  }

  predicate Indifferent(words: Words, xt: Cell, st: Forth, rs: seq<Cell>) {
    words(xt, st).rs == st.rs && words(xt, st.(rs := rs)) == words(xt, st).(rs := rs)
  }

  lemma SaveRuns(env: Env, m: Mach, st: Forth)
    requires Shows(env, m, st)
    ensures Shows(env, Execute1(env, PushRp(LR), m), st.(rs := [X(m, LR)] + st.rs))
  {
  }

  lemma RestoreRuns(env: Env, m: Mach, st: Forth)
    requires Shows(env, m, st) && st.rs != []
    ensures var m' := Execute1(env, PopRp(LR), m);
            Shows(env, m', st.(rs := st.rs[1..])) && X(m', LR) == st.rs[0]
  {
  }

  lemma EpilogueRuns(env: Env, body: seq<Instr>, pc: int, m: Mach, st: Forth)
    returns (m': Mach)
    requires At(body, pc, Epilogue()) && Shows(env, m, st) && st.rs != []
    ensures 0 <= pc + 1 < |body| && Reaches(env, body, pc, m, pc + 1, m')
            && body[pc + 1] == Ret && Shows(env, m', st.(rs := st.rs[1..])) && X(m', LR) == st.rs[0]
  {
    hide Reaches, Shows, Execute1;
    AtTwo(body, pc, Line(PopRp(LR)), Ret);
    ReachesStep(env, body, pc, m);
    RestoreRuns(env, m, st);
    m' := Execute1(env, PopRp(LR), m);
  }

  lemma TailRuns(env: Env, arena: set<Addr>, body: seq<Instr>, pc: int, m: Mach, st: Forth, xt: Cell)
    returns (m': Mach)
    requires At(body, pc, TailCode(xt)) && Shows(env, m, st) && st.rs != []
    requires Clean(env.words, arena) && Addr(xt) in arena
    ensures var st' := env.words(xt, st);
            0 <= pc + 5 < |body| && Reaches(env, body, pc, m, pc + 5, m')
            && Hands(env, arena, body[pc + 5], m', st'.(rs := st.rs[1..]), st.rs[0])
            && body[pc + 5] == BrReg(CALL_TMP) && X(m', CALL_TMP) == xt && m'.rs == st.rs[1..] && X(m', LR) == st.rs[0]
  {
    hide Reaches, Shows, Execute, Execute1, LoadImm64;
    var load := LoadImm64(CALL_TMP, xt);
    var ops := [PopRp(LR)] + load;
    LoadSize(xt);
    AtParts(body, pc, Lift(ops), [BrReg(CALL_TMP)]);
    AtOne(body, pc + 5, BrReg(CALL_TMP));
    LineRuns(env, body, pc, ops, m);
    ExecuteCons(env, PopRp(LR), load, m);
    RestoreRuns(env, m, st);
    var m1 := Execute1(env, PopRp(LR), m);
    LoadImm64Loads(env, CALL_TMP, xt, m1);
    var m2 := Set(m1, CALL_TMP, xt);
    var v := st.(rs := st.rs[1..]);
    ShowsSet(env, m1, v, CALL_TMP, xt);
    ShowsFrames(env, m2, v);
    assert Indifferent(env.words, xt, st, st.rs[1..]);
    assert X(m2, CALL_TMP) == xt && X(m2, LR) == st.rs[0];
    m' := m2;
  }

  lemma LoadSize(xt: Cell)
    ensures |LoadImm64(CALL_TMP, xt)| == 4
  {
  }

  lemma ShowsFrames(env: Env, m: Mach, st: Forth)
    requires Shows(env, m, st)
    ensures m.rs == st.rs
  {
  }

  lemma ShowsSet(env: Env, m: Mach, st: Forth, r: Reg, v: Cell)
    requires Shows(env, m, st) && r != TOS
    ensures Shows(env, Set(m, r, v), st)
  {
  }

  /** The statement's code in the body does what the statement does. */
  lemma ClosedSim(env: Env, body: seq<Instr>, s: Stmt, arena: set<Addr>, st: Forth, fuel: nat, o: Outcome)
    requires ValidStmt(s) && |body| < MAX_CODE && Placed(body, s, arena)
    requires Eval(env.words, s, st, fuel) == Some(o)
    ensures var g := Gen(s, []).value;
            var tail := TailOf(g.pend, arena);
            var c := Closed(g, tail).value;
            !o.Left? && (o.Exited? ==> c.exits != [])
            && Simulates(env, body, 1, g, st, o, 0, EndOfBody(c, tail))
    ensures var g := Gen(s, []).value;
            WellFormed(Uncalled(g, TailOf(g.pend, arena))) && ValidToks(g.pend)
  {
    hide Carries, Agrees, Simulates, Run, Gen, Flushed, Eval, WellFormed, TailCode, At, TailOf;
    var g := Gen(s, []).value;
    var tail := TailOf(g.pend, arena);
    var c := Closed(g, tail).value;
    var gq := Uncalled(g, tail);
    var end := EndOfBody(c, tail);
    EndsByBranch(env.words, s, [], g, st, fuel, o);
    EndInside(body, c, tail);
    FlushedExits(gq);
    ClosedLaidOut(body, s, gq, end);
    FlushedWellFormed(gq);
    RunNothing(env.words, st);
    GenSim(env, body, 1, s, [], g, st, st, fuel, o, 0, end);
  }

  /** From the start of the statement's code to the end of its code, or to the epilogue. */
  lemma ClosedCarries(env: Env, body: seq<Instr>, s: Stmt, arena: set<Addr>, st: Forth, fuel: nat, o: Outcome)
    requires ValidStmt(s) && |body| < MAX_CODE && Placed(body, s, arena)
    requires Eval(env.words, s, st, fuel) == Some(o)
    ensures !o.Left?
    ensures var g := Gen(s, []).value;
            var tail := TailOf(g.pend, arena);
            var c := Closed(g, tail).value;
            (o.Exited? ==> c.exits != [] && Carries(env, body, 1, st, EndOfBody(c, tail), o.st))
            && (o.Normal? && tail.None? ==> Carries(env, body, 1, st, 1 + |c.code|, o.st))
            && (o.Normal? && tail.Some? ==>
                  exists q :: Carries(env, body, 1, st, 1 + |c.code|, q) && o.st == env.words(tail.value, q))
  {
    hide Carries, Agrees, Simulates, Run, Gen, Flushed, Eval, WellFormed, TailCode, At;
    var g := Gen(s, []).value;
    var tail := TailOf(g.pend, arena);
    var end := EndOfBody(Closed(g, tail).value, tail);
    ClosedSim(env, body, s, arena, st, fuel, o);
    match o
    case Normal(st2) =>
      if tail.Some? {
        var q := TailCarries(env, body, g, tail.value, st, st2, end);
      } else {
        FlushedSim(env, body, 1, g, st, o, 0, end);
        FlushedPend(g);
        SimulatesClosed(env, body, 1, Flushed(g).value, st, o, 0, end);
      }
    case _ => Escaped(env, body, 1, g, st, o, 0, end);
  }

  lemma ClosedLaidOut(body: seq<Instr>, s: Stmt, gq: Piece, end: int)
    requires Gen(s, []).Some? && ValidStmt(s) && Flushed(gq).Some?
    requires gq == Gen(s, []).value.(pend := gq.pend)
    requires Agrees(body, 1, Flushed(gq).value, 0, end)
    ensures Agrees(body, 1, Gen(s, []).value, 0, end) && WellFormed(gq) && ValidToks(Gen(s, []).value.pend)
  {
    hide Agrees, Gen, FlushToks, WellFormed;
    GenWellFormed(s, []);
    WithPend(Gen(s, []).value, gq.pend);
    AgreesAppend(body, 1, gq, FlushToks(gq.pend).value, 0, end);
    SamePlace(body, 1, gq, Gen(s, []).value, 0, end);
  }

  /** The pending tokens before a tail call, flushed. */
  lemma TailCarries(env: Env, body: seq<Instr>, g: Piece, xt: Cell, st: Forth, st2: Forth, end: int)
    returns (q: Forth)
    requires g.pend != [] && g.pend[|g.pend| - 1] == Call(xt) && ValidToks(g.pend)
    requires var gq := g.(pend := g.pend[..|g.pend| - 1]);
             WellFormed(gq) && Flushed(gq).Some? && Flushed(gq).value.fits
             && Agrees(body, 1, Flushed(gq).value, 0, end)
    requires Simulates(env, body, 1, g, st, Normal(st2), 0, end)
    ensures var c := Flushed(g.(pend := g.pend[..|g.pend| - 1])).value;
            Carries(env, body, 1, st, 1 + |c.code|, q) && st2 == env.words(xt, q)
  {
    hide Carries, Agrees, Simulates, Run, Flushed, WellFormed;
    var gq := g.(pend := g.pend[..|g.pend| - 1]);
    var st1 := Landing(env, body, 1, g, st, st2, 0, end);
    RunLast(env.words, g.pend, st1, st2);
    q := Run(env.words, gq.pend, st1).value;
    CallStep(env.words, xt, q);
    Landed(env, body, 1, gq, st, st1, q, 0, end);
    FlushedSim(env, body, 1, gq, st, Normal(q), 0, end);
    FlushedPend(gq);
    SimulatesClosed(env, body, 1, Flushed(gq).value, st, Normal(q), 0, end);
  }

  lemma EndInside(body: seq<Instr>, c: Piece, tail: Option<Cell>)
    requires IsBody(body, c, tail)
    ensures EndOfBody(c, tail) <= |body|
  {
    hide TailCode;
  }

  lemma CallStep(words: Words, xt: Cell, st: Forth)
    ensures Step(words, Call(xt), st).Some? ==> Step(words, Call(xt), st) == Some(words(xt, st))
  {
    hide AluOp.Eval, ShiftOp.Eval, FetchCell, StoreCell, CmpOp.Holds, SelOp.Eval;
  }

  /** Every run of the definition fits the fields of the instructions, the one before a tail
      call included. */
  predicate DefinitionFits(s: Stmt, arena: set<Addr>) {
    var og := Gen(s, []);
    og.Some? ==>
      var oc := Closed(og.value, TailOf(og.value.pend, arena));
      oc.Some? ==> oc.value.fits
  }

  lemma {:induction false} DesugaredCompiles(ws: seq<Word>, d: Def)
    ensures CompileAll(Desugared(ws), d) == CompileAll(ws, d)
    decreases |ws|
  {
    hide CompileWord;
    if ws != [] {
      var first := if ws[0] == UnlessWord then [Inline([Cmp(ZEq)]), IfWord] else [ws[0]];
      CompileAppend(first, Desugared(ws[1..]), d);
      FirstCompiles(ws[0], first, d);
      var r := CompileWord(d, ws[0]);
      if r.Ok? {
        DesugaredCompiles(ws[1..], r.value);
      }
    }
  }

  lemma FirstCompiles(w: Word, first: seq<Word>, d: Def)
    requires first == if w == UnlessWord then [Inline([Cmp(ZEq)]), IfWord] else [w]
    ensures CompileAll(first, d) == CompileWord(d, w)
  {
    hide CompileIf;
    if w == UnlessWord {
      var d1 := d.(toks := d.toks + [Cmp(ZEq)]);
      assert first[1..] == [IfWord];
      CompileOne(IfWord, d1);
    } else {
      CompileOne(w, d);
    }
  }

  /** `unless` compiles as `0= if`. */
  lemma DesugaredDefinition(ws: seq<Word>, arena: set<Addr>)
    ensures CompileDefinition(Desugared(ws), arena) == CompileDefinition(ws, arena)
  {
    hide Commit;
    DesugaredCompiles(ws, Start());
  }

  /** Where a committed definition ends: at a jump to the word whose call would end the normal
      run of its text, or at a return. */
  lemma DefinitionEnds(env: Env, arena: set<Addr>, ws: seq<Word>, s: Stmt, m: Mach, st: Forth, fuel: nat, o: Outcome)
    returns (pc: int, m': Mach)
    requires ValidStmt(s) && Desugared(ws) == Flatten(s) && CompileDefinition(ws, arena).Ok?
    requires |CompileDefinition(ws, arena).value| < MAX_CODE && DefinitionFits(s, arena)
    requires Clean(env.words, arena)
    requires Shows(env, m, st)
    requires Eval(env.words, s, st.(rs := [X(m, LR)] + st.rs), fuel) == Some(o) && o.st.rs != []
    ensures Gen(s, []).Some?
    ensures var body := CompileDefinition(ws, arena).value;
            var tail := TailOf(Gen(s, []).value.pend, arena);
            var st' := o.st.(rs := o.st.rs[1..]);
            0 <= pc < |body| && Reaches(env, body, 0, m, pc, m')
            && if o.Normal? && tail.Some?
               then Hands(env, arena, body[pc], m', st', o.st.rs[0])
                    && body[pc] == BrReg(CALL_TMP) && X(m', CALL_TMP) == tail.value && m'.rs == st'.rs
               else body[pc] == Ret && Shows(env, m', st')
    ensures X(m', LR) == o.st.rs[0]
  {
    hide CompileDefinition, Shows, Eval, Gen, Carries, Reaches, Hands, TailCode, Closed, At;
    DesugaredDefinition(ws, arena);
    var body := CompileDefinition(ws, arena).value;
    DefinitionIs(s, arena);
    var g := Gen(s, []).value;
    var tail := TailOf(g.pend, arena);
    var c := Closed(g, tail).value;
    var st0 := st.(rs := [X(m, LR)] + st.rs);
    var m0 := Execute1(env, PushRp(LR), m);
    AtOne(body, 0, Line(PushRp(LR)));
    SaveRuns(env, m, st);
    ReachesStep(env, body, 0, m);
    ClosedCarries(env, body, s, arena, st0, fuel, o);
    var n := 1 + |c.code|;
    if o.Normal? && tail.Some? {
      var q :| Carries(env, body, 1, st0, n, q) && o.st == env.words(tail.value, q);
      var m1 := Arrive(env, body, m, m0, st0, n, q);
      TailIn(g.pend, arena);
      assert Indifferent(env.words, tail.value, q, q.rs);
      m' := TailRuns(env, arena, body, n, m1, q, tail.value);
      ReachesThen(env, body, 0, m, n, m1, n + 5, m');
      pc := n + 5;
    } else {
      var end := n + if tail.Some? then |TailCode(tail.value)| else 0;
      var m1 := Arrive(env, body, m, m0, st0, end, o.st);
      m' := EpilogueRuns(env, body, end, m1, o.st);
      ReachesThen(env, body, 0, m, end, m1, end + 1, m');
      pc := end + 1;
    }
  }

  /** A committed definition keeps the promise of its source: started with return address
      `ret` and the state `st`, it ends in the state its structured meaning gives, the frame
      of its return address gone, and hands control to the address left in that frame. */
  lemma DefinitionRuns(env: Env, arena: set<Addr>, ws: seq<Word>, s: Stmt, m: Mach, st: Forth, fuel: nat, o: Outcome)
    requires ValidStmt(s) && Desugared(ws) == Flatten(s) && CompileDefinition(ws, arena).Ok?
    requires |CompileDefinition(ws, arena).value| < MAX_CODE && DefinitionFits(s, arena)
    requires Clean(env.words, arena)
    requires Shows(env, m, st)
    requires Eval(env.words, s, st.(rs := [X(m, LR)] + st.rs), fuel) == Some(o) && o.st.rs != []
    ensures Completes(env, arena, CompileDefinition(ws, arena).value, m,
                      o.st.(rs := o.st.rs[1..]), o.st.rs[0])
  {
    hide CompileDefinition, Shows, Eval, Gen, Reaches, TailOf, Clean, DefinitionFits;
    var pc, m' := DefinitionEnds(env, arena, ws, s, m, st, fuel, o);
  }

  /** Control leaves the body by a jump to `xt`, with `ret` in LR and the return stack `rs`. */
  ghost predicate LeavesByJump(env: Env, body: seq<Instr>, m: Mach, xt: Cell, rs: seq<Cell>, ret: Cell) {
    exists pc, m', r: Reg :: 0 <= pc < |body| && Reaches(env, body, 0, m, pc, m') && body[pc] == BrReg(r)
                             && X(m', r) == xt && m'.rs == rs && X(m', LR) == ret
  }

  /** Control leaves the body by a return to `ret`, in the state `st`. */
  ghost predicate LeavesByReturn(env: Env, body: seq<Instr>, m: Mach, st: Forth, ret: Cell) {
    exists pc, m' :: 0 <= pc < |body| && Reaches(env, body, 0, m, pc, m') && body[pc] == Ret
                     && Shows(env, m', st) && X(m', LR) == ret
  }

  /** A call of an arena word, last among the tokens pending at the end, is left by a jump to
      the word; every other end, and every `exit`, by a return. */
  lemma DefinitionLeaves(env: Env, arena: set<Addr>, ws: seq<Word>, s: Stmt, m: Mach, st: Forth, fuel: nat, o: Outcome)
    requires ValidStmt(s) && Desugared(ws) == Flatten(s) && CompileDefinition(ws, arena).Ok?
    requires |CompileDefinition(ws, arena).value| < MAX_CODE && DefinitionFits(s, arena)
    requires Clean(env.words, arena)
    requires Shows(env, m, st)
    requires Eval(env.words, s, st.(rs := [X(m, LR)] + st.rs), fuel) == Some(o) && o.st.rs != []
    ensures CompileAll(ws, Start()).Ok?
    ensures var toks := CompileAll(ws, Start()).value.toks;
            var body := CompileDefinition(ws, arena).value;
            (forall xt | o.Normal? && EndsInCall(toks, arena, xt) ::
               LeavesByJump(env, body, m, xt, o.st.rs[1..], o.st.rs[0]))
            && (o.Exited? || (forall xt :: !EndsInCall(toks, arena, xt)) ==>
                  LeavesByReturn(env, body, m, o.st.(rs := o.st.rs[1..]), o.st.rs[0]))
  {
    hide CompileDefinition, CompileAll, Commit, Shows, Eval, Gen, Reaches, TailOf, Clean, DefinitionFits, EndsInCall,
         Hands;
    var pc, m' := DefinitionEnds(env, arena, ws, s, m, st, fuel, o);
    PendingIs(ws, s, arena);
    var toks := CompileAll(ws, Start()).value.toks;
    TailIs(toks, arena);
    var tail := TailOf(toks, arena);
    if tail.Some? {
      assert EndsInCall(toks, arena, tail.value);
    }
    var body := CompileDefinition(ws, arena).value;
    if o.Normal? && tail.Some? {
      assert LeavesByJump(env, body, m, tail.value, o.st.rs[1..], o.st.rs[0]);
    } else {
      assert LeavesByReturn(env, body, m, o.st.(rs := o.st.rs[1..]), o.st.rs[0]);
    }
  }

  /** The tokens pending at the end are those of the structured code. */
  lemma PendingIs(ws: seq<Word>, s: Stmt, arena: set<Addr>)
    requires Desugared(ws) == Flatten(s) && CompileDefinition(ws, arena).Ok? && Gen(s, []).Some?
    ensures CompileAll(ws, Start()).Ok? && CompileAll(ws, Start()).value.toks == Gen(s, []).value.pend
  {
    hide CompileAll, Commit, Gen, After, Fits;
    StmtCompiles(s, Start());
    DesugaredCompiles(ws, Start());
    AfterPend(Start(), Gen(s, []).value);
  }

  lemma TailIn(toks: seq<Tok>, arena: set<Addr>)
    ensures TailOf(toks, arena).Some? ==> Addr(TailOf(toks, arena).value) in arena
  {
  }

  /** After the first instruction, on to where the code carries its state. */
  lemma Arrive(env: Env, body: seq<Instr>, m: Mach, m0: Mach, st0: Forth, pc: int, st1: Forth)
    returns (m1: Mach)
    requires Reaches(env, body, 0, m, 1, m0) && Shows(env, m0, st0)
    requires Carries(env, body, 1, st0, pc, st1)
    ensures Reaches(env, body, 0, m, pc, m1) && Shows(env, m1, st1)
  {
    hide Reaches, Shows;
    m1 :| Reaches(env, body, 1, m0, pc, m1) && Shows(env, m1, st1);
    ReachesThen(env, body, 0, m, 1, m0, pc, m1);
  }
}
