/** Structured Forth control flow: its meaning, and the code of each construct as one
    closed piece with its branches already resolved. */
module Structured {
  import opened Options
  import opened Cells
  import opened Tokens
  import opened Machine
  import opened Lowering
  import opened Branches

  /** Properly nested uses of the control words. `DoLoop` is `do` or `?do` (`skipEqual`)
      closed by `loop` or `+loop` (`step`). */
  datatype Stmt =
    | Toks(run: seq<Tok>)
    | Block(first: Stmt, second: Stmt)
    | If(body: Stmt)
    | IfElse(yes: Stmt, no: Stmt)
    | Until(body: Stmt)
    | While(test: Stmt, body: Stmt)
    | DoLoop(body: Stmt, skipEqual: bool, step: bool)
    | Leave
    | Unloop
    | Exit
    | Case(arms: Arms)

  /** `case test of body endof … default endcase`. */
  datatype Arms = Default(last: Stmt) | Of(test: Stmt, body: Stmt, rest: Arms)

  // ----- meaning -----

  /** How a statement ends: at its end, by `leave`, or by `exit`. */
  datatype Outcome = Normal(st: Forth) | Left(st: Forth) | Exited(st: Forth)

  /** The flag on top, and the state without it. */
  function PopFlag(st: Forth): Option<(bool, Forth)> {
    if |st.stack| < 2 then None
    else Some((Item(st.stack, 0) != 0, st.(stack := Pop(st.stack, 1))))
  }

  /** `do`: the frame holds the index above the limit. */
  function EnterLoop(st: Forth): Option<Forth> {
    if |st.stack| < 3 then None
    else Some(st.(stack := Pop(st.stack, 2), rs := [Item(st.stack, 0), Item(st.stack, 1)] + st.rs))
  }

  function DropFrame(st: Forth): Option<Forth> {
    if |st.rs| < 2 then None else Some(st.(rs := st.rs[2..]))
  }

  /** `loop` and `+loop`: the stepped state and whether the index crossed the limit. */
  function Advance(step: bool, st: Forth): Option<(Forth, bool)> {
    if |st.rs| < 2 || (step && |st.stack| < 2) then None
    else
      var inc := if step then Item(st.stack, 0) else 1;
      var next := Add.Eval(st.rs[0], inc);
      var st' := st.(stack := if step then Pop(st.stack, 1) else st.stack, rs := st.rs[0 := next]);
      Some((st', Negative(Crossing(st.rs[0], next, st.rs[1]))))
  }

  /** `None`: underflow, or more than `fuel` iterations of some loop. */
  function Eval(words: Words, s: Stmt, st: Forth, fuel: nat): Option<Outcome>
    decreases fuel, s, 0
  {
    match s
    case Toks(run) =>
      var st' :- Run(words, run, st);
      Some(Normal(st'))
    case Block(a, b) =>
      var o :- Eval(words, a, st, fuel);
      if o.Normal? then Eval(words, b, o.st, fuel) else Some(o)
    case If(a) =>
      var (flag, st') :- PopFlag(st);
      if flag then Eval(words, a, st', fuel) else Some(Normal(st'))
    case IfElse(a, b) =>
      var (flag, st') :- PopFlag(st);
      if flag then Eval(words, a, st', fuel) else Eval(words, b, st', fuel)
    case Until(a) =>
      if fuel == 0 then None
      else
        var o :- Eval(words, a, st, fuel - 1);
        if !o.Normal? then Some(o)
        else
          var (flag, st') :- PopFlag(o.st);
          if flag then Some(Normal(st')) else Eval(words, s, st', fuel - 1)
    case While(t, b) =>
      if fuel == 0 then None
      else
        var o :- Eval(words, t, st, fuel - 1);
        if !o.Normal? then Some(o)
        else
          var (flag, st') :- PopFlag(o.st);
          if !flag then Some(Normal(st'))
          else
            var o2 :- Eval(words, b, st', fuel - 1);
            if !o2.Normal? then Some(o2) else Eval(words, s, o2.st, fuel - 1)
    case DoLoop(body, skipEqual, step) =>
      var st' :- EnterLoop(st);
      if skipEqual && st'.rs[0] == st'.rs[1] then
        var st2 :- DropFrame(st');
        Some(Normal(st2))
      else EvalLoop(words, body, step, st', fuel)
    case Leave => Some(Left(st))
    case Unloop =>
      var st' :- DropFrame(st);
      Some(Normal(st'))
    case Exit => Some(Exited(st))
    case Case(arms) => EvalArms(words, arms, st, fuel)
  }

  /** The iterations of a counted loop, its frame in place. */
  function EvalLoop(words: Words, body: Stmt, step: bool, st: Forth, fuel: nat): Option<Outcome>
    decreases fuel, body, 1
  {
    if fuel == 0 then None
    else
      var o :- Eval(words, body, st, fuel - 1);
      match o
      case Exited(_) => Some(o)
      case Left(st1) =>
        var st2 :- DropFrame(st1);
        Some(Normal(st2))
      case Normal(st1) =>
        var (st2, crossed) :- Advance(step, st1);
        if crossed then
          var st3 :- DropFrame(st2);
          Some(Normal(st3))
        else EvalLoop(words, body, step, st2, fuel - 1)
  }

  function EvalArms(words: Words, arms: Arms, st: Forth, fuel: nat): Option<Outcome>
    decreases fuel, arms, 0
  {
    match arms
    case Default(last) =>
      var o :- Eval(words, last, st, fuel);
      if o.Normal? then
        var st' :- Run(words, [Stk(Drop)], o.st);
        Some(Normal(st'))
      else Some(o)
    case Of(test, body, rest) =>
      var o :- Eval(words, test, st, fuel);
      if !o.Normal? then Some(o)
      else
        var s := o.st.stack;
        if |s| < 3 then None
        else if Item(s, 0) == Item(s, 1) then
          Eval(words, body, o.st.(stack := Pop(s, 2)), fuel)
        else EvalArms(words, rest, o.st.(stack := Pop(s, 1)), fuel)
  }

  // ----- code -----

  /** A stretch of code. `pend` are the tokens not yet lowered at its end; `leaves` and
      `exits` are the positions of branches whose targets lie outside it; `fits` tells that
      every token run it lowered fits the fields of the instructions. */
  datatype Piece = Piece(code: seq<Instr>, pend: seq<Tok>, leaves: seq<nat>, exits: seq<nat>,
                         fits: bool)

  function Offset(xs: seq<nat>, k: nat): (r: seq<nat>)
    ensures |r| == |xs|
    ensures forall i | 0 <= i < |xs| :: r[i] == xs[i] + k
  {
    seq(|xs|, i requires 0 <= i < |xs| => xs[i] + k)
  }

  /** `a`, whose pending tokens `b` has taken over, followed by `b`. */
  function Append(a: Piece, b: Piece): Piece {
    Piece(a.code + b.code, b.pend, a.leaves + Offset(b.leaves, |a.code|),
          a.exits + Offset(b.exits, |a.code|), a.fits && b.fits)
  }

  lemma AppendAssoc(a: Piece, b: Piece, c: Piece)
    ensures Append(Append(a, b), c) == Append(a, Append(b, c))
  {
    hide Offset;
    SumAssoc(a.code, b.code, c.code);
    OffsetsAssoc(a.leaves, b.leaves, c.leaves, |a.code|, |b.code|);
    OffsetsAssoc(a.exits, b.exits, c.exits, |a.code|, |b.code|);
  }

  lemma SumAssoc<T>(a: seq<T>, b: seq<T>, c: seq<T>)
    ensures (a + b) + c == a + (b + c)
  {
  }

  lemma OffsetsAssoc(x: seq<nat>, y: seq<nat>, z: seq<nat>, j: nat, k: nat)
    ensures (x + Offset(y, j)) + Offset(z, j + k) == x + Offset(y + Offset(z, k), j)
  {
    hide Offset;
    OffsetAppend(y, Offset(z, k), j);
    OffsetTwice(z, k, j);
    SumAssoc(x, Offset(y, j), Offset(z, j + k));
  }

  lemma OffsetAppend(xs: seq<nat>, ys: seq<nat>, k: nat)
    ensures Offset(xs + ys, k) == Offset(xs, k) + Offset(ys, k)
  {
  }

  lemma OffsetTwice(xs: seq<nat>, j: nat, k: nat)
    ensures Offset(Offset(xs, j), k) == Offset(xs, k + j)
  {
  }

  function Plain(code: seq<Instr>): Piece {
    Piece(code, [], [], [], true)
  }

  /** Reduce and lower the pending tokens. */
  function FlushToks(p: seq<Tok>): Option<Piece> {
    if p == [] then Some(Plain([]))
    else
      var c :- Compiled(p);
      Some(Plain(Lift(c)).(fits := Fitting(p)))
  }

  function Flushed(g: Piece): Option<Piece> {
    var f :- FlushToks(g.pend);
    Some(Append(g, f))
  }

  /** What the branch of a test looks at. */
  datatype Branch = OnZero | OnCond(c: Cond)

  /** Branch when the tested flag is false. */
  function BranchOff(br: Branch, off: int): Instr {
    match br
    case OnZero => EncCbz(SCRATCH, off)
    case OnCond(c) => EncBcond(c, off)
  }

  /** The code up to the branch of `if`, `until` or `while`; a comparison at the end of the
      pending run is fused into the branch. */
  function TestOf(p: seq<Tok>): Option<(Piece, Branch)> {
    var n := |p|;
    if n > 0 && p[n - 1].Cmp? then
      var f :- FlushToks(p[..n - 1]);
      Some((Append(f, Plain(Lift(FusedCmp(p[n - 1].c)))), OnCond(Invert(CondOf(p[n - 1].c)))))
    else
      var f :- FlushToks(p);
      Some((Append(f, Plain(Lift(FlagTest()))), OnZero))
  }

  function AssembleIf(t: Piece, br: Branch, a: Piece): Piece {
    Append(Append(t, Plain([BranchOff(br, |a.code| + 1)])), a)
  }

  function AssembleIfElse(t: Piece, br: Branch, a: Piece, b: Piece): Piece {
    Append(AssembleIf(t, br, Append(a, Plain([EncJump(|b.code| + 1)]))), b)
  }

  function AssembleUntil(f: Piece, a: Piece, t: Piece, br: Branch): Piece {
    Append(f, Append(Append(a, t), Plain([BranchOff(br, -(|a.code| + |t.code|))])))
  }

  function AssembleWhile(f: Piece, a: Piece, t: Piece, br: Branch, b: Piece): Piece {
    var head := Append(Append(a, t), Plain([BranchOff(br, |b.code| + 2)]));
    Append(f, Append(Append(head, b), Plain([EncJump(-(|head.code| + |b.code|))])))
  }

  /** Point the conditional branches at positions `at` to `target`. */
  function PatchBconds(code: seq<Instr>, at: seq<nat>, target: int): (r: seq<Instr>)
    ensures |r| == |code|
    decreases |at|
  {
    if at == [] then code
    else
      var i := at[0];
      PatchBconds(if i < |code| && code[i].Bcond? then code[i := EncBcond(code[i].cond, target - i)]
                  else code,
                  at[1..], target)
  }

  function DoHead(skipEqual: bool): Piece {
    if skipEqual then
      Plain(Lift(DoCode() + QDoTest()) + [EncBcond(EQ, 0)]).(leaves := [|DoCode() + QDoTest()|])
    else Plain(Lift(DoCode()))
  }

  function LoopStep(step: bool): seq<Op> {
    if step then PlusLoopCode() else LoopCode()
  }

  /** The loop with its `leave` branches, and the skip of `?do`, still open. */
  function OpenLoop(f: Piece, b: Piece, skipEqual: bool, step: bool): Piece {
    var back := -(|b.code| + |LoopStep(step)|);
    Append(Append(Append(f, DoHead(skipEqual)), b),
           Plain(Lift(LoopStep(step)) + [EncTbzSign(11, back), Line(AddRp(2))]))
  }

  /** They all go to the instruction that drops the frame, the last one. */
  function AssembleLoop(f: Piece, b: Piece, skipEqual: bool, step: bool): Piece {
    var g := OpenLoop(f, b, skipEqual, step);
    g.(code := PatchBconds(g.code, g.leaves, |g.code| - 1), leaves := [])
  }

  // Each construct from the code of its parts; `None` when some run cannot be lowered.

  function IfPiece(ot: Option<(Piece, Branch)>, oa: Option<Piece>): Option<Piece> {
    var (t, br) :- ot;
    var ga :- oa;
    var fa :- Flushed(ga);
    Some(AssembleIf(t, br, fa))
  }

  function IfElsePiece(ot: Option<(Piece, Branch)>, oa: Option<Piece>, ob: Option<Piece>): Option<Piece> {
    var (t, br) :- ot;
    var ga :- oa;
    var fa :- Flushed(ga);
    var gb :- ob;
    var fb :- Flushed(gb);
    Some(AssembleIfElse(t, br, fa, fb))
  }

  function UntilPiece(of: Option<Piece>, oa: Option<Piece>): Option<Piece> {
    var f :- of;
    var ga :- oa;
    var (t, br) :- TestOf(ga.pend);
    Some(AssembleUntil(f, ga, t, br))
  }

  function WhilePiece(of: Option<Piece>, oa: Option<Piece>, ob: Option<Piece>): Option<Piece> {
    var f :- of;
    var ga :- oa;
    var (t, br) :- TestOf(ga.pend);
    var gb :- ob;
    var fb :- Flushed(gb);
    Some(AssembleWhile(f, ga, t, br, fb))
  }

  function LoopPiece(of: Option<Piece>, ob: Option<Piece>, skipEqual: bool, step: bool): Option<Piece> {
    var f :- of;
    var gb :- ob;
    var fb :- Flushed(gb);
    Some(AssembleLoop(f, fb, skipEqual, step))
  }

  /** Flush, then one instruction. */
  function LeafPiece(of: Option<Piece>, x: Piece): Option<Piece> {
    var f :- of;
    Some(Append(f, x))
  }

  function LeaveCode(): Piece {
    Plain([EncBcond(AL, 0)]).(leaves := [0])
  }

  function ExitCode(): Piece {
    Plain([EncJump(0)]).(exits := [0])
  }

  /** The code of a statement that starts with the tokens `p` pending. */
  function Gen(s: Stmt, p: seq<Tok>): Option<Piece>
    decreases s
  {
    match s
    case Toks(run) => Some(Plain([]).(pend := p + run))
    case Block(a, b) =>
      var ga :- Gen(a, p);
      var gb :- Gen(b, ga.pend);
      Some(Append(ga, gb))
    case If(a) => IfPiece(TestOf(p), Gen(a, []))
    case IfElse(a, b) => IfElsePiece(TestOf(p), Gen(a, []), Gen(b, []))
    case Until(a) => UntilPiece(FlushToks(p), Gen(a, []))
    case While(a, b) => WhilePiece(FlushToks(p), Gen(a, []), Gen(b, []))
    case DoLoop(b, skipEqual, step) => LoopPiece(FlushToks(p), Gen(b, []), skipEqual, step)
    case Leave => LeafPiece(FlushToks(p), LeaveCode())
    case Unloop => LeafPiece(FlushToks(p), Plain([Line(Branches.Unloop())]))
    case Exit => LeafPiece(FlushToks(p), ExitCode())
    case Case(arms) => GenArms(arms, p)
  }

  function GenArms(arms: Arms, p: seq<Tok>): Option<Piece>
    decreases arms
  {
    match arms
    case Default(last) =>
      var g :- Gen(last, p);
      Flushed(g.(pend := g.pend + [Stk(Drop)]))
    case Of(test, body, rest) =>
      var g :- Gen(test, p);
      var ie :- ArmPiece(TestOf(g.pend + [Stk(Over), Cmp(Eq)]), Gen(body, [Stk(Drop)]), GenArms(rest, []));
      Some(Append(g, ie))
  }

  /** One arm, the rest of the arms already closed. */
  function ArmPiece(ot: Option<(Piece, Branch)>, ob: Option<Piece>, orest: Option<Piece>): Option<Piece> {
    var (t, br) :- ot;
    var gb :- ob;
    var fb :- Flushed(gb);
    var gr :- orest;
    Some(AssembleIfElse(t, br, fb, gr))
  }
}
