/** The control-flow compiler: it works through the words of a definition once, appending
    code to a flat body, and goes back to patch each forward branch when it learns the
    target. */
module Compiler {
  import opened Options
  import opened Cells
  import opened Tokens
  import opened Machine
  import opened Branches
  import opened Structured

  /** What the compiler refuses. `NoRegister` is the panic of the lowerer. */
  datatype Error =
    | ElseWithoutIf | ThenWithoutIf | UntilWithoutBegin | RepeatWithoutBegin | RepeatWithoutWhile
    | LeaveOutsideLoop | LoopWithoutDo | EndcaseWithoutCase | Unbalanced | NoRegister

  datatype Result<+T> = Ok(value: T) | Err(error: Error) {
    predicate IsFailure() {
      Err?
    }

    function PropagateFailure<U>(): Result<U>
      requires Err?
    {
      Err(error)
    }

    function Extract(): T
      requires Ok?
    {
      value
    }
  }

  /** Entries of the control-flow stack: positions of branches to patch, and targets. */
  datatype Cf =
    | FwdCbz(at: nat)
    | FwdBcond(at: nat)
    | FwdB(at: nat)
    | Begin(target: nat)
    | Do(top: nat, fwds: seq<nat>)
    | CaseMark

  /** A definition being compiled; the last entry of `cf` is the innermost. */
  datatype Def = Def(body: seq<Instr>, toks: seq<Tok>, cf: seq<Cf>, exits: seq<nat>)

  datatype Word =
    | Inline(run: seq<Tok>)
    | IfWord | UnlessWord | ElseWord | ThenWord
    | BeginWord | UntilWord | WhileWord | RepeatWord
    | DoWord | QDoWord | LoopWord | PlusLoopWord | LeaveWord | UnloopWord
    | ExitWord
    | CaseWord | OfWord | EndofWord | EndcaseWord

  function Last(cf: seq<Cf>): Option<Cf> {
    if cf == [] then None else Some(cf[|cf| - 1])
  }

  function ButLast(cf: seq<Cf>): seq<Cf> {
    if cf == [] then [] else cf[..|cf| - 1]
  }

  function Put(body: seq<Instr>, at: nat, i: Instr): (r: seq<Instr>)
    ensures |r| == |body|
  {
    if at < |body| then body[at := i] else body
  }

  /** Point the forward branch of a control-flow entry to `target`. */
  function Patch(body: seq<Instr>, c: Cf, target: int): (r: seq<Instr>)
    ensures |r| == |body|
  {
    match c
    case FwdCbz(i) => Put(body, i, EncCbz(SCRATCH, target - i))
    case FwdBcond(i) => PatchBconds(body, [i], target)
    case FwdB(i) => Put(body, i, EncJump(target - i))
    case Do(_, fwds) => PatchBconds(body, fwds, target)
    case _ => body
  }

  predicate IsCond(c: Option<Cf>) {
    c.Some? && (c.value.FwdCbz? || c.value.FwdBcond?)
  }

  function Flush(d: Def): Result<Def> {
    match FlushToks(d.toks)
    case None => Err(NoRegister)
    case Some(f) => Ok(d.(body := d.body + f.code, toks := []))
  }

  /** The code of a test with its branch still to be patched; a comparison at the end of the
      pending run is fused into the branch. */
  function CompileTest(d: Def): Result<(Def, Cf)> {
    var n := |d.toks|;
    if n > 0 && d.toks[n - 1].Cmp? then
      var c := d.toks[n - 1].c;
      var d1 :- Flush(d.(toks := d.toks[..n - 1]));
      var body := d1.body + Lift(FusedCmp(c));
      Ok((d1.(body := body + [EncBcond(Invert(CondOf(c)), 0)]), FwdBcond(|body|)))
    else
      var d1 :- Flush(d);
      var body := d1.body + Lift(FlagTest());
      Ok((d1.(body := body + [EncCbz(SCRATCH, 0)]), FwdCbz(|body|)))
  }

  function CompileIf(d: Def): Result<Def> {
    var (d1, c) :- CompileTest(d);
    Ok(d1.(cf := d1.cf + [c]))
  }

  function CompileElse(d: Def): Result<Def> {
    var d1 :- Flush(d);
    var at := |d1.body|;
    var body := d1.body + [EncJump(0)];
    if IsCond(Last(d1.cf)) then
      Ok(d1.(body := Patch(body, Last(d1.cf).value, |body|), cf := ButLast(d1.cf) + [FwdB(at)]))
    else Err(ElseWithoutIf)
  }

  /** Close the innermost `if` or `else` here. */
  function CloseThen(d: Def): Result<Def> {
    if IsCond(Last(d.cf)) || (Last(d.cf).Some? && Last(d.cf).value.FwdB?) then
      Ok(d.(body := Patch(d.body, Last(d.cf).value, |d.body|), cf := ButLast(d.cf)))
    else Err(ThenWithoutIf)
  }

  /** Close every open `then` back to the marker of `case`. */
  function CloseCase(d: Def): Result<Def>
    decreases |d.cf|
  {
    match Last(d.cf)
    case Some(CaseMark) => Ok(d.(cf := ButLast(d.cf)))
    case Some(_) =>
      var d1 :- CloseThen(d);
      CloseCase(d1)
    case None => Err(EndcaseWithoutCase)
  }

  function CompileUntil(d: Def): Result<Def> {
    var (d1, c) :- CompileTest(d);
    if Last(d1.cf).Some? && Last(d1.cf).value.Begin? then
      Ok(d1.(body := Patch(d1.body, c, Last(d1.cf).value.target), cf := ButLast(d1.cf)))
    else Err(UntilWithoutBegin)
  }

  function CompileRepeat(d: Def): Result<Def> {
    var d1 :- Flush(d);
    var branch, cf := Last(d1.cf), ButLast(d1.cf);
    if Last(cf).Some? && Last(cf).value.Begin? then
      var body := d1.body + [EncJump(Last(cf).value.target - |d1.body|)];
      if IsCond(branch) then
        Ok(d1.(body := Patch(body, branch.value, |body|), cf := ButLast(cf)))
      else Err(RepeatWithoutWhile)
    else Err(RepeatWithoutBegin)
  }

  function CompileDo(d: Def, skipEqual: bool): Result<Def> {
    var d1 :- Flush(d);
    var body := d1.body + DoHead(skipEqual).code;
    Ok(d1.(body := body, cf := d1.cf + [Do(|body|, if skipEqual then [|body| - 1] else [])]))
  }

  function CompileLoop(d: Def, step: bool): Result<Def> {
    var d1 :- Flush(d);
    var c := Last(d1.cf);
    if c.Some? && c.value.Do? then
      var body := d1.body + Lift(LoopStep(step));
      var closed := body + [EncTbzSign(11, c.value.top - |body|), Line(AddRp(2))];
      Ok(d1.(body := Patch(closed, c.value, |closed| - 1), cf := ButLast(d1.cf)))
    else Err(LoopWithoutDo)
  }

  /** Add forward branches to the innermost loop. */
  function AddLeaves(cf: seq<Cf>, xs: seq<nat>): (r: seq<Cf>)
    ensures |r| == |cf|
    decreases |cf|
  {
    if cf == [] then []
    else
      var c := cf[|cf| - 1];
      if c.Do? then ButLast(cf) + [Do(c.top, c.fwds + xs)] else AddLeaves(ButLast(cf), xs) + [c]
  }

  predicate HasLoop(cf: seq<Cf>) {
    exists i | 0 <= i < |cf| :: cf[i].Do?
  }

  function CompileLeave(d: Def): Result<Def> {
    var d1 :- Flush(d);
    if HasLoop(d1.cf) then
      Ok(d1.(body := d1.body + [EncBcond(AL, 0)], cf := AddLeaves(d1.cf, [|d1.body|])))
    else Err(LeaveOutsideLoop)
  }

  function CompileWord(d: Def, w: Word): Result<Def> {
    match w
    case Inline(run) => Ok(d.(toks := d.toks + run))
    case IfWord => CompileIf(d)
    case UnlessWord => CompileIf(d.(toks := d.toks + [Cmp(ZEq)]))
    case ElseWord => CompileElse(d)
    case ThenWord =>
      var d1 :- Flush(d);
      CloseThen(d1)
    case BeginWord =>
      var d1 :- Flush(d);
      Ok(d1.(cf := d1.cf + [Begin(|d1.body|)]))
    case UntilWord => CompileUntil(d)
    case WhileWord => CompileIf(d)
    case RepeatWord => CompileRepeat(d)
    case DoWord => CompileDo(d, false)
    case QDoWord => CompileDo(d, true)
    case LoopWord => CompileLoop(d, false)
    case PlusLoopWord => CompileLoop(d, true)
    case LeaveWord => CompileLeave(d)
    case UnloopWord =>
      var d1 :- Flush(d);
      Ok(d1.(body := d1.body + [Line(Branches.Unloop())]))
    case ExitWord =>
      var d1 :- Flush(d);
      Ok(d1.(body := d1.body + [EncJump(0)], exits := d1.exits + [|d1.body|]))
    case CaseWord => Ok(d.(cf := d.cf + [CaseMark]))
    case OfWord =>
      var d1 :- CompileIf(d.(toks := d.toks + [Stk(Over), Cmp(Eq)]));
      Ok(d1.(toks := d1.toks + [Stk(Drop)]))
    case EndofWord => CompileElse(d)
    case EndcaseWord =>
      var d1 :- Flush(d.(toks := d.toks + [Stk(Drop)]));
      CloseCase(d1)
  }

  function CompileAll(ws: seq<Word>, d: Def): Result<Def>
    decreases |ws|
  {
    if ws == [] then Ok(d)
    else
      var d1 :- CompileWord(d, ws[0]);
      CompileAll(ws[1..], d1)
  }

  // ----- the end of a definition -----

  /** The first instruction of every body saves the return address. */
  function Start(): Def {
    Def([Line(PushRp(LR))], [], [], [])
  }

  /** A final call to an arena word. */
  function TailOf(toks: seq<Tok>, arena: set<Addr>): Option<Cell> {
    if toks == [] then None
    else
      match toks[|toks| - 1]
      case Call(xt) => if Addr(xt) in arena then Some(xt) else None
      case _ => None
  }

  /** Restore the return address and jump to `xt`. */
  function TailCode(xt: Cell): seq<Instr> {
    Lift([PopRp(LR)] + LoadImm64(CALL_TMP, xt)) + [BrReg(CALL_TMP)]
  }

  function Epilogue(): seq<Instr> {
    [Line(PopRp(LR)), Ret]
  }

  function PatchJumps(body: seq<Instr>, at: seq<nat>, target: int): (r: seq<Instr>)
    ensures |r| == |body|
    decreases |at|
  {
    if at == [] then body else PatchJumps(Put(body, at[0], EncJump(target - at[0])), at[1..], target)
  }

  lemma {:induction false} JumpPatchedAt(body: seq<Instr>, at: seq<nat>, target: int, i: nat)
    requires i < |body|
    ensures PatchJumps(body, at, target)[i] == if i in at then EncJump(target - i) else body[i]
    decreases |at|
  {
    hide EncJump;
    if at != [] {
      JumpPatchedAt(Put(body, at[0], EncJump(target - at[0])), at[1..], target, i);
      assert at == [at[0]] + at[1..];
    }
  }

  /** The finished body. The epilogue is there for the fall-through end of a body without
      tail call, and for `exit`. */
  function Commit(d: Def, arena: set<Addr>): Result<seq<Instr>> {
    var tail := TailOf(d.toks, arena);
    var d1 :- Flush(if tail.Some? then d.(toks := d.toks[..|d.toks| - 1]) else d);
    if d1.cf != [] then Err(Unbalanced)
    else
      var body := d1.body + if tail.Some? then TailCode(tail.value) else [];
      if tail.None? || d1.exits != [] then
        Ok(PatchJumps(body + Epilogue(), d1.exits, |body|))
      else Ok(body)
  }

  /** The tokens end in a call of an arena word. */
  ghost predicate EndsInCall(toks: seq<Tok>, arena: set<Addr>, xt: Cell) {
    Addr(xt) in arena && exists p :: toks == p + [Call(xt)]
  }

  /** The jump comes of a call at the end, and of nothing else. */
  lemma TailIs(toks: seq<Tok>, arena: set<Addr>)
    ensures forall xt :: TailOf(toks, arena) == Some(xt) <==> EndsInCall(toks, arena, xt)
  {
    forall xt
      ensures TailOf(toks, arena) == Some(xt) <==> EndsInCall(toks, arena, xt)
    {
      if TailOf(toks, arena) == Some(xt) {
        assert toks == toks[..|toks| - 1] + [Call(xt)];
      }
    }
  }

  /** A committed body, `n` instructions compiled before its end: with a call of an arena word
      at the end it goes on by restoring the return address and a branch to that word, without
      one by restoring the return address and a return. */
  ghost predicate EndsAs(d: Def, arena: set<Addr>, code: seq<Instr>) {
    && (forall xt | EndsInCall(d.toks, arena, xt) :: EndsByJump(d, xt, code))
    && ((forall xt :: !EndsInCall(d.toks, arena, xt)) ==>
          |code| >= 2 && code[|code| - 2..] == [Line(PopRp(LR)), Ret]
          && Flush(d).Ok? && |code| == |Flush(d).value.body| + 2)
  }

  predicate EndsByJump(d: Def, xt: Cell, code: seq<Instr>)
    requires d.toks != []
  {
    var r := Flush(d.(toks := d.toks[..|d.toks| - 1]));
    r.Ok?
    && var n := |r.value.body|;
       n + 6 <= |code| && (d.exits == [] ==> |code| == n + 6)
       && code[n..n + 6] == Lift([PopRp(LR)] + LoadImm64(CALL_TMP, xt)) + [BrReg(CALL_TMP)]
  }

  /** Exits lie in the code compiled so far. */
  predicate ExitsWithin(d: Def) {
    forall i | i in d.exits :: i < |d.body|
  }

  lemma CommitEnds(d: Def, arena: set<Addr>)
    requires ExitsWithin(d) && Commit(d, arena).Ok?
    ensures EndsAs(d, arena, Commit(d, arena).value)
  {
    hide Flush, TailOf, EncJump, PatchJumps, LoadImm64;
    TailIs(d.toks, arena);
    var tail := TailOf(d.toks, arena);
    var e := if tail.Some? then d.(toks := d.toks[..|d.toks| - 1]) else d;
    FlushKeeps(e);
    var d1 := Flush(e).value;
    var code := Commit(d, arena).value;
    var body := d1.body + if tail.Some? then TailCode(tail.value) else [];
    if tail.Some? {
      TailSize(tail.value);
      assert EndsInCall(d.toks, arena, tail.value);
      var whole := if d1.exits != [] then body + Epilogue() else body;
      assert whole[|d1.body|..|d1.body| + 6] == TailCode(tail.value);
      PatchedOutside(whole, d1.exits, |body|, |d1.body|, |d1.body| + 6);
      assert PatchJumps(body, [], |body|) == body by { PatchedNothing(body, |body|); }
    } else {
      var whole := body + Epilogue();
      PatchedOutside(whole, d1.exits, |body|, |body|, |body| + 2);
      assert whole[|body|..|body| + 2] == Epilogue();
    }
  }

  lemma FlushKeeps(d: Def)
    ensures Flush(d).Ok? ==> Flush(d).value.exits == d.exits && |d.body| <= |Flush(d).value.body|
  {
    hide FlushToks;
  }

  lemma TailSize(xt: Cell)
    ensures |TailCode(xt)| == 6
  {
  }

  lemma PatchedNothing(body: seq<Instr>, target: int)
    ensures PatchJumps(body, [], target) == body
  {
  }

  lemma PatchedOutside(body: seq<Instr>, at: seq<nat>, target: int, lo: nat, hi: nat)
    requires lo <= hi <= |body| && forall i | i in at :: i < lo
    ensures PatchJumps(body, at, target)[lo..hi] == body[lo..hi]
  {
    hide PatchJumps, EncJump;
    forall i | lo <= i < hi
      ensures PatchJumps(body, at, target)[i] == body[i]
    {
      JumpPatchedAt(body, at, target, i);
    }
  }

  function CompileDefinition(ws: seq<Word>, arena: set<Addr>): Result<seq<Instr>> {
    var d :- CompileAll(ws, Start());
    Commit(d, arena)
  }

  /** `unless` written out. */
  function Desugared(ws: seq<Word>): seq<Word>
    decreases |ws|
  {
    if ws == [] then []
    else (if ws[0] == UnlessWord then [Inline([Cmp(ZEq)]), IfWord] else [ws[0]]) + Desugared(ws[1..])
  }

  // ----- the words of a statement -----

  function Flatten(s: Stmt): seq<Word>
    decreases s
  {
    match s
    case Toks(run) => [Inline(run)]
    case Block(a, b) => Flatten(a) + Flatten(b)
    case If(a) => [IfWord] + Flatten(a) + [ThenWord]
    case IfElse(a, b) => [IfWord] + Flatten(a) + [ElseWord] + Flatten(b) + [ThenWord]
    case Until(a) => [BeginWord] + Flatten(a) + [UntilWord]
    case While(a, b) => [BeginWord] + Flatten(a) + [WhileWord] + Flatten(b) + [RepeatWord]
    case DoLoop(b, skipEqual, step) =>
      [if skipEqual then QDoWord else DoWord] + Flatten(b) + [if step then PlusLoopWord else LoopWord]
    case Leave => [LeaveWord]
    case Unloop => [UnloopWord]
    case Exit => [ExitWord]
    case Case(arms) => [CaseWord] + FlattenArms(arms) + [EndcaseWord]
  }

  function FlattenArms(arms: Arms): seq<Word>
    decreases arms
  {
    match arms
    case Default(last) => Flatten(last)
    case Of(test, body, rest) =>
      Flatten(test) + [OfWord] + Flatten(body) + [EndofWord] + FlattenArms(rest)
  }
}
