/** The definition under construction, as it is updated: words append to the body and patch
    it in place. Each method does what the function of `Compiler` says, refusals included; a
    word keeps the branches sound, and a committed definition means its text. */
module Colon {
  import opened Options
  import opened Tokens
  import opened Reduce
  import opened Machine
  import opened Window
  import opened Lowerers
  import opened Branches
  import opened Structured
  import opened Flow
  import opened Compiler
  import opened Committed
  import opened Patching

  predicate ValidWord(w: Word) {
    w.Inline? ==> ValidToks(w.run)
  }

  predicate ValidWords(ws: seq<Word>) {
    forall i | 0 <= i < |ws| :: ValidWord(ws[i])
  }

  class ColonDef {
    var body: seq<Instr>
    var toks: seq<Tok>
    var cf: seq<Cf>
    var exits: seq<nat>

    ghost function State(): Def
      reads this
    {
      Def(body, toks, cf, exits)
    }

    /** The lowerer accepts the pending tokens. */
    ghost predicate Valid()
      reads this
    {
      ValidToks(toks)
    }

    /** The error returned, or the new state. */
    ghost predicate Follows(error: Option<Error>, expected: Result<Def>)
      reads this
    {
      match expected
      case Ok(d) => error == None && State() == d
      case Err(e) => error == Some(e)
    }

    constructor ()
      ensures Valid() && State() == Compiler.Start()
    {
      body, toks, cf, exits := [Line(PushRp(LR))], [], [], [];
    }

    /** Reduce and lower the pending tokens. */
    method FlushPending() returns (error: Option<Error>)
      requires Valid()
      modifies this`body, this`toks
      ensures Follows(error, Flush(old(State())))
      ensures Valid()
    {
      hide Reduced, Lowered;
      error := None;
      if toks != [] {
        var reduced := ReduceRun(toks);
        ReducedShrinks(toks);
        var code := Lower(reduced);
        if code.None? {
          return Some(NoRegister);
        }
        body := body + Lift(code.value);
        toks := [];
      } else {
        assert body + [] == body;
      }
    }

    method PatchAll(at: seq<nat>, target: nat)
      modifies this`body
      ensures body == PatchBconds(old(body), at, target)
    {
      var i := 0;
      while i < |at|
        invariant 0 <= i <= |at|
        invariant PatchBconds(body, at[i..], target) == PatchBconds(old(body), at, target)
      {
        var k := at[i];
        if k < |body| && body[k].Bcond? {
          body := body[k := EncBcond(body[k].cond, target - k)];
        }
        assert at[i..][1..] == at[i + 1..];
        i := i + 1;
      }
    }

    method PatchEntry(c: Cf, target: nat)
      modifies this`body
      ensures body == Patch(old(body), c, target)
    {
      match c
      case FwdCbz(i) => body := Put(body, i, EncCbz(SCRATCH, target - i));
      case FwdBcond(i) => PatchAll([i], target);
      case FwdB(i) => body := Put(body, i, EncJump(target - i));
      case Do(_, fwds) => PatchAll(fwds, target);
      case _ =>
    }

    method PopCf() returns (c: Option<Cf>)
      modifies this`cf
      ensures c == Last(old(cf)) && cf == ButLast(old(cf))
    {
      c := None;
      if cf != [] {
        c := Some(cf[|cf| - 1]);
        cf := cf[..|cf| - 1];
      }
    }

    /** The test of `if`, `until` and `while`; a comparison at the end of the pending tokens
        is fused into the branch. */
    method EmitTest() returns (error: Option<Error>, c: Cf)
      requires Valid()
      modifies this`body, this`toks
      ensures match CompileTest(old(State()))
              case Ok((d, q)) => error == None && c == q && State() == d
              case Err(e) => error == Some(e)
      ensures Valid()
    {
      hide Flush, FusedCmp, CondOf, Invert;
      c := CaseMark;
      if |toks| > 0 && toks[|toks| - 1].Cmp? {
        var op := toks[|toks| - 1].c;
        toks := toks[..|toks| - 1];
        error := FlushPending();
        if error == None {
          body := body + Lift(FusedCmp(op));
          c := FwdBcond(|body|);
          body := body + [EncBcond(Invert(CondOf(op)), 0)];
        }
      } else {
        error := FlushPending();
        if error == None {
          body := body + Lift(FlagTest());
          c := FwdCbz(|body|);
          body := body + [EncCbz(SCRATCH, 0)];
        }
      }
    }

    method If() returns (error: Option<Error>)
      requires Valid()
      modifies this
      ensures Follows(error, CompileIf(old(State())))
      ensures Valid()
    {
      hide CompileTest;
      var c;
      error, c := EmitTest();
      if error == None {
        cf := cf + [c];
      }
    }

    method Else() returns (error: Option<Error>)
      requires Valid()
      modifies this
      ensures Follows(error, CompileElse(old(State())))
      ensures Valid()
    {
      hide Flush, Patch, EncJump;
      error := FlushPending();
      if error == None {
        var at := |body|;
        body := body + [EncJump(0)];
        var c := PopCf();
        if !IsCond(c) {
          return Some(ElseWithoutIf);
        }
        PatchEntry(c.value, |body|);
        cf := cf + [FwdB(at)];
      }
    }

    /** Close the innermost `if` or `else` here. */
    method Close() returns (error: Option<Error>)
      modifies this`body, this`cf
      ensures Follows(error, CloseThen(old(State())))
    {
      hide Patch;
      var c := PopCf();
      if !(IsCond(c) || (c.Some? && c.value.FwdB?)) {
        return Some(ThenWithoutIf);
      }
      PatchEntry(c.value, |body|);
      error := None;
    }

    method Then() returns (error: Option<Error>)
      requires Valid()
      modifies this
      ensures Follows(error, CompileWord(old(State()), ThenWord))
      ensures Valid()
    {
      hide Flush, CloseThen;
      error := FlushPending();
      if error == None {
        error := Close();
      }
    }

    method BeginTok() returns (error: Option<Error>)
      requires Valid()
      modifies this
      ensures Follows(error, CompileWord(old(State()), BeginWord))
      ensures Valid()
    {
      hide Flush;
      error := FlushPending();
      if error == None {
        cf := cf + [Begin(|body|)];
      }
    }

    method Until() returns (error: Option<Error>)
      requires Valid()
      modifies this
      ensures Follows(error, CompileUntil(old(State())))
      ensures Valid()
    {
      hide CompileTest, Patch;
      var c;
      error, c := EmitTest();
      if error == None {
        var b := PopCf();
        if !(b.Some? && b.value.Begin?) {
          return Some(UntilWithoutBegin);
        }
        PatchEntry(c, b.value.target);
      }
    }

    method Repeat() returns (error: Option<Error>)
      requires Valid()
      modifies this
      ensures Follows(error, CompileRepeat(old(State())))
      ensures Valid()
    {
      hide Flush, Patch, EncJump;
      error := FlushPending();
      if error == None {
        var branch := PopCf();
        var b := PopCf();
        if !(b.Some? && b.value.Begin?) {
          return Some(RepeatWithoutBegin);
        }
        body := body + [EncJump(b.value.target - |body|)];
        if !IsCond(branch) {
          return Some(RepeatWithoutWhile);
        }
        PatchEntry(branch.value, |body|);
      }
    }

    method DoTok(skipEqual: bool) returns (error: Option<Error>)
      requires Valid()
      modifies this
      ensures Follows(error, CompileDo(old(State()), skipEqual))
      ensures Valid()
    {
      hide Flush, DoHead;
      error := FlushPending();
      if error == None {
        body := body + DoHead(skipEqual).code;
        DoHeadSize(skipEqual);
        cf := cf + [Do(|body|, if skipEqual then [|body| - 1] else [])];
      }
    }

    method Loop(step: bool) returns (error: Option<Error>)
      requires Valid()
      modifies this
      ensures Follows(error, CompileLoop(old(State()), step))
      ensures Valid()
    {
      hide Flush, PatchBconds, EncTbzSign, LoopStep;
      error := FlushPending();
      if error == None {
        var c := PopCf();
        if !(c.Some? && c.value.Do?) {
          return Some(LoopWithoutDo);
        }
        body := body + Lift(LoopStep(step));
        body := body + [EncTbzSign(11, c.value.top - |body|), Line(AddRp(2))];
        PatchAll(c.value.fwds, |body| - 1);
      }
    }

    /** Give the branch at `at` to the innermost loop; false when there is none. */
    method AddToLoop(at: nat) returns (found: bool)
      modifies this`cf
      ensures found == HasLoop(old(cf))
      ensures cf == if found then AddLeaves(old(cf), [at]) else old(cf)
    {
      var k := |cf|;
      while k > 0 && !cf[k - 1].Do?
        invariant 0 <= k <= |cf| && cf == old(cf)
        invariant forall j | k <= j < |cf| :: !cf[j].Do?
      {
        k := k - 1;
      }
      found := k > 0;
      if found {
        var c := cf[k - 1];
        AddedAt(cf, k - 1, at);
        cf := cf[k - 1 := Do(c.top, c.fwds + [at])];
      }
    }

    method LeaveTok() returns (error: Option<Error>)
      requires Valid()
      modifies this
      ensures Follows(error, CompileLeave(old(State())))
      ensures Valid()
    {
      hide Flush, EncBcond, AddLeaves, HasLoop;
      error := FlushPending();
      if error == None {
        var at := |body|;
        body := body + [EncBcond(AL, 0)];
        var found := AddToLoop(at);
        if !found {
          return Some(LeaveOutsideLoop);
        }
      }
    }

    method ExitTok() returns (error: Option<Error>)
      requires Valid()
      modifies this
      ensures Follows(error, CompileWord(old(State()), ExitWord))
      ensures Valid()
    {
      hide Flush, EncJump;
      error := FlushPending();
      if error == None {
        var at := |body|;
        body := body + [EncJump(0)];
        exits := exits + [at];
      }
    }

    method UnloopTok() returns (error: Option<Error>)
      requires Valid()
      modifies this
      ensures Follows(error, CompileWord(old(State()), UnloopWord))
      ensures Valid()
    {
      hide Flush;
      error := FlushPending();
      if error == None {
        body := body + [Line(Branches.Unloop())];
      }
    }

    /** `endcase`: close every open `endof` back to the marker. */
    method Endcase() returns (error: Option<Error>)
      requires Valid()
      modifies this
      ensures Follows(error, CompileWord(old(State()), EndcaseWord))
      ensures Valid()
    {
      hide Flush, CloseThen;
      toks := toks + [Stk(Drop)];
      error := FlushPending();
      if error == None {
        ghost var d := State();
        while Last(cf).Some? && !Last(cf).value.CaseMark?
          invariant error == None && Valid() && CloseCase(State()) == CloseCase(d)
          decreases |cf|
        {
          if CloseThen(State()).Ok? {
            CloseShrinks(State());
          }
          error := Close();
          if error.Some? {
            return;
          }
        }
        if Last(cf).None? {
          return Some(EndcaseWithoutCase);
        }
        var m := PopCf();
      }
    }

    /** Compile one word. */
    method CompileTok(w: Word) returns (error: Option<Error>)
      requires Valid() && ValidWord(w)
      modifies this
      ensures Follows(error, CompileWord(old(State()), w))
      ensures error == None && Sound(old(State())) && |body| < MAX_CODE ==>
                Sound(State()) && Kept(old(State()), State()) && Places(old(State()), w, State())
      ensures Valid()
    {
      hide CompileWord, Sound, Kept, Places;
      ghost var d := State();
      error := CompileCode(w);
      if error == None && |body| < MAX_CODE {
        WordPlaces(d, w);
      }
    }

    method CompileCode(w: Word) returns (error: Option<Error>)
      requires Valid() && ValidWord(w)
      modifies this
      ensures Follows(error, CompileWord(old(State()), w))
      ensures Valid()
    {
      hide CompileIf, CompileElse, CompileUntil, CompileRepeat, CompileDo, CompileLoop, CompileLeave, CloseCase,
           Flush, CloseThen, EncJump;
      error := None;
      match w
      case Inline(run) => toks := toks + run;
      case IfWord => error := If();
      case UnlessWord =>
        toks := toks + [Cmp(ZEq)];
        error := If();
      case ElseWord => error := Else();
      case ThenWord => error := Then();
      case BeginWord => error := BeginTok();
      case UntilWord => error := Until();
      case WhileWord => error := If();
      case RepeatWord => error := Repeat();
      case DoWord => error := DoTok(false);
      case QDoWord => error := DoTok(true);
      case LoopWord => error := Loop(false);
      case PlusLoopWord => error := Loop(true);
      case LeaveWord => error := LeaveTok();
      case UnloopWord => error := UnloopTok();
      case ExitWord => error := ExitTok();
      case CaseWord => cf := cf + [CaseMark];
      case OfWord =>
        toks := toks + [Stk(Over), Cmp(Eq)];
        error := If();
        if error == None {
          toks := toks + [Stk(Drop)];
        }
      case EndofWord => error := Else();
      case EndcaseWord => error := Endcase();
    }

    /** Compile words until one is refused. */
    method CompileToks(ws: seq<Word>) returns (error: Option<Error>)
      requires Valid() && ValidWords(ws)
      modifies this
      ensures Follows(error, CompileAll(ws, old(State())))
      ensures Valid()
    {
      hide CompileWord;
      var i := 0;
      error := None;
      while i < |ws|
        invariant 0 <= i <= |ws| && error == None && Valid()
        invariant CompileAll(ws[i..], State()) == CompileAll(ws, old(State()))
      {
        assert ws[i..][0] == ws[i] && ws[i..][1..] == ws[i + 1..];
        error := CompileTok(ws[i]);
        if error.Some? {
          return;
        }
        i := i + 1;
      }
      assert ws[|ws|..] == [];
    }

    /** Point every `exit` to the epilogue. */
    method PatchExits(target: nat)
      modifies this`body
      ensures body == PatchJumps(old(body), exits, target)
    {
      hide EncJump, Put;
      var i := 0;
      while i < |exits|
        invariant 0 <= i <= |exits|
        invariant PatchJumps(body, exits[i..], target) == PatchJumps(old(body), exits, target)
      {
        body := Put(body, exits[i], EncJump(target - exits[i]));
        assert exits[i..][1..] == exits[i + 1..];
        i := i + 1;
      }
    }

    /** Finish the body: the tail call or the epilogue, and every `exit` patched to it. */
    method CommitBody(arena: set<Addr>) returns (error: Option<Error>)
      requires Valid()
      modifies this
      ensures match Commit(old(State()), arena)
              case Ok(code) => error == None && body == code
              case Err(e) => error == Some(e)
      ensures error == None && old(ExitsWithin(State())) ==> EndsAs(old(State()), arena, body)
      ensures Valid()
    {
      hide Flush, TailCode, Epilogue, EncJump, PatchJumps, TailOf, EndsAs, ExitsWithin;
      var tail := TailOf(toks, arena);
      CommitEndsWell(State(), arena);
      TailNeedsTokens(toks, arena);
      if tail.Some? {
        toks := toks[..|toks| - 1];
      }
      error := FlushPending();
      if error.Some? {
        return;
      }
      if cf != [] {
        return Some(Unbalanced);
      }
      body := body + if tail.Some? then TailCode(tail.value) else [];
      if tail.None? || exits != [] {
        var target := |body|;
        body := body + Epilogue();
        PatchExits(target);
      }
    }
  }

  lemma CommitEndsWell(d: Def, arena: set<Addr>)
    ensures ExitsWithin(d) && Commit(d, arena).Ok? ==> EndsAs(d, arena, Commit(d, arena).value)
  {
    hide Commit, EndsAs, ExitsWithin;
    if ExitsWithin(d) && Commit(d, arena).Ok? {
      CommitEnds(d, arena);
    }
  }

  lemma TailNeedsTokens(toks: seq<Tok>, arena: set<Addr>)
    ensures TailOf(toks, arena).Some? ==> toks != []
  {
  }

  lemma DoHeadSize(skipEqual: bool)
    ensures |DoHead(skipEqual).code| > 0
  {
  }

  /** The innermost loop is the last `Do` entry. */
  lemma {:induction false} AddedAt(cf: seq<Cf>, k: nat, at: nat)
    requires k < |cf| && cf[k].Do? && forall j | k < j < |cf| :: !cf[j].Do?
    ensures AddLeaves(cf, [at]) == cf[k := Do(cf[k].top, cf[k].fwds + [at])] && HasLoop(cf)
    decreases |cf|
  {
    if k < |cf| - 1 {
      AddedAt(ButLast(cf), k, at);
    }
  }

  lemma WordPlaces(d: Def, w: Word)
    requires CompileWord(d, w).Ok? && |CompileWord(d, w).value.body| < MAX_CODE
    ensures var e := CompileWord(d, w).value; Sound(d) ==> Sound(e) && Kept(d, e) && Places(d, w, e)
  {
    hide CompileWord, Sound, Kept, Places;
    if Sound(d) {
      WordSound(d, w);
    }
  }

  /** A committed body that means the text `ws`, if the text is structured and fits: started
      anywhere, it hands over what the structured meaning gives. */
  ghost predicate BodyMeans(body: seq<Instr>, ws: seq<Word>, arena: set<Addr>) {
    forall env: Env, s: Stmt, m: Mach, st: Forth, fuel: nat, o: Outcome ::
      Starts(body, ws, arena, env, s, m, st, fuel, o) ==>
        Completes(env, arena, body, m, o.st.(rs := o.st.rs[1..]), o.st.rs[0])
  }

  ghost predicate Starts(body: seq<Instr>, ws: seq<Word>, arena: set<Addr>, env: Env, s: Stmt, m: Mach, st: Forth,
                         fuel: nat, o: Outcome) {
    && ValidStmt(s) && Desugared(ws) == Flatten(s) && |body| < MAX_CODE && DefinitionFits(s, arena)
    && Clean(env.words, arena) && Shows(env, m, st)
    && Eval(env.words, s, st.(rs := [X(m, LR)] + st.rs), fuel) == Some(o) && o.st.rs != []
  }

  lemma DefinitionMeans(ws: seq<Word>, arena: set<Addr>)
    requires CompileDefinition(ws, arena).Ok?
    ensures BodyMeans(CompileDefinition(ws, arena).value, ws, arena)
  {
    hide CompileDefinition, Completes, ValidStmt, Desugared, Flatten, DefinitionFits, Clean, Shows, Eval;
    var body := CompileDefinition(ws, arena).value;
    forall env: Env, s: Stmt, m: Mach, st: Forth, fuel: nat, o: Outcome
      | Starts(body, ws, arena, env, s, m, st, fuel, o)
      ensures Completes(env, arena, body, m, o.st.(rs := o.st.rs[1..]), o.st.rs[0])
    {
      DefinitionRuns(env, arena, ws, s, m, st, fuel, o);
    }
  }

  /** Every branch of a committed body goes to an instruction of it. */
  ghost predicate BranchesInside(body: seq<Instr>) {
    forall i | 0 <= i < |body| && TargetOf(body[i], i).Some? :: 0 <= TargetOf(body[i], i).value < |body|
  }

  lemma DefinitionBranches(ws: seq<Word>, arena: set<Addr>)
    requires CompileDefinition(ws, arena).Ok? && |CompileDefinition(ws, arena).value| < MAX_CODE
    ensures BranchesInside(CompileDefinition(ws, arena).value)
  {
    hide CompileAll, Commit, TargetOf;
    NoWords();
    CommittedBranches([], ws, arena, Compiler.Start());
  }

  lemma NoWords()
    ensures CompileAll([], Compiler.Start()) == Result.Ok(Compiler.Start())
  {
  }

  /** Compile and commit one definition: what is committed means the text, and its branches
      stay inside it. */
  method CompileColon(ws: seq<Word>, arena: set<Addr>) returns (r: Result<seq<Instr>>)
    requires ValidWords(ws)
    ensures r == CompileDefinition(ws, arena)
    ensures r.Ok? ==> BodyMeans(r.value, ws, arena)
    ensures r.Ok? && |r.value| < MAX_CODE ==> BranchesInside(r.value)
  {
    hide CompileAll, Commit, BodyMeans, BranchesInside;
    var def := new ColonDef();
    var error := def.CompileToks(ws);
    if error == None {
      error := def.CommitBody(arena);
    }
    r := if error.Some? then Err(error.value) else Ok(def.body);
    if r.Ok? {
      DefinitionMeans(ws, arena);
      if |r.value| < MAX_CODE {
        DefinitionBranches(ws, arena);
      }
    }
  }
}
