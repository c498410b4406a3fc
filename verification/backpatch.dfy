/** Going back to patch branches builds exactly the code of the structured program. */
module Backpatch {
  import opened Options
  import opened Tokens
  import opened Machine
  import opened Branches
  import opened Structured
  import opened Flow
  import opened Compiler

  // ----- lists of words -----

  lemma {:induction false} CompileAppend(xs: seq<Word>, ys: seq<Word>, d: Def)
    ensures CompileAll(xs + ys, d)
         == (match CompileAll(xs, d) case Ok(d1) => CompileAll(ys, d1) case Err(e) => Err(e))
    decreases |xs|
  {
    hide CompileWord;
    if xs == [] {
      assert xs + ys == ys;
    } else {
      assert (xs + ys)[1..] == xs[1..] + ys;
      var r := CompileWord(d, xs[0]);
      if r.Ok? {
        CompileAppend(xs[1..], ys, r.value);
      }
    }
  }

  lemma CompileOne(w: Word, d: Def)
    ensures CompileAll([w], d) == CompileWord(d, w)
  {
    hide CompileWord;
    assert [w][1..] == [];
    var r := CompileWord(d, w);
    if r.Ok? {
      assert CompileAll([], r.value) == r;
    }
  }

  // ----- the state after a piece -----

  /** What compiling a piece does to a definition. */
  function After(d: Def, g: Piece): Def {
    Def(d.body + g.code, g.pend, AddLeaves(d.cf, Offset(g.leaves, |d.body|)),
        d.exits + Offset(g.exits, |d.body|))
  }

  /** A `leave` needs a loop. */
  predicate Fits(d: Def, g: Piece) {
    g.leaves == [] || HasLoop(d.cf)
  }

  /** The compiler accepts exactly what has code, and builds that code. */
  predicate Matches(r: Result<Def>, d: Def, og: Option<Piece>) {
    if og.Some? && Fits(d, og.value) then r == Ok(After(d, og.value)) else r.Err?
  }

  lemma {:induction false} LeavesNothing(cf: seq<Cf>)
    ensures AddLeaves(cf, []) == cf
    decreases |cf|
  {
    if cf != [] {
      var c := cf[|cf| - 1];
      assert cf == ButLast(cf) + [c];
      if c.Do? {
        assert c.fwds + [] == c.fwds;
      } else {
        LeavesNothing(ButLast(cf));
      }
    }
  }

  lemma LeavesPush(cf: seq<Cf>, c: Cf, xs: seq<nat>)
    ensures AddLeaves(cf + [c], xs)
         == if c.Do? then cf + [Do(c.top, c.fwds + xs)] else AddLeaves(cf, xs) + [c]
    ensures HasLoop(cf + [c]) <==> c.Do? || HasLoop(cf)
    ensures Last(cf + [c]) == Some(c) && ButLast(cf + [c]) == cf
  {
    var cs := cf + [c];
    assert ButLast(cs) == cf;
    if c.Do? {
      assert cs[|cf|].Do?;
    } else if HasLoop(cf) {
      var i :| 0 <= i < |cf| && cf[i].Do?;
      assert cs[i].Do?;
    }
  }

  lemma {:induction false} LeavesTwice(cf: seq<Cf>, xs: seq<nat>, ys: seq<nat>)
    ensures AddLeaves(AddLeaves(cf, xs), ys) == AddLeaves(cf, xs + ys)
    ensures HasLoop(AddLeaves(cf, xs)) == HasLoop(cf)
    decreases |cf|
  {
    hide HasLoop;
    if cf != [] {
      var c := cf[|cf| - 1];
      assert cf == ButLast(cf) + [c];
      LeavesPush(ButLast(cf), c, xs);
      LeavesPush(ButLast(cf), c, xs + ys);
      if c.Do? {
        LeavesPush(ButLast(cf), Do(c.top, c.fwds + xs), ys);
        assert c.fwds + xs + ys == c.fwds + (xs + ys);
      } else {
        LeavesPush(AddLeaves(ButLast(cf), xs), c, ys);
        LeavesTwice(ButLast(cf), xs, ys);
      }
    } else {
      assert !HasLoop(cf) by { NoLoop(); }
    }
  }

  lemma NoLoop()
    ensures !HasLoop([])
  {
  }

  lemma AfterAppend(d: Def, a: Piece, b: Piece)
    ensures After(After(d, a), b) == After(d, Append(a, b))
    ensures Fits(After(d, a), b) <==> b.leaves == [] || HasLoop(d.cf)
    ensures Fits(d, Append(a, b)) <==> Fits(d, a) && Fits(d, b)
  {
    hide AddLeaves, HasLoop;
    var n := |d.body|;
    LeavesTwice(d.cf, Offset(a.leaves, n), Offset(b.leaves, n + |a.code|));
    LeavesTwice(d.cf, Offset(a.leaves, n), []);
    OffsetTwice(b.leaves, |a.code|, n);
    OffsetTwice(b.exits, |a.code|, n);
    OffsetAppend(a.leaves, Offset(b.leaves, |a.code|), n);
    OffsetAppend(a.exits, Offset(b.exits, |a.code|), n);
    assert d.body + a.code + b.code == d.body + (a.code + b.code);
    assert d.exits + Offset(a.exits, n) + Offset(b.exits, n + |a.code|)
        == d.exits + (Offset(a.exits, n) + Offset(b.exits, n + |a.code|));
  }

  /** A piece without branches out of it only adds code. */
  lemma AfterPlain(d: Def, g: Piece)
    requires g.leaves == [] && g.exits == []
    ensures After(d, g) == d.(body := d.body + g.code, toks := g.pend) && Fits(d, g)
  {
    LeavesNothing(d.cf);
    assert d.exits + [] == d.exits;
    assert Offset(g.leaves, |d.body|) == [] && Offset(g.exits, |d.body|) == [];
  }

  /** Compiling under one more control-flow entry, which is not a loop. */
  lemma AfterPush(d: Def, c: Cf, g: Piece)
    requires !c.Do?
    ensures After(d.(cf := d.cf + [c]), g) == (var r := After(d, g); r.(cf := r.cf + [c]))
    ensures Fits(d.(cf := d.cf + [c]), g) == Fits(d, g)
  {
    hide AddLeaves, HasLoop;
    LeavesPush(d.cf, c, Offset(g.leaves, |d.body|));
  }

  lemma FlushIs(d: Def)
    ensures var of := FlushToks(d.toks);
            if of.Some? then Flush(d) == Ok(After(d, of.value)) && Fits(d, of.value) else Flush(d).Err?
  {
    hide FlushToks, After, Fits;
    if FlushToks(d.toks).Some? {
      FlushWellFormed(d.toks);
      AfterPlain(d, FlushToks(d.toks).value);
    }
  }

  lemma FlushAfter(d: Def, g: Piece)
    ensures var og := Flushed(g);
            if og.Some? then Flush(After(d, g)) == Ok(After(d, og.value)) && (Fits(d, og.value) <==> Fits(d, g))
            else Flush(After(d, g)).Err?
  {
    hide FlushToks, Fits, Flush;
    FlushIs(After(d, g));
    if FlushToks(g.pend).Some? {
      var f := FlushToks(g.pend).value;
      FlushWellFormed(g.pend);
      AfterAppend(d, g, f);
      AfterPlain(d, f);
    }
  }

  // ----- tests -----

  function CfOf(br: Branch, at: nat): Cf {
    if br.OnZero? then FwdCbz(at) else FwdBcond(at)
  }

  /** A branch at the end of what has been compiled. */
  function Branching(d: Def, c: seq<Instr>, i: Instr): Def {
    d.(body := d.body + c + [i])
  }

  lemma BranchingIs(d: Def, f: Piece, c: seq<Instr>, br: Branch)
    requires f.leaves == [] && f.exits == [] && f.pend == []
    ensures var t := Append(f, Plain(c));
            Branching(After(d, f), c, BranchOff(br, 0)) == After(d, Append(t, Plain([BranchOff(br, 0)])))
            && |d.body| + |t.code| == |After(d, f).body + c| && t.leaves == [] && t.exits == []
  {
    hide BranchOff;
    AfterPlain(d, f);
    AfterPlain(d, Append(Append(f, Plain(c)), Plain([BranchOff(br, 0)])));
    assert d.body + f.code + c + [BranchOff(br, 0)] == d.body + (f.code + c + [BranchOff(br, 0)]);
  }

  lemma TestIs(d: Def)
    ensures match TestOf(d.toks)
            case None => CompileTest(d).Err?
            case Some((t, br)) =>
              CompileTest(d) == Ok((After(d, Append(t, Plain([BranchOff(br, 0)]))), CfOf(br, |d.body| + |t.code|)))
              && t.leaves == [] && t.exits == []
  {
    var n := |d.toks|;
    if n > 0 && d.toks[n - 1].Cmp? {
      FusedIs(d, d.toks[n - 1].c);
    } else {
      FlagIs(d);
    }
  }

  lemma FusedIs(d: Def, c: CmpOp)
    requires d.toks != [] && d.toks[|d.toks| - 1] == Cmp(c)
    ensures match TestOf(d.toks)
            case None => CompileTest(d).Err?
            case Some((t, br)) =>
              CompileTest(d) == Ok((After(d, Append(t, Plain([BranchOff(br, 0)]))), CfOf(br, |d.body| + |t.code|)))
              && t.leaves == [] && t.exits == []
  {
    hide FlushToks, Flush, FusedCmp, EncBcond, CondOf, Invert, After, Append;
    var d0 := d.(toks := d.toks[..|d.toks| - 1]);
    FlushIs(d0);
    if FlushToks(d0.toks).Some? {
      var f := FlushToks(d0.toks).value;
      FlushWellFormed(d0.toks);
      SameAfter(d, d0.toks, f);
      BranchingIs(d, f, Lift(FusedCmp(c)), OnCond(Invert(CondOf(c))));
    }
  }

  lemma FlagIs(d: Def)
    requires d.toks == [] || !d.toks[|d.toks| - 1].Cmp?
    ensures match TestOf(d.toks)
            case None => CompileTest(d).Err?
            case Some((t, br)) =>
              CompileTest(d) == Ok((After(d, Append(t, Plain([BranchOff(br, 0)]))), CfOf(br, |d.body| + |t.code|)))
              && t.leaves == [] && t.exits == []
  {
    hide FlushToks, Flush, EncCbz, After, Append;
    FlushIs(d);
    if FlushToks(d.toks).Some? {
      var f := FlushToks(d.toks).value;
      FlushWellFormed(d.toks);
      BranchingIs(d, f, Lift(FlagTest()), OnZero);
    }
  }

  lemma PutMiddle(a: seq<Instr>, x: Instr, b: seq<Instr>, y: Instr)
    ensures Put(a + [x] + b, |a|, y) == a + [y] + b
  {
  }

  lemma PatchMiddle(a: seq<Instr>, br: Branch, b: seq<Instr>, target: int)
    ensures Patch(a + [BranchOff(br, 0)] + b, CfOf(br, |a|), target)
         == a + [BranchOff(br, target - |a|)] + b
  {
    var code := a + [BranchOff(br, 0)] + b;
    match br
    case OnZero => PutMiddle(a, BranchOff(br, 0), b, BranchOff(br, target - |a|));
    case OnCond(c) =>
      assert code[|a|] == BranchOff(br, 0);
      var code' := code[|a| := EncBcond(c, target - |a|)];
      assert PatchBconds(code', [|a|][1..], target) == code';
      assert code' == a + [BranchOff(br, target - |a|)] + b;
  }

  lemma PatchJump(a: seq<Instr>, b: seq<Instr>, target: int)
    ensures Patch(a + [EncJump(0)] + b, FwdB(|a|), target) == a + [EncJump(target - |a|)] + b
  {
    hide EncJump;
    PutMiddle(a, EncJump(0), b, EncJump(target - |a|));
  }

  // ----- if and else -----

  /** After the test of `if`, its branch open. */
  function Tested(d: Def, t: Piece, br: Branch): Def {
    Def(d.body + t.code + [BranchOff(br, 0)], [], d.cf + [CfOf(br, |d.body| + |t.code|)], d.exits)
  }

  lemma IfIs(d: Def)
    ensures match TestOf(d.toks)
            case None => CompileIf(d).Err?
            case Some((t, br)) =>
              CompileIf(d) == Ok(Tested(d, t, br)) && t.leaves == [] && t.exits == []
  {
    hide CompileTest, After, TestOf, BranchOff;
    TestIs(d);
    if TestOf(d.toks).Some? {
      var (t, br) := TestOf(d.toks).value;
      AfterPlain(d, Append(t, Plain([BranchOff(br, 0)])));
      assert d.body + (t.code + [BranchOff(br, 0)]) == d.body + t.code + [BranchOff(br, 0)];
    }
  }

  /** An `if` over a piece only shifts the branches out of it. */
  lemma IfShape(t: Piece, br: Branch, g: Piece)
    requires t.leaves == [] && t.exits == []
    ensures var e := AssembleIf(t, br, g);
            e.code == t.code + [BranchOff(br, |g.code| + 1)] + g.code && e.pend == g.pend
            && e.leaves == Offset(g.leaves, |t.code| + 1) && e.exits == Offset(g.exits, |t.code| + 1)
  {
    hide BranchOff;
  }

  lemma TestedBody(d: Def, t: Piece, br: Branch, g: Piece)
    requires t.leaves == [] && t.exits == []
    ensures var r := After(Tested(d, t, br), g);
            Patch(r.body, CfOf(br, |d.body| + |t.code|), |r.body|) == After(d, AssembleIf(t, br, g)).body
  {
    hide AddLeaves, BranchOff, Patch, AssembleIf, Offset, CfOf;
    var a := d.body + t.code;
    IfShape(t, br, g);
    PatchMiddle(a, br, g.code, |a| + 1 + |g.code|);
    assert After(d, AssembleIf(t, br, g)).body == a + [BranchOff(br, |g.code| + 1)] + g.code;
    assert |Tested(d, t, br).body| == |a| + 1;
  }

  /** The branch of a test, over a piece: patched to just past the piece. */
  lemma PatchedTest(d: Def, t: Piece, br: Branch, g: Piece)
    requires t.leaves == [] && t.exits == []
    ensures var r := After(Tested(d, t, br), g);
            var c := CfOf(br, |d.body| + |t.code|);
            var e := After(d, AssembleIf(t, br, g));
            Last(r.cf) == Some(c) && ButLast(r.cf) == e.cf && r.exits == e.exits && r.toks == e.toks
            && Patch(r.body, c, |r.body|) == e.body
    ensures Fits(Tested(d, t, br), g) <==> Fits(d, g)
    ensures Fits(d, AssembleIf(t, br, g)) <==> Fits(d, g)
  {
    hide AddLeaves, BranchOff, HasLoop, Patch, AssembleIf;
    var n := |d.body| + |t.code|;
    TestedBody(d, t, br, g);
    IfShape(t, br, g);
    LeavesPush(d.cf, CfOf(br, n), Offset(g.leaves, n + 1));
    OffsetTwice(g.leaves, |t.code| + 1, |d.body|);
    OffsetTwice(g.exits, |t.code| + 1, |d.body|);
  }

  lemma ThenIs(d: Def, t: Piece, br: Branch, g: Piece)
    requires t.leaves == [] && t.exits == []
    ensures CloseThen(After(Tested(d, t, br), g)) == Ok(After(d, AssembleIf(t, br, g)))
  {
    hide After, Tested, AssembleIf, Patch;
    PatchedTest(d, t, br, g);
  }

  /** After `else`, the jump over the else part open. */
  function Elsed(d: Def, t: Piece, br: Branch, a: Piece): Def {
    var r := After(d, AssembleIf(t, br, Append(a, Plain([EncJump(0)]))));
    r.(cf := r.cf + [FwdB(|r.body| - 1)])
  }

  lemma ElseIs(d: Def, t: Piece, br: Branch, ga: Piece)
    requires t.leaves == [] && t.exits == []
    ensures var r := CompileElse(After(Tested(d, t, br), ga));
            var oa := Flushed(ga);
            if oa.Some? then r == Ok(Elsed(d, t, br, oa.value)) else r.Err?
  {
    hide Flush, Flushed, After, Tested, AssembleIf, Patch, EncJump, CfOf;
    var d1 := Tested(d, t, br);
    FlushAfter(d1, ga);
    if Flushed(ga).Some? {
      var a := Flushed(ga).value;
      FlushedPend(ga);
      var j := Plain([EncJump(0)]);
      AfterAppend(d1, a, j);
      AfterPlain(After(d1, a), j);
      FlushedPend(ga);
      AfterPend(d1, a);
      PatchedTest(d, t, br, Append(a, j));
      CondEntry(br, |d.body| + |t.code|);
      AssembledSize(d, t, br, Append(a, j));
    }
  }

  lemma AfterPend(d: Def, g: Piece)
    ensures After(d, g).toks == g.pend
  {
  }

  lemma FlushedPend(g: Piece)
    requires Flushed(g).Some?
    ensures Flushed(g).value.pend == [] && Flushed(g).value.leaves == g.leaves
  {
    hide FlushToks;
    FlushWellFormed(g.pend);
    assert g.leaves + [] == g.leaves;
  }

  lemma CondEntry(br: Branch, at: nat)
    ensures IsCond(Some(CfOf(br, at)))
  {
  }

  lemma AssembledSize(d: Def, t: Piece, br: Branch, g: Piece)
    ensures |After(d, AssembleIf(t, br, g)).body| == |After(Tested(d, t, br), g).body|
  {
  }

  lemma ElsedBody(d: Def, t: Piece, br: Branch, a: Piece, b: Piece)
    requires t.leaves == [] && t.exits == []
    ensures var r := After(Elsed(d, t, br, a), b);
            var k := |d.body| + |t.code| + |a.code| + 1;
            Patch(r.body, FwdB(k), |r.body|) == After(d, AssembleIfElse(t, br, a, b)).body
            && |Elsed(d, t, br, a).body| == k + 1
  {
    hide After, AssembleIf, Patch, EncJump, BranchOff, Offset;
    var front := d.body + t.code + [BranchOff(br, |a.code| + 2)] + a.code;
    JumpShape(t, br, a, 0);
    JumpShape(t, br, a, |b.code| + 1);
    var g0 := AssembleIf(t, br, Append(a, Plain([EncJump(0)])));
    AfterBody(d, g0);
    AfterBody(Elsed(d, t, br, a), b);
    AfterBody(d, AssembleIfElse(t, br, a, b));
    assert d.body + g0.code == front + [EncJump(0)];
    PatchJump(front, b.code, |front| + 1 + |b.code|);
    assert d.body + AssembleIfElse(t, br, a, b).code == front + [EncJump(|b.code| + 1)] + b.code;
  }

  lemma ElsedRest(d: Def, t: Piece, br: Branch, a: Piece, b: Piece)
    requires t.leaves == [] && t.exits == []
    ensures var r := After(Elsed(d, t, br, a), b);
            var e := After(d, AssembleIfElse(t, br, a, b));
            Last(r.cf) == Some(FwdB(|d.body| + |t.code| + |a.code| + 1)) && ButLast(r.cf) == e.cf
            && r.exits == e.exits && r.toks == e.toks
    ensures Fits(Elsed(d, t, br, a), b) <==> Fits(d, b)
    ensures Fits(d, AssembleIfElse(t, br, a, b)) <==> Fits(d, a) && Fits(d, b)
  {
    hide After, AssembleIf, EncJump, BranchOff, Fits, Offset;
    var g0 := AssembleIf(t, br, Append(a, Plain([EncJump(0)])));
    var g := AssembleIf(t, br, Append(a, Plain([EncJump(|b.code| + 1)])));
    JumpShape(t, br, a, 0);
    JumpShape(t, br, a, |b.code| + 1);
    var r := After(d, g0);
    AfterBody(d, g0);
    var c := FwdB(|r.body| - 1);
    AfterPush(r, c, b);
    AfterAppend(d, g0, b);
    FitsAppend(d, g0, b);
    FitsAppend(d, g, b);
    LeavesPush(After(r, b).cf, c, []);
    SameRest(d, Append(g0, b), Append(g, b));
    FitsSame(d, g, a);
  }

  lemma FitsAppend(d: Def, a: Piece, b: Piece)
    ensures Fits(d, Append(a, b)) <==> Fits(d, a) && Fits(d, b)
    ensures Fits(After(d, a), b) <==> Fits(d, b)
  {
    hide After;
    AfterAppend(d, a, b);
  }

  /** `then` after `else`: the jump is patched to just past the else part. */
  lemma EndIfElseIs(d: Def, t: Piece, br: Branch, a: Piece, b: Piece)
    requires t.leaves == [] && t.exits == []
    ensures var r := After(Elsed(d, t, br, a), b);
            CloseThen(r) == Ok(After(d, AssembleIfElse(t, br, a, b)))
            && Last(r.cf).Some? && Last(r.cf).value.FwdB?
    ensures Fits(Elsed(d, t, br, a), b) <==> Fits(d, b)
    ensures Fits(d, AssembleIfElse(t, br, a, b)) <==> Fits(d, a) && Fits(d, b)
  {
    hide After, AssembleIfElse, Patch, Elsed, Fits;
    ElsedBody(d, t, br, a, b);
    ElsedRest(d, t, br, a, b);
  }

  lemma AfterBody(d: Def, g: Piece)
    ensures After(d, g).body == d.body + g.code
  {
  }

  lemma SameRest(d: Def, a: Piece, b: Piece)
    requires a.leaves == b.leaves && a.exits == b.exits && a.pend == b.pend
    ensures After(d, a) == After(d, b).(body := After(d, a).body)
    ensures Fits(d, a) == Fits(d, b)
  {
  }

  lemma FitsSame(d: Def, a: Piece, b: Piece)
    requires (a.leaves == []) == (b.leaves == [])
    ensures Fits(d, a) == Fits(d, b)
  {
  }

  /** The parts of an `if` piece that ends in a jump do not depend on where it jumps. */
  lemma JumpShape(t: Piece, br: Branch, a: Piece, off: int)
    ensures var g := AssembleIf(t, br, Append(a, Plain([EncJump(off)])));
            g.code == t.code + [BranchOff(br, |a.code| + 2)] + a.code + [EncJump(off)]
            && g.leaves == t.leaves + Offset(a.leaves, |t.code| + 1)
            && g.exits == t.exits + Offset(a.exits, |t.code| + 1)
            && g.pend == []
  {
    hide BranchOff, EncJump;
  }

  // ----- loops -----

  /** After `begin`. */
  function Begun(d: Def, f: Piece): Def {
    var r := After(d, f);
    r.(cf := r.cf + [Begin(|r.body|)])
  }

  lemma BegunFits(d: Def, f: Piece, g: Piece)
    requires f.leaves == [] && f.exits == []
    ensures Fits(Begun(d, f), g) <==> Fits(d, g)
  {
    hide After, Fits;
    FitsAppend(d, f, g);
    AfterPush(After(d, f), Begin(|After(d, f).body|), g);
  }

  /** Patching the branch at the end of a piece. */
  lemma PatchedEnd(d: Def, g: Piece, br: Branch, off: int)
    ensures var n := |d.body| + |g.code|;
            var r0 := After(d, Append(g, Plain([BranchOff(br, 0)])));
            var r := After(d, Append(g, Plain([BranchOff(br, off)])));
            r == r0.(body := Patch(r0.body, CfOf(br, n), n + off))
  {
    hide After, BranchOff, Patch, CfOf, Offset;
    var x0, x := Plain([BranchOff(br, 0)]), Plain([BranchOff(br, off)]);
    var front := d.body + g.code;
    AfterBody(d, Append(g, x0));
    AfterBody(d, Append(g, x));
    assert d.body + (g.code + x0.code) == front + [BranchOff(br, 0)] + [];
    assert d.body + (g.code + x.code) == front + [BranchOff(br, off)] + [];
    PatchMiddle(front, br, [], |front| + off);
    SameRest(d, Append(g, x0), Append(g, x));
  }

  /** A test after a piece that starts under one more entry. */
  lemma TestAfter(d: Def, b: Cf, ga: Piece)
    requires !b.Do?
    ensures var r := CompileTest(After(d.(cf := d.cf + [b]), ga));
            match TestOf(ga.pend)
            case None => r.Err?
            case Some((t, br)) =>
              var q := After(d, Append(Append(ga, t), Plain([BranchOff(br, 0)])));
              r == Ok((q.(cf := q.cf + [b]), CfOf(br, |d.body| + |ga.code| + |t.code|))) && t.leaves == []
  {
    hide After, TestOf, CompileTest, BranchOff, CfOf, Append, Fits;
    var d2 := After(d.(cf := d.cf + [b]), ga);
    AfterPush(d, b, ga);
    AfterPend(d, ga);
    AfterBody(d, ga);
    TestIs(d2);
    if TestOf(ga.pend).Some? {
      var (t, br) := TestOf(ga.pend).value;
      var x0 := Plain([BranchOff(br, 0)]);
      AppendAssoc(ga, t, x0);
      AfterPush(After(d, ga), b, Append(t, x0));
      AfterAppend(d, ga, Append(t, x0));
    }
  }

  lemma UntilIs(d: Def, f: Piece, ga: Piece)
    requires f.leaves == [] && f.exits == []
    ensures var r := CompileUntil(After(Begun(d, f), ga));
            match TestOf(ga.pend)
            case None => r.Err?
            case Some((t, br)) =>
              var g := AssembleUntil(f, ga, t, br);
              r == Ok(After(d, g)) && (Fits(d, g) <==> Fits(d, ga))
  {
    hide After, TestOf, CompileTest, BranchOff, Fits, Patch, AddLeaves, CfOf, Append;
    var d1 := After(d, f);
    var b := Begin(|d1.body|);
    TestAfter(d1, b, ga);
    if TestOf(ga.pend).Some? {
      var (t, br) := TestOf(ga.pend).value;
      var q := Append(ga, t);
      var off := -(|ga.code| + |t.code|);
      AppendSize(ga, t);
      PatchedEnd(d1, q, br, off);
      var x0, x := Plain([BranchOff(br, 0)]), Plain([BranchOff(br, off)]);
      LeavesPush(After(d1, Append(q, x0)).cf, b, []);
      AfterAppend(d, f, Append(q, x));
      UntilFits(d, f, ga, t, x);
    }
  }

  lemma AppendSize(a: Piece, b: Piece)
    ensures |Append(a, b).code| == |a.code| + |b.code| && Append(a, b).pend == b.pend
  {
  }

  lemma UntilFits(d: Def, f: Piece, ga: Piece, t: Piece, x: Piece)
    requires f.leaves == [] && t.leaves == [] && x.leaves == []
    ensures Fits(d, Append(f, Append(Append(ga, t), x))) <==> Fits(d, ga)
  {
    hide Fits, Append;
    FitsAppend(d, f, Append(Append(ga, t), x));
    FitsAppend(d, Append(ga, t), x);
    FitsAppend(d, ga, t);
    NoLeavesFit(d, f);
    NoLeavesFit(d, t);
    NoLeavesFit(d, x);
  }

  lemma NoLeavesFit(d: Def, g: Piece)
    requires g.leaves == []
    ensures Fits(d, g)
  {
  }

  /** After `begin … while`, the branch out of the loop open. */
  function Whiled(d: Def, f: Piece, ga: Piece, t: Piece, br: Branch): Def {
    var d1 := After(d, f);
    var r := After(d1, Append(Append(ga, t), Plain([BranchOff(br, 0)])));
    r.(cf := r.cf + [Begin(|d1.body|), CfOf(br, |d1.body| + |ga.code| + |t.code|)])
  }

  lemma WhileIs(d: Def, f: Piece, ga: Piece)
    requires f.leaves == [] && f.exits == []
    ensures var r := CompileIf(After(Begun(d, f), ga));
            match TestOf(ga.pend)
            case None => r.Err?
            case Some((t, br)) => r == Ok(Whiled(d, f, ga, t, br)) && t.leaves == []
  {
    hide After, TestOf, CompileTest, BranchOff, Fits, CfOf, Append;
    TestAfter(After(d, f), Begin(|After(d, f).body|), ga);
    if TestOf(ga.pend).Some? {
      var (t, br) := TestOf(ga.pend).value;
      var r := After(After(d, f), Append(Append(ga, t), Plain([BranchOff(br, 0)])));
      var b, c := Begin(|After(d, f).body|), CfOf(br, |After(d, f).body| + |ga.code| + |t.code|);
      assert r.cf + [b] + [c] == r.cf + [b, c];
    }
  }

  lemma RepeatIs(d: Def, f: Piece, ga: Piece, t: Piece, br: Branch, gb: Piece)
    requires f.leaves == [] && f.exits == [] && t.leaves == []
    ensures var r := CompileRepeat(After(Whiled(d, f, ga, t, br), gb));
            var ob := Flushed(gb);
            if ob.None? then r.Err?
            else
              var g := AssembleWhile(f, ga, t, br, ob.value);
              r == Ok(After(d, g)) && (Fits(d, g) <==> Fits(d, ga) && Fits(d, gb))
    ensures Fits(Whiled(d, f, ga, t, br), gb) <==> Fits(d, gb)
  {
    hide After, BranchOff, Fits, CfOf, Append, Flushed, Flush, AssembleWhile, Patch, EncJump, HasLoop, AddLeaves,
         Whiled;
    WhiledAfter(d, f, ga, t, br, gb);
    CondEntry(br, |After(d, f).body| + |ga.code| + |t.code|);
    FlushAfter(Whiled(d, f, ga, t, br), gb);
    if Flushed(gb).Some? {
      var fb := Flushed(gb).value;
      FlushedPend(gb);
      WhiledAfter(d, f, ga, t, br, fb);
      RepeatCode(After(d, f), Append(ga, t), br, fb);
      AppendSize(ga, t);
      WhileShape(d, f, ga, t, br, fb);
      FitsSame(d, fb, gb);
    }
  }

  /** A piece after `while`: the two entries of the loop stay on top. */
  lemma WhiledAfter(d: Def, f: Piece, ga: Piece, t: Piece, br: Branch, g: Piece)
    requires f.leaves == [] && f.exits == [] && t.leaves == []
    ensures Fits(Whiled(d, f, ga, t, br), g) <==> Fits(d, g)
    ensures var d1 := After(d, f);
            var r := After(After(d1, Append(Append(ga, t), Plain([BranchOff(br, 0)]))), g);
            var e := After(Whiled(d, f, ga, t, br), g);
            e == r.(cf := e.cf)
            && Last(e.cf) == Some(CfOf(br, |d1.body| + |ga.code| + |t.code|))
            && Last(ButLast(e.cf)) == Some(Begin(|d1.body|)) && ButLast(ButLast(e.cf)) == r.cf
  {
    hide After, BranchOff, Fits, CfOf, Append, HasLoop, AddLeaves;
    var d1 := After(d, f);
    var q := Append(Append(ga, t), Plain([BranchOff(br, 0)]));
    var r := After(d1, q);
    var b, c := Begin(|d1.body|), CfOf(br, |d1.body| + |ga.code| + |t.code|);
    assert r.cf + [b, c] == r.cf + [b] + [c];
    CondEntry(br, |d1.body| + |ga.code| + |t.code|);
    AfterPush(r, b, g);
    AfterPush(r.(cf := r.cf + [b]), c, g);
    FitsAppend(d1, q, g);
    FitsAppend(d, f, g);
    LeavesPush(After(r, g).cf, b, []);
    LeavesPush(After(r, g).cf + [b], c, []);
  }

  /** The two branches of `while` and `repeat`, patched. */
  lemma RepeatCode(d: Def, q: Piece, br: Branch, fb: Piece)
    requires fb.pend == []
    ensures var r := After(After(d, Append(q, Plain([BranchOff(br, 0)]))), fb);
            var n := |d.body| + |q.code|;
            var body := r.body + [EncJump(|d.body| - |r.body|)];
            var head := Append(q, Plain([BranchOff(br, |fb.code| + 2)]));
            var j := Plain([EncJump(-(|head.code| + |fb.code|))]);
            r.(body := Patch(body, CfOf(br, n), |body|)) == After(d, Append(Append(head, fb), j))
  {
    hide After, BranchOff, Fits, CfOf, Patch, EncJump, Offset;
    var x0, x := Plain([BranchOff(br, 0)]), Plain([BranchOff(br, |fb.code| + 2)]);
    var h0, h := Append(q, x0), Append(q, x);
    var back := -(|h.code| + |fb.code|);
    var j := Plain([EncJump(back)]);
    AfterAppend(d, h0, fb);
    AfterBody(d, Append(h0, fb));
    AfterBody(d, Append(Append(h, fb), j));
    var front, rest := d.body + q.code, fb.code + [EncJump(back)];
    var r := After(d, Append(h0, fb));
    assert r.body + [EncJump(back)] == front + [BranchOff(br, 0)] + rest;
    PatchMiddle(front, br, rest, |front| + 1 + |rest|);
    assert d.body + Append(Append(h, fb), j).code == front + [BranchOff(br, |fb.code| + 2)] + rest;
    NothingMore(Append(h, fb), j);
    AfterPend(d, Append(h0, fb));
    SameRest(d, Append(h0, fb), Append(Append(h, fb), j));
  }

  lemma NothingMore(a: Piece, b: Piece)
    requires b.leaves == [] && b.exits == []
    ensures Append(a, b).leaves == a.leaves && Append(a, b).exits == a.exits
  {
  }

  lemma WhileShape(d: Def, f: Piece, ga: Piece, t: Piece, br: Branch, fb: Piece)
    requires f.leaves == [] && t.leaves == []
    ensures var head := Append(Append(ga, t), Plain([BranchOff(br, |fb.code| + 2)]));
            var j := Plain([EncJump(-(|head.code| + |fb.code|))]);
            var g := AssembleWhile(f, ga, t, br, fb);
            After(d, g) == After(After(d, f), Append(Append(head, fb), j))
            && (Fits(d, g) <==> Fits(d, ga) && Fits(d, fb))
  {
    hide After, BranchOff, Fits, Append, EncJump;
    var x := Plain([BranchOff(br, |fb.code| + 2)]);
    var q := Append(ga, t);
    var head := Append(q, x);
    var j := Plain([EncJump(-(|head.code| + |fb.code|))]);
    AfterAppend(d, f, Append(Append(head, fb), j));
    FitsAppend(d, f, Append(Append(head, fb), j));
    FitsAppend(d, Append(head, fb), j);
    FitsAppend(d, head, fb);
    FitsAppend(d, q, x);
    FitsAppend(d, ga, t);
    NoLeavesFit(d, f);
    NoLeavesFit(d, t);
    NoLeavesFit(d, x);
    NoLeavesFit(d, j);
  }

  // ----- counted loops -----

  /** After `do` or `?do`. */
  function Entered(d: Def, f: Piece, skipEqual: bool): Def {
    var body := d.body + f.code + DoHead(skipEqual).code;
    Def(body, [], d.cf + [Do(|body|, if skipEqual then [|body| - 1] else [])], d.exits)
  }

  lemma DoIs(d: Def, skipEqual: bool)
    ensures var of := FlushToks(d.toks);
            var r := CompileDo(d, skipEqual);
            if of.Some? then r == Ok(Entered(d, of.value, skipEqual)) && of.value.leaves == [] && of.value.exits == []
            else r.Err?
  {
    hide FlushToks, DoHead;
    if FlushToks(d.toks).Some? {
      FlushWellFormed(d.toks);
    }
  }

  lemma {:induction false} PatchBcondsAfter(a: seq<Instr>, b: seq<Instr>, at: seq<nat>, target: int)
    ensures PatchBconds(a + b, Offset(at, |a|), |a| + target) == a + PatchBconds(b, at, target)
    decreases |at|
  {
    hide EncBcond;
    if at != [] {
      var i := at[0];
      var xs := Offset(at, |a|);
      assert xs[1..] == Offset(at[1..], |a|);
      var b' := if i < |b| && b[i].Bcond? then b[i := EncBcond(b[i].cond, target - i)] else b;
      assert (if i + |a| < |a + b| && (a + b)[i + |a|].Bcond?
              then (a + b)[i + |a| := EncBcond((a + b)[i + |a|].cond, |a| + target - (i + |a|))] else a + b)
          == a + b';
      PatchBcondsAfter(a, b', at[1..], target);
    } else {
      assert Offset(at, |a|) == [];
    }
  }

  /** What precedes a piece only shifts the branches out of it. */
  lemma ShiftedTwice(d: Def, f: Piece, h: Piece, g: Piece)
    requires f.leaves == [] && f.exits == [] && h.exits == []
    ensures var p := Append(Append(f, h), g);
            var n := |d.body + f.code + h.code|;
            Offset(p.leaves, |d.body|) == Offset(h.leaves, |d.body| + |f.code|) + Offset(g.leaves, n)
            && Offset(p.exits, |d.body|) == Offset(g.exits, n)
            && d.body + p.code == d.body + f.code + h.code + g.code
  {
    hide Offset;
    var n := |f.code| + |h.code|;
    AppendShape(f, h, g);
    OffsetTwice(g.leaves, n, |d.body|);
    OffsetTwice(g.exits, n, |d.body|);
    OffsetTwice(h.leaves, |f.code|, |d.body|);
    OffsetAppend(Offset(h.leaves, |f.code|), Offset(g.leaves, n), |d.body|);
  }

  lemma AppendShape(f: Piece, h: Piece, g: Piece)
    requires f.leaves == [] && f.exits == [] && h.exits == []
    ensures var p := Append(Append(f, h), g);
            var n := |f.code| + |h.code|;
            p.leaves == Offset(h.leaves, |f.code|) + Offset(g.leaves, n) && p.exits == Offset(g.exits, n)
            && p.code == f.code + h.code + g.code
  {
    assert Offset(h.exits, |f.code|) == [];
    hide Offset;
  }

  lemma HeadLeaves(skipEqual: bool, n: nat)
    ensures var h := DoHead(skipEqual);
            Offset(h.leaves, n) == (if skipEqual then [n + |h.code| - 1] else []) && h.exits == []
            && |h.code| > 0
  {
  }

  /** Under a loop entry the branches of a piece join those already open. */
  lemma AfterEntered(d: Def, f: Piece, skipEqual: bool, g: Piece)
    requires f.leaves == [] && f.exits == []
    ensures var r := After(Entered(d, f, skipEqual), g);
            var h := Append(Append(f, DoHead(skipEqual)), g);
            r.body == d.body + h.code && r.toks == g.pend && r.exits == d.exits + Offset(h.exits, |d.body|)
            && Last(r.cf) == Some(Do(|d.body| + |f.code| + |DoHead(skipEqual).code|, Offset(h.leaves, |d.body|)))
            && ButLast(r.cf) == d.cf && Fits(Entered(d, f, skipEqual), g)
  {
    hide AddLeaves, HasLoop, DoHead, Append, Offset;
    HeadLeaves(skipEqual, |d.body| + |f.code|);
    ShiftedTwice(d, f, DoHead(skipEqual), g);
    var n := |d.body + f.code + DoHead(skipEqual).code|;
    LeavesPush(d.cf, Do(n, Offset(DoHead(skipEqual).leaves, |d.body| + |f.code|)), Offset(g.leaves, n));
  }

  /** `loop` and `+loop`: the sign test goes back to the top, every open branch of the loop
      to the instruction that drops the frame. */
  lemma LoopIs(d: Def, f: Piece, skipEqual: bool, step: bool, gb: Piece)
    requires f.leaves == [] && f.exits == []
    ensures var r := CompileLoop(After(Entered(d, f, skipEqual), gb), step);
            var ob := Flushed(gb);
            if ob.None? then r.Err?
            else
              var g := AssembleLoop(f, ob.value, skipEqual, step);
              r == Ok(After(d, g)) && Fits(d, g)
    ensures Fits(Entered(d, f, skipEqual), gb)
  {
    hide AddLeaves, HasLoop, After, Flushed, Flush, Entered, AssembleLoop, PatchBconds, EncTbzSign, LoopStep,
         DoHead, Offset, Fits;
    AfterEntered(d, f, skipEqual, gb);
    FlushAfter(Entered(d, f, skipEqual), gb);
    if Flushed(gb).Some? {
      var fb := Flushed(gb).value;
      FlushedPend(gb);
      AfterEntered(d, f, skipEqual, fb);
      LoopCodeIs(d, f, skipEqual, step, fb);
      ClosedLoop(d, f, skipEqual, step, fb);
    }
  }

  lemma LoopCodeIs(d: Def, f: Piece, skipEqual: bool, step: bool, fb: Piece)
    requires f.leaves == [] && f.exits == []
    ensures var h := Append(Append(f, DoHead(skipEqual)), fb);
            var top := |d.body| + |f.code| + |DoHead(skipEqual).code|;
            var body := d.body + h.code + Lift(LoopStep(step));
            var closed := body + [EncTbzSign(11, top - |body|), Line(AddRp(2))];
            PatchBconds(closed, Offset(h.leaves, |d.body|), |closed| - 1)
            == d.body + AssembleLoop(f, fb, skipEqual, step).code
  {
    hide PatchBconds, EncTbzSign, LoopStep, DoHead, Offset;
    var h := Append(Append(f, DoHead(skipEqual)), fb);
    var g := OpenLoop(f, fb, skipEqual, step);
    var top := |d.body| + |f.code| + |DoHead(skipEqual).code|;
    var body := d.body + h.code + Lift(LoopStep(step));
    var x := [EncTbzSign(11, top - |body|), Line(AddRp(2))];
    assert top - |body| == -(|fb.code| + |LoopStep(step)|);
    assert body + x == d.body + (h.code + (Lift(LoopStep(step)) + x));
    NothingMore(h, Plain(Lift(LoopStep(step)) + x));
    PatchBcondsAfter(d.body, g.code, g.leaves, |g.code| - 1);
  }

  lemma ClosedLoop(d: Def, f: Piece, skipEqual: bool, step: bool, fb: Piece)
    requires f.leaves == [] && f.exits == [] && fb.pend == []
    ensures var h := Append(Append(f, DoHead(skipEqual)), fb);
            var g := AssembleLoop(f, fb, skipEqual, step);
            After(d, g) == Def(d.body + g.code, [], d.cf, d.exits + Offset(h.exits, |d.body|)) && Fits(d, g)
  {
    hide PatchBconds, EncTbzSign, LoopStep, DoHead, AddLeaves, HasLoop, Append;
    var h := Append(Append(f, DoHead(skipEqual)), fb);
    LeavesNothing(d.cf);
    var back := -(|fb.code| + |LoopStep(step)|);
    NothingMore(h, Plain(Lift(LoopStep(step)) + [EncTbzSign(11, back), Line(AddRp(2))]));
    AppendSize(h, Plain(Lift(LoopStep(step)) + [EncTbzSign(11, back), Line(AddRp(2))]));
    assert Offset([], |d.body|) == [];
  }

  // ----- single instructions -----

  /** One instruction after the flushed tokens. */
  lemma AfterLeaf(d: Def, f: Piece, i: Instr, leaves: seq<nat>, exits: seq<nat>)
    requires f.leaves == [] && f.exits == []
    ensures var x := Plain([i]).(leaves := leaves, exits := exits);
            var n := |d.body + f.code|;
            After(d, Append(f, x)) == Def(d.body + f.code + [i], [], AddLeaves(d.cf, Offset(leaves, n)),
                                          d.exits + Offset(exits, n))
            && (Fits(d, Append(f, x)) <==> leaves == [] || HasLoop(d.cf))
  {
    hide HasLoop, AddLeaves;
    var x := Plain([i]).(leaves := leaves, exits := exits);
    AfterPlain(d, f);
    AfterAppend(d, f, x);
  }

  lemma OffsetOne(n: nat)
    ensures Offset([0], n) == [n] && Offset([], n) == []
  {
  }

  /** `leave`, `unloop` and `exit`: flush, then one instruction. */
  lemma LeafIs(d: Def, s: Stmt)
    requires s.Leave? || s.Exit? || s.Unloop?
    ensures Matches(CompileAll(Flatten(s), d), d, Gen(s, d.toks))
  {
    hide CompileAll, CompileWord, Matches;
    CompileOne(Flatten(s)[0], d);
    match s
    case Leave => LeaveIs(d);
    case Exit => ExitIs(d);
    case _ => UnloopIs(d);
  }

  lemma LeaveIs(d: Def)
    ensures Matches(CompileWord(d, LeaveWord), d, Gen(Leave, d.toks))
  {
    hide FlushToks, EncBcond, AddLeaves, HasLoop, After, Append, Fits, Offset;
    if FlushToks(d.toks).Some? {
      var f := FlushToks(d.toks).value;
      FlushWellFormed(d.toks);
      OffsetOne(|d.body + f.code|);
      AfterLeaf(d, f, EncBcond(AL, 0), [0], []);
      assert d.exits + [] == d.exits;
    }
  }

  lemma ExitIs(d: Def)
    ensures Matches(CompileWord(d, ExitWord), d, Gen(Exit, d.toks))
  {
    hide FlushToks, EncJump, AddLeaves, HasLoop, After, Append, Fits, Offset;
    if FlushToks(d.toks).Some? {
      var f := FlushToks(d.toks).value;
      FlushWellFormed(d.toks);
      LeavesNothing(d.cf);
      OffsetOne(|d.body + f.code|);
      AfterLeaf(d, f, EncJump(0), [], [0]);
    }
  }

  lemma UnloopIs(d: Def)
    ensures Matches(CompileWord(d, UnloopWord), d, Gen(Unloop, d.toks))
  {
    hide FlushToks, AddLeaves, HasLoop, After, Append, Fits, Offset;
    if FlushToks(d.toks).Some? {
      var f := FlushToks(d.toks).value;
      FlushWellFormed(d.toks);
      LeavesNothing(d.cf);
      OffsetOne(|d.body + f.code|);
      AfterLeaf(d, f, Line(Branches.Unloop()), [], []);
      assert d.exits + [] == d.exits;
    }
  }

  // ----- every statement -----

  /** What compiling more words after a statement gives. */
  function Then(r: Result<Def>, ws: seq<Word>): Result<Def> {
    match r
    case Ok(d) => CompileAll(ws, d)
    case Err(e) => Err(e)
  }

  lemma CompileThree(a: seq<Word>, b: seq<Word>, c: seq<Word>, d: Def)
    ensures CompileAll(a + b + c, d) == Then(Then(CompileAll(a, d), b), c)
  {
    hide CompileAll;
    CompileAppend(a + b, c, d);
    CompileAppend(a, b, d);
  }

  /** Compiling the words of a statement succeeds exactly when the statement has code and
      every `leave` has a loop, and then it appends that code, every branch inside patched. */
  lemma {:induction false} StmtCompiles(s: Stmt, d: Def)
    ensures Matches(CompileAll(Flatten(s), d), d, Gen(s, d.toks))
    decreases s, 1
  {
    hide CompileAll, CompileWord, Matches, Gen;
    match s
    case Toks(run) => RunCompiles(run, d);
    case Block(a, b) => BlockCompiles(a, b, d);
    case If(a) => IfCompiles(a, d);
    case IfElse(a, b) => IfElseCompiles(a, b, d);
    case Until(a) => UntilCompiles(a, d);
    case While(a, b) => WhileCompiles(a, b, d);
    case DoLoop(b, skipEqual, step) => LoopCompiles(b, skipEqual, step, d);
    case Case(arms) => CaseCompiles(arms, d);
    case _ => LeafIs(d, s);
  }

  lemma RunCompiles(run: seq<Tok>, d: Def)
    ensures Matches(CompileAll(Flatten(Toks(run)), d), d, Gen(Toks(run), d.toks))
  {
    hide CompileAll;
    CompileOne(Inline(run), d);
    AfterPlain(d, Plain([]).(pend := d.toks + run));
    assert d.body + [] == d.body;
  }

  lemma {:induction false} BlockCompiles(a: Stmt, b: Stmt, d: Def)
    ensures Matches(CompileAll(Flatten(Block(a, b)), d), d, Gen(Block(a, b), d.toks))
    decreases Block(a, b), 0
  {
    hide CompileAll, CompileWord, After, Append, Fits;
    CompileAppend(Flatten(a), Flatten(b), d);
    StmtCompiles(a, d);
    var oa := Gen(a, d.toks);
    if oa.Some? && Fits(d, oa.value) {
      var ga := oa.value;
      AfterPend(d, ga);
      StmtCompiles(b, After(d, ga));
    }
    if oa.Some? && Gen(b, oa.value.pend).Some? {
      var ga, gb := oa.value, Gen(b, oa.value.pend).value;
      AfterAppend(d, ga, gb);
      FitsAppend(d, ga, gb);
    }
  }

  /** The words of choices and of `begin` loops, alone. */
  lemma ChoiceWords(d: Def)
    ensures CompileAll([IfWord], d) == CompileIf(d)
    ensures CompileAll([ThenWord], d) == if Flush(d).Ok? then CloseThen(Flush(d).value) else Flush(d)
  {
    hide CompileAll, CompileIf, Flush, CloseThen;
    CompileOne(IfWord, d);
    CompileOne(ThenWord, d);
  }

  lemma BeginWords(d: Def)
    ensures CompileAll([BeginWord], d)
         == if Flush(d).Ok? then Ok(var r := Flush(d).value; r.(cf := r.cf + [Begin(|r.body|)])) else Flush(d)
    ensures CompileAll([UntilWord], d) == CompileUntil(d)
    ensures CompileAll([WhileWord], d) == CompileIf(d)
  {
    hide CompileAll, CompileIf, CompileUntil, Flush;
    CompileOne(BeginWord, d);
    CompileOne(UntilWord, d);
    CompileOne(WhileWord, d);
  }

  lemma FlattenForms(a: Stmt, b: Stmt)
    ensures Flatten(If(a)) == [IfWord] + Flatten(a) + [ThenWord]
    ensures Flatten(IfElse(a, b)) == [IfWord] + Flatten(a) + [ElseWord] + Flatten(b) + [ThenWord]
    ensures Flatten(Until(a)) == [BeginWord] + Flatten(a) + [UntilWord]
    ensures Flatten(While(a, b)) == [BeginWord] + Flatten(a) + [WhileWord] + Flatten(b) + [RepeatWord]
  {
  }

  lemma {:induction false} IfCompiles(a: Stmt, d: Def)
    ensures Matches(CompileAll(Flatten(If(a)), d), d, Gen(If(a), d.toks))
    decreases If(a), 0
  {
    hide CompileAll, CompileWord, Flatten, After, Fits, TestOf, Flushed, Flush, CompileIf, CloseThen, AssembleIf,
         Tested, Gen, HasLoop;
    GenForms(a, a, d.toks, false, false);
    FlattenForms(a, a);
    CompileThree([IfWord], Flatten(a), [ThenWord], d);
    ChoiceWords(d);
    IfIs(d);
    if TestOf(d.toks).Some? {
      var (t, br) := TestOf(d.toks).value;
      var d1 := Tested(d, t, br);
      TestedToks(d, t, br);
      StmtCompiles(a, d1);
      var oa := Gen(a, []);
      if oa.Some? {
        var d2 := After(d1, oa.value);
        ChoiceWords(d2);
        FlushAfter(d1, oa.value);
        PatchedTest(d, t, br, oa.value);
        if Flushed(oa.value).Some? {
          var fa := Flushed(oa.value).value;
          ThenIs(d, t, br, fa);
          PatchedTest(d, t, br, fa);
        }
      }
    }
  }

  lemma TestedToks(d: Def, t: Piece, br: Branch)
    ensures Tested(d, t, br).toks == []
  {
  }

  lemma CompileFive(a: seq<Word>, b: seq<Word>, c: seq<Word>, e: seq<Word>, f: seq<Word>, d: Def)
    ensures CompileAll(a + b + c + e + f, d)
         == Then(Then(Then(Then(CompileAll(a, d), b), c), e), f)
  {
    hide CompileAll;
    CompileAppend(a + b + c + e, f, d);
    CompileAppend(a + b + c, e, d);
    CompileThree(a, b, c, d);
  }

  /** The code of the true part of a test, and its piece with the flushed tokens; `None` when
      it cannot be compiled here. */
  function YesPiece(d: Def, a: Stmt, p: seq<Tok>): Option<Piece> {
    var ga :- Gen(a, p);
    var fa :- Flushed(ga);
    if Fits(d, fa) then Some(fa) else None
  }

  /** From the test to `else` or `endof`. */
  lemma {:induction false} YesPart(d: Def, t: Piece, br: Branch, a: Stmt, p: seq<Tok>, w: Word)
    requires t.leaves == [] && t.exits == [] && (w.ElseWord? || w.EndofWord?)
    ensures var r := Then(CompileAll(Flatten(a), Tested(d, t, br).(toks := p)), [w]);
            var oy := YesPiece(d, a, p);
            if oy.Some? then r == Ok(Elsed(d, t, br, oy.value)) else r.Err?
    decreases a, 2
  {
    hide CompileAll, After, Fits, Flatten, Gen, CompileElse, Flushed, Tested, Elsed, HasLoop;
    var d1 := Tested(d, t, br).(toks := p);
    StmtCompiles(a, d1);
    var oa := Gen(a, p);
    if oa.Some? {
      CompileOne(w, After(d1, oa.value));
      SameAfter(Tested(d, t, br), p, oa.value);
      PatchedTest(d, t, br, oa.value);
      ElseIs(d, t, br, oa.value);
      if Flushed(oa.value).Some? {
        FlushedPend(oa.value);
        FitsSame(d, Flushed(oa.value).value, oa.value);
      }
    }
  }

  lemma {:induction false} IfElseCompiles(a: Stmt, b: Stmt, d: Def)
    ensures Matches(CompileAll(Flatten(IfElse(a, b)), d), d, Gen(IfElse(a, b), d.toks))
    decreases IfElse(a, b), 0
  {
    hide CompileAll, CompileWord, Flatten, After, Fits, TestOf, Flushed, CompileIf, AssembleIfElse, Tested, Elsed,
         Gen, HasLoop;
    GenForms(a, b, d.toks, false, false);
    FlattenForms(a, b);
    CompileFive([IfWord], Flatten(a), [ElseWord], Flatten(b), [ThenWord], d);
    ChoiceWords(d);
    IfIs(d);
    if TestOf(d.toks).Some? {
      var (t, br) := TestOf(d.toks).value;
      TestedToks(d, t, br);
      YesPart(d, t, br, a, [], ElseWord);
      var oa := Gen(a, []);
      if oa.Some? && Flushed(oa.value).Some? {
        ElsePart(d, t, br, Flushed(oa.value).value, b);
      }
    }
  }

  /** From `else` on. */
  lemma {:induction false} ElsePart(d: Def, t: Piece, br: Branch, fa: Piece, b: Stmt)
    requires t.leaves == [] && t.exits == []
    ensures var r := Then(CompileAll(Flatten(b), Elsed(d, t, br, fa)), [ThenWord]);
            var ob := Gen(b, []);
            if ob.Some? && Flushed(ob.value).Some? && Fits(d, ob.value)
            then r == Ok(After(d, AssembleIfElse(t, br, fa, Flushed(ob.value).value)))
            else r.Err?
    ensures var ob := Gen(b, []);
            ob.Some? && Flushed(ob.value).Some? ==>
              (Fits(d, AssembleIfElse(t, br, fa, Flushed(ob.value).value)) <==> Fits(d, fa) && Fits(d, ob.value))
    decreases b, 2
  {
    hide CompileAll, After, Fits, Flushed, Flush, CloseThen, AssembleIfElse, Elsed, Gen, HasLoop;
    var d2 := Elsed(d, t, br, fa);
    ElsedToks(d, t, br, fa);
    StmtCompiles(b, d2);
    var ob := Gen(b, []);
    if ob.Some? {
      EndIfElseIs(d, t, br, fa, ob.value);
      CompileOne(ThenWord, After(d2, ob.value));
      FlushAfter(d2, ob.value);
      if Flushed(ob.value).Some? {
        FlushedPend(ob.value);
        FitsSame(d, Flushed(ob.value).value, ob.value);
        EndIfElseIs(d, t, br, fa, Flushed(ob.value).value);
      }
    }
  }

  lemma ElsedToks(d: Def, t: Piece, br: Branch, a: Piece)
    requires t.leaves == [] && t.exits == []
    ensures Elsed(d, t, br, a).toks == []
  {
    JumpShape(t, br, a, 0);
  }

  lemma {:induction false} UntilCompiles(a: Stmt, d: Def)
    ensures Matches(CompileAll(Flatten(Until(a)), d), d, Gen(Until(a), d.toks))
    decreases Until(a), 0
  {
    hide CompileAll, CompileWord, Flatten, After, Fits, TestOf, FlushToks, CompileUntil, AssembleUntil, Flush, Gen,
         HasLoop;
    GenForms(a, a, d.toks, false, false);
    FlattenForms(a, a);
    CompileThree([BeginWord], Flatten(a), [UntilWord], d);
    BeginWords(d);
    FlushIs(d);
    if FlushToks(d.toks).Some? {
      var f := FlushToks(d.toks).value;
      FlushWellFormed(d.toks);
      AfterPend(d, f);
      StmtCompiles(a, Begun(d, f));
      var oa := Gen(a, []);
      if oa.Some? {
        BegunFits(d, f, oa.value);
        BeginWords(After(Begun(d, f), oa.value));
        UntilIs(d, f, oa.value);
      }
    }
  }

  lemma {:induction false} WhileCompiles(a: Stmt, b: Stmt, d: Def)
    ensures Matches(CompileAll(Flatten(While(a, b)), d), d, Gen(While(a, b), d.toks))
    decreases While(a, b), 0
  {
    hide CompileAll, CompileWord, Flatten, After, Fits, TestOf, FlushToks, CompileIf, AssembleWhile, Flush, Flushed,
         Whiled, CompileRepeat,
         Gen, HasLoop;
    GenForms(a, b, d.toks, false, false);
    FlattenForms(a, b);
    CompileFive([BeginWord], Flatten(a), [WhileWord], Flatten(b), [RepeatWord], d);
    BeginWords(d);
    FlushIs(d);
    if FlushToks(d.toks).Some? {
      var f := FlushToks(d.toks).value;
      FlushWellFormed(d.toks);
      AfterPend(d, f);
      StmtCompiles(a, Begun(d, f));
      var oa := Gen(a, []);
      if oa.Some? {
        BegunFits(d, f, oa.value);
        BeginWords(After(Begun(d, f), oa.value));
        WhileIs(d, f, oa.value);
        if TestOf(oa.value.pend).Some? {
          var (t, br) := TestOf(oa.value.pend).value;
          WhilePart(d, f, oa.value, t, br, b);
        }
      }
    }
  }

  /** From `while` on. */
  lemma {:induction false} WhilePart(d: Def, f: Piece, ga: Piece, t: Piece, br: Branch, b: Stmt)
    requires f.leaves == [] && f.exits == [] && t.leaves == []
    ensures var r := Then(CompileAll(Flatten(b), Whiled(d, f, ga, t, br)), [RepeatWord]);
            var ob := Gen(b, []);
            if ob.Some? && Flushed(ob.value).Some? && Fits(d, ob.value)
            then r == Ok(After(d, AssembleWhile(f, ga, t, br, Flushed(ob.value).value)))
            else r.Err?
    ensures var ob := Gen(b, []);
            ob.Some? && Flushed(ob.value).Some? ==>
              (Fits(d, AssembleWhile(f, ga, t, br, Flushed(ob.value).value)) <==> Fits(d, ga) && Fits(d, ob.value))
    decreases b, 2
  {
    hide CompileAll, After, Fits, Flushed, Flush, AssembleWhile, Whiled, CompileRepeat, Gen, HasLoop;
    WhiledToks(d, f, ga, t, br);
    StmtCompiles(b, Whiled(d, f, ga, t, br));
    var ob := Gen(b, []);
    if ob.Some? {
      CompileOne(RepeatWord, After(Whiled(d, f, ga, t, br), ob.value));
      RepeatIs(d, f, ga, t, br, ob.value);
    }
  }

  lemma WhiledToks(d: Def, f: Piece, ga: Piece, t: Piece, br: Branch)
    ensures Whiled(d, f, ga, t, br).toks == []
  {
  }

  lemma {:induction false} LoopCompiles(b: Stmt, skipEqual: bool, step: bool, d: Def)
    ensures Matches(CompileAll(Flatten(DoLoop(b, skipEqual, step)), d), d, Gen(DoLoop(b, skipEqual, step), d.toks))
    decreases DoLoop(b, skipEqual, step), 0
  {
    hide CompileAll, After, Fits, FlushToks, AssembleLoop, Flush, Flushed, CompileDo, CompileLoop, Entered, CompileWord,
         Gen, HasLoop;
    GenForms(b, b, d.toks, skipEqual, step);
    var open, close := if skipEqual then QDoWord else DoWord, if step then PlusLoopWord else LoopWord;
    CompileThree([open], Flatten(b), [close], d);
    CompileOne(open, d);
    LoopWords(d, skipEqual, step);
    DoIs(d, skipEqual);
    if FlushToks(d.toks).Some? {
      var f := FlushToks(d.toks).value;
      EnteredToks(d, f, skipEqual);
      StmtCompiles(b, Entered(d, f, skipEqual));
      var ob := Gen(b, []);
      if ob.Some? {
        CompileOne(close, After(Entered(d, f, skipEqual), ob.value));
        LoopWords(After(Entered(d, f, skipEqual), ob.value), skipEqual, step);
        LoopIs(d, f, skipEqual, step, ob.value);
      }
    }
  }

  lemma LoopWords(d: Def, skipEqual: bool, step: bool)
    ensures CompileWord(d, if skipEqual then QDoWord else DoWord) == CompileDo(d, skipEqual)
    ensures CompileWord(d, if step then PlusLoopWord else LoopWord) == CompileLoop(d, step)
  {
    hide CompileDo, CompileLoop;
  }

  lemma EnteredToks(d: Def, f: Piece, skipEqual: bool)
    ensures Entered(d, f, skipEqual).toks == []
  {
  }

  // ----- case -----

  lemma {:induction false} CaseCompiles(arms: Arms, d: Def)
    ensures Matches(CompileAll(Flatten(Case(arms)), d), d, Gen(Case(arms), d.toks))
    decreases Case(arms), 0
  {
    hide CompileAll, After, Fits, GenArms, AddLeaves, HasLoop, CloseCase;
    var d1 := d.(cf := d.cf + [CaseMark]);
    assert [CaseWord] + FlattenArms(arms) + [EndcaseWord] == [CaseWord] + (FlattenArms(arms) + [EndcaseWord]);
    CompileAppend([CaseWord], FlattenArms(arms) + [EndcaseWord], d);
    CompileOne(CaseWord, d);
    ArmsCompile(arms, d1);
    var og := GenArms(arms, d.toks);
    if og.Some? {
      AfterPush(d, CaseMark, og.value);
      CloseMark(After(d, og.value));
    }
  }

  lemma CloseMark(d: Def)
    ensures CloseCase(d.(cf := d.cf + [CaseMark])) == Ok(d)
  {
    hide CloseThen;
    var cf := d.cf + [CaseMark];
    assert cf[|cf| - 1] == CaseMark && cf[..|cf| - 1] == d.cf;
  }

  /** The arms and `endcase`: their code, then every jump to the end closed. */
  lemma {:induction false} ArmsCompile(arms: Arms, d: Def)
    ensures var r := CompileAll(FlattenArms(arms) + [EndcaseWord], d);
            var og := GenArms(arms, d.toks);
            if og.Some? && Fits(d, og.value) then r == CloseCase(After(d, og.value)) else r.Err?
    decreases arms, 2
  {
    hide CompileAll, After, Fits, Flatten, Gen, CloseCase, Flush, Flushed;
    match arms
    case Default(last) =>
      CompileAppend(Flatten(last), [EndcaseWord], d);
      StmtCompiles(last, d);
      var og := Gen(last, d.toks);
      if og.Some? {
        var g := og.value;
        var gd := g.(pend := g.pend + [Stk(Drop)]);
        CompileOne(EndcaseWord, After(d, g));
        WithDrop(d, g);
        FlushAfter(d, gd);
      }
    case Of(test, body, rest) => OfCompiles(test, body, rest, d);
  }

  lemma WithDrop(d: Def, g: Piece)
    ensures var gd := g.(pend := g.pend + [Stk(Drop)]);
            var r := After(d, g);
            r.(toks := r.toks + [Stk(Drop)]) == After(d, gd) && Fits(d, gd) == Fits(d, g)
  {
  }

  lemma {:induction false} OfCompiles(test: Stmt, body: Stmt, rest: Arms, d: Def)
    ensures var arms := Of(test, body, rest);
            var r := CompileAll(FlattenArms(arms) + [EndcaseWord], d);
            var og := GenArms(arms, d.toks);
            if og.Some? && Fits(d, og.value) then r == CloseCase(After(d, og.value)) else r.Err?
    decreases Of(test, body, rest), 1
  {
    hide CompileAll, After, Fits, Flatten, Gen, CloseCase, Flush, Flushed, CompileIf, TestOf, AssembleIfElse;
    var tail := FlattenArms(rest) + [EndcaseWord];
    assert FlattenArms(Of(test, body, rest)) + [EndcaseWord]
        == Flatten(test) + [OfWord] + Flatten(body) + [EndofWord] + tail;
    CompileFive(Flatten(test), [OfWord], Flatten(body), [EndofWord], tail, d);
    StmtCompiles(test, d);
    var ot := Gen(test, d.toks);
    if ot.Some? {
      var gt := ot.value;
      var d1 := After(d, gt);
      AfterPend(d, gt);
      CompileOne(OfWord, d1);
      var q := gt.pend + [Stk(Over), Cmp(Eq)];
      IfIs(d1.(toks := q));
      if TestOf(q).Some? {
        var (t, br) := TestOf(q).value;
        TestedAny(d1, q, t, br);
        OfPart(d1, t, br, test, body, rest);
        assert [] + [Stk(Drop)] == [Stk(Drop)];
        var ob := Gen(body, [Stk(Drop)]);
        if ob.Some? && Flushed(ob.value).Some? && GenArms(rest, []).Some? {
          var ie := AssembleIfElse(t, br, Flushed(ob.value).value, GenArms(rest, []).value);
          AfterAppend(d, gt, ie);
          FitsAppend(d, gt, ie);
        }
      }
    }
  }

  lemma TestedAny(d: Def, q: seq<Tok>, t: Piece, br: Branch)
    ensures Tested(d.(toks := q), t, br) == Tested(d, t, br)
  {
  }

  /** From `of` on, at the state after its test. */
  lemma {:induction false} OfPart(d: Def, t: Piece, br: Branch, test: Stmt, body: Stmt, rest: Arms)
    requires t.leaves == [] && t.exits == []
    ensures var d1 := Tested(d, t, br).(toks := [Stk(Drop)]);
            var r := Then(Then(CompileAll(Flatten(body), d1), [EndofWord]), FlattenArms(rest) + [EndcaseWord]);
            var ob, og := Gen(body, [Stk(Drop)]), GenArms(rest, []);
            var ok := ob.Some? && Flushed(ob.value).Some? && og.Some?;
            if ok && Fits(d, AssembleIfElse(t, br, Flushed(ob.value).value, og.value))
            then r == CloseCase(After(d, AssembleIfElse(t, br, Flushed(ob.value).value, og.value)))
            else r.Err?
    decreases Of(test, body, rest), 0
  {
    hide CompileAll, CompileWord, After, Fits, Flatten, FlattenArms, Gen, GenArms, CloseCase, Flushed, AssembleIfElse,
         Tested, Elsed, Then;
    YesPart(d, t, br, body, [Stk(Drop)], EndofWord);
    ThenForms(CompileAll(Flatten(body), Tested(d, t, br).(toks := [Stk(Drop)])), [EndofWord],
              FlattenArms(rest) + [EndcaseWord]);
    var ob := Gen(body, [Stk(Drop)]);
    if ob.Some? && Flushed(ob.value).Some? {
      RestOfArms(d, t, br, Flushed(ob.value).value, rest);
    }
  }

  lemma ThenForms(r: Result<Def>, ws: seq<Word>, us: seq<Word>)
    ensures var m := Then(r, ws);
            if m.Ok? then Then(m, us) == CompileAll(us, m.value) else Then(m, us).Err?
  {
    hide CompileAll;
  }

  /** From `endof` on. */
  lemma {:induction false} RestOfArms(d: Def, t: Piece, br: Branch, fb: Piece, rest: Arms)
    requires t.leaves == [] && t.exits == []
    ensures var r := CompileAll(FlattenArms(rest) + [EndcaseWord], Elsed(d, t, br, fb));
            var og := GenArms(rest, []);
            if og.Some? && Fits(d, og.value)
            then r == CloseCase(After(d, AssembleIfElse(t, br, fb, og.value)))
            else r.Err?
    ensures var og := GenArms(rest, []);
            og.Some? ==> (Fits(d, AssembleIfElse(t, br, fb, og.value)) <==> Fits(d, fb) && Fits(d, og.value))
    decreases rest, 3
  {
    hide CompileAll, After, Fits, FlattenArms, GenArms, CloseCase, CloseThen, AssembleIfElse, Elsed, HasLoop;
    var d2 := Elsed(d, t, br, fb);
    ElsedToks(d, t, br, fb);
    ArmsCompile(rest, d2);
    var og := GenArms(rest, []);
    if og.Some? {
      EndIfElseIs(d, t, br, fb, og.value);
      CloseOne(After(d2, og.value));
    }
  }

  lemma SameAfter(d: Def, p: seq<Tok>, g: Piece)
    ensures After(d.(toks := p), g) == After(d, g) && Fits(d.(toks := p), g) == Fits(d, g)
  {
  }

  lemma CloseOne(d: Def)
    requires Last(d.cf).Some? && Last(d.cf).value.FwdB? && CloseThen(d).Ok?
    ensures CloseCase(d) == CloseCase(CloseThen(d).value)
  {
    hide CloseThen;
  }
}
