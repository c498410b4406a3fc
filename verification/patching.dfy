/** Every forward branch of a definition is patched exactly once, whatever its words. */
module Patching {
  import opened Options
  import opened Cells
  import opened Tokens
  import opened Machine
  import opened Lowering
  import opened Branches
  import opened Structured
  import opened Flow
  import opened Compiler

  // ----- open branches -----

  function OpenOf(c: Cf): multiset<nat> {
    match c
    case FwdCbz(i) => multiset{i}
    case FwdBcond(i) => multiset{i}
    case FwdB(i) => multiset{i}
    case Do(_, fwds) => multiset(fwds)
    case _ => multiset{}
  }

  function OpenIn(cf: seq<Cf>): multiset<nat>
    decreases |cf|
  {
    if cf == [] then multiset{} else OpenIn(ButLast(cf)) + OpenOf(cf[|cf| - 1])
  }

  /** The positions whose branch is still to be patched, each as often as it will be. */
  function Open(d: Def): multiset<nat> {
    OpenIn(d.cf) + multiset(d.exits)
  }

  /** The body holds the branches and targets a control-flow entry speaks of. */
  predicate Holds(body: seq<Instr>, c: Cf) {
    match c
    case FwdCbz(i) => i < |body| && body[i].Cbz? && body[i].rt == SCRATCH
    case FwdBcond(i) => i < |body| && body[i].Bcond?
    case FwdB(i) => i < |body| && body[i].Jump?
    case Begin(t) => t <= |body|
    case Do(top, fwds) => top <= |body| && forall i | i in fwds :: i < |body| && body[i].Bcond?
    case CaseMark => true
  }

  /** Where the branch at position `i` goes. */
  function TargetOf(x: Instr, i: int): Option<int> {
    match x
    case Cbz(_, off) => Some(i + off)
    case Jump(off) => Some(i + off)
    case Bcond(_, off) => Some(i + off)
    case TbzSign(_, off) => Some(i + off)
    case _ => None
  }

  predicate Settled(x: Instr, i: int, size: int) {
    TargetOf(x, i).Some? ==> 0 <= TargetOf(x, i).value <= size
  }

  /** The same branch but for its offset. */
  predicate SameBranch(x: Instr, y: Instr) {
    match x
    case Cbz(r, _) => y.Cbz? && y.rt == r
    case Jump(_) => y.Jump?
    case Bcond(c, _) => y.Bcond? && y.cond == c
    case _ => false
  }

  /** No branch is open twice, each open branch has the form it will be patched in, and every
      other branch already goes to a place inside the body. */
  ghost predicate Sound(d: Def) {
    && (forall i | i in Open(d) :: Open(d)[i] == 1 && i < |d.body|)
    && (forall k | 0 <= k < |d.cf| :: Holds(d.body, d.cf[k]))
    && (forall i | i in d.exits :: i < |d.body| && d.body[i].Jump?)
    && (forall i | 0 <= i < |d.body| && i !in Open(d) :: Settled(d.body[i], i, |d.body|))
  }

  /** Compiling on from `d` to `e`: a closed branch stays as it is and stays closed; an open
      one is left alone until it is closed, and then goes forward, its form unchanged. */
  ghost predicate Kept(d: Def, e: Def) {
    && |d.body| <= |e.body|
    && (forall i | i in d.exits :: i in e.exits)
    && forall i | 0 <= i < |d.body| ::
         if i !in Open(d) then i !in Open(e) && e.body[i] == d.body[i]
         else if i in Open(e) then e.body[i] == d.body[i]
         else SameBranch(d.body[i], e.body[i]) && Forward(e.body[i], i, |e.body|)
  }

  /** A branch that goes forward, and no further than `end`. */
  predicate Forward(x: Instr, i: int, end: int) {
    TargetOf(x, i).Some? && i < TargetOf(x, i).value <= end
  }

  /** Every branch closed on the way from `d` to `e` goes to `t`. */
  ghost predicate Closes(d: Def, e: Def, t: int) {
    forall i | i in Open(d) && i !in Open(e) && i < |e.body| :: TargetOf(e.body[i], i) == Some(t)
  }

  /** Nothing is closed on the way. */
  ghost predicate Opens(d: Def, e: Def) {
    forall i | i in Open(d) :: i in Open(e)
  }

  lemma KeptTrans(a: Def, b: Def, c: Def)
    requires Kept(a, b) && Kept(b, c)
    ensures Kept(a, c)
    ensures Opens(a, b) && Opens(b, c) ==> Opens(a, c)
  {
    hide Open, TargetOf, SameBranch;
    SameTrans();
  }

  lemma SameTrans()
    ensures forall x: Instr, y: Instr, z: Instr :: SameBranch(x, y) && SameBranch(y, z) ==> SameBranch(x, z)
  {
  }

  lemma ClosesTrans(a: Def, b: Def, c: Def, t: int)
    requires Closes(a, b, t) && Closes(b, c, t) && Kept(b, c) && Sound(a) && Kept(a, b)
    ensures Closes(a, c, t)
  {
    hide Open, TargetOf, SameBranch, Settled, Holds;
    forall i | i in Open(a) && i !in Open(c) && i < |c.body|
      ensures TargetOf(c.body[i], i) == Some(t)
    {
      if i !in Open(b) {
        assert i < |b.body| ==> c.body[i] == b.body[i];
      }
    }
  }

  lemma OpensCloses(a: Def, b: Def, t: int)
    requires Opens(a, b)
    ensures Closes(a, b, t)
  {
    hide Open, TargetOf;
  }

  lemma KeptSelf(d: Def)
    ensures Kept(d, d)
  {
  }

  // ----- growing and closing -----

  lemma HoldsMore(body: seq<Instr>, more: seq<Instr>, c: Cf)
    requires Holds(body, c)
    ensures Holds(body + more, c)
  {
  }

  /** New code at the end, with the branches `added` of it open. */
  lemma Grow(d: Def, e: Def, code: seq<Instr>, added: multiset<nat>)
    requires Sound(d) && e.body == d.body + code && Open(e) == Open(d) + added
    requires forall i | i in added :: added[i] == 1 && |d.body| <= i < |e.body|
    requires forall k | 0 <= k < |e.cf| :: Holds(e.body, e.cf[k])
    requires forall i | i in e.exits :: i < |e.body| && e.body[i].Jump?
    requires forall i | |d.body| <= i < |e.body| && i !in added :: Settled(e.body[i], i, |e.body|)
    requires forall i | i in d.exits :: i in e.exits
    ensures Sound(e) && Kept(d, e) && Opens(d, e)
  {
    hide Open, Holds;
    forall i | 0 <= i < |e.body| && i !in Open(e)
      ensures Settled(e.body[i], i, |e.body|)
    {
      if i < |d.body| {
        assert i !in Open(d);
      }
    }
  }

  /** The branches `shut` closed, to `target`, nothing else touched. */
  lemma Shut(d: Def, e: Def, shut: multiset<nat>, target: int)
    requires Sound(d) && |e.body| == |d.body| && Open(d) == Open(e) + shut && target <= |e.body|
    requires forall k | 0 <= k < |e.cf| :: Holds(d.body, e.cf[k])
    requires e.exits == d.exits
    requires forall i | 0 <= i < |d.body| ::
               if i in shut
               then SameBranch(d.body[i], e.body[i]) && TargetOf(e.body[i], i) == Some(target) && i < target
               else e.body[i] == d.body[i]
    ensures Sound(e) && Kept(d, e) && Closes(d, e, target)
  {
    hide Open, TargetOf;
    forall i | i in Open(e)
      ensures Open(e)[i] == 1 && i < |e.body| && i !in shut
    {
      assert Open(d)[i] == Open(e)[i] + shut[i];
    }
    forall i | 0 <= i < |d.body| && i in shut
      ensures i in Open(d) && i !in Open(e)
    {
      assert Open(d)[i] == Open(e)[i] + shut[i];
    }
  }

  lemma OpenPush(cf: seq<Cf>, c: Cf)
    ensures OpenIn(cf + [c]) == OpenIn(cf) + OpenOf(c)
  {
    assert ButLast(cf + [c]) == cf;
  }

  lemma OpenPop(cf: seq<Cf>)
    requires cf != []
    ensures OpenIn(cf) == OpenIn(ButLast(cf)) + OpenOf(cf[|cf| - 1])
    ensures forall k | 0 <= k < |ButLast(cf)| :: ButLast(cf)[k] == cf[k]
  {
  }

  lemma LineSettled(op: Op, i: int, size: int)
    ensures Settled(Line(op), i, size)
  {
  }

  /** Straight-line code at the end, and the pending tokens changed. */
  lemma GrowLines(d: Def, ops: seq<Op>, toks: seq<Tok>)
    requires Sound(d)
    ensures var e := d.(body := d.body + Lift(ops), toks := toks); Sound(e) && Kept(d, e) && Opens(d, e)
  {
    hide Settled;
    var e := d.(body := d.body + Lift(ops), toks := toks);
    forall k | 0 <= k < |e.cf|
      ensures Holds(e.body, e.cf[k])
    {
      HoldsMore(d.body, Lift(ops), e.cf[k]);
    }
    forall i | |d.body| <= i < |e.body|
      ensures Settled(e.body[i], i, |e.body|)
    {
      LineSettled(ops[i - |d.body|], i, |e.body|);
    }
    Grow(d, e, Lift(ops), multiset{});
  }

  /** New code at the end under the same control-flow stack, or one with more entries. */
  lemma GrowPushed(d: Def, code: seq<Instr>, c: Cf)
    requires Sound(d)
    requires var n := |d.body| + |code|;
             Holds(d.body + code, c)
             && (forall i | i in OpenOf(c) :: OpenOf(c)[i] == 1 && |d.body| <= i < n)
             && (forall j | 0 <= j < |code| && |d.body| + j !in OpenOf(c) :: Settled(code[j], |d.body| + j, n))
    ensures var e := d.(body := d.body + code, cf := d.cf + [c]); Sound(e) && Kept(d, e) && Opens(d, e)
  {
    hide Settled, OpenOf, OpenIn;
    var e := d.(body := d.body + code, cf := d.cf + [c]);
    OpenPush(d.cf, c);
    assert Open(e) == Open(d) + OpenOf(c);
    forall k | 0 <= k < |e.cf|
      ensures Holds(e.body, e.cf[k])
    {
      if k < |d.cf| {
        HoldsMore(d.body, code, d.cf[k]);
      }
    }
    forall i | |d.body| <= i < |e.body| && i !in OpenOf(c)
      ensures Settled(e.body[i], i, |e.body|)
    {
      var j := i - |d.body|;
      assert e.body[i] == code[j];
      assert Settled(code[j], |d.body| + j, |d.body| + |code|);
    }
    Grow(d, e, code, OpenOf(c));
  }

  lemma FlushSound(d: Def)
    requires Sound(d) && Flush(d).Ok?
    ensures Sound(Flush(d).value) && Kept(d, Flush(d).value) && Opens(d, Flush(d).value)
    ensures Flush(d).value.cf == d.cf && Flush(d).value.toks == [] && Flush(d).value.exits == d.exits
  {
    hide Sound, Kept, Opens, Compiled;
    var ops := if d.toks == [] then [] else Compiled(d.toks).value;
    GrowLines(d, ops, []);
    assert Lift([]) == [];
  }

  /** A branch whose target is known and near is settled by its offset. */
  lemma PatchedSettled(c: Cond, i: int, target: int, size: int)
    requires 0 <= i < size < MAX_CODE && 0 <= target <= size
    ensures Settled(EncCbz(SCRATCH, target - i), i, size) && Settled(EncJump(target - i), i, size)
    ensures Settled(EncBcond(c, target - i), i, size) && Settled(EncTbzSign(11, target - i), i, size)
    ensures TargetOf(EncCbz(SCRATCH, target - i), i) == TargetOf(EncJump(target - i), i) == Some(target)
    ensures TargetOf(EncBcond(c, target - i), i) == TargetOf(EncTbzSign(11, target - i), i) == Some(target)
  {
    OffsetsFit(target - i);
  }

  /** Patching the branch of one entry. */
  lemma PatchOne(body: seq<Instr>, c: Cf, target: int)
    requires Holds(body, c) && 0 <= target <= |body| < MAX_CODE
    requires c.FwdCbz? || c.FwdBcond? || c.FwdB?
    ensures var r := Patch(body, c, target);
            SameBranch(body[c.at], r[c.at]) && TargetOf(r[c.at], c.at) == Some(target)
            && forall i | 0 <= i < |body| && i != c.at :: r[i] == body[i]
  {
    PatchedSettled(EQ, c.at, target, |body|);
    if c.FwdBcond? {
      PatchedAll(body, [c.at], target);
    }
  }

  lemma PatchedAll(body: seq<Instr>, at: seq<nat>, target: int)
    requires forall i | i in at :: i < |body| && body[i].Bcond?
    requires 0 <= target <= |body| < MAX_CODE
    ensures var r := PatchBconds(body, at, target);
            forall i | 0 <= i < |body| ::
              if i in at then SameBranch(body[i], r[i]) && TargetOf(r[i], i) == Some(target) else r[i] == body[i]
  {
    hide PatchBconds, Settled, TargetOf, EncBcond;
    var r := PatchBconds(body, at, target);
    forall i | 0 <= i < |body|
      ensures if i in at then SameBranch(body[i], r[i]) && TargetOf(r[i], i) == Some(target) else r[i] == body[i]
    {
      PatchedAt(body, at, target, i);
      if i in at {
        PatchedSettled(body[i].cond, i, target, |body|);
        EncBcondKeeps(body, i, target);
      }
    }
  }

  // ----- each control word -----

  /** The state before the branch of a test is added, and that branch. */
  function Tested(d: Def): Result<Def> {
    var n := |d.toks|;
    if n > 0 && d.toks[n - 1].Cmp? then
      var d1 :- Flush(d.(toks := d.toks[..n - 1]));
      Ok(d1.(body := d1.body + Lift(FusedCmp(d.toks[n - 1].c))))
    else
      var d1 :- Flush(d);
      Ok(d1.(body := d1.body + Lift(FlagTest())))
  }

  function TestBranch(d: Def, off: int): Instr {
    var n := |d.toks|;
    if n > 0 && d.toks[n - 1].Cmp? then EncBcond(Invert(CondOf(d.toks[n - 1].c)), off) else EncCbz(SCRATCH, off)
  }

  lemma TestIsTested(d: Def)
    ensures CompileTest(d).Ok? <==> Tested(d).Ok?
    ensures CompileTest(d).Ok? ==>
              var (d1, c) := CompileTest(d).value;
              var d2 := Tested(d).value;
              d1 == d2.(body := d2.body + [TestBranch(d, 0)])
              && c == if TestBranch(d, 0).Bcond? then FwdBcond(|d2.body|) else FwdCbz(|d2.body|)
  {
    hide Flush, FusedCmp, CondOf, Invert;
  }

  lemma TestedSound(d: Def)
    requires Sound(d) && Tested(d).Ok?
    ensures Sound(Tested(d).value) && Kept(d, Tested(d).value) && Opens(d, Tested(d).value)
    ensures Tested(d).value.cf == d.cf && Tested(d).value.exits == d.exits
  {
    hide Sound, Kept, Opens, Flush, FusedCmp;
    var n := |d.toks|;
    var fused := n > 0 && d.toks[n - 1].Cmp?;
    var d0 := if fused then d.(toks := d.toks[..n - 1]) else d;
    SameToks(d, d0.toks);
    FlushSound(d0);
    var d1 := Flush(d0).value;
    GrowLines(d1, if fused then FusedCmp(d.toks[n - 1].c) else FlagTest(), []);
    KeptTrans(d, d0, d1);
    KeptTrans(d, d1, Tested(d).value);
  }

  /** The test of `if` or `while` with its branch on the control-flow stack. */
  lemma IfSound(d: Def)
    requires Sound(d) && CompileIf(d).Ok?
    ensures Sound(CompileIf(d).value) && Kept(d, CompileIf(d).value) && Opens(d, CompileIf(d).value)
  {
    hide Sound, Kept, Opens, Tested, CompileTest, CondOf, Invert;
    TestIsTested(d);
    TestedSound(d);
    var d2 := Tested(d).value;
    GrowPushed(d2, [TestBranch(d, 0)], CompileTest(d).value.1);
    KeptTrans(d, d2, CompileIf(d).value);
  }

  lemma SameToks(d: Def, p: seq<Tok>)
    requires Sound(d)
    ensures Sound(d.(toks := p)) && Kept(d, d.(toks := p)) && Opens(d, d.(toks := p))
  {
  }

  lemma OpenTop(cf: seq<Cf>, more: nat)
    requires |cf| >= 1 + more
    requires more == 0 || (more == 1 && OpenOf(cf[|cf| - 2]) == multiset{})
    ensures OpenIn(cf) == OpenIn(cf[..|cf| - 1 - more]) + OpenOf(cf[|cf| - 1])
  {
    hide OpenOf;
    OpenPop(cf);
    if more == 1 {
      OpenPop(ButLast(cf));
      assert ButLast(ButLast(cf)) == cf[..|cf| - 2];
    }
  }

  /** Closing the branch on top of the control-flow stack here, and `more` entries below it. */
  lemma CloseTop(d: Def, more: nat)
    requires Sound(d) && |d.cf| >= 1 + more && |d.body| < MAX_CODE
    requires var c := d.cf[|d.cf| - 1]; c.FwdCbz? || c.FwdBcond? || c.FwdB?
    requires more == 0 || (more == 1 && OpenOf(d.cf[|d.cf| - 2]) == multiset{})
    ensures var c := d.cf[|d.cf| - 1];
            var e := d.(body := Patch(d.body, c, |d.body|), cf := d.cf[..|d.cf| - 1 - more]);
            Sound(e) && Kept(d, e) && Closes(d, e, |d.body|)
  {
    hide Sound, Kept, Closes, Patch, OpenIn, OpenOf, Open, Settled, SameBranch, Holds, TargetOf;
    var c := d.cf[|d.cf| - 1];
    var e := d.(body := Patch(d.body, c, |d.body|), cf := d.cf[..|d.cf| - 1 - more]);
    OpenTop(d.cf, more);
    SoundEntries(d);
    HoldsInside(d.body, c);
    PatchOne(d.body, c, |d.body|);
    OpenRest(d, e, c);
    Shut(d, e, multiset{c.at}, |d.body|);
  }

  lemma HoldsInside(body: seq<Instr>, c: Cf)
    requires Holds(body, c) && (c.FwdCbz? || c.FwdBcond? || c.FwdB?)
    ensures c.at < |body|
  {
  }

  lemma SoundEntries(d: Def)
    requires Sound(d)
    ensures forall k | 0 <= k < |d.cf| :: Holds(d.body, d.cf[k])
  {
    hide Open, Settled, Holds;
  }

  lemma OpenRest(d: Def, e: Def, c: Cf)
    requires e.exits == d.exits && OpenIn(d.cf) == OpenIn(e.cf) + OpenOf(c)
    requires c.FwdCbz? || c.FwdBcond? || c.FwdB?
    ensures Open(d) == Open(e) + multiset{c.at}
  {
    hide OpenIn;
  }

  lemma ThenSound(d: Def)
    requires Sound(d) && CloseThen(d).Ok? && |d.body| < MAX_CODE
    ensures Sound(CloseThen(d).value) && Kept(d, CloseThen(d).value) && Closes(d, CloseThen(d).value, |d.body|)
    ensures |CloseThen(d).value.body| == |d.body|
  {
    hide Sound, Kept, Closes, Patch;
    CloseTop(d, 0);
  }

  lemma {:induction false} CaseSound(d: Def)
    requires Sound(d) && CloseCase(d).Ok? && |d.body| < MAX_CODE
    ensures Sound(CloseCase(d).value) && Kept(d, CloseCase(d).value) && Closes(d, CloseCase(d).value, |d.body|)
    decreases |d.cf|
  {
    hide Sound, Kept, Closes, Opens, CloseThen;
    if Last(d.cf).value.CaseMark? {
      PopMark(d);
    } else {
      ThenSound(d);
      CloseShrinks(d);
      CaseSound(CloseThen(d).value);
      KeptTrans(d, CloseThen(d).value, CloseCase(d).value);
      ClosesTrans(d, CloseThen(d).value, CloseCase(d).value, |d.body|);
    }
  }

  lemma CloseShrinks(d: Def)
    requires CloseThen(d).Ok?
    ensures |CloseThen(d).value.cf| == |d.cf| - 1
  {
  }

  /** An entry without branches leaves the stack. */
  lemma PopMark(d: Def)
    requires Sound(d) && d.cf != [] && OpenOf(d.cf[|d.cf| - 1]) == multiset{}
    ensures var e := d.(cf := ButLast(d.cf)); Sound(e) && Kept(d, e) && Opens(d, e) && forall t :: Closes(d, e, t)
  {
    hide Settled, TargetOf;
    var e := d.(cf := ButLast(d.cf));
    OpenPop(d.cf);
    assert Open(d) == Open(e) + multiset{};
    Shut(d, e, multiset{}, |d.body|);
  }

  lemma ElseSound(d: Def)
    requires Sound(d) && CompileElse(d).Ok? && |CompileElse(d).value.body| < MAX_CODE
    ensures var e := CompileElse(d).value; Sound(e) && Kept(d, e) && Closes(d, e, |e.body|)
  {
    hide Sound, Kept, Closes, Opens, Flush, Patch, EncJump;
    FlushSound(d);
    var d1 := Flush(d).value;
    var n := |d1.body|;
    var c := d1.cf[|d1.cf| - 1];
    var e := d1.(body := d1.body + [EncJump(0)], cf := ButLast(d1.cf) + [FwdB(n), c]);
    OpenUnder(d1, FwdB(n), [EncJump(0)]);
    CloseTop(e, 0);
    assert e.cf[..|e.cf| - 1] == ButLast(d1.cf) + [FwdB(n)];
    KeptTrans(d, d1, e);
    Shuts(d, e, CompileElse(d).value, |e.body|);
  }

  /** Nothing closed up to `b`, then everything closed goes to `t`. */
  lemma Shuts(a: Def, b: Def, c: Def, t: int)
    requires Sound(a) && Kept(a, b) && Opens(a, b) && Kept(b, c) && Closes(b, c, t)
    ensures Kept(a, c) && Closes(a, c, t)
  {
    hide Sound, Kept, Closes, Opens;
    KeptTrans(a, b, c);
    OpensCloses(a, b, t);
    ClosesTrans(a, b, c, t);
  }

  lemma OpenInsert(cf: seq<Cf>, b: Cf)
    requires cf != []
    ensures OpenIn(ButLast(cf) + [b, cf[|cf| - 1]]) == OpenIn(cf) + OpenOf(b)
  {
    hide OpenOf, OpenIn;
    var c := cf[|cf| - 1];
    assert ButLast(cf) + [b, c] == ButLast(cf) + [b] + [c];
    OpenPush(ButLast(cf), b);
    OpenPush(ButLast(cf) + [b], c);
    OpenPop(cf);
  }

  /** A new open jump, entered under the top of the control-flow stack. */
  lemma OpenUnder(d: Def, b: Cf, code: seq<Instr>)
    requires Sound(d) && d.cf != [] && b == FwdB(|d.body|) && code == [EncJump(0)]
    ensures var e := d.(body := d.body + code, cf := ButLast(d.cf) + [b, d.cf[|d.cf| - 1]]);
            Sound(e) && Kept(d, e) && Opens(d, e)
  {
    hide Kept, Opens, Settled, OpenIn;
    var c := d.cf[|d.cf| - 1];
    var e := d.(body := d.body + code, cf := ButLast(d.cf) + [b, c]);
    OpenInsert(d.cf, b);
    assert Open(e) == Open(d) + multiset{|d.body|};
    HoldUnder(d, b, code);
    Grow(d, e, code, multiset{|d.body|});
  }

  lemma HoldUnder(d: Def, b: Cf, code: seq<Instr>)
    requires d.cf != [] && Holds(d.body + code, b)
    requires forall k | 0 <= k < |d.cf| :: Holds(d.body, d.cf[k])
    ensures var cf := ButLast(d.cf) + [b, d.cf[|d.cf| - 1]];
            forall k | 0 <= k < |cf| :: Holds(d.body + code, cf[k])
  {
    hide Holds;
    forall k | 0 <= k < |d.cf|
      ensures Holds(d.body + code, d.cf[k])
    {
      HoldsMore(d.body, code, d.cf[k]);
    }
  }

  lemma UntilSound(d: Def)
    requires Sound(d) && CompileUntil(d).Ok? && |CompileUntil(d).value.body| < MAX_CODE
    ensures var e := CompileUntil(d).value;
            Sound(e) && Kept(d, e) && Opens(d, e) && GoesBack(d, UntilWord, e)
  {
    hide Sound, Kept, Opens, Closes, CompileTest, Tested, Open, Settled, TargetOf, EncCbz, EncBcond, CondOf, Invert;
    TestIsTested(d);
    TestedSound(d);
    var d2 := Tested(d).value;
    var (d1, c) := CompileTest(d).value;
    var b := Last(d1.cf).value;
    var n := |d2.body|;
    BeginInside(d2, |d2.cf| - 1);
    UntilBody(d, d2.body, b.target);
    PatchedSettled(if TestBranch(d, 0).Bcond? then TestBranch(d, 0).cond else EQ, n, b.target, n + 1);
    TestBranchIs(d, b.target - n);
    var code := [TestBranch(d, b.target - n)];
    GrowSettled(d2, code);
    var e := d2.(body := d2.body + code);
    PopMark(e);
    KeptTrans(d, d2, e);
    KeptTrans(d, e, CompileUntil(d).value);
  }

  /** The branch of a test, patched, is the branch of the test with that offset. */
  lemma UntilBody(d: Def, body: seq<Instr>, target: int)
    ensures var c := if TestBranch(d, 0).Bcond? then FwdBcond(|body|) else FwdCbz(|body|);
            Patch(body + [TestBranch(d, 0)], c, target) == body + [TestBranch(d, target - |body|)]
  {
    hide CondOf, Invert, EncCbz;
    var b0 := body + [TestBranch(d, 0)];
    TestBranchIs(d, target - |body|);
    if TestBranch(d, 0).Bcond? {
      assert PatchBconds(b0, [|body|], target) == b0[|body| := EncBcond(b0[|body|].cond, target - |body|)] by {
        assert [|body|][1..] == [];
      }
    } else {
      CbzBranch(d);
    }
  }

  lemma CbzBranch(d: Def)
    requires !TestBranch(d, 0).Bcond?
    ensures forall off :: TestBranch(d, off) == EncCbz(SCRATCH, off)
  {
  }

  lemma TestBranchIs(d: Def, off: int)
    ensures TestBranch(d, off)
         == if TestBranch(d, 0).Bcond? then EncBcond(TestBranch(d, 0).cond, off) else EncCbz(SCRATCH, off)
  {
  }

  lemma RepeatSound(d: Def)
    requires Sound(d) && CompileRepeat(d).Ok? && |CompileRepeat(d).value.body| < MAX_CODE
    ensures var e := CompileRepeat(d).value;
            Sound(e) && Kept(d, e) && Closes(d, e, |e.body|) && GoesBack(d, RepeatWord, e)
  {
    hide Sound, Kept, Closes, Opens, Flush, Patch, Open, Settled, EncJump, Holds, TargetOf;
    FlushSound(d);
    var d1 := Flush(d).value;
    var b := d1.cf[|d1.cf| - 2];
    var n := |d1.body|;
    var code := [EncJump(b.target - n)];
    BeginInside(d1, |d1.cf| - 2);
    PatchedSettled(EQ, n, b.target, n + 1);
    GrowSettled(d1, code);
    var e := d1.(body := d1.body + code);
    CloseTop(e, 1);
    assert e.cf[..|e.cf| - 2] == ButLast(ButLast(d1.cf));
    KeptTrans(d, d1, e);
    Shuts(d, e, CompileRepeat(d).value, |e.body|);
    TopInside(d1);
    PatchElsewhere(e.body, d1.cf[|d1.cf| - 1], |e.body|, n);
  }

  lemma TopInside(d: Def)
    requires Sound(d) && d.cf != []
    ensures var c := d.cf[|d.cf| - 1]; c.FwdCbz? || c.FwdBcond? || c.FwdB? ==> c.at < |d.body|
  {
    hide Open, Settled;
    assert Holds(d.body, d.cf[|d.cf| - 1]);
  }

  lemma PatchElsewhere(body: seq<Instr>, c: Cf, target: int, i: nat)
    requires i < |body| && (c.FwdCbz? || c.FwdBcond? || c.FwdB?) && c.at != i
    ensures Patch(body, c, target)[i] == body[i]
  {
    hide EncCbz, EncJump, EncBcond;
    if c.FwdBcond? {
      PatchedAt(body, [c.at], target, i);
    }
  }

  lemma BeginInside(d: Def, k: nat)
    requires Sound(d) && k < |d.cf| && d.cf[k].Begin?
    ensures d.cf[k].target <= |d.body| && OpenOf(d.cf[k]) == multiset{}
  {
    hide Open, Settled;
    assert Holds(d.body, d.cf[k]);
  }

  /** Settled code at the end. */
  lemma GrowSettled(d: Def, code: seq<Instr>)
    requires Sound(d)
    requires forall j | 0 <= j < |code| :: Settled(code[j], |d.body| + j, |d.body| + |code|)
    ensures var e := d.(body := d.body + code); Sound(e) && Kept(d, e) && Opens(d, e)
  {
    hide Kept, Opens, Settled;
    var e := d.(body := d.body + code);
    forall k | 0 <= k < |e.cf|
      ensures Holds(e.body, e.cf[k])
    {
      HoldsMore(d.body, code, e.cf[k]);
    }
    forall i | |d.body| <= i < |e.body|
      ensures Settled(e.body[i], i, |e.body|)
    {
      var j := i - |d.body|;
      assert e.body[i] == code[j];
      assert Settled(code[j], |d.body| + j, |d.body| + |code|);
    }
    Grow(d, e, code, multiset{});
  }

  lemma DoSound(d: Def, skipEqual: bool)
    requires Sound(d) && CompileDo(d, skipEqual).Ok?
    ensures var e := CompileDo(d, skipEqual).value; Sound(e) && Kept(d, e) && Opens(d, e)
  {
    hide Sound, Kept, Opens, Flush, Settled, EncBcond;
    FlushSound(d);
    var d1 := Flush(d).value;
    var code := DoHead(skipEqual).code;
    var n := |d1.body| + |code|;
    var c := Do(n, if skipEqual then [n - 1] else []);
    HeadSettled(skipEqual, |d1.body|);
    HeadBranch(skipEqual);
    GrowPushed(d1, code, c);
    KeptTrans(d, d1, CompileDo(d, skipEqual).value);
  }

  lemma HeadBranch(skipEqual: bool)
    ensures var code := DoHead(skipEqual).code; |code| > 0 && (skipEqual ==> code[|code| - 1].Bcond?)
  {
  }

  lemma HeadSettled(skipEqual: bool, at: nat)
    ensures var code := DoHead(skipEqual).code;
            forall j | 0 <= j < |code| && (skipEqual ==> j != |code| - 1) :: Settled(code[j], at + j, at + |code|)
  {
    hide EncBcond;
    var code := DoHead(skipEqual).code;
    forall j | 0 <= j < |code| && (skipEqual ==> j != |code| - 1)
      ensures Settled(code[j], at + j, at + |code|)
    {
      assert code[j].Line?;
    }
  }

  lemma LoopSound(d: Def, step: bool)
    requires Sound(d) && CompileLoop(d, step).Ok? && |CompileLoop(d, step).value.body| < MAX_CODE
    ensures var e := CompileLoop(d, step).value;
            Sound(e) && Kept(d, e) && Closes(d, e, |e.body| - 1) && GoesBack(d, LoopWord, e) && DropsFrame(e)
  {
    hide Sound, Kept, Closes, Opens, Flush, Open, Settled, EncTbzSign, LoopStep, PatchBconds, TargetOf;
    FlushSound(d);
    var d1 := Flush(d).value;
    var c := d1.cf[|d1.cf| - 1];
    DoInside(d1);
    GrowLines(d1, LoopStep(step), []);
    var d2 := d1.(body := d1.body + Lift(LoopStep(step)), toks := []);
    var n := |d2.body|;
    var code := [EncTbzSign(11, c.top - n), Line(AddRp(2))];
    PatchedSettled(EQ, n, c.top, n + 2);
    LineSettled(AddRp(2), n + 1, n + 2);
    GrowSettled(d2, code);
    var d3 := d2.(body := d2.body + code);
    CloseLoop(d3, |d3.body| - 1);
    KeptTrans(d, d1, d2);
    KeptTrans(d, d2, d3);
    Shuts(d, d3, CompileLoop(d, step).value, |d3.body| - 1);
    NotForward(d3.body, c.fwds, n + 1, n);
    NotForward(d3.body, c.fwds, n + 1, n + 1);
  }

  lemma DoInside(d: Def)
    requires Sound(d) && d.cf != [] && d.cf[|d.cf| - 1].Do?
    ensures var c := d.cf[|d.cf| - 1]; c.top <= |d.body| && forall i | i in c.fwds :: i < |d.body|
  {
    hide Open, Settled;
    assert Holds(d.body, d.cf[|d.cf| - 1]);
  }

  lemma NotForward(body: seq<Instr>, at: seq<nat>, target: int, i: nat)
    requires i < |body| && i !in at
    ensures PatchBconds(body, at, target)[i] == body[i]
  {
    hide EncBcond, PatchBconds;
    PatchedAt(body, at, target, i);
  }

  lemma CloseLoop(d: Def, target: int)
    requires Sound(d) && d.cf != [] && d.cf[|d.cf| - 1].Do? && 0 <= target <= |d.body| < MAX_CODE
    requires var fwds := d.cf[|d.cf| - 1].fwds; forall i | i in fwds :: i < target
    ensures var c := d.cf[|d.cf| - 1];
            var e := d.(body := PatchBconds(d.body, c.fwds, target), cf := ButLast(d.cf));
            Sound(e) && Kept(d, e) && Closes(d, e, target)
  {
    hide Kept, Closes, PatchBconds, Settled, TargetOf;
    var c := d.cf[|d.cf| - 1];
    var e := d.(body := PatchBconds(d.body, c.fwds, target), cf := ButLast(d.cf));
    assert Holds(d.body, c);
    OpenPop(d.cf);
    assert Open(d) == Open(e) + multiset(c.fwds);
    PatchedAll(d.body, c.fwds, target);
    Shut(d, e, multiset(c.fwds), target);
  }

  lemma LoopBelow(cf: seq<Cf>)
    requires HasLoop(cf) && !cf[|cf| - 1].Do?
    ensures HasLoop(ButLast(cf))
  {
    var i :| 0 <= i < |cf| && cf[i].Do?;
    assert ButLast(cf)[i].Do?;
  }

  lemma {:induction false} LeavesOpen(cf: seq<Cf>, n: nat)
    requires HasLoop(cf)
    ensures OpenIn(AddLeaves(cf, [n])) == OpenIn(cf) + multiset{n}
    decreases |cf|
  {
    hide HasLoop, OpenIn;
    NoLoops(cf);
    var c := cf[|cf| - 1];
    OpenPop(cf);
    if c.Do? {
      OpenPush(ButLast(cf), Do(c.top, c.fwds + [n]));
      assert multiset(c.fwds + [n]) == multiset(c.fwds) + multiset{n};
    } else {
      LoopBelow(cf);
      LeavesOpen(ButLast(cf), n);
      OpenPush(AddLeaves(ButLast(cf), [n]), c);
    }
  }

  lemma NoLoops(cf: seq<Cf>)
    requires HasLoop(cf)
    ensures cf != []
  {
  }

  predicate AllHold(body: seq<Instr>, cf: seq<Cf>) {
    forall k | 0 <= k < |cf| :: Holds(body, cf[k])
  }

  lemma AllHoldPush(body: seq<Instr>, cf: seq<Cf>, c: Cf)
    requires AllHold(body, cf) && Holds(body, c)
    ensures AllHold(body, cf + [c])
  {
    hide Holds;
  }

  lemma {:induction false} LeavesHold(body: seq<Instr>, cf: seq<Cf>, i: Instr)
    requires i.Bcond? && AllHold(body, cf)
    ensures AllHold(body + [i], AddLeaves(cf, [|body|]))
    decreases |cf|
  {
    hide Holds, AllHold;
    if cf != [] {
      var c := cf[|cf| - 1];
      AllHoldPop(body, [i], cf);
      if c.Do? {
        LeafHolds(body, c, i);
        AllHoldPush(body + [i], ButLast(cf), Do(c.top, c.fwds + [|body|]));
      } else {
        LeavesHold(body, ButLast(cf), i);
        AllHoldPush(body + [i], AddLeaves(ButLast(cf), [|body|]), c);
      }
    } else {
      NoneHold(body + [i]);
    }
  }

  lemma NoneHold(body: seq<Instr>)
    ensures AllHold(body, [])
  {
  }

  lemma AllHoldPop(body: seq<Instr>, more: seq<Instr>, cf: seq<Cf>)
    requires cf != [] && AllHold(body, cf)
    ensures AllHold(body, ButLast(cf)) && AllHold(body + more, ButLast(cf))
    ensures Holds(body, cf[|cf| - 1]) && Holds(body + more, cf[|cf| - 1])
  {
    hide Holds;
    forall k | 0 <= k < |cf|
      ensures Holds(body + more, cf[k])
    {
      HoldsMore(body, more, cf[k]);
    }
  }

  lemma LeafHolds(body: seq<Instr>, c: Cf, i: Instr)
    requires Holds(body, c) && c.Do? && i.Bcond?
    ensures Holds(body + [i], Do(c.top, c.fwds + [|body|]))
  {
  }

  lemma LeaveSound(d: Def)
    requires Sound(d) && CompileLeave(d).Ok?
    ensures Sound(CompileLeave(d).value) && Kept(d, CompileLeave(d).value) && Opens(d, CompileLeave(d).value)
  {
    hide Sound, Kept, Opens, Open, Flush, Settled, AddLeaves, HasLoop, Holds;
    FlushSound(d);
    var d1 := Flush(d).value;
    var i := EncBcond(AL, 0);
    var e := CompileLeave(d).value;
    LeaveOpens(d1, e);
    SoundEntries(d1);
    LeavesHold(d1.body, d1.cf, i);
    ExitsHold(d1, [i]);
    Grow(d1, e, [i], multiset{|d1.body|});
    KeptTrans(d, d1, e);
  }

  lemma LeaveOpens(d: Def, e: Def)
    requires HasLoop(d.cf) && e.cf == AddLeaves(d.cf, [|d.body|]) && e.exits == d.exits
    ensures Open(e) == Open(d) + multiset{|d.body|}
  {
    hide OpenIn, HasLoop, AddLeaves;
    LeavesOpen(d.cf, |d.body|);
  }

  lemma ExitSound(d: Def)
    requires Sound(d)
    ensures var e := d.(body := d.body + [EncJump(0)], exits := d.exits + [|d.body|]);
            Sound(e) && Kept(d, e) && Opens(d, e)
  {
    hide Sound, Kept, Opens, Settled, Holds, Open;
    var i := EncJump(0);
    var e := d.(body := d.body + [i], exits := d.exits + [|d.body|]);
    OpenExit(d, e);
    SoundEntries(d);
    ExitsJump(d, i);
    forall k | 0 <= k < |e.cf|
      ensures Holds(e.body, e.cf[k])
    {
      HoldsMore(d.body, [i], e.cf[k]);
    }
    Grow(d, e, [i], multiset{|d.body|});
  }

  lemma OpenExit(d: Def, e: Def)
    requires e.cf == d.cf && e.exits == d.exits + [|d.body|]
    ensures Open(e) == Open(d) + multiset{|d.body|}
  {
    hide OpenIn;
  }

  lemma ExitsHold(d: Def, more: seq<Instr>)
    requires Sound(d)
    ensures forall k | k in d.exits :: k < |d.body + more| && (d.body + more)[k].Jump?
  {
    hide Settled, Holds, Open;
  }

  lemma ExitsJump(d: Def, i: Instr)
    requires Sound(d) && i.Jump?
    ensures forall k | k in d.exits + [|d.body|] :: k < |d.body + [i]| && (d.body + [i])[k].Jump?
  {
    hide Settled, Holds, Open;
  }

  /** Where a word sends the forward branches it closes: to the end of the code, or to the
      instruction there that drops the loop frame. */
  function Landing(w: Word, size: nat): int {
    if w == LoopWord || w == PlusLoopWord then size - 1 else size
  }

  predicate DropsFrame(e: Def) {
    e.body != [] && e.body[|e.body| - 1] == Line(AddRp(2))
  }

  /** Where a word that closes a loop branches back to. */
  function BackTarget(d: Def, w: Word): Option<nat> {
    match w
    case UntilWord => if Last(d.cf).Some? && Last(d.cf).value.Begin? then Some(Last(d.cf).value.target) else None
    case RepeatWord =>
      var c := Last(ButLast(d.cf));
      if c.Some? && c.value.Begin? then Some(c.value.target) else None
    case LoopWord => if Last(d.cf).Some? && Last(d.cf).value.Do? then Some(Last(d.cf).value.top) else None
    case PlusLoopWord => if Last(d.cf).Some? && Last(d.cf).value.Do? then Some(Last(d.cf).value.top) else None
    case _ => None
  }

  /** Its branch is there, at the end of the code, and goes there. */
  predicate GoesBack(d: Def, w: Word, e: Def) {
    BackTarget(d, w).Some? ==>
      var p := |e.body| - if w == LoopWord || w == PlusLoopWord then 2 else 1;
      0 <= p && TargetOf(e.body[p], p) == Some(BackTarget(d, w).value)
  }

  /** What every word does to the branches of a definition. */
  ghost predicate Places(d: Def, w: Word, e: Def) {
    && Closes(d, e, Landing(w, |e.body|))
    && GoesBack(d, w, e)
    && (w == LoopWord || w == PlusLoopWord ==> DropsFrame(e))
  }

  /** Every word keeps the branches sound: what was closed stays closed, what it closes it
      sends to its landing, and a word that closes a loop branches back to its start. */
  lemma WordSound(d: Def, w: Word)
    requires Sound(d) && CompileWord(d, w).Ok? && |CompileWord(d, w).value.body| < MAX_CODE
    ensures Sound(CompileWord(d, w).value) && Kept(d, CompileWord(d, w).value) && Places(d, w, CompileWord(d, w).value)
  {
    hide Sound, Kept, Closes, Opens, GoesBack, DropsFrame, Flush, CompileIf, CompileElse, CompileUntil, CompileRepeat,
         CompileDo, CompileLoop, CompileLeave, CloseThen, CloseCase, EncJump;
    var e := CompileWord(d, w).value;
    if BackTarget(d, w).None? {
      NoWayBack(d, w, e);
    }
    match w
    case ElseWord => ElseSound(d);
    case EndofWord => ElseSound(d);
    case ThenWord =>
      FlushSound(d);
      CloseSize(Flush(d).value);
      ThenSound(Flush(d).value);
      Shuts(d, Flush(d).value, e, |e.body|);
    case RepeatWord => RepeatSound(d);
    case LoopWord => LoopSound(d, false);
    case PlusLoopWord =>
      LoopSound(d, true);
      SameWayBack(d, e);
    case EndcaseWord => EndcaseSound(d);
    case UntilWord =>
      UntilSound(d);
      OpensCloses(d, e, |e.body|);
    case _ =>
      OpeningSound(d, w);
      OpensCloses(d, e, |e.body|);
  }

  lemma NoWayBack(d: Def, w: Word, e: Def)
    requires BackTarget(d, w).None?
    ensures GoesBack(d, w, e)
  {
  }

  lemma SameWayBack(d: Def, e: Def)
    ensures GoesBack(d, LoopWord, e) == GoesBack(d, PlusLoopWord, e)
  {
  }

  /** The words that close nothing. */
  lemma OpeningSound(d: Def, w: Word)
    requires Sound(d) && CompileWord(d, w).Ok? && |CompileWord(d, w).value.body| < MAX_CODE
    requires !w.ElseWord? && !w.EndofWord? && !w.ThenWord? && !w.RepeatWord? && !w.LoopWord? && !w.PlusLoopWord?
    requires !w.EndcaseWord? && !w.UntilWord?
    ensures Sound(CompileWord(d, w).value) && Kept(d, CompileWord(d, w).value) && Opens(d, CompileWord(d, w).value)
  {
    hide Sound, Kept, Opens, Flush, CompileIf, CompileElse, CompileUntil, CompileRepeat, CompileDo, CompileLoop,
         CompileLeave, CloseThen, CloseCase, EncJump;
    match w
    case Inline(run) => SameToks(d, d.toks + run);
    case IfWord => IfSound(d);
    case WhileWord => IfSound(d);
    case UnlessWord => ToksThenIf(d, [Cmp(ZEq)], []);
    case BeginWord =>
      FlushSound(d);
      var d1 := Flush(d).value;
      GrowPushed(d1, [], Begin(|d1.body|));
      assert d1.body + [] == d1.body;
      KeptTrans(d, d1, CompileWord(d, w).value);
    case DoWord => DoSound(d, false);
    case QDoWord => DoSound(d, true);
    case LeaveWord => LeaveSound(d);
    case UnloopWord =>
      FlushSound(d);
      var d1 := Flush(d).value;
      GrowLines(d1, [Branches.Unloop()], []);
      assert Lift([Branches.Unloop()]) == [Line(Branches.Unloop())];
      KeptTrans(d, d1, CompileWord(d, w).value);
    case ExitWord =>
      FlushSound(d);
      ExitSound(Flush(d).value);
      KeptTrans(d, Flush(d).value, CompileWord(d, w).value);
    case CaseWord =>
      GrowPushed(d, [], CaseMark);
      assert d.body + [] == d.body;
    case OfWord => ToksThenIf(d, [Stk(Over), Cmp(Eq)], [Stk(Drop)]);
  }

  lemma CloseSize(d: Def)
    ensures CloseThen(d).Ok? ==> |CloseThen(d).value.body| == |d.body|
  {
    hide Patch;
  }

  lemma {:induction false} CaseSize(d: Def)
    ensures CloseCase(d).Ok? ==> |CloseCase(d).value.body| == |d.body|
    decreases |d.cf|
  {
    hide Patch;
    if CloseThen(d).Ok? {
      CaseSize(CloseThen(d).value);
    }
  }

  /** `unless` and `of`: tokens, then `if`, then tokens. */
  lemma ToksThenIf(d: Def, before: seq<Tok>, after: seq<Tok>)
    requires Sound(d) && CompileIf(d.(toks := d.toks + before)).Ok?
    ensures var d1 := CompileIf(d.(toks := d.toks + before)).value;
            var d2 := d1.(toks := d1.toks + after);
            Sound(d1) && Kept(d, d1) && Opens(d, d1) && Sound(d2) && Kept(d, d2) && Opens(d, d2)
  {
    hide Sound, Kept, Opens, CompileIf, CompileTest;
    var d0 := d.(toks := d.toks + before);
    SameToks(d, d.toks + before);
    IfSound(d0);
    var d1 := CompileIf(d0).value;
    SameToks(d1, d1.toks + after);
    KeptTrans(d, d0, d1);
    KeptTrans(d, d1, d1.(toks := d1.toks + after));
  }

  lemma EndcaseSound(d: Def)
    requires Sound(d) && CompileWord(d, EndcaseWord).Ok? && |CompileWord(d, EndcaseWord).value.body| < MAX_CODE
    ensures var e := CompileWord(d, EndcaseWord).value; Sound(e) && Kept(d, e) && Closes(d, e, |e.body|)
  {
    hide Sound, Kept, Closes, Opens, Flush, CloseCase;
    var d0 := d.(toks := d.toks + [Stk(Drop)]);
    SameToks(d, d0.toks);
    FlushSound(d0);
    var d1 := Flush(d0).value;
    CaseSize(d1);
    CaseSound(d1);
    KeptTrans(d, d0, d1);
    Shuts(d, d1, CloseCase(d1).value, |d1.body|);
  }

  lemma {:induction false} WordsSound(ws: seq<Word>, d: Def)
    requires Sound(d) && CompileAll(ws, d).Ok? && |CompileAll(ws, d).value.body| < MAX_CODE
    ensures Sound(CompileAll(ws, d).value) && Kept(d, CompileAll(ws, d).value)
    decreases |ws|
  {
    hide Sound, Kept, CompileWord;
    if ws == [] {
      KeptSelf(d);
    } else {
      var d1 := CompileWord(d, ws[0]).value;
      WordsGrow(ws[1..], d1);
      WordSound(d, ws[0]);
      WordsSound(ws[1..], d1);
      KeptTrans(d, d1, CompileAll(ws, d).value);
    }
  }

  lemma WordGrows(d: Def, w: Word)
    ensures CompileWord(d, w).Ok? ==> |d.body| <= |CompileWord(d, w).value.body|
  {
    hide FlushToks, Patch, EncJump, EncCbz, EncBcond, EncTbzSign, FusedCmp, AddLeaves, HasLoop, CloseCase, DoHead,
         LoopStep;
    if w.EndcaseWord? {
      var d1 := Flush(d.(toks := d.toks + [Stk(Drop)]));
      if d1.Ok? {
        CaseSize(d1.value);
      }
    }
  }

  lemma {:induction false} WordsGrow(ws: seq<Word>, d: Def)
    ensures CompileAll(ws, d).Ok? ==> |d.body| <= |CompileAll(ws, d).value.body|
    decreases |ws|
  {
    hide CompileWord;
    if ws != [] && CompileWord(d, ws[0]).Ok? {
      WordGrows(d, ws[0]);
      WordsGrow(ws[1..], CompileWord(d, ws[0]).value);
    }
  }

  // ----- whole definitions -----

  lemma StartSound()
    ensures Sound(Start())
  {
    LineSettled(PushRp(LR), 0, 1);
  }

  /** The state `Commit` patches the exits of. */
  function Ended(d: Def, arena: set<Addr>): Result<Def> {
    var tail := TailOf(d.toks, arena);
    var d1 :- Flush(if tail.Some? then d.(toks := d.toks[..|d.toks| - 1]) else d);
    if d1.cf != [] then Err(Unbalanced)
    else
      var front := d1.body + if tail.Some? then TailCode(tail.value) else [];
      Ok(d1.(body := front + if tail.None? || d1.exits != [] then Epilogue() else []))
  }

  lemma TailSettled(xt: Cell, at: int, size: int)
    ensures forall j | 0 <= j < |TailCode(xt)| :: Settled(TailCode(xt)[j], at + j, size)
  {
    hide LoadImm64;
    forall j | 0 <= j < |TailCode(xt)|
      ensures Settled(TailCode(xt)[j], at + j, size)
    {
    }
  }

  lemma EpilogueSettled(at: int, size: int)
    ensures forall j | 0 <= j < |Epilogue()| :: Settled(Epilogue()[j], at + j, size)
  {
  }

  lemma EndedSound(d: Def, arena: set<Addr>)
    requires Sound(d) && Ended(d, arena).Ok?
    ensures Sound(Ended(d, arena).value) && Kept(d, Ended(d, arena).value)
  {
    hide Sound, Kept, Opens, Flush, TailCode, Epilogue, Settled;
    var tail := TailOf(d.toks, arena);
    var d0 := if tail.Some? then d.(toks := d.toks[..|d.toks| - 1]) else d;
    SameToks(d, d0.toks);
    FlushSound(d0);
    var d1 := Flush(d0).value;
    var tc := if tail.Some? then TailCode(tail.value) else [];
    if tail.Some? {
      TailSettled(tail.value, |d1.body|, |d1.body| + |tc|);
    }
    GrowSettled(d1, tc);
    var d2 := d1.(body := d1.body + tc);
    var ep := if tail.None? || d1.exits != [] then Epilogue() else [];
    EpilogueSettled(|d2.body|, |d2.body| + |Epilogue()|);
    GrowSettled(d2, ep);
    KeptTrans(d, d0, d1);
    KeptTrans(d, d1, d2);
    KeptTrans(d, d2, Ended(d, arena).value);
  }

  /** From a state of the compiler to the committed body: what was closed is as it was; what
      was open is the same branch but goes forward, an `exit` to the epilogue. */
  ghost predicate PatchedOnce(d: Def, body: seq<Instr>) {
    && |d.body| <= |body|
    && (d.exits != [] ==> |body| >= 2 && body[|body| - 2..] == Epilogue())
    && forall i | 0 <= i < |d.body| ::
         if i in Open(d) then
           SameBranch(d.body[i], body[i]) && Forward(body[i], i, |body| - 1)
           && (i in d.exits ==> TargetOf(body[i], i) == Some(|body| - 2))
         else body[i] == d.body[i]
  }

  lemma EndedBody(d: Def, arena: set<Addr>)
    ensures Commit(d, arena).Ok? <==> Ended(d, arena).Ok?
    ensures Commit(d, arena).Ok? ==>
              var e := Ended(d, arena).value;
              Commit(d, arena).value
              == if TailOf(d.toks, arena).None? || e.exits != []
                 then PatchJumps(e.body, e.exits, |e.body| - 2) else e.body
    ensures Ended(d, arena).Ok? ==>
              var e := Ended(d, arena).value;
              e.cf == [] && |e.body| >= |d.body| + 2
              && (e.exits != [] ==> |e.body| >= 2 && e.body[|e.body| - 2..] == Epilogue())
  {
    hide Flush, PatchJumps, LoadImm64;
    FlushGrows(if TailOf(d.toks, arena).Some? then d.(toks := d.toks[..|d.toks| - 1]) else d);
  }

  lemma FlushGrows(d: Def)
    ensures Flush(d).Ok? ==> |d.body| <= |Flush(d).value.body|
  {
    hide FlushToks;
  }

  lemma NoTargets(xt: Cell, i: int)
    ensures forall j | 0 <= j < |TailCode(xt)| :: TargetOf(TailCode(xt)[j], i).None?
    ensures forall j | 0 <= j < |Epilogue()| :: TargetOf(Epilogue()[j], i).None?
  {
    hide LoadImm64;
  }

  /** Before its exits are patched, every other branch of a complete body goes to an
      instruction of it. */
  lemma EndTargets(d: Def, arena: set<Addr>, i: nat)
    requires Sound(d) && Ended(d, arena).Ok? && i < |Ended(d, arena).value.body|
    requires i !in Ended(d, arena).value.exits && TargetOf(Ended(d, arena).value.body[i], i).Some?
    ensures var e := Ended(d, arena).value; 0 <= TargetOf(e.body[i], i).value <= |e.body| - 1
  {
    hide Kept, Flush, TailCode, Epilogue, TargetOf, Holds;
    var tail := TailOf(d.toks, arena);
    var d0 := if tail.Some? then d.(toks := d.toks[..|d.toks| - 1]) else d;
    SameToks(d, d0.toks);
    FlushSound(d0);
    var d1 := Flush(d0).value;
    var e := Ended(d, arena).value;
    EndSize(d1, tail);
    if i >= |d1.body| {
      NewPart(d1, tail, e, i);
    }
    assert Open(d1) == multiset(e.exits);
    assert Settled(d1.body[i], i, |d1.body|);
  }

  lemma NewPart(d: Def, tail: Option<Cell>, e: Def, i: nat)
    requires |d.body| <= i < |e.body|
    requires e.body == d.body + (if tail.Some? then TailCode(tail.value) else [])
                              + (if tail.None? || d.exits != [] then Epilogue() else [])
    ensures TargetOf(e.body[i], i).None?
  {
    hide TailCode, Epilogue, TargetOf;
    NoTargets(if tail.Some? then tail.value else 0, i);
    var n := |d.body| + if tail.Some? then |TailCode(tail.value)| else 0;
    if i < n {
      assert e.body[i] == TailCode(tail.value)[i - |d.body|];
    } else {
      assert e.body[i] == Epilogue()[i - n];
    }
  }

  lemma EndSize(d: Def, tail: Option<Cell>)
    ensures tail.Some? ==> |TailCode(tail.value)| > 0
    ensures |Epilogue()| == 2
  {
    hide LoadImm64;
  }

  /** The committed body, point by point. */
  lemma BodyPoints(d: Def, arena: set<Addr>)
    requires Commit(d, arena).Ok?
    ensures Ended(d, arena).Ok?
    ensures var e, body := Ended(d, arena).value, Commit(d, arena).value;
            |body| == |e.body| && e.cf == []
            && forall i | 0 <= i < |body| ::
                 body[i] == if i in e.exits then EncJump(|body| - 2 - i) else e.body[i]
  {
    hide Commit, Ended, PatchJumps, EncJump;
    EndedBody(d, arena);
    var e := Ended(d, arena).value;
    var body := Commit(d, arena).value;
    forall i | 0 <= i < |body|
      ensures body[i] == if i in e.exits then EncJump(|body| - 2 - i) else e.body[i]
    {
      JumpPatchedAt(e.body, e.exits, |e.body| - 2, i);
    }
  }

  /** The committed body, from its unpatched form. */
  lemma BodyBranches(d: Def, arena: set<Addr>)
    requires Sound(d) && Commit(d, arena).Ok? && |Commit(d, arena).value| < MAX_CODE
    ensures var body := Commit(d, arena).value;
            Ended(d, arena).Ok? && PatchedOnce(Ended(d, arena).value, body)
            && forall i | 0 <= i < |body| && TargetOf(body[i], i).Some? :: 0 <= TargetOf(body[i], i).value <= |body| - 1
  {
    hide Sound, Commit, Ended, EncJump, Kept, TargetOf, PatchedOnce;
    BodyPoints(d, arena);
    EndedBody(d, arena);
    EndedSound(d, arena);
    var e := Ended(d, arena).value;
    var body := Commit(d, arena).value;
    forall i | 0 <= i < |body| && TargetOf(body[i], i).Some?
      ensures 0 <= TargetOf(body[i], i).value <= |body| - 1
    {
      if i in e.exits {
        JumpTarget(|body| - 2, i, |body|);
      } else {
        EndTargets(d, arena, i);
      }
    }
    JumpsOnce(e, body);
  }

  lemma JumpTarget(target: int, i: int, size: int)
    requires 0 <= i < size < MAX_CODE && 0 <= target < size
    ensures TargetOf(EncJump(target - i), i) == Some(target)
  {
    OffsetsFit(target - i);
  }

  lemma JumpsOnce(e: Def, body: seq<Instr>)
    requires Sound(e) && e.cf == [] && |body| == |e.body| < MAX_CODE
    requires forall i | 0 <= i < |body| :: body[i] == if i in e.exits then EncJump(|body| - 2 - i) else e.body[i]
    requires e.exits != [] ==> |body| >= 2 && e.body[|body| - 2..] == Epilogue()
    ensures PatchedOnce(e, body)
  {
    hide Settled, EncJump, TargetOf, Epilogue;
    assert Open(e) == multiset(e.exits);
    forall i | i in e.exits
      ensures SameBranch(e.body[i], body[i]) && Forward(body[i], i, |body| - 1)
              && TargetOf(body[i], i) == Some(|body| - 2)
    {
      assert i < |body| && e.body[i].Jump?;
      ExitBeforeEnd(e, body, i);
      JumpTarget(|body| - 2, i, |body|);
      JumpIs(|body| - 2 - i);
    }
    if e.exits != [] {
      EndKept(e, body);
    }
  }

  lemma EndKept(e: Def, body: seq<Instr>)
    requires Sound(e) && |body| == |e.body| && |body| >= 2 && e.body[|body| - 2..] == Epilogue()
    requires forall i | 0 <= i < |body| :: body[i] == if i in e.exits then EncJump(|body| - 2 - i) else e.body[i]
    ensures body[|body| - 2..] == Epilogue()
  {
    hide Sound, EncJump, Epilogue;
    forall i | |body| - 2 <= i < |body|
      ensures body[i] == e.body[i]
    {
      if i in e.exits {
        ExitBeforeEnd(e, body, i);
      }
    }
    assert body[|body| - 2..] == e.body[|body| - 2..];
  }

  lemma JumpIs(off: int)
    ensures EncJump(off).Jump?
  {
  }

  /** An exit is not one of the last two instructions: those are not jumps. */
  lemma ExitBeforeEnd(e: Def, body: seq<Instr>, i: nat)
    requires Sound(e) && i in e.exits && |body| == |e.body| && |body| >= 2
    requires e.body[|body| - 2..] == Epilogue()
    ensures i < |body| - 2
  {
    hide Settled, Open;
    assert e.body[|body| - 2] == e.body[|body| - 2..][0] && e.body[|body| - 1] == e.body[|body| - 2..][1];
  }

  /** Whatever words a definition has: from any moment of its compilation on, every branch
      already closed stays as it is, every open branch is patched, and in the committed body
      every branch goes to an instruction of the body. */
  lemma CommittedBranches(before: seq<Word>, after: seq<Word>, arena: set<Addr>, d: Def)
    requires CompileAll(before, Start()) == Ok(d)
    requires CompileAll(after, d).Ok? && Commit(CompileAll(after, d).value, arena).Ok?
    requires |Commit(CompileAll(after, d).value, arena).value| < MAX_CODE
    ensures var body := Commit(CompileAll(after, d).value, arena).value;
            PatchedOnce(d, body)
            && (forall i | i in Open(d) :: Open(d)[i] == 1 && i < |d.body|)
            && forall i | 0 <= i < |body| && TargetOf(body[i], i).Some? :: 0 <= TargetOf(body[i], i).value <= |body| - 1
  {
    hide CompileAll, Commit, Ended, Kept, PatchedOnce, TargetOf, Settled, Holds;
    var d2 := CompileAll(after, d).value;
    var body := Commit(d2, arena).value;
    EndedBody(d2, arena);
    var e := Ended(d2, arena).value;
    WordsGrow(after, d);
    StartSound();
    WordsSound(before, Start());
    WordsSound(after, d);
    EndedSound(d2, arena);
    KeptTrans(d, d2, e);
    BodyBranches(d2, arena);
    OnceThen(d, e, body);
  }

  lemma OnceThen(d: Def, e: Def, body: seq<Instr>)
    requires Sound(d) && Kept(d, e) && PatchedOnce(e, body)
    requires forall i | 0 <= i < |body| && TargetOf(body[i], i).Some? :: TargetOf(body[i], i).value <= |body| - 1
    ensures PatchedOnce(d, body)
  {
    hide Open, TargetOf, SameBranch, Settled, Holds, Epilogue;
    SameTrans();
    ExitsOpen(e);
    if d.exits != [] {
      assert d.exits[0] in e.exits;
    }
    forall i | 0 <= i < |d.body| && i in Open(d)
      ensures SameBranch(d.body[i], body[i]) && Forward(body[i], i, |body| - 1)
    {
      if i !in Open(e) {
        assert Forward(e.body[i], i, |e.body|);
      }
    }
  }

  lemma ExitsOpen(d: Def)
    ensures forall i | i in d.exits :: i in Open(d)
  {
    hide OpenIn;
  }
}
