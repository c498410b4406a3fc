/** Calls, tail calls and exceptions on the return stack: whole runs of compiled words against
    the structured meaning of their source. */
module Calls {
  import opened Options

  // ----- cells and data -----

  /** A code address: instruction `i` of word `w`, the point in `catch` that its word returns
      to, or somewhere outside. */
  datatype Addr = At(w: nat, i: nat) | InCatch | Outside(k: nat)

  datatype Cell = Num(n: int) | Code(a: Addr)

  /** The data side: the top of stack, the stack pointer and the memory below it. */
  datatype Data = Data(tos: Cell, dsp: int, mem: map<int, Cell>)

  function Load(d: Data, a: int): Cell {
    if a in d.mem then d.mem[a] else Num(0)
  }

  /** Drop the top: the next cell becomes the top. */
  function Dropped(d: Data): Data {
    Data(Load(d, d.dsp), d.dsp + 1, d.mem)
  }

  function Pushed(d: Data, c: Cell): Data {
    Data(c, d.dsp - 1, d.mem[d.dsp - 1 := d.tos])
  }

  /** Dropping undoes pushing, and neither touches what lies deeper. */
  lemma PushDrop(d: Data, c: Cell)
    ensures Pushed(d, c).tos == c && Dropped(Pushed(d, c)).tos == d.tos && Dropped(Pushed(d, c)).dsp == d.dsp
    ensures forall a | a >= d.dsp :: Load(Pushed(d, c), a) == Load(d, a) && Load(Dropped(d), a) == Load(d, a)
    ensures Dropped(d).tos == Load(d, d.dsp) && Dropped(d).dsp == d.dsp + 1
  {
  }

  // ----- words and their meaning -----

  /** The tokens of a word. */
  datatype Act =
    | Prim(id: nat)
    | ToR
    | FromR
    | CallW(w: nat)
    | CatchA
    | ThrowA

  /** A word's text: choices, loops and early exits around tokens, nested in any way. */
  datatype Stmt =
    | Token(a: Act)
    | Seq(first: Stmt, second: Stmt)
    | If(yes: Stmt, no: Stmt)
    | While(test: Stmt, body: Stmt)
    | Exit
    | Skip

  /** A word: its body, and the call at its very end, if it ends with one. */
  datatype Word = Word(body: Stmt, last: Option<nat>)

  /** What the primitives do; `None` is outside their contract. */
  type Prims = (nat, Data) -> Option<Data>

  datatype Prog = Prog(words: seq<Word>, prims: Prims)

  /** A word ends, or throws with the code on top. */
  datatype Outcome = Done(d: Data) | Thrown(d: Data)

  /** A statement comes to its end, with what the word has put on the return stack; or leaves
      the word; or throws. */
  datatype Result = Falls(d: Data, local: seq<Cell>) | Leaves(d: Data) | Raises(d: Data)

  /** The meaning of a word. `None`: out of fuel, or the word does not keep the return stack
      balanced, or a primitive is used outside its contract. */
  function EvalWord(p: Prog, w: nat, d: Data, fuel: nat): Option<Outcome>
    decreases fuel, 2
  {
    if w >= |p.words| then None
    else
      var r :- EvalS(p, p.words[w].body, d, [], fuel);
      match r
      case Leaves(d') => Some(Done(d'))
      case Raises(d') => Some(Thrown(d'))
      case Falls(d', local) =>
        if local != [] then None
        else
          match p.words[w].last
          case None => Some(Done(d'))
          case Some(w2) => if fuel == 0 then None else EvalWord(p, w2, d', fuel - 1)
  }

  /** `local` is what the word itself has put on the return stack. */
  function EvalS(p: Prog, s: Stmt, d: Data, local: seq<Cell>, fuel: nat): Option<Result>
    decreases fuel, 1, s
  {
    match s
    case Token(a) =>
      var (o, local') :- EvalAct(p, a, d, local, fuel);
      Some(if o.Done? then Falls(o.d, local') else Raises(o.d))
    case Seq(first, second) =>
      var r :- EvalS(p, first, d, local, fuel);
      if r.Falls? then EvalS(p, second, r.d, r.local, fuel) else Some(r)
    case If(yes, no) => EvalS(p, if d.tos != Num(0) then yes else no, Dropped(d), local, fuel)
    case While(test, body) =>
      if fuel == 0 then None
      else
        var r :- EvalS(p, test, d, local, fuel - 1);
        if !r.Falls? then Some(r)
        else if r.d.tos == Num(0) then Some(Falls(Dropped(r.d), r.local))
        else
          var r2 :- EvalS(p, body, Dropped(r.d), r.local, fuel - 1);
          if r2.Falls? then EvalS(p, s, r2.d, r2.local, fuel - 1) else Some(r2)
    case Exit => if local == [] then Some(Leaves(d)) else None
    case Skip => Some(Falls(d, local))
  }

  function EvalAct(p: Prog, a: Act, d: Data, local: seq<Cell>, fuel: nat): Option<(Outcome, seq<Cell>)>
    decreases fuel, 0
  {
    match a
    case Prim(id) =>
      var d' :- p.prims(id, d);
      Some((Done(d'), local))
    case ToR => Some((Done(Dropped(d)), local + [d.tos]))
    case FromR =>
      if local == [] then None
      else Some((Done(Pushed(d, local[|local| - 1])), local[..|local| - 1]))
    case CallW(w) =>
      if fuel == 0 then None
      else
        var o :- EvalWord(p, w, d, fuel - 1);
        Some((o, local))
    case CatchA =>
      if fuel == 0 || !(d.tos.Code? && d.tos.a.At? && d.tos.a.i == 0) then None
      else
        var o :- EvalWord(p, d.tos.a.w, Dropped(d), fuel - 1);
        Some((Done(Caught(d, o)), local))
    case ThrowA =>
      if d.tos == Num(0) then Some((Done(Dropped(d)), local)) else Some((Thrown(d), local))
  }

  /** What `catch` leaves: 0 above the results of its word, or, after a throw, the code in the
      place of the execution token with the stack pointer of the entry. */
  function Caught(entry: Data, o: Outcome): Data {
    match o
    case Done(d) => Pushed(d, Num(0))
    case Thrown(d) => Data(d.tos, entry.dsp, d.mem)
  }

  // ----- compiled words -----

  /** Branches inside a word are relative; `ToEnd` goes to the instruction `at` of the word. */
  datatype Instr =
    | Nest
    | Unnest
    | Return
    | Jump(w: nat)
    | BranchIfZero(off: int)
    | Goto(off: int)
    | ToEnd(at: nat)
    | Do(a: Act)

  /** The code of a statement in a word whose epilogue is at `end`. */
  function CodeOf(s: Stmt, end: nat): (code: seq<Instr>)
    ensures |code| == Size(s)
  {
    match s
    case Token(a) => [Do(a)]
    case Seq(first, second) => CodeOf(first, end) + CodeOf(second, end)
    case If(yes, no) =>
      [BranchIfZero(Size(yes) + 2)] + CodeOf(yes, end) + [Instr.Goto(Size(no) + 1)] + CodeOf(no, end)
    case While(test, body) =>
      CodeOf(test, end) + [BranchIfZero(Size(body) + 2)] + CodeOf(body, end)
      + [Instr.Goto(-(Size(test) + 1 + Size(body)))]
    case Exit => [ToEnd(end)]
    case Skip => []
  }

  function Size(s: Stmt): nat {
    match s
    case Token(_) => 1
    case Seq(first, second) => Size(first) + Size(second)
    case If(yes, no) => Size(yes) + Size(no) + 2
    case While(test, body) => Size(test) + Size(body) + 2
    case Exit => 1
    case Skip => 0
  }

  predicate HasExit(s: Stmt) {
    match s
    case Token(_) => false
    case Seq(first, second) => HasExit(first) || HasExit(second)
    case If(yes, no) => HasExit(yes) || HasExit(no)
    case While(test, body) => HasExit(test) || HasExit(body)
    case Exit => true
    case Skip => false
  }

  /** A call at the end becomes a jump when `tails`. */
  function LastCode(last: Option<nat>, tails: bool): seq<Instr> {
    match last
    case None => []
    case Some(w) => if tails then [Unnest, Jump(w)] else [Do(CallW(w))]
  }

  /** Where the epilogue of a word starts. */
  function EpilogueAt(word: Word, tails: bool): nat {
    1 + Size(word.body) + |LastCode(word.last, tails)|
  }

  predicate NeedsEpilogue(word: Word, tails: bool) {
    !tails || word.last.None? || HasExit(word.body)
  }

  function Compile(word: Word, tails: bool): seq<Instr> {
    [Nest] + CodeOf(word.body, EpilogueAt(word, tails)) + LastCode(word.last, tails)
    + if NeedsEpilogue(word, tails) then [Unnest, Return] else []
  }

  predicate LeavesEarly(code: seq<Instr>) {
    exists i | 0 <= i < |code| :: code[i].ToEnd?
  }

  predicate HasReturn(code: seq<Instr>) {
    exists i | 0 <= i < |code| :: code[i].Return?
  }

  lemma InEither(a: seq<Instr>, b: seq<Instr>)
    ensures LeavesEarly(a + b) <==> LeavesEarly(a) || LeavesEarly(b)
    ensures HasReturn(a + b) <==> HasReturn(a) || HasReturn(b)
  {
    assert forall i | 0 <= i < |a| :: (a + b)[i] == a[i];
    assert forall i | 0 <= i < |b| :: (a + b)[|a| + i] == b[i];
  }

  lemma InOne(x: Instr)
    ensures LeavesEarly([x]) <==> x.ToEnd?
    ensures HasReturn([x]) <==> x.Return?
  {
    assert [x][0] == x;
  }

  /** Whether the code of a statement leaves the word early, and that it never returns. */
  lemma {:induction false} CodeEnds(s: Stmt, end: nat)
    ensures LeavesEarly(CodeOf(s, end)) <==> HasExit(s)
    ensures !HasReturn(CodeOf(s, end))
  {
    hide LeavesEarly, HasReturn;
    match s
    case Token(a) => InOne(Do(a));
    case Seq(first, second) =>
      CodeEnds(first, end);
      CodeEnds(second, end);
      InEither(CodeOf(first, end), CodeOf(second, end));
    case If(yes, no) =>
      CodeEnds(yes, end);
      CodeEnds(no, end);
      var b, g := BranchIfZero(Size(yes) + 2), Instr.Goto(Size(no) + 1);
      InOne(b);
      InOne(g);
      InEither([b] + CodeOf(yes, end) + [g], CodeOf(no, end));
      InEither([b] + CodeOf(yes, end), [g]);
      InEither([b], CodeOf(yes, end));
    case While(test, body) =>
      CodeEnds(test, end);
      CodeEnds(body, end);
      var b, g := BranchIfZero(Size(body) + 2), Instr.Goto(-(Size(test) + 1 + Size(body)));
      InOne(b);
      InOne(g);
      InEither(CodeOf(test, end) + [b] + CodeOf(body, end), [g]);
      InEither(CodeOf(test, end) + [b], CodeOf(body, end));
      InEither(CodeOf(test, end), [b]);
    case Exit => InOne(ToEnd(end));
    case Skip => InNone();
  }

  lemma InNone()
    ensures !LeavesEarly([]) && !HasReturn([])
  {
  }

  /** Tail-call elimination leaves a return only in words that need one: those that do not end
      in a call, or leave early. */
  lemma ReturnExactly(word: Word, tails: bool)
    ensures var code := Compile(word, tails);
            HasReturn(code) <==> !tails || word.last.None? || LeavesEarly(code)
  {
    hide LeavesEarly, HasReturn, CodeOf, HasExit;
    var end := EpilogueAt(word, tails);
    var last := LastCode(word.last, tails);
    var rest := if NeedsEpilogue(word, tails) then [Unnest, Return] else [];
    CodeEnds(word.body, end);
    InNone();
    InOne(Nest);
    InOne(Unnest);
    InOne(Return);
    InEither([Nest] + CodeOf(word.body, end) + last, rest);
    InEither([Nest] + CodeOf(word.body, end), last);
    InEither([Nest], CodeOf(word.body, end));
    InEither([Unnest], [Return]);
    assert [Unnest] + [Return] == [Unnest, Return];
    if word.last.Some? {
      var w := word.last.value;
      InOne(Jump(w));
      InOne(Do(CallW(w)));
      InEither([Unnest], [Jump(w)]);
      assert [Unnest] + [Jump(w)] == [Unnest, Jump(w)];
    }
  }

  // ----- the machine -----

  /** `rs` is the return stack, top last; `handler` is its height just above the innermost
      handler frame, as the handler pointer says. */
  datatype Mach = Mach(pc: Addr, lr: Cell, rs: seq<Cell>, handler: int, d: Data)

  function Follow(m: Mach, c: Cell): Option<Mach> {
    if c.Code? then Some(m.(pc := c.a)) else None
  }

  function StepDo(p: Prog, a: Act, m: Mach, next: Addr): Option<Mach> {
    var n := |m.rs|;
    match a
    case Prim(id) =>
      var d :- p.prims(id, m.d);
      Some(m.(pc := next, d := d))
    case ToR => Some(m.(pc := next, rs := m.rs + [m.d.tos], d := Dropped(m.d)))
    case FromR =>
      if n == 0 then None else Some(m.(pc := next, rs := m.rs[..n - 1], d := Pushed(m.d, m.rs[n - 1])))
    case CallW(w) => Some(m.(pc := At(w, 0), lr := Code(next)))
    case CatchA =>
      // The frame: return address, previous handler, stack pointer; then the word is called.
      var rs := m.rs + [Code(next), Num(m.handler), Num(m.d.dsp)];
      Follow(m.(lr := Code(InCatch), rs := rs, handler := |rs|, d := Dropped(m.d)), m.d.tos)
    case ThrowA =>
      if m.d.tos == Num(0) then Some(m.(pc := next, d := Dropped(m.d)))
      else
        var h := m.handler;
        if !(3 <= h <= n && m.rs[h - 1].Num? && m.rs[h - 2].Num?) then None
        else
          Follow(m.(lr := m.rs[h - 3], rs := m.rs[..h - 3], handler := m.rs[h - 2].n,
                  d := m.d.(dsp := m.rs[h - 1].n)), m.rs[h - 3])
  }

  function Step(p: Prog, tails: bool, m: Mach): Option<Mach> {
    var n := |m.rs|;
    match m.pc
    case InCatch =>
      if n < 3 || !m.rs[n - 2].Num? then None
      else
        Follow(m.(lr := m.rs[n - 3], rs := m.rs[..n - 3], handler := m.rs[n - 2].n,
                d := Pushed(m.d, Num(0))), m.rs[n - 3])
    case Outside(_) => None
    case At(w, i) =>
      if w >= |p.words| || i >= |Compile(p.words[w], tails)| then None
      else
        match Compile(p.words[w], tails)[i]
        case Nest => Some(m.(pc := At(w, i + 1), rs := m.rs + [m.lr]))
        case Unnest => if n == 0 then None else Some(m.(pc := At(w, i + 1), lr := m.rs[n - 1], rs := m.rs[..n - 1]))
        case Return => Follow(m, m.lr)
        case Jump(w2) => Some(m.(pc := At(w2, 0)))
        case BranchIfZero(off) =>
          if i + off < 0 then None
          else Some(m.(pc := if m.d.tos == Num(0) then At(w, i + off) else At(w, i + 1), d := Dropped(m.d)))
        case Goto(off) => if i + off < 0 then None else Some(m.(pc := At(w, i + off)))
        case ToEnd(at) => Some(m.(pc := At(w, at)))
        case Do(a) => StepDo(p, a, m, At(w, i + 1))
  }

  function RunFor(p: Prog, tails: bool, n: nat, m: Mach): Option<Mach> {
    if n == 0 then Some(m)
    else
      var m' :- Step(p, tails, m);
      RunFor(p, tails, n - 1, m')
  }

  ghost predicate Reaches(p: Prog, tails: bool, m: Mach, m': Mach) {
    exists n: nat :: RunFor(p, tails, n, m) == Some(m')
  }

  lemma {:induction false} RunForAdds(p: Prog, tails: bool, a: nat, b: nat, m: Mach)
    requires RunFor(p, tails, a, m).Some?
    ensures RunFor(p, tails, a + b, m) == RunFor(p, tails, b, RunFor(p, tails, a, m).value)
    decreases a
  {
    hide Step;
    if a > 0 {
      RunForAdds(p, tails, a - 1, b, Step(p, tails, m).value);
    }
  }

  lemma ReachesStep(p: Prog, tails: bool, m: Mach)
    requires Step(p, tails, m).Some?
    ensures Reaches(p, tails, m, Step(p, tails, m).value)
  {
    hide Step;
    assert RunFor(p, tails, 0, Step(p, tails, m).value) == Step(p, tails, m);
    assert RunFor(p, tails, 1, m) == Step(p, tails, m);
  }

  lemma ReachesSelf(p: Prog, tails: bool, m: Mach)
    ensures Reaches(p, tails, m, m)
  {
    assert RunFor(p, tails, 0, m) == Some(m);
  }

  lemma ReachesThen(p: Prog, tails: bool, a: Mach, b: Mach, c: Mach)
    requires Reaches(p, tails, a, b) && Reaches(p, tails, b, c)
    ensures Reaches(p, tails, a, c)
  {
    hide RunFor;
    var i: nat :| RunFor(p, tails, i, a) == Some(b);
    var j: nat :| RunFor(p, tails, j, b) == Some(c);
    RunForAdds(p, tails, i, j, a);
    assert RunFor(p, tails, i + j, a) == Some(c);
  }

  // ----- what a finished word leaves -----

  /** The handler frame under `handler`, whose code address is where a throw resumes. */
  predicate HasHandler(rs: seq<Cell>, handler: int) {
    3 <= handler <= |rs| && rs[handler - 3].Code? && rs[handler - 2].Num? && rs[handler - 1].Num?
  }

  /** The machine at the end of a word called with `lr`: back at `lr` with the return stack and
      the handler as they were, or where the innermost handler frame says, that frame and all
      above it gone, with the code on top at the saved stack pointer. */
  function Finish(o: Outcome, lr: Cell, rs: seq<Cell>, handler: int): Mach
    requires if o.Done? then lr.Code? else HasHandler(rs, handler)
  {
    match o
    case Done(d) => Mach(lr.a, lr, rs, handler, d)
    case Thrown(d) =>
      Mach(rs[handler - 3].a, rs[handler - 3], rs[..handler - 3], rs[handler - 2].n,
           d.(dsp := rs[handler - 1].n))
  }

  /** Up to the link register, which is free at the end of a word. */
  ghost predicate Ends(p: Prog, tails: bool, m: Mach, end: Mach) {
    exists lr :: Reaches(p, tails, m, end.(lr := lr))
  }

  lemma EndsAfter(p: Prog, tails: bool, a: Mach, b: Mach, end: Mach)
    requires Reaches(p, tails, a, b) && Ends(p, tails, b, end)
    ensures Ends(p, tails, a, end)
  {
    hide Reaches;
    var lr :| Reaches(p, tails, b, end.(lr := lr));
    ReachesThen(p, tails, a, b, end.(lr := lr));
  }

  lemma EndsHere(p: Prog, tails: bool, m: Mach, end: Mach)
    requires Reaches(p, tails, m, end)
    ensures Ends(p, tails, m, end)
  {
    hide Reaches;
    assert end.(lr := end.lr) == end;
  }

  /** The instruction at `i` of word `w`. */
  predicate Holds(p: Prog, tails: bool, w: nat, i: nat, x: Instr) {
    w < |p.words| && i < |Compile(p.words[w], tails)| && Compile(p.words[w], tails)[i] == x
  }

  /** A stretch of code from `i` of word `w` on. */
  predicate CodeAt(p: Prog, tails: bool, w: nat, i: nat, part: seq<Instr>) {
    && w < |p.words| && i + |part| <= |Compile(p.words[w], tails)|
    && Compile(p.words[w], tails)[i..i + |part|] == part
  }

  lemma CodeParts(p: Prog, tails: bool, w: nat, i: nat, a: seq<Instr>, b: seq<Instr>)
    requires CodeAt(p, tails, w, i, a + b)
    ensures CodeAt(p, tails, w, i, a) && CodeAt(p, tails, w, i + |a|, b)
  {
    hide Compile;
    var code := Compile(p.words[w], tails);
    assert code[i..i + |a|] == code[i..i + |a + b|][..|a|] == a;
    assert code[i + |a|..i + |a| + |b|] == code[i..i + |a + b|][|a|..] == b;
  }

  lemma CodeOne(p: Prog, tails: bool, w: nat, i: nat, x: Instr)
    requires CodeAt(p, tails, w, i, [x])
    ensures Holds(p, tails, w, i, x)
  {
    hide Compile;
    assert Compile(p.words[w], tails)[i] == Compile(p.words[w], tails)[i..i + 1][0];
  }

  lemma CompiledAt(p: Prog, tails: bool, w: nat)
    requires w < |p.words|
    ensures var word := p.words[w];
            var e := EpilogueAt(word, tails);
            Holds(p, tails, w, 0, Nest)
            && CodeAt(p, tails, w, 1, CodeOf(word.body, e))
            && CodeAt(p, tails, w, 1 + Size(word.body), LastCode(word.last, tails))
            && (NeedsEpilogue(word, tails) ==> Holds(p, tails, w, e, Unnest) && Holds(p, tails, w, e + 1, Return))
  {
    hide CodeOf, Size, HasExit, LastCode;
    var word := p.words[w];
    var e := EpilogueAt(word, tails);
    var code := Compile(word, tails);
    var body, last := CodeOf(word.body, e), LastCode(word.last, tails);
    assert code[1..1 + |body|] == body;
    assert code[1 + |body|..1 + |body| + |last|] == last;
  }

  // ----- compiled words do what they mean -----

  /** Where a word stands: `lr0` saved, its own cells above. */
  function Inside(w: nat, i: nat, lr: Cell, rs: seq<Cell>, lr0: Cell, local: seq<Cell>, handler: int, d: Data): Mach {
    Mach(At(w, i), lr, rs + [lr0] + local, handler, d)
  }

  /** A throw looks only at what was there when the word was called. */
  lemma ThrownBelow(d: Data, lr: Cell, rs: seq<Cell>, more: seq<Cell>, handler: int)
    requires HasHandler(rs, handler)
    ensures HasHandler(rs + more, handler)
    ensures Finish(Thrown(d), lr, rs + more, handler) == Finish(Thrown(d), lr, rs, handler)
  {
    assert (rs + more)[..handler - 3] == rs[..handler - 3];
  }

  lemma EpilogueRuns(p: Prog, tails: bool, w: nat, i: nat, lr: Cell, rs: seq<Cell>, lr0: Cell, handler: int, d: Data)
    requires lr0.Code? && Holds(p, tails, w, i, Unnest) && Holds(p, tails, w, i + 1, Return)
    ensures Ends(p, tails, Inside(w, i, lr, rs, lr0, [], handler, d), Finish(Done(d), lr0, rs, handler))
  {
    hide Compile, Reaches;
    var m := Inside(w, i, lr, rs, lr0, [], handler, d);
    var m1 := Mach(At(w, i + 1), lr0, rs, handler, d);
    assert m.rs[..|m.rs| - 1] == rs;
    assert Step(p, tails, m) == Some(m1);
    ReachesStep(p, tails, m);
    var m2 := Finish(Done(d), lr0, rs, handler);
    assert Step(p, tails, m1) == Some(m2);
    ReachesStep(p, tails, m1);
    ReachesThen(p, tails, m, m1, m2);
    EndsHere(p, tails, m, m2);
  }

  /** Running a word from its entry ends as its meaning says, with tail calls or without. */
  lemma {:induction false} WordRuns(p: Prog, tails: bool, w: nat, d: Data, fuel: nat, o: Outcome,
                                    lr0: Cell, rs: seq<Cell>, handler: int)
    requires EvalWord(p, w, d, fuel) == Some(o)
    requires if o.Done? then lr0.Code? else HasHandler(rs, handler)
    ensures Ends(p, tails, Mach(At(w, 0), lr0, rs, handler, d), Finish(o, lr0, rs, handler))
    decreases fuel, 2
  {
    hide Compile, Reaches, Ends, Finish, HasHandler, EvalS, Leads, CodeAt, CodeOf, EpilogueAt, Inside, Holds,
         NeedsEpilogue;
    var word := p.words[w];
    var m := Mach(At(w, 0), lr0, rs, handler, d);
    var m1 := Inside(w, 1, lr0, rs, lr0, [], handler, d);
    NestStep(p, tails, w, lr0, rs, handler, d);
    CompiledAt(p, tails, w);
    var r := EvalS(p, word.body, d, [], fuel).value;
    StmtRuns(p, tails, w, word.body, 1, d, [], fuel, r, lr0, lr0, rs, handler);
    match r {
    case Raises(d1) => RaisesEnd(p, tails, w, m1, word.body, d1, lr0, rs, handler);
    case Leaves(d1) =>
      LeavesByExit(p, word.body, d, [], fuel);
      LeavesEnd(p, tails, w, m1, word.body, d1, lr0, rs, handler);
    case Falls(d1, local) =>
      var lr1 := LeadsStep(p, tails, w, m1, word.body, 1, r, lr0, rs, handler);
      var m2 := Inside(w, 1 + Size(word.body), lr1, rs, lr0, [], handler, d1);
      LastRuns(p, tails, w, d1, fuel, o, lr1, lr0, rs, handler);
      EndsAfter(p, tails, m1, m2, Finish(o, lr0, rs, handler));
    }
    EndsAfter(p, tails, m, m1, Finish(o, lr0, rs, handler));
  }

  lemma RaisesEnd(p: Prog, tails: bool, w: nat, m: Mach, s: Stmt, d: Data, lr0: Cell, rs: seq<Cell>, handler: int)
    requires w < |p.words| && HasHandler(rs, handler) && Leads(p, tails, w, m, s, 1, Raises(d), lr0, rs, handler)
    ensures Ends(p, tails, m, Finish(Thrown(d), lr0, rs, handler))
  {
  }

  /** From an `exit`: the epilogue is there, and returns. */
  lemma LeavesEnd(p: Prog, tails: bool, w: nat, m: Mach, s: Stmt, d: Data, lr0: Cell, rs: seq<Cell>, handler: int)
    requires w < |p.words| && HasExit(p.words[w].body) && lr0.Code?
    requires Leads(p, tails, w, m, s, 1, Leaves(d), lr0, rs, handler)
    ensures Ends(p, tails, m, Finish(Done(d), lr0, rs, handler))
  {
    hide Compile, Reaches, Ends, Finish, EpilogueAt, Holds, CodeAt, CodeOf;
    CompiledAt(p, tails, w);
    var e := EpilogueAt(p.words[w], tails);
    var lr :| Reaches(p, tails, m, Inside(w, e, lr, rs, lr0, [], handler, d));
    EpilogueRuns(p, tails, w, e, lr, rs, lr0, handler, d);
    EndsAfter(p, tails, m, Inside(w, e, lr, rs, lr0, [], handler, d), Finish(Done(d), lr0, rs, handler));
  }

  /** After the body: the call at the end, if there is one, and the end of the word. */
  lemma {:induction false} LastRuns(p: Prog, tails: bool, w: nat, d: Data, fuel: nat, o: Outcome, lr: Cell, lr0: Cell,
                                    rs: seq<Cell>, handler: int)
    requires w < |p.words|
    requires match p.words[w].last
             case None => o == Done(d)
             case Some(w2) => fuel > 0 && EvalWord(p, w2, d, fuel - 1) == Some(o)
    requires if o.Done? then lr0.Code? else HasHandler(rs, handler)
    ensures Ends(p, tails, Inside(w, 1 + Size(p.words[w].body), lr, rs, lr0, [], handler, d),
                 Finish(o, lr0, rs, handler))
    decreases fuel, 1
  {
    hide Compile, Reaches, Ends, Finish, HasHandler, EvalWord, CodeAt, CodeOf, Inside, Holds;
    var word := p.words[w];
    var i := 1 + Size(word.body);
    CompiledAt(p, tails, w);
    match word.last
    case None => EpilogueRuns(p, tails, w, i, lr, rs, lr0, handler, d);
    case Some(w2) =>
      if tails {
        assert [Unnest] + [Jump(w2)] == [Unnest, Jump(w2)];
        CodeParts(p, tails, w, i, [Unnest], [Jump(w2)]);
        CodeOne(p, tails, w, i, Unnest);
        CodeOne(p, tails, w, i + 1, Jump(w2));
        TailRuns(p, tails, w, w2, i, d, fuel, o, lr, lr0, rs, handler);
      } else {
        CodeOne(p, tails, w, i, Do(CallW(w2)));
        var m := Inside(w, i, lr, rs, lr0, [], handler, d);
        CallIs(p, w2, d, fuel);
        if o.Done? {
          var lr1 := ActRuns(p, tails, w, i, CallW(w2), d, [], fuel, o, [], lr, lr0, rs, handler);
          EpilogueRuns(p, tails, w, i + 1, lr1, rs, lr0, handler, o.d);
          EndsAfter(p, tails, m, Inside(w, i + 1, lr1, rs, lr0, [], handler, o.d), Finish(o, lr0, rs, handler));
        } else {
          ActThrows(p, tails, w, i, CallW(w2), d, [], fuel, o, lr, lr0, rs, handler);
        }
      }
  }

  lemma CallIs(p: Prog, w2: nat, d: Data, fuel: nat)
    requires fuel > 0 && EvalWord(p, w2, d, fuel - 1).Some?
    ensures EvalAct(p, CallW(w2), d, [], fuel) == Some((EvalWord(p, w2, d, fuel - 1).value, []))
  {
    hide EvalWord;
  }

  /** From `m` to instruction `j` of word `w`, whatever the link register holds there. */
  ghost predicate GetsTo(p: Prog, tails: bool, m: Mach, w: nat, j: nat, rs: seq<Cell>, lr0: Cell, local: seq<Cell>,
                         handler: int, d: Data) {
    exists lr :: Reaches(p, tails, m, Inside(w, j, lr, rs, lr0, local, handler, d))
  }

  /** What running a statement's code comes to: past its end, at the epilogue, or at the
      innermost handler. */
  ghost predicate Leads(p: Prog, tails: bool, w: nat, m: Mach, s: Stmt, i: nat, r: Result, lr0: Cell, rs: seq<Cell>,
                        handler: int)
    requires w < |p.words| && (r.Raises? ==> HasHandler(rs, handler))
  {
    match r
    case Falls(d, local) => GetsTo(p, tails, m, w, i + Size(s), rs, lr0, local, handler, d)
    case Leaves(d) => GetsTo(p, tails, m, w, EpilogueAt(p.words[w], tails), rs, lr0, [], handler, d)
    case Raises(d) => Ends(p, tails, m, Finish(Thrown(d), lr0, rs, handler))
  }

  /** First to where `s` stands, then as `s` does; the end of `s` is the end of `whole`. */
  lemma LeadsAfter(p: Prog, tails: bool, w: nat, m: Mach, m1: Mach, s: Stmt, i: nat, whole: Stmt, j: nat, r: Result,
                   lr0: Cell, rs: seq<Cell>, handler: int)
    requires w < |p.words| && (r.Raises? ==> HasHandler(rs, handler))
    requires Reaches(p, tails, m, m1) && Leads(p, tails, w, m1, s, i, r, lr0, rs, handler)
    requires r.Falls? ==> i + Size(s) == j + Size(whole)
    ensures Leads(p, tails, w, m, whole, j, r, lr0, rs, handler)
  {
    hide Reaches, Ends, Size, Finish, HasHandler;
    match r
    case Falls(d, local) =>
      var lr :| Reaches(p, tails, m1, Inside(w, i + Size(s), lr, rs, lr0, local, handler, d));
      ReachesThen(p, tails, m, m1, Inside(w, i + Size(s), lr, rs, lr0, local, handler, d));
    case Leaves(d) =>
      var e := EpilogueAt(p.words[w], tails);
      var lr :| Reaches(p, tails, m1, Inside(w, e, lr, rs, lr0, [], handler, d));
      ReachesThen(p, tails, m, m1, Inside(w, e, lr, rs, lr0, [], handler, d));
    case Raises(d) => EndsAfter(p, tails, m, m1, Finish(Thrown(d), lr0, rs, handler));
  }

  /** A part that does not fall through ends the whole. */
  lemma LeadsOut(p: Prog, tails: bool, w: nat, m: Mach, s: Stmt, i: nat, whole: Stmt, j: nat, r: Result,
                 lr0: Cell, rs: seq<Cell>, handler: int)
    requires w < |p.words| && (r.Raises? ==> HasHandler(rs, handler)) && !r.Falls?
    requires Leads(p, tails, w, m, s, i, r, lr0, rs, handler)
    ensures Leads(p, tails, w, m, whole, j, r, lr0, rs, handler)
  {
    hide Reaches, Ends, Size, Finish, HasHandler;
  }

  /** From the end of what has fallen through, one more instruction. */
  lemma LeadsStep(p: Prog, tails: bool, w: nat, m: Mach, s: Stmt, i: nat, r: Result, lr0: Cell, rs: seq<Cell>,
                  handler: int) returns (lr: Cell)
    requires w < |p.words| && r.Falls? && Leads(p, tails, w, m, s, i, r, lr0, rs, handler)
    ensures Reaches(p, tails, m, Inside(w, i + Size(s), lr, rs, lr0, r.local, handler, r.d))
  {
    hide Reaches, Ends, Size, Finish;
    lr :| Reaches(p, tails, m, Inside(w, i + Size(s), lr, rs, lr0, r.local, handler, r.d));
  }

  lemma BranchRuns(p: Prog, tails: bool, w: nat, i: nat, off: int, lr: Cell, rs: seq<Cell>, lr0: Cell,
                   local: seq<Cell>, handler: int, d: Data)
    requires i + off >= 0
    ensures Holds(p, tails, w, i, BranchIfZero(off)) ==>
              Reaches(p, tails, Inside(w, i, lr, rs, lr0, local, handler, d),
                      Inside(w, if d.tos == Num(0) then i + off else i + 1, lr, rs, lr0, local, handler, Dropped(d)))
    ensures Holds(p, tails, w, i, Instr.Goto(off)) ==>
              Reaches(p, tails, Inside(w, i, lr, rs, lr0, local, handler, d),
                      Inside(w, i + off, lr, rs, lr0, local, handler, d))
  {
    hide Compile, Reaches, StepDo;
    var m := Inside(w, i, lr, rs, lr0, local, handler, d);
    if Holds(p, tails, w, i, BranchIfZero(off)) || Holds(p, tails, w, i, Instr.Goto(off)) {
      ReachesStep(p, tails, m);
    }
  }

  /** A statement's code does what the statement means. */
  lemma {:induction false} StmtRuns(p: Prog, tails: bool, w: nat, s: Stmt, i: nat, d: Data, local: seq<Cell>, fuel: nat,
                                    r: Result, lr: Cell, lr0: Cell, rs: seq<Cell>, handler: int)
    requires w < |p.words| && CodeAt(p, tails, w, i, CodeOf(s, EpilogueAt(p.words[w], tails)))
    requires EvalS(p, s, d, local, fuel) == Some(r) && (r.Raises? ==> HasHandler(rs, handler))
    ensures Leads(p, tails, w, Inside(w, i, lr, rs, lr0, local, handler, d), s, i, r, lr0, rs, handler)
    decreases fuel, 1, s, 1
  {
    hide Compile, Reaches, Ends, Finish, HasHandler, EvalAct, EvalS, Leads, CodeAt, CodeOf, Inside, EpilogueAt, Size;
    match s
    case Token(a) => TokenRuns(p, tails, w, a, i, d, local, fuel, r, lr, lr0, rs, handler);
    case Seq(_, _) => SeqRuns(p, tails, w, s, i, d, local, fuel, r, lr, lr0, rs, handler);
    case If(_, _) => IfRuns(p, tails, w, s, i, d, local, fuel, r, lr, lr0, rs, handler);
    case While(_, _) => WhileRuns(p, tails, w, s, i, d, local, fuel, r, lr, lr0, rs, handler);
    case Exit => LeafRuns(p, tails, w, s, i, d, local, fuel, r, lr, lr0, rs, handler);
    case Skip => LeafRuns(p, tails, w, s, i, d, local, fuel, r, lr, lr0, rs, handler);
  }

  lemma LeafRuns(p: Prog, tails: bool, w: nat, s: Stmt, i: nat, d: Data, local: seq<Cell>, fuel: nat,
                 r: Result, lr: Cell, lr0: Cell, rs: seq<Cell>, handler: int)
    requires s.Exit? || s.Skip?
    requires w < |p.words| && CodeAt(p, tails, w, i, CodeOf(s, EpilogueAt(p.words[w], tails)))
    requires EvalS(p, s, d, local, fuel) == Some(r)
    ensures Leads(p, tails, w, Inside(w, i, lr, rs, lr0, local, handler, d), s, i, r, lr0, rs, handler)
  {
    hide Compile, Reaches, Ends, Finish, HasHandler, EpilogueAt;
    var m := Inside(w, i, lr, rs, lr0, local, handler, d);
    if s.Exit? {
      CodeOne(p, tails, w, i, ToEnd(EpilogueAt(p.words[w], tails)));
      ReachesStep(p, tails, m);
      assert Reaches(p, tails, m, Inside(w, EpilogueAt(p.words[w], tails), lr, rs, lr0, [], handler, d));
    } else {
      ReachesSelf(p, tails, m);
      assert Reaches(p, tails, m, Inside(w, i + Size(s), lr, rs, lr0, local, handler, d));
    }
  }

  lemma {:induction false} TokenRuns(p: Prog, tails: bool, w: nat, a: Act, i: nat, d: Data, local: seq<Cell>, fuel: nat,
                                     r: Result, lr: Cell, lr0: Cell, rs: seq<Cell>, handler: int)
    requires w < |p.words| && CodeAt(p, tails, w, i, CodeOf(Token(a), EpilogueAt(p.words[w], tails)))
    requires EvalS(p, Token(a), d, local, fuel) == Some(r) && (r.Raises? ==> HasHandler(rs, handler))
    ensures Leads(p, tails, w, Inside(w, i, lr, rs, lr0, local, handler, d), Token(a), i, r, lr0, rs, handler)
    decreases fuel, 1, Token(a), 0
  {
    hide Compile, Reaches, Ends, Finish, HasHandler, EvalAct, EpilogueAt;
    CodeOne(p, tails, w, i, Do(a));
    var (o, local') := EvalAct(p, a, d, local, fuel).value;
    if o.Done? {
      var lr' := ActRuns(p, tails, w, i, a, d, local, fuel, o, local', lr, lr0, rs, handler);
    } else {
      ActThrows(p, tails, w, i, a, d, local, fuel, o, lr, lr0, rs, handler);
    }
  }

  lemma {:induction false} SeqRuns(p: Prog, tails: bool, w: nat, s: Stmt, i: nat, d: Data, local: seq<Cell>, fuel: nat,
                                   r: Result, lr: Cell, lr0: Cell, rs: seq<Cell>, handler: int)
    requires s.Seq? && w < |p.words| && CodeAt(p, tails, w, i, CodeOf(s, EpilogueAt(p.words[w], tails)))
    requires EvalS(p, s, d, local, fuel) == Some(r) && (r.Raises? ==> HasHandler(rs, handler))
    ensures Leads(p, tails, w, Inside(w, i, lr, rs, lr0, local, handler, d), s, i, r, lr0, rs, handler)
    decreases fuel, 1, s, 0
  {
    hide Compile, Reaches, Ends, Finish, HasHandler, EvalAct, Leads, CodeAt, EpilogueAt, Inside;
    var e := EpilogueAt(p.words[w], tails);
    var m := Inside(w, i, lr, rs, lr0, local, handler, d);
    CodeParts(p, tails, w, i, CodeOf(s.first, e), CodeOf(s.second, e));
    var r1 := EvalS(p, s.first, d, local, fuel).value;
    StmtRuns(p, tails, w, s.first, i, d, local, fuel, r1, lr, lr0, rs, handler);
    if r1.Falls? {
      var lr1 := LeadsStep(p, tails, w, m, s.first, i, r1, lr0, rs, handler);
      var j := i + Size(s.first);
      StmtRuns(p, tails, w, s.second, j, r1.d, r1.local, fuel, r, lr1, lr0, rs, handler);
      LeadsAfter(p, tails, w, m, Inside(w, j, lr1, rs, lr0, r1.local, handler, r1.d), s.second, j, s, i, r, lr0, rs,
                 handler);
    } else {
      LeadsOut(p, tails, w, m, s.first, i, s, i, r, lr0, rs, handler);
    }
  }

  /** The code of a choice, part by part. */
  lemma IfParts(p: Prog, tails: bool, w: nat, i: nat, s: Stmt, e: nat)
    requires s.If? && CodeAt(p, tails, w, i, CodeOf(s, e))
    ensures Holds(p, tails, w, i, BranchIfZero(Size(s.yes) + 2)) && CodeAt(p, tails, w, i + 1, CodeOf(s.yes, e))
    ensures Holds(p, tails, w, i + 1 + Size(s.yes), Instr.Goto(Size(s.no) + 1))
    ensures CodeAt(p, tails, w, i + Size(s.yes) + 2, CodeOf(s.no, e))
  {
    hide Compile, CodeAt, Holds;
    var y, n := CodeOf(s.yes, e), CodeOf(s.no, e);
    var b, g := [BranchIfZero(Size(s.yes) + 2)], [Instr.Goto(Size(s.no) + 1)];
    CodeParts(p, tails, w, i, b + y + g, n);
    CodeParts(p, tails, w, i, b + y, g);
    CodeParts(p, tails, w, i, b, y);
    CodeOne(p, tails, w, i, b[0]);
    CodeOne(p, tails, w, i + 1 + Size(s.yes), g[0]);
  }

  lemma {:induction false} IfRuns(p: Prog, tails: bool, w: nat, s: Stmt, i: nat, d: Data, local: seq<Cell>, fuel: nat,
                                  r: Result, lr: Cell, lr0: Cell, rs: seq<Cell>, handler: int)
    requires s.If? && w < |p.words| && CodeAt(p, tails, w, i, CodeOf(s, EpilogueAt(p.words[w], tails)))
    requires EvalS(p, s, d, local, fuel) == Some(r) && (r.Raises? ==> HasHandler(rs, handler))
    ensures Leads(p, tails, w, Inside(w, i, lr, rs, lr0, local, handler, d), s, i, r, lr0, rs, handler)
    decreases fuel, 1, s, 0
  {
    hide Compile, Reaches, Ends, Finish, HasHandler, EvalAct, Leads, CodeAt, CodeOf, EpilogueAt, Inside, Holds, Dropped;
    var e := EpilogueAt(p.words[w], tails);
    var m := Inside(w, i, lr, rs, lr0, local, handler, d);
    var y := Size(s.yes);
    IfParts(p, tails, w, i, s, e);
    BranchRuns(p, tails, w, i, y + 2, lr, rs, lr0, local, handler, d);
    if d.tos != Num(0) {
      var m1 := Inside(w, i + 1, lr, rs, lr0, local, handler, Dropped(d));
      StmtRuns(p, tails, w, s.yes, i + 1, Dropped(d), local, fuel, r, lr, lr0, rs, handler);
      if r.Falls? {
        var lr1 := LeadsStep(p, tails, w, m1, s.yes, i + 1, r, lr0, rs, handler);
        BranchRuns(p, tails, w, i + 1 + y, Size(s.no) + 1, lr1, rs, lr0, r.local, handler, r.d);
        ReachesThen(p, tails, m, m1, Inside(w, i + 1 + y, lr1, rs, lr0, r.local, handler, r.d));
        ReachesThen(p, tails, m, Inside(w, i + 1 + y, lr1, rs, lr0, r.local, handler, r.d),
                    Inside(w, i + Size(s), lr1, rs, lr0, r.local, handler, r.d));
        FallsHere(p, tails, w, m, s, i, r, lr1, lr0, rs, handler);
      } else {
        LeadsAfter(p, tails, w, m, m1, s.yes, i + 1, s, i, r, lr0, rs, handler);
      }
    } else {
      var m1 := Inside(w, i + y + 2, lr, rs, lr0, local, handler, Dropped(d));
      StmtRuns(p, tails, w, s.no, i + y + 2, Dropped(d), local, fuel, r, lr, lr0, rs, handler);
      LeadsAfter(p, tails, w, m, m1, s.no, i + y + 2, s, i, r, lr0, rs, handler);
    }
  }

  lemma FallsHere(p: Prog, tails: bool, w: nat, m: Mach, s: Stmt, i: nat, r: Result, lr: Cell, lr0: Cell, rs: seq<Cell>,
                  handler: int)
    requires w < |p.words| && r.Falls?
    requires Reaches(p, tails, m, Inside(w, i + Size(s), lr, rs, lr0, r.local, handler, r.d))
    ensures Leads(p, tails, w, m, s, i, r, lr0, rs, handler)
  {
    hide Reaches, Size;
  }

  /** The code of a loop, part by part. */
  lemma WhileParts(p: Prog, tails: bool, w: nat, i: nat, s: Stmt, e: nat)
    requires s.While? && CodeAt(p, tails, w, i, CodeOf(s, e))
    ensures CodeAt(p, tails, w, i, CodeOf(s.test, e))
    ensures Holds(p, tails, w, i + Size(s.test), BranchIfZero(Size(s.body) + 2))
    ensures CodeAt(p, tails, w, i + Size(s.test) + 1, CodeOf(s.body, e))
    ensures Holds(p, tails, w, i + Size(s.test) + 1 + Size(s.body), Instr.Goto(-(Size(s.test) + 1 + Size(s.body))))
  {
    hide Compile, CodeAt, Holds;
    var t, b := CodeOf(s.test, e), CodeOf(s.body, e);
    var z, g := [BranchIfZero(Size(s.body) + 2)], [Instr.Goto(-(Size(s.test) + 1 + Size(s.body)))];
    CodeParts(p, tails, w, i, t + z + b, g);
    CodeParts(p, tails, w, i, t + z, b);
    CodeParts(p, tails, w, i, t, z);
    CodeOne(p, tails, w, i + Size(s.test), z[0]);
    CodeOne(p, tails, w, i + Size(s.test) + 1 + Size(s.body), g[0]);
  }

  lemma {:induction false} WhileRuns(p: Prog, tails: bool, w: nat, s: Stmt, i: nat, d: Data, local: seq<Cell>,
                                     fuel: nat, r: Result, lr: Cell, lr0: Cell, rs: seq<Cell>, handler: int)
    requires s.While? && w < |p.words| && CodeAt(p, tails, w, i, CodeOf(s, EpilogueAt(p.words[w], tails)))
    requires EvalS(p, s, d, local, fuel) == Some(r) && (r.Raises? ==> HasHandler(rs, handler))
    ensures Leads(p, tails, w, Inside(w, i, lr, rs, lr0, local, handler, d), s, i, r, lr0, rs, handler)
    decreases fuel, 1, s, 0
  {
    hide Compile, Reaches, Ends, Finish, HasHandler, EvalAct, Leads, CodeAt, CodeOf, EpilogueAt, Inside, Holds, Dropped;
    var e := EpilogueAt(p.words[w], tails);
    var m := Inside(w, i, lr, rs, lr0, local, handler, d);
    WhileParts(p, tails, w, i, s, e);
    var t := i + Size(s.test);
    var r1 := EvalS(p, s.test, d, local, fuel - 1).value;
    StmtRuns(p, tails, w, s.test, i, d, local, fuel - 1, r1, lr, lr0, rs, handler);
    if !r1.Falls? {
      LeadsOut(p, tails, w, m, s.test, i, s, i, r, lr0, rs, handler);
    } else {
      var lr1 := LeadsStep(p, tails, w, m, s.test, i, r1, lr0, rs, handler);
      var mt := Inside(w, t, lr1, rs, lr0, r1.local, handler, r1.d);
      BranchRuns(p, tails, w, t, Size(s.body) + 2, lr1, rs, lr0, r1.local, handler, r1.d);
      if r1.d.tos == Num(0) {
        ReachesThen(p, tails, m, mt, Inside(w, i + Size(s), lr1, rs, lr0, r1.local, handler, Dropped(r1.d)));
        FallsHere(p, tails, w, m, s, i, r, lr1, lr0, rs, handler);
      } else {
        var mb := Inside(w, t + 1, lr1, rs, lr0, r1.local, handler, Dropped(r1.d));
        ReachesThen(p, tails, m, mt, mb);
        WhileRound(p, tails, w, s, i, r1, fuel, r, lr1, lr0, rs, handler);
        LeadsAfter(p, tails, w, m, mb, s, i, s, i, r, lr0, rs, handler);
      }
    }
  }

  /** The body of a loop, back to its start, and on. */
  lemma {:induction false} WhileRound(p: Prog, tails: bool, w: nat, s: Stmt, i: nat, r1: Result, fuel: nat,
                                      r: Result, lr1: Cell, lr0: Cell, rs: seq<Cell>, handler: int)
    requires s.While? && w < |p.words| && CodeAt(p, tails, w, i, CodeOf(s, EpilogueAt(p.words[w], tails)))
    requires fuel > 0 && r1.Falls? && (r.Raises? ==> HasHandler(rs, handler))
    requires var r2 := EvalS(p, s.body, Dropped(r1.d), r1.local, fuel - 1);
             r2.Some? && (if r2.value.Falls? then EvalS(p, s, r2.value.d, r2.value.local, fuel - 1) == Some(r)
                          else r == r2.value)
    ensures Leads(p, tails, w, Inside(w, i + Size(s.test) + 1, lr1, rs, lr0, r1.local, handler, Dropped(r1.d)), s, i, r,
                  lr0, rs, handler)
    decreases fuel, 0, s, 0
  {
    hide Compile, Reaches, Ends, Finish, HasHandler, EvalAct, EvalS, Leads, CodeAt, CodeOf, EpilogueAt, Inside, Holds,
         Dropped;
    WhileParts(p, tails, w, i, s, EpilogueAt(p.words[w], tails));
    var t, b := Size(s.test), Size(s.body);
    var d1 := Dropped(r1.d);
    var mb := Inside(w, i + t + 1, lr1, rs, lr0, r1.local, handler, d1);
    var r2 := EvalS(p, s.body, d1, r1.local, fuel - 1).value;
    StmtRuns(p, tails, w, s.body, i + t + 1, d1, r1.local, fuel - 1, r2, lr1, lr0, rs, handler);
    if r2.Falls? {
      var lr2 := LeadsStep(p, tails, w, mb, s.body, i + t + 1, r2, lr0, rs, handler);
      BranchRuns(p, tails, w, i + t + 1 + b, -(Size(s.test) + 1 + Size(s.body)), lr2, rs, lr0, r2.local, handler, r2.d);
      var m2 := Inside(w, i, lr2, rs, lr0, r2.local, handler, r2.d);
      ReachesThen(p, tails, mb, Inside(w, i + t + 1 + b, lr2, rs, lr0, r2.local, handler, r2.d), m2);
      StmtRuns(p, tails, w, s, i, r2.d, r2.local, fuel - 1, r, lr2, lr0, rs, handler);
      LeadsAfter(p, tails, w, mb, m2, s, i, s, i, r, lr0, rs, handler);
    } else {
      LeadsOut(p, tails, w, mb, s.body, i + t + 1, s, i, r, lr0, rs, handler);
    }
  }

  /** A statement that leaves the word holds an `exit`. */
  lemma {:induction false} LeavesByExit(p: Prog, s: Stmt, d: Data, local: seq<Cell>, fuel: nat)
    requires EvalS(p, s, d, local, fuel).Some? && EvalS(p, s, d, local, fuel).value.Leaves?
    ensures HasExit(s)
    decreases fuel, s
  {
    hide EvalAct, Dropped;
    match s
    case Token(_) =>
    case Seq(first, second) =>
      var r := EvalS(p, first, d, local, fuel).value;
      if r.Falls? {
        LeavesByExit(p, second, r.d, r.local, fuel);
      } else {
        LeavesByExit(p, first, d, local, fuel);
      }
    case If(yes, no) => LeavesByExit(p, if d.tos != Num(0) then yes else no, Dropped(d), local, fuel);
    case While(test, body) =>
      var r := EvalS(p, test, d, local, fuel - 1).value;
      if r.Leaves? {
        LeavesByExit(p, test, d, local, fuel - 1);
      } else {
        var r2 := EvalS(p, body, Dropped(r.d), r.local, fuel - 1).value;
        if r2.Falls? {
          LeavesByExit(p, s, r2.d, r2.local, fuel - 1);
        } else {
          LeavesByExit(p, body, Dropped(r.d), r.local, fuel - 1);
        }
      }
    case Exit =>
    case Skip =>
  }

  /** One token that does not end the word. */
  lemma {:induction false} ActRuns(p: Prog, tails: bool, w: nat, i: nat, a: Act, d: Data, local: seq<Cell>, fuel: nat,
                                   o: Outcome, local': seq<Cell>, lr: Cell, lr0: Cell, rs: seq<Cell>, handler: int)
    returns (lr': Cell)
    requires Holds(p, tails, w, i, Do(a))
    requires EvalAct(p, a, d, local, fuel) == Some((o, local')) && o.Done?
    ensures Reaches(p, tails, Inside(w, i, lr, rs, lr0, local, handler, d),
                    Inside(w, i + 1, lr', rs, lr0, local', handler, o.d))
    decreases fuel, 0, Skip, 1
  {
    hide Compile, Reaches, Ends, EvalWord;
    var m := Inside(w, i, lr, rs, lr0, local, handler, d);
    lr' := lr;
    if a.CallW? {
      lr' := CallRuns(p, tails, w, i, a.w, d, local, fuel, o, lr, lr0, rs, handler);
    } else if a.CatchA? {
      lr' := CatchRuns(p, tails, w, i, d, local, fuel, o, lr, lr0, rs, handler);
    } else {
      if a.ToR? {
        assert rs + [lr0] + local + [d.tos] == rs + [lr0] + local';
      } else if a.FromR? {
        assert (rs + [lr0] + local)[..|m.rs| - 1] == rs + [lr0] + local';
      }
      assert Step(p, tails, m) == Some(Inside(w, i + 1, lr, rs, lr0, local', handler, o.d));
      ReachesStep(p, tails, m);
    }
  }

  lemma {:induction false} CallRuns(p: Prog, tails: bool, w: nat, i: nat, w2: nat, d: Data, local: seq<Cell>,
                                    fuel: nat, o: Outcome, lr: Cell, lr0: Cell, rs: seq<Cell>, handler: int)
    returns (lr': Cell)
    requires Holds(p, tails, w, i, Do(CallW(w2)))
    requires EvalAct(p, CallW(w2), d, local, fuel) == Some((o, local)) && o.Done?
    ensures Reaches(p, tails, Inside(w, i, lr, rs, lr0, local, handler, d),
                    Inside(w, i + 1, lr', rs, lr0, local, handler, o.d))
    decreases fuel, 0, Skip, 0
  {
    hide Compile, Reaches, EvalWord;
    var m := Inside(w, i, lr, rs, lr0, local, handler, d);
    var next := Code(At(w, i + 1));
    var m1 := Mach(At(w2, 0), next, m.rs, handler, d);
    ReachesStep(p, tails, m);
    WordRuns(p, tails, w2, d, fuel - 1, o, next, m.rs, handler);
    var end := Finish(o, next, m.rs, handler);
    lr' :| Reaches(p, tails, m1, end.(lr := lr'));
    ReachesThen(p, tails, m, m1, end.(lr := lr'));
  }

  /** `catch`: whether its word returns or throws, from whatever depth, control comes back
      here with the return stack and the handler as they were. */
  lemma {:induction false} CatchRuns(p: Prog, tails: bool, w: nat, i: nat, d: Data, local: seq<Cell>,
                                     fuel: nat, o: Outcome, lr: Cell, lr0: Cell, rs: seq<Cell>, handler: int)
    returns (lr': Cell)
    requires Holds(p, tails, w, i, Do(CatchA))
    requires EvalAct(p, CatchA, d, local, fuel) == Some((o, local)) && o.Done?
    ensures Reaches(p, tails, Inside(w, i, lr, rs, lr0, local, handler, d),
                    Inside(w, i + 1, lr', rs, lr0, local, handler, o.d))
    decreases fuel, 0, Skip, 0
  {
    hide Compile, Reaches, EvalWord;
    var m := Inside(w, i, lr, rs, lr0, local, handler, d);
    var next := Code(At(w, i + 1));
    var rs1 := m.rs + [next, Num(handler), Num(d.dsp)];
    var w2 := d.tos.a.w;
    var m1 := Mach(At(w2, 0), Code(InCatch), rs1, |rs1|, Dropped(d));
    assert Step(p, tails, m) == Some(m1);
    ReachesStep(p, tails, m);
    var o2 := EvalWord(p, w2, Dropped(d), fuel - 1).value;
    assert HasHandler(rs1, |rs1|) && rs1[..|rs1| - 3] == m.rs;
    WordRuns(p, tails, w2, Dropped(d), fuel - 1, o2, Code(InCatch), rs1, |rs1|);
    var end := Finish(o2, Code(InCatch), rs1, |rs1|);
    lr' :| Reaches(p, tails, m1, end.(lr := lr'));
    ReachesThen(p, tails, m, m1, end.(lr := lr'));
    if o2.Done? {
      var m2 := end.(lr := lr');
      lr' := next;
      assert Step(p, tails, m2) == Some(Inside(w, i + 1, next, rs, lr0, local, handler, o.d));
      ReachesStep(p, tails, m2);
      ReachesThen(p, tails, m, m2, Inside(w, i + 1, next, rs, lr0, local, handler, o.d));
    }
  }

  /** A token that throws. */
  lemma {:induction false} ActThrows(p: Prog, tails: bool, w: nat, i: nat, a: Act, d: Data, local: seq<Cell>, fuel: nat,
                                     o: Outcome, lr: Cell, lr0: Cell, rs: seq<Cell>, handler: int)
    requires Holds(p, tails, w, i, Do(a)) && HasHandler(rs, handler)
    requires EvalAct(p, a, d, local, fuel).Some? && EvalAct(p, a, d, local, fuel).value.0 == o && o.Thrown?
    ensures Ends(p, tails, Inside(w, i, lr, rs, lr0, local, handler, d), Finish(o, lr0, rs, handler))
    decreases fuel, 0, Skip, 1
  {
    hide Compile, Reaches, EvalWord, Ends;
    var m := Inside(w, i, lr, rs, lr0, local, handler, d);
    assert m.rs == rs + ([lr0] + local);
    ThrownBelow(o.d, lr0, rs, [lr0] + local, handler);
    var end := Finish(o, lr0, rs, handler);
    if a.ThrowA? {
      assert Step(p, tails, m) == Some(end);
      ReachesStep(p, tails, m);
      EndsHere(p, tails, m, end);
    } else {
      var m1 := Mach(At(a.w, 0), Code(At(w, i + 1)), m.rs, handler, d);
      ReachesStep(p, tails, m);
      WordRuns(p, tails, a.w, d, fuel - 1, o, Code(At(w, i + 1)), m.rs, handler);
      EndsAfter(p, tails, m, m1, end);
    }
  }

  /** A tail call: the return address goes back to the link register and the word called takes
      over. */
  lemma {:induction false} TailRuns(p: Prog, tails: bool, w: nat, w2: nat, i: nat, d: Data, fuel: nat, o: Outcome,
                                    lr: Cell, lr0: Cell, rs: seq<Cell>, handler: int)
    requires Holds(p, tails, w, i, Unnest) && Holds(p, tails, w, i + 1, Jump(w2))
    requires fuel > 0 && EvalWord(p, w2, d, fuel - 1) == Some(o)
    requires if o.Done? then lr0.Code? else HasHandler(rs, handler)
    ensures Ends(p, tails, Inside(w, i, lr, rs, lr0, [], handler, d), Finish(o, lr0, rs, handler))
    decreases fuel, 0
  {
    hide Compile, Reaches, EvalWord, Ends, Finish;
    var m := Inside(w, i, lr, rs, lr0, [], handler, d);
    var m1 := Mach(At(w, i + 1), lr0, rs, handler, d);
    var m2 := Mach(At(w2, 0), lr0, rs, handler, d);
    assert m.rs[..|m.rs| - 1] == rs;
    assert Step(p, tails, m) == Some(m1) && Step(p, tails, m1) == Some(m2);
    ReachesStep(p, tails, m);
    ReachesStep(p, tails, m1);
    ReachesThen(p, tails, m, m1, m2);
    WordRuns(p, tails, w2, d, fuel - 1, o, lr0, rs, handler);
    EndsAfter(p, tails, m, m2, Finish(o, lr0, rs, handler));
  }

  // ----- tail calls -----

  /** Tail-call elimination changes nothing a caller can see. */
  lemma TailCallsPreserve(p: Prog, w: nat, d: Data, fuel: nat, o: Outcome, lr: Cell, rs: seq<Cell>, handler: int)
    requires EvalWord(p, w, d, fuel) == Some(o)
    requires if o.Done? then lr.Code? else HasHandler(rs, handler)
    ensures exists end :: Ends(p, true, Mach(At(w, 0), lr, rs, handler, d), end)
                          && Ends(p, false, Mach(At(w, 0), lr, rs, handler, d), end)
                          && end == Finish(o, lr, rs, handler)
  {
    hide Ends, EvalWord;
    WordRuns(p, true, w, d, fuel, o, lr, rs, handler);
    WordRuns(p, false, w, d, fuel, o, lr, rs, handler);
  }

  /** `n` passes of a word that ends in a call of itself, none leaving or throwing. */
  function Passes(p: Prog, w: nat, n: nat, d: Data, fuel: nat): Option<Data>
    requires w < |p.words|
  {
    if n == 0 then Some(d)
    else
      match EvalS(p, p.words[w].body, d, [], fuel)
      case Some(Falls(d', local)) => if local == [] then Passes(p, w, n - 1, d', fuel) else None
      case _ => None
  }

  /** The return stack after `n` recursions without tail calls: each leaves a frame. */
  function Frames(w: nat, k: nat, n: nat, lr: Cell): seq<Cell> {
    if n == 0 then [] else [lr] + Frames(w, k, n - 1, Code(At(w, k)))
  }

  /** Self tail recursion re-enters the word with the return stack of its first entry at every
      recursion; without the elimination each recursion adds a frame. */
  lemma {:induction false} RecursionDepth(p: Prog, tails: bool, w: nat, n: nat, d: Data, fuel: nat, end: Data,
                                          lr: Cell, rs: seq<Cell>, handler: int)
    requires w < |p.words| && p.words[w].last == Some(w)
    requires Passes(p, w, n, d, fuel) == Some(end)
    ensures var back := 2 + Size(p.words[w].body);
            var frames := if tails then [] else Frames(w, back, n, lr);
            var lr' := if tails || n == 0 then lr else Code(At(w, back));
            Reaches(p, tails, Mach(At(w, 0), lr, rs, handler, d), Mach(At(w, 0), lr', rs + frames, handler, end))
            && |frames| == if tails then 0 else n
    decreases n
  {
    hide Compile, Reaches, EvalS, StepDo, Frames, Step, Inside, Size;
    var back := 2 + Size(p.words[w].body);
    var m := Mach(At(w, 0), lr, rs, handler, d);
    assert rs + [] == rs;
    FramesNext(w, back, n, lr, rs);
    if n == 0 {
      ReachesSelf(p, tails, m);
    } else {
      var d1 := EvalS(p, p.words[w].body, d, [], fuel).value.d;
      var m1 := Inside(w, 1, lr, rs, lr, [], handler, d);
      NestStep(p, tails, w, lr, rs, handler, d);
      var m3 := OneRound(p, tails, w, d, fuel, d1, lr, rs, handler);
      ReachesThen(p, tails, m, m1, m3);
      RecursionDepth(p, tails, w, n - 1, d1, fuel, end, m3.lr, m3.rs, handler);
      FramesLength(w, back, n, lr);
      ReachesThen(p, tails, m, m3,
                  Mach(At(w, 0), if tails then lr else Code(At(w, back)),
                       rs + if tails then [] else Frames(w, back, n, lr), handler, end));
    }
  }

  /** One pass and the call at its end. */
  lemma OneRound(p: Prog, tails: bool, w: nat, d: Data, fuel: nat, d1: Data, lr: Cell, rs: seq<Cell>, handler: int)
    returns (m': Mach)
    requires w < |p.words| && p.words[w].last == Some(w)
    requires EvalS(p, p.words[w].body, d, [], fuel) == Some(Falls(d1, []))
    ensures Reaches(p, tails, Inside(w, 1, lr, rs, lr, [], handler, d), m')
    ensures m' == if tails then Mach(At(w, 0), lr, rs, handler, d1)
                  else Mach(At(w, 0), Code(At(w, 2 + Size(p.words[w].body))), rs + [lr], handler, d1)
  {
    hide Compile, Reaches, EvalS, Size, CodeOf, CodeAt, EpilogueAt, Inside, Leads, Holds;
    var body := p.words[w].body;
    var m := Inside(w, 1, lr, rs, lr, [], handler, d);
    CompiledAt(p, tails, w);
    StmtRuns(p, tails, w, body, 1, d, [], fuel, Falls(d1, []), lr, lr, rs, handler);
    var lr1 := LeadsStep(p, tails, w, m, body, 1, Falls(d1, []), lr, rs, handler);
    m' := SelfCall(p, tails, w, d1, lr1, lr, rs, handler);
    ReachesThen(p, tails, m, Inside(w, 1 + Size(body), lr1, rs, lr, [], handler, d1), m');
  }

  lemma FramesNext(w: nat, k: nat, n: nat, lr: Cell, rs: seq<Cell>)
    ensures n == 0 ==> Frames(w, k, n, lr) == []
    ensures n > 0 ==> rs + Frames(w, k, n, lr) == rs + [lr] + Frames(w, k, n - 1, Code(At(w, k)))
  {
  }

  lemma NestStep(p: Prog, tails: bool, w: nat, lr: Cell, rs: seq<Cell>, handler: int, d: Data)
    requires w < |p.words|
    ensures Reaches(p, tails, Mach(At(w, 0), lr, rs, handler, d), Inside(w, 1, lr, rs, lr, [], handler, d))
  {
    hide Compile, Reaches;
    CompiledAt(p, tails, w);
    var m := Mach(At(w, 0), lr, rs, handler, d);
    assert rs + [lr] == rs + [lr] + [];
    assert Step(p, tails, m) == Some(Inside(w, 1, lr, rs, lr, [], handler, d));
    ReachesStep(p, tails, m);
  }

  lemma {:induction false} FramesLength(w: nat, k: nat, n: nat, lr: Cell)
    ensures |Frames(w, k, n, lr)| == n
  {
    if n > 0 {
      FramesLength(w, k, n - 1, Code(At(w, k)));
    }
  }

  /** The call at the end, of the word itself. */
  lemma SelfCall(p: Prog, tails: bool, w: nat, d: Data, lr1: Cell, lr: Cell, rs: seq<Cell>, handler: int)
    returns (m': Mach)
    requires w < |p.words| && p.words[w].last == Some(w)
    ensures Reaches(p, tails, Inside(w, 1 + Size(p.words[w].body), lr1, rs, lr, [], handler, d), m')
    ensures m' == if tails then Mach(At(w, 0), lr, rs, handler, d)
                  else Mach(At(w, 0), Code(At(w, 2 + Size(p.words[w].body))), rs + [lr], handler, d)
  {
    hide Compile, Reaches, CodeAt, CodeOf, Size;
    var i := 1 + Size(p.words[w].body);
    var m := Inside(w, i, lr1, rs, lr, [], handler, d);
    CompiledAt(p, tails, w);
    assert m.rs == rs + [lr];
    if tails {
      assert [Unnest] + [Jump(w)] == [Unnest, Jump(w)];
      CodeParts(p, tails, w, i, [Unnest], [Jump(w)]);
      CodeOne(p, tails, w, i, Unnest);
      CodeOne(p, tails, w, i + 1, Jump(w));
      var m1 := Mach(At(w, i + 1), lr, rs, handler, d);
      m' := Mach(At(w, 0), lr, rs, handler, d);
      assert m.rs[..|m.rs| - 1] == rs;
      assert Step(p, tails, m) == Some(m1) && Step(p, tails, m1) == Some(m');
      ReachesStep(p, tails, m);
      ReachesStep(p, tails, m1);
      ReachesThen(p, tails, m, m1, m');
    } else {
      CodeOne(p, tails, w, i, Do(CallW(w)));
      m' := Mach(At(w, 0), Code(At(w, i + 1)), rs + [lr], handler, d);
      assert Step(p, tails, m) == Some(m');
      ReachesStep(p, tails, m);
    }
  }
}
