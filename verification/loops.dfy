/** How often a counted loop runs. */
module Loops {
  import opened Options
  import opened Cells
  import opened Tokens
  import opened Reduce
  import opened Signed
  import opened Machine
  import opened Branches
  import opened Structured
  import opened Flow

  // ----- the test of the emitted code -----

  lemma SignOfXor(a: Cell, b: Cell)
    ensures Negative(a ^ b) <==> Negative(a) != Negative(b)
  {
  }

  lemma DifferenceSteps(index: Cell, inc: Cell, limit: Cell)
    ensures Sub.Eval(index + inc, limit) == Add.Eval(index - limit, inc)
  {
  }

  lemma XorSign(a: Cell, b: Cell)
    ensures Negative(Xor.Eval(a, b)) <==> Negative(a) != Negative(b)
  {
    SignOfXor(a, b);
  }

  lemma StepCommutes(index: Cell, inc: Cell, limit: Cell)
    ensures Sub.Eval(Add.Eval(index, inc), limit) == Add.Eval(Sub.Eval(index, limit), inc)
  {
    hide AluOp.Eval;
    AddIs(index, inc);
    SubIs(index, limit);
    DifferenceSteps(index, inc, limit);
  }

  /** The cell `loop` and `+loop` test is negative exactly when index - limit, stepped by the
      increment, changes its sign. */
  lemma CrossingIsSignChange(index: Cell, inc: Cell, limit: Cell)
    ensures var d := Sub.Eval(index, limit);
            Negative(Crossing(index, Add.Eval(index, inc), limit)) <==> Negative(d) != Negative(Add.Eval(d, inc))
  {
    hide AluOp.Eval, Negative;
    StepCommutes(index, inc, limit);
    XorSign(Sub.Eval(index, limit), Sub.Eval(Add.Eval(index, inc), limit));
  }

  // ----- counting in signed 64-bit numbers -----

  /** The smallest `k` with `k * n >= a`. */
  function CeilDiv(a: nat, n: nat): nat
    requires n > 0
  {
    (a + n - 1) / n
  }

  function FloorDiv(a: nat, n: nat): nat
    requires n > 0
  {
    a / n
  }

  /** How often the body runs, for index - limit = `d` at the start and the step `n`. */
  function Trips(d: int, n: int): nat
    requires IsSigned(d) && n != 0
  {
    if n > 0 then CeilDiv(if d < 0 then -d else TOP - d, n)
    else FloorDiv(if d >= 0 then d else d + TOP, -n) + 1
  }

  /** index - limit after `k` steps. */
  function After(d: int, n: int, k: nat): int {
    if k == 0 then d else Wrap(After(d, n, k - 1) + n)
  }

  predicate Crosses(before: int, next: int) {
    (before < 0) != (next < 0)
  }

  lemma CeilDivIs(a: nat, n: nat, k: nat)
    requires n > 0 && a > 0
    ensures k < CeilDiv(a, n) <==> Way(k, n) < a
    ensures CeilDiv(a, n) >= 1
  {
    var q := CeilDiv(a, n);
    Bounds(a + n - 1, n);
    assert n * q >= a && n * (q - 1) < a;
    Monotone(n, k, q);
  }

  lemma Bounds(x: nat, n: nat)
    requires n > 0
    ensures n * (x / n) <= x < n * (x / n) + n
  {
  }

  lemma Monotone(n: nat, k: int, q: int)
    requires n > 0
    ensures k < q ==> n * k <= n * (q - 1)
    ensures k >= q ==> n * k >= n * q
  {
    Product(n, q - 1 - k);
    Product(n, k - q);
    assert n * (q - 1 - k) == n * (q - 1) - n * k;
    assert n * (k - q) == n * k - n * q;
  }

  lemma Product(n: nat, x: int)
    ensures x >= 0 ==> n * x >= 0
  {
  }

  lemma FloorDivIs(a: nat, n: nat, k: nat)
    requires n > 0
    ensures k < FloorDiv(a, n) + 1 <==> Way(k, n) <= a
  {
    Bounds(a, n);
    Monotone(n, k, a / n + 1);
  }

  /** How far `k` steps of `n` go. */
  function Way(k: nat, n: int): int {
    k * n
  }

  lemma WayNext(k: nat, n: int)
    ensures Way(0, n) == 0 && Way(k + 1, n) == Way(k, n) + n
  {
  }

  /** Fewer steps than `Trips` stay on the side of the limit they started on. */
  lemma TripsIs(d: int, n: int, k: nat)
    requires IsSigned(d) && IsSigned(n) && n != 0
    ensures k < Trips(d, n) <==>
              if n > 0 then d + Way(k, n) < (if d < 0 then 0 else TOP)
              else d + Way(k, n) >= (if d >= 0 then 0 else -TOP)
    ensures Trips(d, n) >= 1
  {
    hide Way, CeilDiv, FloorDiv;
    if n > 0 {
      CeilDivIs(if d < 0 then -d else TOP - d, n, k);
    } else {
      FloorDivIs(if d >= 0 then d else d + TOP, -n, k);
      WayBack(k, n);
    }
  }

  lemma WayBack(k: nat, n: int)
    ensures Way(k, -n) == -Way(k, n)
  {
  }

  /** Before the last step nothing has wrapped or crossed. */
  lemma {:induction false} AfterIs(d: int, n: int, k: nat)
    requires IsSigned(d) && IsSigned(n) && n != 0 && k < Trips(d, n)
    ensures After(d, n, k) == d + Way(k, n) && IsSigned(After(d, n, k)) && (After(d, n, k) < 0 <==> d < 0)
    decreases k
  {
    hide Trips, Way, Wrap;
    WayNext(0, n);
    if k > 0 {
      TripsIs(d, n, k);
      TripsIs(d, n, k - 1);
      WayNext(k - 1, n);
      AfterIs(d, n, k - 1);
      StaysOnSide(d, n, Way(k - 1, n));
    }
  }

  /** One more step on the same side. */
  lemma StaysOnSide(d: int, n: int, way: int)
    requires IsSigned(d) && IsSigned(n) && IsSigned(d + way) && (d + way < 0 <==> d < 0)
    requires if n > 0 then d + way + n < (if d < 0 then 0 else TOP)
             else d + way + n >= (if d >= 0 then 0 else -TOP)
    ensures Wrap(d + way + n) == d + way + n && (d + way + n < 0 <==> d < 0)
  {
    WrapNear(d + way + n);
  }

  /** The step that leaves it. */
  lemma LeavesSide(d: int, n: int, way: int)
    requires IsSigned(d) && IsSigned(n) && n != 0 && IsSigned(d + way) && (d + way < 0 <==> d < 0)
    requires if n > 0 then d + way + n >= (if d < 0 then 0 else TOP)
             else d + way + n < (if d >= 0 then 0 else -TOP)
    ensures (Wrap(d + way + n) < 0) != (d < 0)
  {
    WrapNear(d + way + n);
  }

  /** The sign changes at step `Trips` and at no step before: the body runs that often. */
  lemma ExactTrips(d: int, n: int, k: nat)
    requires IsSigned(d) && IsSigned(n) && n != 0 && 1 <= k <= Trips(d, n)
    ensures Crosses(After(d, n, k - 1), After(d, n, k)) <==> k == Trips(d, n)
  {
    hide Trips, Way, Wrap;
    AfterIs(d, n, k - 1);
    TripsIs(d, n, k);
    WayNext(k - 1, n);
    if k < Trips(d, n) {
      AfterIs(d, n, k);
    } else {
      LeavesSide(d, n, Way(k - 1, n));
    }
  }

  /** For a step of one. */
  lemma LoopTrips(d: int)
    requires IsSigned(d)
    ensures Trips(d, 1) == if d < 0 then -d else TOP - d
  {
  }

  // ----- the loop itself -----

  lemma AddIsPlus(a: Cell, b: Cell)
    ensures Add.Eval(a, b) == Plus(a, b)
  {
    hide AluOp.Eval, Plus;
    AddIs(a, b);
    PlusIs(a, b);
  }

  /** The machine's test and step, in numbers: the difference cell holds `x`, the step `n`. */
  lemma CrossedIs(index: Cell, inc: Cell, limit: Cell, x: int, n: int)
    requires IsSigned(x) && IsSigned(n) && FromInt(x) == Sub.Eval(index, limit) && FromInt(n) == inc
    ensures FromInt(Wrap(x + n)) == Sub.Eval(Add.Eval(index, inc), limit)
    ensures Negative(Crossing(index, Add.Eval(index, inc), limit)) <==> Crosses(x, Wrap(x + n))
  {
    hide AluOp.Eval, Negative, FromInt, Wrap, Plus;
    CrossingIsSignChange(index, inc, limit);
    StepCommutes(index, inc, limit);
    SumIs(x, n);
    AddIsPlus(FromInt(x), inc);
    SignIs(x);
    SignIs(Wrap(x + n));
  }

  /** How often the body is executed. */
  function Turns(words: Words, body: Stmt, step: bool, st: Forth, fuel: nat): nat
    decreases fuel
  {
    if fuel == 0 then 0
    else
      match Eval(words, body, st, fuel - 1)
      case Some(Normal(st1)) =>
        (match Advance(step, st1)
         case Some((st2, crossed)) => if crossed then 1 else 1 + Turns(words, body, step, st2, fuel - 1)
         case None => 1)
      case _ => 1
  }

  /** From the states of `inv` the body ends, given `need` of fuel, at its own end with the
      loop frame as it was and the step `inc` on top, and after the step `inv` holds again. */
  ghost predicate Steady(words: Words, body: Stmt, step: bool, inc: Cell, inv: Forth -> bool, need: nat) {
    (!step ==> inc == 1)
    && forall st, f: nat | inv(st) && |st.rs| >= 2 :: SteadyAt(words, body, step, inc, inv, need, st, f)
  }

  ghost predicate SteadyAt(words: Words, body: Stmt, step: bool, inc: Cell, inv: Forth -> bool, need: nat,
                           st: Forth, f: nat) {
    var o := Eval(words, body, st, f);
    (f >= need ==> o.Some?)
    && (o.Some? ==> o.value.Normal? && o.value.st.rs == st.rs
                    && (step ==> |o.value.st.stack| >= 2 && Item(o.value.st.stack, 0) == inc)
                    && Advance(step, o.value.st).Some? && inv(Advance(step, o.value.st).value.0))
  }

  lemma AdvanceIs(step: bool, inc: Cell, st: Forth)
    requires |st.rs| >= 2 && (step ==> |st.stack| >= 2 && Item(st.stack, 0) == inc) && (!step ==> inc == 1)
    ensures var next := Add.Eval(st.rs[0], inc);
            Advance(step, st).Some? && Advance(step, st).value.0.rs == st.rs[0 := next]
            && Advance(step, st).value.1 == Negative(Crossing(st.rs[0], next, st.rs[1]))
  {
    hide AluOp.Eval, Negative, Crossing;
  }

  /** What one turn does, the body being steady. */
  lemma OneTurn(words: Words, body: Stmt, step: bool, inc: Cell, inv: Forth -> bool, need: nat, st: Forth,
                fuel: nat, x: int, n: int)
    requires Steady(words, body, step, inc, inv, need) && inv(st) && |st.rs| >= 2
    requires IsSigned(x) && IsSigned(n) && FromInt(n) == inc && FromInt(x) == Sub.Eval(st.rs[0], st.rs[1])
    requires fuel > 0 && Eval(words, body, st, fuel - 1).Some?
    ensures var o := Eval(words, body, st, fuel - 1).value;
            && o.Normal? && Advance(step, o.st).Some?
            && var (st2, crossed) := Advance(step, o.st).value;
               && inv(st2) && |st2.rs| >= 2 && st2.rs[2..] == st.rs[2..]
               && FromInt(Wrap(x + n)) == Sub.Eval(st2.rs[0], st2.rs[1]) && crossed == Crosses(x, Wrap(x + n))
  {
    hide AluOp.Eval, Negative, FromInt, Wrap, Crossing, Eval, Advance;
    assert SteadyAt(words, body, step, inc, inv, need, st, fuel - 1);
    var st1 := Eval(words, body, st, fuel - 1).value.st;
    AdvanceIs(step, inc, st1);
    CrossedIs(st.rs[0], inc, st.rs[1], x, n);
  }

  /** The loop goes on until turn `Trips`, from any turn before it. */
  lemma {:induction false} TurnsFrom(words: Words, body: Stmt, step: bool, inc: Cell, inv: Forth -> bool, need: nat,
                                     st: Forth, fuel: nat, d: int, n: int, k: nat)
    requires Steady(words, body, step, inc, inv, need) && inv(st) && |st.rs| >= 2
    requires IsSigned(d) && IsSigned(n) && n != 0 && FromInt(n) == inc && k < Trips(d, n)
    requires FromInt(After(d, n, k)) == Sub.Eval(st.rs[0], st.rs[1]) && IsSigned(After(d, n, k))
    requires fuel >= need + Trips(d, n) - k
    ensures var o := EvalLoop(words, body, step, st, fuel);
            o.Some? && o.value.Normal? && o.value.st.rs == st.rs[2..]
    ensures Turns(words, body, step, st, fuel) == Trips(d, n) - k
    decreases Trips(d, n) - k
  {
    hide AluOp.Eval, FromInt, Wrap, Eval, Advance, Trips, Steady, Crosses;
    BodyEnds(words, body, step, inc, inv, need, st, fuel - 1);
    var x := After(d, n, k);
    OneTurn(words, body, step, inc, inv, need, st, fuel, x, n);
    ExactTrips(d, n, k + 1);
    var st2 := Advance(step, Eval(words, body, st, fuel - 1).value.st).value.0;
    if k + 1 < Trips(d, n) {
      AfterIs(d, n, k + 1);
      TurnsFrom(words, body, step, inc, inv, need, st2, fuel - 1, d, n, k + 1);
    }
  }

  lemma BodyEnds(words: Words, body: Stmt, step: bool, inc: Cell, inv: Forth -> bool, need: nat, st: Forth, f: nat)
    requires Steady(words, body, step, inc, inv, need) && inv(st) && |st.rs| >= 2 && f >= need
    ensures Eval(words, body, st, f).Some?
  {
    hide Eval, Advance;
    assert SteadyAt(words, body, step, inc, inv, need, st, f);
  }

  /** A counted loop whose body is steady ends at its own end, its frame gone, after exactly
      `Trips` turns, counted from the signed readings of the cells. */
  lemma LoopTurns(words: Words, body: Stmt, step: bool, inc: Cell, inv: Forth -> bool, need: nat, st: Forth, fuel: nat)
    requires Steady(words, body, step, inc, inv, need) && inv(st) && |st.rs| >= 2 && ToInt(inc) != 0
    requires fuel >= need + Trips(ToInt(Sub.Eval(st.rs[0], st.rs[1])), ToInt(inc))
    ensures var o := EvalLoop(words, body, step, st, fuel);
            o.Some? && o.value.Normal? && o.value.st.rs == st.rs[2..]
    ensures Turns(words, body, step, st, fuel) == Trips(ToInt(Sub.Eval(st.rs[0], st.rs[1])), ToInt(inc))
  {
    hide AluOp.Eval, FromInt, ToInt, Wrap, Eval, Advance, Trips, Steady, EvalLoop, Turns;
    var d, n := ToInt(Sub.Eval(st.rs[0], st.rs[1])), ToInt(inc);
    ToIntIs(Sub.Eval(st.rs[0], st.rs[1]));
    ToIntIs(inc);
    TripsIs(d, n, 0);
    TurnsFrom(words, body, step, inc, inv, need, st, fuel, d, n, 0);
  }

  /** With the step zero it never ends. */
  lemma {:induction false} ZeroStepNeverEnds(words: Words, body: Stmt, inc: Cell, inv: Forth -> bool, need: nat,
                                             st: Forth, fuel: nat)
    requires Steady(words, body, true, inc, inv, need) && inv(st) && |st.rs| >= 2 && inc == 0
    ensures EvalLoop(words, body, true, st, fuel).None?
    decreases fuel
  {
    hide AluOp.Eval, FromInt, Wrap, Eval, Advance, Steady;
    if fuel > 0 && Eval(words, body, st, fuel - 1).Some? {
      var x := ToInt(Sub.Eval(st.rs[0], st.rs[1]));
      ToIntIs(Sub.Eval(st.rs[0], st.rs[1]));
      ZeroIs();
      OneTurn(words, body, true, inc, inv, need, st, fuel, x, 0);
      WrapNear(x);
      var st2 := Advance(true, Eval(words, body, st, fuel - 1).value.st).value.0;
      ZeroStepNeverEnds(words, body, inc, inv, need, st2, fuel - 1);
    }
  }

  lemma ZeroIs()
    ensures FromInt(0) == 0
  {
  }

  /** The frame `do` makes, from the limit and the start on the stack. */
  function Opened(st: Forth): Forth
    requires |st.stack| >= 3
  {
    EnterLoop(st).value
  }

  function DifferenceOf(st: Forth): (d: int)
    requires |st.stack| >= 3
    ensures IsSigned(d)
  {
    ToInt(Sub.Eval(Item(st.stack, 0), Item(st.stack, 1)))
  }

  /** `do` or `?do` to `loop` or `+loop`: no turn for `?do` on equal limits, else `Trips`. */
  lemma CountedTurns(words: Words, body: Stmt, skipEqual: bool, step: bool, inc: Cell, inv: Forth -> bool, need: nat,
                     st: Forth, fuel: nat)
    requires |st.stack| >= 3 && Steady(words, body, step, inc, inv, need) && inv(Opened(st)) && ToInt(inc) != 0
    requires fuel >= need + Trips(DifferenceOf(st), ToInt(inc))
    ensures var o := Eval(words, DoLoop(body, skipEqual, step), st, fuel);
            o.Some? && o.value.Normal? && o.value.st.rs == st.rs
            && (skipEqual && Item(st.stack, 0) == Item(st.stack, 1) ==> o.value.st == st.(stack := Pop(st.stack, 2)))
    ensures Turns(words, body, step, Opened(st), fuel) == Trips(DifferenceOf(st), ToInt(inc))
  {
    hide AluOp.Eval, ToInt, Trips, Steady, Eval, EvalLoop, Turns, Opened;
    OpenedIs(st);
    CountedForm(words, body, skipEqual, step, st, fuel);
    LoopTurns(words, body, step, inc, inv, need, Opened(st), fuel);
  }

  lemma CountedForm(words: Words, body: Stmt, skipEqual: bool, step: bool, st: Forth, fuel: nat)
    requires |st.stack| >= 3
    ensures Eval(words, DoLoop(body, skipEqual, step), st, fuel)
         == if skipEqual && Item(st.stack, 0) == Item(st.stack, 1) then Some(Normal(Opened(st).(rs := st.rs)))
            else EvalLoop(words, body, step, Opened(st), fuel)
  {
    hide EvalLoop, Opened;
    OpenedIs(st);
  }

  /** `do … loop` runs -d times from below the limit, and all the way round otherwise. */
  lemma PlainTurns(words: Words, body: Stmt, skipEqual: bool, inv: Forth -> bool, need: nat, st: Forth, fuel: nat)
    requires |st.stack| >= 3 && Steady(words, body, false, 1, inv, need) && inv(Opened(st))
    requires fuel >= need + Trips(DifferenceOf(st), 1)
    ensures var d := DifferenceOf(st);
            Turns(words, body, false, Opened(st), fuel) == if d < 0 then -d else TOP - d
  {
    hide AluOp.Eval, ToInt, Trips, Steady, Turns;
    OneIs();
    LoopTrips(DifferenceOf(st));
    CountedTurns(words, body, skipEqual, false, 1, inv, need, st, fuel);
  }

  lemma OpenedIs(st: Forth)
    requires |st.stack| >= 3
    ensures EnterLoop(st) == Some(Opened(st)) && |Opened(st).rs| >= 2 && Opened(st).rs[2..] == st.rs
    ensures Opened(st).rs[0] == Item(st.stack, 0) && Opened(st).rs[1] == Item(st.stack, 1)
    ensures Opened(st).(rs := st.rs) == st.(stack := Pop(st.stack, 2))
  {
  }

  /** And so does its code: laid out anywhere in a body, it gets to its end with the frame
      gone, in the state of exactly that many turns. */
  lemma CountedCode(env: Env, code: seq<Instr>, at: int, body: Stmt, skipEqual: bool, step: bool, inc: Cell,
                    inv: Forth -> bool, need: nat, p: seq<Tok>, g: Piece, st0: Forth, st: Forth, fuel: nat,
                    leave: int, exit: int)
    requires Gen(DoLoop(body, skipEqual, step), p) == Some(g) && g.fits
    requires ValidStmt(body) && ValidToks(p) && |code| < MAX_CODE
    requires 0 <= leave < MAX_CODE && 0 <= exit < MAX_CODE && Agrees(code, at, g, leave, exit)
    requires Run(env.words, p, st0) == Some(st) && |st.stack| >= 3
    requires Steady(env.words, body, step, inc, inv, need) && inv(Opened(st)) && ToInt(inc) != 0
    requires fuel >= need + Trips(DifferenceOf(st), ToInt(inc))
    ensures var o := Eval(env.words, DoLoop(body, skipEqual, step), st, fuel);
            o.Some? && o.value.Normal? && o.value.st.rs == st.rs
            && Simulates(env, code, at, g, st0, o.value, leave, exit)
    ensures Turns(env.words, body, step, Opened(st), fuel) == Trips(DifferenceOf(st), ToInt(inc))
  {
    hide Eval, Gen, Agrees, Simulates, Turns, Trips, ToInt, Steady, Run;
    CountedTurns(env.words, body, skipEqual, step, inc, inv, need, st, fuel);
    ValidLoop(body, skipEqual, step);
    GenSim(env, code, at, DoLoop(body, skipEqual, step), p, g, st0, st, fuel,
           Eval(env.words, DoLoop(body, skipEqual, step), st, fuel).value, leave, exit);
  }

  lemma ValidLoop(body: Stmt, skipEqual: bool, step: bool)
    requires ValidStmt(body)
    ensures ValidStmt(DoLoop(body, skipEqual, step))
  {
  }
}
