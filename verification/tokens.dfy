/** The token IR of the optimizer and its meaning on a Forth state. */
module Tokens {
  import opened Options
  import opened Cells

  datatype AluOp = Add | Sub | Mul | And | Or | Xor {
    /** `a op b`, where `a` is the deeper operand. */
    function Eval(a: Cell, b: Cell): Cell {
      match this
      case Add => a + b
      case Sub => a - b
      case Mul => Times(a, b)
      case And => a & b
      case Or => a | b
      case Xor => a ^ b
    }
  }

  datatype ShiftOp = Lsl | Lsr | Asr {
    /** The count is taken modulo 64. */
    function Eval(a: Cell, b: Cell): Cell {
      var k := b & 63;
      match this
      case Lsl => a << k
      case Lsr => Shr(a, k)
      case Asr => ShiftRightArith(a, k)
    }
  }

  /** Shift counts are taken modulo 64. */
  lemma CountIsMasked(sh: ShiftOp, x: Cell, n: Cell)
    ensures n & 63 <= 63
    ensures sh.Eval(x, n) == sh.Eval(x, n & 63)
    ensures n & 63 == 0 ==> sh.Eval(x, n) == x
  {
    assert (n & 63) & 63 == n & 63;
  }

  datatype StackOp = Dup | Drop | Swap | Over | Nip | Rot | MinusRot | Tuck

  datatype CmpOp = Eq | Ne | Lt | Gt | Le | Ge | ULt | UGt | ZEq | ZNe | ZLt | ZGt {
    predicate IsZeroTest() {
      ZEq? || ZNe? || ZLt? || ZGt?
    }

    /** `a cmp b`; a zero test has no second operand and ignores `b`. */
    predicate Holds(a: Cell, b: Cell) {
      match this
      case Eq => a == b
      case Ne => a != b
      case Lt => SignedLess(a, b)
      case Gt => SignedLess(b, a)
      case Le => !SignedLess(b, a)
      case Ge => !SignedLess(a, b)
      case ULt => Below(a, b)
      case UGt => Below(b, a)
      case ZEq => a == 0
      case ZNe => a != 0
      case ZLt => SignedLess(a, 0)
      case ZGt => SignedLess(0, a)
    }

    /** The comparison that answers the opposite; only the signed binary ones have one. */
    function Negate(): Option<CmpOp> {
      match this
      case Eq => Some(Ne)
      case Ne => Some(Eq)
      case Lt => Some(Ge)
      case Gt => Some(Le)
      case Le => Some(Gt)
      case Ge => Some(Lt)
      case _ => None
    }
  }

  datatype SelOp = Min | Max | UMin | UMax {
    function Eval(a: Cell, b: Cell): Cell {
      match this
      case Min => if SignedLess(a, b) then a else b
      case Max => if SignedLess(b, a) then a else b
      case UMin => if Below(a, b) then a else b
      case UMax => if Below(b, a) then a else b
    }
  }

  datatype MemOp = Fetch | Store | CFetch | CStore

  /** Counts of immediate shifts: `Reduce` masks to six bits and removes zero. */
  type ShiftCount = k: Cell | 1 <= k <= 63 witness 1

  datatype Tok =
    | Lit(n: Cell)
    | Alu(op: AluOp)
    | ImmAlu(op: AluOp, k: Cell)
    | DupAlu(op: AluOp)
    | Shift(sh: ShiftOp)
    | ImmShift(sh: ShiftOp, count: ShiftCount)
    | DupShiftAlu(op: AluOp, sh: ShiftOp, count: ShiftCount)
    | Stk(s: StackOp)
    | Cmp(c: CmpOp)
    | Sel(sel: SelOp)
    | Mem(m: MemOp)
    | PickN(depth: nat)
    | RollN(depth: nat)
    | LoopIdx(slot: nat)
    | Call(xt: Cell)

  /** The forms the compiler builds: literal pick and roll depths are at most 6, and
      multiplication has no shifted-register form. */
  predicate ValidTok(t: Tok) {
    match t
    case DupShiftAlu(op, _, _) => op != Mul
    case PickN(n) => n <= 6
    case RollN(n) => n <= 6
    case _ => true
  }

  predicate ValidToks(toks: seq<Tok>) {
    forall i | 0 <= i < |toks| :: ValidTok(toks[i])
  }

  // ----- data memory -----

  /** A data address. */
  datatype Addr = Addr(cell: Cell)

  type Bytes = map<Addr, bv8>

  function ByteAt(mem: Bytes, a: Cell): bv8 {
    if Addr(a) in mem then mem[Addr(a)] else 0
  }

  /** The cell at `a`, least significant byte first. */
  function FetchCell(mem: Bytes, a: Cell): Cell {
    ByteAt(mem, a) as Cell
    | (ByteAt(mem, a + 1) as Cell << 8)
    | (ByteAt(mem, a + 2) as Cell << 16)
    | (ByteAt(mem, a + 3) as Cell << 24)
    | (ByteAt(mem, a + 4) as Cell << 32)
    | (ByteAt(mem, a + 5) as Cell << 40)
    | (ByteAt(mem, a + 6) as Cell << 48)
    | (ByteAt(mem, a + 7) as Cell << 56)
  }

  function LowByte(v: Cell): bv8 {
    (v & 0xFF) as bv8
  }

  function StoreCell(mem: Bytes, a: Cell, v: Cell): Bytes {
    mem[Addr(a) := LowByte(v)]
       [Addr(a + 1) := LowByte(v >> 8)]
       [Addr(a + 2) := LowByte(v >> 16)]
       [Addr(a + 3) := LowByte(v >> 24)]
       [Addr(a + 4) := LowByte(v >> 32)]
       [Addr(a + 5) := LowByte(v >> 40)]
       [Addr(a + 6) := LowByte(v >> 48)]
       [Addr(a + 7) := LowByte(v >> 56)]
  }

  function FetchByte(mem: Bytes, a: Cell): Cell {
    ByteAt(mem, a) as Cell
  }

  function StoreByte(mem: Bytes, a: Cell, v: Cell): Bytes {
    mem[Addr(a) := LowByte(v)]
  }

  // ----- the meaning of tokens -----

  /** A Forth state. `stack` is the data stack as the machine holds it: its first cell
      is the one the cached top-of-stack register holds when the stack is empty, so a
      stack of depth d has d + 1 cells, and an operation that consumes k cells needs
      k + 1. `rs` is the return stack, top first. */
  datatype Forth = Forth(stack: seq<Cell>, rs: seq<Cell>, mem: Bytes)

  /** What a called word does to the state. */
  type Words = (Cell, Forth) -> Forth

  /** The item `n` cells below the top. */
  function Item(s: seq<Cell>, n: nat): Cell
    requires n < |s|
  {
    s[|s| - 1 - n]
  }

  function Pop(s: seq<Cell>, n: nat): seq<Cell>
    requires n <= |s|
  {
    s[..|s| - n]
  }

  function RunStackOp(s: StackOp, stack: seq<Cell>): Option<seq<Cell>> {
    match s
    case Dup =>
      if |stack| < 2 then None else Some(stack + [Item(stack, 0)])
    case Drop =>
      if |stack| < 2 then None else Some(Pop(stack, 1))
    case Swap =>
      if |stack| < 3 then None else Some(Pop(stack, 2) + [Item(stack, 0), Item(stack, 1)])
    case Over =>
      if |stack| < 3 then None else Some(stack + [Item(stack, 1)])
    case Nip =>
      if |stack| < 3 then None else Some(Pop(stack, 2) + [Item(stack, 0)])
    case Rot =>
      if |stack| < 4 then None
      else Some(Pop(stack, 3) + [Item(stack, 1), Item(stack, 0), Item(stack, 2)])
    case MinusRot =>
      if |stack| < 4 then None
      else Some(Pop(stack, 3) + [Item(stack, 0), Item(stack, 2), Item(stack, 1)])
    case Tuck =>
      if |stack| < 3 then None
      else Some(Pop(stack, 2) + [Item(stack, 0), Item(stack, 1), Item(stack, 0)])
  }

  /** One token; `None` when the stack underflows. */
  function Step(words: Words, t: Tok, st: Forth): Option<Forth> {
    var s := st.stack;
    match t
    case Lit(n) =>
      if |s| < 1 then None else Some(st.(stack := s + [n]))
    case Alu(op) =>
      if |s| < 3 then None
      else Some(st.(stack := Pop(s, 2) + [op.Eval(Item(s, 1), Item(s, 0))]))
    case ImmAlu(op, k) =>
      if |s| < 2 then None else Some(st.(stack := Pop(s, 1) + [op.Eval(Item(s, 0), k)]))
    case DupAlu(op) =>
      if |s| < 2 then None
      else Some(st.(stack := Pop(s, 1) + [op.Eval(Item(s, 0), Item(s, 0))]))
    case Shift(sh) =>
      if |s| < 3 then None
      else Some(st.(stack := Pop(s, 2) + [sh.Eval(Item(s, 1), Item(s, 0))]))
    case ImmShift(sh, k) =>
      if |s| < 2 then None else Some(st.(stack := Pop(s, 1) + [sh.Eval(Item(s, 0), k)]))
    case DupShiftAlu(op, sh, k) =>
      if |s| < 2 then None
      else Some(st.(stack := Pop(s, 1) + [op.Eval(Item(s, 0), sh.Eval(Item(s, 0), k))]))
    case Stk(op) =>
      var s' :- RunStackOp(op, s);
      Some(st.(stack := s'))
    case Cmp(c) =>
      if c.IsZeroTest() then
        if |s| < 2 then None
        else Some(st.(stack := Pop(s, 1) + [Flag(c.Holds(Item(s, 0), 0))]))
      else
        if |s| < 3 then None
        else Some(st.(stack := Pop(s, 2) + [Flag(c.Holds(Item(s, 1), Item(s, 0)))]))
    case Sel(sel) =>
      if |s| < 3 then None
      else Some(st.(stack := Pop(s, 2) + [sel.Eval(Item(s, 1), Item(s, 0))]))
    case Mem(Fetch) =>
      if |s| < 2 then None
      else Some(st.(stack := Pop(s, 1) + [FetchCell(st.mem, Item(s, 0))]))
    case Mem(CFetch) =>
      if |s| < 2 then None
      else Some(st.(stack := Pop(s, 1) + [FetchByte(st.mem, Item(s, 0))]))
    case Mem(Store) =>
      if |s| < 3 then None
      else Some(st.(stack := Pop(s, 2), mem := StoreCell(st.mem, Item(s, 0), Item(s, 1))))
    case Mem(CStore) =>
      if |s| < 3 then None
      else Some(st.(stack := Pop(s, 2), mem := StoreByte(st.mem, Item(s, 0), Item(s, 1))))
    case PickN(n) =>
      if |s| < n + 2 then None else Some(st.(stack := s + [Item(s, n)]))
    case RollN(n) =>
      if |s| < n + 2 then None
      else Some(st.(stack := Pop(s, n + 1) + s[|s| - n..] + [Item(s, n)]))
    case LoopIdx(slot) =>
      if |s| < 1 || slot >= |st.rs| then None else Some(st.(stack := s + [st.rs[slot]]))
    case Call(xt) =>
      if |s| < 1 then None
      else
        var r := words(xt, st);
        if |r.stack| < 1 then None else Some(r)
  }

  /** A whole run, first token first. */
  function Run(words: Words, toks: seq<Tok>, st: Forth): Option<Forth>
    decreases |toks|
  {
    if toks == [] then Some(st)
    else
      var st' :- Step(words, toks[0], st);
      Run(words, toks[1..], st')
  }

  lemma {:induction false} RunAppend(words: Words, a: seq<Tok>, b: seq<Tok>, st: Forth)
    ensures Run(words, a + b, st)
         == (var r := Run(words, a, st); if r.None? then None else Run(words, b, r.value))
    decreases |a|
  {
    if a == [] {
      assert a + b == b;
    } else {
      assert (a + b)[1..] == a[1..] + b;
      var r := Step(words, a[0], st);
      if r.Some? {
        RunAppend(words, a[1..], b, r.value);
      }
    }
  }

  /** A token never empties the machine stack. */
  lemma StepKeepsStack(words: Words, t: Tok, st: Forth)
    requires Step(words, t, st).Some?
    ensures |st.stack| >= 1 && |Step(words, t, st).value.stack| >= 1
  {
    hide AluOp.Eval, ShiftOp.Eval, CmpOp.Holds, SelOp.Eval, FetchCell, StoreCell, FetchByte, StoreByte, Flag;
    var st' := Step(words, t, st).value;
    match t
    case Mem(m) =>
      match m {
        case Fetch =>
        case CFetch =>
        case Store => assert st'.stack == Pop(st.stack, 2);
        case CStore => assert st'.stack == Pop(st.stack, 2);
      }
    case Stk(op) =>
    case _ =>
  }

  lemma DistinctOffsets(a: Cell)
    ensures a != a + 1 && a != a + 2 && a != a + 3 && a != a + 4
    ensures a != a + 5 && a != a + 6 && a != a + 7
  {
  }

  /** What is stored in a cell is fetched back. */
  /** A byte is stored cut to eight bits, and nothing else changes. */
  lemma ByteAfterStore(mem: Bytes, a: Cell, v: Cell, b: Cell)
    ensures FetchByte(StoreByte(mem, a, v), b) == if b == a then v & 0xFF else FetchByte(mem, b)
  {
    LowByteIs(v);
  }

  lemma LowByteIs(v: Cell)
    ensures LowByte(v) as Cell == v & 0xFF
  {
  }

  /** A cell is stored least significant byte first, and nothing else changes. */
  lemma BytesAfterStore(mem: Bytes, a: Cell, v: Cell, b: Cell)
    ensures var m := StoreCell(mem, a, v);
            && ByteAt(m, a) == LowByte(v) && ByteAt(m, a + 1) == LowByte(v >> 8)
            && ByteAt(m, a + 2) == LowByte(v >> 16) && ByteAt(m, a + 3) == LowByte(v >> 24)
            && ByteAt(m, a + 4) == LowByte(v >> 32) && ByteAt(m, a + 5) == LowByte(v >> 40)
            && ByteAt(m, a + 6) == LowByte(v >> 48) && ByteAt(m, a + 7) == LowByte(v >> 56)
    ensures b != a && b != a + 1 && b != a + 2 && b != a + 3 && b != a + 4 && b != a + 5 && b != a + 6 && b != a + 7 ==>
              ByteAt(StoreCell(mem, a, v), b) == ByteAt(mem, b)
  {
    hide LowByte;
    DistinctOffsets(a);
    DistinctOffsets(a + 1);
    DistinctOffsets(a + 2);
    DistinctOffsets(a + 3);
    DistinctOffsets(a + 4);
    DistinctOffsets(a + 5);
    DistinctOffsets(a + 6);
  }

  lemma FetchAfterStore(mem: Bytes, a: Cell, v: Cell)
    ensures FetchCell(StoreCell(mem, a, v), a) == v
  {
    DistinctOffsets(a);
    DistinctOffsets(a + 1);
    DistinctOffsets(a + 2);
    DistinctOffsets(a + 3);
    DistinctOffsets(a + 4);
    DistinctOffsets(a + 5);
    DistinctOffsets(a + 6);
    BytesMakeCell(v);
  }

  lemma BytesMakeCell(v: Cell)
    ensures v == LowByte(v) as Cell
               | (LowByte(v >> 8) as Cell << 8)
               | (LowByte(v >> 16) as Cell << 16)
               | (LowByte(v >> 24) as Cell << 24)
               | (LowByte(v >> 32) as Cell << 32)
               | (LowByte(v >> 40) as Cell << 40)
               | (LowByte(v >> 48) as Cell << 48)
               | (LowByte(v >> 56) as Cell << 56)
  {
  }
}
