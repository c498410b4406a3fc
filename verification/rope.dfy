/** The text rope: a leaf-oriented AVL tree whose branches cache lengths, newline counts and
    heights. */
module Rope {

  type CodePoint = bv32

  const LEAF_MAX: nat := 2048
  const NEWLINE: CodePoint := 0x0A

  datatype Node =
    | Leaf(buf: seq<CodePoint>, newlines: nat)
    | Branch(left: Node, right: Node, leftLen: nat, totalLen: nat, totalNewlines: nat, height: nat)
  {
    function Len(): nat {
      match this
      case Leaf(buf, _) => |buf|
      case Branch(_, _, _, n, _, _) => n
    }

    function Newlines(): nat {
      match this
      case Leaf(_, n) => n
      case Branch(_, _, _, _, n, _) => n
    }

    function Height(): nat {
      match this
      case Leaf(_, _) => 0
      case Branch(_, _, _, _, _, h) => h
    }

    function BalanceFactor(): int {
      match this
      case Leaf(_, _) => 0
      case Branch(l, r, _, _, _, _) => l.Height() - r.Height()
    }

    function Text(): seq<CodePoint> {
      match this
      case Leaf(buf, _) => buf
      case Branch(l, r, _, _, _, _) => l.Text() + r.Text()
    }

    /** Every cached number is right. */
    predicate Exact() {
      match this
      case Leaf(buf, n) => n == Count(buf)
      case Branch(l, r, ll, n, nl, h) =>
        l.Exact() && r.Exact() && ll == l.Len() && n == ll + r.Len() && nl == l.Newlines() + r.Newlines()
        && h == 1 + Larger(l.Height(), r.Height())
    }

    /** Heights differ by at most one at every branch. */
    predicate Balanced() {
      match this
      case Leaf(_, _) => true
      case Branch(l, r, _, _, _, _) => l.Balanced() && r.Balanced() && -1 <= BalanceFactor() <= 1
    }

    /** No leaf is empty, none too long. */
    predicate Solid() {
      match this
      case Leaf(buf, _) => 1 <= |buf| <= 2048
      case Branch(l, r, _, _, _, _) => l.Solid() && r.Solid()
    }

    predicate Sound() {
      Exact() && Balanced() && Solid()
    }

    /** What every rope is: one empty leaf, or sound throughout. */
    predicate Valid() {
      this == EmptyLeaf() || Sound()
    }
  }

  function Larger(a: nat, b: nat): nat {
    if a < b then b else a
  }

  /** The newlines of a text. */
  function Count(s: seq<CodePoint>): nat
    decreases |s|
  {
    if s == [] then 0 else Count(s[..|s| - 1]) + if s[|s| - 1] == NEWLINE then 1 else 0
  }

  lemma {:induction false} CountAppend(a: seq<CodePoint>, b: seq<CodePoint>)
    ensures Count(a + b) == Count(a) + Count(b)
    decreases |b|
  {
    if b == [] {
      assert a + b == a;
    } else {
      CountAppend(a, b[..|b| - 1]);
      assert (a + b)[..|a + b| - 1] == a + b[..|b| - 1];
    }
  }

  function NewLeaf(buf: seq<CodePoint>): Node {
    Leaf(buf, Count(buf))
  }

  function EmptyLeaf(): Node {
    NewLeaf([])
  }

  function NewBranch(l: Node, r: Node): Node {
    Branch(l, r, l.Len(), l.Len() + r.Len(), l.Newlines() + r.Newlines(), 1 + Larger(l.Height(), r.Height()))
  }

  // ----- rotations -----

  function RotateRight(t: Node): Node {
    if t.Leaf? then t
    else if t.left.Leaf? then NewBranch(t.left, t.right)
    else NewBranch(t.left.left, NewBranch(t.left.right, t.right))
  }

  function RotateLeft(t: Node): Node {
    if t.Leaf? then t
    else if t.right.Leaf? then NewBranch(t.left, t.right)
    else NewBranch(NewBranch(t.left, t.right.left), t.right.right)
  }

  function Balance(t: Node): Node {
    var bf := t.BalanceFactor();
    if bf > 1 then
      if t.left.BalanceFactor() < 0 then RotateRight(NewBranch(RotateLeft(t.left), t.right))
      else RotateRight(NewBranch(t.left, t.right))
    else if bf < -1 then
      if t.right.BalanceFactor() > 0 then RotateLeft(NewBranch(t.left, RotateRight(t.right)))
      else RotateLeft(NewBranch(t.left, t.right))
    else t
  }

  // ----- join and split -----

  function Join(l: Node, r: Node): Node {
    if l.Len() == 0 then r
    else if r.Len() == 0 then l
    else if l.Leaf? && r.Leaf? && |l.buf| + |r.buf| <= LEAF_MAX then NewLeaf(l.buf + r.buf)
    else if -1 <= l.Height() - r.Height() <= 1 then NewBranch(l, r)
    else if l.Height() > r.Height() then Balance(NewBranch(l.left, Join(l.right, r)))
    else Balance(NewBranch(Join(l, r.left), r.right))
  }

  /** Two leaves that fit in one become one. */
  lemma LeavesMerge(l: Node, r: Node)
    requires l.Leaf? && r.Leaf? && l.buf != [] && r.buf != []
    ensures Join(l, r).Leaf? <==> |l.buf| + |r.buf| <= 2048
  {
  }

  /** The first `pos` code points, and the rest. */
  function Split(t: Node, pos: nat): (Node, Node) {
    if pos == 0 then (EmptyLeaf(), t)
    else if pos >= t.Len() then (t, EmptyLeaf())
    else
      match t
      case Leaf(buf, _) => (NewLeaf(buf[..pos]), NewLeaf(buf[pos..]))
      case Branch(l, r, ll, _, _, _) =>
        if pos == ll then (l, r)
        else if pos < ll then
          var (a, b) := Split(l, pos);
          (a, Join(b, r))
        else
          var (a, b) := Split(r, pos - ll);
          (Join(l, a), b)
  }

  function Insert(t: Node, pos: nat, insertion: Node): Node {
    var (l, r) := Split(t, pos);
    Join(Join(l, insertion), r)
  }

  function DeleteRange(t: Node, pos: nat, count: nat): Node {
    var (before, rest) := Split(t, pos);
    var (_, after) := Split(rest, count);
    Join(before, after)
  }

  // ----- the text is kept -----

  lemma ExactBranch(l: Node, r: Node)
    requires l.Exact() && r.Exact()
    ensures NewBranch(l, r).Exact() && NewBranch(l, r).Text() == l.Text() + r.Text()
  {
  }

  lemma ExactParts(t: Node)
    requires t.Exact() && t.Branch?
    ensures t == NewBranch(t.left, t.right) && t.left.Exact() && t.right.Exact()
    ensures t.Text() == t.left.Text() + t.right.Text() && t.leftLen == |t.left.Text()|
  {
    ExactMeasures(t.left);
  }

  lemma ExactLeaf(buf: seq<CodePoint>)
    ensures NewLeaf(buf).Exact() && NewLeaf(buf).Text() == buf
  {
  }

  lemma {:induction false} ExactMeasures(t: Node)
    requires t.Exact()
    ensures t.Len() == |t.Text()| && t.Newlines() == Count(t.Text())
    decreases t
  {
    if t.Branch? {
      ExactMeasures(t.left);
      ExactMeasures(t.right);
      CountAppend(t.left.Text(), t.right.Text());
    }
  }

  lemma RotateRightKeepsText(t: Node)
    requires t.Exact()
    ensures RotateRight(t).Exact() && RotateRight(t).Text() == t.Text()
  {
    hide Node.Exact, Node.Text, NewBranch;
    if t.Branch? {
      ExactParts(t);
      if t.left.Branch? {
        ExactParts(t.left);
        ExactBranch(t.left.right, t.right);
        ExactBranch(t.left.left, NewBranch(t.left.right, t.right));
        assert t.left.left.Text() + (t.left.right.Text() + t.right.Text()) == t.Text();
      }
    }
  }

  lemma RotateLeftKeepsText(t: Node)
    requires t.Exact()
    ensures RotateLeft(t).Exact() && RotateLeft(t).Text() == t.Text()
  {
    hide Node.Exact, Node.Text, NewBranch;
    if t.Branch? {
      ExactParts(t);
      if t.right.Branch? {
        ExactParts(t.right);
        ExactBranch(t.left, t.right.left);
        ExactBranch(NewBranch(t.left, t.right.left), t.right.right);
        assert (t.left.Text() + t.right.left.Text()) + t.right.right.Text() == t.Text();
      }
    }
  }

  lemma BalanceKeepsText(t: Node)
    requires t.Exact()
    ensures Balance(t).Exact() && Balance(t).Text() == t.Text()
  {
    hide RotateRight, RotateLeft, Node.Exact, Node.Text, NewBranch;
    if t.Branch? {
      ExactParts(t);
      RotateLeftKeepsText(t.left);
      RotateRightKeepsText(t.right);
      ExactBranch(RotateLeft(t.left), t.right);
      ExactBranch(t.left, RotateRight(t.right));
      RotateRightKeepsText(t);
      RotateLeftKeepsText(t);
      RotateRightKeepsText(NewBranch(RotateLeft(t.left), t.right));
      RotateLeftKeepsText(NewBranch(t.left, RotateRight(t.right)));
    }
  }

  /** Joining concatenates, whatever the shapes of the trees. */
  lemma {:induction false} JoinKeepsText(l: Node, r: Node)
    requires l.Exact() && r.Exact()
    ensures Join(l, r).Exact() && Join(l, r).Text() == l.Text() + r.Text()
    decreases l, r
  {
    hide Balance, Node.Exact, Node.Text, NewBranch, NewLeaf;
    ExactMeasures(l);
    ExactMeasures(r);
    if l.Len() == 0 || r.Len() == 0 {
      assert [] + r.Text() == r.Text() && l.Text() + [] == l.Text();
    } else if l.Leaf? && r.Leaf? && |l.buf| + |r.buf| <= LEAF_MAX {
      LeafText(l);
      LeafText(r);
      ExactLeaf(l.buf + r.buf);
    } else if -1 <= l.Height() - r.Height() <= 1 {
      ExactBranch(l, r);
    } else if l.Height() > r.Height() {
      ExactParts(l);
      JoinKeepsText(l.right, r);
      JoinedRight(l.left, Join(l.right, r), l.right.Text(), r.Text());
    } else {
      ExactParts(r);
      JoinKeepsText(l, r.left);
      JoinedLeft(Join(l, r.left), r.right, l.Text(), r.left.Text());
    }
  }

  lemma JoinedRight(a: Node, b: Node, x: seq<CodePoint>, y: seq<CodePoint>)
    requires a.Exact() && b.Exact() && b.Text() == x + y
    ensures Balance(NewBranch(a, b)).Exact() && Balance(NewBranch(a, b)).Text() == (a.Text() + x) + y
  {
    hide Balance, Node.Exact, Node.Text, NewBranch;
    ExactBranch(a, b);
    BalanceKeepsText(NewBranch(a, b));
    assert a.Text() + (x + y) == (a.Text() + x) + y;
  }

  lemma JoinedLeft(a: Node, b: Node, x: seq<CodePoint>, y: seq<CodePoint>)
    requires a.Exact() && b.Exact() && a.Text() == x + y
    ensures Balance(NewBranch(a, b)).Exact() && Balance(NewBranch(a, b)).Text() == x + (y + b.Text())
  {
    hide Balance, Node.Exact, Node.Text, NewBranch;
    ExactBranch(a, b);
    BalanceKeepsText(NewBranch(a, b));
    assert (x + y) + b.Text() == x + (y + b.Text());
  }

  lemma LeafText(t: Node)
    ensures t.Leaf? ==> t.Text() == t.buf
  {
  }

  function Least(a: nat, b: nat): nat {
    if a < b then a else b
  }

  lemma CutLeft(a: seq<CodePoint>, b: seq<CodePoint>, pos: nat)
    requires pos <= |a|
    ensures (a + b)[..pos] == a[..pos] && (a + b)[pos..] == a[pos..] + b
  {
  }

  lemma CutRight(a: seq<CodePoint>, b: seq<CodePoint>, pos: nat)
    requires |a| <= pos <= |a + b|
    ensures (a + b)[..pos] == a + b[..pos - |a|] && (a + b)[pos..] == b[pos - |a|..]
    ensures pos == |a| ==> (a + b)[..pos] == a && (a + b)[pos..] == b
  {
  }

  /** Splitting cuts the text at `pos`, or at its end when that is nearer. */
  lemma {:induction false} SplitKeepsText(t: Node, pos: nat)
    requires t.Exact()
    ensures var (l, r) := Split(t, pos);
            var p := Least(pos, |t.Text()|);
            l.Exact() && r.Exact() && l.Text() == t.Text()[..p] && r.Text() == t.Text()[p..]
    decreases t, 1
  {
    hide Join, Node.Exact, Node.Text, NewLeaf, NewBranch;
    ExactMeasures(t);
    ExactLeaf([]);
    LeafText(t);
    if 0 < pos < t.Len() {
      match t
      case Leaf(buf, _) =>
        ExactLeaf(buf[..pos]);
        ExactLeaf(buf[pos..]);
      case Branch(l, r, ll, _, _, _) => SplitBranch(t, pos);
    }
  }

  lemma {:induction false} SplitBranch(t: Node, pos: nat)
    requires t.Exact() && t.Branch? && 0 < pos < t.Len()
    ensures var (l, r) := Split(t, pos);
            pos <= |t.Text()| && l.Exact() && r.Exact() && l.Text() == t.Text()[..pos] && r.Text() == t.Text()[pos..]
    decreases t, 0
  {
    hide Join, Node.Exact, Node.Text, NewLeaf, NewBranch;
    var l, r, ll := t.left, t.right, t.leftLen;
    ExactMeasures(t);
    ExactParts(t);
    if pos < ll {
      SplitKeepsText(l, pos);
      JoinKeepsText(Split(l, pos).1, r);
      CutLeft(l.Text(), r.Text(), pos);
    } else {
      CutRight(l.Text(), r.Text(), pos);
      if pos > ll {
        SplitKeepsText(r, pos - ll);
        JoinKeepsText(l, Split(r, pos - ll).0);
      }
    }
  }

  // ----- the shape is kept -----

  /** Two sound ropes of nearly the same height make one. */
  lemma SoundBranch(l: Node, r: Node)
    requires l.Sound() && r.Sound() && -1 <= l.Height() - r.Height() <= 1
    ensures NewBranch(l, r).Sound() && NewBranch(l, r).Height() == 1 + Larger(l.Height(), r.Height())
  {
  }

  lemma SoundParts(t: Node)
    requires t.Sound() && t.Branch?
    ensures t == NewBranch(t.left, t.right) && t.left.Sound() && t.right.Sound()
    ensures -1 <= t.left.Height() - t.right.Height() <= 1
    ensures t.Height() == 1 + Larger(t.left.Height(), t.right.Height())
  {
  }

  /** A tree leaning two to the right is put right by one or two rotations. */
  lemma RightHeavy(l: Node, r: Node)
    requires l.Sound() && r.Sound() && r.Height() == l.Height() + 2
    ensures var b := Balance(NewBranch(l, r));
            b.Sound() && r.Height() <= b.Height() <= r.Height() + 1
  {
    hide Node.Sound;
    SoundParts(r);
    if r.BalanceFactor() > 0 {
      SoundParts(r.left);
      SoundBranch(r.left.right, r.right);
      SoundBranch(l, r.left.left);
      SoundBranch(NewBranch(l, r.left.left), NewBranch(r.left.right, r.right));
    } else {
      SoundBranch(l, r.left);
      SoundBranch(NewBranch(l, r.left), r.right);
    }
  }

  lemma LeftHeavy(l: Node, r: Node)
    requires l.Sound() && r.Sound() && l.Height() == r.Height() + 2
    ensures var b := Balance(NewBranch(l, r));
            b.Sound() && l.Height() <= b.Height() <= l.Height() + 1
  {
    hide Node.Sound;
    SoundParts(l);
    if l.BalanceFactor() < 0 {
      SoundParts(l.right);
      SoundBranch(l.left, l.right.left);
      SoundBranch(l.right.right, r);
      SoundBranch(NewBranch(l.left, l.right.left), NewBranch(l.right.right, r));
    } else {
      SoundBranch(l.right, r);
      SoundBranch(l.left, NewBranch(l.right, r));
    }
  }

  /** Putting the parts of a join back together. */
  lemma Rebalanced(l: Node, r: Node)
    requires l.Sound() && r.Sound() && -2 <= l.Height() - r.Height() <= 2
    ensures var b := Balance(NewBranch(l, r));
            b.Sound()
            && Larger(l.Height(), r.Height()) <= b.Height() <= Larger(l.Height(), r.Height()) + 1
            && (-1 <= l.Height() - r.Height() <= 1 ==> b.Height() == Larger(l.Height(), r.Height()) + 1)
  {
    hide Node.Sound;
    if r.Height() == l.Height() + 2 {
      RightHeavy(l, r);
    } else if l.Height() == r.Height() + 2 {
      LeftHeavy(l, r);
    } else {
      SoundBranch(l, r);
    }
  }

  lemma SoundLeaf(buf: seq<CodePoint>)
    requires 0 < |buf| <= LEAF_MAX
    ensures NewLeaf(buf).Sound()
  {
  }

  lemma LeafSound(t: Node)
    requires t.Leaf? && t.Valid()
    ensures t == NewLeaf(t.buf) && |t.buf| <= LEAF_MAX
  {
  }

  /** A join of balanced ropes is balanced, and at most one higher than the higher of them. */
  lemma {:induction false} JoinIsBalanced(l: Node, r: Node)
    requires l.Valid() && r.Valid()
    ensures Join(l, r).Valid() && (l.Sound() || r.Sound() ==> Join(l, r).Sound())
    ensures var h := Larger(l.Height(), r.Height()); h <= Join(l, r).Height() <= h + 1
    decreases l, r
  {
    hide Balance, Node.Sound, NewBranch, NewLeaf;
    SoundIsLong(l);
    SoundIsLong(r);
    EmptyIsShort();
    if l.Len() == 0 || r.Len() == 0 {
    } else if l.Leaf? && r.Leaf? && |l.buf| + |r.buf| <= LEAF_MAX {
      SoundLeaf(l.buf + r.buf);
      LeafHeight(l.buf + r.buf);
    } else if -1 <= l.Height() - r.Height() <= 1 {
      SoundBranch(l, r);
    } else if l.Height() > r.Height() {
      SoundParts(l);
      JoinIsBalanced(l.right, r);
      Rebalanced(l.left, Join(l.right, r));
    } else {
      SoundParts(r);
      JoinIsBalanced(l, r.left);
      Rebalanced(Join(l, r.left), r.right);
    }
  }

  lemma EmptyIsShort()
    ensures EmptyLeaf().Len() == 0 && EmptyLeaf().Height() == 0 && !EmptyLeaf().Sound()
  {
  }

  lemma LeafHeight(buf: seq<CodePoint>)
    ensures NewLeaf(buf).Height() == 0
  {
  }

  lemma {:induction false} SoundIsLong(t: Node)
    ensures t.Sound() ==> t.Len() > 0
    decreases t
  {
    if t.Branch? && t.Sound() {
      SoundIsLong(t.left);
    }
  }

  /** The parts of a split are valid ropes. */
  lemma {:induction false} SplitIsBalanced(t: Node, pos: nat)
    requires t.Valid()
    ensures Split(t, pos).0.Valid() && Split(t, pos).1.Valid()
    decreases t
  {
    hide Join, Node.Sound, NewLeaf, NewBranch;
    EmptyIsShort();
    if 0 < pos < t.Len() {
      match t
      case Leaf(buf, _) =>
        LeafSound(t);
        SoundLeaf(buf[..pos]);
        SoundLeaf(buf[pos..]);
      case Branch(l, r, ll, _, _, _) =>
        SoundParts(t);
        if pos < ll {
          SplitIsBalanced(l, pos);
          JoinIsBalanced(Split(l, pos).1, r);
        } else if pos > ll {
          SplitIsBalanced(r, pos - ll);
          JoinIsBalanced(l, Split(r, pos - ll).0);
        }
    }
  }

  lemma InsertIsBalanced(t: Node, pos: nat, insertion: Node)
    requires t.Valid() && insertion.Valid()
    ensures Insert(t, pos, insertion).Valid()
  {
    hide Join, Split, Node.Valid;
    SplitIsBalanced(t, pos);
    var (l, r) := Split(t, pos);
    JoinIsBalanced(l, insertion);
    JoinIsBalanced(Join(l, insertion), r);
  }

  lemma DeleteIsBalanced(t: Node, pos: nat, count: nat)
    requires t.Valid()
    ensures DeleteRange(t, pos, count).Valid()
  {
    hide Join, Split, Node.Valid;
    SplitIsBalanced(t, pos);
    var (before, rest) := Split(t, pos);
    SplitIsBalanced(rest, count);
    JoinIsBalanced(before, Split(rest, count).1);
  }

  function Fib(n: nat): nat {
    if n < 2 then n else Fib(n - 1) + Fib(n - 2)
  }

  lemma {:induction false} FibGrows(n: nat)
    ensures Fib(n) <= Fib(n + 1)
  {
    if n >= 1 {
      FibGrows(n - 1);
    }
  }

  lemma SoundSize(t: Node)
    requires t.Sound()
    ensures if t.Leaf? then t.Height() == 0 && |t.Text()| >= 1
            else |t.Text()| == |t.left.Text()| + |t.right.Text()|
  {
  }

  /** A nonempty rope of height `h` holds at least Fib(h + 2) code points. */
  lemma {:induction false} HeightIsLogarithmic(t: Node)
    requires t.Sound()
    ensures |t.Text()| >= Fib(t.Height() + 2)
    decreases t
  {
    hide Node.Text, Node.Sound, Node.Height, NewBranch;
    SoundSize(t);
    if t.Branch? {
      SoundParts(t);
      HeightIsLogarithmic(t.left);
      HeightIsLogarithmic(t.right);
      FibGrows(Least(t.left.Height(), t.right.Height()) + 2);
    }
  }
}
