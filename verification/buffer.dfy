/** The text buffer: a rope held in one field that every edit replaces. */
module Buffer {
  import opened Options
  import opened Rope
  import opened Build
  import opened Lines

  // ----- edits on plain texts -----

  function Inserted(s: seq<CodePoint>, pos: nat, text: seq<CodePoint>): seq<CodePoint> {
    var p := Least(pos, |s|);
    s[..p] + text + s[p..]
  }

  function Deleted(s: seq<CodePoint>, pos: nat, count: nat): seq<CodePoint> {
    if pos >= |s| then s else s[..pos] + s[pos + Least(count, |s| - pos)..]
  }

  function Replaced(s: seq<CodePoint>, pos: nat, count: nat, text: seq<CodePoint>): seq<CodePoint> {
    Inserted(Deleted(s, pos, count), pos, text)
  }

  function Sliced(s: seq<CodePoint>, start: nat, end: nat): seq<CodePoint> {
    var a, b := Least(start, |s|), Least(end, |s|);
    if a >= b then [] else s[a..b]
  }

  // ----- edits on ropes -----

  function InsertText(t: Node, pos: nat, text: seq<CodePoint>): Node {
    if text == [] then t else Insert(t, pos, Built(text))
  }

  function DeleteText(t: Node, pos: nat, count: nat): Node {
    if count == 0 || pos >= t.Len() then t else DeleteRange(t, pos, Least(count, t.Len() - pos))
  }

  lemma InsertRefines(t: Node, pos: nat, text: seq<CodePoint>)
    requires t.Exact()
    ensures InsertText(t, pos, text).Exact()
    ensures InsertText(t, pos, text).Text() == Inserted(t.Text(), pos, text)
    ensures t.Valid() && Packs(ChunkCount(|text|)) ==> InsertText(t, pos, text).Valid()
  {
    hide Node.Exact, Node.Text, Node.Valid, Join, Split, Built, Packs;
    var s := t.Text();
    var p := Least(pos, |s|);
    if text == [] {
      assert s == s[..p] + [] + s[p..];
    } else {
      BuiltHolds(text);
      SplitKeepsText(t, pos);
      var (l, r) := Split(t, pos);
      JoinKeepsText(l, Built(text));
      JoinKeepsText(Join(l, Built(text)), r);
      if t.Valid() && Packs(ChunkCount(|text|)) {
        BuiltIsValid(text);
        InsertIsBalanced(t, pos, Built(text));
      }
    }
  }

  lemma DeleteRefines(t: Node, pos: nat, count: nat)
    requires t.Exact()
    ensures DeleteText(t, pos, count).Exact()
    ensures DeleteText(t, pos, count).Text() == Deleted(t.Text(), pos, count)
    ensures t.Valid() ==> DeleteText(t, pos, count).Valid()
  {
    hide Node.Exact, Node.Text, Node.Valid, Join, Split;
    var s := t.Text();
    ExactMeasures(t);
    if count > 0 && pos < |s| {
      var k := Least(count, |s| - pos);
      SplitKeepsText(t, pos);
      var (before, rest) := Split(t, pos);
      SplitKeepsText(rest, k);
      assert s[pos..][k..] == s[pos + k..];
      JoinKeepsText(before, Split(rest, k).1);
      if t.Valid() {
        DeleteIsBalanced(t, pos, k);
      }
    } else if pos < |s| {
      assert s == s[..pos] + s[pos + 0..];
    }
  }

  // ----- any run of edits -----

  datatype Edit =
    | InsertAt(pos: nat, text: seq<CodePoint>)
    | DeleteAt(pos: nat, count: nat)
    | ReplaceAt(pos: nat, count: nat, text: seq<CodePoint>)

  function Edited(t: Node, e: Edit): Node {
    match e
    case InsertAt(pos, text) => InsertText(t, pos, text)
    case DeleteAt(pos, count) => DeleteText(t, pos, count)
    case ReplaceAt(pos, count, text) => InsertText(DeleteText(t, pos, count), pos, text)
  }

  function EditedText(s: seq<CodePoint>, e: Edit): seq<CodePoint> {
    match e
    case InsertAt(pos, text) => Inserted(s, pos, text)
    case DeleteAt(pos, count) => Deleted(s, pos, count)
    case ReplaceAt(pos, count, text) => Replaced(s, pos, count, text)
  }

  /** Ropes reached from the empty one. */
  function Reached(es: seq<Edit>): Node {
    if es == [] then EmptyLeaf() else Edited(Reached(es[..|es| - 1]), es[|es| - 1])
  }

  function ReachedText(es: seq<Edit>): seq<CodePoint> {
    if es == [] then [] else EditedText(ReachedText(es[..|es| - 1]), es[|es| - 1])
  }

  /** The inserted text builds into a balanced rope. */
  predicate Packable(e: Edit) {
    e.DeleteAt? || Packs(ChunkCount(|e.text|))
  }

  lemma EditRefines(t: Node, e: Edit)
    requires t.Exact()
    ensures Edited(t, e).Exact() && Edited(t, e).Text() == EditedText(t.Text(), e)
    ensures t.Valid() && Packable(e) ==> Edited(t, e).Valid()
  {
    hide Node.Exact, Node.Text, Node.Valid, InsertText, DeleteText, Inserted, Deleted, Packs;
    match e
    case InsertAt(pos, text) => InsertRefines(t, pos, text);
    case DeleteAt(pos, count) => DeleteRefines(t, pos, count);
    case ReplaceAt(pos, count, text) =>
      DeleteRefines(t, pos, count);
      InsertRefines(DeleteText(t, pos, count), pos, text);
  }

  /** Every rope reached by edits holds the text the same edits make of a plain sequence, with
      exact cached numbers. */
  lemma {:induction false} ReachedRefines(es: seq<Edit>)
    ensures Reached(es).Exact() && Reached(es).Text() == ReachedText(es)
    decreases |es|
  {
    hide Edited, EditedText;
    if es == [] {
      ExactLeaf([]);
    } else {
      ReachedRefines(es[..|es| - 1]);
      EditRefines(Reached(es[..|es| - 1]), es[|es| - 1]);
    }
  }

  /** With packable inserts it is balanced, its leaves neither empty nor too long, and its
      height logarithmic in its length. */
  lemma {:induction false} ReachedIsBalanced(es: seq<Edit>)
    requires forall k | 0 <= k < |es| :: Packable(es[k])
    ensures Reached(es).Valid()
    ensures ReachedText(es) != [] ==> |ReachedText(es)| >= Fib(Reached(es).Height() + 2)
    decreases |es|
  {
    hide Edited, EditedText, Packable;
    ReachedRefines(es);
    if es != [] {
      var es' := es[..|es| - 1];
      ReachedIsBalanced(es');
      ReachedRefines(es');
      EditRefines(Reached(es'), es[|es| - 1]);
    }
    if ReachedText(es) != [] {
      HeightIsLogarithmic(Reached(es));
    }
  }

  // ----- queries on nodes -----

  function CharAtNode(t: Node, pos: nat): (c: CodePoint)
    requires t.Exact() && pos < |t.Text()|
    ensures c == t.Text()[pos]
  {
    ExactMeasures(t);
    match t
    case Leaf(buf, _) => buf[pos]
    case Branch(l, r, ll, _, _, _) =>
      ExactMeasures(l);
      if pos < ll then CharAtNode(l, pos) else CharAtNode(r, pos - ll)
  }

  /** Append the code points from `start` to `end` to `acc`. */
  method CollectRange(t: Node, start: nat, end: nat, acc: seq<CodePoint>) returns (out: seq<CodePoint>)
    requires t.Exact()
    ensures out == acc + Sliced(t.Text(), start, end)
    decreases t
  {
    hide Node.Exact, Node.Text, Sliced, NewBranch;
    if start >= end {
      SlicedNothing(t.Text(), start, end);
      assert acc + [] == acc;
      return acc;
    }
    LeafText(t);
    match t
    case Leaf(buf, _) =>
      SlicedIs(buf, start, end);
      out := acc + buf[Least(start, |buf|)..Least(end, |buf|)];
    case Branch(l, r, ll, _, _, _) =>
      ExactParts(t);
      SlicedAppend(l.Text(), r.Text(), start, end);
      out := acc;
      if start < ll {
        out := CollectRange(l, start, Least(end, ll), out);
      }
      ghost var mid := out;
      if end > ll {
        out := CollectRange(r, if start < ll then 0 else start - ll, end - ll, out);
      }
      assert acc + [] == acc && mid + [] == mid;
  }

  lemma SlicedNothing(s: seq<CodePoint>, start: nat, end: nat)
    requires start >= end
    ensures Sliced(s, start, end) == []
  {
  }

  lemma SlicedIs(s: seq<CodePoint>, start: nat, end: nat)
    requires start < end
    ensures Sliced(s, start, end) == s[Least(start, |s|)..Least(end, |s|)]
  {
  }

  lemma SlicedAppend(a: seq<CodePoint>, b: seq<CodePoint>, start: nat, end: nat)
    requires start < end
    ensures Sliced(a + b, start, end)
         == (if start < |a| then Sliced(a, start, Least(end, |a|)) else [])
          + (if end > |a| then Sliced(b, if start < |a| then 0 else start - |a|, end - |a|) else [])
  {
  }

  /** The newlines before an offset: cached counts on the left, a scan in one leaf. */
  function CountBefore(t: Node, pos: nat): nat {
    if pos == 0 then 0
    else
      match t
      case Leaf(buf, _) => Count(buf[..Least(pos, |buf|)])
      case Branch(l, r, ll, _, _, _) =>
        if pos <= ll then CountBefore(l, pos) else l.Newlines() + CountBefore(r, pos - ll)
  }

  lemma {:induction false} CountBeforeIs(t: Node, pos: nat)
    requires t.Exact()
    ensures CountBefore(t, pos) == Count(t.Text()[..Least(pos, |t.Text()|)])
    decreases t
  {
    hide Count, Node.Exact, Node.Text;
    if pos == 0 {
      CountNothing();
      assert t.Text()[..0] == [];
    } else {
      LeafText(t);
      match t
      case Leaf(buf, _) =>
      case Branch(l, r, ll, _, _, _) =>
        ExactParts(t);
        ExactMeasures(l);
        CountCut(l.Text(), r.Text(), pos);
        if pos <= ll {
          CountBeforeIs(l, pos);
          assert Least(pos, |l.Text()|) == pos;
        } else {
          CountBeforeIs(r, pos - ll);
        }
    }
  }

  lemma CountNothing()
    ensures Count([]) == 0
  {
  }

  lemma CountCut(a: seq<CodePoint>, b: seq<CodePoint>, pos: nat)
    ensures Count((a + b)[..Least(pos, |a + b|)])
         == if pos <= |a| then Count(a[..pos]) else Count(a) + Count(b[..Least(pos - |a|, |b|)])
  {
    var p := Least(pos, |a + b|);
    if pos <= |a| {
      assert (a + b)[..p] == a[..pos];
    } else {
      assert (a + b)[..p] == a + b[..p - |a|];
      CountAppend(a, b[..p - |a|]);
    }
  }

  /** The position of the `n`th newline: counted through the branches, scanned in a leaf. */
  method NthNewlineRaw(t: Node, n: nat) returns (r: Option<nat>)
    requires t.Exact()
    ensures r == Nth(t.Text(), n)
    decreases t
  {
    match t
    case Leaf(buf, _) =>
      var count := 0;
      for i := 0 to |buf|
        invariant count == Count(buf[..i]) && count <= n
      {
        CountNewline(buf, i);
        if buf[i] == NEWLINE {
          if count == n {
            NthUnique(buf, n, i);
            return Some(i);
          }
          count := count + 1;
        }
      }
      assert buf[..|buf|] == buf;
      NthIs(buf, n);
      if Nth(buf, n).Some? {
        CountNewline(buf, Nth(buf, n).value);
        CountPrefix(buf, Nth(buf, n).value + 1);
      }
      return None;
    case Branch(left, right, ll, _, _, _) =>
      ExactMeasures(left);
      NthAppend(left.Text(), right.Text(), n);
      if n < left.Newlines() {
        r := NthNewlineRaw(left, n);
      } else {
        r := NthNewlineRaw(right, n - left.Newlines());
        if r.Some? {
          r := Some(ll + r.value);
        }
      }
  }

  lemma {:induction false} NthAppend(a: seq<CodePoint>, b: seq<CodePoint>, n: nat)
    ensures Nth(a + b, n)
         == if n < Count(a) then Nth(a, n)
            else match Nth(b, n - Count(a)) case None => None case Some(p) => Some(|a| + p)
    decreases |a|
  {
    if a == [] {
      assert a + b == b;
    } else {
      CountFirst(a);
      assert (a + b)[1..] == a[1..] + b;
      if !(a[0] == NEWLINE && n == 0) {
        NthAppend(a[1..], b, if a[0] == NEWLINE then n - 1 else n);
      }
    }
  }

  class RopeBuffer {
    var root: Node

    ghost predicate Exact()
      reads this
    {
      root.Exact()
    }

    ghost function Contents(): seq<CodePoint>
      reads this
    {
      root.Text()
    }

    constructor ()
      ensures Exact() && Contents() == [] && root.Valid()
    {
      root := EmptyLeaf();
    }

    constructor FromSlice(text: seq<CodePoint>)
      ensures Exact() && Contents() == text
      ensures root.Balanced() <==> Packs(ChunkCount(|text|))
    {
      BuiltHolds(text);
      BuiltBalance(text);
      var t := BuildRope(text);
      root := t;
    }

    method InsertCodePoints(pos: nat, text: seq<CodePoint>)
      requires Exact()
      modifies this
      ensures Exact() && Contents() == Inserted(old(Contents()), pos, text)
      ensures old(root.Valid()) && Packs(ChunkCount(|text|)) ==> root.Valid()
    {
      InsertRefines(root, pos, text);
      if text != [] {
        var insertion := BuildRope(text);
        root := Insert(root, pos, insertion);
      }
    }

    method Delete(pos: nat, count: nat)
      requires Exact()
      modifies this
      ensures Exact() && Contents() == Deleted(old(Contents()), pos, count)
      ensures old(root.Valid()) ==> root.Valid()
    {
      hide Node.Text, Node.Valid, Node.Exact, DeleteRange;
      DeleteRefines(root, pos, count);
      if count != 0 && pos < root.Len() {
        root := DeleteRange(root, pos, Least(count, root.Len() - pos));
      }
    }

    method Replace(pos: nat, count: nat, text: seq<CodePoint>)
      requires Exact()
      modifies this
      ensures Exact() && Contents() == Replaced(old(Contents()), pos, count, text)
      ensures old(root.Valid()) && Packs(ChunkCount(|text|)) ==> root.Valid()
    {
      Delete(pos, count);
      InsertCodePoints(pos, text);
    }

    method CharAt(pos: nat) returns (c: Option<CodePoint>)
      requires Exact()
      ensures c == if pos < |Contents()| then Some(Contents()[pos]) else None
    {
      ExactMeasures(root);
      c := if pos >= root.Len() then None else Some(CharAtNode(root, pos));
    }

    method Slice(start: nat, end: nat) returns (out: seq<CodePoint>)
      requires Exact()
      ensures out == Sliced(Contents(), start, end)
    {
      ExactMeasures(root);
      var s, e := Least(start, root.Len()), Least(end, root.Len());
      out := [];
      if s < e {
        out := CollectRange(root, s, e, []);
      }
    }

    method NthNewline(n: nat) returns (r: Option<nat>)
      requires Exact()
      ensures r == match Nth(Contents(), n) case None => None case Some(p) => Some(p + 1)
    {
      r := NthNewlineRaw(root, n);
      if r.Some? {
        r := Some(r.value + 1);
      }
    }

    method StartOf(line: nat) returns (r: Option<nat>)
      requires Exact()
      ensures r == LineStart(Contents(), line)
    {
      ExactMeasures(root);
      if line == 0 {
        return Some(0);
      }
      if line >= root.Newlines() + 1 {
        return None;
      }
      r := NthNewline(line - 1);
    }

    method RangeOf(line: nat) returns (r: Option<(nat, nat)>)
      requires Exact()
      ensures r == LineRange(Contents(), line)
    {
      ExactMeasures(root);
      var total := root.Newlines() + 1;
      if line >= total {
        return None;
      }
      var start := StartOf(line);
      if start.None? {
        return None;
      }
      var end := root.Len();
      if line + 1 < total {
        var raw := NthNewlineRaw(root, line);
        if raw.Some? {
          end := raw.value;
        }
      }
      r := Some((start.value, end));
    }

    method GetLine(line: nat) returns (out: seq<CodePoint>)
      requires Exact()
      ensures out == match LineRange(Contents(), line)
                     case None => []
                     case Some((a, b)) => Sliced(Contents(), a, b)
    {
      var r := RangeOf(line);
      out := [];
      if r.Some? {
        out := Slice(r.value.0, r.value.1);
      }
    }

    method ToLineCol(offset: nat) returns (line: nat, col: int)
      requires Exact()
      ensures (line, col) == OffsetToLineCol(Contents(), offset)
    {
      ExactMeasures(root);
      var pos: int := Least(offset, root.Len());
      CountBeforeIs(root, pos);
      line := CountBefore(root, pos);
      var start: int := 0;
      if line != 0 {
        var p := NthNewline(line - 1);
        if p.Some? {
          start := p.value;
        }
      }
      col := pos - start;
    }

    method ToOffset(line: nat, col: nat) returns (offset: int)
      requires Exact()
      ensures offset == LineColToOffset(Contents(), line, col)
    {
      ExactMeasures(root);
      var start := StartOf(line);
      var r := RangeOf(line);
      offset := if start.Some? then start.value else root.Len();
      if r.Some? {
        var a: int, b: int := r.value.0, r.value.1;
        var width: int := b - a;
        offset := offset + if col < width then col else width;
      }
    }
  }
}
