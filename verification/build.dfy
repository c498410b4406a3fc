/** Building a rope from a text: leaves of at most `LEAF_MAX`, merged pairwise level by level. */
module Build {
  import opened Rope

  function Chunks(text: seq<CodePoint>): (r: seq<Node>)
    ensures |r| == ChunkCount(|text|)
    decreases |text|
  {
    if text == [] then []
    else
      var k := Least(LEAF_MAX, |text|);
      [NewLeaf(text[..k])] + Chunks(text[k..])
  }

  function ChunkCount(n: nat): nat {
    (n + LEAF_MAX - 1) / LEAF_MAX
  }

  /** Neighbours joined two by two; an odd last one is carried over. */
  function Paired(nodes: seq<Node>): (r: seq<Node>)
    ensures |r| == (|nodes| + 1) / 2
    decreases |nodes|
  {
    if |nodes| < 2 then nodes else [NewBranch(nodes[0], nodes[1])] + Paired(nodes[2..])
  }

  function Merged(nodes: seq<Node>): Node
    requires nodes != []
    decreases |nodes|
  {
    if |nodes| == 1 then nodes[0] else Merged(Paired(nodes))
  }

  function Built(text: seq<CodePoint>): Node {
    if text == [] then EmptyLeaf() else Merged(Chunks(text))
  }

  // ----- the same, step by step -----

  /** Leaves for `n` code points, every one full but the last, which takes the rest. */
  predicate Full(nodes: seq<Node>, n: nat) {
    forall i | 0 <= i < |nodes| ::
      nodes[i].Leaf? && |nodes[i].buf| == if i + 1 < |nodes| then 2048 else n - 2048 * (|nodes| - 1)
  }

  lemma {:induction false} ChunksFull(text: seq<CodePoint>)
    ensures Full(Chunks(text), |text|)
    decreases |text|
  {
    if text != [] {
      var k := Least(LEAF_MAX, |text|);
      ChunksFull(text[k..]);
      FullMore(text[..k], Chunks(text[k..]), |text|);
    }
  }

  lemma FullMore(buf: seq<CodePoint>, rest: seq<Node>, n: nat)
    requires |buf| <= n && Full(rest, n - |buf|)
    requires if rest == [] then |buf| == n else |buf| == 2048
    ensures Full([NewLeaf(buf)] + rest, n)
  {
    var nodes := [NewLeaf(buf)] + rest;
    forall i | 0 <= i < |nodes|
      ensures nodes[i].Leaf? && |nodes[i].buf| == if i + 1 < |nodes| then 2048 else n - 2048 * (|nodes| - 1)
    {
      if i > 0 {
        assert nodes[i] == rest[i - 1] && rest[i - 1].Leaf?;
      }
    }
  }

  method ChunkLeaves(text: seq<CodePoint>) returns (nodes: seq<Node>)
    ensures nodes == Chunks(text)
    ensures Full(nodes, |text|)
  {
    hide NewLeaf, ChunkCount, Full;
    ChunksFull(text);
    nodes := [];
    var start := 0;
    assert text[0..] == text;
    while start < |text|
      invariant 0 <= start <= |text|
      invariant nodes + Chunks(text[start..]) == Chunks(text)
    {
      var end := Least(start + LEAF_MAX, |text|);
      NextChunk(text, start, end);
      assert nodes + [NewLeaf(text[start..end])] + Chunks(text[end..])
          == nodes + ([NewLeaf(text[start..end])] + Chunks(text[end..]));
      nodes := nodes + [NewLeaf(text[start..end])];
      start := end;
    }
    assert text[start..] == [];
  }

  lemma NextChunk(text: seq<CodePoint>, start: nat, end: nat)
    requires start < |text| && end == Least(start + LEAF_MAX, |text|)
    ensures Chunks(text[start..]) == [NewLeaf(text[start..end])] + Chunks(text[end..])
  {
    hide NewLeaf;
    var rest := text[start..];
    assert rest[..end - start] == text[start..end] && rest[end - start..] == text[end..];
  }

  method PairUp(nodes: seq<Node>) returns (next: seq<Node>)
    ensures next == Paired(nodes)
  {
    next := [];
    var i := 0;
    while i + 1 < |nodes|
      invariant 0 <= i <= |nodes|
      invariant next + Paired(nodes[i..]) == Paired(nodes)
    {
      var rest := nodes[i..];
      assert rest[0] == nodes[i] && rest[1] == nodes[i + 1] && rest[2..] == nodes[i + 2..];
      next := next + [NewBranch(nodes[i], nodes[i + 1])];
      i := i + 2;
    }
    if i < |nodes| {
      assert nodes[i..] == [nodes[i]];
      next := next + [nodes[i]];
    } else {
      assert nodes[i..] == [];
    }
  }

  method BuildRope(text: seq<CodePoint>) returns (root: Node)
    ensures root == Built(text)
  {
    if text == [] {
      return EmptyLeaf();
    }
    var nodes := ChunkLeaves(text);
    while |nodes| > 1
      invariant nodes != [] && Merged(nodes) == Built(text)
      decreases |nodes|
    {
      nodes := PairUp(nodes);
    }
    root := nodes[0];
  }

  // ----- the text -----

  predicate AllFine(nodes: seq<Node>) {
    forall k | 0 <= k < |nodes| :: nodes[k].Exact() && nodes[k].Solid()
  }

  function Joined(nodes: seq<Node>): seq<CodePoint>
    decreases |nodes|
  {
    if nodes == [] then [] else nodes[0].Text() + Joined(nodes[1..])
  }

  lemma {:induction false} ChunksHold(text: seq<CodePoint>)
    ensures AllFine(Chunks(text)) && Joined(Chunks(text)) == text
    decreases |text|
  {
    if text != [] {
      var k := Least(LEAF_MAX, |text|);
      ChunksHold(text[k..]);
      ExactLeaf(text[..k]);
      assert Chunks(text)[1..] == Chunks(text[k..]);
      assert text == text[..k] + text[k..];
    }
  }

  lemma {:induction false} PairedHolds(nodes: seq<Node>)
    requires AllFine(nodes)
    ensures AllFine(Paired(nodes)) && Joined(Paired(nodes)) == Joined(nodes)
    decreases |nodes|
  {
    hide Node.Exact, Node.Text, NewBranch;
    if |nodes| >= 2 {
      var a, b := nodes[0], nodes[1];
      PairedHolds(nodes[2..]);
      ExactBranch(a, b);
      FineBranch(a, b);
      assert Paired(nodes)[1..] == Paired(nodes[2..]);
      assert nodes[1..][1..] == nodes[2..] && nodes[1..][0] == b;
      assert (a.Text() + b.Text()) + Joined(nodes[2..]) == a.Text() + (b.Text() + Joined(nodes[2..]));
    }
  }

  lemma FineBranch(l: Node, r: Node)
    requires l.Solid() && r.Solid()
    ensures NewBranch(l, r).Solid()
  {
  }

  lemma {:induction false} MergedHolds(nodes: seq<Node>)
    requires nodes != [] && AllFine(nodes)
    ensures Merged(nodes).Exact() && Merged(nodes).Solid() && Merged(nodes).Text() == Joined(nodes)
    decreases |nodes|
  {
    if |nodes| == 1 {
      assert nodes[1..] == [];
      assert nodes[0].Text() + [] == nodes[0].Text();
    } else {
      PairedHolds(nodes);
      MergedHolds(Paired(nodes));
    }
  }

  /** A built rope holds the text, in leaves that are neither empty nor too long. */
  lemma BuiltHolds(text: seq<CodePoint>)
    ensures Built(text).Exact() && Built(text).Text() == text
    ensures text != [] ==> Built(text).Solid()
  {
    if text == [] {
      ExactLeaf([]);
    } else {
      ChunksHold(text);
      MergedHolds(Chunks(text));
    }
  }

  // ----- the shape -----

  /** Pairing `m` nodes of one height, the last lower by `gap`, never joins nodes whose
      heights differ by more than one. */
  predicate PairsFit(m: nat, gap: nat)
    decreases m
  {
    if m <= 1 then true
    else if m % 2 == 0 then gap <= 1 && PairsFit(m / 2, 0)
    else PairsFit((m + 1) / 2, gap + 1)
  }

  /** The numbers of chunks that merge into a balanced tree: halving with rounding up never
      meets a number above 1 that is 1 modulo 4. */
  predicate Packs(m: nat)
    decreases m
  {
    m <= 1 || (m % 4 != 1 && Packs((m + 1) / 2))
  }

  /** One level: balanced nodes of height `h`, the last of height `h - gap`. */
  predicate Level(nodes: seq<Node>, h: nat, gap: nat) {
    && nodes != [] && gap <= h
    && (forall k | 0 <= k < |nodes| - 1 :: nodes[k].Balanced() && nodes[k].Height() == h)
    && nodes[|nodes| - 1].Height() == h - gap
  }

  lemma LevelTail(nodes: seq<Node>, h: nat, gap: nat)
    requires Level(nodes, h, gap) && |nodes| > 2
    ensures Level(nodes[2..], h, gap) && nodes[2..][|nodes| - 3] == nodes[|nodes| - 1]
  {
  }

  lemma BranchBalance(l: Node, r: Node)
    ensures NewBranch(l, r).Balanced() <==> l.Balanced() && r.Balanced() && -1 <= l.Height() - r.Height() <= 1
    ensures NewBranch(l, r).Height() == 1 + Larger(l.Height(), r.Height())
  {
  }

  lemma {:induction false} PairedLevel(nodes: seq<Node>, h: nat, gap: nat)
    requires Level(nodes, h, gap) && |nodes| >= 2
    ensures var p := Paired(nodes);
            var even := |nodes| % 2 == 0;
            Level(p, h + 1, if even then 0 else gap + 1)
            && (p[|p| - 1].Balanced() <==> nodes[|nodes| - 1].Balanced() && (even ==> gap <= 1))
    decreases |nodes|
  {
    hide Node.Balanced, NewBranch;
    var p := Paired(nodes);
    BranchBalance(nodes[0], nodes[1]);
    if |nodes| == 2 {
      assert Paired(nodes[2..]) == [];
    } else if |nodes| == 3 {
      assert nodes[2..] == [nodes[2]];
      assert p == [NewBranch(nodes[0], nodes[1]), nodes[2]];
    } else {
      LevelTail(nodes, h, gap);
      PairedLevel(nodes[2..], h, gap);
      assert p[1..] == Paired(nodes[2..]);
      assert forall k | 1 <= k < |p| :: p[k] == p[1..][k - 1];
    }
  }

  lemma {:induction false} MergedBalance(nodes: seq<Node>, h: nat, gap: nat)
    requires Level(nodes, h, gap)
    ensures Merged(nodes).Balanced() <==> nodes[|nodes| - 1].Balanced() && PairsFit(|nodes|, gap)
    decreases |nodes|
  {
    hide Node.Balanced, Level;
    LevelNonempty(nodes, h, gap);
    if |nodes| > 1 {
      PairedLevel(nodes, h, gap);
      var even := |nodes| % 2 == 0;
      MergedBalance(Paired(nodes), h + 1, if even then 0 else gap + 1);
    }
  }

  lemma LevelNonempty(nodes: seq<Node>, h: nat, gap: nat)
    requires Level(nodes, h, gap)
    ensures nodes != []
  {
  }

  lemma {:induction false} TwoApart(m: nat, gap: nat)
    requires m > 1 && gap >= 2
    ensures !PairsFit(m, gap)
    decreases m
  {
    if m % 2 == 1 {
      TwoApart((m + 1) / 2, gap + 1);
    }
  }

  lemma {:induction false} PacksIsFit(m: nat)
    ensures PairsFit(m, 0) <==> Packs(m)
    decreases m
  {
    if m > 1 {
      var k := (m + 1) / 2;
      PacksIsFit(k);
      if m % 4 == 1 {
        TwoApart((k + 1) / 2, 2);
      }
    }
  }

  lemma {:induction false} ChunksLevel(text: seq<CodePoint>)
    requires text != []
    ensures Level(Chunks(text), 0, 0) && Chunks(text)[|Chunks(text)| - 1].Balanced()
    decreases |text|
  {
    var k := Least(LEAF_MAX, |text|);
    if k < |text| {
      ChunksLevel(text[k..]);
    } else {
      assert text[k..] == [];
    }
  }

  /** A built rope is balanced exactly when its number of chunks packs. */
  lemma BuiltBalance(text: seq<CodePoint>)
    ensures Built(text).Balanced() <==> Packs(ChunkCount(|text|))
  {
    if text != [] {
      ChunksLevel(text);
      MergedBalance(Chunks(text), 0, 0);
      PacksIsFit(ChunkCount(|text|));
    }
  }

  /** Up to four chunks always pack; five do not. */
  lemma FewChunksPack(n: nat)
    ensures n <= 4 * LEAF_MAX ==> Packs(ChunkCount(n))
    ensures 4 * LEAF_MAX < n <= 5 * LEAF_MAX ==> !Packs(ChunkCount(n))
  {
    if n <= 4 * LEAF_MAX {
      assert ChunkCount(n) <= 4;
      assert Packs(1) && Packs(2);
      assert Packs(3) && Packs(4);
    } else if n <= 5 * LEAF_MAX {
      assert ChunkCount(n) == 5;
    }
  }

  lemma BuiltIsValid(text: seq<CodePoint>)
    requires Packs(ChunkCount(|text|))
    ensures Built(text).Valid()
  {
    BuiltHolds(text);
    BuiltBalance(text);
  }
}
