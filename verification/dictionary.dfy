/** The dictionary index: headers published into hash buckets, searched through one bucket, and
    rolled back newest first. */
module Dictionary {

  type Byte = c: int | 0 <= c < 256
  type Word32 = x: int | 0 <= x < 0x1_0000_0000
  type Name = seq<Byte>

  const BUCKETS: nat := 512
  const NODE_SIZE: nat := 40
  const HEADER_NAME: nat := 48
  const LONGEST_FOUND: nat := 32

  /** ASCII upper-case folding. */
  function Fold(c: Byte): Byte {
    if 0x61 <= c <= 0x7A then c - 32 else c
  }

  function Folded(name: Name): (r: Name)
    ensures |r| == |name| && forall i | 0 <= i < |name| :: r[i] == Fold(name[i])
  {
    seq(|name|, i requires 0 <= i < |name| => Fold(name[i]))
  }

  /** Equal but for the case of ASCII letters. */
  predicate SameLetters(a: Name, b: Name) {
    |a| == |b|
    && forall i | 0 <= i < |a| ::
         a[i] == b[i] || (0x41 <= a[i] <= 0x5A && b[i] == a[i] + 32) || (0x61 <= a[i] <= 0x7A && b[i] == a[i] - 32)
  }

  lemma FoldedIs(a: Name, b: Name)
    ensures Folded(a) == Folded(b) <==> SameLetters(a, b)
  {
    hide Fold;
    if |a| == |b| {
      forall i | 0 <= i < |a|
        ensures Folded(a)[i] == Folded(b)[i]
                <==> a[i] == b[i] || (0x41 <= a[i] <= 0x5A && b[i] == a[i] + 32)
                     || (0x61 <= a[i] <= 0x7A && b[i] == a[i] - 32)
      {
        FoldIs(a[i], b[i]);
      }
      if Folded(a) == Folded(b) {
        forall i | 0 <= i < |a|
          ensures Folded(a)[i] == Folded(b)[i]
        {
        }
      }
    }
  }

  lemma FoldIs(c: Byte, d: Byte)
    ensures Fold(c) == Fold(d)
       <==> c == d || (0x41 <= c <= 0x5A && d == c + 32) || (0x61 <= c <= 0x7A && d == c - 32)
  {
  }

  /** Exclusive or, bit by bit. */
  function Xor(a: nat, b: nat): nat
    decreases a + b
  {
    if a == 0 && b == 0 then 0 else 2 * Xor(a / 2, b / 2) + (a + b) % 2
  }

  lemma XorParts(a: nat, b: nat)
    ensures Xor(a, b) / 2 == Xor(a / 2, b / 2) && Xor(a, b) % 2 == (a + b) % 2
  {
  }

  /** It is its own inverse, and symmetric. */
  lemma {:induction false} XorUndone(a: nat, b: nat)
    ensures Xor(Xor(a, b), b) == a && Xor(a, b) == Xor(b, a)
    decreases a + b
  {
    XorParts(a, b);
    XorParts(b, a);
    XorParts(Xor(a, b), b);
    if a != 0 || b != 0 {
      XorUndone(a / 2, b / 2);
      hide Xor;
      LastBits(a, b, Xor(a, b));
    }
  }

  lemma LastBits(a: nat, b: nat, z: nat)
    requires z % 2 == (a + b) % 2
    ensures (z + b) % 2 == a % 2
  {
  }

  /** One step of the 32-bit FNV-1a hash, truncating. */
  function Mix(h: Word32, c: Byte): Word32 {
    Xor(h, c) * 0x0100_0193 % 0x1_0000_0000
  }

  /** The hash of the folded name. */
  function Hash(name: Name): Word32 {
    if name == [] then 0x811C_9DC5 else Mix(Hash(name[..|name| - 1]), Fold(name[|name| - 1]))
  }

  /** The low nine bits of the hash. */
  function BucketOf(hash: Word32): nat {
    hash % BUCKETS
  }

  /** Names alike under folding have one hash. */
  lemma {:induction false} HashIsFolded(a: Name, b: Name)
    requires Folded(a) == Folded(b)
    ensures Hash(a) == Hash(b)
    decreases |a|
  {
    hide Mix, Fold;
    if a != [] {
      var n := |a| - 1;
      assert Folded(a)[n] == Folded(b)[n];
      assert Folded(a[..n]) == Folded(b[..n]) by {
        forall i | 0 <= i < n
          ensures Folded(a[..n])[i] == Folded(b[..n])[i]
        {
          assert Folded(a)[i] == Folded(b)[i];
        }
      }
      HashIsFolded(a[..n], b[..n]);
    }
  }

  // ----- what is looked up: the history of published names -----

  datatype Entry = Entry(header: nat, wid: nat, name: Name)

  predicate InBucket(e: Entry, wid: nat, bucket: nat) {
    e.wid == wid && BucketOf(Hash(e.name)) == bucket
  }

  predicate Matches(e: Entry, wid: nat, name: Name) {
    e.wid == wid && Folded(e.name) == Folded(name)
  }

  /** How many entries there are up to and including the newest one of a bucket; 0 for none. */
  function Newest(hist: seq<Entry>, wid: nat, bucket: nat): (p: nat)
    ensures p <= |hist|
    ensures p > 0 ==> InBucket(hist[p - 1], wid, bucket)
    ensures forall i | p <= i < |hist| :: !InBucket(hist[i], wid, bucket)
  {
    if hist == [] then 0
    else if InBucket(hist[|hist| - 1], wid, bucket) then |hist|
    else Newest(hist[..|hist| - 1], wid, bucket)
  }

  /** The same for the newest entry of a wordlist with a name, found by looking at all. */
  function Latest(hist: seq<Entry>, wid: nat, name: Name): (p: nat)
    ensures p <= |hist|
    ensures p > 0 ==> Matches(hist[p - 1], wid, name)
    ensures forall i | p <= i < |hist| :: !Matches(hist[i], wid, name)
  {
    if hist == [] then 0
    else if Matches(hist[|hist| - 1], wid, name) then |hist|
    else Latest(hist[..|hist| - 1], wid, name)
  }

  lemma {:induction false} LatestIs(hist: seq<Entry>, wid: nat, name: Name, p: nat)
    requires p <= |hist| && (p > 0 ==> Matches(hist[p - 1], wid, name))
    requires forall i | p <= i < |hist| :: !Matches(hist[i], wid, name)
    ensures Latest(hist, wid, name) == p
  {
  }

  lemma MatchIsInBucket(e: Entry, wid: nat, name: Name)
    requires Matches(e, wid, name)
    ensures InBucket(e, wid, BucketOf(Hash(name)))
  {
    HashIsFolded(e.name, name);
  }

  /** Scanning one bucket finds what scanning everything finds. */
  lemma OneBucketSuffices(hist: seq<Entry>, wid: nat, name: Name)
    ensures var p := Newest(hist, wid, BucketOf(Hash(name)));
            Latest(hist, wid, name)
            == if p == 0 then 0
               else if Matches(hist[p - 1], wid, name) then p
               else Latest(hist[..p - 1], wid, name)
  {
    hide Hash, Folded, BucketOf, Latest, Newest, Matches, InBucket;
    var b := BucketOf(Hash(name));
    var p := Newest(hist, wid, b);
    forall i | p <= i < |hist|
      ensures !Matches(hist[i], wid, name)
    {
      if Matches(hist[i], wid, name) {
        MatchIsInBucket(hist[i], wid, name);
      }
    }
    if p > 0 && !Matches(hist[p - 1], wid, name) {
      var q := Latest(hist[..p - 1], wid, name);
      assert forall i | 0 <= i < p - 1 :: hist[..p - 1][i] == hist[i];
      LatestIs(hist, wid, name, q);
    } else {
      LatestIs(hist, wid, name, p);
    }
  }

  // ----- the index in memory -----

  /** An overlay node. */
  datatype Node = Node(bucketNext: nat, globalPrev: nat, header: nat, wid: nat, hash: Word32, len: nat, first: Byte)

  /** The part of a header that the index looks at. */
  datatype Header = Header(link: nat, name: Name)

  datatype Bucket = Bucket(wid: nat, index: nat)

  /** The index and the part of the user area that belongs to it. `base` is where the nodes
      start to go down from. */
  datatype Image = Image(base: nat, nodes: map<nat, Node>, heads: map<Bucket, nat>, headers: map<nat, Header>,
                         indexHere: nat, indexLatest: nat, here: nat, latest: nat)
  {
    function Head(wid: nat, bucket: nat): nat {
      if Bucket(wid, bucket) in heads then heads[Bucket(wid, bucket)] else 0
    }

    /** The node of the `p`th entry; 0 is no node. */
    function NodeAt(p: nat): int {
      if p == 0 then 0 else base - NODE_SIZE * p
    }
  }

  function HeaderAt(hist: seq<Entry>, p: nat): nat
    requires p <= |hist|
  {
    if p == 0 then 0 else hist[p - 1].header
  }

  /** The node of the `p`th entry, its bucket chain and creation chain going to the nodes of
      earlier entries. */
  predicate NodeHolds(m: Image, hist: seq<Entry>, p: nat)
    requires 0 < p <= |hist|
  {
    var e := hist[p - 1];
    && m.NodeAt(p) in m.nodes && e.header in m.headers
    && 0 < |e.name| < 256
    && m.headers[e.header] == Header(HeaderAt(hist, p - 1), e.name)
    && m.nodes[m.NodeAt(p)]
       == Node(m.NodeAt(Newest(hist[..p - 1], e.wid, BucketOf(Hash(e.name)))), m.NodeAt(p - 1),
               e.header, e.wid, Hash(e.name), |e.name|, Fold(e.name[0]))
  }

  predicate NodesHold(m: Image, hist: seq<Entry>) {
    forall p | 0 < p <= |hist| :: NodeHolds(m, hist, p)
  }

  /** Every bucket starts at its newest node. */
  ghost predicate HeadsHold(m: Image, hist: seq<Entry>) {
    forall wid, b :: m.Head(wid, b) == m.NodeAt(Newest(hist, wid, b))
  }

  predicate Ordered(hist: seq<Entry>, here: nat) {
    && (forall i | 0 <= i < |hist| :: 0 < hist[i].header < here)
    && (forall i, j | 0 <= i < j < |hist| :: hist[i].header < hist[j].header)
  }

  /** The index is that of the history. */
  ghost predicate Sound(m: Image, hist: seq<Entry>) {
    && NODE_SIZE * |hist| < m.base && m.indexHere == m.base - NODE_SIZE * |hist|
    && m.indexLatest == m.NodeAt(|hist|) && m.latest == HeaderAt(hist, |hist|)
    && NodesHold(m, hist) && HeadsHold(m, hist) && Ordered(hist, m.here) && m.here > 0
  }

  lemma NodeAtInjective(m: Image, hist: seq<Entry>, p: nat, q: nat)
    requires NODE_SIZE * |hist| < m.base && p <= |hist| && q <= |hist|
    ensures m.NodeAt(p) >= 0 && (m.NodeAt(p) == 0 <==> p == 0)
    ensures m.NodeAt(p) == m.NodeAt(q) <==> p == q
    ensures 0 < p ==> (m.NodeAt(p) < m.base - NODE_SIZE * q <==> p > q)
  {
  }

  lemma NodeOf(m: Image, hist: seq<Entry>, p: nat)
    requires Sound(m, hist) && 0 < p <= |hist|
    ensures NodeHolds(m, hist, p)
  {
    hide NodeHolds;
  }

  // ----- publishing -----

  /** Node, bucket and creation chain for one more header. */
  function WithNode(m: Image, name: Name, wid: nat, header: nat): Image
    requires m.indexHere >= NODE_SIZE && name != []
  {
    var node := m.indexHere - NODE_SIZE;
    var b := BucketOf(Hash(name));
    m.(indexHere := node, indexLatest := node, heads := m.heads[Bucket(wid, b) := node],
       nodes := m.nodes[node := Node(m.Head(wid, b), m.indexLatest, header, wid, Hash(name), |name|, Fold(name[0]))])
  }

  /** Where the body of a header starts: past the name, on a cell boundary, after one
      reserved cell. */
  function BodyAt(header: nat, len: nat): nat {
    (header + HEADER_NAME + len + 7) / 8 * 8 + 8
  }

  /** `(create)`, when there is room. */
  function Created(m: Image, name: Name, wid: nat, xt: nat): Image
    requires m.indexHere >= NODE_SIZE && name != []
  {
    WithNode(m.(headers := m.headers[m.here := Header(m.latest, name)]), name, wid, m.here)
    .(here := xt, latest := m.here)
  }

  lemma OldNode(m: Image, hist: seq<Entry>, name: Name, wid: nat, xt: nat, p: nat)
    requires Sound(m, hist) && 0 < |name| < 256 && m.indexHere > NODE_SIZE && 0 < p <= |hist|
    ensures NodeHolds(Created(m, name, wid, xt), hist + [Entry(m.here, wid, name)], p)
  {
    hide Hash, Fold, Newest, HeadsHold, BucketOf;
    var h := hist + [Entry(m.here, wid, name)];
    NodeOf(m, hist, p);
    assert h[..p - 1] == hist[..p - 1] && h[p - 1] == hist[p - 1];
    assert p > 1 ==> h[p - 2] == hist[p - 2];
    assert m.NodeAt(p) != m.indexHere - NODE_SIZE && hist[p - 1].header != m.here;
  }

  lemma NewNode(m: Image, hist: seq<Entry>, name: Name, wid: nat, xt: nat)
    requires Sound(m, hist) && 0 < |name| < 256 && m.indexHere > NODE_SIZE
    ensures NodeHolds(Created(m, name, wid, xt), hist + [Entry(m.here, wid, name)], |hist| + 1)
  {
    hide Hash, Fold, Newest, HeadsHold, NodesHold, BucketOf, Ordered;
    var h := hist + [Entry(m.here, wid, name)];
    assert h[..|hist|] == hist;
    assert |hist| > 0 ==> h[|hist| - 1] == hist[|hist| - 1];
    HeadIs(m, hist, wid, BucketOf(Hash(name)));
  }

  lemma CreatedNodes(m: Image, hist: seq<Entry>, name: Name, wid: nat, xt: nat)
    requires Sound(m, hist) && 0 < |name| < 256 && m.indexHere > NODE_SIZE
    ensures NodesHold(Created(m, name, wid, xt), hist + [Entry(m.here, wid, name)])
  {
    hide NodeHolds, Sound, Created;
    forall p | 0 < p <= |hist| + 1
      ensures NodeHolds(Created(m, name, wid, xt), hist + [Entry(m.here, wid, name)], p)
    {
      if p <= |hist| {
        OldNode(m, hist, name, wid, xt, p);
      } else {
        NewNode(m, hist, name, wid, xt);
      }
    }
  }

  lemma HeadIs(m: Image, hist: seq<Entry>, wid: nat, b: nat)
    requires HeadsHold(m, hist)
    ensures m.Head(wid, b) == m.NodeAt(Newest(hist, wid, b))
  {
  }

  lemma CreatedHeads(m: Image, hist: seq<Entry>, name: Name, wid: nat, xt: nat)
    requires Sound(m, hist) && 0 < |name| < 256 && m.indexHere > NODE_SIZE
    ensures HeadsHold(Created(m, name, wid, xt), hist + [Entry(m.here, wid, name)])
  {
    hide Hash, Fold, Newest, NodesHold, HeadsHold;
    var e := Entry(m.here, wid, name);
    var m' := Created(m, name, wid, xt);
    forall w, b
      ensures m'.Head(w, b) == m'.NodeAt(Newest(hist + [e], w, b))
    {
      NewestAppend(hist, e, w, b);
      InBucketIs(e, w, b);
      HeadIs(m, hist, w, b);
    }
    assert HeadsHold(m', hist + [e]) by {
      HeadsIntro(m', hist + [e]);
    }
  }

  lemma HeadsIntro(m: Image, hist: seq<Entry>)
    requires forall wid, b :: m.Head(wid, b) == m.NodeAt(Newest(hist, wid, b))
    ensures HeadsHold(m, hist)
  {
  }

  /** Publishing keeps the index sound. */
  lemma CreatedSound(m: Image, hist: seq<Entry>, name: Name, wid: nat, xt: nat)
    requires Sound(m, hist) && 0 < |name| < 256 && m.indexHere > NODE_SIZE && xt > m.here
    ensures Sound(Created(m, name, wid, xt), hist + [Entry(m.here, wid, name)])
  {
    hide Hash, Fold, NodesHold, HeadsHold, Newest;
    CreatedNodes(m, hist, name, wid, xt);
    CreatedHeads(m, hist, name, wid, xt);
  }

  // ----- rolling back -----

  /** The newest node, out of its bucket. */
  function Peeled(m: Image, node: nat): map<Bucket, nat>
    requires node in m.nodes
  {
    var n := m.nodes[node];
    var b := BucketOf(n.hash);
    if m.Head(n.wid, b) == node then m.heads[Bucket(n.wid, b) := n.bucketNext] else m.heads
  }

  lemma PeeledHeads(m: Image, hist: seq<Entry>, p: nat)
    requires 0 < p <= |hist| && NodeHolds(m, hist, p) && HeadsHold(m, hist[..p]) && NODE_SIZE * |hist| < m.base
    ensures HeadsHold(m.(heads := Peeled(m, m.NodeAt(p))), hist[..p - 1])
  {
    hide Hash, Fold, Newest, HeadsHold;
    var e := hist[p - 1];
    var h := hist[..p - 1];
    var own := BucketOf(Hash(e.name));
    var m' := m.(heads := Peeled(m, m.NodeAt(p)));
    assert hist[..p] == h + [e];
    NewestAppend(h, e, e.wid, own);
    InBucketIs(e, e.wid, own);
    HeadIs(m, hist[..p], e.wid, own);
    forall w, b
      ensures m'.Head(w, b) == m'.NodeAt(Newest(h, w, b))
    {
      NewestAppend(h, e, w, b);
      InBucketIs(e, w, b);
      HeadIs(m, hist[..p], w, b);
    }
    HeadsIntro(m', h);
  }

  /** The first `k` entries, everything newer gone. */
  lemma TrimmedSound(m: Image, hist: seq<Entry>, m': Image, k: nat)
    requires Sound(m, hist) && k <= |hist| && m'.base == m.base
    requires m'.nodes == m.nodes && m'.headers == m.headers && HeadsHold(m', hist[..k])
    requires m'.indexHere == m.base - NODE_SIZE * k && m'.indexLatest == m.NodeAt(k)
    requires m'.latest == HeaderAt(hist, k) && m'.here > 0 && forall i | 0 <= i < k :: hist[i].header < m'.here
    ensures Sound(m', hist[..k])
  {
    hide Hash, Fold, Newest, HeadsHold;
    var h := hist[..k];
    forall p | 0 < p <= k
      ensures NodeHolds(m', h, p)
    {
      NodeOf(m, hist, p);
      assert h[..p - 1] == hist[..p - 1] && h[p - 1] == hist[p - 1];
    }
  }

  // ----- the index as it is updated -----

  /** What lookups along a search order find. */
  function FoundIn(hist: seq<Entry>, name: Name, order: seq<nat>): nat {
    if order == [] then 0
    else
      var h := FoundHere(hist, name, order[0]);
      if h != 0 then h else FoundIn(hist, name, order[1..])
  }

  /** The newest match in one wordlist; names of no or more than 32 characters are not found. */
  function FoundHere(hist: seq<Entry>, name: Name, wid: nat): nat {
    if 0 < |name| <= LONGEST_FOUND then HeaderAt(hist, Latest(hist, wid, name)) else 0
  }

  /** Entry `i` is the newest of a wordlist with the name. */
  predicate IsNewest(hist: seq<Entry>, i: nat, name: Name, wid: nat)
    requires i < |hist|
  {
    && hist[i].wid == wid && SameLetters(hist[i].name, name)
    && forall j | i < j < |hist| :: !(hist[j].wid == wid && SameLetters(hist[j].name, name))
  }

  /** The right answer to a search: the header of the newest entry with the name, up to the
      case of its letters; 0 if there is none, or the name has no or more than 32 bytes. */
  predicate Answers(hist: seq<Entry>, name: Name, wid: nat, header: nat) {
    if 1 <= |name| <= 32 && exists i | 0 <= i < |hist| :: hist[i].wid == wid && SameLetters(hist[i].name, name)
    then exists i | 0 <= i < |hist| :: IsNewest(hist, i, name, wid) && header == hist[i].header
    else header == 0
  }

  lemma FoundHereIs(hist: seq<Entry>, name: Name, wid: nat)
    ensures Answers(hist, name, wid, FoundHere(hist, name, wid))
  {
    hide Folded, SameLetters;
    forall i | 0 <= i < |hist|
      ensures Matches(hist[i], wid, name) <==> hist[i].wid == wid && SameLetters(hist[i].name, name)
    {
      FoldedIs(hist[i].name, name);
    }
    var p := Latest(hist, wid, name);
    if p > 0 {
      assert IsNewest(hist, p - 1, name, wid);
    }
  }

  /** Along a search order the first wordlist with an answer gives it. */
  lemma {:induction false} FoundInIs(hist: seq<Entry>, name: Name, order: seq<nat>)
    ensures var header := FoundIn(hist, name, order);
            if header == 0 then forall k | 0 <= k < |order| :: Answers(hist, name, order[k], 0)
            else exists k | 0 <= k < |order| :: Answers(hist, name, order[k], header)
                                                && forall j | 0 <= j < k :: Answers(hist, name, order[j], 0)
    decreases |order|
  {
    hide FoundHere, Answers;
    if order != [] {
      FoundHereIs(hist, name, order[0]);
      var h := FoundHere(hist, name, order[0]);
      if h == 0 {
        FoundInIs(hist, name, order[1..]);
        var header := FoundIn(hist, name, order);
        if header != 0 {
          var k :| 0 <= k < |order| - 1 && Answers(hist, name, order[1..][k], header)
                   && forall j | 0 <= j < k :: Answers(hist, name, order[1..][j], 0);
          assert order[1..][k] == order[k + 1];
          forall j | 0 <= j < k + 1
            ensures Answers(hist, name, order[j], 0)
          {
            if j > 0 {
              assert order[1..][j - 1] == order[j];
            }
          }
        } else {
          forall j | 0 <= j < |order|
            ensures Answers(hist, name, order[j], 0)
          {
            if j > 0 {
              assert order[1..][j - 1] == order[j];
            }
          }
        }
      }
    }
  }

  lemma {:induction false} FoundIsEntry(hist: seq<Entry>, name: Name, order: seq<nat>)
    ensures FoundIn(hist, name, order) != 0 ==>
              exists j | 0 <= j < |hist| :: hist[j].header == FoundIn(hist, name, order)
    decreases |order|
  {
    hide Latest;
    if order != [] {
      var h := FoundHere(hist, name, order[0]);
      if h != 0 {
        assert hist[Latest(hist, order[0], name) - 1].header == h;
      } else {
        FoundIsEntry(hist, name, order[1..]);
      }
    }
  }

  class Index {
    var image: Image
    ghost var hist: seq<Entry>

    ghost predicate Valid()
      reads this
    {
      Sound(image, hist)
    }

    constructor (top: nat, start: nat)
      requires 0 < top && 0 < start
      ensures Valid() && hist == [] && image.base == top
    {
      image := Image(top, map[], map[], map[], top, 0, start, 0);
      hist := [];
    }

    /** Node, bucket and creation chain for one published header; false is the trap when the
        index meets the headers. */
    method Publish(name: Name, wid: nat, header: nat) returns (ok: bool)
      requires name != []
      modifies this`image
      ensures ok <==> old(image.indexHere) > old(image.here) + 40
      ensures image == if ok then WithNode(old(image), name, wid, header) else old(image)
      ensures ok ==> image.indexHere == old(image.indexHere) - 40 == image.indexLatest
                     && image.heads == old(image.heads)[Bucket(wid, Hash(name) % 512) := image.indexHere]
                     && image.nodes
                        == old(image.nodes)[image.indexHere :=
                             Node(old(image).Head(wid, Hash(name) % 512), old(image.indexLatest), header, wid,
                                  Hash(name), |name|, Fold(name[0]))]
    {
      hide Hash, Fold;
      var hash, first := HashName(name);
      ok := image.indexHere > image.here + NODE_SIZE;
      if ok {
        var node := image.indexHere - NODE_SIZE;
        var b := Bucket(wid, BucketOf(hash));
        var n := Node(image.Head(wid, BucketOf(hash)), image.indexLatest, header, wid, hash, |name|, first);
        image := image.(indexHere := node, heads := image.heads[b := node], nodes := image.nodes[node := n],
                        indexLatest := node);
      }
    }

    /** `(create)`: a header at `here`, linked and published; false when the header or its
        node would meet the other area. */
    method Create(name: Name, wid: nat) returns (ok: bool)
      requires Valid() && 0 < |name| < 256
      modifies this
      ensures ok <==> BodyAt(old(image.here), |name|) < old(image.indexHere)
                      && old(image.here) + 40 < old(image.indexHere)
      ensures ok ==> Valid() && hist == old(hist) + [Entry(old(image.here), wid, name)]
      ensures ok ==> image.here == BodyAt(old(image.here), |name|) > old(image.here)
      ensures ok ==> image.here % 8 == 0
                     && old(image.here) + 48 + |name| + 8 <= image.here < old(image.here) + 48 + |name| + 16
      ensures image.base == old(image.base)
    {
      hide Sound, Hash, Fold;
      ghost var m := image;
      var header := image.here;
      var xt := BodyAt(header, |name|);
      ok := xt < image.indexHere;
      if ok {
        image := image.(headers := image.headers[header := Header(image.latest, name)]);
        ok := Publish(name, wid, header);
        if ok {
          image := image.(here := xt, latest := header);
          CreatedSound(m, hist, name, wid, xt);
          hist := hist + [Entry(header, wid, name)];
        }
      }
    }

    /** The newest match in one wordlist, or 0, by scanning one bucket. */
    method Search(name: Name, wid: nat) returns (header: nat)
      requires Valid()
      ensures header == FoundHere(hist, name, wid) && Answers(hist, name, wid, header)
    {
      hide Hash, Fold, Newest, Latest, Matches, InBucket, BucketOf, Answers, NodesHold, HeadsHold, Ordered;
      FoundHereIs(hist, name, wid);
      header := 0;
      if |name| == 0 || |name| > LONGEST_FOUND {
        return;
      }
      var hash, first := HashName(name);
      var b := BucketOf(hash);
      var node := image.Head(wid, b);
      ghost var p: nat := Newest(hist, wid, b);
      HeadIs(image, hist, wid, b);
      OneBucketSuffices(hist, wid, name);
      while node != 0
        invariant p <= |hist| && node == image.NodeAt(p)
        invariant p > 0 ==> InBucket(hist[p - 1], wid, b)
        invariant Latest(hist, wid, name)
               == if p == 0 then 0
                  else if Matches(hist[p - 1], wid, name) then p
                  else Latest(hist[..p - 1], wid, name)
        decreases p
      {
        NodeOf(image, hist, p);
        var n := image.nodes[node];
        ghost var e := hist[p - 1];
        MatchIs(e, wid, name, b);
        InBucketIs(e, wid, b);
        if n.hash == hash && n.len == |name| && n.first == first {
          var same := SameName(name, image.headers[n.header].name);
          if same {
            return n.header;
          }
        }
        node := n.bucketNext;
        p := NextInBucket(hist, p, wid, name, b);
      }
    }

    /** The wordlists of the search order, first to last. */
    method SearchOrder(name: Name, order: seq<nat>) returns (header: nat)
      requires Valid()
      ensures header == FoundIn(hist, name, order)
      ensures if header == 0 then forall k | 0 <= k < |order| :: Answers(hist, name, order[k], 0)
              else exists k | 0 <= k < |order| :: Answers(hist, name, order[k], header)
                                                  && forall j | 0 <= j < k :: Answers(hist, name, order[j], 0)
    {
      hide FoundHere, Answers;
      FoundInIs(hist, name, order);
      var i := 0;
      header := 0;
      while i < |order|
        invariant 0 <= i <= |order|
        invariant FoundIn(hist, name, order) == FoundIn(hist, name, order[i..])
      {
        header := Search(name, order[i]);
        assert order[i..][1..] == order[i + 1..];
        if header != 0 {
          return;
        }
        i := i + 1;
      }
      return 0;
    }

    /** Peel the nodes below the threshold out of their buckets, newest first. */
    method Rollback(threshold: nat, latestNode: nat, ghost k: nat)
      requires Valid() && k <= |hist| && threshold == image.base - NODE_SIZE * k && latestNode == image.NodeAt(k)
      modifies this`image
      ensures image == old(image).(heads := image.heads, indexHere := threshold, indexLatest := latestNode)
      ensures HeadsHold(image, hist[..k])
    {
      hide NodeHolds, HeadsHold, Peeled;
      var node := image.indexLatest;
      ghost var p: nat := |hist|;
      ghost var m := image;
      assert hist[..p] == hist;
      while node != 0 && node < threshold
        invariant k <= p <= |hist| && node == m.NodeAt(p)
        invariant image == m.(heads := image.heads) && HeadsHold(image, hist[..p])
        decreases p
      {
        NodeFacts(m, hist, p);
        SameNode(m, image, hist, p);
        PeeledHeads(image, hist, p);
        var n := image.nodes[node];
        var b := BucketOf(n.hash);
        PeeledIs(image, node);
        if image.Head(n.wid, b) == node {
          image := image.(heads := image.heads[Bucket(n.wid, b) := n.bucketNext]);
        }
        node := n.globalPrev;
        p := p - 1;
      }
      NodeAtInjective(m, hist, p, k);
      SameHeads(image, image.(indexHere := threshold, indexLatest := latestNode), hist[..k]);
      image := image.(indexHere := threshold, indexLatest := latestNode);
    }

    /** What a rollback needs to know. */
    method Snapshot() returns (m: Marker)
      requires Valid()
      ensures m == Marker(image.latest, image.here, image.indexHere, image.indexLatest)
      ensures Remembers(image, hist, m, |hist|)
    {
      m := Marker(image.latest, image.here, image.indexHere, image.indexLatest);
    }

    /** Run a marker: everything published since is gone. */
    method RunMarker(m: Marker, ghost k: nat)
      requires Valid() && Remembers(image, hist, m, k)
      modifies this
      ensures Valid() && hist == old(hist)[..k]
      ensures image.base == old(image.base) && image.here == m.here && image.latest == m.latest
    {
      hide NodesHold, HeadsHold;
      ghost var was := image;
      Rollback(m.indexHere, m.indexLatest, k);
      SameHeads(image, image.(latest := m.latest, here := m.here), hist[..k]);
      image := image.(latest := m.latest, here := m.here);
      TrimmedSound(was, hist, image, k);
      hist := hist[..k];
    }

    /** The node of a header, down the creation chain. */
    method NodeOfHeader(header: nat, ghost j: nat) returns (node: nat)
      requires Valid() && j < |hist| && hist[j].header == header
      ensures node == image.NodeAt(j + 1)
    {
      hide NodesHold, HeadsHold, NodeHolds;
      node := image.indexLatest;
      ghost var p: nat := |hist|;
      NodeFacts(image, hist, p);
      while node != 0 && image.nodes[node].header != header
        invariant j < p <= |hist| && node == image.NodeAt(p) && node in image.nodes
        invariant image.nodes[node].header == hist[p - 1].header
        decreases p
      {
        NodeFacts(image, hist, p);
        node := image.nodes[node].globalPrev;
        p := p - 1;
        NodeFacts(image, hist, p);
      }
      NodeFacts(image, hist, p);
    }

    /** Forget a name and everything published after it. */
    method Forget(name: Name, order: seq<nat>) returns (found: bool)
      requires Valid()
      modifies this
      ensures found <==> FoundIn(old(hist), name, order) != 0
      ensures !found ==> Valid() && hist == old(hist)
      ensures found ==>
                exists j | 0 <= j < |old(hist)| ::
                  old(hist)[j].header == FoundIn(old(hist), name, order) && Valid() && hist == old(hist)[..j]
    {
      hide NodesHold, HeadsHold, FoundIn, NodeHolds;
      var header := SearchOrder(name, order);
      found := header != 0;
      if !found {
        return;
      }
      FoundIsEntry(hist, name, order);
      ghost var j: nat :| j < |hist| && hist[j].header == header;
      ghost var was := image;
      var node := NodeOfHeader(header, j);
      NodeFacts(was, hist, j + 1);
      var prev, link := image.nodes[node].globalPrev, image.headers[header].link;
      Rollback(node + NODE_SIZE, prev, j);
      SameHeads(image, image.(latest := link, here := header), hist[..j]);
      image := image.(latest := link, here := header);
      TrimmedSound(was, hist, image, j);
      hist := hist[..j];
    }

    /** Publish any names after a snapshot and roll back: every bucket is as it was. */
    method PublishAndRollback(names: seq<Name>, wid: nat) returns (ok: bool)
      requires Valid() && forall i | 0 <= i < |names| :: 0 < |names[i]| < 256
      modifies this
      ensures ok ==> Valid() && hist == old(hist)
      ensures ok ==> forall w, b :: image.Head(w, b) == old(image).Head(w, b)
    {
      hide Sound;
      var m := Snapshot();
      ghost var k := |hist|;
      ok := true;
      var i := 0;
      while i < |names|
        invariant 0 <= i <= |names| && ok
        invariant Valid() && Remembers(image, hist, m, k) && hist[..k] == old(hist)
        invariant image.base == old(image.base)
      {
        ghost var before, h := image, hist;
        ok := Create(names[i], wid);
        if !ok {
          return;
        }
        StillRemembers(before, h, image, hist, m, k);
        i := i + 1;
      }
      RunMarker(m, k);
      SameBuckets(old(image), image, hist);
    }
  }

  datatype Marker = Marker(latest: nat, here: nat, indexHere: nat, indexLatest: nat)

  /** The marker was taken when there were `k` entries. */
  predicate Remembers(m: Image, hist: seq<Entry>, mark: Marker, k: nat) {
    && k <= |hist| && mark.indexHere == m.base - NODE_SIZE * k && mark.indexLatest == m.NodeAt(k)
    && mark.latest == HeaderAt(hist, k) && mark.here > 0 && forall i | 0 <= i < k :: hist[i].header < mark.here
  }

  lemma StillRemembers(m: Image, hist: seq<Entry>, m': Image, hist': seq<Entry>, mark: Marker, k: nat)
    requires Remembers(m, hist, mark, k) && m'.base == m.base && |hist'| >= |hist| && hist'[..|hist|] == hist
    ensures Remembers(m', hist', mark, k) && hist'[..k] == hist[..k]
  {
    assert forall i | 0 <= i < |hist| :: hist'[i] == hist[i];
  }

  lemma SameBuckets(m: Image, m': Image, hist: seq<Entry>)
    requires Sound(m, hist) && Sound(m', hist) && m.base == m'.base
    ensures forall w, b :: m'.Head(w, b) == m.Head(w, b)
  {
    hide Newest, NodesHold;
  }

  lemma SameHeads(m: Image, m': Image, hist: seq<Entry>)
    requires HeadsHold(m, hist) && m'.heads == m.heads && m'.base == m.base
    ensures HeadsHold(m', hist)
  {
    hide Newest;
  }

  lemma SameNode(m: Image, m': Image, hist: seq<Entry>, p: nat)
    requires 0 < p <= |hist| && NodeHolds(m, hist, p)
    requires m'.nodes == m.nodes && m'.headers == m.headers && m'.base == m.base
    ensures NodeHolds(m', hist, p)
  {
    hide Newest, Hash, Fold;
  }

  lemma PeeledIs(m: Image, node: nat)
    requires node in m.nodes
    ensures var n := m.nodes[node];
            var b := BucketOf(n.hash);
            Peeled(m, node) == if m.Head(n.wid, b) == node then m.heads[Bucket(n.wid, b) := n.bucketNext] else m.heads
  {
  }

  /** What a node says of its entry. */
  lemma NodeFacts(m: Image, hist: seq<Entry>, p: nat)
    requires Sound(m, hist) && p <= |hist|
    ensures m.NodeAt(p) >= 0 && (m.NodeAt(p) == 0 <==> p == 0)
    ensures p > 0 ==>
              var e := hist[p - 1];
              NodeHolds(m, hist, p) && m.NodeAt(p) in m.nodes && m.nodes[m.NodeAt(p)].header == e.header
              && m.nodes[m.NodeAt(p)].globalPrev == m.NodeAt(p - 1)
              && e.header in m.headers && m.headers[e.header].link == HeaderAt(hist, p - 1)
  {
    hide Newest, Hash, Fold, HeadsHold;
    NodeAtInjective(m, hist, p, 0);
    if p > 0 {
      NodeOf(m, hist, p);
    }
  }

  /** On along a bucket chain. */
  lemma NextInBucket(hist: seq<Entry>, p: nat, wid: nat, name: Name, b: nat) returns (q: nat)
    requires 0 < p <= |hist| && b == BucketOf(Hash(name)) && !Matches(hist[p - 1], wid, name)
    ensures q == Newest(hist[..p - 1], wid, b) && q < p && (q > 0 ==> InBucket(hist[q - 1], wid, b))
    ensures Latest(hist[..p - 1], wid, name)
         == if q == 0 then 0
            else if Matches(hist[q - 1], wid, name) then q
            else Latest(hist[..q - 1], wid, name)
  {
    hide Newest, Latest, Matches, InBucket, Hash, BucketOf;
    var h := hist[..p - 1];
    q := Newest(h, wid, b);
    OneBucketSuffices(h, wid, name);
    if q > 0 {
      assert h[q - 1] == hist[q - 1] && h[..q - 1] == hist[..q - 1];
    }
  }

  /** Hash and folded first character of a name, byte by byte. */
  method HashName(name: Name) returns (hash: Word32, first: Byte)
    ensures hash == Hash(name) && (name != [] ==> first == Fold(name[0]))
  {
    hide Fold, Xor;
    hash, first := 0x811C_9DC5, 0;
    for i := 0 to |name|
      invariant hash == Hash(name[..i]) && (i > 0 ==> first == Fold(name[0]))
    {
      var c := Fold(name[i]);
      if i == 0 {
        first := c;
      }
      assert name[..i + 1][..i] == name[..i];
      hash := Xor(hash, c) * 0x0100_0193 % 0x1_0000_0000;
    }
    assert name[..|name|] == name;
  }

  /** Names of one length compared byte by byte under folding. */
  method SameName(a: Name, b: Name) returns (same: bool)
    requires |a| == |b|
    ensures same <==> Folded(a) == Folded(b)
  {
    hide Fold;
    var i := 0;
    while i < |a|
      invariant 0 <= i <= |a| && forall j | 0 <= j < i :: Fold(a[j]) == Fold(b[j])
    {
      if Fold(a[i]) != Fold(b[i]) {
        assert Folded(a)[i] != Folded(b)[i];
        return false;
      }
      i := i + 1;
    }
    assert Folded(a) == Folded(b);
    return true;
  }

  lemma NewestAppend(hist: seq<Entry>, e: Entry, wid: nat, bucket: nat)
    ensures Newest(hist + [e], wid, bucket)
         == if InBucket(e, wid, bucket) then |hist| + 1 else Newest(hist, wid, bucket)
  {
    hide InBucket;
    assert (hist + [e])[..|hist|] == hist;
  }

  lemma InBucketIs(e: Entry, wid: nat, bucket: nat)
    ensures InBucket(e, wid, bucket) <==> wid == e.wid && bucket == BucketOf(Hash(e.name))
  {
  }

  /** What a node tells about a match. */
  lemma MatchIs(e: Entry, wid: nat, name: Name, bucket: nat)
    requires InBucket(e, wid, bucket) && 0 < |e.name| && 0 < |name|
    ensures Matches(e, wid, name) <==> Folded(e.name) == Folded(name)
    ensures Matches(e, wid, name) ==>
              Hash(e.name) == Hash(name) && |e.name| == |name| && Fold(e.name[0]) == Fold(name[0])
  {
    hide Hash, Fold;
    if Folded(e.name) == Folded(name) {
      HashIsFolded(e.name, name);
      assert Folded(e.name)[0] == Folded(name)[0];
    }
  }
}
