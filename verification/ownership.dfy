/** Who owns which register. Every live pool register belongs to exactly one window entry
    or one cached cell, `used` says exactly which are live, and seven pool registers are
    enough for every run with at most four hot addresses. */
module Ownership {
  import opened Options
  import opened Cells
  import opened Tokens
  import opened Machine
  import opened Window

  /** How many window entries hold register `r`. */
  function Holders(vs: seq<Loc>, r: Reg): nat {
    multiset(vs)[InReg(r)]
  }

  ghost predicate Owned(w: Low) {
    && (forall r | r in w.used :: r == TOS || r in Pool())
    && (forall r :: r in w.used <==> Holders(w.vs, r) == 1 || r in CacheRegs(w.cache))
    && (forall r :: Holders(w.vs, r) <= 1)
    && (forall a | a in w.cache :: w.cache[a] in Pool() && Holders(w.vs, w.cache[a]) == 0)
    && (forall a, b | a in w.cache && b in w.cache && a != b :: w.cache[a] != w.cache[b])
    && w.cache.Keys <= w.hot
  }

  // ----- what the primitives do to ownership -----

  /** Ownership does not depend on the code emitted or on how deep the window reaches. */
  lemma OwnFrame(w: Low, w': Low)
    requires Owned(w)
    requires w'.vs == w.vs && w'.used == w.used && w'.cache == w.cache && w'.hot == w.hot
    ensures Owned(w')
  {
  }

  lemma AllocIsFresh(w: Low)
    requires Alloc(w).Some?
    ensures Alloc(w).value.1 in Pool() && Alloc(w).value.1 !in w.used
  {
    FirstFreeIsFree(w.used, POOL_FIRST);
  }

  lemma {:induction false} FirstFreeIsFree(used: set<Reg>, r: Reg)
    requires POOL_FIRST <= r
    ensures FirstFree(used, r).Some? ==> FirstFree(used, r).value in Pool() - used
    ensures FirstFree(used, r).None? ==> forall q | r <= q <= POOL_LAST :: q in used
    decreases POOL_LAST + 1 - r
  {
    if r <= POOL_LAST && r in used {
      FirstFreeIsFree(used, r + 1);
    }
  }

  lemma AllocSucceeds(w: Low)
    requires FreeCount(w.used) >= 1
    ensures Alloc(w).Some?
    ensures FreeCount(Alloc(w).value.0.used) == FreeCount(w.used) - 1
  {
    FirstFreeIsFree(w.used, POOL_FIRST);
    assert Pool() - w.used != {};
    var q :| q in Pool() - w.used;
    var r := Alloc(w).value.1;
    assert Pool() - (w.used + {r}) == (Pool() - w.used) - {r};
  }

  /** A fresh register joins the window in the place of an entry that holds none. */
  /** `alloc` fails exactly when no pool register is free. */
  lemma AllocExactly(w: Low)
    ensures Alloc(w).Some? <==> FreeCount(w.used) >= 1
  {
    hide Pool;
    if Alloc(w).Some? {
      AllocIsFresh(w);
      HasMember(Pool() - w.used, Alloc(w).value.1);
    }
    if FreeCount(w.used) >= 1 {
      AllocSucceeds(w);
    }
  }

  lemma HasMember(s: set<Reg>, r: Reg)
    requires r in s
    ensures |s| >= 1
  {
  }

  lemma OwnFresh(w: Low, r: Reg, vs: seq<Loc>, old_: multiset<Loc>)
    requires Owned(w) && r in Pool() && r !in w.used
    requires multiset(vs) == multiset(w.vs) - old_ + multiset{InReg(r)}
    requires old_ <= multiset(w.vs)
    requires forall q :: old_[InReg(q)] == 0
    ensures Owned(w.(used := w.used + {r}, vs := vs))
  {
    var w' := w.(used := w.used + {r}, vs := vs);
    forall q
      ensures Holders(vs, q) == Holders(w.vs, q) + if q == r then 1 else 0
    {
      assert multiset(vs)[InReg(q)] == multiset(w.vs)[InReg(q)] + multiset{InReg(r)}[InReg(q)];
    }
  }

  /** An entry leaves the window and its register, if any, is freed. */
  lemma OwnRemove(w: Low, l: Loc, vs: seq<Loc>)
    requires Owned(w) && l in w.vs
    requires multiset(vs) == multiset(w.vs) - multiset{l}
    ensures Owned(FreeLoc(w.(vs := vs), l))
  {
    forall q
      ensures Holders(vs, q) == Holders(w.vs, q) - if l == InReg(q) then 1 else 0
    {
      assert multiset(vs)[InReg(q)] == multiset(w.vs)[InReg(q)] - multiset{l}[InReg(q)];
    }
    match l
    case Const(_) =>
    case InReg(r) =>
      assert Holders(w.vs, r) == 1;
      var w' := FreeLoc(w.(vs := vs), l);
      forall q
        ensures q in w'.used <==> Holders(w'.vs, q) == 1 || q in CacheRegs(w'.cache)
      {
      }
  }

  /** Entries that hold no register come and go freely; the rest may be rearranged. */
  lemma OwnRearrange(w: Low, vs: seq<Loc>)
    requires Owned(w)
    requires forall r :: Holders(vs, r) == Holders(w.vs, r)
    ensures Owned(w.(vs := vs))
  {
  }

  lemma OwnClearCache(w: Low)
    requires Owned(w)
    ensures Owned(ClearCache(w))
  {
    var w' := ClearCache(w);
    forall r
      ensures r in w'.used <==> Holders(w'.vs, r) == 1 || r in CacheRegs(w'.cache)
    {
      if r in CacheRegs(w.cache) {
        var a :| a in w.cache && w.cache[a] == r;
        assert Holders(w.vs, w.cache[a]) == 0;
      }
    }
  }

  lemma CacheRegsInsert(cache: map<Addr, Reg>, a: Addr, r: Reg)
    requires a !in cache
    ensures CacheRegs(cache[a := r]) == CacheRegs(cache) + {r}
  {
    var c := cache[a := r];
    assert a in c && c[a] == r;
    forall q | q in CacheRegs(cache)
      ensures q in CacheRegs(c)
    {
      var b :| b in cache && cache[b] == q;
      assert b in c && c[b] == q;
    }
  }

  lemma OwnCacheInsert(w: Low, a: Addr, r: Reg)
    requires Owned(w) && r in Pool() && r !in w.used && a !in w.cache && a in w.hot
    ensures Owned(w.(used := w.used + {r}, cache := w.cache[a := r]))
  {
    CacheRegsInsert(w.cache, a, r);
    assert Holders(w.vs, r) == 0;
    forall b | b in w.cache
      ensures w.cache[b] != r
    {
      assert w.cache[b] in CacheRegs(w.cache);
    }
  }

  lemma StartOwned(hot: set<Addr>)
    ensures Owned(Start(hot))
    ensures FreeCount(Start(hot).used) == 7
  {
    var w := Start(hot);
    assert multiset(w.vs) == multiset{InReg(TOS)};
    forall r
      ensures Holders(w.vs, r) == if r == TOS then 1 else 0
    {
      assert multiset{InReg(TOS)}[InReg(r)] == if r == TOS then 1 else 0;
    }
    assert Pool() - w.used == Pool();
  }

  // ----- counting free registers -----

  function RegSet(vs: seq<Loc>): set<Reg> {
    set l | l in vs && l.InReg? :: l.r
  }

  lemma {:induction false} RegSetSize(vs: seq<Loc>)
    ensures |RegSet(vs)| <= |vs|
    decreases |vs|
  {
    if vs == [] {
      assert RegSet(vs) == {};
    } else {
      var pre, l := vs[..|vs| - 1], vs[|vs| - 1];
      RegSetSize(pre);
      assert vs == pre + [l];
      assert RegSet(vs) == RegSet(pre) + if l.InReg? then {l.r} else {};
    }
  }

  lemma {:induction false} CacheRegsSize(cache: map<Addr, Reg>)
    ensures |CacheRegs(cache)| <= |cache.Keys|
    decreases |cache.Keys|
  {
    if cache.Keys == {} {
      assert CacheRegs(cache) == {};
    } else {
      var a :| a in cache.Keys;
      var rest := cache - {a};
      assert rest.Keys == cache.Keys - {a};
      CacheRegsSize(rest);
      assert CacheRegs(cache) == CacheRegs(rest) + {cache[a]} by {
        forall r | r in CacheRegs(cache)
          ensures r in CacheRegs(rest) + {cache[a]}
        {
          var b :| b in cache && cache[b] == r;
          if b != a {
            assert b in rest && rest[b] == r;
          }
        }
        forall r | r in CacheRegs(rest)
          ensures r in CacheRegs(cache)
        {
          var b :| b in rest && rest[b] == r;
          assert b in cache && cache[b] == r;
        }
      }
    }
  }

  lemma SubsetSize<T>(a: set<T>, b: set<T>)
    requires a <= b
    ensures |a| <= |b|
  {
    assert |b - a| == |b| - |a| by {
      assert a + (b - a) == b;
    }
  }

  lemma HolderInWindow(vs: seq<Loc>, r: Reg)
    ensures Holders(vs, r) >= 1 <==> InReg(r) in vs
  {
    assert InReg(r) in vs <==> InReg(r) in multiset(vs);
  }

  lemma TakenAreHeld(w: Low)
    requires Owned(w)
    ensures Pool() * w.used <= RegSet(w.vs) + CacheRegs(w.cache)
  {
    hide Pool, CacheRegs;
    forall r | r in Pool() * w.used
      ensures r in RegSet(w.vs) + CacheRegs(w.cache)
    {
      HolderInWindow(w.vs, r);
      if r !in CacheRegs(w.cache) {
        assert InReg(r) in w.vs;
      }
    }
  }

  /** Window entries and cached cells are all that can occupy the pool. */
  lemma FreeAtLeast(w: Low)
    requires Owned(w)
    ensures FreeCount(w.used) >= 7 - |w.vs| - |w.cache.Keys|
  {
    hide Owned, RegSet, CacheRegs;
    var taken := Pool() * w.used;
    TakenAreHeld(w);
    RegSetSize(w.vs);
    CacheRegsSize(w.cache);
    SubsetSize(taken, RegSet(w.vs) + CacheRegs(w.cache));
    assert |Pool()| == 7;
    assert |Pool() - w.used| == |Pool()| - |taken|;
  }

  // ----- ownership and supply through the helpers -----

  /** The outcome of a step from `w`: it finds its registers, and ownership is kept. */
  ghost predicate Sound(w: Low, r: Option<Low>) {
    r.Some? && Owned(r.value) && r.value.hot == w.hot
  }

  /** One operand pulled into a register that was free. */
  lemma OnePulled(w: Low)
    requires Owned(w) && Alloc(w).Some?
    ensures var (w1, r) := Alloc(w).value;
            Owned(Emit(w1, [LdrStk(r, w.consumed % 4096)]).(consumed := w.consumed + 1, vs := [InReg(r)] + w.vs))
  {
    hide Owned, Pool, FreeCount;
    AllocIsFresh(w);
    var (w1, r) := Alloc(w).value;
    var w2 := Emit(w1, [LdrStk(r, w.consumed % 4096)]).(consumed := w.consumed + 1, vs := [InReg(r)] + w.vs);
    assert multiset(w2.vs) == multiset(w.vs) + multiset{InReg(r)};
    OwnFresh(w, r, w2.vs, multiset{});
    OwnFrame(w.(used := w.used + {r}, vs := w2.vs), w2);
  }

  lemma {:induction false} EnsureOwned(w: Low, n: nat)
    requires Owned(w)
    ensures var r := Ensure(w, n);
            && (r.Some? ==> Owned(r.value) && r.value.hot == w.hot && r.value.cache == w.cache)
            && (r.Some? <==> FreeCount(w.used) >= n - |w.vs|)
            && (|w.vs| >= n ==> r == Some(w))
            && (FreeCount(w.used) >= n - |w.vs| && |w.vs| < n ==>
                  FreeCount(r.value.used) == FreeCount(w.used) - (n - |w.vs|))
    decreases n - |w.vs|
  {
    hide Owned, Pool, FreeCount;
    if |w.vs| < n {
      AllocExactly(w);
      if Alloc(w).Some? {
        AllocSucceeds(w);
        OnePulled(w);
        var (w1, r) := Alloc(w).value;
        EnsureOwned(Emit(w1, [LdrStk(r, w.consumed % 4096)]).(consumed := w.consumed + 1, vs := [InReg(r)] + w.vs), n);
      }
    }
  }

  lemma UpdateEntry(vs: seq<Loc>, i: nat, l: Loc)
    requires i < |vs|
    ensures multiset(vs[i := l]) == multiset(vs) - multiset{vs[i]} + multiset{l}
    ensures multiset{vs[i]} <= multiset(vs)
  {
    assert vs[i] in multiset(vs);
  }

  lemma ToRegAtOwned(w: Low, i: nat)
    requires i < |w.vs| && Owned(w)
    ensures var o := ToRegAt(w, i);
            && (o.Some? ==>
                  && Owned(o.value) && o.value.hot == w.hot && o.value.cache == w.cache
                  && o.value.consumed == w.consumed
                  && FreeCount(o.value.used)
                       >= FreeCount(w.used) - if w.vs[i].Const? then 1 else 0)
            && (w.vs[i].InReg? || FreeCount(w.used) >= 1 ==> o.Some?)
  {
    hide Owned, Pool;
    match w.vs[i]
    case InReg(r) =>
    case Const(n) =>
      AllocExactly(w);
      if Alloc(w).Some? {
        AllocSucceeds(w);
        AllocIsFresh(w);
        var r := Alloc(w).value.1;
        assert FreeCount(w.used) >= 1 by {
          assert r in Pool() - w.used;
        }
        AllocSucceeds(w);
        UpdateEntry(w.vs, i, InReg(r));
        OwnFresh(w, r, w.vs[i := InReg(r)], multiset{w.vs[i]});
        OwnFrame(w.(used := w.used + {r}, vs := w.vs[i := InReg(r)]), ToRegAt(w, i).value);
      }
  }

  /** Copying a live register or a constant onto the window. */
  lemma CopyOwned(w: Low, l: Loc)
    requires Owned(w)
    ensures var o := CopyOf(w, l);
            && (o.Some? ==>
                  var (w1, c) := o.value;
                  && Owned(Push(w1, c))
                  && w1.vs == w.vs && w1.hot == w.hot && w1.cache == w.cache
                  && w1.consumed == w.consumed
                  && (c.Const? ==> c == l))
            && (FreeCount(w.used) >= 1 ==> o.Some?)
  {
    match l
    case Const(n) =>
      PushConstOwned(w, n);
    case InReg(r) =>
      AllocExactly(w);
      if Alloc(w).Some? {
        AllocSucceeds(w);
        AllocIsFresh(w);
        var r2 := Alloc(w).value.1;
        OwnFresh(w, r2, w.vs + [InReg(r2)], multiset{});
      }
  }

  lemma PushConstOwned(w: Low, n: Cell)
    requires Owned(w)
    ensures Owned(Push(w, Const(n)))
  {
    forall r
      ensures Holders(w.vs + [Const(n)], r) == Holders(w.vs, r)
    {
    }
    OwnRearrange(w, w.vs + [Const(n)]);
  }

  lemma RemoveOwned(w: Low, i: nat)
    requires Owned(w) && i < |w.vs|
    ensures Owned(Remove(w, i)) && Remove(w, i).hot == w.hot
  {
    hide Owned, Pool;
    var vs := w.vs[..i] + w.vs[i + 1..];
    assert w.vs == w.vs[..i] + [w.vs[i]] + w.vs[i + 1..];
    assert multiset(vs) == multiset(w.vs) - multiset{w.vs[i]};
    assert w.vs[i] in w.vs;
    OwnRemove(w, w.vs[i], vs);
  }

  // ----- settling -----

  function DeepRegs(vs: seq<Loc>, i: nat): set<Reg> {
    set j | i <= j < |vs| - 1 && vs[j].InReg? :: vs[j].r
  }

  lemma {:induction false} StoreRegsFrees(w: Low, i: nat)
    ensures StoreRegs(w, i).used == w.used - DeepRegs(w.vs, i)
    ensures StoreRegs(w, i).cache == w.cache && StoreRegs(w, i).consumed == w.consumed
    ensures StoreRegs(w, i).hot == w.hot
    decreases |w.vs| - i
  {
    if i + 1 < |w.vs| {
      match w.vs[i]
      case InReg(r) =>
        StoreRegsFrees(FreeReg(Emit(w, [StrStk(r, (|w.vs| - 2 - i) % 4096)]), r), i + 1);
        assert DeepRegs(w.vs, i) == DeepRegs(w.vs, i + 1) + {r};
      case Const(_) =>
        StoreRegsFrees(w, i + 1);
        assert DeepRegs(w.vs, i) == DeepRegs(w.vs, i + 1);
    }
  }

  lemma {:induction false} StoreConstsSucceeds(w: Low, i: nat)
    requires FreeCount(w.used) >= 1
    ensures StoreConsts(w, i).Some?
    decreases |w.vs| - i
  {
    if i + 1 < |w.vs| {
      match w.vs[i]
      case InReg(_) => StoreConstsSucceeds(w, i + 1);
      case Const(n) =>
        AllocSucceeds(w);
        AllocIsFresh(w);
        var (w1, t) := Alloc(w).value;
        var w2 := FreeReg(Emit(w1, LoadImm64(t, n) + [StrStk(t, (|w.vs| - 2 - i) % 4096)]), t);
        assert w2.used == w.used;
        StoreConstsSucceeds(w2, i + 1);
    }
  }

  lemma DeepOrTop(w: Low, r: Reg)
    requires Owned(w) && w.cache == map[] && w.vs != []
    requires r in w.used && r !in DeepRegs(w.vs, 0)
    ensures w.vs[|w.vs| - 1] == InReg(r)
  {
    hide Pool;
    HolderInWindow(w.vs, r);
    assert r !in CacheRegs(w.cache);
    var j :| 0 <= j < |w.vs| && w.vs[j] == InReg(r);
  }

  /** Settling never runs out of registers, however full the pool is. */
  lemma SettleOwned(w: Low)
    requires Owned(w)
    ensures var r := SettleData(w);
            r.Some? && Owned(r.value) && r.value == Start(w.hot).(out := r.value.out)
            && FreeCount(r.value.used) == 7
  {
    hide Owned, Pool, DeepRegs, FreeCount, StoreConsts, Ensure, StoreRegs;
    var w0 := ClearCache(w);
    OwnClearCache(w);
    FreeAtLeast(w0);
    EnsureOwned(w0, 1);
    var w1 := Ensure(w0, 1).value;
    var we := Emit(w1, AdjustDsp(Delta(w1)));
    var w2 := StoreRegs(we, 0);
    StoreRegsKeepsWindow(we, 0);
    StoreRegsFrees(we, 0);
    var w3 := MoveTop(w2);
    forall r | r in w3.used
      ensures r == TOS
    {
      if r in w2.used {
        DeepOrTop(w1, r);
      }
    }
    EmptyPoolIsFree(w3.used);
    StoreConstsSucceeds(w3, 0);
    StartOwned(w.hot);
    OwnFrame(Start(w.hot), SettleData(w).value);
  }

  lemma EmptyPoolIsFree(used: set<Reg>)
    requires forall r | r in used :: r == TOS
    ensures FreeCount(used) == 7
  {
    assert Pool() - used == Pool();
  }

  lemma ReserveOwned(w: Low, n: nat)
    requires Owned(w)
    ensures var r := Reserve(w, n);
            && r.Some? && Owned(r.value) && r.value.hot == w.hot
            && (n <= 7 ==> FreeCount(r.value.used) >= n)
            && (n > 7 ==> FreeCount(r.value.used) == 7 && |r.value.vs| == 1)
  {
    hide Owned, SettleData;
    SettleOwned(w);
    if n > 7 {
      SubsetSize(Pool() - w.used, Pool());
      assert |Pool()| == 7;
    }
  }

  /** How many of the top two entries are constants, and so may need a register. */
  function Consts2(vs: seq<Loc>): nat
    requires |vs| >= 2
  {
    (if vs[|vs| - 2].Const? then 1 else 0) + if vs[|vs| - 1].Const? then 1 else 0
  }

  /** What is pulled in is in registers. */
  lemma {:induction false} EnsureShape(w: Low, n: nat)
    requires |w.vs| < n && Ensure(w, n).Some?
    ensures var r := Ensure(w, n).value;
            |r.vs| == n && forall j | 0 <= j < n - |w.vs| :: r.vs[j].InReg?
    decreases n - |w.vs|
  {
    hide Alloc;
    var (w1, r) := Alloc(w).value;
    var w2 := Emit(w1, [LdrStk(r, w.consumed % 4096)])
              .(consumed := w.consumed + 1, vs := [InReg(r)] + w.vs);
    if |w2.vs| < n {
      EnsureShape(w2, n);
      var q := Ensure(w, n).value;
      assert Ensure(w2, n) == Some(q);
      forall j | 0 <= j < n - |w.vs|
        ensures q.vs[j].InReg?
      {
        EnsureKeepsTop(w2, n);
      }
    }
  }

  lemma {:induction false} EnsureKeepsTop(w: Low, n: nat)
    requires Ensure(w, n).Some?
    ensures var r := Ensure(w, n).value;
            |r.vs| >= |w.vs| && r.vs[|r.vs| - |w.vs|..] == w.vs
    decreases n - |w.vs|
  {
    hide Alloc;
    if |w.vs| < n {
      var (w1, r) := Alloc(w).value;
      var w2 := Emit(w1, [LdrStk(r, w.consumed % 4096)])
                .(consumed := w.consumed + 1, vs := [InReg(r)] + w.vs);
      EnsureKeepsTop(w2, n);
      var q := Ensure(w, n).value;
      assert Ensure(w2, n) == Some(q);
      assert q.vs[|q.vs| - |w.vs|..] == q.vs[|q.vs| - |w2.vs|..][1..];
    }
  }

  lemma EnsureTwo(w: Low)
    requires Owned(w) && FreeCount(w.used) >= 3
    ensures var r := Ensure(w, 2);
            && r.Some? && Owned(r.value) && r.value.hot == w.hot
            && FreeCount(r.value.used) >= FreeCount(w.used) - 2 + Consts2(r.value.vs)
  {
    hide Owned, Ensure, FreeCount;
    EnsureOwned(w, 2);
    if |w.vs| < 2 {
      EnsureShape(w, 2);
    }
  }

  lemma PrepareTwo(w: Low, free: nat)
    requires Owned(w) && 3 <= free <= 7
    ensures var r := Prepare(w, free, 2);
            && r.Some? && Owned(r.value) && r.value.hot == w.hot
            && FreeCount(r.value.used) >= free - 2 + Consts2(r.value.vs)
  {
    hide Owned, Reserve, Ensure, FreeCount;
    ReserveOwned(w, free);
    EnsureTwo(Reserve(w, free).value);
  }

  lemma PrepareOwned(w: Low, free: nat, n: nat)
    requires Owned(w) && n <= free && (free <= 7 || n + 1 == free == 8)
    ensures var r := Prepare(w, free, n);
            && r.Some? && Owned(r.value) && r.value.hot == w.hot
            && FreeCount(r.value.used) >= free - n
  {
    hide Owned, Reserve, Ensure, Pool;
    ReserveOwned(w, free);
    EnsureOwned(Reserve(w, free).value, n);
  }

  // ----- ownership and supply of each token -----

  lemma Rearranged(w: Low, vs: seq<Loc>, w': Low)
    requires Owned(w)
    requires forall r :: multiset(vs)[InReg(r)] == multiset(w.vs)[InReg(r)]
    requires w'.vs == vs && w'.used == w.used && w'.cache == w.cache && w'.hot == w.hot
    ensures Owned(w')
  {
    forall r
      ensures Holders(vs, r) == Holders(w.vs, r)
    {
    }
    OwnRearrange(w, vs);
  }

  /** The operands replaced by one of them, the other being a constant. */
  lemma Replace2Owned(w: Low, l: Loc, w': Low)
    requires Owned(w) && |w.vs| >= 2
    requires w' == Replace2(w, l).(out := w'.out)
    requires var a, b := w.vs[|w.vs| - 2], w.vs[|w.vs| - 1];
             (a.Const? && b.Const? && l.Const?) || (b.Const? && l == a) || (a.Const? && l == b)
    ensures Owned(w')
  {
    hide Owned;
    var n := |w.vs|;
    assert w.vs == w.vs[..n - 2] + [w.vs[n - 2]] + [w.vs[n - 1]];
    Rearranged(w, w.vs[..n - 2] + [l], w');
  }

  lemma Replace1Owned(w: Low, l: Loc, w': Low)
    requires Owned(w) && |w.vs| >= 1
    requires w' == Replace1(w, l).(out := w'.out)
    requires w.vs[|w.vs| - 1].Const? && l.Const?
    ensures Owned(w')
  {
    hide Owned;
    var n := |w.vs|;
    assert w.vs == w.vs[..n - 1] + [w.vs[n - 1]];
    Rearranged(w, w.vs[..n - 1] + [l], w');
  }

  /** Both operands in registers, code emitted, the second operand dropped. */
  lemma CombineOwned(w: Low)
    requires Owned(w) && |w.vs| >= 2
    ensures FreeCount(w.used) >= Consts2(w.vs) ==> TwoRegs(w).Some?
    ensures TwoRegs(w).Some? ==>
              var w1 := TwoRegs(w).value;
              forall code :: var r := Remove(Emit(w1, code), |w.vs| - 1);
                             Owned(r) && r.hot == w.hot
  {
    hide Owned, ToRegAt, Pool, Remove;
    var n := |w.vs|;
    ToRegAtOwned(w, n - 2);
    if ToRegAt(w, n - 2).Some? {
      ToRegAtOwned(ToRegAt(w, n - 2).value, n - 1);
    }
    if TwoRegs(w).Some? {
      var w1 := TwoRegs(w).value;
      forall code
        ensures var r := Remove(Emit(w1, code), n - 1); Owned(r) && r.hot == w.hot
      {
        OwnFrame(w1, Emit(w1, code));
        RemoveOwned(Emit(w1, code), n - 1);
      }
    }
  }

  lemma AluOwned(w: Low, op: AluOp)
    requires Owned(w) && |w.vs| >= 2 && FreeCount(w.used) >= Consts2(w.vs)
    ensures Sound(w, AluBody(w, op))
  {
    hide Owned, TwoRegs, ImmCode, AluOp.Eval, Remove, FreeCount;
    CombineOwned(w);
    var n := |w.vs|;
    var a, b := w.vs[n - 2], w.vs[n - 1];
    var w' := AluBody(w, op).value;
    if a.Const? && b.Const? {
      Replace2Owned(w, Const(op.Eval(a.n, b.n)), w');
    } else if b.Const? && ImmCode(op, b.n, a.r).Some? {
      Replace2Owned(w, a, w');
    } else if a.Const? && op == Add && ImmCode(Add, a.n, b.r).Some? {
      Replace2Owned(w, b, w');
    }
  }

  lemma ShiftOwned(w: Low, sh: ShiftOp)
    requires Owned(w) && |w.vs| >= 2 && FreeCount(w.used) >= Consts2(w.vs)
    ensures Sound(w, ShiftBody(w, sh))
  {
    hide Owned, TwoRegs, ShiftOp.Eval, Remove, FreeCount;
    CombineOwned(w);
    var n := |w.vs|;
    var a, b := w.vs[n - 2], w.vs[n - 1];
    var w' := ShiftBody(w, sh).value;
    if a.Const? && b.Const? {
      Replace2Owned(w, Const(sh.Eval(a.n, b.n)), w');
    } else if b.Const? {
      Replace2Owned(w, a, w');
    }
  }

  lemma BinaryCmpOwned(w: Low, c: CmpOp)
    requires Owned(w) && |w.vs| >= 2 && FreeCount(w.used) >= Consts2(w.vs)
    ensures Sound(w, BinaryCmpBody(w, c))
  {
    hide Owned, TwoRegs, CmpOp.Holds, Remove, FreeCount, Imm12;
    CombineOwned(w);
    var n := |w.vs|;
    var a, b := w.vs[n - 2], w.vs[n - 1];
    var w' := BinaryCmpBody(w, c).value;
    if a.Const? && b.Const? {
      Replace2Owned(w, Const(Flag(c.Holds(a.n, b.n))), w');
    } else if b.Const? && Imm12(b.n) {
      Replace2Owned(w, a, w');
    } else if a.Const? && Imm12(a.n) {
      Replace2Owned(w, b, w');
    }
  }

  lemma SelOwned(w: Low, s: SelOp)
    requires Owned(w) && |w.vs| >= 2 && FreeCount(w.used) >= Consts2(w.vs)
    ensures Sound(w, SelBody(w, s))
  {
    hide Owned, TwoRegs, SelOp.Eval, Remove, FreeCount;
    CombineOwned(w);
    var n := |w.vs|;
    var a, b := w.vs[n - 2], w.vs[n - 1];
    if a.Const? && b.Const? {
      Replace2Owned(w, Const(s.Eval(a.n, b.n)), SelBody(w, s).value);
    }
  }

  lemma ImmAluOwned(w: Low, op: AluOp, k: Cell)
    requires Owned(w) && |w.vs| >= 1 && FreeCount(w.used) >= 1
    ensures Sound(w, ImmAluBody(w, op, k))
  {
    hide Owned, ImmCode, AluOp.Eval, FreeCount;
    match w.vs[|w.vs| - 1]
    case Const(x) =>
      Replace1Owned(w, Const(op.Eval(x, k)), ImmAluBody(w, op, k).value);
    case InReg(r) =>
      AllocSucceeds(w);
      AllocIsFresh(w);
      var t := Alloc(w).value.1;
      assert w.used + {t} - {t} == w.used;
      OwnFrame(w, ImmAluBody(w, op, k).value);
  }

  lemma DupAluOwned(w: Low, op: AluOp)
    requires Owned(w) && |w.vs| >= 1
    ensures Owned(DupAluBody(w, op)) && DupAluBody(w, op).hot == w.hot
  {
    hide Owned, AluOp.Eval, Remove;
    match w.vs[|w.vs| - 1]
    case Const(x) =>
      Replace1Owned(w, Const(op.Eval(x, x)), DupAluBody(w, op));
    case InReg(r) =>
      RemoveOwned(w, |w.vs| - 1);
      PushConstOwned(Remove(w, |w.vs| - 1), 0);
      if op != Sub && op != Xor {
        OwnFrame(w, DupAluBody(w, op));
      }
  }

  lemma UnaryOwned(w: Low, x: Cell, code: seq<Op>)
    requires Owned(w) && |w.vs| >= 1
    ensures w.vs[|w.vs| - 1].Const? ==> Owned(Replace1(w, Const(x)))
    ensures Owned(Emit(w, code))
  {
    hide Owned;
    if w.vs[|w.vs| - 1].Const? {
      Replace1Owned(w, Const(x), Replace1(w, Const(x)));
    }
    OwnFrame(w, Emit(w, code));
  }

  lemma ImmShiftOwned(w: Low, sh: ShiftOp, k: ShiftCount)
    requires Owned(w) && |w.vs| >= 1
    ensures Owned(ImmShiftBody(w, sh, k)) && ImmShiftBody(w, sh, k).hot == w.hot
  {
    hide Owned, ShiftOp.Eval;
    match w.vs[|w.vs| - 1]
    case Const(x) => UnaryOwned(w, sh.Eval(x, k), []);
    case InReg(r) => UnaryOwned(w, 0, [ShiftImm(sh, r, r, k)]);
  }

  lemma DupShiftAluOwned(w: Low, op: AluOp, sh: ShiftOp, k: ShiftCount)
    requires Owned(w) && |w.vs| >= 1
    ensures Owned(DupShiftAluBody(w, op, sh, k)) && DupShiftAluBody(w, op, sh, k).hot == w.hot
  {
    hide Owned, ShiftOp.Eval, AluOp.Eval;
    match w.vs[|w.vs| - 1]
    case Const(x) => UnaryOwned(w, op.Eval(x, sh.Eval(x, k)), []);
    case InReg(r) => UnaryOwned(w, 0, [AluShifted(op, sh, r, r, r, k)]);
  }

  lemma ZeroCmpOwned(w: Low, c: CmpOp)
    requires Owned(w) && |w.vs| >= 1
    ensures Owned(ZeroCmpBody(w, c)) && ZeroCmpBody(w, c).hot == w.hot
  {
    hide Owned, CmpOp.Holds;
    match w.vs[|w.vs| - 1]
    case Const(x) => UnaryOwned(w, Flag(c.Holds(x, 0)), []);
    case InReg(r) => UnaryOwned(w, 0, [CmpImm(r, 0), Csetm(r, CondOf(c))]);
  }

  lemma PickOwned(w: Low, n: nat)
    requires Owned(w) && |w.vs| >= n + 1 && FreeCount(w.used) >= 1
    ensures Sound(w, PickBody(w, n))
  {
    hide Owned, CopyOf, FreeCount;
    CopyOwned(w, w.vs[|w.vs| - 1 - n]);
  }

  lemma RollPermutes<T>(s: seq<T>, n: nat)
    requires n < |s|
    ensures multiset(Rolled(s, n)) == multiset(s)
  {
    var k := |s| - 1 - n;
    assert s == s[..k] + [s[k]] + s[k + 1..];
  }

  lemma MinusRotPermutes<T>(s: seq<T>)
    requires |s| >= 3
    ensures multiset(MinusRotated(s)) == multiset(s)
  {
    var n := |s|;
    assert s == s[..n - 3] + s[n - 3..n - 1] + [s[n - 1]];
  }

  lemma RollOwned(w: Low, n: nat)
    requires Owned(w) && |w.vs| >= n + 1
    ensures Owned(RollBody(w, n))
  {
    hide Owned, Rolled;
    RollPermutes(w.vs, n);
    Rearranged(w, Rolled(w.vs, n), RollBody(w, n));
  }

  lemma MinusRotOwned(w: Low)
    requires Owned(w) && |w.vs| >= 3
    ensures Owned(MinusRotBody(w))
  {
    hide Owned, MinusRotated;
    MinusRotPermutes(w.vs);
    Rearranged(w, MinusRotated(w.vs), MinusRotBody(w));
  }

  lemma TuckOwned(w: Low)
    requires Owned(w) && |w.vs| >= 2 && FreeCount(w.used) >= 1
    ensures Sound(w, TuckBody(w))
  {
    hide Owned, CopyOf, FreeCount;
    var n := |w.vs|;
    CopyOwned(w, w.vs[n - 1]);
    var (w1, c) := CopyOf(w, w.vs[n - 1]).value;
    assert w.vs == w.vs[..n - 2] + w.vs[n - 2..];
    Rearranged(Push(w1, c), TuckBody(w).value.vs, TuckBody(w).value);
  }

  lemma LoopIdxOwned(w: Low, slot: nat)
    requires Owned(w) && FreeCount(w.used) >= 1
    ensures Sound(w, LoopIdxBody(w, slot))
  {
    hide Owned, FreeCount;
    AllocSucceeds(w);
    AllocIsFresh(w);
    var r := Alloc(w).value.1;
    OwnFresh(w, r, w.vs + [InReg(r)], multiset{});
    OwnFrame(w.(used := w.used + {r}, vs := w.vs + [InReg(r)]), LoopIdxBody(w, slot).value);
  }

  /** A copy onto the window, the constant below it dropped. */
  lemma CopyOverConst(w: Low, w1: Low, c: Loc)
    requires |w.vs| >= 1 && w.vs[|w.vs| - 1].Const? && w1.vs == w.vs
    requires Owned(Push(w1, c))
    ensures Owned(Replace1(w1, c))
  {
    hide Owned;
    var n := |w.vs|;
    assert w.vs + [c] == w.vs[..n - 1] + [w.vs[n - 1]] + [c];
    Rearranged(Push(w1, c), w.vs[..n - 1] + [c], Replace1(w1, c));
  }

  lemma FetchOwned(w: Low)
    requires Owned(w) && |w.vs| >= 1 && FreeCount(w.used) >= 2
    ensures Sound(w, FetchBody(w))
  {
    hide Owned, CopyOf, ToRegAt, FreeCount;
    var n := |w.vs|;
    var a := w.vs[n - 1];
    if a.Const? && Addr(a.n) in w.cache {
      var l := InReg(w.cache[Addr(a.n)]);
      CopyOwned(w, l);
      var (w1, c) := CopyOf(w, l).value;
      CopyOverConst(w, w1, c);
    } else if a.Const? && Addr(a.n) in w.hot {
      AllocSucceeds(w);
      AllocIsFresh(w);
      var (w1, rc) := Alloc(w).value;
      OwnCacheInsert(w, Addr(a.n), rc);
      var w2 := Emit(w1, LoadImm64(rc, a.n) + [Ldr0(rc, rc)]);
      var w3 := w2.(cache := w2.cache[Addr(a.n) := rc]);
      OwnFrame(w.(used := w.used + {rc}, cache := w.cache[Addr(a.n) := rc]), w3);
      CopyOwned(w3, InReg(rc));
      var (w4, c) := CopyOf(w3, InReg(rc)).value;
      CopyOverConst(w3, w4, c);
    } else {
      ToRegAtOwned(w, n - 1);
      var w1 := ToRegAt(w, n - 1).value;
      OwnFrame(w1, Emit(w1, [Ldr0(w1.vs[n - 1].r, w1.vs[n - 1].r)]));
    }
  }

  lemma CFetchOwned(w: Low)
    requires Owned(w) && |w.vs| >= 1 && FreeCount(w.used) >= 1
    ensures Sound(w, CFetchBody(w))
  {
    hide Owned, ToRegAt, FreeCount;
    var n := |w.vs|;
    ToRegAtOwned(w, n - 1);
    var w1 := ToRegAt(w, n - 1).value;
    OwnFrame(w1, Emit(w1, [Ldrb0(w1.vs[n - 1].r, w1.vs[n - 1].r)]));
  }

  lemma StoreOwned(w: Low, byte: bool)
    requires Owned(w) && |w.vs| >= 2 && FreeCount(w.used) >= Consts2(w.vs)
    ensures Sound(w, StoreBody(w, byte))
  {
    hide Owned, ToRegAt, FreeCount, Remove;
    var n := |w.vs|;
    ToRegAtOwned(w, n - 1);
    var w1 := ToRegAt(w, n - 1).value;
    ToRegAtOwned(w1, n - 2);
    var w2 := ToRegAt(w1, n - 2).value;
    var w3 := Emit(w2, [StoreCode(byte, w2.vs[n - 2].r, w2.vs[n - 1].r)]);
    OwnFrame(w2, w3);
    RemoveOwned(w3, n - 1);
    RemoveKeepsLength(w3, n - 1);
    RemoveOwned(Remove(w3, n - 1), n - 2);
  }

  lemma RemoveKeepsLength(w: Low, i: nat)
    requires i < |w.vs|
    ensures |Remove(w, i).vs| == |w.vs| - 1
  {
  }

  lemma MemOwned(w: Low, m: MemOp)
    requires Owned(w)
    ensures Sound(w, MemTok(w, m))
  {
    hide Owned, Prepare, Reserve, Ensure, FetchBody, CFetchBody, StoreBody, FreeCount, ClearCache;
    match m
    case Fetch =>
      PrepareOwned(w, 3, 1);
      FetchOwned(Prepare(w, 3, 1).value);
    case CFetch =>
      PrepareOwned(w, 3, 1);
      CFetchOwned(Prepare(w, 3, 1).value);
    case _ =>
      ReserveOwned(w, 3);
      var w1 := Reserve(w, 3).value;
      ClearCacheIs(w1);
      OwnClearCache(w1);
      EnsureTwo(ClearCache(w1));
      StoreOwned(Ensure(ClearCache(w1), 2).value, m == CStore);
  }

  lemma ClearCacheIs(w: Low)
    ensures ClearCache(w).vs == w.vs && ClearCache(w).hot == w.hot
    ensures ClearCache(w).consumed == w.consumed && ClearCache(w).out == w.out
    ensures FreeCount(ClearCache(w).used) >= FreeCount(w.used)
    ensures ClearCache(w).cache == map[]
  {
    SubsetSize(Pool() - w.used, Pool() - ClearCache(w).used);
  }

  /** The tokens that pull operands without reserving registers, with too few left. */
  predicate Starved(w: Low, t: Tok) {
    t.Stk? && (t.s == Drop || t.s == Nip || t.s == MinusRot) && FreeCount(w.used) < Pulls(t) - |w.vs|
  }

  lemma ArithmeticOwned(w: Low, t: Tok)
    requires t.Alu? || t.ImmAlu? || t.DupAlu? || t.Shift? || t.ImmShift? || t.DupShiftAlu?
    requires Owned(w) && ValidTok(t)
    ensures LowerTok(w, t).Some? && Sound(w, LowerTok(w, t))
  {
    hide Owned, Prepare, FreeCount, AluBody, ImmAluBody, DupAluBody, ShiftBody, ImmShiftBody, DupShiftAluBody;
    match t
    case Alu(op) =>
      PrepareTwo(w, 4);
      AluOwned(Prepare(w, 4, 2).value, op);
    case ImmAlu(op, k) =>
      PrepareOwned(w, 2, 1);
      ImmAluOwned(Prepare(w, 2, 1).value, op, k);
    case DupAlu(op) =>
      PrepareOwned(w, 2, 1);
      DupAluOwned(Prepare(w, 2, 1).value, op);
    case Shift(sh) =>
      PrepareTwo(w, 3);
      ShiftOwned(Prepare(w, 3, 2).value, sh);
    case ImmShift(sh, k) =>
      PrepareOwned(w, 1, 1);
      ImmShiftOwned(Prepare(w, 1, 1).value, sh, k);
    case DupShiftAlu(op, sh, k) =>
      PrepareOwned(w, 1, 1);
      DupShiftAluOwned(Prepare(w, 1, 1).value, op, sh, k);
  }

  /** A token finds its registers exactly when it is not starved, and keeps ownership. */
  lemma TokOwned(w: Low, t: Tok)
    requires Owned(w) && ValidTok(t)
    ensures LowerTok(w, t).None? <==> Starved(w, t)
    ensures LowerTok(w, t).Some? ==> Sound(w, LowerTok(w, t))
  {
    hide Owned, Prepare, Reserve, SettleData, MemTok, StkTok, CmpTok, FreeCount,
         AluBody, ImmAluBody, DupAluBody, ShiftBody, ImmShiftBody, DupShiftAluBody, SelBody,
         PickTok, RollTok, LoopIdxBody;
    if t.Alu? || t.ImmAlu? || t.DupAlu? || t.Shift? || t.ImmShift? || t.DupShiftAlu? {
      ArithmeticOwned(w, t);
      return;
    }
    match t
    case Lit(n) => PushConstOwned(w, n);
    case Stk(s) => StkOwned(w, s);
    case Cmp(c) => CmpOwned(w, c);
    case Sel(s) =>
      PrepareTwo(w, 3);
      SelOwned(Prepare(w, 3, 2).value, s);
    case Mem(m) => MemOwned(w, m);
    case PickN(n) => PickTokOwned(w, n);
    case RollN(n) => RollTokOwned(w, n);
    case LoopIdx(slot) =>
      ReserveOwned(w, 1);
      LoopIdxOwned(Reserve(w, 1).value, slot);
    case Call(xt) =>
      SettleOwned(w);
      OwnFrame(SettleData(w).value, LowerTok(w, t).value);
  }

  lemma PickTokOwned(w: Low, n: nat)
    requires Owned(w) && n <= 6
    ensures Sound(w, PickTok(w, n))
  {
    hide Owned, Prepare, FreeCount, PickBody;
    PrepareOwned(w, n + 2, n + 1);
    PickOwned(Prepare(w, n + 2, n + 1).value, n);
  }

  lemma RollTokOwned(w: Low, n: nat)
    requires Owned(w) && n <= 6
    ensures Sound(w, RollTok(w, n))
  {
    hide Owned, Prepare, FreeCount;
    if n > 0 {
      PrepareOwned(w, n + 1, n + 1);
      RollOwned(Prepare(w, n + 1, n + 1).value, n);
    }
  }

  lemma CmpOwned(w: Low, c: CmpOp)
    requires Owned(w)
    ensures Sound(w, CmpTok(w, c))
  {
    hide Owned, Prepare, FreeCount, ZeroCmpBody, BinaryCmpBody;
    if c.IsZeroTest() {
      PrepareOwned(w, 4, 1);
      ZeroCmpOwned(Prepare(w, 4, 1).value, c);
    } else {
      PrepareTwo(w, 4);
      BinaryCmpOwned(Prepare(w, 4, 2).value, c);
    }
  }

  lemma CacheWithinHot(w: Low)
    requires Owned(w)
    ensures |w.cache.Keys| <= |w.hot|
  {
    SubsetSize(w.cache.Keys, w.hot);
  }

  lemma StkOwned(w: Low, s: StackOp)
    requires Owned(w)
    ensures StkTok(w, s).None? <==> Starved(w, Stk(s))
    ensures StkTok(w, s).Some? ==> Sound(w, StkTok(w, s))
  {
    hide Owned, Prepare, Ensure, FreeCount, PickTok, RollTok, TuckBody, MinusRotBody, Remove;
    match s
    case Dup => PickTokOwned(w, 0);
    case Over => PickTokOwned(w, 1);
    case Swap => RollTokOwned(w, 1);
    case Rot => RollTokOwned(w, 2);
    case Tuck =>
      PrepareOwned(w, 3, 2);
      TuckOwned(Prepare(w, 3, 2).value);
    case _ => PullThen(w, s);
  }

  lemma PullThen(w: Low, s: StackOp)
    requires Owned(w) && (s == Drop || s == Nip || s == MinusRot)
    ensures StkTok(w, s).None? <==> Starved(w, Stk(s))
    ensures StkTok(w, s).Some? ==> Sound(w, StkTok(w, s))
  {
    hide Owned, Ensure, FreeCount, Remove;
    var n := Pulls(Stk(s));
    EnsureOwned(w, n);
    if Ensure(w, n).Some? {
      var w1 := Ensure(w, n).value;
      if s == MinusRot {
        MinusRotOwned(w1);
      } else {
        RemoveOwned(w1, |w1.vs| - n);
      }
    }
  }

  /** The token at `i` is the one a run lowered from `w` fails on. */
  predicate StarvedAt(w: Low, toks: seq<Tok>, i: nat)
    requires i < |toks|
  {
    var r := LowerToks(w, toks[..i]);
    r.Some? && Starved(r.value, toks[i])
  }

  lemma StarvedNext(w: Low, toks: seq<Tok>, i: nat)
    requires toks != [] && LowerTok(w, toks[0]).Some? && i < |toks| - 1
    ensures StarvedAt(w, toks, i + 1) == StarvedAt(LowerTok(w, toks[0]).value, toks[1..], i)
  {
    hide LowerTok, Starved;
    assert toks[..i + 1][1..] == toks[1..][..i];
  }

  lemma {:induction false} ToksOwned(w: Low, toks: seq<Tok>)
    requires Owned(w) && ValidToks(toks)
    ensures LowerToks(w, toks).None? <==> exists i | 0 <= i < |toks| :: StarvedAt(w, toks, i)
    ensures LowerToks(w, toks).Some? ==> Sound(w, LowerToks(w, toks))
    decreases |toks|
  {
    hide Owned, LowerTok, Starved;
    if toks != [] {
      TokOwned(w, toks[0]);
      assert toks[..0] == [];
      var r := LowerTok(w, toks[0]);
      if r.None? {
        assert StarvedAt(w, toks, 0);
      } else {
        ToksOwned(r.value, toks[1..]);
        StarvedLater(w, toks);
      }
    }
  }

  lemma StarvedLater(w: Low, toks: seq<Tok>)
    requires toks != [] && LowerTok(w, toks[0]).Some? && !Starved(w, toks[0])
    ensures var w', rest := LowerTok(w, toks[0]).value, toks[1..];
            (exists i | 0 <= i < |toks| :: StarvedAt(w, toks, i))
            <==> exists i | 0 <= i < |rest| :: StarvedAt(w', rest, i)
  {
    hide LowerTok, Starved, StarvedAt;
    var w', rest := LowerTok(w, toks[0]).value, toks[1..];
    NotStarvedFirst(w, toks);
    if i :| 0 <= i < |toks| && StarvedAt(w, toks, i) {
      StarvedNext(w, toks, i - 1);
      assert StarvedAt(w', rest, i - 1);
    }
    if i :| 0 <= i < |rest| && StarvedAt(w', rest, i) {
      StarvedNext(w, toks, i);
      assert StarvedAt(w, toks, i + 1);
    }
  }

  lemma NotStarvedFirst(w: Low, toks: seq<Tok>)
    requires toks != [] && !Starved(w, toks[0])
    ensures !StarvedAt(w, toks, 0)
  {
    hide Starved;
    assert toks[..0] == [];
  }

  /** After every prefix of a run: each live register belongs to exactly one window entry
      or one cached cell, never to both, and `used` says exactly which are live. */
  lemma OwnershipHolds(toks: seq<Tok>, i: nat, w: Low)
    requires ValidToks(toks) && i <= |toks|
    requires LowerToks(Start(HotCells(toks)), toks[..i]) == Some(w)
    ensures Owned(w)
  {
    StartOwned(HotCells(toks));
    ToksOwned(Start(HotCells(toks)), toks[..i]);
  }

  /** `alloc` fails exactly in the runs in which a `drop`, `nip` or `-rot` pulls more
      operands than there are free registers. */
  lemma PoolExactly(toks: seq<Tok>)
    requires ValidToks(toks)
    ensures Lowered(toks).None? <==> exists i | 0 <= i < |toks| :: StarvedAt(Start(HotCells(toks)), toks, i)
  {
    hide Owned, HotCells, SettleData, StarvedAt;
    var w := Start(HotCells(toks));
    StartOwned(HotCells(toks));
    ToksOwned(w, toks);
    if LowerToks(w, toks).Some? {
      SettleOwned(LowerToks(w, toks).value);
    }
  }

  /** Cached cells hold at most as many registers as there are hot addresses: with four,
      three operands always fit. */
  lemma FewHotNeverStarve(w: Low, t: Tok)
    requires Owned(w) && |w.hot| <= 4
    ensures !Starved(w, t)
  {
    hide Owned, FreeCount;
    CacheWithinHot(w);
    FreeAtLeast(w);
  }

  /** Seven pool registers suffice: a run with at most four hot addresses is always
      lowered, whatever spills occur on the way. */
  lemma PoolSuffices(toks: seq<Tok>)
    requires ValidToks(toks) && |HotCells(toks)| <= 4
    ensures Lowered(toks).Some?
  {
    hide Owned, HotCells, Starved, Lowered;
    var w := Start(HotCells(toks));
    StartOwned(HotCells(toks));
    PoolExactly(toks);
    forall i | 0 <= i < |toks|
      ensures !StarvedAt(w, toks, i)
    {
      ToksOwned(w, toks[..i]);
      if LowerToks(w, toks[..i]).Some? {
        FewHotNeverStarve(LowerToks(w, toks[..i]).value, toks[i]);
      }
    }
  }
}
