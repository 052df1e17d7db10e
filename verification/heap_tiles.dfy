/**
 The boundary tags of the heap (k_mm.c): every region is tiled by its blocks, and each
 header tells whether the block, and the block before it, is free.
 */
module HeapTiles {

  type Addr = nat

  const NULL: Addr := 0

  /** prev is meaningful only while the block before is free. */
  datatype Hdr = Hdr(prev: Addr, size: nat, free: bool, prevFree: bool)

  /** Where a region's blocks start, and its sentinel. */
  datatype Region = Region(start: Addr, end: Addr)

  datatype Config = Config(
    head: nat,      // MMLIST_HEAD_SIZE
    minSize: nat,   // MM_MIN_SIZE
    maxSize: nat)   // MM_MAX_SIZE

  datatype Tiling = Tiling(
    cfg: Config,
    hdr: map<Addr, Hdr>,         // the headers in memory
    before: map<Addr, Addr>,     // the block before each block but a region's first
    home: map<Addr, Region>)     // the region each block belongs to

  /** Headers and blocks are whole multiples of the alignment, and two links fit into the smallest block. */
  ghost predicate ConfigOk(cfg: Config) {
    && cfg.head > 0 && cfg.head % 8 == 0
    && cfg.minSize >= 16 && cfg.minSize % 8 == 0
  }

  function Next(t: Tiling, a: Addr): Addr
    requires a in t.hdr
  {
    a + t.cfg.head + t.hdr[a].size
  }

  lemma Eights(a: nat, b: nat, c: nat)
    requires a % 8 == 0 && b % 8 == 0 && c % 8 == 0
    ensures (a + b + c) % 8 == 0 && (b + c) % 8 == 0
  {
    assert a == 8 * (a / 8) && b == 8 * (b / 8) && c == 8 * (c / 8);
  }

  lemma EightsLess(a: nat, b: nat)
    requires a % 8 == 0 && b % 8 == 0 && b <= a
    ensures (a - b) % 8 == 0
  {
    assert a == 8 * (a / 8) && b == 8 * (b / 8);
  }

  predicate IsFirst(t: Tiling, a: Addr) {
    a in t.home && a == t.home[a].start
  }

  predicate IsLast(t: Tiling, a: Addr) {
    a in t.home && a == t.home[a].end
  }

  /** The sentinel at the end of a region is never free and has no room. */
  ghost predicate LastOk(t: Tiling, a: Addr)
    requires a in t.hdr
  {
    IsLast(t, a) ==> !t.hdr[a].free && t.hdr[a].size == 0
  }

  /** The first block of a region holds the region's description. */
  ghost predicate FirstOk(t: Tiling, a: Addr)
    requires a in t.hdr
  {
    IsFirst(t, a) ==> !t.hdr[a].free && !t.hdr[a].prevFree && !IsLast(t, a)
  }

  /** A block in the middle has room for two links. */
  ghost predicate SizeOk(t: Tiling, a: Addr)
    requires ConfigOk(t.cfg) && a in t.hdr
  {
    && a % 8 == 0 && t.hdr[a].size % 8 == 0
    && (!IsFirst(t, a) && !IsLast(t, a) ==> t.hdr[a].size >= t.cfg.minSize)
  }

  ghost predicate HomeOk(t: Tiling, a: Addr)
    requires ConfigOk(t.cfg) && a in t.hdr
  {
    && a in t.home && 0 < t.home[a].start <= a <= t.home[a].end
    && t.home[a].end - t.home[a].start < t.cfg.maxSize
    && (!IsLast(t, a) ==> Next(t, a) <= t.home[a].end)
  }

  /** The tags on both sides of the border after a block agree with the block, and no two free blocks touch. */
  ghost predicate BorderOk(t: Tiling, a: Addr)
    requires a in t.hdr
  {
    !IsLast(t, a) ==>
      var n := Next(t, a);
      && n in t.hdr && n in t.home && a in t.home && t.home[n] == t.home[a] && !IsFirst(t, n)
      && n in t.before && t.before[n] == a
      && t.hdr[n].prevFree == t.hdr[a].free
      && (t.hdr[a].free ==> t.hdr[n].prev == a && !t.hdr[n].free)
  }

  /** Every block but a first one ends the block before it. */
  ghost predicate BeforeOk(t: Tiling, a: Addr)
    requires a in t.hdr
  {
    !IsFirst(t, a) ==>
      a in t.before && t.before[a] in t.hdr && !IsLast(t, t.before[a]) && Next(t, t.before[a]) == a
  }

  ghost predicate BlockOk(t: Tiling, a: Addr)
    requires ConfigOk(t.cfg) && a in t.hdr
  {
    LastOk(t, a) && FirstOk(t, a) && SizeOk(t, a) && HomeOk(t, a) && BorderOk(t, a) && BeforeOk(t, a)
  }

  /** Blocks do not overlap. */
  ghost predicate Apart(t: Tiling, a: Addr, b: Addr)
    requires a in t.hdr && b in t.hdr
  {
    a < b ==> Next(t, a) <= b
  }

  ghost predicate Tiles(t: Tiling) {
    && ConfigOk(t.cfg)
    && (forall a {:trigger BlockOk(t, a)} | a in t.hdr :: BlockOk(t, a))
    && (forall a, b {:trigger Apart(t, a, b)} | a in t.hdr && b in t.hdr :: Apart(t, a, b))
  }

  /** A block a client may own or free: neither a region's description nor its sentinel. */
  predicate Inner(t: Tiling, a: Addr) {
    a in t.hdr && !IsFirst(t, a) && !IsLast(t, a)
  }

  /** The blocks in use, with their sizes. */
  function Used(t: Tiling): map<Addr, nat> {
    map a | a in t.hdr && Inner(t, a) && !t.hdr[a].free :: t.hdr[a].size
  }

  /** The free blocks, with their sizes. */
  function Free(t: Tiling): map<Addr, nat> {
    map a | a in t.hdr && t.hdr[a].free :: t.hdr[a].size
  }

  // ----- What happens at one border -----

  /** A free block is taken whole. */
  function Take(t: Tiling, a: Addr): Tiling
    requires a in t.hdr && Next(t, a) in t.hdr
  {
    var n := Next(t, a);
    t.(hdr := t.hdr[a := t.hdr[a].(free := false)][n := t.hdr[n].(prevFree := false)])
  }

  /** A used block becomes free. */
  function Give(t: Tiling, a: Addr): Tiling
    requires a in t.hdr && Next(t, a) in t.hdr
  {
    var n := Next(t, a);
    t.(hdr := t.hdr[a := t.hdr[a].(free := true)][n := t.hdr[n].(prev := a, prevFree := true)])
  }

  /** A used block takes over the free block behind it. */
  function Absorb(t: Tiling, a: Addr): Tiling
    requires a in t.hdr && Next(t, a) in t.hdr && Next(t, Next(t, a)) in t.hdr
  {
    var b := Next(t, a);
    var n := Next(t, b);
    t.(hdr := t.hdr[a := t.hdr[a].(size := t.hdr[a].size + t.cfg.head + t.hdr[b].size)]
                   [n := t.hdr[n].(prev := a, prevFree := false)] - {b},
       before := t.before[n := a] - {b}, home := t.home - {b})
  }

  /** A used block is taken over by the free block before it, which is then in use. */
  function Join(t: Tiling, p: Addr): Tiling
    requires p in t.hdr && Next(t, p) in t.hdr && Next(t, Next(t, p)) in t.hdr
  {
    var a := Next(t, p);
    var n := Next(t, a);
    t.(hdr := t.hdr[p := t.hdr[p].(size := t.hdr[p].size + t.cfg.head + t.hdr[a].size, free := false)] - {a},
       before := t.before[n := p] - {a}, home := t.home - {a})
  }

  /** A used block keeps s bytes; the rest becomes a free block. */
  function Split(t: Tiling, a: Addr, s: nat): Tiling
    requires a in t.hdr && a in t.home && Next(t, a) in t.hdr && s + t.cfg.head <= t.hdr[a].size
  {
    var n := Next(t, a);
    var f := a + t.cfg.head + s;
    t.(hdr := t.hdr[a := t.hdr[a].(size := s)]
                   [f := Hdr(a, t.hdr[a].size - s - t.cfg.head, true, false)]
                   [n := t.hdr[n].(prev := f, prevFree := true)],
       before := t.before[f := a][n := f], home := t.home[f := t.home[a]])
  }

  /** The blocks around b that its own tags speak about. */
  ghost predicate AroundOk(t: Tiling, b: Addr)
    requires ConfigOk(t.cfg) && b in t.hdr
  {
    && BlockOk(t, b)
    && (!IsLast(t, b) ==> BlockOk(t, Next(t, b)))
    && (!IsFirst(t, b) ==> BlockOk(t, t.before[b]))
  }

  lemma Around(t: Tiling, b: Addr)
    requires Tiles(t) && b in t.hdr
    ensures AroundOk(t, b)
  {
    assert BlockOk(t, b);
    if !IsLast(t, b) {
      assert BlockOk(t, Next(t, b));
    }
    if !IsFirst(t, b) {
      assert BlockOk(t, t.before[b]);
    }
  }

  lemma FreeIsInner(t: Tiling, a: Addr)
    requires Tiles(t) && a in t.hdr && t.hdr[a].free
    ensures Inner(t, a) && Next(t, a) in t.hdr && Next(t, a) > a
  {
    assert BlockOk(t, a);
  }

  lemma TakeBlock(t: Tiling, a: Addr, b: Addr)
    requires ConfigOk(t.cfg) && a in t.hdr && b in t.hdr && AroundOk(t, a) && AroundOk(t, b)
    requires t.hdr[a].free
    ensures BlockOk(Take(t, a), b)
  {
  }

  lemma TakeMaps(t: Tiling, a: Addr)
    requires Inner(t, a) && t.hdr[a].free && Next(t, a) in t.hdr && !t.hdr[Next(t, a)].free
    ensures Used(Take(t, a)) == Used(t)[a := t.hdr[a].size]
    ensures Free(Take(t, a)) == Free(t) - {a}
  {
    var r := Take(t, a);
    assert r.hdr.Keys == t.hdr.Keys;
    assert Used(r).Keys == Used(t).Keys + {a};
    assert Free(r).Keys == Free(t).Keys - {a};
  }

  lemma TakeOk(t: Tiling, a: Addr)
    requires Tiles(t) && a in t.hdr && t.hdr[a].free
    ensures Next(t, a) in t.hdr
    ensures Tiles(Take(t, a))
  {
    FreeIsInner(t, a);
    var r := Take(t, a);
    Around(t, a);
    forall b | b in r.hdr ensures BlockOk(r, b) {
      Around(t, b);
      TakeBlock(t, a, b);
    }
    forall b, c | b in r.hdr && c in r.hdr ensures Apart(r, b, c) {
      assert Apart(t, b, c);
    }
  }

  // ----- Give -----

  /** A used block none of whose neighbours is free. */
  ghost predicate Alone(t: Tiling, a: Addr) {
    && Inner(t, a) && !t.hdr[a].free && !t.hdr[a].prevFree
    && Next(t, a) in t.hdr && Next(t, a) != a && !t.hdr[Next(t, a)].free
  }

  lemma GiveBlock(t: Tiling, a: Addr, b: Addr)
    requires ConfigOk(t.cfg) && a in t.hdr && b in t.hdr && AroundOk(t, a) && AroundOk(t, b)
    requires Alone(t, a)
    ensures BlockOk(Give(t, a), b)
  {
  }

  lemma GiveMaps(t: Tiling, a: Addr)
    requires Alone(t, a)
    ensures Used(Give(t, a)) == Used(t) - {a}
    ensures Free(Give(t, a)) == Free(t)[a := t.hdr[a].size]
  {
    var r := Give(t, a);
    assert r.hdr.Keys == t.hdr.Keys;
    assert Used(r).Keys == Used(t).Keys - {a};
    assert Free(r).Keys == Free(t).Keys + {a};
  }

  lemma GiveOk(t: Tiling, a: Addr)
    requires Tiles(t) && Alone(t, a)
    ensures Tiles(Give(t, a))
  {
    var r := Give(t, a);
    Around(t, a);
    forall b | b in r.hdr ensures BlockOk(r, b) {
      Around(t, b);
      GiveBlock(t, a, b);
    }
    forall b, c | b in r.hdr && c in r.hdr ensures Apart(r, b, c) {
      assert Apart(t, b, c);
    }
  }

  // ----- Absorb -----

  /** A used block with a free one behind it. */
  ghost predicate Absorbs(t: Tiling, a: Addr) {
    && Inner(t, a) && !t.hdr[a].free
    && Next(t, a) in t.hdr && Inner(t, Next(t, a)) && t.hdr[Next(t, a)].free
    && Next(t, Next(t, a)) in t.hdr && !t.hdr[Next(t, Next(t, a))].free
  }

  lemma AbsorbBlock(t: Tiling, a: Addr, b: Addr)
    requires ConfigOk(t.cfg) && Absorbs(t, a) && b in t.hdr && b != Next(t, a)
    requires AroundOk(t, a) && AroundOk(t, Next(t, a)) && AroundOk(t, b)
    ensures BlockOk(Absorb(t, a), b)
  {
    AbsorbShape(t, a, b);
    AbsorbBorder(t, a, b);
    AbsorbBefore(t, a, b);
  }

  lemma AbsorbShape(t: Tiling, a: Addr, b: Addr)
    requires ConfigOk(t.cfg) && Absorbs(t, a) && b in t.hdr && b != Next(t, a)
    requires BlockOk(t, a) && BlockOk(t, Next(t, a)) && BlockOk(t, b)
    ensures LastOk(Absorb(t, a), b) && FirstOk(Absorb(t, a), b) && SizeOk(Absorb(t, a), b)
  {
    Eights(t.hdr[a].size, t.cfg.head, t.hdr[Next(t, a)].size);
  }

  lemma AbsorbBefore(t: Tiling, a: Addr, b: Addr)
    requires ConfigOk(t.cfg) && Absorbs(t, a) && b in t.hdr && b != Next(t, a)
    requires AroundOk(t, a) && AroundOk(t, Next(t, a)) && AroundOk(t, b)
    ensures BeforeOk(Absorb(t, a), b) && HomeOk(Absorb(t, a), b)
  {
  }

  lemma AbsorbBorder(t: Tiling, a: Addr, b: Addr)
    requires ConfigOk(t.cfg) && Absorbs(t, a) && b in t.hdr && b != Next(t, a)
    requires AroundOk(t, a) && AroundOk(t, Next(t, a)) && AroundOk(t, b)
    ensures BorderOk(Absorb(t, a), b)
  {
  }

  lemma AbsorbMaps(t: Tiling, a: Addr)
    requires Absorbs(t, a)
    ensures Used(Absorb(t, a)) == Used(t)[a := t.hdr[a].size + t.cfg.head + t.hdr[Next(t, a)].size]
    ensures Free(Absorb(t, a)) == Free(t) - {Next(t, a)}
  {
    var r := Absorb(t, a);
    assert r.hdr.Keys == t.hdr.Keys - {Next(t, a)};
    assert Used(r).Keys == Used(t).Keys;
    assert Free(r).Keys == Free(t).Keys - {Next(t, a)};
  }

  lemma AbsorbApart(t: Tiling, a: Addr, b: Addr, c: Addr)
    requires Tiles(t) && Absorbs(t, a) && b in t.hdr && c in t.hdr && b != Next(t, a) && c != Next(t, a)
    ensures Apart(Absorb(t, a), b, c)
  {
    assert Apart(t, b, c) && Apart(t, a, c) && Apart(t, Next(t, a), c) && Apart(t, c, Next(t, a));
  }

  lemma AbsorbOk(t: Tiling, a: Addr)
    requires Tiles(t) && Absorbs(t, a)
    ensures Tiles(Absorb(t, a))
  {
    var r := Absorb(t, a);
    Around(t, a);
    Around(t, Next(t, a));
    forall b | b in r.hdr ensures BlockOk(r, b) {
      Around(t, b);
      AbsorbBlock(t, a, b);
    }
    forall b, c | b in r.hdr && c in r.hdr ensures Apart(r, b, c) {
      AbsorbApart(t, a, b, c);
    }
  }

  // ----- Join -----

  /** A free block with a used one behind it that no free block follows. */
  ghost predicate Joins(t: Tiling, p: Addr) {
    && Inner(t, p) && t.hdr[p].free
    && Next(t, p) in t.hdr && Inner(t, Next(t, p)) && !t.hdr[Next(t, p)].free
    && Next(t, Next(t, p)) in t.hdr && !t.hdr[Next(t, Next(t, p))].free
  }

  lemma JoinBlock(t: Tiling, p: Addr, b: Addr)
    requires ConfigOk(t.cfg) && Joins(t, p) && b in t.hdr && b != Next(t, p)
    requires AroundOk(t, p) && AroundOk(t, Next(t, p)) && AroundOk(t, b)
    ensures BlockOk(Join(t, p), b)
  {
    Eights(t.hdr[p].size, t.cfg.head, t.hdr[Next(t, p)].size);
    JoinBorder(t, p, b);
    JoinBefore(t, p, b);
  }

  lemma JoinBefore(t: Tiling, p: Addr, b: Addr)
    requires ConfigOk(t.cfg) && Joins(t, p) && b in t.hdr && b != Next(t, p)
    requires AroundOk(t, p) && AroundOk(t, Next(t, p)) && AroundOk(t, b)
    ensures BeforeOk(Join(t, p), b) && HomeOk(Join(t, p), b)
  {
  }

  lemma JoinBorder(t: Tiling, p: Addr, b: Addr)
    requires ConfigOk(t.cfg) && Joins(t, p) && b in t.hdr && b != Next(t, p)
    requires AroundOk(t, p) && AroundOk(t, Next(t, p)) && AroundOk(t, b)
    ensures BorderOk(Join(t, p), b)
  {
  }

  lemma JoinMaps(t: Tiling, p: Addr)
    requires Joins(t, p)
    ensures Used(Join(t, p)) == Used(t)[p := t.hdr[p].size + t.cfg.head + t.hdr[Next(t, p)].size] - {Next(t, p)}
    ensures Free(Join(t, p)) == Free(t) - {p}
  {
    var r := Join(t, p);
    assert r.hdr.Keys == t.hdr.Keys - {Next(t, p)};
    assert Used(r).Keys == Used(t).Keys + {p} - {Next(t, p)};
    assert Free(r).Keys == Free(t).Keys - {p};
  }

  lemma JoinApart(t: Tiling, p: Addr, b: Addr, c: Addr)
    requires Tiles(t) && Joins(t, p) && b in t.hdr && c in t.hdr && b != Next(t, p) && c != Next(t, p)
    ensures Apart(Join(t, p), b, c)
  {
    assert Apart(t, b, c) && Apart(t, p, c) && Apart(t, Next(t, p), c) && Apart(t, c, Next(t, p));
  }

  lemma JoinOk(t: Tiling, p: Addr)
    requires Tiles(t) && Joins(t, p)
    ensures Tiles(Join(t, p))
  {
    var r := Join(t, p);
    Around(t, p);
    Around(t, Next(t, p));
    forall b | b in r.hdr ensures BlockOk(r, b) {
      Around(t, b);
      JoinBlock(t, p, b);
    }
    forall b, c | b in r.hdr && c in r.hdr ensures Apart(r, b, c) {
      JoinApart(t, p, b, c);
    }
  }

  // ----- Split -----

  /** A used block no free one follows, with room for s bytes and another block. */
  ghost predicate Splits(t: Tiling, a: Addr, s: nat)
    requires ConfigOk(t.cfg)
  {
    && Inner(t, a) && a in t.home && !t.hdr[a].free && Next(t, a) in t.hdr && !t.hdr[Next(t, a)].free
    && s % 8 == 0 && t.cfg.minSize <= s && s + t.cfg.head + t.cfg.minSize <= t.hdr[a].size
  }

  /** The block a split makes. */
  function Rest(t: Tiling, a: Addr, s: nat): Addr {
    a + t.cfg.head + s
  }

  lemma RestIsNew(t: Tiling, a: Addr, s: nat)
    requires Tiles(t) && Splits(t, a, s)
    ensures Rest(t, a, s) !in t.hdr && Rest(t, a, s) != NULL
  {
    NothingInside(t, a, Rest(t, a, s));
  }

  lemma NothingInside(t: Tiling, a: Addr, x: Addr)
    requires Tiles(t) && a in t.hdr && a < x < Next(t, a)
    ensures x !in t.hdr
  {
    assert x in t.hdr ==> Apart(t, a, x);
  }

  lemma SplitBlock(t: Tiling, a: Addr, s: nat, b: Addr)
    requires ConfigOk(t.cfg) && Splits(t, a, s) && b in t.hdr && Rest(t, a, s) !in t.hdr
    requires AroundOk(t, a) && AroundOk(t, b)
    ensures BlockOk(Split(t, a, s), b)
  {
    var r := Split(t, a, s);
    assert LastOk(r, b) && FirstOk(r, b) && SizeOk(r, b);
    assert HomeOk(r, b);
    assert BorderOk(r, b);
    assert BeforeOk(r, b);
  }

  lemma SplitRest(t: Tiling, a: Addr, s: nat)
    requires ConfigOk(t.cfg) && Splits(t, a, s) && Rest(t, a, s) !in t.hdr
    requires AroundOk(t, a)
    ensures BlockOk(Split(t, a, s), Rest(t, a, s))
  {
    SplitRestInner(t, a, s);
    assert BorderOk(Split(t, a, s), Rest(t, a, s));
    assert BeforeOk(Split(t, a, s), Rest(t, a, s));
  }

  lemma SplitRestInner(t: Tiling, a: Addr, s: nat)
    requires ConfigOk(t.cfg) && Splits(t, a, s) && Rest(t, a, s) !in t.hdr
    requires HomeOk(t, a) && SizeOk(t, a) && !IsLast(t, a)
    ensures var r, f := Split(t, a, s), Rest(t, a, s);
      HomeOk(r, f) && SizeOk(r, f) && !IsFirst(r, f) && !IsLast(r, f)
  {
    Eights(a, t.cfg.head, s);
    EightsLess(t.hdr[a].size, t.cfg.head + s);
  }

  lemma SplitMaps(t: Tiling, a: Addr, s: nat)
    requires Tiles(t) && Splits(t, a, s)
    ensures Used(Split(t, a, s)) == Used(t)[a := s]
    ensures Free(Split(t, a, s)) == Free(t)[Rest(t, a, s) := t.hdr[a].size - s - t.cfg.head]
    ensures Rest(t, a, s) !in Free(t)
  {
    RestIsNew(t, a, s);
    assert BlockOk(t, a);
    SplitMapsAt(t, a, s);
  }

  lemma SplitMapsAt(t: Tiling, a: Addr, s: nat)
    requires ConfigOk(t.cfg) && Splits(t, a, s) && Rest(t, a, s) !in t.hdr && HomeOk(t, a)
    ensures Used(Split(t, a, s)) == Used(t)[a := s]
    ensures Free(Split(t, a, s)) == Free(t)[Rest(t, a, s) := t.hdr[a].size - s - t.cfg.head]
  {
    var r, f := Split(t, a, s), Rest(t, a, s);
    assert r.hdr.Keys == t.hdr.Keys + {f};
    assert Used(r).Keys == Used(t).Keys;
    assert Free(r).Keys == Free(t).Keys + {f};
  }

  lemma SplitApart(t: Tiling, a: Addr, s: nat, b: Addr, c: Addr)
    requires ConfigOk(t.cfg) && Splits(t, a, s) && Rest(t, a, s) !in t.hdr
    requires b in Split(t, a, s).hdr && c in Split(t, a, s).hdr
    requires b in t.hdr && c in t.hdr ==> Apart(t, b, c)
    requires b in t.hdr ==> Apart(t, a, b) && Apart(t, b, a)
    requires c in t.hdr ==> Apart(t, a, c)
    ensures Apart(Split(t, a, s), b, c)
  {
  }

  lemma SplitOk(t: Tiling, a: Addr, s: nat)
    requires Tiles(t) && Splits(t, a, s)
    ensures Tiles(Split(t, a, s)) && Rest(t, a, s) !in t.hdr
  {
    RestIsNew(t, a, s);
    var r := Split(t, a, s);
    Around(t, a);
    SplitRest(t, a, s);
    forall b | b in r.hdr ensures BlockOk(r, b) {
      if b != Rest(t, a, s) {
        Around(t, b);
        SplitBlock(t, a, s, b);
      }
    }
    forall b, c | b in r.hdr && c in r.hdr ensures Apart(r, b, c) {
      assert b in t.hdr ==> Apart(t, a, b) && Apart(t, b, a);
      assert c in t.hdr ==> Apart(t, a, c);
      SplitApart(t, a, s, b, c);
    }
  }

  // ----- Consequences -----

  /** The space behind a header that belongs to its block. */
  predicate Inside(t: Tiling, a: Addr, x: Addr) {
    a in t.hdr && a + t.cfg.head <= x < Next(t, a)
  }

  /** No byte of one block's space is another's, nor any block's header. */
  lemma SpacesApart(t: Tiling, a: Addr, b: Addr, x: Addr)
    requires Tiles(t) && a in t.hdr && b in t.hdr && Inside(t, a, x)
    ensures Inside(t, b, x) ==> a == b
    ensures !(b <= x < b + t.cfg.head)
  {
    assert Apart(t, a, b) && Apart(t, b, a);
  }

  /** A region is tiled without gaps: every byte up to the end of its sentinel belongs to a block. */
  lemma {:induction false} NoGaps(t: Tiling, a: Addr, x: Addr) returns (b: Addr)
    requires Tiles(t) && a in t.hdr && a in t.home && a <= x < t.home[a].end + t.cfg.head
    ensures b in t.hdr && b in t.home && b <= x < Next(t, b) && t.home[b] == t.home[a]
    decreases x - a
  {
    assert BlockOk(t, a);
    if x < Next(t, a) {
      b := a;
    } else {
      b := NoGaps(t, Next(t, a), x);
    }
  }
}
