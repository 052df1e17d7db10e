/** The heap's state and its three operations (k_mm.c). */
module Heap {
  import opened Basics
  import opened HeapTiles
  import opened HeapLists
  import opened HeapLevels
  import opened HeapRelease

  // ----- Memory -----

  /** Memory after n bytes from lo have been overwritten with something. */
  function Scribbled(m: int -> Byte, junk: int -> Byte, lo: int, n: nat): int -> Byte {
    x => if lo <= x < lo + n then junk(x) else m(x)
  }

  /** The first sizes[a] bytes behind each header a are what they were. */
  ghost predicate Keeps(sizes: map<Addr, nat>, head: nat, m0: int -> Byte, m1: int -> Byte) {
    forall a, x | a in sizes && a + head <= x < a + head + sizes[a] :: m1(x) == m0(x)
  }

  /** None of those bytes is among the n from lo. */
  ghost predicate Spare(sizes: map<Addr, nat>, head: nat, lo: int, n: nat) {
    forall a | a in sizes && sizes[a] > 0 && n > 0 :: lo + n <= a + head || a + head + sizes[a] <= lo
  }

  /** The sizes claim no more than the blocks in use have. */
  ghost predicate Covered(sizes: map<Addr, nat>, t: Tiling) {
    forall a | a in sizes :: a in t.hdr && sizes[a] <= t.hdr[a].size
  }

  lemma HeaderSpare(t: Tiling, sizes: map<Addr, nat>, a: Addr)
    requires Tiles(t) && Covered(sizes, t) && a in t.hdr
    ensures Spare(sizes, t.cfg.head, a, t.cfg.head)
  {
    forall b | b in sizes && sizes[b] > 0
      ensures a + t.cfg.head <= b + t.cfg.head || b + t.cfg.head + sizes[b] <= a
    {
      assert Apart(t, a, b) && Apart(t, b, a);
    }
  }

  lemma SpaceSpare(t: Tiling, sizes: map<Addr, nat>, a: Addr, lo: int, n: nat)
    requires Tiles(t) && Covered(sizes, t) && a in t.hdr
    requires a + t.cfg.head + (if a in sizes then sizes[a] else 0) <= lo && lo + n <= Next(t, a)
    ensures Spare(sizes, t.cfg.head, lo, n)
  {
    forall b | b in sizes && sizes[b] > 0 && n > 0
      ensures lo + n <= b + t.cfg.head || b + t.cfg.head + sizes[b] <= lo
    {
      assert Apart(t, a, b) && Apart(t, b, a);
      OneSpare(t, a, b, sizes[b], lo, n);
    }
  }

  lemma OneSpare(t: Tiling, a: Addr, b: Addr, size: nat, lo: int, n: nat)
    requires a in t.hdr && b in t.hdr && size <= t.hdr[b].size && Apart(t, a, b) && Apart(t, b, a)
    requires a + t.cfg.head + (if a == b then size else 0) <= lo && lo + n <= Next(t, a)
    ensures lo + n <= b + t.cfg.head || b + t.cfg.head + size <= lo
  {
  }

  lemma FreeSpare(t: Tiling, sizes: map<Addr, nat>, b: Addr)
    requires Tiles(t) && Covered(sizes, t) && b in t.hdr && t.hdr[b].free && b !in sizes
    ensures Spare(sizes, t.cfg.head, b + t.cfg.head, 8)
  {
    FreeIsInner(t, b);
    assert BlockOk(t, b);
    SpaceSpare(t, sizes, b, b + t.cfg.head, 8);
  }

  /** The link words of the listed blocks are spare. */
  ghost predicate LinksSpare(f: map<Addr, nat>, sizes: map<Addr, nat>, head: nat) {
    forall b | b in f :: Spare(sizes, head, b + head, 8)
  }

  // ----- Levels of the free blocks -----

  /** Which list each free block belongs to. */
  ghost function Levels(p: Params, sizes: map<Addr, nat>): map<Addr, nat> {
    map a | a in sizes && Level(p, sizes[a]) >= 0 :: Level(p, sizes[a])
  }

  lemma LevelsAdd(p: Params, sizes: map<Addr, nat>, a: Addr, n: nat)
    requires Level(p, n) >= 0
    ensures Levels(p, sizes[a := n]) == Levels(p, sizes)[a := Level(p, n)]
  {
  }

  lemma LevelsDrop(p: Params, sizes: map<Addr, nat>, a: Addr)
    ensures Levels(p, sizes - {a}) == Levels(p, sizes) - {a}
  {
  }

  /** Every block of a tiling is small enough to have a level. */
  lemma BlockHasLevel(p: Params, t: Tiling, a: Addr)
    requires ParamsOk(p) && t.cfg == Cfg(p) && Tiles(t) && a in t.hdr
    ensures t.hdr[a].size < Pow2(p.maxBit) && 0 <= Level(p, t.hdr[a].size) < LevelCount(p)
  {
    assert BlockOk(t, a);
    HasLevel(p, t.hdr[a].size);
  }

  /** The largest request that rounds up to the alignment without wrapping around in 32 bits. */
  const LARGEST: nat := 0xFFFF_FFF8

  /** A block with room for the rounded request has room for the request exactly when rounding did not wrap. */
  lemma RoomIsEnough(p: Params, t: Tiling, a: Addr, size: nat)
    requires ParamsOk(p) && t.cfg == Cfg(p) && Tiles(t) && size < 0x1_0000_0000
    requires a in Used(t) && Request(p, size) <= Used(t)[a]
    ensures size <= Used(t)[a] <==> size <= LARGEST
  {
    RequestCovers(p, size);
    BlockHasLevel(p, t, a);
    Pow2Monotone(p.maxBit, 30);
    LevelsFit();
  }

  /** Room comes in multiples of 8, so there is room for a request as soon as there is room for the size. */
  lemma RoomInEights(p: Params, room: nat, size: nat)
    requires ParamsOk(p) && size <= LARGEST && room % 8 == 0
    ensures Request(p, size) <= room <==> Max(size, MinSize(p)) <= room
  {
    RequestLeast(p, size);
    if Max(size, MinSize(p)) <= room {
      assert Covers(p, size, room);
    }
  }

  /**
   The bytes a block must have for a request of `size`: that many and the minimum size. Rounding up sizes
   above LARGEST wraps around, and then a block of the minimum size will do.
   */
  function Needed(p: Params, size: nat): nat {
    if size <= LARGEST then Max(size, MinSize(p)) else MinSize(p)
  }

  lemma NeededLess(p: Params, size: nat)
    requires ParamsOk(p) && size < 0x1_0000_0000
    ensures Needed(p, size) <= Request(p, size)
  {
    RequestLeast(p, size);
  }

  lemma NoneFitsSize(p: Params, t: Tiling, size: nat)
    requires ParamsOk(p) && t.cfg == Cfg(p) && Tiles(t) && size < 0x1_0000_0000
    ensures NoneFits(t, Request(p, size)) <==> NoneFits(t, Needed(p, size))
  {
    if size <= LARGEST {
      forall b | b in Free(t) ensures t.hdr[b].size < Request(p, size) <==> t.hdr[b].size < Max(size, MinSize(p)) {
        assert BlockOk(t, b);
        RoomInEights(p, t.hdr[b].size, size);
      }
    } else {
      RequestLeast(p, size);
    }
  }

  lemma GainsSize(p: Params, t: Tiling, u: Tiling, ptr: Addr, size: nat)
    requires ParamsOk(p) && size < 0x1_0000_0000 && u.cfg == Cfg(p) && Tiles(u)
    requires ptr > p.head && Gains(t, u, ptr - p.head, Request(p, size))
    requires Used(u)[ptr - p.head] < Request(p, size) + p.head + MinSize(p)
    ensures Gains(t, u, ptr - p.head, Needed(p, size)) && SnugFor(p, u, ptr, size)
  {
    NeededLess(p, size);
    SnugForSize(p, u, ptr, size);
  }

  lemma FitsInPlaceSize(p: Params, t: Tiling, a: Addr, size: nat)
    requires ParamsOk(p) && t.cfg == Cfg(p) && Tiles(t) && size < 0x1_0000_0000 && a in t.hdr
    ensures FitsInPlace(t, a, Request(p, size)) <==> FitsInPlace(t, a, Needed(p, size))
  {
    RequestLeast(p, size);
    assert BlockOk(t, a);
    var n := Next(t, a);
    if size <= LARGEST {
      RoomInEights(p, t.hdr[a].size, size);
      if n in t.hdr {
        assert BlockOk(t, n);
        Eights(t.hdr[a].size, t.cfg.head, t.hdr[n].size);
        RoomInEights(p, t.hdr[a].size + t.cfg.head + t.hdr[n].size, size);
      }
    }
  }

  /** The block at r has no more than `need` bytes and what would not make a block of its own. */
  ghost predicate Snug(u: Tiling, r: Addr, need: nat) {
    && r > u.cfg.head && r - u.cfg.head in Used(u)
    && Used(u)[r - u.cfg.head] < need + u.cfg.head + u.cfg.minSize
  }

  /** The block at r is not wastefully large for `size` bytes: snug for any multiple of 8 that covers the size. */
  ghost predicate SnugFor(p: Params, u: Tiling, r: Addr, size: nat) {
    if size <= LARGEST then
      && Snug(u, r, Max(size + 8, MinSize(p)))
      && forall n: nat | Covers(p, size, n) :: Snug(u, r, n)
    else
      Snug(u, r, MinSize(p)) && Used(u)[r - u.cfg.head] < size
  }

  lemma SnugForSize(p: Params, u: Tiling, r: Addr, size: nat)
    requires ParamsOk(p) && size < 0x1_0000_0000 && u.cfg == Cfg(p) && Snug(u, r, Request(p, size)) && Tiles(u)
    ensures SnugFor(p, u, r, size)
  {
    RequestLeast(p, size);
    if size > LARGEST {
      BlockHasLevel(p, u, r - p.head);
      Pow2Monotone(p.maxBit, 30);
      LevelsFit();
    }
  }

  lemma LiesFreeFits(r: Tiling, a: Addr, n: nat, need: nat)
    requires LiesFree(r, a, n) && need <= n
    ensures !NoneFits(r, need)
  {
  }

  /** A block in use has the minimum size, and is far smaller than what 32 bits can count. */
  lemma RecycledFits(p: Params, t: Tiling, a: Addr, size: nat)
    requires ParamsOk(p) && t.cfg == Cfg(p) && Tiles(t) && a in Used(t) && size <= Used(t)[a]
    ensures Max(size, MinSize(p)) <= Used(t)[a] && size <= LARGEST
  {
    assert BlockOk(t, a);
    BlockHasLevel(p, t, a);
    Pow2Monotone(p.maxBit, 30);
    LevelsFit();
  }

  // ----- Operations as wholes -----

  /** A free block is taken, and what it has too much split off when that is enough for a block. */
  function Carved(t: Tiling, a: Addr, s: nat): Tiling
    requires a in t.hdr && a in t.home && Next(t, a) in t.hdr && t.cfg.head > 0
  {
    if t.hdr[a].size >= s + t.cfg.head + t.cfg.minSize then Split(Take(t, a), a, s) else Take(t, a)
  }

  /** What carving a free block leaves. */
  ghost predicate CarvedShape(t: Tiling, r: Tiling, a: Addr, s: nat)
    requires a in t.hdr
  {
    var split := t.hdr[a].size >= s + t.cfg.head + t.cfg.minSize;
    && Tiles(r) && r.cfg == t.cfg
    && Used(r) == Used(t)[a := if split then s else t.hdr[a].size] && a !in Used(t)
    && Free(r) == (if split then (Free(t) - {a})[Rest(t, a, s) := t.hdr[a].size - s - t.cfg.head] else Free(t) - {a})
    && (split ==> Rest(t, a, s) !in t.hdr)
  }

  lemma CarvedOk(t: Tiling, a: Addr, s: nat)
    requires Tiles(t) && a in t.hdr && t.hdr[a].free && s % 8 == 0 && t.cfg.minSize <= s <= t.hdr[a].size
    ensures a in t.home && Next(t, a) in t.hdr
    ensures CarvedShape(t, Carved(t, a, s), a, s)
  {
    FreeIsInner(t, a);
    Around(t, a);
    if t.hdr[a].size >= s + t.cfg.head + t.cfg.minSize {
      CarvedSplits(t, a, s);
    } else {
      TakeOk(t, a);
      TakeMaps(t, a);
    }
  }

  lemma CarvedGains(t: Tiling, r: Tiling, a: Addr, s: nat)
    requires a in t.hdr && s <= t.hdr[a].size && CarvedShape(t, r, a, s)
    ensures Gains(t, r, a, s) && Used(r)[a] < s + t.cfg.head + t.cfg.minSize
  {
  }

  lemma CarvedSplits(t: Tiling, a: Addr, s: nat)
    requires Tiles(t) && a in t.hdr && t.hdr[a].free && s % 8 == 0
    requires t.cfg.minSize <= s && s + t.cfg.head + t.cfg.minSize <= t.hdr[a].size
    ensures a in t.home && Next(t, a) in t.hdr
    ensures CarvedShape(t, Carved(t, a, s), a, s)
  {
    FreeIsInner(t, a);
    Around(t, a);
    TakenSplits(t, a, s);
    TakeOk(t, a);
    var k := Take(t, a);
    SplitOk(k, a, s);
    NothingInside(t, a, Rest(t, a, s));
    CarvedMaps(t, a, s);
  }

  lemma CarvedMaps(t: Tiling, a: Addr, s: nat)
    requires ConfigOk(t.cfg) && Inner(t, a) && t.hdr[a].free && Next(t, a) in t.hdr && !t.hdr[Next(t, a)].free
    requires Splits(Take(t, a), a, s) && HomeOk(t, a) && Rest(t, a, s) !in t.hdr
    ensures var r := Split(Take(t, a), a, s);
      && Used(r) == Used(t)[a := s] && a !in Used(t)
      && Free(r) == (Free(t) - {a})[Rest(t, a, s) := t.hdr[a].size - s - t.cfg.head]
  {
    TakeMaps(t, a);
    SplitMapsAt(Take(t, a), a, s);
  }

  lemma TakenSplits(t: Tiling, a: Addr, s: nat)
    requires ConfigOk(t.cfg) && a in t.hdr && t.hdr[a].free && AroundOk(t, a)
    requires s % 8 == 0 && t.cfg.minSize <= s && s + t.cfg.head + t.cfg.minSize <= t.hdr[a].size
    ensures Next(t, a) in t.hdr && Splits(Take(t, a), a, s)
  {
  }

  class Allocator {
    const p: Params
    /** RHINO_CONFIG_MM_QUICK: look in the higher levels first. */
    const quick: bool
    const junk: int -> Byte

    var freelist: seq<Addr>
    var bitmap: seq<bool>
    var link: map<Addr, Link>
    var hdr: map<Addr, Hdr>
    var mem: int -> Byte
    ghost var before: map<Addr, Addr>
    ghost var home: map<Addr, Region>
    ghost var ls: seq<seq<Addr>>

    /** An empty heap: no region yet. */
    constructor (p: Params, quick: bool, junk: int -> Byte, mem: int -> Byte)
      requires ParamsOk(p)
      ensures Valid() && Used(T()) == map[] && Free(T()) == map[] && this.p == p && this.quick == quick
      ensures this.mem == mem
    {
      this.p, this.quick, this.junk, this.mem := p, quick, junk, mem;
      freelist := seq(LevelCount(p), i => NULL);
      bitmap := seq(LevelCount(p), i => false);
      link, hdr, before, home := map[], map[], map[], map[];
      ls := seq(LevelCount(p), i => []);
      new;
      MinSizeOk(p);
    }

    ghost function T(): Tiling
      reads this
    {
      Tiling(Cfg(p), hdr, before, home)
    }

    ghost function FL(): Lists
      reads this
    {
      Lists(freelist, bitmap, link)
    }

    /** The lists and the bitmap hold f, and there is one list per level. */
    ghost predicate Listed(f: map<Addr, nat>)
      reads this
    {
      ListsOk(FL(), ls, f) && ParamsOk(p) && |ls| == LevelCount(p)
    }

    /** Regions tiled by their blocks, every free block on the list of its level and on no other. */
    ghost predicate Valid()
      reads this
    {
      Tiles(T()) && Listed(Levels(p, Free(T())))
    }

    // ----- Writing memory -----

    method PutHdr(a: Addr, h: Hdr, ghost sizes: map<Addr, nat>)
      requires Spare(sizes, p.head, a, p.head)
      modifies this`hdr, this`mem
      ensures hdr == old(hdr)[a := h] && Keeps(sizes, p.head, old(mem), mem)
    {
      hdr := hdr[a := h];
      mem := Scribbled(mem, junk, a, p.head);
    }

    method PutLink(a: Addr, l: Link, ghost sizes: map<Addr, nat>)
      requires Spare(sizes, p.head, a + p.head, 8)
      modifies this`link, this`mem
      ensures link == old(link)[a := l] && Keeps(sizes, p.head, old(mem), mem)
    {
      link := link[a := l];
      mem := Scribbled(mem, junk, a + p.head, 8);
    }

    function GetLink(a: Addr): Link
      reads this
    {
      if a in link then link[a] else Link(NULL, NULL)
    }

    // ----- Free lists -----

    /** k_mm_freelist_insert. */
    method FreelistInsert(a: Addr, ghost f: map<Addr, nat>, ghost sizes: map<Addr, nat>)
      requires Listed(f) && a in hdr && a !in f && a != NULL && 0 <= Level(p, hdr[a].size) < LevelCount(p)
      requires LinksSpare(f, sizes, p.head) && Spare(sizes, p.head, a + p.head, 8)
      modifies this`freelist, this`bitmap, this`link, this`mem, this`ls
      ensures Listed(f[a := Level(p, hdr[a].size)]) && Keeps(sizes, p.head, old(mem), mem)
    {
      var level: nat := Level(p, hdr[a].size);
      ghost var fl := FL();
      assert ListOk(fl, ls[level], f, level);
      PushOk(fl, ls, f, a, level);
      var h := freelist[level];
      PutLink(a, Link(NULL, h), sizes);
      if h != NULL {
        assert h in ls[level];
        PutLink(h, GetLink(h).(prev := a), sizes);
      }
      freelist := freelist[level := a];
      bitmap := bitmap[level := true];
      ls := ls[level := [a] + ls[level]];
      assert FL() == Push(fl, a, level);
    }

    /** k_mm_freelist_delete. */
    method FreelistDelete(a: Addr, ghost f: map<Addr, nat>, ghost sizes: map<Addr, nat>)
      requires Listed(f) && a in f && a in hdr && f[a] == Level(p, hdr[a].size)
      requires LinksSpare(f, sizes, p.head)
      modifies this`freelist, this`bitmap, this`link, this`mem, this`ls
      ensures Listed(f - {a}) && Keeps(sizes, p.head, old(mem), mem)
    {
      var level: nat := Level(p, hdr[a].size);
      ghost var fl := FL();
      UnlinkOk(fl, ls, f, a);
      NeighboursListed(fl, ls, f, a);
      ghost var i: nat :| i < |ls[level]| && ls[level][i] == a &&
        ListsOk(Unlink(fl, a, level), ls[level := Cut(ls[level], i)], f - {a});
      Unfile(a, level, fl, f, sizes);
      ls := ls[level := Cut(ls[level], i)];
    }

    /** The writes of k_mm_freelist_delete. */
    method Unfile(a: Addr, level: nat, ghost fl: Lists, ghost f: map<Addr, nat>, ghost sizes: map<Addr, nat>)
      requires fl == FL() && level < |freelist| == |bitmap| && LinksSpare(f, sizes, p.head) && a in f
      requires At(fl, a).next != NULL ==> At(fl, a).next in f && At(fl, a).next != a
      requires At(fl, a).prev != NULL ==> At(fl, a).prev in f && At(fl, a).prev != a
      modifies this`freelist, this`bitmap, this`link, this`mem
      ensures FL() == Unlink(fl, a, level) && Keeps(sizes, p.head, old(mem), mem)
    {
      if GetLink(a).next != NULL {
        PutLink(GetLink(a).next, GetLink(GetLink(a).next).(prev := GetLink(a).prev), sizes);
      }
      if GetLink(a).prev != NULL {
        PutLink(GetLink(a).prev, GetLink(GetLink(a).prev).(next := GetLink(a).next), sizes);
      }
      if freelist[level] == a {
        freelist := freelist[level := GetLink(a).next];
        if freelist[level] == NULL {
          bitmap := bitmap[level := false];
        }
      }
      PutLink(a, Link(NULL, NULL), sizes);
    }

    // ----- k_mm_alloc -----

    /** find_up_level: the lowest set bit above a level. */
    method FindUpLevel(level: nat, ghost f: map<Addr, nat>) returns (a: Addr)
      requires Listed(f)
      ensures a != NULL ==> a in f && f[a] > level
      ensures a == NULL ==> forall b | b in f :: f[b] <= level
    {
      var k := level + 1;
      while k < |bitmap| && !bitmap[k]
        invariant level < k && forall j: nat | level < j < k && j < |bitmap| :: !bitmap[j]
      {
        k := k + 1;
      }
      if k < |bitmap| {
        assert ListOk(FL(), ls[k], f, k);
        assert ls[k][0] in ls[k];
        return freelist[k];
      }
      forall b | b in f ensures f[b] <= level {
        assert ListOk(FL(), ls[f[b]], f, f[b]);
        assert b in ls[f[b]];
      }
      return NULL;
    }

    /** The walk along one level for the first block that is large enough. */
    method FindInLevel(level: nat, need: nat, ghost f: map<Addr, nat>) returns (a: Addr)
      requires Listed(f) && level < |ls| && forall b | b in f :: b in hdr
      ensures a != NULL ==> a in f && f[a] == level && hdr[a].size >= need
      ensures a == NULL ==> forall b | b in f && f[b] == level :: hdr[b].size < need
    {
      ghost var l := ls[level];
      assert ListOk(FL(), l, f, level);
      a := freelist[level];
      ghost var i := 0;
      while a != NULL && hdr[a].size < need
        invariant i <= |l| && a == (if i < |l| then l[i] else NULL)
        invariant a != NULL ==> a in f && f[a] == level
        invariant forall j | 0 <= j < i :: l[j] in f && hdr[l[j]].size < need
        decreases |l| - i
      {
        assert LinkedAt(FL(), l, i);
        a := GetLink(a).next;
        i := i + 1;
        if i < |l| {
          assert l[i] in l;
        }
      }
    }

    /** Both search orders find a block whenever one is large enough. */
    method FindBlock(level: nat, need: nat) returns (a: Addr)
      requires Valid() && level == Level(p, need) && level < LevelCount(p)
      ensures a != NULL ==> a in Free(T()) && hdr[a].size >= need
      ensures a == NULL ==> NoneFits(T(), need)
    {
      ghost var f := Levels(p, Free(T()));
      forall b | b in Free(T()) ensures b in f && f[b] == Level(p, hdr[b].size) {
        BlockHasLevel(p, T(), b);
      }
      if quick {
        a := FindUpLevel(level, f);
        if a == NULL {
          a := FindInLevel(level, need, f);
        }
      } else {
        a := FindInLevel(level, need, f);
        if a == NULL {
          a := FindUpLevel(level, f);
        }
      }
      if a != NULL {
        if f[a] > level {
          HigherLevelFits(p, hdr[a].size, need);
        }
      } else {
        forall b | b in Free(T()) ensures hdr[b].size < need {
          if f[b] < level {
            LowerLevelFails(p, hdr[b].size, need);
          }
        }
      }
    }

    /** The tags of a split, written one header at a time. */
    method SplitTags(a: Addr, need: nat, ghost t: Tiling, ghost sizes: map<Addr, nat>)
      requires t == T() && a in hdr && a in home && hdr[a].free && Next(t, a) in hdr && hdr[Next(t, a)].prevFree
      requires need + p.head <= hdr[a].size && Rest(t, a, need) !in hdr && p.head > 0
      requires Spare(sizes, p.head, a, p.head) && Spare(sizes, p.head, Next(t, a), p.head)
      requires Spare(sizes, p.head, Rest(t, a, need), p.head)
      modifies this`hdr, this`mem, this`before, this`home
      ensures T() == Split(Take(t, a), a, need) && Keeps(sizes, p.head, old(mem), mem)
    {
      var next := a + p.head + hdr[a].size;
      var left := hdr[a].size - need - p.head;
      var rest := a + p.head + need;
      ghost var m0 := mem;
      PutHdr(a, hdr[a].(size := need, free := false), sizes);
      ghost var m1 := mem;
      PutHdr(rest, Hdr(a, left, true, false), sizes);
      KeepsOn(sizes, p.head, m0, m1, mem);
      ghost var m2 := mem;
      PutHdr(next, hdr[next].(prev := rest), sizes);
      KeepsOn(sizes, p.head, m0, m2, mem);
      before := before[rest := a][next := rest];
      home := home[rest := home[a]];
      SplitHdr(t, a, need);
    }

    /** The tags of a block taken whole. */
    method TakeTags(a: Addr, ghost t: Tiling, ghost sizes: map<Addr, nat>)
      requires t == T() && a in hdr && Next(t, a) in hdr && Next(t, a) != a
      requires Spare(sizes, p.head, a, p.head) && Spare(sizes, p.head, Next(t, a), p.head)
      modifies this`hdr, this`mem
      ensures T() == Take(t, a) && Keeps(sizes, p.head, old(mem), mem)
    {
      var next := a + p.head + hdr[a].size;
      ghost var m0 := mem;
      PutHdr(next, hdr[next].(prevFree := false), sizes);
      ghost var m1 := mem;
      PutHdr(a, hdr[a].(free := false), sizes);
      KeepsOn(sizes, p.head, m0, m1, mem);
    }

    /** The split arm: the block keeps what is needed, the rest goes on a free list. */
    method SplitOff(a: Addr, need: nat, ghost t: Tiling, ghost f: map<Addr, nat>, ghost sizes: map<Addr, nat>)
      requires Carving(t, f, sizes, a, need) && need % 8 == 0 && MinSize(p) <= need
      requires need + p.head + MinSize(p) <= hdr[a].size
      modifies this`freelist, this`bitmap, this`link, this`mem, this`ls, this`hdr, this`before, this`home
      ensures a in t.home && Next(t, a) in t.hdr
      ensures T() == Carved(t, a, need) && Listed(Levels(p, Free(T()))) && Keeps(sizes, p.head, old(mem), mem)
    {
      TagsAround(t, a);
      SplitLevels(p, t, a, need);
      SplitAndFile(a, need, t, f, f - {a}, sizes, hdr[a].size - need - p.head);
    }

    method SplitAndFile(a: Addr, need: nat, ghost t: Tiling, ghost f: map<Addr, nat>, ghost g: map<Addr, nat>,
                        ghost sizes: map<Addr, nat>, ghost left: nat)
      requires t == T() && a in hdr && a in home && hdr[a].free && Next(t, a) in hdr && hdr[Next(t, a)].prevFree
      requires g == f - {a}
      requires left == hdr[a].size - need - p.head && Listed(g) && 0 <= Level(p, left) < LevelCount(p)
      requires LinksSpare(f, sizes, p.head)
      requires need + p.head <= hdr[a].size && Rest(t, a, need) !in hdr && p.head > 0 && Rest(t, a, need) !in g
      requires Rest(t, a, need) != NULL
      requires Spare(sizes, p.head, a, p.head) && Spare(sizes, p.head, Next(t, a), p.head)
      requires Spare(sizes, p.head, Rest(t, a, need), p.head) && Spare(sizes, p.head, Rest(t, a, need) + p.head, 8)
      modifies this`freelist, this`bitmap, this`link, this`mem, this`ls, this`hdr, this`before, this`home
      ensures T() == Split(Take(t, a), a, need) && Listed(g[Rest(t, a, need) := Level(p, left)])
      ensures Keeps(sizes, p.head, old(mem), mem)
    {
      var rest := a + p.head + need;
      ghost var m0 := mem;
      SplitTags(a, need, t, sizes);
      SplitRestHdr(t, a, need);
      ghost var m1 := mem;
      FreelistInsert(rest, g, sizes);
      KeepsOn(sizes, p.head, m0, m1, mem);
    }

    /** The block to carve is off its list, and everything carving writes is spare. */
    ghost predicate Carving(t: Tiling, f: map<Addr, nat>, sizes: map<Addr, nat>, a: Addr, need: nat)
      reads this
    {
      && Tiles(t) && t == T() && a in hdr && hdr[a].free && f == Levels(p, Free(t)) && Listed(f - {a})
      && LinksSpare(f, sizes, p.head) && Next(t, a) in t.hdr
      && Spare(sizes, p.head, a, p.head) && Spare(sizes, p.head, Next(t, a), p.head)
      && (need + p.head + MinSize(p) <= t.hdr[a].size ==>
            Spare(sizes, p.head, Rest(t, a, need), p.head) && Spare(sizes, p.head, Rest(t, a, need) + p.head, 8))
    }

    /** Take a free block and split off what is too much. */
    method CarveOut(a: Addr, need: nat)
      requires Valid() && a in hdr && hdr[a].free && need % 8 == 0 && MinSize(p) <= need <= hdr[a].size
      modifies this`freelist, this`bitmap, this`link, this`mem, this`ls, this`hdr, this`before, this`home
      ensures a in old(home) && Next(old(T()), a) in old(hdr)
      ensures Valid() && T() == Carved(old(T()), a, need) && Gains(old(T()), T(), a, need)
      ensures Used(T())[a] < need + p.head + MinSize(p)
      ensures Keeps(Used(old(T())), p.head, old(mem), mem)
    {
      ghost var t, f, sizes := T(), Levels(p, Free(T())), Used(T());
      FreeIsInner(t, a);
      CarvedOk(t, a, need);
      CarvedGains(t, Carved(t, a, need), a, need);
      SparesFor(p, t, a, need);
      BlockHasLevel(p, t, a);
      ghost var m0 := mem;
      FreelistDelete(a, f, sizes);
      ghost var m1 := mem;
      if hdr[a].size >= need + p.head + MinSize(p) {
        SplitOff(a, need, t, f, sizes);
      } else {
        LevelsDrop(p, Free(t), a);
        TakeTags(a, t, sizes);
      }
      KeepsOn(sizes, p.head, m0, m1, mem);
    }

    /** Find a block of the request's level or above, and carve the request out of it. */
    method AllocAligned(need: nat, level: nat) returns (ptr: Addr)
      requires Valid() && need % 8 == 0 && MinSize(p) <= need && level == Level(p, need) && level < LevelCount(p)
      modifies this
      ensures Valid() && Keeps(Used(old(T())), p.head, old(mem), mem)
      ensures ptr == NULL <==> NoneFits(old(T()), need)
      ensures ptr == NULL ==> T() == old(T()) && FL() == old(FL()) && mem == old(mem)
      ensures ptr != NULL ==>
        && ptr > p.head && Gains(old(T()), T(), ptr - p.head, need)
        && Used(T())[ptr - p.head] < need + p.head + MinSize(p)
    {
      var a := FindBlock(level, need);
      if a == NULL {
        return NULL;
      }
      FreeIsInner(T(), a);
      CarveOut(a, need);
      return a + p.head;
    }

    /** The search for a rounded size. */
    method AllocRounded(need: nat) returns (ptr: Addr)
      requires Valid() && need % 8 == 0 && MinSize(p) <= need
      modifies this
      ensures Valid() && Keeps(Used(old(T())), p.head, old(mem), mem)
      ensures ptr == NULL <==> NoneFits(old(T()), need)
      ensures ptr == NULL ==> T() == old(T()) && FL() == old(FL()) && mem == old(mem)
      ensures ptr != NULL ==>
        && ptr > p.head && Gains(old(T()), T(), ptr - p.head, need)
        && Used(T())[ptr - p.head] < need + p.head + MinSize(p)
    {
      HasLevel(p, need);
      var level := Level(p, need);
      if level == -1 {
        forall b | b in Free(T()) ensures hdr[b].size < need {
          BlockHasLevel(p, T(), b);
        }
        return NULL;
      }
      ptr := AllocAligned(need, level);
    }

    /** k_mm_alloc, the small-block pool aside. */
    method Alloc(size: nat) returns (ptr: Addr)
      requires Valid() && size < 0x1_0000_0000
      modifies this
      ensures Valid() && Keeps(Used(old(T())), p.head, old(mem), mem)
      // it fails only when no free block has the size and the minimum size
      ensures size == 0 ==> ptr == NULL
      ensures 0 < size <= LARGEST ==> (ptr == NULL <==> NoneFits(old(T()), Max(size, MinSize(p))))
      ensures size > LARGEST ==> (ptr == NULL <==> NoneFits(old(T()), MinSize(p)))
      ensures ptr == NULL ==> T() == old(T()) && FL() == old(FL()) && mem == old(mem)
      // otherwise one more block is in use, large enough unless rounding up wrapped around, and not wastefully large
      ensures ptr != NULL ==> ptr > p.head
      ensures ptr != NULL && size <= LARGEST ==> Gains(old(T()), T(), ptr - p.head, Max(size, MinSize(p)))
      ensures ptr != NULL && size > LARGEST ==> Gains(old(T()), T(), ptr - p.head, MinSize(p))
      ensures ptr != NULL ==> SnugFor(p, T(), ptr, size)
    {
      if size == 0 {
        return NULL;
      }
      RequestOk(p, size);
      NoneFitsSize(p, T(), size);
      ghost var t := T();
      ptr := AllocRounded(Request(p, size));
      if ptr != NULL {
        GainsSize(p, t, T(), ptr, size);
      }
    }

    // ----- k_mm_free -----

    /** A block grows over the one behind it; `out`, the free one of the two, leaves its list. */
    method Swallow(a: Addr, b: Addr, out: Addr, ghost f: map<Addr, nat>, ghost sizes: map<Addr, nat>)
      requires a in hdr && b in hdr && out in hdr && Listed(f) && out in f && f[out] == Level(p, hdr[out].size)
      requires LinksSpare(f, sizes, p.head) && Spare(sizes, p.head, a, p.head)
      modifies this`freelist, this`bitmap, this`link, this`mem, this`ls, this`hdr
      ensures hdr == old(hdr)[a := old(hdr)[a].(size := old(hdr)[a].size + p.head + old(hdr)[b].size)] - {b}
      ensures Listed(f - {out}) && Keeps(sizes, p.head, old(mem), mem)
    {
      ghost var m0 := mem;
      FreelistDelete(out, f, sizes);
      ghost var m1 := mem;
      PutHdr(a, hdr[a].(size := hdr[a].size + p.head + hdr[b].size), sizes);
      hdr := hdr - {b};
      KeepsOn(sizes, p.head, m0, m1, mem);
    }

    /** Merge the free block behind, if there is one. */
    method MergeForward(a: Addr, ghost t: Tiling, ghost f: map<Addr, nat>, ghost sizes: map<Addr, nat>)
      requires Freeing(t, f, sizes) && Inner(t, a) && !t.hdr[a].free && Pending(hdr, t, a)
      requires t.hdr[Next(t, a)].free ==> hdr[Next(t, a)] == t.hdr[Next(t, a)]
      modifies this`freelist, this`bitmap, this`link, this`mem, this`ls, this`hdr
      ensures t.hdr[Next(t, a)].free ==> Next(t, Next(t, a)) in t.hdr
      ensures Pending(hdr, Forward(t, a), a) && Keeps(sizes, p.head, old(mem), mem)
      ensures Listed(f - (if t.hdr[Next(t, a)].free then {Next(t, a)} else {}))
    {
      var next := a + p.head + hdr[a].size;
      if hdr[next].free {
        ForwardReady(p, t, a, sizes);
        ForwardTags(t, a, hdr);
        Swallow(a, next, next, f, sizes);
      } else {
        assert f - {} == f;
      }
    }

    /** Merge into the free block before, if there is one. */
    method MergeBackward(a: Addr, ghost t: Tiling, ghost f: map<Addr, nat>, ghost sizes: map<Addr, nat>)
      returns (q: Addr)
      requires Freeing(t, f, sizes) && Settled(t, a) && Pending(hdr, t, a)
      modifies this`freelist, this`bitmap, this`link, this`mem, this`ls, this`hdr
      ensures q == Into(t, a) && (t.hdr[a].prevFree ==> q in t.hdr && Next(t, q) == a)
      ensures Pending(hdr, Backward(t, a), q) && Keeps(sizes, p.head, old(mem), mem)
      ensures Listed(f - {q})
    {
      q := a;
      if hdr[a].prevFree {
        q := hdr[a].prev;
        MergeInto(q, a, t, f, sizes);
      } else {
        assert a !in Free(t);
        assert f - {a} == f;
      }
    }

    method MergeInto(q: Addr, a: Addr, ghost t: Tiling, ghost f: map<Addr, nat>, ghost sizes: map<Addr, nat>)
      requires Freeing(t, f, sizes) && Settled(t, a) && t.hdr[a].prevFree && Pending(hdr, t, a) && q == Into(t, a)
      modifies this`freelist, this`bitmap, this`link, this`mem, this`ls, this`hdr
      ensures q in t.hdr && Next(t, q) == a && Next(t, a) in t.hdr
      ensures Pending(hdr, Join(t, q), q) && Keeps(sizes, p.head, old(mem), mem)
      ensures Listed(f - {q})
    {
      BackwardReady(p, t, a, sizes);
      BackwardTags(t, q, hdr);
      Swallow(q, a, q, f, sizes);
    }

    /** The merged block goes on its list, and the block behind it is told. */
    method FinishFree(q: Addr, ghost t: Tiling, ghost g: map<Addr, nat>, ghost sizes: map<Addr, nat>)
      requires Tiles(t) && t.cfg == Cfg(p) && Alone(t, q) && Pending(hdr, t, q) && Covered(sizes, t) && q !in sizes
      requires Listed(g) && g == Levels(p, Free(t)) && LinksSpare(g, sizes, p.head)
      modifies this`freelist, this`bitmap, this`link, this`mem, this`ls, this`hdr
      ensures hdr == Give(t, q).hdr && Listed(Levels(p, Free(Give(t, q)))) && Keeps(sizes, p.head, old(mem), mem)
    {
      FinishReady(p, t, q, hdr, sizes);
      FileAndTell(q, g, sizes, Give(t, q).hdr);
    }

    method FileAndTell(q: Addr, ghost g: map<Addr, nat>, ghost sizes: map<Addr, nat>, ghost goal: map<Addr, Hdr>)
      requires Listed(g) && LinksSpare(g, sizes, p.head) && q in hdr && q != NULL && q !in g
      requires q + p.head + hdr[q].size in hdr
      requires 0 <= Level(p, hdr[q].size) < LevelCount(p)
      requires Spare(sizes, p.head, q + p.head, 8) && Spare(sizes, p.head, q + p.head + hdr[q].size, p.head)
      requires var n: Addr := q + p.head + hdr[q].size; hdr[n := hdr[n].(prev := q, prevFree := true)] == goal
      modifies this`freelist, this`bitmap, this`link, this`mem, this`ls, this`hdr
      ensures hdr == goal
      ensures Listed(g[q := Level(p, old(hdr)[q].size)]) && Keeps(sizes, p.head, old(mem), mem)
    {
      ghost var m0 := mem;
      FreelistInsert(q, g, sizes);
      ghost var m1 := mem;
      var next := q + p.head + hdr[q].size;
      PutHdr(next, hdr[next].(prev := q, prevFree := true), sizes);
      KeepsOn(sizes, p.head, m0, m1, mem);
    }

    /** The tag and list updates of k_mm_free, in the order it makes them. */
    method FreeSteps(a: Addr, ghost t: Tiling, ghost sizes: map<Addr, nat>)
      requires Tiles(t) && t.cfg == Cfg(p) && Listed(Levels(p, Free(t))) && sizes == Used(t) - {a}
      requires Inner(t, a) && !t.hdr[a].free && Untold(hdr, t, a)
      modifies this`freelist, this`bitmap, this`link, this`mem, this`ls, this`hdr
      ensures Next(t, a) in t.hdr && (t.hdr[Next(t, a)].free ==> Next(t, Next(t, a)) in t.hdr)
      ensures hdr == Released(t, a).hdr && Listed(Levels(p, Free(Released(t, a))))
      ensures Keeps(sizes, p.head, old(mem), mem)
    {
      ReleaseReady(p, t, a, sizes);
      ghost var m0 := mem;
      PutHdr(a, hdr[a].(free := true), sizes);
      ghost var m1 := mem;
      MergeForward(a, t, Levels(p, Free(t)), sizes);
      KeepsOn(sizes, p.head, m0, m1, mem);
      ghost var u := Forward(t, a);
      ForwardFreeing(p, t, a, sizes);
      FreeStepsOn(a, u, sizes, m0);
      ReleasedIs(t, a);
    }

    /** From the backward merge on. */
    method FreeStepsOn(a: Addr, ghost u: Tiling, ghost sizes: map<Addr, nat>, ghost m0: int -> Byte)
      requires Settled(u, a) && u.cfg == Cfg(p) && Pending(hdr, u, a) && Listed(Levels(p, Free(u)))
      requires sizes == Used(u) - {a} && Covered(sizes, u) && LinksSpare(Levels(p, Free(u)), sizes, p.head)
      requires Keeps(sizes, p.head, m0, mem)
      modifies this`freelist, this`bitmap, this`link, this`mem, this`ls, this`hdr
      ensures u.hdr[a].prevFree ==> Into(u, a) in u.hdr && Next(u, Into(u, a)) == a
      ensures Alone(Backward(u, a), Into(u, a))
      ensures hdr == Give(Backward(u, a), Into(u, a)).hdr && Listed(Levels(p, Free(Give(Backward(u, a), Into(u, a)))))
      ensures Keeps(sizes, p.head, m0, mem)
    {
      ghost var m1 := mem;
      var q := MergeBackward(a, u, Levels(p, Free(u)), sizes);
      KeepsOn(sizes, p.head, m0, m1, mem);
      BackwardFreeing(p, u, a, sizes);
      ghost var m2 := mem;
      FinishFree(q, Backward(u, a), Levels(p, Free(u)) - {q}, sizes);
      KeepsOn(sizes, p.head, m0, m2, mem);
    }

    /**
     The body of k_mm_free. The header behind the block may still be untold about it, as
     a new region's sentinel is.
     */
    method FreeBlock(a: Addr, ghost t: Tiling)
      requires Tiles(t) && t.cfg == Cfg(p) && Listed(Levels(p, Free(t)))
      requires Inner(t, a) && !t.hdr[a].free && Untold(hdr, t, a)
      modifies this`freelist, this`bitmap, this`link, this`mem, this`ls, this`hdr, this`before, this`home
      ensures Next(t, a) in t.hdr && (t.hdr[Next(t, a)].free ==> Next(t, Next(t, a)) in t.hdr)
      ensures T() == Released(t, a) && Valid() && Used(T()) == Used(t) - {a}
      ensures Keeps(Used(t) - {a}, p.head, old(mem), mem)
    {
      ReleasedOk(t, a);
      ghost var r := Released(t, a);
      FreeSteps(a, t, Used(t) - {a});
      Settle(r);
    }

    /** The tiling that the tags have come to. */
    ghost method Settle(r: Tiling)
      requires Tiles(r) && r.cfg == Cfg(p) && hdr == r.hdr && Listed(Levels(p, Free(r)))
      modifies this`before, this`home
      ensures T() == r && Valid()
    {
      before := r.before;
      home := r.home;
    }

    /** k_mm_free, the small-block pool aside. */
    method FreePtr(ptr: Addr)
      requires Valid() && (ptr != NULL ==> ptr >= p.head && ptr - p.head in Used(T()))
      modifies this`freelist, this`bitmap, this`link, this`mem, this`ls, this`hdr, this`before, this`home
      ensures Valid() && Keeps(Used(T()), p.head, old(mem), mem)
      ensures Used(T()) == if ptr == NULL then Used(old(T())) else Used(old(T())) - {ptr - p.head}
      // the released bytes lie in a free block
      ensures ptr != NULL ==> LiesFree(T(), ptr - p.head, Used(old(T()))[ptr - p.head])
    {
      if ptr == NULL {
        return;
      }
      TrulyTold(T(), ptr - p.head);
      ReleasedOk(T(), ptr - p.head);
      FreeBlock(ptr - p.head, T());
    }

    /** A block that was large enough for a size makes room for the next allocation of that size. */
    method Recycle(ptr: Addr, size: nat) returns (r: Addr)
      requires Valid() && ptr > p.head && ptr - p.head in Used(T()) && 0 < size <= Used(T())[ptr - p.head]
      modifies this
      ensures Valid() && r != NULL && size <= LARGEST
      ensures var u := Used(old(T())) - {ptr - p.head};
        r > p.head && r - p.head !in u && r - p.head in Used(T()) && Used(T()) == u[r - p.head := Used(T())[r - p.head]]
      ensures r > p.head && r - p.head in Used(T()) && size <= Used(T())[r - p.head]
    {
      RecycledFits(p, T(), ptr - p.head, size);
      ghost var n := Used(T())[ptr - p.head];
      FreePtr(ptr);
      LiesFreeFits(T(), ptr - p.head, n, Max(size, MinSize(p)));
      r := Alloc(size);
    }

    // ----- krhino_add_mm_region -----

    /** init_mm_region: the first block, the space, and the sentinel, which already calls the space free. */
    method InitRegion(start: Addr, size: nat, ghost t: Tiling, ghost sizes: map<Addr, nat>)
      requires t.cfg == Cfg(p) && t.hdr == hdr && RegionFits(t, start, size, p.info) && Covered(sizes, t)
      modifies this`hdr, this`mem
      ensures Keeps(sizes, p.head, old(mem), mem) && hdr == InitHdrs(t, start, size, p.info)
    {
      VacantSpare(t, start, size, sizes);
      ghost var m0 := mem;
      PutHdr(start, Hdr(NULL, p.info, false, false), sizes);
      var last := start + size - p.head;
      var mid := start + p.head + p.info;
      ghost var m1 := mem;
      PutHdr(mid, Hdr(NULL, last - mid - p.head, false, false), sizes);
      KeepsOn(sizes, p.head, m0, m1, mem);
      ghost var m2 := mem;
      PutHdr(last, Hdr(mid, 0, false, true), sizes);
      KeepsOn(sizes, p.head, m0, m2, mem);
    }

    /** krhino_add_mm_region, for memory no block uses. */
    method AddRegion(addr: Addr, len: nat) returns (ok: bool)
      requires Valid() && addr > 0 && RegionStart(addr) - addr <= len <= Pow2(p.maxBit)
      requires Vacant(T(), RegionStart(addr), RegionSize(addr, len))
      modifies this
      ensures Valid() && Keeps(Used(old(T())), p.head, old(mem), mem)
      ensures ok <==> RegionSize(addr, len) >= 3 * p.head + p.info + MinSize(p)
      ensures !ok ==> T() == old(T())
      ensures ok ==>
        AddsSpace(old(T()), T(), RegionStart(addr) + p.head + p.info, RegionSize(addr, len) - 3 * p.head - p.info)
    {
      var start := RegionStart(addr);
      var size := RegionSize(addr, len);
      if size < 3 * p.head + p.info + MinSize(p) {
        return false;
      }
      ghost var at, n := start + p.head + p.info, size - 3 * p.head - p.info;
      RegionHasRoom(p, T(), start, size);
      AddFitted(start, size, T(), at, n);
      assert AddsSpace(old(T()), T(), at, n);
      return true;
    }

    method AddFitted(start: Addr, size: nat, ghost t: Tiling, ghost at: Addr, ghost n: nat)
      requires Valid() && t == T() && RegionFits(t, start, size, p.info)
      requires at == start + p.head + p.info && n == size - 3 * p.head - p.info
      modifies this`freelist, this`bitmap, this`link, this`mem, this`ls, this`hdr, this`before, this`home
      ensures Valid() && AddsSpace(t, T(), at, n) && Keeps(Used(t), p.head, old(mem), mem)
    {
      ghost var r := RegionLaid(p, t, start, size, at, n);
      AddAligned(start, size, t, r, at, Used(t));
    }

    /** The region is cleared and laid out, and its space freed, which puts it on a list and corrects the sentinel. */
    method AddAligned(start: Addr, size: nat, ghost t: Tiling, ghost r: Tiling, ghost at: Addr, ghost sizes: map<Addr,
                      nat>)
      requires t.cfg == Cfg(p) && t.hdr == hdr && Covered(sizes, t) && at == start + p.head + p.info
      requires RegionFits(t, start, size, p.info) && r.cfg == Cfg(p) && Untold(InitHdrs(t, start, size, p.info), r, at)
      requires Tiles(r) && Listed(Levels(p, Free(r))) && Inner(r, at) && !r.hdr[at].free && sizes == Used(r) - {at}
      modifies this`freelist, this`bitmap, this`link, this`mem, this`ls, this`hdr, this`before, this`home
      ensures Next(r, at) in r.hdr && (r.hdr[Next(r, at)].free ==> Next(r, Next(r, at)) in r.hdr)
      ensures Valid() && T() == Released(r, at) && Keeps(sizes, p.head, old(mem), mem)
    {
      ghost var m0 := mem;
      ClearAndInit(start, size, t, sizes);
      ghost var m2 := mem;
      FreeBlock(start + p.head + p.info, r);
      KeepsOn(sizes, p.head, m0, m2, mem);
    }

    /** The region is cleared and laid out. */
    method ClearAndInit(start: Addr, size: nat, ghost t: Tiling, ghost sizes: map<Addr, nat>)
      requires t.cfg == Cfg(p) && t.hdr == hdr && RegionFits(t, start, size, p.info) && Covered(sizes, t)
      modifies this`hdr, this`mem
      ensures Keeps(sizes, p.head, old(mem), mem) && hdr == InitHdrs(t, start, size, p.info)
    {
      ghost var m0 := mem;
      VacantSpare(t, start, size, sizes);
      mem := Scribbled(mem, _ => 0, start, size);
      ghost var m1 := mem;
      InitRegion(start, size, t, sizes);
      KeepsOn(sizes, p.head, m0, m1, mem);
    }

    // ----- k_mm_realloc -----

    /** The tags of a block cut down to what is needed. */
    method CutTags(a: Addr, need: nat, next: Addr, total: nat, ghost u: Tiling, ghost sizes: map<Addr, nat>)
      requires u.cfg == Cfg(p) && ConfigOk(u.cfg) && Splits(u, a, need) && Resizing(hdr, u, a)
      requires Rest(u, a, need) !in u.hdr
      requires next == Next(u, a) && total == u.hdr[a].size
      requires Spare(sizes, p.head, a, p.head) && Spare(sizes, p.head, next, p.head)
      requires Spare(sizes, p.head, Rest(u, a, need), p.head)
      modifies this`hdr, this`mem
      ensures hdr == Split(u, a, need).hdr && Keeps(sizes, p.head, old(mem), mem)
    {
      TailTags(u, a, need, hdr);
      ghost var m0 := mem;
      var left := total - need - p.head;
      PutHdr(a, hdr[a].(size := need, free := false), sizes);
      var rest := a + p.head + need;
      ghost var m1 := mem;
      PutHdr(rest, Hdr(a, left, true, false), sizes);
      KeepsOn(sizes, p.head, m0, m1, mem);
      ghost var m2 := mem;
      PutHdr(next, hdr[next].(prev := rest, prevFree := true), sizes);
      KeepsOn(sizes, p.head, m0, m2, mem);
    }

    /** Cut a block down to what is needed and put the rest on a free list. */
    method SplitTail(a: Addr, need: nat, next: Addr, total: nat, ghost u: Tiling, ghost sizes: map<Addr, nat>)
      requires Tiles(u) && u.cfg == Cfg(p) && Listed(Levels(p, Free(u))) && Covered(sizes, u)
      requires LinksSpare(Levels(p, Free(u)), sizes, p.head) && Splits(u, a, need) && Resizing(hdr, u, a)
      requires next == Next(u, a) && total == u.hdr[a].size && (a in sizes ==> sizes[a] <= need)
      modifies this`freelist, this`bitmap, this`link, this`mem, this`ls, this`hdr
      ensures hdr == Split(u, a, need).hdr && Listed(Levels(p, Free(Split(u, a, need))))
      ensures Keeps(sizes, p.head, old(mem), mem)
    {
      TailSpares(u, a, need, sizes);
      TailLevels(p, u, a, need);
      CutAndFile(a, need, next, total, u, Levels(p, Free(u)), sizes);
    }

    method CutAndFile(a: Addr, need: nat, next: Addr, total: nat, ghost u: Tiling, ghost f: map<Addr, nat>,
                      ghost sizes: map<Addr, nat>)
      requires u.cfg == Cfg(p) && ConfigOk(u.cfg) && Splits(u, a, need) && Resizing(hdr, u, a)
      requires Rest(u, a, need) !in u.hdr
      requires next == Next(u, a) && total == u.hdr[a].size
      requires Spare(sizes, p.head, a, p.head) && Spare(sizes, p.head, next, p.head)
      requires Spare(sizes, p.head, Rest(u, a, need), p.head)
      requires Spare(sizes, p.head, Rest(u, a, need) + p.head, 8) && Listed(f) && LinksSpare(f, sizes, p.head)
      requires Rest(u, a, need) !in f && Rest(u, a, need) != NULL
      requires 0 <= Level(p, total - need - p.head) < LevelCount(p)
      modifies this`freelist, this`bitmap, this`link, this`mem, this`ls, this`hdr
      ensures hdr == Split(u, a, need).hdr && Listed(f[Rest(u, a, need) := Level(p, total - need - p.head)])
      ensures Keeps(sizes, p.head, old(mem), mem)
    {
      var rest := a + p.head + need;
      TailRestHdr(u, a, need);
      ghost var m0 := mem;
      CutTags(a, need, next, total, u, sizes);
      ghost var m1 := mem;
      FreelistInsert(rest, f, sizes);
      KeepsOn(sizes, p.head, m0, m1, mem);
    }

    /** The free block behind leaves its list and stops being a block; the sizes are not written yet. */
    method TakeIn(a: Addr, next: Addr, ghost t: Tiling, ghost sizes: map<Addr, nat>)
      requires Freeing(t, Levels(p, Free(t)), sizes) && t.hdr == hdr && Inner(t, a) && !t.hdr[a].free
      requires next == Next(t, a) && next in t.hdr && t.hdr[next].free
      modifies this`freelist, this`bitmap, this`link, this`mem, this`ls, this`hdr
      ensures Next(t, next) in t.hdr && Absorbs(t, a) && hdr == t.hdr - {next} && Resizing(hdr, Forward(t, a), a)
      ensures Listed(Levels(p, Free(Forward(t, a)))) && Keeps(sizes, p.head, old(mem), mem)
    {
      ForwardKept(p, t, a, sizes);
      AbsorbTags(t, a);
      FreelistDelete(next, Levels(p, Free(t)), sizes);
      hdr := hdr - {next};
    }

    /** The arm of k_mm_realloc for a block that is large enough already. */
    method Shrink(a: Addr, need: nat, ghost t: Tiling, ghost sizes: map<Addr, nat>)
      requires Freeing(t, Levels(p, Free(t)), sizes) && t.hdr == hdr && Inner(t, a) && !t.hdr[a].free
      requires Next(t, a) in t.hdr
      requires need % 8 == 0 && MinSize(p) <= need <= hdr[a].size && (a in sizes ==> sizes[a] <= need)
      modifies this`freelist, this`bitmap, this`link, this`mem, this`ls, this`hdr
      ensures t.hdr[Next(t, a)].free ==> Next(t, Next(t, a)) in t.hdr
      ensures hdr == Resized(t, a, need).hdr && Listed(Levels(p, Free(Resized(t, a, need))))
      ensures Keeps(sizes, p.head, old(mem), mem)
    {
      ForwardKept(p, t, a, sizes);
      ghost var u := Forward(t, a);
      var total := hdr[a].size;
      var next := a + p.head + total;
      ghost var m0 := mem;
      if hdr[next].free {
        total := total + p.head + hdr[next].size;
        var after := next + p.head + hdr[next].size;
        TakeIn(a, next, t, sizes);
        next := after;
        MergedLeavesRoom(t, a, need);
      } else {
        assert Resizing(hdr, u, a);
      }
      ghost var m1 := mem;
      if total >= need + p.head + MinSize(p) {
        ResizeSplits(t, a, need);
        SplitTail(a, need, next, total, u, sizes);
        KeepsOn(sizes, p.head, m0, m1, mem);
      }
    }

    /** The arm of k_mm_realloc for a block that becomes large enough with the free one behind it. */
    method Enlarge(a: Addr, need: nat, ghost t: Tiling, ghost sizes: map<Addr, nat>)
      requires Freeing(t, Levels(p, Free(t)), sizes) && t.hdr == hdr && Inner(t, a) && !t.hdr[a].free
      requires Next(t, a) in t.hdr && t.hdr[Next(t, a)].free
      requires need % 8 == 0 && MinSize(p) <= need && (a in sizes ==> sizes[a] <= need && sizes[a] <= hdr[a].size)
      modifies this`freelist, this`bitmap, this`link, this`mem, this`ls, this`hdr
      ensures Next(t, Next(t, a)) in t.hdr
      ensures hdr == Resized(t, a, need).hdr && Listed(Levels(p, Free(Resized(t, a, need))))
      ensures Keeps(sizes, p.head, old(mem), mem)
    {
      ForwardKept(p, t, a, sizes);
      ghost var u := Forward(t, a);
      ghost var m0 := mem;
      var after, total := TakeOver(a, t, sizes);
      if total >= need + p.head + MinSize(p) {
        ResizeSplits(t, a, need);
        ghost var m2 := mem;
        SplitTail(a, need, after, total, u, sizes);
        KeepsOn(sizes, p.head, m0, m2, mem);
      }
    }

    /** The block takes over the free one behind it, tags included. */
    method TakeOver(a: Addr, ghost t: Tiling, ghost sizes: map<Addr, nat>) returns (after: Addr, total: nat)
      requires Freeing(t, Levels(p, Free(t)), sizes) && t.hdr == hdr && Inner(t, a) && !t.hdr[a].free
      requires Next(t, a) in t.hdr && t.hdr[Next(t, a)].free
      modifies this`freelist, this`bitmap, this`link, this`mem, this`ls, this`hdr
      ensures Next(t, Next(t, a)) in t.hdr && a in Forward(t, a).hdr
      ensures hdr == Forward(t, a).hdr && Resizing(hdr, Forward(t, a), a) && Listed(Levels(p, Free(Forward(t, a))))
      ensures after == Next(Forward(t, a), a) && total == hdr[a].size
      ensures Keeps(sizes, p.head, old(mem), mem)
    {
      var next := a + p.head + hdr[a].size;
      total := hdr[a].size + p.head + hdr[next].size;
      after := next + p.head + hdr[next].size;
      ForwardKept(p, t, a, sizes);
      ghost var u := Forward(t, a);
      AbsorbedTags(t, a);
      ghost var m0 := mem;
      TakeIn(a, next, t, sizes);
      ghost var m1 := mem;
      EnlargeTags(a, after, total, u, sizes);
      KeepsOn(sizes, p.head, m0, m1, mem);
    }

    /** The block gets its new size, and the block behind is told that it is in use. */
    method EnlargeTags(a: Addr, next: Addr, total: nat, ghost u: Tiling, ghost sizes: map<Addr, nat>)
      requires u.cfg == Cfg(p) && Settled(u, a) && Covered(sizes, u) && Resizing(hdr, u, a)
      requires next == Next(u, a) && total == u.hdr[a].size && u.hdr[next].prev == a && !u.hdr[next].prevFree
      modifies this`hdr, this`mem
      ensures hdr == u.hdr && Resizing(hdr, u, a) && Keeps(sizes, p.head, old(mem), mem)
    {
      HeaderSpare(u, sizes, a);
      HeaderSpare(u, sizes, next);
      ghost var m0 := mem;
      PutHdr(a, hdr[a].(size := total), sizes);
      ghost var m1 := mem;
      PutHdr(next, hdr[next].(prev := a, prevFree := false), sizes);
      KeepsOn(sizes, p.head, m0, m1, mem);
    }

    /** Both in-place arms: the block stays where it is. */
    method ResizeInPlace(a: Addr, need: nat, ghost t: Tiling, ghost sizes: map<Addr, nat>)
      requires Valid() && t == T() && a in Used(t) && need % 8 == 0 && MinSize(p) <= need && FitsInPlace(t, a, need)
      requires sizes == Used(t)[a := Min(hdr[a].size, need)]
      modifies this`freelist, this`bitmap, this`link, this`mem, this`ls, this`hdr, this`before, this`home
      ensures Valid() && Keeps(sizes, p.head, old(mem), mem)
      ensures a in Used(T()) && Used(T()) == Used(t)[a := Used(T())[a]]
      ensures need <= Used(T())[a] < need + p.head + MinSize(p)
    {
      ResizeReady(p, t, a, need, sizes);
      ResizedOk(t, a, need);
      ghost var r := Resized(t, a, need);
      if need <= hdr[a].size {
        Shrink(a, need, t, sizes);
      } else {
        Enlarge(a, need, t, sizes);
      }
      Settle(r);
    }

    /** memcpy into a block of the caller's. */
    method CopyBytes(dst: Addr, src: Addr, n: nat)
      modifies this`mem
      ensures SameBytes(old(mem), src, mem, dst, n)
      ensures SameElsewhere(old(mem), mem, dst, n)
    {
      var m0 := mem;
      for i := 0 to n
        invariant SameBytes(m0, src, mem, dst, i) && SameElsewhere(m0, mem, dst, i)
      {
        var m1 := mem;
        mem := Poked(m1, dst + i, m0(src + i));
        PokedAt(m1, dst + i, m0(src + i));
      }
    }

    /** The old block is freed once its contents have been copied. */
    method FreeCopied(ptr: Addr, r: Addr, ghost t: Tiling, ghost m0: int -> Byte, ghost m1: int -> Byte)
      requires Valid() && ptr > p.head && r > p.head
      requires Joined(t, T(), ptr - p.head, r - p.head) && Keeps(Used(t), p.head, m0, m1)
      requires SameBytes(m1, ptr, mem, r, Used(t)[ptr - p.head])
      requires SameElsewhere(m1, mem, r, Used(t)[ptr - p.head])
      modifies this`freelist, this`bitmap, this`link, this`mem, this`ls, this`hdr, this`before, this`home
      ensures Valid() && Used(T()) == Used(old(T())) - {ptr - p.head}
      ensures Keeps(Used(t) - {ptr - p.head}, p.head, m0, mem)
      ensures SameBytes(m0, ptr, mem, r, Used(t)[ptr - p.head])
    {
      ghost var u, m2 := T(), mem;
      FreePtr(ptr);
      RelocateBytes(t, u, ptr - p.head, r - p.head, ptr, r, m0, m1, m2, mem);
    }

    /** The contents go to the new block, and the old one is freed. */
    method MoveOver(ptr: Addr, r: Addr, ghost t: Tiling, ghost m0: int -> Byte)
      requires Valid() && ptr > p.head && r > p.head
      requires Joined(t, T(), ptr - p.head, r - p.head) && Keeps(Used(t), p.head, m0, mem)
      modifies this`freelist, this`bitmap, this`link, this`mem, this`ls, this`hdr, this`before, this`home
      ensures Valid() && Used(T()) == Used(old(T())) - {ptr - p.head}
      ensures Keeps(Used(t) - {ptr - p.head}, p.head, m0, mem)
      ensures SameBytes(m0, ptr, mem, r, Used(t)[ptr - p.head])
    {
      ghost var a, u, m1 := ptr - p.head, T(), mem;
      assert a in Used(u) && Used(u)[a] == Used(t)[a];
      CopyBytes(r, ptr, hdr[ptr - p.head].size);
      assert T() == u;
      FreeCopied(ptr, r, t, m0, m1);
    }

    /** The last arm of k_mm_realloc: another block, a copy, and the old block freed. */
    method Relocate(ptr: Addr, need: nat) returns (r: Addr)
      requires Valid() && ptr > p.head && ptr - p.head in Used(T())
      requires 0 < need < 0x1_0000_0000 && need % 8 == 0 && MinSize(p) <= need && hdr[ptr - p.head].size < need
      modifies this
      ensures Valid() && Keeps(Used(old(T())) - {ptr - p.head}, p.head, old(mem), mem)
      ensures r == NULL <==> NoneFits(old(T()), need)
      ensures r == NULL ==> T() == old(T()) && mem == old(mem)
      ensures r != NULL ==> r > p.head && Moves(old(T()), T(), ptr - p.head, r - p.head, need)
      ensures r != NULL ==> Snug(T(), r, need)
      ensures r != NULL ==> SameBytes(old(mem), ptr, mem, r, old(hdr)[ptr - p.head].size)
    {
      ghost var a, t, m0 := ptr - p.head, T(), mem;
      r := Alloc(need);
      if r == NULL {
        return;
      }
      MoveInto(ptr, r, need, t, m0);
    }

    /** The new block takes the place of the old one. */
    method MoveInto(ptr: Addr, r: Addr, need: nat, ghost t: Tiling, ghost m0: int -> Byte)
      requires Valid() && t.cfg == Cfg(p) && ptr > p.head && r > p.head && ptr - p.head in Used(t)
      requires Used(t)[ptr - p.head] < need && Gains(t, T(), r - p.head, need) && Keeps(Used(t), p.head, m0, mem)
      requires Snug(T(), r, need)
      modifies this`freelist, this`bitmap, this`link, this`mem, this`ls, this`hdr, this`before, this`home
      ensures Valid() && Moves(t, T(), ptr - p.head, r - p.head, need) && Snug(T(), r, need)
      ensures Keeps(Used(t) - {ptr - p.head}, p.head, m0, mem)
      ensures SameBytes(m0, ptr, mem, r, Used(t)[ptr - p.head])
    {
      ghost var a, u := ptr - p.head, T();
      GainsJoins(t, u, a, r - p.head, need);
      MoveOver(ptr, r, t, m0);
      MovedUse(t, u, T(), a, r - p.head, need, r);
    }

    /** The arms of k_mm_realloc that leave the block where it is. */
    method ResizeHere(ptr: Addr, need: nat, ghost t: Tiling)
      requires Valid() && t == T() && ptr > p.head && ptr - p.head in Used(t)
      requires need % 8 == 0 && MinSize(p) <= need && FitsInPlace(t, ptr - p.head, need)
      modifies this`freelist, this`bitmap, this`link, this`mem, this`ls, this`hdr, this`before, this`home
      ensures Valid() && Reallocated(t, T(), old(mem), mem, ptr, ptr, need) && Snug(T(), ptr, need)
    {
      ghost var m0 := mem;
      var a := ptr - p.head;
      ghost var sizes := Used(t)[a := Min(hdr[a].size, need)];
      ResizeInPlace(a, need, t, sizes);
      ResizedIs(t, T(), sizes, m0, mem, ptr, a, need);
    }

    /** k_mm_realloc for a block and an aligned size. */
    method ReallocBlock(ptr: Addr, need: nat, ghost t: Tiling) returns (r: Addr)
      requires Valid() && t == T() && ptr > p.head && ptr - p.head in Used(t)
      requires 0 < need < 0x1_0000_0000 && need % 8 == 0 && MinSize(p) <= need
      modifies this
      ensures Valid() && Reallocated(t, T(), old(mem), mem, ptr, r, need) && (r != NULL ==> Snug(T(), r, need))
    {
      var a := ptr - p.head;
      TrulyTold(t, a);
      var next := a + p.head + hdr[a].size;
      if need <= hdr[a].size || (hdr[next].free && need <= hdr[a].size + p.head + hdr[next].size) {
        ResizeHere(ptr, need, t);
        return ptr;
      }
      ghost var m0 := mem;
      r := Relocate(ptr, need);
      RelocatedIs(t, T(), m0, mem, ptr, r, need);
    }

    /** k_mm_realloc for a block and a size. */
    method ReallocSized(ptr: Addr, size: nat, ghost t: Tiling) returns (r: Addr)
      requires Valid() && t == T() && 0 < size < 0x1_0000_0000 && ptr > p.head && ptr - p.head in Used(t)
      modifies this
      ensures Valid()
      ensures Reallocated(t, T(), old(mem), mem, ptr, r, Needed(p, size)) && (r != NULL ==> SnugFor(p, T(), r, size))
      ensures Served(t, T(), old(mem), mem, ptr, r, size)
    {
      RequestOk(p, size);
      RequestSmall(p, size);
      MinSizeOk(p);
      ghost var m0 := mem;
      r := ReallocBlock(ptr, Request(p, size), t);
      ReallocServes(p, t, T(), m0, mem, ptr, r, size);
      ReallocatedSize(p, t, T(), m0, mem, ptr, r, size);
    }

    /** k_mm_realloc, the small-block pool aside. */
    method Realloc(ptr: Addr, size: nat) returns (r: Addr)
      requires Valid() && size < 0x1_0000_0000 && (ptr != NULL ==> ptr > p.head && ptr - p.head in Used(T()))
      modifies this
      ensures Valid()
      // no old block: an allocation
      ensures ptr == NULL ==> Keeps(Used(old(T())), p.head, old(mem), mem)
      ensures ptr == NULL && size == 0 ==> r == NULL
      ensures ptr == NULL && 0 < size <= LARGEST ==> (r == NULL <==> NoneFits(old(T()), Max(size, MinSize(p))))
      ensures ptr == NULL && size > LARGEST ==> (r == NULL <==> NoneFits(old(T()), MinSize(p)))
      ensures ptr == NULL && r == NULL ==> T() == old(T()) && mem == old(mem)
      ensures ptr == NULL && r != NULL ==> r > p.head
      ensures ptr == NULL && r != NULL && size <= LARGEST ==> Gains(old(T()), T(), r - p.head, Max(size, MinSize(p)))
      ensures ptr == NULL && r != NULL && size > LARGEST ==> Gains(old(T()), T(), r - p.head, MinSize(p))
      // no new size: a release
      ensures ptr != NULL && size == 0 ==> r == NULL && Used(T()) == Used(old(T())) - {ptr - p.head}
      ensures ptr != NULL && size == 0 ==> Keeps(Used(T()), p.head, old(mem), mem)
      // otherwise the block grows or shrinks in place or moves, and has room for what the caller asked for
      ensures ptr != NULL && 0 < size <= LARGEST ==>
        Reallocated(old(T()), T(), old(mem), mem, ptr, r, Max(size, MinSize(p)))
      ensures ptr != NULL && size > LARGEST ==> Reallocated(old(T()), T(), old(mem), mem, ptr, r, MinSize(p))
      ensures ptr != NULL && size > 0 ==> Served(old(T()), T(), old(mem), mem, ptr, r, size)
      // and it is not wastefully large
      ensures r != NULL ==> SnugFor(p, T(), r, size)
    {
      if ptr == NULL {
        if size > 0 {
          r := Alloc(size);
        } else {
          r := NULL;
        }
      } else if size == 0 {
        FreePtr(ptr);
        r := NULL;
      } else {
        r := ReallocSized(ptr, size, T());
      }
    }

    /** The lists hold the free blocks of t, and everything but the kept bytes is spare. */
    ghost predicate Freeing(t: Tiling, f: map<Addr, nat>, sizes: map<Addr, nat>)
      reads this
    {
      && Tiles(t) && t.cfg == Cfg(p) && f == Levels(p, Free(t)) && Listed(f)
      && Covered(sizes, t) && LinksSpare(f, sizes, p.head) && forall b | b in sizes :: b in Used(t)
    }
  }

  function RegionStart(addr: Addr): (r: nat)
    ensures r % 8 == 0 && addr <= r < addr + 8
  {
    (addr + 7) / 8 * 8
  }

  function RegionSize(addr: Addr, len: nat): (r: nat)
    requires RegionStart(addr) - addr <= len
    ensures r % 8 == 0 && r <= len - (RegionStart(addr) - addr) < r + 8
  {
    (len - (RegionStart(addr) - addr)) / 8 * 8
  }

  /** Memory for a region that no block uses. */
  ghost predicate Vacant(t: Tiling, start: Addr, size: nat) {
    start > 0 && start % 8 == 0 && size % 8 == 0
    && forall b | b in t.hdr :: Next(t, b) <= start || start + size <= b
  }

  lemma VacantSpare(t: Tiling, start: Addr, size: nat, sizes: map<Addr, nat>)
    requires Vacant(t, start, size) && Covered(sizes, t)
    ensures Spare(sizes, t.cfg.head, start, size)
    ensures forall lo: int, n: nat | start <= lo && lo + n <= start + size :: Spare(sizes, t.cfg.head, lo, n)
  {
  }

  /** The blocks with a new region's, whose space is in use. */
  function WithRegion(t: Tiling, start: Addr, size: nat, info: nat): Tiling
    requires size >= 3 * t.cfg.head + info
  {
    var mid, last := start + t.cfg.head + info, start + size - t.cfg.head;
    var home := Region(start, last);
    t.(hdr := t.hdr[start := Hdr(NULL, info, false, false)]
                   [mid := Hdr(NULL, size - 3 * t.cfg.head - info, false, false)]
                   [last := Hdr(mid, 0, false, false)],
       before := t.before[mid := start][last := mid],
       home := t.home[start := home][mid := home][last := home])
  }

  /** The sizes of a region that can be added. */
  ghost predicate RegionFits(t: Tiling, start: Addr, size: nat, info: nat) {
    && ConfigOk(t.cfg) && Vacant(t, start, size) && info > 0 && info % 8 == 0
    && 3 * t.cfg.head + info + t.cfg.minSize <= size <= t.cfg.maxSize
  }

  lemma RegionHasRoom(p: Params, t: Tiling, start: Addr, size: nat)
    requires ParamsOk(p) && t.cfg == Cfg(p) && Vacant(t, start, size)
    requires 3 * p.head + p.info + MinSize(p) <= size <= Pow2(p.maxBit)
    ensures RegionFits(t, start, size, p.info)
  {
    MinSizeOk(p);
  }

  lemma OldBlock(t: Tiling, start: Addr, size: nat, info: nat, b: Addr)
    requires RegionFits(t, start, size, info) && b in t.hdr && AroundOk(t, b)
    ensures BlockOk(WithRegion(t, start, size, info), b)
  {
    OldBlockTags(t, start, size, info, b);
    OldBlockPlace(t, start, size, info, b);
  }

  lemma OldBlockTags(t: Tiling, start: Addr, size: nat, info: nat, b: Addr)
    requires RegionFits(t, start, size, info) && b in t.hdr && AroundOk(t, b)
    ensures var r, a: Addr := WithRegion(t, start, size, info), b;
      LastOk(r, a) && FirstOk(r, a) && SizeOk(r, a) && BeforeOk(r, a)
  {
  }

  lemma OldBlockPlace(t: Tiling, start: Addr, size: nat, info: nat, b: Addr)
    requires RegionFits(t, start, size, info) && b in t.hdr && AroundOk(t, b)
    ensures var r, a: Addr := WithRegion(t, start, size, info), b;
      HomeOk(r, a) && BorderOk(r, a)
  {
  }

  lemma NewFirst(t: Tiling, start: Addr, size: nat, info: nat)
    requires RegionFits(t, start, size, info)
    ensures BlockOk(WithRegion(t, start, size, info), start)
  {
    NewFirstTags(t, start, size, info);
    NewFirstPlace(t, start, size, info);
  }

  lemma NewFirstTags(t: Tiling, start: Addr, size: nat, info: nat)
    requires RegionFits(t, start, size, info)
    ensures var r, a: Addr := WithRegion(t, start, size, info), start;
      LastOk(r, a) && FirstOk(r, a) && SizeOk(r, a) && BeforeOk(r, a)
  {
  }

  lemma NewFirstPlace(t: Tiling, start: Addr, size: nat, info: nat)
    requires RegionFits(t, start, size, info)
    ensures var r, a: Addr := WithRegion(t, start, size, info), start;
      HomeOk(r, a) && BorderOk(r, a)
  {
  }

  lemma NewMid(t: Tiling, start: Addr, size: nat, info: nat)
    requires RegionFits(t, start, size, info)
    ensures BlockOk(WithRegion(t, start, size, info), start + t.cfg.head + info)
  {
    NewMidTags(t, start, size, info);
    NewMidPlace(t, start, size, info);
  }

  lemma NewMidTags(t: Tiling, start: Addr, size: nat, info: nat)
    requires RegionFits(t, start, size, info)
    ensures var r, a: Addr := WithRegion(t, start, size, info), start + t.cfg.head + info;
      LastOk(r, a) && FirstOk(r, a) && SizeOk(r, a) && BeforeOk(r, a)
  {
    Eights(start, t.cfg.head, info);
    Eights(t.cfg.head, t.cfg.head, t.cfg.head);
    Eights(0, t.cfg.head + t.cfg.head + t.cfg.head, info);
    EightsLess(size, 3 * t.cfg.head + info);
  }

  lemma NewMidPlace(t: Tiling, start: Addr, size: nat, info: nat)
    requires RegionFits(t, start, size, info)
    ensures var r, a: Addr := WithRegion(t, start, size, info), start + t.cfg.head + info;
      HomeOk(r, a) && BorderOk(r, a)
  {
  }

  lemma NewLast(t: Tiling, start: Addr, size: nat, info: nat)
    requires RegionFits(t, start, size, info)
    ensures BlockOk(WithRegion(t, start, size, info), start + size - t.cfg.head)
  {
    NewLastTags(t, start, size, info);
    NewLastPlace(t, start, size, info);
  }

  lemma NewLastTags(t: Tiling, start: Addr, size: nat, info: nat)
    requires RegionFits(t, start, size, info)
    ensures var r, a: Addr := WithRegion(t, start, size, info), start + size - t.cfg.head;
      LastOk(r, a) && FirstOk(r, a) && SizeOk(r, a) && BeforeOk(r, a)
  {
    Eights(start, size, 0);
    EightsLess(start + size, t.cfg.head);
  }

  lemma NewLastPlace(t: Tiling, start: Addr, size: nat, info: nat)
    requires RegionFits(t, start, size, info)
    ensures var r, a: Addr := WithRegion(t, start, size, info), start + size - t.cfg.head;
      HomeOk(r, a) && BorderOk(r, a)
  {
  }

  /** A new region's blocks lie in its memory, the old ones outside. */
  lemma WhereBlocksAre(t: Tiling, start: Addr, size: nat, info: nat, b: Addr)
    requires RegionFits(t, start, size, info) && b in WithRegion(t, start, size, info).hdr
    ensures var r := WithRegion(t, start, size, info);
      if b in t.hdr then r.hdr[b] == t.hdr[b] && (Next(r, b) <= start || start + size <= b)
      else
        start <= b && Next(r, b) <= start + size && b in {start, start + t.cfg.head + info, start + size - t.cfg.head}
  {
  }

  lemma RegionApart(t: Tiling, start: Addr, size: nat, info: nat, b: Addr, c: Addr)
    requires RegionFits(t, start, size, info)
    requires b in WithRegion(t, start, size, info).hdr && c in WithRegion(t, start, size, info).hdr
    requires b in t.hdr && c in t.hdr ==> Apart(t, b, c)
    ensures Apart(WithRegion(t, start, size, info), b, c)
  {
    WhereBlocksAre(t, start, size, info, b);
    WhereBlocksAre(t, start, size, info, c);
  }

  lemma RegionMaps(t: Tiling, start: Addr, size: nat, info: nat)
    requires RegionFits(t, start, size, info)
    requires forall b | b in t.hdr && b !in t.home :: false
    ensures var r := WithRegion(t, start, size, info); var mid := start + t.cfg.head + info;
      Free(r) == Free(t) && Used(r) == Used(t)[mid := size - 3 * t.cfg.head - info] && mid !in Used(t)
  {
    var r, mid := WithRegion(t, start, size, info), start + t.cfg.head + info;
    RegionKinds(t, start, size, info, r);
    VacantMid(t, start, size, mid);
    RegionMapsAt(t, r, mid);
  }

  lemma RegionKinds(t: Tiling, start: Addr, size: nat, info: nat, r: Tiling)
    requires RegionFits(t, start, size, info) && r == WithRegion(t, start, size, info)
    requires forall c | c in t.hdr && c !in t.home :: false
    ensures forall b | b in r.hdr :: SameKind(t, r, start + t.cfg.head + info, b)
  {
    forall b | b in r.hdr ensures SameKind(t, r, start + t.cfg.head + info, b) {
      RegionKind(t, start, size, info, b);
    }
  }

  /** An old block is what it was, and of the new ones only mid is an inner block. */
  ghost predicate SameKind(t: Tiling, r: Tiling, mid: Addr, b: Addr)
    requires b in r.hdr
  {
    if b in t.hdr then Inner(r, b) == Inner(t, b) && r.hdr[b] == t.hdr[b]
    else !r.hdr[b].free && (Inner(r, b) <==> b == mid)
  }

  lemma VacantMid(t: Tiling, start: Addr, size: nat, mid: Addr)
    requires Vacant(t, start, size) && start < mid < start + size && t.cfg.head > 0
    ensures mid !in t.hdr
  {
  }

  lemma RegionKind(t: Tiling, start: Addr, size: nat, info: nat, b: Addr)
    requires RegionFits(t, start, size, info) && b in WithRegion(t, start, size, info).hdr
    requires forall c | c in t.hdr && c !in t.home :: false
    ensures SameKind(t, WithRegion(t, start, size, info), start + t.cfg.head + info, b)
  {
    WhereBlocksAre(t, start, size, info, b);
  }

  lemma RegionMapsAt(t: Tiling, r: Tiling, mid: Addr)
    requires mid in r.hdr && mid !in t.hdr && forall b | b in t.hdr :: b in r.hdr
    requires forall b | b in r.hdr :: SameKind(t, r, mid, b)
    ensures Free(r) == Free(t) && Used(r) == Used(t)[mid := r.hdr[mid].size]
  {
    assert SameKind(t, r, mid, mid);
    assert Free(r).Keys == Free(t).Keys;
    assert Used(r).Keys == Used(t).Keys + {mid};
  }

  lemma RegionTiles(t: Tiling, start: Addr, size: nat, info: nat)
    requires RegionFits(t, start, size, info) && Tiles(t)
    ensures Tiles(WithRegion(t, start, size, info))
  {
    var r := WithRegion(t, start, size, info);
    NewFirst(t, start, size, info);
    NewMid(t, start, size, info);
    NewLast(t, start, size, info);
    forall b | b in r.hdr ensures BlockOk(r, b) {
      WhereBlocksAre(t, start, size, info, b);
      if b in t.hdr {
        Around(t, b);
        OldBlock(t, start, size, info, b);
      }
    }
    forall b, c | b in r.hdr && c in r.hdr ensures Apart(r, b, c) {
      assert b in t.hdr && c in t.hdr ==> Apart(t, b, c);
      RegionApart(t, start, size, info, b, c);
    }
  }

  lemma RegionMid(t: Tiling, start: Addr, size: nat, info: nat)
    requires RegionFits(t, start, size, info)
    ensures var r := WithRegion(t, start, size, info); var mid := start + t.cfg.head + info;
      && Inner(r, mid) && !r.hdr[mid].free && !r.hdr[mid].prevFree && r.hdr[mid].size == size - 3 * t.cfg.head - info
      && Next(r, mid) == start + size - t.cfg.head
      && Next(r, mid) in r.hdr && r.hdr[Next(r, mid)] == Hdr(mid, 0, false, false)
      && Alone(r, mid)
  {
  }

  /** A free block of n bytes is there besides the blocks that were. */
  ghost predicate AddsSpace(t: Tiling, r: Tiling, at: Addr, n: int) {
    n >= 0 && Used(r) == Used(t) && Free(r) == Free(t)[at := n]
  }

  /** The tiling with a new region's space in use. */
  lemma RegionLaid(p: Params, t: Tiling, start: Addr, size: nat, at: Addr, n: nat) returns (r: Tiling)
    requires ParamsOk(p) && t.cfg == Cfg(p) && Tiles(t) && RegionFits(t, start, size, p.info)
    requires at == start + p.head + p.info && n == size - 3 * p.head - p.info
    ensures r.cfg == t.cfg && Tiles(r) && Levels(p, Free(r)) == Levels(p, Free(t))
    ensures Alone(r, at) && Used(r) - {at} == Used(t) && Covered(Used(t), t)
    ensures AddsSpace(t, Released(r, at), at, n)
    ensures Untold(InitHdrs(t, start, size, p.info), r, at)
  {
    r := WithRegion(t, start, size, p.info);
    RegionTiles(t, start, size, p.info);
    RegionUsed(t, start, size, p.info, r, at, n);
    SpaceAdded(t, r, at, n);
    InitTags(t, start, size, p.info);
  }

  lemma RegionUsed(t: Tiling, start: Addr, size: nat, info: nat, r: Tiling, at: Addr, n: nat)
    requires Tiles(t) && RegionFits(t, start, size, info) && r == WithRegion(t, start, size, info)
    requires at == start + t.cfg.head + info && n == size - 3 * t.cfg.head - info
    ensures Alone(r, at) && r.hdr[at].size == n && Free(r) == Free(t) && Used(r) == Used(t)[at := n] && at !in Used(t)
  {
    RegionMid(t, start, size, info);
    HomesKnown(t);
    RegionMaps(t, start, size, info);
  }

  lemma SpaceAdded(t: Tiling, r: Tiling, mid: Addr, n: nat)
    requires Alone(r, mid) && r.hdr[mid].size == n && Free(r) == Free(t) && Used(r) == Used(t)[mid := n]
    requires mid !in Used(t)
    ensures AddsSpace(t, Released(r, mid), mid, n) && Used(r) - {mid} == Used(t)
  {
    AloneReleased(r, mid);
    GiveMaps(r, mid);
    Readd(Used(t), mid, n);
  }

  lemma HomesKnown(t: Tiling)
    requires Tiles(t)
    ensures forall b | b in t.hdr && b !in t.home :: false
  {
    forall b | b in t.hdr ensures b in t.home {
      assert BlockOk(t, b);
    }
  }

  lemma Readd(m: map<Addr, nat>, a: Addr, n: nat)
    requires a !in m
    ensures m[a := n] - {a} == m
  {
  }

  lemma AloneReleased(t: Tiling, a: Addr)
    requires Alone(t, a)
    ensures Released(t, a) == Give(t, a)
  {
  }

  /** The headers as init_mm_region writes them. */
  function InitHdrs(t: Tiling, start: Addr, size: nat, info: nat): map<Addr, Hdr>
    requires size >= 3 * t.cfg.head + info
  {
    var mid, last := start + t.cfg.head + info, start + size - t.cfg.head;
    t.hdr[start := Hdr(NULL, info, false, false)]
         [mid := Hdr(NULL, last - mid - t.cfg.head, false, false)]
         [last := Hdr(mid, 0, false, true)]
  }

  lemma InitTags(t: Tiling, start: Addr, size: nat, info: nat)
    requires RegionFits(t, start, size, info)
    ensures Untold(InitHdrs(t, start, size, info), WithRegion(t, start, size, info), start + t.cfg.head + info)
  {
  }

  function Poked(m: int -> Byte, at: int, b: Byte): int -> Byte {
    x => if x == at then b else m(x)
  }

  lemma PokedAt(m: int -> Byte, at: int, b: Byte)
    ensures Poked(m, at, b)(at) == b && forall x: int | x != at :: Poked(m, at, b)(x) == m(x)
  {
  }

  /** n bytes from dst are what the n bytes from src were. */
  ghost predicate SameBytes(m0: int -> Byte, src: int, m1: int -> Byte, dst: int, n: nat) {
    forall x: int | dst <= x < dst + n :: m1(x) == m0(x - dst + src)
  }

  ghost predicate SameElsewhere(m0: int -> Byte, m1: int -> Byte, dst: int, n: nat) {
    forall x: int | x < dst || dst + n <= x :: m1(x) == m0(x)
  }

  /** No free block has room. */
  ghost predicate NoneFits(t: Tiling, need: nat) {
    forall b | b in Free(t) :: t.hdr[b].size < need
  }

  /** Neither this place nor any free block has room. */
  ghost predicate NoRoom(t: Tiling, a: Addr, need: nat)
    requires a in t.hdr
  {
    !FitsInPlace(t, a, need) && NoneFits(t, need)
  }

  /** Block b has come into use besides block a and the others, with at least a's size. */
  ghost predicate Joined(t: Tiling, u: Tiling, a: Addr, b: Addr) {
    && a in Used(t) && b !in Used(t) && b in Used(u) && Used(u) == Used(t)[b := Used(u)[b]] && Used(t)[a] <= Used(u)[b]
    && u.cfg == t.cfg
  }

  lemma GainsJoins(t: Tiling, u: Tiling, a: Addr, b: Addr, need: nat)
    requires a in Used(t) && Used(t)[a] <= need && Gains(t, u, b, need) && u.cfg == t.cfg
    ensures Joined(t, u, a, b) && need <= Used(u)[b]
  {
  }

  lemma MovedUse(t: Tiling, u: Tiling, r: Tiling, a: Addr, b: Addr, need: nat, dst: Addr)
    requires Joined(t, u, a, b) && need <= Used(u)[b] && Used(r) == Used(u) - {a} && r.cfg == u.cfg
    requires dst == b + u.cfg.head && Snug(u, dst, need)
    ensures Moves(t, r, a, b, need) && Snug(r, dst, need)
  {
  }

  lemma InPlaceMoves(t: Tiling, r: Tiling, a: Addr, need: nat)
    requires a in Used(r) && Used(r) == Used(t)[a := Used(r)[a]] && need <= Used(r)[a]
    ensures Moves(t, r, a, a, need)
  {
  }

  /** The block is large enough, alone or with the free block behind it. */
  predicate FitsInPlace(t: Tiling, a: Addr, need: nat)
    requires a in t.hdr
  {
    || need <= t.hdr[a].size
    || (Next(t, a) in t.hdr && t.hdr[Next(t, a)].free && need <= t.hdr[a].size + t.cfg.head + t.hdr[Next(t, a)].size)
  }

  /**
   Resizing the block at ptr to `need` bytes fails only when neither its place nor any free
   block has room, and then leaves everything alone; otherwise the caller has a block at r that
   is large enough, with the old contents, in place of the old one. No other block's bytes change.
   */
  ghost predicate Reallocated(t: Tiling, u: Tiling, m0: int -> Byte, m1: int -> Byte, ptr: Addr, r: Addr, need: nat)
    requires ptr > t.cfg.head && ptr - t.cfg.head in t.hdr
  {
    var a: Addr := ptr - t.cfg.head;
    && Keeps(Used(t) - {a}, t.cfg.head, m0, m1)
    && (r == NULL <==> NoRoom(t, a, need))
    && (r == NULL ==> u == t && m1 == m0)
    && (r != NULL ==>
          r > t.cfg.head && Moves(t, u, a, r - t.cfg.head, need) && SameBytes(m0, ptr, m1, r, Min(t.hdr[a].size, need)))
  }

  lemma RelocatedIs(t: Tiling, u: Tiling, m0: int -> Byte, m1: int -> Byte, ptr: Addr, r: Addr, need: nat)
    requires ptr > t.cfg.head && ptr - t.cfg.head in t.hdr && t.hdr[ptr - t.cfg.head].size < need
    requires Keeps(Used(t) - {ptr - t.cfg.head}, t.cfg.head, m0, m1)
    requires !FitsInPlace(t, ptr - t.cfg.head, need) && (r == NULL <==> NoneFits(t, need))
    requires (r == NULL ==> u == t && m1 == m0)
    requires r != NULL ==> r > t.cfg.head && Moves(t, u, ptr - t.cfg.head, r - t.cfg.head, need)
    requires r != NULL ==> SameBytes(m0, ptr, m1, r, t.hdr[ptr - t.cfg.head].size)
    ensures Reallocated(t, u, m0, m1, ptr, r, need)
  {
  }

  lemma ResizedIs(t: Tiling, u: Tiling, sizes: map<Addr, nat>, m0: int -> Byte, m1: int -> Byte,
                  ptr: Addr, a: Addr, need: nat)
    requires ptr == a + t.cfg.head && a > 0 && a in Used(t) && FitsInPlace(t, a, need)
    requires sizes == Used(t)[a := Min(t.hdr[a].size, need)]
    requires Keeps(sizes, t.cfg.head, m0, m1)
    requires a in Used(u) && Used(u) == Used(t)[a := Used(u)[a]] && need <= Used(u)[a]
    ensures Reallocated(t, u, m0, m1, ptr, ptr, need)
  {
    InPlaceBytes(t, sizes, a, m0, m1, need);
    InPlaceMoves(t, u, a, need);
  }

  /**
   What a resized block at r means for the size the caller asked for: it fits, and so much of
   the old contents is kept, exactly unless rounding the size up wrapped around.
   */
  ghost predicate Served(t: Tiling, u: Tiling, m0: int -> Byte, m1: int -> Byte, ptr: Addr, r: Addr, size: nat)
    requires ptr > t.cfg.head && ptr - t.cfg.head in t.hdr
  {
    r != NULL ==>
      && r > t.cfg.head && r - t.cfg.head in Used(u) && (size <= Used(u)[r - t.cfg.head] <==> size <= LARGEST)
      && (size <= LARGEST ==> SameBytes(m0, ptr, m1, r, Min(t.hdr[ptr - t.cfg.head].size, size)))
  }

  lemma ReallocServes(p: Params, t: Tiling, u: Tiling, m0: int -> Byte, m1: int -> Byte, ptr: Addr, r: Addr, size: nat)
    requires ParamsOk(p) && t.cfg == u.cfg == Cfg(p) && Tiles(u) && size < 0x1_0000_0000
    requires ptr > p.head && ptr - p.head in t.hdr && Reallocated(t, u, m0, m1, ptr, r, Request(p, size))
    ensures Served(t, u, m0, m1, ptr, r, size)
  {
    if r != NULL {
      RoomIsEnough(p, u, r - p.head, size);
      RequestCovers(p, size);
      if size <= LARGEST {
        var k := t.hdr[ptr - p.head].size;
        SameBytesLess(m0, ptr, m1, r, Min(k, size), Min(k, Request(p, size)));
      }
    }
  }

  lemma {:induction false} SameBytesLess(m0: int -> Byte, src: int, m1: int -> Byte, dst: int, m: nat, n: nat)
    requires SameBytes(m0, src, m1, dst, n) && m <= n
    ensures SameBytes(m0, src, m1, dst, m)
  {
  }

  /** The same in terms of the size the caller asked for. */
  lemma ReallocatedSize(p: Params, t: Tiling, u: Tiling, m0: int -> Byte, m1: int -> Byte, ptr: Addr, r: Addr,
                        size: nat)
    requires ParamsOk(p) && t.cfg == u.cfg == Cfg(p) && Tiles(t) && Tiles(u) && size < 0x1_0000_0000
    requires ptr > p.head && ptr - p.head in t.hdr && Reallocated(t, u, m0, m1, ptr, r, Request(p, size))
    requires r != NULL ==> Snug(u, r, Request(p, size))
    ensures Reallocated(t, u, m0, m1, ptr, r, Needed(p, size)) && (r != NULL ==> SnugFor(p, u, r, size))
  {
    NeededLess(p, size);
    NoneFitsSize(p, t, size);
    FitsInPlaceSize(p, t, ptr - p.head, size);
    if r != NULL {
      SnugForSize(p, u, r, size);
      var k := t.hdr[ptr - p.head].size;
      SameBytesLess(m0, ptr, m1, r, Min(k, Needed(p, size)), Min(k, Request(p, size)));
    }
  }

  /** Block b, with at least `need` bytes, is in use besides the blocks that were. */
  ghost predicate Gains(t: Tiling, r: Tiling, b: Addr, need: nat) {
    b !in Used(t) && b in Used(r) && Used(r) == Used(t)[b := Used(r)[b]] && need <= Used(r)[b]
  }

  /** Block b, with at least `need` bytes, is in use instead of block a; every other block is in use as before. */
  ghost predicate Moves(t: Tiling, r: Tiling, a: Addr, b: Addr, need: nat) {
    && b in Used(r) && need <= Used(r)[b]
    && (b == a || b !in Used(t))
    && Used(r) == (Used(t) - {a})[b := Used(r)[b]]
  }

  lemma RequestSmall(p: Params, size: nat)
    requires ParamsOk(p)
    ensures Request(p, size) < 0x1_0000_0000
  {
    MinSizeSmall(p);
    AlignUpOk(size);
  }

  lemma ResizeReady(p: Params, t: Tiling, a: Addr, need: nat, sizes: map<Addr, nat>)
    requires ParamsOk(p) && Tiles(t) && t.cfg == Cfg(p) && a in Used(t)
    requires sizes == Used(t)[a := Min(t.hdr[a].size, need)]
    ensures Covered(sizes, t) && LinksSpare(Levels(p, Free(t)), sizes, p.head)
    ensures (forall b | b in sizes :: b in Used(t)) && Next(t, a) in t.hdr
  {
    forall b | b in Levels(p, Free(t)) ensures Spare(sizes, p.head, b + p.head, 8) {
      FreeSpare(t, sizes, b);
    }
    assert BlockOk(t, a);
  }

  lemma ResizedOk(t: Tiling, a: Addr, s: nat)
    requires Tiles(t) && Inner(t, a) && !t.hdr[a].free && s % 8 == 0 && t.cfg.minSize <= s && FitsInPlace(t, a, s)
    ensures Next(t, a) in t.hdr && (t.hdr[Next(t, a)].free ==> Next(t, Next(t, a)) in t.hdr)
    ensures var r := Resized(t, a, s);
      Tiles(r) && r.cfg == t.cfg && a in Used(r) && Used(r) == Used(t)[a := Used(r)[a]]
      && s <= Used(r)[a] < s + t.cfg.head + t.cfg.minSize
  {
    ForwardOk(t, a);
    var u := Forward(t, a);
    if u.hdr[a].size >= s + t.cfg.head + t.cfg.minSize {
      ResizeSplits(t, a, s);
      SplitOk(u, a, s);
      SplitMaps(u, a, s);
    } else if t.hdr[Next(t, a)].free {
      Around(t, a);
      Around(t, Next(t, a));
      AbsorbSettles(t, a);
    }
  }

  lemma InPlaceBytes(t: Tiling, sizes: map<Addr, nat>, a: Addr, m0: int -> Byte, m1: int -> Byte, need: nat)
    requires a in Used(t) && sizes == Used(t)[a := Min(t.hdr[a].size, need)]
    requires Keeps(sizes, t.cfg.head, m0, m1)
    ensures Keeps(Used(t) - {a}, t.cfg.head, m0, m1)
    ensures SameBytes(m0, a + t.cfg.head, m1, a + t.cfg.head, Min(t.hdr[a].size, need))
  {
    forall b, x | b in Used(t) - {a} && b + t.cfg.head <= x < b + t.cfg.head + Used(t)[b] ensures m1(x) == m0(x) {
      assert b in sizes;
    }
    assert a in sizes;
  }

  /** Allocating, copying and freeing move the contents and nothing else. */
  lemma RelocateBytes(t: Tiling, u: Tiling, a: Addr, b: Addr, src: Addr, dst: Addr,
                      m0: int -> Byte, m1: int -> Byte, m2: int -> Byte, m3: int -> Byte)
    requires Tiles(u) && Joined(t, u, a, b) && src == a + t.cfg.head && dst == b + t.cfg.head
    requires Keeps(Used(t), t.cfg.head, m0, m1)
    requires SameBytes(m1, src, m2, dst, Used(t)[a]) && SameElsewhere(m1, m2, dst, Used(t)[a])
    requires Keeps(Used(u) - {a}, t.cfg.head, m2, m3)
    ensures Keeps(Used(t) - {a}, t.cfg.head, m0, m3)
    ensures SameBytes(m0, src, m3, dst, Used(t)[a])
  {
    forall c, x | c in Used(t) - {a} && c + t.cfg.head <= x < c + t.cfg.head + Used(t)[c] ensures m3(x) == m0(x) {
      assert c in Used(u) - {a} && c in Used(t);
      assert Apart(u, b, c) && Apart(u, c, b);
    }
    assert b in Used(u) - {a} && a in Used(t);
  }

  /** A block takes over a free one behind it and is cut down to s bytes when that leaves enough for a block. */
  function Resized(t: Tiling, a: Addr, s: nat): Tiling
    requires a in t.hdr && Next(t, a) in t.hdr && (t.hdr[Next(t, a)].free ==> Next(t, Next(t, a)) in t.hdr)
  {
    var u := Forward(t, a);
    if a in u.hdr && a in u.home && Next(u, a) in u.hdr && u.hdr[a].size >= s + t.cfg.head + t.cfg.minSize
    then Split(u, a, s) else u
  }

  /** The tags of u, but for the size of a and what the header behind it says about it. */
  ghost predicate Resizing(h: map<Addr, Hdr>, u: Tiling, a: Addr) {
    && a in u.hdr && Next(u, a) in u.hdr && a in h && Next(u, a) in h && Next(u, a) != a
    && h == u.hdr[a := u.hdr[a].(size := h[a].size)][Next(u, a) := h[Next(u, a)]]
    && h[Next(u, a)].size == u.hdr[Next(u, a)].size && h[Next(u, a)].free == u.hdr[Next(u, a)].free
  }

  lemma ForwardKept(p: Params, t: Tiling, a: Addr, sizes: map<Addr, nat>)
    requires ParamsOk(p) && Tiles(t) && t.cfg == Cfg(p) && Inner(t, a) && !t.hdr[a].free && Next(t, a) in t.hdr
    requires Covered(sizes, t) && LinksSpare(Levels(p, Free(t)), sizes, p.head)
    requires forall b | b in sizes :: b in Used(t)
    ensures t.hdr[Next(t, a)].free ==> Next(t, Next(t, a)) in t.hdr && Absorbs(t, a)
    ensures var u := Forward(t, a); var n := Next(t, a);
      && Settled(u, a) && u.cfg == t.cfg && Covered(sizes, u) && Next(u, a) != a
      && Levels(p, Free(u)) == Levels(p, Free(t)) - (if t.hdr[n].free then {n} else {})
      && LinksSpare(Levels(p, Free(u)), sizes, p.head)
      && (t.hdr[n].free ==> n in Levels(p, Free(t)) && Levels(p, Free(t))[n] == Level(p, t.hdr[n].size))
  {
    ForwardOk(t, a);
    var u, n := Forward(t, a), Next(t, a);
    LevelsDropAll(p, Free(t), if t.hdr[n].free then {n} else {});
    if t.hdr[n].free {
      Around(t, a);
      Around(t, n);
      FreeListed(p, t, n);
      AbsorbSettles(t, a);
    }
    forall b | b in sizes ensures b in u.hdr && sizes[b] <= u.hdr[b].size {
      assert b in Used(t);
      assert b in Used(u);
    }
    assert BlockOk(u, a);
  }

  lemma AbsorbedTags(t: Tiling, a: Addr)
    requires t.cfg.head > 0 && Absorbs(t, a)
    ensures var u := Absorb(t, a); var n := Next(t, Next(t, a));
      a in u.hdr && Next(u, a) == n && n in u.hdr && u.hdr[n].prev == a && !u.hdr[n].prevFree
      && u.hdr[a].size == t.hdr[a].size + t.cfg.head + t.hdr[Next(t, a)].size
  {
  }

  lemma AbsorbTags(t: Tiling, a: Addr)
    requires t.cfg.head > 0 && Absorbs(t, a)
    ensures Resizing(t.hdr - {Next(t, a)}, Absorb(t, a), a)
  {
  }

  /** The shrink arm that has taken over a free neighbour can always split it off again. */
  lemma MergedLeavesRoom(t: Tiling, a: Addr, s: nat)
    requires Tiles(t) && Absorbs(t, a) && s <= t.hdr[a].size
    ensures s + t.cfg.head + t.cfg.minSize <= Absorb(t, a).hdr[a].size
    ensures Absorb(t, a).hdr[a].size == t.hdr[a].size + t.cfg.head + t.hdr[Next(t, a)].size
  {
    assert BlockOk(t, Next(t, a));
  }

  lemma ResizeSplits(t: Tiling, a: Addr, s: nat)
    requires a in t.hdr && Next(t, a) in t.hdr && (t.hdr[Next(t, a)].free ==> Next(t, Next(t, a)) in t.hdr)
    requires Settled(Forward(t, a), a) && s % 8 == 0 && t.cfg.minSize <= s
    requires s + t.cfg.head + t.cfg.minSize <= Forward(t, a).hdr[a].size && Forward(t, a).cfg == t.cfg
    ensures Splits(Forward(t, a), a, s) && Resized(t, a, s) == Split(Forward(t, a), a, s)
  {
    assert BlockOk(Forward(t, a), a);
  }

  lemma TailSpares(u: Tiling, a: Addr, s: nat, sizes: map<Addr, nat>)
    requires Tiles(u) && Covered(sizes, u) && Splits(u, a, s) && (a in sizes ==> sizes[a] <= s)
    ensures Spare(sizes, u.cfg.head, a, u.cfg.head) && Spare(sizes, u.cfg.head, Next(u, a), u.cfg.head)
    ensures Spare(sizes, u.cfg.head, Rest(u, a, s), u.cfg.head)
    ensures Spare(sizes, u.cfg.head, Rest(u, a, s) + u.cfg.head, 8)
  {
    HeaderSpare(u, sizes, a);
    HeaderSpare(u, sizes, Next(u, a));
    SpaceSpare(u, sizes, a, Rest(u, a, s), u.cfg.head);
    SpaceSpare(u, sizes, a, Rest(u, a, s) + u.cfg.head, 8);
  }

  lemma TailLevels(p: Params, u: Tiling, a: Addr, s: nat)
    requires ParamsOk(p) && u.cfg == Cfg(p) && Tiles(u) && Splits(u, a, s)
    ensures Rest(u, a, s) !in u.hdr && Rest(u, a, s) != NULL
    ensures 0 <= Level(p, u.hdr[a].size - s - p.head) < LevelCount(p)
    ensures Levels(p, Free(Split(u, a, s))) == Levels(p, Free(u))[Rest(u, a, s) := Level(p, u.hdr[a].size - s - p.head)]
  {
    RestIsNew(u, a, s);
    TailHasLevel(p, u, a, u.hdr[a].size - s - p.head);
    TailFiled(p, u, a, s, u.hdr[a].size - s - p.head);
  }

  lemma TailFiled(p: Params, u: Tiling, a: Addr, s: nat, n: nat)
    requires u.cfg == Cfg(p) && Tiles(u) && Splits(u, a, s) && n == u.hdr[a].size - s - p.head && Level(p, n) >= 0
    ensures Levels(p, Free(Split(u, a, s))) == Levels(p, Free(u))[Rest(u, a, s) := Level(p, n)]
  {
    SplitMaps(u, a, s);
    LevelsAdd(p, Free(u), Rest(u, a, s), n);
  }

  /** Whatever is smaller than a block has a level. */
  lemma TailHasLevel(p: Params, u: Tiling, a: Addr, n: nat)
    requires ParamsOk(p) && u.cfg == Cfg(p) && Tiles(u) && a in u.hdr && n <= u.hdr[a].size
    ensures 0 <= Level(p, n) < LevelCount(p)
  {
    BlockHasLevel(p, u, a);
    HasLevel(p, n);
  }

  lemma TailRestHdr(u: Tiling, a: Addr, s: nat)
    requires ConfigOk(u.cfg) && Splits(u, a, s) && Rest(u, a, s) !in u.hdr
    ensures Rest(u, a, s) in Split(u, a, s).hdr
    ensures Split(u, a, s).hdr[Rest(u, a, s)].size == u.hdr[a].size - s - u.cfg.head
  {
  }

  lemma TailTags(u: Tiling, a: Addr, s: nat, h: map<Addr, Hdr>)
    requires ConfigOk(u.cfg) && Splits(u, a, s) && Resizing(h, u, a) && Rest(u, a, s) !in u.hdr
    ensures a in h && Next(u, a) in h && h[a].prevFree == u.hdr[a].prevFree
    ensures var f, n := Rest(u, a, s), Next(u, a);
      h[a := h[a].(size := s, free := false)][f := Hdr(a, u.hdr[a].size - s - u.cfg.head, true, false)]
       [n := h[n].(prev := f, prevFree := true)] == Split(u, a, s).hdr
  {
  }

  /** The tags of t, but for what the header behind a says about a. */
  ghost predicate Untold(h: map<Addr, Hdr>, t: Tiling, a: Addr) {
    && a in t.hdr && Next(t, a) in t.hdr && Next(t, a) in h && Next(t, a) != a
    && h == t.hdr[Next(t, a) := h[Next(t, a)]]
    && h[Next(t, a)].size == t.hdr[Next(t, a)].size && h[Next(t, a)].free == t.hdr[Next(t, a)].free
    && (t.hdr[Next(t, a)].free ==> h[Next(t, a)] == t.hdr[Next(t, a)])
  }

  lemma TrulyTold(t: Tiling, a: Addr)
    requires Tiles(t) && Inner(t, a)
    ensures Untold(t.hdr, t, a)
  {
    assert BlockOk(t, a);
  }

  lemma ReleaseReady(p: Params, t: Tiling, a: Addr, sizes: map<Addr, nat>)
    requires Tiles(t) && t.cfg == Cfg(p) && Inner(t, a) && !t.hdr[a].free && sizes == Used(t) - {a}
    ensures Covered(sizes, t) && LinksSpare(Levels(p, Free(t)), sizes, p.head) && Spare(sizes, p.head, a, p.head)
    ensures Next(t, a) in t.hdr && (t.hdr[Next(t, a)].free ==> Next(t, Next(t, a)) in t.hdr)
  {
    ForwardOk(t, a);
    forall b | b in Levels(p, Free(t)) ensures Spare(sizes, p.head, b + p.head, 8) {
      FreeSpare(t, sizes, b);
    }
    HeaderSpare(t, sizes, a);
  }

  lemma ForwardFreeing(p: Params, t: Tiling, a: Addr, sizes: map<Addr, nat>)
    requires Tiles(t) && t.cfg == Cfg(p) && Inner(t, a) && !t.hdr[a].free && sizes == Used(t) - {a}
    requires LinksSpare(Levels(p, Free(t)), sizes, p.head)
    ensures Next(t, a) in t.hdr && (t.hdr[Next(t, a)].free ==> Next(t, Next(t, a)) in t.hdr)
    ensures var u := Forward(t, a); var n := Next(t, a);
      && Settled(u, a) && u.cfg == t.cfg && sizes == Used(u) - {a} && Covered(sizes, u)
      && Levels(p, Free(u)) == Levels(p, Free(t)) - (if t.hdr[n].free then {n} else {})
      && LinksSpare(Levels(p, Free(u)), sizes, p.head)
  {
    ForwardOk(t, a);
    var u, n := Forward(t, a), Next(t, a);
    UsedCovered(u, a);
    SameBut(Used(t), a, u.hdr[a].size);
    LevelsDropAll(p, Free(t), if t.hdr[n].free then {n} else {});
  }

  lemma UsedCovered(t: Tiling, a: Addr)
    ensures Covered(Used(t) - {a}, t)
  {
  }

  lemma SameBut(m: map<Addr, nat>, a: Addr, n: nat)
    ensures m[a := n] - {a} == m - {a}
  {
  }

  lemma LevelsDropAll(p: Params, sizes: map<Addr, nat>, gone: set<Addr>)
    ensures Levels(p, sizes - gone) == Levels(p, sizes) - gone
  {
  }

  lemma BackwardFreeing(p: Params, t: Tiling, a: Addr, sizes: map<Addr, nat>)
    requires Settled(t, a) && t.cfg == Cfg(p) && sizes == Used(t) - {a} && LinksSpare(Levels(p, Free(t)), sizes, p.head)
    ensures t.hdr[a].prevFree ==> Into(t, a) in t.hdr && Next(t, Into(t, a)) == a
    ensures var b, q := Backward(t, a), Into(t, a);
      && Tiles(b) && b.cfg == t.cfg && Alone(b, q) && Covered(sizes, b) && q !in sizes
      && Levels(p, Free(b)) == Levels(p, Free(t)) - {q}
      && LinksSpare(Levels(p, Free(b)), sizes, p.head)
  {
    BackwardOk(t, a);
    PrevNotUsed(t, a);
    BackwardCovered(t, Backward(t, a), a, Into(t, a), sizes);
    LevelsDropAll(p, Free(t), {Into(t, a)});
  }

  lemma BackwardCovered(t: Tiling, b: Tiling, a: Addr, q: Addr, sizes: map<Addr, nat>)
    requires Tiles(b) && q in b.hdr && q in Used(b) && q !in sizes && Used(b) == sizes[q := b.hdr[q].size]
    ensures Covered(sizes, b)
  {
    UsedCovered(b, q);
    SameBut(sizes, q, b.hdr[q].size);
    assert sizes - {q} == sizes;
  }

  lemma FinishReady(p: Params, t: Tiling, q: Addr, h: map<Addr, Hdr>, sizes: map<Addr, nat>)
    requires ParamsOk(p) && t.cfg == Cfg(p) && Tiles(t) && Alone(t, q) && Covered(sizes, t) && q !in sizes
    requires Pending(h, t, q)
    ensures q in h && q != NULL && q !in Levels(p, Free(t)) && 0 <= Level(p, h[q].size) < LevelCount(p)
    ensures var n: Addr := q + p.head + h[q].size;
      && Spare(sizes, p.head, q + p.head, 8) && Spare(sizes, p.head, n, p.head)
      && n in h && h[n := h[n].(prev := q, prevFree := true)] == Give(t, q).hdr
    ensures Levels(p, Free(Give(t, q))) == Levels(p, Free(t))[q := Level(p, h[q].size)]
  {
    FinishRoom(p, t, q, sizes);
    FinishTags(t, q, h);
  }

  lemma FinishRoom(p: Params, t: Tiling, q: Addr, sizes: map<Addr, nat>)
    requires ParamsOk(p) && t.cfg == Cfg(p) && Tiles(t) && Alone(t, q) && Covered(sizes, t) && q !in sizes
    ensures 0 <= Level(p, t.hdr[q].size) < LevelCount(p) && q != NULL && q !in Levels(p, Free(t))
    ensures Spare(sizes, p.head, q + p.head, 8) && Spare(sizes, p.head, Next(t, q), p.head)
    ensures Levels(p, Free(Give(t, q))) == Levels(p, Free(t))[q := Level(p, t.hdr[q].size)]
  {
    assert BlockOk(t, q);
    BlockHasLevel(p, t, q);
    SpaceSpare(t, sizes, q, q + p.head, 8);
    HeaderSpare(t, sizes, Next(t, q));
    GiveMaps(t, q);
    LevelsAdd(p, Free(t), q, t.hdr[q].size);
  }

  lemma FinishTags(t: Tiling, q: Addr, h: map<Addr, Hdr>)
    requires Alone(t, q) && Pending(h, t, q)
    ensures q in h && h[q].size == t.hdr[q].size
    ensures var n: Addr := q + t.cfg.head + h[q].size;
      n in h && h[n := h[n].(prev := q, prevFree := true)] == Give(t, q).hdr
  {
  }

  lemma ReleasedIs(t: Tiling, a: Addr)
    requires Tiles(t) && Inner(t, a) && !t.hdr[a].free
    ensures Next(t, a) in t.hdr && (t.hdr[Next(t, a)].free ==> Next(t, Next(t, a)) in t.hdr)
    ensures var u := Forward(t, a); a in u.hdr
    ensures var u := Forward(t, a);
      u.hdr[a].prevFree ==> Into(u, a) in u.hdr && Next(u, Into(u, a)) == a && Next(u, a) in u.hdr
    ensures var u := Forward(t, a);
      Alone(Backward(u, a), Into(u, a)) && Released(t, a) == Give(Backward(u, a), Into(u, a))
  {
    ForwardOk(t, a);
    BackwardOk(Forward(t, a), a);
  }

  lemma ForwardReady(p: Params, t: Tiling, a: Addr, sizes: map<Addr, nat>)
    requires ParamsOk(p) && t.cfg == Cfg(p) && Tiles(t) && Covered(sizes, t)
    requires Inner(t, a) && !t.hdr[a].free && Next(t, a) in t.hdr && t.hdr[Next(t, a)].free
    ensures Absorbs(t, a) && Next(t, a) != a && Spare(sizes, p.head, a, p.head)
    ensures var n := Next(t, a); n in Levels(p, Free(t)) && Levels(p, Free(t))[n] == Level(p, t.hdr[n].size)
  {
    ForwardOk(t, a);
    Around(t, a);
    Around(t, Next(t, a));
    FreeListed(p, t, Next(t, a));
    HeaderSpare(t, sizes, a);
  }

  lemma BackwardReady(p: Params, t: Tiling, a: Addr, sizes: map<Addr, nat>)
    requires ParamsOk(p) && t.cfg == Cfg(p) && Covered(sizes, t) && Settled(t, a) && t.hdr[a].prevFree
    ensures var q := Into(t, a);
      && q in t.hdr && Next(t, q) == a && q != a && Joins(t, q) && Spare(sizes, p.head, q, p.head)
      && q in Levels(p, Free(t)) && Levels(p, Free(t))[q] == Level(p, t.hdr[q].size)
  {
    PrevFreeInner(t, a);
    FreeListed(p, t, Into(t, a));
    HeaderSpare(t, sizes, Into(t, a));
  }

  /** The tags are those of r with q marked free already, but for the header behind q, which waits to be told. */
  ghost predicate Pending(h: map<Addr, Hdr>, r: Tiling, q: Addr) {
    && q in r.hdr && Next(r, q) in r.hdr && Next(r, q) in h
    && h == r.hdr[q := r.hdr[q].(free := true)][Next(r, q) := h[Next(r, q)]]
    && h[Next(r, q)].size == r.hdr[Next(r, q)].size && h[Next(r, q)].free == r.hdr[Next(r, q)].free
  }

  lemma ForwardTags(t: Tiling, a: Addr, h: map<Addr, Hdr>)
    requires t.cfg.head > 0 && Absorbs(t, a) && Pending(h, t, a) && h[Next(t, a)] == t.hdr[Next(t, a)]
    ensures a in h
    ensures Pending(h[a := h[a].(size := h[a].size + t.cfg.head + h[Next(t, a)].size)] - {Next(t, a)}, Absorb(t, a), a)
  {
  }

  lemma BackwardTags(t: Tiling, q: Addr, h: map<Addr, Hdr>)
    requires t.cfg.head > 0 && Joins(t, q) && Pending(h, t, Next(t, q))
    ensures q in h && Next(t, q) in h
    ensures Pending(h[q := h[q].(size := h[q].size + t.cfg.head + h[Next(t, q)].size)] - {Next(t, q)}, Join(t, q), q)
  {
  }

  lemma FreeListed(p: Params, t: Tiling, b: Addr)
    requires ParamsOk(p) && t.cfg == Cfg(p) && Tiles(t) && b in t.hdr && t.hdr[b].free
    ensures b in Levels(p, Free(t)) && Levels(p, Free(t))[b] == Level(p, t.hdr[b].size)
  {
    BlockHasLevel(p, t, b);
  }

  /** Everything carving writes is spare. */
  lemma SparesFor(p: Params, t: Tiling, a: Addr, need: nat)
    requires t.cfg == Cfg(p) && Tiles(t) && a in t.hdr && t.hdr[a].free && Next(t, a) in t.hdr
    ensures Covered(Used(t), t) && LinksSpare(Levels(p, Free(t)), Used(t), p.head)
    ensures Spare(Used(t), p.head, a, p.head) && Spare(Used(t), p.head, Next(t, a), p.head)
    ensures need + p.head + MinSize(p) <= t.hdr[a].size ==>
      Spare(Used(t), p.head, Rest(t, a, need), p.head) && Spare(Used(t), p.head, Rest(t, a, need) + p.head, 8)
  {
    var sizes := Used(t);
    forall b | b in Levels(p, Free(t)) ensures Spare(sizes, p.head, b + p.head, 8) {
      FreeSpare(t, sizes, b);
    }
    HeaderSpare(t, sizes, a);
    HeaderSpare(t, sizes, Next(t, a));
    if need + p.head + MinSize(p) <= t.hdr[a].size {
      SpaceSpare(t, sizes, a, Rest(t, a, need), p.head);
      SpaceSpare(t, sizes, a, Rest(t, a, need) + p.head, 8);
    }
  }

  lemma LevelsSwap(p: Params, sizes: map<Addr, nat>, a: Addr, b: Addr, n: nat)
    requires Level(p, n) >= 0
    ensures Levels(p, (sizes - {a})[b := n]) == (Levels(p, sizes) - {a})[b := Level(p, n)]
  {
    LevelsDrop(p, sizes, a);
    LevelsAdd(p, sizes - {a}, b, n);
  }

  lemma CarvedLevels(p: Params, t: Tiling, r: Tiling, a: Addr, s: nat)
    requires ParamsOk(p) && t.cfg == Cfg(p) && Tiles(t) && a in t.hdr
    requires s + p.head + MinSize(p) <= t.hdr[a].size && CarvedShape(t, r, a, s)
    ensures var left := t.hdr[a].size - s - p.head;
      && 0 <= Level(p, left) < LevelCount(p)
      && Levels(p, Free(r)) == (Levels(p, Free(t)) - {a})[Rest(t, a, s) := Level(p, left)]
      && Rest(t, a, s) !in t.hdr && Rest(t, a, s) !in Levels(p, Free(t))
  {
    var left := t.hdr[a].size - s - p.head;
    BlockHasLevel(p, t, a);
    HasLevel(p, left);
    LevelsSwap(p, Free(t), a, Rest(t, a, s), left);
  }

  /** The header writes of a split, in order, come to Split(Take). */
  lemma SplitHdr(t: Tiling, a: Addr, s: nat)
    requires a in t.hdr && a in t.home && t.hdr[a].free && Next(t, a) in t.hdr && t.hdr[Next(t, a)].prevFree
    requires t.cfg.head > 0
    requires s + t.cfg.head <= t.hdr[a].size && Rest(t, a, s) !in t.hdr
    ensures var n, f := Next(t, a), Rest(t, a, s);
      t.hdr[a := t.hdr[a].(size := s, free := false)]
           [f := Hdr(a, t.hdr[a].size - s - t.cfg.head, true, false)]
           [n := t.hdr[n].(prev := f)]
      == Split(Take(t, a), a, s).hdr
  {
  }

  lemma SplitRestHdr(t: Tiling, a: Addr, s: nat)
    requires a in t.hdr && a in t.home && Next(t, a) in t.hdr && t.cfg.head > 0
    requires s + t.cfg.head <= t.hdr[a].size && Rest(t, a, s) != Next(t, a)
    ensures var r := Split(Take(t, a), a, s);
      Rest(t, a, s) in r.hdr && r.hdr[Rest(t, a, s)].size == t.hdr[a].size - s - t.cfg.head
  {
  }

  /** What the split arm needs to know before it writes. */
  lemma SplitLevels(p: Params, t: Tiling, a: Addr, s: nat)
    requires ParamsOk(p) && t.cfg == Cfg(p) && Tiles(t) && a in t.hdr && t.hdr[a].free && s % 8 == 0
    requires MinSize(p) <= s && s + p.head + MinSize(p) <= t.hdr[a].size
    ensures a in t.home && Next(t, a) in t.hdr
    ensures var left := t.hdr[a].size - s - p.head;
      && 0 <= Level(p, left) < LevelCount(p)
      && Levels(p, Free(Carved(t, a, s))) == (Levels(p, Free(t)) - {a})[Rest(t, a, s) := Level(p, left)]
      && Carved(t, a, s) == Split(Take(t, a), a, s)
      && Rest(t, a, s) !in t.hdr && Rest(t, a, s) !in Levels(p, Free(t)) && Rest(t, a, s) != NULL
  {
    TagsAround(t, a);
    CarvedOk(t, a, s);
    CarvedLevels(p, t, Carved(t, a, s), a, s);
  }

  lemma TagsAround(t: Tiling, a: Addr)
    requires Tiles(t) && a in t.hdr && t.hdr[a].free
    ensures a in t.home && Next(t, a) in t.hdr && t.hdr[Next(t, a)].prevFree && Next(t, a) != a
  {
    assert BlockOk(t, a);
  }

  lemma KeepsOn(sizes: map<Addr, nat>, head: nat, m0: int -> Byte, m1: int -> Byte, m2: int -> Byte)
    requires Keeps(sizes, head, m0, m1) && Keeps(sizes, head, m1, m2)
    ensures Keeps(sizes, head, m0, m2)
  {
  }

  lemma NeighboursListed(fl: Lists, ls: seq<seq<Addr>>, f: map<Addr, nat>, a: Addr)
    requires ListsOk(fl, ls, f) && a in f
    ensures At(fl, a).next != NULL ==> At(fl, a).next in f && At(fl, a).next != a
    ensures At(fl, a).prev != NULL ==> At(fl, a).prev in f && At(fl, a).prev != a
  {
    var l := ls[f[a]];
    assert ListOk(fl, l, f, f[a]);
    var i :| 0 <= i < |l| && l[i] == a;
    assert LinkedAt(fl, l, i);
    if i > 0 {
      assert l[i - 1] in l;
    }
    if i + 1 < |l| {
      assert l[i + 1] in l;
    }
  }
}
