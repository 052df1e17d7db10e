/** Freeing a block: coalescing with a free neighbour on either side (k_mm.c, k_mm_free). */
module HeapRelease {
  import opened HeapTiles

  /** The used block after taking over a free one behind it. */
  function Forward(t: Tiling, a: Addr): Tiling
    requires a in t.hdr && Next(t, a) in t.hdr && (t.hdr[Next(t, a)].free ==> Next(t, Next(t, a)) in t.hdr)
  {
    if t.hdr[Next(t, a)].free then Absorb(t, a) else t
  }

  /** The block that stands for a after a free one before it has taken it over. */
  function Into(t: Tiling, a: Addr): Addr
    requires a in t.hdr
  {
    if t.hdr[a].prevFree then t.hdr[a].prev else a
  }

  /** A used block, alone or with a free one before it, and no free one behind it. */
  ghost predicate Settled(t: Tiling, a: Addr) {
    && Tiles(t) && Inner(t, a) && !t.hdr[a].free && Next(t, a) in t.hdr && !t.hdr[Next(t, a)].free
  }

  function Backward(t: Tiling, a: Addr): Tiling
    requires a in t.hdr
    requires (t.hdr[a].prevFree ==> Into(t, a) in t.hdr && Next(t, Into(t, a)) == a && Next(t, a) in t.hdr)
  {
    if t.hdr[a].prevFree then Join(t, Into(t, a)) else t
  }

  lemma ForwardOk(t: Tiling, a: Addr)
    requires Tiles(t) && Inner(t, a) && !t.hdr[a].free
    ensures Next(t, a) in t.hdr && (t.hdr[Next(t, a)].free ==> Next(t, Next(t, a)) in t.hdr && Inner(t, Next(t, a)))
    ensures var r := Forward(t, a); var n := Next(t, a);
      && Settled(r, a) && r.cfg == t.cfg
      && r.hdr[a].prevFree == t.hdr[a].prevFree && r.hdr[a].prev == t.hdr[a].prev
      && Used(r) == Used(t)[a := r.hdr[a].size]
      && Free(r) == Free(t) - (if t.hdr[n].free then {n} else {})
      && r.hdr[a].size >= t.hdr[a].size
  {
    Around(t, a);
    if t.hdr[Next(t, a)].free {
      Around(t, Next(t, a));
      AbsorbOk(t, a);
      AbsorbMaps(t, a);
      AbsorbSettles(t, a);
    } else {
      assert Used(t)[a := t.hdr[a].size] == Used(t);
    }
  }

  lemma AbsorbSettles(t: Tiling, a: Addr)
    requires ConfigOk(t.cfg) && Absorbs(t, a) && AroundOk(t, a) && AroundOk(t, Next(t, a))
    ensures var r := Absorb(t, a);
      Inner(r, a) && !r.hdr[a].free && Next(r, a) in r.hdr && !r.hdr[Next(r, a)].free
      && r.hdr[a].prevFree == t.hdr[a].prevFree && r.hdr[a].prev == t.hdr[a].prev
      && r.hdr[a].size == t.hdr[a].size + t.cfg.head + t.hdr[Next(t, a)].size
  {
  }

  lemma PrevIsFree(t: Tiling, a: Addr)
    requires ConfigOk(t.cfg) && Inner(t, a) && AroundOk(t, a) && t.hdr[a].prevFree
    ensures var q := Into(t, a);
      q in t.hdr && Next(t, q) == a && t.hdr[q].free && Inner(t, q) && q != a
  {
    var q := t.before[a];
    assert BlockOk(t, q);
  }

  lemma PrevFreeInner(t: Tiling, a: Addr)
    requires Tiles(t) && Inner(t, a) && t.hdr[a].prevFree
    ensures var q := Into(t, a);
      q in t.hdr && Next(t, q) == a && t.hdr[q].free && Inner(t, q) && q != a
  {
    Around(t, a);
    PrevIsFree(t, a);
  }

  lemma BackwardOk(t: Tiling, a: Addr)
    requires Settled(t, a)
    ensures t.hdr[a].prevFree ==> Into(t, a) in t.hdr && Next(t, Into(t, a)) == a
    ensures var r := Backward(t, a); var q := Into(t, a);
      && Tiles(r) && Alone(r, q) && r.cfg == t.cfg
      && Used(r) == (Used(t) - {a})[q := r.hdr[q].size]
      && Free(r) == Free(t) - {q}
      && q <= a && q + r.hdr[q].size == a + t.hdr[a].size
  {
    Around(t, a);
    if t.hdr[a].prevFree {
      PrevIsFree(t, a);
      var q := Into(t, a);
      Around(t, q);
      JoinOk(t, q);
      JoinMaps(t, q);
      JoinAlone(t, q);
      JoinedUsed(t, q);
    } else {
      assert (Used(t) - {a})[a := t.hdr[a].size] == Used(t);
      assert a !in Free(t);
      assert Free(t) - {a} == Free(t);
    }
  }

  lemma JoinedUsed(t: Tiling, q: Addr)
    requires Joins(t, q) && Next(t, q) != q
    ensures var a := Next(t, q); var n := t.hdr[q].size + t.cfg.head + t.hdr[a].size;
      Used(t)[q := n] - {a} == (Used(t) - {a})[q := n]
  {
  }

  lemma JoinAlone(t: Tiling, q: Addr)
    requires ConfigOk(t.cfg) && Joins(t, q) && AroundOk(t, q) && AroundOk(t, Next(t, q))
    ensures var r := Join(t, q); Alone(r, q) && r.hdr[q].size == t.hdr[q].size + t.cfg.head + t.hdr[Next(t, q)].size
  {
    assert BlockOk(t, t.before[q]);
  }

  /** A used block is freed and merged with its free neighbours. */
  function Released(t: Tiling, a: Addr): Tiling
    requires a in t.hdr && Next(t, a) in t.hdr && (t.hdr[Next(t, a)].free ==> Next(t, Next(t, a)) in t.hdr)
  {
    var f := Forward(t, a);
    if a in f.hdr && (f.hdr[a].prevFree ==> Into(f, a) in f.hdr && Next(f, Into(f, a)) == a) && Next(f, a) in f.hdr then
      var b := Backward(f, a);
      if Into(f, a) in b.hdr && Next(b, Into(f, a)) in b.hdr then Give(b, Into(f, a)) else t
    else t
  }

  /** What freeing leaves: one free block where up to three were, everything else as it was. */
  ghost predicate ReleasedShape(t: Tiling, r: Tiling, a: Addr)
    requires a in t.hdr && Next(t, a) in t.hdr
  {
    var q, n := Into(t, a), Next(t, a);
    && Tiles(r) && r.cfg == t.cfg && q in r.hdr && r.hdr[q].free
    && Used(r) == Used(t) - {a}
    && Free(r) == (Free(t) - (if t.hdr[n].free then {n} else {}) - {q})[q := r.hdr[q].size]
    && LiesFree(r, a, t.hdr[a].size)
  }

  /** The n bytes of the block that was at a lie in a free block. */
  ghost predicate LiesFree(r: Tiling, a: Addr, n: nat) {
    exists q: Addr :: q in Free(r) && q <= a && a + n <= q + Free(r)[q]
  }

  lemma ReleasedOk(t: Tiling, a: Addr)
    requires Tiles(t) && Inner(t, a) && !t.hdr[a].free
    ensures Next(t, a) in t.hdr && (t.hdr[Next(t, a)].free ==> Next(t, Next(t, a)) in t.hdr)
    ensures ReleasedShape(t, Released(t, a), a)
  {
    ForwardOk(t, a);
    var f := Forward(t, a);
    BackwardOk(f, a);
    var b, q := Backward(f, a), Into(f, a);
    GiveOk(b, q);
    GiveMaps(b, q);
    PrevNotUsed(t, a);
    UsedReleased(t, a, q, f.hdr[a].size, b.hdr[q].size);
    var r := Released(t, a);
    assert q in Free(r) && q <= a && a + t.hdr[a].size <= q + Free(r)[q];
  }

  lemma UsedReleased(t: Tiling, a: Addr, q: Addr, m: nat, n: nat)
    requires q == a || q !in Used(t)
    ensures (Used(t)[a := m] - {a})[q := n] - {q} == Used(t) - {a}
  {
  }

  lemma PrevNotUsed(t: Tiling, a: Addr)
    requires Tiles(t) && Inner(t, a)
    ensures Into(t, a) == a || Into(t, a) !in Used(t)
  {
    if t.hdr[a].prevFree {
      PrevFreeInner(t, a);
    }
  }
}
