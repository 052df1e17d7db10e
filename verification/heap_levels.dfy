/** Size classes of the heap (k_mm.c): request sizes, levels, and what a level says about a block. */
module HeapLevels {
  import opened Basics
  import opened HeapTiles

  /** Bits of a number: 32 - clz32 in 32 bits. */
  function BitLength(n: nat): nat {
    if n == 0 then 0 else 1 + BitLength(n / 2)
  }

  datatype Params = Params(
    head: nat,      // MMLIST_HEAD_SIZE
    minBit: nat,    // MM_MIN_BIT
    maxBit: nat,    // MM_MAX_BIT
    info: nat)      // the aligned size of a region description

  ghost predicate ParamsOk(p: Params) {
    && 0 < p.head <= 64 && p.head % 8 == 0 && 0 < p.info <= 64 && p.info % 8 == 0
    && 5 <= p.minBit <= p.maxBit <= 30
  }

  function MinSize(p: Params): nat {
    if p.minBit == 0 then 0 else Pow2(p.minBit - 1)
  }

  function Cfg(p: Params): Config {
    Config(p.head, MinSize(p), Pow2(p.maxBit))
  }

  /** MM_BIT_LEVEL. */
  function LevelCount(p: Params): nat
    requires p.minBit <= p.maxBit
  {
    p.maxBit - p.minBit + 2
  }

  /** size_to_level. */
  function Level(p: Params, size: nat): int {
    var cnt := BitLength(size);
    if cnt < p.minBit then 0 else if cnt > p.maxBit then -1 else cnt - p.minBit
  }

  /** MM_ALIGN_UP in 32 bits. */
  function AlignUp(size: nat): nat {
    (size + 7) / 8 * 8 % 0x1_0000_0000
  }

  /** What an allocation of `size` bytes looks for. */
  function Request(p: Params, size: nat): nat {
    if AlignUp(size) < MinSize(p) then MinSize(p) else AlignUp(size)
  }

  lemma {:induction false} BitLengthMonotone(m: nat, n: nat)
    requires m <= n
    ensures BitLength(m) <= BitLength(n)
  {
    if m > 0 {
      BitLengthMonotone(m / 2, n / 2);
    }
  }

  lemma {:induction false} BitLengthBound(n: nat, b: nat)
    ensures BitLength(n) <= b <==> n < Pow2(b)
  {
    if n > 0 && b > 0 {
      BitLengthBound(n / 2, b - 1);
    }
  }

  lemma MinSizeOk(p: Params)
    requires ParamsOk(p)
    ensures ConfigOk(Cfg(p))
  {
    Pow2Monotone(4, p.minBit - 1);
    MultipleOf8(p.minBit - 1);
  }

  lemma {:induction false} MultipleOf8(n: nat)
    requires n >= 3
    ensures Pow2(n) % 8 == 0
  {
    if n > 3 {
      MultipleOf8(n - 1);
    } else {
      assert Pow2(1) == 2 && Pow2(2) == 4;
    }
  }

  /** Larger sizes never have a lower level, so a block of a higher level fits. */
  lemma HigherLevelFits(p: Params, block: nat, need: nat)
    requires 0 <= Level(p, need) < Level(p, block)
    ensures need < block
  {
    if block <= need {
      BitLengthMonotone(block, need);
    }
  }

  lemma LowerLevelFails(p: Params, block: nat, need: nat)
    requires 0 <= Level(p, block) < Level(p, need)
    ensures block < need
  {
    HigherLevelFits(p, need, block);
  }

  /** Every size below the maximum has a level, and only those. */
  lemma HasLevel(p: Params, size: nat)
    requires ParamsOk(p)
    ensures size < Pow2(p.maxBit) <==> Level(p, size) != -1
    ensures size < Pow2(p.maxBit) ==> 0 <= Level(p, size) < LevelCount(p)
  {
    BitLengthBound(size, p.maxBit);
  }

  /** Level k > 0 holds sizes from 2^(k+min-1) up to 2^(k+min), level 0 everything below 2^min. */
  lemma LevelRange(p: Params, size: nat, k: nat)
    requires ParamsOk(p) && k + p.minBit <= p.maxBit
    ensures Level(p, size) == k <==> (k == 0 || Pow2(k + p.minBit - 1) <= size) && size < Pow2(k + p.minBit)
  {
    BitLengthBound(size, k + p.minBit);
    BitLengthBound(size, k + p.minBit - 1);
    BitLengthBound(size, p.maxBit);
    Pow2Monotone(k + p.minBit, p.maxBit);
  }

  lemma AlignUpOk(size: nat)
    ensures AlignUp(size) % 8 == 0 && AlignUp(size) < 0x1_0000_0000
    ensures size % 8 == 0 && size < 0x1_0000_0000 ==> AlignUp(size) == size
  {
    var q := (size + 7) / 8;
    assert q * 8 % 0x1_0000_0000 == q % 0x2000_0000 * 8;
  }

  /** The largest block there can be is within 32 bits. */
  lemma LevelsFit()
    ensures Pow2(30) == 0x4000_0000
  {
    assert Pow2(10) == 1024;
    PowAdd(10, 10);
    PowAdd(20, 10);
  }

  lemma MinSizeSmall(p: Params)
    requires ParamsOk(p)
    ensures MinSize(p) < 0x1_0000_0000
  {
    Pow2Monotone(p.minBit - 1, 30);
    LevelsFit();
  }

  lemma RequestOk(p: Params, size: nat)
    requires ParamsOk(p)
    ensures Request(p, size) % 8 == 0 && Request(p, size) >= MinSize(p)
    ensures Request(p, Request(p, size)) == Request(p, size)
  {
    MinSizeOk(p);
    MinSizeSmall(p);
    AlignUpOk(size);
    AlignUpOk(Request(p, size));
  }

  lemma {:induction false} PowAdd(a: nat, b: nat)
    ensures Pow2(a + b) == Pow2(a) * Pow2(b)
  {
    if b > 0 {
      PowAdd(a, b - 1);
      assert Pow2(a + b) == 2 * (Pow2(a) * Pow2(b - 1));
    }
  }

  /** Rounding up to the alignment covers the request unless the rounding wraps around. */
  lemma RequestCovers(p: Params, size: nat)
    requires ParamsOk(p) && size < 0x1_0000_0000
    ensures size <= 0xFFFF_FFF8 ==> size <= Request(p, size)
    ensures size > 0xFFFF_FFF8 ==> Request(p, size) == MinSize(p) < size
  {
    MinSizeOk(p);
    MinSizeSmall(p);
    RoundedUp(size);
  }

  /** n is a multiple of 8 that covers the size and the minimum size. */
  predicate Covers(p: Params, size: nat, n: nat) {
    n % 8 == 0 && size <= n && MinSize(p) <= n
  }

  /** Up to 0xFFFF_FFF8 bytes, the least multiple of 8 that covers the size and the minimum size; above, the minimum. */
  lemma RequestLeast(p: Params, size: nat)
    requires ParamsOk(p) && size < 0x1_0000_0000
    ensures size > 0xFFFF_FFF8 ==> Request(p, size) == MinSize(p)
    ensures size <= 0xFFFF_FFF8 ==>
      && Covers(p, size, Request(p, size)) && Request(p, size) <= Max(size + 7, MinSize(p))
      && forall n: nat | Covers(p, size, n) :: Request(p, size) <= n
  {
    MinSizeOk(p);
    RequestOk(p, size);
    RequestCovers(p, size);
    if size <= 0xFFFF_FFF8 {
      AlignUpLeast(size);
      AlignUpOk(size);
      forall n: nat | Covers(p, size, n) ensures Request(p, size) <= n {
        NextEight(AlignUp(size), n, size);
      }
    }
  }

  lemma AlignUpLeast(size: nat)
    requires size <= 0xFFFF_FFF8
    ensures size <= AlignUp(size) <= size + 7
  {
    var q := (size + 7) / 8;
    assert 8 * q <= size + 7 < 8 * q + 8;
    assert AlignUp(size) == 8 * q;
  }

  /** No two multiples of 8 are less than 8 apart. */
  lemma NextEight(a: nat, n: nat, size: nat)
    requires a % 8 == 0 && n % 8 == 0 && a <= size + 7 && size <= n
    ensures a <= n
  {
    assert a == 8 * (a / 8) && n == 8 * (n / 8);
  }

  /** Rounding up to a multiple of 8 in 32 bits. */
  lemma RoundedUp(size: nat)
    requires size < 0x1_0000_0000
    ensures if size <= 0xFFFF_FFF8 then size <= AlignUp(size) else AlignUp(size) == 0
  {
    var q := (size + 7) / 8;
    assert 8 * q <= size + 7 < 8 * q + 8;
    if size <= 0xFFFF_FFF8 {
      assert q * 8 < 0x1_0000_0000;
    } else {
      assert q == 0x2000_0000;
    }
  }
}
