/**
 CRC-16-CCITT (crc16.c): the table-free bytewise form and the bitwise form against
 division by the generator x^16 + x^12 + x^5 + 1 of section 2 of ITU-T V.41.
 */
module Crc16 {

  /** A byte, held in a word as the C integer promotions do. */
  type Octet = d: bv16 | d & 0xFF00 == 0 witness 0

  /** A remainder times x: the bit carried out comes back as the generator's low bits. */
  function TimesX(r: bv16): bv16 {
    if r & 0x8000 != 0 then Reduce(ShiftUp(r)) else ShiftUp(r)
  }

  function Reduce(r: bv16): bv16 { r ^ 0x1021 }

  function ShiftUp(r: bv16): bv16 { r << 1 }

  function TimesXn(r: bv16, n: nat): bv16 {
    if n == 0 then r else TimesX(TimesXn(r, n - 1))
  }

  /** The byte d entering at the top of the remainder. */
  function Mix(r: bv16, d: bv16): bv16 {
    r ^ (d << 8)
  }

  /** The remainder after eight more message bits. */
  function Fold(crc: bv16, d: Octet): bv16 {
    TimesXn(Mix(crc, d), 8)
  }

  function Crc(seed: bv16, message: seq<Octet>): bv16 {
    if message == [] then seed
    else Fold(Crc(seed, message[..|message| - 1]), message[|message| - 1])
  }

  /** The p_crc argument: NULL for the first block, the previous result after it. */
  datatype Seed = First | After(crc: bv16)

  // ----- Multiplication by x, x^2, x^4 and x^8 in closed form -----

  lemma TimesXIs(r: bv16)
    ensures TimesX(r) == (r << 1) ^ (r >> 15) ^ ((r >> 15) << 5) ^ ((r >> 15) << 12)
  {
    if r & 0x8000 != 0 {
      CarryOut(r);
    } else {
      NoCarryOut(r);
    }
  }

  lemma CarryOut(r: bv16)
    requires r & 0x8000 != 0
    ensures (r << 1) ^ 0x1021 == (r << 1) ^ (r >> 15) ^ ((r >> 15) << 5) ^ ((r >> 15) << 12)
  {
  }

  lemma NoCarryOut(r: bv16)
    requires r & 0x8000 == 0
    ensures r << 1 == (r << 1) ^ (r >> 15) ^ ((r >> 15) << 5) ^ ((r >> 15) << 12)
  {
  }

  lemma TwoSteps(a: bv16, b: bv16, c: bv16)
    requires b == (a << 1) ^ (a >> 15) ^ ((a >> 15) << 5) ^ ((a >> 15) << 12)
    requires c == (b << 1) ^ (b >> 15) ^ ((b >> 15) << 5) ^ ((b >> 15) << 12)
    ensures c == (a << 2) ^ (a >> 14) ^ ((a >> 14) << 5) ^ ((a >> 14) << 12)
  {
  }

  lemma FourSteps(a: bv16, b: bv16, c: bv16)
    requires b == (a << 2) ^ (a >> 14) ^ ((a >> 14) << 5) ^ ((a >> 14) << 12)
    requires c == (b << 2) ^ (b >> 14) ^ ((b >> 14) << 5) ^ ((b >> 14) << 12)
    ensures c == (a << 4) ^ (a >> 12) ^ ((a >> 12) << 5) ^ ((a >> 12) << 12)
  {
  }

  lemma EightSteps(a: bv16, b: bv16, c: bv16, t: bv16)
    requires b == (a << 4) ^ (a >> 12) ^ ((a >> 12) << 5) ^ ((a >> 12) << 12)
    requires c == (b << 4) ^ (b >> 12) ^ ((b >> 12) << 5) ^ ((b >> 12) << 12)
    requires t == (a >> 8) ^ (a >> 12)
    ensures c == Fed(a, t)
  {
    EightShifts(a, b, c, t);
  }

  lemma EightShifts(a: bv16, b: bv16, c: bv16, t: bv16)
    requires b == (a << 4) ^ (a >> 12) ^ ((a >> 12) << 5) ^ ((a >> 12) << 12)
    requires c == (b << 4) ^ (b >> 12) ^ ((b >> 12) << 5) ^ ((b >> 12) << 12)
    requires t == (a >> 8) ^ (a >> 12)
    ensures c == (a << 8) ^ t ^ (t << 5) ^ (t << 12)
  {
  }

  lemma {:induction false} TimesXnSplit(r: bv16, m: nat, n: nat)
    ensures TimesXn(r, m + n) == TimesXn(TimesXn(r, m), n)
  {
    if n > 0 {
      TimesXnSplit(r, m, n - 1);
      assert m + n - 1 == m + (n - 1);
    }
  }

  lemma TimesX2(r: bv16)
    ensures TimesXn(r, 2) == (r << 2) ^ (r >> 14) ^ ((r >> 14) << 5) ^ ((r >> 14) << 12)
  {
    var b := TimesX(r);
    assert TimesXn(r, 1) == TimesX(TimesXn(r, 0));
    assert TimesXn(r, 2) == TimesX(b);
    TimesXIs(r);
    TimesXIs(b);
    TwoSteps(r, b, TimesX(b));
  }

  lemma TimesX4(r: bv16)
    ensures TimesXn(r, 4) == (r << 4) ^ (r >> 12) ^ ((r >> 12) << 5) ^ ((r >> 12) << 12)
  {
    TimesXnSplit(r, 2, 2);
    var b := TimesXn(r, 2);
    TimesX2(r);
    TimesX2(b);
    FourSteps(r, b, TimesXn(b, 2));
  }

  /** The eight bits carried out, folded onto themselves, come back in three places. */
  lemma TimesX8(r: bv16, t: bv16)
    requires t == Carried(r)
    ensures TimesXn(r, 8) == Fed(r, t)
  {
    TimesXnSplit(r, 4, 4);
    var b := TimesXn(r, 4);
    TimesX4(r);
    TimesX4(b);
    EightSteps(r, b, TimesXn(b, 4), t);
  }

  // ----- util_crc16_compute: the assignments of its loop body -----

  function SwapBytes(c: bv16): bv16 { (c >> 8) | (c << 8) }

  function FoldLow(c: bv16): bv16 { c ^ ((c & 0xFF) >> 4) }

  function FeedTop(c: bv16): bv16 { c ^ ((c << 8) << 4) }

  function FeedMiddle(c: bv16): bv16 { c ^ (((c & 0xFF) << 4) << 1) }

  /** The byte a remainder carries out in eight steps, its upper half carried out a second time. */
  function Carried(r: bv16): bv16 { (r >> 8) ^ (r >> 12) }

  lemma CarriedIsByte(r: bv16)
    ensures Carried(r) & 0xFF00 == 0
  {
  }

  lemma Swapped(c: bv16, d: bv16)
    requires d & 0xFF00 == 0
    ensures SwapBytes(c) ^ d == SwapBytes(Mix(c, d))
  {
  }

  /** The remainder x times x^8 with none, one or both of the returning copies of t fed in. */
  function Unfed(x: bv16, t: bv16): bv16 { (x << 8) ^ t }

  function HalfFed(x: bv16, t: bv16): bv16 { (x << 8) ^ t ^ (t << 12) }

  function Fed(x: bv16, t: bv16): bv16 { (x << 8) ^ t ^ (t << 5) ^ (t << 12) }

  lemma LowFolded(x: bv16)
    ensures FoldLow(SwapBytes(x)) == Unfed(x, Carried(x))
  {
  }

  lemma TopFed(x: bv16, t: bv16)
    ensures FeedTop(Unfed(x, t)) == HalfFed(x, t)
  {
  }

  lemma MiddleFed(x: bv16, t: bv16)
    requires t & 0xFF00 == 0
    ensures FeedMiddle(HalfFed(x, t)) == Fed(x, t)
  {
  }

  lemma ByteIsEightSteps(x: bv16)
    ensures FeedMiddle(FeedTop(FoldLow(SwapBytes(x)))) == TimesXn(x, 8)
  {
    LowFolded(x);
    TopFed(x, Carried(x));
    CarriedIsByte(x);
    MiddleFed(x, Carried(x));
    TimesX8(x, Carried(x));
  }

  method FoldByte(crc: bv16, d: Octet) returns (r: bv16)
    ensures r == Fold(crc, d)
  {
    r := SwapBytes(crc);
    r := r ^ d;
    r := FoldLow(r);
    r := FeedTop(r);
    r := FeedMiddle(r);
    Swapped(crc, d);
    ByteIsEightSteps(Mix(crc, d));
  }

  method Compute(data: seq<Octet>, seed: Seed) returns (crc: bv16)
    ensures crc == Crc(if seed.First? then 0xFFFF else seed.crc, data)
  {
    crc := if seed.First? then 0xFFFF else seed.crc;
    for i := 0 to |data|
      invariant crc == Crc(if seed.First? then 0xFFFF else seed.crc, data[..i])
    {
      crc := FoldByte(crc, data[i]);
      assert data[..i + 1][..i] == data[..i];
    }
    assert data[..|data|] == data;
  }

  // ----- util_crc16_ccitt -----

  /** The bit leaving the remainder against the message bit entering it. */
  function BitOut(crc: bv16, h: bv16): bv16 { (h & 0x80) ^ ((crc & 0x8000) >> 8) }

  lemma BitOutIsCarry(s: bv16, h: bv16)
    ensures BitOut(s, h) != 0 <==> Mix(s, h) & 0x8000 != 0
  {
  }

  lemma ShiftsTogether(s: bv16, h: bv16)
    ensures Mix(ShiftUp(s), ShiftUp(h)) == ShiftUp(Mix(s, h))
  {
  }

  lemma GeneratorMixes(s: bv16, h: bv16, k: bv16)
    requires k == h << 8
    ensures Mix(Reduce(s), h) == Reduce(Mix(s, h))
  {
    MixIs(s, h, k);
    MixIs(Reduce(s), h, k);
    XorSwaps(s, k, 0x1021);
  }

  lemma MixIs(s: bv16, h: bv16, k: bv16)
    requires k == h << 8
    ensures Mix(s, h) == s ^ k
  {
  }

  lemma XorSwaps(a: bv16, b: bv16, c: bv16)
    ensures (a ^ c) ^ b == (a ^ b) ^ c
  {
  }

  /** One round of the inner loop multiplies the remainder, byte still mixed in, by x. */
  lemma BitStep(s: bv16, h: bv16)
    ensures Mix(if BitOut(s, h) != 0 then Reduce(ShiftUp(s)) else ShiftUp(s), ShiftUp(h)) == TimesX(Mix(s, h))
  {
    BitOutIsCarry(s, h);
    ShiftsTogether(s, h);
    GeneratorMixes(ShiftUp(s), ShiftUp(h), ShiftUp(h) << 8);
  }

  /** d shifted left one place at a time. */
  function Shifted(d: bv16, j: nat): bv16 {
    if j == 0 then d else ShiftUp(Shifted(d, j - 1))
  }

  /** After eight places nothing of the byte is left to mix in. */
  lemma NothingLeft(s: bv16, d: bv16)
    requires d & 0xFF00 == 0
    ensures Mix(s, Shifted(d, 8)) == s
  {
    FourPlaces(d, 0);
    FourPlaces(d, 4);
    PlacesGone(s, d, Shifted(d, 4), Shifted(d, 8));
  }

  lemma FourPlaces(d: bv16, j: nat)
    ensures Shifted(d, j + 4) == Shifted(d, j) << 4
  {
    var h := Shifted(d, j);
    assert Shifted(d, j + 2) == ShiftUp(Shifted(d, j + 1));
    assert Shifted(d, j + 4) == ShiftUp(Shifted(d, j + 3));
    FourShifts(h, Shifted(d, j + 2), Shifted(d, j + 4));
  }

  lemma FourShifts(a: bv16, b: bv16, c: bv16)
    requires b == ShiftUp(ShiftUp(a)) && c == ShiftUp(ShiftUp(b))
    ensures c == a << 4
  {
  }

  lemma PlacesGone(s: bv16, d: bv16, m: bv16, h: bv16)
    requires m == d << 4 && h == m << 4
    ensures Mix(s, h) == s
  {
  }

  /** The inner loop of the bitwise form. */
  method FoldBits(crc: bv16, d: Octet) returns (r: bv16)
    ensures r == Fold(crc, d)
  {
    r := crc;
    var shifted: bv16 := d;
    for j := 0 to 8
      invariant shifted == Shifted(d, j) && Mix(r, shifted) == TimesXn(Mix(crc, d), j)
    {
      var b := BitOut(r, shifted);
      BitStep(r, shifted);
      r := ShiftUp(r);
      if b != 0 {
        r := Reduce(r);
      }
      shifted := ShiftUp(shifted);
    }
    NothingLeft(r, d);
  }

  method Ccitt(data: seq<Octet>, seed: Seed) returns (crc: bv16)
    ensures crc == Crc(if seed.First? then 0xFFFF else seed.crc, data)
  {
    crc := if seed.First? then 0xFFFF else seed.crc;
    for i := 0 to |data|
      invariant crc == Crc(if seed.First? then 0xFFFF else seed.crc, data[..i])
    {
      crc := FoldBits(crc, data[i]);
      assert data[..i + 1][..i] == data[..i];
    }
    assert data[..|data|] == data;
  }

  /** The two forms agree on every message and seed. */
  method Agree(data: seq<Octet>, seed: Seed) returns (fast: bv16, slow: bv16)
    ensures fast == slow == Crc(if seed.First? then 0xFFFF else seed.crc, data)
  {
    fast := Compute(data, seed);
    slow := Ccitt(data, seed);
  }

  // ----- Blocks -----

  /** Feeding the result of one block as the seed of the next is the same as one pass. */
  lemma {:induction false} InBlocks(seed: bv16, a: seq<Octet>, b: seq<Octet>)
    ensures Crc(seed, a + b) == Crc(Crc(seed, a), b)
    decreases |b|
  {
    if b == [] {
      assert a + b == a;
    } else {
      var n := |a + b| - 1;
      assert (a + b)[..n] == a + b[..|b| - 1] && (a + b)[n] == b[|b| - 1];
      InBlocks(seed, a, b[..|b| - 1]);
    }
  }

  // ----- Bursts -----

  /** Multiplying by x loses nothing, because the generator has a constant term. */
  lemma TimesXInjective(a: bv16, b: bv16)
    requires TimesX(a) == TimesX(b)
    ensures a == b
  {
    CarryRecovered(a);
    CarryRecovered(b);
  }

  lemma CarryRecovered(r: bv16)
    ensures r & 0x8000 != 0 ==> ((r << 1) ^ 0x1021) & 1 == 1 && ((((r << 1) ^ 0x1021) ^ 0x1021) >> 1) | 0x8000 == r
    ensures r & 0x8000 == 0 ==> (r << 1) & 1 == 0 && (r << 1) >> 1 == r
  {
  }

  lemma {:induction false} TimesXnInjective(a: bv16, b: bv16, n: nat)
    requires TimesXn(a, n) == TimesXn(b, n)
    ensures a == b
  {
    if n > 0 {
      TimesXInjective(TimesXn(a, n - 1), TimesXn(b, n - 1));
      TimesXnInjective(a, b, n - 1);
    }
  }

  lemma MixCancels(a: bv16, b: bv16, d: bv16)
    requires Mix(a, d) == Mix(b, d)
    ensures a == b
  {
  }

  lemma FoldInjective(x: bv16, y: bv16, d: Octet)
    requires Fold(x, d) == Fold(y, d)
    ensures x == y
  {
    TimesXnInjective(Mix(x, d), Mix(y, d), 8);
    MixCancels(x, y, d);
  }

  /** Different remainders stay different over any common rest. */
  lemma {:induction false} CrcInjective(a: bv16, b: bv16, message: seq<Octet>)
    requires Crc(a, message) == Crc(b, message)
    ensures a == b
    decreases |message|
  {
    if message != [] {
      var n := |message| - 1;
      FoldInjective(Crc(a, message[..n]), Crc(b, message[..n]), message[n]);
      CrcInjective(a, b, message[..n]);
    }
  }

  /** What the carried byte t leaves in the low byte of the remainder. */
  function LowPart(t: bv16): bv16 { (t ^ (t << 5)) & 0xFF }

  lemma LowByteIs(x: bv16, t: bv16)
    ensures Fed(x, t) & 0xFF == LowPart(t)
  {
  }

  lemma LowPartTells(t: bv16, u: bv16)
    requires t & 0xFF00 == 0 && u & 0xFF00 == 0 && LowPart(t) == LowPart(u)
    ensures t == u
  {
  }

  lemma CarriedTells(s: bv16, a: bv16, b: bv16)
    requires a & 0xFF00 == 0 && b & 0xFF00 == 0
    requires Carried(Mix(s, a)) == Carried(Mix(s, b))
    ensures a == b
  {
    SameLow(s, a, b);
    SameHigh(Mix(s, a), Mix(s, b));
    ByteEnters(s, a, b);
  }

  lemma SameLow(s: bv16, a: bv16, b: bv16)
    requires a & 0xFF00 == 0 && b & 0xFF00 == 0
    ensures Mix(s, a) & 0xFF == Mix(s, b) & 0xFF
  {
  }

  lemma SameHigh(x: bv16, y: bv16)
    requires x & 0xFF == y & 0xFF && Carried(x) == Carried(y)
    ensures x == y
  {
  }

  lemma LowByteLeft(x: bv16)
    ensures TimesXn(x, 8) & 0xFF == LowPart(Carried(x))
  {
    TimesX8(x, Carried(x));
    LowByteIs(x, Carried(x));
  }

  /** A byte is told apart by the low byte of the remainder it leaves. */
  lemma LowByteTells(s: bv16, a: Octet, b: Octet)
    requires Fold(s, a) & 0xFF == Fold(s, b) & 0xFF
    ensures a == b
  {
    var x, y := Mix(s, a), Mix(s, b);
    LowByteLeft(x);
    LowByteLeft(y);
    CarriedIsByte(x);
    CarriedIsByte(y);
    LowPartTells(Carried(x), Carried(y));
    CarriedTells(s, a, b);
  }

  /** The second byte enters above the low byte, and so hides none of the first. */
  lemma LowByteSurvives(x: bv16, y: bv16, a: bv16, b: bv16)
    requires Mix(x, a) == Mix(y, b)
    ensures x & 0xFF == y & 0xFF
  {
  }

  lemma ByteEnters(r: bv16, a: bv16, b: bv16)
    requires a & 0xFF00 == 0 && b & 0xFF00 == 0 && Mix(r, a) == Mix(r, b)
    ensures a == b
  {
  }

  /** Two bytes are told apart by the remainder they leave. */
  lemma TwoBytesTold(s: bv16, a: Octet, b: Octet, a': Octet, b': Octet)
    requires Fold(Fold(s, a), b) == Fold(Fold(s, a'), b')
    ensures a == a' && b == b'
  {
    TimesXnInjective(Mix(Fold(s, a), b), Mix(Fold(s, a'), b'), 8);
    LowByteSurvives(Fold(s, a), Fold(s, a'), b, b');
    LowByteTells(s, a, a');
    ByteEnters(Fold(s, a), b, b');
  }

  lemma PairTold(seed: bv16, head: seq<Octet>, a: Octet, b: Octet, a': Octet, b': Octet, rest: seq<Octet>)
    requires Crc(seed, head + [a, b] + rest) == Crc(seed, head + [a', b'] + rest)
    ensures a == a' && b == b'
  {
    InBlocks(seed, head + [a, b], rest);
    InBlocks(seed, head + [a', b'], rest);
    CrcInjective(Crc(seed, head + [a, b]), Crc(seed, head + [a', b']), rest);
    InBlocks(seed, head, [a, b]);
    InBlocks(seed, head, [a', b']);
    TwoFolds(Crc(seed, head), a, b);
    TwoFolds(Crc(seed, head), a', b');
    TwoBytesTold(Crc(seed, head), a, b, a', b');
  }

  /** Whether messages of one length agree everywhere but at i and i + 1. */
  ghost predicate Burst(m: seq<Octet>, m': seq<Octet>, i: nat) {
    |m| == |m'| && forall k :: 0 <= k < |m| && k != i && k != i + 1 ==> m[k] == m'[k]
  }

  lemma Parts(m: seq<Octet>, m': seq<Octet>, i: nat)
    requires Burst(m, m', i) && i + 1 < |m|
    ensures m == m[..i] + [m[i], m[i + 1]] + m[i + 2..]
    ensures m' == m[..i] + [m'[i], m'[i + 1]] + m[i + 2..]
  {
  }

  lemma BurstTold(seed: bv16, m: seq<Octet>, m': seq<Octet>, i: nat)
    requires Burst(m, m', i) && i + 1 < |m|
    requires Crc(seed, m) == Crc(seed, m')
    ensures m == m'
  {
    Parts(m, m', i);
    PairTold(seed, m[..i], m[i], m[i + 1], m'[i], m'[i + 1], m[i + 2..]);
  }

  lemma ByteTold(seed: bv16, m: seq<Octet>, m': seq<Octet>)
    requires |m| == |m'| == 1 && Crc(seed, m) == Crc(seed, m')
    ensures m == m'
  {
    assert m == [m[0]] && m' == [m'[0]];
    OneFold(seed, m[0]);
    OneFold(seed, m'[0]);
    LowByteTells(seed, m[0], m'[0]);
  }

  /** Messages of one length that differ only at i and i + 1 never share a CRC. */
  lemma BurstDetected(seed: bv16, m: seq<Octet>, m': seq<Octet>, i: nat)
    requires Burst(m, m', i) && m != m'
    ensures Crc(seed, m) != Crc(seed, m')
  {
    if Crc(seed, m) == Crc(seed, m') {
      if |m| == 1 {
        ByteTold(seed, m, m');
      } else if i + 1 < |m| {
        BurstTold(seed, m, m', i);
      } else {
        BurstTold(seed, m, m', |m| - 2);
      }
    }
  }

  lemma OneFold(s: bv16, a: Octet)
    ensures Crc(s, [a]) == Fold(s, a)
  {
    assert [a][..0] == [];
    assert Crc(s, [a]) == Fold(Crc(s, []), a);
  }

  lemma TwoFolds(s: bv16, a: Octet, b: Octet)
    ensures Crc(s, [a, b]) == Fold(Fold(s, a), b)
  {
    assert [a, b][..1] == [a];
    OneFold(s, a);
  }
}
