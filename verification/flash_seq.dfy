/**
 The sequence counter (genie_flash.c): a base word and a unary count that only ever clears
 bits, so that most increments need no erase.
 */
module FlashSeq {
  import opened Basics
  import opened NorFlash

  const WORD: nat := 4
  const COUNT_BYTES: nat := PART_SIZE - WORD
  const COUNT_MAX: nat := 8 * COUNT_BYTES
  const ACTIVE: Byte := 1

  datatype Code = Success | DataInvalid | WriteFail

  // ----- The unary count -----

  /** A byte with its n highest bits cleared. */
  function Cleared(n: nat): Byte
    requires n <= 8
  {
    Pow2Bound(8 - n);
    Pow2(8 - n) - 1
  }

  lemma {:induction false} Pow2Bound(n: nat)
    requires n <= 8
    ensures 1 <= Pow2(n) <= 256
  {
    assert Pow2(8) == 256 by {
      assert Pow2(4) == 16;
    }
    Pow2Monotone(n, 8);
    Pow2Monotone(0, n);
  }

  /** How many of byte i's bits a count of c has cleared. */
  function BitsOf(c: nat, i: nat): (n: nat)
    ensures n <= 8
  {
    if c <= 8 * i then 0 else if c >= 8 * i + 8 then 8 else c - 8 * i
  }

  function Unary(c: nat): (s: seq<Byte>)
    ensures |s| == COUNT_BYTES
  {
    seq(COUNT_BYTES, i requires i >= 0 => Cleared(BitsOf(c, i)))
  }

  /** Zero bits among the n lowest of b, tested from the lowest up. */
  function ZeroBits(b: nat, n: nat): nat {
    if n == 0 then 0 else (if b % 2 == 0 then 1 else 0) + ZeroBits(b / 2, n - 1)
  }

  /** The count a reader sees: whole cleared bytes, then the zero bits of the first other byte. */
  function CountOf(s: seq<Byte>): nat {
    if s == [] then 0
    else if s[0] != 0 then ZeroBits(s[0], 8)
    else 8 + CountOf(s[1..])
  }

  lemma {:induction false} ZeroBitsOf(k: nat, n: nat)
    requires k <= n
    ensures Pow2(k) >= 1 && ZeroBits(Pow2(k) - 1, n) == n - k
    decreases n
  {
    if n > 0 {
      ZeroBitsOf(if k > 0 then k - 1 else 0, n - 1);
    }
  }

  lemma ClearedBits(n: nat)
    requires n <= 8
    ensures ZeroBits(Cleared(n), 8) == n && (Cleared(n) == 0 <==> n == 8)
  {
    ZeroBitsOf(8 - n, 8);
    if n < 8 {
      Pow2Monotone(1, 8 - n);
    }
  }

  /** From byte i on, a reader of a unary count sees what is left of it. */
  lemma {:induction false} CountFrom(c: nat, i: nat)
    requires i <= COUNT_BYTES && 8 * i <= c <= COUNT_MAX
    ensures CountOf(Unary(c)[i..]) == c - 8 * i
    decreases COUNT_BYTES - i
  {
    if i < COUNT_BYTES {
      assert Unary(c)[i..][0] == Cleared(BitsOf(c, i)) && Unary(c)[i..][1..] == Unary(c)[i + 1..];
      ClearedBits(BitsOf(c, i));
      if c >= 8 * i + 8 {
        CountFrom(c, i + 1);
      }
    }
  }

  /** Reading back a unary count gives it. */
  lemma UnaryRoundTrip(c: nat)
    requires c <= COUNT_MAX
    ensures CountOf(Unary(c)) == c
  {
    assert Unary(c)[0..] == Unary(c);
    CountFrom(c, 0);
  }

  lemma {:induction false} AndLow(k: nat, b: nat, n: nat)
    requires k <= n && b < Pow2(k)
    ensures AndBits(Pow2(k) - 1, b, n) == b
    decreases n
  {
    if k == 0 {
      AndZero(0, n);
    } else if n > 0 {
      assert (Pow2(k) - 1) / 2 == Pow2(k - 1) - 1 && (Pow2(k) - 1) % 2 == 1;
      AndLow(k - 1, b / 2, n - 1);
    }
  }

  /** Clearing more bits lands on any byte with fewer bits cleared. */
  lemma MoreCleared(a: nat, b: nat)
    requires a <= b <= 8
    ensures And8(Cleared(a), Cleared(b)) == Cleared(b)
  {
    LowBitsNest(a, b, 8);
  }

  lemma LowBitsNest(a: nat, b: nat, n: nat)
    requires a <= b <= 8 <= n
    ensures AndBits(Cleared(a), Cleared(b), n) == Cleared(b)
  {
    Pow2Bound(8 - b);
    Pow2Monotone(8 - b, 8 - a);
    AndLow(8 - a, Cleared(b), n);
  }

  // ----- The partition -----

  /** Base word, least significant byte first, and count. */
  function SeqImage(word: seq<Byte>, c: nat): (p: seq<Byte>)
    requires |word| == WORD
    ensures |p| == PART_SIZE
  {
    word + Unary(c)
  }

  /** The value of the low 24 bits. */
  function BaseOf(word: seq<Byte>): nat
    requires |word| == WORD
  {
    var a: int, b: int, c: int := word[0], word[1], word[2];
    a + 256 * b + 65536 * c
  }

  function WordFor(seq_: nat): (w: seq<Byte>)
    requires seq_ < 0x1_0000_0000
    ensures |w| == WORD
  {
    [seq_ % 256, seq_ / 256 % 256, seq_ / 65536 % 256, SetLowest(seq_ / 0x100_0000)]
  }

  /** b with the bit of the active flag set. */
  function SetLowest(b: Byte): Byte {
    if b % 2 == 1 then b else b + 1
  }

  lemma WordReads(v: nat)
    requires v < 0x1_0000_0000
    ensures BaseOf(WordFor(v)) == v % 0x100_0000
    ensures v < 0x100_0000 ==> WordFor(v)[3] == ACTIVE
    ensures v >= 0x100_0000 && WordFor(v)[3] == ACTIVE ==> v < 0x200_0000
  {
    Digits(v);
  }

  lemma Digits(v: nat)
    ensures v % 0x100_0000 == v % 256 + 256 * (v / 256 % 256) + 65536 * (v / 65536 % 256)
    ensures v / 0x100_0000 == v / 65536 / 256
  {
    var a, b, c := v / 256, v / 256 / 256, v / 256 / 256 / 256;
    assert v == 256 * a + v % 256 && a == 256 * b + a % 256 && b == 256 * c + b % 256;
    DigitBounds(v, b, c, v % 256 + 256 * (a % 256), v % 256 + 256 * (a % 256) + 65536 * (b % 256));
  }

  lemma DigitBounds(v: nat, b: nat, c: nat, low: nat, rest: nat)
    requires v == 65536 * b + low && low < 65536 && v == 0x100_0000 * c + rest && rest < 0x100_0000
    ensures v / 65536 == b && v / 0x100_0000 == c && v % 0x100_0000 == rest
  {
  }

  /** The byte of the count that its c-th bit lies in. */
  lemma LastByte(c: nat)
    requires c > 0
    ensures (c - 1) / 8 == if c % 8 == 0 then c / 8 - 1 else c / 8
  {
  }

  const NO_WORD: seq<Byte> := [255, 255, 255, 255]

  /** What a reader of the counter gets. */
  datatype Reading = Unreadable | Value(v: nat)

  function Read(p: seq<Byte>): Reading
    requires |p| == PART_SIZE
  {
    if p[3] != ACTIVE then Unreadable else Value(BaseOf(p[..WORD]) + CountOf(p[WORD..]))
  }

  lemma ReadImage(word: seq<Byte>, c: nat)
    requires |word| == WORD && c <= COUNT_MAX
    ensures Read(SeqImage(word, c)) == if word[3] == ACTIVE then Value(BaseOf(word) + c) else Unreadable
  {
    var p := SeqImage(word, c);
    assert p[..WORD] == word && p[WORD..] == Unary(c);
    UnaryRoundTrip(c);
  }

  /** Setting byte i of the count where everything before is cleared. */
  lemma ClearTo(word: seq<Byte>, c: nat, d: nat)
    requires |word| == WORD && 0 < d <= COUNT_MAX && c <= d
    requires c >= 8 * ((d - 1) / 8)
    ensures var i := (d - 1) / 8; var b := Cleared(d - 8 * i);
      && i < COUNT_BYTES
      && Programmed(SeqImage(word, c), WORD + i, [b]) == SeqImage(word, d)
      && Lands(SeqImage(word, c), WORD + i, [b])
  {
    var i := (d - 1) / 8;
    var b := Cleared(d - 8 * i);
    var x, z := word + Unary(c)[..i], Unary(c)[i + 1..];
    var y := [Unary(c)[i]];
    assert SeqImage(word, c) == x + y + z;
    MoreCleared(BitsOf(c, i), d - 8 * i);
    assert AndSeq(y, [b]) == [b];
    ProgrammedAt(x, y, z, [b]);
    assert x + [b] + z == SeqImage(word, d);
  }

  // ----- The code -----

  /** A reading from lo to hi. */
  ghost predicate Between(p: seq<Byte>, lo: nat, hi: nat) {
    |p| == PART_SIZE && Read(p).Value? && lo <= Read(p).v <= hi
  }

  ghost predicate AllBetween(h: seq<seq<Byte>>, n: nat, lo: nat, hi: nat) {
    forall i | n <= i < |h| :: Between(h[i], lo, hi)
  }

  /** A byte of the count is zero when all its eight bits are counted. */
  lemma FullByte(word: seq<Byte>, c: nat, i: nat)
    requires |word| == WORD && c <= COUNT_MAX && 8 * i < COUNT_MAX && 8 * i <= c
    ensures SeqImage(word, c)[WORD + i] == 0 <==> 8 * i + 8 <= c
  {
    ClearedBits(BitsOf(c, i));
    assert SeqImage(word, c)[WORD + i] == Unary(c)[i];
  }

  lemma OneMore(h: seq<seq<Byte>>, n: nat, lo: nat, hi: nat, word: seq<Byte>, c: nat)
    requires n < |h| && (forall i | n <= i < |h| - 1 :: Between(h[i], lo, hi))
    requires |word| == WORD && word[3] == ACTIVE && c <= COUNT_MAX && lo <= BaseOf(word) + c <= hi
    requires h[|h| - 1] == SeqImage(word, c)
    ensures AllBetween(h, n, lo, hi)
  {
    ReadImage(word, c);
  }

  /** Erased counter bytes are a count of nothing. */
  lemma ErasedImage()
    ensures Erased(PART_SIZE) == SeqImage(NO_WORD, 0)
  {
    assert Pow2(8) == 256 by {
      assert Pow2(4) == 16;
    }
  }

  class SeqStore {
    var part: seq<Byte>
    /** The partition after each write and erase. */
    var history: seq<seq<Byte>>
    ghost var word: seq<Byte>
    ghost var count: nat

    ghost predicate Valid()
      reads this
    {
      && |word| == WORD && count <= COUNT_MAX && part == SeqImage(word, count)
      && (word == NO_WORD ==> count == 0)
    }

    constructor ()
      ensures Valid() && part == Erased(PART_SIZE) && Read(part) == Unreadable
    {
      part, history := Erased(PART_SIZE), [];
      word, count := NO_WORD, 0;
      new;
      ErasedImage();
    }

    method HalWrite(off: nat, data: seq<Byte>)
      requires |part| == PART_SIZE && off + |data| <= PART_SIZE && Lands(part, off, data)
      modifies this`part, this`history
      ensures part == Programmed(old(part), off, data) && history == old(history) + [part]
    {
      part := Programmed(part, off, data);
      history := history + [part];
    }

    method ReadSeqBase() returns (ret: Code, base: nat)
      requires |part| == PART_SIZE
      ensures part[3] == ACTIVE ==> ret == Success && base == BaseOf(part[..WORD])
      ensures part[3] != ACTIVE ==> ret == DataInvalid && (base == 0xFFFF_FFFF <==> part[..WORD] == NO_WORD)
    {
      var top: int := part[3];
      base := BaseOf(part[..WORD]) + 0x100_0000 * top;
      if part[3] != ACTIVE {
        assert part[..WORD] == [part[0], part[1], part[2], part[3]];
        return DataInvalid, base;
      }
      return Success, BaseOf(part[..WORD]);
    }

    method ReadSeqCount() returns (c: nat)
      requires |part| == PART_SIZE
      ensures c == CountOf(part[WORD..])
    {
      c := 0;
      var offset := WORD;
      while offset < PART_SIZE
        invariant WORD <= offset <= PART_SIZE && offset % 4 == 0
        invariant c + CountOf(part[offset..]) == CountOf(part[WORD..])
      {
        var data := part[offset..offset + 4];
        for i := 0 to 4
          invariant c + CountOf(part[offset + i..]) == CountOf(part[WORD..])
        {
          assert part[offset + i..][0] == data[i] && part[offset + i..][1..] == part[offset + i + 1..];
          if data[i] != 0 {
            var rest: nat := data[i];
            for j := 0 to 8
              invariant c + ZeroBits(rest, 8 - j) == CountOf(part[WORD..])
            {
              if rest % 2 == 0 {
                c := c + 1;
              }
              rest := rest / 2;
            }
            return;
          } else {
            c := c + 8;
          }
        }
        offset := offset + 4;
      }
    }

    /** genie_flash_read_seq. */
    method ReadSeq() returns (ret: Code, v: nat)
      requires |part| == PART_SIZE
      ensures Read(part) == if ret == Success then Value(v) else Unreadable
      ensures ret == Success || ret == DataInvalid
    {
      ret, v := ReadSeqBase();
      if ret != Success {
        return;
      }
      var c := ReadSeqCount();
      v := v + c;
    }

    method WriteSeqBase(v: nat)
      requires Valid() && word == NO_WORD && v < 0x1_0000_0000
      modifies this
      ensures Valid() && word == WordFor(v) && count == 0 && history == old(history) + [part]
    {
      var x := Unary(0);
      assert part == [] + NO_WORD + x;
      assert NO_WORD == Erased(WORD);
      AndSeqErased(WordFor(v));
      ProgrammedAt([], NO_WORD, x, WordFor(v));
      assert SeqImage(WordFor(v), 0) == [] + WordFor(v) + x;
      HalWrite(0, WordFor(v));
      word, count := WordFor(v), 0;
    }

    /** One byte of the count is brought up to d. */
    method ClearByte(d: nat)
      requires Valid() && word[3] == ACTIVE && 0 < d <= COUNT_MAX && 8 * ((d - 1) / 8) <= count <= d
      modifies this
      ensures Valid() && word == old(word) && count == d && history == old(history) + [part]
    {
      ClearTo(word, count, d);
      var i := (d - 1) / 8;
      HalWrite(WORD + i, [Cleared(d - 8 * i)]);
      count := d;
    }

    method WriteSeqCount(c: nat)
      requires Valid() && word[3] == ACTIVE && count <= c <= COUNT_MAX && 0 < c
      modifies this
      ensures Valid() && word == old(word) && count == c && old(history) <= history
      ensures AllBetween(history, |old(history)|, BaseOf(word) + old(count), BaseOf(word) + c)
    {
      ghost var lo, hi := BaseOf(word) + count, BaseOf(word) + c;
      var offset := WORD + c / 8;
      if c % 8 == 0 {
        offset := offset - 1;
      }
      LastByte(c);
      ClearBelow(offset, c, lo, hi);
      ClearByte(c);
      OneMore(history, |old(history)|, lo, hi, word, count);
    }

    /** The bytes of the count before the last are cleared, one write for each that is not yet. */
    method ClearBelow(offset: nat, ghost c: nat, ghost lo: nat, ghost hi: nat)
      requires Valid() && word[3] == ACTIVE && count <= c <= COUNT_MAX && WORD <= offset && 8 * (offset - WORD) <= c
      requires lo == BaseOf(word) + count && hi == BaseOf(word) + c
      modifies this
      ensures Valid() && word == old(word) && old(count) <= count <= c && 8 * (offset - WORD) <= count
      ensures old(history) <= history
      ensures AllBetween(history, |old(history)|, lo, hi)
    {
      var start := WORD;
      while start < offset
        invariant WORD <= start <= offset
        invariant Valid() && word == old(word) && old(count) <= count <= c && 8 * (start - WORD) <= count
        invariant old(history) <= history && AllBetween(history, |old(history)|, lo, hi)
      {
        FullByte(word, count, start - WORD);
        if part[start] != 0 {
          ClearByte(8 * (start - WORD) + 8);
          OneMore(history, |old(history)|, lo, hi, word, count);
        }
        start := start + 1;
      }
    }

    /** genie_flash_delete_seq. */
    method DeleteSeq()
      modifies this
      ensures Valid() && word == NO_WORD && Read(part) == Unreadable && history == old(history) + [part]
    {
      part := Erased(PART_SIZE);
      history := history + [part];
      word, count := NO_WORD, 0;
      ErasedImage();
    }

    /** genie_flash_write_seq. */
    method WriteSeq(v: nat) returns (ret: Code)
      requires Valid() && v < 0x1_0000_0000
      modifies this
      ensures Valid() && old(history) <= history
      ensures ret != Success <==> Read(old(part)).Value? && v <= Read(old(part)).v
      ensures ret != Success ==> part == old(part)
      // what a successful write leaves behind
      ensures ret == Success ==> (Read(part) == Value(v) <==> Counts(old(part), v) || v < 0x100_0000)
      ensures ret == Success && Counts(old(part), v) ==> AllBetween(history, |old(history)|, Read(old(part)).v, v)
    {
      ghost var w, n := word, count;
      ReadImage(word, count);
      assert part[..WORD] == word && part[3] == word[3];
      WordReads(v);
      var code, base := ReadSeqBase();
      if code == DataInvalid {
        if base != 0xFFFF_FFFF {
          DeleteSeq();
        }
        WriteSeqBase(v);
        ReadImage(word, 0);
        return Success;
      }
      if base >= v {
        return WriteFail;
      }
      if v - base <= COUNT_MAX {
        var c := ReadSeqCount();
        assert part[WORD..] == Unary(count);
        UnaryRoundTrip(count);
        if c < v - base {
          WriteSeqCount(v - base);
          ReadImage(word, count);
          return Success;
        }
        return WriteFail;
      }
      DeleteSeq();
      WriteSeqBase(v);
      ReadImage(word, 0);
      return Success;
    }
  }

  /** A write of a value the base word can hold succeeds exactly when it is above what is readable, and is read back. */
  method Offer(store: SeqStore, v: nat) returns (ret: Code)
    requires store.Valid() && v < 0x100_0000
    modifies store
    ensures store.Valid() && (ret == Success <==> Above(v, Read(old(store.part))))
    ensures Read(store.part) == if ret == Success then Value(v) else Read(old(store.part))
  {
    ret := store.WriteSeq(v);
  }

  /**
   After the values vs were offered, the accepted ones strictly increase from above the reading
   at the start, and the last one is the reading now; none is accepted only if none was above.
   */
  ghost predicate Climbed(vs: seq<nat>, accepted: seq<nat>, start: Reading, now: Reading) {
    && (forall i, j | 0 <= i < j < |accepted| :: accepted[i] < accepted[j])
    && (forall v | v in accepted :: v in vs && Above(v, start))
    && now == (if accepted == [] then start else Value(accepted[|accepted| - 1]))
    && (accepted == [] ==> forall v | v in vs :: !Above(v, start))
  }

  lemma ClimbStep(vs: seq<nat>, accepted: seq<nat>, start: Reading, now: Reading, v: nat)
    requires Climbed(vs, accepted, start, now)
    ensures if Above(v, now) then Climbed(vs + [v], accepted + [v], start, Value(v))
            else Climbed(vs + [v], accepted, start, now)
  {
    if accepted != [] {
      assert accepted[|accepted| - 1] in accepted;
      assert Above(accepted[|accepted| - 1], start);
    }
    forall w | w in vs + [v] ensures w in vs || w == v {}
  }

  /** A session on any partition, through counting and rebasing. */
  method WriteAll(store: SeqStore, vs: seq<nat>) returns (accepted: seq<nat>)
    requires store.Valid() && forall v | v in vs :: v < 0x100_0000
    modifies store
    ensures store.Valid() && Climbed(vs, accepted, Read(old(store.part)), Read(store.part))
  {
    ghost var start := Read(store.part);
    accepted := [];
    for i := 0 to |vs|
      invariant store.Valid() && Climbed(vs[..i], accepted, start, Read(store.part))
    {
      assert vs[i] in vs;
      ClimbStep(vs[..i], accepted, start, Read(store.part), vs[i]);
      assert vs[..i] + [vs[i]] == vs[..i + 1];
      var ret := Offer(store, vs[i]);
      if ret == Success {
        accepted := accepted + [vs[i]];
      }
    }
    assert vs[..|vs|] == vs;
  }

  /** v is more than the reading, if there is one. */
  predicate Above(v: nat, r: Reading) {
    r.Value? ==> v > r.v
  }

  /** The write goes to the count: the base is valid and within reach. */
  predicate Counts(p: seq<Byte>, v: nat)
    requires |p| == PART_SIZE
  {
    p[3] == ACTIVE && v <= BaseOf(p[..WORD]) + COUNT_MAX
  }
}
