/** NOR flash: a write can only clear bits, an erase sets them all. */
module NorFlash {
  import opened Basics

  const PART_SIZE: nat := 4096

  /** Bitwise AND of the low n bits. */
  function AndBits(a: nat, b: nat, n: nat): nat {
    if n == 0 then 0
    else (if a % 2 == 1 && b % 2 == 1 then 1 else 0) + 2 * AndBits(a / 2, b / 2, n - 1)
  }

  lemma {:induction false} AndBitsBound(a: nat, b: nat, n: nat, bound: nat)
    requires a < bound
    ensures AndBits(a, b, n) < bound
    decreases n
  {
    if n > 0 {
      AndBitsBound(a / 2, b / 2, n - 1, a / 2 + 1);
    }
  }

  function And8(a: Byte, b: Byte): Byte {
    AndBitsBound(a, b, 8, 256);
    AndBits(a, b, 8)
  }

  lemma {:induction false} AndOnes(b: nat, n: nat, ones: nat)
    requires b <= ones && ones + 1 == Pow2(n)
    ensures AndBits(ones, b, n) == b
    decreases n
  {
    if n > 0 {
      assert ones % 2 == 1 && ones / 2 + 1 == Pow2(n - 1);
      AndOnes(b / 2, n - 1, ones / 2);
    }
  }

  /** Erased bytes take any value. */
  lemma AndErased(b: Byte)
    ensures And8(255, b) == b
  {
    assert Pow2(8) == 256 by {
      assert Pow2(4) == 16;
    }
    AndOnes(b, 8, 255);
  }

  lemma {:induction false} AndZero(a: nat, n: nat)
    ensures AndBits(a, 0, n) == 0
  {
    if n > 0 {
      AndZero(a / 2, n - 1);
    }
  }

  /** The bits of a that are set in no other position than b's. */
  lemma {:induction false} AndSame(a: nat, n: nat, bound: nat)
    requires a < bound && bound == Pow2(n)
    ensures AndBits(a, a, n) == a
    decreases n
  {
    if n > 0 {
      AndSame(a / 2, n - 1, bound / 2);
    }
  }

  /** A written byte has no bit the old one had not. */
  lemma {:induction false} AndOnlyClears(a: nat, b: nat, n: nat)
    ensures AndBits(a, b, n) <= a && AndBits(a, b, n) <= b
    decreases n
  {
    if n > 0 {
      AndOnlyClears(a / 2, b / 2, n - 1);
    }
  }

  function AndSeq(old_: seq<Byte>, new_: seq<Byte>): (r: seq<Byte>)
    requires |old_| == |new_|
    ensures |r| == |old_|
  {
    seq(|old_|, i requires 0 <= i < |old_| => And8(old_[i], new_[i]))
  }

  /** Programming `data` at an offset. */
  function Programmed(p: seq<Byte>, off: nat, data: seq<Byte>): (r: seq<Byte>)
    requires off + |data| <= |p|
    ensures |r| == |p|
  {
    p[..off] + AndSeq(p[off..off + |data|], data) + p[off + |data|..]
  }

  /** Programming leaves exactly the data: no bit it needs has been cleared before. */
  ghost predicate Lands(p: seq<Byte>, off: nat, data: seq<Byte>)
    requires off + |data| <= |p|
  {
    Programmed(p, off, data)[off..off + |data|] == data
  }

  function Erased(n: nat): (r: seq<Byte>)
    ensures |r| == n
  {
    seq(n, i => 255)
  }

  lemma AndSeqErased(data: seq<Byte>)
    ensures AndSeq(Erased(|data|), data) == data
  {
    forall i | 0 <= i < |data| ensures And8(255, data[i]) == data[i] {
      AndErased(data[i]);
    }
  }

  lemma ErasedSplit(n: nat, k: nat)
    requires k <= n
    ensures Erased(n) == Erased(k) + Erased(n - k)
  {
  }

  /** Programming in the middle. */
  lemma ProgrammedAt(x: seq<Byte>, y: seq<Byte>, z: seq<Byte>, data: seq<Byte>)
    requires |y| == |data|
    ensures Programmed(x + y + z, |x|, data) == x + AndSeq(y, data) + z
    ensures AndSeq(y, data) == data ==> Lands(x + y + z, |x|, data)
  {
    var p := x + y + z;
    assert p[..|x|] == x;
    assert p[|x|..|x| + |data|] == y;
    assert p[|x| + |data|..] == z;
  }
}

/** The record log of a partition, and the key-value map it stands for. */
module FlashLog {
  import opened Basics
  import opened NorFlash

  const HEADER: nat := 8
  const WORD: nat := 4

  const FLAG_UNUSED: Byte := 0xFF
  const FLAG_WRITING: Byte := 0x03
  const FLAG_ACTIVE: Byte := 0x01
  const FLAG_INVALID: Byte := 0x00

  /** The partition words, least significant byte first. */
  const WORD_SYS: seq<Byte> := [0xA8, 0x01, 0xA5, 0xA5]
  const WORD_INVALID: seq<Byte> := [0xA8, 0xFF, 0xAF, 0xAF]
  const WORD_BASE: seq<Byte> := [0xA8, 0x00, 0xA5, 0xA5]

  datatype Header = Header(flag: Byte, align: Byte, index: nat, length: nat, crc: nat)

  datatype Rec = Rec(flag: Byte, index: nat, crc: nat, data: seq<Byte>)

  function Lo(n: nat): Byte { n % 256 }
  function Hi(n: nat): Byte { n / 256 % 256 }
  function LoHi(lo: int, hi: int): nat
    requires lo >= 0 && hi >= 0
  {
    lo + 256 * hi
  }

  function HeaderBytes(h: Header): (b: seq<Byte>)
    ensures |b| == HEADER
  {
    [h.flag] + HeaderRest(h)
  }

  /** All of a header but its flag. */
  function HeaderRest(h: Header): (b: seq<Byte>)
    ensures |b| == HEADER - 1
  {
    [h.align, Lo(h.index), Hi(h.index), Lo(h.length), Hi(h.length), Lo(h.crc), Hi(h.crc)]
  }

  function HeaderOf(b: seq<Byte>): Header
    requires |b| == HEADER
  {
    Header(b[0], b[1], LoHi(b[2], b[3]), LoHi(b[4], b[5]), LoHi(b[6], b[7]))
  }

  lemma HeaderRoundTrip(h: Header)
    requires h.index < 0x1_0000 && h.length < 0x1_0000 && h.crc < 0x1_0000
    ensures HeaderOf(HeaderBytes(h)) == h
  {
    LoHiOf(h.index);
    LoHiOf(h.length);
    LoHiOf(h.crc);
  }

  lemma LoHiOf(n: nat)
    requires n < 0x1_0000
    ensures LoHi(Lo(n), Hi(n)) == n
  {
  }

  function HeaderFor(r: Rec): Header {
    Header(r.flag, 0, r.index, |r.data|, r.crc)
  }

  function Encode(r: Rec): (b: seq<Byte>)
    ensures |b| == HEADER + |r.data|
  {
    HeaderBytes(HeaderFor(r)) + r.data
  }

  function Body(log: seq<Rec>): seq<Byte> {
    if log == [] then [] else Encode(log[0]) + Body(log[1..])
  }

  ghost predicate RecOk(r: Rec) {
    && r.flag in {FLAG_WRITING, FLAG_ACTIVE, FLAG_INVALID}
    && r.index < 0x1_0000 && r.crc < 0x1_0000
    && 0 < |r.data| && |r.data| % 16 == 0
  }

  ghost predicate LogOk(log: seq<Rec>) {
    && (forall i | 0 <= i < |log| :: RecOk(log[i]))
    && WORD + |Body(log)| <= PART_SIZE
  }

  /** A partition: its word, the records, and erased bytes up to the end. */
  function Image(word: seq<Byte>, log: seq<Rec>): (p: seq<Byte>)
    requires |word| == WORD && WORD + |Body(log)| <= PART_SIZE
    ensures |p| == PART_SIZE
  {
    word + Body(log) + Erased(PART_SIZE - WORD - |Body(log)|)
  }

  function End(log: seq<Rec>): nat {
    WORD + |Body(log)|
  }

  lemma {:induction false} BodyConcat(a: seq<Rec>, b: seq<Rec>)
    ensures Body(a + b) == Body(a) + Body(b)
  {
    if a == [] {
      assert a + b == b;
    } else {
      assert (a + b)[1..] == a[1..] + b;
      BodyConcat(a[1..], b);
    }
  }

  lemma BodySnoc(a: seq<Rec>, r: Rec)
    ensures Body(a + [r]) == Body(a) + Encode(r)
  {
    BodyConcat(a, [r]);
    assert [r][1..] == [];
    assert Body([r]) == Encode(r) + [];
  }

  lemma {:induction false} BodyAligned(log: seq<Rec>)
    requires forall i | 0 <= i < |log| :: RecOk(log[i])
    ensures |Body(log)| % 8 == 0
  {
    if log != [] {
      assert RecOk(log[0]);
      BodyAligned(log[1..]);
      SumAligned(|log[0].data|, |Body(log[1..])|);
    }
  }

  lemma SumAligned(m: nat, n: nat)
    requires m % 16 == 0 && n % 8 == 0
    ensures (HEADER + m + n) % 8 == 0
  {
    assert m == 8 * (2 * (m / 16)) && n == 8 * (n / 8);
  }

  /** Records start 4 past a multiple of 8, so a log never ends at the very end of the partition. */
  lemma EndsInside(log: seq<Rec>)
    requires LogOk(log)
    ensures End(log) <= PART_SIZE - 4 && End(log) % 8 == 4
    ensures End(log) + HEADER > PART_SIZE <==> End(log) == PART_SIZE - 4
  {
    BodyAligned(log);
  }

  // ----- Regrouping -----

  lemma Around(w: seq<Byte>, b: seq<Byte>, e: seq<Byte>, c: seq<Byte>, t: seq<Byte>)
    ensures w + (b + (e + c)) + t == (w + b) + e + (c + t)
  {
  }

  lemma Join(w: seq<Byte>, b: seq<Byte>, e: seq<Byte>, c: seq<Byte>, t: seq<Byte>)
    ensures w + (b + (e + c)) + t == ((w + b) + e) + c + t
  {
  }

  /** The first m bytes of a stretch of n from a. */
  lemma FrontOf(s: seq<Byte>, a: nat, n: nat, m: nat)
    requires a + n <= |s| && m <= n
    ensures s[a..a + m] == s[a..a + n][..m]
  {
  }

  lemma Tail(x: seq<Byte>, y: seq<Byte>, z: seq<Byte>)
    ensures x + (y + z) == x + y + z
  {
  }

  // ----- What a byte reader sees -----

  lemma SliceMiddle(x: seq<Byte>, y: seq<Byte>, z: seq<Byte>)
    ensures (x + y + z)[|x|..|x| + |y|] == y
  {
  }

  lemma {:induction false} BodySplit(log: seq<Rec>, i: nat)
    requires i < |log|
    ensures Body(log) == Body(log[..i]) + (Encode(log[i]) + Body(log[i + 1..]))
  {
    assert log == log[..i] + log[i..];
    BodyConcat(log[..i], log[i..]);
    assert log[i..][1..] == log[i + 1..];
  }

  /** What follows the i-th record in a partition. */
  function After(log: seq<Rec>, i: nat): seq<Byte>
    requires i < |log| && End(log) <= PART_SIZE
  {
    Body(log[i + 1..]) + Erased(PART_SIZE - End(log))
  }

  /** Split an image around its i-th record. */
  lemma ImageAt(word: seq<Byte>, log: seq<Rec>, i: nat)
    requires |word| == WORD && LogOk(log) && i < |log|
    ensures End(log[..i + 1]) == End(log[..i]) + HEADER + |log[i].data| <= PART_SIZE
    ensures Image(word, log) == (word + Body(log[..i])) + Encode(log[i]) + After(log, i)
  {
    BodySplit(log, i);
    Around(word, Body(log[..i]), Encode(log[i]), Body(log[i + 1..]), Erased(PART_SIZE - End(log)));
    BodySnoc(log[..i], log[i]);
    assert log[..i + 1] == log[..i] + [log[i]];
  }

  lemma ReadsRecord(x: seq<Byte>, h: seq<Byte>, d: seq<Byte>, z: seq<Byte>)
    ensures var p := x + (h + d) + z;
      && p[|x|..|x| + |h|] == h
      && p[|x| + |h|..|x| + |h| + |d|] == d
  {
    assert x + (h + d) + z == x + h + (d + z);
    SliceMiddle(x, h, d + z);
    assert x + (h + d) + z == (x + h) + d + z;
    SliceMiddle(x + h, d, z);
  }

  lemma ReadsHeader(word: seq<Byte>, log: seq<Rec>, i: nat)
    requires |word| == WORD && LogOk(log) && i < |log|
    ensures var off := End(log[..i]);
      && off + HEADER + |log[i].data| <= PART_SIZE
      && HeaderOf(Image(word, log)[off..off + HEADER]) == HeaderFor(log[i])
      && Image(word, log)[off + HEADER..off + HEADER + |log[i].data|] == log[i].data
  {
    ImageAt(word, log, i);
    var x := word + Body(log[..i]);
    var h := HeaderBytes(HeaderFor(log[i]));
    ReadsRecord(x, h, log[i].data, After(log, i));
    assert RecOk(log[i]);
    assert |log[i].data| < 0x1_0000;
    HeaderRoundTrip(HeaderFor(log[i]));
  }

  lemma ReadsEnd(word: seq<Byte>, log: seq<Rec>)
    requires |word| == WORD && LogOk(log) && End(log) + HEADER <= PART_SIZE
    ensures HeaderOf(Image(word, log)[End(log)..End(log) + HEADER]).flag == FLAG_UNUSED
  {
    assert Image(word, log)[End(log)] == 255;
  }

  /** The records a walk from an offset finds, read byte by byte. */
  function Walk(p: seq<Byte>, off: nat): seq<Rec>
    requires |p| == PART_SIZE
    decreases PART_SIZE - off
  {
    if off + HEADER > PART_SIZE then []
    else
      var h := HeaderOf(p[off..off + HEADER]);
      if h.flag == FLAG_UNUSED then []
      else
        var next := off + HEADER + h.length + h.align;
        var data := if off + HEADER + h.length <= PART_SIZE then p[off + HEADER..off + HEADER + h.length] else [];
        [Rec(h.flag, h.index, h.crc, data)] + (if next <= PART_SIZE then Walk(p, next) else [])
  }

  function Records(p: seq<Byte>): seq<Rec>
    requires |p| == PART_SIZE
  {
    Walk(p, WORD)
  }

  lemma WalkStep(p: seq<Byte>, off: nat, r: Rec)
    requires |p| == PART_SIZE && RecOk(r) && off + HEADER + |r.data| <= PART_SIZE
    requires HeaderOf(p[off..off + HEADER]) == HeaderFor(r)
    requires p[off + HEADER..off + HEADER + |r.data|] == r.data
    ensures Walk(p, off) == [r] + Walk(p, off + HEADER + |r.data|)
  {
    var h, next := HeaderOf(p[off..off + HEADER]), off + HEADER + |r.data|;
    assert h.flag == r.flag != FLAG_UNUSED && h.length == |r.data| && h.align == 0;
    assert Rec(h.flag, h.index, h.crc, r.data) == r;
  }

  lemma {:induction false} WalkImage(word: seq<Byte>, log: seq<Rec>, i: nat)
    requires |word| == WORD && LogOk(log) && i <= |log|
    ensures End(log[..i]) <= PART_SIZE
    ensures Walk(Image(word, log), End(log[..i])) == log[i..]
    decreases |log| - i
  {
    if i == |log| {
      assert log[..i] == log;
      if End(log) + HEADER <= PART_SIZE {
        ReadsEnd(word, log);
      }
    } else {
      ImageAt(word, log, i);
      ReadsHeader(word, log, i);
      WalkStep(Image(word, log), End(log[..i]), log[i]);
      WalkImage(word, log, i + 1);
      assert log[i..] == [log[i]] + log[i + 1..];
    }
  }

  /** Reading back what was laid out gives the records. */
  lemma RecordsOfImage(word: seq<Byte>, log: seq<Rec>)
    requires |word| == WORD && LogOk(log)
    ensures Records(Image(word, log)) == log
  {
    WalkImage(word, log, 0);
    assert log[..0] == [] && log[0..] == log;
  }

  // ----- Writes -----

  /** A header in the erased tail starts a record whose data is still erased. */
  lemma AppendHeader(word: seq<Byte>, log: seq<Rec>, r: Rec)
    requires |word| == WORD && LogOk(log) && RecOk(r) && End(log) + HEADER + |r.data| <= PART_SIZE
    requires r.data == Erased(|r.data|)
    ensures LogOk(log + [r])
    ensures Programmed(Image(word, log), End(log), HeaderBytes(HeaderFor(r))) == Image(word, log + [r])
    ensures Lands(Image(word, log), End(log), HeaderBytes(HeaderFor(r)))
  {
    BodySnoc(log, r);
    forall i | 0 <= i <= |log| ensures RecOk((log + [r])[i]) {}
    var x, h, n := word + Body(log), HeaderBytes(HeaderFor(r)), PART_SIZE - End(log);
    ErasedSplit(n, HEADER);
    ErasedSplit(n - HEADER, |r.data|);
    AndSeqErased(h);
    Tail(x, Erased(HEADER), Erased(n - HEADER));
    ProgrammedAt(x, Erased(HEADER), Erased(n - HEADER), h);
    Around(word, Body(log), h, r.data, Erased(PART_SIZE - End(log + [r])));
  }

  /** Data goes into the erased bytes of the last record. */
  lemma FillData(word: seq<Byte>, log: seq<Rec>, r: Rec, data: seq<Byte>)
    requires |word| == WORD && LogOk(log + [r])
    requires r.data == Erased(|r.data|) && |data| == |r.data|
    ensures LogOk(log + [r.(data := data)])
    ensures End(log) + HEADER + |data| <= PART_SIZE
    ensures Programmed(Image(word, log + [r]), End(log) + HEADER, data) == Image(word, log + [r.(data := data)])
    ensures Lands(Image(word, log + [r]), End(log) + HEADER, data)
  {
    BodySnoc(log, r);
    BodySnoc(log, r.(data := data));
    RefilledOk(log, r, data);
    var h, z := HeaderBytes(HeaderFor(r)), Erased(PART_SIZE - End(log + [r]));
    var x := word + Body(log) + h;
    AndSeqErased(data);
    Join(word, Body(log), h, r.data, z);
    ProgrammedAt(x, r.data, z, data);
    Join(word, Body(log), h, data, z);
  }

  lemma RefilledOk(log: seq<Rec>, r: Rec, data: seq<Byte>)
    requires LogOk(log + [r]) && |data| == |r.data|
    ensures LogOk(log + [r.(data := data)]) && LogOk(log)
  {
    BodySnoc(log, r);
    BodySnoc(log, r.(data := data));
    assert RecOk((log + [r])[|log|]);
    forall i | 0 <= i < |log| ensures RecOk(log[i]) {
      assert (log + [r])[i] == log[i];
    }
  }

  /** Clearing bits in a flag changes that record's flag and nothing else. */
  lemma SetFlag(word: seq<Byte>, log: seq<Rec>, i: nat, flag: Byte)
    requires |word| == WORD && LogOk(log) && i < |log| && flag in {FLAG_ACTIVE, FLAG_INVALID}
    requires And8(log[i].flag, flag) == flag
    ensures LogOk(log[i := log[i].(flag := flag)]) && End(log[i := log[i].(flag := flag)]) == End(log)
    ensures End(log[..i]) < PART_SIZE
    ensures Programmed(Image(word, log), End(log[..i]), [flag]) == Image(word, log[i := log[i].(flag := flag)])
    ensures Lands(Image(word, log), End(log[..i]), [flag])
  {
    var r, f := log[i], log[i].(flag := flag);
    var new_ := log[i := f];
    assert RecOk(log[i]);
    BodySplit(log, i);
    BodySplit(new_, i);
    assert new_[..i] == log[..i] && new_[i + 1..] == log[i + 1..];
    ImageAt(word, log, i);
    forall k | 0 <= k < |new_| ensures RecOk(new_[k]) {
      assert RecOk(log[k]);
    }
    ImageAt(word, new_, i);
    FlipFirst(word + Body(log[..i]), r.flag, flag, HeaderRest(HeaderFor(r)), r.data, After(log, i));
  }

  lemma FlipFirst(x: seq<Byte>, was: Byte, flag: Byte, rest: seq<Byte>, d: seq<Byte>, z: seq<Byte>)
    requires And8(was, flag) == flag
    ensures Programmed(x + (([was] + rest) + d) + z, |x|, [flag]) == x + (([flag] + rest) + d) + z
    ensures Lands(x + (([was] + rest) + d) + z, |x|, [flag])
  {
    assert x + (([was] + rest) + d) + z == x + [was] + (rest + d + z);
    assert x + (([flag] + rest) + d) + z == x + [flag] + (rest + d + z);
    ProgrammedAt(x, [was], rest + d + z, [flag]);
    assert AndSeq([was], [flag]) == [flag];
  }

  /** Writing a partition word over another. */
  lemma SetWord(word: seq<Byte>, log: seq<Rec>, next: seq<Byte>)
    requires |word| == WORD && |next| == WORD && LogOk(log)
    requires AndSeq(word, next) == next
    ensures Programmed(Image(word, log), 0, next) == Image(next, log)
    ensures Lands(Image(word, log), 0, next)
  {
    var z := Body(log) + Erased(PART_SIZE - End(log));
    assert Image(word, log) == [] + word + z;
    ProgrammedAt([], word, z, next);
    assert Image(next, log) == [] + next + z;
  }

  /** An erased partition takes any word. */
  lemma FreshWord(next: seq<Byte>)
    requires |next| == WORD
    ensures Programmed(Erased(PART_SIZE), 0, next) == Image(next, [])
    ensures Lands(Erased(PART_SIZE), 0, next)
  {
    ErasedSplit(PART_SIZE, WORD);
    assert Erased(PART_SIZE) == [] + Erased(WORD) + Erased(PART_SIZE - WORD);
    ProgrammedAt([], Erased(WORD), Erased(PART_SIZE - WORD), next);
    AndSeqErased(next);
  }

  lemma AndOne(a: nat, n: nat)
    requires a % 2 == 1 && n > 0
    ensures AndBits(a, 1, n) == 1
  {
    AndZero(a / 2, n - 1);
  }

  /** The bit-clearing life of a record. */
  lemma FlagTransitions()
    ensures And8(FLAG_WRITING, FLAG_ACTIVE) == FLAG_ACTIVE
    ensures And8(FLAG_ACTIVE, FLAG_INVALID) == FLAG_INVALID
  {
    AndOne(3, 8);
    AndZero(1, 8);
  }

  lemma InvalidToSysByte()
    ensures And8(0xAF, 0xA5) == 0xA5
  {
    assert AndBits(1, 1, 1) == 1;
    assert AndBits(2, 2, 2) == 2;
    assert AndBits(5, 5, 3) == 5;
    assert AndBits(10, 10, 4) == 10;
    assert AndBits(21, 20, 5) == 20;
    assert AndBits(43, 41, 6) == 41;
    assert AndBits(87, 82, 7) == 82;
  }

  lemma SameByte(b: Byte)
    ensures And8(b, b) == b
  {
    assert Pow2(4) == 16;
    AndSame(b, 8, 256);
  }

  /** The bit-clearing life of the recycle partition's word. */
  lemma WordTransitions()
    ensures AndSeq(WORD_INVALID, WORD_SYS) == WORD_SYS
    ensures AndSeq(WORD_SYS, WORD_BASE) == WORD_BASE
  {
    InvalidToSysByte();
    SameByte(0xA8);
    SameByte(0xA5);
    AndErased(0x01);
    AndZero(0x01, 8);
    assert AndSeq(WORD_INVALID, WORD_SYS) == WORD_SYS;
    assert AndSeq(WORD_SYS, WORD_BASE) == WORD_BASE;
  }
}
