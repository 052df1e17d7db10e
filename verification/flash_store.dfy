/**
 The reliable store (genie_flash.c): records in the system partition, compaction through
 the recycle partition, and boot recovery. Every flash operation is one step of the
 history; power may fail after any of them.
 */
module FlashStore {
  import opened Basics
  import opened NorFlash
  import opened FlashLog
  import opened FlashMap

  datatype Pno = System | Recycle

  datatype Flash = Flash(sys: seq<Byte>, rec: seq<Byte>)

  datatype Code = Success | SearchNone | ReadFail | WriteFail | CrcFail | DataInvalid

  type Crc = x: nat | x < 0x1_0000

  const RELIABLE: nat := PART_SIZE - WORD

  const NO_HEADER := Header(0, 0, 0, 0, 0)

  function Part(f: Flash, pno: Pno): seq<Byte> {
    if pno == System then f.sys else f.rec
  }

  function WithPart(f: Flash, pno: Pno, p: seq<Byte>): Flash {
    if pno == System then f.(sys := p) else f.(rec := p)
  }

  predicate Sized(f: Flash) {
    |f.sys| == PART_SIZE && |f.rec| == PART_SIZE
  }

  function WordOf(p: seq<Byte>): seq<Byte>
    requires |p| == PART_SIZE
  {
    p[..WORD]
  }

  lemma ImageWord(word: seq<Byte>, log: seq<Rec>)
    requires |word| == WORD && End(log) <= PART_SIZE
    ensures WordOf(Image(word, log)) == word
  {
  }

  // ----- What a flash stands for -----

  /** A complete store: the system word, whole records, erased bytes. */
  ghost predicate IsStore(p: seq<Byte>) {
    |p| == PART_SIZE && LogOk(Records(p)) && p == Image(WORD_SYS, Records(p))
  }

  /** The map boot recovery will make readable: the recycle partition wins when its word says it is complete. */
  function StoreMap(f: Flash): map<nat, Entry>
    requires Sized(f)
  {
    if WordOf(f.rec) == WORD_SYS then Live(Records(f.rec)) - {0}
    else if WordOf(f.sys) == WORD_SYS then Live(Records(f.sys)) - {0}
    else map[]
  }

  /** Whatever boot will read is complete. */
  ghost predicate Recoverable(f: Flash) {
    && Sized(f)
    && (if WordOf(f.rec) == WORD_SYS then IsStore(f.rec) else WordOf(f.sys) == WORD_SYS ==> IsStore(f.sys))
  }

  /** A state between two steps shows one map or the other, and can be recovered. */
  ghost predicate Shows(f: Flash, a: map<nat, Entry>, b: map<nat, Entry>) {
    Recoverable(f) && (StoreMap(f) == a || StoreMap(f) == b)
  }

  /** Every state since the first n shows a or b. */
  ghost predicate AllShow(h: seq<Flash>, n: nat, a: map<nat, Entry>, b: map<nat, Entry>) {
    forall i | n <= i < |h| :: Shows(h[i], a, b)
  }

  lemma SysShows(f: Flash, log: seq<Rec>)
    requires LogOk(log) && f.sys == Image(WORD_SYS, log) && |f.rec| == PART_SIZE && WordOf(f.rec) != WORD_SYS
    ensures Recoverable(f) && IsStore(f.sys) && Records(f.sys) == log && StoreMap(f) == Live(log) - {0}
  {
    RecordsOfImage(WORD_SYS, log);
    ImageWord(WORD_SYS, log);
  }

  lemma RecShows(f: Flash, log: seq<Rec>)
    requires LogOk(log) && f.rec == Image(WORD_SYS, log) && |f.sys| == PART_SIZE
    ensures Recoverable(f) && StoreMap(f) == Live(log) - {0}
  {
    RecordsOfImage(WORD_SYS, log);
    ImageWord(WORD_SYS, log);
  }

  lemma NothingShows(f: Flash)
    requires Sized(f) && WordOf(f.rec) != WORD_SYS && WordOf(f.sys) != WORD_SYS
    ensures Recoverable(f) && StoreMap(f) == map[]
  {
  }

  // ----- Walking the headers -----

  function HeaderCode(p: seq<Byte>, off: nat): Code
    requires |p| == PART_SIZE
  {
    if off >= PART_SIZE then SearchNone
    else if off + HEADER > PART_SIZE then ReadFail
    else if HeaderOf(p[off..off + HEADER]).flag != FLAG_UNUSED then Success
    else SearchNone
  }

  /** A failed read leaves the previous header in the cell. */
  function HeaderSeen(p: seq<Byte>, off: nat, stale: Header): Header
    requires |p| == PART_SIZE
  {
    if off + HEADER <= PART_SIZE then HeaderOf(p[off..off + HEADER]) else stale
  }

  /** How a walk over a log ends. */
  function EndCode(log: seq<Rec>): Code {
    if End(log) + HEADER > PART_SIZE then ReadFail else SearchNone
  }

  lemma HeaderAt(word: seq<Byte>, log: seq<Rec>, i: nat, stale: Header)
    requires |word| == WORD && LogOk(log) && i < |log|
    ensures var p, off := Image(word, log), End(log[..i]);
      && HeaderCode(p, off) == Success && HeaderSeen(p, off, stale) == HeaderFor(log[i])
      && End(log[..i + 1]) == off + HEADER + |log[i].data| <= PART_SIZE
  {
    ReadsHeader(word, log, i);
    ImageAt(word, log, i);
    assert RecOk(log[i]);
  }

  lemma HeaderEnd(word: seq<Byte>, log: seq<Rec>, stale: Header)
    requires |word| == WORD && LogOk(log)
    ensures var p, off := Image(word, log), End(log);
      && HeaderCode(p, off) == EndCode(log)
      && (HeaderSeen(p, off, stale) == stale || HeaderSeen(p, off, stale).flag == FLAG_UNUSED)
  {
    EndsInside(log);
    if End(log) + HEADER <= PART_SIZE {
      ReadsEnd(word, log);
    }
  }

  // ----- Encryption and padding -----

  type Block = s: seq<Byte> | |s| == 16 witness seq(16, i => 0)

  function Blockwise(f: Block -> Block, s: seq<Byte>): (r: seq<Byte>)
    requires |s| % 16 == 0
    ensures |r| == |s|
  {
    if s == [] then [] else f(s[..16]) + Blockwise(f, s[16..])
  }

  /** Decryption undoes encryption, block by block. */
  lemma {:induction false} BlockwiseUndone(enc: Block -> Block, dec: Block -> Block, s: seq<Byte>)
    requires |s| % 16 == 0
    requires forall b: Block :: dec(enc(b)) == b
    ensures Blockwise(dec, Blockwise(enc, s)) == s
  {
    if s != [] {
      var head: Block, rest := s[..16], Blockwise(enc, s[16..]);
      BlockwiseUndone(enc, dec, s[16..]);
      assert (enc(head) + rest)[..16] == enc(head) && (enc(head) + rest)[16..] == rest;
      assert s == head + s[16..];
    }
  }

  lemma {:induction false} BlockwiseConcat(f: Block -> Block, a: seq<Byte>, b: seq<Byte>)
    requires |a| % 16 == 0 && |b| % 16 == 0
    ensures Blockwise(f, a + b) == Blockwise(f, a) + Blockwise(f, b)
  {
    if a == [] {
      assert a + b == b;
    } else {
      BlockSum(|a|, |b|);
      assert (a + b)[..16] == a[..16] && (a + b)[16..] == a[16..] + b;
      BlockwiseConcat(f, a[16..], b);
    }
  }

  lemma BlockSum(m: nat, n: nat)
    requires m % 16 == 0 && n % 16 == 0
    ensures (m + n) % 16 == 0 && (m > 0 ==> m >= 16 && (m - 16) % 16 == 0)
  {
    assert m == 16 * (m / 16) && n == 16 * (n / 16);
  }

  /** The next multiple of 16. */
  function ReliableSize(n: nat): (r: nat)
    ensures r % 16 == 0 && n <= r < n + 16
  {
    if n % 16 == 0 then n else (n / 16 + 1) * 16
  }

  /** _genie_flash_get_reliable_size, in 16 bits. */
  function BufferSize(n: nat): nat {
    ReliableSize(n) % 0x1_0000
  }

  /** Sizes a buffer can be had for. */
  predicate Bufferable(n: nat) {
    0 < n <= 0xFFF0
  }

  /** The rounded size wraps around to nothing for more than 0xFFF0 bytes. */
  lemma ReliableSizeExact(n: nat)
    requires n < 0x1_0000
    ensures BufferSize(n) == (if n <= 0xFFF0 then ReliableSize(n) else 0)
    ensures BufferSize(n) != 0 <==> Bufferable(n)
  {
    if n > 0xFFF0 {
      assert n / 16 == 0xFFF;
    }
  }

  function Padded(data: seq<Byte>): (r: seq<Byte>)
    ensures |r| == ReliableSize(|data|)
  {
    data + seq(ReliableSize(|data|) - |data|, i => 0)
  }
}
