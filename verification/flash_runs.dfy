/** Runs of the store: sessions, calls that power failures cut short, and the inputs at which read-your-write fails. */
module FlashRuns {
  import opened Basics
  import opened NorFlash
  import opened FlashLog
  import opened FlashMap
  import opened FlashStore
  import opened GenieFlash

  // ----- Sessions without failures -----

  datatype Op = WriteOp(k: nat, data: seq<Byte>) | DeleteOp(k: nat)

  predicate Askable(op: Op) {
    0 < op.k < 0x1_0000 && (op.WriteOp? ==> |op.data| < 0x1_0000)
  }

  /** A client's map after one call that ended with a code. */
  function Applied(m: map<nat, seq<Byte>>, op: Op, ret: Code): map<nat, seq<Byte>> {
    if op.DeleteOp? then m - {op.k} else if ret == Success then m[op.k := op.data] else m
  }

  function Replay(m: map<nat, seq<Byte>>, ops: seq<Op>, codes: seq<Code>): map<nat, seq<Byte>>
    requires |codes| == |ops|
  {
    if ops == [] then m
    else Applied(Replay(m, ops[..|ops| - 1], codes[..|codes| - 1]), ops[|ops| - 1], codes[|codes| - 1])
  }

  method Ask(s: Store, op: Op, ghost m: map<nat, seq<Byte>>) returns (ret: Code)
    requires s.Holds(m) && Askable(op)
    modifies s
    ensures s.Holds(Applied(m, op, ret))
  {
    assert CountActive(s.Log(), op.k) <= 1;
    if op.WriteOp? {
      ret := s.WriteReliable(op.k, op.data, m);
    } else {
      ret := s.DeleteReliable(op.k, m);
    }
  }

  /** Over any run of writes and deletes the store holds exactly what the successful ones left, and no index twice. */
  method Session(s: Store, ops: seq<Op>, ghost m0: map<nat, seq<Byte>>) returns (codes: seq<Code>)
    requires s.Holds(m0) && forall i | 0 <= i < |ops| :: Askable(ops[i])
    modifies s
    ensures |codes| == |ops| && s.Holds(Replay(m0, ops, codes))
  {
    codes := [];
    for i := 0 to |ops|
      invariant |codes| == i && s.Holds(Replay(m0, ops[..i], codes))
    {
      ghost var m := Replay(m0, ops[..i], codes);
      var ret := Ask(s, ops[i], m);
      assert ops[..i + 1][..i] == ops[..i] && (codes + [ret])[..i] == codes;
      codes := codes + [ret];
    }
    assert ops[..|ops|] == ops;
  }

  // ----- Calls cut short by power failures -----

  /** A write, each of whose steps shows the old map or the new. */
  method WriteShown(s: Store, k: nat, data: seq<Byte>, ghost m: map<nat, seq<Byte>>, ghost a: map<nat, Entry>,
                    ghost b: map<nat, Entry>)
    requires s.Readable(m) && 0 < k < 0x1_0000 && |data| < 0x1_0000 && OneOrCompacted(s.Log(), k, ReliableSize(|data|))
    requires a == StoredMap(m, s.crcOf, s.enc) && b == StoredMap(m[k := data], s.crcOf, s.enc)
    modifies s
    ensures old(s.history) <= s.history && AllShow(s.history, |old(s.history)|, a, b) && Shows(s.flash, a, b)
  {
    ReadableMap(s, m);
    PutKeeps(a, k, Stored(s.crcOf, s.enc, data));
    assert a[k := Stored(s.crcOf, s.enc, data)] == b;
    var ret := s.WriteReliable(k, data, m);
    ReadableMap(s, if ret == Success then m[k := data] else m);
  }

  /** A write cut off after any of its steps, recovery itself cut off any number of times: the old data or the new. */
  method WriteCut(s: Store, k: nat, data: seq<Byte>, cut: nat, cuts: seq<nat>, ghost m: map<nat, seq<Byte>>)
    requires s.Readable(m) && 0 < k < 0x1_0000 && |data| < 0x1_0000
    requires OneOrCompacted(s.Log(), k, ReliableSize(|data|))
    modifies s
    ensures s.Readable(m) || s.Readable(m[k := data])
  {
    var n := |s.history|;
    ghost var a, b := StoredMap(m, s.crcOf, s.enc), StoredMap(m[k := data], s.crcOf, s.enc);
    WriteShown(s, k, data, m, a, b);
    s.CutWithin(n, cut, a, b);
    s.BootAtLast(cuts);
    MapReadable(s, if StoreMap(s.flash) == a then m else m[k := data]);
  }

  method DeleteShown(s: Store, k: nat, ghost m: map<nat, seq<Byte>>, ghost a: map<nat, Entry>, ghost b: map<nat, Entry>)
    requires s.Readable(m) && CountActive(s.Log(), k) <= 1
    requires a == StoredMap(m, s.crcOf, s.enc) && b == StoredMap(m - {k}, s.crcOf, s.enc)
    modifies s
    ensures old(s.history) <= s.history && AllShow(s.history, |old(s.history)|, a, b) && Shows(s.flash, a, b)
  {
    ReadableMap(s, m);
    assert a - {k} == b;
    var ret := s.DeleteReliable(k, m);
    ReadableMap(s, m - {k});
  }

  /** The same for a delete. */
  method DeleteCut(s: Store, k: nat, cut: nat, cuts: seq<nat>, ghost m: map<nat, seq<Byte>>)
    requires s.Readable(m) && CountActive(s.Log(), k) <= 1
    modifies s
    ensures s.Readable(m) || s.Readable(m - {k})
  {
    var n := |s.history|;
    ghost var a, b := StoredMap(m, s.crcOf, s.enc), StoredMap(m - {k}, s.crcOf, s.enc);
    DeleteShown(s, k, m, a, b);
    s.CutWithin(n, cut, a, b);
    s.BootAtLast(cuts);
    MapReadable(s, if StoreMap(s.flash) == a then m else m - {k});
  }

  /** After a write cut off anywhere, every key reads as before or, for the written key, as the new data. */
  method ReadAfterCut(s: Store, k: nat, data: seq<Byte>, cut: nat, cuts: seq<nat>, j: nat, size: nat, ghost m: map<nat,
                      seq<Byte>>)
    returns (ret: Code, read: seq<Byte>)
    requires s.Readable(m) && s.KeyOk() && 0 < k < 0x1_0000 && |data| < 0x1_0000 && size < 0x1_0000
    requires OneOrCompacted(s.Log(), k, ReliableSize(|data|))
    modifies s
    ensures !Bufferable(size) ==> ret == DataInvalid
    ensures Bufferable(size) && j in m && j != k && |m[j]| == size ==> ret == Success && read == m[j]
    ensures Bufferable(size) && k in m && |m[k]| == |data| == size && j == k ==>
      ret == Success && (read == m[k] || read == data)
  {
    WriteCut(s, k, data, cut, cuts, m);
    ret, read := s.ReadReliable(j, size, if s.Readable(m) then m else m[k := data]);
  }

  /** What a readable store's flash stands for. */
  lemma ReadableMap(s: Store, m: map<nat, seq<Byte>>)
    requires s.Readable(m)
    ensures StoreMap(s.flash) == StoredMap(m, s.crcOf, s.enc) && Recoverable(s.flash) && 0 !in StoreMap(s.flash)
  {
    SysShows(s.flash, s.Log());
  }

  lemma MapReadable(s: Store, m: map<nat, seq<Byte>>)
    requires s.Valid() && StoreMap(s.flash) == Live(s.Log()) - {0} == StoredMap(m, s.crcOf, s.enc) && 0 !in m
    ensures s.Readable(m)
  {
  }

  // ----- Where read-your-write fails -----

  /** A write cut off between its last two steps: both records are active after the boot. */
  method WriteLeavesTwo(s: Store, k: nat, buf: seq<Byte>)
    requires s.Valid() && 0 < k < 0x1_0000 && CountActive(s.Log(), k) == 1 && HEADER + |buf| <= s.remain
    requires 0 < |buf| < 0x1_0000 && |buf| % 16 == 0 && End(s.Log()) + HEADER + |buf| <= PART_SIZE
    modifies s
    ensures s.Valid() && s.Log() == old(s.Log()) + [NewRec(k, s.crcOf(buf), buf)]
    ensures s.remain + ActiveBytes(s.Log()) == RELIABLE
  {
    ghost var log, r, was := s.Log(), NewRec(k, s.crcOf(buf), buf), s.flash;
    WriteOver(s, k, buf, log, r, was);
    CutAndBoot(s, was, log, r);
  }

  /** Power fails before the last step, and a boot finds both records. */
  method CutAndBoot(s: Store, ghost was: Flash, ghost log: seq<Rec>, ghost r: Rec)
    requires BothActive(s.history, was, log, r) && |was.rec| == PART_SIZE && WordOf(was.rec) != WORD_SYS
    modifies s
    ensures s.Valid() && s.Log() == log + [r] && s.remain + ActiveBytes(s.Log()) == RELIABLE
  {
    TwoBoot(s.history[|s.history| - 2], was, log, r);
    s.CutPower(|s.history| - 2);
    s.Init();
  }

  /** The step with both records active boots as it is. */
  lemma TwoBoot(f: Flash, was: Flash, log: seq<Rec>, r: Rec)
    requires LogOk(log + [r]) && f == was.(sys := Image(WORD_SYS, log + [r]))
    requires |was.rec| == PART_SIZE && WordOf(was.rec) != WORD_SYS
    ensures Recoverable(f) && WordOf(f.rec) != WORD_SYS && WordOf(f.sys) == WORD_SYS && Records(f.sys) == log + [r]
  {
    SysShows(f, log + [r]);
    ImageWord(WORD_SYS, log + [r]);
  }

  /** An appending write over an active record. */
  method WriteOver(s: Store, k: nat, buf: seq<Byte>, ghost log: seq<Rec>, ghost r: Rec, ghost was: Flash)
    requires s.Valid() && log == s.Log() && was == s.flash && r == NewRec(k, s.crcOf(buf), buf)
    requires 0 < k < 0x1_0000 && CountActive(log, k) == 1 && HEADER + |buf| <= s.remain
    requires 0 < |buf| < 0x1_0000 && |buf| % 16 == 0 && End(log) + HEADER + |buf| <= PART_SIZE
    modifies s
    ensures BothActive(s.history, was, log, r) && |was.rec| == PART_SIZE && WordOf(was.rec) != WORD_SYS
  {
    LiveFirst(log, k);
    var ret := s.Write(k, buf);
  }

  /** A write after a power failure that left a duplicate: what is read is the data before. */
  method SecondWriteLost(s: Store, k: nat, b1: seq<Byte>, b2: seq<Byte>) returns (ret: Code, read: seq<Byte>)
    requires s.Valid() && 0 < k < 0x1_0000 && CountActive(s.Log(), k) == 1 && HEADER + |b1| <= s.remain
    requires 0 < |b1| < 0x1_0000 && |b1| % 16 == 0 && 0 < |b2| < 0x1_0000 && |b2| % 16 == 0
    requires End(s.Log()) + HEADER + |b1| + HEADER + |b2| <= PART_SIZE
    modifies s
    ensures ret == Success && read == b1
  {
    ghost var log := s.Log();
    ghost var a, r := NewRec(k, s.crcOf(b1), b1), NewRec(k, s.crcOf(b2), b2);
    WriteLeavesTwo(s, k, b1);
    BodySnoc(log, a);
    ActiveInside(log + [a]);
    ret := s.Write(k, b2);
    SecondCopySurfaces(log, a, r);
    assert b1[..|b1|] == b1;
    ret, read := s.Read(k, 0);
  }

  lemma ActiveInside(log: seq<Rec>)
    ensures WORD + ActiveBytes(log) <= End(log)
  {
    CompactedSize(log, 0);
  }

  /** n bytes of one value. */
  function Filled(b: Byte, n: nat): (s: seq<Byte>)
    ensures |s| == n
  {
    seq(n, i => b)
  }

  /** A first boot on erased flash. */
  method Blank(crcOf: seq<Byte> -> Crc, enc: Block -> Block, dec: Block -> Block) returns (s: Store)
    ensures fresh(s) && s.Valid() && s.Log() == [] && s.remain == RELIABLE && s.crcOf == crcOf
  {
    s := new Store(crcOf, enc, dec);
    assert WordOf(Erased(PART_SIZE))[0] == 255;
    s.Init();
  }

  /**
   Three writes to index 1, power failing between the last two steps of the second: the second is
   read, not the third.
   */
  method DuplicateWins(crcOf: seq<Byte> -> Crc, enc: Block -> Block, dec: Block -> Block)
    returns (ret: Code, last: seq<Byte>, read: seq<Byte>)
    ensures ret == Success && last == Filled(2, 16) && read == Filled(1, 16) && read != last
  {
    var s := Blank(crcOf, enc, dec);
    ghost var r := NewRec(1, s.crcOf(Filled(0, 16)), Filled(0, 16));
    ret := s.Write(1, Filled(0, 16));
    OneRecord(r);
    last := Filled(2, 16);
    ret, read := SecondWriteLost(s, 1, Filled(1, 16), last);
    assert read[0] == 1 && last[0] == 2;
  }

  /** A write to index 0 that succeeds, compacts, and is lost. */
  method IndexZeroLost(crcOf: seq<Byte> -> Crc, enc: Block -> Block, dec: Block -> Block)
    returns (ret: Code, found: Code)
    ensures ret == Success && found != Success
  {
    var s := Blank(crcOf, enc, dec);
    ghost var a := NewRec(1, s.crcOf(Filled(0, 2032)), Filled(0, 2032));
    ghost var b := NewRec(1, s.crcOf(Filled(1, 2032)), Filled(1, 2032));
    ghost var z := NewRec(0, s.crcOf(Filled(2, 16)), Filled(2, 16));
    ret := s.Write(1, Filled(0, 2032));
    OneRecord(a);
    ret := s.Write(1, Filled(1, 2032));
    SecondRecord(a, b);
    ret := s.Write(0, Filled(2, 16));
    IndexZeroNotKept(AfterWrite([a], b), z);
    var read;
    found, read := s.Read(0, 0);
  }

  lemma OneRecord(r: Rec)
    requires r.flag == FLAG_ACTIVE && 0 < |r.data| < 4000
    ensures AfterWrite([], r) == [r] && CountActive([r], r.index) == 1 && FirstAt([r], r.index) == 0
    ensures End([r]) == WORD + RecSize(r) && ActiveBytes([r]) == RecSize(r) && End([]) == WORD
  {
    BodySnoc([], r);
    assert [] + [r] == [r] && [r][1..] == [];
    LiveFirst([r], r.index);
  }

  /** The first record retired and the second active. */
  lemma SecondRecord(a: Rec, b: Rec)
    requires a.flag == b.flag == FLAG_ACTIVE && a.index == b.index == 1 && |a.data| == |b.data| == 2032
    ensures var l := AfterWrite([a], b);
      && l == [a.(flag := FLAG_INVALID), b] && End(l) == WORD + 2 * 2040
      && ActiveBytes(l) == 2040 && CountActive(l, 0) == 0
  {
    OneRecord(a);
    var x := a.(flag := FLAG_INVALID);
    assert AfterWrite([a], b) == [x] + [b];
    BodySnoc([], x);
    BodySnoc([x], b);
    assert [] + [x] == [x] && [x, b][1..] == [b] && [b][1..] == [];
    assert CountActive([b], 0) == 0;
  }
}
