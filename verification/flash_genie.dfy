/** The store's code: the flash, the two cached figures, and the functions that move them. */
module GenieFlash {
  import opened Basics
  import opened NorFlash
  import opened FlashLog
  import opened FlashMap
  import opened FlashStore

  // ----- Compaction, as maps -----

  function NewRec(k: nat, crc: Crc, buf: seq<Byte>): Rec {
    Rec(FLAG_ACTIVE, k, crc, buf)
  }

  /** What a copy leaves in its destination: the new record, if any, then every other active record. */
  function Compacted(log: seq<Rec>, k: nat, added: seq<Rec>): seq<Rec> {
    added + ActivesBut(log, k)
  }

  /** The map after writing e at k; index 0 is not carried through recovery. */
  function Put(m: map<nat, Entry>, k: nat, e: Entry): map<nat, Entry> {
    m[k := e] - {0}
  }

  ghost predicate DupFree(log: seq<Rec>) {
    forall j: nat :: CountActive(log, j) <= 1
  }

  lemma CompactedShows(log: seq<Rec>, r: Rec)
    requires r.flag == FLAG_ACTIVE
    ensures Live(Compacted(log, r.index, [r])) - {0} == Put(Live(log) - {0}, r.index, EntryOf(r))
  {
    LiveConcat([r], ActivesBut(log, r.index));
    CompactedMap(log, r.index);
    assert [r][1..] == [];
    assert Live([r]) == map[r.index := EntryOf(r)];
  }

  lemma CompactedFits(log: seq<Rec>, r: Rec, remain: nat)
    requires LogOk(log) && RecOk(r) && remain + ActiveBytes(log) <= RELIABLE && RecSize(r) <= remain
    ensures LogOk(Compacted(log, r.index, [r]))
  {
    CompactedSize(log, r.index);
    ActivesOk(log, r.index);
    BodyConcat([r], ActivesBut(log, r.index));
    assert [r][1..] == [];
    assert Body([r]) == Encode(r) + [];
  }

  lemma CarriedFits(log: seq<Rec>)
    requires LogOk(log)
    ensures LogOk(Compacted(log, 0, []))
    ensures Live(Compacted(log, 0, [])) == Live(log) - {0}
  {
    CompactedSize(log, 0);
    ActivesOk(log, 0);
    CompactedMap(log, 0);
    assert Compacted(log, 0, []) == ActivesBut(log, 0);
  }

  lemma CompactedDupFree(log: seq<Rec>, r: Rec)
    requires DupFree(log)
    ensures DupFree(Compacted(Compacted(log, r.index, [r]), 0, []))
  {
    var t := Compacted(log, r.index, [r]);
    forall j: nat ensures CountActive(Compacted(t, 0, []), j) <= 1 {
      CountConcat([r], ActivesBut(log, r.index), j);
      CompactedCount(log, r.index, j);
      assert [r][1..] == [];
      CompactedCount(t, 0, j);
      assert Compacted(t, 0, []) == ActivesBut(t, 0);
    }
  }

  /** A copy under way: the source is whole, and the recycle partition does not claim to be. */
  ghost predicate Copying(f: Flash, start: Flash, src: Pno, dst: Pno) {
    Sized(f) && Part(f, src) == Part(start, src) && (dst == Recycle ==> WordOf(f.rec) != WORD_SYS)
  }

  /** The states n to m of a history belong to a copy under way. */
  ghost predicate AllCopying(h: seq<Flash>, n: nat, m: nat, start: Flash, src: Pno, dst: Pno) {
    m <= |h| && forall i | n <= i < m :: Copying(h[i], start, src, dst)
  }

  function InitWord(pno: Pno): seq<Byte> {
    if pno == System then WORD_SYS else WORD_INVALID
  }

  /** The step before the last of an appending write: the new record is active, the old one not yet retired. */
  ghost predicate BothActive(h: seq<Flash>, was: Flash, log: seq<Rec>, r: Rec) {
    |h| >= 2 && LogOk(log + [r]) && h[|h| - 2] == was.(sys := Image(WORD_SYS, log + [r]))
  }

  class Store {
    var flash: Flash
    var remain: nat
    var freeOffset: nat
    /** The flash after each write and erase since power-up. */
    var history: seq<Flash>

    const crcOf: seq<Byte> -> Crc
    const enc: Block -> Block
    const dec: Block -> Block

    ghost function Log(): seq<Rec>
      reads this
      requires Sized(flash)
    {
      Records(flash.sys)
    }

    /** Between operations: the system partition is a store, and the cached figures are right. */
    ghost predicate Valid()
      reads this
    {
      && Sized(flash) && IsStore(flash.sys) && WordOf(flash.rec) != WORD_SYS
      && freeOffset == End(Log())
      && remain + ActiveBytes(Log()) <= RELIABLE
    }

    constructor (crcOf: seq<Byte> -> Crc, enc: Block -> Block, dec: Block -> Block)
      ensures Sized(flash) && flash == Flash(Erased(PART_SIZE), Erased(PART_SIZE))
      ensures this.crcOf == crcOf && this.enc == enc && this.dec == dec && history == []
    {
      this.crcOf, this.enc, this.dec := crcOf, enc, dec;
      flash := Flash(Erased(PART_SIZE), Erased(PART_SIZE));
      remain, freeOffset, history := 0, 0, [];
    }

    // ----- Flash operations -----

    /** hal_flash_write; the caller vouches that no bit it needs set has been cleared. */
    method HalWrite(pno: Pno, off: nat, data: seq<Byte>)
      requires Sized(flash) && off + |data| <= PART_SIZE && Lands(Part(flash, pno), off, data)
      modifies this`flash, this`history
      ensures flash == WithPart(old(flash), pno, Programmed(Part(old(flash), pno), off, data))
      ensures history == old(history) + [flash]
    {
      flash := WithPart(flash, pno, Programmed(Part(flash, pno), off, data));
      history := history + [flash];
    }

    method HalErase(pno: Pno)
      modifies this`flash, this`history
      ensures flash == WithPart(old(flash), pno, Erased(PART_SIZE)) && history == old(history) + [flash]
    {
      flash := WithPart(flash, pno, Erased(PART_SIZE));
      history := history + [flash];
    }

    // ----- genie_flash_init_partition -----

    method InitPartition(pno: Pno)
      requires Sized(flash)
      modifies this
      ensures flash == WithPart(old(flash), pno, Image(InitWord(pno), []))
      ensures history == old(history) + [WithPart(old(flash), pno, Erased(PART_SIZE)), flash]
      ensures if pno == System then remain == RELIABLE && freeOffset == WORD
              else remain == old(remain) && freeOffset == old(freeOffset)
    {
      if pno == System {
        remain := RELIABLE;
        freeOffset := WORD;
      }
      HalErase(pno);
      FreshWord(InitWord(pno));
      HalWrite(pno, 0, InitWord(pno));
    }

    // ----- Walking -----

    method GetHeader(pno: Pno, off: nat, stale: Header) returns (ret: Code, h: Header)
      requires Sized(flash)
      ensures ret == HeaderCode(Part(flash, pno), off) && h == HeaderSeen(Part(flash, pno), off, stale)
    {
      h := stale;
      if off < PART_SIZE {
        if off + HEADER > PART_SIZE {
          return ReadFail, h;
        }
        h := HeaderOf(Part(flash, pno)[off..off + HEADER]);
        if h.flag != FLAG_UNUSED {
          return Success, h;
        }
      }
      return SearchNone, h;
    }

    /** The header of the i-th record of a log, or the end of the log. */
    method NextHeader(pno: Pno, ghost log: seq<Rec>, ghost i: nat, off: nat, stale: Header)
      returns (ret: Code, h: Header)
      requires Sized(flash) && LogOk(log) && i <= |log| && off == End(log[..i])
      requires Part(flash, pno) == Image(WORD_SYS, log)
      ensures i < |log| ==>
        ret == Success && h == HeaderFor(log[i]) && RecOk(log[i]) && off + RecSize(log[i]) == End(log[..i + 1])
      ensures i == |log| ==> ret == EndCode(log) && (h == stale || h.flag == FLAG_UNUSED)
    {
      if i < |log| {
        HeaderAt(WORD_SYS, log, i, stale);
        assert RecOk(log[i]);
      } else {
        assert log[..i] == log;
        HeaderEnd(WORD_SYS, log, stale);
      }
      ret, h := GetHeader(pno, off, stale);
    }

    /** _genie_flash_search in the system partition. */
    method Search(ghost log: seq<Rec>, k: nat) returns (ret: Code, off: nat, h: Header)
      requires Sized(flash) && LogOk(log) && flash.sys == Image(WORD_SYS, log)
      ensures var i := FirstAt(log, k);
        if i < |log| then ret == Success && off == End(log[..i]) && h == HeaderFor(log[i]) else ret == EndCode(log)
    {
      ghost var i := 0;
      off, h, ret := WORD, NO_HEADER, Success;
      while ret == Success
        invariant i <= |log| && off == End(log[..i])
        invariant forall j | 0 <= j < i :: !IsActive(log[j], k)
        invariant ret != Success ==> ret == EndCode(log) && i == |log|
        invariant !(h.flag == FLAG_ACTIVE && h.index == k)
        decreases |log| - i, ret == Success
      {
        ret, h := NextHeader(System, log, i, off, h);
        if h.flag == FLAG_ACTIVE && h.index == k {
          FirstIs(log, k, i);
          return Success, off, h;
        }
        if ret == Success {
          off := off + HEADER + h.length + h.align;
          i := i + 1;
        }
      }
      FirstIs(log, k, i);
    }

    /** _genie_flash_check_remain, for the system partition. */
    method CheckRemain()
      requires Sized(flash) && IsStore(flash.sys)
      modifies this`remain, this`freeOffset
      ensures remain == RELIABLE - ActiveBytes(Log()) && freeOffset == End(Log())
    {
      ghost var log := Log();
      CompactedSize(log, 0);
      EndsInside(log);
      var off := CountRemain(log);
      assert log[..|log|] == log;
      if off <= RELIABLE {
        freeOffset := off;
      }
    }

    /** The scan of _genie_flash_check_remain. */
    method CountRemain(ghost log: seq<Rec>) returns (off: nat)
      requires Sized(flash) && LogOk(log) && flash.sys == Image(WORD_SYS, log) && ActiveBytes(log) <= RELIABLE
      modifies this`remain
      ensures Counted(log, |log|, remain, off)
    {
      ghost var i := 0;
      remain := RELIABLE;
      var h, ret := NO_HEADER, Success;
      off := WORD;
      while ret == Success
        invariant i <= |log| && Counted(log, i, remain, off)
        invariant ret != Success ==> i == |log|
        decreases |log| - i, ret == Success
      {
        ret, h := NextHeader(System, log, i, off, h);
        if ret == Success {
          CountedStep(log, i, remain, off);
          if h.flag == FLAG_ACTIVE {
            remain := remain - (HEADER + h.length + h.align);
          }
          off := off + HEADER + h.length + h.align;
          i := i + 1;
        }
      }
    }

    // ----- Records -----

    /** A header, then its data: two steps. */
    method PutRecord(pno: Pno, ghost word: seq<Byte>, ghost log: seq<Rec>, off: nat, r: Rec) returns (next: nat)
      requires Sized(flash) && |word| == WORD && LogOk(log) && RecOk(r)
      requires off == End(log) && End(log) + RecSize(r) <= PART_SIZE
      requires Part(flash, pno) == Image(word, log)
      modifies this`flash, this`history
      ensures LogOk(log + [r]) && LogOk(log + [r.(data := Erased(|r.data|))]) && next == End(log + [r])
      ensures flash == WithPart(old(flash), pno, Image(word, log + [r]))
      ensures history == old(history) +
        [WithPart(old(flash), pno, Image(word, log + [r.(data := Erased(|r.data|))])), flash]
    {
      ghost var blank := r.(data := Erased(|r.data|));
      assert HeaderFor(blank) == HeaderFor(r);
      AppendHeader(word, log, blank);
      FillData(word, log, blank, r.data);
      HalWrite(pno, off, HeaderBytes(HeaderFor(r)));
      assert Part(flash, pno) == Image(word, log + [blank]);
      HalWrite(pno, off + HEADER, r.data);
      BodySnoc(log, r);
      assert blank.(data := r.data) == r;
      next := off + HEADER + |r.data|;
    }

    // ----- _genie_flash_copy -----

    method Copy(src: Pno, dst: Pno, ghost log: seq<Rec>, k: nat, buf: seq<Byte>)
      requires Sized(flash) && src != dst && LogOk(log) && Part(flash, src) == Image(WORD_SYS, log)
      requires buf != [] ==> dst == Recycle && RecOk(NewRec(k, crcOf(buf), buf))
      requires LogOk(Compacted(log, k, Fresh(k, buf)))
      modifies this
      ensures flash == Copied(old(flash), src, dst, log, Compacted(log, k, Fresh(k, buf)))
      ensures |old(history)| < |history| && old(history) <= history && history[|history| - 1] == flash
      ensures AllCopying(history, |old(history)|, |history| - 1, old(flash), src, dst)
    {
      ghost var start, n := flash, |history|;
      ghost var added := Fresh(k, buf);
      InitPartition(dst);
      ErasedCopying(start, src, dst);
      StillCopying(flash, start, src, dst, []);
      var next := WORD;
      if buf != [] {
        FreshFits(log, k, NewRec(k, crcOf(buf), buf));
        next := PutRecord(dst, InitWord(dst), [], next, NewRec(k, crcOf(buf), buf));
        assert [] + [NewRec(k, crcOf(buf), buf)] == added;
        StillCopying(history[n + 2], start, src, dst, [] + [NewRec(k, crcOf(buf), buf).(data := Erased(|buf|))]);
        StillCopying(flash, start, src, dst, added);
      }
      CopyRecords(start, src, dst, log, k, added, next);
      FinishCopy(start, src, dst, log, Compacted(log, k, added));
    }

    function Fresh(k: nat, buf: seq<Byte>): seq<Rec> {
      if buf == [] then [] else [NewRec(k, crcOf(buf), buf)]
    }

    /** The loop that moves the active records. */
    method CopyRecords(ghost start: Flash, src: Pno, dst: Pno, ghost log: seq<Rec>, k: nat, ghost added: seq<Rec>,
                       first: nat)
      requires Sized(flash) && src != dst && LogOk(log) && Part(flash, src) == Image(WORD_SYS, log)
      requires LogOk(added) && first == End(added) && Part(flash, dst) == Image(InitWord(dst), added)
      requires LogOk(Compacted(log, k, added)) && Part(start, src) == Part(flash, src)
      modifies this`flash, this`history
      ensures Part(flash, dst) == Image(InitWord(dst), Compacted(log, k, added))
      ensures Part(flash, src) == Part(old(flash), src)
      ensures old(history) <= history && AllCopying(history, |old(history)|, |history|, start, src, dst)
    {
      ghost var i := 0;
      ghost var t := added;
      var from, next, h, ret := WORD, first, NO_HEADER, Success;
      CompactedStart(log, k, added);
      while ret == Success
        invariant Sized(flash) && Part(flash, src) == Image(WORD_SYS, log)
        invariant i <= |log| && t == Compacted(log[..i], k, added) && LogOk(t)
        invariant Part(flash, dst) == Image(InitWord(dst), t) && next == End(t)
        invariant ret == Success ==> from == End(log[..i])
        invariant ret != Success ==> i == |log|
        invariant old(history) <= history && AllCopying(history, |old(history)|, |history|, start, src, dst)
        decreases |log| - i, ret == Success
      {
        ret, h := NextHeader(src, log, i, from, h);
        if ret == Success {
          CompactedStep(log, i, k, added);
          if h.flag == FLAG_ACTIVE && k != h.index {
            next := MoveRecord(start, src, dst, log, i, t, from, next, h);
            t := t + [log[i]];
          }
          i := i + 1;
        }
        from := from + HEADER + h.length + h.align;
      }
      assert log[..i] == log;
    }

    /** One active record goes from the source to the end of the destination. */
    method MoveRecord(ghost start: Flash, src: Pno, dst: Pno, ghost log: seq<Rec>, ghost i: nat, ghost t: seq<Rec>,
                      from: nat, to: nat, h: Header)
      returns (next: nat)
      requires Sized(flash) && src != dst && LogOk(log) && i < |log| && LogOk(t) && RecOk(log[i])
      requires Part(flash, src) == Image(WORD_SYS, log) == Part(start, src)
      requires Part(flash, dst) == Image(InitWord(dst), t)
      requires from == End(log[..i]) && to == End(t) && End(t) + RecSize(log[i]) <= PART_SIZE && h == HeaderFor(log[i])
      modifies this`flash, this`history
      ensures Sized(flash) && Part(flash, src) == Part(start, src) && LogOk(t + [log[i]])
      ensures Part(flash, dst) == Image(InitWord(dst), t + [log[i]]) && next == End(t + [log[i]])
      ensures old(history) <= history && AllCopying(history, |old(history)|, |history|, start, src, dst)
    {
      ReadsHeader(WORD_SYS, log, i);
      var data := Part(flash, src)[from + HEADER..from + HEADER + h.length];
      next := PutRecord(dst, InitWord(dst), t, to, Rec(h.flag, h.index, h.crc, data));
      StillCopying(history[|history| - 2], start, src, dst, t + [log[i].(data := Erased(|data|))]);
      StillCopying(flash, start, src, dst, t + [log[i]]);
    }

    /** The words that make the copy count: the destination's claim, or the source's release. */
    method FinishCopy(ghost start: Flash, src: Pno, dst: Pno, ghost log: seq<Rec>, ghost t: seq<Rec>)
      requires Sized(flash) && src != dst && LogOk(log) && LogOk(t)
      requires Part(flash, src) == Image(WORD_SYS, log) == Part(start, src)
      requires Part(flash, dst) == Image(InitWord(dst), t)
      modifies this`flash, this`history
      ensures flash == Copied(start, src, dst, log, t) && history == old(history) + [flash]
    {
      WordTransitions();
      ImageWord(WORD_SYS, log);
      if dst == Recycle {
        var word := WordOf(Part(flash, src));
        SetWord(WORD_INVALID, t, WORD_SYS);
        HalWrite(dst, 0, word);
      }
      if src == Recycle {
        SetWord(WORD_SYS, log, WORD_BASE);
        HalWrite(src, 0, WORD_BASE);
      }
    }

    // ----- _genie_flash_recycle -----

    /**
     The first copy: new record and other active records go to the recycle partition, whose word
     then commits them.
     */
    method Backup(ghost log: seq<Rec>, k: nat, buf: seq<Byte>)
      requires Sized(flash) && LogOk(log) && flash.sys == Image(WORD_SYS, log)
      requires buf != [] && RecOk(NewRec(k, crcOf(buf), buf))
      requires LogOk(Compacted(log, k, [NewRec(k, crcOf(buf), buf)]))
      modifies this
      ensures Sized(flash) && flash.rec == Image(WORD_SYS, Compacted(log, k, [NewRec(k, crcOf(buf), buf)]))
      ensures old(history) <= history
      ensures var m := Live(log) - {0}; AllShow(history, |old(history)|, m, Put(m, k, Entry(crcOf(buf), buf)))
    {
      ghost var r := NewRec(k, crcOf(buf), buf);
      ghost var m, n := Live(log) - {0}, |history|;
      ghost var start := flash;
      Copy(System, Recycle, log, k, buf);
      BackupShows(history, n, start, log, r, m);
    }

    /** The second copy: everything but index 0 returns to the system partition, then the recycle word is spent. */
    method Restore(ghost t: seq<Rec>)
      requires Sized(flash) && LogOk(t) && flash.rec == Image(WORD_SYS, t)
      modifies this
      ensures LogOk(Compacted(t, 0, []))
      ensures Sized(flash) && flash.sys == Image(WORD_SYS, Compacted(t, 0, [])) && WordOf(flash.rec) != WORD_SYS
      ensures old(history) <= history
      ensures AllShow(history, |old(history)|, Live(t) - {0}, Live(t) - {0})
    {
      ghost var start, n := flash, |history|;
      CarriedFits(t);
      Copy(Recycle, System, t, 0, []);
      ImageWord(WORD_BASE, t);
      assert WORD_BASE[1] != WORD_SYS[1];
      RestoreShows(history, n, start, t);
    }

    /** Compaction through the recycle partition. */
    method Compact(ghost log: seq<Rec>, k: nat, buf: seq<Byte>)
      requires Sized(flash) && LogOk(log) && flash.sys == Image(WORD_SYS, log)
      requires buf != [] && RecOk(NewRec(k, crcOf(buf), buf))
      requires RecSize(NewRec(k, crcOf(buf), buf)) + ActiveBytes(log) <= RELIABLE
      modifies this
      ensures LogOk(CompactedTwice(log, NewRec(k, crcOf(buf), buf)))
      ensures Sized(flash) && flash.sys == Image(WORD_SYS, CompactedTwice(log, NewRec(k, crcOf(buf), buf)))
      ensures WordOf(flash.rec) != WORD_SYS
      ensures old(history) <= history
      ensures var m := Live(log) - {0}; AllShow(history, |old(history)|, m, Put(m, k, Entry(crcOf(buf), buf)))
    {
      ghost var r := NewRec(k, crcOf(buf), buf);
      CompactedFits(log, r, RecSize(r));
      Backup(log, k, buf);
      ghost var h := history;
      Restore(Compacted(log, k, [r]));
      CompactedShows(log, r);
      JoinShows(h, history, |old(history)|, Live(log) - {0}, Put(Live(log) - {0}, k, EntryOf(r)));
    }

    // ----- _genie_flash_write -----

    /** Retire the old record: one byte. */
    method DeleteFlag(ghost log: seq<Rec>, ghost i: nat, off: nat)
      requires Sized(flash) && LogOk(log) && flash.sys == Image(WORD_SYS, log)
      requires i < |log| && log[i].flag == FLAG_ACTIVE && off == End(log[..i])
      modifies this`flash, this`history
      ensures LogOk(log[i := log[i].(flag := FLAG_INVALID)])
      ensures flash == old(flash).(sys := Image(WORD_SYS, log[i := log[i].(flag := FLAG_INVALID)]))
      ensures history == old(history) + [flash]
    {
      FlagTransitions();
      SetFlag(WORD_SYS, log, i, FLAG_INVALID);
      HalWrite(System, off, [FLAG_INVALID]);
    }

    /** The append path up to the new record's activation: three steps. */
    method AppendRecord(ghost log: seq<Rec>, r: Rec) returns (next: nat)
      requires Sized(flash) && LogOk(log) && flash.sys == Image(WORD_SYS, log) && WordOf(flash.rec) != WORD_SYS
      requires RecOk(r) && r.flag == FLAG_WRITING && freeOffset == End(log) && End(log) + RecSize(r) <= PART_SIZE
      modifies this`flash, this`history
      ensures var active := r.(flag := FLAG_ACTIVE);
        && LogOk(log + [active]) && next == End(log + [active])
        && flash == old(flash).(sys := Image(WORD_SYS, log + [active]))
        && old(history) < history && history[|history| - 1] == flash
        && AllShow(history, |old(history)|, Live(log) - {0}, Live(log + [active]) - {0})
    {
      ghost var active := r.(flag := FLAG_ACTIVE);
      ghost var a, b := Live(log) - {0}, Live(log + [active]) - {0};
      ghost var blank := r.(data := Erased(|r.data|));
      next := PutRecord(System, WORD_SYS, log, freeOffset, r);
      ghost var f, g := history[|history| - 2], flash;
      Unseen(log, blank);
      Unseen(log, r);
      StepShows(f, log + [blank], a, b);
      StepShows(g, log + [r], a, b);
      Activate(log, r, freeOffset);
      StepShows(flash, log + [active], a, b);
      ThreeShow(old(history), f, g, flash, a, b);
      SameEnd(log, r, active);
    }

    /** The one-byte write that makes a record count. */
    method Activate(ghost log: seq<Rec>, ghost r: Rec, off: nat)
      requires Sized(flash) && LogOk(log + [r]) && flash.sys == Image(WORD_SYS, log + [r])
      requires r.flag == FLAG_WRITING && off == End(log)
      modifies this`flash, this`history
      ensures LogOk(log + [r.(flag := FLAG_ACTIVE)])
      ensures flash == old(flash).(sys := Image(WORD_SYS, log + [r.(flag := FLAG_ACTIVE)]))
      ensures history == old(history) + [flash]
    {
      FlagTransitions();
      assert (log + [r])[|log|] == r && (log + [r])[..|log|] == log;
      SetFlag(WORD_SYS, log + [r], |log|, FLAG_ACTIVE);
      assert (log + [r])[|log| := r.(flag := FLAG_ACTIVE)] == log + [r.(flag := FLAG_ACTIVE)];
      HalWrite(System, off, [FLAG_ACTIVE]);
    }

    /** Retire the record that was current before, if there was one. */
    method RetireOld(ghost log: seq<Rec>, ghost r: Rec, ret: Code, off: nat, ghost start: seq<Flash>)
      requires Sized(flash) && LogOk(log) && LogOk(log + [r]) && flash.sys == Image(WORD_SYS, log + [r])
      requires r.flag == FLAG_ACTIVE && WordOf(flash.rec) != WORD_SYS
      requires var i := FirstAt(log, r.index);
        if i < |log| then ret == Success && off == End(log[..i]) else ret != Success
      requires start <= history && AllShow(history, |start|, Live(log) - {0}, Live(log + [r]) - {0})
      modifies this`flash, this`history
      ensures LogOk(Retired(log, r.index) + [r]) && End(Retired(log, r.index) + [r]) == End(log + [r])
      ensures flash == old(flash).(sys := Image(WORD_SYS, Retired(log, r.index) + [r]))
      ensures start <= history && history == if ret == Success then old(history) + [flash] else old(history)
      ensures CountActive(log, r.index) <= 1 ==>
        AllShow(history, |start|, Live(log) - {0}, Put(Live(log) - {0}, r.index, EntryOf(r)))
    {
      ghost var k, i := r.index, FirstAt(log, r.index);
      ghost var a := Live(log) - {0};
      if ret == Success {
        assert (log + [r])[i] == log[i] && (log + [r])[..i] == log[..i];
        DeleteFlag(log + [r], i, off);
        assert (log + [r])[i := log[i].(flag := FLAG_INVALID)] == Retired(log, k) + [r];
        RetiredEnd(log, r);
      }
      if CountActive(log, k) <= 1 {
        AppendShows(log, r);
        RetiredShows(old(history), |start|, log, r);
        if ret == Success {
          StepShows(flash, Retired(log, k) + [r], a, Put(a, k, EntryOf(r)));
          LastShows(history, |start|, a, Put(a, k, EntryOf(r)));
        }
      }
    }

    /** The append path of _genie_flash_write. */
    method Append(ghost log: seq<Rec>, k: nat, buf: seq<Byte>)
      requires Valid() && log == Log() && k < 0x1_0000 && RecOk(NewRec(k, crcOf(buf), buf))
      requires freeOffset + HEADER + |buf| <= PART_SIZE && HEADER + |buf| <= remain
      modifies this
      ensures Sized(flash) && WordOf(flash.rec) != WORD_SYS
      ensures var r := NewRec(k, crcOf(buf), buf); var n := Retired(log, k) + [r];
        && LogOk(n) && flash.sys == Image(WORD_SYS, n) && freeOffset == End(n)
        && remain + ActiveBytes(n) == old(remain) + ActiveBytes(log)
      ensures old(history) <= history
      ensures FirstAt(log, k) < |log| ==> BothActive(history, old(flash), log, NewRec(k, crcOf(buf), buf))
      ensures CountActive(log, k) <= 1 ==>
        var m := Live(log) - {0}; AllShow(history, |old(history)|, m, Put(m, k, Entry(crcOf(buf), buf)))
    {
      var ret, oldOff, h := Search(log, k);
      ghost var r := NewRec(k, crcOf(buf), buf);
      var next := AppendRecord(log, Rec(FLAG_WRITING, k, crcOf(buf), buf));
      remain := remain - (HEADER + |buf|);
      freeOffset := next;
      RetireOld(log, r, ret, oldOff, old(history));
      CreditOld(log, r, ret, h);
    }

    /** The retired record's room is free again. */
    method CreditOld(ghost log: seq<Rec>, ghost r: Rec, ret: Code, h: Header)
      requires r.flag == FLAG_ACTIVE
      requires var i := FirstAt(log, r.index);
        if i < |log| then ret == Success && h == HeaderFor(log[i]) else ret != Success
      modifies this`remain
      ensures remain + ActiveBytes(Retired(log, r.index) + [r]) == old(remain) + ActiveBytes(log) + RecSize(r)
    {
      RetiredBytes(log, r);
      if ret == Success {
        remain := remain + (HEADER + h.length + h.align);
      }
    }

    /**
     _genie_flash_write. The data is a whole number of words, so the record needs no
     alignment bytes.
     */
    method Write(k: nat, buf: seq<Byte>) returns (ret: Code)
      requires Valid() && k < 0x1_0000 && |buf| % 16 == 0 && |buf| < 0x1_0000
      modifies this
      ensures Valid() && old(history) <= history
      ensures ret == if |buf| == 0 || old(remain) < |buf| + HEADER then WriteFail else Success
      ensures ret == WriteFail ==> flash == old(flash) && history == old(history)
      ensures ret == Success ==> Log() == AfterWrite(old(Log()), NewRec(k, crcOf(buf), buf))
      // the free space is accounted for, and a compaction counts it anew
      ensures ret == Success ==>
        remain + ActiveBytes(Log()) ==
          if End(old(Log())) + HEADER + |buf| > PART_SIZE then RELIABLE else old(remain) + ActiveBytes(old(Log()))
      ensures
        ret == Success && FirstAt(old(Log()), k) < |old(Log())| && End(old(Log())) + HEADER + |buf| <= PART_SIZE ==>
        BothActive(history, old(flash), old(Log()), NewRec(k, crcOf(buf), buf))
      ensures ret == Success && OneOrCompacted(old(Log()), k, |buf|) ==>
        var m := StoreMap(old(flash)); AllShow(history, |old(history)|, m, Put(m, k, Entry(crcOf(buf), buf)))
    {
      if |buf| == 0 {
        return WriteFail;
      }
      if remain < |buf| + HEADER {
        return WriteFail;
      }
      ghost var log := Log();
      ghost var r := NewRec(k, crcOf(buf), buf);
      SysShows(flash, log);
      if freeOffset + |buf| + HEADER > PART_SIZE {
        Compact(log, k, buf);
        SysShows(flash, CompactedTwice(log, r));
        CheckRemain();
        CompactedSize(Log(), 0);
      } else {
        Append(log, k, buf);
        SysShows(flash, Retired(log, k) + [r]);
      }
      return Success;
    }

    // ----- _genie_flash_delete and _genie_flash_read -----

    method Delete(k: nat) returns (ret: Code)
      requires Valid()
      modifies this`flash, this`history
      ensures Valid() && Log() == Retired(old(Log()), k)
      ensures ret == if FirstAt(old(Log()), k) < |old(Log())| then Success
                     else if End(old(Log())) + HEADER > PART_SIZE then ReadFail else SearchNone
      ensures history == if ret == Success then old(history) + [flash] else old(history)
    {
      ghost var log := Log();
      var off, h;
      ret, off, h := Search(log, k);
      if ret != Success {
        return;
      }
      DeleteFlag(log, FirstAt(log, k), off);
      SysShows(flash, Retired(log, k));
      RetiredActive(log, k);
    }

    /** What a read of `size` bytes gives: at most the record's length, all of it when size is 0. */
    method Read(k: nat, size: nat) returns (ret: Code, buf: seq<Byte>)
      requires Valid()
      ensures k !in Live(Log()) ==>
        ret == (if End(Log()) + HEADER > PART_SIZE then ReadFail else SearchNone) && buf == []
      ensures k in Live(Log()) ==>
        var e := Live(Log())[k]; var n := if |e.data| < size || size == 0 then |e.data| else size;
        buf == e.data[..n] && ret == if crcOf(e.data[..n]) == e.crc then Success else CrcFail
    {
      ghost var log := Log();
      ghost var i := FirstAt(log, k);
      LiveFirst(log, k);
      var off, h;
      buf := [];
      ret, off, h := Search(log, k);
      if ret != Success {
        return;
      }
      var n := if h.length < size || size == 0 then h.length else size;
      ReadsFront(log, i, n);
      buf := flash.sys[off + HEADER..off + HEADER + n];
      if crcOf(buf) == h.crc {
        return Success, buf;
      } else {
        return CrcFail, buf;
      }
    }

    // ----- Boot -----

    /** genie_flash_check_recycle: finish what a power failure interrupted. */
    method CheckRecycle()
      requires Recoverable(flash)
      modifies this
      ensures Recoverable(flash) && WordOf(flash.rec) != WORD_SYS && StoreMap(flash) == StoreMap(old(flash))
      ensures old(history) <= history && AllShow(history, |old(history)|, StoreMap(old(flash)), StoreMap(old(flash)))
      ensures WordOf(old(flash).rec) != WORD_SYS ==> flash == old(flash)
    {
      if WordOf(flash.rec) == WORD_SYS {
        ghost var t := Records(flash.rec);
        RecShows(flash, t);
        Restore(t);
        CarriedFits(t);
        SysShows(flash, Compacted(t, 0, []));
        assert Live(t) - {0} - {0} == Live(t) - {0};
      }
    }

    /** genie_flash_init, for the system partition. */
    method Init()
      requires Recoverable(flash)
      modifies this
      ensures Valid() && StoreMap(flash) == StoreMap(old(flash)) && StoreMap(flash) == Live(Log()) - {0}
      ensures old(history) <= history && AllShow(history, |old(history)|, StoreMap(old(flash)), StoreMap(old(flash)))
      ensures remain + ActiveBytes(Log()) == RELIABLE
      // nothing to finish: a store is left alone, anything else is made an empty one
      ensures WordOf(old(flash).rec) != WORD_SYS ==>
        if WordOf(old(flash).sys) == WORD_SYS then flash == old(flash) else Log() == []
    {
      CheckRecycle();
      ghost var m, n := StoreMap(flash), |history|;
      if WordOf(flash.sys) != WORD_SYS {
        EraseReliable();
      }
      SysShows(flash, Records(flash.sys));
      CheckRemain();
      CompactedSize(Log(), 0);
    }

    /** genie_flash_erase_reliable. */
    method EraseReliable()
      requires Recoverable(flash) && WordOf(flash.rec) != WORD_SYS
      modifies this
      ensures Valid() && Log() == [] && StoreMap(flash) == map[]
      ensures old(history) <= history && AllShow(history, |old(history)|, StoreMap(old(flash)), map[])
    {
      ghost var m := StoreMap(flash);
      InitPartition(System);
      SysShows(flash, []);
      assert WordOf(Erased(PART_SIZE))[0] == 255;
      NothingShows(history[|history| - 2]);
      assert Live([]) - {0} == map[];
    }

    // ----- Reliable reads and writes -----

    /** What reads give is exactly the client's map m. */
    ghost predicate Readable(m: map<nat, seq<Byte>>)
      reads this
    {
      Valid() && Standing(Log(), m, crcOf, enc)
    }

    /** The store holds exactly the client's map m, and no index twice. */
    ghost predicate Holds(m: map<nat, seq<Byte>>)
      reads this
    {
      Readable(m) && DupFree(Log())
    }

    ghost predicate KeyOk() {
      forall b: Block :: dec(enc(b)) == b
    }

    method CryptBlock(f: Block -> Block, buf: array<Byte>, i: nat)
      requires 16 * i + 16 <= buf.Length
      modifies buf
      ensures var b := old(buf[..]); buf[..] == b[..16 * i] + f(b[16 * i..16 * i + 16]) + b[16 * i + 16..]
    {
      var temp := f(buf[16 * i..16 * i + 16]);
      forall j | 0 <= j < 16 {
        buf[16 * i + j] := temp[j];
      }
    }

    /** _genie_flash_encrypt and _genie_flash_decrypt: each block in place. */
    method CryptInPlace(f: Block -> Block, buf: array<Byte>)
      requires buf.Length % 16 == 0
      modifies buf
      ensures buf[..] == Blockwise(f, old(buf[..]))
    {
      ghost var was := buf[..];
      for i := 0 to buf.Length / 16
        invariant buf[..] == CryptedTo(f, was, i)
      {
        CryptBlock(f, buf, i);
        CryptStep(f, was, i);
      }
      assert was[..buf.Length] == was;
    }

    /** The buffer a write stores: the data, padded and encrypted. */
    method Sealed(data: seq<Byte>) returns (stored: seq<Byte>)
      requires |data| <= 0xFFF0
      ensures stored == Blockwise(enc, Padded(data))
    {
      ReliableSizeExact(|data|);
      var buf := new Byte[BufferSize(|data|)](i => 0);
      forall i | 0 <= i < |data| {
        buf[i] := data[i];
      }
      assert buf[..] == Padded(data);
      CryptInPlace(enc, buf);
      stored := buf[..];
    }

    /** genie_flash_write_reliable; the allocator hands out no buffer of size 0. */
    method WriteReliable(k: nat, data: seq<Byte>, ghost m: map<nat, seq<Byte>>) returns (ret: Code)
      requires Readable(m) && k < 0x1_0000 && |data| < 0x1_0000
      modifies this
      ensures Valid() && old(history) <= history
      ensures ret == if !Bufferable(|data|) then DataInvalid
                     else if old(remain) < ReliableSize(|data|) + HEADER then WriteFail else Success
      ensures ret != Success ==> flash == old(flash) && history == old(history) && Readable(m)
      ensures k != 0 && OneOrCompacted(old(Log()), k, ReliableSize(|data|)) ==>
        Readable(if ret == Success then m[k := data] else m)
      ensures OneOrCompacted(old(Log()), k, ReliableSize(|data|)) ==>
        var a := StoreMap(old(flash)); AllShow(history, |old(history)|, a, Put(a, k, Stored(crcOf, enc, data)))
      ensures DupFree(old(Log())) ==> DupFree(Log())
    {
      ReliableSizeExact(|data|);
      if BufferSize(|data|) == 0 {
        return DataInvalid;
      }
      var buf := Sealed(data);
      ghost var log := Log();
      ret := Write(k, buf);
      if ret == Success {
        if k != 0 && OneOrCompacted(log, k, |buf|) {
          PutStands(log, m, crcOf, enc, k, data);
        }
        if DupFree(log) {
          StaysDupFree(log, NewRec(k, crcOf(buf), buf));
        }
      }
    }

    /** genie_flash_read_reliable; a duplicate left by a power failure is no hindrance. */
    method ReadReliable(k: nat, size: nat, ghost m: map<nat, seq<Byte>>) returns (ret: Code, data: seq<Byte>)
      requires Readable(m) && KeyOk() && size < 0x1_0000
      ensures !Bufferable(size) ==> ret == DataInvalid
      ensures Bufferable(size) && k != 0 && k !in m ==>
        ret == if End(Log()) + HEADER > PART_SIZE then ReadFail else SearchNone
      ensures Bufferable(size) && k in m && |m[k]| == size ==> ret == Success && data == m[k]
    {
      data := [];
      ReliableSizeExact(size);
      if BufferSize(size) == 0 {
        return DataInvalid, data;
      }
      var buf := new Byte[BufferSize(size)];
      var stored;
      StandingEntry(Log(), m, crcOf, enc, k);
      ret, stored := Read(k, buf.Length);
      if ret == Success {
        forall i | 0 <= i < |stored| {
          buf[i] := stored[i];
        }
        assert |stored| == buf.Length ==> buf[..] == stored;
        CryptInPlace(dec, buf);
        data := buf[..size];
        if k in m && |m[k]| == size {
          ReliableRoundTrip(enc, dec, m[k]);
        }
      }
    }

    /** genie_flash_delete_reliable. */
    method DeleteReliable(k: nat, ghost m: map<nat, seq<Byte>>) returns (ret: Code)
      requires Readable(m)
      modifies this`flash, this`history
      ensures Valid() && old(history) <= history
      ensures k != 0 ==> (ret == Success <==> k in m)
      ensures CountActive(old(Log()), k) <= 1 ==> Readable(m - {k})
      ensures CountActive(old(Log()), k) <= 1 ==>
        var a := StoreMap(old(flash)); AllShow(history, |old(history)|, a, a - {k})
      ensures DupFree(old(Log())) ==> DupFree(Log())
    {
      ghost var log := Log();
      StandingEntry(log, m, crcOf, enc, k);
      LiveFirst(log, k);
      ghost var f := flash;
      ret := Delete(k);
      DeleteShows(f, flash, log, Log(), k);
      if CountActive(log, k) <= 1 {
        DropStands(log, m, crcOf, enc, k);
      }
      if DupFree(log) {
        StaysDupFree(log, Rec(FLAG_ACTIVE, k, 0, []));
      }
    }

    // ----- Power failures -----

    /** Power fails right after some step: the flash is as it was then, and memory is lost. */
    method CutPower(step: nat)
      requires step < |history|
      modifies this
      ensures flash == old(history)[step]
    {
      flash := history[step];
      history := [];
      remain, freeOffset := *, *;
    }

    /** Boot again and again, each time cut off after some step, until one boot completes. */
    method BootAtLast(cuts: seq<nat>)
      requires Recoverable(flash)
      modifies this
      ensures Valid() && StoreMap(flash) == StoreMap(old(flash)) && StoreMap(flash) == Live(Log()) - {0}
    {
      ghost var m := StoreMap(flash);
      for i := 0 to |cuts|
        invariant Recoverable(flash) && StoreMap(flash) == m
      {
        var n := |history|;
        Init();
        if n < |history| {
          var step := n + cuts[i] % (|history| - n);
          assert Shows(history[step], m, m);
          CutPower(step);
        }
      }
      Init();
    }

    /** Power fails after one of the steps since the first n, if there were any. */
    method CutWithin(n: nat, cut: nat, ghost a: map<nat, Entry>, ghost b: map<nat, Entry>)
      requires n <= |history| && AllShow(history, n, a, b) && Shows(flash, a, b)
      modifies this
      ensures Shows(flash, a, b)
    {
      if n < |history| {
        var step := n + cut % (|history| - n);
        assert Shows(history[step], a, b);
        CutPower(step);
      }
    }

    /**
     Crash atomicity of a write: power fails after any of its steps, recovery is itself cut
     off any number of times, and then the store shows the old map or the new one.
     */
    method WriteAcrossPowerFailure(k: nat, buf: seq<Byte>, cut: nat, cuts: seq<nat>)
      requires Valid() && 0 < k < 0x1_0000 && |buf| % 16 == 0 && |buf| < 0x1_0000
      requires OneOrCompacted(Log(), k, |buf|)
      modifies this
      ensures Valid() && StoreMap(flash) == Live(Log()) - {0}
      ensures var m := StoreMap(old(flash)); StoreMap(flash) == m || StoreMap(flash) == m[k := Entry(crcOf(buf), buf)]
    {
      var n := |history|;
      ghost var m := StoreMap(flash);
      ghost var e := Entry(crcOf(buf), buf);
      ValidShows(m, Put(m, k, e));
      PutKeeps(m, k, e);
      WriteShowing(k, buf, m);
      CutWithin(n, cut, m, Put(m, k, e));
      BootAtLast(cuts);
    }

    /** A write, completed or refused, leaves the old map or the new one. */
    method WriteShowing(k: nat, buf: seq<Byte>, ghost m: map<nat, Entry>)
      requires Valid() && k < 0x1_0000 && |buf| % 16 == 0 && |buf| < 0x1_0000
      requires OneOrCompacted(Log(), k, |buf|) && m == StoreMap(flash)
      modifies this
      ensures old(history) <= history
      ensures var e := Entry(crcOf(buf), buf);
        AllShow(history, |old(history)|, m, Put(m, k, e)) && Shows(flash, m, Put(m, k, e))
    {
      ghost var log := Log();
      SysShows(flash, log);
      var ret := Write(k, buf);
      if ret == Success {
        WritePuts(log, NewRec(k, crcOf(buf), buf));
        SysShows(flash, Log());
      }
    }

    lemma ValidShows(a: map<nat, Entry>, b: map<nat, Entry>)
      requires Valid() && a == StoreMap(flash)
      ensures Shows(flash, a, b) && 0 !in a
    {
      SysShows(flash, Log());
    }
  }

  lemma PutKeeps(m: map<nat, Entry>, k: nat, e: Entry)
    requires 0 !in m && k != 0
    ensures Put(m, k, e) == m[k := e]
  {
  }

  // ----- The client's map -----

  /** What is stored for a client's data. */
  function Stored(crcOf: seq<Byte> -> Crc, enc: Block -> Block, data: seq<Byte>): Entry {
    var buf := Blockwise(enc, Padded(data));
    Entry(crcOf(buf), buf)
  }

  function StoredMap(m: map<nat, seq<Byte>>, crcOf: seq<Byte> -> Crc, enc: Block -> Block): map<nat, Entry> {
    map k | k in m :: Stored(crcOf, enc, m[k])
  }

  /** The active records, the first of each index, stand for exactly the client's map m. */
  ghost predicate Standing(log: seq<Rec>, m: map<nat, seq<Byte>>, crcOf: seq<Byte> -> Crc, enc: Block -> Block) {
    0 !in m && Live(log) - {0} == StoredMap(m, crcOf, enc)
  }

  lemma PutStands(log: seq<Rec>, m: map<nat, seq<Byte>>, crcOf: seq<Byte> -> Crc, enc: Block -> Block, k: nat,
                  data: seq<Byte>)
    requires Standing(log, m, crcOf, enc) && k != 0 && OneOrCompacted(log, k, ReliableSize(|data|))
    ensures var buf := Blockwise(enc, Padded(data));
      Standing(AfterWrite(log, NewRec(k, crcOf(buf), buf)), m[k := data], crcOf, enc)
  {
    var buf := Blockwise(enc, Padded(data));
    var r := NewRec(k, crcOf(buf), buf);
    WritePuts(log, r);
    PutKeeps(Live(log) - {0}, k, EntryOf(r));
  }

  lemma DropStands(log: seq<Rec>, m: map<nat, seq<Byte>>, crcOf: seq<Byte> -> Crc, enc: Block -> Block, k: nat)
    requires Standing(log, m, crcOf, enc) && CountActive(log, k) <= 1
    ensures Standing(Retired(log, k), m - {k}, crcOf, enc)
  {
    RetireMinus(log, k);
  }

  /** The one step of a delete shows the map without k. */
  lemma DeleteShows(f: Flash, g: Flash, log: seq<Rec>, after: seq<Rec>, k: nat)
    requires LogOk(log) && f.sys == Image(WORD_SYS, log) && |f.rec| == PART_SIZE && WordOf(f.rec) != WORD_SYS
    requires LogOk(after) && g.sys == Image(WORD_SYS, after) && |g.rec| == PART_SIZE && WordOf(g.rec) != WORD_SYS
    requires after == Retired(log, k)
    ensures CountActive(log, k) <= 1 ==> Shows(g, StoreMap(f), StoreMap(f) - {k}) && StoreMap(g) == StoreMap(f) - {k}
  {
    SysShows(f, log);
    SysShows(g, after);
    if CountActive(log, k) <= 1 {
      RetireMinus(log, k);
    }
  }

  lemma RetireMinus(log: seq<Rec>, k: nat)
    requires CountActive(log, k) <= 1
    ensures Live(Retired(log, k)) - {0} == Live(log) - {0} - {k}
  {
    RetireOnly(log, k);
  }

  lemma StandingEntry(log: seq<Rec>, m: map<nat, seq<Byte>>, crcOf: seq<Byte> -> Crc, enc: Block -> Block, k: nat)
    requires Standing(log, m, crcOf, enc)
    ensures k != 0 ==> (k in Live(log) <==> k in m)
    ensures k in m ==> k in Live(log) && Live(log)[k] == Stored(crcOf, enc, m[k])
    ensures k in m ==> var d := Live(log)[k].data; |d| == ReliableSize(|m[k]|) && d[..|d|] == d
  {
    assert k != 0 ==> (k in Live(log) <==> k in Live(log) - {0});
  }

  // ----- Encryption in place -----

  /** The buffer once the first i blocks are done. */
  function CryptedTo(f: Block -> Block, s: seq<Byte>, i: nat): (r: seq<Byte>)
    requires |s| % 16 == 0 && 16 * i <= |s|
    ensures |r| == |s|
  {
    Blockwise(f, s[..16 * i]) + s[16 * i..]
  }

  lemma CryptStep(f: Block -> Block, s: seq<Byte>, i: nat)
    requires |s| % 16 == 0 && 16 * i + 16 <= |s|
    ensures var b := CryptedTo(f, s, i);
      b[..16 * i] + f(b[16 * i..16 * i + 16]) + b[16 * i + 16..] == CryptedTo(f, s, i + 1)
  {
    var block: Block := s[16 * i..16 * i + 16];
    var b := CryptedTo(f, s, i);
    assert b[16 * i..16 * i + 16] == block && b[..16 * i] == Blockwise(f, s[..16 * i]);
    assert b[16 * i + 16..] == s[16 * i + 16..];
    assert s[..16 * (i + 1)] == s[..16 * i] + block;
    BlockwiseConcat(f, s[..16 * i], block);
    OneBlock(f, block);
  }

  lemma OneBlock(f: Block -> Block, block: Block)
    ensures Blockwise(f, block) == f(block)
  {
    assert block[..16] == block && block[16..] == [];
    assert f(block) + [] == f(block);
  }

  /** Padding, encryption, decryption and cutting off the padding give the data back. */
  lemma ReliableRoundTrip(enc: Block -> Block, dec: Block -> Block, data: seq<Byte>)
    requires forall b: Block :: dec(enc(b)) == b
    ensures Blockwise(dec, Blockwise(enc, Padded(data)))[..|data|] == data
  {
    BlockwiseUndone(enc, dec, Padded(data));
  }

  /** The log after a successful write. */
  function AfterWrite(log: seq<Rec>, r: Rec): seq<Rec> {
    if End(log) + RecSize(r) > PART_SIZE then CompactedTwice(log, r) else Retired(log, r.index) + [r]
  }

  /** No duplicate of k is in the way, or the write compacts. */
  predicate OneOrCompacted(log: seq<Rec>, k: nat, size: nat) {
    CountActive(log, k) <= 1 || End(log) + HEADER + size > PART_SIZE
  }

  // ----- What a write means -----

  /** With no duplicates in the way, a write replaces k's entry and no other, whichever path it takes. */
  lemma WritePuts(log: seq<Rec>, r: Rec)
    requires r.flag == FLAG_ACTIVE && OneOrCompacted(log, r.index, |r.data|)
    ensures Live(AfterWrite(log, r)) - {0} == Put(Live(log) - {0}, r.index, EntryOf(r))
  {
    if End(log) + RecSize(r) > PART_SIZE {
      CompactedShows(log, r);
      CompactedMap(Compacted(log, r.index, [r]), 0);
      assert AfterWrite(log, r) == ActivesBut(Compacted(log, r.index, [r]), 0);
    } else {
      AppendShows(log, r);
    }
  }

  /** The entry of the second active record of k, the new one's if there is no second. */
  function NextCopy(log: seq<Rec>, r: Rec): Entry {
    var i := FirstAt(log, r.index);
    if i < |log| && r.index in Live(log[i + 1..]) then Live(log[i + 1..])[r.index] else EntryOf(r)
  }

  /**
   Read-your-write, exactly: an appended record is read back unless an older duplicate with other
   contents surfaces.
   */
  lemma WriteReadsBack(log: seq<Rec>, r: Rec)
    requires r.flag == FLAG_ACTIVE && r.index != 0
    ensures r.index in Live(AfterWrite(log, r))
    ensures Live(AfterWrite(log, r))[r.index] == EntryOf(r)
      <==> OneOrCompacted(log, r.index, |r.data|) || NextCopy(log, r) == EntryOf(r)
  {
    var k := r.index;
    if OneOrCompacted(log, k, |r.data|) {
      WritePuts(log, r);
      assert k in Live(AfterWrite(log, r)) - {0};
    } else {
      LiveFirst(log, k);
      LiveRetire(log, k);
      CountRetire(log, k, k);
      LiveFirst(log[FirstAt(log, k) + 1..], k);
      LiveAppend(Retired(log, k), r);
    }
  }

  /**
   With a duplicate left, an appended write to k retires the first copy only: the second is what is
   read from then on.
   */
  lemma SecondCopySurfaces(log: seq<Rec>, a: Rec, r: Rec)
    requires a.flag == r.flag == FLAG_ACTIVE && a.index == r.index != 0
    requires CountActive(log, r.index) == 1 && End(log + [a]) + RecSize(r) <= PART_SIZE
    ensures r.index in Live(AfterWrite(log + [a], r)) && Live(AfterWrite(log + [a], r))[r.index] == EntryOf(a)
  {
    var k, l := r.index, log + [a];
    LiveFirst(log, k);
    var i := FirstAt(log, k);
    CountRetire(log, k, k);
    CountConcat(log, [a], k);
    assert [a][1..] == [];
    assert CountActive(l, k) == 2;
    LiveFirst(l, k);
    assert l[i] == log[i];
    FirstIs(l, k, i);
    assert l[i + 1..] == log[i + 1..] + [a];
    LiveFirst(log[i + 1..], k);
    LiveAppend(log[i + 1..], a);
    LiveRetire(l, k);
    LiveAppend(Retired(l, k), r);
  }

  /** A write to index 0 that compacts is lost. */
  lemma IndexZeroNotKept(log: seq<Rec>, r: Rec)
    requires r.flag == FLAG_ACTIVE && r.index == 0 && CountActive(log, 0) <= 1
    ensures 0 in Live(AfterWrite(log, r)) <==> End(log) + RecSize(r) <= PART_SIZE
  {
    if End(log) + RecSize(r) > PART_SIZE {
      CompactedMap(Compacted(log, 0, [r]), 0);
      assert AfterWrite(log, r) == ActivesBut(Compacted(log, 0, [r]), 0);
    } else {
      LiveAppend(Retired(log, 0), r);
    }
  }

  /** Writes and deletes never leave two active records of one index. */
  lemma StaysDupFree(log: seq<Rec>, r: Rec)
    requires DupFree(log) && r.flag == FLAG_ACTIVE
    ensures DupFree(AfterWrite(log, r)) && DupFree(Retired(log, r.index))
  {
    forall j: nat ensures CountActive(Retired(log, r.index), j) <= (if j == r.index then 0 else 1) {
      LiveFirst(log, r.index);
      if FirstAt(log, r.index) < |log| {
        CountRetire(log, r.index, j);
      }
    }
    if End(log) + RecSize(r) > PART_SIZE {
      CompactedDupFree(log, r);
    } else {
      forall j: nat ensures CountActive(Retired(log, r.index) + [r], j) <= 1 {
        CountConcat(Retired(log, r.index), [r], j);
        assert [r][1..] == [];
      }
    }
  }

  /** Whether the new record already counts before the old one is retired. */
  lemma AppendShows(log: seq<Rec>, r: Rec)
    requires r.flag == FLAG_ACTIVE && CountActive(log, r.index) <= 1
    ensures Live(Retired(log, r.index) + [r]) - {0} == Put(Live(log) - {0}, r.index, EntryOf(r))
  {
    RetireOnly(log, r.index);
    LiveAppend(Retired(log, r.index), r);
  }

  lemma RetiredShows(h: seq<Flash>, n: nat, log: seq<Rec>, r: Rec)
    requires r.flag == FLAG_ACTIVE
    requires AllShow(h, n, Live(log) - {0}, Live(log + [r]) - {0})
    ensures AllShow(h, n, Live(log) - {0}, Put(Live(log) - {0}, r.index, EntryOf(r)))
  {
    LiveAppend(log, r);
    forall i | n <= i < |h| ensures Shows(h[i], Live(log) - {0}, Put(Live(log) - {0}, r.index, EntryOf(r))) {
      assert Shows(h[i], Live(log) - {0}, Live(log + [r]) - {0});
    }
  }

  lemma RetiredEnd(log: seq<Rec>, r: Rec)
    ensures End(Retired(log, r.index) + [r]) == End(log + [r])
  {
    BodySnoc(log, r);
    BodySnoc(Retired(log, r.index), r);
    var i := FirstAt(log, r.index);
    if i < |log| {
      BodySplit(log, i);
      BodySplit(Retired(log, r.index), i);
      assert Retired(log, r.index)[..i] == log[..i] && Retired(log, r.index)[i + 1..] == log[i + 1..];
    }
  }

  lemma RetiredActive(log: seq<Rec>, k: nat)
    ensures ActiveBytes(Retired(log, k)) +
      (if FirstAt(log, k) < |log| then RecSize(log[FirstAt(log, k)]) else 0) == ActiveBytes(log)
    ensures End(Retired(log, k)) == End(log)
  {
    var r := Rec(FLAG_INVALID, k, 0, []);
    if FirstAt(log, k) < |log| {
      LiveRetire(log, k);
    }
    RetiredEnd(log, r);
    BodySnoc(log, r);
    BodySnoc(Retired(log, k), r);
  }

  lemma RetiredBytes(log: seq<Rec>, r: Rec)
    requires r.flag == FLAG_ACTIVE
    ensures ActiveBytes(Retired(log, r.index) + [r]) +
      (if FirstAt(log, r.index) < |log| then RecSize(log[FirstAt(log, r.index)]) else 0)
         == ActiveBytes(log) + RecSize(r)
  {
    RetiredActive(log, r.index);
    ActiveBytesConcat(Retired(log, r.index), [r]);
    assert [r][1..] == [];
  }

  lemma Unseen(log: seq<Rec>, r: Rec)
    requires r.flag != FLAG_ACTIVE
    ensures Live(log + [r]) == Live(log)
  {
    LiveAppend(log, r);
  }

  lemma SameEnd(log: seq<Rec>, r: Rec, q: Rec)
    requires |r.data| == |q.data|
    ensures End(log + [r]) == End(log + [q])
  {
    BodySnoc(log, r);
    BodySnoc(log, q);
  }

  lemma StepShows(f: Flash, log: seq<Rec>, a: map<nat, Entry>, b: map<nat, Entry>)
    requires LogOk(log) && f.sys == Image(WORD_SYS, log) && |f.rec| == PART_SIZE && WordOf(f.rec) != WORD_SYS
    requires Live(log) - {0} == a || Live(log) - {0} == b
    ensures Shows(f, a, b)
  {
    SysShows(f, log);
  }

  lemma BackupShows(h: seq<Flash>, n: nat, start: Flash, log: seq<Rec>, r: Rec, m: map<nat, Entry>)
    requires Sized(start) && LogOk(log) && start.sys == Image(WORD_SYS, log) && m == Live(log) - {0}
    requires r.flag == FLAG_ACTIVE && LogOk(Compacted(log, r.index, [r]))
    requires n < |h| && AllCopying(h, n, |h| - 1, start, System, Recycle)
    requires Sized(h[|h| - 1]) && h[|h| - 1].rec == Image(WORD_SYS, Compacted(log, r.index, [r]))
    ensures AllShow(h, n, m, Put(m, r.index, EntryOf(r)))
  {
    CompactedShows(log, r);
    RecStepShows(h[|h| - 1], Compacted(log, r.index, [r]), m, Put(m, r.index, EntryOf(r)));
    OldMapShows(h, n, |h| - 1, start, log, m, Put(m, r.index, EntryOf(r)));
    LastShows(h, n, m, Put(m, r.index, EntryOf(r)));
  }

  lemma RecStepShows(f: Flash, t: seq<Rec>, a: map<nat, Entry>, b: map<nat, Entry>)
    requires LogOk(t) && f.rec == Image(WORD_SYS, t) && |f.sys| == PART_SIZE && Live(t) - {0} == b
    ensures Shows(f, a, b)
  {
    RecShows(f, t);
  }

  lemma LastShows(h: seq<Flash>, n: nat, a: map<nat, Entry>, b: map<nat, Entry>)
    requires n < |h| && (forall i | n <= i < |h| - 1 :: Shows(h[i], a, b)) && Shows(h[|h| - 1], a, b)
    ensures AllShow(h, n, a, b)
  {
  }

  lemma ThreeShow(h: seq<Flash>, f: Flash, g: Flash, e: Flash, a: map<nat, Entry>, b: map<nat, Entry>)
    requires Shows(f, a, b) && Shows(g, a, b) && Shows(e, a, b)
    ensures AllShow(h + [f, g] + [e], |h|, a, b)
  {
    var all := h + [f, g] + [e];
    forall i | |h| <= i < |all| ensures Shows(all[i], a, b) {
      assert all[i] == f || all[i] == g || all[i] == e;
    }
  }

  lemma RestoreShows(h: seq<Flash>, n: nat, start: Flash, t: seq<Rec>)
    requires Sized(start) && LogOk(t) && start.rec == Image(WORD_SYS, t) && LogOk(Compacted(t, 0, []))
    requires n < |h| && AllCopying(h, n, |h| - 1, start, Recycle, System)
    requires var f := h[|h| - 1]; Sized(f) && f.sys == Image(WORD_SYS, Compacted(t, 0, [])) && WordOf(f.rec) != WORD_SYS
    ensures AllShow(h, n, Live(t) - {0}, Live(t) - {0})
  {
    var m := Live(t) - {0};
    CarriedFits(t);
    assert m - {0} == m;
    StepShows(h[|h| - 1], Compacted(t, 0, []), m, m);
    NewMapShows(h, n, |h| - 1, start, t, m, m);
    LastShows(h, n, m, m);
  }

  lemma JoinShows(h: seq<Flash>, all: seq<Flash>, n: nat, a: map<nat, Entry>, b: map<nat, Entry>)
    requires h <= all && n <= |h| && AllShow(h, n, a, b) && AllShow(all, |h|, b, b)
    ensures AllShow(all, n, a, b)
  {
    forall i | n <= i < |all| ensures Shows(all[i], a, b) {
      if i < |h| {
        assert Shows(h[i], a, b);
        assert all[i] == h[i];
      } else {
        assert Shows(all[i], b, b);
      }
    }
  }

  /** What the two copies of a compaction leave in the system partition. */
  function CompactedTwice(log: seq<Rec>, r: Rec): seq<Rec> {
    Compacted(Compacted(log, r.index, [r]), 0, [])
  }

  lemma OldMapShows(h: seq<Flash>, n: nat, m: nat, start: Flash, log: seq<Rec>, a: map<nat, Entry>, b: map<nat, Entry>)
    requires Sized(start) && LogOk(log) && start.sys == Image(WORD_SYS, log) && a == Live(log) - {0}
    requires AllCopying(h, n, m, start, System, Recycle)
    ensures forall i | n <= i < m :: Shows(h[i], a, b)
  {
    forall i | n <= i < m ensures Shows(h[i], a, b) {
      assert Copying(h[i], start, System, Recycle);
      SysShows(h[i], log);
    }
  }

  lemma NewMapShows(h: seq<Flash>, n: nat, m: nat, start: Flash, t: seq<Rec>, a: map<nat, Entry>, b: map<nat, Entry>)
    requires Sized(start) && LogOk(t) && start.rec == Image(WORD_SYS, t) && b == Live(t) - {0}
    requires AllCopying(h, n, m, start, Recycle, System)
    ensures forall i | n <= i < m :: Shows(h[i], a, b)
  {
    forall i | n <= i < m ensures Shows(h[i], a, b) {
      assert Copying(h[i], start, Recycle, System);
      RecShows(h[i], t);
    }
  }

  /** The flash once a copy is complete. */
  function Copied(f: Flash, src: Pno, dst: Pno, log: seq<Rec>, t: seq<Rec>): Flash
    requires LogOk(log) && LogOk(t)
  {
    WithPart(WithPart(f, dst, Image(WORD_SYS, t)), src, Image(if src == Recycle then WORD_BASE else WORD_SYS, log))
  }

  lemma ErasedCopying(start: Flash, src: Pno, dst: Pno)
    requires Sized(start) && src != dst
    ensures Copying(WithPart(start, dst, Erased(PART_SIZE)), start, src, dst)
  {
    assert WordOf(Erased(PART_SIZE))[0] == 255;
  }

  lemma StillCopying(f: Flash, start: Flash, src: Pno, dst: Pno, t: seq<Rec>)
    requires Sized(f) && src != dst && Part(f, src) == Part(start, src)
    requires LogOk(t) && Part(f, dst) == Image(InitWord(dst), t)
    ensures Copying(f, start, src, dst)
  {
    ImageWord(InitWord(dst), t);
    assert WORD_INVALID[1] != WORD_SYS[1];
  }

  lemma FreshFits(log: seq<Rec>, k: nat, r: Rec)
    requires LogOk(Compacted(log, k, [r]))
    ensures LogOk([r]) && End([]) == WORD && End([]) + RecSize(r) <= PART_SIZE && End([r]) == WORD + RecSize(r)
  {
    BodyConcat([r], ActivesBut(log, k));
    assert [r][1..] == [];
    assert Body([r]) == Encode(r) + [];
    assert Compacted(log, k, [r])[0] == r;
  }

  lemma CompactedStart(log: seq<Rec>, k: nat, added: seq<Rec>)
    ensures added == Compacted(log[..0], k, added)
  {
    assert log[..0] == [];
  }

  /** One more record of the source, and room for it. */
  lemma CompactedStep(log: seq<Rec>, i: nat, k: nat, added: seq<Rec>)
    requires LogOk(log) && i < |log| && LogOk(Compacted(log, k, added))
    ensures RecOk(log[i])
    ensures var a, b := Compacted(log[..i], k, added), Compacted(log[..i + 1], k, added);
      if log[i].flag == FLAG_ACTIVE && log[i].index != k then b == a + [log[i]] && End(a) + RecSize(log[i]) <= PART_SIZE
      else b == a
  {
    var a, b := Compacted(log[..i], k, added), Compacted(log[..i + 1], k, added);
    ActivesButSnoc(log, i, k);
    if log[i].flag == FLAG_ACTIVE && log[i].index != k {
      assert b == a + [log[i]];
      BodySnoc(a, log[i]);
      PrefixSize(log, i + 1, k);
      BodyConcat(added, ActivesBut(log[..i + 1], k));
      BodyConcat(added, ActivesBut(log, k));
    } else {
      assert ActivesBut(log[..i + 1], k) == ActivesBut(log[..i], k);
    }
  }

  lemma FirstIs(log: seq<Rec>, k: nat, i: nat)
    requires i <= |log| && (forall j | 0 <= j < i :: !IsActive(log[j], k)) && (i < |log| ==> IsActive(log[i], k))
    ensures FirstAt(log, k) == i
  {
  }

  lemma ReadsFront(log: seq<Rec>, i: nat, n: nat)
    requires LogOk(log) && i < |log| && n <= |log[i].data|
    ensures var at := End(log[..i]) + HEADER;
      at + n <= PART_SIZE && Image(WORD_SYS, log)[at..at + n] == log[i].data[..n]
  {
    ReadsHeader(WORD_SYS, log, i);
    FrontOf(Image(WORD_SYS, log), End(log[..i]) + HEADER, |log[i].data|, n);
  }

  /** What the count of the remaining room is after i records, the next of which starts at off. */
  ghost predicate Counted(log: seq<Rec>, i: nat, remain: int, off: int)
    requires i <= |log|
  {
    remain + ActiveBytes(log[..i]) == RELIABLE && off == End(log[..i])
  }

  lemma CountedStep(log: seq<Rec>, i: nat, remain: int, off: nat)
    requires i < |log| && Counted(log, i, remain, off) && ActiveBytes(log) <= RELIABLE
    requires off + RecSize(log[i]) == End(log[..i + 1])
    ensures
      Counted(log, i + 1, remain - (if log[i].flag == FLAG_ACTIVE then RecSize(log[i]) else 0), off + RecSize(log[i]))
    ensures log[i].flag == FLAG_ACTIVE ==> RecSize(log[i]) <= remain
  {
    ActiveSnoc(log, i);
  }

  lemma ActiveSnoc(log: seq<Rec>, i: nat)
    requires i < |log|
    ensures ActiveBytes(log[..i + 1]) ==
      ActiveBytes(log[..i]) + (if log[i].flag == FLAG_ACTIVE then RecSize(log[i]) else 0)
    ensures ActiveBytes(log[..i + 1]) <= ActiveBytes(log)
  {
    assert log[..i + 1] == log[..i] + [log[i]];
    ActiveBytesConcat(log[..i], [log[i]]);
    assert [log[i]][1..] == [];
    assert log == log[..i + 1] + log[i + 1..];
    ActiveBytesConcat(log[..i + 1], log[i + 1..]);
  }
}
