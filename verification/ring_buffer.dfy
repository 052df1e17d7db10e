/**
 The ring buffer for records of any length (k_ringbuf.c, RINGBUF_TYPE_DYN): a length
 prefix and the data, either of which may be split at the end of the buffer.
 */
module RingBuffer {
  import opened Basics

  const PREFIX: nat := 4

  datatype Status = Success | Full | Empty | InvParam

  // ----- Records and bytes -----

  /** A length as it lies in memory, least significant byte first. */
  function LengthBytes(n: nat): (b: seq<Byte>)
    ensures |b| == PREFIX
  {
    [n % 256, n / 256 % 256, n / 65536 % 256, n / 16777216 % 256]
  }

  function LengthOf(b: seq<Byte>): (n: nat)
    requires |b| == PREFIX
  {
    var w: int, x: int, y: int, z: int := b[0], b[1], b[2], b[3];
    w + 256 * x + 65536 * y + 16777216 * z
  }

  lemma LengthRoundTrip(n: nat)
    requires n < 0x1_0000_0000
    ensures LengthOf(LengthBytes(n)) == n
  {
    var a := n / 256;
    var b := a / 256;
    assert n / 65536 == b && n / 16777216 == b / 256;
  }

  function Stored(r: seq<Byte>): (b: seq<Byte>)
    ensures |b| == PREFIX + |r|
  {
    LengthBytes(|r|) + r
  }

  /** The bytes of a queue of records, oldest first. */
  function Flat(rs: seq<seq<Byte>>): seq<Byte> {
    if rs == [] then [] else Stored(rs[0]) + Flat(rs[1..])
  }

  lemma {:induction false} FlatSnoc(rs: seq<seq<Byte>>, r: seq<Byte>)
    ensures Flat(rs + [r]) == Flat(rs) + Stored(r)
  {
    if rs == [] {
      assert rs + [r] == [r] && [r][1..] == [];
    } else {
      assert (rs + [r])[1..] == rs[1..] + [r];
      FlatSnoc(rs[1..], r);
    }
  }

  lemma Pieces(p: seq<Byte>, r: seq<Byte>, t: seq<Byte>)
    ensures var b := (p + r) + t;
      b[..|p|] == p && b[|p|..][..|r|] == r && b[|p|..][|r|..] == t
  {
    assert (p + r) + t == p + (r + t);
    assert (p + (r + t))[|p|..] == r + t;
  }

  /** The oldest record's length and data lead the bytes. */
  lemma FirstRecord(rs: seq<seq<Byte>>)
    requires rs != [] && forall r | r in rs :: Storable(r)
    ensures var b := Flat(rs); var n := |rs[0]|;
      && |b| >= PREFIX + n > PREFIX && LengthOf(b[..PREFIX]) == n
      && b[PREFIX..][..n] == rs[0] && b[PREFIX..][n..] == Flat(rs[1..])
    ensures forall r | r in rs[1..] :: Storable(r)
  {
    assert rs[0] in rs;
    LengthRoundTrip(|rs[0]|);
    Pieces(LengthBytes(|rs[0]|), rs[0], Flat(rs[1..]));
  }

  ghost predicate Storable(r: seq<Byte>) {
    0 < |r| < 0xFFFF_FFFF
  }

  /** The tests ringbuf_push begins with, in the arithmetic of a 32-bit size_t. */
  function Admit(freesize: nat, len: nat): Status {
    if len == 0 || len >= 0xFFFF_FFFF then InvParam
    else if freesize < (PREFIX + len) % 0x1_0000_0000 then Full
    else Success
  }

  /** They tell whether there is room exactly for lengths below 0xFFFF_FFFC; the three above wrap around and pass. */
  lemma AdmitExact(freesize: nat, len: nat)
    requires 0 < len < 0x1_0000_0000 && 2 < freesize < 0x1_0000_0000
    ensures (Admit(freesize, len) == Success <==> PREFIX + len <= freesize) <==> len < 0xFFFF_FFFC || len == 0xFFFF_FFFF
  {
    if len >= 0xFFFF_FFFC {
      assert (PREFIX + len) % 0x1_0000_0000 == PREFIX + len - 0x1_0000_0000;
    }
  }

  // ----- Positions -----

  /** Tail is `used` places behind head, either of them resting at the end or at the start. */
  ghost predicate Placed(cap: nat, head: nat, tail: nat, used: nat) {
    && 0 < cap && head <= cap && tail <= cap && used <= cap
    && (tail == head + used || tail + cap == head + used || tail + 2 * cap == head + used || tail == head + used + cap)
  }

  /** The place of the i-th used byte. */
  function Place(cap: nat, head: nat, i: nat): nat
    requires head <= cap && cap > 0
  {
    if head + i < cap then head + i else if head + i < 2 * cap then head + i - cap else head + i - 2 * cap
  }

  lemma TailPlace(cap: nat, head: nat, tail: nat, used: nat, i: nat)
    requires Placed(cap, head, tail, used) && used + i < cap && tail + i < cap
    ensures Place(cap, head, used + i) == tail + i
  {
  }

  lemma HeadPlace(cap: nat, head: nat, n: nat, i: nat)
    requires head + n <= cap && 0 < cap && n + i < cap
    ensures Place(cap, head + n, i) == Place(cap, head, n + i)
  {
  }

  /** No used byte lies where the next n go. */
  lemma UsedElsewhere(cap: nat, head: nat, tail: nat, used: nat, i: nat, n: nat)
    requires Placed(cap, head, tail, used) && i < used && used + n <= cap && tail + n <= cap
    ensures Place(cap, head, i) < cap && !(tail <= Place(cap, head, i) < tail + n)
  {
  }

  class Ring {
    const buf: array<Byte>
    var head: nat
    var tail: nat
    var freesize: nat

    ghost predicate Valid()
      reads this
    {
      freesize <= buf.Length && Placed(buf.Length, head, tail, buf.Length - freesize)
    }

    /** The used bytes in order. */
    ghost function Bytes(): (s: seq<Byte>)
      reads this, buf
      requires Valid()
      ensures |s| == buf.Length - freesize
    {
      seq(buf.Length - freesize, i requires 0 <= i < buf.Length - freesize reads this, buf requires Valid() =>
        PlaceBound(buf.Length, head, i);
        buf[Place(buf.Length, head, i)])
    }

    /** The buffer refines a queue of byte strings. */
    ghost predicate Holds(rs: seq<seq<Byte>>)
      reads this, buf
    {
      Valid() && Bytes() == Flat(rs) && forall r | r in rs :: Storable(r)
    }

    constructor (len: nat)
      requires len > 0
      ensures Holds([]) && buf.Length == len && freesize == len && fresh(buf)
    {
      buf := new Byte[len](i => 0);
      head, tail, freesize := 0, 0, len;
    }

    /** memcpy to the tail; the bytes must fit before the end. */
    method CopyIn(data: seq<Byte>)
      requires Valid() && tail + |data| <= buf.Length && |data| <= freesize
      modifies this`tail, this`freesize, buf
      ensures Valid() && Bytes() == old(Bytes()) + data
      ensures freesize == old(freesize) - |data| && tail == old(tail) + |data|
    {
      ghost var was := Bytes();
      forall i | 0 <= i < |data| {
        buf[tail + i] := data[i];
      }
      ghost var used, at := buf.Length - freesize, tail;
      tail := tail + |data|;
      freesize := freesize - |data|;
      forall i | 0 <= i < used + |data| ensures Bytes()[i] == (was + data)[i] {
        if i < used {
          UsedElsewhere(buf.Length, head, at, used, i, |data|);
        } else {
          TailPlace(buf.Length, head, at, used, i - used);
        }
      }
      assert Bytes() == was + data;
    }

    /** memcpy from the head; the bytes must lie before the end. */
    method CopyOut(n: nat) returns (data: seq<Byte>)
      requires Valid() && head + n <= buf.Length && n <= buf.Length - freesize
      modifies this`head, this`freesize
      ensures Valid() && data == old(Bytes())[..n] && Bytes() == old(Bytes())[n..]
      ensures freesize == old(freesize) + n && head == old(head) + n
    {
      ghost var was, at := Bytes(), head;
      data := buf[head..head + n];
      head := head + n;
      freesize := freesize + n;
      forall i | 0 <= i < n ensures data[i] == was[i] {}
      assert data == was[..n];
      forall i | 0 <= i < |was| - n ensures Bytes()[i] == was[n..][i] {
        HeadPlace(buf.Length, at, n, i);
      }
      assert Bytes() == was[n..];
    }

    /** A tail resting at the end moves to the start. */
    method WrapTail()
      requires Valid()
      modifies this`tail
      ensures Valid() && Bytes() == old(Bytes()) && tail < buf.Length && (old(tail) < buf.Length ==> tail == old(tail))
    {
      if tail == buf.Length {
        tail := 0;
      }
      assert Bytes() == old(Bytes());
    }

    /** A head resting at the end moves to the start. */
    method WrapHead()
      requires Valid()
      modifies this`head
      ensures Valid() && Bytes() == old(Bytes()) && head < buf.Length && (old(head) < buf.Length ==> head == old(head))
    {
      ghost var was := Bytes();
      if head == buf.Length {
        head := 0;
      }
      assert Bytes() == was;
    }

    /** Copy a chunk to the tail, in two pieces when the end is in the way. */
    method PushChunk(data: seq<Byte>)
      requires Valid() && 0 < |data| <= freesize && tail < buf.Length
      modifies this`tail, this`freesize, buf
      ensures Valid() && Bytes() == old(Bytes()) + data && freesize == old(freesize) - |data|
    {
      var rest := data;
      var split := buf.Length - tail;
      if tail >= head && split < |data| && split > 0 {
        CopyIn(data[..split]);
        rest := data[split..];
        assert data == data[..split] + rest;
        WrapTail();
      }
      CopyIn(rest);
    }

    /** ringbuf_push, RINGBUF_TYPE_DYN; the length and its prefix fit into a size_t. */
    method Push(data: seq<Byte>, ghost rs: seq<seq<Byte>>) returns (status: Status)
      requires Holds(rs) && |data| + PREFIX < 0x1_0000_0000
      modifies this`tail, this`freesize, buf
      ensures status == if |data| == 0 then InvParam else if old(freesize) < PREFIX + |data| then Full else Success
      ensures Holds(if status == Success then rs + [data] else rs)
      ensures freesize == old(freesize) - (if status == Success then PREFIX + |data| else 0)
    {
      status := Admit(freesize, |data|);
      if status != Success {
        return;
      }
      FlatSnoc(rs, data);
      WrapTail();
      PushChunk(LengthBytes(|data|));
      WrapTail();
      PushChunk(data);
      assert Bytes() == Flat(rs) + Stored(data);
      return Success;
    }

    /** The length prefix of the oldest record, whole or in two pieces. */
    method PopPrefix() returns (b: seq<Byte>)
      requires Valid() && head < buf.Length && PREFIX <= buf.Length - freesize
      modifies this`head, this`freesize
      ensures Valid() && |b| == PREFIX && b == old(Bytes())[..PREFIX] && Bytes() == old(Bytes())[PREFIX..]
      ensures freesize == old(freesize) + PREFIX
    {
      ghost var was := Bytes();
      var split := buf.Length - head;
      b := [];
      if split < PREFIX && split > 0 {
        b := CopyOut(split);
        WrapHead();
      } else {
        split := 0;
      }
      if PREFIX - split > 0 {
        var more := CopyOut(PREFIX - split);
        b := b + more;
      }
      assert was[split..][PREFIX - split..] == was[PREFIX..];
      assert was[..PREFIX] == was[..split] + was[split..][..PREFIX - split];
    }

    /** The data of the oldest record, whole or in two pieces. */
    method PopData(len: nat) returns (data: seq<Byte>)
      requires Valid() && head < buf.Length && 0 < len <= buf.Length - freesize && freesize > 0
      modifies this`head, this`freesize
      ensures Valid() && data == old(Bytes())[..len] && Bytes() == old(Bytes())[len..]
      ensures freesize == old(freesize) + len
    {
      ghost var was := Bytes();
      var left := len;
      var split := buf.Length - head;
      data := [];
      if head > tail && split < len {
        data := CopyOut(split);
        left := len - split;
        WrapHead();
      } else {
        split := 0;
      }
      var more := CopyOut(left);
      data := data + more;
      assert was[split..][left..] == was[len..];
      assert was[..len] == was[..split] + was[split..][..left];
    }

    /** ringbuf_pop, RINGBUF_TYPE_DYN. */
    method Pop(ghost rs: seq<seq<Byte>>) returns (status: Status, data: seq<Byte>)
      requires Holds(rs)
      modifies this`head, this`freesize
      ensures rs == [] ==> status == Empty && Holds(rs) && freesize == old(freesize)
      ensures rs != [] ==> status == Success && data == rs[0] && Holds(rs[1..])
      ensures rs != [] ==> freesize == old(freesize) + PREFIX + |data|
    {
      data := [];
      var empty := IsEmpty(rs);
      if empty {
        return Empty, data;
      }
      FirstRecord(rs);
      WrapHead();
      var prefix := PopPrefix();
      var len := LengthOf(prefix);
      WrapHead();
      data := PopData(len);
      return Success, data;
    }

    /** ringbuf_reset. */
    method Reset()
      requires Valid()
      modifies this
      ensures Holds([]) && freesize == buf.Length
    {
      head, tail, freesize := 0, 0, buf.Length;
    }

    /** ringbuf_is_empty. */
    method IsEmpty(ghost rs: seq<seq<Byte>>) returns (empty: bool)
      requires Holds(rs)
      ensures empty <==> rs == []
    {
      empty := freesize == buf.Length;
      if rs != [] {
        assert |Flat(rs)| >= PREFIX;
      }
    }
  }

  lemma PlaceBound(cap: nat, head: nat, i: nat)
    requires 0 < cap && head <= cap && i < cap
    ensures Place(cap, head, i) < cap
  {
  }
}
