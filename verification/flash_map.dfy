/** What a record log means: the key-value map its first active records give. */
module FlashMap {
  import opened Basics
  import opened FlashLog

  datatype Entry = Entry(crc: nat, data: seq<Byte>)

  function EntryOf(r: Rec): Entry {
    Entry(r.crc, r.data)
  }

  /** The map of a log: the first active record of an index counts. */
  function Live(log: seq<Rec>): map<nat, Entry> {
    if log == [] then map[]
    else if log[0].flag == FLAG_ACTIVE then Live(log[1..])[log[0].index := EntryOf(log[0])]
    else Live(log[1..])
  }

  predicate IsActive(r: Rec, k: nat) {
    r.flag == FLAG_ACTIVE && r.index == k
  }

  /** Place of the first active record of an index, or the length of the log. */
  function FirstAt(log: seq<Rec>, k: nat): (i: nat)
    ensures i <= |log|
    ensures forall j | 0 <= j < i :: !IsActive(log[j], k)
    ensures i < |log| ==> IsActive(log[i], k)
  {
    if log == [] || IsActive(log[0], k) then 0 else 1 + FirstAt(log[1..], k)
  }

  function CountActive(log: seq<Rec>, k: nat): nat {
    if log == [] then 0 else (if IsActive(log[0], k) then 1 else 0) + CountActive(log[1..], k)
  }

  /** The active records of all other indices, in order: what compaction carries over. */
  function ActivesBut(log: seq<Rec>, k: nat): seq<Rec> {
    if log == [] then []
    else (if log[0].flag == FLAG_ACTIVE && log[0].index != k then [log[0]] else []) + ActivesBut(log[1..], k)
  }

  function RecSize(r: Rec): nat {
    HEADER + |r.data|
  }

  function ActiveBytes(log: seq<Rec>): nat {
    if log == [] then 0 else (if log[0].flag == FLAG_ACTIVE then RecSize(log[0]) else 0) + ActiveBytes(log[1..])
  }

  // ----- Concatenation -----

  lemma {:induction false} LiveConcat(a: seq<Rec>, b: seq<Rec>)
    ensures Live(a + b) == Live(b) + Live(a)
  {
    if a == [] {
      assert a + b == b;
    } else {
      assert (a + b)[1..] == a[1..] + b;
      LiveConcat(a[1..], b);
    }
  }

  lemma {:induction false} ActivesButConcat(a: seq<Rec>, b: seq<Rec>, k: nat)
    ensures ActivesBut(a + b, k) == ActivesBut(a, k) + ActivesBut(b, k)
  {
    if a == [] {
      assert a + b == b;
    } else {
      assert (a + b)[1..] == a[1..] + b;
      ActivesButConcat(a[1..], b, k);
    }
  }

  lemma ActivesButSnoc(log: seq<Rec>, i: nat, k: nat)
    requires i < |log|
    ensures ActivesBut(log[..i + 1], k)
         == ActivesBut(log[..i], k) + (if log[i].flag == FLAG_ACTIVE && log[i].index != k then [log[i]] else [])
  {
    assert log[..i + 1] == log[..i] + [log[i]];
    ActivesButConcat(log[..i], [log[i]], k);
    assert [log[i]][1..] == [];
  }

  lemma {:induction false} ActiveBytesConcat(a: seq<Rec>, b: seq<Rec>)
    ensures ActiveBytes(a + b) == ActiveBytes(a) + ActiveBytes(b)
  {
    if a == [] {
      assert a + b == b;
    } else {
      assert (a + b)[1..] == a[1..] + b;
      ActiveBytesConcat(a[1..], b);
    }
  }

  lemma {:induction false} CountConcat(a: seq<Rec>, b: seq<Rec>, k: nat)
    ensures CountActive(a + b, k) == CountActive(a, k) + CountActive(b, k)
  {
    if a == [] {
      assert a + b == b;
    } else {
      assert (a + b)[1..] == a[1..] + b;
      CountConcat(a[1..], b, k);
    }
  }

  // ----- Compaction -----

  /** Dropping an index, and everything inactive, drops exactly that key. */
  lemma {:induction false} CompactedMap(log: seq<Rec>, k: nat)
    ensures Live(ActivesBut(log, k)) == Live(log) - {k}
  {
    if log != [] {
      CompactedMap(log[1..], k);
      var rest := ActivesBut(log[1..], k);
      if log[0].flag == FLAG_ACTIVE && log[0].index != k {
        assert ([log[0]] + rest)[1..] == rest;
        assert ActivesBut(log, k) == [log[0]] + rest;
      } else {
        assert ActivesBut(log, k) == [] + rest == rest;
      }
    }
  }

  /** Compaction fits wherever the active records do. */
  lemma {:induction false} CompactedSize(log: seq<Rec>, k: nat)
    ensures |Body(ActivesBut(log, k))| <= ActiveBytes(log) <= |Body(log)|
  {
    if log != [] {
      CompactedSize(log[1..], k);
      var rest := ActivesBut(log[1..], k);
      if log[0].flag == FLAG_ACTIVE && log[0].index != k {
        BodyConcat([log[0]], rest);
        assert [log[0]][1..] == [];
      } else {
        assert ActivesBut(log, k) == rest;
      }
    }
  }

  lemma {:induction false} PrefixSize(log: seq<Rec>, i: nat, k: nat)
    requires i <= |log|
    ensures |Body(ActivesBut(log[..i], k))| <= |Body(ActivesBut(log, k))|
  {
    assert log == log[..i] + log[i..];
    ActivesButConcat(log[..i], log[i..], k);
    BodyConcat(ActivesBut(log[..i], k), ActivesBut(log[i..], k));
  }

  lemma {:induction false} ActivesOk(log: seq<Rec>, k: nat)
    requires forall i | 0 <= i < |log| :: RecOk(log[i])
    ensures forall r | r in ActivesBut(log, k) :: RecOk(r) && r.flag == FLAG_ACTIVE && r in log
    ensures forall i | 0 <= i < |ActivesBut(log, k)| :: RecOk(ActivesBut(log, k)[i])
  {
    if log != [] {
      assert RecOk(log[0]);
      ActivesOk(log[1..], k);
    }
  }

  /** Compaction keeps how often every other index is active, and forgets k. */
  lemma {:induction false} CompactedCount(log: seq<Rec>, k: nat, j: nat)
    ensures CountActive(ActivesBut(log, k), j) == if j == k then 0 else CountActive(log, j)
  {
    if log != [] {
      CompactedCount(log[1..], k, j);
      var rest := ActivesBut(log[1..], k);
      if log[0].flag == FLAG_ACTIVE && log[0].index != k {
        CountConcat([log[0]], rest, j);
        assert [log[0]][1..] == [];
      } else {
        assert ActivesBut(log, k) == rest;
      }
    }
  }

  // ----- Appending and retiring -----

  lemma LiveAppend(log: seq<Rec>, r: Rec)
    ensures Live(log + [r]) ==
      if r.flag == FLAG_ACTIVE && r.index !in Live(log) then Live(log)[r.index := EntryOf(r)] else Live(log)
  {
    LiveConcat(log, [r]);
    assert [r][1..] == [];
  }

  lemma {:induction false} LiveFirst(log: seq<Rec>, k: nat)
    ensures k in Live(log) <==> FirstAt(log, k) < |log|
    ensures k in Live(log) ==> Live(log)[k] == EntryOf(log[FirstAt(log, k)])
    ensures CountActive(log, k) > 0 <==> k in Live(log)
  {
    if log != [] {
      LiveFirst(log[1..], k);
    }
  }

  lemma LiveAround(p: seq<Rec>, x: Rec, z: seq<Rec>)
    ensures Live(p + [x] + z) == Live(z) + Live([x]) + Live(p)
    ensures ActiveBytes(p + [x] + z) == ActiveBytes(p) + ActiveBytes([x]) + ActiveBytes(z)
  {
    LiveConcat(p + [x], z);
    LiveConcat(p, [x]);
    ActiveBytesConcat(p + [x], z);
    ActiveBytesConcat(p, [x]);
  }

  lemma CountAround(p: seq<Rec>, x: Rec, z: seq<Rec>, k: nat)
    ensures CountActive(p + [x] + z, k) == CountActive(p, k) + (if IsActive(x, k) then 1 else 0) + CountActive(z, k)
  {
    CountConcat(p + [x], z, k);
    CountConcat(p, [x], k);
    assert [x][1..] == [];
  }

  /** The records with the first active one of k marked invalid. */
  function Retired(log: seq<Rec>, k: nat): seq<Rec> {
    var i := FirstAt(log, k);
    if i < |log| then log[i := log[i].(flag := FLAG_INVALID)] else log
  }

  lemma RetireAround(p: seq<Rec>, x: Rec, z: seq<Rec>, k: nat)
    requires k !in Live(p) && IsActive(x, k)
    ensures var a, b := Live(p + [x] + z), Live(p + [x.(flag := FLAG_INVALID)] + z);
      && b - {k} == a - {k}
      && (k in b <==> k in Live(z))
      && (k in Live(z) ==> b[k] == Live(z)[k])
      && ActiveBytes(p + [x.(flag := FLAG_INVALID)] + z) + RecSize(x) == ActiveBytes(p + [x] + z)
  {
    var y := x.(flag := FLAG_INVALID);
    LiveAround(p, x, z);
    LiveAround(p, y, z);
    assert [x][1..] == [] && [y][1..] == [];
    assert Live([y]) == map[] && Live([x]) == map[k := EntryOf(x)];
  }

  /** Clearing the flag of the first active record of k brings up the next one, if there is one. */
  lemma LiveRetire(log: seq<Rec>, k: nat)
    requires FirstAt(log, k) < |log|
    ensures var i := FirstAt(log, k); var r := Retired(log, k);
      && Live(r) - {k} == Live(log) - {k}
      && (k in Live(r) <==> k in Live(log[i + 1..]))
      && (k in Live(log[i + 1..]) ==> Live(r)[k] == Live(log[i + 1..])[k])
      && ActiveBytes(r) + RecSize(log[i]) == ActiveBytes(log)
  {
    var i := FirstAt(log, k);
    RetireSplit(log, k);
    RetireAround(log[..i], log[i], log[i + 1..], k);
  }

  /** The log around the first active record of k. */
  lemma RetireSplit(log: seq<Rec>, k: nat)
    requires FirstAt(log, k) < |log|
    ensures var i := FirstAt(log, k);
      && log == log[..i] + [log[i]] + log[i + 1..]
      && Retired(log, k) == log[..i] + [log[i].(flag := FLAG_INVALID)] + log[i + 1..]
      && k !in Live(log[..i]) && FirstAt(log[..i], k) == i
  {
    LiveFirst(log[..FirstAt(log, k)], k);
  }

  lemma CountRetire(log: seq<Rec>, k: nat, j: nat)
    requires FirstAt(log, k) < |log|
    ensures CountActive(log, k) == 1 + CountActive(log[FirstAt(log, k) + 1..], k)
    ensures CountActive(Retired(log, k), j) == CountActive(log, j) - (if j == k then 1 else 0)
  {
    var i := FirstAt(log, k);
    var x := log[i];
    assert log == log[..i] + [x] + log[i + 1..];
    assert Retired(log, k) == log[..i] + [x.(flag := FLAG_INVALID)] + log[i + 1..];
    CountAround(log[..i], x, log[i + 1..], j);
    CountAround(log[..i], x, log[i + 1..], k);
    CountAround(log[..i], x.(flag := FLAG_INVALID), log[i + 1..], j);
    LiveFirst(log[..i], k);
    assert FirstAt(log[..i], k) == i;
  }

  /** With at most one active record of k, retiring it removes the key and nothing else. */
  lemma RetireOnly(log: seq<Rec>, k: nat)
    requires CountActive(log, k) <= 1
    ensures Live(Retired(log, k)) == Live(log) - {k}
  {
    LiveFirst(log, k);
    if FirstAt(log, k) < |log| {
      LiveRetire(log, k);
      CountRetire(log, k, k);
      LiveFirst(log[FirstAt(log, k) + 1..], k);
    }
  }
}
