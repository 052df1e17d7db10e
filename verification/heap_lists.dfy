/**
 The segregated free lists of the heap (k_mm.c): doubly linked lists through the free
 blocks, one per power-of-two level, and the bitmap of levels that are not empty.
 */
module HeapLists {
  import opened Basics
  import opened HeapTiles

  datatype Link = Link(prev: Addr, next: Addr)

  datatype Lists = Lists(
    heads: seq<Addr>,          // freelist[]
    bits: seq<bool>,           // free_bitmap, least significant bit first
    link: map<Addr, Link>)     // the link words inside free blocks

  function At(fl: Lists, a: Addr): Link {
    if a in fl.link then fl.link[a] else Link(NULL, NULL)
  }

  function WithLink(fl: Lists, a: Addr, l: Link): (r: Lists)
    ensures r.heads == fl.heads && r.bits == fl.bits
    ensures At(r, a) == l && forall b | b != a :: At(r, b) == At(fl, b)
  {
    fl.(link := fl.link[a := l])
  }

  /** The links of a list, walked either way, and its ends. */
  ghost predicate Linked(fl: Lists, l: seq<Addr>) {
    forall i | 0 <= i < |l| :: LinkedAt(fl, l, i)
  }

  ghost predicate LinkedAt(fl: Lists, l: seq<Addr>, i: int) {
    0 <= i < |l| ==>
      At(fl, l[i]) == Link(if i == 0 then NULL else l[i - 1], if i + 1 == |l| then NULL else l[i + 1])
  }

  /** The list of a level holds exactly the blocks that F puts there. */
  ghost predicate ListOk(fl: Lists, l: seq<Addr>, f: map<Addr, nat>, k: nat)
    requires k < |fl.heads| == |fl.bits|
  {
    && NoDup(l) && Linked(fl, l)
    && (forall a: Addr :: a in l <==> a in f && f[a] == k)
    && fl.heads[k] == (if l == [] then NULL else l[0])
    && (fl.bits[k] <==> l != [])
  }

  /** The free lists hold the blocks of f, each on the list of its level only. */
  ghost predicate ListsOk(fl: Lists, ls: seq<seq<Addr>>, f: map<Addr, nat>) {
    && |fl.heads| == |fl.bits| == |ls|
    && (forall k: nat | k < |ls| :: ListOk(fl, ls[k], f, k))
    && (forall a | a in f :: f[a] < |ls|)
    && NULL !in f
  }

  // ----- k_mm_freelist_insert -----

  function Push(fl: Lists, a: Addr, k: nat): Lists
    requires k < |fl.heads| == |fl.bits|
  {
    var h := fl.heads[k];
    var b := WithLink(fl, a, Link(NULL, h));
    var c := if h != NULL then WithLink(b, h, At(b, h).(prev := a)) else b;
    c.(heads := c.heads[k := a], bits := c.bits[k := true])
  }

  lemma PushOk(fl: Lists, ls: seq<seq<Addr>>, f: map<Addr, nat>, a: Addr, k: nat)
    requires ListsOk(fl, ls, f) && a !in f && a != NULL && k < |ls|
    ensures ListsOk(Push(fl, a, k), ls[k := [a] + ls[k]], f[a := k])
  {
    var r, g := Push(fl, a, k), f[a := k];
    assert ListOk(fl, ls[k], f, k);
    PushList(fl, ls[k], f, a, k);
    forall j: nat | j < |ls| && j != k ensures ListOk(r, ls[j], g, j) {
      assert ListOk(fl, ls[j], f, j);
      OtherList(fl, r, ls[j], f, g, j);
    }
  }

  lemma PushList(fl: Lists, l: seq<Addr>, f: map<Addr, nat>, a: Addr, k: nat)
    requires k < |fl.heads| == |fl.bits| && ListOk(fl, l, f, k) && a !in f && a != NULL && NULL !in f
    ensures ListOk(Push(fl, a, k), [a] + l, f[a := k], k)
  {
    var r, n := Push(fl, a, k), [a] + l;
    assert a !in l && NULL !in l;
    forall i | 0 <= i < |n| ensures LinkedAt(r, n, i) {
      if i > 0 {
        assert n[i] == l[i - 1];
        assert LinkedAt(fl, l, i - 1);
        if i > 1 {
          assert l[i - 1] != l[0];
        }
      }
    }
  }

  /** Nothing about the members of another list has changed. */
  lemma OtherList(fl: Lists, r: Lists, l: seq<Addr>, f: map<Addr, nat>, g: map<Addr, nat>, k: nat)
    requires k < |fl.heads| == |fl.bits| && |r.heads| == |r.bits| == |fl.heads| && ListOk(fl, l, f, k)
    requires r.heads[k] == fl.heads[k] && r.bits[k] == fl.bits[k]
    requires forall a: Addr :: (a in g && g[a] == k) <==> (a in f && f[a] == k)
    requires forall a | a in l :: At(r, a) == At(fl, a)
    ensures ListOk(r, l, g, k)
  {
    forall i | 0 <= i < |l| ensures LinkedAt(r, l, i) {
      assert LinkedAt(fl, l, i);
      assert l[i] in l;
    }
  }

  // ----- k_mm_freelist_delete -----

  function Unlink(fl: Lists, a: Addr, k: nat): Lists
    requires k < |fl.heads| == |fl.bits|
  {
    var n := At(fl, a).next;
    var b := if n != NULL then WithLink(fl, n, At(fl, n).(prev := At(fl, a).prev)) else fl;
    var p := At(b, a).prev;
    var c := if p != NULL then WithLink(b, p, At(b, p).(next := At(b, a).next)) else b;
    var d := if c.heads[k] == a then
        c.(heads := c.heads[k := At(c, a).next], bits := if At(c, a).next == NULL then c.bits[k := false] else c.bits)
      else c;
    WithLink(d, a, Link(NULL, NULL))
  }

  lemma UnlinkOk(fl: Lists, ls: seq<seq<Addr>>, f: map<Addr, nat>, a: Addr)
    requires ListsOk(fl, ls, f) && a in f
    ensures exists i: nat | i < |ls[f[a]]| ::
      ls[f[a]][i] == a && ListsOk(Unlink(fl, a, f[a]), ls[f[a] := Cut(ls[f[a]], i)], f - {a})
  {
    var k := f[a];
    assert ListOk(fl, ls[k], f, k);
    var i: nat :| i < |ls[k]| && ls[k][i] == a;
    var r, g := Unlink(fl, a, k), f - {a};
    UnlinkList(fl, ls[k], f, k, i);
    forall j: nat | j < |ls| && j != k ensures ListOk(r, ls[j], g, j) {
      assert ListOk(fl, ls[j], f, j);
      UnlinkTouches(fl, ls[k], f, k, i);
      assert NULL !in ls[j];
      OtherList(fl, r, ls[j], f, g, j);
    }
  }

  function Cut(l: seq<Addr>, i: nat): seq<Addr>
    requires i < |l|
  {
    l[..i] + l[i + 1..]
  }

  /** The neighbours are joined to each other, and nothing else changes besides the removed block's own link. */
  lemma UnlinkLinks(fl: Lists, l: seq<Addr>, k: nat, i: nat)
    requires k < |fl.heads| == |fl.bits| && NoDup(l) && Linked(fl, l) && i < |l| && NULL !in l && fl.heads[k] == l[0]
    ensures i > 0 ==> At(Unlink(fl, l[i], k), l[i - 1]) == Link(At(fl, l[i - 1]).prev, After(l, i))
    ensures i + 1 < |l| ==> At(Unlink(fl, l[i], k), l[i + 1]) == Link(Before(l, i), At(fl, l[i + 1]).next)
    ensures forall b | b != l[i] && b != Before(l, i) && b != After(l, i) :: At(Unlink(fl, l[i], k), b) == At(fl, b)
    ensures Unlink(fl, l[i], k).heads == if i == 0 then fl.heads[k := After(l, i)] else fl.heads
    ensures Unlink(fl, l[i], k).bits == if i == 0 && |l| == 1 then fl.bits[k := false] else fl.bits
  {
    assert LinkedAt(fl, l, i);
    if i > 0 {
      assert l[i - 1] in l && l[i - 1] != l[i] && l[i] != l[0];
    }
    if i + 1 < |l| {
      assert l[i + 1] in l && l[i + 1] != l[i];
    }
  }

  function Before(l: seq<Addr>, i: nat): Addr
    requires i < |l|
  {
    if i == 0 then NULL else l[i - 1]
  }

  function After(l: seq<Addr>, i: nat): Addr
    requires i < |l|
  {
    if i + 1 == |l| then NULL else l[i + 1]
  }

  /** Only the neighbours' links change, besides the removed block's own. */
  lemma UnlinkTouches(fl: Lists, l: seq<Addr>, f: map<Addr, nat>, k: nat, i: nat)
    requires k < |fl.heads| == |fl.bits| && ListOk(fl, l, f, k) && i < |l| && NULL !in f
    ensures forall b: Addr | b !in l && b != NULL :: At(Unlink(fl, l[i], k), b) == At(fl, b)
    ensures |Unlink(fl, l[i], k).heads| == |Unlink(fl, l[i], k).bits| == |fl.heads|
    ensures forall j: nat | j < |fl.heads| && j != k ::
      Unlink(fl, l[i], k).heads[j] == fl.heads[j] && Unlink(fl, l[i], k).bits[j] == fl.bits[j]
  {
    assert l[i] in l && NULL !in l;
    if i > 0 {
      assert l[i - 1] in l;
    }
    if i + 1 < |l| {
      assert l[i + 1] in l;
    }
    UnlinkLinks(fl, l, k, i);
  }

  lemma CutLinkedAt(fl: Lists, l: seq<Addr>, k: nat, i: nat, j: nat)
    requires k < |fl.heads| == |fl.bits| && NoDup(l) && Linked(fl, l) && i < |l| && NULL !in l && fl.heads[k] == l[0]
    requires j < |l| - 1
    ensures LinkedAt(Unlink(fl, l[i], k), Cut(l, i), j)
  {
    UnlinkLinks(fl, l, k, i);
    var m := if j < i then j else j + 1;
    assert LinkedAt(fl, l, m);
    assert Cut(l, i)[j] == l[m] && l[m] in l;
  }

  lemma UnlinkList(fl: Lists, l: seq<Addr>, f: map<Addr, nat>, k: nat, i: nat)
    requires k < |fl.heads| == |fl.bits| && ListOk(fl, l, f, k) && i < |l| && NULL !in f
    ensures |Unlink(fl, l[i], k).heads| == |Unlink(fl, l[i], k).bits| == |fl.heads|
    ensures ListOk(Unlink(fl, l[i], k), Cut(l, i), f - {l[i]}, k)
  {
    var a, r, n := l[i], Unlink(fl, l[i], k), Cut(l, i);
    assert NULL !in l;
    UnlinkLinks(fl, l, k, i);
    forall j | 0 <= j < |n| ensures LinkedAt(r, n, j) {
      CutLinkedAt(fl, l, k, i, j);
    }
    forall b: Addr ensures b in n <==> b in l && b != a {
      CutMembers(l, i, b);
    }
  }

  lemma CutMembers(l: seq<Addr>, i: nat, b: Addr)
    requires NoDup(l) && i < |l|
    ensures b in Cut(l, i) <==> b in l && b != l[i]
  {
    if b in l && b != l[i] {
      var j :| 0 <= j < |l| && l[j] == b;
      assert Cut(l, i)[if j < i then j else j - 1] == b;
    }
  }
}
