/** The Kernighan and Ritchie allocator of project1/umalloc.c. */
module Umalloc {
  import opened FreeList

  const UINT := 0x1_0000_0000
  const HEADER := 8  // sizeof(Header)

  /** `(nbytes + sizeof(Header) - 1)/sizeof(Header) + 1` in 32-bit arithmetic. */
  function UnitsFor(nbytes: nat): (n: nat)
    ensures n >= 1
  {
    (nbytes + HEADER - 1) % UINT / HEADER + 1
  }

  /** The units asked for hold the bytes asked for exactly if the sum did not wrap around. */
  lemma {:induction false} UnitsEnough(nbytes: nat)
    requires nbytes < UINT
    ensures (UnitsFor(nbytes) - 1) * HEADER >= nbytes <==> nbytes <= UINT - HEADER
  {
  }

  /** And no fewer do. */
  lemma {:induction false} UnitsLeast(nbytes: nat, n: nat)
    requires nbytes <= UINT - HEADER && n >= 1 && (n - 1) * HEADER >= nbytes
    ensures UnitsFor(nbytes) <= n
  {
  }

  lemma {:induction false} UnitsBound(nbytes: nat)
    ensures UnitsFor(nbytes) <= UINT / HEADER
  {
  }

  // ---------------------------------------------------------------- the state

  ghost predicate InLive(live: map<nat, nat>, u: nat) {
    exists a :: a in live && a <= u < a + live[a]
  }

  /** Blocks handed out: their headers hold their sizes, and they do not overlap. */
  ghost predicate LiveOk(mem: Memory, live: map<nat, nat>) {
    && (forall a :: a in live ==> live[a] >= 1 && a in mem && mem[a].size == live[a])
    && (forall a, b :: a in live && b in live && a != b ==> a + live[a] <= b || b + live[b] <= a)
  }

  /** Every unit obtained from sbrk is in exactly one free or live block. */
  ghost predicate Partition(fl: seq<Blk>, live: map<nat, nat>, arena: set<nat>) {
    && (forall u: nat :: u in arena <==> InFree(fl, u) || InLive(live, u))
    && (forall u: nat :: !(InFree(fl, u) && InLive(live, u)))
  }

  ghost predicate Sound(base: nat, mem: Memory, fl: seq<Blk>, live: map<nat, nat>, arena: set<nat>, top: nat) {
    && Ordered(base, fl) && Apart(fl) && Linked(mem, fl)
    && LiveOk(mem, live) && Partition(fl, live, arena)
    && forall u: nat :: u in arena ==> base < u < top
  }

  // ---------------------------------------------------------------- freeing

  /** Entry `i` merged with the next if they touch. */
  function Touched(fl: seq<Blk>, i: nat): seq<Blk> {
    if i + 1 < |fl| && End(fl[i]) == fl[i + 1].a then Merged(fl, i) else fl
  }

  /** The list after `b` is freed: linked in at its place, merged with the block above and then
      with the block below. */
  function Freed(fl: seq<Blk>, b: Blk): seq<Blk>
    requires fl != [] && fl[0].a < b.a
  {
    var j := Place(fl, b.a);
    Touched(Touched(Inserted(fl, j, b), j + 1), j)
  }

  lemma {:induction false} Distinct(base: nat, fl: seq<Blk>)
    requires Ordered(base, fl)
    ensures forall i, k :: 0 <= i < k < |fl| ==> fl[i].a != fl[k].a
  {
  }

  /** The place of a live block: after the entry below it and before the entry above it. */
  lemma {:induction false} PlaceFits(base: nat, mem: Memory, fl: seq<Blk>, live: map<nat, nat>, arena: set<nat>,
        top: nat, a: nat)
    requires Sound(base, mem, fl, live, arena, top) && a in live
    ensures base < a && fl[0].a < a && live[a] >= 1
    ensures var j := Place(fl, a);
      End(fl[j]) <= a && (j + 1 < |fl| ==> a + live[a] <= fl[j + 1].a) && forall i :: 0 <= i < |fl| ==> fl[i].a != a
  {
    hide Place, Linked, Apart;
    assert InLive(live, a) && a in arena;
    var j := Place(fl, a);
    assert End(fl[j]) > a ==> InFree(fl, a);
    assert j + 1 < |fl| ==> fl[j + 1].n > 0 && InFree(fl, fl[j + 1].a);
    assert j + 1 < |fl| && a <= fl[j + 1].a < a + live[a] ==> InLive(live, fl[j + 1].a);
    forall i | 0 <= i < |fl|
      ensures fl[i].a != a
    {
      assert i > 0 ==> InFree(fl, fl[i].a);
    }
  }

  lemma {:induction false} TouchedUnits(fl: seq<Blk>, i: nat, u: nat)
    ensures InFree(Touched(fl, i), u) <==> InFree(fl, u)
  {
    if i + 1 < |fl| && End(fl[i]) == fl[i + 1].a {
      MergeUnits(fl, i, u);
    }
  }

  /** Merging at the two places where a list may touch makes it clean. */
  lemma {:induction false} TouchedUp(base: nat, fl: seq<Blk>, j: nat)
    requires Ordered(base, fl) && j + 1 < |fl| && ApartBut(fl, j, j + 1)
    ensures var g := Touched(fl, j + 1);
      && Ordered(base, g) && ApartBut(g, j, j) && j + 1 < |g| && g[j] == fl[j] && g[j + 1].a == fl[j + 1].a
  {
    hide Ordered;
    if j + 2 < |fl| && End(fl[j + 1]) == fl[j + 2].a {
      MergeOrdered(base, fl, j + 1);
      MergeApart(fl, j + 1);
    } else {
      InOrder(base, fl, j + 1);
    }
  }

  lemma {:induction false} TouchedDown(base: nat, fl: seq<Blk>, j: nat)
    requires Ordered(base, fl) && j + 1 < |fl| && ApartBut(fl, j, j)
    ensures Ordered(base, Touched(fl, j)) && Apart(Touched(fl, j))
  {
    InOrder(base, fl, j);
    hide Ordered;
    if End(fl[j]) == fl[j + 1].a {
      MergeOrdered(base, fl, j);
      MergeApart(fl, j);
    }
  }

  lemma {:induction false} InOrder(base: nat, fl: seq<Blk>, j: nat)
    requires Ordered(base, fl) && j < |fl|
    ensures j + 1 < |fl| ==> End(fl[j]) <= fl[j + 1].a
    ensures j == 0 && j + 1 < |fl| ==> End(fl[j]) < fl[j + 1].a
  {
  }

  lemma {:induction false} FreedOrdered(base: nat, fl: seq<Blk>, b: Blk)
    requires Ordered(base, fl) && Apart(fl) && base < b.a && b.n > 0
    requires var j := Place(fl, b.a); End(fl[j]) <= b.a && (j + 1 < |fl| ==> End(b) <= fl[j + 1].a)
    ensures Ordered(base, Freed(fl, b)) && Apart(Freed(fl, b))
  {
    hide ApartBut, InFree, Touched;
    var j := Place(fl, b.a);
    InsertOrdered(base, fl, j, b);
    TouchedUp(base, Inserted(fl, j, b), j);
    TouchedDown(base, Touched(Inserted(fl, j, b), j + 1), j);
  }

  lemma {:induction false} FreedUnits(fl: seq<Blk>, b: Blk, u: nat)
    requires fl != [] && fl[0].a < b.a
    ensures InFree(Freed(fl, b), u) <==> InFree(fl, u) || b.a <= u < End(b)
  {
    hide InFree, Touched;
    var j := Place(fl, b.a);
    InsertUnits(fl, j, b, u);
    TouchedUnits(Inserted(fl, j, b), j + 1, u);
    TouchedUnits(Touched(Inserted(fl, j, b), j + 1), j, u);
  }

  /** The new header of the freed block, after the first branch of free. */
  function NewHeader(mem: Memory, p: nat, bp: nat): Header
    requires p in mem && bp in mem && mem[p].ptr in mem
  {
    var next := mem[p].ptr;
    if bp + mem[bp].size == next then Header(mem[next].ptr, mem[bp].size + mem[next].size)
    else Header(next, mem[bp].size)
  }

  /** Memory after the two branches of free: first `bp`'s header, then its neighbour `p`'s. */
  function FreedMemory(mem: Memory, p: nat, bp: nat): (r: Memory)
    requires p in mem && bp in mem && mem[p].ptr in mem
  {
    var h := NewHeader(mem, p, bp);
    var m := mem[bp := h];
    m[p := if p + m[p].size == bp then Header(h.ptr, m[p].size + h.size) else Header(bp, m[p].size)]
  }

  lemma {:induction false} TouchedLinked(mem: Memory, fl: seq<Blk>, i: nat)
    requires Linked(mem, fl) && forall j, k :: 0 <= j < k < |fl| ==> fl[j].a != fl[k].a
    ensures i + 1 < |fl| && End(fl[i]) == fl[i + 1].a ==>
      Linked(mem[fl[i].a := Header(NextOf(fl, i + 1), fl[i].n + fl[i + 1].n)], Touched(fl, i))
    ensures !(i + 1 < |fl| && End(fl[i]) == fl[i + 1].a) ==> Linked(mem, Touched(fl, i))
  {
    if i + 1 < |fl| && End(fl[i]) == fl[i + 1].a {
      MergeLinked(mem, fl, i);
    }
  }

  lemma {:induction false} LinkedUpMaps(mem: Memory, f: seq<Blk>, i: nat, p: nat, pn: nat, b: Blk, next: nat, h: Header)
    requires Linked(mem[b.a := Header(next, b.n)][p := Header(b.a, pn)], f)
    requires forall j, k :: 0 <= j < k < |f| ==> f[j].a != f[k].a
    requires i < |f| && f[i] == b && b.a != p
    requires h ==
      if i + 1 < |f| && End(b) == f[i + 1].a then Header(NextOf(f, i + 1), b.n + f[i + 1].n) else Header(next, b.n)
    ensures Linked(mem[b.a := h][p := Header(b.a, pn)], Touched(f, i))
  {
    hide Linked, NextOf, Touched;
    var m1 := mem[b.a := Header(next, b.n)][p := Header(b.a, pn)];
    TouchedLinked(m1, f, i);
    assert m1[b.a := h] == mem[b.a := h][p := Header(b.a, pn)];
  }

  /** With that header, and the block linked in, memory links the list merged upwards. */
  lemma {:induction false} LinkedUp(base: nat, mem: Memory, fl: seq<Blk>, b: Blk, j: nat)
    requires Ordered(base, fl) && Apart(fl) && Linked(mem, fl) && base < b.a && b.n > 0 && j < |fl|
    requires b.a in mem && mem[b.a].size == b.n && fl[j].a < b.a
    requires End(fl[j]) <= b.a && (j + 1 < |fl| ==> End(b) <= fl[j + 1].a)
    requires forall i :: 0 <= i < |fl| ==> fl[i].a != b.a
    ensures fl[j].a in mem && mem[fl[j].a] == Header(NextOf(fl, j), fl[j].n) && NextOf(fl, j) in mem
    ensures Linked(mem[b.a := NewHeader(mem, fl[j].a, b.a)][fl[j].a := Header(b.a, fl[j].n)],
      Touched(Inserted(fl, j, b), j + 1))
  {
    hide Touched, ApartBut;
    UpHeader(base, mem, fl, j, b);
    InsertOrdered(base, fl, j, b);
    Distinct(base, fl);
    Distinct(base, Inserted(fl, j, b));
    InsertLinked(mem, fl, j, b);
    LinkAt(mem, fl, j);
    InsertedEntry(fl, j, b, j);
    InsertedEntry(fl, j, b, j + 1);
    hide Linked, Inserted, Ordered, NextOf;
    LinkedUpMaps(mem, Inserted(fl, j, b), j + 1, fl[j].a, fl[j].n, b, NextOf(fl, j), NewHeader(mem, fl[j].a, b.a));
  }

  lemma {:induction false} LinkAt(mem: Memory, fl: seq<Blk>, j: nat)
    requires Linked(mem, fl) && j < |fl|
    ensures fl[j].a in mem && mem[fl[j].a] == Header(NextOf(fl, j), fl[j].n)
  {
  }

  lemma {:induction false} LinkedDownMaps(mem: Memory, f: seq<Blk>, j: nat, low: Blk, b: Blk, h: Header)
    requires Linked(mem[b.a := h][low.a := Header(b.a, low.n)], f)
    requires forall i, k :: 0 <= i < k < |f| ==> f[i].a != f[k].a
    requires j + 1 < |f| && f[j] == low && f[j + 1].a == b.a && b.a != low.a
    ensures
      var g := if End(low) == b.a then Header(h.ptr, low.n + h.size) else Header(b.a, low.n);
      Linked(mem[b.a := h][low.a := g], Touched(f, j))
  {
    hide Linked, NextOf, Touched;
    var m2 := mem[b.a := h][low.a := Header(b.a, low.n)];
    TouchedLinked(m2, f, j);
    DownHeader(f, j, h, m2);
    assert End(low) == b.a ==>
      m2[low.a := Header(h.ptr, low.n + h.size)] == mem[b.a := h][low.a := Header(h.ptr, low.n + h.size)];
  }

  lemma {:induction false} DownHeader(f: seq<Blk>, j: nat, h: Header, mem: Memory)
    requires Linked(mem, f) && j + 1 < |f| && f[j + 1].a in mem && mem[f[j + 1].a] == h
    ensures h == Header(NextOf(f, j + 1), f[j + 1].n)
  {
  }

  /** The headers free writes link the new list. */
  lemma {:induction false} FreedLinked(base: nat, mem: Memory, fl: seq<Blk>, b: Blk)
    requires Ordered(base, fl) && Apart(fl) && Linked(mem, fl) && base < b.a && b.n > 0
    requires b.a in mem && mem[b.a].size == b.n
    requires var j := Place(fl, b.a); End(fl[j]) <= b.a && (j + 1 < |fl| ==> End(b) <= fl[j + 1].a)
    requires forall i :: 0 <= i < |fl| ==> fl[i].a != b.a
    ensures var p := fl[Place(fl, b.a)].a;
      p in mem && mem[p].ptr in mem && Linked(FreedMemory(mem, p, b.a), Freed(fl, b))
  {
    hide Touched, ApartBut, Inserted, NextOf;
    var j := Place(fl, b.a);
    var f1 := Inserted(fl, j, b);
    LinkedUp(base, mem, fl, b, j);
    InsertOrdered(base, fl, j, b);
    InsertedEntry(fl, j, b, j);
    InsertedEntry(fl, j, b, j + 1);
    TouchedUp(base, f1, j);
    Distinct(base, Touched(f1, j + 1));
    hide Linked, Ordered;
    LinkedDownMaps(mem, Touched(f1, j + 1), j, fl[j], b, NewHeader(mem, fl[j].a, b.a));
  }

  /** free tests `bp + bp->s.size == p->s.ptr`; around the end of the circle it never holds. */
  lemma {:induction false} UpHeader(base: nat, mem: Memory, fl: seq<Blk>, j: nat, b: Blk)
    requires Ordered(base, fl) && Linked(mem, fl) && j < |fl| && base < b.a
    ensures var next, f1 := NextOf(fl, j), Inserted(fl, j, b);
      && next in mem && |f1| == |fl| + 1
      && (End(b) == next <==> j + 2 < |f1| && End(b) == f1[j + 2].a)
      && (End(b) == next ==> mem[next] == Header(NextOf(f1, j + 2), f1[j + 2].n))
  {
  }

  lemma {:induction false} LiveLess(mem: Memory, live: map<nat, nat>, a: nat, u: nat)
    requires LiveOk(mem, live) && a in live
    ensures InLive(live - {a}, u) <==> InLive(live, u) && !(a <= u < a + live[a])
  {
    var rest := live - {a};
    if b :| b in live && b != a && b <= u < b + live[b] {
      assert b in rest && rest[b] == live[b];
    }
  }

  lemma {:induction false} LiveMore(live: map<nat, nat>, a: nat, n: nat, u: nat)
    requires a !in live
    ensures InLive(live[a := n], u) <==> InLive(live, u) || a <= u < a + n
  {
    var more := live[a := n];
    if InLive(live, u) {
      var b :| b in live && b <= u < b + live[b];
      assert b in more && more[b] == live[b];
    }
    if a <= u < a + n {
      assert a in more && more[a] == n;
    }
  }

  lemma {:induction false} PartitionTake(mem: Memory, fl: seq<Blk>, fl': seq<Blk>, live: map<nat, nat>,
        arena: set<nat>, a: nat)
    requires LiveOk(mem, live) && Partition(fl, live, arena) && a in live
    requires forall u: nat :: InFree(fl', u) <==> InFree(fl, u) || a <= u < a + live[a]
    ensures Partition(fl', live - {a}, arena)
  {
    hide InFree;
    forall u: nat
      ensures InLive(live - {a}, u) <==> InLive(live, u) && !(a <= u < a + live[a])
    {
      LiveLess(mem, live, a, u);
    }
    forall u: nat | a <= u < a + live[a]
      ensures InLive(live, u)
    {
    }
    hide InLive;
  }

  lemma {:induction false} PartitionGive(fl: seq<Blk>, fl': seq<Blk>, live: map<nat, nat>, arena: set<nat>, a: nat,
        n: nat)
    requires Partition(fl, live, arena) && a !in live
    requires forall u: nat :: InFree(fl', u) <==> InFree(fl, u) && !(a <= u < a + n)
    requires forall u: nat :: a <= u < a + n ==> InFree(fl, u)
    ensures Partition(fl', live[a := n], arena)
  {
    hide InFree, InLive;
    forall u: nat
      ensures InLive(live[a := n], u) <==> InLive(live, u) || a <= u < a + n
    {
      LiveMore(live, a, n, u);
    }
  }

  lemma {:induction false} LiveGive(mem: Memory, mem': Memory, live: map<nat, nat>, a: nat, n: nat)
    requires LiveOk(mem, live) && a !in live && n >= 1 && a in mem' && mem'[a].size == n
    requires forall b :: b in live ==> b in mem' && mem'[b].size == mem[b].size
    requires forall b :: b in live ==> a + n <= b || b + live[b] <= a
    ensures LiveOk(mem', live[a := n])
  {
  }

  lemma {:induction false} LiveTake(mem: Memory, mem': Memory, live: map<nat, nat>, a: nat)
    requires LiveOk(mem, live) && a in live
    requires forall b :: b in live && b != a ==> b in mem' && mem'[b].size == mem[b].size
    ensures LiveOk(mem', live - {a})
  {
  }

  /** Units that are free are in no live block. */
  lemma {:induction false} LiveApart(mem: Memory, fl: seq<Blk>, live: map<nat, nat>, arena: set<nat>, a: nat, n: nat)
    requires LiveOk(mem, live) && Partition(fl, live, arena) && n > 0
    requires forall u: nat :: a <= u < a + n ==> InFree(fl, u)
    ensures a !in live && forall b :: b in live ==> a + n <= b || b + live[b] <= a
  {
    hide InFree;
    assert InFree(fl, a);
    forall b | b in live
      ensures a != b && (a + n <= b || b + live[b] <= a)
    {
      var u := if a <= b then b else a;
      assert b <= u < b + live[b] ==> InLive(live, u);
      assert a <= u < a + n ==> InFree(fl, u);
    }
  }

  // ---------------------------------------------------------------- the invariant through each operation

  /** No free block, nor `base`, is the header of a live block. */
  lemma {:induction false} FreeNotLive(base: nat, mem: Memory, fl: seq<Blk>, live: map<nat, nat>, arena: set<nat>,
        top: nat)
    requires Sound(base, mem, fl, live, arena, top)
    ensures forall i :: 0 <= i < |fl| ==> fl[i].a !in live
  {
    hide Linked, ApartBut;
    forall i, a | 0 <= i < |fl| && a in live
      ensures fl[i].a != a
    {
      assert InLive(live, a);
      assert i > 0 && fl[i].a == a ==> InFree(fl, a);
    }
  }

  /** free keeps the invariant. */
  lemma {:induction false} FreeSound(base: nat, mem: Memory, fl: seq<Blk>, live: map<nat, nat>, arena: set<nat>,
        top: nat, a: nat)
    requires Sound(base, mem, fl, live, arena, top) && a in live
    ensures fl[0].a < a
    ensures var p := fl[Place(fl, a)].a;
      && p in mem && mem[p].ptr in mem
      && Sound(base, FreedMemory(mem, p, a), Freed(fl, Blk(a, live[a])), live - {a}, arena, top)
  {
    hide Linked, Ordered, ApartBut, Freed, Place, InFree, InLive, Partition;
    var b := Blk(a, live[a]);
    PlaceFits(base, mem, fl, live, arena, top, a);
    FreedOrdered(base, fl, b);
    FreedLinked(base, mem, fl, b);
    FreeNotLive(base, mem, fl, live, arena, top);
    forall u: nat
      ensures InFree(Freed(fl, b), u) <==> InFree(fl, u) || a <= u < a + live[a]
    {
      FreedUnits(fl, b, u);
    }
    PartitionTake(mem, fl, Freed(fl, b), live, arena, a);
    LiveTake(mem, FreedMemory(mem, fl[Place(fl, a)].a, a), live, a);
  }

  lemma {:induction false} EntryUnits(base: nat, mem: Memory, fl: seq<Blk>, i: nat)
    requires Ordered(base, fl) && Linked(mem, fl) && 1 <= i < |fl|
    ensures fl[i].n > 0 && fl[i].a in mem && mem[fl[i].a] == Header(NextOf(fl, i), fl[i].n)
    ensures fl[i - 1].a in mem && mem[fl[i - 1].a] == Header(fl[i].a, fl[i - 1].n) && fl[i - 1].a != fl[i].a
    ensures forall u: nat :: fl[i].a <= u < End(fl[i]) ==> InFree(fl, u)
  {
  }

  /** Free units handed out as one block. */
  lemma {:induction false} HandOut(mem: Memory, mem': Memory, fl: seq<Blk>, fl': seq<Blk>, live: map<nat, nat>,
        arena: set<nat>, a: nat, n: nat)
    requires LiveOk(mem, live) && Partition(fl, live, arena) && n > 0 && a in mem' && mem'[a].size == n
    requires forall u: nat :: InFree(fl', u) <==> InFree(fl, u) && !(a <= u < a + n)
    requires forall u: nat :: a <= u < a + n ==> InFree(fl, u)
    requires forall b :: b in live && b in mem && b != a ==> b in mem' && mem'[b].size == mem[b].size
    ensures a !in live && LiveOk(mem', live[a := n]) && Partition(fl', live[a := n], arena)
  {
    hide InFree;
    LiveApart(mem, fl, live, arena, a, n);
    hide InLive;
    PartitionGive(fl, fl', live, arena, a, n);
    hide Partition;
    LiveGive(mem, mem', live, a, n);
  }

  lemma {:induction false} SoundFrom(base: nat, mem: Memory, fl: seq<Blk>, live: map<nat, nat>, arena: set<nat>,
        top: nat)
    requires Ordered(base, fl) && Apart(fl) && Linked(mem, fl) && LiveOk(mem, live) && Partition(fl, live, arena)
    requires forall u: nat :: u in arena ==> base < u < top
    ensures Sound(base, mem, fl, live, arena, top)
  {
  }

  /** malloc takes a whole block. */
  lemma {:induction false} TakeSound(base: nat, mem: Memory, fl: seq<Blk>, live: map<nat, nat>, arena: set<nat>,
        top: nat, i: nat)
    requires Sound(base, mem, fl, live, arena, top) && 1 <= i < |fl|
    ensures fl[i].a !in live
    ensures Sound(base, mem[fl[i - 1].a := Header(NextOf(fl, i), fl[i - 1].n)], Unlinked(fl, i),
      live[fl[i].a := fl[i].n], arena, top)
  {
    Distinct(base, fl);
    hide Linked, Ordered, ApartBut, LiveOk, Unlinked, InFree, InLive, Partition, NextOf;
    var b, mem', fl' := fl[i], mem[fl[i - 1].a := Header(NextOf(fl, i), fl[i - 1].n)], Unlinked(fl, i);
    UnlinkOrdered(base, fl, i);
    UnlinkLinked(mem, fl, i);
    FreeNotLive(base, mem, fl, live, arena, top);
    EntryUnits(base, mem, fl, i);
    forall u: nat
      ensures InFree(fl', u) <==> InFree(fl, u) && !(b.a <= u < b.a + b.n)
    {
      UnlinkUnits(base, fl, i, u);
    }
    hide Sound, Apart;
    HandOut(mem, mem', fl, fl', live, arena, b.a, b.n);
    SoundFrom(base, mem', fl', live[b.a := b.n], arena, top);
  }

  lemma {:induction false} InnerUnit(base: nat, fl: seq<Blk>, i: nat, m: nat)
    requires Ordered(base, fl) && 1 <= i < |fl| && 0 < m < fl[i].n
    ensures forall k :: 0 <= k < |Shortened(fl, i, m)| ==> Shortened(fl, i, m)[k].a != fl[i].a + m
  {
  }

  lemma {:induction false} LinkedElsewhere(mem: Memory, fl: seq<Blk>, t: nat, h: Header)
    requires Linked(mem, fl) && forall k :: 0 <= k < |fl| ==> fl[k].a != t
    ensures Linked(mem[t := h], fl)
  {
  }

  lemma {:induction false} SplitList(base: nat, mem: Memory, fl: seq<Blk>, i: nat, m: nat, h: Header)
    requires Ordered(base, fl) && Apart(fl) && Linked(mem, fl) && 1 <= i < |fl| && 0 < m < fl[i].n
    ensures Ordered(base, Shortened(fl, i, m)) && Apart(Shortened(fl, i, m))
    ensures Linked(mem[fl[i].a := Header(NextOf(fl, i), m)][fl[i].a + m := h], Shortened(fl, i, m))
  {
    Distinct(base, fl);
    InnerUnit(base, fl, i, m);
    hide Linked, Ordered, ApartBut, Shortened, NextOf;
    ShortenOrdered(base, fl, i, m);
    ShortenLinked(mem, fl, i, m);
    LinkedElsewhere(mem[fl[i].a := Header(NextOf(fl, i), m)], Shortened(fl, i, m), fl[i].a + m, h);
  }

  /** malloc takes the last `n` units of a larger block. */
  lemma {:induction false} SplitSound(base: nat, mem: Memory, fl: seq<Blk>, live: map<nat, nat>, arena: set<nat>,
        top: nat, i: nat, n: nat, h: Header)
    requires Sound(base, mem, fl, live, arena, top) && 1 <= i < |fl| && 0 < n < fl[i].n && h.size == n
    ensures fl[i].a + (fl[i].n - n) !in live
    ensures Sound(base, mem[fl[i].a := Header(NextOf(fl, i), fl[i].n - n)][fl[i].a + (fl[i].n - n) := h],
                  Shortened(fl, i, fl[i].n - n), live[fl[i].a + (fl[i].n - n) := n], arena, top)
  {
    hide Linked, Ordered, ApartBut, LiveOk, Shortened, InFree, InLive, Partition, NextOf;
    var b, m := fl[i], fl[i].n - n;
    var t := b.a + m;
    var mem1, fl' := mem[b.a := Header(NextOf(fl, i), m)], Shortened(fl, i, m);
    SplitList(base, mem, fl, i, m, h);
    FreeNotLive(base, mem, fl, live, arena, top);
    EntryUnits(base, mem, fl, i);
    forall u: nat
      ensures InFree(fl', u) <==> InFree(fl, u) && !(t <= u < t + n)
    {
      ShortenUnits(base, fl, i, m, u);
    }
    hide Sound, Apart;
    HandOut(mem, mem1[t := h], fl, fl', live, arena, t, n);
    SoundFrom(base, mem1[t := h], fl', live[t := n], arena, top);
  }

  /** The `n` units from `a` on. */
  function Units(a: nat, n: nat): (s: set<nat>)
    ensures forall u: nat :: u in s <==> a <= u < a + n
  {
    if n == 0 then {} else Units(a, n - 1) + {a + n - 1}
  }

  lemma {:induction false} FreeBelow(base: nat, mem: Memory, fl: seq<Blk>, live: map<nat, nat>, arena: set<nat>,
        top: nat)
    requires Sound(base, mem, fl, live, arena, top) && base < top
    ensures forall k :: 0 <= k < |fl| ==> fl[k].a < top
    ensures forall b :: b in live ==> b + live[b] <= top
  {
    forall k | 0 <= k < |fl|
      ensures fl[k].a < top
    {
      assert k > 0 ==> InFree(fl, fl[k].a);
    }
    forall b | b in live
      ensures b + live[b] <= top
    {
      assert InLive(live, b + live[b] - 1);
    }
  }

  /** Whatever a program stores in a block it was given, between its header and its end, breaks
      nothing. */
  lemma {:induction false} UserWrites(base: nat, mem: Memory, fl: seq<Blk>, live: map<nat, nat>, arena: set<nat>,
        top: nat, a: nat, u: nat, h: Header)
    requires Sound(base, mem, fl, live, arena, top) && a in live && a < u < a + live[a]
    ensures Sound(base, mem[u := h], fl, live, arena, top)
  {
    assert InLive(live, u);
    forall k | 0 <= k < |fl|
      ensures fl[k].a != u
    {
      assert k > 0 ==> InFree(fl, fl[k].a);
    }
    hide Ordered, ApartBut, Partition, InFree, InLive;
    LinkedElsewhere(mem, fl, u, h);
  }

  /** A region obtained from sbrk counts as a live block until it is freed. */
  lemma {:induction false} GrowSound(base: nat, mem: Memory, fl: seq<Blk>, live: map<nat, nat>, arena: set<nat>,
        top: nat, p: nat, n: nat, h: Header, newtop: nat)
    requires Sound(base, mem, fl, live, arena, top) && base < top <= p && n > 0 && h.size == n && p + n <= newtop
    ensures p !in live
    ensures Sound(base, mem[p := h], fl, live[p := n], arena + Units(p, n), newtop)
  {
    FreeBelow(base, mem, fl, live, arena, top);
    LinkedElsewhere(mem, fl, p, h);
    hide Linked, Ordered, ApartBut, InFree, InLive;
    forall u: nat
      ensures InLive(live[p := n], u) <==> InLive(live, u) || p <= u < p + n
    {
      LiveMore(live, p, n, u);
    }
    LiveGive(mem, mem[p := h], live, p, n);
  }

  /** The list malloc starts from on its first call. */
  lemma {:induction false} StartSound(base: nat, mem: Memory, top: nat)
    requires base in mem && mem[base] == Header(base, 0)
    ensures Sound(base, mem, [Blk(base, 0)], map[], {}, top)
  {
  }
}
