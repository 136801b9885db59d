/** malloc, free and morecore of project1/umalloc.c over headers in memory. */
module UmallocCode {
  import opened FreeList
  import opened Umalloc
  import opened Wrappers

  const CHUNK := 4096  // units morecore asks for at least

  // ---------------------------------------------------------------- going around the circle

  function Step(n: nat, i: nat): nat
    requires i < n
  {
    if i + 1 < n then i + 1 else 0
  }

  /** Steps from entry `i` on to entry `k`. */
  function Dist(n: nat, i: nat, k: nat): (d: nat)
    requires i < n && k < n
    ensures d < n && (d == 0 <==> i == k)
  {
    if i <= k then k - i else k + n - i
  }

  lemma {:induction false} StepNears(n: nat, i: nat, k: nat)
    requires i < n && k < n
    ensures Dist(n, Step(n, i), k) == if i == k then n - 1 else Dist(n, i, k) - 1
  {
  }

  lemma {:induction false} PlaceIs(base: nat, fl: seq<Blk>, a: nat, i: nat)
    requires Ordered(base, fl) && base < a && i < |fl| && fl[i].a < a
    requires i + 1 < |fl| ==> a <= fl[i + 1].a
    ensures Place(fl, a) == i
  {
  }

  /** The tests of free's search loop stop it exactly at the place of `bp`, wherever it is. */
  lemma {:induction false} StopsAtPlace(base: nat, mem: Memory, fl: seq<Blk>, bp: nat, i: nat)
    requires Ordered(base, fl) && Linked(mem, fl) && base < bp && i < |fl|
    requires forall k :: 0 <= k < |fl| ==> fl[k].a != bp
    ensures fl[i].a in mem && mem[fl[i].a] == Header(fl[Step(|fl|, i)].a, fl[i].n)
    ensures var p, next := fl[i].a, mem[fl[i].a].ptr;
      i == Place(fl, bp) <==> (bp > p && bp < next) || (p >= next && (bp > p || bp < next))
  {
    hide Place;
    var p, next := fl[i].a, mem[fl[i].a].ptr;
    assert i > 0 ==> base < p;
    if bp > p && (bp < next || p >= next) {
      PlaceIs(base, fl, bp, i);
    }
  }

  // ---------------------------------------------------------------- asking for memory

  /** What sbrk takes `nu * sizeof(Header)` for, a 32-bit int, in headers. */
  function Asked(nu: nat): int {
    var bytes := nu * HEADER % UINT;
    if bytes < UINT / 2 then bytes / HEADER else -((UINT - bytes) / HEADER)
  }

  /** Requests for which that is what was meant: those of less than 2 GB. */
  predicate Askable(nu: nat) {
    nu < UINT / 2 / HEADER
  }

  lemma {:induction false} AskedIs(nu: nat)
    requires 0 < nu <= UINT / HEADER
    ensures if Askable(nu) then Asked(nu) == nu else Asked(nu) <= 0
  {
  }

  // ---------------------------------------------------------------- taking memory

  /** Entry `k` with its last `n` units taken, or out of the list if it has no more than those. */
  function Taken(fl: seq<Blk>, k: nat, n: nat): seq<Blk>
    requires k < |fl| && fl[k].n >= n
  {
    if fl[k].n == n then Unlinked(fl, k) else Shortened(fl, k, fl[k].n - n)
  }

  function TakenAt(fl: seq<Blk>, k: nat, n: nat): nat
    requires k < |fl| && fl[k].n >= n
  {
    fl[k].a + (fl[k].n - n)
  }

  /** Entry `k` is the first, counting from the one after `f`, that has `n` units. */
  ghost predicate NextFit(fl: seq<Blk>, f: nat, n: nat, k: nat) {
    && f < |fl| && k < |fl| && fl[k].n >= n
    && forall m :: 0 <= m < |fl| && Dist(|fl|, Step(|fl|, f), m) < Dist(|fl|, Step(|fl|, f), k) ==> fl[m].n < n
  }

  ghost predicate Fits(fl: seq<Blk>, n: nat) {
    exists k :: 0 <= k < |fl| && fl[k].n >= n
  }

  /** malloc's choice: from the list `fl` and the free pointer `fp` to the list `fl'` and a block
      of `n` units at `a`. */
  ghost predicate Allotted(fl: seq<Blk>, fp: nat, n: nat, fl': seq<Blk>, a: nat) {
    exists f: nat, k: nat :: NextFit(fl, f, n, k) && fl[f].a == fp && fl' == Taken(fl, k, n) && a == TakenAt(fl, k, n)
  }

  /** The block is the end of an entry that is large enough, and what the entry loses is just that. */
  lemma {:induction false} AllottedIsTail(fl: seq<Blk>, fp: nat, n: nat, fl': seq<Blk>, a: nat)
    requires Allotted(fl, fp, n, fl', a)
    ensures exists k: nat ::
      && k < |fl| && fl[k].n >= n && a + n == End(fl[k])
      && fl' == fl[..k] + (if fl[k].n == n then [] else [Blk(fl[k].a, fl[k].n - n)]) + fl[k + 1..]
  {
    var f: nat, k: nat :| NextFit(fl, f, n, k) && fl[f].a == fp && fl' == Taken(fl, k, n) && a == TakenAt(fl, k, n);
    assert k < |fl| && fl[k].n >= n;
    hide NextFit, Allotted;
    TakenIs(fl, k, n);
    hide Taken;
  }

  lemma {:induction false} TakenIs(fl: seq<Blk>, k: nat, n: nat)
    requires k < |fl| && fl[k].n >= n
    ensures Taken(fl, k, n) == fl[..k] + (if fl[k].n == n then [] else [Blk(fl[k].a, fl[k].n - n)]) + fl[k + 1..]
  {
  }

  lemma {:induction false} UntouchedAt(fl: seq<Blk>, i: nat)
    requires Apart(fl)
    ensures Touched(fl, i) == fl
  {
  }

  lemma {:induction false} UnlinkBack(base: nat, fl: seq<Blk>, k: nat)
    requires Ordered(base, fl) && Apart(fl) && 1 <= k < |fl|
    ensures Unlinked(fl, k) != [] && Unlinked(fl, k)[0].a < fl[k].a && Freed(Unlinked(fl, k), fl[k]) == fl
  {
    var g := Unlinked(fl, k);
    UnlinkOrdered(base, fl, k);
    assert g[k - 1] == fl[k - 1] && (k < |g| ==> g[k] == fl[k + 1]) && g[0] == fl[0];
    PlaceIs(base, g, fl[k].a, k - 1);
    assert Inserted(g, k - 1, fl[k]) == fl;
    hide Touched, Place, ApartBut, Ordered;
    UntouchedAt(fl, k);
    UntouchedAt(fl, k - 1);
  }

  lemma {:induction false} SplitAt(base: nat, fl: seq<Blk>, k: nat, m: nat)
    requires Ordered(base, fl) && Apart(fl) && 1 <= k < |fl| && 0 < m < fl[k].n
    ensures var b := Blk(fl[k].a + m, fl[k].n - m);
      var f1 := Inserted(Shortened(fl, k, m), k, b);
      && |f1| == |fl| + 1 && Touched(f1, k + 1) == f1 && f1[k] == Blk(fl[k].a, m) && f1[k + 1] == b
      && Merged(f1, k) == fl
  {
    var b := Blk(fl[k].a + m, fl[k].n - m);
    var f1 := Inserted(Shortened(fl, k, m), k, b);
    assert f1[k] == Blk(fl[k].a, m) && f1[k + 1] == b && (k + 2 < |f1| ==> f1[k + 2] == fl[k + 1]);
    assert k + 1 < |fl| ==> End(fl[k]) < fl[k + 1].a;
    hide Ordered, ApartBut;
    SplitMerged(fl, k, m);
  }

  lemma {:induction false} SplitMerged(fl: seq<Blk>, k: nat, m: nat)
    requires k < |fl| && 0 < m < fl[k].n
    ensures var f1 := Inserted(Shortened(fl, k, m), k, Blk(fl[k].a + m, fl[k].n - m));
      |f1| == |fl| + 1 && Merged(f1, k) == fl
  {
  }

  lemma {:induction false} SplitBack(base: nat, fl: seq<Blk>, k: nat, m: nat)
    requires Ordered(base, fl) && Apart(fl) && 1 <= k < |fl| && 0 < m < fl[k].n
    ensures var g, b := Shortened(fl, k, m), Blk(fl[k].a + m, fl[k].n - m);
      g != [] && g[0].a < b.a && Freed(g, b) == fl
  {
    hide ApartBut, Place, Merged, Inserted;
    var g, b := Shortened(fl, k, m), Blk(fl[k].a + m, fl[k].n - m);
    ShortenOrdered(base, fl, k, m);
    PlaceIs(base, g, b.a, k);
    SplitAt(base, fl, k, m);
  }

  /** free undoes malloc: giving back a block just taken restores the very same list. */
  lemma {:induction false} FreeUndoesMalloc(base: nat, fl: seq<Blk>, k: nat, n: nat)
    requires Ordered(base, fl) && Apart(fl) && 1 <= k < |fl| && 0 < n <= fl[k].n
    ensures Taken(fl, k, n) != [] && Taken(fl, k, n)[0].a < TakenAt(fl, k, n)
    ensures Freed(Taken(fl, k, n), Blk(TakenAt(fl, k, n), n)) == fl
  {
    hide Freed, Ordered, ApartBut, Unlinked, Shortened;
    if fl[k].n == n {
      UnlinkBack(base, fl, k);
    } else {
      SplitBack(base, fl, k, fl[k].n - n);
    }
  }

  // ---------------------------------------------------------------- the code

  /** Memory from sbrk starts out zero. */
  function Load(mem: Memory, a: nat): Header {
    if a in mem then mem[a] else Header(0, 0)
  }

  ghost predicate Points(fl: seq<Blk>, a: nat) {
    exists i :: 0 <= i < |fl| && fl[i].a == a
  }

  /** The list malloc works on: its first call makes one of `base` alone. */
  function Begun(base: nat, fl: seq<Blk>): seq<Blk> {
    if fl == [] then [Blk(base, 0)] else fl
  }

  lemma {:induction false} FreedPoints(base: nat, fl: seq<Blk>, b: Blk)
    requires Ordered(base, fl) && Apart(fl) && base < b.a && b.n > 0
    requires var j := Place(fl, b.a); End(fl[j]) <= b.a && (j + 1 < |fl| ==> End(b) <= fl[j + 1].a)
    ensures var j := Place(fl, b.a); j < |Freed(fl, b)| && Freed(fl, b)[j].a == fl[j].a
  {
    hide ApartBut, Place;
    var j := Place(fl, b.a);
    InsertOrdered(base, fl, j, b);
    InsertedEntry(fl, j, b, j);
    InsertedEntry(fl, j, b, j + 1);
    hide Inserted;
    TouchedUp(base, Inserted(fl, j, b), j);
  }

  /** Going round from the entry after `f`, no entry before entry `i` has `n` units. */
  ghost predicate Scanned(fl: seq<Blk>, f: nat, i: nat, n: nat) {
    && f < |fl| && i < |fl|
    && forall k :: 0 <= k < |fl| && Dist(|fl|, i, k) > Dist(|fl|, i, f) ==> fl[k].n < n
  }

  lemma {:induction false} ScanStart(fl: seq<Blk>, f: nat, n: nat)
    requires f < |fl|
    ensures Scanned(fl, f, Step(|fl|, f), n)
  {
  }

  lemma {:induction false} ScanStep(fl: seq<Blk>, f: nat, i: nat, n: nat)
    requires Scanned(fl, f, i, n) && fl[i].n < n && i != f
    ensures Scanned(fl, f, Step(|fl|, i), n)
  {
  }

  lemma {:induction false} ScanEnd(fl: seq<Blk>, f: nat, n: nat)
    requires Scanned(fl, f, f, n) && fl[f].n < n
    ensures !Fits(fl, n)
  {
  }

  lemma {:induction false} ScanFound(fl: seq<Blk>, f: nat, i: nat, n: nat)
    requires Scanned(fl, f, i, n) && fl[i].n >= n
    ensures NextFit(fl, f, n, i)
  {
  }

  /** The list after a block is freed has an entry at least as large. */
  lemma {:induction false} FreedFits(base: nat, fl: seq<Blk>, b: Blk)
    requires Ordered(base, fl) && base < b.a && b.n > 0 && Apart(fl)
    requires var j := Place(fl, b.a); End(fl[j]) <= b.a && (j + 1 < |fl| ==> End(b) <= fl[j + 1].a)
    ensures Fits(Freed(fl, b), b.n)
  {
    hide Place, ApartBut;
    var j := Place(fl, b.a);
    var f1 := Inserted(fl, j, b);
    InsertedEntry(fl, j, b, j);
    InsertedEntry(fl, j, b, j + 1);
    var f2 := Touched(f1, j + 1);
    assert |f2| > j + 1 && f2[j] == fl[j] && f2[j + 1].n >= b.n;
    hide Inserted;
    var f3 := Touched(f2, j);
    if f3 == f2 {
      assert f3[j + 1].n >= b.n;
    } else {
      assert f3[j].n >= b.n;
    }
  }

  lemma {:induction false} FirstEmpty(base: nat, mem: Memory, fl: seq<Blk>, live: map<nat, nat>, arena: set<nat>,
        top: nat, i: nat)
    requires Sound(base, mem, fl, live, arena, top) && i < |fl| && fl[i].n > 0
    ensures i > 0 && base <= fl[i - 1].a
  {
  }

  lemma {:induction false} TakenPoints(fl: seq<Blk>, i: nat, n: nat)
    requires 1 <= i < |fl| && fl[i].n >= n
    ensures Points(Taken(fl, i, n), fl[i - 1].a)
  {
    assert Taken(fl, i, n)[i - 1].a == fl[i - 1].a;
  }

  function Max(a: nat, b: nat): nat {
    if a < b then b else a
  }

  /** What morecore did: `n` units from the old end of memory are free; the free pointer is at the
      last of the old free blocks. */
  ghost predicate Grown(fl: seq<Blk>, arena: set<nat>, top: nat, fl': seq<Blk>, freep': nat, arena': set<nat>,
        top': nat, n: nat) {
    && fl != [] && fl[0].a < top && fl' == Freed(fl, Blk(top, n)) && freep' == fl[|fl| - 1].a
    && arena' == arena + Units(top, n) && top' == top + n && Fits(fl', n)
    && forall u :: u in arena ==> u < top
  }

  /** malloc's choice after morecore. */
  ghost predicate GrownAllotted(fl: seq<Blk>, arena: set<nat>, top: nat, n: nat, fl': seq<Blk>, arena': set<nat>,
        top': nat, a: nat) {
    exists g: seq<Blk>, fp: nat ::
      Grown(fl, arena, top, g, fp, arena', top', Max(n, CHUNK)) && Allotted(g, fp, n, fl', a)
  }

  lemma {:induction false} GrownThen(fl: seq<Blk>, arena: set<nat>, top: nat, g: seq<Blk>, fp: nat, arena': set<nat>,
        top': nat, n: nat, fl': seq<Blk>, a: nat)
    requires Grown(fl, arena, top, g, fp, arena', top', Max(n, CHUNK)) && Allotted(g, fp, n, fl', a)
    ensures GrownAllotted(fl, arena, top, n, fl', arena', top', a)
  {
  }

  lemma {:induction false} MoreRoom(base: nat, mem: Memory, fl: seq<Blk>, live: map<nat, nat>, arena: set<nat>,
        hp: nat, n: nat, h: Header)
    requires Sound(base, mem, fl, live, arena, hp) && base < hp && n > 0 && h.size == n
    ensures hp !in live && live[hp := n] - {hp} == live
    ensures Sound(base, mem[hp := h], fl, live[hp := n], arena + Units(hp, n), hp + n)
    ensures fl != [] && fl[0].a < hp && Place(fl, hp) == |fl| - 1 && Fits(Freed(fl, Blk(hp, n)), n)
    ensures forall u :: u in arena ==> u < hp
  {
    hide Linked, ApartBut, LiveOk, Partition, Place, Freed, Fits;
    GrowSound(base, mem, fl, live, arena, hp, hp, n, h, hp + n);
    FreeBelow(base, mem, fl, live, arena, hp);
    LastBelow(base, mem, fl, live, arena, hp);
    assert fl[|fl| - 1].a < hp && fl[0].a < hp;
    assert live[hp := n] - {hp} == live;
    PlaceIs(base, fl, hp, |fl| - 1);
    hide Ordered;
    FreedFits(base, fl, Blk(hp, n));
  }

  lemma {:induction false} LastBelow(base: nat, mem: Memory, fl: seq<Blk>, live: map<nat, nat>, arena: set<nat>,
        top: nat)
    requires Sound(base, mem, fl, live, arena, top) && base < top
    ensures fl != [] && End(fl[|fl| - 1]) <= top
  {
    hide Linked, ApartBut, LiveOk;
    var l := fl[|fl| - 1];
    assert |fl| > 1 ==> l.a <= End(l) - 1 < End(l) && InFree(fl, End(l) - 1);
  }

  lemma {:induction false} NoneFits(n: nat)
    ensures !Fits([], n)
  {
  }

  lemma {:induction false} StartFits(base: nat, n: nat)
    requires n > 0
    ensures !Fits([Blk(base, 0)], n)
  {
  }

  lemma {:induction false} ItFits(fl: seq<Blk>, i: nat, n: nat)
    requires i < |fl| && fl[i].n >= n
    ensures Fits(fl, n)
  {
  }

  lemma {:induction false} GrownFits(fl: seq<Blk>, arena: set<nat>, top: nat, fl': seq<Blk>, freep': nat,
        arena': set<nat>, top': nat, n: nat, m: nat)
    requires Grown(fl, arena, top, fl', freep', arena', top', n) && m <= n
    ensures Fits(fl', m)
  {
  }

  lemma {:induction false} Here(base: nat, mem: Memory, fl: seq<Blk>, live: map<nat, nat>, arena: set<nat>,
        top: nat, i: nat)
    requires Sound(base, mem, fl, live, arena, top) && i < |fl|
    ensures fl[i].a in mem && mem[fl[i].a] == Header(fl[Step(|fl|, i)].a, fl[i].n)
  {
  }

  lemma {:induction false} SameEntry(base: nat, mem: Memory, fl: seq<Blk>, live: map<nat, nat>, arena: set<nat>,
        top: nat, i: nat, k: nat)
    requires Sound(base, mem, fl, live, arena, top) && i < |fl| && k < |fl| && fl[i].a == fl[k].a
    ensures i == k
  {
  }

  class Heap {
    const base: nat  // the address of `base`
    var freep: nat
    var mem: Memory
    var top: nat  // the end of the process's memory
    ghost var fl: seq<Blk>
    ghost var live: map<nat, nat>
    ghost var arena: set<nat>

    ghost predicate Valid()
      reads this
    {
      && 0 < base < top
      && if freep == 0 then fl == [] && live == map[] && arena == {}
         else Sound(base, mem, fl, live, arena, top) && Points(fl, freep)
    }

    constructor (base: nat, top: nat)
      requires 0 < base < top
      ensures Valid() && live == map[] && arena == {} && this.base == base && this.top == top
    {
      this.base, this.top := base, top;
      freep, mem := 0, map[];
      fl, live, arena := [], map[], {};
    }

    method Free(ap: nat)
      requires Valid() && ap > 0 && ap - 1 in live
      modifies this
      ensures Valid() && freep != 0 && top == old(top) && arena == old(arena)
      ensures live == old(live) - {ap - 1}
      ensures old(fl) != [] && old(fl[0].a) < ap - 1 && fl == Freed(old(fl), Blk(ap - 1, old(live[ap - 1])))
      ensures freep == old(fl[Place(fl, ap - 1)].a)
    {
      hide Linked, Ordered, ApartBut, LiveOk, Partition, Place, Freed, FreedMemory;
      var bp := ap - 1;
      PlaceFits(base, mem, fl, live, arena, top, bp);
      FreeSound(base, mem, fl, live, arena, top, bp);
      FreedPoints(base, fl, Blk(bp, live[bp]));
      var p := Search(bp);
      ghost var i := Place(fl, bp);
      HeaderHere(base, mem, fl, live, arena, top, bp, i);
      Coalesce(p, bp);
      freep := p;
      fl, live := Freed(fl, Blk(bp, live[bp])), live - {bp};
      assert Points(fl, freep) by {
        assert fl[i].a == freep;
      }
    }

    /** free's search loop, from wherever the free pointer is. */
    method Search(bp: nat) returns (p: nat)
      requires Valid() && bp in live
      ensures fl != [] && fl[0].a < bp && p == fl[Place(fl, bp)].a
    {
      hide Linked, Ordered, ApartBut, LiveOk, Partition, Place;
      PlaceFits(base, mem, fl, live, arena, top, bp);
      ghost var i: nat :| i < |fl| && fl[i].a == freep;
      StopsAtPlace(base, mem, fl, bp, i);
      p := freep;
      while !(bp > p && bp < mem[p].ptr)
        invariant i < |fl| && fl[i].a == p && p in mem && mem[p] == Header(fl[Step(|fl|, i)].a, fl[i].n)
        invariant i == Place(fl, bp) <==>
          (bp > p && bp < mem[p].ptr) || (p >= mem[p].ptr && (bp > p || bp < mem[p].ptr))
        decreases Dist(|fl|, i, Place(fl, bp))
      {
        if p >= mem[p].ptr && (bp > p || bp < mem[p].ptr) {
          break;
        }
        StepNears(|fl|, i, Place(fl, bp));
        i := Step(|fl|, i);
        StopsAtPlace(base, mem, fl, bp, i);
        p := mem[p].ptr;
      }
    }

    /** sbrk fails, or moves the end of the process by `n` headers, unless that is before its
        beginning, and returns the old end. Growing may fail for want of memory; shrinking fails
        exactly if nothing would be left. */
    method Sbrk(n: int) returns (p: Option<nat>)
      modifies this`top
      ensures n <= 0 ==> (p.None? <==> n < 0 && old(top) + n == 0)
      ensures p.None? ==> top == old(top)
      ensures p.Some? ==> p.value == old(top) && top == if old(top) + n >= 0 then old(top) + n else old(top)
    {
      if n > 0 {
        if * {
          return None;
        }
      } else if n < 0 && top + n == 0 {
        return None;
      }
      p := Some(top);
      if top + n >= 0 {
        top := top + n;
      }
    }

    /** `failed`: sbrk has failed. `lost`: it has not, but got a number that is not positive, and the
        new header would be stored at or above the end of the process's memory. */
    method Morecore(nu: nat) returns (p: nat, lost: bool, failed: bool)
      requires Valid() && freep != 0 && 0 < nu <= UINT / HEADER
      modifies this
      ensures lost <==> !Askable(nu) && !failed
      ensures !Askable(nu) ==> (failed <==> old(top) + Asked(nu) == 0)
      ensures lost ==> top <= old(top)
      ensures !lost ==> Valid() && freep != 0 && live == old(live) && (p == 0 <==> failed)
      ensures failed ==>
        freep == old(freep) && mem == old(mem) && fl == old(fl) && arena == old(arena) && top == old(top)
      ensures !lost && !failed ==>
        p == freep && Grown(old(fl), old(arena), old(top), fl, freep, arena, top, Max(nu, CHUNK))
    {
      hide Sound, Linked, Ordered, LiveOk, Partition, Freed;
      var n := if nu < CHUNK then CHUNK else nu;
      AskedIs(n);
      var q := Sbrk(Asked(n));
      if q.None? {
        return 0, false, true;
      }
      var hp := q.value;
      if hp >= top {
        return hp, true, false;
      }
      MoreRoom(base, mem, fl, live, arena, hp, n, Header(Load(mem, hp).ptr, n));
      mem := mem[hp := Header(Load(mem, hp).ptr, n)];
      live, arena := live[hp := n], arena + Units(hp, n);
      Free(hp + 1);
      assert live == old(live);
      return freep, false, false;
    }

    /** malloc's exact fit and split. */
    method Take(prevp: nat, p: nat, nunits: nat, ghost f: nat, ghost i: nat) returns (r: nat)
      requires Valid() && freep != 0 && nunits > 0 && NextFit(fl, f, nunits, i) && fl[f].a == freep && fl[i].a == p
      requires i > 0 ==> fl[i - 1].a == prevp
      modifies this
      ensures Valid() && top == old(top) && arena == old(arena) && freep == prevp
      ensures r > 0 && r - 1 !in old(live) && live == old(live)[r - 1 := nunits]
      ensures Allotted(old(fl), old(freep), nunits, fl, r - 1)
    {
      hide Linked, Ordered, ApartBut, LiveOk, Partition, Unlinked, Shortened;
      FirstEmpty(base, mem, fl, live, arena, top, i);
      EntryUnits(base, mem, fl, i);
      TakenPoints(fl, i, nunits);
      assert Allotted(fl, freep, nunits, Taken(fl, i, nunits), TakenAt(fl, i, nunits));
      var q := p;
      if mem[p].size == nunits {
        TakeSound(base, mem, fl, live, arena, top, i);
        mem := mem[prevp := Header(mem[p].ptr, mem[prevp].size)];
      } else {
        ghost var t := TakenAt(fl, i, nunits);
        ghost var h := Header(Load(mem[p := Header(mem[p].ptr, mem[p].size - nunits)], t).ptr, nunits);
        SplitSound(base, mem, fl, live, arena, top, i, nunits, h);
        mem := mem[p := Header(mem[p].ptr, mem[p].size - nunits)];
        q := p + mem[p].size;
        mem := mem[q := Header(Load(mem, q).ptr, nunits)];
      }
      fl, live := Taken(fl, i, nunits), live[q := nunits];
      freep := prevp;
      return q + 1;
    }

    /** The same, with the account of the memory asked for before. */
    method TakeFound(prevp: nat, p: nat, nunits: nat, ghost f: nat, ghost i: nat,
                     ghost asked: bool, ghost fl0: seq<Blk>, ghost arena0: set<nat>, ghost top0: nat) returns (r: nat)
      requires Valid() && freep != 0 && nunits > 0 && NextFit(fl, f, nunits, i) && fl[f].a == freep && fl[i].a == p
      requires i > 0 ==> fl[i - 1].a == prevp
      requires asked ==> Grown(fl0, arena0, top0, fl, freep, arena, top, Max(nunits, CHUNK))
      modifies this
      ensures Valid() && top == old(top) && arena == old(arena)
      ensures r > 0 && r - 1 !in old(live) && live == old(live)[r - 1 := nunits]
      ensures Allotted(old(fl), old(freep), nunits, fl, r - 1)
      ensures asked ==> GrownAllotted(fl0, arena0, top0, nunits, fl, arena, top, r - 1)
    {
      hide Sound, Grown, GrownAllotted, Allotted, NextFit;
      ghost var g, fp := fl, freep;
      r := Take(prevp, p, nunits, f, i);
      if asked {
        GrownThen(fl0, arena0, top0, g, fp, arena, top, nunits, fl, r - 1);
      }
    }

    /** The first call of malloc makes a list of the empty block `base`. */
    method Begin(ghost nunits: nat)
      requires Valid() && nunits > 0
      modifies this`mem, this`freep, this`fl
      ensures Valid() && freep != 0 && fl == Begun(base, old(fl)) && (old(fl) != [] ==> freep == old(freep))
      ensures Fits(fl, nunits) <==> Fits(old(fl), nunits)
    {
      hide Sound, Linked, Ordered, LiveOk, Partition, Fits;
      if freep == 0 {
        StartSound(base, mem[base := Header(base, 0)], top);
        mem, freep := mem[base := Header(base, 0)], base;
        fl := [Blk(base, 0)];
        assert Points(fl, freep) by {
          assert fl[0].a == base;
        }
        NoneFits(nunits);
        StartFits(base, nunits);
      }
    }

    /** `failed` and `lost` as in Morecore: lost is exactly a request of 2 GB or more for which no free
        block is large enough, unless shrinking by what sbrk takes it for would leave nothing. */
    method Malloc(nbytes: nat) returns (r: nat, lost: bool, failed: bool)
      requires Valid() && nbytes < UINT
      modifies this
      ensures lost <==>
        !Fits(old(fl), UnitsFor(nbytes)) && !Askable(UnitsFor(nbytes)) && old(top) + Asked(UnitsFor(nbytes)) != 0
      ensures lost ==> r == 0 && top <= old(top)
      ensures !lost ==> Valid() && (r == 0 <==> failed)
      ensures failed ==> !lost && !Fits(old(fl), UnitsFor(nbytes))
      ensures failed ==> live == old(live) && arena == old(arena) && top == old(top) && fl == Begun(base, old(fl))
      ensures r > 0 ==> r - 1 !in old(live) && live == old(live)[r - 1 := UnitsFor(nbytes)]
      ensures r > 0 && Fits(old(fl), UnitsFor(nbytes)) ==>
        arena == old(arena) && top == old(top) && Allotted(old(fl), old(freep), UnitsFor(nbytes), fl, r - 1)
      ensures r > 0 && !Fits(old(fl), UnitsFor(nbytes)) ==>
        GrownAllotted(Begun(base, old(fl)), old(arena), old(top), UnitsFor(nbytes), fl, arena, top, r - 1)
    {
      hide Sound, Linked, Ordered, LiveOk, Partition, Fits, Allotted, Grown, GrownAllotted, Scanned, UnitsFor;
      hide NextFit, Askable, Asked;
      var nunits := UnitsFor(nbytes);
      lost, failed := false, false;
      UnitsBound(nbytes);
      Begin(nunits);
      var prevp := freep;
      ghost var fl0, fp0 := fl, freep;
      ghost var asked := false;
      ghost var h: nat :| h < |fl| && fl[h].a == freep;
      ghost var f := h;
      ghost var i := Step(|fl|, f);
      Here(base, mem, fl, live, arena, top, h);
      var p := mem[prevp].ptr;
      ScanStart(fl, f, nunits);
      while true
        invariant Valid() && freep != 0 && live == old(live) && !lost && !failed && (asked ==> Askable(nunits))
        invariant 0 <= f < |fl| && 0 <= i < |fl| && 0 <= h < |fl| && i == Step(|fl|, h)
        invariant fl[f].a == freep && fl[i].a == p && fl[h].a == prevp && Scanned(fl, f, i, nunits)
        invariant !asked ==> fl == fl0 && freep == fp0 && arena == old(arena) && top == old(top)
        invariant asked ==> Fits(fl, nunits) && !Fits(fl0, nunits)
        invariant asked ==> Grown(fl0, old(arena), old(top), fl, freep, arena, top, Max(nunits, CHUNK))
        decreases !asked, Dist(|fl|, i, f)
      {
        Here(base, mem, fl, live, arena, top, i);
        if mem[p].size >= nunits {
          ScanFound(fl, f, i, nunits);
          ItFits(fl, i, nunits);
          r := TakeFound(prevp, p, nunits, f, i, asked, fl0, old(arena), old(top));
          return;
        }
        if p == freep {
          SameEntry(base, mem, fl, live, arena, top, i, f);
          ScanEnd(fl, f, nunits);
          p, lost, failed := Morecore(nunits);
          if lost || p == 0 {
            return 0, lost, failed;
          }
          GrownFits(fl0, old(arena), old(top), fl, freep, arena, top, Max(nunits, CHUNK), nunits);
          asked := true;
          f :| 0 <= f < |fl| && fl[f].a == freep;
          ScanStart(fl, f, nunits);
          i := f;
          Here(base, mem, fl, live, arena, top, i);
        } else {
          ScanStep(fl, f, i, nunits);
          StepNears(|fl|, i, f);
        }
        prevp, h := p, i;
        p, i := mem[p].ptr, Step(|fl|, i);
      }
    }

    /** The two tests and the writes at the end of free. */
    method Coalesce(p: nat, bp: nat)
      requires p in mem && bp in mem && p != bp && mem[p].ptr in mem && mem[p].ptr != bp
      modifies this`mem
      ensures mem == FreedMemory(old(mem), p, bp)
    {
      if bp + mem[bp].size == mem[p].ptr {
        mem := mem[bp := Header(mem[bp].ptr, mem[bp].size + mem[mem[p].ptr].size)];
        mem := mem[bp := Header(mem[mem[p].ptr].ptr, mem[bp].size)];
      } else {
        mem := mem[bp := Header(mem[p].ptr, mem[bp].size)];
      }
      if p + mem[p].size == bp {
        mem := mem[p := Header(mem[p].ptr, mem[p].size + mem[bp].size)];
        mem := mem[p := Header(mem[bp].ptr, mem[p].size)];
      } else {
        mem := mem[p := Header(bp, mem[p].size)];
      }
    }
  }

  lemma {:induction false} HeaderHere(base: nat, mem: Memory, fl: seq<Blk>, live: map<nat, nat>, arena: set<nat>,
        top: nat, a: nat, i: nat)
    requires Sound(base, mem, fl, live, arena, top) && a in live && i < |fl|
    ensures a in mem && fl[i].a in mem && mem[fl[i].a].ptr in mem && mem[fl[i].a].ptr != a && fl[i].a != a
    ensures base <= fl[i].a
  {
    hide ApartBut, Partition;
    FreeNotLive(base, mem, fl, live, arena, top);
  }
}
