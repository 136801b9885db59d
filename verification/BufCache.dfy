/** The buffer cache of project1/bio.c over the disk, with the pin of log_write. What bget, brelse
    and acquiresleep do under their locks is one step each, so processes interleave between them. */
module BufCache {
  import opened Wrappers
  import opened Blocks
  import opened BufLinks

  datatype Key = Key(dev: nat, blockno: nat)

  /** struct buf without its links. `valid` and `dirty` are B_VALID and B_DIRTY; `pid` is the holder
      of the sleep-lock, 0 if it is free. */
  datatype Buf = Buf(dev: nat, blockno: nat, valid: bool, dirty: bool, refcnt: nat, pid: nat, data: Block)

  type Storage = map<Key, Block>

  function KeyOf(x: Buf): Key {
    Key(x.dev, x.blockno)
  }

  function DiskAt(disk: Storage, k: Key): Block {
    if k in disk then disk[k] else ZeroBlock()
  }

  // ---------------------------------------------------------------- the invariant

  /** At most one buffer for a block of a real device (buffers never used have device 0). */
  ghost predicate OneEach(bufs: seq<Buf>) {
    forall a, b :: 0 <= a < b < |bufs| && bufs[a].dev != 0 ==> KeyOf(bufs[a]) != KeyOf(bufs[b])
  }

  /** A reference for every process waiting for the buffer, holding it, or about to drop it. */
  ghost predicate Counted(x: Buf, waiting: nat, leaving: nat) {
    x.refcnt == waiting + leaving + if x.pid != 0 then 1 else 0
  }

  /** Pinned buffers hold data; a buffer that is neither pinned nor locked holds what the disk has. */
  ghost predicate Clean(x: Buf, disk: Storage) {
    && (x.dirty ==> x.valid)
    && (x.valid && !x.dirty && x.pid == 0 && x.dev != 0 ==> x.data == DiskAt(disk, KeyOf(x)))
  }

  ghost predicate CacheOk(bufs: seq<Buf>, disk: Storage, waiting: seq<nat>, leaving: seq<nat>) {
    && |bufs| == NBUF && |waiting| == NBUF && |leaving| == NBUF
    && OneEach(bufs)
    && (forall b :: 0 <= b < NBUF ==> Counted(bufs[b], waiting[b], leaving[b]))
    && (forall b :: 0 <= b < NBUF ==> Clean(bufs[b], disk))
  }

  // ---------------------------------------------------------------- what a reader sees

  /** Block `k` has contents `v`: those of its buffer, if one holds data, else those on disk. */
  ghost predicate Shows(bufs: seq<Buf>, disk: Storage, k: Key, v: Block) {
    && (forall b :: 0 <= b < |bufs| && KeyOf(bufs[b]) == k && bufs[b].valid ==> bufs[b].data == v)
    && ((forall b :: 0 <= b < |bufs| && KeyOf(bufs[b]) == k ==> !bufs[b].valid) ==> DiskAt(disk, k) == v)
  }

  ghost predicate SameContents(bufs: seq<Buf>, disk: Storage, bufs': seq<Buf>, disk': Storage) {
    forall k: Key, v: Block :: k.dev != 0 ==> (Shows(bufs, disk, k, v) <==> Shows(bufs', disk', k, v))
  }

  lemma {:induction false} SameAsItself(bufs: seq<Buf>, disk: Storage)
    ensures SameContents(bufs, disk, bufs, disk)
  {
  }

  function Content(x: Buf, disk: Storage): Block {
    if x.valid then x.data else DiskAt(disk, KeyOf(x))
  }

  lemma {:induction false} ShowsHeld(bufs: seq<Buf>, disk: Storage, b: nat, v: Block)
    requires OneEach(bufs) && b < |bufs| && bufs[b].dev != 0
    ensures Shows(bufs, disk, KeyOf(bufs[b]), v) <==> v == Content(bufs[b], disk)
  {
  }

  lemma {:induction false} ShowsNone(bufs: seq<Buf>, disk: Storage, k: Key, v: Block)
    requires forall b :: 0 <= b < |bufs| ==> KeyOf(bufs[b]) != k
    ensures Shows(bufs, disk, k, v) <==> v == DiskAt(disk, k)
  {
  }

  /** Every block has one contents. */
  lemma {:induction false} ShowsOne(bufs: seq<Buf>, disk: Storage, k: Key)
    requires OneEach(bufs) && k.dev != 0
    ensures exists v :: Shows(bufs, disk, k, v) && forall w :: Shows(bufs, disk, k, w) ==> w == v
  {
    hide Shows, OneEach;
    if b :| 0 <= b < |bufs| && KeyOf(bufs[b]) == k {
      forall v {
        ShowsHeld(bufs, disk, b, v);
      }
      assert Shows(bufs, disk, k, Content(bufs[b], disk));
    } else {
      forall v {
        ShowsNone(bufs, disk, k, v);
      }
      assert Shows(bufs, disk, k, DiskAt(disk, k));
    }
  }

  /** Changing a buffer, and the disk at its block, without changing the contents of its block. */
  lemma {:induction false} UpdateSame(bufs: seq<Buf>, disk: Storage, b: nat, x: Buf, disk': Storage)
    requires OneEach(bufs) && b < |bufs| && KeyOf(x) == KeyOf(bufs[b])
    requires x.dev != 0 ==> Content(x, disk') == Content(bufs[b], disk)
    requires forall k :: k != KeyOf(x) ==> DiskAt(disk', k) == DiskAt(disk, k)
    ensures OneEach(bufs[b := x]) && SameContents(bufs, disk, bufs[b := x], disk')
  {
    var bufs' := bufs[b := x];
    assert forall a :: 0 <= a < |bufs| ==> KeyOf(bufs'[a]) == KeyOf(bufs[a]);
    assert OneEach(bufs');
    hide Shows, OneEach;
    forall k: Key, v: Block | k.dev != 0
      ensures Shows(bufs, disk, k, v) <==> Shows(bufs', disk', k, v)
    {
      if a :| 0 <= a < |bufs| && KeyOf(bufs[a]) == k {
        ShowsHeld(bufs, disk, a, v);
        ShowsHeld(bufs', disk', a, v);
        assert a != b ==> bufs'[a] == bufs[a];
        SameBlock(bufs, a, b);
      } else {
        ShowsNone(bufs, disk, k, v);
        ShowsNone(bufs', disk', k, v);
      }
    }
  }

  lemma {:induction false} SameBlock(bufs: seq<Buf>, a: nat, b: nat)
    requires OneEach(bufs) && a < |bufs| && b < |bufs| && bufs[a].dev != 0
    ensures KeyOf(bufs[a]) == KeyOf(bufs[b]) <==> a == b
  {
  }

  /** The disk has what the buffer has. */
  predicate OnDisk(x: Buf, disk: Storage) {
    x.valid && x.dev != 0 ==> x.data == DiskAt(disk, KeyOf(x))
  }

  /** Giving a buffer to a block that has none changes no contents exactly if what the buffer had is
      on disk. */
  lemma {:induction false} RecycleSame(bufs: seq<Buf>, disk: Storage, b: nat, x: Buf)
    requires OneEach(bufs) && b < |bufs| && !x.valid
    requires forall a :: 0 <= a < |bufs| ==> KeyOf(bufs[a]) != KeyOf(x)
    ensures OneEach(bufs[b := x])
    ensures SameContents(bufs, disk, bufs[b := x], disk) <==> OnDisk(bufs[b], disk)
  {
    var bufs' := bufs[b := x];
    assert OneEach(bufs');
    hide Shows, OneEach;
    forall k: Key, v: Block | k.dev != 0
      ensures k == KeyOf(bufs[b]) ==> (Shows(bufs, disk, k, v) <==> v == Content(bufs[b], disk))
      ensures k == KeyOf(bufs[b]) ==> (Shows(bufs', disk, k, v) <==> v == DiskAt(disk, k))
      ensures k != KeyOf(bufs[b]) ==> (Shows(bufs, disk, k, v) <==> Shows(bufs', disk, k, v))
    {
      RecycleShows(bufs, disk, b, x, k, v);
    }
    if bufs[b].dev != 0 {
      assert Shows(bufs, disk, KeyOf(bufs[b]), Content(bufs[b], disk));
    }
  }

  lemma {:induction false} RecycleShows(bufs: seq<Buf>, disk: Storage, b: nat, x: Buf, k: Key, v: Block)
    requires b < |bufs| && OneEach(bufs) && OneEach(bufs[b := x]) && !x.valid && k.dev != 0
    requires forall a :: 0 <= a < |bufs| ==> KeyOf(bufs[a]) != KeyOf(x)
    ensures k == KeyOf(bufs[b]) ==> (Shows(bufs, disk, k, v) <==> v == Content(bufs[b], disk))
    ensures k == KeyOf(bufs[b]) ==> (Shows(bufs[b := x], disk, k, v) <==> v == DiskAt(disk, k))
    ensures k != KeyOf(bufs[b]) ==> (Shows(bufs, disk, k, v) <==> Shows(bufs[b := x], disk, k, v))
  {
    hide Shows, OneEach;
    var bufs' := bufs[b := x];
    if k == KeyOf(x) {
      ShowsNone(bufs, disk, k, v);
      ShowsHeld(bufs', disk, b, v);
    } else if k == KeyOf(bufs[b]) {
      ShowsHeld(bufs, disk, b, v);
      forall a | 0 <= a < |bufs|
        ensures KeyOf(bufs'[a]) != k
      {
        SameBlock(bufs, b, a);
      }
      ShowsNone(bufs', disk, k, v);
    } else if a :| 0 <= a < |bufs| && KeyOf(bufs[a]) == k {
      ShowsHeld(bufs, disk, a, v);
      ShowsHeld(bufs', disk, a, v);
    } else {
      ShowsNone(bufs, disk, k, v);
      ShowsNone(bufs', disk, k, v);
    }
  }

  /** A store into a held buffer changes the contents of its block and of no other. */
  lemma {:induction false} StoreShows(bufs: seq<Buf>, disk: Storage, b: nat, d: Block, k: Key, v: Block)
    requires OneEach(bufs) && b < |bufs| && bufs[b].valid && k.dev != 0
    ensures Shows(bufs[b := bufs[b].(data := d)], disk, k, v) <==>
      if k == KeyOf(bufs[b]) then v == d else Shows(bufs, disk, k, v)
  {
    var bufs' := bufs[b := bufs[b].(data := d)];
    if k == KeyOf(bufs[b]) {
      assert OneEach(bufs');
      ShowsHeld(bufs', disk, b, v);
    } else {
      assert forall a :: 0 <= a < |bufs| && KeyOf(bufs[a]) == k ==> bufs'[a] == bufs[a];
      assert forall a :: 0 <= a < |bufs| ==> KeyOf(bufs'[a]) == KeyOf(bufs[a]);
    }
  }

  /** Block `k0` has new contents `d`; no other block has changed. */
  ghost predicate OneChanged(bufs: seq<Buf>, bufs': seq<Buf>, disk: Storage, k0: Key, d: Block) {
    forall k: Key, v: Block :: k.dev != 0 ==> (Shows(bufs', disk, k, v) <==>
      if k == k0 then v == d else Shows(bufs, disk, k, v))
  }

  lemma {:induction false} StoreChanges(bufs: seq<Buf>, disk: Storage, b: nat, d: Block)
    requires OneEach(bufs) && b < |bufs| && bufs[b].valid
    ensures OneEach(bufs[b := bufs[b].(data := d)])
    ensures OneChanged(bufs, bufs[b := bufs[b].(data := d)], disk, KeyOf(bufs[b]), d)
  {
    hide Shows;
    var bufs' := bufs[b := bufs[b].(data := d)];
    forall k: Key, v: Block | k.dev != 0
      ensures Shows(bufs', disk, k, v) <==> if k == KeyOf(bufs[b]) then v == d else Shows(bufs, disk, k, v)
    {
      StoreShows(bufs, disk, b, d, k, v);
    }
  }

  lemma {:induction false} CacheStep(bufs: seq<Buf>, disk: Storage, waiting: seq<nat>, leaving: seq<nat>,
                                     b: nat, x: Buf, disk': Storage, w: nat, l: nat)
    requires CacheOk(bufs, disk, waiting, leaving) && b < NBUF && OneEach(bufs[b := x])
    requires Counted(x, w, l) && Clean(x, disk')
    requires forall k :: k != KeyOf(x) ==> DiskAt(disk', k) == DiskAt(disk, k)
    requires disk' == disk || KeyOf(x) == KeyOf(bufs[b])
    ensures CacheOk(bufs[b := x], disk', waiting[b := w], leaving[b := l])
  {
  }

  ghost predicate Cached(bufs: seq<Buf>, k: Key) {
    exists b :: 0 <= b < |bufs| && KeyOf(bufs[b]) == k
  }

  /** One step on a buffer that keeps its block, and the contents of its block. */
  lemma {:induction false} UpdateOk(bufs: seq<Buf>, disk: Storage, waiting: seq<nat>, leaving: seq<nat>,
                                    b: nat, x: Buf, disk': Storage, w: nat, l: nat)
    requires CacheOk(bufs, disk, waiting, leaving) && b < NBUF && KeyOf(x) == KeyOf(bufs[b])
    requires Counted(bufs[b], waiting[b], leaving[b]) && Clean(bufs[b], disk) ==>
      Counted(x, w, l) && Clean(x, disk') && (x.dev != 0 ==> Content(x, disk') == Content(bufs[b], disk))
    requires forall k :: k != KeyOf(x) ==> DiskAt(disk', k) == DiskAt(disk, k)
    ensures CacheOk(bufs[b := x], disk', waiting[b := w], leaving[b := l])
    ensures SameContents(bufs, disk, bufs[b := x], disk')
    ensures Counted(bufs[b], waiting[b], leaving[b]) && Clean(bufs[b], disk)
  {
    hide SameContents;
    UpdateSame(bufs, disk, b, x, disk');
    CacheStep(bufs, disk, waiting, leaving, b, x, disk', w, l);
  }

  lemma {:induction false} NotClean(bufs: seq<Buf>, disk: Storage, waiting: seq<nat>, leaving: seq<nat>, b: nat)
    requires b < NBUF == |bufs| && bufs[b].pid == 0 && !bufs[b].dirty && !OnDisk(bufs[b], disk)
    ensures !CacheOk(bufs, disk, waiting, leaving)
  {
    assert !Clean(bufs[b], disk);
  }

  lemma {:induction false} RecycleOk(bufs: seq<Buf>, disk: Storage, waiting: seq<nat>, leaving: seq<nat>, b: nat,
        x: Buf)
    requires CacheOk(bufs, disk, waiting, leaving) && b < NBUF && bufs[b].refcnt == 0 && !bufs[b].dirty
    requires !x.valid && !x.dirty && x.refcnt == 1 && x.pid == 0 && !Cached(bufs, KeyOf(x))
    ensures |bufs| == NBUF == |waiting| && bufs[b].pid == 0 && waiting[b] == 0
    ensures CacheOk(bufs[b := x], disk, waiting[b := waiting[b] + 1], leaving)
    ensures SameContents(bufs, disk, bufs[b := x], disk)
  {
  }

  // ---------------------------------------------------------------- choosing a buffer

  predicate Unused(x: Buf) {
    x.refcnt == 0 && !x.dirty
  }

  ghost predicate OnList(bufs: seq<Buf>, order: seq<nat>) {
    |bufs| == NBUF && Full(order)
  }

  /** `b` is the most recently used buffer of block `k`. */
  ghost predicate FirstFor(bufs: seq<Buf>, order: seq<nat>, k: Key, b: nat)
    requires OnList(bufs, order)
  {
    exists i :: 0 <= i < |order| && order[i] == b && KeyOf(bufs[b]) == k && forall j :: 0 <= j < i ==>
      KeyOf(bufs[order[j]]) != k
  }

  /** `b` is the least recently used buffer nobody uses. */
  ghost predicate LastUnused(bufs: seq<Buf>, order: seq<nat>, b: nat)
    requires OnList(bufs, order)
  {
    exists i :: 0 <= i < |order| && order[i] == b && Unused(bufs[b]) && forall j :: i < j < |order| ==>
      !Unused(bufs[order[j]])
  }

  /** What looking along the whole list in vain means for the array. */
  lemma {:induction false} NotOnList(bufs: seq<Buf>, order: seq<nat>, k: Key)
    requires OnList(bufs, order) && forall j :: 0 <= j < |order| ==> KeyOf(bufs[order[j]]) != k
    ensures !Cached(bufs, k)
  {
    forall b | 0 <= b < NBUF
      ensures KeyOf(bufs[b]) != k
    {
      assert b in order;
    }
  }

  lemma {:induction false} NoneUnused(bufs: seq<Buf>, order: seq<nat>)
    requires OnList(bufs, order) && forall j :: 0 <= j < |order| ==> !Unused(bufs[order[j]])
    ensures forall b :: 0 <= b < NBUF ==> !Unused(bufs[b])
  {
    forall b | 0 <= b < NBUF
      ensures !Unused(bufs[b])
    {
      assert b in order;
    }
  }

  // ---------------------------------------------------------------- the code

  /** Links `b` in after the head. */
  method LinkFront(next: array<nat>, prev: array<nat>, b: nat, ghost order: seq<nat>)
    requires next != prev && Linked(next[..], prev[..], order) && b < NBUF && b !in order
    modifies next, prev
    ensures Linked(next[..], prev[..], [b] + order)
  {
    PushFront(next[..], prev[..], order, b);
    hide Linked;
    ghost var n, p := next[..], prev[..];
    next[b] := next[HEAD];
    prev[b] := HEAD;
    prev[next[HEAD]] := b;
    next[HEAD] := b;
    assert next[..] == FrontNext(n, b) && prev[..] == FrontPrev(n, p, b);
  }

  /** Takes `b`, at place `i`, out of the list. */
  method Unlink(next: array<nat>, prev: array<nat>, b: nat, ghost order: seq<nat>, ghost i: nat)
    requires next != prev && Linked(next[..], prev[..], order) && i < |order| && order[i] == b
    modifies next, prev
    ensures Linked(next[..], prev[..], Without(order, i)) && b !in Without(order, i)
  {
    TakeOut(next[..], prev[..], order, i);
    hide Linked;
    ghost var n, p := next[..], prev[..];
    assert |n| == NBUF + 1 && |p| == NBUF + 1;
    prev[next[b]] := prev[b];
    next[prev[b]] := next[b];
    assert next[..] == n[p[b] := n[b]] && prev[..] == p[n[b] := p[b]];
  }

  lemma {:induction false} JustHead(next: seq<nat>, prev: seq<nat>)
    requires |next| == NBUF + 1 && |prev| == NBUF + 1 && next[HEAD] == HEAD && prev[HEAD] == HEAD
    ensures Linked(next, prev, [])
  {
  }

  lemma {:induction false} Sizes(bufs: seq<Buf>, disk: Storage, waiting: seq<nat>, leaving: seq<nat>)
    requires CacheOk(bufs, disk, waiting, leaving)
    ensures |bufs| == NBUF && |waiting| == NBUF && |leaving| == NBUF
    ensures SameContents(bufs, disk, bufs, disk)
  {
  }

  lemma {:induction false} SameTwice(bufs: seq<Buf>, disk: Storage, bufs1: seq<Buf>, disk1: Storage, bufs2: seq<Buf>,
        disk2: Storage)
    requires SameContents(bufs, disk, bufs1, disk1) && SameContents(bufs1, disk1, bufs2, disk2)
    ensures SameContents(bufs, disk, bufs2, disk2)
  {
  }

  /** `b` is now first; the others keep their order. */
  ghost predicate MovedToFront(order: seq<nat>, order': seq<nat>, b: nat) {
    exists i: nat :: i < |order| && order[i] == b && order' == [b] + Without(order, i)
  }

  class Bcache {
    const buf: array<Buf>
    const next: array<nat>
    const prev: array<nat>
    var disk: Storage
    ghost var order: seq<nat>    // from head.next on
    ghost var waiting: seq<nat>  // processes in acquiresleep, for each buffer
    ghost var leaving: seq<nat>  // processes between releasesleep and the end of brelse

    ghost predicate Valid()
      reads this, buf, next, prev
    {
      && buf.Length == NBUF && next.Length == NBUF + 1 && prev.Length == NBUF + 1 && next != prev
      && Full(order) && Linked(next[..], prev[..], order)
      && CacheOk(buf[..], disk, waiting, leaving)
    }

    /** binit, over zeroed memory. */
    constructor Binit(disk: Storage)
      ensures Valid() && this.disk == disk && fresh(buf) && fresh(next) && fresh(prev)
      ensures |order| == NBUF && forall i :: 0 <= i < NBUF ==> order[i] == NBUF - 1 - i
      ensures forall b :: 0 <= b < NBUF ==> buf[b] == Buf(0, 0, false, false, 0, 0, ZeroBlock())
    {
      this.disk := disk;
      buf := new Buf[NBUF](_ => Buf(0, 0, false, false, 0, 0, ZeroBlock()));
      next, prev := new nat[NBUF + 1](_ => 0), new nat[NBUF + 1](_ => 0);
      order, waiting, leaving := [], seq(NBUF, _ => 0), seq(NBUF, _ => 0);
      new;
      prev[HEAD] := HEAD;
      next[HEAD] := HEAD;
      hide NextOk, PrevOk;
      JustHead(next[..], prev[..]);
      for b := 0 to NBUF
        invariant Linked(next[..], prev[..], order)
        invariant |order| == b && forall i :: 0 <= i < b ==> order[i] == b - 1 - i
        invariant fresh(next) && fresh(prev)
        modifies this`order, next, prev
      {
        LinkFront(next, prev, b, order);
        order := [b] + order;
      }
      forall b | 0 <= b < NBUF
        ensures b in order
      {
        assert order[NBUF - 1 - b] == b;
      }
    }

    method AddRef(b: nat)
      requires Valid() && b < NBUF
      modifies this`waiting, buf
      ensures Valid() && SameContents(old(buf[..]), disk, buf[..], disk)
      ensures buf[..] == old(buf[..])[b := old(buf[b]).(refcnt := old(buf[b]).refcnt + 1)]
      ensures |old(waiting)| == NBUF && waiting == old(waiting)[b := old(waiting)[b] + 1]
    {
      hide SameContents, Linked;
      ghost var bufs := buf[..];
      UpdateOk(bufs, disk, waiting, leaving, b, bufs[b].(refcnt := bufs[b].refcnt + 1), disk, waiting[b] + 1,
        leaving[b]);
      buf[b] := buf[b].(refcnt := buf[b].refcnt + 1);
      waiting := waiting[b := waiting[b] + 1];
      assert buf[..] == bufs[b := bufs[b].(refcnt := bufs[b].refcnt + 1)] && leaving[b := leaving[b]] == leaving;
    }

    method Recycle(b: nat, dev: nat, blockno: nat)
      requires Valid() && b < NBUF && Unused(buf[b]) && !Cached(buf[..], Key(dev, blockno))
      modifies this`waiting, buf
      ensures Valid() && SameContents(old(buf[..]), disk, buf[..], disk)
      ensures |old(waiting)| == NBUF && old(waiting)[b] == 0 && old(buf[b]).pid == 0
      ensures buf[..] == old(buf[..])[b := Buf(dev, blockno, false, false, 1, 0, old(buf[b]).data)]
      ensures waiting == old(waiting)[b := 1]
    {
      hide SameContents, Linked, CacheOk, Full;
      ghost var bufs := buf[..];
      RecycleOk(bufs, disk, waiting, leaving, b, Buf(dev, blockno, false, false, 1, 0, bufs[b].data));
      buf[b] := buf[b].(dev := dev);
      buf[b] := buf[b].(blockno := blockno);
      buf[b] := buf[b].(valid := false, dirty := false);
      buf[b] := buf[b].(refcnt := 1);
      waiting := waiting[b := waiting[b] + 1];
      assert buf[..] == bufs[b := Buf(dev, blockno, false, false, 1, 0, bufs[b].data)];
    }

    /** The part of bget under bcache.lock: find the block's buffer or recycle one. None is the
        panic for want of buffers. */
    method Bget(dev: nat, blockno: nat) returns (r: Option<nat>)
      requires Valid()
      modifies this`waiting, buf
      ensures Valid() && SameContents(old(buf[..]), disk, buf[..], disk)
      ensures r.None? <==>
        !Cached(old(buf[..]), Key(dev, blockno)) && forall b :: 0 <= b < NBUF ==> !Unused(old(buf[b]))
      ensures r.None? ==> buf[..] == old(buf[..]) && waiting == old(waiting)
      ensures r.Some? ==> r.value < NBUF && waiting == old(waiting)[r.value := old(waiting)[r.value] + 1]
      ensures r.Some? && Cached(old(buf[..]), Key(dev, blockno)) ==>
        FirstFor(old(buf[..]), order, Key(dev, blockno), r.value)
      ensures r.Some? && Cached(old(buf[..]), Key(dev, blockno)) ==>
        buf[..] == old(buf[..])[r.value := old(buf[r.value]).(refcnt := old(buf[r.value]).refcnt + 1)]
      ensures r.Some? && !Cached(old(buf[..]), Key(dev, blockno)) ==> LastUnused(old(buf[..]), order, r.value)
      ensures r.Some? && !Cached(old(buf[..]), Key(dev, blockno)) ==>
        old(buf[r.value]).pid == 0 && old(waiting)[r.value] == 0
      ensures r.Some? && !Cached(old(buf[..]), Key(dev, blockno)) ==>
        buf[..] == old(buf[..])[r.value := Buf(dev, blockno, false, false, 1, 0, old(buf[r.value]).data)]
    {
      hide Shows, SameContents, CacheOk, Linked, FirstFor, LastUnused, Cached;
      r := FindCached(dev, blockno);
      if r.Some? {
        AddRef(r.value);
        return;
      }
      r := FindUnused();
      if r.Some? {
        Recycle(r.value, dev, blockno);
      } else {
        SameAsItself(buf[..], disk);
      }
    }

    /** bget's first loop: the block's buffer. */
    method FindCached(dev: nat, blockno: nat) returns (r: Option<nat>)
      requires Valid()
      ensures r.None? <==> !Cached(buf[..], Key(dev, blockno))
      ensures r.Some? ==> r.value < NBUF && FirstFor(buf[..], order, Key(dev, blockno), r.value)
    {
      hide CacheOk, PrevOk, NextOk;
      ghost var k := Key(dev, blockno);
      Sizes(buf[..], disk, waiting, leaving);
      NextAt(next[..], order, -1);
      var b := next[HEAD];
      ghost var i := 0;
      while b != HEAD
        invariant 0 <= i <= |order| && b == At(order, i)
        invariant forall j :: 0 <= j < i ==> KeyOf(buf[order[j]]) != k
        decreases |order| - i
      {
        if buf[b].dev == dev && buf[b].blockno == blockno {
          assert FirstFor(buf[..], order, k, b) && KeyOf(buf[..][b]) == k;
          return Some(b);
        }
        NextAt(next[..], order, i);
        b, i := next[b], i + 1;
      }
      NotOnList(buf[..], order, k);
      return None;
    }

    /** Its second loop: the least recently used buffer that nobody references and that is not pinned. */
    method FindUnused() returns (r: Option<nat>)
      requires Valid()
      ensures r.None? <==> forall b :: 0 <= b < NBUF ==> !Unused(buf[b])
      ensures r.Some? ==> r.value < NBUF && Unused(buf[r.value]) && LastUnused(buf[..], order, r.value)
    {
      hide CacheOk, PrevOk, NextOk;
      Sizes(buf[..], disk, waiting, leaving);
      PrevAt(prev[..], order, |order|);
      var b := prev[HEAD];
      ghost var i := |order| - 1;
      while b != HEAD
        invariant -1 <= i < |order| && b == At(order, i)
        invariant forall j :: i < j < |order| ==> !Unused(buf[order[j]])
        decreases i
      {
        if buf[b].refcnt == 0 && !buf[b].dirty {
          assert LastUnused(buf[..], order, b);
          return Some(b);
        }
        PrevAt(prev[..], order, i);
        b, i := prev[b], i - 1;
      }
      NoneUnused(buf[..], order);
      return None;
    }

    /** acquiresleep: true if the buffer was free and is now held, false if the process sleeps on. */
    method AcquireSleep(b: nat, pid: nat) returns (ok: bool)
      requires Valid() && b < NBUF && pid > 0 && waiting[b] > 0
      modifies this`waiting, buf
      ensures Valid() && SameContents(old(buf[..]), disk, buf[..], disk)
      ensures ok <==> old(buf[b]).pid == 0
      ensures buf[..] == if ok then old(buf[..])[b := old(buf[b]).(pid := pid)] else old(buf[..])
      ensures |old(waiting)| == NBUF && waiting == if ok then old(waiting)[b := old(waiting)[b] - 1] else old(waiting)
    {
      hide SameContents, Linked;
      ghost var bufs := buf[..];
      Sizes(bufs, disk, waiting, leaving);
      if buf[b].pid != 0 {
        return false;
      }
      UpdateOk(bufs, disk, waiting, leaving, b, bufs[b].(pid := pid), disk, waiting[b] - 1, leaving[b]);
      buf[b] := buf[b].(pid := pid);
      waiting := waiting[b := waiting[b] - 1];
      assert buf[..] == bufs[b := bufs[b].(pid := pid)] && leaving[b := leaving[b]] == leaving;
      return true;
    }

    /** iderw, as one transfer: a dirty buffer is written, one without data is read. False is one
        of its panics. */
    method Iderw(b: nat, pid: nat) returns (ok: bool)
      requires Valid() && b < NBUF && pid > 0
      modifies this`disk, buf
      ensures Valid() && SameContents(old(buf[..]), old(disk), buf[..], disk)
      ensures ok <==> old(buf[b]).pid == pid && (old(buf[b]).dirty || !old(buf[b]).valid)
      ensures !ok ==> buf[..] == old(buf[..])
      ensures ok ==>
        && buf[..] == old(buf[..])[b := old(buf[b]).(valid := true, dirty := false,
          data := Content(old(buf[b]), old(disk)))]
      ensures disk == if ok && old(buf[b]).dirty then old(disk)[KeyOf(old(buf[b])) := old(buf[b]).data] else old(disk)
    {
      hide SameContents, Linked;
      ghost var bufs := buf[..];
      Sizes(bufs, disk, waiting, leaving);
      if buf[b].pid != pid || (buf[b].valid && !buf[b].dirty) {
        return false;
      }
      ghost var x := buf[b].(valid := true, dirty := false, data := Content(buf[b], disk));
      ghost var disk' := if buf[b].dirty then disk[KeyOf(buf[b]) := buf[b].data] else disk;
      UpdateOk(bufs, disk, waiting, leaving, b, x, disk', waiting[b], leaving[b]);
      if buf[b].dirty {
        disk := disk[KeyOf(buf[b]) := buf[b].data];
      } else {
        buf[b] := buf[b].(data := DiskAt(disk, KeyOf(buf[b])));
      }
      buf[b] := buf[b].(valid := true, dirty := false);
      assert buf[..] == bufs[b := x] && leaving[b := leaving[b]] == leaving && waiting[b := waiting[b]] == waiting;
      return true;
    }

    /** The end of bread, by the process that now holds the buffer. */
    method ReadIn(b: nat, pid: nat)
      requires Valid() && b < NBUF && pid > 0 && buf[b].pid == pid
      modifies this`disk, buf
      ensures Valid() && disk == old(disk) && SameContents(old(buf[..]), disk, buf[..], disk)
      ensures buf[..] == old(buf[..])[b := old(buf[b]).(valid := true, data := Content(old(buf[b]), disk))]
      ensures buf[b].dev != 0 ==> Shows(buf[..], disk, KeyOf(buf[b]), buf[b].data)
    {
      hide SameContents, Linked, Shows;
      ghost var bufs := buf[..];
      Sizes(bufs, disk, waiting, leaving);
      assert Clean(bufs[b], disk);
      if !buf[b].valid {
        var ok := Iderw(b, pid);
      }
      assert buf[..] == bufs[b := bufs[b].(valid := true, data := Content(bufs[b], disk))];
      if buf[b].dev != 0 {
        ShowsHeld(buf[..], disk, b, buf[b].data);
      }
    }

    /** What a holder does between bread and bwrite or log_write. */
    method Store(b: nat, pid: nat, d: Block)
      requires Valid() && b < NBUF && pid > 0 && buf[b].pid == pid && buf[b].valid
      modifies buf
      ensures Valid() && buf[..] == old(buf[..])[b := old(buf[b]).(data := d)]
      ensures OneChanged(old(buf[..]), buf[..], disk, KeyOf(buf[b]), d)
    {
      hide Linked, OneChanged;
      ghost var bufs := buf[..];
      Sizes(bufs, disk, waiting, leaving);
      assert Counted(bufs[b], waiting[b], leaving[b]) && Clean(bufs[b], disk);
      StoreChanges(bufs, disk, b, d);
      CacheStep(bufs, disk, waiting, leaving, b, bufs[b].(data := d), disk, waiting[b], leaving[b]);
      buf[b] := buf[b].(data := d);
      assert buf[..] == bufs[b := bufs[b].(data := d)] && leaving[b := leaving[b]] == leaving &&
        waiting[b := waiting[b]] == waiting;
    }

    /** False is the panic of a process that does not hold the buffer. */
    method Bwrite(b: nat, pid: nat) returns (ok: bool)
      requires Valid() && b < NBUF && pid > 0 && buf[b].valid
      modifies this`disk, buf
      ensures Valid() && SameContents(old(buf[..]), old(disk), buf[..], disk)
      ensures ok <==> old(buf[b]).pid == pid
      ensures !ok ==> buf[..] == old(buf[..]) && disk == old(disk)
      ensures ok ==> buf[..] == old(buf[..])[b := old(buf[b]).(dirty := false)]
      ensures ok ==> disk == old(disk)[KeyOf(old(buf[b])) := old(buf[b]).data]
    {
      hide SameContents, Linked;
      ghost var bufs, disk0 := buf[..], disk;
      Sizes(bufs, disk, waiting, leaving);
      if buf[b].pid != pid {
        return false;
      }
      LogWrite(b);
      ok := Iderw(b, pid);
      assert buf[..] == bufs[b := bufs[b].(dirty := false)];
      hide CacheOk, Full;
      SameTwice(bufs, disk0, bufs[b := bufs[b].(dirty := true)], disk0, buf[..], disk);
    }

    /** log_write's (and bwrite's) setting of B_DIRTY. */
    method LogWrite(b: nat)
      requires Valid() && b < NBUF && buf[b].valid
      modifies buf
      ensures Valid() && SameContents(old(buf[..]), disk, buf[..], disk)
      ensures buf[..] == old(buf[..])[b := old(buf[b]).(dirty := true)]
    {
      hide SameContents, Linked;
      ghost var bufs := buf[..];
      Sizes(bufs, disk, waiting, leaving);
      UpdateOk(bufs, disk, waiting, leaving, b, bufs[b].(dirty := true), disk, waiting[b], leaving[b]);
      buf[b] := buf[b].(dirty := true);
      assert buf[..] == bufs[b := bufs[b].(dirty := true)] && leaving[b := leaving[b]] == leaving &&
        waiting[b := waiting[b]] == waiting;
    }

    /** The start of brelse. False is the panic of a process that does not hold the buffer. The invariant
        survives exactly if a changed buffer has been written or is pinned. */
    method ReleaseSleep(b: nat, pid: nat) returns (ok: bool)
      requires Valid() && b < NBUF && pid > 0
      modifies this`leaving, buf
      ensures SameContents(old(buf[..]), disk, buf[..], disk)
      ensures ok <==> old(buf[b]).pid == pid
      ensures Valid() <==> !ok || old(buf[b]).dirty || OnDisk(old(buf[b]), disk)
      ensures buf[..] == if ok then old(buf[..])[b := old(buf[b]).(pid := 0)] else old(buf[..])
      ensures |old(leaving)| == NBUF && leaving == if ok then old(leaving)[b := old(leaving)[b] + 1] else old(leaving)
    {
      hide SameContents, Linked;
      ghost var bufs, leave := buf[..], leaving;
      Sizes(bufs, disk, waiting, leaving);
      if buf[b].pid != pid {
        return false;
      }
      ghost var x := bufs[b].(pid := 0);
      UpdateSame(bufs, disk, b, x, disk);
      buf[b] := buf[b].(pid := 0);
      leaving := leaving[b := leaving[b] + 1];
      assert buf[..] == bufs[b := x] && waiting[b := waiting[b]] == waiting;
      if x.dirty || OnDisk(x, disk) {
        UpdateOk(bufs, disk, waiting, leave, b, x, disk, waiting[b], leave[b] + 1);
      } else {
        NotClean(buf[..], disk, waiting, leaving, b);
      }
      return true;
    }

    /** The rest of brelse, under bcache.lock: the last user moves the buffer to the front. */
    method Drop(b: nat)
      requires Valid() && b < NBUF && leaving[b] > 0
      modifies this`leaving, this`order, buf, next, prev
      ensures Valid() && SameContents(old(buf[..]), disk, buf[..], disk)
      ensures old(buf[b]).refcnt > 0 && buf[..] == old(buf[..])[b := old(buf[b]).(refcnt := old(buf[b]).refcnt - 1)]
      ensures |old(leaving)| == NBUF && leaving == old(leaving)[b := old(leaving)[b] - 1]
      ensures buf[b].refcnt > 0 ==> order == old(order)
      ensures buf[b].refcnt == 0 ==> MovedToFront(old(order), order, b)
    {
      hide SameContents, CacheOk, Linked, MovedToFront;
      DropRef(b);
      if buf[b].refcnt == 0 {
        ToFront(b);
      }
    }

    method DropRef(b: nat)
      requires Valid() && b < NBUF && leaving[b] > 0
      modifies this`leaving, buf
      ensures Valid() && SameContents(old(buf[..]), disk, buf[..], disk)
      ensures old(buf[b]).refcnt > 0 && buf[..] == old(buf[..])[b := old(buf[b]).(refcnt := old(buf[b]).refcnt - 1)]
      ensures |old(leaving)| == NBUF && leaving == old(leaving)[b := old(leaving)[b] - 1]
    {
      hide SameContents, Linked, Full;
      ghost var bufs, was := buf[..], leaving;
      Sizes(bufs, disk, waiting, leaving);
      ghost var x := bufs[b].(refcnt := if bufs[b].refcnt > 0 then bufs[b].refcnt - 1 else 0);
      UpdateOk(bufs, disk, waiting, leaving, b, x, disk, waiting[b], leaving[b] - 1);
      buf[b] := buf[b].(refcnt := buf[b].refcnt - 1);
      leaving := leaving[b := leaving[b] - 1];
      assert buf[..] == bufs[b := x] && waiting[b := waiting[b]] == waiting;
    }

    method ToFront(b: nat)
      requires Valid() && b < NBUF
      modifies this`order, next, prev
      ensures Valid() && MovedToFront(old(order), order, b)
    {
      hide CacheOk, Linked;
      assert b in order;
      ghost var i: nat :| i < |order| && order[i] == b;
      ToFrontFull(order, i);
      hide Full;
      Unlink(next, prev, b, order, i);
      LinkFront(next, prev, b, Without(order, i));
      order := [b] + Without(order, i);
      assert MovedToFront(old(order), order, b);
    }
  }
}
