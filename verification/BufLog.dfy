/** The buffer cache under the log: log_write pins a buffer for every block of the transaction, and
    there are as many buffers as LOGSIZE. How many are left for bget. */
module BufLog {
  import opened Blocks
  import opened LogDisk
  import opened LogProtocol
  import opened LogTheorems
  import opened BufLinks
  import opened BufCache

  const ROOTDEV := 1

  predicate Logged(x: Buf, blocks: seq<nat>) {
    x.dev == ROOTDEV && x.blockno in blocks
  }

  /** Every logged block has its pinned buffer, and the other buffers that are not free for bget are
      those in `held`, which somebody references. */
  ghost predicate Pins(bufs: seq<Buf>, blocks: seq<nat>, held: set<nat>) {
    && |bufs| == NBUF && OneEach(bufs)
    && (forall i :: 0 <= i < |blocks| ==> HasPin(bufs, blocks[i]))
    && (forall b :: b in held ==> b < NBUF && bufs[b].refcnt > 0 && !Logged(bufs[b], blocks))
    && (forall b :: 0 <= b < NBUF && !Unused(bufs[b]) ==> Logged(bufs[b], blocks) || b in held)
  }

  ghost predicate HasPin(bufs: seq<Buf>, blockno: nat) {
    exists b :: 0 <= b < |bufs| && KeyOf(bufs[b]) == Key(ROOTDEV, blockno) && bufs[b].dirty
  }

  function Unuseds(bufs: seq<Buf>): set<nat> {
    set b: nat | b < |bufs| && Unused(bufs[b])
  }

  function Loggeds(bufs: seq<Buf>, blocks: seq<nat>): set<nat> {
    set b: nat | b < |bufs| && Logged(bufs[b], blocks)
  }

  lemma {:induction false} PinOf(bufs: seq<Buf>, front: seq<nat>, last: nat, b: nat, a: nat)
    requires OneEach(bufs) && b < |bufs| && KeyOf(bufs[b]) == Key(ROOTDEV, last)
    ensures a in Loggeds(bufs, front + [last]) <==> a in Loggeds(bufs, front) || a == b
  {
    hide OneEach;
    if a < |bufs| && KeyOf(bufs[a]) == Key(ROOTDEV, last) {
      SameBlock(bufs, a, b);
    }
  }

  lemma {:induction false} OnePinEach(bufs: seq<Buf>, blocks: seq<nat>)
    requires OneEach(bufs) && Distinct(blocks) && forall i :: 0 <= i < |blocks| ==> HasPin(bufs, blocks[i])
    ensures |Loggeds(bufs, blocks)| == |blocks|
    ensures forall b :: b in Loggeds(bufs, blocks) ==> !Unused(bufs[b])
  {
    hide OneEach;
    if blocks == [] {
      assert Loggeds(bufs, blocks) == {};
    } else {
      var front, last := blocks[..|blocks| - 1], blocks[|blocks| - 1];
      OnePinEach(bufs, front);
      assert HasPin(bufs, last);
      var b: nat :| b < |bufs| && KeyOf(bufs[b]) == Key(ROOTDEV, last) && bufs[b].dirty;
      assert blocks == front + [last];
      hide Loggeds;
      forall a: nat
        ensures a in Loggeds(bufs, blocks) <==> a in Loggeds(bufs, front) || a == b
      {
        PinOf(bufs, front, last, b, a);
      }
      assert Loggeds(bufs, blocks) == Loggeds(bufs, front) + {b};
      NotLoggedYet(bufs, front, last, b);
    }
  }

  lemma {:induction false} NotLoggedYet(bufs: seq<Buf>, front: seq<nat>, last: nat, b: nat)
    requires Distinct(front + [last]) && b < |bufs| && KeyOf(bufs[b]) == Key(ROOTDEV, last)
    ensures b !in Loggeds(bufs, front)
  {
    forall i | 0 <= i < |front|
      ensures front[i] != last
    {
      assert (front + [last])[i] != (front + [last])[|front|];
    }
  }

  lemma {:induction false} Three(a: set<nat>, b: set<nat>, c: set<nat>)
    requires a !! b && a !! c && b !! c
    ensures |a + b + c| == |a| + |b| + |c|
  {
  }

  function Below(n: nat): (s: set<nat>)
    ensures |s| == n && forall b: nat :: b in s <==> b < n
  {
    if n == 0 then {} else Below(n - 1) + {n - 1}
  }

  /** The buffers left for bget are exactly as many as there are beside the logged blocks and the
      buffers held. */
  lemma {:induction false} BuffersLeft(bufs: seq<Buf>, blocks: seq<nat>, held: set<nat>)
    requires Pins(bufs, blocks, held) && Distinct(blocks)
    ensures |Unuseds(bufs)| + |blocks| + |held| == NBUF
  {
    hide OneEach, HasPin, Below;
    OnePinEach(bufs, blocks);
    var free, pinned := Unuseds(bufs), Loggeds(bufs, blocks);
    assert free !! pinned && free !! held && pinned !! held;
    forall b: nat
      ensures b in free + pinned + held <==> b in Below(NBUF)
    {
    }
    assert free + pinned + held == Below(NBUF);
    Three(free, pinned, held);
  }

  lemma {:induction false} PinsKept(bufs: seq<Buf>, blocks: seq<nat>, b: nat, x: Buf)
    requires b < |bufs| && (bufs[b].dirty ==> x.dirty && KeyOf(x) == KeyOf(bufs[b]))
    requires forall i :: 0 <= i < |blocks| ==> HasPin(bufs, blocks[i])
    ensures forall i :: 0 <= i < |blocks| ==> HasPin(bufs[b := x], blocks[i])
  {
    forall i | 0 <= i < |blocks|
      ensures HasPin(bufs[b := x], blocks[i])
    {
      assert HasPin(bufs, blocks[i]);
      var a: nat :| a < |bufs| && KeyOf(bufs[a]) == Key(ROOTDEV, blocks[i]) && bufs[a].dirty;
      assert bufs[b := x][a].dirty;
    }
  }

  /** bget's recycling of a buffer for a block that is not cached: one more is held. */
  lemma {:induction false} RecyclePins(bufs: seq<Buf>, blocks: seq<nat>, held: set<nat>, b: nat, x: Buf)
    requires Pins(bufs, blocks, held) && b < NBUF && Unused(bufs[b]) && x.refcnt > 0 && !x.dirty
    requires !Cached(bufs, KeyOf(x))
    ensures Pins(bufs[b := x], blocks, held + {b})
  {
    PinsKept(bufs, blocks, b, x);
    assert OneEach(bufs[b := x]);
    forall i | 0 <= i < |blocks|
      ensures Key(ROOTDEV, blocks[i]) != KeyOf(x)
    {
      assert HasPin(bufs, blocks[i]);
    }
  }

  /** log_write of a buffer held for a block not logged yet: it is pinned instead. */
  lemma {:induction false} LogWritePins(bufs: seq<Buf>, blocks: seq<nat>, held: set<nat>, b: nat)
    requires Pins(bufs, blocks, held) && b in held && bufs[b].dev == ROOTDEV
    ensures Pins(bufs[b := bufs[b].(dirty := true)], blocks + [bufs[b].blockno], held - {b})
  {
    var x, blocks' := bufs[b].(dirty := true), blocks + [bufs[b].blockno];
    PinsKept(bufs, blocks, b, x);
    assert OneEach(bufs[b := x]);
    assert KeyOf(bufs[b := x][b]) == Key(ROOTDEV, x.blockno) && HasPin(bufs[b := x], x.blockno);
    forall a | 0 <= a < NBUF && a != b
      ensures Logged(bufs[a], blocks') <==> Logged(bufs[a], blocks)
    {
      SameBlock(bufs, b, a);
    }
  }

  /** brelse of a buffer that is not pinned, by its last user: one less is held. */
  lemma {:induction false} DropPins(bufs: seq<Buf>, blocks: seq<nat>, held: set<nat>, b: nat)
    requires Pins(bufs, blocks, held) && b in held && !bufs[b].dirty
    ensures Pins(bufs[b := bufs[b].(refcnt := 0, pid := 0)], blocks, held - {b})
  {
    var x := bufs[b].(refcnt := 0, pid := 0);
    PinsKept(bufs, blocks, b, x);
    assert OneEach(bufs[b := x]);
  }

  /** With project1's constants, after every run bget finds a buffer for a block that is not cached
      exactly if the logged blocks and the buffers held are fewer than NBUF. When nobody holds a
      buffer, so also for a commit alone, there is always one: at most 29 blocks are logged. */
  lemma {:induction false} BgetFinds(v: Variant, d0: Disk, start: nat, s0: Sys, run: seq<Action>, bufs: seq<Buf>,
        held: set<nat>)
    requires Initial(Project1(start), v, d0, s0) && Possible(Project1(start), v, s0, run)
    requires Pins(bufs, After(Project1(start), v, s0, run).blocks, held)
    ensures var blocks := After(Project1(start), v, s0, run).blocks;
      && |Unuseds(bufs)| == NBUF - |blocks| - |held|
      && ((exists b :: 0 <= b < NBUF && Unused(bufs[b])) <==> |blocks| + |held| < NBUF)
      && (held == {} ==> exists b :: 0 <= b < NBUF && Unused(bufs[b]))
  {
    var s := After(Project1(start), v, s0, run);
    hide Initial, Possible, After, Pins;
    BuffersLeft(bufs, s.blocks, held);
    assert |bufs| == NBUF by {
      PinsAll(bufs, s.blocks, held);
    }
    if b :| 0 <= b < NBUF && Unused(bufs[b]) {
      assert b in Unuseds(bufs);
    }
    if Unuseds(bufs) != {} {
      var b :| b in Unuseds(bufs);
    }
  }

  lemma {:induction false} PinsAll(bufs: seq<Buf>, blocks: seq<nat>, held: set<nat>)
    requires Pins(bufs, blocks, held)
    ensures |bufs| == NBUF
  {
  }

  /** 29 buffers pinned for the blocks from `first` on, and one held by a reader. */
  function FullCache(first: nat): (bufs: seq<Buf>)
    ensures |bufs| == NBUF
  {
    seq(NBUF, b requires 0 <= b < NBUF =>
      if b < 29 then Buf(ROOTDEV, first + b, true, true, 0, 0, ZeroBlock())
      else Buf(ROOTDEV, first + b, true, false, 1, 1, ZeroBlock()))
  }

  lemma {:induction false} FullCachePins(first: nat, blocks: seq<nat>)
    requires |blocks| == 29 && forall i :: 0 <= i < 29 ==> blocks[i] == first + i
    ensures Pins(FullCache(first), blocks, {29})
    ensures CacheOk(FullCache(first), map[], seq(NBUF, _ => 0), seq(NBUF, _ => 0))
    ensures forall b :: 0 <= b < NBUF ==> !Unused(FullCache(first)[b])
    ensures forall k: nat :: k < first ==> !Cached(FullCache(first), Key(ROOTDEV, k))
  {
    var bufs := FullCache(first);
    forall b | 0 <= b < 29
      ensures bufs[b].blockno in blocks
    {
      assert bufs[b].blockno == blocks[b];
    }
    forall i | 0 <= i < |blocks|
      ensures HasPin(bufs, blocks[i])
    {
      assert KeyOf(bufs[i]) == Key(ROOTDEV, blocks[i]);
    }
  }

  lemma {:induction false} FilledBlocks(s: Sys, first: nat)
    requires Filled(s, first, 29)
    ensures s.mode.Up? && |s.blocks| == 29 && forall i :: 0 <= i < 29 ==> s.blocks[i] == first + i
  {
  }

  /** Three operations within their budgets and one reader, who need not be in an operation, use up
      the buffers: the first log block, which write_log needs, is a panic. */
  lemma {:induction false} ReaderTooMany(d0: Disk, start: nat) returns (s0: Sys, run: seq<Action>, bufs: seq<Buf>)
    requires Bootable(Project1(start), d0) && Committed(Project1(start), d0) == [] && start + 60 <= |d0|
    ensures Initial(Project1(start), Eager, d0, s0) && Possible(Project1(start), Eager, s0, run)
    ensures Budgeted(Project1(start), Eager, s0, run) && After(Project1(start), Eager, s0, run).mode.Up?
    ensures Pins(bufs, After(Project1(start), Eager, s0, run).blocks, {29})
    ensures CacheOk(bufs, map[], seq(NBUF, _ => 0), seq(NBUF, _ => 0))
    ensures forall b :: 0 <= b < NBUF ==> !Unused(bufs[b])
    ensures !Cached(bufs, Key(ROOTDEV, start + 1))
  {
    hide Pins, Possible, Budgeted, After, CacheOk, Filled, FullCache, Unused, Cached, Bootable, Committed;
    s0, run := NearlyFull(d0, start);
    var s := After(Project1(start), Eager, s0, run);
    FilledBlocks(s, start + 30);
    bufs := FullCache(start + 30);
    FullCachePins(start + 30, s.blocks);
  }
}
