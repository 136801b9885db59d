/** How many blocks a run of consecutive blocks of a file still needs, and that allocating them one
    after the other runs out of blocks exactly if fewer are free. */
module FileRoom {
  import opened Blocks
  import opened FreeMap
  import opened FileTree
  import opened FileBytes

  /** The missing entries of a path. */
  function Gaps(v: Volume, fs: Fs, path: Pos): set<Pos>
    requires Shape(v, fs) && ValidPos(fs.inodes, path)
  {
    GapsTo(v, fs, path, |path|)
  }

  function GapsTo(v: Volume, fs: Fs, path: Pos, m: nat): set<Pos>
    requires Shape(v, fs) && ValidPos(fs.inodes, path) && m <= |path|
  {
    if m < 2 then {} else GapsTo(v, fs, path, m - 1) + if Node(v, fs, path[..m]) == 0 then {path[..m]} else {}
  }

  lemma {:induction false} GapsAre(v: Volume, fs: Fs, path: Pos, m: nat, p: Pos)
    requires Shape(v, fs) && ValidPos(fs.inodes, path) && m <= |path|
    ensures p in GapsTo(v, fs, path, m) <==> OnPath(p, path, m) && ValidPos(fs.inodes, p) && Node(v, fs, p) == 0
  {
    hide Node;
    if m >= 2 {
      GapsAre(v, fs, path, m - 1, p);
      PrefixLength(p, path, m);
    }
  }

  lemma {:induction false} PrefixLength(p: Pos, path: Pos, m: nat)
    requires 2 <= m <= |path|
    ensures OnPath(p, path, m) <==> OnPath(p, path, m - 1) || p == path[..m]
  {
  }

  lemma {:induction false} GapsCount(v: Volume, fs: Fs, path: Pos, m: nat)
    requires Shape(v, fs) && ValidPos(fs.inodes, path) && m <= |path|
    ensures |GapsTo(v, fs, path, m)| == MissingCount(v, fs, path, m)
  {
    hide Node;
    if m >= 2 {
      GapsCount(v, fs, path, m - 1);
      GapsAre(v, fs, path, m - 1, path[..m]);
    }
  }

  /** The missing entries on the paths of `k` blocks of inode `inum` from `bn` on. */
  function Needed(v: Volume, fs: Fs, inum: nat, bn: nat, k: nat): set<Pos>
    requires Shape(v, fs) && inum < |fs.inodes| && bn + k <= MAXFILE
  {
    if k == 0 then {}
    else
      LeafPosValid(fs.inodes, inum, bn + k - 1);
      Needed(v, fs, inum, bn, k - 1) + Gaps(v, fs, LeafPos(inum, bn + k - 1))
  }

  lemma {:induction false} NeededGrows(v: Volume, fs: Fs, inum: nat, bn: nat, k: nat, n: nat)
    requires Shape(v, fs) && inum < |fs.inodes| && k <= n && bn + n <= MAXFILE
    ensures |Needed(v, fs, inum, bn, k)| <= |Needed(v, fs, inum, bn, n)|
  {
    hide Gaps, LeafPos;
    if k < n {
      NeededGrows(v, fs, inum, bn, k, n - 1);
      Fewer(Needed(v, fs, inum, bn, n - 1), Needed(v, fs, inum, bn, n));
    }
  }

  lemma {:induction false} Fewer(a: set<Pos>, b: set<Pos>)
    requires a <= b
    ensures |a| <= |b|
  {
    assert b == a + (b - a);
  }

  /** In `t` just those entries of `fs` have been filled in, with as many blocks. */
  ghost predicate FilledIn(v: Volume, fs: Fs, t: Fs, done: set<Pos>) {
    && Shape(v, fs) && Shape(v, t) && |t.inodes| == |fs.inodes|
    && (forall p :: ValidPos(fs.inodes, p) ==> ValidPos(t.inodes, p))
    && (forall p :: ValidPos(fs.inodes, p) ==> (Node(v, t, p) == 0 <==> Node(v, fs, p) == 0 && p !in done))
    && FreeCount(v, t.disk, v.size) + |done| == FreeCount(v, fs.disk, v.size)
  }

  lemma {:induction false} NothingFilledIn(v: Volume, fs: Fs)
    requires Shape(v, fs)
    ensures FilledIn(v, fs, fs, {})
  {
    hide Node, FreeCount;
  }

  /** One more path: its blocks suffice exactly if there are enough for it and those before. */
  lemma {:induction false} FillPath(v: Volume, fs: Fs, t: Fs, done: set<Pos>, path: Pos)
    requires Good(v, t) && FilledIn(v, fs, t, done) && ValidPos(fs.inodes, path) && ValidPos(t.inodes, path)
    ensures PathFits(v, t, path, |path|) <==> |done + Gaps(v, fs, path)| <= FreeCount(v, fs.disk, v.size)
    ensures PathFits(v, t, path, |path|) ==>
      FilledIn(v, fs, EnsurePath(v, t, path, |path|), done + Gaps(v, fs, path))
  {
    hide Owned, MetaInUse, InUse, FreeCount, Node, PathFits, EnsurePath, Gaps, Extends;
    PathFitsExactly(v, t, path, |path|);
    GapsSplit(v, fs, t, done, path);
    if PathFits(v, t, path, |path|) {
      PathExtends(v, t, path, |path|);
      FillNodes(v, fs, t, EnsurePath(v, t, path, |path|), done, path);
    }
  }

  lemma {:induction false} GapsSplit(v: Volume, fs: Fs, t: Fs, done: set<Pos>, path: Pos)
    requires FilledIn(v, fs, t, done) && ValidPos(fs.inodes, path) && ValidPos(t.inodes, path)
    ensures |done + Gaps(v, fs, path)| == |done| + MissingCount(v, t, path, |path|)
  {
    hide FreeCount, Node, GapsTo;
    GapsCount(v, t, path, |path|);
    forall p: Pos
      ensures p in Gaps(v, t, path) <==> p in Gaps(v, fs, path) && p !in done
    {
      GapsAre(v, fs, path, |path|, p);
      GapsAre(v, t, path, |path|, p);
    }
    assert done + Gaps(v, fs, path) == done + Gaps(v, t, path) && done !! Gaps(v, t, path);
  }

  lemma {:induction false} FillNodes(v: Volume, fs: Fs, t: Fs, u: Fs, done: set<Pos>, path: Pos)
    requires FilledIn(v, fs, t, done) && ValidPos(fs.inodes, path) && ValidPos(t.inodes, path)
    requires Shape(v, u) && |u.inodes| == |t.inodes| && Extends(v, t, u, path, |path|)
    ensures forall p :: ValidPos(fs.inodes, p) ==>
      ValidPos(u.inodes, p) && (Node(v, u, p) == 0 <==> Node(v, fs, p) == 0 && p !in done + Gaps(v, fs, path))
  {
    hide FreeCount, Node, GapsTo, InUse;
    forall p | ValidPos(fs.inodes, p)
      ensures ValidPos(u.inodes, p) && (Node(v, u, p) == 0 <==> Node(v, fs, p) == 0 && p !in done + Gaps(v, fs, path))
    {
      GapsAre(v, fs, path, |path|, p);
    }
  }

  /** Writing data fills in nothing. */
  lemma {:induction false} DataFillsNothing(v: Volume, fs: Fs, t: Fs, done: set<Pos>, leaf: Pos, off: nat,
        src: seq<Byte>)
    requires FilledIn(v, fs, t, done) && Good(v, t)
    requires ValidPos(t.inodes, leaf) && IsLeaf(leaf) && Node(v, t, leaf) != 0 && off + |src| <= BSIZE
    ensures Node(v, t, leaf) < v.size && FilledIn(v, fs, PutData(v, t, Node(v, t, leaf), off, src), done)
  {
    hide InUse, Node, FreeCount, Owned, MetaInUse;
    PutDataKeepsGood(v, t, leaf, off, src);
    var u := PutData(v, t, Node(v, t, leaf), off, src);
    SameCount(v, t.disk, u.disk, v.size);
  }

  lemma {:induction false} SameCount(v: Volume, d: Disk, e: Disk, n: nat)
    requires Laid(v, d) && Laid(v, e) && n <= v.size
    requires forall b :: 0 <= b < v.size ==> (InUse(v, d, b) <==> InUse(v, e, b))
    ensures FreeCount(v, d, n) == FreeCount(v, e, n)
  {
    hide InUse;
    if n > 0 {
      SameCount(v, d, e, n - 1);
    }
  }

  // ---------------------------------------------------------------- the blocks of a range of bytes

  /** How many blocks hold some of the `n` bytes at `off`. */
  function Touched(off: nat, n: nat): (k: nat)
    ensures off + n <= MAXFILE * BSIZE ==> off / BSIZE + k <= MAXFILE
  {
    if n == 0 then 0 else (off + n - 1) / BSIZE - off / BSIZE + 1
  }

  /** Where a loop over them is after `it` turns, `tot` bytes on. */
  ghost predicate AtTurn(off: nat, n: nat, tot: nat, it: nat) {
    && (tot == 0 ==> it == 0)
    && (0 < tot < n ==> off + tot == (off / BSIZE + it) * BSIZE)
    && (tot == n ==> it == Touched(off, n))
  }

  lemma {:induction false} TurnBlock(off: nat, n: nat, tot: nat, it: nat)
    requires AtTurn(off, n, tot, it) && tot < n && off + n <= MAXFILE * BSIZE
    ensures (off + tot) / BSIZE == off / BSIZE + it && it < Touched(off, n)
  {
  }

  lemma {:induction false} NextTurn(off: nat, n: nat, tot: nat, it: nat, k: nat)
    requires AtTurn(off, n, tot, it) && tot < n
    requires k == if n - tot < BSIZE - (off + tot) % BSIZE then n - tot else BSIZE - (off + tot) % BSIZE
    ensures AtTurn(off, n, tot + k, it + 1)
  {
  }

  lemma {:induction false} NoTurn(off: nat, n: nat)
    ensures AtTurn(off, n, 0, 0)
  {
  }

  /** The blocks that are free suffice for the `n` bytes at `off`. */
  ghost predicate RoomFor(v: Volume, fs: Fs, inum: nat, off: nat, n: nat)
    requires Shape(v, fs) && inum < |fs.inodes| && off + n <= MAXFILE * BSIZE
  {
    |Needed(v, fs, inum, off / BSIZE, Touched(off, n))| <= FreeCount(v, fs.disk, v.size)
  }

  /** The loop has `it` turns behind it, which have filled in what they needed and nothing else. */
  ghost predicate InTurn(v: Volume, fs: Fs, t: Fs, inum: nat, off: nat, n: nat, tot: nat, it: nat) {
    && Shape(v, fs) && inum < |fs.inodes| && AtTurn(off, n, tot, it) && off / BSIZE + it <= MAXFILE
    && FilledIn(v, fs, t, Needed(v, fs, inum, off / BSIZE, it))
  }

  lemma {:induction false} FirstTurn(v: Volume, fs: Fs, inum: nat, off: nat, n: nat)
    requires Shape(v, fs) && inum < |fs.inodes| && off + n <= MAXFILE * BSIZE
    ensures InTurn(v, fs, fs, inum, off, n, 0, 0)
  {
    hide FilledIn;
    NothingFilledIn(v, fs);
    NoTurn(off, n);
  }

  lemma {:induction false} LastTurn(v: Volume, fs: Fs, t: Fs, inum: nat, off: nat, n: nat, it: nat)
    requires InTurn(v, fs, t, inum, off, n, n, it) && off + n <= MAXFILE * BSIZE
    ensures RoomFor(v, fs, inum, off, n)
  {
    hide Needed, FreeCount, Node, Touched;
  }

  /** A turn fails only if there is not room for the whole range. */
  lemma {:induction false} TurnOfPath(v: Volume, fs: Fs, t: Fs, inum: nat, off: nat, n: nat, tot: nat, it: nat,
        tot': nat, bn: nat)
    requires InTurn(v, fs, t, inum, off, n, tot, it) && Good(v, t) && AtTurn(off, n, tot', it + 1)
    requires off + n <= MAXFILE * BSIZE && it < Touched(off, n) && bn == off / BSIZE + it
    requires ValidPos(t.inodes, LeafPos(inum, bn))
    ensures var path := LeafPos(inum, bn);
      if PathFits(v, t, path, |path|) then InTurn(v, fs, EnsurePath(v, t, path, |path|), inum, off, n, tot', it + 1)
      else !RoomFor(v, fs, inum, off, n)
  {
    hide FilledIn, AtTurn, Touched, LeafPos, Needed, Owned, MetaInUse, PathFits, EnsurePath, FreeCount, ValidPos;
    PathTurn(v, fs, t, inum, off / BSIZE, it, Touched(off, n));
  }

  lemma {:induction false} PathTurn(v: Volume, fs: Fs, t: Fs, inum: nat, bn: nat, it: nat, total: nat)
    requires Shape(v, fs) && inum < |fs.inodes| && it < total && bn + total <= MAXFILE && Good(v, t)
    requires FilledIn(v, fs, t, Needed(v, fs, inum, bn, it)) && ValidPos(t.inodes, LeafPos(inum, bn + it))
    ensures var path := LeafPos(inum, bn + it);
      if PathFits(v, t, path, |path|)
      then FilledIn(v, fs, EnsurePath(v, t, path, |path|), Needed(v, fs, inum, bn, it + 1))
      else |Needed(v, fs, inum, bn, total)| > FreeCount(v, fs.disk, v.size)
  {
    hide FilledIn, LeafPos, Gaps, Owned, MetaInUse, PathFits, EnsurePath, FreeCount, ValidPos;
    LeafPosValid(fs.inodes, inum, bn + it);
    FillPath(v, fs, t, Needed(v, fs, inum, bn, it), LeafPos(inum, bn + it));
    NeededGrows(v, fs, inum, bn, it + 1, total);
  }

  lemma {:induction false} TurnOfData(v: Volume, fs: Fs, t: Fs, inum: nat, off: nat, n: nat, tot: nat, it: nat,
        leaf: Pos, at: nat, src: seq<Byte>)
    requires InTurn(v, fs, t, inum, off, n, tot, it) && Good(v, t)
    requires ValidPos(t.inodes, leaf) && IsLeaf(leaf) && Node(v, t, leaf) != 0 && at + |src| <= BSIZE
    ensures Node(v, t, leaf) < v.size
    ensures InTurn(v, fs, PutData(v, t, Node(v, t, leaf), at, src), inum, off, n, tot, it)
  {
    hide FilledIn, AtTurn, Needed, Node, PutData, Owned, MetaInUse;
    DataFillsNothing(v, fs, t, Needed(v, fs, inum, off / BSIZE, it), leaf, at, src);
  }
}
