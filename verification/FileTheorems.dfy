/** Theorems about bmap and itrunc for every sound file system. */
module FileTheorems {
  import opened Blocks
  import opened FreeMap
  import opened FileTree
  import opened FileBytes
  import opened FileTrunc
  import opened FileCode

  /** bmap is injective: different blocks of files are kept in different disk blocks. */
  lemma {:induction false} BmapInjective(v: Volume, fs: Fs, i: nat, a: nat, j: nat, b: nat)
    requires Good(v, fs) && i < |fs.inodes| && j < |fs.inodes|
    requires Mapped(v, fs, i, a) && Mapped(v, fs, j, b) && (i != j || a != b)
    ensures ValidPos(fs.inodes, LeafPos(i, a)) && ValidPos(fs.inodes, LeafPos(j, b))
    ensures Node(v, fs, LeafPos(i, a)) != Node(v, fs, LeafPos(j, b))
  {
    hide Node, LeafPos, InUse;
    LeafPosValid(fs.inodes, i, a);
    LeafPosValid(fs.inodes, j, b);
    if LeafPos(i, a) == LeafPos(j, b) {
      LeafPosInjective(i, a, j, b);
    }
  }

  /** No data block is also an index block. */
  lemma {:induction false} DataIsNotIndex(v: Volume, fs: Fs, i: nat, a: nat, q: Pos)
    requires Good(v, fs) && i < |fs.inodes| && Mapped(v, fs, i, a)
    requires ValidPos(fs.inodes, q) && !IsLeaf(q)
    ensures ValidPos(fs.inodes, LeafPos(i, a)) && Node(v, fs, LeafPos(i, a)) != Node(v, fs, q)
  {
    hide Node, LeafPos, InUse;
    LeafPosValid(fs.inodes, i, a);
  }

  /** A call of bmap that returns a block adds to the trees just the missing blocks of its own
      path, each of them free before, and takes nothing else into use; the same call again
      returns the same block and changes nothing. */
  lemma {:induction false} BmapAddsOnlyItsPath(v: Volume, fs: Fs, t: Fs, inum: nat, bn: nat, r: Found)
    requires Good(v, fs) && Shape(v, t) && inum < |fs.inodes|
    requires BmapDone(v, fs, t, inum, bn, r) && r.Block?
    ensures Good(v, t) && |t.inodes| == |fs.inodes|
    ensures ValidPos(fs.inodes, LeafPos(inum, bn)) && Extends(v, fs, t, LeafPos(inum, bn), |LeafPos(inum, bn)|)
    ensures forall u, again :: Shape(v, u) && BmapDone(v, t, u, inum, bn, again) ==> again == r && u == t
  {
    hide Node, LeafPos, InUse, Owned, MetaInUse, Full, PathFits, EnsurePath, Extends;
    LeafPosValid(fs.inodes, inum, bn);
    PathExtends(v, fs, LeafPos(inum, bn), |LeafPos(inum, bn)|);
  }

  /** A block of any file found before a call of bmap is found at the same place after it. */
  lemma {:induction false} BmapStable(v: Volume, fs: Fs, t: Fs, inum: nat, bn: nat, r: Found, j: nat, b: nat)
    requires Good(v, fs) && Shape(v, t) && inum < |fs.inodes| && j < |fs.inodes|
    requires BmapDone(v, fs, t, inum, bn, r) && r.Block?
    requires b < MAXFILE && (j != inum || b != bn)
    ensures |t.inodes| == |fs.inodes|
    ensures ValidPos(fs.inodes, LeafPos(j, b)) && ValidPos(t.inodes, LeafPos(j, b))
    ensures Node(v, t, LeafPos(j, b)) == Node(v, fs, LeafPos(j, b))
  {
    hide Node, LeafPos, InUse, Owned, MetaInUse, Full, PathFits, EnsurePath;
    var path, p := LeafPos(inum, bn), LeafPos(j, b);
    LeafPosValid(fs.inodes, inum, bn);
    LeafPosValid(fs.inodes, j, b);
    LeafPosValid(t.inodes, j, b);
    PathExtends(v, fs, path, |path|);
    if OnPath(p, path, |path|) {
      assert p[1] == path[1] && |p| == |path|;
      assert p == path;
      LeafPosInjective(j, b, inum, bn);
    }
  }

  // ---------------------------------------------------------------- itrunc after any bmaps

  /** The file system after bmap of each of `bns` in turn, all of inode `inum`. */
  function BmapAll(v: Volume, fs: Fs, inum: nat, bns: seq<nat>): (t: Fs)
    requires Shape(v, fs) && inum < |fs.inodes| && forall i :: 0 <= i < |bns| ==> bns[i] < MAXFILE
    ensures Shape(v, t) && SameSizes(fs, t)
  {
    if bns == [] then fs
    else
      var t, bn := BmapAll(v, fs, inum, bns[..|bns|-1]), bns[|bns|-1];
      LeafPosValid(t.inodes, inum, bn);
      EnsurePath(v, t, LeafPos(inum, bn), |LeafPos(inum, bn)|)
  }

  predicate AllFit(v: Volume, fs: Fs, inum: nat, bns: seq<nat>)
    requires Shape(v, fs) && inum < |fs.inodes| && forall i :: 0 <= i < |bns| ==> bns[i] < MAXFILE
  {
    bns == [] ||
    var t, bn := BmapAll(v, fs, inum, bns[..|bns|-1]), bns[|bns|-1];
    LeafPosValid(t.inodes, inum, bn);
    AllFit(v, fs, inum, bns[..|bns|-1]) && PathFits(v, t, LeafPos(inum, bn), |LeafPos(inum, bn)|)
  }

  /** All that `t` uses beyond `fs` is in the trees of inode `inum`. */
  ghost predicate OnlyGrew(v: Volume, fs: Fs, t: Fs, inum: nat)
    requires Shape(v, fs) && Shape(v, t) && inum < |t.inodes|
  {
    forall b :: 0 <= b < v.size ==>
      (InUse(v, t.disk, b) <==> InUse(v, fs.disk, b) || HeldInSlots(v, t, inum, NSLOTS, b))
  }

  lemma {:induction false} GrewOne(v: Volume, fs: Fs, t: Fs, u: Fs, inum: nat, path: Pos)
    requires Shape(v, fs) && Good(v, t) && Good(v, u) && |u.inodes| == |t.inodes| && inum < |t.inodes|
    requires ValidPos(t.inodes, path) && path[0] == inum && Extends(v, t, u, path, |path|)
    requires OnlyGrew(v, fs, t, inum)
    ensures OnlyGrew(v, fs, u, inum)
  {
  }

  lemma {:induction false} BmapAllGrows(v: Volume, fs: Fs, inum: nat, bns: seq<nat>)
    requires Good(v, fs) && inum < |fs.inodes| && forall i :: 0 <= i < |bns| ==> bns[i] < MAXFILE
    requires AllFit(v, fs, inum, bns) && OnlyGrew(v, fs, fs, inum)
    ensures Good(v, BmapAll(v, fs, inum, bns)) && OnlyGrew(v, fs, BmapAll(v, fs, inum, bns), inum)
  {
    hide Node, InUse, Owned, MetaInUse, OnlyGrew, LeafPos, EnsurePath, PathFits, Extends;
    if bns != [] {
      BmapAllGrows(v, fs, inum, bns[..|bns|-1]);
      var t, bn := BmapAll(v, fs, inum, bns[..|bns|-1]), bns[|bns|-1];
      LeafPosValid(t.inodes, inum, bn);
      LeafPosOf(inum, bn);
      PathExtends(v, t, LeafPos(inum, bn), |LeafPos(inum, bn)|);
      GrewOne(v, fs, t, BmapAll(v, fs, inum, bns), inum, LeafPos(inum, bn));
    }
  }

  lemma {:induction false} EmptyHoldsNothing(v: Volume, fs: Fs, inum: nat, b: nat)
    requires Shape(v, fs) && inum < |fs.inodes| && fs.inodes[inum].addrs == EmptyInode.addrs
    ensures !HeldInSlots(v, fs, inum, NSLOTS, b)
  {
    hide Node;
    forall p | ValidPos(fs.inodes, p) && p[0] == inum
      ensures Node(v, fs, p) == 0
    {
      EmptyNode(v, fs, inum, p);
    }
  }

  lemma {:induction false} EmptyNode(v: Volume, fs: Fs, inum: nat, p: Pos)
    requires Shape(v, fs) && inum < |fs.inodes| && fs.inodes[inum].addrs == EmptyInode.addrs
    requires ValidPos(fs.inodes, p) && p[0] == inum
    ensures Node(v, fs, p) == 0
    decreases |p|
  {
    if |p| > 2 {
      EmptyNode(v, fs, inum, Up(p));
    }
  }

  /** itrunc undoes any allocation: start from an empty inode, let bmap allocate whatever blocks of
      it in whatever order, and truncate; the blocks in use are the ones that were in use before. */
  lemma {:induction false} TruncUndoesBmaps(v: Volume, fs: Fs, inum: nat, bns: seq<nat>, b: nat)
    requires Good(v, fs) && inum < |fs.inodes| && fs.inodes[inum].addrs == EmptyInode.addrs
    requires (forall i :: 0 <= i < |bns| ==> bns[i] < MAXFILE) && AllFit(v, fs, inum, bns) && b < v.size
    ensures InUse(v, Trunc(v, BmapAll(v, fs, inum, bns), inum).disk, b) <==> InUse(v, fs.disk, b)
  {
    hide Node, InUse, Owned, MetaInUse, HeldInSlots, BmapAll, AllFit, Trunc;
    forall c | 0 <= c < v.size
      ensures !HeldInSlots(v, fs, inum, NSLOTS, c)
    {
      EmptyHoldsNothing(v, fs, inum, c);
    }
    assert OnlyGrew(v, fs, fs, inum);
    BmapAllGrows(v, fs, inum, bns);
    var t := BmapAll(v, fs, inum, bns);
    TruncEffect(v, t, inum);
    if HeldInSlots(v, t, inum, NSLOTS, b) && InUse(v, fs.disk, b) {
      NeverTaken(v, fs, inum, bns, b);
    }
  }

  /** Blocks in use before are never given to the inode. */
  lemma {:induction false} NeverTaken(v: Volume, fs: Fs, inum: nat, bns: seq<nat>, b: nat)
    requires Good(v, fs) && inum < |fs.inodes| && fs.inodes[inum].addrs == EmptyInode.addrs
    requires (forall i :: 0 <= i < |bns| ==> bns[i] < MAXFILE) && AllFit(v, fs, inum, bns)
    requires b < v.size && InUse(v, fs.disk, b)
    ensures !HeldInSlots(v, BmapAll(v, fs, inum, bns), inum, NSLOTS, b)
  {
    hide Node, InUse, Owned, MetaInUse, EnsurePath, PathFits, LeafPos;
    if bns == [] {
      EmptyHoldsNothing(v, fs, inum, b);
    } else {
      var front := bns[..|bns|-1];
      NeverTaken(v, fs, inum, front, b);
      forall c | 0 <= c < v.size
        ensures !HeldInSlots(v, fs, inum, NSLOTS, c)
      {
        EmptyHoldsNothing(v, fs, inum, c);
      }
      BmapAllGrows(v, fs, inum, front);
      var t, bn := BmapAll(v, fs, inum, front), bns[|bns|-1];
      LeafPosValid(t.inodes, inum, bn);
      PathExtends(v, t, LeafPos(inum, bn), |LeafPos(inum, bn)|);
      StillNotTaken(v, t, BmapAll(v, fs, inum, bns), inum, LeafPos(inum, bn), b);
    }
  }

  lemma {:induction false} StillNotTaken(v: Volume, t: Fs, u: Fs, inum: nat, path: Pos, b: nat)
    requires Shape(v, t) && Good(v, u) && |u.inodes| == |t.inodes| && inum < |t.inodes|
    requires ValidPos(t.inodes, path) && Extends(v, t, u, path, |path|)
    requires b < v.size && InUse(v, t.disk, b) && !HeldInSlots(v, t, inum, NSLOTS, b)
    ensures !HeldInSlots(v, u, inum, NSLOTS, b)
  {
  }

  // ---------------------------------------------------------------- where the invariant starts

  /** The disk with the first `n` blocks marked in use, as mkfs marks the blocks before the data. */
  function Formatted(v: Volume, d: Disk, n: nat): (r: Disk)
    requires Laid(v, d) && n <= v.size
    ensures Laid(v, r)
  {
    if n == 0 then d else MarkUsed(v, Formatted(v, d, n - 1), n - 1)
  }

  lemma {:induction false} FormattedUses(v: Volume, d: Disk, n: nat, b: nat)
    requires Laid(v, d) && n <= v.size && b < v.size
    ensures InUse(v, Formatted(v, d, n), b) <==> b < n || InUse(v, d, b)
  {
    hide InUse, MarkUsed;
    if n > 0 {
      FormattedUses(v, d, n - 1, b);
      MarkUsedBits(v, Formatted(v, d, n - 1), n - 1, b);
    }
  }

  /** A new file system, all of its inodes empty, satisfies the invariant. */
  lemma {:induction false} FormattedGood(v: Volume, d: Disk, inodes: seq<Inode>)
    requires Laid(v, d) && forall i :: 0 <= i < |inodes| ==> inodes[i] == EmptyInode
    ensures Good(v, Fs(Formatted(v, d, v.datastart), inodes))
  {
    hide InUse, Node, Formatted;
    var fs := Fs(Formatted(v, d, v.datastart), inodes);
    forall p | ValidPos(inodes, p)
      ensures Node(v, fs, p) == 0
    {
      EmptyNode(v, fs, p[0], p);
    }
    forall b | 0 <= b < v.datastart
      ensures InUse(v, fs.disk, b)
    {
      FormattedUses(v, d, v.datastart, b);
    }
  }
}
