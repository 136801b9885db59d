/** A file as a flat array of bytes over its block tree, and what allocating a missing block and
    writing a data block do to every file. */
module FileBytes {
  import opened Blocks
  import opened FreeMap
  import opened FileTree

  // ---------------------------------------------------------------- the path of a file block

  /** The position of block `bn` of inode `inum`: the index arithmetic of bmap. */
  function LeafPos(inum: nat, bn: nat): (p: Pos)
    requires bn < MAXFILE
  {
    if bn < NDIRECT then [inum, bn]
    else
      var b1 := bn - NDIRECT;
      if b1 < NINDIRECT then [inum, NDIRECT, b1]
      else
        var b2 := b1 - NINDIRECT;
        if b2 < NDINDIRECT then [inum, NDIRECT + 1, b2 / NINDIRECT, b2 % NINDIRECT]
        else
          var b3 := b2 - NDINDIRECT;
          [inum, NDIRECT + 2, b3 / NDINDIRECT, b3 % NDINDIRECT / NINDIRECT, b3 % NDINDIRECT % NINDIRECT]
  }

  lemma {:induction false} LeafPosValid(inodes: seq<Inode>, inum: nat, bn: nat)
    requires bn < MAXFILE && inum < |inodes|
    ensures ValidPos(inodes, LeafPos(inum, bn)) && IsLeaf(LeafPos(inum, bn))
  {
  }

  /** Different blocks of different files have different positions. */
  lemma {:induction false} LeafPosInjective(i: nat, a: nat, j: nat, b: nat)
    requires a < MAXFILE && b < MAXFILE && LeafPos(i, a) == LeafPos(j, b)
    ensures i == j && a == b
  {
  }

  // ---------------------------------------------------------------- allocating along a path

  predicate Full(v: Volume, d: Disk)
    requires Laid(v, d)
  {
    FirstFree(v, d) == v.size
  }

  /** `if((addr = a[i]) == 0) a[i] = addr = balloc()`, when a block is free or none is needed. */
  function Ensure(v: Volume, fs: Fs, q: Pos): (t: Fs)
    requires Shape(v, fs) && ValidPos(fs.inodes, q)
    ensures Shape(v, t) && SameSizes(fs, t)
    ensures forall p :: ValidPos(t.inodes, p) == ValidPos(fs.inodes, p)
  {
    if Node(v, fs, q) != 0 || Full(v, fs.disk) then fs else Enter(v, fs, q, FirstFree(v, fs.disk))
  }

  lemma {:induction false} FirstFreeIsData(v: Volume, d: Disk)
    requires Laid(v, d) && MetaInUse(v, d) && !Full(v, d)
    ensures v.datastart <= FirstFree(v, d) < v.size && !InUse(v, d, FirstFree(v, d))
  {
  }

  /** One allocation step on a sound file system. */
  lemma {:induction false} EnsureStep(v: Volume, fs: Fs, q: Pos)
    requires Good(v, fs) && ValidPos(fs.inodes, q)
    requires |q| > 2 ==> Node(v, fs, Up(q)) != 0
    requires Node(v, fs, q) != 0 || !Full(v, fs.disk)
    ensures Good(v, Ensure(v, fs, q)) && Node(v, Ensure(v, fs, q), q) != 0
    ensures Node(v, fs, q) == 0 ==> !InUse(v, fs.disk, Node(v, Ensure(v, fs, q), q))
    ensures forall p :: ValidPos(fs.inodes, p) && p != q ==> Node(v, Ensure(v, fs, q), p) == Node(v, fs, p)
    ensures forall b :: 0 <= b < v.size ==>
      (InUse(v, Ensure(v, fs, q).disk, b) <==> InUse(v, fs.disk, b) || b == Node(v, Ensure(v, fs, q), q))
  {
    hide InUse, Node, Enter, FirstFree;
    if Node(v, fs, q) == 0 {
      FirstFreeIsData(v, fs.disk);
      var r := FirstFree(v, fs.disk);
      EnterKeepsGood(v, fs, q, r);
      forall p | ValidPos(fs.inodes, p)
        ensures Node(v, Enter(v, fs, q, r), p) == if p == q then r else Node(v, fs, p)
      {
        EnterNode(v, fs, q, r, p);
      }
      forall b | 0 <= b < v.size
        ensures InUse(v, Enter(v, fs, q, r).disk, b) <==> b == r || InUse(v, fs.disk, b)
      {
        EnterInUse(v, fs, q, r, b);
      }
    }
  }

  /** Making sure of the first `m` entries of a path, top down, as each branch of bmap does. */
  function EnsurePath(v: Volume, fs: Fs, path: Pos, m: nat): (t: Fs)
    requires Shape(v, fs) && ValidPos(fs.inodes, path) && m <= |path|
    ensures Shape(v, t) && SameSizes(fs, t)
    ensures forall p :: ValidPos(t.inodes, p) == ValidPos(fs.inodes, p)
  {
    if m < 2 then fs else Ensure(v, EnsurePath(v, fs, path, m - 1), path[..m])
  }

  /** Free blocks never run out on the way. */
  predicate PathFits(v: Volume, fs: Fs, path: Pos, m: nat)
    requires Shape(v, fs) && ValidPos(fs.inodes, path) && m <= |path|
  {
    m < 2 || (PathFits(v, fs, path, m - 1) &&
      (Node(v, EnsurePath(v, fs, path, m - 1), path[..m]) != 0 || !Full(v, EnsurePath(v, fs, path, m - 1).disk)))
  }

  /** `p` is one of the first `m` entries of `path`. */
  predicate OnPath(p: Pos, path: Pos, m: nat) {
    2 <= |p| <= m && p <= path
  }

  /** The file system `t` is `fs` with the missing entries among the first `m` of `path` added:
      each got a block that was free, and no other position, nor any other use of a block, changed. */
  ghost predicate Extends(v: Volume, fs: Fs, t: Fs, path: Pos, m: nat)
    requires Shape(v, fs) && Shape(v, t) && |t.inodes| == |fs.inodes| && ValidPos(fs.inodes, path)
  {
    && (forall p :: ValidPos(fs.inodes, p) ==> ValidPos(t.inodes, p))
    && (forall p :: ValidPos(fs.inodes, p) && (!OnPath(p, path, m) || Node(v, fs, p) != 0) ==>
          Node(v, t, p) == Node(v, fs, p))
    && (forall p :: ValidPos(fs.inodes, p) && OnPath(p, path, m) ==> Node(v, t, p) != 0)
    && (forall p :: ValidPos(fs.inodes, p) && OnPath(p, path, m) && Node(v, fs, p) == 0 && Node(v, t, p) < v.size ==>
          !InUse(v, fs.disk, Node(v, t, p)))
    && (forall b :: 0 <= b < v.size && InUse(v, fs.disk, b) ==> InUse(v, t.disk, b))
    && (forall b :: 0 <= b < v.size && InUse(v, t.disk, b) && !InUse(v, fs.disk, b) ==>
          exists p :: ValidPos(fs.inodes, p) && OnPath(p, path, m) && Node(v, fs, p) == 0 && Node(v, t, p) == b)
  }

  lemma {:induction false} ExtendsOne(v: Volume, fs: Fs, t: Fs, u: Fs, path: Pos, m: nat)
    requires Good(v, fs) && Good(v, t) && ValidPos(fs.inodes, path) && 2 <= m <= |path|
    requires |t.inodes| == |fs.inodes| && ValidPos(t.inodes, path[..m])
    requires Extends(v, fs, t, path, m - 1)
    requires |path[..m]| > 2 ==> Node(v, t, Up(path[..m])) != 0
    requires Node(v, t, path[..m]) != 0 || !Full(v, t.disk)
    requires u == Ensure(v, t, path[..m])
    ensures Extends(v, fs, u, path, m)
  {
    hide InUse, Node, Full, Owned, MetaInUse, Enter;
    var q := path[..m];
    EnsureStep(v, t, q);
    forall p | ValidPos(fs.inodes, p)
      ensures OnPath(p, path, m) <==> OnPath(p, path, m - 1) || p == q
    {
    }
    forall b | 0 <= b < v.size && InUse(v, u.disk, b) && !InUse(v, fs.disk, b)
      ensures exists p :: ValidPos(fs.inodes, p) && OnPath(p, path, m) && Node(v, fs, p) == 0 && Node(v, u, p) == b
    {
      if InUse(v, t.disk, b) {
        var p :| ValidPos(fs.inodes, p) && OnPath(p, path, m - 1) && Node(v, fs, p) == 0 && Node(v, t, p) == b;
        assert Node(v, u, p) == b;
      } else {
        assert Node(v, u, q) == b;
      }
    }
  }

  /** bmap on a sound file system: the path is filled in, everything else stays. */
  lemma {:induction false} PathExtends(v: Volume, fs: Fs, path: Pos, m: nat)
    requires Good(v, fs) && ValidPos(fs.inodes, path) && m <= |path| && PathFits(v, fs, path, m)
    ensures Good(v, EnsurePath(v, fs, path, m))
    ensures Extends(v, fs, EnsurePath(v, fs, path, m), path, m)
  {
    hide InUse, Node, Ensure, Full;
    if m >= 2 {
      PathExtends(v, fs, path, m - 1);
      var t := EnsurePath(v, fs, path, m - 1);
      if m > 2 {
        assert Up(path[..m]) == path[..m-1];
        assert OnPath(path[..m-1], path, m - 1);
      }
      EnsureStep(v, t, path[..m]);
      ExtendsOne(v, fs, t, EnsurePath(v, fs, path, m), path, m);
    }
  }

  /** How many of the first `m` entries of a path are missing. */
  function MissingCount(v: Volume, fs: Fs, path: Pos, m: nat): (c: nat)
    requires Shape(v, fs) && ValidPos(fs.inodes, path) && m <= |path|
  {
    if m < 2 then 0 else MissingCount(v, fs, path, m - 1) + if Node(v, fs, path[..m]) == 0 then 1 else 0
  }

  /** Free blocks suffice exactly if there are as many as entries missing; each of those takes one. */
  lemma {:induction false} PathFitsExactly(v: Volume, fs: Fs, path: Pos, m: nat)
    requires Good(v, fs) && ValidPos(fs.inodes, path) && m <= |path|
    ensures PathFits(v, fs, path, m) <==> MissingCount(v, fs, path, m) <= FreeCount(v, fs.disk, v.size)
    ensures PathFits(v, fs, path, m) ==>
      FreeCount(v, EnsurePath(v, fs, path, m).disk, v.size) ==
        FreeCount(v, fs.disk, v.size) - MissingCount(v, fs, path, m)
  {
    hide InUse, Node, Ensure, Full, Owned, MetaInUse, FreeCount;
    if m >= 2 {
      PathFitsExactly(v, fs, path, m - 1);
      if PathFits(v, fs, path, m - 1) {
        PathExtends(v, fs, path, m - 1);
        var t, q := EnsurePath(v, fs, path, m - 1), path[..m];
        assert Node(v, t, q) == Node(v, fs, q);
        FullIsNoneFree(v, t.disk);
        if Node(v, t, q) != 0 || !Full(v, t.disk) {
          if m > 2 {
            assert Up(q) == path[..m-1] && OnPath(path[..m-1], path, m - 1);
          }
          EnsureCount(v, t, q);
        }
      }
    }
  }

  lemma {:induction false} FullIsNoneFree(v: Volume, d: Disk)
    requires Laid(v, d)
    ensures Full(v, d) <==> FreeCount(v, d, v.size) == 0
  {
    NoneFree(v, d, v.size);
    hide InUse;
  }

  lemma {:induction false} EnsureCount(v: Volume, fs: Fs, q: Pos)
    requires Good(v, fs) && ValidPos(fs.inodes, q)
    requires |q| > 2 ==> Node(v, fs, Up(q)) != 0
    requires Node(v, fs, q) != 0 || !Full(v, fs.disk)
    ensures FreeCount(v, Ensure(v, fs, q).disk, v.size) ==
      FreeCount(v, fs.disk, v.size) - if Node(v, fs, q) == 0 then 1 else 0
  {
    EnsureStep(v, fs, q);
    hide InUse, Node, Full, Enter, FreeCount;
    if Node(v, fs, q) == 0 {
      var t := Ensure(v, fs, q);
      assert Node(v, t, q) < v.size;
      OneLessFree(v, fs.disk, t.disk, Node(v, t, q), v.size);
    }
  }

  /** A path already filled in is left as it is: bmap answers the same again and allocates nothing. */
  lemma {:induction false} PathAgain(v: Volume, fs: Fs, path: Pos, m: nat)
    requires Shape(v, fs) && ValidPos(fs.inodes, path) && m <= |path|
    requires forall k :: 2 <= k <= m ==> Node(v, fs, path[..k]) != 0
    ensures EnsurePath(v, fs, path, m) == fs && PathFits(v, fs, path, m)
  {
    hide Node, Full, Enter;
    if m >= 2 {
      PathAgain(v, fs, path, m - 1);
    }
  }

  /** The block at a present position has its whole path present. */
  lemma {:induction false} PrefixPresent(v: Volume, fs: Fs, path: Pos, k: nat)
    requires Shape(v, fs) && ValidPos(fs.inodes, path) && 2 <= k <= |path| && Node(v, fs, path) != 0
    ensures Node(v, fs, path[..k]) != 0
    decreases |path| - k
  {
    if k < |path| {
      PrefixPresent(v, fs, path, k + 1);
      assert Up(path[..k+1]) == path[..k];
    } else {
      assert path[..k] == path;
    }
  }

  // ---------------------------------------------------------------- bytes

  /** Byte `k` of file `inum`; a hole reads as zero. */
  function ByteAt(v: Volume, fs: Fs, inum: nat, k: nat): Byte
    requires Shape(v, fs) && inum < |fs.inodes| && k < MAXFILE * BSIZE
  {
    LeafPosValid(fs.inodes, inum, k / BSIZE);
    var a := Node(v, fs, LeafPos(inum, k / BSIZE));
    if a == 0 || a >= v.size then 0 else fs.disk[a][k % BSIZE]
  }

  /** The file as a flat byte array. */
  function Contents(v: Volume, fs: Fs, inum: nat): (s: seq<Byte>)
    requires Shape(v, fs) && inum < |fs.inodes| && fs.inodes[inum].size <= MAXFILE * BSIZE
  {
    seq(fs.inodes[inum].size, k requires 0 <= k < fs.inodes[inum].size => ByteAt(v, fs, inum, k))
  }

  /** Allocating a missing block changes no byte of any file. */
  lemma {:induction false} EnsureByte(v: Volume, fs: Fs, q: Pos, inum: nat, k: nat)
    requires Good(v, fs) && ValidPos(fs.inodes, q)
    requires |q| > 2 ==> Node(v, fs, Up(q)) != 0
    requires Node(v, fs, q) != 0 || !Full(v, fs.disk)
    requires inum < |fs.inodes| && k < MAXFILE * BSIZE
    ensures ByteAt(v, Ensure(v, fs, q), inum, k) == ByteAt(v, fs, inum, k)
  {
    hide InUse, Node, Enter, Word, SetWord, FirstFree, LeafPos;
    var p := LeafPos(inum, k / BSIZE);
    LeafPosValid(fs.inodes, inum, k / BSIZE);
    if Node(v, fs, q) == 0 {
      EnsureStep(v, fs, q);
      FirstFreeIsData(v, fs.disk);
      var r, a := FirstFree(v, fs.disk), Node(v, fs, p);
      EnterNode(v, fs, q, r, q);
      if a != 0 {
        FreeNowhere(v, fs, r, p);
        EnterBlock(v, fs, q, r, a);
        if |q| > 2 {
          assert Up(q) != p;
        }
      } else if p == q {
        EnterBlock(v, fs, q, r, r);
      }
    }
  }

  lemma {:induction false} PathByte(v: Volume, fs: Fs, path: Pos, m: nat, inum: nat, k: nat)
    requires Good(v, fs) && ValidPos(fs.inodes, path) && m <= |path| && PathFits(v, fs, path, m)
    requires inum < |fs.inodes| && k < MAXFILE * BSIZE
    ensures ByteAt(v, EnsurePath(v, fs, path, m), inum, k) == ByteAt(v, fs, inum, k)
  {
    hide InUse, Node, Ensure, Full, ByteAt, Owned, MetaInUse;
    if m >= 2 {
      PathByte(v, fs, path, m - 1, inum, k);
      PathExtends(v, fs, path, m - 1);
      if m > 2 {
        assert Up(path[..m]) == path[..m-1];
        assert OnPath(path[..m-1], path, m - 1);
      }
      EnsureByte(v, EnsurePath(v, fs, path, m - 1), path[..m], inum, k);
    }
  }

  // ---------------------------------------------------------------- writing a data block

  /** `memmove(bp->data + off, src, m)` in block `a`. */
  function PutData(v: Volume, fs: Fs, a: nat, off: nat, src: seq<Byte>): (t: Fs)
    requires Shape(v, fs) && a < v.size && off + |src| <= BSIZE
    ensures Shape(v, t) && t.inodes == fs.inodes
  {
    fs.(disk := fs.disk[a := fs.disk[a][..off] + src + fs.disk[a][off + |src|..]])
  }

  /** Writing into a data block of a file changes no position. */
  lemma {:induction false} PutDataNode(v: Volume, fs: Fs, leaf: Pos, off: nat, src: seq<Byte>, p: Pos)
    requires Good(v, fs) && ValidPos(fs.inodes, leaf) && IsLeaf(leaf) && Node(v, fs, leaf) != 0
    requires off + |src| <= BSIZE && ValidPos(fs.inodes, p)
    ensures Node(v, fs, leaf) < v.size
    ensures Node(v, PutData(v, fs, Node(v, fs, leaf), off, src), p) == Node(v, fs, p)
    decreases |p|
  {
    hide InUse, Word;
    if |p| > 2 {
      PutDataNode(v, fs, leaf, off, src, Up(p));
      assert Up(p) != leaf;
    }
  }

  lemma {:induction false} PutDataKeepsGood(v: Volume, fs: Fs, leaf: Pos, off: nat, src: seq<Byte>)
    requires Good(v, fs) && ValidPos(fs.inodes, leaf) && IsLeaf(leaf) && Node(v, fs, leaf) != 0
    requires off + |src| <= BSIZE
    ensures Node(v, fs, leaf) < v.size
    ensures var t := PutData(v, fs, Node(v, fs, leaf), off, src);
      && Good(v, t)
      && (forall p :: ValidPos(fs.inodes, p) ==> Node(v, t, p) == Node(v, fs, p))
      && (forall b :: 0 <= b < v.size ==> InUse(v, t.disk, b) == InUse(v, fs.disk, b))
  {
    hide Bit, Node;
    PutDataNode(v, fs, leaf, off, src, leaf);
    var t := PutData(v, fs, Node(v, fs, leaf), off, src);
    forall p | ValidPos(fs.inodes, p)
      ensures Node(v, t, p) == Node(v, fs, p)
    {
      PutDataNode(v, fs, leaf, off, src, p);
    }
    forall b | 0 <= b < v.size
      ensures InUse(v, t.disk, b) == InUse(v, fs.disk, b)
    {
      MapInMeta(v, fs.disk, b);
    }
  }

  /** Writing into block `bn` of file `inum` changes just those bytes of just that file. */
  lemma {:induction false} PutDataByte(v: Volume, fs: Fs, inum: nat, bn: nat, off: nat, src: seq<Byte>, j: nat, k: nat)
    requires Good(v, fs) && inum < |fs.inodes| && bn < MAXFILE && off + |src| <= BSIZE
    requires ValidPos(fs.inodes, LeafPos(inum, bn)) && Node(v, fs, LeafPos(inum, bn)) != 0
    requires j < |fs.inodes| && k < MAXFILE * BSIZE
    ensures Node(v, fs, LeafPos(inum, bn)) < v.size
    ensures ByteAt(v, PutData(v, fs, Node(v, fs, LeafPos(inum, bn)), off, src), j, k) ==
      if j == inum && k / BSIZE == bn && off <= k % BSIZE < off + |src| then src[k % BSIZE - off]
      else ByteAt(v, fs, j, k)
  {
    hide InUse, Node, LeafPos;
    var leaf, p := LeafPos(inum, bn), LeafPos(j, k / BSIZE);
    LeafPosValid(fs.inodes, inum, bn);
    LeafPosValid(fs.inodes, j, k / BSIZE);
    PutDataNode(v, fs, leaf, off, src, p);
    if p == leaf {
      LeafPosInjective(inum, bn, j, k / BSIZE);
    }
  }
}
