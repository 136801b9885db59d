/** The block trees of project3's inodes: six direct slots, then trees one, two and three index
    blocks deep. A position names a place in some inode's tree: the inode number, the slot, and
    the indices below it. */
module FileTree {
  import opened Blocks
  import opened FreeMap

  const NDIRECT := 6
  const NSLOTS := 9
  const NINDIRECT := 128
  const NDINDIRECT := 16384
  const NTINDIRECT := 2097152
  const MAXFILE := 2113670  // NDIRECT + NINDIRECT + NDINDIRECT + NTINDIRECT

  datatype Inode = Inode(addrs: seq<Uint>, size: nat)

  /** The file system as the kernel sees it through the buffer cache, and the cached inodes. */
  datatype Fs = Fs(disk: Disk, inodes: seq<Inode>)

  type Pos = seq<nat>

  /** How many index blocks lie between a slot and the file's data. */
  function Depth(slot: nat): nat {
    if slot < NDIRECT then 0 else slot - NDIRECT + 1
  }

  predicate ValidPos(inodes: seq<Inode>, p: Pos) {
    && 2 <= |p|
    && p[0] < |inodes| && p[1] < NSLOTS
    && |p| <= 2 + Depth(p[1])
    && forall i :: 2 <= i < |p| ==> p[i] < WORDS
  }

  /** A place that holds file data rather than an index block. */
  predicate IsLeaf(p: Pos) {
    2 <= |p| && |p| == 2 + Depth(p[1])
  }

  function Up(p: Pos): Pos
    requires |p| > 2
  {
    p[..|p|-1]
  }

  function Last(p: Pos): nat
    requires |p| > 2
  {
    p[|p|-1]
  }

  predicate Shape(v: Volume, fs: Fs) {
    Laid(v, fs.disk) && forall i :: 0 <= i < |fs.inodes| ==> |fs.inodes[i].addrs| == NSLOTS
  }

  /** The block number stored at position `p`, 0 if there is none. */
  function Node(v: Volume, fs: Fs, p: Pos): nat
    requires Shape(v, fs) && ValidPos(fs.inodes, p)
    decreases |p|
  {
    if |p| == 2 then fs.inodes[p[0]].addrs[p[1]]
    else
      var parent := Node(v, fs, Up(p));
      if parent == 0 || parent >= v.size then 0 else Word(fs.disk[parent], Last(p))
  }

  /** Every block of every tree is a data-area block in use, and no block is at two positions. */
  ghost predicate Owned(v: Volume, fs: Fs)
    requires Shape(v, fs)
  {
    && (forall p :: ValidPos(fs.inodes, p) && Node(v, fs, p) != 0 ==>
          v.datastart <= Node(v, fs, p) < v.size && InUse(v, fs.disk, Node(v, fs, p)))
    && (forall p, q :: ValidPos(fs.inodes, p) && ValidPos(fs.inodes, q) && Node(v, fs, p) == Node(v, fs, q) != 0 ==>
          p == q)
  }

  ghost predicate Good(v: Volume, fs: Fs) {
    Shape(v, fs) && Owned(v, fs) && MetaInUse(v, fs.disk)
  }

  // ---------------------------------------------------------------- adding a block to a tree

  /** A missing block whose parent is there. */
  predicate Missing(v: Volume, fs: Fs, q: Pos)
    requires Shape(v, fs)
  {
    ValidPos(fs.inodes, q) && Node(v, fs, q) == 0 && (|q| > 2 ==> Node(v, fs, Up(q)) != 0)
  }

  predicate SameSizes(fs: Fs, t: Fs) {
    |t.inodes| == |fs.inodes| && forall i :: 0 <= i < |fs.inodes| ==> t.inodes[i].size == fs.inodes[i].size
  }

  /** `a[i] = balloc()`: block `r` is allocated and entered at position `q`. */
  function Enter(v: Volume, fs: Fs, q: Pos, r: nat): (t: Fs)
    requires Shape(v, fs) && ValidPos(fs.inodes, q) && r < v.size
    ensures Shape(v, t) && SameSizes(fs, t)
    ensures forall p :: ValidPos(t.inodes, p) == ValidPos(fs.inodes, p)
  {
    var d := Alloc(v, fs.disk, r);
    if |q| == 2 then
      var ip := fs.inodes[q[0]];
      Fs(d, fs.inodes[q[0] := ip.(addrs := ip.addrs[q[1] := r])])
    else
      var parent := Node(v, fs, Up(q));
      if parent < v.size then fs.(disk := d[parent := SetWord(d[parent], Last(q), r)]) else fs.(disk := d)
  }

  /** A block that was free before is at no position. */
  lemma {:induction false} FreeNowhere(v: Volume, fs: Fs, r: nat, p: Pos)
    requires Shape(v, fs) && Owned(v, fs) && ValidPos(fs.inodes, p)
    requires 0 < r < v.size && !InUse(v, fs.disk, r)
    ensures Node(v, fs, p) != r
  {
  }

  /** What entering a block does to the data area of the disk. */
  lemma {:induction false} EnterBlock(v: Volume, fs: Fs, q: Pos, r: nat, x: nat)
    requires Shape(v, fs) && Owned(v, fs) && Missing(v, fs, q)
    requires v.datastart <= r < v.size && !InUse(v, fs.disk, r) && v.datastart <= x < v.size
    ensures Enter(v, fs, q, r).disk[x] ==
      if x == r then ZeroBlock()
      else if |q| > 2 && x == Node(v, fs, Up(q)) then SetWord(fs.disk[x], Last(q), r)
      else fs.disk[x]
  {
    hide InUse, Alloc, SetWord, Word;
    AllocEffect(v, fs.disk, r, x);
    if |q| > 2 {
      FreeNowhere(v, fs, r, Up(q));
      AllocEffect(v, fs.disk, r, Node(v, fs, Up(q)));
    }
  }

  /** Entering a block changes exactly one position. */
  lemma {:induction false} EnterNode(v: Volume, fs: Fs, q: Pos, r: nat, p: Pos)
    requires Shape(v, fs) && Owned(v, fs) && Missing(v, fs, q)
    requires v.datastart <= r < v.size && !InUse(v, fs.disk, r)
    requires ValidPos(fs.inodes, p)
    ensures Node(v, Enter(v, fs, q, r), p) == if p == q then r else Node(v, fs, p)
    decreases |p|
  {
    hide InUse, Alloc, Word, SetWord;
    if |p| > 2 {
      var up := Up(p);
      EnterNode(v, fs, q, r, up);
      FreeNowhere(v, fs, r, up);
      if up == q {
        EnterBlock(v, fs, q, r, r);
        WordZero(Last(p));
      } else if Node(v, fs, up) != 0 {
        EnterBlock(v, fs, q, r, Node(v, fs, up));
        EnterWord(v, fs, q, r, p);
      }
    }
  }

  lemma {:induction false} EnterWord(v: Volume, fs: Fs, q: Pos, r: nat, p: Pos)
    requires Shape(v, fs) && Owned(v, fs) && Missing(v, fs, q) && ValidPos(fs.inodes, p)
    requires |p| > 2 && Node(v, fs, Up(p)) != 0 && r < v.size
    ensures if |q| > 2 && Node(v, fs, Up(p)) == Node(v, fs, Up(q))
      then Up(p) == Up(q) && (Last(p) == Last(q) <==> p == q)
           && Word(SetWord(fs.disk[Node(v, fs, Up(p))], Last(q), r), Last(p)) == if p == q then r else Node(v, fs, p)
      else p != q || |q| == 2
  {
    hide InUse, Word, SetWord;
    if |q| > 2 && Node(v, fs, Up(p)) == Node(v, fs, Up(q)) {
      var x := Node(v, fs, Up(p));
      assert x < v.size;
      WordSetWord(fs.disk[x], Last(q), r, Last(p));
      assert p == Up(p) + [Last(p)] && q == Up(q) + [Last(q)];
      assert Node(v, fs, p) == Word(fs.disk[x], Last(p));
    }
  }

  lemma {:induction false} EnterInUse(v: Volume, fs: Fs, q: Pos, r: nat, b: nat)
    requires Shape(v, fs) && Owned(v, fs) && Missing(v, fs, q)
    requires v.datastart <= r < v.size && !InUse(v, fs.disk, r) && b < v.size
    ensures InUse(v, Enter(v, fs, q, r).disk, b) <==> b == r || InUse(v, fs.disk, b)
  {
    hide Alloc, Bit, SetWord, Node;
    AllocEffect(v, fs.disk, r, b);
    MapInMeta(v, fs.disk, b);
  }

  lemma {:induction false} EnterKeepsGood(v: Volume, fs: Fs, q: Pos, r: nat)
    requires Good(v, fs) && Missing(v, fs, q)
    requires v.datastart <= r < v.size && !InUse(v, fs.disk, r)
    ensures Good(v, Enter(v, fs, q, r))
  {
    var t := Enter(v, fs, q, r);
    hide Enter, InUse, Node;
    forall p | ValidPos(fs.inodes, p)
      ensures Node(v, t, p) == if p == q then r else Node(v, fs, p)
      ensures Node(v, fs, p) != r
      ensures Node(v, t, p) != 0 ==> v.datastart <= Node(v, t, p) < v.size && InUse(v, t.disk, Node(v, t, p))
    {
      EnterNode(v, fs, q, r, p);
      FreeNowhere(v, fs, r, p);
      if Node(v, t, p) != 0 {
        EnterInUse(v, fs, q, r, Node(v, t, p));
      }
    }
    forall b | 0 <= b < v.datastart
      ensures InUse(v, t.disk, b)
    {
      EnterInUse(v, fs, q, r, b);
    }
  }
}
