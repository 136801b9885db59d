/** Where a file's blocks are: the positions of an inode's data blocks in order, and the chain of index
    blocks that leads to each. */
module FileLayout {
  import opened Blocks
  import opened FreeMap
  import opened FileTree
  import opened FileBytes

  /** Lexicographic order. */
  predicate Before(p: Pos, q: Pos) {
    p != [] && q != [] && (p[0] < q[0] || (p[0] == q[0] && Before(p[1..], q[1..])))
  }

  lemma {:induction false} BeforeAt(p: Pos, q: Pos, k: nat)
    requires k < |p| && k < |q| && p[..k] == q[..k] && p[k] < q[k]
    ensures Before(p, q)
  {
    if k > 0 {
      assert p[0] == p[..k][0] == q[..k][0];
      assert p[1..][..k-1] == p[..k][1..] && q[1..][..k-1] == q[..k][1..];
      BeforeAt(p[1..], q[1..], k - 1);
    }
  }

  /** A block further back in the file has a later position in the inode's trees: */
  lemma {:induction false} LeafPosInOrder(inum: nat, a: nat, b: nat)
    requires a < b < MAXFILE
    ensures Before(LeafPos(inum, a), LeafPos(inum, b))
  {
    var p, q := LeafPos(inum, a), LeafPos(inum, b);
    assert p[0] == q[0] == inum && p[1] <= q[1];
    if p[1] < q[1] {
      BeforeAt(p, q, 1);
    } else if p[1] < NDIRECT {
      assert false;
    } else if p[1] == NDIRECT {
      BeforeAt(p, q, 2);
    } else if p[1] == NDIRECT + 1 {
      DoubleInOrder(p, q, a - NDIRECT - NINDIRECT, b - NDIRECT - NINDIRECT);
    } else {
      TripleInOrder(p, q, a - NDIRECT - NINDIRECT - NDINDIRECT, b - NDIRECT - NINDIRECT - NDINDIRECT);
    }
  }

  lemma {:induction false} DoubleInOrder(p: Pos, q: Pos, a: nat, b: nat)
    requires |p| == |q| == 4 && p[..2] == q[..2] && a < b
    requires p[2] == a / NINDIRECT && p[3] == a % NINDIRECT && q[2] == b / NINDIRECT && q[3] == b % NINDIRECT
    ensures Before(p, q)
  {
    assert p[2] <= q[2];
    if p[2] < q[2] {
      BeforeAt(p, q, 2);
    } else {
      assert p[..3] == p[..2] + [p[2]] && q[..3] == q[..2] + [q[2]];
      BeforeAt(p, q, 3);
    }
  }

  lemma {:induction false} TripleInOrder(p: Pos, q: Pos, a: nat, b: nat)
    requires |p| == |q| == 5 && p[..2] == q[..2] && a < b
    requires p[2] == a / NDINDIRECT && p[3] == a % NDINDIRECT / NINDIRECT && p[4] == a % NDINDIRECT % NINDIRECT
    requires q[2] == b / NDINDIRECT && q[3] == b % NDINDIRECT / NINDIRECT && q[4] == b % NDINDIRECT % NINDIRECT
    ensures Before(p, q)
  {
    assert p[2] <= q[2];
    if p[2] < q[2] {
      BeforeAt(p, q, 2);
    } else {
      assert a % NDINDIRECT < b % NDINDIRECT;
      assert p[..3] == p[..2] + [p[2]] && q[..3] == q[..2] + [q[2]];
      assert p[3] <= q[3];
      if p[3] < q[3] {
        BeforeAt(p, q, 3);
      } else {
        assert p[..4] == p[..3] + [p[3]] && q[..4] == q[..3] + [q[3]];
        BeforeAt(p, q, 4);
      }
    }
  }

  /** and every place for data in them is the position of some block. */
  lemma {:induction false} LeafPosMissesNone(inodes: seq<Inode>, p: Pos)
    requires ValidPos(inodes, p) && IsLeaf(p)
    ensures exists bn: nat :: bn < MAXFILE && LeafPos(p[0], bn) == p
  {
    var bn := BlockAt(p);
    if |p| == 5 {
      var x, y, z := p[2], p[3], p[4];
      TripleParts(x, y, z);
    } else if |p| == 4 {
      var y, z := p[2], p[3];
      assert (y * NINDIRECT + z) / NINDIRECT == y && (y * NINDIRECT + z) % NINDIRECT == z;
    }
    assert bn < MAXFILE && LeafPos(p[0], bn) == p;
  }

  lemma {:induction false} TripleParts(x: nat, y: nat, z: nat)
    requires x < WORDS && y < WORDS && z < WORDS
    ensures var b := x * NDINDIRECT + y * NINDIRECT + z;
      && b < NTINDIRECT && b / NDINDIRECT == x && b % NDINDIRECT == y * NINDIRECT + z
      && (y * NINDIRECT + z) / NINDIRECT == y && (y * NINDIRECT + z) % NINDIRECT == z
  {
    var r := y * NINDIRECT + z;
    assert r < NDINDIRECT;
    assert x * NDINDIRECT + r < NTINDIRECT;
  }

  function BlockAt(p: Pos): nat
    requires 2 <= |p| <= 5 && IsLeaf(p)
  {
    if |p| == 2 then p[1]
    else if |p| == 3 then NDIRECT + p[2]
    else if |p| == 4 then NDIRECT + NINDIRECT + p[2] * NINDIRECT + p[3]
    else NDIRECT + NINDIRECT + NDINDIRECT + p[2] * NDINDIRECT + p[3] * NINDIRECT + p[4]
  }

  // ---------------------------------------------------------------- on disk

  /** Entry `i` of index block `a`, or 0 if there is no such block. */
  function EntryOf(v: Volume, d: Disk, a: nat, i: nat): nat
    requires Laid(v, d) && i < WORDS
  {
    if a == 0 || a >= v.size then 0 else Word(d[a], i)
  }

  /** The block of the file that holds its block `bn`: six in the inode, then through one, two and three
      index blocks, with 128 entries each. */
  lemma {:induction false} WhereIs(v: Volume, fs: Fs, inum: nat, bn: nat)
    requires Shape(v, fs) && inum < |fs.inodes| && bn < MAXFILE
    ensures ValidPos(fs.inodes, LeafPos(inum, bn))
    ensures var a, d, found := fs.inodes[inum].addrs, fs.disk, Node(v, fs, LeafPos(inum, bn));
      && (bn < 6 ==> found == a[bn])
      && (6 <= bn < 134 ==> found == EntryOf(v, d, a[6], bn - 6))
      && (134 <= bn < 16518 ==> var b := bn - 134;
           found == EntryOf(v, d, EntryOf(v, d, a[7], b / 128), b % 128))
      && (16518 <= bn ==> var b := bn - 16518;
           found == EntryOf(v, d, EntryOf(v, d, EntryOf(v, d, a[8], b / 128 / 128), b / 128 % 128), b % 128))
  {
    hide Node, EntryOf, Word;
    LeafPosValid(fs.inodes, inum, bn);
    if bn < 6 {
      SlotNode(v, fs, inum, bn);
    } else if bn < 134 {
      SlotNode(v, fs, inum, 6);
      NodeStep(v, fs, [inum, 6], bn - 6);
      assert LeafPos(inum, bn) == [inum, 6] + [bn - 6];
    } else if bn < 16518 {
      var b := bn - 134;
      SlotNode(v, fs, inum, 7);
      NodeStep(v, fs, [inum, 7], b / 128);
      assert [inum, 7] + [b / 128] == [inum, 7, b / 128];
      NodeStep(v, fs, [inum, 7, b / 128], b % 128);
      assert LeafPos(inum, bn) == [inum, 7, b / 128] + [b % 128];
    } else {
      var b := bn - 16518;
      InThree(b);
      var x, y, z := b / 128 / 128, b / 128 % 128, b % 128;
      SlotNode(v, fs, inum, 8);
      NodeStep(v, fs, [inum, 8], x);
      assert [inum, 8] + [x] == [inum, 8, x];
      NodeStep(v, fs, [inum, 8, x], y);
      assert [inum, 8, x] + [y] == [inum, 8, x, y];
      NodeStep(v, fs, [inum, 8, x, y], z);
      assert LeafPos(inum, bn) == [inum, 8, x, y] + [z];
    }
  }

  lemma {:induction false} InThree(b: nat)
    requires b < NTINDIRECT
    ensures b / NDINDIRECT == b / 128 / 128 < 128 && b % NDINDIRECT / NINDIRECT == b / 128 % 128
    ensures b % NDINDIRECT % NINDIRECT == b % 128
  {
  }

  lemma {:induction false} SlotNode(v: Volume, fs: Fs, inum: nat, slot: nat)
    requires Shape(v, fs) && inum < |fs.inodes| && slot < NSLOTS
    ensures Node(v, fs, [inum, slot]) == fs.inodes[inum].addrs[slot]
  {
  }

  lemma {:induction false} NodeStep(v: Volume, fs: Fs, q: Pos, i: nat)
    requires Shape(v, fs) && ValidPos(fs.inodes, q) && |q| < 2 + Depth(q[1]) && i < WORDS
    ensures ValidPos(fs.inodes, q + [i]) && Node(v, fs, q + [i]) == EntryOf(v, fs.disk, Node(v, fs, q), i)
  {
    assert Up(q + [i]) == q;
  }
}
