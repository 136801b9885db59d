/** The free map of project3/fs.c: which blocks are in use, and what balloc and bfree do to it. */
module FreeMap {
  import opened Blocks

  const BPB := 4096  // bitmap bits per block

  /** `sb.size`, `sb.bmapstart` and `sb.inodestart`, and the first block after the metadata. */
  datatype Volume = Volume(size: nat, bmapstart: nat, inodestart: nat, datastart: nat)

  /** BBLOCK */
  function MapBlock(v: Volume, b: nat): nat {
    b / BPB + v.bmapstart
  }

  /** The disk has the size the superblock says, and the free map lies in the metadata. */
  predicate Laid(v: Volume, d: Disk) {
    && |d| == v.size <= UINT
    && v.datastart <= v.size
    && (v.size > 0 ==> MapBlock(v, v.size - 1) < v.datastart)
    && 0 < v.datastart
  }

  lemma {:induction false} MapInMeta(v: Volume, d: Disk, b: nat)
    requires Laid(v, d) && b < v.size
    ensures MapBlock(v, b) < v.datastart
  {
  }

  predicate InUse(v: Volume, d: Disk, b: nat)
    requires Laid(v, d) && b < v.size
  {
    MapInMeta(v, d, b);
    Bit(d[MapBlock(v, b)][b % BPB / 8], b % 8)
  }

  /** The free map is a string of bits: block `b` has bit `b % 8` of byte `b / 8` from `bmapstart` on. */
  lemma {:induction false} MapIsFlat(v: Volume, d: Disk, b: nat)
    requires Laid(v, d) && b < v.size
    ensures v.bmapstart + b / 8 / 512 < |d|
    ensures InUse(v, d, b) <==> Bit(d[v.bmapstart + b / 8 / 512][b / 8 % 512], b % 8)
  {
    hide Bit;
    MapInMeta(v, d, b);
    FlatByte(b);
  }

  lemma {:induction false} FlatByte(b: nat)
    ensures b / 8 / 512 == b / BPB && b / 8 % 512 == b % BPB / 8
  {
    var q, r := b / BPB, b % BPB;
    assert b == 8 * (512 * q + r / 8) + r % 8;
    assert b / 8 == 512 * q + r / 8;
  }

  function ByteOr(x: Byte, k: nat): Byte
    requires k < 8
  {
    EightBits();
    OrBit(x, k, 8)
  }

  function ByteAndNot(x: Byte, k: nat): Byte
    requires k < 8
  {
    EightBits();
    AndNotBit(x, k, 8)
  }

  /** The disk after block `b` is marked in use. */
  function MarkUsed(v: Volume, d: Disk, b: nat): (r: Disk)
    requires Laid(v, d) && b < v.size
    ensures Laid(v, r)
  {
    MapInMeta(v, d, b);
    var m := MapBlock(v, b);
    d[m := d[m][b % BPB / 8 := ByteOr(d[m][b % BPB / 8], b % 8)]]
  }

  /** The disk after block `b` is marked free. */
  function MarkFree(v: Volume, d: Disk, b: nat): (r: Disk)
    requires Laid(v, d) && b < v.size
    ensures Laid(v, r)
  {
    MapInMeta(v, d, b);
    var m := MapBlock(v, b);
    d[m := d[m][b % BPB / 8 := ByteAndNot(d[m][b % BPB / 8], b % 8)]]
  }

  /** A block number from the number of its map block, of its byte and of its bit. */
  lemma {:induction false} BitPlace(b: nat)
    ensures b == b / BPB * BPB + b % BPB / 8 * 8 + b % 8
  {
    var q, r := b / BPB, b % BPB;
    assert b == q * BPB + r;
    var s, t := r / 8, r % 8;
    assert r == 8 * s + t;
    assert b == 8 * (512 * q + s) + t;
    assert b % 8 == t;
  }

  lemma {:induction false} MarkUsedBits(v: Volume, d: Disk, b: nat, c: nat)
    requires Laid(v, d) && b < v.size && c < v.size
    ensures InUse(v, MarkUsed(v, d, b), c) <==> b == c || InUse(v, d, c)
  {
    hide Bit, OrBit;
    MapInMeta(v, d, b);
    MapInMeta(v, d, c);
    EightBits();
    if b != c && MapBlock(v, b) == MapBlock(v, c) && b % BPB / 8 == c % BPB / 8 {
      if b % 8 == c % 8 {
        BitPlace(b);
        BitPlace(c);
      }
      OrBitOthers(d[MapBlock(v, b)][b % BPB / 8], b % 8, 8, c % 8);
    }
  }

  lemma {:induction false} MarkFreeBits(v: Volume, d: Disk, b: nat, c: nat)
    requires Laid(v, d) && b < v.size && c < v.size
    ensures InUse(v, MarkFree(v, d, b), c) <==> b != c && InUse(v, d, c)
  {
    hide Bit, AndNotBit;
    MapInMeta(v, d, b);
    MapInMeta(v, d, c);
    EightBits();
    if b != c && MapBlock(v, b) == MapBlock(v, c) && b % BPB / 8 == c % BPB / 8 {
      if b % 8 == c % 8 {
        BitPlace(b);
        BitPlace(c);
      }
      AndNotBitOthers(d[MapBlock(v, b)][b % BPB / 8], b % 8, 8, c % 8);
    }
  }

  /** The disk after balloc has handed out block `b`: marked in use and zeroed. */
  function Alloc(v: Volume, d: Disk, b: nat): (r: Disk)
    requires Laid(v, d) && b < v.size
    ensures Laid(v, r)
  {
    MarkUsed(v, d, b)[b := ZeroBlock()]
  }

  /** balloc marks one block of the data area, zeroes it, and leaves the rest of the data area. */
  lemma {:induction false} AllocEffect(v: Volume, d: Disk, b: nat, c: nat)
    requires Laid(v, d) && v.datastart <= b < v.size && c < v.size
    ensures InUse(v, Alloc(v, d, b), c) <==> b == c || InUse(v, d, c)
    ensures c >= v.datastart ==> Alloc(v, d, b)[c] == if b == c then ZeroBlock() else d[c]
  {
    MapInMeta(v, d, b);
    MapInMeta(v, d, c);
    MarkUsedBits(v, d, b, c);
    hide Bit, ByteOr;
  }

  lemma {:induction false} FreeEffect(v: Volume, d: Disk, b: nat, c: nat)
    requires Laid(v, d) && b < v.size && c < v.size
    ensures InUse(v, MarkFree(v, d, b), c) <==> b != c && InUse(v, d, c)
    ensures c >= v.datastart ==> MarkFree(v, d, b)[c] == d[c]
  {
    MapInMeta(v, d, b);
    MarkFreeBits(v, d, b, c);
    hide Bit, ByteAndNot;
  }

  /** Every metadata block is marked in use, so balloc never hands one out. */
  ghost predicate MetaInUse(v: Volume, d: Disk)
    requires Laid(v, d)
  {
    forall b :: 0 <= b < v.datastart ==> InUse(v, d, b)
  }

  /** The first free block from `b` on, or `v.size`. */
  function NextFree(v: Volume, d: Disk, b: nat): (r: nat)
    requires Laid(v, d) && b <= v.size
    ensures b <= r <= v.size
    ensures r < v.size ==> !InUse(v, d, r)
    ensures forall c :: b <= c < r ==> InUse(v, d, c)
    decreases v.size - b
  {
    if b == v.size || !InUse(v, d, b) then b else NextFree(v, d, b + 1)
  }

  function FirstFree(v: Volume, d: Disk): nat
    requires Laid(v, d)
  {
    NextFree(v, d, 0)
  }

  lemma {:induction false} FirstFreeIs(v: Volume, d: Disk, b: nat)
    requires Laid(v, d) && b <= v.size
    requires forall c :: 0 <= c < b ==> InUse(v, d, c)
    requires b < v.size ==> !InUse(v, d, b)
    ensures FirstFree(v, d) == b
  {
  }

  /** How many of the blocks below `n` are free. */
  function FreeCount(v: Volume, d: Disk, n: nat): (c: nat)
    requires Laid(v, d) && n <= v.size
  {
    if n == 0 then 0 else FreeCount(v, d, n - 1) + if InUse(v, d, n - 1) then 0 else 1
  }

  lemma {:induction false} NoneFree(v: Volume, d: Disk, n: nat)
    requires Laid(v, d) && n <= v.size
    ensures FreeCount(v, d, n) == 0 <==> forall b :: 0 <= b < n ==> InUse(v, d, b)
  {
    hide InUse;
    if n > 0 {
      NoneFree(v, d, n - 1);
    }
  }

  /** Taking one free block into use. */
  lemma {:induction false} OneLessFree(v: Volume, d: Disk, d': Disk, r: nat, n: nat)
    requires Laid(v, d) && Laid(v, d') && n <= v.size && r < v.size && !InUse(v, d, r)
    requires forall b :: 0 <= b < v.size ==> (InUse(v, d', b) <==> InUse(v, d, b) || b == r)
    ensures FreeCount(v, d', n) == FreeCount(v, d, n) - if r < n then 1 else 0
  {
    hide InUse;
    if n > 0 {
      OneLessFree(v, d, d', r, n - 1);
    }
  }
}
