/** balloc, bfree, bmap, itrunc, readi and writei of project3/fs.c. */
module FileCode {
  import opened Blocks
  import opened FreeMap
  import opened FileTree
  import opened FileBytes
  import opened FileTrunc
  import opened FileRoom

  /** A block number, or a panic. */
  datatype Found = Panic | Block(b: nat)

  /** What readi and writei come back with: -1, a panic, or the bytes moved. */
  datatype Moved = Refused | Panicked | Bytes(data: seq<Byte>)

  /** IBLOCK: 64-byte dinodes, eight to a block. */
  function InodeBlock(v: Volume, inum: nat): nat {
    inum / 8 + v.inodestart
  }

  /** The first `n` blocks of the free map. */
  function MapBlocks(v: Volume, n: nat): set<nat> {
    if n == 0 then {} else MapBlocks(v, n - 1) + {v.bmapstart + n - 1}
  }

  /** The number of blocks of the free map. */
  function MapSize(v: Volume): nat {
    (v.size + BPB - 1) / BPB
  }

  class FileSys {
    const v: Volume
    var disk: Disk
    var inodes: seq<Inode>
    ghost var logged: set<nat>  // blocks passed to log_write in this transaction
    ghost const base: Disk      // the disk when it began

    /** Every block changed since the transaction began has been passed to log_write. */
    ghost predicate Covered()
      reads this`disk, this`logged
    {
      |base| == |disk| && forall b :: 0 <= b < |disk| && disk[b] != base[b] ==> b in logged
    }

    ghost function St(): Fs
      reads this
    {
      Fs(disk, inodes)
    }

    constructor (v: Volume, disk: Disk, inodes: seq<Inode>)
      ensures this.v == v && St() == Fs(disk, inodes) && logged == {} && base == disk && Covered()
    {
      this.v, this.disk, this.inodes, logged, base := v, disk, inodes, {}, disk;
    }

    /** Allocate the first free block, zeroed. */
    method Balloc() returns (r: Found)
      requires Laid(v, disk)
      modifies this`disk, this`logged
      ensures old(Covered()) ==> Covered()
      ensures r.Panic? <==> Full(v, old(disk))
      ensures r.Panic? ==> disk == old(disk) && logged == old(logged)
      ensures r.Block? ==>
        && r.b == FirstFree(v, old(disk)) < v.size
        && disk == Alloc(v, old(disk), r.b)
        && logged == old(logged) + {MapBlock(v, r.b), r.b}
    {
      hide Alloc, NextFree, ByteOr, InUse, FirstFree, MapBlock, Bit;
      var b := 0;
      while b < v.size
        invariant b % BPB == 0 && disk == old(disk) && logged == old(logged)
        invariant forall c :: 0 <= c < b && c < v.size ==> InUse(v, disk, c)
        decreases v.size - b
      {
        MapInMeta(v, disk, b);
        var bp := disk[MapBlock(v, b)];
        var bi := 0;
        while bi < BPB && b + bi < v.size
          invariant 0 <= bi <= BPB && disk == old(disk) && logged == old(logged)
          invariant forall c :: 0 <= c < b + bi && c < v.size ==> InUse(v, disk, c)
        {
          BitAt(v, disk, b, bi);
          if !Bit(bp[bi / 8], bi % 8) {
            FirstFreeIs(v, disk, b + bi);
            disk := disk[MapBlock(v, b) := bp[bi / 8 := ByteOr(bp[bi / 8], bi % 8)]];
            logged := logged + {MapBlock(v, b)};
            disk := disk[b + bi := ZeroBlock()];
            logged := logged + {b + bi};
            return Block(b + bi);
          }
          bi := bi + 1;
        }
        b := b + BPB;
      }
      FirstFreeIs(v, disk, v.size);
      return Panic;
    }

    /** Free a block. Not `ok` is the panic "freeing free block". */
    method Bfree(b: nat) returns (ok: bool)
      requires Laid(v, disk) && b < v.size
      modifies this`disk, this`logged
      ensures old(Covered()) ==> Covered()
      ensures ok == InUse(v, old(disk), b)
      ensures disk == if ok then MarkFree(v, old(disk), b) else old(disk)
      ensures logged == if ok then old(logged) + {MapBlock(v, b)} else old(logged)
    {
      hide MapBlock, Bit, ByteAndNot;
      MapInMeta(v, disk, b);
      var bp := disk[MapBlock(v, b)];
      var bi := b % BPB;
      if !Bit(bp[bi / 8], bi % 8) {
        return false;
      }
      disk := disk[MapBlock(v, b) := bp[bi / 8 := ByteAndNot(bp[bi / 8], bi % 8)]];
      logged := logged + {MapBlock(v, b)};
      return true;
    }

    // -------------------------------------------------------------- bmap

    /** `if((addr = ip->addrs[slot]) == 0) ip->addrs[slot] = addr = balloc(ip->dev)` */
    method EnsureSlot(inum: nat, slot: nat) returns (r: Found)
      requires Good(v, St()) && inum < |inodes| && slot < NSLOTS
      modifies this`disk, this`inodes, this`logged
      ensures old(Covered()) ==> Covered()
      ensures r.Panic? <==> Node(v, old(St()), [inum, slot]) == 0 && Full(v, old(disk))
      ensures St() == Ensure(v, old(St()), [inum, slot])
      ensures r.Block? ==> r.b == Node(v, St(), [inum, slot])
      ensures Node(v, old(St()), [inum, slot]) != 0 ==> logged == old(logged)
      ensures forall b :: b in logged ==> b in old(logged) || b == Node(v, St(), [inum, slot]) || b < v.datastart
    {
      hide Owned, MetaInUse, InUse, FirstFree, Alloc;
      ghost var q := [inum, slot];
      var addr := inodes[inum].addrs[slot];
      if addr == 0 {
        var got := Balloc();
        if got.Panic? {
          return Panic;
        }
        MapInMeta(v, old(disk), got.b);
        addr := got.b;
        inodes := inodes[inum := inodes[inum].(addrs := inodes[inum].addrs[slot := addr])];
      }
      return Block(addr);
    }

    /** `if((addr = a[i]) == 0){ a[i] = addr = balloc(ip->dev); log_write(bp); }` for the index
        block `parent`, whose entry `i` is position `q`. */
    method EnsureEntry(parent: nat, i: nat, ghost q: Pos) returns (r: Found)
      requires Good(v, St()) && ValidPos(inodes, q) && |q| > 2 && Last(q) == i
      requires Node(v, St(), Up(q)) == parent != 0
      modifies this`disk, this`logged
      ensures old(Covered()) ==> Covered()
      ensures r.Panic? <==> Node(v, old(St()), q) == 0 && Full(v, old(disk))
      ensures St() == Ensure(v, old(St()), q)
      ensures r.Block? ==> r.b == Node(v, St(), q)
      ensures Node(v, old(St()), q) != 0 ==> logged == old(logged)
      ensures forall b :: b in logged ==> b in old(logged) || b == Node(v, St(), q) || b == parent || b < v.datastart
    {
      hide InUse, FirstFree, Alloc, Word, SetWord;
      NodeInRange(v, St(), Up(q));
      var addr := Word(disk[parent], i);
      if addr == 0 {
        var got := Balloc();
        if got.Panic? {
          return Panic;
        }
        MapInMeta(v, old(disk), got.b);
        FirstFreeIsData(v, old(disk));
        EnterNode(v, old(St()), q, got.b, q);
        addr := got.b;
        disk := disk[parent := SetWord(disk[parent], i, addr)];
        logged := logged + {parent};
      }
      return Block(addr);
    }

    /** The block of the file that holds block `bn` of inode `inum`, allocated with its index
        blocks if it is not there. */
    method Bmap(inum: nat, bn: nat) returns (r: Found)
      requires Good(v, St()) && inum < |inodes|
      modifies this`disk, this`inodes, this`logged
      ensures old(Covered()) ==> Covered()
      ensures Good(v, St()) && SameBytes(v, old(St()), St())
      ensures BmapDone(v, old(St()), St(), inum, bn, r)
      ensures Mapped(v, old(St()), inum, bn) ==> logged == old(logged)
    {
      hide InUse, Node, Owned, MetaInUse, Full, Ensure, SameBytes, EnsurePath, PathFits, BmapDone, Mapped, ValidPos;
      hide Covered;
      ghost var fs, path := St(), if bn < MAXFILE then LeafPos(inum, bn) else [];
      SameBytesSelf(v, fs);
      if bn < MAXFILE {
        LeafPosValid(inodes, inum, bn);
        PathStart(v, fs, path);
        PrefixesValid(fs.inodes, path);
        MappedPath(v, fs, inum, bn);
      } else {
        BmapOutOfRange(v, fs, inum, bn);
      }
      if bn < NDIRECT {
        r := EnsureSlot(inum, bn);
        assert path[..2] == path;
        BmapStep(v, fs, St(), inum, bn, 2, r);
        return r;
      }
      var b1 := bn - NDIRECT;
      if b1 < NINDIRECT {
        r := EnsureSlot(inum, NDIRECT);
        assert path[..2] == [inum, NDIRECT] && path[..3] == path;
        BmapStep(v, fs, St(), inum, bn, 2, r);
        if r.Panic? {
          return r;
        }
        r := EnsureEntry(r.b, b1, path);
        BmapStep(v, fs, St(), inum, bn, 3, r);
        return r;
      }
      var b2 := b1 - NINDIRECT;
      if b2 < NDINDIRECT {
        var dindex, index := b2 / NINDIRECT, b2 % NINDIRECT;
        r := EnsureSlot(inum, NDIRECT + 1);
        assert path[..2] == [inum, NDIRECT + 1] && path[..4] == path;
        BmapStep(v, fs, St(), inum, bn, 2, r);
        if r.Panic? {
          return r;
        }
        r := EnsureEntry(r.b, dindex, path[..3]);
        BmapStep(v, fs, St(), inum, bn, 3, r);
        if r.Panic? {
          return r;
        }
        r := EnsureEntry(r.b, index, path);
        BmapStep(v, fs, St(), inum, bn, 4, r);
        return r;
      }
      var b3 := b2 - NDINDIRECT;
      if b3 < NTINDIRECT {
        r := BmapTriple(inum, bn, b3);
        return r;
      }
      return Panic;
    }

    /** Its last branch, through three index blocks. */
    method BmapTriple(inum: nat, bn: nat, b3: nat) returns (r: Found)
      requires Good(v, St()) && inum < |inodes|
      requires b3 < NTINDIRECT && bn == NDIRECT + NINDIRECT + NDINDIRECT + b3
      modifies this`disk, this`inodes, this`logged
      ensures old(Covered()) ==> Covered()
      ensures Good(v, St()) && SameBytes(v, old(St()), St())
      ensures BmapDone(v, old(St()), St(), inum, bn, r)
      ensures Mapped(v, old(St()), inum, bn) ==> logged == old(logged)
    {
      hide InUse, Node, Owned, MetaInUse, Full, Ensure, SameBytes, EnsurePath, PathFits, BmapDone, Mapped, ValidPos;
      hide Covered;
      ghost var fs, path := St(), LeafPos(inum, bn);
      LeafPosValid(inodes, inum, bn);
      PathStart(v, fs, path);
      PrefixesValid(fs.inodes, path);
      MappedPath(v, fs, inum, bn);
      var tindex, dindex, index := b3 / NDINDIRECT, b3 % NDINDIRECT / NINDIRECT, b3 % NDINDIRECT % NINDIRECT;
      r := EnsureSlot(inum, NDIRECT + 2);
      assert path[..2] == [inum, NDIRECT + 2] && path[..5] == path;
      BmapStep(v, fs, St(), inum, bn, 2, r);
      if r.Panic? {
        return r;
      }
      r := EnsureEntry(r.b, tindex, path[..3]);
      BmapStep(v, fs, St(), inum, bn, 3, r);
      if r.Panic? {
        return r;
      }
      r := EnsureEntry(r.b, dindex, path[..4]);
      BmapStep(v, fs, St(), inum, bn, 4, r);
      if r.Panic? {
        return r;
      }
      r := EnsureEntry(r.b, index, path);
      BmapStep(v, fs, St(), inum, bn, 5, r);
      return r;
    }

    // -------------------------------------------------------------- itrunc

    /** Free the entries of index block `a`, `depth` levels above the data, and then `a` itself:
        the loops of itrunc, which are nested once per level. */
    method FreeIndex(a: nat, depth: nat) returns (ok: bool)
      requires Laid(v, disk) && a < v.size && 0 < depth
      requires CanFree(v, disk, Order(v, disk, a, depth))
      modifies this`disk, this`logged
      ensures old(Covered()) ==> Covered()
      ensures ok && disk == FreeAll(v, old(disk), Order(v, old(disk), a, depth))
      ensures forall b :: b in logged ==> b in old(logged) || b in MapBlocks(v, MapSize(v))
      decreases depth
    {
      hide CanFree, Word, FreeAll, Order, Entries, InUse;
      ghost var d := disk;
      FreeNothing(v, d);
      EntriesNone(v, d, a, depth);
      var bp := disk[a];
      var j := 0;
      while j < WORDS
        invariant 0 <= j <= WORDS && Laid(v, disk)
        invariant disk == FreeAll(v, d, Entries(v, d, a, depth, j))
        invariant old(Covered()) ==> Covered()
        invariant forall b :: b in logged ==> b in old(logged) || b in MapBlocks(v, MapSize(v))
      {
        NextEntry(v, d, a, depth, j);
        if Word(bp, j) != 0 {
          if depth == 1 {
            ok := Bfree(Word(bp, j));
            InMap(v, Word(bp, j));
          } else {
            ok := FreeIndex(Word(bp, j), depth - 1);
          }
        }
        j := j + 1;
      }
      FreeRoot(v, d, a, depth);
      ok := Bfree(a);
      InMap(v, a);
    }

    /** Discard the contents of inode `inum`. */
    method Itrunc(inum: nat) returns (ok: bool)
      requires Good(v, St()) && inum < |inodes|
      modifies this`disk, this`inodes, this`logged
      ensures old(Covered()) ==> Covered()
      ensures ok && St() == Trunc(v, old(St()), inum)
      ensures forall b :: b in logged ==>
        b in old(logged) || b in MapBlocks(v, MapSize(v)) || b == InodeBlock(v, inum)
    {
      hide CanFree, FreeAll, Order, SlotsOrder, Owned, MetaInUse, InUse;
      ghost var fs := St();
      FreeNothing(v, disk);
      SlotsNone(v, fs, inum);
      ok := true;
      var i := 0;
      while i < NDIRECT
        invariant 0 <= i <= NDIRECT && Cleared(v, fs, inum, St(), i) && ok
        invariant old(Covered()) ==> Covered()
        invariant forall b :: b in logged ==> b in old(logged) || b in MapBlocks(v, MapSize(v))
      {
        NextSlot(v, fs, inum, i, disk);
        var a := inodes[inum].addrs[i];
        if a != 0 {
          ok := Bfree(a);
          InMap(v, a);
          inodes := inodes[inum := inodes[inum].(addrs := inodes[inum].addrs[i := 0])];
        }
        i := i + 1;
      }
      ok := ClearSlot(inum, 1, fs);
      ok := ClearSlot(inum, 2, fs);
      ok := ClearSlot(inum, 3, fs);
      inodes := inodes[inum := inodes[inum].(size := 0)];
      assert inodes[inum].addrs == EmptyInode.addrs;
      logged := logged + {InodeBlock(v, inum)};
    }

    // -------------------------------------------------------------- readi and writei

    /** Read `n` bytes at `off`. */
    method Readi(inum: nat, off: Uint, n: Uint) returns (r: Moved)
      requires Good(v, St()) && SizesOk(St()) && inum < |inodes|
      modifies this`disk, this`inodes, this`logged
      ensures old(Covered()) ==> Covered()
      ensures Good(v, St()) && SameBytes(v, old(St()), St())
      ensures r.Refused? <==> off > old(inodes[inum].size) || off + n >= UINT
      ensures r.Panicked? ==> Full(v, disk) && !NoHoles(v, old(St()), inum)
      ensures r.Panicked? <==> !r.Refused? && !RoomToRead(v, old(St()), inum, off, n)
      ensures NoHoles(v, old(St()), inum) ==> St() == old(St())
      ensures r.Bytes? ==>
        var size := old(inodes[inum].size);
        off <= size && r.data == Contents(v, old(St()), inum)[off..if off + n > size then size else off + n]
    {
      hide Full, LeafPos, BmapDone, Contents, Owned, MetaInUse, ByteAt, Node, NoHoles, Mapped, InTurn, RoomFor;
      ghost var fs := St();
      var size := inodes[inum].size;
      if off > size || (off + n) % UINT < off {
        return Refused;
      }
      var m := n;
      if off + n > size {
        m := size - off;
      }
      SameBytesSelf(v, fs);
      FirstTurn(v, fs, inum, off, m);
      ghost var it := 0;
      var dst, tot := [], 0;
      while tot < m
        invariant 0 <= tot <= m && |dst| == tot && off + m <= size
        invariant Good(v, St()) && SameBytes(v, fs, St()) && InTurn(v, fs, St(), inum, off, m, tot, it)
        invariant NoHoles(v, fs, inum) ==> St() == fs
        invariant old(Covered()) ==> Covered()
        invariant forall i :: 0 <= i < tot ==> dst[i] == ByteAt(v, fs, inum, off + i)
      {
        ghost var t := St();
        var pos := off + tot;
        if NoHoles(v, fs, inum) {
          NoHoleHere(v, fs, inum, pos);
        }
        var b := Bmap(inum, pos / BSIZE);
        BmapFound(v, t, St(), inum, pos / BSIZE, b);
        SameBytesChain(v, fs, t, St());
        var k := if m - tot < BSIZE - pos % BSIZE then m - tot else BSIZE - pos % BSIZE;
        BmapTurn(v, fs, t, St(), inum, off, m, tot, it, tot + k, b);
        if b.Panic? {
          return Panicked;
        }
        PieceBytes(v, fs, St(), inum, pos, k);
        dst := dst + disk[b.b][pos % BSIZE..pos % BSIZE + k];
        tot, it := tot + k, it + 1;
      }
      LastTurn(v, fs, St(), inum, off, m, it);
      ContentsSlice(v, fs, inum, off, m, dst);
      return Bytes(dst);
    }

    /** Write the bytes `src` at `off`. */
    method Writei(inum: nat, off: Uint, src: seq<Byte>) returns (r: Moved)
      requires Good(v, St()) && SizesOk(St()) && inum < |inodes| && |src| < UINT
      modifies this`disk, this`inodes, this`logged
      ensures old(Covered()) ==> Covered()
      ensures Good(v, St())
      ensures r.Refused? <==> off > old(inodes[inum].size) || off + |src| >= UINT || off + |src| > MAXFILE * BSIZE
      ensures r.Refused? ==> St() == old(St())
      ensures r.Panicked? ==> Full(v, disk)
      ensures r.Panicked? <==> !r.Refused? && !RoomFor(v, old(St()), inum, off, |src|)
      ensures r.Bytes? ==>
        && r.data == src && SizesOk(St()) && |inodes| == |old(inodes)|
        && Contents(v, St(), inum) == Overlay(Contents(v, old(St()), inum), off, src)
        && (forall j :: 0 <= j < |inodes| && j != inum ==> Contents(v, St(), j) == Contents(v, old(St()), j))
        && (forall j :: 0 <= j < |inodes| && NoHoles(v, old(St()), j) ==> NoHoles(v, St(), j))
      ensures off + |src| <= old(inodes[inum].size) && NoHoles(v, old(St()), inum) ==>
        r.Bytes? && forall b :: b in logged ==> b in old(logged) || HeldAt(v, old(St()), inum, off, |src|, b)
    {
      hide Full, LeafPos, BmapDone, Contents, Owned, MetaInUse, ByteAt, Node, NoHoles, Wrote, Overlay, HeldAt, Mapped;
      hide InTurn, RoomFor;
      ghost var fs := St();
      var n := |src|;
      if off > inodes[inum].size || (off + n) % UINT < off {
        return Refused;
      }
      if off + n > MAXFILE * BSIZE {
        return Refused;
      }
      WroteNothing(v, fs, inum, off, src);
      FirstTurn(v, fs, inum, off, n);
      var tot := 0;
      ghost var it := 0;
      while tot < n
        invariant 0 <= tot <= n && off + n <= MAXFILE * BSIZE
        invariant Good(v, St()) && Wrote(v, fs, St(), inum, off, src, tot)
        invariant InTurn(v, fs, St(), inum, off, n, tot, it)
        invariant old(Covered()) ==> Covered()
        invariant off + n <= fs.inodes[inum].size && NoHoles(v, fs, inum) ==>
          forall b :: b in logged ==> b in old(logged) || HeldAt(v, fs, inum, off, n, b)
      {
        ghost var t := St();
        var pos := off + tot;
        WroteSizes(v, fs, t, inum, off, src, tot);
        var b := Bmap(inum, pos / BSIZE);
        BmapFound(v, t, St(), inum, pos / BSIZE, b);
        if off + n <= fs.inodes[inum].size && NoHoles(v, fs, inum) {
          WroteMapped(v, fs, t, inum, off, src, tot, n);
        }
        var k := if n - tot < BSIZE - pos % BSIZE then n - tot else BSIZE - pos % BSIZE;
        BmapTurn(v, fs, t, St(), inum, off, n, tot, it, tot + k, b);
        if b.Panic? {
          return Panicked;
        }
        LeafPosValid(inodes, inum, pos / BSIZE);
        TurnOfData(v, fs, St(), inum, off, n, tot + k, it + 1, LeafPos(inum, pos / BSIZE), pos % BSIZE,
                   src[tot..tot + k]);
        WroteMore(v, fs, t, St(), inum, off, src, tot, k);
        disk := disk[b.b := disk[b.b][..pos % BSIZE] + src[tot..tot + k] + disk[b.b][pos % BSIZE + k..]];
        logged := logged + {b.b};
        tot, it := tot + k, it + 1;
      }
      LastTurn(v, fs, St(), inum, off, n, it);
      ghost var t := St();
      WroteSizes(v, fs, t, inum, off, src, n);
      if n > 0 && off + n > inodes[inum].size {
        inodes := inodes[inum := inodes[inum].(size := off + n)];
        logged := logged + {InodeBlock(v, inum)};
      }
      WroteAll(v, fs, t, St(), inum, off, src);
      return Bytes(src);
    }

    /** The file-system part of sys_unlink: an empty directory entry of 16 bytes at `off` of
        directory `dp`, the inode of `dp` if a directory was removed from it, the inode `ip`, and,
        when the last reference goes, the freeing of its blocks. */
    method UnlinkWrites(dp: nat, off: Uint, ip: nat, wasDir: bool, lastRef: bool)
      requires Good(v, St()) && SizesOk(St()) && dp < |inodes| && ip < |inodes| && dp != ip
      requires NoHoles(v, St(), dp) && off % 16 == 0 && off + 16 <= inodes[dp].size
      modifies this`disk, this`inodes, this`logged
      ensures old(Covered()) ==> Covered()
      ensures Good(v, St()) && SizesOk(St()) && |inodes| == |old(inodes)|
      ensures |logged - old(logged)| <= MapSize(v) + 3
      ensures Contents(v, St(), dp) == Overlay(Contents(v, old(St()), dp), off, seq(16, _ => 0))
      ensures Contents(v, St(), ip) == if lastRef then [] else Contents(v, old(St()), ip)
    {
      hide Owned, MetaInUse, InUse, ByteAt, Contents, Overlay, HeldAt, MapBlocks, MapSize, Node, NoHoles, BlockOf;
      hide Trunc, InodeBlock;
      ghost var fs, entry := St(), BlockOf(v, St(), dp, off);
      var r := Writei(dp, off, seq(16, _ => 0));
      OneBlockEntry(v, fs, dp, off, old(logged), logged);
      if wasDir {
        logged := logged + {InodeBlock(v, dp)};
      }
      logged := logged + {InodeBlock(v, ip)};
      if lastRef {
        TruncGood(v, St(), ip, dp);
        var ok := Itrunc(ip);
        logged := logged + {InodeBlock(v, ip)};
      }
      UnlinkCount(v, dp, ip, old(logged), logged, entry);
    }

    /** Free the tree in the slot with `depth` index levels and clear the slot. */
    method ClearSlot(inum: nat, depth: nat, ghost fs: Fs) returns (ok: bool)
      requires 1 <= depth <= 3 && Good(v, fs) && inum < |fs.inodes|
      requires Cleared(v, fs, inum, St(), NDIRECT + depth - 1)
      modifies this`disk, this`inodes, this`logged
      ensures old(Covered()) ==> Covered()
      ensures ok && Cleared(v, fs, inum, St(), NDIRECT + depth)
      ensures forall b :: b in logged ==> b in old(logged) || b in MapBlocks(v, MapSize(v))
    {
      hide CanFree, FreeAll, Order, SlotsOrder, Owned, MetaInUse, InUse;
      var slot := NDIRECT + depth - 1;
      NextSlot(v, fs, inum, slot, disk);
      ok := true;
      var a := inodes[inum].addrs[slot];
      if a != 0 {
        ok := FreeIndex(a, depth);
        inodes := inodes[inum := inodes[inum].(addrs := inodes[inum].addrs[slot := 0])];
      }
    }
  }

  /** Every byte of every file, and every size, is the same in `t` as in `fs`, and no block of a
      file has gone. */
  ghost predicate SameBytes(v: Volume, fs: Fs, t: Fs)
    requires Shape(v, fs) && Shape(v, t)
  {
    && SameSizes(fs, t)
    && (forall p :: ValidPos(t.inodes, p) == ValidPos(fs.inodes, p))
    && (forall j, k :: 0 <= j < |fs.inodes| && 0 <= k < MAXFILE * BSIZE ==> ByteAt(v, t, j, k) == ByteAt(v, fs, j, k))
    && (forall p :: ValidPos(fs.inodes, p) && Node(v, fs, p) != 0 ==> Node(v, t, p) == Node(v, fs, p))
  }

  lemma {:induction false} SameBytesSelf(v: Volume, fs: Fs)
    requires Shape(v, fs)
    ensures SameBytes(v, fs, fs)
  {
  }

  lemma {:induction false} SameBytesChain(v: Volume, fs: Fs, t: Fs, u: Fs)
    requires Shape(v, fs) && Shape(v, t) && Shape(v, u)
    requires SameBytes(v, fs, t) && SameBytes(v, t, u)
    ensures SameBytes(v, fs, u)
  {
  }

  /** Every block the size reaches is there. */
  /** The blocks that are free suffice for the holes in what a read of `n` bytes at `off` reads. */
  ghost predicate RoomToRead(v: Volume, fs: Fs, inum: nat, off: nat, n: nat)
    requires Shape(v, fs) && inum < |fs.inodes| && off <= fs.inodes[inum].size <= MAXFILE * BSIZE
  {
    RoomFor(v, fs, inum, off, if off + n > fs.inodes[inum].size then fs.inodes[inum].size - off else n)
  }

  ghost predicate NoHoles(v: Volume, fs: Fs, inum: nat)
    requires Shape(v, fs) && inum < |fs.inodes|
  {
    forall k :: 0 <= k < fs.inodes[inum].size && k < MAXFILE * BSIZE ==> Present(v, fs, inum, k)
  }

  predicate Present(v: Volume, fs: Fs, inum: nat, k: nat)
    requires Shape(v, fs) && inum < |fs.inodes| && k < MAXFILE * BSIZE
  {
    LeafPosValid(fs.inodes, inum, k / BSIZE);
    Node(v, fs, LeafPos(inum, k / BSIZE)) != 0
  }

  lemma {:induction false} NoHoleHere(v: Volume, fs: Fs, inum: nat, k: nat)
    requires Shape(v, fs) && inum < |fs.inodes| && NoHoles(v, fs, inum)
    requires k < fs.inodes[inum].size && k < MAXFILE * BSIZE
    ensures ValidPos(fs.inodes, LeafPos(inum, k / BSIZE)) && Node(v, fs, LeafPos(inum, k / BSIZE)) != 0
  {
    hide Node, LeafPos;
    assert Present(v, fs, inum, k);
    LeafPosValid(fs.inodes, inum, k / BSIZE);
  }

  /** What readi and writei use of bmap. */
  /** A turn of the loops of readi and writei, from where bmap is called for byte `off + tot`. */
  lemma {:induction false} BmapTurn(v: Volume, fs: Fs, t: Fs, u: Fs, inum: nat, off: nat, n: nat, tot: nat, it: nat,
        tot': nat, r: Found)
    requires InTurn(v, fs, t, inum, off, n, tot, it) && Good(v, t) && Shape(v, u) && inum < |t.inodes|
    requires tot < n && off + n <= MAXFILE * BSIZE && BmapDone(v, t, u, inum, (off + tot) / BSIZE, r)
    requires var m := BSIZE - (off + tot) % BSIZE; tot' == tot + if n - tot < m then n - tot else m
    ensures r.Panic? ==> !RoomFor(v, fs, inum, off, n)
    ensures r.Block? ==> InTurn(v, fs, u, inum, off, n, tot', it + 1)
  {
    hide InTurn, RoomFor, LeafPos, PathFits, EnsurePath, Owned, MetaInUse, Node, Full, Touched, ValidPos;
    TurnIs(v, fs, t, inum, off, n, tot, it, tot');
    var bn := off / BSIZE + it;
    LeafPosValid(t.inodes, inum, bn);
    TurnOfPath(v, fs, t, inum, off, n, tot, it, tot', bn);
  }

  lemma {:induction false} TurnIs(v: Volume, fs: Fs, t: Fs, inum: nat, off: nat, n: nat, tot: nat, it: nat, tot': nat)
    requires InTurn(v, fs, t, inum, off, n, tot, it) && tot < n && off + n <= MAXFILE * BSIZE
    requires var m := BSIZE - (off + tot) % BSIZE; tot' == tot + if n - tot < m then n - tot else m
    ensures AtTurn(off, n, tot', it + 1) && it < Touched(off, n) && (off + tot) / BSIZE == off / BSIZE + it < MAXFILE
  {
    hide FilledIn, Needed;
    TurnBlock(off, n, tot, it);
    NextTurn(off, n, tot, it, tot' - tot);
  }

  lemma {:induction false} BmapFound(v: Volume, fs: Fs, t: Fs, inum: nat, bn: nat, r: Found)
    requires Shape(v, fs) && Good(v, t) && inum < |fs.inodes| == |t.inodes| && bn < MAXFILE
    requires BmapDone(v, fs, t, inum, bn, r)
    ensures ValidPos(fs.inodes, LeafPos(inum, bn)) && ValidPos(t.inodes, LeafPos(inum, bn))
    ensures Node(v, fs, LeafPos(inum, bn)) != 0 ==> r.Block? && t == fs
    ensures r.Panic? ==> Full(v, t.disk)
    ensures r.Block? ==> r.b == Node(v, t, LeafPos(inum, bn)) != 0 && r.b < v.size
  {
  }

  lemma {:induction false} ContentsSlice(v: Volume, fs: Fs, inum: nat, off: nat, m: nat, dst: seq<Byte>)
    requires Shape(v, fs) && inum < |fs.inodes| && off + m <= fs.inodes[inum].size <= MAXFILE * BSIZE && |dst| == m
    requires forall i :: 0 <= i < m ==> dst[i] == ByteAt(v, fs, inum, off + i)
    ensures dst == Contents(v, fs, inum)[off..off + m]
  {
    hide ByteAt;
  }

  /** A piece of one block is a run of bytes of the file. */
  lemma {:induction false} PieceIs(v: Volume, fs: Fs, inum: nat, pos: nat, k: nat, i: nat)
    requires Good(v, fs) && inum < |fs.inodes| && i < k && pos % BSIZE + k <= BSIZE && pos + k <= MAXFILE * BSIZE
    requires ValidPos(fs.inodes, LeafPos(inum, pos / BSIZE)) && Node(v, fs, LeafPos(inum, pos / BSIZE)) != 0
    ensures Node(v, fs, LeafPos(inum, pos / BSIZE)) < v.size
    ensures ByteAt(v, fs, inum, pos + i) == fs.disk[Node(v, fs, LeafPos(inum, pos / BSIZE))][pos % BSIZE + i]
  {
    hide Node, LeafPos, Owned, MetaInUse;
    NodeInRange(v, fs, LeafPos(inum, pos / BSIZE));
    assert (pos + i) / BSIZE == pos / BSIZE && (pos + i) % BSIZE == pos % BSIZE + i;
  }

  /** The piece copied out of the block is what the file held there at the start. */
  lemma {:induction false} PieceBytes(v: Volume, fs: Fs, t: Fs, inum: nat, pos: nat, k: nat)
    requires Shape(v, fs) && Good(v, t) && SameBytes(v, fs, t) && inum < |fs.inodes| == |t.inodes|
    requires pos % BSIZE + k <= BSIZE && pos + k <= MAXFILE * BSIZE && pos < MAXFILE * BSIZE
    requires ValidPos(t.inodes, LeafPos(inum, pos / BSIZE)) && Node(v, t, LeafPos(inum, pos / BSIZE)) != 0
    ensures Node(v, t, LeafPos(inum, pos / BSIZE)) < v.size
    ensures var piece := t.disk[Node(v, t, LeafPos(inum, pos / BSIZE))][pos % BSIZE..pos % BSIZE + k];
      forall i :: 0 <= i < k ==> piece[i] == ByteAt(v, fs, inum, pos + i)
  {
    hide Node, LeafPos, Owned, MetaInUse, ByteAt;
    NodeInRange(v, t, LeafPos(inum, pos / BSIZE));
    var piece := t.disk[Node(v, t, LeafPos(inum, pos / BSIZE))][pos % BSIZE..pos % BSIZE + k];
    forall i | 0 <= i < k
      ensures piece[i] == ByteAt(v, fs, inum, pos + i)
    {
      PieceIs(v, t, inum, pos, k, i);
    }
  }

  predicate SizesOk(fs: Fs) {
    forall j :: 0 <= j < |fs.inodes| ==> fs.inodes[j].size <= MAXFILE * BSIZE
  }

  /** `c` with `src` written over it from `off` on. */
  function Overlay(c: seq<Byte>, off: nat, src: seq<Byte>): seq<Byte>
    requires off <= |c|
  {
    c[..off] + src + if off + |src| < |c| then c[off + |src|..] else []
  }

  /** The first `tot` bytes of `src` have been written at `off` of file `inum`, and nothing else. */
  ghost predicate Wrote(v: Volume, fs: Fs, t: Fs, inum: nat, off: nat, src: seq<Byte>, tot: nat)
    requires Shape(v, fs) && Shape(v, t) && inum < |fs.inodes| && tot <= |src| && off + tot <= MAXFILE * BSIZE
  {
    && SameSizes(fs, t)
    && (forall p :: ValidPos(t.inodes, p) == ValidPos(fs.inodes, p))
    && (forall j, k :: 0 <= j < |fs.inodes| && 0 <= k < MAXFILE * BSIZE ==>
          ByteAt(v, t, j, k) == if j == inum && off <= k < off + tot then src[k - off] else ByteAt(v, fs, j, k))
    && (forall p :: ValidPos(fs.inodes, p) && Node(v, fs, p) != 0 ==> Node(v, t, p) == Node(v, fs, p))
    && (forall k :: off <= k < off + tot ==> Present(v, t, inum, k))
  }

  lemma {:induction false} WroteNothing(v: Volume, fs: Fs, inum: nat, off: nat, src: seq<Byte>)
    requires Shape(v, fs) && inum < |fs.inodes| && off <= MAXFILE * BSIZE
    ensures Wrote(v, fs, fs, inum, off, src, 0)
  {
  }

  lemma {:induction false} WroteSizes(v: Volume, fs: Fs, t: Fs, inum: nat, off: nat, src: seq<Byte>, tot: nat)
    requires Shape(v, fs) && Shape(v, t) && inum < |fs.inodes| && tot <= |src| && off + tot <= MAXFILE * BSIZE
    requires Wrote(v, fs, t, inum, off, src, tot)
    ensures SameSizes(fs, t)
  {
  }

  /** Block `b` holds some of the `n` bytes at `off` of file `inum`. */
  ghost predicate HeldAt(v: Volume, fs: Fs, inum: nat, off: nat, n: nat, b: nat)
    requires Shape(v, fs) && inum < |fs.inodes|
  {
    exists k :: off <= k < off + n && k < MAXFILE * BSIZE && Holds(v, fs, inum, k, b)
  }

  predicate Holds(v: Volume, fs: Fs, inum: nat, k: nat, b: nat)
    requires Shape(v, fs) && inum < |fs.inodes| && k < MAXFILE * BSIZE
  {
    LeafPosValid(fs.inodes, inum, k / BSIZE);
    Node(v, fs, LeafPos(inum, k / BSIZE)) == b
  }

  lemma {:induction false} WroteMapped(v: Volume, fs: Fs, t: Fs, inum: nat, off: nat, src: seq<Byte>, tot: nat, n: nat)
    requires Shape(v, fs) && Shape(v, t) && inum < |fs.inodes| && tot < n == |src| && off + n <= MAXFILE * BSIZE
    requires off + n <= fs.inodes[inum].size && NoHoles(v, fs, inum)
    requires Wrote(v, fs, t, inum, off, src, tot) && |t.inodes| == |fs.inodes|
    requires ValidPos(t.inodes, LeafPos(inum, (off + tot) / BSIZE))
    ensures Mapped(v, t, inum, (off + tot) / BSIZE) && Node(v, t, LeafPos(inum, (off + tot) / BSIZE)) != 0
    ensures HeldAt(v, fs, inum, off, n, Node(v, t, LeafPos(inum, (off + tot) / BSIZE)))
  {
    hide Node, LeafPos, ByteAt;
    NoHoleHere(v, fs, inum, off + tot);
    assert Holds(v, fs, inum, off + tot, Node(v, fs, LeafPos(inum, (off + tot) / BSIZE)));
  }

  lemma {:induction false} SameBlock(pos: nat, k: nat, j: nat)
    requires pos % BSIZE + k <= BSIZE
    ensures pos <= j < pos + k <==> j / BSIZE == pos / BSIZE && pos % BSIZE <= j % BSIZE < pos % BSIZE + k
    ensures pos <= j < pos + k ==> j % BSIZE - pos % BSIZE == j - pos
  {
  }

  /** One turn of writei: bmap took `t` to `u`, and `k` more bytes go into the block it named. */
  lemma {:induction false} WroteMore(v: Volume, fs: Fs, t: Fs, u: Fs, inum: nat, off: nat, src: seq<Byte>, tot: nat,
        k: nat)
    requires Shape(v, fs) && Good(v, t) && Good(v, u) && SameBytes(v, t, u) && inum < |fs.inodes|
    requires tot + k <= |src| && off + |src| <= MAXFILE * BSIZE && k > 0 && (off + tot) % BSIZE + k <= BSIZE
    requires Wrote(v, fs, t, inum, off, src, tot)
    requires ValidPos(u.inodes, LeafPos(inum, (off + tot) / BSIZE))
    requires Node(v, u, LeafPos(inum, (off + tot) / BSIZE)) != 0
    ensures var a := Node(v, u, LeafPos(inum, (off + tot) / BSIZE));
      && a < v.size
      && var w := PutData(v, u, a, (off + tot) % BSIZE, src[tot..tot + k]);
      && Good(v, w) && Wrote(v, fs, w, inum, off, src, tot + k)
  {
    hide ByteAt, Node, LeafPos, Owned, MetaInUse;
    var pos := off + tot;
    var bn, o, piece := pos / BSIZE, pos % BSIZE, src[tot..tot + k];
    LeafPosValid(u.inodes, inum, bn);
    PutDataKeepsGood(v, u, LeafPos(inum, bn), o, piece);
    var w := PutData(v, u, Node(v, u, LeafPos(inum, bn)), o, piece);
    forall j, i | 0 <= j < |fs.inodes| && 0 <= i < MAXFILE * BSIZE
      ensures ByteAt(v, w, j, i) == if j == inum && off <= i < pos + k then src[i - off] else ByteAt(v, fs, j, i)
    {
      PutDataByte(v, u, inum, bn, o, piece, j, i);
      SameBlock(pos, k, i);
      assert ByteAt(v, u, j, i) == ByteAt(v, t, j, i);
    }
    forall i | off <= i < pos + k
      ensures Present(v, w, inum, i)
    {
      SameBlock(pos, k, i);
      LeafPosValid(u.inodes, inum, i / BSIZE);
      if i < pos {
        assert Present(v, t, inum, i);
      }
    }
    forall p | ValidPos(fs.inodes, p) && Node(v, fs, p) != 0
      ensures Node(v, w, p) == Node(v, fs, p)
    {
      assert ValidPos(t.inodes, p) && ValidPos(u.inodes, p);
    }
  }

  /** Changing a size changes no tree. */
  lemma {:induction false} ResizeNode(v: Volume, t: Fs, u: Fs, p: Pos)
    requires Shape(v, t) && Shape(v, u) && u.disk == t.disk && |u.inodes| == |t.inodes|
    requires forall j :: 0 <= j < |t.inodes| ==> u.inodes[j].addrs == t.inodes[j].addrs
    requires ValidPos(t.inodes, p)
    ensures Node(v, u, p) == Node(v, t, p)
    decreases |p|
  {
    hide Word;
    if |p| > 2 {
      ResizeNode(v, t, u, Up(p));
    }
  }

  lemma {:induction false} ResizeKeeps(v: Volume, t: Fs, u: Fs)
    requires Good(v, t) && Shape(v, u) && u.disk == t.disk && |u.inodes| == |t.inodes|
    requires forall j :: 0 <= j < |t.inodes| ==> u.inodes[j].addrs == t.inodes[j].addrs
    ensures Good(v, u)
    ensures forall p :: ValidPos(t.inodes, p) ==> ValidPos(u.inodes, p) && Node(v, u, p) == Node(v, t, p)
    ensures forall j, k :: 0 <= j < |t.inodes| && 0 <= k < MAXFILE * BSIZE ==> ByteAt(v, u, j, k) == ByteAt(v, t, j, k)
  {
    hide Node, InUse, LeafPos;
    forall p | ValidPos(t.inodes, p)
      ensures Node(v, u, p) == Node(v, t, p)
    {
      ResizeNode(v, t, u, p);
    }
    forall j, k | 0 <= j < |t.inodes| && 0 <= k < MAXFILE * BSIZE
      ensures ByteAt(v, u, j, k) == ByteAt(v, t, j, k)
    {
      LeafPosValid(t.inodes, j, k / BSIZE);
    }
    assert forall p :: ValidPos(u.inodes, p) ==> ValidPos(t.inodes, p);
  }

  /** The end of writei: every byte has been written and the size set. */
  lemma {:induction false} WroteAll(v: Volume, fs: Fs, t: Fs, u: Fs, inum: nat, off: nat, src: seq<Byte>)
    requires Shape(v, fs) && SizesOk(fs) && Good(v, t) && inum < |fs.inodes|
    requires off <= fs.inodes[inum].size && off + |src| <= MAXFILE * BSIZE
    requires Wrote(v, fs, t, inum, off, src, |src|) && |t.inodes| == |fs.inodes|
    requires var s := fs.inodes[inum].size;
      u ==
        if |src| > 0 && off + |src| > s then Fs(t.disk, t.inodes[inum := t.inodes[inum].(size := off + |src|)])
        else t
    ensures Good(v, u) && SizesOk(u)
    ensures Contents(v, u, inum) == Overlay(Contents(v, fs, inum), off, src)
    ensures forall j :: 0 <= j < |fs.inodes| && j != inum ==> Contents(v, u, j) == Contents(v, fs, j)
    ensures forall j :: 0 <= j < |fs.inodes| && NoHoles(v, fs, j) ==> NoHoles(v, u, j)
  {
    hide Node, InUse, LeafPos, ByteAt, Owned, MetaInUse;
    ResizeKeeps(v, t, u);
    forall j | 0 <= j < |fs.inodes| && NoHoles(v, fs, j)
      ensures NoHoles(v, u, j)
    {
      forall k | 0 <= k < u.inodes[j].size && k < MAXFILE * BSIZE
        ensures Present(v, u, j, k)
      {
        LeafPosValid(fs.inodes, j, k / BSIZE);
        if k < fs.inodes[j].size {
          assert Present(v, fs, j, k);
        } else {
          assert Present(v, t, inum, k);
        }
      }
    }
  }

  /** itrunc of inode `inum` of `fs` has dealt with the first `n` slots. */
  ghost predicate Cleared(v: Volume, fs: Fs, inum: nat, t: Fs, n: nat) {
    && Shape(v, fs) && inum < |fs.inodes| && n <= NSLOTS && |t.inodes| == |fs.inodes|
    && t.disk == FreeAll(v, fs.disk, SlotsOrder(v, fs, inum, n))
    && t.inodes == fs.inodes[inum := t.inodes[inum]]
    && t.inodes[inum].size == fs.inodes[inum].size
    && |t.inodes[inum].addrs| == NSLOTS
    && (forall i :: 0 <= i < NSLOTS ==> t.inodes[inum].addrs[i] == if i < n then 0 else fs.inodes[inum].addrs[i])
  }

  lemma {:induction false} SlotsNone(v: Volume, fs: Fs, inum: nat)
    requires Shape(v, fs) && inum < |fs.inodes|
    ensures SlotsOrder(v, fs, inum, 0) == []
  {
  }

  lemma {:induction false} EntriesNone(v: Volume, d: Disk, a: nat, depth: nat)
    requires Laid(v, d) && a < v.size && 0 < depth
    ensures Entries(v, d, a, depth, 0) == []
  {
  }

  /** The next tree can be freed, and freeing it keeps to the order. */
  lemma {:induction false} NextTree(v: Volume, d: Disk, done: seq<nat>, w: nat, depth: nat)
    requires Laid(v, d) && CanFree(v, d, done + Order(v, d, w, depth))
    ensures w < v.size && Laid(v, FreeAll(v, d, done))
    ensures var e := FreeAll(v, d, done);
      && CanFree(v, e, Order(v, e, w, depth))
      && FreeAll(v, d, done + Order(v, d, w, depth)) == FreeAll(v, e, Order(v, e, w, depth))
      && (depth == 0 ==> InUse(v, e, w) && FreeAll(v, e, Order(v, e, w, depth)) == MarkFree(v, e, w))
  {
    var next := Order(v, d, w, depth);
    hide InUse, NoRepeat, Entries, FreeAll;
    CanFreeRest(v, d, done, next);
    FreeAllConcat(v, d, done, next);
    OrderKept(v, d, done, w, depth, next);
    if depth == 0 {
      FreeOnly(v, FreeAll(v, d, done), w);
    }
  }

  /** One turn of itrunc over the slots. */
  lemma {:induction false} NextSlot(v: Volume, fs: Fs, inum: nat, i: nat, e: Disk)
    requires Good(v, fs) && inum < |fs.inodes| && i < NSLOTS
    requires e == FreeAll(v, fs.disk, SlotsOrder(v, fs, inum, i))
    ensures var a := fs.inodes[inum].addrs[i];
      if a == 0 then FreeAll(v, fs.disk, SlotsOrder(v, fs, inum, i + 1)) == e
      else
        && a < v.size && CanFree(v, e, Order(v, e, a, Depth(i)))
        && FreeAll(v, fs.disk, SlotsOrder(v, fs, inum, i + 1)) == FreeAll(v, e, Order(v, e, a, Depth(i)))
        && (Depth(i) == 0 ==>
              InUse(v, e, a) && FreeAll(v, fs.disk, SlotsOrder(v, fs, inum, i + 1)) == MarkFree(v, e, a))
  {
    hide CanFree, Order, FreeAll, Owned, MetaInUse, InUse;
    var a, done := fs.inodes[inum].addrs[i], SlotsOrder(v, fs, inum, i);
    if a != 0 {
      SlotsCanFree(v, fs, inum, i + 1);
      NextTree(v, fs.disk, done, a, Depth(i));
    } else {
      assert done + [] == done;
    }
  }

  /** One turn over the entries of an index block. */
  lemma {:induction false} NextEntry(v: Volume, d: Disk, a: nat, depth: nat, j: nat)
    requires Laid(v, d) && a < v.size && 0 < depth && j < WORDS
    requires CanFree(v, d, Order(v, d, a, depth))
    ensures var e, w := FreeAll(v, d, Entries(v, d, a, depth, j)), Word(d[a], j);
      if w == 0 then FreeAll(v, d, Entries(v, d, a, depth, j + 1)) == e
      else
        && w < v.size && CanFree(v, e, Order(v, e, w, depth - 1))
        && FreeAll(v, d, Entries(v, d, a, depth, j + 1)) == FreeAll(v, e, Order(v, e, w, depth - 1))
        && (depth == 1 ==> InUse(v, e, w) && FreeAll(v, d, Entries(v, d, a, depth, j + 1)) == MarkFree(v, e, w))
  {
    hide CanFree, Word, FreeAll, Order, Entries, InUse;
    var w, done, upto := Word(d[a], j), Entries(v, d, a, depth, j), Entries(v, d, a, depth, j + 1);
    EntriesOneMore(v, d, a, depth, j + 1);
    if w != 0 {
      OrderOpens(v, d, a, depth);
      EntriesPrefix(v, d, a, depth, j + 1, WORDS);
      var all := Entries(v, d, a, depth, WORDS);
      CanFreeRest(v, d, all, [a]);
      CanFreeRest(v, d, upto, all[|upto|..]);
      NextTree(v, d, done, w, depth - 1);
    } else {
      assert done + [] == done;
    }
  }

  /** After its entries, an index block itself. */
  lemma {:induction false} FreeRoot(v: Volume, d: Disk, a: nat, depth: nat)
    requires Laid(v, d) && a < v.size && 0 < depth && CanFree(v, d, Order(v, d, a, depth))
    ensures var e := FreeAll(v, d, Entries(v, d, a, depth, WORDS));
      InUse(v, e, a) && FreeAll(v, d, Order(v, d, a, depth)) == MarkFree(v, e, a)
  {
    hide CanFree, Word, FreeAll, Order, Entries, InUse;
    var all := Entries(v, d, a, depth, WORDS);
    OrderOpens(v, d, a, depth);
    CanFreeRest(v, d, all, [a]);
    FreeAllConcat(v, d, all, [a]);
    FreeOnly(v, FreeAll(v, d, all), a);
  }

  function BlockOf(v: Volume, fs: Fs, inum: nat, k: nat): nat
    requires Shape(v, fs) && inum < |fs.inodes| && k < MAXFILE * BSIZE
  {
    LeafPosValid(fs.inodes, inum, k / BSIZE);
    Node(v, fs, LeafPos(inum, k / BSIZE))
  }

  lemma {:induction false} TruncGood(v: Volume, fs: Fs, inum: nat, j: nat)
    requires Good(v, fs) && SizesOk(fs) && inum < |fs.inodes| && j < |fs.inodes| && j != inum
    ensures Good(v, Trunc(v, fs, inum)) && SizesOk(Trunc(v, fs, inum))
    ensures Contents(v, Trunc(v, fs, inum), inum) == []
    ensures Contents(v, Trunc(v, fs, inum), j) == Contents(v, fs, j)
  {
    hide ByteAt, SlotsOrder, FreeAll;
    TruncEffect(v, fs, inum);
  }

  lemma {:induction false} InOneBlock(off: nat, k: nat)
    requires off % 16 == 0 && off <= k < off + 16
    ensures k / BSIZE == off / BSIZE
  {
  }

  /** A directory entry lies in one block. */
  lemma {:induction false} OneBlockEntry(v: Volume, fs: Fs, inum: nat, off: nat, before: set<nat>, after: set<nat>)
    requires Shape(v, fs) && inum < |fs.inodes| && off % 16 == 0 && off + 16 <= MAXFILE * BSIZE
    requires forall b :: b in after ==> b in before || HeldAt(v, fs, inum, off, 16, b)
    ensures forall b :: b in after ==> b in before || b == BlockOf(v, fs, inum, off)
  {
    hide Node, LeafPos;
    forall b | b in after && b !in before
      ensures b == BlockOf(v, fs, inum, off)
    {
      var k :| off <= k < off + 16 && k < MAXFILE * BSIZE && Holds(v, fs, inum, k, b);
      InOneBlock(off, k);
    }
  }

  lemma {:induction false} MapBlocksCount(v: Volume, n: nat)
    ensures |MapBlocks(v, n)| <= n
  {
    if n > 0 {
      MapBlocksCount(v, n - 1);
    }
  }

  lemma {:induction false} SubsetCount(s: set<nat>, t: set<nat>)
    requires s <= t
    ensures |s| <= |t|
  {
    assert t == s + (t - s);
  }

  /** One block for the entry, two for inodes, and the free map. */
  lemma {:induction false} UnlinkCount(v: Volume, dp: nat, ip: nat, before: set<nat>, after: set<nat>, entry: nat)
    requires forall b :: b in after ==>
      b in before || b == entry || b == InodeBlock(v, dp) || b == InodeBlock(v, ip) || b in MapBlocks(v, MapSize(v))
    ensures |after - before| <= MapSize(v) + 3
  {
    hide MapSize, InodeBlock;
    var three := {entry, InodeBlock(v, dp), InodeBlock(v, ip)};
    MapBlocksCount(v, MapSize(v));
    SubsetCount(after - before, three + MapBlocks(v, MapSize(v)));
  }

  /** With project3's disk of 100000 blocks, unlinking a file of any size logs at most 28 blocks,
      within MAXOPBLOCKS = 30. */
  lemma {:induction false} UnlinkFits(v: Volume)
    requires v.size == 100000
    ensures MapSize(v) + 3 == 28 <= 30
  {
  }

  lemma {:induction false} FreeNothing(v: Volume, d: Disk)
    requires Laid(v, d)
    ensures FreeAll(v, d, []) == d
  {
  }

  lemma {:induction false} FreeOnly(v: Volume, d: Disk, b: nat)
    requires Laid(v, d) && b < v.size && CanFree(v, d, [b])
    ensures FreeAll(v, d, [b]) == MarkFree(v, d, b) && InUse(v, d, b)
  {
  }

  lemma {:induction false} InMap(v: Volume, b: nat)
    requires b < v.size
    ensures MapBlock(v, b) in MapBlocks(v, MapSize(v))
  {
    MapBlocksHas(v, MapSize(v), b / BPB);
  }

  lemma {:induction false} MapBlocksHas(v: Volume, n: nat, i: nat)
    requires i < n
    ensures v.bmapstart + i in MapBlocks(v, n)
  {
    if i < n - 1 {
      MapBlocksHas(v, n - 1, i);
    }
  }

  lemma {:induction false} EntriesPrefix(v: Volume, d: Disk, a: nat, depth: nat, m: nat, n: nat)
    requires Laid(v, d) && a < v.size && 0 < depth && m <= n <= WORDS
    ensures |Entries(v, d, a, depth, m)| <= |Entries(v, d, a, depth, n)|
    ensures Entries(v, d, a, depth, n) ==
      Entries(v, d, a, depth, m) + Entries(v, d, a, depth, n)[|Entries(v, d, a, depth, m)|..]
  {
    hide Order, Word;
    if m < n {
      EntriesPrefix(v, d, a, depth, m, n - 1);
    }
  }

  /** Blocks freed earlier do not change what the loops still find. */
  lemma {:induction false} OrderKept(v: Volume, d: Disk, done: seq<nat>, w: nat, depth: nat, next: seq<nat>)
    requires Laid(v, d) && next == Order(v, d, w, depth)
    requires CanFree(v, FreeAll(v, d, done), next)
    ensures Order(v, FreeAll(v, d, done), w, depth) == next && w in next && w < v.size
  {
    hide InUse, NoRepeat, Entries;
    var e := FreeAll(v, d, done);
    forall c | v.datastart <= c < v.size
      ensures d[c] == e[c]
    {
      FreeAllEffect(v, d, done, c);
    }
    OrderSame(v, d, e, w, depth);
    assert next[|next|-1] == w;
  }

  /** One more entry of a path has been made sure of; bookkeeping for Bmap. */
  lemma {:induction false} PathStep(v: Volume, fs: Fs, t: Fs, path: Pos, m: nat, panic: bool)
    requires Good(v, fs) && ValidPos(fs.inodes, path) && 2 <= m <= |path|
    requires PathFits(v, fs, path, m - 1)
    requires t == Ensure(v, EnsurePath(v, fs, path, m - 1), path[..m])
    requires panic <==>
      Node(v, EnsurePath(v, fs, path, m - 1), path[..m]) == 0 && Full(v, EnsurePath(v, fs, path, m - 1).disk)
    ensures t == EnsurePath(v, fs, path, m) && Good(v, t) && SameBytes(v, fs, t)
    ensures panic ==> Full(v, t.disk) && !PathFits(v, fs, path, |path|)
    ensures !panic ==> PathFits(v, fs, path, m) && Node(v, t, path[..m]) != 0
  {
    hide InUse, Node, Owned, MetaInUse, Full, SameBytes;
    PathExtends(v, fs, path, m - 1);
    if panic {
      PathSameBytes(v, fs, path, m - 1);
      NeverFits(v, fs, path, m, |path|);
    } else {
      PathSameBytes(v, fs, path, m);
      PathExtends(v, fs, path, m);
      assert OnPath(path[..m], path, m);
    }
  }

  lemma {:induction false} PathStart(v: Volume, fs: Fs, path: Pos)
    requires Shape(v, fs) && ValidPos(fs.inodes, path)
    ensures PathFits(v, fs, path, 1) && EnsurePath(v, fs, path, 1) == fs
  {
  }

  lemma {:induction false} PathSameBytes(v: Volume, fs: Fs, path: Pos, m: nat)
    requires Good(v, fs) && ValidPos(fs.inodes, path) && m <= |path| && PathFits(v, fs, path, m)
    ensures SameBytes(v, fs, EnsurePath(v, fs, path, m))
  {
    hide InUse, Node, Owned, MetaInUse, Full, ByteAt, Ensure, EnsurePath;
    PathExtends(v, fs, path, m);
    forall j, k | 0 <= j < |fs.inodes| && 0 <= k < MAXFILE * BSIZE
      ensures ByteAt(v, EnsurePath(v, fs, path, m), j, k) == ByteAt(v, fs, j, k)
    {
      PathByte(v, fs, path, m, j, k);
    }
  }

  /** A block that is there is found again, with nothing allocated. */
  lemma {:induction false} PathThere(v: Volume, fs: Fs, path: Pos)
    requires Shape(v, fs) && ValidPos(fs.inodes, path) && Node(v, fs, path) != 0
    ensures PathFits(v, fs, path, |path|) && EnsurePath(v, fs, path, |path|) == fs
  {
    hide Node, PathFits, EnsurePath;
    forall k | 2 <= k <= |path|
      ensures Node(v, fs, path[..k]) != 0
    {
      PrefixPresent(v, fs, path, k);
    }
    PathAgain(v, fs, path, |path|);
  }

  /** Block `bn` of file `inum` is there. */
  predicate Mapped(v: Volume, fs: Fs, inum: nat, bn: nat)
    requires Shape(v, fs) && inum < |fs.inodes|
  {
    bn < MAXFILE && (LeafPosValid(fs.inodes, inum, bn); Node(v, fs, LeafPos(inum, bn)) != 0)
  }

  lemma {:induction false} MappedPath(v: Volume, fs: Fs, inum: nat, bn: nat)
    requires Shape(v, fs) && inum < |fs.inodes| && bn < MAXFILE && ValidPos(fs.inodes, LeafPos(inum, bn))
    requires forall k :: 2 <= k <= |LeafPos(inum, bn)| ==> ValidPos(fs.inodes, LeafPos(inum, bn)[..k])
    ensures Mapped(v, fs, inum, bn) ==>
      forall k :: 2 <= k <= |LeafPos(inum, bn)| ==> Node(v, fs, LeafPos(inum, bn)[..k]) != 0
  {
    hide LeafPos, Node;
    if Mapped(v, fs, inum, bn) {
      AllMapped(v, fs, LeafPos(inum, bn));
    }
  }

  lemma {:induction false} PrefixesValid(inodes: seq<Inode>, path: Pos)
    requires ValidPos(inodes, path)
    ensures forall k :: 2 <= k <= |path| ==> ValidPos(inodes, path[..k])
    ensures forall k :: 2 < k <= |path| ==> Up(path[..k]) == path[..k-1] && Last(path[..k]) == path[k-1]
  {
  }

  /** What bmap promises about its result `r` and the state `t` it leaves. */
  ghost predicate BmapDone(v: Volume, fs: Fs, t: Fs, inum: nat, bn: nat, r: Found)
    requires Shape(v, fs) && Shape(v, t) && inum < |fs.inodes|
  {
    if bn >= MAXFILE then r.Panic? && t == fs
    else
      var path := LeafPos(inum, bn);
      LeafPosValid(fs.inodes, inum, bn);
      && (r.Panic? <==> !PathFits(v, fs, path, |path|))
      && (r.Panic? ==> Full(v, t.disk))
      && (r.Block? ==>
            && t == EnsurePath(v, fs, path, |path|)
            && ValidPos(t.inodes, path) && r.b == Node(v, t, path) != 0)
      && (Node(v, fs, path) != 0 ==> r == Block(Node(v, fs, path)) && t == fs)
  }

  lemma {:induction false} BmapOutOfRange(v: Volume, fs: Fs, inum: nat, bn: nat)
    requires Shape(v, fs) && inum < |fs.inodes| && bn >= MAXFILE
    ensures BmapDone(v, fs, fs, inum, bn, Panic)
  {
  }

  /** Bookkeeping for one allocation step of bmap. */
  lemma {:induction false} BmapStep(v: Volume, fs: Fs, t: Fs, inum: nat, bn: nat, m: nat, r: Found)
    requires Good(v, fs) && inum < |fs.inodes| && bn < MAXFILE && ValidPos(fs.inodes, LeafPos(inum, bn))
    requires 2 <= m <= |LeafPos(inum, bn)| && PathFits(v, fs, LeafPos(inum, bn), m - 1)
    requires var u := EnsurePath(v, fs, LeafPos(inum, bn), m - 1);
      && t == Ensure(v, u, LeafPos(inum, bn)[..m])
      && (r.Panic? <==> Node(v, u, LeafPos(inum, bn)[..m]) == 0 && Full(v, u.disk))
      && (r.Block? ==> r.b == Node(v, t, LeafPos(inum, bn)[..m]))
    ensures t == EnsurePath(v, fs, LeafPos(inum, bn), m) && Good(v, t) && SameBytes(v, fs, t)
    ensures r.Panic? || m == |LeafPos(inum, bn)| ==> BmapDone(v, fs, t, inum, bn, r)
    ensures r.Block? ==> PathFits(v, fs, LeafPos(inum, bn), m) && r.b != 0
    ensures Mapped(v, fs, inum, bn) ==> t == fs
  {
    hide InUse, Node, Owned, MetaInUse, Full, SameBytes, Ensure, EnsurePath, PathFits, LeafPos;
    var path := LeafPos(inum, bn);
    PathStep(v, fs, t, path, m, r.Panic?);
    assert path[..|path|] == path;
    if Node(v, fs, path) != 0 {
      PathThere(v, fs, path);
      AllMapped(v, fs, path);
      PathAgain(v, fs, path, m);
    }
  }

  lemma {:induction false} AllMapped(v: Volume, fs: Fs, path: Pos)
    requires Shape(v, fs) && ValidPos(fs.inodes, path) && Node(v, fs, path) != 0
    ensures forall k :: 2 <= k <= |path| ==> Node(v, fs, path[..k]) != 0
  {
    hide Node;
    forall k | 2 <= k <= |path|
      ensures Node(v, fs, path[..k]) != 0
    {
      PrefixPresent(v, fs, path, k);
    }
  }

  lemma {:induction false} NeverFits(v: Volume, fs: Fs, path: Pos, m: nat, n: nat)
    requires Shape(v, fs) && ValidPos(fs.inodes, path) && 2 <= m <= n <= |path|
    requires !PathFits(v, fs, path, m)
    ensures !PathFits(v, fs, path, n)
  {
    hide Node, Full, Ensure;
    if m < n {
      NeverFits(v, fs, path, m, n - 1);
    }
  }

  /** The bit balloc tests at offset `bi` of the map block of `b`, and the block it makes of it. */
  lemma {:induction false} BitAt(v: Volume, d: Disk, b: nat, bi: nat)
    requires Laid(v, d) && b % BPB == 0 && bi < BPB && b + bi < v.size
    ensures MapBlock(v, b) < |d| && MapBlock(v, b + bi) == MapBlock(v, b)
    ensures InUse(v, d, b + bi) <==> Bit(d[MapBlock(v, b)][bi / 8], bi % 8)
    ensures Alloc(v, d, b + bi) ==
      d[MapBlock(v, b) := d[MapBlock(v, b)][bi / 8 := ByteOr(d[MapBlock(v, b)][bi / 8], bi % 8)]][b + bi := ZeroBlock()]
  {
    hide ByteOr, Bit;
    MapInMeta(v, d, b + bi);
    SplitBit(b, bi);
  }

  lemma {:induction false} SplitBit(b: nat, bi: nat)
    requires b % BPB == 0 && bi < BPB
    ensures (b + bi) % BPB == bi && (b + bi) / BPB == b / BPB && (b + bi) % 8 == bi % 8
  {
    var q := b / BPB;
    assert b == q * 4096;
    assert b + bi == 8 * (512 * q) + bi;
  }
}
