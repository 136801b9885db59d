/** The log budget of a write in project1: bmap and writei of fs.c with direct and single indirect
    blocks, and filewrite of file.c cutting a write into transactions. What the disk holds is left
    out; which blocks reach log_write is not. */
module WriteBudget {
  import opened Wrappers

  const BSIZE := 512
  const BPB := BSIZE * 8
  const NDIRECT := 12
  const NINDIRECT := 128
  const MAXFILE := NDIRECT + NINDIRECT
  const MAXOPBLOCKS := 10
  const CHUNK := (MAXOPBLOCKS - 1 - 1 - 2) / 2 * 512

  /** What writei and filewrite come back with: a panic, -1, or the bytes written. */
  datatype Wrote = Panicked | Refused | Bytes(n: nat)

  /** A set listed by a sequence is no larger than it. */
  lemma {:induction false} AtMost(a: set<nat>, s: seq<nat>)
    requires forall x :: x in a ==> x in s
    ensures |a| <= |s|
  {
    if a != {} {
      var n := |s| - 1;
      AtMost(a - {s[n]}, s[..n]);
      assert |a| <= |a - {s[n]}| + 1;
    }
  }

  /** The number of blocks that `size` bytes fill or begin. */
  function BlocksOf(size: nat): nat {
    (size + BSIZE - 1) / BSIZE
  }

  /** The block number stored for block `k` of a file. */
  function Entry(addrs: seq<nat>, ind: seq<nat>, k: nat): nat
    requires |addrs| == NDIRECT + 1 && |ind| == NINDIRECT && k < MAXFILE
  {
    if k < NDIRECT then addrs[k] else ind[k - NDIRECT]
  }

  function Max(a: int, b: int): int {
    if a < b then b else a
  }

  /** After `it` rounds of writei's loop: at the start of block `it` from the first, or at the end. */
  ghost predicate Reached(off: nat, n: nat, tot: nat, it: nat) {
    && (it == 0 <==> tot == 0)
    && (it > 0 && tot < n ==> off + tot == (off / BSIZE + it) * BSIZE)
    && (it > 0 && tot == n ==> (off / BSIZE + it - 1) * BSIZE < off + n <= (off / BSIZE + it) * BSIZE)
  }

  lemma {:induction false} Unmoved(off: nat, n: nat)
    ensures Reached(off, n, 0, 0)
  {
  }

  lemma {:induction false} Round(off: nat, n: nat, tot: nat, it: nat, m: nat, size: nat)
    requires Reached(off, n, tot, it) && tot < n && off <= size && off + n <= MAXFILE * BSIZE
    requires m == if n - tot < BSIZE - (off + tot) % BSIZE then n - tot else BSIZE - (off + tot) % BSIZE
    ensures m > 0 && Reached(off, n, tot + m, it + 1)
    ensures (off + tot) / BSIZE == off / BSIZE + it < MAXFILE
    ensures it == 0 && off % BSIZE != 0 ==> off / BSIZE < BlocksOf(size)
  {
  }

  lemma {:induction false} Rounds(off: nat, n: nat, tot: nat, it: nat)
    requires Reached(off, n, tot, it) && tot <= n
    ensures n <= CHUNK ==> it <= 3 + if off % BSIZE != 0 then 1 else 0
    ensures tot == n && n > 0 ==> off / BSIZE + it == BlocksOf(off + n)
    ensures tot == n && n == 0 ==> it == 0
  {
  }

  /** What bmap and log_write add to the logged blocks: the listed blocks of the free map, the data
      block `e`, and if `using` the indirect block. */
  ghost predicate Adds(logged: set<nat>, logged': set<nat>, maps: seq<nat>, e: nat, using: bool, indb: nat) {
    forall x :: x in logged' ==> x in logged || x in maps || x == e || (using && x == indb)
  }

  /** What a transaction has logged after `it` rounds: the indirect block if `used`, and listed
      blocks: two a round, less one if `cut`, the first round wrote into a block that was there, and
      one more if the indirect block is new. */
  ghost predicate Tally(logged: set<nat>, indb: nat, used: bool, anew: bool, it: nat, cut: bool) {
    exists s: seq<nat> :: Lists(s, logged, indb, used) && |s| <= Most(anew, it, cut)
  }

  ghost predicate Lists(s: seq<nat>, logged: set<nat>, indb: nat, used: bool) {
    forall x :: x in logged ==> x in s || (used && x == indb)
  }

  function Most(anew: bool, it: nat, cut: bool): int {
    2 * it + (if anew then 1 else 0) - if cut && it > 0 then 1 else 0
  }

  lemma {:induction false} TallyStep(logged: set<nat>, indb: nat, used: bool, anew: bool, it: nat, cut: bool,
                                     logged': set<nat>, maps: seq<nat>, e: nat, indb': nat, using: bool, anew': bool)
    requires Tally(logged, indb, used, anew, it, cut) && (used ==> indb' == indb) && (anew ==> anew')
    requires Adds(logged, logged', maps, e, using, indb')
    requires |maps| <= if anew' && !anew then 2 else 1
    requires cut && it == 0 ==> maps == []
    ensures Tally(logged', indb', used || using, anew', it + 1, cut)
  {
    var s: seq<nat> :| Lists(s, logged, indb, used) && |s| <= Most(anew, it, cut);
    assert Lists(s + maps + [e], logged', indb', used || using);
  }

  lemma {:induction false} TallyEnd(logged: set<nat>, indb: nat, used: bool, anew: bool, it: nat, cut: bool)
    requires Tally(logged, indb, used, anew, it, cut)
    ensures |logged| <= Most(anew, it, cut) + 1
  {
    var s: seq<nat> :| Lists(s, logged, indb, used) && |s| <= Most(anew, it, cut);
    AtMost(logged, s + [indb]);
  }

  /** The blocks a file of `size` bytes needs, and `it` blocks from `first` on, are there. */
  ghost predicate Filled(addrs: seq<nat>, ind: seq<nat>, size: nat, first: nat, it: nat) {
    && |addrs| == NDIRECT + 1 && |ind| == NINDIRECT
    && (forall k :: 0 <= k < BlocksOf(size) && k < MAXFILE ==> Entry(addrs, ind, k) != 0)
    && (forall k :: first <= k < first + it && k < MAXFILE ==> Entry(addrs, ind, k) != 0)
  }

  lemma {:induction false} FilledStep(addrs: seq<nat>, ind: seq<nat>, addrs': seq<nat>, ind': seq<nat>, size: nat,
        first: nat, it: nat)
    requires Filled(addrs, ind, size, first, it) && first + it < MAXFILE && |addrs'| == NDIRECT + 1
    requires |ind'| == NINDIRECT
    requires forall k :: 0 <= k < MAXFILE && k != first + it ==> Entry(addrs', ind', k) == Entry(addrs, ind, k)
    requires Entry(addrs, ind, first + it) != 0 ==> addrs' == addrs && ind' == ind
    ensures Filled(addrs', ind', size, first, it)
    ensures Entry(addrs', ind', first + it) != 0 ==> Filled(addrs', ind', size, first, it + 1)
  {
  }

  // ---------------------------------------------------------------- which blocks are logged

  type Blockno = b: nat | b > 0 witness 1

  /** A file's block numbers, the blocks balloc will find, in order, and the blocks passed to
      log_write in the transaction. */
  datatype State = State(addrs: seq<nat>, ind: seq<nat>, free: seq<Blockno>, logged: set<nat>)

  predicate Sized(a: State) {
    |a.addrs| == NDIRECT + 1 && |a.ind| == NINDIRECT
  }

  function MapBlock(bmapstart: nat, b: nat): nat {
    b / BPB + bmapstart
  }

  /** None is the panic "out of blocks", here and below. */
  function WithSlot(bmapstart: nat, a: State, slot: nat): (r: Option<State>)
    requires Sized(a) && slot <= NDIRECT
    ensures r.Some? ==> Sized(r.value)
  {
    if a.addrs[slot] != 0 then Some(a)
    else if a.free == [] then None
    else
      var b := a.free[0];
      Some(a.(addrs := a.addrs[slot := b], free := a.free[1..], logged := a.logged + {MapBlock(bmapstart, b), b}))
  }

  function WithEntry(bmapstart: nat, a: State, i: nat): (r: Option<State>)
    requires Sized(a) && i < NINDIRECT
    ensures r.Some? ==> Sized(r.value)
  {
    if a.ind[i] != 0 then Some(a)
    else if a.free == [] then None
    else
      var b := a.free[0];
      Some(a.(ind := a.ind[i := b], free := a.free[1..],
        logged := a.logged + {MapBlock(bmapstart, b), b, a.addrs[NDIRECT]}))
  }

  function WithBlock(bmapstart: nat, a: State, bn: nat): (r: Option<State>)
    requires Sized(a) && bn < MAXFILE
    ensures r.Some? ==> Sized(r.value)
  {
    if bn < NDIRECT then WithSlot(bmapstart, a, bn)
    else
      var t := WithSlot(bmapstart, a, NDIRECT);
      if t.None? then None else WithEntry(bmapstart, t.value, bn - NDIRECT)
  }

  /** Bytes of the block at `o` that a write of `left` more bytes changes. */
  function Piece(o: nat, left: nat): (m: nat)
    requires left > 0
    ensures 0 < m <= left
  {
    if left < BSIZE - o % BSIZE then left else BSIZE - o % BSIZE
  }

  /** writei's loop from `o` on, for `left` bytes: every block found or made, and logged. */
  function WithData(bmapstart: nat, a: State, o: nat, left: nat): (r: Option<State>)
    requires Sized(a) && o + left <= MAXFILE * BSIZE
    ensures r.Some? ==> Sized(r.value)
    decreases left
  {
    if left == 0 then Some(a)
    else
      var t := WithBlock(bmapstart, a, o / BSIZE);
      if t.None? then None
      else
        var u := t.value.(logged := t.value.logged + {Entry(t.value.addrs, t.value.ind, o / BSIZE)});
        WithData(bmapstart, u, o + Piece(o, left), left - Piece(o, left))
  }

  // ---------------------------------------------------------------- when blocks run out

  /** How many of the `k` blocks of a file from `first` on are missing. */
  function Holes(a: State, first: nat, k: nat): nat
    requires Sized(a) && first + k <= MAXFILE
  {
    if k == 0 then 0 else Holes(a, first, k - 1) + if Entry(a.addrs, a.ind, first + k - 1) == 0 then 1 else 0
  }

  /** How many blocks they still need: those, and the indirect block if one of them needs that. */
  function Lacking(a: State, first: nat, k: nat): nat
    requires Sized(a) && first + k <= MAXFILE
  {
    Holes(a, first, k) + if k > 0 && first + k > NDIRECT && a.addrs[NDIRECT] == 0 then 1 else 0
  }

  lemma {:induction false} LackingGrows(a: State, first: nat, k: nat, n: nat)
    requires Sized(a) && k <= n && first + n <= MAXFILE
    ensures Lacking(a, first, k) <= Lacking(a, first, n)
  {
    hide Entry;
    if k < n {
      LackingGrows(a, first, k, n - 1);
    }
  }

  /** `t` is `a` after the missing ones of those blocks have been allocated. */
  ghost predicate Took(a: State, t: State, first: nat, k: nat) {
    && Sized(a) && Sized(t) && first + k <= MAXFILE
    && (forall j :: 0 <= j < MAXFILE ==>
          (Entry(t.addrs, t.ind, j) == 0 <==> Entry(a.addrs, a.ind, j) == 0 && !(first <= j < first + k)))
    && (t.addrs[NDIRECT] == 0 <==> a.addrs[NDIRECT] == 0 && !(k > 0 && first + k > NDIRECT))
    && |t.free| + Lacking(a, first, k) == |a.free|
  }

  lemma {:induction false} BlockNeeds(bmapstart: nat, t: State, bn: nat)
    requires Sized(t) && bn < MAXFILE
    ensures var need := (if Entry(t.addrs, t.ind, bn) == 0 then 1 else 0)
                        + (if bn >= NDIRECT && t.addrs[NDIRECT] == 0 then 1 else 0);
      var r := WithBlock(bmapstart, t, bn);
      && (r.Some? <==> need <= |t.free|)
      && (r.Some? ==>
            && |r.value.free| == |t.free| - need && Entry(r.value.addrs, r.value.ind, bn) != 0
            && (forall j :: 0 <= j < MAXFILE && j != bn ==>
                  Entry(r.value.addrs, r.value.ind, j) == Entry(t.addrs, t.ind, j))
            && (r.value.addrs[NDIRECT] == 0 <==> t.addrs[NDIRECT] == 0 && bn < NDIRECT))
  {
  }

  /** The next block, or the last one again. */
  lemma {:induction false} TookBlock(bmapstart: nat, a: State, t: State, first: nat, k: nat, bn: nat)
    requires Took(a, t, first, k) && bn < MAXFILE && (bn == first + k || (k > 0 && bn == first + k - 1))
    ensures var r := WithBlock(bmapstart, t, bn);
      && (r.Some? <==> Lacking(a, first, bn - first + 1) <= |a.free|)
      && (r.Some? ==> Took(a, r.value, first, bn - first + 1))
  {
    hide WithBlock, Entry;
    BlockNeeds(bmapstart, t, bn);
  }

  /** All the blocks of a range of bytes. */
  lemma {:induction false} TookData(bmapstart: nat, a: State, t: State, first: nat, k: nat, o: nat, left: nat)
    requires Took(a, t, first, k) && left > 0 && o + left <= MAXFILE * BSIZE
    requires o / BSIZE == first + k || (k > 0 && o / BSIZE == first + k - 1)
    ensures first <= (o + left - 1) / BSIZE < MAXFILE
    ensures var r, n := WithData(bmapstart, t, o, left), (o + left - 1) / BSIZE + 1 - first;
      && (r.Some? <==> Lacking(a, first, n) <= |a.free|)
      && (r.Some? ==> Took(a, r.value, first, n))
    decreases left
  {
    hide WithBlock, Entry, Lacking;
    var bn, m := o / BSIZE, Piece(o, left);
    PieceBlocks(o, left);
    var n := (o + left - 1) / BSIZE + 1 - first;
    TookBlock(bmapstart, a, t, first, k, bn);
    LackingGrows(a, first, bn - first + 1, n);
    var b := WithBlock(bmapstart, t, bn);
    if b.Some? {
      var u := b.value.(logged := b.value.logged + {Entry(b.value.addrs, b.value.ind, bn)});
      DataRound(bmapstart, t, o, left, b.value, u);
      assert Took(a, u, first, bn - first + 1);
      if left > m {
        TookData(bmapstart, a, u, first, bn - first + 1, o + m, left - m);
      } else {
        NoMoreData(bmapstart, u, o + m);
      }
    } else {
      NoData(bmapstart, t, o, left);
    }
  }

  lemma {:induction false} PieceBlocks(o: nat, left: nat)
    requires left > 0
    ensures o / BSIZE <= (o + left - 1) / BSIZE
    ensures left > Piece(o, left) ==> (o + Piece(o, left)) / BSIZE == o / BSIZE + 1
    ensures left == Piece(o, left) ==> (o + left - 1) / BSIZE == o / BSIZE
  {
  }

  /** How many blocks hold some of the `n` bytes at `off`. */
  function Touched(off: nat, n: nat): (k: nat)
    ensures off + n <= MAXFILE * BSIZE ==> off / BSIZE + k <= MAXFILE
  {
    if n == 0 then 0 else (off + n - 1) / BSIZE - off / BSIZE + 1
  }

  /** The bytes at `off` that filewrite gets to write before writei refuses a chunk: all of them, or as
      many chunks as fit in the largest file. */
  function Writable(off: nat, size: nat, n: int): (m: nat)
    requires size <= MAXFILE * BSIZE
    ensures m > 0 ==> off + m <= MAXFILE * BSIZE && m <= n
  {
    if n <= 0 || off > size then 0
    else if off + n <= MAXFILE * BSIZE then n
    else (MAXFILE * BSIZE - off) / CHUNK * CHUNK
  }

  /** There are too few free blocks for those. */
  ghost predicate TooFew(a: State, off: nat, m: nat)
    requires Sized(a) && (m > 0 ==> off + m <= MAXFILE * BSIZE)
  {
    m > 0 && Lacking(a, off / BSIZE, Touched(off, m)) > |a.free|
  }

  class File {
    const bmapstart: nat
    const inodeBlock: nat
    var addrs: seq<nat>
    var ind: seq<nat>   // the words of the indirect block
    var size: nat
    var off: nat        // f->off of the open file
    var free: seq<Blockno>      // the blocks balloc will find, in order
    ghost var logged: set<nat>  // blocks passed to log_write in this transaction

    ghost function Now(): State
      reads this`addrs, this`ind, this`free, this`logged
    {
      State(addrs, ind, free, logged)
    }

    ghost predicate Valid()
      reads this`addrs, this`ind, this`size
    {
      && |addrs| == NDIRECT + 1 && |ind| == NINDIRECT && size <= MAXFILE * BSIZE
      && (addrs[NDIRECT] == 0 ==> forall i :: 0 <= i < NINDIRECT ==> ind[i] == 0)
    }

    ghost predicate NoHoles()
      requires Valid()
      reads this`addrs, this`ind, this`size
    {
      forall k :: 0 <= k < BlocksOf(size) ==> Entry(addrs, ind, k) != 0
    }

    constructor (bmapstart: nat, inodeBlock: nat, free: seq<Blockno>)
      ensures Valid() && NoHoles() && size == off == 0 && logged == {} && this.free == free
    {
      this.bmapstart, this.inodeBlock, this.free := bmapstart, inodeBlock, free;
      addrs, ind := seq(NDIRECT + 1, _ => 0), seq(NINDIRECT, _ => 0);
      size, off, logged := 0, 0, {};
    }

    /** balloc hands out any free block, wherever in the free map its bit is; None is the panic
        "out of blocks". */
    method Balloc() returns (r: Option<Blockno>)
      modifies this`logged, this`free
      ensures r.None? <==> old(free) == []
      ensures r.None? ==> logged == old(logged) && free == []
      ensures r.Some? ==> [r.value] + free == old(free)
      ensures r.Some? ==> logged == old(logged) + {MapBlock(bmapstart, r.value), r.value}
    {
      if free == [] {
        return None;
      }
      var b := free[0];
      free := free[1..];
      logged := logged + {b / BPB + bmapstart};
      logged := logged + {b};
      return Some(b);
    }

    /** `if((addr = ip->addrs[slot]) == 0) ip->addrs[slot] = addr = balloc(ip->dev)`; a fresh
        indirect block is zero. */
    method EnsureSlot(slot: nat) returns (r: Option<nat>, ghost maps: seq<nat>)
      requires Valid() && slot <= NDIRECT
      modifies this`addrs, this`ind, this`logged, this`free
      ensures Valid() && addrs == old(addrs)[slot := addrs[slot]] && ind == old(ind)
      ensures r.None? <==> WithSlot(bmapstart, old(Now()), slot).None?
      ensures r.Some? ==> Some(Now()) == WithSlot(bmapstart, old(Now()), slot)
      ensures r.Some? ==> r.value == addrs[slot] != 0
      ensures r.None? ==> addrs == old(addrs)
      ensures old(addrs[slot]) != 0 ==> addrs == old(addrs) && logged == old(logged) && maps == []
      ensures Adds(old(logged), logged, maps, addrs[slot], false, 0) && |maps| <= 1
    {
      maps := [];
      var addr := addrs[slot];
      if addr == 0 {
        var got := Balloc();
        if got.None? {
          return None, maps;
        }
        addr, maps := got.value, [MapBlock(bmapstart, got.value)];
        addrs := addrs[slot := addr];
        if slot == NDIRECT {
          ind := seq(NINDIRECT, _ => 0);
          assert ind == old(ind);
        }
      }
      return Some(addr), maps;
    }

    /** `if((addr = a[i]) == 0){ a[i] = addr = balloc(ip->dev); log_write(bp); }` */
    method EnsureEntry(i: nat) returns (r: Option<nat>, ghost maps: seq<nat>)
      requires Valid() && i < NINDIRECT && addrs[NDIRECT] != 0
      modifies this`ind, this`logged, this`free
      ensures Valid() && ind == old(ind)[i := ind[i]]
      ensures r.None? <==> WithEntry(bmapstart, old(Now()), i).None?
      ensures r.Some? ==> Some(Now()) == WithEntry(bmapstart, old(Now()), i)
      ensures r.Some? ==> r.value == ind[i] != 0
      ensures old(ind[i]) != 0 ==> logged == old(logged) && maps == [] && ind == old(ind)
      ensures Adds(old(logged), logged, maps, ind[i], true, addrs[NDIRECT]) && |maps| <= 1
    {
      maps := [];
      var a := ind[i];
      if a == 0 {
        var got := Balloc();
        if got.None? {
          return None, maps;
        }
        a, maps := got.value, [MapBlock(bmapstart, got.value)];
        ind := ind[i := a];
        logged := logged + {addrs[NDIRECT]};
        assert logged == old(logged) + {MapBlock(bmapstart, a), a, addrs[NDIRECT]};
      }
      return Some(a), maps;
    }

    /** Besides the block it returns and the indirect block, bmap logs only free-map blocks: one if
        the block was missing and one more if the indirect block was. */
    method Bmap(bn: nat) returns (r: Option<nat>, ghost maps: seq<nat>)
      requires Valid() && bn < MAXFILE
      modifies this`addrs, this`ind, this`logged, this`free
      ensures Valid()
      ensures r.None? <==> WithBlock(bmapstart, old(Now()), bn).None?
      ensures r.Some? ==> Some(Now()) == WithBlock(bmapstart, old(Now()), bn)
      ensures r.Some? ==> r.value == Entry(addrs, ind, bn) != 0 && (bn >= NDIRECT ==> addrs[NDIRECT] != 0)
      ensures r.Some? ==> r.value == if bn < 12 then addrs[bn] else ind[bn - 12]
      ensures forall k :: 0 <= k < MAXFILE && k != bn ==> Entry(addrs, ind, k) == old(Entry(addrs, ind, k))
      ensures old(Entry(addrs, ind, bn)) != 0 ==>
        addrs == old(addrs) && ind == old(ind) && logged == old(logged) && maps == []
      ensures addrs[NDIRECT] != old(addrs[NDIRECT]) ==> bn >= NDIRECT && old(addrs[NDIRECT]) == 0
      ensures Adds(old(logged), logged, maps, Entry(addrs, ind, bn), bn >= NDIRECT, addrs[NDIRECT])
      ensures |maps| <= if addrs[NDIRECT] == old(addrs[NDIRECT]) then 1 else 2
    {
      if bn < NDIRECT {
        r, maps := EnsureSlot(bn);
        return;
      }
      r, maps := EnsureSlot(NDIRECT);
      if r.None? {
        return;
      }
      ghost var more: seq<nat>;
      r, more := EnsureEntry(bn - NDIRECT);
      maps := maps + more;
    }

    /** bmap and log_write of the data block for the byte at `o`. */
    method PutBlock(o: nat, left: nat) returns (ok: bool, ghost maps: seq<nat>)
      requires Valid() && left > 0 && o + left <= MAXFILE * BSIZE
      modifies this`addrs, this`ind, this`logged, this`free
      ensures Valid()
      ensures ok ==>
        WithData(bmapstart, Now(), o + Piece(o, left), left - Piece(o, left)) ==
        WithData(bmapstart, old(Now()), o, left)
      ensures !ok ==> WithData(bmapstart, old(Now()), o, left).None?
      ensures ok ==> Entry(addrs, ind, o / BSIZE) != 0 && (o / BSIZE >= NDIRECT ==> addrs[NDIRECT] != 0)
      ensures forall k :: 0 <= k < MAXFILE && k != o / BSIZE ==> Entry(addrs, ind, k) == old(Entry(addrs, ind, k))
      ensures old(Entry(addrs, ind, o / BSIZE)) != 0 ==> addrs == old(addrs) && ind == old(ind) && maps == []
      ensures addrs[NDIRECT] != old(addrs[NDIRECT]) ==> o / BSIZE >= NDIRECT && old(addrs[NDIRECT]) == 0
      ensures Adds(old(logged), logged, maps, Entry(addrs, ind, o / BSIZE), o / BSIZE >= NDIRECT, addrs[NDIRECT])
      ensures |maps| <= if addrs[NDIRECT] == old(addrs[NDIRECT]) then 1 else 2
    {
      hide WithData, WithBlock, Entry;
      ghost var a := Now();
      var b: Option<nat>;
      b, maps := Bmap(o / BSIZE);
      ok := b.Some?;
      if !ok {
        NoData(bmapstart, a, o, left);
        return;
      }
      ghost var t := Now();
      logged := logged + {b.value};
      DataRound(bmapstart, a, o, left, t, Now());
    }

    /** Where writei's loop is after `it` rounds and `tot` bytes; `indb` is the indirect block the
        transaction began with, and `used` says that it or a new one is logged. */
    ghost predicate Going(off: nat, n: nat, tot: nat, it: nat, used: bool, indb: nat)
      reads this
    {
      && Valid() && off <= size && off + n <= MAXFILE * BSIZE
      && Reached(off, n, tot, it) && Filled(addrs, ind, size, off / BSIZE, it)
      && Tally(logged, addrs[NDIRECT], used, addrs[NDIRECT] != indb, it, off % BSIZE != 0)
      && (addrs[NDIRECT] != indb ==> indb == 0) && (used ==> addrs[NDIRECT] != 0)
    }

    /** One round of writei's loop: bmap, then log_write of the data block. */
    method WriteBlock(off: nat, n: nat, tot: nat, ghost it: nat, ghost used: bool, ghost indb: nat)
      returns (ok: bool, m: nat, ghost used': bool)
      requires tot < n && Going(off, n, tot, it, used, indb)
      modifies this`addrs, this`ind, this`logged, this`free
      ensures ok ==> 0 < m <= n - tot && Going(off, n, tot + m, it + 1, used', indb)
      ensures ok ==>
        WithData(bmapstart, Now(), off + tot + m, n - tot - m) == WithData(bmapstart, old(Now()), off + tot, n - tot)
      ensures !ok ==> WithData(bmapstart, old(Now()), off + tot, n - tot).None?
      ensures !ok ==> Valid() && NoHoles() && (n <= CHUNK ==> |logged| <= MAXOPBLOCKS)
    {
      hide Tally, Filled, Reached, BlocksOf, Entry, WithData, Adds;
      var o := off + tot;
      m := if n - tot < BSIZE - o % BSIZE then n - tot else BSIZE - o % BSIZE;
      Round(off, n, tot, it, m, size);
      ghost var bn, cut := off / BSIZE + it, off % BSIZE != 0;
      used' := used || bn >= NDIRECT;
      if it == 0 {
        FilledAt(addrs, ind, size, bn);
      }
      ghost var addrs0, ind0, logged0 := addrs, ind, logged;
      ghost var more: seq<nat>;
      ok, more := PutBlock(o, n - tot);
      FilledStep(addrs0, ind0, addrs, ind, size, off / BSIZE, it);
      TallyStep(logged0, addrs0[NDIRECT], used, addrs0[NDIRECT] != indb, it, cut,
                logged, more, Entry(addrs, ind, bn), addrs[NDIRECT], bn >= NDIRECT, addrs[NDIRECT] != indb);
      if !ok {
        Budget(off, n, tot + m, it + 1, logged, addrs[NDIRECT], used', addrs[NDIRECT] != indb, cut);
        FilledSome(addrs, ind, size, off / BSIZE, it);
      }
    }

    /** A transaction's worth of writei logs at most MAXOPBLOCKS blocks: four of data, the indirect
        block, the inode's, and one of the free map for every block allocated. */
    method Writei(off: nat, n: nat) returns (r: Wrote)
      requires Valid() && NoHoles() && logged == {}
      modifies this`addrs, this`ind, this`size, this`logged, this`free
      ensures Valid() && NoHoles()
      ensures n <= CHUNK ==> |logged| <= MAXOPBLOCKS
      ensures r.Refused? <==> off > old(size) || off + n > MAXFILE * BSIZE
      ensures r.Panicked? <==> !r.Refused? && WithData(bmapstart, old(Now()), off, n).None?
      ensures r.Bytes? ==> Grown(old(Now()), old(size), Now(), bmapstart, inodeBlock, off, n)
      ensures r.Bytes? ==> r.n == n && size == Max(old(size), off + n)
      ensures !r.Bytes? ==> size == old(size)
      ensures r.Refused? ==> logged == {}
    {
      hide WithData, BlocksOf, Entry;
      if off > size || off + n > MAXFILE * BSIZE {
        return Refused;
      }
      var ok := WriteData(off, n);
      if !ok {
        return Panicked;
      }
      if n > 0 && off + n > size {
        size := off + n;
        logged := logged + {inodeBlock};
      }
      return Bytes(n);
    }

    /** writei's loop. */
    method WriteData(off: nat, n: nat) returns (ok: bool)
      requires Valid() && NoHoles() && logged == {} && off <= size && off + n <= MAXFILE * BSIZE
      modifies this`addrs, this`ind, this`logged, this`free
      ensures Valid()
      ensures ok <==> WithData(bmapstart, old(Now()), off, n).Some?
      ensures ok ==> Some(Now()) == WithData(bmapstart, old(Now()), off, n)
      ensures ok ==> forall k :: 0 <= k < BlocksOf(Max(size, off + n)) ==> Entry(addrs, ind, k) != 0
      ensures !ok ==> NoHoles()
      ensures n <= CHUNK ==> |logged| <= if ok then MAXOPBLOCKS - 1 else MAXOPBLOCKS
    {
      hide Tally, Filled, Entry, BlocksOf, Reached, WithData;
      ghost var it, used, indb := 0, false, addrs[NDIRECT];
      Unmoved(off, n);
      FilledStart(addrs, ind, size, off / BSIZE);
      TallyStart(indb, off % BSIZE != 0);
      var tot := 0;
      while tot < n
        invariant 0 <= tot <= n && 0 <= it && Going(off, n, tot, it, used, indb)
        invariant WithData(bmapstart, Now(), off + tot, n - tot) == WithData(bmapstart, old(Now()), off, n)
        decreases n - tot
      {
        hide Valid, NoHoles, Going;
        var m: nat;
        ok, m, used := WriteBlock(off, n, tot, it, used, indb);
        if !ok {
          return false;
        }
        tot, it := tot + m, it + 1;
      }
      NoMoreData(bmapstart, Now(), off + tot);
      Rounds(off, n, tot, it);
      Budget(off, n, tot, it, logged, addrs[NDIRECT], used, addrs[NDIRECT] != indb, off % BSIZE != 0);
      FilledEnd(addrs, ind, size, off, n, it);
      return true;
    }

    /** One transaction of filewrite. */
    method WriteChunk(n1: nat, ghost n: int, ghost i: nat, ghost a: State, ghost off0: nat, ghost size0: nat)
      returns (r: Wrote)
      requires Valid() && NoHoles() && Chunked(a, Now(), off0, size0, n, i) && i < n && i % CHUNK == 0
      requires n1 == (if n - i > CHUNK then CHUNK else n - i)
      requires off == off0 + i && size == if i == 0 then size0 else Max(size0, off)
      modifies this
      ensures Valid() && NoHoles() && |logged| <= MAXOPBLOCKS
      ensures r.Panicked? ==> TooFew(a, off0, Writable(off0, size0, n))
      ensures r.Refused? ==> !TooFew(a, off0, Writable(off0, size0, n)) && i == Writable(off0, size0, n)
      ensures r.Refused? ==> off0 > size0 || off0 + n > MAXFILE * BSIZE
      ensures !r.Bytes? ==> off == old(off)
      ensures r.Bytes? ==> r.n == n1 && off == old(off) + n1 && size == Max(size0, off)
      ensures r.Bytes? ==> Chunked(a, Now(), off0, size0, n, i + n1)
    {
      hide NoHoles, WithData, Grown, BlocksOf, Entry, TooFew, Writable, Chunked;
      ghost var t0, size1 := Now(), size;
      logged := {};
      ghost var t := Now();
      r := Writei(off, n1);
      NextChunk(bmapstart, inodeBlock, a, t0, t, Now(), off0, size0, n, i, n1, size1, r);
      if r.Bytes? && r.n > 0 {
        off := off + r.n;
      }
    }

    /** filewrite on an inode: `ops` are the blocks each of its transactions logs. Writei never
        comes back short, so the panic "short filewrite" cannot happen. */
    method Filewrite(n: int) returns (r: Wrote, ghost ops: seq<set<nat>>)
      requires Valid() && NoHoles()
      modifies this
      ensures Valid() && NoHoles()
      ensures forall k :: 0 <= k < |ops| ==> |ops[k]| <= MAXOPBLOCKS
      ensures r.Panicked? <==> TooFew(old(Now()), old(off), Writable(old(off), old(size), n))
      ensures r.Refused? <==>
        !r.Panicked? && (n < 0 || (n > 0 && (old(off) > old(size) || old(off) + n > MAXFILE * BSIZE)))
      ensures r.Bytes? ==> r.n == n && off == old(off) + n && (n > 0 ==> size == Max(old(size), off))
      ensures r.Refused? ==> off == old(off) + Writable(old(off), old(size), n) && (off - old(off)) % CHUNK == 0
    {
      hide NoHoles, WithData, Grown, BlocksOf, Entry, TooFew, Writable, Chunked;
      ghost var a, off0, size0 := Now(), off, size;
      StartChunks(a, off, size, n);
      ops := [];
      var i := 0;
      while i < n
        invariant 0 <= i && (n < 0 ==> i == 0) && (n >= 0 ==> i <= n) && off == off0 + i && Valid() && NoHoles()
        invariant size == if i == 0 then size0 else Max(size0, off)
        invariant i < n ==> i % CHUNK == 0
        invariant Chunked(a, Now(), off0, size0, n, i)
        invariant forall k :: 0 <= k < |ops| ==> |ops[k]| <= MAXOPBLOCKS
        decreases n - i
      {
        var n1 := n - i;
        if n1 > CHUNK {
          n1 := CHUNK;
        }
        r := WriteChunk(n1, n, i, a, off0, size0);
        ops := ops + [logged];
        if !r.Bytes? {
          return;
        }
        assert r.n == n1;
        i := i + r.n;
      }
      LastChunk(a, Now(), off0, size0, n, i);
      if i != n {
        return Refused, ops;
      }
      r := Bytes(n);
    }
  }

  lemma {:induction false} NoMoreData(bmapstart: nat, a: State, o: nat)
    requires Sized(a) && o <= MAXFILE * BSIZE
    ensures WithData(bmapstart, a, o, 0) == Some(a)
  {
  }

  lemma {:induction false} DataRound(bmapstart: nat, a: State, o: nat, left: nat, t: State, u: State)
    requires Sized(a) && o + left <= MAXFILE * BSIZE && left > 0 && WithBlock(bmapstart, a, o / BSIZE) == Some(t)
    requires u == t.(logged := t.logged + {Entry(t.addrs, t.ind, o / BSIZE)})
    ensures WithData(bmapstart, a, o, left) == WithData(bmapstart, u, o + Piece(o, left), left - Piece(o, left))
  {
  }

  lemma {:induction false} NoData(bmapstart: nat, a: State, o: nat, left: nat)
    requires Sized(a) && o + left <= MAXFILE * BSIZE && left > 0 && WithBlock(bmapstart, a, o / BSIZE).None?
    ensures WithData(bmapstart, a, o, left).None?
  {
  }

  /** What a write that succeeds leaves: every block of it found or made, and the inode logged if the
      file has grown. */
  ghost predicate Grown(a: State, size: nat, a': State, bmapstart: nat, inodeBlock: nat, off: nat, n: nat)
    requires Sized(a) && off + n <= MAXFILE * BSIZE
  {
    var t := WithData(bmapstart, a, off, n);
    t.Some? && a' == if n > 0 && off + n > size then t.value.(logged := t.value.logged + {inodeBlock}) else t.value
  }

  // ---------------------------------------------------------------- with few blocks of free map

  /** The free map of every block balloc will find is among `maps`. */
  ghost predicate MapsIn(bmapstart: nat, free: seq<Blockno>, maps: set<nat>) {
    forall i :: 0 <= i < |free| ==> MapBlock(bmapstart, free[i]) in maps
  }

  /** All that is logged is among these: the old, the map blocks, the listed data blocks, the indirect
      block. */
  ghost predicate LoggedIn(logged: set<nat>, before: set<nat>, maps: set<nat>, data: seq<nat>, indb: nat) {
    forall x :: x in logged ==> x in before || x in maps || x in data || (x == indb && x != 0)
  }

  lemma {:induction false} BlockWithin(bmapstart: nat, a: State, bn: nat, maps: set<nat>)
    requires Sized(a) && bn < MAXFILE && MapsIn(bmapstart, a.free, maps) && WithBlock(bmapstart, a, bn).Some?
    ensures var t := WithBlock(bmapstart, a, bn).value;
      && MapsIn(bmapstart, t.free, maps) && (a.addrs[NDIRECT] != 0 ==> t.addrs[NDIRECT] == a.addrs[NDIRECT])
      && LoggedIn(t.logged, a.logged, maps, [Entry(t.addrs, t.ind, bn)], t.addrs[NDIRECT])
  {
  }

  lemma {:induction false} DataWithin(bmapstart: nat, a: State, o: nat, left: nat,
        maps: set<nat>) returns (data: seq<nat>)
    requires Sized(a) && o + left <= MAXFILE * BSIZE && MapsIn(bmapstart, a.free, maps)
    requires WithData(bmapstart, a, o, left).Some?
    ensures var t := WithData(bmapstart, a, o, left).value;
      && (a.addrs[NDIRECT] != 0 ==> t.addrs[NDIRECT] == a.addrs[NDIRECT])
      && LoggedIn(t.logged, a.logged, maps, data, t.addrs[NDIRECT])
    ensures |data| == Pieces(o, left)
    decreases left
  {
    hide WithBlock, MapsIn, Entry;
    if left == 0 {
      return [];
    }
    BlockWithin(bmapstart, a, o / BSIZE, maps);
    var b := WithBlock(bmapstart, a, o / BSIZE).value;
    var e := Entry(b.addrs, b.ind, o / BSIZE);
    var u := b.(logged := b.logged + {e});
    var rest := DataWithin(bmapstart, u, o + Piece(o, left), left - Piece(o, left), maps);
    data := [e] + rest;
  }

  /** How many blocks the loop goes through. */
  function Pieces(o: nat, left: nat): nat
    decreases left
  {
    if left == 0 then 0 else 1 + Pieces(o + Piece(o, left), left - Piece(o, left))
  }

  lemma {:induction false} FewPieces(o: nat, left: nat, k: nat)
    requires left <= k * BSIZE + if o % BSIZE == 0 then 0 else BSIZE - o % BSIZE
    ensures Pieces(o, left) <= k + if o % BSIZE == 0 then 0 else 1
    decreases left
  {
    if left > 0 {
      var m := Piece(o, left);
      if left > m {
        assert (o + m) % BSIZE == 0;
        FewPieces(o + m, left - m, if o % BSIZE == 0 then k - 1 else k);
      }
    }
  }

  /** With `m` blocks of free map in play, a transaction logs at most 6 + m: four of data, the indirect
      block and the inode's. */
  lemma {:induction false} BudgetOfMaps(bmapstart: nat, inodeBlock: nat, a: State, size: nat, a': State,
        off: nat, n: nat, maps: set<nat>)
    requires Sized(a) && a.logged == {} && off + n <= MAXFILE * BSIZE && n <= CHUNK
    requires Grown(a, size, a', bmapstart, inodeBlock, off, n) && MapsIn(bmapstart, a.free, maps)
    ensures |a'.logged| <= 6 + |maps|
  {
    hide WithData, Pieces;
    var data := DataWithin(bmapstart, a, off, n, maps);
    FewPieces(off, n, 3);
    var t := WithData(bmapstart, a, off, n).value;
    var others := data + [t.addrs[NDIRECT], inodeBlock];
    AtMost(a'.logged - maps, others);
    assert a'.logged <= (a'.logged - maps) + maps;
    CoverCount(a'.logged, a'.logged - maps, maps);
  }

  lemma {:induction false} CoverCount(a: set<nat>, b: set<nat>, c: set<nat>)
    requires a <= b + c
    ensures |a| <= |b| + |c|
  {
    assert |a| <= |b + c| by {
      assert b + c == a + ((b + c) - a);
    }
    assert b + c == b + (c - b) && |c - b| <= |c| by {
      assert c == (c - b) + (c * b);
    }
  }

  /** param.h */
  const FSSIZE := 1000

  /** On a disk of project1's size there is one block of free map, and a transaction logs at most seven. */
  lemma {:induction false} SevenBlocks(bmapstart: nat, inodeBlock: nat, a: State, size: nat, a': State, off: nat,
        n: nat)
    requires Sized(a) && a.logged == {} && off + n <= MAXFILE * BSIZE && n <= CHUNK
    requires Grown(a, size, a', bmapstart, inodeBlock, off, n)
    requires forall i :: 0 <= i < |a.free| ==> a.free[i] < FSSIZE
    ensures |a'.logged| <= 7
  {
    hide Grown;
    BudgetOfMaps(bmapstart, inodeBlock, a, size, a', off, n, {bmapstart});
  }

  // On a larger volume ten are reached.

  const TenOff := 11 * BSIZE + 100
  const TenSize := 11 * BSIZE + 200

  /** A file of twelve blocks, the last not full, and free blocks all over the free map. */
  function Twelve(): State {
    State(seq(NDIRECT, k => 100 + k) + [0], seq(NINDIRECT, _ => 0), [4096, 8192, 12288, 16384], {})
  }

  /** Ten is reached: a write of CHUNK bytes from the middle of the last direct block on takes that
      block, three new ones, a new indirect block, four map blocks and the inode's. */
  lemma {:induction false} TenBlocks(bmapstart: nat, inodeBlock: nat)
    requires 0 < inodeBlock < bmapstart < 90
    ensures forall k :: 0 <= k < BlocksOf(TenSize) ==> Entry(Twelve().addrs, Twelve().ind, k) != 0
    ensures WithData(bmapstart, Twelve(), TenOff, CHUNK).Some? && TenOff + CHUNK > TenSize
    ensures |WithData(bmapstart, Twelve(), TenOff, CHUNK).value.logged + {inodeBlock}| == MAXOPBLOCKS
  {
    hide WithData, WithSlot, WithEntry, Twelve;
    var a := Twelve();
    TwelveIs();
    var a1 := a.(logged := {111});
    FoundSlot(bmapstart, a, 11);
    DataRound(bmapstart, a, TenOff, CHUNK, a, a1);
    NewSlot(bmapstart, a1, NDIRECT);
    var b := State(a.addrs[NDIRECT := 4096], a.ind, [8192, 12288, 16384], {111, bmapstart + 1, 4096});
    assert WithSlot(bmapstart, a1, NDIRECT) == Some(b) by {
      assert a1.free[1..] == b.free && {111} + {bmapstart + 1, 4096} == b.logged;
    }
    SameSlot(bmapstart, a1, b, 12 * BSIZE, CHUNK - 412);
    ThreeBlocks(bmapstart, b);
    TenApart(bmapstart, inodeBlock);
  }

  lemma {:induction false} SameSlot(bmapstart: nat, a: State, b: State, o: nat, left: nat)
    requires Sized(a) && o + left <= MAXFILE * BSIZE && o / BSIZE >= NDIRECT && left > 0
    requires WithSlot(bmapstart, a, NDIRECT) == Some(b) && b.addrs[NDIRECT] != 0
    ensures WithData(bmapstart, a, o, left) == WithData(bmapstart, b, o, left)
  {
    hide WithEntry;
    FoundSlot(bmapstart, b, NDIRECT);
    hide WithSlot;
  }

  /** A round for a whole new block, when the indirect block is there and logged. */
  lemma {:induction false} NewRound(bmapstart: nat, a: State, k: nat, left: nat, t: State)
    requires Sized(a) && k < NINDIRECT && a.ind[k] == 0 && a.free != [] && a.addrs[NDIRECT] != 0
    requires a.addrs[NDIRECT] in a.logged
    requires left > 0 && (NDIRECT + k) * BSIZE + left <= MAXFILE * BSIZE
    requires var b := a.free[0];
      t == State(a.addrs, a.ind[k := b], a.free[1..], a.logged + {b / BPB + bmapstart, b})
    ensures WithData(bmapstart, a, (NDIRECT + k) * BSIZE, left) ==
      if left <= BSIZE then Some(t) else WithData(bmapstart, t, (NDIRECT + k + 1) * BSIZE, left - BSIZE)
  {
    hide WithSlot, WithEntry, WithData;
    var o := (NDIRECT + k) * BSIZE;
    assert o / BSIZE == NDIRECT + k && o % BSIZE == 0;
    FoundSlot(bmapstart, a, NDIRECT);
    NewEntry(bmapstart, a, k, t);
    assert t.logged + {a.free[0]} == t.logged;
    DataRound(bmapstart, a, o, left, t, t);
    if left <= BSIZE {
      NoMoreData(bmapstart, t, o + left);
    }
  }

  lemma {:induction false} ThreeBlocks(bmapstart: nat, a: State)
    requires Sized(a) && a.addrs[NDIRECT] == 4096 && (forall k :: 0 <= k < NINDIRECT ==> a.ind[k] == 0)
    requires a.free == [8192, 12288, 16384] && 4096 in a.logged
    ensures var r := WithData(bmapstart, a, 12 * BSIZE, CHUNK - 412);
      r.Some? && r.value.logged == a.logged + {bmapstart + 2, 8192, bmapstart + 3, 12288, bmapstart + 4, 16384}
  {
    hide WithData;
    var b := State(a.addrs, a.ind[0 := 8192], a.free[1..], a.logged + {bmapstart + 2, 8192});
    NewRound(bmapstart, a, 0, CHUNK - 412, b);
    var c := State(a.addrs, b.ind[1 := 12288], b.free[1..], b.logged + {bmapstart + 3, 12288});
    NewRound(bmapstart, b, 1, CHUNK - 412 - BSIZE, c);
    var d := State(a.addrs, c.ind[2 := 16384], c.free[1..], c.logged + {bmapstart + 4, 16384});
    NewRound(bmapstart, c, 2, 100, d);
  }

  lemma {:induction false} TenApart(bmapstart: nat, inodeBlock: nat)
    requires 0 < inodeBlock < bmapstart < 90
    ensures |{111, bmapstart + 1, 4096} + {bmapstart + 2, 8192, bmapstart + 3, 12288, bmapstart + 4,
      16384} + {inodeBlock}| == 10
  {
    var s := {111, bmapstart + 1, 4096} + {bmapstart + 2, 8192, bmapstart + 3, 12288, bmapstart + 4,
      16384} + {inodeBlock};
    assert s == {111, bmapstart + 1, 4096, bmapstart + 2, 8192, bmapstart + 3, 12288, bmapstart + 4, 16384, inodeBlock};
  }

  lemma {:induction false} TwelveIs()
    ensures Sized(Twelve()) && Twelve().addrs[11] == 111 && Twelve().addrs[NDIRECT] == 0
    ensures Twelve().free == [4096, 8192, 12288, 16384] && Twelve().logged == {}
    ensures forall k :: 0 <= k < NINDIRECT ==> Twelve().ind[k] == 0
    ensures forall k :: 0 <= k < BlocksOf(TenSize) ==> Entry(Twelve().addrs, Twelve().ind, k) != 0
  {
  }

  lemma {:induction false} FoundSlot(bmapstart: nat, a: State, slot: nat)
    requires Sized(a) && slot <= NDIRECT && a.addrs[slot] != 0
    ensures WithSlot(bmapstart, a, slot) == Some(a)
  {
  }

  lemma {:induction false} NewSlot(bmapstart: nat, a: State, slot: nat)
    requires Sized(a) && slot <= NDIRECT && a.addrs[slot] == 0 && a.free != []
    ensures var b := a.free[0];
      WithSlot(bmapstart, a, slot) == Some(State(a.addrs[slot := b], a.ind, a.free[1..],
        a.logged + {b / BPB + bmapstart, b}))
  {
  }

  lemma {:induction false} NewEntry(bmapstart: nat, a: State, i: nat, t: State)
    requires Sized(a) && i < NINDIRECT && a.ind[i] == 0 && a.free != []
    requires var b := a.free[0];
      t == State(a.addrs, a.ind[i := b], a.free[1..], a.logged + {b / BPB + bmapstart, b})
    requires a.addrs[NDIRECT] in a.logged
    ensures WithEntry(bmapstart, a, i) == Some(t)
  {
    assert t.logged == a.logged + {MapBlock(bmapstart, a.free[0]), a.free[0], a.addrs[NDIRECT]};
  }

  /** filewrite has `i` bytes behind it, which were writable and whose blocks are there. */
  ghost predicate Chunked(a: State, t: State, off: nat, size: nat, n: int, i: nat) {
    && size <= MAXFILE * BSIZE && Sized(a) && i <= Writable(off, size, n)
    && Sized(t) && (i == 0 ==> a.addrs == t.addrs && a.ind == t.ind && a.free == t.free)
    && (i > 0 ==> off <= size && off + i <= MAXFILE * BSIZE && Took(a, t, off / BSIZE, Touched(off, i)))
  }

  lemma {:induction false} StartChunks(a: State, off: nat, size: nat, n: int)
    requires Sized(a) && size <= MAXFILE * BSIZE
    ensures Chunked(a, a, off, size, n, 0)
  {
  }

  /** One chunk: refused exactly when all that is writable has been written, a panic only when there are too
      few blocks. */
  lemma {:induction false} NextChunk(bmapstart: nat, inodeBlock: nat, a: State, t0: State, t: State, t': State,
        off: nat, size: nat, n: int, i: nat, n1: nat, size1: nat, r: Wrote)
    requires Chunked(a, t0, off, size, n, i) && t == t0.(logged := t.logged) && i < n && i % CHUNK == 0
    requires n1 == (if n - i > CHUNK then CHUNK else n - i) && size1 == if i == 0 then size else Max(size, off + i)
    requires r.Refused? <==> off + i > size1 || off + i + n1 > MAXFILE * BSIZE
    requires r.Panicked? <==> !r.Refused? && WithData(bmapstart, t, off + i, n1).None?
    requires r.Bytes? ==> Grown(t, size1, t', bmapstart, inodeBlock, off + i, n1)
    ensures r.Panicked? ==> TooFew(a, off, Writable(off, size, n))
    ensures r.Refused? ==> !TooFew(a, off, Writable(off, size, n)) && i == Writable(off, size, n)
    ensures r.Refused? ==> off > size || off + n > MAXFILE * BSIZE
    ensures r.Bytes? ==> Chunked(a, t', off, size, n, i + n1)
  {
    hide WithData, Took, Touched, Lacking;
    if r.Refused? {
      RefusedAt(off, size, n, i, n1);
      if i > 0 {
        TookFits(a, t0, off / BSIZE, Touched(off, i));
      }
    } else {
      RoomInFile(off, size, n, i, n1);
      var first, k, all := off / BSIZE, Touched(off, i), Touched(off, Writable(off, size, n));
      NextBlocks(off, i, n1);
      if i == 0 {
        TookStart(a, t, first);
      } else {
        TookLogged(a, t0, t, first, k);
      }
      TookData(bmapstart, a, t, first, k, off + i, n1);
      TouchedGrows(off, i + n1, Writable(off, size, n));
      LackingGrows(a, first, Touched(off, i + n1), all);
      if r.Bytes? {
        TookLogged(a, WithData(bmapstart, t, off + i, n1).value, t', first, Touched(off, i + n1));
      }
    }
  }

  /** At the end all that is writable has been written. */
  lemma {:induction false} LastChunk(a: State, t: State, off: nat, size: nat, n: int, i: nat)
    requires Chunked(a, t, off, size, n, i) && (i == n || (n < 0 && i == 0))
    ensures i == Writable(off, size, n) && !TooFew(a, off, Writable(off, size, n))
    ensures n > 0 ==> off <= size && off + n <= MAXFILE * BSIZE
  {
    hide Took, Touched, Lacking;
    if i > 0 {
      TookFits(a, t, off / BSIZE, Touched(off, i));
    }
  }

  lemma {:induction false} TookFits(a: State, t: State, first: nat, k: nat)
    requires Took(a, t, first, k)
    ensures Lacking(a, first, k) <= |a.free|
  {
  }

  lemma {:induction false} TookStart(a: State, t: State, first: nat)
    requires Sized(a) && Sized(t) && a.addrs == t.addrs && a.ind == t.ind && a.free == t.free && first <= MAXFILE
    ensures Took(a, t, first, 0)
  {
  }

  lemma {:induction false} TookLogged(a: State, t: State, u: State, first: nat, k: nat)
    requires Took(a, t, first, k) && u == t.(logged := u.logged)
    ensures Took(a, u, first, k)
  {
  }

  lemma {:induction false} WholeChunks(i: nat, x: nat)
    requires i % CHUNK == 0
    ensures i <= x ==> i <= x / CHUNK * CHUNK
    ensures i + CHUNK <= x ==> i + CHUNK <= x / CHUNK * CHUNK
    ensures i <= x < i + CHUNK ==> i == x / CHUNK * CHUNK
  {
    assert CHUNK == 1536;
    var c, d := i / 1536, x / 1536;
    assert i == 1536 * c;
    assert 1536 * d <= x < 1536 * d + 1536;
  }

  lemma {:induction false} RefusedAt(off: nat, size: nat, n: int, i: nat, n1: nat)
    requires size <= MAXFILE * BSIZE && i <= Writable(off, size, n) && i < n && i % CHUNK == 0
    requires n1 == if n - i > CHUNK then CHUNK else n - i
    requires off + i > (if i == 0 then size else Max(size, off + i)) || off + i + n1 > MAXFILE * BSIZE
    ensures i == Writable(off, size, n) && (off > size || off + n > MAXFILE * BSIZE)
  {
    if off <= size && off + n > MAXFILE * BSIZE {
      WholeChunks(i, MAXFILE * BSIZE - off);
    }
  }

  lemma {:induction false} RoomInFile(off: nat, size: nat, n: int, i: nat, n1: nat)
    requires size <= MAXFILE * BSIZE && i <= Writable(off, size, n) && i < n && i % CHUNK == 0
    requires n1 == if n - i > CHUNK then CHUNK else n - i
    requires off + i <= (if i == 0 then size else Max(size, off + i)) && off + i + n1 <= MAXFILE * BSIZE
    ensures off <= size && i + n1 <= Writable(off, size, n)
  {
    if off <= size && off + n > MAXFILE * BSIZE {
      WholeChunks(i, MAXFILE * BSIZE - off);
    }
  }

  lemma {:induction false} NextBlocks(off: nat, i: nat, n1: nat)
    requires n1 > 0
    ensures i == 0 ==> Touched(off, i) == 0
    ensures var first, k := off / BSIZE, Touched(off, i);
      && ((off + i) / BSIZE == first + k || (k > 0 && (off + i) / BSIZE == first + k - 1))
      && (off + i + n1 - 1) / BSIZE + 1 - first == Touched(off, i + n1)
  {
  }

  lemma {:induction false} TouchedGrows(off: nat, i: nat, m: nat)
    requires i <= m
    ensures Touched(off, i) <= Touched(off, m)
  {
  }

  lemma {:induction false} Budget(off: nat, n: nat, tot: nat, it: nat, logged: set<nat>, indb: nat, used: bool,
        anew: bool, cut: bool)
    requires Reached(off, n, tot, it) && tot <= n && cut == (off % BSIZE != 0)
    requires Tally(logged, indb, used, anew, it, cut)
    ensures n <= CHUNK ==> |logged| <= MAXOPBLOCKS - 1
  {
    Rounds(off, n, tot, it);
    TallyEnd(logged, indb, used, anew, it, cut);
  }

  lemma {:induction false} FilledStart(addrs: seq<nat>, ind: seq<nat>, size: nat, first: nat)
    requires |addrs| == NDIRECT + 1 && |ind| == NINDIRECT && size <= MAXFILE * BSIZE
    requires forall k :: 0 <= k < BlocksOf(size) ==> Entry(addrs, ind, k) != 0
    ensures Filled(addrs, ind, size, first, 0)
  {
  }

  lemma {:induction false} TallyStart(indb: nat, cut: bool)
    ensures Tally({}, indb, false, false, 0, cut)
  {
    assert Lists([], {}, indb, false);
  }

  lemma {:induction false} FilledAt(addrs: seq<nat>, ind: seq<nat>, size: nat, k: nat)
    requires Filled(addrs, ind, size, k, 0)
    ensures k < BlocksOf(size) && k < MAXFILE ==> Entry(addrs, ind, k) != 0
  {
  }

  lemma {:induction false} FilledSome(addrs: seq<nat>, ind: seq<nat>, size: nat, first: nat, it: nat)
    requires Filled(addrs, ind, size, first, it) && size <= MAXFILE * BSIZE
    ensures forall k :: 0 <= k < BlocksOf(size) ==> Entry(addrs, ind, k) != 0
  {
  }

  lemma {:induction false} FilledEnd(addrs: seq<nat>, ind: seq<nat>, size: nat, off: nat, n: nat, it: nat)
    requires Filled(addrs, ind, size, off / BSIZE, it) && off <= size <= MAXFILE * BSIZE && off + n <= MAXFILE * BSIZE
    requires n > 0 ==> off / BSIZE + it == BlocksOf(off + n)
    ensures forall k :: 0 <= k < BlocksOf(Max(size, off + n)) ==> Entry(addrs, ind, k) != 0
  {
  }
}
