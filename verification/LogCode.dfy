/** log.c as code over its global `log` struct. The functions of project1/log.c and
    project3/log.c are the same except for the end of an operation and `sync`. */
module LogCode {
  import opened Blocks
  import opened LogDisk

  // ---------------------------------------------------------------- decisions under log.lock

  /** begin_op lets the operation in (it goes to sleep otherwise). */
  predicate Admits(l: Layout, n: nat, outstanding: int, committing: bool) {
    !committing && n + (outstanding + 1) * l.maxop <= l.logsize
  }

  /** log_write passes its two panic guards. */
  predicate GuardsPass(l: Layout, n: nat, outstanding: int) {
    n < l.logsize && n < l.size - 1 && outstanding >= 1
  }

  /** The logged block numbers after log_write: a block already logged is absorbed. */
  function Absorb(blocks: seq<Uint>, b: Uint): seq<Uint> {
    if IndexOf(blocks, b) < |blocks| then blocks else blocks + [b]
  }

  /** The last end_op of project3 commits only when the next operation might not fit. */
  predicate MustSync(l: Layout, n: nat) {
    n + l.maxop > l.logsize
  }

  // ---------------------------------------------------------------- the log

  class Log {
    const l: Layout
    var disk: Disk       // what survives a crash
    var mem: Disk        // what bread returns
    var n: nat           // log.lh.n
    const block: array<Uint>  // log.lh.block
    var outstanding: int
    var committing: bool
    ghost var trace: seq<Write>  // every disk write so far

    ghost predicate Valid()
      reads this, block
    {
      && Fits(l, |disk|) && |mem| == |disk|
      && block.Length == l.logsize
      && n <= l.logsize
      && Loggable(l, |disk|, block[..n])
    }

    ghost function Blocks(): seq<Uint>
      reads this, block
      requires Valid()
    {
      block[..n]
    }

    constructor (l: Layout, disk: Disk)
      requires Fits(l, |disk|)
      ensures Valid() && fresh(block)
      ensures this.l == l && this.disk == disk && mem == disk && Blocks() == []
      ensures outstanding == 0 && !committing && trace == []
    {
      this.l, this.disk, mem, n := l, disk, disk, 0;
      block := new Uint[l.logsize];
      outstanding, committing, trace := 0, false, [];
    }

    /** Store `data` in the buffer of block `b` and write it through to disk (bwrite). */
    method Bwrite(b: Uint, data: Block)
      requires Valid() && b < |disk|
      modifies this`mem, this`disk, this`trace
      ensures Valid() && Blocks() == old(Blocks())
      ensures trace == old(trace) + [Write(b, data)]
      ensures mem == Put(old(mem), Write(b, data)) && disk == Put(old(disk), Write(b, data))
    {
      mem := mem[b := data];
      disk := disk[b := data];
      trace := trace + [Write(b, data)];
    }

    method InstallTrans()
      requires Valid()
      modifies this`mem, this`disk, this`trace
      ensures Valid() && Blocks() == old(Blocks())
      ensures trace == old(trace) + InstallWrites(l, old(mem), old(Blocks()))
      ensures mem == Replay(old(mem), InstallWrites(l, old(mem), old(Blocks())))
      ensures disk == Replay(old(disk), InstallWrites(l, old(mem), old(Blocks())))
    {
      hide Replay;
      ghost var ws := InstallWrites(l, mem, Blocks());
      ReplayNothing(mem);
      ReplayNothing(disk);
      var tail := 0;
      while tail < n
        invariant 0 <= tail <= n && Valid() && Blocks() == old(Blocks())
        invariant |ws| == n && |mem| == |old(mem)|
        invariant trace == old(trace) + ws[..tail]
        invariant mem == Replay(old(mem), ws[..tail])
        invariant disk == Replay(old(disk), ws[..tail])
      {
        ghost var slot := l.start + tail + 1;
        ReplayMiss(old(mem), ws[..tail], slot);
        ReplayOne(old(mem), ws, tail);
        ReplayOne(old(disk), ws, tail);
        Bwrite(block[tail], mem[l.start + tail + 1]);
        tail := tail + 1;
      }
      assert ws[..n] == ws;
    }

    method WriteLog()
      requires Valid()
      modifies this`mem, this`disk, this`trace
      ensures Valid() && Blocks() == old(Blocks())
      ensures trace == old(trace) + LogWrites(l, old(mem), old(Blocks()))
      ensures mem == Replay(old(mem), LogWrites(l, old(mem), old(Blocks())))
      ensures disk == Replay(old(disk), LogWrites(l, old(mem), old(Blocks())))
    {
      hide Replay;
      ghost var ws := LogWrites(l, mem, Blocks());
      ReplayNothing(mem);
      ReplayNothing(disk);
      var tail := 0;
      while tail < n
        invariant 0 <= tail <= n && Valid() && Blocks() == old(Blocks())
        invariant |ws| == n && |mem| == |old(mem)|
        invariant trace == old(trace) + ws[..tail]
        invariant mem == Replay(old(mem), ws[..tail])
        invariant disk == Replay(old(disk), ws[..tail])
      {
        ReplayMiss(old(mem), ws[..tail], block[tail]);
        ReplayOne(old(mem), ws, tail);
        ReplayOne(old(disk), ws, tail);
        Bwrite(l.start + tail + 1, mem[block[tail]]);
        tail := tail + 1;
      }
      assert ws[..n] == ws;
    }

    /** Load the header block into `lh`. */
    method ReadHead()
      requires Fits(l, |disk|) && |mem| == |disk| && block.Length == l.logsize
      requires Bootable(l, mem)
      modifies this`n, block
      ensures Valid() && Blocks() == Committed(l, mem)
    {
      ghost var blocks := Committed(l, mem);
      var lh := mem[l.start];
      n := Word(lh, 0);
      var i := 0;
      while i < n
        invariant 0 <= i <= n == |blocks|
        invariant block[..i] == blocks[..i]
      {
        block[i] := Word(lh, 1 + i);
        i := i + 1;
      }
    }

    /** Store `lh` in the header block. */
    method WriteHead()
      requires Valid()
      modifies this`mem, this`disk, this`trace
      ensures Valid() && Blocks() == old(Blocks())
      ensures trace == old(trace) + [HeadWrite(l, old(mem), old(Blocks()))]
      ensures mem == Put(old(mem), HeadWrite(l, old(mem), old(Blocks())))
      ensures disk == Put(old(disk), HeadWrite(l, old(mem), old(Blocks())))
    {
      hide PutHeader, SetWord, Loggable;
      ghost var blocks := Blocks();
      ghost var w := HeadWrite(l, mem, blocks);
      assert w.data == PutWords(mem[l.start], 0, [|blocks|] + blocks) by {
        HeaderIsWords(mem[l.start], blocks);
      }
      var hb := SetWord(mem[l.start], 0, n);
      PutOne(mem[l.start], n);
      var i := 0;
      while i < n
        invariant 0 <= i <= n == |blocks| && Valid() && blocks == Blocks()
        invariant mem == old(mem) && disk == old(disk) && trace == old(trace)
        invariant hb == PutWords(mem[l.start], 0, [|blocks|] + blocks[..i])
      {
        hb := SetWord(hb, i + 1, block[i]);
        PutMore(mem[l.start], [|blocks|] + blocks[..i], block[i]);
        assert [|blocks|] + blocks[..i] + [blocks[i]] == [|blocks|] + blocks[..i+1];
        i := i + 1;
      }
      assert blocks[..n] == blocks;
      assert Write(l.start, hb) == w;
      Bwrite(l.start, hb);
    }

    /** Write the log, the header, the home blocks, and an empty header, in that order. */
    method Commit()
      requires Valid()
      modifies this`mem, this`disk, this`trace, this`n
      ensures Valid() && Blocks() == []
      ensures trace == old(trace) + CommitWrites(l, old(mem), old(Blocks()))
      ensures mem == Replay(old(mem), CommitWrites(l, old(mem), old(Blocks())))
      ensures disk == Replay(old(disk), CommitWrites(l, old(mem), old(Blocks())))
    {
      hide CommitWrites, LogWrites, InstallWrites, HeadWrite, Replay, Put;
      ReplayNothing(mem);
      ReplayNothing(disk);
      if n == 0 {
        CommitNothing(l, mem);
      } else {
        ghost var t0, blocks := trace, Blocks();
        CommitInOrder(l, mem, blocks, mem);
        CommitInOrder(l, mem, blocks, disk);
        ghost var ws := LogWrites(l, mem, blocks);
        WriteLog();
        ghost var w := HeadWrite(l, mem, blocks);
        WriteHead();
        ghost var xs := InstallWrites(l, mem, blocks);
        InstallTrans();
        ghost var x := HeadWrite(l, mem, []);
        n := 0;
        WriteHead();
        Regroup(t0, ws, w, xs, x);
      }
    }

    method RecoverFromLog()
      requires Fits(l, |disk|) && |mem| == |disk| && block.Length == l.logsize
      requires Bootable(l, mem)
      modifies this`mem, this`disk, this`trace, this`n, block
      ensures Valid() && Blocks() == []
      ensures trace == old(trace) + RecoveryWrites(l, old(mem))
      ensures mem == Recover(l, old(mem))
      ensures disk == Replay(old(disk), RecoveryWrites(l, old(mem)))
    {
      hide RecoveryWrites, InstallWrites, HeadWrite, Replay, Put;
      ReadHead();
      RecoveryInOrder(l, mem, mem);
      RecoveryInOrder(l, mem, disk);
      InstallTrans();
      n := 0;
      WriteHead();
    }

    /** `data` is what the caller left in the buffer of block `b`; not `ok` is a panic. */
    method LogWrite(b: Uint, data: Block) returns (ok: bool)
      requires Valid() && b < |disk| && !InLog(l, b)
      modifies this`mem, this`n, block
      ensures Valid() && ok == GuardsPass(l, old(n), outstanding)
      ensures ok ==> Blocks() == Absorb(old(Blocks()), b) && mem == old(mem)[b := data]
      ensures !ok ==> Blocks() == old(Blocks()) && mem == old(mem)
    {
      if n >= l.logsize || n >= l.size - 1 {
        return false;
      }
      if outstanding < 1 {
        return false;
      }
      mem := mem[b := data];
      var i := 0;
      while i < n
        invariant 0 <= i <= n && Valid() && Blocks() == old(Blocks()) && n == old(n)
        invariant mem == old(mem)[b := data]
        invariant forall j :: 0 <= j < i ==> block[j] != b
      {
        if block[i] == b {
          break;
        }
        i := i + 1;
      }
      ghost var blocks := Blocks();
      assert i == IndexOf(blocks, b);
      block[i] := b;
      if i == n {
        n := n + 1;
        assert block[..n] == blocks + [b];
      } else {
        assert block[..n] == blocks;
      }
      return true;
    }

    /** One turn of begin_op's loop: the operation is let in, or goes to sleep. */
    method BeginOp() returns (admitted: bool)
      requires Valid()
      modifies this`outstanding
      ensures admitted == Admits(l, n, old(outstanding), committing)
      ensures outstanding == old(outstanding) + if admitted then 1 else 0
    {
      if committing {
        return false;
      } else if n + (outstanding + 1) * l.maxop > l.logsize {
        return false;
      } else {
        outstanding := outstanding + 1;
        return true;
      }
    }

    /** project1: the last operation to end commits. Not `ok` is the panic "log.committing". */
    method EndOp() returns (ok: bool)
      requires Valid()
      modifies this`mem, this`disk, this`trace, this`n, this`outstanding, this`committing
      ensures Valid() && outstanding == old(outstanding) - 1
      ensures ok == !old(committing)
      ensures ok && outstanding == 0 ==>
        && Blocks() == [] && !committing
        && trace == old(trace) + CommitWrites(l, old(mem), old(Blocks()))
        && mem == Replay(old(mem), CommitWrites(l, old(mem), old(Blocks())))
        && disk == Replay(old(disk), CommitWrites(l, old(mem), old(Blocks())))
      ensures !ok || outstanding != 0 ==>
        && Blocks() == old(Blocks()) && committing == old(committing)
        && trace == old(trace) && mem == old(mem) && disk == old(disk)
    {
      outstanding := outstanding - 1;
      if committing {
        return false;
      }
      if outstanding == 0 {
        committing := true;
        Commit();
        committing := false;
      }
      return true;
    }

    /** project3: sync commits at once and tells how many blocks that made durable. */
    method Sync() returns (made: nat)
      requires Valid()
      modifies this`mem, this`disk, this`trace, this`n, this`committing
      ensures Valid() && Blocks() == [] && !committing
      ensures made == |old(Blocks())|
      ensures trace == old(trace) + CommitWrites(l, old(mem), old(Blocks()))
      ensures mem == Replay(old(mem), CommitWrites(l, old(mem), old(Blocks())))
      ensures disk == Replay(old(disk), CommitWrites(l, old(mem), old(Blocks())))
    {
      made := n;
      committing := true;
      Commit();
      committing := false;
    }

    /** project3: the last operation to end commits only when the log is nearly full. */
    method EndOpDeferred() returns (ok: bool)
      requires Valid()
      modifies this`mem, this`disk, this`trace, this`n, this`outstanding, this`committing
      ensures Valid() && outstanding == old(outstanding) - 1
      ensures ok == !old(committing)
      ensures ok && outstanding <= 0 && MustSync(l, old(n)) ==>
        && Blocks() == [] && !committing
        && trace == old(trace) + CommitWrites(l, old(mem), old(Blocks()))
        && mem == Replay(old(mem), CommitWrites(l, old(mem), old(Blocks())))
        && disk == Replay(old(disk), CommitWrites(l, old(mem), old(Blocks())))
      ensures !ok || outstanding > 0 || !MustSync(l, old(n)) ==>
        && Blocks() == old(Blocks()) && committing == old(committing)
        && trace == old(trace) && mem == old(mem) && disk == old(disk)
    {
      var doCommit := false;
      outstanding := outstanding - 1;
      if committing {
        return false;
      }
      if outstanding > 0 {
      } else if n + l.maxop > l.logsize {
        doCommit := true;
      }
      if doCommit {
        var made := Sync();
      }
      return true;
    }
  }

  // ---------------------------------------------------------------- lemmas about the write orders

  /** The four phases of commit, each computed from the cache the one before leaves, make up
      `CommitWrites`. */
  lemma {:induction false} CommitInOrder(l: Layout, mem: Disk, blocks: seq<Uint>, d: Disk)
    requires Fits(l, |mem|) && Loggable(l, |mem|, blocks) && |d| == |mem| && blocks != []
    ensures var ws := LogWrites(l, mem, blocks);
      var mem1 := Replay(mem, ws);
      var w := HeadWrite(l, mem1, blocks);
      var mem2 := Put(mem1, w);
      var xs := InstallWrites(l, mem2, blocks);
      var mem3 := Replay(mem2, xs);
      var x := HeadWrite(l, mem3, []);
      && CommitWrites(l, mem, blocks) == ws + [w] + xs + [x]
      && Replay(d, CommitWrites(l, mem, blocks)) == Put(Replay(Put(Replay(d, ws), w), xs), x)
  {
    hide PutHeader;
    var n, ws := |blocks|, LogWrites(l, mem, blocks);
    var mem1 := Replay(mem, ws);
    ReplayMiss(mem, ws, l.start);
    var w := HeadWrite(l, mem1, blocks);
    var mem2 := Put(mem1, w);
    forall t | 0 <= t < n
      ensures mem2[l.start + t + 1] == mem[blocks[t]]
    {
      ReplayHit(mem, ws, t, l.start + t + 1);
    }
    var xs := InstallWrites(l, mem2, blocks);
    var mem3 := Replay(mem2, xs);
    ReplayMiss(mem2, xs, l.start);
    var x := HeadWrite(l, mem3, []);
    assert CommitWrites(l, mem, blocks) == ws + [w] + xs + [x];
    ReplayAppend(d, ws, w);
    ReplayConcat(d, ws + [w], xs);
    ReplayAppend(d, ws + [w] + xs, x);
  }

  lemma {:induction false} RecoveryInOrder(l: Layout, mem: Disk, d: Disk)
    requires Bootable(l, mem) && |d| == |mem|
    ensures var xs := InstallWrites(l, mem, Committed(l, mem));
      var x := HeadWrite(l, Replay(mem, xs), []);
      && RecoveryWrites(l, mem) == xs + [x]
      && Replay(d, RecoveryWrites(l, mem)) == Put(Replay(d, xs), x)
  {
    hide PutHeader;
    var xs := InstallWrites(l, mem, Committed(l, mem));
    ReplayMiss(mem, xs, l.start);
    ReplayAppend(d, xs, HeadWrite(l, Replay(mem, xs), []));
  }

  lemma {:induction false} HeaderIsWords(b: Block, blocks: seq<Uint>)
    requires |blocks| < WORDS
    ensures PutHeader(b, blocks) == PutWords(b, 0, [|blocks|] + blocks)
  {
  }

  lemma {:induction false} Regroup(t: seq<Write>, ws: seq<Write>, w: Write, xs: seq<Write>, x: Write)
    ensures t + ws + [w] + xs + [x] == t + (ws + [w] + xs + [x])
  {
  }

  lemma {:induction false} ReplayNothing(d: Disk)
    ensures Replay(d, []) == d
  {
  }

  lemma {:induction false} PutOne(b: Block, w: Uint)
    ensures SetWord(b, 0, w) == PutWords(b, 0, [w] + [])
  {
  }

  lemma {:induction false} PutMore(b: Block, ws: seq<Uint>, w: Uint)
    requires |ws| < WORDS
    ensures PutWords(b, 0, ws + [w]) == SetWord(PutWords(b, 0, ws), |ws|, w)
  {
  }
}
