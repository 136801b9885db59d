/** The on-disk side of the write-ahead log (log.c of project1 and project3): the layout,
    the order of a commit's disk writes, what recovery makes of any disk, and crash
    atomicity of both. */
module LogDisk {
  import opened Blocks

  /** `log.start`, `log.size` and the two limits of param.h, LOGSIZE and MAXOPBLOCKS. */
  datatype Layout = Layout(start: nat, size: nat, logsize: nat, maxop: nat)

  predicate InLog(l: Layout, b: nat) {
    l.start <= b < l.start + l.size
  }

  /** The log lies on the disk, and a header block can name a full log. */
  predicate Fits(l: Layout, nblocks: nat) {
    && 1 <= l.size
    && l.start + l.size <= nblocks <= UINT
    && l.logsize < WORDS
  }

  predicate Distinct<T(==)>(s: seq<T>) {
    forall i, j :: 0 <= i < j < |s| ==> s[i] != s[j]
  }

  /** Block numbers a transaction may hold: distinct, outside the log, not too many. */
  predicate Loggable(l: Layout, nblocks: nat, blocks: seq<nat>) {
    && |blocks| <= l.logsize
    && |blocks| < l.size
    && Distinct(blocks)
    && forall i :: 0 <= i < |blocks| ==> blocks[i] < nblocks && !InLog(l, blocks[i])
  }

  /** Where `b` stands in `blocks`, or `|blocks|`: the index at which log_write's loop stops. */
  function IndexOf(blocks: seq<nat>, b: nat): (i: nat)
    ensures i <= |blocks|
    ensures i < |blocks| ==> blocks[i] == b
    ensures forall j :: 0 <= j < i ==> blocks[j] != b
  {
    if blocks == [] then 0
    else
      var i := IndexOf(blocks[..|blocks|-1], b);
      if i < |blocks| - 1 || blocks[|blocks|-1] == b then i else |blocks|
  }

  // ---------------------------------------------------------------- the header block

  /** `lh->n` and the block numbers after it. */
  function HeaderOf(b: Block): seq<Uint>
    requires Word(b, 0) < WORDS
  {
    seq(Word(b, 0), i requires 0 <= i < Word(b, 0) => Word(b, 1 + i))
  }

  /** The header block after `write_head`: words past the last entry keep their old value. */
  function PutHeader(b: Block, blocks: seq<Uint>): Block
    requires |blocks| < WORDS
  {
    PutWords(b, 0, [|blocks|] + blocks)
  }

  /** What `write_head` stores is what `read_head` loads. */
  lemma {:induction false} HeaderRoundTrip(b: Block, blocks: seq<Uint>)
    requires |blocks| < WORDS
    ensures Word(PutHeader(b, blocks), 0) == |blocks|
    ensures forall i :: 0 <= i < |blocks| ==> Word(PutHeader(b, blocks), 1 + i) == blocks[i]
    ensures HeaderOf(PutHeader(b, blocks)) == blocks
  {
    hide PutWords, Word;
    var c := PutHeader(b, blocks);
    WordPutWords(b, 0, [|blocks|] + blocks, 0);
    forall i | 0 <= i < |blocks|
      ensures Word(c, 1 + i) == blocks[i]
    {
      WordPutWords(b, 0, [|blocks|] + blocks, 1 + i);
    }
  }

  // ---------------------------------------------------------------- disk writes

  datatype Write = Write(addr: nat, data: Block)

  function Put(d: Disk, w: Write): (r: Disk)
    ensures |r| == |d|
  {
    if w.addr < |d| then d[w.addr := w.data] else d
  }

  function Replay(d: Disk, ws: seq<Write>): (r: Disk)
    ensures |r| == |d|
  {
    if ws == [] then d else Put(Replay(d, ws[..|ws|-1]), ws[|ws|-1])
  }

  lemma {:induction false} ReplayOne(d: Disk, ws: seq<Write>, k: nat)
    requires k < |ws|
    ensures Replay(d, ws[..k+1]) == Put(Replay(d, ws[..k]), ws[k])
  {
    assert ws[..k+1][..k] == ws[..k];
  }

  lemma {:induction false} ReplayAppend(d: Disk, ws: seq<Write>, w: Write)
    ensures Replay(d, ws + [w]) == Put(Replay(d, ws), w)
  {
  }

  lemma {:induction false} ReplayConcat(d: Disk, ws: seq<Write>, xs: seq<Write>)
    ensures Replay(d, ws + xs) == Replay(Replay(d, ws), xs)
  {
    if xs == [] {
      assert ws + xs == ws;
    } else {
      ReplayConcat(d, ws, xs[..|xs|-1]);
      assert (ws + xs)[..|ws + xs| - 1] == ws + xs[..|xs|-1];
    }
  }

  /** A block no write names keeps its contents. */
  lemma {:induction false} ReplayMiss(d: Disk, ws: seq<Write>, b: nat)
    requires b < |d| && forall i :: 0 <= i < |ws| ==> ws[i].addr != b
    ensures Replay(d, ws)[b] == d[b]
  {
    if ws != [] {
      ReplayMiss(d, ws[..|ws|-1], b);
    }
  }

  /** A block holds what the last write naming it wrote. */
  lemma {:induction false} ReplayHit(d: Disk, ws: seq<Write>, i: nat, b: nat)
    requires b < |d| && i < |ws| && ws[i].addr == b
    requires forall j :: i < j < |ws| ==> ws[j].addr != b
    ensures Replay(d, ws)[b] == ws[i].data
  {
    if i < |ws| - 1 {
      ReplayHit(d, ws[..|ws|-1], i, b);
    }
  }

  /** Equal on every block outside the log. */
  predicate SameHome(l: Layout, d: Disk, e: Disk) {
    |d| == |e| && forall b :: 0 <= b < |d| && !InLog(l, b) ==> d[b] == e[b]
  }

  // One disk write of each kind, computed from the cached contents `mem`.

  /** write_log: cached block number `t` of the transaction goes to its log slot. */
  function LogCopy(l: Layout, mem: Disk, blocks: seq<Uint>, t: nat): Write
    requires t < |blocks| && blocks[t] < |mem|
  {
    Write(l.start + t + 1, mem[blocks[t]])
  }

  /** write_head */
  function HeadWrite(l: Layout, mem: Disk, blocks: seq<Uint>): Write
    requires l.start < |mem| && |blocks| < WORDS
  {
    Write(l.start, PutHeader(mem[l.start], blocks))
  }

  /** install_trans: log slot `t` goes to its home block. */
  function InstallCopy(l: Layout, mem: Disk, blocks: seq<Uint>, t: nat): Write
    requires t < |blocks| && l.start + t + 1 < |mem|
  {
    Write(blocks[t], mem[l.start + t + 1])
  }

  // ---------------------------------------------------------------- commit

  /** Write number `k` of `commit`, from what the cache holds just before it. */
  function NextCommitWrite(l: Layout, mem: Disk, blocks: seq<Uint>, k: nat): Write
    requires Fits(l, |mem|) && Loggable(l, |mem|, blocks)
    requires k < 2 * |blocks| + 2
  {
    var n := |blocks|;
    if k < n then LogCopy(l, mem, blocks, k)
    else if k == n then HeadWrite(l, mem, blocks)
    else if k < 2 * n + 1 then InstallCopy(l, mem, blocks, k - n - 1)
    else HeadWrite(l, mem, [])
  }

  /** All writes of `write_log` in order, in terms of the cache at its start. */
  function LogWrites(l: Layout, mem: Disk, blocks: seq<Uint>): (ws: seq<Write>)
    requires Fits(l, |mem|) && Loggable(l, |mem|, blocks)
  {
    seq(|blocks|, t requires 0 <= t < |blocks| => Write(l.start + t + 1, mem[blocks[t]]))
  }

  /** All writes of `install_trans` in order, in terms of the cache at its start. */
  function InstallWrites(l: Layout, mem: Disk, blocks: seq<Uint>): (ws: seq<Write>)
    requires Fits(l, |mem|) && Loggable(l, |mem|, blocks)
  {
    seq(|blocks|, t requires 0 <= t < |blocks| => Write(blocks[t], mem[l.start + t + 1]))
  }

  /** All disk writes of `commit` in order, in terms of the cache at its start. */
  function CommitWrites(l: Layout, mem: Disk, blocks: seq<Uint>): (ws: seq<Write>)
    requires Fits(l, |mem|) && Loggable(l, |mem|, blocks)
  {
    if blocks == [] then []
    else
      var head := PutHeader(mem[l.start], blocks);
      LogWrites(l, mem, blocks)
      + [Write(l.start, head)]
      + seq(|blocks|, t requires 0 <= t < |blocks| => Write(blocks[t], mem[blocks[t]]))
      + [Write(l.start, PutHeader(head, []))]
  }

  lemma {:induction false} CommitWriteAt(l: Layout, mem: Disk, blocks: seq<Uint>, k: nat)
    requires Fits(l, |mem|) && Loggable(l, |mem|, blocks) && blocks != []
    requires k < 2 * |blocks| + 2
    ensures |CommitWrites(l, mem, blocks)| == 2 * |blocks| + 2
    ensures var n := |blocks|;
      CommitWrites(l, mem, blocks)[k] ==
        if k < n then Write(l.start + k + 1, mem[blocks[k]])
        else if k == n then Write(l.start, PutHeader(mem[l.start], blocks))
        else if k < 2 * n + 1 then Write(blocks[k-n-1], mem[blocks[k-n-1]])
        else Write(l.start, PutHeader(PutHeader(mem[l.start], blocks), []))
  {
  }

  lemma {:induction false} CommitNothing(l: Layout, mem: Disk)
    requires Fits(l, |mem|)
    ensures CommitWrites(l, mem, []) == []
  {
  }

  // ---------------------------------------------------------------- recovery

  /** A disk the recovery code can be started on. */
  predicate Bootable(l: Layout, d: Disk) {
    && Fits(l, |d|)
    && Word(d[l.start], 0) < WORDS
    && Loggable(l, |d|, HeaderOf(d[l.start]))
  }

  function Committed(l: Layout, d: Disk): seq<Uint>
    requires Bootable(l, d)
  {
    HeaderOf(d[l.start])
  }

  /** Write number `k` of `recover_from_log`, from the current disk. */
  function NextRecoveryWrite(l: Layout, d: Disk, blocks: seq<Uint>, k: nat): Write
    requires Fits(l, |d|) && Loggable(l, |d|, blocks) && k <= |blocks|
  {
    if k < |blocks| then InstallCopy(l, d, blocks, k) else HeadWrite(l, d, [])
  }

  /** All disk writes of `recover_from_log` in order, in terms of the disk at its start. */
  function RecoveryWrites(l: Layout, d: Disk): (ws: seq<Write>)
    requires Bootable(l, d)
  {
    var blocks := Committed(l, d);
    InstallWrites(l, d, blocks)
    + [Write(l.start, PutHeader(d[l.start], []))]
  }

  /** The disk once `recover_from_log` has run to its end. */
  function Recover(l: Layout, d: Disk): (w: Disk)
    requires Bootable(l, d)
    ensures |w| == |d|
  {
    Replay(d, RecoveryWrites(l, d))
  }

  lemma {:induction false} RecoveryWriteAt(l: Layout, d: Disk, k: nat)
    requires Bootable(l, d) && k <= |Committed(l, d)|
    ensures |RecoveryWrites(l, d)| == |Committed(l, d)| + 1
    ensures RecoveryWrites(l, d)[k] ==
      if k < |Committed(l, d)| then Write(Committed(l, d)[k], d[l.start + k + 1])
      else Write(l.start, PutHeader(d[l.start], []))
  {
  }

  /** The disk after a recovery cut after `k` of its writes. */
  function CutRecovery(l: Layout, d: Disk, k: nat): (w: Disk)
    requires Bootable(l, d)
    ensures |w| == |d|
  {
    var ws := RecoveryWrites(l, d);
    Replay(d, if k <= |ws| then ws[..k] else ws)
  }

  lemma {:induction false} CutRecoveryHome(l: Layout, d: Disk, k: nat, b: nat)
    requires Bootable(l, d) && b < |d| && !InLog(l, b)
    ensures var i := IndexOf(Committed(l, d), b);
      CutRecovery(l, d, k)[b] == if i < |Committed(l, d)| && i < k then d[l.start + i + 1] else d[b]
  {
    hide RecoveryWrites, PutHeader, HeaderOf, Word;
    var ws, blocks := RecoveryWrites(l, d), Committed(l, d);
    var cut := if k <= |ws| then ws[..k] else ws;
    var i := IndexOf(blocks, b);
    RecoveryWriteAt(l, d, 0);
    forall j | 0 <= j < |ws| && j != i
      ensures ws[j].addr != b
    {
      RecoveryWriteAt(l, d, j);
    }
    if i < |blocks| {
      RecoveryWriteAt(l, d, i);
    }
    if i < |blocks| && i < k {
      ReplayHit(d, cut, i, b);
    } else {
      if i == |blocks| {
        RecoveryWriteAt(l, d, i);
      }
      ReplayMiss(d, cut, b);
    }
  }

  lemma {:induction false} CutRecoveryLog(l: Layout, d: Disk, k: nat, b: nat)
    requires Bootable(l, d) && InLog(l, b)
    ensures CutRecovery(l, d, k)[b] ==
      if b == l.start && k > |Committed(l, d)| then PutHeader(d[l.start], []) else d[b]
  {
    hide RecoveryWrites, PutHeader, HeaderOf, Word;
    var ws, blocks := RecoveryWrites(l, d), Committed(l, d);
    var cut := if k <= |ws| then ws[..k] else ws;
    RecoveryWriteAt(l, d, |blocks|);
    forall j | 0 <= j < |blocks|
      ensures ws[j].addr != b
    {
      RecoveryWriteAt(l, d, j);
    }
    if b == l.start && k > |blocks| {
      ReplayHit(d, cut, |blocks|, b);
    } else {
      ReplayMiss(d, cut, b);
    }
  }

  /** What recovery does: each block the header names gets its log copy, no other block
      outside the log changes, and the log is left empty. */
  lemma {:induction false} RecoverEffect(l: Layout, d: Disk, b: nat)
    requires Bootable(l, d) && b < |d| && !InLog(l, b)
    ensures var i := IndexOf(Committed(l, d), b);
      Recover(l, d)[b] == if i < |Committed(l, d)| then d[l.start + i + 1] else d[b]
    ensures Bootable(l, Recover(l, d)) && Committed(l, Recover(l, d)) == []
  {
    var n := |Committed(l, d)|;
    RecoveryWriteAt(l, d, 0);
    var ws := RecoveryWrites(l, d);
    assert ws[..n+1] == ws;
    assert Recover(l, d) == CutRecovery(l, d, n + 1);
    CutRecoveryHome(l, d, n + 1, b);
    CutRecoveryLog(l, d, n + 1, l.start);
    HeaderRoundTrip(d[l.start], []);
    hide RecoveryWrites, PutHeader, Recover, CutRecovery;
  }

  lemma {:induction false} RecoveryCutBoots(l: Layout, d: Disk, k: nat)
    requires Bootable(l, d)
    ensures Bootable(l, CutRecovery(l, d, k))
    ensures Committed(l, CutRecovery(l, d, k)) == if k <= |Committed(l, d)| then Committed(l, d) else []
  {
    CutRecoveryLog(l, d, k, l.start);
    HeaderRoundTrip(d[l.start], []);
    hide PutHeader, CutRecovery, HeaderOf;
  }

  lemma {:induction false} RecoveryCutBlock(l: Layout, d: Disk, k: nat, b: nat)
    requires Bootable(l, d) && b < |d| && !InLog(l, b)
    requires Bootable(l, CutRecovery(l, d, k))
    ensures Recover(l, CutRecovery(l, d, k))[b] == Recover(l, d)[b]
  {
    hide PutHeader, CutRecovery, Recover, HeaderOf, IndexOf;
    var w, n := CutRecovery(l, d, k), |Committed(l, d)|;
    var i := IndexOf(Committed(l, d), b);
    RecoveryCutBoots(l, d, k);
    RecoverEffect(l, d, b);
    RecoverEffect(l, w, b);
    CutRecoveryHome(l, d, k, b);
    if i < n {
      assert InLog(l, l.start + i + 1);
      CutRecoveryLog(l, d, k, l.start + i + 1);
    }
  }

  /** A recovery cut after any number of its disk writes can be started again, and loses nothing. */
  lemma {:induction false} RecoveryCutRecovers(l: Layout, d: Disk, k: nat)
    requires Bootable(l, d)
    ensures Bootable(l, CutRecovery(l, d, k))
    ensures SameHome(l, Recover(l, CutRecovery(l, d, k)), Recover(l, d))
  {
    RecoveryCutBoots(l, d, k);
    hide Recover, CutRecovery, Bootable;
    forall b | 0 <= b < |d| && !InLog(l, b)
      ensures Recover(l, CutRecovery(l, d, k))[b] == Recover(l, d)[b]
    {
      RecoveryCutBlock(l, d, k, b);
    }
  }

  /** The disk after a series of recoveries, the i-th cut after `cuts[i]` of its writes. */
  function AfterCuts(l: Layout, d: Disk, cuts: seq<nat>): Disk
    requires Bootable(l, d)
    decreases |cuts|
  {
    if cuts == [] then d
    else
      var w := CutRecovery(l, d, cuts[0]);
      if Bootable(l, w) then AfterCuts(l, w, cuts[1..]) else w
  }

  lemma {:induction false} SameHomeTransitive(l: Layout, d: Disk, e: Disk, f: Disk)
    requires SameHome(l, d, e) && SameHome(l, e, f)
    ensures SameHome(l, d, f)
  {
  }

  /** However often recovery itself is cut and restarted, nothing more is lost. */
  lemma {:induction false} AnyCutsRecover(l: Layout, d: Disk, cuts: seq<nat>)
    requires Bootable(l, d)
    ensures Bootable(l, AfterCuts(l, d, cuts))
    ensures SameHome(l, Recover(l, AfterCuts(l, d, cuts)), Recover(l, d))
    decreases |cuts|
  {
    hide Bootable, Recover, CutRecovery, SameHome;
    if cuts == [] {
      SameHomeReflexive(l, Recover(l, d));
    } else {
      var w := CutRecovery(l, d, cuts[0]);
      RecoveryCutRecovers(l, d, cuts[0]);
      AnyCutsRecover(l, w, cuts[1..]);
      SameHomeTransitive(l, Recover(l, AfterCuts(l, d, cuts)), Recover(l, w), Recover(l, d));
    }
  }

  lemma {:induction false} SameHomeReflexive(l: Layout, d: Disk)
    ensures SameHome(l, d, d)
  {
  }

  // ---------------------------------------------------------------- crash atomicity of commit

  /** The disk after a commit cut after `k` of its writes. */
  function CutCommit(l: Layout, d: Disk, mem: Disk, blocks: seq<Uint>, k: nat): (w: Disk)
    requires Fits(l, |mem|) && Loggable(l, |mem|, blocks)
    ensures |w| == |d|
  {
    var ws := CommitWrites(l, mem, blocks);
    Replay(d, if k <= |ws| then ws[..k] else ws)
  }

  lemma {:induction false} CutCommitHome(l: Layout, d: Disk, mem: Disk, blocks: seq<Uint>, k: nat, b: nat)
    requires Fits(l, |mem|) && Loggable(l, |mem|, blocks) && |d| == |mem| && b < |d| && !InLog(l, b)
    ensures var i, n := IndexOf(blocks, b), |blocks|;
      CutCommit(l, d, mem, blocks, k)[b] == if i < n && n + 1 + i < k then mem[b] else d[b]
  {
    hide CommitWrites, PutHeader;
    if blocks == [] {
      CommitNothing(l, mem);
    } else {
      var ws, i, n := CommitWrites(l, mem, blocks), IndexOf(blocks, b), |blocks|;
      var cut := if k <= |ws| then ws[..k] else ws;
      CommitWriteAt(l, mem, blocks, 0);
      forall j | 0 <= j < |ws| && j != n + 1 + i
        ensures ws[j].addr != b
      {
        CommitWriteAt(l, mem, blocks, j);
      }
      CommitWriteAt(l, mem, blocks, n + 1 + i);
      if i < n && n + 1 + i < k {
        ReplayHit(d, cut, n + 1 + i, b);
      } else {
        ReplayMiss(d, cut, b);
      }
    }
  }

  lemma {:induction false} CutCommitHead(l: Layout, d: Disk, mem: Disk, blocks: seq<Uint>, k: nat)
    requires Fits(l, |mem|) && Loggable(l, |mem|, blocks) && |d| == |mem| && blocks != []
    ensures var n, head := |blocks|, PutHeader(mem[l.start], blocks);
      CutCommit(l, d, mem, blocks, k)[l.start] ==
        if k <= n then d[l.start] else if k <= 2 * n + 1 then head else PutHeader(head, [])
  {
    var ws, n := CommitWrites(l, mem, blocks), |blocks|;
    var cut := if k <= |ws| then ws[..k] else ws;
    CommitWriteAt(l, mem, blocks, n);
    CommitWriteAt(l, mem, blocks, 2 * n + 1);
    forall j | 0 <= j < |ws| && j != n && j != 2 * n + 1
      ensures ws[j].addr != l.start
    {
      CommitWriteAt(l, mem, blocks, j);
    }
    hide CommitWrites, PutHeader;
    if k <= n {
      ReplayMiss(d, cut, l.start);
    } else if k <= 2 * n + 1 {
      ReplayHit(d, cut, n, l.start);
    } else {
      ReplayHit(d, cut, 2 * n + 1, l.start);
    }
  }

  lemma {:induction false} CutCommitSlot(l: Layout, d: Disk, mem: Disk, blocks: seq<Uint>, k: nat, t: nat)
    requires Fits(l, |mem|) && Loggable(l, |mem|, blocks) && |d| == |mem| && t < |blocks|
    ensures CutCommit(l, d, mem, blocks, k)[l.start + t + 1] == if t < k then mem[blocks[t]] else d[l.start + t + 1]
  {
    hide CommitWrites, PutHeader;
    var ws, b := CommitWrites(l, mem, blocks), l.start + t + 1;
    var cut := if k <= |ws| then ws[..k] else ws;
    CommitWriteAt(l, mem, blocks, t);
    forall j | 0 <= j < |ws| && j != t
      ensures ws[j].addr != b
    {
      CommitWriteAt(l, mem, blocks, j);
    }
    if t < k {
      ReplayHit(d, cut, t, b);
    } else {
      ReplayMiss(d, cut, b);
    }
  }

  /** A commit may start from disk `d` with cached contents `mem`: the log on disk is empty and
      the cache differs from the disk only on the logged blocks. */
  predicate Ready(l: Layout, d: Disk, mem: Disk, blocks: seq<Uint>) {
    && Bootable(l, d) && Committed(l, d) == []
    && |mem| == |d| && Loggable(l, |d|, blocks)
    && forall b :: 0 <= b < |d| && !InLog(l, b) && IndexOf(blocks, b) == |blocks| ==> mem[b] == d[b]
  }

  lemma {:induction false} CutCommitBoots(l: Layout, d: Disk, mem: Disk, blocks: seq<Uint>, k: nat)
    requires Ready(l, d, mem, blocks)
    ensures var w := CutCommit(l, d, mem, blocks, k);
      Bootable(l, w) && Committed(l, w) == if |blocks| < k <= 2 * |blocks| + 1 then blocks else []
  {
    if blocks != [] {
      CutCommitHead(l, d, mem, blocks, k);
      HeaderRoundTrip(mem[l.start], blocks);
      HeaderRoundTrip(PutHeader(mem[l.start], blocks), []);
    }
    hide CutCommit, HeaderOf, PutHeader;
  }

  lemma {:induction false} CommitCutBlock(l: Layout, d: Disk, mem: Disk, blocks: seq<Uint>, k: nat, b: nat)
    requires Ready(l, d, mem, blocks) && Bootable(l, CutCommit(l, d, mem, blocks, k))
    requires b < |d| && !InLog(l, b)
    ensures Recover(l, CutCommit(l, d, mem, blocks, k))[b] == if k <= |blocks| then d[b] else mem[b]
  {
    hide CutCommit, Recover, HeaderOf, PutHeader, IndexOf;
    var w, i := CutCommit(l, d, mem, blocks, k), IndexOf(blocks, b);
    CutCommitBoots(l, d, mem, blocks, k);
    RecoverEffect(l, w, b);
    CutCommitHome(l, d, mem, blocks, k, b);
    if i < |blocks| {
      CutCommitSlot(l, d, mem, blocks, k, i);
    } else {
      assert mem[b] == d[b];
    }
  }

  /** A commit cut after any `k` of its disk writes: recovery brings every home block back to
      its old contents if the header had not been written, and to its new contents if it had. */
  lemma {:induction false} CommitCutRecovers(l: Layout, d: Disk, mem: Disk, blocks: seq<Uint>, k: nat)
    requires Ready(l, d, mem, blocks)
    ensures var w := CutCommit(l, d, mem, blocks, k);
      Bootable(l, w) && SameHome(l, Recover(l, w), if k <= |blocks| then d else mem)
  {
    CutCommitBoots(l, d, mem, blocks, k);
    hide CutCommit, Recover, Bootable, Ready;
    forall b | 0 <= b < |d| && !InLog(l, b)
      ensures Recover(l, CutCommit(l, d, mem, blocks, k))[b] == if k <= |blocks| then d[b] else mem[b]
    {
      CommitCutBlock(l, d, mem, blocks, k, b);
    }
  }

  /** Crash atomicity of `commit`: cut at any write, then recovered with any number of cuts. */
  lemma {:induction false} CommitIsAtomic(l: Layout, d: Disk, mem: Disk, blocks: seq<Uint>, k: nat, cuts: seq<nat>)
    requires Ready(l, d, mem, blocks)
    ensures var w := CutCommit(l, d, mem, blocks, k);
      && Bootable(l, w)
      && Bootable(l, AfterCuts(l, w, cuts))
      && SameHome(l, Recover(l, AfterCuts(l, w, cuts)), if k <= |blocks| then d else mem)
  {
    var w := CutCommit(l, d, mem, blocks, k);
    CommitCutRecovers(l, d, mem, blocks, k);
    AnyCutsRecover(l, w, cuts);
    SameHomeTransitive(l, Recover(l, AfterCuts(l, w, cuts)), Recover(l, w), if k <= |blocks| then d else mem);
  }
}
