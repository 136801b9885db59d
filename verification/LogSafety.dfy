/** Crash safety of group commit over whole runs: whenever the machine stops, recovery yields the
    disk after a whole number of finished operations, and nothing once durable is ever lost. */
module LogSafety {
  import opened Blocks
  import opened LogDisk
  import opened LogCode
  import opened LogProtocol
  import opened LogProcs

  function WritesOf(events: seq<Event>): seq<Write> {
    seq(|events|, i requires 0 <= i < |events| => events[i].w)
  }

  /** The disk `d` after the logged writes of `events`, with no log and no cache. */
  function Effect(d: Disk, events: seq<Event>): (r: Disk)
    ensures |r| == |d|
  {
    Replay(d, WritesOf(events))
  }

  lemma {:induction false} EffectAppend(d: Disk, events: seq<Event>, e: Event)
    ensures Effect(d, events + [e]) == Put(Effect(d, events), e.w)
  {
    assert WritesOf(events + [e]) == WritesOf(events) + [e.w];
    ReplayAppend(d, WritesOf(events), e.w);
  }

  // ---------------------------------------------------------------- the history of operations

  ghost predicate InFlight(s: Sys, op: nat) {
    exists p :: 0 <= p < |s.procs| && s.procs[p].InOp? && s.procs[p].op == op
  }

  /** The safe part of the history is made of whole, finished operations. */
  ghost predicate WholeOps(s: Sys) {
    && s.durable <= |s.history|
    && (forall i :: 0 <= i < s.durable ==> s.history[i].op in s.ended)
    && (forall i, j :: 0 <= i < s.durable <= j < |s.history| ==> s.history[i].op != s.history[j].op)
  }

  ghost predicate HistoryOk(s: Sys) {
    && WholeOps(s)
    && (forall p :: 0 <= p < |s.procs| && s.procs[p].InOp? ==> s.procs[p].op < s.nextop && s.procs[p].op !in s.ended)
    && (forall p, q :: 0 <= p < q < |s.procs| && s.procs[p].InOp? && s.procs[q].InOp? ==>
          s.procs[p].op != s.procs[q].op)
    && (forall op :: op in s.ended ==> op < s.nextop)
    && (s.mode.Up? ==> forall i :: 0 <= i < |s.history| ==> s.history[i].op in s.ended || InFlight(s, s.history[i].op))
  }

  lemma {:induction false} WholeOpsKept(l: Layout, v: Variant, s: Sys, a: Action)
    requires Shaped(l, s) && ProcsOk(l, v, s) && HistoryOk(s) && Enabled(l, v, s, a)
    ensures WholeOps(Next(l, v, s, a))
  {
    hide NextCommitWrite, NextRecoveryWrite, Absorb, Put, Loggable;
    if a.CommitStep? && s.blocks != [] && s.procs[a.p].k == |s.blocks| {
      forall i | 0 <= i < |s.history|
        ensures s.history[i].op in s.ended
      {
        if s.history[i].op !in s.ended {
          var q :| 0 <= q < |s.procs| && s.procs[q].InOp? && s.procs[q].op == s.history[i].op;
          SomebodyRuns(s.procs, q);
        }
      }
    }
  }

  lemma {:induction false} OpsKept(l: Layout, v: Variant, s: Sys, a: Action)
    requires Shaped(l, s) && ProcsOk(l, v, s) && HistoryOk(s) && Enabled(l, v, s, a)
    ensures var t := Next(l, v, s, a);
      && (forall p :: 0 <= p < |t.procs| && t.procs[p].InOp? ==> t.procs[p].op < t.nextop && t.procs[p].op !in t.ended)
      && (forall p, q :: 0 <= p < q < |t.procs| && t.procs[p].InOp? && t.procs[q].InOp? ==>
            t.procs[p].op != t.procs[q].op)
      && (forall op :: op in t.ended ==> op < t.nextop)
  {
    hide NextCommitWrite, NextRecoveryWrite, Absorb, Put, Loggable, Fits, WholeOps, RoomWhenQuiet, SomebodyWakes;
    hide MustSync;
    if a.End? {
      SomebodyRuns(s.procs, a.p);
    }
  }

  /** Every step keeps the safe history whole. */
  lemma {:induction false} StepKeepsHistory(l: Layout, v: Variant, s: Sys, a: Action)
    requires Shaped(l, s) && ProcsOk(l, v, s) && HistoryOk(s) && Enabled(l, v, s, a)
    requires s.mode.Booting? ==> s.durable == |s.history|
    ensures HistoryOk(Next(l, v, s, a))
  {
    var t := Next(l, v, s, a);
    WholeOpsKept(l, v, s, a);
    OpsKept(l, v, s, a);
    hide Next, WholeOps;
    if t.mode.Up? {
      forall i | 0 <= i < |t.history|
        ensures t.history[i].op in t.ended || InFlight(t, t.history[i].op)
      {
        FlightKept(l, v, s, a, i);
      }
    }
  }

  lemma {:induction false} FlightKept(l: Layout, v: Variant, s: Sys, a: Action, i: nat)
    requires Shaped(l, s) && HistoryOk(s) && Enabled(l, v, s, a)
    requires s.mode.Booting? ==> s.durable == |s.history|
    requires Next(l, v, s, a).mode.Up? && i < |Next(l, v, s, a).history|
    ensures var t := Next(l, v, s, a); t.history[i].op in t.ended || InFlight(t, t.history[i].op)
  {
    hide Shaped, NextCommitWrite, NextRecoveryWrite, Absorb, Put;
    var t := Next(l, v, s, a);
    var op := t.history[i].op;
    if a.LogWrite? && i == |s.history| {
      assert t.procs[a.p].InOp? && t.procs[a.p].op == op;
    } else {
      assert op == s.history[i].op;
      if op !in s.ended {
        assert s.mode.Up?;
        var q :| 0 <= q < |s.procs| && s.procs[q].InOp? && s.procs[q].op == op;
        if op !in t.ended {
          assert t.procs[q].InOp? && t.procs[q].op == op;
        }
      }
    }
  }

  // ---------------------------------------------------------------- the disk

  /** The home blocks written by events not yet safe are exactly the logged ones. */
  ghost predicate PendingLogged(s: Sys)
    requires s.durable <= |s.history|
  {
    && (forall b :: b in s.blocks ==> exists i :: s.durable <= i < |s.history| && s.history[i].w.addr == b)
    && (forall i :: s.durable <= i < |s.history| ==> s.history[i].w.addr in s.blocks)
  }

  function Safe(d0: Disk, s: Sys): (r: Disk)
    requires s.durable <= |s.history|
    ensures |r| == |d0|
  {
    Effect(d0, s.history[..s.durable])
  }

  /** No commit is writing. */
  ghost predicate Quiet(l: Layout, d0: Disk, s: Sys)
    requires Shaped(l, s)
  {
    && Ready(l, s.disk, s.mem, s.blocks)
    && SameHome(l, s.disk, Safe(d0, s))
    && SameHome(l, s.mem, Effect(d0, s.history))
    && PendingLogged(s)
  }

  /** A commit of `blocks` has made `k` disk writes. */
  ghost predicate Writing(l: Layout, d0: Disk, s: Sys, k: nat)
    requires Shaped(l, s)
  {
    && Ready(l, s.base, s.image, s.blocks)
    && k <= 2 * |s.blocks| + 1
    && s.disk == CutCommit(l, s.base, s.image, s.blocks, k)
    && s.mem == CutCommit(l, s.image, s.image, s.blocks, k)
    && SameHome(l, s.image, Effect(d0, s.history))
    && (if k <= |s.blocks| then SameHome(l, s.base, Safe(d0, s)) && PendingLogged(s)
        else s.durable == |s.history|)
  }

  ghost predicate Recovering(l: Layout, d0: Disk, s: Sys, k: nat)
    requires Shaped(l, s)
  {
    && Bootable(l, s.base) && s.blocks == Committed(l, s.base) && k <= |s.blocks|
    && s.disk == CutRecovery(l, s.base, k) && s.mem == s.disk
    && SameHome(l, Recover(l, s.base), Safe(d0, s))
    && s.durable == |s.history|
  }

  ghost predicate DiskOk(l: Layout, d0: Disk, s: Sys)
    requires Shaped(l, s)
  {
    match s.mode
    case Booting(k) => Recovering(l, d0, s, k)
    case Panicked(_) => CrashSafe(l, d0, s)
    case Up =>
      && (forall p :: 0 <= p < |s.procs| && s.procs[p].Committing? && s.blocks != [] ==>
            Writing(l, d0, s, s.procs[p].k))
      && ((s.blocks == [] || forall p :: 0 <= p < |s.procs| ==> !s.procs[p].Committing?) ==> Quiet(l, d0, s))
  }

  /** Stopped here, the machine recovers to the disk after the safe part of the history. */
  ghost predicate CrashSafe(l: Layout, d0: Disk, s: Sys)
    requires s.durable <= |s.history|
  {
    Bootable(l, s.disk) && SameHome(l, Recover(l, s.disk), Safe(d0, s))
  }

  /** Recovering a disk whose log is empty changes nothing. */
  lemma {:induction false} EmptyLogRecovers(l: Layout, d: Disk)
    requires Bootable(l, d) && Committed(l, d) == []
    ensures SameHome(l, Recover(l, d), d)
  {
    hide Recover, HeaderOf;
    forall b | 0 <= b < |d| && !InLog(l, b)
      ensures Recover(l, d)[b] == d[b]
    {
      RecoverEffect(l, d, b);
    }
  }

  /** The disk invariant means crash safety, whatever the machine was doing. */
  lemma {:induction false} DiskOkIsCrashSafe(l: Layout, d0: Disk, s: Sys)
    requires Shaped(l, s) && DiskOk(l, d0, s)
    ensures CrashSafe(l, d0, s)
  {
    hide Recover, HeaderOf, CutCommit, CutRecovery, SameHome, Effect, Bootable, PendingLogged;
    match s.mode
    case Booting(k) =>
      RecoveryCutRecovers(l, s.base, k);
      SameHomeTransitive(l, Recover(l, s.disk), Recover(l, s.base), Safe(d0, s));
    case Panicked(_) =>
    case Up =>
      if p :| 0 <= p < |s.procs| && s.procs[p].Committing? && s.blocks != [] {
        var k := s.procs[p].k;
        CommitCutRecovers(l, s.base, s.image, s.blocks, k);
        if k <= |s.blocks| {
          SameHomeTransitive(l, Recover(l, s.disk), s.base, Safe(d0, s));
        } else {
          assert s.history[..s.durable] == s.history;
          SameHomeTransitive(l, Recover(l, s.disk), s.image, Safe(d0, s));
        }
      } else {
        EmptyLogRecovers(l, s.disk);
        SameHomeTransitive(l, Recover(l, s.disk), s.disk, Safe(d0, s));
      }
  }

  // ---------------------------------------------------------------- every step keeps it

  lemma {:induction false} AbsorbMembers(blocks: seq<Uint>, b: Uint)
    ensures forall c :: c in Absorb(blocks, b) <==> c in blocks || c == b
    ensures forall c :: IndexOf(blocks, c) == |blocks| <==> c !in blocks
    ensures forall c :: IndexOf(Absorb(blocks, b), c) == |Absorb(blocks, b)| <==> c !in blocks && c != b
  {
  }

  lemma {:induction false} AbsorbLoggable(l: Layout, nblocks: nat, blocks: seq<Uint>, b: Uint)
    requires Loggable(l, nblocks, blocks) && b < nblocks && !InLog(l, b)
    requires |blocks| < l.logsize && |blocks| < l.size - 1
    ensures Loggable(l, nblocks, Absorb(blocks, b))
  {
  }

  lemma {:induction false} LogWriteKeepsQuiet(l: Layout, d0: Disk, s: Sys, p: nat, b: Uint, data: Block)
    requires Shaped(l, s) && Quiet(l, d0, s)
    requires p < |s.procs| && s.procs[p].InOp? && b < |s.disk| && !InLog(l, b)
    requires GuardsPass(l, |s.blocks|, s.outstanding)
    ensures Quiet(l, d0, DoLogWrite(l, s, p, b, data))
  {
    hide HeaderOf, Effect, Absorb, IndexOf, Distinct;
    var t := DoLogWrite(l, s, p, b, data);
    AbsorbMembers(s.blocks, b);
    AbsorbLoggable(l, |s.disk|, s.blocks, b);
    EffectAppend(d0, s.history, Event(s.procs[p].op, Write(b, data)));
    assert t.history[..t.durable] == s.history[..s.durable];
    assert PendingLogged(t) by {
      forall c | c in t.blocks
        ensures exists i :: t.durable <= i < |t.history| && t.history[i].w.addr == c
      {
        if c == b {
          assert t.history[|s.history|].w.addr == c;
        } else {
          var i :| s.durable <= i < |s.history| && s.history[i].w.addr == c;
          assert t.history[i].w.addr == c;
        }
      }
    }
    assert Ready(l, t.disk, t.mem, t.blocks);
    assert SameHome(l, t.mem, Effect(d0, t.history));
  }

  lemma {:induction false} StartWrites(l: Layout, d0: Disk, s: Sys, p: nat)
    requires Shaped(l, s) && Quiet(l, d0, s) && p < |s.procs|
    requires s.blocks != []
    ensures Writing(l, d0, StartCommit(s, p), 0)
  {
    hide HeaderOf, Effect, SameHome, Bootable;
    var t := StartCommit(s, p);
    assert CommitWrites(l, t.base, t.blocks)[..0] == [];
    assert CommitWrites(l, t.image, t.blocks)[..0] == [];
  }

  /** In a run of commit, each write is the one `CommitWrites` lists. */
  lemma {:induction false} NextWriteListed(l: Layout, image: Disk, blocks: seq<Uint>, k: nat)
    requires Fits(l, |image|) && Loggable(l, |image|, blocks) && blocks != [] && k < 2 * |blocks| + 2
    ensures |CommitWrites(l, image, blocks)| == 2 * |blocks| + 2
    ensures NextCommitWrite(l, CutCommit(l, image, image, blocks, k), blocks, k) == CommitWrites(l, image, blocks)[k]
  {
    hide CutCommit, CommitWrites, PutHeader, IndexOf;
    var n := |blocks|;
    CommitWriteAt(l, image, blocks, k);
    if k < n {
      CutCommitHome(l, image, image, blocks, k, blocks[k]);
    } else if k == n || k == 2 * n + 1 {
      CutCommitHead(l, image, image, blocks, k);
    } else {
      CutCommitSlot(l, image, image, blocks, k, k - n - 1);
    }
  }

  lemma {:induction false} CutOneMore(l: Layout, d: Disk, image: Disk, blocks: seq<Uint>, k: nat)
    requires Fits(l, |image|) && Loggable(l, |image|, blocks) && k < |CommitWrites(l, image, blocks)|
    ensures CutCommit(l, d, image, blocks, k + 1) ==
      Put(CutCommit(l, d, image, blocks, k), CommitWrites(l, image, blocks)[k])
  {
    ReplayOne(d, CommitWrites(l, image, blocks), k);
  }

  /** After its last write a commit has brought the disk to the cached contents. */
  lemma {:induction false} CommitDone(l: Layout, d: Disk, mem: Disk, blocks: seq<Uint>)
    requires Ready(l, d, mem, blocks) && blocks != []
    ensures var k := 2 * |blocks| + 2;
      && Ready(l, CutCommit(l, d, mem, blocks, k), CutCommit(l, mem, mem, blocks, k), [])
      && SameHome(l, CutCommit(l, d, mem, blocks, k), mem)
      && SameHome(l, CutCommit(l, mem, mem, blocks, k), mem)
  {
    var k := 2 * |blocks| + 2;
    CutCommitBoots(l, d, mem, blocks, k);
    hide CutCommit, HeaderOf;
    forall b | 0 <= b < |d| && !InLog(l, b)
      ensures CutCommit(l, d, mem, blocks, k)[b] == mem[b]
      ensures CutCommit(l, mem, mem, blocks, k)[b] == mem[b]
    {
      CutCommitHome(l, d, mem, blocks, k, b);
      CutCommitHome(l, mem, mem, blocks, k, b);
    }
  }

  lemma {:induction false} CommitStepWrites(l: Layout, d0: Disk, s: Sys, p: nat)
    requires Shaped(l, s) && p < |s.procs| && s.procs[p].Committing? && s.blocks != []
    requires Writing(l, d0, s, s.procs[p].k) && s.procs[p].k < 2 * |s.blocks| + 1
    ensures Writing(l, d0, DoCommitStep(l, s, p), s.procs[p].k + 1)
  {
    var k := s.procs[p].k;
    NextWriteListed(l, s.image, s.blocks, k);
    CutOneMore(l, s.base, s.image, s.blocks, k);
    CutOneMore(l, s.image, s.image, s.blocks, k);
    hide CutCommit, NextCommitWrite, SameHome, Effect, Put, CommitWrites, Ready, PendingLogged, Loggable;
  }

  lemma {:induction false} LastCommitStep(l: Layout, d0: Disk, s: Sys, p: nat)
    requires Shaped(l, s) && p < |s.procs| && s.procs[p].Committing? && s.blocks != []
    requires Writing(l, d0, s, s.procs[p].k) && s.procs[p].k == 2 * |s.blocks| + 1
    ensures Quiet(l, d0, DoCommitStep(l, s, p))
  {
    hide CutCommit, NextCommitWrite, Effect, Put, CommitWrites, SameHome, IndexOf;
    var k, t := s.procs[p].k, DoCommitStep(l, s, p);
    NextWriteListed(l, s.image, s.blocks, k);
    CutOneMore(l, s.base, s.image, s.blocks, k);
    CutOneMore(l, s.image, s.image, s.blocks, k);
    CommitDone(l, s.base, s.image, s.blocks);
    assert t.history[..t.durable] == t.history;
    SameHomeTransitive(l, t.disk, s.image, Safe(d0, t));
    SameHomeTransitive(l, t.mem, s.image, Safe(d0, t));
  }

  lemma {:induction false} CrashRecovers(l: Layout, d0: Disk, s: Sys)
    requires Shaped(l, s) && CrashSafe(l, d0, s)
    ensures Recovering(l, d0, DoCrash(l, s), 0)
  {
    hide Effect, SameHome, HeaderOf, Recover;
    var t := DoCrash(l, s);
    assert t.history[..t.durable] == s.history[..s.durable];
    assert RecoveryWrites(l, s.disk)[..0] == [];
  }

  lemma {:induction false} NextRecoveryListed(l: Layout, d: Disk, k: nat)
    requires Bootable(l, d) && k <= |Committed(l, d)|
    ensures var w := NextRecoveryWrite(l, CutRecovery(l, d, k), Committed(l, d), k);
      CutRecovery(l, d, k + 1) == Put(CutRecovery(l, d, k), w)
  {
    var blocks := Committed(l, d);
    RecoveryWriteAt(l, d, k);
    ReplayOne(d, RecoveryWrites(l, d), k);
    if k < |blocks| {
      assert InLog(l, l.start + k + 1);
      CutRecoveryLog(l, d, k, l.start + k + 1);
    } else {
      CutRecoveryLog(l, d, k, l.start);
    }
    hide RecoveryWrites, PutHeader, HeaderOf, Replay, Put;
  }

  lemma {:induction false} BootStepRecovers(l: Layout, d0: Disk, s: Sys)
    requires Shaped(l, s) && s.mode.Booting? && Recovering(l, d0, s, s.mode.k)
    ensures s.mode.k < |s.blocks| ==> Recovering(l, d0, DoBootStep(l, s), s.mode.k + 1)
    ensures s.mode.k == |s.blocks| ==> Quiet(l, d0, DoBootStep(l, s))
  {
    hide Effect, SameHome, HeaderOf, NextRecoveryWrite, Put, Loggable;
    var k, t := s.mode.k, DoBootStep(l, s);
    NextRecoveryListed(l, s.base, k);
    if k == |s.blocks| {
      RecoveryWriteAt(l, s.base, 0);
      assert RecoveryWrites(l, s.base)[..k+1] == RecoveryWrites(l, s.base);
      assert t.disk == Recover(l, s.base);
      RecoverEmpties(l, s.base);
      assert t.history[..t.durable] == t.history;
    }
  }

  lemma {:induction false} RecoverEmpties(l: Layout, d: Disk)
    requires Bootable(l, d)
    ensures Ready(l, Recover(l, d), Recover(l, d), [])
  {
    RecoveryCutBoots(l, d, |Committed(l, d)| + 1);
    RecoveryWriteAt(l, d, 0);
    assert RecoveryWrites(l, d)[..|Committed(l, d)| + 1] == RecoveryWrites(l, d);
    hide HeaderOf, RecoveryWrites;
  }

  lemma {:induction false} EndKeepsDisk(l: Layout, v: Variant, d0: Disk, s: Sys, p: nat)
    requires Shaped(l, s) && ProcsOk(l, v, s) && DiskOk(l, d0, s) && Enabled(l, v, s, End(p))
    ensures DiskOk(l, d0, DoEnd(l, v, s, p))
  {
    hide Quiet, Writing, Recovering, Loggable, Fits, CrashSafe;
    var t := DoEnd(l, v, s, p);
    SomebodyRuns(s.procs, p);
    SameDisk(l, d0, s, t);
    if t.committing && s.blocks != [] {
      StartWrites(l, d0, s, p);
      SameDisk(l, d0, StartCommit(s, p), t);
    }
  }

  /** The disk invariant holds after every step. */
  lemma {:induction false} StepKeepsDisk(l: Layout, v: Variant, d0: Disk, s: Sys, a: Action)
    requires Shaped(l, s) && ProcsOk(l, v, s) && DiskOk(l, d0, s) && Enabled(l, v, s, a)
    ensures DiskOk(l, d0, Next(l, v, s, a))
  {
    hide Quiet, Writing, Recovering, Loggable, Fits, CrashSafe, NextCommitWrite, NextRecoveryWrite;
    var t := Next(l, v, s, a);
    match a
    case Begin(p) =>
      SameDisk(l, d0, s, t);
      assert forall q :: 0 <= q < |s.procs| && s.procs[q].Committing? ==> t.procs[q] == s.procs[q];
    case LogWrite(p, b, data) =>
      SomebodyRuns(s.procs, p);
      if GuardsPass(l, |s.blocks|, s.outstanding) {
        LogWriteKeepsQuiet(l, d0, s, p, b, data);
      } else {
        DiskOkIsCrashSafe(l, d0, s);
        SameDisk(l, d0, s, t);
      }
    case End(p) => EndKeepsDisk(l, v, d0, s, p);
    case Sync(p) =>
      SameDisk(l, d0, s, t);
      if s.blocks != [] {
        StartWrites(l, d0, s, p);
      }
    case CommitStep(p) =>
      if s.blocks == [] {
        SameDisk(l, d0, s, t);
      } else if s.procs[p].k < 2 * |s.blocks| + 1 {
        CommitStepWrites(l, d0, s, p);
        assert t.procs[p].Committing?;
        assert forall q :: 0 <= q < |t.procs| && q != p ==> t.procs[q] == s.procs[q];
      } else {
        LastCommitStep(l, d0, s, p);
      }
    case Crash =>
      DiskOkIsCrashSafe(l, d0, s);
      CrashRecovers(l, d0, s);
    case BootStep => BootStepRecovers(l, d0, s);
  }

  /** The disk predicates look only at these fields. */
  lemma {:induction false} SameDisk(l: Layout, d0: Disk, s: Sys, t: Sys)
    requires Shaped(l, s) && Shaped(l, t)
    requires t.disk == s.disk && t.mem == s.mem && t.blocks == s.blocks && t.history == s.history
    requires t.durable == s.durable
    ensures Quiet(l, d0, s) ==> Quiet(l, d0, t)
    ensures CrashSafe(l, d0, s) ==> CrashSafe(l, d0, t)
    ensures t.base == s.base && t.image == s.image ==> forall k :: Writing(l, d0, s, k) ==> Writing(l, d0, t, k)
  {
  }
}
