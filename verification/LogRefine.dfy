/** The state machine's steps are what the code does: each critical section of project1's log run on
    the log object gives the state of the matching step, and a whole commit the state after its steps. */
module LogRefine {
  import opened Blocks
  import opened LogDisk
  import opened LogCode
  import opened LogProtocol
  import opened LogSafety
  import opened LogTheorems

  /** The object is in state `s` of the machine. */
  ghost predicate Shows(log: Log, l: Layout, s: Sys)
    reads log, log.block
  {
    && log.Valid() && log.l == l && log.disk == s.disk && log.mem == s.mem && log.Blocks() == s.blocks
    && log.outstanding == s.outstanding && log.committing == s.committing
  }

  method BeginStep(log: Log, l: Layout, v: Variant, ghost s: Sys, p: nat) returns (admitted: bool)
    requires Shows(log, l, s) && Shaped(l, s) && Enabled(l, v, s, Begin(p))
    modifies log
    ensures Shows(log, l, Next(l, v, s, Begin(p)))
    ensures Next(l, v, s, Begin(p)).procs[p] == if admitted then InOp(s.nextop, {}) else Asleep
    ensures admitted <==> !s.committing && |s.blocks| + (s.outstanding + 1) * l.maxop <= l.logsize
  {
    admitted := log.BeginOp();
  }

  method LogWriteStep(log: Log, l: Layout, v: Variant, ghost s: Sys, p: nat, b: Uint, data: Block) returns (ok: bool)
    requires Shows(log, l, s) && Shaped(l, s) && Enabled(l, v, s, LogWrite(p, b, data))
    modifies log, log.block
    ensures Shows(log, l, Next(l, v, s, LogWrite(p, b, data))) && (ok <==> Next(l, v, s, LogWrite(p, b, data)).mode.Up?)
    ensures ok <==> s.outstanding >= 1 && |s.blocks| < l.logsize && |s.blocks| + 1 < l.size
  {
    ok := log.LogWrite(b, data);
  }

  /** The actions the machine takes for what end_op does: its own step, and if it commits then every
      step of the commit, the last of which wakes the others. */
  function EndRun(l: Layout, v: Variant, s: Sys, p: nat): seq<Action>
    requires Shaped(l, s) && Enabled(l, v, s, End(p))
  {
    var t := Next(l, v, s, End(p));
    [End(p)] + if t.mode.Up? && t.procs[p].Committing? then Repeat(CommitStep(p), CommitSteps(t)) else []
  }

  function CommitSteps(s: Sys): nat {
    if s.blocks == [] then 1 else 2 * |s.blocks| + 3
  }

  /** With `k` writes done, the rest of them brings disk and cache to where all of them do. */
  lemma {:induction false} RestOfCommit(l: Layout, v: Variant, s: Sys, p: nat, k: nat)
    requires Shaped(l, s) && s.mode.Up? && p < |s.procs| && s.procs[p].Committing? && s.procs[p].k == k
    requires s.blocks != [] && k <= 2 * |s.blocks| + 1 && |s.image| == |s.base| == |s.disk|
    requires s.disk == CutCommit(l, s.base, s.image, s.blocks, k)
    requires s.mem == CutCommit(l, s.image, s.image, s.blocks, k)
    ensures Possible(l, v, s, Repeat(CommitStep(p), 2 * |s.blocks| + 3 - k))
    ensures var t := After(l, v, s, Repeat(CommitStep(p), 2 * |s.blocks| + 3 - k));
      && t.disk == Replay(s.base, CommitWrites(l, s.image, s.blocks))
      && t.mem == Replay(s.image, CommitWrites(l, s.image, s.blocks))
      && t.blocks == [] && !t.committing && t.outstanding == s.outstanding && t.mode.Up?
    decreases 2 * |s.blocks| + 1 - k
  {
    hide CutCommit, NextCommitWrite, CommitWrites, Loggable, Fits;
    var a := CommitStep(p);
    var t := Next(l, v, s, a);
    var m := 2 * |s.blocks| + 3 - k;
    assert Repeat(a, m)[0] == a && Repeat(a, m)[1..] == Repeat(a, m - 1);
    NextWriteListed(l, s.image, s.blocks, k);
    CutOneMore(l, s.base, s.image, s.blocks, k);
    CutOneMore(l, s.image, s.image, s.blocks, k);
    if k < 2 * |s.blocks| + 1 {
      RestOfCommit(l, v, t, p, k + 1);
    } else {
      WholeCut(l, s.base, s.image, s.blocks);
      WholeCut(l, s.image, s.image, s.blocks);
      EmptyCommitEnds(l, v, t, p);
      assert Repeat(a, m - 1) == Repeat(a, 1);
    }
  }

  lemma {:induction false} WholeCut(l: Layout, d: Disk, image: Disk, blocks: seq<Uint>)
    requires Fits(l, |image|) && Loggable(l, |image|, blocks) && blocks != []
    ensures CutCommit(l, d, image, blocks, 2 * |blocks| + 2) == Replay(d, CommitWrites(l, image, blocks))
    ensures CutCommit(l, d, image, blocks, 0) == d
  {
    CommitWriteAt(l, image, blocks, 0);
    var ws := CommitWrites(l, image, blocks);
    assert ws[..|ws|] == ws && ws[..0] == [];
  }

  lemma {:induction false} EmptyCommitEnds(l: Layout, v: Variant, s: Sys, p: nat)
    requires Shaped(l, s) && s.mode.Up? && p < |s.procs| && s.procs[p].Committing? && s.blocks == []
    ensures Possible(l, v, s, Repeat(CommitStep(p), 1))
    ensures var t := After(l, v, s, Repeat(CommitStep(p), 1));
      && t.disk == s.disk && t.mem == s.mem && t.blocks == [] && !t.committing && t.outstanding == s.outstanding
      && t.mode.Up?
  {
    var a := CommitStep(p);
    var run := Repeat(a, 1);
    assert run[0] == a && run[1..] == [];
    assert Possible(l, v, Next(l, v, s, a), []);
    assert After(l, v, s, run) == After(l, v, Next(l, v, s, a), []);
  }

  /** All the steps of a commit do what the code's commit does. */
  lemma {:induction false} WholeCommit(l: Layout, v: Variant, s: Sys, p: nat)
    requires Shaped(l, s) && s.mode.Up? && p < |s.procs|
    ensures Shaped(l, StartCommit(s, p))
    ensures var run := Repeat(CommitStep(p), CommitSteps(s));
      && Possible(l, v, StartCommit(s, p), run)
      && var t := After(l, v, StartCommit(s, p), run);
      && t.disk == Replay(s.disk, CommitWrites(l, s.mem, s.blocks))
      && t.mem == Replay(s.mem, CommitWrites(l, s.mem, s.blocks))
      && t.blocks == [] && !t.committing && t.outstanding == s.outstanding && t.mode.Up?
  {
    var u := StartCommit(s, p);
    hide Possible, After, CommitWrites;
    if s.blocks == [] {
      CommitNothing(l, s.mem);
      ReplayNothing(s.disk);
      ReplayNothing(s.mem);
      EmptyCommitEnds(l, v, u, p);
    } else {
      WholeCut(l, s.disk, s.mem, s.blocks);
      WholeCut(l, s.mem, s.mem, s.blocks);
      RestOfCommit(l, v, u, p, 0);
    }
  }

  /** What end_op does by itself is what the machine does in the steps of EndRun. */
  lemma {:induction false} EndRuns(l: Layout, v: Variant, s: Sys, p: nat)
    requires Shaped(l, s) && Enabled(l, v, s, End(p)) && !s.committing && s.outstanding >= 1
    ensures Possible(l, v, s, EndRun(l, v, s, p))
    ensures var t := After(l, v, s, EndRun(l, v, s, p));
      && t.outstanding == s.outstanding - 1 && !t.committing && t.mode.Up?
      && if s.outstanding == 1 && (v.Eager? || |s.blocks| + l.maxop > l.logsize)
         then
           && t.disk == Replay(s.disk, CommitWrites(l, s.mem, s.blocks))
           && t.mem == Replay(s.mem, CommitWrites(l, s.mem, s.blocks)) && t.blocks == []
         else t.disk == s.disk && t.mem == s.mem && t.blocks == s.blocks
  {
    hide CommitWrites, Loggable, Fits;
    var t := Next(l, v, s, End(p));
    var run := EndRun(l, v, s, p);
    assert run[0] == End(p);
    if t.procs[p].Committing? {
      var u := s.(outstanding := s.outstanding - 1, ended := s.ended + {s.procs[p].op});
      assert t == StartCommit(u, p);
      assert run[1..] == Repeat(CommitStep(p), CommitSteps(u));
      WholeCommit(l, v, u, p);
    } else {
      assert run[1..] == [];
    }
  }

  method EndStep(log: Log, l: Layout, ghost s: Sys, p: nat) returns (ok: bool)
    requires Shows(log, l, s) && Shaped(l, s) && Enabled(l, Eager, s, End(p)) && s.outstanding >= 1
    modifies log
    ensures ok <==> !s.committing
    ensures ok ==> Possible(l, Eager, s, EndRun(l, Eager, s, p))
    ensures ok ==> Shows(log, l, After(l, Eager, s, EndRun(l, Eager, s, p)))
  {
    hide EndRun, CommitWrites;
    ok := log.EndOp();
    if ok {
      EndRuns(l, Eager, s, p);
    }
  }

  /** The same for project3's end_op, and for its sync. */
  method EndDeferredStep(log: Log, l: Layout, ghost s: Sys, p: nat) returns (ok: bool)
    requires Shows(log, l, s) && Shaped(l, s) && Enabled(l, Deferred, s, End(p)) && s.outstanding >= 1
    modifies log
    ensures ok <==> !s.committing
    ensures ok ==> Possible(l, Deferred, s, EndRun(l, Deferred, s, p))
    ensures ok ==> Shows(log, l, After(l, Deferred, s, EndRun(l, Deferred, s, p)))
  {
    hide EndRun, CommitWrites;
    ok := log.EndOpDeferred();
    if ok {
      EndRuns(l, Deferred, s, p);
    }
  }

  method SyncStep(log: Log, l: Layout, ghost s: Sys, p: nat) returns (made: nat)
    requires Shows(log, l, s) && Shaped(l, s) && Enabled(l, Deferred, s, Sync(p))
    modifies log
    ensures made == |s.blocks|
    ensures var run := Repeat(CommitStep(p), CommitSteps(s));
      && Shaped(l, StartCommit(s, p)) && StartCommit(s, p) == Next(l, Deferred, s, Sync(p))
      && Possible(l, Deferred, StartCommit(s, p), run)
      && Shows(log, l, After(l, Deferred, StartCommit(s, p), run))
  {
    hide CommitWrites, Possible, After;
    WholeCommit(l, Deferred, s, p);
    made := log.Sync();
  }

  // ---------------------------------------------------------------- rebooting

  lemma {:induction false} RestOfBoot(l: Layout, v: Variant, s: Sys, k: nat)
    requires Shaped(l, s) && s.mode == Booting(k) && Bootable(l, s.base) && s.blocks == Committed(l, s.base)
    requires k <= |s.blocks| && s.disk == s.mem == CutRecovery(l, s.base, k)
    ensures Possible(l, v, s, Repeat(BootStep, |s.blocks| + 1 - k))
    ensures var t := After(l, v, s, Repeat(BootStep, |s.blocks| + 1 - k));
      && t.disk == t.mem == Recover(l, s.base) && t.blocks == [] && t.mode.Up?
      && t.outstanding == s.outstanding && t.committing == s.committing
    decreases |s.blocks| - k
  {
    hide CutRecovery, NextRecoveryWrite, Loggable, Fits, Recover, Bootable, Committed;
    var t, m := Next(l, v, s, BootStep), |s.blocks| + 1 - k;
    assert Repeat(BootStep, m)[0] == BootStep && Repeat(BootStep, m)[1..] == Repeat(BootStep, m - 1);
    NextRecoveryListed(l, s.base, k);
    if k < |s.blocks| {
      RestOfBoot(l, v, t, k + 1);
    } else {
      WholeRecovery(l, s.base);
      assert Repeat(BootStep, m - 1) == [];
    }
  }

  lemma {:induction false} WholeRecovery(l: Layout, d: Disk)
    requires Bootable(l, d)
    ensures CutRecovery(l, d, |Committed(l, d)| + 1) == Recover(l, d) && CutRecovery(l, d, 0) == d
  {
    RecoveryWriteAt(l, d, 0);
    var ws := RecoveryWrites(l, d);
    assert ws[..|ws|] == ws && ws[..0] == [];
  }

  /** recover_from_log, run after a crash on a log object as initlog finds it, does what the machine does
      in a crash and the steps of booting. */
  method RecoverStep(log: Log, l: Layout, v: Variant, ghost s: Sys)
    requires Shaped(l, s) && Bootable(l, s.disk) && log.l == l && log.block.Length == l.logsize
    requires log.disk == log.mem == s.disk && log.outstanding == 0 && !log.committing
    modifies log, log.block
    ensures var run := Repeat(BootStep, |Committed(l, s.disk)| + 1);
      && Possible(l, v, Next(l, v, s, Crash), run)
      && Shows(log, l, After(l, v, Next(l, v, s, Crash), run))
  {
    hide Recover, CutRecovery, RecoveryWrites, Possible, After, HeaderOf;
    WholeRecovery(l, s.disk);
    RestOfBoot(l, v, Next(l, v, s, Crash), 0);
    IsReplay(l, s.disk);
    log.RecoverFromLog();
  }

  lemma {:induction false} IsReplay(l: Layout, d: Disk)
    requires Bootable(l, d)
    ensures Recover(l, d) == Replay(d, RecoveryWrites(l, d))
  {
  }
}
