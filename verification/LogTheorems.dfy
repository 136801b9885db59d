/** The theorems about group commit, for every run of the machine of LogProtocol. */
module LogTheorems {
  import opened Blocks
  import opened LogDisk
  import opened LogCode
  import opened LogProtocol
  import opened LogProcs
  import opened LogSafety

  ghost predicate Inv(l: Layout, v: Variant, d0: Disk, s: Sys) {
    Shaped(l, s) && ProcsOk(l, v, s) && HistoryOk(s) && DiskOk(l, d0, s)
  }

  lemma {:induction false} InitialInv(l: Layout, v: Variant, d0: Disk, s: Sys)
    requires Initial(l, v, d0, s)
    ensures Inv(l, v, d0, s)
  {
    NobodyRuns(s.procs, l.maxop);
    hide HeaderOf;
  }

  lemma {:induction false} StepKeepsInv(l: Layout, v: Variant, d0: Disk, s: Sys, a: Action)
    requires Inv(l, v, d0, s) && Enabled(l, v, s, a)
    ensures Inv(l, v, d0, Next(l, v, s, a))
  {
    StepKeepsProcs(l, v, s, a);
    StepKeepsDisk(l, v, d0, s, a);
    StepKeepsHistory(l, v, s, a);
    hide Next, ProcsOk, HistoryOk, DiskOk, Enabled;
  }

  lemma {:induction false} RunKeepsInv(l: Layout, v: Variant, d0: Disk, s: Sys, run: seq<Action>)
    requires Inv(l, v, d0, s) && Possible(l, v, s, run)
    ensures Inv(l, v, d0, After(l, v, s, run))
    decreases |run|
  {
    hide Next, ProcsOk, HistoryOk, DiskOk, Enabled;
    if run != [] {
      StepKeepsInv(l, v, d0, s, run[0]);
      RunKeepsInv(l, v, d0, Next(l, v, s, run[0]), run[1..]);
    }
  }

  /** Crash safety. Stop the machine after any run, then recover, cutting recovery as often as
      you like: every block outside the log holds what the safe part of the history wrote, and
      that part consists of whole operations that had ended. */
  lemma {:induction false} CrashSafety(l: Layout, v: Variant, d0: Disk, s0: Sys, run: seq<Action>, cuts: seq<nat>)
    requires Initial(l, v, d0, s0) && Possible(l, v, s0, run)
    ensures var s := After(l, v, s0, run);
      && WholeOps(s)
      && Bootable(l, s.disk) && Bootable(l, AfterCuts(l, s.disk, cuts))
      && SameHome(l, Recover(l, AfterCuts(l, s.disk, cuts)), Effect(d0, s.history[..s.durable]))
  {
    hide Next, ProcsOk, DiskOk, Enabled, Recover, Effect, SameHome, AfterCuts, Bootable, After, Possible;
    InitialInv(l, v, d0, s0);
    RunKeepsInv(l, v, d0, s0, run);
    var s := After(l, v, s0, run);
    DiskOkIsCrashSafe(l, d0, s);
    AnyCutsRecover(l, s.disk, cuts);
    SameHomeTransitive(l, Recover(l, AfterCuts(l, s.disk, cuts)), Recover(l, s.disk), Safe(d0, s));
  }

  /** What is safe stays safe: over any further run, crashes included, the safe part of the
      history only grows at its end. */
  lemma {:induction false} SafeOnlyGrows(l: Layout, v: Variant, s: Sys, run: seq<Action>)
    requires Shaped(l, s) && Possible(l, v, s, run)
    ensures var t := After(l, v, s, run); s.history[..s.durable] <= t.history[..t.durable]
    decreases |run|
  {
    if run != [] {
      var t := Next(l, v, s, run[0]);
      assert s.history[..s.durable] <= t.history[..t.durable] by {
        hide Shaped, NextCommitWrite, NextRecoveryWrite, Absorb, Put, Possible, After;
      }
      hide Next, Enabled, Shaped;
      SafeOnlyGrows(l, v, t, run[1..]);
    }
  }

  lemma {:induction false} NothingPending(s: Sys)
    requires s.durable <= |s.history| && PendingLogged(s) && s.blocks == []
    ensures s.durable == |s.history|
  {
    var i := if s.durable < |s.history| then s.durable else 0;
    if s.history != [] {
      var e := s.history[i];
    }
  }

  /** project1: once the last operation has ended and its commit has finished, everything logged
      so far is safe. */
  lemma {:induction false} EndedMeansDurable(l: Layout, d0: Disk, s0: Sys, run: seq<Action>)
    requires Initial(l, Eager, d0, s0) && Possible(l, Eager, s0, run)
    ensures var s := After(l, Eager, s0, run);
      s.mode.Up? && !s.committing && s.outstanding == 0 ==> s.durable == |s.history|
  {
    hide After, Possible;
    InitialInv(l, Eager, d0, s0);
    RunKeepsInv(l, Eager, d0, s0, run);
    var s := After(l, Eager, s0, run);
    hide HistoryOk;
    if s.mode.Up? && !s.committing && s.outstanding == 0 {
      NothingPending(s);
    }
  }

  /** Mutual exclusion and wakeups after every run: a running commit excludes operations and other
      commits, no sleeper is forgotten, and end_op never panics. */
  lemma {:induction false} ProtocolSafety(l: Layout, v: Variant, d0: Disk, s0: Sys, run: seq<Action>)
    requires Initial(l, v, d0, s0) && Possible(l, v, s0, run)
    ensures var s := After(l, v, s0, run);
      && s.mode != Panicked(true)
      && (!s.mode.Panicked? ==> Exclusive(v, s) && SomebodyWakes(s))
      && Distinct(s.blocks)
  {
    hide After, Possible;
    InitialInv(l, v, d0, s0);
    RunKeepsInv(l, v, d0, s0, run);
  }

  lemma {:induction false} RunKeepsAccount(l: Layout, v: Variant, s: Sys, run: seq<Action>)
    requires Shaped(l, s) && ProcsOk(l, v, s) && Possible(l, v, s, run) && Budgeted(l, v, s, run)
    requires s.mode.Panicked? || Accounted(l, s)
    ensures After(l, v, s, run).mode.Panicked? || Accounted(l, After(l, v, s, run))
    decreases |run|
  {
    hide ProcsOk, Accounted, WithinBudget, Shaped;
    if run != [] {
      var t := Next(l, v, s, run[0]);
      StepKeepsProcs(l, v, s, run[0]);
      if s.mode.Panicked? {
        OnlyCrashAfterPanic(l, v, s, run[0]);
      } else if !t.mode.Panicked? {
        StepKeepsAccount(l, v, s, run[0]);
      }
      hide Next, Enabled;
      RunKeepsAccount(l, v, t, run[1..]);
    }
  }

  lemma {:induction false} OnlyCrashAfterPanic(l: Layout, v: Variant, s: Sys, a: Action)
    requires Shaped(l, s) && s.mode.Panicked? && Enabled(l, v, s, a)
    ensures a.Crash? && Accounted(l, Next(l, v, s, a))
  {
    NobodyRuns(DoCrash(l, s).procs, l.maxop);
  }

  /** Log space: as long as every operation logs at most MAXOPBLOCKS different blocks, what is logged
      and what the running operations may still log fit in the log together. */
  lemma {:induction false} LogSpace(l: Layout, v: Variant, d0: Disk, s0: Sys, run: seq<Action>)
    requires Initial(l, v, d0, s0) && Possible(l, v, s0, run) && Budgeted(l, v, s0, run)
    ensures var s := After(l, v, s0, run); !s.mode.Panicked? ==> Accounted(l, s)
  {
    hide After, Possible, Budgeted, DiskOk, HistoryOk;
    InitialInv(l, v, d0, s0);
    NobodyRuns(s0.procs, l.maxop);
    RunKeepsAccount(l, v, s0, run);
  }

  // ---------------------------------------------------------------- commits finish

  function Repeat(a: Action, m: nat): seq<Action> {
    seq(m, _ => a)
  }

  /** `m` steps of process `p` alone finish its commit and leave nothing unsafe. */
  ghost predicate FinishesIn(l: Layout, v: Variant, s: Sys, p: nat, m: nat) {
    && Shaped(l, s) && Possible(l, v, s, Repeat(CommitStep(p), m))
    && var t := After(l, v, s, Repeat(CommitStep(p), m));
    && t.mode.Up? && !t.committing && t.blocks == [] && p < |t.procs| && t.procs[p].Outside?
    && t.history == s.history && t.durable == |s.history|
  }

  /** Steps a commit still needs: its remaining disk writes, and one to announce the end. */
  function StepsLeft(s: Sys, p: nat): int
    requires p < |s.procs| && s.procs[p].Committing?
  {
    if s.blocks == [] then 1 else 2 * |s.blocks| + 3 - s.procs[p].k
  }

  lemma {:induction false} CommitCanStep(l: Layout, v: Variant, d0: Disk, s: Sys, p: nat)
    requires Inv(l, v, d0, s) && s.mode.Up? && p < |s.procs| && s.procs[p].Committing?
    ensures Enabled(l, v, s, CommitStep(p)) && StepsLeft(s, p) > 0
    ensures s.blocks == [] ==> s.durable == |s.history|
  {
    if s.blocks != [] {
      assert Writing(l, d0, s, s.procs[p].k);
    } else {
      NothingPending(s);
    }
  }

  lemma {:induction false} StepToFinish(l: Layout, v: Variant, s: Sys, p: nat)
    requires Shaped(l, s) && p < |s.procs| && Enabled(l, v, s, CommitStep(p))
    ensures var t := Next(l, v, s, CommitStep(p));
      && t.mode == s.mode && t.history == s.history && |t.procs| == |s.procs|
      && (s.blocks != [] ==> t.procs[p].Committing? && StepsLeft(t, p) == StepsLeft(s, p) - 1)
      && (s.blocks == [] ==> t.procs[p].Outside? && !t.committing && t.blocks == [] && t.durable == s.durable)
  {
  }

  lemma {:induction false} FinishLater(l: Layout, v: Variant, s: Sys, p: nat, m: nat)
    requires Shaped(l, s) && Enabled(l, v, s, CommitStep(p)) && m > 0
    requires Next(l, v, s, CommitStep(p)).history == s.history
    requires FinishesIn(l, v, Next(l, v, s, CommitStep(p)), p, m - 1)
    ensures FinishesIn(l, v, s, p, m)
  {
    hide Next, Enabled, Shaped;
    var run := Repeat(CommitStep(p), m);
    assert run[0] == CommitStep(p) && run[1..] == Repeat(CommitStep(p), m - 1);
  }

  /** A commit is never stuck: left alone, it finishes. */
  lemma {:induction false} CommitFinishes(l: Layout, v: Variant, d0: Disk, s: Sys, p: nat, m: nat)
    requires Inv(l, v, d0, s) && s.mode.Up? && p < |s.procs| && s.procs[p].Committing?
    requires m == StepsLeft(s, p)
    ensures FinishesIn(l, v, s, p, m)
    decreases m
  {
    hide Next, Enabled, ProcsOk, DiskOk, HistoryOk, FinishesIn, Shaped, Fits;
    CommitCanStep(l, v, d0, s, p);
    StepKeepsInv(l, v, d0, s, CommitStep(p));
    StepToFinish(l, v, s, p);
    var t := Next(l, v, s, CommitStep(p));
    if s.blocks != [] {
      CommitFinishes(l, v, d0, t, p, m - 1);
    } else {
      assert Repeat(CommitStep(p), 0) == [];
      FinishedNow(l, v, t, p);
    }
    FinishLater(l, v, s, p, m);
  }

  lemma {:induction false} FinishedNow(l: Layout, v: Variant, s: Sys, p: nat)
    requires Shaped(l, s) && p < |s.procs| && s.procs[p].Outside?
    requires s.mode.Up? && !s.committing && s.blocks == [] && s.durable == |s.history|
    ensures FinishesIn(l, v, s, p, 0)
  {
  }

  // ---------------------------------------------------------------- project3: deferred commits

  lemma {:induction false} DeferredAdmits(l: Layout, s: Sys, p: nat)
    requires Shaped(l, s) && ProcsOk(l, Deferred, s) && Enabled(l, Deferred, s, Begin(p))
    ensures Next(l, Deferred, s, Begin(p)).procs[p].InOp? && |s.blocks| <= l.logsize - l.maxop
  {
    hide Loggable, Fits;
    NobodyRuns(s.procs, l.maxop);
    assert !s.committing && s.outstanding == 0;
  }

  /** One process, commits put off: an operation never has to sleep before it starts. */
  lemma {:induction false} DeferredNeverSleeps(l: Layout, d0: Disk, s0: Sys, run: seq<Action>, p: nat)
    requires Initial(l, Deferred, d0, s0) && Possible(l, Deferred, s0, run)
    requires Enabled(l, Deferred, After(l, Deferred, s0, run), Begin(p))
    ensures var s := After(l, Deferred, s0, run);
      Next(l, Deferred, s, Begin(p)).procs[p].InOp? && |s.blocks| <= l.logsize - l.maxop
  {
    hide After, Possible, DiskOk, HistoryOk, ProcsOk, Initial, Next, Enabled, Shaped;
    InitialInv(l, Deferred, d0, s0);
    RunKeepsInv(l, Deferred, d0, s0, run);
    DeferredAdmits(l, After(l, Deferred, s0, run), p);
  }

  function Addresses(events: seq<Event>): set<nat> {
    set i | 0 <= i < |events| :: events[i].w.addr
  }

  function Members(s: seq<nat>): set<nat> {
    set x | x in s
  }

  lemma {:induction false} DistinctCount(s: seq<nat>)
    requires Distinct(s)
    ensures |Members(s)| == |s|
  {
    if s != [] {
      var front, last := s[..|s|-1], s[|s|-1];
      DistinctCount(front);
      assert last !in Members(front);
      assert s == front + [last];
      assert Members(s) == Members(front) + {last};
    }
  }

  lemma {:induction false} PendingCount(l: Layout, s: Sys)
    requires Shaped(l, s) && PendingLogged(s)
    ensures |Addresses(s.history[s.durable..])| == |s.blocks|
  {
    var pending := s.history[s.durable..];
    forall b
      ensures b in Addresses(pending) <==> b in s.blocks
    {
      if b in s.blocks {
        var i :| s.durable <= i < |s.history| && s.history[i].w.addr == b;
        assert pending[i - s.durable].w.addr == b;
      }
    }
    assert Addresses(pending) == Members(s.blocks);
    DistinctCount(s.blocks);
  }

  lemma {:induction false} SyncStarts(l: Layout, d0: Disk, s: Sys, p: nat)
    requires Inv(l, Deferred, d0, s) && Enabled(l, Deferred, s, Sync(p))
    ensures PendingLogged(s) && Shaped(l, s) && p < |s.procs|
    ensures Next(l, Deferred, s, Sync(p)) == StartCommit(s, p) && Inv(l, Deferred, d0, StartCommit(s, p))
    ensures var t := StartCommit(s, p); t.mode.Up? && p < |t.procs| && t.procs[p].Committing?
  {
    StepKeepsInv(l, Deferred, d0, s, Sync(p));
  }

  /** In state `s`, a `sync` by `p` will report the number of distinct blocks it makes durable,
      and left alone it finishes with everything logged so far safe. */
  ghost predicate SyncWorks(l: Layout, s: Sys, p: nat)
    requires Shaped(l, s) && Enabled(l, Deferred, s, Sync(p))
  {
    var t := Next(l, Deferred, s, Sync(p));
    && p < |t.procs| && t.procs[p].Committing? && t.history == s.history
    && t.procs[p].made == |Addresses(s.history[s.durable..])|
    && FinishesIn(l, Deferred, t, p, if s.blocks == [] then 1 else 2 * |s.blocks| + 3)
  }

  lemma {:induction false} SyncFrom(l: Layout, d0: Disk, s: Sys, p: nat)
    requires Inv(l, Deferred, d0, s) && Enabled(l, Deferred, s, Sync(p))
    ensures SyncWorks(l, s, p)
  {
    hide Inv, PendingLogged, FinishesIn, Addresses, Next, Enabled;
    SyncStarts(l, d0, s, p);
    PendingCount(l, s);
    CommitFinishes(l, Deferred, d0, StartCommit(s, p), p, if s.blocks == [] then 1 else 2 * |s.blocks| + 3);
  }

  /** After every run, `sync` counts right and makes everything durable. */
  lemma {:induction false} SyncCounts(l: Layout, d0: Disk, s0: Sys, run: seq<Action>, p: nat)
    requires Initial(l, Deferred, d0, s0) && Possible(l, Deferred, s0, run)
    requires Enabled(l, Deferred, After(l, Deferred, s0, run), Sync(p))
    ensures SyncWorks(l, After(l, Deferred, s0, run), p)
  {
    hide After, Possible, Inv, Next, Enabled, SyncWorks;
    InitialInv(l, Deferred, d0, s0);
    RunKeepsInv(l, Deferred, d0, s0, run);
    SyncFrom(l, d0, After(l, Deferred, s0, run), p);
  }

  // ---------------------------------------------------------------- a panic within the budget

  /** param.h and mkfs.c of project1: LOGSIZE 30, MAXOPBLOCKS 10, and a log area of LOGSIZE
      blocks that has to hold the header too. */
  function Project1(start: nat): Layout {
    Layout(start, 30, 30, 10)
  }

  lemma {:induction false} AfterOneMore(l: Layout, v: Variant, s: Sys, run: seq<Action>, a: Action)
    requires Shaped(l, s) && Possible(l, v, s, run) && Enabled(l, v, After(l, v, s, run), a)
    ensures Possible(l, v, s, run + [a])
    ensures Budgeted(l, v, s, run) && WithinBudget(l, After(l, v, s, run), a) ==> Budgeted(l, v, s, run + [a])
    ensures After(l, v, s, run + [a]) == Next(l, v, After(l, v, s, run), a)
    decreases |run|
  {
    hide Next, Enabled, Shaped, WithinBudget;
    if run == [] {
      assert run + [a] == [a] && [a][1..] == [];
    } else {
      assert (run + [a])[0] == run[0] && (run + [a])[1..] == run[1..] + [a];
      AfterOneMore(l, v, Next(l, v, s, run[0]), run[1..], a);
    }
  }

  /** Three operations are running; the first `j` of blocks first..first+29 are logged, ten to
      an operation. */
  ghost predicate Filled(s: Sys, first: nat, j: nat) {
    && s.mode.Up? && !s.committing && s.outstanding == 3 && |s.procs| == 3 && |s.blocks| == j
    && (forall i :: 0 <= i < j ==> s.blocks[i] == first + i)
    && (forall p :: 0 <= p < 3 ==> s.procs[p].InOp?)
    && (forall p, b :: 0 <= p < 3 && b in s.procs[p].own ==> first + 10 * p <= b < first + j && b < first + 10 * p + 10)
    && (forall p :: 0 <= p < 3 ==> |s.procs[p].own| <= if j <= 10 * p then 0 else j - 10 * p)
  }

  lemma {:induction false} FillOne(l: Layout, s: Sys, first: nat, j: nat)
    requires l == Project1(l.start) && Shaped(l, s) && Filled(s, first, j) && j < 30
    requires l.start + 30 <= first && first + 30 <= |s.disk|
    ensures Enabled(l, Eager, s, LogWrite(j / 10, first + j, ZeroBlock()))
    ensures WithinBudget(l, s, LogWrite(j / 10, first + j, ZeroBlock()))
    ensures |Next(l, Eager, s, LogWrite(j / 10, first + j, ZeroBlock())).disk| == |s.disk|
    ensures j < 29 ==> Filled(Next(l, Eager, s, LogWrite(j / 10, first + j, ZeroBlock())), first, j + 1)
    ensures j == 29 ==> Next(l, Eager, s, LogWrite(j / 10, first + j, ZeroBlock())).mode == Panicked(false)
  {
    hide Loggable, Fits;
    var p, b := j / 10, first + j;
    var own := s.procs[p].own;
    assert |own + {b}| <= |own| + 1;
    assert b !in s.blocks;
    assert |own| <= j - 10 * p;
  }

  lemma {:induction false} FillRun(l: Layout, s: Sys, first: nat, j: nat) returns (run: seq<Action>)
    requires l == Project1(l.start) && Shaped(l, s) && Filled(s, first, 0) && j < 30
    requires l.start + 30 <= first && first + 30 <= |s.disk|
    ensures Possible(l, Eager, s, run) && Budgeted(l, Eager, s, run) && Filled(After(l, Eager, s, run), first, j)
    ensures |After(l, Eager, s, run).disk| == |s.disk|
  {
    hide Next, Filled, Enabled, WithinBudget;
    if j == 0 {
      run := [];
    } else {
      var front := FillRun(l, s, first, j - 1);
      var t, a := After(l, Eager, s, front), LogWrite((j - 1) / 10, first + j - 1, ZeroBlock());
      FillOne(l, t, first, j - 1);
      AfterOneMore(l, Eager, s, front, a);
      run := front + [a];
    }
  }

  /** Three operations, all let in by begin_op and within their budgets, can log 29 blocks. */
  lemma {:induction false} NearlyFull(d0: Disk, start: nat) returns (s0: Sys, run: seq<Action>)
    requires Bootable(Project1(start), d0) && Committed(Project1(start), d0) == [] && start + 60 <= |d0|
    ensures Initial(Project1(start), Eager, d0, s0) && Possible(Project1(start), Eager, s0, run)
    ensures Budgeted(Project1(start), Eager, s0, run)
    ensures Filled(After(Project1(start), Eager, s0, run), start + 30, 29)
    ensures |After(Project1(start), Eager, s0, run).disk| == |d0|
  {
    var l := Project1(start);
    s0 := Sys(Up, d0, d0, [], 0, false, seq(3, _ => Outside), [], 0, {}, 0, d0, d0);
    var s1 := Next(l, Eager, s0, Begin(0));
    var s2 := Next(l, Eager, s1, Begin(1));
    var s3 := Next(l, Eager, s2, Begin(2));
    assert Filled(s3, start + 30, 0);
    run := FillRun(l, s3, start + 30, 29);
    hide Next, Enabled, Shaped;
    ConsRun(l, s2, Begin(2), run);
    ConsRun(l, s1, Begin(1), [Begin(2)] + run);
    ConsRun(l, s0, Begin(0), [Begin(1)] + ([Begin(2)] + run));
    run := [Begin(0)] + ([Begin(1)] + ([Begin(2)] + run));
  }

  /** With project1's constants, three operations that each log ten distinct blocks, which
      begin_op allowed, end in the panic "too big a transaction". */
  lemma {:induction false} FullBudgetsPanic(d0: Disk, start: nat) returns (s0: Sys, run: seq<Action>)
    requires Bootable(Project1(start), d0) && Committed(Project1(start), d0) == [] && start + 60 <= |d0|
    ensures Initial(Project1(start), Eager, d0, s0) && Possible(Project1(start), Eager, s0, run)
    ensures Budgeted(Project1(start), Eager, s0, run)
    ensures After(Project1(start), Eager, s0, run).mode == Panicked(false)
  {
    hide Filled, Next, Enabled, WithinBudget;
    var l := Project1(start);
    s0, run := NearlyFull(d0, start);
    FillOne(l, After(l, Eager, s0, run), start + 30, 29);
    var last := LogWrite(2, start + 59, ZeroBlock());
    AfterOneMore(l, Eager, s0, run, last);
    run := run + [last];
  }

  lemma {:induction false} ConsRun(l: Layout, s: Sys, a: Action, run: seq<Action>)
    requires Shaped(l, s) && Enabled(l, Eager, s, a) && Possible(l, Eager, Next(l, Eager, s, a), run)
    ensures Possible(l, Eager, s, [a] + run)
    ensures WithinBudget(l, s, a) && Budgeted(l, Eager, Next(l, Eager, s, a), run) ==> Budgeted(l, Eager, s, [a] + run)
    ensures After(l, Eager, s, [a] + run) == After(l, Eager, Next(l, Eager, s, a), run)
  {
  }
}
