/** What every step of the group-commit machine keeps about its processes: mutual exclusion of
    commits and operations, no lost wakeup and, while operations stay within their budgets, the
    log-space account. */
module LogProcs {
  import opened Blocks
  import opened LogDisk
  import opened LogCode
  import opened LogProtocol

  // ---------------------------------------------------------------- counting processes

  function Running(procs: seq<Proc>): (c: nat) {
    if procs == [] then 0
    else Running(procs[..|procs|-1]) + if procs[|procs|-1].InOp? then 1 else 0
  }

  /** Blocks the running operations may still log. */
  function Unused(maxop: nat, procs: seq<Proc>): (u: int) {
    if procs == [] then 0
    else Unused(maxop, procs[..|procs|-1]) + Left(maxop, procs[|procs|-1])
  }

  function Left(maxop: nat, proc: Proc): int {
    if proc.InOp? then maxop - |proc.own| else 0
  }

  lemma {:induction false} RunningUpdate(procs: seq<Proc>, p: nat, x: Proc)
    requires p < |procs|
    ensures Running(procs[p := x]) ==
      Running(procs) - (if procs[p].InOp? then 1 else 0) + (if x.InOp? then 1 else 0)
  {
    var n := |procs| - 1;
    if p < n {
      RunningUpdate(procs[..n], p, x);
      assert procs[p := x][..n] == procs[..n][p := x];
    } else {
      assert procs[p := x][..n] == procs[..n];
    }
  }

  lemma {:induction false} UnusedUpdate(maxop: nat, procs: seq<Proc>, p: nat, x: Proc)
    requires p < |procs|
    ensures Unused(maxop, procs[p := x]) == Unused(maxop, procs) - Left(maxop, procs[p]) + Left(maxop, x)
  {
    var n := |procs| - 1;
    if p < n {
      UnusedUpdate(maxop, procs[..n], p, x);
      assert procs[p := x][..n] == procs[..n][p := x];
    } else {
      assert procs[p := x][..n] == procs[..n];
    }
  }

  lemma {:induction false} WakeCounts(maxop: nat, procs: seq<Proc>)
    ensures Running(WakeAll(procs)) == Running(procs)
    ensures Unused(maxop, WakeAll(procs)) == Unused(maxop, procs)
  {
    if procs != [] {
      var n := |procs| - 1;
      WakeCounts(maxop, procs[..n]);
      assert WakeAll(procs)[..n] == WakeAll(procs[..n]);
    }
  }

  lemma {:induction false} NobodyRuns(procs: seq<Proc>, maxop: nat)
    requires forall p :: 0 <= p < |procs| ==> !procs[p].InOp?
    ensures Running(procs) == 0 && Unused(maxop, procs) == 0
  {
    if procs != [] {
      NobodyRuns(procs[..|procs|-1], maxop);
    }
  }

  lemma {:induction false} SomebodyRuns(procs: seq<Proc>, p: nat)
    requires p < |procs| && procs[p].InOp?
    ensures Running(procs) >= 1
  {
    if p < |procs| - 1 {
      SomebodyRuns(procs[..|procs|-1], p);
    }
  }

  lemma {:induction false} UnusedBound(maxop: nat, procs: seq<Proc>)
    ensures Unused(maxop, procs) <= Running(procs) * maxop
  {
    if procs != [] {
      UnusedBound(maxop, procs[..|procs|-1]);
    }
  }

  lemma {:induction false} UnusedShare(maxop: nat, procs: seq<Proc>, p: nat)
    requires p < |procs|
    requires forall q :: 0 <= q < |procs| ==> Left(maxop, procs[q]) >= 0
    ensures 0 <= Left(maxop, procs[p]) <= Unused(maxop, procs)
  {
    var n := |procs| - 1;
    if p < n {
      UnusedShare(maxop, procs[..n], p);
    } else if n > 0 {
      UnusedShare(maxop, procs[..n], 0);
    }
  }

  // ---------------------------------------------------------------- the invariant

  /** At most one commit runs, it is announced by `committing`, and no operation runs beside it. */
  ghost predicate Exclusive(v: Variant, s: Sys) {
    && s.outstanding == Running(s.procs)
    && (forall p, q :: 0 <= p < q < |s.procs| ==> !(s.procs[p].Committing? && s.procs[q].Committing?))
    && (forall p :: 0 <= p < |s.procs| && s.procs[p].Committing? ==> s.committing)
    && (s.committing ==> exists p :: 0 <= p < |s.procs| && s.procs[p].Committing?)
    && (s.committing ==> s.outstanding == 0)
    && (v.Deferred? ==> |s.procs| == 1)
  }

  /** Logged blocks plus unused reservations fit in the log. */
  ghost predicate Accounted(l: Layout, s: Sys) {
    && (forall p :: 0 <= p < |s.procs| && s.procs[p].InOp? ==>
          |s.procs[p].own| <= l.maxop && forall b :: b in s.procs[p].own ==> b in s.blocks)
    && |s.blocks| + Unused(l.maxop, s.procs) <= l.logsize
  }

  /** Between operations there is room for one more; in project1 the log is then empty. */
  ghost predicate RoomWhenQuiet(l: Layout, v: Variant, s: Sys) {
    s.mode.Up? && !s.committing && s.outstanding == 0 ==>
      |s.blocks| + l.maxop <= l.logsize && (v.Eager? ==> s.blocks == [])
  }

  /** No lost wakeup: whoever sleeps in begin_op has somebody left to wake it. */
  ghost predicate SomebodyWakes(s: Sys) {
    forall p :: 0 <= p < |s.procs| && s.procs[p].Asleep? ==> s.committing || s.outstanding > 0
  }

  ghost predicate ProcsOk(l: Layout, v: Variant, s: Sys) {
    && l.maxop <= l.logsize
    && s.mode != Panicked(true)
    && (v.Deferred? ==> |s.procs| == 1)
    && (!s.mode.Panicked? ==>
          Exclusive(v, s) && RoomWhenQuiet(l, v, s) && SomebodyWakes(s))
    && (s.mode.Booting? ==> !s.committing && forall p :: 0 <= p < |s.procs| ==> s.procs[p].Outside?)
  }

  // ---------------------------------------------------------------- every step keeps it

  lemma {:induction false} BeginKeeps(l: Layout, v: Variant, s: Sys, p: nat)
    requires Shaped(l, s) && ProcsOk(l, v, s) && Enabled(l, v, s, Begin(p))
    ensures ProcsOk(l, v, DoBegin(l, s, p))
  {
    var t := DoBegin(l, s, p);
    if Admits(l, |s.blocks|, s.outstanding, s.committing) {
      RunningUpdate(s.procs, p, InOp(s.nextop, {}));
    } else {
      RunningUpdate(s.procs, p, Asleep);
      if s.committing {
        var q :| 0 <= q < |s.procs| && s.procs[q].Committing?;
        assert t.procs[q].Committing?;
      }
    }
  }

  lemma {:induction false} LogWriteKeeps(l: Layout, v: Variant, s: Sys, p: nat, b: Uint, data: Block)
    requires Shaped(l, s) && ProcsOk(l, v, s) && Enabled(l, v, s, LogWrite(p, b, data))
    requires GuardsPass(l, |s.blocks|, s.outstanding)
    ensures ProcsOk(l, v, DoLogWrite(l, s, p, b, data))
  {
    var t, own := DoLogWrite(l, s, p, b, data), s.procs[p].own;
    var x := InOp(s.procs[p].op, own + {b});
    SomebodyRuns(s.procs, p);
    RunningUpdate(s.procs, p, x);
  }

  lemma {:induction false} StartKeeps(l: Layout, v: Variant, s: Sys, p: nat)
    requires Shaped(l, s) && p < |s.procs| && l.maxop <= l.logsize && s.mode.Up?
    requires forall q :: 0 <= q < |s.procs| ==> !s.procs[q].Committing?
    requires forall q :: 0 <= q < |s.procs| && q != p ==> !s.procs[q].InOp?
    requires s.outstanding == 0
    requires v.Deferred? ==> |s.procs| == 1
    ensures ProcsOk(l, v, StartCommit(s, p))
  {
    var t := StartCommit(s, p);
    NobodyRuns(t.procs, l.maxop);
    assert t.procs[p].Committing?;
  }

  lemma {:induction false} OthersRun(procs: seq<Proc>, p: nat)
    requires p < |procs| && procs[p].InOp? && Running(procs) == 1
    ensures forall q :: 0 <= q < |procs| && q != p ==> !procs[q].InOp?
  {
    RunningUpdate(procs, p, Outside);
    forall q | 0 <= q < |procs| && q != p
      ensures !procs[q].InOp?
    {
      if procs[q].InOp? {
        SomebodyRuns(procs[p := Outside], q);
      }
    }
  }

  lemma {:induction false} LeaveKeeps(l: Layout, v: Variant, s: Sys, p: nat, wake: bool)
    requires Shaped(l, s) && ProcsOk(l, v, s) && Enabled(l, v, s, End(p)) && !s.committing
    requires s.outstanding == 1 ==> v.Deferred? && !MustSync(l, |s.blocks|)
    requires !wake ==> s.outstanding == 1
    ensures var procs := s.procs[p := Outside];
      ProcsOk(l, v, s.(outstanding := s.outstanding - 1, ended := s.ended + {s.procs[p].op},
                       procs := if wake then WakeAll(procs) else procs))
  {
    hide Loggable, Fits;
    var procs := s.procs[p := Outside];
    SomebodyRuns(s.procs, p);
    RunningUpdate(s.procs, p, Outside);
    WakeCounts(l.maxop, procs);
  }

  lemma {:induction false} EndKeeps(l: Layout, v: Variant, s: Sys, p: nat)
    requires Shaped(l, s) && ProcsOk(l, v, s) && Enabled(l, v, s, End(p))
    ensures ProcsOk(l, v, DoEnd(l, v, s, p))
  {
    hide Loggable, Fits;
    var t := s.(outstanding := s.outstanding - 1, ended := s.ended + {s.procs[p].op});
    SomebodyRuns(s.procs, p);
    assert !s.committing;
    if t.outstanding == 0 && (v.Eager? || MustSync(l, |s.blocks|)) {
      OthersRun(s.procs, p);
      StartKeeps(l, v, t, p);
    } else {
      LeaveKeeps(l, v, s, p, t.outstanding > 0);
      hide ProcsOk;
    }
  }

  lemma {:induction false} SyncKeeps(l: Layout, v: Variant, s: Sys, p: nat)
    requires Shaped(l, s) && ProcsOk(l, v, s) && Enabled(l, v, s, Sync(p))
    ensures ProcsOk(l, v, StartCommit(s, p))
  {
  }

  lemma {:induction false} CommitStepKeeps(l: Layout, v: Variant, s: Sys, p: nat)
    requires Shaped(l, s) && ProcsOk(l, v, s) && Enabled(l, v, s, CommitStep(p))
    ensures ProcsOk(l, v, DoCommitStep(l, s, p))
  {
    var t := DoCommitStep(l, s, p);
    forall q | 0 <= q < |s.procs|
      ensures !s.procs[q].InOp?
    {
      if s.procs[q].InOp? {
        SomebodyRuns(s.procs, q);
      }
    }
    NobodyRuns(t.procs, l.maxop);
    if s.blocks != [] {
      assert t.procs[p].Committing?;
    }
  }

  lemma {:induction false} CrashKeeps(l: Layout, v: Variant, s: Sys)
    requires Shaped(l, s) && ProcsOk(l, v, s)
    ensures ProcsOk(l, v, DoCrash(l, s))
  {
    NobodyRuns(DoCrash(l, s).procs, l.maxop);
  }

  lemma {:induction false} BootStepKeeps(l: Layout, v: Variant, s: Sys)
    requires Shaped(l, s) && ProcsOk(l, v, s) && Enabled(l, v, s, BootStep)
    ensures ProcsOk(l, v, DoBootStep(l, s))
  {
  }

  /** The process invariant holds after every step; in particular the panic of end_op is
      never reached. */
  lemma {:induction false} StepKeepsProcs(l: Layout, v: Variant, s: Sys, a: Action)
    requires Shaped(l, s) && ProcsOk(l, v, s) && Enabled(l, v, s, a)
    ensures ProcsOk(l, v, Next(l, v, s, a))
  {
    match a
    case Begin(p) => BeginKeeps(l, v, s, p);
    case LogWrite(p, b, data) =>
      if GuardsPass(l, |s.blocks|, s.outstanding) {
        LogWriteKeeps(l, v, s, p, b, data);
      }
    case End(p) => EndKeeps(l, v, s, p);
    case Sync(p) => SyncKeeps(l, v, s, p);
    case CommitStep(p) => CommitStepKeeps(l, v, s, p);
    case Crash => CrashKeeps(l, v, s);
    case BootStep => BootStepKeeps(l, v, s);
  }

  // ---------------------------------------------------------------- the log-space account

  lemma {:induction false} BeginKeepsAccount(l: Layout, v: Variant, s: Sys, p: nat)
    requires Shaped(l, s) && Exclusive(v, s) && Accounted(l, s) && Enabled(l, v, s, Begin(p))
    ensures Accounted(l, DoBegin(l, s, p))
  {
    hide Loggable, Fits;
    var x := if Admits(l, |s.blocks|, s.outstanding, s.committing) then InOp(s.nextop, {}) else Asleep;
    UnusedUpdate(l.maxop, s.procs, p, x);
    assert DoBegin(l, s, p).procs == s.procs[p := x];
    if x.InOp? {
      UnusedBound(l.maxop, s.procs);
      var r, n := Running(s.procs), |s.blocks|;
      assert n + Unused(l.maxop, s.procs) + l.maxop <= l.logsize by {
        assert n + (r + 1) * l.maxop <= l.logsize;
        assert (r + 1) * l.maxop == r * l.maxop + l.maxop;
      }
    }
  }

  lemma {:induction false} LogWriteAccount(l: Layout, s: Sys, p: nat, b: Uint, data: Block)
    requires Shaped(l, s) && Accounted(l, s) && p < |s.procs| && s.procs[p].InOp? && b < |s.disk| && !InLog(l, b)
    requires GuardsPass(l, |s.blocks|, s.outstanding)
    ensures Accounted(l, DoLogWrite(l, s, p, b, data)) <==> |s.procs[p].own + {b}| <= l.maxop
  {
    var t, own := DoLogWrite(l, s, p, b, data), s.procs[p].own;
    var x := InOp(s.procs[p].op, own + {b});
    assert t.procs[p] == x;
    UnusedUpdate(l.maxop, s.procs, p, x);
    assert |own| <= |own + {b}| by {
      if b in own {
        assert own + {b} == own;
      }
    }
    assert b !in s.blocks ==> b !in own && |own + {b}| == |own| + 1;
    forall c | c in s.blocks + [b]
      ensures c in t.blocks
    {
    }
  }

  lemma {:induction false} EndKeepsAccount(l: Layout, v: Variant, s: Sys, p: nat)
    requires Shaped(l, s) && Accounted(l, s) && Enabled(l, v, s, End(p))
    ensures Accounted(l, DoEnd(l, v, s, p))
  {
    hide Loggable, Fits;
    var t := DoEnd(l, v, s, p);
    var x := if t.procs[p].Committing? then Committing(0, |s.blocks|) else Outside;
    UnusedUpdate(l.maxop, s.procs, p, x);
    WakeCounts(l.maxop, s.procs[p := x]);
    assert t.procs in {s.procs, s.procs[p := x], WakeAll(s.procs[p := x])};
  }

  lemma {:induction false} CommitStepKeepsAccount(l: Layout, v: Variant, s: Sys, p: nat)
    requires Shaped(l, s) && ProcsOk(l, v, s) && Accounted(l, s) && Enabled(l, v, s, CommitStep(p))
    ensures Accounted(l, DoCommitStep(l, s, p))
  {
    var t := DoCommitStep(l, s, p);
    forall q | 0 <= q < |s.procs|
      ensures !s.procs[q].InOp?
    {
      if s.procs[q].InOp? {
        SomebodyRuns(s.procs, q);
      }
    }
    NobodyRuns(s.procs, l.maxop);
    NobodyRuns(t.procs, l.maxop);
  }

  /** A step that does not panic keeps the log-space account exactly if it stays within its
      operation's budget. */
  lemma {:induction false} StepKeepsAccount(l: Layout, v: Variant, s: Sys, a: Action)
    requires Shaped(l, s) && ProcsOk(l, v, s) && Accounted(l, s) && Enabled(l, v, s, a)
    requires !s.mode.Panicked? && !Next(l, v, s, a).mode.Panicked?
    ensures Accounted(l, Next(l, v, s, a)) <==> WithinBudget(l, s, a)
  {
    match a
    case Begin(p) => BeginKeepsAccount(l, v, s, p);
    case LogWrite(p, b, data) => LogWriteAccount(l, s, p, b, data);
    case End(p) => EndKeepsAccount(l, v, s, p);
    case Sync(p) => UnusedUpdate(l.maxop, s.procs, p, Committing(0, |s.blocks|));
    case CommitStep(p) => CommitStepKeepsAccount(l, v, s, p);
    case Crash => NobodyRuns(DoCrash(l, s).procs, l.maxop);
    case BootStep => NobodyRuns(s.procs, l.maxop);
  }

  /** When a call of log_write within the budget of its operation gets past the panic guards: a
      block new to the log does exactly if the log area still has a slot; a block already logged
      needs, although it takes no slot, a log that is not full. */
  lemma {:induction false} GuardsExactly(l: Layout, v: Variant, s: Sys, p: nat, b: Uint, data: Block)
    requires Shaped(l, s) && ProcsOk(l, v, s) && Enabled(l, v, s, LogWrite(p, b, data))
    requires Accounted(l, s) && WithinBudget(l, s, LogWrite(p, b, data))
    ensures b !in s.blocks ==> (Next(l, v, s, LogWrite(p, b, data)).mode.Up? <==> |s.blocks| + 1 < l.size)
    ensures b in s.blocks ==>
      (Next(l, v, s, LogWrite(p, b, data)).mode.Up? <==> |s.blocks| < l.logsize && |s.blocks| + 1 < l.size)
  {
    SomebodyRuns(s.procs, p);
    if b !in s.blocks {
      var own := s.procs[p].own;
      assert b !in own && |own + {b}| == |own| + 1;
      UnusedShare(l.maxop, s.procs, p);
    }
  }
}
