/** Group commit as a state machine: any number of processes run begin_op, log_write, end_op and
    the steps of commit in any interleaving, one critical section or one disk write at a time,
    and the machine may crash between any two steps. The Eager variant is project1/log.c. The
    Deferred variant is project3/log.c (with `sync`), run by one process. */
module LogProtocol {
  import opened Blocks
  import opened LogDisk
  import opened LogCode

  datatype Variant = Eager | Deferred

  /** Where a process stands. `Outside` also covers a woken process about to retry begin_op. */
  datatype Proc =
    | Outside
    | Asleep
    | InOp(op: nat, own: set<nat>)    // operation number, and the blocks it has logged
    | Committing(k: nat, made: nat)   // about to do disk write k of a commit of `made` blocks

  datatype Mode = Up | Booting(k: nat) | Panicked(inEndOp: bool)

  datatype Event = Event(op: nat, w: Write)

  /** `history`, `durable`, `ended`, `nextop`, `base` and `image` only record the past:
      every logged write that has not been lost, how many of them are safe, the finished
      operations, and disk and cache as the running commit or recovery found them. */
  datatype Sys = Sys(
    mode: Mode, disk: Disk, mem: Disk, blocks: seq<Uint>, outstanding: int, committing: bool, procs: seq<Proc>,
    history: seq<Event>, durable: nat, ended: set<nat>, nextop: nat, base: Disk, image: Disk)

  datatype Action =
    | Begin(p: nat)
    | LogWrite(p: nat, b: Uint, data: Block)
    | End(p: nat)
    | Sync(p: nat)
    | CommitStep(p: nat)
    | Crash
    | BootStep

  // ---------------------------------------------------------------- the steps

  /** wakeup(&log) */
  function WakeAll(procs: seq<Proc>): (r: seq<Proc>)
    ensures |r| == |procs|
    ensures forall i :: 0 <= i < |r| ==> r[i] == if procs[i].Asleep? then Outside else procs[i]
  {
    seq(|procs|, i requires 0 <= i < |procs| => if procs[i].Asleep? then Outside else procs[i])
  }

  /** The parts of a state the steps need to be defined. */
  predicate Shaped(l: Layout, s: Sys) {
    && Fits(l, |s.disk|) && |s.mem| == |s.disk|
    && Loggable(l, |s.disk|, s.blocks)
    && s.durable <= |s.history|
  }

  predicate Enabled(l: Layout, v: Variant, s: Sys, a: Action)
    requires Shaped(l, s)
  {
    match a
    case Begin(p) => s.mode.Up? && p < |s.procs| && s.procs[p].Outside?
    case LogWrite(p, b, data) =>
      // the caller logs a block outside the log; nothing checks how many it has logged
      s.mode.Up? && p < |s.procs| && s.procs[p].InOp? && b < |s.disk| && !InLog(l, b)
    case End(p) => s.mode.Up? && p < |s.procs| && s.procs[p].InOp?
    case Sync(p) => v.Deferred? && s.mode.Up? && p < |s.procs| && s.procs[p].Outside?
    case CommitStep(p) =>
      && s.mode.Up? && p < |s.procs| && s.procs[p].Committing?
      && (s.blocks != [] ==> s.procs[p].k < 2 * |s.blocks| + 2)
    case Crash => true
    case BootStep => s.mode.Booting? && s.mode.k <= |s.blocks|
  }

  function DoBegin(l: Layout, s: Sys, p: nat): Sys
    requires p < |s.procs|
  {
    if Admits(l, |s.blocks|, s.outstanding, s.committing) then
      s.(outstanding := s.outstanding + 1, procs := s.procs[p := InOp(s.nextop, {})], nextop := s.nextop + 1)
    else
      s.(procs := s.procs[p := Asleep])
  }

  function DoLogWrite(l: Layout, s: Sys, p: nat, b: Uint, data: Block): Sys
    requires Shaped(l, s) && p < |s.procs| && s.procs[p].InOp? && b < |s.disk| && !InLog(l, b)
  {
    if GuardsPass(l, |s.blocks|, s.outstanding) then
      s.(mem := s.mem[b := data],
         blocks := Absorb(s.blocks, b),
         procs := s.procs[p := InOp(s.procs[p].op, s.procs[p].own + {b})],
         history := s.history + [Event(s.procs[p].op, Write(b, data))])
    else
      s.(mode := Panicked(false))
  }

  function StartCommit(s: Sys, p: nat): Sys
    requires p < |s.procs|
  {
    s.(committing := true, procs := s.procs[p := Committing(0, |s.blocks|)], base := s.disk, image := s.mem)
  }

  function DoEnd(l: Layout, v: Variant, s: Sys, p: nat): Sys
    requires p < |s.procs| && s.procs[p].InOp?
  {
    var t := s.(outstanding := s.outstanding - 1, ended := s.ended + {s.procs[p].op});
    if s.committing then t.(mode := Panicked(true))
    else if v.Eager? then
      if t.outstanding == 0 then StartCommit(t, p) else t.(procs := WakeAll(s.procs[p := Outside]))
    else
      if t.outstanding > 0 then t.(procs := WakeAll(s.procs[p := Outside]))
      else if MustSync(l, |s.blocks|) then StartCommit(t, p)
      else t.(procs := s.procs[p := Outside])
  }

  function DoCommitStep(l: Layout, s: Sys, p: nat): Sys
    requires Shaped(l, s) && p < |s.procs| && s.procs[p].Committing?
    requires s.blocks != [] ==> s.procs[p].k < 2 * |s.blocks| + 2
  {
    if s.blocks == [] then
      s.(committing := false, procs := WakeAll(s.procs[p := Outside]))
    else
      var k, n := s.procs[p].k, |s.blocks|;
      var w := NextCommitWrite(l, s.mem, s.blocks, k);
      s.(mem := Put(s.mem, w), disk := Put(s.disk, w),
         procs := s.procs[p := Committing(k + 1, s.procs[p].made)],
         blocks := if k == 2 * n + 1 then [] else s.blocks,
         durable := if k == n then |s.history| else s.durable)
  }

  /** Memory is lost. Rebooting starts with read_head. */
  function DoCrash(l: Layout, s: Sys): Sys
    requires Shaped(l, s)
  {
    s.(mode := Booting(0), mem := s.disk, base := s.disk,
       blocks := if Bootable(l, s.disk) then Committed(l, s.disk) else [],
       outstanding := 0, committing := false, procs := seq(|s.procs|, _ => Outside),
       history := s.history[..s.durable])
  }

  function DoBootStep(l: Layout, s: Sys): Sys
    requires Shaped(l, s) && s.mode.Booting? && s.mode.k <= |s.blocks|
  {
    var k := s.mode.k;
    var w := NextRecoveryWrite(l, s.mem, s.blocks, k);
    s.(mem := Put(s.mem, w), disk := Put(s.disk, w),
       mode := if k == |s.blocks| then Up else Booting(k + 1),
       blocks := if k == |s.blocks| then [] else s.blocks)
  }

  function Next(l: Layout, v: Variant, s: Sys, a: Action): (t: Sys)
    requires Shaped(l, s) && Enabled(l, v, s, a)
    ensures Shaped(l, t)
  {
    match a
    case Begin(p) => DoBegin(l, s, p)
    case LogWrite(p, b, data) => DoLogWrite(l, s, p, b, data)
    case End(p) => DoEnd(l, v, s, p)
    case Sync(p) => StartCommit(s, p)
    case CommitStep(p) => DoCommitStep(l, s, p)
    case Crash => DoCrash(l, s)
    case BootStep => DoBootStep(l, s)
  }

  /** Every action of `run` can be taken where it stands. */
  predicate Possible(l: Layout, v: Variant, s: Sys, run: seq<Action>)
    requires Shaped(l, s)
    decreases |run|
  {
    run == [] || (Enabled(l, v, s, run[0]) && Possible(l, v, Next(l, v, s, run[0]), run[1..]))
  }

  function After(l: Layout, v: Variant, s: Sys, run: seq<Action>): (t: Sys)
    requires Shaped(l, s) && Possible(l, v, s, run)
    ensures Shaped(l, t)
    decreases |run|
  {
    if run == [] then s else After(l, v, Next(l, v, s, run[0]), run[1..])
  }

  /** The operation that logs a block has, with it, logged at most MAXOPBLOCKS different ones. */
  predicate WithinBudget(l: Layout, s: Sys, a: Action) {
    a.LogWrite? && a.p < |s.procs| && s.procs[a.p].InOp? ==> |s.procs[a.p].own + {a.b}| <= l.maxop
  }

  /** Every operation of `run` stays within its budget. */
  predicate Budgeted(l: Layout, v: Variant, s: Sys, run: seq<Action>)
    requires Shaped(l, s) && Possible(l, v, s, run)
    decreases |run|
  {
    run == [] || (WithinBudget(l, s, run[0]) && Budgeted(l, v, Next(l, v, s, run[0]), run[1..]))
  }

  /** The machine just after a first boot from disk `d` with an empty log. */
  predicate Initial(l: Layout, v: Variant, d: Disk, s: Sys) {
    && Bootable(l, d) && Committed(l, d) == []
    && l.maxop <= l.logsize
    && (v.Deferred? ==> |s.procs| == 1)
    && s == Sys(Up, d, d, [], 0, false, seq(|s.procs|, _ => Outside), [], 0, {}, 0, d, d)
  }
}
