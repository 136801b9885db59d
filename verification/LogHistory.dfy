/** What the recorded history is: what the calls of log_write were given, in their order; and so what
    recovery and readers find is what callers stored. */
module LogHistory {
  import opened Blocks
  import opened LogDisk
  import opened LogCode
  import opened LogProtocol
  import opened LogProcs
  import opened LogSafety
  import opened LogTheorems

  /** The history `told` after action `a`: a call of log_write that is not a panic adds the data its
      caller gave for the block; a crash leaves the part that is safe. */
  function Said(l: Layout, s: Sys, a: Action, told: seq<Event>): seq<Event>
    requires s.durable <= |told|
  {
    match a
    case LogWrite(p, b, data) =>
      if p < |s.procs| && s.procs[p].InOp? && s.outstanding >= 1 && |s.blocks| < l.logsize && |s.blocks| + 1 < l.size
      then told + [Event(s.procs[p].op, Write(b, data))]
      else told
    case Crash => told[..s.durable]
    case _ => told
  }

  lemma {:induction false} StepSaid(l: Layout, v: Variant, s: Sys, a: Action)
    requires Shaped(l, s) && Enabled(l, v, s, a)
    ensures Next(l, v, s, a).history == Said(l, s, a, s.history)
  {
    hide NextCommitWrite, NextRecoveryWrite, Absorb, Put, Loggable, Fits;
  }

  /** The history after a run, from its actions. */
  ghost predicate Tells(l: Layout, v: Variant, s: Sys, run: seq<Action>, told: seq<Event>, end: seq<Event>)
    requires Shaped(l, s) && Possible(l, v, s, run)
    decreases |run|
  {
    if run == [] then end == told
    else s.durable <= |told| && Tells(l, v, Next(l, v, s, run[0]), run[1..], Said(l, s, run[0], told), end)
  }

  /** After every run the history is what its calls of log_write were given. */
  lemma {:induction false} HistoryIsTold(l: Layout, v: Variant, s: Sys, run: seq<Action>)
    requires Shaped(l, s) && Possible(l, v, s, run)
    ensures Tells(l, v, s, run, s.history, After(l, v, s, run).history)
    decreases |run|
  {
    hide Next, Enabled, Said, Fits, Loggable;
    if run != [] {
      StepSaid(l, v, s, run[0]);
      HistoryIsTold(l, v, Next(l, v, s, run[0]), run[1..]);
    }
  }

  /** What the last of `events` that names block `b` stored, or else `d[b]`. */
  function LastStored(d: Disk, events: seq<Event>, b: nat): (data: Block)
    requires b < |d|
  {
    if events == [] then d[b]
    else if events[|events| - 1].w.addr == b then events[|events| - 1].w.data
    else LastStored(d, events[..|events| - 1], b)
  }

  lemma {:induction false} EffectIsLast(d: Disk, events: seq<Event>, b: nat)
    requires b < |d|
    ensures Effect(d, events)[b] == LastStored(d, events, b)
  {
    if events == [] {
      ReplayNothing(d);
      assert WritesOf(events) == [];
    } else {
      var front, last := events[..|events| - 1], events[|events| - 1];
      assert events == front + [last];
      EffectAppend(d, front, last);
      hide Effect;
      EffectIsLast(d, front, b);
    }
  }

  /** Recovery after any run, cut at will, finds in every block outside the log what the last safe
      log_write of it was given, or what the disk had at the beginning. */
  lemma {:induction false} DataRecovered(l: Layout, v: Variant, d0: Disk, s0: Sys, run: seq<Action>, cuts: seq<nat>,
        b: nat)
    requires Initial(l, v, d0, s0) && Possible(l, v, s0, run) && b < |d0| && !InLog(l, b)
    ensures var s := After(l, v, s0, run);
      && Bootable(l, s.disk) && Bootable(l, AfterCuts(l, s.disk, cuts))
      && b < |Recover(l, AfterCuts(l, s.disk, cuts))|
      && Recover(l, AfterCuts(l, s.disk, cuts))[b] == LastStored(d0, s.history[..s.durable], b)
  {
    hide Next, Enabled, Possible, After, Recover, AfterCuts, Bootable, Effect, LastStored, SameHome;
    InitialInv(l, v, d0, s0);
    CrashSafety(l, v, d0, s0, run, cuts);
    var s := After(l, v, s0, run);
    HomeAt(l, Recover(l, AfterCuts(l, s.disk, cuts)), Effect(d0, s.history[..s.durable]), b);
    EffectIsLast(d0, s.history[..s.durable], b);
  }

  lemma {:induction false} HomeAt(l: Layout, d: Disk, e: Disk, b: nat)
    requires SameHome(l, d, e) && b < |e| && !InLog(l, b)
    ensures b < |d| && d[b] == e[b]
  {
  }

  /** And while the machine is up, a reader finds what the last log_write of the block was given. */
  lemma {:induction false} DataRead(l: Layout, v: Variant, d0: Disk, s0: Sys, run: seq<Action>, b: nat)
    requires Initial(l, v, d0, s0) && Possible(l, v, s0, run) && b < |d0| && !InLog(l, b)
    ensures var s := After(l, v, s0, run);
      s.mode.Up? ==> b < |s.mem| && s.mem[b] == LastStored(d0, s.history, b)
  {
    hide Possible, After;
    InitialInv(l, v, d0, s0);
    RunKeepsInv(l, v, d0, s0, run);
    var s := After(l, v, s0, run);
    if s.mode.Up? {
      CacheIsEffect(l, d0, s);
      EffectIsLast(d0, s.history, b);
    }
  }

  lemma {:induction false} CacheIsEffect(l: Layout, d0: Disk, s: Sys)
    requires Shaped(l, s) && DiskOk(l, d0, s) && s.mode.Up?
    ensures SameHome(l, s.mem, Effect(d0, s.history))
  {
    hide CutCommit, Effect, Bootable, PendingLogged, Ready;
    if p :| 0 <= p < |s.procs| && s.procs[p].Committing? && s.blocks != [] {
      var k := s.procs[p].k;
      forall b | 0 <= b < |s.mem| && !InLog(l, b)
        ensures s.mem[b] == s.image[b]
      {
        CutCommitHome(l, s.image, s.image, s.blocks, k, b);
      }
    }
  }
}
