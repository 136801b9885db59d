/** Every run of the scheduler: any sequence of forks, dispatches, yields, sleeps, wakeups, kills,
    exits, waits, lock calls, priority changes and boosts, on any number of processors. */
module MlfqRuns {
  import opened MlfqSpec
  import opened Wrappers
  import opened MlfqInv

  datatype Action =
    | Alloc
    | Abandon(p: nat)
    | Start(p: nat, parent: Option<nat>)
    | Dispatch
    | Yield(p: nat)
    | Sleep(p: nat, chan: Chan)
    | Wakeup(chan: Chan)
    | Kill(pid: int)
    | Exit(p: nat)
    | Wait(p: nat)
    | SetPriority(pid: int, priority: int)
    | Lock(p: nat)
    | Unlock(p: nat)
    | Boost

  predicate IsIn(t: Table, p: nat, s: State)
    requires Shaped(t)
  {
    p < NPROC && t.proc[p].state == s
  }

  /** Who may take which step. */
  predicate Enabled(t: Table, a: Action)
    requires Shaped(t)
  {
    match a
    case Abandon(p) => IsIn(t, p, EMBRYO)
    case Start(p, parent) => IsIn(t, p, EMBRYO)
    case Yield(p) => IsIn(t, p, RUNNING)
    case Sleep(p, chan) => IsIn(t, p, RUNNING)
    case Exit(p) => IsIn(t, p, RUNNING) && p != t.init
    case Wait(p) => IsIn(t, p, RUNNING)
    case Lock(p) => IsIn(t, p, RUNNING)
    case Unlock(p) => IsIn(t, p, RUNNING)
    case _ => true
  }

  function Next(t: Table, a: Action): (r: Table)
    requires Shaped(t) && Enabled(t, a)
    ensures Shaped(r)
  {
    match a
    case Alloc => Allocated(t)
    case Abandon(p) => Abandoned(t, p)
    case Start(p, parent) => Started(t, p, parent)
    case Dispatch => Dispatched(t)
    case Yield(p) => Yielded(t, p)
    case Sleep(p, chan) => Slept(t, p, chan)
    case Wakeup(chan) => Woken(t, chan)
    case Kill(pid) => Killed(t, pid)
    case Exit(p) => Exited(t, p)
    case Wait(p) => Reaped(t, p)
    case SetPriority(pid, priority) => PrioritySet(t, pid, priority)
    case Lock(p) => Locked(t, p)
    case Unlock(p) => Unlocked(t, p)
    case Boost => PriorityBoosted(t)
  }

  predicate Possible(t: Table, run: seq<Action>)
    requires Shaped(t)
    decreases |run|
  {
    run == [] || (Enabled(t, run[0]) && Possible(Next(t, run[0]), run[1..]))
  }

  function After(t: Table, run: seq<Action>): (r: Table)
    requires Shaped(t) && Possible(t, run)
    ensures Shaped(r)
    decreases |run|
  {
    if run == [] then t else After(Next(t, run[0]), run[1..])
  }

  /** The step does not put the holder of the scheduler lock to sleep. */
  predicate Awake(t: Table, a: Action) {
    a.Sleep? ==> t.lock != Some(a.p)
  }

  /** The holder of the scheduler lock never sleeps. */
  predicate HolderAwake(t: Table, run: seq<Action>)
    requires Shaped(t) && Possible(t, run)
    decreases |run|
  {
    run == [] || (Awake(t, run[0]) && HolderAwake(Next(t, run[0]), run[1..]))
  }

  // ---------------------------------------------------------------- the invariant over runs

  lemma {:induction false} PidIsSelf(t: Table, p: nat)
    requires TableOk(t) && p < NPROC && t.proc[p].state == RUNNING
    ensures HoldsLock(t, p) <==> t.lock == Some(p)
  {
  }

  lemma {:induction false} KillKeeps(t: Table, pid: int)
    requires TableOk(t)
    ensures TableOk(Killed(t, pid))
  {
    var p := SlotOf(t, pid, 0);
    if p < NPROC {
      QuietKeeps(t, p, t.proc[p].(killed := true));
      if t.proc[p].state == SLEEPING {
        ReadyKeeps(t.(proc := t.proc[p := t.proc[p].(killed := true)]), p);
      }
    }
  }

  lemma {:induction false} StartKeeps(t: Table, p: nat, parent: Option<nat>)
    requires TableOk(t) && IsIn(t, p, EMBRYO)
    ensures TableOk(Started(t, p, parent))
  {
    ParentKeeps(t, p, parent);
    ReadyKeeps(t.(proc := t.proc[p := t.proc[p].(parent := parent)]), p);
  }

  lemma {:induction false} YieldKeeps(t: Table, p: nat)
    requires TableOk(t) && IsIn(t, p, RUNNING)
    ensures TableOk(Yielded(t, p))
  {
    PidIsSelf(t, p);
    if t.lock != Some(p) {
      ReadyKeeps(t, p);
    }
  }

  lemma {:induction false} LockKeeps(t: Table, p: nat)
    requires TableOk(t) && IsIn(t, p, RUNNING)
    ensures TableOk(Locked(t, p))
  {
  }

  lemma {:induction false} SetPriorityKeeps(t: Table, pid: int, priority: int)
    requires TableOk(t)
    ensures TableOk(PrioritySet(t, pid, priority))
  {
  }

  /** Every step keeps the queue invariant, if the holder of the scheduler lock does not sleep. */
  lemma {:induction false} StepKeeps(t: Table, a: Action)
    requires TableOk(t) && Enabled(t, a) && Awake(t, a)
    ensures TableOk(Next(t, a))
  {
    hide InRange, Queued, PidsOk;
    hide Allocated, Started, Dispatched, Yielded, Woken, Killed, Exited, Reaped, PrioritySet, Locked, Unlocked;
    hide PriorityBoosted;
    match a
    case Alloc => AllocKeeps(t);
    case Abandon(p) => InBounds(t, p); StateKeeps(t, p, t.proc[p].(state := UNUSED));
    case Start(p, parent) => StartKeeps(t, p, parent);
    case Dispatch => DispatchKeeps(t);
    case Yield(p) => YieldKeeps(t, p);
    case Sleep(p, chan) => InBounds(t, p); StateKeeps(t, p, t.proc[p].(chan := Some(chan), state := SLEEPING));
    case Wakeup(chan) => WakeupKeeps(t, chan);
    case Kill(pid) => KillKeeps(t, pid);
    case Exit(p) => ExitKeeps(t, p);
    case Wait(p) => ReapKeeps(t, p);
    case SetPriority(pid, priority) => SetPriorityKeeps(t, pid, priority);
    case Lock(p) => LockKeeps(t, p);
    case Unlock(p) => UnlockKeeps(t, p);
    case Boost => BoostKeeps(t);
  }

  lemma {:induction false} WakeupKeeps(t: Table, chan: Chan)
    requires TableOk(t)
    ensures TableOk(Woken(t, chan))
  {
    WakeKeeps(t, chan, 0);
  }

  lemma {:induction false} InBounds(t: Table, p: nat)
    requires TableOk(t) && p < NPROC
    ensures 0 <= t.proc[p].priority <= 3
  {
  }

  lemma {:induction false} ReapKeeps(t: Table, p: nat)
    requires TableOk(t) && p < NPROC
    ensures TableOk(Reaped(t, p))
  {
  }

  /** The queue invariant holds after every such run. */
  lemma {:induction false} RunKeeps(t: Table, run: seq<Action>)
    requires TableOk(t) && Possible(t, run) && HolderAwake(t, run)
    ensures TableOk(After(t, run))
    decreases |run|
  {
    hide InRange, Queued, PidsOk, HolderRuns, Next, Enabled, Awake;
    if run != [] {
      StepKeeps(t, run[0]);
      RunKeeps(Next(t, run[0]), run[1..]);
    }
  }

  /** The table pinit leaves, with userinit's process about to start in slot 0. */
  predicate Initial(t: Table) {
    && Shaped(t) && t.l == [[], [], []] && t.lock == None && t.nextpid == 1 && t.init == 0
    && forall p :: 0 <= p < NPROC ==> t.proc[p] == Proc(UNUSED, 0, None, None, false, 0, 0, 0)
  }

  lemma {:induction false} InitialOk(t: Table)
    requires Initial(t)
    ensures TableOk(t)
  {
  }

  /** From boot on, after any run: the invariant holds, and there is room for one more process in
      every queue as long as some process is not RUNNABLE, so that no enqueue drops anyone. */
  lemma {:induction false} EveryRun(t: Table, run: seq<Action>)
    requires Initial(t) && Possible(t, run) && HolderAwake(t, run)
    ensures TableOk(After(t, run))
    ensures var r := After(t, run);
      forall i, p :: 0 <= i < 3 && 0 <= p < NPROC && r.proc[p].state != RUNNABLE ==> |r.l[i]| < NPROC
  {
    hide Initial, After, Possible, HolderAwake;
    InitialOk(t);
    RunKeeps(t, run);
    var r := After(t, run);
    hide InRange, PidsOk, Queued;
    forall i, p | 0 <= i < 3 && 0 <= p < NPROC && r.proc[p].state != RUNNABLE
      ensures |r.l[i]| < NPROC
    {
      NeverDrops(r, i, p);
    }
  }

  // ---------------------------------------------------------------- without the assumption on sleep

  /** Everything but "the holder runs". */
  ghost predicate OkButLock(t: Table) {
    Shaped(t) && InRange(t) && Queued(t) && PidsOk(t)
  }

  /** The holder of the scheduler lock does not stand in the second half of L1 or of L2. */
  predicate HolderMoved(t: Table)
    requires Shaped(t)
  {
    t.lock.Some? ==>
      t.lock.value !in t.l[1][MovedCount(|t.l[1]|)..] && t.lock.value !in t.l[2][MovedCount(|t.l[2]|)..]
  }

  /** Boosting also resets the level of the lock holder without moving it. If the holder may have
      slept and been woken, the invariant survives boosting exactly if boosting does not leave the
      holder behind in L1 or L2. */
  lemma {:induction false} BoostNeedsHolderMoved(t: Table)
    requires OkButLock(t)
    ensures Queued(PriorityBoosted(t)) <==> HolderMoved(t)
    ensures HolderMoved(t) ==> OkButLock(PriorityBoosted(t))
  {
    hide PriorityBoosted, MovedCount;
    var u := t.(lock := None);
    assert TableOk(u);
    BoostKeeps(u);
    BoostLists(u);
    MovedIsHalf(|t.l[1]|);
    MovedIsHalf(|t.l[2]|);
    var r := PriorityBoosted(u);
    if t.lock.Some? {
      var h := t.lock.value;
      LockLast(t);
      var s := PriorityBoosted(t);
      hide InRange, PidsOk, HolderRuns;
      if h in r.l[1] || h in r.l[2] {
        var i := if h in r.l[1] then 1 else 2;
        var j :| 0 <= j < |r.l[i]| && r.l[i][j] == h;
        assert s.l[i][j] == h && s.proc[s.l[i][j]].level == 0;
      } else {
        BoostFieldsKeep(r, h);
      }
    }
  }

  lemma {:induction false} MovedIsHalf(n: nat)
    ensures MovedCount(n) == (n + 1) / 2
  {
  }

  lemma {:induction false} LockLast(t: Table)
    requires Shaped(t) && t.lock.Some?
    ensures var r := PriorityBoosted(t.(lock := None));
      PriorityBoosted(t) == r.(proc := r.proc[t.lock.value := Boosted(r.proc[t.lock.value])])
  {
  }

  /** The second of two processes in L1 holds the lock: it is left behind, at level 0. */
  lemma {:induction false} HolderLeftBehind()
    ensures exists t ::
      && OkButLock(t) && t.lock == Some(1) && t.l == [[], [0, 1], []]
      && PriorityBoosted(t).l[1] == [1] && PriorityBoosted(t).proc[1].level == 0
      && !Queued(PriorityBoosted(t))
  {
    hide TwoOf, InRange, Queued, PidsOk, PriorityBoosted;
    var x := Proc(RUNNABLE, 0, None, None, false, 3, 0, 1);
    TwoOfOk(x);
    var u := TwoOf(x);
    var t := u.(lock := Some(1));
    assert OkButLock(u) && t.l == [[], [0, 1], []];
    LockIrrelevant(u, Some(1));
    BoostNeedsHolderMoved(t);
    assert u == t.(lock := None);
    BoostLists(u);
    LockLast(t);
    assert t.l[1][1..] == [1];
  }

  lemma {:induction false} LockIrrelevant(t: Table, lock: Option<nat>)
    requires OkButLock(t) && (lock.Some? ==> lock.value < NPROC)
    ensures OkButLock(t.(lock := lock))
  {
  }

  // The other steps do the same whoever holds the lock.

  function Bare(t: Table): Table {
    t.(lock := None)
  }

  lemma {:induction false} WokenBare(t: Table, chan: Chan, i: nat)
    requires Shaped(t) && i <= NPROC
    ensures WokenFrom(Bare(t), chan, i) == Bare(WokenFrom(t, chan, i))
    decreases NPROC - i
  {
    if i < NPROC {
      WokenBare(if SleepsOn(t, i, chan) then MadeReady(t, i) else t, chan, i + 1);
    }
  }

  lemma {:induction false} OrphanedBare(t: Table, p: nat, i: nat)
    requires Shaped(t) && i <= NPROC
    ensures OrphanedFrom(Bare(t), p, i) == Bare(OrphanedFrom(t, p, i))
    decreases NPROC - i
  {
    hide WokenFrom;
    if i < NPROC {
      var u := t.(proc := t.proc[i := t.proc[i].(parent := Some(t.init))]);
      WokenBare(u, OnProc(t.init), 0);
      OrphanedBare(OrphanedOne(t, p, i), p, i + 1);
    }
  }

  lemma {:induction false} ExitedBare(t: Table, p: nat)
    requires Shaped(t) && p < NPROC
    ensures Exited(Bare(t), p) == Exited(t, p)
  {
    hide WokenFrom, OrphanedFrom;
    var parent := t.proc[p].parent;
    if parent.Some? {
      WokenBare(t, OnProc(parent.value), 0);
    }
    OrphanedBare(if parent.Some? then Woken(t, OnProc(parent.value)) else t, p, 0);
  }

  lemma {:induction false} SlotOfBare(t: Table, pid: int, i: nat)
    requires Shaped(t) && i <= NPROC
    ensures SlotOf(Bare(t), pid, i) == SlotOf(t, pid, i)
    decreases NPROC - i
  {
    if i < NPROC {
      SlotOfBare(t, pid, i + 1);
    }
  }

  lemma {:induction false} FirstUnusedBare(t: Table, i: nat)
    requires Shaped(t) && i <= NPROC
    ensures FirstUnused(Bare(t), i) == FirstUnused(t, i)
    decreases NPROC - i
  {
    if i < NPROC {
      FirstUnusedBare(t, i + 1);
    }
  }

  lemma {:induction false} ZombieOfBare(t: Table, p: nat, i: nat)
    requires Shaped(t) && i <= NPROC && p < NPROC
    ensures ZombieOf(Bare(t), p, i) == ZombieOf(t, p, i)
    decreases NPROC - i
  {
    if i < NPROC {
      ZombieOfBare(t, p, i + 1);
    }
  }

  lemma {:induction false} StepBare(t: Table, a: Action)
    requires Shaped(t) && Enabled(t, a) && !a.Yield? && !a.Lock? && !a.Unlock? && !a.Boost?
    ensures Enabled(Bare(t), a) && Bare(Next(t, a)) == Bare(Next(Bare(t), a))
  {
    hide WokenFrom, Exited, SlotOf, FirstUnused, ZombieOf, Best, Find;
    match a
    case Alloc => FirstUnusedBare(t, 0);
    case Wakeup(chan) => WokenBare(t, chan, 0);
    case Kill(pid) => SlotOfBare(t, pid, 0);
    case Exit(p) => ExitedBare(t, p);
    case Wait(p) => ZombieOfBare(t, p, 0);
    case SetPriority(pid, priority) => SlotOfBare(t, pid, 0);
    case _ =>
  }

  lemma {:induction false} BareOk(t: Table)
    requires Shaped(t)
    ensures OkButLock(t) ==> TableOk(Bare(t))
    ensures OkButLock(t) <==> OkButLock(Bare(t))
  {
  }

  lemma {:induction false} UnlockButLock(t: Table, p: nat)
    requires OkButLock(t) && IsIn(t, p, RUNNING)
    ensures OkButLock(Unlocked(t, p))
  {
    var u := t.(lock := Some(p));
    LockIrrelevant(t, Some(p));
    assert HoldsLock(t, p) ==> Unlocked(t, p) == Unlocked(u, p);
    UnlockKeeps(u, p);
  }

  /** Whoever holds the lock and whatever the holder does, every step keeps everything but "the
      holder runs", except exactly a boost that leaves the holder behind. */
  lemma {:induction false} StepKeepsButLock(t: Table, a: Action)
    requires OkButLock(t) && Enabled(t, a)
    ensures OkButLock(Next(t, a)) <==> (a.Boost? ==> HolderMoved(t))
  {
    BareOk(t);
    BareOk(Next(t, a));
    hide InRange, Queued, PidsOk, MadeReady, PriorityBoosted, Unlocked, HolderMoved;
    match a
    case Boost => BoostNeedsHolderMoved(t);
    case Yield(p) => YieldKeeps(Bare(t), p); YieldBare(t, p);
    case Lock(p) => LockIrrelevant(t, Some(p));
    case Unlock(p) => UnlockButLock(t, p);
    case _ =>
      StepBare(t, a);
      hide Next;
      StepKeeps(Bare(t), a);
      BareOk(Next(Bare(t), a));
  }

  lemma {:induction false} YieldBare(t: Table, p: nat)
    requires Shaped(t) && p < NPROC
    ensures Yielded(t, p) == t || Bare(Yielded(t, p)) == Yielded(Bare(t), p)
  {
  }

  /** Every boost finds the holder of the lock, if there is one, where it does not leave it behind. */
  predicate BoostsMoveHolder(t: Table, run: seq<Action>)
    requires Shaped(t) && Possible(t, run)
    decreases |run|
  {
    run == [] || ((run[0].Boost? ==> HolderMoved(t)) && BoostsMoveHolder(Next(t, run[0]), run[1..]))
  }

  /** Sleep allowed to anyone, the queues are right after every run whose boosts leave no holder behind. */
  lemma {:induction false} RunKeepsButLock(t: Table, run: seq<Action>)
    requires OkButLock(t) && Possible(t, run) && BoostsMoveHolder(t, run)
    ensures OkButLock(After(t, run))
    decreases |run|
  {
    hide InRange, Queued, PidsOk, Next, Enabled, HolderMoved;
    if run != [] {
      StepKeepsButLock(t, run[0]);
      RunKeepsButLock(Next(t, run[0]), run[1..]);
    }
  }

  /** From boot on the same holds, and no enqueue drops anyone. */
  lemma {:induction false} EveryFreeRun(t: Table, run: seq<Action>)
    requires Initial(t) && Possible(t, run) && BoostsMoveHolder(t, run)
    ensures OkButLock(After(t, run))
    ensures var r := After(t, run);
      forall i, p :: 0 <= i < 3 && 0 <= p < NPROC && r.proc[p].state != RUNNABLE ==> |r.l[i]| < NPROC
  {
    hide Initial, After, Possible, BoostsMoveHolder;
    InitialOk(t);
    RunKeepsButLock(t, run);
    var r := After(t, run);
    hide InRange, PidsOk, Queued;
    forall i, p | 0 <= i < 3 && 0 <= p < NPROC && r.proc[p].state != RUNNABLE
      ensures |r.l[i]| < NPROC
    {
      NeverDrops(r, i, p);
    }
  }

  /** A run in which the holder never sleeps is one. */
  lemma {:induction false} AwakeIsMoved(t: Table, run: seq<Action>)
    requires TableOk(t) && Possible(t, run) && HolderAwake(t, run)
    ensures BoostsMoveHolder(t, run)
    decreases |run|
  {
    assert HolderMoved(t);
    hide InRange, Queued, PidsOk, HolderRuns, Next, Enabled, Awake, HolderMoved;
    if run != [] {
      StepKeeps(t, run[0]);
      AwakeIsMoved(Next(t, run[0]), run[1..]);
    }
  }

  // ---------------------------------------------------------------- order in L0

  lemma {:induction false} ReadyAppends(t: Table, p: nat)
    requires Shaped(t) && p < NPROC
    ensures t.l[0] <= MadeReady(t, p).l[0]
  {
  }

  lemma {:induction false} WakeAppends(t: Table, chan: Chan, i: nat)
    requires Shaped(t) && i <= NPROC
    ensures t.l[0] <= WokenFrom(t, chan, i).l[0]
    decreases NPROC - i
  {
    hide MadeReady;
    if i < NPROC {
      if SleepsOn(t, i, chan) {
        ReadyAppends(t, i);
        WakeAppends(MadeReady(t, i), chan, i + 1);
      } else {
        WakeAppends(t, chan, i + 1);
      }
    }
  }

  lemma {:induction false} OrphanAppends(t: Table, p: nat, i: nat)
    requires Shaped(t) && i <= NPROC
    ensures t.l[0] <= OrphanedFrom(t, p, i).l[0]
    decreases NPROC - i
  {
    hide WokenFrom;
    if i < NPROC {
      var u := t.(proc := t.proc[i := t.proc[i].(parent := Some(t.init))]);
      WakeAppends(u, OnProc(t.init), 0);
      OrphanAppends(OrphanedOne(t, p, i), p, i + 1);
    }
  }

  lemma {:induction false} ExitAppends(t: Table, p: nat)
    requires Shaped(t) && p < NPROC
    ensures t.l[0] <= Exited(t, p).l[0]
  {
    hide WokenFrom, OrphanedFrom;
    var parent := t.proc[p].parent;
    if parent.Some? {
      WakeAppends(t, OnProc(parent.value), 0);
    }
    var u := if parent.Some? then Woken(t, OnProc(parent.value)) else t;
    OrphanAppends(u, p, 0);
  }

  lemma {:induction false} KillAppends(t: Table, pid: int)
    requires Shaped(t)
    ensures t.l[0] <= Killed(t, pid).l[0]
  {
  }

  /** No step but a dispatch and schedulerUnlock disturbs those waiting in L0. */
  lemma {:induction false} L0OnlyGrows(t: Table, a: Action)
    requires OkButLock(t) && Enabled(t, a) && !a.Dispatch? && !a.Unlock?
    ensures t.l[0] <= Next(t, a).l[0]
  {
    hide InRange, Queued, PidsOk, WokenFrom, Exited, Killed, PriorityBoosted, MadeReady;
    match a
    case Start(p, parent) => ReadyAppends(t.(proc := t.proc[p := t.proc[p].(parent := parent)]), p);
    case Yield(p) => ReadyAppends(t, p);
    case Wakeup(chan) => WakeAppends(t, chan, 0);
    case Kill(pid) => KillAppends(t, pid);
    case Exit(p) => ExitAppends(t, p);
    case Boost => BoostGrowsL0(t);
    case _ =>
  }

  lemma {:induction false} BoostGrowsL0(t: Table)
    requires OkButLock(t)
    ensures t.l[0] <= PriorityBoosted(t).l[0]
  {
    BareOk(t);
    hide InRange, Queued, PidsOk, PriorityBoosted;
    BoostLists(Bare(t));
    if t.lock.Some? {
      LockLast(t);
    } else {
      assert Bare(t) == t;
    }
  }

  lemma {:induction false} DispatchTakesFront(t: Table)
    requires OkButLock(t) && t.l[0] != []
    ensures Dispatched(t).l[0] == t.l[0][1..]
    ensures Dispatched(t).proc[t.l[0][0]].state == RUNNING
    ensures TopQueue(t) == 0 && Picked(t, 0) == t.l[0][0]
  {
  }

  function Dispatches(run: seq<Action>): (n: nat) {
    if run == [] then 0 else (if run[0].Dispatch? then 1 else 0) + Dispatches(run[1..])
  }

  ghost predicate NoUnlock(run: seq<Action>) {
    forall k :: 0 <= k < |run| ==> !run[k].Unlock?
  }

  /** First come, first served: in any run without schedulerUnlock, the process at index `j` of L0
      moves up one place with each dispatch, so the dispatch after `j` others picks it. */
  lemma {:induction false} L0InOrder(t: Table, run: seq<Action>, j: nat)
    requires OkButLock(t) && Possible(t, run) && BoostsMoveHolder(t, run) && NoUnlock(run)
    requires j < |t.l[0]| && Dispatches(run) <= j
    ensures var r := After(t, run);
      && j - Dispatches(run) < |r.l[0]| && r.l[0][j - Dispatches(run)] == t.l[0][j]
      && (Dispatches(run) == j ==> TopQueue(r) == 0 && Picked(r, 0) == t.l[0][j])
    decreases |run|
  {
    hide InRange, Queued, PidsOk, Next, Enabled, HolderMoved;
    if run == [] {
      if j == 0 {
        DispatchTakesFront(t);
      }
    } else {
      var a := run[0];
      var u := Next(t, a);
      StepKeepsButLock(t, a);
      assert NoUnlock(run[1..]) by {
        assert forall k :: 0 <= k < |run[1..]| ==> run[1..][k] == run[k+1];
      }
      L0Moves(t, a);
      L0InOrder(u, run[1..], if a.Dispatch? then j - 1 else j);
    }
  }

  lemma {:induction false} L0Moves(t: Table, a: Action)
    requires OkButLock(t) && Enabled(t, a) && !a.Unlock? && t.l[0] != []
    ensures if a.Dispatch? then Next(t, a).l[0] == t.l[0][1..] else t.l[0] <= Next(t, a).l[0]
  {
    hide InRange, Queued, PidsOk, Dispatched;
    if a.Dispatch? {
      DispatchTakesFront(t);
    } else {
      L0OnlyGrows(t, a);
    }
  }

  // ---------------------------------------------------------------- decay

  /** Level, used time and priority of a process after `k` turns, counted from its creation. */
  predicate HasHad(x: Proc, k: nat) {
    && x.level == (if k < 4 then 0 else if k < 10 then 1 else 2)
    && x.usedtime == (if k < 4 then k else if k < 10 then k - 4 else (k - 10) % 8)
    && x.priority == (if k < 10 then 3 else if (k - 10) / 8 < 3 then 3 - (k - 10) / 8 else 0)
  }

  lemma {:induction false} OneMoreTurn(x: Proc, k: nat)
    requires HasHad(x, k)
    ensures HasHad(Charged(x), k + 1)
  {
  }

  predicate SameScheduling(x: Proc, y: Proc) {
    x.level == y.level && x.usedtime == y.usedtime && x.priority == y.priority
  }

  lemma {:induction false} WakeCharges(t: Table, chan: Chan, i: nat, p: nat)
    requires Shaped(t) && i <= NPROC && p < NPROC
    ensures SameScheduling(WokenFrom(t, chan, i).proc[p], t.proc[p])
    decreases NPROC - i
  {
    if i < NPROC {
      WakeCharges(if SleepsOn(t, i, chan) then MadeReady(t, i) else t, chan, i + 1, p);
    }
  }

  lemma {:induction false} OrphanCharges(t: Table, q: nat, i: nat, p: nat)
    requires Shaped(t) && i <= NPROC && p < NPROC
    ensures SameScheduling(OrphanedFrom(t, q, i).proc[p], t.proc[p])
    decreases NPROC - i
  {
    hide WokenFrom;
    if i < NPROC {
      WakeCharges(t.(proc := t.proc[i := t.proc[i].(parent := Some(t.init))]), OnProc(t.init), 0, p);
      OrphanCharges(OrphanedOne(t, q, i), q, i + 1, p);
    }
  }

  lemma {:induction false} ExitCharges(t: Table, q: nat, p: nat)
    requires Shaped(t) && q < NPROC && p < NPROC
    ensures SameScheduling(Exited(t, q).proc[p], t.proc[p])
  {
    hide WokenFrom, OrphanedFrom;
    var parent := t.proc[q].parent;
    if parent.Some? {
      WakeCharges(t, OnProc(parent.value), 0, p);
    }
    var u := if parent.Some? then Woken(t, OnProc(parent.value)) else t;
    OrphanCharges(u, q, 0, p);
  }

  /** The step gives a turn to `p`. */
  predicate Turn(t: Table, a: Action, p: nat)
    requires Shaped(t)
  {
    a.Dispatch? && TopQueue(t) < 3 && Picked(t, TopQueue(t)) == p
  }

  /** The step leaves the scheduling fields of `p` to the scheduler. */
  predicate Undisturbed(t: Table, a: Action, p: nat)
    requires Shaped(t)
  {
    !a.Boost? && !a.SetPriority? && a != Unlock(p) && (a.Alloc? ==> FirstUnused(t, 0) != p)
  }

  lemma {:induction false} StepCharges(t: Table, a: Action, p: nat)
    requires Shaped(t) && Enabled(t, a) && p < NPROC && Undisturbed(t, a, p)
    ensures if Turn(t, a, p) then Next(t, a).proc[p] == Charged(t.proc[p].(state := RUNNING))
      else SameScheduling(Next(t, a).proc[p], t.proc[p])
  {
    hide WokenFrom, OrphanedFrom, Charged, Exited;
    match a
    case Wakeup(chan) => WakeCharges(t, chan, 0, p);
    case Exit(q) => ExitCharges(t, q, p);
    case _ =>
  }

  predicate AllUndisturbed(t: Table, run: seq<Action>, p: nat)
    requires Shaped(t) && Possible(t, run)
    decreases |run|
  {
    run == [] || (Undisturbed(t, run[0], p) && AllUndisturbed(Next(t, run[0]), run[1..], p))
  }

  function Turns(t: Table, run: seq<Action>, p: nat): (n: nat)
    requires Shaped(t) && Possible(t, run)
    decreases |run|
  {
    if run == [] then 0
    else (if Turn(t, run[0], p) then 1 else 0) + Turns(Next(t, run[0]), run[1..], p)
  }

  /** Decay in closed form: in any run without boosting, schedulerUnlock or setPriority, a
      process's level, used time and priority depend only on how many turns it has had: L1 after
      4, L2 after 10, and one step of priority for every 8 after that. */
  lemma {:induction false} Decay(t: Table, run: seq<Action>, p: nat, k: nat)
    requires Shaped(t) && Possible(t, run) && p < NPROC && AllUndisturbed(t, run, p)
    requires HasHad(t.proc[p], k)
    ensures HasHad(After(t, run).proc[p], k + Turns(t, run, p))
    decreases |run|
  {
    hide Next, Enabled, Charged, Turn, Undisturbed;
    if run != [] {
      StepCharges(t, run[0], p);
      OneMoreTurn(t.proc[p].(state := RUNNING), k);
      Decay(Next(t, run[0]), run[1..], p, if Turn(t, run[0], p) then k + 1 else k);
    }
  }
}
