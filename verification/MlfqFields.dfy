/** What the critical sections of the process table do, in the fields of the processes and the queues. */
module MlfqFields {
  import opened MlfqSpec
  import opened MlfqInv
  import opened Wrappers

  // ---------------------------------------------------------------- wakeup

  /** Exactly the processes sleeping on the channel become RUNNABLE; nothing else about any process changes. */
  lemma {:induction false} WokenFields(t: Table, chan: Chan, i: nat, p: nat)
    requires Shaped(t) && i <= NPROC && p < NPROC
    ensures var x := t.proc[p];
      WokenFrom(t, chan, i).proc[p] ==
        if i <= p && x.state == SLEEPING && x.chan == Some(chan) then x.(state := RUNNABLE) else x
    decreases NPROC - i
  {
    if i < NPROC {
      WokenFields(if SleepsOn(t, i, chan) then MadeReady(t, i) else t, chan, i + 1, p);
    }
  }

  lemma {:induction false} WokenRest(t: Table, chan: Chan, i: nat)
    requires Shaped(t) && i <= NPROC
    ensures var r := WokenFrom(t, chan, i); r.lock == t.lock && r.nextpid == t.nextpid && r.init == t.init
    decreases NPROC - i
  {
    if i < NPROC {
      WokenRest(if SleepsOn(t, i, chan) then MadeReady(t, i) else t, chan, i + 1);
    }
  }

  /** The processes of level `k` from slot `i` on that sleep on the channel, in slot order. */
  function Sleepers(t: Table, chan: Chan, k: nat, i: nat): seq<nat>
    requires Shaped(t) && i <= NPROC
    decreases NPROC - i
  {
    if i == NPROC then []
    else
      var x := t.proc[i];
      (if x.state == SLEEPING && x.chan == Some(chan) && x.level == k then [i] else []) + Sleepers(t, chan, k, i + 1)
  }

  lemma {:induction false} SameSleepers(t: Table, u: Table, chan: Chan, k: nat, i: nat)
    requires Shaped(t) && Shaped(u) && i <= NPROC
    requires forall p :: i <= p < NPROC ==> u.proc[p].(parent := None) == t.proc[p].(parent := None)
    ensures Sleepers(u, chan, k, i) == Sleepers(t, chan, k, i)
    decreases NPROC - i
  {
    if i < NPROC {
      SameSleepers(t, u, chan, k, i + 1);
    }
  }

  /** Each queue is followed by the woken processes of its level, in slot order. */
  lemma {:induction false} WokenQueues(t: Table, chan: Chan, i: nat, k: nat)
    requires Shaped(t) && i <= NPROC && k < 3 && |t.l[k]| + |Sleepers(t, chan, k, i)| <= NPROC
    ensures WokenFrom(t, chan, i).l[k] == t.l[k] + Sleepers(t, chan, k, i)
    decreases NPROC - i
  {
    hide Sleepers, WokenFrom, MadeReady, SleepsOn;
    if i == NPROC {
      NoSleeper(t, chan, k);
    } else {
      var u := if SleepsOn(t, i, chan) then MadeReady(t, i) else t;
      var here := if SleepsOn(t, i, chan) && t.proc[i].level == k then [i] else [];
      var rest := Sleepers(t, chan, k, i + 1);
      OneSleeper(t, chan, k, i);
      WokenQueues(u, chan, i + 1, k);
      assert t.l[k] + here + rest == t.l[k] + (here + rest);
    }
  }

  lemma {:induction false} NoSleeper(t: Table, chan: Chan, k: nat)
    requires Shaped(t) && k < 3
    ensures Sleepers(t, chan, k, NPROC) == [] && WokenFrom(t, chan, NPROC) == t && t.l[k] + [] == t.l[k]
  {
  }

  lemma {:induction false} OneSleeper(t: Table, chan: Chan, k: nat, i: nat)
    requires Shaped(t) && i < NPROC && k < 3 && |t.l[k]| + |Sleepers(t, chan, k, i)| <= NPROC
    ensures var u, here, rest :=
        if SleepsOn(t, i, chan) then MadeReady(t, i) else t,
        if SleepsOn(t, i, chan) && t.proc[i].level == k then [i] else [],
        Sleepers(t, chan, k, i + 1);
      && Sleepers(t, chan, k, i) == here + rest && WokenFrom(t, chan, i) == WokenFrom(u, chan, i + 1)
      && u.l[k] == t.l[k] + here && Sleepers(u, chan, k, i + 1) == rest
  {
    var u := if SleepsOn(t, i, chan) then MadeReady(t, i) else t;
    assert WokenFrom(t, chan, i) == WokenFrom(u, chan, i + 1);
    hide WokenFrom;
    ReadyFields(t, i, k);
    SameSleepers(t, u, chan, k, i + 1);
    hide MadeReady;
  }

  lemma {:induction false} ReadyFields(t: Table, p: nat, k: nat)
    requires Shaped(t) && p < NPROC && k < 3
    ensures MadeReady(t, p).proc == t.proc[p := t.proc[p].(state := RUNNABLE)]
    ensures t.proc[p].level == k && |t.l[k]| < NPROC ==> MadeReady(t, p).l[k] == t.l[k] + [p]
    ensures t.proc[p].level != k ==> MadeReady(t, p).l[k] == t.l[k]
  {
  }

  /** There is room for them where the queues are right. */
  lemma {:induction false} SleepersFit(t: Table, chan: Chan, k: nat, i: nat)
    requires TableOk(t) && i <= NPROC && k < 3
    ensures |t.l[k]| + |Sleepers(t, chan, k, i)| <= NPROC
    decreases NPROC - i
  {
    SleepersApart(t, chan, k, i);
    var q := t.l[k] + Sleepers(t, chan, k, i);
    assert Distinct(q) by {
      hide Sleepers, InRange, PidsOk, HolderRuns;
      forall a, b | 0 <= a < b < |q|
        ensures q[a] != q[b]
      {
        if a < |t.l[k]| && b >= |t.l[k]| {
          assert t.proc[q[a]].state == RUNNABLE;
        }
      }
    }
    DistinctFits(q, NPROC);
  }

  lemma {:induction false} SleepersApart(t: Table, chan: Chan, k: nat, i: nat)
    requires Shaped(t) && i <= NPROC
    ensures Distinct(Sleepers(t, chan, k, i))
    ensures forall j :: 0 <= j < |Sleepers(t, chan, k, i)| ==>
      i <= Sleepers(t, chan, k, i)[j] < NPROC && t.proc[Sleepers(t, chan, k, i)[j]].state == SLEEPING
    decreases NPROC - i
  {
    if i < NPROC {
      SleepersApart(t, chan, k, i + 1);
    }
  }

  /** wakeup where the queues are right. */
  lemma {:induction false} WakeupIs(t: Table, chan: Chan)
    requires TableOk(t)
    ensures var r := Woken(t, chan);
      && r.lock == t.lock && r.nextpid == t.nextpid && r.init == t.init
      && (forall p :: 0 <= p < NPROC ==>
            r.proc[p] == if t.proc[p].state == SLEEPING && t.proc[p].chan == Some(chan)
                         then t.proc[p].(state := RUNNABLE) else t.proc[p])
      && (forall k :: 0 <= k < 3 ==> r.l[k] == t.l[k] + Sleepers(t, chan, k, 0))
  {
    hide WokenFrom, Sleepers, InRange, Queued, PidsOk, HolderRuns;
    WokenRest(t, chan, 0);
    forall p | 0 <= p < NPROC
      ensures Woken(t, chan).proc[p] ==
        if t.proc[p].state == SLEEPING && t.proc[p].chan == Some(chan) then t.proc[p].(state := RUNNABLE) else t.proc[p]
    {
      WokenFields(t, chan, 0, p);
    }
    forall k | 0 <= k < 3
      ensures Woken(t, chan).l[k] == t.l[k] + Sleepers(t, chan, k, 0)
    {
      SleepersFit(t, chan, k, 0);
      WokenQueues(t, chan, 0, k);
    }
  }

  // ---------------------------------------------------------------- exit

  /** From slot `i` on there is a zombie child of `p`. */
  ghost predicate ZombieChild(t: Table, p: nat, i: nat)
    requires Shaped(t)
  {
    exists j :: i <= j < NPROC && IsZombieOf(t, p, j)
  }

  predicate IsZombieOf(t: Table, p: nat, j: nat)
    requires Shaped(t) && j < NPROC
  {
    t.proc[j].parent == Some(p) && t.proc[j].state == ZOMBIE
  }

  /** `x` after its parent `p`, if it is, has gone and, if `woken`, init has been woken. */
  function Left(x: Proc, p: nat, init: nat, woken: bool): Proc {
    x.(parent := if x.parent == Some(p) then Some(init) else x.parent,
       state := if woken && x.state == SLEEPING && x.chan == Some(OnProc(init)) then RUNNABLE else x.state)
  }

  lemma {:induction false} OrphanedOneFields(t: Table, p: nat, i: nat, q: nat)
    requires Shaped(t) && i < NPROC && q < NPROC
    ensures var r := OrphanedOne(t, p, i);
      && r.init == t.init && r.lock == t.lock && r.nextpid == t.nextpid
      && r.proc[q] == if q == i then Left(t.proc[q], p, t.init, IsZombieOf(t, p, i))
                      else Left(t.proc[q], p, t.init, IsZombieOf(t, p, i)).(parent := t.proc[q].parent)
  {
    hide WokenFrom;
    if t.proc[i].parent == Some(p) {
      var u := t.(proc := t.proc[i := t.proc[i].(parent := Some(t.init))]);
      WokenFields(u, OnProc(t.init), 0, q);
      WokenRest(u, OnProc(t.init), 0);
    }
  }

  /** exit's loop from slot `i` on. */
  lemma {:induction false} OrphanedFields(t: Table, p: nat, i: nat, q: nat)
    requires Shaped(t) && i <= NPROC && q < NPROC
    ensures var r, x := OrphanedFrom(t, p, i), Left(t.proc[q], p, t.init, ZombieChild(t, p, i));
      && r.init == t.init && r.lock == t.lock && r.nextpid == t.nextpid
      && r.proc[q] == if q >= i then x else x.(parent := t.proc[q].parent)
    decreases NPROC - i
  {
    hide ZombieChild, OrphanedOne, OrphanedFrom;
    if i == NPROC {
      NoChildLeft(t, p);
    } else {
      var u := OrphanedOne(t, p, i);
      OrphanedNext(t, p, i);
      forall j | 0 <= j < NPROC
        ensures j > i ==> (IsZombieOf(u, p, j) <==> IsZombieOf(t, p, j))
      {
        OrphanedOneFields(t, p, i, j);
      }
      OrphanedOneFields(t, p, i, q);
      ZombieSplit(t, u, p, i);
      OrphanedFields(u, p, i + 1, q);
    }
  }

  lemma {:induction false} NoChildLeft(t: Table, p: nat)
    requires Shaped(t)
    ensures OrphanedFrom(t, p, NPROC) == t && !ZombieChild(t, p, NPROC)
  {
  }

  lemma {:induction false} OrphanedNext(t: Table, p: nat, i: nat)
    requires Shaped(t) && i < NPROC
    ensures OrphanedFrom(t, p, i) == OrphanedFrom(OrphanedOne(t, p, i), p, i + 1)
  {
  }

  lemma {:induction false} ZombieSplit(t: Table, u: Table, p: nat, i: nat)
    requires Shaped(t) && Shaped(u) && i < NPROC
    requires forall j :: i < j < NPROC ==> (IsZombieOf(u, p, j) <==> IsZombieOf(t, p, j))
    ensures ZombieChild(t, p, i) <==> IsZombieOf(t, p, i) || ZombieChild(u, p, i + 1)
  {
    hide IsZombieOf;
  }

  /** exit: the process is a zombie and nobody holds the scheduler lock; its children are init's; a
      parent waiting on itself is woken, and so is init if one of the children is a zombie. */
  lemma {:induction false} ExitFields(t: Table, p: nat, q: nat)
    requires Shaped(t) && p < NPROC && q < NPROC
    ensures var r, x := Exited(t, p), t.proc[q];
      && r.lock == None && r.init == t.init && r.nextpid == t.nextpid
      && r.proc[q] == x.(
           parent := if x.parent == Some(p) then Some(t.init) else x.parent,
           state :=
             if q == p then ZOMBIE
             else if x.state == SLEEPING && t.proc[p].parent.Some?
                  && x.chan == Some(OnProc(t.proc[p].parent.value)) then RUNNABLE
             else if x.state == SLEEPING && x.chan == Some(OnProc(t.init)) && ZombieChild(t, p, 0) then RUNNABLE
             else x.state)
  {
    hide WokenFrom, OrphanedFrom;
    var parent := t.proc[p].parent;
    var u := if parent.Some? then Woken(t, OnProc(parent.value)) else t;
    forall j | 0 <= j < NPROC
      ensures IsZombieOf(u, p, j) <==> IsZombieOf(t, p, j)
    {
      if parent.Some? {
        WokenFields(t, OnProc(parent.value), 0, j);
      }
    }
    if parent.Some? {
      WokenRest(t, OnProc(parent.value), 0);
      WokenFields(t, OnProc(parent.value), 0, q);
    }
    OrphanedFields(u, p, 0, q);
  }

  lemma {:induction false} NobodySleeps(t: Table, chan: Chan, k: nat, i: nat)
    requires Shaped(t) && i <= NPROC
    requires forall p :: i <= p < NPROC ==> !(t.proc[p].state == SLEEPING && t.proc[p].chan == Some(chan))
    ensures Sleepers(t, chan, k, i) == []
    decreases NPROC - i
  {
    if i < NPROC {
      NobodySleeps(t, chan, k, i + 1);
    }
  }

  lemma {:induction false} OrphanedOneQueues(t: Table, p: nat, i: nat, k: nat)
    requires TableOk(t) && i < NPROC && k < 3
    ensures var r, woken := OrphanedOne(t, p, i), Sleepers(t, OnProc(t.init), k, 0);
      && TableOk(r) && r.init == t.init
      && r.l[k] == t.l[k] + (if IsZombieOf(t, p, i) then woken else [])
      && Sleepers(r, OnProc(t.init), k, 0) == if IsZombieOf(t, p, i) then [] else woken
  {
    hide WokenFrom, Sleepers, InRange, Queued, PidsOk, HolderRuns;
    OrphanOneKeeps(t, p, i);
    if t.proc[i].parent == Some(p) {
      var u := t.(proc := t.proc[i := t.proc[i].(parent := Some(t.init))]);
      ParentKeeps(t, i, Some(t.init));
      SameSleepers(t, u, OnProc(t.init), k, 0);
      if t.proc[i].state == ZOMBIE {
        WakeupIs(u, OnProc(t.init));
        NobodySleeps(Woken(u, OnProc(t.init)), OnProc(t.init), k, 0);
      }
    }
  }

  lemma {:induction false} OrphanedQueues(t: Table, p: nat, i: nat, k: nat)
    requires TableOk(t) && i <= NPROC && k < 3
    ensures OrphanedFrom(t, p, i).l[k] ==
      t.l[k] + if ZombieChild(t, p, i) then Sleepers(t, OnProc(t.init), k, 0) else []
    decreases NPROC - i
  {
    hide Sleepers, OrphanedOne, InRange, Queued, PidsOk, HolderRuns;
    if i < NPROC {
      var u := OrphanedOne(t, p, i);
      OrphanedOneQueues(t, p, i, k);
      forall j | i < j < NPROC
        ensures IsZombieOf(u, p, j) <==> IsZombieOf(t, p, j)
      {
        OrphanedOneFields(t, p, i, j);
      }
      ZombieSplit(t, u, p, i);
      hide ZombieChild, IsZombieOf;
      OrphanedQueues(u, p, i + 1, k);
    }
  }

  /** In the queues, exit appends the waiting parent and then, if a child is a zombie, the waiting init. */
  lemma {:induction false} ExitQueues(t: Table, p: nat, k: nat)
    requires TableOk(t) && p < NPROC && t.proc[p].state == RUNNING && k < 3
    ensures var u := if t.proc[p].parent.Some? then Woken(t, OnProc(t.proc[p].parent.value)) else t;
      && u.l[k] == t.l[k] + (if t.proc[p].parent.Some? then Sleepers(t, OnProc(t.proc[p].parent.value), k, 0) else [])
      && Exited(t, p).l[k] == u.l[k] + if ZombieChild(t, p, 0) then Sleepers(u, OnProc(t.init), k, 0) else []
  {
    hide WokenFrom, OrphanedFrom, Sleepers, InRange, Queued, PidsOk, HolderRuns;
    var parent := t.proc[p].parent;
    var u := if parent.Some? then Woken(t, OnProc(parent.value)) else t;
    if parent.Some? {
      WakeupIs(t, OnProc(parent.value));
      WakeKeeps(t, OnProc(parent.value), 0);
    }
    forall j | 0 <= j < NPROC
      ensures IsZombieOf(u, p, j) <==> IsZombieOf(t, p, j)
    {
    }
    OrphanedQueues(u, p, 0, k);
  }

  // ---------------------------------------------------------------- the others

  /** kill: the first process with the pid is marked and, if it sleeps, RUNNABLE at the end of its queue. */
  lemma {:induction false} KillFields(t: Table, pid: int, p: nat)
    requires Shaped(t) && p < NPROC && t.proc[p].pid == pid && forall j :: 0 <= j < p ==> t.proc[j].pid != pid
    requires |t.l[t.proc[p].level]| < NPROC
    ensures var r, x := Killed(t, pid), t.proc[p];
      && r.proc == t.proc[p := x.(killed := true, state := if x.state == SLEEPING then RUNNABLE else x.state)]
      && r.l == (if x.state == SLEEPING then t.l[x.level := t.l[x.level] + [p]] else t.l)
      && r.lock == t.lock && r.init == t.init && r.nextpid == t.nextpid
  {
    hide SlotOf;
    assert SlotOf(t, pid, 0) == p;
  }

  /** wait: the first zombie child is freed. */
  lemma {:induction false} ReapFields(t: Table, p: nat, c: nat)
    requires Shaped(t) && p < NPROC && c < NPROC && t.proc[c].state == ZOMBIE && t.proc[c].parent == Some(p)
    requires forall j :: 0 <= j < c ==> !(t.proc[j].state == ZOMBIE && t.proc[j].parent == Some(p))
    ensures Reaped(t, p) ==
      t.(proc := t.proc[c := t.proc[c].(pid := 0, parent := None, killed := false, state := UNUSED)])
  {
    hide ZombieOf;
    assert ZombieOf(t, p, 0) == c;
  }

  /** setPriority: that of the first process with the pid, from 0 to 3. */
  lemma {:induction false} PriorityFields(t: Table, pid: int, priority: int, p: nat)
    requires Shaped(t) && p < NPROC && t.proc[p].pid == pid && forall j :: 0 <= j < p ==> t.proc[j].pid != pid
    ensures PrioritySet(t, pid, priority) ==
      if 0 <= priority <= 3 then t.(proc := t.proc[p := t.proc[p].(priority := priority)]) else t
  {
    hide SlotOf;
    assert SlotOf(t, pid, 0) == p;
  }

  /** kill and setPriority of a pid nobody has, wait without a zombie child and allocproc with every slot used. */
  lemma {:induction false} NobodyFields(t: Table, pid: int, priority: int, p: nat)
    requires Shaped(t) && p < NPROC
    ensures (forall j :: 0 <= j < NPROC ==> t.proc[j].pid != pid) ==>
      Killed(t, pid) == t && PrioritySet(t, pid, priority) == t
    ensures !ZombieChild(t, p, 0) ==> Reaped(t, p) == t
    ensures (forall j :: 0 <= j < NPROC ==> t.proc[j].state != UNUSED) ==> Allocated(t) == t
  {
    hide SlotOf, ZombieOf, FirstUnused;
    var c := ZombieOf(t, p, 0);
    assert c < NPROC ==> IsZombieOf(t, p, c);
  }

  /** allocproc: the first unused slot, with the next pid, the lowest urgency and a whole quantum of L0. */
  lemma {:induction false} AllocFields(t: Table, p: nat)
    requires Shaped(t) && p < NPROC && t.proc[p].state == UNUSED && forall j :: 0 <= j < p ==> t.proc[j].state != UNUSED
    ensures var r, x := Allocated(t), Allocated(t).proc[p];
      && r == t.(proc := t.proc[p := x], nextpid := t.nextpid + 1)
      && x.state == EMBRYO && x.pid == t.nextpid && x.priority == 3 && x.usedtime == 0 && x.level == 0
      && x.parent == t.proc[p].parent && x.chan == t.proc[p].chan && x.killed == t.proc[p].killed
  {
    hide FirstUnused;
    assert FirstUnused(t, 0) == p;
  }

  /** schedulerUnlock by the holder: first in L0, as new; by anyone else, nothing. */
  lemma {:induction false} UnlockFields(t: Table, p: nat)
    requires TableOk(t) && p < NPROC && t.proc[p].state == RUNNING
    ensures t.lock != Some(p) ==> Unlocked(t, p) == t
    ensures t.lock == Some(p) ==> var r := Unlocked(t, p);
      && r.lock == None && r.l == [[p] + t.l[0], t.l[1], t.l[2]]
      && r.proc == t.proc[p := t.proc[p].(state := RUNNABLE, level := 0, usedtime := 0, priority := 3)]
  {
    if t.lock == Some(p) {
      NeverDrops(t, 0, p);
    }
  }

  /** schedulerLock and then yield: the first to lock keeps the processor, and after it nobody else can lock. */
  lemma {:induction false} LockThenYield(t: Table, p: nat, q: nat)
    requires Shaped(t) && p < NPROC && q < NPROC && t.lock == None
    ensures var r := Locked(Locked(t, p), q);
      && r.lock == Some(p) && r.proc == t.proc && r.l == t.l && r.nextpid == t.nextpid && r.init == t.init
      && Yielded(r, p) == r
      && (t.proc[q].pid != t.proc[p].pid ==> Yielded(r, q).proc[q].state == RUNNABLE && Unlocked(r, q) == r)
  {
  }

  /** yield by anyone else: last in the queue of its level. */
  lemma {:induction false} YieldFields(t: Table, p: nat)
    requires TableOk(t) && p < NPROC && t.proc[p].state == RUNNING
    ensures t.lock == Some(p) ==> Yielded(t, p) == t
    ensures t.lock != Some(p) ==> var i := t.proc[p].level;
      Yielded(t, p) == t.(proc := t.proc[p := t.proc[p].(state := RUNNABLE)], l := t.l[i := t.l[i] + [p]])
  {
    NeverDrops(t, t.proc[p].level, p);
  }

  /** sleep and then wakeup: woken by the channel it sleeps on and by no other. */
  lemma {:induction false} SleepThenWake(t: Table, p: nat, chan: Chan, other: Chan)
    requires Shaped(t) && p < NPROC
    ensures Woken(Slept(t, p, chan), chan).proc[p] == t.proc[p].(chan := Some(chan), state := RUNNABLE)
    ensures other != chan ==>
      Woken(Slept(t, p, chan), other).proc[p] == t.proc[p].(chan := Some(chan), state := SLEEPING)
  {
    hide WokenFrom;
    WokenFields(Slept(t, p, chan), chan, 0, p);
    WokenFields(Slept(t, p, chan), other, 0, p);
  }

  /** fork's child is RUNNABLE, last in the queue of its level, with its parent set. */
  lemma {:induction false} StartFields(t: Table, p: nat, parent: Option<nat>)
    requires TableOk(t) && p < NPROC && t.proc[p].state == EMBRYO
    ensures var i := t.proc[p].level;
      Started(t, p, parent) ==
        t.(proc := t.proc[p := t.proc[p].(parent := parent, state := RUNNABLE)], l := t.l[i := t.l[i] + [p]])
  {
    NeverDrops(t, t.proc[p].level, p);
  }
}
