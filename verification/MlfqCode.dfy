/** proc.c of project1 as code: queues shifted in place in their arrays, and the process table with
    the functions that change it, each proved to do what its specification function says. */
module MlfqCode {
  import opened MlfqSpec
  import opened Wrappers

  /** struct queue */
  class Queue {
    const procs: array<nat>
    var size: nat

    ghost predicate Valid()
      reads this
    {
      procs.Length == NPROC + 1 && size <= NPROC
    }

    /** The queue from front to back. */
    ghost function C(): (s: seq<nat>)
      reads this, procs
      requires Valid()
      ensures |s| == size
    {
      procs[..size]
    }

    constructor ()
      ensures Valid() && fresh(procs) && C() == []
    {
      procs := new nat[NPROC + 1];
      size := 0;
    }

    method Enqueue(p: nat)
      requires Valid()
      modifies this, procs
      ensures Valid() && C() == Enqueued(old(C()), p)
    {
      if size < NPROC {
        procs[size] := p;
        size := size + 1;
      }
    }

    method Dequeue()
      requires Valid()
      modifies this, procs
      ensures Valid() && C() == Dequeued(old(C()))
    {
      if size > 0 {
        var i := 0;
        while i < size - 1
          invariant 0 <= i <= size - 1 && size == old(size)
          invariant forall k :: 0 <= k < i ==> procs[k] == old(procs[k + 1])
          invariant forall k :: i <= k < size ==> procs[k] == old(procs[k])
        {
          procs[i] := procs[i + 1];
          i := i + 1;
        }
        size := size - 1;
      }
    }

    /** Take out the first process with this pid. */
    method Remove(pid: int, proc: seq<Proc>)
      requires Valid() && forall j :: 0 <= j < size ==> procs[j] < |proc|
      modifies this, procs
      ensures Valid() && C() == RemovedAt(old(C()), Find(proc, old(C()), pid))
    {
      var i := 0;
      while i < size
        invariant 0 <= i <= size && size == old(size) && procs[..] == old(procs[..])
        invariant forall j :: 0 <= j < i ==> proc[procs[j]].pid != pid
      {
        if proc[procs[i]].pid == pid {
          break;
        }
        i := i + 1;
      }
      FindIs(proc, C(), pid, i);
      if i < size {
        CloseGap(i);
      }
    }

    /** Shift what is behind index `k` forward by one. */
    method CloseGap(k: nat)
      requires Valid() && k < size
      modifies this, procs
      ensures Valid() && C() == RemovedAt(old(C()), k)
    {
      var i := k;
      ghost var was := C();
      while i < size - 1
        invariant k <= i <= size - 1 && size == |was|
        invariant forall j :: 0 <= j < size ==> procs[j] == was[if k <= j < i then j + 1 else j]
      {
        procs[i] := procs[i + 1];
        i := i + 1;
      }
      size := size - 1;
      assert C() == was[..k] + was[k+1..];
    }

    /** Put `p` at the front. */
    method Insert(p: nat)
      requires Valid()
      modifies this, procs
      ensures Valid() && C() == Inserted(old(C()), p)
    {
      if size < NPROC {
        var i := size;
        ghost var was := C();
        while i > 0
          invariant 0 <= i <= size == |was|
          invariant forall j :: 0 <= j <= size && j != i ==> procs[j] == was[if j < i then j else j - 1]
        {
          procs[i] := procs[i - 1];
          i := i - 1;
        }
        procs[0] := p;
        size := size + 1;
        assert C() == [p] + was;
      }
    }
  }

  lemma {:induction false} FindIs(proc: seq<Proc>, q: seq<nat>, pid: int, i: nat)
    requires forall j :: 0 <= j < |q| ==> q[j] < |proc|
    requires i <= |q| && (i < |q| ==> proc[q[i]].pid == pid)
    requires forall j :: 0 <= j < i ==> proc[q[j]].pid != pid
    ensures Find(proc, q, pid) == i
  {
  }

  lemma {:induction false} WokenStep(t: Table, chan: Chan, i: nat)
    requires Shaped(t) && i < NPROC
    ensures WokenFrom(t, chan, i) == WokenFrom(if SleepsOn(t, i, chan) then MadeReady(t, i) else t, chan, i + 1)
  {
  }

  lemma {:induction false} WokenAll(t: Table, chan: Chan)
    requires Shaped(t)
    ensures WokenFrom(t, chan, NPROC) == t
  {
  }

  /** ptable */
  class Ptable {
    var proc: seq<Proc>
    const l0: Queue
    const l1: Queue
    const l2: Queue
    var lockproc: Option<nat>
    var nextpid: int
    var init: nat

    /** pinit, over a process table of zeroes. */
    constructor ()
      ensures Valid() && fresh(l0) && fresh(l1) && fresh(l2) && fresh(l0.procs) && fresh(l1.procs) && fresh(l2.procs)
      ensures View() == Table(seq(NPROC, _ => Proc(UNUSED, 0, None, None, false, 0, 0, 0)), [[], [], []], None, 1, 0)
    {
      proc := seq(NPROC, _ => Proc(UNUSED, 0, None, None, false, 0, 0, 0));
      lockproc, nextpid, init := None, 1, 0;
      l0 := new Queue();
      l1 := new Queue();
      l2 := new Queue();
    }

    ghost predicate Apart() {
      && l0 != l1 && l0 != l2 && l1 != l2
      && l0.procs != l1.procs && l0.procs != l2.procs && l1.procs != l2.procs
    }

    ghost predicate Valid()
      reads this, l0, l1, l2, l0.procs, l1.procs, l2.procs
    {
      Apart() && l0.Valid() && l1.Valid() && l2.Valid() && Shaped(View())
    }

    ghost function View(): Table
      reads this, l0, l1, l2, l0.procs, l1.procs, l2.procs
      requires l0.Valid() && l1.Valid() && l2.Valid()
    {
      Table(proc, [l0.C(), l1.C(), l2.C()], lockproc, nextpid, init)
    }

    /** &ptable.L[level] */
    function L(level: nat): Queue
      requires level < 3
    {
      if level == 0 then l0 else if level == 1 then l1 else l2
    }

    /** Overwrite process slot `p`. */
    method SetProc(p: nat, x: Proc)
      requires Valid() && p < NPROC && x.level < 3
      modifies this`proc
      ensures Valid() && View() == old(View()).(proc := old(View()).proc[p := x])
    {
      proc := proc[p := x];
    }

    /** enqueue(&ptable.L[level], p) */
    method EnqueueAt(level: nat, p: nat)
      requires Valid() && level < 3 && p < NPROC
      modifies this, l0, l1, l2, l0.procs, l1.procs, l2.procs
      ensures Valid() && View() == old(View()).(l := old(View()).l[level := Enqueued(old(View()).l[level], p)])
    {
      L(level).Enqueue(p);
      assert View().l == old(View()).l[level := Enqueued(old(View()).l[level], p)];
    }

    /** dequeue(&ptable.L[level]) */
    method DequeueAt(level: nat)
      requires Valid() && level < 3
      modifies this, l0, l1, l2, l0.procs, l1.procs, l2.procs
      ensures Valid() && View() == old(View()).(l := old(View()).l[level := Dequeued(old(View()).l[level])])
    {
      L(level).Dequeue();
      assert View().l == old(View()).l[level := Dequeued(old(View()).l[level])];
    }

    /** ptable.L[level].procs[0] */
    method Front(level: nat) returns (p: nat)
      requires Valid() && level < 3 && View().l[level] != []
      ensures p == View().l[level][0] && p < NPROC
    {
      p := L(level).procs[0];
    }

    /** `p->state = RUNNABLE; enqueue(&ptable.L[p->level], p)` */
    method MakeReady(p: nat)
      requires Valid() && p < NPROC
      modifies this, l0, l1, l2, l0.procs, l1.procs, l2.procs
      ensures Valid() && View() == MadeReady(old(View()), p)
    {
      SetProc(p, proc[p].(state := RUNNABLE));
      EnqueueAt(proc[p].level, p);
    }

    method Wakeup1(chan: Chan)
      requires Valid()
      modifies this, l0, l1, l2, l0.procs, l1.procs, l2.procs
      ensures Valid() && View() == Woken(old(View()), chan)
    {
      hide MadeReady, WokenFrom;
      var p := 0;
      while p < NPROC
        invariant 0 <= p <= NPROC && Valid()
        invariant WokenFrom(View(), chan, p) == Woken(old(View()), chan)
      {
        WokenStep(View(), chan, p);
        if proc[p].state == SLEEPING && proc[p].chan == Some(chan) {
          MakeReady(p);
        }
        p := p + 1;
      }
      WokenAll(View(), chan);
    }

    /** allocproc up to the release of the lock. */
    method AllocProc() returns (found: Option<nat>)
      requires Valid()
      modifies this, l0, l1, l2, l0.procs, l1.procs, l2.procs
      ensures Valid() && View() == Allocated(old(View()))
      ensures found == if FirstUnused(old(View()), 0) < NPROC then Some(FirstUnused(old(View()), 0)) else None
    {
      hide FirstUnused;
      FirstUnusedFrom(View(), 0);
      var p := 0;
      while p < NPROC
        invariant 0 <= p <= NPROC && Valid() && View() == old(View())
        invariant FirstUnused(View(), p) == FirstUnused(View(), 0)
      {
        FirstUnusedFrom(View(), p);
        if proc[p].state == UNUSED {
          proc := proc[p := proc[p].(state := EMBRYO, pid := nextpid, priority := 3, usedtime := 0, level := 0)];
          nextpid := nextpid + 1;
          return Some(p);
        }
        p := p + 1;
      }
      FirstUnusedFrom(View(), NPROC);
      return None;
    }

    /** The end of fork. */
    method Start(p: nat, parent: Option<nat>)
      requires Valid() && p < NPROC
      modifies this, l0, l1, l2, l0.procs, l1.procs, l2.procs
      ensures Valid() && View() == Started(old(View()), p, parent)
    {
      proc := proc[p := proc[p].(parent := parent)];
      MakeReady(p);
    }

    method Yield(p: nat)
      requires Valid() && p < NPROC
      modifies this, l0, l1, l2, l0.procs, l1.procs, l2.procs
      ensures Valid() && View() == Yielded(old(View()), p)
    {
      if lockproc.Some? {
        if proc[lockproc.value].pid == proc[p].pid {
          return;
        }
      }
      MakeReady(p);
    }

    method Sleep(p: nat, chan: Chan)
      requires Valid() && p < NPROC
      modifies this`proc
      ensures Valid() && View() == Slept(old(View()), p, chan)
    {
      proc := proc[p := proc[p].(chan := Some(chan))];
      proc := proc[p := proc[p].(state := SLEEPING)];
    }

    method Kill(pid: int) returns (r: int)
      requires Valid()
      modifies this, l0, l1, l2, l0.procs, l1.procs, l2.procs
      ensures Valid() && View() == Killed(old(View()), pid)
      ensures r == if SlotOf(old(View()), pid, 0) < NPROC then 0 else -1
    {
      hide SlotOf;
      var p := 0;
      while p < NPROC
        invariant 0 <= p <= NPROC && Valid() && View() == old(View())
        invariant SlotOf(View(), pid, p) == SlotOf(View(), pid, 0)
      {
        SlotOfFrom(View(), pid, p);
        if proc[p].pid == pid {
          proc := proc[p := proc[p].(killed := true)];
          if proc[p].state == SLEEPING {
            MakeReady(p);
          }
          return 0;
        }
        p := p + 1;
      }
      SlotOfFrom(View(), pid, NPROC);
      return -1;
    }

    /** exit's loop body: a child of `p` goes to initproc. */
    method OrphanOne(p: nat, i: nat)
      requires Valid() && i < NPROC
      modifies this, l0, l1, l2, l0.procs, l1.procs, l2.procs
      ensures Valid() && View() == OrphanedOne(old(View()), p, i)
    {
      hide WokenFrom;
      if proc[i].parent == Some(p) {
        SetProc(i, proc[i].(parent := Some(init)));
        if proc[i].state == ZOMBIE {
          Wakeup1(OnProc(init));
        }
      }
    }

    /** exit, its part under the lock. */
    method Exit(p: nat)
      requires Valid() && p < NPROC && p != init
      modifies this, l0, l1, l2, l0.procs, l1.procs, l2.procs
      ensures Valid() && View() == Exited(old(View()), p)
    {
      hide WokenFrom, OrphanedOne;
      if proc[p].parent.Some? {
        Wakeup1(OnProc(proc[p].parent.value));
      }
      ghost var u := View();
      var i := 0;
      while i < NPROC
        invariant 0 <= i <= NPROC && Valid()
        invariant OrphanedFrom(View(), p, i) == OrphanedFrom(u, p, 0)
      {
        OrphanOne(p, i);
        i := i + 1;
      }
      SetState(p, ZOMBIE);
      if lockproc.Some? {
        ReleaseLock();
      }
    }

    method SetState(p: nat, state: State)
      requires Valid() && p < NPROC
      modifies this`proc
      ensures Valid() && View() == old(View()).(proc := old(View()).proc[p := old(View()).proc[p].(state := state)])
    {
      proc := proc[p := proc[p].(state := state)];
    }

    method ReleaseLock()
      requires Valid()
      modifies this`lockproc
      ensures Valid() && View() == old(View()).(lock := None)
    {
      lockproc := None;
    }

    /** One scan of wait: a zombie child is freed and its pid returned. */
    method WaitOnce(p: nat) returns (pid: Option<int>)
      requires Valid() && p < NPROC
      modifies this, l0, l1, l2, l0.procs, l1.procs, l2.procs
      ensures Valid() && View() == Reaped(old(View()), p)
      ensures pid ==
        if ZombieOf(old(View()), p, 0) < NPROC then Some(old(proc)[ZombieOf(old(View()), p, 0)].pid) else None
    {
      hide ZombieOf;
      var c := 0;
      while c < NPROC
        invariant 0 <= c <= NPROC && Valid() && View() == old(View())
        invariant ZombieOf(View(), p, c) == ZombieOf(View(), p, 0)
      {
        ZombieOfFrom(View(), p, c);
        if proc[c].parent == Some(p) {
          if proc[c].state == ZOMBIE {
            pid := Some(proc[c].pid);
            proc := proc[c := proc[c].(pid := 0, parent := None, killed := false, state := UNUSED)];
            return pid;
          }
        }
        c := c + 1;
      }
      ZombieOfFrom(View(), p, NPROC);
      return None;
    }

    method SetPriority(pid: int, priority: int)
      requires Valid()
      modifies this`proc
      ensures Valid() && View() == PrioritySet(old(View()), pid, priority)
    {
      hide SlotOf;
      if priority < 0 || priority > 3 {
        return;
      }
      var p := 0;
      while p < NPROC
        invariant 0 <= p <= NPROC && Valid() && View() == old(View())
        invariant SlotOf(View(), pid, p) == SlotOf(View(), pid, 0)
      {
        SlotOfFrom(View(), pid, p);
        if proc[p].pid == pid {
          proc := proc[p := proc[p].(priority := priority)];
          return;
        }
        p := p + 1;
      }
      SlotOfFrom(View(), pid, NPROC);
    }

    method SchedulerLock(p: nat)
      requires Valid() && p < NPROC
      modifies this`lockproc
      ensures Valid() && View() == Locked(old(View()), p)
    {
      if lockproc.Some? {
        return;
      }
      lockproc := Some(p);
    }

    method SchedulerUnlock(p: nat)
      requires Valid() && p < NPROC
      modifies this, l0, l1, l2, l0.procs, l1.procs, l2.procs
      ensures Valid() && View() == Unlocked(old(View()), p)
    {
      if lockproc == None {
        return;
      }
      if proc[lockproc.value].pid != proc[p].pid {
        return;
      }
      lockproc := None;
      proc := proc[p := proc[p].(level := 0, usedtime := 0, priority := 3)];
      proc := proc[p := proc[p].(state := RUNNABLE)];
      l0.Insert(p);
    }

    /** The index of the first nonempty queue, or 3. */
    method FirstNonempty() returns (i: nat)
      requires Valid()
      ensures i == TopQueue(View())
    {
      i := 0;
      while i < 3
        invariant 0 <= i <= 3
        invariant forall j :: 0 <= j < i ==> View().l[j] == []
      {
        if L(i).size > 0 {
          assert View().l[i] != [];
          break;
        }
        i := i + 1;
      }
    }

    /** The process to run, from queue `i`. */
    method Pick(i: nat) returns (p: nat)
      requires Valid() && i < 3 && View().l[i] != []
      ensures p == Picked(View(), i)
    {
      hide Best;
      p := Front(i);
      if proc[p].level == 2 {
        ghost var q, p0 := View().l[2], p;
        var k := 1;
        while k < l2.size
          invariant (q != [] ==> 1 <= k <= |q|) && p < NPROC
          invariant q != [] ==> Best(proc, p, q[k..]) == Best(proc, p0, q[1..])
          invariant q == [] ==> p == p0
        {
          BestOpens(proc, p, q[k..]);
          assert q[k..][1..] == q[k + 1..];
          if proc[l2.procs[k]].priority < proc[p].priority {
            p := l2.procs[k];
          }
          k := k + 1;
        }
        if q != [] {
          BestOpens(proc, p, q[k..]);
        }
      }
    }

    /** Take `p` out of the queue of its level. */
    method TakeOut(p: nat)
      requires Valid() && p < NPROC
      modifies this, l0, l1, l2, l0.procs, l1.procs, l2.procs
      ensures Valid()
      ensures var t, x := old(View()), old(View()).proc[p];
        View() == t.(l := t.l[x.level :=
          if x.level == 2 then RemovedAt(t.l[x.level], Find(t.proc, t.l[x.level], x.pid)) else Dequeued(t.l[x.level])])
    {
      hide Find;
      if proc[p].level == 2 {
        assert View().l[2] == l2.C() && forall j :: 0 <= j < l2.size ==> View().l[2][j] == l2.procs[j];
        l2.Remove(proc[p].pid, proc);
        assert View().l == old(View()).l[2 := View().l[2]];
      } else {
        DequeueAt(proc[p].level);
      }
    }

    /** Charge `p` for a turn. */
    method Charge(p: nat)
      requires Valid() && p < NPROC
      modifies this`proc
      ensures Valid() && View() == old(View()).(proc := old(View()).proc[p := Charged(old(View()).proc[p])])
    {
      var x := proc[p];
      x := x.(usedtime := x.usedtime + 1);
      if x.usedtime >= 2 * x.level + 4 {
        if x.level < 2 {
          x := x.(usedtime := 0);
          x := x.(level := x.level + 1);
        } else {
          x := x.(usedtime := 0);
          if x.priority > 0 {
            x := x.(priority := x.priority - 1);
          }
        }
      }
      SetProc(p, x);
    }

    /** One turn of mlfqscheduler: the process to switch to, if any. */
    method Schedule() returns (run: Option<nat>)
      requires Valid()
      modifies this, l0, l1, l2, l0.procs, l1.procs, l2.procs
      ensures Valid() && View() == Dispatched(old(View()))
      ensures run == if TopQueue(old(View())) == 3 then None else Some(Picked(old(View()), TopQueue(old(View()))))
    {
      hide Find, Picked, Charged, TopQueue;
      ghost var t := View();
      var i := FirstNonempty();
      if i == 3 {
        return None;
      }
      var p := Pick(i);
      SetState(p, RUNNING);
      FindSame(t.proc, proc, t.l[proc[p].level], proc[p].pid);
      TakeOut(p);
      Charge(p);
      return Some(p);
    }

    /** priorityboosting's inner loop for queue 1 or 2. */
    method BoostQueue(i: nat)
      requires Valid() && 0 < i < 3
      modifies this, l0, l1, l2, l0.procs, l1.procs, l2.procs
      ensures Valid() && View() == BoostedQueue(old(View()), i)
    {
      hide Enqueued, Dequeued, BoostedAll, EnqueuedAll, AfterTurns;
      ghost var t := View();
      ghost var q, n := t.l[i], |t.l[i]|;
      TurnsNone(t, i);
      var s := 0;
      while s < L(i).size
        invariant 0 <= s <= MovedCount(n) <= n && Valid()
        invariant View() == AfterTurns(t, i, s)
        decreases n - s
      {
        OneTurn(t, i, s);
        var p := Front(i);
        SetProc(p, proc[p].(priority := 3, usedtime := 0, level := 0));
        DequeueAt(i);
        EnqueueAt(0, p);
        s := s + 1;
      }
      assert s == MovedCount(n);
      TurnsAll(t, i);
    }

    method PriorityBoosting()
      requires Valid()
      modifies this, l0, l1, l2, l0.procs, l1.procs, l2.procs
      ensures Valid() && View() == PriorityBoosted(old(View()))
    {
      hide BoostedQueue;
      ghost var t := View();
      var s := 0;
      while s < l0.size
        invariant Valid() && 0 <= s <= l0.size && View().l == t.l
        invariant View() == if s == 0 then t else t.(proc := t.proc[t.l[0][0] := Boosted(t.proc[t.l[0][0]])])
      {
        var p := l0.procs[0];
        assert p == t.l[0][0];
        proc := proc[p := proc[p].(priority := 3, usedtime := 0, level := 0)];
        s := s + 1;
      }
      BoostQueue(1);
      BoostQueue(2);
      if lockproc.Some? {
        var p := lockproc.value;
        lockproc := None;
        proc := proc[p := proc[p].(level := 0, usedtime := 0, priority := 3)];
      }
    }
  }

  /** The table after `s` turns of boosting queue `i`. */
  ghost function AfterTurns(t: Table, i: nat, s: nat): (r: Table)
    requires Shaped(t) && 0 < i < 3 && s <= |t.l[i]|
    ensures |r.l| == 3 && |r.l[i]| == |t.l[i]| - s
  {
    t.(proc := BoostedAll(t.proc, t.l[i][..s]), l := t.l[0 := EnqueuedAll(t.l[0], t.l[i][..s])][i := t.l[i][s..]])
  }

  lemma {:induction false} TurnsNone(t: Table, i: nat)
    requires Shaped(t) && 0 < i < 3
    ensures AfterTurns(t, i, 0) == t
    ensures forall s :: 0 <= s <= |t.l[i]| ==> |AfterTurns(t, i, s).l[i]| == |t.l[i]| - s
  {
  }

  lemma {:induction false} TurnsAll(t: Table, i: nat)
    requires Shaped(t) && 0 < i < 3
    ensures AfterTurns(t, i, MovedCount(|t.l[i]|)) == BoostedQueue(t, i)
  {
  }

  lemma {:induction false} OneTurn(t: Table, i: nat, s: nat)
    requires Shaped(t) && 0 < i < 3 && s < |t.l[i]| && Shaped(AfterTurns(t, i, s))
    ensures var r := AfterTurns(t, i, s);
      var p := r.l[i][0];
      var u := r.(proc := r.proc[p := Boosted(r.proc[p])]);
      var w := u.(l := u.l[i := Dequeued(u.l[i])]);
      && |r.proc| == |t.proc| && p < |r.proc|
      && AfterTurns(t, i, s + 1) == w.(l := w.l[0 := Enqueued(w.l[0], p)])
  {
    hide Enqueued, Boosted;
    var q := t.l[i];
    var r := AfterTurns(t, i, s);
    assert q[..s+1][..s] == q[..s] && q[..s+1][s] == q[s] && q[s..][0] == q[s] && q[s..][1..] == q[s+1..];
    assert BoostedAll(t.proc, q[..s+1]) == r.proc[q[s] := Boosted(r.proc[q[s]])];
    assert EnqueuedAll(t.l[0], q[..s+1]) == Enqueued(EnqueuedAll(t.l[0], q[..s]), q[s]);
    assert r.l[i := Dequeued(r.l[i])][0 := Enqueued(r.l[0], q[s])] == AfterTurns(t, i, s + 1).l;
  }

  lemma {:induction false} FirstUnusedFrom(t: Table, i: nat)
    requires Shaped(t) && i <= NPROC
    ensures FirstUnused(t, i) == if i == NPROC || t.proc[i].state == UNUSED then i else FirstUnused(t, i + 1)
  {
  }

  lemma {:induction false} SlotOfFrom(t: Table, pid: int, i: nat)
    requires Shaped(t) && i <= NPROC
    ensures SlotOf(t, pid, i) == if i == NPROC || t.proc[i].pid == pid then i else SlotOf(t, pid, i + 1)
  {
  }

  lemma {:induction false} ZombieOfFrom(t: Table, p: nat, i: nat)
    requires Shaped(t) && i <= NPROC
    ensures ZombieOf(t, p, i) ==
      if i == NPROC || (t.proc[i].parent == Some(p) && t.proc[i].state == ZOMBIE) then i else ZombieOf(t, p, i + 1)
  {
  }

  lemma {:induction false} BestOpens(proc: seq<Proc>, best: nat, q: seq<nat>)
    requires best < |proc| && forall j :: 0 <= j < |q| ==> q[j] < |proc|
    ensures Best(proc, best, q) ==
      if q == [] then best else Best(proc, if proc[q[0]].priority < proc[best].priority then q[0] else best, q[1..])
  {
  }

  lemma {:induction false} FindSame(proc: seq<Proc>, proc': seq<Proc>, q: seq<nat>, pid: int)
    requires |proc'| == |proc| && forall j :: 0 <= j < |q| ==> q[j] < |proc|
    requires forall p :: 0 <= p < |proc| ==> proc'[p].pid == proc[p].pid
    ensures Find(proc', q, pid) == Find(proc, q, pid)
  {
  }
}
