/** The scheduler of project1/proc.c as functions on the process table: three queues, levels, time
    quanta, priorities, boosting and the scheduler lock. Each critical section under ptable.lock
    is one function. */
module MlfqSpec {
  import opened Wrappers

  const NPROC := 64

  datatype State = UNUSED | EMBRYO | SLEEPING | RUNNABLE | RUNNING | ZOMBIE

  /** Wait channels: processes sleep on other processes and on other kernel objects. */
  datatype Chan = OnProc(p: nat) | OnOther(addr: nat)

  datatype Proc = Proc(
    state: State, pid: int, parent: Option<nat>, chan: Option<Chan>, killed: bool,
    priority: int, usedtime: int, level: nat)

  /** `lock` is ptable.lockproc; `init` is initproc. Processes are named by their slot. */
  datatype Table = Table(proc: seq<Proc>, l: seq<seq<nat>>, lock: Option<nat>, nextpid: int, init: nat)

  predicate Shaped(t: Table) {
    && |t.proc| == NPROC && |t.l| == 3 && t.init < NPROC
    && (forall p :: 0 <= p < NPROC ==> t.proc[p].level < 3)
    && (forall i, j :: 0 <= i < 3 && 0 <= j < |t.l[i]| ==> t.l[i][j] < NPROC)
    && (t.lock.Some? ==> t.lock.value < NPROC)
  }

  /** `L[i].timequantum` */
  function Quantum(level: nat): int {
    2 * level + 4
  }

  // ---------------------------------------------------------------- queues

  function Enqueued(q: seq<nat>, p: nat): seq<nat> {
    if |q| < NPROC then q + [p] else q
  }

  function Dequeued(q: seq<nat>): seq<nat> {
    if |q| > 0 then q[1..] else q
  }

  function Inserted(q: seq<nat>, p: nat): seq<nat> {
    if |q| < NPROC then [p] + q else q
  }

  /** The index in `q` of the first process with this pid, or `|q|`. */
  function Find(proc: seq<Proc>, q: seq<nat>, pid: int): (i: nat)
    requires forall j :: 0 <= j < |q| ==> q[j] < |proc|
    ensures i <= |q|
    ensures i < |q| ==> proc[q[i]].pid == pid
    ensures forall j :: 0 <= j < i ==> proc[q[j]].pid != pid
  {
    if q == [] then 0
    else if proc[q[0]].pid == pid then 0
    else Find(proc, q[1..], pid) + 1
  }

  function RemovedAt(q: seq<nat>, i: nat): seq<nat> {
    if i < |q| then q[..i] + q[i+1..] else q
  }

  // ---------------------------------------------------------------- process states

  /** `p->state = RUNNABLE; enqueue(&ptable.L[p->level], p)` */
  function MadeReady(t: Table, p: nat): (r: Table)
    requires Shaped(t) && p < NPROC
    ensures Shaped(r)
  {
    var x := t.proc[p];
    t.(proc := t.proc[p := x.(state := RUNNABLE)], l := t.l[x.level := Enqueued(t.l[x.level], p)])
  }

  predicate SleepsOn(t: Table, p: nat, chan: Chan)
    requires Shaped(t) && p < NPROC
  {
    t.proc[p].state == SLEEPING && t.proc[p].chan == Some(chan)
  }

  /** wakeup1 from slot `i` on. */
  function WokenFrom(t: Table, chan: Chan, i: nat): (r: Table)
    requires Shaped(t) && i <= NPROC
    ensures Shaped(r)
    decreases NPROC - i
  {
    if i == NPROC then t
    else WokenFrom(if SleepsOn(t, i, chan) then MadeReady(t, i) else t, chan, i + 1)
  }

  function Woken(t: Table, chan: Chan): (r: Table)
    requires Shaped(t)
    ensures Shaped(r)
  {
    WokenFrom(t, chan, 0)
  }

  /** The first slot from `i` on that is UNUSED, or NPROC. */
  function FirstUnused(t: Table, i: nat): (r: nat)
    requires Shaped(t) && i <= NPROC
    ensures i <= r <= NPROC && (r < NPROC ==> t.proc[r].state == UNUSED)
    ensures forall j :: i <= j < r ==> t.proc[j].state != UNUSED
    decreases NPROC - i
  {
    if i == NPROC || t.proc[i].state == UNUSED then i else FirstUnused(t, i + 1)
  }

  /** allocproc, its part under the lock. */
  function Allocated(t: Table): (r: Table)
    requires Shaped(t)
    ensures Shaped(r)
  {
    var p := FirstUnused(t, 0);
    if p == NPROC then t
    else
      var x := t.proc[p].(state := EMBRYO, pid := t.nextpid, priority := 3, usedtime := 0, level := 0);
      t.(proc := t.proc[p := x], nextpid := t.nextpid + 1)
  }

  /** fork, when the child could not be completed. */
  function Abandoned(t: Table, p: nat): (r: Table)
    requires Shaped(t) && p < NPROC
    ensures Shaped(r)
  {
    t.(proc := t.proc[p := t.proc[p].(state := UNUSED)])
  }

  /** fork and userinit, when the new process becomes runnable. */
  function Started(t: Table, p: nat, parent: Option<nat>): (r: Table)
    requires Shaped(t) && p < NPROC
    ensures Shaped(r)
  {
    MadeReady(t.(proc := t.proc[p := t.proc[p].(parent := parent)]), p)
  }

  predicate HoldsLock(t: Table, p: nat)
    requires Shaped(t) && p < NPROC
  {
    t.lock.Some? && t.proc[t.lock.value].pid == t.proc[p].pid
  }

  /** yield: the holder of the scheduler lock keeps the processor. */
  function Yielded(t: Table, p: nat): (r: Table)
    requires Shaped(t) && p < NPROC
    ensures Shaped(r)
  {
    if HoldsLock(t, p) then t else MadeReady(t, p)
  }

  function Slept(t: Table, p: nat, chan: Chan): (r: Table)
    requires Shaped(t) && p < NPROC
    ensures Shaped(r)
  {
    t.(proc := t.proc[p := t.proc[p].(chan := Some(chan), state := SLEEPING)])
  }

  /** The first slot from `i` on with this pid, or NPROC. */
  function SlotOf(t: Table, pid: int, i: nat): (r: nat)
    requires Shaped(t) && i <= NPROC
    ensures i <= r <= NPROC && (r < NPROC ==> t.proc[r].pid == pid)
    ensures forall j :: i <= j < r ==> t.proc[j].pid != pid
    decreases NPROC - i
  {
    if i == NPROC || t.proc[i].pid == pid then i else SlotOf(t, pid, i + 1)
  }

  function Killed(t: Table, pid: int): (r: Table)
    requires Shaped(t)
    ensures Shaped(r)
  {
    var p := SlotOf(t, pid, 0);
    if p == NPROC then t
    else
      var u := t.(proc := t.proc[p := t.proc[p].(killed := true)]);
      if t.proc[p].state == SLEEPING then MadeReady(u, p) else u
  }

  /** exit's loop body for slot `i`: a child of `p` goes to initproc. */
  function OrphanedOne(t: Table, p: nat, i: nat): (r: Table)
    requires Shaped(t) && i < NPROC
    ensures Shaped(r)
  {
    if t.proc[i].parent == Some(p) then
      var u := t.(proc := t.proc[i := t.proc[i].(parent := Some(t.init))]);
      if u.proc[i].state == ZOMBIE then Woken(u, OnProc(t.init)) else u
    else t
  }

  /** exit's loop over the children of `p`, from slot `i` on. */
  function OrphanedFrom(t: Table, p: nat, i: nat): (r: Table)
    requires Shaped(t) && i <= NPROC
    ensures Shaped(r)
    decreases NPROC - i
  {
    if i == NPROC then t else OrphanedFrom(OrphanedOne(t, p, i), p, i + 1)
  }

  /** exit: any exit lets go of the scheduler lock, whoever holds it. */
  function Exited(t: Table, p: nat): (r: Table)
    requires Shaped(t) && p < NPROC
    ensures Shaped(r)
  {
    var parent := t.proc[p].parent;
    var u := if parent.Some? then Woken(t, OnProc(parent.value)) else t;
    var w := OrphanedFrom(u, p, 0);
    w.(proc := w.proc[p := w.proc[p].(state := ZOMBIE)], lock := None)
  }

  /** The first zombie child of `p` from slot `i` on, or NPROC. */
  function ZombieOf(t: Table, p: nat, i: nat): (r: nat)
    requires Shaped(t) && i <= NPROC
    ensures i <= r <= NPROC && (r < NPROC ==> t.proc[r].state == ZOMBIE && t.proc[r].parent == Some(p))
    ensures forall j :: i <= j < r ==> !(t.proc[j].state == ZOMBIE && t.proc[j].parent == Some(p))
    decreases NPROC - i
  {
    if i == NPROC || (t.proc[i].parent == Some(p) && t.proc[i].state == ZOMBIE) then i else ZombieOf(t, p, i + 1)
  }

  /** wait, when it finds a zombie child. */
  function Reaped(t: Table, p: nat): (r: Table)
    requires Shaped(t) && p < NPROC
    ensures Shaped(r)
  {
    var c := ZombieOf(t, p, 0);
    if c == NPROC then t
    else t.(proc := t.proc[c := t.proc[c].(pid := 0, parent := None, killed := false, state := UNUSED)])
  }

  function PrioritySet(t: Table, pid: int, priority: int): (r: Table)
    requires Shaped(t)
    ensures Shaped(r)
  {
    var p := SlotOf(t, pid, 0);
    if priority < 0 || priority > 3 || p == NPROC then t
    else t.(proc := t.proc[p := t.proc[p].(priority := priority)])
  }

  /** schedulerLock with the right password. */
  function Locked(t: Table, p: nat): (r: Table)
    requires Shaped(t) && p < NPROC
    ensures Shaped(r)
  {
    if t.lock.Some? then t else t.(lock := Some(p))
  }

  /** schedulerUnlock with the right password: the holder goes to the front of L0. */
  function Unlocked(t: Table, p: nat): (r: Table)
    requires Shaped(t) && p < NPROC
    ensures Shaped(r)
  {
    if !HoldsLock(t, p) then t
    else
      t.(lock := None,
         proc := t.proc[p := t.proc[p].(level := 0, usedtime := 0, priority := 3, state := RUNNABLE)],
         l := t.l[0 := Inserted(t.l[0], p)])
  }

  // ---------------------------------------------------------------- dispatching

  /** The first nonempty queue, or 3. */
  function TopQueue(t: Table): (i: nat)
    requires Shaped(t)
    ensures i <= 3 && (i < 3 ==> t.l[i] != []) && forall j :: 0 <= j < i ==> t.l[j] == []
  {
    if t.l[0] != [] then 0 else if t.l[1] != [] then 1 else if t.l[2] != [] then 2 else 3
  }

  /** The best of `best` and the processes of `q`: a smaller priority value wins, the earlier one
      among equals. */
  function Best(proc: seq<Proc>, best: nat, q: seq<nat>): (p: nat)
    requires best < |proc| && forall j :: 0 <= j < |q| ==> q[j] < |proc|
    ensures p == best || p in q
    ensures p < |proc|
    decreases |q|
  {
    if q == [] then best
    else Best(proc, if proc[q[0]].priority < proc[best].priority then q[0] else best, q[1..])
  }

  /** The process the scheduler picks from queue `i`. */
  function Picked(t: Table, i: nat): (p: nat)
    requires Shaped(t) && i < 3 && t.l[i] != []
    ensures p < NPROC
  {
    var p := t.l[i][0];
    if t.proc[p].level == 2 && t.l[2] != [] then Best(t.proc, p, t.l[2][1..]) else p
  }

  /** The fields of a process after the scheduler has charged it for a turn. */
  function Charged(x: Proc): Proc {
    var y := x.(usedtime := x.usedtime + 1);
    if y.usedtime < Quantum(y.level) then y
    else if y.level < 2 then y.(usedtime := 0, level := y.level + 1)
    else if y.priority > 0 then y.(usedtime := 0, priority := y.priority - 1)
    else y.(usedtime := 0)
  }

  /** One turn of mlfqscheduler. */
  function Dispatched(t: Table): (r: Table)
    requires Shaped(t)
    ensures Shaped(r)
  {
    var i := TopQueue(t);
    if i == 3 then t
    else
      var p := Picked(t, i);
      var x := t.proc[p];
      var q := t.l[x.level];
      var rest := if x.level == 2 then RemovedAt(q, Find(t.proc, q, x.pid)) else Dequeued(q);
      t.(proc := t.proc[p := Charged(x.(state := RUNNING))], l := t.l[x.level := rest])
  }

  // ---------------------------------------------------------------- boosting

  function Boosted(x: Proc): Proc {
    x.(priority := 3, usedtime := 0, level := 0)
  }

  /** Each process of `ps` boosted. */
  function BoostedAll(proc: seq<Proc>, ps: seq<nat>): (r: seq<Proc>)
    requires forall j :: 0 <= j < |ps| ==> ps[j] < |proc|
    ensures |r| == |proc|
  {
    if ps == [] then proc
    else
      var r := BoostedAll(proc, ps[..|ps|-1]);
      r[ps[|ps|-1] := Boosted(r[ps[|ps|-1]])]
  }

  function EnqueuedAll(q: seq<nat>, ps: seq<nat>): seq<nat> {
    if ps == [] then q else Enqueued(EnqueuedAll(q, ps[..|ps|-1]), ps[|ps|-1])
  }

  /** How many processes boosting moves out of a queue of `n`: the loop stops when its counter
      meets the shrinking size. */
  function MovedCount(n: nat): nat {
    (n + 1) / 2
  }

  /** Boosting queue 1 or 2. */
  function BoostedQueue(t: Table, i: nat): (r: Table)
    requires Shaped(t) && 0 < i < 3
    ensures Shaped(r)
  {
    var moved := t.l[i][..MovedCount(|t.l[i]|)];
    BoostedAllLevels(t.proc, moved);
    EnqueuedAllRange(t.l[0], moved);
    t.(proc := BoostedAll(t.proc, moved),
       l := t.l[0 := EnqueuedAll(t.l[0], moved)][i := t.l[i][MovedCount(|t.l[i]|)..]])
  }

  lemma {:induction false} BoostedAllLevels(proc: seq<Proc>, ps: seq<nat>)
    requires forall j :: 0 <= j < |ps| ==> ps[j] < |proc|
    ensures forall p :: 0 <= p < |proc| ==>
      BoostedAll(proc, ps)[p] == if p in ps then Boosted(proc[p]) else proc[p]
  {
    if ps != [] {
      var front, last := ps[..|ps|-1], ps[|ps|-1];
      BoostedAllLevels(proc, front);
      assert ps == front + [last];
    }
  }

  lemma {:induction false} EnqueuedAllRange(q: seq<nat>, ps: seq<nat>)
    requires (forall j :: 0 <= j < |q| ==> q[j] < NPROC) && (forall j :: 0 <= j < |ps| ==> ps[j] < NPROC)
    ensures forall j :: 0 <= j < |EnqueuedAll(q, ps)| ==> EnqueuedAll(q, ps)[j] < NPROC
  {
    if ps != [] {
      EnqueuedAllRange(q, ps[..|ps|-1]);
    }
  }

  /** priorityboosting: of L0 only the front process is boosted. */
  function PriorityBoosted(t: Table): (r: Table)
    requires Shaped(t)
    ensures Shaped(r)
  {
    var t0 := if t.l[0] == [] then t else t.(proc := t.proc[t.l[0][0] := Boosted(t.proc[t.l[0][0]])]);
    var t2 := BoostedQueue(BoostedQueue(t0, 1), 2);
    if t2.lock.None? then t2
    else t2.(lock := None, proc := t2.proc[t2.lock.value := Boosted(t2.proc[t2.lock.value])])
  }
}
