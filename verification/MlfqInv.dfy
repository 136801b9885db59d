/** The queue invariant of the scheduler, kept by every step. */
module MlfqInv {
  import opened MlfqSpec
  import opened Wrappers

  predicate Distinct(q: seq<nat>) {
    forall i, j :: 0 <= i < j < |q| ==> q[i] != q[j]
  }

  /** The quantities of each process are in range. */
  ghost predicate InRange(t: Table)
    requires Shaped(t)
  {
    forall p :: 0 <= p < NPROC ==>
      0 <= t.proc[p].usedtime < Quantum(t.proc[p].level) && 0 <= t.proc[p].priority <= 3
  }

  /** A process is RUNNABLE exactly if it stands in a queue, the queue of its level, and it stands
      there once. */
  ghost predicate Queued(t: Table)
    requires Shaped(t)
  {
    && (forall i :: 0 <= i < 3 ==> Distinct(t.l[i]))
    && (forall i, j :: 0 <= i < 3 && 0 <= j < |t.l[i]| ==>
          t.proc[t.l[i][j]].state == RUNNABLE && t.proc[t.l[i][j]].level == i)
    && (forall p :: 0 <= p < NPROC && t.proc[p].state == RUNNABLE ==> p in t.l[t.proc[p].level])
  }

  /** Processes in use have different pids, all handed out before. */
  ghost predicate PidsOk(t: Table)
    requires Shaped(t)
  {
    && (forall p :: 0 <= p < NPROC && t.proc[p].state != UNUSED ==> t.proc[p].pid < t.nextpid)
    && (forall p, q :: 0 <= p < q < NPROC && t.proc[p].state != UNUSED && t.proc[q].state != UNUSED ==>
          t.proc[p].pid != t.proc[q].pid)
  }

  /** The holder of the scheduler lock is running. */
  ghost predicate HolderRuns(t: Table)
    requires Shaped(t)
  {
    t.lock.Some? ==> t.proc[t.lock.value].state == RUNNING
  }

  ghost predicate TableOk(t: Table) {
    Shaped(t) && InRange(t) && Queued(t) && PidsOk(t) && HolderRuns(t)
  }

  // ---------------------------------------------------------------- room in the queues

  lemma {:induction false} DistinctFits(q: seq<nat>, n: nat)
    requires Distinct(q) && forall j :: 0 <= j < |q| ==> q[j] < n
    ensures |q| <= n
    decreases n
  {
    if q != [] {
      assert q[0] < n;
      if n - 1 in q {
        var i :| 0 <= i < |q| && q[i] == n - 1;
        var rest := q[..i] + q[i+1..];
        assert forall j :: 0 <= j < |rest| ==> rest[j] == q[if j < i then j else j + 1];
        DistinctFits(rest, n - 1);
      } else {
        DistinctFits(q, n - 1);
      }
    }
  }

  /** enqueue and insertqueue never drop a process that is not queued yet. */
  lemma {:induction false} NeverDrops(t: Table, i: nat, p: nat)
    requires Shaped(t) && Queued(t) && i < 3 && p < NPROC && t.proc[p].state != RUNNABLE
    ensures |t.l[i]| < NPROC && p !in t.l[i]
  {
    var q := t.l[i];
    assert Distinct(q + [p]);
    DistinctFits(q + [p], NPROC);
  }

  // ---------------------------------------------------------------- steps

  lemma {:induction false} DistinctMore(q: seq<nat>, p: nat)
    requires Distinct(q) && p !in q
    ensures Distinct(q + [p])
  {
  }

  lemma {:induction false} ReadyKeeps(t: Table, p: nat)
    requires TableOk(t) && p < NPROC && t.proc[p].state !in {RUNNABLE, UNUSED}
    requires t.lock != Some(p)
    ensures TableOk(MadeReady(t, p))
  {
    hide Distinct;
    var r, i := MadeReady(t, p), t.proc[p].level;
    NeverDrops(t, i, p);
    NeverDrops(t, 0, p);
    NeverDrops(t, 1, p);
    NeverDrops(t, 2, p);
    assert r.l[i] == t.l[i] + [p];
    DistinctMore(t.l[i], p);
    forall q | 0 <= q < NPROC && r.proc[q].state == RUNNABLE
      ensures q in r.l[r.proc[q].level]
    {
      if q == p {
        assert r.l[i][|t.l[i]|] == p;
      } else {
        var j :| 0 <= j < |t.l[t.proc[q].level]| && t.l[t.proc[q].level][j] == q;
        assert r.l[t.proc[q].level][j] == q;
      }
    }
  }

  lemma {:induction false} WakeKeeps(t: Table, chan: Chan, i: nat)
    requires TableOk(t) && i <= NPROC
    ensures TableOk(WokenFrom(t, chan, i))
    ensures WokenFrom(t, chan, i).lock == t.lock && WokenFrom(t, chan, i).init == t.init
    ensures forall p :: 0 <= p < NPROC && t.proc[p].state != SLEEPING ==> WokenFrom(t, chan, i).proc[p] == t.proc[p]
    decreases NPROC - i
  {
    if i < NPROC {
      if SleepsOn(t, i, chan) {
        ReadyKeeps(t, i);
        hide TableOk;
        WakeKeeps(MadeReady(t, i), chan, i + 1);
      } else {
        hide TableOk;
        WakeKeeps(t, chan, i + 1);
      }
    }
  }

  /** Changing fields of a process that the invariant does not look at. */
  lemma {:induction false} QuietKeeps(t: Table, p: nat, x: Proc)
    requires TableOk(t) && p < NPROC
    requires x.state == t.proc[p].state && x.pid == t.proc[p].pid && x.level == t.proc[p].level
    requires x.usedtime == t.proc[p].usedtime && 0 <= x.priority <= 3
    ensures TableOk(t.(proc := t.proc[p := x]))
  {
  }

  /** A change between states that are neither RUNNABLE nor, on the way in, UNUSED. */
  lemma {:induction false} StateKeeps(t: Table, p: nat, x: Proc)
    requires TableOk(t) && p < NPROC && t.proc[p].state != RUNNABLE && x.state != RUNNABLE
    requires t.lock != Some(p) && (x.state != UNUSED ==> t.proc[p].state != UNUSED && x.pid == t.proc[p].pid)
    requires x.level == t.proc[p].level && x.usedtime == t.proc[p].usedtime && 0 <= x.priority <= 3
    ensures TableOk(t.(proc := t.proc[p := x]))
  {
  }

  lemma {:induction false} AllocKeeps(t: Table)
    requires TableOk(t)
    ensures TableOk(Allocated(t))
  {
  }

  lemma {:induction false} OrphanOneKeeps(t: Table, p: nat, i: nat)
    requires TableOk(t) && i < NPROC
    ensures TableOk(OrphanedOne(t, p, i))
    ensures OrphanedOne(t, p, i).lock == t.lock && OrphanedOne(t, p, i).init == t.init
    ensures forall q :: 0 <= q < NPROC && t.proc[q].state != SLEEPING ==>
      OrphanedOne(t, p, i).proc[q].state == t.proc[q].state
  {
    hide InRange, Queued, PidsOk, HolderRuns, WokenFrom;
    if t.proc[i].parent == Some(p) {
      ParentKeeps(t, i, Some(t.init));
      var u := t.(proc := t.proc[i := t.proc[i].(parent := Some(t.init))]);
      WakeKeeps(u, OnProc(t.init), 0);
    }
  }

  lemma {:induction false} OrphanKeeps(t: Table, p: nat, i: nat)
    requires TableOk(t) && i <= NPROC
    ensures TableOk(OrphanedFrom(t, p, i))
    ensures OrphanedFrom(t, p, i).lock == t.lock && OrphanedFrom(t, p, i).init == t.init
    ensures forall q :: 0 <= q < NPROC && t.proc[q].state != SLEEPING ==>
      OrphanedFrom(t, p, i).proc[q].state == t.proc[q].state
    decreases NPROC - i
  {
    hide InRange, Queued, PidsOk, HolderRuns, OrphanedOne;
    if i < NPROC {
      OrphanOneKeeps(t, p, i);
      OrphanKeeps(OrphanedOne(t, p, i), p, i + 1);
    }
  }

  lemma {:induction false} ParentKeeps(t: Table, i: nat, parent: Option<nat>)
    requires TableOk(t) && i < NPROC
    ensures TableOk(t.(proc := t.proc[i := t.proc[i].(parent := parent)]))
  {
  }

  lemma {:induction false} UnlockKeepsOk(t: Table)
    requires TableOk(t)
    ensures TableOk(t.(lock := None))
  {
  }

  lemma {:induction false} ExitKeeps(t: Table, p: nat)
    requires TableOk(t) && p < NPROC && t.proc[p].state == RUNNING
    ensures TableOk(Exited(t, p))
  {
    hide WokenFrom, OrphanedFrom;
    var parent := t.proc[p].parent;
    if parent.Some? {
      WakeKeeps(t, OnProc(parent.value), 0);
    }
    var u := if parent.Some? then Woken(t, OnProc(parent.value)) else t;
    OrphanKeeps(u, p, 0);
    var w := OrphanedFrom(u, p, 0);
    UnlockKeepsOk(w);
    StateKeeps(w.(lock := None), p, w.proc[p].(state := ZOMBIE));
  }

  /** The unlocking process stands at the front of L0, the others where they stood. */
  lemma {:induction false} UnlockQueued(t: Table, p: nat)
    requires Shaped(t) && Queued(t) && p < NPROC && t.proc[p].state == RUNNING && HoldsLock(t, p)
    requires t.lock == Some(p) && |t.l[0]| < NPROC
    ensures Queued(Unlocked(t, p))
  {
  }

  lemma {:induction false} UnlockKeeps(t: Table, p: nat)
    requires TableOk(t) && p < NPROC && t.proc[p].state == RUNNING
    ensures TableOk(Unlocked(t, p))
  {
    if HoldsLock(t, p) {
      assert t.lock.value == p;
      NeverDrops(t, 0, p);
      UnlockQueued(t, p);
      hide Queued;
    }
  }

  // ---------------------------------------------------------------- dispatching

  lemma {:induction false} FindSelf(t: Table, i: nat, p: nat)
    requires TableOk(t) && i < 3 && p < NPROC && p in t.l[i]
    ensures Find(t.proc, t.l[i], t.proc[p].pid) < |t.l[i]|
    ensures t.l[i][Find(t.proc, t.l[i], t.proc[p].pid)] == p
  {
  }

  /** What is left of a queue of distinct processes without the one at index `k`. */
  lemma {:induction false} RemovedMembers(q: seq<nat>, k: nat)
    requires Distinct(q) && k < |q|
    ensures Distinct(RemovedAt(q, k)) && |RemovedAt(q, k)| == |q| - 1
    ensures forall a :: a in RemovedAt(q, k) <==> a in q && a != q[k]
  {
  }

  /** Taking the process at index `k` out of queue `i` and running it. */
  lemma {:induction false} TakeKeeps(t: Table, i: nat, k: nat, x: Proc)
    requires TableOk(t) && i < 3 && k < |t.l[i]|
    requires x.state == RUNNING && x.pid == t.proc[t.l[i][k]].pid && x.level < 3
    requires 0 <= x.usedtime < Quantum(x.level) && 0 <= x.priority <= 3
    ensures TableOk(t.(proc := t.proc[t.l[i][k] := x], l := t.l[i := RemovedAt(t.l[i], k)]))
  {
    hide RemovedAt;
    var p, q := t.l[i][k], RemovedAt(t.l[i], k);
    RemovedMembers(t.l[i], k);
    var r := t.(proc := t.proc[p := x], l := t.l[i := q]);
    forall j | 0 <= j < |q|
      ensures q[j] in t.l[i] && q[j] != p
    {
      assert q[j] in q;
    }
  }

  lemma {:induction false} PickedPlace(t: Table) returns (i: nat, k: nat)
    requires TableOk(t) && TopQueue(t) < 3
    ensures i == TopQueue(t) && t.proc[Picked(t, i)].level == i
    ensures k < |t.l[i]| && t.l[i][k] == Picked(t, i)
    ensures Dispatched(t) ==
      t.(proc := t.proc[t.l[i][k] := Charged(t.proc[t.l[i][k]].(state := RUNNING))],
        l := t.l[i := RemovedAt(t.l[i], k)])
  {
    hide Find, Best;
    i := TopQueue(t);
    var p := Picked(t, i);
    assert p in t.l[i];
    if i == 2 {
      FindSelf(t, i, p);
      k := Find(t.proc, t.l[i], t.proc[p].pid);
    } else {
      k := 0;
      assert RemovedAt(t.l[i], 0) == Dequeued(t.l[i]);
    }
  }

  lemma {:induction false} DispatchKeeps(t: Table)
    requires TableOk(t)
    ensures TableOk(Dispatched(t))
  {
    if TopQueue(t) < 3 {
      var i, k := PickedPlace(t);
      hide Dispatched;
      TakeKeeps(t, i, k, Charged(t.proc[t.l[i][k]].(state := RUNNING)));
    }
  }

  /** `p` stands at index `k` of L2; those before it have a larger priority value, those after it
      no smaller one. */
  ghost predicate FirstBest(t: Table, k: nat, p: nat)
    requires Shaped(t) && k < |t.l[2]| && p < NPROC
  {
    && t.l[2][k] == p
    && (forall j :: 0 <= j < k ==> t.proc[t.l[2][j]].priority > t.proc[p].priority)
    && (forall j :: k <= j < |t.l[2]| ==> t.proc[t.l[2][j]].priority >= t.proc[p].priority)
  }

  /** What the scheduler picks: from the first nonempty queue; in L0 and L1 the process at the
      front; in L2 one of least priority value, the first of those in queue order. */
  lemma {:induction false} PickIsBest(t: Table)
    requires TableOk(t) && TopQueue(t) < 3
    ensures var i := TopQueue(t);
      var p := Picked(t, i);
      && p in t.l[i]
      && (i < 2 ==> p == t.l[i][0])
      && (i == 2 ==> exists k :: 0 <= k < |t.l[2]| && FirstBest(t, k, p))
  {
    var i := TopQueue(t);
    if i == 2 {
      var k := BestFirst(t.proc, t.l[2]);
      assert t.proc[t.l[2][0]].level == 2;
      assert FirstBest(t, k, Picked(t, 2));
    }
  }

  lemma {:induction false} BestFirst(proc: seq<Proc>, q: seq<nat>) returns (k: nat)
    requires q != [] && forall j :: 0 <= j < |q| ==> q[j] < |proc|
    ensures k < |q| && q[k] == Best(proc, q[0], q[1..])
    ensures forall j :: 0 <= j < k ==> proc[q[j]].priority > proc[q[k]].priority
    ensures forall j :: k <= j < |q| ==> proc[q[j]].priority >= proc[q[k]].priority
    decreases |q|
  {
    if |q| == 1 {
      k := 0;
    } else if proc[q[1]].priority < proc[q[0]].priority {
      k := BestFirst(proc, q[1..]);
      k := k + 1;
    } else {
      var rest := [q[0]] + q[2..];
      k := BestFirst(proc, rest);
      assert rest[1..] == q[1..][1..];
      assert forall j :: 2 <= j < |q| ==> rest[j-1] == q[j];
      if k > 0 {
        assert rest[k] == q[k + 1] && rest[0] == q[0];
        k := k + 1;
      }
    }
  }

  // ---------------------------------------------------------------- boosting

  lemma {:induction false} BoostFieldsKeep(t: Table, p: nat)
    requires TableOk(t) && p < NPROC && (t.proc[p].state == RUNNABLE ==> t.proc[p].level == 0)
    ensures TableOk(t.(proc := t.proc[p := Boosted(t.proc[p])]))
  {
  }

  /** A process not RUNNABLE is in no queue; one that is, only in the queue of its level. */
  lemma {:induction false} NotInOthers(t: Table, p: nat)
    requires TableOk(t) && p < NPROC
    ensures forall i :: 0 <= i < 3 && p in t.l[i] ==> t.proc[p].state == RUNNABLE && t.proc[p].level == i
  {
  }

  /** Boosting one process out of the front of queue `i`: the body of the loop. */
  function BoostedFront(t: Table, i: nat): (r: Table)
    requires Shaped(t) && 0 < i < 3 && t.l[i] != []
    ensures Shaped(r)
  {
    var p := t.l[i][0];
    t.(proc := t.proc[p := Boosted(t.proc[p])], l := t.l[i := Dequeued(t.l[i])][0 := Enqueued(t.l[0], p)])
  }

  lemma {:induction false} FrontKeeps(t: Table, i: nat)
    requires TableOk(t) && 0 < i < 3 && t.l[i] != []
    ensures TableOk(BoostedFront(t, i))
    ensures BoostedFront(t, i).l[0] == t.l[0] + [t.l[i][0]]
  {
    var p := t.l[i][0];
    var x := Boosted(t.proc[p]);
    // run it first, then make it ready again at level 0
    var u := t.(proc := t.proc[p := x.(state := RUNNING)], l := t.l[i := RemovedAt(t.l[i], 0)]);
    TakeKeeps(t, i, 0, x.(state := RUNNING));
    ReadyKeeps(u, p);
    NeverDrops(u, 0, p);
    assert RemovedAt(t.l[i], 0) == Dequeued(t.l[i]);
    var r := MadeReady(u, p);
    assert r.proc == BoostedFront(t, i).proc && r.l == BoostedFront(t, i).l;
  }

  /** The loop over queue `i`, after `s` of its turns. */
  function BoostedTurns(t: Table, i: nat, s: nat): (r: Table)
    requires Shaped(t) && 0 < i < 3
    ensures Shaped(r)
  {
    if s == 0 then t
    else
      var r := BoostedTurns(t, i, s - 1);
      if r.l[i] == [] then r else BoostedFront(r, i)
  }

  lemma {:induction false} TurnsOpen(t: Table, i: nat, s: nat)
    requires Shaped(t) && 0 < i < 3
    ensures BoostedTurns(t, i, 0) == t
    ensures s > 0 && BoostedTurns(t, i, s - 1).l[i] != [] ==>
      BoostedTurns(t, i, s) == BoostedFront(BoostedTurns(t, i, s - 1), i)
  {
  }

  /** What the loop has done after `s` turns: the first `s` processes of the queue are boosted and
      stand in order at the end of L0. */
  lemma {:induction false} TurnsAre(t: Table, i: nat, s: nat)
    requires TableOk(t) && 0 < i < 3 && s <= |t.l[i]|
    ensures TableOk(BoostedTurns(t, i, s))
    ensures BoostedTurns(t, i, s).l == t.l[0 := t.l[0] + t.l[i][..s]][i := t.l[i][s..]]
    ensures BoostedTurns(t, i, s).proc == BoostedAll(t.proc, t.l[i][..s])
    ensures BoostedTurns(t, i, s) == t.(proc := BoostedTurns(t, i, s).proc, l := BoostedTurns(t, i, s).l)
  {
    hide InRange, Queued, PidsOk, HolderRuns, Boosted, Enqueued, BoostedTurns;
    TurnsOpen(t, i, s);
    if s == 0 {
      assert t.l[i][..0] == [] && t.l[0] + [] == t.l[0] && t.l[i][0..] == t.l[i];
    } else {
      TurnsAre(t, i, s - 1);
      var r := BoostedTurns(t, i, s - 1);
      FrontKeeps(r, i);
      assert t.l[i][..s][..s-1] == t.l[i][..s-1] && t.l[i][s-1..][0] == t.l[i][s-1];
      assert t.l[0] + t.l[i][..s] == t.l[0] + t.l[i][..s-1] + [t.l[i][s-1]];
      assert Dequeued(t.l[i][s-1..]) == t.l[i][s..];
    }
  }

  lemma {:induction false} EnqueuedAllFits(q: seq<nat>, ps: seq<nat>)
    requires |q| + |ps| <= NPROC
    ensures EnqueuedAll(q, ps) == q + ps
  {
    if ps == [] {
      assert q + ps == q;
    } else {
      EnqueuedAllFits(q, ps[..|ps|-1]);
      assert q + ps == q + ps[..|ps|-1] + [ps[|ps|-1]];
    }
  }

  lemma {:induction false} EnqueuedAllIs(t: Table, i: nat, s: nat)
    requires TableOk(t) && 0 < i < 3 && s <= |t.l[i]|
    ensures EnqueuedAll(t.l[0], t.l[i][..s]) == t.l[0] + t.l[i][..s]
  {
    TurnsAre(t, i, s);
    hide BoostedTurns, EnqueuedAll;
    DistinctFits(BoostedTurns(t, i, s).l[0], NPROC);
    EnqueuedAllFits(t.l[0], t.l[i][..s]);
  }

  lemma {:induction false} QueueBoostKeeps(t: Table, i: nat)
    requires TableOk(t) && 0 < i < 3
    ensures TableOk(BoostedQueue(t, i))
    ensures BoostedQueue(t, i).lock == t.lock
    ensures var m := MovedCount(|t.l[i]|);
      BoostedQueue(t, i).l == t.l[0 := t.l[0] + t.l[i][..m]][i := t.l[i][m..]]
  {
    hide InRange, Queued, PidsOk, HolderRuns, BoostedTurns;
    var m := MovedCount(|t.l[i]|);
    TurnsAre(t, i, m);
    EnqueuedAllIs(t, i, m);
    assert BoostedQueue(t, i) == BoostedTurns(t, i, m);
  }

  lemma {:induction false} BoostKeeps(t: Table)
    requires TableOk(t)
    ensures TableOk(PriorityBoosted(t))
  {
    var t0 := if t.l[0] == [] then t else t.(proc := t.proc[t.l[0][0] := Boosted(t.proc[t.l[0][0]])]);
    if t.l[0] != [] {
      BoostFieldsKeep(t, t.l[0][0]);
    }
    QueueBoostKeeps(t0, 1);
    QueueBoostKeeps(BoostedQueue(t0, 1), 2);
    var t2 := BoostedQueue(BoostedQueue(t0, 1), 2);
    if t2.lock.Some? {
      BoostFieldsKeep(t2, t2.lock.value);
      UnlockKeepsOk(t2.(proc := t2.proc[t2.lock.value := Boosted(t2.proc[t2.lock.value])]));
    }
  }

  lemma {:induction false} BoostLists(t: Table)
    requires TableOk(t)
    ensures var m1, m2 := (|t.l[1]| + 1) / 2, (|t.l[2]| + 1) / 2;
      PriorityBoosted(t).l == [t.l[0] + t.l[1][..m1] + t.l[2][..m2], t.l[1][m1..], t.l[2][m2..]]
  {
    var t0 := if t.l[0] == [] then t else t.(proc := t.proc[t.l[0][0] := Boosted(t.proc[t.l[0][0]])]);
    if t.l[0] != [] {
      BoostFieldsKeep(t, t.l[0][0]);
    }
    hide InRange, Queued, PidsOk, HolderRuns, BoostedQueue, Boosted;
    QueueBoostKeeps(t0, 1);
    QueueBoostKeeps(BoostedQueue(t0, 1), 2);
  }

  /** Boosting in closed form: the first half, rounded up, of L1 and then of L2 goes in order to
      the end of L0, and the rest stays; no process is lost. */
  lemma {:induction false} BoostMoves(t: Table)
    requires TableOk(t)
    ensures var r, m1, m2 := PriorityBoosted(t), (|t.l[1]| + 1) / 2, (|t.l[2]| + 1) / 2;
      && r.l == [t.l[0] + t.l[1][..m1] + t.l[2][..m2], t.l[1][m1..], t.l[2][m2..]]
      && multiset(r.l[0]) + multiset(r.l[1]) + multiset(r.l[2])
         == multiset(t.l[0]) + multiset(t.l[1]) + multiset(t.l[2])
  {
    hide InRange, Queued, PidsOk, HolderRuns, PriorityBoosted;
    BoostLists(t);
    SplitCounts(t.l[0], t.l[1], t.l[2], (|t.l[1]| + 1) / 2, (|t.l[2]| + 1) / 2);
  }

  lemma {:induction false} SplitCounts(a: seq<nat>, b: seq<nat>, c: seq<nat>, m: nat, n: nat)
    requires m <= |b| && n <= |c|
    ensures multiset(a + b[..m] + c[..n]) + multiset(b[m..]) + multiset(c[n..]) == multiset(a) + multiset(b) +
      multiset(c)
  {
    SplitCount(b, m);
    SplitCount(c, n);
    assert multiset(a + b[..m] + c[..n]) == multiset(a) + multiset(b[..m]) + multiset(c[..n]);
  }

  lemma {:induction false} SplitCount(b: seq<nat>, m: nat)
    requires m <= |b|
    ensures multiset(b) == multiset(b[..m]) + multiset(b[m..])
  {
    assert b == b[..m] + b[m..];
  }

  lemma {:induction false} BoostEmptiesExactly(t: Table)
    requires TableOk(t)
    ensures PriorityBoosted(t).l[1] == PriorityBoosted(t).l[2] == [] <==> |t.l[1]| <= 1 && |t.l[2]| <= 1
  {
  }

  /** The processes boosting resets: the front of L0, the first half, rounded up, of L1 and of L2,
      and the holder of the scheduler lock. */
  predicate BoostReaches(t: Table, p: nat)
    requires Shaped(t)
  {
    || (t.l[0] != [] && p == t.l[0][0])
    || p in t.l[1][..(|t.l[1]| + 1) / 2]
    || p in t.l[2][..(|t.l[2]| + 1) / 2]
    || t.lock == Some(p)
  }

  /** Those are reset and no field of any other process changes. */
  lemma {:induction false} BoostFields(t: Table, p: nat)
    requires TableOk(t) && p < NPROC
    ensures PriorityBoosted(t).proc[p] == if BoostReaches(t, p) then Boosted(t.proc[p]) else t.proc[p]
  {
    hide InRange, Queued, PidsOk, HolderRuns;
    var t0 := if t.l[0] == [] then t else t.(proc := t.proc[t.l[0][0] := Boosted(t.proc[t.l[0][0]])]);
    var t1 := BoostedQueue(t0, 1);
    assert t1.l[2] == t.l[2];
    BoostedAllLevels(t0.proc, t.l[1][..MovedCount(|t.l[1]|)]);
    BoostedAllLevels(t1.proc, t.l[2][..MovedCount(|t.l[2]|)]);
  }

  /** As a process stands when boosting has reset it. */
  predicate AtTop(x: Proc) {
    x.level == 0 && x.usedtime == 0 && x.priority == 3
  }

  /** Every process in use stands so, the rest of L0, sleeping and running processes included. */
  predicate AllAtTop(t: Table)
    requires Shaped(t)
  {
    forall p :: 0 <= p < NPROC && t.proc[p].state != UNUSED ==> AtTop(t.proc[p])
  }

  /** What a caller can read before the call: neither L1 nor L2 holds more than one process, and
      whoever is behind the front of L0, sleeps, runs without the scheduler lock, is being made or
      is a zombie stands at the top already. */
  predicate NothingMissed(t: Table)
    requires Shaped(t)
  {
    && |t.l[1]| <= 1 && |t.l[2]| <= 1
    && (forall j :: 1 <= j < |t.l[0]| ==> AtTop(t.proc[t.l[0][j]]))
    && (forall p :: 0 <= p < NPROC && t.proc[p].state !in {UNUSED, RUNNABLE} && t.lock != Some(p) ==> AtTop(t.proc[p]))
  }

  lemma {:induction false} ReachedOrAtTop(t: Table, p: nat)
    requires TableOk(t) && NothingMissed(t) && p < NPROC && t.proc[p].state != UNUSED
    ensures BoostReaches(t, p) || AtTop(t.proc[p])
  {
    if t.proc[p].state == RUNNABLE {
      var i := t.proc[p].level;
      var j :| 0 <= j < |t.l[i]| && t.l[i][j] == p;
      if i > 0 {
        assert j == 0 && t.l[i][..(|t.l[i]| + 1) / 2][0] == p;
      }
    }
  }

  lemma {:induction false} BehindIsMissed(t: Table, i: nat, j: nat)
    requires TableOk(t) && i < 3 && j < |t.l[i]| && j >= (if i == 0 then 1 else (|t.l[i]| + 1) / 2)
    ensures !BoostReaches(t, t.l[i][j]) && t.proc[t.l[i][j]].state == RUNNABLE && t.proc[t.l[i][j]].level == i
  {
  }

  /** Documented as resetting every process, boosting does so exactly if nothing is missed. */
  lemma {:induction false} BoostResetsExactly(t: Table)
    requires TableOk(t)
    ensures AllAtTop(PriorityBoosted(t)) <==> NothingMissed(t)
  {
    hide InRange, Queued, PidsOk, HolderRuns, PriorityBoosted;
    forall p | 0 <= p < NPROC
      ensures PriorityBoosted(t).proc[p] == if BoostReaches(t, p) then Boosted(t.proc[p]) else t.proc[p]
    {
      BoostFields(t, p);
    }
    if NothingMissed(t) {
      forall p | 0 <= p < NPROC && t.proc[p].state != UNUSED
        ensures BoostReaches(t, p) || AtTop(t.proc[p])
      {
        ReachedOrAtTop(t, p);
      }
    }
    if AllAtTop(PriorityBoosted(t)) {
      AtTopMissesNothing(t);
    }
  }

  lemma {:induction false} AtTopMissesNothing(t: Table)
    requires TableOk(t)
    requires forall p :: 0 <= p < NPROC && t.proc[p].state != UNUSED ==> BoostReaches(t, p) || AtTop(t.proc[p])
    ensures NothingMissed(t)
  {
    hide InRange, PidsOk, BoostReaches;
    if |t.l[1]| > 1 {
      BehindIsMissed(t, 1, |t.l[1]| - 1);
      assert false;
    }
    if |t.l[2]| > 1 {
      BehindIsMissed(t, 2, |t.l[2]| - 1);
      assert false;
    }
    forall j | 1 <= j < |t.l[0]|
      ensures AtTop(t.proc[t.l[0][j]])
    {
      BehindIsMissed(t, 0, j);
    }
    forall p | 0 <= p < NPROC && t.proc[p].state !in {UNUSED, RUNNABLE} && t.lock != Some(p)
      ensures AtTop(t.proc[p])
    {
      UnqueuedIsMissed(t, p);
    }
  }

  lemma {:induction false} UnqueuedIsMissed(t: Table, p: nat)
    requires TableOk(t) && p < NPROC && t.proc[p].state != RUNNABLE && t.lock != Some(p)
    ensures !BoostReaches(t, p)
  {
    NotInOthers(t, p);
  }

  /** Two processes like `x`, in the queue of its level if it is RUNNABLE. */
  function TwoOf(x: Proc): (t: Table)
    requires x.level < 3
    ensures |t.proc| == NPROC && |t.l| == 3
  {
    var free := Proc(UNUSED, 0, None, None, false, 0, 0, 0);
    Table(seq(NPROC, i => if i < 2 then x.(pid := i + 1) else free),
          if x.state == RUNNABLE then [[], [], []][x.level := [0, 1]] else [[], [], []], None, 3, 0)
  }

  lemma {:induction false} TwoOfAt(x: Proc)
    requires x.level < 3
    ensures var t := TwoOf(x);
      && (forall p :: 0 <= p < NPROC ==> t.proc[p].level < 3)
      && (forall p :: 2 <= p < NPROC ==> t.proc[p] == Proc(UNUSED, 0, None, None, false, 0, 0, 0))
      && t.proc[0] == x.(pid := 1) && t.proc[1] == x.(pid := 2)
      && t.lock == None && t.nextpid == 3 && t.init == 0
      && t.l == if x.state == RUNNABLE then [[], [], []][x.level := [0, 1]] else [[], [], []]
  {
  }

  lemma {:induction false} TwoOfOk(x: Proc)
    requires x.level < 3 && x.state in {RUNNABLE, SLEEPING}
    requires 0 <= x.usedtime < Quantum(x.level) && 0 <= x.priority <= 3
    ensures TableOk(TwoOf(x)) && TwoOf(x).lock == None
    ensures TwoOf(x).l == if x.state == RUNNABLE then [[], [], []][x.level := [0, 1]] else [[], [], []]
    ensures TwoOf(x).proc[0] == x.(pid := 1) && TwoOf(x).proc[1] == x.(pid := 2)
  {
    var t := TwoOf(x);
    TwoOfAt(x);
    hide TwoOf;
  }

  /** Of two processes waiting in L1 the second stays behind. */
  lemma {:induction false} BoostLeavesOne()
    ensures exists t ::
      && TableOk(t) && t.l[1] == [0, 1] && PriorityBoosted(t).l[1] == [1]
  {
    hide TwoOf, InRange, Queued, PidsOk, HolderRuns, PriorityBoosted;
    var x := Proc(RUNNABLE, 0, None, None, false, 3, 0, 1);
    TwoOfOk(x);
    BoostLists(TwoOf(x));
    assert TwoOf(x).l[1][1..] == [1];
  }

  /** With nobody queued, a process asleep at level 2 stays at level 2. */
  lemma {:induction false} BoostMissesSleeper()
    ensures exists t ::
      && TableOk(t) && t.l == [[], [], []] && t.proc[0].state == SLEEPING
      && t.proc[0].level == PriorityBoosted(t).proc[0].level == 2
  {
    hide TwoOf, InRange, Queued, PidsOk, HolderRuns, PriorityBoosted;
    var x := Proc(SLEEPING, 0, None, None, false, 3, 0, 2);
    TwoOfOk(x);
    BoostFields(TwoOf(x), 0);
  }

  /** With nobody but two in L0, the second keeps the time it has used. */
  lemma {:induction false} BoostKeepsUsedTime()
    ensures exists t ::
      && TableOk(t) && t.l == [[0, 1], [], []]
      && t.proc[1].usedtime == PriorityBoosted(t).proc[1].usedtime == 1
  {
    hide TwoOf, InRange, Queued, PidsOk, HolderRuns, PriorityBoosted;
    var x := Proc(RUNNABLE, 0, None, None, false, 3, 1, 0);
    TwoOfOk(x);
    BoostFields(TwoOf(x), 1);
    assert [[], [], []][0 := [0, 1]] == [[0, 1], [], []];
  }
}
