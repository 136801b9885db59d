/** The circular list of buffers in project1/bio.c, through `prev` and `next`. */
module BufLinks {

  const NBUF := 30
  const HEAD := NBUF  // bcache.head; the others are bcache.buf[0..NBUF]

  /** The element at place `i` of the list, with the head before the first and after the last. */
  function At(order: seq<nat>, i: int): nat {
    if 0 <= i < |order| then order[i] else HEAD
  }

  ghost predicate Listing(order: seq<nat>) {
    && (forall i :: 0 <= i < |order| ==> order[i] < NBUF)
    && (forall i, j :: 0 <= i < j < |order| ==> order[i] != order[j])
  }

  /** Every buffer is in the list. */
  ghost predicate Full(order: seq<nat>) {
    Listing(order) && forall b :: 0 <= b < NBUF ==> b in order
  }

  ghost predicate NextOk(next: seq<nat>, order: seq<nat>) {
    && |next| == NBUF + 1 && Listing(order)
    && forall i {:trigger At(order, i)} :: -1 <= i < |order| ==> next[At(order, i)] == At(order, i + 1)
  }

  ghost predicate PrevOk(prev: seq<nat>, order: seq<nat>) {
    && |prev| == NBUF + 1 && Listing(order)
    && forall i {:trigger At(order, i)} :: 0 <= i <= |order| ==> prev[At(order, i)] == At(order, i - 1)
  }

  /** `next` and `prev` form one cycle through the head and the buffers of `order`. */
  ghost predicate Linked(next: seq<nat>, prev: seq<nat>, order: seq<nat>) {
    NextOk(next, order) && PrevOk(prev, order)
  }

  lemma {:induction false} AtOnce(order: seq<nat>, i: int, j: int)
    requires Listing(order) && -1 <= i <= |order| && -1 <= j <= |order| && i < j && At(order, i) == At(order, j)
    ensures i == -1 && j == |order|
  {
  }

  lemma {:induction false} NextAt(next: seq<nat>, order: seq<nat>, i: int)
    requires NextOk(next, order) && -1 <= i < |order|
    ensures |next| == NBUF + 1 && At(order, i) <= HEAD && At(order, i + 1) <= HEAD
    ensures next[At(order, i)] == At(order, i + 1)
  {
  }

  lemma {:induction false} PrevAt(prev: seq<nat>, order: seq<nat>, i: int)
    requires PrevOk(prev, order) && 0 <= i <= |order|
    ensures |prev| == NBUF + 1 && At(order, i) <= HEAD && At(order, i - 1) <= HEAD
    ensures prev[At(order, i)] == At(order, i - 1)
  {
  }

  // ---------------------------------------------------------------- linking in at the front

  function FrontNext(next: seq<nat>, b: nat): seq<nat>
    requires |next| == NBUF + 1 && b < NBUF
  {
    next[b := next[HEAD]][HEAD := b]
  }

  function FrontPrev(next: seq<nat>, prev: seq<nat>, b: nat): seq<nat>
    requires |next| == NBUF + 1 && |prev| == NBUF + 1 && b < NBUF && next[HEAD] <= NBUF
  {
    prev[b := HEAD][next[HEAD] := b]
  }

  lemma {:induction false} FrontAt(order: seq<nat>, b: nat, i: int)
    requires Listing(order) && b < NBUF && b !in order && -1 <= i <= |order| + 1
    ensures At([b] + order, i) == if i == 0 then b else if i == -1 then HEAD else At(order, i - 1)
    ensures i > 0 ==> At(order, i - 1) != b
  {
  }

  lemma {:induction false} FrontNextStep(next: seq<nat>, order: seq<nat>, b: nat, i: int)
    requires Listing(order) && NextOk(next, order) && b < NBUF && b !in order && -1 <= i <= |order|
    ensures |next| == NBUF + 1 && At([b] + order, i) <= HEAD
    ensures FrontNext(next, b)[At([b] + order, i)] == At([b] + order, i + 1)
  {
    hide NextOk;
    NextAt(next, order, -1);
    FrontAt(order, b, i);
    FrontAt(order, b, i + 1);
    if i > 0 {
      NextAt(next, order, i - 1);
    }
  }

  lemma {:induction false} FrontPrevStep(next: seq<nat>, prev: seq<nat>, order: seq<nat>, b: nat, i: int)
    requires Listing(order) && NextOk(next, order) && PrevOk(prev, order) && b < NBUF && b !in order
    requires 0 <= i <= |order| + 1
    ensures |next| == NBUF + 1 && |prev| == NBUF + 1 && next[HEAD] == At(order, 0) <= HEAD && At([b] + order, i) <= HEAD
    ensures FrontPrev(next, prev, b)[At([b] + order, i)] == At([b] + order, i - 1)
  {
    hide PrevOk, NextOk, Listing;
    NextAt(next, order, -1);
    PrevAt(prev, order, 0);
    FrontAt(order, b, i);
    FrontAt(order, b, i - 1);
    if i > 1 {
      PrevAt(prev, order, i - 1);
      if At(order, i - 1) == At(order, 0) {
        AtOnce(order, 0, i - 1);
      }
    }
  }

  lemma {:induction false} PushFront(next: seq<nat>, prev: seq<nat>, order: seq<nat>, b: nat)
    requires Linked(next, prev, order) && b < NBUF && b !in order
    ensures next[HEAD] == At(order, 0) <= HEAD
    ensures Linked(FrontNext(next, b), FrontPrev(next, prev, b), [b] + order)
  {
    var o := [b] + order;
    FrontPrevStep(next, prev, order, b, 0);
    forall i {:trigger At(o, i)} | -1 <= i < |o|
      ensures FrontNext(next, b)[At(o, i)] == At(o, i + 1)
    {
      FrontNextStep(next, order, b, i);
    }
    forall i {:trigger At(o, i)} | 0 <= i <= |o|
      ensures FrontPrev(next, prev, b)[At(o, i)] == At(o, i - 1)
    {
      FrontPrevStep(next, prev, order, b, i);
    }
  }

  // ---------------------------------------------------------------- taking out

  function Without(order: seq<nat>, i: nat): seq<nat>
    requires i < |order|
  {
    order[..i] + order[i + 1..]
  }

  lemma {:induction false} WithoutAt(order: seq<nat>, i: nat, k: int)
    requires Listing(order) && i < |order| && -1 <= k <= |order| - 1
    ensures Listing(Without(order, i)) && |Without(order, i)| == |order| - 1 && order[i] !in Without(order, i)
    ensures At(Without(order, i), k) == At(order, if k < i then k else k + 1)
  {
  }

  lemma {:induction false} TakeOutNext(next: seq<nat>, order: seq<nat>, i: nat, k: int)
    requires Listing(order) && NextOk(next, order) && i < |order| && -1 <= k < |order| - 1
    ensures |next| == NBUF + 1 && order[i] < NBUF && next[order[i]] == At(order, i + 1) && At(order, i - 1) <= HEAD
    ensures At(Without(order, i), k) <= HEAD
    ensures next[At(order, i - 1) := At(order, i + 1)][At(Without(order, i), k)] == At(Without(order, i), k + 1)
  {
    hide NextOk, Without;
    NextAt(next, order, i);
    NextAt(next, order, i - 1);
    WithoutAt(order, i, k);
    WithoutAt(order, i, k + 1);
    var m := if k < i then k else k + 1;
    NextAt(next, order, m);
    if At(order, m) == At(order, i - 1) && m != i - 1 {
      AtOnce(order, if m < i - 1 then m else i - 1, if m < i - 1 then i - 1 else m);
    }
  }

  lemma {:induction false} TakeOutPrev(prev: seq<nat>, order: seq<nat>, i: nat, k: int)
    requires Listing(order) && PrevOk(prev, order) && i < |order| && 0 <= k <= |order| - 1
    ensures |prev| == NBUF + 1 && order[i] < NBUF && prev[order[i]] == At(order, i - 1) && At(order, i + 1) <= HEAD
    ensures At(Without(order, i), k) <= HEAD
    ensures prev[At(order, i + 1) := At(order, i - 1)][At(Without(order, i), k)] == At(Without(order, i), k - 1)
  {
    hide PrevOk, Without;
    PrevAt(prev, order, i);
    PrevAt(prev, order, i + 1);
    WithoutAt(order, i, k);
    WithoutAt(order, i, k - 1);
    var m := if k < i then k else k + 1;
    PrevAt(prev, order, m);
    if At(order, m) == At(order, i + 1) && m != i + 1 {
      AtOnce(order, if m < i + 1 then m else i + 1, if m < i + 1 then i + 1 else m);
    }
  }

  lemma {:induction false} TakeOut(next: seq<nat>, prev: seq<nat>, order: seq<nat>, i: nat)
    requires Linked(next, prev, order) && i < |order|
    ensures var b := order[i];
      && b < NBUF && next[b] == At(order, i + 1) <= HEAD && prev[b] == At(order, i - 1) <= HEAD
      && Linked(next[prev[b] := next[b]], prev[next[b] := prev[b]], Without(order, i)) && b !in Without(order, i)
  {
    var o := Without(order, i);
    WithoutAt(order, i, -1);
    TakeOutNext(next, order, i, -1);
    TakeOutPrev(prev, order, i, |o|);
    forall k {:trigger At(o, k)} | -1 <= k < |o|
      ensures next[At(order, i - 1) := At(order, i + 1)][At(o, k)] == At(o, k + 1)
    {
      TakeOutNext(next, order, i, k);
    }
    forall k {:trigger At(o, k)} | 0 <= k <= |o|
      ensures prev[At(order, i + 1) := At(order, i - 1)][At(o, k)] == At(o, k - 1)
    {
      TakeOutPrev(prev, order, i, k);
    }
  }

  /** Moving an element to the front keeps the others in order and the list full. */
  lemma {:induction false} ToFrontFull(order: seq<nat>, i: nat)
    requires Full(order) && i < |order|
    ensures Full([order[i]] + Without(order, i))
  {
    var o := [order[i]] + Without(order, i);
    forall b | 0 <= b < NBUF
      ensures b in o
    {
      assert b in order;
      var k :| 0 <= k < |order| && order[k] == b;
      assert o[if k == i then 0 else if k < i then k + 1 else k] == b;
    }
  }
}
