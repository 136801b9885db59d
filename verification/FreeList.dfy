/** The free list of project1/umalloc.c as a value: blocks in address order, linked in a circle in
    memory through their headers, and what inserting, merging, splitting and unlinking do to it.
    Addresses and sizes count units of one header. */
module FreeList {

  /** union header */
  datatype Header = Header(ptr: nat, size: nat)

  type Memory = map<nat, Header>

  datatype Blk = Blk(a: nat, n: nat)

  function End(b: Blk): nat {
    b.a + b.n
  }

  /** The address after entry `i`, around the circle. */
  function NextOf(fl: seq<Blk>, i: nat): nat
    requires i < |fl|
  {
    if i + 1 < |fl| then fl[i + 1].a else fl[0].a
  }

  /** The headers in memory link the blocks of `fl` in a circle. */
  ghost predicate Linked(mem: Memory, fl: seq<Blk>) {
    forall i :: 0 <= i < |fl| ==> fl[i].a in mem && mem[fl[i].a] == Header(NextOf(fl, i), fl[i].n)
  }

  /** The blocks are in address order and do not overlap; the first, `base`, is empty. */
  ghost predicate Ordered(base: nat, fl: seq<Blk>) {
    && fl != [] && fl[0] == Blk(base, 0)
    && (forall i :: 1 <= i < |fl| ==> fl[i].n > 0)
    && (forall i, j :: 0 <= i < j < |fl| ==> End(fl[i]) <= fl[j].a && fl[i].a < fl[j].a)
  }

  /** Neighbours do not touch, except perhaps entry `x` and the next. */
  ghost predicate ApartBut(fl: seq<Blk>, x: int, y: int) {
    forall i :: 0 <= i < |fl| - 1 && i != x && i != y ==> End(fl[i]) < fl[i + 1].a
  }

  ghost predicate Apart(fl: seq<Blk>) {
    ApartBut(fl, -1, -1)
  }

  /** Unit `u` is in some block of the list. */
  ghost predicate InFree(fl: seq<Blk>, u: nat) {
    exists i :: 0 <= i < |fl| && fl[i].a <= u < End(fl[i])
  }

  // ---------------------------------------------------------------- where a block belongs

  /** The last entry below address `a`. */
  function Place(fl: seq<Blk>, a: nat): (j: nat)
    requires fl != [] && fl[0].a < a
    ensures j < |fl| && fl[j].a < a
    ensures j + 1 < |fl| ==> a <= fl[j + 1].a
  {
    if |fl| == 1 || a <= fl[1].a then 0 else Place(fl[1..], a) + 1
  }

  // ---------------------------------------------------------------- inserting

  /** `b` linked in after entry `j`. */
  function Inserted(fl: seq<Blk>, j: nat, b: Blk): seq<Blk>
    requires j < |fl|
  {
    fl[..j + 1] + [b] + fl[j + 1..]
  }

  lemma {:induction false} InsertOrdered(base: nat, fl: seq<Blk>, j: nat, b: Blk)
    requires Ordered(base, fl) && Apart(fl) && j < |fl| && b.n > 0
    requires fl[j].a < b.a && End(fl[j]) <= b.a
    requires j + 1 < |fl| ==> End(b) <= fl[j + 1].a
    ensures Ordered(base, Inserted(fl, j, b)) && ApartBut(Inserted(fl, j, b), j, j + 1)
  {
    var g := Inserted(fl, j, b);
    assert ApartBut(g, j, j + 1) && g[0] == fl[0];
    hide Inserted, ApartBut;
    forall i, k | 0 <= i < k < |g|
      ensures End(g[i]) <= g[k].a && g[i].a < g[k].a
    {
      InsertPair(base, fl, j, b, i, k);
    }
    InsertSizes(base, fl, j, b);
  }

  lemma {:induction false} InsertPair(base: nat, fl: seq<Blk>, j: nat, b: Blk, i: nat, k: nat)
    requires Ordered(base, fl) && j < |fl| && i < k <= |fl| == |Inserted(fl, j, b)| - 1 && b.n > 0
    requires fl[j].a < b.a && End(fl[j]) <= b.a
    requires j + 1 < |fl| ==> End(b) <= fl[j + 1].a
    ensures var g := Inserted(fl, j, b); End(g[i]) <= g[k].a && g[i].a < g[k].a
  {
    if i == j + 1 {
      assert End(b) <= fl[j + 1].a && (k > j + 2 ==> fl[j + 1].a < fl[k - 1].a);
    } else if k == j + 1 {
      assert i < j ==> End(fl[i]) <= fl[j].a;
    }
  }

  lemma {:induction false} InsertSizes(base: nat, fl: seq<Blk>, j: nat, b: Blk)
    requires Ordered(base, fl) && j < |fl| && b.n > 0
    ensures forall i :: 1 <= i < |Inserted(fl, j, b)| ==> Inserted(fl, j, b)[i].n > 0
  {
  }

  lemma {:induction false} InsertLinked(mem: Memory, fl: seq<Blk>, j: nat, b: Blk)
    requires Linked(mem, fl) && j < |fl| && (forall i :: 0 <= i < |fl| ==> fl[i].a != b.a)
    requires forall i, k :: 0 <= i < k < |fl| ==> fl[i].a != fl[k].a
    ensures Linked(mem[b.a := Header(NextOf(fl, j), b.n)][fl[j].a := Header(b.a, fl[j].n)], Inserted(fl, j, b))
  {
    InsertedEntry(fl, j, b, 0);
    hide Inserted, NextOf;
    var g, mem' := Inserted(fl, j, b), mem[b.a := Header(NextOf(fl, j), b.n)][fl[j].a := Header(b.a, fl[j].n)];
    forall i | 0 <= i < |g|
      ensures g[i].a in mem' && mem'[g[i].a] == Header(NextOf(g, i), g[i].n)
    {
      InsertedEntry(fl, j, b, i);
    }
  }

  lemma {:induction false} InsertedEntry(fl: seq<Blk>, j: nat, b: Blk, i: nat)
    requires j < |fl| && i <= |fl|
    ensures |Inserted(fl, j, b)| == |fl| + 1
    ensures Inserted(fl, j, b)[i] == if i <= j then fl[i] else if i == j + 1 then b else fl[i - 1]
    ensures NextOf(Inserted(fl, j, b), i) ==
      if i == j then b.a else if i == j + 1 then NextOf(fl, j) else NextOf(fl, if i < j then i else i - 1)
  {
  }

  lemma {:induction false} InsertUnits(fl: seq<Blk>, j: nat, b: Blk, u: nat)
    requires j < |fl|
    ensures InFree(Inserted(fl, j, b), u) <==> InFree(fl, u) || b.a <= u < End(b)
  {
    var g := Inserted(fl, j, b);
    if InFree(fl, u) {
      var i :| 0 <= i < |fl| && fl[i].a <= u < End(fl[i]);
      assert g[if i <= j then i else i + 1] == fl[i];
    }
    if b.a <= u < End(b) {
      assert g[j + 1] == b;
    }
    if InFree(g, u) {
      var i :| 0 <= i < |g| && g[i].a <= u < End(g[i]);
      if i != j + 1 {
        assert fl[if i <= j then i else i - 1] == g[i];
      }
    }
  }

  // ---------------------------------------------------------------- merging

  /** Entry `i` swallows the entry after it. */
  function Merged(fl: seq<Blk>, i: nat): seq<Blk>
    requires i + 1 < |fl|
  {
    fl[..i] + [Blk(fl[i].a, fl[i].n + fl[i + 1].n)] + fl[i + 2..]
  }

  lemma {:induction false} MergeOrdered(base: nat, fl: seq<Blk>, i: nat)
    requires Ordered(base, fl) && 1 <= i && i + 1 < |fl| && End(fl[i]) == fl[i + 1].a
    ensures Ordered(base, Merged(fl, i))
  {
    var g := Merged(fl, i);
    forall k, m | 0 <= k < m < |g|
      ensures End(g[k]) <= g[m].a && g[k].a < g[m].a
    {
      var k1, m1 := if k <= i then k else k + 1, if m <= i then m else m + 1;
      assert k1 < m1 && fl[k1].a == g[k].a && fl[m1].a == g[m].a;
    }
  }

  lemma {:induction false} MergeApart(fl: seq<Blk>, i: nat)
    requires 1 <= i && i + 1 < |fl| && End(fl[i]) == fl[i + 1].a
    ensures ApartBut(fl, i - 1, i) ==> ApartBut(Merged(fl, i), i - 1, i - 1)
    ensures ApartBut(fl, i, i) ==> Apart(Merged(fl, i))
  {
    MergedAt(fl, i, 0);
    hide Merged;
    var g := Merged(fl, i);
    forall k | 0 <= k < |g| - 1
      ensures End(g[k]) < g[k + 1].a <==> if k < i then End(fl[k]) < fl[k + 1].a else End(fl[k + 1]) < fl[k + 2].a
    {
      MergedAt(fl, i, k);
      MergedAt(fl, i, k + 1);
    }
  }

  lemma {:induction false} MergedAt(fl: seq<Blk>, i: nat, k: nat)
    requires i + 1 < |fl| && k < |Merged(fl, i)|
    ensures |Merged(fl, i)| == |fl| - 1
    ensures Merged(fl, i)[k] ==
      if k < i then fl[k] else if k == i then Blk(fl[i].a, fl[i].n + fl[i + 1].n) else fl[k + 1]
    ensures NextOf(Merged(fl, i), k) == NextOf(fl, if k < i then k else k + 1)
  {
  }

  lemma {:induction false} MergeLinked(mem: Memory, fl: seq<Blk>, i: nat)
    requires Linked(mem, fl) && i + 1 < |fl|
    requires forall j, k :: 0 <= j < k < |fl| ==> fl[j].a != fl[k].a
    ensures Linked(mem[fl[i].a := Header(NextOf(fl, i + 1), fl[i].n + fl[i + 1].n)], Merged(fl, i))
  {
    var g := Merged(fl, i);
    forall k | 0 <= k < |g|
      ensures g[k].a in mem
      ensures mem[fl[i].a := Header(NextOf(fl, i + 1), fl[i].n + fl[i + 1].n)][g[k].a] == Header(NextOf(g, k), g[k].n)
    {
      MergedAt(fl, i, k);
      hide Merged, NextOf;
      if k != i {
        assert fl[if k < i then k else k + 1].a != fl[i].a;
      }
    }
  }

  lemma {:induction false} MergeUnits(fl: seq<Blk>, i: nat, u: nat)
    requires i + 1 < |fl| && End(fl[i]) == fl[i + 1].a
    ensures InFree(Merged(fl, i), u) <==> InFree(fl, u)
  {
    var g := Merged(fl, i);
    if InFree(fl, u) {
      var k :| 0 <= k < |fl| && fl[k].a <= u < End(fl[k]);
      var m := if k <= i then k else k - 1;
      assert g[m].a <= u < End(g[m]);
    }
    if InFree(g, u) {
      var k :| 0 <= k < |g| && g[k].a <= u < End(g[k]);
      if k == i {
        assert fl[i].a <= u < End(fl[i]) || fl[i + 1].a <= u < End(fl[i + 1]);
      } else {
        assert fl[if k < i then k else k + 1] == g[k];
      }
    }
  }

  // ---------------------------------------------------------------- taking memory out

  /** Entry `i` taken out of the list. */
  function Unlinked(fl: seq<Blk>, i: nat): seq<Blk>
    requires i < |fl|
  {
    fl[..i] + fl[i + 1..]
  }

  /** Entry `i` shortened to its first `n` units. */
  function Shortened(fl: seq<Blk>, i: nat, n: nat): seq<Blk>
    requires i < |fl|
  {
    fl[i := Blk(fl[i].a, n)]
  }

  lemma {:induction false} UnlinkOrdered(base: nat, fl: seq<Blk>, i: nat)
    requires Ordered(base, fl) && Apart(fl) && 1 <= i < |fl|
    ensures Ordered(base, Unlinked(fl, i)) && Apart(Unlinked(fl, i))
  {
    var g := Unlinked(fl, i);
    assert forall k :: 0 <= k < |g| ==> g[k] == fl[if k < i then k else k + 1];
    forall k | 0 <= k < |g| - 1
      ensures End(g[k]) < g[k + 1].a
    {
      if k < i {
        assert End(fl[k]) < fl[k + 1].a && (k == i - 1 ==> fl[k + 1].a < fl[k + 2].a);
      } else {
        assert End(fl[k + 1]) < fl[k + 2].a;
      }
    }
  }

  lemma {:induction false} UnlinkedAt(fl: seq<Blk>, i: nat, k: nat)
    requires 1 <= i < |fl| && k < |fl| - 1
    ensures |Unlinked(fl, i)| == |fl| - 1
    ensures Unlinked(fl, i)[k] == fl[if k < i then k else k + 1]
    ensures NextOf(Unlinked(fl, i), k) == NextOf(fl, if k < i - 1 then k else k + 1)
  {
  }

  lemma {:induction false} UnlinkLinked(mem: Memory, fl: seq<Blk>, i: nat)
    requires Linked(mem, fl) && 1 <= i < |fl|
    requires forall j, k :: 0 <= j < k < |fl| ==> fl[j].a != fl[k].a
    ensures Linked(mem[fl[i - 1].a := Header(NextOf(fl, i), fl[i - 1].n)], Unlinked(fl, i))
  {
    var g := Unlinked(fl, i);
    forall k | 0 <= k < |g|
      ensures g[k].a in mem
      ensures mem[fl[i - 1].a := Header(NextOf(fl, i), fl[i - 1].n)][g[k].a] == Header(NextOf(g, k), g[k].n)
    {
      UnlinkedAt(fl, i, k);
      hide Unlinked, NextOf;
      if k != i - 1 {
        assert fl[if k < i then k else k + 1].a != fl[i - 1].a;
      }
    }
  }

  lemma {:induction false} UnlinkUnits(base: nat, fl: seq<Blk>, i: nat, u: nat)
    requires Ordered(base, fl) && 1 <= i < |fl|
    ensures InFree(Unlinked(fl, i), u) <==> InFree(fl, u) && !(fl[i].a <= u < End(fl[i]))
  {
    hide Unlinked, Ordered, End;
    var g := Unlinked(fl, i);
    UnlinkedAt(fl, i, 0);
    if k :| 0 <= k < |fl| && k != i && fl[k].a <= u < End(fl[k]) {
      UnlinkedAt(fl, i, if k < i then k else k - 1);
      assert g[if k < i then k else k - 1] == fl[k];
      ApartFrom(base, fl, i, k, u);
    } else {
      forall k | 0 <= k < |g|
        ensures !(g[k].a <= u < End(g[k]))
      {
        UnlinkedAt(fl, i, k);
      }
    }
  }

  /** A unit of one entry is in no other. */
  lemma {:induction false} ApartFrom(base: nat, fl: seq<Blk>, i: nat, k: nat, u: nat)
    requires Ordered(base, fl) && i < |fl| && k < |fl| && i != k && fl[k].a <= u < End(fl[k])
    ensures !(fl[i].a <= u < End(fl[i]))
  {
    if k < i {
      assert End(fl[k]) <= fl[i].a;
    } else {
      assert End(fl[i]) <= fl[k].a;
    }
  }

  lemma {:induction false} ShortenOrdered(base: nat, fl: seq<Blk>, i: nat, n: nat)
    requires Ordered(base, fl) && Apart(fl) && 1 <= i < |fl| && 0 < n < fl[i].n
    ensures Ordered(base, Shortened(fl, i, n)) && Apart(Shortened(fl, i, n))
  {
    var g := Shortened(fl, i, n);
    assert forall k :: 0 <= k < |g| ==> g[k].a == fl[k].a && End(g[k]) <= End(fl[k]);
    forall k | 0 <= k < |g| - 1
      ensures End(g[k]) < g[k + 1].a
    {
      assert End(fl[k]) < fl[k + 1].a;
    }
  }

  lemma {:induction false} ShortenLinked(mem: Memory, fl: seq<Blk>, i: nat, n: nat)
    requires Linked(mem, fl) && i < |fl|
    requires forall j, k :: 0 <= j < k < |fl| ==> fl[j].a != fl[k].a
    ensures Linked(mem[fl[i].a := Header(NextOf(fl, i), n)], Shortened(fl, i, n))
  {
    var g := Shortened(fl, i, n);
    assert forall k :: 0 <= k < |g| ==> g[k].a == fl[k].a;
  }

  lemma {:induction false} ShortenUnits(base: nat, fl: seq<Blk>, i: nat, n: nat, u: nat)
    requires Ordered(base, fl) && 1 <= i < |fl| && n <= fl[i].n
    ensures InFree(Shortened(fl, i, n), u) <==> InFree(fl, u) && !(fl[i].a + n <= u < End(fl[i]))
  {
    var g := Shortened(fl, i, n);
    if InFree(fl, u) && !(fl[i].a + n <= u < End(fl[i])) {
      var k :| 0 <= k < |fl| && fl[k].a <= u < End(fl[k]);
      assert g[k].a <= u < End(g[k]);
    }
    if InFree(g, u) {
      var k :| 0 <= k < |g| && g[k].a <= u < End(g[k]);
      assert fl[k].a <= u < End(fl[k]);
      assert k < i ==> End(fl[k]) <= fl[i].a;
      assert k > i ==> End(fl[i]) <= fl[k].a;
    }
  }
}
