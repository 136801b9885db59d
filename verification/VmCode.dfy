/** kalloc and kfree of project1/kalloc.c; walkpgdir, mappages, setupkvm, allocuvm, deallocuvm,
    freevm and copyuvm of project1/vm.c. Sizes and virtual addresses are in bytes, physical addresses
    in pages. */
module VmCode {
  import opened Wrappers
  import opened VmSpace

  const KERNBASE := USER * PGSIZE
  const PTE_W := 2
  const PTE_U := 4

  /** `memset(v, 1, PGSIZE)`, and then the link. */
  function Junk(link: nat): Page
    requires link < NFRAMES
  {
    seq(NPT, _ => 0x0101_0101)[0 := link]
  }

  function PageUp(sz: nat): nat {
    (sz + PGSIZE - 1) / PGSIZE
  }

  // ---------------------------------------------------------------- roles over several steps

  /** Nothing but free frames turned into tables of `pd`. */
  ghost predicate Grown(role: Roles, role': Roles, pd: nat) {
    |role'| == |role| && forall f :: 0 <= f < |role| && role'[f] != role[f] ==>
      role[f] == Free && role'[f].Table? && role'[f].pd == pd
  }

  ghost predicate DirsKept(role: Roles, role': Roles) {
    |role'| == |role| && forall f :: 0 <= f < |role| && role[f] == Dir ==> role'[f] == Dir
  }

  lemma {:induction false} PageKept(mem: Memory, role: Roles, mem1: Memory, role1: Roles, f: nat)
    requires |mem| == |role| == |mem1| == |role1| && PagesKept(mem, role, mem1, role1)
    requires f < |role| && role1[f] == role[f] && (role[f].User? || role[f] == Kernel)
    ensures mem1[f] == mem[f]
  {
  }

  lemma {:induction false} LeavesTwice(mem: Memory, role: Roles, mem1: Memory, role1: Roles, mem2: Memory, pd: nat,
        from: nat, to: nat)
    requires |mem| == |role| == |mem1| == |role1| == |mem2| && DirsKept(role, role1)
    requires LeavesBut(mem, role, mem1, pd, from, to) && LeavesBut(mem1, role1, mem2, pd, from, to)
    ensures LeavesBut(mem, role, mem2, pd, from, to)
  {
  }

  lemma {:induction false} LeavesWider(mem: Memory, role: Roles, mem1: Memory, pd: nat, from: nat, to: nat, pd': nat,
        from': nat, to': nat)
    requires |mem| == |role| == |mem1| && LeavesBut(mem, role, mem1, pd, from, to)
    requires (pd' == pd && from' <= from && to <= to') || from >= to
    ensures LeavesBut(mem, role, mem1, pd', from', to')
  {
  }

  lemma {:induction false} PagesTwice(mem: Memory, role: Roles, mem1: Memory, role1: Roles, mem2: Memory, role2: Roles)
    requires |mem| == |role| == |mem1| == |role1| == |mem2| == |role2|
    requires PagesKept(mem, role, mem1, role1) && PagesKept(mem1, role1, mem2, role2)
    requires forall f :: 0 <= f < |role| && role2[f] == role[f] && (role[f].User? || role[f] == Kernel) ==>
      role1[f] == role[f]
    ensures PagesKept(mem, role, mem2, role2)
  {
  }

  /** The role of a frame after its directory's pages `from` to `to` are freed. */
  function Released(r: Role, pd: nat, from: nat, to: nat): Role {
    if r.User? && r.pd == pd && from <= r.v < to then Free else r
  }

  /** What deallocuvm promises: of directory `pd`, exactly the present pages from `from` to `to` are
      gone, and their frames are free. */
  ghost predicate Unmapped(mem: Memory, role: Roles, mem': Memory, role': Roles, pd: nat, from: nat, to: nat) {
    && |mem| == |role| == |mem'| == |role'| == NFRAMES && pd < NFRAMES && to <= NPT * NPT
    && LeavesBut(mem, role, mem', pd, from, to) && PagesKept(mem, role, mem', role')
    && (forall v :: from <= v < to ==> Leaf(mem', pd, v) == if Present(Leaf(mem, pd, v)) then 0 else Leaf(mem, pd, v))
    && (forall f :: 0 <= f < NFRAMES ==> role'[f] == Released(role[f], pd, from, to))
  }

  lemma {:induction false} UnmappedTwice(mem: Memory, role: Roles, mem1: Memory, role1: Roles, mem2: Memory,
        role2: Roles, pd: nat, from: nat, mid: nat, to: nat)
    requires from <= mid <= to && pd < |role| && role[pd] == Dir
    requires Unmapped(mem, role, mem1, role1, pd, from, mid) && Unmapped(mem1, role1, mem2, role2, pd, mid, to)
    ensures Unmapped(mem, role, mem2, role2, pd, from, to)
  {
  }

  /** Nothing is present, so nothing is to be done. */
  lemma {:induction false} UnmappedNone(mem: Memory, role: Roles, lo: nat, pd: nat, from: nat, to: nat)
    requires Owned(mem, role, lo) && pd < NFRAMES && role[pd] == Dir && to <= NPT * NPT
    requires forall v :: from <= v < to ==> !Present(Leaf(mem, pd, v))
    ensures Unmapped(mem, role, mem, role, pd, from, to)
  {
    hide Owned, Leaf, LeavesBut, PagesKept;
    OwnedSizes(mem, role, lo);
    SameLeaves(mem, role);
    LeavesWider(mem, role, mem, 0, 0, 0, pd, from, to);
    forall f | 0 <= f < NFRAMES
      ensures role[f] == Released(role[f], pd, from, to)
    {
      if role[f].User? {
        UserIsLeaf(mem, role, lo, f);
      }
    }
  }

  /** Without a table none of its pages is present. */
  lemma {:induction false} NoTable(mem: Memory, pd: nat, v: nat)
    requires pd < |mem| && v < NPT * NPT && !Present(mem[pd][v / NPT])
    ensures forall u :: v <= u < (v / NPT + 1) * NPT ==> !Present(Leaf(mem, pd, u))
  {
  }

  /** One page: its frame freed, then its entry cleared. */
  lemma {:induction false} PageUnmapped(mem: Memory, role: Roles, lo: nat, pd: nat, v: nat, t: nat, f: nat, page: Page)
    requires Owned(mem, role, lo) && pd < NFRAMES && role[pd] == Dir && v < USER && Present(mem[pd][v / NPT])
    requires Addr(mem[pd][v / NPT]) == t
    requires t < NFRAMES && Present(mem[t][v % NPT]) && Addr(mem[t][v % NPT]) == f
    ensures lo <= f < NFRAMES && f != t && role[f] == User(pd, v) && role[t].Table?
    ensures Owned(mem[f := page][t := mem[t][v % NPT := 0]], role[f := Free], lo)
    ensures Unmapped(mem, role, mem[f := page][t := mem[t][v % NPT := 0]], role[f := Free], pd, v, v + 1)
  {
    hide Owned, LeavesBut, PagesKept, Leaf;
    OwnedSizes(mem, role, lo);
    DropUserOk(mem, role, lo, pd, v, t, f);
    LeavesSet(mem, role, lo, pd, v, t, 0);
    var mem1, role1 := mem[t := mem[t][v % NPT := 0]], role[f := Kernel];
    LooseOk(mem1, role1, lo, f, page, Free);
    LeavesLoose(mem1, role1, lo, f, page);
    var mem2, role2 := mem1[f := page], role1[f := Free];
    assert mem2 == mem[f := page][t := mem[t][v % NPT := 0]] && role2 == role[f := Free];
    LeavesWider(mem1, role1, mem2, 0, 0, 0, pd, v, v + 1);
    LeavesTwice(mem, role, mem1, role1, mem2, pd, v, v + 1);
    LeafSame(mem1, role1, mem2, pd, v);
    UnmapPages(mem, role, mem2, role2, t, f);
    OneRole(mem, role, lo, f);
    WasPresent(mem, pd, v, t);
  }

  lemma {:induction false} WasPresent(mem: Memory, pd: nat, v: nat, t: nat)
    requires pd < |mem| && v < NPT * NPT && Present(mem[pd][v / NPT]) && Addr(mem[pd][v / NPT]) == t && t < |mem|
    ensures Leaf(mem, pd, v) == mem[t][v % NPT]
  {
  }

  lemma {:induction false} UnmapPages(mem: Memory, role: Roles, mem2: Memory, role2: Roles, t: nat, f: nat)
    requires |mem| == |role| == |mem2| == |role2| && t < |mem| && f < |mem| && role[t].Table? && role2[f] != role[f]
    requires forall x :: 0 <= x < |mem| && x != t && x != f ==> mem2[x] == mem[x]
    ensures PagesKept(mem, role, mem2, role2)
  {
  }

  /** No other frame is the same page of the same process. */
  lemma {:induction false} OneRole(mem: Memory, role: Roles, lo: nat, f: nat)
    requires Owned(mem, role, lo) && f < NFRAMES && role[f].User?
    ensures forall x :: 0 <= x < NFRAMES && role[x] == role[f] ==> x == f
  {
  }

  // ---------------------------------------------------------------- growing

  /** A page of directory `pd` whose frame was free. */
  ghost predicate NewPage(role: Roles, mem': Memory, role': Roles, pd: nat, v: nat, perm: nat, page: Page)
    requires |mem'| == |role'| == |role| == NFRAMES && pd < NFRAMES && v < USER && perm < PGSIZE
  {
    var f := Addr(Leaf(mem', pd, v));
    f < NFRAMES && Leaf(mem', pd, v) == Entry(f, perm) && role[f] == Free && role'[f] == User(pd, v) && mem'[f] == page
  }

  ghost predicate BlankPage(role: Roles, mem': Memory, role': Roles, pd: nat, v: nat)
    requires |mem'| == |role'| == |role| == NFRAMES && pd < NFRAMES && v < USER
  {
    NewPage(role, mem', role', pd, v, PTE_W + PTE_U, Zero())
  }

  /** What allocuvm promises: zeroed, writable user pages from `from` to `to`, in frames that were free;
      the rest as it was, but for tables. */
  ghost predicate Mapped(mem: Memory, role: Roles, mem': Memory, role': Roles, pd: nat, from: nat, to: nat) {
    && |mem| == |role| == |mem'| == |role'| == NFRAMES && pd < NFRAMES && (from < to ==> to <= USER)
    && LeavesBut(mem, role, mem', pd, from, to) && PagesKept(mem, role, mem', role')
    && (forall v :: from <= v < to ==> BlankPage(role, mem', role', pd, v))
    && (forall f :: 0 <= f < NFRAMES && role'[f] != role[f] ==> role[f] == Free && Grew(role'[f], pd, from, to))
  }

  predicate Grew(r: Role, pd: nat, from: nat, to: nat) {
    (r.Table? && r.pd == pd) || (r.User? && r.pd == pd && from <= r.v < to)
  }

  /** And if it fails: no page from `from` to `to` is there; tables may have been taken, and what was
      there of those pages before has been given up with the new ones. */
  ghost predicate Restored(mem: Memory, role: Roles, mem': Memory, role': Roles, pd: nat, from: nat, to: nat) {
    && |mem| == |role| == |mem'| == |role'| == NFRAMES && pd < NFRAMES && to <= USER
    && LeavesBut(mem, role, mem', pd, from, to) && PagesKept(mem, role, mem', role')
    && (forall v :: from <= v < to ==> !Present(Leaf(mem', pd, v)))
    && (forall f :: 0 <= f < NFRAMES && role'[f] != role[f] ==>
          if role[f] == Free then role'[f].Table? && role'[f].pd == pd else role'[f] == Released(role[f], pd, from, to))
  }

  /** Nothing but tables, if none of the pages was there. */
  lemma {:induction false} NothingGivenUp(mem: Memory, role: Roles, lo: nat, mem': Memory, role': Roles,
        pd: nat, from: nat, to: nat)
    requires Restored(mem, role, mem', role', pd, from, to) && Owned(mem, role, lo) && role[pd] == Dir
    requires forall v :: from <= v < to ==> !Present(Leaf(mem, pd, v))
    ensures Grown(role, role', pd)
  {
    hide Owned, Leaf, LeavesBut, PagesKept;
    NoneOf(mem, role, lo, pd, from, to);
  }

  lemma {:induction false} MappedNone(mem: Memory, role: Roles, pd: nat, from: nat)
    requires |mem| == |role| == NFRAMES && pd < NFRAMES
    ensures Mapped(mem, role, mem, role, pd, from, from)
  {
  }

  lemma {:induction false} LeafSame(mem: Memory, role: Roles, mem1: Memory, pd: nat, v: nat)
    requires |mem| == |role| == |mem1| && pd < |role| && role[pd] == Dir && v < NPT * NPT
    requires LeavesBut(mem, role, mem1, 0, 0, 0)
    ensures Leaf(mem1, pd, v) == Leaf(mem, pd, v)
  {
  }

  /** A frame taken from the free list, filled, and mapped. */
  lemma {:induction false} PageAdded(mem: Memory, role: Roles, mem1: Memory, role1: Roles, mem2: Memory, role2: Roles,
        pd: nat, v: nat, f: nat, page: Page)
    requires |mem| == |role| == |mem1| == |role1| == |mem2| == |role2| == NFRAMES && pd < NFRAMES && f < NFRAMES
    requires role[f] == Free && role1 == role[f := Kernel] && mem1 == mem[f := page] && role[pd] == Dir
    requires LeavesBut(mem, role, mem1, 0, 0, 0) && PagesKept(mem, role, mem1, role1)
    requires LeavesBut(mem1, role1, mem2, pd, v, v + 1) && PagesKept(mem1, role1, mem2, role2) && mem2[f] == mem1[f]
    requires Grown(role1[f := User(pd, v)], role2, pd)
    ensures LeavesBut(mem, role, mem2, pd, v, v + 1) && PagesKept(mem, role, mem2, role2) && mem2[f] == page
    ensures role2[f] == User(pd, v)
    ensures forall x :: 0 <= x < NFRAMES && role2[x] != role[x] ==> role[x] == Free && Grew(role2[x], pd, v, v + 1)
  {
  }

  lemma {:induction false} MappedMore(mem: Memory, role: Roles, mem1: Memory, role1: Roles, mem2: Memory,
        role2: Roles, pd: nat, from: nat, v: nat, f: nat)
    requires Mapped(mem, role, mem1, role1, pd, from, v) && from <= v < USER && |mem2| == |role2| == NFRAMES
    requires role[pd] == Dir && f < NFRAMES
    requires LeavesBut(mem1, role1, mem2, pd, v, v + 1) && PagesKept(mem1, role1, mem2, role2) && mem2[f] == Zero()
    requires role2[f] == User(pd, v)
    requires forall x :: 0 <= x < NFRAMES && role2[x] != role1[x] ==> role1[x] == Free && Grew(role2[x], pd, v, v + 1)
    requires role1[f] == Free && Leaf(mem2, pd, v) == Entry(f, PTE_W + PTE_U)
    ensures Mapped(mem, role, mem2, role2, pd, from, v + 1)
  {
    hide LeavesBut, PagesKept, Leaf, Entry;
    LeavesWider(mem, role, mem1, pd, from, v, pd, from, v + 1);
    LeavesWider(mem1, role1, mem2, pd, v, v + 1, pd, from, v + 1);
    LeavesTwice(mem, role, mem1, role1, mem2, pd, from, v + 1);
    PagesTwice(mem, role, mem1, role1, mem2, role2);
    EntryParts(f, PTE_W + PTE_U);
    forall u | from <= u < v + 1
      ensures BlankPage(role, mem2, role2, pd, u)
    {
      if u < v {
        assert BlankPage(role, mem1, role1, pd, u);
        LeafOther(mem1, role1, mem2, pd, v, v + 1, u);
        PageKept(mem1, role1, mem2, role2, Addr(Leaf(mem1, pd, u)));
      }
    }
  }

  /** deallocuvm, after a failure, takes exactly the new pages away. */
  lemma {:induction false} AllocUndone(mem: Memory, role: Roles, mem1: Memory, role1: Roles, mem2: Memory,
        role2: Roles, pd: nat, from: nat, v: nat, to: nat)
    requires Mapped(mem, role, mem1, role1, pd, from, v) && Unmapped(mem1, role1, mem2, role2, pd, from, to)
    requires from <= v < to <= USER && role[pd] == Dir
    ensures Restored(mem, role, mem2, role2, pd, from, to)
  {
  }

  lemma {:induction false} NoneOf(mem: Memory, role: Roles, lo: nat, pd: nat, from: nat, to: nat)
    requires Owned(mem, role, lo) && pd < NFRAMES && role[pd] == Dir
    requires forall v :: from <= v < to && v < USER ==> !Present(Leaf(mem, pd, v))
    ensures forall f :: 0 <= f < NFRAMES && role[f] != Free ==>
      !(role[f].User? && role[f].pd == pd && from <= role[f].v < to)
  {
    hide Owned, Leaf;
    OwnedSizes(mem, role, lo);
    forall f | 0 <= f < NFRAMES && role[f].User?
      ensures !(role[f].pd == pd && from <= role[f].v < to)
    {
      UserIsLeaf(mem, role, lo, f);
    }
  }

  lemma {:induction false} StillKernel(mem: Memory, role: Roles, mem1: Memory, role1: Roles, pd: nat, from: nat,
        to: nat, f: nat)
    requires Unmapped(mem, role, mem1, role1, pd, from, to) && f < NFRAMES && role[f] == Kernel
    ensures role1[f] == Kernel
  {
  }

  /** A frame taken before and released after makes no difference to unmapping. */
  lemma {:induction false} UnmappedAround(mem: Memory, role: Roles, mem1: Memory, role1: Roles, mem2: Memory,
        role2: Roles, mem3: Memory, role3: Roles, pd: nat, from: nat, to: nat, f: nat)
    requires |mem| == |role| == |mem1| == |role1| == |mem2| == |role2| == |mem3| == |role3| == NFRAMES
    requires pd < NFRAMES && f < NFRAMES
    requires role[pd] == Dir && role[f] == Free && role1 == role[f := Kernel] && LeavesBut(mem, role, mem1, 0, 0, 0)
    requires PagesKept(mem, role, mem1, role1)
    requires Unmapped(mem1, role1, mem2, role2, pd, from, to)
    requires role3 == role2[f := Free] && LeavesBut(mem2, role2, mem3, 0, 0, 0) && PagesKept(mem2, role2, mem3, role3)
    ensures Unmapped(mem, role, mem3, role3, pd, from, to)
  {
  }

  // ---------------------------------------------------------------- copying

  datatype Copying = CopiedOne | NoFrame | NotThere

  /** Page `v` of the copy: its own frame, which was free, with the same flags and contents. */
  ghost predicate PageCopied(mem: Memory, role: Roles, mem': Memory, role': Roles, pd: nat, d: nat, v: nat)
    requires |mem| == |role| == |mem'| == |role'| == NFRAMES && pd < NFRAMES && d < NFRAMES && v < USER
  {
    var w := Leaf(mem, pd, v);
    Addr(w) < NFRAMES && NewPage(role, mem', role', d, v, Flags(w), mem[Addr(w)])
  }

  /** What copyuvm promises of the new directory `d` after `n` pages; the old one is as it was. */
  ghost predicate Copied(mem: Memory, role: Roles, mem': Memory, role': Roles, pd: nat, d: nat, n: nat) {
    && |mem| == |role| == |mem'| == |role'| == NFRAMES && pd < NFRAMES && d < NFRAMES && n <= USER
    && role[pd] == Dir && role[d] == Free && role'[d] == Dir
    && LeavesBut(mem, role, mem', 0, 0, 0) && PagesKept(mem, role, mem', role')
    && (forall v :: 0 <= v < n ==> PageCopied(mem, role, mem', role', pd, d, v))
    && (forall v :: n <= v < USER ==> !Present(Leaf(mem', d, v)))
    && (forall f :: 0 <= f < NFRAMES && role'[f] != role[f] ==> role[f] == Free && (f == d || Of(role'[f], d)))
  }

  lemma {:induction false} CopiedParts(mem: Memory, role: Roles, mem1: Memory, role1: Roles, pd: nat, d: nat, v: nat)
    requires Copied(mem, role, mem1, role1, pd, d, v)
    ensures |mem| == |role| == |mem1| == |role1| == NFRAMES && pd < NFRAMES && d < NFRAMES && role1[d] == Dir
    ensures LeavesBut(mem, role, mem1, 0, 0, 0) && PagesKept(mem, role, mem1, role1)
    ensures forall f :: 0 <= f < NFRAMES && role1[f] != role[f] ==> role[f] == Free && (f == d || Of(role1[f], d))
  {
  }

  lemma {:induction false} FromZero(sz: nat)
    ensures Bytes(0) == 0 && (0 >= sz <==> PageUp(sz) == 0) && (sz <= KERNBASE ==> PageUp(sz) <= USER)
  {
  }

  lemma {:induction false} CopiedNone(mem: Memory, role: Roles, mem1: Memory, role1: Roles, pd: nat, d: nat, data: nat)
    requires |mem| == |role| == |mem1| == |role1| == NFRAMES && pd < NFRAMES && d < NFRAMES && role[pd] == Dir
    requires role[d] == Free && role1[d] == Dir
    requires LeavesBut(mem, role, mem1, 0, 0, 0) && PagesKept(mem, role, mem1, role1)
    requires Grown(role[d := Dir], role1, d) && 0x100 < data < NFRAMES
    requires forall v :: 0 <= v < NPT * NPT ==> Leaf(mem1, d, v) == KernelEntry(data, KMAPS, v)
    ensures Copied(mem, role, mem1, role1, pd, d, 0) && role1[pd] == Dir
  {
    hide LeavesBut, PagesKept, Leaf, KernelEntry;
    forall v | 0 <= v < USER
      ensures !Present(Leaf(mem1, d, v))
    {
      UserUnmapped(data, KMAPS, v);
    }
  }

  lemma {:induction false} UserUnmapped(data: nat, k: nat, v: nat)
    requires 0x100 < data < NFRAMES && k <= KMAPS && v < USER
    ensures KernelEntry(data, k, v) == 0
  {
    if k > 0 {
      UserUnmapped(data, k - 1, v);
    }
  }

  /** The page to be copied is as it was. */
  lemma {:induction false} CopiedSource(mem: Memory, role: Roles, lo: nat, mem1: Memory, role1: Roles, pd: nat,
        d: nat, v: nat)
    requires Copied(mem, role, mem1, role1, pd, d, v) && Owned(mem, role, lo) && v < USER && Present(Leaf(mem, pd, v))
    ensures Leaf(mem1, pd, v) == Leaf(mem, pd, v) && Addr(Leaf(mem, pd, v)) < NFRAMES
    ensures mem1[Addr(Leaf(mem, pd, v))] == mem[Addr(Leaf(mem, pd, v))]
  {
  }

  lemma {:induction false} CopiedLeaf(mem: Memory, role: Roles, mem1: Memory, role1: Roles, pd: nat, d: nat, v: nat)
    requires Copied(mem, role, mem1, role1, pd, d, v) && v < NPT * NPT
    ensures Leaf(mem1, pd, v) == Leaf(mem, pd, v)
  {
    hide Leaf, PageCopied;
    LeafSame(mem, role, mem1, pd, v);
  }

  lemma {:induction false} SourceAt(mem: Memory, pd: nat, v: nat, t: Option<nat>)
    requires pd < |mem| && v < NPT * NPT
    requires t.Some? ==> t.value < |mem| && Present(mem[pd][v / NPT]) && Addr(mem[pd][v / NPT]) == t.value
    requires t.None? ==> !Present(mem[pd][v / NPT])
    ensures Leaf(mem, pd, v) == if t.Some? then mem[t.value][v % NPT] else 0
  {
  }

  lemma {:induction false} CopiedFree(mem: Memory, role: Roles, mem1: Memory, role1: Roles, mem2: Memory, pd: nat,
        d: nat, v: nat)
    requires Copied(mem, role, mem1, role1, pd, d, v) && v < USER && |mem2| == NFRAMES
    requires LeavesBut(mem1, role1, mem2, 0, 0, 0)
    ensures !Present(Leaf(mem2, d, v))
  {
  }

  lemma {:induction false} CopiedMore(mem: Memory, role: Roles, lo: nat, mem1: Memory, role1: Roles, mem2: Memory,
        role2: Roles, pd: nat, d: nat, v: nat, f: nat)
    requires Copied(mem, role, mem1, role1, pd, d, v) && v < USER && |mem2| == |role2| == NFRAMES && f < NFRAMES
    requires LeavesBut(mem1, role1, mem2, d, v, v + 1) && PagesKept(mem1, role1, mem2, role2)
    requires role2[f] == User(d, v) && role1[f] == Free
    requires forall x :: 0 <= x < NFRAMES && role2[x] != role1[x] ==> role1[x] == Free && Grew(role2[x], d, v, v + 1)
    requires Addr(Leaf(mem, pd, v)) < NFRAMES && Leaf(mem2, d, v) == Entry(f, Flags(Leaf(mem, pd, v)))
    requires mem2[f] == mem[Addr(Leaf(mem, pd, v))]
    ensures Copied(mem, role, mem2, role2, pd, d, v + 1)
  {
    hide LeavesBut, PagesKept, Leaf, Entry;
    LeavesElse(mem, role, mem1, role1, mem2, d, v, v + 1);
    PagesTwice(mem, role, mem1, role1, mem2, role2);
    EntryParts(f, Flags(Leaf(mem, pd, v)));
    forall u | 0 <= u < v + 1
      ensures PageCopied(mem, role, mem2, role2, pd, d, u)
    {
      if u < v {
        assert PageCopied(mem, role, mem1, role1, pd, d, u);
        LeafOther(mem1, role1, mem2, d, v, v + 1, u);
        PageKept(mem1, role1, mem2, role2, Addr(Leaf(mem1, d, u)));
      }
    }
    forall u | v + 1 <= u < USER
      ensures !Present(Leaf(mem2, d, u))
    {
      LeafOther(mem1, role1, mem2, d, v, v + 1, u);
    }
  }

  /** A frame taken and released again. */
  lemma {:induction false} ReleasedAgain(mem: Memory, role: Roles, mem1: Memory, role1: Roles, mem2: Memory,
        role2: Roles, mem3: Memory, role3: Roles, pd: nat, d: nat, v: nat, f: nat)
    requires Copied(mem, role, mem1, role1, pd, d, v) && |mem2| == |role2| == |mem3| == |role3| == NFRAMES
    requires f < NFRAMES
    requires role1[f] == Free && role2 == role1[f := Kernel] && LeavesBut(mem1, role1, mem2, 0, 0, 0)
    requires PagesKept(mem1, role1, mem2, role2)
    requires role3 == role2[f := Free] && LeavesBut(mem2, role2, mem3, 0, 0, 0) && PagesKept(mem2, role2, mem3, role3)
    ensures role3 == role1 && LeavesBut(mem, role, mem3, 0, 0, 0) && PagesKept(mem, role, mem3, role3)
  {
  }

  /** freevm of the half-made copy gives back all it had taken. */
  lemma {:induction false} CopyUndone(mem: Memory, role: Roles, mem1: Memory, role1: Roles, mem2: Memory,
        role2: Roles, pd: nat, d: nat, v: nat)
    requires |mem| == |role| == |mem1| == |role1| == NFRAMES && d < NFRAMES && role[d] == Free
    requires forall f :: 0 <= f < NFRAMES ==> !Of(role[f], d)
    requires forall f :: 0 <= f < NFRAMES && role1[f] != role[f] ==> role[f] == Free && (f == d || Of(role1[f], d))
    requires LeavesBut(mem, role, mem1, 0, 0, 0) && PagesKept(mem, role, mem1, role1)
    requires Gone(mem1, role1, mem2, role2, d)
    ensures role2 == role && LeavesBut(mem, role, mem2, 0, 0, 0) && PagesKept(mem, role, mem2, role2)
  {
  }

  // ---------------------------------------------------------------- mapping a range

  /** NoMemory is the result -1, Remap a panic. */
  datatype Mapping = Done | NoMemory | Remap

  /** The pages from `from` to `end` were not there and are mapped to the frames from `frame` on. */
  ghost predicate MappedTo(mem: Memory, mem': Memory, pd: nat, from: nat, end: nat, frame: nat, perm: nat)
    requires pd < |mem| && pd < |mem'|
  {
    && end <= NPT * NPT && perm < PGSIZE && (from < end ==> frame + (end - from) <= NPT * NPT)
    && forall k :: from <= k < end ==>
         !Present(Leaf(mem, pd, k)) && Leaf(mem', pd, k) == Entry(frame + (k - from), perm)
  }

  /** The frames for the pages from `from` to `end` that are below KERNBASE are the kernel's. */
  ghost predicate UserFrames(role: Roles, lo: nat, from: nat, end: nat, frame: nat) {
    forall f :: frame <= f < frame + (end - from) && from + (f - frame) < USER ==> KernelFrame(role, lo, f)
  }

  predicate KernelFrame(role: Roles, lo: nat, f: nat) {
    lo <= f < |role| && role[f] == Kernel
  }

  /** The roles after those pages have been mapped. */
  function UserRoles(role: Roles, pd: nat, from: nat, end: nat, frame: nat): (r: Roles)
    ensures |r| == |role|
  {
    seq(|role|, f requires 0 <= f < |role| =>
      if frame <= f < frame + (end - from) && from + (f - frame) < USER then User(pd, from + (f - frame)) else role[f])
  }

  /** The pages from `from` to `end` mapped, those below KERNBASE with frames of the process's, and
      otherwise only tables made. */
  ghost predicate RangeMapped(mem: Memory, role: Roles, mem': Memory, role': Roles, pd: nat, from: nat, end: nat,
        frame: nat, perm: nat)
    requires pd < |mem| && pd < |mem'|
  {
    MappedTo(mem, mem', pd, from, end, frame, perm) && Grown(UserRoles(role, pd, from, end, frame), role', pd)
  }

  lemma {:induction false} NoUserRoles(role: Roles, pd: nat, from: nat, frame: nat)
    ensures UserRoles(role, pd, from, from, frame) == role
  {
  }

  /** One page, and pages of the kernel's. */
  lemma {:induction false} OneUserRole(role: Roles, pd: nat, v: nat, frame: nat)
    requires frame < |role|
    ensures v < USER ==> UserRoles(role, pd, v, v + 1, frame) == role[frame := User(pd, v)]
  {
  }

  lemma {:induction false} KernelAnyRoles(role: Roles, lo: nat, pd: nat, from: nat, frame: nat)
    requires from >= USER
    ensures forall end :: UserRoles(role, pd, from, end, frame) == role && UserFrames(role, lo, from, end, frame)
  {
  }

  lemma {:induction false} NextUserFrame(role: Roles, role1: Roles, lo: nat, pd: nat, from: nat, a: nat, end: nat,
        frame: nat)
    requires UserFrames(role, lo, from, end, frame) && from <= a < end
    requires Grown(UserRoles(role, pd, from, a, frame), role1, pd)
    ensures a < USER ==> var f := frame + (a - from); lo <= f < |role1| && role1[f] == Kernel
  {
    var f := frame + (a - from);
    assert a < USER ==> KernelFrame(role, lo, f);
  }

  lemma {:induction false} MoreUserRoles(role: Roles, role1: Roles, role2: Roles, lo: nat, pd: nat, from: nat, a: nat,
        end: nat, frame: nat)
    requires UserFrames(role, lo, from, end, frame) && from <= a < end
    requires Grown(UserRoles(role, pd, from, a, frame), role1, pd)
    requires var f := frame + (a - from);
      Grown(if a < USER && f < |role1| then role1[f := User(pd, a)] else role1, role2, pd)
    ensures Grown(UserRoles(role, pd, from, a + 1, frame), role2, pd)
  {
    var f := frame + (a - from);
    assert a < USER ==> KernelFrame(role, lo, f);
  }

  lemma {:induction false} RolesBetween(role: Roles, role1: Roles, role2: Roles, lo: nat, pd: nat, from: nat, a: nat,
        end: nat, frame: nat)
    requires UserFrames(role, lo, from, end, frame) && from <= a < end
    requires Grown(UserRoles(role, pd, from, a, frame), role1, pd)
    requires Grown(UserRoles(role, pd, from, a + 1, frame), role2, pd)
    ensures DirsKept(role, role1)
    ensures forall f :: 0 <= f < |role| && role2[f] == role[f] && (role[f].User? || role[f] == Kernel) ==>
      role1[f] == role[f]
  {
    forall f | 0 <= f < |role|
      ensures role[f] == Dir ==> role1[f] == Dir
      ensures role2[f] == role[f] && (role[f].User? || role[f] == Kernel) ==> role1[f] == role[f]
    {
      assert frame <= f < frame + (a - from) && from + (f - frame) < USER ==> KernelFrame(role, lo, f);
    }
  }

  /** The kernel's frames keep their contents, those that became the process's included. */
  lemma {:induction false} KernelKept(mem: Memory, role: Roles, mem1: Memory, role1: Roles, mem2: Memory, role2: Roles,
        pd: nat, from: nat, a: nat, frame: nat)
    requires |mem| == |role| == |mem1| == |role1| == |mem2| == |role2| && from <= a
    requires Grown(UserRoles(role, pd, from, a, frame), role1, pd) && PagesKept(mem1, role1, mem2, role2)
    requires var f := frame + (a - from);
      && Grown(if a < USER && f < |role1| then role1[f := User(pd, a)] else role1, role2, pd)
      && (a < USER && f < |role1| ==> mem2[f] == mem1[f])
    requires forall f :: 0 <= f < |role| && role[f] == Kernel ==> mem1[f] == mem[f]
    ensures forall f :: 0 <= f < |role| && role[f] == Kernel ==> mem2[f] == mem[f]
  {
  }

  lemma {:induction false} RangeInSpace(va: nat, size: nat)
    requires size > 0 && va + size <= Bytes(NPT * NPT)
    ensures PageOf(va) <= PageOf(va + size - 1) < NPT * NPT
  {
  }

  ghost predicate Absent(mem: Memory, pd: nat, from: nat, end: nat)
    requires pd < |mem|
  {
    end <= NPT * NPT && forall v :: from <= v < end ==> !Present(Leaf(mem, pd, v))
  }

  lemma {:induction false} AbsentNone(mem: Memory, pd: nat, from: nat)
    requires pd < |mem| && from <= NPT * NPT
    ensures Absent(mem, pd, from, from)
  {
  }

  lemma {:induction false} AbsentMore(mem: Memory, pd: nat, from: nat, v: nat)
    requires pd < |mem| && Absent(mem, pd, from, v) && v < NPT * NPT && !Present(Leaf(mem, pd, v))
    ensures Absent(mem, pd, from, v + 1)
  {
  }

  ghost predicate AllThere(mem: Memory, pd: nat, n: nat)
    requires pd < |mem|
  {
    n <= NPT * NPT && forall v :: 0 <= v < n ==> Present(Leaf(mem, pd, v))
  }

  lemma {:induction false} MappedToOne(mem: Memory, mem': Memory, pd: nat, v: nat, frame: nat, perm: nat)
    requires pd < |mem| && pd < |mem'| && MappedTo(mem, mem', pd, v, v + 1, frame, perm)
    ensures Leaf(mem', pd, v) == Entry(frame, perm) && !Present(Leaf(mem, pd, v))
  {
  }

  /** A page not mapped yet is as it was. */
  lemma {:induction false} MappedLeaf(mem: Memory, role: Roles, mem1: Memory, role1: Roles, pd: nat, from: nat, v: nat)
    requires Mapped(mem, role, mem1, role1, pd, from, v) && role[pd] == Dir && v < NPT * NPT
    ensures Leaf(mem1, pd, v) == Leaf(mem, pd, v)
  {
    LeafOther(mem, role, mem1, pd, from, v, v);
  }

  lemma {:induction false} GivenUp(mem: Memory, role: Roles, lo: nat, mem': Memory, role': Roles, pd: nat,
        from: nat, to: nat)
    requires pd < |mem| == |role| && role[pd] == Dir && Owned(mem, role, lo)
    requires Restored(mem, role, mem', role', pd, from, to)
    ensures Absent(mem, pd, from, to) ==> Grown(role, role', pd)
  {
    hide Owned, Leaf, Restored;
    if Absent(mem, pd, from, to) {
      NothingGivenUp(mem, role, lo, mem', role', pd, from, to);
    }
  }

  lemma {:induction false} OnePage(v: nat)
    requires v < NPT * NPT
    ensures Bytes(v) + PGSIZE <= Bytes(NPT * NPT) && PageOf(Bytes(v)) == PageOf(Bytes(v) + PGSIZE - 1) == v
  {
  }

  /** Whole pages. */
  lemma {:induction false} PageRange(v: nat, n: nat)
    requires n > 0 && v + n <= NPT * NPT
    ensures Bytes(n) > 0 && Bytes(v) + Bytes(n) <= Bytes(NPT * NPT)
    ensures PageOf(Bytes(v)) == v && PageOf(Bytes(v) + Bytes(n) - 1) == v + n - 1
  {
  }

  // ---------------------------------------------------------------- the kernel's mappings

  datatype Kmap = Kmap(virt: nat, n: nat, start: nat, perm: nat)

  const KMAPS := 4

  /** Entry `k` of kmap, in pages; the kernel's data begin at page `data`. */
  function KmapAt(data: nat, k: nat): (m: Kmap)
    requires 0x100 < data < NFRAMES && k < KMAPS
    ensures USER <= m.virt && m.n > 0 && m.virt + m.n <= NPT * NPT && m.start + m.n <= NPT * NPT && m.perm < PGSIZE
  {
    if k == 0 then Kmap(USER, 0x100, 0, PTE_W)
    else if k == 1 then Kmap(USER + 0x100, data - 0x100, 0x100, 0)
    else if k == 2 then Kmap(USER + data, NFRAMES - data, data, PTE_W)
    else Kmap(0xFE000, 0x2000, 0xFE000, PTE_W)
  }

  /** The entry for page `v` after the first `k` entries of kmap. */
  function KernelEntry(data: nat, k: nat, v: nat): Word
    requires 0x100 < data < NFRAMES && k <= KMAPS
  {
    if k == 0 then 0
    else
      var m := KmapAt(data, k - 1);
      if m.virt <= v < m.virt + m.n then Entry(m.start + (v - m.virt), m.perm) else KernelEntry(data, k - 1, v)
  }

  /** The mappings of kmap do not overlap. */
  lemma {:induction false} NotYet(data: nat, k: nat)
    requires 0x100 < data < NFRAMES && k < KMAPS
    ensures var m := KmapAt(data, k); forall v :: m.virt <= v < m.virt + m.n ==> KernelEntry(data, k, v) == 0
    ensures KernelEntry(data, k, 0) == 0
  {
    var m := KmapAt(data, k);
    forall v | v == 0 || m.virt <= v < m.virt + m.n
      ensures KernelEntry(data, k, v) == 0
    {
      NotBefore(data, k, k, v);
    }
  }

  lemma {:induction false} NotBefore(data: nat, k: nat, j: nat, v: nat)
    requires 0x100 < data < NFRAMES && k < KMAPS && j <= k
    requires (v < USER || KmapAt(data, k).virt <= v < KmapAt(data, k).virt + KmapAt(data, k).n)
    ensures KernelEntry(data, j, v) == 0
  {
    if j > 0 {
      NotBefore(data, k, j - 1, v);
    }
  }

  lemma {:induction false} OneMore(data: nat, k: nat, v: nat)
    requires 0x100 < data < NFRAMES && k < KMAPS
    ensures var m := KmapAt(data, k);
      KernelEntry(data, k + 1, v) ==
        if m.virt <= v < m.virt + m.n then Entry(m.start + (v - m.virt), m.perm) else KernelEntry(data, k, v)
  {
  }

  lemma {:induction false} NewDirKept(mem: Memory, role: Roles, head: nat, free: seq<nat>, f: nat)
    requires |mem| == |role| && FreeOk(mem, role, head, free) && f < |role| && role[f] == Kernel
    ensures FreeOk(mem, role[f := Dir], head, free)
  {
  }

  lemma {:induction false} EmptyDir(mem: Memory, pd: nat, data: nat)
    requires pd < |mem| && mem[pd] == Zero() && 0x100 < data < NFRAMES
    ensures forall v :: 0 <= v < NPT * NPT ==> Leaf(mem, pd, v) == KernelEntry(data, 0, v)
  {
  }

  lemma {:induction false} DirPages(mem: Memory, role: Roles, mem1: Memory, role1: Roles, pd: nat)
    requires |mem| == |role| == |mem1| == |role1| && pd < |role| && role[pd] == Free && role1 == role[pd := Kernel]
    requires PagesKept(mem, role, mem1, role1)
    ensures PagesKept(mem, role, mem1, role1[pd := Dir])
  {
  }

  /** A change to a directory that was none before. */
  lemma {:induction false} LeavesElse(mem: Memory, role: Roles, mem1: Memory, role1: Roles, mem2: Memory, pd: nat,
        from: nat, to: nat)
    requires |mem| == |role| == |mem1| == |role1| == |mem2| && pd < |role| && role[pd] != Dir && DirsKept(role, role1)
    requires LeavesBut(mem, role, mem1, 0, 0, 0) && LeavesBut(mem1, role1, mem2, pd, from, to)
    ensures LeavesBut(mem, role, mem2, 0, 0, 0)
  {
  }

  lemma {:induction false} SetupUndone(mem: Memory, role: Roles, lo: nat, mem2: Memory, role2: Roles, mem3: Memory,
        role3: Roles, pd: nat)
    requires Owned(mem, role, lo) && pd < NFRAMES && role[pd] == Free && Grown(role[pd := Dir], role2, pd)
    requires Gone(mem2, role2, mem3, role3, pd)
    requires LeavesBut(mem, role, mem2, 0, 0, 0) && PagesKept(mem, role, mem2, role2)
    ensures role3 == role && LeavesBut(mem, role, mem3, 0, 0, 0) && PagesKept(mem, role, mem3, role3)
  {
  }

  /** What is no directory has no tables and no pages. */
  lemma {:induction false} NobodysDir(mem: Memory, role: Roles, lo: nat, pd: nat)
    requires Owned(mem, role, lo) && pd < NFRAMES && role[pd] != Dir
    ensures forall f :: 0 <= f < NFRAMES ==> !Of(role[f], pd)
  {
  }

  class Vm {
    const lo: nat        // the page of `end`
    const dataPage: nat  // the page of V2P(data)
    var mem: Memory
    var head: nat        // kmem.freelist
    ghost var free: seq<nat>
    ghost var role: Roles

    ghost predicate Valid()
      reads this
    {
      && Owned(mem, role, lo) && FreeOk(mem, role, head, free)
      && 0x100 < dataPage < NFRAMES
    }

    /** Nothing changed but the free list and what is free. */
    twostate predicate Untouched()
      reads this
    {
      mem == old(mem) && role == old(role) && head == old(head) && free == old(free)
    }

    /** Before kinit1: nothing is free. */
    constructor (lo: nat, dataPage: nat, mem: Memory)
      requires 0 < lo <= NFRAMES && 0x100 < dataPage < NFRAMES && |mem| == NFRAMES
      ensures Valid() && this.lo == lo && this.mem == mem && free == [] && role == seq(NFRAMES, _ => Kernel)
    {
      this.lo, this.dataPage, this.mem, head := lo, dataPage, mem, 0;
      free, role := [], seq(NFRAMES, _ => Kernel);
    }

    method Kalloc() returns (r: Option<nat>)
      requires Valid()
      modifies this
      ensures Valid() && mem == old(mem)
      ensures r.None? ==> Untouched() && forall f :: 0 <= f < NFRAMES ==> role[f] != Free
      ensures r.Some? ==> lo <= r.value < NFRAMES && old(role[r.value]) == Free && role == old(role)[r.value := Kernel]
      ensures r.Some? ==> old(free) == [r.value] + free
    {
      hide Owned, FreeOk;
      OwnedSizes(mem, role, lo);
      NothingFree(mem, role, head, free, lo);
      if head == 0 {
        return None;
      }
      var v := head;
      FreeFirst(mem, role, head, free);
      LooseOk(mem, role, lo, v, mem[v], Kernel);
      assert mem[v := mem[v]] == mem;
      head := mem[v][0];
      free, role := free[1..], role[v := Kernel];
      assert old(free) == [v] + free;
      return Some(v);
    }

    /** False is one of the panics. The frame need not be out of use yet: deallocuvm clears its
        entry afterwards. A frame that is free already is pushed again, and then no list of frames is
        what the links make up: they go in a circle. */
    method Kfree(f: nat) returns (ok: bool)
      requires |mem| == |role| == NFRAMES && FreeOk(mem, role, head, free) && head < NFRAMES && lo > 0
      requires role[0] != Free
      modifies this
      ensures ok <==> lo <= f < NFRAMES
      ensures !ok ==> Untouched()
      ensures ok ==> mem == old(mem)[f := Junk(old(head))] && role == old(role)[f := Free]
      ensures ok ==> head == f < NFRAMES && free == [f] + old(free)
      ensures ok ==> (FreeOk(mem, role, head, free) <==> old(role)[f] != Free)
      ensures ok && old(role)[f] == Free ==> forall l :: !FreeOk(mem, role, head, l)
    {
      hide FreeOk;
      if f < lo || f >= NFRAMES {
        return false;
      }
      if role[f] != Free {
        FreeMore(mem, role, head, free, f, Junk(head));
      } else {
        ghost var mem1 := mem[f := Junk(head)];
        forall l: seq<nat>
          ensures !FreeOk(mem1, role, f, l)
        {
          FreeTwice(mem, role, head, free, f, Junk(head), l);
        }
        assert role[f := Free] == role;
      }
      mem := mem[f := Junk(head)];
      head := f;
      free, role := [f] + free, role[f := Free];
      return true;
    }

    /** The table with the entry for page `v`, whose index is PTX. */
    method Walkpgdir(pd: nat, v: nat, alloc: bool) returns (t: Option<nat>)
      requires Valid() && pd < NFRAMES && role[pd] == Dir && v < NPT * NPT
      modifies this
      ensures Valid() && Grown(old(role), role, pd)
      ensures LeavesBut(old(mem), old(role), mem, 0, 0, 0) && PagesKept(old(mem), old(role), mem, role)
      ensures t.Some? ==> t.value < NFRAMES && Present(mem[pd][v / NPT]) && Addr(mem[pd][v / NPT]) == t.value
      ensures t.Some? ==> role[t.value] == Table(pd, v / NPT)
      ensures t.None? || !alloc || Present(old(mem)[pd][v / NPT]) ==> Untouched()
      ensures t.None? ==> !Present(mem[pd][v / NPT]) && (alloc ==> forall f :: 0 <= f < NFRAMES ==> role[f] != Free)
    {
      hide Owned, FreeOk, LeavesBut, PagesKept;
      OwnedSizes(mem, role, lo);
      ghost var mem0, role0 := mem, role;
      SameLeaves(mem, role);
      var pde := mem[pd][v / NPT];
      if Present(pde) {
        IsTable(mem, role, lo, pd, v / NPT);
        return Some(Addr(pde));
      }
      if !alloc {
        return None;
      }
      var got := Kalloc();
      if got.None? {
        return None;
      }
      var pgtab := got.value;
      LooseOk(mem, role, lo, pgtab, Zero(), Kernel);
      LooseKept(mem, role, head, free, pgtab, Zero());
      LeavesLoose(mem0, role0, lo, pgtab, Zero());
      assert role[pgtab := Kernel] == role;
      mem := mem[pgtab := Zero()];
      EntryParts(pgtab, PTE_W + PTE_U);
      ghost var w := Entry(pgtab, PTE_W + PTE_U);
      NewTableOk(mem, role, lo, pd, v / NPT, pgtab, w);
      LeavesTable(mem, role, lo, pd, v / NPT, pgtab, w);
      TableKept(mem, role, head, free, pd, v / NPT, pgtab, w);
      LeavesTwice(mem0, role0, mem, role, mem[pd := mem[pd][v / NPT := w]], 0, 0, 0);
      WalkPages(mem0, role0, pd, v / NPT, pgtab, w);
      mem := mem[pd := mem[pd][v / NPT := Entry(pgtab, PTE_W + PTE_U)]];
      role := role[pgtab := Table(pd, v / NPT)];
      assert role == role0[pgtab := Table(pd, v / NPT)];
      return Some(pgtab);
    }

    /** One page of mappages: `*pte = pa | perm | PTE_P`. */
    method MapOne(pd: nat, v: nat, frame: nat, perm: nat) returns (r: Mapping)
      requires Valid() && pd < NFRAMES && role[pd] == Dir && v < NPT * NPT && frame < NPT * NPT && perm < PGSIZE
      requires v < USER ==> lo <= frame < NFRAMES && role[frame] == Kernel
      modifies this
      ensures Valid() && PagesKept(old(mem), old(role), mem, role)
      ensures r.Remap? <==> Present(Leaf(old(mem), pd, v))
      ensures r.NoMemory? ==> forall f :: 0 <= f < NFRAMES ==> role[f] != Free
      ensures !r.Done? ==> Untouched()
      ensures r.Done? ==> LeavesBut(old(mem), old(role), mem, pd, v, v + 1) && Leaf(mem, pd, v) == Entry(frame, perm)
      ensures r.Done? ==> Grown(if v < USER then old(role)[frame := User(pd, v)] else old(role), role, pd)
      ensures v < USER ==> mem[frame] == old(mem)[frame]
    {
      hide Owned, FreeOk, LeavesBut, PagesKept;
      OwnedSizes(mem, role, lo);
      ghost var mem0, role0 := mem, role;
      var t := Walkpgdir(pd, v, true);
      if t.None? {
        assert !Present(Leaf(mem, pd, v));
        return NoMemory;
      }
      OwnedSizes(mem, role, lo);
      LeafSame(mem0, role0, mem, pd, v);
      WasPresent(mem, pd, v, t.value);
      if Present(mem[t.value][v % NPT]) {
        return Remap;
      }
      if v < USER {
        PageKept(mem0, role0, mem, role, frame);
      }
      ghost var mem1, role1, w := mem, role, Entry(frame, perm);
      EntryParts(frame, perm);
      LeavesSet(mem, role, lo, pd, v, t.value, w);
      if v < USER {
        NewUserOk(mem, role, lo, pd, v, t.value, frame, w);
        UserKept(mem, role, head, free, pd, v, t.value, frame, w);
        MapPages(mem0, role0, mem, role, t.value, v % NPT, w, role[frame := User(pd, v)]);
        role := role[frame := User(pd, v)];
      } else {
        KernelLeafOk(mem, role, lo, t.value, v % NPT, w);
        LooseKept(mem, role, head, free, t.value, mem[t.value][v % NPT := w]);
        MapPages(mem0, role0, mem, role, t.value, v % NPT, w, role);
      }
      mem := mem[t.value := mem[t.value][v % NPT := Entry(frame, perm)]];
      LeavesWider(mem0, role0, mem1, 0, 0, 0, pd, v, v + 1);
      LeavesTwice(mem0, role0, mem1, role1, mem, pd, v, v + 1);
      return Done;
    }

    /** Map the pages of `size` bytes from `va` on to the frames from `frame` on, which are the kernel's
        own for pages below KERNBASE and become the process's. */
    method Mappages(pd: nat, va: nat, size: nat, frame: nat, perm: nat) returns (r: Mapping)
      requires Valid() && pd < NFRAMES && role[pd] == Dir && perm < PGSIZE && size > 0 && va + size <= Bytes(NPT * NPT)
      requires frame + (PageOf(va + size - 1) - PageOf(va)) < NPT * NPT
      requires UserFrames(role, lo, PageOf(va), PageOf(va + size - 1) + 1, frame)
      modifies this
      ensures Valid() && PagesKept(old(mem), old(role), mem, role)
      ensures LeavesBut(old(mem), old(role), mem, pd, PageOf(va), PageOf(va + size - 1) + 1)
      ensures r.Done? ==>
        RangeMapped(old(mem), old(role), mem, role, pd, PageOf(va), PageOf(va + size - 1) + 1, frame, perm)
      ensures r.Remap? ==> exists m ::
        && PageOf(va) <= m <= PageOf(va + size - 1)
        && RangeMapped(old(mem), old(role), mem, role, pd, PageOf(va), m, frame, perm) && Present(Leaf(old(mem), pd, m))
      ensures r.NoMemory? ==> exists m ::
        && PageOf(va) <= m <= PageOf(va + size - 1)
        && RangeMapped(old(mem), old(role), mem, role, pd, PageOf(va), m, frame, perm)
        && !Present(Leaf(old(mem), pd, m))
      ensures r.NoMemory? ==> forall f :: 0 <= f < NFRAMES ==> role[f] != Free
      ensures !r.Done? && PageOf(va) == PageOf(va + size - 1) ==> Untouched()
      ensures forall f :: frame <= f <= frame + (PageOf(va + size - 1) - PageOf(va)) && f < NFRAMES ==>
        old(role)[f] == Kernel ==> mem[f] == old(mem)[f]
    {
      hide Owned, FreeOk, LeavesBut, PagesKept, Leaf, Entry, PageOf, Bytes, UserRoles, UserFrames;
      OwnedSizes(mem, role, lo);
      ghost var mem0, role0, from, end := mem, role, PageOf(va), PageOf(va + size - 1) + 1;
      RangeInSpace(va, size);
      SameLeaves(mem, role);
      LeavesWider(mem0, role0, mem, 0, 0, 0, pd, from, end);
      NoUserRoles(role, pd, from, frame);
      var a, last, pa := PageOf(va), PageOf(va + size - 1), frame;
      while true
        invariant from <= a <= last && pa == frame + (a - from)
        invariant Valid() && |mem| == |role| == NFRAMES && role[pd] == Dir
        invariant PagesKept(mem0, role0, mem, role) && LeavesBut(mem0, role0, mem, pd, from, end)
        invariant RangeMapped(mem0, role0, mem, role, pd, from, a, frame, perm)
        invariant forall k :: a <= k < end ==> Leaf(mem, pd, k) == Leaf(mem0, pd, k)
        invariant forall f :: 0 <= f < NFRAMES && role0[f] == Kernel ==> mem[f] == mem0[f]
        invariant a == from ==> Untouched()
        decreases last - a
      {
        ghost var mem1, role1 := mem, role;
        NextUserFrame(role0, role, lo, pd, from, a, end, frame);
        r := MapOne(pd, a, pa, perm);
        if !r.Done? {
          return;
        }
        OwnedSizes(mem, role, lo);
        MoreUserRoles(role0, role1, role, lo, pd, from, a, end, frame);
        RolesBetween(role0, role1, role, lo, pd, from, a, end, frame);
        LeavesWider(mem1, role1, mem, pd, a, a + 1, pd, from, end);
        LeavesTwice(mem0, role0, mem1, role1, mem, pd, from, end);
        PagesTwice(mem0, role0, mem1, role1, mem, role);
        forall k | from <= k < end && k != a
          ensures Leaf(mem, pd, k) == Leaf(mem1, pd, k)
        {
          LeafOther(mem1, role1, mem, pd, a, a + 1, k);
        }
        KernelKept(mem0, role0, mem1, role1, mem, role, pd, from, a, frame);
        if a == last {
          return;
        }
        a, pa := a + 1, pa + 1;
      }
    }

    /** One round of deallocuvm: free page `v` if it is present. `skip`: there is no table. */
    method DropPage(pd: nat, v: nat) returns (skip: bool)
      requires Valid() && pd < NFRAMES && role[pd] == Dir && v < USER
      modifies this
      ensures Valid() && Unmapped(old(mem), old(role), mem, role, pd, v, v + 1)
      ensures skip ==> Untouched() && !Present(mem[pd][v / NPT])
    {
      hide Owned, FreeOk, Unmapped, Leaf;
      OwnedSizes(mem, role, lo);
      var t := Walkpgdir(pd, v, false);
      if t.None? {
        NoTable(mem, pd, v);
        UnmappedNone(mem, role, lo, pd, v, v + 1);
        return true;
      }
      WasPresent(mem, pd, v, t.value);
      if Present(mem[t.value][v % NPT]) {
        var pa := Addr(mem[t.value][v % NPT]);
        NothingFree(mem, role, head, free, lo);
        PageUnmapped(mem, role, lo, pd, v, t.value, pa, Junk(head));
        var ok := Kfree(pa);
        LooseKept(mem, role, head, free, t.value, mem[t.value][v % NPT := 0]);
        mem := mem[t.value := mem[t.value][v % NPT := 0]];
      } else {
        UnmappedNone(mem, role, lo, pd, v, v + 1);
      }
      return false;
    }

    /** The same, after the pages from `from` on; without a table, for all of the directory entry. */
    method DropNext(pd: nat, v: nat, ghost mem0: Memory, ghost role0: Roles, ghost from: nat,
          ghost to: nat) returns (skip: bool)
      requires Valid() && pd < NFRAMES && role[pd] == Dir && from <= v < to <= USER && |role0| == NFRAMES
      requires role0[pd] == Dir
      requires Unmapped(mem0, role0, mem, role, pd, from, Least(v, to))
      modifies this
      ensures Valid() && |mem| == |role| == NFRAMES && role[pd] == Dir
      ensures Unmapped(mem0, role0, mem, role, pd, from, Least(if skip then NextDir(v) else v + 1, to))
    {
      hide Owned, FreeOk, Unmapped, Leaf, Least, NextDir;
      OwnedSizes(mem, role, lo);
      ghost var mem1, role1 := mem, role;
      skip := DropPage(pd, v);
      OwnedSizes(mem, role, lo);
      if skip {
        DeallocSkip(mem0, role0, mem, role, lo, pd, from, v, to);
      } else {
        DeallocOne(mem0, role0, mem1, role1, mem, role, pd, from, v, to);
      }
    }

    /** Free the present pages of directory `pd` from `newsz`, rounded up, to `oldsz`. */
    method Deallocuvm(pd: nat, oldsz: nat, newsz: nat) returns (r: nat)
      requires Valid() && pd < NFRAMES && role[pd] == Dir && oldsz <= KERNBASE
      modifies this
      ensures Valid()
      ensures newsz >= oldsz ==> r == oldsz && Untouched()
      ensures newsz < oldsz ==> r == newsz && Unmapped(old(mem), old(role), mem, role, pd, PageUp(newsz), PageUp(oldsz))
    {
      hide Owned, FreeOk, Unmapped, Leaf, PageUp, Least, NextDir, Bytes, PageOf;
      if newsz >= oldsz {
        return oldsz;
      }
      OwnedSizes(mem, role, lo);
      ghost var mem0, role0, from, to := mem, role, PageUp(newsz), PageUp(oldsz);
      Pages(newsz, oldsz, 0);
      UnmappedNone(mem, role, lo, pd, from, from);
      LeastIs(from, to);
      var a := Bytes(PageUp(newsz));  // PGROUNDUP(newsz)
      ghost var v := from;
      while a < oldsz
        invariant a == Bytes(v) && from <= v <= USER && Valid() && |mem| == |role| == NFRAMES
        invariant role0[pd] == role[pd] == Dir
        invariant Unmapped(mem0, role0, mem, role, pd, from, Least(v, to))
        decreases USER - v
      {
        InPages(a, v, oldsz);
        var skip := DropNext(pd, PageOf(a), mem0, role0, from, to);
        if skip {
          a := Bytes(NextDir(PageOf(a))) - PGSIZE;
          v := NextDir(v) - 1;
        }
        a, v := a + PGSIZE, v + 1;
      }
      Pages(newsz, oldsz, v);
      LeastIs(v, to);
      return newsz;
    }

    /** kfree of a frame that is out of use. */
    method Release(f: nat)
      requires Valid() && lo <= f < NFRAMES && role[f] == Kernel
      modifies this
      ensures Valid() && role == old(role)[f := Free] && |mem| == |old(mem)| == NFRAMES && free == [f] + old(free)
      ensures forall x :: 0 <= x < NFRAMES && x != f ==> mem[x] == old(mem)[x]
      ensures LeavesBut(old(mem), old(role), mem, 0, 0, 0) && PagesKept(old(mem), old(role), mem, role)
    {
      hide Owned, FreeOk, LeavesBut, Junk;
      OwnedSizes(mem, role, lo);
      NothingFree(mem, role, head, free, lo);
      LooseOk(mem, role, lo, f, Junk(head), Free);
      LeavesLoose(mem, role, lo, f, Junk(head));
      var ok := Kfree(f);
    }

    /** Free the pages from `from` to `end`: the lists of kinit1 and kinit2, last page first. */
    method Freerange(from: nat, end: nat)
      requires Valid() && lo <= from <= end <= NFRAMES && forall f :: from <= f < end ==> role[f] == Kernel
      modifies this
      ensures Valid() && |role| == |old(role)|
      ensures forall f :: 0 <= f < |role| ==> role[f] == if from <= f < end then Free else old(role)[f]
      ensures |free| == end - from + |old(free)| && free[end - from..] == old(free)
      ensures forall k :: 0 <= k < end - from ==> free[k] == end - 1 - k
    {
      hide Owned, FreeOk;
      OwnedSizes(mem, role, lo);
      ghost var free0 := free;
      var p := from;
      while p + 1 <= end
        invariant from <= p <= end && Valid() && |role| == |old(role)| == NFRAMES
        invariant forall f :: 0 <= f < |role| ==> role[f] == if from <= f < p then Free else old(role)[f]
        invariant |free| == p - from + |free0| && free[p - from..] == free0
        invariant forall k :: 0 <= k < p - from ==> free[k] == p - 1 - k
      {
        Release(p);
        OwnedSizes(mem, role, lo);
        p := p + 1;
      }
    }

    /** Free a directory, its tables and its pages. */
    method Freevm(pd: nat)
      requires Valid() && pd < NFRAMES && role[pd] == Dir
      modifies this
      ensures Valid() && Gone(old(mem), old(role), mem, role, pd)
    {
      hide Owned, FreeOk, Unmapped, Leaf, LeavesBut, PagesKept, Gone, Dissolved, Freeing, PageUp;
      OwnedSizes(mem, role, lo);
      ghost var mem0, role0 := mem, role;
      WholeSpace();
      var r := Deallocuvm(pd, KERNBASE, 0);
      OwnedSizes(mem, role, lo);
      ghost var mem1, role1 := mem, role;
      NoUsers(mem0, role0, lo, mem1, role1, pd);
      DissolveOk(mem, role, lo, pd);
      DissolveKept(mem, role, head, free, pd);
      ghost var d := Dissolved(role, pd);
      role := d;
      FreeingStart(role1, pd);
      SameLeaves(mem, role);
      var i := 0;
      while i < NPT
        invariant 0 <= i <= NPT && Valid() && |mem| == |role| == NFRAMES && mem[pd] == mem1[pd]
        invariant role == Freeing(role1, pd, i) && LeavesBut(mem1, d, mem, 0, 0, 0) && PagesKept(mem1, d, mem, role)
      {
        ghost var mem2, role2 := mem, role;
        FreeingNext(mem1, role1, lo, pd, i);
        if Present(mem[pd][i]) {
          Release(Addr(mem[pd][i]));
          LeavesTwice(mem1, d, mem2, role2, mem, 0, 0, 0);
          PagesTwice(mem1, d, mem2, role2, mem, role);
        }
        i := i + 1;
      }
      ghost var mem3, role3 := mem, role;
      FreeingEnd(role0, mem0, role1, mem1, lo, pd);
      Release(pd);
      LeavesTwice(mem1, d, mem3, role3, mem, 0, 0, 0);
      PagesTwice(mem1, d, mem3, role3, mem, role);
      AllGone(mem0, role0, mem1, role1, mem, role, pd);
    }

    /** kalloc and `memset(..., 0, PGSIZE)`. */
    method ZeroPage() returns (r: Option<nat>)
      requires Valid()
      modifies this
      ensures Valid() && |mem| == |role| == NFRAMES
      ensures r.None? ==> Untouched()
      ensures r.Some? ==>
        0 < lo <= r.value < NFRAMES && old(role[r.value]) == Free && role == old(role)[r.value := Kernel]
      ensures r.Some? ==> mem == old(mem)[r.value := Zero()]
      ensures LeavesBut(old(mem), old(role), mem, 0, 0, 0) && PagesKept(old(mem), old(role), mem, role)
    {
      hide Owned, FreeOk, LeavesBut, Zero;
      OwnedSizes(mem, role, lo);
      SameLeaves(mem, role);
      ghost var role0 := role;
      r := Kalloc();
      if r.None? {
        return;
      }
      LeavesLoose(mem, role0, lo, r.value, Zero());
      LooseOk(mem, role, lo, r.value, Zero(), Kernel);
      LooseKept(mem, role, head, free, r.value, Zero());
      assert role[r.value := Kernel] == role;
      mem := mem[r.value := Zero()];
    }

    /** Entry `k` of kmap, in a directory that has those before it. The panic "remap" cannot happen. */
    method MapKernel(pd: nat, k: nat) returns (ok: bool)
      requires Valid() && pd < NFRAMES && role[pd] == Dir && k < KMAPS
      requires forall v :: 0 <= v < NPT * NPT ==> Leaf(mem, pd, v) == KernelEntry(dataPage, k, v)
      modifies this
      ensures Valid() && |mem| == |role| == NFRAMES && Grown(old(role), role, pd)
      ensures PagesKept(old(mem), old(role), mem, role)
      ensures var m := KmapAt(dataPage, k); LeavesBut(old(mem), old(role), mem, pd, m.virt, m.virt + m.n)
      ensures ok ==> forall v :: 0 <= v < NPT * NPT ==> Leaf(mem, pd, v) == KernelEntry(dataPage, k + 1, v)
    {
      hide Owned, FreeOk, Leaf, LeavesBut, PagesKept, KernelEntry, Entry, PageOf, Bytes, UserRoles, UserFrames;
      OwnedSizes(mem, role, lo);
      ghost var mem0, role0 := mem, role;
      var m := KmapAt(dataPage, k);
      NotYet(dataPage, k);
      PageRange(m.virt, m.n);
      KernelAnyRoles(role, lo, pd, m.virt, m.start);
      var mapped := Mappages(pd, Bytes(m.virt), Bytes(m.n), m.start, m.perm);
      assert !mapped.Remap?;
      OwnedSizes(mem, role, lo);
      ok := mapped.Done?;
      if ok {
        forall v | 0 <= v < NPT * NPT
          ensures Leaf(mem, pd, v) == KernelEntry(dataPage, k + 1, v)
        {
          OneMore(dataPage, k, v);
          if !(m.virt <= v < m.virt + m.n) {
            LeafOther(mem0, role0, mem, pd, m.virt, m.virt + m.n, v);
          }
        }
      }
    }

    /** A directory with the kernel's mappings and no others. */
    method Setupkvm() returns (r: Option<nat>)
      requires Valid()
      modifies this
      ensures Valid() && LeavesBut(old(mem), old(role), mem, 0, 0, 0) && PagesKept(old(mem), old(role), mem, role)
      ensures r.None? ==> role == old(role)
      ensures r.Some? ==> r.value < NFRAMES && old(role[r.value]) == Free && role[r.value] == Dir
      ensures r.Some? ==> Grown(old(role)[r.value := Dir], role, r.value)
      ensures r.Some? ==> forall v :: 0 <= v < NPT * NPT ==> Leaf(mem, r.value, v) == KernelEntry(dataPage, KMAPS, v)
    {
      hide Owned, FreeOk, Leaf, LeavesBut, PagesKept, Zero, Gone, KernelEntry, Entry, PageOf, Bytes;
      OwnedSizes(mem, role, lo);
      ghost var mem0, role0 := mem, role;
      r := ZeroPage();
      if r.None? {
        assert role == role0;
        return;
      }
      var pd := r.value;
      NewDirOk(mem, role, lo, pd);
      NewDirKept(mem, role, head, free, pd);
      EmptyDir(mem, pd, dataPage);
      DirPages(mem0, role0, mem, role, pd);
      role := role[pd := Dir];
      assert role == role0[pd := Dir];
      var k := 0;
      while k < KMAPS
        invariant 0 <= k <= KMAPS && Valid() && |mem| == |role| == NFRAMES && role[pd] == Dir
        invariant Grown(role0[pd := Dir], role, pd)
        invariant forall v :: 0 <= v < NPT * NPT ==> Leaf(mem, pd, v) == KernelEntry(dataPage, k, v)
        invariant LeavesBut(mem0, role0, mem, 0, 0, 0) && PagesKept(mem0, role0, mem, role)
      {
        ghost var mem1, role1, m := mem, role, KmapAt(dataPage, k);
        var ok := MapKernel(pd, k);
        LeavesElse(mem0, role0, mem1, role1, mem, pd, m.virt, m.virt + m.n);
        PagesTwice(mem0, role0, mem1, role1, mem, role);
        if !ok {
          ghost var mem2, role2 := mem, role;
          Freevm(pd);
          SetupUndone(mem0, role0, lo, mem2, role2, mem, role, pd);
          return None;
        }
        k := k + 1;
      }
      return Some(pd);
    }

    /** Grow a process: pages from `oldsz`, rounded up, to `newsz`, zeroed. 0: no memory; what had been
        mapped is unmapped again. `panics`: a page of the range was there, the panic "remap". */
    method Allocuvm(pd: nat, oldsz: nat, newsz: nat) returns (r: nat, panics: bool)
      requires Valid() && pd < NFRAMES && role[pd] == Dir
      modifies this
      ensures Valid()
      ensures newsz >= KERNBASE ==> r == 0 && !panics && Untouched()
      ensures newsz < oldsz && newsz < KERNBASE ==> r == oldsz && !panics && Untouched()
      ensures newsz == 0 ==> !panics && r == oldsz && Untouched()
      ensures panics ==> oldsz <= newsz < KERNBASE
      ensures panics ==> exists v ::
        && PageUp(oldsz) <= v < PageUp(newsz) <= USER
        && Present(Leaf(old(mem), pd, v)) && Absent(old(mem), pd, PageUp(oldsz), v)
      ensures oldsz <= newsz < KERNBASE && !panics && r == newsz > 0 ==>
        && Mapped(old(mem), old(role), mem, role, pd, PageUp(oldsz), PageUp(newsz))
        && Absent(old(mem), pd, PageUp(oldsz), PageUp(newsz))
      ensures oldsz <= newsz < KERNBASE && !panics && r != newsz ==>
        && r == 0 && Restored(old(mem), old(role), mem, role, pd, PageUp(oldsz), PageUp(newsz))
        && (Absent(old(mem), pd, PageUp(oldsz), PageUp(newsz)) ==> Grown(old(role), role, pd))
    {
      hide Owned, FreeOk, Leaf, LeavesBut, PagesKept, Zero, Entry, PageUp, Bytes, PageOf, Mapped, Restored, Unmapped;
      hide Absent;
      panics := false;
      if newsz >= KERNBASE {
        return 0, false;
      }
      if newsz < oldsz {
        return oldsz, false;
      }
      OwnedSizes(mem, role, lo);
      ghost var mem0, role0, from, end := mem, role, PageUp(oldsz), PageUp(newsz);
      Pages(oldsz, newsz, 0);
      MappedNone(mem, role, pd, from);
      var a := Bytes(PageUp(oldsz));
      ghost var v := from;
      AbsentNone(mem, pd, from);
      while a < newsz
        invariant a == Bytes(v) && from <= v <= end && Valid() && |mem| == |role| == NFRAMES && role[pd] == Dir
        invariant Mapped(mem0, role0, mem, role, pd, from, v) && Absent(mem0, pd, from, v)
        invariant newsz == 0 ==> Untouched()
        decreases end - v
      {
        ghost var mem1, role1 := mem, role;
        InPages(a, v, newsz);
        OnePage(v);
        var got := ZeroPage();
        if got.None? {
          r := Deallocuvm(pd, newsz, oldsz);
          OwnedSizes(mem, role, lo);
          AllocUndone(mem0, role0, mem1, role1, mem, role, pd, from, v, end);
          GivenUp(mem0, role0, lo, mem, role, pd, from, end);
          return 0, false;
        }
        var page := got.value;
        ghost var mem2, role2 := mem, role;
        LeafSame(mem1, role1, mem, pd, v);
        MappedLeaf(mem0, role0, mem1, role1, pd, from, v);
        OneUserRole(role, pd, v, page);
        var mapped := Mappages(pd, a, PGSIZE, page, PTE_W + PTE_U);
        OwnedSizes(mem, role, lo);
        if mapped.Remap? {
          return 0, true;
        }
        if mapped.NoMemory? {
          r := Deallocuvm(pd, newsz, oldsz);
          OwnedSizes(mem, role, lo);
          ghost var mem3, role3 := mem, role;
          StillKernel(mem2, role2, mem3, role3, pd, from, end, page);
          Release(page);
          UnmappedAround(mem1, role1, mem2, role2, mem3, role3, mem, role, pd, from, end, page);
          AllocUndone(mem0, role0, mem1, role1, mem, role, pd, from, v, end);
          GivenUp(mem0, role0, lo, mem, role, pd, from, end);
          return 0, false;
        }
        MappedToOne(mem2, mem, pd, v, page, PTE_W + PTE_U);
        PageAdded(mem1, role1, mem2, role2, mem, role, pd, v, page, Zero());
        MappedMore(mem0, role0, mem1, role1, mem, role, pd, from, v, page);
        AbsentMore(mem0, pd, from, v);
        a, v := a + PGSIZE, v + 1;
      }
      Pages(oldsz, newsz, v);
      return newsz, false;
    }

    /** kalloc and `memmove(mem, P2V(pa), PGSIZE)`. */
    method CopyPage(pa: nat) returns (r: Option<nat>)
      requires Valid() && pa < NFRAMES && role[pa].User?
      modifies this
      ensures Valid() && |mem| == |role| == NFRAMES
      ensures r.None? ==> Untouched()
      ensures r.Some? ==>
        0 < lo <= r.value < NFRAMES && old(role[r.value]) == Free && role == old(role)[r.value := Kernel]
      ensures r.Some? ==> mem == old(mem)[r.value := old(mem)[pa]]
      ensures LeavesBut(old(mem), old(role), mem, 0, 0, 0) && PagesKept(old(mem), old(role), mem, role)
    {
      hide Owned, FreeOk, LeavesBut;
      OwnedSizes(mem, role, lo);
      SameLeaves(mem, role);
      ghost var role0 := role;
      r := Kalloc();
      if r.None? {
        return;
      }
      LeavesLoose(mem, role0, lo, r.value, mem[pa]);
      LooseOk(mem, role, lo, r.value, mem[pa], Kernel);
      LooseKept(mem, role, head, free, r.value, mem[pa]);
      assert role[r.value := Kernel] == role;
      mem := mem[r.value := mem[pa]];
    }

    /** One round of copyuvm for the byte `i`, after `v` pages. NotThere is one of its panics. */
    method CopyNext(pd: nat, d: nat, i: nat, ghost v: nat, ghost mem0: Memory, ghost role0: Roles) returns (r: Copying)
      requires Valid() && v < USER && i == Bytes(v) && Owned(mem0, role0, lo)
      requires Copied(mem0, role0, mem, role, pd, d, v) && role[pd] == Dir && d != pd
      modifies this
      ensures Valid() && |mem| == |role| == NFRAMES && role[pd] == role[d] == Dir
      ensures r.CopiedOne? ==> Copied(mem0, role0, mem, role, pd, d, v + 1) && Present(Leaf(mem0, pd, v))
      ensures r.NoFrame? ==>
        role == old(role) && LeavesBut(mem0, role0, mem, 0, 0, 0) && PagesKept(mem0, role0, mem, role)
      ensures r.NotThere? <==> !Present(Leaf(mem0, pd, v))
    {
      hide Owned, FreeOk, Leaf, LeavesBut, PagesKept, Entry, Bytes, PageOf, Copied;
      OwnedSizes(mem, role, lo);
      OnePage(v);
      CopiedParts(mem0, role0, mem, role, pd, d, v);
      CopiedLeaf(mem0, role0, mem, role, pd, d, v);
      ghost var mem1, role1 := mem, role;
      var t := Walkpgdir(pd, PageOf(i), false);
      SourceAt(mem, pd, v, t);
      if t.None? || !Present(mem[t.value][PageOf(i) % NPT]) {
        return NotThere;
      }
      CopiedSource(mem0, role0, lo, mem, role, pd, d, v);
      var pte := mem[t.value][PageOf(i) % NPT];
      var pa, flags := Addr(pte), Flags(pte);
      LeafIsUser(mem, role, lo, pd, v);
      var got := CopyPage(pa);
      if got.None? {
        return NoFrame;
      }
      var page := got.value;
      ghost var mem2, role2 := mem, role;
      CopiedFree(mem0, role0, mem1, role1, mem2, pd, d, v);
      OneUserRole(role, d, v, page);
      var mapped := Mappages(d, i, PGSIZE, page, flags);
      OwnedSizes(mem, role, lo);
      if !mapped.Done? {
        assert !mapped.Remap?;
        Release(page);
        ReleasedAgain(mem0, role0, mem1, role1, mem2, role2, mem, role, pd, d, v, page);
        return NoFrame;
      }
      MappedToOne(mem2, mem, d, v, page, flags);
      PageAdded(mem1, role1, mem2, role2, mem, role, d, v, page, mem1[pa]);
      CopiedMore(mem0, role0, lo, mem1, role1, mem, role, pd, d, v, page);
      return CopiedOne;
    }

    /** A copy of an address space of `sz` bytes for a child. None: no memory, and nothing has changed,
        or one of the panics for a page that is not there. */
    method Copyuvm(pd: nat, sz: nat) returns (r: Option<nat>, panics: bool)
      requires Valid() && pd < NFRAMES && role[pd] == Dir && sz <= KERNBASE
      modifies this
      ensures Valid() && (panics ==> r.None?)
      ensures r.Some? ==>
        Copied(old(mem), old(role), mem, role, pd, r.value, PageUp(sz)) && AllThere(old(mem), pd, PageUp(sz))
      ensures panics ==>
        exists v :: 0 <= v < PageUp(sz) <= USER && AllThere(old(mem), pd, v) && !Present(Leaf(old(mem), pd, v))
      ensures r.None? && !panics ==>
        role == old(role) && LeavesBut(old(mem), old(role), mem, 0, 0, 0) && PagesKept(old(mem), old(role), mem, role)
    {
      hide Owned, FreeOk, Leaf, LeavesBut, PagesKept, Entry, PageUp, Bytes, PageOf, Copied, Gone, KernelEntry;
      OwnedSizes(mem, role, lo);
      ghost var mem0, role0, end := mem, role, PageUp(sz);
      panics := false;
      r := Setupkvm();
      if r.None? {
        return;
      }
      OwnedSizes(mem, role, lo);
      var d := r.value;
      CopiedNone(mem0, role0, mem, role, pd, d, dataPage);
      NobodysDir(mem0, role0, lo, d);
      FromZero(sz);
      var i := 0;
      ghost var v := 0;
      while i < sz
        invariant i == Bytes(v) && 0 <= v <= end && Valid() && |mem| == |role| == NFRAMES
        invariant role[pd] == role[d] == Dir && d < NFRAMES && d != pd
        invariant Copied(mem0, role0, mem, role, pd, d, v) && AllThere(mem0, pd, v)
        decreases end - v
      {
        InPages(i, v, sz);
        CopiedParts(mem0, role0, mem, role, pd, d, v);
        ghost var role1 := role;
        var step := CopyNext(pd, d, i, v, mem0, role0);
        if step.NotThere? {
          return None, true;
        }
        if step.NoFrame? {
          ghost var mem1 := mem;
          Freevm(d);
          CopyUndone(mem0, role0, mem1, role1, mem, role, pd, d, v);
          return None, false;
        }
        i, v := i + PGSIZE, v + 1;
      }
      Pages(sz, sz, v);
      return Some(d), false;
    }
  }

  /** What freevm promises: the directory's frames are free; other directories are as they were. */
  ghost predicate Gone(mem: Memory, role: Roles, mem': Memory, role': Roles, pd: nat) {
    && |mem| == |role| == |mem'| == |role'| == NFRAMES
    && (forall f :: 0 <= f < NFRAMES ==> role'[f] == if f == pd || Of(role[f], pd) then Free else role[f])
    && LeavesBut(mem, role, mem', pd, 0, NPT * NPT) && PagesKept(mem, role, mem', role')
  }

  /** The dissolved directory with its first `i` tables free. */
  function Freeing(role: Roles, pd: nat, i: nat): (r: Roles)
    requires pd < |role|
    ensures |r| == |role|
  {
    seq(|role|, f requires 0 <= f < |role| =>
      if role[f].Table? && role[f].pd == pd && role[f].i < i then Free else Dissolved(role, pd)[f])
  }

  lemma {:induction false} WholeSpace()
    ensures PageUp(0) == 0 && PageUp(KERNBASE) == USER && 0 < KERNBASE
  {
  }

  lemma {:induction false} NoUsers(mem: Memory, role: Roles, lo: nat, mem1: Memory, role1: Roles, pd: nat)
    requires Owned(mem, role, lo) && Unmapped(mem, role, mem1, role1, pd, 0, USER) && role[pd] == Dir
    ensures role1[pd] == Dir && forall f :: 0 <= f < |role1| && role1[f].User? ==> role1[f].pd != pd
  {
  }

  lemma {:induction false} DissolveKept(mem: Memory, role: Roles, head: nat, free: seq<nat>, pd: nat)
    requires |mem| == |role| && FreeOk(mem, role, head, free) && pd < |role| && role[pd] == Dir
    ensures FreeOk(mem, Dissolved(role, pd), head, free)
  {
  }

  lemma {:induction false} FreeingStart(role: Roles, pd: nat)
    requires pd < |role|
    ensures Freeing(role, pd, 0) == Dissolved(role, pd)
  {
  }

  lemma {:induction false} FreeingNext(mem: Memory, role: Roles, lo: nat, pd: nat, i: nat)
    requires Owned(mem, role, lo) && pd < NFRAMES && role[pd] == Dir && i < NPT
    ensures Present(mem[pd][i]) ==>
      var t, r := Addr(mem[pd][i]), Freeing(role, pd, i);
      lo <= t < NFRAMES && t != pd && r[t] == Kernel && Freeing(role, pd, i + 1) == r[t := Free]
    ensures !Present(mem[pd][i]) ==> Freeing(role, pd, i + 1) == Freeing(role, pd, i)
    ensures DirsKept(Dissolved(role, pd), Freeing(role, pd, i))
  {
  }

  lemma {:induction false} FreeingEnd(role: Roles, mem: Memory, role1: Roles, mem1: Memory, lo: nat, pd: nat)
    requires Owned(mem, role, lo) && Owned(mem1, role1, lo) && pd < NFRAMES && role[pd] == Dir && role1[pd] == Dir
    requires Unmapped(mem, role, mem1, role1, pd, 0, USER)
    ensures lo <= pd && Freeing(role1, pd, NPT)[pd] == Kernel && DirsKept(Dissolved(role1, pd), Freeing(role1, pd, NPT))
    ensures forall f :: 0 <= f < NFRAMES ==>
      Freeing(role1, pd, NPT)[pd := Free][f] == if f == pd || Of(role[f], pd) then Free else role[f]
  {
  }

  lemma {:induction false} AllGone(mem: Memory, role: Roles, mem1: Memory, role1: Roles, mem2: Memory, role2: Roles,
        pd: nat)
    requires Unmapped(mem, role, mem1, role1, pd, 0, USER) && |mem2| == |role2| == NFRAMES
    requires LeavesBut(mem1, Dissolved(role1, pd), mem2, 0, 0, 0) && PagesKept(mem1, Dissolved(role1, pd), mem2, role2)
    requires forall f :: 0 <= f < NFRAMES ==> role2[f] == if f == pd || Of(role[f], pd) then Free else role[f]
    ensures Gone(mem, role, mem2, role2, pd)
  {
  }

  lemma {:induction false} Pages(newsz: nat, oldsz: nat, v: nat)
    requires newsz <= oldsz
    ensures PageUp(newsz) <= PageUp(oldsz) && (oldsz <= KERNBASE ==> PageUp(oldsz) <= USER)
    ensures oldsz >= Bytes(v) ==> PageUp(oldsz) >= v
    ensures oldsz <= Bytes(v) ==> PageUp(oldsz) <= v
  {
  }

  /** `PGADDR(PDX(va) + 1, 0, 0)`: the first page of the next directory entry. */
  function NextDir(v: nat): nat {
    (v / NPT + 1) * NPT
  }

  function PageOf(a: nat): nat {
    a / PGSIZE
  }

  function Bytes(v: nat): nat {
    v * PGSIZE
  }

  function Least(a: nat, b: nat): nat {
    if a < b then a else b
  }

  lemma {:induction false} LeastIs(a: nat, b: nat)
    ensures Least(a, b) == if a < b then a else b
  {
  }

  lemma {:induction false} DeallocSkip(mem: Memory, role: Roles, mem1: Memory, role1: Roles, lo: nat, pd: nat,
        from: nat, v: nat, to: nat)
    requires Unmapped(mem, role, mem1, role1, pd, from, Least(v, to)) && from <= v < to <= USER
    requires pd < NFRAMES == |role| && role[pd] == Dir
    requires Owned(mem1, role1, lo) && role1[pd] == Dir && !Present(mem1[pd][v / NPT])
    ensures Unmapped(mem, role, mem1, role1, pd, from, Least(NextDir(v), to))
  {
    hide Owned, Unmapped, Leaf;
    OwnedSizes(mem1, role1, lo);
    var w := Least(NextDir(v), to);
    NoTable(mem1, pd, v);
    UnmappedNone(mem1, role1, lo, pd, v, w);
    UnmappedTwice(mem, role, mem1, role1, mem1, role1, pd, from, v, w);
  }

  lemma {:induction false} DeallocOne(mem: Memory, role: Roles, mem1: Memory, role1: Roles, mem2: Memory,
        role2: Roles, pd: nat, from: nat, v: nat, to: nat)
    requires Unmapped(mem, role, mem1, role1, pd, from, Least(v, to)) && from <= v < to && pd < NFRAMES
    requires |role| == |role1| == NFRAMES
    requires role[pd] == Dir && role1[pd] == Dir && Unmapped(mem1, role1, mem2, role2, pd, v, v + 1)
    ensures |role2| == NFRAMES && role2[pd] == Dir && Unmapped(mem, role, mem2, role2, pd, from, Least(v + 1, to))
  {
  }

  lemma {:induction false} InPages(a: nat, v: nat, oldsz: nat)
    requires a == Bytes(v) && a < oldsz <= KERNBASE
    ensures PageOf(a) == v < PageUp(oldsz) <= USER && v < NextDir(v) <= USER
    ensures Bytes(v) + PGSIZE == Bytes(v + 1) && Bytes(NextDir(v)) - PGSIZE == Bytes(NextDir(v) - 1)
  {
  }

  lemma {:induction false} LeafOther(mem: Memory, role: Roles, mem1: Memory, pd: nat, from: nat, to: nat, v: nat)
    requires |mem| == |role| == |mem1| && pd < |role| && role[pd] == Dir && v < NPT * NPT && !(from <= v < to)
    requires LeavesBut(mem, role, mem1, pd, from, to)
    ensures Leaf(mem1, pd, v) == Leaf(mem, pd, v)
  {
  }

  lemma {:induction false} SameLeaves(mem: Memory, role: Roles)
    requires |mem| == |role|
    ensures LeavesBut(mem, role, mem, 0, 0, 0) && PagesKept(mem, role, mem, role)
  {
  }

  lemma {:induction false} IsTable(mem: Memory, role: Roles, lo: nat, pd: nat, i: nat)
    requires Owned(mem, role, lo) && pd < NFRAMES && role[pd] == Dir && i < NPT && Present(mem[pd][i])
    ensures Addr(mem[pd][i]) < NFRAMES && role[Addr(mem[pd][i])] == Table(pd, i)
  {
  }

  /** What happens to a frame that is not free does not concern the free list. */
  lemma {:induction false} LooseKept(mem: Memory, role: Roles, head: nat, free: seq<nat>, f: nat, page: Page)
    requires |mem| == |role| && FreeOk(mem, role, head, free) && f < |role| && role[f] != Free
    ensures FreeOk(mem[f := page], role, head, free)
  {
    hide FreeOk;
    FreeKept(mem, role, head, free, mem[f := page], role);
  }

  lemma {:induction false} LeavesLoose(mem: Memory, role: Roles, lo: nat, f: nat, page: Page)
    requires Owned(mem, role, lo) && f < NFRAMES && !role[f].Table? && role[f] != Dir
    ensures LeavesBut(mem, role, mem[f := page], 0, 0, 0)
  {
  }

  lemma {:induction false} LeavesTable(mem: Memory, role: Roles, lo: nat, pd: nat, i: nat, f: nat, w: Word)
    requires Owned(mem, role, lo) && f < NFRAMES && role[f] == Kernel && mem[f] == Zero()
    requires pd < NFRAMES && role[pd] == Dir && i < NPT && !Present(mem[pd][i]) && Present(w) && Addr(w) == f
    ensures LeavesBut(mem, role, mem[pd := mem[pd][i := w]], 0, 0, 0)
  {
  }

  lemma {:induction false} TableKept(mem: Memory, role: Roles, head: nat, free: seq<nat>, pd: nat, i: nat, f: nat,
        w: Word)
    requires |mem| == |role| && FreeOk(mem, role, head, free) && f < |role| && role[f] == Kernel && pd < |role|
    requires role[pd] == Dir && i < NPT
    ensures FreeOk(mem[pd := mem[pd][i := w]], role[f := Table(pd, i)], head, free)
  {
  }

  lemma {:induction false} LeavesSet(mem: Memory, role: Roles, lo: nat, pd: nat, u: nat, t: nat, w: Word)
    requires Owned(mem, role, lo) && pd < NFRAMES && role[pd] == Dir && u < NPT * NPT
    requires Present(mem[pd][u / NPT]) && Addr(mem[pd][u / NPT]) == t && t < NFRAMES
    ensures LeavesBut(mem, role, mem[t := mem[t][u % NPT := w]], pd, u, u + 1)
    ensures Leaf(mem[t := mem[t][u % NPT := w]], pd, u) == w
  {
  }

  lemma {:induction false} UserKept(mem: Memory, role: Roles, head: nat, free: seq<nat>, pd: nat, v: nat, t: nat,
        f: nat, w: Word)
    requires |mem| == |role| && FreeOk(mem, role, head, free) && f < |role| && role[f] == Kernel && t < |role|
    requires role[t].Table?
    ensures FreeOk(mem[t := mem[t][v % NPT := w]], role[f := User(pd, v)], head, free)
  {
    hide FreeOk;
    FreeKept(mem, role, head, free, mem[t := mem[t][v % NPT := w]], role[f := User(pd, v)]);
  }

  lemma {:induction false} MapPages(mem: Memory, role: Roles, mem1: Memory, role1: Roles, t: nat, j: nat, w: Word,
        role2: Roles)
    requires |mem| == |role| == |mem1| == |role1| == |role2| && t < |role| && j < NPT && role1[t].Table?
    requires role2[t] == role1[t]
    requires PagesKept(mem, role, mem1, role1)
    requires forall f :: 0 <= f < |role| && role2[f] != role1[f] ==> role1[f] == Kernel && role2[f].User?
    requires forall f :: 0 <= f < |role| && role[f] != Free ==> role1[f] == role[f]
    ensures PagesKept(mem, role, mem1[t := mem1[t][j := w]], role2)
  {
  }

  lemma {:induction false} WalkPages(mem: Memory, role: Roles, pd: nat, i: nat, f: nat, w: Word)
    requires |mem| == |role| && f < |role| && role[f] == Free && pd < |role| && role[pd] == Dir && i < NPT
    ensures PagesKept(mem, role, mem[f := Zero()][pd := mem[pd][i := w]], role[f := Table(pd, i)])
  {
  }

  lemma {:induction false} OwnedSizes(mem: Memory, role: Roles, lo: nat)
    requires Owned(mem, role, lo)
    ensures |mem| == |role| == NFRAMES && lo > 0
    ensures forall f :: 0 <= f < NFRAMES && role[f] != Kernel ==> lo <= f
  {
  }

  lemma {:induction false} NothingFree(mem: Memory, role: Roles, head: nat, free: seq<nat>, lo: nat)
    requires Owned(mem, role, lo) && FreeOk(mem, role, head, free)
    ensures head < NFRAMES && (head == 0 <==> free == [])
    ensures head == 0 ==> forall f :: 0 <= f < NFRAMES ==> role[f] != Free
  {
  }
}
