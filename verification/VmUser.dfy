/** What a program sees of its address space: the processor's way from a virtual address through page
    directory and page table, with the access rights of both, over what allocuvm, copyuvm and
    setupkvm leave. */
module VmUser {
  import opened Wrappers
  import opened VmSpace
  import opened VmCode

  predicate WriteBit(w: Word) {
    w / 2 % 2 == 1
  }

  predicate UserBit(w: Word) {
    w / 4 % 2 == 1
  }

  /** An entry lets a program through, for reading or for writing. */
  predicate Lets(w: Word, write: bool) {
    Present(w) && UserBit(w) && (write ==> WriteBit(w))
  }

  /** The physical address a program gets at with address `va` when the directory is in frame `pd`: 10
      bits of the address choose the directory's entry, 10 the table's and 12 the byte. */
  function Translate(mem: Memory, pd: nat, va: nat, write: bool): Option<nat>
    requires pd < |mem| && va < 0x1_0000_0000
  {
    var pde := mem[pd][va / 0x40_0000];
    if !Lets(pde, write) || Addr(pde) >= |mem| then None
    else
      var pte := mem[Addr(pde)][va / 0x1000 % 0x400];
      if Lets(pte, write) then Some(Addr(pte) * 0x1000 + va % 0x1000) else None
  }

  lemma {:induction false} AllAccess(w: Word)
    requires Present(w) && Flags(w) == TABLEFLAGS
    ensures Lets(w, true) && Lets(w, false)
  {
    var q := w / PGSIZE;
    assert w == 2 * (2048 * q + 3) + 1 && w == 4 * (1024 * q + 1) + 3;
  }

  /** Access is what the table's entry says. */
  lemma {:induction false} AccessIsLeaf(mem: Memory, role: Roles, lo: nat, pd: nat, va: nat, write: bool)
    requires Owned(mem, role, lo) && pd < NFRAMES && role[pd] == Dir && va < 0x1_0000_0000
    ensures va / PGSIZE < NPT * NPT
    ensures var w := Leaf(mem, pd, va / PGSIZE);
      Translate(mem, pd, va, write) == if Lets(w, write) then Some(Addr(w) * PGSIZE + va % PGSIZE) else None
  {
    hide TablesOk, LeavesOk, UsersOk, Lets;
    var pde := mem[pd][va / 0x40_0000];
    VaParts(va);
    if Present(pde) {
      AllAccess(pde);
    }
    NotPresentNone(pde, write);
    NotPresentNone(0, write);
  }

  lemma {:induction false} VaParts(va: nat)
    requires va < 0x1_0000_0000
    ensures va / 0x40_0000 == va / PGSIZE / NPT && va / 0x1000 % 0x400 == va / PGSIZE % NPT && va / PGSIZE < NPT * NPT
  {
  }

  lemma {:induction false} NotPresentNone(w: Word, write: bool)
    ensures !Present(w) ==> !Lets(w, write)
  {
  }

  lemma {:induction false} UserEntry(frame: nat)
    requires frame < NPT * NPT
    ensures Lets(Entry(frame, PTE_W + PTE_U), true) && Addr(Entry(frame, PTE_W + PTE_U)) == frame
  {
    EntryParts(frame, PTE_W + PTE_U);
    AllAccess(Entry(frame, PTE_W + PTE_U));
  }

  /** After allocuvm a program can read and write every byte of the new pages, which are zeroed and in
      frames that were free. */
  lemma {:induction false} NewPagesUsable(mem: Memory, role: Roles, mem': Memory, role': Roles, lo: nat, pd: nat,
        from: nat, to: nat, va: nat, write: bool)
    requires Mapped(mem, role, mem', role', pd, from, to) && Owned(mem', role', lo) && role'[pd] == Dir
    requires va < 0x1_0000_0000 && from <= va / PGSIZE < to
    ensures var pa := Translate(mem', pd, va, write);
      && pa.Some? && pa.value % PGSIZE == va % PGSIZE && pa.value / PGSIZE < NFRAMES
      && role[pa.value / PGSIZE] == Free && role'[pa.value / PGSIZE] == User(pd, va / PGSIZE)
      && mem'[pa.value / PGSIZE] == Zero()
  {
    hide Owned, Leaf, LeavesBut, PagesKept, Translate, Lets, Entry;
    var v := va / PGSIZE;
    assert BlankPage(role, mem', role', pd, v);
    var f := Addr(Leaf(mem', pd, v));
    UserEntry(f);
    AccessIsLeaf(mem', role', lo, pd, va, write);
    LetsLess(Leaf(mem', pd, v), write);
    ByteParts(f, va % PGSIZE);
  }

  lemma {:induction false} LetsLess(w: Word, write: bool)
    requires Lets(w, true)
    ensures Lets(w, write)
  {
  }

  lemma {:induction false} ByteParts(f: nat, o: nat)
    requires o < PGSIZE
    ensures (f * PGSIZE + o) / PGSIZE == f && (f * PGSIZE + o) % PGSIZE == o
  {
  }

  lemma {:induction false} SameRights(w: Word, frame: nat, write: bool)
    requires frame < NPT * NPT && Present(w)
    ensures Lets(Entry(frame, Flags(w)), write) <==> Lets(w, write)
  {
    var q, fl := w / PGSIZE, w % PGSIZE;
    var e := Entry(frame, fl);
    assert w == q * PGSIZE + fl;
    FlagBits(q, fl);
    FlagBits(frame, fl / 2 * 2 + 1);
    OddFlags(fl);
  }

  lemma {:induction false} FlagBits(q: nat, fl: nat)
    ensures (q * PGSIZE + fl) / 2 % 2 == fl / 2 % 2 && (q * PGSIZE + fl) / 4 % 2 == fl / 4 % 2
  {
    Halved(q, fl);
    Quartered(q, fl);
    EvenMore(1024 * q, fl / 2);
    EvenMore(512 * q, fl / 4);
  }

  lemma {:induction false} Halved(q: nat, fl: nat)
    ensures (q * PGSIZE + fl) / 2 == 2048 * q + fl / 2
  {
  }

  lemma {:induction false} Quartered(q: nat, fl: nat)
    ensures (q * PGSIZE + fl) / 4 == 1024 * q + fl / 4
  {
  }

  lemma {:induction false} EvenMore(a: nat, b: nat)
    ensures (2 * a + b) % 2 == b % 2
  {
  }

  lemma {:induction false} OddFlags(fl: nat)
    ensures var g := fl / 2 * 2 + 1; g / 2 == fl / 2 && g / 4 == fl / 4
  {
  }

  /** After copyuvm the child can do with an address what the parent can, and finds the same bytes there,
      in frames of its own. */
  lemma {:induction false} CopySeesSame(mem: Memory, role: Roles, mem': Memory, role': Roles, lo: nat, pd: nat, d: nat,
        n: nat, va: nat, write: bool)
    requires Copied(mem, role, mem', role', pd, d, n) && AllThere(mem, pd, n)
    requires Owned(mem, role, lo) && Owned(mem', role', lo) && va < 0x1_0000_0000 && va / PGSIZE < n
    ensures var p, c := Translate(mem, pd, va, write), Translate(mem', d, va, write);
      && (c.Some? <==> p.Some?)
      && (p.Some? ==>
            && p.value / PGSIZE < NFRAMES && c.value / PGSIZE < NFRAMES
            && c.value % PGSIZE == p.value % PGSIZE && mem'[c.value / PGSIZE] == mem[p.value / PGSIZE]
            && role[c.value / PGSIZE] == Free && role'[c.value / PGSIZE] == User(d, va / PGSIZE))
  {
    hide Owned, Leaf, LeavesBut, PagesKept, Translate, Lets, Entry;
    var v := va / PGSIZE;
    assert PageCopied(mem, role, mem', role', pd, d, v);
    var w, f := Leaf(mem, pd, v), Addr(Leaf(mem', d, v));
    SameRights(w, f, write);
    AccessIsLeaf(mem, role, lo, pd, va, write);
    AccessIsLeaf(mem', role', lo, d, va, write);
    ByteParts(f, va % PGSIZE);
    ByteParts(Addr(w), va % PGSIZE);
  }

  // ---------------------------------------------------------------- the kernel's part

  /** What setupkvm maps: physical memory from KERNBASE on, one to one, writable but for the kernel's
      text; the devices at their own addresses; nothing else. */
  lemma {:induction false} KernelMap(data: nat, v: nat)
    requires 0x100 < data < NFRAMES && v < NPT * NPT
    ensures 0x8_0000 <= v < 0x8_E000 ==>
      var f := v - 0x8_0000; KernelEntry(data, KMAPS, v) == f * PGSIZE + if 0x100 <= f < data then 1 else 3
    ensures 0xF_E000 <= v ==> KernelEntry(data, KMAPS, v) == v * PGSIZE + 3
    ensures v < 0x8_0000 || 0x8_E000 <= v < 0xF_E000 ==> KernelEntry(data, KMAPS, v) == 0
  {
    OneMore(data, 0, v);
    OneMore(data, 1, v);
    OneMore(data, 2, v);
    OneMore(data, 3, v);
  }

  /** A program gets at none of it. */
  lemma {:induction false} KernelHidden(mem: Memory, role: Roles, lo: nat, pd: nat, data: nat, va: nat, write: bool)
    requires Owned(mem, role, lo) && pd < NFRAMES && role[pd] == Dir && 0x100 < data < NFRAMES && va < 0x1_0000_0000
    requires va / PGSIZE < NPT * NPT && Leaf(mem, pd, va / PGSIZE) == KernelEntry(data, KMAPS, va / PGSIZE)
    ensures Translate(mem, pd, va, write) == None
  {
    hide Owned, Leaf, Translate, KernelEntry, Lets;
    var v := va / PGSIZE;
    OwnedSizes(mem, role, lo);
    var w := Leaf(mem, pd, v);
    AccessIsLeaf(mem, role, lo, pd, va, write);
    KernelMap(data, v);
    assert !Lets(w, write) by {
      NoUserBit(v, w, write);
    }
  }

  lemma {:induction false} NoUserBit(f: nat, w: Word, write: bool)
    requires w == 0 || exists g: nat :: w == g * PGSIZE + 1 || w == g * PGSIZE + 3
    ensures !Lets(w, write)
  {
    if w != 0 {
      var g: nat :| w == g * PGSIZE + 1 || w == g * PGSIZE + 3;
      FlagBits(g, w - g * PGSIZE);
    }
  }
}
