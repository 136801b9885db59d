/** Physical pages and page tables of project1 (vm.c, kalloc.c): who owns every page frame, and what
    one change of a page-table entry does to that. Addresses count pages of 4096 bytes. */
module VmSpace {

  const PGSIZE := 4096
  const NPT := 1024                 // entries in a page directory or a page table
  const USER := 0x80000             // KERNBASE / PGSIZE
  const USERDIR := 512              // directory entries below KERNBASE
  const NFRAMES := 0xE000           // PHYSTOP / PGSIZE

  type Word = x: nat | x < 0x1_0000_0000
  type Page = p: seq<Word> | |p| == 1024 witness seq(1024, _ => 0)
  type Memory = seq<Page>

  function Zero(): Page {
    seq(NPT, _ => 0)
  }

  /** The three parts of a page-table entry: PTE_P, PTE_ADDR, PTE_FLAGS. */
  predicate Present(w: Word) {
    w % 2 == 1
  }

  function Addr(w: Word): nat {
    w / PGSIZE
  }

  function Flags(w: Word): nat {
    w % PGSIZE
  }

  /** `pa | perm | PTE_P` */
  function Entry(frame: nat, perm: nat): Word
    requires frame < NPT * NPT && perm < PGSIZE
  {
    frame * PGSIZE + perm / 2 * 2 + 1
  }

  lemma {:induction false} EntryParts(frame: nat, perm: nat)
    requires frame < NPT * NPT && perm < PGSIZE
    ensures Present(Entry(frame, perm)) && Addr(Entry(frame, perm)) == frame
    ensures Flags(Entry(frame, perm)) == perm / 2 * 2 + 1
  {
    var q := perm / 2;
    assert Entry(frame, perm) == 2 * (frame * 2048 + q) + 1;
  }

  // ---------------------------------------------------------------- owners

  /** What a page frame is used for: on the free list; a page directory; table `i` of directory `pd`;
      page `v` of the process with directory `pd`; or something else of the kernel's. */
  datatype Role = Free | Kernel | Dir | Table(pd: nat, i: nat) | User(pd: nat, v: nat)

  type Roles = seq<Role>

  /** PTE_P, PTE_W and PTE_U: what walkpgdir gives every table, leaving it to the table's entries to
      restrict access. */
  const TABLEFLAGS := 7

  /** Every present directory entry is a table of that directory, open to all access, */
  ghost predicate DirsOk(mem: Memory, role: Roles)
    requires |mem| == |role|
  {
    forall pd, i :: 0 <= pd < |role| && role[pd] == Dir && 0 <= i < NPT && Present(mem[pd][i]) ==>
      Addr(mem[pd][i]) < |role| && role[Addr(mem[pd][i])] == Table(pd, i) && Flags(mem[pd][i]) == TABLEFLAGS
  }

  /** and every table has its directory entry. */
  ghost predicate TablesOk(mem: Memory, role: Roles)
    requires |mem| == |role|
  {
    forall t :: 0 <= t < |role| && role[t].Table? ==>
      && role[t].pd < |role| && role[role[t].pd] == Dir && role[t].i < NPT
      && Present(mem[role[t].pd][role[t].i]) && Addr(mem[role[t].pd][role[t].i]) == t
  }

  /** Every present entry of a table below KERNBASE is a page of the process, */
  ghost predicate LeavesOk(mem: Memory, role: Roles)
    requires |mem| == |role|
  {
    forall t, j :: 0 <= t < |role| && role[t].Table? && role[t].i < USERDIR && 0 <= j < NPT && Present(mem[t][j]) ==>
      Addr(mem[t][j]) < |role| && role[Addr(mem[t][j])] == User(role[t].pd, role[t].i * NPT + j)
  }

  /** and every page of a process has its table entry. */
  ghost predicate UsersOk(mem: Memory, role: Roles)
    requires |mem| == |role|
  {
    forall f :: 0 <= f < |role| && role[f].User? ==> UserAt(mem, role, role[f].pd, role[f].v, f)
  }

  ghost predicate UserAt(mem: Memory, role: Roles, pd: nat, v: nat, f: nat)
    requires |mem| == |role|
  {
    && pd < |role| && role[pd] == Dir && v < USER && Present(mem[pd][v / NPT]) && Addr(mem[pd][v / NPT]) < |mem|
    && Present(mem[Addr(mem[pd][v / NPT])][v % NPT]) && Addr(mem[Addr(mem[pd][v / NPT])][v % NPT]) == f
  }

  /** The frames the allocator manages begin at `lo`, after the kernel. */
  ghost predicate Owned(mem: Memory, role: Roles, lo: nat) {
    && |mem| == |role| == NFRAMES && lo > 0
    && (forall f :: 0 <= f < |role| && role[f] != Kernel ==> lo <= f)
    && DirsOk(mem, role) && TablesOk(mem, role) && LeavesOk(mem, role) && UsersOk(mem, role)
  }

  /** The entry for page `v` in directory `pd`, 0 without a table: what walkpgdir leads to. */
  function Leaf(mem: Memory, pd: nat, v: nat): Word
    requires pd < |mem| && v < NPT * NPT
  {
    var pde := mem[pd][v / NPT];
    if Present(pde) && Addr(pde) < |mem| then mem[Addr(pde)][v % NPT] else 0
  }

  // ---------------------------------------------------------------- steps

  /** A frame nobody maps can be given and taken, with any contents. */
  lemma {:induction false} LooseOk(mem: Memory, role: Roles, lo: nat, f: nat, page: Page, r: Role)
    requires Owned(mem, role, lo) && lo <= f < NFRAMES && role[f] in {Free, Kernel} && r in {Free, Kernel}
    ensures Owned(mem[f := page], role[f := r], lo)
  {
  }

  /** A new directory, without entries. */
  lemma {:induction false} NewDirOk(mem: Memory, role: Roles, lo: nat, f: nat)
    requires Owned(mem, role, lo) && lo <= f < NFRAMES && role[f] == Kernel && mem[f] == Zero()
    ensures Owned(mem, role[f := Dir], lo)
  {
  }

  /** walkpgdir with `alloc`: a zeroed page becomes table `i`. */
  lemma {:induction false} NewTableOk(mem: Memory, role: Roles, lo: nat, pd: nat, i: nat, f: nat, w: Word)
    requires Owned(mem, role, lo) && lo <= f < NFRAMES && role[f] == Kernel && mem[f] == Zero()
    requires pd < NFRAMES && role[pd] == Dir && i < NPT && !Present(mem[pd][i])
    requires Present(w) && Addr(w) == f && Flags(w) == TABLEFLAGS
    ensures Owned(mem[pd := mem[pd][i := w]], role[f := Table(pd, i)], lo)
  {
  }

  /** The table with the entry for page `v` is in frame `t`. */
  ghost predicate TableAt(mem: Memory, role: Roles, pd: nat, v: nat, t: nat) {
    && |mem| == |role| == NFRAMES && pd < NFRAMES && role[pd] == Dir && v < NPT * NPT
    && Present(mem[pd][v / NPT]) && Addr(mem[pd][v / NPT]) == t && t < NFRAMES
  }

  /** mappages below KERNBASE: a page of the kernel's becomes page `v` of the process. */
  lemma {:induction false} NewUserOk(mem: Memory, role: Roles, lo: nat, pd: nat, v: nat, t: nat, f: nat, w: Word)
    requires Owned(mem, role, lo) && TableAt(mem, role, pd, v, t) && v < USER
    requires lo <= f < NFRAMES && role[f] == Kernel && !Present(mem[t][v % NPT]) && Present(w) && Addr(w) == f
    ensures role[t] == Table(pd, v / NPT)
    ensures Owned(mem[t := mem[t][v % NPT := w]], role[f := User(pd, v)], lo)
  {
  }

  /** deallocuvm: the page goes back to the kernel. */
  lemma {:induction false} DropUserOk(mem: Memory, role: Roles, lo: nat, pd: nat, v: nat, t: nat, f: nat)
    requires Owned(mem, role, lo) && TableAt(mem, role, pd, v, t) && v < USER
    requires Present(mem[t][v % NPT]) && Addr(mem[t][v % NPT]) == f
    ensures role[t] == Table(pd, v / NPT) && f < NFRAMES && role[f] == User(pd, v)
    ensures Owned(mem[t := mem[t][v % NPT := 0]], role[f := Kernel], lo)
  {
    assert role[t] == Table(pd, v / NPT);
    assert role[f] == User(pd, v / NPT * NPT + v % NPT);
  }

  /** An entry of a table above KERNBASE owns nothing. */
  lemma {:induction false} KernelLeafOk(mem: Memory, role: Roles, lo: nat, t: nat, j: nat, w: Word)
    requires Owned(mem, role, lo) && t < NFRAMES && role[t].Table? && role[t].i >= USERDIR && j < NPT
    ensures Owned(mem[t := mem[t][j := w]], role, lo)
  {
  }

  predicate Of(r: Role, pd: nat) {
    (r.Table? || r.User?) && r.pd == pd
  }

  /** A directory without pages, and its tables, become the kernel's. */
  function Dissolved(role: Roles, pd: nat): (r: Roles)
    requires pd < |role|
    ensures |r| == |role|
    ensures forall f :: 0 <= f < |role| ==> r[f] == if f == pd || Of(role[f], pd) then Kernel else role[f]
  {
    seq(|role|, f requires 0 <= f < |role| => if f == pd || Of(role[f], pd) then Kernel else role[f])
  }

  lemma {:induction false} DissolveOk(mem: Memory, role: Roles, lo: nat, pd: nat)
    requires Owned(mem, role, lo) && pd < NFRAMES && role[pd] == Dir
    requires forall f :: 0 <= f < |role| && role[f].User? ==> role[f].pd != pd
    ensures Owned(mem, Dissolved(role, pd), lo)
  {
  }

  // ---------------------------------------------------------------- what a step leaves alone

  /** The entries of all directories stay, but those of `pd` for pages `from` to `to`. */
  ghost predicate LeavesBut(mem: Memory, role: Roles, mem': Memory, pd: nat, from: nat, to: nat)
    requires |mem| == |role| == |mem'|
  {
    forall p, v :: 0 <= p < |role| && role[p] == Dir && 0 <= v < NPT * NPT && !(p == pd && from <= v < to) ==>
      Leaf(mem', p, v) == Leaf(mem, p, v)
  }

  /** Pages that stay a process's, or the kernel's, keep their contents. */
  ghost predicate PagesKept(mem: Memory, role: Roles, mem': Memory, role': Roles)
    requires |mem| == |role| == |mem'| == |role'|
  {
    forall f :: 0 <= f < |role| && role'[f] == role[f] && (role[f].User? || role[f] == Kernel) ==> mem'[f] == mem[f]
  }

  /** Setting one entry of a table sets one page's entry. */
  lemma {:induction false} SetLeaf(mem: Memory, role: Roles, lo: nat, pd: nat, u: nat, t: nat, w: Word, p: nat, v: nat)
    requires Owned(mem, role, lo) && TableAt(mem, role, pd, u, t)
    requires p < NFRAMES && role[p] == Dir && v < NPT * NPT
    ensures Leaf(mem[t := mem[t][u % NPT := w]], p, v) == if p == pd && v == u then w else Leaf(mem, p, v)
  {
  }

  /** A present entry below KERNBASE is a page of the process. */
  lemma {:induction false} LeafIsUser(mem: Memory, role: Roles, lo: nat, pd: nat, v: nat)
    requires Owned(mem, role, lo) && pd < NFRAMES && role[pd] == Dir && v < USER && Present(Leaf(mem, pd, v))
    ensures Addr(Leaf(mem, pd, v)) < NFRAMES && role[Addr(Leaf(mem, pd, v))] == User(pd, v)
  {
  }

  /** A page of a process has a present entry. */
  lemma {:induction false} UserIsLeaf(mem: Memory, role: Roles, lo: nat, f: nat)
    requires Owned(mem, role, lo) && f < NFRAMES && role[f].User?
    ensures var pd, v := role[f].pd, role[f].v;
      pd < NFRAMES && role[pd] == Dir && v < USER && Present(Leaf(mem, pd, v)) && Addr(Leaf(mem, pd, v)) == f
  {
  }

  /** Every page frame has one use, and every mapping of a user page its own frame. */
  lemma {:induction false} OneOwner(mem: Memory, role: Roles, lo: nat, p: nat, v: nat, q: nat, u: nat)
    requires Owned(mem, role, lo) && p < NFRAMES && role[p] == Dir && q < NFRAMES && role[q] == Dir && v < USER
    requires u < USER
    requires Present(Leaf(mem, p, v)) && Present(Leaf(mem, q, u)) && Addr(Leaf(mem, p, v)) == Addr(Leaf(mem, q, u))
    ensures p == q && v == u
  {
  }

  // ---------------------------------------------------------------- the free list

  function NextFree(free: seq<nat>, k: nat): nat {
    if k + 1 < |free| then free[k + 1] else 0
  }

  /** Frames on the list are free, and link to the next through their first words. */
  ghost predicate Chained(mem: Memory, role: Roles, free: seq<nat>)
    requires |mem| == |role|
  {
    forall k :: 0 <= k < |free| ==> free[k] < |role| && role[free[k]] == Free && mem[free[k]][0] == NextFree(free, k)
  }

  ghost predicate Once(free: seq<nat>) {
    forall j, k :: 0 <= j < k < |free| ==> free[j] != free[k]
  }

  ghost predicate AllListed(role: Roles, free: seq<nat>) {
    forall f: nat :: f < |role| && role[f] == Free ==> f in free
  }

  /** kmem.freelist holds exactly the free frames, each once. */
  ghost predicate FreeOk(mem: Memory, role: Roles, head: nat, free: seq<nat>)
    requires |mem| == |role|
  {
    head == (if free == [] then 0 else free[0]) && Chained(mem, role, free) && Once(free) && AllListed(role, free)
  }

  lemma {:induction false} FreeKept(mem: Memory, role: Roles, head: nat, free: seq<nat>, mem': Memory, role': Roles)
    requires |mem| == |role| == |mem'| == |role'| && FreeOk(mem, role, head, free)
    requires forall f :: 0 <= f < |role| ==>
      (role'[f] == Free <==> role[f] == Free) && (role[f] == Free ==> mem'[f] == mem[f])
    ensures FreeOk(mem', role', head, free)
  {
  }

  lemma {:induction false} FreeFirst(mem: Memory, role: Roles, head: nat, free: seq<nat>)
    requires |mem| == |role| && FreeOk(mem, role, head, free) && free != []
    ensures head == free[0] < |role| && role[head] == Free
    ensures FreeOk(mem, role[head := Kernel], mem[head][0], free[1..])
  {
  }

  lemma {:induction false} FreeMore(mem: Memory, role: Roles, head: nat, free: seq<nat>, f: nat, page: Page)
    requires |mem| == |role| && FreeOk(mem, role, head, free) && 0 < f < |role| && role[f] != Free && page[0] == head
    ensures FreeOk(mem[f := page], role[f := Free], f, [f] + free)
  {
  }

  /** Pushing a frame that is free already makes its chain lead back to it. */
  lemma {:induction false} FreeTwice(mem: Memory, role: Roles, head: nat, free: seq<nat>, f: nat, page: Page,
        l: seq<nat>)
    requires |mem| == |role| && FreeOk(mem, role, head, free) && f < |role| && role[f] == Free && role[0] != Free
    requires page[0] == head
    ensures !FreeOk(mem[f := page], role, f, l)
  {
    var i: nat :| i < |free| && free[i] == f;
    if FreeOk(mem[f := page], role, f, l) {
      ChainFollows(mem, role, head, free, f, page, l, i, i);
      assert false;
    }
  }

  /** The links lead from `f` along the old list, as far as `f` itself at index `i`. */
  lemma {:induction false} ChainFollows(mem: Memory, role: Roles, head: nat, free: seq<nat>, f: nat, page: Page,
        l: seq<nat>, i: nat, k: nat)
    requires |mem| == |role| && FreeOk(mem, role, head, free) && f < |role| && role[f] == Free && role[0] != Free
    requires page[0] == head && k <= i < |free| && free[i] == f && FreeOk(mem[f := page], role, f, l)
    ensures k + 1 < |l| && l[k + 1] == free[k]
  {
    hide AllListed;
    if k == 0 {
      assert l[0] == f && mem[f := page][l[0]][0] == NextFree(l, 0);
    } else {
      ChainFollows(mem, role, head, free, f, page, l, i, k - 1);
      assert free[k - 1] != free[i] && mem[free[k - 1]][0] == NextFree(free, k - 1);
      assert mem[f := page][l[k]][0] == NextFree(l, k);
    }
  }
}
