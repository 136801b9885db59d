/** Directories and link counts of project1 (sysfile.c and fs.c): the invariant that ties every
    inode's nlink to the entries naming it, and what each operation does to it. */
module LinkTree {

  const ROOTINO := 1
  const DIRSIZ := 14

  const NUL := 0 as char

  /** What fits in the name field of an entry, up to its padding. */
  type DirName = s: string | |s| <= DIRSIZ && NUL !in s witness ""

  datatype Kind = Free | Dir | File | Dev

  /** An unused entry has inum 0. */
  datatype Dirent = Dirent(inum: nat, name: DirName)

  /** An inode as its number finds it: the fields iupdate keeps on disk, a directory's entries, and
      `ref` and `valid` of its cache entry (`ref` is 0 if it has none). */
  datatype Inode = Inode(kind: Kind, nlink: nat, entries: seq<Dirent>, ref: nat, valid: bool)

  type Table = seq<Inode>

  predicate Live(x: Inode) {
    x.kind == Dir && x.nlink > 0
  }

  // ---------------------------------------------------------------- counting entries

  function Points(e: Dirent, k: nat): nat {
    if e.inum == k && e.name != "." then 1 else 0
  }

  /** The entries other than "." that name inode `k`. */
  function Naming(es: seq<Dirent>, k: nat): nat {
    if es == [] then 0 else Naming(es[..|es| - 1], k) + Points(es[|es| - 1], k)
  }

  function Weight(x: Inode, k: nat): nat {
    if Live(x) then Naming(x.entries, k) else 0
  }

  /** The entries other than "." that name inode `k`, in all directories that are linked. */
  function Links(tab: Table, k: nat): nat {
    if tab == [] then 0 else Links(tab[..|tab| - 1], k) + Weight(tab[|tab| - 1], k)
  }

  lemma {:induction false} NamingUpdate(es: seq<Dirent>, j: nat, e: Dirent, k: nat)
    requires j < |es|
    ensures Naming(es[j := e], k) == Naming(es, k) - Points(es[j], k) + Points(e, k)
  {
    var n := |es| - 1;
    if j < n {
      assert es[j := e][..n] == es[..n][j := e];
      NamingUpdate(es[..n], j, e, k);
    } else {
      assert es[j := e][..n] == es[..n];
    }
  }

  lemma {:induction false} NamingAppend(es: seq<Dirent>, e: Dirent, k: nat)
    ensures Naming(es + [e], k) == Naming(es, k) + Points(e, k)
  {
  }

  lemma {:induction false} LinksUpdate(tab: Table, d: nat, x: Inode, k: nat)
    requires d < |tab|
    ensures Links(tab[d := x], k) == Links(tab, k) - Weight(tab[d], k) + Weight(x, k)
  {
    var n := |tab| - 1;
    if d < n {
      assert tab[d := x][..n] == tab[..n][d := x];
      LinksUpdate(tab[..n], d, x, k);
    } else {
      assert tab[d := x][..n] == tab[..n];
    }
  }

  lemma {:induction false} LinksNone(tab: Table, k: nat)
    requires forall d :: 0 <= d < |tab| ==> Weight(tab[d], k) == 0
    ensures Links(tab, k) == 0
  {
    if tab != [] {
      LinksNone(tab[..|tab| - 1], k);
    }
  }

  lemma {:induction false} NamingNone(es: seq<Dirent>, k: nat)
    requires forall j :: 0 <= j < |es| ==> Points(es[j], k) == 0
    ensures Naming(es, k) == 0
  {
    if es != [] {
      NamingNone(es[..|es| - 1], k);
    }
  }

  /** One directory's entries are at most all of them; two directories' as well. */
  lemma {:induction false} LinksAtLeast(tab: Table, a: nat, b: nat, k: nat)
    requires a < |tab| && b < |tab|
    ensures Links(tab, k) >= Weight(tab[a], k) + if a == b then 0 else Weight(tab[b], k)
  {
    var none := Inode(Free, 0, [], 0, false);
    LinksUpdate(tab, a, none, k);
    if a != b {
      LinksUpdate(tab[a := none], b, none, k);
    }
  }

  lemma {:induction false} NamingAtLeast(es: seq<Dirent>, i: nat, j: nat, k: nat)
    requires i < |es| && j < |es|
    ensures Naming(es, k) >= Points(es[i], k) + if i == j then 0 else Points(es[j], k)
  {
    var none := Dirent(k, ".");
    NamingUpdate(es, i, none, k);
    if i != j {
      NamingUpdate(es[i := none], j, none, k);
    }
  }

  // ---------------------------------------------------------------- the invariant

  /** Used entries have different names; the first two are "." and ".."; a directory that is no
      longer linked has no others. */
  ghost predicate DirOk(tab: Table, d: nat)
    requires d < |tab|
  {
    var es := tab[d].entries;
    && d > 0 && |es| >= 2 && es[0] == Dirent(d, ".") && es[1].name == ".." && 0 < es[1].inum < |tab|
    && (forall i, j :: 0 <= i < j < |es| && es[i].inum != 0 && es[j].inum != 0 ==> es[i].name != es[j].name)
    && (forall j :: 2 <= j < |es| && es[j].inum != 0 ==> tab[d].nlink > 0)
  }

  /** What an entry after the first two may name: an inode in use, and if it is a directory, one
      whose ".." comes back. */
  ghost predicate ChildOk(tab: Table, d: nat, j: nat)
    requires d < |tab| && j < |tab[d].entries|
  {
    var x := tab[d].entries[j].inum;
    && x < |tab| && tab[x].kind != Free && x != d
    && (tab[x].kind == Dir ==> x != ROOTINO && tab[x].nlink > 0 && |tab[x].entries| >= 2 && tab[x].entries[1].inum == d)
    && (tab[x].kind == Dir ==> forall i :: 2 <= i < |tab[d].entries| && tab[d].entries[i].inum == x ==> i == j)
  }

  /** A linked directory other than the root is an entry of its parent, which is linked. */
  ghost predicate ParentOk(tab: Table, d: nat)
    requires d < |tab| && |tab[d].entries| >= 2
  {
    var p := tab[d].entries[1].inum;
    && p < |tab| && Live(tab[p])
    && if d == ROOTINO then p == ROOTINO else exists j :: 2 <= j < |tab[p].entries| && tab[p].entries[j].inum == d
  }

  /** An inode is in use exactly as long as it is linked or referenced. */
  ghost predicate UseOk(x: Inode) {
    && (x.kind == Free ==> x.nlink == 0 && x.ref == 0 && x.entries == [])
    && (x.kind != Free && x.nlink == 0 ==> x.ref > 0 && x.valid)
    && (x.kind != Dir ==> x.entries == [])
  }

  ghost predicate Rooted(tab: Table) {
    |tab| > ROOTINO && Live(tab[ROOTINO]) && tab[0].kind == Free
  }

  ghost predicate Uses(tab: Table) {
    forall d :: 0 <= d < |tab| ==> UseOk(tab[d])
  }

  ghost predicate Dirs(tab: Table) {
    forall d :: 0 <= d < |tab| && tab[d].kind == Dir ==> DirOk(tab, d)
  }

  ghost predicate Children(tab: Table) {
    forall d, j :: 0 <= d < |tab| && 2 <= j < |tab[d].entries| && tab[d].entries[j].inum != 0 ==> ChildOk(tab, d, j)
  }

  ghost predicate Parents(tab: Table) {
    forall d :: 0 <= d < |tab| && Live(tab[d]) ==> |tab[d].entries| >= 2 && ParentOk(tab, d)
  }

  /** Every link count is the number of entries that name the inode. */
  ghost predicate Counted(tab: Table) {
    forall k :: 1 <= k < |tab| ==> tab[k].nlink == Links(tab, k)
  }

  ghost predicate Ok(tab: Table) {
    Rooted(tab) && Uses(tab) && Dirs(tab) && Children(tab) && Parents(tab) && Counted(tab)
  }

  // ---------------------------------------------------------------- what does not change

  /** As a node of the tree: the same kind, linked or not, with the same entries. */
  predicate SameNode(x: Inode, y: Inode) {
    x.kind == y.kind && (x.nlink > 0 <==> y.nlink > 0) && x.entries == y.entries
  }

  /** As the target of an entry: the same kind, and if a directory, with the same "..". */
  predicate SameBack(x: Inode, y: Inode) {
    && x.kind == y.kind
    && (y.kind == Dir ==> (x.nlink > 0 <==> y.nlink > 0) && (|y.entries| >= 2 ==>
          |x.entries| >= 2 && x.entries[1] == y.entries[1]))
  }

  lemma {:induction false} DirKept(tab: Table, tab': Table, d: nat)
    requires d < |tab| == |tab'| && SameNode(tab'[d], tab[d]) && tab[d].kind == Dir && Dirs(tab)
    ensures DirOk(tab', d)
  {
  }

  lemma {:induction false} ChildKept(tab: Table, tab': Table, d: nat, j: nat)
    requires d < |tab| == |tab'| && tab'[d].entries == tab[d].entries && Children(tab)
    requires 2 <= j < |tab[d].entries| && tab[d].entries[j].inum != 0
    requires var x := tab[d].entries[j].inum; x < |tab| && tab[x].kind != Free ==> SameBack(tab'[x], tab[x])
    ensures ChildOk(tab', d, j)
  {
  }

  /** Whatever happens to its parent, as long as it stays linked and keeps the entry. */
  lemma {:induction false} ParentKept(tab: Table, tab': Table, d: nat)
    requires d < |tab| == |tab'| && Live(tab[d]) && Parents(tab)
    requires 2 <= |tab[d].entries| && 2 <= |tab'[d].entries| && tab'[d].entries[1] == tab[d].entries[1]
    requires var p := tab[d].entries[1].inum; p < |tab| && Live(tab[p]) ==>
      Live(tab'[p]) && KeepsNames(tab[p].entries, tab'[p].entries, d)
    ensures ParentOk(tab', d)
  {
  }

  ghost predicate KeepsNames(es: seq<Dirent>, es': seq<Dirent>, d: nat) {
    forall j :: 2 <= j < |es| && es[j].inum == d ==> j < |es'| && es'[j] == es[j]
  }

  lemma {:induction false} TwoEntries(tab: Table, d: nat)
    requires Dirs(tab) && d < |tab| && tab[d].kind == Dir
    ensures |tab[d].entries| >= 2 && tab[d].entries[0] == Dirent(d, ".")
    ensures tab[d].entries[1].name == ".." && 0 < tab[d].entries[1].inum < |tab|
  {
  }

  lemma {:induction false} UseAt(tab: Table, d: nat)
    requires Uses(tab) && d < |tab|
    ensures UseOk(tab[d])
  {
  }

  // ---------------------------------------------------------------- references

  /** Taking and dropping references, as long as an unlinked inode keeps one. */
  lemma {:induction false} RefOk(tab: Table, i: nat, x: Inode)
    requires Ok(tab) && i < |tab| && SameNode(x, tab[i]) && x.nlink == tab[i].nlink && UseOk(x)
    ensures Ok(tab[i := x])
  {
    hide DirOk, ChildOk, ParentOk, UseOk;
    var tab' := tab[i := x];
    forall d, j | 0 <= d < |tab'| && 2 <= j < |tab'[d].entries| && tab'[d].entries[j].inum != 0
      ensures ChildOk(tab', d, j)
    {
      ChildKept(tab, tab', d, j);
    }
    forall d | 0 <= d < |tab'| && tab'[d].kind == Dir
      ensures DirOk(tab', d)
    {
      DirKept(tab, tab', d);
    }
    forall d | 0 <= d < |tab'| && Live(tab'[d])
      ensures |tab'[d].entries| >= 2 && ParentOk(tab', d)
    {
      TwoEntries(tab, d);
      ParentKept(tab, tab', d);
    }
    CountUpdate(tab, i, x);
  }

  lemma {:induction false} CountUpdate(tab: Table, i: nat, x: Inode)
    requires Counted(tab) && i < |tab| && SameNode(x, tab[i]) && x.nlink == tab[i].nlink
    ensures Counted(tab[i := x])
  {
    var tab' := tab[i := x];
    forall k | 1 <= k < |tab'|
      ensures tab'[k].nlink == Links(tab', k)
    {
      LinksUpdate(tab, i, x, k);
    }
  }

  /** A used entry of a linked directory, other than ".", counts. */
  lemma {:induction false} NamedCounts(tab: Table, d: nat, j: nat)
    requires Dirs(tab) && d < |tab| && Live(tab[d]) && 1 <= j < |tab[d].entries| && tab[d].entries[j].inum > 0
    ensures var e := tab[d].entries[j]; e.name != "." && Weight(tab[d], e.inum) >= 1 && Links(tab, e.inum) >= 1
  {
    var es := tab[d].entries;
    assert DirOk(tab, d);
    hide Dirs, Weight;
    assert es[j].name != ".";
    NamingAtLeast(es, j, j, es[j].inum);
    assert Weight(tab[d], es[j].inum) == Naming(es, es[j].inum) by {
      Weighs(tab[d], es[j].inum);
    }
    LinksAtLeast(tab, d, d, es[j].inum);
  }

  lemma {:induction false} Weighs(x: Inode, k: nat)
    ensures Weight(x, k) == if Live(x) then Naming(x.entries, k) else 0
  {
  }

  /** No directory has an entry after its first two for an inode that is not linked. */
  lemma {:induction false} Unnamed(tab: Table, i: nat)
    requires Ok(tab) && 1 <= i < |tab| && tab[i].nlink == 0
    ensures forall d, j :: 0 <= d < |tab| && 2 <= j < |tab[d].entries| ==> tab[d].entries[j].inum != i
    ensures forall d :: 0 <= d < |tab| && Live(tab[d]) ==> |tab[d].entries| >= 2 && tab[d].entries[1].inum != i
  {
    hide DirOk, ChildOk, ParentOk, Children, Parents;
    forall d, j | 0 <= d < |tab| && 1 <= j < |tab[d].entries| && (j >= 2 || Live(tab[d]))
      ensures tab[d].entries[j].inum != i
    {
      UseAt(tab, d);
      if tab[d].entries[j].inum == i {
        EntryLive(tab, d, j);
        NamedCounts(tab, d, j);
      }
    }
    forall d | 0 <= d < |tab| && Live(tab[d])
      ensures |tab[d].entries| >= 2
    {
      TwoEntries(tab, d);
    }
  }

  lemma {:induction false} EntryLive(tab: Table, d: nat, j: nat)
    requires Uses(tab) && Dirs(tab) && d < |tab| && 1 <= j < |tab[d].entries| && tab[d].entries[j].inum != 0
    ensures tab[d].kind == Dir && (j >= 2 ==> Live(tab[d]))
  {
  }

  function FreeInode(): Inode {
    Inode(Free, 0, [], 0, false)
  }

  /** Freeing an inode that is not linked. */
  lemma {:induction false} FreeOk(tab: Table, i: nat)
    requires Ok(tab) && 1 <= i < |tab| && tab[i].nlink == 0
    ensures Ok(tab[i := FreeInode()])
  {
    hide DirOk, ChildOk, ParentOk;
    Unnamed(tab, i);
    var tab' := tab[i := FreeInode()];
    assert Children(tab') by {
      hide Dirs, Parents, Counted;
      forall d, j | 0 <= d < |tab'| && 2 <= j < |tab'[d].entries| && tab'[d].entries[j].inum != 0
        ensures ChildOk(tab', d, j)
      {
        ChildKept(tab, tab', d, j);
      }
    }
    assert Dirs(tab') by {
      hide Children, Parents, Counted;
      forall d | 0 <= d < |tab'| && tab'[d].kind == Dir
        ensures DirOk(tab', d)
      {
        DirKept(tab, tab', d);
      }
    }
    assert Parents(tab') by {
      hide Children, Counted;
      forall d | 0 <= d < |tab'| && Live(tab'[d])
        ensures |tab'[d].entries| >= 2 && ParentOk(tab', d)
      {
        TwoEntries(tab, d);
        ParentKept(tab, tab', d);
      }
    }
    hide Children, Parents, Dirs;
    forall k | 1 <= k < |tab'|
      ensures tab'[k].nlink == Links(tab', k)
    {
      LinksUpdate(tab, i, FreeInode(), k);
    }
  }

  // ---------------------------------------------------------------- adding an entry

  /** Entry `e` in slot `p`, which is unused or just past the end. */
  function PutAt(es: seq<Dirent>, p: nat, e: Dirent): seq<Dirent>
    requires p <= |es|
  {
    if p < |es| then es[p := e] else es + [e]
  }

  lemma {:induction false} PutCounts(es: seq<Dirent>, p: nat, e: Dirent, k: nat)
    requires p <= |es| && k > 0 && (p < |es| ==> es[p].inum == 0)
    ensures Naming(PutAt(es, p, e), k) == Naming(es, k) + Points(e, k)
  {
    if p < |es| {
      NamingUpdate(es, p, e, k);
    } else {
      NamingAppend(es, e, k);
    }
  }

  ghost predicate HasName(es: seq<Dirent>, name: DirName) {
    exists j :: 0 <= j < |es| && es[j].inum != 0 && es[j].name == name
  }

  /** Where dirlink puts an entry for a name that is not there. */
  ghost predicate Vacant(es: seq<Dirent>, p: nat, name: DirName) {
    && 2 <= p <= |es| && (p < |es| ==> es[p].inum == 0)
    && !HasName(es, name)
  }

  /** link's change of directory `dp` and inode `ip`, or create's of a file or device: `x` is `ip`
      with one more link. */
  function WithEntry(tab: Table, dp: nat, p: nat, name: DirName, ip: nat, x: Inode): Table
    requires dp < |tab| && ip < |tab| && p <= |tab[dp].entries|
  {
    tab[ip := x][dp := tab[dp].(entries := PutAt(tab[dp].entries, p, Dirent(ip, name)))]
  }

  /** `x` is `ip`, a file or device or not in use, with one more link; the directory may have been
      removed. */
  ghost predicate Placing(tab: Table, dp: nat, p: nat, name: DirName, ip: nat, x: Inode) {
    && dp < |tab| && tab[dp].kind == Dir && Vacant(tab[dp].entries, p, name)
    && 1 <= ip < |tab| && tab[ip].kind != Dir && x.kind !in {Dir, Free}
    && (tab[ip].kind == Free || x.kind == tab[ip].kind)
    && x.entries == [] && x.nlink == tab[ip].nlink + 1
  }

  ghost predicate Adding(tab: Table, dp: nat, p: nat, name: DirName, ip: nat, x: Inode) {
    Placing(tab, dp, p, name, ip, x) && Live(tab[dp])
  }

  lemma {:induction false} EntryAddedChildren(tab: Table, dp: nat, p: nat, name: DirName, ip: nat, x: Inode)
    requires Children(tab) && Adding(tab, dp, p, name, ip, x)
    ensures Children(WithEntry(tab, dp, p, name, ip, x))
  {
    var tab' := WithEntry(tab, dp, p, name, ip, x);
    forall d, j | 0 <= d < |tab'| && 2 <= j < |tab'[d].entries| && tab'[d].entries[j].inum != 0
      ensures ChildOk(tab', d, j)
    {
      if d != dp {
        hide ChildOk;
        ChildKept(tab, tab', d, j);
      } else if j != p {
        assert ChildOk(tab, d, j);
      }
    }
  }

  lemma {:induction false} EntryAddedDirs(tab: Table, dp: nat, p: nat, name: DirName, ip: nat, x: Inode)
    requires Dirs(tab) && Adding(tab, dp, p, name, ip, x)
    ensures Dirs(WithEntry(tab, dp, p, name, ip, x))
  {
  }

  lemma {:induction false} EntryAddedParents(tab: Table, dp: nat, p: nat, name: DirName, ip: nat, x: Inode)
    requires Dirs(tab) && Parents(tab) && Adding(tab, dp, p, name, ip, x)
    ensures Parents(WithEntry(tab, dp, p, name, ip, x))
  {
    hide ParentOk, Dirs;
    var tab' := WithEntry(tab, dp, p, name, ip, x);
    forall d | 0 <= d < |tab'| && Live(tab'[d])
      ensures |tab'[d].entries| >= 2 && ParentOk(tab', d)
    {
      TwoEntries(tab, d);
      ZeroIsFree(tab, d);
      ParentKept(tab, tab', d);
    }
  }

  lemma {:induction false} ZeroIsFree(tab: Table, d: nat)
    requires Dirs(tab) && d < |tab| && tab[d].kind == Dir
    ensures d > 0
  {
  }

  lemma {:induction false} EntryAddedCount(tab: Table, dp: nat, p: nat, name: DirName, ip: nat, x: Inode)
    requires Counted(tab) && Adding(tab, dp, p, name, ip, x) && name != "."
    ensures Counted(WithEntry(tab, dp, p, name, ip, x))
  {
    hide Links, Naming, PutAt;
    var tab' := WithEntry(tab, dp, p, name, ip, x);
    forall k | 1 <= k < |tab'|
      ensures tab'[k].nlink == Links(tab', k)
    {
      LinksUpdate(tab, ip, x, k);
      LinksUpdate(tab[ip := x], dp, tab'[dp], k);
      PutCounts(tab[dp].entries, p, Dirent(ip, name), k);
    }
  }

  /** A name that is not there is not ".". */
  lemma {:induction false} NotDot(tab: Table, dp: nat, name: DirName)
    requires Dirs(tab) && dp < |tab| && tab[dp].kind == Dir && !HasName(tab[dp].entries, name)
    ensures name != "."
  {
  }

  /** link, and create of a file or device, keep the invariant. */
  lemma {:induction false} EntryAddedOk(tab: Table, dp: nat, p: nat, name: DirName, ip: nat, x: Inode)
    requires Ok(tab) && Adding(tab, dp, p, name, ip, x)
    ensures Ok(WithEntry(tab, dp, p, name, ip, x))
  {
    hide Dirs, Children, Parents, Counted, HasName;
    NotDot(tab, dp, name);
    EntryAddedChildren(tab, dp, p, name, ip, x);
    EntryAddedDirs(tab, dp, p, name, ip, x);
    EntryAddedParents(tab, dp, p, name, ip, x);
    EntryAddedCount(tab, dp, p, name, ip, x);
  }

  /** Exactly in a linked directory does a new entry for a file keep the counts right: one made in a
      directory that has been removed, and is still somebody's, is not counted. */
  lemma {:induction false} CountsNeedLinkedParent(tab: Table, dp: nat, p: nat, name: DirName, ip: nat, x: Inode)
    requires Ok(tab) && Placing(tab, dp, p, name, ip, x)
    ensures Counted(WithEntry(tab, dp, p, name, ip, x)) <==> Live(tab[dp])
  {
    hide Dirs, Children, Parents, Links, Naming, PutAt, HasName;
    NotDot(tab, dp, name);
    if Live(tab[dp]) {
      EntryAddedCount(tab, dp, p, name, ip, x);
    } else {
      var tab' := WithEntry(tab, dp, p, name, ip, x);
      LinksUpdate(tab, ip, x, ip);
      LinksUpdate(tab[ip := x], dp, tab'[dp], ip);
      assert tab'[ip].nlink != Links(tab', ip);
    }
  }

  /** The table of a new file system: the root, named by its own "..". */
  function Fresh(n: nat): Table
    requires n > ROOTINO
  {
    seq(n, _ => FreeInode())[ROOTINO := Inode(Dir, 1, [Dirent(ROOTINO, "."), Dirent(ROOTINO, "..")], 0, false)]
  }

  // ---------------------------------------------------------------- adding a directory

  function NewDir(ip: nat, dp: nat): Inode {
    Inode(Dir, 1, [Dirent(ip, "."), Dirent(dp, "..")], 1, true)
  }

  /** create's change for a directory: `ip` with its two entries, an entry for it in `dp`, and a
      link to `dp` for "..". */
  function WithDir(tab: Table, dp: nat, p: nat, name: DirName, ip: nat): Table
    requires dp < |tab| && ip < |tab| && p <= |tab[dp].entries|
  {
    tab[ip := NewDir(ip, dp)]
       [dp := tab[dp].(nlink := tab[dp].nlink + 1, entries := PutAt(tab[dp].entries, p, Dirent(ip, name)))]
  }

  ghost predicate PlacingDir(tab: Table, dp: nat, p: nat, name: DirName, ip: nat) {
    && dp < |tab| && tab[dp].kind == Dir && Vacant(tab[dp].entries, p, name)
    && 1 <= ip < |tab| && tab[ip].kind == Free && tab[ip].nlink == 0
  }

  ghost predicate AddingDir(tab: Table, dp: nat, p: nat, name: DirName, ip: nat) {
    PlacingDir(tab, dp, p, name, ip) && Live(tab[dp])
  }

  lemma {:induction false} NotChild(tab: Table, d: nat, ip: nat)
    requires Children(tab) && d < |tab| && 1 <= ip < |tab| && tab[ip].kind == Free
    ensures forall i :: 2 <= i < |tab[d].entries| ==> tab[d].entries[i].inum != ip
  {
  }

  lemma {:induction false} DirAddedChildren(tab: Table, dp: nat, p: nat, name: DirName, ip: nat)
    requires Rooted(tab) && Children(tab) && AddingDir(tab, dp, p, name, ip)
    ensures Children(WithDir(tab, dp, p, name, ip))
  {
    var tab' := WithDir(tab, dp, p, name, ip);
    forall d, j | 0 <= d < |tab'| && 2 <= j < |tab'[d].entries| && tab'[d].entries[j].inum != 0
      ensures ChildOk(tab', d, j)
    {
      if d != dp {
        hide ChildOk;
        ChildKept(tab, tab', d, j);
      } else if j != p {
        assert ChildOk(tab, d, j);
      } else {
        NotChild(tab, d, ip);
      }
    }
  }

  lemma {:induction false} DirAddedDirs(tab: Table, dp: nat, p: nat, name: DirName, ip: nat)
    requires Dirs(tab) && AddingDir(tab, dp, p, name, ip)
    ensures Dirs(WithDir(tab, dp, p, name, ip))
  {
  }

  lemma {:induction false} DirAddedParents(tab: Table, dp: nat, p: nat, name: DirName, ip: nat)
    requires Rooted(tab) && Dirs(tab) && Parents(tab) && AddingDir(tab, dp, p, name, ip)
    ensures Parents(WithDir(tab, dp, p, name, ip))
  {
    hide Dirs;
    var tab' := WithDir(tab, dp, p, name, ip);
    assert tab'[dp].entries[p].inum == ip;
    assert ParentOk(tab', ip);
    hide ParentOk;
    forall d | 0 <= d < |tab'| && Live(tab'[d])
      ensures |tab'[d].entries| >= 2 && ParentOk(tab', d)
    {
      if d != ip {
        TwoEntries(tab, d);
        ZeroIsFree(tab, d);
        ParentKept(tab, tab', d);
      }
    }
  }

  lemma {:induction false} TwoCount(ip: nat, dp: nat, k: nat)
    ensures Naming([Dirent(ip, "."), Dirent(dp, "..")], k) == if k == dp then 1 else 0
  {
    var es := [Dirent(ip, "."), Dirent(dp, "..")];
    assert es[..1] == [Dirent(ip, ".")] && es[..1][..0] == [];
    assert Naming(es[..1], k) == Naming(es[..1][..0], k) + Points(es[0], k);
  }

  lemma {:induction false} DirAddedCount(tab: Table, dp: nat, p: nat, name: DirName, ip: nat)
    requires Counted(tab) && AddingDir(tab, dp, p, name, ip) && name != "."
    ensures Counted(WithDir(tab, dp, p, name, ip))
  {
    hide Links, Naming, PutAt;
    var tab' := WithDir(tab, dp, p, name, ip);
    forall k | 1 <= k < |tab'|
      ensures tab'[k].nlink == Links(tab', k)
    {
      LinksUpdate(tab, ip, NewDir(ip, dp), k);
      LinksUpdate(tab[ip := NewDir(ip, dp)], dp, tab'[dp], k);
      TwoCount(ip, dp, k);
      PutCounts(tab[dp].entries, p, Dirent(ip, name), k);
    }
  }

  /** create of a directory keeps the invariant. */
  lemma {:induction false} DirAddedOk(tab: Table, dp: nat, p: nat, name: DirName, ip: nat)
    requires Ok(tab) && AddingDir(tab, dp, p, name, ip)
    ensures Ok(WithDir(tab, dp, p, name, ip))
  {
    hide Dirs, Children, Parents, Counted, HasName;
    NotDot(tab, dp, name);
    DirAddedChildren(tab, dp, p, name, ip);
    DirAddedDirs(tab, dp, p, name, ip);
    DirAddedParents(tab, dp, p, name, ip);
    DirAddedCount(tab, dp, p, name, ip);
  }

  /** A new directory as well keeps the counts right exactly in a linked one. A removed directory is
      linked again by the ".." of the new one, and then its own ".." names its old parent, which has
      no link for it. */
  lemma {:induction false} DirCountsNeedLinkedParent(tab: Table, dp: nat, p: nat, name: DirName, ip: nat)
    requires Ok(tab) && PlacingDir(tab, dp, p, name, ip)
    ensures Counted(WithDir(tab, dp, p, name, ip)) <==> Live(tab[dp])
  {
    hide Dirs, Children, Parents, Links, Naming, PutAt, HasName;
    NotDot(tab, dp, name);
    if Live(tab[dp]) {
      DirAddedCount(tab, dp, p, name, ip);
    } else {
      TwoEntries(tab, dp);
      var tab', es := WithDir(tab, dp, p, name, ip), tab[dp].entries;
      var q := es[1].inum;
      LinksUpdate(tab, ip, NewDir(ip, dp), q);
      LinksUpdate(tab[ip := NewDir(ip, dp)], dp, tab'[dp], q);
      TwoCount(ip, dp, q);
      PutCounts(es, p, Dirent(ip, name), q);
      NamingAtLeast(es, 1, 1, q);
      assert tab'[q].nlink < Links(tab', q);
    }
  }

  /** Directory 2 has been removed and somebody has it open; inode 3 is free. */
  function OneRemoved(): Table {
    [FreeInode(), Inode(Dir, 1, [Dirent(ROOTINO, "."), Dirent(ROOTINO, "..")], 0, false),
     Inode(Dir, 0, [Dirent(2, "."), Dirent(ROOTINO, "..")], 1, true), FreeInode()]
  }

  lemma {:induction false} OneRemovedOk()
    ensures Ok(OneRemoved())
  {
    OneRemovedCounted();
    hide Counted;
    var tab := OneRemoved();
    assert Dirs(tab) && Children(tab) by {
      hide Parents;
    }
    hide Dirs, Children;
  }

  lemma {:induction false} OneRemovedCounted()
    ensures Counted(OneRemoved())
  {
    var tab, none := OneRemoved(), FreeInode();
    var others := [none, none, tab[2], none];
    assert others[ROOTINO := tab[ROOTINO]] == tab;
    forall k | 1 <= k < |tab|
      ensures tab[k].nlink == Links(tab, k)
    {
      hide Naming, Links;
      TwoCount(ROOTINO, ROOTINO, k);
      LinksNone(others, k);
      LinksUpdate(others, ROOTINO, tab[ROOTINO], k);
    }
  }

  /** There a new file, or a new directory, is counted wrongly. */
  lemma {:induction false} RemovedParentMiscounts()
    ensures var tab, x := OneRemoved(), Inode(File, 1, [], 1, true);
      && Ok(tab) && Placing(tab, 2, 2, "f", 3, x) && PlacingDir(tab, 2, 2, "f", 3)
      && !Counted(WithEntry(tab, 2, 2, "f", 3, x)) && !Counted(WithDir(tab, 2, 2, "f", 3))
  {
    hide Ok, Counted;
    OneRemovedOk();
    CountsNeedLinkedParent(OneRemoved(), 2, 2, "f", 3, Inode(File, 1, [], 1, true));
    DirCountsNeedLinkedParent(OneRemoved(), 2, 2, "f", 3);
  }

  // ---------------------------------------------------------------- removing an entry

  /** The entry memset to zero by unlink. */
  function Cleared(es: seq<Dirent>, j: nat): seq<Dirent>
    requires j < |es|
  {
    es[j := Dirent(0, "")]
  }

  /** unlink's change of directory `dp`, with `links` fewer links, and inode `ip`. */
  function WithoutEntry(tab: Table, dp: nat, j: nat, links: nat, x: Inode): Table
    requires dp < |tab| && j < |tab[dp].entries| && tab[dp].entries[j].inum < |tab| && links <= tab[dp].nlink
  {
    tab[tab[dp].entries[j].inum := x]
       [dp := tab[dp].(nlink := tab[dp].nlink - links, entries := Cleared(tab[dp].entries, j))]
  }

  /** Entry `j` of `dp` is to go; it names `ip`, which `x` is with one link less. */
  ghost predicate Removing(tab: Table, dp: nat, j: nat, ip: nat, x: Inode) {
    && dp < |tab| && Live(tab[dp]) && 2 <= j < |tab[dp].entries| && tab[dp].entries[j].inum == ip
    && 1 <= ip < |tab| && ip != dp && x.kind == tab[ip].kind && x.entries == tab[ip].entries
    && x.nlink == tab[ip].nlink - 1 && UseOk(x)
  }

  lemma {:induction false} RemovedChildren(tab: Table, dp: nat, j: nat, ip: nat, x: Inode)
    requires Children(tab) && Removing(tab, dp, j, ip, x) && tab[ip].kind !in {Dir, Free}
    ensures Children(WithoutEntry(tab, dp, j, 0, x))
  {
    var tab' := WithoutEntry(tab, dp, j, 0, x);
    forall d, i | 0 <= d < |tab'| && 2 <= i < |tab'[d].entries| && tab'[d].entries[i].inum != 0
      ensures ChildOk(tab', d, i)
    {
      if d != dp {
        hide ChildOk;
        ChildKept(tab, tab', d, i);
      } else {
        assert ChildOk(tab, d, i);
      }
    }
  }

  lemma {:induction false} RemovedDirs(tab: Table, dp: nat, j: nat, ip: nat, x: Inode)
    requires Dirs(tab) && Removing(tab, dp, j, ip, x) && tab[ip].kind != Dir
    ensures Dirs(WithoutEntry(tab, dp, j, 0, x))
  {
  }

  lemma {:induction false} RemovedParents(tab: Table, dp: nat, j: nat, ip: nat, x: Inode)
    requires Dirs(tab) && Parents(tab) && Removing(tab, dp, j, ip, x) && tab[ip].kind != Dir
    ensures Parents(WithoutEntry(tab, dp, j, 0, x))
  {
    hide ParentOk, Dirs;
    var tab' := WithoutEntry(tab, dp, j, 0, x);
    forall d | 0 <= d < |tab'| && Live(tab'[d])
      ensures |tab'[d].entries| >= 2 && ParentOk(tab', d)
    {
      TwoEntries(tab, d);
      ParentKept(tab, tab', d);
    }
  }

  lemma {:induction false} RemovedCount(tab: Table, dp: nat, j: nat, ip: nat, x: Inode)
    requires Counted(tab) && Removing(tab, dp, j, ip, x) && tab[ip].kind != Dir && tab[dp].entries[j].name != "."
    ensures Counted(WithoutEntry(tab, dp, j, 0, x))
  {
    hide Links, Naming;
    var tab' := WithoutEntry(tab, dp, j, 0, x);
    forall k | 1 <= k < |tab'|
      ensures tab'[k].nlink == Links(tab', k)
    {
      LinksUpdate(tab, ip, x, k);
      LinksUpdate(tab[ip := x], dp, tab'[dp], k);
      NamingUpdate(tab[dp].entries, j, Dirent(0, ""), k);
    }
  }

  /** unlink of a file or device keeps the invariant. */
  lemma {:induction false} RemovedOk(tab: Table, dp: nat, j: nat, ip: nat, x: Inode)
    requires Ok(tab) && Removing(tab, dp, j, ip, x) && tab[ip].kind !in {Dir, Free}
    ensures Ok(WithoutEntry(tab, dp, j, 0, x))
  {
    hide Dirs, Children, Parents, Counted, UseOk;
    NamedCounts(tab, dp, j);
    RemovedChildren(tab, dp, j, ip, x);
    RemovedDirs(tab, dp, j, ip, x);
    RemovedParents(tab, dp, j, ip, x);
    RemovedCount(tab, dp, j, ip, x);
    RemovedUses(tab, dp, j, ip, x);
  }

  lemma {:induction false} RemovedUses(tab: Table, dp: nat, j: nat, ip: nat, x: Inode)
    requires Uses(tab) && Removing(tab, dp, j, ip, x)
    ensures Uses(WithoutEntry(tab, dp, j, 0, x))
    ensures tab[dp].nlink >= 2 ==> Uses(WithoutEntry(tab, dp, j, 1, x))
  {
  }

  // ---------------------------------------------------------------- removing a directory

  /** isdirempty */
  ghost predicate Empty(x: Inode) {
    forall j :: 2 <= j < |x.entries| ==> x.entries[j].inum == 0
  }

  lemma {:induction false} EmptyCount(tab: Table, d: nat, k: nat)
    requires Dirs(tab) && d < |tab| && tab[d].kind == Dir && Empty(tab[d]) && k > 0
    ensures Naming(tab[d].entries, k) == if tab[d].entries[1].inum == k then 1 else 0
  {
    TwoEntries(tab, d);
    hide Dirs;
    EmptyTail(tab[d].entries, |tab[d].entries|, k);
    assert tab[d].entries[..|tab[d].entries|] == tab[d].entries;
  }

  lemma {:induction false} EmptyTail(es: seq<Dirent>, n: nat, k: nat)
    requires 2 <= n <= |es| && es[0].name == "." && es[1].name == ".." && k > 0
    requires forall j :: 2 <= j < n ==> es[j].inum == 0
    ensures Naming(es[..n], k) == if es[1].inum == k then 1 else 0
  {
    assert es[..n][..n - 1] == es[..n - 1];
    if n == 2 {
      assert es[..1][..0] == [];
      assert Naming(es[..1], k) == Naming(es[..1][..0], k) + Points(es[0], k);
    } else {
      EmptyTail(es, n - 1, k);
    }
  }

  /** An empty directory with an entry in `dp` is nobody's "..", and has that one entry. */
  lemma {:induction false} OnlyEntry(tab: Table, dp: nat, j: nat, ip: nat)
    requires Ok(tab) && dp < |tab| && 2 <= j < |tab[dp].entries| && tab[dp].entries[j].inum == ip
    requires 1 <= ip < |tab| && tab[ip].kind == Dir && Empty(tab[ip])
    ensures ChildOk(tab, dp, j) && ip != ROOTINO && tab[ip].entries[1].inum == dp
    ensures forall d :: 0 <= d < |tab| && Live(tab[d]) ==> |tab[d].entries| >= 2 && tab[d].entries[1].inum != ip
    ensures forall d, i :: 0 <= d < |tab| && 2 <= i < |tab[d].entries| && tab[d].entries[i].inum == ip ==>
      d == dp && i == j
  {
    assert ChildOk(tab, dp, j);
    hide Counted, Dirs;
    forall d | 0 <= d < |tab| && Live(tab[d])
      ensures |tab[d].entries| >= 2 && tab[d].entries[1].inum != ip
    {
      TwoEntries(tab, d);
      ZeroIsFree(tab, d);
      assert ParentOk(tab, d);
    }
    forall d, i | 0 <= d < |tab| && 2 <= i < |tab[d].entries| && tab[d].entries[i].inum == ip
      ensures d == dp && i == j
    {
      assert ChildOk(tab, d, i);
    }
  }

  ghost predicate RemovingDir(tab: Table, dp: nat, j: nat, ip: nat, x: Inode) {
    Removing(tab, dp, j, ip, x) && tab[ip].kind == Dir && Empty(tab[ip])
  }

  /** Its one link is its entry in `dp`, which has another beside its "..". */
  lemma {:induction false} DirLinks(tab: Table, dp: nat, j: nat, ip: nat)
    requires Ok(tab) && dp < |tab| && Live(tab[dp]) && 2 <= j < |tab[dp].entries| && tab[dp].entries[j].inum == ip
    requires 1 <= ip < |tab| && tab[ip].kind == Dir && Empty(tab[ip])
    ensures tab[ip].nlink == 1 && tab[dp].nlink >= 2
  {
    OnlyEntry(tab, dp, j, ip);
    assert ChildOk(tab, dp, j);
    TwoEntries(tab, dp);
    ZeroIsFree(tab, dp);
    assert ParentOk(tab, dp);
    hide ChildOk, Children, Parents;
    SingleLink(tab, dp, j, ip);
    var g := tab[dp].entries[1].inum;
    NamedCounts(tab, ip, 1);
    if dp == ROOTINO {
      NamedCounts(tab, dp, 1);
      LinksAtLeast(tab, ip, dp, dp);
    } else {
      var i :| 2 <= i < |tab[g].entries| && tab[g].entries[i].inum == dp;
      NamedCounts(tab, g, i);
      LinksAtLeast(tab, ip, g, dp);
    }
  }

  lemma {:induction false} SingleLink(tab: Table, dp: nat, j: nat, ip: nat)
    requires Dirs(tab) && dp < |tab| && Live(tab[dp]) && 2 <= j < |tab[dp].entries|
    requires tab[dp].entries[j].inum == ip > 0 && ip != dp
    requires forall d :: 0 <= d < |tab| && Live(tab[d]) ==> |tab[d].entries| >= 2 && tab[d].entries[1].inum != ip
    requires forall d, i :: 0 <= d < |tab| && 2 <= i < |tab[d].entries| && tab[d].entries[i].inum == ip ==>
      d == dp && i == j
    ensures Links(tab, ip) == 1
  {
    NamedCounts(tab, dp, j);
    var none := Inode(Free, 0, [], 0, false);
    var rest := tab[dp := none];
    forall d | 0 <= d < |rest|
      ensures Weight(rest[d], ip) == 0
    {
      if d != dp && Live(tab[d]) {
        NotNamed(tab, d, ip);
      }
    }
    LinksNone(rest, ip);
    LinksUpdate(tab, dp, none, ip);
    var es := tab[dp].entries;
    var es' := es[j := Dirent(0, "")];
    TwoEntries(tab, dp);
    forall i | 0 <= i < |es'|
      ensures Points(es'[i], ip) == 0
    {
      assert i >= 2 && i != j ==> es[i].inum != ip;
    }
    NamingNone(es', ip);
    NamingUpdate(es, j, Dirent(0, ""), ip);
  }

  lemma {:induction false} NotNamed(tab: Table, d: nat, k: nat)
    requires Dirs(tab) && d < |tab| && tab[d].kind == Dir && |tab[d].entries| >= 2 && tab[d].entries[1].inum != k
    requires forall i :: 2 <= i < |tab[d].entries| ==> tab[d].entries[i].inum != k
    ensures Weight(tab[d], k) == 0
  {
    TwoEntries(tab, d);
    NamingNone(tab[d].entries, k);
  }

  lemma {:induction false} DirRemovedChildren(tab: Table, dp: nat, j: nat, ip: nat, x: Inode)
    requires Children(tab) && RemovingDir(tab, dp, j, ip, x) && tab[dp].nlink >= 2 && x.nlink == 0
    requires forall d, i :: 0 <= d < |tab| && 2 <= i < |tab[d].entries| && tab[d].entries[i].inum == ip ==>
      d == dp && i == j
    ensures Children(WithoutEntry(tab, dp, j, 1, x))
  {
  }

  lemma {:induction false} DirRemovedDirs(tab: Table, dp: nat, j: nat, ip: nat, x: Inode)
    requires Dirs(tab) && RemovingDir(tab, dp, j, ip, x) && tab[dp].nlink >= 2
    ensures Dirs(WithoutEntry(tab, dp, j, 1, x))
  {
  }

  lemma {:induction false} DirRemovedParents(tab: Table, dp: nat, j: nat, ip: nat, x: Inode)
    requires Dirs(tab) && Parents(tab) && RemovingDir(tab, dp, j, ip, x) && tab[dp].nlink >= 2 && x.nlink == 0
    requires forall d :: 0 <= d < |tab| && Live(tab[d]) ==> |tab[d].entries| >= 2 && tab[d].entries[1].inum != ip
    ensures Parents(WithoutEntry(tab, dp, j, 1, x))
  {
    hide ParentOk, Dirs;
    var tab' := WithoutEntry(tab, dp, j, 1, x);
    forall d | 0 <= d < |tab'| && Live(tab'[d])
      ensures |tab'[d].entries| >= 2 && ParentOk(tab', d)
    {
      ParentKept(tab, tab', d);
    }
  }

  lemma {:induction false} DirRemovedCount(tab: Table, dp: nat, j: nat, ip: nat, x: Inode)
    requires Dirs(tab) && Counted(tab) && RemovingDir(tab, dp, j, ip, x) && tab[dp].nlink >= 2 && tab[ip].nlink == 1
    requires tab[dp].entries[j].name != "." && |tab[ip].entries| >= 2 && tab[ip].entries[1].inum == dp
    ensures Counted(WithoutEntry(tab, dp, j, 1, x))
  {
    hide Links, Naming, Dirs;
    var tab' := WithoutEntry(tab, dp, j, 1, x);
    forall k | 1 <= k < |tab'|
      ensures tab'[k].nlink == Links(tab', k)
    {
      LinksUpdate(tab, ip, x, k);
      LinksUpdate(tab[ip := x], dp, tab'[dp], k);
      EmptyCount(tab, ip, k);
      NamingUpdate(tab[dp].entries, j, Dirent(0, ""), k);
    }
  }

  /** unlink of an empty directory keeps the invariant; the directory is no longer linked. */
  lemma {:induction false} DirRemovedOk(tab: Table, dp: nat, j: nat, ip: nat, x: Inode)
    requires Ok(tab) && RemovingDir(tab, dp, j, ip, x)
    ensures tab[dp].nlink >= 2 && x.nlink == 0 && Ok(WithoutEntry(tab, dp, j, 1, x))
  {
    hide Dirs, Children, Parents, Counted, UseOk, Empty;
    NamedCounts(tab, dp, j);
    DirLinks(tab, dp, j, ip);
    OnlyEntry(tab, dp, j, ip);
    TwoEntries(tab, ip);
    DirRemovedChildren(tab, dp, j, ip, x);
    DirRemovedDirs(tab, dp, j, ip, x);
    DirRemovedParents(tab, dp, j, ip, x);
    DirRemovedCount(tab, dp, j, ip, x);
    RemovedUses(tab, dp, j, ip, x);
  }

  lemma {:induction false} FreshOk(n: nat)
    requires n > ROOTINO
    ensures Ok(Fresh(n))
  {
    var tab, none := Fresh(n), seq(n, _ => FreeInode());
    forall k | 1 <= k < |tab|
      ensures tab[k].nlink == Links(tab, k)
    {
      LinksNone(none, k);
      LinksUpdate(none, ROOTINO, tab[ROOTINO], k);
      TwoCount(ROOTINO, ROOTINO, k);
    }
  }
}
