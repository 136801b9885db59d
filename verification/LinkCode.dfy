/** iget, iput, dirlookup and dirlink of project1/fs.c, and link, unlink and create of
    project1/sysfile.c, one system call at a time. The inode a path leads to is a parameter. */
module LinkCode {
  import opened Wrappers
  import opened LinkTree

  const MAXENTRIES := (12 + 128) * 512 / 16  // MAXFILE * BSIZE / sizeof(struct dirent)

  const PERBLOCK := 512 / 16  // entries in a block
  const NDIRECT := 12

  /** The end of a system call: it can also be a panic. */
  datatype Outcome = Done | Failed | Panic

  // ---------------------------------------------------------------- names

  /** The part of a name that directories keep. */
  function Trunc(s: string): (r: DirName)
    requires NUL !in s
    ensures r <= s && (r == s || |r| == 14)
  {
    if |s| <= DIRSIZ then s else s[..DIRSIZ]
  }

  /** A string in memory ends with a zero byte. */
  function CharAt(s: string, i: nat): char {
    if i < |s| then s[i] else NUL
  }

  /** namecmp, that is strncmp(s, t, DIRSIZ), is zero exactly for names that directories keep alike. */
  method Namecmp(s: string, t: string) returns (same: bool)
    requires NUL !in s && NUL !in t
    ensures same <==> Trunc(s) == Trunc(t)
  {
    var i := 0;
    while i < DIRSIZ && CharAt(s, i) != NUL && CharAt(s, i) == CharAt(t, i)
      invariant i <= DIRSIZ && i <= |s| && i <= |t| && s[..i] == t[..i]
      decreases DIRSIZ - i
    {
      i := i + 1;
    }
    if i == DIRSIZ {
      return true;
    }
    same := CharAt(s, i) == CharAt(t, i);
    if same {
      assert i == |s| == |t|;
    } else {
      assert CharAt(Trunc(s), i) == CharAt(s, i) && CharAt(Trunc(t), i) == CharAt(t, i);
    }
  }

  // ---------------------------------------------------------------- the inode cache

  /** iget: a recycled cache entry has not been read. */
  function Got(x: Inode): Inode {
    x.(ref := x.ref + 1, valid := x.ref > 0 && x.valid)
  }

  /** ilock */
  function Locked(x: Inode): Inode {
    x.(valid := true)
  }

  /** No link is left, and one reference. */
  predicate LastGone(x: Inode) {
    x.valid && x.nlink == 0 && x.ref == 1
  }

  /** iput: the last reference to an inode that is not linked frees it. */
  function PutBack(x: Inode): Inode
    requires x.ref > 0
  {
    if LastGone(x) then FreeInode() else x.(ref := x.ref - 1)
  }

  /** Linked, or in somebody's hands. */
  predicate InHand(x: Inode) {
    x.nlink > 0 || x.ref > 0
  }

  /** One reference can go without freeing it. */
  predicate Spare(x: Inode) {
    x.ref > 0 && (x.nlink > 0 || x.ref > 1)
  }

  /** An inode that an entry or a path leads to: in use. */
  lemma {:induction false} GotOk(tab: Table, i: nat)
    requires Ok(tab) && i < |tab| && tab[i].kind != Free
    ensures Ok(tab[i := Got(tab[i])]) && Ok(tab[i := Locked(Got(tab[i]))])
  {
    UseAt(tab, i);
    hide Ok;
    RefOk(tab, i, Got(tab[i]));
    RefOk(tab, i, Locked(Got(tab[i])));
  }

  lemma {:induction false} PutOk(tab: Table, i: nat)
    requires Ok(tab) && i < |tab| && tab[i].kind != Free && tab[i].ref > 0
    ensures Ok(tab[i := PutBack(tab[i])])
    ensures PutBack(tab[i]) == FreeInode() <==> tab[i].nlink == 0 && tab[i].ref == 1
  {
    UseAt(tab, i);
    if tab[i].nlink == 0 && tab[i].ref == 1 {
      InRange(tab, i);
      hide Ok;
      FreeOk(tab, i);
    } else {
      hide Ok;
      RefOk(tab, i, PutBack(tab[i]));
    }
  }

  /** Putting back a reference that is not the last changes no count. */
  lemma {:induction false} PutCounted(tab: Table, i: nat)
    requires i < |tab| && Spare(tab[i])
    ensures Counted(tab[i := PutBack(tab[i])]) <==> Counted(tab)
  {
    hide Links;
    var tab' := tab[i := PutBack(tab[i])];
    forall k: nat
      ensures Links(tab', k) == Links(tab, k)
    {
      LinksUpdate(tab, i, tab'[i], k);
    }
    assert forall k :: 1 <= k < |tab| ==> tab'[k].nlink == tab[k].nlink;
  }

  lemma {:induction false} OkIsCounted(tab: Table)
    ensures Ok(tab) ==> Counted(tab)
  {
  }

  lemma {:induction false} InRange(tab: Table, i: nat)
    requires Ok(tab) && i < |tab| && tab[i].kind != Free
    ensures i >= 1
  {
  }

  // ---------------------------------------------------------------- directories

  /** The first unused entry, or the end. */
  function FreeSlot(es: seq<Dirent>): (p: nat)
    ensures p <= |es| && (p < |es| ==> es[p].inum == 0) && forall i :: 0 <= i < p ==> es[i].inum != 0
  {
    if es == [] || es[0].inum == 0 then 0 else FreeSlot(es[1..]) + 1
  }

  lemma {:induction false} FreeSlotIs(es: seq<Dirent>, p: nat)
    requires p <= |es| && (p < |es| ==> es[p].inum == 0) && forall i :: 0 <= i < p ==> es[i].inum != 0
    ensures p == FreeSlot(es)
  {
  }

  /** The blocks a directory grows by for an entry in slot `p`: one when the slot begins a block, and
      before the first block that is not direct the indirect block. */
  function NewBlocks(es: seq<Dirent>, p: nat): nat {
    if p < |es| || p % PERBLOCK != 0 then 0 else if p == NDIRECT * PERBLOCK then 2 else 1
  }

  /** The blocks a directory of `n` entries takes: those its 16 bytes each fill or begin, and an indirect
      block from the 13th on. */
  function DirBlocks(n: nat): nat {
    var blocks := (16 * n + 511) / 512;
    blocks + if blocks > 12 then 1 else 0
  }

  /** One more entry takes as many blocks more, and an unused entry none. */
  lemma {:induction false} GrowsBy(es: seq<Dirent>, p: nat)
    requires p <= |es|
    ensures NewBlocks(es, p) == DirBlocks(if p < |es| then |es| else |es| + 1) - DirBlocks(|es|)
  {
    if p == |es| {
      BlocksOf(p / 32, p % 32);
      BlocksOf(p / 32, p % 32 + 1);
    }
  }

  lemma {:induction false} BlocksOf(q: nat, r: nat)
    requires r <= 32
    ensures (16 * (32 * q + r) + 511) / 512 == q + if r == 0 then 0 else 1
  {
    assert 16 * (32 * q + r) + 511 == 512 * q + (16 * r + 511);
  }

  /** dirlink panics: the directory is as large as can be, or needs more blocks than are free. */
  predicate NoPlace(es: seq<Dirent>, room: nat) {
    FreeSlot(es) >= MAXENTRIES || room < NewBlocks(es, FreeSlot(es))
  }

  /** What create needs: a new directory also takes a block for its own entries. */
  function BlocksFor(kind: Kind, es: seq<Dirent>): nat {
    NewBlocks(es, FreeSlot(es)) + if kind == Dir then 1 else 0
  }

  /** One of create's calls of dirlink panics. */
  predicate NoPlaceFor(kind: Kind, es: seq<Dirent>, room: nat) {
    FreeSlot(es) >= MAXENTRIES || room < BlocksFor(kind, es)
  }

  /** Every entry has the number of an inode. */
  predicate EntriesIn(tab: Table, d: nat) {
    d < |tab| && forall j :: 0 <= j < |tab[d].entries| ==> tab[d].entries[j].inum < |tab|
  }

  lemma {:induction false} EntryIn(tab: Table, d: nat, j: nat)
    requires Ok(tab) && d < |tab| && tab[d].kind == Dir && j < |tab[d].entries|
    ensures tab[d].entries[j].inum < |tab|
  {
    hide Uses, Counted, Parents;
    TwoEntries(tab, d);
    if j >= 2 && tab[d].entries[j].inum != 0 {
      assert ChildOk(tab, d, j);
    }
  }

  lemma {:induction false} AllEntriesIn(tab: Table, d: nat)
    requires Ok(tab) && d < |tab| && tab[d].kind == Dir
    ensures EntriesIn(tab, d)
  {
    hide Ok;
    forall j | 0 <= j < |tab[d].entries|
      ensures tab[d].entries[j].inum < |tab|
    {
      EntryIn(tab, d, j);
    }
  }

  /** What a linked directory names is in use and linked. */
  lemma {:induction false} LinkedTarget(tab: Table, d: nat, j: nat)
    requires Ok(tab) && d < |tab| && Live(tab[d]) && j < |tab[d].entries| && tab[d].entries[j].inum != 0
    ensures var x := tab[d].entries[j].inum; x < |tab| && tab[x].kind != Free && tab[x].nlink > 0
  {
    hide Dirs, Uses, Counted;
    TwoEntries(tab, d);
    if j == 1 {
      assert ParentOk(tab, d);
    } else if j >= 2 {
      assert ChildOk(tab, d, j);
      hide ChildOk, Children, Parents;
      NamedCounts(tab, d, j);
      CountAt(tab, tab[d].entries[j].inum);
    }
  }

  lemma {:induction false} CountAt(tab: Table, k: nat)
    requires Counted(tab) && 1 <= k < |tab|
    ensures tab[k].nlink == Links(tab, k)
  {
  }

  /** As before, but that the cache entry may have been read, or recycled if nobody had it. */
  predicate Kept(x: Inode, y: Inode) {
    y.kind == x.kind && y.nlink == x.nlink && y.entries == x.entries && y.ref == x.ref && (x.ref > 0 && x.valid ==>
      y.valid)
  }

  ghost predicate KeptBut(tab: Table, tab': Table, changed: set<nat>) {
    |tab'| == |tab| && forall i: nat :: i < |tab| && i !in changed ==> Kept(tab[i], tab'[i])
  }

  lemma {:induction false} KeptOk(tab: Table, tab': Table)
    requires Ok(tab) && KeptBut(tab, tab', {})
    ensures Ok(tab')
  {
    hide DirOk, ChildOk, ParentOk, Links;
    assert Dirs(tab') by {
      hide Children, Parents, Counted;
      forall d | 0 <= d < |tab'| && tab'[d].kind == Dir
        ensures DirOk(tab', d)
      {
        DirKept(tab, tab', d);
      }
    }
    assert Children(tab') by {
      hide Dirs, Parents, Counted;
      forall d, j | 0 <= d < |tab'| && 2 <= j < |tab'[d].entries| && tab'[d].entries[j].inum != 0
        ensures ChildOk(tab', d, j)
      {
        ChildKept(tab, tab', d, j);
      }
    }
    assert Parents(tab') by {
      hide Children, Counted;
      forall d | 0 <= d < |tab'| && Live(tab'[d])
        ensures |tab'[d].entries| >= 2 && ParentOk(tab', d)
      {
        TwoEntries(tab, d);
        ParentKept(tab, tab', d);
      }
    }
    hide Dirs, Children, Parents;
    forall k | 1 <= k < |tab'|
      ensures tab'[k].nlink == Links(tab', k)
    {
      LinksKept(tab, tab', k);
    }
  }

  lemma {:induction false} LinksKept(tab: Table, tab': Table, k: nat)
    requires KeptBut(tab, tab', {})
    ensures Links(tab', k) == Links(tab, k)
  {
    if tab != [] {
      var n := |tab| - 1;
      assert Kept(tab[n], tab'[n]);
      LinksKept(tab[..n], tab'[..n], k);
    }
  }

  /** In a linked directory dirlink's slot comes after "." and "..". */
  lemma {:induction false} SlotVacant(tab: Table, d: nat, name: DirName)
    requires Dirs(tab) && d < |tab| && tab[d].kind == Dir && !HasName(tab[d].entries, name)
    ensures Vacant(tab[d].entries, FreeSlot(tab[d].entries), name)
  {
  }

  class Inodes {
    var tab: Table
    var room: nat  // free disk blocks

    /** What mkfs makes, before it adds files. */
    constructor Mkfs(ninodes: nat, room: nat)
      requires ninodes > ROOTINO
      ensures Ok(tab) && tab == Fresh(ninodes) && |tab| == ninodes && this.room == room
    {
      tab, this.room := Fresh(ninodes), room;
      FreshOk(ninodes);
    }

    method Iget(i: nat)
      requires i < |tab|
      modifies this`tab
      ensures tab == old(tab)[i := Got(old(tab[i]))]
    {
      if tab[i].ref == 0 {
        tab := tab[i := tab[i].(valid := false)];
      }
      tab := tab[i := tab[i].(ref := tab[i].ref + 1)];
    }

    /** Fails with the panic "ilock: no type" for an inode not in use. */
    method Ilock(i: nat) returns (ok: bool)
      requires i < |tab| && tab[i].ref > 0
      modifies this`tab
      ensures ok <==> old(tab[i]).valid || old(tab[i]).kind != Free
      ensures ok ==> tab == old(tab)[i := Locked(old(tab[i]))]
    {
      if !tab[i].valid {
        tab := tab[i := tab[i].(valid := true)];
        return tab[i].kind != Free;
      }
      ok := true;
      assert tab == tab[i := Locked(tab[i])];
    }

    /** An inode is freed exactly when it has no links and its last reference goes. */
    method Iput(i: nat)
      requires i < |tab| && tab[i].ref > 0
      modifies this
      ensures tab == old(tab)[i := PutBack(old(tab[i]))]
      ensures room >= old(room) && (!LastGone(old(tab[i])) ==> room == old(room))
      ensures Ok(old(tab)) ==> Ok(tab) && (tab[i].kind == Free <==> old(tab[i]).nlink == 0 && old(tab[i]).ref == 1)
    {
      ghost var tab0 := tab;
      if tab[i].valid && tab[i].nlink == 0 && tab[i].ref == 1 {
        // itrunc, which gives back the inode's blocks, and type 0
        var blocks: int :| blocks >= 0;
        room := room + blocks;
        tab := tab[i := tab[i].(entries := [], kind := Free, valid := false)];
      }
      tab := tab[i := tab[i].(ref := tab[i].ref - 1)];
      assert tab == tab0[i := PutBack(tab0[i])];
      if Ok(tab0) {
        UseAt0(tab0, i);
        hide Ok;
        PutOk(tab0, i);
      }
    }

    /** dirlookup without its iget. */
    method Find(d: nat, name: string) returns (r: Option<nat>)
      requires d < |tab| && NUL !in name
      ensures r.None? <==> !HasName(tab[d].entries, Trunc(name))
      ensures r.Some? ==>
        r.value < |tab[d].entries| && tab[d].entries[r.value].inum != 0 && tab[d].entries[r.value].name == Trunc(name)
    {
      var off := 0;
      while off < |tab[d].entries|
        invariant off <= |tab[d].entries|
        invariant forall j :: 0 <= j < off && tab[d].entries[j].inum != 0 ==> tab[d].entries[j].name != Trunc(name)
      {
        var de := tab[d].entries[off];
        if de.inum != 0 {
          var same := Namecmp(name, de.name);
          if same {
            return Some(off);
          }
        }
        off := off + 1;
      }
      return None;
    }

    /** Panic is a directory as large as a file can be, or no free block for it to grow by. */
    method Dirlink(d: nat, name: string, inum: nat) returns (r: Outcome)
      requires EntriesIn(tab, d) && NUL !in name
      modifies this
      ensures r.Failed? <==> HasName(old(tab[d]).entries, Trunc(name))
      ensures r.Panic? <==> !HasName(old(tab[d]).entries, Trunc(name)) && NoPlace(old(tab[d]).entries, old(room))
      ensures r.Failed? ==> KeptBut(old(tab), tab, {}) && room == old(room)
      ensures r.Panic? ==> tab == old(tab)
      ensures r.Done? ==> room == old(room) - NewBlocks(old(tab[d]).entries, FreeSlot(old(tab[d]).entries))
      ensures r.Done? ==> tab == old(tab)[d := old(tab[d]).(entries :=
        PutAt(old(tab[d]).entries, FreeSlot(old(tab[d]).entries), Dirent(inum, Trunc(name))))]
    {
      hide HasName, FreeSlot, PutAt, NewBlocks;
      var j := Find(d, name);
      if j.Some? {
        var ip := tab[d].entries[j.value].inum;
        ghost var tab0 := tab;
        Iget(ip);
        Iput(ip);
        assert tab == tab0[ip := PutBack(Got(tab0[ip]))];
        return Failed;
      }
      var off := Unused(d);
      if off >= MAXENTRIES || room < NewBlocks(tab[d].entries, off) {
        return Panic;
      }
      room := room - NewBlocks(tab[d].entries, off);
      tab := tab[d := tab[d].(entries := PutAt(tab[d].entries, off, Dirent(inum, Trunc(name))))];
      return Done;
    }

    /** dirlink's search for an unused entry. */
    method Unused(d: nat) returns (off: nat)
      requires d < |tab|
      ensures off == FreeSlot(tab[d].entries)
    {
      off := 0;
      while off < |tab[d].entries| && tab[d].entries[off].inum != 0
        invariant off <= |tab[d].entries| && forall i :: 0 <= i < off ==> tab[d].entries[i].inum != 0
      {
        off := off + 1;
      }
      FreeSlotIs(tab[d].entries, off);
    }

    /** `ilock(dp)`, dirlink, `iunlockput(dp)`, for the directory of a path just looked up. */
    method EnterName(d: nat, name: string, inum: nat) returns (r: Outcome)
      requires EntriesIn(tab, d) && tab[d].kind == Dir && InHand(tab[d]) && NUL !in name
      modifies this
      ensures r.Failed? <==> HasName(old(tab[d]).entries, Trunc(name))
      ensures r.Panic? <==> !HasName(old(tab[d]).entries, Trunc(name)) && NoPlace(old(tab[d]).entries, old(room))
      ensures r.Failed? ==> KeptBut(old(tab), tab, {})
      ensures r.Done? ==> room == old(room) - NewBlocks(old(tab[d]).entries, FreeSlot(old(tab[d]).entries))
      ensures r.Done? ==> tab == old(tab)[d := Entered(old(tab[d]), name, inum)]
    {
      hide HasName, PutAt, FreeSlot, NoPlace, NewBlocks;
      ghost var tab0 := tab;
      Iget(d);
      var ok := Ilock(d);
      assert EntriesIn(tab, d);
      hide EntriesIn;
      r := Dirlink(d, name, inum);
      if r.Panic? {
        return;
      }
      Iput(d);
    }

    /** The inode an entry or a path leads to, locked. */
    method GetLocked(i: nat)
      requires Ok(tab) && i < |tab| && tab[i].kind != Free
      modifies this`tab
      ensures Ok(tab) && tab == old(tab)[i := Locked(Got(old(tab[i])))]
    {
      hide Ok;
      GotOk(tab, i);
      Iget(i);
      var ok := Ilock(i);
      assert tab == old(tab)[i := Locked(Got(old(tab[i])))];
    }

    /** link: `ip` is what the old path names, `dp` the parent of the new one, if there is one. In a
        directory that has been removed and is still somebody's, the new entry is not counted. */
    method Link(ip: nat, dp: Option<nat>, name: string) returns (r: Outcome)
      requires Ok(tab) && ip < |tab| && tab[ip].kind != Free && NUL !in name
      requires dp.Some? ==> dp.value < |tab| && tab[dp.value].kind == Dir
      modifies this
      ensures r.Failed? <==> old(tab[ip]).kind == Dir || dp.None? || HasName(old(tab[dp.value]).entries, Trunc(name))
      ensures r.Panic? <==> !r.Failed? && NoPlace(old(tab[dp.value]).entries, old(room))
      ensures r.Failed? ==> KeptBut(old(tab), tab, {}) && Ok(tab)
      ensures r.Done? ==>
        room == old(room) - NewBlocks(old(tab[dp.value]).entries, FreeSlot(old(tab[dp.value]).entries))
      ensures r.Done? ==> (Ok(tab) <==> Live(old(tab[dp.value])))
      ensures r.Done? ==> ip != dp.value && KeptBut(old(tab), tab, {ip, dp.value})
      ensures r.Done? ==> Kept(old(tab[ip]).(nlink := old(tab[ip]).nlink + 1), tab[ip])
      ensures r.Done? ==> Kept(Entered(old(tab[dp.value]), name, ip), tab[dp.value])
    {
      hide Ok, EntriesIn, HasName, PutAt, FreeSlot, Entered, Counted, NoPlace, NewBlocks;
      ghost var tab0 := tab;
      UseAt0(tab, ip);
      GetLocked(ip);
      ghost var tab1, x := tab, tab[ip].(nlink := tab[ip].nlink + 1);
      assert tab1 == tab0[ip := Locked(Got(tab0[ip]))];
      if tab[ip].kind == Dir {
        Iput(ip);
        return Failed;
      }
      tab := tab[ip := tab[ip].(nlink := tab[ip].nlink + 1)];
      r := Failed;
      if dp.Some? {
        UseAt0(tab0, dp.value);
        LinkEntriesIn(tab1, dp.value, ip, x);
        r := EnterName(dp.value, name, ip);
      }
      if r.Panic? {
        return;
      }
      if r.Failed? {
        tab := tab[ip := tab[ip].(nlink := tab[ip].nlink - 1)];
        Iput(ip);
        assert KeptBut(tab0, tab, {});
        KeptOk(tab0, tab);
        return;
      }
      LinkPlaced(tab1, dp.value, name, ip, x);
      ghost var tab2 := tab;
      Iput(ip);
      PutCounted(tab2, ip);
      OkIsCounted(tab);
    }

    method Isdirempty(d: nat) returns (empty: bool)
      requires d < |tab|
      ensures empty <==> Empty(tab[d])
    {
      var off := 2;
      while off < |tab[d].entries|
        invariant 2 <= off && forall j :: 2 <= j < off && j < |tab[d].entries| ==> tab[d].entries[j].inum == 0
        decreases |tab[d].entries| - off
      {
        if tab[d].entries[off].inum != 0 {
          return false;
        }
        off := off + 1;
      }
      return true;
    }

    /** The part of unlink that changes anything: entry `off` of `dp`, which names `ip`, goes, and
        with a directory its link to `dp`. */
    method RemoveEntry(dp: nat, off: nat, ip: nat)
      requires Ok(tab) && Removable(tab, dp, off, ip)
      modifies this
      ensures Ok(tab) && room >= old(room)
      ensures tab == old(tab)[dp := Unlisted(old(tab[dp]), off, DirLink(old(tab[ip])))]
                             [ip := PutBack(Unnamed1(old(tab[ip])))]
    {
      hide Ok, Empty;
      ghost var tab0 := tab;
      RemoveOk(tab, dp, off, ip);
      tab := tab[dp := tab[dp].(entries := Cleared(tab[dp].entries, off))];
      if tab[ip].kind == Dir {
        tab := tab[dp := tab[dp].(nlink := tab[dp].nlink - 1)];
      }
      Iput(dp);
      tab := tab[ip := tab[ip].(nlink := tab[ip].nlink - 1)];
      Iput(ip);
      assert tab == tab0[dp := Unlisted(tab0[dp], off, DirLink(tab0[ip]))][ip := PutBack(Unnamed1(tab0[ip]))];
    }

    /** unlink from where it has found the entry, in the directory it has locked. */
    method UnlinkAt(dp: nat, off: nat, ip: nat) returns (ok: bool)
      requires Ok(tab) && dp < |tab| && Live(tab[dp]) && tab[dp].ref > 0
      requires 2 <= off < |tab[dp].entries| && tab[dp].entries[off].inum == ip && 1 <= ip < |tab| && ip != dp
      requires tab[ip].kind != Free
      requires tab[ip].nlink > 0
      modifies this
      ensures room >= old(room)
      ensures Ok(tab) && (ok <==> (old(tab[ip]).kind == Dir ==> Empty(old(tab[ip]))))
      ensures !ok ==> tab == old(tab)[ip := PutBack(Locked(Got(old(tab[ip]))))][dp := PutBack(old(tab[dp]))]
      ensures ok ==> tab == old(tab)[dp := Unlisted(old(tab[dp]), off, DirLink(old(tab[ip])))]
                                    [ip := PutBack(Unnamed1(Locked(Got(old(tab[ip])))))]
    {
      hide Ok, Empty, Unlisted, PutBack;
      ghost var tab0 := tab;
      GetLocked(ip);
      assert tab[ip].nlink >= 1;
      if tab[ip].kind == Dir {
        var empty := Isdirempty(ip);
        EmptySame(tab[ip], tab0[ip]);
        if !empty {
          Iput(ip);
          Iput(dp);
          return false;
        }
      }
      RemoveEntry(dp, off, ip);
      return true;
    }

    /** unlink of `name` in directory `dp`. Its panics cannot happen. */
    method Unlink(dp: nat, name: string) returns (ok: bool)
      requires Ok(tab) && dp < |tab| && tab[dp].kind == Dir && NUL !in name
      modifies this
      ensures Ok(tab) && room >= old(room)
      ensures ok <==> CanUnlink(old(tab), dp, Trunc(name))
      ensures !ok ==> KeptBut(old(tab), tab, {})
      ensures ok ==> EntryGone(old(tab), tab, dp, Trunc(name))
    {
      hide Ok, Empty, KeptBut, EntryGone, HasName, CanUnlink, Unlisted, PutBack;
      ghost var tab0 := tab;
      UseAt0(tab, dp);
      GetLocked(dp);
      var dot := Namecmp(name, ".");
      var dotdot := Namecmp(name, "..");
      var j := None;
      if !dot && !dotdot {
        j := Find(dp, name);
      }
      if j.None? {
        CannotUnlink(tab0, dp, Trunc(name));
        Iput(dp);
        PutGot(tab0[dp]);
        KeptAll(tab0, tab, dp, dp);
        return false;
      }
      var off := j.value;
      var ip := tab[dp].entries[off].inum;
      UnlinkTarget(tab0, dp, off, ip, Trunc(name));
      ok := UnlinkAt(dp, off, ip);
      if ok {
        ItIsGone(tab0, tab, dp, off, ip, Trunc(name));
      } else {
        PutGot(tab0[dp]);
        PutGot(tab0[ip]);
        KeptAll(tab0, tab, dp, ip);
      }
    }

    /** ialloc and iget: the first inode not in use; None is a panic. */
    method Ialloc(kind: Kind) returns (r: Option<nat>)
      requires Ok(tab) && kind != Free
      modifies this`tab
      ensures r.None? ==> tab == old(tab) && NoneFree(tab, |tab|)
      ensures r.Some? ==> 1 <= r.value < |old(tab)| && old(tab)[r.value].kind == Free && NoneFree(old(tab), r.value)
      ensures r.Some? ==> tab == old(tab)[r.value := Inode(kind, 0, [], 1, false)]
    {
      hide Ok;
      var inum := 1;
      while inum < |tab|
        invariant 1 <= inum && tab == old(tab) && NoneFree(tab, inum)
        decreases |tab| - inum
      {
        if tab[inum].kind == Free {
          UseAt0(tab, inum);
          tab := tab[inum := tab[inum].(nlink := 0, entries := [], kind := kind)];
          Iget(inum);
          assert tab == old(tab)[inum := Inode(kind, 0, [], 1, false)];
          return Some(inum);
        }
        inum := inum + 1;
      }
      return None;
    }

    /** create's branch for a name that is there: only a file is taken for a file. The ".." of a removed
        directory may name an inode no longer in use, and locking that panics. */
    method OpenThere(dp: nat, ip: nat, kind: Kind) returns (r: Outcome)
      requires Ok(tab) && dp < |tab| && tab[dp].kind == Dir && Spare(tab[dp]) && tab[dp].valid
      requires ip < |tab|
      modifies this
      ensures r.Panic? <==> old(tab[ip]).kind == Free
      ensures !r.Panic? ==> Ok(tab)
      ensures r.Done? <==> kind == File && old(tab[ip]).kind == File
      ensures r.Done? ==> ip != dp && tab == old(tab)[ip := Locked(Got(old(tab[ip])))][dp := PutBack(old(tab[dp]))]
      ensures r.Failed? ==> tab == old(tab)[ip := PutBack(Locked(Got(old(tab[ip]))))][dp := PutBack(old(tab[dp]))]
    {
      hide Ok;
      ghost var tab0 := tab;
      UseAt0(tab, ip);
      if tab[ip].kind != Free {
        GotOk(tab, ip);
      }
      Iget(ip);
      Iput(dp);
      var ok := Ilock(ip);
      if !ok {
        return Panic;
      }
      LockOk(tab0[ip := Got(tab0[ip])][dp := PutBack(tab0[ip := Got(tab0[ip])][dp])], ip);
      if kind == File && tab[ip].kind == File {
        assert tab == tab0[ip := Locked(Got(tab0[ip]))][dp := PutBack(tab0[dp])];
        return Done;
      }
      Iput(ip);
      assert tab == tab0[ip := PutBack(Locked(Got(tab0[ip])))][dp := PutBack(tab0[dp])];
      return Failed;
    }

    /** The rest of create, for the new inode `ip`; before ialloc the table was `tab0`. The panic
        "create dots" cannot happen. */
    method FillIn(dp: nat, ip: nat, name: string, kind: Kind, ghost tab0: Table) returns (r: Outcome)
      requires Ok(tab0) && dp < |tab0| && tab0[dp].kind == Dir && Spare(tab0[dp]) && tab0[dp].valid && NUL !in name
      requires 1 <= ip < |tab0| && tab0[ip].kind == Free && kind != Free && !HasName(tab0[dp].entries, Trunc(name))
      requires tab == tab0[ip := Inode(kind, 0, [], 1, true)]
      modifies this
      ensures !r.Failed? && (r.Panic? <==> NoPlaceFor(kind, tab0[dp].entries, old(room)))
      ensures r.Done? ==>
        tab == tab0[ip := Newborn(kind, ip, dp)][dp := PutBack(Entered(WithLink(tab0[dp], kind), name, ip))]
      ensures r.Done? ==> room == old(room) - BlocksFor(kind, tab0[dp].entries)
      ensures r.Done? ==> (Ok(tab) <==> Live(tab0[dp]))
    {
      hide Ok, HasName, Entered, EntriesIn, Counted;
      tab := tab[ip := tab[ip].(nlink := 1)];
      if kind == Dir {
        tab := tab[dp := tab[dp].(nlink := tab[dp].nlink + 1)];
        Dots(ip, dp);
        NoName([], ".");
        FewEntriesIn(tab, ip);
        r := Dirlink(ip, ".", ip);
        if r.Panic? {
          return;
        }
        NoName([Dirent(ip, ".")], "..");
        FewEntriesIn(tab, ip);
        r := Dirlink(ip, "..", dp);
      }
      assert tab == tab0[ip := Newborn(kind, ip, dp)][dp := WithLink(tab0[dp], kind)];
      AllEntriesIn(tab0, dp);
      SameEntriesIn(tab0, tab, dp);
      r := Dirlink(dp, name, ip);
      if r.Panic? {
        return;
      }
      hide PutAt, FreeSlot;
      EnteredAs(tab0[dp], kind, name, ip);
      ghost var tab1 := tab;
      assert tab1 == tab0[ip := Newborn(kind, ip, dp)][dp := Entered(WithLink(tab0[dp], kind), name, ip)];
      CreateOk(tab0, dp, ip, name, kind);
      Iput(dp);
      PutCounted(tab1, dp);
      OkIsCounted(tab);
      assert tab == tab0[ip := Newborn(kind, ip, dp)][dp := PutBack(Entered(WithLink(tab0[dp], kind), name, ip))];
    }

    /** create in directory `dp`: Done with a new inode, or with the file that is there, either way
        locked and referenced. In a directory that has been removed and is still somebody's, the new
        entry is not counted, and neither is the ".." of a new directory's parent. */
    method Create(dp: nat, name: string, kind: Kind) returns (r: Outcome, ip: nat)
      requires Ok(tab) && dp < |tab| && tab[dp].kind == Dir && NUL !in name && kind != Free
      modifies this
      ensures r.Panic? <==>
        if HasName(old(tab[dp]).entries, Trunc(name)) then Dangles(old(tab), dp, Trunc(name))
        else NoPlaceFor(kind, old(tab[dp]).entries, old(room)) || NoneFree(old(tab), |old(tab)|)
      ensures r.Failed? ==> HasName(old(tab[dp]).entries, Trunc(name)) && KeptBut(old(tab), tab, {}) && Ok(tab)
      ensures r.Done? && HasName(old(tab[dp]).entries, Trunc(name)) ==>
        kind == File && Opened(old(tab), tab, dp, Trunc(name), ip) && Ok(tab)
      ensures r.Done? && !HasName(old(tab[dp]).entries, Trunc(name)) ==>
        && Created(old(tab), tab, dp, name, kind, ip) && (Ok(tab) <==> Live(old(tab[dp])))
        && room == old(room) - BlocksFor(kind, old(tab[dp]).entries)
    {
      hide Ok, HasName, KeptBut, Opened, Created, FreeSlot, PutAt, PutBack, Entered, NoneFree, Dangles, NoPlaceFor;
      hide BlocksFor;
      ghost var tab0 := tab;
      UseAt0(tab, dp);
      GetLocked(dp);
      ghost var tab1 := tab;
      var j := Find(dp, name);
      if j.Some? {
        ip := tab[dp].entries[j.value].inum;
        EntryIn(tab, dp, j.value);
        UseAt0(tab0, ip);
        r := OpenThere(dp, ip, kind);
        WhetherDangles(tab0, dp, j.value, Trunc(name));
        if r.Panic? {
          return;
        }
        PutGot(tab0[dp]);
        PutGot(tab0[ip]);
        if r.Done? {
          ItIsOpen(tab0, tab, dp, j.value, ip, Trunc(name));
        } else {
          KeptAll(tab0, tab, dp, ip);
        }
        return;
      }
      r, ip := CreateNew(dp, name, kind);
      SameFree(tab0, tab1, dp);
      if r.Done? {
        ItIsMade(tab0, tab, dp, ip, name, kind);
      }
    }

    /** create from where it has not found the name, in the directory it has locked. */
    method CreateNew(dp: nat, name: string, kind: Kind) returns (r: Outcome, ip: nat)
      requires Ok(tab) && dp < |tab| && tab[dp].kind == Dir && Spare(tab[dp]) && tab[dp].valid
      requires NUL !in name && kind != Free && !HasName(tab[dp].entries, Trunc(name))
      modifies this
      ensures !r.Failed?
      ensures r.Panic? <==> NoPlaceFor(kind, old(tab[dp]).entries, old(room)) || NoneFree(old(tab), |old(tab)|)
      ensures r.Done? ==> 1 <= ip < |old(tab)| && old(tab)[ip].kind == Free && NoneFree(old(tab), ip)
      ensures r.Done? ==>
        tab == old(tab)[ip := Newborn(kind, ip, dp)]
                       [dp := PutBack(Entered(WithLink(old(tab[dp]), kind), name, ip))]
      ensures r.Done? ==> room == old(room) - BlocksFor(kind, old(tab[dp]).entries)
      ensures r.Done? ==> (Ok(tab) <==> Live(old(tab[dp])))
    {
      hide Ok, HasName, FreeSlot, PutAt, PutBack, Entered, NoneFree, NoPlaceFor, BlocksFor;
      ghost var tab1 := tab;
      var got := Ialloc(kind);
      if got.None? {
        return Panic, 0;
      }
      ip := got.value;
      OneFree(tab1, ip);
      var ok := Ilock(ip);
      r := FillIn(dp, ip, name, kind, tab1);
    }
  }

  /** No inode below `n` is free. */
  ghost predicate NoneFree(tab: Table, n: nat) {
    forall i :: 1 <= i < n && i < |tab| ==> tab[i].kind != Free
  }

  lemma {:induction false} OneFree(tab: Table, i: nat)
    requires 1 <= i < |tab| && tab[i].kind == Free
    ensures !NoneFree(tab, |tab|)
  {
  }

  lemma {:induction false} SameFree(tab: Table, tab1: Table, dp: nat)
    requires dp < |tab| && tab1 == tab[dp := Locked(Got(tab[dp]))]
    ensures forall n: nat :: NoneFree(tab1, n) <==> NoneFree(tab, n)
  {
    forall n: nat
      ensures NoneFree(tab1, n) <==> NoneFree(tab, n)
    {
      assert forall i :: 0 <= i < |tab| ==> tab1[i].kind == tab[i].kind;
    }
  }

  lemma {:induction false} LockOk(tab: Table, i: nat)
    requires Ok(tab) && i < |tab| && tab[i].kind != Free
    ensures Ok(tab[i := Locked(tab[i])])
  {
    UseAt0(tab, i);
    hide Ok;
    RefOk(tab, i, Locked(tab[i]));
  }

  /** A new inode of each kind. */
  function Newborn(kind: Kind, ip: nat, dp: nat): Inode {
    if kind == Dir then NewDir(ip, dp) else Inode(kind, 1, [], 1, true)
  }

  /** A directory gains a link for the ".." of a new one. */
  function WithLink(x: Inode, kind: Kind): Inode {
    if kind == Dir then x.(nlink := x.nlink + 1) else x
  }

  lemma {:induction false} Dots(ip: nat, dp: nat)
    requires ip > 0
    ensures FreeSlot([]) == 0 && PutAt([], 0, Dirent(ip, ".")) == [Dirent(ip, ".")]
    ensures FreeSlot([Dirent(ip, ".")]) == 1
    ensures PutAt([Dirent(ip, ".")], 1, Dirent(dp, "..")) == [Dirent(ip, "."), Dirent(dp, "..")]
  {
  }

  lemma {:induction false} NoName(es: seq<Dirent>, name: DirName)
    requires forall j :: 0 <= j < |es| ==> es[j].name != name
    ensures !HasName(es, name)
  {
  }

  lemma {:induction false} ItHasName(es: seq<Dirent>, j: nat)
    requires j < |es| && es[j].inum != 0
    ensures HasName(es, es[j].name)
  {
  }

  lemma {:induction false} EnteredAs(x: Inode, kind: Kind, name: string, ip: nat)
    requires NUL !in name && x.valid
    ensures Entered(WithLink(x, kind), name, ip) ==
      WithLink(x, kind).(entries := PutAt(x.entries, FreeSlot(x.entries), Dirent(ip, Trunc(name))))
  {
  }

  /** create keeps the invariant exactly in a directory that is linked. */
  lemma {:induction false} CreateOk(tab: Table, dp: nat, ip: nat, name: string, kind: Kind)
    requires Ok(tab) && dp < |tab| && tab[dp].kind == Dir && tab[dp].valid && NUL !in name
    requires !HasName(tab[dp].entries, Trunc(name)) && 1 <= ip < |tab| && tab[ip].kind == Free && kind != Free
    ensures var tab' := tab[ip := Newborn(kind, ip, dp)][dp := Entered(WithLink(tab[dp], kind), name, ip)];
      if Live(tab[dp]) then Ok(tab') else !Counted(tab')
  {
    hide Dirs, Children, Parents, Counted, Uses, Vacant, PutAt, FreeSlot, HasName;
    UseAt0(tab, ip);
    SlotVacant(tab, dp, Trunc(name));
    hide Ok;
    var p := FreeSlot(tab[dp].entries);
    EnteredAs(tab[dp], kind, name, ip);
    var tab' := tab[ip := Newborn(kind, ip, dp)][dp := Entered(WithLink(tab[dp], kind), name, ip)];
    if kind == Dir {
      assert WithDir(tab, dp, p, Trunc(name), ip) == tab';
      DirCountsNeedLinkedParent(tab, dp, p, Trunc(name), ip);
      if Live(tab[dp]) {
        DirAddedOk(tab, dp, p, Trunc(name), ip);
      }
    } else {
      var x := Newborn(kind, ip, dp);
      assert WithEntry(tab, dp, p, Trunc(name), ip, x) == tab';
      CountsNeedLinkedParent(tab, dp, p, Trunc(name), ip, x);
      if Live(tab[dp]) {
        EntryAddedOk(tab, dp, p, Trunc(name), ip, x);
      }
    }
  }

  lemma {:induction false} FewEntriesIn(tab: Table, d: nat)
    requires d < |tab| && tab[d].entries in {[], [Dirent(d, ".")]}
    ensures EntriesIn(tab, d)
  {
  }

  lemma {:induction false} SameEntriesIn(tab: Table, tab': Table, d: nat)
    requires EntriesIn(tab, d) && |tab'| == |tab| && tab'[d].entries == tab[d].entries
    ensures EntriesIn(tab', d)
  {
  }

  /** The name leads to an inode that is no longer in use. */
  ghost predicate Dangles(tab: Table, dp: nat, name: DirName)
    requires dp < |tab|
  {
    exists j: nat :: j < |tab[dp].entries| && Names(tab[dp].entries[j], name)
      && tab[dp].entries[j].inum < |tab| && tab[tab[dp].entries[j].inum].kind == Free
  }

  lemma {:induction false} WhetherDangles(tab: Table, dp: nat, off: nat, name: DirName)
    requires Ok(tab) && dp < |tab| && tab[dp].kind == Dir && off < |tab[dp].entries|
    requires Names(tab[dp].entries[off], name)
    requires tab[dp].entries[off].inum < |tab|
    ensures Dangles(tab, dp, name) <==> tab[tab[dp].entries[off].inum].kind == Free
  {
    UniqueName(tab, dp, off, name);
    hide Ok;
  }

  /** Only the ".." of a removed directory does. */
  lemma {:induction false} OnlyOldParentDangles(tab: Table, dp: nat, name: DirName)
    requires Ok(tab) && dp < |tab| && tab[dp].kind == Dir && Dangles(tab, dp, name)
    ensures name == ".." && !Live(tab[dp])
  {
    var j: nat :| j < |tab[dp].entries| && Names(tab[dp].entries[j], name)
      && tab[dp].entries[j].inum < |tab| && tab[tab[dp].entries[j].inum].kind == Free;
    TwoEntries(tab, dp);
    if j > 0 {
      EntryLive(tab, dp, j);
    }
    if Live(tab[dp]) {
      LinkedTarget(tab, dp, j);
    }
  }

  /** The file of that name, with one more reference. */
  ghost predicate Opened(tab: Table, tab': Table, dp: nat, name: DirName, ip: nat) {
    && dp < |tab| && ip < |tab| == |tab'| && Dirent(ip, name) in tab[dp].entries && tab'[ip].kind == File
    && KeptBut(tab, tab', {ip}) && Kept(tab[ip].(ref := tab[ip].ref + 1), tab'[ip])
  }

  lemma {:induction false} ItIsOpen(tab: Table, tab': Table, dp: nat, off: nat, ip: nat, name: DirName)
    requires dp < |tab| && ip < |tab| && dp != ip && off < |tab[dp].entries|
    requires tab[dp].entries[off] == Dirent(ip, name) && tab[ip].kind == File
    requires |tab'| == |tab| && Kept(tab[dp], tab'[dp]) && tab'[ip] == Locked(Got(tab[ip]))
    requires forall i :: 0 <= i < |tab| && i != dp && i != ip ==> tab'[i] == tab[i]
    ensures Opened(tab, tab', dp, name, ip)
  {
  }

  /** The first free inode is in use, and the directory has an entry for it. */
  ghost predicate Created(tab: Table, tab': Table, dp: nat, name: string, kind: Kind, ip: nat)
    requires NUL !in name
  {
    && dp < |tab| == |tab'| && 1 <= ip < |tab| && ip != dp && tab[ip].kind == Free && NoneFree(tab, ip)
    && KeptBut(tab, tab', {dp, ip}) && tab'[ip] == Newborn(kind, ip, dp)
    && Kept(Entered(WithLink(tab[dp], kind), name, ip), tab'[dp])
  }

  lemma {:induction false} ItIsMade(tab: Table, tab': Table, dp: nat, ip: nat, name: string, kind: Kind)
    requires dp < |tab| && tab[dp].kind == Dir && InHand(tab[dp]) && NUL !in name
    requires 1 <= ip < |tab| && tab[ip].kind == Free && NoneFree(tab, ip)
    requires tab' == tab[ip := Newborn(kind, ip,
      dp)][dp := PutBack(Entered(WithLink(Locked(Got(tab[dp])), kind), name, ip))]
    ensures Created(tab, tab', dp, name, kind, ip)
  {
  }

  /** What unlink refuses: "." and "..", a name that is not there, a directory that is not empty. */
  ghost predicate CanUnlink(tab: Table, dp: nat, name: DirName)
    requires dp < |tab|
  {
    name != "." && name != ".." && exists off: nat :: UnlinkableAt(tab, dp, off, name)
  }

  ghost predicate UnlinkableAt(tab: Table, dp: nat, off: nat, name: DirName)
    requires dp < |tab|
  {
    && off < |tab[dp].entries| && Names(tab[dp].entries[off], name)
    && (tab[dp].entries[off].inum < |tab| && tab[tab[dp].entries[off].inum].kind == Dir ==>
          Empty(tab[tab[dp].entries[off].inum]))
  }

  predicate Names(e: Dirent, name: DirName) {
    e.inum != 0 && e.name == name
  }

  /** After unlink: the directory has lost the entry, and for a directory a link; the inode has lost
      a link, and is free if that was the last and nobody has it open. */
  ghost predicate EntryGone(tab: Table, tab': Table, dp: nat, name: DirName) {
    exists off: nat, ip: nat :: GoneAt(tab, tab', dp, name, off, ip)
  }

  ghost predicate GoneAt(tab: Table, tab': Table, dp: nat, name: DirName, off: nat, ip: nat) {
    && |tab'| == |tab| && dp < |tab| && off < |tab[dp].entries| && ip < |tab| && ip != dp && tab[ip].nlink > 0
    && tab[dp].nlink > 0
    && tab[dp].entries[off] == Dirent(ip, name) && KeptBut(tab, tab', {dp, ip})
    && Kept(tab[dp].(entries := Cleared(tab[dp].entries, off), nlink := tab[dp].nlink - DirLink(tab[ip])), tab'[dp])
    && if tab[ip].nlink == 1 && tab[ip].ref == 0 then tab'[ip] == FreeInode() else Kept(Unnamed1(tab[ip]), tab'[ip])
  }

  lemma {:induction false} CannotUnlink(tab: Table, dp: nat, name: DirName)
    requires dp < |tab| && (name == "." || name == ".." || !HasName(tab[dp].entries, name))
    ensures !CanUnlink(tab, dp, name)
  {
  }

  lemma {:induction false} PutGot(x: Inode)
    requires InHand(x)
    ensures Kept(x, PutBack(Locked(Got(x))))
  {
  }

  /** The one entry of that name. */
  lemma {:induction false} UnlinkTarget(tab: Table, dp: nat, off: nat, ip: nat, name: DirName)
    requires Ok(tab) && dp < |tab| && tab[dp].kind == Dir && off < |tab[dp].entries| && ip > 0
    requires tab[dp].entries[off] == Dirent(ip, name) && name != "." && name != ".."
    ensures Live(tab[dp]) && 2 <= off && ip < |tab| && ip != dp && tab[ip].kind != Free && tab[ip].nlink > 0
    ensures CanUnlink(tab, dp, name) <==> (tab[ip].kind == Dir ==> Empty(tab[ip]))
  {
    NamedLive(tab, dp, off);
    LinkedTarget(tab, dp, off);
    hide Children, Parents, Uses, Counted, Empty;
    TwoEntries(tab, dp);
    UniqueName(tab, dp, off, name);
    ChildIsOther(tab, dp, off);
    assert (tab[ip].kind == Dir ==> Empty(tab[ip])) ==> UnlinkableAt(tab, dp, off, name);
  }

  lemma {:induction false} NamedLive(tab: Table, dp: nat, off: nat)
    requires Ok(tab) && dp < |tab| && tab[dp].kind == Dir && off < |tab[dp].entries| && tab[dp].entries[off].inum > 0
    requires tab[dp].entries[off].name !in {".", ".."}
    ensures Live(tab[dp]) && 2 <= off
  {
    hide Children, Parents, Counted;
    TwoEntries(tab, dp);
    EntryLive(tab, dp, off);
  }

  lemma {:induction false} ChildIsOther(tab: Table, dp: nat, off: nat)
    requires Children(tab) && dp < |tab| && 2 <= off < |tab[dp].entries| && tab[dp].entries[off].inum != 0
    ensures tab[dp].entries[off].inum != dp
  {
  }

  lemma {:induction false} UniqueName(tab: Table, dp: nat, off: nat, name: DirName)
    requires Dirs(tab) && dp < |tab| && tab[dp].kind == Dir && off < |tab[dp].entries|
    requires Names(tab[dp].entries[off], name)
    ensures forall j :: 0 <= j < |tab[dp].entries| && Names(tab[dp].entries[j], name) ==> j == off
  {
  }

  lemma {:induction false} EmptySame(x: Inode, y: Inode)
    requires x.entries == y.entries
    ensures Empty(x) <==> Empty(y)
  {
  }

  lemma {:induction false} KeptAll(tab: Table, tab': Table, a: nat, b: nat)
    requires |tab'| == |tab| && a < |tab| && b < |tab| && Kept(tab[a], tab'[a]) && Kept(tab[b], tab'[b])
    requires forall i :: 0 <= i < |tab| && i != a && i != b ==> tab'[i] == tab[i]
    ensures KeptBut(tab, tab', {})
  {
  }

  lemma {:induction false} ItIsGone(tab: Table, tab': Table, dp: nat, off: nat, ip: nat, name: DirName)
    requires dp < |tab| && ip < |tab| && dp != ip && tab[ip].nlink > 0 && tab[dp].nlink > 0 && off < |tab[dp].entries|
    requires tab[dp].entries[off] == Dirent(ip, name)
    requires var links := DirLink(tab[ip]);
      tab' == tab[dp := Unlisted(Locked(Got(tab[dp])), off, links)][ip := PutBack(Unnamed1(Locked(Got(tab[ip]))))]
    ensures EntryGone(tab, tab', dp, name)
  {
    assert GoneAt(tab, tab', dp, name, off, ip);
  }

  /** An entry unlink may clear, with both inodes locked. */
  ghost predicate Removable(tab: Table, dp: nat, off: nat, ip: nat) {
    && dp < |tab| && Live(tab[dp]) && 2 <= off < |tab[dp].entries| && tab[dp].entries[off].inum == ip
    && 1 <= ip < |tab| && ip != dp && tab[ip].kind != Free && tab[ip].nlink > 0
    && (tab[ip].kind == Dir ==> Empty(tab[ip]))
    && tab[dp].ref > 0 && tab[ip].ref > 0 && tab[ip].valid
  }

  /** The link a directory has to its parent. */
  function DirLink(x: Inode): nat {
    if x.kind == Dir then 1 else 0
  }

  /** The directory after unlink and iput. */
  function Unlisted(x: Inode, off: nat, links: nat): Inode
    requires off < |x.entries| && links <= x.nlink && x.ref > 0
  {
    x.(entries := Cleared(x.entries, off), nlink := x.nlink - links, ref := x.ref - 1)
  }

  function Unnamed1(x: Inode): Inode
    requires x.nlink > 0
  {
    x.(nlink := x.nlink - 1)
  }

  lemma {:induction false} RemoveOk(tab: Table, dp: nat, off: nat, ip: nat)
    requires Ok(tab) && Removable(tab, dp, off, ip)
    ensures tab[ip].kind == Dir ==> tab[dp].nlink >= 2
    ensures Ok(tab[dp := Unlisted(tab[dp], off, DirLink(tab[ip]))][ip := PutBack(Unnamed1(tab[ip]))])
  {
    hide Ok;
    var links, x := DirLink(tab[ip]), Unnamed1(tab[ip]);
    if tab[ip].kind == Dir {
      DirRemovedOk(tab, dp, off, ip, x);
    } else {
      UseAt0(tab, ip);
      RemovedOk(tab, dp, off, ip, x);
    }
    var tab1 := WithoutEntry(tab, dp, off, links, x);
    PutOk(tab1, dp);
    var tab2 := tab1[dp := PutBack(tab1[dp])];
    PutOk(tab2, ip);
    assert tab2[ip := PutBack(tab2[ip])] == tab[dp := Unlisted(tab[dp], off, links)][ip := PutBack(x)];
  }

  /** Directory `x` after dirlink. */
  function Entered(x: Inode, name: string, inum: nat): Inode
    requires NUL !in name
  {
    x.(valid := true, entries := PutAt(x.entries, FreeSlot(x.entries), Dirent(inum, Trunc(name))))
  }

  lemma {:induction false} UseAt0(tab: Table, i: nat)
    requires Ok(tab) && i < |tab|
    ensures UseOk(tab[i])
  {
  }

  lemma {:induction false} LinkEntriesIn(tab: Table, d: nat, ip: nat, x: Inode)
    requires Ok(tab) && d < |tab| && tab[d].kind == Dir && ip < |tab| && tab[ip].kind != Dir
    ensures EntriesIn(tab[ip := x], d)
  {
    hide Ok;
    AllEntriesIn(tab, d);
  }

  lemma {:induction false} ReadOk(tab: Table, d: nat)
    requires Ok(tab) && d < |tab| && tab[d].kind == Dir
    ensures Ok(tab[d := tab[d].(valid := true)])
  {
    UseAt0(tab, d);
    hide Ok;
    RefOk(tab, d, tab[d].(valid := true));
  }

  /** link keeps the invariant exactly in a directory that is linked. */
  lemma {:induction false} LinkPlaced(tab: Table, d: nat, name: string, ip: nat, x: Inode)
    requires Ok(tab) && d < |tab| && tab[d].kind == Dir && NUL !in name && !HasName(tab[d].entries, Trunc(name))
    requires ip < |tab| && tab[ip].kind !in {Dir, Free} && x == tab[ip].(nlink := tab[ip].nlink + 1)
    ensures var tab' := tab[ip := x][d := Entered(tab[d], name, ip)];
      if Live(tab[d]) then Ok(tab') else !Counted(tab')
  {
    hide Dirs, Children, Parents, Counted, Uses, Vacant, PutAt, FreeSlot, HasName;
    SlotVacant(tab, d, Trunc(name));
    InRange(tab, ip);
    UseAt0(tab, ip);
    ReadOk(tab, d);
    hide Ok;
    var tab1, p := tab[d := tab[d].(valid := true)], FreeSlot(tab[d].entries);
    assert WithEntry(tab1, d, p, Trunc(name), ip, x) == tab[ip := x][d := Entered(tab[d], name, ip)];
    CountsNeedLinkedParent(tab1, d, p, Trunc(name), ip, x);
    if Live(tab[d]) {
      EntryAddedOk(tab1, d, p, Trunc(name), ip, x);
    }
  }

  // ---------------------------------------------------------------- where the counts go wrong

  lemma {:induction false} FreshDir(n: nat)
    requires n > 2
    ensures Fresh(n)[ROOTINO] == Inode(Dir, 1, [Dirent(ROOTINO, "."), Dirent(ROOTINO, "..")], 0, false)
    ensures NoneFree(Fresh(n), 2) && Fresh(n)[2] == FreeInode() && (n > 3 ==> Fresh(n)[3] == FreeInode())
    ensures forall name: DirName :: name !in {".", ".."} ==> !HasName(Fresh(n)[ROOTINO].entries, name)
  {
  }

  /** The next entry of a directory with few goes to its end, and takes no block. */
  lemma {:induction false} AtEnd(es: seq<Dirent>)
    requires 0 < |es| < PERBLOCK && forall i :: 0 <= i < |es| ==> es[i].inum != 0
    ensures FreeSlot(es) == |es| && forall e :: PutAt(es, |es|, e) == es + [e]
    ensures BlocksFor(File, es) == 0 && BlocksFor(Dir, es) == 1
  {
    FreeSlotIs(es, |es|);
  }

  /** mkdir of a name new in a small directory. */
  method MakeDir(fs: Inodes, dp: nat, name: string, ghost next: nat) returns (ip: nat)
    requires Ok(fs.tab) && dp < |fs.tab| && Live(fs.tab[dp]) && fs.room > 0 && NUL !in name && |name| <= DIRSIZ
    requires |fs.tab[dp].entries| < PERBLOCK
    requires (forall i :: 0 <= i < |fs.tab[dp].entries| ==> fs.tab[dp].entries[i].inum != 0)
    requires !HasName(fs.tab[dp].entries, name) && 1 <= next < |fs.tab| && fs.tab[next].kind == Free
    requires NoneFree(fs.tab, next)
    modifies fs
    ensures Ok(fs.tab) && ip == next && ip != dp && fs.room == old(fs.room) - 1
    ensures KeptBut(old(fs.tab), fs.tab, {dp, ip}) && fs.tab[ip] == NewDir(ip, dp)
    ensures var x := old(fs.tab[dp]);
      Kept(x.(valid := true, nlink := x.nlink + 1, entries := x.entries + [Dirent(ip, name)]), fs.tab[dp])
  {
    TwoEntries(fs.tab, dp);
    AtEnd(fs.tab[dp].entries);
    OneFree(fs.tab, next);
    hide Ok, HasName, FreeSlot, PutAt, BlocksFor;
    ghost var tab0 := fs.tab;
    var r: Outcome;
    r, ip := fs.Create(dp, name, Dir);
    assert r.Done? && Created(tab0, fs.tab, dp, name, Dir, ip);
    SameNext(tab0, next, ip);
  }

  lemma {:induction false} SameNext(tab: Table, a: nat, b: nat)
    requires 1 <= a < |tab| && tab[a].kind == Free && NoneFree(tab, a)
    requires 1 <= b < |tab| && tab[b].kind == Free && NoneFree(tab, b)
    ensures a == b
  {
  }

  /** unlink of an empty directory that is the third entry of its parent and has no other name. */
  method RemoveDir(fs: Inodes, dp: nat, ip: nat, name: string)
    requires Ok(fs.tab) && dp < |fs.tab| && Live(fs.tab[dp]) && NUL !in name && |name| <= DIRSIZ && name !in {".", ".."}
    requires |fs.tab[dp].entries| == 3 && fs.tab[dp].entries[2] == Dirent(ip, name)
    requires 0 < ip < |fs.tab| && fs.tab[ip].kind == Dir && Empty(fs.tab[ip]) && fs.tab[ip].nlink == 1
    modifies fs
    ensures Ok(fs.tab) && ip != dp && fs.room >= old(fs.room) && KeptBut(old(fs.tab), fs.tab, {dp, ip})
    ensures var x := old(fs.tab[dp]);
      x.nlink > 0 && Kept(x.(entries := Cleared(x.entries, 2), nlink := x.nlink - 1), fs.tab[dp])
    ensures var x := old(fs.tab[ip]);
      if x.ref == 0 then fs.tab[ip] == FreeInode() else Kept(x.(nlink := 0), fs.tab[ip])
  {
    hide Ok, KeptBut, EntryGone, Empty;
    ghost var tab0 := fs.tab;
    UnlinkTarget(tab0, dp, 2, ip, name);
    var ok := fs.Unlink(dp, name);
    assert ok;
    OneEntryGone(tab0, fs.tab, dp, 2, ip, name);
  }

  lemma {:induction false} OneEntryGone(tab: Table, tab': Table, dp: nat, off: nat, ip: nat, name: DirName)
    requires EntryGone(tab, tab', dp, name) && dp < |tab| && off < |tab[dp].entries| && ip > 0
    requires tab[dp].entries[off] == Dirent(ip, name)
    requires Ok(tab) && tab[dp].kind == Dir && name !in {".", ".."}
    ensures GoneAt(tab, tab', dp, name, off, ip)
  {
    UniqueName(tab, dp, off, name);
    var o: nat, i: nat :| GoneAt(tab, tab', dp, name, o, i);
    hide Ok, GoneAt;
  }

  /** mkdir, and rmdir by somebody who has the new directory open: it is removed and still there. */
  method RemovedWhileOpen(room: nat) returns (fs: Inodes, dp: nat)
    requires room > 0
    ensures fresh(fs) && Ok(fs.tab) && |fs.tab| == 5 && dp == 2 && fs.tab[3].kind == Free && NoneFree(fs.tab, 3)
    ensures Kept(Inode(Dir, 0, [Dirent(2, "."), Dirent(ROOTINO, "..")], 1, true), fs.tab[2])
    ensures fs.room >= room - 1
  {
    hide Ok, HasName, Fresh;
    FreshDir(5);
    fs := new Inodes.Mkfs(5, room);
    dp := MakeDir(fs, ROOTINO, "d", 2);
    RemoveDir(fs, ROOTINO, dp, "d");
  }

  /** A file made in it is not counted. */
  method FileInRemoved(room: nat) returns (fs: Inodes, dp: nat, ip: nat)
    requires room > 0
    ensures dp < |fs.tab| && ip < |fs.tab| && fs.tab[ip].kind == File && !Ok(fs.tab)
  {
    fs, dp := RemovedWhileOpen(room);
    AtEnd(fs.tab[dp].entries);
    OneFree(fs.tab, 3);
    var r: Outcome;
    r, ip := fs.Create(dp, "f", File);
  }

  /** Neither is one of its links after a directory made in it, which links it again. */
  method DirInRemoved(room: nat) returns (fs: Inodes, dp: nat, ip: nat)
    requires room > 1
    ensures dp < |fs.tab| && ip < |fs.tab| && Live(fs.tab[dp]) && fs.tab[ip] == NewDir(ip, dp) && !Ok(fs.tab)
  {
    fs, dp := RemovedWhileOpen(room);
    AtEnd(fs.tab[dp].entries);
    OneFree(fs.tab, 3);
    var r: Outcome;
    r, ip := fs.Create(dp, "f", Dir);
  }

  /** The parent of a removed directory can go too, and open with O_CREATE of "..", in the directory
      that is left, panics. */
  method CreateDotDot(room: nat) returns (fs: Inodes, dp: nat, r: Outcome)
    requires room > 1
    ensures r.Panic?
  {
    hide Ok, HasName, Fresh, NoPlaceFor;
    FreshDir(5);
    fs := new Inodes.Mkfs(5, room);
    var parent := MakeDir(fs, ROOTINO, "d", 2);
    NoName(fs.tab[parent].entries, "e");
    dp := MakeDir(fs, parent, "e", 3);
    RemoveDir(fs, parent, dp, "e");
    fs.Iput(parent);
    RemoveDir(fs, ROOTINO, parent, "d");
    var ip: nat;
    assert Names(fs.tab[dp].entries[1], "..");
    WhetherDangles(fs.tab, dp, 1, "..");
    ItHasName(fs.tab[dp].entries, 1);
    r, ip := fs.Create(dp, "..", File);
  }
}
