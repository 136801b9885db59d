/** What itrunc frees: the blocks of an inode's trees in the order the nested loops visit them,
    and the file system afterwards. */
module FileTrunc {
  import opened Blocks
  import opened FreeMap
  import opened FileTree
  import opened FileBytes

  // ---------------------------------------------------------------- freeing a list of blocks

  function FreeAll(v: Volume, d: Disk, s: seq<nat>): (r: Disk)
    requires Laid(v, d)
    ensures Laid(v, r)
  {
    if s == [] then d
    else
      var r := FreeAll(v, d, s[..|s|-1]);
      if s[|s|-1] < v.size then MarkFree(v, r, s[|s|-1]) else r
  }

  lemma {:induction false} FreeAllConcat(v: Volume, d: Disk, s: seq<nat>, t: seq<nat>)
    requires Laid(v, d)
    ensures FreeAll(v, d, s + t) == FreeAll(v, FreeAll(v, d, s), t)
  {
    if t == [] {
      assert s + t == s;
    } else {
      FreeAllConcat(v, d, s, t[..|t|-1]);
      assert (s + t)[..|s + t| - 1] == s + t[..|t|-1];
    }
  }

  /** Freeing a list clears exactly the bits of its blocks and leaves the data area alone. */
  lemma {:induction false} FreeAllEffect(v: Volume, d: Disk, s: seq<nat>, c: nat)
    requires Laid(v, d) && c < v.size
    ensures InUse(v, FreeAll(v, d, s), c) <==> InUse(v, d, c) && c !in s
    ensures c >= v.datastart ==> FreeAll(v, d, s)[c] == d[c]
  {
    hide InUse, MarkFree;
    if s != [] {
      FreeAllEffect(v, d, s[..|s|-1], c);
      if s[|s|-1] < v.size {
        FreeEffect(v, FreeAll(v, d, s[..|s|-1]), s[|s|-1], c);
      }
    }
  }

  ghost predicate NoRepeat(s: seq<nat>) {
    forall i, j :: 0 <= i < j < |s| ==> s[i] != s[j]
  }

  /** Freed in this order, the blocks never raise "freeing free block". */
  ghost predicate CanFree(v: Volume, d: Disk, s: seq<nat>)
    requires Laid(v, d)
  {
    && NoRepeat(s)
    && forall i :: 0 <= i < |s| ==> v.datastart <= s[i] < v.size && InUse(v, d, s[i])
  }

  lemma {:induction false} CanFreeRest(v: Volume, d: Disk, s: seq<nat>, t: seq<nat>)
    requires Laid(v, d) && CanFree(v, d, s + t)
    ensures CanFree(v, d, s) && CanFree(v, FreeAll(v, d, s), t)
  {
    hide InUse;
    var st := s + t;
    forall i | 0 <= i < |s|
      ensures v.datastart <= s[i] < v.size && InUse(v, d, s[i])
    {
      assert st[i] == s[i];
    }
    assert NoRepeat(s) by {
      assert forall i :: 0 <= i < |s| ==> st[i] == s[i];
    }
    assert forall i :: 0 <= i < |t| ==> st[|s| + i] == t[i];
    forall i | 0 <= i < |t|
      ensures v.datastart <= t[i] < v.size && InUse(v, FreeAll(v, d, s), t[i])
    {
      assert st[|s| + i] == t[i];
      FreeAllEffect(v, d, s, t[i]);
      assert forall j :: 0 <= j < |s| ==> st[j] == s[j];
    }
  }

  // ---------------------------------------------------------------- the order of the loops

  /** The blocks freed for a tree with root `a`, `depth` index levels deep: the entries first,
      then the root. */
  function Order(v: Volume, d: Disk, a: nat, depth: nat): seq<nat>
    requires Laid(v, d)
    decreases depth, WORDS + 1
  {
    if depth == 0 || a >= v.size then [a] else Entries(v, d, a, depth, WORDS) + [a]
  }

  function Entries(v: Volume, d: Disk, a: nat, depth: nat, n: nat): seq<nat>
    requires Laid(v, d) && a < v.size && 0 < depth && n <= WORDS
    decreases depth, n
  {
    if n == 0 then []
    else
      var w := Word(d[a], n - 1);
      Entries(v, d, a, depth, n - 1) + if w != 0 then Order(v, d, w, depth - 1) else []
  }

  predicate SameData(v: Volume, d: Disk, e: Disk)
    requires Laid(v, d) && Laid(v, e)
  {
    forall c :: v.datastart <= c < v.size ==> d[c] == e[c]
  }

  /** Clearing bits of the free map does not change what the loops find. */
  lemma {:induction false} OrderSame(v: Volume, d: Disk, e: Disk, a: nat, depth: nat)
    requires Laid(v, d) && Laid(v, e) && SameData(v, d, e)
    requires forall b :: b in Order(v, d, a, depth) ==> v.datastart <= b
    ensures Order(v, e, a, depth) == Order(v, d, a, depth)
    decreases depth, WORDS + 1
  {
    hide Word;
    if depth > 0 && a < v.size {
      var s := Entries(v, d, a, depth, WORDS);
      assert a in Order(v, d, a, depth);
      assert forall b :: b in s ==> b in s + [a];
      EntriesSame(v, d, e, a, depth, WORDS);
    }
  }

  lemma {:induction false} EntriesSame(v: Volume, d: Disk, e: Disk, a: nat, depth: nat, n: nat)
    requires Laid(v, d) && Laid(v, e) && SameData(v, d, e)
    requires v.datastart <= a < v.size && 0 < depth && n <= WORDS
    requires forall b :: b in Entries(v, d, a, depth, n) ==> v.datastart <= b
    ensures Entries(v, e, a, depth, n) == Entries(v, d, a, depth, n)
    decreases depth, n
  {
    hide Word, Order;
    if n > 0 {
      var w, front := Word(d[a], n - 1), Entries(v, d, a, depth, n - 1);
      var back := if w != 0 then Order(v, d, w, depth - 1) else [];
      assert Entries(v, d, a, depth, n) == front + back;
      assert forall b :: b in front ==> b in front + back;
      assert forall b :: b in back ==> b in front + back;
      EntriesSame(v, d, e, a, depth, n - 1);
      if w != 0 {
        OrderSame(v, d, e, w, depth - 1);
      }
    }
  }

  // ---------------------------------------------------------------- order and positions

  /** `p` lies at or below `q`. */
  predicate Below(q: Pos, p: Pos) {
    q <= p
  }

  /** Block `b` stands at or below `q`. */
  ghost predicate HeldBelow(v: Volume, fs: Fs, q: Pos, b: nat)
    requires Shape(v, fs)
  {
    b != 0 && exists p :: ValidPos(fs.inodes, p) && Below(q, p) && Node(v, fs, p) == b
  }

  /** Block `b` stands below one of the first `n` entries of `q`. */
  ghost predicate HeldUnder(v: Volume, fs: Fs, q: Pos, n: nat, b: nat)
    requires Shape(v, fs)
  {
    b != 0 && exists p :: ValidPos(fs.inodes, p) && Below(q, p) && |p| > |q| && p[|q|] < n && Node(v, fs, p) == b
  }

  lemma {:induction false} UnderOneMore(v: Volume, fs: Fs, q: Pos, n: nat, b: nat)
    requires Shape(v, fs) && n > 0
    ensures HeldUnder(v, fs, q, n, b) <==> HeldUnder(v, fs, q, n - 1, b) || HeldBelow(v, fs, q + [n - 1], b)
  {
  }

  lemma {:induction false} BelowSplits(v: Volume, fs: Fs, q: Pos, b: nat)
    requires Shape(v, fs) && ValidPos(fs.inodes, q) && |q| < 2 + Depth(q[1])
    ensures HeldBelow(v, fs, q, b) <==> (b != 0 && b == Node(v, fs, q)) || HeldUnder(v, fs, q, WORDS, b)
  {
    hide Node;
    assert Below(q, q);
    if HeldBelow(v, fs, q, b) {
      var p :| ValidPos(fs.inodes, p) && Below(q, p) && Node(v, fs, p) == b;
      if p != q {
        assert |p| > |q| && p[|q|] < WORDS;
      }
    }
  }

  lemma {:induction false} AbsentBelow(v: Volume, fs: Fs, c: Pos, p: Pos)
    requires Shape(v, fs) && ValidPos(fs.inodes, c) && ValidPos(fs.inodes, p) && Below(c, p)
    requires Node(v, fs, c) == 0
    ensures Node(v, fs, p) == 0
    decreases |p|
  {
    if |p| > |c| {
      AbsentBelow(v, fs, c, Up(p));
    } else {
      assert p == c;
    }
  }

  lemma {:induction false} NothingBelow(v: Volume, fs: Fs, c: Pos, b: nat)
    requires Shape(v, fs) && ValidPos(fs.inodes, c) && Node(v, fs, c) == 0
    ensures !HeldBelow(v, fs, c, b)
  {
    hide Node;
    forall p | ValidPos(fs.inodes, p) && Below(c, p)
      ensures Node(v, fs, p) == 0
    {
      AbsentBelow(v, fs, c, p);
    }
  }

  /** Index levels below position `q`. */
  function Levels(q: Pos): int
    requires 2 <= |q|
  {
    2 + Depth(q[1]) - |q|
  }

  /** Entry `i` of an index block is the position one step down. */
  lemma {:induction false} Child(v: Volume, fs: Fs, q: Pos, i: nat)
    requires Good(v, fs) && ValidPos(fs.inodes, q) && Node(v, fs, q) != 0
    requires 0 < Levels(q) && i < WORDS
    ensures ValidPos(fs.inodes, q + [i]) && Levels(q + [i]) == Levels(q) - 1
    ensures Node(v, fs, q) < v.size && Node(v, fs, q + [i]) == Word(fs.disk[Node(v, fs, q)], i)
  {
    hide InUse, Word;
    assert Up(q + [i]) == q && Last(q + [i]) == i;
  }

  lemma {:induction false} EntriesOneMore(v: Volume, d: Disk, a: nat, depth: nat, n: nat)
    requires Laid(v, d) && a < v.size && 0 < depth && 0 < n <= WORDS
    ensures Entries(v, d, a, depth, n) ==
      Entries(v, d, a, depth, n - 1) + if Word(d[a], n - 1) != 0 then Order(v, d, Word(d[a], n - 1), depth - 1) else []
  {
  }

  lemma {:induction false} OrderOpens(v: Volume, d: Disk, a: nat, depth: nat)
    requires Laid(v, d) && a < v.size
    ensures Order(v, d, a, depth) == (if depth == 0 then [] else Entries(v, d, a, depth, WORDS)) + [a]
  {
  }

  lemma {:induction false} NodeInRange(v: Volume, fs: Fs, q: Pos)
    requires Good(v, fs) && ValidPos(fs.inodes, q) && Node(v, fs, q) != 0
    ensures v.datastart <= Node(v, fs, q) < v.size
  {
  }

  lemma {:induction false} LeafBelow(v: Volume, fs: Fs, q: Pos, b: nat)
    requires Shape(v, fs) && ValidPos(fs.inodes, q) && Levels(q) == 0
    ensures HeldBelow(v, fs, q, b) <==> b != 0 && b == Node(v, fs, q)
  {
    hide Node;
    assert Below(q, q);
    forall p | ValidPos(fs.inodes, p) && Below(q, p)
      ensures p == q
    {
    }
  }

  /** The blocks the loops free under a present position are exactly those at or below it. */
  lemma {:induction false} OrderIsSubtree(v: Volume, fs: Fs, q: Pos, b: nat)
    requires Good(v, fs) && ValidPos(fs.inodes, q) && Node(v, fs, q) != 0
    ensures b in Order(v, fs.disk, Node(v, fs, q), Levels(q)) <==> HeldBelow(v, fs, q, b)
    decreases Levels(q), WORDS + 1
  {
    hide Owned, MetaInUse, Word, Node, HeldUnder, HeldBelow, Order, Entries;
    NodeInRange(v, fs, q);
    OrderOpens(v, fs.disk, Node(v, fs, q), Levels(q));
    if Levels(q) == 0 {
      LeafBelow(v, fs, q, b);
    } else {
      EntriesAreSubtrees(v, fs, q, WORDS, b);
      BelowSplits(v, fs, q, b);
    }
  }

  lemma {:induction false} NoEntries(v: Volume, fs: Fs, q: Pos, b: nat)
    requires Good(v, fs) && ValidPos(fs.inodes, q) && Node(v, fs, q) < v.size && 0 < Levels(q)
    ensures Entries(v, fs.disk, Node(v, fs, q), Levels(q), 0) == [] && !HeldUnder(v, fs, q, 0, b)
  {
    hide Node;
  }

  lemma {:induction false} EntriesAreSubtrees(v: Volume, fs: Fs, q: Pos, n: nat, b: nat)
    requires Good(v, fs) && ValidPos(fs.inodes, q) && Node(v, fs, q) != 0
    requires 0 < Levels(q) && n <= WORDS
    ensures Node(v, fs, q) < v.size
    ensures b in Entries(v, fs.disk, Node(v, fs, q), Levels(q), n) <==> HeldUnder(v, fs, q, n, b)
    decreases Levels(q), n
  {
    hide Owned, MetaInUse, Word, HeldBelow, Order, Node, Entries, HeldUnder;
    NodeInRange(v, fs, q);
    if n == 0 {
      NoEntries(v, fs, q, b);
    } else {
      var c := q + [n - 1];
      Child(v, fs, q, n - 1);
      EntriesOneMore(v, fs.disk, Node(v, fs, q), Levels(q), n);
      hide Levels, ValidPos;
      EntriesAreSubtrees(v, fs, q, n - 1, b);
      UnderOneMore(v, fs, q, n, b);
      if Node(v, fs, c) != 0 {
        OrderIsSubtree(v, fs, c, b);
      } else {
        NothingBelow(v, fs, c, b);
      }
    }
  }

  /** Blocks held below different entries are different. */
  lemma {:induction false} HeldApart(v: Volume, fs: Fs, q: Pos, n: nat, b: nat)
    requires Good(v, fs) && ValidPos(fs.inodes, q)
    ensures !(HeldUnder(v, fs, q, n, b) && HeldBelow(v, fs, q + [n], b))
    ensures !(HeldUnder(v, fs, q, n, b) && b == Node(v, fs, q))
  {
  }

  lemma {:induction false} NoRepeatConcat(s: seq<nat>, t: seq<nat>)
    requires NoRepeat(s) && NoRepeat(t) && forall b :: b in s ==> b !in t
    ensures NoRepeat(s + t)
  {
    var st := s + t;
    forall i, j | 0 <= i < j < |st|
      ensures st[i] != st[j]
    {
      if i < |s| && j >= |s| {
        assert st[i] == s[i] && st[j] == t[j - |s|];
        assert st[i] in s && st[j] in t;
      }
    }
  }

  lemma {:induction false} OneNoRepeat(a: nat)
    ensures NoRepeat([a]) && NoRepeat([])
  {
  }

  /** The loops free no block twice. */
  lemma {:induction false} OrderNoRepeat(v: Volume, fs: Fs, q: Pos)
    requires Good(v, fs) && ValidPos(fs.inodes, q) && Node(v, fs, q) != 0
    ensures NoRepeat(Order(v, fs.disk, Node(v, fs, q), Levels(q)))
    decreases Levels(q), WORDS + 1
  {
    hide Owned, MetaInUse, Word, Node, HeldUnder, HeldBelow, NoRepeat, Order, Entries;
    var a := Node(v, fs, q);
    NodeInRange(v, fs, q);
    OrderOpens(v, fs.disk, a, Levels(q));
    OneNoRepeat(a);
    if Levels(q) > 0 {
      EntriesNoRepeat(v, fs, q, WORDS);
      EntriesAreSubtrees(v, fs, q, WORDS, a);
      HeldApart(v, fs, q, WORDS, a);
      NoRepeatConcat(Entries(v, fs.disk, a, Levels(q), WORDS), [a]);
    } else {
      assert [] + [a] == [a];
    }
  }

  lemma {:induction false} EntriesNoRepeat(v: Volume, fs: Fs, q: Pos, n: nat)
    requires Good(v, fs) && ValidPos(fs.inodes, q) && Node(v, fs, q) != 0
    requires 0 < Levels(q) && n <= WORDS
    ensures Node(v, fs, q) < v.size
    ensures NoRepeat(Entries(v, fs.disk, Node(v, fs, q), Levels(q), n))
    decreases Levels(q), n
  {
    hide Owned, MetaInUse, Word, HeldBelow, HeldUnder, Order, Node;
    NodeInRange(v, fs, q);
    OneNoRepeat(0);
    if n > 0 {
      var c, a := q + [n - 1], Node(v, fs, q);
      Child(v, fs, q, n - 1);
      EntriesOneMore(v, fs.disk, a, Levels(q), n);
      hide Entries, NoRepeat, ValidPos;
      EntriesNoRepeat(v, fs, q, n - 1);
      var front := Entries(v, fs.disk, a, Levels(q), n - 1);
      if Node(v, fs, c) != 0 {
        OrderNoRepeat(v, fs, c);
        var back := Order(v, fs.disk, Node(v, fs, c), Levels(c));
        forall b | b in front
          ensures b !in back
        {
          EntriesAreSubtrees(v, fs, q, n - 1, b);
          OrderIsSubtree(v, fs, c, b);
          HeldApart(v, fs, q, n - 1, b);
        }
        NoRepeatConcat(front, back);
      } else {
        assert front + [] == front;
      }
    }
  }

  // ---------------------------------------------------------------- a whole inode

  /** The blocks itrunc frees for the first `n` slots, in order. */
  function SlotsOrder(v: Volume, fs: Fs, inum: nat, n: nat): seq<nat>
    requires Shape(v, fs) && inum < |fs.inodes| && n <= NSLOTS
  {
    if n == 0 then []
    else
      var a := fs.inodes[inum].addrs[n - 1];
      SlotsOrder(v, fs, inum, n - 1) + if a != 0 then Order(v, fs.disk, a, Depth(n - 1)) else []
  }

  const EmptyInode: Inode := Inode([0, 0, 0, 0, 0, 0, 0, 0, 0], 0)

  /** The file system after itrunc. */
  function Trunc(v: Volume, fs: Fs, inum: nat): (t: Fs)
    requires Shape(v, fs) && inum < |fs.inodes|
    ensures Shape(v, t) && |t.inodes| == |fs.inodes|
  {
    Fs(FreeAll(v, fs.disk, SlotsOrder(v, fs, inum, NSLOTS)), fs.inodes[inum := EmptyInode])
  }

  /** Block `b` stands in one of the first `n` slots' trees. */
  ghost predicate HeldInSlots(v: Volume, fs: Fs, inum: nat, n: nat, b: nat)
    requires Shape(v, fs) && inum < |fs.inodes|
  {
    b != 0 && exists p :: ValidPos(fs.inodes, p) && p[0] == inum && p[1] < n && Node(v, fs, p) == b
  }

  lemma {:induction false} SlotsOneMore(v: Volume, fs: Fs, inum: nat, n: nat, b: nat)
    requires Shape(v, fs) && inum < |fs.inodes| && n < NSLOTS
    ensures HeldInSlots(v, fs, inum, n + 1, b) <==> HeldInSlots(v, fs, inum, n, b) || HeldBelow(v, fs, [inum, n], b)
  {
  }

  lemma {:induction false} SlotsAreTrees(v: Volume, fs: Fs, inum: nat, n: nat, b: nat)
    requires Good(v, fs) && inum < |fs.inodes| && n <= NSLOTS
    ensures b in SlotsOrder(v, fs, inum, n) <==> HeldInSlots(v, fs, inum, n, b)
  {
    hide Owned, MetaInUse, HeldBelow, Order;
    if n > 0 {
      var c := [inum, n - 1];
      assert ValidPos(fs.inodes, c) && Levels(c) == Depth(n - 1);
      assert Node(v, fs, c) == fs.inodes[inum].addrs[n - 1];
      SlotsAreTrees(v, fs, inum, n - 1, b);
      SlotsOneMore(v, fs, inum, n - 1, b);
      hide HeldInSlots, ValidPos, Node;
      if Node(v, fs, c) != 0 {
        OrderIsSubtree(v, fs, c, b);
      } else {
        NothingBelow(v, fs, c, b);
      }
    }
  }

  lemma {:induction false} SlotsApart(v: Volume, fs: Fs, inum: nat, n: nat, b: nat)
    requires Good(v, fs) && inum < |fs.inodes|
    ensures !(HeldInSlots(v, fs, inum, n, b) && HeldBelow(v, fs, [inum, n], b))
  {
  }

  lemma {:induction false} SlotsNoRepeat(v: Volume, fs: Fs, inum: nat, n: nat)
    requires Good(v, fs) && inum < |fs.inodes| && n <= NSLOTS
    ensures NoRepeat(SlotsOrder(v, fs, inum, n))
  {
    hide Owned, MetaInUse, HeldBelow, Order, HeldInSlots;
    OneNoRepeat(0);
    if n > 0 {
      var c := [inum, n - 1];
      assert ValidPos(fs.inodes, c) && Levels(c) == Depth(n - 1);
      assert Node(v, fs, c) == fs.inodes[inum].addrs[n - 1];
      SlotsNoRepeat(v, fs, inum, n - 1);
      hide ValidPos, Node, NoRepeat;
      var front := SlotsOrder(v, fs, inum, n - 1);
      if Node(v, fs, c) != 0 {
        OrderNoRepeat(v, fs, c);
        var back := Order(v, fs.disk, Node(v, fs, c), Depth(n - 1));
        forall b | b in front
          ensures b !in back
        {
          SlotsAreTrees(v, fs, inum, n - 1, b);
          OrderIsSubtree(v, fs, c, b);
          SlotsApart(v, fs, inum, n - 1, b);
        }
        NoRepeatConcat(front, back);
      } else {
        assert front + [] == front;
      }
    }
  }

  /** itrunc never raises "freeing free block". */
  lemma {:induction false} SlotsCanFree(v: Volume, fs: Fs, inum: nat, n: nat)
    requires Good(v, fs) && inum < |fs.inodes| && n <= NSLOTS
    ensures CanFree(v, fs.disk, SlotsOrder(v, fs, inum, n))
  {
    hide InUse, Node, Order;
    var s := SlotsOrder(v, fs, inum, n);
    SlotsNoRepeat(v, fs, inum, n);
    forall i | 0 <= i < |s|
      ensures v.datastart <= s[i] < v.size && InUse(v, fs.disk, s[i])
    {
      SlotsAreTrees(v, fs, inum, n, s[i]);
    }
  }

  lemma {:induction false} TruncNode(v: Volume, fs: Fs, inum: nat, p: Pos)
    requires Good(v, fs) && inum < |fs.inodes| && ValidPos(fs.inodes, p)
    ensures Node(v, Trunc(v, fs, inum), p) == if p[0] == inum then 0 else Node(v, fs, p)
    decreases |p|
  {
    hide InUse, SlotsOrder, FreeAll, Word;
    if |p| > 2 {
      TruncNode(v, fs, inum, Up(p));
      if p[0] != inum && Node(v, fs, Up(p)) != 0 {
        FreeAllEffect(v, fs.disk, SlotsOrder(v, fs, inum, NSLOTS), Node(v, fs, Up(p)));
      }
    }
  }

  /** itrunc undoes allocation: the inode's trees are gone, exactly their blocks are free again,
      and no other inode's tree or bytes changed. */
  lemma {:induction false} TruncEffect(v: Volume, fs: Fs, inum: nat)
    requires Good(v, fs) && inum < |fs.inodes|
    ensures Good(v, Trunc(v, fs, inum))
    ensures forall p :: ValidPos(fs.inodes, p) ==>
      Node(v, Trunc(v, fs, inum), p) == if p[0] == inum then 0 else Node(v, fs, p)
    ensures forall b :: 0 <= b < v.size ==>
      (InUse(v, Trunc(v, fs, inum).disk, b) <==> InUse(v, fs.disk, b) && !HeldInSlots(v, fs, inum, NSLOTS, b))
    ensures forall j, k :: 0 <= j < |fs.inodes| && 0 <= k < MAXFILE * BSIZE ==>
      ByteAt(v, Trunc(v, fs, inum), j, k) == if j == inum then 0 else ByteAt(v, fs, j, k)
  {
    hide InUse, Node, SlotsOrder, FreeAll, HeldInSlots, ByteAt;
    var t, s := Trunc(v, fs, inum), SlotsOrder(v, fs, inum, NSLOTS);
    forall p | ValidPos(fs.inodes, p)
      ensures ValidPos(t.inodes, p) && Node(v, t, p) == if p[0] == inum then 0 else Node(v, fs, p)
    {
      TruncNode(v, fs, inum, p);
    }
    forall b | 0 <= b < v.size
      ensures InUse(v, t.disk, b) <==> InUse(v, fs.disk, b) && !HeldInSlots(v, fs, inum, NSLOTS, b)
    {
      FreeAllEffect(v, fs.disk, s, b);
      SlotsAreTrees(v, fs, inum, NSLOTS, b);
    }
    forall b | 0 <= b < v.datastart
      ensures InUse(v, t.disk, b)
    {
      MetaNotHeld(v, fs, inum, b);
    }
    forall p | ValidPos(t.inodes, p) && Node(v, t, p) != 0
      ensures v.datastart <= Node(v, t, p) < v.size && InUse(v, t.disk, Node(v, t, p))
    {
      assert ValidPos(fs.inodes, p);
      OthersNotHeld(v, fs, inum, p);
    }
    forall j, k | 0 <= j < |fs.inodes| && 0 <= k < MAXFILE * BSIZE
      ensures ByteAt(v, t, j, k) == if j == inum then 0 else ByteAt(v, fs, j, k)
    {
      TruncByte(v, fs, inum, j, k);
    }
    assert forall p :: ValidPos(t.inodes, p) ==> ValidPos(fs.inodes, p);
  }

  lemma {:induction false} MetaNotHeld(v: Volume, fs: Fs, inum: nat, b: nat)
    requires Good(v, fs) && inum < |fs.inodes| && b < v.datastart
    ensures !HeldInSlots(v, fs, inum, NSLOTS, b)
  {
  }

  lemma {:induction false} OthersNotHeld(v: Volume, fs: Fs, inum: nat, p: Pos)
    requires Good(v, fs) && inum < |fs.inodes| && ValidPos(fs.inodes, p) && p[0] != inum
    ensures !HeldInSlots(v, fs, inum, NSLOTS, Node(v, fs, p))
  {
  }

  lemma {:induction false} TruncByte(v: Volume, fs: Fs, inum: nat, j: nat, k: nat)
    requires Good(v, fs) && inum < |fs.inodes| && j < |fs.inodes| && k < MAXFILE * BSIZE
    ensures ByteAt(v, Trunc(v, fs, inum), j, k) == if j == inum then 0 else ByteAt(v, fs, j, k)
  {
    hide Node, InUse, SlotsOrder, FreeAll, LeafPos;
    var p := LeafPos(j, k / BSIZE);
    LeafPosValid(fs.inodes, j, k / BSIZE);
    LeafPosOf(j, k / BSIZE);
    TruncNode(v, fs, inum, p);
    if j != inum && Node(v, fs, p) != 0 {
      FreeAllEffect(v, fs.disk, SlotsOrder(v, fs, inum, NSLOTS), Node(v, fs, p));
    }
  }

  lemma {:induction false} LeafPosOf(inum: nat, bn: nat)
    requires bn < MAXFILE
    ensures |LeafPos(inum, bn)| > 0 && LeafPos(inum, bn)[0] == inum
  {
  }
}
