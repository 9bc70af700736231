/** Room on the disk: how many blocks bmap and writei take (kernel/fs.c), and where a write stops when there are not
    enough. A state is looked at as the number of clear bits and the set of slots that hold a block. */
module FsSpace {
  import opened FsBlocks
  import opened FsSpec
  import opened Params

  /** Out of disk space: every bit of the bitmap is set. */
  ghost predicate AllUsed(used: seq<bool>) {
    forall b :: 0 <= b < |used| ==> used[b]
  }

  /** The number of clear bits. */
  ghost function Clear(used: seq<bool>): nat {
    if |used| == 0 then 0 else Clear(used[..|used| - 1]) + if used[|used| - 1] then 0 else 1
  }

  lemma {:induction false} ClearTaken(used: seq<bool>, b: nat)
    requires b < |used| && !used[b]
    ensures Clear(used) == Clear(used[b := true]) + 1
  {
    var last := |used| - 1;
    if b < last {
      ClearTaken(used[..last], b);
      assert used[b := true][..last] == used[..last][b := true];
    } else {
      assert used[b := true][..last] == used[..last];
    }
  }

  lemma {:induction false} NoneClear(used: seq<bool>)
    requires AllUsed(used)
    ensures Clear(used) == 0
  {
    if |used| > 0 { NoneClear(used[..|used| - 1]); }
  }

  /** The slots that hold a block. */
  ghost function Filled(owner: map<int, Slot>): set<Slot> { set b | b in owner :: owner[b] }

  lemma FilledPut(owner: map<int, Slot>, b: int, sl: Slot)
    requires b !in owner
    ensures Filled(owner[b := sl]) == Filled(owner) + {sl}
  {
    var after := owner[b := sl];
    forall x ensures x in Filled(after) <==> x in Filled(owner) + {sl} {
      if x in Filled(owner) {
        var c :| c in owner && owner[c] == x;
        assert after[c] == x;
      }
      assert after[b] == sl;
    }
  }

  /** A slot is filled exactly if some block belongs to it. */
  lemma FilledIs(g: Geometry, blocks: seq<Block>, addrs: seq<seq<int>>, owner: map<int, Slot>, sl: Slot)
    requires Owned(g, blocks, addrs, owner) && g.Ok() && IsSlot(g.ninodes, sl)
    ensures sl in Filled(owner) <==> Ptr(blocks, addrs, sl) != 0
  {
    hide Ptr, IsSlot;
    if Ptr(blocks, addrs, sl) != 0 {
      assert owner[Ptr(blocks, addrs, sl)] == sl;
    } else if sl in Filled(owner) {
      var b :| b in owner && owner[b] == sl;
      assert false;
    }
  }

  // ------------------------------------------------------------ what it takes

  /** The slots on the way to block bn of file i. */
  function Way(i: nat, bn: nat): set<Slot> {
    if bn < NDIRECT then {FileSlot(i, bn)} else {Root(i), FileSlot(i, bn)}
  }

  /** How many of them are empty. */
  function Lacking(filled: set<Slot>, i: nat, bn: nat): nat {
    (if FileSlot(i, bn) in filled then 0 else 1) + if bn < NDIRECT || Root(i) in filled then 0 else 1
  }

  /** The slots that are filled once the k blocks from bn on are there. */
  function Fill(filled: set<Slot>, i: nat, bn: nat, k: nat): set<Slot> {
    if k == 0 then filled else Fill(filled, i, bn, k - 1) + Way(i, bn + k - 1)
  }

  /** How many blocks it takes to get there. */
  function Need(filled: set<Slot>, i: nat, bn: nat, k: nat): nat {
    if k == 0 then 0 else Need(filled, i, bn, k - 1) + Lacking(Fill(filled, i, bn, k - 1), i, bn + k - 1)
  }

  lemma {:induction false} NeedGrows(filled: set<Slot>, i: nat, bn: nat, k: nat, m: nat)
    requires k <= m
    ensures Need(filled, i, bn, k) <= Need(filled, i, bn, m)
  {
    if k < m { NeedGrows(filled, i, bn, k, m - 1); }
  }

  /** What is filled: what was, the k blocks, and the indirect block if one of them is not direct. */
  lemma {:induction false} FillIs(filled: set<Slot>, i: nat, bn: nat, k: nat, sl: Slot)
    ensures sl in Fill(filled, i, bn, k) <==>
              || sl in filled
              || (!sl.Root? && sl.i == i && bn <= Index(sl) < bn + k && sl == FileSlot(i, Index(sl)))
              || (sl == Root(i) && k > 0 && bn + k > NDIRECT)
  {
    if k > 0 { FillIs(filled, i, bn, k - 1, sl); }
  }

  /** The place in its file of the block in a slot. */
  function Index(sl: Slot): nat {
    match sl
    case Direct(_, k) => k
    case Root(_) => 0
    case Leaf(_, j) => NDIRECT + j
  }

  /** Going on from block bn + k or, for the rest of a block that is begun, from the one before. */
  lemma {:induction false} NeedOn(filled: set<Slot>, i: nat, bn: nat, k: nat, from: nat, m: nat)
    requires from == bn + k || (from == bn + k - 1 && k > 0 && m > 0)
    ensures Need(filled, i, bn, from - bn + m) ==
            Need(filled, i, bn, k) + Need(Fill(filled, i, bn, k), i, from, m)
    ensures Fill(filled, i, bn, from - bn + m) == Fill(Fill(filled, i, bn, k), i, from, m)
  {
    if m == 1 && from == bn + k - 1 {
      var there := Fill(filled, i, bn, k);
      assert there + Way(i, from) == there;
      assert Fill(there, i, from, 0) == there;
      assert Need(there, i, from, 0) == 0;
    } else if m > 0 {
      NeedOn(filled, i, bn, k, from, m - 1);
    }
  }

  // ------------------------------------------------------- what has been done

  /** A block was asked for, for slot sl: it is there, allocated if it had to be, or every block is in use. */
  ghost predicate TookOne(c0: nat, f0: set<Slot>, c1: nat, f1: set<Slot>, sl: Slot, ok: bool) {
    if ok then c1 == c0 - (if sl in f0 then 0 else 1) && f1 == f0 + {sl}
    else sl !in f0 && c0 == c1 == 0 && f1 == f0
  }

  /** Block bn of file i was asked for. An indirect block that was allocated on the way stays where its entry could
      not be had. */
  ghost predicate Took(c0: nat, f0: set<Slot>, c1: nat, f1: set<Slot>, i: nat, bn: nat, ok: bool) {
    if ok then c1 == c0 - Lacking(f0, i, bn) && f1 == f0 + Way(i, bn)
    else c0 < Lacking(f0, i, bn) && c1 == 0 && f1 == if c0 == 1 then f0 + {Root(i)} else f0
  }

  lemma TookDirect(c0: nat, f0: set<Slot>, c1: nat, f1: set<Slot>, i: nat, bn: nat, ok: bool)
    requires TookOne(c0, f0, c1, f1, FileSlot(i, bn), ok) && bn < NDIRECT
    ensures Took(c0, f0, c1, f1, i, bn, ok)
  {
  }

  lemma TookNoRoot(c0: nat, f0: set<Slot>, c1: nat, f1: set<Slot>, i: nat, bn: nat)
    requires TookOne(c0, f0, c1, f1, Root(i), false) && bn >= NDIRECT
    ensures Took(c0, f0, c1, f1, i, bn, false)
  {
  }

  lemma TookIndirect(c0: nat, f0: set<Slot>, c1: nat, f1: set<Slot>, c2: nat, f2: set<Slot>, i: nat, bn: nat, ok: bool)
    requires TookOne(c0, f0, c1, f1, Root(i), true) && TookOne(c1, f1, c2, f2, FileSlot(i, bn), ok) && bn >= NDIRECT
    ensures Took(c0, f0, c2, f2, i, bn, ok)
  {
    assert !ok && Root(i) in f0 ==> f0 + {Root(i)} == f0;
  }

  /** The k blocks from bn on are there, and no more has been allocated than it took. */
  ghost predicate Paid(c0: nat, f0: set<Slot>, c1: nat, f1: set<Slot>, i: nat, bn: nat, k: nat) {
    c1 == c0 - Need(f0, i, bn, k) && f1 == Fill(f0, i, bn, k)
  }

  /** There was room for k blocks from bn on and not for one more. */
  ghost predicate RanOut(c0: nat, f0: set<Slot>, c1: nat, f1: set<Slot>, i: nat, bn: nat, k: nat) {
    && Need(f0, i, bn, k) <= c0 < Need(f0, i, bn, k + 1) && c1 == 0
    && f1 == Fill(f0, i, bn, k) + if c0 == Need(f0, i, bn, k) + 1 then {Root(i)} else {}
  }

  /** After `trips` trips of the write loop. */
  ghost predicate Outlay(c0: nat, f0: set<Slot>, c1: nat, f1: set<Slot>, i: nat, bn: nat, trips: nat, full: bool) {
    if full then trips > 0 && RanOut(c0, f0, c1, f1, i, bn, trips - 1) else Paid(c0, f0, c1, f1, i, bn, trips)
  }

  lemma OutlayStart(c: nat, f: set<Slot>, i: nat, bn: nat)
    ensures Outlay(c, f, c, f, i, bn, 0, false)
  {
  }

  lemma OutlayStep(c0: nat, f0: set<Slot>, c1: nat, f1: set<Slot>, c2: nat, f2: set<Slot>, i: nat, bn: nat, trips: nat,
                   full: bool)
    requires Outlay(c0, f0, c1, f1, i, bn, trips, false) && Took(c1, f1, c2, f2, i, bn + trips, !full)
    ensures Outlay(c0, f0, c2, f2, i, bn, trips + 1, full)
  {
    hide Lacking, Way;
    assert Need(f0, i, bn, trips + 1) == Need(f0, i, bn, trips) + Lacking(f1, i, bn + trips);
  }

  // ------------------------------------------------------------ a whole write

  /** How many blocks the bytes from off to off + n lie in. */
  function Blocks(off: nat, n: nat): nat {
    if n == 0 then 0 else (off + n - 1) / BSIZE - off / BSIZE + 1
  }

  /** How many blocks a write of n bytes tries to get if the first `can` bytes of its source are accessible: the copy
      that fails is made when the block is there. */
  function Tries(off: nat, n: nat, can: nat): nat {
    if n <= can then Blocks(off, n) else Blocks(off, can + 1)
  }

  /** What a write of n bytes at off has done to the free blocks when it ends after tot bytes. It finds the disk full if
      and only if there are fewer blocks than it takes, and stops then where they end. */
  ghost predicate Spent(c0: nat, f0: set<Slot>, c1: nat, f1: set<Slot>, i: nat, off: nat, n: nat, can: nat, tot: nat,
                        full: bool) {
    && (full <==> c0 < Need(f0, i, off / BSIZE, Tries(off, n, can)))
    && if full then RanOut(c0, f0, c1, f1, i, off / BSIZE, (off + tot) / BSIZE - off / BSIZE)
       else Paid(c0, f0, c1, f1, i, off / BSIZE, Tries(off, n, can))
  }

  /** Where the loop is after `trips` trips; `ok` says that it goes on. */
  ghost predicate Place(off: nat, tot: nat, n: nat, can: nat, trips: nat, ok: bool, full: bool) {
    && tot <= n && tot <= can
    && (ok && tot < n ==> (off + tot) / BSIZE == off / BSIZE + trips && !full)
    && (tot == n ==> trips == Tries(off, n, can) && !full)
    && (!ok && !full ==> trips == Tries(off, n, can))
    && (full ==> 0 < trips <= Tries(off, n, can) && (off + tot) / BSIZE == off / BSIZE + trips - 1)
  }

  lemma PlaceStart(off: nat, n: nat, can: nat)
    ensures Place(off, 0, n, can, 0, true, false)
  {
  }

  lemma PlaceStep(off: nat, tot: nat, n: nat, can: nat, trips: nat, ok: bool, full: bool, m: nat, tot': nat)
    requires Place(off, tot, n, can, trips, true, false) && tot < n && tot <= can
    requires 0 < m <= n - tot && (off + tot) % BSIZE + m <= BSIZE
    requires tot + m == n || (off + tot + m) % BSIZE == 0
    requires (ok <==> tot + m <= can && !full) && tot' == if ok then tot + m else tot
    ensures Place(off, tot', n, can, trips + 1, ok, full)
  {
    if ok && tot' == n {
      assert (off + n - 1) / BSIZE == (off + tot) / BSIZE;
    } else if !ok && !full {
      assert (off + can) / BSIZE == (off + tot) / BSIZE;
    } else if ok {
      assert (off + tot') / BSIZE == (off + tot) / BSIZE + 1;
    }
  }

  lemma AtBlock(off: nat, tot: nat, n: nat, can: nat, trips: nat, pos: nat)
    requires Place(off, tot, n, can, trips, true, false) && tot < n && pos == off + tot
    ensures pos / BSIZE == off / BSIZE + trips
  {
  }

  lemma PlaceEnd(c0: nat, f0: set<Slot>, c1: nat, f1: set<Slot>, i: nat, off: nat, n: nat, can: nat, tot: nat,
                 trips: nat, ok: bool, full: bool)
    requires Place(off, tot, n, can, trips, ok, full) && (ok ==> tot == n)
    requires Outlay(c0, f0, c1, f1, i, off / BSIZE, trips, full)
    ensures Spent(c0, f0, c1, f1, i, off, n, can, tot, full)
  {
    hide Tries;
    if full {
      NeedGrows(f0, i, off / BSIZE, trips, Tries(off, n, can));
    }
  }

  // ---------------------------------------------------------- the blocks added

  /** Blocks that belong to a slot go on belonging to it. */
  ghost predicate Extends(o0: map<int, Slot>, o1: map<int, Slot>) {
    forall b {:trigger b in o0} :: b in o0 ==> b in o1 && o1[b] == o0[b]
  }

  lemma ExtendsRefl(owner: map<int, Slot>)
    ensures Extends(owner, owner)
  {
  }

  lemma ExtendsTrans(o0: map<int, Slot>, o1: map<int, Slot>, o2: map<int, Slot>)
    requires Extends(o0, o1) && Extends(o1, o2)
    ensures Extends(o0, o2)
  {
  }

  lemma GrownExtends(g: Geometry, blocks: seq<Block>, addrs: seq<seq<int>>, owner: map<int, Slot>, blocks': seq<Block>,
                     addrs': seq<seq<int>>, owner': map<int, Slot>, i: nat)
    requires Grown(g, blocks, addrs, owner, blocks', addrs', owner', i)
    ensures Extends(owner, owner')
  {
    hide Ptr;
  }

  /** Every block added belongs to file i, as its indirect block or at a position before `end`. */
  ghost predicate Added(o0: map<int, Slot>, o1: map<int, Slot>, i: nat, end: nat) {
    forall b {:trigger b in o1} :: b in o1 && b !in o0 ==>
      o1[b] == Root(i) || (o1[b] == FileSlot(i, Index(o1[b])) && Index(o1[b]) * BSIZE < end)
  }

  /** A slot that a new block belongs to was empty. */
  lemma NewSlot(g: Geometry, blocks: seq<Block>, addrs: seq<seq<int>>, o0: map<int, Slot>, o1: map<int, Slot>, b: int)
    requires Owned(g, blocks, addrs, o1) && Extends(o0, o1) && b in o1 && b !in o0
    ensures o1[b] !in Filled(o0) && o1[b] in Filled(o1)
  {
    hide Ptr, IsSlot;
  }

  /** How far a write gets as regards blocks: to the end of what it counts if the disk is full, and otherwise to the
      end of its source or the first byte of it that is not accessible. */
  function Extent(off: nat, n: nat, can: nat, tot: nat, full: bool): nat {
    off + if full then tot else if n <= can then n else can + 1
  }

  lemma SpentAdded(g: Geometry, blocks: seq<Block>, addrs: seq<seq<int>>, o0: map<int, Slot>, o1: map<int, Slot>,
      i: nat,
                   c0: nat, c1: nat, off: nat, n: nat, can: nat, tot: nat, full: bool)
    requires Owned(g, blocks, addrs, o1) && Extends(o0, o1) && tot <= n
    requires Spent(c0, Filled(o0), c1, Filled(o1), i, off, n, can, tot, full)
    requires tot == 0 || (off + tot) % BSIZE == 0 || !full
    ensures Added(o0, o1, i, Extent(off, n, can, tot, full))
  {
    hide Owned, Extends, Filled, Need, Fill;
    var bn := off / BSIZE;
    var k := if full then (off + tot) / BSIZE - bn else Tries(off, n, can);
    forall b {:trigger b in o1} | b in o1 && b !in o0
      ensures o1[b] == Root(i)
              || (o1[b] == FileSlot(i, Index(o1[b])) && Index(o1[b]) * BSIZE < Extent(off, n, can, tot, full))
    {
      NewSlot(g, blocks, addrs, o0, o1, b);
      FillIs(Filled(o0), i, bn, k, o1[b]);
      if !o1[b].Root? {
        InExtent(off, n, can, tot, full, Index(o1[b]));
      }
    }
  }

  lemma InExtent(off: nat, n: nat, can: nat, tot: nat, full: bool, x: nat)
    requires tot == 0 || (off + tot) % BSIZE == 0 || !full
    requires x < off / BSIZE + if full then (off + tot) / BSIZE - off / BSIZE else Tries(off, n, can)
    requires off / BSIZE <= x
    ensures x * BSIZE < Extent(off, n, can, tot, full)
  {
  }
}
