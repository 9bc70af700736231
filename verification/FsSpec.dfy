/** What the blocks of the file system mean (kernel/fs.c): which block holds which part of
    which inode, who owns each allocated block, and the byte sequence a file amounts to.
    Everything here is a value; FsCode is the code that works on it. */
module FsSpec {
  import opened FsBlocks
  import opened Params

  const NDIRECT := 12
  const MAXFILE := NDIRECT + NINDIRECT
  const IPB := 16            // inodes per block
  const UINT := 0x1_0000_0000

  /** The superblock fields that matter, and the first data block. */
  datatype Geometry = Geometry(size: nat, ninodes: nat, inodestart: nat, bmapstart: nat, datastart: nat) {
    predicate Ok() {
      && 0 < inodestart && inodestart + ninodes / IPB < bmapstart
      && bmapstart + size / BPB < datastart <= size < UINT
    }

    function InodeBlock(i: nat): nat { i / IPB + inodestart }
    function MapBlockOf(b: nat): nat { b / BPB + bmapstart }
  }

  /** The places that can hold a block number: a direct address or the indirect address of
      an inode, or an entry of its indirect block. */
  datatype Slot = Direct(i: nat, k: nat) | Root(i: nat) | Leaf(i: nat, j: nat)

  predicate IsSlot(n: nat, sl: Slot) {
    match sl
    case Direct(i, k) => i < n && k < NDIRECT
    case Root(i) => i < n
    case Leaf(i, j) => i < n && j < NINDIRECT
  }

  predicate Table(n: nat, addrs: seq<seq<int>>) {
    |addrs| == n && forall i :: 0 <= i < n ==> |addrs[i]| == NDIRECT + 1
  }

  /** The block number a slot holds, 0 if none. */
  function Ptr(blocks: seq<Block>, addrs: seq<seq<int>>, sl: Slot): int {
    match sl
    case Direct(i, k) => if i < |addrs| && k < |addrs[i]| then addrs[i][k] else 0
    case Root(i) => RootOf(addrs, i)
    case Leaf(i, j) =>
      var r := RootOf(addrs, i);
      if 0 < r < |blocks| && |blocks[r]| == BSIZE && j < NINDIRECT then WordAt(blocks[r], j) else 0
  }

  function RootOf(addrs: seq<seq<int>>, i: nat): int {
    if i < |addrs| && NDIRECT < |addrs[i]| then addrs[i][NDIRECT] else 0
  }

  /** The slot of the bn-th block of file i. */
  function FileSlot(i: nat, bn: nat): Slot {
    if bn < NDIRECT then Direct(i, bn) else Leaf(i, bn - NDIRECT)
  }

  // -------------------------------------------------------------- ownership

  /** `owner` is a bijection between the blocks in use and the slots in use. */
  ghost predicate Owned(g: Geometry, blocks: seq<Block>, addrs: seq<seq<int>>, owner: map<int, Slot>) {
    && (forall b ::
         b in owner ==> g.datastart <= b < g.size && IsSlot(g.ninodes, owner[b]) && Ptr(blocks, addrs, owner[b]) == b)
    && (forall sl {:trigger Ptr(blocks, addrs, sl)} ::
          IsSlot(g.ninodes, sl) && Ptr(blocks, addrs, sl) != 0 ==>
          Ptr(blocks, addrs, sl) in owner && owner[Ptr(blocks, addrs, sl)] == sl)
  }

  /** A bit is set exactly for metadata, for owned blocks and for those just allocated. */
  ghost predicate Marked(g: Geometry, used: seq<bool>, owner: map<int, Slot>, held: set<int>) {
    && |used| == g.size
    && (forall b {:trigger used[b]} :: 0 <= b < g.size ==> (used[b] <==> b < g.datastart || b in owner || b in held))
    && (forall b :: b in held ==> g.datastart <= b < g.size && b !in owner)
  }

  /** The bitmap blocks spell out `used`. */
  ghost predicate Spells(g: Geometry, bitmap: seq<MapBlock>, used: seq<bool>) {
    && |used| == g.size && |bitmap| == g.size / BPB + 1
    && (forall m :: 0 <= m < |bitmap| ==> |bitmap[m]| == BSIZE)
    && (forall b :: 0 <= b < g.size ==> used[b] == BitAt(bitmap[b / BPB], b % BPB))
  }

  lemma SpellsChange(g: Geometry, bitmap: seq<MapBlock>, used: seq<bool>, b: nat)
    requires Spells(g, bitmap, used) && b < g.size
    ensures |used| == g.size && b / BPB < |bitmap| && |bitmap[b / BPB]| == BSIZE
            && used[b] == BitAt(bitmap[b / BPB], b % BPB)
    ensures Spells(g, bitmap[b / BPB := SetBit(bitmap[b / BPB], b % BPB)], used[b := true])
    ensures Spells(g, bitmap[b / BPB := ClearBit(bitmap[b / BPB], b % BPB)], used[b := false])
  {
    hide BitAt;
    forall c | 0 <= c < g.size && c / BPB == b / BPB
      ensures BitAt(SetBit(bitmap[b / BPB], b % BPB), c % BPB) == (c == b || used[c])
      ensures BitAt(ClearBit(bitmap[b / BPB], b % BPB), c % BPB) == (c != b && used[c])
    {
      BitChanges(bitmap[b / BPB], b % BPB, c % BPB);
      assert c % BPB == b % BPB ==> c == b;
    }
  }

  /** An empty disk. */
  lemma NothingOwned(g: Geometry, blocks: seq<Block>, addrs: seq<seq<int>>)
    requires Table(g.ninodes, addrs) && forall i, k :: 0 <= i < g.ninodes && 0 <= k <= NDIRECT ==> addrs[i][k] == 0
    ensures Owned(g, blocks, addrs, map[])
  {
  }

  lemma NothingSpelled(g: Geometry, bitmap: seq<MapBlock>, used: seq<bool>)
    requires |used| == g.size && |bitmap| == g.size / BPB + 1
    requires forall m :: 0 <= m < |bitmap| ==> |bitmap[m]| == BSIZE && forall k :: 0 <= k < BSIZE ==> bitmap[m][k] == 0
    requires forall b :: 0 <= b < g.size ==> !used[b]
    ensures Spells(g, bitmap, used)
  {
  }

  lemma SpelledBit(g: Geometry, bitmap: seq<MapBlock>, used: seq<bool>, base: nat, bi: nat)
    requires Spells(g, bitmap, used) && base % BPB == 0 && bi < BPB && base + bi < g.size
    ensures |used| == g.size && base / BPB < |bitmap| && |bitmap[base / BPB]| == BSIZE
    ensures used[base + bi] == Has(bitmap[base / BPB][bi / 8], bi % 8)
  {
    assert (base + bi) / BPB == base / BPB && (base + bi) % BPB == bi;
  }

  lemma MarkedAlloc(g: Geometry, used: seq<bool>, owner: map<int, Slot>, held: set<int>, b: int)
    requires Marked(g, used, owner, held) && 0 <= b < g.size && !used[b]
    ensures |used| == g.size && g.datastart <= b && b !in owner && b !in held
            && Marked(g, used[b := true], owner, held + {b})
  {
  }

  lemma MarkedRecord(g: Geometry, used: seq<bool>, owner: map<int, Slot>, held: set<int>, b: int, sl: Slot)
    requires Marked(g, used, owner, held) && b in held
    ensures Marked(g, used, owner[b := sl], held - {b}) && g.datastart <= b < g.size && b !in owner
  {
  }

  lemma MarkedFree(g: Geometry, used: seq<bool>, owner: map<int, Slot>, held: set<int>, b: int)
    requires Marked(g, used, owner, held) && b in owner && g.datastart <= b < g.size
    ensures used[b] && Marked(g, used[b := false], owner - {b}, held)
  {
  }

  /** In plain terms, between operations: a block's bit is set if and only if it is metadata or some slot
      holds it, no block is held by two slots, and only data blocks are held. */
  lemma HeldExactlyOnce(g: Geometry, blocks: seq<Block>, addrs: seq<seq<int>>, used: seq<bool>, owner: map<int, Slot>)
    requires Marked(g, used, owner, {}) && Owned(g, blocks, addrs, owner) && g.Ok()
    ensures forall b :: 0 <= b < g.size ==>
              (used[b] <==> b < g.datastart || exists sl :: IsSlot(g.ninodes, sl) && Ptr(blocks, addrs, sl) == b)
    ensures forall s1, s2 {:trigger Ptr(blocks, addrs, s1), Ptr(blocks, addrs, s2)} ::
              IsSlot(g.ninodes, s1) && IsSlot(g.ninodes, s2) &&
              Ptr(blocks, addrs, s1) == Ptr(blocks, addrs, s2) != 0 ==>
                s1 == s2
    ensures forall sl {:trigger Ptr(blocks, addrs, sl)} ::
              IsSlot(g.ninodes, sl) && Ptr(blocks, addrs, sl) != 0 ==> g.datastart <= Ptr(blocks, addrs, sl) < g.size
  {
    hide Ptr, IsSlot;
    forall b | 0 <= b < g.size
      ensures used[b] <==> b < g.datastart || exists sl :: IsSlot(g.ninodes, sl) && Ptr(blocks, addrs, sl) == b
    {
      if b in owner {
        assert IsSlot(g.ninodes, owner[b]) && Ptr(blocks, addrs, owner[b]) == b;
      }
    }
  }

  // Each way the code changes blocks or addresses keeps the bijection.

  /** Writing a block that is not an indirect block changes no pointer. */
  lemma OwnedWrite(g: Geometry, blocks: seq<Block>, addrs: seq<seq<int>>, owner: map<int, Slot>, b: nat, data: Block)
    requires Owned(g, blocks, addrs, owner) && Table(g.ninodes, addrs) && b < |blocks|
    requires b in owner ==> !owner[b].Root?
    ensures Owned(g, blocks[b := data], addrs, owner)
    ensures forall sl {:trigger Ptr(blocks[b := data], addrs, sl)} ::
              IsSlot(g.ninodes, sl) ==> Ptr(blocks[b := data], addrs, sl) == Ptr(blocks, addrs, sl)
  {
    hide WordAt;
    forall sl | IsSlot(g.ninodes, sl)
      ensures Ptr(blocks[b := data], addrs, sl) == Ptr(blocks, addrs, sl)
    {
      if sl.Leaf? {
        assert Ptr(blocks, addrs, Root(sl.i)) == RootOf(addrs, sl.i);
      }
    }
  }

  /** Block b put into the empty slot sl, and no other slot changed. */
  lemma OwnedPut(g: Geometry, b0: seq<Block>, a0: seq<seq<int>>, b1: seq<Block>, a1: seq<seq<int>>,
      owner: map<int, Slot>, sl: Slot, b: nat)
    requires Owned(g, b0, a0, owner) && g.Ok() && IsSlot(g.ninodes, sl) && b !in owner && g.datastart <= b < g.size
    requires Ptr(b0, a0, sl) == 0 && Ptr(b1, a1, sl) == b
    requires forall t {:trigger Ptr(b1, a1, t)} :: IsSlot(g.ninodes, t) && t != sl ==> Ptr(b1, a1, t) == Ptr(b0, a0, t)
    ensures Owned(g, b1, a1, owner[b := sl])
  {
    hide Ptr, IsSlot;
    forall c | c in owner ensures Ptr(b1, a1, owner[c]) == c {
      assert Ptr(b0, a0, owner[c]) == c;
    }
  }

  lemma OwnedDirect(g: Geometry, blocks: seq<Block>, addrs: seq<seq<int>>, owner: map<int, Slot>, i: nat, k: nat,
      b: nat)
    requires Owned(g, blocks, addrs, owner) && Table(g.ninodes, addrs) && i < g.ninodes && k < NDIRECT
    requires addrs[i][k] == 0 && b !in owner && g.datastart <= b < g.size && g.Ok()
    ensures Owned(g, blocks, addrs[i := addrs[i][k := b]], owner[b := Direct(i, k)])
    ensures forall sl {:trigger Ptr(blocks, addrs[i := addrs[i][k := b]], sl)} ::
              IsSlot(g.ninodes, sl) && sl != Direct(i, k) ==>
                  Ptr(blocks, addrs[i := addrs[i][k := b]], sl) == Ptr(blocks, addrs, sl)
  {
    hide Owned;
    var after := addrs[i := addrs[i][k := b]];
    forall sl | IsSlot(g.ninodes, sl) && sl != Direct(i, k)
      ensures Ptr(blocks, after, sl) == Ptr(blocks, addrs, sl)
    {
    }
    OwnedPut(g, blocks, addrs, blocks, after, owner, Direct(i, k), b);
  }

  lemma OwnedRoot(g: Geometry, blocks: seq<Block>, addrs: seq<seq<int>>, owner: map<int, Slot>, i: nat, b: nat)
    requires Owned(g, blocks, addrs, owner) && Table(g.ninodes, addrs) && i < g.ninodes
    requires addrs[i][NDIRECT] == 0 && b !in owner && g.datastart <= b < g.size == |blocks| && g.Ok()
             && blocks[b] == Zeros()
    ensures Owned(g, blocks, addrs[i := addrs[i][NDIRECT := b]], owner[b := Root(i)])
    ensures forall sl {:trigger Ptr(blocks, addrs[i := addrs[i][NDIRECT := b]], sl)} ::
              IsSlot(g.ninodes, sl) && sl != Root(i) ==>
                  Ptr(blocks, addrs[i := addrs[i][NDIRECT := b]], sl) == Ptr(blocks, addrs, sl)
  {
    hide WordAt, Zeros, Owned;
    var after := addrs[i := addrs[i][NDIRECT := b]];
    forall sl | IsSlot(g.ninodes, sl) && sl != Root(i)
      ensures Ptr(blocks, after, sl) == Ptr(blocks, addrs, sl)
    {
      if sl.Leaf? && sl.i == i { ZeroWord(sl.j); }
    }
    OwnedPut(g, blocks, addrs, blocks, after, owner, Root(i), b);
  }

  /** No two inodes share an indirect block. */
  lemma RootsApart(g: Geometry, blocks: seq<Block>, addrs: seq<seq<int>>, owner: map<int, Slot>, i: nat, k: nat)
    requires Owned(g, blocks, addrs, owner) && i < g.ninodes && k < g.ninodes
    ensures RootOf(addrs, i) == RootOf(addrs, k) != 0 ==> i == k
  {
    assert Ptr(blocks, addrs, Root(i)) == RootOf(addrs, i);
    assert Ptr(blocks, addrs, Root(k)) == RootOf(addrs, k);
  }

  lemma OwnedLeaf(g: Geometry, blocks: seq<Block>, addrs: seq<seq<int>>, owner: map<int, Slot>, i: nat, j: nat, b: nat)
    requires Owned(g, blocks, addrs, owner) && Table(g.ninodes, addrs) && i < g.ninodes && j < NINDIRECT
    requires 0 < addrs[i][NDIRECT] < |blocks| && |blocks[addrs[i][NDIRECT]]| == BSIZE
    requires Ptr(blocks, addrs, Leaf(i, j)) == 0
    requires b !in owner && g.datastart <= b < g.size && g.Ok()
    ensures var r := addrs[i][NDIRECT];
            Owned(g, blocks[r := PutWord(blocks[r], j, b)], addrs, owner[b := Leaf(i, j)])
    ensures var r := addrs[i][NDIRECT];
            forall sl {:trigger Ptr(blocks[r := PutWord(blocks[r], j, b)], addrs, sl)} ::
              IsSlot(g.ninodes, sl) && sl != Leaf(i, j) ==>
              Ptr(blocks[r := PutWord(blocks[r], j, b)], addrs, sl) == Ptr(blocks, addrs, sl)
  {
    hide WordAt, PutWord, Owned;
    var r := addrs[i][NDIRECT];
    var after := blocks[r := PutWord(blocks[r], j, b)];
    forall sl | IsSlot(g.ninodes, sl) && sl != Leaf(i, j)
      ensures Ptr(after, addrs, sl) == Ptr(blocks, addrs, sl)
    {
      if sl.Leaf? {
        RootsApart(g, blocks, addrs, owner, i, sl.i);
        PutWordAt(blocks[r], j, b, sl.j);
      }
    }
    PutWordAt(blocks[r], j, b, j);
    OwnedPut(g, blocks, addrs, after, addrs, owner, Leaf(i, j), b);
  }

  // ---------------------------------------------------------- file contents

  /** Every block below the size is allocated. */
  ghost predicate Dense(blocks: seq<Block>, addrs: seq<seq<int>>, i: nat, size: int) {
    && 0 <= size <= MAXFILE * BSIZE
    && forall bn: nat {:trigger FileSlot(i, bn)} :: bn * BSIZE < size ==> Ptr(blocks, addrs, FileSlot(i, bn)) != 0
  }

  /** Byte `pos` of file i. */
  function Byte(blocks: seq<Block>, addrs: seq<seq<int>>, i: nat, pos: nat): int {
    var p := Ptr(blocks, addrs, FileSlot(i, pos / BSIZE));
    if 0 < p < |blocks| && |blocks[p]| == BSIZE then blocks[p][pos % BSIZE] else 0
  }

  /** The byte sequence that a file of the given size is. */
  function Content(blocks: seq<Block>, addrs: seq<seq<int>>, i: nat, size: nat): (c: seq<int>)
    ensures |c| == size && forall pos :: 0 <= pos < size ==> c[pos] == Byte(blocks, addrs, i, pos)
  {
    seq(size, pos requires 0 <= pos < size => Byte(blocks, addrs, i, pos))
  }

  /** The allocated blocks of file i are where they were and hold what they held. */
  ghost predicate SameData(blocks: seq<Block>, addrs: seq<seq<int>>, blocks': seq<Block>, addrs': seq<seq<int>>,
      i: nat) {
    && |blocks| == |blocks'|
    && forall bn: nat {:trigger FileSlot(i, bn)} ::
         bn < MAXFILE && 0 < Ptr(blocks, addrs, FileSlot(i, bn)) < |blocks| ==>
         && Ptr(blocks', addrs', FileSlot(i, bn)) == Ptr(blocks, addrs, FileSlot(i, bn))
         && blocks'[Ptr(blocks, addrs, FileSlot(i, bn))] == blocks[Ptr(blocks, addrs, FileSlot(i, bn))]
  }

  lemma SameContent(g: Geometry, blocks: seq<Block>, addrs: seq<seq<int>>, owner: map<int, Slot>,
                    blocks': seq<Block>, addrs': seq<seq<int>>, i: nat, size: nat)
    requires Owned(g, blocks, addrs, owner) && g.Ok() && g.size == |blocks| && i < g.ninodes
    requires Dense(blocks, addrs, i, size) && SameData(blocks, addrs, blocks', addrs', i)
    ensures Content(blocks', addrs', i, size) == Content(blocks, addrs, i, size) && Dense(blocks', addrs', i, size)
  {
    forall bn: nat | bn * BSIZE < size ensures 0 < Ptr(blocks, addrs, FileSlot(i, bn)) < |blocks| && bn < MAXFILE {
      assert IsSlot(g.ninodes, FileSlot(i, bn));
    }
    forall pos | 0 <= pos < size ensures Byte(blocks', addrs', i, pos) == Byte(blocks, addrs, i, pos) {
      assert (pos / BSIZE) * BSIZE < size;
    }
  }

  lemma {:induction false} SameDataTrans(b0: seq<Block>, a0: seq<seq<int>>, b1: seq<Block>, a1: seq<seq<int>>,
                      b2: seq<Block>, a2: seq<seq<int>>, i: nat)
    requires SameData(b0, a0, b1, a1, i) && SameData(b1, a1, b2, a2, i)
    ensures SameData(b0, a0, b2, a2, i)
  {
  }

  /** Block contents with `chunk` written over it from position `at`. */
  function Splice(blk: Block, at: nat, chunk: seq<int>): (r: Block)
    requires at + |chunk| <= |blk|
    ensures |r| == |blk|
    ensures forall k :: 0 <= k < |blk| ==> r[k] == if at <= k < at + |chunk| then chunk[k - at] else blk[k]
  {
    blk[..at] + chunk + blk[at + |chunk|..]
  }

  /** Storing over block p, the bn-th of file i, keeps every pointer and the data of every
      other file, and changes no byte of file i outside that block. */
  lemma BlockStored(g: Geometry, blocks: seq<Block>, addrs: seq<seq<int>>, owner: map<int, Slot>, i: nat, bn: nat,
      data: Block)
    requires Owned(g, blocks, addrs, owner) && Table(g.ninodes, addrs) && g.Ok() && |blocks| == g.size
    requires i < g.ninodes && bn < MAXFILE && Ptr(blocks, addrs, FileSlot(i, bn)) != 0
    ensures var p := Ptr(blocks, addrs, FileSlot(i, bn));
            && 0 < p < |blocks| && p in owner && !owner[p].Root?
            && Owned(g, blocks[p := data], addrs, owner)
            && (forall sl {:trigger Ptr(blocks[p := data], addrs, sl)} ::
                  IsSlot(g.ninodes, sl) ==> Ptr(blocks[p := data], addrs, sl) == Ptr(blocks, addrs, sl))
            && (forall k {:trigger SameData(blocks, addrs, blocks[p := data], addrs, k)} ::
                  0 <= k < g.ninodes && k != i ==> SameData(blocks, addrs, blocks[p := data], addrs, k))
  {
    var p := Ptr(blocks, addrs, FileSlot(i, bn));
    assert IsSlot(g.ninodes, FileSlot(i, bn));
    OwnedWrite(g, blocks, addrs, owner, p, data);
    forall k {:trigger SameData(blocks, addrs, blocks[p := data], addrs, k)} | 0 <= k < g.ninodes && k != i
      ensures SameData(blocks, addrs, blocks[p := data], addrs, k)
    {
      forall m: nat | m < MAXFILE && 0 < Ptr(blocks, addrs, FileSlot(k, m)) < |blocks|
        ensures Ptr(blocks[p := data], addrs, FileSlot(k, m)) == Ptr(blocks, addrs, FileSlot(k, m)) != p
      {
        assert IsSlot(g.ninodes, FileSlot(k, m));
      }
    }
  }

  /** A chunk written into one block of file i: the bytes it covers read as the chunk and all
      others as before. */
  lemma ChunkBytes(g: Geometry, blocks: seq<Block>, addrs: seq<seq<int>>, owner: map<int, Slot>,
                   i: nat, bn: nat, at: nat, chunk: seq<int>, pos: nat)
    requires Owned(g, blocks, addrs, owner) && Table(g.ninodes, addrs) && g.Ok() && |blocks| == g.size && Sized(blocks)
    requires i < g.ninodes && bn < MAXFILE && Ptr(blocks, addrs, FileSlot(i, bn)) != 0 && at + |chunk| <= BSIZE
    requires pos / BSIZE < MAXFILE && 0 < Ptr(blocks, addrs, FileSlot(i, bn)) < |blocks|
    ensures var p := Ptr(blocks, addrs, FileSlot(i, bn));
            var from := bn * BSIZE + at;
            Byte(blocks[p := Splice(blocks[p], at, chunk)], addrs, i, pos) ==
            if from <= pos < from + |chunk| then chunk[pos - from] else Byte(blocks, addrs, i, pos)
  {
    var p := Ptr(blocks, addrs, FileSlot(i, bn));
    BlockStored(g, blocks, addrs, owner, i, bn, Splice(blocks[p], at, chunk));
    var sl := FileSlot(i, pos / BSIZE);
    assert IsSlot(g.ninodes, sl) && IsSlot(g.ninodes, FileSlot(i, bn));
    if pos / BSIZE != bn {
      assert sl != FileSlot(i, bn);
      assert Ptr(blocks, addrs, sl) != p;
    }
  }

  // ------------------------------------------------------- growth of file i

  /** From one state to the next, only file i may have gained blocks: pointers in use are kept,
      the other files' are all kept, and no data block has changed. */
  ghost predicate Grown(g: Geometry, blocks: seq<Block>, addrs: seq<seq<int>>, owner: map<int, Slot>,
                        blocks': seq<Block>, addrs': seq<seq<int>>, owner': map<int, Slot>, i: nat) {
    && |blocks'| == |blocks| == g.size
    && (forall b ::
         b in owner ==>
           b in owner' && owner'[b] == owner[b] && (!owner[b].Root? && 0 <= b < |blocks| ==> blocks'[b] == blocks[b]))
    && (forall sl {:trigger Ptr(blocks', addrs', sl)} ::
         IsSlot(g.ninodes, sl) && (Ptr(blocks, addrs, sl) != 0 || sl.i != i) ==>
          Ptr(blocks', addrs', sl) == Ptr(blocks, addrs, sl))
  }

  lemma GrownRefl(g: Geometry, blocks: seq<Block>, addrs: seq<seq<int>>, owner: map<int, Slot>, i: nat)
    requires |blocks| == g.size
    ensures Grown(g, blocks, addrs, owner, blocks, addrs, owner, i)
  {
  }

  lemma GrownTrans(g: Geometry, b0: seq<Block>, a0: seq<seq<int>>, o0: map<int, Slot>, b1: seq<Block>,
      a1: seq<seq<int>>,
                   o1: map<int, Slot>, b2: seq<Block>, a2: seq<seq<int>>, o2: map<int, Slot>, i: nat)
    requires Grown(g, b0, a0, o0, b1, a1, o1, i) && Grown(g, b1, a1, o1, b2, a2, o2, i)
    ensures Grown(g, b0, a0, o0, b2, a2, o2, i)
  {
    hide Ptr;
    forall sl {:trigger Ptr(b2, a2, sl)} | IsSlot(g.ninodes, sl) && (Ptr(b0, a0, sl) != 0 || sl.i != i)
      ensures Ptr(b2, a2, sl) == Ptr(b0, a0, sl)
    {
      assert Ptr(b1, a1, sl) == Ptr(b0, a0, sl);
    }
  }

  /** The file itself keeps its data too. */
  lemma GrownSameData(g: Geometry, blocks: seq<Block>, addrs: seq<seq<int>>, owner: map<int, Slot>,
                      blocks': seq<Block>, addrs': seq<seq<int>>, owner': map<int, Slot>, i: nat, k: nat)
    requires Owned(g, blocks, addrs, owner) && Grown(g, blocks, addrs, owner, blocks', addrs', owner', i)
             && k < g.ninodes
    ensures SameData(blocks, addrs, blocks', addrs', k)
  {
    hide Ptr;
    forall bn: nat | bn < MAXFILE && 0 < Ptr(blocks, addrs, FileSlot(k, bn)) < |blocks|
      ensures Ptr(blocks', addrs', FileSlot(k, bn)) == Ptr(blocks, addrs, FileSlot(k, bn))
      ensures blocks'[Ptr(blocks, addrs, FileSlot(k, bn))] == blocks[Ptr(blocks, addrs, FileSlot(k, bn))]
    {
      assert IsSlot(g.ninodes, FileSlot(k, bn));
    }
  }

  lemma GrownAlloc(g: Geometry, blocks: seq<Block>, addrs: seq<seq<int>>, owner: map<int, Slot>, b: nat, i: nat)
    requires Owned(g, blocks, addrs, owner) && Table(g.ninodes, addrs) && b < |blocks| == g.size && b !in owner
    ensures Grown(g, blocks, addrs, owner, blocks[b := Zeros()], addrs, owner, i)
  {
    hide Zeros;
    OwnedWrite(g, blocks, addrs, owner, b, Zeros());
  }

  lemma GrownDirect(g: Geometry, blocks: seq<Block>, addrs: seq<seq<int>>, owner: map<int, Slot>, i: nat, k: nat,
      b: nat)
    requires Owned(g, blocks, addrs, owner) && Table(g.ninodes, addrs) && i < g.ninodes && k < NDIRECT
    requires addrs[i][k] == 0 && b !in owner && g.datastart <= b < g.size == |blocks| && g.Ok()
    ensures var addrs' := addrs[i := addrs[i][k := b]];
            var owner' := owner[b := Direct(i, k)];
            && Owned(g, blocks, addrs', owner') && Table(g.ninodes, addrs')
            && Grown(g, blocks, addrs, owner, blocks, addrs', owner', i) && Ptr(blocks, addrs', Direct(i, k)) == b
  {
    OwnedDirect(g, blocks, addrs, owner, i, k, b);
    assert Ptr(blocks, addrs, Direct(i, k)) == 0;
  }

  lemma GrownRoot(g: Geometry, blocks: seq<Block>, addrs: seq<seq<int>>, owner: map<int, Slot>, i: nat, b: nat)
    requires Owned(g, blocks, addrs, owner) && Table(g.ninodes, addrs) && i < g.ninodes
    requires addrs[i][NDIRECT] == 0 && b !in owner && g.datastart <= b < g.size == |blocks| && g.Ok()
             && blocks[b] == Zeros()
    ensures var addrs' := addrs[i := addrs[i][NDIRECT := b]];
            var owner' := owner[b := Root(i)];
            && Owned(g, blocks, addrs', owner') && Table(g.ninodes, addrs')
            && Grown(g, blocks, addrs, owner, blocks, addrs', owner', i) && RootOf(addrs', i) == b
  {
    hide Zeros;
    OwnedRoot(g, blocks, addrs, owner, i, b);
    assert Ptr(blocks, addrs, Root(i)) == 0;
  }

  lemma GrownLeaf(g: Geometry, blocks: seq<Block>, addrs: seq<seq<int>>, owner: map<int, Slot>, i: nat, j: nat, b: nat)
    requires Owned(g, blocks, addrs, owner) && Table(g.ninodes, addrs) && i < g.ninodes && j < NINDIRECT
    requires 0 < addrs[i][NDIRECT] < |blocks| == g.size && Sized(blocks) && Ptr(blocks, addrs, Leaf(i, j)) == 0
    requires b !in owner && g.datastart <= b < g.size && g.Ok()
    ensures var r := addrs[i][NDIRECT];
            var blocks' := blocks[r := PutWord(blocks[r], j, b)];
            var owner' := owner[b := Leaf(i, j)];
            && |blocks[r]| == BSIZE && Owned(g, blocks', addrs, owner') && Sized(blocks')
            && Grown(g, blocks, addrs, owner, blocks', addrs, owner', i) && Ptr(blocks', addrs, Leaf(i, j)) == b
            && r in owner
  {
    hide WordAt, PutWord;
    var r := addrs[i][NDIRECT];
    OwnedLeaf(g, blocks, addrs, owner, i, j, b);
    assert Ptr(blocks, addrs, Root(i)) == r;
    PutWordAt(blocks[r], j, b, j);
  }

  // ---------------------------------------------------------- writing file i

  /** Between two states only bytes [lo, hi) of file i may have changed: every other file has
      its data, file i keeps its blocks and its bytes outside the range. */
  ghost predicate Wrote(n: nat, blocks: seq<Block>, addrs: seq<seq<int>>, blocks': seq<Block>, addrs': seq<seq<int>>,
                        i: nat, lo: nat, hi: nat) {
    && |blocks'| == |blocks|
    && (forall k {:trigger SameData(blocks, addrs, blocks', addrs', k)} ::
          0 <= k < n && k != i ==> SameData(blocks, addrs, blocks', addrs', k))
    && (forall bn: nat {:trigger FileSlot(i, bn)} :: bn < MAXFILE && Ptr(blocks, addrs, FileSlot(i, bn)) != 0 ==>
          Ptr(blocks', addrs', FileSlot(i, bn)) == Ptr(blocks, addrs, FileSlot(i, bn)))
    && (forall pos: nat {:trigger Byte(blocks', addrs', i, pos)} ::
          pos < MAXFILE * BSIZE && Ptr(blocks, addrs, FileSlot(i, pos / BSIZE)) != 0 && !(lo <= pos < hi) ==>
          Byte(blocks', addrs', i, pos) == Byte(blocks, addrs, i, pos))
  }

  /** The bytes of file i from lo on are `data`, in allocated blocks. */
  ghost predicate Reads(blocks: seq<Block>, addrs: seq<seq<int>>, i: nat, lo: nat, data: seq<int>) {
    forall q: nat {:trigger Byte(blocks, addrs, i, q)} :: lo <= q < lo + |data| ==>
      Byte(blocks, addrs, i, q) == data[q - lo] && Ptr(blocks, addrs, FileSlot(i, q / BSIZE)) != 0
  }

  lemma WroteTrans(n: nat, b0: seq<Block>, a0: seq<seq<int>>, b1: seq<Block>, a1: seq<seq<int>>,
                   b2: seq<Block>, a2: seq<seq<int>>, i: nat, lo: nat, mid: nat, hi: nat)
    requires Wrote(n, b0, a0, b1, a1, i, lo, mid) && Wrote(n, b1, a1, b2, a2, i, mid, hi) && lo <= mid <= hi
    ensures Wrote(n, b0, a0, b2, a2, i, lo, hi)
  {
    hide Ptr, Byte;
    forall k {:trigger SameData(b0, a0, b2, a2, k)} | 0 <= k < n && k != i ensures SameData(b0, a0, b2, a2, k) {
      SameDataTrans(b0, a0, b1, a1, b2, a2, k);
    }
    forall pos: nat {:trigger Byte(b2, a2, i, pos)} | pos < MAXFILE * BSIZE
      && Ptr(b0, a0, FileSlot(i, pos / BSIZE)) != 0 && !(lo <= pos < hi)
      ensures Byte(b2, a2, i, pos) == Byte(b0, a0, i, pos)
    {
      assert Byte(b1, a1, i, pos) == Byte(b0, a0, i, pos);
    }
  }

  lemma ReadsExtend(n: nat, b1: seq<Block>, a1: seq<seq<int>>, b2: seq<Block>, a2: seq<seq<int>>, i: nat,
                    lo: nat, data: seq<int>, more: seq<int>)
    requires lo + |data| + |more| <= MAXFILE * BSIZE
    requires Reads(b1, a1, i, lo, data) && Wrote(n, b1, a1, b2, a2, i, lo + |data|, lo + |data| + |more|)
    requires Reads(b2, a2, i, lo + |data|, more)
    ensures Reads(b2, a2, i, lo, data + more)
  {
    hide Ptr, Byte, FileSlot;
    if !Reads(b2, a2, i, lo, data + more) {
      var q: nat :| lo <= q < lo + |data + more|
        && !(Byte(b2, a2, i, q) == (data + more)[q - lo] && Ptr(b2, a2, FileSlot(i, q / BSIZE)) != 0);
      var before, after := Byte(b1, a1, i, q), Byte(b2, a2, i, q);
      assert false;
    }
  }

  /** One trip of the write loop: file i grows to include block bn, and then m bytes from
      position bn * BSIZE + at on are stored in it. */
  lemma ChunkWrote(g: Geometry, b0: seq<Block>, a0: seq<seq<int>>, o0: map<int, Slot>,
                   b1: seq<Block>, a1: seq<seq<int>>, o1: map<int, Slot>, i: nat, bn: nat, at: nat, chunk: seq<int>)
    requires Owned(g, b0, a0, o0) && Owned(g, b1, a1, o1) && Grown(g, b0, a0, o0, b1, a1, o1, i)
    requires Table(g.ninodes, a1) && g.Ok() && |b1| == g.size && Sized(b0) && Sized(b1) && i < g.ninodes && bn < MAXFILE
    requires Ptr(b1, a1, FileSlot(i, bn)) != 0 && at + |chunk| <= BSIZE
    ensures var p := Ptr(b1, a1, FileSlot(i, bn));
            && 0 < p < |b1| && |b1[p]| == BSIZE
            && var b2 := b1[p := Splice(b1[p], at, chunk)];
            && Owned(g, b2, a1, o1) && Sized(b2)
            && Wrote(g.ninodes, b0, a0, b2, a1, i, bn * BSIZE + at, bn * BSIZE + at + |chunk|)
            && Reads(b2, a1, i, bn * BSIZE + at, chunk)
  {
    var p := Ptr(b1, a1, FileSlot(i, bn));
    BlockStored(g, b1, a1, o1, i, bn, Splice(b1[p], at, chunk));
    var b2 := b1[p := Splice(b1[p], at, chunk)];
    var lo, hi := bn * BSIZE + at, bn * BSIZE + at + |chunk|;
    StoredWrote(g, b1, a1, o1, i, bn, at, chunk);
    GrownWrote(g, b0, a0, o0, b1, a1, o1, i, lo);
    WroteTrans(g.ninodes, b0, a0, b1, a1, b2, a1, i, lo, lo, hi);
  }

  lemma GrownWrote(g: Geometry, b0: seq<Block>, a0: seq<seq<int>>, o0: map<int, Slot>,
                   b1: seq<Block>, a1: seq<seq<int>>, o1: map<int, Slot>, i: nat, lo: nat)
    requires Owned(g, b0, a0, o0) && Grown(g, b0, a0, o0, b1, a1, o1, i) && i < g.ninodes && g.Ok()
    ensures Wrote(g.ninodes, b0, a0, b1, a1, i, lo, lo)
  {
    forall k {:trigger SameData(b0, a0, b1, a1, k)} | 0 <= k < g.ninodes ensures SameData(b0, a0, b1, a1, k) {
      GrownSameData(g, b0, a0, o0, b1, a1, o1, i, k);
    }
    hide Ptr, Grown;
    forall bn: nat {:trigger FileSlot(i, bn)} | bn < MAXFILE && Ptr(b0, a0, FileSlot(i, bn)) != 0
      ensures 0 < Ptr(b0, a0, FileSlot(i, bn)) < |b0|
    {
      assert IsSlot(g.ninodes, FileSlot(i, bn));
      GrownSize(g, b0, a0, o0, b1, a1, o1, i);
    }
    assert SameData(b0, a0, b1, a1, i);
  }

  lemma WroteStart(n: nat, blocks: seq<Block>, addrs: seq<seq<int>>, i: nat, lo: nat)
    ensures Wrote(n, blocks, addrs, blocks, addrs, i, lo, lo)
  {
  }

  lemma ReadsNone(blocks: seq<Block>, addrs: seq<seq<int>>, i: nat, lo: nat)
    ensures Reads(blocks, addrs, i, lo, [])
  {
  }

  lemma GrownSize(g: Geometry, b0: seq<Block>, a0: seq<seq<int>>, o0: map<int, Slot>,
                  b1: seq<Block>, a1: seq<seq<int>>, o1: map<int, Slot>, i: nat)
    requires Grown(g, b0, a0, o0, b1, a1, o1, i)
    ensures |b0| == |b1| == g.size
  {
  }

  lemma StoredWrote(g: Geometry, blocks: seq<Block>, addrs: seq<seq<int>>, owner: map<int, Slot>, i: nat, bn: nat,
      at: nat, chunk: seq<int>)
    requires Owned(g, blocks, addrs, owner) && Table(g.ninodes, addrs) && g.Ok() && |blocks| == g.size && Sized(blocks)
    requires i < g.ninodes && bn < MAXFILE && at + |chunk| <= BSIZE
    requires 0 < Ptr(blocks, addrs, FileSlot(i, bn)) < |blocks|
    ensures var p := Ptr(blocks, addrs, FileSlot(i, bn));
            var b2 := blocks[p := Splice(blocks[p], at, chunk)];
            && Wrote(g.ninodes, blocks, addrs, b2, addrs, i, bn * BSIZE + at, bn * BSIZE + at + |chunk|)
            && Reads(b2, addrs, i, bn * BSIZE + at, chunk)
  {
    var p := Ptr(blocks, addrs, FileSlot(i, bn));
    var b2 := blocks[p := Splice(blocks[p], at, chunk)];
    BlockStored(g, blocks, addrs, owner, i, bn, Splice(blocks[p], at, chunk));
    forall m: nat {:trigger FileSlot(i, m)} | m < MAXFILE
      ensures Ptr(b2, addrs, FileSlot(i, m)) == Ptr(blocks, addrs, FileSlot(i, m)) {
      assert IsSlot(g.ninodes, FileSlot(i, m));
    }
    forall pos: nat {:trigger Byte(b2, addrs, i, pos)} | pos < MAXFILE * BSIZE
      ensures var from := bn * BSIZE + at;
              Byte(b2, addrs, i, pos) == if from <= pos < from + |chunk| then chunk[pos - from]
                  else Byte(blocks, addrs, i, pos)
    {
      ChunkBytes(g, blocks, addrs, owner, i, bn, at, chunk, pos);
    }
    forall q: nat | bn * BSIZE + at <= q < bn * BSIZE + at + |chunk| ensures q / BSIZE == bn {
    }
  }

  lemma GrownRootKept(g: Geometry, b0: seq<Block>, a0: seq<seq<int>>, o0: map<int, Slot>,
                      b1: seq<Block>, a1: seq<seq<int>>, o1: map<int, Slot>, i: nat)
    requires Grown(g, b0, a0, o0, b1, a1, o1, i) && i < g.ninodes && RootOf(a0, i) != 0
    ensures RootOf(a1, i) == RootOf(a0, i)
  {
    assert Ptr(b0, a0, Root(i)) == RootOf(a0, i);
    assert Ptr(b1, a1, Root(i)) == RootOf(a1, i);
  }

  /** A file grown by writing from within it or from its end has no holes. */
  lemma DenseAfterWrite(n: nat, b0: seq<Block>, a0: seq<seq<int>>, b1: seq<Block>, a1: seq<seq<int>>, i: nat,
                        size: nat, off: nat, count: nat, data: seq<int>, hi: nat)
    requires Dense(b0, a0, i, size) && off <= size && count <= |data| && off + |data| <= MAXFILE * BSIZE
    requires Wrote(n, b0, a0, b1, a1, i, off, hi) && Reads(b1, a1, i, off, data)
    ensures Dense(b1, a1, i, if off + count > size then off + count else size)
  {
    hide Ptr;
    var size' := if off + count > size then off + count else size;
    forall bn: nat {:trigger FileSlot(i, bn)} | bn * BSIZE < size' ensures Ptr(b1, a1, FileSlot(i, bn)) != 0 {
      if bn * BSIZE >= size {
        var q := bn * BSIZE;
        assert q / BSIZE == bn;
        assert Byte(b1, a1, i, q) == data[q - off];
      }
    }
  }

  // ------------------------------------------------------------- flat files

  /** On flat byte sequences: `data` stored at `off`, of which the first `count` bytes are counted: the size grows to
      include those, the other bytes show as far as they are below the size, and nothing else changes. */
  ghost predicate FlatWritten(c0: seq<int>, c1: seq<int>, off: nat, count: nat, data: seq<int>) {
    && off <= |c0| && count <= |data| && |c1| == (if off + count > |c0| then off + count else |c0|)
    && forall pos {:trigger c1[pos]} ::
         0 <= pos < |c1| ==> c1[pos] == if off <= pos < off + |data| then data[pos - off] else c0[pos]
  }

  /** A write that counts all it stores is the flat overwrite. */
  lemma FlatExact(c0: seq<int>, c1: seq<int>, off: nat, data: seq<int>)
    requires FlatWritten(c0, c1, off, |data|, data)
    ensures c1 == c0[..off] + data + (if off + |data| < |c0| then c0[off + |data|..] else [])
  {
  }

  /** A byte within the file that is stored and not counted changes the file all the same. */
  lemma UncountedShows(c0: seq<int>, c1: seq<int>, off: nat, count: nat, data: seq<int>, k: nat)
    requires FlatWritten(c0, c1, off, count, data) && count <= k < |data| && off + k < |c0|
    ensures |c1| > off + k && c1[off + k] == data[k]
    ensures data[k] != c0[off + k] ==> !FlatWritten(c0, c1, off, count, data[..count])
  {
    var now := c1[off + k];
  }

  lemma FlatFromBlocks(n: nat, b0: seq<Block>, a0: seq<seq<int>>, b1: seq<Block>, a1: seq<seq<int>>, i: nat,
                       size: nat, off: nat, count: nat, data: seq<int>)
    requires Dense(b0, a0, i, size) && off <= size && count <= |data| && off + |data| <= MAXFILE * BSIZE
    requires Wrote(n, b0, a0, b1, a1, i, off, off + |data|) && Reads(b1, a1, i, off, data)
    ensures FlatWritten(Content(b0, a0, i, size), Content(b1, a1, i, if off + count > size then off + count else size),
              off, count, data)
  {
    hide Ptr, Byte;
    var size' := if off + count > size then off + count else size;
    var c0, c1 := Content(b0, a0, i, size), Content(b1, a1, i, size');
    forall pos {:trigger c1[pos]} | 0 <= pos < size'
      ensures c1[pos] == if off <= pos < off + |data| then data[pos - off] else c0[pos]
    {
      assert c1[pos] == Byte(b1, a1, i, pos);
      if !(off <= pos < off + |data|) {
        assert (pos / BSIZE) * BSIZE < size;
        assert Ptr(b0, a0, FileSlot(i, pos / BSIZE)) != 0;
        assert Byte(b1, a1, i, pos) == Byte(b0, a0, i, pos);
      }
    }
  }

  /** The other files keep their contents and stay dense. */
  lemma OthersKept(g: Geometry, b0: seq<Block>, a0: seq<seq<int>>, o0: map<int, Slot>,
                   b1: seq<Block>, a1: seq<seq<int>>, i: nat, lo: nat, hi: nat, k: nat, size: nat)
    requires Owned(g, b0, a0, o0) && g.Ok() && g.size == |b0| && k < g.ninodes && k != i
    requires Wrote(g.ninodes, b0, a0, b1, a1, i, lo, hi) && Dense(b0, a0, k, size)
    ensures Content(b1, a1, k, size) == Content(b0, a0, k, size) && Dense(b1, a1, k, size)
  {
    assert SameData(b0, a0, b1, a1, k);
    SameContent(g, b0, a0, o0, b1, a1, k, size);
  }

  // ------------------------------------------------------------- truncation

  /** The bijection, except that the first j entries of file i's indirect block may name blocks
      that have already been freed. */
  ghost predicate OwnedBut(g: Geometry, blocks: seq<Block>, addrs: seq<seq<int>>, owner: map<int, Slot>, i: nat,
      j: nat) {
    && (forall b ::
         b in owner ==> g.datastart <= b < g.size && IsSlot(g.ninodes, owner[b]) && Ptr(blocks, addrs, owner[b]) == b)
    && (forall sl {:trigger Ptr(blocks, addrs, sl)} ::
          IsSlot(g.ninodes, sl) && Ptr(blocks, addrs, sl) != 0 && !(sl.Leaf? && sl.i == i && sl.j < j) ==>
          Ptr(blocks, addrs, sl) in owner && owner[Ptr(blocks, addrs, sl)] == sl)
    && (forall b :: b in owner ==> !(owner[b].Leaf? && owner[b].i == i && owner[b].j < j))
  }

  lemma OwnedButStart(g: Geometry, blocks: seq<Block>, addrs: seq<seq<int>>, owner: map<int, Slot>, i: nat)
    requires Owned(g, blocks, addrs, owner)
    ensures OwnedBut(g, blocks, addrs, owner, i, 0)
  {
  }

  lemma OwnedFreeDirect(g: Geometry, blocks: seq<Block>, addrs: seq<seq<int>>, owner: map<int, Slot>, i: nat, k: nat)
    requires Owned(g, blocks, addrs, owner) && Table(g.ninodes, addrs) && i < g.ninodes && k < NDIRECT
             && addrs[i][k] != 0
    ensures addrs[i][k] in owner && g.datastart <= addrs[i][k] < g.size && owner[addrs[i][k]] == Direct(i, k)
    ensures var addrs' := addrs[i := addrs[i][k := 0]];
            && Owned(g, blocks, addrs', owner - {addrs[i][k]}) && Table(g.ninodes, addrs')
            && (forall sl {:trigger Ptr(blocks, addrs', sl)} :: IsSlot(g.ninodes, sl) && sl != Direct(i, k) ==>
                  Ptr(blocks, addrs', sl) == Ptr(blocks, addrs, sl))
  {
    hide WordAt;
    var b := addrs[i][k];
    assert Ptr(blocks, addrs, Direct(i, k)) == b;
    var addrs' := addrs[i := addrs[i][k := 0]];
    assert Ptr(blocks, addrs', Direct(i, k)) == 0;
    forall sl {:trigger Ptr(blocks, addrs', sl)} | IsSlot(g.ninodes, sl) && sl != Direct(i, k)
      ensures Ptr(blocks, addrs', sl) == Ptr(blocks, addrs, sl)
    {
    }
  }

  lemma OwnedFreeLeaf(g: Geometry, blocks: seq<Block>, addrs: seq<seq<int>>, owner: map<int, Slot>, i: nat, j: nat)
    requires OwnedBut(g, blocks, addrs, owner, i, j) && g.Ok() && i < g.ninodes && j < NINDIRECT
    ensures var b := Ptr(blocks, addrs, Leaf(i, j));
            && (b != 0 ==> b in owner && g.datastart <= b < g.size && owner[b] == Leaf(i, j))
            && OwnedBut(g, blocks, addrs, if b != 0 then owner - {b} else owner, i, j + 1)
  {
    hide Ptr;
    assert IsSlot(g.ninodes, Leaf(i, j));
  }

  lemma OwnedFreeRoot(g: Geometry, blocks: seq<Block>, addrs: seq<seq<int>>, owner: map<int, Slot>, i: nat)
    requires OwnedBut(g, blocks, addrs, owner, i, NINDIRECT) && Table(g.ninodes, addrs) && i < g.ninodes
             && addrs[i][NDIRECT] != 0
    ensures var r := addrs[i][NDIRECT];
            && r in owner && g.datastart <= r < g.size && owner[r] == Root(i)
            && Owned(g, blocks, addrs[i := addrs[i][NDIRECT := 0]], owner - {r})
            && Table(g.ninodes, addrs[i := addrs[i][NDIRECT := 0]])
  {
    hide WordAt;
    var r := addrs[i][NDIRECT];
    assert Ptr(blocks, addrs, Root(i)) == r;
    var addrs' := addrs[i := addrs[i][NDIRECT := 0]];
    forall sl {:trigger Ptr(blocks, addrs', sl)} | IsSlot(g.ninodes, sl)
      ensures Ptr(blocks, addrs', sl) == if sl == Root(i) || (sl.Leaf? && sl.i == i) then 0 else Ptr(blocks, addrs, sl)
    {
    }
  }

  /** The slots of file i that truncation has dealt with: k direct ones, j entries, the root. */
  predicate Dead(sl: Slot, i: nat, k: nat, j: nat, root: bool) {
    sl.i == i && match sl case Direct(_, m) => m < k case Leaf(_, m) => m < j case Root(_) => root
  }

  function Prune(owner: map<int, Slot>, i: nat, k: nat, j: nat, root: bool): map<int, Slot> {
    map b | b in owner && !Dead(owner[b], i, k, j, root) :: owner[b]
  }

  /** Taking out the one block that a slot names. */
  lemma PruneStep(owner: map<int, Slot>, i: nat, k: nat, j: nat, root: bool, k': nat, j': nat, root': bool, sl: Slot,
      b: int)
    requires forall t: Slot :: Dead(t, i, k', j', root') <==> Dead(t, i, k, j, root) || t == sl
    requires !Dead(sl, i, k, j, root)
    requires forall c {:trigger owner[c]} :: c in Prune(owner, i, k, j, root) && owner[c] == sl ==> c == b
    requires b in Prune(owner, i, k, j, root) ==> owner[b] == sl
    ensures Prune(owner, i, k', j', root') == Prune(owner, i, k, j, root) - {b}
  {
    hide Dead;
    var p, q := Prune(owner, i, k, j, root) - {b}, Prune(owner, i, k', j', root');
    forall c ensures c in p <==> c in q {
    }
    assert p.Keys == q.Keys;
  }

  /** What a truncation of file i leaves. */
  function Others(owner: map<int, Slot>, i: nat): map<int, Slot> {
    map b | b in owner && owner[b].i != i :: owner[b]
  }

  lemma OthersLeft(g: Geometry, blocks: seq<Block>, addrs: seq<seq<int>>, owner0: map<int, Slot>, owner: map<int, Slot>,
      i: nat)
    requires Owned(g, blocks, addrs, owner) && Table(g.ninodes, addrs) && g.Ok() && i < g.ninodes
    requires forall k :: 0 <= k <= NDIRECT ==> addrs[i][k] == 0
    requires forall b :: b in owner ==> b in owner0 && owner0[b] == owner[b]
    requires forall b :: b in owner0 && b !in owner ==> owner0[b].i == i
    ensures owner == Others(owner0, i)
  {
    hide WordAt;
    forall b | b in owner ensures owner[b].i != i {
      assert Ptr(blocks, addrs, owner[b]) == b;
    }
    var p := Others(owner0, i);
    forall b ensures (b in p <==> b in owner) && (b in owner ==> p[b] == owner[b]) {
    }
    assert p.Keys == owner.Keys;
  }

  lemma ContentByTable(blocks: seq<Block>, a0: seq<seq<int>>, a1: seq<seq<int>>, i: nat, size: nat)
    requires i < |a0| && i < |a1| && a0[i] == a1[i]
    ensures Content(blocks, a1, i, size) == Content(blocks, a0, i, size)
    ensures Dense(blocks, a0, i, size) ==> Dense(blocks, a1, i, size)
  {
    hide WordAt;
    forall bn: nat {:trigger FileSlot(i, bn)}
      ensures Ptr(blocks, a1, FileSlot(i, bn)) == Ptr(blocks, a0, FileSlot(i, bn)) {
    }
    forall pos: nat ensures Byte(blocks, a1, i, pos) == Byte(blocks, a0, i, pos) {
    }
  }

  /** A complete chunk followed by another. */
  lemma FlatTrans(c0: seq<int>, c1: seq<int>, c2: seq<int>, off: nat, d1: seq<int>, count: nat, d2: seq<int>)
    requires FlatWritten(c0, c1, off, |d1|, d1) && FlatWritten(c1, c2, off + |d1|, count, d2)
    ensures FlatWritten(c0, c2, off, |d1| + count, d1 + d2)
  {
    forall pos {:trigger c2[pos]} | 0 <= pos < |c2|
      ensures c2[pos] == if off <= pos < off + |d1 + d2| then (d1 + d2)[pos - off] else c0[pos]
    {
      if !(off + |d1| <= pos < off + |d1| + |d2|) {
        assert c2[pos] == c1[pos];
      }
    }
  }

  /** How far a write of src at `off` has come: `stored` bytes stored, of which `done` are counted. A write that
      starts beyond the end does nothing. */
  ghost predicate Progress(c0: seq<int>, c: seq<int>, off: nat, done: nat, stored: nat, src: seq<int>) {
    && done <= stored <= |src|
    && if off > |c0| then c == c0 && stored == 0 else FlatWritten(c0, c, off, done, src[..stored])
  }

  lemma ProgressStart(c: seq<int>, off: nat, src: seq<int>)
    ensures Progress(c, c, off, 0, 0, src)
  {
  }

  /** A chunk of n bytes of which k were stored and r counted; r is -1 if it was refused. */
  lemma ProgressStep(c0: seq<int>, c1: seq<int>, c2: seq<int>, off: nat, done: nat, n: nat, r: int, k: nat,
      src: seq<int>)
    requires Progress(c0, c1, off, done, done, src) && done + n <= |src| && -1 <= r <= k <= n
    requires if r == -1 then c2 == c1 && k == 0 else FlatWritten(c1, c2, off + done, r, src[done..done + n][..k])
    ensures Progress(c0, c2, off, done + if r > 0 then r else 0, done + k, src)
  {
    if r >= 0 {
      assert src[done..done + n][..k] == src[done..done + k];
      assert src[..done] + src[done..done + k] == src[..done + k];
      if off <= |c0| {
        FlatTrans(c0, c1, c2, off, src[..done], r, src[done..done + k]);
      }
    }
  }
}
