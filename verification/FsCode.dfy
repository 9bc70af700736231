/** The block allocator, block map and byte-range input and output of kernel/fs.c, and the
    chunking loop of filewrite in kernel/file.c, as the system sees them through the buffer
    cache and the log. */
module FsCode {
  import opened FsBlocks
  import opened FsSpace
  import opened FsSpec
  import opened Params

  /** The on-disk copy of an inode's address table and size. */
  datatype Dinode = Dinode(addrs: seq<int>, size: int)

  lemma Grows(s: set<int>, b: int)
    ensures |s| <= |s + {b}| <= |s| + 1
  {
    if b in s { assert s + {b} == s; }
  }

  /** What a call of log_write makes of the largest |logged| seen. */
  ghost function Seen(peak: nat, logged: set<int>): nat {
    if peak < |logged| then |logged| else peak
  }

  /** The log_write calls between two points were on bitmap blocks, at most one for each
      block allocated, and on the blocks in `extra` (0 stands for none). */
  ghost predicate Accounted(l0: set<int>, m0: set<int>, a0: nat, l1: set<int>, m1: set<int>, a1: nat, extra: set<int>) {
    && a0 <= a1 && m0 <= m1 && |m1| <= |m0| + (a1 - a0)
    && l0 <= l1 <= l0 + m1 + (extra - {0})
  }

  lemma AccountedTrans(l0: set<int>, m0: set<int>, a0: nat, l1: set<int>, m1: set<int>, a1: nat,
                       l2: set<int>, m2: set<int>, a2: nat, e: set<int>, f: set<int>)
    requires Accounted(l0, m0, a0, l1, m1, a1, e) && Accounted(l1, m1, a1, l2, m2, a2, f)
    ensures Accounted(l0, m0, a0, l2, m2, a2, e + f)
  {
  }

  lemma AccountedRefl(l: set<int>, m: set<int>, a: nat, extra: set<int>)
    ensures Accounted(l, m, a, l, m, a, extra)
  {
  }

  lemma AccountedWiden(l0: set<int>, m0: set<int>, a0: nat, l1: set<int>, m1: set<int>, a1: nat, e: set<int>,
      f: set<int>)
    requires Accounted(l0, m0, a0, l1, m1, a1, e) && e <= f
    ensures Accounted(l0, m0, a0, l1, m1, a1, f)
  {
  }

  lemma AccountedMore(l0: set<int>, m0: set<int>, a0: nat, l1: set<int>, m1: set<int>, a1: nat, extra: set<int>, b: int)
    requires Accounted(l0, m0, a0, l1, m1, a1, extra) && b != 0
    ensures Accounted(l0, m0, a0, l1 + {b}, m1, a1, extra + {b})
  {
  }

  lemma AccountedAlloc(l0: set<int>, m0: set<int>, a0: nat, m: int, b: int)
    requires b != 0
    ensures Accounted(l0, m0, a0, l0 + {m, b}, m0 + {m}, a0 + 1, {b})
  {
    Grows(m0, m);
  }

  /** Every bitmap block that has changed between two points is among those that log_write was called on. */
  ghost predicate MapsLogged(g: Geometry, m0: seq<MapBlock>, l0: set<int>, m1: seq<MapBlock>, l1: set<int>) {
    && l0 <= l1 && |m1| == |m0|
    && forall m {:trigger m1[m]} :: 0 <= m < |m0| && m1[m] != m0[m] ==> g.bmapstart + m in l1
  }

  /** So is every block, apart from the one that `spare` names. */
  ghost predicate Logged(g: Geometry, b0: seq<Block>, m0: seq<MapBlock>, l0: set<int>, b1: seq<Block>,
                         m1: seq<MapBlock>, l1: set<int>, spare: int) {
    && MapsLogged(g, m0, l0, m1, l1) && |b1| == |b0|
    && forall b {:trigger b1[b]} :: 0 <= b < |b0| && b1[b] != b0[b] ==> b in l1 || b == spare
  }

  lemma MapsLoggedTrans(g: Geometry, m0: seq<MapBlock>, l0: set<int>, m1: seq<MapBlock>, l1: set<int>,
                        m2: seq<MapBlock>, l2: set<int>)
    requires MapsLogged(g, m0, l0, m1, l1) && MapsLogged(g, m1, l1, m2, l2)
    ensures MapsLogged(g, m0, l0, m2, l2)
  {
    forall m {:trigger m2[m]} | 0 <= m < |m0| && m2[m] != m0[m] ensures g.bmapstart + m in l2 {
      assert m2[m] != m1[m] || m1[m] != m0[m];
    }
  }

  lemma MapsLoggedRefl(g: Geometry, m: seq<MapBlock>, l: set<int>)
    ensures MapsLogged(g, m, l, m, l)
  {
  }

  lemma MapsLoggedMore(g: Geometry, m0: seq<MapBlock>, l0: set<int>, m1: seq<MapBlock>, l1: set<int>, b: int)
    requires MapsLogged(g, m0, l0, m1, l1)
    ensures MapsLogged(g, m0, l0, m1, l1 + {b})
  {
  }

  lemma LoggedTrans(g: Geometry, b0: seq<Block>, m0: seq<MapBlock>, l0: set<int>, b1: seq<Block>, m1: seq<MapBlock>,
                    l1: set<int>, b2: seq<Block>, m2: seq<MapBlock>, l2: set<int>, spare: int)
    requires Logged(g, b0, m0, l0, b1, m1, l1, -1) && Logged(g, b1, m1, l1, b2, m2, l2, spare)
    ensures Logged(g, b0, m0, l0, b2, m2, l2, spare)
  {
    hide MapsLogged;
    assert l0 <= l1 <= l2 by { LoggedGrows(g, m0, l0, m1, l1); LoggedGrows(g, m1, l1, m2, l2); }
    MapsLoggedTrans(g, m0, l0, m1, l1, m2, l2);
    forall b {:trigger b2[b]} | 0 <= b < |b0| && b2[b] != b0[b] ensures b in l2 || b == spare {
      assert b2[b] != b1[b] || b1[b] != b0[b];
    }
  }

  lemma LoggedGrows(g: Geometry, m0: seq<MapBlock>, l0: set<int>, m1: seq<MapBlock>, l1: set<int>)
    requires MapsLogged(g, m0, l0, m1, l1)
    ensures l0 <= l1
  {
  }

  lemma LoggedMore(g: Geometry, b0: seq<Block>, m0: seq<MapBlock>, l0: set<int>, b1: seq<Block>, m1: seq<MapBlock>,
                   l1: set<int>, l2: set<int>, spare: int)
    requires Logged(g, b0, m0, l0, b1, m1, l1, spare) && l1 <= l2
    ensures Logged(g, b0, m0, l0, b1, m1, l2, spare)
  {
  }

  lemma LoggedRefl(g: Geometry, b: seq<Block>, m: seq<MapBlock>, l: set<int>, spare: int)
    ensures Logged(g, b, m, l, b, m, l, spare)
  {
  }

  /** The two calls of log_write that balloc and bzero make. */
  lemma LoggedTake(g: Geometry, blocks: seq<Block>, bitmap: seq<MapBlock>, l: set<int>, b: nat, blk: Block,
      mb: MapBlock)
    requires b < |blocks| && b / BPB < |bitmap|
    ensures Logged(g, blocks, bitmap, l, blocks[b := blk], bitmap[b / BPB := mb], l + {g.MapBlockOf(b), b}, -1)
  {
  }

  /** A store into block b, which is logged or, if it is the spare one, not. */
  lemma LoggedStore(g: Geometry, blocks: seq<Block>, bitmap: seq<MapBlock>, l: set<int>, l': set<int>, b: nat,
      blk: Block,
                    spare: int)
    requires b < |blocks| && l <= l' && (b in l' || b == spare)
    ensures Logged(g, blocks, bitmap, l, blocks[b := blk], bitmap, l', spare)
  {
  }

  /** The cost of the first `trips` trips of a write loop on inode i: `data` are the blocks they
      stored into, `gained` how many of those were newly allocated. */
  ghost predicate Tally(l0: set<int>, m0: set<int>, a0: nat, l: set<int>, m: set<int>, a: nat,
                        root0: int, root: int, data: set<int>, trips: nat, gained: nat) {
    && Accounted(l0, m0, a0, l, m, a, data + {root})
    && |data| <= trips && gained <= trips && a <= a0 + gained + (if root != root0 then 1 else 0)
    && (root0 != 0 ==> root == root0)
  }

  lemma TallyStart(l: set<int>, m: set<int>, a: nat, root: int)
    ensures Tally(l, m, a, l, m, a, root, root, {}, 0, 0)
  {
  }

  lemma TallyStep(l0: set<int>, m0: set<int>, a0: nat, l: set<int>, m: set<int>, a: nat,
                  l': set<int>, m': set<int>, a': nat, root0: int, root: int, root': int,
                  data: set<int>, trips: nat, gained: nat, p: int, f: nat)
    requires Tally(l0, m0, a0, l, m, a, root0, root, data, trips, gained) && f <= 1
    requires Accounted(l, m, a, l', m', a', {p, root'})
    requires a' <= a + f + (if root' != root then 1 else 0) && (root != 0 ==> root' == root)
    ensures Tally(l0, m0, a0, l', m', a', root0, root', data + {p}, trips + 1, gained + f)
  {
    AccountedTrans(l0, m0, a0, l, m, a, l', m', a', data + {root}, {p, root'});
    Grows(data, p);
  }

  /** Starting from an empty transaction: at most the data blocks, a bitmap block for each
      allocation and the indirect block have been logged. */
  lemma TallyBound(l: set<int>, m: set<int>, a: nat, root0: int, root: int, data: set<int>, trips: nat, gained: nat)
    requires Tally({}, {}, 0, l, m, a, root0, root, data, trips, gained)
    ensures |l| <= trips + gained + 2
  {
    Subset(l, m + (data + {root}));
    SumBound(m, data + {root});
    Grows(data, root);
    if root == root0 || root == 0 {
    }
  }

  /** The next piece of a transfer that is to end at position `end` ends there or at a block boundary. */
  function Piece(pos: nat, end: nat): (m: nat)
    requires pos < end
    ensures 0 < m <= end - pos && pos % BSIZE + m <= BSIZE
  {
    if end - pos < BSIZE - pos % BSIZE then end - pos else BSIZE - pos % BSIZE
  }

  /** Why a transfer of n bytes from or to a process of whose memory only the first `can` bytes are accessible ends
      after `tot` bytes, at the end of a piece: all are done, or the disk is full, or the next piece cannot be copied
      whole. */
  ghost predicate Stopped(off: nat, tot: nat, n: nat, can: nat, full: bool) {
    && tot <= can && (tot == n || (tot < n && (full || can < tot + Piece(off + tot, off + n))))
    && (tot == 0 || tot == n || (off + tot) % BSIZE == 0)
  }

  lemma PieceEnds(pos: nat, end: nat)
    requires pos < end
    ensures pos + Piece(pos, end) == end || (pos + Piece(pos, end)) % BSIZE == 0
  {
  }

  /** Without a full disk, no byte is stored uncounted if and only if all of the source is accessible, or none of it, or
      as much as ends at the end of a block. */
  lemma UncountedExactly(off: nat, tot: nat, n: nat, can: nat)
    requires Stopped(off, tot, n, can, false)
    ensures Stored(tot, n, can, false) == tot <==> n <= can || can == 0 || (off + can) % BSIZE == 0
  {
    if tot < can && tot < n {
      assert (off + tot) % BSIZE + (can - tot) < BSIZE;
      assert (off + can) % BSIZE == (off + tot) % BSIZE + (can - tot);
    }
  }

  function Accessible(chunk: seq<int>, can: nat): (k: nat)
    ensures k <= |chunk|
  {
    if |chunk| <= can then |chunk| else can
  }

  /** How much of it has been stored then: of the piece that cannot be copied whole, what is accessible. */
  function Stored(tot: nat, n: nat, can: nat, full: bool): nat {
    if tot < n && !full then can else tot
  }

  lemma WhereItStopped(off: nat, tot: nat, n: nat, can: nat, full: bool)
    requires Stopped(off, tot, n, can, full)
    ensures tot <= n && (tot == 0 || tot == n || (off + tot) % BSIZE == 0)
  {
  }

  lemma CameShort(off: nat, tot: nat, n: nat, can: nat, full: bool)
    requires Stopped(off, tot, n, can, full)
    ensures tot <= Stored(tot, n, can, full) <= n && tot <= can && (tot == n || full || can < n)
            && (n <= can ==> Stored(tot, n, can, full) == tot)
  {
  }

  /** How far the write loop has come after `tot` bytes; `ok` says that it goes on. */
  ghost predicate Written(n: nat, b0: seq<Block>, a0: seq<seq<int>>, b1: seq<Block>, a1: seq<seq<int>>, i: nat,
                          off: nat, src: seq<int>, tot: nat, can: nat, ok: bool, full: bool) {
    && tot <= |src| && tot <= can && (tot == 0 || tot == |src| || (off + tot) % BSIZE == 0)
    && (ok ==> !full) && (!ok ==> Stopped(off, tot, |src|, can, full))
    && (full ==> tot < |src| && Ptr(b0, a0, FileSlot(i, (off + tot) / BSIZE)) == 0)
    && var k := if ok then tot else Stored(tot, |src|, can, full);
    && k <= |src| && Wrote(n, b0, a0, b1, a1, i, off, off + k) && Reads(b1, a1, i, off, src[..k])
  }

  lemma WrittenStart(n: nat, b: seq<Block>, a: seq<seq<int>>, i: nat, off: nat, src: seq<int>, can: nat)
    ensures Written(n, b, a, b, a, i, off, src, 0, can, true, false)
  {
    WroteStart(n, b, a, i, off);
    ReadsNone(b, a, i, off);
    assert src[..0] == [];
  }

  lemma WrittenEnd(n: nat, b0: seq<Block>, a0: seq<seq<int>>, b1: seq<Block>, a1: seq<seq<int>>, i: nat,
                   off: nat, src: seq<int>, tot: nat, can: nat, ok: bool, full: bool)
    requires Written(n, b0, a0, b1, a1, i, off, src, tot, can, ok, full) && (ok ==> tot == |src|)
    ensures Written(n, b0, a0, b1, a1, i, off, src, tot, can, false, full)
  {
    hide Wrote, Reads, Ptr;
  }

  lemma WrittenSoFar(n: nat, b0: seq<Block>, a0: seq<seq<int>>, b1: seq<Block>, a1: seq<seq<int>>, i: nat,
                     off: nat, src: seq<int>, tot: nat, can: nat, full: bool)
    requires Written(n, b0, a0, b1, a1, i, off, src, tot, can, true, full)
    ensures tot <= |src| && tot <= can && !full
  {
  }

  /** What one trip of the write loop has done with a chunk at pos of which `can` bytes are accessible. */
  ghost predicate ChunkDone(n: nat, b1: seq<Block>, a1: seq<seq<int>>, b2: seq<Block>, a2: seq<seq<int>>, i: nat,
                            pos: nat, chunk: seq<int>, can: nat, ok: bool, full: bool) {
    && (ok <==> |chunk| <= can && !full) && (full ==> Ptr(b1, a1, FileSlot(i, pos / BSIZE)) == 0)
    && var k := if full then 0 else Accessible(chunk, can);
    Wrote(n, b1, a1, b2, a2, i, pos, pos + k) && Reads(b2, a2, i, pos, chunk[..k])
  }

  /** One more trip. */
  lemma WrittenNext(n: nat, b0: seq<Block>, a0: seq<seq<int>>, b1: seq<Block>, a1: seq<seq<int>>, b2: seq<Block>,
      a2: seq<seq<int>>,
                    i: nat, off: nat, src: seq<int>, tot: nat, can: nat, pos: nat, m: nat, ok: bool, full: bool,
                        tot': nat)
    requires Written(n, b0, a0, b1, a1, i, off, src, tot, can, true, false) && tot < |src|
             && off + |src| <= MAXFILE * BSIZE
    requires tot <= can && pos == off + tot && m == Piece(pos, off + |src|) && tot' == if ok then tot + m else tot
    requires ChunkDone(n, b1, a1, b2, a2, i, pos, src[tot..tot + m], can - tot, ok, full)
    ensures Written(n, b0, a0, b2, a2, i, off, src, tot', can, ok, full)
  {
    hide Wrote, Reads, Ptr;
    var k := if full then 0 else Accessible(src[tot..tot + m], can - tot);
    var more := src[tot..tot + m][..k];
    PieceEnds(pos, off + |src|);
    NotBefore(n, b0, a0, b1, a1, i, off, pos, pos / BSIZE);
    assert src[..tot] + more == src[..tot + k];
    WroteTrans(n, b0, a0, b1, a1, b2, a2, i, off, pos, pos + k);
    ReadsExtend(n, b1, a1, b2, a2, i, off, src[..tot], more);
  }

  /** The block of the piece that a write has stored in part and not logged: the one at which its copy failed, if it
      did. */
  ghost function Uncounted(blocks: seq<Block>, addrs: seq<seq<int>>, i: nat, off: nat, tot: nat, n: nat,
      full: bool): int {
    if tot < n && !full then Ptr(blocks, addrs, FileSlot(i, (off + tot) / BSIZE)) else -1
  }

  lemma PlaceNext(n: nat, b1: seq<Block>, a1: seq<seq<int>>, b2: seq<Block>, a2: seq<seq<int>>, i: nat, off: nat,
                  src: seq<int>, tot: nat, can: nat, trips: nat, ok: bool, full: bool, pos: nat, m: nat, tot': nat)
    requires Place(off, tot, |src|, can, trips, true, false) && tot < |src| && tot <= can
    requires pos == off + tot && m == Piece(pos, off + |src|) && tot' == if ok then tot + m else tot
    requires ChunkDone(n, b1, a1, b2, a2, i, pos, src[tot..tot + m], can - tot, ok, full)
    ensures Place(off, tot', |src|, can, trips + 1, ok, full)
  {
    hide Wrote, Reads, Ptr, Place, Piece;
    PieceEnds(pos, off + |src|);
    PlaceStep(off, tot, |src|, can, trips, ok, full, m, tot');
  }

  /** Each trip of a write loop but the last ends at a block boundary; `more` says that it goes on. */
  ghost predicate Trips(off: nat, tot: nat, n: nat, trips: nat, more: bool) {
    && tot <= n && (trips == 0 ==> tot == 0) && (trips > 0 ==> (trips - 1) * BSIZE < off % BSIZE + n)
    && (trips > 0 && more && tot < n ==> off % BSIZE + tot == trips * BSIZE)
  }

  lemma TripsStart(off: nat, n: nat)
    ensures Trips(off, 0, n, 0, true)
  {
  }

  lemma TripsStop(off: nat, tot: nat, n: nat, trips: nat, more: bool)
    requires Trips(off, tot, n, trips, more)
    ensures Trips(off, tot, n, trips, false)
  {
  }

  lemma TripEnds(off: nat, tot: nat, n: nat, trips: nat, more: bool, pos: nat, m: nat, tot': nat)
    requires Trips(off, tot, n, trips, true) && tot < n
    requires pos == off + tot && m == Piece(pos, off + n) && tot' == if more then tot + m else tot
    ensures Trips(off, tot', n, trips + 1, more)
  {
  }

  lemma Subset(a: set<int>, b: set<int>)
    requires a <= b
    ensures |a| <= |b|
  {
    assert b == a + (b - a);
  }

  lemma SumBound(a: set<int>, b: set<int>)
    ensures |a + b| <= |a| + |b|
  {
  }

  /** A write that starts inside a block starts in an allocated one. */
  lemma InsideBlock(blocks: seq<Block>, addrs: seq<seq<int>>, i: nat, size: nat, off: nat)
    requires Dense(blocks, addrs, i, size) && off <= size
    ensures size <= MAXFILE * BSIZE
    ensures off % BSIZE != 0 ==> Ptr(blocks, addrs, FileSlot(i, off / BSIZE)) != 0
  {
    assert off % BSIZE != 0 ==> (off / BSIZE) * BSIZE < size;
  }

  /** The bound that filewrite relies on: a request of at most three blocks, at any alignment, logs
      at most nine blocks before the inode. */
  lemma WithinAllowance(l0: set<int>, m0: set<int>, a0: nat, l: set<int>, m: set<int>, a: nat, root0: int, root: int,
                        tot: nat, trips: nat, gained: nat, off: nat, n: nat)
    requires exists data :: Tally(l0, m0, a0, l, m, a, root0, root, data, trips, gained)
    requires Trips(off, tot, n, trips, false)
    requires off % BSIZE != 0 && trips > 0 ==> gained < trips
    ensures l0 == {} && m0 == {} && a0 == 0 && n <= 3 * BSIZE ==> |l| < MAXOPBLOCKS
  {
    if l0 == {} && m0 == {} && a0 == 0 && n <= 3 * BSIZE {
      var data :| Tally(l0, m0, a0, l, m, a, root0, root, data, trips, gained);
      TallyBound(l, m, a, root0, root, data, trips, gained);
    }
  }

  lemma FlatEnd(c0: seq<int>, c1: seq<int>, off: nat, count: nat, data: seq<int>)
    requires FlatWritten(c0, c1, off, count, data)
    ensures off + count <= |c1|
  {
  }

  lemma NotBefore(n: nat, b0: seq<Block>, a0: seq<seq<int>>, b1: seq<Block>, a1: seq<seq<int>>, i: nat, lo: nat,
      hi: nat, bn: nat)
    requires Wrote(n, b0, a0, b1, a1, i, lo, hi) && bn < MAXFILE
    ensures Ptr(b1, a1, FileSlot(i, bn)) == 0 ==> Ptr(b0, a0, FileSlot(i, bn)) == 0
  {
  }

  lemma ContentLength(blocks: seq<Block>, addrs: seq<seq<int>>, i: nat, size: nat)
    ensures |Content(blocks, addrs, i, size)| == size
  {
  }

  lemma BelowSize(blocks: seq<Block>, addrs: seq<seq<int>>, i: nat, size: nat, pos: nat)
    requires Dense(blocks, addrs, i, size) && pos < size
    ensures pos / BSIZE < MAXFILE && Ptr(blocks, addrs, FileSlot(i, pos / BSIZE)) != 0
  {
    assert (pos / BSIZE) * BSIZE < size;
  }

  lemma SlotInRange(g: Geometry, blocks: seq<Block>, addrs: seq<seq<int>>, owner: map<int, Slot>, i: nat, bn: nat)
    requires Owned(g, blocks, addrs, owner) && g.Ok() && i < g.ninodes && bn < MAXFILE
             && Ptr(blocks, addrs, FileSlot(i, bn)) != 0
    ensures 0 < Ptr(blocks, addrs, FileSlot(i, bn)) < g.size
    ensures Sized(blocks) && |blocks| == g.size ==> |blocks[Ptr(blocks, addrs, FileSlot(i, bn))]| == BSIZE
  {
    assert IsSlot(g.ninodes, FileSlot(i, bn));
  }

  /** A piece of one block is a piece of the file. */
  lemma BlockBytes(blocks: seq<Block>, addrs: seq<seq<int>>, i: nat, size: nat, off: nat, pos: nat, m: nat)
    requires pos % BSIZE + m <= BSIZE && off <= pos && pos + m <= size && Sized(blocks)
    requires 0 < Ptr(blocks, addrs, FileSlot(i, pos / BSIZE)) < |blocks|
    ensures var c := Content(blocks, addrs, i, size);
            |c| == size &&
            c[off..pos] + blocks[Ptr(blocks, addrs,
                FileSlot(i, pos / BSIZE))][pos % BSIZE..pos % BSIZE + m] == c[off..pos + m]
  {
    BlockSlice(blocks, addrs, i, size, pos, m);
    var c := Content(blocks, addrs, i, size);
    assert c[off..pos] + c[pos..pos + m] == c[off..pos + m];
  }

  lemma BlockSlice(blocks: seq<Block>, addrs: seq<seq<int>>, i: nat, size: nat, pos: nat, m: nat)
    requires pos % BSIZE + m <= BSIZE && pos + m <= size && Sized(blocks)
    requires 0 < Ptr(blocks, addrs, FileSlot(i, pos / BSIZE)) < |blocks|
    ensures blocks[Ptr(blocks, addrs, FileSlot(i, pos / BSIZE))][pos % BSIZE..pos % BSIZE + m] ==
            Content(blocks, addrs, i, size)[pos..pos + m]
  {
    hide Ptr;
    forall q: nat | pos <= q < pos + m
      ensures Byte(blocks, addrs, i, q) == blocks[Ptr(blocks, addrs, FileSlot(i, pos / BSIZE))][pos % BSIZE + (q - pos)]
    {
      assert q / BSIZE == pos / BSIZE && q % BSIZE == pos % BSIZE + (q - pos);
    }
  }

  lemma BitAtHas(blk: MapBlock, i: nat)
    requires |blk| == BSIZE && i < BPB
    ensures BitAt(blk, i) == Has(blk[i / 8], i % 8)
  {
  }

  /** The first k addresses of inode i are cleared, and nothing else. */
  ghost predicate Emptied(was: seq<seq<int>>, now: seq<seq<int>>, i: nat, k: nat) {
    && |now| == |was| && i < |was| && |now[i]| == |was[i]|
    && (forall j :: 0 <= j < |was[i]| ==> now[i][j] == if j < k then 0 else was[i][j])
    && (forall m :: 0 <= m < |was| && m != i ==> now[m] == was[m])
  }

  lemma PruneNone(owner: map<int, Slot>, i: nat)
    ensures Prune(owner, i, 0, 0, false) == owner
  {
    var p := Prune(owner, i, 0, 0, false);
    forall b ensures b in p <==> b in owner {
    }
    assert p.Keys == owner.Keys;
  }

  lemma DirectFreed(g: Geometry, blocks: seq<Block>, addrs: seq<seq<int>>, owner0: map<int, Slot>,
      owner: map<int, Slot>, i: nat, k: nat)
    requires Owned(g, blocks, addrs, owner) && Table(g.ninodes, addrs) && g.Ok() && i < g.ninodes && k < NDIRECT
    requires owner == Prune(owner0, i, k, 0, false)
    ensures Prune(owner0, i, k + 1, 0, false) == if addrs[i][k] != 0 then owner - {addrs[i][k]} else owner
  {
    assert Ptr(blocks, addrs, Direct(i, k)) == addrs[i][k];
    PruneStep(owner0, i, k, 0, false, k + 1, 0, false, Direct(i, k), addrs[i][k]);
  }

  lemma LeafFreed(g: Geometry, blocks: seq<Block>, addrs: seq<seq<int>>, owner0: map<int, Slot>, owner: map<int, Slot>,
      i: nat, j: nat)
    requires OwnedBut(g, blocks, addrs, owner, i, j) && g.Ok() && i < g.ninodes && j < NINDIRECT
    requires owner == Prune(owner0, i, 0, j, false)
    ensures var b := Ptr(blocks, addrs, Leaf(i, j));
            Prune(owner0, i, 0, j + 1, false) == if b != 0 then owner - {b} else owner
  {
    hide Ptr;
    var b := Ptr(blocks, addrs, Leaf(i, j));
    assert IsSlot(g.ninodes, Leaf(i, j));
    PruneStep(owner0, i, 0, j, false, 0, j + 1, false, Leaf(i, j), b);
  }

  lemma EntryIs(blocks: seq<Block>, addrs: seq<seq<int>>, i: nat, j: nat)
    requires 0 < RootOf(addrs, i) < |blocks| && Sized(blocks) && j < NINDIRECT
    ensures Ptr(blocks, addrs, Leaf(i, j)) == WordAt(blocks[RootOf(addrs, i)], j)
  {
  }

  /** Every file but i reads as before. */
  ghost predicate SameOthers(b0: seq<Block>, a0: seq<seq<int>>, s0: seq<nat>, b1: seq<Block>, a1: seq<seq<int>>,
      s1: seq<nat>, i: nat) {
    |s1| == |s0| && forall k {:trigger s1[k]} ::
        0 <= k < |s0| && k != i ==> Content(b1, a1, k, s1[k]) == Content(b0, a0, k, s0[k])
  }

  /** Every block below the size of a file is allocated. */
  ghost predicate EachDense(n: nat, blocks: seq<Block>, addrs: seq<seq<int>>, sizes: seq<nat>) {
    |sizes| == n && forall i {:trigger sizes[i]} :: 0 <= i < n ==> Dense(blocks, addrs, i, sizes[i])
  }

  /** The sizes after a write to file i that counts all bytes before position `end`. */
  function Resized(sizes: seq<nat>, i: nat, end: nat): seq<nat>
    requires i < |sizes|
  {
    sizes[i := if end > sizes[i] then end else sizes[i]]
  }

  /** What the loop of writei has done to the blocks, in terms of files. */
  lemma WriteMeans(g: Geometry, b0: seq<Block>, a0: seq<seq<int>>, o0: map<int, Slot>, s0: seq<nat>, b1: seq<Block>,
                   a1: seq<seq<int>>, i: nat, off: nat, src: seq<int>, can: nat, tot: nat, full: bool)
    requires Owned(g, b0, a0, o0) && g.Ok() && |b0| == g.size && EachDense(g.ninodes, b0, a0, s0) && i < g.ninodes
    requires off <= s0[i] && off + |src| <= MAXFILE * BSIZE
    requires Written(g.ninodes, b0, a0, b1, a1, i, off, src, tot, can, false, full)
    ensures EachDense(g.ninodes, b1, a1, Resized(s0, i, off + tot))
    ensures SameOthers(b0, a0, s0, b1, a1, Resized(s0, i, off + tot), i)
    ensures var stored := Stored(tot, |src|, can, full);
            && 0 <= tot <= stored <= |src| && Stopped(off, tot, |src|, can, full)
            && FlatWritten(Content(b0, a0, i, s0[i]), Content(b1, a1, i, Resized(s0, i, off + tot)[i]), off, tot,
                           src[..stored])
            && (full ==> stored == tot < |src| && off + tot >= s0[i])
            && (!full ==> (stored == tot <==> |src| <= can || can == 0 || (off + can) % BSIZE == 0))
  {
    hide Owned, Ptr, Wrote, Reads, FlatWritten, Dense, Content;
    var stored := Stored(tot, |src|, can, full);
    CameShort(off, tot, |src|, can, full);
    if !full {
      UncountedExactly(off, tot, |src|, can);
    } else if off + tot < s0[i] {
      BelowSize(b0, a0, i, s0[i], off + tot);
      assert false;
    }
    FlatFromBlocks(g.ninodes, b0, a0, b1, a1, i, s0[i], off, tot, src[..stored]);
    DenseAfterWrite(g.ninodes, b0, a0, b1, a1, i, s0[i], off, tot, src[..stored], off + stored);
    var s1 := Resized(s0, i, off + tot);
    forall k {:trigger s1[k]} | 0 <= k < g.ninodes && k != i
      ensures Content(b1, a1, k, s1[k]) == Content(b0, a0, k, s0[k]) && Dense(b1, a1, k, s1[k])
    {
      OthersKept(g, b0, a0, o0, b1, a1, i, off, off + stored, k, s0[k]);
    }
  }

  lemma SizesThere(n: nat, blocks: seq<Block>, addrs: seq<seq<int>>, sizes: seq<nat>)
    requires EachDense(n, blocks, addrs, sizes)
    ensures |sizes| == n
  {
  }

  lemma DenseThere(n: nat, blocks: seq<Block>, addrs: seq<seq<int>>, sizes: seq<nat>, i: nat)
    requires EachDense(n, blocks, addrs, sizes) && i < n
    ensures |sizes| == n && Dense(blocks, addrs, i, sizes[i])
  {
  }

  lemma SameOthersRefl(b: seq<Block>, a: seq<seq<int>>, s: seq<nat>, i: nat)
    ensures SameOthers(b, a, s, b, a, s, i)
  {
  }

  lemma SameOthersTrans(b0: seq<Block>, a0: seq<seq<int>>, s0: seq<nat>, b1: seq<Block>, a1: seq<seq<int>>,
      s1: seq<nat>,
                        b2: seq<Block>, a2: seq<seq<int>>, s2: seq<nat>, i: nat)
    requires SameOthers(b0, a0, s0, b1, a1, s1, i) && SameOthers(b1, a1, s1, b2, a2, s2, i)
    ensures SameOthers(b0, a0, s0, b2, a2, s2, i)
  {
    hide Content;
    forall k {:trigger s2[k]} | 0 <= k < |s0| && k != i ensures Content(b2, a2, k, s2[k]) == Content(b0, a0, k, s0[k]) {
      assert Content(b1, a1, k, s1[k]) == Content(b0, a0, k, s0[k]);
    }
  }

  lemma RootRange(g: Geometry, blocks: seq<Block>, addrs: seq<seq<int>>, owner: map<int, Slot>, i: nat)
    requires Owned(g, blocks, addrs, owner) && g.Ok() && Table(g.ninodes, addrs) && i < g.ninodes
             && RootOf(addrs, i) != 0
    ensures 0 < RootOf(addrs, i) < g.size
  {
    assert Ptr(blocks, addrs, Root(i)) == RootOf(addrs, i);
  }

  lemma RootFilled(g: Geometry, blocks: seq<Block>, addrs: seq<seq<int>>, owner: map<int, Slot>, i: nat)
    requires Owned(g, blocks, addrs, owner) && g.Ok() && i < g.ninodes
    ensures Root(i) in Filled(owner) <==> RootOf(addrs, i) != 0
  {
    FilledIs(g, blocks, addrs, owner, Root(i));
  }

  lemma SpellsSize(g: Geometry, bitmap: seq<MapBlock>, used: seq<bool>)
    requires Spells(g, bitmap, used)
    ensures |used| == g.size
  {
  }

  lemma DenseEmpty(blocks: seq<Block>, addrs: seq<seq<int>>, i: nat)
    ensures Dense(blocks, addrs, i, 0)
  {
  }

  lemma SeenBound(peak: nat, logged: set<int>, b: int)
    ensures |logged| <= |logged + {b}| && (peak <= |logged| ==> Seen(peak, logged) <= |logged + {b}|)
  {
    Grows(logged, b);
  }

  // ------------------------------------------------------ how far filewrite gets

  /** The largest number of bytes that filewrite gives to one transaction. */
  const CHUNK := ((MAXOPBLOCKS - 1 - 1 - 2) / 2) * BSIZE

  /** Where the chunk ends that byte d of n bytes is in. */
  function ChunkEnd(d: nat, n: nat): (e: nat)
    requires d < n
    ensures d < e <= n && e <= d + CHUNK
  {
    if n <= d - d % CHUNK + CHUNK then n else d - d % CHUNK + CHUNK
  }

  /** Byte d starts a chunk that writei refuses, for a file of that size. */
  ghost predicate Refused(size: nat, off: nat, d: nat, n: nat) {
    d < n && d % CHUNK == 0 && ((d == 0 && off > size) || off + ChunkEnd(d, n) > MAXFILE * BSIZE)
  }

  /** There is no room for the block that byte d goes to. */
  ghost predicate NoRoom(c0: nat, f0: set<Slot>, i: nat, off: nat, d: nat) {
    c0 < Need(f0, i, off / BSIZE, (off + d) / BSIZE - off / BSIZE + 1)
  }

  /** The first d of n bytes are written: there was room for them, no chunk up to there was refused, and d ends a
      piece. */
  ghost predicate Reached(size: nat, c0: nat, f0: set<Slot>, i: nat, off: nat, d: nat, n: nat, can: nat) {
    && d <= n && d <= can && (d == n || d % CHUNK == 0 || (off + d) % BSIZE == 0)
    && Need(f0, i, off / BSIZE, Blocks(off, d)) <= c0
    && (d > 0 ==> off <= size && off + ChunkEnd(d - 1, n) <= MAXFILE * BSIZE)
  }

  /** filewrite of n bytes at off, of which the first `can` are accessible, ends after d bytes: they are all, or the
      next chunk is refused, or there is no room for the next byte, or the next piece cannot be copied whole. */
  ghost predicate Ended(size: nat, c0: nat, f0: set<Slot>, i: nat, off: nat, d: nat, n: nat, can: nat) {
    && Reached(size, c0, f0, i, off, d, n, can)
    && (d == n || Refused(size, off, d, n) || NoRoom(c0, f0, i, off, d)
        || can < d + Piece(off + d, off + ChunkEnd(d, n)))
  }

  /** How many bytes have been stored then. */
  ghost function Kept(size: nat, c0: nat, f0: set<Slot>, i: nat, off: nat, d: nat, n: nat, can: nat): nat {
    if d == n || Refused(size, off, d, n) || NoRoom(c0, f0, i, off, d) then d else can
  }

  /** There is only one place where it can end. */
  lemma EndsOnce(size: nat, c0: nat, f0: set<Slot>, i: nat, off: nat, d: nat, e: nat, n: nat, can: nat)
    requires Ended(size, c0, f0, i, off, d, n, can) && Reached(size, c0, f0, i, off, e, n, can)
    ensures e <= d
  {
    hide Need;
    if d < e {
      NotInside(off, d, e, n);
      NeedGrows(f0, i, off / BSIZE, (off + d) / BSIZE - off / BSIZE + 1, Blocks(off, e));
      assert false;
    }
  }

  lemma NotInside(off: nat, d: nat, e: nat, n: nat)
    requires d < e <= n && (e == n || e % CHUNK == 0 || (off + e) % BSIZE == 0)
    ensures d + Piece(off + d, off + ChunkEnd(d, n)) <= e
    ensures (off + d) / BSIZE - off / BSIZE + 1 <= Blocks(off, e) && ChunkEnd(d, n) <= ChunkEnd(e - 1, n)
  {
    NextEdge(off + d, off + e, BSIZE);
    NextEdge(d, e, CHUNK);
  }

  /** A multiple of m beyond d is at or beyond the first one. */
  lemma NextEdge(d: nat, e: nat, m: nat)
    requires d < e && 0 < m
    ensures e % m == 0 ==> d - d % m + m <= e
    ensures d / m <= (e - 1) / m && d - d % m <= e - 1 - (e - 1) % m
  {
    InOrder(d / m, (e - 1) / m, d % m, (e - 1) % m, m);
    if e % m == 0 {
      InOrder(d / m, e / m - 1, d % m, m - 1, m);
    }
  }

  lemma InOrder(q: int, p: int, x: int, y: int, m: int)
    requires m * q + x <= m * p + y && 0 <= x && y < m && 0 < m
    ensures q <= p && m * q <= m * p
  {
    if q > p {
      Monotone(p + 1, q, m);
    } else {
      Monotone(q, p, m);
    }
  }

  lemma Monotone(a: int, b: int, m: int)
    requires a <= b && 0 < m
    ensures m * a <= m * b
  {
    assert m * (b - a) >= 0;
  }

  /** Between two transactions. */
  ghost predicate Going(size: nat, c0: nat, f0: set<Slot>, c1: nat, f1: set<Slot>, i: nat, off: nat, d: nat, n: nat,
                        can: nat) {
    && Reached(size, c0, f0, i, off, d, n, can) && (d == n || d % CHUNK == 0)
    && Paid(c0, f0, c1, f1, i, off / BSIZE, Blocks(off, d))
  }

  lemma GoingStart(size: nat, c: nat, f: set<Slot>, i: nat, off: nat, n: nat, can: nat)
    ensures Going(size, c, f, c, f, i, off, 0, n, can)
  {
  }

  lemma GoingEnd(size: nat, c0: nat, f0: set<Slot>, c1: nat, f1: set<Slot>, i: nat, off: nat, n: nat, can: nat)
    requires Going(size, c0, f0, c1, f1, i, off, n, n, can)
    ensures Ended(size, c0, f0, i, off, n, n, can) && Kept(size, c0, f0, i, off, n, n, can) == n
  {
  }

  lemma StepRefused(size: nat, c0: nat, f0: set<Slot>, c1: nat, f1: set<Slot>, i: nat, off: nat, d: nat, n: nat,
      can: nat)
    requires Going(size, c0, f0, c1, f1, i, off, d, n, can) && Refused(size, off, d, n)
    ensures Ended(size, c0, f0, i, off, d, n, can) && Kept(size, c0, f0, i, off, d, n, can) == d
  {
  }

  /** The blocks of the chunk at off + d come after those before it, or begin with the last of them. */
  lemma NeedChunk(f0: set<Slot>, i: nat, off: nat, d: nat, m: nat)
    requires m > 0 || d == 0 || (off + d) % BSIZE == 0
    ensures var k, bn := Blocks(off, d), off / BSIZE;
            && Need(f0, i, bn, (off + d) / BSIZE - bn + m) ==
               Need(f0, i, bn, k) + Need(Fill(f0, i, bn, k), i, (off + d) / BSIZE, m)
            && Fill(f0, i, bn, (off + d) / BSIZE - bn + m) == Fill(Fill(f0, i, bn, k), i, (off + d) / BSIZE, m)
  {
    hide Need, Fill;
    NeedOn(f0, i, off / BSIZE, Blocks(off, d), (off + d) / BSIZE, m);
  }

  /** A transaction in which the disk is full. */
  lemma StepFull(size: nat, c0: nat, f0: set<Slot>, c1: nat, f1: set<Slot>, c2: nat, f2: set<Slot>, i: nat, off: nat,
                 d: nat, n: nat, can: nat, r: nat, n1: nat)
    requires Going(size, c0, f0, c1, f1, i, off, d, n, can) && d < n && n1 == ChunkEnd(d, n) - d && r < n1
    requires !Refused(size, off, d, n) && Stopped(off + d, r, n1, can - d, true)
    requires Spent(c1, f1, c2, f2, i, off + d, n1, can - d, r, true)
    ensures Ended(size, c0, f0, i, off, d + r, n, can) && Kept(size, c0, f0, i, off, d + r, n, can) == d + r
  {
    hide Need, Fill;
    var t := (off + d + r) / BSIZE - (off + d) / BSIZE;
    NeedChunk(f0, i, off, d, t + 1);
    assert NoRoom(c0, f0, i, off, d + r);
    if r > 0 {
      BlockEnd(off, d, r);
      NeedChunk(f0, i, off, d, t);
      SameChunk(d, r, n);
    }
  }

  lemma BlockEnd(off: nat, d: nat, r: nat)
    requires r > 0 && (off + d + r) % BSIZE == 0
    ensures Blocks(off, d + r) == (off + d + r) / BSIZE - off / BSIZE && (off + d + r) / BSIZE > (off + d) / BSIZE
  {
  }

  lemma SameChunk(d: nat, r: nat, n: nat)
    requires d < n && d % CHUNK == 0 && 0 < r <= ChunkEnd(d, n) - d
    ensures ChunkEnd(d + r - 1, n) == ChunkEnd(d, n)
    ensures r < ChunkEnd(d, n) - d ==> ChunkEnd(d + r, n) == ChunkEnd(d, n) && (d + r) % CHUNK != 0
    ensures r == ChunkEnd(d, n) - d ==> d + r == n || (d + r) % CHUNK == 0
  {
    assert CHUNK == 3072;
    assert (d + r - 1) % 3072 == r - 1;
    if r < 3072 { assert (d + r) % 3072 == r; }
  }

  /** A transaction whose source is not accessible as far as it goes. */
  lemma StepShort(size: nat, c0: nat, f0: set<Slot>, c1: nat, f1: set<Slot>, c2: nat, f2: set<Slot>, i: nat, off: nat,
                  d: nat, n: nat, can: nat, r: nat, n1: nat)
    requires Going(size, c0, f0, c1, f1, i, off, d, n, can) && d < n && n1 == ChunkEnd(d, n) - d && r < n1
    requires !Refused(size, off, d, n) && Stopped(off + d, r, n1, can - d, false)
    requires Spent(c1, f1, c2, f2, i, off + d, n1, can - d, r, false)
    ensures Ended(size, c0, f0, i, off, d + r, n, can) && Kept(size, c0, f0, i, off, d + r, n, can) == can
  {
    hide Need, Fill, Spent;
    var t := (off + d + r) / BSIZE - (off + d) / BSIZE;
    ShortTries(off, d, r, n1, can);
    NeedChunk(f0, i, off, d, t + 1);
    assert c1 >= Need(f1, i, (off + d) / BSIZE, t + 1) by { SpentPaid(c1, f1, c2, f2, i, off + d, n1, can - d, r); }
    assert !NoRoom(c0, f0, i, off, d + r);
    if r > 0 {
      BlockEnd(off, d, r);
      NeedGrows(f0, i, off / BSIZE, Blocks(off, d + r), Blocks(off, d + r) + 1);
      SameChunk(d, r, n);
    }
  }

  lemma SpentPaid(c0: nat, f0: set<Slot>, c1: nat, f1: set<Slot>, i: nat, off: nat, n: nat, can: nat, tot: nat)
    requires Spent(c0, f0, c1, f1, i, off, n, can, tot, false)
    ensures Paid(c0, f0, c1, f1, i, off / BSIZE, Tries(off, n, can))
  {
  }

  lemma ShortTries(off: nat, d: nat, r: nat, n1: nat, can: nat)
    requires d <= can && r < n1 && Stopped(off + d, r, n1, can - d, false)
    ensures can - d < n1
            && Tries(off + d, n1, can - d) == (off + d + r) / BSIZE - (off + d) / BSIZE + 1
  {
    assert (off + can) / BSIZE == (off + d + r) / BSIZE;
  }

  /** A transaction that writes its whole chunk. */
  lemma StepOn(size: nat, c0: nat, f0: set<Slot>, c1: nat, f1: set<Slot>, c2: nat, f2: set<Slot>, i: nat, off: nat,
               d: nat, n: nat, can: nat, n1: nat)
    requires Going(size, c0, f0, c1, f1, i, off, d, n, can) && d < n && n1 == ChunkEnd(d, n) - d && d + n1 <= can
    requires !Refused(size, off, d, n) && Spent(c1, f1, c2, f2, i, off + d, n1, can - d, n1, false)
    ensures Going(size, c0, f0, c2, f2, i, off, d + n1, n, can)
  {
    hide Need, Fill, Spent;
    SpentPaid(c1, f1, c2, f2, i, off + d, n1, can - d, n1);
    NeedChunk(f0, i, off, d, Blocks(off + d, n1));
    SameChunk(d, n1, n);
  }

  /** The chunk that the loop makes, and when writei refuses it. */
  lemma ChunkIs(size: nat, c0: nat, f0: set<Slot>, c1: nat, f1: set<Slot>, i: nat, off: nat, d: nat, n: nat, can: nat,
                now: nat, n1: nat, r: int)
    requires Going(size, c0, f0, c1, f1, i, off, d, n, can) && d < n && n1 == if n - d > CHUNK then CHUNK else n - d
    requires r == -1 <==> off + d > now || off + d + n1 > MAXFILE * BSIZE
    requires if d == 0 then now == size else off + d <= now
    ensures n1 == ChunkEnd(d, n) - d && (r == -1 <==> Refused(size, off, d, n))
  {
    hide Reached, Paid;
  }

  /** A transaction that is the last one. */
  lemma StepStops(size: nat, c0: nat, f0: set<Slot>, c1: nat, f1: set<Slot>, c2: nat, f2: set<Slot>, i: nat, off: nat,
                  d: nat, n: nat, can: nat, r: int, n1: nat, full: bool)
    requires Going(size, c0, f0, c1, f1, i, off, d, n, can) && d < n && n1 == ChunkEnd(d, n) - d && -1 <= r < n1
    requires (r == -1 <==> Refused(size, off, d, n)) && d <= can
    requires r != -1 ==> Stopped(off + d, r, n1, can - d, full)
                         && Spent(c1, f1, c2, f2, i, off + d, n1, can - d, r, full)
    ensures var e := if r == -1 then d else d + r;
            && Ended(size, c0, f0, i, off, e, n, can)
            && Kept(size, c0, f0, i, off, e, n, can) == if r == -1 then d else d + Stored(r, n1, can - d, full)
  {
    hide Going, Refused, Stopped, Spent, Ended, Kept, ChunkEnd;
    if r == -1 {
      StepRefused(size, c0, f0, c1, f1, i, off, d, n, can);
    } else if full {
      StepFull(size, c0, f0, c1, f1, c2, f2, i, off, d, n, can, r, n1);
    } else {
      StepShort(size, c0, f0, c1, f1, c2, f2, i, off, d, n, can, r, n1);
    }
  }

  class FileSystem {
    const g: Geometry
    var blocks: seq<Block>
    var bitmap: seq<MapBlock>
    var addrs: seq<seq<int>>     // ip->addrs of every inode
    var sizes: seq<nat>          // ip->size of every inode
    var dinodes: seq<Dinode>

    ghost var used: seq<bool>        // the bitmap, bit by bit
    ghost var owner: map<int, Slot>  // who holds each allocated block
    ghost var held: set<int>         // allocated and not yet recorded anywhere
    ghost var logged: set<int>       // the blocks log_write was called on in this transaction
    ghost var maps: set<int>         // those of them that are bitmap blocks of balloc
    ghost var allocs: nat            // successful calls of balloc in this transaction
    ghost var peak: nat              // the largest |logged| found by a call of log_write

    ghost predicate Shape()
      reads this
    {
      && g.Ok() && |blocks| == g.size && Sized(blocks)
      && Table(g.ninodes, addrs) && |sizes| == g.ninodes && |dinodes| == g.ninodes
    }

    /** The bitmap, the address tables and the indirect blocks agree on who holds what. */
    ghost predicate Valid()
      reads this
    {
      && Shape()
      && Spells(g, bitmap, used) && Marked(g, used, owner, held) && Owned(g, blocks, addrs, owner)
    }

    /** The image that mkfs makes before it adds files: the blocks before the data area are in use, and no other. */
    constructor (g: Geometry)
      requires g.Ok()
      ensures this.g == g && Valid() && AllDense() && held == {} && owner == map[] && sizes == seq(g.ninodes, _ => 0)
    {
      this.g := g;
      blocks, bitmap := seq(g.size, _ => Zeros()), seq(g.size / BPB + 1, _ => seq(BSIZE, _ => 0));
      addrs, sizes := seq(g.ninodes, _ => seq(NDIRECT + 1, _ => 0)), seq(g.ninodes, _ => 0);
      dinodes := seq(g.ninodes, _ => Dinode(seq(NDIRECT + 1, _ => 0), 0));
      used, owner, held, logged, maps, allocs, peak := seq(g.size, _ => false), map[], {}, {}, {}, 0, 0;
      new;
      NothingOwned(g, blocks, addrs);
      NothingSpelled(g, bitmap, used);
      forall i {:trigger sizes[i]} | 0 <= i < g.ninodes ensures Dense(blocks, addrs, i, sizes[i]) {
        DenseEmpty(blocks, addrs, i);
      }
      MarkMetadata();
    }

    /** The loop of mkfs's balloc. */
    method MarkMetadata()
      requires Shape() && Spells(g, bitmap, used) && owner == map[] && held == {} && forall b ::
                 0 <= b < g.size ==> !used[b]
      modifies this`bitmap, this`used
      ensures Spells(g, bitmap, used) && Marked(g, used, owner, held)
    {
      hide Spells, SetBit, Sized, Table;
      var b := 0;
      SpellsSize(g, bitmap, used);
      while b < g.datastart
        invariant 0 <= b <= g.datastart && Spells(g, bitmap, used) && |used| == g.size
        invariant forall c {:trigger used[c]} :: 0 <= c < g.size ==> (used[c] <==> c < b)
      {
        SpellsChange(g, bitmap, used, b);
        bitmap := bitmap[b / BPB := SetBit(bitmap[b / BPB], b % BPB)];
        used := used[b := true];
        b := b + 1;
      }
    }

    // -------------------------------------------------------------- balloc, bfree

    /** The inner loop of balloc's search: the lowest clear bit of the bitmap block for `base`. */
    method ScanMap(base: nat) returns (bi: nat)
      requires g.Ok() && Spells(g, bitmap, used) && base % BPB == 0 && base < g.size
      ensures bi <= BPB && |used| == g.size && base + bi <= g.size && (forall c :: base <= c < base + bi ==> used[c])
      ensures bi < BPB && base + bi < g.size ==> !used[base + bi]
    {
      hide Spells, Has;
      SpelledBit(g, bitmap, used, base, 0);
      var bp := bitmap[base / BPB];
      bi := 0;
      while bi < BPB && base + bi < g.size
        invariant bi <= BPB && base + bi <= g.size && forall c :: base <= c < base + bi ==> used[c]
      {
        SpelledBit(g, bitmap, used, base, bi);
        if !Has(bp[bi / 8], bi % 8) {
          return;
        }
        bi := bi + 1;
      }
    }

    /** The search of balloc: the lowest clear bit, or the size of the disk if there is none. */
    method FirstFree() returns (b: int)
      requires Valid()
      ensures 0 <= b <= g.size == |used| && (forall c :: 0 <= c < b ==> used[c]) && (b < g.size ==> !used[b])
    {
      hide Spells, Owned, Marked;
      SpellsChange(g, bitmap, used, 0);
      var base := 0;
      while base < g.size
        invariant 0 <= base && base % BPB == 0
        invariant forall c :: 0 <= c < base && c < g.size ==> used[c]
      {
        var bi := ScanMap(base);
        if bi < BPB && base + bi < g.size {
          return base + bi;
        }
        base := base + BPB;
      }
      b := g.size;
    }

    /** The part of balloc and bzero that takes free block b. */
    method TakeBlock(b: int)
      requires Valid() && 0 <= b < g.size && !used[b]
      modifies this`blocks, this`bitmap, this`used, this`held, this`logged, this`maps, this`allocs, this`peak
      ensures Valid() && g.datastart <= b && b !in owner && b !in old(held)
      ensures used == old(used)[b := true] && held == old(held) + {b} && blocks == old(blocks)[b := Zeros()]
      ensures logged == old(logged) + {g.MapBlockOf(b), b} && maps == old(maps) + {g.MapBlockOf(b)}
      ensures allocs == old(allocs) + 1 && (old(peak) <= |old(logged)| ==> peak <= |logged|)
      ensures Clear(old(used)) == Clear(used) + 1
      ensures Logged(g, old(blocks), old(bitmap), old(logged), blocks, bitmap, logged, -1)
    {
      hide Owned, Ptr, BitAt, With, Spells, Marked, Zeros, Table, Clear, Logged;
      MarkedAlloc(g, used, owner, held, b);
      ClearTaken(used, b);
      SpellsChange(g, bitmap, used, b);
      OwnedWrite(g, blocks, addrs, owner, b, Zeros());
      var m, bi := b / BPB, b % BPB;
      LoggedTake(g, blocks, bitmap, logged, b, Zeros(), bitmap[m][bi / 8 := With(bitmap[m][bi / 8], bi % 8)]);
      bitmap := bitmap[m := bitmap[m][bi / 8 := With(bitmap[m][bi / 8], bi % 8)]];
      blocks := blocks[b := Zeros()];
      used, held := used[b := true], held + {b};
      NoteTake(b);
    }

    /** The two calls of log_write that go with it. */
    ghost method NoteTake(b: nat)
      modifies this`logged, this`maps, this`allocs, this`peak
      ensures logged == old(logged) + {g.MapBlockOf(b), b} && maps == old(maps) + {g.MapBlockOf(b)}
      ensures allocs == old(allocs) + 1 && (old(peak) <= |old(logged)| ==> peak <= |logged|)
    {
      var marked := logged + {g.MapBlockOf(b)};
      Grows(logged, g.MapBlockOf(b));
      Grows(marked, b);
      assert marked + {b} == logged + {g.MapBlockOf(b), b};
      maps, allocs := maps + {g.MapBlockOf(b)}, allocs + 1;
      peak, logged := Seen(Seen(peak, logged), marked), marked + {b};
    }

    /** balloc: takes the lowest free block and zeroes it; 0 if every bit is set. */
    method Balloc() returns (b: int)
      requires Valid()
      modifies this`blocks, this`bitmap, this`used, this`held, this`logged, this`maps, this`allocs, this`peak
      ensures Valid()
      ensures b == 0 ==>
                && AllUsed(used) && Clear(used) == 0
                && blocks == old(blocks) && bitmap == old(bitmap) && held == old(held) && used == old(used)
                && logged == old(logged) && maps == old(maps) && allocs == old(allocs) && peak == old(peak)
      ensures b != 0 ==>
                && g.datastart <= b < g.size && !old(used)[b] && (forall c :: 0 <= c < b ==> old(used)[c])
                && used == old(used)[b := true] && held == old(held) + {b} && b !in owner && b !in old(held)
                && blocks == old(blocks)[b := Zeros()]
                && logged == old(logged) + {g.MapBlockOf(b), b} && maps == old(maps) + {g.MapBlockOf(b)}
                && allocs == old(allocs) + 1 && (old(peak) <= |old(logged)| ==> peak <= |logged|)
                && Clear(old(used)) == Clear(used) + 1
      ensures Logged(g, old(blocks), old(bitmap), old(logged), blocks, bitmap, logged, -1)
    {
      hide Owned, Spells, Marked, Zeros, Clear, Logged;
      LoggedRefl(g, blocks, bitmap, logged, -1);
      b := FirstFree();
      if b == g.size {
        NoneClear(used);
        b := 0;
      } else {
        TakeBlock(b);
      }
    }

    // ----------------------------------------------------------------- bmap

    /** The slot of block b recorded: it moves from the allocator's hands to its owner. */
    ghost method Record(b: int, sl: Slot)
      requires Marked(g, used, owner, held) && b in held
      modifies this`owner, this`held
      ensures Marked(g, used, owner, held) && owner == old(owner)[b := sl] && held == old(held) - {b}
    {
      MarkedRecord(g, used, owner, held, b, sl);
      owner, held := owner[b := sl], held - {b};
    }

    /** The direct case of bmap. */
    method BmapDirect(i: nat, k: nat) returns (addr: int)
      requires Valid() && i < g.ninodes && k < NDIRECT
      modifies this`blocks, this`bitmap, this`addrs, this`used, this`owner, this`held, this`logged, this`maps,
          this`allocs, this`peak
      ensures Valid() && held == old(held)
      ensures Grown(g, old(blocks), old(addrs), old(owner), blocks, addrs, owner, i)
      ensures addr == Ptr(blocks, addrs, Direct(i, k))
      ensures addr == 0 ==> AllUsed(used)
      ensures TookOne(Clear(old(used)), Filled(old(owner)), Clear(used), Filled(owner), Direct(i, k), addr != 0)
      ensures Logged(g, old(blocks), old(bitmap), old(logged), blocks, bitmap, logged, -1)
      ensures old(addrs)[i][k] != 0 ==> unchanged(this)
      ensures old(addrs)[i][k] == 0 && addr != 0 ==> blocks[addr] == Zeros() && addr !in old(owner)
      ensures Accounted(old(logged), old(maps), old(allocs), logged, maps, allocs, {addr})
      ensures allocs <= old(allocs) + if old(addrs)[i][k] == 0 then 1 else 0
      ensures old(peak) <= |old(logged)| ==> peak <= |logged|
    {
      hide Owned, Spells, Marked, Zeros, Grown, Accounted, Clear, Filled, Logged;
      addr := addrs[i][k];
      FilledIs(g, blocks, addrs, owner, Direct(i, k));
      LoggedRefl(g, blocks, bitmap, logged, -1);
      assert Direct(i, k) in Filled(owner) ==> Filled(owner) + {Direct(i, k)} == Filled(owner);
      GrownRefl(g, blocks, addrs, owner, i);
      AccountedRefl(logged, maps, allocs, {addr});
      if addr == 0 {
        addr := Balloc();
        if addr == 0 {
          return;
        }
        GrownAlloc(g, old(blocks), addrs, owner, addr, i);
        GrownDirect(g, blocks, addrs, owner, i, k, addr);
        GrownTrans(g, old(blocks), addrs, owner, blocks, addrs, owner,
                   blocks, addrs[i := addrs[i][k := addr]], owner[addr := Direct(i, k)], i);
        AccountedAlloc(old(logged), old(maps), old(allocs), g.MapBlockOf(addr), addr);
        FilledPut(owner, addr, Direct(i, k));
        addrs := addrs[i := addrs[i][k := addr]];
        Record(addr, Direct(i, k));
      }
    }

    /** "Load indirect block, allocating if necessary." */
    method LoadRoot(i: nat) returns (addr: int)
      requires Valid() && i < g.ninodes
      modifies this`blocks, this`bitmap, this`addrs, this`used, this`owner, this`held, this`logged, this`maps,
          this`allocs, this`peak
      ensures Valid() && held == old(held)
      ensures Grown(g, old(blocks), old(addrs), old(owner), blocks, addrs, owner, i)
      ensures addr == RootOf(addrs, i)
      ensures addr == 0 ==> AllUsed(used)
      ensures TookOne(Clear(old(used)), Filled(old(owner)), Clear(used), Filled(owner), Root(i), addr != 0)
      ensures Logged(g, old(blocks), old(bitmap), old(logged), blocks, bitmap, logged, -1)
      ensures RootOf(old(addrs), i) != 0 ==> unchanged(this)
      ensures forall j ::
                0 <= j < NINDIRECT ==> Ptr(blocks, addrs, Leaf(i, j)) == Ptr(old(blocks), old(addrs), Leaf(i, j))
      ensures Accounted(old(logged), old(maps), old(allocs), logged, maps, allocs, {addr})
      ensures allocs <= old(allocs) + if RootOf(old(addrs), i) == 0 then 1 else 0
      ensures old(peak) <= |old(logged)| ==> peak <= |logged|
    {
      hide Owned, Spells, Marked, Zeros, Grown, Accounted, Ptr, Clear, Filled, Logged;
      addr := addrs[i][NDIRECT];
      RootFilled(g, blocks, addrs, owner, i);
      LoggedRefl(g, blocks, bitmap, logged, -1);
      assert Root(i) in Filled(owner) ==> Filled(owner) + {Root(i)} == Filled(owner);
      GrownRefl(g, blocks, addrs, owner, i);
      AccountedRefl(logged, maps, allocs, {addr});
      if addr == 0 {
        addr := Balloc();
        if addr == 0 {
          return;
        }
        GrownAlloc(g, old(blocks), addrs, owner, addr, i);
        OwnedWrite(g, old(blocks), addrs, owner, addr, Zeros());
        GrownRoot(g, blocks, addrs, owner, i, addr);
        OwnedRoot(g, blocks, addrs, owner, i, addr);
        GrownTrans(g, old(blocks), addrs, owner, blocks, addrs, owner,
                   blocks, addrs[i := addrs[i][NDIRECT := addr]], owner[addr := Root(i)], i);
        AccountedAlloc(old(logged), old(maps), old(allocs), g.MapBlockOf(addr), addr);
        FilledPut(owner, addr, Root(i));
        addrs := addrs[i := addrs[i][NDIRECT := addr]];
        Record(addr, Root(i));
      }
    }

    /** Entry j of indirect block r, allocating if necessary. */
    method LoadEntry(i: nat, r: int, j: nat) returns (addr: int)
      requires Valid() && i < g.ninodes && j < NINDIRECT && r == RootOf(addrs, i) != 0 && r in owner
               && owner[r] == Root(i)
      modifies this`blocks, this`bitmap, this`used, this`owner, this`held, this`logged, this`maps, this`allocs,
          this`peak
      ensures Valid() && held == old(held)
      ensures Grown(g, old(blocks), addrs, old(owner), blocks, addrs, owner, i)
      ensures addr == Ptr(blocks, addrs, Leaf(i, j))
      ensures addr == 0 ==> AllUsed(used)
      ensures TookOne(Clear(old(used)), Filled(old(owner)), Clear(used), Filled(owner), Leaf(i, j), addr != 0)
      ensures Logged(g, old(blocks), old(bitmap), old(logged), blocks, bitmap, logged, -1)
      ensures Ptr(old(blocks), addrs, Leaf(i, j)) != 0 ==> unchanged(this)
      ensures Ptr(old(blocks), addrs, Leaf(i, j)) == 0 && addr != 0 ==>
                g.datastart <= addr < g.size && blocks[addr] == Zeros() && addr !in old(owner)
      ensures Accounted(old(logged), old(maps), old(allocs), logged, maps, allocs, {addr, r})
      ensures allocs <= old(allocs) + if Ptr(old(blocks), addrs, Leaf(i, j)) == 0 then 1 else 0
      ensures old(peak) <= |old(logged)| ==> peak <= |logged|
    {
      hide Spells, Marked, Zeros, Grown, Accounted, WordAt, PutWord, Clear, Filled, Logged;
      addr := WordAt(blocks[r], j);
      assert addr == Ptr(blocks, addrs, Leaf(i, j));
      FilledIs(g, blocks, addrs, owner, Leaf(i, j));
      LoggedRefl(g, blocks, bitmap, logged, -1);
      assert Leaf(i, j) in Filled(owner) ==> Filled(owner) + {Leaf(i, j)} == Filled(owner);
      GrownRefl(g, blocks, addrs, owner, i);
      AccountedRefl(logged, maps, allocs, {addr, r});
      if addr == 0 {
        addr := NewEntry(i, r, j);
      }
    }

    /** The allocating branch of LoadEntry. */
    method NewEntry(i: nat, r: int, j: nat) returns (addr: int)
      requires Valid() && i < g.ninodes && j < NINDIRECT && r == RootOf(addrs, i) != 0 && r in owner
               && owner[r] == Root(i)
      requires Ptr(blocks, addrs, Leaf(i, j)) == 0 && 0 <= r < g.size
      modifies this`blocks, this`bitmap, this`used, this`owner, this`held, this`logged, this`maps, this`allocs,
          this`peak
      ensures Valid() && held == old(held)
      ensures Grown(g, old(blocks), addrs, old(owner), blocks, addrs, owner, i)
      ensures addr == Ptr(blocks, addrs, Leaf(i, j))
      ensures addr == 0 ==> AllUsed(used)
      ensures TookOne(Clear(old(used)), Filled(old(owner)), Clear(used), Filled(owner), Leaf(i, j), addr != 0)
      ensures Logged(g, old(blocks), old(bitmap), old(logged), blocks, bitmap, logged, -1)
      ensures addr != 0 ==> g.datastart <= addr < g.size && blocks[addr] == Zeros() && addr !in old(owner)
      ensures Accounted(old(logged), old(maps), old(allocs), logged, maps, allocs, {addr, r})
      ensures allocs <= old(allocs) + 1
      ensures old(peak) <= |old(logged)| ==> peak <= |logged|
    {
      hide Owned, Spells, Marked, Zeros, Grown, Accounted, WordAt, PutWord, Ptr, AllUsed, Seen, Sized, Table, Clear,
        Filled, Logged;
      GrownRefl(g, blocks, addrs, owner, i);
      AccountedRefl(logged, maps, allocs, {0, r});
      FilledIs(g, blocks, addrs, owner, Leaf(i, j));
      addr := Balloc();
      if addr != 0 {
        GrownAlloc(g, old(blocks), addrs, owner, addr, i);
        OwnedWrite(g, old(blocks), addrs, owner, addr, Zeros());
        GrownLeaf(g, blocks, addrs, owner, i, j, addr);
        GrownTrans(g, old(blocks), addrs, owner, blocks, addrs, owner,
                   blocks[r := PutWord(blocks[r], j, addr)], addrs, owner[addr := Leaf(i, j)], i);
        AccountedAlloc(old(logged), old(maps), old(allocs), g.MapBlockOf(addr), addr);
        AccountedMore(old(logged), old(maps), old(allocs), logged, maps, allocs, {addr}, r);
        assert {addr} + {r} == {addr, r};
        FilledPut(owner, addr, Leaf(i, j));
        LoggedStore(g, blocks, bitmap, logged, logged + {r}, r, PutWord(blocks[r], j, addr), -1);
        LoggedTrans(g, old(blocks), old(bitmap), old(logged), blocks, bitmap, logged,
                    blocks[r := PutWord(blocks[r], j, addr)], bitmap, logged + {r}, -1);
        PutEntry(r, j, addr);
        Record(addr, Leaf(i, j));
      }
    }

    /** The store into the indirect block and its log_write. */
    method PutEntry(r: nat, j: nat, addr: int)
      requires r < |blocks| && |blocks[r]| == BSIZE && j < NINDIRECT
      modifies this`blocks, this`logged, this`peak
      ensures blocks == old(blocks)[r := PutWord(old(blocks)[r], j, addr)] && logged == old(logged) + {r}
      ensures old(peak) <= |old(logged)| ==> peak <= |logged|
    {
      SeenBound(peak, logged, r);
      blocks := blocks[r := PutWord(blocks[r], j, addr)];
      peak, logged := Seen(peak, logged), logged + {r};
    }

    /** bmap: the address of block bn of inode i, allocated if necessary; 0 if out of space. */
    method Bmap(i: nat, bn: nat) returns (addr: int)
      requires Valid() && i < g.ninodes && bn < MAXFILE
      modifies this`blocks, this`bitmap, this`addrs, this`used, this`owner, this`held, this`logged, this`maps,
          this`allocs, this`peak
      ensures Valid() && held == old(held)
      ensures Grown(g, old(blocks), old(addrs), old(owner), blocks, addrs, owner, i)
      ensures addr == Ptr(blocks, addrs, FileSlot(i, bn))
      ensures addr == 0 ==> Ptr(old(blocks), old(addrs), FileSlot(i, bn)) == 0 && AllUsed(used)
      ensures Took(Clear(old(used)), Filled(old(owner)), Clear(used), Filled(owner), i, bn, addr != 0)
      ensures Logged(g, old(blocks), old(bitmap), old(logged), blocks, bitmap, logged, -1)
      ensures Ptr(old(blocks), old(addrs), FileSlot(i, bn)) != 0 ==> unchanged(this)
      ensures Accounted(old(logged), old(maps), old(allocs), logged, maps, allocs, {addr, RootOf(addrs, i)})
      ensures allocs <= old(allocs) + (if Ptr(old(blocks), old(addrs), FileSlot(i, bn)) == 0 then 1 else 0)
                                    + (if RootOf(addrs, i) != RootOf(old(addrs), i) then 1 else 0)
      ensures old(peak) <= |old(logged)| ==> peak <= |logged|
    {
      hide Owned, Spells, Marked, Zeros, Grown, Accounted, Clear, Filled, Logged, Took, TookOne;
      if bn < NDIRECT {
        addr := BmapDirect(i, bn);
        TookDirect(Clear(old(used)), Filled(old(owner)), Clear(used), Filled(owner), i, bn, addr != 0);
        AccountedWiden(old(logged), old(maps), old(allocs), logged, maps, allocs, {addr}, {addr, RootOf(addrs, i)});
      } else {
        addr := BmapIndirect(i, bn - NDIRECT);
      }
    }

    /** The indirect case of bmap. */
    method BmapIndirect(i: nat, j: nat) returns (addr: int)
      requires Valid() && i < g.ninodes && j < NINDIRECT
      modifies this`blocks, this`bitmap, this`addrs, this`used, this`owner, this`held, this`logged, this`maps,
          this`allocs, this`peak
      ensures Valid() && held == old(held)
      ensures Grown(g, old(blocks), old(addrs), old(owner), blocks, addrs, owner, i)
      ensures addr == Ptr(blocks, addrs, Leaf(i, j))
      ensures addr == 0 ==> AllUsed(used)
      ensures Took(Clear(old(used)), Filled(old(owner)), Clear(used), Filled(owner), i, NDIRECT + j, addr != 0)
      ensures Logged(g, old(blocks), old(bitmap), old(logged), blocks, bitmap, logged, -1)
      ensures Ptr(old(blocks), old(addrs), Leaf(i, j)) != 0 ==> unchanged(this)
      ensures Accounted(old(logged), old(maps), old(allocs), logged, maps, allocs, {addr, RootOf(addrs, i)})
      ensures allocs <= old(allocs) + (if Ptr(old(blocks), old(addrs), Leaf(i, j)) == 0 then 1 else 0)
                                    + (if RootOf(addrs, i) != RootOf(old(addrs), i) then 1 else 0)
      ensures old(peak) <= |old(logged)| ==> peak <= |logged|
    {
      hide Spells, Marked, Zeros, Grown, Accounted, WordAt, Clear, Filled, Logged, Took, TookOne;
      addr := LoadRoot(i);
      if addr == 0 {
        TookNoRoot(Clear(old(used)), Filled(old(owner)), Clear(used), Filled(owner), i, NDIRECT + j);
        AccountedWiden(old(logged), old(maps), old(allocs), logged, maps, allocs, {addr}, {addr, RootOf(addrs, i)});
        return;
      }
      var r := addr;
      assert Ptr(blocks, addrs, Root(i)) == r;
      ghost var b1, a1, o1, l1, m1, n1, u1, bm1 := blocks, addrs, owner, logged, maps, allocs, used, bitmap;
      addr := LoadEntry(i, r, j);
      TookIndirect(Clear(old(used)), Filled(old(owner)), Clear(u1), Filled(o1), Clear(used), Filled(owner), i,
                   NDIRECT + j, addr != 0);
      LoggedTrans(g, old(blocks), old(bitmap), old(logged), b1, bm1, l1, blocks, bitmap, logged, -1);
      GrownTrans(g, old(blocks), old(addrs), old(owner), b1, a1, o1, blocks, addrs, owner, i);
      AccountedTrans(old(logged), old(maps), old(allocs), l1, m1, n1, logged, maps, allocs, {r}, {addr, r});
      assert {r} + {addr, r} == {addr, r};
    }

    // --------------------------------------------------------- readi, writei

    ghost predicate AllDense()
      reads this
    {
      EachDense(g.ninodes, blocks, addrs, sizes)
    }

    /** One trip of the loop in writei: bmap, bread, either_copyin, log_write, with the first `can` bytes of the chunk
        accessible. On a full disk nothing is stored, and otherwise what is accessible. */
    method WriteChunk(i: nat, pos: nat, chunk: seq<int>, can: nat) returns (ok: bool, ghost full: bool)
      requires Valid() && i < g.ninodes && pos % BSIZE + |chunk| <= BSIZE && pos < MAXFILE * BSIZE
      modifies this`blocks, this`bitmap, this`addrs, this`used, this`owner, this`held, this`logged, this`maps,
          this`allocs, this`peak
      ensures Valid() && held == old(held)
      ensures ChunkDone(g.ninodes, old(blocks), old(addrs), blocks, addrs, i, pos, chunk, can, ok, full)
              && (full ==> AllUsed(used))
      ensures Took(Clear(old(used)), Filled(old(owner)), Clear(used), Filled(owner), i, pos / BSIZE, !full)
              && Extends(old(owner), owner)
      ensures Logged(g, old(blocks), old(bitmap), old(logged), blocks, bitmap, logged,
                     if ok || full then -1 else Ptr(blocks, addrs, FileSlot(i, pos / BSIZE)))
      ensures RootOf(old(addrs), i) != 0 ==> RootOf(addrs, i) == RootOf(old(addrs), i)
      ensures Accounted(old(logged), old(maps), old(allocs), logged, maps, allocs,
                        {Ptr(blocks, addrs, FileSlot(i, pos / BSIZE)), RootOf(addrs, i)})
      ensures allocs <= old(allocs) + (if Ptr(old(blocks), old(addrs), FileSlot(i, pos / BSIZE)) == 0 then 1 else 0)
                                    + (if RootOf(addrs, i) != RootOf(old(addrs), i) then 1 else 0)
      ensures old(peak) <= |old(logged)| ==> peak <= |logged|
    {
      hide Owned, Spells, Marked, Zeros, Grown, Accounted, Ptr, Wrote, Reads, AllUsed, Seen, Sized, Table, Splice,
          Clear,
        Filled, Took, Extends, Logged;
      var addr := Bmap(i, pos / BSIZE);
      GrownExtends(g, old(blocks), old(addrs), old(owner), blocks, addrs, owner, i);
      if RootOf(old(addrs), i) != 0 {
        GrownRootKept(g, old(blocks), old(addrs), old(owner), blocks, addrs, owner, i);
      }
      if addr == 0 {
        GrownWrote(g, old(blocks), old(addrs), old(owner), blocks, addrs, owner, i, pos);
        ReadsNone(blocks, addrs, i, pos);
        assert chunk[..0] == [];
        return false, true;
      }
      full := false;
      ghost var b1, l1 := blocks, logged;
      SlotInRange(g, blocks, addrs, owner, i, pos / BSIZE);
      ghost var data := chunk[..Accessible(chunk, can)];
      ok := StoreChunk(addr, pos % BSIZE, chunk, can);
      ghost var spare := if ok then -1 else addr;
      LoggedStore(g, b1, bitmap, l1, logged, addr, Splice(b1[addr], pos % BSIZE, data), spare);
      LoggedTrans(g, old(blocks), old(bitmap), old(logged), b1, bitmap, l1, blocks, bitmap, logged, spare);
      ChunkWrote(g, old(blocks), old(addrs), old(owner), b1, addrs, owner, i, pos / BSIZE, pos % BSIZE, data);
      BlockStored(g, b1, addrs, owner, i, pos / BSIZE, Splice(b1[addr], pos % BSIZE, data));
      AccountedMore(old(logged), old(maps), old(allocs), l1, maps, allocs, {addr, RootOf(addrs, i)}, addr);
      assert {addr, RootOf(addrs, i)} + {addr} == {addr, RootOf(addrs, i)};
      assert IsSlot(g.ninodes, FileSlot(i, pos / BSIZE));
    }

    /** bread, either_copyin and log_write on block addr. A copy that fails has copied the pages before the one that is
        not accessible, and the block is then not logged. */
    method StoreChunk(addr: nat, at: nat, chunk: seq<int>, can: nat) returns (ok: bool)
      requires addr < |blocks| && |blocks[addr]| == BSIZE && at + |chunk| <= BSIZE
      modifies this`blocks, this`logged, this`peak
      ensures ok <==> |chunk| <= can
      ensures blocks == old(blocks)[addr := Splice(old(blocks)[addr], at, chunk[..Accessible(chunk, can)])]
      ensures logged == if ok then old(logged) + {addr} else old(logged)
      ensures old(peak) <= |old(logged)| ==> peak <= |logged|
    {
      ok := |chunk| <= can;
      blocks := blocks[addr := Splice(blocks[addr], at, chunk[..Accessible(chunk, can)])];
      if ok {
        SeenBound(peak, logged, addr);
        peak, logged := Seen(peak, logged), logged + {addr};
      }
    }

    /** iupdate: copies the in-memory inode to its place on disk. */
    method Iupdate(i: nat)
      requires |dinodes| == |sizes| == |addrs| == g.ninodes && i < g.ninodes
      modifies this`dinodes, this`logged, this`peak
      ensures dinodes == old(dinodes)[i := Dinode(addrs[i], sizes[i])]
      ensures logged == old(logged) + {g.InodeBlock(i)} && peak == Seen(old(peak), old(logged))
    {
      dinodes := dinodes[i := Dinode(addrs[i], sizes[i])];
      peak, logged := Seen(peak, logged), logged + {g.InodeBlock(i)};
    }

    /** The loop of writei: stores src from position off on, as far as space and the source allow. */
    method WriteLoop(i: nat, src: seq<int>, off: nat, can: nat)
      returns (tot: nat, ghost full: bool, ghost trips: nat, ghost gained: nat)
      requires Valid() && i < g.ninodes && off + |src| <= MAXFILE * BSIZE
      requires off % BSIZE != 0 ==> Ptr(blocks, addrs, FileSlot(i, off / BSIZE)) != 0
      modifies this`blocks, this`bitmap, this`addrs, this`used, this`owner, this`held, this`logged, this`maps,
          this`allocs, this`peak
      ensures Valid() && held == old(held) && (full ==> AllUsed(used))
      ensures Written(g.ninodes, old(blocks), old(addrs), blocks, addrs, i, off, src, tot, can, false, full)
      ensures exists data :: Tally(old(logged), old(maps), old(allocs), logged, maps, allocs,
                                   RootOf(old(addrs), i), RootOf(addrs, i), data, trips, gained)
      ensures Trips(off, tot, |src|, trips, false)
      ensures off % BSIZE != 0 && trips > 0 ==> gained < trips
      ensures old(peak) <= |old(logged)| ==> peak <= |logged|
      ensures Spent(Clear(old(used)), Filled(old(owner)), Clear(used), Filled(owner), i, off, |src|, can, tot, full)
              && Extends(old(owner), owner)
      ensures Logged(g, old(blocks), old(bitmap), old(logged), blocks, bitmap, logged,
                     Uncounted(blocks, addrs, i, off, tot, |src|, full))
    {
      hide Owned, Spells, Marked, Zeros, Accounted, Ptr, Wrote, Reads, Tally, AllUsed, Piece, Trips, Sized, Table,
          ChunkDone, Written, Clear, Filled, Took, Extends, Logged, Outlay, Spent, Place;
      ghost var data: set<int> := {};
      tot, full, trips, gained := 0, false, 0, 0;
      TripsStart(off, |src|);
      TallyStart(logged, maps, allocs, RootOf(addrs, i));
      WrittenStart(g.ninodes, blocks, addrs, i, off, src, can);
      OutlayStart(Clear(used), Filled(owner), i, off / BSIZE);
      PlaceStart(off, |src|, can);
      ghost var spare := -1;
      LoggedRefl(g, blocks, bitmap, logged, spare);
      ExtendsRefl(owner);
      var ok := true;
      while tot < |src| && ok
        invariant Valid() && held == old(held) && tot <= |src| && (full ==> AllUsed(used))
        invariant Written(g.ninodes, old(blocks), old(addrs), blocks, addrs, i, off, src, tot, can, ok, full)
        invariant Tally(old(logged), old(maps), old(allocs), logged, maps, allocs,
                        RootOf(old(addrs), i), RootOf(addrs, i), data, trips, gained)
        invariant old(peak) <= |old(logged)| ==> peak <= |logged|
        invariant trips == 0 ==> tot == 0 && blocks == old(blocks) && addrs == old(addrs)
        invariant Trips(off, tot, |src|, trips, ok)
        invariant gained <= trips && (off % BSIZE != 0 && trips > 0 ==> gained < trips)
        invariant Outlay(Clear(old(used)), Filled(old(owner)), Clear(used), Filled(owner), i, off / BSIZE, trips, full)
        invariant Place(off, tot, |src|, can, trips, ok, full) && Extends(old(owner), owner)
        invariant Logged(g, old(blocks), old(bitmap), old(logged), blocks, bitmap, logged, spare)
        invariant spare == if ok then -1 else Uncounted(blocks, addrs, i, off, tot, |src|, full)
        decreases |src| - tot, ok
      {
        ghost var b1, a1, l1, m1, n1, u1, o1, bm1 := blocks, addrs, logged, maps, allocs, used, owner, bitmap;
        WrittenSoFar(g.ninodes, old(blocks), old(addrs), blocks, addrs, i, off, src, tot, can, full);
        var pos := off + tot;
        var m := Piece(pos, off + |src|);
        ghost var f := if Ptr(blocks, addrs, FileSlot(i, pos / BSIZE)) == 0 then 1 else 0;
        ok, full := WriteChunk(i, pos, src[tot..tot + m], can - tot);
        ghost var p := Ptr(blocks, addrs, FileSlot(i, pos / BSIZE));
        TallyStep(old(logged), old(maps), old(allocs), l1, m1, n1, logged, maps, allocs,
                  RootOf(old(addrs), i), RootOf(a1, i), RootOf(addrs, i), data, trips, gained, p, f);
        var tot' := if ok then tot + m else tot;
        WrittenNext(g.ninodes, old(blocks), old(addrs), b1, a1, blocks, addrs, i, off, src, tot, can, pos, m, ok, full,
            tot');
        TripEnds(off, tot, |src|, trips, ok, pos, m, tot');
        AtBlock(off, tot, |src|, can, trips, pos);
        OutlayStep(Clear(old(used)), Filled(old(owner)), Clear(u1), Filled(o1), Clear(used), Filled(owner), i,
                   off / BSIZE, trips, full);
        PlaceNext(g.ninodes, b1, a1, blocks, addrs, i, off, src, tot, can, trips, ok, full, pos, m, tot');
        ExtendsTrans(old(owner), o1, owner);
        spare := if ok || full then -1 else p;
        LoggedTrans(g, old(blocks), old(bitmap), old(logged), b1, bm1, l1, blocks, bitmap, logged, spare);
        tot, data, trips, gained := tot', data + {p}, trips + 1, gained + f;
      }
      WrittenEnd(g.ninodes, old(blocks), old(addrs), blocks, addrs, i, off, src, tot, can, ok, full);
      TripsStop(off, tot, |src|, trips, ok);
      PlaceEnd(Clear(old(used)), Filled(old(owner)), Clear(used), Filled(owner), i, off, |src|, can, tot, trips, ok,
               full);
    }

    /** writei, with the first `can` bytes of the source accessible. The request is refused if it starts beyond the
        end, wraps around or would exceed the largest file; otherwise the file becomes what the flat write of the
        bytes stored makes of it: those that are counted and, if the loop stopped at a piece that cannot be copied
        whole, the accessible part of that piece. It finds the disk full exactly if there are fewer free blocks than it
        takes, and has then taken those that it could use; a write within the file never does. All that changes is
        logged, but for the block of a copy that failed. */
    method Writei(i: nat, src: seq<int>, off: nat, can: nat) returns (r: int, ghost full: bool)
      requires Valid() && held == {} && AllDense() && i < g.ninodes && off < UINT && |src| < UINT
      modifies this`blocks, this`bitmap, this`addrs, this`sizes, this`dinodes, this`used, this`owner, this`held,
               this`logged, this`maps, this`allocs, this`peak
      ensures Valid() && held == {} && AllDense()
      ensures r == -1 <==> off > old(sizes)[i] || (off + |src|) % UINT < off || off + |src| > MAXFILE * BSIZE
      ensures r == -1 ==> blocks == old(blocks) && bitmap == old(bitmap) && addrs == old(addrs) && sizes == old(sizes)
                          && dinodes == old(dinodes) && logged == old(logged) && peak == old(peak)
      ensures r != -1 ==>
                0 <= r <= Stored(r, |src|, can, full) <= |src| && Stopped(off, r, |src|, can, full)
                && (full ==> AllUsed(used))
      ensures r != -1 ==> sizes == old(sizes)[i := if off + r > old(sizes)[i] then off + r else old(sizes)[i]]
      ensures r != -1 ==>
                FlatWritten(Content(old(blocks), old(addrs), i, old(sizes)[i]), Content(blocks, addrs, i, sizes[i]),
                                      off, r, src[..Stored(r, |src|, can, full)])
      ensures r != -1 && full ==> Stored(r, |src|, can, full) == r < |src| && off + r >= old(sizes)[i]
      ensures r != -1 && !full ==>
                (Stored(r, |src|, can, full) == r <==> |src| <= can || can == 0 || (off + can) % BSIZE == 0)
      ensures SameOthers(old(blocks), old(addrs), old(sizes), blocks, addrs, sizes, i)
      ensures r == -1 ==> used == old(used) && owner == old(owner)
      ensures r != -1 ==>
                && Spent(Clear(old(used)), Filled(old(owner)), Clear(used), Filled(owner), i, off, |src|, can, r, full)
                && Extends(old(owner), owner) && Added(old(owner), owner, i, Extent(off, |src|, can, r, full))
      ensures r != -1 ==> Logged(g, old(blocks), old(bitmap), old(logged), blocks, bitmap, logged,
                                 Uncounted(blocks, addrs, i, off, r, |src|, full))
      ensures r != -1 ==> dinodes == old(dinodes)[i := Dinode(addrs[i], sizes[i])] && g.InodeBlock(i) in logged
      ensures old(logged) == {} && old(maps) == {} && old(allocs) == 0 && old(peak) == 0 && |src| <= 3 * BSIZE ==>
                peak < MAXOPBLOCKS && |logged| <= MAXOPBLOCKS
    {
      hide Owned, Spells, Marked, Zeros, Accounted, Ptr, Wrote, Reads, Tally, AllUsed, FlatWritten, Dense, Content,
        EachDense, SameOthers, Clear, Filled, Spent, Extends, Added, Logged, Written, Trips, Stopped, Uncounted;
      full := false;
      SameOthersRefl(blocks, addrs, sizes, i);
      SizesThere(g.ninodes, blocks, addrs, sizes);
      if off > sizes[i] || (off + |src|) % UINT < off {
        return -1, false;
      }
      if off + |src| > MAXFILE * BSIZE {
        return -1, false;
      }
      DenseThere(g.ninodes, blocks, addrs, sizes, i);
      InsideBlock(blocks, addrs, i, sizes[i], off);
      var tot;
      ghost var trips, gained;
      tot, full, trips, gained := WriteLoop(i, src, off, can);
      WriteMeans(g, old(blocks), old(addrs), old(owner), sizes, blocks, addrs, i, off, src, can, tot, full);
      WhereItStopped(off, tot, |src|, can, full);
      SpentAdded(g, blocks, addrs, old(owner), owner, i, Clear(old(used)), Clear(used), off, |src|, can, tot, full);
      WithinAllowance(old(logged), old(maps), old(allocs), logged, maps, allocs, RootOf(old(addrs), i),
                      RootOf(addrs, i), tot, trips, gained, off, |src|);
      ghost var l1 := logged;
      UpdateInode(i, off + tot);
      LoggedMore(g, old(blocks), old(bitmap), old(logged), blocks, bitmap, l1, logged,
                 Uncounted(blocks, addrs, i, off, tot, |src|, full));
      r := tot;
    }

    /** The end of writei: the size, and iupdate. */
    method UpdateInode(i: nat, end: nat)
      requires |dinodes| == |sizes| == |addrs| == g.ninodes && i < g.ninodes
      modifies this`sizes, this`dinodes, this`logged, this`peak
      ensures sizes == Resized(old(sizes), i, end) && dinodes == old(dinodes)[i := Dinode(addrs[i], sizes[i])]
      ensures logged == old(logged) + {g.InodeBlock(i)} && |logged| <= |old(logged)| + 1
      ensures peak == Seen(old(peak), old(logged))
    {
      if end > sizes[i] {
        sizes := sizes[i := end];
      }
      Grows(logged, g.InodeBlock(i));
      Iupdate(i);
    }

    /** The loop of readi, for a range within the file. */
    method ReadLoop(i: nat, off: nat, want: nat, can: nat) returns (r: int, dst: seq<int>)
      requires Valid() && i < g.ninodes && Dense(blocks, addrs, i, sizes[i]) && off + want <= sizes[i]
      modifies this`blocks, this`bitmap, this`addrs, this`used, this`owner, this`held, this`logged, this`maps,
          this`allocs, this`peak
      ensures unchanged(this) && r == if want <= can then want else -1
      ensures r == want ==> dst == Content(blocks, addrs, i, sizes[i])[off..off + want]
    {
      hide Owned, Spells, Marked, Zeros, Accounted, Ptr, Grown, AllUsed, Content, Dense, Piece;
      ghost var c := Content(blocks, addrs, i, sizes[i]);
      ContentLength(blocks, addrs, i, sizes[i]);
      var tot := 0;
      dst := [];
      while tot < want
        invariant 0 <= tot <= want && tot <= can && dst == c[off..off + tot] && unchanged(this)
      {
        var pos := off + tot;
        BelowSize(blocks, addrs, i, sizes[i], pos);
        var addr := Bmap(i, pos / BSIZE);
        if addr == 0 {
          break;
        }
        SlotInRange(g, blocks, addrs, owner, i, pos / BSIZE);
        var m := Piece(pos, off + want);
        if can < tot + m {
          return -1, dst;
        }
        BlockBytes(blocks, addrs, i, sizes[i], off, pos, m);
        dst := dst + blocks[addr][pos % BSIZE..pos % BSIZE + m];
        tot := tot + m;
      }
      r := tot;
    }

    /** readi: with every block below the size allocated, it allocates nothing and returns the bytes of
        the flat file that lie in the requested range, or -1 if the first `can` bytes of the destination that are
        accessible do not have room for them. */
    method Readi(i: nat, off: nat, n: nat, can: nat) returns (r: int, dst: seq<int>)
      requires Valid() && AllDense() && i < g.ninodes && off < UINT && n < UINT
      modifies this`blocks, this`bitmap, this`addrs, this`used, this`owner, this`held, this`logged, this`maps,
          this`allocs, this`peak
      ensures unchanged(this)
      ensures off > sizes[i] || (off + n) % UINT < off ==> r == 0 && dst == []
      ensures off <= sizes[i] && off <= (off + n) % UINT ==>
                var want := if off + n > sizes[i] then sizes[i] - off else n;
                && r == (if want <= can then want else -1)
                && (want <= can ==> dst == Content(blocks, addrs, i, sizes[i])[off..off + want])
    {
      hide Owned, Spells, Marked, Zeros, Accounted, Ptr, Grown, AllUsed;
      if off > sizes[i] || (off + n) % UINT < off {
        return 0, [];
      }
      r, dst := ReadLoop(i, off, if off + n > sizes[i] then sizes[i] - off else n, can);
    }

    // ---------------------------------------------------------- bfree, itrunc

    /** bfree. A false result stands for the panic "freeing free block". */
    method Bfree(b: nat) returns (ok: bool)
      requires g.Ok() && Spells(g, bitmap, used) && Marked(g, used, owner, held) && b < g.size
               && (b in owner ==> g.datastart <= b)
      modifies this`bitmap, this`used, this`owner, this`logged, this`peak
      ensures ok == old(used)[b] && Spells(g, bitmap, used)
      ensures !ok ==> unchanged(this)
      ensures ok ==> logged == old(logged) + {g.MapBlockOf(b)}
      ensures MapsLogged(g, old(bitmap), old(logged), bitmap, logged)
      ensures b in old(owner) ==>
                ok && Marked(g, used, owner, held) && owner == old(owner) - {b} && used == old(used)[b := false]
    {
      hide Marked, Spells, BitAt, Without, Has;
      SpellsChange(g, bitmap, used, b);
      if b in owner {
        MarkedFree(g, used, owner, held, b);
      }
      var m, bi := b / BPB, b % BPB;
      assert BitAt(bitmap[m], bi) == Has(bitmap[m][bi / 8], bi % 8) by { BitAtHas(bitmap[m], bi); }
      if !Has(bitmap[m][bi / 8], bi % 8) {
        return false;
      }
      bitmap := bitmap[m := bitmap[m][bi / 8 := Without(bitmap[m][bi / 8], bi % 8)]];
      peak, logged := Seen(peak, logged), logged + {g.MapBlockOf(b)};
      used, owner := used[b := false], owner - {b};
      ok := true;
    }

    /** The first loop of itrunc. */
    method FreeDirects(i: nat)
      requires Valid() && i < g.ninodes
      modifies this`bitmap, this`addrs, this`used, this`owner, this`logged, this`peak
      ensures Valid() && Emptied(old(addrs), addrs, i, NDIRECT) && owner == Prune(old(owner), i, NDIRECT, 0, false)
      ensures MapsLogged(g, old(bitmap), old(logged), bitmap, logged)
    {
      hide Spells, Marked, WordAt, Owned, Ptr, Prune, MapsLogged;
      PruneNone(owner, i);
      MapsLoggedRefl(g, bitmap, logged);
      for k := 0 to NDIRECT
        invariant Valid() && Emptied(old(addrs), addrs, i, k) && owner == Prune(old(owner), i, k, 0, false)
        invariant MapsLogged(g, old(bitmap), old(logged), bitmap, logged)
      {
        DirectFreed(g, blocks, addrs, old(owner), owner, i, k);
        if addrs[i][k] != 0 {
          OwnedFreeDirect(g, blocks, addrs, owner, i, k);
          ghost var m1, l1 := bitmap, logged;
          var ok := Bfree(addrs[i][k]);
          assert ok;
          MapsLoggedTrans(g, old(bitmap), old(logged), m1, l1, bitmap, logged);
          addrs := addrs[i := addrs[i][k := 0]];
        }
      }
    }

    /** The second loop of itrunc, over the entries of indirect block r. */
    method FreeEntries(i: nat, r: int)
      requires Valid() && i < g.ninodes && r == RootOf(addrs, i) && 0 < r < g.size
      modifies this`bitmap, this`used, this`owner, this`logged, this`peak
      ensures Spells(g, bitmap, used) && Marked(g, used, owner, held)
      ensures OwnedBut(g, blocks, addrs, owner, i, NINDIRECT)
      ensures owner == Prune(old(owner), i, 0, NINDIRECT, false)
      ensures MapsLogged(g, old(bitmap), old(logged), bitmap, logged)
    {
      hide Spells, Marked, WordAt, Owned, OwnedBut, Ptr, Prune, MapsLogged;
      MapsLoggedRefl(g, bitmap, logged);
      OwnedButStart(g, blocks, addrs, owner, i);
      PruneNone(owner, i);
      for j := 0 to NINDIRECT
        invariant Spells(g, bitmap, used) && Marked(g, used, owner, held) && OwnedBut(g, blocks, addrs, owner, i, j)
        invariant owner == Prune(old(owner), i, 0, j, false)
        invariant MapsLogged(g, old(bitmap), old(logged), bitmap, logged)
      {
        OwnedFreeLeaf(g, blocks, addrs, owner, i, j);
        LeafFreed(g, blocks, addrs, old(owner), owner, i, j);
        EntryIs(blocks, addrs, i, j);
        var b := WordAt(blocks[r], j);
        if b != 0 {
          ghost var m1, l1 := bitmap, logged;
          var ok := Bfree(b);
          assert ok;
          MapsLoggedTrans(g, old(bitmap), old(logged), m1, l1, bitmap, logged);
        }
      }
    }

    /** The rest of itrunc's work on the indirect block. */
    method FreeIndirect(i: nat)
      requires Valid() && i < g.ninodes
      modifies this`bitmap, this`addrs, this`used, this`owner, this`logged, this`peak
      ensures Valid() && addrs == old(addrs)[i := old(addrs)[i][NDIRECT := 0]]
      ensures forall b :: b in owner ==> b in old(owner) && old(owner)[b] == owner[b]
      ensures forall b :: b in old(owner) && b !in owner ==> old(owner)[b].i == i
      ensures MapsLogged(g, old(bitmap), old(logged), bitmap, logged)
    {
      hide Spells, Marked, WordAt, Owned, OwnedBut, Ptr, MapsLogged;
      MapsLoggedRefl(g, bitmap, logged);
      var r := addrs[i][NDIRECT];
      if r != 0 {
        RootRange(g, blocks, addrs, owner, i);
        FreeEntries(i, r);
        OwnedFreeRoot(g, blocks, addrs, owner, i);
        ghost var m1, l1 := bitmap, logged;
        var ok := Bfree(r);
        assert ok;
        MapsLoggedTrans(g, old(bitmap), old(logged), m1, l1, bitmap, logged);
        addrs := addrs[i := addrs[i][NDIRECT := 0]];
      } else {
        assert addrs[i][NDIRECT := 0] == addrs[i];
      }
    }

    /** itrunc: frees every block of the file, each of which is allocated, and no other. */
    method Itrunc(i: nat)
      requires Valid() && AllDense() && i < g.ninodes
      modifies this`bitmap, this`addrs, this`sizes, this`dinodes, this`used, this`owner, this`logged, this`peak
      ensures Valid() && AllDense() && owner == Others(old(owner), i)
      ensures sizes == old(sizes)[i := 0] && Emptied(old(addrs), addrs, i, NDIRECT + 1)
      ensures dinodes == old(dinodes)[i := Dinode(addrs[i], 0)]
      ensures forall k {:trigger sizes[k]} :: 0 <= k < g.ninodes && k != i ==>
                Content(blocks, addrs, k, sizes[k]) == Content(blocks, old(addrs), k, old(sizes)[k])
      ensures MapsLogged(g, old(bitmap), old(logged), bitmap, logged) && g.InodeBlock(i) in logged
    {
      hide Spells, Marked, WordAt, Owned, Ptr, Content, Dense, MapsLogged;
      FreeDirects(i);
      ghost var m1, l1 := bitmap, logged;
      FreeIndirect(i);
      MapsLoggedTrans(g, old(bitmap), old(logged), m1, l1, bitmap, logged);
      MapsLoggedMore(g, old(bitmap), old(logged), bitmap, logged, g.InodeBlock(i));
      OthersLeft(g, blocks, addrs, old(owner), owner, i);
      forall k {:trigger sizes[k]} | 0 <= k < g.ninodes && k != i
        ensures Content(blocks, addrs, k, sizes[k]) == Content(blocks, old(addrs), k, sizes[k])
        ensures Dense(blocks, addrs, k, sizes[k])
      {
        ContentByTable(blocks, old(addrs), addrs, k, sizes[k]);
      }
      DenseEmpty(blocks, addrs, i);
      sizes := sizes[i := 0];
      Iupdate(i);
    }

    // -------------------------------------------------------------- filewrite

    /** begin_op: a new transaction has logged nothing. */
    ghost method NewTransaction()
      modifies this`logged, this`maps, this`allocs, this`peak
      ensures logged == {} && maps == {} && allocs == 0 && peak == 0
    {
      logged, maps, allocs, peak := {}, {}, 0, 0;
    }

    /** One chunk of filewrite: a writei in a transaction of its own. */
    method WriteTransaction(i: nat, chunk: seq<int>, off: nat, can: nat) returns (r: int, ghost full: bool)
      requires Valid() && held == {} && AllDense() && i < g.ninodes && off < UINT && |chunk| <= 3 * BSIZE
      modifies this`blocks, this`bitmap, this`addrs, this`sizes, this`dinodes, this`used, this`owner, this`held,
               this`logged, this`maps, this`allocs, this`peak
      ensures Valid() && held == {} && AllDense() && |logged| <= MAXOPBLOCKS && -1 <= r <= |chunk|
      ensures r == -1 <==> off > old(sizes)[i] || off + |chunk| > MAXFILE * BSIZE
      ensures r != -1 ==>
                Stopped(off, r, |chunk|, can, full) && (full ==> AllUsed(used))
                && Stored(r, |chunk|, can, full) <= |chunk|
      ensures peak < MAXOPBLOCKS
      ensures var c0, c1 := Content(old(blocks), old(addrs), i, old(sizes)[i]), Content(blocks, addrs, i, sizes[i]);
              if r == -1 then c1 == c0 else FlatWritten(c0, c1, off, r, chunk[..Stored(r, |chunk|, can, full)])
      ensures SameOthers(old(blocks), old(addrs), old(sizes), blocks, addrs, sizes, i)
      ensures if r == -1 then used == old(used) && owner == old(owner) && sizes == old(sizes)
              else Spent(Clear(old(used)), Filled(old(owner)), Clear(used), Filled(owner), i, off, |chunk|, can, r,
                  full)
                   && Added(old(owner), owner, i, Extent(off, |chunk|, can, r, full))
                   && sizes == Resized(old(sizes), i, off + r) && (full ==> r < |chunk|)
      ensures r != -1 ==>
                && Logged(g, old(blocks), old(bitmap), {}, blocks, bitmap, logged,
                          Uncounted(blocks, addrs, i, off, r, |chunk|, full))
                && dinodes == old(dinodes)[i := Dinode(addrs[i], sizes[i])] && g.InodeBlock(i) in logged
    {
      hide Spells, Marked, Owned, Ptr, FlatWritten, Dense, Content, Seen, EachDense, SameOthers, Clear, Filled, Spent,
        Added, Logged, Uncounted, Stopped;
      NewTransaction();
      r, full := Writei(i, chunk, off, can);
    }

    /** One trip of the loop of filewrite, for the chunk after the first `done` bytes. It writes the whole chunk, or the
        loop ends with it. */
    method NextChunk(i: nat, src: seq<int>, done: nat, off: nat, can: nat, max: nat, ghost c0: seq<int>,
        ghost size0: nat,
                     ghost clear0: nat, ghost filled0: set<Slot>) returns (n1: nat, r: int, ghost k: nat)
      requires Valid() && held == {} && AllDense() && i < g.ninodes && off + done < UINT && done < |src| && max == CHUNK
      requires Going(size0, clear0, filled0, Clear(used), Filled(owner), i, off, done, |src|, can) && done <= can
      requires if done == 0 then sizes[i] == size0 else off + done <= sizes[i]
      requires Progress(c0, Content(blocks, addrs, i, sizes[i]), off, done, done, src)
      modifies this`blocks, this`bitmap, this`addrs, this`sizes, this`dinodes, this`used, this`owner, this`held,
               this`logged, this`maps, this`allocs, this`peak
      ensures Valid() && held == {} && AllDense() && |logged| <= MAXOPBLOCKS && peak < MAXOPBLOCKS
      ensures SameOthers(old(blocks), old(addrs), old(sizes), blocks, addrs, sizes, i)
      ensures n1 == (if |src| - done > max then max else |src| - done) && -1 <= r <= k <= n1
      ensures Progress(c0, Content(blocks, addrs, i, sizes[i]), off, done + if r > 0 then r else 0, done + k, src)
      ensures r == n1 ==>
                && k == n1 && done + n1 <= can && off + done + n1 <= sizes[i] && off + done + n1 <= MAXFILE * BSIZE
                && Going(size0, clear0, filled0, Clear(used), Filled(owner), i, off, done + n1, |src|, can)
      ensures r != n1 ==>
                var e := done + if r > 0 then r else 0;
                && Ended(size0, clear0, filled0, i, off, e, |src|, can)
                && done + k == Kept(size0, clear0, filled0, i, off, e, |src|, can)
                && (k == (if r > 0 then r else 0) || (done + k == can && e <= can < |src|))
                && (off > size0 || off + |src| > MAXFILE * BSIZE || can < |src| || AllUsed(used))
    {
      hide Spells, Marked, Owned, Ptr, FlatWritten, Dense, Content, Progress, SameOthers, Stopped, AllUsed, Clear,
          Filled,
        Ended, Kept, Going, Refused, Spent, Added, Logged, EachDense, Extent, Uncounted, ChunkEnd;
      n1 := if |src| - done > max then max else |src| - done;
      ghost var c1, s1, u1, o1 := Content(blocks, addrs, i, sizes[i]), sizes[i], Clear(used), Filled(owner);
      ghost var full;
      r, full := WriteTransaction(i, src[done..done + n1], off + done, can - done);
      k := if r == -1 then 0 else Stored(r, n1, can - done, full);
      ghost var c2 := Content(blocks, addrs, i, sizes[i]);
      if r >= 0 {
        CameShort(off + done, r, n1, can - done, full);
        FlatEnd(c1, c2, off + done, r, src[done..done + n1][..k]);
      }
      ProgressStep(c0, c1, c2, off, done, n1, r, k, src);
      ChunkIs(size0, clear0, filled0, u1, o1, i, off, done, |src|, can, s1, n1, r);
      if r == n1 {
        StepOn(size0, clear0, filled0, u1, o1, Clear(used), Filled(owner), i, off, done, |src|, can, n1);
      } else {
        StepStops(size0, clear0, filled0, u1, o1, Clear(used), Filled(owner), i, off, done, |src|, can, r, n1, full);
      }
    }

    /** The FD_INODE branch of filewrite, for a file open at position off and with the first `can` bytes of the
        source accessible. The n bytes are written in chunks, each in a transaction of its own. `txs` lists, for each
        transaction, the blocks that it has logged, of which there are at most MAXOPBLOCKS, and the largest number that
        was logged before one of its calls of log_write, which is below MAXOPBLOCKS. off' is the position afterwards,
        and `stored` the number of bytes that have reached the file, both given by the state before the call. The
        write comes short only if the position is beyond the end, the file would get too large, the source is not
        accessible or every block is in use. */
    method Filewrite(i: nat, src: seq<int>, n: int, off: nat, can: nat)
      returns (ret: int, off': nat, ghost stored: nat, ghost txs: seq<(set<int>, nat)>)
      requires Valid() && held == {} && AllDense() && i < g.ninodes && off < UINT && |src| < UINT
      requires |src| == if n < 0 then 0 else n
      modifies this`blocks, this`bitmap, this`addrs, this`sizes, this`dinodes, this`used, this`owner, this`held,
               this`logged, this`maps, this`allocs, this`peak
      ensures Valid() && held == {} && AllDense()
      ensures forall t :: t in txs ==> |t.0| <= MAXOPBLOCKS && t.1 < MAXOPBLOCKS
      ensures off' - off == |src| || off > old(sizes)[i] || off + |src| > MAXFILE * BSIZE || can < |src|
              || AllUsed(used)
      ensures off <= off' <= off + |src| && ret == if off' - off == n then n else -1
      ensures stored == off' - off || (stored == can && off' - off <= can < |src|)
      ensures Progress(Content(old(blocks), old(addrs), i, old(sizes)[i]), Content(blocks, addrs, i, sizes[i]),
                       off, off' - off, stored, src)
      ensures SameOthers(old(blocks), old(addrs), old(sizes), blocks, addrs, sizes, i)
      ensures Ended(old(sizes)[i], Clear(old(used)), Filled(old(owner)), i, off, off' - off, |src|, can)
      ensures stored == Kept(old(sizes)[i], Clear(old(used)), Filled(old(owner)), i, off, off' - off, |src|, can)
    {
      hide Spells, Marked, Owned, Ptr, FlatWritten, Dense, Content, Progress, SameOthers, Stopped, AllUsed, Clear,
          Filled,
        Ended, Kept, Going, Refused, Spent, Added, Logged, EachDense, Extent, Uncounted, ChunkEnd;
      var max := ((MAXOPBLOCKS - 1 - 1 - 2) / 2) * BSIZE;
      var done := 0;
      off', stored, txs := off, 0, [];
      ghost var c0 := Content(blocks, addrs, i, sizes[i]);
      ProgressStart(c0, off, src);
      SameOthersRefl(blocks, addrs, sizes, i);
      ghost var size0, clear0, filled0 := sizes[i], Clear(used), Filled(owner);
      GoingStart(size0, clear0, filled0, i, off, |src|, can);
      while done < n
        invariant 0 <= done <= |src| && done <= can && off' == off + done && stored == done
        invariant done > 0 ==> off' <= MAXFILE * BSIZE
        invariant Valid() && held == {} && AllDense()
        invariant forall t :: t in txs ==> |t.0| <= MAXOPBLOCKS && t.1 < MAXOPBLOCKS
        invariant Progress(c0, Content(blocks, addrs, i, sizes[i]), off, done, done, src)
        invariant if done == 0 then sizes[i] == size0 else off' <= sizes[i]
        invariant SameOthers(old(blocks), old(addrs), old(sizes), blocks, addrs, sizes, i)
        invariant Going(size0, clear0, filled0, Clear(used), Filled(owner), i, off, done, |src|, can)
      {
        ghost var b1, a1, s1 := blocks, addrs, sizes;
        var n1, r;
        ghost var k;
        n1, r, k := NextChunk(i, src, done, off, can, max, c0, size0, clear0, filled0);
        txs := txs + [(logged, peak)];
        SameOthersTrans(old(blocks), old(addrs), old(sizes), b1, a1, s1, blocks, addrs, sizes, i);
        if r > 0 {
          off' := off' + r;
        }
        stored := done + k;
        if r != n1 {
          break;
        }
        done := done + r;
      }
      if done == |src| {
        GoingEnd(size0, clear0, filled0, Clear(used), Filled(owner), i, off, |src|, can);
      }
      ret := if done == n then n else -1;
    }
  }

  /** A run in which a byte changes that is not counted: of two bytes to be written at the start of any file that has as
      many, only the first is accessible. writei returns 0, and the file starts with that byte. */
  method UncountedByte(fs: FileSystem, i: nat, x: int) returns (r: int)
    requires fs.Valid() && fs.held == {} && fs.AllDense() && i < fs.g.ninodes && fs.sizes[i] >= 2
    modifies fs
    ensures i < |old(fs.sizes)| && i < |fs.sizes| && r == 0
    ensures fs.sizes == old(fs.sizes)
    ensures Content(fs.blocks, fs.addrs, i, fs.sizes[i]) == Content(old(fs.blocks), old(fs.addrs), i,
              old(fs.sizes)[i])[0 := x]
  {
    hide Owned, Spells, Marked, Dense, Ptr, Byte, AllUsed;
    InsideBlock(fs.blocks, fs.addrs, i, fs.sizes[i], 0);
    ghost var full;
    r, full := fs.Writei(i, [x, x], 0, 1);
    assert [x, x][..1] == [x];
  }
}
