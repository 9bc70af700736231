/** The buffer cache of kernel/bio.c. Each method is one critical section under bcache.lock or under a
    buffer's sleep-lock, so that sequences of calls by several processes are the interleavings of the code. */
module BufferCache {
  type Block = seq<int>

  /** A block of a device. */
  datatype Loc = Loc(dev: int, blockno: int)

  // ------------------------------------------------------------------ rings

  /** The element at position i of the ring; the list head is before the first and after the last. */
  function At(order: seq<int>, head: int, i: int): int {
    if 0 <= i < |order| then order[i] else head
  }

  /** `pos` is the inverse of `order`, -1 for the buffers that are not in it. */
  ghost predicate Inverse(order: seq<int>, pos: seq<int>) {
    && (forall i {:trigger order[i]} :: 0 <= i < |order| ==> 0 <= order[i] < |pos| && pos[order[i]] == i)
    && (forall b {:trigger pos[b]} :: 0 <= b < |pos| ==> pos[b] == -1 || (0 <= pos[b] < |order| && order[pos[b]] == b))
  }

  /** The prev and next fields link the buffers in the given order around the list head, whose number is
      that of the buffers. */
  ghost predicate Ring(next: seq<int>, prev: seq<int>, order: seq<int>, pos: seq<int>) {
    && |next| == |prev| == |pos| + 1 && Inverse(order, pos)
    && (forall b {:trigger next[b]} :: 0 <= b < |pos| && pos[b] != -1 ==> next[b] == At(order, |pos|, pos[b] + 1))
    && (forall b {:trigger prev[b]} :: 0 <= b < |pos| && pos[b] != -1 ==> prev[b] == At(order, |pos|, pos[b] - 1))
    && next[|pos|] == At(order, |pos|, 0) && prev[|pos|] == At(order, |pos|, |order| - 1)
  }

  function Removed(order: seq<int>, k: nat): seq<int>
    requires k < |order|
  {
    order[..k] + order[k + 1..]
  }

  function Closed(pos: seq<int>, b: nat): (r: seq<int>)
    requires b < |pos|
    ensures |r| == |pos|
    ensures forall c {:trigger r[c]} ::
              0 <= c < |pos| ==> r[c] == if c == b then -1 else if pos[c] > pos[b] then pos[c] - 1 else pos[c]
  {
    seq(|pos|, c requires 0 <= c < |pos| => if c == b then -1 else if pos[c] > pos[b] then pos[c] - 1 else pos[c])
  }

  function Opened(pos: seq<int>, b: nat): (r: seq<int>)
    requires b < |pos|
    ensures |r| == |pos|
    ensures forall c {:trigger r[c]} ::
              0 <= c < |pos| ==> r[c] == if c == b then 0 else if pos[c] == -1 then -1 else pos[c] + 1
  {
    seq(|pos|, c requires 0 <= c < |pos| => if c == b then 0 else if pos[c] == -1 then -1 else pos[c] + 1)
  }

  lemma Neighbours(next: seq<int>, prev: seq<int>, order: seq<int>, pos: seq<int>, b: int)
    requires Ring(next, prev, order, pos) && 0 <= b <= |pos| && (b < |pos| ==> pos[b] != -1)
    ensures 0 <= next[b] <= |pos| && 0 <= prev[b] <= |pos|
    ensures b < |pos| ==> next[b] != b && prev[b] != b
  {
  }

  /** b->next->prev = b->prev; b->prev->next = b->next. */
  lemma Unlink(next: seq<int>, prev: seq<int>, order: seq<int>, pos: seq<int>, b: nat)
    requires Ring(next, prev, order, pos) && b < |pos| && pos[b] != -1
    ensures 0 <= next[b] <= |pos| && 0 <= prev[b] <= |pos| && next[b] != b
    ensures var prev' := prev[next[b] := prev[b]];
            var next' := next[prev[b] := next[b]];
            Ring(next', prev', Removed(order, pos[b]), Closed(pos, b))
  {
    Neighbours(next, prev, order, pos, b);
    InverseRemoved(order, pos, b);
    UnlinkNext(next, prev, order, pos, b);
    UnlinkPrev(next, prev, order, pos, b);
  }

  lemma RemovedAt(order: seq<int>, k: nat, n: int, i: int)
    requires k < |order|
    ensures At(Removed(order, k), n, i) == if i < k then At(order, n, i) else At(order, n, i + 1)
  {
  }

  lemma InverseRemoved(order: seq<int>, pos: seq<int>, b: nat)
    requires Inverse(order, pos) && b < |pos| && pos[b] != -1
    ensures Inverse(Removed(order, pos[b]), Closed(pos, b))
  {
    var k := pos[b];
    var order', pos' := Removed(order, k), Closed(pos, b);
    forall i {:trigger order'[i]} | 0 <= i < |order'| ensures 0 <= order'[i] < |pos'| && pos'[order'[i]] == i {
      var was := order[if i < k then i else i + 1];
    }
    forall c {:trigger pos'[c]} | 0 <= c < |pos'|
      ensures pos'[c] == -1 || (0 <= pos'[c] < |order'| && order'[pos'[c]] == c) {
      var was := pos[c];
    }
  }

  lemma UnlinkNext(next: seq<int>, prev: seq<int>, order: seq<int>, pos: seq<int>, b: nat)
    requires Ring(next, prev, order, pos) && b < |pos| && pos[b] != -1
    requires 0 <= prev[b] <= |pos|
    ensures var next', order', pos' := next[prev[b] := next[b]], Removed(order, pos[b]), Closed(pos, b);
            && (forall c {:trigger next'[c]} ::
                 0 <= c < |pos| && pos'[c] != -1 ==> next'[c] == At(order', |pos|, pos'[c] + 1))
            && next'[|pos|] == At(order', |pos|, 0)
  {
    hide Removed, At;
    var n, k := |pos|, pos[b];
    var next', order', pos' := next[prev[b] := next[b]], Removed(order, k), Closed(pos, b);
    assert prev[b] == At(order, n, k - 1) && next[b] == At(order, n, k + 1);
    forall c {:trigger next'[c]} | 0 <= c < n && pos'[c] != -1 ensures next'[c] == At(order', n, pos'[c] + 1) {
      RemovedAt(order, k, n, pos'[c] + 1);
      PosAt(order, pos, n, k - 1);
      PosAt(order, pos, n, pos[c]);
    }
    RemovedAt(order, k, n, 0);
    PosAt(order, pos, n, k - 1);
  }

  lemma UnlinkPrev(next: seq<int>, prev: seq<int>, order: seq<int>, pos: seq<int>, b: nat)
    requires Ring(next, prev, order, pos) && b < |pos| && pos[b] != -1
    requires 0 <= next[b] <= |pos|
    ensures var prev', order', pos' := prev[next[b] := prev[b]], Removed(order, pos[b]), Closed(pos, b);
            && (forall c {:trigger prev'[c]} ::
                 0 <= c < |pos| && pos'[c] != -1 ==> prev'[c] == At(order', |pos|, pos'[c] - 1))
            && prev'[|pos|] == At(order', |pos|, |order'| - 1)
  {
    hide At;
    var n, k := |pos|, pos[b];
    var prev', order', pos' := prev[next[b] := prev[b]], Removed(order, k), Closed(pos, b);
    assert prev[b] == At(order, n, k - 1) && next[b] == At(order, n, k + 1);
    forall c {:trigger prev'[c]} | 0 <= c < n && pos'[c] != -1 ensures prev'[c] == At(order', n, pos'[c] - 1) {
      RemovedAt(order, k, n, pos'[c] - 1);
      PosAt(order, pos, n, k + 1);
      PosAt(order, pos, n, pos[c]);
    }
    RemovedAt(order, k, n, |order'| - 1);
    PosAt(order, pos, n, k + 1);
  }

  /** Which element is at which position. */
  lemma PosAt(order: seq<int>, pos: seq<int>, n: int, i: int)
    requires Inverse(order, pos) && n == |pos|
    ensures 0 <= i < |order| ==> 0 <= At(order, n, i) < n && pos[At(order, n, i)] == i
    ensures !(0 <= i < |order|) ==> At(order, n, i) == n
  {
  }

  /** b->next = head.next; b->prev = &head; head.next->prev = b; head.next = b. */
  lemma Insert(next: seq<int>, prev: seq<int>, order: seq<int>, pos: seq<int>, b: nat)
    requires Ring(next, prev, order, pos) && b < |pos| && pos[b] == -1
    ensures var n := |pos|;
            && 0 <= next[n] <= n && next[n] != b
            && var prev' := prev[b := n][next[n] := b];
            var next' := next[b := next[n]][n := b];
            Ring(next', prev', [b] + order, Opened(pos, b))
  {
    Neighbours(next, prev, order, pos, |pos|);
    var order', pos' := [b] + order, Opened(pos, b);
    assert Inverse(order', pos');
  }

  function Steps(link: seq<int>, b: int, k: nat): int {
    if k == 0 then b else
    var c := Steps(link, b, k - 1);
    if 0 <= c < |link| then link[c] else -1
  }

  /** Following next from the list head visits the buffers in order and returns to the head, and following
      prev visits them in reverse. */
  lemma {:induction false} RingWalk(next: seq<int>, prev: seq<int>, order: seq<int>, pos: seq<int>, k: nat)
    requires Ring(next, prev, order, pos) && k <= |order| + 1
    ensures Steps(next, |pos|, k) == At(order, |pos|, k - 1)
    ensures Steps(prev, |pos|, k) == At(order, |pos|, |order| - k)
  {
    if k > 0 {
      RingWalk(next, prev, order, pos, k - 1);
      PosAt(order, pos, |pos|, k - 2);
      PosAt(order, pos, |pos|, |order| - (k - 1));
    }
  }

  /** Every buffer is in the ring exactly once. */
  lemma RingIsPermutation(next: seq<int>, prev: seq<int>, order: seq<int>, pos: seq<int>, b: nat)
    requires Ring(next, prev, order, pos) && b < |pos| && pos[b] != -1
    ensures exists k :: 0 < k <= |order| && Steps(next, |pos|, k) == b
    ensures forall j, k :: 0 < j < k <= |order| ==> Steps(next, |pos|, j) != Steps(next, |pos|, k)
  {
    RingWalk(next, prev, order, pos, pos[b] + 1);
    assert Steps(next, |pos|, pos[b] + 1) == b;
    forall j, k | 0 < j < k <= |order| ensures Steps(next, |pos|, j) != Steps(next, |pos|, k) {
      RingWalk(next, prev, order, pos, j);
      RingWalk(next, prev, order, pos, k);
      PosAt(order, pos, |pos|, j - 1);
      PosAt(order, pos, |pos|, k - 1);
    }
  }

  // ------------------------------------------------------------- invariants

  /** A reference count counts the processes between bget and brelse, and the log's pins. */
  ghost predicate Counted(refcnt: seq<int>, users: seq<set<int>>, pins: seq<nat>, owner: seq<int>) {
    && |refcnt| == |users| == |pins| == |owner|
    && (forall b {:trigger refcnt[b]} :: 0 <= b < |refcnt| ==> refcnt[b] == |users[b]| + pins[b])
    && (forall b {:trigger owner[b]} :: 0 <= b < |refcnt| && owner[b] != -1 ==> owner[b] in users[b])
  }

  /** A block of a nonzero device is in at most one buffer. */
  ghost predicate Unique(dev: seq<int>, blockno: seq<int>) {
    && |dev| == |blockno|
    && forall b, c {:trigger dev[b], dev[c]} :: 0 <= b < c < |dev| && dev[b] == dev[c] != 0 ==> blockno[b] != blockno[c]
  }

  /** A valid buffer without changes of its own holds what the disk holds, locked or not. */
  ghost predicate Agrees(dev: seq<int>, blockno: seq<int>, valid: seq<bool>, dirty: seq<bool>, data: seq<Block>,
                         disk: map<Loc, Block>) {
    && |dev| == |blockno| == |valid| == |dirty| == |data|
    && forall b {:trigger valid[b]} :: 0 <= b < |dev| && dev[b] != 0 && valid[b] && !dirty[b] ==>
         Loc(dev[b], blockno[b]) in disk && data[b] == disk[Loc(dev[b], blockno[b])]
  }

  /** A buffer with changes that are not on the disk is locked or in the log. */
  ghost predicate Logged(dirty: seq<bool>, owner: seq<int>, pins: seq<nat>) {
    && |dirty| == |owner| == |pins|
    && forall b {:trigger dirty[b]} :: 0 <= b < |dirty| && dirty[b] ==> owner[b] != -1 || pins[b] > 0
  }

  /** The ring is sorted by how recently each buffer became unused. */
  ghost predicate Recent(order: seq<int>, stamp: seq<nat>, clock: nat) {
    && (forall i {:trigger order[i]} :: 0 <= i < |order| ==> 0 <= order[i] < |stamp|)
    && (forall i, j {:trigger order[i], order[j]} :: 0 <= i < j < |order| ==> stamp[order[i]] >= stamp[order[j]])
    && (forall b {:trigger stamp[b]} :: 0 <= b < |stamp| ==> stamp[b] <= clock)
  }

  lemma RecentMoved(order: seq<int>, pos: seq<int>, stamp: seq<nat>, clock: nat, b: nat)
    requires Recent(order, stamp, clock) && Inverse(order, pos) && |stamp| == |pos| && b < |pos| && pos[b] != -1
    ensures Recent([b] + Removed(order, pos[b]), stamp[b := clock + 1], clock + 1)
  {
    var k := pos[b];
    var order' := [b] + Removed(order, k);
    forall i {:trigger order'[i]} | 0 <= i < |order'|
      ensures order'[i] == if i == 0 then b else if i <= k then order[i - 1] else order[i]
    {
    }
    forall i | 0 < i < |order'| ensures order'[i] != b {
      var was := order[if i <= k then i - 1 else i];
    }
  }

  class Cache {
    const n: nat                // NBUF; also the number of the list head
    var next: seq<int>
    var prev: seq<int>
    var dev: seq<int>
    var blockno: seq<int>
    var valid: seq<bool>
    var refcnt: seq<int>
    var data: seq<Block>
    var owner: seq<int>         // the holder of each buffer's sleep-lock, -1 if free
    var disk: map<Loc, Block>

    ghost var order: seq<int>
    ghost var pos: seq<int>
    ghost var users: seq<set<int>>
    ghost var pins: seq<nat>
    ghost var dirty: seq<bool>  // changed by its holder since it was last read from or written to the disk
    ghost var stamp: seq<nat>
    ghost var clock: nat

    ghost predicate Shape()
      reads this
    {
      && |dev| == |blockno| == |valid| == |refcnt| == |data| == |owner| == n
      && |pos| == |users| == |pins| == |dirty| == |stamp| == n
    }

    ghost predicate Valid()
      reads this
    {
      && Shape() && |order| == n && (forall b {:trigger pos[b]} :: 0 <= b < n ==> pos[b] != -1)
      && Ring(next, prev, order, pos)
      && Counted(refcnt, users, pins, owner) && Unique(dev, blockno)
      && Agrees(dev, blockno, valid, dirty, data, disk) && Recent(order, stamp, clock)
    }

    /** So far every change was written or logged before brelse. */
    ghost predicate Careful()
      reads this
    {
      Logged(dirty, owner, pins)
    }

    /** binit. */
    constructor (n: nat, disk: map<Loc, Block>)
      ensures this.n == n && this.disk == disk && Valid() && Careful() && order == Descending(n)
      ensures forall b :: 0 <= b < n ==> refcnt[b] == 0 && !valid[b] && dev[b] == 0
    {
      this.n, this.disk := n, disk;
      next, prev := seq(n + 1, i => n), seq(n + 1, i => n);
      dev, blockno, valid := seq(n, i => 0), seq(n, i => 0), seq(n, i => false);
      refcnt, data, owner := seq(n, i => 0), seq(n, i => []), seq(n, i => -1);
      order, pos, users, stamp, clock := [], seq(n, i => -1), seq(n, i => {}), seq(n, i => 0), 0;
      pins, dirty := seq(n, i => 0), seq(n, i => false);
      new;
      EmptyRing(next, prev, pos);
      BuildRing();
      Unused(this.n, dev, blockno, valid, refcnt, owner, users, pins, dirty, data, disk, order, pos, stamp);
    }

    /** The loop of binit. */
    method BuildRing()
      requires |pos| == n && |next| == |prev| == n + 1 && order == [] && Ring(next, prev, order, pos)
               && forall c {:trigger pos[c]} :: 0 <= c < n ==> pos[c] == -1
      modifies this`next, this`prev, this`order, this`pos
      ensures |pos| == n && Ring(next, prev, order, pos) && order == Descending(n) && forall c {:trigger pos[c]} ::
                0 <= c < n ==> pos[c] != -1
    {
      hide Ring;
      var b := 0;
      while b < n
        invariant 0 <= b <= n && |pos| == n && |next| == |prev| == n + 1 && Ring(next, prev, order, pos)
                  && order == Descending(b)
        invariant forall c {:trigger pos[c]} :: 0 <= c < n ==> if c < b then pos[c] >= 0 else pos[c] == -1
      {
        Insert(next, prev, order, pos, b);
        next := next[b := next[n]];
        prev := prev[b := n];
        prev := prev[next[n] := b];
        next := next[n := b];
        order, pos := [b] + order, Opened(pos, b);
        b := b + 1;
      }
    }

    // ------------------------------------------------------------------- bget

    /** The first loop of bget: the buffer that caches the block, n if there is none. */
    method Find(d: int, bn: int) returns (b: int)
      requires Valid()
      ensures 0 <= b <= n && (b < n ==> dev[b] == d && blockno[b] == bn)
      ensures b == n ==> forall c {:trigger dev[c]} :: 0 <= c < n ==> !(dev[c] == d && blockno[c] == bn)
    {
      hide Counted, Unique, Agrees, Recent;
      b := next[n];
      ghost var k := 0;
      while b != n
        invariant 0 <= k <= n && b == At(order, n, k)
        invariant forall i {:trigger order[i]} :: 0 <= i < k ==> !(dev[order[i]] == d && blockno[order[i]] == bn)
        decreases n - k
      {
        if dev[b] == d && blockno[b] == bn {
          return;
        }
        b := next[b];
        k := k + 1;
      }
      forall c {:trigger dev[c]} | 0 <= c < n ensures !(dev[c] == d && blockno[c] == bn) {
        assert order[pos[c]] == c;
      }
    }

    /** The second loop of bget: the unused buffer that has been unused longest, n if all are in use. */
    method FindUnused() returns (b: int)
      requires Valid()
      ensures 0 <= b <= n
              && (b < n ==> refcnt[b] == 0 && forall c :: 0 <= c < n && refcnt[c] == 0 ==> stamp[b] <= stamp[c])
      ensures b == n ==> forall c {:trigger refcnt[c]} :: 0 <= c < n ==> refcnt[c] != 0
    {
      hide Counted, Unique, Agrees;
      b := prev[n];
      ghost var k := n - 1;
      while b != n
        invariant -1 <= k < n && b == At(order, n, k)
        invariant forall i {:trigger order[i]} :: k < i < n ==> refcnt[order[i]] != 0
        decreases k
      {
        if refcnt[b] == 0 {
          forall c | 0 <= c < n && refcnt[c] == 0 ensures stamp[b] <= stamp[c] {
            assert order[pos[c]] == c;
          }
          return;
        }
        b := prev[b];
        k := k - 1;
      }
      forall c {:trigger refcnt[c]} | 0 <= c < n ensures refcnt[c] != 0 {
        assert order[pos[c]] == c;
      }
    }

    /** bget's critical section, for process p: takes a reference to the buffer for the block. The result n
        stands for the panic "bget: no buffers". */
    method Bget(p: int, d: int, bn: int) returns (b: int)
      requires Valid() && p != -1 && forall c :: 0 <= c < n && dev[c] == d && blockno[c] == bn ==> p !in users[c]
      modifies this`dev, this`blockno, this`valid, this`refcnt, this`users, this`dirty
      ensures Valid() && 0 <= b <= n && (old(Careful()) ==> Careful())
      ensures b == n <==> NoBuffer(old(dev), old(blockno), old(refcnt), d, bn)
      ensures b == n ==> unchanged(this)
      ensures b < n ==>
                dev[b] == d && blockno[b] == bn && users == old(users)[b := old(users)[b] + {p}]
                && refcnt == old(refcnt)[b := old(refcnt)[b] + 1]
      ensures b < n && (old(dev)[b] != d || old(blockno)[b] != bn) ==>
                && old(users)[b] == {} && old(pins)[b] == 0 && !valid[b]
                && (forall c :: 0 <= c < n && old(refcnt)[c] == 0 ==> stamp[b] <= stamp[c])
                && dev == old(dev)[b := d] && blockno == old(blockno)[b := bn] && valid == old(valid)[b := false]
                && dirty == old(dirty)[b := false] && (old(Careful()) ==> !old(dirty)[b])
      ensures b < n && old(dev)[b] == d && old(blockno)[b] == bn ==>
                dev == old(dev) && blockno == old(blockno) && valid == old(valid) && dirty == old(dirty)
    {
      hide Ring, Unique, Agrees, Recent, Counted;
      b := Find(d, bn);
      if b != n {
        assert !NoBuffer(dev, blockno, refcnt, d, bn) by { ghost var was := dev[b]; }
        Counts(refcnt, users, pins, owner, b, p);
        refcnt, users := refcnt[b := refcnt[b] + 1], users[b := users[b] + {p}];
        return;
      }
      b := FindUnused();
      if b == n {
        return;
      }
      assert !NoBuffer(dev, blockno, refcnt, d, bn) by { ghost var was := dev[b]; }
      Recycle(p, b, d, bn);
    }

    /** The buffer that bget recycles. */
    method Recycle(p: int, b: nat, d: int, bn: int)
      requires Valid() && b < n && refcnt[b] == 0 && forall c {:trigger dev[c]} ::
                 0 <= c < n ==> !(dev[c] == d && blockno[c] == bn)
      modifies this`dev, this`blockno, this`valid, this`refcnt, this`users, this`dirty
      ensures Valid() && old(users)[b] == {} && pins[b] == 0
      ensures dirty == old(dirty)[b := false] && (old(Careful()) ==> Careful() && !old(dirty)[b])
      ensures dev == old(dev)[b := d] && blockno == old(blockno)[b := bn] && valid == old(valid)[b := false]
      ensures users == old(users)[b := old(users)[b] + {p}] && refcnt == old(refcnt)[b := old(refcnt)[b] + 1]
    {
      hide Ring, Unique, Agrees, Recent, Counted;
      Counts(refcnt, users, pins, owner, b, p);
      RecycleUnique(dev, blockno, b, d, bn);
      RecycleAgrees(dev, blockno, valid, dirty, data, disk, b, d, bn);
      refcnt, users, dirty := refcnt[b := 1], users[b := users[b] + {p}], dirty[b := false];
      dev, blockno, valid := dev[b := d], blockno[b := bn], valid[b := false];
    }

    // -------------------------------------------------- sleep-locks and the disk

    /** acquiresleep on buffer b, when it is free. */
    method AcquireSleep(p: int, b: nat)
      requires Valid() && b < n && p != -1 && p in users[b] && owner[b] == -1
      modifies this`owner
      ensures Valid() && owner == old(owner)[b := p] && (old(Careful()) ==> Careful())
    {
      owner := owner[b := p];
    }

    /** The rest of bread, with the sleep-lock held: what it returns is the disk's copy unless it has
        changes of its own. */
    method Fill(p: int, b: nat)
      requires Valid() && b < n && owner[b] == p != -1 && Loc(dev[b], blockno[b]) in disk
      modifies this`data, this`valid, this`dirty
      ensures Valid() && valid == old(valid)[b := true] && (old(Careful()) ==> Careful())
      ensures dirty == if old(valid)[b] then old(dirty) else old(dirty)[b := false]
      ensures !dirty[b] && dev[b] != 0 ==> data[b] == disk[Loc(dev[b], blockno[b])]
      ensures data == if old(valid)[b] then old(data) else old(data)[b := disk[Loc(dev[b], blockno[b])]]
    {
      if !valid[b] {
        data, dirty := data[b := disk[Loc(dev[b], blockno[b])]], dirty[b := false];
      }
      valid := valid[b := true];
    }

    /** The holder changes the buffer. */
    method Store(p: int, b: nat, x: Block)
      requires Valid() && b < n && owner[b] == p != -1
      modifies this`data, this`dirty
      ensures Valid() && data == old(data)[b := x] && dirty == old(dirty)[b := true] && (old(Careful()) ==> Careful())
    {
      data, dirty := data[b := x], dirty[b := true];
    }

    /** bwrite. A false result stands for its panic. */
    method Bwrite(p: int, b: nat) returns (ok: bool)
      requires Valid() && b < n && dev[b] != 0
      modifies this`disk, this`dirty
      ensures Valid() && (ok <==> owner[b] == p && p != -1) && (old(Careful()) ==> Careful())
      ensures dirty == if ok then old(dirty)[b := false] else old(dirty)
      ensures disk == if ok then old(disk)[Loc(dev[b], blockno[b]) := data[b]] else old(disk)
    {
      hide Ring, Recent, Counted;
      if owner[b] != p || p == -1 {
        return false;
      }
      WriteAgrees(dev, blockno, valid, dirty, data, disk, b);
      disk, dirty := disk[Loc(dev[b], blockno[b]) := data[b]], dirty[b := false];
      ok := true;
    }

    /** releasesleep in brelse. A false result stands for the panic. A change is left unlocked and outside the log
        exactly if the buffer has been neither written nor pinned. */
    method ReleaseSleep(p: int, b: nat) returns (ok: bool)
      requires Valid() && b < n
      modifies this`owner
      ensures Valid() && (ok <==> old(owner)[b] == p && p != -1)
      ensures owner == if ok then old(owner)[b := -1] else old(owner)
      ensures old(Careful()) ==> (Careful() <==> !(old(owner)[b] == p && p != -1 && dirty[b] && pins[b] == 0))
    {
      if owner[b] != p || p == -1 {
        return false;
      }
      owner := owner[b := -1];
      ok := true;
    }

    /** The critical section of brelse: gives up the reference, and moves an unused buffer to the front. */
    method DropRef(p: int, b: nat)
      requires Valid() && b < n && p in users[b] && owner[b] != p
      modifies this`refcnt, this`users, this`next, this`prev, this`order, this`pos, this`stamp, this`clock
      ensures Valid() && refcnt == old(refcnt)[b := old(refcnt)[b] - 1] && users == old(users)[b := old(users)[b] - {p}]
      ensures 0 <= old(pos)[b] < |old(order)|
      ensures order == if refcnt[b] == 0 then [b] + Removed(old(order), old(pos)[b]) else old(order)
      ensures old(Careful()) ==> Careful()
    {
      hide Ring, Unique, Agrees, Recent, Counted;
      Drops(refcnt, users, pins, owner, b, p);
      PosIn(order, pos, next, prev, b);
      refcnt, users := refcnt[b := refcnt[b] - 1], users[b := users[b] - {p}];
      if refcnt[b] == 0 {
        ToFront(b);
      }
    }

    /** The six stores that move buffer b to the front of the ring. */
    method ToFront(b: nat)
      requires |pos| == |stamp| == n && b < n && pos[b] != -1 && Ring(next, prev, order, pos)
               && Recent(order, stamp, clock) && |order| == n
      requires forall c {:trigger pos[c]} :: 0 <= c < n ==> pos[c] != -1
      modifies this`next, this`prev, this`order, this`pos, this`stamp, this`clock
      ensures |pos| == |stamp| == n && Ring(next, prev, order, pos) && Recent(order, stamp, clock) && |order| == n
      ensures forall c {:trigger pos[c]} :: 0 <= c < n ==> pos[c] != -1
      ensures 0 <= old(pos)[b] < |old(order)| && order == [b] + Removed(old(order), old(pos)[b])
    {
      hide Ring, Recent;
      PosIn(order, pos, next, prev, b);
      RecentMoved(order, pos, stamp, clock, b);
      Unlink(next, prev, order, pos, b);
      prev := prev[next[b] := prev[b]];
      next := next[prev[b] := next[b]];
      order, pos := Removed(order, pos[b]), Closed(pos, b);
      Insert(next, prev, order, pos, b);
      next := next[b := next[n]];
      prev := prev[b := n];
      prev := prev[next[n] := b];
      next := next[n := b];
      order, pos := [b] + order, Opened(pos, b);
      stamp, clock := stamp[b := clock + 1], clock + 1;
    }

    /** bpin, by a process that has a reference. */
    method Bpin(p: int, b: nat)
      requires Valid() && b < n && p in users[b]
      modifies this`refcnt, this`pins
      ensures Valid() && refcnt == old(refcnt)[b := old(refcnt)[b] + 1] && pins == old(pins)[b := old(pins)[b] + 1]
      ensures old(Careful()) ==> Careful()
    {
      refcnt, pins := refcnt[b := refcnt[b] + 1], pins[b := pins[b] + 1];
    }

    /** bunpin. The last pin of an unlocked buffer may go only if its changes have been written. */
    method Bunpin(b: nat)
      requires Valid() && b < n && pins[b] > 0
      modifies this`refcnt, this`pins
      ensures Valid() && refcnt == old(refcnt)[b := old(refcnt)[b] - 1] && pins == old(pins)[b := old(pins)[b] - 1]
      ensures old(Careful()) ==> (Careful() <==> !(dirty[b] && owner[b] == -1 && old(pins)[b] == 1))
    {
      refcnt, pins := refcnt[b := refcnt[b] - 1], pins[b := pins[b] - 1];
    }
  }

  /** A run in which a change is neither written nor logged before the buffer is released: the buffer is then valid,
      unlocked and not in the log, and differs from the disk. It works with any buffer that is locked and not in the
      log. */
  method CarelessRelease(c: Cache, p: int, b: nat, x: Block)
    requires c.Valid() && b < c.n && c.owner[b] == p != -1 && c.pins[b] == 0 && c.valid[b]
    requires Loc(c.dev[b], c.blockno[b]) in c.disk && c.disk[Loc(c.dev[b], c.blockno[b])] != x
    modifies c
    ensures c.Valid() && !c.Careful() && c.valid[b] && c.owner[b] == -1 && c.pins[b] == 0
    ensures Loc(c.dev[b], c.blockno[b]) in c.disk && c.data[b] != c.disk[Loc(c.dev[b], c.blockno[b])]
  {
    hide Ring, Unique, Agrees, Recent, Counted;
    c.Store(p, b, x);
    var ok := c.ReleaseSleep(p, b);
    assert c.dirty[b];
  }

  lemma Counts(refcnt: seq<int>, users: seq<set<int>>, pins: seq<nat>, owner: seq<int>, b: nat, p: int)
    requires Counted(refcnt, users, pins, owner) && b < |refcnt|
    ensures p !in users[b] ==> Counted(refcnt[b := refcnt[b] + 1], users[b := users[b] + {p}], pins, owner)
    ensures refcnt[b] == 0 ==> users[b] == {} && pins[b] == 0 && owner[b] == -1
  {
  }

  lemma Drops(refcnt: seq<int>, users: seq<set<int>>, pins: seq<nat>, owner: seq<int>, b: nat, p: int)
    requires Counted(refcnt, users, pins, owner) && b < |refcnt| && p in users[b] && owner[b] != p
    ensures Counted(refcnt[b := refcnt[b] - 1], users[b := users[b] - {p}], pins, owner)
  {
  }

  lemma PosIn(order: seq<int>, pos: seq<int>, next: seq<int>, prev: seq<int>, b: nat)
    requires Ring(next, prev, order, pos) && b < |pos| && pos[b] != -1
    ensures 0 <= pos[b] < |order| && Inverse(order, pos) && |next| == |prev| == |pos| + 1
  {
  }

  /** Cache agreement: as long as every change is written or logged before brelse, a valid buffer that is neither
      locked nor in the log equals the disk. */
  lemma Agreement(dev: seq<int>, blockno: seq<int>, valid: seq<bool>, dirty: seq<bool>, data: seq<Block>,
      disk: map<Loc, Block>,
                  owner: seq<int>, pins: seq<nat>, b: nat)
    requires Agrees(dev, blockno, valid, dirty, data, disk) && Logged(dirty, owner, pins) && b < |dev| == |owner|
    requires dev[b] != 0 && valid[b] && owner[b] == -1 && pins[b] == 0
    ensures Loc(dev[b], blockno[b]) in disk && data[b] == disk[Loc(dev[b], blockno[b])]
  {
    var clean := !dirty[b];
  }

  lemma WriteAgrees(dev: seq<int>, blockno: seq<int>, valid: seq<bool>, dirty: seq<bool>, data: seq<Block>,
      disk: map<Loc, Block>, b: nat)
    requires Agrees(dev, blockno, valid, dirty, data, disk) && Unique(dev, blockno) && b < |dev| && dev[b] != 0
    ensures Agrees(dev, blockno, valid, dirty[b := false], data, disk[Loc(dev[b], blockno[b]) := data[b]])
  {
    forall c {:trigger valid[c]} | 0 <= c < |dev| && c != b && dev[c] != 0
      ensures Loc(dev[c], blockno[c]) != Loc(dev[b], blockno[b]) {
      var x, y := dev[b], dev[c];
    }
  }

  /** bget has no buffer to give: none caches the block and all are in use. */
  ghost predicate NoBuffer(dev: seq<int>, blockno: seq<int>, refcnt: seq<int>, d: int, bn: int)
    requires |dev| == |blockno| == |refcnt|
  {
    forall c {:trigger dev[c]} :: 0 <= c < |dev| ==> refcnt[c] != 0 && !(dev[c] == d && blockno[c] == bn)
  }

  lemma RecycleUnique(dev: seq<int>, blockno: seq<int>, b: nat, d: int, bn: int)
    requires Unique(dev, blockno) && b < |dev| && forall c {:trigger dev[c]} ::
               0 <= c < |dev| ==> !(dev[c] == d && blockno[c] == bn)
    ensures Unique(dev[b := d], blockno[b := bn])
  {
  }

  lemma RecycleAgrees(dev: seq<int>, blockno: seq<int>, valid: seq<bool>, dirty: seq<bool>, data: seq<Block>,
      disk: map<Loc, Block>,
                      b: nat, d: int, bn: int)
    requires Agrees(dev, blockno, valid, dirty, data, disk) && b < |dev|
    ensures Agrees(dev[b := d], blockno[b := bn], valid[b := false], dirty[b := false], data, disk)
  {
  }

  /** n - 1, ..., 1, 0 */
  function Descending(n: nat): (r: seq<int>)
    ensures |r| == n && forall i :: 0 <= i < n ==> r[i] == n - 1 - i
  {
    if n == 0 then [] else [n - 1] + Descending(n - 1)
  }

  lemma EmptyRing(next: seq<int>, prev: seq<int>, pos: seq<int>)
    requires |next| == |prev| == |pos| + 1 && next[|pos|] == |pos| == prev[|pos|] && forall c {:trigger pos[c]} ::
               0 <= c < |pos| ==> pos[c] == -1
    ensures Ring(next, prev, [], pos)
  {
  }

  lemma Unused(n: nat, dev: seq<int>, blockno: seq<int>, valid: seq<bool>, refcnt: seq<int>, owner: seq<int>,
      users: seq<set<int>>, pins: seq<nat>,
               dirty: seq<bool>, data: seq<Block>, disk: map<Loc, Block>, order: seq<int>, pos: seq<int>,
                   stamp: seq<nat>)
    requires |dev| == |blockno| == |valid| == |refcnt| == |owner| == |users| == n
    requires |pins| == |dirty| == |data| == |pos| == |stamp| == n
    requires forall b {:trigger dev[b]} {:trigger refcnt[b]} {:trigger valid[b]} {:trigger owner[b]} :: 0 <= b < n ==>
               dev[b] == 0 && !valid[b] && refcnt[b] == 0 && owner[b] == -1 && users[b] == {} && pins[b] == 0
    requires Inverse(order, pos) && forall b {:trigger stamp[b]} :: 0 <= b < n ==> stamp[b] == 0
    ensures Counted(refcnt, users, pins, owner) && Unique(dev, blockno)
            && Agrees(dev, blockno, valid, dirty, data, disk) && Recent(order, stamp, 0)
  {
  }
}
